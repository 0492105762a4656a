/**
  The validated schema document of pileschema.py as plain datatypes, the two
  small attribute helpers (`str2bool`, `stringChoice`), and the traversal
  `processWithDriver` that fires the driver callbacks.

  The traversal is modelled as the sequence of callbacks it fires (a trace);
  each driver is then a fold over that trace.
 */
module PileSchema {
  import opened Strings

  /* ---------------------------------------------------------------- */
  /* The schema tree                                                   */
  /* ---------------------------------------------------------------- */

  /** The datatype element, first child of a column element; `tag` is its
      element name without the namespace, `hasIdentity` tells whether it has
      an `identity` child. */
  datatype DataTypeNode = DataTypeNode(
    tag: string,
    length: Option<string>,
    defaultValue: Option<string>,
    defaultExpression: Option<string>,
    qtype: Option<string>,
    hasIdentity: bool)

  datatype ColumnNode = ColumnNode(
    name: string,
    labelAttr: Option<string>,
    allowNulls: Option<string>,
    dtNode: DataTypeNode)

  /** A table; `primaryKey` is the `name` of the first column of the first
      key of its `primaryKey` child, when there is one. */
  datatype TableNode = TableNode(
    name: string,
    columns: seq<ColumnNode>,
    primaryKey: Option<string>)

  /** The `subset` element of a view; `inTable` is the optional `in` attribute. */
  datatype SubsetNode = SubsetNode(
    name1: string,
    col1: string,
    inTable: Option<string>,
    incol: string,
    where: string,
    constraint: string,
    value: string)

  datatype ViewNode = ViewNode(name: string, subset: Option<SubsetNode>)

  datatype DatabaseNode = DatabaseNode(
    name: string,
    tables: seq<TableNode>,
    views: seq<ViewNode>)

  /* ---------------------------------------------------------------- */
  /* Attribute helpers                                                 */
  /* ---------------------------------------------------------------- */

  /** The spellings that read as true once lower-cased. */
  const TrueWords: seq<string> := ["yes", "true", "t", "1"]

  /** `str2bool`: the lower-cased attribute text is one of TrueWords. */
  function Str2Bool(v: Option<string>): bool {
    v.Some? && Lower(v.value) in TrueWords
  }

  /** A missing attribute is false; otherwise the attribute is true exactly
      when it equals one of TrueWords ignoring case, so a true text has one,
      three or four characters. */
  lemma {:induction false} Str2BoolMeaning(v: Option<string>)
    ensures v.None? ==> !Str2Bool(v)
    ensures v.Some? ==> (Str2Bool(v) <==> exists w :: w in TrueWords && EqualsIgnoreCase(v.value, w))
    ensures Str2Bool(v) ==> |v.value| in {1, 3, 4}
  {
    assert forall w :: w in TrueWords ==> Lower(w) == w;
  }

  lemma {:induction false} Str2BoolSpellings()
    ensures Str2Bool(Some("TRUE")) && Str2Bool(Some("Yes")) && Str2Bool(Some("T")) && Str2Bool(Some("1"))
    ensures !Str2Bool(Some("")) && !Str2Bool(Some("0")) && !Str2Bool(Some("false")) && !Str2Bool(Some("on"))
  {
    assert Lower("TRUE") == "true";
    assert Lower("Yes") == "yes";
    assert Lower("T") == "t";
    assert Lower("1") == "1";
    assert Lower("false") == "false";
    assert Lower("on") == "on";
    assert Lower("0") == "0";
  }

  /** Upper- and lower-case spellings are read alike. */
  lemma {:induction false} Str2BoolIgnoresCase(s: string)
    ensures Str2Bool(Some(s)) == Str2Bool(Some(Lower(s)))
  {
    LowerIdempotent(s);
  }

  /** `stringChoice`: the first text when the choice holds, the second otherwise. */
  function StringChoice(s1: string, s2: string, choice: bool): (r: string)
    ensures choice ==> r == s1
    ensures !choice ==> r == s2
  {
    if choice then s1 else s2
  }

  /** The label handed to the driver for a column: its `label` attribute when
      that is truthy, its name otherwise. */
  function LabelArgument(c: ColumnNode): (r: string)
    ensures Truthy(c.labelAttr) ==> r == c.labelAttr.value && |r| > 0
    ensures !Truthy(c.labelAttr) ==> r == c.name
  {
    StringChoice(TextOr(c.labelAttr), c.name, Truthy(c.labelAttr))
  }

  /* ---------------------------------------------------------------- */
  /* Driver callbacks                                                  */
  /* ---------------------------------------------------------------- */

  /** One driver callback with the arguments the traversal passes it. */
  datatype Event =
    | DatabaseStart(dbName: string)
    | DatabaseEnd(dbName: string)
    | TableStart(tableName: string)
    | TableEnd(tableName: string, table: TableNode)
    | Column(colName: string, labelText: string, datatypeName: string, nulls: bool, dt: DataTypeNode)
    | ViewStart(viewName: string)
    | ViewSubset(view: ViewNode, subset: SubsetNode)
    | ViewEnd(viewName: string)

  /** The callbacks fired, and whether the traversal gave up with -1. */
  datatype Run = Run(events: seq<Event>, failed: bool)

  /* Reference definition of the trace, by structure of the document. */

  function ColumnEvent(c: ColumnNode): Event {
    Column(c.name, LabelArgument(c), c.dtNode.tag, Str2Bool(c.allowNulls), c.dtNode)
  }

  function ColumnEvents(cols: seq<ColumnNode>): (r: seq<Event>)
    ensures |r| == |cols|
    ensures forall i :: 0 <= i < |cols| ==> r[i] == ColumnEvent(cols[i])
  {
    seq(|cols|, i requires 0 <= i < |cols| => ColumnEvent(cols[i]))
  }

  function TableEvents(t: TableNode): seq<Event> {
    [TableStart(t.name)] + ColumnEvents(t.columns) + [TableEnd(t.name, t)]
  }

  function TablesEvents(ts: seq<TableNode>): seq<Event> {
    if |ts| == 0 then [] else TablesEvents(ts[..|ts| - 1]) + TableEvents(ts[|ts| - 1])
  }

  /** The callbacks for a view that has a subset. */
  function ViewEvents(v: ViewNode): seq<Event>
    requires v.subset.Some?
  {
    [ViewStart(v.name), ViewSubset(v, v.subset.value), ViewEnd(v.name)]
  }

  predicate AllViewsHaveSubset(vs: seq<ViewNode>) {
    forall i :: 0 <= i < |vs| ==> vs[i].subset.Some?
  }

  /** The callbacks for the views: a view without a subset gets only its
      `viewStart`, and nothing after it is visited. */
  function ViewsEvents(vs: seq<ViewNode>): seq<Event> {
    if |vs| == 0 then []
    else if vs[0].subset.None? then [ViewStart(vs[0].name)]
    else ViewEvents(vs[0]) + ViewsEvents(vs[1..])
  }

  /** What `processWithDriver` fires for a document, by its structure. */
  function Traversal(db: DatabaseNode): Run {
    var ok := AllViewsHaveSubset(db.views);
    Run([DatabaseStart(db.name)] + TablesEvents(db.tables) + ViewsEvents(db.views)
        + (if ok then [DatabaseEnd(db.name)] else []),
        !ok)
  }

  lemma {:induction false} ViewsEventsSnoc(vs: seq<ViewNode>, v: ViewNode)
    requires AllViewsHaveSubset(vs)
    ensures ViewsEvents(vs + [v]) == ViewsEvents(vs) + (if v.subset.Some? then ViewEvents(v) else [ViewStart(v.name)])
    decreases |vs|
  {
    if |vs| > 0 {
      assert (vs + [v])[1..] == vs[1..] + [v];
      ViewsEventsSnoc(vs[1..], v);
    }
  }

  /** The column loop of `processWithDriver` for one table. */
  method VisitTable(table: TableNode) returns (events: seq<Event>)
    ensures events == TableEvents(table)
  {
    events := [TableStart(table.name)];
    var j := 0;
    while j < |table.columns|
      invariant 0 <= j <= |table.columns|
      invariant events == [TableStart(table.name)] + ColumnEvents(table.columns[..j])
    {
      var column := table.columns[j];
      var labelText := StringChoice(TextOr(column.labelAttr), column.name, Truthy(column.labelAttr));
      events := events + [Column(column.name, labelText, column.dtNode.tag, Str2Bool(column.allowNulls), column.dtNode)];
      assert ColumnEvents(table.columns[..j + 1]) == ColumnEvents(table.columns[..j]) + [ColumnEvent(column)];
      j := j + 1;
    }
    assert table.columns[..j] == table.columns;
    events := events + [TableEnd(table.name, table)];
  }

  /** The view loop of `processWithDriver`; `failed` is its early `return -1`. */
  method VisitViews(views: seq<ViewNode>) returns (events: seq<Event>, failed: bool)
    ensures events == ViewsEvents(views)
    ensures failed <==> !AllViewsHaveSubset(views)
  {
    events := [];
    var k := 0;
    while k < |views|
      invariant 0 <= k <= |views|
      invariant AllViewsHaveSubset(views[..k])
      invariant events == ViewsEvents(views[..k])
    {
      var view := views[k];
      events := events + [ViewStart(view.name)];
      ViewsEventsSnoc(views[..k], view);
      assert views[..k + 1] == views[..k] + [view];
      if view.subset.None? {
        ViewsEventsStopAtMissing(views, k);
        return events, true;
      }
      events := events + [ViewSubset(view, view.subset.value)];
      events := events + [ViewEnd(view.name)];
      k := k + 1;
    }
    assert views[..k] == views;
    failed := false;
  }

  /** `processWithDriver`: `databaseStart`, the tables with their columns in
      document order, the views, then `databaseEnd`; it returns -1 (here
      `failed`) at the first view without a subset. */
  method ProcessWithDriver(db: DatabaseNode) returns (events: seq<Event>, failed: bool)
    ensures Run(events, failed) == Traversal(db)
  {
    var tableEvents := VisitTables(db.tables);
    var viewEvents;
    viewEvents, failed := VisitViews(db.views);
    events := [DatabaseStart(db.name)] + tableEvents + viewEvents;
    if !failed {
      events := events + [DatabaseEnd(db.name)];
    }
  }

  /** The table loop of `processWithDriver`. */
  method VisitTables(tables: seq<TableNode>) returns (events: seq<Event>)
    ensures events == TablesEvents(tables)
  {
    events := [];
    var i := 0;
    while i < |tables|
      invariant 0 <= i <= |tables|
      invariant events == TablesEvents(tables[..i])
    {
      var tableEvents := VisitTable(tables[i]);
      assert TablesEvents(tables[..i + 1]) == TablesEvents(tables[..i]) + tableEvents by {
        assert tables[..i + 1][..i] == tables[..i];
      }
      events := events + tableEvents;
      i := i + 1;
    }
    assert tables[..i] == tables;
  }

  /** Views after the first one without a subset contribute nothing. */
  lemma {:induction false} ViewsEventsStopAtMissing(vs: seq<ViewNode>, k: nat)
    requires k < |vs| && vs[k].subset.None?
    requires AllViewsHaveSubset(vs[..k])
    ensures ViewsEvents(vs[..k + 1]) == ViewsEvents(vs)
    decreases k
  {
    if k > 0 {
      assert vs[..k + 1][1..] == vs[1..][..k];
      assert vs[1..][..k - 1] == vs[..k][1..];
      ViewsEventsStopAtMissing(vs[1..], k - 1);
    }
  }

  /* ---------------------------------------------------------------- */
  /* Properties of the trace                                           */
  /* ---------------------------------------------------------------- */

  /** `databaseStart` is the first callback; the traversal gives up exactly
      when some view lacks a subset, and `databaseEnd` closes the trace
      exactly when it does not give up. */
  lemma {:induction false} TraversalFrame(db: DatabaseNode)
    ensures Traversal(db).events[0] == DatabaseStart(db.name)
    ensures Traversal(db).failed <==> exists i :: 0 <= i < |db.views| && db.views[i].subset.None?
    ensures var e := Traversal(db).events;
      e[|e| - 1] == DatabaseEnd(db.name) <==> !Traversal(db).failed
  {
    var e := Traversal(db).events;
    if Traversal(db).failed {
      var k := FirstMissing(db.views);
      ViewsEventsStopAtMissing(db.views, k);
      ViewsEventsEndsWithStart(db.views[..k + 1], k);
    }
  }

  /** The position of the first view without a subset. */
  function FirstMissing(vs: seq<ViewNode>): (k: nat)
    requires !AllViewsHaveSubset(vs)
    ensures k < |vs| && vs[k].subset.None?
    ensures AllViewsHaveSubset(vs[..k])
  {
    if vs[0].subset.None? then 0
    else
      assert !AllViewsHaveSubset(vs[1..]) by {
        var j :| 0 <= j < |vs| && vs[j].subset.None?;
        assert vs[1..][j - 1] == vs[j];
      }
      var k := 1 + FirstMissing(vs[1..]);
      assert forall i :: 1 <= i < k ==> vs[i] == vs[1..][i - 1];
      k
  }

  lemma {:induction false} ViewsEventsEndsWithStart(vs: seq<ViewNode>, k: nat)
    requires |vs| == k + 1 && vs[k].subset.None?
    requires AllViewsHaveSubset(vs[..k])
    ensures var e := ViewsEvents(vs); |e| > 0 && e[|e| - 1] == ViewStart(vs[k].name)
    decreases k
  {
    if k > 0 {
      assert vs[1..][..k - 1] == vs[..k][1..];
      ViewsEventsEndsWithStart(vs[1..], k - 1);
    }
  }

  /** The tables are opened in document order, one `tableStart` per table. */
  function StartedTables(events: seq<Event>): seq<string> {
    if |events| == 0 then []
    else
      var last := events[|events| - 1];
      StartedTables(events[..|events| - 1]) + (if last.TableStart? then [last.tableName] else [])
  }

  function TableNames(ts: seq<TableNode>): seq<string> {
    Map((t: TableNode) => t.name, ts)
  }

  lemma {:induction false} StartedTablesAppend(a: seq<Event>, b: seq<Event>)
    ensures StartedTables(a + b) == StartedTables(a) + StartedTables(b)
    decreases |b|
  {
    if |b| == 0 {
      assert a + b == a;
    } else {
      assert (a + b)[..|a + b| - 1] == a + b[..|b| - 1];
      StartedTablesAppend(a, b[..|b| - 1]);
    }
  }

  lemma {:induction false} NoStartedTables(events: seq<Event>)
    requires forall i :: 0 <= i < |events| ==> !events[i].TableStart?
    ensures StartedTables(events) == []
    decreases |events|
  {
    if |events| > 0 {
      NoStartedTables(events[..|events| - 1]);
    }
  }

  lemma {:induction false} StartedTablesOfTable(t: TableNode)
    ensures StartedTables(TableEvents(t)) == [t.name]
  {
    var cols := ColumnEvents(t.columns);
    assert StartedTables([TableStart(t.name)]) == [t.name] by {
      assert [TableStart(t.name)][..0] == [];
    }
    assert StartedTables(cols) == [] by {
      NoStartedTables(cols);
    }
    assert StartedTables([TableEnd(t.name, t)]) == [] by {
      assert [TableEnd(t.name, t)][..0] == [];
    }
    StartedTablesAppend([TableStart(t.name)] + cols, [TableEnd(t.name, t)]);
    StartedTablesAppend([TableStart(t.name)], cols);
  }

  lemma {:induction false} StartedTablesOfTables(ts: seq<TableNode>)
    ensures StartedTables(TablesEvents(ts)) == TableNames(ts)
    decreases |ts|
  {
    if |ts| > 0 {
      StartedTablesOfTables(ts[..|ts| - 1]);
      StartedTablesNext(ts);
    }
  }

  lemma {:induction false} StartedTablesNext(ts: seq<TableNode>)
    requires |ts| > 0
    requires StartedTables(TablesEvents(ts[..|ts| - 1])) == TableNames(ts[..|ts| - 1])
    ensures StartedTables(TablesEvents(ts)) == TableNames(ts)
  {
    var t := ts[|ts| - 1];
    var p := ts[..|ts| - 1];
    assert StartedTables(TablesEvents(ts)) == TableNames(p) + [t.name] by {
      StartedTablesAppend(TablesEvents(p), TableEvents(t));
      StartedTablesOfTable(t);
    }
    TableNamesSnoc(ts);
  }

  lemma {:induction false} TableNamesSnoc(ts: seq<TableNode>)
    requires |ts| > 0
    ensures TableNames(ts) == TableNames(ts[..|ts| - 1]) + [ts[|ts| - 1].name]
  {
  }

  lemma {:induction false} NoTableStartInViews(vs: seq<ViewNode>)
    ensures forall i :: 0 <= i < |ViewsEvents(vs)| ==> !ViewsEvents(vs)[i].TableStart?
    decreases |vs|
  {
    if |vs| > 0 && vs[0].subset.Some? {
      NoTableStartInViews(vs[1..]);
    }
  }

  /** Every table of the document, and only those, is opened, in document order. */
  lemma {:induction false} TraversalVisitsTablesInOrder(db: DatabaseNode)
    ensures StartedTables(Traversal(db).events) == TableNames(db.tables)
  {
    var ok := AllViewsHaveSubset(db.views);
    var tail: seq<Event> := if ok then [DatabaseEnd(db.name)] else [];
    StartedTablesAppend([DatabaseStart(db.name)] + TablesEvents(db.tables) + ViewsEvents(db.views), tail);
    StartedTablesAppend([DatabaseStart(db.name)] + TablesEvents(db.tables), ViewsEvents(db.views));
    StartedTablesAppend([DatabaseStart(db.name)], TablesEvents(db.tables));
    assert [DatabaseStart(db.name)][..0] == [];
    if ok {
      assert [DatabaseEnd(db.name)][..0] == [];
    }
    StartedTablesOfTables(db.tables);
    NoTableStartInViews(db.views);
    NoStartedTables(ViewsEvents(db.views));
  }
}
