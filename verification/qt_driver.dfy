/**
  The pure part of `QtDriver` in pileschema.py: the record `column` stores
  for each column, the insertion-ordered column map it is stored in, and the
  template values `fillTableData` derives from that map. The driver is a fold
  over the traversal trace, like `SqlDriver`.
 */
module QtDriver {
  import opened Strings
  import opened PileSchema
  import SqlDriver
  import opened OrderedMaps

  /* ---------------------------------------------------------------- */
  /* The column record                                                 */
  /* ---------------------------------------------------------------- */

  /** What `QtDriver.column` stores under the column's name. */
  datatype ColumnRecord = ColumnRecord(
    qtype: string,
    labelText: string,
    length: Option<string>,
    nulls: bool,
    defval: Option<string>,
    autoincrement: bool,
    datatypeName: string)

  /** `QtDriver.column`: the `qtype` attribute unless it is empty, else the
      datatype name; the `default` attribute unless it is empty, else the
      `defaultExpression` attribute (which may itself be missing or empty). */
  function MakeRecord(labelText: string, datatypeName: string, nulls: bool, dt: DataTypeNode): ColumnRecord {
    ColumnRecord(
      if Truthy(dt.qtype) then dt.qtype.value else datatypeName,
      labelText,
      dt.length,
      nulls,
      if Truthy(dt.defaultValue) then dt.defaultValue else dt.defaultExpression,
      dt.hasIdentity,
      datatypeName)
  }

  /** Both drivers read the same default out of a datatype: the Qt record
      has a non-empty default exactly when the SQL column gets a DEFAULT
      clause, and then it is the same text. The Qt type falls back to the
      datatype name. */
  lemma {:induction false} MakeRecordAgreesWithSql(labelText: string, datatypeName: string, nulls: bool, dt: DataTypeNode)
    ensures var c := MakeRecord(labelText, datatypeName, nulls, dt);
      && (Truthy(c.defval) <==> SqlDriver.DefaultOf(dt).Some?)
      && (Truthy(c.defval) ==> c.defval == SqlDriver.DefaultOf(dt))
      && (!Truthy(dt.qtype) ==> c.qtype == datatypeName)
      && c.autoincrement == dt.hasIdentity
  {
  }

  /** The record stored for a column of the document. */
  function RecordOf(c: ColumnNode): ColumnRecord {
    MakeRecord(LabelArgument(c), c.dtNode.tag, Str2Bool(c.allowNulls), c.dtNode)
  }

  /** `self.columns`: column records by column name, in insertion order. */
  type ColumnMap = seq<Entry<ColumnRecord>>

  /** The column map after the `column` callbacks of `cols`, starting from `m`. */
  function PutColumns(m: ColumnMap, cols: seq<ColumnNode>): ColumnMap {
    if |cols| == 0 then m
    else
      var last := cols[|cols| - 1];
      Put(PutColumns(m, cols[..|cols| - 1]), last.name, RecordOf(last))
  }

  /** The column map of a table: `tableStart` starts an empty one. */
  function TableColumnMap(t: TableNode): ColumnMap {
    PutColumns([], t.columns)
  }

  function ColumnNames(cols: seq<ColumnNode>): seq<string> {
    Map((c: ColumnNode) => c.name, cols)
  }

  predicate DistinctNames(cols: seq<ColumnNode>) {
    forall i, j :: 0 <= i < j < |cols| ==> cols[i].name != cols[j].name
  }

  /** Every column name of a table is a key of its map, each exactly once;
      a name repeated in the document keeps its first position and its
      last record. */
  lemma {:induction false} TableColumnMapKeys(cols: seq<ColumnNode>)
    ensures UniqueKeys(PutColumns([], cols))
    ensures forall n :: n in Keys(PutColumns([], cols)) <==> n in ColumnNames(cols)
    decreases |cols|
  {
    if |cols| > 0 {
      var p := cols[..|cols| - 1];
      var last := cols[|cols| - 1];
      TableColumnMapKeys(p);
      var m := PutColumns([], p);
      PutMeaning(m, last.name, RecordOf(last));
      assert ColumnNames(cols) == ColumnNames(p) + [last.name];
      assert last.name in Keys(m) <==> KeyIndex(m, last.name) >= 0 by {
        if last.name in Keys(m) {
          var j :| 0 <= j < |Keys(m)| && Keys(m)[j] == last.name;
          assert m[j].key == last.name;
        }
      }
    }
  }

  /** With distinct column names the keys are the names in document order. */
  lemma {:induction false} TableColumnMapOrder(cols: seq<ColumnNode>)
    requires DistinctNames(cols)
    ensures Keys(PutColumns([], cols)) == ColumnNames(cols)
    decreases |cols|
  {
    if |cols| > 0 {
      var p := cols[..|cols| - 1];
      var last := cols[|cols| - 1];
      TableColumnMapOrder(p);
      var m := PutColumns([], p);
      PutMeaning(m, last.name, RecordOf(last));
      assert KeyIndex(m, last.name) == -1 by {
        assert forall j :: 0 <= j < |p| ==> m[j].key == Keys(m)[j] == cols[j].name;
      }
      assert ColumnNames(cols) == ColumnNames(p) + [last.name];
    }
  }

  /* ---------------------------------------------------------------- */
  /* Quoted column lists                                               */
  /* ---------------------------------------------------------------- */

  /** Python's `' ' * n`. */
  function Spaces(n: nat): (r: string)
    ensures |r| == n
    ensures forall i :: 0 <= i < n ==> r[i] == ' '
  {
    if n == 0 then "" else Spaces(n - 1) + " "
  }

  /** The indentation of every line of a quoted list. */
  const Indent: string := Spaces(12)

  /** The close of every line the loop appends: a comma inside the literal,
      the closing quote and a newline. */
  const EntryClose: string := ",\"\n"

  /** A line of a quoted list up to the end of the item's text. */
  function OpenEntry(item: string): string {
    Indent + "\"" + item
  }

  /** What the `fillTableData` loop appends for one item. */
  function QuotedEntry(item: string): string {
    OpenEntry(item) + EntryClose
  }

  function QuotedEntries(items: seq<string>): string {
    if |items| == 0 then "" else QuotedEntries(items[..|items| - 1]) + QuotedEntry(items[|items| - 1])
  }

  /** `acc[:-3] + '"'` exactly as `fillTableData` writes it. */
  function CloseListAsWritten(acc: string): string {
    DropLast(acc, 3) + "\""
  }

  function QuotedListAsWritten(items: seq<string>): string {
    CloseListAsWritten(QuotedEntries(items))
  }

  /** The close with the empty list rendered as the empty literal. */
  function CloseList(acc: string): string {
    if |acc| == 0 then "\"\"" else DropLast(acc, 3) + "\""
  }

  /** A list of items as adjacent C++ string literals, one per line, for
      the `QLatin1String(...)` bodies of the generated meta class. */
  function QuotedList(items: seq<string>): string {
    CloseList(QuotedEntries(items))
  }

  function QuoteCount(s: string): nat {
    if |s| == 0 then 0 else QuoteCount(s[..|s| - 1]) + (if s[|s| - 1] == '"' then 1 else 0)
  }

  lemma {:induction false} QuoteCountAppend(a: string, b: string)
    ensures QuoteCount(a + b) == QuoteCount(a) + QuoteCount(b)
    decreases |b|
  {
    if |b| == 0 {
      assert a + b == a;
    } else {
      assert (a + b)[..|a + b| - 1] == a + b[..|b| - 1];
      QuoteCountAppend(a, b[..|b| - 1]);
    }
  }

  lemma {:induction false} QuoteCountChar(c: char)
    ensures QuoteCount([c]) == if c == '"' then 1 else 0
  {
    assert [c][..0] == [];
  }

  lemma {:induction false} QuoteCountNone(s: string)
    requires forall i :: 0 <= i < |s| ==> s[i] != '"'
    ensures QuoteCount(s) == 0
    decreases |s|
  {
    if |s| > 0 {
      QuoteCountNone(s[..|s| - 1]);
    }
  }

  lemma {:induction false} EntryCloseQuotes()
    ensures QuoteCount(EntryClose) == 1
  {
    assert EntryClose == [','] + ['"'] + ['\n'];
    QuoteCountChar(',');
    QuoteCountChar('"');
    QuoteCountChar('\n');
    QuoteCountAppend([','], ['"']);
    QuoteCountAppend([','] + ['"'], ['\n']);
  }

  predicate Unquoted(items: seq<string>) {
    forall i :: 0 <= i < |items| ==> QuoteCount(items[i]) == 0
  }

  /** As written, a list with no items renders as a single quote: the
      `QLatin1String(` it is pasted into gets an unterminated literal. */
  lemma {:induction false} QuotedListAsWrittenEmpty()
    ensures QuotedListAsWritten([]) == "\""
    ensures QuoteCount(QuotedListAsWritten([])) == 1
  {
    assert "\""[..0] == "";
  }

  lemma {:induction false} OpenEntryQuotes(item: string)
    requires QuoteCount(item) == 0
    ensures QuoteCount(OpenEntry(item)) == 1
  {
    QuoteCountNone(Indent);
    QuoteCountChar('"');
    QuoteCountAppend(Indent, "\"");
    QuoteCountAppend(Indent + "\"", item);
  }

  lemma {:induction false} QuotedEntriesQuotes(items: seq<string>)
    requires Unquoted(items)
    ensures QuoteCount(QuotedEntries(items)) == 2 * |items|
    decreases |items|
  {
    if |items| > 0 {
      var p := items[..|items| - 1];
      var x := items[|items| - 1];
      QuotedEntriesQuotes(p);
      OpenEntryQuotes(x);
      EntryCloseQuotes();
      QuoteCountAppend(OpenEntry(x), EntryClose);
      QuoteCountAppend(QuotedEntries(p), QuotedEntry(x));
    }
  }

  /** The last entry loses its comma, quote and newline and gets its quote back. */
  lemma {:induction false} QuotedListLast(items: seq<string>)
    requires |items| > 0
    ensures QuotedList(items) == QuotedEntries(items[..|items| - 1]) + OpenEntry(items[|items| - 1]) + "\""
    ensures QuotedList(items) == QuotedListAsWritten(items)
  {
    var p := QuotedEntries(items[..|items| - 1]);
    var x := items[|items| - 1];
    AppendAssoc(p, OpenEntry(x), EntryClose);
    DropLastOfSuffix(p + OpenEntry(x), EntryClose);
  }

  /** With the empty list fixed, every quoted list has balanced quotes: two
      per item, or the two of the empty literal. */
  lemma {:induction false} QuotedListQuotes(items: seq<string>)
    requires Unquoted(items)
    ensures QuoteCount(QuotedList(items)) == 2 * (if |items| == 0 then 1 else |items|)
  {
    if |items| == 0 {
      assert QuotedList(items) == "\"\"";
      QuoteCountChar('"');
      QuoteCountAppend("\"", "\"");
    } else {
      var p := items[..|items| - 1];
      var x := items[|items| - 1];
      QuotedListLast(items);
      QuotedEntriesQuotes(p);
      OpenEntryQuotes(x);
      QuoteCountAppend(QuotedEntries(p), OpenEntry(x));
      QuoteCountAppend(QuotedEntries(p) + OpenEntry(x), "\"");
      QuoteCountChar('"');
    }
  }

  /** Line `j` of a quoted list: the item in quotes, with a comma inside
      the quotes on every line but the last. */
  function QuotedLine(items: seq<string>, j: nat): string
    requires j < |items|
  {
    OpenEntry(items[j]) + (if j < |items| - 1 then ",\"" else "\"")
  }

  function QuotedLines(items: seq<string>): (r: seq<string>)
    ensures |r| == |items|
    ensures forall j :: 0 <= j < |items| ==> r[j] == QuotedLine(items, j)
  {
    seq(|items|, j requires 0 <= j < |items| => QuotedLine(items, j))
  }

  /** The lines the loop has appended so far, each closed with a comma. */
  function ContinuedLines(items: seq<string>): (r: seq<string>)
    ensures |r| == |items|
    ensures forall j :: 0 <= j < |items| ==> r[j] == OpenEntry(items[j]) + ",\""
  {
    seq(|items|, j requires 0 <= j < |items| => OpenEntry(items[j]) + ",\"")
  }

  lemma {:induction false} QuotedEntriesAreLines(items: seq<string>)
    ensures QuotedEntries(items) == Concat(Terminated(ContinuedLines(items), "\n"))
    decreases |items|
  {
    if |items| > 0 {
      var p := items[..|items| - 1];
      var x := items[|items| - 1];
      QuotedEntriesAreLines(p);
      var t := Terminated(ContinuedLines(items), "\n");
      assert t[..|t| - 1] == Terminated(ContinuedLines(p), "\n");
      assert QuotedEntry(x) == t[|t| - 1] by {
        assert EntryClose == ",\"" + "\n";
        AppendAssoc(OpenEntry(x), ",\"", "\n");
      }
    }
  }

  /** A non-empty quoted list is its lines joined by newlines; read as
      adjacent C++ literals it spells the items separated by commas. */
  lemma {:induction false} QuotedListLines(items: seq<string>)
    requires |items| > 0
    ensures QuotedList(items) == Join(QuotedLines(items), "\n")
  {
    var n := |items|;
    var p := items[..n - 1];
    var x := items[n - 1];
    var lines := QuotedLines(items);
    QuotedListLast(items);
    assert lines[n - 1] == OpenEntry(x) + "\"";
    if n == 1 {
      assert QuotedEntries(p) == "";
    } else {
      assert lines[..n - 1] == ContinuedLines(p);
      QuotedEntriesAreLines(p);
      ConcatTerminatedIsJoin(ContinuedLines(p), "\n");
      AppendAssoc(Join(ContinuedLines(p), "\n") + "\n", OpenEntry(x), "\"");
    }
  }

  /* ---------------------------------------------------------------- */
  /* fillTableData                                                     */
  /* ---------------------------------------------------------------- */

  /** The Qt types `fillTableData` can convert: the keys of FROM_VARIANT and TO_CAST. */
  const QTypes: set<string> :=
    {"QString", "bool", "long", "byte", "short", "int", "double", "float", "QDateTime", "QDate", "QTime"}

  /** The datatypes for which the generated class exposes its `id` column. */
  const IntegerIdTypes: set<string> := {"long", "int", "bigint", "smallint", "tinyint"}

  /** The template values this model derives for a table. */
  datatype TableData = TableData(
    idColumn: string,
    getIdResult: string,
    setIdResult: string,
    columnCount: string,
    commaColumns: string,
    commaColumnsNoId: string,
    columnColumns: string,
    assignColumns: string)

  /** `fillTableData` either fills the values or stops with a KeyError on
      the first column whose Qt type it cannot convert. */
  datatype Filled = Filled(data: TableData) | UnknownQType(qtype: string)

  /** The position of the first column whose Qt type is not convertible, or -1. */
  function FirstUnknownQType(m: ColumnMap): (i: int)
    ensures -1 <= i < |m|
    ensures i >= 0 ==> m[i].value.qtype !in QTypes && forall j :: 0 <= j < i ==> m[j].value.qtype in QTypes
    ensures i == -1 ==> forall j :: 0 <= j < |m| ==> m[j].value.qtype in QTypes
  {
    if |m| == 0 then -1
    else if m[0].value.qtype !in QTypes then 0
    else
      var r := FirstUnknownQType(m[1..]);
      if r == -1 then -1 else r + 1
  }

  lemma {:induction false} FirstUnknownQTypeIs(m: ColumnMap, i: int)
    requires -1 <= i < |m|
    requires i >= 0 ==> m[i].value.qtype !in QTypes
    requires forall j :: 0 <= j < |m| && (i == -1 || j < i) ==> m[j].value.qtype in QTypes
    ensures FirstUnknownQType(m) == i
  {
  }

  /** The three shapes of a column-list item. */
  datatype ListKind = Names | Placeholders | Assignments

  /** `col`, `:col` or `col=:col`. */
  function Item(kind: ListKind, k: string): string {
    match kind
    case Names => k
    case Placeholders => ":" + k
    case Assignments => k + "=:" + k
  }

  /** The items of every column of `m`, in order. */
  function ItemsOf(kind: ListKind, m: ColumnMap): (r: seq<string>)
    ensures |r| == |m|
    ensures forall j :: 0 <= j < |m| ==> r[j] == Item(kind, m[j].key)
  {
    seq(|m|, j requires 0 <= j < |m| => Item(kind, m[j].key))
  }

  lemma {:induction false} ItemsOfSnoc(kind: ListKind, m: ColumnMap, e: Entry<ColumnRecord>)
    ensures ItemsOf(kind, m + [e]) == ItemsOf(kind, m) + [Item(kind, e.key)]
  {
  }

  lemma {:induction false} QuotedEntriesSnoc(items: seq<string>, x: string)
    ensures QuotedEntries(items + [x]) == QuotedEntries(items) + QuotedEntry(x)
  {
    assert (items + [x])[..|items|] == items;
  }

  /** One more column adds its line to a list of every column. */
  lemma {:induction false} AllColumnsStep(kind: ListKind, m: ColumnMap, e: Entry<ColumnRecord>)
    ensures QuotedEntries(ItemsOf(kind, m + [e])) == QuotedEntries(ItemsOf(kind, m)) + QuotedEntry(Item(kind, e.key))
  {
    ItemsOfSnoc(kind, m, e);
    QuotedEntriesSnoc(ItemsOf(kind, m), Item(kind, e.key));
  }

  /** One more column adds its line to a list without `id` unless it is `id`. */
  lemma {:induction false} NonIdColumnsStep(kind: ListKind, m: ColumnMap, e: Entry<ColumnRecord>)
    ensures QuotedEntries(ItemsOf(kind, Remove(m + [e], "id")))
         == QuotedEntries(ItemsOf(kind, Remove(m, "id"))) + (if e.key != "id" then QuotedEntry(Item(kind, e.key)) else "")
  {
    RemoveSnoc(m, e, "id");
    if e.key != "id" {
      AllColumnsStep(kind, Remove(m, "id"), e);
    } else {
      assert Remove(m + [e], "id") == Remove(m, "id");
    }
  }

  /** The values `fillTableData` computes from the column map, or the KeyError. */
  function FillTable(m: ColumnMap): Filled {
    var u := FirstUnknownQType(m);
    if u >= 0 then UnknownQType(m[u].value.qtype)
    else
      var id := LastKeyIndex(m, "id");
      var integerId := id >= 0 && m[id].value.datatypeName in IntegerIdTypes;
      Filled(TableData(
        if id >= 0 then NatToDecimal(id) else "COLID_INVALID",
        if integerId then "id" else "COLID_INVALID",
        if integerId then "id = value" else "// id unavailable in this model",
        NatToDecimal(|m|),
        QuotedList(ItemsOf(Names, m)),
        QuotedList(ItemsOf(Names, Remove(m, "id"))),
        QuotedList(ItemsOf(Placeholders, Remove(m, "id"))),
        QuotedList(ItemsOf(Assignments, Remove(m, "id")))))
  }

  /** The four lists the `fillTableData` loop accumulates, before closing. */
  datatype OpenLists = OpenLists(all: string, noId: string, placeholders: string, assignments: string)

  /** What one iteration of the loop appends for entry `e`. */
  function AddColumn(l: OpenLists, e: Entry<ColumnRecord>): OpenLists {
    var all := l.all + QuotedEntry(Item(Names, e.key));
    if e.key == "id" then l.(all := all)
    else OpenLists(
      all,
      l.noId + QuotedEntry(Item(Names, e.key)),
      l.placeholders + QuotedEntry(Item(Placeholders, e.key)),
      l.assignments + QuotedEntry(Item(Assignments, e.key)))
  }

  /** The lists as the reference definition describes them. */
  function ListsOf(m: ColumnMap): OpenLists {
    OpenLists(
      QuotedEntries(ItemsOf(Names, m)),
      QuotedEntries(ItemsOf(Names, Remove(m, "id"))),
      QuotedEntries(ItemsOf(Placeholders, Remove(m, "id"))),
      QuotedEntries(ItemsOf(Assignments, Remove(m, "id"))))
  }

  /** One loop iteration keeps the accumulated lists equal to the reference lists. */
  lemma {:induction false} ListsOfSnoc(m: ColumnMap, e: Entry<ColumnRecord>)
    ensures ListsOf(m + [e]) == AddColumn(ListsOf(m), e)
  {
    AllColumnsStep(Names, m, e);
    NonIdColumnsStep(Names, m, e);
    NonIdColumnsStep(Placeholders, m, e);
    NonIdColumnsStep(Assignments, m, e);
  }

  /** The values computed after the loop, from the index of `id` (or -1)
      and the accumulated lists. */
  function CloseTable(m: ColumnMap, idColumn: int, lists: OpenLists): TableData
    requires -1 <= idColumn < |m|
  {
    var integerId := idColumn != -1 && m[idColumn].value.datatypeName in IntegerIdTypes;
    TableData(
      if idColumn == -1 then "COLID_INVALID" else NatToDecimal(idColumn),
      if integerId then "id" else "COLID_INVALID",
      if integerId then "id = value" else "// id unavailable in this model",
      NatToDecimal(|m|),
      CloseList(lists.all),
      CloseList(lists.noId),
      CloseList(lists.placeholders),
      CloseList(lists.assignments))
  }

  /** One iteration of the `fillTableData` loop keeps the index of `id`
      and the open lists equal to those of the prefix it has visited. */
  lemma {:induction false} ScanStep(m: ColumnMap, i: nat)
    requires i < |m|
    ensures (if m[i].key == "id" then i else LastKeyIndex(m[..i], "id")) == LastKeyIndex(m[..i + 1], "id")
    ensures AddColumn(ListsOf(m[..i]), m[i]) == ListsOf(m[..i + 1])
  {
    var p := m[..i];
    assert m[..i + 1] == p + [m[i]];
    assert (p + [m[i]])[..i] == p;
    ListsOfSnoc(p, m[i]);
  }

  lemma {:induction false} KnownStep(m: ColumnMap, i: nat)
    requires i < |m|
    requires forall j :: 0 <= j < i ==> m[j].value.qtype in QTypes
    requires m[i].value.qtype in QTypes
    ensures forall j :: 0 <= j < i + 1 ==> m[j].value.qtype in QTypes
  {
  }

  /** The loop of `fillTableData`: it stops at the first column whose Qt
      type has no conversion, and otherwise yields the index of `id` and the
      four open lists. */
  method ScanColumns(m: ColumnMap) returns (unknown: int, idColumn: int, lists: OpenLists)
    ensures unknown == FirstUnknownQType(m)
    ensures unknown == -1 ==> idColumn == LastKeyIndex(m, "id") && lists == ListsOf(m)
  {
    idColumn := -1;
    lists := OpenLists("", "", "", "");
    var i := 0;
    while i < |m|
      invariant 0 <= i <= |m|
      invariant forall j :: 0 <= j < i ==> m[j].value.qtype in QTypes
      invariant idColumn == LastKeyIndex(m[..i], "id")
      invariant lists == ListsOf(m[..i])
    {
      var e := m[i];
      if e.value.qtype !in QTypes {
        FirstUnknownQTypeIs(m, i);
        return i, idColumn, lists;
      }
      ScanStep(m, i);
      KnownStep(m, i);
      if e.key == "id" {
        idColumn := i;
      }
      lists := AddColumn(lists, e);
      i := i + 1;
    }
    assert m[..i] == m;
    FirstUnknownQTypeIs(m, -1);
    unknown := -1;
  }

  /** `fillTableData`: the KeyError of the first unconvertible column, or
      the template values. It agrees with the reference definition. */
  method FillTableData(m: ColumnMap) returns (r: Filled)
    ensures r == FillTable(m)
  {
    var unknown, idColumn, lists := ScanColumns(m);
    if unknown != -1 {
      return UnknownQType(m[unknown].value.qtype);
    }
    r := Filled(CloseTable(m, idColumn, lists));
  }

  /** The KeyError: `fillTableData` fails exactly when some column's Qt
      type has no conversion, and it names the first such column's type. */
  lemma {:induction false} FillTableUnknown(m: ColumnMap)
    ensures FillTable(m).UnknownQType? <==> exists j :: 0 <= j < |m| && m[j].value.qtype !in QTypes
    ensures FillTable(m).UnknownQType? ==>
      exists j :: 0 <= j < |m| && m[j].value.qtype == FillTable(m).qtype && FillTable(m).qtype !in QTypes
        && forall i :: 0 <= i < j ==> m[i].value.qtype in QTypes
  {
    var u := FirstUnknownQType(m);
    if u >= 0 {
      assert m[u].value.qtype == FillTable(m).qtype;
    }
  }

  /** COLUMN_COUNT reads back as the number of columns. */
  lemma {:induction false} FillTableColumnCount(m: ColumnMap)
    requires FillTable(m).Filled?
    ensures DecimalValue(FillTable(m).data.columnCount) == |m|
  {
    DecimalRoundTrip(|m|);
  }

  /** ID_COLUMN is COLID_INVALID exactly when there is no `id` column, and
      otherwise reads back as its position. */
  lemma {:induction false} FillTableIdColumn(m: ColumnMap)
    requires UniqueKeys(m)
    requires FillTable(m).Filled?
    ensures FillTable(m).data.idColumn == "COLID_INVALID" <==> "id" !in Keys(m)
    ensures "id" in Keys(m) ==> DecimalValue(FillTable(m).data.idColumn) == KeyIndex(m, "id")
  {
    LastKeyIndexUnique(m, "id");
    var id := KeyIndex(m, "id");
    if id >= 0 {
      IdColumnPresent(m, id);
    } else {
      assert forall j :: 0 <= j < |Keys(m)| ==> Keys(m)[j] != "id";
    }
  }

  lemma {:induction false} IdColumnPresent(m: ColumnMap, id: nat)
    requires id < |m| && KeyIndex(m, "id") == id && LastKeyIndex(m, "id") == id
    requires FillTable(m).Filled?
    ensures "id" in Keys(m)
    ensures FillTable(m).data.idColumn == NatToDecimal(id) != "COLID_INVALID"
    ensures DecimalValue(FillTable(m).data.idColumn) == id
  {
    DecimalRoundTrip(id);
    assert Keys(m)[id] == "id";
    assert NatToDecimal(id)[0] != "COLID_INVALID"[0];
  }

  /** The generated class exposes its id (GET_ID_RESULT is `id` and
      SET_ID_RESULT assigns it) exactly when the map has an `id` column with
      an integer datatype. */
  lemma {:induction false} FillTableIdAccess(m: ColumnMap)
    requires UniqueKeys(m)
    requires FillTable(m).Filled?
    ensures var d := FillTable(m).data;
      && (d.getIdResult == "id" <==> Lookup(m, "id").Some? && Lookup(m, "id").value.datatypeName in IntegerIdTypes)
      && (d.setIdResult == "id = value" <==> d.getIdResult == "id")
  {
    LastKeyIndexUnique(m, "id");
  }

  lemma {:induction false} NamesAreKeys(m: ColumnMap)
    ensures ItemsOf(Names, m) == Keys(m)
  {
  }

  /** The keys other than `id`, in map order. */
  function KeysWithoutId(m: ColumnMap): seq<string> {
    var i := KeyIndex(m, "id");
    if i >= 0 then Keys(m)[..i] + Keys(m)[i + 1..] else Keys(m)
  }

  lemma {:induction false} NonIdNamesAreKeys(m: ColumnMap)
    requires UniqueKeys(m)
    ensures ItemsOf(Names, Remove(m, "id")) == KeysWithoutId(m)
  {
    var i := KeyIndex(m, "id");
    if i >= 0 {
      RemoveUnique(m, "id");
      KeysCut(m, i);
    } else {
      RemoveAbsent(m, "id");
    }
    NamesAreKeys(Remove(m, "id"));
  }

  /** COMMA_COLUMNS lists every key, and the three lists that leave out
      `id` list every other key, in map order. */
  lemma {:induction false} FillTableLists(m: ColumnMap)
    requires UniqueKeys(m)
    requires FillTable(m).Filled?
    ensures FillTable(m).data.commaColumns == QuotedList(Keys(m))
    ensures FillTable(m).data.commaColumnsNoId == QuotedList(KeysWithoutId(m))
    ensures FillTable(m).data.columnColumns == QuotedList(Map((k: string) => Item(Placeholders, k), KeysWithoutId(m)))
    ensures FillTable(m).data.assignColumns == QuotedList(Map((k: string) => Item(Assignments, k), KeysWithoutId(m)))
    ensures |Remove(m, "id")| == |KeysWithoutId(m)|
  {
    NamesAreKeys(m);
    NonIdNamesAreKeys(m);
    NonIdItems(Placeholders, m);
    NonIdItems(Assignments, m);
  }

  /** The items of the columns other than `id` are the items of the keys other than `id`. */
  lemma {:induction false} NonIdItems(kind: ListKind, m: ColumnMap)
    requires UniqueKeys(m)
    ensures ItemsOf(kind, Remove(m, "id")) == Map((k: string) => Item(kind, k), KeysWithoutId(m))
  {
    var rest := Remove(m, "id");
    NonIdNamesAreKeys(m);
    assert forall j :: 0 <= j < |rest| ==> rest[j].key == ItemsOf(Names, rest)[j];
  }

  /** With keys free of quote characters, every list `fillTableData` fills
      has balanced quotes, including a list left empty when the only
      column is `id`. */
  lemma {:induction false} FillTableListsBalanced(m: ColumnMap)
    requires UniqueKeys(m)
    requires Unquoted(Keys(m))
    requires FillTable(m).Filled?
    ensures QuoteCount(FillTable(m).data.commaColumns) == 2 * (if |m| == 0 then 1 else |m|)
    ensures var n := |KeysWithoutId(m)|;
      QuoteCount(FillTable(m).data.commaColumnsNoId) == 2 * (if n == 0 then 1 else n)
  {
    FillTableLists(m);
    QuotedListQuotes(Keys(m));
    KeysWithoutIdUnquoted(m);
    QuotedListQuotes(KeysWithoutId(m));
  }

  lemma {:induction false} KeysWithoutIdUnquoted(m: ColumnMap)
    requires Unquoted(Keys(m))
    ensures Unquoted(KeysWithoutId(m))
  {
    var i := KeyIndex(m, "id");
    if i >= 0 {
      var ks := Keys(m);
      var rest := ks[..i] + ks[i + 1..];
      assert forall j :: 0 <= j < |rest| ==> rest[j] == ks[if j < i then j else j + 1];
    }
  }

  /** As written, a table whose only column is `id` gets a
      COMMA_COLUMNS_NO_ID of one lone quote; the corrected close renders
      the empty literal. */
  lemma {:induction false} OnlyIdColumnAsWritten(c: ColumnRecord)
    requires c.qtype in QTypes
    ensures QuotedListAsWritten(ItemsOf(Names, Remove([Entry("id", c)], "id"))) == "\""
    ensures FillTable([Entry("id", c)]).data.commaColumnsNoId == "\"\""
  {
    var m := [Entry("id", c)];
    assert m[..0] == [];
    assert Remove(m, "id") == [];
    QuotedListAsWrittenEmpty();
  }

  /* ---------------------------------------------------------------- */
  /* The driver as a fold over the trace                               */
  /* ---------------------------------------------------------------- */

  /** `self.tables`: each table's entry is `{}` from `tableStart` until
      `tableEnd` stores its column map under `'columns'`. */
  type TableMap = seq<Entry<Option<ColumnMap>>>

  /** The attributes of `QtDriver` the callbacks read and write, and the
      template values filled for each table and view, in order.
      `hasData` tells whether `bootstrapData` has filled `self.data`,
      which holds `{}` until the first `tableStart` or `viewStart`. */
  datatype QtState = QtState(
    dbName: string,
    hasData: bool,
    tables: TableMap,
    views: seq<Entry<()>>,
    columns: ColumnMap,
    filled: seq<Entry<TableData>>)

  /** The exceptions the callbacks can raise. */
  datatype QtError =
    | UnknownType(qtype: string)
    | MissingTable(name: string)
    | MissingDataKey(key: string)

  datatype QtRun = Running(state: QtState) | Raised(error: QtError)

  const QtInit: QtState := QtState("", false, [], [], [], [])

  /** `fillTableData` for the current column map, recording the values
      under `name`, or the KeyError it raises. */
  function FillInto(fill: ColumnMap -> Filled, s: QtState, name: string): QtRun {
    match fill(s.columns)
    case UnknownQType(q) => Raised(UnknownType(q))
    case Filled(d) => Running(s.(filled := s.filled + [Entry(name, d)]))
  }

  /** The columns stored for a table, if `tableEnd` has stored them. */
  function StoredColumns(tables: TableMap, name: string): Option<ColumnMap> {
    var l := Lookup(tables, name);
    if l.Some? then l.value else None
  }

  /** One callback of `QtDriver`. */
  function QtHandle(fill: ColumnMap -> Filled, s: QtState, e: Event): QtRun {
    match e
    case DatabaseStart(name) => Running(s.(dbName := name))
    case DatabaseEnd(_) =>
      // the output file names read `self.data['database']`
      if !s.hasData then Raised(MissingDataKey("database")) else Running(s.(dbName := ""))
    case TableStart(name) => Running(s.(tables := Put(s.tables, name, None), columns := [], hasData := true))
    case Column(name, labelText, datatypeName, nulls, dt) =>
      Running(s.(columns := Put(s.columns, name, MakeRecord(labelText, datatypeName, nulls, dt))))
    case TableEnd(name, _) =>
      if KeyIndex(s.tables, name) == -1 then Raised(MissingTable(name))
      else FillInto(fill, s.(tables := Put(s.tables, name, Some(s.columns))), name)
    case ViewStart(name) => Running(s.(views := Put(s.views, name, ()), columns := [], hasData := true))
    case ViewSubset(view, subset) =>
      var stored := StoredColumns(s.tables, subset.name1);
      if stored.None? then Raised(MissingTable(subset.name1))
      else FillInto(fill, s.(columns := stored.value), view.name)
    case ViewEnd(_) => Running(s)
  }

  /** The callbacks in order; the first exception ends the run. */
  function QtFold(fill: ColumnMap -> Filled, r: QtRun, events: seq<Event>): QtRun {
    if |events| == 0 then r
    else
      match QtFold(fill, r, events[..|events| - 1])
      case Raised(err) => Raised(err)
      case Running(s) => QtHandle(fill, s, events[|events| - 1])
  }

  lemma {:induction false} QtFoldAppend(fill: ColumnMap -> Filled, r: QtRun, a: seq<Event>, b: seq<Event>)
    ensures QtFold(fill, r, a + b) == QtFold(fill, QtFold(fill, r, a), b)
    decreases |b|
  {
    if |b| == 0 {
      assert a + b == a;
    } else {
      assert (a + b)[..|a + b| - 1] == a + b[..|b| - 1];
      QtFoldAppend(fill, r, a, b[..|b| - 1]);
    }
  }

  lemma {:induction false} QtFoldRaised(fill: ColumnMap -> Filled, err: QtError, events: seq<Event>)
    ensures QtFold(fill, Raised(err), events) == Raised(err)
    decreases |events|
  {
    if |events| > 0 {
      QtFoldRaised(fill, err, events[..|events| - 1]);
    }
  }

  /** The `column` callbacks of a table build its column map. */
  lemma {:induction false} QtFoldColumns(fill: ColumnMap -> Filled, s: QtState, cols: seq<ColumnNode>)
    ensures QtFold(fill, Running(s), ColumnEvents(cols)) == Running(s.(columns := PutColumns(s.columns, cols)))
    decreases |cols|
  {
    if |cols| > 0 {
      var p := cols[..|cols| - 1];
      assert ColumnEvents(cols)[..|cols| - 1] == ColumnEvents(p);
      QtFoldColumns(fill, s, p);
    }
  }

  /** The state after one table's callbacks when nothing is raised:
      `tableStart` enters the name, `tableEnd` stores the column map, and
      `fillTableData` fills its values. */
  function AfterTable(fill: ColumnMap -> Filled, s: QtState, t: TableNode): QtRun {
    var cols := TableColumnMap(t);
    FillInto(fill, s.(tables := Put(Put(s.tables, t.name, None), t.name, Some(cols)), columns := cols, hasData := true), t.name)
  }

  lemma {:induction false} QtFoldTable(fill: ColumnMap -> Filled, s: QtState, t: TableNode)
    ensures QtFold(fill, Running(s), TableEvents(t)) == AfterTable(fill, s, t)
  {
    var start := [TableStart(t.name)];
    var body := start + ColumnEvents(t.columns);
    var s1 := s.(tables := Put(s.tables, t.name, None), columns := [], hasData := true);
    QtFoldAppend(fill, Running(s), body, [TableEnd(t.name, t)]);
    QtFoldAppend(fill, Running(s), start, ColumnEvents(t.columns));
    QtFoldSingle(fill, s, TableStart(t.name));
    QtFoldColumns(fill, s1, t.columns);
    PutMeaning(s.tables, t.name, None);
    QtFoldTableEnd(fill, s1.(columns := TableColumnMap(t)), t);
  }

  lemma {:induction false} QtFoldSingle(fill: ColumnMap -> Filled, s: QtState, e: Event)
    ensures QtFold(fill, Running(s), [e]) == QtHandle(fill, s, e)
  {
    assert [e][..0] == [];
  }

  /** `tableEnd` after `tableStart` entered the name: the column map is
      stored and filled. */
  lemma {:induction false} QtFoldTableEnd(fill: ColumnMap -> Filled, s: QtState, t: TableNode)
    requires KeyIndex(s.tables, t.name) != -1
    ensures QtFold(fill, Running(s), [TableEnd(t.name, t)])
         == FillInto(fill, s.(tables := Put(s.tables, t.name, Some(s.columns))), t.name)
  {
    QtFoldSingle(fill, s, TableEnd(t.name, t));
  }

  /** After a table, its name holds its column map, every other name holds
      what it held before, and only the table map, the current columns and
      the filled values change. */
  lemma {:induction false} AfterTableMeaning(fill: ColumnMap -> Filled, s: QtState, t: TableNode)
    ensures AfterTable(fill, s, t).Raised? <==> fill(TableColumnMap(t)).UnknownQType?
    ensures AfterTable(fill, s, t).Running? ==>
      var r := AfterTable(fill, s, t).state;
      && StoredColumns(r.tables, t.name) == Some(TableColumnMap(t))
      && (forall n :: n != t.name ==> StoredColumns(r.tables, n) == StoredColumns(s.tables, n))
      && r.filled == s.filled + [Entry(t.name, fill(TableColumnMap(t)).data)]
      && r.dbName == s.dbName && r.views == s.views
  {
    var m1 := Put(s.tables, t.name, None);
    PutMeaning(s.tables, t.name, None);
    PutMeaning(m1, t.name, Some(TableColumnMap(t)));
  }

  /** What the tables of a document yield: the filled values of each table
      in order, or the first KeyError. */
  datatype Outcome = Completed(filled: seq<Entry<TableData>>) | Stopped(error: QtError)

  function TablesOutcome(fill: ColumnMap -> Filled, ts: seq<TableNode>): Outcome {
    if |ts| == 0 then Completed([])
    else
      var t := ts[|ts| - 1];
      match TablesOutcome(fill, ts[..|ts| - 1])
      case Stopped(err) => Stopped(err)
      case Completed(f) =>
        match fill(TableColumnMap(t))
        case UnknownQType(q) => Stopped(UnknownType(q))
        case Filled(d) => Completed(f + [Entry(t.name, d)])
  }

  /** The last table of `ts` named `n`: the one whose columns `tableEnd` leaves stored. */
  function LastTableNamed(ts: seq<TableNode>, n: string): Option<TableNode> {
    if |ts| == 0 then None
    else if ts[|ts| - 1].name == n then Some(ts[|ts| - 1])
    else LastTableNamed(ts[..|ts| - 1], n)
  }

  /** The stored columns a run of tables leaves behind, starting from `tables`. */
  ghost predicate StoresTables(tables: TableMap, before: TableMap, ts: seq<TableNode>) {
    forall n :: StoredColumns(tables, n) ==
      (if LastTableNamed(ts, n).Some? then Some(TableColumnMap(LastTableNamed(ts, n).value)) else StoredColumns(before, n))
  }

  /** The tables of a document: the run raises the first KeyError of
      `fillTableData`, or else has filled every table in order and stores
      the column map of the last table of each name. */
  lemma {:induction false} QtFoldTables(fill: ColumnMap -> Filled, s: QtState, ts: seq<TableNode>)
    ensures TablesOutcome(fill, ts).Stopped? ==> QtFold(fill, Running(s), TablesEvents(ts)) == Raised(TablesOutcome(fill, ts).error)
    ensures TablesOutcome(fill, ts).Completed? ==>
      var r := QtFold(fill, Running(s), TablesEvents(ts));
      && r.Running?
      && r.state.filled == s.filled + TablesOutcome(fill, ts).filled
      && StoresTables(r.state.tables, s.tables, ts)
      && r.state.dbName == s.dbName && r.state.views == s.views
    decreases |ts|
  {
    if |ts| == 0 {
      assert forall n :: LastTableNamed(ts, n) == None;
    } else {
      QtFoldTables(fill, s, ts[..|ts| - 1]);
      QtFoldTablesStep(fill, s, ts);
    }
  }

  lemma {:induction false} QtFoldTablesStep(fill: ColumnMap -> Filled, s: QtState, ts: seq<TableNode>)
    requires |ts| > 0
    requires var p := ts[..|ts| - 1];
      && (TablesOutcome(fill, p).Stopped? ==> QtFold(fill, Running(s), TablesEvents(p)) == Raised(TablesOutcome(fill, p).error))
      && (TablesOutcome(fill, p).Completed? ==>
        var r := QtFold(fill, Running(s), TablesEvents(p));
        && r.Running?
        && r.state.filled == s.filled + TablesOutcome(fill, p).filled
        && StoresTables(r.state.tables, s.tables, p)
        && r.state.dbName == s.dbName && r.state.views == s.views)
    ensures TablesOutcome(fill, ts).Stopped? ==> QtFold(fill, Running(s), TablesEvents(ts)) == Raised(TablesOutcome(fill, ts).error)
    ensures TablesOutcome(fill, ts).Completed? ==>
      var r := QtFold(fill, Running(s), TablesEvents(ts));
      && r.Running?
      && r.state.filled == s.filled + TablesOutcome(fill, ts).filled
      && StoresTables(r.state.tables, s.tables, ts)
      && r.state.dbName == s.dbName && r.state.views == s.views
  {
    var p := ts[..|ts| - 1];
    var t := ts[|ts| - 1];
    var mid := QtFold(fill, Running(s), TablesEvents(p));
    QtFoldAppend(fill, Running(s), TablesEvents(p), TableEvents(t));
    if TablesOutcome(fill, p).Stopped? {
      QtFoldRaised(fill, TablesOutcome(fill, p).error, TableEvents(t));
    } else {
      QtFoldTable(fill, mid.state, t);
      AfterTableMeaning(fill, mid.state, t);
      if TablesOutcome(fill, ts).Completed? {
        TablesStoredNext(fill, s, ts, mid.state);
      }
    }
  }

  /** The last table of a completed run adds its values and its stored columns. */
  lemma {:induction false} TablesStoredNext(fill: ColumnMap -> Filled, s: QtState, ts: seq<TableNode>, m: QtState)
    requires |ts| > 0
    requires TablesOutcome(fill, ts).Completed?
    requires m.filled == s.filled + TablesOutcome(fill, ts[..|ts| - 1]).filled
    requires StoresTables(m.tables, s.tables, ts[..|ts| - 1])
    requires AfterTable(fill, m, ts[|ts| - 1]).Running?
    requires var r := AfterTable(fill, m, ts[|ts| - 1]).state;
      && StoredColumns(r.tables, ts[|ts| - 1].name) == Some(TableColumnMap(ts[|ts| - 1]))
      && (forall n :: n != ts[|ts| - 1].name ==> StoredColumns(r.tables, n) == StoredColumns(m.tables, n))
      && r.filled == m.filled + [Entry(ts[|ts| - 1].name, fill(TableColumnMap(ts[|ts| - 1])).data)]
    ensures var r := AfterTable(fill, m, ts[|ts| - 1]).state;
      && r.filled == s.filled + TablesOutcome(fill, ts).filled
      && StoresTables(r.tables, s.tables, ts)
  {
    var p := ts[..|ts| - 1];
    var t := ts[|ts| - 1];
    var r := AfterTable(fill, m, t).state;
    assert TablesOutcome(fill, ts).filled == TablesOutcome(fill, p).filled + [Entry(t.name, fill(TableColumnMap(t)).data)];
    forall n
      ensures StoredColumns(r.tables, n) ==
        (if LastTableNamed(ts, n).Some? then Some(TableColumnMap(LastTableNamed(ts, n).value)) else StoredColumns(s.tables, n))
    {
      if n != t.name {
        assert LastTableNamed(ts, n) == LastTableNamed(p, n);
      }
    }
  }

  /** The column map the tables of a document leave stored under `n`. */
  function DocumentColumns(ts: seq<TableNode>, n: string): Option<ColumnMap> {
    var t := LastTableNamed(ts, n);
    if t.Some? then Some(TableColumnMap(t.value)) else None
  }

  /** A view's callbacks: `viewStart` enters the name, `viewSubset` takes
      the stored columns of `name1` (a KeyError when there are none) and
      fills them under the view's name. */
  function AfterView(fill: ColumnMap -> Filled, s: QtState, v: ViewNode): QtRun
    requires v.subset.Some?
  {
    var stored := StoredColumns(s.tables, v.subset.value.name1);
    if stored.None? then Raised(MissingTable(v.subset.value.name1))
    else FillInto(fill, s.(views := Put(s.views, v.name, ()), columns := stored.value, hasData := true), v.name)
  }

  lemma {:induction false} QtFoldView(fill: ColumnMap -> Filled, s: QtState, v: ViewNode)
    requires v.subset.Some?
    ensures QtFold(fill, Running(s), ViewEvents(v)) == AfterView(fill, s, v)
  {
    var e := ViewEvents(v);
    var s1 := s.(views := Put(s.views, v.name, ()), columns := [], hasData := true);
    assert e == [ViewStart(v.name)] + [ViewSubset(v, v.subset.value)] + [ViewEnd(v.name)];
    QtFoldAppend(fill, Running(s), [ViewStart(v.name)] + [ViewSubset(v, v.subset.value)], [ViewEnd(v.name)]);
    QtFoldAppend(fill, Running(s), [ViewStart(v.name)], [ViewSubset(v, v.subset.value)]);
    QtFoldSingle(fill, s, ViewStart(v.name));
    QtFoldSingle(fill, s1, ViewSubset(v, v.subset.value));
    var mid := QtHandle(fill, s1, ViewSubset(v, v.subset.value));
    if mid.Running? {
      QtFoldSingle(fill, mid.state, ViewEnd(v.name));
    } else {
      QtFoldRaised(fill, mid.error, [ViewEnd(v.name)]);
    }
  }

  /** What the views of a document yield over the tables `ts`: the values
      filled for each view in order, up to a view without a subset, or the
      first KeyError. */
  function ViewsOutcome(fill: ColumnMap -> Filled, ts: seq<TableNode>, vs: seq<ViewNode>): Outcome {
    if |vs| == 0 || vs[0].subset.None? then Completed([])
    else
      var cols := DocumentColumns(ts, vs[0].subset.value.name1);
      if cols.None? then Stopped(MissingTable(vs[0].subset.value.name1))
      else
        match fill(cols.value)
        case UnknownQType(q) => Stopped(UnknownType(q))
        case Filled(d) =>
          match ViewsOutcome(fill, ts, vs[1..])
          case Stopped(err) => Stopped(err)
          case Completed(f) => Completed([Entry(vs[0].name, d)] + f)
  }

  /** The views of a document, over a state whose stored columns are those
      the tables `ts` leave: the run raises the first KeyError, or else has
      filled every view up to the first one without a subset, in order,
      and leaves the stored tables alone. */
  lemma {:induction false} QtFoldViews(fill: ColumnMap -> Filled, s: QtState, ts: seq<TableNode>, vs: seq<ViewNode>)
    requires forall n :: StoredColumns(s.tables, n) == DocumentColumns(ts, n)
    ensures ViewsOutcome(fill, ts, vs).Stopped? ==> QtFold(fill, Running(s), ViewsEvents(vs)) == Raised(ViewsOutcome(fill, ts, vs).error)
    ensures ViewsOutcome(fill, ts, vs).Completed? ==>
      var r := QtFold(fill, Running(s), ViewsEvents(vs));
      && r.Running?
      && r.state.filled == s.filled + ViewsOutcome(fill, ts, vs).filled
      && r.state.tables == s.tables && r.state.dbName == s.dbName
    decreases |vs|
  {
    if |vs| == 0 {
    } else if vs[0].subset.None? {
      QtFoldSingle(fill, s, ViewStart(vs[0].name));
    } else {
      var mid := AfterView(fill, s, vs[0]);
      if mid.Running? {
        QtFoldViews(fill, mid.state, ts, vs[1..]);
      }
      QtFoldViewsStep(fill, s, ts, vs);
    }
  }

  lemma {:induction false} QtFoldViewsStep(fill: ColumnMap -> Filled, s: QtState, ts: seq<TableNode>, vs: seq<ViewNode>)
    requires |vs| > 0 && vs[0].subset.Some?
    requires forall n :: StoredColumns(s.tables, n) == DocumentColumns(ts, n)
    requires AfterView(fill, s, vs[0]).Running? ==>
      var m := AfterView(fill, s, vs[0]).state;
      var rest := vs[1..];
      && (ViewsOutcome(fill, ts, rest).Stopped? ==> QtFold(fill, Running(m), ViewsEvents(rest)) == Raised(ViewsOutcome(fill, ts, rest).error))
      && (ViewsOutcome(fill, ts, rest).Completed? ==>
        var r := QtFold(fill, Running(m), ViewsEvents(rest));
        && r.Running?
        && r.state.filled == m.filled + ViewsOutcome(fill, ts, rest).filled
        && r.state.tables == m.tables && r.state.dbName == m.dbName)
    ensures ViewsOutcome(fill, ts, vs).Stopped? ==> QtFold(fill, Running(s), ViewsEvents(vs)) == Raised(ViewsOutcome(fill, ts, vs).error)
    ensures ViewsOutcome(fill, ts, vs).Completed? ==>
      var r := QtFold(fill, Running(s), ViewsEvents(vs));
      && r.Running?
      && r.state.filled == s.filled + ViewsOutcome(fill, ts, vs).filled
      && r.state.tables == s.tables && r.state.dbName == s.dbName
  {
    ViewsFoldSplit(fill, s, vs);
    if AfterView(fill, s, vs[0]).Raised? {
      QtFoldViewRaised(fill, s, ts, vs);
    } else {
      QtFoldViewRunning(fill, s, ts, vs, QtFold(fill, AfterView(fill, s, vs[0]), ViewsEvents(vs[1..])));
    }
  }

  /** The first view with a subset, then the rest of the views. */
  lemma {:induction false} ViewsFoldSplit(fill: ColumnMap -> Filled, s: QtState, vs: seq<ViewNode>)
    requires |vs| > 0 && vs[0].subset.Some?
    ensures QtFold(fill, Running(s), ViewsEvents(vs)) == QtFold(fill, AfterView(fill, s, vs[0]), ViewsEvents(vs[1..]))
  {
    var v := vs[0];
    assert ViewsEvents(vs) == ViewEvents(v) + ViewsEvents(vs[1..]);
    QtFoldAppend(fill, Running(s), ViewEvents(v), ViewsEvents(vs[1..]));
    QtFoldView(fill, s, v);
  }

  /** A view that fills its values continues with the rest of the views:
      `r` is what the rest of the views make of the state after it. */
  lemma {:induction false} QtFoldViewRunning(fill: ColumnMap -> Filled, s: QtState, ts: seq<TableNode>, vs: seq<ViewNode>, r: QtRun)
    requires |vs| > 0 && vs[0].subset.Some?
    requires forall n :: StoredColumns(s.tables, n) == DocumentColumns(ts, n)
    requires AfterView(fill, s, vs[0]).Running?
    requires
      var m := AfterView(fill, s, vs[0]).state;
      var rest := vs[1..];
      && (ViewsOutcome(fill, ts, rest).Stopped? ==> r == Raised(ViewsOutcome(fill, ts, rest).error))
      && (ViewsOutcome(fill, ts, rest).Completed? ==>
        && r.Running?
        && r.state.filled == m.filled + ViewsOutcome(fill, ts, rest).filled
        && r.state.tables == m.tables && r.state.dbName == m.dbName)
    ensures ViewsOutcome(fill, ts, vs).Stopped? ==> r == Raised(ViewsOutcome(fill, ts, vs).error)
    ensures ViewsOutcome(fill, ts, vs).Completed? ==>
      && r.Running?
      && r.state.filled == s.filled + ViewsOutcome(fill, ts, vs).filled
      && r.state.tables == s.tables && r.state.dbName == s.dbName
  {
    var m := AfterView(fill, s, vs[0]).state;
    QtFoldViewsNext(fill, s, ts, vs, m);
    OutcomeCons(s, m, ViewsOutcome(fill, ts, vs), ViewsOutcome(fill, ts, vs[1..]), r);
  }

  /** The outcome of a view followed by the outcome `rest` of the views
      after it, where the view took the state from `s` to `m`. */
  lemma {:induction false} OutcomeCons(s: QtState, m: QtState, o: Outcome, rest: Outcome, r: QtRun)
    requires |m.filled| == |s.filled| + 1 && m.filled[..|s.filled|] == s.filled
    requires m.tables == s.tables && m.dbName == s.dbName
    requires o.Completed? <==> rest.Completed?
    requires o.Stopped? ==> o.error == rest.error
    requires o.Completed? ==> o.filled == [m.filled[|m.filled| - 1]] + rest.filled
    requires rest.Stopped? ==> r == Raised(rest.error)
    requires rest.Completed? ==>
      && r.Running?
      && r.state.filled == m.filled + rest.filled
      && r.state.tables == m.tables && r.state.dbName == m.dbName
    ensures o.Stopped? ==> r == Raised(o.error)
    ensures o.Completed? ==>
      && r.Running?
      && r.state.filled == s.filled + o.filled
      && r.state.tables == s.tables && r.state.dbName == s.dbName
  {
    if o.Completed? {
      assert m.filled == s.filled + [m.filled[|m.filled| - 1]];
      assert s.filled + ([m.filled[|m.filled| - 1]] + rest.filled) == m.filled + rest.filled;
    }
  }

  /** A view that raises ends the run with its exception. */
  lemma {:induction false} QtFoldViewRaised(fill: ColumnMap -> Filled, s: QtState, ts: seq<TableNode>, vs: seq<ViewNode>)
    requires |vs| > 0 && vs[0].subset.Some?
    requires forall n :: StoredColumns(s.tables, n) == DocumentColumns(ts, n)
    requires AfterView(fill, s, vs[0]).Raised?
    requires QtFold(fill, Running(s), ViewsEvents(vs)) == QtFold(fill, AfterView(fill, s, vs[0]), ViewsEvents(vs[1..]))
    ensures ViewsOutcome(fill, ts, vs) == Stopped(AfterView(fill, s, vs[0]).error)
    ensures QtFold(fill, Running(s), ViewsEvents(vs)) == Raised(ViewsOutcome(fill, ts, vs).error)
  {
    QtFoldRaised(fill, AfterView(fill, s, vs[0]).error, ViewsEvents(vs[1..]));
    assert StoredColumns(s.tables, vs[0].subset.value.name1) == DocumentColumns(ts, vs[0].subset.value.name1);
  }

  lemma {:induction false} QtFoldViewsNext(fill: ColumnMap -> Filled, s: QtState, ts: seq<TableNode>, vs: seq<ViewNode>, m: QtState)
    requires |vs| > 0 && vs[0].subset.Some?
    requires forall n :: StoredColumns(s.tables, n) == DocumentColumns(ts, n)
    requires AfterView(fill, s, vs[0]) == Running(m)
    ensures fill(DocumentColumns(ts, vs[0].subset.value.name1).value).Filled?
    ensures m.filled == s.filled + [Entry(vs[0].name, fill(DocumentColumns(ts, vs[0].subset.value.name1).value).data)]
    ensures m.tables == s.tables && m.dbName == s.dbName
    ensures ViewsOutcome(fill, ts, vs).Completed? <==> ViewsOutcome(fill, ts, vs[1..]).Completed?
    ensures ViewsOutcome(fill, ts, vs).Stopped? ==> ViewsOutcome(fill, ts, vs).error == ViewsOutcome(fill, ts, vs[1..]).error
    ensures ViewsOutcome(fill, ts, vs).Completed? ==>
      ViewsOutcome(fill, ts, vs).filled == [m.filled[|m.filled| - 1]] + ViewsOutcome(fill, ts, vs[1..]).filled
  {
    assert StoredColumns(s.tables, vs[0].subset.value.name1) == DocumentColumns(ts, vs[0].subset.value.name1);
  }

  /** No table stored before the first `tableStart`. */
  lemma {:induction false} StoresTablesFromEmpty(tables: TableMap, ts: seq<TableNode>)
    requires StoresTables(tables, [], ts)
    ensures forall n :: StoredColumns(tables, n) == DocumentColumns(ts, n)
  {
    forall n
      ensures StoredColumns(tables, n) == DocumentColumns(ts, n)
    {
      assert StoredColumns([], n) == None;
    }
  }

  /** The run after `databaseStart` and the tables. */
  function AfterTables(fill: ColumnMap -> Filled, db: DatabaseNode): QtRun {
    QtFold(fill, Running(QtInit), [DatabaseStart(db.name)] + TablesEvents(db.tables))
  }

  lemma {:induction false} AfterTablesMeaning(fill: ColumnMap -> Filled, db: DatabaseNode)
    ensures TablesOutcome(fill, db.tables).Stopped? ==> AfterTables(fill, db) == Raised(TablesOutcome(fill, db.tables).error)
    ensures TablesOutcome(fill, db.tables).Completed? ==>
      var r := AfterTables(fill, db);
      && r.Running?
      && r.state.filled == TablesOutcome(fill, db.tables).filled
      && (forall n :: StoredColumns(r.state.tables, n) == DocumentColumns(db.tables, n))
      && r.state.dbName == db.name
  {
    var s0 := QtInit.(dbName := db.name);
    QtFoldAppend(fill, Running(QtInit), [DatabaseStart(db.name)], TablesEvents(db.tables));
    QtFoldSingle(fill, QtInit, DatabaseStart(db.name));
    QtFoldTables(fill, s0, db.tables);
    if TablesOutcome(fill, db.tables).Completed? {
      StoresTablesFromEmpty(AfterTables(fill, db).state.tables, db.tables);
    }
  }

  /** The run after the views, before `databaseEnd`. */
  function AfterViews(fill: ColumnMap -> Filled, db: DatabaseNode): QtRun {
    QtFold(fill, AfterTables(fill, db), ViewsEvents(db.views))
  }

  lemma {:induction false} AfterViewsMeaning(fill: ColumnMap -> Filled, db: DatabaseNode)
    ensures TablesOutcome(fill, db.tables).Stopped? ==> AfterViews(fill, db) == Raised(TablesOutcome(fill, db.tables).error)
    ensures TablesOutcome(fill, db.tables).Completed? && ViewsOutcome(fill, db.tables, db.views).Stopped? ==>
      AfterViews(fill, db) == Raised(ViewsOutcome(fill, db.tables, db.views).error)
    ensures TablesOutcome(fill, db.tables).Completed? && ViewsOutcome(fill, db.tables, db.views).Completed? ==>
      var r := AfterViews(fill, db);
      && r.Running?
      && r.state.filled == TablesOutcome(fill, db.tables).filled + ViewsOutcome(fill, db.tables, db.views).filled
      && r.state.dbName == db.name
  {
    AfterTablesMeaning(fill, db);
    var mid := AfterTables(fill, db);
    if mid.Raised? {
      QtFoldRaised(fill, mid.error, ViewsEvents(db.views));
    } else {
      QtFoldViews(fill, mid.state, db.tables, db.views);
    }
  }

  /** Some callback of `events` calls `bootstrapData`. */
  predicate Bootstraps(events: seq<Event>) {
    exists i :: 0 <= i < |events| && (events[i].TableStart? || events[i].ViewStart?)
  }

  /** `self.data` is filled after a run exactly when it was filled before
      or some callback of the run bootstrapped it. */
  lemma {:induction false} QtFoldHasData(fill: ColumnMap -> Filled, s: QtState, events: seq<Event>)
    ensures QtFold(fill, Running(s), events).Running? ==>
      QtFold(fill, Running(s), events).state.hasData == (s.hasData || Bootstraps(events))
    decreases |events|
  {
    if |events| > 0 {
      var p := events[..|events| - 1];
      var e := events[|events| - 1];
      QtFoldHasData(fill, s, p);
      if Bootstraps(p) {
        var i :| 0 <= i < |p| && (p[i].TableStart? || p[i].ViewStart?);
        assert events[i] == p[i];
      }
      if e.TableStart? || e.ViewStart? {
        assert events[|events| - 1] == e;
      }
    }
  }

  /** A document's callbacks bootstrap `self.data` exactly when it has a table or a view. */
  lemma {:induction false} DocumentBootstraps(db: DatabaseNode)
    ensures Bootstraps([DatabaseStart(db.name)] + TablesEvents(db.tables) + ViewsEvents(db.views))
        <==> |db.tables| > 0 || |db.views| > 0
  {
    var pre := [DatabaseStart(db.name)] + TablesEvents(db.tables);
    var events := pre + ViewsEvents(db.views);
    if |db.tables| > 0 {
      var ts := db.tables;
      var before := TablesEvents(ts[..|ts| - 1]);
      assert TablesEvents(ts) == before + TableEvents(ts[|ts| - 1]);
      assert events[1 + |before|] == TableStart(ts[|ts| - 1].name);
    } else if |db.views| > 0 {
      assert ViewsEvents(db.views)[0].ViewStart?;
      assert events[|pre|] == ViewsEvents(db.views)[0];
    } else {
      assert events == [DatabaseStart(db.name)];
    }
  }

  /** `processWithDriver(QtDriver(...), db)`, with `fillTableData` closing
      its lists as corrected in `CloseList`. */
  function QtOutput(db: DatabaseNode): QtRun {
    QtFold(FillTable, Running(QtInit), Traversal(db).events)
  }

  /** What the Qt driver makes of a document: the first KeyError, raised
      either by a table whose column types have no conversion or by a view
      over a missing table or one with such types; or else the values of
      every table and then every view up to the first one without a
      subset. `databaseEnd` runs exactly when every view has a subset; on
      a document with neither tables nor views it raises a KeyError for
      `'database'`, because no callback has filled `self.data`, and
      otherwise it clears the database name. */
  lemma {:induction false} QtOutputMeaning(db: DatabaseNode)
    ensures var tablesDone := TablesOutcome(FillTable, db.tables);
      var viewsDone := ViewsOutcome(FillTable, db.tables, db.views);
      && (tablesDone.Stopped? ==> QtOutput(db) == Raised(tablesDone.error))
      && (tablesDone.Completed? && viewsDone.Stopped? ==> QtOutput(db) == Raised(viewsDone.error))
      && (|db.tables| == 0 && |db.views| == 0 ==> QtOutput(db) == Raised(MissingDataKey("database")))
      && (tablesDone.Completed? && viewsDone.Completed? && (|db.tables| > 0 || |db.views| > 0) ==>
        && QtOutput(db).Running?
        && QtOutput(db).state.filled == tablesDone.filled + viewsDone.filled
        && QtOutput(db).state.dbName == (if AllViewsHaveSubset(db.views) then "" else db.name))
  {
    var pre := [DatabaseStart(db.name)] + TablesEvents(db.tables);
    var ends := if AllViewsHaveSubset(db.views) then [DatabaseEnd(db.name)] else [];
    assert Traversal(db).events == pre + ViewsEvents(db.views) + ends;
    QtFoldAppend(FillTable, Running(QtInit), pre + ViewsEvents(db.views), ends);
    QtFoldAppend(FillTable, Running(QtInit), pre, ViewsEvents(db.views));
    AfterViewsMeaning(FillTable, db);
    var mid := AfterViews(FillTable, db);
    if mid.Raised? {
      QtFoldRaised(FillTable, mid.error, ends);
    } else {
      QtFoldHasData(FillTable, QtInit, pre + ViewsEvents(db.views));
      DocumentBootstraps(db);
      if ends != [] {
        QtFoldSingle(FillTable, mid.state, DatabaseEnd(db.name));
      }
    }
  }
}
