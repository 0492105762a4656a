/**
  `SqlDriver` of pileschema.py: each callback appends to one DDL string. The
  driver is a fold of `SqlHandle` over the traversal trace, and the result is
  proved equal to a direct rendering of the document (`TablesDdl`, `ViewsDdl`).
 */
module SqlDriver {
  import opened Strings
  import opened PileSchema

  /* ---------------------------------------------------------------- */
  /* Column definitions                                                */
  /* ---------------------------------------------------------------- */

  /** The default value a column carries: a truthy `default` wins over a
      truthy `defaultExpression`; with neither there is none. */
  function DefaultOf(dt: DataTypeNode): (r: Option<string>)
    ensures Truthy(dt.defaultValue) ==> r == dt.defaultValue
    ensures !Truthy(dt.defaultValue) && Truthy(dt.defaultExpression) ==> r == dt.defaultExpression
    ensures !Truthy(dt.defaultValue) && !Truthy(dt.defaultExpression) ==> r.None?
    ensures r.Some? ==> |r.value| > 0
  {
    if Truthy(dt.defaultValue) then dt.defaultValue
    else if Truthy(dt.defaultExpression) then dt.defaultExpression
    else None
  }

  /** The datatype name, followed by `(length)` when a length is given. */
  function TypeClause(datatypeName: string, dt: DataTypeNode): string {
    if Truthy(dt.length) then datatypeName + "(" + dt.length.value + ")" else datatypeName
  }

  predicate IsDefaultClause(s: string) {
    |s| >= 8 && s[..8] == "DEFAULT "
  }

  /** The space-separated clauses that follow a column's name, in the
      order `SqlDriver.column` appends them. */
  function ColumnClauses(datatypeName: string, nulls: bool, dt: DataTypeNode): seq<string> {
    OptionalAppend(OptionalAppend(OptionalAppend(
      [TypeClause(datatypeName, dt)], DefaultOf(dt).Some?, "DEFAULT " + TextOr(DefaultOf(dt))),
      !nulls, "NOT NULL"), dt.hasIdentity, "AUTO_INCREMENT")
  }

  /** The clauses are the type, at most one DEFAULT clause (right after the
      type), NOT NULL exactly when NULLs are not allowed, and AUTO_INCREMENT
      exactly when the datatype has an identity. */
  lemma {:induction false} ColumnClausesMeaning(datatypeName: string, nulls: bool, dt: DataTypeNode)
    ensures var r := ColumnClauses(datatypeName, nulls, dt);
      && |r| >= 1 && r[0] == TypeClause(datatypeName, dt)
      && ("NOT NULL" in r[1..] <==> !nulls)
      && ("AUTO_INCREMENT" in r[1..] <==> dt.hasIdentity)
      && (DefaultOf(dt).Some? ==> |r| >= 2 && r[1] == "DEFAULT " + DefaultOf(dt).value)
      && (forall i :: (if DefaultOf(dt).Some? then 2 else 1) <= i < |r| ==> !IsDefaultClause(r[i]))
  {
    var r := ColumnClauses(datatypeName, nulls, dt);
    var defaults := if DefaultOf(dt).Some? then ["DEFAULT " + DefaultOf(dt).value] else [];
    var notNull := if !nulls then ["NOT NULL"] else [];
    var identity := if dt.hasIdentity then ["AUTO_INCREMENT"] else [];
    assert r[1..] == defaults + notNull + identity;
    assert !IsDefaultClause("NOT NULL") by {
      assert "NOT NULL"[..8][0] == 'N';
    }
    assert !IsDefaultClause("AUTO_INCREMENT") by {
      assert "AUTO_INCREMENT"[..8][0] == 'A';
    }
    assert forall v :: ("DEFAULT " + v)[0] == 'D';
  }

  /** A column definition line without its terminating ",\n". */
  function ColumnDefinition(name: string, datatypeName: string, nulls: bool, dt: DataTypeNode): string {
    ColumnPrefix(name) + Join(ColumnClauses(datatypeName, nulls, dt), " ")
  }

  /** The indented, back-quoted column name and the space after it. */
  function ColumnPrefix(name: string): string {
    "  `" + name + "` "
  }

  /** Drops the last character when it is a space. */
  function TrimOneSpace(s: string): (r: string)
    ensures EndsWith(s, " ") ==> r == DropLast(s, 1)
    ensures !EndsWith(s, " ") ==> r == s
  {
    if |s| > 0 && s[|s| - 1] == ' ' then s[..|s| - 1] else s
  }

  /** The text `SqlDriver.column` builds before trimming, exactly as
      written: the default clause gets no trailing space. */
  function ColumnStepsAsWritten(s0: string, datatypeName: string, nulls: bool, dt: DataTypeNode): string {
    var s1 := s0 + TypeClause(datatypeName, dt) + " ";
    var s2 := if DefaultOf(dt).Some? then s1 + ("DEFAULT " + DefaultOf(dt).value) else s1;
    var s3 := if !nulls then s2 + "NOT NULL" + " " else s2;
    if dt.hasIdentity then s3 + "AUTO_INCREMENT" + " " else s3
  }

  /** `SqlDriver.column` exactly as written: the default clause runs into
      the clause after it. */
  function ColumnSqlAsWritten(acc: string, name: string, datatypeName: string, nulls: bool, dt: DataTypeNode): string {
    TrimOneSpace(ColumnStepsAsWritten(acc + ColumnPrefix(name), datatypeName, nulls, dt)) + ",\n"
  }

  /** A column `qty int` with default 0 that forbids NULLs is rendered with
      its default and its null constraint fused into one word. */
  lemma {:induction false} ColumnSqlAsWrittenFusesDefault()
    ensures ColumnSqlAsWritten("", "qty", "int", false, QtyInt())
         == "  `qty` int DEFAULT 0NOT NULL,\n"
    ensures ColumnSqlAsWritten("", "qty", "int", false, QtyInt())
         != ColumnSql("", "qty", "int", false, QtyInt())
  {
    QtyAsWritten();
    QtyCorrected();
    assert "  `qty` int DEFAULT 0NOT NULL,\n"[21] == 'N';
  }

  /** An `int` datatype with default 0 and no length or identity. */
  function QtyInt(): DataTypeNode {
    DataTypeNode("int", None, Some("0"), None, None, false)
  }

  lemma {:induction false} QtyAsWritten()
    ensures ColumnSqlAsWritten("", "qty", "int", false, QtyInt()) == "  `qty` int DEFAULT 0NOT NULL,\n"
  {
    var dt := QtyInt();
    var built := ColumnStepsAsWritten("" + ColumnPrefix("qty"), "int", false, dt);
    assert built == "  `qty` int DEFAULT 0NOT NULL" + " " by {
      assert "" + ColumnPrefix("qty") == "  `qty` ";
      assert DefaultOf(dt) == Some("0");
      assert TypeClause("int", dt) == "int";
    }
    AppendEnds("  `qty` int DEFAULT 0NOT NULL", " ");
  }

  lemma {:induction false} QtyClauses()
    ensures ColumnClauses("int", false, QtyInt()) == ["int", "DEFAULT 0", "NOT NULL"]
  {
    var dt := QtyInt();
    assert DefaultOf(dt) == Some("0");
    assert TypeClause("int", dt) == "int";
    assert "DEFAULT " + TextOr(DefaultOf(dt)) == "DEFAULT 0";
    var c1 := OptionalAppend(["int"], true, "DEFAULT 0");
    assert c1 == ["int", "DEFAULT 0"];
    assert OptionalAppend(c1, true, "NOT NULL") == ["int", "DEFAULT 0", "NOT NULL"];
  }

  lemma {:induction false} QtyCorrected()
    ensures |ColumnSql("", "qty", "int", false, QtyInt())| > 21
    ensures ColumnSql("", "qty", "int", false, QtyInt())[21] == ' '
  {
    var head := ColumnPrefix("qty") + "int" + " " + "DEFAULT 0";
    assert |head| == 21;
    QtyDefinition();
    assert ColumnSql("", "qty", "int", false, QtyInt()) == "" + (head + " " + "NOT NULL") + ",\n";
  }

  lemma {:induction false} QtyDefinition()
    ensures ColumnDefinition("qty", "int", false, QtyInt()) == ColumnPrefix("qty") + "int" + " " + "DEFAULT 0" + " " + "NOT NULL"
  {
    var clauses := ColumnClauses("int", false, QtyInt());
    QtyClauses();
    JoinThree(clauses, " ");
  }

  function OptionalAppend(clauses: seq<string>, present: bool, c: string): seq<string> {
    if present then clauses + [c] else clauses
  }

  /** The text `SqlDriver.column` has built before trimming, with the
      default clause followed by a space like every other clause. */
  function ColumnSteps(s0: string, datatypeName: string, nulls: bool, dt: DataTypeNode): string {
    var s1 := s0 + TypeClause(datatypeName, dt) + " ";
    var s2 := if DefaultOf(dt).Some? then s1 + ("DEFAULT " + DefaultOf(dt).value) + " " else s1;
    var s3 := if !nulls then s2 + "NOT NULL" + " " else s2;
    if dt.hasIdentity then s3 + "AUTO_INCREMENT" + " " else s3
  }

  lemma {:induction false} ColumnStepsAreClauses(s0: string, datatypeName: string, nulls: bool, dt: DataTypeNode)
    ensures ColumnSteps(s0, datatypeName, nulls, dt) == s0 + Join(ColumnClauses(datatypeName, nulls, dt), " ") + " "
  {
    var d := DefaultOf(dt);
    var c0 := [TypeClause(datatypeName, dt)];
    var c1 := OptionalAppend(c0, d.Some?, "DEFAULT " + TextOr(d));
    var c2 := OptionalAppend(c1, !nulls, "NOT NULL");
    var c3 := OptionalAppend(c2, dt.hasIdentity, "AUTO_INCREMENT");
    var s1 := s0 + TypeClause(datatypeName, dt) + " ";
    var s2 := if d.Some? then s1 + ("DEFAULT " + d.value) + " " else s1;
    var s3 := if !nulls then s2 + "NOT NULL" + " " else s2;
    var s4 := if dt.hasIdentity then s3 + "AUTO_INCREMENT" + " " else s3;
    assert s1 == s0 + Concat(Terminated(c0, " ")) by {
      assert [] + c0 == c0;
      AppendClause(s0, s0, [], TypeClause(datatypeName, dt));
    }
    assert s2 == s0 + Concat(Terminated(c1, " ")) by {
      StepClause(s1, s0, c0, d.Some?, "DEFAULT " + TextOr(d));
    }
    assert s3 == s0 + Concat(Terminated(c2, " ")) by {
      StepClause(s2, s0, c1, !nulls, "NOT NULL");
    }
    assert s4 == s0 + Concat(Terminated(c3, " ")) by {
      StepClause(s3, s0, c2, dt.hasIdentity, "AUTO_INCREMENT");
    }
    assert Concat(Terminated(c3, " ")) == Join(c3, " ") + " " by {
      ConcatTerminatedIsJoin(c3, " ");
    }
    assert ColumnSteps(s0, datatypeName, nulls, dt) == s4;
    assert ColumnClauses(datatypeName, nulls, dt) == c3;
  }

  lemma {:induction false} StepClause(s: string, s0: string, clauses: seq<string>, present: bool, c: string)
    requires s == s0 + Concat(Terminated(clauses, " "))
    ensures (if present then s + c + " " else s) == s0 + Concat(Terminated(OptionalAppend(clauses, present, c), " "))
  {
    if present {
      AppendClause(s, s0, clauses, c);
    }
  }

  /** `SqlDriver.column` with the default clause followed by a space like
      every other clause: the line is the name and the clauses separated by
      single spaces, the trailing space trimmed, then ",\n". */
  function ColumnSql(acc: string, name: string, datatypeName: string, nulls: bool, dt: DataTypeNode): (r: string)
    ensures r == acc + ColumnDefinition(name, datatypeName, nulls, dt) + ",\n"
  {
    ColumnStepsTrimmed(acc, name, datatypeName, nulls, dt);
    TrimOneSpace(ColumnSteps(acc + ColumnPrefix(name), datatypeName, nulls, dt)) + ",\n"
  }

  lemma {:induction false} ColumnStepsTrimmed(acc: string, name: string, datatypeName: string, nulls: bool, dt: DataTypeNode)
    ensures TrimOneSpace(ColumnSteps(acc + ColumnPrefix(name), datatypeName, nulls, dt)) == acc + ColumnDefinition(name, datatypeName, nulls, dt)
  {
    var s0 := acc + ColumnPrefix(name);
    var joined := s0 + Join(ColumnClauses(datatypeName, nulls, dt), " ");
    ColumnStepsAreClauses(s0, datatypeName, nulls, dt);
    AppendEnds(joined, " ");
    DropLastOfSuffix(joined, " ");
    AppendAssoc(acc, ColumnPrefix(name), Join(ColumnClauses(datatypeName, nulls, dt), " "));
  }

  /** Appending a clause and a space extends the space-terminated clause list. */
  lemma {:induction false} AppendClause(s: string, s0: string, clauses: seq<string>, c: string)
    requires s == s0 + Concat(Terminated(clauses, " "))
    ensures s + c + " " == s0 + Concat(Terminated(clauses + [c], " "))
  {
    var t := Terminated(clauses + [c], " ");
    assert t[..|t| - 1] == Terminated(clauses, " ");
  }

  /* ---------------------------------------------------------------- */
  /* Tables and views                                                  */
  /* ---------------------------------------------------------------- */

  function TableHeader(name: string): string {
    "CREATE TABLE IF NOT EXISTS `" + name + "` (\n"
  }

  function PrimaryKeyLine(column: string): string {
    "  PRIMARY KEY (`" + column + "`)\n"
  }

  /** `SqlDriver.tableEnd`: the primary-key line when the table has one,
      otherwise the last ",\n" (if the text ends with one) becomes "\n";
      then the closing ");\n". */
  function TableEndSql(acc: string, primaryKey: Option<string>): (r: string)
    ensures primaryKey.Some? ==> r == acc + PrimaryKeyLine(primaryKey.value) + ");\n"
    ensures primaryKey.None? && EndsWith(acc, ",\n") ==> r == DropLast(acc, 2) + "\n" + ");\n"
    ensures primaryKey.None? && !EndsWith(acc, ",\n") ==> r == acc + ");\n"
  {
    var s :=
      if primaryKey.Some? then acc + PrimaryKeyLine(primaryKey.value)
      else if |acc| >= 2 && acc[|acc| - 2] == ',' && acc[|acc| - 1] == '\n' then acc[..|acc| - 2] + "\n"
      else acc;
    assert |acc| >= 2 ==> acc[|acc| - 2..] == [acc[|acc| - 2], acc[|acc| - 1]];
    s + ");\n"
  }

  function ViewHeader(name: string): string {
    "CREATE VIEW IF NOT EXISTS `" + name + "` AS\n"
  }

  /** `SqlDriver.viewSubset`: one SELECT over `name1` filtered on `col1`;
      with an `in` table the filter is `col1 IN (` a nested SELECT `)`. */
  function SubsetSql(s: SubsetNode): (r: string)
    ensures StartsWith(r, SelectHead(s))
    ensures s.inTable.None? ==> EndsWith(r, s.constraint + s.value + "\n")
    ensures s.inTable.Some? ==> EndsWith(r, " IN (\n" + InnerSelect(s))
    ensures s.inTable.None? ==> |r| == |SelectHead(s)| + |s.constraint + s.value + "\n"|
    ensures s.inTable.Some? ==> |r| == |SelectHead(s)| + |" IN (\n" + InnerSelect(s)|
  {
    var tail :=
      if s.inTable.None? then s.constraint + s.value + "\n"
      else " IN (\n" + InnerSelect(s);
    AppendEnds(SelectHead(s), tail);
    SelectHead(s) + tail
  }

  /** The outer query up to the filtered column. */
  function SelectHead(s: SubsetNode): string {
    "  SELECT * FROM " + s.name1 + " WHERE " + s.col1
  }

  /** The nested query over the `in` table, with its closing parenthesis. */
  function InnerSelect(s: SubsetNode): string
    requires s.inTable.Some?
  {
    "    SELECT " + s.incol + " FROM " + s.inTable.value + " WHERE " + s.where + s.constraint + s.value + ")\n"
  }

  /* ---------------------------------------------------------------- */
  /* The driver as a fold over the trace                               */
  /* ---------------------------------------------------------------- */

  /** One callback of `SqlDriver`; the database callbacks are the base
      driver's no-ops. */
  function SqlHandle(acc: string, e: Event): string {
    match e
    case DatabaseStart(_) => acc
    case DatabaseEnd(_) => acc
    case TableStart(name) => acc + TableHeader(name)
    case TableEnd(_, table) => TableEndSql(acc, table.primaryKey)
    case Column(name, _, datatypeName, nulls, dt) => ColumnSql(acc, name, datatypeName, nulls, dt)
    case ViewStart(name) => acc + ViewHeader(name)
    case ViewSubset(_, subset) => acc + SubsetSql(subset)
    case ViewEnd(_) => acc + ";\n"
  }

  function SqlFold(acc: string, events: seq<Event>): string {
    if |events| == 0 then acc else SqlHandle(SqlFold(acc, events[..|events| - 1]), events[|events| - 1])
  }

  /** `sql_string` after `processWithDriver(SqlDriver(), db)`, with each
      column line rendered by the corrected `ColumnSql`. */
  function SqlOutput(db: DatabaseNode): string {
    SqlFold("", Traversal(db).events)
  }

  /* ---------------------------------------------------------------- */
  /* Direct rendering of the document                                  */
  /* ---------------------------------------------------------------- */

  function ColumnDefinitions(cols: seq<ColumnNode>): (r: seq<string>)
    ensures |r| == |cols|
    ensures forall i :: 0 <= i < |cols| ==>
      r[i] == ColumnDefinition(cols[i].name, cols[i].dtNode.tag, Str2Bool(cols[i].allowNulls), cols[i].dtNode)
  {
    seq(|cols|, i requires 0 <= i < |cols| =>
      ColumnDefinition(cols[i].name, cols[i].dtNode.tag, Str2Bool(cols[i].allowNulls), cols[i].dtNode))
  }

  /** CREATE TABLE with the column definitions separated by ",\n"; with a
      primary key every definition is followed by ",\n" and the key line. */
  function TableDdl(t: TableNode): string {
    TableHeader(t.name) + TableBody(ColumnDefinitions(t.columns), t.primaryKey) + ");\n"
  }

  function TablesDdl(ts: seq<TableNode>): string {
    if |ts| == 0 then "" else TablesDdl(ts[..|ts| - 1]) + TableDdl(ts[|ts| - 1])
  }

  /** CREATE VIEW per view, stopping after the header of the first view
      without a subset. */
  function ViewsDdl(vs: seq<ViewNode>): string {
    if |vs| == 0 then ""
    else if vs[0].subset.None? then ViewHeader(vs[0].name)
    else ViewBlock(vs[0]) + ViewsDdl(vs[1..])
  }

  /* ---------------------------------------------------------------- */
  /* The fold renders the document                                     */
  /* ---------------------------------------------------------------- */

  lemma {:induction false} SqlFoldAppend(acc: string, a: seq<Event>, b: seq<Event>)
    ensures SqlFold(acc, a + b) == SqlFold(SqlFold(acc, a), b)
    decreases |b|
  {
    if |b| == 0 {
      assert a + b == a;
    } else {
      assert (a + b)[..|a + b| - 1] == a + b[..|b| - 1];
      SqlFoldAppend(acc, a, b[..|b| - 1]);
    }
  }

  lemma {:induction false} SqlFoldSingle(acc: string, e: Event)
    ensures SqlFold(acc, [e]) == SqlHandle(acc, e)
  {
    assert [e][..0] == [];
  }

  function ColumnDefinitionOf(c: ColumnNode): string {
    ColumnDefinition(c.name, c.dtNode.tag, Str2Bool(c.allowNulls), c.dtNode)
  }

  lemma {:induction false} SqlFoldColumnsStep(acc: string, cols: seq<ColumnNode>)
    requires |cols| > 0
    ensures SqlFold(acc, ColumnEvents(cols))
         == SqlFold(acc, ColumnEvents(cols[..|cols| - 1])) + ColumnDefinitionOf(cols[|cols| - 1]) + ",\n"
  {
    var n := |cols| - 1;
    var evs := ColumnEvents(cols);
    assert evs[..n] == ColumnEvents(cols[..n]);
  }

  lemma {:induction false} TerminatedDefinitionsStep(cols: seq<ColumnNode>)
    requires |cols| > 0
    ensures Concat(Terminated(ColumnDefinitions(cols), ",\n"))
         == Concat(Terminated(ColumnDefinitions(cols[..|cols| - 1]), ",\n")) + ColumnDefinitionOf(cols[|cols| - 1]) + ",\n"
  {
    var n := |cols| - 1;
    var t := Terminated(ColumnDefinitions(cols), ",\n");
    assert t[..n] == Terminated(ColumnDefinitions(cols[..n]), ",\n");
  }

  lemma {:induction false} SqlFoldColumns(acc: string, cols: seq<ColumnNode>)
    ensures SqlFold(acc, ColumnEvents(cols)) == acc + Concat(Terminated(ColumnDefinitions(cols), ",\n"))
    decreases |cols|
  {
    if |cols| > 0 {
      SqlFoldColumns(acc, cols[..|cols| - 1]);
      SqlFoldColumnsNext(acc, cols);
    }
  }

  lemma {:induction false} SqlFoldColumnsNext(acc: string, cols: seq<ColumnNode>)
    requires |cols| > 0
    requires SqlFold(acc, ColumnEvents(cols[..|cols| - 1]))
          == acc + Concat(Terminated(ColumnDefinitions(cols[..|cols| - 1]), ",\n"))
    ensures SqlFold(acc, ColumnEvents(cols)) == acc + Concat(Terminated(ColumnDefinitions(cols), ",\n"))
  {
    var p := Concat(Terminated(ColumnDefinitions(cols[..|cols| - 1]), ",\n"));
    var line := ColumnDefinitionOf(cols[|cols| - 1]);
    SqlFoldColumnsStep(acc, cols);
    TerminatedDefinitionsStep(cols);
    AppendAssoc(acc, p, line);
    AppendAssoc(acc, p + line, ",\n");
  }

  /** The body of a CREATE TABLE between its header and the closing ");\n". */
  function TableBody(defs: seq<string>, primaryKey: Option<string>): string {
    if primaryKey.Some? then Concat(Terminated(defs, ",\n")) + PrimaryKeyLine(primaryKey.value)
    else if |defs| == 0 then ""
    else Join(defs, ",\n") + "\n"
  }

  lemma {:induction false} SqlFoldTableShape(acc: string, t: TableNode)
    ensures SqlFold(acc, TableEvents(t))
         == TableEndSql(acc + TableHeader(t.name) + Concat(Terminated(ColumnDefinitions(t.columns), ",\n")), t.primaryKey)
  {
    SqlFoldAppend(acc, [TableStart(t.name)] + ColumnEvents(t.columns), [TableEnd(t.name, t)]);
    SqlFoldAppend(acc, [TableStart(t.name)], ColumnEvents(t.columns));
    SqlFoldSingle(acc, TableStart(t.name));
    SqlFoldColumns(acc + TableHeader(t.name), t.columns);
    SqlFoldSingle(SqlFold(acc, [TableStart(t.name)] + ColumnEvents(t.columns)), TableEnd(t.name, t));
  }

  lemma {:induction false} TableEndAfterBody(head: string, defs: seq<string>, primaryKey: Option<string>)
    requires EndsWith(head, "(\n")
    ensures TableEndSql(head + Concat(Terminated(defs, ",\n")), primaryKey) == head + TableBody(defs, primaryKey) + ");\n"
  {
    if primaryKey.Some? {
      KeyedTableEnd(head, defs, primaryKey.value);
    } else if |defs| == 0 {
      EmptyTableEnd(head, defs);
    } else {
      UnkeyedTableEnd(head, defs);
    }
  }

  /** With a primary key the key line follows the terminated definitions. */
  lemma {:induction false} KeyedTableEnd(head: string, defs: seq<string>, key: string)
    ensures TableEndSql(head + Concat(Terminated(defs, ",\n")), Some(key)) == head + TableBody(defs, Some(key)) + ");\n"
  {
    var body := Concat(Terminated(defs, ",\n"));
    assert TableBody(defs, Some(key)) == body + PrimaryKeyLine(key);
    AppendAssoc(head, body, PrimaryKeyLine(key));
  }

  /** Without a key the last ",\n" of the definitions becomes "\n". */
  lemma {:induction false} UnkeyedTableEnd(head: string, defs: seq<string>)
    requires |defs| > 0
    ensures TableEndSql(head + Concat(Terminated(defs, ",\n")), None) == head + TableBody(defs, None) + ");\n"
  {
    var joined := head + Join(defs, ",\n");
    assert head + Concat(Terminated(defs, ",\n")) == joined + ",\n" by {
      ConcatTerminatedIsJoin(defs, ",\n");
      AppendAssoc(head, Join(defs, ",\n"), ",\n");
    }
    assert TableEndSql(joined + ",\n", None) == joined + "\n" + ");\n" by {
      AppendEnds(joined, ",\n");
      DropLastOfSuffix(joined, ",\n");
    }
    assert TableBody(defs, None) == Join(defs, ",\n") + "\n";
    AppendAssoc(head, Join(defs, ",\n"), "\n");
  }

  /** A table without columns or key: nothing to rewrite before ");\n". */
  lemma {:induction false} EmptyTableEnd(head: string, defs: seq<string>)
    requires EndsWith(head, "(\n") && |defs| == 0
    ensures TableEndSql(head + Concat(Terminated(defs, ",\n")), None) == head + ");\n"
  {
    assert Terminated(defs, ",\n") == [];
    assert head + Concat(Terminated(defs, ",\n")) == head;
    assert head[|head| - 2..][0] == '(';
    assert !EndsWith(head, ",\n");
  }

  lemma {:induction false} TableHeaderEndsOpen(acc: string, name: string)
    ensures EndsWith(acc + TableHeader(name), "(\n")
  {
    var h := acc + TableHeader(name);
    assert h[|h| - 2] == '(' && h[|h| - 1] == '\n';
    assert h[|h| - 2..] == [h[|h| - 2], h[|h| - 1]];
  }

  lemma {:induction false} SqlFoldTable(acc: string, t: TableNode)
    ensures SqlFold(acc, TableEvents(t)) == acc + TableDdl(t)
  {
    var body := TableBody(ColumnDefinitions(t.columns), t.primaryKey);
    SqlFoldTableShape(acc, t);
    TableHeaderEndsOpen(acc, t.name);
    TableEndAfterBody(acc + TableHeader(t.name), ColumnDefinitions(t.columns), t.primaryKey);
    AppendAssoc(acc, TableHeader(t.name), body);
    AppendAssoc(acc, TableHeader(t.name) + body, ");\n");
  }

  lemma {:induction false} SqlFoldTables(acc: string, ts: seq<TableNode>)
    ensures SqlFold(acc, TablesEvents(ts)) == acc + TablesDdl(ts)
    decreases |ts|
  {
    if |ts| > 0 {
      var p := ts[..|ts| - 1];
      var t := ts[|ts| - 1];
      assert SqlFold(acc, TablesEvents(ts)) == SqlFold(SqlFold(acc, TablesEvents(p)), TableEvents(t)) by {
        SqlFoldAppend(acc, TablesEvents(p), TableEvents(t));
      }
      assert SqlFold(acc, TablesEvents(p)) == acc + TablesDdl(p) by {
        SqlFoldTables(acc, p);
      }
      assert SqlFold(acc + TablesDdl(p), TableEvents(t)) == acc + TablesDdl(p) + TableDdl(t) by {
        SqlFoldTable(acc + TablesDdl(p), t);
      }
    }
  }

  lemma {:induction false} SqlFoldView(acc: string, v: ViewNode)
    requires v.subset.Some?
    ensures SqlFold(acc, ViewEvents(v)) == acc + ViewBlock(v)
  {
    var e := ViewEvents(v);
    var a1 := acc + ViewHeader(v.name);
    var a2 := a1 + SubsetSql(v.subset.value);
    assert SqlFold(acc, e[..1]) == a1 by {
      assert e[..1] == [ViewStart(v.name)];
      SqlFoldSingle(acc, ViewStart(v.name));
    }
    assert SqlFold(acc, e[..2]) == a2 by {
      assert e[..2][..1] == e[..1];
      assert SqlFold(acc, e[..2]) == SqlHandle(a1, ViewSubset(v, v.subset.value));
    }
    assert SqlFold(acc, e) == a2 + ";\n" by {
      assert e[..3][..2] == e[..2];
      assert e[..3] == e;
    }
    AppendAssoc(acc, ViewHeader(v.name), SubsetSql(v.subset.value));
    AppendAssoc(acc, ViewHeader(v.name) + SubsetSql(v.subset.value), ";\n");
  }

  lemma {:induction false} SqlFoldViews(acc: string, vs: seq<ViewNode>)
    ensures SqlFold(acc, ViewsEvents(vs)) == acc + ViewsDdl(vs)
    decreases |vs|
  {
    if |vs| > 0 {
      var v := vs[0];
      if v.subset.None? {
        SqlFoldSingle(acc, ViewStart(v.name));
      } else {
        var mid := acc + ViewBlock(v);
        SqlFoldViews(mid, vs[1..]);
        SqlFoldViewsStep(acc, vs);
      }
    }
  }

  /** The CREATE VIEW of a view with a subset. */
  function ViewBlock(v: ViewNode): string
    requires v.subset.Some?
  {
    ViewHeader(v.name) + SubsetSql(v.subset.value) + ";\n"
  }

  lemma {:induction false} SqlFoldViewsStep(acc: string, vs: seq<ViewNode>)
    requires |vs| > 0 && vs[0].subset.Some?
    requires SqlFold(acc + ViewBlock(vs[0]), ViewsEvents(vs[1..])) == acc + ViewBlock(vs[0]) + ViewsDdl(vs[1..])
    ensures SqlFold(acc, ViewsEvents(vs)) == acc + ViewsDdl(vs)
  {
    var v := vs[0];
    assert SqlFold(acc, ViewsEvents(vs)) == SqlFold(SqlFold(acc, ViewEvents(v)), ViewsEvents(vs[1..])) by {
      SqlFoldAppend(acc, ViewEvents(v), ViewsEvents(vs[1..]));
    }
    assert SqlFold(acc, ViewEvents(v)) == acc + ViewBlock(v) by {
      SqlFoldView(acc, v);
    }
    assert ViewsDdl(vs) == ViewBlock(v) + ViewsDdl(vs[1..]);
    AppendAssoc(acc, ViewBlock(v), ViewsDdl(vs[1..]));
  }

  /** The DDL `SqlDriver` accumulates over a document is every table's
      CREATE TABLE in document order, then every view's CREATE VIEW, cut
      short after the header of the first view without a subset. */
  lemma {:induction false} SqlOutputIsDdl(db: DatabaseNode)
    ensures SqlOutput(db) == TablesDdl(db.tables) + ViewsDdl(db.views)
  {
    var ok := AllViewsHaveSubset(db.views);
    var tail: seq<Event> := if ok then [DatabaseEnd(db.name)] else [];
    var start := [DatabaseStart(db.name)];
    var tables := TablesEvents(db.tables);
    var views := ViewsEvents(db.views);
    assert Traversal(db).events == start + tables + views + tail;
    assert SqlFold("", start) == "" by {
      SqlFoldSingle("", DatabaseStart(db.name));
    }
    assert SqlFold("", start + tables) == TablesDdl(db.tables) by {
      SqlFoldAppend("", start, tables);
      SqlFoldTables("", db.tables);
    }
    assert SqlFold("", start + tables + views) == TablesDdl(db.tables) + ViewsDdl(db.views) by {
      SqlFoldAppend("", start + tables, views);
      SqlFoldViews(TablesDdl(db.tables), db.views);
    }
    assert SqlFold("", start + tables + views + tail) == TablesDdl(db.tables) + ViewsDdl(db.views) by {
      SqlFoldAppend("", start + tables + views, tail);
      if ok {
        SqlFoldSingle(TablesDdl(db.tables) + ViewsDdl(db.views), DatabaseEnd(db.name));
      }
    }
  }
}
