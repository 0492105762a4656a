/**
  Column lookups of `DbTaew`, the common base of the generated table and
  view classes (dbtaew.cc). The column names are what the subclass's
  `columns()` returns; the subclass's `toRealIndex` is a parameter.
 */
module DbTaew {
  import opened Strings

  /** The special codes of `DbTaew::Codes`. */
  const IdNewInstance: int := -1
  const IdUnavailable: int := -2

  /** The integer value of `Qt::CaseInsensitive` (the first enumerator of `Qt::CaseSensitivity`). */
  const CaseInsensitiveValue: int := 0

  /** `hasColumn`: some column name equals `name` up to case. */
  predicate HasColumn(columns: seq<string>, name: string) {
    exists i :: 0 <= i < |columns| && EqualsIgnoreCase(columns[i], name)
  }

  /** The first position at or after `from` whose name equals `name` up to case, or -1. */
  function MatchFrom(columns: seq<string>, name: string, from: nat): (r: int)
    requires from <= |columns|
    ensures r == -1 || from <= r < |columns|
    ensures r == -1 <==> forall j :: from <= j < |columns| ==> !EqualsIgnoreCase(columns[j], name)
    ensures r != -1 ==> EqualsIgnoreCase(columns[r], name)
    ensures r != -1 ==> forall j :: from <= j < r ==> !EqualsIgnoreCase(columns[j], name)
    decreases |columns| - from
  {
    if from == |columns| then -1
    else if EqualsIgnoreCase(columns[from], name) then from
    else MatchFrom(columns, name, from + 1)
  }

  /** `columnIndex` as its documentation describes it: the index of the
      first column whose name equals `name` up to case, or -1. */
  function ColumnIndex(columns: seq<string>, name: string): (r: int)
    ensures -1 <= r < |columns|
    ensures r != -1 ==> EqualsIgnoreCase(columns[r], name)
    ensures r != -1 ==> forall j :: 0 <= j < r ==> !EqualsIgnoreCase(columns[j], name)
  {
    MatchFrom(columns, name, 0)
  }

  /** A column is there exactly when it has an index. */
  lemma {:induction false} HasColumnIffIndex(columns: seq<string>, name: string)
    ensures HasColumn(columns, name) <==> ColumnIndex(columns, name) != -1
  {
    if HasColumn(columns, name) {
      var i :| 0 <= i < |columns| && EqualsIgnoreCase(columns[i], name);
      assert ColumnIndex(columns, name) != -1;
    }
  }

  /** The lookup ignores the case of the name asked for. */
  lemma {:induction false} ColumnIndexIgnoresCase(columns: seq<string>, a: string, b: string)
    requires EqualsIgnoreCase(a, b)
    ensures ColumnIndex(columns, a) == ColumnIndex(columns, b)
    ensures HasColumn(columns, a) <==> HasColumn(columns, b)
  {
    HasColumnIffIndex(columns, a);
    HasColumnIffIndex(columns, b);
  }

  /** `realColumnIndex` over the corrected `columnIndex`: -1 when the
      column is missing, otherwise the subclass's translation of the index
      of its first match. */
  function RealColumnIndex(columns: seq<string>, name: string, toRealIndex: int -> int): (r: int)
    ensures !HasColumn(columns, name) ==> r == -1
    ensures HasColumn(columns, name) ==> r == toRealIndex(ColumnIndex(columns, name))
    ensures HasColumn(columns, name) ==> exists i :: 0 <= i < |columns| && EqualsIgnoreCase(columns[i], name) && r == toRealIndex(i)
  {
    HasColumnIffIndex(columns, name);
    var partial := ColumnIndex(columns, name);
    if partial == -1 then partial else toRealIndex(partial)
  }

  /** Whatever the translation, the real index is the translation of the
      first position whose name matches up to case. */
  lemma {:induction false} RealColumnIndexFirstMatch(columns: seq<string>, name: string, toRealIndex: int -> int, i: int)
    requires 0 <= i < |columns| && EqualsIgnoreCase(columns[i], name)
    requires forall j :: 0 <= j < i ==> !EqualsIgnoreCase(columns[j], name)
    ensures RealColumnIndex(columns, name, toRealIndex) == toRealIndex(i)
  {
    HasColumnIffIndex(columns, name);
    var k := ColumnIndex(columns, name);
    assert k != -1;
    assert !(k < i) && !(i < k);
  }

  /** With no translation the real index is the index. */
  lemma {:induction false} RealColumnIndexIdentity(columns: seq<string>, name: string)
    ensures RealColumnIndex(columns, name, i => i) == ColumnIndex(columns, name)
  {
  }

  /** `modifyTableName`: updates go to the table itself unless a subclass says otherwise. */
  function ModifyTableName(tableName: string): string {
    tableName
  }

  /* ---------------------------------------------------------------- */
  /* columnIndex as written                                            */
  /* ---------------------------------------------------------------- */

  /** `QStringList::indexOf(value, from)`: the first position at or after
      `from` (counted from the end when negative) holding exactly `value`,
      or -1. It has no case-sensitivity argument. */
  function IndexOf(columns: seq<string>, value: string, from: int): (r: int)
    ensures r == -1 || 0 <= r < |columns|
    ensures r != -1 ==> columns[r] == value
    ensures var start := if from < 0 then (if from + |columns| < 0 then 0 else from + |columns|) else from;
      && (r == -1 <==> forall j :: start <= j < |columns| ==> columns[j] != value)
      && (r != -1 ==> start <= r && forall j :: start <= j < r ==> columns[j] != value)
  {
    var start := if from < 0 then (if from + |columns| < 0 then 0 else from + |columns|) else from;
    if start >= |columns| then -1 else ExactFrom(columns, value, start)
  }

  /** The first position at or after `from` holding exactly `value`, or -1. */
  function ExactFrom(columns: seq<string>, value: string, from: nat): (r: int)
    requires from <= |columns|
    ensures r == -1 || from <= r < |columns|
    ensures r == -1 <==> forall j :: from <= j < |columns| ==> columns[j] != value
    ensures r != -1 ==> columns[r] == value
    ensures r != -1 ==> forall j :: from <= j < r ==> columns[j] != value
    decreases |columns| - from
  {
    if from == |columns| then -1
    else if columns[from] == value then from
    else ExactFrom(columns, value, from + 1)
  }

  /** `columnIndex` as written: `Qt::CaseInsensitive` lands in the `from`
      parameter, so the search starts at 0 and compares exactly. */
  function ColumnIndexAsWritten(columns: seq<string>, name: string): (r: int)
    ensures r == -1 <==> forall j :: 0 <= j < |columns| ==> columns[j] != name
    ensures r != -1 ==> 0 <= r < |columns| && columns[r] == name
    ensures r != -1 ==> forall j :: 0 <= j < r ==> columns[j] != name
  {
    IndexOf(columns, name, CaseInsensitiveValue)
  }

  /** The search as written misses a column that `hasColumn` reports. */
  lemma ColumnIndexAsWrittenMissesCase()
    ensures HasColumn(["id"], "ID")
    ensures ColumnIndexAsWritten(["id"], "ID") == -1
    ensures ColumnIndex(["id"], "ID") == 0
  {
    var cs: seq<string> := ["id"];
    assert Lower("ID") == "id";
    assert Lower(cs[0]) == "id";
    assert EqualsIgnoreCase(cs[0], "ID");
    assert cs[0] != "ID";
  }

  /** `realColumnIndex` as written, over the exact search. */
  function RealColumnIndexAsWritten(columns: seq<string>, name: string, toRealIndex: int -> int): int {
    var partial := ColumnIndexAsWritten(columns, name);
    if partial == -1 then partial else toRealIndex(partial)
  }

  /** As written, `realColumnIndex` reports a column that `hasColumn`
      finds as missing, whatever the translation. */
  lemma {:induction false} RealColumnIndexAsWrittenMissesCase(toRealIndex: int -> int)
    ensures HasColumn(["id"], "ID")
    ensures RealColumnIndexAsWritten(["id"], "ID", toRealIndex) == -1
    ensures RealColumnIndex(["id"], "ID", toRealIndex) == toRealIndex(0)
  {
    ColumnIndexAsWrittenMissesCase();
  }

  /** Wherever the exact search finds a column, the intended one finds it
      too, at the same or an earlier position. */
  lemma {:induction false} AsWrittenFindsNoMore(columns: seq<string>, name: string)
    ensures ColumnIndexAsWritten(columns, name) != -1 ==>
      0 <= ColumnIndex(columns, name) <= ColumnIndexAsWritten(columns, name)
  {
    var w := ColumnIndexAsWritten(columns, name);
    if w != -1 {
      assert EqualsIgnoreCase(columns[w], name);
      HasColumnIffIndex(columns, name);
    }
  }
}
