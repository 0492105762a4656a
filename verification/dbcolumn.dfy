/**
  `DbColumn` of the dbstruct library (dbcolumn.cc) and the record it keeps
  its values in, `DbColumnData` (columns/dbcolumndata.cc): a column's
  name, user-visible label, index in the complete table, index among the
  real columns, length, data type and two flags. The column is a value:
  every setter returns the updated column.
 */
module DbColumn {

  /** The fields of `DbColumnData`, plus `readOnly`, which `DbColumn` stores
      and reads back although the record's header does not declare it. The
      data type is the integer value of the `Dty` enumeration. */
  datatype ColumnData = ColumnData(
    name: string,
    labelText: string,
    colId: int,
    realColId: int,
    length: int,
    dataType: int,
    allowNulls: bool,
    readOnly: bool)

  /* ---------------------------------------------------------------- */
  /* DbColumnData constructors                                         */
  /* ---------------------------------------------------------------- */

  /** `DbDataType::DTY_INVALID`; the enumerators after it count up from 0 (`DTY_BIGINT`). */
  const DtyInvalid: int := -1
  const DtyBigint: int := 0

  /** `DbColumnData()`: empty strings, value-initialised (zero) numbers,
      NULLs allowed, and not read-only. */
  function DefaultData(): ColumnData {
    ColumnData("", "", 0, 0, 0, 0, true, false)
  }

  /** The full `DbColumnData` constructor: every argument kept as given. */
  function FullData(name: string, labelText: string, colId: int, realColId: int, length: int,
                    dataType: int, allowNulls: bool, readOnly: bool): ColumnData {
    ColumnData(name, labelText, colId, realColId, length, dataType, allowNulls, readOnly)
  }

  /** The full constructor with `allow_nulls` left at its default. */
  function FullDataAllowingNulls(name: string, labelText: string, colId: int, realColId: int,
                                 length: int, dataType: int): ColumnData {
    FullData(name, labelText, colId, realColId, length, dataType, true, false)
  }

  /** The copy constructor. */
  function CopyData(other: ColumnData): ColumnData {
    ColumnData(other.name, other.labelText, other.colId, other.realColId, other.length,
               other.dataType, other.allowNulls, other.readOnly)
  }

  /** Reading the fields of the full constructor's result gives back its
      arguments, and the default `allow_nulls` is true. */
  lemma {:induction false} FullDataKeepsArguments(name: string, labelText: string, colId: int, realColId: int,
                                                  length: int, dataType: int, allowNulls: bool, readOnly: bool)
    ensures var d := FullData(name, labelText, colId, realColId, length, dataType, allowNulls, readOnly);
      && d.name == name && d.labelText == labelText && d.colId == colId && d.realColId == realColId
      && d.length == length && d.dataType == dataType && d.allowNulls == allowNulls && d.readOnly == readOnly
    ensures FullDataAllowingNulls(name, labelText, colId, realColId, length, dataType).allowNulls
  {
  }

  /** A copy equals its source on every field. */
  lemma {:induction false} CopyDataEqual(other: ColumnData)
    ensures CopyData(other) == other
  {
  }

  /* ---------------------------------------------------------------- */
  /* DbColumn                                                          */
  /* ---------------------------------------------------------------- */

  /** A column is a handle on its data; copies and assignments share the
      values, so the model keeps the values themselves. */
  datatype Column = Column(d: ColumnData)

  /** `DbColumn()`: a column with no name over the default data. Its data
      type is the zero enumerator, `DTY_BIGINT`, although the constructor's
      comment calls it `DTY_INVALID`. */
  function DefaultColumn(): (c: Column)
    ensures ColumnName(c) == "" && ColumnLabel(c) == ""
    ensures ColumnId(c) == 0 && ColumnRealId(c) == 0 && ColumnLength(c) == 0
    ensures ColumnType(c) == DtyBigint && ColumnType(c) != DtyInvalid
    ensures AllowNulls(c) && !ReadOnly(c)
  {
    Column(DefaultData())
  }

  /** The full `DbColumn` constructor. `defaultMarker` is the value of
      `dbstruct::DEFAULT`, which stands for "same as the column id". An
      empty label falls back to the name. */
  function NewColumn(name: string, dataType: int, colId: int, labelText: string, realColId: int,
                     length: int, allowNulls: bool, readOnly: bool, defaultMarker: int): Column {
    Column(FullData(
      name,
      if |labelText| == 0 then name else labelText,
      colId,
      if realColId == defaultMarker then colId else realColId,
      length, dataType, allowNulls, readOnly))
  }

  /** `DbColumn::col`: the column the constructor builds from the same arguments. */
  function Col(name: string, dataType: int, colId: int, labelText: string, realColId: int,
               length: int, allowNulls: bool, readOnly: bool, defaultMarker: int): Column {
    NewColumn(name, dataType, colId, labelText, realColId, length, allowNulls, readOnly, defaultMarker)
  }

  /** The copy constructor and assignment. */
  function CopyColumn(other: Column): Column {
    Column(other.d)
  }

  function ColumnName(c: Column): string { c.d.name }
  function ColumnLabel(c: Column): string { c.d.labelText }
  function ColumnId(c: Column): int { c.d.colId }
  function ColumnRealId(c: Column): int { c.d.realColId }
  function ColumnLength(c: Column): int { c.d.length }
  function ColumnType(c: Column): int { c.d.dataType }
  function AllowNulls(c: Column): bool { c.d.allowNulls }
  function ReadOnly(c: Column): bool { c.d.readOnly }

  /** Two columns whose getters agree are the same column. */
  predicate SameGetters(a: Column, b: Column) {
    && ColumnName(a) == ColumnName(b) && ColumnLabel(a) == ColumnLabel(b)
    && ColumnId(a) == ColumnId(b) && ColumnRealId(a) == ColumnRealId(b)
    && ColumnLength(a) == ColumnLength(b) && ColumnType(a) == ColumnType(b)
    && AllowNulls(a) == AllowNulls(b) && ReadOnly(a) == ReadOnly(b)
  }

  lemma {:induction false} SameGettersIsEqual(a: Column, b: Column)
    ensures SameGetters(a, b) <==> a == b
  {
    if SameGetters(a, b) {
      assert a.d == b.d;
    }
  }

  /** The constructor's defaulting rules: the label is the name when the
      given label is empty and is kept otherwise; the real id is the column
      id when the marker is given and is kept otherwise; the rest is stored
      as given. */
  lemma {:induction false} NewColumnDefaults(name: string, dataType: int, colId: int, labelText: string, realColId: int,
                                             length: int, allowNulls: bool, readOnly: bool, defaultMarker: int)
    ensures var c := NewColumn(name, dataType, colId, labelText, realColId, length, allowNulls, readOnly, defaultMarker);
      && ColumnName(c) == name
      && (|labelText| == 0 ==> ColumnLabel(c) == name)
      && (|labelText| > 0 ==> ColumnLabel(c) == labelText)
      && (realColId == defaultMarker ==> ColumnRealId(c) == colId)
      && (realColId != defaultMarker ==> ColumnRealId(c) == realColId)
      && ColumnId(c) == colId && ColumnLength(c) == length && ColumnType(c) == dataType
      && AllowNulls(c) == allowNulls && ReadOnly(c) == readOnly
  {
  }

  /** The factory and a copy agree with the constructor and the source on every getter. */
  lemma {:induction false} ColAndCopyAgree(name: string, dataType: int, colId: int, labelText: string, realColId: int,
                                           length: int, allowNulls: bool, readOnly: bool, defaultMarker: int, other: Column)
    ensures SameGetters(Col(name, dataType, colId, labelText, realColId, length, allowNulls, readOnly, defaultMarker),
                        NewColumn(name, dataType, colId, labelText, realColId, length, allowNulls, readOnly, defaultMarker))
    ensures SameGetters(CopyColumn(other), other)
  {
  }

  /* ---------------------------------------------------------------- */
  /* Setters                                                           */
  /* ---------------------------------------------------------------- */

  /** `setColumnName`: the label follows the name only while it is empty. */
  function SetColumnName(c: Column, v: string): (r: Column)
    ensures ColumnName(r) == v
    ensures |ColumnLabel(c)| == 0 ==> ColumnLabel(r) == v
    ensures |ColumnLabel(c)| > 0 ==> ColumnLabel(r) == ColumnLabel(c)
    ensures ColumnId(r) == ColumnId(c) && ColumnRealId(r) == ColumnRealId(c)
    ensures ColumnLength(r) == ColumnLength(c) && ColumnType(r) == ColumnType(c)
    ensures AllowNulls(r) == AllowNulls(c) && ReadOnly(r) == ReadOnly(c)
  {
    var named := c.d.(name := v);
    if |c.d.labelText| == 0 then Column(named.(labelText := v)) else Column(named)
  }

  /** `setColumnLabel`: only the label changes; never the name. */
  function SetColumnLabel(c: Column, v: string): (r: Column)
    ensures ColumnLabel(r) == v
    ensures ColumnName(r) == ColumnName(c)
    ensures ColumnId(r) == ColumnId(c) && ColumnRealId(r) == ColumnRealId(c)
    ensures ColumnLength(r) == ColumnLength(c) && ColumnType(r) == ColumnType(c)
    ensures AllowNulls(r) == AllowNulls(c) && ReadOnly(r) == ReadOnly(c)
  {
    Column(c.d.(labelText := v))
  }

  /** `setColumnId`: the index in the complete table; the real index stays. */
  function SetColumnId(c: Column, v: int): (r: Column)
    ensures ColumnId(r) == v
    ensures ColumnRealId(r) == ColumnRealId(c)
    ensures ColumnName(r) == ColumnName(c) && ColumnLabel(r) == ColumnLabel(c)
    ensures ColumnLength(r) == ColumnLength(c) && ColumnType(r) == ColumnType(c)
    ensures AllowNulls(r) == AllowNulls(c) && ReadOnly(r) == ReadOnly(c)
  {
    Column(c.d.(colId := v))
  }

  /** `setColumnRealId`: the index among real columns; the general index stays. */
  function SetColumnRealId(c: Column, v: int): (r: Column)
    ensures ColumnRealId(r) == v
    ensures ColumnId(r) == ColumnId(c)
    ensures ColumnName(r) == ColumnName(c) && ColumnLabel(r) == ColumnLabel(c)
    ensures ColumnLength(r) == ColumnLength(c) && ColumnType(r) == ColumnType(c)
    ensures AllowNulls(r) == AllowNulls(c) && ReadOnly(r) == ReadOnly(c)
  {
    Column(c.d.(realColId := v))
  }

  function SetAllowNulls(c: Column, v: bool): (r: Column)
    ensures AllowNulls(r) == v
    ensures ReadOnly(r) == ReadOnly(c)
    ensures ColumnName(r) == ColumnName(c) && ColumnLabel(r) == ColumnLabel(c)
    ensures ColumnId(r) == ColumnId(c) && ColumnRealId(r) == ColumnRealId(c)
    ensures ColumnLength(r) == ColumnLength(c) && ColumnType(r) == ColumnType(c)
  {
    Column(c.d.(allowNulls := v))
  }

  function SetReadOnly(c: Column, v: bool): (r: Column)
    ensures ReadOnly(r) == v
    ensures AllowNulls(r) == AllowNulls(c)
    ensures ColumnName(r) == ColumnName(c) && ColumnLabel(r) == ColumnLabel(c)
    ensures ColumnId(r) == ColumnId(c) && ColumnRealId(r) == ColumnRealId(c)
    ensures ColumnLength(r) == ColumnLength(c) && ColumnType(r) == ColumnType(c)
  {
    Column(c.d.(readOnly := v))
  }

  /* ---------------------------------------------------------------- */
  /* Setter laws                                                       */
  /* ---------------------------------------------------------------- */

  /** Setting a value a column already has changes nothing; for the name
      this needs a label, since renaming fills an empty one. */
  lemma {:induction false} SetCurrentValueIsIdentity(c: Column)
    ensures |ColumnLabel(c)| > 0 ==> SetColumnName(c, ColumnName(c)) == c
    ensures SetColumnLabel(c, ColumnLabel(c)) == c
    ensures SetColumnId(c, ColumnId(c)) == c
    ensures SetColumnRealId(c, ColumnRealId(c)) == c
    ensures SetAllowNulls(c, AllowNulls(c)) == c
    ensures SetReadOnly(c, ReadOnly(c)) == c
  {
    SameGettersIsEqual(SetColumnName(c, ColumnName(c)), c);
    SameGettersIsEqual(SetColumnLabel(c, ColumnLabel(c)), c);
    SameGettersIsEqual(SetColumnId(c, ColumnId(c)), c);
    SameGettersIsEqual(SetColumnRealId(c, ColumnRealId(c)), c);
    SameGettersIsEqual(SetAllowNulls(c, AllowNulls(c)), c);
    SameGettersIsEqual(SetReadOnly(c, ReadOnly(c)), c);
  }

  /** Renaming twice to the same name is renaming once, and once a label is
      set a rename never touches it. */
  lemma {:induction false} SetColumnNameIdempotent(c: Column, v: string)
    ensures SetColumnName(SetColumnName(c, v), v) == SetColumnName(c, v)
    ensures |v| > 0 ==> ColumnLabel(SetColumnName(SetColumnName(c, v), "other")) == ColumnLabel(SetColumnName(c, v))
  {
    var once := SetColumnName(c, v);
    SameGettersIsEqual(SetColumnName(once, v), once);
  }

  /** The two indexes are independent: setting them in either order gives
      the same column. */
  lemma {:induction false} IdSettersCommute(c: Column, id: int, realId: int)
    ensures SetColumnId(SetColumnRealId(c, realId), id) == SetColumnRealId(SetColumnId(c, id), realId)
  {
    SameGettersIsEqual(SetColumnId(SetColumnRealId(c, realId), id), SetColumnRealId(SetColumnId(c, id), realId));
  }

  /** A column is labelled when it is named: every non-empty name comes with a non-empty label. */
  predicate Labelled(c: Column) {
    |ColumnName(c)| > 0 ==> |ColumnLabel(c)| > 0
  }

  /** The constructor, renames and every setter but `setColumnLabel` keep
      columns labelled; the default column is labelled. */
  lemma {:induction false} LabelledPreserved(c: Column, name: string, dataType: int, colId: int, labelText: string,
                                             realColId: int, length: int, allowNulls: bool, readOnly: bool,
                                             defaultMarker: int, v: string, i: int, b: bool)
    ensures Labelled(DefaultColumn())
    ensures Labelled(NewColumn(name, dataType, colId, labelText, realColId, length, allowNulls, readOnly, defaultMarker))
    ensures Labelled(c) ==> Labelled(SetColumnName(c, v))
    ensures Labelled(c) ==> Labelled(SetColumnId(c, i)) && Labelled(SetColumnRealId(c, i))
    ensures Labelled(c) ==> Labelled(SetAllowNulls(c, b)) && Labelled(SetReadOnly(c, b))
    ensures |v| > 0 ==> Labelled(SetColumnLabel(c, v))
  {
  }

  /** An empty label is the one way to break it. */
  lemma {:induction false} EmptyLabelUnlabels(c: Column)
    requires |ColumnName(c)| > 0
    ensures !Labelled(SetColumnLabel(c, ""))
  {
  }
}
