/**
  `DbTable` (dbtable.cc), the base of the generated table classes. It
  declares its own `hasColumn` and `columnIndex` with the same bodies as
  `DbTaew`'s; here they are written as a scan over the column names and
  shown to agree with the base class.
 */
module DbTable {
  import opened Strings
  import DbTaew

  /** `DbTable::columnIndex` over the corrected, case-insensitive search
      of `DbTaew.ColumnIndex`, as a left-to-right scan; `found` is
      `DbTable::hasColumn`. */
  method FindColumn(columns: seq<string>, name: string) returns (found: bool, index: int)
    ensures found <==> DbTaew.HasColumn(columns, name)
    ensures index == DbTaew.ColumnIndex(columns, name)
    ensures found <==> index != -1
  {
    var key := Lower(name);
    var i := 0;
    while i < |columns|
      invariant 0 <= i <= |columns|
      invariant forall j :: 0 <= j < i ==> !EqualsIgnoreCase(columns[j], name)
    {
      if Lower(columns[i]) == key {
        DbTaew.HasColumnIffIndex(columns, name);
        return true, i;
      }
      i := i + 1;
    }
    DbTaew.HasColumnIffIndex(columns, name);
    return false, -1;
  }
}
