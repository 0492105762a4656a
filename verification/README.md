# dbstruct / PileSchema in Dafny

This project models three deterministic parts of the *piles* `dbstruct` library.

1. **PileSchema (`pileschema.py`).** This is the schema generator. `processWithDriver` walks a validated schema document: a database, its tables and their columns, then its views and their subsets. It fires driver callbacks in a fixed order.
   - `SqlDriver` folds those callbacks into one DDL string.
   - `QtDriver` keeps an ordered column map per table. Its `fillTableData` turns that map into the template values of the generated C++ classes: the `id` column, the column count and the quoted column lists.
   - `str2bool` and `stringChoice` are the attribute helpers.
2. **`DbColumn` (`dbcolumn.cc`, `columns/dbcolumndata.cc`).** This is the column record. It holds a name and a label, the index of the column in the full table and among the real columns, a length, a data type and two flags.
3. **Column lookups** of the `DbTaew` and `DbTable` base classes (`dbtaew.cc`, `dbtable.cc`): `hasColumn`, `columnIndex` and `realColumnIndex`.

## How the model is built

**The traversal is a trace.** `processWithDriver` is modelled as the sequence of callbacks it fires (`PileSchema.Event`). It comes from a loop method and from a structural reference definition (`Traversal`), and the two are proved equal. Each driver is a fold over that trace:
- `SqlDriver` appends to a string;
- `QtDriver` updates a state record, and a `KeyError` ends the run.

**Attributes and dictionaries.** Python's `None` is `Option`. An attribute is "truthy" when it is present and non-empty. Python's insertion-ordered dictionaries are sequences of entries (`OrderedMaps`).

**Strings and files.**

| file | module | contents |
|---|---|---|
| strings.dfy | `Strings` | options, an ASCII case fold, joining, `s[:-k]`, decimal numerals |
| schema.dfy | `PileSchema` | the document, `str2bool`, `stringChoice`, the traversal |
| sql_driver.dfy | `SqlDriver` | the SQL callbacks, their fold, and its equality with a direct rendering of the document |
| ordered_map.dfy | `OrderedMaps` | dictionary assignment, lookup, and removal of a key |
| qt_driver.dfy | `QtDriver` | `QtDriver.column`, `fillTableData`, and the Qt callbacks as a fold |
| dbcolumn.dfy | `DbColumn` | `DbColumnData` and `DbColumn` |
| dbtaew.dfy | `DbTaew` | the lookups of `DbTaew` |
| dbtable.dfy | `DbTable` | the lookups of `DbTable`, as a loop, proved equal to `DbTaew`'s |

## Model

| member | source | states |
|---|---|---|
| PileSchema.Str2BoolMeaning | pileschema.py:591-594 | A missing attribute is false. A present one is true exactly when it equals "yes", "true", "t" or "1" ignoring case, so a true text has 1, 3 or 4 characters. |
| PileSchema.Str2BoolIgnoresCase | pileschema.py:591-594 | A text and its lower-cased form read alike. |
| PileSchema.LabelArgument | pileschema.py:619 | The label passed to `column` is the `label` attribute when it is truthy, and the column name otherwise. |
| PileSchema.VisitTable | pileschema.py:612-623 | The callbacks for one table are `tableStart`, one `column` per column in document order, then `tableEnd`. |
| PileSchema.VisitViews | pileschema.py:625-633 | The view loop gives up exactly when some view has no subset. The callbacks it fires up to that point are those of the reference trace. |
| PileSchema.ProcessWithDriver | pileschema.py:603-635 | The traversal fires exactly the reference trace: `databaseStart`, each table's callbacks in order, each view's callbacks, then `databaseEnd`. It reports failure at a view without a subset. |
| PileSchema.ViewsEventsStopAtMissing | pileschema.py:625-632 | Nothing after the first view without a subset is visited. |
| PileSchema.TraversalFrame | pileschema.py:603-635 | `databaseStart` comes first. The run fails exactly when some view lacks a subset. `databaseEnd` closes the trace exactly when the run does not fail. |
| PileSchema.TraversalVisitsTablesInOrder | pileschema.py:611-623 | Every table of the document, and no other, is opened once, in document order. |
| SqlDriver.DefaultOf | pileschema.py:156-161 | A truthy `default` wins over a truthy `defaultExpression`. With neither there is no default. A default that exists is non-empty. |
| SqlDriver.ColumnClausesMeaning | pileschema.py:150-168 | The clauses start with the type, with `(length)` only when a length is given. At most one DEFAULT clause follows, right after the type. `NOT NULL` appears iff NULLs are not allowed. `AUTO_INCREMENT` appears iff there is an identity. |
| SqlDriver.ColumnSql | pileschema.py:145-172 | Corrected column line: the two-space, back-quoted name, then the clauses separated by single spaces, the trailing space removed, then ",\n". |
| SqlDriver.ColumnSqlAsWrittenFusesDefault | pileschema.py:158-164 | As written, a column `qty int` with default 0 that forbids NULLs renders as "DEFAULT 0NOT NULL", which differs from the corrected line. |
| SqlDriver.TrimOneSpace | pileschema.py:169-170 | One trailing space is dropped when there is one, and the text is kept otherwise. |
| SqlDriver.TableEndSql | pileschema.py:130-143 | With a primary key the key line is appended. Without one, a trailing ",\n" becomes "\n". In every case ");\n" follows. |
| SqlDriver.SubsetSql | pileschema.py:182-198 | The view query is exactly `  SELECT * FROM name1 WHERE col1` followed by the tail of its case, with nothing between them. Without `in` the tail is constraint, value and a newline. With `in` it is ` IN (` and the nested SELECT over the `in` table. |
| SqlDriver.SqlOutputIsDdl | pileschema.py:117-198 | With column lines rendered by the corrected `ColumnSql` (Findings row 1), the DDL string after a traversal is every table's CREATE TABLE in document order, then every view's CREATE VIEW. It stops after the header of the first view without a subset. |
| OrderedMaps.PutMeaning | pileschema.py:485-493 | After `m[k] = c`, the key maps to `c` and every other key to its old value. A present key keeps its position and a new key goes last. Unique keys stay unique. |
| OrderedMaps.LastKeyIndexUnique | pileschema.py:361-362 | The position a loop records at every match of a key is, when the keys are unique, the position of that key. |
| OrderedMaps.RemoveMeaning | pileschema.py:369-373 | Leaving out a key keeps exactly the entries with other keys, and keeps the map whole when the key is absent. When the keys are unique and the key is present, the result is the map with that one entry cut out, so the other entries keep their order. |
| OrderedMaps.RemoveUnique | pileschema.py:369-373 | When the keys are unique, leaving out a present key cuts out its single entry. |
| QtDriver.MakeRecordAgreesWithSql | pileschema.py:469-493 | The column record's default is truthy exactly when the SQL driver emits a DEFAULT, and then it is the same text. A missing `qtype` falls back to the datatype name. `autoincrement` is set iff there is an identity. |
| QtDriver.TableColumnMapKeys | pileschema.py:485-493 | The column map of a table has unique keys, and they are exactly the names of its columns. |
| QtDriver.TableColumnMapOrder | pileschema.py:485-493 | When the column names are distinct, the keys of the map are the names in document order. |
| QtDriver.QuotedListAsWrittenEmpty | pileschema.py:422-425 | As written, closing an empty list gives a single `"`. |
| QtDriver.QuotedListQuotes | pileschema.py:422-425 | Corrected close: over quote-free items, a list of n items has 2n quote characters, and an empty list has 2. |
| QtDriver.QuotedListLines | pileschema.py:371-384 | A non-empty list is one indented `"item,"` line per item, joined by newlines. The last line has no comma, and no newline follows it. |
| QtDriver.FillTableData | pileschema.py:326-449 | The loop method computes exactly the reference values `FillTable`, including the KeyError for an unknown `qtype`. Both close the quoted lists with the corrected `CloseList` (Findings row 2). |
| QtDriver.ScanColumns | pileschema.py:351-402 | The column loop stops at the first column whose `qtype` has no conversion. Otherwise it ends with the position of the last `id` column and the four open lists of every column. |
| QtDriver.FillTableUnknown | pileschema.py:354-356 | `fillTableData` raises exactly when some column's `qtype` is not a key of `TO_CAST`. It names the first such column's type. |
| QtDriver.FillTableColumnCount | pileschema.py:427 | `COLUMN_COUNT` reads back as the number of columns. |
| QtDriver.FillTableIdColumn | pileschema.py:404-405 | `ID_COLUMN` is "COLID_INVALID" exactly when there is no `id` column. Otherwise it reads back as that column's position. |
| QtDriver.FillTableIdAccess | pileschema.py:404-413 | `GET_ID_RESULT` is "id" exactly when the `id` column exists and its datatype is long, int, bigint, smallint or tinyint. `SET_ID_RESULT` is "id = value" exactly then. |
| QtDriver.FillTableLists | pileschema.py:371-384 | `COMMA_COLUMNS` lists every key in order. `COMMA_COLUMNS_NO_ID` lists every key other than `id` in order. `COLUMN_COLUMNS` lists the `:key` placeholders and `ASSIGN_COLUMNS` the `key=:key` assignments of those same keys, in the same order. |
| QtDriver.FillTableListsBalanced | pileschema.py:422-425 | With quote-free keys, `COMMA_COLUMNS` and `COMMA_COLUMNS_NO_ID` have balanced quotes, even when a list is empty. |
| QtDriver.OnlyIdColumnAsWritten | pileschema.py:423 | As written, a table whose only column is `id` gets a `COMMA_COLUMNS_NO_ID` of one lone quote. The corrected value is the empty literal. |
| QtDriver.AfterTableMeaning | pileschema.py:451-455 | `tableEnd` raises exactly when the table's column map has an unknown type. Otherwise it stores that map under the table name, leaves every other table alone, and appends the table's values. |
| QtDriver.QtFoldTables | pileschema.py:320-455 | Over the tables of a document, the Qt driver raises the first KeyError. Otherwise it has filled every table in order, and it stores for each name the columns of the last table of that name. |
| QtDriver.QtFoldViews | pileschema.py:495-529 | Over the views, `viewSubset` takes the stored columns of `name1`, with a KeyError when there are none. The run raises the first error, or fills every view up to the first one without a subset, in order. |
| QtDriver.QtOutputMeaning | pileschema.py:603-635 | The Qt driver over a whole document raises a table's KeyError first, then a view's. A document with no table and no view raises a KeyError for `'database'` in `databaseEnd` (line 281), because only `tableStart` and `viewStart` fill `self.data`. Otherwise it yields the values of every table, then of every view, and the database name is cleared exactly when every view has a subset. |
| DbColumn.DefaultColumn | columns/dbcolumndata.cc:24-34 | The default column has an empty name and label, zero indexes and length, allows NULLs and is not read-only. Its type is the zero enumerator, not `DTY_INVALID`. |
| DbColumn.FullDataKeepsArguments | columns/dbcolumndata.cc:36-49 | The full data constructor stores every argument in its field. `allow_nulls` defaults to true. |
| DbColumn.CopyDataEqual | columns/dbcolumndata.cc:51-61 | A copy of the data equals its source. |
| DbColumn.NewColumnDefaults | dbcolumn.cc:88-101 | An empty label falls back to the name, and a given label is kept. A real id equal to `dbstruct::DEFAULT` falls back to the column id, and any other is kept. Every other argument is stored as given. |
| DbColumn.ColAndCopyAgree | dbcolumn.cc:292-302 | `col` builds a column whose getters all agree with the constructor's. A copy's getters all agree with its source. |
| DbColumn.SameGettersIsEqual | dbcolumn.cc:133-185 | Two columns are equal exactly when all eight getters agree. |
| DbColumn.SetColumnName | dbcolumn.cc:202-208 | Sets the name. The label becomes the new name only when it was empty. Nothing else changes. |
| DbColumn.SetColumnLabel | dbcolumn.cc:218-221 | Sets the label and never the name or anything else. |
| DbColumn.SetColumnId | dbcolumn.cc:238-241 | Sets the table index. The real index and every other field stay. |
| DbColumn.SetColumnRealId | dbcolumn.cc:258-261 | Sets the real index. The table index and every other field stay. |
| DbColumn.SetAllowNulls | dbcolumn.cc:271-274 | Sets the NULL flag, which the getter then returns. Nothing else changes. |
| DbColumn.SetReadOnly | dbcolumn.cc:285-288 | Sets the read-only flag, which the getter then returns. Nothing else changes. |
| DbColumn.SetCurrentValueIsIdentity | dbcolumn.cc:202-288 | Setting the label, either index or either flag to the value it already has leaves any column unchanged. For the name, this holds when a label is set. |
| DbColumn.SetColumnNameIdempotent | dbcolumn.cc:202-208 | Renaming twice to the same name is renaming once. A later rename keeps the label that the first rename filled in. |
| DbColumn.IdSettersCommute | dbcolumn.cc:238-261 | Setting the two indexes in either order gives the same column. |
| DbColumn.LabelledPreserved | dbcolumn.cc:88-101 | A named column always has a label after the constructors, a rename, and the index and flag setters. |
| DbColumn.EmptyLabelUnlabels | dbcolumn.cc:218-221 | Setting an empty label on a named column leaves it without a label. |
| DbTaew.ColumnIndex | dbtaew.cc:54-57 | Corrected lookup: -1, or the position of a case-insensitive match with no match before it. |
| DbTaew.HasColumnIffIndex | dbtaew.cc:47-57 | `hasColumn` holds exactly when `columnIndex` is not -1. |
| DbTaew.ColumnIndexIgnoresCase | dbtaew.cc:47-57 | Names that differ only in case get the same index and the same answer from `hasColumn`. |
| DbTaew.RealColumnIndex | dbtaew.cc:61-67 | Over the corrected `columnIndex` (Findings row 3): a missing column gives -1, and a present one gives the subclass's translation of the position of its first case-insensitive match. |
| DbTaew.RealColumnIndexFirstMatch | dbtaew.cc:61-67 | For every translation, if position i is the first whose name matches up to case, the real index is the translation of i. |
| DbTaew.RealColumnIndexAsWrittenMissesCase | dbtaew.cc:61-67 | As written, over the columns ["id"], `realColumnIndex("ID")` is -1 although `hasColumn("ID")` holds. The corrected lookup gives the translation of 0. |
| DbTaew.RealColumnIndexIdentity | dbtaew.cc:61-67 | With the identity translation, the real index is the index. |
| DbTaew.ColumnIndexAsWritten | dbtaew.cc:56 | As written, the search is exact: -1 when no name equals the argument exactly, and otherwise the first position holding exactly that name. |
| DbTaew.ColumnIndexAsWrittenMissesCase | dbtaew.cc:47-57 | As written, over the columns ["id"], `hasColumn("ID")` holds but `columnIndex("ID")` is -1. The corrected lookup gives 0. |
| DbTaew.AsWrittenFindsNoMore | dbtaew.cc:54-57 | Wherever the exact search finds a column, the corrected lookup finds one too, at the same or an earlier position. |
| DbTable.FindColumn | dbtable.cc:44-54 | `DbTable`'s lookups, written as a scan over the corrected `columnIndex` (Findings row 3), agree with `DbTaew`'s on every column list: membership, first case-insensitive index, and "present iff not -1". |

## Left out

- **CLI and schema loading.** Argument parsing, logging, user lookup, XSD validation and XML loading are left out, because they are I/O. The document is given already parsed. Every attribute the schema requires is assumed present.
- **QtDriver file output.** The file writes of `databaseEnd`, `tableEnd` and `viewEnd` are left out, along with `getTemplate` and the template texts. Of `bootstrapData`, which reads the clock, only the fact that it has filled `self.data` is kept. Of `databaseEnd`, only its KeyError when `self.data` is still empty and the reset of the database name are modelled.
- **Other `fillTableData` values.** Only the values listed above are modelled. The other strings it builds are left out, because they are rendering only: constructors, bind lists, case labels, getters and `COLUMN_IDS`.
- **`QtDriver.viewSubset` template keys.** The four keys set after the fill are left out, because they are constants.
- QtDriver.QtFold: `fillTableData` is a parameter of the fold. The whole-run lemma instantiates it with the modelled `FillTable`, so the traversal lemmas hold for any fill.
- **`SqlDriver.tableEnd` index error.** It reads `sql_string[-2]`, which raises on a string shorter than two characters. The model treats that case as "no trailing comma". It cannot arise after a `tableStart`.
- **`SqLiteDriver`.** It only changes the driver's constructor.
- **`dbrecord`, `sqlModel`, `dbobject` and the Qt templates.** These are database I/O, Qt model construction, and casts on undeclared members.
- **Case folding.** It is ASCII only. Qt folds Unicode case.
- **`DbColumn::isVirtual`.** It delegates to a `DbColumnData` member that is not part of this model.
- **`DbColumn` sharing.** `DbColumn` shares its `DbColumnData` through a shared-data handle whose declaration (dbcolumn.h) is out of sync with dbcolumn.cc. Columns are modelled as values, and a setter returns the updated column.
- **`readonly_`.** dbcolumn.cc stores and reads a `readonly_` field that the `DbColumnData` header does not declare. The model adds it, defaulting to false as the class comment describes. The model's full data constructor (`FullData`) also takes it as an argument, and its copy constructor (`CopyData`) copies it, although the seven-argument constructor and the copy constructor of columns/dbcolumndata.cc:36-61 do not mention it.
- **The default data type.** The comment on `DbColumn()` says the default type is `DTY_INVALID` (-1). The data constructor value-initialises it to 0 (`DTY_BIGINT`). The model follows the code.
- **`dbstruct::DEFAULT` and `toRealIndex`.** Neither is declared in any header that is part of this model. They are parameters (`defaultMarker`, and a function `int -> int`).
- **`DbTaew.ModifyTableName`.** It returns the table name, and there is nothing further to state about it.
- SqlOutputIsDdl: states the output of the corrected column line of Findings row 1, not the `sql_string` the source builds. The two differ on every column whose DEFAULT is followed by NOT NULL or AUTO_INCREMENT, where the source fuses the clauses, and on every column whose DEFAULT clause is last and whose default value ends in a space, where the source's single trailing-space trim eats that space.
- FillTableData: equals the corrected `FillTable`, which closes each quoted list with `CloseList`. For a table whose only column is `id`, the source gives `"` for `COMMA_COLUMNS_NO_ID`, `COLUMN_COLUMNS` and `ASSIGN_COLUMNS` (Findings row 2), where the model gives `""`.
- QtOutputMeaning: its filled values come from the corrected `FillTable`, so for a table or a view over a table whose only column is `id` it states `""` where the source builds `"`.
- FindColumn: equals the corrected `DbTaew.ColumnIndex`. dbtable.cc:53 has the same exact `indexOf(s_name, Qt::CaseInsensitive)` as dbtaew.cc:56, so over the columns ["id"] the source gives -1 for "ID" where the model gives 0 (Findings row 3).
- **`Qt::CaseSensitivity` value.** `DbTaew.ColumnIndexAsWritten` depends on the signature of `QStringList::indexOf` in Qt 5, which is not part of this model: `indexOf(value, from)` has no case argument.

## Findings

| source | as written | input that shows it | evidently intended | confidence | as-written member | corrected member |
|---|---|---|---|---|---|---|
| pileschema.py:158-161 | the DEFAULT clause is appended without a trailing space, unlike every other clause | column `qty int`, default 0, NULLs not allowed, gives "  \`qty\` int DEFAULT 0NOT NULL,\n" | "DEFAULT 0 NOT NULL" | high, not executed | SqlDriver.ColumnSqlAsWrittenFusesDefault | SqlDriver.ColumnSql |
| pileschema.py:422-425 | each list is closed with `[:-3] + '"'`, which turns an empty list into a lone `"` | a table whose only column is `id` gets `COMMA_COLUMNS_NO_ID` = `"`, an unterminated C++ string literal | the empty literal `""` | high, not executed | QtDriver.OnlyIdColumnAsWritten | QtDriver.FillTableListsBalanced |
| dbtaew.cc:56 | `columns().indexOf(s_name, Qt::CaseInsensitive)` passes the enum (value 0) as the `from` position of an exact search | columns ["id"], name "ID": `hasColumn` is true, `columnIndex` is -1 (also dbtable.cc:53) | first case-insensitive match, 0 | medium (depends on the Qt 5 signature), not executed | DbTaew.ColumnIndexAsWrittenMissesCase, DbTaew.RealColumnIndexAsWrittenMissesCase | DbTaew.ColumnIndex, DbTaew.RealColumnIndex, DbTable.FindColumn |
