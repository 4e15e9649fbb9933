# Excel comparison and merge core, in Dafny

This project models the core of a browser tool that compares two Excel
workbooks, file A (the old one) and file B (the new one), and merges them.
It covers these steps:

- **Parsing.** The rows of each worksheet become a padded grid of typed
  cells (`src/utils/excelParser.ts`).
- **Comparison.** The two workbooks are compared sheet by sheet and cell by
  cell (`src/utils/comparisonEngine.ts`). The result is a list of
  difference records: a sheet added or deleted, a changed dimension, or a
  cell that was added, deleted or modified. Each record gets an id
  `diff-<n>` and a category.
- **Session.** The session state holds the two files, the records and a
  default strategy. It lets the user resolve one record (take file A, take
  file B, a custom value, or leave it unresolved), apply the default
  strategy to every unresolved record, and count the records
  (`src/hooks/useExcelComparison.ts`).
- **Views.** Two views are derived from the records: the identical rows and
  columns of a sheet (`src/utils/diffFilter.ts`) and the rows that hold at
  least one difference (`src/utils/rowConflictAnalyzer.ts`).
- **Preview.** The merged workbook the preview shows is built from file A's
  sheets, then the sheets only file B has (`src/utils/mergedDataGenerator.ts`).
- **Export.** The grid of values written to the exported workbook is built
  around a base file (`src/utils/excelExporter.ts`).

The modules are:

- `JsValues`: the JavaScript value semantics the code relies on. It covers
  the dynamic cell value, truthiness, `??`, decimal rendering of integers
  and `String.prototype.trim`.
- `Types`: the data model, plus the `find` lookups every module shares.
- `ComparisonEngine`: `compareExcelFiles` as a method proved equal to the
  specification function `Differences`, with the statistics counters.
- `ComparisonSession`: the pure updates of the hook, plus a `Session` class
  whose methods update its four state fields.
- `DiffFilter` and `RowConflictAnalyzer`: the derived row and column views.
- `MergedDataGenerator`: the preview workbook, as nested loops proved equal
  to `MergedSheets`.
- `ExcelExporter`: the exported grids, as loops proved equal to
  `ExportedWorkbook`.
- `ExcelParser`: the conversion and padding passes of `parseExcelFile`, and
  `getCellValue`.

Each loop of the source is a method, and its `ensures` ties the result to a
specification function. The lemmas then state what the code promises about
that function: both directions of each "iff", every error or fallback path,
and the invariants that resolving a record or applying a default keeps.

Behaviours of the code that a reader may not expect, all reproduced by the
model:

- The resolution strategies are exactly `fileA`, `fileB`, `custom` and
  `unresolved`.
- The preview and the export do not always show the same value.
  - At a cell without a record, the preview takes A's value, else B's. The
    export takes the base file's value.
  - The number 1 and the text "1" compare equal, so such a cell has no
    record but previews and exports differently
    (`ExcelExporter.PreviewAndExportDivergeWithoutRecord`).
  - The export leaves out every sheet the base file lacks, while the preview
    shows it (`ExcelExporter.OneSidedSheetsDroppedFromExport`).
- A `fileA` or `fileB` resolution writes a missing value as `""`.
- The default-side fallback applies to unresolved records and also to a
  `custom` resolution that carries no value. That fallback does not replace
  a missing value with `""`.
- `applyDefaultStrategy` under the `manual` default writes an explicit
  `unresolved` resolution. It does not leave the record untouched.
- The row analyser reports a row as soon as one of its cells has a record,
  not only when the whole row differs.
- Sheet names are not required to be unique. Every lookup takes the first
  sheet of a name.
- The parser does not keep empty input rows. The rows after an empty one
  move up, and padding fills the end of the grid
  (`ExcelParser.EmptyRowShiftsLaterRows`).

## Model

| member | source | states |
|---|---|---|
| JsValues.NumberToStringInjective | src/utils/comparisonEngine.ts:102-105 | distinct integers render as distinct strings, so converting a number to a string never makes two different numbers compare equal |
| JsValues.NumberToStringSign | src/utils/comparisonEngine.ts:102-105 | the rendering is non-empty and starts with '-' exactly for negative numbers |
| JsValues.TrimSpec | src/utils/comparisonEngine.ts:106 | `trim` gives the contiguous middle part of the input with only whitespace around it and none at either end; the result is empty exactly when the input is blank |
| JsValues.TrimIdempotent | src/utils/comparisonEngine.ts:106 | trimming twice gives the same as trimming once |
| JsValues.TrimPadded | src/utils/comparisonEngine.ts:106 | trimming removes any whitespace padding around a string that neither starts nor ends with whitespace |
| Types.NarrowDefault | src/components/ComparisonView.tsx:84 | the export and preview default is fileA or fileB; fileA and oldValue map to fileA, everything else (manual too) maps to fileB |
| Types.FindSheet | src/utils/comparisonEngine.ts:14-15 | the result is None exactly when no sheet has that name; otherwise it is a sheet of the list with that name |
| Types.FindSheetFirst | src/utils/comparisonEngine.ts:14-15 | the sheet found is the first of the list with that name: no earlier sheet has it |
| Types.FindDiff | src/utils/mergedDataGenerator.ts:32-34 | the result is None exactly when no record sits at that sheet, row and column; otherwise it is a record of the list at that position |
| Types.FindDiffFirst | src/utils/mergedDataGenerator.ts:32-34 | the record found is the first of the list at that position: no earlier record sits there |
| ComparisonEngine.NormalizeValueFacts | src/utils/comparisonEngine.ts:100-107 | the comparison key is empty exactly for null, undefined and blank strings, and never starts or ends with whitespace |
| ComparisonEngine.NumberEqualsPaddedRendering | src/utils/comparisonEngine.ts:68-71 | a number and a string holding its rendering with whitespace around it compare equal |
| ComparisonEngine.NumbersCompareExactly | src/utils/comparisonEngine.ts:68-71 | two numbers compare equal exactly when they are the same number |
| ComparisonEngine.DiffIdInjective | src/utils/comparisonEngine.ts:82 | different counters give different ids |
| ComparisonEngine.CellDiff | src/utils/comparisonEngine.ts:81-90 | a cell record sits at its own position, carries the sheet name, is not a structure record, and has no resolution (its id is given when it is appended) |
| ComparisonEngine.SheetDiffs | src/utils/comparisonEngine.ts:18-92 | every record a sheet name contributes carries that name and no resolution (ids are given when appended) |
| ComparisonEngine.CollectSheetNames | src/utils/comparisonEngine.ts:7-10 | the name set is filled with A's names in order, then B's new ones, and equals `UnionNames` |
| ComparisonEngine.CompareExcelFiles | src/utils/comparisonEngine.ts:4-98 | the loops yield exactly `Differences(a, b)` |
| ComparisonEngine.CompareSheet | src/utils/comparisonEngine.ts:13-93 | one pass of the per-sheet callback appends that sheet's records, numbered on from the counter, and advances the counter by their number |
| ComparisonEngine.CompareGrid | src/utils/comparisonEngine.ts:59-92 | the nested loops over the bounding box append the sheet's cell records in row-major order |
| ComparisonEngine.CompareRow | src/utils/comparisonEngine.ts:60-92 | one row of the inner loop appends that row's cell records, numbered on from the counter |
| ComparisonEngine.CompareCell | src/utils/comparisonEngine.ts:61-91 | one position appends its record, numbered with the counter, exactly when `CellDiff` has one, and the counter advances with it |
| ComparisonEngine.RowFacts | src/utils/comparisonEngine.ts:62-91 | a row's records are exactly the present records of its columns, each from its own position, in increasing column order |
| ComparisonEngine.GridFacts | src/utils/comparisonEngine.ts:59-92 | a grid's records are exactly the present records of the positions inside it, each from its own position, in strict row-major order |
| ComparisonEngine.SheetGridNames | src/utils/comparisonEngine.ts:81-90 | every cell record of a shared sheet carries that sheet's name and is not a structure record |
| ComparisonEngine.UnionNamesFacts | src/utils/comparisonEngine.ts:7-10 | the union lists no name twice, holds every sheet name of either file, and puts A's names first |
| ComparisonEngine.AddNamesOrder | src/utils/comparisonEngine.ts:7-10 | the names added to the insertion-ordered set come in the order of their first appearance among the sheets, and each of them appears there |
| ComparisonEngine.UnionNamesOrder | src/utils/comparisonEngine.ts:7-10 | the union lists A's names in the order they first appear in A, then B's new names in the order they first appear in B, so the per-sheet blocks of the records come in that order |
| ComparisonEngine.DiffsOverBlock | src/utils/comparisonEngine.ts:13-93 | the records of one sheet name form one contiguous block of the result |
| ComparisonEngine.SheetBlock | src/utils/comparisonEngine.ts:13-93 | the block that a sheet name contributes to a comparison, and where it starts |
| ComparisonEngine.DiffIdsDistinct | src/utils/comparisonEngine.ts:82 | the i-th record has id "diff-i", so no two records share an id |
| ComparisonEngine.SheetOnlyInB | src/utils/comparisonEngine.ts:18-28 | a sheet only B has yields exactly one record: added, at row and column -1, category structure, no old value |
| ComparisonEngine.SheetOnlyInA | src/utils/comparisonEngine.ts:29-39 | a sheet only A has yields exactly one record: deleted, at row and column -1, category structure, no new value |
| ComparisonEngine.SheetRecords | src/utils/comparisonEngine.ts:13-93 | a sheet's records are one block, numbered on from its start, holding every record of that sheet |
| ComparisonEngine.CellDiffSpec | src/utils/comparisonEngine.ts:66-90 | a position yields a record iff the normalised values differ (a missing cell reads as ""); the kind follows the values' truthiness and the category their numeric type; no resolution is set |
| ComparisonEngine.SheetGridFacts | src/utils/comparisonEngine.ts:56-92 | a shared sheet's cell records lie inside the bounding box, each is its own position's record, they come in strict row-major order, and every differing position is among them |
| ComparisonEngine.SharedSheetStructure | src/utils/comparisonEngine.ts:40-53 | a shared sheet has a structure record iff its dimensions differ; that record is the sheet's first, carries both dimension texts, and is the only one |
| ComparisonEngine.SharedSheetCells | src/utils/comparisonEngine.ts:56-92 | after the structure record, a shared sheet's records are exactly its cell records |
| ComparisonEngine.CellRecordIff | src/utils/comparisonEngine.ts:56-92 | in the whole result, a record exists for a position of a shared sheet's box iff the normalised values differ there, and it is that position's record under its id |
| ComparisonEngine.CellRecordPlacement | src/utils/comparisonEngine.ts:56-92 | any cell-position record belongs to a sheet both files have, lies inside its box and is that position's record |
| ComparisonEngine.CellRecordsRowMajor | src/utils/comparisonEngine.ts:59-65 | within one sheet the cell records are in strict row-major order, so no position is reported twice |
| ComparisonEngine.RecordBlock | src/utils/comparisonEngine.ts:13-93 | a cell-position record lies in the block of a sheet both files have |
| ComparisonEngine.StatsAddUp | src/utils/comparisonEngine.ts:109-119 | resolved + unresolved = total, and added + deleted + modified + structure = total |
| ComparisonEngine.NoUnresolvedIff | src/utils/comparisonEngine.ts:113-116 | the unresolved counter is 0 exactly when every record has a resolution other than unresolved |
| ComparisonEngine.AllUnresolvedCount | src/utils/comparisonEngine.ts:113-116 | when no record is resolved, the unresolved counter equals the total |
| ComparisonEngine.FreshDifferencesUnresolved | src/utils/comparisonEngine.ts:81-90 | a fresh comparison sets no resolution, so every record counts as unresolved |
| ComparisonSession.DefaultResolution | src/hooks/useExcelComparison.ts:39-50 | fileA and oldValue map to fileA, fileB and newValue map to fileB, manual maps to unresolved |
| ComparisonSession.ResolveSpec | src/hooks/useExcelComparison.ts:21-34 | resolving keeps length and order, leaves records with another id unchanged, and gives records with that id the new resolution with every other field kept |
| ComparisonSession.ResolvedValueIffCustom | src/hooks/useExcelComparison.ts:26-29 | the written resolution has the given strategy and carries a value iff the strategy is custom, and then that value is the custom value |
| ComparisonSession.ResolveUnknownId | src/hooks/useExcelComparison.ts:21-34 | an id no record carries leaves the list unchanged |
| ComparisonSession.ResolveOneOfDifferences | src/hooks/useExcelComparison.ts:21-34 | on a comparison's records, resolving the k-th record's id changes that record only |
| ComparisonSession.ResolveNeverAddsUnresolved | src/hooks/useExcelComparison.ts:21-34 | resolving with any strategy other than unresolved never raises the unresolved counter |
| ComparisonSession.ApplyDefaultSpec | src/hooks/useExcelComparison.ts:36-59 | resolved records stay as they were; unresolved records get the default's strategy, no value, and keep every other field |
| ComparisonSession.ApplyDefaultIdempotent | src/hooks/useExcelComparison.ts:36-59 | applying the same default twice gives the same list as applying it once |
| ComparisonSession.ApplyDefaultResolvesAll | src/hooks/useExcelComparison.ts:36-59 | after applying a default other than manual, nothing is unresolved |
| ComparisonSession.ApplyManualKeepsCount | src/hooks/useExcelComparison.ts:38-54 | the manual default writes explicit unresolved resolutions and leaves the unresolved counter unchanged |
| ComparisonSession.DefaultAgreesWithNarrowing | src/components/ComparisonView.tsx:84 | for any default other than manual, the session and the export or preview default pick the same file |
| ComparisonSession.UpdatersKeepPositions | src/hooks/useExcelComparison.ts:21-59 | resolving and applying a default change resolutions only, never a record's sheet, row or column |
| ComparisonSession.UpdatersKeepCustomValues | src/components/DiffList.tsx:49-58 | a fresh comparison has no custom resolution; resolving with a value the list accepts (a non-blank string) and applying a default keep a value on every custom resolution |
| ComparisonSession.Session.constructor | src/hooks/useExcelComparison.ts:6-9 | the session starts with no files, no records and the fileB default |
| ComparisonSession.Session.SetFileA | src/hooks/useExcelComparison.ts:6 | sets file A and changes nothing else |
| ComparisonSession.Session.SetFileB | src/hooks/useExcelComparison.ts:7 | sets file B and changes nothing else |
| ComparisonSession.Session.SetDefaultStrategy | src/hooks/useExcelComparison.ts:9 | sets the default and changes nothing else |
| ComparisonSession.Session.Compare | src/hooks/useExcelComparison.ts:11-19 | with a file missing the list is empty; otherwise it is `Differences(A, B)` and holds no resolution; the files and the default are unchanged |
| ComparisonSession.Session.ResolveDiff | src/hooks/useExcelComparison.ts:21-34 | the list becomes `Resolve` of the old list; nothing else changes |
| ComparisonSession.Session.ApplyDefaultStrategy | src/hooks/useExcelComparison.ts:36-59 | the list becomes `ApplyDefault` of the old list under the current default; nothing else changes |
| ComparisonSession.Session.Stats | src/hooks/useExcelComparison.ts:61 | the stats of the current list: total is its length and the counters add up |
| DiffFilter.CountedDiffsFacts | src/utils/diffFilter.ts:23 | the filter keeps exactly the cell records of the sheet |
| DiffFilter.DiffRowsColsFacts | src/utils/diffFilter.ts:26-32 | the row (column) set holds exactly the rows (columns) some record sits on |
| DiffFilter.AnalyzeIdenticalRowsAndCols | src/utils/diffFilter.ts:6-51 | the loops return exactly `IdenticalRows` and `IdenticalCols` |
| DiffFilter.CollectTouched | src/utils/diffFilter.ts:26-32 | the loop collects exactly the rows and the columns the sheet's cell records sit on |
| DiffFilter.Untouched | src/utils/diffFilter.ts:35-48 | the loop keeps exactly the indices below the bound that no record touches |
| DiffFilter.IdenticalRowsIff | src/utils/diffFilter.ts:18-40 | a row is identical iff the sheet is in both files, the row lies in the box, and no cell record of the sheet is on it |
| DiffFilter.IdenticalColsIff | src/utils/diffFilter.ts:18-48 | a column is identical iff the sheet is in both files, the column lies in the box, and no cell record of the sheet is in it |
| DiffFilter.IdenticalViewKeepsUnderUpdates | src/utils/diffFilter.ts:23-48 | two lists with the same positions give the same identical rows and columns |
| DiffFilter.UncountedRecordIgnored | src/utils/diffFilter.ts:23 | a structure or sheet-level record, or another sheet's record, changes neither set |
| RowConflictAnalyzer.RowGroupNonEmpty | src/utils/rowConflictAnalyzer.ts:17-23 | a row some record sits on has a non-empty group |
| RowConflictAnalyzer.GetRowsWithConflicts | src/utils/rowConflictAnalyzer.ts:6-35 | the filter, grouping and row loop return exactly `ConflictRows` |
| RowConflictAnalyzer.GroupByRow | src/utils/rowConflictAnalyzer.ts:17-23 | the map has a key for every row some record sits on, holding that row's records in order |
| RowConflictAnalyzer.GroupStep | src/utils/rowConflictAnalyzer.ts:18-22 | pushing one record onto its row's group keeps the map a grouping |
| RowConflictAnalyzer.ConflictRowsIff | src/utils/rowConflictAnalyzer.ts:14-32 | a row conflicts iff it is in [0, maxRow) and at least one cell record of the sheet sits on it |
| RowConflictAnalyzer.ConflictAndIdenticalPartition | src/utils/rowConflictAnalyzer.ts:26-32 | for a sheet both files have, the conflict rows and the identical rows split [0, maxRow) with no overlap |
| RowConflictAnalyzer.ConflictRowsKeepUnderUpdates | src/utils/rowConflictAnalyzer.ts:14-32 | resolving a record or applying a default does not change the conflict rows |
| MergedDataGenerator.GenerateMergedData | src/utils/mergedDataGenerator.ts:7-111 | the workbook is the given file name with `MergedSheets` |
| MergedDataGenerator.MergeSheetsOfA | src/utils/mergedDataGenerator.ts:13-93 | the map over A's sheets gives, in order, `MergedSheet` of each |
| MergedDataGenerator.AppendSheetsOnlyInB | src/utils/mergedDataGenerator.ts:96-105 | the loop appends exactly `OnlyInB` of B's sheets |
| MergedDataGenerator.MergeSheet | src/utils/mergedDataGenerator.ts:13-93 | the sheet built for one sheet of A is `MergedSheet` |
| MergedDataGenerator.MergeRow | src/utils/mergedDataGenerator.ts:29-84 | one row of the nested loop is `MergedRow` |
| MergedDataGenerator.OnlyInBFacts | src/utils/mergedDataGenerator.ts:96-105 | the appended sheets are B's sheets whose name A lacks, each unchanged, and every such sheet is among them |
| MergedDataGenerator.OnlyInBOrder | src/utils/mergedDataGenerator.ts:96-105 | the appended sheets keep B's order: they are B's sheets at strictly increasing positions, and a position of B is picked exactly when A has no sheet of that name |
| MergedDataGenerator.MergedSheetsLayout | src/utils/mergedDataGenerator.ts:13-105 | A's sheets come first, in A's order, named after A and sized to the box of both files; then B's own sheets, unchanged and named as no sheet of A |
| MergedDataGenerator.MergedSheetNames | src/utils/mergedDataGenerator.ts:13-105 | a name occurs in the merged workbook iff either file has a sheet of that name |
| MergedDataGenerator.MergedSheetFrom | src/utils/mergedDataGenerator.ts:87-105 | each merged sheet carries the name of a sheet of A or of B |
| MergedDataGenerator.MergedSheetFor | src/utils/mergedDataGenerator.ts:13-105 | each sheet name of either file has a merged sheet |
| MergedDataGenerator.MergedSheetShape | src/utils/mergedDataGenerator.ts:17-92 | a merged sheet is a full rectangle of its counts, which cover both files' dimensions, and each cell carries its own position |
| MergedDataGenerator.DiffCellFacts | src/utils/mergedDataGenerator.ts:39-59 | a cell with a record shows a number tag exactly when its value is a number; a fileA/fileB/custom decision shows that choice (a missing side as ""); any other record shows the default side |
| MergedDataGenerator.PlainCellFacts | src/utils/mergedDataGenerator.ts:60-75 | a cell without a record shows A's value if it has content, else B's if it has content, else an empty cell; it never shows null or undefined |
| MergedDataGenerator.DefaultChangesOnlyUndecided | src/utils/mergedDataGenerator.ts:51-59 | switching the default between A and B changes a cell iff its record is undecided and its two values differ |
| MergedDataGenerator.DecidedPreviewIgnoresDefault | src/utils/mergedDataGenerator.ts:39-59 | when every record is decided, the preview does not depend on the default |
| MergedDataGenerator.DecidedSheetIgnoresDefault | src/utils/mergedDataGenerator.ts:39-59 | when every record is decided, one merged sheet does not depend on the default |
| MergedDataGenerator.AppliedDefaultDecidesAll | src/hooks/useExcelComparison.ts:36-59 | applying a default other than manual to a list whose custom resolutions carry values decides every record |
| MergedDataGenerator.SheetRecordsIgnored | src/utils/mergedDataGenerator.ts:32-34 | removing a sheet-level record (row -1) leaves the merged workbook unchanged |
| MergedDataGenerator.FreshPreviewShowsDefaultFile | src/utils/mergedDataGenerator.ts:28-75 | right after a comparison, each cell of a shared sheet's box previews the default file's value: exactly for a differing cell, up to normalisation otherwise |
| ExcelExporter.ExportMergedExcel | src/utils/excelExporter.ts:4-73 | the grids handed to the writer are exactly `ExportedWorkbook` |
| ExcelExporter.ExportSheetGrid | src/utils/excelExporter.ts:28-73 | one sheet's loops give `ExportGrid` |
| ExcelExporter.ExportSheetRow | src/utils/excelExporter.ts:39-72 | one row of the loops gives `ExportRow` |
| ExcelExporter.ExportSheetsSound | src/utils/excelExporter.ts:18-25 | each exported sheet is the export of one of the names, for a name the base file has |
| ExcelExporter.ExportSheetsComplete | src/utils/excelExporter.ts:18-25 | every name the base file has is exported |
| ExcelExporter.ExportSheetsDistinct | src/utils/excelExporter.ts:14-20 | with no name twice in the set, no sheet is exported twice |
| ExcelExporter.ExportedSheetsFollowBase | src/utils/excelExporter.ts:14-73 | one sheet per name the base (default) file has, no name twice, each holding its grid; a name only the other file has is not exported |
| ExcelExporter.ExportSheetsOrder | src/utils/excelExporter.ts:14-25 | the sheets are appended in the order of the names: the `k`-th exported sheet is the export of the `k`-th name the base file has, and a name is picked exactly when the base file has it |
| ExcelExporter.ExportedWorkbookOrder | src/utils/excelExporter.ts:7-25 | the exported sheets follow the union of sheet names in order, A's names and then B's new ones, skipping exactly the names the base file lacks |
| ExcelExporter.ExportGridShape | src/utils/excelExporter.ts:28-73 | an exported grid is a full rectangle over the box of both files' sheets |
| ExcelExporter.ExportDiffValueIsPreviewValue | src/utils/excelExporter.ts:48-63 | at a cell with a record, the exported value is the value the preview shows |
| ExcelExporter.ExportAgreesWithPreviewOnRecords | src/utils/excelExporter.ts:28-63 | for a shared sheet, export and preview have the same box and agree at every position that has a record |
| ExcelExporter.FreshExportIsBaseFile | src/utils/excelExporter.ts:42-68 | right after a comparison, every exported cell holds the base sheet's value ("" where it has none) |
| ExcelExporter.NumberAndTextOneHaveNoRecord | src/utils/comparisonEngine.ts:68-71 | the number 1 and the text "1" yield no record |
| ExcelExporter.PreviewAndExportDivergeWithoutRecord | src/utils/excelExporter.ts:64-68 | with file B as default, the preview shows A's number 1 where the export writes B's text "1" |
| ExcelExporter.OneSidedSheetsDroppedFromExport | src/utils/excelExporter.ts:23-25 | a sheet only B has is previewed but not exported with base A, and a sheet only A has is previewed but not exported with base B |
| ExcelParser.PadRow | src/utils/excelParser.ts:59-68 | a padded row keeps its cells and adds empty cells, each stamped with its position, up to the column count |
| ExcelParser.ParseSheet | src/utils/excelParser.ts:13-76 | conversion and padding of one sheet give `ParsedSheet` |
| ExcelParser.ConvertJsonRow | src/utils/excelParser.ts:26-47 | one input row gives `ConvertRow`, and the column count becomes the larger of its old value and one past the row's last non-blank value |
| ExcelParser.PadGrid | src/utils/excelParser.ts:54-69 | the padding pass gives `Padded` |
| ExcelParser.PadCells | src/utils/excelParser.ts:59-68 | the inner padding loop gives `PadRow` |
| ExcelParser.ParseWorkbook | src/utils/excelParser.ts:13-82 | the workbook keeps the file's name and has one sheet per sheet name, in order, named after it, with that sheet's row and column counts and exactly rowCount rows |
| ExcelParser.GetCellValue | src/utils/excelParser.ts:96-104 | null exactly when there is no such sheet; the stored value (nullish as "") inside the sheet's rows and cells; "" elsewhere |
| ExcelParser.ConvertRowFacts | src/utils/excelParser.ts:28-47 | one cell per value: a non-blank value is kept, with a number tag iff it is a number; a null one becomes an empty cell; each cell carries its row and column |
| ExcelParser.ColCountSpec | src/utils/excelParser.ts:37 | colCount is one past the last non-blank column of any row; trailing blanks do not count |
| ExcelParser.RowExtentSpec | src/utils/excelParser.ts:37 | a row's extent lies just past its last non-blank value |
| ExcelParser.RowCountSpec | src/utils/excelParser.ts:48-51 | rowCount is one past the last non-empty input row |
| ExcelParser.ConvertedRows | src/utils/excelParser.ts:48-51 | the converted rows are the non-empty input rows, in order, each converted under its own index |
| ExcelParser.ConvertedFits | src/utils/excelParser.ts:48-51 | at most rowCount rows are converted, and exactly one per input row when none is empty |
| ExcelParser.ParsedSheetShape | src/utils/excelParser.ts:54-76 | exactly rowCount rows, each at least colCount long; padding positions hold position-stamped empty cells, the rest hold converted cells |
| ExcelParser.ParsedValueReadBack | src/utils/excelParser.ts:21-104 | with no empty input row, reading a parsed sheet back gives every input value, a blank one as "" |
| ExcelParser.EmptyRowShiftsLaterRows | src/utils/excelParser.ts:48-58 | from rows [] and ["x"], grid row 0 holds input row 1's cell and row 1 is padding, so position (1, 0) reads back "" |

## Left out

- File reading and writing: `FileReader`, the XLSX reader and writer, the
  `Blob` and the download (`src/utils/excelParser.ts:4-11`, 79-93 and
  `src/utils/excelExporter.ts:75-100`). The parser starts from the rows that
  `sheet_to_json` returns, and the exporter stops at the grids handed to the
  writer.
- The date in the merged file name: it depends on the clock, so the file
  name is a parameter of `MergedDataGenerator.GenerateMergedData`.
- The React components, state hooks and rendering. Only the default
  narrowing in `ComparisonView.tsx` and the custom-value check in
  `DiffList.tsx` are modelled, as predicates.
- Numbers are integers. Fractions, floating point and their `toString`
  forms are not modelled; `ComparisonEngine.NormalizeValue` renders integers
  in decimal.
- The default argument `defaultStrategy = 'fileB'` of
  `generateMergedData` and `exportMergedExcel`: `defaultStrategy` is a
  required parameter of `MergedDataGenerator.GenerateMergedData` and
  `ExcelExporter.ExportMergedExcel`. Omitting the argument in the source is
  the same as passing `DefaultFileB`, so no behaviour is lost.
- Formulas and the `formula` cell type: no code path produces them.
- The `any`-typed custom value and cell values are limited to numbers,
  strings, `null` and `undefined`; booleans, dates and objects are not
  modelled.
- `ComparisonSession.Session.ResolveDiff` and the other session methods
  model one synchronous state update each. React's batching and the
  `useCallback` closures over stale state are not modelled.
