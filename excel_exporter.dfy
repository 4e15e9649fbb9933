/// `exportMergedExcel`: the cell grids written to the exported workbook. For
/// every sheet name of either file, in the order the names were first seen,
/// the sheet of the default file is the base; a name the base file lacks is
/// skipped. Each cell of the bounding box takes the value its difference
/// record resolves to, or else the base sheet's value ("" when missing).
module ExcelExporter {
  import opened JsValues
  import opened Types
  import opened ComparisonEngine
  import opened MergedDataGenerator

  /** One worksheet handed to the spreadsheet writer: its name and its
      array of rows of values. */
  datatype ExportedSheet = ExportedSheet(name: string, data: seq<seq<CellValue>>)

  /** The value written for a cell that has a difference record. */
  function ExportDiffValue(d: DiffRecord, def: DefaultStrategy): CellValue {
    if d.resolution.Some? then
      var res := d.resolution.value;
      if res.strategy == FileA then Coalesce(d.oldValue, Str(""))
      else if res.strategy == FileB then Coalesce(d.newValue, Str(""))
      else if res.strategy == Custom && res.resolvedValue != Undef then res.resolvedValue
      else DefaultSide(d, def)
    else DefaultSide(d, def)
  }

  /** `defaultStrategy === 'fileA' ? sheetA : sheetB` */
  function BaseSheet(a: ExcelData, b: ExcelData, name: string, def: DefaultStrategy): Option<Sheet> {
    if def == DefaultFileA then FindSheet(a.sheets, name) else FindSheet(b.sheets, name)
  }

  /** `defaultStrategy === 'fileA' ? sheetB : sheetA` */
  function OtherSheet(a: ExcelData, b: ExcelData, name: string, def: DefaultStrategy): Option<Sheet> {
    if def == DefaultFileA then FindSheet(b.sheets, name) else FindSheet(a.sheets, name)
  }

  /** The value written at one position of an exported sheet. */
  function ExportCell(base: Sheet, name: string, diffs: seq<DiffRecord>, def: DefaultStrategy, row: int, col: int): CellValue {
    var diff := FindDiff(diffs, name, row, col);
    if diff.Some? then ExportDiffValue(diff.value, def) else ValueOr(CellAt(base, row, col))
  }

  function ExportRow(base: Sheet, name: string, diffs: seq<DiffRecord>, def: DefaultStrategy, row: int, cols: nat): seq<CellValue> {
    seq(cols, col => ExportCell(base, name, diffs, def, row, col))
  }

  /** The grid of a sheet over the bounding box of base and other sheet. */
  function ExportGrid(base: Sheet, other: Option<Sheet>, name: string, diffs: seq<DiffRecord>, def: DefaultStrategy): seq<seq<CellValue>> {
    seq(BoxRows(base, other), row => ExportRow(base, name, diffs, def, row, BoxCols(base, other)))
  }

  /** The sheet exported for one name: none when the base file lacks it. */
  function ExportedSheetFor(a: ExcelData, b: ExcelData, name: string, diffs: seq<DiffRecord>, def: DefaultStrategy): Option<ExportedSheet> {
    var base := BaseSheet(a, b, name, def);
    if base.None? then None
    else Some(ExportedSheet(name, ExportGrid(base.value, OtherSheet(a, b, name, def), name, diffs, def)))
  }

  /** The sheets exported for the names `names`, in order. */
  function ExportSheets(names: seq<string>, a: ExcelData, b: ExcelData, diffs: seq<DiffRecord>, def: DefaultStrategy): seq<ExportedSheet> {
    if names == [] then []
    else
      var sheet := ExportedSheetFor(a, b, names[|names| - 1], diffs, def);
      ExportSheets(names[..|names| - 1], a, b, diffs, def) + (if sheet.None? then [] else [sheet.value])
  }

  /** The exported workbook. */
  function ExportedWorkbook(a: ExcelData, b: ExcelData, diffs: seq<DiffRecord>, def: DefaultStrategy): seq<ExportedSheet> {
    ExportSheets(UnionNames(a, b), a, b, diffs, def)
  }

  // ---------------------------------------------------------------------------
  // exportMergedExcel
  // ---------------------------------------------------------------------------

  /** The worksheets of the exported workbook, sheet by sheet. */
  method ExportMergedExcel(fileA: ExcelData, fileB: ExcelData, diffs: seq<DiffRecord>, defaultStrategy: DefaultStrategy)
    returns (sheets: seq<ExportedSheet>)
    requires IsMergeDefault(defaultStrategy)
    ensures sheets == ExportedWorkbook(fileA, fileB, diffs, defaultStrategy)
  {
    var allSheetNames := CollectSheetNames(fileA, fileB);
    sheets := [];
    for i := 0 to |allSheetNames|
      invariant sheets == ExportSheets(allSheetNames[..i], fileA, fileB, diffs, defaultStrategy)
    {
      var sheetName := allSheetNames[i];
      ExportSheetsSnoc(allSheetNames, i, fileA, fileB, diffs, defaultStrategy);
      var sheetA := FindSheet(fileA.sheets, sheetName);
      var sheetB := FindSheet(fileB.sheets, sheetName);
      var baseSheet := if defaultStrategy == DefaultFileA then sheetA else sheetB;
      var otherSheet := if defaultStrategy == DefaultFileA then sheetB else sheetA;
      if baseSheet.Some? {
        var data := ExportSheetGrid(baseSheet.value, otherSheet, sheetName, diffs, defaultStrategy);
        sheets := sheets + [ExportedSheet(sheetName, data)];
      }
    }
    assert allSheetNames[..|allSheetNames|] == allSheetNames;
  }

  /** Exporting one more name appends that name's sheet, if any. */
  lemma ExportSheetsSnoc(names: seq<string>, i: nat, a: ExcelData, b: ExcelData, diffs: seq<DiffRecord>, def: DefaultStrategy)
    requires i < |names|
    ensures var sheet := ExportedSheetFor(a, b, names[i], diffs, def);
      ExportSheets(names[..i + 1], a, b, diffs, def)
        == ExportSheets(names[..i], a, b, diffs, def) + (if sheet.None? then [] else [sheet.value])
  {
    assert names[..i + 1][..i] == names[..i];
  }

  /** The grid of one exported sheet, row by row. */
  method ExportSheetGrid(baseSheet: Sheet, otherSheet: Option<Sheet>, sheetName: string, diffs: seq<DiffRecord>, def: DefaultStrategy)
    returns (data: seq<seq<CellValue>>)
    ensures data == ExportGrid(baseSheet, otherSheet, sheetName, diffs, def)
  {
    var maxRow := baseSheet.rowCount;
    if otherSheet.Some? && maxRow < otherSheet.value.rowCount {
      maxRow := otherSheet.value.rowCount;
    }
    var maxCol := baseSheet.colCount;
    if otherSheet.Some? && maxCol < otherSheet.value.colCount {
      maxCol := otherSheet.value.colCount;
    }
    data := [];
    for row := 0 to maxRow
      invariant |data| == row
      invariant forall r :: 0 <= r < row ==> data[r] == ExportRow(baseSheet, sheetName, diffs, def, r, maxCol)
    {
      var rowData := ExportSheetRow(baseSheet, sheetName, diffs, def, row, maxCol);
      data := data + [rowData];
    }
  }

  /** One row of an exported sheet, cell by cell. */
  method ExportSheetRow(baseSheet: Sheet, sheetName: string, diffs: seq<DiffRecord>, def: DefaultStrategy, row: nat, maxCol: nat)
    returns (rowData: seq<CellValue>)
    ensures rowData == ExportRow(baseSheet, sheetName, diffs, def, row, maxCol)
  {
    rowData := [];
    for col := 0 to maxCol
      invariant |rowData| == col
      invariant forall c :: 0 <= c < col ==> rowData[c] == ExportCell(baseSheet, sheetName, diffs, def, row, c)
    {
      var diff := FindDiff(diffs, sheetName, row, col);
      var cellValue := Str("");
      if diff.Some? && diff.value.resolution.Some? {
        var resolution := diff.value.resolution.value;
        if resolution.strategy == FileA {
          cellValue := Coalesce(diff.value.oldValue, Str(""));
        } else if resolution.strategy == FileB {
          cellValue := Coalesce(diff.value.newValue, Str(""));
        } else if resolution.strategy == Custom && resolution.resolvedValue != Undef {
          cellValue := resolution.resolvedValue;
        } else {
          cellValue := if def == DefaultFileA then diff.value.oldValue else diff.value.newValue;
        }
      } else if diff.Some? {
        cellValue := if def == DefaultFileA then diff.value.oldValue else diff.value.newValue;
      } else {
        var baseCell := CellAt(baseSheet, row, col);
        cellValue := if baseCell.None? then Str("") else Coalesce(baseCell.value.value, Str(""));
      }
      rowData := rowData + [cellValue];
    }
  }

  // ---------------------------------------------------------------------------
  // Properties of the exported workbook
  // ---------------------------------------------------------------------------

  /** Each exported sheet is the sheet exported for one of `names` that the
      base file has. */
  lemma {:induction false} ExportSheetsSound(names: seq<string>, a: ExcelData, b: ExcelData, diffs: seq<DiffRecord>, def: DefaultStrategy)
    ensures var r := ExportSheets(names, a, b, diffs, def);
      && |r| <= |names|
      && forall k :: 0 <= k < |r| ==> r[k].name in names && ExportedSheetFor(a, b, r[k].name, diffs, def) == Some(r[k])
  {
    if names != [] {
      var init := names[..|names| - 1];
      var front := ExportSheets(init, a, b, diffs, def);
      var r := ExportSheets(names, a, b, diffs, def);
      ExportSheetsSound(init, a, b, diffs, def);
      forall k | 0 <= k < |r|
        ensures r[k].name in names && ExportedSheetFor(a, b, r[k].name, diffs, def) == Some(r[k])
      {
        if k < |front| {
          assert r[k] == front[k];
          assert front[k].name in init;
        }
      }
    }
  }

  /** Every one of `names` that the base file has is exported. */
  lemma {:induction false} ExportSheetsComplete(names: seq<string>, a: ExcelData, b: ExcelData, diffs: seq<DiffRecord>, def: DefaultStrategy, j: nat)
    returns (k: nat)
    requires j < |names| && BaseSheet(a, b, names[j], def).Some?
    ensures k < |ExportSheets(names, a, b, diffs, def)| && ExportSheets(names, a, b, diffs, def)[k].name == names[j]
  {
    var init := names[..|names| - 1];
    var front := ExportSheets(init, a, b, diffs, def);
    if j < |init| {
      assert init[j] == names[j];
      k := ExportSheetsComplete(init, a, b, diffs, def, j);
      assert front[k] == ExportSheets(names, a, b, diffs, def)[k];
    } else {
      k := |front|;
    }
  }

  /** With no name twice in `names`, no sheet is exported twice. */
  lemma {:induction false} ExportSheetsDistinct(names: seq<string>, a: ExcelData, b: ExcelData, diffs: seq<DiffRecord>, def: DefaultStrategy)
    requires Distinct(names)
    ensures var r := ExportSheets(names, a, b, diffs, def);
      forall k, l :: 0 <= k < l < |r| ==> r[k].name != r[l].name
  {
    if names != [] {
      var init, last := names[..|names| - 1], names[|names| - 1];
      var front := ExportSheets(init, a, b, diffs, def);
      var r := ExportSheets(names, a, b, diffs, def);
      assert Distinct(init);
      ExportSheetsDistinct(init, a, b, diffs, def);
      ExportSheetsSound(init, a, b, diffs, def);
      assert forall k :: 0 <= k < |front| ==> r[k] == front[k];
      assert |r| > |front| ==> r[|front|].name == last;
      forall k | 0 <= k < |front|
        ensures front[k].name != last
      {
        var j :| 0 <= j < |init| && init[j] == front[k].name;
      }
    }
  }

  /** The exported workbook has one sheet per sheet name the base (default)
      file has, no name twice, each holding that base sheet's grid; a name
      only the other file has is not exported. */
  lemma ExportedSheetsFollowBase(a: ExcelData, b: ExcelData, diffs: seq<DiffRecord>, def: DefaultStrategy, name: string)
    ensures var r := ExportedWorkbook(a, b, diffs, def);
      && (forall k, l :: 0 <= k < l < |r| ==> r[k].name != r[l].name)
      && ((exists k :: 0 <= k < |r| && r[k].name == name) <==> BaseSheet(a, b, name, def).Some?)
      && (forall k :: 0 <= k < |r| ==>
            && BaseSheet(a, b, r[k].name, def).Some?
            && r[k].data == ExportGrid(BaseSheet(a, b, r[k].name, def).value, OtherSheet(a, b, r[k].name, def), r[k].name, diffs, def))
  {
    var u := UnionNames(a, b);
    var r := ExportedWorkbook(a, b, diffs, def);
    UnionNamesFacts(a, b);
    ExportSheetsSound(u, a, b, diffs, def);
    ExportSheetsDistinct(u, a, b, diffs, def);
    if BaseSheet(a, b, name, def).Some? {
      assert name in u;
      var j :| 0 <= j < |u| && u[j] == name;
      var k := ExportSheetsComplete(u, a, b, diffs, def, j);
    }
    forall k | 0 <= k < |r|
      ensures BaseSheet(a, b, r[k].name, def).Some?
    {
      assert ExportedSheetFor(a, b, r[k].name, diffs, def) == Some(r[k]);
    }
  }

  /** The sheets `f` gives the names `names`, in order, skipping the names it
      gives none. */
  function Picked(names: seq<string>, f: string -> Option<ExportedSheet>): seq<ExportedSheet>
    decreases |names|
  {
    if names == [] then []
    else
      var sheet := f(names[|names| - 1]);
      Picked(names[..|names| - 1], f) + (if sheet.None? then [] else [sheet.value])
  }

  /** `Picked` keeps the order of the names: `idx` lists, in increasing order,
      exactly the positions of the names `f` gives a sheet, and the `k`-th
      sheet is the one given the `k`-th such name. */
  lemma {:induction false} PickedOrder(names: seq<string>, f: string -> Option<ExportedSheet>) returns (idx: seq<nat>)
    ensures var r := Picked(names, f);
      && |idx| == |r|
      && (forall k :: 0 <= k < |r| ==> idx[k] < |names| && f(names[idx[k]]) == Some(r[k]))
      && (forall k, l :: 0 <= k < l < |idx| ==> idx[k] < idx[l])
      && (forall j :: 0 <= j < |names| ==> (j in idx <==> f(names[j]).Some?))
    decreases |names|
  {
    if names == [] {
      idx := [];
    } else {
      var n := |names| - 1;
      var init := names[..n];
      var idx0 := PickedOrder(init, f);
      assert forall k :: 0 <= k < n ==> init[k] == names[k];
      if f(names[n]).Some? {
        idx := idx0 + [n];
      } else {
        idx := idx0;
      }
    }
  }

  /** The per-name export as a function of the name. */
  function SheetsExport(a: ExcelData, b: ExcelData, diffs: seq<DiffRecord>, def: DefaultStrategy): string -> Option<ExportedSheet> {
    name => ExportedSheetFor(a, b, name, diffs, def)
  }

  lemma {:induction false} ExportSheetsPicked(names: seq<string>, a: ExcelData, b: ExcelData, diffs: seq<DiffRecord>, def: DefaultStrategy)
    ensures ExportSheets(names, a, b, diffs, def) == Picked(names, SheetsExport(a, b, diffs, def))
    decreases |names|
  {
    if names != [] {
      ExportSheetsPicked(names[..|names| - 1], a, b, diffs, def);
    }
  }

  /** The exported sheets keep the order of the names: `idx` picks, in
      increasing order, exactly the positions of the names the base file has,
      and the `k`-th exported sheet is the export of the `k`-th picked name. */
  lemma ExportSheetsOrder(names: seq<string>, a: ExcelData, b: ExcelData, diffs: seq<DiffRecord>, def: DefaultStrategy)
    returns (idx: seq<nat>)
    ensures var r := ExportSheets(names, a, b, diffs, def);
      && |idx| == |r|
      && (forall k :: 0 <= k < |r| ==> idx[k] < |names| && ExportedSheetFor(a, b, names[idx[k]], diffs, def) == Some(r[k]))
      && (forall k, l :: 0 <= k < l < |idx| ==> idx[k] < idx[l])
      && (forall j :: 0 <= j < |names| ==> (j in idx <==> BaseSheet(a, b, names[j], def).Some?))
  {
    ExportSheetsPicked(names, a, b, diffs, def);
    idx := PickedOrder(names, SheetsExport(a, b, diffs, def));
  }

  /** The exported workbook appends its sheets in the order of the union of
      sheet names (A's names, then B's new ones, each in order of first
      appearance), skipping the names the base file lacks. */
  lemma ExportedWorkbookOrder(a: ExcelData, b: ExcelData, diffs: seq<DiffRecord>, def: DefaultStrategy) returns (idx: seq<nat>)
    ensures var u, r := UnionNames(a, b), ExportedWorkbook(a, b, diffs, def);
      && |idx| == |r|
      && (forall k :: 0 <= k < |r| ==> idx[k] < |u| && r[k].name == u[idx[k]])
      && (forall k, l :: 0 <= k < l < |idx| ==> idx[k] < idx[l])
      && (forall j :: 0 <= j < |u| ==> (j in idx <==> BaseSheet(a, b, u[j], def).Some?))
  {
    idx := ExportSheetsOrder(UnionNames(a, b), a, b, diffs, def);
  }

  /** An exported grid is a full rectangle covering both files' sheets. */
  lemma ExportGridShape(base: Sheet, other: Option<Sheet>, name: string, diffs: seq<DiffRecord>, def: DefaultStrategy)
    ensures var g := ExportGrid(base, other, name, diffs, def);
      && |g| == BoxRows(base, other) && base.rowCount <= |g|
      && (other.Some? ==> other.value.rowCount <= |g|)
      && (forall r :: 0 <= r < |g| ==> |g[r]| == BoxCols(base, other))
      && base.colCount <= BoxCols(base, other)
      && (other.Some? ==> other.value.colCount <= BoxCols(base, other))
  {
  }

  /** On a cell with a record, the exported value is the value the preview
      shows there. */
  lemma ExportDiffValueIsPreviewValue(d: DiffRecord, def: DefaultStrategy, row: int, col: int)
    ensures ExportDiffValue(d, def) == DiffCell(d, def, row, col).value
  {
  }

  /** For a sheet both files have, the exported grid and the preview sheet
      have the same bounding box, and at every position that has a record
      they hold the same value. */
  lemma ExportAgreesWithPreviewOnRecords(a: ExcelData, b: ExcelData, diffs: seq<DiffRecord>, def: DefaultStrategy, name: string, row: nat, col: nat)
    requires IsMergeDefault(def)
    requires FindSheet(a.sheets, name).Some? && FindSheet(b.sheets, name).Some?
    requires FindDiff(diffs, name, row, col).Some?
    ensures var sa, sb := FindSheet(a.sheets, name).value, FindSheet(b.sheets, name).value;
      var base, other := BaseSheet(a, b, name, def).value, OtherSheet(a, b, name, def);
      var g, s := ExportGrid(base, other, name, diffs, def), MergedSheet(sa, b, diffs, def);
      && |g| == s.rowCount && BoxCols(base, other) == s.colCount
      && (row < |g| && col < BoxCols(base, other) ==> g[row][col] == s.data[row][col].value)
  {
    var sa, sb := FindSheet(a.sheets, name).value, FindSheet(b.sheets, name).value;
    var d := FindDiff(diffs, name, row, col).value;
    ExportDiffValueIsPreviewValue(d, def, row, col);
  }

  /** Exporting right after a comparison writes the base file back: every
      exported cell holds the base sheet's value ("" where it has none),
      whether or not the position has a record. */
  lemma FreshExportIsBaseFile(a: ExcelData, b: ExcelData, def: DefaultStrategy, name: string, row: nat, col: nat)
    requires IsMergeDefault(def) && BaseSheet(a, b, name, def).Some?
    ensures var base := BaseSheet(a, b, name, def).value;
      ExportCell(base, name, Differences(a, b), def, row, col) == ValueOr(CellAt(base, row, col))
  {
    var r := Differences(a, b);
    var d := FindDiff(r, name, row, col);
    if d.Some? {
      var i :| 0 <= i < |r| && r[i] == d.value;
      CellRecordPlacement(a, b, i);
      FreshDifferencesUnresolved(a, b);
      assert r[i].resolution.None?;
    }
  }

  /** A workbook with the number 1 in cell (0, 0) of its sheet "S". */
  function NumberOneBook(): ExcelData {
    ExcelData("a.xlsx", [Sheet("S", [[Cell(0, 0, Num(1), NumberType)]], 1, 1)])
  }

  /** A workbook with the text "1" in cell (0, 0) of its sheet "S". */
  function TextOneBook(): ExcelData {
    ExcelData("b.xlsx", [Sheet("S", [[Cell(0, 0, Str("1"), StringType)]], 1, 1)])
  }

  /** The number 1 and the text "1" compare equal, so the comparison of the
      two workbooks has no record for that cell. */
  lemma NumberAndTextOneHaveNoRecord()
    ensures FindDiff(Differences(NumberOneBook(), TextOneBook()), "S", 0, 0).None?
  {
    var a, b := NumberOneBook(), TextOneBook();
    OneBooksShareOneSheet();
    OneCellsCompareEqual();
    CellRecordIff(a, b, "S", 0, 0);
  }

  /** Cell (0, 0) of the two workbooks yields no cell record. */
  lemma OneCellsCompareEqual()
    ensures CellDiff("S", NumberOneBook().sheets[0], TextOneBook().sheets[0], 0, 0).None?
  {
    var sa, sb := NumberOneBook().sheets[0], TextOneBook().sheets[0];
    assert ValueOr(CellAt(sa, 0, 0)) == Num(1);
    assert ValueOr(CellAt(sb, 0, 0)) == Str("1");
    assert NumberToString(1) == "1";
    NumberEqualsPaddedRendering(1, "", "");
    assert "" + NumberToString(1) + "" == "1";
  }

  /** The preview and the export part ways on a cell without a record: with
      file B as the default, the preview shows file A's number 1 there while
      the export writes file B's text "1". */
  lemma PreviewAndExportDivergeWithoutRecord()
    ensures var a, b := NumberOneBook(), TextOneBook();
      var r := Differences(a, b);
      && MergedSheets(a, b, r, DefaultFileB)[0].data[0][0].value == Num(1)
      && ExportedWorkbook(a, b, r, DefaultFileB)[0].data[0][0] == Str("1")
  {
    var a, b := NumberOneBook(), TextOneBook();
    NumberAndTextOneHaveNoRecord();
    PreviewShowsFileA(a, b, Differences(a, b));
    ExportWritesFileB(a, b, Differences(a, b));
  }

  /** Without a record at (0, 0), the preview of the two workbooks shows
      file A's number 1 there. */
  lemma PreviewShowsFileA(a: ExcelData, b: ExcelData, r: seq<DiffRecord>)
    requires a == NumberOneBook() && b == TextOneBook()
    requires FindDiff(r, "S", 0, 0).None?
    ensures MergedSheets(a, b, r, DefaultFileB)[0].data[0][0].value == Num(1)
  {
    var sa, sb := a.sheets[0], b.sheets[0];
    assert FindSheet(b.sheets, "S") == Some(sb);
    assert MergedSheets(a, b, r, DefaultFileB)[0] == MergedSheet(sa, b, r, DefaultFileB);
    assert MergedCell(sa, Some(sb), r, DefaultFileB, 0, 0).value == Num(1);
  }

  /** Both workbooks have the one sheet "S". */
  lemma OneBooksShareOneSheet()
    ensures var a, b := NumberOneBook(), TextOneBook();
      && FindSheet(a.sheets, "S") == Some(a.sheets[0])
      && FindSheet(b.sheets, "S") == Some(b.sheets[0])
      && UnionNames(a, b) == ["S"]
  {
    var a, b := NumberOneBook(), TextOneBook();
    assert AddNames([], a.sheets) == ["S"];
  }

  /** Without a record at (0, 0), the export of the two workbooks with file
      B as the base writes file B's text "1" there. */
  lemma ExportWritesFileB(a: ExcelData, b: ExcelData, r: seq<DiffRecord>)
    requires a == NumberOneBook() && b == TextOneBook()
    requires FindDiff(r, "S", 0, 0).None?
    ensures var e := ExportedWorkbook(a, b, r, DefaultFileB);
      |e| == 1 && |e[0].data| == 1 && |e[0].data[0]| == 1 && e[0].data[0][0] == Str("1")
  {
    var sa, sb := a.sheets[0], b.sheets[0];
    OneBooksShareOneSheet();
    var grid := ExportGrid(sb, Some(sa), "S", r, DefaultFileB);
    assert ExportedSheetFor(a, b, "S", r, DefaultFileB) == Some(ExportedSheet("S", grid));
    assert ExportSheets(["S"], a, b, r, DefaultFileB) == ExportSheets([], a, b, r, DefaultFileB) + [ExportedSheet("S", grid)];
    assert ExportCell(sb, "S", r, DefaultFileB, 0, 0) == Str("1");
  }

  /** A sheet only file B has appears in the preview but is not exported
      when file A is the base, and a sheet only file A has appears in the
      preview but is not exported when file B is the base. */
  lemma OneSidedSheetsDroppedFromExport(a: ExcelData, b: ExcelData, diffs: seq<DiffRecord>, name: string)
    requires FindSheet(a.sheets, name).None? != FindSheet(b.sheets, name).None?
    ensures var p := MergedSheets(a, b, diffs, DefaultFileA);
      exists i :: 0 <= i < |p| && p[i].name == name
    ensures var p := MergedSheets(a, b, diffs, DefaultFileB);
      exists i :: 0 <= i < |p| && p[i].name == name
    ensures FindSheet(a.sheets, name).None? ==>
      var e := ExportedWorkbook(a, b, diffs, DefaultFileA);
      forall k :: 0 <= k < |e| ==> e[k].name != name
    ensures FindSheet(b.sheets, name).None? ==>
      var e := ExportedWorkbook(a, b, diffs, DefaultFileB);
      forall k :: 0 <= k < |e| ==> e[k].name != name
  {
    MergedSheetNames(a, b, diffs, DefaultFileA, name);
    MergedSheetNames(a, b, diffs, DefaultFileB, name);
    ExportedSheetsFollowBase(a, b, diffs, DefaultFileA, name);
    ExportedSheetsFollowBase(a, b, diffs, DefaultFileB, name);
  }
}
