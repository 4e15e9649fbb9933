/// `generateMergedData`: the merged workbook the preview shows. Every sheet of
/// file A becomes a sheet over the bounding box of A's and B's sheets of that
/// name, where each cell takes the value its difference record resolves to,
/// the default side for an unresolved record, and otherwise A's value, then
/// B's, then the empty string; the sheets only file B has follow unchanged.
module MergedDataGenerator {
  import opened JsValues
  import opened Types
  import opened ComparisonEngine
  import opened ComparisonSession

  /** `Math.max(sheet.rowCount, other?.rowCount ?? 0)` */
  function BoxRows(sheet: Sheet, other: Option<Sheet>): nat {
    if other.Some? && sheet.rowCount < other.value.rowCount then other.value.rowCount else sheet.rowCount
  }

  /** `Math.max(sheet.colCount, other?.colCount ?? 0)` */
  function BoxCols(sheet: Sheet, other: Option<Sheet>): nat {
    if other.Some? && sheet.colCount < other.value.colCount then other.value.colCount else sheet.colCount
  }

  /** `typeof v === 'number' ? 'number' : 'string'` */
  function TypeTag(v: CellValue): CellType {
    if v.Num? then NumberType else StringType
  }

  /** `defaultStrategy === 'fileA' ? diff.oldValue : diff.newValue` */
  function DefaultSide(d: DiffRecord, def: DefaultStrategy): CellValue {
    if def == DefaultFileA then d.oldValue else d.newValue
  }

  /** The preview cell at a position that has a difference record. */
  function DiffCell(d: DiffRecord, def: DefaultStrategy, row: int, col: int): Cell {
    if d.resolution.Some? then
      var res := d.resolution.value;
      if res.strategy == FileA then Cell(row, col, Coalesce(d.oldValue, Str("")), TypeTag(d.oldValue))
      else if res.strategy == FileB then Cell(row, col, Coalesce(d.newValue, Str("")), TypeTag(d.newValue))
      else if res.strategy == Custom && res.resolvedValue != Undef then Cell(row, col, res.resolvedValue, TypeTag(res.resolvedValue))
      else Cell(row, col, DefaultSide(d, def), TypeTag(DefaultSide(d, def)))
    else Cell(row, col, DefaultSide(d, def), TypeTag(DefaultSide(d, def)))
  }

  /** `cell && cell.value !== '' && cell.value !== null && cell.value !== undefined` */
  predicate HasContent(cell: Option<Cell>) {
    cell.Some? && cell.value.value != Str("") && !IsNullish(cell.value.value)
  }

  /** The preview cell at a position without a difference record. */
  function PlainCell(sheetA: Sheet, sheetB: Option<Sheet>, row: int, col: int): Cell {
    var cellA, cellB := CellAt(sheetA, row, col), CellIn(sheetB, row, col);
    if HasContent(cellA) then Cell(row, col, cellA.value.value, cellA.value.cellType)
    else if HasContent(cellB) then Cell(row, col, cellB.value.value, cellB.value.cellType)
    else Cell(row, col, Str(""), EmptyType)
  }

  function MergedCell(sheetA: Sheet, sheetB: Option<Sheet>, diffs: seq<DiffRecord>, def: DefaultStrategy, row: int, col: int): Cell {
    var diff := FindDiff(diffs, sheetA.name, row, col);
    if diff.Some? then DiffCell(diff.value, def, row, col) else PlainCell(sheetA, sheetB, row, col)
  }

  function MergedRow(sheetA: Sheet, sheetB: Option<Sheet>, diffs: seq<DiffRecord>, def: DefaultStrategy, row: int): seq<Cell> {
    seq(BoxCols(sheetA, sheetB), col => MergedCell(sheetA, sheetB, diffs, def, row, col))
  }

  function MergedGrid(sheetA: Sheet, sheetB: Option<Sheet>, diffs: seq<DiffRecord>, def: DefaultStrategy): seq<seq<Cell>> {
    seq(BoxRows(sheetA, sheetB), row => MergedRow(sheetA, sheetB, diffs, def, row))
  }

  /** The merged counterpart of one sheet of file A. */
  function MergedSheet(sheetA: Sheet, fileB: ExcelData, diffs: seq<DiffRecord>, def: DefaultStrategy): Sheet {
    var sheetB := FindSheet(fileB.sheets, sheetA.name);
    Sheet(sheetA.name, MergedGrid(sheetA, sheetB, diffs, def), BoxRows(sheetA, sheetB), BoxCols(sheetA, sheetB))
  }

  /** The sheets of `sheets` whose name file A does not have, in order. */
  function OnlyInB(fileA: ExcelData, sheets: seq<Sheet>): seq<Sheet> {
    if sheets == [] then []
    else
      var last := sheets[|sheets| - 1];
      OnlyInB(fileA, sheets[..|sheets| - 1]) + (if FindSheet(fileA.sheets, last.name).None? then [last] else [])
  }

  /** The sheets of the merged workbook. */
  function MergedSheets(fileA: ExcelData, fileB: ExcelData, diffs: seq<DiffRecord>, def: DefaultStrategy): seq<Sheet> {
    seq(|fileA.sheets|, i requires 0 <= i < |fileA.sheets| => MergedSheet(fileA.sheets[i], fileB, diffs, def))
      + OnlyInB(fileA, fileB.sheets)
  }

  // ---------------------------------------------------------------------------
  // generateMergedData
  // ---------------------------------------------------------------------------

  /** The merged workbook; the date-stamped file name is a parameter. */
  method GenerateMergedData(fileA: ExcelData, fileB: ExcelData, diffs: seq<DiffRecord>,
                            defaultStrategy: DefaultStrategy, fileName: string) returns (merged: ExcelData)
    requires IsMergeDefault(defaultStrategy)
    ensures merged == ExcelData(fileName, MergedSheets(fileA, fileB, diffs, defaultStrategy))
  {
    var mergedSheets := MergeSheetsOfA(fileA, fileB, diffs, defaultStrategy);
    mergedSheets := AppendSheetsOnlyInB(fileA, fileB, mergedSheets);
    merged := ExcelData(fileName, mergedSheets);
  }

  /** `fileA.sheets.map(...)`: the merged counterpart of each sheet of A. */
  method MergeSheetsOfA(fileA: ExcelData, fileB: ExcelData, diffs: seq<DiffRecord>, def: DefaultStrategy)
    returns (mergedSheets: seq<Sheet>)
    ensures mergedSheets == seq(|fileA.sheets|, i requires 0 <= i < |fileA.sheets| => MergedSheet(fileA.sheets[i], fileB, diffs, def))
  {
    mergedSheets := [];
    for i := 0 to |fileA.sheets|
      invariant |mergedSheets| == i
      invariant forall k :: 0 <= k < i ==> mergedSheets[k] == MergedSheet(fileA.sheets[k], fileB, diffs, def)
    {
      var sheet := MergeSheet(fileA.sheets[i], fileB, diffs, def);
      mergedSheets := mergedSheets + [sheet];
    }
  }

  /** The `forEach` that appends the sheets only file B has. */
  method AppendSheetsOnlyInB(fileA: ExcelData, fileB: ExcelData, front: seq<Sheet>) returns (mergedSheets: seq<Sheet>)
    ensures mergedSheets == front + OnlyInB(fileA, fileB.sheets)
  {
    mergedSheets := front;
    for j := 0 to |fileB.sheets|
      invariant mergedSheets == front + OnlyInB(fileA, fileB.sheets[..j])
    {
      var sheetB := fileB.sheets[j];
      OnlyInBSnoc(fileA, fileB.sheets, j);
      if FindSheet(fileA.sheets, sheetB.name).None? {
        mergedSheets := mergedSheets + [Sheet(sheetB.name, sheetB.data, sheetB.rowCount, sheetB.colCount)];
      }
    }
    assert fileB.sheets[..|fileB.sheets|] == fileB.sheets;
  }

  /** Walking one more sheet of B appends it when file A lacks its name. */
  lemma OnlyInBSnoc(fileA: ExcelData, sheets: seq<Sheet>, j: nat)
    requires j < |sheets|
    ensures OnlyInB(fileA, sheets[..j + 1])
      == OnlyInB(fileA, sheets[..j]) + (if FindSheet(fileA.sheets, sheets[j].name).None? then [sheets[j]] else [])
  {
    assert sheets[..j + 1][..j] == sheets[..j];
  }

  /** One sheet of file A, merged row by row. */
  method MergeSheet(sheetA: Sheet, fileB: ExcelData, diffs: seq<DiffRecord>, def: DefaultStrategy) returns (merged: Sheet)
    ensures merged == MergedSheet(sheetA, fileB, diffs, def)
  {
    var sheetB := FindSheet(fileB.sheets, sheetA.name);
    var maxRow := sheetA.rowCount;
    if sheetB.Some? && maxRow < sheetB.value.rowCount {
      maxRow := sheetB.value.rowCount;
    }
    var maxCol := sheetA.colCount;
    if sheetB.Some? && maxCol < sheetB.value.colCount {
      maxCol := sheetB.value.colCount;
    }
    var mergedData: seq<seq<Cell>> := [];
    for row := 0 to maxRow
      invariant |mergedData| == row
      invariant forall r :: 0 <= r < row ==> mergedData[r] == MergedRow(sheetA, sheetB, diffs, def, r)
    {
      var rowData := MergeRow(sheetA, sheetB, diffs, def, row, maxCol);
      mergedData := mergedData + [rowData];
    }
    merged := Sheet(sheetA.name, mergedData, maxRow, maxCol);
  }

  /** One row of the merged sheet, cell by cell. */
  method MergeRow(sheetA: Sheet, sheetB: Option<Sheet>, diffs: seq<DiffRecord>, def: DefaultStrategy,
                  row: nat, maxCol: nat) returns (rowData: seq<Cell>)
    requires maxCol == BoxCols(sheetA, sheetB)
    ensures rowData == MergedRow(sheetA, sheetB, diffs, def, row)
  {
    rowData := [];
    for col := 0 to maxCol
      invariant |rowData| == col
      invariant forall c :: 0 <= c < col ==> rowData[c] == MergedCell(sheetA, sheetB, diffs, def, row, c)
    {
      var diff := FindDiff(diffs, sheetA.name, row, col);
      var cellValue := Str("");
      var cellType := EmptyType;
      if diff.Some? && diff.value.resolution.Some? {
        var resolution := diff.value.resolution.value;
        if resolution.strategy == FileA {
          cellValue := Coalesce(diff.value.oldValue, Str(""));
          cellType := if diff.value.oldValue.Num? then NumberType else StringType;
        } else if resolution.strategy == FileB {
          cellValue := Coalesce(diff.value.newValue, Str(""));
          cellType := if diff.value.newValue.Num? then NumberType else StringType;
        } else if resolution.strategy == Custom && resolution.resolvedValue != Undef {
          cellValue := resolution.resolvedValue;
          cellType := if resolution.resolvedValue.Num? then NumberType else StringType;
        } else {
          cellValue := if def == DefaultFileA then diff.value.oldValue else diff.value.newValue;
          cellType := if cellValue.Num? then NumberType else StringType;
        }
      } else if diff.Some? {
        cellValue := if def == DefaultFileA then diff.value.oldValue else diff.value.newValue;
        cellType := if cellValue.Num? then NumberType else StringType;
      } else {
        var cellA := CellAt(sheetA, row, col);
        var cellB := CellIn(sheetB, row, col);
        if cellA.Some? && cellA.value.value != Str("") && cellA.value.value != Null && cellA.value.value != Undef {
          cellValue := cellA.value.value;
          cellType := cellA.value.cellType;
        } else if cellB.Some? && cellB.value.value != Str("") && cellB.value.value != Null && cellB.value.value != Undef {
          cellValue := cellB.value.value;
          cellType := cellB.value.cellType;
        } else {
          cellValue := Str("");
          cellType := EmptyType;
        }
      }
      rowData := rowData + [Cell(row, col, cellValue, cellType)];
    }
  }

  // ---------------------------------------------------------------------------
  // Properties of the merged workbook
  // ---------------------------------------------------------------------------

  /** The sheets only file B has are B's sheets whose name file A lacks, each
      copied unchanged, and every such sheet of B is among them. */
  lemma {:induction false} OnlyInBFacts(fileA: ExcelData, sheets: seq<Sheet>)
    ensures var r := OnlyInB(fileA, sheets);
      && |r| <= |sheets|
      && (forall k :: 0 <= k < |r| ==> r[k] in sheets && FindSheet(fileA.sheets, r[k].name).None?)
      && (forall j :: 0 <= j < |sheets| && FindSheet(fileA.sheets, sheets[j].name).None? ==> sheets[j] in r)
  {
    if sheets != [] {
      var init := sheets[..|sheets| - 1];
      OnlyInBFacts(fileA, init);
      var r := OnlyInB(fileA, sheets);
      forall j | 0 <= j < |sheets| && FindSheet(fileA.sheets, sheets[j].name).None?
        ensures sheets[j] in r
      {
        if j < |init| {
          assert init[j] == sheets[j];
        }
      }
      forall k | 0 <= k < |r|
        ensures r[k] in sheets
      {
        if k < |OnlyInB(fileA, init)| {
          assert r[k] == OnlyInB(fileA, init)[k];
          assert r[k] in init;
        }
      }
    }
  }

  /** The sheets only file B has keep B's order: `idx` picks, in increasing
      order, exactly the positions of B's sheets whose name file A lacks. */
  lemma {:induction false} OnlyInBOrder(fileA: ExcelData, sheets: seq<Sheet>) returns (idx: seq<nat>)
    ensures var r := OnlyInB(fileA, sheets);
      && |idx| == |r|
      && (forall k :: 0 <= k < |r| ==> idx[k] < |sheets| && r[k] == sheets[idx[k]])
      && (forall k, l :: 0 <= k < l < |idx| ==> idx[k] < idx[l])
      && (forall j :: 0 <= j < |sheets| ==> (j in idx <==> FindSheet(fileA.sheets, sheets[j].name).None?))
    decreases |sheets|
  {
    if sheets == [] {
      idx := [];
    } else {
      var n := |sheets| - 1;
      var init := sheets[..n];
      var idx0 := OnlyInBOrder(fileA, init);
      assert forall k :: 0 <= k < n ==> init[k] == sheets[k];
      if FindSheet(fileA.sheets, sheets[n].name).None? {
        idx := idx0 + [n];
      } else {
        idx := idx0;
      }
    }
  }

  /** The merged workbook lists A's sheets first, in A's order, each named
      after its A sheet and sized to the bounding box of both files' sheets
      of that name; then B's own sheets, copied unchanged. */
  lemma MergedSheetsLayout(fileA: ExcelData, fileB: ExcelData, diffs: seq<DiffRecord>, def: DefaultStrategy)
    ensures var r, n := MergedSheets(fileA, fileB, diffs, def), |fileA.sheets|;
      && n <= |r| <= n + |fileB.sheets|
      && (forall i :: 0 <= i < n ==> r[i] == MergedSheet(fileA.sheets[i], fileB, diffs, def))
      && (forall i :: n <= i < |r| ==> r[i] in fileB.sheets && FindSheet(fileA.sheets, r[i].name).None?)
  {
    var r, n := MergedSheets(fileA, fileB, diffs, def), |fileA.sheets|;
    var tail := OnlyInB(fileA, fileB.sheets);
    OnlyInBFacts(fileA, fileB.sheets);
    forall i | n <= i < |r|
      ensures r[i] in fileB.sheets && FindSheet(fileA.sheets, r[i].name).None?
    {
      assert r[i] == tail[i - n];
    }
  }

  /** A sheet name occurs in the merged workbook iff either file has a sheet
      of that name. */
  lemma MergedSheetNames(fileA: ExcelData, fileB: ExcelData, diffs: seq<DiffRecord>, def: DefaultStrategy, name: string)
    ensures var r := MergedSheets(fileA, fileB, diffs, def);
      (exists i :: 0 <= i < |r| && r[i].name == name) <==>
        FindSheet(fileA.sheets, name).Some? || FindSheet(fileB.sheets, name).Some?
  {
    var r := MergedSheets(fileA, fileB, diffs, def);
    if exists i :: 0 <= i < |r| && r[i].name == name {
      var i :| 0 <= i < |r| && r[i].name == name;
      MergedSheetFrom(fileA, fileB, diffs, def, i);
    }
    if FindSheet(fileA.sheets, name).Some? || FindSheet(fileB.sheets, name).Some? {
      var i := MergedSheetFor(fileA, fileB, diffs, def, name);
    }
  }

  /** Each merged sheet is named after a sheet of file A or of file B. */
  lemma MergedSheetFrom(fileA: ExcelData, fileB: ExcelData, diffs: seq<DiffRecord>, def: DefaultStrategy, i: nat)
    requires i < |MergedSheets(fileA, fileB, diffs, def)|
    ensures var name := MergedSheets(fileA, fileB, diffs, def)[i].name;
      FindSheet(fileA.sheets, name).Some? || FindSheet(fileB.sheets, name).Some?
  {
    var r, n := MergedSheets(fileA, fileB, diffs, def), |fileA.sheets|;
    MergedSheetsLayout(fileA, fileB, diffs, def);
    if i < n {
      assert r[i].name == fileA.sheets[i].name;
    } else {
      var j :| 0 <= j < |fileB.sheets| && fileB.sheets[j] == r[i];
      assert fileB.sheets[j].name == r[i].name;
    }
  }

  /** Each sheet name of either file has a merged sheet. */
  lemma MergedSheetFor(fileA: ExcelData, fileB: ExcelData, diffs: seq<DiffRecord>, def: DefaultStrategy, name: string) returns (i: nat)
    requires FindSheet(fileA.sheets, name).Some? || FindSheet(fileB.sheets, name).Some?
    ensures i < |MergedSheets(fileA, fileB, diffs, def)| && MergedSheets(fileA, fileB, diffs, def)[i].name == name
  {
    var front := seq(|fileA.sheets|, k requires 0 <= k < |fileA.sheets| => MergedSheet(fileA.sheets[k], fileB, diffs, def));
    var tail := OnlyInB(fileA, fileB.sheets);
    assert MergedSheets(fileA, fileB, diffs, def) == front + tail;
    if FindSheet(fileA.sheets, name).Some? {
      i :| 0 <= i < |fileA.sheets| && fileA.sheets[i].name == name;
      assert front[i].name == name;
    } else {
      var j :| 0 <= j < |fileB.sheets| && fileB.sheets[j].name == name;
      var k := OnlyInBIndex(fileA, fileB.sheets, j);
      i := |front| + k;
    }
  }

  /** Where a sheet of B whose name A lacks sits among B's own sheets. */
  lemma {:induction false} OnlyInBIndex(fileA: ExcelData, sheets: seq<Sheet>, j: nat) returns (k: nat)
    requires j < |sheets| && FindSheet(fileA.sheets, sheets[j].name).None?
    ensures k < |OnlyInB(fileA, sheets)| && OnlyInB(fileA, sheets)[k] == sheets[j]
  {
    var init := sheets[..|sheets| - 1];
    if j < |init| {
      assert init[j] == sheets[j];
      k := OnlyInBIndex(fileA, init, j);
    } else {
      k := |OnlyInB(fileA, init)|;
    }
  }

  /** A merged sheet is a full rectangle of its row and column counts, which
      cover both files' dimensions, and each cell carries its own position. */
  lemma MergedSheetShape(sheetA: Sheet, fileB: ExcelData, diffs: seq<DiffRecord>, def: DefaultStrategy)
    ensures var s, sb := MergedSheet(sheetA, fileB, diffs, def), FindSheet(fileB.sheets, sheetA.name);
      && |s.data| == s.rowCount
      && sheetA.rowCount <= s.rowCount && sheetA.colCount <= s.colCount
      && (sb.Some? ==> sb.value.rowCount <= s.rowCount && sb.value.colCount <= s.colCount)
      && (s.rowCount == sheetA.rowCount || (sb.Some? && s.rowCount == sb.value.rowCount))
      && (s.colCount == sheetA.colCount || (sb.Some? && s.colCount == sb.value.colCount))
      && (forall r :: 0 <= r < |s.data| ==> |s.data[r]| == s.colCount)
      && (forall r, c :: 0 <= r < |s.data| && 0 <= c < |s.data[r]| ==> s.data[r][c].row == r && s.data[r][c].col == c)
  {
  }

  /** A cell with a record shows a number tag exactly when it shows a number,
      and its value is one of the record's own values: file A's value or
      file B's (a missing one shown as "") or the custom value. A record
      decided for file A, file B or a custom value shows that choice. */
  lemma DiffCellFacts(d: DiffRecord, def: DefaultStrategy, row: int, col: int)
    ensures var c := DiffCell(d, def, row, col);
      && c.row == row && c.col == col
      && c.cellType == TypeTag(c.value)
      && (c.value in {d.oldValue, d.newValue, Str("")} || (d.resolution.Some? && c.value == d.resolution.value.resolvedValue))
      && (d.resolution.Some? && d.resolution.value.strategy == FileA ==> c.value == Coalesce(d.oldValue, Str("")))
      && (d.resolution.Some? && d.resolution.value.strategy == FileB ==> c.value == Coalesce(d.newValue, Str("")))
      && (d.resolution.Some? && d.resolution.value.strategy == Custom && d.resolution.value.resolvedValue != Undef ==>
            c.value == d.resolution.value.resolvedValue)
      && (!Decided(d) ==> c.value == DefaultSide(d, def))
  {
  }

  /** A record decided for a side or a custom value; every other record
      falls back on the preview's default. */
  predicate Decided(d: DiffRecord) {
    && d.resolution.Some?
    && (|| d.resolution.value.strategy == FileA
        || d.resolution.value.strategy == FileB
        || (d.resolution.value.strategy == Custom && d.resolution.value.resolvedValue != Undef))
  }

  /** A cell without a record shows A's value if it has content, else B's if
      it has content, else an empty cell; it never shows null or undefined. */
  lemma PlainCellFacts(sheetA: Sheet, sheetB: Option<Sheet>, row: int, col: int)
    ensures var c, cellA, cellB := PlainCell(sheetA, sheetB, row, col), CellAt(sheetA, row, col), CellIn(sheetB, row, col);
      && c.row == row && c.col == col
      && !IsNullish(c.value)
      && (c.value == Str("") <==> !HasContent(cellA) && !HasContent(cellB))
      && (c.value == Str("") ==> c.cellType == EmptyType)
      && (HasContent(cellA) ==> c.value == cellA.value.value && c.cellType == cellA.value.cellType)
      && (!HasContent(cellA) && HasContent(cellB) ==> c.value == cellB.value.value && c.cellType == cellB.value.cellType)
  {
  }

  /** Switching the preview default between file A and file B changes a cell
      iff the cell has a record that is not decided and whose two values
      differ. */
  lemma DefaultChangesOnlyUndecided(sheetA: Sheet, sheetB: Option<Sheet>, diffs: seq<DiffRecord>, row: int, col: int)
    ensures var d := FindDiff(diffs, sheetA.name, row, col);
      MergedCell(sheetA, sheetB, diffs, DefaultFileA, row, col) != MergedCell(sheetA, sheetB, diffs, DefaultFileB, row, col)
      <==> d.Some? && !Decided(d.value) && d.value.oldValue != d.value.newValue
  {
    var d := FindDiff(diffs, sheetA.name, row, col);
    if d.Some? && !Decided(d.value) && d.value.oldValue != d.value.newValue {
      assert MergedCell(sheetA, sheetB, diffs, DefaultFileA, row, col).value == d.value.oldValue;
    }
  }

  /** When every record is decided the preview does not depend on its
      default. */
  lemma DecidedPreviewIgnoresDefault(fileA: ExcelData, fileB: ExcelData, diffs: seq<DiffRecord>, d1: DefaultStrategy, d2: DefaultStrategy)
    requires forall i :: 0 <= i < |diffs| ==> Decided(diffs[i])
    ensures MergedSheets(fileA, fileB, diffs, d1) == MergedSheets(fileA, fileB, diffs, d2)
  {
    forall i | 0 <= i < |fileA.sheets|
      ensures MergedSheet(fileA.sheets[i], fileB, diffs, d1) == MergedSheet(fileA.sheets[i], fileB, diffs, d2)
    {
      DecidedSheetIgnoresDefault(fileA.sheets[i], fileB, diffs, d1, d2);
    }
  }

  /** One merged sheet, when every record is decided. */
  lemma DecidedSheetIgnoresDefault(sheetA: Sheet, fileB: ExcelData, diffs: seq<DiffRecord>, d1: DefaultStrategy, d2: DefaultStrategy)
    requires forall i :: 0 <= i < |diffs| ==> Decided(diffs[i])
    ensures MergedSheet(sheetA, fileB, diffs, d1) == MergedSheet(sheetA, fileB, diffs, d2)
  {
    var sb := FindSheet(fileB.sheets, sheetA.name);
    forall row | 0 <= row < BoxRows(sheetA, sb)
      ensures MergedRow(sheetA, sb, diffs, d1, row) == MergedRow(sheetA, sb, diffs, d2, row)
    {
      forall col | 0 <= col < BoxCols(sheetA, sb)
        ensures MergedCell(sheetA, sb, diffs, d1, row, col) == MergedCell(sheetA, sb, diffs, d2, row, col)
      {
        var d := FindDiff(diffs, sheetA.name, row, col);
        if d.Some? {
          var i :| 0 <= i < |diffs| && diffs[i] == d.value;
          assert Decided(diffs[i]);
        }
      }
    }
    assert MergedGrid(sheetA, sb, diffs, d1) == MergedGrid(sheetA, sb, diffs, d2);
  }

  /** Applying a default other than manual to a list whose custom
      resolutions all carry a value decides every record, so the preview
      no longer depends on its own default. */
  lemma AppliedDefaultDecidesAll(ds: seq<DiffRecord>, def: DefaultStrategy)
    requires def != DefaultManual
    requires CustomsCarryValues(ds)
    ensures forall i :: 0 <= i < |ApplyDefault(ds, def)| ==> Decided(ApplyDefault(ds, def)[i])
  {
    ApplyDefaultSpec(ds, def);
  }

  /** `find` skips a record that does not sit at the position sought. */
  lemma {:induction false} FindDiffSkips(xs: seq<DiffRecord>, d: DiffRecord, ys: seq<DiffRecord>, name: string, row: int, col: int)
    requires d.row != row
    ensures FindDiff(xs + [d] + ys, name, row, col) == FindDiff(xs + ys, name, row, col)
  {
    if xs != [] {
      assert (xs + [d] + ys)[1..] == xs[1..] + [d] + ys;
      assert (xs + ys)[1..] == xs[1..] + ys;
      FindDiffSkips(xs[1..], d, ys, name, row, col);
    } else {
      assert (xs + [d] + ys)[1..] == xs + ys;
    }
  }

  /** Sheet-level records (row -1) never reach a cell: removing one from the
      list leaves the merged workbook as it was. */
  lemma SheetRecordsIgnored(fileA: ExcelData, fileB: ExcelData, xs: seq<DiffRecord>, d: DiffRecord, ys: seq<DiffRecord>, def: DefaultStrategy)
    requires d.row < 0
    ensures MergedSheets(fileA, fileB, xs + [d] + ys, def) == MergedSheets(fileA, fileB, xs + ys, def)
  {
    var n := |fileA.sheets|;
    forall i | 0 <= i < n
      ensures MergedSheet(fileA.sheets[i], fileB, xs + [d] + ys, def) == MergedSheet(fileA.sheets[i], fileB, xs + ys, def)
    {
      var sheetA := fileA.sheets[i];
      var sb := FindSheet(fileB.sheets, sheetA.name);
      forall row | 0 <= row < BoxRows(sheetA, sb)
        ensures MergedRow(sheetA, sb, xs + [d] + ys, def, row) == MergedRow(sheetA, sb, xs + ys, def, row)
      {
        forall col | 0 <= col < BoxCols(sheetA, sb)
          ensures MergedCell(sheetA, sb, xs + [d] + ys, def, row, col) == MergedCell(sheetA, sb, xs + ys, def, row, col)
        {
          FindDiffSkips(xs, d, ys, sheetA.name, row, col);
        }
      }
      assert MergedGrid(sheetA, sb, xs + [d] + ys, def) == MergedGrid(sheetA, sb, xs + ys, def);
    }
  }

  /** Right after a comparison, every cell of a shared sheet's bounding box
      previews, up to the comparison's normalisation, the default file's
      value (a missing one read as ""): a differing cell shows exactly that
      value, and any other cell shows a value both files agree on. */
  lemma FreshPreviewShowsDefaultFile(a: ExcelData, b: ExcelData, name: string, row: nat, col: nat, def: DefaultStrategy)
    requires FindSheet(a.sheets, name).Some? && FindSheet(b.sheets, name).Some?
    requires row < MaxRow(FindSheet(a.sheets, name).value, FindSheet(b.sheets, name).value)
    requires col < MaxCol(FindSheet(a.sheets, name).value, FindSheet(b.sheets, name).value)
    ensures var sa, sb := FindSheet(a.sheets, name).value, FindSheet(b.sheets, name).value;
      var c := MergedCell(sa, Some(sb), Differences(a, b), def, row, col);
      var va, vb := ValueOr(CellAt(sa, row, col)), ValueOr(CellAt(sb, row, col));
      && NormalizeValue(c.value) == NormalizeValue(if def == DefaultFileA then va else vb)
      && (FindDiff(Differences(a, b), name, row, col).Some? ==> c.value == (if def == DefaultFileA then va else vb))
  {
    var sa, sb := FindSheet(a.sheets, name).value, FindSheet(b.sheets, name).value;
    var r := Differences(a, b);
    CellRecordIff(a, b, name, row, col);
    CellDiffSpec(name, sa, sb, row, col);
    FreshDifferencesUnresolved(a, b);
    var d := FindDiff(r, name, row, col);
    if d.Some? {
      var i :| 0 <= i < |r| && r[i] == d.value;
      assert CellDiff(name, sa, sb, row, col) == Some(r[i].(id := ""));
    }
  }
}
