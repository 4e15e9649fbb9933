/// The grid conversion inside `parseExcelFile` and the `getCellValue` lookup.
/// The conversion takes a sheet as the spreadsheet reader delivers it, a list
/// of rows of values with `null` for a blank cell, and builds the sheet's cell
/// grid: non-blank values keep their value and get a number or string tag,
/// blank ones become empty cells, empty rows are skipped, and the grid is then
/// padded to its row and column counts.
module ExcelParser {
  import opened JsValues
  import opened Types

  function Max(a: nat, b: nat): nat {
    if a < b then b else a
  }

  /** The cell built for one input value. */
  function ConvertCell(v: CellValue, row: nat, col: nat): Cell {
    if !IsNullish(v) then Cell(row, col, v, if v.Num? then NumberType else StringType)
    else Cell(row, col, Str(""), EmptyType)
  }

  /** The cells built for one input row, stamped with its index. */
  function ConvertRow(values: seq<CellValue>, row: nat): seq<Cell> {
    seq(|values|, col requires 0 <= col < |values| => ConvertCell(values[col], row, col))
  }

  /** The converted rows: one per non-empty input row, in input order. */
  function Converted(rows: seq<seq<CellValue>>): seq<seq<Cell>> {
    if rows == [] then []
    else
      var last := rows[|rows| - 1];
      Converted(rows[..|rows| - 1]) + (if |last| > 0 then [ConvertRow(last, |rows| - 1)] else [])
  }

  /** One past the last non-blank position of a row, 0 if it has none. */
  function RowExtent(values: seq<CellValue>): nat {
    if values == [] then 0
    else if !IsNullish(values[|values| - 1]) then |values|
    else RowExtent(values[..|values| - 1])
  }

  /** The `colCount` of a sheet. */
  function ColCountOf(rows: seq<seq<CellValue>>): nat {
    if rows == [] then 0 else Max(ColCountOf(rows[..|rows| - 1]), RowExtent(rows[|rows| - 1]))
  }

  /** The `rowCount` of a sheet. */
  function RowCountOf(rows: seq<seq<CellValue>>): nat {
    if rows == [] then 0
    else if |rows[|rows| - 1]| > 0 then |rows|
    else RowCountOf(rows[..|rows| - 1])
  }

  /** The empty cell the padding writes at a position. */
  function PadCell(row: nat, col: nat): Cell {
    Cell(row, col, Str(""), EmptyType)
  }

  /** A row extended with empty cells up to `cols` cells. */
  function PadRow(cells: seq<Cell>, row: nat, cols: nat): (r: seq<Cell>)
    ensures |r| == Max(|cells|, cols)
    ensures forall j :: 0 <= j < |r| ==> r[j] == if j < |cells| then cells[j] else PadCell(row, j)
  {
    if cols <= |cells| then cells
    else cells + seq(cols - |cells|, k requires 0 <= k < cols - |cells| => PadCell(row, |cells| + k))
  }

  /** The grid extended to `rows` rows of at least `cols` cells. */
  function Padded(data: seq<seq<Cell>>, rows: nat, cols: nat): seq<seq<Cell>>
    requires |data| <= rows
  {
    seq(rows, i requires 0 <= i < rows => PadRow(if i < |data| then data[i] else [], i, cols))
  }

  /** The sheet `parseExcelFile` builds from a sheet's rows. */
  function ParsedSheet(name: string, rows: seq<seq<CellValue>>): Sheet {
    ConvertedFits(rows);
    Sheet(name, Padded(Converted(rows), RowCountOf(rows), ColCountOf(rows)), RowCountOf(rows), ColCountOf(rows))
  }

  // ---------------------------------------------------------------------------
  // The conversion loops of parseExcelFile
  // ---------------------------------------------------------------------------

  /** One sheet of the workbook: conversion, then padding. */
  method ParseSheet(sheetName: string, jsonData: seq<seq<CellValue>>) returns (sheet: Sheet)
    ensures sheet == ParsedSheet(sheetName, jsonData)
  {
    var cellData: seq<seq<Cell>> := [];
    var rowCount: nat := 0;
    var colCount: nat := 0;
    for rowIndex := 0 to |jsonData|
      invariant cellData == Converted(jsonData[..rowIndex])
      invariant rowCount == RowCountOf(jsonData[..rowIndex])
      invariant colCount == ColCountOf(jsonData[..rowIndex])
      invariant rowCount <= rowIndex
    {
      assert jsonData[..rowIndex + 1][..rowIndex] == jsonData[..rowIndex];
      var cellRow;
      cellRow, colCount := ConvertJsonRow(jsonData[rowIndex], rowIndex, colCount);
      if |cellRow| > 0 {
        cellData := cellData + [cellRow];
        rowCount := Max(rowCount, rowIndex + 1);
      }
    }
    assert jsonData[..|jsonData|] == jsonData;
    ConvertedFits(jsonData);
    cellData := PadGrid(cellData, rowCount, colCount);
    sheet := Sheet(sheetName, cellData, rowCount, colCount);
  }

  /** The cells of one input row; `colCount` grows past each non-blank value. */
  method ConvertJsonRow(row: seq<CellValue>, rowIndex: nat, colCount: nat) returns (cellRow: seq<Cell>, colCount': nat)
    ensures cellRow == ConvertRow(row, rowIndex)
    ensures colCount' == Max(colCount, RowExtent(row))
  {
    cellRow := [];
    colCount' := colCount;
    for colIndex := 0 to |row|
      invariant cellRow == ConvertRow(row[..colIndex], rowIndex)
      invariant colCount' == Max(colCount, RowExtent(row[..colIndex]))
      invariant RowExtent(row[..colIndex]) <= colIndex
    {
      assert row[..colIndex + 1][..colIndex] == row[..colIndex];
      var cellValue := row[colIndex];
      if cellValue != Null && cellValue != Undef {
        cellRow := cellRow + [Cell(rowIndex, colIndex, cellValue, if cellValue.Num? then NumberType else StringType)];
        colCount' := Max(colCount', colIndex + 1);
      } else {
        cellRow := cellRow + [Cell(rowIndex, colIndex, Str(""), EmptyType)];
      }
    }
    assert row[..|row|] == row;
  }

  /** The padding pass: missing rows become empty, then every row is
      filled with empty cells up to `colCount`. */
  method PadGrid(data: seq<seq<Cell>>, rowCount: nat, colCount: nat) returns (cellData: seq<seq<Cell>>)
    requires |data| <= rowCount
    ensures cellData == Padded(data, rowCount, colCount)
  {
    cellData := data;
    for i := 0 to rowCount
      invariant |cellData| == Max(i, |data|)
      invariant forall r :: 0 <= r < i ==> cellData[r] == PadRow(if r < |data| then data[r] else [], r, colCount)
      invariant forall r :: i <= r < |data| ==> cellData[r] == data[r]
    {
      if i >= |cellData| {
        cellData := cellData + [[]];
      }
      var padded := PadCells(cellData[i], i, colCount);
      cellData := cellData[i := padded];
    }
  }

  /** `cellData[i][j] = empty` for each missing `j < colCount`. */
  method PadCells(cells: seq<Cell>, i: nat, colCount: nat) returns (cells': seq<Cell>)
    ensures cells' == PadRow(cells, i, colCount)
  {
    cells' := cells;
    for j := 0 to colCount
      invariant cells' == PadRow(cells, i, j)
    {
      if j >= |cells'| {
        cells' := cells' + [PadCell(i, j)];
      }
    }
  }

  /** The workbook: one parsed sheet per sheet name, in the workbook's
      order, each built from that sheet's rows. */
  function ParseWorkbook(fileName: string, sheets: seq<(string, seq<seq<CellValue>>)>): (r: ExcelData)
    ensures r.fileName == fileName && |r.sheets| == |sheets|
    ensures forall i :: 0 <= i < |sheets| ==>
      r.sheets[i].name == sheets[i].0 && r.sheets[i].rowCount == RowCountOf(sheets[i].1)
      && r.sheets[i].colCount == ColCountOf(sheets[i].1) && |r.sheets[i].data| == r.sheets[i].rowCount
  {
    ExcelData(fileName, seq(|sheets|, i requires 0 <= i < |sheets| => ParsedSheet(sheets[i].0, sheets[i].1)))
  }

  // ---------------------------------------------------------------------------
  // getCellValue
  // ---------------------------------------------------------------------------

  /** The value at a position of a named sheet: null when there is no such
      sheet, "" outside the sheet's rows and cells. */
  function GetCellValue(data: ExcelData, sheetName: string, row: int, col: int): (v: CellValue)
    ensures v == Null <==> FindSheet(data.sheets, sheetName).None?
    ensures FindSheet(data.sheets, sheetName).Some? ==>
      var sheet := FindSheet(data.sheets, sheetName).value;
      && (0 <= row < |sheet.data| && 0 <= col < |sheet.data[row]| ==> v == Coalesce(sheet.data[row][col].value, Str("")))
      && (!(0 <= row < |sheet.data| && 0 <= col < |sheet.data[row]|) ==> v == Str(""))
  {
    var sheet := FindSheet(data.sheets, sheetName);
    if sheet.None? then Null
    else if row < |sheet.value.data| && 0 <= row && col < |sheet.value.data[row]| then
      if 0 <= col then Coalesce(sheet.value.data[row][col].value, Str("")) else Str("")
    else Str("")
  }

  // ---------------------------------------------------------------------------
  // Properties of the conversion
  // ---------------------------------------------------------------------------

  /** A converted row has one cell per input value: a non-blank value keeps
      its value with a number tag iff it is a number, a blank one becomes an
      empty cell; each cell carries the input row's index and its column. */
  lemma ConvertRowFacts(values: seq<CellValue>, row: nat)
    ensures var r := ConvertRow(values, row);
      && |r| == |values|
      && (forall c :: 0 <= c < |r| ==> r[c].row == row && r[c].col == c)
      && (forall c :: 0 <= c < |r| && !IsNullish(values[c]) ==>
            r[c].value == values[c] && (r[c].cellType == NumberType <==> values[c].Num?) && r[c].cellType != EmptyType
            && r[c].cellType != FormulaType)
      && (forall c :: 0 <= c < |r| && IsNullish(values[c]) ==> r[c].value == Str("") && r[c].cellType == EmptyType)
  {
  }

  /** `colCount` is one past the last non-blank column of any row: every
      non-blank value lies below it, and the column just below it holds a
      non-blank value in some row (trailing blanks do not count). */
  lemma {:induction false} ColCountSpec(rows: seq<seq<CellValue>>)
    ensures var n := ColCountOf(rows);
      && (forall r, c :: 0 <= r < |rows| && 0 <= c < |rows[r]| && !IsNullish(rows[r][c]) ==> c < n)
      && (n > 0 ==> exists r :: 0 <= r < |rows| && n - 1 < |rows[r]| && !IsNullish(rows[r][n - 1]))
  {
    if rows != [] {
      var init, last := rows[..|rows| - 1], rows[|rows| - 1];
      ColCountSpec(init);
      RowExtentSpec(last);
      var n := ColCountOf(rows);
      forall r, c | 0 <= r < |rows| && 0 <= c < |rows[r]| && !IsNullish(rows[r][c])
        ensures c < n
      {
        if r < |init| {
          assert init[r] == rows[r];
        }
      }
      if n > 0 {
        if n == RowExtent(last) {
          assert rows[|rows| - 1] == last;
        } else {
          var r :| 0 <= r < |init| && n - 1 < |init[r]| && !IsNullish(init[r][n - 1]);
          assert rows[r] == init[r];
        }
      }
    }
  }

  /** The extent of a row: every non-blank value lies below it and the value
      just below it is non-blank. */
  lemma {:induction false} RowExtentSpec(values: seq<CellValue>)
    ensures var n := RowExtent(values);
      && n <= |values|
      && (forall c :: 0 <= c < |values| && !IsNullish(values[c]) ==> c < n)
      && (n > 0 ==> !IsNullish(values[n - 1]))
  {
    if values != [] && IsNullish(values[|values| - 1]) {
      var init := values[..|values| - 1];
      RowExtentSpec(init);
      forall c | 0 <= c < |values| && !IsNullish(values[c])
        ensures c < RowExtent(values)
      {
        assert c < |init| && init[c] == values[c];
      }
    }
  }

  /** `rowCount` is one past the last non-empty input row, 0 when all rows
      are empty; the converted rows number no more than that. */
  lemma {:induction false} RowCountSpec(rows: seq<seq<CellValue>>)
    ensures var n := RowCountOf(rows);
      && n <= |rows|
      && (forall r :: n <= r < |rows| ==> rows[r] == [])
      && (n > 0 ==> rows[n - 1] != [])
  {
    if rows != [] && |rows[|rows| - 1]| == 0 {
      var init := rows[..|rows| - 1];
      RowCountSpec(init);
      forall r | RowCountOf(rows) <= r < |rows|
        ensures rows[r] == []
      {
        if r < |init| {
          assert init[r] == rows[r];
        }
      }
      if RowCountOf(rows) > 0 {
        assert init[RowCountOf(rows) - 1] == rows[RowCountOf(rows) - 1];
      }
    }
  }

  /** The converted rows are the non-empty input rows, converted under their
      own index, in order: the p-th of them comes from input row p or later. */
  lemma {:induction false} ConvertedRows(rows: seq<seq<CellValue>>, p: nat) returns (q: nat)
    requires p < |Converted(rows)|
    ensures p <= q < |rows| && rows[q] != [] && Converted(rows)[p] == ConvertRow(rows[q], q)
  {
    var init := rows[..|rows| - 1];
    if p < |Converted(init)| {
      q := ConvertedRows(init, p);
      assert rows[q] == init[q];
    } else {
      q := |rows| - 1;
      ConvertedFits(init);
    }
  }

  /** There are at most `rowCount` converted rows, and exactly one per input
      row when no input row is empty. */
  lemma {:induction false} ConvertedFits(rows: seq<seq<CellValue>>)
    ensures |Converted(rows)| <= RowCountOf(rows) <= |rows|
    ensures (forall r :: 0 <= r < |rows| ==> rows[r] != []) ==>
      Converted(rows) == seq(|rows|, r requires 0 <= r < |rows| => ConvertRow(rows[r], r))
  {
    if rows != [] {
      var init := rows[..|rows| - 1];
      ConvertedFits(init);
      if forall r :: 0 <= r < |rows| ==> rows[r] != [] {
        assert forall r :: 0 <= r < |init| ==> init[r] == rows[r];
      }
    }
  }

  /** A parsed sheet has exactly `rowCount` rows, each of at least
      `colCount` cells; a position past a converted row's end but inside
      the counts holds an empty cell stamped with that position, and every
      other position holds the converted cell. */
  lemma ParsedSheetShape(name: string, rows: seq<seq<CellValue>>)
    ensures var s, conv := ParsedSheet(name, rows), Converted(rows);
      && s.name == name && |s.data| == s.rowCount && s.rowCount == RowCountOf(rows) && s.colCount == ColCountOf(rows)
      && (forall i :: 0 <= i < |s.data| ==> s.colCount <= |s.data[i]|)
      && (forall i, j :: 0 <= i < |s.data| && 0 <= j < |s.data[i]| ==>
            if i < |conv| && j < |conv[i]| then s.data[i][j] == conv[i][j] else s.data[i][j] == PadCell(i, j))
  {
    ConvertedFits(rows);
    var s, conv := ParsedSheet(name, rows), Converted(rows);
    forall i | 0 <= i < |s.data|
      ensures s.colCount <= |s.data[i]|
    {
      assert s.data[i] == PadRow(if i < |conv| then conv[i] else [], i, s.colCount);
    }
  }

  /** With no empty input row, reading a parsed sheet back gives every input
      value, a blank one as "". */
  lemma ParsedValueReadBack(fileName: string, name: string, rows: seq<seq<CellValue>>, row: nat, col: nat)
    requires forall r :: 0 <= r < |rows| ==> rows[r] != []
    requires row < |rows| && col < |rows[row]|
    ensures GetCellValue(ExcelData(fileName, [ParsedSheet(name, rows)]), name, row, col) == Coalesce(rows[row][col], Str(""))
  {
    ConvertedFits(rows);
    RowCountSpec(rows);
    ParsedSheetShape(name, rows);
    var s := ParsedSheet(name, rows);
    assert FindSheet([s], name) == Some(s);
    assert Converted(rows)[row] == ConvertRow(rows[row], row);
  }

  /** An empty input row shifts the rows after it: from the rows [] and
      ["x"], the first grid row holds the cell of input row 1 while grid row
      1 is padding, so reading position (1, 0) back gives "" and not "x". */
  lemma EmptyRowShiftsLaterRows()
    ensures var s := ParsedSheet("S", [[], [Str("x")]]);
      && s.rowCount == 2 && s.colCount == 1
      && |s.data| == 2 && |s.data[0]| == 1 && |s.data[1]| == 1
      && s.data[0][0] == Cell(1, 0, Str("x"), StringType)
      && s.data[1][0] == PadCell(1, 0)
      && GetCellValue(ExcelData("book.xlsx", [s]), "S", 1, 0) == Str("")
  {
    var rows: seq<seq<CellValue>> := [[], [Str("x")]];
    assert rows[..1] == [[]];
    assert rows[..1][..0] == [];
    assert Converted(rows[..1]) == [];
    assert Converted(rows) == [ConvertRow([Str("x")], 1)];
    assert RowCountOf(rows) == 2;
    assert RowExtent(rows[1]) == 1;
    assert ColCountOf(rows[..1]) == 0;
    assert ColCountOf(rows) == 1;
    var s := ParsedSheet("S", rows);
    assert s.data[1] == PadRow([], 1, 1);
    assert FindSheet([s], "S") == Some(s);
  }
}
