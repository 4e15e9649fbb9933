/// The identical-rows-and-columns view of one sheet: the rows and columns of
/// the bounding box that no cell record of that sheet touches.
module DiffFilter {
  import opened Types
  import opened ComparisonEngine
  import opened ComparisonSession

  /** The records the view looks at: cell records (row and col both >= 0)
      of the sheet; sheet-level and structure records (row = col = -1) are
      never counted. */
  predicate Counted(d: DiffRecord, sheetName: string) {
    d.sheetName == sheetName && d.row >= 0 && d.col >= 0
  }

  /** `diffs.filter(d => d.sheetName === sheetName && d.row >= 0 && d.col >= 0)` */
  function CountedDiffs(ds: seq<DiffRecord>, sheetName: string): seq<DiffRecord> {
    if ds == [] then []
    else (if Counted(ds[0], sheetName) then [ds[0]] else []) + CountedDiffs(ds[1..], sheetName)
  }

  /** The filter keeps exactly the counted records, in their order. */
  lemma {:induction false} CountedDiffsFacts(ds: seq<DiffRecord>, sheetName: string)
    ensures forall x :: x in CountedDiffs(ds, sheetName) <==> x in ds && Counted(x, sheetName)
  {
    if ds != [] {
      CountedDiffsFacts(ds[1..], sheetName);
      assert forall x :: x in ds <==> x == ds[0] || x in ds[1..];
    }
  }

  /** The rows the records touch, as the `rowsWithDiff` set. */
  function DiffRows(ds: seq<DiffRecord>): set<int> {
    if ds == [] then {} else DiffRows(ds[..|ds| - 1]) + {ds[|ds| - 1].row}
  }

  /** The columns the records touch, as the `colsWithDiff` set. */
  function DiffCols(ds: seq<DiffRecord>): set<int> {
    if ds == [] then {} else DiffCols(ds[..|ds| - 1]) + {ds[|ds| - 1].col}
  }

  lemma {:induction false} DiffRowsColsFacts(ds: seq<DiffRecord>)
    ensures forall r :: r in DiffRows(ds) <==> exists i :: 0 <= i < |ds| && ds[i].row == r
    ensures forall c :: c in DiffCols(ds) <==> exists i :: 0 <= i < |ds| && ds[i].col == c
  {
    if ds != [] {
      var init := ds[..|ds| - 1];
      DiffRowsColsFacts(init);
      assert forall i :: 0 <= i < |init| ==> init[i] == ds[i];
    }
  }

  /** The identical rows: every row of the bounding box no counted record
      touches; none when the sheet is missing from either file. */
  function IdenticalRows(fileA: ExcelData, fileB: ExcelData, diffs: seq<DiffRecord>, sheetName: string): set<int> {
    var sheetA, sheetB := FindSheet(fileA.sheets, sheetName), FindSheet(fileB.sheets, sheetName);
    if sheetA.None? || sheetB.None? then {}
    else
      var touched := DiffRows(CountedDiffs(diffs, sheetName));
      set row | 0 <= row < MaxRow(sheetA.value, sheetB.value) && row !in touched
  }

  /** The identical columns, likewise. */
  function IdenticalCols(fileA: ExcelData, fileB: ExcelData, diffs: seq<DiffRecord>, sheetName: string): set<int> {
    var sheetA, sheetB := FindSheet(fileA.sheets, sheetName), FindSheet(fileB.sheets, sheetName);
    if sheetA.None? || sheetB.None? then {}
    else
      var touched := DiffCols(CountedDiffs(diffs, sheetName));
      set col | 0 <= col < MaxCol(sheetA.value, sheetB.value) && col !in touched
  }

  /** `analyzeIdenticalRowsAndCols` */
  method AnalyzeIdenticalRowsAndCols(fileA: ExcelData, fileB: ExcelData, diffs: seq<DiffRecord>, sheetName: string)
    returns (identicalRows: set<int>, identicalCols: set<int>)
    ensures identicalRows == IdenticalRows(fileA, fileB, diffs, sheetName)
    ensures identicalCols == IdenticalCols(fileA, fileB, diffs, sheetName)
  {
    identicalRows := {};
    identicalCols := {};
    var sheetA := FindSheet(fileA.sheets, sheetName);
    var sheetB := FindSheet(fileB.sheets, sheetName);
    if sheetA.None? || sheetB.None? {
      return;
    }
    var sheetDiffs := CountedDiffs(diffs, sheetName);
    var rowsWithDiff, colsWithDiff := CollectTouched(sheetDiffs);
    identicalRows := Untouched(MaxRow(sheetA.value, sheetB.value), rowsWithDiff);
    identicalCols := Untouched(MaxCol(sheetA.value, sheetB.value), colsWithDiff);
  }

  /** The `forEach` that fills `rowsWithDiff` and `colsWithDiff`. */
  method CollectTouched(sheetDiffs: seq<DiffRecord>) returns (rowsWithDiff: set<int>, colsWithDiff: set<int>)
    ensures rowsWithDiff == DiffRows(sheetDiffs) && colsWithDiff == DiffCols(sheetDiffs)
  {
    rowsWithDiff, colsWithDiff := {}, {};
    for i := 0 to |sheetDiffs|
      invariant rowsWithDiff == DiffRows(sheetDiffs[..i])
      invariant colsWithDiff == DiffCols(sheetDiffs[..i])
    {
      assert sheetDiffs[..i + 1][..i] == sheetDiffs[..i];
      rowsWithDiff := rowsWithDiff + {sheetDiffs[i].row};
      colsWithDiff := colsWithDiff + {sheetDiffs[i].col};
    }
    assert sheetDiffs[..|sheetDiffs|] == sheetDiffs;
  }

  /** The loop over `0 .. bound - 1` that keeps the indices no record touches. */
  method Untouched(bound: nat, touched: set<int>) returns (untouched: set<int>)
    ensures untouched == set k | 0 <= k < bound && k !in touched
  {
    untouched := {};
    for k := 0 to bound
      invariant untouched == set j | 0 <= j < k && j !in touched
    {
      if k !in touched {
        untouched := untouched + {k};
      }
    }
  }

  /** A row is identical iff the sheet is in both files, the row lies in the
      bounding box and no cell record of the sheet sits on it. */
  lemma IdenticalRowsIff(fileA: ExcelData, fileB: ExcelData, diffs: seq<DiffRecord>, sheetName: string, row: int)
    ensures row in IdenticalRows(fileA, fileB, diffs, sheetName) <==>
      && FindSheet(fileA.sheets, sheetName).Some? && FindSheet(fileB.sheets, sheetName).Some?
      && 0 <= row < MaxRow(FindSheet(fileA.sheets, sheetName).value, FindSheet(fileB.sheets, sheetName).value)
      && forall i :: 0 <= i < |diffs| && Counted(diffs[i], sheetName) ==> diffs[i].row != row
  {
    var cd := CountedDiffs(diffs, sheetName);
    CountedDiffsFacts(diffs, sheetName);
    DiffRowsColsFacts(cd);
    if row in DiffRows(cd) {
      var k :| 0 <= k < |cd| && cd[k].row == row;
      assert cd[k] in cd;
    }
    if exists i :: 0 <= i < |diffs| && Counted(diffs[i], sheetName) && diffs[i].row == row {
      var i :| 0 <= i < |diffs| && Counted(diffs[i], sheetName) && diffs[i].row == row;
      assert diffs[i] in cd;
      var k :| 0 <= k < |cd| && cd[k] == diffs[i];
    }
  }

  /** A column is identical iff the sheet is in both files, the column lies
      in the bounding box and no cell record of the sheet sits in it. */
  lemma IdenticalColsIff(fileA: ExcelData, fileB: ExcelData, diffs: seq<DiffRecord>, sheetName: string, col: int)
    ensures col in IdenticalCols(fileA, fileB, diffs, sheetName) <==>
      && FindSheet(fileA.sheets, sheetName).Some? && FindSheet(fileB.sheets, sheetName).Some?
      && 0 <= col < MaxCol(FindSheet(fileA.sheets, sheetName).value, FindSheet(fileB.sheets, sheetName).value)
      && forall i :: 0 <= i < |diffs| && Counted(diffs[i], sheetName) ==> diffs[i].col != col
  {
    var cd := CountedDiffs(diffs, sheetName);
    CountedDiffsFacts(diffs, sheetName);
    DiffRowsColsFacts(cd);
    if col in DiffCols(cd) {
      var k :| 0 <= k < |cd| && cd[k].col == col;
      assert cd[k] in cd;
    }
    if exists i :: 0 <= i < |diffs| && Counted(diffs[i], sheetName) && diffs[i].col == col {
      var i :| 0 <= i < |diffs| && Counted(diffs[i], sheetName) && diffs[i].col == col;
      assert diffs[i] in cd;
      var k :| 0 <= k < |cd| && cd[k] == diffs[i];
    }
  }

  /** Only positions matter: two lists with the same positions give the
      same view, so resolving a record or applying a default changes
      neither set. */
  lemma IdenticalViewKeepsUnderUpdates(fileA: ExcelData, fileB: ExcelData, ds: seq<DiffRecord>, es: seq<DiffRecord>, sheetName: string)
    requires SamePositions(ds, es)
    ensures IdenticalRows(fileA, fileB, ds, sheetName) == IdenticalRows(fileA, fileB, es, sheetName)
    ensures IdenticalCols(fileA, fileB, ds, sheetName) == IdenticalCols(fileA, fileB, es, sheetName)
  {
    forall row ensures row in IdenticalRows(fileA, fileB, ds, sheetName) <==> row in IdenticalRows(fileA, fileB, es, sheetName) {
      IdenticalRowsIff(fileA, fileB, ds, sheetName, row);
      IdenticalRowsIff(fileA, fileB, es, sheetName, row);
    }
    forall col ensures col in IdenticalCols(fileA, fileB, ds, sheetName) <==> col in IdenticalCols(fileA, fileB, es, sheetName) {
      IdenticalColsIff(fileA, fileB, ds, sheetName, col);
      IdenticalColsIff(fileA, fileB, es, sheetName, col);
    }
  }

  /** A record that is not a cell record of the sheet (a structure or
      sheet-level record, or another sheet's record) changes neither set. */
  lemma UncountedRecordIgnored(fileA: ExcelData, fileB: ExcelData, diffs: seq<DiffRecord>, d: DiffRecord, sheetName: string)
    requires !Counted(d, sheetName)
    ensures IdenticalRows(fileA, fileB, diffs + [d], sheetName) == IdenticalRows(fileA, fileB, diffs, sheetName)
    ensures IdenticalCols(fileA, fileB, diffs + [d], sheetName) == IdenticalCols(fileA, fileB, diffs, sheetName)
  {
    var ext := diffs + [d];
    forall row ensures row in IdenticalRows(fileA, fileB, ext, sheetName) <==> row in IdenticalRows(fileA, fileB, diffs, sheetName) {
      IdenticalRowsIff(fileA, fileB, ext, sheetName, row);
      IdenticalRowsIff(fileA, fileB, diffs, sheetName, row);
      assert forall i :: 0 <= i < |diffs| ==> ext[i] == diffs[i];
    }
    forall col ensures col in IdenticalCols(fileA, fileB, ext, sheetName) <==> col in IdenticalCols(fileA, fileB, diffs, sheetName) {
      IdenticalColsIff(fileA, fileB, ext, sheetName, col);
      IdenticalColsIff(fileA, fileB, diffs, sheetName, col);
      assert forall i :: 0 <= i < |diffs| ==> ext[i] == diffs[i];
    }
  }
}
