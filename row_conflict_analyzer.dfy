/// The conflict-rows view of one sheet: the rows below `maxRow` that hold at
/// least one cell record of that sheet.
module RowConflictAnalyzer {
  import opened Types
  import opened ComparisonEngine
  import opened ComparisonSession
  import opened DiffFilter

  /** The records of `ds` on row `row`, in order: one group of `diffsByRow`. */
  function RowGroup(ds: seq<DiffRecord>, row: int): seq<DiffRecord> {
    if ds == [] then []
    else RowGroup(ds[..|ds| - 1], row) + (if ds[|ds| - 1].row == row then [ds[|ds| - 1]] else [])
  }

  /** The `diffsByRow` map after grouping `ds`: a key per touched row, holding
      that row's records. */
  ghost predicate GroupedBy(diffsByRow: map<int, seq<DiffRecord>>, ds: seq<DiffRecord>) {
    && diffsByRow.Keys == DiffRows(ds)
    && forall row :: row in diffsByRow ==> diffsByRow[row] == RowGroup(ds, row)
  }

  /** A touched row's group is never empty. */
  lemma {:induction false} RowGroupNonEmpty(ds: seq<DiffRecord>, row: int)
    requires row in DiffRows(ds)
    ensures RowGroup(ds, row) != []
  {
    var init := ds[..|ds| - 1];
    if ds[|ds| - 1].row != row {
      RowGroupNonEmpty(init, row);
    }
  }

  /** The conflict rows: every row in [0, maxRow) that some cell record of
      the sheet sits on. */
  function ConflictRows(diffs: seq<DiffRecord>, sheetName: string, maxRow: int): set<int> {
    var touched := DiffRows(CountedDiffs(diffs, sheetName));
    set row | 0 <= row < maxRow && row in touched
  }

  /** `getRowsWithConflicts` */
  method GetRowsWithConflicts(diffs: seq<DiffRecord>, sheetName: string, maxRow: int)
    returns (rowsWithConflicts: set<int>)
    ensures rowsWithConflicts == ConflictRows(diffs, sheetName, maxRow)
  {
    rowsWithConflicts := {};
    var sheetDiffs := CountedDiffs(diffs, sheetName);
    var diffsByRow := GroupByRow(sheetDiffs);
    var row := 0;
    while row < maxRow
      invariant 0 <= row && (row <= maxRow || row == 0)
      invariant rowsWithConflicts == set r | 0 <= r < row && r in DiffRows(sheetDiffs)
    {
      var rowDiffs := if row in diffsByRow then diffsByRow[row] else [];
      if row in diffsByRow {
        RowGroupNonEmpty(sheetDiffs, row);
      }
      if |rowDiffs| > 0 {
        rowsWithConflicts := rowsWithConflicts + {row};
      }
      row := row + 1;
    }
  }

  /** The `forEach` that fills `diffsByRow`. */
  method GroupByRow(sheetDiffs: seq<DiffRecord>) returns (diffsByRow: map<int, seq<DiffRecord>>)
    ensures GroupedBy(diffsByRow, sheetDiffs)
  {
    diffsByRow := map[];
    for i := 0 to |sheetDiffs|
      invariant GroupedBy(diffsByRow, sheetDiffs[..i])
    {
      var diff := sheetDiffs[i];
      ghost var before := diffsByRow;
      if diff.row !in diffsByRow {
        diffsByRow := diffsByRow[diff.row := []];
      }
      diffsByRow := diffsByRow[diff.row := diffsByRow[diff.row] + [diff]];
      GroupStep(before, diffsByRow, sheetDiffs[..i], diff);
      assert sheetDiffs[..i + 1] == sheetDiffs[..i] + [diff];
    }
    assert sheetDiffs[..|sheetDiffs|] == sheetDiffs;
  }

  /** Pushing one record onto its row's group keeps the map a grouping. */
  lemma GroupStep(before: map<int, seq<DiffRecord>>, after: map<int, seq<DiffRecord>>, ds: seq<DiffRecord>, x: DiffRecord)
    requires GroupedBy(before, ds)
    requires after == before[x.row := (if x.row in before then before[x.row] else []) + [x]]
    ensures GroupedBy(after, ds + [x])
  {
    var ext := ds + [x];
    assert ext[..|ext| - 1] == ds;
    forall row | row in after ensures after[row] == RowGroup(ext, row) {
      if row != x.row {
        assert after[row] == before[row];
      } else if x.row !in before {
        assert x.row !in DiffRows(ds);
        RowGroupAbsent(ds, x.row);
      }
    }
  }

  /** An untouched row has an empty group. */
  lemma {:induction false} RowGroupAbsent(ds: seq<DiffRecord>, row: int)
    requires row !in DiffRows(ds)
    ensures RowGroup(ds, row) == []
  {
    if ds != [] {
      RowGroupAbsent(ds[..|ds| - 1], row);
    }
  }

  /** A row conflicts iff it is in [0, maxRow) and at least one cell record
      of the sheet sits on it: a single differing cell is enough, and rows
      at or beyond `maxRow` are never reported. */
  lemma ConflictRowsIff(diffs: seq<DiffRecord>, sheetName: string, maxRow: int, row: int)
    ensures row in ConflictRows(diffs, sheetName, maxRow) <==>
      && 0 <= row < maxRow
      && exists i :: 0 <= i < |diffs| && Counted(diffs[i], sheetName) && diffs[i].row == row
  {
    var cd := CountedDiffs(diffs, sheetName);
    CountedDiffsFacts(diffs, sheetName);
    DiffRowsColsFacts(cd);
    if row in DiffRows(cd) {
      var k :| 0 <= k < |cd| && cd[k].row == row;
      assert cd[k] in cd;
    }
    if exists i :: 0 <= i < |diffs| && Counted(diffs[i], sheetName) && diffs[i].row == row {
      var i :| 0 <= i < |diffs| && Counted(diffs[i], sheetName) && diffs[i].row == row;
      assert diffs[i] in cd;
      var k :| 0 <= k < |cd| && cd[k] == diffs[i];
    }
  }

  /** For a sheet both files have, with `maxRow` the larger row count, the
      conflict rows and the identical rows split [0, maxRow) between them. */
  lemma ConflictAndIdenticalPartition(fileA: ExcelData, fileB: ExcelData, diffs: seq<DiffRecord>, sheetName: string)
    requires FindSheet(fileA.sheets, sheetName).Some? && FindSheet(fileB.sheets, sheetName).Some?
    ensures var maxRow := MaxRow(FindSheet(fileA.sheets, sheetName).value, FindSheet(fileB.sheets, sheetName).value);
      var conflicts, identical := ConflictRows(diffs, sheetName, maxRow), IdenticalRows(fileA, fileB, diffs, sheetName);
      && conflicts !! identical
      && forall row :: row in conflicts + identical <==> 0 <= row < maxRow
  {
  }

  /** Only positions matter: resolving a record or applying a default does
      not change the conflict rows. */
  lemma ConflictRowsKeepUnderUpdates(ds: seq<DiffRecord>, es: seq<DiffRecord>, sheetName: string, maxRow: int)
    requires SamePositions(ds, es)
    ensures ConflictRows(ds, sheetName, maxRow) == ConflictRows(es, sheetName, maxRow)
  {
    forall row ensures row in ConflictRows(ds, sheetName, maxRow) <==> row in ConflictRows(es, sheetName, maxRow) {
      ConflictRowsIff(ds, sheetName, maxRow, row);
      ConflictRowsIff(es, sheetName, maxRow, row);
    }
  }
}
