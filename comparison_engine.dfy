/// The diff detector: walks the union of sheet names of two workbooks, emits a
/// sheet-level record for every sheet present in one file only, a structure
/// record for every shared sheet whose dimensions differ, and one record per
/// cell whose normalised values differ, in row-major order; then the counters
/// shown to the user.
module ComparisonEngine {
  import opened JsValues
  import opened Types

  // ---------------------------------------------------------------------------
  // Value normalisation
  // ---------------------------------------------------------------------------

  /** The comparison key of a cell value: `null`/`undefined` give "", a number
      its decimal rendering, anything else its trimmed string form. */
  function NormalizeValue(v: CellValue): string {
    match v
    case Null => ""
    case Undef => ""
    case Num(n) => NumberToString(n)
    case Str(s) => Trim(s)
  }

  /** The key is empty exactly for nullish values and blank strings, and never
      starts or ends with whitespace. */
  lemma NormalizeValueFacts(v: CellValue)
    ensures var r := NormalizeValue(v);
      && (r == "" <==> IsNullish(v) || (v.Str? && IsBlank(v.s)))
      && (r != "" ==> !IsJsWhitespace(r[0]) && !IsJsWhitespace(r[|r| - 1]))
  {
    match v
    case Num(n) =>
      NumberToStringSign(n);
      NatToStringFacts(if n < 0 then -n else n);
      assert IsDigit(NatToString(if n < 0 then -n else n)[0]);
    case Str(s) =>
      TrimSpec(s);
    case _ =>
  }

  /** A number and a string holding its rendering, padded with any whitespace,
      compare equal: number 1 against string " 1 " yields no difference. */
  lemma NumberEqualsPaddedRendering(n: int, pre: string, post: string)
    requires IsBlank(pre) && IsBlank(post)
    ensures NormalizeValue(Num(n)) == NormalizeValue(Str(pre + NumberToString(n) + post))
  {
    var s := NumberToString(n);
    NormalizeValueFacts(Num(n));
    assert NormalizeValue(Num(n)) == s && s != "";
    TrimPadded(pre, s, post);
  }

  /** Two numbers compare equal exactly when they are the same number. */
  lemma NumbersCompareExactly(a: int, b: int)
    ensures NormalizeValue(Num(a)) == NormalizeValue(Num(b)) <==> a == b
  {
    if NormalizeValue(Num(a)) == NormalizeValue(Num(b)) {
      NumberToStringInjective(a, b);
    }
  }

  // ---------------------------------------------------------------------------
  // The records
  // ---------------------------------------------------------------------------

  /** The id given to the `n`-th record of a run. */
  function DiffId(n: nat): string {
    "diff-" + NumberToString(n)
  }

  lemma DiffIdInjective(i: nat, j: nat)
    requires DiffId(i) == DiffId(j)
    ensures i == j
  {
    var si, sj := DiffId(i), DiffId(j);
    assert si[5..] == NumberToString(i) && sj[5..] == NumberToString(j);
    NumberToStringInjective(i, j);
  }

  /** `${count}行 × ${count}列`, the dimension text of a structure record. */
  function Dimensions(s: Sheet): CellValue {
    Str(NumberToString(s.rowCount) + "\U{884C} \U{00D7} " + NumberToString(s.colCount) + "\U{5217}")
  }

  /** The record of a sheet that exists in file B only (id assigned later). */
  function AddedSheetDiff(name: string): DiffRecord {
    DiffRecord("", Added, name, -1, -1, Null,
      Str("\U{5DE5}\U{4F5C}\U{8868} \"" + name + "\" \U{5728}\U{6587}\U{4EF6}B\U{4E2D}\U{5B58}\U{5728}"),
      StructureCategory, None)
  }

  /** The record of a sheet that exists in file A only (id assigned later). */
  function DeletedSheetDiff(name: string): DiffRecord {
    DiffRecord("", Deleted, name, -1, -1,
      Str("\U{5DE5}\U{4F5C}\U{8868} \"" + name + "\" \U{5728}\U{6587}\U{4EF6}A\U{4E2D}\U{5B58}\U{5728}"),
      Null, StructureCategory, None)
  }

  function MaxRow(sa: Sheet, sb: Sheet): nat {
    if sa.rowCount < sb.rowCount then sb.rowCount else sa.rowCount
  }

  function MaxCol(sa: Sheet, sb: Sheet): nat {
    if sa.colCount < sb.colCount then sb.colCount else sa.colCount
  }

  /** The structure record of a shared sheet, present iff the dimensions differ. */
  function StructureDiffs(name: string, sa: Sheet, sb: Sheet): seq<DiffRecord> {
    if sa.rowCount != sb.rowCount || sa.colCount != sb.colCount then
      [DiffRecord("", Structure, name, -1, -1, Dimensions(sa), Dimensions(sb), StructureCategory, None)]
    else []
  }

  /** `!a && b ? 'added' : a && !b ? 'deleted' : 'modified'` on raw values. */
  function ClassifyDiff(va: CellValue, vb: CellValue): DiffType {
    if !Truthy(va) && Truthy(vb) then Added
    else if Truthy(va) && !Truthy(vb) then Deleted
    else Modified
  }

  function CategoryOf(va: CellValue, vb: CellValue): Category {
    if va.Num? || vb.Num? then ValueCategory else TextCategory
  }

  /** The record for one cell position of a shared sheet (id assigned later):
      present exactly when the normalised values differ. */
  function CellDiff(name: string, sa: Sheet, sb: Sheet, row: nat, col: nat): (r: Option<DiffRecord>)
    ensures r.Some? ==> r.value.sheetName == name && r.value.row == row && r.value.col == col
    ensures r.Some? ==> r.value.diffType != Structure && r.value.id == "" && r.value.resolution.None?
  {
    var va := ValueOr(CellAt(sa, row, col));
    var vb := ValueOr(CellAt(sb, row, col));
    if NormalizeValue(va) != NormalizeValue(vb) then
      Some(DiffRecord("", ClassifyDiff(va, vb), name, row, col, va, vb, CategoryOf(va, vb), None))
    else None
  }

  /** The cell comparison of a shared sheet as a function of the position. */
  function CellDiffs(name: string, sa: Sheet, sb: Sheet): (nat, nat) -> Option<DiffRecord> {
    (row: nat, col: nat) => CellDiff(name, sa, sb, row, col)
  }

  /** A per-position record function that stamps each record with its own
      position. */
  ghost predicate Positioned(cell: (nat, nat) -> Option<DiffRecord>) {
    forall row, col :: cell(row, col).Some? ==> cell(row, col).value.row == row && cell(row, col).value.col == col
  }

  /** The records of row `row`, columns 0 to `cols` - 1. */
  function RowDiffs(cell: (nat, nat) -> Option<DiffRecord>, row: nat, cols: nat): seq<DiffRecord>
    decreases cols
  {
    if cols == 0 then []
    else
      var d := cell(row, cols - 1);
      RowDiffs(cell, row, cols - 1) + (if d.Some? then [d.value] else [])
  }

  /** The records of rows 0 to `rows` - 1, each over `cols` columns, row-major. */
  function GridDiffs(cell: (nat, nat) -> Option<DiffRecord>, rows: nat, cols: nat): seq<DiffRecord>
    decreases rows
  {
    if rows == 0 then []
    else GridDiffs(cell, rows - 1, cols) + RowDiffs(cell, rows - 1, cols)
  }

  /** The cell records of a shared sheet: its bounding box, row-major. */
  function SheetGrid(name: string, sa: Sheet, sb: Sheet): seq<DiffRecord> {
    GridDiffs(CellDiffs(name, sa, sb), MaxRow(sa, sb), MaxCol(sa, sb))
  }

  /** Everything one sheet name contributes. */
  function SheetDiffs(name: string, a: ExcelData, b: ExcelData): (r: seq<DiffRecord>)
    ensures forall i :: 0 <= i < |r| ==> r[i].sheetName == name && r[i].id == "" && r[i].resolution.None?
  {
    var sheetA := FindSheet(a.sheets, name);
    var sheetB := FindSheet(b.sheets, name);
    if sheetA.None? && sheetB.Some? then [AddedSheetDiff(name)]
    else if sheetA.Some? && sheetB.None? then [DeletedSheetDiff(name)]
    else if sheetA.Some? && sheetB.Some? then
      var sa, sb := sheetA.value, sheetB.value;
      SheetGridNames(name, sa, sb);
      StructureDiffs(name, sa, sb) + SheetGrid(name, sa, sb)
    else []
  }

  predicate Distinct(names: seq<string>) {
    forall i, j :: 0 <= i < j < |names| ==> names[i] != names[j]
  }

  /** Adding sheet names to an insertion-ordered set. */
  function AddNames(names: seq<string>, sheets: seq<Sheet>): seq<string>
    decreases |sheets|
  {
    if sheets == [] then names
    else
      var init := AddNames(names, sheets[..|sheets| - 1]);
      var n := sheets[|sheets| - 1].name;
      if n in init then init else init + [n]
  }

  /** Where the name `x` first appears among `sheets`; `|sheets|` when it
      does not appear at all. */
  function FirstNamed(sheets: seq<Sheet>, x: string): (r: nat)
    ensures r <= |sheets|
    ensures r < |sheets| ==> sheets[r].name == x
    ensures forall k :: 0 <= k < r && k < |sheets| ==> sheets[k].name != x
    decreases |sheets|
  {
    if sheets == [] then 0
    else
      var init := sheets[..|sheets| - 1];
      var f := FirstNamed(init, x);
      assert forall k :: 0 <= k < |init| ==> init[k] == sheets[k];
      if f < |init| then f
      else if sheets[|sheets| - 1].name == x then |init|
      else |sheets|
  }

  /** The union of the sheet names, A's in A's order, then B's new ones. */
  function UnionNames(a: ExcelData, b: ExcelData): seq<string> {
    AddNames(AddNames([], a.sheets), b.sheets)
  }

  /** The records `f` gives the names `names`, one name after the other. */
  function Concat(names: seq<string>, f: string -> seq<DiffRecord>): seq<DiffRecord>
    decreases |names|
  {
    if names == [] then []
    else Concat(names[..|names| - 1], f) + f(names[|names| - 1])
  }

  /** The per-sheet comparison as a function of the sheet name. */
  function SheetsDiffs(a: ExcelData, b: ExcelData): string -> seq<DiffRecord> {
    name => SheetDiffs(name, a, b)
  }

  /** The records of the given sheet names, one sheet after the other. */
  function DiffsOver(names: seq<string>, a: ExcelData, b: ExcelData): seq<DiffRecord> {
    Concat(names, SheetsDiffs(a, b))
  }

  /** Ids in emission order: the `i`-th record is "diff-i". */
  function Numbered(rs: seq<DiffRecord>): seq<DiffRecord> {
    seq(|rs|, i requires 0 <= i < |rs| => rs[i].(id := DiffId(i)))
  }

  /** What a comparison of A against B yields. */
  function Differences(a: ExcelData, b: ExcelData): seq<DiffRecord> {
    Numbered(DiffsOver(UnionNames(a, b), a, b))
  }

  // ---------------------------------------------------------------------------
  // compareExcelFiles
  // ---------------------------------------------------------------------------

  /** The `allSheetNames` set of the comparison, filled sheet by sheet. */
  method CollectSheetNames(a: ExcelData, b: ExcelData) returns (names: seq<string>)
    ensures names == UnionNames(a, b)
  {
    names := [];
    for i := 0 to |a.sheets|
      invariant names == AddNames([], a.sheets[..i])
    {
      assert a.sheets[..i + 1][..i] == a.sheets[..i];
      if a.sheets[i].name !in names {
        names := names + [a.sheets[i].name];
      }
    }
    assert a.sheets[..|a.sheets|] == a.sheets;
    for j := 0 to |b.sheets|
      invariant names == AddNames(AddNames([], a.sheets), b.sheets[..j])
    {
      assert b.sheets[..j + 1][..j] == b.sheets[..j];
      if b.sheets[j].name !in names {
        names := names + [b.sheets[j].name];
      }
    }
    assert b.sheets[..|b.sheets|] == b.sheets;
  }

  lemma NumberedSnoc(rs: seq<DiffRecord>, x: DiffRecord)
    ensures Numbered(rs + [x]) == Numbered(rs) + [x.(id := DiffId(|rs|))]
  {
  }

  /** The body of the per-sheet callback: appends what sheet `name`
      contributes to the records so far, numbering on from `diffId`. */
  method CompareSheet(a: ExcelData, b: ExcelData, name: string,
                      diffs: seq<DiffRecord>, diffId: nat, ghost raw: seq<DiffRecord>)
    returns (diffs': seq<DiffRecord>, diffId': nat)
    requires diffs == Numbered(raw) && diffId == |diffs|
    ensures diffs' == Numbered(raw + SheetDiffs(name, a, b)) && diffId' == |diffs'|
  {
    var sheetA := FindSheet(a.sheets, name);
    var sheetB := FindSheet(b.sheets, name);
    if sheetA.None? && sheetB.Some? {
      NumberedSnoc(raw, AddedSheetDiff(name));
      diffs' := diffs + [AddedSheetDiff(name).(id := DiffId(diffId))];
      diffId' := diffId + 1;
    } else if sheetA.Some? && sheetB.None? {
      NumberedSnoc(raw, DeletedSheetDiff(name));
      diffs' := diffs + [DeletedSheetDiff(name).(id := DiffId(diffId))];
      diffId' := diffId + 1;
    } else if sheetA.Some? && sheetB.Some? {
      var sa, sb := sheetA.value, sheetB.value;
      assert raw + SheetDiffs(name, a, b) == raw + StructureDiffs(name, sa, sb) + SheetGrid(name, sa, sb);
      diffs', diffId' := diffs, diffId;
      if sa.rowCount != sb.rowCount || sa.colCount != sb.colCount {
        var d := DiffRecord("", Structure, name, -1, -1, Dimensions(sa), Dimensions(sb), StructureCategory, None);
        NumberedSnoc(raw, d);
        diffs' := diffs' + [d.(id := DiffId(diffId'))];
        diffId' := diffId' + 1;
      }
      diffs', diffId' := CompareGrid(name, sa, sb, diffs', diffId', raw + StructureDiffs(name, sa, sb));
    } else {
      diffs', diffId' := diffs, diffId;
    }
  }

  /** The nested loops over the bounding box of a shared sheet. */
  method CompareGrid(name: string, sa: Sheet, sb: Sheet,
                     diffs: seq<DiffRecord>, diffId: nat, ghost raw: seq<DiffRecord>)
    returns (diffs': seq<DiffRecord>, diffId': nat)
    requires diffs == Numbered(raw) && diffId == |diffs|
    ensures diffs' == Numbered(raw + SheetGrid(name, sa, sb)) && diffId' == |diffs'|
  {
    diffs', diffId' := diffs, diffId;
    var maxRow := MaxRow(sa, sb);
    ghost var cell := CellDiffs(name, sa, sb);
    for row := 0 to maxRow
      invariant diffs' == Numbered(raw + GridDiffs(cell, row, MaxCol(sa, sb))) && diffId' == |diffs'|
    {
      diffs', diffId' := CompareRow(name, sa, sb, row, diffs', diffId', raw + GridDiffs(cell, row, MaxCol(sa, sb)));
      GridSnoc(raw, cell, row, MaxCol(sa, sb));
    }
  }

  lemma GridSnoc(raw: seq<DiffRecord>, cell: (nat, nat) -> Option<DiffRecord>, row: nat, cols: nat)
    ensures raw + GridDiffs(cell, row, cols) + RowDiffs(cell, row, cols) == raw + GridDiffs(cell, row + 1, cols)
  {
  }

  /** One row of the nested cell loop of a shared sheet. */
  method CompareRow(name: string, sa: Sheet, sb: Sheet, row: nat,
                    diffs: seq<DiffRecord>, diffId: nat, ghost raw: seq<DiffRecord>)
    returns (diffs': seq<DiffRecord>, diffId': nat)
    requires diffs == Numbered(raw) && diffId == |diffs|
    ensures diffs' == Numbered(raw + RowDiffs(CellDiffs(name, sa, sb), row, MaxCol(sa, sb))) && diffId' == |diffs'|
  {
    diffs', diffId' := diffs, diffId;
    var maxCol := MaxCol(sa, sb);
    for col := 0 to maxCol
      invariant diffs' == Numbered(raw + RowDiffs(CellDiffs(name, sa, sb), row, col)) && diffId' == |diffs'|
    {
      diffs', diffId' := CompareCell(name, sa, sb, row, col, diffs', diffId', raw);
    }
  }

  /** The body of the inner loop: compares one position and appends its
      record, numbered `diffId`, when the normalised values differ. */
  method CompareCell(name: string, sa: Sheet, sb: Sheet, row: nat, col: nat,
                     diffs: seq<DiffRecord>, diffId: nat, ghost raw: seq<DiffRecord>)
    returns (diffs': seq<DiffRecord>, diffId': nat)
    requires diffs == Numbered(raw + RowDiffs(CellDiffs(name, sa, sb), row, col)) && diffId == |diffs|
    ensures diffs' == Numbered(raw + RowDiffs(CellDiffs(name, sa, sb), row, col + 1)) && diffId' == |diffs'|
  {
    RowStep(CellDiffs(name, sa, sb), row, col, raw);
    assert CellDiffs(name, sa, sb)(row, col) == CellDiff(name, sa, sb, row, col);
    var valueA := ValueOr(CellAt(sa, row, col));
    var valueB := ValueOr(CellAt(sb, row, col));
    var normalizedA := NormalizeValue(valueA);
    var normalizedB := NormalizeValue(valueB);
    diffs', diffId' := diffs, diffId;
    if normalizedA != normalizedB {
      var diffType :=
        if !Truthy(valueA) && Truthy(valueB) then Added
        else if Truthy(valueA) && !Truthy(valueB) then Deleted
        else Modified;
      var category := if valueA.Num? || valueB.Num? then ValueCategory else TextCategory;
      diffs' := diffs' + [DiffRecord(DiffId(diffId'), diffType, name, row, col, valueA, valueB, category, None)];
      diffId' := diffId' + 1;
    }
  }

  /** One more column of a row appends that position's record, if any,
      numbered after the records before it. */
  lemma {:induction false} RowStep(cell: (nat, nat) -> Option<DiffRecord>, row: nat, col: nat, raw: seq<DiffRecord>)
    ensures var c, prefix := cell(row, col), raw + RowDiffs(cell, row, col);
      Numbered(raw + RowDiffs(cell, row, col + 1))
        == Numbered(prefix) + (if c.Some? then [c.value.(id := DiffId(|prefix|))] else [])
  {
    var c, prefix := cell(row, col), raw + RowDiffs(cell, row, col);
    if c.Some? {
      assert raw + RowDiffs(cell, row, col + 1) == prefix + [c.value];
      NumberedSnoc(prefix, c.value);
    } else {
      assert raw + RowDiffs(cell, row, col + 1) == prefix;
    }
  }

  /** `compareExcelFiles`: yields exactly `Differences(a, b)`. */
  method CompareExcelFiles(a: ExcelData, b: ExcelData) returns (diffs: seq<DiffRecord>)
    ensures diffs == Differences(a, b)
  {
    diffs := [];
    var diffId: nat := 0;
    var allSheetNames := CollectSheetNames(a, b);
    for k := 0 to |allSheetNames|
      invariant diffs == Numbered(DiffsOver(allSheetNames[..k], a, b)) && diffId == |diffs|
    {
      assert allSheetNames[..k + 1][..k] == allSheetNames[..k];
      diffs, diffId := CompareSheet(a, b, allSheetNames[k], diffs, diffId, DiffsOver(allSheetNames[..k], a, b));
    }
    assert allSheetNames[..|allSheetNames|] == allSheetNames;
  }

  // ---------------------------------------------------------------------------
  // Facts about the record list
  // ---------------------------------------------------------------------------

  /** Row-major order of two cell positions. */
  predicate Before(x: DiffRecord, y: DiffRecord) {
    x.row < y.row || (x.row == y.row && x.col < y.col)
  }

  lemma {:induction false} RowFacts(cell: (nat, nat) -> Option<DiffRecord>, row: nat, cols: nat)
    requires Positioned(cell)
    ensures forall i :: 0 <= i < |RowDiffs(cell, row, cols)| ==>
      RowDiffs(cell, row, cols)[i].row == row && 0 <= RowDiffs(cell, row, cols)[i].col < cols
    ensures forall i :: 0 <= i < |RowDiffs(cell, row, cols)| ==>
      cell(row, RowDiffs(cell, row, cols)[i].col) == Some(RowDiffs(cell, row, cols)[i])
    ensures forall i, j :: 0 <= i < j < |RowDiffs(cell, row, cols)| ==>
      RowDiffs(cell, row, cols)[i].col < RowDiffs(cell, row, cols)[j].col
    ensures forall c: nat :: c < cols && cell(row, c).Some? ==> cell(row, c).value in RowDiffs(cell, row, cols)
    decreases cols
  {
    if cols > 0 {
      var init := RowDiffs(cell, row, cols - 1);
      var d := cell(row, cols - 1);
      RowFacts(cell, row, cols - 1);
      if d.Some? {
        var r := init + [d.value];
        assert RowDiffs(cell, row, cols) == r;
        assert d.value.col == cols - 1;
        forall i, j | 0 <= i < j < |r|
          ensures r[i].col < r[j].col
        {
          assert r[i] == init[i];
        }
        forall i | 0 <= i < |r|
          ensures r[i].row == row && 0 <= r[i].col < cols && cell(row, r[i].col) == Some(r[i])
        {
        }
      } else {
        assert RowDiffs(cell, row, cols) == init;
      }
    }
  }

  /** The records of a grid are exactly the present records of the positions
      inside it, each taken from its own position, in strict row-major order. */
  lemma {:induction false} GridFacts(cell: (nat, nat) -> Option<DiffRecord>, rows: nat, cols: nat)
    requires Positioned(cell)
    ensures forall i :: 0 <= i < |GridDiffs(cell, rows, cols)| ==>
      0 <= GridDiffs(cell, rows, cols)[i].row < rows && 0 <= GridDiffs(cell, rows, cols)[i].col < cols
    ensures forall i :: 0 <= i < |GridDiffs(cell, rows, cols)| ==>
      cell(GridDiffs(cell, rows, cols)[i].row, GridDiffs(cell, rows, cols)[i].col) == Some(GridDiffs(cell, rows, cols)[i])
    ensures forall i, j :: 0 <= i < j < |GridDiffs(cell, rows, cols)| ==>
      Before(GridDiffs(cell, rows, cols)[i], GridDiffs(cell, rows, cols)[j])
    ensures forall r: nat, c: nat :: r < rows && c < cols && cell(r, c).Some? ==>
      cell(r, c).value in GridDiffs(cell, rows, cols)
    decreases rows
  {
    if rows > 0 {
      GridFacts(cell, rows - 1, cols);
      RowFacts(cell, rows - 1, cols);
      assert GridDiffs(cell, rows, cols) == GridDiffs(cell, rows - 1, cols) + RowDiffs(cell, rows - 1, cols);
    }
  }

  lemma CellDiffsPositioned(name: string, sa: Sheet, sb: Sheet)
    ensures Positioned(CellDiffs(name, sa, sb))
  {
  }

  /** The cell records of a shared sheet all carry its name and none is a
      structure record. */
  lemma SheetGridNames(name: string, sa: Sheet, sb: Sheet)
    ensures forall i :: 0 <= i < |SheetGrid(name, sa, sb)| ==>
      && SheetGrid(name, sa, sb)[i].sheetName == name && SheetGrid(name, sa, sb)[i].id == ""
      && SheetGrid(name, sa, sb)[i].diffType != Structure && SheetGrid(name, sa, sb)[i].resolution.None?
  {
    var g := SheetGrid(name, sa, sb);
    CellDiffsPositioned(name, sa, sb);
    GridFacts(CellDiffs(name, sa, sb), MaxRow(sa, sb), MaxCol(sa, sb));
    forall i | 0 <= i < |g|
      ensures g[i].sheetName == name && g[i].id == "" && g[i].diffType != Structure && g[i].resolution.None?
    {
      assert CellDiff(name, sa, sb, g[i].row, g[i].col) == Some(g[i]);
    }
  }

  lemma {:induction false} AddNamesFacts(names: seq<string>, sheets: seq<Sheet>)
    requires Distinct(names)
    ensures var r := AddNames(names, sheets);
      && Distinct(r) && |names| <= |r| && r[..|names|] == names
      && (forall x :: x in r <==> x in names || FindSheet(sheets, x).Some?)
      && (forall i :: |names| <= i < |r| ==> r[i] !in names)
    decreases |sheets|
  {
    if sheets != [] {
      var init := sheets[..|sheets| - 1];
      AddNamesFacts(names, init);
      forall x ensures FindSheet(sheets, x).Some? <==> FindSheet(init, x).Some? || x == sheets[|sheets| - 1].name {
        if FindSheet(sheets, x).Some? {
          var i :| 0 <= i < |sheets| && sheets[i].name == x;
          if i < |init| { assert init[i].name == x; }
        }
        if FindSheet(init, x).Some? {
          var i :| 0 <= i < |init| && init[i].name == x;
          assert sheets[i].name == x;
        }
      }
    }
  }

  /** The union walked by the comparison: no name twice, every sheet name of
      either file, A's names first and then the names only B has. */
  lemma UnionNamesFacts(a: ExcelData, b: ExcelData)
    ensures var u := UnionNames(a, b);
      && Distinct(u)
      && (forall x :: x in u <==> FindSheet(a.sheets, x).Some? || FindSheet(b.sheets, x).Some?)
      && (forall i :: 0 <= i < |u| ==> (FindSheet(a.sheets, u[i]).Some? <==> i < |AddNames([], a.sheets)|))
  {
    var na := AddNames([], a.sheets);
    AddNamesFacts([], a.sheets);
    AddNamesFacts(na, b.sheets);
  }

  /** The names `AddNames` appends come in the order in which they first
      appear among the sheets, and each of them does appear. */
  lemma {:induction false} AddNamesOrder(names: seq<string>, sheets: seq<Sheet>)
    requires Distinct(names)
    ensures var r := AddNames(names, sheets);
      && (forall i :: |names| <= i < |r| ==> FirstNamed(sheets, r[i]) < |sheets|)
      && (forall i, j :: |names| <= i < j < |r| ==> FirstNamed(sheets, r[i]) < FirstNamed(sheets, r[j]))
    decreases |sheets|
  {
    if sheets != [] {
      var init := sheets[..|sheets| - 1];
      var y := sheets[|sheets| - 1].name;
      var r0 := AddNames(names, init);
      AddNamesOrder(names, init);
      AddNamesFacts(names, init);
      if y !in r0 {
        assert FindSheet(init, y).None?;
        assert FirstNamed(init, y) == |init|;
      }
    }
  }

  /** The union walked by the comparison lists A's names in the order they
      first appear in A, then B's new names in the order they first appear
      in B. */
  lemma UnionNamesOrder(a: ExcelData, b: ExcelData)
    ensures var u, n := UnionNames(a, b), |AddNames([], a.sheets)|;
      && n <= |u|
      && (forall i, j :: 0 <= i < j < n ==> FirstNamed(a.sheets, u[i]) < FirstNamed(a.sheets, u[j]))
      && (forall i, j :: n <= i < j < |u| ==> FirstNamed(b.sheets, u[i]) < FirstNamed(b.sheets, u[j]))
  {
    var na := AddNames([], a.sheets);
    AddNamesFacts([], a.sheets);
    AddNamesOrder([], a.sheets);
    AddNamesFacts(na, b.sheets);
    AddNamesOrder(na, b.sheets);
    var u := UnionNames(a, b);
    assert forall i :: 0 <= i < |na| ==> u[i] == na[i];
  }

  /** A per-name record function whose records all carry that name. */
  ghost predicate Labelled(f: string -> seq<DiffRecord>) {
    forall x, i :: 0 <= i < |f(x)| ==> f(x)[i].sheetName == x
  }

  lemma SheetsDiffsLabelled(a: ExcelData, b: ExcelData)
    ensures Labelled(SheetsDiffs(a, b))
  {
    forall x, i | 0 <= i < |SheetsDiffs(a, b)(x)|
      ensures SheetsDiffs(a, b)(x)[i].sheetName == x
    {
      assert SheetsDiffs(a, b)(x) == SheetDiffs(x, a, b);
    }
  }

  lemma {:induction false} ConcatNames(names: seq<string>, f: string -> seq<DiffRecord>)
    requires Labelled(f)
    ensures forall i :: 0 <= i < |Concat(names, f)| ==> Concat(names, f)[i].sheetName in names
    decreases |names|
  {
    if names != [] {
      var init := names[..|names| - 1];
      ConcatNames(init, f);
      assert forall x :: x in init ==> x in names;
    }
  }

  lemma DiffsOverNames(names: seq<string>, a: ExcelData, b: ExcelData)
    ensures forall i :: 0 <= i < |DiffsOver(names, a, b)| ==> DiffsOver(names, a, b)[i].sheetName in names
  {
    SheetsDiffsLabelled(a, b);
    ConcatNames(names, SheetsDiffs(a, b));
  }

  /** The records of one name sit in one contiguous block. */
  lemma {:induction false} ConcatBlock(names: seq<string>, f: string -> seq<DiffRecord>, name: string) returns (p: nat)
    requires Labelled(f) && Distinct(names) && name in names
    ensures var raw, blk := Concat(names, f), f(name);
      && p + |blk| <= |raw| && raw[p..p + |blk|] == blk
      && (forall i :: 0 <= i < |raw| && raw[i].sheetName == name ==> p <= i < p + |blk|)
    decreases |names|
  {
    var init := names[..|names| - 1];
    var last := names[|names| - 1];
    var front := Concat(init, f);
    var tail := f(last);
    assert Concat(names, f) == front + tail;
    assert Distinct(init);
    ConcatNames(init, f);
    if last == name {
      assert name !in init;
      p := |front|;
      BlockAtEnd(front, tail, name);
    } else {
      assert name in init;
      p := ConcatBlock(init, f, name);
      BlockInFront(front, tail, f(name), p, name, last);
    }
  }

  /** The records of one sheet name sit in one contiguous block. */
  lemma DiffsOverBlock(names: seq<string>, a: ExcelData, b: ExcelData, name: string) returns (p: nat)
    requires Distinct(names) && name in names
    ensures var raw, blk := DiffsOver(names, a, b), SheetDiffs(name, a, b);
      && p + |blk| <= |raw| && raw[p..p + |blk|] == blk
      && (forall i :: 0 <= i < |raw| && raw[i].sheetName == name ==> p <= i < p + |blk|)
  {
    SheetsDiffsLabelled(a, b);
    p := ConcatBlock(names, SheetsDiffs(a, b), name);
    assert SheetsDiffs(a, b)(name) == SheetDiffs(name, a, b);
  }

  lemma BlockAtEnd(front: seq<DiffRecord>, tail: seq<DiffRecord>, name: string)
    requires forall i :: 0 <= i < |front| ==> front[i].sheetName != name
    ensures (front + tail)[|front|..|front| + |tail|] == tail
    ensures forall i :: 0 <= i < |front + tail| && (front + tail)[i].sheetName == name ==> |front| <= i
  {
    assert (front + tail)[|front|..] == tail;
  }

  lemma BlockInFront(front: seq<DiffRecord>, tail: seq<DiffRecord>, blk: seq<DiffRecord>, p: nat, name: string, last: string)
    requires p + |blk| <= |front| && front[p..p + |blk|] == blk
    requires forall i :: 0 <= i < |front| && front[i].sheetName == name ==> p <= i < p + |blk|
    requires forall i :: 0 <= i < |tail| ==> tail[i].sheetName == last
    requires last != name
    ensures (front + tail)[p..p + |blk|] == blk
    ensures forall i :: 0 <= i < |front + tail| && (front + tail)[i].sheetName == name ==> p <= i < p + |blk|
  {
    assert (front + tail)[p..p + |blk|] == front[p..p + |blk|];
  }

  /** The block of records that `name` contributes to a comparison. */
  lemma SheetBlock(a: ExcelData, b: ExcelData, name: string) returns (p: nat)
    requires FindSheet(a.sheets, name).Some? || FindSheet(b.sheets, name).Some?
    ensures var raw, blk := DiffsOver(UnionNames(a, b), a, b), SheetDiffs(name, a, b);
      && p + |blk| <= |raw| && raw[p..p + |blk|] == blk
      && (forall i :: 0 <= i < |raw| && raw[i].sheetName == name ==> p <= i < p + |blk|)
  {
    UnionNamesFacts(a, b);
    p := DiffsOverBlock(UnionNames(a, b), a, b, name);
  }

  /** Ids are "diff-0", "diff-1", ... in emission order, so no two records of
      one run share an id. */
  lemma DiffIdsDistinct(a: ExcelData, b: ExcelData)
    ensures var r := Differences(a, b);
      && (forall i :: 0 <= i < |r| ==> r[i].id == "diff-" + NumberToString(i))
      && (forall i, j :: 0 <= i < j < |r| ==> r[i].id != r[j].id)
  {
    var r := Differences(a, b);
    forall i, j | 0 <= i < j < |r| ensures r[i].id != r[j].id {
      if r[i].id == r[j].id {
        DiffIdInjective(i, j);
      }
    }
  }

  /** A sheet only B has yields exactly one record: added, at row = col = -1,
      category structure, with no old value; so no cell records. */
  lemma SheetOnlyInB(a: ExcelData, b: ExcelData, name: string)
    requires FindSheet(a.sheets, name).None? && FindSheet(b.sheets, name).Some?
    ensures var r := Differences(a, b);
      exists i :: 0 <= i < |r| && r[i].sheetName == name
        && r[i].diffType == Added && r[i].row == -1 && r[i].col == -1
        && r[i].category == StructureCategory && r[i].oldValue == Null
        && (forall j :: 0 <= j < |r| && r[j].sheetName == name ==> j == i)
  {
    var p := SheetRecords(a, b, name);
    assert SheetDiffs(name, a, b) == [AddedSheetDiff(name)];
    var r, k := Differences(a, b), 0;
    assert r[p + k] == SheetDiffs(name, a, b)[k].(id := DiffId(p + k));
  }

  /** A sheet only A has yields exactly one record: deleted, at row = col = -1,
      category structure, with no new value; so no cell records. */
  lemma SheetOnlyInA(a: ExcelData, b: ExcelData, name: string)
    requires FindSheet(a.sheets, name).Some? && FindSheet(b.sheets, name).None?
    ensures var r := Differences(a, b);
      exists i :: 0 <= i < |r| && r[i].sheetName == name
        && r[i].diffType == Deleted && r[i].row == -1 && r[i].col == -1
        && r[i].category == StructureCategory && r[i].newValue == Null
        && (forall j :: 0 <= j < |r| && r[j].sheetName == name ==> j == i)
  {
    var p := SheetRecords(a, b, name);
    assert SheetDiffs(name, a, b) == [DeletedSheetDiff(name)];
    var r, k := Differences(a, b), 0;
    assert r[p + k] == SheetDiffs(name, a, b)[k].(id := DiffId(p + k));
  }

  /** Where a sheet's records land in the comparison: one contiguous block,
      numbered on from its start, holding every record of that sheet. */
  lemma SheetRecords(a: ExcelData, b: ExcelData, name: string) returns (p: nat)
    requires FindSheet(a.sheets, name).Some? || FindSheet(b.sheets, name).Some?
    ensures var r, blk := Differences(a, b), SheetDiffs(name, a, b);
      && p + |blk| <= |r|
      && (forall k :: 0 <= k < |blk| ==> r[p + k] == blk[k].(id := DiffId(p + k)))
      && (forall i :: 0 <= i < |r| && r[i].sheetName == name ==> p <= i < p + |blk|)
  {
    p := SheetBlock(a, b, name);
    NumberedBlock(DiffsOver(UnionNames(a, b), a, b), SheetDiffs(name, a, b), p);
  }

  /** Numbering a list numbers a block inside it from the block's start and
      keeps every record's sheet name. */
  lemma NumberedBlock(raw: seq<DiffRecord>, blk: seq<DiffRecord>, p: nat)
    requires p + |blk| <= |raw| && raw[p..p + |blk|] == blk
    ensures |Numbered(raw)| == |raw|
    ensures forall k :: 0 <= k < |blk| ==> Numbered(raw)[p + k] == blk[k].(id := DiffId(p + k))
    ensures forall i :: 0 <= i < |raw| ==> Numbered(raw)[i].sheetName == raw[i].sheetName
  {
    forall k | 0 <= k < |blk| ensures raw[p + k] == blk[k] {
      assert raw[p..p + |blk|][k] == raw[p + k];
    }
  }

  /** A cell position of a shared sheet yields a record iff the normalised
      values there differ (a position missing from a sheet reads as ""); the
      record carries both raw values and no resolution, and its kind and
      category follow the raw values' truthiness and numeric type. */
  lemma CellDiffSpec(name: string, sa: Sheet, sb: Sheet, row: nat, col: nat)
    ensures var d, va, vb := CellDiff(name, sa, sb, row, col), ValueOr(CellAt(sa, row, col)), ValueOr(CellAt(sb, row, col));
      && (d.Some? <==> NormalizeValue(va) != NormalizeValue(vb))
      && (d.Some? ==>
            && d.value.oldValue == va && d.value.newValue == vb && d.value.resolution.None?
            && (d.value.diffType == Added <==> !Truthy(va) && Truthy(vb))
            && (d.value.diffType == Deleted <==> Truthy(va) && !Truthy(vb))
            && (d.value.diffType == Modified <==> Truthy(va) == Truthy(vb))
            && (d.value.category == ValueCategory <==> va.Num? || vb.Num?)
            && (d.value.category == TextCategory <==> !va.Num? && !vb.Num?))
  {
  }

  /** The cell records of a shared sheet, stated on `CellDiff`: each inside
      the bounding box and the record of its own position, in strict
      row-major order, and every differing position of the box among them. */
  lemma SheetGridFacts(name: string, sa: Sheet, sb: Sheet)
    ensures var g := SheetGrid(name, sa, sb);
      && (forall k :: 0 <= k < |g| ==>
            && g[k].sheetName == name && g[k].diffType != Structure
            && 0 <= g[k].row < MaxRow(sa, sb) && 0 <= g[k].col < MaxCol(sa, sb)
            && CellDiff(name, sa, sb, g[k].row, g[k].col) == Some(g[k]))
      && (forall k, l :: 0 <= k < l < |g| ==> Before(g[k], g[l]))
      && (forall row: nat, col: nat ::
            (row < MaxRow(sa, sb) && col < MaxCol(sa, sb) && CellDiff(name, sa, sb, row, col).Some?) ==>
              CellDiff(name, sa, sb, row, col).value in g)
  {
    var cell := CellDiffs(name, sa, sb);
    CellDiffsPositioned(name, sa, sb);
    GridFacts(cell, MaxRow(sa, sb), MaxCol(sa, sb));
    SheetGridNames(name, sa, sb);
    forall row: nat, col: nat ensures cell(row, col) == CellDiff(name, sa, sb, row, col) {
    }
  }

  /** A shared sheet has a structure record iff its dimensions differ: the
      first record of the sheet, carrying the two dimension texts, and the
      only structure record of that sheet. */
  lemma SharedSheetStructure(a: ExcelData, b: ExcelData, name: string)
    requires FindSheet(a.sheets, name).Some? && FindSheet(b.sheets, name).Some?
    ensures var s, sa, sb := SheetDiffs(name, a, b), FindSheet(a.sheets, name).value, FindSheet(b.sheets, name).value;
      && (forall k :: 0 <= k < |s| ==>
            (s[k].diffType == Structure <==> k == 0 && (sa.rowCount != sb.rowCount || sa.colCount != sb.colCount)))
      && (sa.rowCount != sb.rowCount || sa.colCount != sb.colCount ==>
            |s| > 0 && s[0] == DiffRecord("", Structure, name, -1, -1, Dimensions(sa), Dimensions(sb), StructureCategory, None))
      && (forall k :: 0 <= k < |s| && s[k].diffType == Structure ==> s[k].row == -1)
  {
    var sa, sb := FindSheet(a.sheets, name).value, FindSheet(b.sheets, name).value;
    var st := StructureDiffs(name, sa, sb);
    var g := SheetGrid(name, sa, sb);
    SheetGridNames(name, sa, sb);
    var s := SheetDiffs(name, a, b);
    assert s == st + g;
    StructureThenCells(st, g);
  }

  /** After the structure record, a shared sheet's records are exactly its
      cell records as `SheetGridFacts` describes them. */
  lemma SharedSheetCells(a: ExcelData, b: ExcelData, name: string)
    requires FindSheet(a.sheets, name).Some? && FindSheet(b.sheets, name).Some?
    ensures var s, sa, sb := SheetDiffs(name, a, b), FindSheet(a.sheets, name).value, FindSheet(b.sheets, name).value;
      && (forall k :: 0 <= k < |s| && s[k].diffType != Structure ==>
            && 0 <= s[k].row < MaxRow(sa, sb) && 0 <= s[k].col < MaxCol(sa, sb)
            && CellDiff(name, sa, sb, s[k].row, s[k].col) == Some(s[k]))
      && (forall k, l :: 0 <= k < l < |s| && s[k].diffType != Structure ==> Before(s[k], s[l]))
      && (forall row: nat, col: nat ::
            (row < MaxRow(sa, sb) && col < MaxCol(sa, sb) && CellDiff(name, sa, sb, row, col).Some?) ==>
              CellDiff(name, sa, sb, row, col).value in s)
  {
    var sa, sb := FindSheet(a.sheets, name).value, FindSheet(b.sheets, name).value;
    var st := StructureDiffs(name, sa, sb);
    var g := SheetGrid(name, sa, sb);
    SheetGridFacts(name, sa, sb);
    var s := SheetDiffs(name, a, b);
    assert s == st + g;
    StructureThenCells(st, g);
  }

  /** In the whole comparison, a record for (sheet, row, col) inside the
      bounding box of a shared sheet exists iff that position's `CellDiff`
      is present (iff the normalised values differ, by `CellDiffSpec`), and
      every such record is that `CellDiff` record under its id. */
  lemma CellRecordIff(a: ExcelData, b: ExcelData, name: string, row: nat, col: nat)
    requires FindSheet(a.sheets, name).Some? && FindSheet(b.sheets, name).Some?
    requires row < MaxRow(FindSheet(a.sheets, name).value, FindSheet(b.sheets, name).value)
    requires col < MaxCol(FindSheet(a.sheets, name).value, FindSheet(b.sheets, name).value)
    ensures var r, sa, sb := Differences(a, b), FindSheet(a.sheets, name).value, FindSheet(b.sheets, name).value;
      && ((exists i :: 0 <= i < |r| && r[i].sheetName == name && r[i].row == row && r[i].col == col)
          <==> CellDiff(name, sa, sb, row, col).Some?)
      && (forall i :: 0 <= i < |r| && r[i].sheetName == name && r[i].row == row && r[i].col == col ==>
            CellDiff(name, sa, sb, row, col) == Some(r[i].(id := "")))
  {
    var sa, sb := FindSheet(a.sheets, name).value, FindSheet(b.sheets, name).value;
    var s := SheetDiffs(name, a, b);
    var p := SheetRecords(a, b, name);
    SharedSheetStructure(a, b, name);
    SharedSheetCells(a, b, name);
    RecordInBlock(Differences(a, b), s, p, name, row, col, CellDiff(name, sa, sb, row, col));
  }

  /** Any record at a cell position (row >= 0) belongs to a sheet both files
      have, lies inside its bounding box and is that position's `CellDiff`
      record under its id. */
  lemma CellRecordPlacement(a: ExcelData, b: ExcelData, i: nat)
    requires i < |Differences(a, b)| && Differences(a, b)[i].row >= 0
    ensures var d := Differences(a, b)[i];
      && FindSheet(a.sheets, d.sheetName).Some? && FindSheet(b.sheets, d.sheetName).Some?
      && var sa, sb := FindSheet(a.sheets, d.sheetName).value, FindSheet(b.sheets, d.sheetName).value;
      && 0 <= d.col && d.row < MaxRow(sa, sb) && d.col < MaxCol(sa, sb)
      && CellDiff(d.sheetName, sa, sb, d.row, d.col) == Some(d.(id := ""))
  {
    var p, s := RecordBlock(a, b, i);
    var name := Differences(a, b)[i].sheetName;
    if FindSheet(a.sheets, name).Some? && FindSheet(b.sheets, name).Some? {
      SharedSheetStructure(a, b, name);
      SharedSheetCells(a, b, name);
      assert s[i - p].diffType != Structure;
    }
  }

  /** Within one sheet the cell records come in strict row-major order, so
      no (sheet, row, col) is reported twice. */
  lemma CellRecordsRowMajor(a: ExcelData, b: ExcelData)
    ensures var r := Differences(a, b);
      forall i, j :: 0 <= i < j < |r| && r[i].sheetName == r[j].sheetName && r[i].row >= 0 && r[j].row >= 0 ==>
        Before(r[i], r[j])
  {
    var r := Differences(a, b);
    forall i, j | 0 <= i < j < |r| && r[i].sheetName == r[j].sheetName && r[i].row >= 0 && r[j].row >= 0
      ensures Before(r[i], r[j])
    {
      var p, s := RecordBlock(a, b, i);
      var name := r[i].sheetName;
      SharedSheetStructure(a, b, name);
      SharedSheetCells(a, b, name);
      assert r[j] == s[j - p].(id := DiffId(j));
      assert s[i - p].diffType != Structure;
    }
  }

  /** The block of the sheet of record `i`, for a record at a cell position;
      such a record never comes from a sheet only one file has. */
  lemma RecordBlock(a: ExcelData, b: ExcelData, i: nat) returns (p: nat, s: seq<DiffRecord>)
    requires i < |Differences(a, b)| && Differences(a, b)[i].row >= 0
    ensures var r := Differences(a, b);
      && s == SheetDiffs(r[i].sheetName, a, b) && p <= i < p + |s| && p + |s| <= |r|
      && r[i] == s[i - p].(id := DiffId(i))
      && (forall k :: 0 <= k < |s| ==> r[p + k] == s[k].(id := DiffId(p + k)))
      && (forall j :: 0 <= j < |r| && r[j].sheetName == r[i].sheetName ==> p <= j < p + |s|)
      && (FindSheet(a.sheets, r[i].sheetName).Some? <==> FindSheet(b.sheets, r[i].sheetName).Some?)
  {
    var r := Differences(a, b);
    var name := r[i].sheetName;
    var raw := DiffsOver(UnionNames(a, b), a, b);
    DiffsOverNames(UnionNames(a, b), a, b);
    UnionNamesFacts(a, b);
    assert raw[i].sheetName == name;
    assert name in UnionNames(a, b);
    p := SheetRecords(a, b, name);
    s := SheetDiffs(name, a, b);
    assert r[p + (i - p)] == s[i - p].(id := DiffId(p + (i - p)));
  }

  /** Reading one position's record through its sheet's block. */
  lemma RecordInBlock(r: seq<DiffRecord>, s: seq<DiffRecord>, p: nat, name: string, row: nat, col: nat, d: Option<DiffRecord>)
    requires p + |s| <= |r|
    requires forall k :: 0 <= k < |s| ==> r[p + k] == s[k].(id := DiffId(p + k))
    requires forall i :: 0 <= i < |r| && r[i].sheetName == name ==> p <= i < p + |s|
    requires forall k :: 0 <= k < |s| && s[k].diffType == Structure ==> s[k].row == -1
    requires forall k :: 0 <= k < |s| && s[k].diffType != Structure && s[k].row == row && s[k].col == col ==> d == Some(s[k])
    requires forall k :: 0 <= k < |s| ==> s[k].id == ""
    requires d.Some? ==> d.value in s && d.value.sheetName == name && d.value.row == row && d.value.col == col
    ensures (exists i :: 0 <= i < |r| && r[i].sheetName == name && r[i].row == row && r[i].col == col) <==> d.Some?
    ensures forall i :: 0 <= i < |r| && r[i].sheetName == name && r[i].row == row && r[i].col == col ==>
      d == Some(r[i].(id := ""))
  {
    forall i | 0 <= i < |r| && r[i].sheetName == name && r[i].row == row && r[i].col == col
      ensures d == Some(r[i].(id := ""))
    {
      assert r[i] == s[i - p].(id := DiffId(i));
    }
    if d.Some? {
      var k :| 0 <= k < |s| && s[k] == d.value;
      assert r[p + k] == s[k].(id := DiffId(p + k));
    }
  }

  lemma StructureThenCells(st: seq<DiffRecord>, g: seq<DiffRecord>)
    requires forall k :: 0 <= k < |st| ==> st[k].diffType == Structure
    requires forall k :: 0 <= k < |g| ==> g[k].diffType != Structure
    ensures forall k :: 0 <= k < |st + g| && (st + g)[k].diffType != Structure ==>
      |st| <= k && (st + g)[k] == g[k - |st|]
    ensures forall k :: 0 <= k < |st + g| && (st + g)[k].diffType == Structure ==> k < |st| && (st + g)[k] == st[k]
    ensures forall x :: x in g ==> x in st + g
  {
  }

  // ---------------------------------------------------------------------------
  // getDiffStats
  // ---------------------------------------------------------------------------

  datatype DiffStats = DiffStats(
    total: nat, added: nat, deleted: nat, modified: nat, structure: nat, resolved: nat, unresolved: nat)

  /** No resolution, or the explicit `unresolved` strategy. */
  predicate IsUnresolved(d: DiffRecord) {
    d.resolution.None? || d.resolution.value.strategy == Unresolved
  }

  function CountType(ds: seq<DiffRecord>, t: DiffType): nat {
    if ds == [] then 0 else (if ds[0].diffType == t then 1 else 0) + CountType(ds[1..], t)
  }

  function CountResolved(ds: seq<DiffRecord>): nat {
    if ds == [] then 0 else (if !IsUnresolved(ds[0]) then 1 else 0) + CountResolved(ds[1..])
  }

  function CountUnresolved(ds: seq<DiffRecord>): nat {
    if ds == [] then 0 else (if IsUnresolved(ds[0]) then 1 else 0) + CountUnresolved(ds[1..])
  }

  function GetDiffStats(ds: seq<DiffRecord>): DiffStats {
    DiffStats(|ds|, CountType(ds, Added), CountType(ds, Deleted), CountType(ds, Modified),
              CountType(ds, Structure), CountResolved(ds), CountUnresolved(ds))
  }

  /** The counters add up: resolved + unresolved = total, and the four kinds
      together = total. */
  lemma {:induction false} StatsAddUp(ds: seq<DiffRecord>)
    ensures var s := GetDiffStats(ds);
      && s.resolved + s.unresolved == s.total
      && s.added + s.deleted + s.modified + s.structure == s.total
  {
    if ds != [] {
      StatsAddUp(ds[1..]);
    }
  }

  /** The unresolved counter is 0 exactly when every record is resolved. */
  lemma {:induction false} NoUnresolvedIff(ds: seq<DiffRecord>)
    ensures GetDiffStats(ds).unresolved == 0 <==> forall i :: 0 <= i < |ds| ==> !IsUnresolved(ds[i])
  {
    if ds != [] {
      NoUnresolvedIff(ds[1..]);
      assert forall i :: 1 <= i < |ds| ==> ds[i] == ds[1..][i - 1];
    }
  }

  /** With every record unresolved, the unresolved counter is the total. */
  lemma {:induction false} AllUnresolvedCount(ds: seq<DiffRecord>)
    requires forall i :: 0 <= i < |ds| ==> IsUnresolved(ds[i])
    ensures GetDiffStats(ds).unresolved == |ds| && GetDiffStats(ds).resolved == 0
  {
    if ds != [] {
      AllUnresolvedCount(ds[1..]);
    }
  }

  /** A fresh comparison carries no resolution at all: every record counts
      as unresolved. */
  lemma FreshDifferencesUnresolved(a: ExcelData, b: ExcelData)
    ensures forall i :: 0 <= i < |Differences(a, b)| ==> Differences(a, b)[i].resolution.None?
    ensures GetDiffStats(Differences(a, b)).unresolved == |Differences(a, b)|
  {
    DiffsOverUnresolved(UnionNames(a, b), a, b);
    AllUnresolvedCount(Differences(a, b));
  }

  lemma DiffsOverUnresolved(names: seq<string>, a: ExcelData, b: ExcelData)
    ensures forall i :: 0 <= i < |DiffsOver(names, a, b)| ==> DiffsOver(names, a, b)[i].resolution.None?
  {
    forall x, i | 0 <= i < |SheetsDiffs(a, b)(x)|
      ensures SheetsDiffs(a, b)(x)[i].resolution.None?
    {
      assert SheetsDiffs(a, b)(x) == SheetDiffs(x, a, b);
    }
    ConcatUnresolved(names, SheetsDiffs(a, b));
  }

  lemma {:induction false} ConcatUnresolved(names: seq<string>, f: string -> seq<DiffRecord>)
    requires forall x, i :: 0 <= i < |f(x)| ==> f(x)[i].resolution.None?
    ensures forall i :: 0 <= i < |Concat(names, f)| ==> Concat(names, f)[i].resolution.None?
    decreases |names|
  {
    if names != [] {
      ConcatUnresolved(names[..|names| - 1], f);
    }
  }
}
