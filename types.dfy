/// The data shapes shared by every part of the comparison core: cells, sheets,
/// workbooks, difference records and their resolutions, and the user-facing
/// default strategy. Each JavaScript string-literal union becomes a datatype,
/// so every value carries exactly one of its tags, and a resolution strategy
/// cannot be anything but fileA, fileB, custom or unresolved.
module Types {
  import opened JsValues

  datatype Option<T> = None | Some(value: T)

  /** The `type` tag of a cell. */
  datatype CellType = NumberType | StringType | FormulaType | EmptyType

  datatype Cell = Cell(row: int, col: int, value: CellValue, cellType: CellType)

  /** The `type` of a difference record. */
  datatype DiffType = Added | Deleted | Modified | Structure

  datatype Category = ValueCategory | TextCategory | StructureCategory

  datatype Strategy = FileA | FileB | Custom | Unresolved

  /** `resolvedValue` is optional: `Undef` stands for an absent value. */
  datatype Resolution = Resolution(strategy: Strategy, resolvedValue: CellValue)

  /** A difference record; `row` and `col` are -1 on sheet-level records and
      `resolution` is optional. */
  datatype DiffRecord = DiffRecord(
    id: string,
    diffType: DiffType,
    sheetName: string,
    row: int,
    col: int,
    oldValue: CellValue,
    newValue: CellValue,
    category: Category,
    resolution: Option<Resolution>)

  datatype Sheet = Sheet(name: string, data: seq<seq<Cell>>, rowCount: nat, colCount: nat)

  datatype ExcelData = ExcelData(fileName: string, sheets: seq<Sheet>)

  /** The five-valued default strategy the user picks; newValue, oldValue and
      manual come on top of fileA and fileB. */
  datatype DefaultStrategy = DefaultFileA | DefaultFileB | DefaultNewValue | DefaultOldValue | DefaultManual

  /** The two defaults the merge projector and the exporter accept. */
  predicate IsMergeDefault(d: DefaultStrategy) {
    d == DefaultFileA || d == DefaultFileB
  }

  /** How the comparison view hands the default down to the exporter: fileA
      and oldValue pick file A, everything else (manual included) file B. */
  function NarrowDefault(d: DefaultStrategy): (r: DefaultStrategy)
    ensures IsMergeDefault(r)
    ensures r == DefaultFileA <==> d in {DefaultFileA, DefaultOldValue}
  {
    if d == DefaultFileA || d == DefaultOldValue then DefaultFileA else DefaultFileB
  }

  // ---------------------------------------------------------------------------
  // Lookups shared by the core (`Array.prototype.find` and optional chaining)
  // ---------------------------------------------------------------------------

  /** `sheets.find(s => s.name === name)`: the first sheet of that name. */
  function FindSheet(sheets: seq<Sheet>, name: string): (r: Option<Sheet>)
    ensures r.Some? <==> exists i :: 0 <= i < |sheets| && sheets[i].name == name
    ensures r.Some? ==> r.value.name == name && r.value in sheets
  {
    if sheets == [] then None
    else if sheets[0].name == name then Some(sheets[0])
    else FindSheet(sheets[1..], name)
  }

  /** `sheet.data[row]?.[col]` */
  function CellAt(sheet: Sheet, row: int, col: int): Option<Cell> {
    if 0 <= row < |sheet.data| && 0 <= col < |sheet.data[row]| then Some(sheet.data[row][col]) else None
  }

  /** `sheet?.data[row]?.[col]` */
  function CellIn(sheet: Option<Sheet>, row: int, col: int): Option<Cell> {
    if sheet.None? then None else CellAt(sheet.value, row, col)
  }

  /** `cell?.value ?? ''` */
  function ValueOr(cell: Option<Cell>): CellValue {
    if cell.None? then Str("") else Coalesce(cell.value.value, Str(""))
  }

  /** No record of `ds` sits at that position. */
  predicate NoneAt(ds: seq<DiffRecord>, name: string, row: int, col: int) {
    forall j :: 0 <= j < |ds| ==> !(ds[j].sheetName == name && ds[j].row == row && ds[j].col == col)
  }

  /** `diffs.find(d => d.sheetName === name && d.row === row && d.col === col)` */
  function FindDiff(diffs: seq<DiffRecord>, name: string, row: int, col: int): (r: Option<DiffRecord>)
    ensures r.Some? <==> exists i :: 0 <= i < |diffs| && diffs[i].sheetName == name && diffs[i].row == row && diffs[i].col == col
    ensures r.Some? ==> r.value in diffs && r.value.sheetName == name && r.value.row == row && r.value.col == col
  {
    if diffs == [] then None
    else if diffs[0].sheetName == name && diffs[0].row == row && diffs[0].col == col then Some(diffs[0])
    else FindDiff(diffs[1..], name, row, col)
  }

  /** `find` returns the first record at the position: none before it sits
      there. */
  lemma {:induction false} FindDiffFirst(diffs: seq<DiffRecord>, name: string, row: int, col: int) returns (i: nat)
    requires FindDiff(diffs, name, row, col).Some?
    ensures i < |diffs| && diffs[i] == FindDiff(diffs, name, row, col).value && NoneAt(diffs[..i], name, row, col)
  {
    if diffs[0].sheetName == name && diffs[0].row == row && diffs[0].col == col {
      i := 0;
    } else {
      var k := FindDiffFirst(diffs[1..], name, row, col);
      i := k + 1;
      assert diffs[..i] == [diffs[0]] + diffs[1..][..k];
    }
  }

  /** `find` returns the first sheet of the name: none before it has it. */
  lemma {:induction false} FindSheetFirst(sheets: seq<Sheet>, name: string) returns (i: nat)
    requires FindSheet(sheets, name).Some?
    ensures i < |sheets| && sheets[i] == FindSheet(sheets, name).value
    ensures forall j :: 0 <= j < i ==> sheets[j].name != name
  {
    if sheets[0].name == name {
      i := 0;
    } else {
      var k := FindSheetFirst(sheets[1..], name);
      i := k + 1;
    }
  }
}
