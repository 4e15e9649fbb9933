/// The comparison session: the two loaded workbooks, the current difference
/// list and the user's default strategy, with the three operations that
/// replace the list (compare, resolve one record, apply the default).
module ComparisonSession {
  import opened JsValues
  import opened Types
  import opened ComparisonEngine

  // ---------------------------------------------------------------------------
  // The list updaters, as pure functions over the record list
  // ---------------------------------------------------------------------------

  /** The resolution `resolveDiff` writes: the custom value travels only with
      the custom strategy. */
  function ResolutionFor(strategy: Strategy, customValue: CellValue): Resolution {
    Resolution(strategy, if strategy == Custom then customValue else Undef)
  }

  /** The per-record step of `resolveDiff`. */
  function ResolveRecord(d: DiffRecord, diffId: string, strategy: Strategy, customValue: CellValue): DiffRecord {
    if d.id == diffId then d.(resolution := Some(ResolutionFor(strategy, customValue))) else d
  }

  /** `prev.map(...)` of `resolveDiff`. */
  function Resolve(ds: seq<DiffRecord>, diffId: string, strategy: Strategy, customValue: CellValue): seq<DiffRecord> {
    seq(|ds|, i requires 0 <= i < |ds| => ResolveRecord(ds[i], diffId, strategy, customValue))
  }

  /** The strategy the five-valued default stands for: fileA and oldValue
      pick file A, fileB and newValue file B, manual leaves it unresolved. */
  function DefaultResolution(d: DefaultStrategy): (s: Strategy)
    ensures s == FileA <==> d == DefaultFileA || d == DefaultOldValue
    ensures s == FileB <==> d == DefaultFileB || d == DefaultNewValue
    ensures s == Unresolved <==> d == DefaultManual
  {
    match d
    case DefaultFileA => FileA
    case DefaultFileB => FileB
    case DefaultNewValue => FileB
    case DefaultOldValue => FileA
    case DefaultManual => Unresolved
  }

  /** The per-record step of `applyDefaultStrategy`. */
  function ApplyDefaultRecord(d: DiffRecord, def: DefaultStrategy): DiffRecord {
    if IsUnresolved(d) then d.(resolution := Some(Resolution(DefaultResolution(def), Undef))) else d
  }

  /** `prev.map(...)` of `applyDefaultStrategy`. */
  function ApplyDefault(ds: seq<DiffRecord>, def: DefaultStrategy): seq<DiffRecord> {
    seq(|ds|, i requires 0 <= i < |ds| => ApplyDefaultRecord(ds[i], def))
  }

  /** The precondition the difference list puts on a custom value: a string
      that is not blank after trimming. */
  predicate CustomValueOk(strategy: Strategy, customValue: CellValue) {
    strategy == Custom ==> customValue.Str? && Trim(customValue.s) != ""
  }

  // ---------------------------------------------------------------------------
  // resolveDiff
  // ---------------------------------------------------------------------------

  /** `resolveDiff` keeps length and order, leaves every record with another
      id exactly as it was, and gives the records with that id the new
      resolution with all their other fields (the id included) unchanged. */
  lemma ResolveSpec(ds: seq<DiffRecord>, diffId: string, strategy: Strategy, customValue: CellValue)
    ensures var r := Resolve(ds, diffId, strategy, customValue);
      && |r| == |ds|
      && (forall i :: 0 <= i < |ds| && ds[i].id != diffId ==> r[i] == ds[i])
      && (forall i :: 0 <= i < |ds| && ds[i].id == diffId ==>
            && r[i].resolution == Some(ResolutionFor(strategy, customValue))
            && r[i].(resolution := ds[i].resolution) == ds[i])
      && (forall i :: 0 <= i < |ds| ==> r[i].id == ds[i].id)
  {
  }

  /** The resolution written has the given strategy and carries a value iff
      the strategy is custom, and then it is the custom value. */
  lemma ResolvedValueIffCustom(strategy: Strategy, customValue: CellValue)
    requires CustomValueOk(strategy, customValue)
    ensures var res := ResolutionFor(strategy, customValue);
      && res.strategy == strategy
      && (res.resolvedValue != Undef <==> strategy == Custom)
      && (strategy == Custom ==> res.resolvedValue == customValue)
  {
  }

  /** An id that no record carries leaves the list as it was. */
  lemma ResolveUnknownId(ds: seq<DiffRecord>, diffId: string, strategy: Strategy, customValue: CellValue)
    requires forall i :: 0 <= i < |ds| ==> ds[i].id != diffId
    ensures Resolve(ds, diffId, strategy, customValue) == ds
  {
  }

  /** With the ids of a comparison, which are pairwise distinct, exactly one
      record changes. */
  lemma ResolveOneOfDifferences(a: ExcelData, b: ExcelData, k: nat, strategy: Strategy, customValue: CellValue)
    requires k < |Differences(a, b)|
    ensures var ds := Differences(a, b);
      var r := Resolve(ds, ds[k].id, strategy, customValue);
      && r[k] == ds[k].(resolution := Some(ResolutionFor(strategy, customValue)))
      && (forall i :: 0 <= i < |ds| && i != k ==> r[i] == ds[i])
  {
    DiffIdsDistinct(a, b);
  }

  /** Resolving with anything but `unresolved` never raises the unresolved
      counter. */
  lemma {:induction false} ResolveNeverAddsUnresolved(ds: seq<DiffRecord>, diffId: string, strategy: Strategy, customValue: CellValue)
    requires strategy != Unresolved
    ensures CountUnresolved(Resolve(ds, diffId, strategy, customValue)) <= CountUnresolved(ds)
  {
    if ds != [] {
      ResolveNeverAddsUnresolved(ds[1..], diffId, strategy, customValue);
      assert Resolve(ds, diffId, strategy, customValue)[1..] == Resolve(ds[1..], diffId, strategy, customValue);
    }
  }

  // ---------------------------------------------------------------------------
  // applyDefaultStrategy
  // ---------------------------------------------------------------------------

  /** Resolved records stay exactly as they were; unresolved ones (no
      resolution, or the `unresolved` strategy) get the default's strategy
      with no value and keep every other field. */
  lemma ApplyDefaultSpec(ds: seq<DiffRecord>, def: DefaultStrategy)
    ensures var r := ApplyDefault(ds, def);
      && |r| == |ds|
      && (forall i :: 0 <= i < |ds| && !IsUnresolved(ds[i]) ==> r[i] == ds[i])
      && (forall i :: 0 <= i < |ds| && IsUnresolved(ds[i]) ==>
            && r[i].resolution == Some(Resolution(DefaultResolution(def), Undef))
            && r[i].(resolution := ds[i].resolution) == ds[i])
  {
  }

  /** Applying the same default twice is applying it once. */
  lemma ApplyDefaultIdempotent(ds: seq<DiffRecord>, def: DefaultStrategy)
    ensures ApplyDefault(ApplyDefault(ds, def), def) == ApplyDefault(ds, def)
  {
    var once := ApplyDefault(ds, def);
    forall i | 0 <= i < |ds| ensures ApplyDefaultRecord(once[i], def) == once[i] {
      if IsUnresolved(ds[i]) && def == DefaultManual {
        assert once[i].resolution == Some(Resolution(Unresolved, Undef));
      }
    }
  }

  /** After applying a default other than manual nothing is unresolved. */
  lemma ApplyDefaultResolvesAll(ds: seq<DiffRecord>, def: DefaultStrategy)
    requires def != DefaultManual
    ensures GetDiffStats(ApplyDefault(ds, def)).unresolved == 0
  {
    var r := ApplyDefault(ds, def);
    assert forall i :: 0 <= i < |r| ==> !IsUnresolved(r[i]);
    NoUnresolvedIff(r);
  }

  /** The manual default rewrites missing resolutions as explicit
      `unresolved` ones and so leaves the unresolved counter as it was. */
  lemma {:induction false} ApplyManualKeepsCount(ds: seq<DiffRecord>)
    ensures CountUnresolved(ApplyDefault(ds, DefaultManual)) == CountUnresolved(ds)
  {
    if ds != [] {
      ApplyManualKeepsCount(ds[1..]);
      assert ApplyDefault(ds, DefaultManual)[1..] == ApplyDefault(ds[1..], DefaultManual);
    }
  }

  /** The side a non-manual default picks in the session is the side the
      comparison view hands on to the merge preview and the exporter. */
  lemma DefaultAgreesWithNarrowing(def: DefaultStrategy)
    requires def != DefaultManual
    ensures DefaultResolution(def) == FileA <==> NarrowDefault(def) == DefaultFileA
    ensures DefaultResolution(def) == FileB <==> NarrowDefault(def) == DefaultFileB
  {
  }

  // ---------------------------------------------------------------------------
  // What the updaters keep
  // ---------------------------------------------------------------------------

  /** Two lists that name the same (sheet, row, col) positions in the same
      order; the derived row and column views depend on nothing else. */
  predicate SamePositions(ds: seq<DiffRecord>, es: seq<DiffRecord>) {
    && |ds| == |es|
    && forall i :: 0 <= i < |ds| ==>
         ds[i].sheetName == es[i].sheetName && ds[i].row == es[i].row && ds[i].col == es[i].col
  }

  /** Resolving and applying a default touch resolutions only. */
  lemma UpdatersKeepPositions(ds: seq<DiffRecord>, diffId: string, strategy: Strategy, customValue: CellValue, def: DefaultStrategy)
    ensures SamePositions(ds, Resolve(ds, diffId, strategy, customValue))
    ensures SamePositions(ds, ApplyDefault(ds, def))
  {
  }

  /** Every custom resolution in the list carries a value. */
  predicate CustomsCarryValues(ds: seq<DiffRecord>) {
    forall i :: 0 <= i < |ds| && ds[i].resolution.Some? && ds[i].resolution.value.strategy == Custom ==>
      ds[i].resolution.value.resolvedValue != Undef
  }

  /** A fresh comparison has no custom resolution; resolving with a value
      the difference list accepts and applying a default keep every custom
      resolution carrying a value. */
  lemma UpdatersKeepCustomValues(a: ExcelData, b: ExcelData, ds: seq<DiffRecord>, diffId: string,
                                 strategy: Strategy, customValue: CellValue, def: DefaultStrategy)
    requires CustomValueOk(strategy, customValue) && CustomsCarryValues(ds)
    ensures CustomsCarryValues(Differences(a, b))
    ensures CustomsCarryValues(Resolve(ds, diffId, strategy, customValue))
    ensures CustomsCarryValues(ApplyDefault(ds, def))
  {
    FreshDifferencesUnresolved(a, b);
  }

  // ---------------------------------------------------------------------------
  // The session
  // ---------------------------------------------------------------------------

  class Session {
    var fileA: Option<ExcelData>
    var fileB: Option<ExcelData>
    var diffs: seq<DiffRecord>
    var defaultStrategy: DefaultStrategy

    /** No files, no differences, default fileB. */
    constructor ()
      ensures fileA == None && fileB == None && diffs == [] && defaultStrategy == DefaultFileB
    {
      fileA := None;
      fileB := None;
      diffs := [];
      defaultStrategy := DefaultFileB;
    }

    method SetFileA(file: Option<ExcelData>)
      modifies this
      ensures fileA == file
      ensures fileB == old(fileB) && diffs == old(diffs) && defaultStrategy == old(defaultStrategy)
    {
      fileA := file;
    }

    method SetFileB(file: Option<ExcelData>)
      modifies this
      ensures fileB == file
      ensures fileA == old(fileA) && diffs == old(diffs) && defaultStrategy == old(defaultStrategy)
    {
      fileB := file;
    }

    method SetDefaultStrategy(d: DefaultStrategy)
      modifies this
      ensures defaultStrategy == d
      ensures fileA == old(fileA) && fileB == old(fileB) && diffs == old(diffs)
    {
      defaultStrategy := d;
    }

    /** `compare`: an empty list while a file is missing, otherwise a fresh
      comparison that drops every earlier resolution. */
    method Compare()
      modifies this
      ensures fileA.None? || fileB.None? ==> diffs == []
      ensures fileA.Some? && fileB.Some? ==> diffs == Differences(fileA.value, fileB.value)
      ensures forall i :: 0 <= i < |diffs| ==> diffs[i].resolution.None?
      ensures fileA == old(fileA) && fileB == old(fileB) && defaultStrategy == old(defaultStrategy)
    {
      if fileA.None? || fileB.None? {
        diffs := [];
        return;
      }
      var newDiffs := CompareExcelFiles(fileA.value, fileB.value);
      FreshDifferencesUnresolved(fileA.value, fileB.value);
      diffs := newDiffs;
    }

    /** `resolveDiff` */
    method ResolveDiff(diffId: string, strategy: Strategy, customValue: CellValue)
      modifies this
      ensures diffs == Resolve(old(diffs), diffId, strategy, customValue)
      ensures fileA == old(fileA) && fileB == old(fileB) && defaultStrategy == old(defaultStrategy)
    {
      diffs := Resolve(diffs, diffId, strategy, customValue);
    }

    /** `applyDefaultStrategy`, with the current default. */
    method ApplyDefaultStrategy()
      modifies this
      ensures diffs == ApplyDefault(old(diffs), defaultStrategy)
      ensures fileA == old(fileA) && fileB == old(fileB) && defaultStrategy == old(defaultStrategy)
    {
      diffs := ApplyDefault(diffs, defaultStrategy);
    }

    /** `stats`, recomputed from the current list; its counters add up. */
    function Stats(): (s: DiffStats)
      reads this
      ensures s.total == |diffs|
      ensures s.resolved + s.unresolved == s.total
      ensures s.added + s.deleted + s.modified + s.structure == s.total
    {
      StatsAddUp(diffs);
      GetDiffStats(diffs)
    }
  }
}
