/** One sample of a source: which record of which file a time means, the record sliced out
    of every field, and the two-record bracket. */
module Sampling {
  import opened Wrappers
  import opened NativeData
  import opened Arrays
  import opened Selection
  import opened Temporal

  // ---- records of fields -------------------------------------------------------------

  function DimLength(f: Field, d: string): nat
    requires f.Valid() && d in f.dims
  {
    f.shape[IndexOf(f.dims, d)]
  }

  /** Record `rec` of a field: its time axis is gone; a field without one is unchanged. */
  function SliceField(f: Field, td: string, rec: int): (r: Result<Field, Error>)
    requires f.Valid()
    ensures r.Ok? ==> r.value.Valid() && r.value.attrs == f.attrs
  {
    if td !in f.dims then Ok(f)
    else
      var axis := IndexOf(f.dims, td);
      if rec < 0 || rec >= f.shape[axis] then Err(IndexError)
      else Ok(Field(Without(f.dims, axis), Without(f.shape, axis), DropAxis(f.data, f.shape, axis, rec), f.attrs))
  }

  /** Record `rec0` of `f0` and record `rec1` of `f1` along the time axis of `f0`. */
  function StackTwo(f0: Field, f1: Field, td: string, rec0: nat, rec1: nat): (r: Result<Field, Error>)
    requires f0.Valid() && f1.Valid()
    ensures r.Ok? ==> r.value.Valid() && r.value.attrs == f0.attrs && r.value.dims == f0.dims
  {
    if td !in f0.dims then Ok(f0)
    else
      var axis := IndexOf(f0.dims, td);
      if rec0 >= f0.shape[axis] || axis >= |f1.shape| || rec1 >= f1.shape[axis] then Err(IndexError)
      else if Without(f0.shape, axis) != Without(f1.shape, axis) then Err(ValueError)
      else
        var a, b := DropAxis(f0.data, f0.shape, axis, rec0), DropAxis(f1.data, f1.shape, axis, rec1);
        PutBack(f0.shape, axis, 2);
        Ok(Field(f0.dims, f0.shape[axis := 2], Stack2(a, b, Without(f0.shape, axis), axis), f0.attrs))
  }

  // ---- records of datasets --------------------------------------------------------------

  /** Which error a failed read of several fields reports. */
  function FieldError(m: map<string, Result<Field, Error>>): Error {
    if exists n :: n in m && m[n] == Err(KeyError) then KeyError
    else if exists n :: n in m && m[n] == Err(IndexError) then IndexError
    else ValueError
  }

  function Collect(m: map<string, Result<Field, Error>>): Result<map<string, Field>, Error> {
    if forall n :: n in m ==> m[n].Ok? then Ok(map n | n in m && m[n].Ok? :: m[n].value) else Err(FieldError(m))
  }

  function SliceFields(fs: map<string, Field>, td: string, rec: int): map<string, Result<Field, Error>>
    requires forall n :: n in fs ==> fs[n].Valid()
  {
    map n | n in fs :: SliceField(fs[n], td, rec)
  }

  /** Record `rec` of every field; the time coordinate itself is dropped. */
  function SliceDataset(ds: Dataset, td: string, rec: int): (r: Result<Dataset, Error>)
    requires ds.Valid()
    ensures r.Ok? ==> r.value.Valid()
  {
    match (Collect(SliceFields(ds.variables, td, rec)), Collect(SliceFields(ds.coords - {td}, td, rec)))
    case (Ok(vs), Ok(cs)) => Ok(Dataset(vs, cs))
    case (Err(e), _) => Err(e)
    case (_, Err(e)) => Err(e)
  }

  function StackFields(fs0: map<string, Field>, fs1: map<string, Field>, td: string, rec0: nat, rec1: nat): map<string, Result<Field, Error>>
    requires (forall n :: n in fs0 ==> fs0[n].Valid()) && (forall n :: n in fs1 ==> fs1[n].Valid())
  {
    map n | n in fs0 :: if n in fs1 then StackTwo(fs0[n], fs1[n], td, rec0, rec1) else Err(KeyError)
  }

  /** 1970-01-01T00:00:00Z. */
  const EPOCH := 62_135_596_800_000_000

  /** Seconds since 1970 of an instant, exactly. */
  function EpochSeconds(t: int): Cell {
    Seconds((t - EPOCH) as real / 1_000_000.0)
  }

  /** The canonical two-entry time coordinate: the two anchors in seconds since 1970. */
  function TimeCoordinate(td: string, t0: int, t1: int): (f: Field)
    ensures f.Valid()
  {
    assert HasShape(Leaf(EpochSeconds(t0)), []) && HasShape(Leaf(EpochSeconds(t1)), []);
    Field([td], [2], Node([Leaf(EpochSeconds(t0)), Leaf(EpochSeconds(t1))]), map["units" := "seconds since 1970-01-01T00:00:00Z", "calendar" := "standard"])
  }

  /** Two records as one dataset: coordinates from the first file, the time one canonical. */
  function BracketDataset(file0: Dataset, rec0: nat, file1: Dataset, rec1: nat, td: string, t0: int, t1: int): (r: Result<Dataset, Error>)
    requires file0.Valid() && file1.Valid()
    ensures r.Ok? ==> r.value.Valid()
  {
    match Collect(StackFields(file0.variables, file1.variables, td, rec0, rec1))
    case Err(e) => Err(e)
    case Ok(vs) => Ok(Dataset(vs, (file0.coords - {td})[td := TimeCoordinate(td, t0, t1)]))
  }

  /** The length along time: the coordinate's, else some variable's that has it, else 0. */
  ghost function TimeLen(ds: Dataset, td: string): nat
    requires ds.Valid()
  {
    if td in ds.coords && td in ds.coords[td].dims then DimLength(ds.coords[td], td)
    else if CarriedBy(ds.variables, td) then
      var n :| n in ds.variables && td in ds.variables[n].dims;
      DimLength(ds.variables[n], td)
    else 0
  }

  /** The variables that have a time axis agree on its length. */
  ghost predicate EvenTime(ds: Dataset, td: string)
    requires ds.Valid()
  {
    forall n, m :: n in ds.variables && m in ds.variables && td in ds.variables[n].dims && td in ds.variables[m].dims ==>
      DimLength(ds.variables[n], td) == DimLength(ds.variables[m], td)
  }

  method TimeLength(ds: Dataset, td: string) returns (n: nat)
    requires ds.Valid() && EvenTime(ds, td)
    ensures n == TimeLen(ds, td)
  {
    hide Field.Valid, DimLength;
    if td in ds.coords && td in ds.coords[td].dims { return DimLength(ds.coords[td], td); }
    var rest := ds.variables.Keys;
    while rest != {}
      invariant rest <= ds.variables.Keys
      invariant forall k :: k in ds.variables && k !in rest ==> td !in ds.variables[k].dims
    {
      var k :| k in rest;
      if td in ds.variables[k].dims { return DimLength(ds.variables[k], td); }
      rest := rest - {k};
    }
    return 0;
  }

  // ---- which record ------------------------------------------------------------------

  /** The scan's best entry among the first `n`: the latest at or before `a` so far. */
  function Best(ts: seq<int>, a: int, n: nat): (b: Option<nat>)
    requires n <= |ts|
    ensures b.Some? ==> b.value < n
  {
    if n == 0 then None
    else
      var b := Best(ts, a, n - 1);
      if ts[n - 1] <= a && (b.None? || ts[n - 1] > ts[b.value]) then Some(n - 1) else b
  }

  /** The rule for an axis that spans the anchor: the latest time at or before it, the first
      in file order among equals. */
  ghost predicate IsLatest(ts: seq<int>, a: int, r: nat) {
    && r < |ts| && ts[r] <= a
    && (forall i :: 0 <= i < |ts| && ts[i] <= a ==> ts[i] <= ts[r])
    && (forall i :: 0 <= i < r ==> ts[i] != ts[r])
  }

  lemma {:induction false} BestIsLatest(ts: seq<int>, a: int, n: nat)
    requires n <= |ts|
    ensures Best(ts, a, n).None? <==> forall i :: 0 <= i < n ==> ts[i] > a
    ensures Best(ts, a, n).Some? ==> IsLatest(ts[..n], a, Best(ts, a, n).value)
  {
    if n > 0 { BestIsLatest(ts, a, n - 1); }
  }

  /** The first earliest entry: the fallback for an anchor before every time. */
  ghost predicate IsEarliest(ts: seq<int>, r: nat) {
    r < |ts| && (forall i :: 0 <= i < |ts| ==> ts[r] <= ts[i]) && (forall i :: 0 <= i < r ==> ts[i] > ts[r])
  }

  /** `_record_at_or_before`: any axis, sorted or not, with repeated times or without. */
  method RecordAtOrBefore(ts: seq<int>, a: int) returns (r: Option<nat>)
    ensures r.None? <==> ts == []
    ensures r.Some? && (exists i :: 0 <= i < |ts| && ts[i] <= a) ==> IsLatest(ts, a, r.value) && r == Best(ts, a, |ts|)
    ensures r.Some? && (forall i :: 0 <= i < |ts| ==> ts[i] > a) ==> IsEarliest(ts, r.value)
  {
    if ts == [] { return None; }
    var best: Option<nat> := None;
    var i := 0;
    while i < |ts|
      invariant i <= |ts| && best == Best(ts, a, i)
    {
      if ts[i] <= a && (best.None? || ts[i] > ts[best.value]) { best := Some(i); }
      i := i + 1;
    }
    BestIsLatest(ts, a, |ts|);
    assert ts[..|ts|] == ts;
    if best.Some? { return best; }
    var low := 0;
    i := 1;
    while i < |ts|
      invariant low < i <= |ts|
      invariant forall j :: 0 <= j < i ==> ts[low] <= ts[j]
      invariant forall j :: 0 <= j < low ==> ts[j] > ts[low]
    {
      if ts[i] < ts[low] { low := i; }
      i := i + 1;
    }
    return Some(low);
  }

  /** The anchor lies between the axis's earliest and latest times. */
  predicate Spans(ts: seq<int>, a: int) {
    (exists i :: 0 <= i < |ts| && ts[i] <= a) && (exists i :: 0 <= i < |ts| && ts[i] >= a)
  }

  /** A file's decoded time axis: of the time coordinate, when it has one that decodes. */
  function AxisOf(times: Field -> Option<seq<int>>, ds: Dataset, td: string): Option<seq<int>> {
    if td in ds.coords then times(ds.coords[td]) else None
  }

  /** The record of `anchor` in the file that covers it. */
  ghost function RecordIndex(times: Field -> Option<seq<int>>, ds: Dataset, s: SourceTemporal, anchor: int): (r: nat)
    requires s.Valid() && s.IsRecordAnchor(anchor)
  {
    var axis := AxisOf(times, ds, s.timeDim);
    if axis.Some? && Spans(axis.value, anchor) then
      BestIsLatest(axis.value, anchor, |axis.value|);
      Best(axis.value, anchor, |axis.value|).value
    else
      RecordOfAnchor(s, anchor);
      s.RecordInFile(anchor, s.FileAnchor(anchor))
  }

  /** The rule, stated on its own: a spanning axis decides, else the cadence offset. */
  ghost predicate RuleRecord(axis: Option<seq<int>>, s: SourceTemporal, anchor: int, r: nat)
    requires s.Valid()
  {
    if axis.Some? && (exists i :: 0 <= i < |axis.value| && axis.value[i] <= anchor) && (exists i :: 0 <= i < |axis.value| && anchor <= axis.value[i])
    then IsLatest(axis.value, anchor, r)
    else r == s.RecordInFile(anchor, s.FileAnchor(anchor))
  }

  lemma AxisIs(times: Field -> Option<seq<int>>, ds: Dataset, td: string)
    ensures AxisOf(times, ds, td) == if td in ds.coords then times(ds.coords[td]) else None
  {
  }

  /** The record chosen is the one the rule names, and the rule names only one. */
  lemma RecordFollowsRule(times: Field -> Option<seq<int>>, ds: Dataset, s: SourceTemporal, anchor: int, r: nat)
    requires s.Valid() && s.IsRecordAnchor(anchor)
    ensures RuleRecord(if s.timeDim in ds.coords then times(ds.coords[s.timeDim]) else None, s, anchor, r) <==> r == RecordIndex(times, ds, s, anchor)
    ensures AxisOf(times, ds, s.timeDim) == if s.timeDim in ds.coords then times(ds.coords[s.timeDim]) else None
  {
    AxisIs(times, ds, s.timeDim);
    hide SourceTemporal.RecordInFile, SourceTemporal.FileAnchor, SourceTemporal.IsRecordAnchor, SourceTemporal.Valid, AxisOf;
    var axis := AxisOf(times, ds, s.timeDim);
    if axis.Some? && Spans(axis.value, anchor) {
      var ts := axis.value;
      BestIsLatest(ts, anchor, |ts|);
      assert ts[..|ts|] == ts;
      var b := Best(ts, anchor, |ts|).value;
      if IsLatest(ts, anchor, r) {
        OneLatest(ts, anchor, r, b);
      }
    }
  }

  lemma OneLatest(ts: seq<int>, a: int, r: nat, b: nat)
    requires IsLatest(ts, a, r) && IsLatest(ts, a, b)
    ensures r == b
  {
    assert ts[r] == ts[b];
  }

  // ---- one sample ----------------------------------------------------------------------

  /** A loader bound to its files. `fetch` is a file fetched and decoded whole, or why that
      fails; `times` is the CF decode of a time coordinate. */
  datatype Loader = Loader(
    temporal: Option<SourceTemporal>,
    fetch: int -> Result<File, Error>,
    times: Field -> Option<seq<int>>,
    supportsSelection: bool,
    baked: Option<Window>)

  /** Every file a loader can decode is well formed, its time coordinate has no other axis,
      and a baked window is a mapping. */
  ghost predicate ValidLoader(l: Loader) {
    && (l.temporal.Some? ==> l.temporal.value.Valid())
    && (forall fa :: l.fetch(fa).Ok? ==> l.fetch(fa).value.Valid() && (l.temporal.Some? ==> OwnTime(l.fetch(fa).value.dataset, l.temporal.value.timeDim)))
    && (l.baked.Some? ==> ValidWindow(l.baked.value))
  }

  ghost predicate OwnTime(ds: Dataset, td: string) {
    td in ds.coords ==> forall k :: 0 <= k < |ds.coords[td].dims| ==> ds.coords[td].dims[k] == td
  }

  /** A file as this loader reads it, under the given window or else the baked one. */
  function Decode(l: Loader, fa: int, select: Option<Window>): (r: Result<Dataset, Error>)
    requires l.fetch(fa).Ok? ==> l.fetch(fa).value.Valid()
    ensures r.Ok? ==> r.value.Valid()
  {
    var effective := if select.Some? then select else l.baked;
    if effective.Some? && !l.supportsSelection then Err(ValueError)
    else match l.fetch(fa)
      case Err(e) => Err(e)
      case Ok(file) =>
        if effective.None? then FileIsValid(file); Ok(file.dataset)
        else ReadNamedValid(file, effective.value); ReadNamed(file, effective.value)
  }

  lemma FileIsValid(file: File)
    requires file.Valid()
    ensures file.dataset.Valid()
  {
  }

  lemma ReadNamedValid(file: File, w: Window)
    requires file.Valid()
    ensures ReadNamed(file, w).Ok? ==> ReadNamed(file, w).value.Valid()
  {
  }

  /** What reading file anchors gives: the caller decides whether it is buffered. */
  type Files = f: int -> Result<Dataset, Error> | GoodFiles(f) witness NO_FILES

  const NO_FILES: int -> Result<Dataset, Error> := fa => Err(CacheMiss)

  ghost predicate GoodFiles(f: int -> Result<Dataset, Error>) {
    forall fa :: f(fa).Ok? ==> f(fa).value.Valid()
  }

  ghost predicate HasSuccessor(s: SourceTemporal, anchor: int)
    requires s.Valid()
  {
    s.end.None? || s.NextRecordAnchor(anchor) < s.end.value
  }

  /** The successor's dataset and record, when its file reads and holds that record. */
  ghost function Successor(l: Loader, s: SourceTemporal, anchor: int, files: Files): (r: Option<(Dataset, nat)>)
    requires s.Valid() && s.IsRecordAnchor(anchor)
    ensures r.Some? ==> r.value.0.Valid()
  {
    RecordAnchorSnaps(s, anchor, anchor);
    var next := s.NextRecordAnchor(anchor);
    if !HasSuccessor(s, anchor) then None
    else match files(s.FileAnchor(next))
      case Err(_) => None
      case Ok(file1) =>
        var r1 := RecordIndex(l.times, file1, s, next);
        if r1 < TimeLen(file1, s.timeDim) then Some((file1, r1)) else None
  }

  /** The records of `anchor` and of the next one; without a reachable successor the first
      is held at both ends. */
  ghost function SampleBracket(l: Loader, s: SourceTemporal, anchor: int, files: Files): (r: Result<Dataset, Error>)
    requires s.Valid() && s.IsRecordAnchor(anchor)
    ensures r.Ok? ==> r.value.Valid()
  {
    match files(s.FileAnchor(anchor))
    case Err(e) => Err(e)
    case Ok(file0) =>
      var rec0 := RecordIndex(l.times, file0, s, anchor);
      match Successor(l, s, anchor, files)
      case None => BracketDataset(file0, rec0, file0, rec0, s.timeDim, anchor, anchor)
      case Some((file1, rec1)) => BracketDataset(file0, rec0, file1, rec1, s.timeDim, anchor, s.NextRecordAnchor(anchor))
  }

  ghost function SampleSlice(l: Loader, s: SourceTemporal, anchor: int, files: Files): (r: Result<Dataset, Error>)
    requires s.Valid() && s.IsRecordAnchor(anchor)
    ensures r.Ok? ==> r.value.Valid()
  {
    match files(s.FileAnchor(anchor))
    case Err(e) => Err(e)
    case Ok(file0) => SliceDataset(file0, s.timeDim, RecordIndex(l.times, file0, s, anchor))
  }

  /** The one sampling path, over whatever supplies the files. */
  ghost function Sample(l: Loader, t: int, files: Files): (r: Result<Dataset, Error>)
    requires ValidLoader(l)
    ensures r.Ok? ==> r.value.Valid()
  {
    match l.temporal
    case None => files(EPOCH)
    case Some(s) =>
      var anchor := s.RecordAnchor(t);
      RecordAnchorSnaps(s, t, t);
      if anchor < s.start.Instant() then Err(ValueError)
      else if s.recordsPerSample == 2 then SampleBracket(l, s, anchor, files)
      else SampleSlice(l, s, anchor, files)
  }

  /** Files decoded afresh on every call. */
  ghost function FreshFiles(l: Loader, select: Option<Window>): Files
    requires ValidLoader(l)
  {
    fa => Decode(l, fa, select)
  }

  /** `sample_at`: no buffer is read or written. */
  ghost function SampleAt(l: Loader, t: int): (r: Result<Dataset, Error>)
    requires ValidLoader(l)
  {
    Sample(l, t, FreshFiles(l, None))
  }

  /** Over any files, a sample depends on its time only through the anchor it snaps to. */
  lemma SameSample(l: Loader, t: int, u: int, files: Files)
    requires ValidLoader(l) && l.temporal.Some? && l.temporal.value.RecordAnchor(t) == l.temporal.value.RecordAnchor(u)
    ensures Sample(l, t, files) == Sample(l, u, files)
  {
    hide SampleSlice, SampleBracket, SourceTemporal.RecordAnchor;
  }

  /** A sample depends on its time only through the anchor the time snaps to. */
  lemma SampleByAnchor(l: Loader, t: int, u: int)
    requires ValidLoader(l)
    requires l.temporal.Some? ==> l.temporal.value.RecordAnchor(t) == l.temporal.value.RecordAnchor(u)
    ensures SampleAt(l, t) == SampleAt(l, u)
  {
  }
}
