/** Samples against the record rule stated on its own: the axis decides when it spans the
    anchor, the cadence offset otherwise, and a bracket's second record is the next anchor's. */
module BracketRule {
  import opened Wrappers
  import opened NativeData
  import opened Arrays
  import opened Calendar
  import opened Selection
  import opened Temporal
  import opened Sampling

  /** Entry `e` of `g` along axis `k` is record `r` of `f`. */
  ghost predicate IsRecordOf(g: Field, e: nat, f: Field, k: nat, r: nat) {
    && g.Valid() && f.Valid() && k < |g.shape| && e < g.shape[k] && k < |f.shape| && r < f.shape[k]
    && DropAxis(g.data, g.shape, k, e) == DropAxis(f.data, f.shape, k, r)
  }

  lemma StackHolds(f0: Field, f1: Field, td: string, rec0: nat, rec1: nat)
    requires f0.Valid() && f1.Valid() && td in f0.dims && StackTwo(f0, f1, td, rec0, rec1).Ok?
    ensures var g, k := StackTwo(f0, f1, td, rec0, rec1).value, IndexOf(f0.dims, td);
            g.dims == f0.dims && g.attrs == f0.attrs && k < |f0.shape| && g.shape == f0.shape[k := 2] && IsRecordOf(g, 0, f0, k, rec0) && IsRecordOf(g, 1, f1, k, rec1)
  {
    hide DropAxis, Stack2, HasShape, Without;
    var k := IndexOf(f0.dims, td);
    PutBack(f0.shape, k, 2);
    DropStack(DropAxis(f0.data, f0.shape, k, rec0), DropAxis(f1.data, f1.shape, k, rec1), Without(f0.shape, k), k);
  }

  /** The successor by the rule: the record `r1` of the next anchor, when there is such an
      anchor, its file reads, and the record is inside it. */
  ghost predicate HasNext(s: SourceTemporal, anchor: int, second: Result<Dataset, Error>, r1: nat)
    requires s.Valid() && (second.Ok? ==> second.value.Valid())
  {
    (s.end.None? || s.NextRecordAnchor(anchor) < s.end.value) && second.Ok? && r1 < TimeLen(second.value, s.timeDim)
  }

  /** What a bracket must hold of each variable. */
  ghost predicate BracketVariable(g: Field, f0: Field, f1: Field, td: string, r0: nat, r1: nat) {
    if td !in f0.dims then g == f0
    else
      var k := IndexOf(f0.dims, td);
      g.dims == f0.dims && g.attrs == f0.attrs && k < |f0.shape| && g.shape == f0.shape[k := 2] && IsRecordOf(g, 0, f0, k, r0) && IsRecordOf(g, 1, f1, k, r1)
  }

  /** The time axis of a bracket: two entries along its own dimension, in seconds since 1970. */
  ghost predicate IsTimeAxis(f: Field, td: string, t0: int, t1: int) {
    && f.dims == [td] && f.shape == [2] && f.data.Node? && |f.data.items| == 2
    && f.data.items[0] == Leaf(Seconds((t0 - DateTime(1970, 1, 1, 0).Instant()) as real / 1_000_000.0))
    && f.data.items[1] == Leaf(Seconds((t1 - DateTime(1970, 1, 1, 0).Instant()) as real / 1_000_000.0))
    && f.attrs == map["units" := "seconds since 1970-01-01T00:00:00Z", "calendar" := "standard"]
  }

  lemma TimeCoordinateIs(td: string, t0: int, t1: int)
    ensures IsTimeAxis(TimeCoordinate(td, t0, t1), td, t0, t1)
  {
    EpochIs1970();
    hide DateTime.Instant;
  }

  lemma EpochIs1970()
    ensures DateTime(1970, 1, 1, 0).Instant() == EPOCH
  {
  }

  /** Shapes that let record `r0` of one array be stacked with record `r1` of another: both
      records exist, and every other axis has the same length in both. */
  ghost predicate Aligned(dims: seq<string>, shape0: seq<nat>, shape1: seq<nat>, td: string, r0: nat, r1: nat)
    requires |dims| == |shape0|
  {
    td in dims ==>
      var k := IndexOf(dims, td);
      && |shape1| == |shape0| && r0 < shape0[k] && r1 < shape1[k]
      && forall j :: 0 <= j < |shape0| && j != k ==> shape0[j] == shape1[j]
  }

  /** Two records stack exactly when the shapes are aligned; the names of the second array's
      axes are never looked at. */
  lemma StackIff(f0: Field, f1: Field, td: string, r0: nat, r1: nat)
    requires f0.Valid() && f1.Valid()
    ensures StackTwo(f0, f1, td, r0, r1).Ok? <==> Aligned(f0.dims, f0.shape, f1.shape, td, r0, r1)
  {
    hide DropAxis, Stack2, HasShape, Without;
    if td in f0.dims {
      var k := IndexOf(f0.dims, td);
      if k < |f1.shape| { OtherAxes(f0.shape, f1.shape, k); }
    }
  }

  lemma OtherAxes(a: seq<nat>, b: seq<nat>, k: nat)
    requires k < |a| && k < |b|
    ensures Without(a, k) == Without(b, k) <==> |a| == |b| && forall j :: 0 <= j < |a| && j != k ==> a[j] == b[j]
  {
    WithoutAt(a, k);
    WithoutAt(b, k);
    hide Without;
    var x, y := Without(a, k), Without(b, k);
    if x == y {
      forall j | 0 <= j < |a| && j != k
        ensures a[j] == b[j]
      {
        var i := if j < k then j else j - 1;
        assert x[i] == y[i];
      }
    } else if |a| == |b| {
      var i :| 0 <= i < |x| && x[i] != y[i];
      assert a[Past(i, k)] != b[Past(i, k)];
    }
  }

  /** Every variable of the first dataset is in the second, with aligned shapes. */
  ghost predicate Stacks(d0: Dataset, d1: Dataset, td: string, r0: nat, r1: nat)
    requires d0.Valid()
  {
    forall n :: n in d0.variables ==>
      n in d1.variables && Aligned(d0.variables[n].dims, d0.variables[n].shape, d1.variables[n].shape, td, r0, r1)
  }

  lemma BracketIff(d0: Dataset, d1: Dataset, r0: nat, r1: nat, td: string, t0: int, t1: int)
    requires d0.Valid() && d1.Valid()
    ensures BracketDataset(d0, r0, d1, r1, td, t0, t1).Ok? <==> Stacks(d0, d1, td, r0, r1)
  {
    hide StackTwo, TimeCoordinate, HasShape, FieldError, Aligned;
    var a := StackFields(d0.variables, d1.variables, td, r0, r1);
    assert forall n :: n in a <==> n in d0.variables;
    forall n | n in d0.variables
      ensures a[n].Ok? <==> n in d1.variables && Aligned(d0.variables[n].dims, d0.variables[n].shape, d1.variables[n].shape, td, r0, r1)
    {
      if n in d1.variables { StackIff(d0.variables[n], d1.variables[n], td, r0, r1); }
    }
  }

  /** A record held at both ends only has to exist. */
  lemma HeldIff(d: Dataset, td: string, r: nat)
    requires d.Valid()
    ensures Stacks(d, d, td, r, r) <==> forall n :: n in d.variables ==> HasRecord(d.variables[n], td, r)
  {
    hide HasShape;
  }

  /** What a two-record sample needs: the anchor's file reads, and either the next record is
      there and every variable stacks with it, or it is not and the record itself exists. */
  ghost predicate CanBracket(first: Result<Dataset, Error>, second: Result<Dataset, Error>, found: bool, td: string, r0: nat, r1: nat)
    requires (first.Ok? ==> first.value.Valid()) && (found ==> second.Ok?)
  {
    first.Ok? &&
    if found then Stacks(first.value, second.value, td, r0, r1)
    else forall n :: n in first.value.variables ==> HasRecord(first.value.variables[n], td, r0)
  }

  lemma BracketIs(l: Loader, s: SourceTemporal, anchor: int, files: Files, r0: nat, r1: nat)
    requires s.Valid() && s.IsRecordAnchor(anchor)
    requires files(s.FileAnchor(anchor)).Ok? ==> RuleRecord(AxisOf(l.times, files(s.FileAnchor(anchor)).value, s.timeDim), s, anchor, r0)
    requires var next := s.NextRecordAnchor(anchor);
             files(s.FileAnchor(next)).Ok? ==> RuleRecord(AxisOf(l.times, files(s.FileAnchor(next)).value, s.timeDim), s, next, r1)
    ensures var first, second := files(s.FileAnchor(anchor)), files(s.FileAnchor(s.NextRecordAnchor(anchor)));
            SampleBracket(l, s, anchor, files).Ok? <==> CanBracket(first, second, HasNext(s, anchor, second, r1), s.timeDim, r0, r1)
    ensures SampleBracket(l, s, anchor, files).Ok? ==>
            files(s.FileAnchor(anchor)).Ok? &&
            var b, file0, td := SampleBracket(l, s, anchor, files).value, files(s.FileAnchor(anchor)).value, s.timeDim;
            var second := files(s.FileAnchor(s.NextRecordAnchor(anchor)));
            var found := HasNext(s, anchor, second, r1);
            && b.variables.Keys == file0.variables.Keys
            && (forall n :: n in b.variables ==>
                  (found ==> n in second.value.variables)
                  && BracketVariable(b.variables[n], file0.variables[n], if found then second.value.variables[n] else file0.variables[n], td, r0, if found then r1 else r0))
            && b.coords == (file0.coords - {td})[td := TimeCoordinate(td, anchor, if found then s.NextRecordAnchor(anchor) else anchor)]
  {
    hide RecordIndex, TimeLen, StackTwo, TimeCoordinate, RuleRecord, Field.Valid, IndexOf, SourceTemporal.FileAnchor, SourceTemporal.IsRecordAnchor, SourceTemporal.NextRecordAnchor, BracketVariable,
         FieldError, BracketDataset, Stacks, HasRecord;
    RecordAnchorSnaps(s, anchor, anchor);
    var next, td := s.NextRecordAnchor(anchor), s.timeDim;
    var first, second := files(s.FileAnchor(anchor)), files(s.FileAnchor(next));
    if first.Ok? {
      RecordFollowsRule(l.times, first.value, s, anchor, r0);
      if second.Ok? { RecordFollowsRule(l.times, second.value, s, next, r1); }
      if HasNext(s, anchor, second, r1) {
        BracketIff(first.value, second.value, r0, r1, td, anchor, next);
        if SampleBracket(l, s, anchor, files).Ok? { BracketHolds(first.value, second.value, r0, r1, td, anchor, next); }
      } else {
        BracketIff(first.value, first.value, r0, r0, td, anchor, anchor);
        HeldIff(first.value, td, r0);
        if SampleBracket(l, s, anchor, files).Ok? { BracketHolds(first.value, first.value, r0, r0, td, anchor, anchor); }
      }
    }
  }

  /** A two-record sample, for any axes. It succeeds exactly when it can; then entry 0 of
      every variable is the record the rule names for the anchor, entry 1 the one it names for
      the next anchor, in the file that covers it, or entry 0 again when there is none, and
      the times are those two anchors. */
  lemma BracketFollowsRule(l: Loader, s: SourceTemporal, anchor: int, files: Files, r0: nat, r1: nat)
    requires s.Valid() && s.IsRecordAnchor(anchor)
    requires files(s.FileAnchor(anchor)).Ok? ==> RuleRecord(AxisOf(l.times, files(s.FileAnchor(anchor)).value, s.timeDim), s, anchor, r0)
    requires var next := s.NextRecordAnchor(anchor);
             files(s.FileAnchor(next)).Ok? ==> RuleRecord(AxisOf(l.times, files(s.FileAnchor(next)).value, s.timeDim), s, next, r1)
    ensures var first, second := files(s.FileAnchor(anchor)), files(s.FileAnchor(s.NextRecordAnchor(anchor)));
            SampleBracket(l, s, anchor, files).Ok? <==> CanBracket(first, second, HasNext(s, anchor, second, r1), s.timeDim, r0, r1)
    ensures SampleBracket(l, s, anchor, files).Ok? ==>
            files(s.FileAnchor(anchor)).Ok? &&
            var b, file0, td := SampleBracket(l, s, anchor, files).value, files(s.FileAnchor(anchor)).value, s.timeDim;
            var second := files(s.FileAnchor(s.NextRecordAnchor(anchor)));
            var found := HasNext(s, anchor, second, r1);
            && b.variables.Keys == file0.variables.Keys
            && (forall n :: n in b.variables ==>
                  (found ==> n in second.value.variables)
                  && BracketVariable(b.variables[n], file0.variables[n], if found then second.value.variables[n] else file0.variables[n], td, r0, if found then r1 else r0))
            && b.coords.Keys == file0.coords.Keys + {td} && (forall n :: n in file0.coords && n != td ==> b.coords[n] == file0.coords[n])
            && IsTimeAxis(b.coords[td], td, anchor, if found then s.NextRecordAnchor(anchor) else anchor)
  {
    hide RuleRecord, TimeCoordinate, SampleBracket, CanBracket, HasNext, BracketVariable, SourceTemporal.FileAnchor, SourceTemporal.IsRecordAnchor, SourceTemporal.NextRecordAnchor,
         SourceTemporal.Valid, IsTimeAxis;
    BracketIs(l, s, anchor, files, r0, r1);
    TimeCoordinateIs(s.timeDim, anchor, s.NextRecordAnchor(anchor));
    TimeCoordinateIs(s.timeDim, anchor, anchor);
  }

  // ---- what a sample reads, and how long time is --------------------------------------------

  /** A file is read under the window of the call, or else under the baked one, or else whole;
      a window for a reader that takes none is refused before the file is fetched. */
  lemma DecodeIs(l: Loader, fa: int, select: Option<Window>)
    requires ValidLoader(l)
    ensures (select.Some? || l.baked.Some?) && !l.supportsSelection ==> Decode(l, fa, select) == Err(ValueError)
    ensures l.fetch(fa).Err? && ((select.None? && l.baked.None?) || l.supportsSelection) ==> Decode(l, fa, select) == Err(l.fetch(fa).error)
    ensures l.fetch(fa).Ok? && select.Some? && l.supportsSelection ==> Decode(l, fa, select) == ReadNamed(l.fetch(fa).value, select.value)
    ensures l.fetch(fa).Ok? && select.None? && l.baked.Some? && l.supportsSelection ==> Decode(l, fa, select) == ReadNamed(l.fetch(fa).value, l.baked.value)
    ensures l.fetch(fa).Ok? && select.None? && l.baked.None? ==> Decode(l, fa, select) == Ok(l.fetch(fa).value.dataset)
  {
    hide ReadNamed, SourceTemporal.Valid, OwnTime, ValidWindow;
  }

  /** A sample is the constant source's one file, read at 1970; or, of a source with a cadence,
      refused before the source's start, and from there on the slice or the bracket of the
      anchor the time lies at or after, up to the next. */
  lemma SampleMeans(l: Loader, t: int, files: Files)
    requires ValidLoader(l)
    ensures l.temporal.None? ==> Sample(l, t, files) == files(DateTime(1970, 1, 1, 0).Instant())
    ensures l.temporal.Some? && t < l.temporal.value.start.Instant() ==> Sample(l, t, files) == Err(ValueError)
    ensures l.temporal.Some? && l.temporal.value.start.Instant() <= t ==>
              var s := l.temporal.value;
              s.Valid() && forall a :: s.IsRecordAnchor(a) && a <= t < s.NextRecordAnchor(a) ==>
                Sample(l, t, files) == if s.recordsPerSample == 1 then SampleSlice(l, s, a, files) else SampleBracket(l, s, a, files)
  {
    hide DateTime.Instant, SampleSlice, SampleBracket, SourceTemporal.RecordAnchor, SourceTemporal.NextRecordAnchor;
    if l.temporal.None? {
      EpochIs1970();
    } else {
      StartComesFirst(l.temporal.value, t);
      forall a | l.temporal.value.IsRecordAnchor(a) && a <= t < l.temporal.value.NextRecordAnchor(a)
        ensures a == l.temporal.value.RecordAnchor(t)
      {
        OneAnchor(l.temporal.value, a, t);
      }
    }
  }

  /** The start is an anchor, so a time is before it exactly when its anchor is. */
  lemma StartComesFirst(s: SourceTemporal, t: int)
    requires s.Valid()
    ensures s.RecordAnchor(t) < s.start.Instant() <==> t < s.start.Instant()
  {
    hide DateTime.Instant, Period.Anchor, Period.Floor;
    StartIsAnchorZero(s.frequency, s.start);
    RecordAnchorSnaps(s, s.start.Instant(), t);
    RecordAnchorSnaps(s, t, t);
  }

  lemma OneAnchor(s: SourceTemporal, a: int, t: int)
    requires s.Valid() && s.IsRecordAnchor(a) && a <= t < s.NextRecordAnchor(a)
    ensures a == s.RecordAnchor(t)
  {
    hide DateTime.Instant, Period.Anchor, Period.Floor;
    RecordAnchorSnaps(s, a, t);
    RecordAnchorSnaps(s, t, t);
  }

  /** The length along time is that of the time coordinate's own axis of that name; without
      one, of some variable's; and nothing where no field has such an axis. */
  lemma TimeLenMeans(ds: Dataset, td: string)
    requires ds.Valid()
    ensures td in ds.coords && td in ds.coords[td].dims ==> AxisLength(ds.coords[td], td, TimeLen(ds, td))
    ensures !(td in ds.coords && td in ds.coords[td].dims) && (exists n :: n in ds.variables && td in ds.variables[n].dims) ==>
              exists n :: n in ds.variables && AxisLength(ds.variables[n], td, TimeLen(ds, td))
    ensures !(td in ds.coords && td in ds.coords[td].dims) && !(exists n :: n in ds.variables && td in ds.variables[n].dims) ==> TimeLen(ds, td) == 0
  {
    hide HasShape;
    if td in ds.coords && td in ds.coords[td].dims {
      assert ds.coords[td].dims[IndexOf(ds.coords[td].dims, td)] == td;
    } else if n :| n in ds.variables && td in ds.variables[n].dims {
      TimeLenOfVariable(ds, td);
    }
  }

  /** The axis of `f` named `d` is `n` long. */
  ghost predicate AxisLength(f: Field, d: string, n: nat) {
    exists k :: 0 <= k < |f.dims| && k < |f.shape| && f.dims[k] == d && f.shape[k] == n
  }

  lemma TimeLenOfVariable(ds: Dataset, td: string)
    requires ds.Valid() && !(td in ds.coords && td in ds.coords[td].dims) && exists n :: n in ds.variables && td in ds.variables[n].dims
    ensures exists n :: n in ds.variables && AxisLength(ds.variables[n], td, TimeLen(ds, td))
  {
    hide HasShape;
    assert CarriedBy(ds.variables, td);
    var n :| n in ds.variables && td in ds.variables[n].dims && TimeLen(ds, td) == DimLength(ds.variables[n], td);
    assert ds.variables[n].dims[IndexOf(ds.variables[n].dims, td)] == td;
  }

  /** The second file continues the first: the same variables on the same grid, each as long
      in time as the file is. */
  ghost predicate OneGrid(d0: Dataset, d1: Dataset, td: string)
    requires d0.Valid() && d1.Valid()
  {
    forall n :: n in d0.variables ==> n in d1.variables && (td in d0.variables[n].dims ==> Continues(d0.variables[n], d1.variables[n], td, TimeLen(d1, td)))
  }

  ghost predicate Continues(f0: Field, f1: Field, td: string, length: nat)
    requires f0.Valid() && td in f0.dims
  {
    var k := IndexOf(f0.dims, td);
    |f1.shape| == |f0.shape| && f1.shape[k] == length && forall j :: 0 <= j < |f0.shape| && j != k ==> f0.shape[j] == f1.shape[j]
  }

  /** On one grid a next record that is found never fails a sample: it succeeds exactly when
      the anchor's own record exists. */
  lemma OneGridNeedsOneRecord(first: Result<Dataset, Error>, second: Result<Dataset, Error>, s: SourceTemporal, anchor: int, r0: nat, r1: nat)
    requires s.Valid() && (first.Ok? ==> first.value.Valid()) && (second.Ok? ==> second.value.Valid())
    requires first.Ok? && second.Ok? ==> OneGrid(first.value, second.value, s.timeDim)
    ensures CanBracket(first, second, HasNext(s, anchor, second, r1), s.timeDim, r0, r1)
       <==> first.Ok? && forall n :: n in first.value.variables ==> HasRecord(first.value.variables[n], s.timeDim, r0)
  {
    hide HasShape, TimeLen, SourceTemporal.NextRecordAnchor, SourceTemporal.Valid;
  }

  lemma BracketHolds(d0: Dataset, d1: Dataset, r0: nat, r1: nat, td: string, t0: int, t1: int)
    requires d0.Valid() && d1.Valid() && BracketDataset(d0, r0, d1, r1, td, t0, t1).Ok?
    ensures var b := BracketDataset(d0, r0, d1, r1, td, t0, t1).value;
            && b.variables.Keys == d0.variables.Keys
            && (forall n :: n in b.variables ==> n in d1.variables && BracketVariable(b.variables[n], d0.variables[n], d1.variables[n], td, r0, r1))
            && b.coords == (d0.coords - {td})[td := TimeCoordinate(td, t0, t1)]
  {
    hide StackTwo, TimeCoordinate, Field.Valid, IndexOf, FieldError, IsRecordOf;
    var a := StackFields(d0.variables, d1.variables, td, r0, r1);
    var b := BracketDataset(d0, r0, d1, r1, td, t0, t1).value;
    assert forall n :: n in b.variables <==> n in d0.variables;
    forall n | n in b.variables
      ensures n in d1.variables && BracketVariable(b.variables[n], d0.variables[n], d1.variables[n], td, r0, r1)
    {
      assert n in a && a[n].Ok?;
      if td in d0.variables[n].dims {
        StackHolds(d0.variables[n], d1.variables[n], td, r0, r1);
      } else {
        StackPasses(d0.variables[n], d1.variables[n], td, r0, r1);
      }
    }
  }

  lemma StackPasses(f0: Field, f1: Field, td: string, rec0: nat, rec1: nat)
    requires f0.Valid() && f1.Valid() && td !in f0.dims
    ensures StackTwo(f0, f1, td, rec0, rec1) == Ok(f0)
  {
  }

  /** A one-record sample: it succeeds exactly when the file reads and every field with a
      time axis has the record the rule names; each is then that record. */
  lemma SliceFollowsRule(l: Loader, s: SourceTemporal, anchor: int, files: Files, r: nat)
    requires s.Valid() && s.IsRecordAnchor(anchor) && files(s.FileAnchor(anchor)).Ok?
    requires RuleRecord(AxisOf(l.times, files(s.FileAnchor(anchor)).value, s.timeDim), s, anchor, r)
    ensures var file, td := files(s.FileAnchor(anchor)).value, s.timeDim;
            && (SampleSlice(l, s, anchor, files).Ok? <==>
                  (forall n :: n in file.variables ==> HasRecord(file.variables[n], td, r)) && (forall n :: n in file.coords && n != td ==> HasRecord(file.coords[n], td, r)))
            && (SampleSlice(l, s, anchor, files).Ok? ==>
                  var d := SampleSlice(l, s, anchor, files).value;
                  && d.variables.Keys == file.variables.Keys && d.coords.Keys == file.coords.Keys - {td}
                  && (forall n :: n in d.variables ==> IsSlice(d.variables[n], file.variables[n], td, r))
                  && (forall n :: n in d.coords ==> IsSlice(d.coords[n], file.coords[n], td, r)))
  {
    hide RecordIndex, RuleRecord, SourceTemporal.FileAnchor, SourceTemporal.IsRecordAnchor, SliceField, HasRecord, IsSlice, Field.Valid, Collect;
    var file, td := files(s.FileAnchor(anchor)).value, s.timeDim;
    RecordFollowsRule(l.times, file, s, anchor, r);
    FieldsFollow(file.variables, td, r);
    FieldsFollow(file.coords - {td}, td, r);
    assert forall n :: n in file.coords - {td} <==> n in file.coords && n != td;
  }

  // ---- why a sample fails ------------------------------------------------------------------------

  lemma SliceRefuses(fs: map<string, Field>, td: string, rec: int)
    requires forall n :: n in fs ==> fs[n].Valid()
    ensures Collect(SliceFields(fs, td, rec)).Err? ==> Collect(SliceFields(fs, td, rec)) == Err(IndexError)
  {
    hide DropAxis, HasShape, Without;
    var a := SliceFields(fs, td, rec);
    forall n | n in a && a[n].Err?
      ensures a[n] == Err(IndexError)
    {
    }
  }

  /** A one-record sample fails as its file does, or because a field has no such record. */
  lemma SliceFails(l: Loader, s: SourceTemporal, anchor: int, files: Files)
    requires s.Valid() && s.IsRecordAnchor(anchor)
    ensures files(s.FileAnchor(anchor)).Err? ==> SampleSlice(l, s, anchor, files) == files(s.FileAnchor(anchor))
    ensures files(s.FileAnchor(anchor)).Ok? && SampleSlice(l, s, anchor, files).Err? ==> SampleSlice(l, s, anchor, files) == Err(IndexError)
  {
    hide RecordIndex, SourceTemporal.FileAnchor, SourceTemporal.IsRecordAnchor, SourceTemporal.Valid, Collect, SliceFields;
    if files(s.FileAnchor(anchor)).Ok? {
      var file := files(s.FileAnchor(anchor)).value;
      SliceRefuses(file.variables, s.timeDim, RecordIndex(l.times, file, s, anchor));
      SliceRefuses(file.coords - {s.timeDim}, s.timeDim, RecordIndex(l.times, file, s, anchor));
    }
  }

  /** Along the first array's time axis, both arrays have the record asked of them. */
  ghost predicate BothRecords(f0: Field, f1: Field, td: string, r0: nat, r1: nat)
    requires f0.Valid() && f1.Valid() && td in f0.dims
  {
    var k := IndexOf(f0.dims, td);
    r0 < f0.shape[k] && k < |f1.shape| && r1 < f1.shape[k]
  }

  /** Why one variable keeps two records from being stacked: it is in one file only, a record
      does not exist, or another axis has another length. */
  ghost predicate Blames(e: Error, d0: Dataset, d1: Dataset, td: string, r0: nat, r1: nat, n: string)
    requires d0.Valid() && d1.Valid() && n in d0.variables
  {
    match e
    case KeyError => n !in d1.variables
    case IndexError => n in d1.variables && td in d0.variables[n].dims && !BothRecords(d0.variables[n], d1.variables[n], td, r0, r1)
    case ValueError => n in d1.variables && td in d0.variables[n].dims && BothRecords(d0.variables[n], d1.variables[n], td, r0, r1)
                       && !Aligned(d0.variables[n].dims, d0.variables[n].shape, d1.variables[n].shape, td, r0, r1)
    case _ => false
  }

  lemma StackBlames(d0: Dataset, d1: Dataset, td: string, r0: nat, r1: nat, n: string)
    requires d0.Valid() && d1.Valid() && n in d0.variables
    ensures var r := if n in d1.variables then StackTwo(d0.variables[n], d1.variables[n], td, r0, r1) else Err(KeyError);
            r.Err? ==> Blames(r.error, d0, d1, td, r0, r1, n)
  {
    hide HasShape, DropAxis, Stack2, Aligned, Without;
    if n in d1.variables { StackIff(d0.variables[n], d1.variables[n], td, r0, r1); }
  }

  /** Two records that do not stack fail with an error some variable is to blame for. */
  lemma BracketFails(d0: Dataset, d1: Dataset, r0: nat, r1: nat, td: string, t0: int, t1: int)
    requires d0.Valid() && d1.Valid() && BracketDataset(d0, r0, d1, r1, td, t0, t1).Err?
    ensures exists n :: n in d0.variables && Blames(BracketDataset(d0, r0, d1, r1, td, t0, t1).error, d0, d1, td, r0, r1, n)
  {
    hide StackTwo, TimeCoordinate, HasShape, Blames;
    var a := StackFields(d0.variables, d1.variables, td, r0, r1);
    assert forall n :: n in a <==> n in d0.variables;
    forall n | n in a && a[n].Err?
      ensures Blames(a[n].error, d0, d1, td, r0, r1, n) && (a[n].error == KeyError || a[n].error == IndexError || a[n].error == ValueError)
    {
      StackBlames(d0, d1, td, r0, r1, n);
      OneOfThree(a[n].error, d0, d1, td, r0, r1, n);
    }
    var n :| n in a && a[n].Err?;
  }

  lemma OneOfThree(e: Error, d0: Dataset, d1: Dataset, td: string, r0: nat, r1: nat, n: string)
    requires d0.Valid() && d1.Valid() && n in d0.variables && Blames(e, d0, d1, td, r0, r1, n)
    ensures e == KeyError || e == IndexError || e == ValueError
  {
  }

  ghost predicate HasRecord(f: Field, td: string, r: nat) {
    f.Valid() && (td in f.dims ==> r < DimLength(f, td))
  }

  /** `g` is record `r` of `f` with the time axis gone, or `f` itself when it has none. */
  ghost predicate IsSlice(g: Field, f: Field, td: string, r: nat) {
    if td !in f.dims then g == f
    else
      var k := IndexOf(f.dims, td);
      f.Valid() && r < f.shape[k] && g.dims == Without(f.dims, k) && g.shape == Without(f.shape, k) && g.data == DropAxis(f.data, f.shape, k, r) && g.attrs == f.attrs
  }

  lemma FieldsFollow(fs: map<string, Field>, td: string, r: nat)
    requires forall n :: n in fs ==> fs[n].Valid()
    ensures var c := Collect(SliceFields(fs, td, r));
            && (c.Ok? <==> forall n :: n in fs ==> HasRecord(fs[n], td, r))
            && (c.Ok? ==> c.value.Keys == fs.Keys && forall n :: n in c.value ==> IsSlice(c.value[n], fs[n], td, r))
  {
    hide FieldError, SliceField, HasRecord, IsSlice, Field.Valid;
    var a := SliceFields(fs, td, r);
    forall n | n in fs
      ensures n in a && (a[n].Ok? <==> HasRecord(fs[n], td, r)) && (a[n].Ok? ==> IsSlice(a[n].value, fs[n], td, r))
    {
      FieldFollows(fs[n], td, r);
    }
    assert forall n :: n in a <==> n in fs;
  }

  lemma FieldFollows(f: Field, td: string, r: nat)
    requires f.Valid()
    ensures SliceField(f, td, r).Ok? <==> HasRecord(f, td, r)
    ensures SliceField(f, td, r).Ok? ==> IsSlice(SliceField(f, td, r).value, f, td, r)
  {
    hide DropAxis, HasShape, Without;
  }
}
