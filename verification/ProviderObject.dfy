/** The provider as the object it is: buffers updated in place by refresh and materialize. */
module ProviderObject {
  import opened Wrappers
  import opened NativeData
  import opened Selection
  import opened Calendar
  import opened Temporal
  import opened Sampling
  import opened FilePair
  import opened ProviderModel

  class Provider {
    const loader: Loader
    const window: Option<int>
    var current: Option<Dataset>
    var currentAnchor: Option<int>
    var currentFile: Option<(int, Dataset)>
    var files: seq<(int, Dataset)>
    ghost var log: seq<int>

    ghost function View(): Buffers
      reads this
    {
      Buffers(currentFile, files, current, currentAnchor, log)
    }

    ghost predicate Valid()
      reads this
    {
      ValidLoader(loader) && GoodBuffers(loader, View())
    }

    constructor (l: Loader, w: Option<int>)
      requires ValidLoader(l)
      ensures loader == l && window == w && View() == Empty() && Valid()
    {
      loader, window := l, w;
      current, currentAnchor, currentFile, files, log := None, None, None, [], [];
    }

    /** The one file being stepped through, decoded again only when the file anchor changes;
        a failed read changes nothing. */
    method BufferedFile(fa: int, down: set<int>) returns (r: Result<Dataset, Error>)
      requires Valid()
      modifies this`currentFile, this`log
      ensures (View(), r) == ProviderModel.BufferedFile(loader, old(View()), fa, down)
      ensures Valid() && (r.Ok? ==> r.value.Valid())
    {
      GoodBufferedFile(loader, View(), fa, down);
      hide GoodBuffers, Decode;
      if currentFile.None? || currentFile.value.0 != fa {
        var read := Read(loader, fa, None, down);
        if read.Err? { return read; }
        currentFile := Some((fa, read.value));
        log := log + [fa];
      }
      return Ok(currentFile.value.1);
    }

    /** The pair buffer: a hit becomes the newest, a miss is decoded and the oldest beyond
        two is dropped. */
    method FileFor(fa: int, down: set<int>) returns (r: Result<Dataset, Error>)
      requires Valid()
      modifies this`files, this`log
      ensures (View(), r) == ProviderModel.FileFor(loader, old(View()), fa, down)
      ensures Valid() && (r.Ok? ==> r.value.Valid() && r == Read(loader, fa, None, {}))
    {
      hide GoodBuffers, Decode, Others, Kept, Keeps, Newest;
      GoodFileFor(loader, View(), fa, down);
      if Keeps(files, fa) {
        var ds := Kept(files, fa);
        files := Others(files, fa) + [(fa, ds)];
        return Ok(ds);
      }
      var read := Read(loader, fa, None, down);
      if read.Err? { return read; }
      files := files + [(fa, read.value)];
      log := log + [fa];
      GoodIsShort(loader, old(View()));
      DropOldest();
      return read;
    }

    /** Keep the newest two. */
    method DropOldest()
      requires |files| <= 3
      modifies this`files
      ensures files == Newest(old(files))
    {
      while |files| > 2
        invariant |files| <= |old(files)| && files == old(files)[|old(files)| - |files|..] && (|files| >= 2 || files == old(files))
        decreases |files|
      {
        files := files[1..];
      }
    }

    /** `refresh`: the sample at the cadence anchor of `t`, through the buffers; a per-call
        select is a peek that reads fresh. */
    method Refresh(t: int, select: Option<Window>, down: set<int>) returns (r: Result<Dataset, Error>)
      requires Valid()
      modifies this
      ensures Valid()
      ensures (View(), r) == ProviderModel.Refresh(loader, old(View()), t, select, down)
      ensures select.None? && NeededUp(loader, t, down) ==> r == SampleAt(loader, t)
      ensures if select.None? && r.Ok? then current == Some(r.value) && (loader.temporal.Some? ==> currentAnchor == Some(loader.temporal.value.RecordAnchor(t)))
              else current == old(current) && currentAnchor == old(currentAnchor)
    {
      RefreshKeeps(loader, View(), t, select, down);
      hide GoodBuffers, Decode, SampleSlice, SampleBracket, SourceTemporal.RecordAnchor, SourceTemporal.FileAnchor, SourceTemporal.IsRecordAnchor, SourceTemporal.NextRecordAnchor, SampleAt;
      RefreshIsSampleAt(loader, View(), t, select, down);
      if loader.temporal.None? {
        if select.None? && current.Some? { return Ok(current.value); }
        r := MaterializeConst(select, down);
        return;
      }
      if select.Some? {
        r := SampleFresh(loader, t, select, down);
        return;
      }
      var s := loader.temporal.value;
      var anchor := RecordAnchorAt(s, t);
      if anchor < s.start.Instant() { return Err(ValueError); }
      if s.recordsPerSample == 2 {
        r := RefreshTwo(s, anchor, down);
      } else {
        r := RefreshOne(s, anchor, down);
      }
    }

    method MaterializeConst(select: Option<Window>, down: set<int>) returns (r: Result<Dataset, Error>)
      requires Valid()
      modifies this`current
      ensures (View(), r) == ProviderModel.MaterializeConst(loader, old(View()), select, down)
    {
      r := Read(loader, EPOCH, select, down);
      if r.Ok? && select.None? { current := Some(r.value); }
    }

    method RefreshOne(s: SourceTemporal, anchor: int, down: set<int>) returns (r: Result<Dataset, Error>)
      requires Valid() && loader.temporal == Some(s) && s.Valid() && s.IsRecordAnchor(anchor)
      modifies this
      ensures (View(), r) == ProviderModel.RefreshOne(loader, s, old(View()), anchor, down)
    {
      hide GoodBuffers, Decode, SampleSlice, ProviderModel.BufferedFile, SourceTemporal.FileAnchor, SourceTemporal.IsRecordAnchor, SourceTemporal.Valid;
      var fa := FileAnchorAt(s, anchor);
      var first := BufferedFile(fa, down);
      r := SliceFrom(loader, s, anchor, first);
      if r.Ok? { current, currentAnchor := Some(r.value), Some(anchor); }
    }

    method RefreshTwo(s: SourceTemporal, anchor: int, down: set<int>) returns (r: Result<Dataset, Error>)
      requires Valid() && loader.temporal == Some(s) && s.Valid() && s.IsRecordAnchor(anchor)
      modifies this
      ensures (View(), r) == ProviderModel.RefreshTwo(loader, s, old(View()), anchor, down)
    {
      hide GoodBuffers, Decode, SampleBracket, ProviderModel.FileFor, SourceTemporal.FileAnchor, SourceTemporal.IsRecordAnchor, SourceTemporal.Valid, SourceTemporal.NextRecordAnchor, HasSuccessor, ValidLoader;
      var fa := FileAnchorAt(s, anchor);
      var next := NextRecordAnchorAt(s, anchor);
      var first := FileFor(fa, down);
      if first.Err? { return first; }
      var more := HasSuccessorAt(s, next, anchor);
      var second := first;
      var fb := FileAnchorAt(s, next);
      if more && fb != fa { second := FileFor(fb, down); }
      if second.Ok? { ReadIsEven(loader, s, if more && fb != fa then fb else fa, None, {}); }
      r := BracketFrom(loader, s, anchor, first.value, second);
      if r.Ok? { current, currentAnchor := Some(r.value), Some(anchor); }
    }

    /** `materialize`: a constant source is read, any other primed at the run window's start. */
    method Materialize(select: Option<Window>, down: set<int>) returns (r: Result<Dataset, Error>)
      requires Valid()
      modifies this
      ensures Valid()
      ensures (View(), r) == ProviderModel.Materialize(loader, window, old(View()), select, down)
    {
      hide GoodBuffers, Decode, ProviderModel.Refresh;
      if loader.temporal.None? {
        ConstStaysGood(loader, View(), select, down);
        r := MaterializeConst(select, down);
      } else {
        r := Refresh(LowerBound(loader.temporal.value, window), select, down);
      }
    }
  }

  lemma ConstStaysGood(l: Loader, b: Buffers, select: Option<Window>, down: set<int>)
    requires ValidLoader(l) && GoodBuffers(l, b) && l.temporal.None?
    ensures GoodBuffers(l, ProviderModel.MaterializeConst(l, b, select, down).0)
  {
    hide Decode, GoodLru;
  }

  lemma GoodIsShort(l: Loader, b: Buffers)
    requires GoodBuffers(l, b)
    ensures |b.lru| <= 2
  {
  }

  // ---- the cadence, computed ---------------------------------------------------------------

  method RecordAnchorAt(s: SourceTemporal, t: int) returns (a: int)
    requires s.Valid()
    ensures a == s.RecordAnchor(t) && s.IsRecordAnchor(a)
  {
    hide Period.Anchor, Period.Floor;
    var k, _ := FloorIndex(s.frequency, s.start, t);
    RecordAnchorSnaps(s, t, t);
    return s.frequency.Anchor(s.start, k);
  }

  method NextRecordAnchorAt(s: SourceTemporal, t: int) returns (a: int)
    requires s.Valid()
    ensures a == s.NextRecordAnchor(t) && s.IsRecordAnchor(a)
  {
    hide Period.Anchor, Period.Floor;
    var k, _ := FloorIndex(s.frequency, s.start, t);
    RecordAnchorSnaps(s, t, t);
    return s.frequency.Anchor(s.start, k + 1);
  }

  method FileAnchorAt(s: SourceTemporal, t: int) returns (a: int)
    requires s.Valid()
    ensures a == s.FileAnchor(t)
  {
    hide Period.Anchor, Period.Floor;
    var k, _ := FloorIndex(s.filePeriod, s.start, t);
    return s.filePeriod.Anchor(s.start, k);
  }

  method RecordInFileAt(s: SourceTemporal, anchor: int, fileAnchor: int) returns (r: int)
    requires s.Valid()
    ensures r == s.RecordInFile(anchor, fileAnchor)
  {
    hide Period.Anchor, Period.Floor, Period.Ceil;
    var k, _ := FloorIndex(s.frequency, s.start, anchor);
    var f, _ := FloorIndex(s.frequency, s.start, fileAnchor);
    CeilFromFloor(s.frequency, s.start, fileAnchor);
    return k - (if s.frequency.Anchor(s.start, f) == fileAnchor then f else f + 1);
  }

  method HasSuccessorAt(s: SourceTemporal, next: int, ghost anchor: int) returns (more: bool)
    requires s.Valid() && next == s.NextRecordAnchor(anchor)
    ensures more <==> HasSuccessor(s, anchor)
  {
    return s.end.None? || next < s.end.value;
  }

  // ---- samples, computed --------------------------------------------------------------------

  /** `_record_index`: the file's own axis when it spans the anchor, else the cadence offset. */
  method RecordIndexAt(times: Field -> Option<seq<int>>, ds: Dataset, s: SourceTemporal, anchor: int) returns (r: nat)
    requires s.Valid() && s.IsRecordAnchor(anchor)
    ensures r == RecordIndex(times, ds, s, anchor)
  {
    hide SourceTemporal.FileAnchor, SourceTemporal.IsRecordAnchor, SourceTemporal.RecordInFile, SourceTemporal.Valid;
    var axis := AxisOf(times, ds, s.timeDim);
    if axis.Some? && Spans(axis.value, anchor) {
      var best := RecordAtOrBefore(axis.value, anchor);
      BestIsLatest(axis.value, anchor, |axis.value|);
      return best.value;
    }
    var fa := FileAnchorAt(s, anchor);
    RecordOfAnchor(s, anchor);
    var rec := RecordInFileAt(s, anchor, fa);
    return rec;
  }

  method SliceFrom(l: Loader, s: SourceTemporal, anchor: int, first: Result<Dataset, Error>) returns (r: Result<Dataset, Error>)
    requires s.Valid() && s.IsRecordAnchor(anchor) && (first.Ok? ==> first.value.Valid())
    ensures r == SampleSlice(l, s, anchor, TwoFiles(s.FileAnchor(anchor), first, first))
  {
    hide SourceTemporal.FileAnchor, SourceTemporal.IsRecordAnchor, SourceTemporal.Valid, RecordIndex, SliceDataset;
    if first.Err? { return first; }
    var rec := RecordIndexAt(l.times, first.value, s, anchor);
    return SliceDataset(first.value, s.timeDim, rec);
  }

  /** `_sample_bracket` after its reads: hold the record when the next one is out of reach. */
  method BracketFrom(l: Loader, s: SourceTemporal, anchor: int, file0: Dataset, second: Result<Dataset, Error>) returns (r: Result<Dataset, Error>)
    requires s.Valid() && s.IsRecordAnchor(anchor) && file0.Valid()
    requires second.Ok? ==> second.value.Valid() && EvenTime(second.value, s.timeDim)
    requires HasSuccessor(s, anchor) && s.FileAnchor(s.NextRecordAnchor(anchor)) == s.FileAnchor(anchor) ==> second == Ok(file0)
    ensures r == SampleBracket(l, s, anchor, TwoFiles(s.FileAnchor(anchor), Ok(file0), second))
  {
    hide SourceTemporal.FileAnchor, SourceTemporal.IsRecordAnchor, SourceTemporal.Valid, SourceTemporal.NextRecordAnchor, RecordIndex, BracketDataset, TimeLen, EvenTime;
    var next := NextRecordAnchorAt(s, anchor);
    var rec0 := RecordIndexAt(l.times, file0, s, anchor);
    var more := HasSuccessorAt(s, next, anchor);
    if more && second.Ok? {
      var rec1 := RecordIndexAt(l.times, second.value, s, next);
      var len := TimeLength(second.value, s.timeDim);
      if rec1 < len { return BracketDataset(file0, rec0, second.value, rec1, s.timeDim, anchor, next); }
    }
    return BracketDataset(file0, rec0, file0, rec0, s.timeDim, anchor, anchor);
  }

  /** A sample from files read afresh: `sample_at`, or a peek under its own select. */
  method SampleFresh(l: Loader, t: int, select: Option<Window>, down: set<int>) returns (r: Result<Dataset, Error>)
    requires ValidLoader(l)
    ensures r == Sample(l, t, FilesDown(l, select, down))
  {
    hide Decode, SampleSlice, SampleBracket, SourceTemporal.FileAnchor, SourceTemporal.IsRecordAnchor, SourceTemporal.NextRecordAnchor, SourceTemporal.RecordAnchor, HasSuccessor;
    if l.temporal.None? {
      r := Read(l, EPOCH, select, down);
      return;
    }
    var s := l.temporal.value;
    var anchor := RecordAnchorAt(s, t);
    if anchor < s.start.Instant() { return Err(ValueError); }
    var fa := FileAnchorAt(s, anchor);
    var first := Read(l, fa, select, down);
    ghost var files := FilesDown(l, select, down);
    if s.recordsPerSample == 1 {
      r := SliceFrom(l, s, anchor, first);
      SampleIsLocal(l, s, anchor, TwoFiles(fa, first, first), files);
      return;
    }
    if first.Err? {
      NoFileNoSlice(l, s, anchor, files);
      return first;
    }
    var next := NextRecordAnchorAt(s, anchor);
    var fb := FileAnchorAt(s, next);
    var more := HasSuccessorAt(s, next, anchor);
    var second := first;
    if more && fb != fa { second := Read(l, fb, select, down); }
    if second.Ok? { ReadIsEven(l, s, if more && fb != fa then fb else fa, select, down); }
    r := BracketFrom(l, s, anchor, first.value, second);
    SampleIsLocal(l, s, anchor, TwoFiles(fa, first, second), files);
  }

  lemma EvenFields(ds: Dataset, td: string, n: nat)
    requires ds.Valid() && forall k :: k in ds.variables && td in ds.variables[k].dims ==> DimLength(ds.variables[k], td) == n
    ensures EvenTime(ds, td)
  {
  }

  lemma EvenFile(file: File, td: string)
    requires file.Valid()
    ensures file.dataset.Valid() && EvenTime(file.dataset, td)
  {
    FileIsValid(file);
    forall k | k in file.dataset.variables && td in file.dataset.variables[k].dims
      ensures DimLength(file.dataset.variables[k], td) == if td in file.sizes then file.sizes[td] else 0
    {
      assert OfSizes(file.dataset.variables[k], file.sizes);
    }
    hide Field.Valid, DimLength;
    EvenFields(file.dataset, td, if td in file.sizes then file.sizes[td] else 0);
  }

  /** A window narrows every variable's time axis alike, if it does at all. */
  lemma EvenRead(file: File, w: Window, td: string)
    requires file.Valid() && ReadNamed(file, w).Ok?
    ensures ReadNamed(file, w).value.Valid() && EvenTime(ReadNamed(file, w).value, td)
  {
    ReadNamedValid(file, w);
    var d, isel := ReadNamed(file, w).value, Selected(file, w, |w|).value;
    SelectedReaches(file, w, |w|);
    var n := if td in isel then |isel[td]| else if td in file.sizes then file.sizes[td] else 0;
    forall k | k in d.variables && td in d.variables[k].dims
      ensures DimLength(d.variables[k], td) == n
    {
      EvenField(file.dataset.variables[k], file.sizes, isel, td);
    }
    hide Field.Valid, DimLength, Selected;
    EvenFields(d, td, n);
  }

  lemma EvenField(f: Field, sizes: map<string, nat>, isel: map<string, seq<int>>, td: string)
    requires OfSizes(f, sizes) && Reaches(f, isel) && td in f.dims
    ensures DimLength(WindowField(f, isel), td) == if td in isel then |isel[td]| else if td in sizes then sizes[td] else 0
  {
  }

  lemma ReadIsEven(l: Loader, s: SourceTemporal, fa: int, select: Option<Window>, down: set<int>)
    requires ValidLoader(l) && l.temporal == Some(s) && Read(l, fa, select, down).Ok?
    ensures EvenTime(Read(l, fa, select, down).value, s.timeDim)
  {
    var file := l.fetch(fa).value;
    var effective := if select.Some? then select else l.baked;
    hide ReadNamed, ValidLoader;
    if effective.None? {
      EvenFile(file, s.timeDim);
    } else {
      EvenRead(file, effective.value, s.timeDim);
    }
  }
}
