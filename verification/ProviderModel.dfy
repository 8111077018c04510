/** The provider's buffers as values: what a refresh reads, keeps and forgets. */
module ProviderModel {
  import opened Wrappers
  import opened NativeData
  import opened Selection
  import opened Temporal
  import opened Sampling
  import opened FilePair

  /** The one-file buffer, the two-file buffer (oldest first), the current sample and its
      anchor, and the file anchors decoded into a buffer so far. */
  datatype Buffers = Buffers(
    file: Option<(int, Dataset)>,
    lru: seq<(int, Dataset)>,
    current: Option<Dataset>,
    anchor: Option<int>,
    log: seq<int>)

  function Empty(): Buffers {
    Buffers(None, [], None, None, [])
  }

  /** A read during which the files in `down` cannot be fetched; a window the reader does not
      take is refused before any fetch. */
  function Read(l: Loader, fa: int, select: Option<Window>, down: set<int>): (r: Result<Dataset, Error>)
    requires l.fetch(fa).Ok? ==> l.fetch(fa).value.Valid()
    ensures r.Ok? ==> r.value.Valid()
  {
    if fa in down && ((select.None? && l.baked.None?) || l.supportsSelection) then Err(CacheMiss) else Decode(l, fa, select)
  }

  /** It is the loader's own read, with the fetches that cannot be made failing. */
  lemma ReadIsDecode(l: Loader, fa: int, select: Option<Window>, down: set<int>)
    requires ValidLoader(l)
    ensures Read(l, fa, select, down) == Decode(l.(fetch := x => if x in down then Err(CacheMiss) else l.fetch(x)), fa, select)
  {
  }

  // ---- the buffers' lookups ---------------------------------------------------------------

  ghost function BufferedFile(l: Loader, b: Buffers, fa: int, down: set<int>): (Buffers, Result<Dataset, Error>)
    requires ValidLoader(l)
  {
    if b.file.Some? && b.file.value.0 == fa then (b, Ok(b.file.value.1))
    else match Read(l, fa, None, down)
      case Err(e) => (b, Err(e))
      case Ok(ds) => (b.(file := Some((fa, ds)), log := b.log + [fa]), Ok(ds))
  }

  ghost function FileFor(l: Loader, b: Buffers, fa: int, down: set<int>): (Buffers, Result<Dataset, Error>)
    requires ValidLoader(l)
  {
    if Keeps(b.lru, fa) then
      var ds := Kept(b.lru, fa);
      (b.(lru := Others(b.lru, fa) + [(fa, ds)]), Ok(ds))
    else match Read(l, fa, None, down)
      case Err(e) => (b, Err(e))
      case Ok(ds) => (b.(lru := Newest(b.lru + [(fa, ds)]), log := b.log + [fa]), Ok(ds))
  }

  // ---- one refresh --------------------------------------------------------------------------

  /** Two files, as far as one sample reads them. */
  ghost function TwoFiles(fa: int, first: Result<Dataset, Error>, second: Result<Dataset, Error>): Files
    requires (first.Ok? ==> first.value.Valid()) && (second.Ok? ==> second.value.Valid())
  {
    x => if x == fa then first else second
  }

  ghost function Store(b: Buffers, anchor: int, sample: Result<Dataset, Error>): Buffers {
    if sample.Ok? then b.(current := Some(sample.value), anchor := Some(anchor)) else b
  }

  ghost function RefreshOne(l: Loader, s: SourceTemporal, b: Buffers, anchor: int, down: set<int>): (Buffers, Result<Dataset, Error>)
    requires ValidLoader(l) && s.Valid() && s.IsRecordAnchor(anchor) && GoodBuffers(l, b)
  {
    var fa := s.FileAnchor(anchor);
    var (b1, first) := BufferedFile(l, b, fa, down);
    GoodBufferedFile(l, b, fa, down);
    var sample := SampleSlice(l, s, anchor, TwoFiles(fa, first, first));
    (Store(b1, anchor, sample), sample)
  }

  ghost function RefreshTwo(l: Loader, s: SourceTemporal, b: Buffers, anchor: int, down: set<int>): (Buffers, Result<Dataset, Error>)
    requires ValidLoader(l) && s.Valid() && s.IsRecordAnchor(anchor) && GoodBuffers(l, b)
  {
    var fa, fb := s.FileAnchor(anchor), s.FileAnchor(s.NextRecordAnchor(anchor));
    var (b1, first) := FileFor(l, b, fa, down);
    GoodFileFor(l, b, fa, down);
    if first.Err? then (b1, first)
    else
      var (b2, second) := if HasSuccessor(s, anchor) && fb != fa then FileFor(l, b1, fb, down) else (b1, first);
      GoodFileFor(l, b1, fb, down);
      var sample := SampleBracket(l, s, anchor, TwoFiles(fa, first, second));
      (Store(b2, anchor, sample), sample)
  }

  ghost function FilesDown(l: Loader, select: Option<Window>, down: set<int>): Files
    requires ValidLoader(l)
  {
    fa => Read(l, fa, select, down)
  }

  /** `refresh(t, select)`: a per-call select is a peek that leaves the buffers alone. */
  ghost function Refresh(l: Loader, b: Buffers, t: int, select: Option<Window>, down: set<int>): (Buffers, Result<Dataset, Error>)
    requires ValidLoader(l) && GoodBuffers(l, b)
  {
    match l.temporal
    case None =>
      if select.None? && b.current.Some? then (b, Ok(b.current.value)) else MaterializeConst(l, b, select, down)
    case Some(s) =>
      if select.Some? then (b, Sample(l, t, FilesDown(l, select, down)))
      else
        var anchor := s.RecordAnchor(t);
        RecordAnchorSnaps(s, t, t);
        if anchor < s.start.Instant() then (b, Err(ValueError))
        else if s.recordsPerSample == 2 then RefreshTwo(l, s, b, anchor, down)
        else RefreshOne(l, s, b, anchor, down)
  }

  ghost function MaterializeConst(l: Loader, b: Buffers, select: Option<Window>, down: set<int>): (Buffers, Result<Dataset, Error>)
    requires ValidLoader(l)
  {
    var read := Read(l, EPOCH, select, down);
    (if read.Ok? && select.None? then b.(current := Some(read.value)) else b, read)
  }

  /** The start of the run window, never before the source's own start. */
  function LowerBound(s: SourceTemporal, window: Option<int>): int {
    if window.Some? && window.value > s.start.Instant() then window.value else s.start.Instant()
  }

  ghost function Materialize(l: Loader, window: Option<int>, b: Buffers, select: Option<Window>, down: set<int>): (Buffers, Result<Dataset, Error>)
    requires ValidLoader(l) && GoodBuffers(l, b)
  {
    match l.temporal
    case None => MaterializeConst(l, b, select, down)
    case Some(s) => Refresh(l, b, LowerBound(s, window), select, down)
  }

  // ---- what the buffers always hold -----------------------------------------------------------

  ghost predicate Correct(l: Loader, e: (int, Dataset)) {
    Decode.requires(l, e.0, None) && Decode(l, e.0, None) == Ok(e.1)
  }

  ghost predicate GoodLru(l: Loader, lru: seq<(int, Dataset)>) {
    && |lru| <= 2
    && (forall i :: 0 <= i < |lru| ==> Correct(l, lru[i]))
    && (forall i, j :: 0 <= i < j < |lru| ==> lru[i].0 != lru[j].0)
  }

  /** Every buffered file is a fresh decode of its own anchor, at most two are in the pair
      buffer, under different anchors, and a constant source's sample is its file. */
  ghost predicate GoodBuffers(l: Loader, b: Buffers) {
    && (b.file.Some? ==> Correct(l, b.file.value))
    && GoodLru(l, b.lru)
    && (l.temporal.None? && b.current.Some? ==> Correct(l, (EPOCH, b.current.value)))
  }

  lemma GoodBufferedFile(l: Loader, b: Buffers, fa: int, down: set<int>)
    requires ValidLoader(l) && GoodBuffers(l, b)
    ensures var (b1, r) := BufferedFile(l, b, fa, down);
            && GoodBuffers(l, b1) && (r.Ok? ==> r.value.Valid())
            && (r.Ok? || fa !in down ==> r == Decode(l, fa, None))
  {
  }

  lemma KeptIsCorrect(l: Loader, lru: seq<(int, Dataset)>, fa: int)
    requires Keeps(lru, fa) && forall i :: 0 <= i < |lru| ==> Correct(l, lru[i])
    ensures Correct(l, (fa, Kept(lru, fa)))
  {
    var i :| 0 <= i < |lru| && lru[i] == (fa, Kept(lru, fa));
  }

  /** A hit moves the file to the newest place. */
  lemma HitKeepsGood(l: Loader, lru: seq<(int, Dataset)>, fa: int)
    requires GoodLru(l, lru) && Keeps(lru, fa)
    ensures var r := Others(lru, fa) + [(fa, Kept(lru, fa))];
            GoodLru(l, r) && Keeps(r, fa) && forall x :: Keeps(r, x) <==> Keeps(lru, x)
  {
    HitKeeps(lru, fa);
    var r := Others(lru, fa) + [(fa, Kept(lru, fa))];
    hide Correct, Kept, Others, Keeps;
    forall i | 0 <= i < |r|
      ensures Correct(l, r[i])
    {
      assert r[i] in r;
      var j :| 0 <= j < |lru| && lru[j] == r[i];
    }
  }

  /** A miss adds the file and drops the oldest beyond two. */
  lemma MissKeepsGood(l: Loader, lru: seq<(int, Dataset)>, fa: int, ds: Dataset)
    requires GoodLru(l, lru) && !Keeps(lru, fa) && Correct(l, (fa, ds))
    ensures var r := Newest(lru + [(fa, ds)]);
            GoodLru(l, r) && Keeps(r, fa)
  {
    hide Correct;
    var r := Newest(lru + [(fa, ds)]);
    assert r[|r| - 1] == (fa, ds);
  }

  lemma GoodFileFor(l: Loader, b: Buffers, fa: int, down: set<int>)
    requires ValidLoader(l) && GoodBuffers(l, b)
    ensures var (b1, r) := FileFor(l, b, fa, down);
            && GoodBuffers(l, b1) && (r.Ok? ==> r.value.Valid() && Keeps(b1.lru, fa))
            && (r.Ok? || fa !in down ==> r == Decode(l, fa, None))
  {
    hide Kept, Others, Newest, Decode;
    if Keeps(b.lru, fa) {
      KeptIsCorrect(l, b.lru, fa);
      HitKeepsGood(l, b.lru, fa);
    } else if Read(l, fa, None, down).Ok? {
      MissKeepsGood(l, b.lru, fa, Read(l, fa, None, down).value);
    }
    hide GoodLru, Keeps;
  }

  // ---- a refresh is a fresh sample -------------------------------------------------------------

  /** A sample reads only the anchor's file and, for a bracket, the next anchor's. */
  lemma SampleIsLocal(l: Loader, s: SourceTemporal, anchor: int, f: Files, g: Files)
    requires s.Valid() && s.IsRecordAnchor(anchor) && f(s.FileAnchor(anchor)) == g(s.FileAnchor(anchor))
    ensures SampleSlice(l, s, anchor, f) == SampleSlice(l, s, anchor, g)
    ensures (f(s.FileAnchor(anchor)).Ok? && HasSuccessor(s, anchor) ==> f(s.FileAnchor(s.NextRecordAnchor(anchor))) == g(s.FileAnchor(s.NextRecordAnchor(anchor)))) ==>
              SampleBracket(l, s, anchor, f) == SampleBracket(l, s, anchor, g)
  {
    hide RecordIndex, SliceDataset, BracketDataset, TimeLen, SourceTemporal.FileAnchor, SourceTemporal.IsRecordAnchor, SourceTemporal.NextRecordAnchor;
    RecordAnchorSnaps(s, anchor, anchor);
  }

  /** The files one sample at `t` needs. */
  ghost predicate NeededUp(l: Loader, t: int, down: set<int>)
    requires ValidLoader(l)
  {
    match l.temporal
    case None => EPOCH !in down
    case Some(s) =>
      var anchor := s.RecordAnchor(t);
      s.FileAnchor(anchor) !in down && (s.recordsPerSample == 2 && HasSuccessor(s, anchor) ==> s.FileAnchor(s.NextRecordAnchor(anchor)) !in down)
  }

  /** Whatever happened before, a refresh returns what a fresh sample returns whenever the
      files it needs can be fetched; a refresh through an outage that still succeeds with one
      record per sample returns it too. The buffers stay good either way, and a peek leaves
      them alone and samples under its own select. */
  lemma RefreshIsSampleAt(l: Loader, b: Buffers, t: int, select: Option<Window>, down: set<int>)
    requires ValidLoader(l) && GoodBuffers(l, b)
    ensures var (b1, r) := Refresh(l, b, t, select, down);
            && GoodBuffers(l, b1)
            && (select.None? && NeededUp(l, t, down) ==> r == SampleAt(l, t))
            && (select.None? && r.Ok? && (l.temporal.None? || l.temporal.value.recordsPerSample == 1) ==> r == SampleAt(l, t))
            && (select.Some? ==> b1 == b)
            && (select.Some? && down == {} ==> r == Sample(l, t, FreshFiles(l, select)))
  {
    assert l.temporal.Some? ==> l.temporal.value.Valid();
    hide GoodBuffers, Decode, SampleSlice, SampleBracket, SourceTemporal.FileAnchor, SourceTemporal.IsRecordAnchor, SourceTemporal.NextRecordAnchor, ValidLoader;
    match l.temporal
    case None =>
      ConstRefresh(l, b, t, select, down);
    case Some(s) =>
      RecordAnchorSnaps(s, t, t);
      if select.Some? {
        if down == {} { SampleSame(l, t, FilesDown(l, select, down), FreshFiles(l, select)); }
      } else if s.RecordAnchor(t) >= s.start.Instant() {
        if s.recordsPerSample == 2 {
          RefreshTwoIs(l, s, b, s.RecordAnchor(t), down);
        } else {
          RefreshOneIs(l, s, b, s.RecordAnchor(t), down);
        }
      }
  }

  lemma ConstRefresh(l: Loader, b: Buffers, t: int, select: Option<Window>, down: set<int>)
    requires ValidLoader(l) && GoodBuffers(l, b) && l.temporal.None?
    ensures var (b1, r) := Refresh(l, b, t, select, down);
            && GoodBuffers(l, b1)
            && (select.None? && (EPOCH !in down || r.Ok?) ==> r == SampleAt(l, t))
            && (select.Some? ==> b1 == b)
            && (select.Some? && down == {} ==> r == Sample(l, t, FreshFiles(l, select)))
  {
    hide Decode, GoodLru;
  }

  lemma SampleSame(l: Loader, t: int, f: Files, g: Files)
    requires ValidLoader(l) && forall fa :: f(fa) == g(fa)
    ensures Sample(l, t, f) == Sample(l, t, g)
  {
  }

  lemma RefreshOneIs(l: Loader, s: SourceTemporal, b: Buffers, anchor: int, down: set<int>)
    requires ValidLoader(l) && s.Valid() && s.IsRecordAnchor(anchor) && GoodBuffers(l, b) && l.temporal.Some?
    ensures var (b1, r) := RefreshOne(l, s, b, anchor, down);
            GoodBuffers(l, b1) && (s.FileAnchor(anchor) !in down || r.Ok? ==> r == SampleSlice(l, s, anchor, FreshFiles(l, None)))
  {
    hide Decode, SourceTemporal.FileAnchor, SourceTemporal.IsRecordAnchor, SourceTemporal.NextRecordAnchor, SampleSlice, BufferedFile, GoodLru;
    var fa := s.FileAnchor(anchor);
    GoodBufferedFile(l, b, fa, down);
    var first := BufferedFile(l, b, fa, down).1;
    if first.Ok? || fa !in down {
      SampleIsLocal(l, s, anchor, TwoFiles(fa, first, first), FreshFiles(l, None));
    } else {
      NoFileNoSlice(l, s, anchor, TwoFiles(fa, first, first));
    }
  }

  lemma NoFileNoSlice(l: Loader, s: SourceTemporal, anchor: int, f: Files)
    requires s.Valid() && s.IsRecordAnchor(anchor) && f(s.FileAnchor(anchor)).Err?
    ensures SampleSlice(l, s, anchor, f).Err? && SampleBracket(l, s, anchor, f) == f(s.FileAnchor(anchor))
  {
  }

  lemma RefreshTwoIs(l: Loader, s: SourceTemporal, b: Buffers, anchor: int, down: set<int>)
    requires ValidLoader(l) && s.Valid() && s.IsRecordAnchor(anchor) && GoodBuffers(l, b) && l.temporal.Some?
    ensures var (b1, r) := RefreshTwo(l, s, b, anchor, down);
            && GoodBuffers(l, b1)
            && (s.FileAnchor(anchor) !in down && (HasSuccessor(s, anchor) ==> s.FileAnchor(s.NextRecordAnchor(anchor)) !in down) ==>
                  r == SampleBracket(l, s, anchor, FreshFiles(l, None)))
  {
    hide Decode, SourceTemporal.FileAnchor, SourceTemporal.IsRecordAnchor, SourceTemporal.NextRecordAnchor, SampleBracket, FileFor, GoodLru, HasSuccessor;
    var fa, fb := s.FileAnchor(anchor), s.FileAnchor(s.NextRecordAnchor(anchor));
    GoodFileFor(l, b, fa, down);
    var (b1, first) := FileFor(l, b, fa, down);
    if first.Err? {
      if fa !in down { NoFileNoSlice(l, s, anchor, FreshFiles(l, None)); }
    } else {
      GoodFileFor(l, b1, fb, down);
      var (b2, second) := if HasSuccessor(s, anchor) && fb != fa then FileFor(l, b1, fb, down) else (b1, first);
      if fa !in down && (HasSuccessor(s, anchor) ==> fb !in down) {
        SampleIsLocal(l, s, anchor, TwoFiles(fa, first, second), FreshFiles(l, None));
      }
    }
  }

  /** What a call keeps: the sample it returns and that sample's anchor, or, when it fails or
      peeks, what was there. */
  lemma RefreshKeeps(l: Loader, b: Buffers, t: int, select: Option<Window>, down: set<int>)
    requires ValidLoader(l) && GoodBuffers(l, b)
    ensures var (b1, r) := Refresh(l, b, t, select, down);
            && (select.None? && r.Ok? ==> b1.current == Some(r.value) && (l.temporal.Some? ==> b1.anchor == Some(l.temporal.value.RecordAnchor(t))))
            && (select.Some? || r.Err? ==> b1.current == b.current && b1.anchor == b.anchor)
  {
    hide GoodBuffers, Decode, RefreshOne, RefreshTwo, SourceTemporal.RecordAnchor, SourceTemporal.NextRecordAnchor, SourceTemporal.IsRecordAnchor;
    if l.temporal.Some? {
      var s := l.temporal.value;
      RecordAnchorSnaps(s, t, t);
      OneKeeps(l, s, b, s.RecordAnchor(t), down);
      TwoKeeps(l, s, b, s.RecordAnchor(t), down);
    }
  }

  lemma OneKeeps(l: Loader, s: SourceTemporal, b: Buffers, anchor: int, down: set<int>)
    requires ValidLoader(l) && s.Valid() && s.IsRecordAnchor(anchor) && GoodBuffers(l, b)
    ensures var (b1, r) := RefreshOne(l, s, b, anchor, down);
            if r.Ok? then b1.current == Some(r.value) && b1.anchor == Some(anchor) else b1.current == b.current && b1.anchor == b.anchor
  {
    hide Decode, SampleSlice, SourceTemporal.FileAnchor, SourceTemporal.IsRecordAnchor, SourceTemporal.Valid, ValidLoader, TwoFiles;
    GoodBufferedFile(l, b, s.FileAnchor(anchor), down);
    hide GoodBuffers;
  }

  lemma TwoKeeps(l: Loader, s: SourceTemporal, b: Buffers, anchor: int, down: set<int>)
    requires ValidLoader(l) && s.Valid() && s.IsRecordAnchor(anchor) && GoodBuffers(l, b)
    ensures var (b1, r) := RefreshTwo(l, s, b, anchor, down);
            if r.Ok? then b1.current == Some(r.value) && b1.anchor == Some(anchor) else b1.current == b.current && b1.anchor == b.anchor
  {
    hide Decode, SampleBracket, SourceTemporal.FileAnchor, SourceTemporal.IsRecordAnchor, SourceTemporal.NextRecordAnchor, SourceTemporal.Valid, HasSuccessor, ValidLoader, FileFor, GoodBuffers, TwoFiles;
    var fa, fb := s.FileAnchor(anchor), s.FileAnchor(s.NextRecordAnchor(anchor));
    GoodFileFor(l, b, fa, down);
    LookupKeeps(l, b, fa, down);
    LookupKeeps(l, FileFor(l, b, fa, down).0, fb, down);
    GoodFileFor(l, FileFor(l, b, fa, down).0, fb, down);
  }

  lemma LookupKeeps(l: Loader, b: Buffers, fa: int, down: set<int>)
    requires ValidLoader(l)
    ensures var b1 := FileFor(l, b, fa, down).0; b1.current == b.current && b1.anchor == b.anchor
  {
    hide Decode, Keeps, Kept, Others, Newest;
  }

  // ---- through an outage -----------------------------------------------------------------------

  /** Files the refresh at anchor `a` is served from the pair buffer: the anchor's own if it is
      kept, the next anchor's if it is kept and not dropped first, to make room for the
      anchor's own. */
  ghost predicate PairServes(s: SourceTemporal, lru: seq<(int, Dataset)>, a: int, fa: int)
    requires s.Valid()
  {
    Keeps(lru, fa) && (Keeps(lru, s.FileAnchor(a)) || |lru| < 2 || lru[0].0 != fa)
  }

  /** File `fa` needs no fetch in a refresh at `t`. */
  ghost predicate Buffered(l: Loader, b: Buffers, t: int, fa: int)
    requires ValidLoader(l)
  {
    match l.temporal
    case None => b.current.Some? && fa == EPOCH
    case Some(s) => if s.recordsPerSample == 2 then PairServes(s, b.lru, s.RecordAnchor(t), fa) else b.file.Some? && b.file.value.0 == fa
  }

  /** The files out of reach of a refresh at `t` while those in `down` cannot be fetched. */
  ghost function OutOfReach(l: Loader, b: Buffers, t: int, down: set<int>): set<int>
    requires ValidLoader(l)
  {
    set fa | fa in down && !Buffered(l, b, t, fa)
  }

  /** What a refresh returns through any outage, errors included: exactly the sample of the
      time with those files out of reach that are down and not served from the buffers. A peek
      is served from none. */
  lemma RefreshThroughOutage(l: Loader, b: Buffers, t: int, select: Option<Window>, down: set<int>)
    requires ValidLoader(l) && GoodBuffers(l, b)
    ensures Refresh(l, b, t, select, down).1 == Sample(l, t, FilesDown(l, select, if select.Some? then down else OutOfReach(l, b, t, down)))
  {
    assert l.temporal.Some? ==> l.temporal.value.Valid();
    hide GoodBuffers, Decode, SampleSlice, SampleBracket, SourceTemporal.FileAnchor, SourceTemporal.IsRecordAnchor, SourceTemporal.NextRecordAnchor, ValidLoader, RefreshOne, RefreshTwo, OutOfReach;
    match l.temporal
    case None => ConstOutage(l, b, t, select, down);
    case Some(s) =>
      RecordAnchorSnaps(s, t, t);
      if select.None? && s.RecordAnchor(t) >= s.start.Instant() {
        if s.recordsPerSample == 2 {
          TwoThroughOutage(l, s, b, s.RecordAnchor(t), down, OutOfReach(l, b, t, down));
        } else {
          OneThroughOutage(l, s, b, s.RecordAnchor(t), down, OutOfReach(l, b, t, down));
        }
      }
  }

  /** So with nothing buffered, a refresh through an outage is `sample_at` through it. */
  lemma FreshThroughOutage(l: Loader, t: int, down: set<int>)
    requires ValidLoader(l)
    ensures Refresh(l, Empty(), t, None, down).1 == Sample(l, t, FilesDown(l, None, down))
  {
    hide Sample, Refresh, Decode, SourceTemporal.FileAnchor, SourceTemporal.RecordAnchor;
    RefreshThroughOutage(l, Empty(), t, None, down);
    assert OutOfReach(l, Empty(), t, down) == down;
  }

  lemma ConstOutage(l: Loader, b: Buffers, t: int, select: Option<Window>, down: set<int>)
    requires ValidLoader(l) && GoodBuffers(l, b) && l.temporal.None?
    ensures Refresh(l, b, t, select, down).1 == Sample(l, t, FilesDown(l, select, if select.Some? then down else OutOfReach(l, b, t, down)))
  {
    hide Decode, GoodLru;
  }

  lemma OneThroughOutage(l: Loader, s: SourceTemporal, b: Buffers, anchor: int, down: set<int>, out: set<int>)
    requires ValidLoader(l) && s.Valid() && s.IsRecordAnchor(anchor) && GoodBuffers(l, b) && l.temporal.Some?
    requires forall fa :: fa in out <==> fa in down && !(b.file.Some? && b.file.value.0 == fa)
    ensures RefreshOne(l, s, b, anchor, down).1 == SampleSlice(l, s, anchor, FilesDown(l, None, out))
  {
    hide Decode, SourceTemporal.FileAnchor, SourceTemporal.IsRecordAnchor, SourceTemporal.NextRecordAnchor, SampleSlice, GoodLru;
    var fa := s.FileAnchor(anchor);
    GoodBufferedFile(l, b, fa, down);
    var first := BufferedFile(l, b, fa, down).1;
    SampleIsLocal(l, s, anchor, TwoFiles(fa, first, first), FilesDown(l, None, out));
  }

  /** A lookup gives a kept file, or what reading it gives. */
  lemma FileForServes(l: Loader, b: Buffers, fa: int, down: set<int>, out: set<int>)
    requires ValidLoader(l) && GoodBuffers(l, b) && (fa in out <==> fa in down && !Keeps(b.lru, fa))
    ensures FileFor(l, b, fa, down).1 == Read(l, fa, None, out)
  {
    GoodFileFor(l, b, fa, down);
    hide Decode, GoodBuffers, Kept, Others, Newest;
  }

  /** What the pair buffer keeps once the anchor's file has been looked up. */
  lemma KeptAfter(l: Loader, b: Buffers, fa: int, down: set<int>, x: int)
    requires ValidLoader(l) && GoodBuffers(l, b) && FileFor(l, b, fa, down).1.Ok? && x != fa
    ensures Keeps(FileFor(l, b, fa, down).0.lru, x) <==> Keeps(b.lru, x) && (Keeps(b.lru, fa) || |b.lru| < 2 || b.lru[0].0 != x)
  {
    hide Decode, Kept, Others, Correct;
    if Keeps(b.lru, fa) {
      HitKeepsGood(l, b.lru, fa);
    } else {
      KeptBesides(b.lru, (fa, Read(l, fa, None, down).value), x);
    }
  }

  lemma KeptBesides(lru: seq<(int, Dataset)>, e: (int, Dataset), x: int)
    requires Ordered(lru) && x != e.0
    ensures Keeps(Newest(lru + [e]), x) <==> Keeps(lru, x) && (|lru| < 2 || lru[0].0 != x)
  {
    hide Keeps;
    KeptInFront(lru, e, x);
    if |lru| == 2 {
      var oldest, newer := lru[0], lru[1..];
      assert lru == [oldest] + newer && Newest(lru + [e]) == newer + [e];
      KeptInFront(newer, e, x);
      KeptBehind(oldest, newer, x);
      OnlyNewer(lru, x);
    }
  }

  lemma KeptInFront(lru: seq<(int, Dataset)>, e: (int, Dataset), x: int)
    requires x != e.0
    ensures Keeps(lru + [e], x) <==> Keeps(lru, x)
  {
    var r := lru + [e];
    if i :| 0 <= i < |lru| && lru[i].0 == x { assert r[i].0 == x; }
    if i :| 0 <= i < |r| && r[i].0 == x { assert lru[i].0 == x; }
  }

  lemma KeptBehind(e: (int, Dataset), lru: seq<(int, Dataset)>, x: int)
    ensures Keeps([e] + lru, x) <==> e.0 == x || Keeps(lru, x)
  {
    var r := [e] + lru;
    if e.0 == x { assert r[0].0 == x; }
    if i :| 0 <= i < |lru| && lru[i].0 == x { assert r[i + 1].0 == x; }
    if i :| 0 <= i < |r| && r[i].0 == x && e.0 != x { assert lru[i - 1].0 == x; }
  }

  lemma OnlyNewer(lru: seq<(int, Dataset)>, x: int)
    requires Ordered(lru) && |lru| == 2
    ensures lru[0].0 == x ==> !Keeps(lru[1..], x)
  {
  }

  lemma TwoThroughOutage(l: Loader, s: SourceTemporal, b: Buffers, anchor: int, down: set<int>, out: set<int>)
    requires ValidLoader(l) && s.Valid() && s.IsRecordAnchor(anchor) && GoodBuffers(l, b) && l.temporal.Some?
    requires forall fa :: fa in out <==> fa in down && !PairServes(s, b.lru, anchor, fa)
    ensures RefreshTwo(l, s, b, anchor, down).1 == SampleBracket(l, s, anchor, FilesDown(l, None, out))
  {
    hide Decode, SourceTemporal.FileAnchor, SourceTemporal.IsRecordAnchor, SourceTemporal.NextRecordAnchor, SampleBracket, FileFor, GoodBuffers, HasSuccessor, Keeps;
    var fa, fb := s.FileAnchor(anchor), s.FileAnchor(s.NextRecordAnchor(anchor));
    GoodFileFor(l, b, fa, down);
    FileForServes(l, b, fa, down, out);
    var (b1, first) := FileFor(l, b, fa, down);
    if first.Err? {
      NoFileNoSlice(l, s, anchor, FilesDown(l, None, out));
    } else {
      if HasSuccessor(s, anchor) && fb != fa {
        KeptAfter(l, b, fa, down, fb);
        FileForServes(l, b1, fb, down, out);
      }
      GoodFileFor(l, b1, fb, down);
      var (b2, second) := if HasSuccessor(s, anchor) && fb != fa then FileFor(l, b1, fb, down) else (b1, first);
      SampleIsLocal(l, s, anchor, TwoFiles(fa, first, second), FilesDown(l, None, out));
    }
  }
}
