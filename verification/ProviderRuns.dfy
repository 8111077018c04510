/** Whole runs of a provider: any sequence of refreshes, materializations, peeks and failed
    reads keeps the buffers right, and a forward sweep decodes each file once. */
module ProviderRuns {
  import opened Wrappers
  import opened NativeData
  import opened Selection
  import opened Temporal
  import opened Sampling
  import opened FilePair
  import opened ProviderModel

  datatype Call = OnRefresh(t: int, select: Option<Window>, down: set<int>) | OnMaterialize(select: Option<Window>, down: set<int>)

  ghost function After(l: Loader, window: Option<int>, b: Buffers, c: Call): (Buffers, Result<Dataset, Error>)
    requires ValidLoader(l) && GoodBuffers(l, b)
  {
    match c
    case OnRefresh(t, select, down) => Refresh(l, b, t, select, down)
    case OnMaterialize(select, down) => Materialize(l, window, b, select, down)
  }

  lemma AfterIsGood(l: Loader, window: Option<int>, b: Buffers, c: Call)
    requires ValidLoader(l) && GoodBuffers(l, b)
    ensures GoodBuffers(l, After(l, window, b, c).0)
  {
    hide GoodLru, Decode;
    match c
    case OnRefresh(t, select, down) => RefreshIsSampleAt(l, b, t, select, down);
    case OnMaterialize(select, down) =>
      if l.temporal.Some? { RefreshIsSampleAt(l, b, LowerBound(l.temporal.value, window), select, down); }
  }

  /** The buffers after a sequence of calls on a new provider. */
  ghost function Run(l: Loader, window: Option<int>, calls: seq<Call>): (b: Buffers)
    requires ValidLoader(l)
    ensures GoodBuffers(l, b)
    decreases |calls|
  {
    if calls == [] then Empty()
    else
      var b := Run(l, window, calls[..|calls| - 1]);
      AfterIsGood(l, window, b, calls[|calls| - 1]);
      After(l, window, b, calls[|calls| - 1]).0
  }

  /** After any run at all, a refresh returns exactly what a fresh sample returns, a
      materialization the sample at the run window's start, and at most two files are kept,
      each equal to a fresh decode. */
  lemma AnyRunThenFresh(l: Loader, window: Option<int>, calls: seq<Call>, t: int)
    requires ValidLoader(l)
    ensures var b := Run(l, window, calls);
            && Refresh(l, b, t, None, {}).1 == SampleAt(l, t)
            && Materialize(l, window, b, None, {}).1 == SampleAt(l, match (l.temporal, window)
                                                                   case (None, _) => t
                                                                   case (Some(s), Some(w)) => if s.start.Instant() < w then w else s.start.Instant()
                                                                   case (Some(s), None) => s.start.Instant())
            && |b.lru| <= 2 && (forall i :: 0 <= i < |b.lru| ==> Decode(l, b.lru[i].0, None) == Ok(b.lru[i].1))
            && (b.file.Some? ==> Decode(l, b.file.value.0, None) == Ok(b.file.value.1))
  {
    hide Refresh, Run, GoodLru;
    var b := Run(l, window, calls);
    BuffersAreFresh(l, b);
    hide GoodBuffers;
    RefreshIsSampleAt(l, b, t, None, {});
    if l.temporal.Some? { RefreshIsSampleAt(l, b, LowerBound(l.temporal.value, window), None, {}); }
  }

  lemma BuffersAreFresh(l: Loader, b: Buffers)
    requires ValidLoader(l) && GoodBuffers(l, b)
    ensures |b.lru| <= 2 && forall i :: 0 <= i < |b.lru| ==> Decode(l, b.lru[i].0, None) == Ok(b.lru[i].1)
    ensures b.file.Some? ==> Decode(l, b.file.value.0, None) == Ok(b.file.value.1)
  {
    hide Decode;
    assert forall i :: 0 <= i < |b.lru| ==> Correct(l, b.lru[i]);
  }

  // ---- a forward sweep -----------------------------------------------------------------------

  /** The files the sample at record anchor `a` reads. */
  ghost predicate Needs(s: SourceTemporal, a: int, fa: int)
    requires s.Valid()
  {
    fa == s.FileAnchor(a) || (s.recordsPerSample == 2 && HasSuccessor(s, a) && fa == s.FileAnchor(s.NextRecordAnchor(a)))
  }

  /** A nondecreasing sequence of record anchors whose files all read. */
  ghost predicate Sweep(l: Loader, s: SourceTemporal, anchors: seq<int>) {
    && ValidLoader(l) && l.temporal == Some(s) && s.Valid()
    && (forall i :: 0 <= i < |anchors| ==> s.IsRecordAnchor(anchors[i]) && Reads(l, s, anchors[i]))
    && (forall i, j :: 0 <= i < j < |anchors| ==> anchors[i] <= anchors[j])
  }

  ghost predicate Reads(l: Loader, s: SourceTemporal, a: int)
    requires ValidLoader(l) && s.Valid()
  {
    forall fa :: Needs(s, a, fa) ==> FreshFiles(l, None)(fa).Ok?
  }

  ghost function SweepTo(l: Loader, s: SourceTemporal, anchors: seq<int>, n: nat): (b: Buffers)
    requires Sweep(l, s, anchors) && n <= |anchors|
    ensures GoodBuffers(l, b)
  {
    if n == 0 then Empty()
    else
      var b := SweepTo(l, s, anchors, n - 1);
      if s.recordsPerSample == 2 then RefreshTwoIs(l, s, b, anchors[n - 1], {}); RefreshTwo(l, s, b, anchors[n - 1], {}).0
      else RefreshOneIs(l, s, b, anchors[n - 1], {}); RefreshOne(l, s, b, anchors[n - 1], {}).0
  }

  predicate NoRepeats(s: seq<int>) {
    forall i, j :: 0 <= i < j < |s| ==> s[i] != s[j]
  }

  /** The files needed at `a` are still buffered. */
  ghost predicate Holding(s: SourceTemporal, b: Buffers, a: int)
    requires s.Valid()
  {
    if s.recordsPerSample == 2 then
      Keeps(b.lru, s.FileAnchor(a)) && (HasSuccessor(s, a) ==> Keeps(b.lru, s.FileAnchor(s.NextRecordAnchor(a))))
    else
      b.file.Some? && b.file.value.0 == s.FileAnchor(a)
  }

  ghost predicate NeededBy(s: SourceTemporal, anchors: seq<int>, n: nat, fa: int)
    requires s.Valid() && n <= |anchors|
  {
    exists i :: 0 <= i < n && Needs(s, anchors[i], fa)
  }

  /** Whatever is buffered was decoded. */
  ghost predicate Logged(b: Buffers) {
    (b.file.Some? ==> b.file.value.0 in b.log) && (forall fa :: Keeps(b.lru, fa) ==> fa in b.log)
  }

  ghost predicate SweepOk(s: SourceTemporal, anchors: seq<int>, n: nat, b: Buffers)
    requires s.Valid() && n <= |anchors|
  {
    && NoRepeats(b.log) && Logged(b)
    && (forall fa :: fa in b.log <==> NeededBy(s, anchors, n, fa))
    && (n > 0 ==> Holding(s, b, anchors[n - 1]))
  }

  /** What monotone anchors say about their files. */
  lemma FilesInOrder(s: SourceTemporal, a: int, c: int)
    requires s.Valid() && s.IsRecordAnchor(a) && s.IsRecordAnchor(c) && a <= c
    ensures s.FileAnchor(a) <= s.FileAnchor(c)
    ensures a < s.NextRecordAnchor(a) && s.FileAnchor(a) <= s.FileAnchor(s.NextRecordAnchor(a))
    ensures a < c ==> s.NextRecordAnchor(a) <= c && s.FileAnchor(s.NextRecordAnchor(a)) <= s.FileAnchor(c)
  {
    hide SourceTemporal.FileAnchor, SourceTemporal.NextRecordAnchor, SourceTemporal.NextFileAnchor;
    RecordAnchorSnaps(s, a, c);
    FileAnchorSnaps(s, a, c);
    FileAnchorSnaps(s, a, s.NextRecordAnchor(a));
    if a < c { FileAnchorSnaps(s, s.NextRecordAnchor(a), c); }
  }

  /** A file needed at `c` that an earlier anchor up to `a` needed too, `a` still needs. */
  lemma StillNeeded(s: SourceTemporal, a: int, c: int, e: int, fa: int)
    requires s.Valid() && s.IsRecordAnchor(a) && s.IsRecordAnchor(c) && s.IsRecordAnchor(e) && e <= a <= c
    requires Needs(s, e, fa) && Needs(s, c, fa)
    ensures Needs(s, a, fa)
  {
    hide SourceTemporal.FileAnchor, SourceTemporal.NextRecordAnchor, SourceTemporal.IsRecordAnchor, SourceTemporal.Valid;
    FilesInOrder(s, e, a);
    FilesInOrder(s, a, c);
    FilesInOrder(s, e, c);
    FilesInOrder(s, c, c);
  }

  lemma HoldingIs(s: SourceTemporal, b: Buffers, a: int, fa: int)
    requires s.Valid() && Holding(s, b, a) && Needs(s, a, fa)
    ensures if s.recordsPerSample == 2 then Keeps(b.lru, fa) else b.file.Some? && b.file.value.0 == fa
  {
  }

  /** Looking a file up leaves it the newest of the pair, keeps the one before it, and reads
      only on a miss. */
  lemma LookedUp(l: Loader, b: Buffers, fa: int)
    requires ValidLoader(l) && GoodBuffers(l, b) && FreshFiles(l, None)(fa).Ok?
    ensures var b1 := FileFor(l, b, fa, {}).0;
            && GoodBuffers(l, b1) && Keeps(b1.lru, fa) && FileFor(l, b, fa, {}).1.Ok?
            && b1.log == (if Keeps(b.lru, fa) then b.log else b.log + [fa])
            && (Keeps(b.lru, fa) ==> forall x :: Keeps(b.lru, x) ==> Keeps(b1.lru, x))
            && (|b.lru| > 0 ==> Keeps(b1.lru, b.lru[|b.lru| - 1].0))
            && |b1.lru| > 0 && b1.lru[|b1.lru| - 1].0 == fa
  {
    hide Kept, Others, Decode, GoodLru;
    GoodFileFor(l, b, fa, {});
    if Keeps(b.lru, fa) {
      HitKeepsGood(l, b.lru, fa);
      if |b.lru| > 0 { assert Keeps(b.lru, b.lru[|b.lru| - 1].0); }
    } else {
      MissKeepsNewest(b.lru, (fa, FileFor(l, b, fa, {}).1.value));
    }
    hide Keeps;
  }

  lemma MissKeepsNewest(lru: seq<(int, Dataset)>, e: (int, Dataset))
    ensures var r := Newest(lru + [e]);
            |r| > 0 && r[|r| - 1] == e && (|lru| > 0 ==> Keeps(r, lru[|lru| - 1].0))
  {
    var r := Newest(lru + [e]);
    if |lru| > 0 { assert r[|r| - 2] == lru[|lru| - 1]; }
  }

  lemma NoRepeatsGrow(s: seq<int>, x: int)
    requires NoRepeats(s) && x !in s
    ensures NoRepeats(s + [x])
  {
  }

  /** A successor in another file that was needed before belongs to the same anchor. */
  lemma SuccessorSeen(s: SourceTemporal, a: int, c: int, e: int)
    requires s.Valid() && s.IsRecordAnchor(a) && s.IsRecordAnchor(c) && s.IsRecordAnchor(e) && e <= a <= c
    requires s.FileAnchor(s.NextRecordAnchor(c)) != s.FileAnchor(c) && Needs(s, e, s.FileAnchor(s.NextRecordAnchor(c)))
    ensures a == c
  {
    hide SourceTemporal.FileAnchor, SourceTemporal.NextRecordAnchor, SourceTemporal.IsRecordAnchor, SourceTemporal.Valid;
    FilesInOrder(s, e, a);
    FilesInOrder(s, a, c);
    FilesInOrder(s, e, c);
    FilesInOrder(s, c, c);
  }

  /** A file needed now was read before only if it is still buffered. */
  lemma SeenIsHeld(l: Loader, s: SourceTemporal, anchors: seq<int>, n: nat, b: Buffers, fa: int)
    requires Sweep(l, s, anchors) && n < |anchors| && SweepOk(s, anchors, n, b) && Needs(s, anchors[n], fa) && fa in b.log
    ensures n > 0 && Needs(s, anchors[n - 1], fa)
    ensures if s.recordsPerSample == 2 then Keeps(b.lru, fa) else b.file.Some? && b.file.value.0 == fa
  {
    hide Needs, Holding, ValidLoader, Reads, SourceTemporal.IsRecordAnchor, SourceTemporal.Valid;
    var i :| 0 <= i < n && Needs(s, anchors[i], fa);
    StillNeeded(s, anchors[n - 1], anchors[n], anchors[i], fa);
    HoldingIs(s, b, anchors[n - 1], fa);
  }

  lemma NeededByGrows(s: SourceTemporal, anchors: seq<int>, n: nat, fa: int)
    requires s.Valid() && n < |anchors|
    ensures NeededBy(s, anchors, n + 1, fa) <==> NeededBy(s, anchors, n, fa) || Needs(s, anchors[n], fa)
  {
    hide Needs;
    if NeededBy(s, anchors, n, fa) {
      var i :| 0 <= i < n && Needs(s, anchors[i], fa);
      assert i < n + 1;
    }
  }

  /** The log after a refresh: what was there, and the files read for it. */
  lemma SweepLog(s: SourceTemporal, anchors: seq<int>, n: nat, b: Buffers, b1: Buffers)
    requires s.Valid() && n < |anchors| && SweepOk(s, anchors, n, b)
    requires NoRepeats(b1.log) && Logged(b1) && Holding(s, b1, anchors[n])
    requires forall x :: x in b1.log <==> x in b.log || Needs(s, anchors[n], x)
    ensures SweepOk(s, anchors, n + 1, b1)
  {
    hide Needs, Holding, Logged, NoRepeats;
    forall x
      ensures x in b1.log <==> NeededBy(s, anchors, n + 1, x)
    {
      NeededByGrows(s, anchors, n, x);
    }
    hide NeededBy;
  }

  lemma OneStep(l: Loader, s: SourceTemporal, anchors: seq<int>, n: nat, b: Buffers)
    requires Sweep(l, s, anchors) && n < |anchors| && GoodBuffers(l, b) && SweepOk(s, anchors, n, b) && s.recordsPerSample != 2
    ensures SweepOk(s, anchors, n + 1, RefreshOne(l, s, b, anchors[n], {}).0)
  {
    var fa, b1 := s.FileAnchor(anchors[n]), RefreshOne(l, s, b, anchors[n], {}).0;
    OneLookup(l, s, b, anchors[n]);
    hide Decode, SampleSlice, GoodBuffers, SourceTemporal.FileAnchor, RefreshOne, Reads, ValidLoader, Keeps;
    if fa in b.log { SeenIsHeld(l, s, anchors, n, b, fa); }
    if b1.log != b.log { NoRepeatsGrow(b.log, fa); }
    hide NeededBy;
    SweepLog(s, anchors, n, b, b1);
  }

  lemma OneLookup(l: Loader, s: SourceTemporal, b: Buffers, a: int)
    requires ValidLoader(l) && s.Valid() && s.IsRecordAnchor(a) && GoodBuffers(l, b) && Reads(l, s, a)
    ensures var fa, b1 := s.FileAnchor(a), RefreshOne(l, s, b, a, {}).0;
            && b1.file.Some? && b1.file.value.0 == fa && b1.lru == b.lru
            && b1.log == (if b.file.Some? && b.file.value.0 == fa then b.log else b.log + [fa])
  {
    hide Decode, SampleSlice, SourceTemporal.FileAnchor;
    assert Needs(s, a, s.FileAnchor(a));
    assert FreshFiles(l, None)(s.FileAnchor(a)).Ok?;
  }

  // ---- two files at a time ------------------------------------------------------------------------

  lemma TwoLookups(l: Loader, s: SourceTemporal, b: Buffers, a: int)
    requires ValidLoader(l) && s.Valid() && s.IsRecordAnchor(a) && GoodBuffers(l, b) && Reads(l, s, a) && s.recordsPerSample == 2
    ensures var fa, fb, b1 := s.FileAnchor(a), s.FileAnchor(s.NextRecordAnchor(a)), FileFor(l, b, s.FileAnchor(a), {}).0;
            var b2 := if HasSuccessor(s, a) && fb != fa then FileFor(l, b1, fb, {}).0 else b1;
            var b3 := RefreshTwo(l, s, b, a, {}).0;
            && GoodBuffers(l, b1) && FreshFiles(l, None)(fa).Ok? && (HasSuccessor(s, a) ==> FreshFiles(l, None)(fb).Ok?)
            && b3.lru == b2.lru && b3.log == b2.log && b3.file == b2.file
  {
    hide Decode, SampleBracket, SourceTemporal.FileAnchor, SourceTemporal.NextRecordAnchor, FileFor, GoodBuffers, HasSuccessor;
    var fa, fb := s.FileAnchor(a), s.FileAnchor(s.NextRecordAnchor(a));
    assert Needs(s, a, fa);
    assert FreshFiles(l, None)(fa).Ok?;
    if HasSuccessor(s, a) { assert Needs(s, a, fb); }
    hide Needs, Reads, FreshFiles;
    LookedUp(l, b, fa);
    hide Keeps;
  }

  /** What a lookup does to the pair, in terms of file anchors. */
  ghost predicate Looked(b: Buffers, b1: Buffers, fa: int) {
    && b1.file == b.file && |b1.lru| > 0 && b1.lru[|b1.lru| - 1].0 == fa && Keeps(b1.lru, fa)
    && b1.log == (if Keeps(b.lru, fa) then b.log else b.log + [fa])
    && (Keeps(b.lru, fa) ==> forall x :: Keeps(b.lru, x) ==> Keeps(b1.lru, x))
    && (|b.lru| > 0 ==> Keeps(b1.lru, b.lru[|b.lru| - 1].0))
    && (forall x :: Keeps(b1.lru, x) ==> Keeps(b.lru, x) || x == fa)
  }

  lemma LookedIs(l: Loader, b: Buffers, fa: int)
    requires ValidLoader(l) && GoodBuffers(l, b) && FreshFiles(l, None)(fa).Ok?
    ensures Looked(b, FileFor(l, b, fa, {}).0, fa)
  {
    hide Keeps, FileFor, GoodBuffers, ValidLoader, FreshFiles;
    LookedUp(l, b, fa);
    KeepsNoOther(l, b, fa);
  }

  /** A lookup keeps no file but what was kept and the one looked up. */
  lemma KeepsNoOther(l: Loader, b: Buffers, fa: int)
    requires ValidLoader(l) && GoodBuffers(l, b)
    ensures var b1 := FileFor(l, b, fa, {}).0;
            b1.file == b.file && forall x :: Keeps(b1.lru, x) ==> Keeps(b.lru, x) || x == fa
  {
    hide Kept, Others, Decode, Newest, Keeps, Correct;
    if Keeps(b.lru, fa) {
      HitKeepsGood(l, b.lru, fa);
    } else if Read(l, fa, None, {}).Ok? {
      MissKeepsOnly(b.lru, (fa, Read(l, fa, None, {}).value));
    }
  }

  lemma MissKeepsOnly(lru: seq<(int, Dataset)>, e: (int, Dataset))
    ensures forall x :: Keeps(Newest(lru + [e]), x) ==> Keeps(lru, x) || x == e.0
  {
    var r := Newest(lru + [e]);
    forall x | Keeps(r, x)
      ensures Keeps(lru, x) || x == e.0
    {
      var i :| 0 <= i < |r| && r[i].0 == x;
      if x != e.0 { assert lru[i + |lru| + 1 - |r|] == r[i]; }
    }
  }

  lemma LookedLogs(b: Buffers, b1: Buffers, fa: int)
    requires Looked(b, b1, fa) && Logged(b) && NoRepeats(b.log) && (fa in b.log ==> Keeps(b.lru, fa))
    ensures Logged(b1) && NoRepeats(b1.log) && forall x :: x in b1.log <==> x in b.log || x == fa
  {
    hide Keeps;
    if b1.log != b.log { NoRepeatsGrow(b.log, fa); }
  }

  lemma TwoStep(l: Loader, s: SourceTemporal, anchors: seq<int>, n: nat, b: Buffers)
    requires Sweep(l, s, anchors) && n < |anchors| && GoodBuffers(l, b) && SweepOk(s, anchors, n, b) && s.recordsPerSample == 2
    ensures SweepOk(s, anchors, n + 1, RefreshTwo(l, s, b, anchors[n], {}).0)
  {
    hide Decode, SampleBracket, GoodBuffers, SourceTemporal.FileAnchor, SourceTemporal.NextRecordAnchor, SourceTemporal.IsRecordAnchor, SourceTemporal.Valid, RefreshTwo, FileFor, ValidLoader, Keeps,
         Looked, Logged, NoRepeats, Reads, HasSuccessor, NeededBy, FreshFiles;
    var a := anchors[n];
    var fa, fb, b3 := s.FileAnchor(a), s.FileAnchor(s.NextRecordAnchor(a)), RefreshTwo(l, s, b, a, {}).0;
    TwoLookups(l, s, b, a);
    var b1 := FileFor(l, b, fa, {}).0;
    if fa in b.log { SeenIsHeld(l, s, anchors, n, b, fa); }
    LookedIs(l, b, fa);
    LookedLogs(b, b1, fa);
    if HasSuccessor(s, a) && fb != fa {
      var b2 := FileFor(l, b1, fb, {}).0;
      if fb in b1.log { SecondIsHeld(l, s, anchors, n, b, b1); }
      LookedIs(l, b1, fb);
      LookedLogs(b1, b2, fb);
      PairHolds(s, b, b1, b2, b3, a);
    } else {
      OneFileHolds(s, b, b1, b3, a);
    }
    SweepLog(s, anchors, n, b, b3);
  }

  lemma SecondIsHeld(l: Loader, s: SourceTemporal, anchors: seq<int>, n: nat, b: Buffers, b1: Buffers)
    requires Sweep(l, s, anchors) && n < |anchors| && SweepOk(s, anchors, n, b) && s.recordsPerSample == 2 && HasSuccessor(s, anchors[n])
    requires var fa, fb := s.FileAnchor(anchors[n]), s.FileAnchor(s.NextRecordAnchor(anchors[n]));
             fa != fb && Looked(b, b1, fa) && fb in b.log
    ensures Keeps(b1.lru, s.FileAnchor(s.NextRecordAnchor(anchors[n])))
  {
    hide SourceTemporal.FileAnchor, SourceTemporal.NextRecordAnchor, SourceTemporal.IsRecordAnchor, SourceTemporal.Valid, ValidLoader, Keeps, Logged, NoRepeats, Reads, HasSuccessor;
    var fa, fb := s.FileAnchor(anchors[n]), s.FileAnchor(s.NextRecordAnchor(anchors[n]));
    SeenIsHeld(l, s, anchors, n, b, fb);
    var i :| 0 <= i < n && Needs(s, anchors[i], fb);
    SuccessorSeen(s, anchors[n - 1], anchors[n], anchors[i]);
    HoldingIs(s, b, anchors[n - 1], fa);
  }

  lemma PairHolds(s: SourceTemporal, b: Buffers, b1: Buffers, b2: Buffers, b3: Buffers, a: int)
    requires s.Valid() && s.recordsPerSample == 2 && HasSuccessor(s, a)
    requires Looked(b, b1, s.FileAnchor(a)) && Looked(b1, b2, s.FileAnchor(s.NextRecordAnchor(a))) && b3.lru == b2.lru && b3.log == b2.log && b3.file == b2.file
    requires (forall x :: x in b1.log <==> x in b.log || x == s.FileAnchor(a)) && (forall x :: x in b2.log <==> x in b1.log || x == s.FileAnchor(s.NextRecordAnchor(a)))
    requires Logged(b2)
    ensures Holding(s, b3, a) && Logged(b3) && forall x :: x in b3.log <==> x in b.log || Needs(s, a, x)
  {
    hide SourceTemporal.FileAnchor, SourceTemporal.NextRecordAnchor, SourceTemporal.Valid, Keeps, HasSuccessor;
  }

  lemma OneFileHolds(s: SourceTemporal, b: Buffers, b1: Buffers, b3: Buffers, a: int)
    requires s.Valid() && s.recordsPerSample == 2 && (HasSuccessor(s, a) ==> s.FileAnchor(s.NextRecordAnchor(a)) == s.FileAnchor(a))
    requires Looked(b, b1, s.FileAnchor(a)) && b3.lru == b1.lru && b3.log == b1.log && b3.file == b1.file
    requires (forall x :: x in b1.log <==> x in b.log || x == s.FileAnchor(a)) && Logged(b1)
    ensures Holding(s, b3, a) && Logged(b3) && forall x :: x in b3.log <==> x in b.log || Needs(s, a, x)
  {
    hide SourceTemporal.FileAnchor, SourceTemporal.NextRecordAnchor, SourceTemporal.Valid, Keeps, HasSuccessor;
  }

  lemma SweepStart(l: Loader, s: SourceTemporal, anchors: seq<int>)
    requires Sweep(l, s, anchors)
    ensures SweepOk(s, anchors, 0, SweepTo(l, s, anchors, 0))
  {
    assert forall fa :: !Keeps([], fa);
  }

  lemma SweepStep(l: Loader, s: SourceTemporal, anchors: seq<int>, n: nat)
    requires Sweep(l, s, anchors) && n < |anchors|
    ensures s.IsRecordAnchor(anchors[n])
    ensures var b := SweepTo(l, s, anchors, n);
            SweepTo(l, s, anchors, n + 1) == if s.recordsPerSample == 2 then RefreshTwo(l, s, b, anchors[n], {}).0 else RefreshOne(l, s, b, anchors[n], {}).0
  {
    hide GoodBuffers, RefreshOne, RefreshTwo, SourceTemporal.IsRecordAnchor, Reads, ValidLoader;
  }

  lemma {:induction false} SweepIsOk(l: Loader, s: SourceTemporal, anchors: seq<int>, n: nat)
    requires Sweep(l, s, anchors) && n <= |anchors|
    ensures SweepOk(s, anchors, n, SweepTo(l, s, anchors, n))
  {
    hide SweepOk, GoodBuffers, RefreshOne, RefreshTwo, SourceTemporal.IsRecordAnchor, Reads, ValidLoader, SweepTo;
    if n == 0 {
      SweepStart(l, s, anchors);
    } else {
      SweepIsOk(l, s, anchors, n - 1);
      SweepStep(l, s, anchors, n - 1);
      if s.recordsPerSample == 2 {
        TwoStep(l, s, anchors, n - 1, SweepTo(l, s, anchors, n - 1));
      } else {
        OneStep(l, s, anchors, n - 1, SweepTo(l, s, anchors, n - 1));
      }
    }
  }

  // ---- at any times ---------------------------------------------------------------------------------

  /** The buffers after refreshing a new provider at the first `n` times. */
  ghost function RefreshedAt(l: Loader, ts: seq<int>, n: nat): (b: Buffers)
    requires ValidLoader(l) && n <= |ts|
    ensures GoodBuffers(l, b)
  {
    if n == 0 then Empty()
    else
      var b := RefreshedAt(l, ts, n - 1);
      RefreshIsSampleAt(l, b, ts[n - 1], None, {});
      Refresh(l, b, ts[n - 1], None, {}).0
  }

  ghost function AnchorsOf(s: SourceTemporal, ts: seq<int>): (r: seq<int>)
    requires s.Valid()
    ensures |r| == |ts| && forall i :: 0 <= i < |ts| ==> r[i] == s.RecordAnchor(ts[i])
  {
    seq(|ts|, i requires 0 <= i < |ts| => s.RecordAnchor(ts[i]))
  }

  /** Times that do not go back, from the source's start on, at which every read succeeds. */
  ghost predicate Forward(l: Loader, s: SourceTemporal, ts: seq<int>) {
    && ValidLoader(l) && l.temporal == Some(s) && s.Valid()
    && (forall i, j :: 0 <= i < j < |ts| ==> ts[i] <= ts[j])
    && (forall i :: 0 <= i < |ts| ==> s.start.Instant() <= s.RecordAnchor(ts[i]) && Reads(l, s, s.RecordAnchor(ts[i])))
  }

  lemma ForwardSweeps(l: Loader, s: SourceTemporal, ts: seq<int>)
    requires Forward(l, s, ts)
    ensures Sweep(l, s, AnchorsOf(s, ts))
  {
    hide SourceTemporal.IsRecordAnchor, SourceTemporal.RecordAnchor, Reads, ValidLoader, SourceTemporal.NextRecordAnchor;
    var anchors := AnchorsOf(s, ts);
    forall i | 0 <= i < |ts|
      ensures s.IsRecordAnchor(anchors[i])
    {
      RecordAnchorSnaps(s, ts[i], ts[i]);
    }
    forall i, j | 0 <= i < j < |ts|
      ensures anchors[i] <= anchors[j]
    {
      RecordAnchorSnaps(s, ts[i], ts[j]);
    }
  }

  lemma {:induction false} RefreshedIsSwept(l: Loader, s: SourceTemporal, ts: seq<int>, n: nat)
    requires Forward(l, s, ts) && Sweep(l, s, AnchorsOf(s, ts)) && n <= |ts|
    ensures RefreshedAt(l, ts, n) == SweepTo(l, s, AnchorsOf(s, ts), n)
  {
    hide GoodBuffers, RefreshOne, RefreshTwo, SourceTemporal.IsRecordAnchor, SourceTemporal.RecordAnchor, Reads, ValidLoader, Sweep;
    if n > 0 {
      RefreshedIsSwept(l, s, ts, n - 1);
      SweepStep(l, s, AnchorsOf(s, ts), n - 1);
      hide SweepTo;
    }
  }

  /** The sample at one of these times reads file `fa`. */
  ghost predicate NeededAt(s: SourceTemporal, ts: seq<int>, fa: int)
    requires s.Valid()
  {
    exists i :: 0 <= i < |ts| && Needs(s, s.RecordAnchor(ts[i]), fa)
  }

  /** Refreshing at times that do not go back, with reads that succeed, decodes every file it
      needs exactly once, and no other, with one record per sample or two. */
  lemma ForwardDecodesOnce(l: Loader, s: SourceTemporal, ts: seq<int>)
    requires Forward(l, s, ts)
    ensures var log := RefreshedAt(l, ts, |ts|).log;
            NoRepeats(log) && forall fa :: fa in log <==> NeededAt(s, ts, fa)
  {
    var anchors := AnchorsOf(s, ts);
    ForwardSweeps(l, s, ts);
    assert s.Valid() && ValidLoader(l);
    hide RefreshedAt, SweepTo, Forward, Sweep, SourceTemporal.Valid, AnchorsOf, ValidLoader, NeededBy, NeededAt, NoRepeats;
    RefreshedIsSwept(l, s, ts, |ts|);
    SweptLog(l, s, anchors);
    forall fa
      ensures NeededBy(s, anchors, |ts|, fa) <==> NeededAt(s, ts, fa)
    {
      NeededAtTimes(s, ts, fa);
    }
  }

  lemma SweptLog(l: Loader, s: SourceTemporal, anchors: seq<int>)
    requires Sweep(l, s, anchors)
    ensures var log := SweepTo(l, s, anchors, |anchors|).log;
            NoRepeats(log) && forall fa :: fa in log <==> NeededBy(s, anchors, |anchors|, fa)
  {
    hide SweepTo, NeededBy, Holding, Logged, NoRepeats;
    SweepIsOk(l, s, anchors, |anchors|);
  }

  lemma NeededAtTimes(s: SourceTemporal, ts: seq<int>, fa: int)
    requires s.Valid()
    ensures NeededBy(s, AnchorsOf(s, ts), |ts|, fa) <==> NeededAt(s, ts, fa)
  {
    hide Needs, SourceTemporal.RecordAnchor, SourceTemporal.Valid;
    var anchors := AnchorsOf(s, ts);
    if NeededBy(s, anchors, |ts|, fa) {
      var i :| 0 <= i < |ts| && Needs(s, anchors[i], fa);
      assert Needs(s, s.RecordAnchor(ts[i]), fa);
    }
    if NeededAt(s, ts, fa) {
      var i :| 0 <= i < |ts| && Needs(s, s.RecordAnchor(ts[i]), fa);
      assert Needs(s, anchors[i], fa);
    }
  }
}
