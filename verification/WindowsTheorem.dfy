/** The main result about windows: when one decode of the union gives exactly what decoding
    every window alone gives, and fails exactly when some window alone fails. Always, with one
    record per sample; with two, exactly when the file across the seam treats the windows and
    their union alike. */
module WindowsTheorem {
  import opened Wrappers
  import opened NativeData
  import opened Selection
  import opened WindowUnion
  import opened Temporal
  import opened Sampling
  import opened WindowLaws
  import opened WindowRefinement
  import opened WindowsBracket
  import opened WindowsAtOnce

  // ---- cutting a window commutes with slicing and bracketing --------------------------------

  lemma SliceKeepsIsTime(ds: Dataset, td: string, rec: int, d: string)
    requires ds.Valid() && SliceDataset(ds, td, rec).Ok? && d != td
    ensures IsTime(SliceDataset(ds, td, rec).value, d) <==> IsTime(ds, d)
  {
    hide Words, Lower, Field.Valid, SliceField;
    var a := SliceFields(ds.coords - {td}, td, rec);
    if d in ds.coords {
      assert d in a && a[d] == SliceField(ds.coords[d], td, rec) && a[d].Ok?;
    }
  }

  lemma BracketKeepsIsTime(d0: Dataset, d1: Dataset, rec0: nat, rec1: nat, td: string, t0: int, t1: int, d: string)
    requires d0.Valid() && d1.Valid() && BracketDataset(d0, rec0, d1, rec1, td, t0, t1).Ok? && d != td
    ensures IsTime(BracketDataset(d0, rec0, d1, rec1, td, t0, t1).value, d) <==> IsTime(d0, d)
  {
    hide Words, Lower, Field.Valid, StackTwo, Collect;
  }

  lemma SliceOne(u: Union, m: Wants, ds: Dataset, td: string, rec: int)
    requires ds.Valid() && OwnTime(ds, td) && td !in m && Covers(u, m) && SliceDataset(ds, td, rec).Ok?
    ensures var s := SliceDataset(ds, td, rec).value;
            && (OneWindow(u, m, s).Ok? <==> OneWindow(u, m, ds).Ok?)
            && (OneWindow(u, m, ds).Ok? ==> SliceDataset(OneWindow(u, m, ds).value, td, rec) == OneWindow(u, m, s))
  {
    var s, p := SliceDataset(ds, td, rec).value, Cuts(u, m);
    forall d | d in m
      ensures IsTime(s, d) <==> IsTime(ds, d)
    {
      SliceKeepsIsTime(ds, td, rec, d);
    }
    RefusesSame(u, m, s, ds);
    hide SliceDataset, IsTime, Refuses, DatasetReaches, WindowDataset, OwnTime;
    SlicedReaches(ds, p, td, rec);
    if OneWindow(u, m, ds).Ok? { DatasetSliceWindow(ds, p, td, rec); }
  }

  lemma BracketOne(u: Union, m: Wants, d0: Dataset, d1: Dataset, rec0: nat, rec1: nat, td: string, t0: int, t1: int)
    requires d0.Valid() && d1.Valid() && OwnTime(d0, td) && td !in m && Covers(u, m) && BracketDataset(d0, rec0, d1, rec1, td, t0, t1).Ok?
    ensures OneWindow(u, m, BracketDataset(d0, rec0, d1, rec1, td, t0, t1).value).Ok? <==> OneWindow(u, m, d0).Ok?
  {
    var b := BracketDataset(d0, rec0, d1, rec1, td, t0, t1).value;
    forall d | d in m
      ensures IsTime(b, d) <==> IsTime(d0, d)
    {
      BracketKeepsIsTime(d0, d1, rec0, rec1, td, t0, t1, d);
    }
    RefusesSame(u, m, b, d0);
    hide BracketDataset, IsTime, Refuses, DatasetReaches, WindowDataset, OwnTime;
    BracketReaches(d0, d1, rec0, rec1, td, t0, t1, Cuts(u, m));
  }

  // ---- one record per sample ------------------------------------------------------------------

  /** A file as the union reads it, and what it shares with the file itself. */
  lemma UnionFile(l: Loader, s: SourceTemporal, ws: seq<Window>, u: Union, fa: int)
    requires Together(l, ws, u) && l.temporal == Some(s) && FilesTogether(l, u)(fa).Ok?
    ensures l.fetch(fa).Ok?
    ensures var file, d := l.fetch(fa).value, FilesTogether(l, u)(fa).value;
            && file.Valid() && file.dataset.Valid() && Readable(file, u.lists) && OwnTime(d, s.timeDim) && s.timeDim !in u.lists
            && DatasetReaches(file.dataset, Lists(u.lists)) && d == WindowDataset(file.dataset, Lists(u.lists))
            && AxisOf(l.times, d, s.timeDim) == AxisOf(l.times, file.dataset, s.timeDim)
            && TimeLen(d, s.timeDim) == TimeLen(file.dataset, s.timeDim)
  {
    if l.fetch(fa).Err? { FileMissing(l, ws, u, fa); }
    FileReads(l, ws, u, fa);
    UnionAllowed(l, ws, u);
    var file := l.fetch(fa).value;
    FileIsValid(file);
    hide FilesTogether, Readable, WindowDataset, DatasetReaches, TimeLen, AxisOf;
    WindowKeepsTime(file, l.times, Lists(u.lists), s.timeDim);
  }

  /** A file as window `i` reads it. */
  lemma WindowFile(l: Loader, s: SourceTemporal, ws: seq<Window>, u: Union, fa: int, i: nat)
    requires Together(l, ws, u) && l.temporal == Some(s) && i < |ws| && FilesAlone(l, ws[i])(fa).Ok?
    ensures l.fetch(fa).Ok?
    ensures var file, d := l.fetch(fa).value, FilesAlone(l, ws[i])(fa).value;
            && file.Valid() && file.dataset.Valid() && Readable(file, u.wanted[i]) && OwnTime(d, s.timeDim) && s.timeDim !in u.wanted[i]
            && DatasetReaches(file.dataset, Lists(u.wanted[i])) && d == WindowDataset(file.dataset, Lists(u.wanted[i]))
            && AxisOf(l.times, d, s.timeDim) == AxisOf(l.times, file.dataset, s.timeDim)
            && TimeLen(d, s.timeDim) == TimeLen(file.dataset, s.timeDim)
  {
    if l.fetch(fa).Err? { FileMissing(l, ws, u, fa); }
    FileReads(l, ws, u, fa);
    UnionAllowed(l, ws, u);
    var file := l.fetch(fa).value;
    assert FileRead(l, file, ws[i], u.wanted[i], fa);
    FileIsValid(file);
    hide FilesAlone, Readable, WindowDataset, DatasetReaches, TimeLen, AxisOf;
    WindowKeepsTime(file, l.times, Lists(u.wanted[i]), s.timeDim);
  }

  /** The record an anchor means is the same in the union's read and in window `i`'s. */
  lemma SameRecord(l: Loader, s: SourceTemporal, ws: seq<Window>, u: Union, fa: int, i: nat, anchor: int)
    requires Together(l, ws, u) && l.temporal == Some(s) && i < |ws| && s.Valid() && s.IsRecordAnchor(anchor)
    requires FilesTogether(l, u)(fa).Ok? && FilesAlone(l, ws[i])(fa).Ok?
    ensures RecordIndex(l.times, FilesTogether(l, u)(fa).value, s, anchor) == RecordIndex(l.times, FilesAlone(l, ws[i])(fa).value, s, anchor)
    ensures TimeLen(FilesTogether(l, u)(fa).value, s.timeDim) == TimeLen(FilesAlone(l, ws[i])(fa).value, s.timeDim)
  {
    hide FilesTogether, FilesAlone, SourceTemporal.IsRecordAnchor, Readable, OwnTime, RecordIndex, TimeLen, AxisOf, SourceTemporal.Valid, IsUnion, Covers, Distinct, ValidLoader, Allowed, ValidWindow;
    UnionFile(l, s, ws, u, fa);
    WindowFile(l, s, ws, u, fa, i);
    SameAxisSameRecord(l.times, FilesTogether(l, u)(fa).value, FilesAlone(l, ws[i])(fa).value, s, anchor);
  }

  ghost function SliceAlones(l: Loader, s: SourceTemporal, anchor: int, ws: seq<Window>): (r: seq<Result<Dataset, Error>>)
    requires ValidLoader(l) && s.Valid() && s.IsRecordAnchor(anchor)
    ensures |r| == |ws| && forall i :: 0 <= i < |ws| ==> r[i] == SampleSlice(l, s, anchor, FilesAlone(l, ws[i]))
  {
    seq(|ws|, i requires 0 <= i < |ws| => SampleSlice(l, s, anchor, FilesAlone(l, ws[i])))
  }

  lemma SliceMatches(l: Loader, s: SourceTemporal, anchor: int, ws: seq<Window>, u: Union)
    requires Together(l, ws, u) && l.temporal == Some(s) && s.Valid() && s.IsRecordAnchor(anchor)
    ensures Matches(l, ws, u, SampleSlice(l, s, anchor, FilesTogether(l, u)), SliceAlones(l, s, anchor, ws))
  {
    var fa, rs := s.FileAnchor(anchor), SliceAlones(l, s, anchor, ws);
    var together := SampleSlice(l, s, anchor, FilesTogether(l, u));
    assert |ws| > 0;
    if together.Ok? {
      forall i | 0 <= i < |ws|
        ensures OneMatches(u, u.wanted[i], together.value, rs[i])
      {
        SliceMatchesAt(l, s, anchor, ws, u, i);
      }
    }
    if forall i :: 0 <= i < |ws| ==> rs[i].Ok? {
      SliceBack(l, s, anchor, ws, u);
    }
  }

  lemma WantedCount(ws: seq<Window>, u: Union)
    requires IsUnion(ws, u)
    ensures |u.wanted| == |ws|
  {
  }

  /** A record of what a read gave. */
  function Sliced(read: Result<Dataset, Error>, td: string, rec: int): Result<Dataset, Error>
    requires read.Ok? ==> read.value.Valid()
  {
    match read
    case Err(e) => Err(e)
    case Ok(d) => SliceDataset(d, td, rec)
  }

  lemma SlicedMatches(u: Union, m: Wants, d: Dataset, read: Result<Dataset, Error>, td: string, rec: int)
    requires d.Valid() && OwnTime(d, td) && td !in m && Covers(u, m) && SliceDataset(d, td, rec).Ok? && OneMatches(u, m, d, read)
    requires read.Ok? ==> read.value.Valid()
    ensures OneMatches(u, m, SliceDataset(d, td, rec).value, Sliced(read, td, rec))
  {
    hide OneWindow, SliceDataset, OwnTime, Covers;
    SliceOne(u, m, d, td, rec);
  }

  lemma SampleSliceIs(l: Loader, s: SourceTemporal, anchor: int, files: Files)
    requires s.Valid() && s.IsRecordAnchor(anchor)
    ensures var read := files(s.FileAnchor(anchor));
            SampleSlice(l, s, anchor, files) == Sliced(read, s.timeDim, if read.Ok? then RecordIndex(l.times, read.value, s, anchor) else 0)
  {
    hide RecordIndex, SliceDataset, SourceTemporal.FileAnchor, SourceTemporal.IsRecordAnchor;
  }

  lemma SliceMatchesAt(l: Loader, s: SourceTemporal, anchor: int, ws: seq<Window>, u: Union, i: nat)
    requires Together(l, ws, u) && l.temporal == Some(s) && s.Valid() && s.IsRecordAnchor(anchor) && i < |ws|
    requires SampleSlice(l, s, anchor, FilesTogether(l, u)).Ok?
    ensures OneMatches(u, u.wanted[i], SampleSlice(l, s, anchor, FilesTogether(l, u)).value, SampleSlice(l, s, anchor, FilesAlone(l, ws[i])))
  {
    hide FilesTogether, FilesAlone, SourceTemporal.IsRecordAnchor, SourceTemporal.FileAnchor, SourceTemporal.Valid, OneWindow, OneMatches, RecordIndex,
         SliceDataset, SampleSlice, ValidLoader, IsUnion, Covers, Distinct, Allowed, ValidWindow, OwnTime, Readable, WindowDataset, DatasetReaches, Lists, AxisOf;
    var fa := s.FileAnchor(anchor);
    WantedCount(ws, u);
    SampleSliceIs(l, s, anchor, FilesTogether(l, u));
    SampleSliceIs(l, s, anchor, FilesAlone(l, ws[i]));
    UnionFile(l, s, ws, u, fa);
    FileMatches(l, ws, u, fa);
    UnionAllowed(l, ws, u);
    if FilesAlone(l, ws[i])(fa).Ok? {
      SameRecord(l, s, ws, u, fa, i, anchor);
    }
    var d := FilesTogether(l, u)(fa).value;
    SlicedMatches(u, u.wanted[i], d, FilesAlone(l, ws[i])(fa), s.timeDim, RecordIndex(l.times, d, s, anchor));
  }

  lemma SliceBack(l: Loader, s: SourceTemporal, anchor: int, ws: seq<Window>, u: Union)
    requires Together(l, ws, u) && l.temporal == Some(s) && s.Valid() && s.IsRecordAnchor(anchor)
    requires forall i :: 0 <= i < |ws| ==> SampleSlice(l, s, anchor, FilesAlone(l, ws[i])).Ok?
    ensures SampleSlice(l, s, anchor, FilesTogether(l, u)).Ok?
  {
    hide FilesTogether, FilesAlone, SourceTemporal.IsRecordAnchor, SourceTemporal.FileAnchor, SourceTemporal.Valid, RecordIndex,
         SliceDataset, SampleSlice, ValidLoader, IsUnion, Covers, Distinct, Allowed, ValidWindow, OwnTime, Readable, WindowDataset, DatasetReaches, Lists, AxisOf;
    var fa := s.FileAnchor(anchor);
    WantedCount(ws, u);
    forall i | 0 <= i < |ws|
      ensures FilesAlone(l, ws[i])(fa).Ok? && SampleSlice(l, s, anchor, FilesAlone(l, ws[i])).Ok?
    {
      SampleSliceIs(l, s, anchor, FilesAlone(l, ws[i]));
    }
    assert FilesAlone(l, ws[0])(fa).Ok?;
    WindowFile(l, s, ws, u, fa, 0);
    FileMatches(l, ws, u, fa);
    UnionFile(l, s, ws, u, fa);
    SameRecord(l, s, ws, u, fa, 0, anchor);
    SampleSliceIs(l, s, anchor, FilesAlone(l, ws[0]));
    SampleSliceIs(l, s, anchor, FilesTogether(l, u));
    var file, rec := l.fetch(fa).value, RecordIndex(l.times, FilesAlone(l, ws[0])(fa).value, s, anchor);
    NotListed(u.wanted[0], s.timeDim);
    NotListed(u.lists, s.timeDim);
    DatasetSliceWindow(file.dataset, Lists(u.wanted[0]), s.timeDim, rec);
    DatasetSliceWindow(file.dataset, Lists(u.lists), s.timeDim, rec);
  }

  lemma NotListed(m: Wants, d: string)
    requires d !in m
    ensures d !in Lists(m)
  {
  }

  // ---- two records per sample -----------------------------------------------------------------------

  /** `files` reads file `fa` under the wants `m`. */
  ghost predicate FileUnder(l: Loader, files: Files, m: Wants, fa: int)
    requires ValidLoader(l)
  {
    match l.fetch(fa)
    case Err(_) => files(fa).Err?
    case Ok(file) =>
      && (files(fa).Ok? <==> Readable(file, m))
      && (Readable(file, m) ==> DatasetReaches(file.dataset, Lists(m)) && files(fa) == Ok(WindowDataset(file.dataset, Lists(m))))
  }

  ghost predicate ReadsUnder(l: Loader, files: Files, m: Wants)
    requires ValidLoader(l)
  {
    forall fa :: FileUnder(l, files, m, fa)
  }

  lemma TogetherReads(l: Loader, ws: seq<Window>, u: Union)
    requires Together(l, ws, u)
    ensures ReadsUnder(l, FilesTogether(l, u), u.lists)
  {
    hide FilesTogether, Readable, WindowDataset, DatasetReaches;
    forall fa
      ensures FileUnder(l, FilesTogether(l, u), u.lists, fa)
    {
      if l.fetch(fa).Err? { FileMissing(l, ws, u, fa); } else { FileReads(l, ws, u, fa); }
    }
  }

  lemma AloneReads(l: Loader, ws: seq<Window>, u: Union, i: nat)
    requires Together(l, ws, u) && i < |ws| && i < |u.wanted|
    ensures ReadsUnder(l, FilesAlone(l, ws[i]), u.wanted[i])
  {
    hide FilesAlone, Readable, WindowDataset, DatasetReaches;
    forall fa
      ensures FileUnder(l, FilesAlone(l, ws[i]), u.wanted[i], fa)
    {
      if l.fetch(fa).Err? { FileMissing(l, ws, u, fa); }
      else {
        FileReads(l, ws, u, fa);
        assert FileRead(l, l.fetch(fa).value, ws[i], u.wanted[i], fa);
      }
    }
  }

  /** The anchor's own file fetches and can be read under the wants. */
  ghost predicate ReadsFirst(l: Loader, s: SourceTemporal, anchor: int, m: Wants)
    requires s.Valid()
  {
    l.fetch(s.FileAnchor(anchor)).Ok? && Readable(l.fetch(s.FileAnchor(anchor)).value, m)
  }

  /** The next record is found under the wants: there is a next anchor, the file that covers
      it fetches and can be read, and the record the anchor means is inside it. */
  ghost predicate FindsNext(l: Loader, s: SourceTemporal, anchor: int, m: Wants)
    requires ValidLoader(l) && s.Valid() && s.IsRecordAnchor(anchor)
  {
    RecordAnchorSnaps(s, anchor, anchor);
    var next := s.NextRecordAnchor(anchor);
    HasSuccessor(s, anchor) &&
    match l.fetch(s.FileAnchor(next))
    case Err(_) => false
    case Ok(file) => FileIsValid(file); Readable(file, m) && RecordIndex(l.times, file.dataset, s, next) < TimeLen(file.dataset, s.timeDim)
  }

  /** Where a bracket ends: a file, a record of it, and that record's anchor. */
  datatype End = End(ds: Dataset, rec: nat, anchor: int)

  /** The next record, when the wants find it; else the anchor's own again. */
  ghost function EndUnder(l: Loader, s: SourceTemporal, anchor: int, m: Wants): (e: End)
    requires ValidLoader(l) && s.Valid() && s.IsRecordAnchor(anchor) && l.fetch(s.FileAnchor(anchor)).Ok?
    ensures e.ds.Valid()
  {
    RecordAnchorSnaps(s, anchor, anchor);
    var at := if FindsNext(l, s, anchor, m) then s.NextRecordAnchor(anchor) else anchor;
    var file := l.fetch(s.FileAnchor(at)).value;
    FileIsValid(file);
    End(file.dataset, RecordIndex(l.times, file.dataset, s, at), at)
  }

  /** Under the wants, the anchor's record stacks with the record the bracket ends at. */
  ghost predicate Brackets(l: Loader, s: SourceTemporal, anchor: int, m: Wants)
    requires ValidLoader(l) && s.Valid() && s.IsRecordAnchor(anchor) && l.fetch(s.FileAnchor(anchor)).Ok?
  {
    var g0, e := l.fetch(s.FileAnchor(anchor)).value.dataset, EndUnder(l, s, anchor, m);
    FileIsValid(l.fetch(s.FileAnchor(anchor)).value);
    StacksUnder(g0, e.ds, s.timeDim, RecordIndex(l.times, g0, s, anchor), e.rec, Lists(m))
  }

  /** The bracket of the two files seen through the wants. */
  ghost function BracketOf(l: Loader, s: SourceTemporal, anchor: int, m: Wants): Result<Dataset, Error>
    requires ValidLoader(l) && s.Valid() && s.IsRecordAnchor(anchor) && l.fetch(s.FileAnchor(anchor)).Ok?
    requires DatasetReaches(l.fetch(s.FileAnchor(anchor)).value.dataset, Lists(m)) && DatasetReaches(EndUnder(l, s, anchor, m).ds, Lists(m))
  {
    var g0, e, lists := l.fetch(s.FileAnchor(anchor)).value.dataset, EndUnder(l, s, anchor, m), Lists(m);
    FileIsValid(l.fetch(s.FileAnchor(anchor)).value);
    BracketDataset(WindowDataset(g0, lists), RecordIndex(l.times, g0, s, anchor), WindowDataset(e.ds, lists), e.rec, s.timeDim, anchor, e.anchor)
  }

  /** Which record an anchor means, and how many there are, are the file's own in any read. */
  lemma RecordUnder(l: Loader, s: SourceTemporal, files: Files, m: Wants, fa: int, a: int)
    requires ValidLoader(l) && l.temporal == Some(s) && s.timeDim !in m && s.Valid() && s.IsRecordAnchor(a) && FileUnder(l, files, m, fa) && files(fa).Ok?
    ensures l.fetch(fa).Ok?
    ensures var file, d := l.fetch(fa).value, files(fa).value;
            && file.Valid() && file.dataset.Valid() && OwnTime(d, s.timeDim)
            && RecordIndex(l.times, d, s, a) == RecordIndex(l.times, file.dataset, s, a) && TimeLen(d, s.timeDim) == TimeLen(file.dataset, s.timeDim)
  {
    hide Readable, WindowDataset, DatasetReaches, TimeLen, AxisOf, RecordIndex, SourceTemporal.Valid, SourceTemporal.IsRecordAnchor, Lists;
    var file := l.fetch(fa).value;
    FileIsValid(file);
    NotListed(m, s.timeDim);
    WindowKeepsTime(file, l.times, Lists(m), s.timeDim);
    SameAxisSameRecord(l.times, files(fa).value, file.dataset, s, a);
  }

  lemma FoundIff(l: Loader, s: SourceTemporal, anchor: int, files: Files)
    requires s.Valid() && s.IsRecordAnchor(anchor)
    ensures s.IsRecordAnchor(s.NextRecordAnchor(anchor)) && anchor < s.NextRecordAnchor(anchor)
    ensures var next := s.NextRecordAnchor(anchor);
            var read := files(s.FileAnchor(next));
            && (Successor(l, s, anchor, files).Some? <==> HasSuccessor(s, anchor) && read.Ok? && RecordIndex(l.times, read.value, s, next) < TimeLen(read.value, s.timeDim))
            && (Successor(l, s, anchor, files).Some? ==> Successor(l, s, anchor, files).value == (read.value, RecordIndex(l.times, read.value, s, next)))
  {
    hide RecordIndex, TimeLen, SourceTemporal.FileAnchor;
    RecordAnchorSnaps(s, anchor, anchor);
  }

  /** The successor a bracket reads is the next record its wants find. */
  lemma SuccessorUnder(l: Loader, s: SourceTemporal, anchor: int, files: Files, m: Wants)
    requires ValidLoader(l) && l.temporal == Some(s) && s.timeDim !in m && s.Valid() && s.IsRecordAnchor(anchor) && ReadsUnder(l, files, m)
    ensures Successor(l, s, anchor, files).Some? <==> FindsNext(l, s, anchor, m)
    ensures FindsNext(l, s, anchor, m) ==>
              var next := s.NextRecordAnchor(anchor);
              && s.IsRecordAnchor(next) && l.fetch(s.FileAnchor(next)).Ok?
              && var file := l.fetch(s.FileAnchor(next)).value;
                 DatasetReaches(file.dataset, Lists(m))
                 && Successor(l, s, anchor, files).value == (WindowDataset(file.dataset, Lists(m)), RecordIndex(l.times, file.dataset, s, next))
  {
    hide Readable, WindowDataset, DatasetReaches, TimeLen, RecordIndex, SourceTemporal.Valid, SourceTemporal.IsRecordAnchor, SourceTemporal.NextRecordAnchor, SourceTemporal.FileAnchor, Lists, HasSuccessor,
         Successor, ValidLoader;
    var next := s.NextRecordAnchor(anchor);
    var fb := s.FileAnchor(next);
    FoundIff(l, s, anchor, files);
    assert FileUnder(l, files, m, fb);
    if files(fb).Ok? { RecordUnder(l, s, files, m, fb, next); }
  }

  /** A bracket over files read under the wants: it needs the first file, is the bracket of
      the two files seen through the wants, and succeeds exactly when their records stack. */
  lemma BracketUnder(l: Loader, s: SourceTemporal, anchor: int, files: Files, m: Wants)
    requires ValidLoader(l) && l.temporal == Some(s) && s.timeDim !in m && s.Valid() && s.IsRecordAnchor(anchor) && ReadsUnder(l, files, m)
    ensures !ReadsFirst(l, s, anchor, m) ==> SampleBracket(l, s, anchor, files).Err?
    ensures ReadsFirst(l, s, anchor, m) ==>
              var g0, e, lists := l.fetch(s.FileAnchor(anchor)).value.dataset, EndUnder(l, s, anchor, m), Lists(m);
              && g0.Valid() && DatasetReaches(g0, lists) && DatasetReaches(e.ds, lists)
              && SampleBracket(l, s, anchor, files) == BracketOf(l, s, anchor, m)
              && (SampleBracket(l, s, anchor, files).Ok? <==> Brackets(l, s, anchor, m))
  {
    hide Readable, WindowDataset, DatasetReaches, TimeLen, RecordIndex, SourceTemporal.Valid, SourceTemporal.IsRecordAnchor, SourceTemporal.NextRecordAnchor, SourceTemporal.FileAnchor, Lists,
         Successor, ValidLoader, FindsNext, StacksUnder, BracketDataset;
    var fa := s.FileAnchor(anchor);
    assert FileUnder(l, files, m, fa);
    if ReadsFirst(l, s, anchor, m) {
      RecordUnder(l, s, files, m, fa, anchor);
      SuccessorUnder(l, s, anchor, files, m);
      var g0, e := l.fetch(fa).value.dataset, EndUnder(l, s, anchor, m);
      BracketUnderIff(g0, e.ds, RecordIndex(l.times, g0, s, anchor), e.rec, s.timeDim, anchor, e.anchor, Lists(m));
    }
  }

  // ---- across the seam --------------------------------------------------------------------------------

  /** The union and a window treat the seam alike: both find the next record or neither does,
      and when they do, the window's cells of it are the same either way. */
  ghost predicate SameSeam(l: Loader, s: SourceTemporal, anchor: int, u: Union, m: Wants)
    requires ValidLoader(l) && s.Valid() && s.IsRecordAnchor(anchor) && l.fetch(s.FileAnchor(anchor)).Ok? && Covers(u, m)
  {
    (FindsNext(l, s, anchor, u.lists) <==> FindsNext(l, s, anchor, m)) &&
    (FindsNext(l, s, anchor, m) ==>
      var g0, e := l.fetch(s.FileAnchor(anchor)).value.dataset, EndUnder(l, s, anchor, m);
      FileIsValid(l.fetch(s.FileAnchor(anchor)).value);
      AllSameCells(g0.variables, e.ds.variables, s.timeDim, e.rec, Lists(u.lists), Cuts(u, m), Lists(m)))
  }

  /** A window is refused its cut of the union's bracket exactly when it cannot read the
      anchor's own file. */
  lemma CutNeedsFirst(l: Loader, s: SourceTemporal, anchor: int, ws: seq<Window>, u: Union, i: nat)
    requires Together(l, ws, u) && l.temporal == Some(s) && s.Valid() && s.IsRecordAnchor(anchor) && i < |ws| && i < |u.wanted|
    requires SampleBracket(l, s, anchor, FilesTogether(l, u)).Ok?
    ensures OneWindow(u, u.wanted[i], SampleBracket(l, s, anchor, FilesTogether(l, u)).value).Ok? <==> ReadsFirst(l, s, anchor, u.wanted[i])
  {
    hide FilesTogether, Readable, WindowDataset, DatasetReaches, RecordIndex, SourceTemporal.Valid, SourceTemporal.IsRecordAnchor, SourceTemporal.FileAnchor, Lists,
         SampleBracket, ValidLoader, ReadsUnder, BracketDataset, OneWindow, EndUnder, OwnTime, Brackets, IsUnion, Covers, Distinct, Allowed, ValidWindow;
    var fa := s.FileAnchor(anchor);
    TogetherReads(l, ws, u);
    UnionAllowed(l, ws, u);
    BracketUnder(l, s, anchor, FilesTogether(l, u), u.lists);
    assert FileUnder(l, FilesTogether(l, u), u.lists, fa) by { ReadsAt(l, FilesTogether(l, u), u.lists, fa); }
    RecordUnder(l, s, FilesTogether(l, u), u.lists, fa, anchor);
    OneOfRead(l.fetch(fa).value, ws, u, i);
    var g0, e := l.fetch(fa).value.dataset, EndUnder(l, s, anchor, u.lists);
    BracketOne(u, u.wanted[i], WindowDataset(g0, Lists(u.lists)), WindowDataset(e.ds, Lists(u.lists)), RecordIndex(l.times, g0, s, anchor), e.rec, s.timeDim, anchor, e.anchor);
  }

  lemma ReadsAt(l: Loader, files: Files, m: Wants, fa: int)
    requires ValidLoader(l) && ReadsUnder(l, files, m)
    ensures FileUnder(l, files, m, fa)
  {
  }

  /** Where both brackets are made, the cut of the union's is the window's own exactly when
      they treat the seam alike. */
  lemma CutIsAlone(l: Loader, s: SourceTemporal, anchor: int, ws: seq<Window>, u: Union, i: nat)
    requires Together(l, ws, u) && l.temporal == Some(s) && s.Valid() && s.IsRecordAnchor(anchor) && i < |ws| && i < |u.wanted|
    requires ReadsFirst(l, s, anchor, u.lists) && ReadsFirst(l, s, anchor, u.wanted[i])
    requires SampleBracket(l, s, anchor, FilesTogether(l, u)).Ok? && SampleBracket(l, s, anchor, FilesAlone(l, ws[i])).Ok?
    ensures OneWindow(u, u.wanted[i], SampleBracket(l, s, anchor, FilesTogether(l, u)).value) == SampleBracket(l, s, anchor, FilesAlone(l, ws[i]))
       <==> SameSeam(l, s, anchor, u, u.wanted[i])
  {
    hide FilesTogether, FilesAlone, Readable, DatasetReaches, RecordIndex, SourceTemporal.Valid, SourceTemporal.IsRecordAnchor, SourceTemporal.FileAnchor, Lists, Cuts, FindsNext, EndUnder,
         SampleBracket, ValidLoader, ReadsUnder, BracketDataset, Brackets, IsUnion, Covers, Distinct, Allowed, ValidWindow, Refuses, AllSameCells, WindowDataset;
    CutNeedsFirst(l, s, anchor, ws, u, i);
    TogetherReads(l, ws, u);
    AloneReads(l, ws, u, i);
    UnionAllowed(l, ws, u);
    var m := u.wanted[i];
    BracketUnder(l, s, anchor, FilesTogether(l, u), u.lists);
    BracketUnder(l, s, anchor, FilesAlone(l, ws[i]), m);
    CutKeys(u, m, s.timeDim);
    CutsRefine(ws, u, i);
    if FindsNext(l, s, anchor, u.lists) <==> FindsNext(l, s, anchor, m) {
      assert EndUnder(l, s, anchor, u.lists) == EndUnder(l, s, anchor, m) by { EndsAlike(l, s, anchor, u.lists, m); }
      SameEnd(l, s, anchor, u, m);
    } else {
      OtherEnd(l, s, anchor, u, m);
    }
  }

  lemma EndsAlike(l: Loader, s: SourceTemporal, anchor: int, a: Wants, b: Wants)
    requires ValidLoader(l) && s.Valid() && s.IsRecordAnchor(anchor) && l.fetch(s.FileAnchor(anchor)).Ok? && (FindsNext(l, s, anchor, a) <==> FindsNext(l, s, anchor, b))
    ensures EndUnder(l, s, anchor, a) == EndUnder(l, s, anchor, b)
  {
    hide FindsNext, RecordIndex, SourceTemporal.Valid, SourceTemporal.IsRecordAnchor, SourceTemporal.FileAnchor, SourceTemporal.NextRecordAnchor;
  }

  /** Ending at the same record, the cut is the window's own bracket when the cells are. */
  lemma SameEnd(l: Loader, s: SourceTemporal, anchor: int, u: Union, m: Wants)
    requires ValidLoader(l) && s.Valid() && s.IsRecordAnchor(anchor) && l.fetch(s.FileAnchor(anchor)).Ok? && Covers(u, m) && s.timeDim !in Cuts(u, m)
    requires Refines(Lists(u.lists), Cuts(u, m), Lists(m)) && (FindsNext(l, s, anchor, u.lists) <==> FindsNext(l, s, anchor, m))
    requires var g0, e := l.fetch(s.FileAnchor(anchor)).value.dataset, EndUnder(l, s, anchor, m);
             g0.Valid() && DatasetReaches(g0, Lists(u.lists)) && DatasetReaches(e.ds, Lists(u.lists)) && DatasetReaches(g0, Lists(m)) && DatasetReaches(e.ds, Lists(m))
    requires BracketOf(l, s, anchor, u.lists).Ok? && BracketOf(l, s, anchor, m).Ok? && OneWindow(u, m, BracketOf(l, s, anchor, u.lists).value).Ok?
    ensures OneWindow(u, m, BracketOf(l, s, anchor, u.lists).value) == BracketOf(l, s, anchor, m) <==> SameSeam(l, s, anchor, u, m)
  {
    hide Readable, WindowDataset, DatasetReaches, RecordIndex, SourceTemporal.Valid, SourceTemporal.IsRecordAnchor, SourceTemporal.FileAnchor, Lists, Cuts, FindsNext,
         ValidLoader, BracketDataset, Covers, Refuses, AllSameCells, StacksUnder, Refines;
    var g0, e := l.fetch(s.FileAnchor(anchor)).value.dataset, EndUnder(l, s, anchor, m);
    var rec0 := RecordIndex(l.times, g0, s, anchor);
    BracketCut(g0, e.ds, Lists(u.lists), Cuts(u, m), Lists(m), s.timeDim, rec0, e.rec, anchor, e.anchor);
    if !FindsNext(l, s, anchor, m) {
      BracketUnderIff(g0, g0, rec0, rec0, s.timeDim, anchor, anchor, Lists(m));
      LikeCells(g0, g0, rec0, rec0, Lists(u.lists), Cuts(u, m), Lists(m), s.timeDim);
    }
  }

  /** Ending at different records, the time coordinates differ. */
  lemma OtherEnd(l: Loader, s: SourceTemporal, anchor: int, u: Union, m: Wants)
    requires ValidLoader(l) && s.Valid() && s.IsRecordAnchor(anchor) && l.fetch(s.FileAnchor(anchor)).Ok? && Covers(u, m) && s.timeDim !in Cuts(u, m)
    requires !(FindsNext(l, s, anchor, u.lists) <==> FindsNext(l, s, anchor, m))
    requires var g0 := l.fetch(s.FileAnchor(anchor)).value.dataset;
             DatasetReaches(g0, Lists(u.lists)) && DatasetReaches(EndUnder(l, s, anchor, u.lists).ds, Lists(u.lists)) && DatasetReaches(g0, Lists(m)) && DatasetReaches(EndUnder(l, s, anchor, m).ds, Lists(m))
    requires BracketOf(l, s, anchor, u.lists).Ok? && BracketOf(l, s, anchor, m).Ok? && OneWindow(u, m, BracketOf(l, s, anchor, u.lists).value).Ok?
    ensures OneWindow(u, m, BracketOf(l, s, anchor, u.lists).value) != BracketOf(l, s, anchor, m)
  {
    hide Readable, WindowDataset, DatasetReaches, RecordIndex, SourceTemporal.Valid, SourceTemporal.IsRecordAnchor, SourceTemporal.FileAnchor, SourceTemporal.NextRecordAnchor, Lists, Cuts, FindsNext,
         ValidLoader, Covers, Refuses, OneWindow, TimeCoordinate, Collect;
    RecordAnchorSnaps(s, anchor, anchor);
    EndsDiffer(u, m, BracketOf(l, s, anchor, u.lists).value, BracketOf(l, s, anchor, m).value, s.timeDim, anchor, EndUnder(l, s, anchor, u.lists).anchor, EndUnder(l, s, anchor, m).anchor);
  }

  /** Brackets that end at different times are different in every window. */
  lemma EndsDiffer(u: Union, m: Wants, a: Dataset, b: Dataset, td: string, anchor: int, t0: int, t1: int)
    requires a.Valid() && Covers(u, m) && OneWindow(u, m, a).Ok? && td !in Cuts(u, m) && t0 != t1
    requires td in a.coords && a.coords[td] == TimeCoordinate(td, anchor, t0)
    requires td in b.coords && b.coords[td] == TimeCoordinate(td, anchor, t1)
    ensures OneWindow(u, m, a).value != b
  {
    hide TimeCoordinate, Refuses, WindowDataset, DatasetReaches, Cuts, Covers, Dataset.Valid;
    CutKeepsTime(a, Cuts(u, m), td, anchor, t0);
    if OneWindow(u, m, a).value == b { TimeCoordinatesDiffer(td, anchor, t0, t1); }
  }

  // ---- the theorem ----------------------------------------------------------------------------------

  /** All windows at once or each alone: they succeed together, with the same datasets. */
  ghost predicate Agree(l: Loader, t: int, ws: seq<Window>)
    requires ValidLoader(l) && forall i :: 0 <= i < |ws| ==> ValidWindow(ws[i])
  {
    var r := SampleWindowsAt(l, t, ws);
    && (r.Ok? <==> forall i :: 0 <= i < |ws| ==> Alone(l, t, ws[i]).Ok?)
    && (r.Ok? ==> |r.value| == |ws| && forall i :: 0 <= i < |ws| ==> Alone(l, t, ws[i]) == Ok(r.value[i]))
  }

  /** What two records per sample ask of the files on either side of the anchor's end, once
      every window can read the first: either their union's records stack, and so do every
      window's, which treats the seam as the union does; or the union's records do not stack,
      and neither do some window's. */
  ghost predicate EvenSeam(l: Loader, s: SourceTemporal, anchor: int, u: Union)
    requires ValidLoader(l) && s.Valid() && s.IsRecordAnchor(anchor) && forall j :: 0 <= j < |u.wanted| ==> Covers(u, u.wanted[j])
  {
    (l.fetch(s.FileAnchor(anchor)).Ok? && forall i :: 0 <= i < |u.wanted| ==> ReadsFirst(l, s, anchor, u.wanted[i])) ==>
      if Brackets(l, s, anchor, u.lists) then forall i :: 0 <= i < |u.wanted| ==> Brackets(l, s, anchor, u.wanted[i]) && SameSeam(l, s, anchor, u, u.wanted[i])
      else exists i :: 0 <= i < |u.wanted| && !Brackets(l, s, anchor, u.wanted[i])
  }

  /** The seam is even wherever it is read: with two records per sample, windows that pass
      every check made before a read, and an anchor inside the data. */
  ghost predicate SeamHolds(l: Loader, t: int, ws: seq<Window>)
    requires ValidLoader(l) && forall i :: 0 <= i < |ws| ==> ValidWindow(ws[i])
  {
    (l.temporal.Some? && l.temporal.value.recordsPerSample == 2 && ws != [] && (forall i :: 0 <= i < |ws| ==> Allowed(l, ws[i])) && UnionOf(ws).Ok?) ==>
      var s, u := l.temporal.value, UnionOf(ws).value;
      UnionMeaning(ws);
      UnionCovers(ws, u);
      RecordAnchorSnaps(s, t, t);
      s.start.Instant() <= s.RecordAnchor(t) ==> EvenSeam(l, s, s.RecordAnchor(t), u)
  }

  /** For every loader, time and list of windows: all windows from one decode are the windows
      decoded alone if and only if the seam is even. */
  lemma WindowsAreTheWindowsAlone(l: Loader, t: int, ws: seq<Window>)
    requires ValidLoader(l) && forall i :: 0 <= i < |ws| ==> ValidWindow(ws[i])
    ensures Agree(l, t, ws) <==> SeamHolds(l, t, ws)
  {
    hide Sample, ValidLoader, UnionSelect, ValidWindow, WantedOf, UnionOf, SeamHolds;
    forall i | 0 <= i < |ws|
      ensures !Allowed(l, ws[i]) ==> Alone(l, t, ws[i]).Err?
      ensures Allowed(l, ws[i]) ==> Alone(l, t, ws[i]) == Sample(l, t, FilesAlone(l, ws[i]))
    {
      AloneIs(l, t, ws[i]);
    }
    hide Allowed, Alone, FilesAlone;
    if ws != [] && forall i :: 0 <= i < |ws| ==> Allowed(l, ws[i]) {
      UnionMeaning(ws);
      if UnionOf(ws).Err? {
        var i :| 0 <= i < |ws| && WantedOf(ws[i]).Err?;
        BadStepReadsNothing(l, t, ws[i]);
        NoSeam(l, t, ws);
      } else {
        var u := UnionOf(ws).value;
        UnionCovers(ws, u);
        TogetherAgree(l, t, ws, u);
      }
    } else {
      NoSeam(l, t, ws);
    }
  }

  /** No seam is read by an empty list, or past a refused window. */
  lemma NoSeam(l: Loader, t: int, ws: seq<Window>)
    requires ValidLoader(l) && forall i :: 0 <= i < |ws| ==> ValidWindow(ws[i])
    requires ws == [] || (exists i :: 0 <= i < |ws| && !Allowed(l, ws[i])) || UnionOf(ws).Err?
    ensures SeamHolds(l, t, ws)
  {
    hide EvenSeam, UnionOf, Allowed, ValidWindow;
  }

  /** A slice that does not step forward fails every read, with the union or alone. */
  lemma BadStepReadsNothing(l: Loader, t: int, w: Window)
    requires ValidLoader(l) && ValidWindow(w) && Allowed(l, w) && WantedOf(w).Err?
    ensures Sample(l, t, FilesAlone(l, w)).Err?
  {
    hide Sample, ValidWindow, WantedOf, ReadNamed, Allowed, Readable;
    forall fa
      ensures FilesAlone(l, w)(fa).Err?
    {
      FreshIs(l, w, fa);
      if l.fetch(fa).Ok? { ReadNamedIff(l.fetch(fa).value, w); }
    }
    NoFilesNoSample(l, t, FilesAlone(l, w));
  }

  /** Splitting a dataset agrees with results got one by one. */
  ghost predicate SplitAgrees(r: Result<seq<Dataset>, Error>, alones: seq<Result<Dataset, Error>>) {
    && (r.Ok? <==> forall i :: 0 <= i < |alones| ==> alones[i].Ok?)
    && (r.Ok? ==> |r.value| == |alones| && forall i :: 0 <= i < |alones| ==> alones[i] == Ok(r.value[i]))
  }

  ghost function SplitOf(u: Union, together: Result<Dataset, Error>): Result<seq<Dataset>, Error>
    requires (together.Ok? ==> together.value.Valid()) && forall j :: 0 <= j < |u.wanted| ==> Covers(u, u.wanted[j])
  {
    match together
    case Err(e) => Err(e)
    case Ok(ds) => Split(u, ds, |u.wanted|)
  }

  /** A failed split agrees exactly with a failed window, a made one with all of its windows. */
  lemma SplitAgreesIff(u: Union, together: Result<Dataset, Error>, alones: seq<Result<Dataset, Error>>)
    requires (together.Ok? ==> together.value.Valid()) && (forall j :: 0 <= j < |u.wanted| ==> Covers(u, u.wanted[j])) && |alones| == |u.wanted|
    ensures SplitAgrees(SplitOf(u, together), alones) <==>
            if together.Ok? && forall i :: 0 <= i < |alones| ==> OneWindow(u, u.wanted[i], together.value).Ok?
            then forall i :: 0 <= i < |alones| ==> OneWindow(u, u.wanted[i], together.value) == alones[i]
            else exists i :: 0 <= i < |alones| && alones[i].Err?
  {
    hide OneWindow, Covers, Dataset.Valid;
    if together.Ok? { SplitIs(u, together.value, |u.wanted|); }
  }

  lemma MatchesAgree(l: Loader, ws: seq<Window>, u: Union, together: Result<Dataset, Error>, alone: seq<Result<Dataset, Error>>)
    requires Together(l, ws, u) && (together.Ok? ==> together.value.Valid()) && Matches(l, ws, u, together, alone)
    ensures |u.wanted| == |ws| == |alone| && SplitAgrees(SplitOf(u, together), alone)
  {
    WantedCount(ws, u);
    SplitAgreesIff(u, together, alone);
    hide OneWindow, IsUnion, ValidLoader, Allowed, Covers, SplitOf, SplitAgrees, Distinct;
    if together.Ok? {
      forall i | 0 <= i < |ws|
        ensures OneMatches(u, u.wanted[i], together.value, alone[i])
      {
      }
    }
  }

  lemma TogetherAgree(l: Loader, t: int, ws: seq<Window>, u: Union)
    requires Together(l, ws, u) && UnionOf(ws) == Ok(u)
    ensures SplitAgrees(SampleUnion(l, t, u), Alones(l, t, ws)) <==> SeamHolds(l, t, ws)
  {
    hide UnionOf, Sample, Matches, Alones, IsUnion, Covers, Distinct, Allowed, ValidWindow, EvenSeam, SplitAgrees, Split;
    var together := Sample(l, t, FilesTogether(l, u));
    assert SampleUnion(l, t, u) == SplitOf(u, together);
    if l.temporal.None? {
      ConstMatches(l, t, ws, u);
      MatchesAgree(l, ws, u, together, Alones(l, t, ws));
    } else {
      var s := l.temporal.value;
      RecordAnchorSnaps(s, t, t);
      if s.RecordAnchor(t) < s.start.Instant() {
        NothingBeforeStart(l, t, ws, u);
        MatchesAgree(l, ws, u, together, Alones(l, t, ws));
      } else if s.recordsPerSample == 2 {
        TimedAlones(l, s, t, ws, u);
        BracketsAgree(l, s, s.RecordAnchor(t), ws, u);
      } else {
        TimedAlones(l, s, t, ws, u);
        SliceMatches(l, s, s.RecordAnchor(t), ws, u);
        MatchesAgree(l, ws, u, together, Alones(l, t, ws));
      }
    }
  }

  /** Before the start of the data every sample fails. */
  lemma NothingBeforeStart(l: Loader, t: int, ws: seq<Window>, u: Union)
    requires Together(l, ws, u) && l.temporal.Some? && l.temporal.value.RecordAnchor(t) < l.temporal.value.start.Instant()
    ensures Matches(l, ws, u, Sample(l, t, FilesTogether(l, u)), Alones(l, t, ws))
  {
    hide FilesTogether, FilesAlone, SourceTemporal.RecordAnchor, OneMatches;
    assert Alones(l, t, ws)[0].Err?;
  }

  /** From the start of the data on, a sample is its slice or its bracket. */
  lemma TimedAlones(l: Loader, s: SourceTemporal, t: int, ws: seq<Window>, u: Union)
    requires Together(l, ws, u) && l.temporal == Some(s) && s.Valid() && s.IsRecordAnchor(s.RecordAnchor(t)) && s.start.Instant() <= s.RecordAnchor(t)
    ensures s.recordsPerSample == 2 ==>
              Alones(l, t, ws) == BracketAlones(l, s, s.RecordAnchor(t), ws) && Sample(l, t, FilesTogether(l, u)) == SampleBracket(l, s, s.RecordAnchor(t), FilesTogether(l, u))
    ensures s.recordsPerSample != 2 ==>
              Alones(l, t, ws) == SliceAlones(l, s, s.RecordAnchor(t), ws) && Sample(l, t, FilesTogether(l, u)) == SampleSlice(l, s, s.RecordAnchor(t), FilesTogether(l, u))
  {
    hide FilesTogether, FilesAlone, SourceTemporal.RecordAnchor, SourceTemporal.IsRecordAnchor, SampleBracket, SampleSlice;
  }

  ghost function BracketAlones(l: Loader, s: SourceTemporal, anchor: int, ws: seq<Window>): (r: seq<Result<Dataset, Error>>)
    requires ValidLoader(l) && s.Valid() && s.IsRecordAnchor(anchor)
    ensures |r| == |ws| && forall i :: 0 <= i < |ws| ==> r[i] == SampleBracket(l, s, anchor, FilesAlone(l, ws[i]))
  {
    seq(|ws|, i requires 0 <= i < |ws| => SampleBracket(l, s, anchor, FilesAlone(l, ws[i])))
  }

  /** Two records per sample: the union's bracket splits into the windows' own exactly when the
      seam is even. */
  lemma BracketsAgree(l: Loader, s: SourceTemporal, anchor: int, ws: seq<Window>, u: Union)
    requires Together(l, ws, u) && l.temporal == Some(s) && s.Valid() && s.IsRecordAnchor(anchor)
    ensures SplitAgrees(SplitOf(u, SampleBracket(l, s, anchor, FilesTogether(l, u))), BracketAlones(l, s, anchor, ws)) <==> EvenSeam(l, s, anchor, u)
  {
    hide FilesTogether, FilesAlone, SourceTemporal.Valid, SourceTemporal.IsRecordAnchor, SourceTemporal.FileAnchor, SampleBracket, ValidLoader, IsUnion, Covers, Distinct, Allowed, ValidWindow,
         OneWindow, SplitOf, SplitAgrees, SameSeam, Brackets, Readable;
    WantedCount(ws, u);
    if i :| 0 <= i < |ws| && !ReadsFirst(l, s, anchor, u.wanted[i]) {
      FirstUnread(l, s, anchor, ws, u, i);
    } else {
      assert ReadsFirst(l, s, anchor, u.wanted[0]);
      TogetherIff(l, s, anchor, ws, u);
      if Brackets(l, s, anchor, u.lists) { UnionBrackets(l, s, anchor, ws, u); } else { UnionFails(l, s, anchor, ws, u); }
    }
  }

  /** A window that cannot read the anchor's file fails alone, and is refused by the split. */
  lemma FirstUnread(l: Loader, s: SourceTemporal, anchor: int, ws: seq<Window>, u: Union, i: nat)
    requires Together(l, ws, u) && l.temporal == Some(s) && s.Valid() && s.IsRecordAnchor(anchor) && i < |ws| == |u.wanted| && !ReadsFirst(l, s, anchor, u.wanted[i])
    ensures SplitAgrees(SplitOf(u, SampleBracket(l, s, anchor, FilesTogether(l, u))), BracketAlones(l, s, anchor, ws))
  {
    hide FilesTogether, FilesAlone, SourceTemporal.Valid, SourceTemporal.IsRecordAnchor, SourceTemporal.FileAnchor, SampleBracket, ValidLoader, IsUnion, Covers, Distinct, Allowed, ValidWindow,
         OneWindow, SplitOf, SplitAgrees, Brackets, ReadsFirst;
    var together, alones := SampleBracket(l, s, anchor, FilesTogether(l, u)), BracketAlones(l, s, anchor, ws);
    SplitAgreesIff(u, together, alones);
    AloneIff(l, s, anchor, ws, u, i);
    assert alones[i].Err?;
    if together.Ok? { CutNeedsFirst(l, s, anchor, ws, u, i); }
  }

  lemma UnionFails(l: Loader, s: SourceTemporal, anchor: int, ws: seq<Window>, u: Union)
    requires Together(l, ws, u) && l.temporal == Some(s) && s.Valid() && s.IsRecordAnchor(anchor) && |ws| == |u.wanted|
    requires (forall i :: 0 <= i < |ws| ==> ReadsFirst(l, s, anchor, u.wanted[i])) && l.fetch(s.FileAnchor(anchor)).Ok?
    requires SampleBracket(l, s, anchor, FilesTogether(l, u)).Err?
    ensures SplitAgrees(SplitOf(u, SampleBracket(l, s, anchor, FilesTogether(l, u))), BracketAlones(l, s, anchor, ws))
       <==> exists i :: 0 <= i < |u.wanted| && !Brackets(l, s, anchor, u.wanted[i])
  {
    hide FilesTogether, FilesAlone, SourceTemporal.Valid, SourceTemporal.IsRecordAnchor, SourceTemporal.FileAnchor, SampleBracket, ValidLoader, IsUnion, Covers, Distinct, Allowed, ValidWindow,
         OneWindow, SplitOf, SplitAgrees, Brackets, ReadsFirst;
    var alones := BracketAlones(l, s, anchor, ws);
    SplitAgreesIff(u, SampleBracket(l, s, anchor, FilesTogether(l, u)), alones);
    forall i | 0 <= i < |ws|
      ensures alones[i].Err? <==> !Brackets(l, s, anchor, u.wanted[i])
    {
      AloneIff(l, s, anchor, ws, u, i);
    }
  }

  lemma UnionBrackets(l: Loader, s: SourceTemporal, anchor: int, ws: seq<Window>, u: Union)
    requires Together(l, ws, u) && l.temporal == Some(s) && s.Valid() && s.IsRecordAnchor(anchor) && |ws| == |u.wanted|
    requires (forall i :: 0 <= i < |ws| ==> ReadsFirst(l, s, anchor, u.wanted[i])) && ReadsFirst(l, s, anchor, u.lists)
    requires SampleBracket(l, s, anchor, FilesTogether(l, u)).Ok?
    ensures SplitAgrees(SplitOf(u, SampleBracket(l, s, anchor, FilesTogether(l, u))), BracketAlones(l, s, anchor, ws))
       <==> forall i :: 0 <= i < |u.wanted| ==> Brackets(l, s, anchor, u.wanted[i]) && SameSeam(l, s, anchor, u, u.wanted[i])
  {
    hide FilesTogether, FilesAlone, SourceTemporal.Valid, SourceTemporal.IsRecordAnchor, SourceTemporal.FileAnchor, SampleBracket, ValidLoader, IsUnion, Covers, Distinct, Allowed, ValidWindow,
         OneWindow, SplitOf, SplitAgrees, Brackets, Readable, SameSeam;
    var together, alones := SampleBracket(l, s, anchor, FilesTogether(l, u)), BracketAlones(l, s, anchor, ws);
    SplitAgreesIff(u, together, alones);
    forall i | 0 <= i < |ws|
      ensures OneWindow(u, u.wanted[i], together.value).Ok?
      ensures OneWindow(u, u.wanted[i], together.value) == alones[i] <==> Brackets(l, s, anchor, u.wanted[i]) && SameSeam(l, s, anchor, u, u.wanted[i])
    {
      assert ReadsFirst(l, s, anchor, u.wanted[i]);
      CutNeedsFirst(l, s, anchor, ws, u, i);
      AloneIff(l, s, anchor, ws, u, i);
      if alones[i].Ok? { CutIsAlone(l, s, anchor, ws, u, i); }
    }
  }

  /** A window alone succeeds exactly when it reads the first file and its records stack. */
  lemma AloneIff(l: Loader, s: SourceTemporal, anchor: int, ws: seq<Window>, u: Union, i: nat)
    requires Together(l, ws, u) && l.temporal == Some(s) && s.Valid() && s.IsRecordAnchor(anchor) && i < |ws| && i < |u.wanted|
    ensures SampleBracket(l, s, anchor, FilesAlone(l, ws[i])).Ok? <==> ReadsFirst(l, s, anchor, u.wanted[i]) && Brackets(l, s, anchor, u.wanted[i])
  {
    hide FilesAlone, SampleBracket, Brackets, ReadsUnder, IsUnion, ValidLoader, Covers, Distinct, Allowed, ValidWindow, SourceTemporal.Valid, SourceTemporal.IsRecordAnchor, Readable, EndUnder, BracketDataset,
         WindowDataset, DatasetReaches;
    AloneReads(l, ws, u, i);
    UnionAllowed(l, ws, u);
    BracketUnder(l, s, anchor, FilesAlone(l, ws[i]), u.wanted[i]);
  }

  /** When every window reads the first file, so does the union, and it succeeds exactly when
      its records stack. */
  lemma TogetherIff(l: Loader, s: SourceTemporal, anchor: int, ws: seq<Window>, u: Union)
    requires Together(l, ws, u) && l.temporal == Some(s) && s.Valid() && s.IsRecordAnchor(anchor) && |u.wanted| == |ws|
    requires forall i :: 0 <= i < |u.wanted| ==> ReadsFirst(l, s, anchor, u.wanted[i])
    ensures ReadsFirst(l, s, anchor, u.lists)
    ensures SampleBracket(l, s, anchor, FilesTogether(l, u)).Ok? <==> Brackets(l, s, anchor, u.lists)
  {
    hide FilesTogether, SampleBracket, Brackets, ReadsUnder, IsUnion, Covers, Distinct, Allowed, ValidWindow, SourceTemporal.Valid, SourceTemporal.IsRecordAnchor, Readable, EndUnder, BracketDataset,
         WindowDataset, DatasetReaches;
    assert ReadsFirst(l, s, anchor, u.wanted[0]);
    forall i | 0 <= i < |ws|
      ensures Readable(l.fetch(s.FileAnchor(anchor)).value, u.wanted[i])
    {
      assert ReadsFirst(l, s, anchor, u.wanted[i]);
    }
    UnionReads(l.fetch(s.FileAnchor(anchor)).value, ws, u);
    TogetherReads(l, ws, u);
    UnionAllowed(l, ws, u);
    BracketUnder(l, s, anchor, FilesTogether(l, u), u.lists);
  }

  /** When every window reads the anchor's file, each sample with two records succeeds exactly
      when its records stack: a window's under the window, all at once under the union. */
  lemma SeamResults(l: Loader, s: SourceTemporal, t: int, ws: seq<Window>, u: Union)
    requires Together(l, ws, u) && UnionOf(ws) == Ok(u) && l.temporal == Some(s) && s.recordsPerSample == 2 && |u.wanted| == |ws|
    requires s.IsRecordAnchor(s.RecordAnchor(t)) && s.start.Instant() <= s.RecordAnchor(t)
    requires forall i :: 0 <= i < |ws| ==> ReadsFirst(l, s, s.RecordAnchor(t), u.wanted[i])
    ensures l.fetch(s.FileAnchor(s.RecordAnchor(t))).Ok?
    ensures forall i :: 0 <= i < |ws| ==> (Alone(l, t, ws[i]).Ok? <==> Brackets(l, s, s.RecordAnchor(t), u.wanted[i]))
    ensures SampleWindowsAt(l, t, ws).Ok? <==> Brackets(l, s, s.RecordAnchor(t), u.lists)
  {
    var anchor := s.RecordAnchor(t);
    assert SampleWindowsAt(l, t, ws) == SplitOf(u, Sample(l, t, FilesTogether(l, u)));
    hide FilesTogether, FilesAlone, Sample, SampleBracket, SourceTemporal.RecordAnchor, SourceTemporal.IsRecordAnchor, SourceTemporal.FileAnchor, Alone, SampleWindowsAt, Brackets, UnionOf, IsUnion,
         Covers, Distinct, Allowed, ValidWindow, Readable, OneWindow, Alones;
    TimedAlones(l, s, t, ws, u);
    assert ReadsFirst(l, s, anchor, u.wanted[0]);
    TogetherIff(l, s, anchor, ws, u);
    forall i | 0 <= i < |ws|
      ensures Alone(l, t, ws[i]).Ok? <==> Brackets(l, s, anchor, u.wanted[i])
    {
      AloneIs(l, t, ws[i]);
      AloneIff(l, s, anchor, ws, u, i);
      assert Alones(l, t, ws)[i] == BracketAlones(l, s, anchor, ws)[i];
    }
    var together := SampleBracket(l, s, anchor, FilesTogether(l, u));
    if together.Ok? {
      forall i | 0 <= i < |ws|
        ensures OneWindow(u, u.wanted[i], together.value).Ok?
      {
        CutNeedsFirst(l, s, anchor, ws, u, i);
      }
      SplitIs(u, together.value, |ws|);
    }
  }

  lemma WindowCount(l: Loader, t: int, ws: seq<Window>)
    requires ValidLoader(l) && forall i :: 0 <= i < |ws| ==> ValidWindow(ws[i])
    ensures SampleWindowsAt(l, t, ws).Ok? ==> |SampleWindowsAt(l, t, ws).value| == |ws|
  {
    hide Sample, ValidLoader, UnionSelect, OneWindow;
    if SampleWindowsAt(l, t, ws).Ok? && ws != [] {
      var u := UnionOf(ws).value;
      UnionMeaning(ws);
      UnionCovers(ws, u);
      var together := Sample(l, t, FreshFiles(l, Some(UnionSelect(u))));
      SplitIs(u, together.value, |u.wanted|);
    }
  }
}
