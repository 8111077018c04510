/** `sample_windows_at` against one windowed provider per window. */
module WindowsAtOnce {
  import opened Wrappers
  import opened NativeData
  import opened Arrays
  import opened Selection
  import opened WindowUnion
  import opened Calendar
  import opened Temporal
  import opened Sampling
  import opened WindowLaws
  import opened WindowRefinement

  // ---- the two calls -------------------------------------------------------------------

  /** What `with_window` demands before any I/O. */
  predicate Allowed(l: Loader, w: Window) {
    l.baked.None? && l.supportsSelection && (l.temporal.Some? ==> !Names(w, l.temporal.value.timeDim))
  }

  function WithWindow(l: Loader, w: Window): Result<Loader, Error> {
    if Allowed(l, w) then Ok(l.(baked := Some(w))) else Err(ValueError)
  }

  /** One window alone: bind it, then sample. */
  ghost function Alone(l: Loader, t: int, w: Window): Result<Dataset, Error>
    requires ValidLoader(l) && ValidWindow(w)
  {
    match WithWindow(l, w)
    case Err(e) => Err(e)
    case Ok(l1) => SampleAt(l1, t)
  }

  /** All windows from one decode of their union. */
  ghost function SampleWindowsAt(l: Loader, t: int, ws: seq<Window>): Result<seq<Dataset>, Error>
    requires ValidLoader(l) && forall i :: 0 <= i < |ws| ==> ValidWindow(ws[i])
  {
    if ws == [] then Ok([])
    else if exists i :: 0 <= i < |ws| && !Allowed(l, ws[i]) then Err(ValueError)
    else match UnionOf(ws)
      case Err(e) => Err(e)
      case Ok(u) =>
        UnionMeaning(ws);
        UnionCovers(ws, u);
        SampleUnion(l, t, u)
  }

  ghost function SampleUnion(l: Loader, t: int, u: Union): Result<seq<Dataset>, Error>
    requires ValidLoader(l) && Distinct(u.names) && (forall d :: d in u.names <==> d in u.lists)
    requires forall j :: 0 <= j < |u.wanted| ==> Covers(u, u.wanted[j])
  {
    match Sample(l, t, FreshFiles(l, Some(UnionSelect(u))))
    case Err(e) => Err(e)
    case Ok(ds) => Split(u, ds, |u.wanted|)
  }

  /** A window is refused, before any read, of a loader that already has one or whose reader
      takes none, and when it names the time dimension. */
  ghost predicate Refused(l: Loader, w: Window) {
    l.baked.Some? || !l.supportsSelection || (l.temporal.Some? && exists i :: 0 <= i < |w| && w[i].0 == l.temporal.value.timeDim)
  }

  /** One window alone is refused, or is the sample of the loader with that window baked in. */
  lemma AloneMeans(l: Loader, t: int, w: Window)
    requires ValidLoader(l) && ValidWindow(w)
    ensures Refused(l, w) ==> Alone(l, t, w) == Err(ValueError)
    ensures !Refused(l, w) ==> ValidLoader(l.(baked := Some(w))) && Alone(l, t, w) == SampleAt(l.(baked := Some(w)), t)
  {
    hide SampleAt;
  }

  /** No windows need nothing read; one refused window refuses them all. */
  lemma AtOnceMeans(l: Loader, t: int, ws: seq<Window>)
    requires ValidLoader(l) && forall i :: 0 <= i < |ws| ==> ValidWindow(ws[i])
    ensures ws == [] ==> SampleWindowsAt(l, t, ws) == Ok([])
    ensures (exists i :: 0 <= i < |ws| && Refused(l, ws[i])) ==> SampleWindowsAt(l, t, ws) == Err(ValueError)
  {
    hide SampleUnion, UnionOf;
  }

  // ---- the union's lists against each window's --------------------------------------------

  lemma PositionsBack(have: seq<int>, want: seq<int>)
    requires forall i :: 0 <= i < |want| ==> want[i] in have
    ensures Within(Positions(have, want), |have|) && Through(have, Positions(have, want)) == want
  {
  }

  lemma CutsRefine(ws: seq<Window>, u: Union, i: nat)
    requires IsUnion(ws, u) && i < |ws| && Covers(u, u.wanted[i])
    ensures Refines(Lists(u.lists), Cuts(u, u.wanted[i]), Lists(u.wanted[i]))
  {
    hide WantedOf, Bounds;
    var us, p, m := Lists(u.lists), Cuts(u, u.wanted[i]), Lists(u.wanted[i]);
    forall d
      ensures RefinesAt(us, p, m, d)
    {
      if d in m {
        if d in us { PositionsBack(us[d], m[d]); }
      } else {
        assert Whole_(u.wanted[i], d);
        if d in u.lists { assert NeedsWhole(u.wanted, d); }
      }
    }
  }

  // ---- one file under the union --------------------------------------------------------------

  /** A file every window can read, the union can read. */
  lemma UnionReads(file: File, ws: seq<Window>, u: Union)
    requires file.Valid() && IsUnion(ws, u)
    requires forall i :: 0 <= i < |ws| ==> Readable(file, u.wanted[i])
    ensures Readable(file, u.lists)
  {
    hide WantedOf, Carries, IsTime, Within, Bounds, NeedsWhole, File.Valid;
    forall d | d in u.lists
      ensures Carries(file.dataset, d)
      ensures u.lists[d].Some? ==> !IsTime(file.dataset, d) && d in file.sizes && Within(u.lists[d].value, file.sizes[d])
    {
      var i :| 0 <= i < |ws| && d in u.wanted[i];
      assert Readable(file, u.wanted[i]);
      if u.lists[d].Some? {
        NotWhole(u, d, i);
        UnionInRange(file, ws, u, d);
      }
    }
  }

  /** Every index of the union is some window's own, so it is in range where that one reads. */
  lemma UnionInRange(file: File, ws: seq<Window>, u: Union, d: string)
    requires IsUnion(ws, u) && d in u.lists && u.lists[d].Some? && d in file.sizes
    requires forall i :: 0 <= i < |ws| ==> Readable(file, u.wanted[i])
    ensures Within(u.lists[d].value, file.sizes[d])
  {
    hide WantedOf, Carries, IsTime, NeedsWhole;
    forall k | 0 <= k < |u.lists[d].value|
      ensures 0 <= u.lists[d].value[k] < file.sizes[d]
    {
      var x := u.lists[d].value[k];
      assert Bounds(u, d) && x in u.lists[d].value;
      var j :| 0 <= j < |u.wanted| && !Whole_(u.wanted[j], d) && x in u.wanted[j][d].value;
      assert Readable(file, u.wanted[j]);
    }
  }

  lemma NotWhole(u: Union, d: string, i: nat)
    requires !NeedsWhole(u.wanted, d) && i < |u.wanted|
    ensures d in u.wanted[i] && u.wanted[i][d].Some?
  {
    assert !Whole_(u.wanted[i], d);
  }

  lemma CarriedLength(file: File, d: string) returns (f: Field, k: nat)
    requires file.Valid() && Carries(file.dataset, d)
    ensures f.Valid() && k < |f.dims| && f.dims[k] == d && d in file.sizes && f.shape[k] == file.sizes[d]
    ensures (exists n :: n in file.dataset.variables && file.dataset.variables[n] == f) || (exists n :: n in file.dataset.coords && file.dataset.coords[n] == f)
  {
    hide HasShape;
    if CarriedBy(file.dataset.variables, d) {
      var n :| n in file.dataset.variables && d in file.dataset.variables[n].dims;
      f := file.dataset.variables[n];
    } else {
      var n :| n in file.dataset.coords && d in file.dataset.coords[n].dims;
      f := file.dataset.coords[n];
    }
    assert OfSizes(f, file.sizes);
    k :| 0 <= k < |f.dims| && f.dims[k] == d;
  }

  lemma ReadableReaches(file: File, m: Wants)
    requires file.Valid() && Readable(file, m)
    ensures DatasetReaches(file.dataset, Lists(m))
  {
    hide HasShape, Carries, IsTime;
  }

  /** After the union reads a file, slicing window `i` out checks exactly what reading window
      `i` would have. */
  lemma WindowReads(file: File, ws: seq<Window>, u: Union, i: nat)
    requires file.Valid() && IsUnion(ws, u) && i < |ws| && Readable(file, u.lists)
    ensures Readable(file, u.wanted[i]) <==> !Refuses(u, u.wanted[i], file.dataset) && DatasetReaches(file.dataset, Lists(u.wanted[i]))
  {
    hide WantedOf, Bounds;
    var m := u.wanted[i];
    if Readable(file, m) {
      ReadableReaches(file, m);
    } else if !Refuses(u, m, file.dataset) && DatasetReaches(file.dataset, Lists(m)) {
      forall d | d in m
        ensures Carries(file.dataset, d)
        ensures m[d].Some? ==> !IsTime(file.dataset, d) && d in file.sizes && Within(m[d].value, file.sizes[d])
      {
        assert d in u.lists;
        if m[d].Some? {
          var f, k := CarriedLength(file, d);
          ReachedLength(file, m, d, f, k);
        }
      }
    }
  }

  lemma ReachedLength(file: File, m: Wants, d: string, f: Field, k: nat)
    requires file.Valid() && DatasetReaches(file.dataset, Lists(m)) && d in m && m[d].Some?
    requires f.Valid() && k < |f.dims| && f.dims[k] == d && d in file.sizes && f.shape[k] == file.sizes[d]
    requires (exists n :: n in file.dataset.variables && file.dataset.variables[n] == f) || (exists n :: n in file.dataset.coords && file.dataset.coords[n] == f)
    ensures Within(m[d].value, file.sizes[d])
  {
    assert Reaches(f, Lists(m));
    assert f.dims[k] in Lists(m);
  }

  lemma WindowKeepsIsTime(ds: Dataset, isel: map<string, seq<int>>, d: string)
    requires DatasetReaches(ds, isel)
    ensures IsTime(WindowDataset(ds, isel), d) <==> IsTime(ds, d)
  {
    hide Words, Lower;
  }

  /** Window `i` of a file read under the union is the file read under window `i`. */
  lemma OneOfRead(file: File, ws: seq<Window>, u: Union, i: nat)
    requires file.Valid() && IsUnion(ws, u) && i < |ws| && Readable(file, u.lists) && Covers(u, u.wanted[i])
    requires DatasetReaches(file.dataset, Lists(u.lists))
    ensures var d := WindowDataset(file.dataset, Lists(u.lists));
            && (OneWindow(u, u.wanted[i], d).Ok? <==> Readable(file, u.wanted[i]))
            && (DatasetReaches(d, Cuts(u, u.wanted[i])) <==> DatasetReaches(file.dataset, Lists(u.wanted[i])))
            && (DatasetReaches(file.dataset, Lists(u.wanted[i])) ==>
                  WindowDataset(d, Cuts(u, u.wanted[i])) == WindowDataset(file.dataset, Lists(u.wanted[i])))
  {
    var us, m := Lists(u.lists), u.wanted[i];
    FileIsValid(file);
    CutsRefine(ws, u, i);
    DatasetTwice(file.dataset, us, Cuts(u, m), Lists(m));
    WindowReads(file, ws, u, i);
    forall d
      ensures IsTime(WindowDataset(file.dataset, us), d) <==> IsTime(file.dataset, d)
    {
      WindowKeepsIsTime(file.dataset, us, d);
    }
    hide IsTime, DatasetReaches, WindowDataset, Readable, IsUnion, Covers, File.Valid, Cuts;
    RefusesSame(u, m, WindowDataset(file.dataset, us), file.dataset);
  }

  lemma RefusesSame(u: Union, m: Wants, a: Dataset, b: Dataset)
    requires forall d :: d in m ==> (IsTime(a, d) <==> IsTime(b, d))
    ensures Refuses(u, m, a) <==> Refuses(u, m, b)
  {
    hide IsTime;
  }

  // ---- time is untouched by a window --------------------------------------------------------

  lemma TimeLenIs(ds: Dataset, td: string, n: nat)
    requires ds.Valid()
    requires forall k :: k in ds.variables && td in ds.variables[k].dims ==> DimLength(ds.variables[k], td) == n
    ensures TimeLen(ds, td) == if td in ds.coords && td in ds.coords[td].dims then DimLength(ds.coords[td], td) else if CarriedBy(ds.variables, td) then n else 0
  {
    hide DimLength, Field.Valid;
  }

  lemma KeepsLength(f: Field, isel: map<string, seq<int>>, td: string)
    requires f.Valid() && Reaches(f, isel) && td !in isel && td in f.dims
    ensures DimLength(WindowField(f, isel), td) == DimLength(f, td)
  {
    hide Gather;
  }

  /** Records are found the same way in a file and in any window of it. */
  lemma WindowKeepsTime(file: File, times: Field -> Option<seq<int>>, isel: map<string, seq<int>>, td: string)
    requires file.Valid() && OwnTime(file.dataset, td) && td !in isel && DatasetReaches(file.dataset, isel)
    ensures var d := WindowDataset(file.dataset, isel);
            && AxisOf(times, d, td) == AxisOf(times, file.dataset, td)
            && file.dataset.Valid() && TimeLen(d, td) == TimeLen(file.dataset, td)
            && OwnTime(d, td)
  {
    FileIsValid(file);
    var ds, d := file.dataset, WindowDataset(file.dataset, isel);
    if td in ds.coords { WindowUntouched(ds.coords[td], isel); }
    var n := if td in file.sizes then file.sizes[td] else 0;
    hide WindowField, Reaches;
    forall k | k in ds.variables && td in ds.variables[k].dims
      ensures DimLength(ds.variables[k], td) == n && DimLength(d.variables[k], td) == n
    {
      assert OfSizes(ds.variables[k], file.sizes);
      KeepsLength(ds.variables[k], isel, td);
    }
    hide Field.Valid, DimLength;
    SameCarriers(ds.variables, d.variables, td);
    TimeLenIs(ds, td, n);
    TimeLenIs(d, td, n);
  }

  lemma SameCarriers(a: map<string, Field>, b: map<string, Field>, td: string)
    requires a.Keys == b.Keys && forall n :: n in a ==> b[n].dims == a[n].dims
    ensures CarriedBy(a, td) <==> CarriedBy(b, td)
  {
    if CarriedBy(a, td) {
      var n :| n in a && td in a[n].dims;
      assert n in b;
    }
    if CarriedBy(b, td) {
      var n :| n in b && td in b[n].dims;
      assert n in a;
    }
  }

  /** Which record an anchor means is read off the time axis alone. */
  lemma SameAxisSameRecord(times: Field -> Option<seq<int>>, a: Dataset, b: Dataset, s: SourceTemporal, anchor: int)
    requires s.Valid() && s.IsRecordAnchor(anchor) && AxisOf(times, a, s.timeDim) == AxisOf(times, b, s.timeDim)
    ensures RecordIndex(times, a, s, anchor) == RecordIndex(times, b, s, anchor)
  {
  }

  // ---- reading under a select ------------------------------------------------------------------

  lemma FreshIs(l: Loader, w: Window, fa: int)
    requires ValidLoader(l) && Allowed(l, w)
    ensures l.fetch(fa).Ok? ==> l.fetch(fa).value.Valid()
    ensures FreshFiles(l, Some(w))(fa) == match l.fetch(fa) case Err(e) => Err(e) case Ok(file) => ReadNamed(file, w)
  {
  }

  lemma SampleCong(l: Loader, l1: Loader, t: int, f: Files, g: Files)
    requires ValidLoader(l) && ValidLoader(l1) && l1.temporal == l.temporal && l1.times == l.times
    requires forall fa :: f(fa) == g(fa)
    ensures Sample(l, t, f) == Sample(l1, t, g)
  {
    hide SampleSlice, SampleBracket, SourceTemporal.RecordAnchor, SourceTemporal.IsRecordAnchor, DateTime.Instant;
    if l.temporal.Some? {
      RecordAnchorSnaps(l.temporal.value, t, t);
      OneRecordCong(l, l1, l.temporal.value, l.temporal.value.RecordAnchor(t), f, g);
    }
  }

  lemma OneRecordCong(l: Loader, l1: Loader, s: SourceTemporal, anchor: int, f: Files, g: Files)
    requires l1.times == l.times && s.Valid() && s.IsRecordAnchor(anchor) && forall fa :: f(fa) == g(fa)
    ensures SampleSlice(l, s, anchor, f) == SampleSlice(l1, s, anchor, g) && SampleBracket(l, s, anchor, f) == SampleBracket(l1, s, anchor, g)
  {
    hide RecordIndex, SliceDataset, BracketDataset, TimeLen, SourceTemporal.FileAnchor, SourceTemporal.IsRecordAnchor, SourceTemporal.NextRecordAnchor, SourceTemporal.Valid, HasSuccessor;
  }

  /** A windowed provider's sample is the sample over files read under its window. */
  lemma AloneIs(l: Loader, t: int, w: Window)
    requires ValidLoader(l) && ValidWindow(w)
    ensures !Allowed(l, w) ==> Alone(l, t, w).Err?
    ensures Allowed(l, w) ==> Alone(l, t, w) == Sample(l, t, FreshFiles(l, Some(w)))
  {
    if Allowed(l, w) {
      var l1 := l.(baked := Some(w));
      SampleCong(l, l1, t, FreshFiles(l, Some(w)), FreshFiles(l1, None));
    }
  }

  /** Without any readable file there is no sample. */
  lemma NoFilesNoSample(l: Loader, t: int, files: Files)
    requires ValidLoader(l) && forall fa :: files(fa).Err?
    ensures Sample(l, t, files).Err?
  {
  }

  // ---- the refinement -----------------------------------------------------------------------------

  /** Windows that pass every check made before a read, and their union. */
  ghost predicate Together(l: Loader, ws: seq<Window>, u: Union) {
    && ValidLoader(l) && ws != []
    && (forall i :: 0 <= i < |ws| ==> ValidWindow(ws[i]) && Allowed(l, ws[i]))
    && IsUnion(ws, u) && Distinct(u.names) && (forall d :: d in u.names <==> d in u.lists)
    && (forall j :: 0 <= j < |u.wanted| ==> Covers(u, u.wanted[j]))
  }

  /** The files as window `i` reads them, and as the union does. */
  ghost function FilesAlone(l: Loader, w: Window): Files
    requires ValidLoader(l)
  {
    FreshFiles(l, Some(w))
  }

  ghost function FilesTogether(l: Loader, u: Union): Files
    requires ValidLoader(l) && forall d :: d in u.names ==> d in u.lists
  {
    FreshFiles(l, Some(UnionSelect(u)))
  }

  lemma UnionAllowed(l: Loader, ws: seq<Window>, u: Union)
    requires Together(l, ws, u)
    ensures Allowed(l, UnionSelect(u))
    ensures ValidWindow(UnionSelect(u)) && WantedOf(UnionSelect(u)) == Ok(u.lists)
    ensures l.temporal.Some? ==> l.temporal.value.timeDim !in u.lists && forall i :: 0 <= i < |ws| ==> l.temporal.value.timeDim !in u.wanted[i]
  {
    hide Covers, ValidLoader, Bounds, NeedsWhole;
    SelectIsUnion(u);
    assert Allowed(l, ws[0]);
    if l.temporal.Some? {
      var td := l.temporal.value.timeDim;
      forall i | 0 <= i < |ws|
        ensures td !in u.wanted[i]
      {
        assert Allowed(l, ws[i]);
        WantedEntries(ws[i]);
      }
      hide WantedOf;
      WantedEntries(UnionSelect(u));
      assert td !in u.lists;
    }
  }

  /** One file, read by each window and by the union. */
  lemma FileReads(l: Loader, ws: seq<Window>, u: Union, fa: int)
    requires Together(l, ws, u) && l.fetch(fa).Ok?
    ensures var file := l.fetch(fa).value;
            && file.Valid()
            && (FilesTogether(l, u)(fa).Ok? <==> Readable(file, u.lists))
            && (Readable(file, u.lists) ==> DatasetReaches(file.dataset, Lists(u.lists)) && FilesTogether(l, u)(fa).value == WindowDataset(file.dataset, Lists(u.lists)))
            && (forall i :: 0 <= i < |ws| ==> FileRead(l, file, ws[i], u.wanted[i], fa))
  {
    var file := l.fetch(fa).value;
    UnionAllowed(l, ws, u);
    FreshIs(l, UnionSelect(u), fa);
    ReadNamedIff(file, UnionSelect(u));
    hide ReadNamed, Readable, FreshFiles, Allowed, UnionSelect, Covers, WindowDataset;
    forall i | 0 <= i < |ws|
      ensures FileRead(l, file, ws[i], u.wanted[i], fa)
    {
      FreshIs(l, ws[i], fa);
      ReadNamedIff(file, ws[i]);
    }
  }

  ghost predicate FileRead(l: Loader, file: File, w: Window, m: Wants, fa: int)
    requires ValidLoader(l)
  {
    && (FilesAlone(l, w)(fa).Ok? <==> Readable(file, m))
    && (Readable(file, m) ==> DatasetReaches(file.dataset, Lists(m)) && FilesAlone(l, w)(fa).value == WindowDataset(file.dataset, Lists(m)))
  }

  /** A file that does not fetch, nobody reads. */
  lemma FileMissing(l: Loader, ws: seq<Window>, u: Union, fa: int)
    requires Together(l, ws, u) && l.fetch(fa).Err?
    ensures FilesTogether(l, u)(fa).Err? && forall i :: 0 <= i < |ws| ==> FilesAlone(l, ws[i])(fa).Err?
  {
  }

  /** What has to be shown of a sample for its windows to be the windows alone. */
  ghost predicate Matches(l: Loader, ws: seq<Window>, u: Union, together: Result<Dataset, Error>, alone: seq<Result<Dataset, Error>>)
    requires Together(l, ws, u)
  {
    && |alone| == |ws|
    && (together.Ok? ==> together.value.Valid() && forall i :: 0 <= i < |ws| ==> OneMatches(u, u.wanted[i], together.value, alone[i]))
    && ((forall i :: 0 <= i < |ws| ==> alone[i].Ok?) ==> together.Ok?)
  }

  ghost predicate OneMatches(u: Union, m: Wants, ds: Dataset, alone: Result<Dataset, Error>)
    requires ds.Valid() && Covers(u, m)
  {
    (OneWindow(u, m, ds).Ok? <==> alone.Ok?) && (alone.Ok? ==> OneWindow(u, m, ds) == alone)
  }

  ghost function Alones(l: Loader, t: int, ws: seq<Window>): (r: seq<Result<Dataset, Error>>)
    requires ValidLoader(l)
    ensures |r| == |ws| && forall i :: 0 <= i < |ws| ==> r[i] == Sample(l, t, FilesAlone(l, ws[i]))
  {
    seq(|ws|, i requires 0 <= i < |ws| => Sample(l, t, FilesAlone(l, ws[i])))
  }

  lemma ConstMatches(l: Loader, t: int, ws: seq<Window>, u: Union)
    requires Together(l, ws, u) && l.temporal.None?
    ensures Matches(l, ws, u, Sample(l, t, FilesTogether(l, u)), Alones(l, t, ws))
  {
    hide FilesTogether, FilesAlone, OneWindow;
    if l.fetch(EPOCH).Err? {
      FileMissing(l, ws, u, EPOCH);
      assert Alones(l, t, ws)[0].Err?;
    } else {
      FileReads(l, ws, u, EPOCH);
      FileMatches(l, ws, u, EPOCH);
    }
  }

  /** The whole-file case, which the others build on. */
  lemma FileMatches(l: Loader, ws: seq<Window>, u: Union, fa: int)
    requires Together(l, ws, u) && l.fetch(fa).Ok?
    ensures FilesTogether(l, u)(fa).Ok? ==> forall i :: 0 <= i < |ws| ==> OneMatches(u, u.wanted[i], FilesTogether(l, u)(fa).value, FilesAlone(l, ws[i])(fa))
    ensures (forall i :: 0 <= i < |ws| ==> FilesAlone(l, ws[i])(fa).Ok?) ==> FilesTogether(l, u)(fa).Ok?
  {
    var file := l.fetch(fa).value;
    FileReads(l, ws, u, fa);
    hide FilesTogether, FilesAlone;
    if FilesTogether(l, u)(fa).Ok? {
      forall i | 0 <= i < |ws|
        ensures OneMatches(u, u.wanted[i], FilesTogether(l, u)(fa).value, FilesAlone(l, ws[i])(fa))
      {
        assert FileRead(l, file, ws[i], u.wanted[i], fa);
        OneOfRead(file, ws, u, i);
      }
    }
    if forall i :: 0 <= i < |ws| ==> FilesAlone(l, ws[i])(fa).Ok? {
      forall i | 0 <= i < |ws|
        ensures Readable(file, u.wanted[i])
      {
        assert FileRead(l, file, ws[i], u.wanted[i], fa);
      }
      UnionReads(file, ws, u);
    }
  }
}
