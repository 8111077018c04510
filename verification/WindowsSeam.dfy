/** Seams a caller meets: files whose axes are named alike, files on one grid, and three pairs
    of files across which the windows decoded at once are not the windows decoded alone. */
module WindowsSeam {
  import opened Wrappers
  import opened NativeData
  import opened Arrays
  import opened Calendar
  import opened Selection
  import opened WindowUnion
  import opened Temporal
  import opened Sampling
  import opened BracketRule
  import opened WindowLaws
  import opened WindowsBracket
  import opened WindowsAtOnce
  import opened WindowsTheorem

  // ---- axes named alike --------------------------------------------------------------------

  /** Every dimension the union leaves whole is left whole by some window, and every one a
      window leaves whole the union does too. */
  ghost predicate Bounding(us: map<string, seq<int>>, ms: seq<map<string, seq<int>>>) {
    && (forall d {:trigger d in us} :: d !in us ==> exists j :: 0 <= j < |ms| && d !in ms[j])
    && (forall d, j :: 0 <= j < |ms| && d !in ms[j] ==> d !in us)
  }

  /** On axes in the same order, records that stack under one window stack under another that
      agrees with it on which of the unequal axes are narrowed. */
  lemma AlignedToo(f0: Field, f1: Field, a: map<string, seq<int>>, b: map<string, seq<int>>, td: string, r0: nat, r1: nat)
    requires f0.Valid() && f1.Valid() && td in f0.dims && f1.dims == f0.dims && td !in a && td !in b
    requires Aligned(f0.dims, ShapeUnder(f0, a), ShapeUnder(f1, a), td, r0, r1)
    requires forall k :: 0 <= k < |f0.dims| && f0.dims[k] != td && f0.dims[k] !in b ==> f0.shape[k] == f1.shape[k]
    ensures Aligned(f0.dims, ShapeUnder(f0, b), ShapeUnder(f1, b), td, r0, r1)
  {
    hide HasShape;
  }

  /** On axes in the same order, records stack under the union exactly when they stack under
      every window. */
  lemma AlignedEverywhere(f0: Field, f1: Field, us: map<string, seq<int>>, ms: seq<map<string, seq<int>>>, td: string, r0: nat, r1: nat)
    requires f0.Valid() && f1.Valid() && (td in f0.dims ==> f1.dims == f0.dims) && Bounding(us, ms) && ms != [] && td !in us && forall j :: 0 <= j < |ms| ==> td !in ms[j]
    ensures Aligned(f0.dims, ShapeUnder(f0, us), ShapeUnder(f1, us), td, r0, r1)
       <==> forall j :: 0 <= j < |ms| ==> Aligned(f0.dims, ShapeUnder(f0, ms[j]), ShapeUnder(f1, ms[j]), td, r0, r1)
  {
    hide HasShape, Aligned;
    if td in f0.dims {
      if Aligned(f0.dims, ShapeUnder(f0, us), ShapeUnder(f1, us), td, r0, r1) {
        forall j | 0 <= j < |ms|
          ensures Aligned(f0.dims, ShapeUnder(f0, ms[j]), ShapeUnder(f1, ms[j]), td, r0, r1)
        {
          forall k | 0 <= k < |f0.dims| && f0.dims[k] != td && f0.dims[k] !in ms[j]
            ensures f0.shape[k] == f1.shape[k]
          {
            SameLength(f0, f1, us, td, r0, r1, k);
          }
          AlignedToo(f0, f1, us, ms[j], td, r0, r1);
        }
      }
      if forall j :: 0 <= j < |ms| ==> Aligned(f0.dims, ShapeUnder(f0, ms[j]), ShapeUnder(f1, ms[j]), td, r0, r1) {
        forall k | 0 <= k < |f0.dims| && f0.dims[k] != td && f0.dims[k] !in us
          ensures f0.shape[k] == f1.shape[k]
        {
          var j :| 0 <= j < |ms| && f0.dims[k] !in ms[j];
          SameLength(f0, f1, ms[j], td, r0, r1, k);
        }
        AlignedToo(f0, f1, ms[0], us, td, r0, r1);
      }
    } else {
      NoTimeAligned(f0, f1, td, r0, r1);
    }
  }

  lemma SameLength(f0: Field, f1: Field, m: map<string, seq<int>>, td: string, r0: nat, r1: nat, k: nat)
    requires f0.Valid() && f1.Valid() && td in f0.dims && f1.dims == f0.dims && k < |f0.dims| && f0.dims[k] != td && f0.dims[k] !in m
    requires Aligned(f0.dims, ShapeUnder(f0, m), ShapeUnder(f1, m), td, r0, r1)
    ensures f0.shape[k] == f1.shape[k]
  {
    assert ShapeUnder(f0, m)[k] == ShapeUnder(f1, m)[k];
  }

  lemma NoTimeAligned(f0: Field, f1: Field, td: string, r0: nat, r1: nat)
    requires f0.Valid() && f1.Valid() && td !in f0.dims
    ensures forall m :: Aligned(f0.dims, ShapeUnder(f0, m), ShapeUnder(f1, m), td, r0, r1)
  {
  }

  lemma StacksEverywhere(g0: Dataset, g1: Dataset, us: map<string, seq<int>>, ms: seq<map<string, seq<int>>>, td: string, r0: nat, r1: nat)
    requires g0.Valid() && g1.Valid() && SameLayout(g0, g1, td) && Bounding(us, ms) && ms != [] && td !in us && forall j :: 0 <= j < |ms| ==> td !in ms[j]
    ensures StacksUnder(g0, g1, td, r0, r1, us) <==> forall j :: 0 <= j < |ms| ==> StacksUnder(g0, g1, td, r0, r1, ms[j])
  {
    hide Field.Valid, Aligned, ShapeUnder, Bounding;
    forall n | n in g0.variables && n in g1.variables
      ensures Aligned(g0.variables[n].dims, ShapeUnder(g0.variables[n], us), ShapeUnder(g1.variables[n], us), td, r0, r1)
         <==> forall j :: 0 <= j < |ms| ==> Aligned(g0.variables[n].dims, ShapeUnder(g0.variables[n], ms[j]), ShapeUnder(g1.variables[n], ms[j]), td, r0, r1)
    {
      AlignedEverywhere(g0.variables[n], g1.variables[n], us, ms, td, r0, r1);
    }
    assert StacksUnder(g0, g1, td, r0, r1, ms[0]) ==> forall n :: n in g0.variables ==> n in g1.variables;
  }

  ghost function ListsOf(u: Union): (ms: seq<map<string, seq<int>>>)
    ensures |ms| == |u.wanted| && forall j :: 0 <= j < |ms| ==> ms[j] == Lists(u.wanted[j])
  {
    seq(|u.wanted|, j requires 0 <= j < |u.wanted| => Lists(u.wanted[j]))
  }

  lemma UnionBounds(ws: seq<Window>, u: Union)
    requires IsUnion(ws, u) && ws != []
    ensures Bounding(Lists(u.lists), ListsOf(u))
  {
    hide WantedOf, Bounds;
    var us, ms := Lists(u.lists), ListsOf(u);
    forall d | d !in us
      ensures exists j :: 0 <= j < |ms| && d !in ms[j]
    {
      if d in u.lists {
        assert NeedsWhole(u.wanted, d);
        var j :| 0 <= j < |u.wanted| && Whole_(u.wanted[j], d);
        assert d !in ms[j];
      } else {
        assert d !in u.wanted[0];
        assert d !in ms[0];
      }
    }
    forall d, j | 0 <= j < |ms| && d !in ms[j]
      ensures d !in us
    {
      assert Whole_(u.wanted[j], d);
      if d in u.lists { assert NeedsWhole(u.wanted, d); }
    }
  }

  /** The files on either side of the seam name the axes of their variables alike. */
  ghost predicate LikeSeam(l: Loader, s: SourceTemporal, anchor: int)
    requires s.Valid()
  {
    var f0, f1 := l.fetch(s.FileAnchor(anchor)), l.fetch(s.FileAnchor(s.NextRecordAnchor(anchor)));
    f0.Ok? && f1.Ok? ==> SameLayout(f0.value.dataset, f1.value.dataset, s.timeDim)
  }

  /** The union and the windows find the next record together, or none does. */
  ghost predicate FoundAlike(l: Loader, s: SourceTemporal, anchor: int, u: Union)
    requires ValidLoader(l) && s.Valid() && s.IsRecordAnchor(anchor)
  {
    forall i :: 0 <= i < |u.wanted| ==> (FindsNext(l, s, anchor, u.lists) <==> FindsNext(l, s, anchor, u.wanted[i]))
  }

  /** With axes named alike, windows that find the next record together make an even seam;
      and where every window alone succeeds, only they do. */
  lemma LikeAxesSeam(l: Loader, s: SourceTemporal, anchor: int, ws: seq<Window>, u: Union)
    requires Together(l, ws, u) && l.temporal == Some(s) && s.Valid() && s.IsRecordAnchor(anchor) && LikeSeam(l, s, anchor)
    ensures FoundAlike(l, s, anchor, u) ==> EvenSeam(l, s, anchor, u)
    ensures (l.fetch(s.FileAnchor(anchor)).Ok? && forall i :: 0 <= i < |u.wanted| ==> ReadsFirst(l, s, anchor, u.wanted[i]) && Brackets(l, s, anchor, u.wanted[i])) ==>
              (EvenSeam(l, s, anchor, u) <==> FoundAlike(l, s, anchor, u))
  {
    hide SourceTemporal.Valid, SourceTemporal.IsRecordAnchor, SourceTemporal.FileAnchor, ValidLoader, IsUnion, Covers, Distinct, Allowed, ValidWindow, Brackets, FindsNext, Readable, SameSeam, LikeSeam;
    WantedCount(ws, u);
    if FoundAlike(l, s, anchor, u) && l.fetch(s.FileAnchor(anchor)).Ok? && forall i :: 0 <= i < |u.wanted| ==> ReadsFirst(l, s, anchor, u.wanted[i]) {
      BracketsAlike(l, s, anchor, ws, u);
      if Brackets(l, s, anchor, u.lists) {
        forall i | 0 <= i < |u.wanted|
          ensures SameSeam(l, s, anchor, u, u.wanted[i])
        {
          SeamAlike(l, s, anchor, ws, u, i);
        }
      }
    }
    if EvenSeam(l, s, anchor, u) && l.fetch(s.FileAnchor(anchor)).Ok? && forall i :: 0 <= i < |u.wanted| ==> ReadsFirst(l, s, anchor, u.wanted[i]) && Brackets(l, s, anchor, u.wanted[i]) {
      forall i | 0 <= i < |u.wanted|
        ensures FindsNext(l, s, anchor, u.lists) <==> FindsNext(l, s, anchor, u.wanted[i])
      {
        FoundTogether(l, s, anchor, u, u.wanted[i]);
      }
    }
  }

  lemma FoundTogether(l: Loader, s: SourceTemporal, anchor: int, u: Union, m: Wants)
    requires ValidLoader(l) && s.Valid() && s.IsRecordAnchor(anchor) && l.fetch(s.FileAnchor(anchor)).Ok? && Covers(u, m) && SameSeam(l, s, anchor, u, m)
    ensures FindsNext(l, s, anchor, u.lists) <==> FindsNext(l, s, anchor, m)
  {
    hide FindsNext, AllSameCells, EndUnder, ValidLoader;
  }

  lemma LikeEnd(l: Loader, s: SourceTemporal, anchor: int, m: Wants)
    requires ValidLoader(l) && s.Valid() && s.IsRecordAnchor(anchor) && LikeSeam(l, s, anchor) && l.fetch(s.FileAnchor(anchor)).Ok?
    ensures SameLayout(l.fetch(s.FileAnchor(anchor)).value.dataset, EndUnder(l, s, anchor, m).ds, s.timeDim)
  {
    hide RecordIndex, SourceTemporal.Valid, SourceTemporal.IsRecordAnchor, SourceTemporal.FileAnchor, SourceTemporal.NextRecordAnchor, Readable, TimeLen;
  }

  lemma BracketsAlike(l: Loader, s: SourceTemporal, anchor: int, ws: seq<Window>, u: Union)
    requires Together(l, ws, u) && l.temporal == Some(s) && s.Valid() && s.IsRecordAnchor(anchor) && |u.wanted| == |ws|
    requires LikeSeam(l, s, anchor) && FoundAlike(l, s, anchor, u) && l.fetch(s.FileAnchor(anchor)).Ok?
    ensures Brackets(l, s, anchor, u.lists) <==> forall i :: 0 <= i < |u.wanted| ==> Brackets(l, s, anchor, u.wanted[i])
  {
    hide SourceTemporal.Valid, SourceTemporal.IsRecordAnchor, SourceTemporal.FileAnchor, IsUnion, Covers, Distinct, Allowed, ValidWindow, FindsNext, Readable, LikeSeam, EndUnder, StacksUnder, SameLayout,
         RecordIndex, Lists, Bounding;
    UnionBounds(ws, u);
    UnionAllowed(l, ws, u);
    var g0, e, td, us, ms := l.fetch(s.FileAnchor(anchor)).value.dataset, EndUnder(l, s, anchor, u.lists), s.timeDim, Lists(u.lists), ListsOf(u);
    NotListed(u.lists, td);
    forall i | 0 <= i < |ms|
      ensures EndUnder(l, s, anchor, u.wanted[i]) == e && td !in ms[i]
    {
      EndsAlike(l, s, anchor, u.lists, u.wanted[i]);
      NotListed(u.wanted[i], td);
    }
    LikeEnd(l, s, anchor, u.lists);
    FileIsValid(l.fetch(s.FileAnchor(anchor)).value);
    StacksEverywhere(g0, e.ds, us, ms, td, RecordIndex(l.times, g0, s, anchor), e.rec);
    assert forall i :: 0 <= i < |ms| ==> (Brackets(l, s, anchor, u.wanted[i]) <==> StacksUnder(g0, e.ds, td, RecordIndex(l.times, g0, s, anchor), e.rec, ms[i]));
  }

  lemma SeamAlike(l: Loader, s: SourceTemporal, anchor: int, ws: seq<Window>, u: Union, i: nat)
    requires Together(l, ws, u) && l.temporal == Some(s) && s.Valid() && s.IsRecordAnchor(anchor) && i < |u.wanted| && |u.wanted| == |ws|
    requires LikeSeam(l, s, anchor) && FoundAlike(l, s, anchor, u) && l.fetch(s.FileAnchor(anchor)).Ok? && Brackets(l, s, anchor, u.wanted[i])
    ensures SameSeam(l, s, anchor, u, u.wanted[i])
  {
    hide SourceTemporal.Valid, SourceTemporal.IsRecordAnchor, SourceTemporal.FileAnchor, SourceTemporal.NextRecordAnchor, IsUnion, Covers, Distinct, Allowed, ValidWindow, Readable, LikeSeam, StacksUnder, SameLayout,
         RecordIndex, Lists, Cuts, Refines, AllSameCells, TimeLen, DatasetReaches;
    var m := u.wanted[i];
    if FindsNext(l, s, anchor, m) {
      var file := l.fetch(s.FileAnchor(s.NextRecordAnchor(anchor))).value;
      var g0, e := l.fetch(s.FileAnchor(anchor)).value.dataset, EndUnder(l, s, anchor, m);
      FileIsValid(l.fetch(s.FileAnchor(anchor)).value);
      ReadableReaches(file, u.lists);
      ReadableReaches(file, m);
      CutsRefine(ws, u, i);
      LikeEnd(l, s, anchor, m);
      LikeCells(g0, e.ds, RecordIndex(l.times, g0, s, anchor), e.rec, Lists(u.lists), Cuts(u, m), Lists(m), s.timeDim);
    }
  }

  // ---- files alike -----------------------------------------------------------------------------

  /** Two files of one series: the same dimensions at the same lengths, except time. */
  ghost predicate Alike(f0: File, f1: File, td: string) {
    && SameLayout(f0.dataset, f1.dataset, td)
    && forall d {:trigger AlikeAt(f0, f1, d)} :: d != td ==> AlikeAt(f0, f1, d)
  }

  ghost predicate AlikeAt(f0: File, f1: File, d: string) {
    && (Carries(f0.dataset, d) <==> Carries(f1.dataset, d))
    && (IsTime(f0.dataset, d) <==> IsTime(f1.dataset, d))
    && (d in f0.sizes ==> d in f1.sizes && f1.sizes[d] == f0.sizes[d])
  }

  lemma AlikeReads(f0: File, f1: File, td: string, m: Wants)
    requires Alike(f0, f1, td) && td !in m && Readable(f0, m)
    ensures Readable(f1, m)
  {
    hide Carries, IsTime, SameLayout;
    forall d | d in m
      ensures Carries(f1.dataset, d)
      ensures m[d].Some? ==> !IsTime(f1.dataset, d) && d in f1.sizes && Within(m[d].value, f1.sizes[d])
    {
      assert AlikeAt(f0, f1, d);
    }
  }

  /** Files alike always make an even seam: a series on one grid is windowed exactly. */
  lemma AlikeFilesAgree(l: Loader, t: int, ws: seq<Window>)
    requires ValidLoader(l) && forall i :: 0 <= i < |ws| ==> ValidWindow(ws[i])
    requires l.temporal.Some? ==>
               var s := l.temporal.value;
               var f0, f1 := l.fetch(s.FileAnchor(s.RecordAnchor(t))), l.fetch(s.FileAnchor(s.NextRecordAnchor(s.RecordAnchor(t))));
               f0.Ok? && f1.Ok? ==> Alike(f0.value, f1.value, s.timeDim)
    ensures Agree(l, t, ws)
  {
    hide Agree, Alike, EvenSeam, ValidWindow, UnionOf;
    WindowsAreTheWindowsAlone(l, t, ws);
    if l.temporal.Some? && ws != [] && (forall i :: 0 <= i < |ws| ==> Allowed(l, ws[i])) && UnionOf(ws).Ok? {
      var s, u := l.temporal.value, UnionOf(ws).value;
      RecordAnchorSnaps(s, t, t);
      UnionMeaning(ws);
      UnionCovers(ws, u);
      AlikeSeam(l, s, s.RecordAnchor(t), ws, u);
    }
  }

  lemma AlikeSeam(l: Loader, s: SourceTemporal, anchor: int, ws: seq<Window>, u: Union)
    requires Together(l, ws, u) && l.temporal == Some(s) && s.Valid() && s.IsRecordAnchor(anchor)
    requires var f0, f1 := l.fetch(s.FileAnchor(anchor)), l.fetch(s.FileAnchor(s.NextRecordAnchor(anchor)));
             f0.Ok? && f1.Ok? ==> Alike(f0.value, f1.value, s.timeDim)
    ensures EvenSeam(l, s, anchor, u)
  {
    hide SourceTemporal.Valid, SourceTemporal.IsRecordAnchor, SourceTemporal.FileAnchor, SourceTemporal.NextRecordAnchor, IsUnion, Covers, Distinct, Allowed, ValidWindow, Readable, AlikeAt, SameLayout,
         FindsNext, Brackets, SameSeam, ValidLoader;
    WantedCount(ws, u);
    LikeAxesSeam(l, s, anchor, ws, u);
    if l.fetch(s.FileAnchor(anchor)).Ok? && forall i :: 0 <= i < |u.wanted| ==> ReadsFirst(l, s, anchor, u.wanted[i]) {
      TogetherIff(l, s, anchor, ws, u);
      UnionAllowed(l, ws, u);
      forall i | 0 <= i < |u.wanted|
        ensures FindsNext(l, s, anchor, u.lists) <==> FindsNext(l, s, anchor, u.wanted[i])
      {
        AlikeFinds(l, s, anchor, u.lists);
        AlikeFinds(l, s, anchor, u.wanted[i]);
      }
    }
  }

  /** Across files alike, whether the next record is found does not depend on the window. */
  lemma AlikeFinds(l: Loader, s: SourceTemporal, anchor: int, m: Wants)
    requires ValidLoader(l) && s.Valid() && s.IsRecordAnchor(anchor) && s.timeDim !in m && ReadsFirst(l, s, anchor, m)
    requires var f0, f1 := l.fetch(s.FileAnchor(anchor)), l.fetch(s.FileAnchor(s.NextRecordAnchor(anchor)));
             f0.Ok? && f1.Ok? ==> Alike(f0.value, f1.value, s.timeDim)
    ensures FindsNext(l, s, anchor, m) <==> NextInside(l, s, anchor)
  {
    hide SourceTemporal.Valid, SourceTemporal.IsRecordAnchor, SourceTemporal.FileAnchor, SourceTemporal.NextRecordAnchor, Readable, Alike, RecordIndex, TimeLen, HasSuccessor;
    var f1 := l.fetch(s.FileAnchor(s.NextRecordAnchor(anchor)));
    if f1.Ok? { AlikeReads(l.fetch(s.FileAnchor(anchor)).value, f1.value, s.timeDim, m); }
  }

  ghost predicate NextInside(l: Loader, s: SourceTemporal, anchor: int)
    requires ValidLoader(l) && s.Valid() && s.IsRecordAnchor(anchor)
  {
    RecordAnchorSnaps(s, anchor, anchor);
    var next := s.NextRecordAnchor(anchor);
    HasSuccessor(s, anchor) &&
    match l.fetch(s.FileAnchor(next))
    case Err(_) => false
    case Ok(file) => FileIsValid(file); RecordIndex(l.times, file.dataset, s, next) < TimeLen(file.dataset, s.timeDim)
  }

  // ---- uneven seams ------------------------------------------------------------------------------

  const DAILY := SourceTemporal(DateTime(2000, 1, 1, 0), Period(0, 86_400), Period(0, 86_400), None, "time", 2)

  /** The cadence of the example: the start, its next anchor, and record 0 of a file each. */
  lemma DailyAnchors()
    ensures DAILY.Valid()
    ensures var t := DAILY.start.Instant();
            && DAILY.RecordAnchor(t) == t == DAILY.FileAnchor(t) && DAILY.IsRecordAnchor(t)
            && DAILY.RecordInFile(t, t) == 0
            && var n := DAILY.NextRecordAnchor(t);
               n > t && DAILY.IsRecordAnchor(n) && DAILY.FileAnchor(n) == n && DAILY.RecordInFile(n, n) == 0
  {
    assert DAILY.Valid();
    var t, p, st := DAILY.start.Instant(), DAILY.frequency, DAILY.start;
    hide Period.Anchor, Period.Floor, Period.Ceil, DateTime.Instant;
    StartIsAnchorZero(p, st);
    IndexOfAnchor(p, st, 0);
    IndexOfAnchor(p, st, 1);
    AnchorsIncrease(p, st, 0, 1);
  }

  /** One day of a variable `v`: its axes in the order stored, one record long in time. */
  datatype Grid = Grid(dims: seq<string>, shape: seq<nat>)

  predicate DayGrid(g: Grid) {
    && |g.dims| == |g.shape| && "time" in g.dims && "x" in g.dims
    && (forall i, j :: 0 <= i < j < |g.dims| ==> g.dims[i] != g.dims[j])
    && Length(g, "time") == 1
  }

  function Length(g: Grid, d: string): nat
    requires |g.dims| == |g.shape| && d in g.dims
  {
    g.shape[IndexOf(g.dims, d)]
  }

  function Zeros(shape: seq<nat>): (a: Nd)
    ensures HasShape(a, shape)
  {
    if shape == [] then Leaf(Stored(0)) else Node(seq(shape[0], i => Zeros(shape[1..])))
  }

  function DayField(g: Grid): (f: Field)
    requires DayGrid(g)
    ensures f.Valid()
  {
    Field(g.dims, g.shape, Zeros(g.shape), map[])
  }

  function DayFile(g: Grid): File
    requires DayGrid(g)
  {
    File(map d | d in g.dims :: Length(g, d), Dataset(map["v" := DayField(g)], map[]))
  }

  lemma DayFileIsValid(g: Grid)
    requires DayGrid(g)
    ensures DayFile(g).Valid()
  {
    hide Zeros, HasShape;
    forall k | 0 <= k < |g.dims|
      ensures Length(g, g.dims[k]) == g.shape[k]
    {
      var i := IndexOf(g.dims, g.dims[k]);
    }
  }

  /** The first day on one grid, every later one on another. */
  function TwoDays(a: Grid, b: Grid): Loader
    requires DayGrid(a) && DayGrid(b)
  {
    Loader(Some(DAILY), fa => Ok(if fa == DAILY.start.Instant() then DayFile(a) else DayFile(b)), f => None, true, None)
  }

  lemma TwoDaysAreValid(a: Grid, b: Grid)
    requires DayGrid(a) && DayGrid(b)
    ensures ValidLoader(TwoDays(a, b))
  {
    DayFileIsValid(a);
    DayFileIsValid(b);
    assert DAILY.Valid();
    hide DateTime.Instant, SourceTemporal.Valid, File.Valid, DayGrid;
    var l := TwoDays(a, b);
    forall fa
      ensures l.fetch(fa) == Ok(DayFile(a)) || l.fetch(fa) == Ok(DayFile(b))
    {
    }
  }

  /** The window of cell `k` of dimension x. */
  function OneCell(k: nat): Window { [("x", Indices([k]))] }

  lemma CellWants(k: nat)
    ensures ValidWindow(OneCell(k)) && WantedOf(OneCell(k)) == Ok(map["x" := Some([k])])
  {
    assert OneCell(k)[..0] == [];
    assert WantedOf(OneCell(k)[..0]) == Ok(map[]);
  }

  /** The wants of the cells `idx` of dimension x, and nothing else. */
  function Cells(idx: seq<int>): Wants { map["x" := Some(idx)] }

  lemma CellsTogether(l: Loader) returns (u: Union)
    requires ValidLoader(l) && l.baked.None? && l.supportsSelection && l.temporal == Some(DAILY)
    ensures Together(l, [OneCell(0), OneCell(1)], u) && UnionOf([OneCell(0), OneCell(1)]) == Ok(u)
    ensures u.wanted == [Cells([0]), Cells([1])] && u.lists == Cells([0, 1])
  {
    hide UnionOf, ValidLoader, Allowed, OneCell, ValidWindow, WantedOf, Covers, Bounds, NeedsWhole, Distinct;
    var ws := [OneCell(0), OneCell(1)];
    CellAllowed(l, 0);
    CellAllowed(l, 1);
    UnionMeaning(ws);
    u := UnionOf(ws).value;
    UnionCovers(ws, u);
    assert forall i :: 0 <= i < 2 ==> WantedOf(ws[i]) == Ok(u.wanted[i]);
    assert u.wanted == [Cells([0]), Cells([1])];
    assert "x" in u.wanted[0];
    assert forall d :: d in u.lists <==> d == "x";
    BothCells(u);
  }

  lemma CellAllowed(l: Loader, k: nat)
    requires l.baked.None? && l.supportsSelection && l.temporal == Some(DAILY)
    ensures ValidWindow(OneCell(k)) && Allowed(l, OneCell(k)) && WantedOf(OneCell(k)) == Ok(Cells([k]))
  {
    hide WantedOf, ValidWindow, DateTime.Instant;
    CellWants(k);
  }

  lemma BothCells(u: Union)
    requires u.wanted == [Cells([0]), Cells([1])] && "x" in u.lists && (u.lists["x"].None? <==> NeedsWhole(u.wanted, "x")) && (u.lists["x"].Some? ==> Bounds(u, "x"))
    ensures u.lists["x"] == Some([0, 1])
  {
    var a, b := u.wanted[0], u.wanted[1];
    assert a["x"] == Some([0]) && b["x"] == Some([1]);
    forall i | 0 <= i < |u.wanted|
      ensures !Whole_(u.wanted[i], "x") && (i == 0 ==> u.wanted[i] == a) && (i == 1 ==> u.wanted[i] == b)
    {
    }
    var s := u.lists["x"].value;
    assert [0][0] in a["x"].value && [1][0] in b["x"].value;
    InBounds(u, "x", 0, 0);
    InBounds(u, "x", 1, 1);
    forall k | 0 <= k < |s|
      ensures s[k] == 0 || s[k] == 1
    {
      assert s[k] in s;
    }
    ZeroAndOne(s);
  }

  lemma {:induction false} AtLeast(s: seq<int>, k: nat)
    requires Increasing(s) && k < |s|
    ensures s[k] >= s[0] + k
  {
    if k > 0 { AtLeast(s, k - 1); }
  }

  lemma ZeroAndOne(s: seq<int>)
    requires Increasing(s) && 0 in s && 1 in s && forall k :: 0 <= k < |s| ==> s[k] == 0 || s[k] == 1
    ensures s == [0, 1]
  {
    AtLeast(s, |s| - 1);
    var i :| 0 <= i < |s| && s[i] == 0;
    var j :| 0 <= j < |s| && s[j] == 1;
    assert i != j && s[0] < s[1];
  }

  lemma DayReadable(g: Grid, idx: seq<int>)
    requires DayGrid(g)
    ensures Readable(DayFile(g), Cells(idx)) <==> Within(idx, Length(g, "x"))
  {
    hide Zeros, HasShape, Words;
    var file, m := DayFile(g), Cells(idx);
    assert "x" in file.dataset.variables["v"].dims;
    assert Carries(file.dataset, "x");
    assert |Lower("x")| == 1;
    assert !IsTime(file.dataset, "x");
    assert "x" in m && m["x"] == Some(idx) && forall d :: d in m <==> d == "x";
    assert "x" in file.sizes && file.sizes["x"] == Length(g, "x");
  }

  lemma DayLength(g: Grid)
    requires DayGrid(g)
    ensures DayFile(g).dataset.Valid() && TimeLen(DayFile(g).dataset, "time") == 1
  {
    var ds := DayFile(g).dataset;
    assert "v" in ds.variables && "time" in ds.variables["v"].dims;
    assert CarriedBy(ds.variables, "time");
  }

  /** The lengths of a grid under some cells of dimension x. */
  function Narrow(g: Grid, n: nat): (s: seq<nat>)
    requires |g.dims| == |g.shape|
    ensures |s| == |g.dims| && forall k :: 0 <= k < |s| ==> s[k] == if g.dims[k] == "x" then n else g.shape[k]
  {
    seq(|g.dims|, k requires 0 <= k < |g.dims| => if g.dims[k] == "x" then n else g.shape[k])
  }

  lemma DaysStack(a: Grid, b: Grid, idx: seq<int>)
    requires DayGrid(a) && DayGrid(b)
    ensures DayFile(a).dataset.Valid() && DayFile(b).dataset.Valid()
    ensures StacksUnder(DayFile(a).dataset, DayFile(b).dataset, "time", 0, 0, Lists(Cells(idx))) <==> Aligned(a.dims, Narrow(a, |idx|), Narrow(b, |idx|), "time", 0, 0)
  {
    hide Zeros, HasShape, Aligned, DayGrid, Length;
    var m := Lists(Cells(idx));
    assert m == map["x" := idx];
    assert ShapeUnder(DayField(a), m) == Narrow(a, |idx|);
    assert ShapeUnder(DayField(b), m) == Narrow(b, |idx|);
    hide ShapeUnder, Narrow, Lists, Field.Valid;
    var d0, d1 := DayFile(a).dataset, DayFile(b).dataset;
    assert "v" in d0.variables && d0.variables["v"] == DayField(a) && "v" in d1.variables && d1.variables["v"] == DayField(b);
    assert forall n :: n in d0.variables <==> n == "v";
  }

  /** The two files and records of the seam after the first day. */
  lemma DayRecords(a: Grid, b: Grid)
    requires DayGrid(a) && DayGrid(b)
    ensures var l, t := TwoDays(a, b), DAILY.start.Instant();
            && DAILY.Valid() && DAILY.RecordAnchor(t) == t && DAILY.IsRecordAnchor(t)
            && l.fetch(DAILY.FileAnchor(t)) == Ok(DayFile(a)) && DayFile(a).dataset.Valid() && RecordIndex(l.times, DayFile(a).dataset, DAILY, t) == 0
            && var n := DAILY.NextRecordAnchor(t);
               DAILY.IsRecordAnchor(n) && l.fetch(DAILY.FileAnchor(n)) == Ok(DayFile(b)) && DayFile(b).dataset.Valid() && RecordIndex(l.times, DayFile(b).dataset, DAILY, n) == 0
  {
    DailyAnchors();
    DayLength(a);
    DayLength(b);
    hide DateTime.Instant, DayFile, SourceTemporal.IsRecordAnchor, SourceTemporal.RecordAnchor, SourceTemporal.NextRecordAnchor, SourceTemporal.FileAnchor, SourceTemporal.RecordInFile, DayGrid;
  }

  /** Everything a pair of days asks of the cells `idx`, in lengths. */
  lemma DaySeam(a: Grid, b: Grid, idx: seq<int>)
    requires DayGrid(a) && DayGrid(b) && ValidLoader(TwoDays(a, b)) && DAILY.IsRecordAnchor(DAILY.start.Instant())
    ensures var l, t := TwoDays(a, b), DAILY.start.Instant();
            && l.fetch(DAILY.FileAnchor(t)).Ok?
            && (ReadsFirst(l, DAILY, t, Cells(idx)) <==> Within(idx, Length(a, "x")))
            && (FindsNext(l, DAILY, t, Cells(idx)) <==> Within(idx, Length(b, "x")))
            && (Brackets(l, DAILY, t, Cells(idx)) <==> Aligned(a.dims, Narrow(a, |idx|), Narrow(if Within(idx, Length(b, "x")) then b else a, |idx|), "time", 0, 0))
  {
    hide DateTime.Instant, DayFile, TwoDays, SourceTemporal.IsRecordAnchor, SourceTemporal.RecordAnchor, SourceTemporal.NextRecordAnchor, SourceTemporal.FileAnchor, Readable, RecordIndex, TimeLen, Within,
         StacksUnder, Aligned, Narrow, Length, SourceTemporal.Valid, ValidLoader, Cells;
    DayRecords(a, b);
    hide DayGrid;
    DayReadable(a, idx);
    DayReadable(b, idx);
    DayLength(b);
    DaysStack(a, b, idx);
    DaysStack(a, a, idx);
  }

  lemma InFirst(n: nat)
    ensures (Within([0], n) <==> n >= 1) && (Within([1], n) <==> n >= 2) && (Within([0, 1], n) <==> n >= 2)
  {
    if Within([0], n) { assert [0][0] < n; }
    if Within([1], n) { assert [1][0] < n; }
    if Within([0, 1], n) { assert [0, 1][1] < n; }
  }

  /** The two cells of the first day across such a seam: who succeeds, and what agreeing takes. */
  lemma TwoCells(a: Grid, b: Grid)
    requires DayGrid(a) && DayGrid(b) && Length(a, "x") == 2
    ensures var l, t, ws := TwoDays(a, b), DAILY.start.Instant(), [OneCell(0), OneCell(1)];
            && ValidLoader(l) && (forall i :: 0 <= i < |ws| ==> ValidWindow(ws[i]))
            && (Alone(l, t, OneCell(0)).Ok? <==> Aligned(a.dims, Narrow(a, 1), Narrow(if Length(b, "x") >= 1 then b else a, 1), "time", 0, 0))
            && (Alone(l, t, OneCell(1)).Ok? <==> Aligned(a.dims, Narrow(a, 1), Narrow(if Length(b, "x") >= 2 then b else a, 1), "time", 0, 0))
            && (SampleWindowsAt(l, t, ws).Ok? <==> Aligned(a.dims, Narrow(a, 2), Narrow(if Length(b, "x") >= 2 then b else a, 2), "time", 0, 0))
            && (Agree(l, t, ws) && SampleWindowsAt(l, t, ws).Ok? ==> Length(b, "x") != 1 && Alone(l, t, OneCell(0)).Ok? && Alone(l, t, OneCell(1)).Ok?)
  {
    hide DateTime.Instant, TwoDays, DayFile, SourceTemporal.IsRecordAnchor, SourceTemporal.RecordAnchor, SourceTemporal.NextRecordAnchor, SourceTemporal.FileAnchor, RecordIndex,
         Aligned, Narrow, Length, SourceTemporal.Valid, ValidLoader, Cells, Together, UnionOf, Alone, SampleWindowsAt, Agree, Brackets, FindsNext, ReadsFirst, OneCell, ValidWindow, Within;
    var l, t, ws := TwoDays(a, b), DAILY.start.Instant(), [OneCell(0), OneCell(1)];
    TwoDaysAreValid(a, b);
    CellWants(0);
    CellWants(1);
    DayRecords(a, b);
    ItsLoader(a, b);
    var u := CellsTogether(l);
    DaySeam(a, b, [0]);
    DaySeam(a, b, [1]);
    DaySeam(a, b, [0, 1]);
    InFirst(Length(a, "x"));
    InFirst(Length(b, "x"));
    assert u.wanted[0] == Cells([0]) && u.wanted[1] == Cells([1]);
    SeamResults(l, DAILY, t, ws, u);
    assert ws[0] == OneCell(0) && ws[1] == OneCell(1);
    if Agree(l, t, ws) && SampleWindowsAt(l, t, ws).Ok? {
      CellsFoundAlike(l, t, ws, u);
      assert FindsNext(l, DAILY, t, u.lists) <==> FindsNext(l, DAILY, t, u.wanted[0]);
      AgreeSucceeds(l, t, ws);
    }
  }

  lemma AgreeSucceeds(l: Loader, t: int, ws: seq<Window>)
    requires ValidLoader(l) && (forall i :: 0 <= i < |ws| ==> ValidWindow(ws[i])) && Agree(l, t, ws) && SampleWindowsAt(l, t, ws).Ok?
    ensures forall i :: 0 <= i < |ws| ==> Alone(l, t, ws[i]).Ok?
  {
    hide ValidLoader, ValidWindow, Alone, SampleWindowsAt;
  }

  lemma ItsLoader(a: Grid, b: Grid)
    requires DayGrid(a) && DayGrid(b)
    ensures var l := TwoDays(a, b); l.baked.None? && l.supportsSelection && l.temporal == Some(DAILY)
  {
  }

  lemma CellsFoundAlike(l: Loader, t: int, ws: seq<Window>, u: Union)
    requires Together(l, ws, u) && UnionOf(ws) == Ok(u) && l.temporal == Some(DAILY) && |u.wanted| == |ws| && Agree(l, t, ws)
    requires DAILY.IsRecordAnchor(DAILY.RecordAnchor(t)) && DAILY.start.Instant() <= DAILY.RecordAnchor(t)
    requires l.fetch(DAILY.FileAnchor(DAILY.RecordAnchor(t))).Ok? && (forall i :: 0 <= i < |ws| ==> ReadsFirst(l, DAILY, DAILY.RecordAnchor(t), u.wanted[i])) && Brackets(l, DAILY, DAILY.RecordAnchor(t), u.lists)
    ensures FoundAlike(l, DAILY, DAILY.RecordAnchor(t), u)
  {
    hide Agree, UnionOf, ValidWindow, Allowed, ReadsFirst, Brackets, FindsNext, SameSeam, SourceTemporal.RecordAnchor, SourceTemporal.FileAnchor, SourceTemporal.IsRecordAnchor, DateTime.Instant, IsUnion, Covers,
         ValidLoader;
    WindowsAreTheWindowsAlone(l, t, ws);
    forall i | 0 <= i < |u.wanted|
      ensures FindsNext(l, DAILY, DAILY.RecordAnchor(t), u.lists) <==> FindsNext(l, DAILY, DAILY.RecordAnchor(t), u.wanted[i])
    {
      FoundTogether(l, DAILY, DAILY.RecordAnchor(t), u, u.wanted[i]);
    }
  }

  const WIDE := Grid(["time", "x"], [1, 2])
  const NARROW := Grid(["time", "x"], [1, 1])
  const SQUARE := Grid(["time", "x", "y"], [1, 2, 2])
  const TALL := Grid(["time", "x", "y"], [1, 1, 3])
  const TURNED := Grid(["time", "y", "x"], [1, 2, 2])

  lemma DayGrids()
    ensures DayGrid(WIDE) && DayGrid(NARROW) && DayGrid(SQUARE) && DayGrid(TALL) && DayGrid(TURNED)
    ensures Length(WIDE, "x") == Length(SQUARE, "x") == Length(TURNED, "x") == 2 && Length(NARROW, "x") == Length(TALL, "x") == 1
    ensures forall g :: g == WIDE || g == NARROW || g == SQUARE || g == TALL || g == TURNED ==> IndexOf(g.dims, "time") == 0
  {
    assert WIDE.dims[0] == NARROW.dims[0] == SQUARE.dims[0] == TALL.dims[0] == TURNED.dims[0] == "time";
    assert WIDE.dims[1] == NARROW.dims[1] == SQUARE.dims[1] == TALL.dims[1] == TURNED.dims[2] == "x";
  }

  /** A second day only one cell wide: every sample succeeds, but the union's failed read of
      the second day holds the first day's record for the left cell too. */
  lemma NarrowerSeam()
    ensures DayGrid(WIDE) && DayGrid(NARROW)
    ensures var l, t, ws := TwoDays(WIDE, NARROW), DAILY.start.Instant(), [OneCell(0), OneCell(1)];
            && ValidLoader(l) && (forall i :: 0 <= i < |ws| ==> ValidWindow(ws[i]))
            && Alone(l, t, OneCell(0)).Ok? && Alone(l, t, OneCell(1)).Ok? && SampleWindowsAt(l, t, ws).Ok? && !Agree(l, t, ws)
  {
    DayGrids();
    hide DateTime.Instant, Alone, SampleWindowsAt, Agree, ValidLoader, ValidWindow;
    TwoCells(WIDE, NARROW);
  }

  /** A second day also longer the other way: the left cell alone finds its next record, which
      does not stack, and raises; all at once the union holds the first record, and succeeds. */
  lemma TallerSeam()
    ensures DayGrid(SQUARE) && DayGrid(TALL)
    ensures var l, t, ws := TwoDays(SQUARE, TALL), DAILY.start.Instant(), [OneCell(0), OneCell(1)];
            && ValidLoader(l) && (forall i :: 0 <= i < |ws| ==> ValidWindow(ws[i]))
            && Alone(l, t, OneCell(0)).Err? && Alone(l, t, OneCell(1)).Ok? && SampleWindowsAt(l, t, ws).Ok? && !Agree(l, t, ws)
  {
    DayGrids();
    hide DateTime.Instant, Alone, SampleWindowsAt, Agree, ValidLoader, ValidWindow;
    TwoCells(SQUARE, TALL);
  }

  /** A second day with its axes in another order, and nothing else different: stacking goes by
      the order, so each cell alone raises, and both at once succeed. */
  lemma PermutedSeam()
    ensures DayGrid(SQUARE) && DayGrid(TURNED)
    ensures var l, t, ws := TwoDays(SQUARE, TURNED), DAILY.start.Instant(), [OneCell(0), OneCell(1)];
            && ValidLoader(l) && (forall i :: 0 <= i < |ws| ==> ValidWindow(ws[i]))
            && Alone(l, t, OneCell(0)).Err? && Alone(l, t, OneCell(1)).Err? && SampleWindowsAt(l, t, ws).Ok? && !Agree(l, t, ws)
  {
    DayGrids();
    hide DateTime.Instant, Alone, SampleWindowsAt, ValidLoader, ValidWindow;
    TwoCells(SQUARE, TURNED);
  }
}
