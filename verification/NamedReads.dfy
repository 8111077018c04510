/** What a windowed read is, said of its names, its indices and its cells alone. */
module NamedReads {
  import opened Wrappers
  import opened NativeData
  import opened Arrays
  import opened Selection
  import opened Cells

  // ---- time dimensions -------------------------------------------------------------------

  /** `s` is `word`, which is in lower case, up to the case of its letters. */
  ghost predicate Spells(s: string, word: string) {
    |s| == |word| && forall i :: 0 <= i < |s| ==> s[i] == word[i] || ('A' <= s[i] <= 'Z' && s[i] as int + 32 == word[i] as int)
  }

  /** The code points at which text falls into words. */
  const BLANKS: seq<int> := [9, 10, 11, 12, 13, 28, 29, 30, 31, 32, 0x85, 0xA0, 0x1680, 0x2000, 0x2001, 0x2002, 0x2003, 0x2004, 0x2005, 0x2006, 0x2007,
                             0x2008, 0x2009, 0x200A, 0x2028, 0x2029, 0x202F, 0x205F, 0x3000]

  ghost predicate Blank(ch: char) {
    ch as int in BLANKS
  }

  lemma SpacesAreBlanks(ch: char)
    ensures IsSpace(ch) <==> Blank(ch)
  {
  }

  /** `s[a..b]` stands between blanks, or the ends, and holds none. */
  ghost predicate IsRun(s: string, a: int, b: int) {
    && 0 <= a < b <= |s| && (forall i :: a <= i < b ==> !Blank(s[i]))
    && (a == 0 || Blank(s[a - 1])) && (b == |s| || Blank(s[b]))
  }

  /** One of the words of `s` is `word` in any case. */
  ghost predicate HasWord(s: string, word: string) {
    exists a, b :: IsRun(s, a, b) && Spells(s[a..b], word)
  }

  lemma LowerSpells(s: string, word: string)
    requires forall i :: 0 <= i < |word| ==> 'a' <= word[i] <= 'z'
    ensures Lower(s) == word <==> Spells(s, word)
  {
    if Lower(s) == word {
      forall i | 0 <= i < |s|
        ensures s[i] == word[i] || ('A' <= s[i] <= 'Z' && s[i] as int + 32 == word[i] as int)
      {
        assert Lower(s)[i] == word[i];
      }
    }
    if Spells(s, word) {
      assert forall i :: 0 <= i < |s| ==> Lower(s)[i] == word[i];
    }
  }

  lemma LowerKeepsBlanks(s: string)
    ensures |Lower(s)| == |s| && forall i :: 0 <= i < |s| ==> (Blank(Lower(s)[i]) <==> Blank(s[i]))
  {
    hide Blank;
    forall i | 0 <= i < |s|
      ensures Blank(Lower(s)[i]) <==> Blank(s[i])
    {
      SpacesAreBlanks(s[i]);
      SpacesAreBlanks(Lower(s)[i]);
    }
  }

  lemma WordsStep(s: string, k: nat, i: nat)
    requires k <= i < |s|
    ensures Words(s[i..], s[k..i]) == if Blank(s[i]) then (if k == i then [] else [s[k..i]]) + Words(s[i + 1..], s[i + 1..i + 1]) else Words(s[i + 1..], s[k..i + 1])
  {
    hide Blank;
    SpacesAreBlanks(s[i]);
    assert s[i..][0] == s[i] && s[i..][1..] == s[i + 1..];
    assert s[i + 1..i + 1] == "";
    assert s[k..i] + [s[i]] == s[k..i + 1];
  }

  lemma WordsEnd(s: string, k: nat)
    requires k <= |s|
    ensures Words(s[|s|..], s[k..|s|]) == if k == |s| then [] else [s[k..|s|]]
  {
  }

  /** Some run of `s` from `k` on is `w`. */
  ghost predicate RunFrom(s: string, k: int, w: string) {
    exists a, b :: k <= a && IsRun(s, a, b) && s[a..b] == w
  }

  /** The words found from `i` on, with `s[k..i]` read of the one being read. */
  lemma {:induction false} WordsAreRuns(s: string, k: nat, i: nat, w: string)
    requires k <= i <= |s| && (k == 0 || Blank(s[k - 1])) && forall j :: k <= j < i ==> !Blank(s[j])
    ensures w in Words(s[i..], s[k..i]) <==> RunFrom(s, k, w)
    decreases |s| - i
  {
    hide Blank, Words, RunFrom, IsRun;
    if i == |s| {
      WordsEnd(s, k);
      LastRun(s, k, w);
    } else {
      WordsStep(s, k, i);
      if Blank(s[i]) {
        WordsAreRuns(s, i + 1, i + 1, w);
        RunsEndAtBlank(s, k, i, w);
      } else {
        WordsAreRuns(s, k, i + 1, w);
      }
    }
  }

  lemma LastRun(s: string, k: nat, w: string)
    requires k <= |s| && (k == 0 || Blank(s[k - 1])) && forall j :: k <= j < |s| ==> !Blank(s[j])
    ensures RunFrom(s, k, w) <==> k < |s| && s[k..|s|] == w
  {
    hide Blank;
    if k < |s| { assert IsRun(s, k, |s|); }
  }

  lemma RunsEndAtBlank(s: string, k: nat, i: nat, w: string)
    requires k <= i < |s| && (k == 0 || Blank(s[k - 1])) && (forall j :: k <= j < i ==> !Blank(s[j])) && Blank(s[i])
    ensures RunFrom(s, k, w) <==> (k < i && s[k..i] == w) || RunFrom(s, i + 1, w)
  {
    hide Blank;
    if k < i { assert IsRun(s, k, i); }
    if RunFrom(s, k, w) && !RunFrom(s, i + 1, w) {
      var a, b :| k <= a && IsRun(s, a, b) && s[a..b] == w;
      assert a <= i;
      assert a == k && b == i;
    }
  }

  lemma HasWordIff(s: string, word: string)
    requires forall i :: 0 <= i < |word| ==> 'a' <= word[i] <= 'z'
    ensures word in Words(Lower(s), "") <==> HasWord(s, word)
  {
    hide Blank, Lower, Words, Spells;
    var t := Lower(s);
    LowerKeepsBlanks(s);
    WordsAreRuns(t, 0, 0, word);
    assert t[0..] == t && t[0..0] == "";
    forall a, b | 0 <= a < b <= |s|
      ensures IsRun(t, a, b) && t[a..b] == word <==> IsRun(s, a, b) && Spells(s[a..b], word)
    {
      LowerOfPart(s, a, b);
      LowerSpells(s[a..b], word);
    }
    hide IsRun;
    forall a, b | IsRun(t, a, b) || IsRun(s, a, b)
      ensures 0 <= a < b <= |s|
    {
      RunInside(t, a, b);
      RunInside(s, a, b);
    }
  }

  lemma RunInside(s: string, a: int, b: int)
    ensures IsRun(s, a, b) ==> 0 <= a < b <= |s|
  {
  }

  lemma LowerOfPart(s: string, a: nat, b: nat)
    requires a <= b <= |s|
    ensures |Lower(s)| == |s| && Lower(s)[a..b] == Lower(s[a..b])
  {
  }

  /** Time, as the reader takes it: a coordinate of that name whose units hold the word
      "since", or the name "time", both in any case. */
  ghost predicate TimeNamed(ds: Dataset, d: string) {
    (d in ds.coords && "units" in ds.coords[d].attrs && HasWord(ds.coords[d].attrs["units"], "since")) || Spells(d, "time")
  }

  lemma TimeIsNamed(ds: Dataset, d: string)
    ensures IsTime(ds, d) <==> TimeNamed(ds, d)
  {
    hide Words, Lower, HasWord, Spells;
    LowerSpells(d, "time");
    if d in ds.coords && "units" in ds.coords[d].attrs { HasWordIff(ds.coords[d].attrs["units"], "since"); }
  }

  // ---- when a windowed read succeeds ------------------------------------------------------

  /** Some variable or coordinate has an axis `d`. */
  ghost predicate HasAxis(ds: Dataset, d: string) {
    (exists n :: n in ds.variables && d in ds.variables[n].dims) || (exists n :: n in ds.coords && d in ds.coords[n].dims)
  }

  /** The selector asks for index `x`, whatever the length of the axis. */
  ghost predicate Asks(axis: Axis, x: int) {
    match axis
    case All => false
    case Indices(idx) => x in idx
    case Slice(start, stop, step) => step >= 1 && start <= x < stop && (x - start) % step == 0
  }

  /** Every index the selector asks for is one of an axis of length `n`. */
  ghost predicate AllExist(axis: Axis, n: nat) {
    forall x :: Asks(axis, x) ==> 0 <= x < n
  }

  /** One entry of a window can be read: the axis is there and, unless it is left whole, it is
      not time, a slice steps forward, and every index asked for exists. */
  ghost predicate EntryReads(file: File, d: string, axis: Axis) {
    && HasAxis(file.dataset, d)
    && (!axis.All? ==>
          && !TimeNamed(file.dataset, d) && (axis.Slice? ==> axis.step >= 1)
          && d in file.sizes && AllExist(axis, file.sizes[d]))
  }

  lemma AsksIs(axis: Axis, x: int)
    requires Unbounded(axis).Ok? && Unbounded(axis).value.Some?
    ensures x in Unbounded(axis).value.value <==> Asks(axis, x)
  {
    hide Range;
    if axis.Slice? { RangeMembers(axis.start, axis.stop, axis.step, x); }
  }

  lemma WithinIs(axis: Axis, n: nat)
    requires Unbounded(axis).Ok? && Unbounded(axis).value.Some?
    ensures Within(Unbounded(axis).value.value, n) <==> AllExist(axis, n)
  {
    var out := Unbounded(axis).value.value;
    forall x
      ensures x in out <==> Asks(axis, x)
    {
      AsksIs(axis, x);
    }
    hide Asks, Unbounded;
    if AllExist(axis, n) {
      forall i | 0 <= i < |out|
        ensures 0 <= out[i] < n
      {
        assert out[i] in out;
      }
    }
  }

  lemma AxesAreCarried(ds: Dataset, d: string)
    ensures HasAxis(ds, d) <==> Carries(ds, d)
  {
  }

  lemma EntryReadsIff(file: File, m: Wants, e: (string, Axis))
    requires Held(m, e)
    ensures EntryReads(file, e.0, e.1) <==> Carries(file.dataset, e.0) && Passes(file, m, e.0)
  {
    hide TimeNamed, IsTime, AllExist, Within, HasAxis, Carries;
    TimeIsNamed(file.dataset, e.0);
    AxesAreCarried(file.dataset, e.0);
    if m[e.0].Some? && e.0 in file.sizes { WithinIs(e.1, file.sizes[e.0]); }
  }

  /** A windowed read succeeds exactly when every entry of the window can be read. */
  lemma NamedReadSucceeds(file: File, w: Window)
    requires file.Valid() && ValidWindow(w)
    ensures ReadNamed(file, w).Ok? <==> forall i :: 0 <= i < |w| ==> EntryReads(file, w[i].0, w[i].1)
  {
    hide Carries, Passes, EntryReads, ReadNamed, File.Valid, Readable, Unbounded, WantedOf;
    ReadNamedIff(file, w);
    WantedEntries(w);
    if WantedOf(w).Ok? {
      var m := WantedOf(w).value;
      forall i | 0 <= i < |w|
        ensures EntryReads(file, w[i].0, w[i].1) <==> Carries(file.dataset, w[i].0) && Passes(file, m, w[i].0)
      {
        EntryReadsIff(file, m, w[i]);
      }
      ReadableEntries(file, w, m);
    } else {
      var i :| 0 <= i < |w| && Unbounded(w[i].1).Err?;
      BadStepIsRefused(file, w[i]);
    }
  }

  lemma BadStepIsRefused(file: File, e: (string, Axis))
    requires Unbounded(e.1).Err?
    ensures !EntryReads(file, e.0, e.1)
  {
    hide TimeNamed, HasAxis;
  }

  lemma ReadableEntries(file: File, w: Window, m: Wants)
    requires forall d :: d in m <==> Names(w, d)
    ensures Readable(file, m) <==> forall i :: 0 <= i < |w| ==> Carries(file.dataset, w[i].0) && Passes(file, m, w[i].0)
  {
    if Readable(file, m) {
      forall i | 0 <= i < |w|
        ensures Carries(file.dataset, w[i].0) && Passes(file, m, w[i].0)
      {
        assert Names(w, w[i].0);
        hide Carries, IsTime;
      }
    }
    if forall i :: 0 <= i < |w| ==> Carries(file.dataset, w[i].0) && Passes(file, m, w[i].0) {
      AllNamed(file, w, m);
    }
  }

  /** The first `i` entries that narrow their axes are all fine. */
  ghost predicate ReadTo(file: File, w: Window, i: nat)
    requires i <= |w|
  {
    forall j :: 0 <= j < i ==> EntryReads(file, w[j].0, w[j].1)
  }

  /** Why an entry whose axis is there is refused: a subset of time or a slice that does not
      step forward is a bad value, an index that does not exist is out of range. */
  ghost function Refusal(file: File, d: string, axis: Axis): Error {
    if TimeNamed(file.dataset, d) || (axis.Slice? && axis.step < 1) then ValueError else IndexError
  }

  lemma {:induction false} SelectedRefuses(file: File, w: Window, i: nat)
    requires file.Valid() && i <= |w| && forall j :: 0 <= j < |w| ==> HasAxis(file.dataset, w[j].0)
    ensures Selected(file, w, i).Ok? <==> ReadTo(file, w, i)
    ensures Selected(file, w, i).Err? ==>
              exists j :: 0 <= j < i && ReadTo(file, w, j) && !EntryReads(file, w[j].0, w[j].1) && Selected(file, w, i) == Err(Refusal(file, w[j].0, w[j].1))
  {
    hide EntryReads, Refusal, HasAxis, File.Valid, Selected;
    if i == 0 {
      NothingSelected(file, w);
    } else {
      SelectedRefuses(file, w, i - 1);
      SelectedOne(file, w, i);
      if Selected(file, w, i - 1).Err? {
        assert !ReadTo(file, w, i);
      } else {
        assert ReadTo(file, w, i) <==> EntryReads(file, w[i - 1].0, w[i - 1].1);
      }
    }
  }

  lemma NothingSelected(file: File, w: Window)
    ensures Selected(file, w, 0).Ok?
  {
  }

  lemma SelectedOne(file: File, w: Window, i: nat)
    requires file.Valid() && 0 < i <= |w| && HasAxis(file.dataset, w[i - 1].0)
    ensures var d, axis := w[i - 1].0, w[i - 1].1;
            && (Selected(file, w, i - 1).Err? ==> Selected(file, w, i) == Selected(file, w, i - 1))
            && (Selected(file, w, i - 1).Ok? && EntryReads(file, d, axis) ==> Selected(file, w, i).Ok?)
            && (Selected(file, w, i - 1).Ok? && !EntryReads(file, d, axis) ==> Selected(file, w, i) == Err(Refusal(file, d, axis)))
  {
    hide TimeNamed, IsTime, HasAxis, Carries, AllExist, Within, File.Valid;
    var d, axis := w[i - 1].0, w[i - 1].1;
    TimeIsNamed(file.dataset, d);
    AxesAreCarried(file.dataset, d);
    CarriedHasSize(file, d);
    if Unbounded(axis).Ok? && Unbounded(axis).value.Some? { WithinIs(axis, file.sizes[d]); }
  }

  /** And why it is refused: a name no field carries before anything else, then the first
      entry that cannot be read. */
  lemma NamedReadRefuses(file: File, w: Window)
    requires file.Valid() && ReadNamed(file, w).Err?
    ensures (exists i :: 0 <= i < |w| && !HasAxis(file.dataset, w[i].0)) ==> ReadNamed(file, w) == Err(ValueError)
    ensures (forall i :: 0 <= i < |w| ==> HasAxis(file.dataset, w[i].0)) ==>
              exists j :: 0 <= j < |w| && ReadTo(file, w, j) && !EntryReads(file, w[j].0, w[j].1) && ReadNamed(file, w) == Err(Refusal(file, w[j].0, w[j].1))
  {
    hide EntryReads, Refusal, HasAxis, Carries, Selected, WindowDataset;
    forall i | 0 <= i < |w|
      ensures HasAxis(file.dataset, w[i].0) <==> Carries(file.dataset, w[i].0)
    {
      AxesAreCarried(file.dataset, w[i].0);
    }
    if forall i :: 0 <= i < |w| ==> HasAxis(file.dataset, w[i].0) { SelectedRefuses(file, w, |w|); }
  }

  // ---- what it returns ---------------------------------------------------------------------

  /** The selector of dimension `d`: its entry's, or the whole axis. */
  ghost predicate IsSelector(w: Window, d: string, axis: Axis) {
    if exists i :: 0 <= i < |w| && w[i].0 == d then exists i :: 0 <= i < |w| && w[i] == (d, axis) else axis.All?
  }

  /** Entry `i` of what a selector asks of an axis; past the end of a list there is none. */
  ghost function Entry(axis: Axis, i: nat): int {
    match axis
    case All => i
    case Indices(idx) => if i < |idx| then idx[i] else -1
    case Slice(start, stop, step) => start + i * step
  }

  /** How many it asks for, of an axis of length `n`. */
  ghost predicate IsCount(axis: Axis, n: nat, count: nat) {
    match axis
    case All => count == n
    case Indices(idx) => count == |idx|
    case Slice(start, stop, step) => (forall i :: 0 <= i < count ==> Entry(axis, i) < stop) && start + count * step >= stop
  }

  /** Along axis `k`, `g` holds what the window asks of `f`. */
  ghost predicate AxisWindowed(g: Field, f: Field, w: Window, k: nat, axis: Axis)
    requires g.Valid() && f.Valid() && g.dims == f.dims && k < |f.dims|
  {
    IsSelector(w, f.dims[k], axis) && IsCount(axis, f.shape[k], g.shape[k]) && forall i :: 0 <= i < g.shape[k] ==> 0 <= Entry(axis, i) < f.shape[k]
  }

  /** `g` is `f` seen through the window: the same axes, each cut to what its selector asks
      for, in its order, and every cell the one of `f` those entries name. */
  ghost predicate IsWindowed(g: Field, f: Field, w: Window) {
    && g.Valid() && f.Valid() && g.dims == f.dims && g.attrs == f.attrs
    && exists axes: seq<Axis> ::
         && |axes| == |f.dims| && (forall k :: 0 <= k < |f.dims| ==> AxisWindowed(g, f, w, k, axes[k]))
         && forall ix, jx :: Inside(ix, g.shape) && Inside(jx, f.shape) && Follows(axes, ix, jx) ==> At(g.data, g.shape, ix) == At(f.data, f.shape, jx)
  }

  /** Index `jx` of the file is the one asked for at `ix`. */
  ghost predicate Follows(axes: seq<Axis>, ix: Index, jx: Index) {
    |axes| == |ix| == |jx| && forall k :: 0 <= k < |axes| ==> jx[k] == Entry(axes[k], ix[k])
  }

  /** The list `out` holds the selector's entries. */
  ghost predicate EntriesAre(axis: Axis, out: seq<int>) {
    forall i :: 0 <= i < |out| ==> Entry(axis, i) == out[i]
  }

  lemma EntryIsListed(axis: Axis, n: nat, out: seq<int>)
    requires (axis.All? && out == Whole(n)) || Unbounded(axis) == Ok(Some(out))
    ensures IsCount(axis, n, |out|) && EntriesAre(axis, out)
  {
    hide Range;
    if axis.Slice? {
      RangeEntries(axis.start, axis.stop, axis.step);
      forall i | 0 <= i < |out|
        ensures Entry(axis, i) == out[i] < axis.stop
      {
        assert out[i] == axis.start + i * axis.step;
      }
    }
  }

  /** The selector a window gives an axis, and the list it comes to. */
  lemma SelectorOf(w: Window, d: string) returns (axis: Axis)
    requires ValidWindow(w) && WantedOf(w).Ok?
    ensures IsSelector(w, d, axis)
    ensures var isel := Lists(WantedOf(w).value);
            (axis.All? ==> d !in isel) && (!axis.All? ==> d in isel && Unbounded(axis) == Ok(Some(isel[d])))
  {
    WantedEntries(w);
    hide WantedOf;
    if i :| 0 <= i < |w| && w[i].0 == d {
      axis := w[i].1;
      assert Held(WantedOf(w).value, w[i]);
      assert w[i] == (d, axis);
    } else {
      axis := All;
    }
  }

  lemma WindowedAxis(f: Field, w: Window, k: nat) returns (axis: Axis)
    requires f.Valid() && ValidWindow(w) && WantedOf(w).Ok? && Reaches(f, Lists(WantedOf(w).value)) && k < |f.dims|
    ensures var isel := Lists(WantedOf(w).value);
            AxisWindowed(WindowField(f, isel), f, w, k, axis) && EntriesAre(axis, SelFor(f, isel)[k])
  {
    hide WantedOf, IsSelector, WindowField, Unbounded, IsCount, Entry, ValidWindow, Lists, Within, EntriesAre, HasShape;
    axis := SelectorOf(w, f.dims[k]);
    var isel := Lists(WantedOf(w).value);
    EntryIsListed(axis, f.shape[k], SelFor(f, isel)[k]);
    WindowFieldIs(f, isel);
    ListFits(axis, SelFor(f, isel)[k], f.shape[k]);
  }

  lemma ListFits(axis: Axis, out: seq<int>, n: nat)
    requires EntriesAre(axis, out) && Within(out, n)
    ensures forall i :: 0 <= i < |out| ==> 0 <= Entry(axis, i) < n
  {
    forall i | 0 <= i < |out|
      ensures 0 <= Entry(axis, i) < n
    {
      assert Entry(axis, i) == out[i];
    }
  }

  lemma FieldIsWindowed(f: Field, w: Window)
    requires f.Valid() && ValidWindow(w) && WantedOf(w).Ok? && Reaches(f, Lists(WantedOf(w).value))
    ensures IsWindowed(WindowField(f, Lists(WantedOf(w).value)), f, w)
  {
    var isel := Lists(WantedOf(w).value);
    var g, sel := WindowField(f, isel), SelFor(f, isel);
    var axes := WindowedAxes(f, w, |f.dims|);
    hide AxisWindowed, Follows, WindowField, Inside, Lists;
    WindowFieldIs(f, isel);
    forall ix, jx | Inside(ix, g.shape) && Inside(jx, f.shape) && Follows(axes, ix, jx)
      ensures At(g.data, g.shape, ix) == At(f.data, f.shape, jx)
    {
      FollowsPicked(f, sel, axes, ix, jx);
      GatherAt(f.data, f.shape, sel, ix);
    }
  }

  lemma WindowFieldIs(f: Field, isel: map<string, seq<int>>)
    requires f.Valid() && Reaches(f, isel)
    ensures var g, sel := WindowField(f, isel), SelFor(f, isel);
            Fits(f.shape, sel) && g.Valid() && g.dims == f.dims && g.attrs == f.attrs && g.shape == Lengths(sel) && g.data == Gather(f.data, f.shape, sel)
  {
    hide Gather;
  }

  /** The list of each axis holds its selector's entries. */
  ghost predicate AxesList(sel: seq<seq<int>>, axes: seq<Axis>) {
    |axes| <= |sel| && forall k :: 0 <= k < |axes| ==> EntriesAre(axes[k], sel[k])
  }

  lemma FollowsPicked(f: Field, sel: seq<seq<int>>, axes: seq<Axis>, ix: Index, jx: Index)
    requires Fits(f.shape, sel) && |axes| == |sel| && AxesList(sel, axes) && Inside(ix, Lengths(sel)) && Follows(axes, ix, jx)
    ensures jx == Picked(sel, f.shape, ix)
  {
    forall k | 0 <= k < |sel|
      ensures jx[k] == sel[k][ix[k]]
    {
      assert ix[k] < Lengths(sel)[k];
      assert EntriesAre(axes[k], sel[k]);
    }
  }

  lemma WindowedAxes(f: Field, w: Window, n: nat) returns (axes: seq<Axis>)
    requires f.Valid() && ValidWindow(w) && WantedOf(w).Ok? && Reaches(f, Lists(WantedOf(w).value)) && n <= |f.dims|
    ensures var isel := Lists(WantedOf(w).value);
            |axes| == n && (forall k :: 0 <= k < n ==> AxisWindowed(WindowField(f, isel), f, w, k, axes[k])) && AxesList(SelFor(f, isel), axes)
  {
    hide WantedOf, Lists, Reaches, AxisWindowed, WindowField, ValidWindow, EntriesAre, AxesList;
    if n == 0 {
      axes := [];
      NoAxes(SelFor(f, Lists(WantedOf(w).value)));
    } else {
      var front := WindowedAxes(f, w, n - 1);
      var axis := WindowedAxis(f, w, n - 1);
      axes := front + [axis];
      OneMoreAxis(SelFor(f, Lists(WantedOf(w).value)), front, axis);
    }
  }

  lemma NoAxes(sel: seq<seq<int>>)
    ensures AxesList(sel, [])
  {
  }

  lemma OneMoreAxis(sel: seq<seq<int>>, front: seq<Axis>, axis: Axis)
    requires AxesList(sel, front) && |front| < |sel| && EntriesAre(axis, sel[|front|])
    ensures AxesList(sel, front + [axis])
  {
    hide EntriesAre;
  }

  /** What a windowed read returns: every variable and coordinate of the file, seen through
      the window. */
  lemma NamedReadReturns(file: File, w: Window)
    requires file.Valid() && ValidWindow(w) && ReadNamed(file, w).Ok?
    ensures var r, ds := ReadNamed(file, w).value, file.dataset;
            && r.variables.Keys == ds.variables.Keys && r.coords.Keys == ds.coords.Keys
            && (forall n :: n in ds.variables ==> IsWindowed(r.variables[n], ds.variables[n], w))
            && (forall n :: n in ds.coords ==> IsWindowed(r.coords[n], ds.coords[n], w))
  {
    hide ReadNamed, Readable, WantedOf, IsWindowed, Reaches, WindowField, Field.Valid, File.Valid, Lists;
    ReadNamedIff(file, w);
    var ds := file.dataset;
    forall n | n in ds.variables
      ensures IsWindowed(ReadNamed(file, w).value.variables[n], ds.variables[n], w)
    {
      FieldIsWindowed(ds.variables[n], w);
    }
    forall n | n in ds.coords
      ensures IsWindowed(ReadNamed(file, w).value.coords[n], ds.coords[n], w)
    {
      FieldIsWindowed(ds.coords[n], w);
    }
  }
}
