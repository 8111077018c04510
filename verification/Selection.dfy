/** Named-dimension windows: axis selectors, the reader's windowed read, and the bounding
    union of several windows with the slicing back. */
module Selection {
  import opened Wrappers
  import opened NativeData
  import opened Arrays

  /** One axis selector, parsed. */
  datatype Axis = All | Indices(idx: seq<int>) | Slice(start: int, stop: int, step: int)

  /** A window: selectors by dimension name, in the order given. */
  type Window = seq<(string, Axis)>

  predicate ValidWindow(w: Window) {
    forall i, j :: 0 <= i < j < |w| ==> w[i].0 != w[j].0
  }

  /** `range(start, stop, step)`. */
  function Range(start: int, stop: int, step: int): seq<int>
    requires step >= 1
    decreases stop - start
  {
    if start >= stop then [] else [start] + Range(start + step, stop, step)
  }

  lemma {:induction false} RangeMembers(start: int, stop: int, step: int, x: int)
    requires step >= 1
    ensures x in Range(start, stop, step) <==> start <= x < stop && (x - start) % step == 0
    decreases stop - start
  {
    if start < stop {
      RangeMembers(start + step, stop, step, x);
      StepRemainder(x - start, step);
    }
  }

  /** The list is `start`, `start + step`, ... in order, as far as it stays below `stop`. */
  lemma {:induction false} RangeEntries(start: int, stop: int, step: int)
    requires step >= 1
    ensures var r := Range(start, stop, step);
            && (forall i {:trigger r[i]} :: 0 <= i < |r| ==> r[i] == start + i * step < stop)
            && start + |r| * step >= stop
    decreases stop - start
  {
    if start < stop {
      RangeEntries(start + step, stop, step);
      var r, tail := Range(start, stop, step), Range(start + step, stop, step);
      forall i | 0 <= i < |r|
        ensures r[i] == start + i * step < stop
      {
        if i > 0 {
          assert r[i] == tail[i - 1];
          OneStepOn(start, i, step);
        }
      }
      OneStepOn(start, |r|, step);
    }
  }

  lemma OneStepOn(start: int, i: int, step: int)
    ensures start + step + (i - 1) * step == start + i * step
  {
  }

  lemma StepRemainder(d: int, step: int)
    requires step >= 1
    ensures (d - step) % step == d % step
    ensures 0 <= d < step && d % step == 0 ==> d == 0
  {
    var q, r := d / step, d % step;
    assert d - step == (q - 1) * step + r;
    RemainderIs(d - step, step, q - 1, r);
  }

  lemma RemainderIs(x: int, step: int, q: int, r: int)
    requires step >= 1 && 0 <= r < step && x == q * step + r
    ensures x % step == r
  {
    var q1, r1 := x / step, x % step;
    assert q1 * step - q * step == r - r1;
    if q1 > q { AtLeastStep(q1, q, step); }
    if q1 < q { AtLeastStep(q, q1, step); }
  }

  lemma AtLeastStep(a: int, b: int, step: int)
    requires a > b && step >= 1
    ensures a * step - b * step >= step
  {
    var d := a - b - 1;
    assert d * step >= 0;
    assert a * step == d * step + step + b * step;
  }

  // ---- resolving one axis -----------------------------------------------------------

  /** The selector's list before any length is known; None is the whole axis. */
  function Unbounded(axis: Axis): Result<Option<seq<int>>, Error> {
    match axis
    case All => Ok(None)
    case Indices(idx) => Ok(Some(idx))
    case Slice(start, stop, step) => if step < 1 then Err(ValueError) else Ok(Some(Range(start, stop, step)))
  }

  function Resolve(axis: Axis, n: nat): Result<seq<int>, Error> {
    match Unbounded(axis)
    case Err(e) => Err(e)
    case Ok(None) => Ok(Whole(n))
    case Ok(Some(idx)) => if Within(idx, n) then Ok(idx) else Err(IndexError)
  }

  /** The list `out` is what the selector asks for of an axis of length `n`: every index once,
      the list given, or the slice's steps in ascending order. */
  ghost predicate IsAsked(axis: Axis, n: nat, out: seq<int>) {
    match axis
    case All => |out| == n && forall i :: 0 <= i < n ==> out[i] == i
    case Indices(idx) => out == idx
    case Slice(start, stop, step) => (forall i {:trigger out[i]} :: 0 <= i < |out| ==> out[i] == start + i * step < stop) && start + |out| * step >= stop
  }

  lemma ListIsAsked(axis: Axis, n: nat, out: seq<int>)
    requires (axis.All? && out == Whole(n)) || Unbounded(axis) == Ok(Some(out))
    ensures IsAsked(axis, n, out)
  {
    if axis.Slice? {
      RangeEntries(axis.start, axis.stop, axis.step);
      hide Range;
      forall i | 0 <= i < |out|
        ensures out[i] == axis.start + i * axis.step < axis.stop
      {
      }
    }
  }

  /** The checked list of one axis: every index is bounds-checked, none is clamped. */
  method ResolveAxis(axis: Axis, n: nat) returns (r: Result<seq<int>, Error>)
    ensures r == Resolve(axis, n)
    ensures axis.Slice? && axis.step < 1 ==> r == Err(ValueError)
    ensures !(axis.Slice? && axis.step < 1) && r.Err? ==> r == Err(IndexError) && exists out, i :: IsAsked(axis, n, out) && 0 <= i < |out| && !(0 <= out[i] < n)
    ensures r.Ok? ==> IsAsked(axis, n, r.value) && forall i :: 0 <= i < |r.value| ==> 0 <= r.value[i] < n
  {
    hide Range;
    if axis.All? { return Ok(Whole(n)); }
    if axis.Slice? && axis.step < 1 { return Err(ValueError); }
    var out := if axis.Indices? then axis.idx else Range(axis.start, axis.stop, axis.step);
    ListIsAsked(axis, n, out);
    hide IsAsked;
    var i := 0;
    while i < |out|
      invariant i <= |out| && forall j :: 0 <= j < i ==> 0 <= out[j] < n
    {
      if out[i] < 0 || out[i] >= n { return Err(IndexError); }
      i := i + 1;
    }
    return Ok(out);
  }

  // ---- what a window wants ----------------------------------------------------------

  /** Per named dimension the list a window asks for, None for the whole axis. */
  type Wants = map<string, Option<seq<int>>>

  function WantedOf(w: Window): Result<Wants, Error> {
    if w == [] then Ok(map[])
    else match (WantedOf(w[..|w| - 1]), Unbounded(w[|w| - 1].1))
      case (Ok(m), Ok(x)) => Ok(m[w[|w| - 1].0 := x])
      case (Err(e), _) => Err(e)
      case (_, Err(e)) => Err(e)
  }

  predicate Names(w: Window, d: string) {
    exists i :: 0 <= i < |w| && w[i].0 == d
  }

  /** Entry `e` of a window is what the wants hold under its name. */
  predicate Held(m: Wants, e: (string, Axis)) {
    e.0 in m && Unbounded(e.1) == Ok(m[e.0])
  }

  lemma WantedStep(w: Window)
    requires w != []
    ensures var front, e := w[..|w| - 1], w[|w| - 1];
            && (WantedOf(w).Ok? <==> WantedOf(front).Ok? && Unbounded(e.1).Ok?)
            && (WantedOf(w).Ok? ==> WantedOf(w).value == WantedOf(front).value[e.0 := Unbounded(e.1).value])
  {
    hide Unbounded;
  }

  lemma {:induction false} WantedEntries(w: Window)
    requires ValidWindow(w)
    ensures WantedOf(w).Ok? <==> forall i :: 0 <= i < |w| ==> Unbounded(w[i].1).Ok?
    ensures WantedOf(w).Ok? ==> forall i :: 0 <= i < |w| ==> Held(WantedOf(w).value, w[i])
    ensures WantedOf(w).Ok? ==> forall d :: d in WantedOf(w).value <==> Names(w, d)
  {
    if w != [] {
      var front, e := w[..|w| - 1], w[|w| - 1];
      WantedEntries(front);
      WantedStep(w);
      assert w == front + [e];
      hide WantedOf, Unbounded;
      if WantedOf(w).Ok? {
        assert w[..|w|] == w;
        forall d
          ensures d in WantedOf(w).value <==> Names(w, d)
        {
          NamesGrow(w, |w|, d);
        }
      }
    }
  }

  lemma NamesGrow(w: Window, i: nat, d: string)
    requires 0 < i <= |w|
    ensures Names(w[..i], d) <==> Names(w[..i - 1], d) || d == w[i - 1].0
  {
    var a, b := w[..i], w[..i - 1];
    if Names(b, d) {
      var j :| 0 <= j < |b| && b[j].0 == d;
      assert a[j].0 == d;
    }
    if d == w[i - 1].0 { assert a[i - 1].0 == d; }
    if Names(a, d) && d != w[i - 1].0 {
      var j :| 0 <= j < |a| && a[j].0 == d;
      assert b[j].0 == d;
    }
  }

  // ---- windows on fields and datasets -------------------------------------------------

  /** The list per axis of `f` that `isel` asks for; unnamed axes stay whole. */
  function SelFor(f: Field, isel: map<string, seq<int>>): (sel: seq<seq<int>>)
    requires f.Valid()
    ensures |sel| == |f.dims|
    ensures forall k :: 0 <= k < |sel| ==> sel[k] == if f.dims[k] in isel then isel[f.dims[k]] else Whole(f.shape[k])
  {
    seq(|f.dims|, k requires 0 <= k < |f.dims| => if f.dims[k] in isel then isel[f.dims[k]] else Whole(f.shape[k]))
  }

  /** Every index asked of `f` is one it has. */
  predicate Reaches(f: Field, isel: map<string, seq<int>>)
    requires f.Valid()
  {
    forall k :: 0 <= k < |f.dims| ==> f.dims[k] in isel ==> Within(isel[f.dims[k]], f.shape[k])
  }

  /** Orthogonal selection by dimension name. */
  function WindowField(f: Field, isel: map<string, seq<int>>): (g: Field)
    requires f.Valid() && Reaches(f, isel)
    ensures g.Valid() && g.dims == f.dims && g.attrs == f.attrs
    ensures g.shape == Lengths(SelFor(f, isel))
  {
    assert Fits(f.shape, SelFor(f, isel));
    Field(f.dims, Lengths(SelFor(f, isel)), Gather(f.data, f.shape, SelFor(f, isel)), f.attrs)
  }

  predicate FieldsReach(fs: map<string, Field>, isel: map<string, seq<int>>) {
    forall n :: n in fs ==> fs[n].Valid() && Reaches(fs[n], isel)
  }

  function WindowFields(fs: map<string, Field>, isel: map<string, seq<int>>): (r: map<string, Field>)
    requires FieldsReach(fs, isel)
  {
    map n | n in fs :: WindowField(fs[n], isel)
  }

  predicate DatasetReaches(ds: Dataset, isel: map<string, seq<int>>) {
    FieldsReach(ds.variables, isel) && FieldsReach(ds.coords, isel)
  }

  function WindowDataset(ds: Dataset, isel: map<string, seq<int>>): (r: Dataset)
    requires DatasetReaches(ds, isel)
    ensures r.Valid()
  {
    Dataset(WindowFields(ds.variables, isel), WindowFields(ds.coords, isel))
  }

  // ---- the reader's windowed read -------------------------------------------------------

  function Lower(s: string): string {
    seq(|s|, i requires 0 <= i < |s| => if 'A' <= s[i] <= 'Z' then s[i] - 'A' + 'a' else s[i])
  }

  /** The code points `str.split` splits at. */
  predicate IsSpace(ch: char) {
    var c := ch as int;
    9 <= c <= 13 || 28 <= c <= 32 || c == 0x85 || c == 0xA0 || c == 0x1680 || 0x2000 <= c <= 0x200A
    || c == 0x2028 || c == 0x2029 || c == 0x202F || c == 0x205F || c == 0x3000
  }

  function Words(s: string, word: string): seq<string> {
    if s == "" then (if word == "" then [] else [word])
    else if IsSpace(s[0]) then (if word == "" then [] else [word]) + Words(s[1..], "")
    else Words(s[1..], word + [s[0]])
  }

  /** A coordinate with CF "<step> since <reference>" units, or a dimension called time. */
  predicate IsTime(ds: Dataset, dim: string) {
    (dim in ds.coords && "units" in ds.coords[dim].attrs && "since" in Words(Lower(ds.coords[dim].attrs["units"]), ""))
    || Lower(dim) == "time"
  }

  predicate CarriedBy(fs: map<string, Field>, d: string) {
    exists n :: n in fs && d in fs[n].dims
  }

  predicate Carries(ds: Dataset, d: string) {
    CarriedBy(ds.variables, d) || CarriedBy(ds.coords, d)
  }

  predicate OfSizes(f: Field, sizes: map<string, nat>) {
    f.Valid() && forall k :: 0 <= k < |f.dims| ==> f.dims[k] in sizes && sizes[f.dims[k]] == f.shape[k]
  }

  /** A decoded file: dimension lengths are the file's, the same for every field. */
  datatype File = File(sizes: map<string, nat>, dataset: Dataset) {
    predicate Valid() {
      && (forall n :: n in dataset.variables ==> OfSizes(dataset.variables[n], sizes))
      && (forall n :: n in dataset.coords ==> OfSizes(dataset.coords[n], sizes))
    }
  }

  /** The checked lists of the first `i` named dimensions that are not whole. */
  function Selected(file: File, w: Window, i: nat): Result<map<string, seq<int>>, Error>
    requires i <= |w|
  {
    if i == 0 then Ok(map[])
    else
      var (d, axis) := w[i - 1];
      match Selected(file, w, i - 1)
      case Err(e) => Err(e)
      case Ok(m) =>
        if axis.All? then Ok(m)
        else if IsTime(file.dataset, d) then Err(ValueError)
        else match Resolve(axis, if d in file.sizes then file.sizes[d] else 0)
          case Err(e) => Err(e)
          case Ok(idx) => Ok(m[d := idx])
  }

  /** A windowed read: absent names, time subsets and bad indices are refused, then every
      field and coordinate is windowed by name. */
  function ReadNamed(file: File, w: Window): (r: Result<Dataset, Error>)
    requires file.Valid()
  {
    if exists i :: 0 <= i < |w| && !Carries(file.dataset, w[i].0) then Err(ValueError)
    else match Selected(file, w, |w|)
      case Err(e) => Err(e)
      case Ok(isel) =>
        SelectedReaches(file, w, |w|);
        Ok(WindowDataset(file.dataset, isel))
  }

  lemma {:induction false} SelectedReaches(file: File, w: Window, i: nat)
    requires file.Valid() && i <= |w| && Selected(file, w, i).Ok?
    ensures DatasetReaches(file.dataset, Selected(file, w, i).value)
    ensures forall d :: d in Selected(file, w, i).value ==> Within(Selected(file, w, i).value[d], if d in file.sizes then file.sizes[d] else 0)
  {
    if i > 0 {
      SelectedReaches(file, w, i - 1);
    }
  }

  /** The lists of the dimensions a window narrows. */
  function Lists(m: Wants): map<string, seq<int>> {
    map d | d in m && m[d].Some? :: m[d].value
  }

  /** Why a read under these wants can be refused, stated without an order of checks. */
  predicate Readable(file: File, m: Wants) {
    && (forall d :: d in m ==> Carries(file.dataset, d))
    && (forall d :: d in m && m[d].Some? ==> !IsTime(file.dataset, d) && d in file.sizes && Within(m[d].value, file.sizes[d]))
  }

  lemma CarriedHasSize(file: File, d: string)
    requires file.Valid() && Carries(file.dataset, d)
    ensures d in file.sizes
  {
    if CarriedBy(file.dataset.variables, d) {
      var n :| n in file.dataset.variables && d in file.dataset.variables[n].dims;
      assert OfSizes(file.dataset.variables[n], file.sizes);
    } else {
      var n :| n in file.dataset.coords && d in file.dataset.coords[n].dims;
      assert OfSizes(file.dataset.coords[n], file.sizes);
    }
  }

  /** Entry `d` of the wants passes the reader's checks. */
  predicate Passes(file: File, m: Wants, d: string) {
    d in m && (m[d].Some? ==> !IsTime(file.dataset, d) && d in file.sizes && Within(m[d].value, file.sizes[d]))
  }

  function Narrowed(m: Wants, w: Window): map<string, seq<int>> {
    map d | d in m && m[d].Some? && Names(w, d) :: m[d].value
  }

  lemma SelectedStep(file: File, w: Window, i: nat, m: Wants)
    requires 0 < i <= |w| && Held(m, w[i - 1]) && w[i - 1].0 in file.sizes
    ensures var d, axis := w[i - 1].0, w[i - 1].1;
            && (Selected(file, w, i).Ok? <==> Selected(file, w, i - 1).Ok? && Passes(file, m, d))
            && (Selected(file, w, i).Ok? ==> Selected(file, w, i).value == if m[d].Some? then Selected(file, w, i - 1).value[d := m[d].value] else Selected(file, w, i - 1).value)
  {
    hide IsTime;
  }

  lemma {:induction false} SelectedIs(file: File, w: Window, i: nat, m: Wants)
    requires file.Valid() && i <= |w|
    requires forall j :: 0 <= j < |w| ==> Held(m, w[j]) && w[j].0 in file.sizes
    ensures Selected(file, w, i).Ok? <==> forall j :: 0 <= j < i ==> Passes(file, m, w[j].0)
    ensures Selected(file, w, i).Ok? ==> Selected(file, w, i).value == Narrowed(m, w[..i])
  {
    if i > 0 {
      SelectedIs(file, w, i - 1, m);
      SelectedStep(file, w, i, m);
      hide Selected, Passes, File.Valid, Unbounded;
      if Selected(file, w, i).Ok? {
        NarrowedStep(m, w, i);
      }
    }
  }

  lemma NarrowedStep(m: Wants, w: Window, i: nat)
    requires 0 < i <= |w| && w[i - 1].0 in m
    ensures var d := w[i - 1].0;
            Narrowed(m, w[..i]) == if m[d].Some? then Narrowed(m, w[..i - 1])[d := m[d].value] else Narrowed(m, w[..i - 1])
  {
    forall d
      ensures Names(w[..i], d) <==> Names(w[..i - 1], d) || d == w[i - 1].0
    {
      NamesGrow(w, i, d);
    }
    hide Names;
  }

  /** A windowed read succeeds exactly when the selectors are well formed, every named
      dimension is present, none narrowed is time, and every index exists; its value is the
      file seen through the lists. */
  lemma ReadNamedIff(file: File, w: Window)
    requires file.Valid() && ValidWindow(w)
    ensures ReadNamed(file, w).Ok? <==> WantedOf(w).Ok? && Readable(file, WantedOf(w).value)
    ensures ReadNamed(file, w).Ok? ==> DatasetReaches(file.dataset, Lists(WantedOf(w).value))
                                       && ReadNamed(file, w).value == WindowDataset(file.dataset, Lists(WantedOf(w).value))
  {
    hide Selected, Passes, Narrowed, Lists, Readable, WindowDataset, Carries, WantedOf, Names, DatasetReaches, Unbounded;
    WantedEntries(w);
    if forall i :: 0 <= i < |w| ==> Carries(file.dataset, w[i].0) {
      forall i | 0 <= i < |w|
        ensures w[i].0 in file.sizes
      {
        CarriedHasSize(file, w[i].0);
      }
      if WantedOf(w).Ok? {
        var m := WantedOf(w).value;
        SelectedIs(file, w, |w|, m);
        assert w[..|w|] == w;
        AllNamed(file, w, m);
        if Selected(file, w, |w|).Ok? {
          SelectedReaches(file, w, |w|);
          NarrowedAll(m, w);
        }
      } else {
        var i :| 0 <= i < |w| && Unbounded(w[i].1).Err?;
        BadStepFails(file, w, i, |w|);
      }
    } else if WantedOf(w).Ok? {
      var i :| 0 <= i < |w| && !Carries(file.dataset, w[i].0);
      AbsentIsRefused(file, WantedOf(w).value, w[i]);
    }
  }

  lemma AbsentIsRefused(file: File, m: Wants, e: (string, Axis))
    requires Held(m, e) && !Carries(file.dataset, e.0)
    ensures !Readable(file, m)
  {
    hide Carries;
  }

  lemma NarrowedAll(m: Wants, w: Window)
    requires forall d :: d in m ==> Names(w, d)
    ensures Narrowed(m, w) == Lists(m)
  {
    hide Names;
  }

  lemma AllNamed(file: File, w: Window, m: Wants)
    requires forall d :: d in m <==> Names(w, d)
    requires forall i :: 0 <= i < |w| ==> Carries(file.dataset, w[i].0)
    ensures Readable(file, m) <==> forall i :: 0 <= i < |w| ==> Passes(file, m, w[i].0)
  {
    hide Carries, IsTime, Within;
    forall i | 0 <= i < |w|
      ensures w[i].0 in m
    {
      assert Names(w, w[i].0);
    }
    if forall i :: 0 <= i < |w| ==> Passes(file, m, w[i].0) {
      forall d | d in m
        ensures Carries(file.dataset, d) && Passes(file, m, d)
      {
        var i :| 0 <= i < |w| && w[i].0 == d;
      }
    }
  }

  lemma {:induction false} BadStepFails(file: File, w: Window, i: nat, n: nat)
    requires i < n <= |w| && Unbounded(w[i].1).Err?
    ensures Selected(file, w, n).Err?
  {
    if i < n - 1 { BadStepFails(file, w, i, n - 1); }
  }
}
