/** Windows, record slices and brackets are all gathers, so they can change places. */
module WindowLaws {
  import opened Wrappers
  import opened NativeData
  import opened Arrays
  import opened Selection
  import opened Sampling

  // ---- a window of a window -----------------------------------------------------------

  /** Cutting `p` out of what was read under `u` asks for what `m` asks for. */
  ghost predicate RefinesAt(u: map<string, seq<int>>, p: map<string, seq<int>>, m: map<string, seq<int>>, d: string) {
    if d in m then
      d in p && (if d in u then Within(p[d], |u[d]|) && Through(u[d], p[d]) == m[d] else p[d] == m[d])
    else d !in p && d !in u
  }

  ghost predicate Refines(u: map<string, seq<int>>, p: map<string, seq<int>>, m: map<string, seq<int>>) {
    forall d {:trigger RefinesAt(u, p, m, d)} :: RefinesAt(u, p, m, d)
  }

  lemma ThroughWhole(n: nat, idx: seq<int>)
    requires Within(idx, n)
    ensures Through(Whole(n), idx) == idx
  {
  }

  lemma WholeThrough(s: seq<int>)
    ensures Through(s, Whole(|s|)) == s
  {
  }

  /** On one axis, the two cuts select what the one cut does, and are in range when it is. */
  lemma AxisTwice(f: Field, u: map<string, seq<int>>, p: map<string, seq<int>>, m: map<string, seq<int>>, k: nat)
    requires f.Valid() && Reaches(f, u) && k < |f.dims| && RefinesAt(u, p, m, f.dims[k])
    ensures var g, d := WindowField(f, u), f.dims[k];
            && ((d in p ==> Within(p[d], g.shape[k])) <==> (d in m ==> Within(m[d], f.shape[k])))
            && ((d in m ==> Within(m[d], f.shape[k])) ==>
                  Within(SelFor(g, p)[k], |SelFor(f, u)[k]|) && Through(SelFor(f, u)[k], SelFor(g, p)[k]) == SelFor(f, m)[k])
  {
    hide Gather;
    var d := f.dims[k];
    if d !in m {
      WholeThrough(Whole(f.shape[k]));
    } else if d !in u && Within(m[d], f.shape[k]) {
      ThroughWhole(f.shape[k], m[d]);
    }
  }

  /** Cutting a window out of a wider window is the window itself, and succeeds exactly when
      the window alone would. */
  lemma WindowTwice(f: Field, u: map<string, seq<int>>, p: map<string, seq<int>>, m: map<string, seq<int>>)
    requires f.Valid() && Reaches(f, u) && Refines(u, p, m)
    ensures Reaches(WindowField(f, u), p) <==> Reaches(f, m)
    ensures Reaches(f, m) ==> WindowField(WindowField(f, u), p) == WindowField(f, m)
  {
    hide Gather;
    var g := WindowField(f, u);
    forall k | 0 <= k < |f.dims|
      ensures (f.dims[k] in p ==> Within(p[f.dims[k]], g.shape[k])) <==> (f.dims[k] in m ==> Within(m[f.dims[k]], f.shape[k]))
      ensures (f.dims[k] in m ==> Within(m[f.dims[k]], f.shape[k])) ==>
                Within(SelFor(g, p)[k], |SelFor(f, u)[k]|) && Through(SelFor(f, u)[k], SelFor(g, p)[k]) == SelFor(f, m)[k]
    {
      assert RefinesAt(u, p, m, f.dims[k]);
      AxisTwice(f, u, p, m, k);
    }
    hide WindowField, Refines;
    if Reaches(f, m) { WindowTwiceData(f, u, p, m); }
  }

  lemma SelFits(f: Field, isel: map<string, seq<int>>)
    requires f.Valid() && Reaches(f, isel)
    ensures Fits(f.shape, SelFor(f, isel))
  {
  }

  lemma WindowTwiceData(f: Field, u: map<string, seq<int>>, p: map<string, seq<int>>, m: map<string, seq<int>>)
    requires f.Valid() && Reaches(f, u) && Reaches(WindowField(f, u), p) && Reaches(f, m)
    requires forall k :: 0 <= k < |f.dims| ==>
               Within(SelFor(WindowField(f, u), p)[k], |SelFor(f, u)[k]|) && Through(SelFor(f, u)[k], SelFor(WindowField(f, u), p)[k]) == SelFor(f, m)[k]
    ensures WindowField(WindowField(f, u), p) == WindowField(f, m)
  {
    hide Gather, Through, Within;
    var s, t := SelFor(f, u), SelFor(WindowField(f, u), p);
    SelFits(f, u);
    SelFits(WindowField(f, u), p);
    SelFits(f, m);
    assert Compose(s, t) == SelFor(f, m);
    GatherGather(f.data, f.shape, s, t);
    assert Lengths(t) == Lengths(SelFor(f, m)) by { ComposeFits(f.shape, s, t); }
  }

  /** A window that names none of a field's dimensions leaves it as it is. */
  lemma WindowUntouched(f: Field, isel: map<string, seq<int>>)
    requires f.Valid() && forall k :: 0 <= k < |f.dims| ==> f.dims[k] !in isel
    ensures Reaches(f, isel) && WindowField(f, isel) == f
  {
    assert SelFor(f, isel) == WholeSel(f.shape);
    assert Lengths(WholeSel(f.shape)) == f.shape;
    GatherWhole(f.data, f.shape);
  }

  // ---- a window of a record ---------------------------------------------------------------

  /** What a slice does to names and lengths. */
  lemma SlicedAxes(f: Field, td: string, rec: int)
    requires f.Valid() && td in f.dims && SliceField(f, td, rec).Ok?
    ensures var g, axis := SliceField(f, td, rec).value, IndexOf(f.dims, td);
            && |g.dims| == |g.shape| == |f.dims| - 1 && |f.shape| == |f.dims| && f.dims[axis] == td
            && forall j :: 0 <= j < |g.dims| ==> g.dims[j] == f.dims[Past(j, axis)] && g.shape[j] == f.shape[Past(j, axis)]
  {
    hide DropAxis, HasShape;
    var axis := IndexOf(f.dims, td);
    WithoutAt(f.dims, axis);
    WithoutAt(f.shape, axis);
    hide Without;
  }

  lemma SlicedSel(f: Field, isel: map<string, seq<int>>, td: string, rec: int)
    requires f.Valid() && td !in isel && td in f.dims && SliceField(f, td, rec).Ok?
    ensures var g := SliceField(f, td, rec).value;
            && SelFor(g, isel) == Without(SelFor(f, isel), IndexOf(f.dims, td))
            && (Reaches(g, isel) <==> Reaches(f, isel))
  {
    SlicedInRange(f, isel, td, rec);
    hide Field.Valid, SliceField, Reaches;
    var g, axis := SliceField(f, td, rec).value, IndexOf(f.dims, td);
    SlicedAxes(f, td, rec);
    WithoutAt(SelFor(f, isel), axis);
    hide Without;
    var a, b := SelFor(g, isel), Without(SelFor(f, isel), axis);
    forall j | 0 <= j < |g.dims|
      ensures a[j] == b[j]
    {
      assert b[j] == SelFor(f, isel)[Past(j, axis)];
    }
    assert a == b;
  }

  lemma SlicedInRange(f: Field, isel: map<string, seq<int>>, td: string, rec: int)
    requires f.Valid() && td !in isel && td in f.dims && SliceField(f, td, rec).Ok?
    ensures Reaches(SliceField(f, td, rec).value, isel) <==> Reaches(f, isel)
  {
    hide Field.Valid, SliceField, Within;
    var g, axis := SliceField(f, td, rec).value, IndexOf(f.dims, td);
    SlicedAxes(f, td, rec);
    if Reaches(g, isel) {
      forall k | 0 <= k < |f.dims| && f.dims[k] in isel
        ensures Within(isel[f.dims[k]], f.shape[k])
      {
        var j := if k < axis then k else k - 1;
        assert k == Past(j, axis);
        assert g.dims[j] == f.dims[k];
      }
    }
  }

  /** A record of a window is the window of the record. */
  lemma SliceWindow(f: Field, isel: map<string, seq<int>>, td: string, rec: int)
    requires f.Valid() && Reaches(f, isel) && td !in isel
    ensures SliceField(WindowField(f, isel), td, rec).Ok? <==> SliceField(f, td, rec).Ok?
    ensures SliceField(f, td, rec).Err? ==> SliceField(WindowField(f, isel), td, rec) == SliceField(f, td, rec)
    ensures SliceField(f, td, rec).Ok? ==>
              Reaches(SliceField(f, td, rec).value, isel)
              && SliceField(WindowField(f, isel), td, rec).value == WindowField(SliceField(f, td, rec).value, isel)
  {
    hide Gather, DropAxis, HasShape;
    if td in f.dims {
      var axis, s := IndexOf(f.dims, td), SelFor(f, isel);
      assert s[axis] == Whole(f.shape[axis]);
      if SliceField(f, td, rec).Ok? {
        SlicedSel(f, isel, td, rec);
        DropGather(f.data, f.shape, s, axis, rec);
        WithoutFits(f.shape, s, axis);
      }
    }
  }

  // ---- a window of a bracket ----------------------------------------------------------------

  lemma StackedSel(f0: Field, f1: Field, isel: map<string, seq<int>>, td: string, rec0: nat, rec1: nat)
    requires f0.Valid() && f1.Valid() && td !in isel && td in f0.dims && StackTwo(f0, f1, td, rec0, rec1).Ok?
    ensures var g, axis := StackTwo(f0, f1, td, rec0, rec1).value, IndexOf(f0.dims, td);
            && g.dims == f0.dims && g.shape == f0.shape[axis := 2]
            && SelFor(g, isel) == SelFor(f0, isel)[axis := Whole(2)]
            && (Reaches(g, isel) <==> Reaches(f0, isel))
  {
    hide Within, DropAxis, Stack2, HasShape, Without;
    OneIndex(f0, td);
  }

  lemma OneIndex(f: Field, td: string)
    requires f.Valid() && td in f.dims
    ensures forall k :: 0 <= k < |f.dims| && f.dims[k] == td ==> k == IndexOf(f.dims, td)
  {
  }

  /** A bracket of windows is the window of the bracket. */
  lemma StackWindow(f0: Field, f1: Field, isel: map<string, seq<int>>, td: string, rec0: nat, rec1: nat)
    requires f0.Valid() && f1.Valid() && Reaches(f0, isel) && td !in isel
    requires td in f0.dims ==> f1.dims == f0.dims
    requires Reaches(f1, isel) && StackTwo(f0, f1, td, rec0, rec1).Ok?
    ensures Reaches(StackTwo(f0, f1, td, rec0, rec1).value, isel)
    ensures StackTwo(WindowField(f0, isel), WindowField(f1, isel), td, rec0, rec1) == Ok(WindowField(StackTwo(f0, f1, td, rec0, rec1).value, isel))
  {
    if td in f0.dims {
      StackWindowData(f0, f1, isel, td, rec0, rec1);
    }
  }

  lemma StackWindowData(f0: Field, f1: Field, isel: map<string, seq<int>>, td: string, rec0: nat, rec1: nat)
    requires f0.Valid() && f1.Valid() && Reaches(f0, isel) && Reaches(f1, isel) && td !in isel
    requires td in f0.dims && f1.dims == f0.dims && StackTwo(f0, f1, td, rec0, rec1).Ok?
    ensures Reaches(StackTwo(f0, f1, td, rec0, rec1).value, isel)
    ensures StackTwo(WindowField(f0, isel), WindowField(f1, isel), td, rec0, rec1) == Ok(WindowField(StackTwo(f0, f1, td, rec0, rec1).value, isel))
  {
    hide Gather, DropAxis, Stack2, HasShape, Without, Insert, Reaches, Within, Fits;
    var axis, s, s1 := IndexOf(f0.dims, td), SelFor(f0, isel), SelFor(f1, isel);
    var shape, rest := Without(f0.shape, axis), Without(s, axis);
    SelFits(f0, isel);
    SelFits(f1, isel);
    SelSameShape(f0, f1, isel, axis);
    StackedSel(f0, f1, isel, td, rec0, rec1);
    DropGather(f0.data, f0.shape, s, axis, rec0);
    DropGather(f1.data, f1.shape, s1, axis, rec1);
    WithoutFits(f0.shape, s, axis);
    WithoutFits(f1.shape, s1, axis);
    StackGather(DropAxis(f0.data, f0.shape, axis, rec0), DropAxis(f1.data, f1.shape, axis, rec1), shape, rest, axis);
    PutBack(f0.shape, axis, 2);
    PutBack(s, axis, Whole(2));
    assert Lengths(s)[axis := 2] == Lengths(s[axis := Whole(2)]);
  }

  lemma SelSameShape(f0: Field, f1: Field, isel: map<string, seq<int>>, axis: nat)
    requires f0.Valid() && f1.Valid() && f0.dims == f1.dims && axis < |f0.dims| && Without(f0.shape, axis) == Without(f1.shape, axis)
    ensures Without(SelFor(f0, isel), axis) == Without(SelFor(f1, isel), axis)
  {
    var a, b := SelFor(f0, isel), SelFor(f1, isel);
    WithoutAt(f0.shape, axis);
    WithoutAt(f1.shape, axis);
    WithoutAt(a, axis);
    WithoutAt(b, axis);
    hide Without, HasShape;
    forall j | 0 <= j < |f0.dims| - 1
      ensures Without(a, axis)[j] == Without(b, axis)[j]
    {
      assert Without(f0.shape, axis)[j] == Without(f1.shape, axis)[j];
    }
    assert Without(a, axis) == Without(b, axis);
  }
}
