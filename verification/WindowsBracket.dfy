/** Two records seen through a window: when they stack, told from lengths, and when cutting a
    window out of what was stacked under a wider one gives the window's own stack. */
module WindowsBracket {
  import opened Wrappers
  import opened NativeData
  import opened Arrays
  import opened Selection
  import opened Sampling
  import opened BracketRule
  import opened WindowLaws
  import opened WindowRefinement

  // ---- when two records stack under a window ------------------------------------------------

  /** The lengths of a field's axes in a window. */
  function ShapeUnder(f: Field, m: map<string, seq<int>>): (s: seq<nat>)
    requires f.Valid()
    ensures |s| == |f.dims|
  {
    seq(|f.dims|, k requires 0 <= k < |f.dims| => if f.dims[k] in m then |m[f.dims[k]]| else f.shape[k])
  }

  lemma ShapeIs(f: Field, m: map<string, seq<int>>)
    requires f.Valid() && Reaches(f, m)
    ensures WindowField(f, m).shape == ShapeUnder(f, m)
  {
  }

  /** The two records stack under a window: every variable of the first file is in the
      second, and their lengths in the window are aligned, axis by axis in the order stored. */
  ghost predicate StacksUnder(g0: Dataset, g1: Dataset, td: string, r0: nat, r1: nat, m: map<string, seq<int>>)
    requires g0.Valid() && g1.Valid()
  {
    forall n :: n in g0.variables ==>
      n in g1.variables && Aligned(g0.variables[n].dims, ShapeUnder(g0.variables[n], m), ShapeUnder(g1.variables[n], m), td, r0, r1)
  }

  lemma BracketUnderIff(g0: Dataset, g1: Dataset, r0: nat, r1: nat, td: string, t0: int, t1: int, m: map<string, seq<int>>)
    requires g0.Valid() && g1.Valid() && DatasetReaches(g0, m) && DatasetReaches(g1, m)
    ensures BracketDataset(WindowDataset(g0, m), r0, WindowDataset(g1, m), r1, td, t0, t1).Ok? <==> StacksUnder(g0, g1, td, r0, r1, m)
  {
    hide HasShape, BracketDataset, Aligned, Reaches, WindowField, ShapeUnder;
    var d0, d1 := WindowDataset(g0, m), WindowDataset(g1, m);
    BracketIff(d0, d1, r0, r1, td, t0, t1);
    assert forall n :: n in d0.variables <==> n in g0.variables;
    assert forall n :: n in d1.variables <==> n in g1.variables;
    forall n | n in g0.variables && n in g1.variables
      ensures d0.variables[n].dims == g0.variables[n].dims && d0.variables[n].shape == ShapeUnder(g0.variables[n], m) && d1.variables[n].shape == ShapeUnder(g1.variables[n], m)
    {
      ShapeIs(g0.variables[n], m);
      ShapeIs(g1.variables[n], m);
    }
  }

  // ---- cutting a window out of a stack --------------------------------------------------------

  /** A field whose axes go by other names. */
  function Renamed(f: Field, dims: seq<string>): (r: Field)
    requires f.Valid() && |dims| == |f.dims| && forall i, j :: 0 <= i < j < |dims| ==> dims[i] != dims[j]
    ensures r.Valid()
  {
    Field(dims, f.shape, f.data, f.attrs)
  }

  /** Stacking goes by the order of the axes and keeps the first file's names, so a window is
      cut out of the next record by those names. The cells are the window's own when the next
      file, read under the union `us` and cut at `p` by the first file's names, has the record
      it has when read under the window `m` by its own names. */
  ghost predicate SameCells(f0: Field, f1: Field, td: string, r1: nat, us: map<string, seq<int>>, p: map<string, seq<int>>, m: map<string, seq<int>>)
    requires f0.Valid() && f1.Valid()
  {
    td in f0.dims ==>
      && |f1.dims| == |f0.dims| && Reaches(f1, us) && Reaches(f1, m)
      && var h := Renamed(WindowField(f1, us), f0.dims);
         Reaches(h, p) && IsRecordOf(WindowField(h, p), r1, WindowField(f1, m), IndexOf(f0.dims, td), r1)
  }

  /** Two stacks on the same first record are equal exactly when the second records are. */
  lemma StackSame(f: Field, a: Field, b: Field, td: string, r0: nat, r1: nat)
    requires f.Valid() && a.Valid() && b.Valid() && td in f.dims && StackTwo(f, a, td, r0, r1).Ok? && StackTwo(f, b, td, r0, r1).Ok?
    ensures StackTwo(f, a, td, r0, r1) == StackTwo(f, b, td, r0, r1) <==> IsRecordOf(a, r1, b, IndexOf(f.dims, td), r1)
  {
    hide DropAxis, Stack2, HasShape, Without, Insert;
    StackHolds(f, a, td, r0, r1);
    StackHolds(f, b, td, r0, r1);
  }

  lemma RenamedReaches(w0: Field, w1: Field, p: map<string, seq<int>>, td: string, r0: nat, r1: nat)
    requires w0.Valid() && w1.Valid() && td in w0.dims && td !in p && Reaches(w0, p) && StackTwo(w0, w1, td, r0, r1).Ok?
    ensures |w1.dims| == |w0.dims| && Reaches(Renamed(w1, w0.dims), p)
    ensures StackTwo(w0, Renamed(w1, w0.dims), td, r0, r1) == StackTwo(w0, w1, td, r0, r1)
  {
    StackIff(w0, w1, td, r0, r1);
    hide DropAxis, Stack2, HasShape, Without;
  }

  /** The window `m` cut at `p` out of two records stacked under `us` is the window's own two
      records exactly when the cells of the second are the same. */
  lemma StackCut(f0: Field, f1: Field, us: map<string, seq<int>>, p: map<string, seq<int>>, m: map<string, seq<int>>, td: string, r0: nat, r1: nat)
    requires f0.Valid() && f1.Valid() && Refines(us, p, m) && td !in p
    requires Reaches(f0, us) && Reaches(f1, us) && Reaches(f0, m) && Reaches(f1, m)
    requires StackTwo(WindowField(f0, us), WindowField(f1, us), td, r0, r1).Ok? && StackTwo(WindowField(f0, m), WindowField(f1, m), td, r0, r1).Ok?
    ensures var a, b := StackTwo(WindowField(f0, us), WindowField(f1, us), td, r0, r1).value, StackTwo(WindowField(f0, m), WindowField(f1, m), td, r0, r1).value;
            Reaches(a, p) && (WindowField(a, p) == b <==> SameCells(f0, f1, td, r1, us, p, m))
  {
    hide Refines, WindowField, StackTwo, Reaches, IsRecordOf, HasShape;
    var w0, w1 := WindowField(f0, us), WindowField(f1, us);
    WindowTwice(f0, us, p, m);
    if td in f0.dims {
      RenamedReaches(w0, w1, p, td, r0, r1);
      var h := Renamed(w1, w0.dims);
      StackWindow(w0, h, p, td, r0, r1);
      StackSame(WindowField(f0, m), WindowField(h, p), WindowField(f1, m), td, r0, r1);
    } else {
      StackPasses(w0, w1, td, r0, r1);
      StackPasses(WindowField(f0, m), WindowField(f1, m), td, r0, r1);
    }
  }

  /** Axes in the same order have the same cells. */
  lemma LikeAxes(f0: Field, f1: Field, us: map<string, seq<int>>, p: map<string, seq<int>>, m: map<string, seq<int>>, td: string, r0: nat, r1: nat)
    requires f0.Valid() && f1.Valid() && Refines(us, p, m) && (td in f0.dims ==> f1.dims == f0.dims) && Reaches(f1, us) && Reaches(f1, m)
    requires Aligned(f0.dims, ShapeUnder(f0, m), ShapeUnder(f1, m), td, r0, r1)
    ensures SameCells(f0, f1, td, r1, us, p, m)
  {
    hide Refines, Gather;
    WindowTwice(f1, us, p, m);
    ShapeIs(f1, m);
  }

  // ---- whole datasets ------------------------------------------------------------------------------

  ghost predicate AllSameCells(fs0: map<string, Field>, fs1: map<string, Field>, td: string, r1: nat, us: map<string, seq<int>>, p: map<string, seq<int>>, m: map<string, seq<int>>)
    requires (forall n :: n in fs0 ==> fs0[n].Valid()) && (forall n :: n in fs1 ==> fs1[n].Valid())
  {
    forall n :: n in fs0 ==> n in fs1 && SameCells(fs0[n], fs1[n], td, r1, us, p, m)
  }

  /** `a` is the two records stacked under a window, field by field. */
  ghost predicate Stacked(fs0: map<string, Field>, fs1: map<string, Field>, m: map<string, seq<int>>, td: string, r0: nat, r1: nat, a: map<string, Field>)
    requires FieldsReach(fs0, m) && FieldsReach(fs1, m)
  {
    a.Keys == fs0.Keys && forall n :: n in fs0 ==> n in fs1 && StackTwo(WindowField(fs0[n], m), WindowField(fs1[n], m), td, r0, r1) == Ok(a[n])
  }

  lemma StackedFields(fs0: map<string, Field>, fs1: map<string, Field>, m: map<string, seq<int>>, td: string, r0: nat, r1: nat)
    requires FieldsReach(fs0, m) && FieldsReach(fs1, m) && Collect(StackFields(WindowFields(fs0, m), WindowFields(fs1, m), td, r0, r1)).Ok?
    ensures Stacked(fs0, fs1, m, td, r0, r1, Collect(StackFields(WindowFields(fs0, m), WindowFields(fs1, m), td, r0, r1)).value)
  {
    hide Reaches, WindowField, Field.Valid, StackTwo, FieldError;
    var x := StackFields(WindowFields(fs0, m), WindowFields(fs1, m), td, r0, r1);
    assert forall n :: n in x <==> n in fs0;
    assert Collect(x).Ok?;
  }

  lemma FieldsCut(fs0: map<string, Field>, fs1: map<string, Field>, us: map<string, seq<int>>, p: map<string, seq<int>>, m: map<string, seq<int>>, td: string, r0: nat, r1: nat,
                  a: map<string, Field>, b: map<string, Field>)
    requires FieldsReach(fs0, us) && FieldsReach(fs1, us) && FieldsReach(fs0, m) && FieldsReach(fs1, m) && Refines(us, p, m) && td !in p
    requires Stacked(fs0, fs1, us, td, r0, r1, a) && Stacked(fs0, fs1, m, td, r0, r1, b)
    ensures FieldsReach(a, p) && (WindowFields(a, p) == b <==> AllSameCells(fs0, fs1, td, r1, us, p, m))
  {
    hide Refines, Reaches, WindowField, Field.Valid, StackTwo, SameCells, WindowFields;
    forall n | n in fs0
      ensures n in fs1 && a[n].Valid() && Reaches(a[n], p) && (WindowField(a[n], p) == b[n] <==> SameCells(fs0[n], fs1[n], td, r1, us, p, m))
    {
      StackCut(fs0[n], fs1[n], us, p, m, td, r0, r1);
    }
    CutsEqual(a, b, p);
  }

  lemma CutsEqual(a: map<string, Field>, b: map<string, Field>, p: map<string, seq<int>>)
    requires a.Keys == b.Keys && FieldsReach(a, p)
    ensures WindowFields(a, p) == b <==> forall n :: n in a ==> WindowField(a[n], p) == b[n]
  {
    hide Reaches, WindowField, Field.Valid;
    assert forall n :: n in a <==> n in b;
    if WindowFields(a, p) == b {
      forall n | n in a
        ensures WindowField(a[n], p) == b[n]
      {
        assert WindowFields(a, p)[n] == b[n];
      }
    }
  }

  /** A window cut out of the bracket under the union is the window's own bracket exactly when
      the cells of every variable's next record are the same. */
  lemma BracketCut(g0: Dataset, g1: Dataset, us: map<string, seq<int>>, p: map<string, seq<int>>, m: map<string, seq<int>>, td: string, r0: nat, r1: nat, t0: int, t1: int)
    requires g0.Valid() && g1.Valid() && DatasetReaches(g0, us) && DatasetReaches(g1, us) && DatasetReaches(g0, m) && DatasetReaches(g1, m)
    requires Refines(us, p, m) && td !in p
    requires BracketDataset(WindowDataset(g0, us), r0, WindowDataset(g1, us), r1, td, t0, t1).Ok?
    requires BracketDataset(WindowDataset(g0, m), r0, WindowDataset(g1, m), r1, td, t0, t1).Ok?
    ensures var a, b := BracketDataset(WindowDataset(g0, us), r0, WindowDataset(g1, us), r1, td, t0, t1).value, BracketDataset(WindowDataset(g0, m), r0, WindowDataset(g1, m), r1, td, t0, t1).value;
            DatasetReaches(a, p) && (WindowDataset(a, p) == b <==> AllSameCells(g0.variables, g1.variables, td, r1, us, p, m))
  {
    hide Refines, Reaches, WindowField, Field.Valid, Collect, StackFields, TimeCoordinate, WindowFields, FieldsReach, AllSameCells;
    var tc := TimeCoordinate(td, t0, t1);
    StackedFields(g0.variables, g1.variables, us, td, r0, r1);
    StackedFields(g0.variables, g1.variables, m, td, r0, r1);
    hide Stacked;
    FieldsCut(g0.variables, g1.variables, us, p, m, td, r0, r1, BracketDataset(WindowDataset(g0, us), r0, WindowDataset(g1, us), r1, td, t0, t1).value.variables,
              BracketDataset(WindowDataset(g0, m), r0, WindowDataset(g1, m), r1, td, t0, t1).value.variables);
    FieldsTwice(g0.coords, us, p, m);
    var cs := WindowFields(g0.coords, us);
    FieldsLess(cs, td, p);
    TimeCoordinateUntouched(td, t0, t1, p);
    FieldsMore(cs - {td}, td, tc, p);
  }

  /** Two files lay out their common time-varying variables alike. */
  ghost predicate SameLayout(g0: Dataset, g1: Dataset, td: string) {
    forall n :: n in g0.variables && n in g1.variables && td in g0.variables[n].dims ==> g1.variables[n].dims == g0.variables[n].dims
  }

  /** Records on axes named alike have the same cells, however they are cut. */
  lemma LikeCells(g0: Dataset, g1: Dataset, r0: nat, r1: nat, us: map<string, seq<int>>, p: map<string, seq<int>>, m: map<string, seq<int>>, td: string)
    requires g0.Valid() && g1.Valid() && SameLayout(g0, g1, td) && DatasetReaches(g1, us) && DatasetReaches(g1, m) && Refines(us, p, m) && StacksUnder(g0, g1, td, r0, r1, m)
    ensures AllSameCells(g0.variables, g1.variables, td, r1, us, p, m)
  {
    hide Refines, Reaches, SameCells, ShapeUnder, Aligned, Field.Valid;
    forall n | n in g0.variables
      ensures SameCells(g0.variables[n], g1.variables[n], td, r1, us, p, m)
    {
      LikeAxes(g0.variables[n], g1.variables[n], us, p, m, td, r0, r1);
    }
  }

  /** The time coordinate of a bracket survives any cut. */
  lemma CutKeepsTime(ds: Dataset, p: map<string, seq<int>>, td: string, t0: int, t1: int)
    requires DatasetReaches(ds, p) && td !in p && td in ds.coords && ds.coords[td] == TimeCoordinate(td, t0, t1)
    ensures td in WindowDataset(ds, p).coords && WindowDataset(ds, p).coords[td] == TimeCoordinate(td, t0, t1)
  {
    TimeCoordinateUntouched(td, t0, t1, p);
    hide TimeCoordinate, WindowField, Reaches, Field.Valid;
  }

  lemma TimeCoordinatesDiffer(td: string, a: int, b: int, c: int)
    requires TimeCoordinate(td, a, b) == TimeCoordinate(td, a, c)
    ensures b == c
  {
    var f, g := TimeCoordinate(td, a, b), TimeCoordinate(td, a, c);
    assert f.data.items[1] == g.data.items[1];
  }
}
