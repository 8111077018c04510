/** K windows from one decode are the K windows decoded alone. */
module WindowRefinement {
  import opened Wrappers
  import opened NativeData
  import opened Selection
  import opened Sampling
  import opened WindowLaws

  // ---- whole datasets ------------------------------------------------------------------

  lemma DatasetTwice(ds: Dataset, u: map<string, seq<int>>, p: map<string, seq<int>>, m: map<string, seq<int>>)
    requires ds.Valid() && DatasetReaches(ds, u) && Refines(u, p, m)
    ensures DatasetReaches(WindowDataset(ds, u), p) <==> DatasetReaches(ds, m)
    ensures DatasetReaches(ds, m) ==> WindowDataset(WindowDataset(ds, u), p) == WindowDataset(ds, m)
  {
    hide Refines, Reaches, WindowField, Field.Valid;
    FieldsTwice(ds.variables, u, p, m);
    FieldsTwice(ds.coords, u, p, m);
    hide FieldsReach, WindowFields;
  }

  lemma FieldsTwice(fs: map<string, Field>, u: map<string, seq<int>>, p: map<string, seq<int>>, m: map<string, seq<int>>)
    requires FieldsReach(fs, u) && Refines(u, p, m)
    ensures FieldsReach(WindowFields(fs, u), p) <==> FieldsReach(fs, m)
    ensures FieldsReach(fs, m) ==> WindowFields(WindowFields(fs, u), p) == WindowFields(fs, m)
  {
    hide Refines, Reaches, WindowField, Field.Valid;
    var g := WindowFields(fs, u);
    forall n | n in fs
      ensures fs[n].Valid() && g[n].Valid() && (Reaches(g[n], p) <==> Reaches(fs[n], m))
      ensures Reaches(fs[n], m) ==> WindowField(g[n], p) == WindowField(fs[n], m)
    {
      WindowTwice(fs[n], u, p, m);
    }
    hide WindowFields;
    SameWindows(g, fs, p, m);
  }

  lemma SameWindows(g: map<string, Field>, fs: map<string, Field>, p: map<string, seq<int>>, m: map<string, seq<int>>)
    requires g.Keys == fs.Keys
    requires forall n :: n in fs ==> fs[n].Valid() && g[n].Valid() && (Reaches(g[n], p) <==> Reaches(fs[n], m))
    requires forall n :: n in fs && Reaches(fs[n], m) ==> WindowField(g[n], p) == WindowField(fs[n], m)
    ensures FieldsReach(g, p) <==> FieldsReach(fs, m)
    ensures FieldsReach(fs, m) ==> WindowFields(g, p) == WindowFields(fs, m)
  {
    hide Reaches, WindowField, Field.Valid;
    assert forall n :: n in g <==> n in fs;
  }

  /** Slicing fields and windowing fields commute, field by field. */
  lemma FieldsSliceWindow(fs: map<string, Field>, isel: map<string, seq<int>>, td: string, rec: int)
    requires FieldsReach(fs, isel) && td !in isel
    ensures Collect(SliceFields(WindowFields(fs, isel), td, rec)).Ok? <==> Collect(SliceFields(fs, td, rec)).Ok?
    ensures Collect(SliceFields(fs, td, rec)).Ok? ==>
              FieldsReach(Collect(SliceFields(fs, td, rec)).value, isel)
              && Collect(SliceFields(WindowFields(fs, isel), td, rec)).value == WindowFields(Collect(SliceFields(fs, td, rec)).value, isel)
  {
    hide Reaches, WindowField, Field.Valid, SliceField, FieldError;
    var g := WindowFields(fs, isel);
    var a, b := SliceFields(g, td, rec), SliceFields(fs, td, rec);
    assert g.Keys == fs.Keys == a.Keys == b.Keys;
    forall n | n in fs
      ensures a[n].Ok? <==> b[n].Ok?
      ensures b[n].Ok? ==> b[n].value.Valid() && Reaches(b[n].value, isel) && a[n].value == WindowField(b[n].value, isel)
    {
      SliceWindow(fs[n], isel, td, rec);
    }
    CollectWindows(a, b, isel);
  }

  lemma CollectWindows(a: map<string, Result<Field, Error>>, b: map<string, Result<Field, Error>>, isel: map<string, seq<int>>)
    requires a.Keys == b.Keys
    requires forall n :: n in b ==> (a[n].Ok? <==> b[n].Ok?)
    requires forall n :: n in b && b[n].Ok? ==> b[n].value.Valid() && Reaches(b[n].value, isel) && a[n].value == WindowField(b[n].value, isel)
    ensures Collect(a).Ok? <==> Collect(b).Ok?
    ensures Collect(b).Ok? ==> FieldsReach(Collect(b).value, isel) && Collect(a).value == WindowFields(Collect(b).value, isel)
  {
    hide Reaches, WindowField, Field.Valid, FieldError;
    assert forall n :: n in a <==> n in b;
    if Collect(b).Ok? {
      var c := Collect(b).value;
      assert forall n :: n in c <==> n in b;
      assert FieldsReach(c, isel);
      assert Collect(a).value == WindowFields(c, isel);
    }
  }

  lemma DatasetSliceWindow(ds: Dataset, isel: map<string, seq<int>>, td: string, rec: int)
    requires ds.Valid() && DatasetReaches(ds, isel) && td !in isel
    ensures SliceDataset(WindowDataset(ds, isel), td, rec).Ok? <==> SliceDataset(ds, td, rec).Ok?
    ensures SliceDataset(ds, td, rec).Ok? ==>
              DatasetReaches(SliceDataset(ds, td, rec).value, isel)
              && SliceDataset(WindowDataset(ds, isel), td, rec).value == WindowDataset(SliceDataset(ds, td, rec).value, isel)
  {
    hide Reaches, WindowField, Field.Valid, FieldsReach, WindowFields, Collect, SliceFields;
    FieldsSliceWindow(ds.variables, isel, td, rec);
    FieldsLess(ds.coords, td, isel);
    FieldsSliceWindow(ds.coords - {td}, isel, td, rec);
  }

  lemma FieldsLess(fs: map<string, Field>, td: string, isel: map<string, seq<int>>)
    requires FieldsReach(fs, isel)
    ensures FieldsReach(fs - {td}, isel) && WindowFields(fs - {td}, isel) == WindowFields(fs, isel) - {td}
  {
    hide Reaches, WindowField, Field.Valid;
  }

  /** The time coordinate has no other axis, so no window touches it. */
  lemma TimeIsReached(ds: Dataset, td: string, isel: map<string, seq<int>>)
    requires ds.Valid() && OwnTime(ds, td) && td !in isel
    ensures FieldsReach(ds.coords, isel) <==> FieldsReach(ds.coords - {td}, isel)
  {
    if td in ds.coords { WindowUntouched(ds.coords[td], isel); }
    hide Reaches, Field.Valid, OwnTime;
    var less := ds.coords - {td};
    assert forall n :: n in less <==> n in ds.coords && n != td;
    if FieldsReach(less, isel) {
      forall n | n in ds.coords
        ensures Reaches(ds.coords[n], isel)
      {
        if n != td { assert n in less; }
      }
    }
  }

  /** A window reaches a record exactly when it reaches what the record was sliced from. */
  lemma SlicedReaches(ds: Dataset, isel: map<string, seq<int>>, td: string, rec: int)
    requires ds.Valid() && td !in isel && OwnTime(ds, td) && SliceDataset(ds, td, rec).Ok?
    ensures DatasetReaches(SliceDataset(ds, td, rec).value, isel) <==> DatasetReaches(ds, isel)
  {
    hide Reaches, Field.Valid, SliceField, FieldError, Collect, SliceFields, FieldsReach, OwnTime;
    FieldsSlicedReach(ds.variables, isel, td, rec);
    FieldsSlicedReach(ds.coords - {td}, isel, td, rec);
    TimeIsReached(ds, td, isel);
  }

  lemma FieldsSlicedReach(fs: map<string, Field>, isel: map<string, seq<int>>, td: string, rec: int)
    requires (forall n :: n in fs ==> fs[n].Valid()) && td !in isel && Collect(SliceFields(fs, td, rec)).Ok?
    ensures FieldsReach(Collect(SliceFields(fs, td, rec)).value, isel) <==> FieldsReach(fs, isel)
  {
    hide Reaches, Field.Valid, SliceField, FieldError;
    var a := SliceFields(fs, td, rec);
    var c := Collect(a).value;
    assert forall n :: n in c <==> n in fs;
    forall n | n in fs
      ensures c[n].Valid() && (Reaches(c[n], isel) <==> Reaches(fs[n], isel))
    {
      assert n in a && a[n].Ok?;
      SlicedReachesField(fs[n], isel, td, rec);
    }
  }

  lemma SlicedReachesField(f: Field, isel: map<string, seq<int>>, td: string, rec: int)
    requires f.Valid() && td !in isel && SliceField(f, td, rec).Ok?
    ensures Reaches(SliceField(f, td, rec).value, isel) <==> Reaches(f, isel)
  {
    if td in f.dims { SlicedSel(f, isel, td, rec); }
  }

  // ---- brackets of whole datasets ---------------------------------------------------------

  lemma TimeCoordinateUntouched(td: string, t0: int, t1: int, isel: map<string, seq<int>>)
    requires td !in isel
    ensures Reaches(TimeCoordinate(td, t0, t1), isel) && WindowField(TimeCoordinate(td, t0, t1), isel) == TimeCoordinate(td, t0, t1)
  {
    WindowUntouched(TimeCoordinate(td, t0, t1), isel);
  }

  lemma FieldsMore(fs: map<string, Field>, td: string, f: Field, isel: map<string, seq<int>>)
    requires f.Valid() && Reaches(f, isel) && WindowField(f, isel) == f
    requires td !in fs
    ensures FieldsReach(fs[td := f], isel) <==> FieldsReach(fs, isel)
    ensures FieldsReach(fs, isel) ==> WindowFields(fs[td := f], isel) == WindowFields(fs, isel)[td := f]
  {
    hide Reaches, WindowField, Field.Valid;
    var g := fs[td := f];
    if FieldsReach(g, isel) {
      forall n | n in fs
        ensures fs[n].Valid() && Reaches(fs[n], isel)
      {
        assert n in g && g[n] == fs[n];
      }
    }
  }

  /** A window reaches a bracket exactly when it reaches the first of its two datasets. */
  lemma BracketReaches(d0: Dataset, d1: Dataset, rec0: nat, rec1: nat, td: string, t0: int, t1: int, isel: map<string, seq<int>>)
    requires d0.Valid() && d1.Valid() && td !in isel && OwnTime(d0, td)
    requires BracketDataset(d0, rec0, d1, rec1, td, t0, t1).Ok?
    ensures DatasetReaches(BracketDataset(d0, rec0, d1, rec1, td, t0, t1).value, isel) <==> DatasetReaches(d0, isel)
  {
    hide Reaches, WindowField, Field.Valid, Collect, StackFields, TimeCoordinate, FieldsReach, OwnTime;
    FieldsStackedReach(d0.variables, d1.variables, isel, td, rec0, rec1);
    TimeIsReached(d0, td, isel);
    TimeCoordinateUntouched(td, t0, t1, isel);
    FieldsMore(d0.coords - {td}, td, TimeCoordinate(td, t0, t1), isel);
  }

  lemma FieldsStackedReach(fs0: map<string, Field>, fs1: map<string, Field>, isel: map<string, seq<int>>, td: string, rec0: nat, rec1: nat)
    requires (forall n :: n in fs0 ==> fs0[n].Valid()) && (forall n :: n in fs1 ==> fs1[n].Valid()) && td !in isel
    requires Collect(StackFields(fs0, fs1, td, rec0, rec1)).Ok?
    ensures FieldsReach(Collect(StackFields(fs0, fs1, td, rec0, rec1)).value, isel) <==> FieldsReach(fs0, isel)
  {
    hide Reaches, Field.Valid, StackTwo, FieldError;
    var a := StackFields(fs0, fs1, td, rec0, rec1);
    var c := Collect(a).value;
    assert forall n :: n in c <==> n in fs0;
    forall n | n in fs0
      ensures c[n].Valid() && (Reaches(c[n], isel) <==> Reaches(fs0[n], isel))
    {
      assert n in a && a[n].Ok?;
      StackedReachesField(fs0[n], fs1[n], isel, td, rec0, rec1);
    }
  }

  lemma StackedReachesField(f0: Field, f1: Field, isel: map<string, seq<int>>, td: string, rec0: nat, rec1: nat)
    requires f0.Valid() && f1.Valid() && td !in isel && StackTwo(f0, f1, td, rec0, rec1).Ok?
    ensures Reaches(StackTwo(f0, f1, td, rec0, rec1).value, isel) <==> Reaches(f0, isel)
  {
    if td in f0.dims { StackedSel(f0, f1, isel, td, rec0, rec1); }
  }
}
