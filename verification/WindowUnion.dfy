/** The bounding union of several windows: decoded once, then every window is sliced back
    out of it, in its own order and with its own repetitions. */
module WindowUnion {
  import opened Wrappers
  import opened NativeData
  import opened Arrays
  import opened Selection

  /** What each window wants, the names in order of first use, and the union per name
      (None: the whole axis). */
  datatype Union = Union(wanted: seq<Wants>, names: seq<string>, lists: Wants)

  // ---- forming the union ---------------------------------------------------------------

  predicate Increasing(s: seq<int>) {
    forall i, j :: 0 <= i < j < |s| ==> s[i] < s[j]
  }

  function InsertSorted(s: seq<int>, x: int): (r: seq<int>)
    ensures forall y :: y in r <==> y in s || y == x
  {
    if s == [] || x < s[0] then [x] + s
    else if x == s[0] then s
    else
      assert s == [s[0]] + s[1..];
      [s[0]] + InsertSorted(s[1..], x)
  }

  lemma {:induction false} InsertKeepsIncreasing(s: seq<int>, x: int)
    requires Increasing(s)
    ensures Increasing(InsertSorted(s, x))
  {
    if s != [] && x > s[0] {
      InsertKeepsIncreasing(s[1..], x);
      var t := InsertSorted(s[1..], x);
      forall j | 0 <= j < |t|
        ensures s[0] < t[j]
      {
        assert t[j] in t;
        if t[j] != x {
          var i :| 0 <= i < |s[1..]| && s[1..][i] == t[j];
          assert s[i + 1] == t[j];
        }
      }
    }
  }

  function InsertAll(s: seq<int>, xs: seq<int>): (r: seq<int>)
    ensures forall y :: y in r <==> y in s || y in xs
    ensures Increasing(s) ==> Increasing(r)
  {
    if xs == [] then s
    else
      var front, x := xs[..|xs| - 1], xs[|xs| - 1];
      assert xs == front + [x];
      var t := InsertAll(s, front);
      (if Increasing(t) then InsertKeepsIncreasing(t, x); InsertSorted(t, x) else InsertSorted(t, x))
  }

  /** The names of the first `i` entries of `w`, each new one appended. */
  function AddNames(names: seq<string>, w: Window, i: nat): (r: seq<string>)
    requires i <= |w|
  {
    if i == 0 then names
    else
      var r := AddNames(names, w, i - 1);
      if w[i - 1].0 in r then r else r + [w[i - 1].0]
  }

  function NamesOf(ws: seq<Window>, i: nat): seq<string>
    requires i <= |ws|
  {
    if i == 0 then [] else AddNames(NamesOf(ws, i - 1), ws[i - 1], |ws[i - 1]|)
  }

  predicate Distinct(names: seq<string>) {
    forall i, j :: 0 <= i < j < |names| ==> names[i] != names[j]
  }

  lemma {:induction false} AddNamesMeaning(names: seq<string>, w: Window, i: nat)
    requires Distinct(names) && i <= |w|
    ensures Distinct(AddNames(names, w, i))
    ensures forall d :: d in AddNames(names, w, i) <==> d in names || Names(w[..i], d)
  {
    if i > 0 {
      AddNamesMeaning(names, w, i - 1);
      forall d
        ensures Names(w[..i], d) <==> Names(w[..i - 1], d) || d == w[i - 1].0
      {
        NamesGrow(w, i, d);
      }
      hide Names;
    }
  }

  lemma {:induction false} NamesMeaning(ws: seq<Window>, i: nat)
    requires i <= |ws|
    ensures Distinct(NamesOf(ws, i))
    ensures forall d :: d in NamesOf(ws, i) <==> exists j :: 0 <= j < i && Names(ws[j], d)
  {
    if i > 0 {
      NamesMeaning(ws, i - 1);
      var w := ws[i - 1];
      AddNamesMeaning(NamesOf(ws, i - 1), w, |w|);
      assert w[..|w|] == w;
      hide Names, AddNames, Distinct;
    }
  }

  lemma {:induction false} AddNamesExtends(names: seq<string>, w: Window, i: nat, j: nat)
    requires i <= j <= |w|
    ensures AddNames(names, w, i) <= AddNames(names, w, j) && names <= AddNames(names, w, j)
  {
    if i < j {
      AddNamesExtends(names, w, i, j - 1);
    } else if i > 0 {
      AddNamesExtends(names, w, 0, i - 1);
    }
  }

  lemma {:induction false} NamesExtend(ws: seq<Window>, i: nat, n: nat)
    requires i <= n <= |ws|
    ensures NamesOf(ws, i) <= NamesOf(ws, n)
  {
    if i < n {
      NamesExtend(ws, i, n - 1);
      AddNamesExtends(NamesOf(ws, n - 1), ws[n - 1], 0, |ws[n - 1]|);
    }
  }

  /** Names come in the order of their first use: those used in the first `i` windows and the
      first `j` entries of the next are the first so many of all. */
  lemma NamesInOrderOfUse(ws: seq<Window>, i: nat, j: nat)
    requires i < |ws| && j <= |ws[i]|
    ensures exists n :: 0 <= n <= |NamesOf(ws, |ws|)|
                        && forall d :: d in NamesOf(ws, |ws|)[..n] <==> Names(ws[i][..j], d) || exists k :: 0 <= k < i && Names(ws[k], d)
  {
    hide Names, Distinct;
    var first := AddNames(NamesOf(ws, i), ws[i], j);
    NamesMeaning(ws, i);
    AddNamesMeaning(NamesOf(ws, i), ws[i], j);
    AddNamesExtends(NamesOf(ws, i), ws[i], j, |ws[i]|);
    NamesExtend(ws, i + 1, |ws|);
    assert first <= NamesOf(ws, |ws|);
    assert NamesOf(ws, |ws|)[..|first|] == first;
  }

  /** Window `m` leaves dimension `d` unnamed or whole. */
  predicate Whole_(m: Wants, d: string) {
    d !in m || m[d].None?
  }

  predicate NeedsWhole(wanted: seq<Wants>, d: string) {
    exists i :: 0 <= i < |wanted| && Whole_(wanted[i], d)
  }

  /** The lists the first `i` windows ask of `d`, merged: sorted and without repetition. */
  function Merged(wanted: seq<Wants>, d: string, i: nat): (r: seq<int>)
    requires i <= |wanted|
    ensures Increasing(r)
    ensures forall x :: x in r <==> exists j :: 0 <= j < i && !Whole_(wanted[j], d) && x in wanted[j][d].value
  {
    if i == 0 then []
    else if Whole_(wanted[i - 1], d) then Merged(wanted, d, i - 1)
    else InsertAll(Merged(wanted, d, i - 1), wanted[i - 1][d].value)
  }

  function UnionEntry(wanted: seq<Wants>, d: string): Option<seq<int>> {
    if NeedsWhole(wanted, d) then None else Some(Merged(wanted, d, |wanted|))
  }

  function WantedAll(ws: seq<Window>, i: nat): Result<seq<Wants>, Error>
    requires i <= |ws|
  {
    if i == 0 then Ok([])
    else match (WantedAll(ws, i - 1), WantedOf(ws[i - 1]))
      case (Ok(ms), Ok(m)) => Ok(ms + [m])
      case (Err(e), _) => Err(e)
      case (_, Err(e)) => Err(e)
  }

  lemma {:induction false} WantedAllIs(ws: seq<Window>, i: nat)
    requires i <= |ws|
    ensures WantedAll(ws, i).Ok? <==> forall j :: 0 <= j < i ==> WantedOf(ws[j]).Ok?
    ensures WantedAll(ws, i).Ok? ==> |WantedAll(ws, i).value| == i && forall j :: 0 <= j < i ==> WantedOf(ws[j]) == Ok(WantedAll(ws, i).value[j])
  {
    hide WantedOf;
    if i > 0 { WantedAllIs(ws, i - 1); }
  }

  function UnionOf(ws: seq<Window>): Result<Union, Error> {
    match WantedAll(ws, |ws|)
    case Err(e) => Err(e)
    case Ok(wanted) =>
      var names := NamesOf(ws, |ws|);
      Ok(Union(wanted, names, map d | d in names :: UnionEntry(wanted, d)))
  }

  /** The select the union is read under: the names in order, whole or as a list. */
  function UnionSelect(u: Union): Window
    requires forall d :: d in u.names ==> d in u.lists
  {
    seq(|u.names|, i requires 0 <= i < |u.names| => (u.names[i], if u.lists[u.names[i]].None? then All else Indices(u.lists[u.names[i]].value)))
  }

  /** The union as it is built: the wants, the names by scanning, one list per name. */
  method BuildUnion(ws: seq<Window>) returns (r: Result<Union, Error>)
    requires forall i :: 0 <= i < |ws| ==> ValidWindow(ws[i])
    ensures r == UnionOf(ws)
  {
    hide WantedAll, NamesOf, UnionEntry;
    var wanted := CollectWants(ws);
    if wanted.Err? { return Err(wanted.error); }
    var names := CollectNames(ws);
    var lists := CollectLists(wanted.value, names);
    return Ok(Union(wanted.value, names, lists));
  }

  method CollectWants(ws: seq<Window>) returns (r: Result<seq<Wants>, Error>)
    ensures r == WantedAll(ws, |ws|)
  {
    hide WantedOf;
    var wanted: seq<Wants> := [];
    var i := 0;
    while i < |ws|
      invariant i <= |ws| && WantedAll(ws, i) == Ok(wanted)
    {
      var m := WantedOf(ws[i]);
      if m.Err? {
        FirstBadWindow(ws, i, |ws|);
        return Err(m.error);
      }
      wanted := wanted + [m.value];
      i := i + 1;
    }
    return Ok(wanted);
  }

  method CollectNames(ws: seq<Window>) returns (names: seq<string>)
    ensures names == NamesOf(ws, |ws|)
  {
    names := [];
    var i := 0;
    while i < |ws|
      invariant i <= |ws| && names == NamesOf(ws, i)
    {
      var j := 0;
      ghost var before := names;
      while j < |ws[i]|
        invariant j <= |ws[i]| && names == AddNames(before, ws[i], j)
      {
        if ws[i][j].0 !in names { names := names + [ws[i][j].0]; }
        j := j + 1;
      }
      i := i + 1;
    }
  }

  method CollectLists(wanted: seq<Wants>, names: seq<string>) returns (lists: Wants)
    ensures lists == map d | d in names :: UnionEntry(wanted, d)
  {
    hide UnionEntry;
    lists := map[];
    var k := 0;
    while k < |names|
      invariant k <= |names| && lists == map d | d in names[..k] :: UnionEntry(wanted, d)
    {
      var entry := MergeLists(wanted, names[k]);
      assert names[..k + 1] == names[..k] + [names[k]];
      lists := lists[names[k] := entry];
      k := k + 1;
    }
    assert names[..|names|] == names;
  }

  lemma {:induction false} FirstBadWindow(ws: seq<Window>, i: nat, n: nat)
    requires i < n <= |ws| && WantedAll(ws, i).Ok? && WantedOf(ws[i]).Err?
    ensures WantedAll(ws, n) == Err(WantedOf(ws[i]).error)
  {
    hide WantedOf;
    if i + 1 < n { FirstBadWindow(ws, i, n - 1); }
  }

  /** One dimension of the union: whole as soon as some window needs it whole. */
  method MergeLists(wanted: seq<Wants>, d: string) returns (entry: Option<seq<int>>)
    ensures entry == UnionEntry(wanted, d)
  {
    var merged: seq<int> := [];
    var i := 0;
    while i < |wanted|
      invariant i <= |wanted| && merged == Merged(wanted, d, i)
      invariant forall j :: 0 <= j < i ==> !Whole_(wanted[j], d)
    {
      if Whole_(wanted[i], d) { return None; }
      merged := InsertAll(merged, wanted[i][d].value);
      i := i + 1;
    }
    return Some(merged);
  }

  /** What the union is, said without its construction. */
  ghost predicate IsUnion(ws: seq<Window>, u: Union) {
    && |u.wanted| == |ws|
    && (forall i :: 0 <= i < |ws| ==> WantedOf(ws[i]) == Ok(u.wanted[i]))
    && (forall d :: d in u.lists <==> exists i :: 0 <= i < |ws| && d in u.wanted[i])
    && (forall d :: d in u.lists ==> (u.lists[d].None? <==> NeedsWhole(u.wanted, d)))
    && (forall d :: d in u.lists && u.lists[d].Some? ==> Bounds(u, d))
  }

  /** The list of `d` is strictly increasing and holds exactly what the windows ask for. */
  ghost predicate Bounds(u: Union, d: string)
    requires d in u.lists && u.lists[d].Some?
  {
    && Increasing(u.lists[d].value)
    && (forall x :: x in u.lists[d].value <==> exists j :: 0 <= j < |u.wanted| && !Whole_(u.wanted[j], d) && x in u.wanted[j][d].value)
  }

  lemma UnionMeaning(ws: seq<Window>)
    requires forall i :: 0 <= i < |ws| ==> ValidWindow(ws[i])
    ensures UnionOf(ws).Ok? <==> forall i :: 0 <= i < |ws| ==> WantedOf(ws[i]).Ok?
    ensures UnionOf(ws).Ok? ==> IsUnion(ws, UnionOf(ws).value)
    ensures UnionOf(ws).Ok? ==>
              var u := UnionOf(ws).value;
              Distinct(u.names) && (forall d :: d in u.names <==> d in u.lists)
  {
    hide WantedOf, WantedAll, Names, NamesOf, UnionEntry, Bounds, ValidWindow, NeedsWhole, Distinct;
    WantedAllIs(ws, |ws|);
    NamesMeaning(ws, |ws|);
    if UnionOf(ws).Ok? {
      var u := UnionOf(ws).value;
      forall i | 0 <= i < |ws|
        ensures forall d :: d in u.wanted[i] <==> Names(ws[i], d)
      {
        WantedEntries(ws[i]);
      }
      forall d | d in u.lists
        ensures u.lists[d].None? <==> NeedsWhole(u.wanted, d)
        ensures u.lists[d].Some? ==> Bounds(u, d)
      {
        UnionEntryIs(u, d);
      }
    }
  }

  lemma UnionEntryIs(u: Union, d: string)
    requires d in u.lists && u.lists[d] == UnionEntry(u.wanted, d)
    ensures u.lists[d].None? <==> NeedsWhole(u.wanted, d)
    ensures u.lists[d].Some? ==> Bounds(u, d)
  {
    hide Increasing;
  }

  function ListsOfFirst(u: Union, i: nat): Wants
    requires (forall d :: d in u.names ==> d in u.lists) && i <= |u.names|
  {
    map d | d in u.names[..i] :: u.lists[d]
  }

  lemma {:induction false} SelectWants(u: Union, i: nat)
    requires (forall d :: d in u.names ==> d in u.lists) && i <= |u.names|
    ensures WantedOf(UnionSelect(u)[..i]) == Ok(ListsOfFirst(u, i))
  {
    var w := UnionSelect(u);
    if i == 0 {
      assert w[..0] == [];
      assert ListsOfFirst(u, 0) == map[];
    } else {
      SelectWants(u, i - 1);
      var v, d := w[..i], u.names[i - 1];
      WantedStep(v);
      assert v[..|v| - 1] == w[..i - 1] && v[|v| - 1] == w[i - 1];
      assert u.names[..i] == u.names[..i - 1] + [d];
      assert Unbounded(w[i - 1].1) == Ok(u.lists[d]);
      assert ListsOfFirst(u, i) == ListsOfFirst(u, i - 1)[d := u.lists[d]];
    }
  }

  lemma SelectIsUnion(u: Union)
    requires Distinct(u.names) && (forall d :: d in u.names <==> d in u.lists)
    ensures ValidWindow(UnionSelect(u)) && WantedOf(UnionSelect(u)) == Ok(u.lists)
  {
    SelectWants(u, |u.names|);
    assert u.names[..|u.names|] == u.names;
    assert UnionSelect(u)[..|u.names|] == UnionSelect(u);
    assert ListsOfFirst(u, |u.names|) == u.lists;
  }

  // ---- slicing a window back out -----------------------------------------------------------

  function Positions(have: seq<int>, want: seq<int>): (pos: seq<int>)
    requires forall i :: 0 <= i < |want| ==> want[i] in have
    ensures |pos| == |want| && forall i :: 0 <= i < |pos| ==> 0 <= pos[i] < |have| && have[pos[i]] == want[i]
  {
    seq(|want|, i requires 0 <= i < |want| => IndexOf(have, want[i]))
  }

  /** The union holds everything the window asks for. */
  predicate Covers(u: Union, wanted: Wants) {
    forall d :: d in wanted && wanted[d].Some? ==>
      d in u.lists && (u.lists[d].Some? ==> forall i :: 0 <= i < |wanted[d].value| ==> wanted[d].value[i] in u.lists[d].value)
  }

  /** The lists that cut a window out of what was read under the union. */
  function Cuts(u: Union, wanted: Wants): (isel: map<string, seq<int>>)
    requires Covers(u, wanted)
  {
    map d | d in wanted && wanted[d].Some? ::
      if u.lists[d].None? then wanted[d].value else Positions(u.lists[d].value, wanted[d].value)
  }

  function CutField(u: Union, wanted: Wants, f: Field): Result<Field, Error>
    requires f.Valid() && Covers(u, wanted)
  {
    if Reaches(f, Cuts(u, wanted)) then Ok(WindowField(f, Cuts(u, wanted))) else Err(IndexError)
  }

  lemma CutKeys(u: Union, wanted: Wants, d: string)
    requires Covers(u, wanted)
    ensures d in Cuts(u, wanted) <==> d in wanted && wanted[d].Some?
  {
  }

  /** Where the window's indices of dimension `d` stand in what was read: checked against
      the length when the union read it whole. */
  method AxisPositions(u: Union, wanted: Wants, d: string, n: nat) returns (r: Result<seq<int>, Error>)
    requires Covers(u, wanted) && d in wanted && wanted[d].Some?
    ensures d in Cuts(u, wanted)
    ensures r == if Within(Cuts(u, wanted)[d], n) then Ok(Cuts(u, wanted)[d]) else Err(IndexError)
  {
    if u.lists[d].None? {
      r := ResolveAxis(Indices(wanted[d].value), n);
    } else {
      var pos := Positions(u.lists[d].value, wanted[d].value);
      r := if Within(pos, n) then Ok(pos) else Err(IndexError);
    }
  }

  /** `cut`: one `take` per axis the window narrows. */
  method Cut(u: Union, wanted: Wants, f: Field) returns (r: Result<Field, Error>)
    requires f.Valid() && Covers(u, wanted)
    ensures r == CutField(u, wanted, f)
  {
    hide Gather, TakeAxis, HasShape, PartialSel, Cuts, Covers, Lengths;
    var data, shape := f.data, f.shape;
    ghost var isel := Cuts(u, wanted);
    var axis := 0;
    PartialNone(f, isel);
    while axis < |f.dims|
      invariant axis <= |f.dims|
      invariant ReachesFirst(f, isel, axis)
      invariant data == Gather(f.data, f.shape, PartialSel(f, isel, axis))
      invariant shape == Lengths(PartialSel(f, isel, axis))
    {
      var d := f.dims[axis];
      CutKeys(u, wanted, d);
      if d !in wanted || wanted[d].None? {
        PartialSkip(f, isel, axis);
      } else {
        var pos := AxisPositions(u, wanted, d, shape[axis]);
        if pos.Err? { return Err(IndexError); }
        PartialTake(f, isel, axis);
        data := TakeAxis(data, shape, axis, pos.value);
        shape := shape[axis := |pos.value|];
      }
      axis := axis + 1;
    }
    PartialAll(f, isel);
    return Ok(Field(f.dims, shape, data, f.attrs));
  }

  predicate ReachesFirst(f: Field, isel: map<string, seq<int>>, k: nat)
    requires f.Valid() && k <= |f.dims|
  {
    forall i :: 0 <= i < k ==> f.dims[i] in isel ==> Within(isel[f.dims[i]], f.shape[i])
  }

  /** The selection with only the first `k` axes cut. */
  function PartialSel(f: Field, isel: map<string, seq<int>>, k: nat): (sel: seq<seq<int>>)
    requires f.Valid() && k <= |f.dims| && ReachesFirst(f, isel, k)
    ensures |sel| == |f.dims| && Fits(f.shape, sel)
    ensures forall i :: 0 <= i < |sel| ==> sel[i] == if i < k then SelFor(f, isel)[i] else Whole(f.shape[i])
  {
    seq(|f.dims|, i requires 0 <= i < |f.dims| => if i < k then SelFor(f, isel)[i] else Whole(f.shape[i]))
  }

  lemma PartialNone(f: Field, isel: map<string, seq<int>>)
    requires f.Valid()
    ensures Gather(f.data, f.shape, PartialSel(f, isel, 0)) == f.data
    ensures Lengths(PartialSel(f, isel, 0)) == f.shape
  {
    assert PartialSel(f, isel, 0) == WholeSel(f.shape);
    GatherWhole(f.data, f.shape);
  }

  lemma PartialSkip(f: Field, isel: map<string, seq<int>>, k: nat)
    requires f.Valid() && k < |f.dims| && ReachesFirst(f, isel, k) && f.dims[k] !in isel
    ensures ReachesFirst(f, isel, k + 1) && PartialSel(f, isel, k + 1) == PartialSel(f, isel, k)
  {
  }

  lemma PartialTake(f: Field, isel: map<string, seq<int>>, k: nat)
    requires f.Valid() && k < |f.dims| && ReachesFirst(f, isel, k) && f.dims[k] in isel && Within(isel[f.dims[k]], f.shape[k])
    ensures ReachesFirst(f, isel, k + 1)
    ensures var s, pos := PartialSel(f, isel, k), isel[f.dims[k]];
            && TakeAxis(Gather(f.data, f.shape, s), Lengths(s), k, pos) == Gather(f.data, f.shape, PartialSel(f, isel, k + 1))
            && Lengths(PartialSel(f, isel, k + 1)) == Lengths(s)[k := |pos|]
  {
    var s, pos := PartialSel(f, isel, k), isel[f.dims[k]];
    assert PartialSel(f, isel, k + 1) == s[k := pos];
    hide Gather, TakeAxis;
    TakeAfterGather(f.data, f.shape, s, k, pos);
  }

  lemma PartialAll(f: Field, isel: map<string, seq<int>>)
    requires f.Valid() && ReachesFirst(f, isel, |f.dims|)
    ensures Reaches(f, isel) && PartialSel(f, isel, |f.dims|) == SelFor(f, isel)
  {
  }

  /** The union read this dimension whole for another window, and it is time. */
  predicate Refuses(u: Union, wanted: Wants, ds: Dataset) {
    exists d :: d in wanted && wanted[d].Some? && d in u.lists && u.lists[d].None? && IsTime(ds, d)
  }

  /** Window `wanted` of a dataset read under the union. */
  function OneWindow(u: Union, wanted: Wants, ds: Dataset): Result<Dataset, Error>
    requires ds.Valid() && Covers(u, wanted)
  {
    if Refuses(u, wanted, ds) then Err(ValueError)
    else if DatasetReaches(ds, Cuts(u, wanted)) then Ok(WindowDataset(ds, Cuts(u, wanted)))
    else Err(IndexError)
  }

  /** Field `f` lacks an index the lists ask of it. */
  predicate Lacks(f: Field, isel: map<string, seq<int>>)
    requires f.Valid()
  {
    exists k, i :: 0 <= k < |f.dims| && f.dims[k] in isel && 0 <= i < |isel[f.dims[k]]| && !(0 <= isel[f.dims[k]][i] < f.shape[k])
  }

  /** Why a window cannot be cut: a subset of time of which the union read the whole is a
      value error and nothing else is looked at; else some field lacks an index, an index
      error. */
  lemma CutFails(u: Union, wanted: Wants, ds: Dataset)
    requires ds.Valid() && Covers(u, wanted)
    ensures var timeAsked := exists d :: d in wanted && wanted[d].Some? && u.lists[d].None? && IsTime(ds, d);
            && (OneWindow(u, wanted, ds) == Err(ValueError) <==> timeAsked)
            && (OneWindow(u, wanted, ds) == Err(IndexError) <==>
                !timeAsked && ((exists n :: n in ds.variables && Lacks(ds.variables[n], Cuts(u, wanted)))
                               || (exists n :: n in ds.coords && Lacks(ds.coords[n], Cuts(u, wanted)))))
            && (OneWindow(u, wanted, ds).Err? ==> OneWindow(u, wanted, ds).error in {ValueError, IndexError})
  {
    hide Cuts, IsTime, Lacks, Within;
    var isel := Cuts(u, wanted);
    forall n | n in ds.variables
      ensures Lacks(ds.variables[n], isel) <==> !Reaches(ds.variables[n], isel)
    {
      LacksIff(ds.variables[n], isel);
    }
    forall n | n in ds.coords
      ensures Lacks(ds.coords[n], isel) <==> !Reaches(ds.coords[n], isel)
    {
      LacksIff(ds.coords[n], isel);
    }
  }

  lemma LacksIff(f: Field, isel: map<string, seq<int>>)
    requires f.Valid()
    ensures Lacks(f, isel) <==> !Reaches(f, isel)
  {
  }

  /** Every window, or the error of the first that cannot be cut. */
  function Split(u: Union, ds: Dataset, i: nat): Result<seq<Dataset>, Error>
    requires ds.Valid() && i <= |u.wanted| && forall j :: 0 <= j < |u.wanted| ==> Covers(u, u.wanted[j])
  {
    if i == 0 then Ok([])
    else match (Split(u, ds, i - 1), OneWindow(u, u.wanted[i - 1], ds))
      case (Ok(out), Ok(w)) => Ok(out + [w])
      case (Err(e), _) => Err(e)
      case (_, Err(e)) => Err(e)
  }

  lemma {:induction false} SplitIs(u: Union, ds: Dataset, i: nat)
    requires ds.Valid() && i <= |u.wanted| && forall j :: 0 <= j < |u.wanted| ==> Covers(u, u.wanted[j])
    ensures Split(u, ds, i).Ok? <==> forall j :: 0 <= j < i ==> OneWindow(u, u.wanted[j], ds).Ok?
    ensures Split(u, ds, i).Ok? ==> |Split(u, ds, i).value| == i && forall j :: 0 <= j < i ==> OneWindow(u, u.wanted[j], ds) == Ok(Split(u, ds, i).value[j])
    ensures Split(u, ds, i).Err? ==> exists j :: 0 <= j < i && OneWindow(u, u.wanted[j], ds) == Err(Split(u, ds, i).error) && forall k :: 0 <= k < j ==> OneWindow(u, u.wanted[k], ds).Ok?
  {
    hide OneWindow, Covers;
    if i > 0 { SplitIs(u, ds, i - 1); }
  }

  lemma InBounds(u: Union, d: string, j: nat, x: int)
    requires d in u.lists && u.lists[d].Some? && Bounds(u, d) && j < |u.wanted| && !Whole_(u.wanted[j], d) && x in u.wanted[j][d].value
    ensures x in u.lists[d].value
  {
  }

  lemma UnionCovers(ws: seq<Window>, u: Union)
    requires IsUnion(ws, u)
    ensures forall j :: 0 <= j < |u.wanted| ==> Covers(u, u.wanted[j])
  {
    hide WantedOf;
    forall j, d | 0 <= j < |u.wanted| && d in u.wanted[j] && u.wanted[j][d].Some?
      ensures d in u.lists && (u.lists[d].Some? ==> forall i :: 0 <= i < |u.wanted[j][d].value| ==> u.wanted[j][d].value[i] in u.lists[d].value)
    {
      assert d in u.lists;
      if u.lists[d].Some? {
        assert Bounds(u, d) && !Whole_(u.wanted[j], d);
        forall i | 0 <= i < |u.wanted[j][d].value|
          ensures u.wanted[j][d].value[i] in u.lists[d].value
        {
          InBounds(u, d, j, u.wanted[j][d].value[i]);
        }
      }
    }
  }
}
