/** Gathers on n-dimensional arrays of any rank, and the laws that let record slicing and
    window slicing change places. */
module Arrays {
  import opened NativeData

  /** All the indices of an axis of length `n`, in order. */
  function Whole(n: nat): (s: seq<int>)
    ensures |s| == n && forall i :: 0 <= i < n ==> s[i] == i
  {
    seq(n, i => i)
  }

  /** Where `x` first stands in `s`. */
  function IndexOf<T(==)>(s: seq<T>, x: T): (k: nat)
    requires x in s
    ensures k < |s| && s[k] == x
  {
    if s[0] == x then 0 else 1 + IndexOf(s[1..], x)
  }

  predicate Within(idx: seq<int>, n: nat) {
    forall i :: 0 <= i < |idx| ==> 0 <= idx[i] < n
  }

  /** One in-range index list per axis. */
  predicate Fits(shape: seq<nat>, sel: seq<seq<int>>) {
    |sel| == |shape| && forall k :: 0 <= k < |sel| ==> Within(sel[k], shape[k])
  }

  function Lengths(sel: seq<seq<int>>): (s: seq<nat>)
    ensures |s| == |sel| && forall k :: 0 <= k < |s| ==> s[k] == |sel[k]|
  {
    seq(|sel|, k requires 0 <= k < |sel| => |sel[k]|)
  }

  function WholeSel(shape: seq<nat>): (sel: seq<seq<int>>)
    ensures |sel| == |shape| && Fits(shape, sel) && forall k :: 0 <= k < |sel| ==> sel[k] == Whole(shape[k])
  {
    seq(|shape|, k requires 0 <= k < |shape| => Whole(shape[k]))
  }

  /** Without entry `k`; with `x` inserted before entry `k`. */
  function Without<T>(s: seq<T>, k: nat): (r: seq<T>)
    requires k < |s|
    ensures |r| == |s| - 1
  {
    s[..k] + s[k + 1..]
  }

  function Insert<T>(s: seq<T>, k: nat, x: T): (r: seq<T>)
    requires k <= |s|
    ensures |r| == |s| + 1
  {
    s[..k] + [x] + s[k..]
  }

  /** Where entry `j` of the shortened sequence was. */
  function Past(j: nat, k: nat): nat {
    if j < k then j else j + 1
  }

  lemma WithoutAt<T>(s: seq<T>, k: nat)
    requires k < |s|
    ensures forall j {:trigger Without(s, k)[j]} :: 0 <= j < |s| - 1 ==> Without(s, k)[j] == s[Past(j, k)]
  {
  }

  lemma PutBack<T>(s: seq<T>, k: nat, x: T)
    requires k < |s|
    ensures Insert(Without(s, k), k, x) == s[k := x]
  {
  }

  lemma WithoutTail<T>(s: seq<T>, k: nat)
    requires 0 < k < |s|
    ensures Without(s, k)[1..] == Without(s[1..], k - 1) && Without(s, k)[0] == s[0]
  {
  }

  lemma InsertTail<T>(s: seq<T>, k: nat, x: T)
    requires 0 < k <= |s|
    ensures Insert(s, k, x)[1..] == Insert(s[1..], k - 1, x) && Insert(s, k, x)[0] == s[0]
  {
  }

  /** Orthogonal selection: along every axis at once, the listed indices in the listed order. */
  function Gather(a: Nd, shape: seq<nat>, sel: seq<seq<int>>): (r: Nd)
    requires HasShape(a, shape) && Fits(shape, sel)
    ensures HasShape(r, Lengths(sel))
    decreases |shape|
  {
    if shape == [] then a
    else
      FitsTail(shape, sel);
      assert Lengths(sel)[1..] == Lengths(sel[1..]);
      Node(seq(|sel[0]|, i requires 0 <= i < |sel[0]| => Gather(a.items[sel[0][i]], shape[1..], sel[1..])))
  }

  lemma FitsTail(shape: seq<nat>, sel: seq<seq<int>>)
    requires Fits(shape, sel) && shape != []
    ensures Fits(shape[1..], sel[1..]) && Within(sel[0], shape[0])
  {
  }

  /** numpy `take` with an index list: the axis stays, at the list's length. */
  function TakeAxis(a: Nd, shape: seq<nat>, k: nat, idx: seq<int>): (r: Nd)
    requires HasShape(a, shape) && k < |shape| && Within(idx, shape[k])
    ensures HasShape(r, shape[k := |idx|])
    decreases |shape|
  {
    if k == 0 then Node(seq(|idx|, i requires 0 <= i < |idx| => a.items[idx[i]]))
    else
      assert shape[k := |idx|][1..] == shape[1..][k - 1 := |idx|];
      Node(seq(|a.items|, i requires 0 <= i < |a.items| => TakeAxis(a.items[i], shape[1..], k - 1, idx)))
  }

  /** numpy `take` with one index: the axis is gone. */
  function DropAxis(a: Nd, shape: seq<nat>, k: nat, r: nat): (d: Nd)
    requires HasShape(a, shape) && k < |shape| && r < shape[k]
    ensures HasShape(d, Without(shape, k))
    decreases |shape|
  {
    if k == 0 then assert Without(shape, 0) == shape[1..]; a.items[r]
    else
      WithoutTail(shape, k);
      Node(seq(|a.items|, i requires 0 <= i < |a.items| => DropAxis(a.items[i], shape[1..], k - 1, r)))
  }

  /** numpy `stack` of two arrays along a new axis `k`. */
  function Stack2(a: Nd, b: Nd, shape: seq<nat>, k: nat): (r: Nd)
    requires HasShape(a, shape) && HasShape(b, shape) && k <= |shape|
    ensures HasShape(r, Insert(shape, k, 2))
    decreases |shape|
  {
    if k == 0 then assert Insert(shape, 0, 2)[1..] == shape; Node([a, b])
    else
      InsertTail(shape, k, 2);
      Node(seq(|a.items|, i requires 0 <= i < |a.items| => Stack2(a.items[i], b.items[i], shape[1..], k - 1)))
  }

  lemma {:induction false} GatherWhole(a: Nd, shape: seq<nat>)
    requires HasShape(a, shape)
    ensures Gather(a, shape, WholeSel(shape)) == a
    decreases |shape|
  {
    if shape != [] {
      assert WholeSel(shape)[1..] == WholeSel(shape[1..]);
      forall i | 0 <= i < |a.items|
        ensures Gather(a, shape, WholeSel(shape)).items[i] == a.items[i]
      {
        GatherWhole(a.items[i], shape[1..]);
      }
    }
  }

  /** The index lists of a selection made within a selection. */
  function Compose(s: seq<seq<int>>, t: seq<seq<int>>): (r: seq<seq<int>>)
    requires Fits(Lengths(s), t)
    ensures |r| == |s| && forall k :: 0 <= k < |r| ==> r[k] == Through(s[k], t[k])
  {
    seq(|s|, k requires 0 <= k < |s| => Through(s[k], t[k]))
  }

  function Through(s: seq<int>, t: seq<int>): (r: seq<int>)
    requires Within(t, |s|)
    ensures |r| == |t| && forall i :: 0 <= i < |r| ==> r[i] == s[t[i]]
  {
    seq(|t|, i requires 0 <= i < |t| => s[t[i]])
  }

  lemma ComposeFits(shape: seq<nat>, s: seq<seq<int>>, t: seq<seq<int>>)
    requires Fits(shape, s) && Fits(Lengths(s), t)
    ensures Fits(shape, Compose(s, t)) && Lengths(Compose(s, t)) == Lengths(t)
  {
    forall k | 0 <= k < |s|
      ensures Within(Compose(s, t)[k], shape[k])
    {
      assert Within(s[k], shape[k]) && Within(t[k], Lengths(s)[k]);
    }
  }

  /** A gather of a gather is one gather. */
  lemma {:induction false} GatherGather(a: Nd, shape: seq<nat>, s: seq<seq<int>>, t: seq<seq<int>>)
    requires HasShape(a, shape) && Fits(shape, s) && Fits(Lengths(s), t)
    ensures Fits(shape, Compose(s, t))
    ensures Gather(Gather(a, shape, s), Lengths(s), t) == Gather(a, shape, Compose(s, t))
    decreases |shape|
  {
    ComposeFits(shape, s, t);
    if shape != [] {
      FitsTail(shape, s);
      FitsTail(Lengths(s), t);
      FitsTail(shape, Compose(s, t));
      assert Lengths(s)[1..] == Lengths(s[1..]);
      assert Compose(s, t)[1..] == Compose(s[1..], t[1..]);
      var l, r := Gather(Gather(a, shape, s), Lengths(s), t), Gather(a, shape, Compose(s, t));
      forall i | 0 <= i < |t[0]|
        ensures l.items[i] == r.items[i]
      {
        var j := s[0][t[0][i]];
        GatherGather(a.items[j], shape[1..], s[1..], t[1..]);
      }
      assert l.items == r.items;
    }
  }

  /** One more `take` along an axis not yet selected is the gather with that axis added. */
  lemma {:induction false} TakeAfterGather(a: Nd, shape: seq<nat>, s: seq<seq<int>>, k: nat, idx: seq<int>)
    requires HasShape(a, shape) && Fits(shape, s) && k < |s| && s[k] == Whole(shape[k]) && Within(idx, shape[k])
    ensures Fits(shape, s[k := idx])
    ensures TakeAxis(Gather(a, shape, s), Lengths(s), k, idx) == Gather(a, shape, s[k := idx])
    decreases |shape|
  {
    FitsTail(shape, s);
    if k == 0 {
      FitsTail(shape, s[k := idx]);
      var l, r := TakeAxis(Gather(a, shape, s), Lengths(s), k, idx), Gather(a, shape, s[k := idx]);
      assert l.items == r.items;
    } else {
      forall i | 0 <= i < |s[0]|
        ensures TakeAfterGatherAt(a, shape, s, k, idx, i)
      {
        TakeAfterGather(a.items[s[0][i]], shape[1..], s[1..], k - 1, idx);
      }
      TakeAfterGatherStep(a, shape, s, k, idx);
    }
  }

  ghost predicate TakeAfterGatherAt(a: Nd, shape: seq<nat>, s: seq<seq<int>>, k: nat, idx: seq<int>, i: nat)
    requires HasShape(a, shape) && Fits(shape, s) && 0 < k < |s| && s[k] == Whole(shape[k]) && Within(idx, shape[k]) && i < |s[0]|
  {
    var x := a.items[s[0][i]];
    Fits(shape[1..], s[1..]) && Fits(shape[1..], s[1..][k - 1 := idx])
    && TakeAxis(Gather(x, shape[1..], s[1..]), Lengths(s[1..]), k - 1, idx) == Gather(x, shape[1..], s[1..][k - 1 := idx])
  }

  lemma TakeAfterGatherStep(a: Nd, shape: seq<nat>, s: seq<seq<int>>, k: nat, idx: seq<int>)
    requires HasShape(a, shape) && Fits(shape, s) && 0 < k < |s| && s[k] == Whole(shape[k]) && Within(idx, shape[k])
    requires forall i :: 0 <= i < |s[0]| ==> TakeAfterGatherAt(a, shape, s, k, idx, i)
    ensures Fits(shape, s[k := idx])
    ensures TakeAxis(Gather(a, shape, s), Lengths(s), k, idx) == Gather(a, shape, s[k := idx])
  {
    FitsTail(shape, s);
    assert Lengths(s)[1..] == Lengths(s[1..]);
    assert s[k := idx][1..] == s[1..][k - 1 := idx] && s[k := idx][0] == s[0];
    hide Lengths, HasShape, Within, Whole;
    var l, r := TakeAxis(Gather(a, shape, s), Lengths(s), k, idx), Gather(a, shape, s[k := idx]);
    forall i | 0 <= i < |s[0]|
      ensures l.items[i] == r.items[i]
    {
      assert TakeAfterGatherAt(a, shape, s, k, idx, i);
    }
    assert l.items == r.items;
  }

  lemma WithoutFits(shape: seq<nat>, s: seq<seq<int>>, k: nat)
    requires Fits(shape, s) && k < |s|
    ensures Fits(Without(shape, k), Without(s, k)) && Lengths(Without(s, k)) == Without(Lengths(s), k)
  {
  }

  /** Dropping an axis commutes with gathering the others. */
  lemma {:induction false} DropGather(a: Nd, shape: seq<nat>, s: seq<seq<int>>, k: nat, r: nat)
    requires HasShape(a, shape) && Fits(shape, s) && k < |s| && r < |s[k]|
    ensures s[k][r] < shape[k] && Fits(Without(shape, k), Without(s, k))
    ensures DropAxis(Gather(a, shape, s), Lengths(s), k, r) == Gather(DropAxis(a, shape, k, s[k][r]), Without(shape, k), Without(s, k))
    decreases |shape|
  {
    WithoutFits(shape, s, k);
    assert Within(s[k], shape[k]);
    FitsTail(shape, s);
    if k == 0 {
      assert Lengths(s)[1..] == Lengths(s[1..]);
      assert Without(s, 0) == s[1..];
      assert Without(shape, 0) == shape[1..];
    } else {
      forall i | 0 <= i < |s[0]|
        ensures DropGatherAt(a, shape, s, k, r, i)
      {
        DropGather(a.items[s[0][i]], shape[1..], s[1..], k - 1, r);
      }
      DropGatherStep(a, shape, s, k, r);
    }
  }

  ghost predicate DropGatherAt(a: Nd, shape: seq<nat>, s: seq<seq<int>>, k: nat, r: nat, i: nat)
    requires HasShape(a, shape) && Fits(shape, s) && 0 < k < |s| && r < |s[k]| && i < |s[0]|
  {
    var x := a.items[s[0][i]];
    && Fits(shape[1..], s[1..]) && s[k][r] < shape[k] && Fits(Without(shape[1..], k - 1), Without(s[1..], k - 1))
    && DropAxis(Gather(x, shape[1..], s[1..]), Lengths(s[1..]), k - 1, r) == Gather(DropAxis(x, shape[1..], k - 1, s[k][r]), Without(shape[1..], k - 1), Without(s[1..], k - 1))
  }

  lemma DropGatherStep(a: Nd, shape: seq<nat>, s: seq<seq<int>>, k: nat, r: nat)
    requires HasShape(a, shape) && Fits(shape, s) && 0 < k < |s| && r < |s[k]|
    requires s[k][r] < shape[k] && Fits(Without(shape, k), Without(s, k))
    requires forall i :: 0 <= i < |s[0]| ==> DropGatherAt(a, shape, s, k, r, i)
    ensures DropAxis(Gather(a, shape, s), Lengths(s), k, r) == Gather(DropAxis(a, shape, k, s[k][r]), Without(shape, k), Without(s, k))
  {
    assert Lengths(s)[1..] == Lengths(s[1..]);
    WithoutTail(s, k);
    WithoutTail(shape, k);
    FitsTail(shape, s);
    hide Without, Lengths, HasShape, Fits;
    var l, q := DropAxis(Gather(a, shape, s), Lengths(s), k, r), Gather(DropAxis(a, shape, k, s[k][r]), Without(shape, k), Without(s, k));
    forall i | 0 <= i < |s[0]|
      ensures l.items[i] == q.items[i]
    {
      assert DropGatherAt(a, shape, s, k, r, i);
    }
    assert l.items == q.items;
  }

  lemma InsertFits(shape: seq<nat>, s: seq<seq<int>>, k: nat)
    requires Fits(shape, s) && k <= |s|
    ensures Fits(Insert(shape, k, 2), Insert(s, k, Whole(2))) && Lengths(Insert(s, k, Whole(2))) == Insert(Lengths(s), k, 2)
  {
  }

  /** Stacking commutes with gathering. */
  lemma {:induction false} StackGather(a: Nd, b: Nd, shape: seq<nat>, s: seq<seq<int>>, k: nat)
    requires HasShape(a, shape) && HasShape(b, shape) && Fits(shape, s) && k <= |s|
    ensures Fits(Insert(shape, k, 2), Insert(s, k, Whole(2)))
    ensures Gather(Stack2(a, b, shape, k), Insert(shape, k, 2), Insert(s, k, Whole(2)))
         == Stack2(Gather(a, shape, s), Gather(b, shape, s), Lengths(s), k)
    decreases |shape|
  {
    InsertFits(shape, s, k);
    if k == 0 {
      assert Insert(shape, 0, 2)[1..] == shape;
      assert Insert(s, 0, Whole(2))[1..] == s;
      var l, r := Gather(Stack2(a, b, shape, k), Insert(shape, k, 2), Insert(s, k, Whole(2))), Stack2(Gather(a, shape, s), Gather(b, shape, s), Lengths(s), k);
      assert l.items == r.items;
    } else {
      FitsTail(shape, s);
      forall i | 0 <= i < |s[0]|
        ensures StackGatherAt(a, b, shape, s, k, i)
      {
        StackGather(a.items[s[0][i]], b.items[s[0][i]], shape[1..], s[1..], k - 1);
      }
      StackGatherStep(a, b, shape, s, k);
    }
  }

  ghost predicate StackGatherAt(a: Nd, b: Nd, shape: seq<nat>, s: seq<seq<int>>, k: nat, i: nat)
    requires HasShape(a, shape) && HasShape(b, shape) && Fits(shape, s) && 0 < k <= |s| && i < |s[0]|
  {
    var x, y := a.items[s[0][i]], b.items[s[0][i]];
    && Fits(shape[1..], s[1..])
    && Fits(Insert(shape[1..], k - 1, 2), Insert(s[1..], k - 1, Whole(2)))
    && Gather(Stack2(x, y, shape[1..], k - 1), Insert(shape[1..], k - 1, 2), Insert(s[1..], k - 1, Whole(2)))
       == Stack2(Gather(x, shape[1..], s[1..]), Gather(y, shape[1..], s[1..]), Lengths(s[1..]), k - 1)
  }

  lemma StackGatherStep(a: Nd, b: Nd, shape: seq<nat>, s: seq<seq<int>>, k: nat)
    requires HasShape(a, shape) && HasShape(b, shape) && Fits(shape, s) && 0 < k <= |s|
    requires forall i :: 0 <= i < |s[0]| ==> StackGatherAt(a, b, shape, s, k, i)
    requires Fits(Insert(shape, k, 2), Insert(s, k, Whole(2)))
    ensures Gather(Stack2(a, b, shape, k), Insert(shape, k, 2), Insert(s, k, Whole(2)))
         == Stack2(Gather(a, shape, s), Gather(b, shape, s), Lengths(s), k)
  {
    assert Lengths(s)[1..] == Lengths(s[1..]);
    FitsTail(shape, s);
    hide Insert, Lengths, HasShape, Fits;
    InsertTail(shape, k, 2);
    InsertTail(s, k, Whole(2));
    var l, r := Gather(Stack2(a, b, shape, k), Insert(shape, k, 2), Insert(s, k, Whole(2))), Stack2(Gather(a, shape, s), Gather(b, shape, s), Lengths(s), k);
    forall i | 0 <= i < |s[0]|
      ensures l.items[i] == r.items[i]
    {
      assert StackGatherAt(a, b, shape, s, k, i);
    }
    assert l.items == r.items;
  }

  /** The two entries of a stack are what was stacked. */
  lemma {:induction false} DropStack(a: Nd, b: Nd, shape: seq<nat>, k: nat)
    requires HasShape(a, shape) && HasShape(b, shape) && k <= |shape|
    ensures Insert(shape, k, 2)[k] == 2
    ensures DropAxis(Stack2(a, b, shape, k), Insert(shape, k, 2), k, 0) == a
    ensures DropAxis(Stack2(a, b, shape, k), Insert(shape, k, 2), k, 1) == b
    decreases |shape|
  {
    if k > 0 {
      InsertTail(shape, k, 2);
      var st := Stack2(a, b, shape, k);
      forall i | 0 <= i < |a.items|
        ensures DropAxis(st, Insert(shape, k, 2), k, 0).items[i] == a.items[i]
        ensures DropAxis(st, Insert(shape, k, 2), k, 1).items[i] == b.items[i]
      {
        DropStack(a.items[i], b.items[i], shape[1..], k - 1);
      }
      assert DropAxis(st, Insert(shape, k, 2), k, 0).items == a.items;
      assert DropAxis(st, Insert(shape, k, 2), k, 1).items == b.items;
    }
  }
}
