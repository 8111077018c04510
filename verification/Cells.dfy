/** Arrays cell by cell: what each operation on whole arrays puts at every index. */
module Cells {
  import opened NativeData
  import opened Arrays

  type Index = seq<nat>

  predicate Inside(ix: Index, shape: seq<nat>) {
    |ix| == |shape| && forall k :: 0 <= k < |ix| ==> ix[k] < shape[k]
  }

  /** The cell at an index, one entry per axis. */
  function At(a: Nd, shape: seq<nat>, ix: Index): Cell
    requires HasShape(a, shape) && Inside(ix, shape)
    decreases |shape|
  {
    if shape == [] then a.cell else At(a.items[ix[0]], shape[1..], ix[1..])
  }

  /** An array is its cells. */
  lemma {:induction false} SameCells(a: Nd, b: Nd, shape: seq<nat>)
    requires HasShape(a, shape) && HasShape(b, shape)
    requires forall ix :: Inside(ix, shape) ==> At(a, shape, ix) == At(b, shape, ix)
    ensures a == b
    decreases |shape|
  {
    if shape == [] {
      assert At(a, shape, []) == At(b, shape, []);
    } else {
      forall i | 0 <= i < |a.items|
        ensures a.items[i] == b.items[i]
      {
        forall ix | Inside(ix, shape[1..])
          ensures At(a.items[i], shape[1..], ix) == At(b.items[i], shape[1..], ix)
        {
          var jx := [i as nat] + ix;
          assert jx[1..] == ix;
          assert Inside(jx, shape);
          assert At(a, shape, jx) == At(b, shape, jx);
        }
        SameCells(a.items[i], b.items[i], shape[1..]);
      }
      assert a.items == b.items;
    }
  }

  /** The index a gathered cell comes from: per axis, the entry of its list. */
  function Picked(sel: seq<seq<int>>, shape: seq<nat>, ix: Index): (r: Index)
    requires Fits(shape, sel) && Inside(ix, Lengths(sel))
    ensures Inside(r, shape) && forall k :: 0 <= k < |r| ==> r[k] == sel[k][ix[k]]
  {
    assert forall k :: 0 <= k < |sel| ==> Within(sel[k], shape[k]);
    seq(|sel|, k requires 0 <= k < |sel| => sel[k][ix[k]])
  }

  lemma {:induction false} GatherAt(a: Nd, shape: seq<nat>, sel: seq<seq<int>>, ix: Index)
    requires HasShape(a, shape) && Fits(shape, sel) && Inside(ix, Lengths(sel))
    ensures At(Gather(a, shape, sel), Lengths(sel), ix) == At(a, shape, Picked(sel, shape, ix))
    decreases |shape|
  {
    if shape != [] {
      FitsTail(shape, sel);
      assert Lengths(sel)[1..] == Lengths(sel[1..]);
      GatherAt(a.items[sel[0][ix[0]]], shape[1..], sel[1..], ix[1..]);
      assert Picked(sel, shape, ix)[1..] == Picked(sel[1..], shape[1..], ix[1..]);
    }
  }

  lemma {:induction false} TakeAt(a: Nd, shape: seq<nat>, k: nat, idx: seq<int>, ix: Index)
    requires HasShape(a, shape) && k < |shape| && Within(idx, shape[k]) && Inside(ix, shape[k := |idx|])
    ensures Inside(ix[k := idx[ix[k]]], shape)
    ensures At(TakeAxis(a, shape, k, idx), shape[k := |idx|], ix) == At(a, shape, ix[k := idx[ix[k]]])
    decreases |shape|
  {
    if k > 0 {
      assert shape[k := |idx|][1..] == shape[1..][k - 1 := |idx|];
      TakeAt(a.items[ix[0]], shape[1..], k - 1, idx, ix[1..]);
      assert ix[k := idx[ix[k]]][1..] == ix[1..][k - 1 := idx[ix[k]]];
    } else {
      assert shape[0 := |idx|][1..] == shape[1..];
      assert ix[0 := idx[ix[0]]][1..] == ix[1..];
    }
  }

  lemma {:induction false} DropAt(a: Nd, shape: seq<nat>, k: nat, r: nat, ix: Index)
    requires HasShape(a, shape) && k < |shape| && r < shape[k] && Inside(ix, Without(shape, k))
    ensures Inside(Insert(ix, k, r), shape)
    ensures At(DropAxis(a, shape, k, r), Without(shape, k), ix) == At(a, shape, Insert(ix, k, r))
    decreases |shape|
  {
    if k > 0 {
      WithoutTail(shape, k);
      InsertTail(ix, k, r);
      DropAt(a.items[ix[0]], shape[1..], k - 1, r, ix[1..]);
    } else {
      assert Without(shape, 0) == shape[1..];
      assert Insert(ix, 0, r)[1..] == ix;
    }
  }

  lemma {:induction false} StackAt(a: Nd, b: Nd, shape: seq<nat>, k: nat, ix: Index)
    requires HasShape(a, shape) && HasShape(b, shape) && k <= |shape| && Inside(ix, Insert(shape, k, 2))
    ensures Inside(Without(ix, k), shape)
    ensures At(Stack2(a, b, shape, k), Insert(shape, k, 2), ix) == At(if ix[k] == 0 then a else b, shape, Without(ix, k))
    decreases |shape|
  {
    if k > 0 {
      InsertTail(shape, k, 2);
      WithoutTail(ix, k);
      StackAt(a.items[ix[0]], b.items[ix[0]], shape[1..], k - 1, ix[1..]);
    } else {
      assert Insert(shape, 0, 2)[1..] == shape;
      assert Without(ix, 0) == ix[1..];
    }
  }
}
