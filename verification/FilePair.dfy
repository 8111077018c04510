/** An ordered pair of decoded files, oldest first: the two-entry buffer a provider and a
    group's workers both keep. */
module FilePair {
  import opened NativeData

  predicate Keeps(lru: seq<(int, Dataset)>, fa: int) {
    exists i :: 0 <= i < |lru| && lru[i].0 == fa
  }

  function Kept(lru: seq<(int, Dataset)>, fa: int): (ds: Dataset)
    requires Keeps(lru, fa)
    ensures (fa, ds) in lru
  {
    if lru[0].0 == fa then lru[0].1 else Kept(lru[1..], fa)
  }

  /** The buffer without `fa`. */
  function Others(lru: seq<(int, Dataset)>, fa: int): (r: seq<(int, Dataset)>)
    ensures |r| <= |lru|
    ensures forall e :: e in r <==> e in lru && e.0 != fa
    ensures Keeps(lru, fa) ==> |r| < |lru|
  {
    if lru == [] then []
    else if lru[0].0 == fa then Others(lru[1..], fa)
    else
      var r := [lru[0]] + Others(lru[1..], fa);
      assert Keeps(lru, fa) ==> Keeps(lru[1..], fa) by { if Keeps(lru, fa) { var i :| 0 <= i < |lru| && lru[i].0 == fa; assert lru[1..][i - 1].0 == fa; } }
      r
  }

  /** The newest two. */
  function Newest(lru: seq<(int, Dataset)>): seq<(int, Dataset)> {
    if |lru| <= 2 then lru else lru[|lru| - 2..]
  }

  lemma SameKept(lru: seq<(int, Dataset)>, o: seq<(int, Dataset)>, r: seq<(int, Dataset)>, fa: int, x: int)
    requires Keeps(lru, fa) && |r| == |o| + 1 && r[..|o|] == o && r[|o|].0 == fa && forall e :: e in o <==> e in lru && e.0 != fa
    ensures Keeps(r, x) <==> Keeps(lru, x)
  {
    if Keeps(lru, x) && x != fa {
      var i :| 0 <= i < |lru| && lru[i].0 == x;
      assert lru[i] in o;
      var j :| 0 <= j < |o| && o[j] == lru[i];
      assert r[j] == o[j];
    }
    if Keeps(r, x) && x != fa {
      var i :| 0 <= i < |r| && r[i].0 == x;
      assert r[i] == o[i] && o[i] in lru;
    }
  }

  /** At most two files, under different anchors. */
  predicate Ordered(lru: seq<(int, Dataset)>) {
    |lru| <= 2 && forall i, j :: 0 <= i < j < |lru| ==> lru[i].0 != lru[j].0
  }

  /** A hit moves the file to the newest place and changes nothing else. */
  lemma HitKeeps(lru: seq<(int, Dataset)>, fa: int)
    requires Ordered(lru) && Keeps(lru, fa)
    ensures var r := Others(lru, fa) + [(fa, Kept(lru, fa))];
            Ordered(r) && r[|r| - 1].0 == fa && (forall x :: Keeps(r, x) <==> Keeps(lru, x)) && (forall e :: e in r ==> e in lru)
  {
    var o := Others(lru, fa);
    var r := o + [(fa, Kept(lru, fa))];
    hide Kept, Others;
    forall i | 0 <= i < |o|
      ensures o[i].0 != fa
    {
      assert o[i] in o;
    }
    forall x
      ensures Keeps(r, x) <==> Keeps(lru, x)
    {
      SameKept(lru, o, r, fa, x);
    }
  }

  /** A new file becomes the newest, and the oldest beyond two is dropped. */
  lemma MissKeeps(lru: seq<(int, Dataset)>, e: (int, Dataset))
    requires Ordered(lru) && !Keeps(lru, e.0)
    ensures var r := Newest(lru + [e]);
            Ordered(r) && r[|r| - 1] == e && (forall x :: Keeps(r, x) ==> Keeps(lru, x) || x == e.0) && (forall d :: d in r ==> d in lru || d == e)
  {
    var r := Newest(lru + [e]);
    forall x | Keeps(r, x)
      ensures Keeps(lru, x) || x == e.0
    {
      var i :| 0 <= i < |r| && r[i].0 == x;
      if x != e.0 { assert lru[i + |lru| + 1 - |r|] == r[i]; }
    }
  }
}
