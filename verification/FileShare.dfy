/** The decoded files a group's workers share: one decode of a file at a time, awaited by
    everyone else who wants it. Each step is one critical section, or one thread's move
    between two of them. */
module FileShare {
  import opened Wrappers
  import opened NativeData
  import opened FilePair

  /** One decode in progress or finished: its file, its outcome, and whether the waiters have
      been woken. */
  datatype Pend = Pend(anchor: int, outcome: Option<Result<Dataset, Error>>, woken: bool)

  datatype Share = Share(done: seq<(int, Dataset)>, pending: map<int, nat>, pends: seq<Pend>)

  /** What a caller finds when it takes the lock. */
  datatype Admission = Hit(dataset: Dataset) | Wait(id: nat) | Own(id: nat)

  function Enter(s: Share, fa: int): (Share, Admission) {
    if Keeps(s.done, fa) then
      var ds := Kept(s.done, fa);
      (s.(done := Others(s.done, fa) + [(fa, ds)]), Hit(ds))
    else if fa in s.pending then (s, Wait(s.pending[fa]))
    else (s.(pending := s.pending[fa := |s.pends|], pends := s.pends + [Pend(fa, None, false)]), Own(|s.pends|))
  }

  function Record(s: Share, id: nat, outcome: Result<Dataset, Error>): Share
    requires id < |s.pends|
  {
    s.(pends := s.pends[id := s.pends[id].(outcome := Some(outcome))])
  }

  /** The owner's last critical section: no longer pending; kept only if it succeeded. */
  function Publish(s: Share, fa: int, outcome: Result<Dataset, Error>): Share {
    s.(pending := s.pending - {fa},
       done := if outcome.Ok? then Newest((if Keeps(s.done, fa) then s.done else s.done + [(fa, outcome.value)])) else s.done)
  }

  function Wake(s: Share, id: nat): Share
    requires id < |s.pends|
  {
    s.(pends := s.pends[id := s.pends[id].(woken := true)])
  }

  function Clear(s: Share): Share {
    s.(done := [])
  }

  // ---- callers -------------------------------------------------------------------------------

  /** Where one caller of `files(fa)` is. */
  datatype Caller =
    | Outside
    | Waiting(fa: int, id: nat)
    | Decoding(fa: int, id: nat)
    | Decoded(fa: int, id: nat)
    | Published(fa: int, id: nat)
    | Returned(fa: int, result: Result<Dataset, Error>)
  {
    /** It owns a decode that has not been published. */
    predicate Owns() { Decoding? || Decoded? }
  }

  datatype System = System(share: Share, callers: seq<Caller>)

  datatype Move =
    | Call(i: nat, fa: int)
    | Finish(i: nat, outcome: Result<Dataset, Error>)
    | Put(i: nat)
    | Signal(i: nat)
    | Resume(i: nat)
    | Drop

  /** A move some thread can make: a new call, a decode ending (in the file's own decode, or
      in an error), the owner's last section, its wake-up, a waiter going on, a clear. */
  ghost predicate CanMove(decode: int -> Dataset, s: System, m: Move) {
    match m
    case Call(i, fa) => i < |s.callers| && (s.callers[i].Outside? || s.callers[i].Returned?)
    case Finish(i, outcome) => i < |s.callers| && s.callers[i].Decoding? && s.callers[i].id < |s.share.pends| && (outcome.Ok? ==> outcome.value == decode(s.callers[i].fa))
    case Put(i) => i < |s.callers| && s.callers[i].Decoded? && s.callers[i].id < |s.share.pends| && s.share.pends[s.callers[i].id].outcome.Some?
    case Signal(i) => i < |s.callers| && s.callers[i].Published? && s.callers[i].id < |s.share.pends| && s.share.pends[s.callers[i].id].outcome.Some?
    case Resume(i) => i < |s.callers| && s.callers[i].Waiting? && s.callers[i].id < |s.share.pends| && s.share.pends[s.callers[i].id].woken && s.share.pends[s.callers[i].id].outcome.Some?
    case Drop => true
  }

  ghost function Moved(decode: int -> Dataset, s: System, m: Move): System
    requires CanMove(decode, s, m)
  {
    match m
    case Call(i, fa) =>
      var (share, a) := Enter(s.share, fa);
      System(share, s.callers[i := match a
                                   case Hit(ds) => Returned(fa, Ok(ds))
                                   case Wait(id) => Waiting(fa, id)
                                   case Own(id) => Decoding(fa, id)])
    case Finish(i, outcome) =>
      var c := s.callers[i];
      System(Record(s.share, c.id, outcome), s.callers[i := Decoded(c.fa, c.id)])
    case Put(i) =>
      var c := s.callers[i];
      System(Publish(s.share, c.fa, s.share.pends[c.id].outcome.value), s.callers[i := Published(c.fa, c.id)])
    case Signal(i) =>
      var c := s.callers[i];
      System(Wake(s.share, c.id), s.callers[i := Returned(c.fa, s.share.pends[c.id].outcome.value)])
    case Resume(i) =>
      var c := s.callers[i];
      s.(callers := s.callers[i := Returned(c.fa, s.share.pends[c.id].outcome.value)])
    case Drop => s.(share := Clear(s.share))
  }

  // ---- what every run keeps ----------------------------------------------------------------------

  /** A decode's outcome is the file's decode, or an error of decoding that file. */
  ghost predicate GoodPend(decode: int -> Dataset, p: Pend) {
    (p.outcome.Some? && p.outcome.value.Ok? ==> p.outcome.value.value == decode(p.anchor)) && (p.woken ==> p.outcome.Some?)
  }

  /** A caller is where its decode is. */
  ghost predicate GoodCaller(decode: int -> Dataset, s: System, i: nat)
    requires i < |s.callers|
  {
    var c, pends := s.callers[i], s.share.pends;
    match c
    case Outside => true
    case Returned(fa, r) => (r.Ok? ==> r.value == decode(fa)) && (r.Err? ==> exists id :: 0 <= id < |pends| && pends[id].anchor == fa && pends[id].outcome == Some(r))
    case _ =>
      && c.id < |pends| && pends[c.id].anchor == c.fa
      && (c.Owns() ==> c.fa in s.share.pending && s.share.pending[c.fa] == c.id && !pends[c.id].woken)
      && (c.Decoding? ==> pends[c.id].outcome.None?)
      && (c.Decoded? || c.Published? ==> pends[c.id].outcome.Some? && !pends[c.id].woken)
  }

  /** Someone is working on decode `id`: it has an owner, or its owner has yet to wake the
      waiters. */
  ghost predicate Attended(s: System, id: nat) {
    exists j :: 0 <= j < |s.callers| && (s.callers[j].Owns() || s.callers[j].Published?) && s.callers[j].id == id
  }

  /** Someone holds decode `id` unpublished. */
  ghost predicate Owned(s: System, id: nat) {
    exists j :: 0 <= j < |s.callers| && s.callers[j].Owns() && s.callers[j].id == id
  }

  ghost predicate GoodShare(decode: int -> Dataset, s: System) {
    && Ordered(s.share.done)
    && (forall e :: e in s.share.done ==> e.1 == decode(e.0) && e.0 !in s.share.pending)
    && (forall id :: 0 <= id < |s.share.pends| ==> GoodPend(decode, s.share.pends[id]))
    && (forall fa :: fa in s.share.pending ==> s.share.pending[fa] < |s.share.pends| && s.share.pends[s.share.pending[fa]].anchor == fa && Owned(s, s.share.pending[fa]))
  }

  /** Every decode not yet woken has one thread that will finish it, and only one. */
  ghost predicate Inv(decode: int -> Dataset, s: System) {
    && GoodShare(decode, s)
    && (forall i :: 0 <= i < |s.callers| ==> GoodCaller(decode, s, i))
    && (forall id :: 0 <= id < |s.share.pends| && !s.share.pends[id].woken ==> Attended(s, id))
    && (forall i, j :: 0 <= i < j < |s.callers| && (s.callers[i].Owns() || s.callers[i].Published?) && (s.callers[j].Owns() || s.callers[j].Published?) ==> s.callers[i].id != s.callers[j].id)
  }

  // ---- one step ------------------------------------------------------------------------------------

  /** What a step by caller `i` leaves of the other callers and of the decodes they watch. */
  ghost predicate OthersSafe(s: System, s1: System, i: nat) {
    && |s1.callers| == |s.callers| && i < |s.callers|
    && (forall j :: 0 <= j < |s.callers| && j != i ==> s1.callers[j] == s.callers[j])
    && |s.share.pends| <= |s1.share.pends|
    && (forall id :: 0 <= id < |s.share.pends| ==> s1.share.pends[id].anchor == s.share.pends[id].anchor)
    && (forall id :: 0 <= id < |s.share.pends| && s.share.pends[id].outcome.Some? ==> s1.share.pends[id].outcome == s.share.pends[id].outcome)
  }

  /** Another caller `j` stays good when the decode it owns, or has published, is untouched. */
  lemma OtherStaysGood(decode: int -> Dataset, s: System, s1: System, i: nat, j: nat)
    requires OthersSafe(s, s1, i) && j < |s.callers| && j != i && GoodCaller(decode, s, j)
    requires (s.callers[j].Owns() || s.callers[j].Published?) && s.callers[j].id < |s.share.pends| ==> s1.share.pends[s.callers[j].id] == s.share.pends[s.callers[j].id]
    requires s.callers[j].Owns() && s.callers[j].fa in s.share.pending ==> s.callers[j].fa in s1.share.pending && s1.share.pending[s.callers[j].fa] == s.share.pending[s.callers[j].fa]
    ensures GoodCaller(decode, s1, j)
  {
    if s.callers[j].Returned? && s.callers[j].result.Err? {
      var id :| 0 <= id < |s.share.pends| && s.share.pends[id].anchor == s.callers[j].fa && s.share.pends[id].outcome == Some(s.callers[j].result);
      assert s1.share.pends[id].anchor == s.callers[j].fa && s1.share.pends[id].outcome == Some(s.callers[j].result);
    }
  }

  lemma StillOwned(s: System, s1: System, i: nat, id: nat)
    requires OthersSafe(s, s1, i) && Owned(s, id)
    requires s.callers[i].Owns() && s.callers[i].id == id ==> s1.callers[i].Owns() && s1.callers[i].id == id
    ensures Owned(s1, id)
  {
    var j :| 0 <= j < |s.callers| && s.callers[j].Owns() && s.callers[j].id == id;
    assert s1.callers[j].Owns() && s1.callers[j].id == id;
  }

  lemma StillAttended(s: System, s1: System, i: nat, id: nat)
    requires OthersSafe(s, s1, i) && Attended(s, id)
    requires (s.callers[i].Owns() || s.callers[i].Published?) && s.callers[i].id == id ==> (s1.callers[i].Owns() || s1.callers[i].Published?) && s1.callers[i].id == id
    ensures Attended(s1, id)
  {
    var j :| 0 <= j < |s.callers| && (s.callers[j].Owns() || s.callers[j].Published?) && s.callers[j].id == id;
    assert (s1.callers[j].Owns() || s1.callers[j].Published?) && s1.callers[j].id == id;
  }

  lemma NotKept(done: seq<(int, Dataset)>, fa: int)
    requires !Keeps(done, fa)
    ensures forall e :: e in done ==> e.0 != fa
  {
  }

  /** Looking a file up keeps the shared state good; a new decode is owned by its caller. */
  lemma EnterKeepsShare(decode: int -> Dataset, s: System, s1: System, i: nat, fa: int)
    requires GoodShare(decode, s) && OthersSafe(s, s1, i) && s1.share == Enter(s.share, fa).0
    requires forall id :: Owned(s, id) ==> Owned(s1, id)
    requires !Keeps(s.share.done, fa) && fa !in s.share.pending ==> Owned(s1, |s.share.pends|)
    ensures GoodShare(decode, s1)
  {
    if Keeps(s.share.done, fa) {
      HitKeeps(s.share.done, fa);
    } else {
      NotKept(s.share.done, fa);
    }
    hide Keeps, Kept, Others, Owned, Ordered;
  }

  lemma CallKeepsInv(decode: int -> Dataset, s: System, i: nat, fa: int)
    requires Inv(decode, s) && CanMove(decode, s, Call(i, fa))
    ensures Inv(decode, Moved(decode, s, Call(i, fa)))
  {
    var s1 := Moved(decode, s, Call(i, fa));
    assert OthersSafe(s, s1, i);
    hide Keeps, Kept, Others, Ordered;
    forall id | Owned(s, id)
      ensures Owned(s1, id)
    {
      StillOwned(s, s1, i, id);
    }
    forall id | Attended(s, id)
      ensures Attended(s1, id)
    {
      StillAttended(s, s1, i, id);
    }
    if s1.callers[i].Decoding? {
      assert s1.callers[i].Owns() && s1.callers[i].id == |s.share.pends|;
      assert Owned(s1, |s.share.pends|) && Attended(s1, |s.share.pends|);
    }
    hide Owned, Attended;
    EnterKeepsShare(decode, s, s1, i, fa);
    forall j | 0 <= j < |s.callers| && j != i
      ensures GoodCaller(decode, s1, j)
    {
      OtherStaysGood(decode, s, s1, i, j);
    }
    forall j | 0 <= j < |s.callers| && (s.callers[j].Owns() || s.callers[j].Published?)
      ensures s.callers[j].id < |s.share.pends|
    {
      assert GoodCaller(decode, s, j);
    }
    EnteredIsGood(decode, s, i, fa);
  }

  lemma EnteredIsGood(decode: int -> Dataset, s: System, i: nat, fa: int)
    requires GoodShare(decode, s) && CanMove(decode, s, Call(i, fa))
    ensures GoodCaller(decode, Moved(decode, s, Call(i, fa)), i)
  {
    hide Keeps, Others, Owned, Ordered;
  }

  lemma FinishKeepsInv(decode: int -> Dataset, s: System, i: nat, outcome: Result<Dataset, Error>)
    requires Inv(decode, s) && CanMove(decode, s, Finish(i, outcome))
    ensures Inv(decode, Moved(decode, s, Finish(i, outcome)))
  {
    hide Ordered;
    var s1, c := Moved(decode, s, Finish(i, outcome)), s.callers[i];
    assert GoodCaller(decode, s, i);
    assert OthersSafe(s, s1, i);
    forall id | Owned(s, id)
      ensures Owned(s1, id)
    {
      StillOwned(s, s1, i, id);
    }
    forall id | Attended(s, id)
      ensures Attended(s1, id)
    {
      StillAttended(s, s1, i, id);
    }
    hide Owned, Attended;
    forall j | 0 <= j < |s.callers| && j != i
      ensures GoodCaller(decode, s1, j)
    {
      OtherStaysGood(decode, s, s1, i, j);
    }
  }

  lemma PublishKeepsDone(decode: int -> Dataset, share: Share, fa: int, outcome: Result<Dataset, Error>)
    requires Ordered(share.done) && (forall e :: e in share.done ==> e.1 == decode(e.0) && e.0 !in share.pending) && fa in share.pending
    requires outcome.Ok? ==> outcome.value == decode(fa)
    ensures var s1 := Publish(share, fa, outcome);
            Ordered(s1.done) && (forall e :: e in s1.done ==> e.1 == decode(e.0) && e.0 !in s1.pending)
            && (outcome.Ok? ==> Keeps(s1.done, fa)) && (outcome.Err? ==> s1.done == share.done)
  {
    forall k | 0 <= k < |share.done|
      ensures share.done[k].0 != fa
    {
      assert share.done[k] in share.done;
    }
    if outcome.Ok? { MissKeeps(share.done, (fa, outcome.value)); }
  }

  lemma PutKeepsInv(decode: int -> Dataset, s: System, i: nat)
    requires Inv(decode, s) && CanMove(decode, s, Put(i))
    ensures Inv(decode, Moved(decode, s, Put(i)))
  {
    hide Ordered, Keeps, Publish, Owned, Attended;
    var s1, c := Moved(decode, s, Put(i)), s.callers[i];
    assert GoodCaller(decode, s, i);
    PublishFrame(s.share, c.fa, s.share.pends[c.id].outcome.value);
    assert OthersSafe(s, s1, i);
    PutKeepsShare(decode, s, i);
    forall id | Attended(s, id)
      ensures Attended(s1, id)
    {
      StillAttended(s, s1, i, id);
    }
    forall j | 0 <= j < |s.callers| && j != i
      ensures GoodCaller(decode, s1, j)
    {
      if s.callers[j].Owns() { assert GoodCaller(decode, s, j); }
      OtherStaysGood(decode, s, s1, i, j);
    }
    hide GoodShare;
    assert GoodCaller(decode, s1, i);
  }

  lemma PublishFrame(share: Share, fa: int, outcome: Result<Dataset, Error>)
    ensures var s1 := Publish(share, fa, outcome); s1.pending == share.pending - {fa} && s1.pends == share.pends
  {
    hide Keeps;
  }

  lemma PutKeepsShare(decode: int -> Dataset, s: System, i: nat)
    requires Inv(decode, s) && CanMove(decode, s, Put(i))
    ensures GoodShare(decode, Moved(decode, s, Put(i)))
  {
    hide Ordered, Keeps, Publish, Owned, Attended;
    var s1, c := Moved(decode, s, Put(i)), s.callers[i];
    assert GoodCaller(decode, s, i);
    PublishFrame(s.share, c.fa, s.share.pends[c.id].outcome.value);
    PublishKeepsDone(decode, s.share, c.fa, s.share.pends[c.id].outcome.value);
    assert OthersSafe(s, s1, i);
    hide GoodCaller;
    forall id | Owned(s, id) && id != c.id
      ensures Owned(s1, id)
    {
      StillOwned(s, s1, i, id);
    }
  }

  lemma SignalKeepsInv(decode: int -> Dataset, s: System, i: nat)
    requires Inv(decode, s) && CanMove(decode, s, Signal(i))
    ensures Inv(decode, Moved(decode, s, Signal(i)))
  {
    hide Ordered, Keeps;
    var s1, c := Moved(decode, s, Signal(i)), s.callers[i];
    assert GoodCaller(decode, s, i);
    assert OthersSafe(s, s1, i);
    forall id | Attended(s, id) && id != c.id
      ensures Attended(s1, id)
    {
      StillAttended(s, s1, i, id);
    }
    forall id | Owned(s, id)
      ensures Owned(s1, id)
    {
      StillOwned(s, s1, i, id);
    }
    hide Owned, Attended;
    forall j | 0 <= j < |s.callers| && j != i
      ensures GoodCaller(decode, s1, j)
    {
      OtherStaysGood(decode, s, s1, i, j);
    }
    assert s1.share.pends[c.id].anchor == c.fa && s1.share.pends[c.id].outcome == Some(s1.callers[i].result);
  }

  lemma ResumeKeepsInv(decode: int -> Dataset, s: System, i: nat)
    requires Inv(decode, s) && CanMove(decode, s, Resume(i))
    ensures Inv(decode, Moved(decode, s, Resume(i)))
  {
    hide Ordered, Keeps;
    var s1, c := Moved(decode, s, Resume(i)), s.callers[i];
    assert GoodCaller(decode, s, i);
    assert OthersSafe(s, s1, i);
    forall id | Attended(s, id)
      ensures Attended(s1, id)
    {
      StillAttended(s, s1, i, id);
    }
    forall id | Owned(s, id)
      ensures Owned(s1, id)
    {
      StillOwned(s, s1, i, id);
    }
    hide Owned, Attended;
    forall j | 0 <= j < |s.callers| && j != i
      ensures GoodCaller(decode, s1, j)
    {
      OtherStaysGood(decode, s, s1, i, j);
    }
    assert s1.share.pends[c.id].anchor == c.fa && s1.share.pends[c.id].outcome == Some(s1.callers[i].result);
  }

  lemma DropKeepsInv(decode: int -> Dataset, s: System)
    requires Inv(decode, s)
    ensures Inv(decode, Moved(decode, s, Drop))
  {
    var s1 := Moved(decode, s, Drop);
    forall id | Owned(s, id)
      ensures Owned(s1, id)
    {
      var j :| 0 <= j < |s.callers| && s.callers[j].Owns() && s.callers[j].id == id;
      assert s1.callers[j].Owns() && s1.callers[j].id == id;
    }
    forall id | Attended(s, id)
      ensures Attended(s1, id)
    {
      var j :| 0 <= j < |s.callers| && (s.callers[j].Owns() || s.callers[j].Published?) && s.callers[j].id == id;
      assert (s1.callers[j].Owns() || s1.callers[j].Published?) && s1.callers[j].id == id;
    }
    hide Owned, Attended;
    forall j | 0 <= j < |s.callers|
      ensures GoodCaller(decode, s1, j)
    {
      assert GoodCaller(decode, s, j);
    }
  }

  lemma MoveKeepsInv(decode: int -> Dataset, s: System, m: Move)
    requires Inv(decode, s) && CanMove(decode, s, m)
    ensures Inv(decode, Moved(decode, s, m)) && |Moved(decode, s, m).callers| == |s.callers|
  {
    hide Inv;
    match m
    case Call(i, fa) => CallKeepsInv(decode, s, i, fa);
    case Finish(i, outcome) => FinishKeepsInv(decode, s, i, outcome);
    case Put(i) => PutKeepsInv(decode, s, i);
    case Signal(i) => SignalKeepsInv(decode, s, i);
    case Resume(i) => ResumeKeepsInv(decode, s, i);
    case Drop => DropKeepsInv(decode, s);
  }

  ghost function Start(n: nat): System {
    System(Share([], map[], []), seq(n, i => Outside))
  }

  /** The state after a sequence of moves by `n` callers, if each is possible in its turn. */
  ghost function StateAfter(decode: int -> Dataset, n: nat, moves: seq<Move>): Option<System>
    decreases |moves|
  {
    if moves == [] then Some(Start(n))
    else match StateAfter(decode, n, moves[..|moves| - 1])
      case None => None
      case Some(before) =>
        if CanMove(decode, before, moves[|moves| - 1]) then Some(Moved(decode, before, moves[|moves| - 1])) else None
  }

  ghost predicate Run(decode: int -> Dataset, n: nat, moves: seq<Move>, s: System) {
    StateAfter(decode, n, moves) == Some(s)
  }

  lemma {:induction false} RunKeepsInv(decode: int -> Dataset, n: nat, moves: seq<Move>, s: System)
    requires Run(decode, n, moves, s)
    ensures Inv(decode, s) && |s.callers| == n
    decreases |moves|
  {
    if moves != [] {
      var before := StateAfter(decode, n, moves[..|moves| - 1]).value;
      RunKeepsInv(decode, n, moves[..|moves| - 1], before);
      hide Inv;
      MoveKeepsInv(decode, before, moves[|moves| - 1]);
    }
  }

  // ---- what every run gives ----------------------------------------------------------------------------

  /** At every moment of every run: at most one decode of a file is in flight; finished and
      pending files are disjoint; at most two finished files are kept, each the file's own
      decode; and whoever has returned has the file's decode, or the error of a decode of
      that file. */
  lemma ShareIsSafe(decode: int -> Dataset, n: nat, moves: seq<Move>, s: System)
    requires Run(decode, n, moves, s)
    ensures forall i, j :: 0 <= i < j < n && i < |s.callers| && j < |s.callers| && s.callers[i].Owns() && s.callers[j].Owns() ==> s.callers[i].fa != s.callers[j].fa
    ensures |s.share.done| <= 2 && (forall e :: e in s.share.done ==> e.1 == decode(e.0) && e.0 !in s.share.pending)
    ensures forall i :: 0 <= i < |s.callers| && s.callers[i].Returned? ==>
              match s.callers[i].result
              case Ok(ds) => ds == decode(s.callers[i].fa)
              case Err(e) => exists id :: 0 <= id < |s.share.pends| && s.share.pends[id].anchor == s.callers[i].fa && s.share.pends[id].outcome == Some(Err(e))
  {
    RunKeepsInv(decode, n, moves, s);
    hide Run, Owned, Attended;
    forall i | 0 <= i < |s.callers| && s.callers[i].Owns()
      ensures s.callers[i].fa in s.share.pending && s.share.pending[s.callers[i].fa] == s.callers[i].id
    {
      assert GoodCaller(decode, s, i);
    }
    forall i | 0 <= i < |s.callers| && s.callers[i].Returned?
      ensures GoodCaller(decode, s, i)
    {
    }
  }

  /** No set of waiters can block: whoever waits can go on at once, or waits for a decode
      whose owner is still decoding or can itself move on. */
  lemma NobodyIsStuck(decode: int -> Dataset, n: nat, moves: seq<Move>, s: System, i: nat)
    requires Run(decode, n, moves, s) && i < |s.callers| && s.callers[i].Waiting?
    ensures CanMove(decode, s, Resume(i)) ||
            exists j :: 0 <= j < |s.callers| && !s.callers[j].Outside? && !s.callers[j].Waiting? && !s.callers[j].Returned? && s.callers[j].id == s.callers[i].id
                        && (s.callers[j].Decoding? || CanMove(decode, s, Put(j)) || CanMove(decode, s, Signal(j)))
  {
    RunKeepsInv(decode, n, moves, s);
    hide Run, Owned;
    var id := s.callers[i].id;
    assert GoodCaller(decode, s, i);
    assert GoodPend(decode, s.share.pends[id]);
    if !s.share.pends[id].woken {
      assert Attended(s, id);
      var j :| 0 <= j < |s.callers| && (s.callers[j].Owns() || s.callers[j].Published?) && s.callers[j].id == id;
      assert GoodCaller(decode, s, j);
      assert s.callers[j].Decoding? || CanMove(decode, s, Put(j)) || CanMove(decode, s, Signal(j));
    }
  }

  /** The owner's three moves wake every waiter of its decode, each with that outcome. */
  lemma OwnerWakesWaiters(decode: int -> Dataset, n: nat, moves: seq<Move>, s: System, i: nat, j: nat, outcome: Result<Dataset, Error>)
    requires Run(decode, n, moves, s) && i < |s.callers| && j < |s.callers| && s.callers[i].Waiting? && s.callers[j].Decoding? && s.callers[i].id == s.callers[j].id
    requires outcome.Ok? ==> outcome.value == decode(s.callers[j].fa)
    ensures CanMove(decode, s, Finish(j, outcome))
    ensures var s1 := Moved(decode, s, Finish(j, outcome));
            CanMove(decode, s1, Put(j)) &&
            var s2 := Moved(decode, s1, Put(j));
            CanMove(decode, s2, Signal(j)) &&
            var s3 := Moved(decode, s2, Signal(j));
            s3.callers[j] == Returned(s.callers[j].fa, outcome) && CanMove(decode, s3, Resume(i))
            && Moved(decode, s3, Resume(i)).callers[i] == Returned(s.callers[i].fa, outcome)
  {
    RunKeepsInv(decode, n, moves, s);
    hide Run, Owned, Attended, Keeps, Newest, GoodShare;
    assert GoodCaller(decode, s, i) && GoodCaller(decode, s, j);
    hide Inv, GoodCaller;
    var id := s.callers[j].id;
    assert id < |s.share.pends|;
    var s1 := Moved(decode, s, Finish(j, outcome));
    assert s1.callers[j].Decoded? && s1.callers[j].id == id && s1.share.pends[id].outcome == Some(outcome) && s1.callers[i] == s.callers[i];
    var s2 := Moved(decode, s1, Put(j));
    assert s2.callers[j].Published? && s2.callers[j].id == id && s2.share.pends == s1.share.pends && s2.callers[i] == s.callers[i];
  }

  /** A failure is not remembered: once published, the next caller of that file decodes it. */
  lemma FailureIsForgotten(decode: int -> Dataset, n: nat, moves: seq<Move>, s: System, j: nat, i: nat)
    requires Run(decode, n, moves, s) && CanMove(decode, s, Put(j)) && s.share.pends[s.callers[j].id].outcome.value.Err?
    requires i < |s.callers| && i != j && CanMove(decode, s, Call(i, s.callers[j].fa))
    ensures var s1 := Moved(decode, s, Put(j));
            s1.share.done == s.share.done && CanMove(decode, s1, Call(i, s.callers[j].fa)) && Moved(decode, s1, Call(i, s.callers[j].fa)).callers[i].Decoding?
  {
    RunKeepsInv(decode, n, moves, s);
    hide Run, Owned, Attended;
    assert GoodCaller(decode, s, j);
    forall k | 0 <= k < |s.share.done|
      ensures s.share.done[k].0 != s.callers[j].fa
    {
      assert s.share.done[k] in s.share.done;
    }
  }

  /** A success is remembered: once published, the next caller of that file is served it at
      once, and the file used last before it is still kept beside it. */
  lemma SuccessIsShared(decode: int -> Dataset, n: nat, moves: seq<Move>, s: System, j: nat, i: nat)
    requires Run(decode, n, moves, s) && CanMove(decode, s, Put(j)) && s.share.pends[s.callers[j].id].outcome.value.Ok?
    requires i < |s.callers| && i != j && CanMove(decode, s, Call(i, s.callers[j].fa))
    ensures var s1, fa := Moved(decode, s, Put(j)), s.callers[j].fa;
            && CanMove(decode, s1, Call(i, fa)) && Moved(decode, s1, Call(i, fa)).callers[i] == Returned(fa, Ok(decode(fa)))
            && s1.share.done == (if |s.share.done| < 2 then s.share.done else s.share.done[|s.share.done| - 1..]) + [(fa, decode(fa))]
  {
    hide Run, Owned, Attended, Kept, Others, Keeps, Ordered, Newest, Publish, Inv;
    RunKeepsInv(decode, n, moves, s);
    var fa, s1 := s.callers[j].fa, Moved(decode, s, Put(j));
    OwnerIsPending(decode, s, j);
    PutKeepsInv(decode, s, j);
    PublishedIsLast(s.share, fa, decode(fa));
    KeptIsDecoded(decode, s1, fa);
  }

  /** What the owner of a finished decode knows. */
  lemma OwnerIsPending(decode: int -> Dataset, s: System, j: nat)
    requires Inv(decode, s) && CanMove(decode, s, Put(j))
    ensures Ordered(s.share.done) && !Keeps(s.share.done, s.callers[j].fa)
    ensures s.share.pends[s.callers[j].id].outcome.value.Ok? ==> s.share.pends[s.callers[j].id].outcome.value.value == decode(s.callers[j].fa)
  {
    hide Owned, Attended, Ordered;
    assert GoodCaller(decode, s, j);
    forall k | 0 <= k < |s.share.done|
      ensures s.share.done[k].0 != s.callers[j].fa
    {
      assert s.share.done[k] in s.share.done;
    }
  }

  lemma PublishedIsLast(share: Share, fa: int, ds: Dataset)
    requires Ordered(share.done) && !Keeps(share.done, fa)
    ensures Publish(share, fa, Ok(ds)).done == (if |share.done| < 2 then share.done else share.done[|share.done| - 1..]) + [(fa, ds)]
    ensures Keeps(Publish(share, fa, Ok(ds)).done, fa)
  {
    hide Keeps;
    LastIsKept((if |share.done| < 2 then share.done else share.done[|share.done| - 1..]) + [(fa, ds)], fa);
  }

  lemma LastIsKept(done: seq<(int, Dataset)>, fa: int)
    requires |done| > 0 && done[|done| - 1].0 == fa
    ensures Keeps(done, fa)
  {
  }

  lemma KeptIsDecoded(decode: int -> Dataset, s: System, fa: int)
    requires Inv(decode, s) && Keeps(s.share.done, fa)
    ensures Kept(s.share.done, fa) == decode(fa)
  {
    hide Kept, Ordered, Owned, Attended, GoodCaller, GoodPend;
    assert (fa, Kept(s.share.done, fa)) in s.share.done;
  }

  /** A file being decoded is joined, never decoded a second time. */
  lemma InFlightIsJoined(decode: int -> Dataset, n: nat, moves: seq<Move>, s: System, j: nat, i: nat)
    requires Run(decode, n, moves, s) && j < |s.callers| && s.callers[j].Owns() && CanMove(decode, s, Call(i, s.callers[j].fa))
    ensures Moved(decode, s, Call(i, s.callers[j].fa)).callers[i] == Waiting(s.callers[j].fa, s.callers[j].id)
    ensures Moved(decode, s, Call(i, s.callers[j].fa)).share == s.share
  {
    RunKeepsInv(decode, n, moves, s);
    hide Run, Owned, Attended, Kept, Others, Ordered;
    assert GoodCaller(decode, s, j);
    forall k | 0 <= k < |s.share.done|
      ensures s.share.done[k].0 != s.callers[j].fa
    {
      assert s.share.done[k] in s.share.done;
    }
  }

  // ---- the object -----------------------------------------------------------------------------------------

  /** The two critical sections of `__call__` and `clear`, on the fields they update. */
  class Shared {
    var done: seq<(int, Dataset)>
    var pending: map<int, nat>
    var pends: seq<Pend>

    ghost function View(): Share
      reads this
    {
      Share(done, pending, pends)
    }

    constructor ()
      ensures View() == Share([], map[], [])
    {
      done, pending, pends := [], map[], [];
    }

    /** First section: a finished file moves to the newest place; else join or start a decode. */
    method EnterLocked(fa: int) returns (a: Admission)
      requires Ordered(done)
      modifies this
      ensures (View(), a) == Enter(old(View()), fa)
      ensures Ordered(done)
      ensures a.Hit? <==> exists i :: 0 <= i < |old(done)| && old(done)[i].0 == fa
      ensures a.Hit? ==> pending == old(pending) && pends == old(pends) && |done| > 0 && done[|done| - 1] == (fa, a.dataset) && (fa, a.dataset) in old(done)
                         && forall x :: Keeps(done, x) <==> Keeps(old(done), x)
      ensures a.Wait? ==> fa in old(pending) && a.id == old(pending)[fa] && View() == old(View())
      ensures a.Own? ==> fa !in old(pending) && a.id == |old(pends)| && pending == old(pending)[fa := a.id] && pends == old(pends) + [Pend(fa, None, false)] && done == old(done)
    {
      if Keeps(done, fa) {
        HitKeeps(done, fa);
        var ds := Kept(done, fa);
        done := Others(done, fa) + [(fa, ds)];
        return Hit(ds);
      }
      if fa in pending { return Wait(pending[fa]); }
      pends := pends + [Pend(fa, None, false)];
      pending := pending[fa := |pends| - 1];
      return Own(|pends| - 1);
    }

    /** Last section of an owner: off the pending list, kept if it succeeded, two at most. */
    method PublishLocked(fa: int, outcome: Result<Dataset, Error>)
      requires Ordered(done) && !Keeps(done, fa)
      modifies this`done, this`pending
      ensures View() == Publish(old(View()), fa, outcome)
      ensures Ordered(done)
      ensures pending == old(pending) - {fa}
      ensures done == match outcome
                      case Err(_) => old(done)
                      case Ok(ds) => (if |old(done)| < 2 then old(done) else old(done)[|old(done)| - 1..]) + [(fa, ds)]
    {
      hide Keeps, Ordered, Newest;
      pending := pending - {fa};
      if outcome.Ok? {
        ghost var all := done + [(fa, outcome.value)];
        AddedIsNewest(done, (fa, outcome.value));
        done := done + [(fa, outcome.value)];
        while |done| > 2
          invariant pending == old(pending) - {fa}
          invariant |done| <= |all| <= 3 && done == all[|all| - |done|..] && (|done| >= 2 || done == all)
          decreases |done|
        {
          done := done[1..];
        }
      }
    }

    method ClearLocked()
      modifies this`done
      ensures View() == Clear(old(View())) && done == []
    {
      done := [];
    }
  }

  lemma AddedIsNewest(done: seq<(int, Dataset)>, e: (int, Dataset))
    requires Ordered(done) && !Keeps(done, e.0)
    ensures |done| <= 2 && Ordered(Newest(done + [e]))
    ensures Newest(done + [e]) == (if |done| < 2 then done + [e] else (done + [e])[|done| - 1..])
    ensures Newest(done + [e]) == (if |done| < 2 then done else done[|done| - 1..]) + [e]
  {
    MissKeeps(done, e);
  }
}
