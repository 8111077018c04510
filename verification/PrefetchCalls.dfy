/** What the calls on a prefetch group come to: which entries a consumer is given, what each
    take answers, and what an ended order and a closed group still accept. */
module PrefetchCalls {
  import opened Wrappers
  import opened NativeData
  import opened PrefetchModel
  import opened PrefetchInvariant
  import opened PrefetchSteps
  import opened PrefetchTheorems

  // ---- the epochs delivered ------------------------------------------------------------------

  /** The order last started, told from the calls: a closed group starts none. */
  ghost function Started(c: Config, events: seq<Event>): seq<nat>
    decreases |events|
  {
    if events == [] then []
    else
      var front, e := events[..|events| - 1], events[|events| - 1];
      if e.EvStart? && Run(c, Initial(), front).phase != Closed then e.order else Started(c, front)
  }

  /** The epochs delivered since, told from the replies. */
  ghost function Taken(c: Config, events: seq<Event>): seq<int>
    decreases |events|
  {
    if events == [] then []
    else
      var front, e := events[..|events| - 1], events[|events| - 1];
      var g := Run(c, Initial(), front);
      if e.EvStart? && g.phase != Closed then []
      else if e.EvTake? && Step(c, g, e).1.Took? then Taken(c, front) + [e.k]
      else Taken(c, front)
  }

  /** What one step does to the order and the cursor. */
  lemma StepCursor(c: Config, g: Group, e: Event)
    requires ValidConfig(c) && Inv(c, g) && Possible(c, g, e)
    ensures var (g1, reply) := Step(c, g, e);
            && (e.EvStart? && g.phase != Closed ==> g1.order == e.order && g1.head == 0)
            && (!(e.EvStart? && g.phase != Closed) ==> g1.order == g.order)
            && (!(e.EvStart? && g.phase != Closed) && g1.phase == Running ==> g.phase == Running && g1.head == g.head + (if reply.Took? then 1 else 0))
            && (reply.Took? ==> e.EvTake? && g.phase == Running && g.head < |g.order| && e.k == g.order[g.head])
  {
    hide Inv, ValidConfig, Admit, Take, Finish;
    match e
    case EvStart(order) =>
      if g.phase != Closed {
        StartCore(c, g, order);
        AdmitKeepsInv(c, Restarted(g, order));
      }
    case EvTake(k) => TakeCursor(c, g, k);
    case EvCancel =>
    case EvClose =>
    case EvFinish(id, outcome) => FinishFrame(c, g, id, outcome);
  }

  lemma TakeCursor(c: Config, g: Group, k: int)
    requires ValidConfig(c) && Inv(c, g)
    ensures var (g1, reply) := Take(c, g, k);
            && g1.order == g.order && (g1.phase == Running ==> g.phase == Running && g1.head == g.head + (if reply.Took? then 1 else 0))
            && (reply.Took? ==> g.phase == Running && g.head < |g.order| && k == g.order[g.head])
  {
    hide Inv, ValidConfig, Admit, ReleaseKeys, Deliver;
    if Take(c, g, k).1.Took? {
      TookAtHead(c, g, k);
      DeliverKeepsCore(c, g);
      AdmitKeepsInv(c, Deliver(c, Popped(g), g.slots[g.head].tasks));
      DeliveredCursor(c, g);
    } else if Take(c, g, k).1.Raised? {
      ReleaseKeysFrame(c, Popped(g), g.slots[g.head].tasks, |c.keys|);
    }
  }

  lemma DeliveredCursor(c: Config, g: Group)
    requires g.head in g.slots
    ensures var g1 := Deliver(c, Popped(g), g.slots[g.head].tasks); g1.order == g.order && g1.head == g.head + 1 && g1.phase == g.phase
  {
    hide ReleaseKeys;
    ReleaseKeysFrame(c, Popped(g), g.slots[g.head].tasks, |c.keys|);
  }

  /** Over any run a group is going through the order last started, and has delivered exactly
      its first entries, each once and in turn, up to the cursor. */
  lemma {:induction false} TakesFollowTheOrder(c: Config, events: seq<Event>)
    requires Reachable(c, events)
    ensures var g := Run(c, Initial(), events);
            && g.order == Started(c, events)
            && (g.phase == Running ==> |Taken(c, events)| == g.head <= |g.order| && forall i :: 0 <= i < g.head ==> Taken(c, events)[i] == g.order[i])
    decreases |events|
  {
    hide Step, Inv, ValidConfig;
    if events != [] {
      var front, e := events[..|events| - 1], events[|events| - 1];
      assert Reachable(c, front) && Possible(c, Run(c, Initial(), front), e);
      TakesFollowTheOrder(c, front);
      ReachableInv(c, front);
      StepCursor(c, Run(c, Initial(), front), e);
    }
  }

  // ---- what a take answers --------------------------------------------------------------------

  /** A take is refused exactly when no order is running or all of it was taken; names the
      epoch expected exactly when it asked for another; waits exactly while some member's
      sample of that epoch is undecided; and none of these changes anything. */
  lemma TakeAnswers(c: Config, g: Group, k: int)
    requires ValidConfig(c) && Inv(c, g)
    ensures var (g1, reply) := Take(c, g, k);
            && (reply.Refused? <==> g.phase != Running || g.head >= |g.order|)
            && (reply.OutOfOrder? <==> g.phase == Running && g.head < |g.order| && k != g.order[g.head])
            && (reply.OutOfOrder? ==> reply.expected == g.order[g.head])
            && (reply.Blocked? <==> g.phase == Running && g.head < |g.order| && k == g.order[g.head] && Undecided(c, g))
            && (reply.Refused? || reply.OutOfOrder? || reply.Blocked? ==> g1 == g)
            && !reply.Silent?
  {
    hide Admit, ReleaseKeys, Deliver, ValidConfig;
    if g.phase == Running && g.head < |g.order| {
      RunningHead(c, g);
      HeadDecided(c, g);
      hide Inv, Core;
    }
  }

  /** Some member's task for the head slot's epoch is unfinished. */
  ghost predicate Undecided(c: Config, g: Group) {
    exists k :: k in c.keys && g.head in g.slots && k in g.slots[g.head].tasks && g.slots[g.head].tasks[k] < |g.heap| && g.heap[g.slots[g.head].tasks[k]].outcome.None?
  }

  lemma HeadDecided(c: Config, g: Group)
    requires ValidConfig(c) && Core(c, g) && g.head < g.next && g.head in g.slots
    ensures g.slots[g.head].done <==> !Undecided(c, g)
  {
    hide Core, ValidConfig, Fresh, FirstError;
    HeadMapOk(c, g);
    HeadFresh(c, g);
    MapDecided(c, g);
  }

  lemma HeadFresh(c: Config, g: Group)
    requires Core(c, g) && g.head in g.slots
    ensures g.slots[g.head].done <==> AllDone(c, g.heap, g.slots[g.head].tasks)
  {
    hide Always, SlotOk, AllDone, FirstError, StopOk;
    assert Fresh(c, g, g.head);
  }

  lemma MapDecided(c: Config, g: Group)
    requires g.head in g.slots && MapOk(c, g, g.slots[g.head].tasks)
    ensures AllDone(c, g.heap, g.slots[g.head].tasks) <==> !Undecided(c, g)
  {
  }

  // ---- when a sample is decoded again ------------------------------------------------------------

  /** Given its task for a slot, a member shares the one held for that anchor, or takes up again
      the one last delivered if it was for that anchor; only otherwise is a decode made. */
  lemma AdmitShares(c: Config, g: Group, k: Key, t: int)
    requires TasksOk(g) && LastOk(g)
    ensures var (g1, id) := AdmitKey(c, g, k, t);
            var a := c.anchorOf(k, t);
            if (k, a) in g.tasks then id == g.tasks[(k, a)] && |g1.heap| == |g.heap| && g1.tasks == g.tasks
            else if k in g.last && g.heap[g.last[k]].anchor == a then id == g.last[k] && |g1.heap| == |g.heap| && g1.tasks == g.tasks[(k, a) := id]
            else id == |g.heap| && g1.heap == g.heap + [Task(k, a, t, g.gen, None, 1)] && g1.tasks == g.tasks[(k, a) := id]
  {
    if (k, c.anchorOf(k, t)) in g.tasks { assert HeldAt(g, (k, c.anchorOf(k, t)), g.tasks[(k, c.anchorOf(k, t))]); }
  }

  // ---- ended orders and closed groups ----------------------------------------------------------

  /** Cancelling ends a running or failed order: its slots and tasks are dropped and outcomes
      still to come will be of an order that is gone; what was delivered is kept. Closing
      drops that too. Neither touches the samples already made. */
  lemma CancelEnds(g: Group)
    ensures var g1 := Cancel(g);
            && g1.heap == g.heap && g1.last == g.last && g1.prev == g.prev && g1.size == g.size
            && (if g.phase == Running || g.phase == Failed then g1.phase == Cancelled && g1.slots == map[] && g1.tasks == map[] && g1.gen == g.gen + 1 else g1 == g)
    ensures var g1 := Close(g);
            && g1.phase == Closed && g1.heap == g.heap && (g.phase != Closed ==> g1.last == map[])
            && (g.phase == Running || g.phase == Failed ==> g1.slots == map[] && g1.tasks == map[] && g1.gen == g.gen + 1)
  {
  }

  /** A closed group stays closed: whatever happens, starts included, every take is refused. */
  lemma {:induction false} ClosedForGood(c: Config, g: Group, events: seq<Event>, k: int)
    requires ValidConfig(c) && Inv(c, g) && g.phase == Closed && PossibleRun(c, g, events)
    ensures var g1 := Run(c, g, events); g1.phase == Closed && g1.order == g.order && g1.last == g.last && Take(c, g1, k) == (g1, Refused)
    decreases |events|
  {
    hide Inv, ValidConfig, Finish, Admit;
    if events != [] {
      var front, e := events[..|events| - 1], events[|events| - 1];
      ClosedForGood(c, g, front, k);
      RunKeepsInv(c, g, front);
      if e.EvFinish? { FinishFrame(c, Run(c, g, front), e.id, e.outcome); }
      if e.EvTake? { ClosedForGood(c, g, front, e.k); }
    }
  }

  /** A worker's outcome counts once, and only while the order its task was made in is the
      current one; then the task holds it. */
  lemma OutcomesCountOnce(c: Config, g: Group, id: nat, outcome: Result<Data, Error>)
    requires ValidConfig(c) && Inv(c, g) && Possible(c, g, EvFinish(id, outcome))
    ensures g.heap[id].gen != g.gen || g.heap[id].outcome.Some? ==> Finish(c, g, id, outcome) == g
    ensures g.heap[id].gen == g.gen && g.heap[id].outcome.None? ==>
              var g1 := Finish(c, g, id, outcome); id < |g1.heap| && g1.heap[id].outcome == Some(outcome)
  {
    hide Admit, CheckRange, Core, ValidConfig, Checked;
    if g.heap[id].gen == g.gen && !g.heap[id].Done() {
      var g1 := Record(c, g, id, outcome);
      if g.phase == Running {
        RunningParts(c, g);
        CheckedCore(c, g, id, outcome);
        CheckedHeap(c, g1, id, g.head, g.next, CheckRange(c, g1, id, g.head, g.next));
        AdmitOutcomes(c, CheckRange(c, g1, id, g.head, g.next));
      } else {
        if g.head <= g.next { EmptyRange(c, g1, id, g.head, g.next); }
        AdmitsNothing(c, g1);
      }
    }
  }

  lemma CheckedHeap(c: Config, g: Group, id: nat, lo: nat, hi: nat, g1: Group)
    requires Checked(c, g, id, lo, hi, g1)
    ensures g1.heap == g.heap
  {
    hide Fresh, Holds, StopOk, Quiet;
  }

  lemma AdmitsNothing(c: Config, g: Group)
    requires g.phase != Running
    ensures Admit(c, g) == g
  {
  }

  // ---- byte order -------------------------------------------------------------------------------

  /** Keys are in byte order: one comes before another when it is smaller where they first
      differ, or is the other's beginning. */
  lemma {:induction false} BeforeMeans(a: Key, b: Key)
    ensures Before(a, b) <==> exists i :: 0 <= i <= |a| && i < |b| && a[..i] == b[..i] && (i == |a| || a[i] < b[i])
  {
    if a == "" && b != "" {
      assert a[..0] == b[..0];
    } else if a != "" && b != "" {
      BeforeMeans(a[1..], b[1..]);
      if a[0] < b[0] { assert a[..0] == b[..0]; }
      if i :| 0 <= i <= |a[1..]| && i < |b[1..]| && a[1..][..i] == b[1..][..i] && (i == |a[1..]| || a[1..][i] < b[1..][i]) {
        if a[0] == b[0] {
          assert a[..i + 1] == [a[0]] + a[1..][..i] && b[..i + 1] == [b[0]] + b[1..][..i];
          assert 0 <= i + 1 <= |a| && i + 1 < |b| && a[..i + 1] == b[..i + 1];
        }
      }
      if i :| 0 < i <= |a| && i < |b| && a[..i] == b[..i] && (i == |a| || a[i] < b[i]) {
        assert a[0] == a[..i][0] == b[..i][0] == b[0];
        assert a[1..][..i - 1] == a[..i][1..] && b[1..][..i - 1] == b[..i][1..];
        assert 0 <= i - 1 <= |a[1..]| && i - 1 < |b[1..]| && a[1..][..i - 1] == b[1..][..i - 1];
      }
    }
  }
}
