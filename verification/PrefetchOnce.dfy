/** On a fresh group and a monotone order, every (member, distinct anchor) is decoded once. */
module PrefetchOnce {
  import opened Wrappers
  import opened NativeData
  import opened PrefetchModel
  import opened PrefetchInvariant
  import opened PrefetchSteps
  import opened PrefetchTheorems

  /** The anchor member `k` needs at position `p` of the order. */
  ghost function AnchorAt(c: Config, order: seq<nat>, k: Key, p: nat): int
    requires p < |order|
  {
    c.anchorOf(k, TimeOf(c, order[p]))
  }

  /** Along the order each member's anchors only ever rise, or only ever fall. */
  ghost predicate MonotoneOrder(c: Config, order: seq<nat>) {
    forall k :: k in c.keys ==>
      || (forall p, q :: 0 <= p <= q < |order| ==> AnchorAt(c, order, k, p) <= AnchorAt(c, order, k, q))
      || (forall p, q :: 0 <= p <= q < |order| ==> AnchorAt(c, order, k, p) >= AnchorAt(c, order, k, q))
  }

  /** No two tasks are for the same member and anchor. */
  ghost predicate Distinct(g: Group) {
    forall i, j :: 0 <= i < j < |g.heap| ==> g.heap[i].key != g.heap[j].key || g.heap[i].anchor != g.heap[j].anchor
  }

  ghost predicate Needed(c: Config, g: Group, id: nat)
    requires id < |g.heap|
  {
    exists p :: 0 <= p < g.next && p < |g.order| && g.heap[id].anchor == AnchorAt(c, g.order, g.heap[id].key, p)
  }

  ghost predicate Created(g: Group, k: Key, a: int) {
    exists id :: 0 <= id < |g.heap| && g.heap[id].key == k && g.heap[id].anchor == a
  }

  /** The sample last delivered is at the anchor of the position before the head. */
  ghost predicate LastIsBeforeHead(c: Config, g: Group) {
    0 < g.head <= |g.order| ==>
      forall k :: k in c.keys ==> k in g.last && g.last[k] < |g.heap| && g.heap[g.last[k]].anchor == AnchorAt(c, g.order, k, g.head - 1)
  }

  /** The tasks created are the anchors of the admitted positions, each once. */
  ghost predicate Once(c: Config, g: Group) {
    && g.next <= |g.order|
    && Distinct(g)
    && (forall id :: 0 <= id < |g.heap| ==> Needed(c, g, id))
    && (forall k, p :: k in c.keys && 0 <= p < g.next ==> Created(g, k, AnchorAt(c, g.order, k, p)))
    && |g.heap| + g.reused == |c.keys| * g.next
    && (g.phase == Running ==> LastIsBeforeHead(c, g))
  }

  /** An anchor equal to an earlier position's is equal to the previous position's too. */
  lemma MonotoneRepeats(c: Config, order: seq<nat>, k: Key, p: nat, n: nat)
    requires MonotoneOrder(c, order) && k in c.keys && p < n < |order|
    requires AnchorAt(c, order, k, p) == AnchorAt(c, order, k, n)
    ensures AnchorAt(c, order, k, n - 1) == AnchorAt(c, order, k, n)
  {
    var between := AnchorAt(c, order, k, n - 1);
  }

  /** The previous position's task can be found: it is held, or it was just delivered. */
  lemma PreviousIsFound(c: Config, g: Group, k: Key)
    requires Core(c, g) && LastIsBeforeHead(c, g) && k in c.keys && 0 < g.next < |g.order|
    ensures Lookup(g, k, AnchorAt(c, g.order, k, g.next - 1)).Some?
  {
    hide Always, Fresh, SlotsOk, StopOk;
    if g.next > g.head {
      HeldSlot(c, g, g.next - 1);
      hide Core;
      assert SlotTask(c, g, g.slots[g.next - 1], k);
    }
  }

  /** A task made for the next position is for an anchor never seen before. */
  lemma NewTaskIsNew(c: Config, g: Group, k: Key, id: nat)
    requires Core(c, g) && Once(c, g) && MonotoneOrder(c, g.order) && k in c.keys && g.next < |g.order|
    requires Lookup(g, k, AnchorAt(c, g.order, k, g.next)).None? && id < |g.heap| && g.heap[id].key == k
    ensures g.heap[id].anchor != AnchorAt(c, g.order, k, g.next)
  {
    assert Needed(c, g, id);
    var p :| 0 <= p < g.next && p < |g.order| && g.heap[id].anchor == AnchorAt(c, g.order, k, p);
    if g.heap[id].anchor == AnchorAt(c, g.order, k, g.next) {
      MonotoneRepeats(c, g.order, k, p, g.next);
      PreviousIsFound(c, g, k);
    }
  }

  /** Same tasks, at the same keys and anchors, up to what `Once` reads. */
  ghost predicate SameTasks(g: Group, g1: Group) {
    && |g1.heap| == |g.heap| && g1.order == g.order && g1.next == g.next && g1.reused == g.reused
    && forall id :: 0 <= id < |g.heap| ==> g1.heap[id].key == g.heap[id].key && g1.heap[id].anchor == g.heap[id].anchor
  }

  lemma SameTasksOnce(c: Config, g: Group, g1: Group)
    requires SameTasks(g, g1) && Once(c, g) && (g1.phase == Running ==> LastIsBeforeHead(c, g1))
    ensures Once(c, g1)
  {
    forall id | 0 <= id < |g1.heap|
      ensures Needed(c, g1, id)
    {
      assert Needed(c, g, id);
      var p :| 0 <= p < g.next && p < |g.order| && g.heap[id].anchor == AnchorAt(c, g.order, g.heap[id].key, p);
      assert g1.heap[id].anchor == AnchorAt(c, g1.order, g1.heap[id].key, p);
    }
    forall k, p | k in c.keys && 0 <= p < g1.next
      ensures Created(g1, k, AnchorAt(c, g1.order, k, p))
    {
      assert Created(g, k, AnchorAt(c, g.order, k, p));
      var id :| 0 <= id < |g.heap| && g.heap[id].key == k && g.heap[id].anchor == AnchorAt(c, g.order, k, p);
      assert g1.heap[id].key == k;
    }
  }

  lemma AdmittedDistinct(c: Config, g: Group, g1: Group, m: map<Key, nat>)
    requires ValidConfig(c) && Core(c, g) && Once(c, g) && MonotoneOrder(c, g.order) && g.next < |g.order|
    requires Admitted(c, g, TimeOf(c, g.order[g.next]), |c.keys|, g1, m)
    ensures Distinct(g1)
  {
    hide Core, ValidConfig, Once, MonotoneOrder, Lookup;
    assert Distinct(g) by { OnceDistinct(c, g); }
    assert c.keys[..|c.keys|] == c.keys;
    forall i, j | 0 <= i < j < |g1.heap|
      ensures g1.heap[i].key != g1.heap[j].key || g1.heap[i].anchor != g1.heap[j].anchor
    {
      if |g.heap| <= j {
        var k := g1.heap[j].key;
        assert Mapped(g1.heap, m, j) && AdmittedKey(c, g, TimeOf(c, g.order[g.next]), g1, m, k);
        if i < |g.heap| {
          if g.heap[i].key == k { NewTaskIsNew(c, g, k, i); }
        } else {
          assert Mapped(g1.heap, m, i);
        }
      }
    }
  }

  lemma OnceDistinct(c: Config, g: Group)
    requires Once(c, g)
    ensures Distinct(g)
  {
  }

  lemma AdmittedNeeded(c: Config, g: Group, g1: Group, m: map<Key, nat>, g2: Group, id: nat)
    requires Once(c, g) && g.next < |g.order|
    requires Admitted(c, g, TimeOf(c, g.order[g.next]), |c.keys|, g1, m)
    requires g2.heap == g1.heap && g2.order == g.order && g2.next == g.next + 1 && id < |g1.heap|
    ensures Needed(c, g2, id)
  {
    if id < |g.heap| {
      assert Needed(c, g, id);
      var p :| 0 <= p < g.next && p < |g.order| && g.heap[id].anchor == AnchorAt(c, g.order, g.heap[id].key, p);
      assert g2.heap[id].anchor == AnchorAt(c, g2.order, g2.heap[id].key, p);
    } else {
      assert g2.heap[id].anchor == AnchorAt(c, g2.order, g2.heap[id].key, g.next);
    }
  }

  lemma AdmittedCreated(c: Config, g: Group, g1: Group, m: map<Key, nat>, g2: Group, k: Key, p: nat)
    requires Once(c, g) && g.next < |g.order| && k in c.keys && p <= g.next
    requires Admitted(c, g, TimeOf(c, g.order[g.next]), |c.keys|, g1, m)
    requires g2.heap == g1.heap && g2.order == g.order
    ensures Created(g2, k, AnchorAt(c, g2.order, k, p))
  {
    if p < g.next {
      assert Created(g, k, AnchorAt(c, g.order, k, p));
      var id :| 0 <= id < |g.heap| && g.heap[id].key == k && g.heap[id].anchor == AnchorAt(c, g.order, k, p);
      assert g2.heap[id].key == k;
    } else {
      assert c.keys[..|c.keys|] == c.keys;
      assert AdmittedKey(c, g, TimeOf(c, g.order[g.next]), g1, m, k);
    }
  }

  lemma AdmitSlotOnce(c: Config, g: Group)
    requires ValidConfig(c) && Core(c, g) && MayAdmit(c, g) && Once(c, g) && MonotoneOrder(c, g.order)
    ensures Once(c, AdmitSlot(c, g))
  {
    hide Core, ValidConfig, CheckSlot, AdmitKeys, AdmittedKey, AdmittedTasks, AdmittedHeap, MonotoneOrder, Distinct, Needed, Created, AdmitSlot;
    AdmitsAtNext(c, g);
    var (g1, m) := AdmitKeys(c, g, TimeOf(c, g.order[g.next]), |c.keys|);
    var g2 := AdmitSlot(c, g);
    CheckSlotFrame(c, Entered(g, g1, m), g.next);
    AdmittedDistinct(c, g, g1, m);
    DistinctFrame(g1, g2);
    forall id | 0 <= id < |g2.heap|
      ensures Needed(c, g2, id)
    {
      AdmittedNeeded(c, g, g1, m, g2, id);
    }
    forall k, p | k in c.keys && 0 <= p < g2.next
      ensures Created(g2, k, AnchorAt(c, g2.order, k, p))
    {
      AdmittedCreated(c, g, g1, m, g2, k, p);
    }
    assert |c.keys| * (g.next + 1) == |c.keys| * g.next + |c.keys|;
    LastKept(c, g, g1, m, g2);
  }

  lemma DistinctFrame(g: Group, g1: Group)
    requires g1.heap == g.heap && Distinct(g)
    ensures Distinct(g1)
  {
  }

  lemma LastKept(c: Config, g: Group, g1: Group, m: map<Key, nat>, g2: Group)
    requires LastIsBeforeHead(c, g) && g.next < |g.order|
    requires Admitted(c, g, TimeOf(c, g.order[g.next]), |c.keys|, g1, m)
    requires g2.heap == g1.heap && g2.order == g.order && g2.head == g.head && g2.last == g.last
    ensures LastIsBeforeHead(c, g2)
  {
  }

  lemma {:induction false} AdmitOnce(c: Config, g: Group)
    requires ValidConfig(c) && Core(c, g) && Once(c, g) && MonotoneOrder(c, g.order)
    ensures Once(c, Admit(c, g))
    decreases |g.order| - g.next
  {
    if MayAdmit(c, g) && !OverBudget(c, g) {
      AdmitSlotCursors(c, g);
      AdmitSlotOnce(c, g);
      AdmitSlotKeepsCore(c, g);
      AdmitOnce(c, AdmitSlot(c, g));
    }
  }

  lemma TakeOnce(c: Config, g: Group, k: int)
    requires ValidConfig(c) && Inv(c, g) && Once(c, g) && MonotoneOrder(c, g.order)
    ensures Once(c, Take(c, g, k).0) && Take(c, g, k).0.order == g.order
  {
    hide Once, Inv, ValidConfig, MonotoneOrder, Admit, Deliver, ReleaseKeys;
    if Take(c, g, k).1.Took? {
      TookAtHead(c, g, k);
      var g1 := Deliver(c, Popped(g), g.slots[g.head].tasks);
      DeliverKeepsCore(c, g);
      DeliveredTasks(c, g, k);
      SameTasksOnce(c, g, g1);
      AdmitOnce(c, g1);
      AdmitKeepsInv(c, g1);
    } else if Take(c, g, k).1.Raised? {
      RaisedTasks(c, g, k);
      SameTasksOnce(c, g, Take(c, g, k).0);
    }
  }

  lemma RaisedTasks(c: Config, g: Group, k: int)
    requires ValidConfig(c) && Inv(c, g) && Take(c, g, k).1.Raised?
    ensures SameTasks(g, Take(c, g, k).0) && Take(c, g, k).0.phase == Failed
  {
    hide Admit, Deliver, PoppedAndReleased;
    PoppedFrame(c, g);
    forall id | 0 <= id < |g.heap|
      ensures PoppedAndReleased(c, g).heap[id].key == g.heap[id].key && PoppedAndReleased(c, g).heap[id].anchor == g.heap[id].anchor
    {
      ReleaseKeepsOutcome(c, g, id);
    }
    assert Take(c, g, k).0 == EndOrder(PoppedAndReleased(c, g), Failed) by { RaisedState(c, g, k); }
  }

  lemma RaisedState(c: Config, g: Group, k: int)
    requires Take(c, g, k).1.Raised?
    ensures g.head in g.slots && Take(c, g, k).0 == EndOrder(PoppedAndReleased(c, g), Failed)
  {
    hide ReleaseKeys;
  }

  lemma DeliveredTasks(c: Config, g: Group, k: int)
    requires ValidConfig(c) && Core(c, g) && g.head < g.next && g.head in g.slots
    ensures var g1 := Deliver(c, Popped(g), g.slots[g.head].tasks); SameTasks(g, g1) && LastIsBeforeHead(c, g1)
  {
    hide Core, ValidConfig, PoppedAndReleased, Deliver;
    HeadHeld(c, g);
    PoppedFrame(c, g);
    DeliverIsRelease(c, g);
    var g1 := Deliver(c, Popped(g), g.slots[g.head].tasks);
    forall id | 0 <= id < |g.heap|
      ensures g1.heap[id].key == g.heap[id].key && g1.heap[id].anchor == g.heap[id].anchor
    {
      ReleaseKeepsOutcome(c, g, id);
    }
    forall key | key in c.keys
      ensures key in g1.last && g1.last[key] < |g1.heap| && g1.heap[g1.last[key]].anchor == AnchorAt(c, g1.order, key, g.head)
    {
      assert SlotTask(c, g, g.slots[g.head], key);
    }
  }

  lemma FinishOnce(c: Config, g: Group, id: nat, outcome: Result<Data, Error>)
    requires ValidConfig(c) && Inv(c, g) && Possible(c, g, EvFinish(id, outcome)) && Once(c, g) && MonotoneOrder(c, g.order)
    ensures Once(c, Finish(c, g, id, outcome)) && Finish(c, g, id, outcome).order == g.order
  {
    hide Once, Inv, ValidConfig, MonotoneOrder, Admit, CheckRange, Record, SameTasks;
    FinishFrame(c, g, id, outcome);
    if g.heap[id].gen == g.gen && !g.heap[id].Done() {
      var g1 := Record(c, g, id, outcome);
      RecordOnce(c, g, id, outcome);
      if g.phase == Running {
        InvCore(c, g);
        CheckedCore(c, g, id, outcome);
        CheckedOnce(c, g1, id, g.head, g.next, CheckRange(c, g1, id, g.head, g.next));
        AdmitOnce(c, CheckRange(c, g1, id, g.head, g.next));
      } else {
        InvEmpty(c, g);
        NoAdmission(c, g1);
        if g.head <= g.next { EmptyRange(c, g1, id, g.head, g.next); }
      }
    }
  }

  lemma NoAdmission(c: Config, g: Group)
    requires g.phase != Running
    ensures Admit(c, g) == g
  {
  }

  lemma RecordOnce(c: Config, g: Group, id: nat, outcome: Result<Data, Error>)
    requires Once(c, g) && id < |g.heap|
    ensures var g1 := Record(c, g, id, outcome);
            Once(c, g1) && g1.order == g.order && g1.slots == g.slots && g1.phase == g.phase && g1.head == g.head && g1.next == g.next
  {
    var g1 := Record(c, g, id, outcome);
    OnceLast(c, g);
    hide Once;
    SameTasksOnce(c, g, g1);
  }

  lemma CheckedOnce(c: Config, g: Group, id: nat, lo: nat, hi: nat, g1: Group)
    requires Once(c, g) && Checked(c, g, id, lo, hi, g1)
    ensures Once(c, g1) && g1.order == g.order
  {
    hide Fresh, Holds, StopOk, Quiet;
    OnceLast(c, g);
    hide Once;
    SameTasksOnce(c, g, g1);
  }

  lemma OnceLast(c: Config, g: Group)
    requires Once(c, g)
    ensures g.phase == Running ==> LastIsBeforeHead(c, g)
  {
  }

  lemma InvCore(c: Config, g: Group)
    requires Inv(c, g) && g.phase == Running
    ensures Core(c, g) && g.head <= g.next
  {
  }

  lemma InvEmpty(c: Config, g: Group)
    requires Inv(c, g) && g.phase != Running
    ensures g.slots == map[]
  {
  }

  lemma {:induction false} RunOnce(c: Config, g: Group, events: seq<Event>)
    requires ValidConfig(c) && Inv(c, g) && Once(c, g) && MonotoneOrder(c, g.order)
    requires PossibleRun(c, g, events) && forall i :: 0 <= i < |events| ==> events[i].EvTake? || events[i].EvFinish?
    ensures Once(c, Run(c, g, events)) && Run(c, g, events).order == g.order
    decreases |events|
  {
    hide Once, Inv, ValidConfig, MonotoneOrder, Take, Finish;
    if events != [] {
      var front, e := events[..|events| - 1], events[|events| - 1];
      RunOnce(c, g, front);
      RunKeepsInv(c, g, front);
      var g1 := Run(c, g, front);
      if e.EvTake? { TakeOnce(c, g1, e.k); } else { FinishOnce(c, g1, e.id, e.outcome); }
    }
  }

  lemma FreshStartOnce(c: Config, order: seq<nat>)
    requires ValidConfig(c) && MonotoneOrder(c, order) && Possible(c, Initial(), EvStart(order))
    ensures Once(c, Start(c, Initial(), order)) && Start(c, Initial(), order).order == order
  {
    InitialInv(c);
    StartCore(c, Initial(), order);
    var g1 := Restarted(Initial(), order);
    assert |c.keys| * 0 == 0;
    AdmitOnce(c, g1);
    AdmitKeepsInv(c, g1);
  }

  /** Exactly-once decode: on a fresh group, whatever the depth, budget and completion order,
      a run along a monotone order makes one task for each member and distinct anchor of the
      positions admitted so far, and tasks made plus samples reused is members times positions. */
  lemma ExactlyOnceDecode(c: Config, order: seq<nat>, events: seq<Event>)
    requires ValidConfig(c) && MonotoneOrder(c, order) && Possible(c, Initial(), EvStart(order))
    requires PossibleRun(c, Start(c, Initial(), order), events)
    requires forall i :: 0 <= i < |events| ==> events[i].EvTake? || events[i].EvFinish?
    ensures var g := Run(c, Start(c, Initial(), order), events);
      && g.order == order && g.next <= |order|
      && Distinct(g)
      && (forall id :: 0 <= id < |g.heap| ==> Needed(c, g, id))
      && (forall k, p :: k in c.keys && 0 <= p < g.next ==> Created(g, k, AnchorAt(c, order, k, p)))
      && |g.heap| + g.reused == |c.keys| * g.next
  {
    hide MonotoneOrder, ValidConfig, Start, Run;
    FreshStartOnce(c, order);
    InitialInv(c);
    StartKeepsInv(c, Initial(), order);
    RunOnce(c, Start(c, Initial(), order), events);
  }

  /** Forward and reverse orders are monotone, when members snap times monotonically. */
  lemma SweepsAreMonotone(c: Config)
    requires ValidConfig(c)
    requires forall k, t, u :: k in c.keys && t <= u ==> c.anchorOf(k, t) <= c.anchorOf(k, u)
    ensures MonotoneOrder(c, Upto(|c.bounds|)) && MonotoneOrder(c, Downfrom(|c.bounds|))
  {
    var up, down := Upto(|c.bounds|), Downfrom(|c.bounds|);
    forall k, p: nat, q: nat | k in c.keys && p <= q < |up|
      ensures AnchorAt(c, up, k, p) <= AnchorAt(c, up, k, q)
    {
      assert TimeOf(c, up[p]) <= TimeOf(c, up[q]);
    }
    forall k, p: nat, q: nat | k in c.keys && p <= q < |down|
      ensures AnchorAt(c, down, k, p) >= AnchorAt(c, down, k, q)
    {
      assert TimeOf(c, down[p]) >= TimeOf(c, down[q]);
    }
  }
}
