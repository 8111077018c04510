/** The memory budget holds in every reachable state when sample sizes are constant. */
module PrefetchBudget {
  import opened Wrappers
  import opened NativeData
  import opened FiniteSum
  import opened PrefetchModel
  import opened PrefetchInvariant
  import opened PrefetchSteps
  import opened PrefetchTheorems

  /** Each member's samples all have one size. */
  ghost predicate ConstantSizes(c: Config, size: Key -> nat) {
    forall k, t :: k in c.keys && c.decode(k, t).Ok? ==> c.nbytes(c.decode(k, t).value) == size(k)
  }

  ghost predicate SizesKnownRight(c: Config, g: Group, size: Key -> nat) {
    forall k :: k in g.size ==> g.size[k] == size(k)
  }

  /** At most one slot is held, or all sizes are known and the held bytes fit. */
  ghost predicate WithinBudget(c: Config, g: Group, max: nat) {
    g.next <= g.head + 1 || (!HeldUnknown(g) && HeldBytes(c, g) <= max)
  }

  // ---- held bytes through the parts of a step -----------------------------------------

  /** Tasks that are still held weigh no more than they did. */
  ghost predicate NoHeavier(c: Config, g: Group, g1: Group) {
    forall p :: p in g1.tasks ==>
      (p in g.tasks && Weight(c, g1, g1.tasks[p]) <= Weight(c, g, g.tasks[p]) && (SizeUnknown(g1, g1.tasks[p]) ==> SizeUnknown(g, g.tasks[p])))
  }

  lemma NoHeavierFits(c: Config, g: Group, g1: Group, max: nat)
    requires NoHeavier(c, g, g1) && WithinBudget(c, g, max) && g1.next - g1.head <= g.next - g.head
    ensures WithinBudget(c, g1, max)
  {
    if g1.next > g1.head + 1 {
      forall p | p in g1.tasks
        ensures !SizeUnknown(g1, g1.tasks[p])
      {
      }
      SumMonotone(Weights(c, g1), Weights(c, g));
    }
  }

  /** Tasks held before an admission step weigh the same after it. */
  lemma OldWeights(c: Config, g: Group, key: Key, t: int, q: (Key, int))
    requires TasksOk(g) && q in g.tasks
    ensures var g1 := AdmitKey(c, g, key, t).0;
            Weight(c, g1, g.tasks[q]) == Weight(c, g, g.tasks[q]) && (SizeUnknown(g1, g.tasks[q]) <==> SizeUnknown(g, g.tasks[q]))
  {
    assert HeldAt(g, q, g.tasks[q]);
  }

  lemma HeldTasksStay(c: Config, g: Group, key: Key, t: int)
    ensures var (g1, id) := AdmitKey(c, g, key, t);
            var p := (key, c.anchorOf(key, t));
            g1.tasks == g.tasks[p := id] && (p in g.tasks ==> g1.tasks == g.tasks && KeyEstimate(c, g, key, p.1) == Some(0))
  {
  }

  /** One admission step adds exactly its estimate. */
  lemma AdmitKeyBytes(c: Config, g: Group, key: Key, t: int)
    requires TasksOk(g) && LastOk(g) && !HeldUnknown(g)
    requires KeyEstimate(c, g, key, c.anchorOf(key, t)).Some?
    ensures var g1 := AdmitKey(c, g, key, t).0;
            !HeldUnknown(g1) && HeldBytes(c, g1) == HeldBytes(c, g) + KeyEstimate(c, g, key, c.anchorOf(key, t)).value
  {
    hide AdmitKey, KeyEstimate, TasksOk, LastOk, Weight, SizeUnknown;
    var p := (key, c.anchorOf(key, t));
    var (g1, id) := AdmitKey(c, g, key, t);
    HeldTasksStay(c, g, key, t);
    forall q | q in g.tasks
      ensures Weight(c, g1, g.tasks[q]) == Weight(c, g, g.tasks[q]) && !SizeUnknown(g1, g.tasks[q])
    {
      OldWeights(c, g, key, t, q);
    }
    if p in g.tasks {
      assert Weights(c, g1) == Weights(c, g);
    } else {
      NewWeight(c, g, key, t);
      var w := Weight(c, g1, id);
      assert Weights(c, g1) == Weights(c, g)[p := w];
      SumInsert(Weights(c, g), p, w);
    }
  }

  lemma NewWeight(c: Config, g: Group, key: Key, t: int)
    requires TasksOk(g) && LastOk(g) && (key, c.anchorOf(key, t)) !in g.tasks
    requires KeyEstimate(c, g, key, c.anchorOf(key, t)).Some?
    ensures var (g1, id) := AdmitKey(c, g, key, t);
            g1.tasks == g.tasks[(key, c.anchorOf(key, t)) := id] && !SizeUnknown(g1, id)
            && Weight(c, g1, id) == KeyEstimate(c, g, key, c.anchorOf(key, t)).value
  {
  }

  /** Estimates of members still to come are not affected by the ones before. */
  lemma LaterEstimate(c: Config, g: Group, t: int, i: nat, g1: Group, m: map<Key, nat>)
    requires ValidConfig(c) && i < |c.keys| && TasksOk(g) && LastOk(g) && Admitted(c, g, t, i, g1, m)
    ensures KeyEstimate(c, g1, c.keys[i], c.anchorOf(c.keys[i], t)) == KeyEstimate(c, g, c.keys[i], c.anchorOf(c.keys[i], t))
  {
    hide ValidConfig, AdmittedKey, TasksOk, LastOk, AdmittedTasks, AdmittedHeap, Lookup, KeyEstimate;
    var key := c.keys[i];
    KeysDistinct(c, i);
    LookupUnchanged(c, g, t, g1, m, key);
    SameEstimate(c, g, t, g1, m, key);
  }

  lemma SameEstimate(c: Config, g: Group, t: int, g1: Group, m: map<Key, nat>, key: Key)
    requires AdmittedHeap(c, g, t, g1, m) && AdmittedTasks(c, g, t, g1, m) && g1.size == g.size && key !in m
    requires Lookup(g1, key, c.anchorOf(key, t)) == Lookup(g, key, c.anchorOf(key, t))
    requires var found := Lookup(g, key, c.anchorOf(key, t)); found.Some? ==> found.value < |g.heap|
    ensures KeyEstimate(c, g1, key, c.anchorOf(key, t)) == KeyEstimate(c, g, key, c.anchorOf(key, t))
  {
  }

  lemma AdmittedOk(c: Config, g: Group, t: int, i: nat, g1: Group, m: map<Key, nat>)
    requires i <= |c.keys| && TasksOk(g) && LastOk(g) && Admitted(c, g, t, i, g1, m)
    ensures TasksOk(g1) && LastOk(g1)
  {
    hide Mapped;
    forall p | p in g1.tasks
      ensures HeldAt(g1, p, g1.tasks[p])
    {
      if p in g.tasks {
        assert HeldAt(g, p, g.tasks[p]);
      } else {
        assert AdmittedKey(c, g, t, g1, m, p.0);
      }
    }
  }

  /** Admitting a whole slot whose sizes are known adds exactly the slot's estimate. */
  lemma {:induction false} AdmitKeysBytes(c: Config, g: Group, t: int, i: nat)
    requires ValidConfig(c) && i <= |c.keys| && TasksOk(g) && LastOk(g) && !HeldUnknown(g)
    requires Estimate(c, g, t, i).Some?
    ensures var g1 := AdmitKeys(c, g, t, i).0;
            !HeldUnknown(g1) && HeldBytes(c, g1) == HeldBytes(c, g) + Estimate(c, g, t, i).value
  {
    hide ValidConfig, TasksOk, LastOk, HeldUnknown, HeldBytes, KeyEstimate, AdmitKey, Admitted, AdmitKeys;
    if i == 0 {
      AdmitNoKeysIs(c, g, t);
    } else {
      AdmitKeysBytes(c, g, t, i - 1);
      AdmitKeysAdmits(c, g, t, i - 1);
      AdmitKeysStep(c, g, t, i);
      var (g1, m) := AdmitKeys(c, g, t, i - 1);
      LaterEstimate(c, g, t, i - 1, g1, m);
      AdmittedOk(c, g, t, i - 1, g1, m);
      AdmitKeyBytes(c, g1, c.keys[i - 1], t);
    }
  }

  lemma AdmitNoKeysIs(c: Config, g: Group, t: int)
    ensures AdmitKeys(c, g, t, 0) == (g, map[])
  {
  }

  // ---- steps ------------------------------------------------------------------------------

  ghost predicate Budgeted(c: Config, g: Group, size: Key -> nat) {
    c.maxBytes.Some? && SizesKnownRight(c, g, size) && (g.phase == Running ==> WithinBudget(c, g, c.maxBytes.value))
  }

  lemma SameBytes(c: Config, g: Group, g1: Group)
    requires g1.heap == g.heap && g1.tasks == g.tasks && g1.size == g.size
    ensures HeldBytes(c, g1) == HeldBytes(c, g) && (HeldUnknown(g1) <==> HeldUnknown(g))
  {
    forall p | p in g.tasks
      ensures Weight(c, g1, g.tasks[p]) == Weight(c, g, g.tasks[p])
    {
    }
    assert Weights(c, g1) == Weights(c, g);
    if HeldUnknown(g) {
      var p :| p in g.tasks && SizeUnknown(g, g.tasks[p]);
      assert SizeUnknown(g1, g1.tasks[p]);
    }
  }

  lemma AdmitSlotBudget(c: Config, g: Group, size: Key -> nat)
    requires ValidConfig(c) && Core(c, g) && MayAdmit(c, g) && !OverBudget(c, g) && Budgeted(c, g, size)
    ensures Budgeted(c, AdmitSlot(c, g), size)
  {
    AdmitSlotFrame(c, g);
    AdmitSlotCursors(c, g);
    if g.next != g.head {
      HeadHeld(c, g);
      var t := TimeOf(c, g.order[g.next]);
      assert Estimate(c, g, t, |c.keys|).Some? && !HeldUnknown(g);
      AdmitKeysBytes(c, g, t, |c.keys|);
      AdmitsAtNext(c, g);
      var (g1, m) := AdmitKeys(c, g, t, |c.keys|);
      AdmitSlotBytes(c, g, g1, m);
    }
  }

  lemma AdmitSlotBytes(c: Config, g: Group, g1: Group, m: map<Key, nat>)
    requires g.next < |g.order| && AdmitSlot(c, g) == CheckSlot(c, Entered(g, g1, m), g.next)
    ensures HeldBytes(c, AdmitSlot(c, g)) == HeldBytes(c, g1) && (HeldUnknown(AdmitSlot(c, g)) <==> HeldUnknown(g1))
  {
    hide AdmitSlot, HeldBytes, HeldUnknown;
    CheckSlotFrame(c, Entered(g, g1, m), g.next);
    SameBytes(c, g1, AdmitSlot(c, g));
  }

  lemma {:induction false} AdmitBudget(c: Config, g: Group, size: Key -> nat)
    requires ValidConfig(c) && Core(c, g) && Budgeted(c, g, size)
    ensures Budgeted(c, Admit(c, g), size)
    decreases |g.order| - g.next
  {
    if MayAdmit(c, g) && !OverBudget(c, g) {
      AdmitSlotCursors(c, g);
      AdmitSlotBudget(c, g, size);
      AdmitSlotKeepsCore(c, g);
      AdmitBudget(c, AdmitSlot(c, g), size);
    }
  }

  /** A finished task weighs what was estimated for it, or nothing if it failed. */
  lemma RecordNoHeavier(c: Config, g: Group, id: nat, outcome: Result<Data, Error>, size: Key -> nat)
    requires ConstantSizes(c, size) && SizesKnownRight(c, g, size) && HeapOk(c, g) && TasksOk(g)
    requires Possible(c, g, EvFinish(id, outcome)) && !g.heap[id].Done() && !HeldUnknown(g)
    ensures NoHeavier(c, g, Record(c, g, id, outcome))
  {
    var g1 := Record(c, g, id, outcome);
    assert TaskOk(c, g, g.heap[id]);
    forall p | p in g1.tasks
      ensures p in g.tasks && Weight(c, g1, g1.tasks[p]) <= Weight(c, g, g.tasks[p]) && (SizeUnknown(g1, g1.tasks[p]) ==> SizeUnknown(g, g.tasks[p]))
    {
      assert HeldAt(g, p, g.tasks[p]) && !SizeUnknown(g, g.tasks[p]);
    }
  }

  lemma RecordSizes(c: Config, g: Group, id: nat, outcome: Result<Data, Error>, size: Key -> nat)
    requires ConstantSizes(c, size) && SizesKnownRight(c, g, size) && HeapOk(c, g) && Possible(c, g, EvFinish(id, outcome))
    ensures SizesKnownRight(c, Record(c, g, id, outcome), size)
  {
    assert TaskOk(c, g, g.heap[id]);
  }

  lemma FinishBudget(c: Config, g: Group, id: nat, outcome: Result<Data, Error>, size: Key -> nat)
    requires ValidConfig(c) && ConstantSizes(c, size) && Inv(c, g) && Possible(c, g, EvFinish(id, outcome)) && Budgeted(c, g, size)
    ensures Budgeted(c, Finish(c, g, id, outcome), size)
  {
    FinishFrame(c, g, id, outcome);
    if g.heap[id].gen == g.gen && !g.heap[id].Done() {
      var g1 := Record(c, g, id, outcome);
      RecordSizes(c, g, id, outcome, size);
      if g.phase == Running {
        CheckedCore(c, g, id, outcome);
        RecordBudget(c, g, id, outcome, size);
        var g2 := CheckRange(c, g1, id, g.head, g.next);
        SameBytes(c, g1, g2);
        AdmitBudget(c, g2, size);
      } else if g.head <= g.next {
        EmptyRange(c, g1, id, g.head, g.next);
      }
    }
  }

  lemma RecordBudget(c: Config, g: Group, id: nat, outcome: Result<Data, Error>, size: Key -> nat)
    requires ConstantSizes(c, size) && Core(c, g) && Possible(c, g, EvFinish(id, outcome)) && !g.heap[id].Done() && Budgeted(c, g, size)
    ensures WithinBudget(c, Record(c, g, id, outcome), c.maxBytes.value)
  {
    hide HeldBytes, HeldUnknown, NoHeavier;
    if g.next > g.head + 1 {
      RecordNoHeavier(c, g, id, outcome, size);
      NoHeavierFits(c, g, Record(c, g, id, outcome), c.maxBytes.value);
    }
  }

  lemma TakeBudget(c: Config, g: Group, k: int, size: Key -> nat)
    requires ValidConfig(c) && Inv(c, g) && Budgeted(c, g, size)
    ensures Budgeted(c, Take(c, g, k).0, size)
  {
    hide Inv, ValidConfig, Admit, Deliver, ReleaseKeys, WithinBudget, SizesKnownRight;
    if Take(c, g, k).1.Took? {
      TookAtHead(c, g, k);
      var g1 := Deliver(c, Popped(g), g.slots[g.head].tasks);
      DeliverKeepsCore(c, g);
      DeliveredNoHeavier(c, g);
      NoHeavierFits(c, g, g1, c.maxBytes.value);
      SizesFrame(c, g, g1, size);
      AdmitBudget(c, g1, size);
    } else if Take(c, g, k).1.Raised? {
      ReleaseKeysFrame(c, Popped(g), g.slots[g.head].tasks, |c.keys|);
      SizesFrame(c, g, Take(c, g, k).0, size);
    }
  }

  lemma SizesFrame(c: Config, g: Group, g1: Group, size: Key -> nat)
    requires SizesKnownRight(c, g, size) && g1.size == g.size
    ensures SizesKnownRight(c, g1, size)
  {
  }

  lemma DeliveredFrame(c: Config, g: Group)
    requires ValidConfig(c) && Core(c, g) && g.head < g.next && g.head in g.slots
    ensures var g1, g2 := Deliver(c, Popped(g), g.slots[g.head].tasks), PoppedAndReleased(c, g);
            g1.heap == g2.heap && g1.tasks == g2.tasks && g1.next == g.next && g1.head == g.head + 1 && g1.size == g.size && g1.phase == g.phase
  {
    hide ValidConfig, Core, ReleaseKeys, Deliver, PoppedAndReleased;
    DeliverIsRelease(c, g);
    PoppedFrame(c, g);
  }

  /** A task still held after a delivery weighs what it weighed before. */
  lemma DeliveredTask(c: Config, g: Group, p: (Key, int))
    requires ValidConfig(c) && Core(c, g) && g.head < g.next && g.head in g.slots
    requires p in Deliver(c, Popped(g), g.slots[g.head].tasks).tasks
    ensures var g1 := Deliver(c, Popped(g), g.slots[g.head].tasks);
            p in g.tasks && Weight(c, g1, g1.tasks[p]) <= Weight(c, g, g.tasks[p]) && (SizeUnknown(g1, g1.tasks[p]) ==> SizeUnknown(g, g.tasks[p]))
  {
    hide ValidConfig, Core, TasksOk, Released, ReleaseKeys, Deliver, PoppedAndReleased, Weight, SizeUnknown;
    var g1, g2 := Deliver(c, Popped(g), g.slots[g.head].tasks), PoppedAndReleased(c, g);
    DeliveredFrame(c, g);
    PoppedReleases(c, g);
    ReleasedTasks(c, Popped(g), g.slots[g.head].tasks, g2);
    CoreTasksOk(c, g);
    TaskInHeap(g, p);
    ReleaseKeepsOutcome(c, g, g.tasks[p]);
    SameWeight(c, g, g1, g.tasks[p]);
  }

  lemma DeliveredNoHeavier(c: Config, g: Group)
    requires ValidConfig(c) && Core(c, g) && g.head < g.next && g.head in g.slots && g.phase == Running
    ensures var g1 := Deliver(c, Popped(g), g.slots[g.head].tasks);
            NoHeavier(c, g, g1) && g1.next == g.next && g1.head == g.head + 1 && g1.size == g.size && g1.phase == Running
  {
    hide ValidConfig, Core, Deliver, Popped, PoppedAndReleased, Weight, SizeUnknown;
    DeliveredFrame(c, g);
    var g1 := Deliver(c, Popped(g), g.slots[g.head].tasks);
    forall p | p in g1.tasks
      ensures p in g.tasks && Weight(c, g1, g1.tasks[p]) <= Weight(c, g, g.tasks[p]) && (SizeUnknown(g1, g1.tasks[p]) ==> SizeUnknown(g, g.tasks[p]))
    {
      DeliveredTask(c, g, p);
    }
  }

  lemma CoreTasksOk(c: Config, g: Group)
    requires Core(c, g)
    ensures TasksOk(g)
  {
  }

  lemma TaskInHeap(g: Group, p: (Key, int))
    requires TasksOk(g) && p in g.tasks
    ensures g.tasks[p] < |g.heap|
  {
    assert HeldAt(g, p, g.tasks[p]);
  }

  lemma SameWeight(c: Config, g: Group, g1: Group, id: nat)
    requires id < |g.heap| && id < |g1.heap| && g1.heap[id].key == g.heap[id].key && g1.heap[id].outcome == g.heap[id].outcome && g1.size == g.size
    ensures Weight(c, g1, id) == Weight(c, g, id) && (SizeUnknown(g1, id) <==> SizeUnknown(g, id))
  {
  }

  lemma ReleasedTasks(c: Config, g: Group, m: map<Key, nat>, g1: Group)
    requires Released(c, g, m, |c.keys|, g1)
    ensures forall p :: p in g1.tasks ==> p in g.tasks && g1.tasks[p] == g.tasks[p]
  {
  }

  lemma StepBudget(c: Config, g: Group, e: Event, size: Key -> nat)
    requires ValidConfig(c) && ConstantSizes(c, size) && Inv(c, g) && Possible(c, g, e) && Budgeted(c, g, size)
    ensures Budgeted(c, Step(c, g, e).0, size)
  {
    hide Inv, ValidConfig, ConstantSizes, WithinBudget, SizesKnownRight, Admit, Take, Finish;
    match e
    case EvStart(order) =>
      if g.phase != Closed {
        StartCore(c, g, order);
        var g1 := Restarted(g, order);
        SizesFrame(c, g, g1, size);
        NothingHeldFits(c, g1, c.maxBytes.value);
        AdmitBudget(c, g1, size);
      }
    case EvTake(k) => TakeBudget(c, g, k, size);
    case EvCancel => SizesFrame(c, g, Cancel(g), size);
    case EvClose => SizesFrame(c, g, Close(g), size);
    case EvFinish(id, outcome) => FinishBudget(c, g, id, outcome, size);
  }

  lemma NothingHeldFits(c: Config, g: Group, max: nat)
    requires g.next <= g.head
    ensures WithinBudget(c, g, max)
  {
  }

  /** In every reachable state at most one slot is held, or every held size is known and
      the bytes of the held tasks, in-flight ones at their estimate, fit the budget. */
  lemma {:induction false} BudgetHolds(c: Config, events: seq<Event>, size: Key -> nat)
    requires Reachable(c, events) && ConstantSizes(c, size) && c.maxBytes.Some?
    ensures Budgeted(c, Run(c, Initial(), events), size)
    decreases |events|
  {
    hide Budgeted, ConstantSizes;
    if events == [] {
      InitialBudgeted(c, size);
    } else {
      var front := events[..|events| - 1];
      BudgetHolds(c, front, size);
      ReachableInv(c, front);
      StepBudget(c, Run(c, Initial(), front), events[|events| - 1], size);
    }
  }

  /** The held tasks at their members' constant sizes, failed ones at nothing. */
  ghost function SizesHeld(g: Group, size: Key -> nat): map<(Key, int), nat> {
    map p | p in g.tasks :: if g.tasks[p] < |g.heap| && g.heap[g.tasks[p]].Failed() then 0 else size(p.0)
  }

  /** In the members' own sizes: with two slots held or more, every held task counted once at
      its member's size, in flight or decoded, comes to no more than the budget, and no member
      with a task in flight is one whose size is not known. */
  lemma BudgetInSizes(c: Config, events: seq<Event>, size: Key -> nat)
    requires Reachable(c, events) && ConstantSizes(c, size) && c.maxBytes.Some?
    ensures var g := Run(c, Initial(), events);
            g.phase == Running && g.next > g.head + 1 ==>
              && Sum(SizesHeld(g, size)) <= c.maxBytes.value
              && forall p :: p in g.tasks && g.tasks[p] < |g.heap| && g.heap[g.tasks[p]].outcome.None? ==> g.heap[g.tasks[p]].key in g.size
  {
    hide Run, Reachable, SizesHeld;
    ReachableInv(c, events);
    BudgetHolds(c, events, size);
    var g := Run(c, Initial(), events);
    if g.phase == Running && g.next > g.head + 1 {
      HeldAtSizes(c, g, size);
      forall p | p in g.tasks && g.tasks[p] < |g.heap| && g.heap[g.tasks[p]].outcome.None?
        ensures g.heap[g.tasks[p]].key in g.size
      {
        assert !SizeUnknown(g, g.tasks[p]);
      }
    }
  }

  lemma HeldAtSizes(c: Config, g: Group, size: Key -> nat)
    requires ConstantSizes(c, size) && SizesKnownRight(c, g, size) && Inv(c, g) && !HeldUnknown(g)
    ensures HeldBytes(c, g) == Sum(SizesHeld(g, size))
  {
    hide ConstantSizes, SizesKnownRight, Inv, HeapOk, TasksOk, Weight, SizeUnknown;
    InvTasks(c, g);
    forall p | p in g.tasks
      ensures Weights(c, g)[p] == SizesHeld(g, size)[p]
    {
      OneAtSize(c, g, size, p);
    }
    assert Weights(c, g) == SizesHeld(g, size);
  }

  lemma InvTasks(c: Config, g: Group)
    requires Inv(c, g)
    ensures HeapOk(c, g) && TasksOk(g)
  {
    hide Core, HeapOk, TasksOk;
  }

  lemma OneAtSize(c: Config, g: Group, size: Key -> nat, p: (Key, int))
    requires ConstantSizes(c, size) && SizesKnownRight(c, g, size) && HeapOk(c, g) && TasksOk(g) && p in g.tasks && !SizeUnknown(g, g.tasks[p])
    ensures Weight(c, g, g.tasks[p]) == if g.tasks[p] < |g.heap| && g.heap[g.tasks[p]].Failed() then 0 else size(p.0)
  {
    assert HeldAt(g, p, g.tasks[p]) && TaskOk(c, g, g.heap[g.tasks[p]]);
  }

  lemma InitialBudgeted(c: Config, size: Key -> nat)
    requires c.maxBytes.Some?
    ensures Budgeted(c, Initial(), size)
  {
  }
}
