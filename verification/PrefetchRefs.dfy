/** Reference counts against the slots that hold a task: never below, and equal all along one
    order on a fresh group. */
module PrefetchRefs {
  import opened Wrappers
  import opened NativeData
  import opened PrefetchModel
  import opened PrefetchInvariant
  import opened PrefetchSteps
  import opened PrefetchTheorems

  /** References beyond the slots that hold the task. */
  ghost function Drift(g: Group, id: nat): int
    requires id < |g.heap|
  {
    g.heap[id].refs - Holders(g, id, g.head, g.next)
  }

  /** Every task drifts as it did, and no new task does. */
  ghost predicate SameDrift(g: Group, g1: Group) {
    && |g.heap| <= |g1.heap|
    && (forall id {:trigger DriftKept(g, g1, id)} :: 0 <= id < |g1.heap| ==> DriftKept(g, g1, id))
  }

  ghost predicate DriftKept(g: Group, g1: Group, id: nat)
    requires id < |g1.heap|
  {
    Drift(g1, id) == if id < |g.heap| then Drift(g, id) else 0
  }

  lemma SameDriftChain(g: Group, g1: Group, g2: Group)
    requires SameDrift(g, g1) && SameDrift(g1, g2)
    ensures SameDrift(g, g2)
  {
    hide Drift;
    forall id | 0 <= id < |g2.heap|
      ensures DriftKept(g, g2, id)
    {
      assert DriftKept(g1, g2, id);
      if id < |g1.heap| { assert DriftKept(g, g1, id); }
    }
  }

  /** In every state of every run, restarts included, a task has at least as many references
      as there are held slots that need it. */
  lemma RefsCoverHolders(c: Config, events: seq<Event>, id: nat)
    requires Reachable(c, events) && id < |Run(c, Initial(), events).heap|
    ensures var g := Run(c, Initial(), events);
            g.heap[id].refs >= Holders(g, id, g.head, g.next) && Drift(g, id) >= 0
  {
    ReachableInv(c, events);
  }

  // ---- within an order ------------------------------------------------------------------

  lemma EnteredDrift(c: Config, g: Group, g1: Group, m: map<Key, nat>)
    requires ValidConfig(c) && Core(c, g) && g.next < |g.order|
    requires Admitted(c, g, TimeOf(c, g.order[g.next]), |c.keys|, g1, m)
    ensures SameDrift(g, Entered(g, g1, m))
  {
    hide ValidConfig;
    var g2 := Entered(g, g1, m);
    forall id | 0 <= id < |g2.heap|
      ensures DriftKept(g, g2, id)
    {
      EntryDrift(c, g, g1, m, id);
    }
  }

  /** The entered slot holds a task exactly when the task got its reference for it. */
  lemma EntryRefs(c: Config, g: Group, g1: Group, m: map<Key, nat>, id: nat)
    requires g.next < |g.order| && id < |g1.heap| && Admitted(c, g, TimeOf(c, g.order[g.next]), |c.keys|, g1, m)
    ensures g1.heap[id].refs == (if id < |g.heap| then g.heap[id].refs else 0) + (if Holds(Entered(g, g1, m), g.next, id) then 1 else 0)
    ensures Entered(g, g1, m).heap == g1.heap && Entered(g, g1, m).head == g.head && Entered(g, g1, m).next == g.next + 1
  {
    hide AdmittedTasks, AdmittedKey;
    if id < |g.heap| {
      assert g1.heap[id] == g.heap[id].(refs := g.heap[id].refs + (if Mapped(g.heap, m, id) then 1 else 0));
    } else {
      assert Mapped(g1.heap, m, id);
    }
  }

  lemma OneMoreHolder(g: Group, id: nat, lo: nat, hi: nat)
    requires lo <= hi
    ensures Holders(g, id, lo, hi + 1) == Holders(g, id, lo, hi) + (if Holds(g, hi, id) then 1 else 0)
  {
  }

  lemma EntryDrift(c: Config, g: Group, g1: Group, m: map<Key, nat>, id: nat)
    requires ValidConfig(c) && Core(c, g) && g.next < |g.order| && id < |g1.heap|
    requires Admitted(c, g, TimeOf(c, g.order[g.next]), |c.keys|, g1, m)
    ensures DriftKept(g, Entered(g, g1, m), id)
  {
    hide ValidConfig, Core, Admitted, Holds, Entered, Positions, SlotsOk, Holders;
    CursorsOk(c, g);
    EntryRefs(c, g, g1, m, id);
    var g2 := Entered(g, g1, m);
    OneMoreHolder(g2, id, g.head, g.next);
    HeldBeforeEntry(c, g, g1, m, id);
  }

  /** Before its own slot is counted, an old task is held as it was, and a new one not at all. */
  lemma HeldBeforeEntry(c: Config, g: Group, g1: Group, m: map<Key, nat>, id: nat)
    requires ValidConfig(c) && Core(c, g) && g.next < |g.order| && id < |g1.heap|
    requires Admitted(c, g, TimeOf(c, g.order[g.next]), |c.keys|, g1, m)
    ensures Holders(Entered(g, g1, m), id, g.head, g.next) == if id < |g.heap| then Holders(g, id, g.head, g.next) else 0
  {
    hide ValidConfig, Core, Admitted, Holds, Entered, Positions, SlotsOk, Holders;
    PositionsAndSlots(c, g);
    if id < |g.heap| {
      OldHoldersKept(c, g, g1, m, id);
    } else {
      NewTaskNotHeldBefore(c, g, g1, m, id);
    }
  }

  lemma PositionsAndSlots(c: Config, g: Group)
    requires Core(c, g)
    ensures Positions(c, g) && SlotsOk(c, g)
  {
  }

  /** Settling slots moves no reference. */
  lemma SettledDrift(g: Group, g1: Group)
    requires g1.heap == g.heap && g1.head == g.head && g1.next == g.next
    requires (forall p :: p in g1.slots <==> p in g.slots) && forall p :: p in g.slots ==> g1.slots[p].tasks == g.slots[p].tasks
    ensures SameDrift(g, g1)
  {
    forall id | 0 <= id < |g1.heap|
      ensures DriftKept(g, g1, id)
    {
      HoldersFrame(g, g1, id, g.head, g.next);
    }
  }

  lemma CheckSlotShape(c: Config, g: Group, pos: nat)
    ensures var g1 := CheckSlot(c, g, pos);
            g1 == g.(slots := g1.slots, stop := g1.stop) && (forall p :: p in g1.slots <==> p in g.slots) && forall p :: p in g.slots ==> g1.slots[p].tasks == g.slots[p].tasks
  {
  }

  lemma AdmitSlotDrift(c: Config, g: Group)
    requires ValidConfig(c) && Core(c, g) && MayAdmit(c, g)
    ensures SameDrift(g, AdmitSlot(c, g))
  {
    hide ValidConfig, SameDrift, CheckSlot, AdmitKeys, Admitted;
    var t := TimeOf(c, g.order[g.next]);
    var (g1, m) := AdmitKeys(c, g, t, |c.keys|);
    AdmitKeysAdmits(c, g, t, |c.keys|);
    EnteredDrift(c, g, g1, m);
    EnteredSlots(c, g, g1, m);
    CheckSlotShape(c, Entered(g, g1, m), g.next);
    SettledDrift(Entered(g, g1, m), AdmitSlot(c, g));
    SameDriftChain(g, Entered(g, g1, m), AdmitSlot(c, g));
  }

  lemma EnteredSlots(c: Config, g: Group, g1: Group, m: map<Key, nat>)
    requires g.next < |g.order| && Admitted(c, g, TimeOf(c, g.order[g.next]), |c.keys|, g1, m)
    requires (g1, m) == AdmitKeys(c, g, TimeOf(c, g.order[g.next]), |c.keys|)
    ensures AdmitSlot(c, g) == CheckSlot(c, Entered(g, g1, m), g.next)
  {
    hide AdmittedHeap, AdmittedTasks, AdmittedKey, CheckSlot;
  }

  lemma {:induction false} AdmitDrift(c: Config, g: Group)
    requires ValidConfig(c) && Core(c, g)
    ensures SameDrift(g, Admit(c, g))
    decreases |g.order| - g.next
  {
    hide ValidConfig, Core, SameDrift, OverBudget, AdmitSlot;
    if MayAdmit(c, g) && !OverBudget(c, g) {
      AdmitSlotCursors(c, g);
      AdmitSlotKeepsCore(c, g);
      AdmitSlotDrift(c, g);
      AdmitDrift(c, AdmitSlot(c, g));
      SameDriftChain(g, AdmitSlot(c, g), Admit(c, AdmitSlot(c, g)));
    } else {
      NoDrift(g);
    }
  }

  lemma NoDrift(g: Group)
    ensures SameDrift(g, g)
  {
  }

  /** Releasing the popped slot takes one reference from each task it held, and no other. */
  lemma PoppedRefs(c: Config, g: Group, id: nat)
    requires ValidConfig(c) && Core(c, g) && g.head < g.next && id < |g.heap| && g.head in g.slots
    ensures var g2 := PoppedAndReleased(c, g);
            && id < |g2.heap| && g2.heap[id].refs == g.heap[id].refs - (if Holds(g, g.head, id) then 1 else 0)
            && g2.slots == Popped(g).slots && g2.heap[id].key == g.heap[id].key
  {
    hide ReleaseKeys, SlotsOk, LastOk, TasksOk, StopOk;
    HeadHeld(c, g);
    PoppedReleases(c, g);
    assert c.keys[..|c.keys|] == c.keys;
    assert TaskOk(c, g, g.heap[id]);
    HeadMapOk(c, g);
    assert Holds(g, g.head, id) == Mapped(g.heap, g.slots[g.head].tasks, id);
  }

  lemma PoppedHolds(g: Group, g2: Group, id: nat)
    requires g2.slots == Popped(g).slots && id < |g.heap| && id < |g2.heap| && g2.heap[id].key == g.heap[id].key
    ensures forall p :: g.head < p ==> Holds(g, p, id) == Holds(g2, p, id)
  {
  }

  lemma PoppedDrift(c: Config, g: Group, id: nat)
    requires ValidConfig(c) && Core(c, g) && g.head < g.next && id < |g.heap|
    ensures var g2 := PoppedAndReleased(c, g);
            id < |g2.heap| && g2.heap[id].refs - Holders(g2, id, g.head + 1, g.next) == Drift(g, id)
  {
    HeadHeld(c, g);
    PoppedRefs(c, g, id);
    PoppedHolds(g, PoppedAndReleased(c, g), id);
    hide Core, ValidConfig, PoppedAndReleased, SlotOk, Fresh, Holds;
    HoldersFromFront(g, id, g.head, g.next);
    HoldersFrame(g, PoppedAndReleased(c, g), id, g.head + 1, g.next);
  }

  lemma DeliverDrift(c: Config, g: Group)
    requires ValidConfig(c) && Core(c, g) && g.head < g.next && g.head in g.slots
    ensures SameDrift(g, Deliver(c, Popped(g), g.slots[g.head].tasks))
  {
    hide ReleaseKeys, Core, ValidConfig, Deliver, PoppedAndReleased;
    var g3 := Deliver(c, Popped(g), g.slots[g.head].tasks);
    DeliverIsRelease(c, g);
    PoppedFrame(c, g);
    forall id | 0 <= id < |g3.heap|
      ensures DriftKept(g, g3, id)
    {
      PoppedDrift(c, g, id);
      HoldersFrame(PoppedAndReleased(c, g), g3, id, g.head + 1, g.next);
    }
  }

  lemma RecordDrift(c: Config, g: Group, id: nat, outcome: Result<Data, Error>)
    requires id < |g.heap|
    ensures SameDrift(g, Record(c, g, id, outcome))
  {
    var g1 := Record(c, g, id, outcome);
    forall j | 0 <= j < |g1.heap|
      ensures DriftKept(g, g1, j)
    {
      HoldersFrame(g, g1, j, g.head, g.next);
    }
  }

  lemma FinishDrift(c: Config, g: Group, id: nat, outcome: Result<Data, Error>)
    requires ValidConfig(c) && Core(c, g) && Possible(c, g, EvFinish(id, outcome))
    ensures SameDrift(g, Finish(c, g, id, outcome))
  {
    CursorsOk(c, g);
    hide ValidConfig, Core, SameDrift, Record, CheckRange, Checked, Admit;
    if g.heap[id].gen == g.gen && !g.heap[id].Done() {
      var g1 := Record(c, g, id, outcome);
      var g2 := CheckRange(c, g1, id, g.head, g.next);
      RecordDrift(c, g, id, outcome);
      CheckedCore(c, g, id, outcome);
      CheckedShape(c, g1, id, g.head, g.next, g2);
      SettledDrift(g1, g2);
      AdmitDrift(c, g2);
      SameDriftChain(g, g1, g2);
      SameDriftChain(g, g2, Admit(c, g2));
    } else {
      NoDrift(g);
    }
  }

  lemma CursorsOk(c: Config, g: Group)
    requires Core(c, g)
    ensures g.head <= g.next && g.phase == Running
  {
  }

  lemma CheckedShape(c: Config, g: Group, id: nat, lo: nat, hi: nat, g1: Group)
    requires Checked(c, g, id, lo, hi, g1)
    ensures g1.heap == g.heap && g1.head == g.head && g1.next == g.next && (forall p :: p in g1.slots <==> p in g.slots) && forall p :: p in g.slots ==> g1.slots[p].tasks == g.slots[p].tasks
  {
  }

  lemma TakeDrift(c: Config, g: Group, k: int)
    requires ValidConfig(c) && Core(c, g)
    ensures Take(c, g, k).1.Took? ==> SameDrift(g, Take(c, g, k).0)
    ensures !Take(c, g, k).1.Took? && Take(c, g, k).0.phase == Running ==> Take(c, g, k).0 == g
  {
    hide *;
    TakeIs(c, g, k);
    if Take(c, g, k).1.Took? { TakenDrift(c, g, k); }
  }

  /** A take that delivers takes a settled head slot; any other leaves a running group as it was. */
  lemma TakeIs(c: Config, g: Group, k: int)
    ensures Take(c, g, k).1.Took? ==>
              && g.head in g.slots && g.slots[g.head].done && g.slots[g.head].error.None?
              && Take(c, g, k).0 == Admit(c, Deliver(c, Popped(g), g.slots[g.head].tasks))
    ensures !Take(c, g, k).1.Took? && Take(c, g, k).0.phase == Running ==> Take(c, g, k).0 == g
  {
    hide Admit, Deliver, ReleaseKeys, Samples;
  }

  lemma TakenDrift(c: Config, g: Group, k: int)
    requires ValidConfig(c) && Core(c, g) && Take(c, g, k).1.Took?
    ensures SameDrift(g, Take(c, g, k).0)
  {
    hide *;
    TakeIs(c, g, k);
    HeadIsSettled(c, g);
    var g1 := Deliver(c, Popped(g), g.slots[g.head].tasks);
    DeliverKeepsCore(c, g);
    DeliverDrift(c, g);
    AdmitDrift(c, g1);
    SameDriftChain(g, g1, Admit(c, g1));
  }

  lemma HeadIsSettled(c: Config, g: Group)
    requires Core(c, g) && g.head in g.slots
    ensures g.head < g.next
  {
  }

  lemma RunningCore(c: Config, g: Group)
    requires Inv(c, g) && g.phase == Running
    ensures Core(c, g)
  {
    hide Core, Always;
  }

  /** A take that does not end the order, and any finish, leaves every drift as it was. */
  lemma StepDrift(c: Config, g: Group, e: Event)
    requires ValidConfig(c) && Inv(c, g) && g.phase == Running && Possible(c, g, e) && (e.EvTake? || e.EvFinish?)
    ensures Step(c, g, e).0.phase == Running ==> SameDrift(g, Step(c, g, e).0)
  {
    hide Core, Inv, ValidConfig, SameDrift, Take, Finish;
    RunningCore(c, g);
    NoDrift(g);
    if e.EvTake? {
      TakeDrift(c, g, e.k);
    } else {
      FinishDrift(c, g, e.id, e.outcome);
    }
  }

  /** On a fresh group, along a run with one start, every task of a running group has exactly
      as many references as there are slots that hold it. */
  lemma OneStartExactRefs(c: Config, order: seq<nat>, events: seq<Event>)
    requires ValidConfig(c) && Possible(c, Initial(), EvStart(order)) && PossibleRun(c, Start(c, Initial(), order), events)
    requires forall i :: 0 <= i < |events| ==> events[i].EvTake? || events[i].EvFinish?
    ensures var g := Run(c, Start(c, Initial(), order), events);
            g.phase == Running ==> forall id :: 0 <= id < |g.heap| ==> g.heap[id].refs == Holders(g, id, g.head, g.next)
  {
    hide ValidConfig, Start, Run;
    InitialInv(c);
    StartKeepsInv(c, Initial(), order);
    FreshStartDrift(c, order);
    RunDrift(c, Start(c, Initial(), order), events);
    var g := Run(c, Start(c, Initial(), order), events);
    if g.phase == Running {
      forall id | 0 <= id < |g.heap|
        ensures g.heap[id].refs == Holders(g, id, g.head, g.next)
      {
        assert Drift(g, id) == 0;
      }
    }
  }

  ghost predicate NoneDrifts(g: Group) {
    forall id :: 0 <= id < |g.heap| ==> Drift(g, id) == 0
  }

  lemma SameDriftNone(g: Group, g1: Group)
    requires NoneDrifts(g) && SameDrift(g, g1)
    ensures NoneDrifts(g1)
  {
    hide Drift;
    forall id | 0 <= id < |g1.heap|
      ensures Drift(g1, id) == 0
    {
      assert DriftKept(g, g1, id);
    }
  }

  lemma FreshStartDrift(c: Config, order: seq<nat>)
    requires ValidConfig(c) && Possible(c, Initial(), EvStart(order))
    ensures NoneDrifts(Start(c, Initial(), order)) && Start(c, Initial(), order).phase == Running
  {
    InitialInv(c);
    StartCore(c, Initial(), order);
    var g1 := Restarted(Initial(), order);
    hide SameDrift, ValidConfig, Inv, Core;
    AdmitDrift(c, g1);
    AdmitKeepsInv(c, g1);
    SameDriftNone(g1, Admit(c, g1));
  }

  lemma {:induction false} RunDrift(c: Config, g: Group, events: seq<Event>)
    requires ValidConfig(c) && Inv(c, g) && NoneDrifts(g) && g.phase == Running && PossibleRun(c, g, events)
    requires forall i :: 0 <= i < |events| ==> events[i].EvTake? || events[i].EvFinish?
    ensures Run(c, g, events).phase == Running ==> NoneDrifts(Run(c, g, events))
    decreases |events|
  {
    hide NoneDrifts, Inv, ValidConfig, SameDrift;
    if events != [] {
      var front, e := events[..|events| - 1], events[|events| - 1];
      RunDrift(c, g, front);
      RunKeepsInv(c, g, front);
      var g1 := Run(c, g, front);
      if g1.phase == Running {
        StepDrift(c, g1, e);
        if Step(c, g1, e).0.phase == Running { SameDriftNone(g1, Step(c, g1, e).0); }
      } else {
        StoppedStays(c, g1, e);
      }
    }
  }

  lemma StoppedStays(c: Config, g: Group, e: Event)
    requires g.phase != Running && (e.EvTake? || e.EvFinish?)
    ensures Step(c, g, e).0.phase != Running
  {
    if e.EvFinish? {
      hide CheckRange;
      if e.id < |g.heap| && g.head <= g.next {
        CheckRangePhase(c, Record(c, g, e.id, e.outcome), e.id, g.head, g.next);
      }
    }
  }

  lemma {:induction false} CheckRangePhase(c: Config, g: Group, id: nat, lo: nat, hi: nat)
    requires lo <= hi
    ensures CheckRange(c, g, id, lo, hi).phase == g.phase
    decreases hi - lo
  {
    if lo < hi { CheckRangePhase(c, g, id, lo, hi - 1); }
  }
}
