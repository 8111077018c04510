/** Every step of the prefetch group keeps its invariant. */
module PrefetchSteps {
  import opened Wrappers
  import opened NativeData
  import opened PrefetchModel
  import opened PrefetchInvariant

  // ---- admission -----------------------------------------------------------------

  /** The entered slot, settled or not, leaves a well-formed running group. */
  lemma AdmitSlotKeepsCore(c: Config, g: Group)
    requires ValidConfig(c) && Core(c, g) && MayAdmit(c, g)
    ensures Core(c, AdmitSlot(c, g))
  {
    var t := TimeOf(c, g.order[g.next]);
    var (g1, m) := AdmitKeys(c, g, t, |c.keys|);
    AdmitKeysAdmits(c, g, t, |c.keys|);
    EnteredKeepsCore(c, g, g1, m);
  }

  lemma EnteredKeepsCore(c: Config, g: Group, g1: Group, m: map<Key, nat>)
    requires ValidConfig(c) && Core(c, g) && MayAdmit(c, g)
    requires Admitted(c, g, TimeOf(c, g.order[g.next]), |c.keys|, g1, m)
    ensures Core(c, CheckSlot(c, Entered(g, g1, m), g.next))
  {
    hide Admitted, SlotOk, Fresh, RefsOk, HeapOk, TasksOk, LastOk, ValidConfig, CheckSlot;
    var g2 := Entered(g, g1, m);
    var t := TimeOf(c, g.order[g.next]);
    EnteredFrame(c, g, g1, m);
    AdmittedHeapIsOk(c, g, t, g1, m);
    SameHeapSameOk(c, g1, g2);
    AdmittedSlotKeepsRefs(c, g, g1, m);
    forall p | p in g2.slots
      ensures SlotOk(c, g2, p) && (p != g.next ==> Fresh(c, g2, p))
    {
      EnteredSlotsAreOk(c, g, g1, m, p);
    }
    CoreQuiet(c, g);
    CheckKeepsCore(c, g2, g.next);
  }

  lemma EnteredFrame(c: Config, g: Group, g1: Group, m: map<Key, nat>)
    requires Core(c, g) && MayAdmit(c, g)
    requires Admitted(c, g, TimeOf(c, g.order[g.next]), |c.keys|, g1, m)
    ensures g1 == g.(heap := g1.heap, tasks := g1.tasks, reused := g1.reused)
    ensures var g2 := Entered(g, g1, m);
      && Positions(c, g2) && StopOk(g2) && OrderOk(c, g2) && g2.phase == Running
      && !g2.slots[g.next].done && g2.slots[g.next].error.None?
      && (forall p :: p in g.slots ==> g2.slots[p] == g.slots[p])
  {
  }

  lemma SameHeapSameOk(c: Config, g: Group, g1: Group)
    requires g1.heap == g.heap && g1.tasks == g.tasks && g1.last == g.last && g1.gen == g.gen
    requires HeapOk(c, g) && TasksOk(g) && LastOk(g)
    ensures HeapOk(c, g1) && TasksOk(g1) && LastOk(g1)
  {
    forall id | 0 <= id < |g1.heap|
      ensures TaskOk(c, g1, g1.heap[id])
    {
      assert TaskOk(c, g, g.heap[id]);
    }
    forall p | p in g1.tasks
      ensures HeldAt(g1, p, g1.tasks[p])
    {
      assert HeldAt(g, p, g.tasks[p]);
    }
  }

  lemma CoreQuiet(c: Config, g: Group)
    requires SlotsOk(c, g)
    ensures Quiet(g)
  {
    forall p | p in g.slots && !g.slots[p].done
      ensures g.slots[p].error.None?
    {
      assert Fresh(c, g, p);
    }
  }

  /** A group whose only unsettled-but-maybe-finished slot is `pos` is well-formed once
      that slot is checked. */
  lemma CheckKeepsCore(c: Config, g: Group, pos: nat)
    requires Always(c, g) && g.phase == Running && Positions(c, g) && StopOk(g) && Quiet(g)
    requires pos in g.slots
    requires forall p :: p in g.slots ==> SlotOk(c, g, p) && (p != pos ==> Fresh(c, g, p))
    requires !g.slots[pos].done
    ensures Core(c, CheckSlot(c, g, pos))
  {
    hide SlotOk, Fresh, RefsOk, HeapOk, TasksOk, LastOk, CheckSlot, StopOk, Quiet;
    var g1 := CheckSlot(c, g, pos);
    CheckSlotSettles(c, g, pos);
    SlotsStayOk(c, g, g1);
    SameHeapSameOk(c, g, g1);
    forall p | p in g1.slots
      ensures SlotOk(c, g1, p) && Fresh(c, g1, p)
    {
      if p != pos {
        assert Fresh(c, g, p);
        FreshFrame(c, g, g1, p);
      }
    }
  }

  lemma FreshFrame(c: Config, g: Group, g1: Group, p: nat)
    requires p in g.slots && p in g1.slots && g1.slots[p] == g.slots[p] && g1.heap == g.heap
    ensures Fresh(c, g, p) <==> Fresh(c, g1, p)
  {
  }

  /** Admission keeps the running group well-formed and holds the head slot. */
  lemma {:induction false} AdmitKeepsInv(c: Config, g: Group)
    requires ValidConfig(c) && Core(c, g)
    ensures Inv(c, Admit(c, g))
    ensures var g1 := Admit(c, g);
            g1.order == g.order && g1.head == g.head && g1.gen == g.gen && g1.phase == g.phase && g1.last == g.last && g1.prev == g.prev
    decreases |g.order| - g.next
  {
    if MayAdmit(c, g) && !OverBudget(c, g) {
      AdmitSlotCursors(c, g);
      AdmitSlotFrame(c, g);
      AdmitSlotKeepsCore(c, g);
      AdmitKeepsInv(c, AdmitSlot(c, g));
    }
  }

  lemma AdmitSlotFrame(c: Config, g: Group)
    requires g.next < |g.order|
    ensures AdmitSlot(c, g).last == g.last && AdmitSlot(c, g).prev == g.prev && AdmitSlot(c, g).size == g.size
  {
    AdmitKeysFrame(c, g, TimeOf(c, g.order[g.next]), |c.keys|);
  }

  // ---- start and cancel -------------------------------------------------------------

  lemma EndOrderKeepsInv(c: Config, g: Group, phase: Phase)
    requires Always(c, g) && phase != Running
    ensures Inv(c, EndOrder(g, phase))
  {
    var g1 := EndOrder(g, phase);
    forall id | 0 <= id < |g1.heap|
      ensures TaskOk(c, g1, g1.heap[id]) && g1.heap[id].refs >= Holders(g1, id, g1.head, g1.next)
    {
      assert TaskOk(c, g, g.heap[id]);
      NoSlotsNoHolders(g1, id, g1.head, g1.next);
    }
  }

  /** The group just restarted on `order`, before anything is admitted. */
  ghost function Restarted(g: Group, order: seq<nat>): Group {
    EndOrder(g, Idle).(order := order, head := 0, next := 0, stop := None, prev := map[], phase := Running)
  }

  lemma StartCore(c: Config, g: Group, order: seq<nat>)
    requires ValidConfig(c) && Inv(c, g)
    requires forall i :: 0 <= i < |order| ==> order[i] < |c.bounds|
    ensures Core(c, Restarted(g, order))
  {
    EndOrderKeepsInv(c, g, Idle);
    var g1 := Restarted(g, order);
    SameHeapSameOk(c, EndOrder(g, Idle), g1);
    forall id | 0 <= id < |g1.heap|
      ensures g1.heap[id].refs >= Holders(g1, id, 0, 0)
    {
    }
  }

  lemma StartKeepsInv(c: Config, g: Group, order: seq<nat>)
    requires ValidConfig(c) && Inv(c, g)
    requires forall i :: 0 <= i < |order| ==> order[i] < |c.bounds|
    ensures Inv(c, Start(c, g, order))
  {
    if g.phase != Closed {
      StartCore(c, g, order);
      AdmitKeepsInv(c, Restarted(g, order));
    }
  }

  lemma CancelKeepsInv(c: Config, g: Group)
    requires Inv(c, g)
    ensures Inv(c, Cancel(g)) && Inv(c, Close(g))
  {
    if g.phase == Running || g.phase == Failed { EndOrderKeepsInv(c, g, Cancelled); }
    var g1 := Cancel(g);
    if g.phase != Closed {
      var g2 := Close(g);
      SameButLast(c, g1, g2);
    }
  }

  lemma SameButLast(c: Config, g: Group, g1: Group)
    requires Inv(c, g) && g.phase != Running && g1 == g.(phase := Closed, last := map[])
    ensures Inv(c, g1)
  {
    forall id | 0 <= id < |g1.heap|
      ensures TaskOk(c, g1, g1.heap[id]) && g1.heap[id].refs >= Holders(g1, id, g1.head, g1.next)
    {
      assert TaskOk(c, g, g.heap[id]);
      NoSlotsNoHolders(g1, id, g1.head, g1.next);
      HoldersFrame(g, g1, id, g.head, g.next);
    }
  }

  // ---- releasing a slot ---------------------------------------------------------------

  ghost predicate ReleasedTask(c: Config, g: Group, m: map<Key, nat>, i: nat, g1: Group, id: nat)
    requires i <= |c.keys| && id < |g.heap| && id < |g1.heap|
  {
    g1.heap[id] == g.heap[id].(refs := g.heap[id].refs - (if Mapped(g.heap, m, id) && g.heap[id].key in c.keys[..i] then 1 else 0))
  }

  /** What releasing the first `i` members' tasks did: their references dropped by one, and
      no task with references left was forgotten. */
  ghost predicate Released(c: Config, g: Group, m: map<Key, nat>, i: nat, g1: Group)
    requires i <= |c.keys|
  {
    && g1 == g.(heap := g1.heap, tasks := g1.tasks)
    && |g1.heap| == |g.heap|
    && (forall id {:trigger g1.heap[id]} {:trigger g.heap[id]} :: 0 <= id < |g.heap| ==> ReleasedTask(c, g, m, i, g1, id))
    && (forall p :: p in g1.tasks ==> p in g.tasks && g1.tasks[p] == g.tasks[p])
    && (forall p :: p in g.tasks && g.tasks[p] < |g.heap| && g1.heap[g.tasks[p]].refs > 0 ==> p in g1.tasks)
  }

  /** A slot's map: one task per member, each filed under its own key. */
  ghost predicate MapOk(c: Config, g: Group, m: map<Key, nat>) {
    && (forall k :: k in m <==> k in c.keys)
    && (forall k :: k in m ==> m[k] < |g.heap| && g.heap[m[k]].key == k)
  }

  lemma {:induction false} ReleaseKeysReleases(c: Config, g: Group, m: map<Key, nat>, i: nat)
    requires ValidConfig(c) && i <= |c.keys| && MapOk(c, g, m) && TasksOk(g)
    ensures Released(c, g, m, i, ReleaseKeys(c, g, m, i))
  {
    if i == 0 {
      forall id | 0 <= id < |g.heap|
        ensures ReleasedTask(c, g, m, 0, g, id)
      {
        assert c.keys[..0] == [];
      }
    } else {
      ReleaseKeysReleases(c, g, m, i - 1);
      KeysDistinct(c, i - 1);
      ReleaseOneMore(c, g, m, i, ReleaseKeys(c, g, m, i - 1));
    }
  }

  lemma ReleaseOneMore(c: Config, g: Group, m: map<Key, nat>, i: nat, g1: Group)
    requires 0 < i <= |c.keys| && MapOk(c, g, m) && TasksOk(g)
    requires Released(c, g, m, i - 1, g1) && c.keys[i - 1] !in c.keys[..i - 1]
    ensures c.keys[i - 1] in m && Released(c, g, m, i, Release(g1, m[c.keys[i - 1]]))
  {
    var key := c.keys[i - 1];
    assert c.keys[..i] == c.keys[..i - 1] + [key];
    assert key in c.keys;
    var g2 := Release(g1, m[key]);
    forall p | p in g.tasks && g.tasks[p] < |g.heap| && g2.heap[g.tasks[p]].refs > 0
      ensures p in g2.tasks
    {
      assert HeldAt(g, p, g.tasks[p]);
      assert p in g1.tasks;
    }
    forall j | 0 <= j < |g.heap|
      ensures ReleasedTask(c, g, m, i, g2, j)
    {
      ReleaseOneTask(c, g, m, i, g1, j);
    }
  }

  lemma ReleaseOneTask(c: Config, g: Group, m: map<Key, nat>, i: nat, g1: Group, j: nat)
    requires 0 < i <= |c.keys| && c.keys[i - 1] in m && m[c.keys[i - 1]] < |g.heap| && g.heap[m[c.keys[i - 1]]].key == c.keys[i - 1]
    requires |g1.heap| == |g.heap| && j < |g.heap| && ReleasedTask(c, g, m, i - 1, g1, j)
    requires c.keys[..i] == c.keys[..i - 1] + [c.keys[i - 1]] && c.keys[i - 1] !in c.keys[..i - 1]
    ensures var g2 := Release(g1, m[c.keys[i - 1]]); |g2.heap| == |g.heap| && ReleasedTask(c, g, m, i, g2, j)
  {
  }

  /** The group with its head slot taken off, and that slot's tasks released. */
  ghost function Popped(g: Group): Group {
    g.(head := g.head + 1, slots := g.slots - {g.head})
  }

  ghost function PoppedAndReleased(c: Config, g: Group): Group
    requires g.head in g.slots
  {
    ReleaseKeys(c, Popped(g), g.slots[g.head].tasks, |c.keys|)
  }

  lemma HeadMapOk(c: Config, g: Group)
    requires Core(c, g) && g.head < g.next
    ensures MapOk(c, g, g.slots[g.head].tasks)
  {
    assert SlotOk(c, g, g.head);
    forall k | k in g.slots[g.head].tasks
      ensures g.slots[g.head].tasks[k] < |g.heap| && g.heap[g.slots[g.head].tasks[k]].key == k
    {
      assert SlotTask(c, g, g.slots[g.head], k);
    }
  }

  lemma PoppedReleases(c: Config, g: Group)
    requires ValidConfig(c) && Core(c, g) && g.head < g.next
    ensures Released(c, Popped(g), g.slots[g.head].tasks, |c.keys|, PoppedAndReleased(c, g))
  {
    HeadMapOk(c, g);
    var g1 := Popped(g);
    SameHeapSameOk(c, g, g1);
    ReleaseKeysReleases(c, g1, g.slots[g.head].tasks, |c.keys|);
  }

  /** Each reference given up is the one the head slot held. */
  lemma ReleaseKeepsRefs(c: Config, g: Group)
    requires ValidConfig(c) && Core(c, g) && g.head < g.next
    ensures RefsOk(PoppedAndReleased(c, g))
  {
    hide PoppedAndReleased, Holders, Core, ValidConfig, SlotOk, Fresh;
    HeadHeld(c, g);
    PoppedFrame(c, g);
    forall id | 0 <= id < |PoppedAndReleased(c, g).heap|
      ensures PoppedAndReleased(c, g).heap[id].refs >= Holders(PoppedAndReleased(c, g), id, g.head + 1, g.next)
    {
      ReleaseKeepsRef(c, g, id);
    }
  }

  lemma PoppedFrame(c: Config, g: Group)
    requires ValidConfig(c) && Core(c, g) && g.head < g.next
    ensures var g2 := PoppedAndReleased(c, g);
      && g2 == g.(head := g.head + 1, slots := g.slots - {g.head}, heap := g2.heap, tasks := g2.tasks)
      && |g2.heap| == |g.heap|
  {
    hide ReleaseKeys, Core, ValidConfig, Mapped;
    PoppedReleases(c, g);
  }

  lemma ReleaseKeepsRef(c: Config, g: Group, id: nat)
    requires ValidConfig(c) && Core(c, g) && g.head < g.next && id < |g.heap|
    ensures var g2 := PoppedAndReleased(c, g);
            id < |g2.heap| && g2.heap[id].refs >= Holders(g2, id, g.head + 1, g.next)
  {
    hide ReleaseKeys, SlotsOk, LastOk, TasksOk, StopOk;
    PoppedReleases(c, g);
    HoldersFromFront(g, id, g.head, g.next);
    assert c.keys[..|c.keys|] == c.keys;
    assert TaskOk(c, g, g.heap[id]);
    assert Holds(g, g.head, id) == Mapped(g.heap, g.slots[g.head].tasks, id);
    HoldersFrame(g, PoppedAndReleased(c, g), id, g.head + 1, g.next);
  }

  lemma HeadHeld(c: Config, g: Group)
    requires Core(c, g) && g.head < g.next
    ensures g.head in g.slots && g.head < |g.order| && SlotOk(c, g, g.head) && Fresh(c, g, g.head)
  {
  }

  lemma HeldSlot(c: Config, g: Group, p: nat)
    requires Core(c, g) && p in g.slots
    ensures g.head <= p < g.next && SlotOk(c, g, p) && Fresh(c, g, p)
  {
  }

  lemma SlotTaskSurvives(c: Config, g: Group, g1: Group, m: map<Key, nat>, slot: Slot, k: Key)
    requires Released(c, g, m, |c.keys|, g1) && k in slot.tasks && SlotTask(c, g, slot, k)
    requires g1.heap[slot.tasks[k]].refs > 0
    ensures SlotTask(c, g1, slot, k)
  {
  }

  /** A task another slot still holds is not forgotten. */
  lemma StillHeld(c: Config, g: Group, p: nat, k: Key)
    requires ValidConfig(c) && Core(c, g) && g.head < g.next && g.head < p < g.next && p in g.slots
    requires g.head in g.slots && k in g.slots[p].tasks && SlotTask(c, g, g.slots[p], k)
    ensures SlotTask(c, PoppedAndReleased(c, g), g.slots[p], k)
    ensures var id := g.slots[p].tasks[k];
            id < |PoppedAndReleased(c, g).heap| && PoppedAndReleased(c, g).heap[id].outcome == g.heap[id].outcome
  {
    hide PoppedAndReleased, Core, ValidConfig, Holders, Released;
    var g2, id := PoppedAndReleased(c, g), g.slots[p].tasks[k];
    PoppedFrame(c, g);
    ReleaseKeepsOutcome(c, g, id);
    ReleaseKeepsRef(c, g, id);
    HeldIsCounted(g2, id, g.head + 1, g.next, p);
    PoppedReleases(c, g);
    SlotTaskSurvives(c, Popped(g), g2, g.slots[g.head].tasks, g.slots[p], k);
  }

  lemma ReleaseKeepsSlots(c: Config, g: Group, p: nat)
    requires ValidConfig(c) && Core(c, g) && g.head < g.next && p in g.slots && p != g.head
    ensures g.head in g.slots && p in PoppedAndReleased(c, g).slots
    ensures SlotOk(c, PoppedAndReleased(c, g), p) && Fresh(c, PoppedAndReleased(c, g), p)
  {
    hide PoppedAndReleased, Core, ValidConfig, SlotOk, Fresh;
    HeadHeld(c, g);
    HeldSlot(c, g, p);
    PoppedFrame(c, g);
    SurvivingSlot(c, g, p);
  }

  lemma SurvivingSlot(c: Config, g: Group, p: nat)
    requires ValidConfig(c) && Core(c, g) && g.head < p < g.next && p in g.slots && g.head in g.slots
    requires SlotOk(c, g, p) && Fresh(c, g, p)
    requires var g2 := PoppedAndReleased(c, g);
             p in g2.slots && g2.slots[p] == g.slots[p] && g2.order == g.order
    ensures SlotOk(c, PoppedAndReleased(c, g), p) && Fresh(c, PoppedAndReleased(c, g), p)
  {
    hide PoppedAndReleased, Core, ValidConfig, AllDone, FirstError;
    var slot, g2 := g.slots[p], PoppedAndReleased(c, g);
    forall k | k in slot.tasks
      ensures SlotTask(c, g2, slot, k) && slot.tasks[k] < |g.heap| && slot.tasks[k] < |g2.heap| && g2.heap[slot.tasks[k]].outcome == g.heap[slot.tasks[k]].outcome
    {
      assert SlotTask(c, g, slot, k);
      StillHeld(c, g, p, k);
    }
    SameOutcomesSameError(c, g.heap, g2.heap, slot.tasks, 0);
  }

  lemma ReleaseKeepsAlways(c: Config, g: Group)
    requires ValidConfig(c) && Core(c, g) && g.head < g.next
    ensures Always(c, PoppedAndReleased(c, g))
    ensures var g2 := PoppedAndReleased(c, g);
            g2 == g.(head := g.head + 1, slots := g.slots - {g.head}, heap := g2.heap, tasks := g2.tasks)
  {
    hide ReleaseKeys, StopOk, SlotsOk, RefsOk, Holds, Mapped;
    PoppedReleases(c, g);
    ReleaseKeepsRefs(c, g);
    var g2 := PoppedAndReleased(c, g);
    forall id | 0 <= id < |g2.heap|
      ensures TaskOk(c, g2, g2.heap[id])
    {
      assert TaskOk(c, g, g.heap[id]);
    }
    forall p | p in g2.tasks
      ensures HeldAt(g2, p, g2.tasks[p])
    {
      assert HeldAt(g, p, g.tasks[p]);
    }
  }

  lemma NoErrorNoFailure(c: Config, heap: seq<Task>, m: map<Key, nat>, i: nat, j: nat)
    requires i <= j < |c.keys| && FirstError(c, heap, m, i).None?
    ensures c.keys[j] in m && m[c.keys[j]] < |heap| ==> !heap[m[c.keys[j]]].Failed()
    decreases j - i
  {
    if i < j { NoErrorNoFailure(c, heap, m, i + 1, j); }
  }

  /** A settled slot without an error holds successes only. */
  lemma SettledSucceeded(c: Config, g: Group, p: nat, k: Key)
    requires p in g.slots && SlotOk(c, g, p) && Fresh(c, g, p) && g.slots[p].done && g.slots[p].error.None? && k in c.keys
    ensures k in g.slots[p].tasks && g.slots[p].tasks[k] < |g.heap| && g.heap[g.slots[p].tasks[k]].Succeeded()
  {
    assert SlotTask(c, g, g.slots[p], k);
    var j :| 0 <= j < |c.keys| && c.keys[j] == k;
    NoErrorNoFailure(c, g.heap, g.slots[p].tasks, 0, j);
  }

  lemma DeliverKeepsCore(c: Config, g: Group)
    requires ValidConfig(c) && Core(c, g) && g.head < g.next
    requires g.slots[g.head].done && g.slots[g.head].error.None?
    ensures Core(c, Deliver(c, Popped(g), g.slots[g.head].tasks))
  {
    hide ReleaseKeys, SlotOk, Fresh, RefsOk, HeapOk, TasksOk, LastOk;
    var m, g2, g3 := g.slots[g.head].tasks, PoppedAndReleased(c, g), Deliver(c, Popped(g), g.slots[g.head].tasks);
    ReleaseKeepsAlways(c, g);
    assert g3 == g2.(prev := g3.prev, last := g.last + m);
    DeliverKeepsLast(c, g);
    DeliverFrame(c, g2, g3);
    forall p | p in g3.slots
      ensures SlotOk(c, g3, p) && Fresh(c, g3, p)
    {
      ReleaseKeepsSlots(c, g, p);
      SlotOkFrame(c, g2, g3, p);
    }
  }

  lemma DeliverKeepsLast(c: Config, g: Group)
    requires ValidConfig(c) && Core(c, g) && g.head < g.next && g.head in g.slots
    requires g.slots[g.head].done && g.slots[g.head].error.None?
    ensures LastOk(Deliver(c, Popped(g), g.slots[g.head].tasks))
  {
    HeadHeld(c, g);
    HeadMapOk(c, g);
    hide PoppedAndReleased, ReleaseKeys, Core, ValidConfig;
    PoppedFrame(c, g);
    var m, g2, g3 := g.slots[g.head].tasks, PoppedAndReleased(c, g), Deliver(c, Popped(g), g.slots[g.head].tasks);
    DeliverIsRelease(c, g);
    forall k | k in g3.last
      ensures g3.last[k] < |g3.heap| && g3.heap[g3.last[k]].key == k && g3.heap[g3.last[k]].Succeeded()
    {
      LastOrDelivered(c, g, k);
      ReleaseKeepsOutcome(c, g, g3.last[k]);
    }
  }

  lemma DeliverIsRelease(c: Config, g: Group)
    requires g.head in g.slots
    ensures var g2, g3 := PoppedAndReleased(c, g), Deliver(c, Popped(g), g.slots[g.head].tasks);
            g3 == g2.(prev := g3.prev, last := g.last + g.slots[g.head].tasks)
  {
    hide ReleaseKeys;
    ReleaseKeysFrame(c, Popped(g), g.slots[g.head].tasks, |c.keys|);
  }

  lemma {:induction false} ReleaseKeysFrame(c: Config, g: Group, m: map<Key, nat>, i: nat)
    requires i <= |c.keys|
    ensures var g1 := ReleaseKeys(c, g, m, i);
            g1 == g.(heap := g1.heap, tasks := g1.tasks)
  {
    if i > 0 { ReleaseKeysFrame(c, g, m, i - 1); }
  }

  lemma LastOrDelivered(c: Config, g: Group, k: Key)
    requires ValidConfig(c) && Core(c, g) && g.head in g.slots && MapOk(c, g, g.slots[g.head].tasks)
    requires g.slots[g.head].done && g.slots[g.head].error.None?
    requires SlotOk(c, g, g.head) && Fresh(c, g, g.head)
    requires k in g.last + g.slots[g.head].tasks
    ensures var id := (g.last + g.slots[g.head].tasks)[k];
            id < |g.heap| && g.heap[id].key == k && g.heap[id].Succeeded()
  {
    if k in g.slots[g.head].tasks { SettledSucceeded(c, g, g.head, k); }
  }

  lemma ReleaseKeepsOutcome(c: Config, g: Group, id: nat)
    requires ValidConfig(c) && Core(c, g) && g.head < g.next && id < |g.heap|
    ensures var g2 := PoppedAndReleased(c, g);
            id < |g2.heap| && g2.heap[id].refs <= g.heap[id].refs && g2.heap[id].outcome == g.heap[id].outcome && g2.heap[id].key == g.heap[id].key && g2.heap[id].anchor == g.heap[id].anchor && g2.heap[id].t == g.heap[id].t
  {
    PoppedReleases(c, g);
  }

  lemma DeliverFrame(c: Config, g: Group, g1: Group)
    requires Always(c, g) && g1 == g.(prev := g1.prev, last := g1.last)
    ensures HeapOk(c, g1) && TasksOk(g1) && OrderOk(c, g1) && RefsOk(g1)
  {
    forall id | 0 <= id < |g1.heap|
      ensures TaskOk(c, g1, g1.heap[id]) && g1.heap[id].refs >= Holders(g1, id, g1.head, g1.next)
    {
      assert TaskOk(c, g, g.heap[id]);
      HoldersFrame(g, g1, id, g.head, g.next);
    }
    forall p | p in g1.tasks
      ensures HeldAt(g1, p, g1.tasks[p])
    {
      assert HeldAt(g, p, g.tasks[p]);
    }
  }

  lemma SlotOkFrame(c: Config, g: Group, g1: Group, p: nat)
    requires g1.heap == g.heap && g1.tasks == g.tasks && g1.order == g.order
    requires p in g.slots && p in g1.slots && g1.slots[p] == g.slots[p] && SlotOk(c, g, p)
    ensures SlotOk(c, g1, p)
    ensures Fresh(c, g, p) <==> Fresh(c, g1, p)
  {
    forall k | k in g1.slots[p].tasks
      ensures SlotTask(c, g1, g1.slots[p], k)
    {
      assert SlotTask(c, g, g.slots[p], k);
    }
  }

  lemma TakeKeepsInv(c: Config, g: Group, k: int)
    requires ValidConfig(c) && Inv(c, g)
    ensures Inv(c, Take(c, g, k).0)
  {
    if g.phase == Running && g.head < |g.order| && k == g.order[g.head] && g.slots[g.head].done {
      var slot := g.slots[g.head];
      if slot.error.Some? {
        ReleaseKeepsAlways(c, g);
        EndOrderKeepsInv(c, PoppedAndReleased(c, g), Failed);
      } else {
        DeliverKeepsCore(c, g);
        AdmitKeepsInv(c, Deliver(c, Popped(g), slot.tasks));
      }
    }
  }

  // ---- a worker finishes ----------------------------------------------------------------

  /** Settling the slots of [lo, hi) that hold a task: those become fresh, fresh ones stay. */
  ghost predicate Checked(c: Config, g: Group, id: nat, lo: nat, hi: nat, g1: Group) {
    && g1 == g.(slots := g1.slots, stop := g1.stop)
    && (forall p :: p in g1.slots <==> p in g.slots)
    && (forall p :: p in g.slots ==> g1.slots[p].tasks == g.slots[p].tasks && g1.slots[p].epoch == g.slots[p].epoch)
    && (forall p :: p in g.slots && (Fresh(c, g, p) || (lo <= p < hi && Holds(g, p, id) && !g.slots[p].done)) ==> Fresh(c, g1, p))
    && (forall p :: p in g.slots && !(lo <= p < hi) ==> g1.slots[p] == g.slots[p])
    && StopOk(g1) && Quiet(g1)
  }

  lemma {:induction false} CheckRangeChecks(c: Config, g: Group, id: nat, lo: nat, hi: nat)
    requires lo <= hi && StopOk(g) && Quiet(g)
    ensures Checked(c, g, id, lo, hi, CheckRange(c, g, id, lo, hi))
    decreases hi - lo
  {
    hide Checked, CheckSlot, StopOk, Quiet, Holds;
    if lo < hi {
      CheckRangeChecks(c, g, id, lo, hi - 1);
      var g1 := CheckRange(c, g, id, lo, hi - 1);
      if Holds(g1, hi - 1, id) { CheckOneMore(c, g, id, lo, hi, g1); } else { NotHeldNotChecked(c, g, id, lo, hi, g1); }
    } else {
      NothingChecked(c, g, id, lo);
    }
  }

  lemma NothingChecked(c: Config, g: Group, id: nat, lo: nat)
    requires StopOk(g) && Quiet(g)
    ensures Checked(c, g, id, lo, lo, g)
  {
    hide Fresh, StopOk, Quiet, Holds;
  }

  lemma NotHeldNotChecked(c: Config, g: Group, id: nat, lo: nat, hi: nat, g1: Group)
    requires lo < hi && Checked(c, g, id, lo, hi - 1, g1) && !Holds(g1, hi - 1, id)
    ensures Checked(c, g, id, lo, hi, g1)
  {
    hide Fresh, StopOk, Quiet;
  }

  lemma CheckOneMore(c: Config, g: Group, id: nat, lo: nat, hi: nat, g1: Group)
    requires lo < hi && Checked(c, g, id, lo, hi - 1, g1) && Holds(g1, hi - 1, id)
    ensures Checked(c, g, id, lo, hi, CheckSlot(c, g1, hi - 1))
  {
    hide Fresh, CheckSlot, StopOk, Quiet, Holds;
    var g2 := CheckSlot(c, g1, hi - 1);
    assert hi - 1 in g1.slots by { HoldsInSlots(g1, hi - 1, id); }
    CheckSlotSettles(c, g1, hi - 1);
    forall p | p in g.slots && (Fresh(c, g, p) || (lo <= p < hi && Holds(g, p, id) && !g.slots[p].done))
      ensures Fresh(c, g2, p)
    {
      if p == hi - 1 {
        assert g1.slots[p] == g.slots[p];
        if g.slots[p].done { FreshFrame(c, g, g1, p); FreshFrame(c, g1, g2, p); }
      } else {
        assert Fresh(c, g1, p);
        FreshFrame(c, g1, g2, p);
      }
    }
  }

  lemma HoldsInSlots(g: Group, p: nat, id: nat)
    requires Holds(g, p, id)
    ensures p in g.slots
  {
  }

  lemma RecordKeepsAlways(c: Config, g: Group, id: nat, outcome: Result<Data, Error>)
    requires Always(c, g) && id < |g.heap| && !g.heap[id].Done()
    requires outcome.Ok? ==> outcome == c.decode(g.heap[id].key, g.heap[id].t)
    ensures Always(c, Record(c, g, id, outcome))
  {
    var g1 := Record(c, g, id, outcome);
    forall j | 0 <= j < |g1.heap|
      ensures TaskOk(c, g1, g1.heap[j]) && g1.heap[j].refs >= Holders(g1, j, g1.head, g1.next)
    {
      assert TaskOk(c, g, g.heap[j]);
      HoldersFrame(g, g1, j, g.head, g.next);
    }
    forall p | p in g1.tasks
      ensures HeldAt(g1, p, g1.tasks[p])
    {
      assert HeldAt(g, p, g.tasks[p]);
    }
  }

  /** A slot that does not hold the finished task is as it was; one that does was unsettled. */
  lemma RecordKeepsSlot(c: Config, g: Group, id: nat, outcome: Result<Data, Error>, p: nat)
    requires id < |g.heap| && !g.heap[id].Done() && p in g.slots && SlotOk(c, g, p) && Fresh(c, g, p)
    ensures SlotOk(c, Record(c, g, id, outcome), p)
    ensures Holds(Record(c, g, id, outcome), p, id) ==> !g.slots[p].done
    ensures !Holds(Record(c, g, id, outcome), p, id) ==> Fresh(c, Record(c, g, id, outcome), p)
  {
    var g1, slot := Record(c, g, id, outcome), g.slots[p];
    forall k | k in slot.tasks
      ensures SlotTask(c, g1, g1.slots[p], k) && slot.tasks[k] < |g.heap| && (slot.tasks[k] == id ==> Holds(g1, p, id))
    {
      assert SlotTask(c, g, slot, k);
    }
    if !Holds(g1, p, id) {
      SameOutcomesSameError(c, g.heap, g1.heap, slot.tasks, 0);
    }
  }

  lemma FinishKeepsInv(c: Config, g: Group, id: nat, outcome: Result<Data, Error>)
    requires ValidConfig(c) && Inv(c, g) && Possible(c, g, EvFinish(id, outcome))
    ensures Inv(c, Finish(c, g, id, outcome))
  {
    if g.heap[id].gen == g.gen && !g.heap[id].Done() {
      var g1 := Record(c, g, id, outcome);
      RecordKeepsAlways(c, g, id, outcome);
      if g.phase == Running {
        CheckedCore(c, g, id, outcome);
        AdmitKeepsInv(c, CheckRange(c, g1, id, g.head, g.next));
      } else {
        if g.head <= g.next { EmptyRange(c, g1, id, g.head, g.next); }
      }
    }
  }

  lemma {:induction false} EmptyRange(c: Config, g: Group, id: nat, lo: nat, hi: nat)
    requires lo <= hi && g.slots == map[]
    ensures CheckRange(c, g, id, lo, hi) == g
    decreases hi - lo
  {
    if lo < hi { EmptyRange(c, g, id, lo, hi - 1); }
  }

  lemma CheckedCore(c: Config, g: Group, id: nat, outcome: Result<Data, Error>)
    requires ValidConfig(c) && Core(c, g) && Possible(c, g, EvFinish(id, outcome)) && !g.heap[id].Done()
    ensures Core(c, CheckRange(c, Record(c, g, id, outcome), id, g.head, g.next))
    ensures Checked(c, Record(c, g, id, outcome), id, g.head, g.next, CheckRange(c, Record(c, g, id, outcome), id, g.head, g.next))
  {
    hide SlotOk, Fresh, RefsOk, HeapOk, TasksOk, LastOk, CheckRange, Holds, TaskOk;
    var g1 := Record(c, g, id, outcome);
    RecordKeepsAlways(c, g, id, outcome);
    CoreQuiet(c, g);
    forall p | p in g1.slots
      ensures SlotOk(c, g1, p) && (Fresh(c, g1, p) || (g.head <= p < g.next && Holds(g1, p, id) && !g1.slots[p].done))
    {
      RecordKeepsSlot(c, g, id, outcome, p);
    }
    CheckRangeChecks(c, g1, id, g.head, g.next);
    var g2 := CheckRange(c, g1, id, g.head, g.next);
    SlotsStayOk(c, g1, g2);
    SameHeapSameOk(c, g1, g2);
  }

  // ---- all runs ------------------------------------------------------------------------------

  /** Every possible event keeps the invariant. */
  lemma StepKeepsInv(c: Config, g: Group, e: Event)
    requires ValidConfig(c) && Inv(c, g) && Possible(c, g, e)
    ensures Inv(c, Step(c, g, e).0)
  {
    match e
    case EvStart(order) => StartKeepsInv(c, g, order);
    case EvTake(k) => TakeKeepsInv(c, g, k);
    case EvCancel => CancelKeepsInv(c, g);
    case EvClose => CancelKeepsInv(c, g);
    case EvFinish(id, outcome) => FinishKeepsInv(c, g, id, outcome);
  }

  /** Every state of every run, whatever the interleaving of workers and consumer. */
  lemma {:induction false} RunKeepsInv(c: Config, g: Group, events: seq<Event>)
    requires ValidConfig(c) && Inv(c, g) && PossibleRun(c, g, events)
    ensures Inv(c, Run(c, g, events))
    decreases |events|
  {
    if events != [] {
      var front := events[..|events| - 1];
      RunKeepsInv(c, g, front);
      StepKeepsInv(c, Run(c, g, front), events[|events| - 1]);
    }
  }
}
