/** The prefetch group's invariant, kept by every step of every interleaving. */
module PrefetchInvariant {
  import opened Wrappers
  import opened PrefetchModel

  // ---- the invariant ------------------------------------------------------------

  /** A task carries its member's anchor for its time, and a success is the member's sample. */
  ghost predicate TaskOk(c: Config, g: Group, task: Task) {
    && task.key in c.keys
    && task.anchor == c.anchorOf(task.key, task.t)
    && task.gen <= g.gen
    && (task.Succeeded() ==> task.outcome.value == c.decode(task.key, task.t))
  }

  ghost predicate HeapOk(c: Config, g: Group) {
    forall id :: 0 <= id < |g.heap| ==> TaskOk(c, g, g.heap[id])
  }

  /** Held tasks are filed under their own key and anchor; unfinished ones are current. */
  ghost predicate HeldAt(g: Group, p: (Key, int), id: nat) {
    && id < |g.heap|
    && g.heap[id].key == p.0 && g.heap[id].anchor == p.1
    && (!g.heap[id].Done() ==> g.heap[id].gen == g.gen)
  }

  ghost predicate TasksOk(g: Group) {
    forall p :: p in g.tasks ==> HeldAt(g, p, g.tasks[p])
  }

  /** The sample last delivered to the consumer is a success. */
  ghost predicate LastOk(g: Group) {
    forall k :: k in g.last ==> g.last[k] < |g.heap| && g.heap[g.last[k]].key == k && g.heap[g.last[k]].Succeeded()
  }

  ghost predicate OrderOk(c: Config, g: Group) {
    forall i :: 0 <= i < |g.order| ==> g.order[i] < |c.bounds|
  }

  /** A slot's task for member `k` is the held one for the anchor of the slot's epoch. */
  ghost predicate SlotTask(c: Config, g: Group, slot: Slot, k: Key)
    requires k in slot.tasks
  {
    var id, a := slot.tasks[k], c.anchorOf(k, TimeOf(c, slot.epoch));
    && id < |g.heap|
    && g.heap[id].key == k && g.heap[id].anchor == a
    && (k, a) in g.tasks && g.tasks[(k, a)] == id
  }

  ghost predicate SlotOk(c: Config, g: Group, pos: nat)
    requires pos in g.slots
  {
    var slot := g.slots[pos];
    && pos < |g.order| && slot.epoch == g.order[pos]
    && (forall k :: k in slot.tasks <==> k in c.keys)
    && (forall k :: k in slot.tasks ==> SlotTask(c, g, slot, k))
  }

  /** A slot is settled exactly when its tasks are done, with the first failure by key. */
  ghost predicate Fresh(c: Config, g: Group, pos: nat)
    requires pos in g.slots
  {
    var slot := g.slots[pos];
    && (slot.done <==> AllDone(c, g.heap, slot.tasks))
    && slot.error == if slot.done then FirstError(c, g.heap, slot.tasks, 0) else None
  }

  ghost predicate Quiet(g: Group) {
    forall p :: p in g.slots && !g.slots[p].done ==> g.slots[p].error.None?
  }

  /** The held slots are exactly the positions [head, next), at most `depth` of them. */
  ghost predicate Positions(c: Config, g: Group) {
    && g.head <= g.next <= |g.order|
    && g.next <= g.head + c.depth
    && (forall p :: p in g.slots <==> g.head <= p < g.next)
  }

  /** The stop position is the first settled failure. */
  ghost predicate StopOk(g: Group) {
    match g.stop
    case None => forall p :: p in g.slots ==> g.slots[p].error.None?
    case Some(s) => s in g.slots && g.slots[s].error.Some? && forall p :: p in g.slots && p < s ==> g.slots[p].error.None?
  }

  /** How many slots in [lo, hi) hold task `id`. */
  ghost function Holders(g: Group, id: nat, lo: nat, hi: nat): nat
    decreases hi
  {
    if hi <= lo then 0 else Holders(g, id, lo, hi - 1) + (if Holds(g, hi - 1, id) then 1 else 0)
  }

  /** Every task is referenced at least as often as slots hold it. */
  ghost predicate RefsOk(g: Group) {
    forall id :: 0 <= id < |g.heap| ==> g.heap[id].refs >= Holders(g, id, g.head, g.next)
  }

  ghost predicate Always(c: Config, g: Group) {
    HeapOk(c, g) && TasksOk(g) && LastOk(g) && OrderOk(c, g) && RefsOk(g)
  }

  ghost predicate SlotsOk(c: Config, g: Group) {
    forall p :: p in g.slots ==> SlotOk(c, g, p) && Fresh(c, g, p)
  }

  /** What holds of a running group, between the parts of a step included. */
  ghost predicate Core(c: Config, g: Group) {
    Always(c, g) && g.phase == Running && Positions(c, g) && StopOk(g) && SlotsOk(c, g)
  }

  ghost predicate Inv(c: Config, g: Group) {
    && Always(c, g)
    && (g.phase == Running ==> Core(c, g) && (g.head < |g.order| ==> g.head < g.next))
    && (g.phase != Running ==> g.slots == map[] && g.tasks == map[])
  }

  lemma RunningParts(c: Config, g: Group)
    requires Inv(c, g) && g.phase == Running
    ensures Core(c, g) && g.head <= g.next
  {
  }

  // ---- counting holders ------------------------------------------------------------

  lemma {:induction false} HoldersFromFront(g: Group, id: nat, lo: nat, hi: nat)
    requires lo < hi
    ensures Holders(g, id, lo, hi) == (if Holds(g, lo, id) then 1 else 0) + Holders(g, id, lo + 1, hi)
  {
    if lo + 1 < hi { HoldersFromFront(g, id, lo, hi - 1); }
  }

  lemma {:induction false} HoldersFrame(g: Group, g1: Group, id: nat, lo: nat, hi: nat)
    requires forall p :: lo <= p < hi ==> Holds(g, p, id) == Holds(g1, p, id)
    ensures Holders(g, id, lo, hi) == Holders(g1, id, lo, hi)
  {
    if lo < hi { HoldersFrame(g, g1, id, lo, hi - 1); }
  }

  lemma {:induction false} HeldIsCounted(g: Group, id: nat, lo: nat, hi: nat, p: nat)
    requires lo <= p < hi && Holds(g, p, id)
    ensures Holders(g, id, lo, hi) >= 1
  {
    if p < hi - 1 { HeldIsCounted(g, id, lo, hi - 1, p); }
  }

  lemma {:induction false} NoSlotsNoHolders(g: Group, id: nat, lo: nat, hi: nat)
    requires forall p :: lo <= p < hi ==> p !in g.slots
    ensures Holders(g, id, lo, hi) == 0
  {
    if lo < hi { NoSlotsNoHolders(g, id, lo, hi - 1); }
  }

  // ---- admission ----------------------------------------------------------------------

  ghost predicate Mapped(heap: seq<Task>, m: map<Key, nat>, id: nat) {
    id < |heap| && heap[id].key in m && m[heap[id].key] == id
  }

  /** Old tasks gained one reference if used; new ones are fresh, with one reference. */
  ghost predicate AdmittedHeap(c: Config, g: Group, t: int, g1: Group, m: map<Key, nat>) {
    && |g.heap| <= |g1.heap|
    && (forall id :: 0 <= id < |g.heap| ==>
          g1.heap[id] == g.heap[id].(refs := g.heap[id].refs + (if Mapped(g.heap, m, id) then 1 else 0)))
    && (forall id :: |g.heap| <= id < |g1.heap| ==>
          g1.heap[id] == Task(g1.heap[id].key, c.anchorOf(g1.heap[id].key, t), t, g.gen, None, 1) && Mapped(g1.heap, m, id))
  }

  /** Each member's task is filed under its anchor; an old one is the one looked up. */
  ghost predicate AdmittedKey(c: Config, g: Group, t: int, g1: Group, m: map<Key, nat>, k: Key)
    requires k in m
  {
    var a := c.anchorOf(k, t);
    && m[k] < |g1.heap| && g1.heap[m[k]].key == k && g1.heap[m[k]].anchor == a
    && (k, a) in g1.tasks && g1.tasks[(k, a)] == m[k]
    && Lookup(g, k, a) == (if m[k] < |g.heap| then Some(m[k]) else None)
  }

  ghost predicate AdmittedTasks(c: Config, g: Group, t: int, g1: Group, m: map<Key, nat>) {
    && (forall p :: p in g.tasks ==> p in g1.tasks && g1.tasks[p] == g.tasks[p])
    && (forall p :: p in g1.tasks && p !in g.tasks ==> p.0 in m && p.1 == c.anchorOf(p.0, t) && g1.tasks[p] == m[p.0])
  }

  /** What giving the first `i` members their tasks at time `t` did. */
  ghost predicate Admitted(c: Config, g: Group, t: int, i: nat, g1: Group, m: map<Key, nat>)
    requires i <= |c.keys|
  {
    && g1 == g.(heap := g1.heap, tasks := g1.tasks, reused := g1.reused)
    && |g1.heap| + g1.reused == |g.heap| + g.reused + i
    && AdmittedHeap(c, g, t, g1, m)
    && (forall k :: k in m <==> k in c.keys[..i])
    && (forall k :: k in m ==> AdmittedKey(c, g, t, g1, m, k))
    && AdmittedTasks(c, g, t, g1, m)
  }

  lemma KeysDistinct(c: Config, i: nat)
    requires ValidConfig(c) && i < |c.keys|
    ensures c.keys[i] !in c.keys[..i]
  {
  }

  lemma {:induction false} AdmitKeysAdmits(c: Config, g: Group, t: int, i: nat)
    requires ValidConfig(c) && i <= |c.keys| && TasksOk(g) && LastOk(g)
    ensures Admitted(c, g, t, i, AdmitKeys(c, g, t, i).0, AdmitKeys(c, g, t, i).1)
  {
    hide Admitted, AdmitKeys, AdmitKey, TasksOk, LastOk, ValidConfig;
    if i == 0 {
      AdmitNoKeys(c, g, t);
    } else {
      AdmitKeysStep(c, g, t, i);
      AdmitKeysAdmits(c, g, t, i - 1);
      var (g1, m) := AdmitKeys(c, g, t, i - 1);
      KeysDistinct(c, i - 1);
      AdmitOneMore(c, g, t, i, g1, m);
    }
  }

  lemma AdmitNoKeys(c: Config, g: Group, t: int)
    ensures Admitted(c, g, t, 0, AdmitKeys(c, g, t, 0).0, AdmitKeys(c, g, t, 0).1)
  {
    assert c.keys[..0] == [];
  }

  lemma AdmitKeysStep(c: Config, g: Group, t: int, i: nat)
    requires 0 < i <= |c.keys|
    ensures var (g1, m) := AdmitKeys(c, g, t, i - 1);
            var (g2, id) := AdmitKey(c, g1, c.keys[i - 1], t);
            AdmitKeys(c, g, t, i) == (g2, m[c.keys[i - 1] := id])
  {
    hide AdmitKey;
  }

  lemma AdmitOneMore(c: Config, g: Group, t: int, i: nat, g1: Group, m: map<Key, nat>)
    requires ValidConfig(c) && 0 < i <= |c.keys| && TasksOk(g) && LastOk(g)
    requires Admitted(c, g, t, i - 1, g1, m) && c.keys[i - 1] !in c.keys[..i - 1]
    ensures var (g2, id) := AdmitKey(c, g1, c.keys[i - 1], t);
            Admitted(c, g, t, i, g2, m[c.keys[i - 1] := id])
  {
    var key := c.keys[i - 1];
    assert c.keys[..i] == c.keys[..i - 1] + [key];
    LookupUnchanged(c, g, t, g1, m, key);
    AdmitKeyCounts(c, g1, key, t);
    hide AdmittedHeap, AdmittedTasks, AdmittedKey, Lookup, TasksOk, LastOk, ValidConfig, AdmitKey;
    if Lookup(g, key, c.anchorOf(key, t)).None? {
      AdmitNew(c, g, t, g1, m, key);
    } else {
      AdmitAgain(c, g, t, g1, m, key);
    }
  }

  lemma AdmitKeyCounts(c: Config, g: Group, key: Key, t: int)
    ensures var g1 := AdmitKey(c, g, key, t).0;
            g1 == g.(heap := g1.heap, tasks := g1.tasks, reused := g1.reused) && |g1.heap| + g1.reused == |g.heap| + g.reused + 1
  {
  }

  lemma LookupUnchanged(c: Config, g: Group, t: int, g1: Group, m: map<Key, nat>, key: Key)
    requires TasksOk(g) && LastOk(g) && key !in m
    requires g1.last == g.last && AdmittedHeap(c, g, t, g1, m) && AdmittedTasks(c, g, t, g1, m)
    ensures Lookup(g1, key, c.anchorOf(key, t)) == Lookup(g, key, c.anchorOf(key, t))
    ensures var found := Lookup(g, key, c.anchorOf(key, t));
            found.Some? ==> found.value < |g.heap| && g.heap[found.value].key == key && g.heap[found.value].anchor == c.anchorOf(key, t)
  {
    var p := (key, c.anchorOf(key, t));
    if p in g.tasks { assert HeldAt(g, p, g.tasks[p]); }
  }

  lemma AdmitNew(c: Config, g: Group, t: int, g1: Group, m: map<Key, nat>, key: Key)
    requires key !in m && Lookup(g1, key, c.anchorOf(key, t)).None? && g1.gen == g.gen
    requires Lookup(g, key, c.anchorOf(key, t)).None?
    requires AdmittedHeap(c, g, t, g1, m) && AdmittedTasks(c, g, t, g1, m)
    requires forall k :: k in m ==> AdmittedKey(c, g, t, g1, m, k)
    ensures var (g2, id) := AdmitKey(c, g1, key, t);
      var m2 := m[key := id];
      && AdmittedHeap(c, g, t, g2, m2) && AdmittedTasks(c, g, t, g2, m2)
      && (forall k :: k in m2 ==> AdmittedKey(c, g, t, g2, m2, k))
  {
    var (g2, id) := AdmitKey(c, g1, key, t);
    var m2 := m[key := id];
    assert AdmittedTasks(c, g, t, g2, m2);
    forall k | k in m2
      ensures AdmittedKey(c, g, t, g2, m2, k)
    {
      if k != key { assert AdmittedKey(c, g, t, g1, m, k); }
    }
    AdmitNewHeap(c, g, t, g1, m, key);
  }

  lemma AdmitNewHeap(c: Config, g: Group, t: int, g1: Group, m: map<Key, nat>, key: Key)
    requires key !in m && AdmittedHeap(c, g, t, g1, m) && g1.gen == g.gen
    requires Lookup(g1, key, c.anchorOf(key, t)).None?
    ensures AdmittedHeap(c, g, t, AdmitKey(c, g1, key, t).0, m[key := |g1.heap|])
  {
    var (g2, id) := AdmitKey(c, g1, key, t);
    var m2 := m[key := id];
    forall i | 0 <= i < |g.heap|
      ensures Mapped(g.heap, m2, i) == Mapped(g.heap, m, i)
    {
    }
    forall i | |g.heap| <= i < |g2.heap|
      ensures g2.heap[i] == Task(g2.heap[i].key, c.anchorOf(g2.heap[i].key, t), t, g.gen, None, 1) && Mapped(g2.heap, m2, i)
    {
      if i < |g1.heap| {
        assert g2.heap[i] == g1.heap[i] && Mapped(g1.heap, m, i);
      }
    }
  }

  lemma AdmitAgain(c: Config, g: Group, t: int, g1: Group, m: map<Key, nat>, key: Key)
    requires key !in m && Lookup(g1, key, c.anchorOf(key, t)).Some?
    requires Lookup(g, key, c.anchorOf(key, t)) == Lookup(g1, key, c.anchorOf(key, t))
    requires var id := Lookup(g, key, c.anchorOf(key, t)).value;
             id < |g.heap| && g.heap[id].key == key && g.heap[id].anchor == c.anchorOf(key, t)
    requires AdmittedHeap(c, g, t, g1, m) && AdmittedTasks(c, g, t, g1, m)
    requires forall k :: k in m ==> AdmittedKey(c, g, t, g1, m, k)
    ensures var (g2, id) := AdmitKey(c, g1, key, t);
      var m2 := m[key := id];
      && AdmittedHeap(c, g, t, g2, m2) && AdmittedTasks(c, g, t, g2, m2)
      && (forall k :: k in m2 ==> AdmittedKey(c, g, t, g2, m2, k))
  {
    var (g2, id) := AdmitKey(c, g1, key, t);
    var m2 := m[key := id];
    forall k | k in m2
      ensures AdmittedKey(c, g, t, g2, m2, k)
    {
      if k != key { assert AdmittedKey(c, g, t, g1, m, k); }
    }
    forall i | 0 <= i < |g.heap|
      ensures Mapped(g.heap, m2, i) == (Mapped(g.heap, m, i) || i == id)
    {
    }
    forall i | |g.heap| <= i < |g2.heap|
      ensures Mapped(g2.heap, m2, i)
    {
      assert Mapped(g1.heap, m, i);
    }
  }

  /** The group once the slot at `next` is entered with tasks `m`, before it is settled. */
  ghost function Entered(g: Group, g1: Group, m: map<Key, nat>): Group
    requires g.next < |g.order|
  {
    g1.(slots := g1.slots[g.next := Slot(g.order[g.next], m, false, None)], next := g.next + 1)
  }

  lemma AdmittedSlotKeepsRefs(c: Config, g: Group, g1: Group, m: map<Key, nat>)
    requires ValidConfig(c) && Core(c, g) && g.next < |g.order|
    requires Admitted(c, g, TimeOf(c, g.order[g.next]), |c.keys|, g1, m)
    ensures RefsOk(Entered(g, g1, m))
  {
    var g2 := Entered(g, g1, m);
    assert g2.heap == g1.heap && g2.head == g.head && g2.next == g.next + 1;
    hide ValidConfig, Core, Admitted, Entered, Holders;
    forall id | 0 <= id < |g2.heap|
      ensures g2.heap[id].refs >= Holders(g2, id, g2.head, g2.next)
    {
      HoldersAfterEntry(c, g, g1, m, id);
    }
  }

  lemma HoldersAfterEntry(c: Config, g: Group, g1: Group, m: map<Key, nat>, id: nat)
    requires ValidConfig(c) && Core(c, g) && g.next < |g.order|
    requires Admitted(c, g, TimeOf(c, g.order[g.next]), |c.keys|, g1, m) && id < |g1.heap|
    ensures g1.heap[id].refs >= Holders(Entered(g, g1, m), id, g.head, g.next + 1)
  {
    var g2 := Entered(g, g1, m);
    assert Holders(g2, id, g.head, g.next + 1) == Holders(g2, id, g.head, g.next) + (if Holds(g2, g.next, id) then 1 else 0);
    if id < |g.heap| {
      assert Holds(g2, g.next, id) == Mapped(g.heap, m, id);
      OldHoldersKept(c, g, g1, m, id);
    } else {
      NewTaskNotHeldBefore(c, g, g1, m, id);
    }
  }

  lemma OldHoldersKept(c: Config, g: Group, g1: Group, m: map<Key, nat>, id: nat)
    requires g.next < |g.order| && Admitted(c, g, TimeOf(c, g.order[g.next]), |c.keys|, g1, m) && id < |g.heap|
    ensures Holders(Entered(g, g1, m), id, g.head, g.next) == Holders(g, id, g.head, g.next)
  {
    HoldersFrame(g, Entered(g, g1, m), id, g.head, g.next);
  }

  lemma NewTaskNotHeldBefore(c: Config, g: Group, g1: Group, m: map<Key, nat>, id: nat)
    requires g.next < |g.order| && Admitted(c, g, TimeOf(c, g.order[g.next]), |c.keys|, g1, m) && |g.heap| <= id < |g1.heap|
    requires Positions(c, g) && SlotsOk(c, g)
    ensures Holders(Entered(g, g1, m), id, g.head, g.next) == 0
  {
    var g2 := Entered(g, g1, m);
    forall p | g.head <= p < g.next
      ensures !Holds(g2, p, id)
    {
      assert p in g.slots && SlotOk(c, g, p);
      if g2.heap[id].key in g.slots[p].tasks {
        assert SlotTask(c, g, g.slots[p], g2.heap[id].key);
      }
    }
    NotHeldNotCounted(g2, id, g.head, g.next);
  }

  lemma {:induction false} NotHeldNotCounted(g: Group, id: nat, lo: nat, hi: nat)
    requires forall p :: lo <= p < hi ==> !Holds(g, p, id)
    ensures Holders(g, id, lo, hi) == 0
  {
    if lo < hi { NotHeldNotCounted(g, id, lo, hi - 1); }
  }

  lemma SameOutcomesSameError(c: Config, heap: seq<Task>, heap1: seq<Task>, m: map<Key, nat>, i: nat)
    requires forall k :: k in c.keys && k in m && m[k] < |heap| ==> m[k] < |heap1| && heap1[m[k]].outcome == heap[m[k]].outcome
    requires forall k :: k in c.keys && k in m ==> m[k] < |heap|
    ensures FirstError(c, heap, m, i) == FirstError(c, heap1, m, i)
    ensures AllDone(c, heap, m) <==> AllDone(c, heap1, m)
    decreases |c.keys| - i
  {
    if i < |c.keys| { SameOutcomesSameError(c, heap, heap1, m, i + 1); }
  }

  lemma SlotTaskKept(c: Config, g: Group, t: int, g1: Group, m: map<Key, nat>, slot: Slot, k: Key)
    requires AdmittedHeap(c, g, t, g1, m) && AdmittedTasks(c, g, t, g1, m)
    requires k in slot.tasks && SlotTask(c, g, slot, k)
    ensures SlotTask(c, g1, slot, k)
  {
  }

  lemma EnteredSlotsAreOk(c: Config, g: Group, g1: Group, m: map<Key, nat>, p: nat)
    requires ValidConfig(c) && Core(c, g) && g.next < |g.order|
    requires Admitted(c, g, TimeOf(c, g.order[g.next]), |c.keys|, g1, m)
    requires p in g.slots || p == g.next
    ensures p in Entered(g, g1, m).slots && SlotOk(c, Entered(g, g1, m), p)
    ensures p in g.slots ==> p != g.next && Fresh(c, Entered(g, g1, m), p)
  {
    var g2, t := Entered(g, g1, m), TimeOf(c, g.order[g.next]);
    if p in g.slots {
      assert p != g.next && SlotOk(c, g, p) && Fresh(c, g, p);
      var slot := g.slots[p];
      assert g2.slots[p] == slot;
      forall k | k in slot.tasks
        ensures SlotTask(c, g2, slot, k) && slot.tasks[k] < |g.heap|
      {
        SlotTaskKept(c, g, t, g1, m, slot, k);
      }
      SameOutcomesSameError(c, g.heap, g1.heap, slot.tasks, 0);
    } else {
      assert c.keys[..|c.keys|] == c.keys;
      forall k | k in m
        ensures SlotTask(c, g2, g2.slots[p], k)
      {
        assert AdmittedKey(c, g, t, g1, m, k);
      }
    }
  }

  /** Settling a slot makes it fresh, leaves fresh slots alone and keeps the stop position. */
  lemma CheckSlotSettles(c: Config, g: Group, pos: nat)
    requires pos in g.slots && StopOk(g) && Quiet(g)
    ensures var g1 := CheckSlot(c, g, pos);
      && g1 == g.(slots := g1.slots, stop := g1.stop)
      && (forall p :: p in g1.slots <==> p in g.slots)
      && (forall p :: p in g.slots ==> g1.slots[p].tasks == g.slots[p].tasks && g1.slots[p].epoch == g.slots[p].epoch)
      && (forall p :: p in g.slots && p != pos ==> g1.slots[p] == g.slots[p])
      && (!g.slots[pos].done ==> Fresh(c, g1, pos))
      && (Fresh(c, g, pos) ==> g1.slots[pos] == g.slots[pos])
      && StopOk(g1) && Quiet(g1)
  {
    hide AllDone, FirstError;
    StopStays(c, g, pos);
  }

  lemma StopStays(c: Config, g: Group, pos: nat)
    requires pos in g.slots && StopOk(g) && Quiet(g)
    ensures StopOk(CheckSlot(c, g, pos)) && Quiet(CheckSlot(c, g, pos))
  {
    hide AllDone, FirstError;
  }

  lemma SlotsStayOk(c: Config, g: Group, g1: Group)
    requires g1 == g.(slots := g1.slots, stop := g1.stop)
    requires forall p :: p in g1.slots <==> p in g.slots
    requires forall p :: p in g.slots ==> g1.slots[p].tasks == g.slots[p].tasks && g1.slots[p].epoch == g.slots[p].epoch
    requires forall p :: p in g.slots ==> SlotOk(c, g, p)
    ensures forall p :: p in g1.slots ==> SlotOk(c, g1, p)
    ensures RefsOk(g) ==> RefsOk(g1)
  {
    forall p | p in g1.slots
      ensures SlotOk(c, g1, p)
    {
      assert SlotOk(c, g, p);
      forall k | k in g1.slots[p].tasks
        ensures SlotTask(c, g1, g1.slots[p], k)
      {
        assert SlotTask(c, g, g.slots[p], k);
      }
    }
    if RefsOk(g) {
      forall id | 0 <= id < |g1.heap|
        ensures g1.heap[id].refs >= Holders(g1, id, g1.head, g1.next)
      {
        HoldersFrame(g, g1, id, g.head, g.next);
      }
    }
  }

  lemma AdmittedHeapIsOk(c: Config, g: Group, t: int, g1: Group, m: map<Key, nat>)
    requires ValidConfig(c) && Always(c, g)
    requires Admitted(c, g, t, |c.keys|, g1, m)
    ensures HeapOk(c, g1) && TasksOk(g1) && LastOk(g1)
  {
    hide RefsOk, ValidConfig, Mapped;
    assert c.keys[..|c.keys|] == c.keys;
    forall id | 0 <= id < |g1.heap|
      ensures TaskOk(c, g1, g1.heap[id])
    {
      if id < |g.heap| { assert TaskOk(c, g, g.heap[id]); } else { NewTaskKey(c, g, t, g1, m, id); }
    }
    AdmittedTasksAreHeld(c, g, t, g1, m);
  }

  lemma NewTaskKey(c: Config, g: Group, t: int, g1: Group, m: map<Key, nat>, id: nat)
    requires AdmittedHeap(c, g, t, g1, m) && |g.heap| <= id < |g1.heap|
    ensures g1.heap[id].key in m
  {
  }

  lemma AdmittedTasksAreHeld(c: Config, g: Group, t: int, g1: Group, m: map<Key, nat>)
    requires Admitted(c, g, t, |c.keys|, g1, m) && TasksOk(g) && LastOk(g)
    ensures TasksOk(g1)
  {
    hide Mapped;
    forall p | p in g1.tasks
      ensures HeldAt(g1, p, g1.tasks[p])
    {
      if p in g.tasks {
        assert HeldAt(g, p, g.tasks[p]);
      } else {
        assert AdmittedKey(c, g, t, g1, m, p.0);
      }
    }
  }
}
