/** The prefetch group as the object it is: fields updated in place under one lock, each
    method doing exactly one step of the model. */
module PrefetchObject {
  import opened Wrappers
  import opened NativeData
  import opened FiniteSum
  import opened PrefetchModel
  import opened PrefetchInvariant
  import opened PrefetchSteps
  import opened PrefetchFilled
  import opened PrefetchCalls

  class PrefetchGroup {
    const config: Config
    var phase: Phase
    var gen: nat
    var order: seq<nat>
    var head: nat
    var next: nat
    var stop: Option<nat>
    var slots: map<nat, Slot>
    var tasks: map<(Key, int), nat>
    var heap: seq<Task>
    var last: map<Key, nat>
    var prev: map<Key, int>
    var size: map<Key, nat>
    var reused: nat

    ghost function View(): Group
      reads this
    {
      Group(phase, gen, order, head, next, stop, slots, tasks, heap, last, prev, size, reused)
    }

    ghost predicate Valid()
      reads this
    {
      ValidConfig(config) && Inv(config, View())
    }

    constructor (c: Config)
      requires ValidConfig(c)
      ensures config == c && View() == Initial() && Valid()
    {
      config := c;
      phase, gen, order, head, next, stop := Idle, 0, [], 0, 0, None;
      slots, tasks, heap, last, prev, size, reused := map[], map[], [], map[], map[], map[], 0;
    }

    // ---- under the lock ----------------------------------------------------------

    method EndOrderLocked(p: Phase)
      modifies this
      ensures View() == EndOrder(old(View()), p)
    {
      gen := gen + 1;
      slots := map[];
      tasks := map[];
      phase := p;
    }

    method ReleaseLocked(id: nat)
      requires id < |heap|
      modifies this`heap, this`tasks
      ensures View() == Release(old(View()), id) && |heap| == |old(heap)|
    {
      heap := heap[id := heap[id].(refs := heap[id].refs - 1)];
      var p := (heap[id].key, heap[id].anchor);
      if heap[id].refs <= 0 && p in tasks && tasks[p] == id {
        tasks := tasks - {p};
      }
    }

    method HeldBytesLocked() returns (total: nat, unknown: bool)
      requires TasksOk(View())
      ensures total == HeldBytes(config, View())
      ensures unknown <==> HeldUnknown(View())
    {
      hide Sum, Part, TasksOk;
      total, unknown := 0, false;
      var rest := tasks.Keys;
      ghost var w := Weights(config, View());
      PartEnds(w);
      while rest != {}
        invariant rest <= w.Keys == tasks.Keys
        invariant total + Sum(Part(w, rest)) == Sum(w)
        invariant unknown <==> exists p :: p in tasks && p !in rest && SizeUnknown(View(), tasks[p])
        decreases |rest|
      {
        var p :| p in rest;
        TaskIsHeld(View(), p);
        var task := heap[tasks[p]];
        PartStep(w, rest, p);
        if task.Done() {
          total := total + TaskBytes(config, task);
        } else if task.key in size {
          total := total + size[task.key];
        } else {
          unknown := true;
        }
        rest := rest - {p};
      }
    }

    method CheckSlotLocked(pos: nat)
      requires pos in slots && MapOk(config, View(), slots[pos].tasks)
      modifies this`slots, this`stop
      ensures View() == CheckSlot(config, old(View()), pos)
    {
      var slot := slots[pos];
      if slot.done { return; }
      var i := 0;
      while i < |config.keys|
        invariant i <= |config.keys|
        invariant forall j :: 0 <= j < i ==> heap[slot.tasks[config.keys[j]]].Done()
      {
        if !heap[slot.tasks[config.keys[i]]].Done() {
          assert config.keys[i] in config.keys;
          return;
        }
        i := i + 1;
      }
      var err: Option<Error> := None;
      i := 0;
      while i < |config.keys| && err.None?
        invariant i <= |config.keys|
        invariant FirstError(config, heap, slot.tasks, 0) == if err.Some? then err else FirstError(config, heap, slot.tasks, i)
      {
        var task := heap[slot.tasks[config.keys[i]]];
        if task.Failed() { err := Some(task.outcome.value.error); }
        i := i + 1;
      }
      slots := slots[pos := slot.(done := true, error := err)];
      if err.Some? && (stop.None? || pos < stop.value) { stop := Some(pos); }
    }

    /** What the next slot needs of each member, and its size estimate (None: unknown). */
    method NeedsLocked(t: int) returns (need: seq<Option<nat>>, est: Option<nat>)
      requires TasksOk(View()) && LastOk(View())
      ensures |need| == |config.keys|
      ensures forall i :: 0 <= i < |need| ==> need[i] == Lookup(View(), config.keys[i], config.anchorOf(config.keys[i], t))
      ensures est == Estimate(config, View(), t, |config.keys|)
    {
      need, est := [], Some(0);
      var i := 0;
      while i < |config.keys|
        invariant i <= |config.keys| && |need| == i
        invariant forall j :: 0 <= j < i ==> need[j] == Lookup(View(), config.keys[j], config.anchorOf(config.keys[j], t))
        invariant est == Estimate(config, View(), t, i)
      {
        var key := config.keys[i];
        var anchor := config.anchorOf(key, t);
        if (key, anchor) in tasks {
          need := need + [Some(tasks[(key, anchor)])];
        } else if key in last && heap[last[key]].anchor == anchor {
          need := need + [Some(last[key])];
          est := match est case Some(e) => Some(e + TaskBytes(config, heap[last[key]])) case None => None;
        } else {
          need := need + [None];
          est := match est case Some(e) => (if key in size then Some(e + size[key]) else None) case None => None;
        }
        i := i + 1;
      }
    }

    /** Give member `key` the task it needs: the one found, or a new one for the pool. */
    method EnterKeyLocked(key: Key, t: int, need: Option<nat>) returns (id: nat, todo: seq<nat>)
      requires need == Lookup(View(), key, config.anchorOf(key, t))
      requires need.Some? ==> need.value < |heap|
      modifies this`heap, this`tasks, this`reused
      ensures (View(), id) == AdmitKey(config, old(View()), key, t)
      ensures |heap| >= |old(heap)| && todo == NewIds(|old(heap)|, |heap|)
    {
      todo := [];
      var anchor := config.anchorOf(key, t);
      if need.None? {
        id := |heap|;
        heap := heap + [Task(key, anchor, t, gen, None, 1)];
        tasks := tasks[(key, anchor) := id];
        todo := [id];
      } else {
        id := need.value;
        if (key, anchor) !in tasks { tasks := tasks[(key, anchor) := id]; }
        assert tasks == old(tasks)[(key, anchor) := id];
        reused := reused + 1;
        heap := heap[id := heap[id].(refs := heap[id].refs + 1)];
      }
    }

    /** A task per member for a slot at time `t`, new or shared, in key order. */
    method EnterKeysLocked(t: int, need: seq<Option<nat>>) returns (m: map<Key, nat>, todo: seq<nat>)
      requires ValidConfig(config) && TasksOk(View()) && LastOk(View())
      requires |need| == |config.keys|
      requires forall i :: 0 <= i < |need| ==> need[i] == Lookup(View(), config.keys[i], config.anchorOf(config.keys[i], t))
      modifies this`heap, this`tasks, this`reused
      ensures (View(), m) == AdmitKeys(config, old(View()), t, |config.keys|)
      ensures |heap| >= |old(heap)| && todo == NewIds(|old(heap)|, |heap|)
    {
      hide ValidConfig, Lookup, AdmitKeys, AdmitKey, TasksOk, LastOk;
      m, todo := map[], [];
      ghost var g := View();
      AdmitNone(config, g, t);
      var i := 0;
      while i < |config.keys|
        invariant i <= |config.keys|
        invariant (View(), m) == AdmitKeys(config, g, t, i)
        invariant |heap| >= |old(heap)| && todo == NewIds(|old(heap)|, |heap|)
      {
        FoundAgain(config, g, t, i);
        AdmitKeysStep(config, g, t, i + 1);
        var id, more := EnterKeyLocked(config.keys[i], t, need[i]);
        todo := todo + more;
        m := m[config.keys[i] := id];
        i := i + 1;
      }
    }

    /** Enter the slot at `next`. */
    method EnterSlotLocked(need: seq<Option<nat>>) returns (todo: seq<nat>)
      requires ValidConfig(config) && Core(config, View()) && MayAdmit(config, View())
      requires |need| == |config.keys|
      requires forall i :: 0 <= i < |need| ==> need[i] == Lookup(View(), config.keys[i], config.anchorOf(config.keys[i], TimeOf(config, order[next])))
      modifies this`heap, this`tasks, this`reused, this`slots, this`stop, this`next
      ensures View() == AdmitSlot(config, old(View()))
      ensures |heap| >= |old(heap)| && todo == NewIds(|old(heap)|, |heap|)
    {
      hide Core, ValidConfig, Lookup, AdmitKeys, AdmitSlot, CheckSlot, TasksOk, LastOk, MapOk, TimeOf, Admitted;
      var pos, epoch, t := next, order[next], TimeOf(config, order[next]);
      ghost var g := View();
      CoreParts(config, g);
      AdmitKeysAdmits(config, g, t, |config.keys|);
      var m: map<Key, nat>;
      m, todo := EnterKeysLocked(t, need);
      ghost var g1 := View();
      slots := slots[pos := Slot(epoch, m, false, None)];
      next := next + 1;
      AdmittedMapOk(config, g, t, View(), m);
      EnteredIs(config, g, g1, m, View());
      CheckSlotLocked(pos);
    }

    /** Whether the budget holds the next slot back, given its estimate. */
    method HeldBackLocked(est: Option<nat>) returns (blocked: bool)
      requires TasksOk(View()) && next < |order|
      requires est == Estimate(config, View(), TimeOf(config, order[next]), |config.keys|)
      ensures blocked <==> OverBudget(config, View())
    {
      hide Estimate, HeldBytes, HeldUnknown, TasksOk;
      if next == head || config.maxBytes.None? { return false; }
      var held, heldUnknown := HeldBytesLocked();
      blocked := if est.None? || heldUnknown then slots != map[] else held + est.value > config.maxBytes.value;
    }

    /** Admit the next slot, unless the budget holds it back. */
    method AdmitNextLocked() returns (blocked: bool, todo: seq<nat>)
      requires ValidConfig(config) && Core(config, View()) && MayAdmit(config, View())
      modifies this`heap, this`tasks, this`reused, this`slots, this`stop, this`next
      ensures blocked <==> OverBudget(config, old(View()))
      ensures View() == if blocked then old(View()) else AdmitSlot(config, old(View()))
      ensures |heap| >= |old(heap)| && todo == NewIds(|old(heap)|, |heap|)
    {
      hide Core, ValidConfig, Lookup, AdmitSlot, OverBudget, TasksOk, LastOk, Estimate, TimeOf;
      CoreParts(config, View());
      todo := [];
      var need, est := NeedsLocked(TimeOf(config, order[next]));
      blocked := HeldBackLocked(est);
      if !blocked { todo := EnterSlotLocked(need); }
    }

    /** Admit slots while depth, budget and the stop position allow; return the new tasks. */
    method AdmitLocked() returns (todo: seq<nat>)
      requires ValidConfig(config) && Core(config, View())
      modifies this`heap, this`tasks, this`reused, this`slots, this`stop, this`next
      ensures View() == Admit(config, old(View())) && Valid() && Filled(config, View())
      ensures |heap| >= |old(heap)| && todo == NewIds(|old(heap)|, |heap|)
    {
      hide Core, ValidConfig, AdmitSlot, OverBudget, Inv, Admit, Filled;
      todo := [];
      AdmitFills(config, View());
      AdmitKeepsInv(config, View());
      CoreParts(config, View());
      while stop.None? && next < |order| && next < head + config.depth
        invariant Core(config, View()) && phase == Running
        invariant Admit(config, View()) == Admit(config, old(View()))
        invariant |heap| >= |old(heap)| && todo == NewIds(|old(heap)|, |heap|)
        decreases |order| - next
      {
        CoreParts(config, View());
        AdmitUnfold(config, View());
        AdmitSlotKeepsCore(config, View());
        AdmitSlotCursors(config, View());
        var blocked, more := AdmitNextLocked();
        if blocked { break; }
        todo := todo + more;
        CoreParts(config, View());
      }
      AdmitUnfold(config, View());
    }

    // ---- the consumer's calls --------------------------------------------------------

    /** Declare an order, ending any previous one. A bad order changes nothing. */
    method Start(spec: OrderSpec, from: Option<int>) returns (ok: bool, todo: seq<nat>)
      requires Valid()
      modifies this
      ensures Valid()
      ensures ok <==> old(phase) != Closed && GoodListing(|config.bounds|, Listing(|config.bounds|, spec))
                      && (from.Some? ==> from.value in Listing(|config.bounds|, spec))
      ensures !ok ==> View() == old(View()) && todo == []
      ensures ok ==> exists seq_: seq<nat> ::
                View() == PrefetchModel.Start(config, old(View()), seq_)
                && if from.None? then seq_ == Listing(|config.bounds|, spec) else TrimmedTo(Listing(|config.bounds|, spec), from.value, seq_)
      ensures ok ==> |heap| >= |old(heap)| && todo == NewIds(|old(heap)|, |heap|)
      ensures ok ==> Filled(config, View()) && phase == Running && head == 0 && gen == old(gen) + 1 && prev == map[] && last == old(last)
      ensures ok && config.maxBytes.None? && stop.None? ==> next == if config.depth <= |order| then config.depth else |order|
    {
      hide Filled, ValidConfig, Inv, GoodListing, TrimmedTo, Listing, PrefetchModel.Start;
      todo := [];
      HasBounds(config);
      var resolved := ResolveOrder(|config.bounds|, spec, from);
      if resolved.None? || phase == Closed { return false, []; }
      ok := true;
      todo := RestartLocked(resolved.value);
      FilledToDepth(config, View());
    }

    /** End any order and begin this one. */
    method RestartLocked(resolved: seq<nat>) returns (todo: seq<nat>)
      requires Valid() && phase != Closed && GoodListing(|config.bounds|, resolved)
      modifies this
      ensures Valid() && View() == PrefetchModel.Start(config, old(View()), resolved)
      ensures Filled(config, View()) && phase == Running && head == 0 && gen == old(gen) + 1 && order == resolved && prev == map[] && last == old(last)
      ensures |heap| >= |old(heap)| && todo == NewIds(|old(heap)|, |heap|)
    {
      hide ValidConfig, Inv, Core, Admit, Filled;
      ghost var g := View();
      StartCursor(config, g, resolved);
      StartCore(config, g, resolved);
      EndOrderLocked(Idle);
      order := resolved;
      head, next, stop := 0, 0, None;
      prev := map[];
      phase := Running;
      todo := AdmitLocked();
    }

    /** Deliver the next epoch, or say why not; a stored error ends the order. */
    method Take(k: int) returns (reply: Reply, todo: seq<nat>)
      requires Valid()
      modifies this
      ensures Valid()
      ensures (View(), reply) == PrefetchModel.Take(config, old(View()), k)
      ensures reply.Took? ==> |heap| >= |old(heap)| && todo == NewIds(|old(heap)|, |heap|)
      ensures !reply.Took? ==> todo == []
      ensures reply.Took? ==> Filled(config, View())
      ensures reply.Refused? <==> old(phase) != Running || old(head) >= |old(order)|
      ensures reply.OutOfOrder? <==> old(phase) == Running && old(head) < |old(order)| && k != old(order)[old(head)]
      ensures reply.OutOfOrder? ==> reply.expected == old(order)[old(head)]
      ensures reply.Refused? || reply.OutOfOrder? || reply.Blocked? ==> View() == old(View())
    {
      hide Inv, Core, ValidConfig, Admit, Deliver, ReleaseKeys, Samples, Filled;
      todo := [];
      ghost var g := View();
      TakeKeepsInv(config, g, k);
      if phase != Running || head >= |order| { return Refused, []; }
      if k != order[head] { return OutOfOrder(order[head]), []; }
      HeadIsHeld(config, g);
      var slot := slots[head];
      if !slot.done { return Blocked, []; }
      HeadMapOk(config, g);
      slots := slots - {head};
      head := head + 1;
      if slot.error.Some? {
        ReleaseSlotLocked(slot.tasks);
        EndOrderLocked(Failed);
        return Raised(slot.error.value), [];
      }
      var samples;
      samples, todo := DeliverHeadLocked(g, slot.tasks);
      reply := Took(samples);
    }

    /** Deliver the popped head slot, and admit more. */
    method DeliverHeadLocked(ghost g: Group, m: map<Key, nat>) returns (samples: map<Key, Sample>, todo: seq<nat>)
      requires ValidConfig(config) && Core(config, g) && g.head < g.next && g.head in g.slots && m == g.slots[g.head].tasks
      requires g.slots[g.head].done && g.slots[g.head].error.None? && View() == Popped(g)
      modifies this
      ensures View() == Admit(config, Deliver(config, Popped(g), m)) && Valid() && Filled(config, View())
      ensures samples == Samples(g, m)
      ensures |heap| >= |old(heap)| && todo == NewIds(|old(heap)|, |heap|)
    {
      hide Inv, Core, ValidConfig, Admit, Deliver, Samples, MapOk, Popped, Filled;
      DeliverKeepsCore(config, g);
      HeadMapOk(config, g);
      HeadSucceeded(config, g);
      samples := DeliverLocked(g, m);
      todo := AdmitLocked();
    }

    method ReleaseSlotLocked(m: map<Key, nat>)
      requires MapOk(config, View(), m)
      modifies this`heap, this`tasks
      ensures View() == ReleaseKeys(config, old(View()), m, |config.keys|)
    {
      var i := 0;
      while i < |config.keys|
        invariant i <= |config.keys| && |heap| == |old(heap)|
        invariant View() == ReleaseKeys(config, old(View()), m, i)
      {
        assert config.keys[i] in config.keys;
        ReleaseLocked(m[config.keys[i]]);
        i := i + 1;
      }
    }

    /** Hand over one member's sample: marked changed if its anchor is, released, kept as last. */
    method DeliverKeyLocked(key: Key, id: nat) returns (sample: Sample)
      requires id < |heap| && heap[id].Succeeded()
      modifies this`heap, this`tasks, this`prev, this`last
      ensures View() == Release(old(View()), id).(prev := old(prev)[key := old(heap)[id].anchor], last := old(last)[key := id]) && |heap| == |old(heap)|
      ensures sample == Sample(old(heap)[id].outcome.value.value, old(heap)[id].anchor, !(key in old(prev) && old(prev)[key] == old(heap)[id].anchor))
    {
      hide Release;
      var task := heap[id];
      sample := Sample(task.outcome.value.value, task.anchor, !(key in prev && prev[key] == task.anchor));
      ghost var before := View();
      prev := prev[key := task.anchor];
      ReleaseIgnoresRecord(before, View(), id);
      ReleaseLocked(id);
      last := last[key := id];
    }

    /** Hand over a settled slot's samples member by member, releasing each as it goes. */
    method DeliverLocked(ghost g: Group, m: map<Key, nat>) returns (samples: map<Key, Sample>)
      requires ValidConfig(config) && View() == Popped(g) && MapOk(config, g, m)
      requires forall k :: k in m ==> g.heap[m[k]].Succeeded()
      modifies this`heap, this`tasks, this`prev, this`last
      ensures View() == Deliver(config, Popped(g), m) && |heap| == |old(heap)|
      ensures samples == Samples(g, m)
    {
      hide ValidConfig, ReleaseKeys, Release, HandedOver, Deliver, Samples, MapOk;
      samples := map[];
      var i := 0;
      HandedOverNone(config, g, m);
      ReleaseNone(config, Popped(g), m);
      while i < |config.keys|
        invariant i <= |config.keys| && PartReleased(config, g, m, i, View())
        invariant HandedOver(config, g, m, i, prev, last, samples)
      {
        var key := config.keys[i];
        KeyMapped(config, g, m, i);
        var id := m[key];
        ghost var v := View();
        HandOverNext(config, g, m, i, v);
        var sample := DeliverKeyLocked(key, id);
        HandOverStep(config, g, m, i, v, View(), samples, sample);
        samples := samples[key := sample];
        i := i + 1;
      }
      HandedOverAll(config, g, m, prev, last, samples);
    }

    /** Whether taking `k` would return at once. */
    method Ready(k: int) returns (r: bool)
      requires Valid()
      ensures r == PrefetchModel.Ready(View(), k)
    {
      if phase != Running || head >= next { return false; }
      r := order[head] == k && slots[head].done;
    }

    method Cancel()
      requires Valid()
      modifies this
      ensures Valid() && View() == PrefetchModel.Cancel(old(View()))
      ensures if old(phase) == Running || old(phase) == Failed
              then phase == Cancelled && gen == old(gen) + 1 && slots == map[] && tasks == map[] && heap == old(heap) && last == old(last) && size == old(size)
              else View() == old(View())
    {
      CancelKeepsInv(config, View());
      if phase == Running || phase == Failed { EndOrderLocked(Cancelled); }
    }

    method Close()
      requires Valid()
      modifies this
      ensures Valid() && View() == PrefetchModel.Close(old(View()))
      ensures phase == Closed && heap == old(heap) && (old(phase) != Closed ==> last == map[] && slots == map[] && tasks == map[])
    {
      CancelKeepsInv(config, View());
      if phase == Closed { return; }
      Cancel();
      phase := Closed;
      last := map[];
    }

    // ---- a worker ----------------------------------------------------------------------

    /** Record an outcome, settle the slots that waited for it, and admit more. */
    method Finish(id: nat, outcome: Result<Data, Error>) returns (todo: seq<nat>)
      requires Valid() && Possible(config, View(), EvFinish(id, outcome))
      modifies this
      ensures Valid() && View() == PrefetchModel.Finish(config, old(View()), id, outcome)
      ensures |heap| >= |old(heap)| && todo == NewIds(|old(heap)|, |heap|)
      ensures old(heap)[id].gen != old(gen) || old(heap)[id].outcome.Some? ==> View() == old(View()) && todo == []
      ensures old(heap)[id].gen == old(gen) && old(heap)[id].outcome.None? ==> id < |heap| && heap[id].outcome == Some(outcome) && (phase == Running ==> Filled(config, View()))
    {
      hide Inv, Core, ValidConfig, Admit, CheckRange, Checked, Record, Filled;
      ghost var g := View();
      OutcomesCountOnce(config, g, id, outcome);
      FinishKeepsInv(config, g, id, outcome);
      todo := [];
      if heap[id].gen != gen || heap[id].Done() { return; }
      RecordLocked(id, outcome);
      if phase != Running {
        NotRunning(config, g, View(), id);
        return;
      }
      RunningParts(config, g);
      CheckedCore(config, g, id, outcome);
      SettleLocked(g, id, outcome);
      todo := AdmitLocked();
    }

    method RecordLocked(id: nat, outcome: Result<Data, Error>)
      requires id < |heap|
      modifies this`heap, this`size
      ensures View() == Record(config, old(View()), id, outcome) && |heap| == |old(heap)|
      ensures slots == old(slots)
    {
      heap := heap[id := heap[id].(outcome := Some(outcome))];
      if outcome.Ok? { size := size[heap[id].key := config.nbytes(outcome.value)]; }
    }

    /** Settle the held slots that hold task `id`, in position order. */
    method SettleLocked(ghost g: Group, id: nat, outcome: Result<Data, Error>)
      requires ValidConfig(config) && Core(config, g) && id < |g.heap| && View() == Record(config, g, id, outcome)
      modifies this`slots, this`stop
      ensures View() == CheckRange(config, Record(config, g, id, outcome), id, g.head, g.next)
    {
      hide Core, ValidConfig, CheckRange, CheckSlot, MapOk;
      CoreParts(config, g);
      ghost var g1 := View();
      CheckNone(config, g1, id, head);
      var pos := head;
      while pos < next
        invariant head <= pos <= next
        invariant View() == CheckRange(config, g1, id, head, pos)
        invariant View() == g1.(slots := slots, stop := stop)
        invariant forall p :: p in slots <==> p in g1.slots
        invariant forall p :: p in slots ==> slots[p].tasks == g1.slots[p].tasks
      {
        SettledMapOk(config, g, g1, pos);
        MapOkFrame(config, g1, View(), slots[pos].tasks);
        TaskHasKey(config, g, id, pos);
        CheckRangeStep(config, g1, id, head, pos + 1);
        CheckSlotFrameTasks(config, View(), pos);
        if slots[pos].tasks[heap[id].key] == id { CheckSlotLocked(pos); }
        pos := pos + 1;
      }
    }
  }

  // ---- what the methods need of the model ------------------------------------------------

  lemma FilledToDepth(c: Config, g: Group)
    requires Filled(c, g) && Inv(c, g) && g.phase == Running && g.head == 0
    ensures c.maxBytes.None? && g.stop.None? ==> g.next == if c.depth <= |g.order| then c.depth else |g.order|
  {
    WindowBounds(c, g);
    hide Inv;
  }

  lemma StartCursor(c: Config, g: Group, order: seq<nat>)
    requires ValidConfig(c) && Inv(c, g) && g.phase != Closed && Possible(c, g, EvStart(order))
    ensures var g1 := PrefetchModel.Start(c, g, order); g1.phase == Running && g1.head == 0 && g1.gen == g.gen + 1 && g1.order == order && g1.prev == map[] && g1.last == g.last
  {
    hide ValidConfig, Inv, Admit;
    StartCore(c, g, order);
    AdmitKeepsInv(c, Restarted(g, order));
  }

  function Part(w: map<(Key, int), nat>, rest: set<(Key, int)>): map<(Key, int), nat> {
    map p | p in rest && p in w :: w[p]
  }

  lemma PartEnds(w: map<(Key, int), nat>)
    ensures Part(w, w.Keys) == w && Sum(Part(w, {})) == 0
  {
  }

  lemma PartStep(w: map<(Key, int), nat>, rest: set<(Key, int)>, p: (Key, int))
    requires p in rest && p in w
    ensures Sum(Part(w, rest)) == w[p] + Sum(Part(w, rest - {p}))
  {
    SumWithout(Part(w, rest), p);
    assert Part(w, rest) - {p} == Part(w, rest - {p});
  }

  lemma TaskIsHeld(g: Group, p: (Key, int))
    requires TasksOk(g) && p in g.tasks
    ensures g.tasks[p] < |g.heap|
  {
    assert HeldAt(g, p, g.tasks[p]);
  }

  lemma CoreParts(c: Config, g: Group)
    requires Core(c, g)
    ensures TasksOk(g) && LastOk(g) && g.phase == Running && g.head <= g.next <= |g.order|
  {
  }

  lemma HeadIsHeld(c: Config, g: Group)
    requires Inv(c, g) && g.phase == Running && g.head < |g.order|
    ensures Core(c, g) && g.head < g.next && g.head in g.slots
  {
  }

  lemma HeadSucceeded(c: Config, g: Group)
    requires Core(c, g) && g.head < g.next && g.head in g.slots && g.slots[g.head].done && g.slots[g.head].error.None?
    ensures forall k :: k in g.slots[g.head].tasks ==> g.slots[g.head].tasks[k] < |g.heap| && g.heap[g.slots[g.head].tasks[k]].Succeeded()
  {
    HeadHeld(c, g);
    forall k | k in g.slots[g.head].tasks
      ensures g.slots[g.head].tasks[k] < |g.heap| && g.heap[g.slots[g.head].tasks[k]].Succeeded()
    {
      SettledSucceeded(c, g, g.head, k);
    }
  }

  lemma AdmitUnfold(c: Config, g: Group)
    ensures Admit(c, g) == if !MayAdmit(c, g) || OverBudget(c, g) then g else Admit(c, AdmitSlot(c, g))
  {
    hide OverBudget, AdmitSlot;
  }

  lemma HasBounds(c: Config)
    requires ValidConfig(c)
    ensures |c.bounds| > 0
  {
  }

  lemma AdmitNone(c: Config, g: Group, t: int)
    ensures AdmitKeys(c, g, t, 0) == (g, map[])
  {
  }

  lemma EnteredIs(c: Config, g: Group, g1: Group, m: map<Key, nat>, g2: Group)
    requires g.next < |g.order| && (g1, m) == AdmitKeys(c, g, TimeOf(c, g.order[g.next]), |c.keys|)
    requires g2 == g1.(slots := g.slots[g.next := Slot(g.order[g.next], m, false, None)], next := g.next + 1) && g1.slots == g.slots
    ensures AdmitSlot(c, g) == CheckSlot(c, g2, g.next)
  {
  }

  lemma ReleaseNone(c: Config, g: Group, m: map<Key, nat>)
    ensures ReleaseKeys(c, g, m, 0) == g
  {
  }

  lemma ReleaseKeysStep(c: Config, g: Group, m: map<Key, nat>, i: nat, id: nat)
    requires i < |c.keys| && c.keys[i] in m && id == m[c.keys[i]] && id < |g.heap|
    ensures ReleaseKeys(c, g, m, i + 1) == Release(ReleaseKeys(c, g, m, i), id)
    ensures var g1 := ReleaseKeys(c, g, m, i);
            id < |g1.heap| && g1.heap[id].anchor == g.heap[id].anchor && g1.heap[id].outcome == g.heap[id].outcome
  {
    ReleaseKeepsData(c, g, m, i, id);
  }

  lemma {:induction false} ReleaseKeepsData(c: Config, g: Group, m: map<Key, nat>, i: nat, id: nat)
    requires i <= |c.keys| && id < |g.heap|
    ensures var g1 := ReleaseKeys(c, g, m, i);
            |g1.heap| == |g.heap| && g1.heap[id].anchor == g.heap[id].anchor && g1.heap[id].outcome == g.heap[id].outcome
  {
    if i > 0 { ReleaseKeepsData(c, g, m, i - 1, id); }
  }

  function Restricted<V>(w: map<Key, V>, ks: seq<Key>): map<Key, V> {
    map k | k in w && k in ks :: w[k]
  }

  lemma RestrictedExtends<V>(base: map<Key, V>, w: map<Key, V>, ks: seq<Key>, key: Key)
    requires key in w
    ensures base + Restricted(w, ks + [key]) == (base + Restricted(w, ks))[key := w[key]]
  {
  }

  lemma RestrictedAll<V>(w: map<Key, V>, ks: seq<Key>)
    requires forall k :: k in w ==> k in ks
    ensures Restricted(w, ks) == w
  {
  }

  function AnchorsOf(g: Group, m: map<Key, nat>): map<Key, int> {
    map k | k in m :: AnchorOfTask(g, m[k])
  }

  /** The delivery record and the samples once the first `i` members are handed over. */
  ghost predicate HandedOver(c: Config, g: Group, m: map<Key, nat>, i: nat, prev: map<Key, int>, last: map<Key, nat>, samples: map<Key, Sample>)
    requires i <= |c.keys|
  {
    && prev == g.prev + Restricted(AnchorsOf(g, m), c.keys[..i])
    && last == g.last + Restricted(m, c.keys[..i])
    && samples == map[] + Restricted(Samples(g, m), c.keys[..i])
  }

  lemma HandedOverNone(c: Config, g: Group, m: map<Key, nat>)
    ensures HandedOver(c, g, m, 0, g.prev, g.last, map[])
  {
  }

  lemma KeyMapped(c: Config, g: Group, m: map<Key, nat>, i: nat)
    requires MapOk(c, g, m) && i < |c.keys|
    ensures c.keys[i] in m && m[c.keys[i]] < |g.heap|
  {
    assert c.keys[i] in c.keys;
  }

  /** The group with the first `i` members handed over, but for its records of what was. */
  ghost predicate PartReleased(c: Config, g: Group, m: map<Key, nat>, i: nat, v: Group)
    requires i <= |c.keys|
  {
    v == ReleaseKeys(c, Popped(g), m, i).(prev := v.prev, last := v.last) && |v.heap| == |g.heap|
  }

  /** The next member's task is as it was. */
  lemma HandOverNext(c: Config, g: Group, m: map<Key, nat>, i: nat, v: Group)
    requires i < |c.keys| && c.keys[i] in m && m[c.keys[i]] < |g.heap| && PartReleased(c, g, m, i, v)
    ensures v.heap[m[c.keys[i]]].anchor == g.heap[m[c.keys[i]]].anchor && v.heap[m[c.keys[i]]].outcome == g.heap[m[c.keys[i]]].outcome
  {
    hide ReleaseKeys, Release;
    ReleaseKeysStep(c, Popped(g), m, i, m[c.keys[i]]);
  }

  lemma HandOverStep(c: Config, g: Group, m: map<Key, nat>, i: nat, v: Group, v1: Group, samples: map<Key, Sample>, s: Sample)
    requires ValidConfig(c) && i < |c.keys| && c.keys[i] in m && m[c.keys[i]] < |g.heap| && g.heap[m[c.keys[i]]].Succeeded()
    requires PartReleased(c, g, m, i, v) && HandedOver(c, g, m, i, v.prev, v.last, samples)
    requires var key, id := c.keys[i], m[c.keys[i]];
             && v1 == Release(v, id).(prev := v.prev[key := g.heap[id].anchor], last := v.last[key := id]) && |v1.heap| == |v.heap|
             && s == Sample(g.heap[id].outcome.value.value, g.heap[id].anchor, !(key in v.prev && v.prev[key] == g.heap[id].anchor))
    ensures PartReleased(c, g, m, i + 1, v1) && HandedOver(c, g, m, i + 1, v1.prev, v1.last, samples[c.keys[i] := s])
  {
    hide ReleaseKeys, Release, HandedOver, ValidConfig;
    ReleaseKeysStep(c, Popped(g), m, i, m[c.keys[i]]);
    ReleaseIgnoresRecord(ReleaseKeys(c, Popped(g), m, i), v, m[c.keys[i]]);
    HandOverOne(c, g, m, i, v.prev, v.last, samples, s);
  }

  lemma HandOverOne(c: Config, g: Group, m: map<Key, nat>, i: nat, prev: map<Key, int>, last: map<Key, nat>, samples: map<Key, Sample>, s: Sample)
    requires ValidConfig(c) && i < |c.keys| && c.keys[i] in m && m[c.keys[i]] < |g.heap| && g.heap[m[c.keys[i]]].Succeeded()
    requires HandedOver(c, g, m, i, prev, last, samples)
    requires var id := m[c.keys[i]];
             s == Sample(g.heap[id].outcome.value.value, g.heap[id].anchor, !(c.keys[i] in prev && prev[c.keys[i]] == g.heap[id].anchor))
    ensures HandedOver(c, g, m, i + 1, prev[c.keys[i] := s.anchor], last[c.keys[i] := m[c.keys[i]]], samples[c.keys[i] := s])
  {
    var key, ks := c.keys[i], c.keys[..i];
    KeysDistinct(c, i);
    assert c.keys[..i + 1] == ks + [key];
    assert key in prev <==> key in g.prev;
    assert s == Samples(g, m)[key];
    assert s.anchor == AnchorsOf(g, m)[key];
    hide ValidConfig, Restricted, Samples, AnchorsOf;
    RestrictedExtends(g.prev, AnchorsOf(g, m), ks, key);
    RestrictedExtends(g.last, m, ks, key);
    RestrictedExtends(map[], Samples(g, m), ks, key);
  }

  lemma DeliverIs(c: Config, g: Group, m: map<Key, nat>)
    ensures Deliver(c, Popped(g), m) == ReleaseKeys(c, Popped(g), m, |c.keys|).(prev := g.prev + AnchorsOf(g, m), last := g.last + m)
  {
    hide ReleaseKeys;
    assert AnchorsOf(g, m) == map k | k in m :: AnchorOfTask(Popped(g), m[k]);
  }

  lemma HandedOverRecord(c: Config, g: Group, m: map<Key, nat>, prev: map<Key, int>, last: map<Key, nat>, samples: map<Key, Sample>)
    requires MapOk(c, g, m) && HandedOver(c, g, m, |c.keys|, prev, last, samples)
    ensures samples == Samples(g, m) && prev == g.prev + AnchorsOf(g, m) && last == g.last + m
  {
    hide Restricted;
    assert c.keys[..|c.keys|] == c.keys;
    MapKeysListed(c, g, m);
    var all, anchors := Samples(g, m), AnchorsOf(g, m);
    assert all.Keys == m.Keys && anchors.Keys == m.Keys;
    hide Samples, AnchorsOf, MapOk;
    RestrictedAll(m, c.keys);
    RestrictedAll(all, c.keys);
    RestrictedAll(anchors, c.keys);
    assert map[] + all == all;
  }

  lemma MapKeysListed(c: Config, g: Group, m: map<Key, nat>)
    requires MapOk(c, g, m)
    ensures forall k :: k in m ==> k in c.keys
  {
  }

  lemma HandedOverAll(c: Config, g: Group, m: map<Key, nat>, prev: map<Key, int>, last: map<Key, nat>, samples: map<Key, Sample>)
    requires MapOk(c, g, m) && HandedOver(c, g, m, |c.keys|, prev, last, samples)
    ensures samples == Samples(g, m)
    ensures Deliver(c, Popped(g), m) == ReleaseKeys(c, Popped(g), m, |c.keys|).(prev := prev, last := last)
  {
    hide ReleaseKeys, Restricted, HandedOver, MapOk, Samples, AnchorsOf, Deliver;
    HandedOverRecord(c, g, m, prev, last, samples);
    DeliverIs(c, g, m);
  }

  lemma NotRunning(c: Config, g: Group, g1: Group, id: nat)
    requires Inv(c, g) && g.phase != Running && g1.slots == g.slots && g1.phase == g.phase
    ensures Admit(c, g1) == g1
    ensures g.head <= g.next ==> CheckRange(c, g1, id, g.head, g.next) == g1
  {
    hide CheckRange;
    if g.head <= g.next { EmptyRange(c, g1, id, g.head, g.next); }
  }

  lemma CheckNone(c: Config, g: Group, id: nat, lo: nat)
    ensures CheckRange(c, g, id, lo, lo) == g
  {
  }

  lemma CheckRangeStep(c: Config, g: Group, id: nat, lo: nat, hi: nat)
    requires lo < hi
    ensures var g1 := CheckRange(c, g, id, lo, hi - 1);
            CheckRange(c, g, id, lo, hi) == if Holds(g1, hi - 1, id) then CheckSlot(c, g1, hi - 1) else g1
  {
    hide CheckSlot, Holds;
  }

  lemma CheckSlotFrameTasks(c: Config, g: Group, pos: nat)
    ensures var g1 := CheckSlot(c, g, pos);
      && g1 == g.(slots := g1.slots, stop := g1.stop)
      && (forall p :: p in g1.slots <==> p in g.slots)
      && (forall p :: p in g1.slots ==> g1.slots[p].tasks == g.slots[p].tasks)
  {
  }

  lemma MapOkFrame(c: Config, g: Group, g1: Group, m: map<Key, nat>)
    requires MapOk(c, g, m) && g1.heap == g.heap
    ensures MapOk(c, g1, m)
  {
  }

  lemma TaskHasKey(c: Config, g: Group, id: nat, pos: nat)
    requires Core(c, g) && id < |g.heap| && g.head <= pos < g.next
    ensures pos in g.slots && g.heap[id].key in g.slots[pos].tasks
  {
    HeldSlot(c, g, pos);
    assert TaskOk(c, g, g.heap[id]);
  }

  /** The ids from `lo` up to `hi`: the tasks handed to the worker pool. */
  function NewIds(lo: nat, hi: nat): (s: seq<nat>)
    requires lo <= hi
    ensures |s| == hi - lo && forall i :: 0 <= i < |s| ==> s[i] == lo + i
  {
    seq(hi - lo, i requires 0 <= i => lo + i)
  }

  /** What a slot needs of a member is not changed by serving the members before it. */
  lemma FoundAgain(c: Config, g: Group, t: int, i: nat)
    requires ValidConfig(c) && i < |c.keys| && TasksOk(g) && LastOk(g)
    ensures var g1, a := AdmitKeys(c, g, t, i).0, c.anchorOf(c.keys[i], t);
            Lookup(g1, c.keys[i], a) == Lookup(g, c.keys[i], a)
            && (Lookup(g, c.keys[i], a).Some? ==> Lookup(g, c.keys[i], a).value < |g1.heap|)
  {
    AdmitKeysAdmits(c, g, t, i);
    KeysDistinct(c, i);
    LookupUnchanged(c, g, t, AdmitKeys(c, g, t, i).0, AdmitKeys(c, g, t, i).1, c.keys[i]);
  }

  lemma AdmittedMapOk(c: Config, g: Group, t: int, g1: Group, m: map<Key, nat>)
    requires Admitted(c, g, t, |c.keys|, AdmitKeys(c, g, t, |c.keys|).0, m) && g1.heap == AdmitKeys(c, g, t, |c.keys|).0.heap
    ensures MapOk(c, g1, m)
  {
    assert c.keys[..|c.keys|] == c.keys;
    forall k | k in m
      ensures m[k] < |g1.heap| && g1.heap[m[k]].key == k
    {
      assert AdmittedKey(c, g, t, AdmitKeys(c, g, t, |c.keys|).0, m, k);
    }
  }

  /** Releasing reads and writes only the tasks, not the delivery record. */
  lemma ReleaseIgnoresRecord(g: Group, g1: Group, id: nat)
    requires g1 == g.(prev := g1.prev, last := g1.last)
    ensures Release(g1, id) == Release(g, id).(prev := g1.prev, last := g1.last)
  {
  }

  lemma SettledMapOk(c: Config, g: Group, g1: Group, pos: nat)
    requires Core(c, g) && g.head <= pos < g.next
    requires g1.slots == g.slots && |g1.heap| == |g.heap| && forall i :: 0 <= i < |g.heap| ==> g1.heap[i].key == g.heap[i].key
    ensures pos in g.slots && MapOk(c, g1, g.slots[pos].tasks)
  {
    HeldSlot(c, g, pos);
    forall k | k in g.slots[pos].tasks
      ensures g.slots[pos].tasks[k] < |g1.heap| && g1.heap[g.slots[pos].tasks[k]].key == k
    {
      assert SlotTask(c, g, g.slots[pos], k);
    }
  }

  /** The declared order as epochs, trimmed to its first entry equal to `from`. */
  method ResolveOrder(n: nat, spec: OrderSpec, from: Option<int>) returns (r: Option<seq<nat>>)
    requires n > 0
    ensures r.Some? <==> GoodListing(n, Listing(n, spec)) && (from.Some? ==> from.value in Listing(n, spec))
    ensures r.Some? ==> GoodListing(n, r.value)
    ensures r.Some? && from.None? ==> r.value == Listing(n, spec)
    ensures r.Some? && from.Some? ==> TrimmedTo(Listing(n, spec), from.value, r.value)
  {
    var s := Listing(n, spec);
    if s == [] { return None; }
    var epochs: seq<nat> := [];
    for i := 0 to |s|
      invariant epochs == s[..i]
      invariant forall j :: 0 <= j < i ==> 0 <= s[j] < n
    {
      if !(0 <= s[i] < n) { return None; }
      epochs := epochs + [s[i]];
    }
    if from.None? { return Some(epochs); }
    for i := 0 to |s|
      invariant from.value !in s[..i]
    {
      if s[i] == from.value {
        assert epochs == s;
        return Some(epochs[i..]);
      }
    }
    return None;
  }
}
