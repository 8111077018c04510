/** What a prefetch group promises its consumer: scheduling changes when a sample is ready,
    never what it is. */
module PrefetchTheorems {
  import opened Wrappers
  import opened NativeData
  import opened PrefetchModel
  import opened PrefetchInvariant
  import opened PrefetchSteps

  /** A member's sample depends on its time only through the anchor it snaps to. */
  ghost predicate AnchorOnly(c: Config) {
    forall k, t, u :: k in c.keys && c.anchorOf(k, t) == c.anchorOf(k, u) ==> c.decode(k, t) == c.decode(k, u)
  }

  ghost predicate Reachable(c: Config, events: seq<Event>) {
    ValidConfig(c) && PossibleRun(c, Initial(), events)
  }

  lemma InitialInv(c: Config)
    ensures Inv(c, Initial())
  {
  }

  lemma ReachableInv(c: Config, events: seq<Event>)
    requires Reachable(c, events)
    ensures Inv(c, Run(c, Initial(), events))
  {
    InitialInv(c);
    RunKeepsInv(c, Initial(), events);
  }

  // ---- equivalence -----------------------------------------------------------------

  /** Sample `s` of member `k` is what decoding it at `t` gives. */
  ghost predicate IsSample(c: Config, k: Key, t: int, s: Sample) {
    c.decode(k, t) == Ok(s.data) && s.anchor == c.anchorOf(k, t)
  }

  /** A task of member `k` for the anchor of `t` that succeeded holds the sample at `t`. */
  lemma TaskHoldsSample(c: Config, g: Group, id: nat, k: Key, t: int)
    requires AnchorOnly(c) && HeapOk(c, g) && id < |g.heap|
    requires g.heap[id].key == k && g.heap[id].anchor == c.anchorOf(k, t) && g.heap[id].Succeeded()
    ensures c.decode(k, t) == g.heap[id].outcome.value
  {
    assert TaskOk(c, g, g.heap[id]);
  }

  /** A delivered epoch is, member by member, exactly the member's sample at its boundary. */
  lemma TakeDelivers(c: Config, g: Group, k: int)
    requires ValidConfig(c) && AnchorOnly(c) && Inv(c, g) && Take(c, g, k).1.Took?
    ensures 0 <= k < |c.bounds| && k == g.order[g.head]
    ensures var samples := Take(c, g, k).1.samples;
            forall key :: (key in samples <==> key in c.keys) && (key in samples ==> IsSample(c, key, c.bounds[k], samples[key]))
  {
    hide Admit;
    HeadHeld(c, g);
    var slot := g.slots[g.head];
    var samples := Samples(g, slot.tasks);
    assert Take(c, g, k).1 == Took(samples);
    forall key | key in c.keys
      ensures key in samples && IsSample(c, key, c.bounds[k], samples[key])
    {
      SettledSucceeded(c, g, g.head, key);
      assert SlotTask(c, g, slot, key);
      TaskHoldsSample(c, g, slot.tasks[key], key, c.bounds[k]);
    }
  }

  /** The equivalence gate, for every order, depth, budget and interleaving. */
  lemma PrefetchEquivalence(c: Config, events: seq<Event>, k: int)
    requires Reachable(c, events) && AnchorOnly(c) && Take(c, Run(c, Initial(), events), k).1.Took?
    ensures 0 <= k < |c.bounds|
    ensures var samples := Take(c, Run(c, Initial(), events), k).1.samples;
            forall key :: (key in samples <==> key in c.keys) && (key in samples ==> IsSample(c, key, c.bounds[k], samples[key]))
  {
    ReachableInv(c, events);
    TakeDelivers(c, Run(c, Initial(), events), k);
  }

  // ---- a consumer that copies only what changed ---------------------------------------

  /** Copy the changed samples of one reply over the buffers. */
  ghost function Copy(buf: map<Key, Data>, reply: Reply): map<Key, Data> {
    if reply.Took? then buf + (map k | k in reply.samples && reply.samples[k].changed :: reply.samples[k].data) else buf
  }

  ghost function Buffers(c: Config, events: seq<Event>): map<Key, Data>
    decreases |events|
  {
    if events == [] then map[]
    else
      var front := events[..|events| - 1];
      Copy(Buffers(c, front), Step(c, Run(c, Initial(), front), events[|events| - 1]).1)
  }

  /** The buffer of each member delivered in this order holds its last anchor's sample. */
  ghost predicate Buffered(c: Config, g: Group, buf: map<Key, Data>) {
    forall k, t :: k in c.keys && k in g.prev && c.anchorOf(k, t) == g.prev[k] ==> k in buf && c.decode(k, t) == Ok(buf[k])
  }

  lemma PrevAfterStep(c: Config, g: Group, e: Event)
    requires ValidConfig(c) && Inv(c, g) && Possible(c, g, e)
    ensures var (g1, reply) := Step(c, g, e);
            if reply.Took? then DeliveredPrev(g, g1, reply.samples)
            else g1.prev == if e.EvStart? && g.phase != Closed then map[] else g.prev
  {
    hide Inv, ValidConfig, Take, Finish, Admit;
    match e
    case EvStart(order) =>
      if g.phase != Closed { StartPrev(c, g, order); }
    case EvTake(k) => TakePrev(c, g, k);
    case EvCancel =>
    case EvClose =>
    case EvFinish(id, outcome) => FinishFrame(c, g, id, outcome);
  }

  /** A delivery records each member's anchor. */
  ghost predicate DeliveredPrev(g: Group, g1: Group, samples: map<Key, Sample>) {
    forall k :: (k in g1.prev <==> k in g.prev || k in samples)
      && (k in g1.prev ==> g1.prev[k] == if k in samples then samples[k].anchor else g.prev[k])
  }

  lemma TakePrev(c: Config, g: Group, k: int)
    requires ValidConfig(c) && Inv(c, g)
    ensures var (g1, reply) := Take(c, g, k);
            if reply.Took? then DeliveredPrev(g, g1, reply.samples) else g1.prev == g.prev
  {
    hide Admit, ReleaseKeys, Inv, ValidConfig, Deliver, Samples, DeliveredPrev;
    if Take(c, g, k).1.Took? {
      TookAtHead(c, g, k);
      DeliverKeepsCore(c, g);
      AdmitKeepsInv(c, Deliver(c, Popped(g), g.slots[g.head].tasks));
      DeliveredAnchors(c, g);
      DeliveredFrame(g, Deliver(c, Popped(g), g.slots[g.head].tasks), Take(c, g, k).0, Take(c, g, k).1.samples);
    } else if Take(c, g, k).1.Raised? {
      ReleaseKeysFrame(c, Popped(g), g.slots[g.head].tasks, |c.keys|);
    }
  }

  lemma DeliveredFrame(g: Group, g1: Group, g2: Group, samples: map<Key, Sample>)
    requires DeliveredPrev(g, g1, samples) && g2.prev == g1.prev
    ensures DeliveredPrev(g, g2, samples)
  {
  }

  lemma TookAtHead(c: Config, g: Group, k: int)
    requires Inv(c, g) && Take(c, g, k).1.Took?
    ensures Core(c, g) && g.head < g.next && g.head in g.slots && g.slots[g.head].done && g.slots[g.head].error.None?
  {
    hide Admit, ReleaseKeys;
  }

  lemma PrevAfter(g: Group, g1: Group, m: map<Key, nat>)
    requires g1.prev == g.prev + (map k | k in m :: AnchorOfTask(g, m[k]))
    ensures DeliveredPrev(g, g1, Samples(g, m))
  {
  }

  lemma DeliveredAnchors(c: Config, g: Group)
    requires ValidConfig(c) && Core(c, g) && g.head < g.next && g.head in g.slots
    ensures DeliveredPrev(g, Deliver(c, Popped(g), g.slots[g.head].tasks), Samples(g, g.slots[g.head].tasks))
  {
    hide ReleaseKeys, Core, ValidConfig;
    PrevAfter(g, Deliver(c, Popped(g), g.slots[g.head].tasks), g.slots[g.head].tasks);
  }

  lemma StartPrev(c: Config, g: Group, order: seq<nat>)
    requires ValidConfig(c) && Inv(c, g) && g.phase != Closed && Possible(c, g, EvStart(order))
    ensures Start(c, g, order).prev == map[]
  {
    StartCore(c, g, order);
    AdmitKeepsInv(c, Restarted(g, order));
  }

  /** A finish leaves the order, the cursor and the delivery record alone. */
  lemma FinishFrame(c: Config, g: Group, id: nat, outcome: Result<Data, Error>)
    requires ValidConfig(c) && Inv(c, g) && Possible(c, g, EvFinish(id, outcome))
    ensures var g1 := Finish(c, g, id, outcome);
            g1.prev == g.prev && g1.order == g.order && g1.head == g.head && g1.gen == g.gen && g1.phase == g.phase && g1.last == g.last
  {
    if g.heap[id].gen == g.gen && !g.heap[id].Done() {
      var g1 := Record(c, g, id, outcome);
      if g.phase == Running {
        CheckedCore(c, g, id, outcome);
        AdmitKeepsInv(c, CheckRange(c, g1, id, g.head, g.next));
      } else if g.head <= g.next {
        EmptyRange(c, g1, id, g.head, g.next);
      }
    }
  }

  lemma CopyKeepsBuffered(c: Config, g: Group, e: Event, buf: map<Key, Data>)
    requires ValidConfig(c) && AnchorOnly(c) && Inv(c, g) && Possible(c, g, e) && Buffered(c, g, buf)
    ensures Buffered(c, Step(c, g, e).0, Copy(buf, Step(c, g, e).1))
  {
    hide Inv, ValidConfig, Take, Step;
    var (g1, reply) := Step(c, g, e);
    PrevAfterStep(c, g, e);
    if reply.Took? {
      TookFrom(c, g, e);
      forall k, t | k in c.keys && k in g1.prev && c.anchorOf(k, t) == g1.prev[k]
        ensures k in Copy(buf, reply) && c.decode(k, t) == Ok(Copy(buf, reply)[k])
      {
        TakeDelivers(c, g, e.k);
        assert k in reply.samples && IsSample(c, k, c.bounds[e.k], reply.samples[k]);
        ChangedIsPrev(c, g, e.k, k);
      }
    }
  }

  lemma TookFrom(c: Config, g: Group, e: Event)
    requires Step(c, g, e).1.Took?
    ensures e.EvTake? && Take(c, g, e.k) == Step(c, g, e)
  {
  }

  lemma ChangedIsPrev(c: Config, g: Group, k: int, key: Key)
    requires Take(c, g, k).1.Took? && key in Take(c, g, k).1.samples
    ensures var s := Take(c, g, k).1.samples[key];
            !s.changed <==> key in g.prev && g.prev[key] == s.anchor
  {
  }

  /** The anchor each member was last delivered at since the last start, told from the
      replies alone. */
  ghost function LastDelivered(c: Config, events: seq<Event>): map<Key, int>
    decreases |events|
  {
    if events == [] then map[]
    else
      var front, e := events[..|events| - 1], events[|events| - 1];
      var g := Run(c, Initial(), front);
      var reply := Step(c, g, e).1;
      if e.EvStart? && g.phase != Closed then map[]
      else if reply.Took? then LastDelivered(c, front) + (map k | k in reply.samples :: reply.samples[k].anchor)
      else LastDelivered(c, front)
  }

  lemma {:induction false} PrevIsLastDelivered(c: Config, events: seq<Event>)
    requires Reachable(c, events)
    ensures Run(c, Initial(), events).prev == LastDelivered(c, events)
    decreases |events|
  {
    if events != [] {
      var front, e := events[..|events| - 1], events[|events| - 1];
      PrevIsLastDelivered(c, front);
      ReachableInv(c, front);
      var g := Run(c, Initial(), front);
      PrevAfterStep(c, g, e);
      hide Step, Inv, ValidConfig, DeliveredPrev;
      var (g1, reply) := Step(c, g, e);
      if reply.Took? {
        TookFrom(c, g, e);
        PrevAfterDelivery(g, g1, reply.samples);
      }
    }
  }

  lemma PrevAfterDelivery(g: Group, g1: Group, samples: map<Key, Sample>)
    requires DeliveredPrev(g, g1, samples)
    ensures g1.prev == g.prev + (map k | k in samples :: samples[k].anchor)
  {
  }

  /** `changed` is false exactly when the member's last delivery since the last start, over
      the whole history, was of the same anchor. */
  lemma ChangedMeans(c: Config, events: seq<Event>, k: int, key: Key)
    requires Reachable(c, events) && Take(c, Run(c, Initial(), events), k).1.Took?
    requires key in Take(c, Run(c, Initial(), events), k).1.samples
    ensures var s, delivered := Take(c, Run(c, Initial(), events), k).1.samples[key], LastDelivered(c, events);
            !s.changed <==> key in delivered && delivered[key] == s.anchor
  {
    PrevIsLastDelivered(c, events);
    hide Take, LastDelivered, Run;
    ChangedIsPrev(c, Run(c, Initial(), events), k, key);
  }

  lemma {:induction false} BuffersFollow(c: Config, events: seq<Event>)
    requires Reachable(c, events) && AnchorOnly(c)
    ensures Buffered(c, Run(c, Initial(), events), Buffers(c, events))
    decreases |events|
  {
    if events != [] {
      var front := events[..|events| - 1];
      BuffersFollow(c, front);
      ReachableInv(c, front);
      CopyKeepsBuffered(c, Run(c, Initial(), front), events[|events| - 1], Buffers(c, front));
    }
  }

  /** Copying only the changed samples, the consumer always holds the whole epoch. */
  lemma ChangedSamplesSuffice(c: Config, events: seq<Event>, k: int)
    requires Reachable(c, events + [EvTake(k)]) && AnchorOnly(c)
    requires Take(c, Run(c, Initial(), events), k).1.Took?
    ensures var buf := Buffers(c, events + [EvTake(k)]);
            0 <= k < |c.bounds| && forall key :: key in c.keys ==> key in buf && c.decode(key, c.bounds[k]) == Ok(buf[key])
  {
    var all := events + [EvTake(k)];
    assert all[..|all| - 1] == events;
    var g := Run(c, Initial(), events);
    assert Reachable(c, events);
    PrefetchEquivalence(c, events, k);
    BuffersFollow(c, all);
    ReachableInv(c, events);
    PrevAfterStep(c, g, EvTake(k));
    var g1, buf := Run(c, Initial(), all), Buffers(c, all);
    var samples := Take(c, g, k).1.samples;
    forall key | key in c.keys
      ensures key in buf && c.decode(key, c.bounds[k]) == Ok(buf[key])
    {
      assert key in samples && key in g1.prev && g1.prev[key] == c.anchorOf(key, c.bounds[k]);
    }
  }

  // ---- progress -------------------------------------------------------------------------

  /** The head slot's tasks in `g1` are those of `g`, and what was done is still done. */
  ghost predicate HeadKept(c: Config, g: Group, g1: Group) {
    && g1.phase == g.phase && g1.order == g.order && g1.head == g.head && g1.gen == g.gen
    && g.head in g.slots && g.head in g1.slots && g1.slots[g.head].tasks == g.slots[g.head].tasks
    && |g.heap| <= |g1.heap|
    && (forall id :: 0 <= id < |g.heap| ==> g1.heap[id].gen == g.heap[id].gen && (g.heap[id].Done() ==> g1.heap[id].Done()))
  }

  lemma AdmitsAtNext(c: Config, g: Group)
    requires ValidConfig(c) && Core(c, g) && MayAdmit(c, g)
    ensures var (g1, m) := AdmitKeys(c, g, TimeOf(c, g.order[g.next]), |c.keys|);
            Admitted(c, g, TimeOf(c, g.order[g.next]), |c.keys|, g1, m) && AdmitSlot(c, g) == CheckSlot(c, Entered(g, g1, m), g.next)
  {
    AdmitKeysAdmits(c, g, TimeOf(c, g.order[g.next]), |c.keys|);
  }

  lemma CheckSlotFrame(c: Config, g: Group, pos: nat)
    ensures var g1 := CheckSlot(c, g, pos);
      && g1 == g.(slots := g1.slots, stop := g1.stop)
      && (forall p :: p in g.slots && p != pos ==> p in g1.slots && g1.slots[p] == g.slots[p])
  {
  }

  lemma AdmitSlotKeepsHead(c: Config, g: Group)
    requires ValidConfig(c) && Core(c, g) && MayAdmit(c, g) && g.head < g.next
    ensures HeadKept(c, g, AdmitSlot(c, g))
  {
    hide Core, ValidConfig, CheckSlot, AdmitKeys, AdmittedKey, AdmittedTasks, Mapped;
    HeadHeld(c, g);
    AdmitsAtNext(c, g);
    var (g1, m) := AdmitKeys(c, g, TimeOf(c, g.order[g.next]), |c.keys|);
    CheckSlotFrame(c, Entered(g, g1, m), g.next);
  }

  lemma {:induction false} AdmitKeepsHead(c: Config, g: Group)
    requires ValidConfig(c) && Core(c, g) && g.head < g.next
    ensures HeadKept(c, g, Admit(c, g))
    decreases |g.order| - g.next
  {
    if MayAdmit(c, g) && !OverBudget(c, g) {
      AdmitSlotCursors(c, g);
      AdmitSlotKeepsHead(c, g);
      AdmitSlotKeepsCore(c, g);
      AdmitKeepsHead(c, AdmitSlot(c, g));
    } else {
      HeadHeld(c, g);
    }
  }

  lemma FinishKeepsHead(c: Config, g: Group, id: nat, outcome: Result<Data, Error>)
    requires ValidConfig(c) && Core(c, g) && g.head < g.next && Possible(c, g, EvFinish(id, outcome))
    ensures HeadKept(c, g, Finish(c, g, id, outcome))
    ensures g.heap[id].gen == g.gen ==> id < |Finish(c, g, id, outcome).heap| && Finish(c, g, id, outcome).heap[id].Done()
  {
    hide Core, Admit, CheckRange, ValidConfig, HeadKept, Checked, Record;
    HeadHeld(c, g);
    if g.heap[id].gen == g.gen && !g.heap[id].Done() {
      var g1 := Record(c, g, id, outcome);
      var g2 := CheckRange(c, g1, id, g.head, g.next);
      CheckedCore(c, g, id, outcome);
      RecordThenCheckKeepsHead(c, g, id, outcome, g2);
      AdmitKeepsHead(c, g2);
      HeadKeptTwice(c, g, g2, Admit(c, g2));
      DoneKept(c, g2, Admit(c, g2), id);
    } else {
      HeadKeptSelf(c, g);
    }
  }

  lemma HeadKeptSelf(c: Config, g: Group)
    requires g.head in g.slots
    ensures HeadKept(c, g, g)
  {
  }

  lemma DoneKept(c: Config, g: Group, g1: Group, id: nat)
    requires HeadKept(c, g, g1) && id < |g.heap| && g.heap[id].Done()
    ensures id < |g1.heap| && g1.heap[id].Done()
  {
  }

  lemma RecordThenCheckKeepsHead(c: Config, g: Group, id: nat, outcome: Result<Data, Error>, g2: Group)
    requires id < |g.heap| && g.head in g.slots && Checked(c, Record(c, g, id, outcome), id, g.head, g.next, g2)
    ensures HeadKept(c, g, g2) && g2.head == g.head && g2.next == g.next && id < |g2.heap| && g2.heap[id].Done()
  {
    hide Fresh, StopOk, Quiet, Holds;
  }

  lemma RunFinish(c: Config, g: Group, events: seq<Event>)
    requires events != [] && events[|events| - 1].EvFinish?
    ensures var e := events[|events| - 1];
            Run(c, g, events) == Finish(c, Run(c, g, events[..|events| - 1]), e.id, e.outcome)
  {
    hide Finish;
  }

  lemma LastIsPossible(c: Config, g: Group, events: seq<Event>)
    requires events != [] && PossibleRun(c, g, events)
    ensures PossibleRun(c, g, events[..|events| - 1])
    ensures Possible(c, Run(c, g, events[..|events| - 1]), events[|events| - 1])
  {
  }

  lemma HeadKeptTwice(c: Config, g: Group, g1: Group, g2: Group)
    requires HeadKept(c, g, g1) && HeadKept(c, g1, g2)
    ensures HeadKept(c, g, g2)
  {
  }

  lemma RunningHead(c: Config, g: Group)
    requires Inv(c, g) && g.phase == Running && g.head < |g.order|
    ensures Core(c, g) && g.head < g.next && g.head in g.slots
  {
  }

  /** Finishes leave the head slot waiting for the same tasks; each current one is done after. */
  lemma {:induction false} FinishesKeepHead(c: Config, g: Group, events: seq<Event>)
    requires ValidConfig(c) && Inv(c, g) && g.phase == Running && g.head < |g.order|
    requires PossibleRun(c, g, events) && forall i :: 0 <= i < |events| ==> events[i].EvFinish?
    ensures HeadKept(c, g, Run(c, g, events)) && Inv(c, Run(c, g, events))
    ensures forall i :: 0 <= i < |events| && events[i].id < |g.heap| && g.heap[events[i].id].gen == g.gen ==>
              events[i].id < |Run(c, g, events).heap| && Run(c, g, events).heap[events[i].id].Done()
    decreases |events|
  {
    hide Inv, ValidConfig, Finish, Run, PossibleRun, HeadKept, Core;
    RunKeepsInv(c, g, events);
    RunningHead(c, g);
    if events == [] {
      RunNothing(c, g);
      HeadKeptSelf(c, g);
    } else {
      var front, e := events[..|events| - 1], events[|events| - 1];
      LastIsPossible(c, g, events);
      FinishesKeepHead(c, g, front);
      RunFinish(c, g, events);
      var g1, g2 := Run(c, g, front), Run(c, g, events);
      HeadKeptCursors(c, g, g1);
      RunningHead(c, g1);
      FinishKeepsHead(c, g1, e.id, e.outcome);
      HeadKeptTwice(c, g, g1, g2);
      forall i | 0 <= i < |events| && events[i].id < |g.heap| && g.heap[events[i].id].gen == g.gen
        ensures events[i].id < |g2.heap| && g2.heap[events[i].id].Done()
      {
        HeadKeptTask(c, g, g1, events[i].id);
        if i < |front| {
          assert front[i] == events[i];
          DoneKept(c, g1, g2, events[i].id);
        } else {
          DoneAfter(c, g1, g2, e.id);
        }
      }
    }
  }

  lemma RunNothing(c: Config, g: Group)
    ensures Run(c, g, []) == g
  {
  }

  lemma HeadKeptCursors(c: Config, g: Group, g1: Group)
    requires HeadKept(c, g, g1)
    ensures g1.phase == g.phase && g1.head == g.head && g1.order == g.order && g1.gen == g.gen && |g.heap| <= |g1.heap|
  {
  }

  lemma HeadKeptTask(c: Config, g: Group, g1: Group, id: nat)
    requires HeadKept(c, g, g1) && id < |g.heap|
    ensures id < |g1.heap| && g1.heap[id].gen == g.heap[id].gen && g1.gen == g.gen
  {
  }

  lemma DoneAfter(c: Config, g: Group, g1: Group, id: nat)
    requires id < |g.heap| && HeadKept(c, g, g1) && g.heap[id].gen == g.gen
    requires g.heap[id].gen == g.gen ==> id < |g1.heap| && g1.heap[id].Done()
    ensures g1.heap[id].Done()
  {
  }

  /** Workers can always let the consumer go on: once every task of the head slot has
      finished, in any order and amid any other finishes, the next take does not wait. */
  lemma FinishesUnblockTake(c: Config, g: Group, events: seq<Event>)
    requires ValidConfig(c) && Inv(c, g) && g.phase == Running && g.head < |g.order|
    requires PossibleRun(c, g, events) && forall i :: 0 <= i < |events| ==> events[i].EvFinish?
    requires g.head in g.slots
    requires forall k :: k in g.slots[g.head].tasks ==> Finishes(events, g, g.slots[g.head].tasks[k])
    ensures var reply := Take(c, Run(c, g, events), g.order[g.head]).1; reply.Took? || reply.Raised?
  {
    hide Run, Inv, ValidConfig, Core;
    var g1 := Run(c, g, events);
    FinishesKeepHead(c, g, events);
    RunningHead(c, g);
    RunningHead(c, g1);
    HeadHeld(c, g);
    HeadHeld(c, g1);
    var m := g.slots[g.head].tasks;
    forall k | k in c.keys
      ensures k in m && m[k] < |g1.heap| && g1.heap[m[k]].Done()
    {
      assert SlotTask(c, g, g.slots[g.head], k);
      CurrentOrDone(c, g, k);
    }
    assert AllDone(c, g1.heap, m);
    SettledHeadReplies(c, g1);
  }

  /** Task `id` was done already, or one of the events finishes it. */
  ghost predicate Finishes(events: seq<Event>, g: Group, id: nat) {
    (id < |g.heap| && g.heap[id].Done()) || exists i :: 0 <= i < |events| && events[i].EvFinish? && events[i].id == id
  }

  lemma SettledHeadReplies(c: Config, g: Group)
    requires g.phase == Running && g.head < |g.order| && g.head in g.slots && g.slots[g.head].done
    ensures var reply := Take(c, g, g.order[g.head]).1; reply.Took? || reply.Raised?
  {
    hide Admit, ReleaseKeys;
  }

  lemma CurrentOrDone(c: Config, g: Group, k: Key)
    requires Core(c, g) && g.head in g.slots && k in g.slots[g.head].tasks && SlotTask(c, g, g.slots[g.head], k)
    ensures var id := g.slots[g.head].tasks[k]; g.heap[id].gen == g.gen || g.heap[id].Done()
  {
    var id, a := g.slots[g.head].tasks[k], c.anchorOf(k, TimeOf(c, g.slots[g.head].epoch));
    assert HeldAt(g, (k, a), id);
  }

  /** A slot's task is held, referenced, and if unfinished, this order's. */
  ghost predicate SlotTaskLive(c: Config, g: Group, pos: nat, k: Key)
    requires pos in g.slots
  {
    && k in g.slots[pos].tasks
    && var id, a := g.slots[pos].tasks[k], c.anchorOf(k, TimeOf(c, g.slots[pos].epoch));
       && id < |g.heap| && (k, a) in g.tasks && g.tasks[(k, a)] == id
       && g.heap[id].refs >= Holders(g, id, g.head, g.next) >= 1
       && (!g.heap[id].Done() ==> g.heap[id].gen == g.gen)
  }

  /** Every running state with entries left: the held slots are exactly the positions from the
      head up to `next`, at least one and at most `depth`; the stop position is unset or one
      of them; and every member's task of every held slot is live. */
  lemma RunningShape(c: Config, events: seq<Event>)
    requires Reachable(c, events)
    ensures var g := Run(c, Initial(), events);
      g.phase == Running && g.head < |g.order| ==>
        && g.head < g.next <= g.head + c.depth && g.next <= |g.order|
        && (forall p :: p in g.slots <==> g.head <= p < g.next)
        && (g.stop.Some? ==> g.head <= g.stop.value < g.next)
        && (forall p, k :: p in g.slots && k in c.keys ==> SlotTaskLive(c, g, p, k))
  {
    ReachableInv(c, events);
    var g := Run(c, Initial(), events);
    hide Run, Reachable;
    if g.phase == Running && g.head < |g.order| {
      forall p, k | p in g.slots && k in c.keys
        ensures SlotTaskLive(c, g, p, k)
      {
        HeldTaskIsLive(c, g, p, k);
      }
    }
  }

  lemma HeldTaskIsLive(c: Config, g: Group, p: nat, k: Key)
    requires Core(c, g) && p in g.slots && k in c.keys
    ensures SlotTaskLive(c, g, p, k)
  {
    HeldSlot(c, g, p);
    assert SlotTask(c, g, g.slots[p], k);
    var id, a := g.slots[p].tasks[k], c.anchorOf(k, TimeOf(c, g.slots[p].epoch));
    assert HeldAt(g, (k, a), id);
    HeldIsCounted(g, id, g.head, g.next, p);
  }

  /** `ready` says exactly whether the take of that epoch would return at once. */
  lemma ReadyMeansTakeReturns(c: Config, g: Group, k: int)
    requires ValidConfig(c) && Inv(c, g)
    ensures Ready(g, k) <==> Take(c, g, k).1.Took? || Take(c, g, k).1.Raised?
  {
    hide Admit, ReleaseKeys;
  }

  // ---- failures -----------------------------------------------------------------------

  ghost predicate Fails(c: Config, epoch: nat, key: Key) {
    c.decode(key, TimeOf(c, epoch)).Err?
  }

  ghost predicate EpochFails(c: Config, epoch: nat) {
    exists key :: key in c.keys && Fails(c, epoch, key)
  }

  /** `key` is the least member, in byte-wise order, whose decode fails at this epoch. */
  ghost predicate FirstFailing(c: Config, epoch: nat, key: Key) {
    key in c.keys && Fails(c, epoch, key) && forall k :: k in c.keys && Fails(c, epoch, k) && k != key ==> Before(key, k)
  }

  /** With fixed failures: outcomes are what decoding gives, and nothing taken failed. */
  ghost predicate Exact(c: Config, g: Group) {
    && (forall id :: 0 <= id < |g.heap| && g.heap[id].Done() ==> g.heap[id].outcome.value == c.decode(g.heap[id].key, g.heap[id].t))
    && (g.phase == Running ==> forall q :: 0 <= q < g.head && q < |g.order| ==> !EpochFails(c, g.order[q]))
  }

  lemma FirstErrorIsFirstFailing(c: Config, heap: seq<Task>, m: map<Key, nat>, epoch: nat, i: nat)
    requires ValidConfig(c) && i <= |c.keys|
    requires forall k :: k in c.keys ==> k in m && m[k] < |heap| && heap[m[k]].Done() && heap[m[k]].outcome.value == c.decode(k, TimeOf(c, epoch))
    requires forall j :: 0 <= j < i ==> !Fails(c, epoch, c.keys[j])
    ensures var err := FirstError(c, heap, m, i);
            && (err.None? <==> !EpochFails(c, epoch))
            && (err.Some? ==> exists key :: FirstFailing(c, epoch, key) && c.decode(key, TimeOf(c, epoch)) == Err(err.value))
    decreases |c.keys| - i
  {
    if i < |c.keys| {
      var k := c.keys[i];
      assert k in c.keys;
      if heap[m[k]].Failed() {
        assert FirstFailing(c, epoch, k);
      } else {
        FirstErrorIsFirstFailing(c, heap, m, epoch, i + 1);
      }
    }
  }

  /** A settled slot's error is the first failing member's, or none if no member fails. */
  lemma SettledErrorIsExact(c: Config, g: Group, p: nat)
    requires ValidConfig(c) && AnchorOnly(c) && Core(c, g) && Exact(c, g) && p in g.slots && g.slots[p].done
    ensures p < |g.order|
    ensures var err := g.slots[p].error;
            && (err.None? <==> !EpochFails(c, g.order[p]))
            && (err.Some? ==> exists key :: FirstFailing(c, g.order[p], key) && c.decode(key, TimeOf(c, g.order[p])) == Err(err.value))
  {
    HeldSlot(c, g, p);
    var slot := g.slots[p];
    forall k | k in c.keys
      ensures k in slot.tasks && slot.tasks[k] < |g.heap| && g.heap[slot.tasks[k]].Done()
      ensures g.heap[slot.tasks[k]].outcome.value == c.decode(k, TimeOf(c, g.order[p]))
    {
      assert SlotTask(c, g, slot, k);
      assert TaskOk(c, g, g.heap[slot.tasks[k]]);
    }
    FirstErrorIsFirstFailing(c, g.heap, slot.tasks, g.order[p], 0);
  }

  /** What taking the next entry answers is decided by which decodes fail, and by nothing
      else: it waits, or delivers if no member fails, or raises the first failing member's error. */
  lemma TakeIsExact(c: Config, g: Group)
    requires ValidConfig(c) && AnchorOnly(c) && Inv(c, g) && Exact(c, g) && g.phase == Running && g.head < |g.order|
    ensures var reply := Take(c, g, g.order[g.head]).1;
      && (reply.Blocked? || reply.Took? || reply.Raised?)
      && (reply.Took? ==> !EpochFails(c, g.order[g.head]))
      && (reply.Raised? ==> exists key :: FirstFailing(c, g.order[g.head], key) && c.decode(key, TimeOf(c, g.order[g.head])) == Err(reply.error))
  {
    hide Admit, ReleaseKeys;
    HeadHeld(c, g);
    if g.slots[g.head].done { SettledErrorIsExact(c, g, g.head); }
  }

  ghost predicate SameOutcomes(g: Group, g1: Group) {
    && |g.heap| <= |g1.heap|
    && (forall id :: 0 <= id < |g.heap| ==> g1.heap[id].outcome == g.heap[id].outcome && g1.heap[id].key == g.heap[id].key && g1.heap[id].t == g.heap[id].t)
    && (forall id :: |g.heap| <= id < |g1.heap| ==> !g1.heap[id].Done())
  }

  lemma AdmitSlotOutcomes(c: Config, g: Group)
    requires ValidConfig(c) && Core(c, g) && MayAdmit(c, g)
    ensures SameOutcomes(g, AdmitSlot(c, g))
  {
    hide Fresh, SlotOk, RefsOk, HeapOk, CheckSlot, AdmitKeys, AdmittedTasks, AdmittedKey, Mapped;
    var t := TimeOf(c, g.order[g.next]);
    var (g1, m) := AdmitKeys(c, g, t, |c.keys|);
    AdmitKeysAdmits(c, g, t, |c.keys|);
    CheckKeepsHeap(c, g1.(slots := g1.slots[g.next := Slot(g.order[g.next], m, false, None)], next := g.next + 1), g.next);
  }

  lemma CheckKeepsHeap(c: Config, g: Group, pos: nat)
    ensures CheckSlot(c, g, pos).heap == g.heap
  {
  }

  lemma {:induction false} AdmitOutcomes(c: Config, g: Group)
    requires ValidConfig(c) && Core(c, g)
    ensures SameOutcomes(g, Admit(c, g))
    decreases |g.order| - g.next
  {
    if MayAdmit(c, g) && !OverBudget(c, g) {
      AdmitSlotCursors(c, g);
      AdmitSlotOutcomes(c, g);
      AdmitSlotKeepsCore(c, g);
      AdmitOutcomes(c, AdmitSlot(c, g));
    }
  }

  lemma OutcomesKeepExact(c: Config, g: Group, g1: Group)
    requires Exact(c, g) && SameOutcomes(g, g1) && (g1.phase == Running ==> g.phase == Running && g1.order == g.order && g1.head <= g.head)
    ensures Exact(c, g1)
  {
  }

  lemma StepKeepsExact(c: Config, g: Group, e: Event)
    requires ValidConfig(c) && AnchorOnly(c) && Inv(c, g) && Possible(c, g, e) && Faithful(c, g, e) && Exact(c, g)
    ensures Exact(c, Step(c, g, e).0)
  {
    match e
    case EvStart(order) => StartKeepsExact(c, g, order);
    case EvTake(k) => TakeKeepsExact(c, g, k);
    case EvCancel => OutcomesKeepExact(c, g, Cancel(g));
    case EvClose => OutcomesKeepExact(c, g, Close(g));
    case EvFinish(id, outcome) => FinishKeepsExact(c, g, id, outcome);
  }

  lemma StartKeepsExact(c: Config, g: Group, order: seq<nat>)
    requires ValidConfig(c) && Inv(c, g) && Possible(c, g, EvStart(order)) && Exact(c, g)
    ensures Exact(c, Start(c, g, order))
  {
    if g.phase != Closed {
      StartCore(c, g, order);
      var g1 := Restarted(g, order);
      AdmitOutcomes(c, g1);
      AdmitKeepsInv(c, g1);
      OutcomesKeepExact(c, g1, Admit(c, g1));
    }
  }

  lemma TakeKeepsExact(c: Config, g: Group, k: int)
    requires ValidConfig(c) && AnchorOnly(c) && Inv(c, g) && Exact(c, g)
    ensures Exact(c, Take(c, g, k).0)
  {
    hide Exact;
    var reply := Take(c, g, k).1;
    if reply.Took? {
      var g1 := Deliver(c, Popped(g), g.slots[g.head].tasks);
      DeliverKeepsCore(c, g);
      PoppedOutcomes(c, g);
      TakenKeepsExact(c, g, g1);
      AdmitOutcomes(c, g1);
      AdmitKeepsInv(c, g1);
      OutcomesKeepExact(c, g1, Admit(c, g1));
    } else if reply.Raised? {
      PoppedOutcomes(c, g);
      OutcomesKeepExact(c, g, EndOrder(PoppedAndReleased(c, g), Failed));
    }
  }

  lemma PoppedOutcomes(c: Config, g: Group)
    requires ValidConfig(c) && Core(c, g) && g.head < g.next
    ensures g.head in g.slots
    ensures SameOutcomes(g, PoppedAndReleased(c, g)) && SameOutcomes(g, Deliver(c, Popped(g), g.slots[g.head].tasks))
    ensures SameOutcomes(g, EndOrder(PoppedAndReleased(c, g), Failed))
    ensures var g1 := Deliver(c, Popped(g), g.slots[g.head].tasks); g1.order == g.order && g1.head == g.head + 1 && g1.phase == g.phase
  {
    hide Core, ValidConfig, PoppedAndReleased, Deliver;
    HeadHeld(c, g);
    PoppedFrame(c, g);
    var g2 := PoppedAndReleased(c, g);
    forall id | 0 <= id < |g.heap|
      ensures g2.heap[id].outcome == g.heap[id].outcome && g2.heap[id].key == g.heap[id].key && g2.heap[id].t == g.heap[id].t
    {
      ReleaseKeepsOutcome(c, g, id);
    }
    DeliverIsRelease(c, g);
  }

  lemma TakenKeepsExact(c: Config, g: Group, g1: Group)
    requires ValidConfig(c) && AnchorOnly(c) && Inv(c, g) && Exact(c, g) && g.phase == Running && g.head < |g.order|
    requires Take(c, g, g.order[g.head]).1.Took?
    requires SameOutcomes(g, g1) && g1.order == g.order && g1.head == g.head + 1 && g1.phase == g.phase
    ensures Exact(c, g1)
  {
    hide Take, Inv, ValidConfig, AnchorOnly, EpochFails;
    TakeIsExact(c, g);
  }

  lemma FinishKeepsExact(c: Config, g: Group, id: nat, outcome: Result<Data, Error>)
    requires ValidConfig(c) && Inv(c, g) && id < |g.heap| && outcome == c.decode(g.heap[id].key, g.heap[id].t) && Exact(c, g)
    ensures Exact(c, Finish(c, g, id, outcome))
  {
    if g.heap[id].gen == g.gen && !g.heap[id].Done() {
      var g1 := Record(c, g, id, outcome);
      assert Exact(c, g1);
      if g.phase == Running {
        CheckedCore(c, g, id, outcome);
        var g2 := CheckRange(c, g1, id, g.head, g.next);
        OutcomesKeepExact(c, g1, g2);
        AdmitOutcomes(c, g2);
        AdmitKeepsInv(c, g2);
        OutcomesKeepExact(c, g2, Admit(c, g2));
      } else if g.head <= g.next {
        EmptyRange(c, g1, id, g.head, g.next);
      }
    }
  }

  lemma {:induction false} RunKeepsExact(c: Config, events: seq<Event>)
    requires Reachable(c, events) && AnchorOnly(c) && FaithfulRun(c, Initial(), events)
    ensures Exact(c, Run(c, Initial(), events))
    decreases |events|
  {
    if events != [] {
      var front := events[..|events| - 1];
      RunKeepsExact(c, front);
      ReachableInv(c, front);
      StepKeepsExact(c, Run(c, Initial(), front), events[|events| - 1]);
    }
  }

  /** Deferred failure, over every interleaving with the same failing decodes: nothing taken so
      far fails, and the next take delivers exactly when its epoch does not fail, raising
      otherwise the error of the first failing member in key order; it may only have to wait. */
  lemma FailuresAreDeterministic(c: Config, events: seq<Event>)
    requires Reachable(c, events) && AnchorOnly(c) && FaithfulRun(c, Initial(), events)
    ensures var g := Run(c, Initial(), events);
      g.phase == Running && g.head < |g.order| ==>
        var reply := Take(c, g, g.order[g.head]).1;
        && (forall q :: 0 <= q < g.head ==> !EpochFails(c, g.order[q]))
        && (reply.Blocked? || (reply.Took? && !EpochFails(c, g.order[g.head]))
            || (reply.Raised? && exists key :: FirstFailing(c, g.order[g.head], key) && c.decode(key, TimeOf(c, g.order[g.head])) == Err(reply.error)))
  {
    var g := Run(c, Initial(), events);
    ReachableInv(c, events);
    RunKeepsExact(c, events);
    if g.phase == Running && g.head < |g.order| { TakeIsExact(c, g); }
  }

  /** Once an order is over, by an error or a cancel, every take is refused until a start. */
  lemma {:induction false} RefusedUntilStart(c: Config, g: Group, events: seq<Event>, k: int)
    requires ValidConfig(c) && Inv(c, g) && g.phase != Running && PossibleRun(c, g, events)
    requires forall i :: 0 <= i < |events| ==> !events[i].EvStart?
    ensures Run(c, g, events).phase != Running && Take(c, Run(c, g, events), k).1 == Refused
    decreases |events|
  {
    if events != [] {
      var front, e := events[..|events| - 1], events[|events| - 1];
      RefusedUntilStart(c, g, front, k);
      RunKeepsInv(c, g, front);
      if e.EvFinish? { FinishFrame(c, Run(c, g, front), e.id, e.outcome); }
    }
  }

  lemma RaisingEndsTheOrder(c: Config, g: Group, k: int)
    requires Take(c, g, k).1.Raised?
    ensures var g1 := Take(c, g, k).0;
            g1.phase == Failed && g1.slots == map[] && g1.tasks == map[] && g1.gen == g.gen + 1 && g1.last == g.last
  {
    hide ReleaseKeys;
    ReleaseKeysFrame(c, Popped(g), g.slots[g.head].tasks, |c.keys|);
  }
}
