/** References across a restart: which tasks are revived, and when a revived one has more
    references than slots hold it. */
module PrefetchRestart {
  import opened Wrappers
  import opened NativeData
  import opened PrefetchModel
  import opened PrefetchInvariant
  import opened PrefetchSteps
  import opened PrefetchTheorems
  import opened PrefetchRefs

  // ---- references since the start ------------------------------------------------------------

  /** A start forgets the slots but not the references: afterwards each task from before
      drifts by exactly the references it had left, and no new task does. */
  lemma RestartDrift(c: Config, g: Group, order: seq<nat>, id: nat)
    requires ValidConfig(c) && Inv(c, g) && Possible(c, g, EvStart(order)) && g.phase != Closed
    ensures var g1 := Start(c, g, order);
            |g.heap| <= |g1.heap| && (id < |g1.heap| ==> Drift(g1, id) == if id < |g.heap| then g.heap[id].refs else 0)
  {
    StartCore(c, g, order);
    var g0 := Restarted(g, order);
    AdmitDrift(c, g0);
    hide Core, ValidConfig, Inv;
    if id < |Admit(c, g0).heap| {
      assert DriftKept(g0, Admit(c, g0), id);
      if id < |g.heap| { assert Holders(g0, id, 0, 0) == 0; }
    }
  }

  /** Along the order that follows, takes and finishes move no drift. */
  lemma {:induction false} RunSameDrift(c: Config, g: Group, events: seq<Event>)
    requires ValidConfig(c) && Inv(c, g) && g.phase == Running && PossibleRun(c, g, events)
    requires forall i :: 0 <= i < |events| ==> events[i].EvTake? || events[i].EvFinish?
    ensures Run(c, g, events).phase == Running ==> SameDrift(g, Run(c, g, events))
    decreases |events|
  {
    hide Inv, ValidConfig, SameDrift, Step;
    if events != [] {
      var front, e := events[..|events| - 1], events[|events| - 1];
      RunSameDrift(c, g, front);
      RunKeepsInv(c, g, front);
      var g1 := Run(c, g, front);
      if g1.phase == Running {
        StepDrift(c, g1, e);
        if Step(c, g1, e).0.phase == Running { SameDriftChain(g, g1, Step(c, g1, e).0); }
      } else {
        StoppedStays(c, g1, e);
      }
    } else {
      NoDrift(g);
    }
  }

  // ---- what is left of the tasks from before ----------------------------------------------------

  /** Of the first `n` tasks, only those in `last` are filed or were delivered last. */
  ghost predicate OnlyLast(g: Group, n: nat, last: map<Key, nat>) {
    && n <= |g.heap|
    && (forall p :: p in g.tasks && g.tasks[p] < n ==> p.0 in last && last[p.0] == g.tasks[p])
    && (forall k :: k in g.last && g.last[k] < n ==> k in last && last[k] == g.last[k])
  }

  lemma AdmitKeyOnlyLast(c: Config, g: Group, k: Key, t: int, n: nat, last: map<Key, nat>)
    requires OnlyLast(g, n, last)
    ensures OnlyLast(AdmitKey(c, g, k, t).0, n, last)
  {
  }

  lemma {:induction false} AdmitKeysOnlyLast(c: Config, g: Group, t: int, i: nat, n: nat, last: map<Key, nat>)
    requires i <= |c.keys| && OnlyLast(g, n, last)
    ensures OnlyLast(AdmitKeys(c, g, t, i).0, n, last)
  {
    hide OnlyLast, AdmitKey;
    if i > 0 {
      AdmitKeysOnlyLast(c, g, t, i - 1, n, last);
      AdmitKeyOnlyLast(c, AdmitKeys(c, g, t, i - 1).0, c.keys[i - 1], t, n, last);
    }
  }

  lemma AdmitSlotOnlyLast(c: Config, g: Group, n: nat, last: map<Key, nat>)
    requires g.next < |g.order| && OnlyLast(g, n, last)
    ensures OnlyLast(AdmitSlot(c, g), n, last)
  {
    hide AdmitKeys;
    AdmitKeysOnlyLast(c, g, TimeOf(c, g.order[g.next]), |c.keys|, n, last);
  }

  lemma {:induction false} AdmitOnlyLast(c: Config, g: Group, n: nat, last: map<Key, nat>)
    requires OnlyLast(g, n, last)
    ensures OnlyLast(Admit(c, g), n, last)
    decreases |g.order| - g.next
  {
    hide OnlyLast, AdmitSlot, OverBudget;
    if MayAdmit(c, g) && !OverBudget(c, g) {
      AdmitSlotCursors(c, g);
      AdmitSlotOnlyLast(c, g, n, last);
      AdmitOnlyLast(c, AdmitSlot(c, g), n, last);
    }
  }

  lemma {:induction false} ReleaseOnlyLast(c: Config, g: Group, m: map<Key, nat>, i: nat, n: nat, last: map<Key, nat>)
    requires i <= |c.keys| && OnlyLast(g, n, last)
    ensures OnlyLast(ReleaseKeys(c, g, m, i), n, last)
  {
    if i > 0 { ReleaseOnlyLast(c, g, m, i - 1, n, last); }
  }

  /** A held slot's task is filed under its member. */
  lemma HeldTaskFiled(c: Config, g: Group, p: nat, k: Key)
    requires Core(c, g) && p in g.slots && k in g.slots[p].tasks
    ensures g.slots[p].tasks[k] < |g.heap| && exists a: int :: (k, a) in g.tasks && g.tasks[(k, a)] == g.slots[p].tasks[k]
  {
    hide Always, StopOk, Positions, Fresh;
    assert SlotOk(c, g, p);
    assert SlotTask(c, g, g.slots[p], k);
  }

  lemma LastGrows(g: Group, g1: Group, m: map<Key, nat>, n: nat, last: map<Key, nat>)
    requires OnlyLast(g, n, last) && g1.heap == g.heap && g1.tasks == g.tasks && g1.last == g.last + m
    requires forall k :: k in m && m[k] < n ==> k in last && last[k] == m[k]
    ensures OnlyLast(g1, n, last)
  {
  }

  lemma DeliverOnlyLast(c: Config, g: Group, n: nat, last: map<Key, nat>)
    requires Core(c, g) && g.head < g.next && OnlyLast(g, n, last)
    ensures g.head in g.slots && OnlyLast(Deliver(c, Popped(g), g.slots[g.head].tasks), n, last)
  {
    hide ReleaseKeys, Core, Fresh, SlotOk, OnlyLast, Deliver;
    HeadHeld(c, g);
    var m := g.slots[g.head].tasks;
    PoppedOnlyLast(g, n, last);
    ReleaseOnlyLast(c, Popped(g), m, |c.keys|, n, last);
    ReleaseKeysFrame(c, Popped(g), m, |c.keys|);
    DeliverIsRelease(c, g);
    forall k | k in m && m[k] < n
      ensures k in last && last[k] == m[k]
    {
      HeldTaskFiled(c, g, g.head, k);
      FiledIsLast(g, k, m[k], n, last);
    }
    LastGrows(PoppedAndReleased(c, g), Deliver(c, Popped(g), m), m, n, last);
  }

  lemma PoppedOnlyLast(g: Group, n: nat, last: map<Key, nat>)
    requires OnlyLast(g, n, last)
    ensures OnlyLast(Popped(g), n, last)
  {
  }

  lemma FiledIsLast(g: Group, k: Key, id: nat, n: nat, last: map<Key, nat>)
    requires OnlyLast(g, n, last) && id < n && exists a: int :: (k, a) in g.tasks && g.tasks[(k, a)] == id
    ensures k in last && last[k] == id
  {
  }

  lemma StepOnlyLast(c: Config, g: Group, e: Event, n: nat, last: map<Key, nat>)
    requires Inv(c, g) && g.phase == Running && (e.EvTake? || e.EvFinish?) && OnlyLast(g, n, last)
    ensures Step(c, g, e).0.phase == Running ==> OnlyLast(Step(c, g, e).0, n, last)
  {
    hide OnlyLast, Take, Finish, Inv;
    if e.EvTake? { TakeOnlyLast(c, g, e.k, n, last); } else { FinishOnlyLast(c, g, e.id, e.outcome, n, last); }
  }

  lemma FinishOnlyLast(c: Config, g: Group, id: nat, outcome: Result<Data, Error>, n: nat, last: map<Key, nat>)
    requires OnlyLast(g, n, last)
    ensures OnlyLast(Finish(c, g, id, outcome), n, last)
  {
    hide OnlyLast, CheckRange, Record, Admit;
    if id < |g.heap| && g.heap[id].gen == g.gen && !g.heap[id].Done() {
      var g1 := Record(c, g, id, outcome);
      RecordOnlyLast(c, g, id, outcome, n, last);
      if g.head <= g.next {
        CheckRangeOnlyLast(c, g1, id, g.head, g.next, n, last);
        AdmitOnlyLast(c, CheckRange(c, g1, id, g.head, g.next), n, last);
      } else {
        AdmitOnlyLast(c, g1, n, last);
      }
    }
  }

  lemma TakeOnlyLast(c: Config, g: Group, k: int, n: nat, last: map<Key, nat>)
    requires Inv(c, g) && g.phase == Running && OnlyLast(g, n, last)
    ensures Take(c, g, k).0.phase == Running ==> OnlyLast(Take(c, g, k).0, n, last)
  {
    hide Core, OnlyLast, Admit, Deliver, ReleaseKeys, Samples;
    if Take(c, g, k).1.Took? {
      DeliverOnlyLast(c, g, n, last);
      AdmitOnlyLast(c, Deliver(c, Popped(g), g.slots[g.head].tasks), n, last);
    }
  }

  lemma RecordOnlyLast(c: Config, g: Group, id: nat, outcome: Result<Data, Error>, n: nat, last: map<Key, nat>)
    requires id < |g.heap| && OnlyLast(g, n, last)
    ensures OnlyLast(Record(c, g, id, outcome), n, last)
  {
  }

  lemma {:induction false} CheckRangeOnlyLast(c: Config, g: Group, id: nat, lo: nat, hi: nat, n: nat, last: map<Key, nat>)
    requires lo <= hi && OnlyLast(g, n, last)
    ensures OnlyLast(CheckRange(c, g, id, lo, hi), n, last)
    decreases hi - lo
  {
    if lo < hi { CheckRangeOnlyLast(c, g, id, lo, hi - 1, n, last); }
  }

  lemma {:induction false} RunOnlyLast(c: Config, g: Group, events: seq<Event>, n: nat, last: map<Key, nat>)
    requires ValidConfig(c) && Inv(c, g) && g.phase == Running && PossibleRun(c, g, events) && OnlyLast(g, n, last)
    requires forall i :: 0 <= i < |events| ==> events[i].EvTake? || events[i].EvFinish?
    ensures Run(c, g, events).phase == Running ==> OnlyLast(Run(c, g, events), n, last)
    decreases |events|
  {
    hide Inv, ValidConfig, OnlyLast, Step;
    if events != [] {
      var front, e := events[..|events| - 1], events[|events| - 1];
      RunOnlyLast(c, g, front, n, last);
      RunKeepsInv(c, g, front);
      var g1 := Run(c, g, front);
      if g1.phase == Running { StepOnlyLast(c, g1, e, n, last); } else { StoppedStays(c, g1, e); }
    }
  }

  // ---- the theorem ---------------------------------------------------------------------------------

  lemma {:induction false} RunAppends(c: Config, g: Group, a: seq<Event>, b: seq<Event>)
    ensures PossibleRun(c, g, a + b) <==> PossibleRun(c, g, a) && PossibleRun(c, Run(c, g, a), b)
    ensures Run(c, g, a + b) == Run(c, Run(c, g, a), b)
    decreases |b|
  {
    hide Step, Possible;
    if b == [] {
      assert a + b == a;
    } else {
      var front := b[..|b| - 1];
      RunAppends(c, g, a, front);
      assert (a + b)[..|a + b| - 1] == a + front;
    }
  }

  /** The run up to the start, the start, and the run from it. */
  lemma SinceStart(c: Config, before: seq<Event>, order: seq<nat>, events: seq<Event>)
    requires Reachable(c, before + [EvStart(order)] + events)
    ensures ValidConfig(c)
    ensures var g := Run(c, Initial(), before);
            && Inv(c, g) && Possible(c, g, EvStart(order)) && Inv(c, Start(c, g, order)) && PossibleRun(c, Start(c, g, order), events)
            && Run(c, Initial(), before + [EvStart(order)] + events) == Run(c, Start(c, g, order), events)
            && Inv(c, Run(c, Start(c, g, order), events))
  {
    var g, e := Run(c, Initial(), before), EvStart(order);
    RunAppends(c, Initial(), before + [e], events);
    RunAppends(c, Initial(), before, [e]);
    assert [e][..0] == [];
    assert Run(c, g, []) == g;
    hide Inv, Start;
    ReachableInv(c, before);
    ReachableInv(c, before + [e]);
    ReachableInv(c, before + [e] + events);
  }

  lemma StartRuns(c: Config, g: Group, order: seq<nat>)
    requires ValidConfig(c) && Inv(c, g) && Possible(c, g, EvStart(order)) && g.phase != Closed
    ensures Start(c, g, order).phase == Running
  {
    StartCore(c, g, order);
    hide Core, Inv;
    AdmitKeepsInv(c, Restarted(g, order));
  }

  /** After any run, a start, and any takes and finishes that do not end the order: a task has
      more references than slots hold it by what it had left at the start, a new task by none. */
  lemma DriftSinceStart(c: Config, before: seq<Event>, order: seq<nat>, events: seq<Event>, id: nat)
    requires Reachable(c, before + [EvStart(order)] + events) && Run(c, Initial(), before).phase != Closed
    requires forall i :: 0 <= i < |events| ==> events[i].EvTake? || events[i].EvFinish?
    requires Run(c, Initial(), before + [EvStart(order)] + events).phase == Running
    ensures var g, g1 := Run(c, Initial(), before), Run(c, Initial(), before + [EvStart(order)] + events);
            |g.heap| <= |g1.heap| && (id < |g1.heap| ==> Drift(g1, id) == if id < |g.heap| then g.heap[id].refs else 0)
  {
    SinceStart(c, before, order, events);
    var g := Run(c, Initial(), before);
    var g0, g1 := Start(c, g, order), Run(c, Start(c, g, order), events);
    hide Run, Start, Drift, Inv, ValidConfig, Reachable;
    StartRuns(c, g, order);
    RestartDrift(c, g, order, id);
    RunSameDrift(c, g0, events);
    if id < |g1.heap| { assert DriftKept(g0, g1, id); }
  }

  /** And a task a slot holds has more than that exactly when it was revived: when it is the
      one its member was last delivered before the start, with references left then. */
  lemma RevivedDriftIff(c: Config, before: seq<Event>, order: seq<nat>, events: seq<Event>, p: nat, k: Key)
    requires Reachable(c, before + [EvStart(order)] + events) && Run(c, Initial(), before).phase != Closed
    requires forall i :: 0 <= i < |events| ==> events[i].EvTake? || events[i].EvFinish?
    requires var g1 := Run(c, Initial(), before + [EvStart(order)] + events); g1.phase == Running && p in g1.slots && k in g1.slots[p].tasks
    ensures var g, g1 := Run(c, Initial(), before), Run(c, Initial(), before + [EvStart(order)] + events);
            var id := g1.slots[p].tasks[k];
            && id < |g1.heap| && g1.heap[id].refs >= Holders(g1, id, g1.head, g1.next)
            && (g1.heap[id].refs > Holders(g1, id, g1.head, g1.next) <==> k in g.last && g.last[k] == id && id < |g.heap| && g.heap[id].refs > 0)
  {
    SinceStart(c, before, order, events);
    var g := Run(c, Initial(), before);
    var g0, g1 := Start(c, g, order), Run(c, Start(c, g, order), events);
    var id := g1.slots[p].tasks[k];
    HeldTaskFiled(c, g1, p, k);
    RefsCoverHolders(c, before + [EvStart(order)] + events, id);
    DriftSinceStart(c, before, order, events, id);
    StartOnlyLast(c, g, order);
    StartRuns(c, g, order);
    hide Inv, ValidConfig, Reachable, Start, Run;
    RunOnlyLast(c, g0, events, |g.heap|, g.last);
  }

  lemma StartOnlyLast(c: Config, g: Group, order: seq<nat>)
    requires g.phase != Closed && Inv(c, g)
    ensures OnlyLast(Start(c, g, order), |g.heap|, g.last)
  {
    hide Admit;
    AdmitOnlyLast(c, Restarted(g, order), |g.heap|, g.last);
  }

  // ---- a run in which a revived task drifts ------------------------------------------------------------

  const DATA := Windows([])
  /** One member whose two epochs share an anchor, two slots deep, without a budget. */
  const PAIR := Config(["a"], [0, 1], 2, None, (k: Key, t: int) => 0, (k: Key, t: int) => Ok(DATA), (d: Data) => 0)

  function Shared(refs: int, done: bool): seq<Task> {
    [Task("a", 0, 0, 1, if done then Some(Ok(DATA)) else None, refs)]
  }

  function SlotFor(epoch: nat, done: bool): Slot {
    Slot(epoch, map["a" := 0], done, None)
  }

  const STARTED := Group(Running, 1, [0, 1], 0, 2, None, map[0 := SlotFor(0, false), 1 := SlotFor(1, false)], map[("a", 0) := 0], Shared(2, false), map[], map[], map[], 1)
  const DECODED := STARTED.(slots := map[0 := SlotFor(0, true), 1 := SlotFor(1, true)], heap := Shared(2, true), size := map["a" := 0])
  const TAKEN := DECODED.(head := 1, slots := map[1 := SlotFor(1, true)], heap := Shared(1, true), last := map["a" := 0], prev := map["a" := 0])
  const RESTARTED := Group(Running, 2, [0], 0, 1, None, map[0 := SlotFor(0, true)], map[("a", 0) := 0], Shared(2, true), map["a" := 0], map[], map["a" := 0], 2)

  lemma PairIsValid()
    ensures ValidConfig(PAIR)
  {
  }

  lemma AdmitOne(g: Group, g1: Group, id: nat)
    requires g.next < |g.order| && AdmitKey(PAIR, g, "a", TimeOf(PAIR, g.order[g.next])) == (g1, id)
    ensures AdmitSlot(PAIR, g) == CheckSlot(PAIR, g1.(slots := g1.slots[g.next := Slot(g.order[g.next], map["a" := id], false, None)], next := g.next + 1), g.next)
  {
    hide AdmitKey, CheckSlot;
    var t := TimeOf(PAIR, g.order[g.next]);
    assert AdmitKeys(PAIR, g, t, 0) == (g, map[]);
    assert AdmitKeys(PAIR, g, t, 1) == (g1, map["a" := id]);
  }

  /** The member's sample is decoded for one time, or found held or delivered for another. */
  lemma PairKey(g: Group, t: int)
    requires t == 0 || t == 1
    ensures g.heap == [] && g.tasks == map[] && g.last == map[] && g.gen == 1 && t == 0 ==>
              AdmitKey(PAIR, g, "a", t) == (g.(heap := Shared(1, false), tasks := map[("a", 0) := 0]), 0)
    ensures forall refs, done :: g.heap == Shared(refs, done) && (g.tasks == map[("a", 0) := 0] || (g.tasks == map[] && g.last == map["a" := 0])) ==>
              AdmitKey(PAIR, g, "a", t) == (g.(heap := Shared(refs + 1, done), tasks := map[("a", 0) := 0], reused := g.reused + 1), 0)
  {
    assert PAIR.anchorOf("a", t) == 0;
    if g.heap == [] && g.tasks == map[] && g.last == map[] && g.gen == 1 && t == 0 {
      assert Lookup(g, "a", 0).None?;
      assert g.heap + [Task("a", 0, 0, 1, None, 1)] == Shared(1, false);
      assert g.tasks[("a", 0) := 0] == map[("a", 0) := 0];
    }
    forall refs, done | g.heap == Shared(refs, done) && (g.tasks == map[("a", 0) := 0] || (g.tasks == map[] && g.last == map["a" := 0]))
      ensures AdmitKey(PAIR, g, "a", t) == (g.(heap := Shared(refs + 1, done), tasks := map[("a", 0) := 0], reused := g.reused + 1), 0)
    {
      assert Lookup(g, "a", 0) == Some(0);
      assert Bump(g.heap, 0, 1) == Shared(refs + 1, done);
      assert g.tasks[("a", 0) := 0] == map[("a", 0) := 0];
    }
  }

  lemma PairStarts()
    ensures Start(PAIR, Initial(), [0, 1]) == STARTED
  {
    var g0 := Restarted(Initial(), [0, 1]);
    var g1 := g0.(heap := Shared(1, false), tasks := map[("a", 0) := 0]);
    PairKey(g0, 0);
    hide AdmitKey, AdmitKeys;
    AdmitOne(g0, g1, 0);
    var g2 := g1.(slots := map[0 := SlotFor(0, false)], next := 1);
    assert AdmitSlot(PAIR, g0) == g2;
    var g3 := g2.(heap := Shared(2, false), reused := 1);
    PairKey(g2, 1);
    AdmitOne(g2, g3, 0);
    assert AdmitSlot(PAIR, g2) == STARTED;
    hide AdmitSlot;
    assert Admit(PAIR, STARTED) == STARTED;
    assert Admit(PAIR, g2) == STARTED;
  }

  lemma PairDecodes()
    ensures Finish(PAIR, STARTED, 0, Ok(DATA)) == DECODED
  {
    var g1 := Record(PAIR, STARTED, 0, Ok(DATA));
    assert g1.heap == Shared(2, true);
    assert g1.size == map["a" := 0];
    var g2 := g1.(slots := map[0 := SlotFor(0, true), 1 := SlotFor(1, false)]);
    assert CheckSlot(PAIR, g1, 0) == g2;
    assert CheckSlot(PAIR, g2, 1) == DECODED;
    assert CheckRange(PAIR, g1, 0, 0, 0) == g1;
    assert CheckRange(PAIR, g1, 0, 0, 1) == g2;
    assert CheckRange(PAIR, g1, 0, 0, 2) == DECODED;
    assert Admit(PAIR, DECODED) == DECODED;
  }

  lemma PairTakes()
    ensures Take(PAIR, DECODED, 0).0 == TAKEN
  {
    var g1 := Popped(DECODED);
    var m: map<Key, nat> := map["a" := 0];
    assert g1.slots == map[1 := SlotFor(1, true)];
    var g2 := g1.(heap := Shared(1, true));
    assert Release(g1, 0) == g2 by { assert Bump(g1.heap, 0, -1) == Shared(1, true); }
    assert ReleaseKeys(PAIR, g1, m, 0) == g1;
    assert ReleaseKeys(PAIR, g1, m, 1) == g2;
    assert Deliver(PAIR, g1, m) == TAKEN;
    assert Admit(PAIR, TAKEN) == TAKEN;
  }

  lemma PairRestarts()
    ensures Start(PAIR, TAKEN, [0]) == RESTARTED
  {
    var g0 := Restarted(TAKEN, [0]);
    var g1 := g0.(heap := Shared(2, true), tasks := map[("a", 0) := 0], reused := 2);
    PairKey(g0, 0);
    hide AdmitKey, AdmitKeys;
    AdmitOne(g0, g1, 0);
    var g2 := g1.(slots := map[0 := SlotFor(0, false)], next := 1);
    assert CheckSlot(PAIR, g2, 0) == RESTARTED;
    assert AdmitSlot(PAIR, g0) == RESTARTED;
    hide AdmitSlot;
    assert Admit(PAIR, RESTARTED) == RESTARTED;
  }

  /** Two epochs of one sample: take the first, start over, and the sample revived for the new
      slot still counts the old order's second slot, which is gone. */
  lemma RevivedTaskDrifts()
    ensures var before, all := [EvStart([0, 1]), EvFinish(0, Ok(DATA)), EvTake(0)], [EvStart([0, 1]), EvFinish(0, Ok(DATA)), EvTake(0), EvStart([0])];
            && Reachable(PAIR, all) && all == before + [EvStart([0])]
            && var g, g1 := Run(PAIR, Initial(), before), Run(PAIR, Initial(), all);
               && g.last == map["a" := 0] && g1.phase == Running && 0 in g1.slots && g1.slots[0].tasks == map["a" := 0]
               && |g1.heap| == 1 && g1.heap[0].refs == 2 && Holders(g1, 0, g1.head, g1.next) == 1 && Drift(g1, 0) == 1
  {
    hide Start, Finish, Take, ValidConfig, Run, PossibleRun, Drift, Holders, Holds;
    var e: seq<Event> := [EvStart([0, 1]), EvFinish(0, Ok(DATA)), EvTake(0), EvStart([0])];
    PairIsValid();
    PairRuns(e);
    assert e[..3] == [EvStart([0, 1]), EvFinish(0, Ok(DATA)), EvTake(0)];
    assert e[..4] == e;
    OneHolder();
  }

  lemma OneHolder()
    ensures Holders(RESTARTED, 0, 0, 1) == 1 && Drift(RESTARTED, 0) == 1
  {
    assert Holds(RESTARTED, 0, 0);
    assert Holders(RESTARTED, 0, 0, 0) == 0;
  }

  lemma PairRuns(e: seq<Event>)
    requires e == [EvStart([0, 1]), EvFinish(0, Ok(DATA)), EvTake(0), EvStart([0])]
    ensures Run(PAIR, Initial(), e[..3]) == TAKEN && PossibleRun(PAIR, Initial(), e[..4]) && Run(PAIR, Initial(), e[..4]) == RESTARTED
  {
    hide Start, Finish, Take;
    assert e[..0] == [];
    assert PossibleRun(PAIR, Initial(), e[..0]) && Run(PAIR, Initial(), e[..0]) == Initial();
    hide Run, PossibleRun;
    PairStarts();
    PairStep(e, 0, Initial(), STARTED);
    PairDecodes();
    PairStep(e, 1, STARTED, DECODED);
    PairTakes();
    PairStep(e, 2, DECODED, TAKEN);
    PairRestarts();
    PairStep(e, 3, TAKEN, RESTARTED);
  }

  lemma PairStep(e: seq<Event>, n: nat, g: Group, g1: Group)
    requires n < |e| && PossibleRun(PAIR, Initial(), e[..n]) && Run(PAIR, Initial(), e[..n]) == g && Possible(PAIR, g, e[n]) && Step(PAIR, g, e[n]).0 == g1
    ensures PossibleRun(PAIR, Initial(), e[..n + 1]) && Run(PAIR, Initial(), e[..n + 1]) == g1
  {
    assert e[..n + 1][..n] == e[..n];
  }
}
