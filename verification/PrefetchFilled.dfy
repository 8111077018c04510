/** The window a group decodes ahead is filled: nothing is held back that depth, budget and
    failures allow, and the consumer is given the entries of its order, one after another. */
module PrefetchFilled {
  import opened Wrappers
  import opened NativeData
  import opened FiniteSum
  import opened PrefetchModel
  import opened PrefetchInvariant
  import opened PrefetchSteps
  import opened PrefetchTheorems

  // ---- what the next slot would take -------------------------------------------------------

  /** The bytes a task stands for: its sample's, none if it failed, and while it is unfinished
      its member's last size. */
  ghost function BytesOf(c: Config, g: Group, id: nat): nat {
    if id >= |g.heap| then 0
    else match g.heap[id].outcome
      case Some(Ok(data)) => c.nbytes(data)
      case Some(Err(_)) => 0
      case None => if g.heap[id].key in g.size then g.size[g.heap[id].key] else 0
  }

  ghost function HeldSizes(c: Config, g: Group): map<(Key, int), nat> {
    map p | p in g.tasks :: BytesOf(c, g, g.tasks[p])
  }

  /** Some held task is unfinished, and its member's size not known. */
  ghost predicate Guessing(g: Group) {
    exists p :: p in g.tasks && g.tasks[p] < |g.heap| && g.heap[g.tasks[p]].outcome.None? && g.heap[g.tasks[p]].key !in g.size
  }

  /** What a member adds at time `t`: nothing if its sample is held already, the sample's bytes
      if it is the one last delivered, else the member's last size, if there is one. */
  ghost function NeedOf(c: Config, g: Group, k: Key, t: int): Option<nat> {
    var a := c.anchorOf(k, t);
    if (k, a) in g.tasks then Some(0)
    else if k in g.last && g.last[k] < |g.heap| && g.heap[g.last[k]].anchor == a then
      Some(match g.heap[g.last[k]].outcome case Some(Ok(data)) => c.nbytes(data) case _ => 0)
    else if k in g.size then Some(g.size[k])
    else None
  }

  ghost function NeedSizes(c: Config, g: Group, t: int, ks: seq<Key>): map<Key, nat> {
    map k | k in ks && NeedOf(c, g, k, t).Some? :: NeedOf(c, g, k, t).value
  }

  /** The budget keeps the next slot waiting: another slot is held, and some size is unknown or
      what is held and what the slot would add come to more than the budget. */
  ghost predicate MustWait(c: Config, g: Group)
    requires g.next < |g.order|
  {
    var t := TimeOf(c, g.order[g.next]);
    && c.maxBytes.Some? && g.next != g.head
    && (Guessing(g) || (exists k :: k in c.keys && NeedOf(c, g, k, t).None?)
        || Sum(HeldSizes(c, g)) + Sum(NeedSizes(c, g, t, c.keys)) > c.maxBytes.value)
  }

  /** Nothing more may be admitted: a failure is stored, the order is used up, the window is as
      deep as it may be, or the budget keeps the next slot waiting. */
  ghost predicate Filled(c: Config, g: Group) {
    g.stop.Some? || g.next == |g.order| || g.next == g.head + c.depth || (g.next < |g.order| && MustWait(c, g))
  }

  // ---- the admission loop's own tests mean the same ------------------------------------------

  lemma HeldIsHeld(c: Config, g: Group)
    ensures HeldBytes(c, g) == Sum(HeldSizes(c, g)) && (HeldUnknown(g) <==> Guessing(g))
  {
    forall p | p in g.tasks
      ensures Weight(c, g, g.tasks[p]) == BytesOf(c, g, g.tasks[p])
    {
    }
    assert Weights(c, g) == HeldSizes(c, g);
    if HeldUnknown(g) {
      var p :| p in g.tasks && SizeUnknown(g, g.tasks[p]);
      assert g.heap[g.tasks[p]].outcome.None?;
    }
    if Guessing(g) {
      var p :| p in g.tasks && g.tasks[p] < |g.heap| && g.heap[g.tasks[p]].outcome.None? && g.heap[g.tasks[p]].key !in g.size;
      assert SizeUnknown(g, g.tasks[p]);
    }
  }

  lemma KeyNeeds(c: Config, g: Group, k: Key, t: int)
    ensures KeyEstimate(c, g, k, c.anchorOf(k, t)) == NeedOf(c, g, k, t)
  {
  }

  lemma {:induction false} EstimateIsSum(c: Config, g: Group, t: int, i: nat)
    requires ValidConfig(c) && i <= |c.keys|
    ensures Estimate(c, g, t, i).None? <==> exists k :: k in c.keys[..i] && NeedOf(c, g, k, t).None?
    ensures Estimate(c, g, t, i).Some? ==> Estimate(c, g, t, i).value == Sum(NeedSizes(c, g, t, c.keys[..i]))
  {
    hide NeedOf, KeyEstimate, ValidConfig;
    if i == 0 {
      assert NeedSizes(c, g, t, c.keys[..0]) == map[];
    } else {
      var key := c.keys[i - 1];
      EstimateIsSum(c, g, t, i - 1);
      KeysDistinct(c, i - 1);
      KeyNeeds(c, g, key, t);
      assert c.keys[..i] == c.keys[..i - 1] + [key];
      if NeedOf(c, g, key, t).Some? {
        var before := NeedSizes(c, g, t, c.keys[..i - 1]);
        assert NeedSizes(c, g, t, c.keys[..i]) == before[key := NeedOf(c, g, key, t).value];
        SumInsert(before, key, NeedOf(c, g, key, t).value);
      } else {
        assert key in c.keys[..i];
      }
    }
  }

  lemma OverBudgetIs(c: Config, g: Group)
    requires ValidConfig(c) && Core(c, g) && g.next < |g.order|
    ensures OverBudget(c, g) <==> MustWait(c, g)
  {
    hide Core, ValidConfig, Estimate, NeedOf, HeldBytes, HeldUnknown, Guessing, HeldSizes, NeedSizes;
    HeldIsHeld(c, g);
    EstimateIsSum(c, g, TimeOf(c, g.order[g.next]), |c.keys|);
    assert c.keys[..|c.keys|] == c.keys;
    if g.next != g.head { SomeSlot(c, g); }
  }

  lemma SomeSlot(c: Config, g: Group)
    requires Core(c, g) && g.next != g.head
    ensures g.slots != map[]
  {
    HeadHeld(c, g);
  }

  /** Admission ends only where nothing more may be admitted. */
  lemma {:induction false} AdmitFills(c: Config, g: Group)
    requires ValidConfig(c) && Core(c, g)
    ensures Filled(c, Admit(c, g))
    decreases |g.order| - g.next
  {
    hide OverBudget, MustWait, AdmitSlot, ValidConfig;
    if MayAdmit(c, g) {
      OverBudgetIs(c, g);
      if !OverBudget(c, g) {
        AdmitSlotCursors(c, g);
        AdmitSlotKeepsCore(c, g);
        AdmitFills(c, AdmitSlot(c, g));
      }
    }
  }

  lemma StepFills(c: Config, g: Group, e: Event)
    requires ValidConfig(c) && Inv(c, g) && Possible(c, g, e) && (g.phase == Running ==> Filled(c, g))
    ensures Step(c, g, e).0.phase == Running ==> Filled(c, Step(c, g, e).0)
  {
    hide Inv, ValidConfig, Filled, Admit, Take, Finish;
    match e
    case EvStart(order) =>
      if g.phase != Closed {
        StartCore(c, g, order);
        AdmitFills(c, Restarted(g, order));
      }
    case EvTake(k) => TakeFills(c, g, k);
    case EvCancel =>
    case EvClose =>
    case EvFinish(id, outcome) => FinishFills(c, g, id, outcome);
  }

  lemma TakeFills(c: Config, g: Group, k: int)
    requires ValidConfig(c) && Inv(c, g) && (g.phase == Running ==> Filled(c, g))
    ensures Take(c, g, k).0.phase == Running ==> Filled(c, Take(c, g, k).0)
  {
    hide Inv, ValidConfig, Filled, Admit, Deliver, ReleaseKeys;
    if Take(c, g, k).1.Took? {
      TookAtHead(c, g, k);
      DeliverKeepsCore(c, g);
      AdmitFills(c, Deliver(c, Popped(g), g.slots[g.head].tasks));
    }
  }

  lemma FinishFills(c: Config, g: Group, id: nat, outcome: Result<Data, Error>)
    requires ValidConfig(c) && Inv(c, g) && Possible(c, g, EvFinish(id, outcome)) && (g.phase == Running ==> Filled(c, g))
    ensures Finish(c, g, id, outcome).phase == Running ==> Filled(c, Finish(c, g, id, outcome))
  {
    hide ValidConfig, Filled, Admit, Core;
    FinishFrame(c, g, id, outcome);
    if g.heap[id].gen == g.gen && !g.heap[id].Done() && g.phase == Running {
      RunningParts(c, g);
      CheckedCore(c, g, id, outcome);
      AdmitFills(c, CheckRange(c, Record(c, g, id, outcome), id, g.head, g.next));
    }
  }

  /** In every reachable running state the window is filled: a failure is stored, the order is
      used up, the window is `depth` slots deep, or the budget keeps the next slot waiting. */
  lemma {:induction false} WindowIsFilled(c: Config, events: seq<Event>)
    requires Reachable(c, events)
    ensures var g := Run(c, Initial(), events); g.phase == Running ==> Filled(c, g)
    decreases |events|
  {
    hide Filled;
    if events != [] {
      var front := events[..|events| - 1];
      WindowIsFilled(c, front);
      ReachableInv(c, front);
      hide Inv, Step;
      StepFills(c, Run(c, Initial(), front), events[|events| - 1]);
    }
  }

  /** So without a budget, and while no decode of the window has failed, it reaches exactly
      `depth` entries past the last one taken, or to the end of the order. */
  lemma WindowReachesDepth(c: Config, events: seq<Event>)
    requires Reachable(c, events) && c.maxBytes.None?
    ensures var g := Run(c, Initial(), events);
            g.phase == Running && g.stop.None? ==> g.next == if g.head + c.depth <= |g.order| then g.head + c.depth else |g.order|
  {
    var g := Run(c, Initial(), events);
    ReachableInv(c, events);
    WindowIsFilled(c, events);
    hide Run, Reachable;
    if g.phase == Running { WindowBounds(c, g); }
  }

  lemma WindowBounds(c: Config, g: Group)
    requires Inv(c, g) && g.phase == Running
    ensures g.head <= g.next <= |g.order| && g.next <= g.head + c.depth
  {
  }

  // ---- the sizes it goes by ---------------------------------------------------------------------

  /** The bytes of each member's latest accepted sample, told from the run: an outcome counts
      if it is a success, of the current order, and its task's first. */
  ghost function LatestSizes(c: Config, events: seq<Event>): map<Key, nat>
    decreases |events|
  {
    if events == [] then map[]
    else
      var front, e := events[..|events| - 1], events[|events| - 1];
      var g := Run(c, Initial(), front);
      if e.EvFinish? && e.outcome.Ok? && e.id < |g.heap| && g.heap[e.id].gen == g.gen && g.heap[e.id].outcome.None?
      then LatestSizes(c, front)[g.heap[e.id].key := c.nbytes(e.outcome.value)]
      else LatestSizes(c, front)
  }

  lemma {:induction false} AdmitKeepsSizes(c: Config, g: Group)
    ensures Admit(c, g).size == g.size
    decreases |g.order| - g.next
  {
    hide AdmitSlot, OverBudget;
    if MayAdmit(c, g) && !OverBudget(c, g) {
      AdmitSlotCursors(c, g);
      AdmitSlotFrame(c, g);
      AdmitKeepsSizes(c, AdmitSlot(c, g));
    }
  }

  lemma {:induction false} CheckRangeKeepsSizes(c: Config, g: Group, id: nat, lo: nat, hi: nat)
    requires lo <= hi
    ensures CheckRange(c, g, id, lo, hi).size == g.size
    decreases hi - lo
  {
    if lo < hi { CheckRangeKeepsSizes(c, g, id, lo, hi - 1); }
  }

  lemma StepSizes(c: Config, g: Group, e: Event)
    ensures Step(c, g, e).0.size == if e.EvFinish? && e.outcome.Ok? && e.id < |g.heap| && g.heap[e.id].gen == g.gen && g.heap[e.id].outcome.None?
                                    then g.size[g.heap[e.id].key := c.nbytes(e.outcome.value)] else g.size
  {
    hide Admit, CheckRange, ReleaseKeys, Deliver;
    match e
    case EvStart(order) => AdmitKeepsSizes(c, Restarted(g, order));
    case EvTake(k) => TakeKeepsSizes(c, g, k);
    case EvCancel =>
    case EvClose =>
    case EvFinish(id, outcome) =>
      if id < |g.heap| && g.heap[id].gen == g.gen && !g.heap[id].Done() {
        var g1 := Record(c, g, id, outcome);
        if g.head <= g.next { CheckRangeKeepsSizes(c, g1, id, g.head, g.next); }
        AdmitKeepsSizes(c, if g.head <= g.next then CheckRange(c, g1, id, g.head, g.next) else g1);
      }
  }

  lemma TakeKeepsSizes(c: Config, g: Group, k: int)
    ensures Take(c, g, k).0.size == g.size
  {
    hide Admit, ReleaseKeys;
    if Take(c, g, k).1.Took? {
      ReleaseKeysFrame(c, Popped(g), g.slots[g.head].tasks, |c.keys|);
      AdmitKeepsSizes(c, Deliver(c, Popped(g), g.slots[g.head].tasks));
    } else if Take(c, g, k).1.Raised? {
      ReleaseKeysFrame(c, Popped(g), g.slots[g.head].tasks, |c.keys|);
    }
  }

  /** A member's size is that of its latest accepted sample, over any run. */
  lemma {:induction false} SizesAreLatest(c: Config, events: seq<Event>)
    ensures Run(c, Initial(), events).size == LatestSizes(c, events)
    decreases |events|
  {
    hide Step;
    if events != [] {
      var front := events[..|events| - 1];
      SizesAreLatest(c, front);
      StepSizes(c, Run(c, Initial(), front), events[|events| - 1]);
    }
  }
}
