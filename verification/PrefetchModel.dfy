/** Epoch prefetch as a state machine: one step per critical section of the group's lock.
    The consumer calls start, take and cancel; workers finish decodes at any time between. */
module PrefetchModel {
  import opened Wrappers
  import opened NativeData
  import opened FiniteSum

  type Key = string

  /** What does not change during a group's life. `anchorOf` is the cadence anchor a member
      snaps a time to; `decode` is the member's sample at a time; `nbytes` its array bytes. */
  datatype Config = Config(
    keys: seq<Key>,
    bounds: seq<int>,
    depth: nat,
    maxBytes: Option<nat>,
    anchorOf: (Key, int) -> int,
    decode: (Key, int) -> Result<Data, Error>,
    nbytes: Data -> nat)

  /** Byte-wise string order. */
  predicate Before(a: Key, b: Key) {
    if b == "" then false
    else if a == "" then true
    else a[0] < b[0] || (a[0] == b[0] && Before(a[1..], b[1..]))
  }

  ghost predicate ValidConfig(c: Config) {
    && c.depth >= 1
    && c.keys != [] && c.bounds != []
    && (forall i, j :: 0 <= i < j < |c.keys| ==> Before(c.keys[i], c.keys[j]) && c.keys[i] != c.keys[j])
    && (forall i, j :: 0 <= i < j < |c.bounds| ==> c.bounds[i] < c.bounds[j])
  }

  /** One (member, anchor) sample. `refs` counts the slots that still need it. */
  datatype Task = Task(key: Key, anchor: int, t: int, gen: nat, outcome: Option<Result<Data, Error>>, refs: int) {
    predicate Done() { outcome.Some? }
    predicate Failed() { outcome.Some? && outcome.value.Err? }
    predicate Succeeded() { outcome.Some? && outcome.value.Ok? }
  }

  /** One admitted position of the order: its epoch and one task per member. */
  datatype Slot = Slot(epoch: nat, tasks: map<Key, nat>, done: bool, error: Option<Error>)

  datatype Phase = Idle | Running | Cancelled | Failed | Closed

  /** The group's fields. Task objects live in `heap`, shared by identity (their index). */
  datatype Group = Group(
    phase: Phase,
    gen: nat,
    order: seq<nat>,
    head: nat,
    next: nat,
    stop: Option<nat>,
    slots: map<nat, Slot>,
    tasks: map<(Key, int), nat>,
    heap: seq<Task>,
    last: map<Key, nat>,
    prev: map<Key, int>,
    size: map<Key, nat>,
    reused: nat)

  ghost function Initial(): Group {
    Group(Idle, 0, [], 0, 0, None, map[], map[], [], map[], map[], map[], 0)
  }

  function TimeOf(c: Config, epoch: nat): int {
    if epoch < |c.bounds| then c.bounds[epoch] else 0
  }

  // ---- admission --------------------------------------------------------------

  /** The held task for (key, anchor), else the one last delivered if it has that anchor. */
  function Lookup(g: Group, key: Key, anchor: int): Option<nat> {
    if (key, anchor) in g.tasks then Some(g.tasks[(key, anchor)])
    else if key in g.last && g.last[key] < |g.heap| && g.heap[g.last[key]].anchor == anchor then Some(g.last[key])
    else None
  }

  function TaskBytes(c: Config, task: Task): nat {
    if task.Succeeded() then c.nbytes(task.outcome.value.value) else 0
  }

  /** What member `key` adds to a slot's estimate, or None when its size is unknown. */
  function KeyEstimate(c: Config, g: Group, key: Key, anchor: int): Option<nat> {
    if (key, anchor) in g.tasks then Some(0)
    else match Lookup(g, key, anchor)
      case Some(id) => Some(if id < |g.heap| then TaskBytes(c, g.heap[id]) else 0)
      case None => if key in g.size then Some(g.size[key]) else None
  }

  /** The estimate over the first `i` members; None once some size is unknown. */
  function Estimate(c: Config, g: Group, t: int, i: nat): Option<nat>
    requires i <= |c.keys|
  {
    if i == 0 then Some(0)
    else match (Estimate(c, g, t, i - 1), KeyEstimate(c, g, c.keys[i - 1], c.anchorOf(c.keys[i - 1], t)))
      case (Some(a), Some(b)) => Some(a + b)
      case _ => None
  }

  /** The bytes a held task counts for: its real size once done, else its member's last. */
  function Weight(c: Config, g: Group, id: nat): nat {
    if id >= |g.heap| then 0
    else if g.heap[id].Done() then TaskBytes(c, g.heap[id])
    else if g.heap[id].key in g.size then g.size[g.heap[id].key]
    else 0
  }

  ghost function Weights(c: Config, g: Group): map<(Key, int), nat> {
    map p | p in g.tasks :: Weight(c, g, g.tasks[p])
  }

  ghost function HeldBytes(c: Config, g: Group): nat {
    Sum(Weights(c, g))
  }

  predicate SizeUnknown(g: Group, id: nat) {
    id < |g.heap| && !g.heap[id].Done() && g.heap[id].key !in g.size
  }

  ghost predicate HeldUnknown(g: Group) {
    exists p :: p in g.tasks && SizeUnknown(g, g.tasks[p])
  }

  /** The budget holds back the slot at `next`; the head slot is never held back. */
  ghost predicate OverBudget(c: Config, g: Group)
    requires g.next < |g.order|
  {
    var est := Estimate(c, g, TimeOf(c, g.order[g.next]), |c.keys|);
    && g.next != g.head
    && c.maxBytes.Some?
    && if est.None? || HeldUnknown(g) then g.slots != map[] else HeldBytes(c, g) + est.value > c.maxBytes.value
  }

  function Bump(heap: seq<Task>, id: nat, delta: int): (h: seq<Task>)
    ensures |h| == |heap|
  {
    if id < |heap| then heap[id := heap[id].(refs := heap[id].refs + delta)] else heap
  }

  /** Give member `key` its task at time `t`: a new one, or the held or delivered one again. */
  function AdmitKey(c: Config, g: Group, key: Key, t: int): (Group, nat) {
    var a := c.anchorOf(key, t);
    match Lookup(g, key, a)
    case None =>
      (g.(heap := g.heap + [Task(key, a, t, g.gen, None, 1)], tasks := g.tasks[(key, a) := |g.heap|]), |g.heap|)
    case Some(id) =>
      (g.(heap := Bump(g.heap, id, 1), tasks := g.tasks[(key, a) := id], reused := g.reused + 1), id)
  }

  function AdmitKeys(c: Config, g: Group, t: int, i: nat): (Group, map<Key, nat>)
    requires i <= |c.keys|
  {
    if i == 0 then (g, map[])
    else
      var (g1, m) := AdmitKeys(c, g, t, i - 1);
      var (g2, id) := AdmitKey(c, g1, c.keys[i - 1], t);
      (g2, m[c.keys[i - 1] := id])
  }

  predicate AllDone(c: Config, heap: seq<Task>, m: map<Key, nat>) {
    forall k :: k in c.keys ==> k in m && m[k] < |heap| && heap[m[k]].Done()
  }

  /** The error of the first failed task among members `i`, `i + 1`, ... in key order. */
  function FirstError(c: Config, heap: seq<Task>, m: map<Key, nat>, i: nat): Option<Error>
    decreases |c.keys| - i
  {
    if i >= |c.keys| then None
    else
      var k := c.keys[i];
      if k in m && m[k] < |heap| && heap[m[k]].Failed() then Some(heap[m[k]].outcome.value.error)
      else FirstError(c, heap, m, i + 1)
  }

  /** Settle slot `pos` if all its tasks are done; a failure stops admission behind it. */
  function CheckSlot(c: Config, g: Group, pos: nat): Group {
    if pos !in g.slots || g.slots[pos].done || !AllDone(c, g.heap, g.slots[pos].tasks) then g
    else
      var err := FirstError(c, g.heap, g.slots[pos].tasks, 0);
      g.(slots := g.slots[pos := g.slots[pos].(done := true, error := err)],
         stop := if err.Some? && (g.stop.None? || pos < g.stop.value) then Some(pos) else g.stop)
  }

  function AdmitSlot(c: Config, g: Group): Group
    requires g.next < |g.order|
  {
    var (g1, m) := AdmitKeys(c, g, TimeOf(c, g.order[g.next]), |c.keys|);
    CheckSlot(c, g1.(slots := g1.slots[g.next := Slot(g.order[g.next], m, false, None)], next := g.next + 1), g.next)
  }

  predicate MayAdmit(c: Config, g: Group) {
    g.phase == Running && g.stop.None? && g.next < |g.order| && g.next < g.head + c.depth
  }

  lemma AdmitSlotCursors(c: Config, g: Group)
    requires g.next < |g.order|
    ensures AdmitSlot(c, g).next == g.next + 1 && AdmitSlot(c, g).order == g.order
    ensures AdmitSlot(c, g).head == g.head && AdmitSlot(c, g).phase == g.phase && AdmitSlot(c, g).gen == g.gen
  {
    AdmitKeysFrame(c, g, TimeOf(c, g.order[g.next]), |c.keys|);
  }

  lemma {:induction false} AdmitKeysFrame(c: Config, g: Group, t: int, i: nat)
    requires i <= |c.keys|
    ensures var g1 := AdmitKeys(c, g, t, i).0;
            g1 == g.(heap := g1.heap, tasks := g1.tasks, reused := g1.reused)
  {
    if i > 0 { AdmitKeysFrame(c, g, t, i - 1); }
  }

  /** Admit slots, in order, while depth, budget and the stop position allow. */
  ghost function Admit(c: Config, g: Group): Group
    decreases |g.order| - g.next
  {
    if !MayAdmit(c, g) || OverBudget(c, g) then g
    else
      AdmitSlotCursors(c, g);
      Admit(c, AdmitSlot(c, g))
  }

  // ---- the consumer's calls ------------------------------------------------------

  datatype Sample = Sample(data: Data, anchor: int, changed: bool)

  /** What a take answers: it is refused, asks for the wrong epoch, would have to wait, raises
      the stored error, or delivers. */
  datatype Reply = Refused | OutOfOrder(expected: nat) | Blocked | Raised(error: Error) | Took(samples: map<Key, Sample>) | Silent

  function EndOrder(g: Group, phase: Phase): Group {
    g.(gen := g.gen + 1, slots := map[], tasks := map[], phase := phase)
  }

  /** `start` with an order already resolved. */
  ghost function Start(c: Config, g: Group, order: seq<nat>): Group {
    if g.phase == Closed then g
    else Admit(c, EndOrder(g, Idle).(order := order, head := 0, next := 0, stop := None, prev := map[], phase := Running))
  }

  function Release(g: Group, id: nat): Group {
    if id >= |g.heap| then g
    else
      var h := Bump(g.heap, id, -1);
      var p := (h[id].key, h[id].anchor);
      g.(heap := h, tasks := if h[id].refs <= 0 && p in g.tasks && g.tasks[p] == id then g.tasks - {p} else g.tasks)
  }

  /** Release the first `i` members' tasks of a slot. */
  function ReleaseKeys(c: Config, g: Group, m: map<Key, nat>, i: nat): Group
    requires i <= |c.keys|
  {
    if i == 0 then g
    else
      var g1 := ReleaseKeys(c, g, m, i - 1);
      if c.keys[i - 1] in m then Release(g1, m[c.keys[i - 1]]) else g1
  }

  function AnchorOfTask(g: Group, id: nat): int {
    if id < |g.heap| then g.heap[id].anchor else 0
  }

  function SampleOf(g: Group, key: Key, id: nat): Sample {
    var a := AnchorOfTask(g, id);
    Sample(if id < |g.heap| && g.heap[id].Succeeded() then g.heap[id].outcome.value.value else Windows([]), a,
           !(key in g.prev && g.prev[key] == a))
  }

  function Samples(g: Group, m: map<Key, nat>): map<Key, Sample> {
    map k | k in m :: SampleOf(g, k, m[k])
  }

  function Deliver(c: Config, g: Group, m: map<Key, nat>): Group {
    ReleaseKeys(c, g, m, |c.keys|).(
      prev := g.prev + (map k | k in m :: AnchorOfTask(g, m[k])),
      last := g.last + m)
  }

  ghost function Take(c: Config, g: Group, k: int): (Group, Reply) {
    if g.phase != Running || g.head >= |g.order| then (g, Refused)
    else if k != g.order[g.head] then (g, OutOfOrder(g.order[g.head]))
    else if g.head !in g.slots || !g.slots[g.head].done then (g, Blocked)
    else
      var slot := g.slots[g.head];
      var g1 := g.(head := g.head + 1, slots := g.slots - {g.head});
      if slot.error.Some? then
        (EndOrder(ReleaseKeys(c, g1, slot.tasks, |c.keys|), Failed), Raised(slot.error.value))
      else
        (Admit(c, Deliver(c, g1, slot.tasks)), Took(Samples(g, slot.tasks)))
  }

  /** `ready`: the next entry is `k` and its slot is settled. */
  predicate Ready(g: Group, k: int) {
    g.phase == Running && g.head < g.next && g.head < |g.order| && g.order[g.head] == k && g.head in g.slots && g.slots[g.head].done
  }

  function Cancel(g: Group): Group {
    if g.phase == Running || g.phase == Failed then EndOrder(g, Cancelled) else g
  }

  /** `close`: cancel, then drop the delivered samples; no later start is accepted. */
  function Close(g: Group): Group {
    if g.phase == Closed then g else Cancel(g).(phase := Closed, last := map[])
  }

  // ---- a worker finishes -----------------------------------------------------------

  predicate Holds(g: Group, pos: nat, id: nat) {
    pos in g.slots && id < |g.heap| && g.heap[id].key in g.slots[pos].tasks && g.slots[pos].tasks[g.heap[id].key] == id
  }

  /** Settle every slot in [lo, hi) that holds task `id`. */
  function CheckRange(c: Config, g: Group, id: nat, lo: nat, hi: nat): Group
    requires lo <= hi
    decreases hi - lo
  {
    if lo == hi then g
    else
      var g1 := CheckRange(c, g, id, lo, hi - 1);
      if Holds(g1, hi - 1, id) then CheckSlot(c, g1, hi - 1) else g1
  }

  /** Record an outcome; one whose order is gone (or that is already recorded) is dropped. */
  function Record(c: Config, g: Group, id: nat, outcome: Result<Data, Error>): Group
    requires id < |g.heap|
  {
    g.(heap := g.heap[id := g.heap[id].(outcome := Some(outcome))],
       size := if outcome.Ok? then g.size[g.heap[id].key := c.nbytes(outcome.value)] else g.size)
  }

  ghost function Finish(c: Config, g: Group, id: nat, outcome: Result<Data, Error>): Group {
    if id >= |g.heap| || g.heap[id].gen != g.gen || g.heap[id].Done() then g
    else
      var g1 := Record(c, g, id, outcome);
      Admit(c, if g.head <= g.next then CheckRange(c, g1, id, g.head, g.next) else g1)
  }

  // ---- runs ---------------------------------------------------------------------------

  datatype Event =
    | EvStart(order: seq<nat>)
    | EvTake(k: int)
    | EvCancel
    | EvClose
    | EvFinish(id: nat, outcome: Result<Data, Error>)

  ghost function Step(c: Config, g: Group, e: Event): (Group, Reply) {
    match e
    case EvStart(order) => (Start(c, g, order), Silent)
    case EvTake(k) => Take(c, g, k)
    case EvCancel => (Cancel(g), Silent)
    case EvClose => (Close(g), Silent)
    case EvFinish(id, outcome) => (Finish(c, g, id, outcome), Silent)
  }

  /** An event the system can produce: orders name existing epochs, and a decode that does
      not fail yields the member's sample at the task's own time. */
  ghost predicate Possible(c: Config, g: Group, e: Event) {
    match e
    case EvStart(order) => order != [] && forall i :: 0 <= i < |order| ==> order[i] < |c.bounds|
    case EvFinish(id, outcome) => id < |g.heap| && (outcome.Ok? ==> outcome == c.decode(g.heap[id].key, g.heap[id].t))
    case _ => true
  }

  /** A run with the same failures every time: each decode gives exactly what it must. */
  ghost predicate Faithful(c: Config, g: Group, e: Event) {
    e.EvFinish? ==> e.id < |g.heap| && e.outcome == c.decode(g.heap[e.id].key, g.heap[e.id].t)
  }

  ghost function Run(c: Config, g: Group, events: seq<Event>): Group
    decreases |events|
  {
    if events == [] then g
    else Step(c, Run(c, g, events[..|events| - 1]), events[|events| - 1]).0
  }

  /** Every event of the run is possible when it happens. */
  ghost predicate PossibleRun(c: Config, g: Group, events: seq<Event>)
    decreases |events|
  {
    events == [] ||
    (var front := events[..|events| - 1];
     PossibleRun(c, g, front) && Possible(c, Run(c, g, front), events[|events| - 1]))
  }

  ghost predicate FaithfulRun(c: Config, g: Group, events: seq<Event>)
    decreases |events|
  {
    events == [] ||
    (var front := events[..|events| - 1];
     FaithfulRun(c, g, front) && Faithful(c, Run(c, g, front), events[|events| - 1]))
  }

  // ---- orders -----------------------------------------------------------------------------

  datatype OrderSpec = Forward | Reverse | Explicit(epochs: seq<int>)

  function Upto(n: nat): (s: seq<nat>)
    ensures |s| == n && forall i :: 0 <= i < n ==> s[i] == i
  {
    seq(n, i => i)
  }

  function Downfrom(n: nat): (s: seq<nat>)
    ensures |s| == n && forall i :: 0 <= i < n ==> s[i] == n - 1 - i
  {
    seq(n, i requires 0 <= i < n => n - 1 - i)
  }

  /** The list of epochs an order names, before it is checked or trimmed. */
  function Listing(n: nat, order: OrderSpec): seq<int> {
    match order
    case Forward => Upto(n)
    case Reverse => Downfrom(n)
    case Explicit(epochs) => epochs
  }

  ghost predicate GoodListing(n: nat, s: seq<int>) {
    s != [] && forall i :: 0 <= i < |s| ==> 0 <= s[i] < n
  }

  /** `tail` is `s` from its first entry equal to `e` on. */
  ghost predicate TrimmedTo(s: seq<int>, e: int, tail: seq<int>) {
    exists i :: 0 <= i < |s| && s[i] == e && e !in s[..i] && tail == s[i..]
  }
}
