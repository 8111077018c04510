/** Many processes fetching one key into one shared store: check, lock, check again, stage,
    replace, write the manifest, with a crash possible between any two file operations.
    The key is static (no freshness policy), not a local file, has no declared checksum, and
    nothing evicts it. */
module CacheProtocol {
  import opened Wrappers

  type Bytes = seq<int>

  /** What the manifest pins: the content hash and the length. */
  datatype Manifest = Manifest(hash: int, bytes: nat)

  function ManifestOf(hash: Bytes -> int, content: Bytes): Manifest {
    Manifest(hash(content), |content|)
  }

  /** How one fetch ended. A path is returned; `content` is what it held at that moment. */
  datatype Outcome = Hit(manifest: Manifest, content: Bytes) | Downloaded(manifest: Manifest, content: Bytes) | Unavailable

  /** Where one fetcher is. The phases from Locked to Leaving hold the key's lock. */
  datatype Phase =
    | Idle
    | SawBlob
    | WantsLock
    | Locked
    | SawLocked
    | Missed
    | Fetching(candidate: nat)
    | Staged(staged: Bytes)
    | Hashed(staged: Bytes, digest: int)
    | Unlinked(staged: Bytes, digest: int)
    | Replaced(staged: Bytes, digest: int)
    | Leaving(outcome: Outcome)
    | Returned(outcome: Outcome)
    | Crashed
  {
    predicate Holds() {
      Locked? || SawLocked? || Missed? || Fetching? || Staged? || Hashed? || Unlinked? || Replaced? || Leaving?
    }
  }

  /** The store's files for the key, the lock's holder, the fetchers, and two counters: how
      often a transport ran and how often a manifest was committed. */
  datatype World = World(
    blob: Option<Bytes>,
    manifest: Option<Manifest>,
    lock: Option<nat>,
    fetchers: seq<Phase>,
    transports: nat,
    commits: nat)

  /** One fetcher's next file operation. `Transport` says what the candidate's transport did:
      Some(content) staged in full, or None when it failed. */
  datatype Event =
    | LookBlob(i: nat)
    | LookManifest(i: nat)
    | TakeLock(i: nat)
    | RelookBlob(i: nat)
    | RelookManifest(i: nat)
    | ReadPrior(i: nat)
    | Transport(i: nat, got: Option<Bytes>)
    | Hash(i: nat)
    | Unlink(i: nat)
    | Replace(i: nat)
    | WriteManifest(i: nat)
    | Unlock(i: nat)
    | Crash(i: nat)

  predicate CanStep(w: World, e: Event) {
    e.i < |w.fetchers| &&
    var p := w.fetchers[e.i];
    match e
    case LookBlob(_) => p.Idle?
    case LookManifest(_) => p.SawBlob?
    case TakeLock(_) => p.WantsLock? && w.lock.None?
    case RelookBlob(_) => p.Locked?
    case RelookManifest(_) => p.SawLocked?
    case ReadPrior(_) => p.Missed?
    case Transport(_, _) => p.Fetching?
    case Hash(_) => p.Staged?
    case Unlink(_) => p.Hashed?
    case Replace(_) => p.Unlinked?
    case WriteManifest(_) => p.Replaced?
    case Unlock(_) => p.Leaving?
    case Crash(_) => !p.Returned? && !p.Crashed?
  }

  /** What the path holds when a hit hands it out. */
  function Found(w: World): Outcome
    requires w.manifest.Some?
  {
    Hit(w.manifest.value, if w.blob.Some? then w.blob.value else [])
  }

  function At(w: World, i: nat, p: Phase): World
    requires i < |w.fetchers|
  {
    w.(fetchers := w.fetchers[i := p])
  }

  /** One step of the protocol, with `candidates` urls to try. */
  function Step(hash: Bytes -> int, candidates: nat, w: World, e: Event): World
    requires CanStep(w, e)
  {
    var p := w.fetchers[e.i];
    match e
    case LookBlob(i) => At(w, i, if w.blob.None? then WantsLock else SawBlob)
    case LookManifest(i) => At(w, i, if w.manifest.None? then WantsLock else Returned(Found(w)))
    case TakeLock(i) => At(w.(lock := Some(i)), i, Locked)
    case RelookBlob(i) => At(w, i, if w.blob.None? then Missed else SawLocked)
    case RelookManifest(i) => At(w, i, if w.manifest.None? then Missed else Leaving(Found(w)))
    case ReadPrior(i) => At(w, i, if candidates == 0 then Leaving(Unavailable) else Fetching(0))
    case Transport(i, got) =>
      At(w.(transports := w.transports + 1), i,
         match got
         case Some(content) => Staged(content)
         case None => if p.candidate + 1 < candidates then Fetching(p.candidate + 1) else Leaving(Unavailable))
    case Hash(i) => At(w, i, Hashed(p.staged, hash(p.staged)))
    case Unlink(i) => At(w.(blob := None), i, Unlinked(p.staged, p.digest))
    case Replace(i) => At(w.(blob := Some(p.staged)), i, Replaced(p.staged, p.digest))
    case WriteManifest(i) =>
      var m := Manifest(p.digest, |p.staged|);
      At(w.(manifest := Some(m), commits := w.commits + 1), i, Leaving(Downloaded(m, if w.blob.Some? then w.blob.value else [])))
    case Unlock(i) => At(w.(lock := None), i, Returned(p.outcome))
    case Crash(i) => At(w.(lock := if p.Holds() then None else w.lock), i, Crashed)
  }

  /** What the store holds at first: nothing, a blob a crashed process left without manifest,
      or an entry committed earlier. */
  datatype Start = Empty | Leftover(blob: Bytes) | Entry(content: Bytes)

  /** `n` fetchers on such a store. An entry found there counts as committed once. */
  function Fresh(hash: Bytes -> int, n: nat, start: Start): World {
    match start
    case Empty => World(None, None, None, seq(n, i => Idle), 0, 0)
    case Leftover(blob) => World(Some(blob), None, None, seq(n, i => Idle), 0, 0)
    case Entry(content) => World(Some(content), Some(ManifestOf(hash, content)), None, seq(n, i => Idle), 0, 1)
  }

  ghost function After(hash: Bytes -> int, candidates: nat, w: World, events: seq<Event>): Option<World>
    decreases |events|
  {
    if events == [] then Some(w)
    else match After(hash, candidates, w, events[..|events| - 1])
      case None => None
      case Some(v) => if CanStep(v, events[|events| - 1]) then Some(Step(hash, candidates, v, events[|events| - 1])) else None
  }

  // ---- what every step keeps ---------------------------------------------------------------

  /** The blob is the manifest's: complete and matching its hash and length. */
  ghost predicate Matches(hash: Bytes -> int, m: Manifest, blob: Option<Bytes>) {
    blob.Some? && m == ManifestOf(hash, blob.value)
  }

  /** What a fetcher knows in its phase. */
  ghost predicate PhaseOk(hash: Bytes -> int, w: World, i: nat)
    requires i < |w.fetchers|
  {
    var p := w.fetchers[i];
    && (p.Holds() <==> w.lock == Some(i))
    && (p.Missed? || p.Fetching? || p.Staged? || p.Hashed? || p.Unlinked? || p.Replaced? ==> w.manifest.None?)
    && (p.Hashed? || p.Unlinked? || p.Replaced? ==> p.digest == hash(p.staged))
    && (p.Replaced? ==> w.blob == Some(p.staged))
    && (p.Leaving? || p.Returned? ==> OutcomeOk(hash, w, p.outcome))
  }

  /** An entry handed out is complete, matches its manifest, and is still what is stored. */
  ghost predicate OutcomeOk(hash: Bytes -> int, w: World, o: Outcome) {
    !o.Unavailable? ==> w.manifest == Some(o.manifest) && w.blob == Some(o.content) && o.manifest == ManifestOf(hash, o.content)
  }

  ghost predicate Inv(hash: Bytes -> int, w: World) {
    && (w.manifest.Some? ==> Matches(hash, w.manifest.value, w.blob))
    && (w.lock.Some? ==> w.lock.value < |w.fetchers|)
    && w.commits == (if w.manifest.Some? then 1 else 0)
    && (forall i :: 0 <= i < |w.fetchers| ==> PhaseOk(hash, w, i))
  }

  lemma StepKeepsInv(hash: Bytes -> int, candidates: nat, w: World, e: Event)
    requires Inv(hash, w) && CanStep(w, e)
    ensures Inv(hash, Step(hash, candidates, w, e))
  {
    var w1, i := Step(hash, candidates, w, e), e.i;
    assert PhaseOk(hash, w, i);
    forall j | 0 <= j < |w.fetchers| && j != i
      ensures PhaseOk(hash, w1, j)
    {
      assert PhaseOk(hash, w, j);
      assert w1.fetchers[j] == w.fetchers[j];
    }
    assert PhaseOk(hash, w1, i);
  }

  lemma {:induction false} AfterKeepsInv(hash: Bytes -> int, candidates: nat, w: World, events: seq<Event>)
    requires Inv(hash, w) && After(hash, candidates, w, events).Some?
    ensures Inv(hash, After(hash, candidates, w, events).value) && |After(hash, candidates, w, events).value.fetchers| == |w.fetchers|
    decreases |events|
  {
    if events != [] {
      var front := events[..|events| - 1];
      AfterKeepsInv(hash, candidates, w, front);
      hide Inv;
      StepKeepsInv(hash, candidates, After(hash, candidates, w, front).value, events[|events| - 1]);
    }
  }

  // ---- safety ---------------------------------------------------------------------------------

  /** A manifest present means a complete blob that matches it; every entry handed out was
      such a blob and still is what the store holds; at most one download is ever committed;
      and at most one live fetcher is past the lock. */
  ghost predicate Safe(hash: Bytes -> int, w: World) {
    && (w.manifest.Some? ==> w.blob.Some? && w.manifest.value.hash == hash(w.blob.value) && w.manifest.value.bytes == |w.blob.value|)
    && (forall i :: 0 <= i < |w.fetchers| && w.fetchers[i].Returned? && !w.fetchers[i].outcome.Unavailable? ==> Delivers(hash, w, w.fetchers[i].outcome))
    && w.commits <= 1 && (w.commits == 1 <==> w.manifest.Some?)
    && (forall i, j :: 0 <= i < j < |w.fetchers| ==> !(w.fetchers[i].Holds() && w.fetchers[j].Holds()))
  }

  ghost predicate Delivers(hash: Bytes -> int, w: World, o: Outcome)
    requires !o.Unavailable?
  {
    o.manifest.hash == hash(o.content) && o.manifest.bytes == |o.content| && w.blob == Some(o.content) && w.manifest == Some(o.manifest)
  }

  lemma InvIsSafe(hash: Bytes -> int, w: World)
    requires Inv(hash, w)
    ensures Safe(hash, w)
  {
    forall i | 0 <= i < |w.fetchers|
      ensures w.fetchers[i].Holds() ==> w.lock == Some(i)
      ensures w.fetchers[i].Returned? && !w.fetchers[i].outcome.Unavailable? ==> Delivers(hash, w, w.fetchers[i].outcome)
    {
      assert PhaseOk(hash, w, i);
    }
  }

  /** Safety in every interleaving of any number of fetchers, with crashes at any step. */
  lemma CacheIsSafe(hash: Bytes -> int, candidates: nat, n: nat, start: Start, events: seq<Event>)
    requires After(hash, candidates, Fresh(hash, n, start), events).Some?
    ensures Safe(hash, After(hash, candidates, Fresh(hash, n, start), events).value)
  {
    AfterKeepsInv(hash, candidates, Fresh(hash, n, start), events);
    hide After, Inv, Safe;
    InvIsSafe(hash, After(hash, candidates, Fresh(hash, n, start), events).value);
  }

  lemma StepKeepsCommitted(hash: Bytes -> int, candidates: nat, w: World, e: Event)
    requires Inv(hash, w) && CanStep(w, e) && w.manifest.Some?
    ensures var w1 := Step(hash, candidates, w, e);
            w1.manifest == w.manifest && w1.blob == w.blob && w1.transports == w.transports
  {
    assert PhaseOk(hash, w, e.i);
  }

  /** Once committed an entry is final: no later step, of a crash-prone run or not, touches
      the blob or the manifest, or runs a transport. */
  lemma {:induction false} CommittedForGood(hash: Bytes -> int, candidates: nat, w: World, events: seq<Event>)
    requires Inv(hash, w) && w.manifest.Some? && After(hash, candidates, w, events).Some?
    ensures var w1 := After(hash, candidates, w, events).value;
            w1.manifest == w.manifest && w1.blob == w.blob && w1.transports == w.transports
    decreases |events|
  {
    if events != [] {
      var front := events[..|events| - 1];
      CommittedForGood(hash, candidates, w, front);
      AfterKeepsInv(hash, candidates, w, front);
      hide Inv, Step;
      StepKeepsCommitted(hash, candidates, After(hash, candidates, w, front).value, events[|events| - 1]);
    }
  }

  /** And from then on it is served without the lock: a fetcher that comes looks at the blob and
      the manifest, and returns that entry, whoever holds the lock. */
  lemma HitNeedsNoLock(hash: Bytes -> int, candidates: nat, w: World, i: nat)
    requires Inv(hash, w) && w.manifest.Some? && i < |w.fetchers| && w.fetchers[i].Idle?
    ensures CanStep(w, LookBlob(i))
    ensures var w1 := Step(hash, candidates, w, LookBlob(i));
            CanStep(w1, LookManifest(i)) &&
            var w2 := Step(hash, candidates, w1, LookManifest(i));
            w2 == w.(fetchers := w.fetchers[i := Returned(Hit(w.manifest.value, w.blob.value))])
  {
    hide PhaseOk;
    assert w.fetchers[i := SawBlob][i := Returned(Hit(w.manifest.value, w.blob.value))] == w.fetchers[i := Returned(Hit(w.manifest.value, w.blob.value))];
  }

  // ---- exactly once ---------------------------------------------------------------------------

  /** No crash, and every transport that runs delivers. */
  predicate Smooth(e: Event) {
    !e.Crash? && (e.Transport? ==> e.got.Some?)
  }

  /** The phases between a delivered transport and the committed manifest. */
  predicate Delivered(p: Phase) {
    p.Staged? || p.Hashed? || p.Unlinked? || p.Replaced?
  }

  /** `earlier` is 1 if the store held an entry from the start, else 0. */
  ghost predicate SmoothInv(w: World, earlier: nat) {
    && (forall i :: 0 <= i < |w.fetchers| ==> SmoothPhase(w.fetchers[i]))
    && (w.lock.Some? ==> w.lock.value < |w.fetchers|)
    && w.transports + earlier == (if w.manifest.Some? || (w.lock.Some? && Delivered(w.fetchers[w.lock.value])) then 1 else 0)
    && (w.manifest.None? ==> forall i :: 0 <= i < |w.fetchers| ==> !w.fetchers[i].Returned? && !w.fetchers[i].Leaving?)
  }

  predicate SmoothPhase(p: Phase) {
    !p.Crashed? && (p.Leaving? || p.Returned? ==> !p.outcome.Unavailable?)
  }

  lemma SmoothStep(hash: Bytes -> int, candidates: nat, w: World, e: Event, earlier: nat)
    requires Inv(hash, w) && CanStep(w, e) && SmoothInv(w, earlier) && Smooth(e) && candidates > 0
    ensures SmoothInv(Step(hash, candidates, w, e), earlier)
  {
    assert PhaseOk(hash, w, e.i);
    if w.lock.Some? { assert PhaseOk(hash, w, w.lock.value); }
  }

  lemma {:induction false} SmoothRun(hash: Bytes -> int, candidates: nat, w: World, events: seq<Event>, earlier: nat)
    requires Inv(hash, w) && SmoothInv(w, earlier) && candidates > 0 && After(hash, candidates, w, events).Some?
    requires forall k :: 0 <= k < |events| ==> Smooth(events[k])
    ensures SmoothInv(After(hash, candidates, w, events).value, earlier)
    decreases |events|
  {
    if events != [] {
      var front := events[..|events| - 1];
      SmoothRun(hash, candidates, w, front, earlier);
      AfterKeepsInv(hash, candidates, w, front);
      hide Inv, Step, SmoothInv;
      SmoothStep(hash, candidates, After(hash, candidates, w, front).value, events[|events| - 1], earlier);
    }
  }

  /** Without crashes and failed downloads, whatever the interleaving, the transport runs at
      most once, and exactly once by the time any fetcher returns; never if the store held an
      entry from the start. */
  lemma TransportRunsOnce(hash: Bytes -> int, candidates: nat, n: nat, start: Start, events: seq<Event>)
    requires candidates > 0 && After(hash, candidates, Fresh(hash, n, start), events).Some?
    requires forall k :: 0 <= k < |events| ==> Smooth(events[k])
    ensures var w := After(hash, candidates, Fresh(hash, n, start), events).value;
            var once := if start.Entry? then 0 else 1;
            w.transports <= once && forall i :: 0 <= i < |w.fetchers| && w.fetchers[i].Returned? ==> w.transports == once && !w.fetchers[i].outcome.Unavailable?
  {
    SmoothRun(hash, candidates, Fresh(hash, n, start), events, if start.Entry? then 1 else 0);
    hide After;
  }

  // ---- every candidate in turn -------------------------------------------------------------------

  /** What the transports run by fetcher `i` gave, in order. */
  ghost function Tries(events: seq<Event>, i: nat): seq<Option<Bytes>> {
    if events == [] then []
    else
      var front, e := Tries(events[..|events| - 1], i), events[|events| - 1];
      if e.Transport? && e.i == i then front + [e.got] else front
  }

  ghost predicate AllFailed(tries: seq<Option<Bytes>>, n: nat) {
    |tries| == n && forall k :: 0 <= k < n ==> tries[k].None?
  }

  /** All but the last failed, and the last gave `content`. */
  ghost predicate LastGave(tries: seq<Option<Bytes>>, content: Bytes, candidates: nat) {
    0 < |tries| <= candidates && AllFailed(tries[..|tries| - 1], |tries| - 1) && tries[|tries| - 1] == Some(content)
  }

  ghost predicate TriesFit(p: Phase, tries: seq<Option<Bytes>>, candidates: nat) {
    match p
    case Crashed => true
    case Fetching(k) => k < candidates && AllFailed(tries, k)
    case Staged(b) => LastGave(tries, b, candidates)
    case Hashed(b, _) => LastGave(tries, b, candidates)
    case Unlinked(b, _) => LastGave(tries, b, candidates)
    case Replaced(b, _) => LastGave(tries, b, candidates)
    case Leaving(o) => OutcomeFits(o, tries, candidates)
    case Returned(o) => OutcomeFits(o, tries, candidates)
    case _ => tries == []
  }

  /** A hit ran no transport; a download is what the last one run gave, after every one before
      it failed; and nothing is given up before every candidate has failed. */
  ghost predicate OutcomeFits(o: Outcome, tries: seq<Option<Bytes>>, candidates: nat) {
    match o
    case Hit(_, _) => tries == []
    case Downloaded(_, content) => LastGave(tries, content, candidates)
    case Unavailable => AllFailed(tries, candidates)
  }

  lemma OneMoreTry(tries: seq<Option<Bytes>>, got: Option<Bytes>, k: nat, candidates: nat)
    requires AllFailed(tries, k) && k < candidates
    ensures match got
            case None => AllFailed(tries + [got], k + 1)
            case Some(content) => LastGave(tries + [got], content, candidates)
  {
    assert (tries + [got])[..k] == tries;
  }

  lemma StepFits(hash: Bytes -> int, candidates: nat, w: World, e: Event, i: nat, tries: seq<Option<Bytes>>)
    requires Inv(hash, w) && CanStep(w, e) && i < |w.fetchers| && TriesFit(w.fetchers[i], tries, candidates)
    ensures TriesFit(Step(hash, candidates, w, e).fetchers[i], if e.Transport? && e.i == i then tries + [e.got] else tries, candidates)
  {
    hide AllFailed, LastGave;
    if e.i == i {
      assert PhaseOk(hash, w, i);
      hide Inv, PhaseOk;
      if e.Transport? {
        OneMoreTry(tries, e.got, w.fetchers[i].candidate, candidates);
      } else {
        NothingFailed();
      }
    }
  }

  lemma NothingFailed()
    ensures AllFailed([], 0)
  {
  }

  lemma {:induction false} RunFits(hash: Bytes -> int, candidates: nat, n: nat, start: Start, events: seq<Event>, i: nat)
    requires After(hash, candidates, Fresh(hash, n, start), events).Some? && i < n
    ensures var w := After(hash, candidates, Fresh(hash, n, start), events).value;
            i < |w.fetchers| && TriesFit(w.fetchers[i], Tries(events, i), candidates)
    decreases |events|
  {
    hide Inv, Step, TriesFit, CanStep;
    if events == [] {
      FreshFits(hash, candidates, n, start, i);
    } else {
      var front := events[..|events| - 1];
      RunFits(hash, candidates, n, start, front, i);
      FreshIsGood(hash, n, start);
      AfterKeepsInv(hash, candidates, Fresh(hash, n, start), front);
      var w := After(hash, candidates, Fresh(hash, n, start), front).value;
      StepFits(hash, candidates, w, events[|events| - 1], i, Tries(front, i));
      StepKeepsInv(hash, candidates, w, events[|events| - 1]);
      AfterKeepsInv(hash, candidates, Fresh(hash, n, start), events);
    }
  }

  lemma FreshFits(hash: Bytes -> int, candidates: nat, n: nat, start: Start, i: nat)
    requires i < n
    ensures i < |Fresh(hash, n, start).fetchers| && TriesFit(Fresh(hash, n, start).fetchers[i], [], candidates)
  {
  }

  lemma FreshIsGood(hash: Bytes -> int, n: nat, start: Start)
    ensures Inv(hash, Fresh(hash, n, start)) && |Fresh(hash, n, start).fetchers| == n
  {
  }

  /** However fetchers interleave and crash, each that returns went through the candidates in
      turn: one that gives up has run as many transports as there are candidates, and all
      failed; one that downloaded hands out what the last it ran gave, after all before failed;
      one that found an entry ran none. */
  lemma EveryCandidateIsTried(hash: Bytes -> int, candidates: nat, n: nat, start: Start, events: seq<Event>, i: nat)
    requires After(hash, candidates, Fresh(hash, n, start), events).Some? && i < n
    ensures var w := After(hash, candidates, Fresh(hash, n, start), events).value;
            i < |w.fetchers| && (w.fetchers[i].Returned? ==> OutcomeFits(w.fetchers[i].outcome, Tries(events, i), candidates))
  {
    hide After, OutcomeFits;
    RunFits(hash, candidates, n, start, events, i);
  }

  lemma InvLetsSomeoneStep(hash: Bytes -> int, w: World, i: nat)
    requires Inv(hash, w) && i < |w.fetchers| && !w.fetchers[i].Returned? && !w.fetchers[i].Crashed?
    ensures exists e :: CanStep(w, e) && !e.Crash?
  {
    var j := if w.fetchers[i].WantsLock? && w.lock.Some? then w.lock.value else i;
    assert PhaseOk(hash, w, i) && PhaseOk(hash, w, j);
    hide Inv, PhaseOk;
    assert CanStep(w, NextOf(j, w.fetchers[j]));
  }

  /** Nobody waits for a dead process: while any fetcher is neither done nor crashed, some
      fetcher can take a step other than crashing, whatever crashed before. */
  lemma SomeoneCanStep(hash: Bytes -> int, candidates: nat, n: nat, start: Start, events: seq<Event>, i: nat)
    requires After(hash, candidates, Fresh(hash, n, start), events).Some?
    requires i < |After(hash, candidates, Fresh(hash, n, start), events).value.fetchers|
    requires var p := After(hash, candidates, Fresh(hash, n, start), events).value.fetchers[i]; !p.Returned? && !p.Crashed?
    ensures exists e :: CanStep(After(hash, candidates, Fresh(hash, n, start), events).value, e) && !e.Crash?
  {
    AfterKeepsInv(hash, candidates, Fresh(hash, n, start), events);
    hide After, Inv, CanStep;
    InvLetsSomeoneStep(hash, After(hash, candidates, Fresh(hash, n, start), events).value, i);
  }

  /** The steps a fetcher has left at most. */
  function Left(p: Phase, candidates: nat): nat {
    match p
    case Idle => candidates + 11
    case SawBlob => candidates + 10
    case WantsLock => candidates + 9
    case Locked => candidates + 8
    case SawLocked => candidates + 7
    case Missed => candidates + 6
    case Fetching(k) => if k < candidates then candidates - k + 5 else 6
    case Staged(_) => 5
    case Hashed(_, _) => 4
    case Unlinked(_, _) => 3
    case Replaced(_, _) => 2
    case Leaving(_) => 1
    case _ => 0
  }

  ghost function AllLeft(ps: seq<Phase>, candidates: nat): nat {
    if ps == [] then 0 else Left(ps[0], candidates) + AllLeft(ps[1..], candidates)
  }

  lemma {:induction false} LeftAfter(ps: seq<Phase>, i: nat, p: Phase, candidates: nat)
    requires i < |ps|
    ensures AllLeft(ps[i := p], candidates) + Left(ps[i], candidates) == AllLeft(ps, candidates) + Left(p, candidates)
  {
    hide Left;
    if i == 0 {
      assert ps[0 := p][1..] == ps[1..];
    } else {
      assert ps[i := p][1..] == ps[1..][i - 1 := p];
      LeftAfter(ps[1..], i - 1, p, candidates);
    }
  }

  /** Every step, a crash included, brings one fetcher nearer its end. */
  lemma StepUsesUp(hash: Bytes -> int, candidates: nat, w: World, e: Event)
    requires CanStep(w, e)
    ensures AllLeft(Step(hash, candidates, w, e).fetchers, candidates) < AllLeft(w.fetchers, candidates)
  {
    LeftAfter(w.fetchers, e.i, Step(hash, candidates, w, e).fetchers[e.i], candidates);
  }

  lemma {:induction false} RunUsesUp(hash: Bytes -> int, candidates: nat, w: World, events: seq<Event>)
    requires After(hash, candidates, w, events).Some?
    ensures |events| + AllLeft(After(hash, candidates, w, events).value.fetchers, candidates) <= AllLeft(w.fetchers, candidates)
    decreases |events|
  {
    hide AllLeft, Step, CanStep;
    if events != [] {
      var front := events[..|events| - 1];
      RunUsesUp(hash, candidates, w, front);
      StepUsesUp(hash, candidates, After(hash, candidates, w, front).value, events[|events| - 1]);
    }
  }

  lemma {:induction false} IdleLeft(ps: seq<Phase>, candidates: nat)
    requires forall i :: 0 <= i < |ps| ==> ps[i].Idle?
    ensures AllLeft(ps, candidates) == |ps| * (candidates + 11)
  {
    if ps != [] {
      IdleLeft(ps[1..], candidates);
      assert |ps| * (candidates + 11) == (|ps| - 1) * (candidates + 11) + (candidates + 11);
    }
  }

  /** No run goes on for ever: each fetcher takes at most eleven steps and one for each
      candidate. Since someone can always step, every run can be brought to its end, with
      every fetcher returned or crashed. */
  lemma RunsEnd(hash: Bytes -> int, candidates: nat, n: nat, start: Start, events: seq<Event>)
    requires After(hash, candidates, Fresh(hash, n, start), events).Some?
    ensures |events| <= n * (candidates + 11)
  {
    hide After;
    RunUsesUp(hash, candidates, Fresh(hash, n, start), events);
    IdleLeft(Fresh(hash, n, start).fetchers, candidates);
  }

  /** The one step a phase allows. */
  function NextOf(i: nat, p: Phase): Event {
    match p
    case Idle => LookBlob(i)
    case SawBlob => LookManifest(i)
    case WantsLock => TakeLock(i)
    case Locked => RelookBlob(i)
    case SawLocked => RelookManifest(i)
    case Missed => ReadPrior(i)
    case Fetching(_) => Transport(i, None)
    case Staged(_) => Hash(i)
    case Hashed(_, _) => Unlink(i)
    case Unlinked(_, _) => Replace(i)
    case Replaced(_, _) => WriteManifest(i)
    case Leaving(_) => Unlock(i)
    case _ => Crash(i)
  }
}
