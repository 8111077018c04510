/** The (size, mtime) memo of a local source's digest, under the racy-timestamp rule, with
    writers and any number of checks running at once. */
module Memo {
  import opened Wrappers

  type Bytes = seq<int>
  type Path = int

  const MEMO_CAP := 512
  /** Two seconds, in nanoseconds. */
  const RACY_MARGIN := 2_000_000_000

  /** One state of a file: its bytes (None: absent), the mtime the write set, and when. */
  datatype Version = Version(content: Option<Bytes>, mtime: int, time: int)

  /** A remembered digest: the fingerprint it is filed under, when its read began, and which
      versions of the file were current when the read began and ended. */
  datatype Entry = Entry(size: nat, mtime: int, digest: int, hashedAt: int, startVer: nat, endVer: nat)

  datatype State = Current | Replaced | Missing | Unknown

  /** What a check compares with: the manifest's hash and length. */
  datatype Pinned = Pinned(hash: int, bytes: nat)

  function Verdict(digest: int, m: Pinned): State {
    if digest == m.hash then Current else Replaced
  }

  /** Where one check is. `ver` is the version its stat saw, `before` the entry remembered at
      that moment. */
  datatype Check =
    | Idle
    | Statted(p: Path, m: Pinned, size: nat, mtime: int, ver: nat, before: Option<Entry>)
    | Reading(p: Path, m: Pinned, size: nat, mtime: int, ver: nat, hashedAt: int, startVer: nat)
    | Read(p: Path, m: Pinned, size: nat, mtime: int, ver: nat, hashedAt: int, startVer: nat, endVer: nat, digest: int)
    | FromMemo(p: Path, m: Pinned, ver: nat, before: Option<Entry>, entry: Entry, state: State)
    | Done(state: State)

  datatype World = World(clock: int, files: map<Path, seq<Version>>, memo: map<Path, Entry>, checks: seq<Check>)

  datatype Event =
    | Tick(d: nat)
    | Write(p: Path, content: Option<Bytes>, mtime: int)
    | Stat(i: nat, p: Path, m: Pinned)
    | StatFails(i: nat)
    | Lookup(i: nat)
    | EndRead(i: nat, torn: int)
    | ReadFails(i: nat, state: State)
    | Remember(i: nat)

  function Now(w: World, p: Path): nat {
    if p in w.files && w.files[p] != [] then |w.files[p]| - 1 else 0
  }

  /** A memo entry may be used for a stat's fingerprint. */
  predicate Usable(memo: map<Path, Entry>, p: Path, size: nat, mtime: int) {
    p in memo && memo[p].size == size && memo[p].mtime == mtime && mtime < memo[p].hashedAt - RACY_MARGIN
  }

  /** A possible event. A write at time `w` sets an mtime in (w - 2 s, w]. */
  predicate Possible(w: World, e: Event) {
    match e
    case Tick(_) => true
    case Write(p, _, mtime) => p in w.files && w.clock - RACY_MARGIN < mtime <= w.clock
    case Stat(i, p, _) => i < |w.checks| && (w.checks[i].Idle? || w.checks[i].Done? || w.checks[i].FromMemo?) && p in w.files && w.files[p] != []
    case StatFails(i) => i < |w.checks| && (w.checks[i].Idle? || w.checks[i].Done? || w.checks[i].FromMemo?)
    case Lookup(i) => i < |w.checks| && w.checks[i].Statted?
    case EndRead(i, _) => i < |w.checks| && w.checks[i].Reading?
    case ReadFails(i, state) => i < |w.checks| && w.checks[i].Reading? && (state.Missing? || state.Unknown?)
    case Remember(i) => i < |w.checks| && w.checks[i].Read?
  }

  /** What one read yields: the digest of the version it read, unless a write overlapped it;
      then anything (`torn`). */
  function DigestOf(hash: Bytes -> int, w: World, c: Check, torn: int): int
    requires c.Reading?
  {
    if c.p in w.files && c.startVer == Now(w, c.p) && c.startVer < |w.files[c.p]| && w.files[c.p][c.startVer].content.Some?
    then hash(w.files[c.p][c.startVer].content.value)
    else torn
  }

  function Remembered(memo: map<Path, Entry>, p: Path, e: Entry): map<Path, Entry> {
    (if |memo| >= MEMO_CAP then map[] else memo)[p := e]
  }

  function Step(hash: Bytes -> int, w: World, e: Event): World
    requires Possible(w, e)
  {
    match e
    case Tick(d) => w.(clock := w.clock + d)
    case Write(p, content, mtime) => w.(files := w.files[p := w.files[p] + [Version(content, mtime, w.clock)]])
    case Stat(i, p, m) =>
      var v := w.files[p][|w.files[p]| - 1];
      w.(checks := w.checks[i := if v.content.None? then Done(Missing)
                                 else if |v.content.value| != m.bytes then Done(Replaced)
                                 else Statted(p, m, |v.content.value|, v.mtime, |w.files[p]| - 1, if p in w.memo then Some(w.memo[p]) else None)])
    case StatFails(i) => w.(checks := w.checks[i := Done(Unknown)])
    case Lookup(i) =>
      var c := w.checks[i];
      w.(checks := w.checks[i := if Usable(w.memo, c.p, c.size, c.mtime) then FromMemo(c.p, c.m, c.ver, c.before, w.memo[c.p], Verdict(w.memo[c.p].digest, c.m))
                                 else Reading(c.p, c.m, c.size, c.mtime, c.ver, w.clock, Now(w, c.p))])
    case EndRead(i, torn) =>
      var c := w.checks[i];
      w.(checks := w.checks[i := Read(c.p, c.m, c.size, c.mtime, c.ver, c.hashedAt, c.startVer, Now(w, c.p), DigestOf(hash, w, c, torn))])
    case ReadFails(i, state) => w.(checks := w.checks[i := Done(state)])
    case Remember(i) =>
      var c := w.checks[i];
      w.(memo := Remembered(w.memo, c.p, Entry(c.size, c.mtime, c.digest, c.hashedAt, c.startVer, c.endVer)),
         checks := w.checks[i := Done(Verdict(c.digest, c.m))])
  }

  ghost function After(hash: Bytes -> int, w: World, events: seq<Event>): Option<World>
    decreases |events|
  {
    if events == [] then Some(w)
    else match After(hash, w, events[..|events| - 1])
      case None => None
      case Some(v) => if Possible(v, events[|events| - 1]) then Some(Step(hash, v, events[|events| - 1])) else None
  }

  /** Some files, nothing remembered, `n` idle checks; writes before the start obey the rule. */
  ghost predicate Fresh(w: World) {
    && w.memo == map[] && (forall i :: 0 <= i < |w.checks| ==> w.checks[i].Idle?)
    && (forall p :: p in w.files ==> w.files[p] != [] && GoodHistory(w.clock, w.files[p]))
  }

  /** Writes happened in order, up to now, each with an mtime at most 2 s before it. */
  ghost predicate GoodHistory(clock: int, vs: seq<Version>) {
    && (forall k :: 0 <= k < |vs| ==> vs[k].time - RACY_MARGIN < vs[k].mtime <= vs[k].time && vs[k].time <= clock)
    && (forall j, k :: 0 <= j < k < |vs| ==> vs[j].time <= vs[k].time)
  }

  // ---- what every run keeps --------------------------------------------------------------

  /** A digest whose read saw one version only is that version's, and every later version was
      written no earlier than the read began. */
  ghost predicate GoodRead(hash: Bytes -> int, vs: seq<Version>, digest: int, hashedAt: int, startVer: nat, endVer: nat) {
    && startVer <= endVer < |vs|
    && (forall k :: startVer < k < |vs| ==> vs[k].time >= hashedAt)
    && (startVer == endVer && vs[startVer].content.Some? ==> digest == hash(vs[startVer].content.value))
  }

  ghost predicate GoodEntry(hash: Bytes -> int, w: World, p: Path, e: Entry) {
    p in w.files && e.hashedAt <= w.clock && GoodRead(hash, w.files[p], e.digest, e.hashedAt, e.startVer, e.endVer)
  }

  /** The version a check statted had the fingerprint it holds. */
  ghost predicate Saw(vs: seq<Version>, ver: nat, size: nat, mtime: int) {
    ver < |vs| && vs[ver].content.Some? && |vs[ver].content.value| == size && vs[ver].mtime == mtime
  }

  ghost predicate GoodCheck(hash: Bytes -> int, w: World, c: Check) {
    match c
    case Statted(p, _, size, mtime, ver, before) => p in w.files && Saw(w.files[p], ver, size, mtime) && (before.Some? ==> before.value.endVer <= ver)
    case Reading(p, _, size, mtime, ver, hashedAt, startVer) =>
      p in w.files && Saw(w.files[p], ver, size, mtime) && startVer < |w.files[p]| && hashedAt <= w.clock && (forall k :: startVer < k < |w.files[p]| ==> w.files[p][k].time >= hashedAt)
    case Read(p, _, size, mtime, ver, hashedAt, startVer, endVer, digest) => p in w.files && Saw(w.files[p], ver, size, mtime) && hashedAt <= w.clock && GoodRead(hash, w.files[p], digest, hashedAt, startVer, endVer)
    case FromMemo(p, m, ver, before, entry, state) =>
      && GoodEntry(hash, w, p, entry) && Saw(w.files[p], ver, entry.size, entry.mtime) && entry.mtime < entry.hashedAt - RACY_MARGIN
      && state == Verdict(entry.digest, m) && (before.Some? ==> before.value.endVer <= ver)
    case _ => true
  }

  ghost predicate Inv(hash: Bytes -> int, w: World) {
    && (forall p :: p in w.files ==> w.files[p] != [] && GoodHistory(w.clock, w.files[p]))
    && (forall p :: p in w.memo ==> GoodEntry(hash, w, p, w.memo[p]))
    && (forall i :: 0 <= i < |w.checks| ==> GoodCheck(hash, w, w.checks[i]))
    && |w.memo| <= MEMO_CAP
  }

  /** One more version, written now. */
  lemma ReadOutlivesWrite(hash: Bytes -> int, vs: seq<Version>, v: Version, digest: int, hashedAt: int, startVer: nat, endVer: nat)
    requires GoodRead(hash, vs, digest, hashedAt, startVer, endVer) && hashedAt <= v.time
    ensures GoodRead(hash, vs + [v], digest, hashedAt, startVer, endVer)
  {
  }

  lemma CheckOutlivesWrite(hash: Bytes -> int, w: World, e: Event, c: Check)
    requires Inv(hash, w) && Possible(w, e) && e.Write? && GoodCheck(hash, w, c)
    ensures GoodCheck(hash, Step(hash, w, e), c)
  {
    var v := Version(e.content, e.mtime, w.clock);
    hide GoodRead, Inv;
    if (c.Read? || c.FromMemo?) && c.p == e.p {
      var r := if c.Read? then Entry(0, 0, c.digest, c.hashedAt, c.startVer, c.endVer) else c.entry;
      ReadOutlivesWrite(hash, w.files[e.p], v, r.digest, r.hashedAt, r.startVer, r.endVer);
    }
  }

  lemma EntryOutlivesWrite(hash: Bytes -> int, w: World, e: Event, p: Path)
    requires Inv(hash, w) && Possible(w, e) && e.Write? && p in w.memo
    ensures GoodEntry(hash, Step(hash, w, e), p, w.memo[p])
  {
    hide GoodRead, GoodCheck;
    assert GoodEntry(hash, w, p, w.memo[p]);
    var r := w.memo[p];
    if p == e.p { ReadOutlivesWrite(hash, w.files[p], Version(e.content, e.mtime, w.clock), r.digest, r.hashedAt, r.startVer, r.endVer); }
  }

  lemma HistoryOutlivesWrite(clock: int, vs: seq<Version>, v: Version)
    requires GoodHistory(clock, vs) && v.time == clock && clock - RACY_MARGIN < v.mtime <= clock
    ensures GoodHistory(clock, vs + [v])
  {
  }

  lemma WriteKeepsInv(hash: Bytes -> int, w: World, e: Event)
    requires Inv(hash, w) && Possible(w, e) && e.Write?
    ensures Inv(hash, Step(hash, w, e))
  {
    hide GoodCheck, GoodEntry, GoodHistory;
    forall i | 0 <= i < |w.checks|
      ensures GoodCheck(hash, Step(hash, w, e), w.checks[i])
    {
      CheckOutlivesWrite(hash, w, e, w.checks[i]);
    }
    forall p | p in w.memo
      ensures GoodEntry(hash, Step(hash, w, e), p, w.memo[p])
    {
      EntryOutlivesWrite(hash, w, e, p);
    }
    HistoryOutlivesWrite(w.clock, w.files[e.p], Version(e.content, e.mtime, w.clock));
  }

  lemma TickKeepsInv(hash: Bytes -> int, w: World, d: nat)
    requires Inv(hash, w)
    ensures Inv(hash, Step(hash, w, Tick(d)))
  {
    var w1 := Step(hash, w, Tick(d));
    hide GoodRead;
    forall i | 0 <= i < |w.checks|
      ensures GoodCheck(hash, w1, w.checks[i])
    {
      assert GoodCheck(hash, w, w.checks[i]);
    }
    forall p | p in w.memo
      ensures GoodEntry(hash, w1, p, w.memo[p])
    {
      assert GoodEntry(hash, w, p, w.memo[p]);
    }
  }

  /** A step of one check leaves the files alone, and the other checks where they are. */
  lemma CheckStepKeepsInv(hash: Bytes -> int, w: World, w1: World, i: nat)
    requires Inv(hash, w) && i < |w.checks| && |w1.checks| == |w.checks| && w1 == w.(checks := w.checks[i := w1.checks[i]], memo := w1.memo)
    requires GoodCheck(hash, w, w1.checks[i])
    requires |w1.memo| <= MEMO_CAP && forall p :: p in w1.memo ==> GoodEntry(hash, w, p, w1.memo[p])
    ensures Inv(hash, w1)
  {
    hide GoodRead, Saw;
    forall j | 0 <= j < |w.checks|
      ensures GoodCheck(hash, w1, w1.checks[j])
    {
      if j != i { assert GoodCheck(hash, w, w.checks[j]); }
    }
    forall p | p in w1.memo
      ensures GoodEntry(hash, w1, p, w1.memo[p])
    {
      assert GoodEntry(hash, w, p, w1.memo[p]);
    }
  }

  lemma StepKeepsInv(hash: Bytes -> int, w: World, e: Event)
    requires Inv(hash, w) && Possible(w, e)
    ensures Inv(hash, Step(hash, w, e)) && |Step(hash, w, e).checks| == |w.checks|
  {
    hide Inv, GoodCheck, GoodEntry, Usable, Remembered;
    match e
    case Tick(d) => TickKeepsInv(hash, w, d);
    case Write(_, _, _) => WriteKeepsInv(hash, w, e);
    case Remember(i) => RememberKeepsInv(hash, w, i);
    case _ =>
      MovedIsGood(hash, w, e);
      MemoIsGood(hash, w);
      CheckStepKeepsInv(hash, w, Step(hash, w, e), e.i);
  }

  lemma MemoIsGood(hash: Bytes -> int, w: World)
    requires Inv(hash, w)
    ensures |w.memo| <= MEMO_CAP && forall p :: p in w.memo ==> GoodEntry(hash, w, p, w.memo[p])
  {
    hide GoodEntry, GoodCheck, GoodHistory;
  }

  /** A check that moves on without remembering knows no more than it may. */
  lemma MovedIsGood(hash: Bytes -> int, w: World, e: Event)
    requires Inv(hash, w) && Possible(w, e) && !e.Tick? && !e.Write? && !e.Remember?
    ensures GoodCheck(hash, w, Step(hash, w, e).checks[e.i])
  {
    hide GoodHistory, Usable, Remembered;
    if e.Lookup? {
      LookupIsGood(hash, w, e.i);
    } else if e.EndRead? {
      assert GoodCheck(hash, w, w.checks[e.i]);
    } else if e.Stat? {
      if e.p in w.memo { assert GoodEntry(hash, w, e.p, w.memo[e.p]); }
    }
  }

  lemma RememberKeepsInv(hash: Bytes -> int, w: World, i: nat)
    requires Inv(hash, w) && Possible(w, Remember(i))
    ensures Inv(hash, Step(hash, w, Remember(i)))
  {
    hide GoodHistory;
    assert GoodCheck(hash, w, w.checks[i]);
    RememberedSize(w.memo, w.checks[i].p, Step(hash, w, Remember(i)).memo[w.checks[i].p]);
    hide GoodRead, Saw;
    CheckStepKeepsInv(hash, w, Step(hash, w, Remember(i)), i);
  }

  lemma LookupIsGood(hash: Bytes -> int, w: World, i: nat)
    requires Inv(hash, w) && i < |w.checks| && w.checks[i].Statted?
    ensures GoodCheck(hash, w, Step(hash, w, Lookup(i)).checks[i])
  {
    var c := w.checks[i];
    assert GoodCheck(hash, w, c);
    if c.p in w.memo { assert GoodEntry(hash, w, c.p, w.memo[c.p]); }
  }

  lemma RememberedSize(memo: map<Path, Entry>, p: Path, e: Entry)
    requires |memo| <= MEMO_CAP
    ensures |Remembered(memo, p, e)| <= MEMO_CAP
  {
    var base: map<Path, Entry> := if |memo| >= MEMO_CAP then map[] else memo;
    assert base[p := e].Keys == base.Keys + {p};
    assert |base.Keys + {p}| <= |base.Keys| + 1;
    assert |base.Keys| == |base| && |base[p := e].Keys| == |base[p := e]|;
  }

  lemma FreshIsGood(hash: Bytes -> int, w: World)
    requires Fresh(w)
    ensures Inv(hash, w)
  {
  }

  lemma {:induction false} RunKeepsInv(hash: Bytes -> int, w: World, events: seq<Event>)
    requires Inv(hash, w) && After(hash, w, events).Some?
    ensures Inv(hash, After(hash, w, events).value)
    decreases |events|
  {
    if events != [] {
      var front := events[..|events| - 1];
      RunKeepsInv(hash, w, front);
      hide Inv, Step, Possible;
      StepKeepsInv(hash, After(hash, w, front).value, events[|events| - 1]);
    }
  }

  // ---- soundness ------------------------------------------------------------------------------

  /** The verdict rehashing version `ver` would give. */
  ghost predicate IsRehash(hash: Bytes -> int, w: World, p: Path, ver: nat, m: Pinned, state: State) {
    p in w.files && ver < |w.files[p]| && w.files[p][ver].content.Some? && state == (if hash(w.files[p][ver].content.value) == m.hash then Current else Replaced)
  }

  /** An entry whose mtime was two seconds past when its read began says nothing of later
      versions: a check that finds its fingerprint saw the version the read began with, or an
      earlier one. */
  lemma HitSawNoLaterVersion(hash: Bytes -> int, w: World, c: Check)
    requires Inv(hash, w) && c.FromMemo? && GoodCheck(hash, w, c)
    ensures c.ver <= c.entry.startVer
  {
    assert GoodHistory(w.clock, w.files[c.p]);
  }

  lemma HitIsSound(hash: Bytes -> int, w: World, i: nat)
    requires Inv(hash, w) && i < |w.checks| && w.checks[i].FromMemo? && w.checks[i].entry.endVer <= w.checks[i].ver
    ensures IsRehash(hash, w, w.checks[i].p, w.checks[i].ver, w.checks[i].m, w.checks[i].state)
  {
    hide GoodHistory;
    assert GoodCheck(hash, w, w.checks[i]);
    HitSawNoLaterVersion(hash, w, w.checks[i]);
  }

  /** Memo soundness over every run of writes and checks, writes that race with hashing
      included: a verdict served from the memo is the one rehashing the content at the check's
      own stat would give, provided no write came between that stat and the end of the read
      the entry is from. */
  lemma MemoIsSound(hash: Bytes -> int, w0: World, events: seq<Event>, i: nat)
    requires Fresh(w0) && After(hash, w0, events).Some?
    requires var w := After(hash, w0, events).value;
             i < |w.checks| && w.checks[i].FromMemo? && w.checks[i].entry.endVer <= w.checks[i].ver
    ensures var w := After(hash, w0, events).value;
            IsRehash(hash, w, w.checks[i].p, w.checks[i].ver, w.checks[i].m, w.checks[i].state)
  {
    hide After, Inv, Fresh, IsRehash;
    FreshIsGood(hash, w0);
    RunKeepsInv(hash, w0, events);
    HitIsSound(hash, After(hash, w0, events).value, i);
  }

  /** That proviso always holds of an entry remembered before the check's stat, so checks that
      do not overlap on one file are always right. */
  lemma EarlierEntriesAreSound(hash: Bytes -> int, w0: World, events: seq<Event>, i: nat)
    requires Fresh(w0) && After(hash, w0, events).Some?
    requires var w := After(hash, w0, events).value;
             i < |w.checks| && w.checks[i].FromMemo? && w.checks[i].before == Some(w.checks[i].entry)
    ensures var w := After(hash, w0, events).value;
            IsRehash(hash, w, w.checks[i].p, w.checks[i].ver, w.checks[i].m, w.checks[i].state)
  {
    RunKeepsInv(hash, w0, events);
    var w := After(hash, w0, events).value;
    assert GoodCheck(hash, w, w.checks[i]);
    MemoIsSound(hash, w0, events, i);
  }

  // ---- when a read is saved -----------------------------------------------------------------------

  /** What one check does when it comes to its memo: it is served, without a read, exactly when
      the path is remembered under the same length and mtime, by a read that began more than
      two seconds past that mtime. */
  lemma ServedIff(hash: Bytes -> int, w: World, i: nat)
    requires Possible(w, Lookup(i))
    ensures var c, c1 := w.checks[i], Step(hash, w, Lookup(i)).checks[i];
            && (c1.FromMemo? || c1.Reading?)
            && (c1.FromMemo? <==> c.p in w.memo && w.memo[c.p].size == c.size && w.memo[c.p].mtime == c.mtime && c.mtime + 2_000_000_000 < w.memo[c.p].hashedAt)
            && (c1.FromMemo? ==> c1.state == if w.memo[c.p].digest == c.m.hash then Current else Replaced)
  {
  }

  /** What the stat alone decides: an absent file is missing, one of another length replaced;
      only a file of the manifest's length goes on. */
  lemma StatDecides(hash: Bytes -> int, w: World, i: nat, p: Path, m: Pinned)
    requires Possible(w, Stat(i, p, m))
    ensures var now, c1 := w.files[p][|w.files[p]| - 1], Step(hash, w, Stat(i, p, m)).checks[i];
            match now.content
            case None => c1 == Done(Missing)
            case Some(b) => if |b| != m.bytes then c1 == Done(Replaced) else c1.Statted? && c1.p == p && c1.m == m && c1.size == |b| && c1.mtime == now.mtime
  {
  }

  /** A file is read once while it stays as it is: a read that began more than two seconds past
      the file's mtime, and that no write disturbed, is remembered, and until the file is
      written, or its entry replaced or dropped, every check that stats it is served. */
  lemma QuietFileIsReadOnce(hash: Bytes -> int, w: World, i: nat, w2: World, j: nat)
    requires Possible(w, Remember(i)) && w.checks[i].mtime + 2_000_000_000 < w.checks[i].hashedAt
    requires var c, w1 := w.checks[i], Step(hash, w, Remember(i));
             && c.p in w1.memo && c.p in w2.memo && w2.memo[c.p] == w1.memo[c.p]
             && j < |w2.checks| && w2.checks[j].Statted? && w2.checks[j].p == c.p && w2.checks[j].size == c.size && w2.checks[j].mtime == c.mtime
    ensures var c1 := Step(hash, w2, Lookup(j)).checks[j];
            c1.FromMemo? && c1.entry.digest == w.checks[i].digest
  {
    hide MEMO_CAP;
    ServedIff(hash, w2, j);
  }

  // ---- exactly when ----------------------------------------------------------------------------------

  /** The same run, with every disturbed read yielding the digest `d`. */
  function Retorn(events: seq<Event>, d: int): (r: seq<Event>)
    ensures |r| == |events| && forall k :: 0 <= k < |r| ==> r[k] == RetornOne(events[k], d)
  {
    seq(|events|, k requires 0 <= k < |events| => RetornOne(events[k], d))
  }

  function RetornOne(e: Event, d: int): Event {
    if e.EndRead? then EndRead(e.i, d) else e
  }

  /** The same but for digests and the verdicts they gave. */
  ghost predicate AlikeEntry(a: Entry, b: Entry) {
    a.(digest := 0) == b.(digest := 0)
  }

  ghost predicate AlikeCheck(a: Check, b: Check) {
    if a.Statted? && b.Statted? then a.p == b.p && a.m == b.m && a.size == b.size && a.mtime == b.mtime && a.ver == b.ver
    else if a.Read? && b.Read? then a.(digest := 0) == b.(digest := 0)
    else if a.FromMemo? && b.FromMemo? then a.p == b.p && a.m == b.m && a.ver == b.ver && AlikeEntry(a.entry, b.entry)
    else if a.Done? then b.Done?
    else a == b
  }

  ghost predicate AlikeMemo(a: map<Path, Entry>, b: map<Path, Entry>) {
    a.Keys == b.Keys && forall p :: p in a ==> AlikeEntry(a[p], b[p])
  }

  ghost predicate AlikeWorld(v: World, w: World) {
    v.clock == w.clock && v.files == w.files && AlikeMemo(v.memo, w.memo)
    && |v.checks| == |w.checks| && forall i :: 0 <= i < |v.checks| ==> AlikeCheck(v.checks[i], w.checks[i])
  }

  lemma AlikeRemembered(a: map<Path, Entry>, b: map<Path, Entry>, p: Path, x: Entry, y: Entry)
    requires AlikeMemo(a, b) && AlikeEntry(x, y)
    ensures AlikeMemo(Remembered(a, p, x), Remembered(b, p, y))
  {
    assert |a| == |a.Keys| == |b.Keys| == |b|;
  }

  /** No step looks at a digest but to give a verdict: worlds alike stay alike, whatever their
      disturbed reads yield. */
  lemma AlikeStep(hash: Bytes -> int, v: World, w: World, e: Event, d: int)
    requires AlikeWorld(v, w) && Possible(v, e)
    ensures Possible(w, RetornOne(e, d)) && AlikeWorld(Step(hash, v, e), Step(hash, w, RetornOne(e, d)))
  {
    hide Remembered, Usable;
    if e.Remember? {
      AlikeRemember(hash, v, w, e);
    } else if !e.Tick? && !e.Write? {
      assert AlikeCheck(v.checks[e.i], w.checks[e.i]);
      if e.Lookup? { AlikeUsable(v.memo, w.memo, v.checks[e.i]); }
    }
  }

  lemma AlikeUsable(a: map<Path, Entry>, b: map<Path, Entry>, c: Check)
    requires AlikeMemo(a, b) && c.Statted?
    ensures Usable(a, c.p, c.size, c.mtime) <==> Usable(b, c.p, c.size, c.mtime)
    ensures Usable(a, c.p, c.size, c.mtime) ==> c.p in a && AlikeEntry(a[c.p], b[c.p])
  {
  }

  lemma AlikeRemember(hash: Bytes -> int, v: World, w: World, e: Event)
    requires AlikeWorld(v, w) && Possible(v, e) && e.Remember?
    ensures Possible(w, e) && AlikeWorld(Step(hash, v, e), Step(hash, w, e))
  {
    hide Remembered;
    assert AlikeCheck(v.checks[e.i], w.checks[e.i]);
    var a, b := v.checks[e.i], w.checks[e.i];
    AlikeRemembered(v.memo, w.memo, a.p, Entry(a.size, a.mtime, a.digest, a.hashedAt, a.startVer, a.endVer), Entry(b.size, b.mtime, b.digest, b.hashedAt, b.startVer, b.endVer));
  }

  lemma {:induction false} AlikeRun(hash: Bytes -> int, w0: World, events: seq<Event>, d: int)
    requires After(hash, w0, events).Some?
    ensures After(hash, w0, Retorn(events, d)).Some? && AlikeWorld(After(hash, w0, events).value, After(hash, w0, Retorn(events, d)).value)
    decreases |events|
  {
    if events != [] {
      var front, e := events[..|events| - 1], events[|events| - 1];
      AlikeRun(hash, w0, front, d);
      assert Retorn(events, d)[..|events| - 1] == Retorn(front, d);
      hide AlikeWorld, Step, Possible;
      AlikeStep(hash, After(hash, w0, front).value, After(hash, w0, Retorn(front, d)).value, e, d);
    }
  }

  /** A read that a write overlapped, or of an absent file, yielded `d`. */
  ghost predicate TornIs(w: World, p: Path, e: Entry, d: int) {
    p in w.files && e.startVer <= e.endVer < |w.files[p]|
    && (e.startVer < e.endVer || w.files[p][e.startVer].content.None? ==> e.digest == d)
  }

  ghost predicate TornCheck(w: World, c: Check, d: int) {
    match c
    case Reading(p, _, _, _, _, _, startVer) => p in w.files && startVer < |w.files[p]|
    case Statted(p, _, _, _, _, _) => p in w.files && w.files[p] != []
    case Read(p, _, _, _, _, hashedAt, startVer, endVer, digest) => TornIs(w, p, Entry(0, 0, digest, hashedAt, startVer, endVer), d)
    case FromMemo(p, _, _, _, entry, _) => TornIs(w, p, entry, d)
    case _ => true
  }

  ghost predicate TornWorld(w: World, d: int) {
    (forall p :: p in w.memo ==> TornIs(w, p, w.memo[p], d)) && forall i :: 0 <= i < |w.checks| ==> TornCheck(w, w.checks[i], d)
  }

  lemma TornStep(hash: Bytes -> int, w: World, e: Event, d: int)
    requires TornWorld(w, d) && Possible(w, RetornOne(e, d))
    ensures TornWorld(Step(hash, w, RetornOne(e, d)), d)
  {
    hide TornCheck, TornIs, Usable, Remembered;
    var e1 := RetornOne(e, d);
    var w1 := Step(hash, w, e1);
    forall p | p in w1.memo
      ensures TornIs(w1, p, w1.memo[p], d)
    {
      TornMemo(hash, w, e1, d, p);
    }
    forall i | 0 <= i < |w1.checks|
      ensures TornCheck(w1, w1.checks[i], d)
    {
      TornMoves(hash, w, e1, d, i);
    }
  }

  lemma TornMemo(hash: Bytes -> int, w: World, e: Event, d: int, p: Path)
    requires TornWorld(w, d) && Possible(w, e) && p in Step(hash, w, e).memo
    ensures TornIs(Step(hash, w, e), p, Step(hash, w, e).memo[p], d)
  {
    hide Usable, DigestOf;
    if e.Remember? { assert TornCheck(w, w.checks[e.i], d); }
    if p in w.memo { assert TornIs(w, p, w.memo[p], d); }
  }

  lemma TornMoves(hash: Bytes -> int, w: World, e: Event, d: int, i: nat)
    requires TornWorld(w, d) && Possible(w, e) && (e.EndRead? ==> e.torn == d) && i < |w.checks|
    ensures TornCheck(Step(hash, w, e), Step(hash, w, e).checks[i], d)
  {
    hide Remembered;
    assert TornCheck(w, w.checks[i], d);
    if e.Lookup? && e.i == i && w.checks[i].p in w.memo { assert TornIs(w, w.checks[i].p, w.memo[w.checks[i].p], d); }
  }

  lemma {:induction false} TornRun(hash: Bytes -> int, w0: World, events: seq<Event>, d: int)
    requires Fresh(w0) && After(hash, w0, Retorn(events, d)).Some?
    ensures TornWorld(After(hash, w0, Retorn(events, d)).value, d)
    decreases |events|
  {
    if events != [] {
      var front, e := events[..|events| - 1], events[|events| - 1];
      assert Retorn(events, d)[..|events| - 1] == Retorn(front, d);
      TornRun(hash, w0, front, d);
      hide TornWorld, Step, Possible;
      TornStep(hash, After(hash, w0, Retorn(front, d)).value, e, d);
    }
  }

  /** In this run check `i` is served from the memo, and what it is served gives the manifest
      `m` the verdict that rehashing the content at its stat would. */
  ghost predicate ServedRight(hash: Bytes -> int, w0: World, events: seq<Event>, i: nat, m: Pinned) {
    After(hash, w0, events).Some? &&
    var w := After(hash, w0, events).value;
    i < |w.checks| && w.checks[i].FromMemo? && IsRehash(hash, w, w.checks[i].p, w.checks[i].ver, m, Verdict(w.checks[i].entry.digest, m))
  }

  /** A served verdict is right for every manifest, and whatever disturbed reads yield, if and
      only if no write disturbed the read behind it and what was read hashes like what the
      check's stat saw. */
  lemma ServedRightIff(hash: Bytes -> int, w0: World, events: seq<Event>, i: nat)
    requires Fresh(w0) && After(hash, w0, events).Some?
    requires var w := After(hash, w0, events).value; i < |w.checks| && w.checks[i].FromMemo?
    ensures var w := After(hash, w0, events).value;
            var c := w.checks[i];
            && c.p in w.files && c.ver <= c.entry.startVer <= c.entry.endVer < |w.files[c.p]| && w.files[c.p][c.ver].content.Some?
            && ((forall d: int, m: Pinned :: ServedRight(hash, w0, Retorn(events, d), i, m))
                <==> c.entry.startVer == c.entry.endVer && w.files[c.p][c.entry.startVer].content.Some?
                     && hash(w.files[c.p][c.entry.startVer].content.value) == hash(w.files[c.p][c.ver].content.value))
  {
    var w := After(hash, w0, events).value;
    var c := w.checks[i];
    ServedFacts(hash, w0, events, i);
    var vs := w.files[c.p];
    var seen := hash(vs[c.ver].content.value);
    hide After, Fresh, ServedRight;
    if forall d: int, m: Pinned :: ServedRight(hash, w0, Retorn(events, d), i, m) {
      RetornServed(hash, w0, events, i, seen + 1, Pinned(seen, 0));
      assert ServedRight(hash, w0, Retorn(events, seen + 1), i, Pinned(seen, 0));
    }
    if c.entry.startVer == c.entry.endVer && vs[c.entry.startVer].content.Some? && hash(vs[c.entry.startVer].content.value) == seen {
      forall d: int, m: Pinned
        ensures ServedRight(hash, w0, Retorn(events, d), i, m)
      {
        RetornServed(hash, w0, events, i, d, m);
      }
    }
  }

  lemma ServedFacts(hash: Bytes -> int, w0: World, events: seq<Event>, i: nat)
    requires Fresh(w0) && After(hash, w0, events).Some?
    requires var w := After(hash, w0, events).value; i < |w.checks| && w.checks[i].FromMemo?
    ensures var w := After(hash, w0, events).value;
            var c := w.checks[i];
            && c.p in w.files && c.ver <= c.entry.startVer && GoodRead(hash, w.files[c.p], c.entry.digest, c.entry.hashedAt, c.entry.startVer, c.entry.endVer)
            && w.files[c.p][c.ver].content.Some?
  {
    RunKeepsInv(hash, w0, events);
    var w := After(hash, w0, events).value;
    hide After;
    assert GoodCheck(hash, w, w.checks[i]);
    HitSawNoLaterVersion(hash, w, w.checks[i]);
  }

  /** What check `i` is served when disturbed reads yield `d`. */
  lemma RetornServed(hash: Bytes -> int, w0: World, events: seq<Event>, i: nat, d: int, m: Pinned)
    requires Fresh(w0) && After(hash, w0, events).Some?
    requires var w := After(hash, w0, events).value; i < |w.checks| && w.checks[i].FromMemo?
    ensures var w := After(hash, w0, events).value;
            var c := w.checks[i];
            && c.p in w.files && c.ver <= c.entry.startVer <= c.entry.endVer < |w.files[c.p]| && w.files[c.p][c.ver].content.Some?
            && var vs := w.files[c.p];
               var digest := if c.entry.startVer == c.entry.endVer && vs[c.entry.startVer].content.Some? then hash(vs[c.entry.startVer].content.value) else d;
               ServedRight(hash, w0, Retorn(events, d), i, m) <==> Verdict(digest, m) == Verdict(hash(vs[c.ver].content.value), m)
  {
    ServedFacts(hash, w0, events, i);
    AlikeRun(hash, w0, events, d);
    TornRun(hash, w0, events, d);
    var w, v := After(hash, w0, events).value, After(hash, w0, Retorn(events, d)).value;
    assert AlikeCheck(w.checks[i], v.checks[i]);
    ServedFacts(hash, w0, Retorn(events, d), i);
    assert TornCheck(v, v.checks[i], d);
  }

  /** Every later version of a file hashes unlike version `ver`. */
  ghost predicate NewHashesAfter(hash: Bytes -> int, vs: seq<Version>, ver: nat) {
    ver < |vs| && vs[ver].content.Some? && forall k :: ver < k < |vs| && vs[k].content.Some? ==> hash(vs[k].content.value) != hash(vs[ver].content.value)
  }

  /** Exactly when, in the order of events: where writes change the hash, a served verdict is
      right for every manifest, and whatever disturbed reads yield, if and only if no write
      came between the check's stat and the end of the read behind the verdict. */
  lemma MemoIsSoundIff(hash: Bytes -> int, w0: World, events: seq<Event>, i: nat)
    requires Fresh(w0) && After(hash, w0, events).Some?
    requires var w := After(hash, w0, events).value;
             i < |w.checks| && w.checks[i].FromMemo? && w.checks[i].p in w.files && NewHashesAfter(hash, w.files[w.checks[i].p], w.checks[i].ver)
    ensures var c := After(hash, w0, events).value.checks[i];
            (forall d: int, m: Pinned :: ServedRight(hash, w0, Retorn(events, d), i, m)) <==> c.entry.endVer <= c.ver
  {
    hide After, ServedRight, Fresh;
    ServedRightIff(hash, w0, events, i);
  }

  // ---- overlapping checks -------------------------------------------------------------------------

  /** The claim without its proviso: every verdict served from the memo is the rehash of the
      content at the check's stat. */
  ghost predicate AlwaysRight(hash: Bytes -> int, w: World) {
    forall i :: 0 <= i < |w.checks| && w.checks[i].FromMemo? ==> IsRehash(hash, w, w.checks[i].p, w.checks[i].ver, w.checks[i].m, w.checks[i].state)
  }

  function FirstByte(b: Bytes): int {
    if b == [] then 0 else b[0]
  }

  lemma OneMore(hash: Bytes -> int, w: World, events: seq<Event>, v: World, e: Event)
    requires After(hash, w, events) == Some(v) && Possible(v, e)
    ensures After(hash, w, events + [e]) == Some(Step(hash, v, e))
  {
    assert (events + [e])[..|events + [e]| - 1] == events;
  }

  const PIN := Pinned(1, 1)
  const OLD_BYTES := Version(Some([1]), 0, 0)
  const NEW_BYTES := Version(Some([2]), 3_000_000_000, 3_000_000_000)
  const WAITING := Statted(0, PIN, 1, 0, 0, None)

  /** A file of one byte, and the two checks at each point of the overlap. */
  function Scene(clock: int, rewritten: bool, memo: map<Path, Entry>, first: Check, second: Check): World {
    World(clock, map[0 := if rewritten then [OLD_BYTES, NEW_BYTES] else [OLD_BYTES]], memo, [first, second])
  }

  const MISFILED := Entry(1, 0, 2, 3_000_000_000, 1, 1)

  lemma BothStat()
    ensures var w0, w1, w2 := Scene(0, false, map[], Idle, Idle), Scene(0, false, map[], WAITING, Idle), Scene(0, false, map[], WAITING, WAITING);
            Possible(w0, Stat(0, 0, PIN)) && Step(FirstByte, w0, Stat(0, 0, PIN)) == w1 && Possible(w1, Stat(1, 0, PIN)) && Step(FirstByte, w1, Stat(1, 0, PIN)) == w2
  {
  }

  lemma Rewrite()
    ensures var w2, w3, w4 := Scene(0, false, map[], WAITING, WAITING), Scene(3_000_000_000, false, map[], WAITING, WAITING), Scene(3_000_000_000, true, map[], WAITING, WAITING);
            var e := Write(0, Some([2]), 3_000_000_000);
            Step(FirstByte, w2, Tick(3_000_000_000)) == w3 && Possible(w3, e) && Step(FirstByte, w3, e) == w4
  {
    var w3, w4 := Scene(3_000_000_000, false, map[], WAITING, WAITING), Scene(3_000_000_000, true, map[], WAITING, WAITING);
    var e := Write(0, Some([2]), 3_000_000_000);
    assert [OLD_BYTES] + [NEW_BYTES] == [OLD_BYTES, NEW_BYTES];
    assert Possible(w3, e);
    assert Step(FirstByte, w3, e).files[0] == w4.files[0];
    assert Step(FirstByte, w3, e).files == w4.files;
  }

  lemma FirstReads()
    ensures var w4 := Scene(3_000_000_000, true, map[], WAITING, WAITING);
            var w5 := Scene(3_000_000_000, true, map[], Reading(0, PIN, 1, 0, 0, 3_000_000_000, 1), WAITING);
            var w6 := Scene(3_000_000_000, true, map[], Read(0, PIN, 1, 0, 0, 3_000_000_000, 1, 1, 2), WAITING);
            Step(FirstByte, w4, Lookup(0)) == w5 && Step(FirstByte, w5, EndRead(0, 0)) == w6
  {
  }

  lemma SecondIsServed()
    ensures var w6 := Scene(3_000_000_000, true, map[], Read(0, PIN, 1, 0, 0, 3_000_000_000, 1, 1, 2), WAITING);
            var w7 := Scene(3_000_000_000, true, map[0 := MISFILED], Done(Replaced), WAITING);
            var w8 := Scene(3_000_000_000, true, map[0 := MISFILED], Done(Replaced), FromMemo(0, PIN, 0, None, MISFILED, Replaced));
            Step(FirstByte, w6, Remember(0)) == w7 && Step(FirstByte, w7, Lookup(1)) == w8 && !AlwaysRight(FirstByte, w8)
  {
    var w8 := Scene(3_000_000_000, true, map[0 := MISFILED], Done(Replaced), FromMemo(0, PIN, 0, None, MISFILED, Replaced));
    assert w8.checks[1].FromMemo?;
    assert !IsRehash(FirstByte, w8, 0, 0, PIN, Replaced);
  }

  lemma TwoMore(w: World, events: seq<Event>, v: World, v1: World, v2: World, e1: Event, e2: Event)
    requires After(FirstByte, w, events) == Some(v) && Possible(v, e1) && Step(FirstByte, v, e1) == v1 && Possible(v1, e2) && Step(FirstByte, v1, e2) == v2
    ensures After(FirstByte, w, events + [e1] + [e2]) == Some(v2)
  {
    hide Step, Possible;
    OneMore(FirstByte, w, events, v, e1);
    OneMore(FirstByte, w, events + [e1], v1, e2);
  }

  /** Without the proviso it fails: two checks stat a file, the file is rewritten three
      seconds on, the first check reads the new bytes and files their digest under the old
      fingerprint, and the second is served it for bytes it never saw. */
  lemma OverlappingChecksMislead() returns (w0: World, events: seq<Event>)
    ensures Fresh(w0) && After(FirstByte, w0, events).Some? && !AlwaysRight(FirstByte, After(FirstByte, w0, events).value)
  {
    w0 := Scene(0, false, map[], Idle, Idle);
    assert Fresh(w0);
    SecondIsServed();
    hide *;
    events := Rewritten();
    events := Served(events);
  }

  /** Both checks stat the file, then it is rewritten. */
  lemma Rewritten() returns (events: seq<Event>)
    ensures After(FirstByte, Scene(0, false, map[], Idle, Idle), events) == Some(Scene(3_000_000_000, true, map[], WAITING, WAITING))
  {
    hide Step;
    var w0, w2 := Scene(0, false, map[], Idle, Idle), Scene(0, false, map[], WAITING, WAITING);
    assert After(FirstByte, w0, []) == Some(w0);
    hide After;
    BothStat();
    TwoMore(w0, [], w0, Scene(0, false, map[], WAITING, Idle), w2, Stat(0, 0, PIN), Stat(1, 0, PIN));
    events := [] + [Stat(0, 0, PIN)] + [Stat(1, 0, PIN)];
    Rewrite();
    TwoMore(w0, events, w2, Scene(3_000_000_000, false, map[], WAITING, WAITING), Scene(3_000_000_000, true, map[], WAITING, WAITING), Tick(3_000_000_000), Write(0, Some([2]), 3_000_000_000));
    events := events + [Tick(3_000_000_000)] + [Write(0, Some([2]), 3_000_000_000)];
  }

  /** The first check reads the new bytes and files their digest, and the second is served it. */
  lemma Served(before: seq<Event>) returns (events: seq<Event>)
    requires After(FirstByte, Scene(0, false, map[], Idle, Idle), before) == Some(Scene(3_000_000_000, true, map[], WAITING, WAITING))
    ensures After(FirstByte, Scene(0, false, map[], Idle, Idle), events)
         == Some(Scene(3_000_000_000, true, map[0 := MISFILED], Done(Replaced), FromMemo(0, PIN, 0, None, MISFILED, Replaced)))
  {
    hide Step, After, AlwaysRight;
    var w0, w4 := Scene(0, false, map[], Idle, Idle), Scene(3_000_000_000, true, map[], WAITING, WAITING);
    var w6 := Scene(3_000_000_000, true, map[], Read(0, PIN, 1, 0, 0, 3_000_000_000, 1, 1, 2), WAITING);
    FirstReads();
    TwoMore(w0, before, w4, Scene(3_000_000_000, true, map[], Reading(0, PIN, 1, 0, 0, 3_000_000_000, 1), WAITING), w6, Lookup(0), EndRead(0, 0));
    events := before + [Lookup(0)] + [EndRead(0, 0)];
    SecondIsServed();
    TwoMore(w0, events, w6, Scene(3_000_000_000, true, map[0 := MISFILED], Done(Replaced), WAITING),
            Scene(3_000_000_000, true, map[0 := MISFILED], Done(Replaced), FromMemo(0, PIN, 0, None, MISFILED, Replaced)), Remember(0), Lookup(1));
    events := events + [Remember(0)] + [Lookup(1)];
  }

  // ---- the object -------------------------------------------------------------------------------------

  /** What `stat` finds: no regular file, nothing it may look at, or a file's fingerprint. */
  datatype Stated = NoFile | Unseen | Regular(size: nat, mtime: int)

  /** How reading the file ends: it is gone by then, it cannot be read, or it has a digest. */
  datatype Outcome = Vanished | Unreadable | Digested(digest: int, startVer: nat, endVer: nat)

  /** The revalidator: the memo and its two critical sections, and one whole check. */
  class SourceRevalidator {
    var seen: map<Path, Entry>
    var fullReads: nat

    constructor ()
      ensures seen == map[] && fullReads == 0
    {
      seen, fullReads := map[], 0;
    }

    method LookupLocked(p: Path, size: nat, mtime: int) returns (e: Option<Entry>)
      ensures e.Some? <==> Usable(seen, p, size, mtime)
      ensures e.Some? <==> p in seen && seen[p].size == size && seen[p].mtime == mtime && mtime + 2_000_000_000 < seen[p].hashedAt
      ensures e.Some? ==> e.value == seen[p]
    {
      if p in seen && seen[p].size == size && seen[p].mtime == mtime && mtime < seen[p].hashedAt - RACY_MARGIN { return Some(seen[p]); }
      return None;
    }

    method RememberLocked(p: Path, e: Entry)
      modifies this
      ensures seen == Remembered(old(seen), p, e) && fullReads == old(fullReads) + 1
      ensures seen == if |old(seen)| < 512 then old(seen)[p := e] else map[p := e]
      ensures |old(seen)| <= 512 ==> |seen| <= 512
    {
      if |seen| <= MEMO_CAP { RememberedSize(seen, p, e); }
      fullReads := fullReads + 1;
      if |seen| >= MEMO_CAP { seen := map[]; }
      seen := seen[p := e];
    }

    /** One whole check, whatever the stat and the read see of a file written meanwhile: no
        regular file is missing, one that cannot be looked at is unknown, and another length
        is replaced, all without a read; then the memo, if it may be used; else a read, which
        is remembered if it comes to its end. */
    method State(p: Path, m: Pinned, st: Stated, now: int, read: Outcome) returns (r: State)
      modifies this
      ensures r == match st
                   case NoFile => Missing
                   case Unseen => Unknown
                   case Regular(size, mtime) =>
                     if size != m.bytes then Replaced
                     else if p in old(seen) && old(seen)[p].size == size && old(seen)[p].mtime == mtime && mtime + 2_000_000_000 < old(seen)[p].hashedAt
                     then (if old(seen)[p].digest == m.hash then Current else Replaced)
                     else match read
                       case Vanished => Missing
                       case Unreadable => Unknown
                       case Digested(digest, _, _) => if digest == m.hash then Current else Replaced
      ensures var hashed := st.Regular? && st.size == m.bytes && !Usable(old(seen), p, st.size, st.mtime) && read.Digested?;
              if hashed then fullReads == old(fullReads) + 1 && seen == Remembered(old(seen), p, Entry(st.size, st.mtime, read.digest, now, read.startVer, read.endVer))
              else fullReads == old(fullReads) && seen == old(seen)
    {
      if st.NoFile? { return Missing; }
      if st.Unseen? { return Unknown; }
      if st.size != m.bytes { return Replaced; }
      var e := LookupLocked(p, st.size, st.mtime);
      if e.Some? { return Verdict(e.value.digest, m); }
      if read.Vanished? { return Missing; }
      if read.Unreadable? { return Unknown; }
      RememberLocked(p, Entry(st.size, st.mtime, read.digest, now, read.startVer, read.endVer));
      return Verdict(read.digest, m);
    }
  }
}
