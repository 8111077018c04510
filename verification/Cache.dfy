/** One process's fetch: the validation ladder, the candidate loop with conditional and
    unconditional attempts, and what a commit leaves in the store. */
module Cache {
  import opened Wrappers

  type Bytes = seq<int>

  /** `fetchedAt` is None when the time recorded does not parse. */
  datatype Manifest = Manifest(url: string, hash: int, bytes: nat, fetchedAt: Option<int>, etag: Option<string>, lastModified: Option<string>)

  // ---- the ladder ----------------------------------------------------------------------

  datatype Freshness = Static | ClosedPeriod | Incomplete(ttl: int)
  datatype Verdict = IsHit | Revalidate | IsMiss

  predicate Present(s: Option<string>) {
    s.Some? && s.value != ""
  }

  predicate HasValidators(m: Manifest) {
    Present(m.etag) || Present(m.lastModified)
  }

  /** Checksum first, then declared immutability, then validators, then the time to live. */
  function Decide(m: Manifest, temporal: Option<Freshness>, expected: Option<int>, now: int): Verdict {
    if expected.Some? then (if m.hash == expected.value then IsHit else IsMiss)
    else if temporal.None? || !temporal.value.Incomplete? then IsHit
    else if HasValidators(m) then Revalidate
    else if m.fetchedAt.Some? && (now - m.fetchedAt.value <= temporal.value.ttl || now < m.fetchedAt.value) then IsHit
    else IsMiss
  }

  /** When a stored entry is served as it is, told from its manifest: with an expected checksum
      exactly when it is pinned to that; else, of a source that cannot change, always; of one
      that can, only without validators to ask with (an etag or a date that is not empty), and
      then while no older than its time to live, or dated in the future, if its date parses. */
  ghost predicate MayServe(m: Manifest, temporal: Option<Freshness>, expected: Option<int>, now: int) {
    match (expected, temporal)
    case (Some(checksum), _) => m.hash == checksum
    case (None, Some(Incomplete(ttl))) =>
      && (m.etag.None? || m.etag.value == "") && (m.lastModified.None? || m.lastModified.value == "")
      && m.fetchedAt.Some? && (now <= m.fetchedAt.value + ttl || now < m.fetchedAt.value)
    case _ => true
  }

  lemma ServesIff(m: Option<Manifest>, temporal: Option<Freshness>, expected: Option<int>, now: int)
    ensures m.Some? ==> (Decide(m.value, temporal, expected, now).IsHit? <==> MayServe(m.value, temporal, expected, now))
  {
  }

  // ---- transports and failures ---------------------------------------------------------

  /** What one transport call answers. `notFound` marks a definitive absence; any other
      failure of a transport carries none. */
  datatype Answer = Content(content: Bytes, etag: Option<string>, lastModified: Option<string>) | NotModified(etag: Option<string>, lastModified: Option<string>) | Failed(notFound: bool)

  /** The world outside: whether a candidate's scheme has a transport, and what that answers
      with validators sent (`true`) or without. */
  datatype Network = Network(known: nat -> bool, answer: (nat, bool) -> Answer)

  datatype Cause = Cause(notFound: bool)

  /** `FetchError.not_found`: some cause, and every one a definitive absence. */
  predicate AllAbsent(causes: seq<Cause>) {
    causes != [] && forall i :: 0 <= i < |causes| ==> causes[i].notFound
  }

  /** How trying one candidate ends. */
  datatype Ending = Delivers(answer: Answer) | Fails(cause: Cause)

  /** The second, unconditional attempt, or the only one. */
  function Unconditional(net: Network, i: nat, stored: bool): Ending {
    match net.answer(i, false)
    case Failed(nf) => Fails(Cause(nf))
    case NotModified(e, lm) => if stored then Delivers(NotModified(e, lm)) else Fails(Cause(false))
    case Content(c, e, lm) => Delivers(Content(c, e, lm))
  }

  /** How candidate `i` ends, stated without the loop: a "not modified" delivers only when the
      entry it confirms is stored; behind validators alone it is asked again without them. */
  function EndOf(net: Network, i: nat, conditional: bool, stored: bool): Ending {
    if !net.known(i) then Fails(Cause(false))
    else if !conditional then Unconditional(net, i, stored)
    else match net.answer(i, true)
      case Failed(nf) => Fails(Cause(nf))
      case NotModified(e, lm) => if stored then Delivers(NotModified(e, lm)) else Unconditional(net, i, stored)
      case Content(c, e, lm) => Delivers(Content(c, e, lm))
  }

  /** The calls candidate `i` receives, in order: (candidate, with validators). */
  function CallsTo(net: Network, i: nat, conditional: bool, stored: bool): (calls: seq<(nat, bool)>)
    ensures |calls| <= 2
    ensures forall k :: 0 <= k < |calls| ==> calls[k].0 == i
    ensures |calls| == 2 ==> calls == [(i, true), (i, false)] && net.answer(i, true).NotModified? && !stored
  {
    if !net.known(i) then []
    else if !conditional then [(i, false)]
    else if net.answer(i, true).NotModified? && !stored then [(i, true), (i, false)]
    else [(i, true)]
  }

  /** An answer that ends a fetch: content, or a "not modified" whose entry is stored. */
  predicate Serves(a: Answer, stored: bool) {
    a.Content? || (a.NotModified? && stored)
  }

  /** How a candidate ends, from its answers alone: the first answer that serves is delivered;
      the second is asked for only after a "not modified" about nothing stored; a candidate
      without a transport, or that is left with such an answer, fails as not absent, and any
      other as its last answer says. */
  lemma CandidateEnds(net: Network, i: nat, conditional: bool, stored: bool)
    ensures !net.known(i) ==> EndOf(net, i, conditional, stored) == Fails(Cause(false))
    ensures net.known(i) && Serves(net.answer(i, conditional), stored) ==> EndOf(net, i, conditional, stored) == Delivers(net.answer(i, conditional))
    ensures net.known(i) && net.answer(i, conditional).Failed? ==> EndOf(net, i, conditional, stored) == Fails(Cause(net.answer(i, conditional).notFound))
    ensures net.known(i) && conditional && net.answer(i, true).NotModified? && !stored ==>
              var second := net.answer(i, false);
              EndOf(net, i, conditional, stored) == if second.Content? then Delivers(second) else Fails(Cause(second.Failed? && second.notFound))
    ensures net.known(i) && !conditional && net.answer(i, false).NotModified? && !stored ==> EndOf(net, i, conditional, stored) == Fails(Cause(false))
    ensures var calls := CallsTo(net, i, conditional, stored);
            && (net.known(i) <==> calls != []) && (calls != [] ==> calls[0] == (i, conditional))
            && (|calls| == 2 <==> net.known(i) && conditional && net.answer(i, true).NotModified? && !stored)
  {
  }

  /** All calls to the first `n` candidates. */
  function CallsUpTo(net: Network, n: nat, conditional: bool, stored: bool): seq<(nat, bool)> {
    if n == 0 then [] else CallsUpTo(net, n - 1, conditional, stored) + CallsTo(net, n - 1, conditional, stored)
  }

  /** The first of `n` candidates that delivers. */
  function FirstDelivering(net: Network, n: nat, conditional: bool, stored: bool): (r: Option<nat>)
    ensures r.Some? ==> r.value < n && EndOf(net, r.value, conditional, stored).Delivers? && forall j :: 0 <= j < r.value ==> EndOf(net, j, conditional, stored).Fails?
    ensures r.None? ==> forall j :: 0 <= j < n ==> EndOf(net, j, conditional, stored).Fails?
  {
    if n == 0 then None
    else
      var r := FirstDelivering(net, n - 1, conditional, stored);
      if r.Some? then r else if EndOf(net, n - 1, conditional, stored).Delivers? then Some(n - 1) else None
  }

  /** The first candidate that delivers says "not modified". */
  predicate FirstConfirms(net: Network, n: nat, conditional: bool, stored: bool) {
    var first := FirstDelivering(net, n, conditional, stored);
    first.Some? && EndOf(net, first.value, conditional, stored).answer.NotModified?
  }

  lemma {:induction false} FirstStays(net: Network, i: nat, n: nat, conditional: bool, stored: bool)
    requires i < n && EndOf(net, i, conditional, stored).Delivers? && FirstDelivering(net, i, conditional, stored).None?
    ensures FirstDelivering(net, n, conditional, stored) == Some(i)
  {
    if i + 1 < n { FirstStays(net, i, n - 1, conditional, stored); }
  }

  /** A failed fetch reports a definitive absence exactly when there were candidates and every
      one of them ended in a definitive absence. */
  lemma NotFoundIff(net: Network, n: nat, conditional: bool, stored: bool, causes: seq<Cause>)
    requires |causes| == n && forall i :: 0 <= i < n ==> EndOf(net, i, conditional, stored) == Fails(causes[i])
    ensures AllAbsent(causes) <==> n > 0 && forall i :: 0 <= i < n ==> EndOf(net, i, conditional, stored) == Fails(Cause(true))
  {
    hide EndOf;
  }

  lemma {:induction false} AtMostTwoCalls(net: Network, n: nat, conditional: bool, stored: bool)
    ensures |CallsUpTo(net, n, conditional, stored)| <= 2 * n
    ensures !conditional ==> |CallsUpTo(net, n, conditional, stored)| <= n
    ensures forall k :: 0 <= k < |CallsUpTo(net, n, conditional, stored)| ==> CallsUpTo(net, n, conditional, stored)[k].0 < n
  {
    if n > 0 { AtMostTwoCalls(net, n - 1, conditional, stored); }
  }

  predicate InOrder(calls: seq<(nat, bool)>) {
    forall j, k :: 0 <= j < k < |calls| ==> calls[j].0 <= calls[k].0
  }

  lemma OrderGrows(before: seq<(nat, bool)>, more: seq<(nat, bool)>, n: nat)
    requires InOrder(before) && (forall k :: 0 <= k < |before| ==> before[k].0 < n) && forall k :: 0 <= k < |more| ==> more[k].0 == n
    ensures InOrder(before + more)
  {
  }

  /** Calls go through the candidates in their order, and reach every one that has a transport,
      the first call with validators when there are some to send. */
  lemma {:induction false} CallsAreInOrder(net: Network, n: nat, conditional: bool, stored: bool)
    ensures InOrder(CallsUpTo(net, n, conditional, stored))
    ensures forall i :: 0 <= i < n && net.known(i) ==> (i, conditional) in CallsUpTo(net, n, conditional, stored)
  {
    hide InOrder, CallsTo, CallsUpTo;
    if n == 0 {
      NoCalls(net, conditional, stored);
    } else {
      CallsAreInOrder(net, n - 1, conditional, stored);
      AtMostTwoCalls(net, n - 1, conditional, stored);
      LastCalls(net, n, conditional, stored);
      OrderGrows(CallsUpTo(net, n - 1, conditional, stored), CallsTo(net, n - 1, conditional, stored), n - 1);
    }
  }

  lemma NoCalls(net: Network, conditional: bool, stored: bool)
    ensures CallsUpTo(net, 0, conditional, stored) == [] && InOrder([])
  {
  }

  lemma LastCalls(net: Network, n: nat, conditional: bool, stored: bool)
    requires n > 0
    ensures CallsUpTo(net, n, conditional, stored) == CallsUpTo(net, n - 1, conditional, stored) + CallsTo(net, n - 1, conditional, stored)
    ensures net.known(n - 1) ==> (n - 1, conditional) in CallsTo(net, n - 1, conditional, stored)
  {
    CandidateEnds(net, n - 1, conditional, stored);
  }

  /** The first `i` candidates have left one cause each. */
  predicate AllFail(net: Network, i: nat, conditional: bool, stored: bool, causes: seq<Cause>) {
    |causes| == i && forall j :: 0 <= j < i ==> EndOf(net, j, conditional, stored) == Fails(causes[j])
  }

  lemma CallsStep(net: Network, i: nat, conditional: bool, stored: bool, before: seq<(nat, bool)>)
    ensures before + CallsUpTo(net, 0, conditional, stored) == before
    ensures before + CallsUpTo(net, i, conditional, stored) + CallsTo(net, i, conditional, stored) == before + CallsUpTo(net, i + 1, conditional, stored)
  {
  }

  lemma NoneFails(net: Network, conditional: bool, stored: bool)
    ensures AllFail(net, 0, conditional, stored, [])
  {
  }

  lemma OneMoreFails(net: Network, i: nat, conditional: bool, stored: bool, causes: seq<Cause>, cause: Cause)
    requires AllFail(net, i, conditional, stored, causes) && EndOf(net, i, conditional, stored) == Fails(cause)
    ensures AllFail(net, i + 1, conditional, stored, causes + [cause])
  {
    hide EndOf;
  }

  lemma NothingDelivered(net: Network, n: nat, conditional: bool, stored: bool, causes: seq<Cause>)
    requires AllFail(net, n, conditional, stored, causes)
    ensures Exhausted(net, n, conditional, stored, FetchError(causes, AllAbsent(causes)))
  {
    hide EndOf;
    NotFoundIff(net, n, conditional, stored, causes);
  }

  /** No candidate delivered: one cause each, and not found if each was definitively absent. */
  predicate Exhausted(net: Network, candidates: nat, conditional: bool, stored: bool, r: Outcome) {
    && r.FetchError? && |r.causes| == candidates
    && (forall i :: 0 <= i < candidates ==> EndOf(net, i, conditional, stored) == Fails(r.causes[i]))
    && (r.notFound <==> candidates > 0 && forall i :: 0 <= i < candidates ==> EndOf(net, i, conditional, stored) == Fails(Cause(true)))
  }

  // ---- the store -------------------------------------------------------------------------

  datatype Status = Hit | Downloaded | Unmodified
  datatype Outcome = Entry(status: Status, content: Bytes, manifest: Manifest) | OfflineEntry(content: Bytes, pinned: Option<Manifest>) | FetchError(causes: seq<Cause>, notFound: bool) | IntegrityError | CacheMiss

  /** The local store's two files for one key. */
  class Store {
    var blob: Option<Bytes>
    var manifest: Option<Manifest>

    constructor ()
      ensures blob == None && manifest == None
    {
      blob, manifest := None, None;
    }

    /** Drop any earlier blob of the key, then move the staged file into place. */
    method PutBlob(staged: Bytes)
      modifies this`blob
      ensures blob == Some(staged)
    {
      blob := None;
      blob := Some(staged);
    }

    method PutMeta(m: Manifest)
      modifies this`manifest
      ensures manifest == Some(m)
    {
      manifest := Some(m);
    }
  }

  // ---- one fetch ---------------------------------------------------------------------------

  /** What a delivered answer commits: the new blob and manifest, or a confirmed entry with
      its fetch time and validators refreshed and nothing else. */
  function Committed(url: string, hash: Bytes -> int, now: int, prior: Option<Manifest>, a: Answer): Manifest
    requires a.Content? || (a.NotModified? && prior.Some?)
  {
    match a
    case Content(c, e, lm) => Manifest(url, hash(c), |c|, Some(now), e, lm)
    case NotModified(e, lm) => prior.value.(fetchedAt := Some(now), etag := if Present(e) then e else prior.value.etag, lastModified := if Present(lm) then lm else prior.value.lastModified)
  }

  class Fetcher {
    const store: Store
    const url: string
    const hash: Bytes -> int
    var calls: seq<(nat, bool)>

    constructor (s: Store, u: string, h: Bytes -> int)
      ensures store == s && url == u && hash == h && calls == []
    {
      store, url, hash, calls := s, u, h, [];
    }

    ghost predicate Stored()
      reads store
    {
      store.blob.Some? && store.manifest.Some?
    }

    ghost predicate Conditional()
      reads store
    {
      store.manifest.Some? && HasValidators(store.manifest.value)
    }

    /** Call the candidate's transport. */
    method Ask(net: Network, i: nat, validators: bool) returns (a: Answer)
      modifies this`calls
      ensures a == net.answer(i, validators) && calls == old(calls) + [(i, validators)]
    {
      calls := calls + [(i, validators)];
      a := net.answer(i, validators);
    }

    /** `_commit`: None stands for validators whose blob or manifest is gone. */
    method Commit(a: Answer, expected: Option<int>, now: int) returns (r: Option<Outcome>)
      requires !a.Failed?
      modifies store
      ensures a.NotModified? ==> (r.None? <==> !old(Stored()))
      ensures r.None? ==> a.NotModified? && store.blob == old(store.blob) && store.manifest == old(store.manifest)
      ensures r.Some? ==> r.value == Result(a, old(store.blob), old(store.manifest), expected, now)
      ensures r.Some? && r.value.Entry? ==> store.blob == Some(r.value.content) && store.manifest == Some(r.value.manifest)
      ensures r.Some? && !r.value.Entry? ==> store.blob == old(store.blob) && store.manifest == old(store.manifest)
      ensures r.Some? ==> Confirms(a, old(store.blob), old(store.manifest), now, r.value) || Stores(a, expected, now, r.value) || (a.Content? && r.value == IntegrityError)
      ensures r == Some(IntegrityError) <==> a.Content? && expected.Some? && hash(a.content) != expected.value
    {
      if a.NotModified? {
        if store.blob.None? || store.manifest.None? { return None; }
        var updated := Committed(url, hash, now, store.manifest, a);
        store.PutMeta(updated);
        return Some(Entry(Unmodified, store.blob.value, updated));
      }
      if expected.Some? && hash(a.content) != expected.value { return Some(IntegrityError); }
      store.PutBlob(a.content);
      var m := Committed(url, hash, now, None, a);
      store.PutMeta(m);
      return Some(Entry(Downloaded, a.content, m));
    }

    /** A stored entry confirmed: nothing of it changes but when it was fetched, and those
        validators that were sent along and are not empty. */
    ghost predicate Confirms(a: Answer, blob: Option<Bytes>, prior: Option<Manifest>, now: int, r: Outcome) {
      && a.NotModified? && blob.Some? && prior.Some? && r.Entry? && r.status == Unmodified && r.content == blob.value
      && var m, p := r.manifest, prior.value;
         && m.url == p.url && m.hash == p.hash && m.bytes == p.bytes && m.fetchedAt == Some(now)
         && m.etag == (if a.etag.Some? && a.etag.value != "" then a.etag else p.etag)
         && m.lastModified == (if a.lastModified.Some? && a.lastModified.value != "" then a.lastModified else p.lastModified)
    }

    /** Content stored: pinned by its own hash and length, under this url, as of now, and, when
        a checksum was expected, with that checksum. */
    ghost predicate Stores(a: Answer, expected: Option<int>, now: int, r: Outcome) {
      && a.Content? && r.Entry? && r.status == Downloaded && r.content == a.content
      && r.manifest == Manifest(url, hash(a.content), |a.content|, Some(now), a.etag, a.lastModified)
      && (expected.Some? ==> r.manifest.hash == expected.value)
    }

    /** The result of a delivered answer. */
    function Result(a: Answer, blob: Option<Bytes>, prior: Option<Manifest>, expected: Option<int>, now: int): Outcome
      requires a.Content? || (a.NotModified? && blob.Some? && prior.Some?)
    {
      match a
      case NotModified(_, _) => Entry(Unmodified, blob.value, Committed(url, hash, now, prior, a))
      case Content(c, _, _) => if expected.Some? && hash(c) != expected.value then IntegrityError else Entry(Downloaded, c, Committed(url, hash, now, None, a))
    }

    /** What a download leaves, told from the calls, blob and manifest it began with: the first
        candidate that delivers is committed, after exactly the calls of the candidates up to
        it; or every candidate has left exactly one cause, and the store is as it was. */
    ghost predicate AfterDownload(net: Network, candidates: nat, expected: Option<int>, now: int, calls0: seq<(nat, bool)>, blob: Option<Bytes>, prior: Option<Manifest>, r: Outcome)
      reads this, store
    {
      var c, s := prior.Some? && HasValidators(prior.value), blob.Some? && prior.Some?;
      match FirstDelivering(net, candidates, c, s)
      case Some(i) =>
        calls == calls0 + CallsUpTo(net, i + 1, c, s) && Committing(EndOf(net, i, c, s).answer, blob, prior, expected, now, r)
      case None =>
        Exhausted(net, candidates, c, s, r) && calls == calls0 + CallsUpTo(net, candidates, c, s) && store.blob == blob && store.manifest == prior
    }

    /** `_download`: the candidates in order, each asked at most twice; the first that delivers
        is committed, and otherwise every one has left exactly one cause. */
    method Download(net: Network, candidates: nat, expected: Option<int>, now: int) returns (r: Outcome)
      modifies this`calls, store
      ensures AfterDownload(net, candidates, expected, now, old(calls), old(store.blob), old(store.manifest), r)
    {
      hide EndOf, CallsTo, Committing, AllAbsent, AllFail, Exhausted, Result, HasValidators, CallsUpTo;
      var conditional := store.manifest.Some? && HasValidators(store.manifest.value);
      ghost var stored := Stored();
      var causes: seq<Cause> := [];
      NoneFails(net, conditional, stored);
      CallsStep(net, 0, conditional, stored, calls);
      var i := 0;
      while i < candidates
        invariant i <= candidates && AllFail(net, i, conditional, stored, causes)
        invariant FirstDelivering(net, i, conditional, stored).None?
        invariant calls == old(calls) + CallsUpTo(net, i, conditional, stored)
        invariant store.blob == old(store.blob) && store.manifest == old(store.manifest)
      {
        CallsStep(net, i, conditional, stored, old(calls));
        var tried := Try(net, i, conditional, expected, now);
        if tried.Ok? {
          FirstStays(net, i, candidates, conditional, stored);
          return tried.value;
        }
        OneMoreFails(net, i, conditional, stored, causes, tried.error);
        causes := causes + [tried.error];
        i := i + 1;
      }
      NothingDelivered(net, candidates, conditional, stored, causes);
      return FetchError(causes, AllAbsent(causes));
    }

    /** What committing a delivered answer leaves behind. */
    ghost predicate Committing(a: Answer, blob: Option<Bytes>, prior: Option<Manifest>, expected: Option<int>, now: int, r: Outcome)
      reads store
    {
      && (a.Content? || (a.NotModified? && blob.Some? && prior.Some?))
      && r == Result(a, blob, prior, expected, now)
      && (if r.Entry? then store.blob == Some(r.content) && store.manifest == Some(r.manifest) else store.blob == blob && store.manifest == prior)
    }

    /** One candidate: with validators first when there are some, then without them if the
        entry they belong to is gone. */
    method Try(net: Network, i: nat, conditional: bool, expected: Option<int>, now: int) returns (r: Result<Outcome, Cause>)
      requires conditional == Conditional()
      modifies this`calls, store
      ensures var s := old(Stored());
              && calls == old(calls) + CallsTo(net, i, conditional, s)
              && match EndOf(net, i, conditional, s)
                 case Fails(cause) => r == Err(cause) && store.blob == old(store.blob) && store.manifest == old(store.manifest)
                 case Delivers(a) => r.Ok? && Committing(a, old(store.blob), old(store.manifest), expected, now, r.value)
    {
      if !net.known(i) { return Err(Cause(false)); }
      var validators := conditional;
      var attempts := 0;
      while attempts < 2
        invariant attempts <= 1
        invariant store.blob == old(store.blob) && store.manifest == old(store.manifest)
        invariant if attempts == 0 then validators == conditional && calls == old(calls)
                  else conditional && !validators && net.answer(i, true).NotModified? && !old(Stored()) && calls == old(calls) + [(i, true)]
        decreases 2 - attempts
      {
        var a := Ask(net, i, validators);
        if a.Failed? { return Err(Cause(a.notFound)); }
        var done := Commit(a, expected, now);
        if done.Some? { return Ok(done.value); }
        if !validators { return Err(Cause(false)); }
        validators := false;
        attempts := attempts + 1;
      }
      return Err(Cause(false));
    }

    /** `fetch` by one process: a valid entry is a hit without a call; else download. */
    method Fetch(net: Network, candidates: nat, temporal: Option<Freshness>, expected: Option<int>, offline: bool, now: int) returns (r: Outcome)
      modifies this`calls, store
      ensures !offline && old(Stored()) && Decide(old(store.manifest).value, temporal, expected, now).IsHit? ==>
                r == Entry(Hit, old(store.blob).value, old(store.manifest).value) && calls == old(calls) && store.blob == old(store.blob) && store.manifest == old(store.manifest)
      ensures offline ==> calls == old(calls) && store.blob == old(store.blob) && store.manifest == old(store.manifest) && r == (if store.blob.None? then CacheMiss else OfflineEntry(store.blob.value, store.manifest))
      ensures !offline && !(old(Stored()) && Decide(old(store.manifest).value, temporal, expected, now).IsHit?) ==>
                AfterDownload(net, candidates, expected, now, old(calls), old(store.blob), old(store.manifest), r)
      ensures r.Entry? && (temporal.None? || !temporal.value.Incomplete?) && expected.None? && old(Stored()) ==> calls == old(calls)
      ensures !offline ==> (r.Entry? && r.status == Hit <==> old(store.blob).Some? && old(store.manifest).Some? && MayServe(old(store.manifest).value, temporal, expected, now))
      ensures r.Entry? && r.status == Hit ==> r.content == old(store.blob).value && r.manifest == old(store.manifest).value
                                              && calls == old(calls) && store.blob == old(store.blob) && store.manifest == old(store.manifest)
      ensures !offline && !(r.Entry? && r.status == Hit) ==> AfterDownload(net, candidates, expected, now, old(calls), old(store.blob), old(store.manifest), r)
      ensures !offline && expected.Some? ==>
                (r.Entry? && r.manifest.hash != expected.value
                 <==> old(Stored()) && old(store.manifest).value.hash != expected.value && FirstConfirms(net, candidates, old(Conditional()), true))
    {
      ServesIff(store.manifest, temporal, expected, now);
      if offline {
        if store.blob.None? { return CacheMiss; }
        return OfflineEntry(store.blob.value, store.manifest);
      }
      if store.blob.Some? && store.manifest.Some? && Decide(store.manifest.value, temporal, expected, now).IsHit? {
        return Entry(Hit, store.blob.value, store.manifest.value);
      }
      r := Download(net, candidates, expected, now);
    }
  }

  /** What a checksum does not guard against: an entry stored with another hash is asked about
      with its own etag, confirmed, and handed out. */
  method WrongChecksumServed(f: Fetcher, net: Network) returns (expected: int, r: Outcome)
    requires f.store.blob == Some([1]) && f.store.manifest == Some(Manifest("u", 1, 1, Some(0), Some("x"), None))
    requires net.known(0) && net.answer(0, true).NotModified?
    modifies f`calls, f.store
    ensures expected == 2 && r.Entry? && r.manifest.hash == 1
  {
    expected := 2;
    FirstStays(net, 0, 1, true, true);
    r := f.Fetch(net, 1, None, Some(expected), false, 0);
  }
}
