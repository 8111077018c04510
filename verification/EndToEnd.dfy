/** A prefetch group over real providers: what a take delivers is what each member's own
    synchronous sample gives. */
module EndToEnd {
  import opened Wrappers
  import opened NativeData
  import opened Selection
  import opened Temporal
  import opened Sampling
  import opened WindowUnion
  import opened WindowsAtOnce
  import opened WindowsTheorem
  import opened PrefetchModel
  import opened PrefetchTheorems
  import opened PrefetchOnce

  /** The members a group accepts, and the windows it reads them under, if any. */
  datatype Members = Members(loaders: map<Key, Loader>, windows: Option<seq<Window>>)

  ghost predicate ValidMembers(m: Members) {
    && (forall k :: k in m.loaders ==> ValidLoader(m.loaders[k]) && m.loaders[k].temporal.Some?)
    && (m.windows.Some? ==> forall i :: 0 <= i < |m.windows.value| ==> ValidWindow(m.windows.value[i]))
  }

  ghost function AnchorFor(m: Members, k: Key, t: int): int
    requires ValidMembers(m)
  {
    if k in m.loaders then m.loaders[k].temporal.value.RecordAnchor(t) else 0
  }

  lemma AnchorForIs(m: Members, k: Key, t: int)
    requires ValidMembers(m) && k in m.loaders
    ensures m.loaders[k].temporal.Some? && m.loaders[k].temporal.value.Valid() && AnchorFor(m, k, t) == m.loaders[k].temporal.value.RecordAnchor(t)
  {
  }

  /** One member's decode: its sample, or its sample in every window. */
  ghost function DecodeFor(m: Members, k: Key, t: int): Result<Data, Error>
    requires ValidMembers(m)
  {
    if k !in m.loaders then Err(KeyError)
    else match m.windows
      case None => (match SampleAt(m.loaders[k], t) case Ok(ds) => Ok(One(ds)) case Err(e) => Err(e))
      case Some(ws) => (match SampleWindowsAt(m.loaders[k], t, ws) case Ok(dss) => Ok(Windows(dss)) case Err(e) => Err(e))
  }

  ghost function GroupConfig(m: Members, keys: seq<Key>, bounds: seq<int>, depth: nat, maxBytes: Option<nat>, nbytes: Data -> nat): Config
    requires ValidMembers(m)
  {
    Config(keys, bounds, depth, maxBytes, (k, t) => AnchorFor(m, k, t), (k, t) => DecodeFor(m, k, t), nbytes)
  }

  lemma WindowsByAnchor(l: Loader, t: int, u: int, ws: seq<Window>)
    requires ValidLoader(l) && l.temporal.Some? && forall i :: 0 <= i < |ws| ==> ValidWindow(ws[i])
    requires l.temporal.value.RecordAnchor(t) == l.temporal.value.RecordAnchor(u)
    ensures SampleWindowsAt(l, t, ws) == SampleWindowsAt(l, u, ws)
  {
    hide Sampling.Sample, ValidLoader, UnionSelect, ValidWindow, Split, FreshFiles, UnionOf, Allowed;
    if ws != [] && (forall i :: 0 <= i < |ws| ==> Allowed(l, ws[i])) && UnionOf(ws).Ok? {
      UnionMeaning(ws);
      SameSample(l, t, u, FreshFiles(l, Some(UnionSelect(UnionOf(ws).value))));
    }
  }

  /** A member's decode depends on the time only through the anchor the time snaps to. */
  lemma DecodeByAnchor(m: Members, k: Key, t: int, u: int)
    requires ValidMembers(m) && k in m.loaders && AnchorFor(m, k, t) == AnchorFor(m, k, u)
    ensures DecodeFor(m, k, t) == DecodeFor(m, k, u)
  {
    hide SampleAt, SampleWindowsAt, ValidLoader;
    match m.windows
    case None => SampleByAnchor(m.loaders[k], t, u);
    case Some(ws) => WindowsByAnchor(m.loaders[k], t, u, ws);
  }

  lemma GroupIsAnchorOnly(m: Members, c: Config)
    requires ValidMembers(m) && c == GroupConfig(m, c.keys, c.bounds, c.depth, c.maxBytes, c.nbytes)
    requires forall k :: k in c.keys ==> k in m.loaders
    ensures AnchorOnly(c)
    ensures forall k, t, u :: k in c.keys && t <= u ==> c.anchorOf(k, t) <= c.anchorOf(k, u)
  {
    hide DecodeFor, ValidMembers;
    forall k, t, u | k in c.keys && c.anchorOf(k, t) == c.anchorOf(k, u)
      ensures c.decode(k, t) == c.decode(k, u)
    {
      DecodeByAnchor(m, k, t, u);
    }
    forall k, t, u | k in c.keys && t <= u
      ensures c.anchorOf(k, t) <= c.anchorOf(k, u)
    {
      AnchorsMonotone(m, k, t, u);
    }
  }

  lemma AnchorsMonotone(m: Members, k: Key, t: int, u: int)
    requires ValidMembers(m) && t <= u
    ensures AnchorFor(m, k, t) <= AnchorFor(m, k, u)
  {
    if k in m.loaders {
      var s := m.loaders[k].temporal.value;
      hide SourceTemporal.RecordAnchor, SourceTemporal.NextRecordAnchor, SourceTemporal.IsRecordAnchor;
      RecordAnchorSnaps(s, t, u);
    }
  }

  /** What member `k` of a delivered epoch must hold: its own sample at the epoch's time; with
      windows, what one decode of them all gives, which is each window's own sample if the
      seam is even. */
  ghost predicate IsMemberSample(m: Members, k: Key, t: int, data: Data)
    requires ValidMembers(m)
  {
    k in m.loaders &&
    match m.windows
    case None => data.One? && SampleAt(m.loaders[k], t) == Ok(data.dataset)
    case Some(ws) =>
      data.Windows? && SampleWindowsAt(m.loaders[k], t, ws) == Ok(data.datasets) && |data.datasets| == |ws| &&
      (SeamHolds(m.loaders[k], t, ws) ==> forall i :: 0 <= i < |ws| ==> Alone(m.loaders[k], t, ws[i]) == Ok(data.datasets[i]))
  }

  lemma DecodeIsMemberSample(m: Members, k: Key, t: int, data: Data)
    requires ValidMembers(m) && DecodeFor(m, k, t) == Ok(data)
    ensures IsMemberSample(m, k, t, data)
  {
    hide SampleAt, ValidLoader, SeamHolds, Alone;
    if m.windows.Some? {
      var ws := m.windows.value;
      WindowCount(m.loaders[k], t, ws);
      hide SampleWindowsAt;
      WindowsAreTheWindowsAlone(m.loaders[k], t, ws);
    }
  }

  /** Scheduling changes when a result is ready, never what it is: after any interleaving of
      starts, takes, cancels and finished decodes, a take that delivers gives for every member
      exactly what its provider would return synchronously at that epoch, one sample or the
      samples of its windows. */
  lemma SchedulingChangesNothing(m: Members, c: Config, events: seq<Event>, k: int)
    requires ValidMembers(m) && c == GroupConfig(m, c.keys, c.bounds, c.depth, c.maxBytes, c.nbytes)
    requires forall key :: key in c.keys ==> key in m.loaders
    requires Reachable(c, events) && Take(c, Run(c, Initial(), events), k).1.Took?
    ensures 0 <= k < |c.bounds|
    ensures var samples := Take(c, Run(c, Initial(), events), k).1.samples;
            forall key :: (key in samples <==> key in c.keys)
                          && (key in samples ==> key in m.loaders && m.loaders[key].temporal.Some? && m.loaders[key].temporal.value.Valid()
                                                 && samples[key].anchor == m.loaders[key].temporal.value.RecordAnchor(c.bounds[k])
                                                 && IsMemberSample(m, key, c.bounds[k], samples[key].data))
  {
    hide Take, Run, Reachable, IsMemberSample, ValidMembers, DecodeFor;
    GroupIsAnchorOnly(m, c);
    PrefetchEquivalence(c, events, k);
    var samples := Take(c, Run(c, Initial(), events), k).1.samples;
    forall key | key in samples
      ensures key in m.loaders && m.loaders[key].temporal.Some? && m.loaders[key].temporal.value.Valid()
      ensures samples[key].anchor == m.loaders[key].temporal.value.RecordAnchor(c.bounds[k]) && IsMemberSample(m, key, c.bounds[k], samples[key].data)
    {
      AnchorForIs(m, key, c.bounds[k]);
      assert IsSample(c, key, c.bounds[k], samples[key]);
      DecodeIsMemberSample(m, key, c.bounds[k], samples[key].data);
    }
  }

  /** Over real providers, whatever the completion order, a full forward or reverse sweep
      makes one decode for each member and distinct anchor it has come to, and no other. */
  lemma SweepsDecodeOnce(m: Members, c: Config, order: seq<nat>, events: seq<Event>)
    requires ValidMembers(m) && c == GroupConfig(m, c.keys, c.bounds, c.depth, c.maxBytes, c.nbytes)
    requires ValidConfig(c) && forall key :: key in c.keys ==> key in m.loaders
    requires order == Upto(|c.bounds|) || order == Downfrom(|c.bounds|)
    requires PossibleRun(c, Start(c, Initial(), order), events)
    requires forall i :: 0 <= i < |events| ==> events[i].EvTake? || events[i].EvFinish?
    ensures var g := Run(c, Start(c, Initial(), order), events);
      && PrefetchOnce.Distinct(g)
      && (forall id :: 0 <= id < |g.heap| ==> g.next <= |g.order| && Needed(c, g, id))
      && (forall k, p :: k in c.keys && 0 <= p < g.next <= |order| ==> Created(g, k, AnchorFor(m, k, TimeOf(c, order[p]))))
      && |g.heap| + g.reused == |c.keys| * g.next
  {
    assert Possible(c, Initial(), EvStart(order));
    hide ValidMembers, MonotoneOrder, ValidConfig, PossibleRun, Run, PrefetchOnce.Distinct, Needed, Created, Start;
    GroupIsAnchorOnly(m, c);
    SweepsAreMonotone(c);
    ExactlyOnceDecode(c, order, events);
    var g := Run(c, Start(c, Initial(), order), events);
    forall k, p | k in c.keys && 0 <= p < g.next <= |order|
      ensures Created(g, k, AnchorFor(m, k, TimeOf(c, order[p])))
    {
      assert AnchorAt(c, order, k, p) == AnchorFor(m, k, TimeOf(c, order[p]));
    }
  }
}
