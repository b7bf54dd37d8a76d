/** Who watches a price alert, and when it may fire again, over whole runs. */
module PriceAlertRuns {
  import opened Options
  import opened PriceAlerts

  // ---------------------------------------------------------------- events

  /** What can happen to alerts: the editor sets or clears one on a tab, a silenced one is resumed, mutes
      expire, a toast silences a ticker, tabs close and open, watchers are reconciled, data arrives for a
      tab or a monitor, and alert sounds are played. */
  datatype Event =
    | SetAlert(tab: nat, threshold: real, now: int)
    | ClearAlert(tab: nat, now: int)
    | ResumeAlert(ticker: Ticker)
    | Expire(now: int)
    | SilenceAlert(ticker: Ticker, until: Option<int>)
    | CloseTab(tab: nat, retire: bool)
    | OpenTab(ticker: Ticker)
    | Reconcile
    | TabData(tab: nat, price: real, success: bool, now: int)
    | MonitorData(monitor: nat, price: real, success: bool, now: int)
    | SoundTab(tab: nat, plays: nat)
    | SoundMonitor(monitor: nat, plays: nat)

  /** The tab took part in the last full reconcile. */
  predicate Known(s: State, id: nat) {
    s.signature.Some? && exists k :: 0 <= k < |s.signature.value.tabs| && s.signature.value.tabs[k].0 == id
  }

  predicate KnownTab(s: State, i: int) {
    0 <= i < |s.active| && Known(s, s.active[i].id)
  }

  /** The main loop reconciles before a new tab is first evaluated, so only known tabs are. */
  predicate Enabled(s: State, e: Event) {
    match e
    case SetAlert(tab, _, _) => KnownTab(s, tab)
    case ClearAlert(tab, _) => KnownTab(s, tab)
    case CloseTab(tab, _) => tab < |s.active|
    case OpenTab(ticker) => !Owned(s.active, ticker)
    case TabData(tab, _, _, _) => KnownTab(s, tab)
    case MonitorData(monitor, _, _, _) => monitor < |s.monitors|
    case SoundTab(tab, plays) => tab < |s.active| && plays <= s.active[tab].plays
    case SoundMonitor(monitor, plays) => monitor < |s.monitors| && plays <= s.monitors[monitor].plays
    case _ => true
  }

  function WithTab(s: State, i: nat, outcome: Outcome): State
    requires i < |s.active|
  {
    s.(service := outcome.service, active := s.active[i := outcome.context])
  }

  /** What evaluating after the editor has set a threshold on a tab gives. */
  function SetOutcome(s: State, tab: nat, threshold: real, now: int): (Outcome, bool)
    requires tab < |s.active|
  {
    var context := s.active[tab];
    var (service, accepted) := s.service.SetThreshold(context.ticker, threshold);
    (Evaluate(service, context.(triggered := false), now), accepted)
  }

  function DataContext(context: Context, price: real, success: bool): Context {
    context.(price := price, success := success)
  }

  /** A tab whose data is not good is not evaluated; a monitor is evaluated on every completed quote. */
  function TabOutcome(s: State, tab: nat, price: real, success: bool, now: int): Outcome
    requires tab < |s.active|
  {
    var context := DataContext(s.active[tab], price, success);
    if success then Evaluate(s.service, context, now) else Outcome(s.service, context, false)
  }

  function MonitorOutcome(s: State, monitor: nat, price: real, success: bool, now: int): Outcome
    requires monitor < |s.monitors|
  {
    Evaluate(s.service, DataContext(s.monitors[monitor], price, success), now)
  }

  function Closed(s: State, tab: nat, retire: bool): State
    requires tab < |s.active|
  {
    var silenced := SilenceForClosedTab(s, s.active[tab]);
    silenced.(active := silenced.active[..tab] + silenced.active[tab + 1..],
              retired := if retire then silenced.retired + [silenced.active[tab]] else silenced.retired)
  }

  ghost predicate Next(s: State, e: Event, s': State) {
    && Enabled(s, e)
    && match e
       case SetAlert(tab, threshold, now) =>
         var (outcome, accepted) := SetOutcome(s, tab, threshold, now);
         s' == if accepted then WithTab(s, tab, outcome) else s
       case ClearAlert(tab, now) =>
         var removed := RemoveConfigured(s, s.active[tab].ticker);
         s' == WithTab(removed, tab, Evaluate(removed.service, removed.active[tab], now))
       case ResumeAlert(ticker) => s' == Resume(s, ticker)
       case Expire(now) => s' == ExpireMutes(s, now)
       case SilenceAlert(ticker, until) => s' == ApplySilence(s, ticker, until)
       case CloseTab(tab, retire) => s' == Closed(s, tab, retire)
       case OpenTab(ticker) => s' == s.(active := s.active + [FreshContext(s.nextId, ticker)], nextId := s.nextId + 1)
       case Reconcile => Reconciled(s, s')
       case TabData(tab, price, success, now) => s' == WithTab(s, tab, TabOutcome(s, tab, price, success, now))
       case MonitorData(monitor, price, success, now) =>
         var outcome := MonitorOutcome(s, monitor, price, success, now);
         s' == s.(service := outcome.service, monitors := s.monitors[monitor := outcome.context])
       case SoundTab(tab, plays) => s' == s.(active := s.active[tab := s.active[tab].(plays := plays)])
       case SoundMonitor(monitor, plays) =>
         s' == s.(monitors := s.monitors[monitor := s.monitors[monitor].(plays := plays)])
  }

  /** The ticker whose alert fires in an event. */
  function Fires(s: State, e: Event): set<Ticker>
    requires Enabled(s, e)
  {
    match e
    case SetAlert(tab, threshold, now) =>
      var (outcome, accepted) := SetOutcome(s, tab, threshold, now);
      if accepted && outcome.fired then {s.active[tab].ticker} else {}
    case ClearAlert(tab, now) =>
      var removed := RemoveConfigured(s, s.active[tab].ticker);
      if Evaluate(removed.service, removed.active[tab], now).fired then {s.active[tab].ticker} else {}
    case TabData(tab, price, success, now) =>
      if TabOutcome(s, tab, price, success, now).fired then {s.active[tab].ticker} else {}
    case MonitorData(monitor, price, success, now) =>
      if MonitorOutcome(s, monitor, price, success, now).fired then {s.monitors[monitor].ticker} else {}
    case _ => {}
  }

  /** The tickers an event re-arms: by setting the threshold, resuming, the expiry of a mute, or a quote
      above the threshold. */
  function Rearms(s: State, e: Event): set<Ticker>
    requires Enabled(s, e)
  {
    match e
    case SetAlert(tab, threshold, now) =>
      if SetOutcome(s, tab, threshold, now).1 then {s.active[tab].ticker} else {}
    case ResumeAlert(ticker) => if CanResume(s, ticker) then {ticker} else {}
    case Expire(now) => s.service.Expired(now)
    case TabData(tab, price, success, now) =>
      if Above(s.service, DataContext(s.active[tab], price, success)) then {s.active[tab].ticker} else {}
    case MonitorData(monitor, price, success, now) =>
      if Above(s.service, DataContext(s.monitors[monitor], price, success)) then {s.monitors[monitor].ticker} else {}
    case _ => {}
  }

  ghost predicate Init(s: State) {
    s.active == [] && s.monitors == [] && s.retired == [] && s.signature == None
  }

  // ---------------------------------------------------------------- the invariant

  predicate DistinctTickers(contexts: seq<Context>) {
    forall i, j :: 0 <= i < j < |contexts| ==> contexts[i].ticker != contexts[j].ticker
  }

  predicate GoodIds(s: State) {
    && (forall i :: 0 <= i < |s.active| ==> s.active[i].id < s.nextId)
    && (s.signature.Some? ==> forall k :: 0 <= k < |s.signature.value.tabs| ==> s.signature.value.tabs[k].0 < s.nextId)
  }

  /** A tab that took part in the last reconcile has no monitor beside it. */
  predicate NoRival(s: State) {
    forall i :: 0 <= i < |s.active| && KnownTab(s, i) ==> !Owned(s.monitors, s.active[i].ticker)
  }

  predicate InTopology(topology: Topology, ticker: Ticker) {
    exists k :: 0 <= k < |topology.tabs| && topology.tabs[k].1 == ticker
  }

  /** Every threshold has a watcher in this topology, and every monitor has a threshold and no tab. */
  ghost predicate Settled(s: State, topology: Topology) {
    && (forall ticker :: ticker in s.service.thresholds && s.service.thresholds[ticker] > 0.0 ==>
          InTopology(topology, ticker) || Owned(s.monitors, ticker))
    && (forall j :: 0 <= j < |s.monitors| ==>
          s.monitors[j].ticker in s.service.thresholds && !InTopology(topology, s.monitors[j].ticker))
  }

  ghost predicate GoodSignature(s: State) {
    s.signature.Some? ==>
      && s.signature.value.revision <= s.service.revision
      && (s.signature.value.revision == s.service.revision ==> Settled(s, s.signature.value))
  }

  ghost predicate Inv(s: State) {
    GoodIds(s) && DistinctTickers(s.active) && DistinctTickers(s.monitors) && NoRival(s) && GoodSignature(s)
  }

  /** Contexts that stand for the same tickers and objects, one for one. */
  predicate SameTabs(a: seq<Context>, b: seq<Context>) {
    |a| == |b| && forall i :: 0 <= i < |a| ==> a[i].ticker == b[i].ticker && a[i].id == b[i].id
  }

  /** Steps that leave the tabs, the monitors' tickers, the signature and the set of thresholds alone, or
      change thresholds and advance the revision. */
  predicate SameShape(s: State, s': State) {
    && SameTabs(s.active, s'.active) && SameTabs(s.monitors, s'.monitors)
    && s'.signature == s.signature && s'.nextId == s.nextId
    && s.service.revision <= s'.service.revision
    && (s.service.revision == s'.service.revision ==> s'.service.thresholds == s.service.thresholds)
  }

  lemma SameOwned(a: seq<Context>, b: seq<Context>)
    requires SameTabs(a, b)
    ensures forall ticker :: Owned(a, ticker) <==> Owned(b, ticker)
  {
    forall ticker
      ensures Owned(a, ticker) <==> Owned(b, ticker)
    {
      if i :| 0 <= i < |a| && a[i].ticker == ticker {
        assert b[i].ticker == ticker;
      }
      if i :| 0 <= i < |b| && b[i].ticker == ticker {
        assert a[i].ticker == ticker;
      }
    }
  }

  lemma SameShapeKeepsInv(s: State, s': State)
    requires Inv(s) && SameShape(s, s')
    ensures Inv(s')
  {
    SameOwned(s.monitors, s'.monitors);
    hide Owned, InTopology;
    assert NoRival(s') by {
      forall i | 0 <= i < |s'.active| && KnownTab(s', i)
        ensures !Owned(s'.monitors, s'.active[i].ticker)
      {
        assert KnownTab(s, i);
      }
    }
    assert GoodSignature(s') by {
      if s'.signature.Some? && s'.signature.value.revision == s'.service.revision {
        assert Settled(s, s.signature.value);
        assert Settled(s', s'.signature.value);
      }
    }
  }

  lemma OwnedStep(contexts: seq<Context>, ticker: Ticker)
    requires contexts != []
    ensures Owned(contexts, ticker)
            <==> Owned(contexts[..|contexts| - 1], ticker) || contexts[|contexts| - 1].ticker == ticker
  {
    var front := contexts[..|contexts| - 1];
    if i :| 0 <= i < |front| && front[i].ticker == ticker {
      assert contexts[i].ticker == ticker;
    }
    if i :| 0 <= i < |contexts| && contexts[i].ticker == ticker {
      assert i < |front| ==> front[i].ticker == ticker;
    }
  }

  lemma OwnedAppend(contexts: seq<Context>, context: Context, ticker: Ticker)
    ensures Owned(contexts + [context], ticker) <==> Owned(contexts, ticker) || context.ticker == ticker
  {
    OwnedStep(contexts + [context], ticker);
    assert (contexts + [context])[..|contexts|] == contexts;
  }

  lemma DistinctAppend(contexts: seq<Context>, context: Context)
    requires DistinctTickers(contexts) && !Owned(contexts, context.ticker)
    ensures DistinctTickers(contexts + [context])
  {
  }

  lemma {:induction false} WithoutTickerIs(contexts: seq<Context>, ticker: Ticker, t: Ticker)
    ensures Owned(WithoutTicker(contexts, ticker), t) <==> t != ticker && Owned(contexts, t)
  {
    if contexts != [] {
      var front, last := contexts[..|contexts| - 1], contexts[|contexts| - 1];
      WithoutTickerIs(front, ticker, t);
      OwnedStep(contexts, t);
      OwnedAppend(WithoutTicker(front, ticker), last, t);
    }
  }

  lemma {:induction false} WithoutTickerIsDistinct(contexts: seq<Context>, ticker: Ticker)
    requires DistinctTickers(contexts)
    ensures DistinctTickers(WithoutTicker(contexts, ticker))
  {
    if contexts != [] {
      var front, last := contexts[..|contexts| - 1], contexts[|contexts| - 1];
      WithoutTickerIsDistinct(front, ticker);
      WithoutTickerIs(front, ticker, last.ticker);
      if last.ticker != ticker {
        DistinctAppend(WithoutTicker(front, ticker), last);
      }
    }
  }

  // ---------------------------------------------------------------- every event keeps it

  /** Tabs and signature stay, the revision advances, and no monitor appears. */
  lemma FewerMonitorsKeepInv(s: State, s': State)
    requires Inv(s) && SameTabs(s.active, s'.active) && s'.signature == s.signature && s'.nextId == s.nextId
    requires s.service.revision < s'.service.revision && DistinctTickers(s'.monitors)
    requires forall t :: Owned(s'.monitors, t) ==> Owned(s.monitors, t)
    ensures Inv(s')
  {
    hide Owned, Settled;
    forall i | 0 <= i < |s'.active| && KnownTab(s', i)
      ensures !Owned(s'.monitors, s'.active[i].ticker)
    {
      assert KnownTab(s, i);
    }
  }

  lemma ClearKeepsInv(s: State, tab: nat, now: int, s': State)
    requires Inv(s) && KnownTab(s, tab) && Next(s, ClearAlert(tab, now), s')
    ensures Inv(s')
  {
    KnownIsTab(s, tab);
    hide Inv, KnownTab, GoodSignature;
    var ticker := s.active[tab].ticker;
    var removed := RemoveConfigured(s, ticker);
    if ticker in s.service.thresholds {
      forall t
        ensures Owned(s'.monitors, t) ==> Owned(s.monitors, t)
      {
        WithoutTickerIs(s.monitors, ticker, t);
      }
      assert DistinctTickers(s.monitors) by { InvDistinct(s); }
      WithoutTickerIsDistinct(s.monitors, ticker);
      FewerMonitorsKeepInv(s, s');
    } else {
      SameShapeKeepsInv(s, s');
    }
  }

  lemma InvDistinct(s: State)
    requires Inv(s)
    ensures DistinctTickers(s.monitors) && DistinctTickers(s.active)
  {
  }

  lemma CloseKeepsInv(s: State, tab: nat, retire: bool, s': State)
    requires Inv(s) && tab < |s.active| && s' == Closed(s, tab, retire)
    ensures Inv(s')
  {
    hide GoodSignature;
    var silenced := SilenceForClosedTab(s, s.active[tab]);
    SameShapeKeepsInv(s, silenced);
    assert forall i :: 0 <= i < |s'.active| ==> s'.active[i] == silenced.active[if i < tab then i else i + 1];
    assert NoRival(s') by {
      forall i | 0 <= i < |s'.active| && KnownTab(s', i)
        ensures !Owned(s'.monitors, s'.active[i].ticker)
      {
        assert KnownTab(silenced, if i < tab then i else i + 1);
      }
    }
    assert GoodSignature(s') by { SignatureStays(silenced, s'); }
  }

  lemma SignatureStays(s: State, s': State)
    requires GoodSignature(s) && s'.signature == s.signature && s'.service == s.service && s'.monitors == s.monitors
    ensures GoodSignature(s')
  {
  }

  lemma OpenKeepsInv(s: State, ticker: Ticker, s': State)
    requires Inv(s) && Next(s, OpenTab(ticker), s')
    ensures Inv(s')
  {
    hide GoodSignature, Owned;
    assert DistinctTickers(s'.active) by { DistinctAppend(s.active, FreshContext(s.nextId, ticker)); }
    assert NoRival(s') by {
      forall i | 0 <= i < |s'.active| && KnownTab(s', i)
        ensures !Owned(s'.monitors, s'.active[i].ticker)
      {
        assert i < |s.active| && KnownTab(s, i);
      }
    }
    assert GoodSignature(s') by { SignatureStays(s, s'); }
  }

  lemma {:induction false} KeptIs(thresholds: map<Ticker, real>, active: seq<Context>, monitors: seq<Context>,
        t: Ticker)
    ensures Owned(Kept(thresholds, active, monitors), t)
            <==> Owned(monitors, t) && t in thresholds && !Owned(active, t)
  {
    if monitors != [] {
      var front, last := monitors[..|monitors| - 1], monitors[|monitors| - 1];
      KeptIs(thresholds, active, front, t);
      OwnedStep(monitors, t);
      OwnedAppend(Kept(thresholds, active, front), last, t);
    }
  }

  lemma {:induction false} KeptIsDistinct(thresholds: map<Ticker, real>, active: seq<Context>, monitors: seq<Context>)
    requires DistinctTickers(monitors)
    ensures DistinctTickers(Kept(thresholds, active, monitors))
  {
    if monitors != [] {
      var front, last := monitors[..|monitors| - 1], monitors[|monitors| - 1];
      KeptIsDistinct(thresholds, active, front);
      KeptIs(thresholds, active, front, last.ticker);
      if last.ticker in thresholds && !Owned(active, last.ticker) {
        assert !Owned(front, last.ticker);
        DistinctAppend(Kept(thresholds, active, front), last);
      }
    }
  }

  /** After a full reconcile a ticker has a monitor just when it has a threshold and no tab, except that
      an invalid threshold gets no new one. */
  lemma MonitorsAfter(s: State, added: seq<Context>, t: Ticker)
    requires Added(s.service.thresholds, s.active, Kept(s.service.thresholds, s.active, s.monitors), added)
    ensures var monitors := Kept(s.service.thresholds, s.active, s.monitors) + added;
            && (Owned(monitors, t) ==> t in s.service.thresholds && !Owned(s.active, t))
            && (t in s.service.thresholds && s.service.thresholds[t] > 0.0 && !Owned(s.active, t) ==>
                  Owned(monitors, t))
  {
    var kept := Kept(s.service.thresholds, s.active, s.monitors);
    KeptIs(s.service.thresholds, s.active, s.monitors, t);
    OwnedByEither(kept, added, t);
  }

  lemma TopologyTickers(revision: nat, active: seq<Context>, t: Ticker)
    ensures InTopology(TopologyOf(revision, active), t) <==> Owned(active, t)
  {
    var topology := TopologyOf(revision, active);
    if i :| 0 <= i < |active| && active[i].ticker == t {
      assert topology.tabs[i].1 == t;
    }
    if k :| 0 <= k < |topology.tabs| && topology.tabs[k].1 == t {
      assert active[k].ticker == t;
    }
  }

  lemma MonitorsAreDistinct(s: State, added: seq<Context>)
    requires DistinctTickers(s.monitors)
    requires Added(s.service.thresholds, s.active, Kept(s.service.thresholds, s.active, s.monitors), added)
    ensures DistinctTickers(Kept(s.service.thresholds, s.active, s.monitors) + added)
  {
    hide Kept;
    KeptIsDistinct(s.service.thresholds, s.active, s.monitors);
    var kept := Kept(s.service.thresholds, s.active, s.monitors);
    var monitors := kept + added;
    forall i, j | 0 <= i < j < |monitors|
      ensures monitors[i].ticker != monitors[j].ticker
    {
      if i < |kept| <= j {
        assert Needed(s.service.thresholds, s.active, kept, added[j - |kept|].ticker);
      }
    }
  }

  lemma FullReconcile(s: State, s': State) returns (added: seq<Context>)
    requires Reconciled(s, s') && s.signature != Some(TopologyOf(s.service.revision, s.active))
    ensures Added(s.service.thresholds, s.active, Kept(s.service.thresholds, s.active, s.monitors), added)
    ensures s' == s.(active := AdoptAll(s.active, s.monitors),
                     monitors := Kept(s.service.thresholds, s.active, s.monitors) + added,
                     signature := Some(TopologyOf(s.service.revision, s.active)))
  {
    hide Added, Kept, AdoptAll;
    var kept := Kept(s.service.thresholds, s.active, s.monitors);
    added :| Added(s.service.thresholds, s.active, kept, added)
             && s' == s.(active := AdoptAll(s.active, s.monitors), monitors := kept + added,
                         signature := Some(TopologyOf(s.service.revision, s.active)));
  }

  lemma ReconcileSettles(s: State, s': State, added: seq<Context>)
    requires Added(s.service.thresholds, s.active, Kept(s.service.thresholds, s.active, s.monitors), added)
    requires s'.service == s.service && s'.monitors == Kept(s.service.thresholds, s.active, s.monitors) + added
    ensures Settled(s', TopologyOf(s.service.revision, s.active))
  {
    hide Kept, Added, Owned, InTopology, TopologyOf;
    var topology := TopologyOf(s.service.revision, s.active);
    forall t
      ensures t in s'.service.thresholds && s'.service.thresholds[t] > 0.0 ==>
                InTopology(topology, t) || Owned(s'.monitors, t)
      ensures Owned(s'.monitors, t) ==> t in s'.service.thresholds && !InTopology(topology, t)
    {
      MonitorsAfter(s, added, t);
      TopologyTickers(s.service.revision, s.active, t);
    }
    forall j | 0 <= j < |s'.monitors|
      ensures Owned(s'.monitors, s'.monitors[j].ticker)
    {
      OwnsItself(s'.monitors, j);
    }
  }

  lemma OwnsItself(contexts: seq<Context>, j: nat)
    requires j < |contexts|
    ensures Owned(contexts, contexts[j].ticker)
  {
  }

  lemma ReconcileKeepsInv(s: State, s': State)
    requires Inv(s) && Reconciled(s, s')
    ensures Inv(s')
  {
    hide Kept, Added, Owned, Reconciled, Settled, AdoptAll;
    if s.signature == Some(TopologyOf(s.service.revision, s.active)) {
      assert s' == s by { SkippedReconcile(s, s'); }
    } else {
      var added := FullReconcile(s, s');
      ReconcileSettles(s, s', added);
      MonitorsAreDistinct(s, added);
      SameOwned(s.active, s'.active);
      assert NoRival(s') by {
        forall i | 0 <= i < |s'.active|
          ensures !Owned(s'.monitors, s'.active[i].ticker)
        {
          MonitorsAfter(s, added, s'.active[i].ticker);
          OwnsItself(s'.active, i);
        }
      }
    }
  }

  lemma SkippedReconcile(s: State, s': State)
    requires Reconciled(s, s') && s.signature == Some(TopologyOf(s.service.revision, s.active))
    ensures s' == s
  {
  }

  lemma EvaluateKeepsThresholds(service: Service, context: Context, now: int)
    ensures var o := Evaluate(service, context, now);
            o.service.thresholds == service.thresholds && o.service.revision == service.revision
            && o.context.ticker == context.ticker && o.context.id == context.id
  {
  }

  lemma OtherEventsKeepShape(s: State, e: Event, s': State)
    requires Inv(s) && Next(s, e, s')
    requires !e.ClearAlert? && !e.CloseTab? && !e.OpenTab? && !e.Reconcile?
    ensures SameShape(s, s')
  {
    hide Inv, Evaluate, KnownTab;
    match e
    case SetAlert(tab, threshold, now) =>
      assert tab < |s.active| by { KnownIsTab(s, tab); }
      var (service, _) := s.service.SetThreshold(s.active[tab].ticker, threshold);
      EvaluateKeepsThresholds(service, s.active[tab].(triggered := false), now);
    case TabData(tab, price, success, now) =>
      assert tab < |s.active| by { KnownIsTab(s, tab); }
      EvaluateKeepsThresholds(s.service, DataContext(s.active[tab], price, success), now);
    case MonitorData(monitor, price, success, now) =>
      EvaluateKeepsThresholds(s.service, DataContext(s.monitors[monitor], price, success), now);
    case _ =>
  }

  lemma KnownIsTab(s: State, i: nat)
    requires KnownTab(s, i)
    ensures i < |s.active|
  {
  }

  lemma NextKeepsInv(s: State, e: Event, s': State)
    requires Inv(s) && Next(s, e, s')
    ensures Inv(s')
  {
    hide Inv, Reconciled, Closed, KnownTab;
    match e
    case ClearAlert(tab, now) => ClearKeepsInv(s, tab, now, s');
    case CloseTab(tab, retire) => CloseKeepsInv(s, tab, retire, s');
    case OpenTab(ticker) => OpenKeepsInv(s, ticker, s');
    case Reconcile => ReconcileKeepsInv(s, s');
    case _ =>
      OtherEventsKeepShape(s, e, s');
      SameShapeKeepsInv(s, s');
  }

  // ---------------------------------------------------------------- when an alert may fire again

  /** A context of this ticker whose evaluation could fire: a known tab or a monitor. */
  predicate TabWatches(s: State, i: int, t: Ticker) {
    KnownTab(s, i) && s.active[i].ticker == t
  }

  predicate MonitorWatches(s: State, j: int, t: Ticker) {
    0 <= j < |s.monitors| && s.monitors[j].ticker == t
  }

  ghost predicate Watched(s: State, t: Ticker) {
    (exists i :: TabWatches(s, i, t)) || (exists j :: MonitorWatches(s, j, t))
  }

  ghost predicate AllTriggered(s: State, t: Ticker) {
    && (forall i :: TabWatches(s, i, t) ==> s.active[i].triggered)
    && (forall j :: MonitorWatches(s, j, t) ==> s.monitors[j].triggered)
  }

  /** The alert cannot fire: it has no valid threshold, or is silenced, or its watcher has fired. */
  ghost predicate Held(s: State, t: Ticker) {
    s.service.ActiveThreshold(t) == None || t in s.service.silenced || (Watched(s, t) && AllTriggered(s, t))
  }

  /** Every way of evaluating a context of this ticker that is silenced or triggered leaves it so, unless
      the price is above the threshold, and fires nothing. */
  lemma EvaluateHeld(service: Service, context: Context, now: int)
    requires context.triggered || context.ticker in service.silenced
    requires !Above(service, context)
    ensures var o := Evaluate(service, context, now);
            && !o.fired && o.service.thresholds == service.thresholds
            && (service.ActiveThreshold(context.ticker).Some? ==>
                  o.service == service && (context.triggered ==> o.context.triggered))
  {
  }

  /** Nothing about this ticker's watchers changes. */
  predicate SameWatchers(s: State, s': State, t: Ticker) {
    && s'.signature == s.signature && SameTabs(s.active, s'.active) && SameTabs(s.monitors, s'.monitors)
    && (forall i :: 0 <= i < |s.active| && s.active[i].ticker == t ==>
          (s.active[i].triggered ==> s'.active[i].triggered))
    && (forall j :: 0 <= j < |s.monitors| && s.monitors[j].ticker == t ==>
          (s.monitors[j].triggered ==> s'.monitors[j].triggered))
  }

  predicate SameService(service: Service, service': Service, t: Ticker) {
    service'.ActiveThreshold(t) == service.ActiveThreshold(t) && (t in service.silenced ==> t in service'.silenced)
  }

  lemma SameWatchersHeld(s: State, s': State, t: Ticker)
    requires Held(s, t) && SameWatchers(s, s', t) && SameService(s.service, s'.service, t)
    ensures Held(s', t)
  {
    forall i
      ensures TabWatches(s, i, t) <==> TabWatches(s', i, t)
    {
    }
    forall j
      ensures MonitorWatches(s, j, t) <==> MonitorWatches(s', j, t)
    {
    }
  }

  lemma EvaluateOther(service: Service, context: Context, now: int, t: Ticker)
    requires context.ticker != t
    ensures SameService(service, Evaluate(service, context, now).service, t)
    ensures Evaluate(service, context, now).context.ticker == context.ticker
    ensures Evaluate(service, context, now).context.id == context.id
  {
  }

  lemma TabDataHeld(s: State, e: Event, s': State, t: Ticker)
    requires Inv(s) && Held(s, t) && e.TabData? && Next(s, e, s') && t !in Rearms(s, e)
    ensures t !in Fires(s, e) && Held(s', t)
  {
    hide Inv, Evaluate, Held;
    var TabData(tab, price, success, now) := e;
    KnownIsTab(s, tab);
    var context := DataContext(s.active[tab], price, success);
    if context.ticker != t {
      EvaluateOther(s.service, context, now, t);
      SameWatchersHeld(s, s', t);
    } else {
      TabHolds(s, tab, t);
      if s.service.ActiveThreshold(t) == None {
        NothingToFire(s.service, context, now);
        NoThresholdHeld(s', t);
      } else if success {
        EvaluateHeld(s.service, context, now);
        EvaluateKeepsThresholds(s.service, context, now);
        SameWatchersHeld(s, s', t);
      } else {
        SameWatchersHeld(s, s', t);
      }
    }
  }

  lemma NoThresholdHeld(s: State, t: Ticker)
    requires s.service.ActiveThreshold(t) == None
    ensures Held(s, t)
  {
  }

  lemma NothingToFire(service: Service, context: Context, now: int)
    requires service.ActiveThreshold(context.ticker) == None
    ensures var o := Evaluate(service, context, now);
            !o.fired && o.service.thresholds == service.thresholds && o.service.ActiveThreshold(context.ticker) == None
  {
  }

  /** A held alert's known tab is silenced or triggered. */
  lemma TabHolds(s: State, i: nat, t: Ticker)
    requires Held(s, t) && TabWatches(s, i, t)
    ensures s.service.ActiveThreshold(t) == None || t in s.service.silenced || s.active[i].triggered
  {
  }

  lemma MonitorHolds(s: State, j: nat, t: Ticker)
    requires Held(s, t) && MonitorWatches(s, j, t)
    ensures s.service.ActiveThreshold(t) == None || t in s.service.silenced || s.monitors[j].triggered
  {
  }

  lemma MonitorDataHeld(s: State, e: Event, s': State, t: Ticker)
    requires Inv(s) && Held(s, t) && e.MonitorData? && Next(s, e, s') && t !in Rearms(s, e)
    ensures t !in Fires(s, e) && Held(s', t)
  {
    hide Inv, Evaluate, Held;
    var MonitorData(monitor, price, success, now) := e;
    var context := DataContext(s.monitors[monitor], price, success);
    if context.ticker != t {
      EvaluateOther(s.service, context, now, t);
      SameWatchersHeld(s, s', t);
    } else {
      MonitorHolds(s, monitor, t);
      if s.service.ActiveThreshold(t) == None {
        NothingToFire(s.service, context, now);
        NoThresholdHeld(s', t);
      } else {
        EvaluateHeld(s.service, context, now);
        EvaluateKeepsThresholds(s.service, context, now);
        SameWatchersHeld(s, s', t);
      }
    }
  }

  lemma SetHeld(s: State, e: Event, s': State, t: Ticker)
    requires Inv(s) && Held(s, t) && e.SetAlert? && Next(s, e, s') && t !in Rearms(s, e)
    ensures t !in Fires(s, e) && Held(s', t)
  {
    hide Inv, Evaluate, Held;
    var SetAlert(tab, threshold, now) := e;
    KnownIsTab(s, tab);
    var (service, accepted) := s.service.SetThreshold(s.active[tab].ticker, threshold);
    if accepted {
      var context := s.active[tab].(triggered := false);
      EvaluateOther(service, context, now, t);
      SameWatchersHeld(s, s', t);
    }
  }

  lemma ClearHeld(s: State, e: Event, s': State, t: Ticker)
    requires Inv(s) && Held(s, t) && e.ClearAlert? && Next(s, e, s')
    ensures t !in Fires(s, e) && Held(s', t)
  {
    hide Inv, Evaluate, Held;
    var ClearAlert(tab, now) := e;
    KnownIsTab(s, tab);
    var ticker := s.active[tab].ticker;
    var removed := RemoveConfigured(s, ticker);
    NothingToFire(removed.service, removed.active[tab], now);
    if ticker == t {
      NoThresholdHeld(s', t);
    } else {
      EvaluateOther(removed.service, removed.active[tab], now, t);
      EvaluateKeepsThresholds(removed.service, removed.active[tab], now);
      MonitorsWithoutOther(s, s', ticker, t);
    }
  }

  lemma {:induction false} WithoutKeepsOthers(contexts: seq<Context>, ticker: Ticker, context: Context)
    ensures context in WithoutTicker(contexts, ticker) <==> context in contexts && context.ticker != ticker
  {
    if contexts != [] {
      WithoutKeepsOthers(contexts[..|contexts| - 1], ticker, context);
      assert context in contexts <==> context in contexts[..|contexts| - 1] || context == contexts[|contexts| - 1];
    }
  }

  /** Removing one ticker's monitors leaves the watchers of the others. */
  lemma MonitorsWithoutOther(s: State, s': State, ticker: Ticker, t: Ticker)
    requires Held(s, t) && ticker != t && SameService(s.service, s'.service, t)
    requires s'.monitors == s.monitors || s'.monitors == WithoutTicker(s.monitors, ticker)
    requires s'.signature == s.signature && SameTabs(s.active, s'.active)
    requires forall i :: 0 <= i < |s.active| && s.active[i].ticker == t ==>
        s'.active[i].triggered == s.active[i].triggered
    ensures Held(s', t)
  {
    if s'.monitors == s.monitors {
      SameWatchersHeld(s, s', t);
    } else {
      forall j | MonitorWatches(s', j, t)
        ensures exists k :: MonitorWatches(s, k, t) && s.monitors[k] == s'.monitors[j]
      {
        WithoutKeepsOthers(s.monitors, ticker, s'.monitors[j]);
        var k :| 0 <= k < |s.monitors| && s.monitors[k] == s'.monitors[j];
        assert MonitorWatches(s, k, t);
      }
      forall j | MonitorWatches(s, j, t)
        ensures exists k :: MonitorWatches(s', k, t)
      {
        WithoutKeepsOthers(s.monitors, ticker, s.monitors[j]);
        var k :| 0 <= k < |s'.monitors| && s'.monitors[k] == s.monitors[j];
        assert MonitorWatches(s', k, t);
      }
      forall i
        ensures TabWatches(s, i, t) <==> TabWatches(s', i, t)
      {
      }
    }
  }

  lemma PolicyHeld(s: State, e: Event, s': State, t: Ticker)
    requires Inv(s) && Held(s, t) && Next(s, e, s') && t !in Rearms(s, e)
    requires e.ResumeAlert? || e.Expire? || e.SilenceAlert? || e.SoundTab? || e.SoundMonitor?
    ensures Held(s', t)
  {
    hide Inv, Held;
    if e.SilenceAlert? && e.ticker == t {
      SilencedIsHeld(s', t);
    } else {
      SameWatchersHeld(s, s', t);
    }
  }

  lemma SilencedIsHeld(s: State, t: Ticker)
    requires t in s.service.silenced
    ensures Held(s, t)
  {
  }

  lemma CloseHeld(s: State, tab: nat, retire: bool, s': State, t: Ticker)
    requires Inv(s) && Held(s, t) && tab < |s.active| && s' == Closed(s, tab, retire)
    ensures Held(s', t)
  {
    hide Inv, Held;
    var context := s.active[tab];
    var silenced := SilenceForClosedTab(s, context);
    if t in silenced.service.silenced {
      SilencedIsHeld(s', t);
    } else {
      SameWatchersHeld(s, silenced, t);
      if context.ticker == t {
        ClosedTabHeld(s, s', tab, t);
      } else {
        OtherTabClosed(silenced, s', tab, t);
      }
    }
  }

  /** The same monitors, and tabs that correspond, hold the same alerts. */
  lemma WatchersCorrespond(s: State, s': State, t: Ticker)
    requires Held(s, t) && s'.service == s.service && s'.monitors == s.monitors
    requires forall i :: TabWatches(s', i, t) ==> exists k :: TabWatches(s, k, t) && s.active[k] == s'.active[i]
    requires (exists i :: TabWatches(s, i, t)) ==> exists k :: TabWatches(s', k, t)
    ensures Held(s', t)
  {
    forall j
      ensures MonitorWatches(s, j, t) <==> MonitorWatches(s', j, t)
    {
    }
  }

  /** A closed tab that was not silenced was not triggered, so it was not the one holding the alert. */
  lemma ClosedTabHeld(s: State, s': State, tab: nat, t: Ticker)
    requires Held(s, t) && tab < |s.active| && s.active[tab].ticker == t
    requires t !in s.service.silenced && !s.active[tab].triggered
    requires s'.active == s.active[..tab] + s.active[tab + 1..] && s'.monitors == s.monitors
    requires s'.service == s.service && s'.signature == s.signature
    ensures Held(s', t)
  {
    if s.service.ActiveThreshold(t) == None {
      NoThresholdHeld(s', t);
    } else {
      assert !TabWatches(s, tab, t);
      TabsCorrespond(s, s', tab, t);
      WatchersCorrespond(s, s', t);
    }
  }

  lemma TabsCorrespond(s: State, s': State, tab: nat, t: Ticker)
    requires tab < |s.active| && !TabWatches(s, tab, t)
    requires s'.active == s.active[..tab] + s.active[tab + 1..] && s'.signature == s.signature
    ensures forall i :: TabWatches(s', i, t) ==> exists k :: TabWatches(s, k, t) && s.active[k] == s'.active[i]
    ensures (exists i :: TabWatches(s, i, t)) ==> exists k :: TabWatches(s', k, t)
  {
    forall i | TabWatches(s', i, t)
      ensures exists k :: TabWatches(s, k, t) && s.active[k] == s'.active[i]
    {
      var k := if i < tab then i else i + 1;
      assert s.active[k] == s'.active[i];
      assert TabWatches(s, k, t);
    }
    if i :| TabWatches(s, i, t) {
      var k := if i < tab then i else i - 1;
      assert s.active[i] == s'.active[k];
      assert TabWatches(s', k, t);
    }
  }

  lemma OtherTabClosed(s: State, s': State, tab: nat, t: Ticker)
    requires Held(s, t) && tab < |s.active| && s.active[tab].ticker != t
    requires s'.active == s.active[..tab] + s.active[tab + 1..] && s'.monitors == s.monitors
    requires s'.service == s.service && s'.signature == s.signature
    ensures Held(s', t)
  {
    TabsCorrespond(s, s', tab, t);
    WatchersCorrespond(s, s', t);
  }

  lemma OpenHeld(s: State, ticker: Ticker, s': State, t: Ticker)
    requires Inv(s) && Held(s, t) && Next(s, OpenTab(ticker), s')
    ensures Held(s', t)
  {
    hide GoodSignature, NoRival, DistinctTickers, Owned, Held;
    forall i | TabWatches(s', i, t)
      ensures exists k :: TabWatches(s, k, t) && s.active[k] == s'.active[i]
    {
      assert i < |s.active|;
      assert TabWatches(s, i, t);
    }
    if i :| TabWatches(s, i, t) {
      assert TabWatches(s', i, t);
    }
    WatchersCorrespond(s, s', t);
  }

  // ---------------------------------------------------------------- a reconcile hands the alert over

  lemma OwnerIsIt(active: seq<Context>, i: nat)
    requires i < |active| && DistinctTickers(active)
    ensures Owner(active, active[i].ticker) == Some(i)
  {
    assert Owned(active, active[i].ticker);
  }

  /** A tab takes over the alert state of its ticker's monitors, and keeps its own if there are none. */
  lemma {:induction false} AdoptedTab(active: seq<Context>, monitors: seq<Context>, i: nat)
    requires i < |active| && DistinctTickers(active)
    requires forall j :: 0 <= j < |monitors| && monitors[j].ticker == active[i].ticker ==> monitors[j].triggered
    ensures Owned(monitors, active[i].ticker) || active[i].triggered ==> AdoptAll(active, monitors)[i].triggered
  {
    hide Owned;
    if monitors != [] {
      var front, last := monitors[..|monitors| - 1], monitors[|monitors| - 1];
      AdoptedTab(active, front, i);
      OwnedStep(monitors, active[i].ticker);
      var before := AdoptAll(active, front);
      OwnerIsIt(before, i);
    } else {
      assert !Owned(monitors, active[i].ticker) by { NobodyOwned(active[i].ticker); }
    }
  }

  /** A tab without a monitor of its ticker stays as it is. */
  lemma {:induction false} UnmonitoredTab(active: seq<Context>, monitors: seq<Context>, i: nat)
    requires i < |active| && DistinctTickers(active)
    requires forall j :: 0 <= j < |monitors| ==> monitors[j].ticker != active[i].ticker
    ensures AdoptAll(active, monitors)[i] == active[i]
  {
    if monitors != [] {
      UnmonitoredTab(active, monitors[..|monitors| - 1], i);
    }
  }

  /** A tab that takes over from its ticker's monitor has the monitor's alert state; from a monitor with good
      data it takes the price, if there is one, and counts as good when it then has a price. */
  lemma {:induction false} TakenOver(active: seq<Context>, monitors: seq<Context>, i: nat, j: nat)
    requires i < |active| && DistinctTickers(active) && j < |monitors| && DistinctTickers(monitors)
    requires monitors[j].ticker == active[i].ticker
    ensures var own, monitor, tab := active[i], monitors[j], AdoptAll(active, monitors)[i];
            && tab.id == own.id && tab.ticker == own.ticker
            && tab.triggered == monitor.triggered && tab.plays == monitor.plays
            && tab.price == (if monitor.success && monitor.price > 0.0 then monitor.price else own.price)
            && tab.success == (if monitor.success then tab.price > 0.0 else own.success)
  {
    var front, last := monitors[..|monitors| - 1], monitors[|monitors| - 1];
    var before := AdoptAll(active, front);
    assert DistinctTickers(front);
    if j == |monitors| - 1 {
      UnmonitoredTab(active, front, i);
      OwnerIsIt(before, i);
    } else {
      assert last.ticker != monitors[j].ticker;
      TakenOver(active, front, i, j);
    }
  }

  lemma NobodyOwned(t: Ticker)
    ensures !Owned([], t)
  {
  }

  lemma {:induction false} KeptMonitors(thresholds: map<Ticker, real>, active: seq<Context>, monitors: seq<Context>,
        context: Context)
    ensures context in Kept(thresholds, active, monitors)
            <==> context in monitors && context.ticker in thresholds && !Owned(active, context.ticker)
  {
    if monitors != [] {
      var front, last := monitors[..|monitors| - 1], monitors[|monitors| - 1];
      KeptMonitors(thresholds, active, front, context);
      assert context in monitors <==> context in front || context == last;
    }
  }

  lemma OwnedAsWatched(s: State, t: Ticker)
    ensures Owned(s.monitors, t) <==> exists j :: MonitorWatches(s, j, t)
  {
    if j :| 0 <= j < |s.monitors| && s.monitors[j].ticker == t {
      assert MonitorWatches(s, j, t);
    }
  }

  lemma KnownAfter(s: State, i: nat)
    requires i < |s.active| && s.signature == Some(TopologyOf(s.service.revision, s.active))
    ensures KnownTab(s, i)
  {
    assert s.signature.value.tabs[i].0 == s.active[i].id;
  }

  /** The tab that owns the ticker has been handed what its watcher knew. */
  lemma OwnedTabHeld(s: State, s': State, t: Ticker)
    requires DistinctTickers(s.active) && Watched(s, t) && AllTriggered(s, t) && Owned(s.active, t)
    requires s'.active == AdoptAll(s.active, s.monitors) && s'.service == s.service && !Owned(s'.monitors, t)
    requires s'.signature == Some(TopologyOf(s.service.revision, s'.active))
    ensures Held(s', t)
  {
    hide Owned, AdoptAll;
    OwnedAsWatched(s, t);
    OwnedAsWatched(s', t);
    var i := OwnerIndex(s.active, t);
    forall j | 0 <= j < |s.monitors| && s.monitors[j].ticker == s.active[i].ticker
      ensures s.monitors[j].triggered
    {
      assert MonitorWatches(s, j, t);
    }
    AdoptedTab(s.active, s.monitors, i);
    assert Owned(s.monitors, t) || s.active[i].triggered by {
      if !Owned(s.monitors, t) {
        var k :| TabWatches(s, k, t);
        assert k == i;
      }
    }
    KnownAfter(s', i);
    assert TabWatches(s', i, t);
  }

  lemma OwnerIndex(contexts: seq<Context>, t: Ticker) returns (i: nat)
    requires Owned(contexts, t)
    ensures i < |contexts| && contexts[i].ticker == t
  {
    i :| i < |contexts| && contexts[i].ticker == t;
  }

  /** The monitor that holds the alert stays, and no other is started. */
  lemma KeptMonitorHeld(s: State, s': State, t: Ticker, added: seq<Context>)
    requires Watched(s, t) && AllTriggered(s, t) && !Owned(s.active, t) && s.service.ActiveThreshold(t).Some?
    requires Added(s.service.thresholds, s.active, Kept(s.service.thresholds, s.active, s.monitors), added)
    requires s'.monitors == Kept(s.service.thresholds, s.active, s.monitors) + added && s'.service == s.service
    requires !Owned(s'.active, t)
    ensures Held(s', t)
  {
    hide Kept;
    var kept := Kept(s.service.thresholds, s.active, s.monitors);
    assert forall i :: !TabWatches(s, i, t) && !TabWatches(s', i, t);
    OwnedAsWatched(s, t);
    KeptIs(s.service.thresholds, s.active, s.monitors, t);
    assert Owned(kept, t);
    OwnedByEither(kept, added, t);
    OwnedAsWatched(s', t);
    assert forall i :: 0 <= i < |added| ==> added[i].ticker != t;
    forall j | MonitorWatches(s', j, t)
      ensures s'.monitors[j].triggered
    {
      assert j < |kept|;
      KeptMonitors(s.service.thresholds, s.active, s.monitors, kept[j]);
      var k :| 0 <= k < |s.monitors| && s.monitors[k] == kept[j];
      assert MonitorWatches(s, k, t);
    }
  }

  lemma ReconcileHeld(s: State, s': State, t: Ticker)
    requires Inv(s) && Held(s, t) && Reconciled(s, s')
    ensures Held(s', t)
  {
    hide Inv, Reconciled, Watched, AllTriggered, AdoptAll, Kept, Added, Owned;
    if s.signature == Some(TopologyOf(s.service.revision, s.active)) {
      SkippedReconcile(s, s');
    } else if s.service.ActiveThreshold(t).Some? && t !in s.service.silenced {
      var added := FullReconcile(s, s');
      SameOwned(s.active, s'.active);
      InvDistinct(s);
      if Owned(s.active, t) {
        MonitorsAfter(s, added, t);
        SameTopology(s.service.revision, s.active, s'.active);
        OwnedTabHeld(s, s', t);
      } else {
        KeptMonitorHeld(s, s', t, added);
      }
    } else {
      var _ := FullReconcile(s, s');
    }
  }

  lemma SameTopology(revision: nat, a: seq<Context>, b: seq<Context>)
    requires SameTabs(a, b)
    ensures TopologyOf(revision, a) == TopologyOf(revision, b)
  {
  }

  /** A held alert does not fire and stays held, unless it is re-armed. */
  lemma HeldStays(s: State, e: Event, s': State, t: Ticker)
    requires Inv(s) && Held(s, t) && Next(s, e, s') && t !in Rearms(s, e)
    ensures t !in Fires(s, e) && Held(s', t)
  {
    hide Inv, Held, Reconciled, Closed, KnownTab, Evaluate;
    match e
    case SetAlert(_, _, _) => SetHeld(s, e, s', t);
    case ClearAlert(_, _) => ClearHeld(s, e, s', t);
    case CloseTab(tab, retire) => CloseHeld(s, tab, retire, s', t);
    case OpenTab(ticker) => OpenHeld(s, ticker, s', t);
    case Reconcile => ReconcileHeld(s, s', t);
    case TabData(_, _, _, _) => TabDataHeld(s, e, s', t);
    case MonitorData(_, _, _, _) => MonitorDataHeld(s, e, s', t);
    case _ => PolicyHeld(s, e, s', t);
  }

  lemma EvaluateFired(service: Service, context: Context, now: int)
    requires Evaluate(service, context, now).fired
    ensures Evaluate(service, context, now).context.triggered
  {
  }

  /** An alert that fires is held afterwards: its one watcher is the context that fired. */
  lemma FiredIsHeld(s: State, e: Event, s': State, t: Ticker)
    requires Inv(s) && Next(s, e, s') && t in Fires(s, e)
    ensures Held(s', t)
  {
    hide Evaluate, GoodSignature, GoodIds;
    match e
    case SetAlert(tab, threshold, now) =>
      var (service, _) := s.service.SetThreshold(t, threshold);
      EvaluateFired(service, s.active[tab].(triggered := false), now);
      EvaluateKeepsThresholds(service, s.active[tab].(triggered := false), now);
      OnlyTabWatches(s, s', tab, t);
    case ClearAlert(tab, now) =>
      var removed := RemoveConfigured(s, t);
      NothingToFire(removed.service, removed.active[tab], now);
      assert false;
    case TabData(tab, price, success, now) =>
      EvaluateFired(s.service, DataContext(s.active[tab], price, success), now);
      EvaluateKeepsThresholds(s.service, DataContext(s.active[tab], price, success), now);
      OnlyTabWatches(s, s', tab, t);
    case MonitorData(monitor, price, success, now) =>
      EvaluateFired(s.service, DataContext(s.monitors[monitor], price, success), now);
      EvaluateKeepsThresholds(s.service, DataContext(s.monitors[monitor], price, success), now);
      OnlyMonitorWatches(s, s', monitor, t);
  }

  lemma OnlyTabWatches(s: State, s': State, tab: nat, t: Ticker)
    requires Inv(s) && TabWatches(s, tab, t)
    requires SameTabs(s.active, s'.active) && s'.monitors == s.monitors && s'.signature == s.signature
    requires s'.active[tab].triggered
    ensures Held(s', t)
  {
    hide GoodSignature, GoodIds;
    assert TabWatches(s', tab, t);
    OwnedAsWatched(s', t);
  }

  lemma OnlyMonitorWatches(s: State, s': State, monitor: nat, t: Ticker)
    requires Inv(s) && MonitorWatches(s, monitor, t)
    requires s'.active == s.active && SameTabs(s.monitors, s'.monitors) && s'.signature == s.signature
    requires s'.monitors[monitor].triggered
    ensures Held(s', t)
  {
    hide GoodSignature, GoodIds;
    assert MonitorWatches(s', monitor, t);
    OwnedAsWatched(s, t);
    forall i
      ensures !TabWatches(s', i, t)
    {
      assert TabWatches(s', i, t) ==> TabWatches(s, i, t) && KnownTab(s, i);
    }
  }

  // ---------------------------------------------------------------- runs

  ghost predicate IsRun(run: seq<State>, events: seq<Event>) {
    |run| == |events| + 1 && Init(run[0]) && forall i :: 0 <= i < |events| ==> Next(run[i], events[i], run[i + 1])
  }

  lemma InitInv(s: State)
    requires Init(s)
    ensures Inv(s)
  {
  }

  lemma {:induction false} RunKeepsInv(run: seq<State>, events: seq<Event>, i: nat)
    requires IsRun(run, events) && i < |run|
    ensures Inv(run[i])
    decreases i
  {
    hide Inv, Next, Init;
    if i == 0 {
      InitInv(run[0]);
    } else {
      RunKeepsInv(run, events, i - 1);
      NextKeepsInv(run[i - 1], events[i - 1], run[i]);
    }
  }

  predicate FiresAt(run: seq<State>, events: seq<Event>, i: nat, t: Ticker)
    requires i < |events| && i < |run|
  {
    Enabled(run[i], events[i]) && t in Fires(run[i], events[i])
  }

  predicate RearmsAt(run: seq<State>, events: seq<Event>, i: nat, t: Ticker)
    requires i < |events| && i < |run|
  {
    Enabled(run[i], events[i]) && t in Rearms(run[i], events[i])
  }

  lemma {:induction false} HeldUntilRearmed(run: seq<State>, events: seq<Event>, i: nat, j: nat, t: Ticker)
    requires IsRun(run, events) && i < j < |run| && FiresAt(run, events, i, t)
    requires forall k :: i < k < j ==> !RearmsAt(run, events, k, t)
    ensures Held(run[j], t)
    decreases j
  {
    hide Inv, Held, Fires, Rearms, Init;
    RunKeepsInv(run, events, j - 1);
    assert Next(run[j - 1], events[j - 1], run[j]);
    if i == j - 1 {
      FiredIsHeld(run[i], events[i], run[j], t);
    } else {
      HeldUntilRearmed(run, events, i, j - 1, t);
      assert !RearmsAt(run, events, j - 1, t);
      HeldStays(run[j - 1], events[j - 1], run[j], t);
    }
  }

  /** Two firings for a ticker are separated by a re-arming: the threshold set again, the alert resumed, a
      mute expired, or a quote above the threshold. */
  lemma FiringsAreSeparated(run: seq<State>, events: seq<Event>, i: nat, j: nat, t: Ticker)
    requires IsRun(run, events) && i < j < |events| && FiresAt(run, events, i, t) && FiresAt(run, events, j, t)
    ensures exists k :: i < k <= j && RearmsAt(run, events, k, t)
  {
    hide Inv, Held, Fires, Rearms, Init;
    if forall k :: i < k < j ==> !RearmsAt(run, events, k, t) {
      HeldUntilRearmed(run, events, i, j, t);
      RunKeepsInv(run, events, j);
      assert Next(run[j], events[j], run[j + 1]);
      if !RearmsAt(run, events, j, t) {
        HeldStays(run[j], events[j], run[j + 1], t);
        assert false;
      }
    }
  }

  /** Nothing keeps the ticker's alert from firing but a mute that has not run out. */
  ghost predicate Armed(s: State, t: Ticker) {
    && t !in s.service.silenced
    && (forall i :: TabWatches(s, i, t) ==> !s.active[i].triggered)
    && (forall j :: MonitorWatches(s, j, t) ==> !s.monitors[j].triggered)
  }

  /** Re-arming works: afterwards the alert is armed, unless setting the threshold has fired it at once. */
  lemma RearmingArms(s: State, e: Event, s': State, t: Ticker)
    requires Inv(s) && Next(s, e, s') && t in Rearms(s, e)
    ensures Armed(s', t) || (e.SetAlert? && t in Fires(s, e))
  {
    hide GoodSignature, GoodIds, Inv;
    match e
    case SetAlert(tab, threshold, now) =>
      RivalsOfTab(s, tab, t);
      OnlyOneTab(s, s', tab, t);
    case TabData(tab, price, success, now) =>
      RivalsOfTab(s, tab, t);
      OnlyOneTab(s, s', tab, t);
    case MonitorData(monitor, price, success, now) => OnlyOneMonitor(s, s', monitor, t);
    case _ =>
  }

  /** A known tab is its ticker's only watcher. */
  lemma RivalsOfTab(s: State, tab: nat, t: Ticker)
    requires Inv(s) && TabWatches(s, tab, t)
    ensures forall i :: TabWatches(s, i, t) ==> i == tab
    ensures forall j :: !MonitorWatches(s, j, t)
  {
    OwnedAsWatched(s, t);
    hide GoodSignature, GoodIds;
  }

  lemma OnlyOneTab(s: State, s': State, tab: nat, t: Ticker)
    requires forall i :: TabWatches(s, i, t) ==> i == tab
    requires forall j :: !MonitorWatches(s, j, t)
    requires SameTabs(s.active, s'.active) && s'.monitors == s.monitors && s'.signature == s.signature
    ensures forall i :: TabWatches(s', i, t) ==> i == tab
    ensures forall j :: !MonitorWatches(s', j, t)
  {
    forall i
      ensures TabWatches(s, i, t) <==> TabWatches(s', i, t)
    {
    }
    forall j
      ensures MonitorWatches(s, j, t) <==> MonitorWatches(s', j, t)
    {
    }
  }

  lemma OnlyOneMonitor(s: State, s': State, monitor: nat, t: Ticker)
    requires Inv(s) && MonitorWatches(s, monitor, t)
    requires s'.active == s.active && SameTabs(s.monitors, s'.monitors) && s'.signature == s.signature
    ensures forall i :: !TabWatches(s', i, t)
    ensures forall j :: MonitorWatches(s', j, t) ==> j == monitor
  {
    OwnedAsWatched(s, t);
    hide GoodSignature, GoodIds;
    forall i
      ensures !TabWatches(s', i, t)
    {
      assert TabWatches(s', i, t) ==> TabWatches(s, i, t) && KnownTab(s, i);
    }
    forall j
      ensures MonitorWatches(s, j, t) <==> MonitorWatches(s', j, t)
    {
    }
  }

  /** And an armed alert fires on the first quote at or below its threshold, at its tab or its monitor. */
  lemma ArmedFires(s: State, e: Event, t: Ticker, price: real, now: int)
    requires Armed(s, t) && Enabled(s, e) && !s.service.MutedUntil(t, now)
    requires s.service.ActiveThreshold(t).Some? && 0.0 < price <= s.service.ActiveThreshold(t).value
    requires || (e.TabData? && e == TabData(e.tab, price, true, now) && s.active[e.tab].ticker == t)
             || (e.MonitorData? && e == MonitorData(e.monitor, price, true, now) && s.monitors[e.monitor].ticker == t)
    ensures t in Fires(s, e)
  {
    if e.TabData? {
      assert TabWatches(s, e.tab, t);
    } else {
      assert MonitorWatches(s, e.monitor, t);
    }
  }

  // An alert at 10.0 is set on a tab and the tab is closed. Revisions start at 1.

  const EMPTY := Service(map[], 1, {}, map[])
  const ALERTING := Service(map["A" := 10.0], 2, {}, map[])

  lemma TabOpens(id: nat, service: Service, monitors: seq<Context>, retired: seq<Context>,
        signature: Option<Topology>) returns (s: State, s': State)
    ensures s == PriceAlerts.State(service, [], monitors, retired, signature, id)
    ensures s' == PriceAlerts.State(service, [FreshContext(id, "A")], monitors, retired, signature, id + 1)
    ensures Next(s, OpenTab("A"), s')
  {
    s := PriceAlerts.State(service, [], monitors, retired, signature, id);
    s' := PriceAlerts.State(service, [FreshContext(id, "A")], monitors, retired, signature, id + 1);
    NobodyOwned("A");
  }

  lemma TabIsReconciled(s: State) returns (s': State)
    requires s == PriceAlerts.State(EMPTY, [FreshContext(0, "A")], [], [], None, 1)
    ensures s' == s.(signature := Some(Topology(1, [(0, "A")]))) && Next(s, Reconcile, s')
  {
    s' := s.(signature := Some(Topology(1, [(0, "A")])));
    assert TopologyOf(1, s.active) == Topology(1, [(0, "A")]);
    assert Added(s.service.thresholds, s.active, [], []);
    assert Kept(s.service.thresholds, s.active, s.monitors) + [] == [];
  }

  lemma AlertIsSet(s: State) returns (s': State)
    requires s == PriceAlerts.State(EMPTY, [FreshContext(0, "A")], [], [], Some(Topology(1, [(0, "A")])), 1)
    ensures s' == s.(service := ALERTING) && Next(s, SetAlert(0, 10.0, 0), s')
  {
    s' := s.(service := ALERTING);
    assert s.signature.value.tabs[0].0 == s.active[0].id;
    assert EMPTY.SetThreshold("A", 10.0) == (ALERTING, true);
    assert s.active[0 := s.active[0]] == s.active;
  }

  lemma TabCloses(s: State) returns (s': State)
    requires s == PriceAlerts.State(ALERTING, [FreshContext(0, "A")], [], [], Some(Topology(1, [(0, "A")])), 1)
    ensures s' == s.(active := [], retired := [FreshContext(0, "A")]) && Next(s, CloseTab(0, true), s')
  {
    s' := s.(active := [], retired := [FreshContext(0, "A")]);
    assert !Silences(s.service, s.active[0]);
    assert s.active[..0] + s.active[1..] == [];
    assert s.retired + [s.active[0]] == [FreshContext(0, "A")];
  }

  lemma MonitorStarts(s: State) returns (s': State)
    requires s == PriceAlerts.State(ALERTING, [], [], [FreshContext(0, "A")], Some(Topology(1, [(0, "A")])), 1)
    ensures s' == s.(monitors := [FreshContext(0, "A")], signature := Some(Topology(2, [])))
    ensures Next(s, Reconcile, s')
  {
    var added := [FreshContext(0, "A")];
    s' := s.(monitors := added, signature := Some(Topology(2, [])));
    assert TopologyOf(2, s.active) == Topology(2, []);
    NobodyOwned("A");
    assert added[0].ticker == "A" && Owned(added, "A");
    assert Added(s.service.thresholds, s.active, [], added);
    assert Kept(s.service.thresholds, s.active, s.monitors) + added == added;
  }

  lemma MonitorFires(s: State) returns (s': State)
    requires s == PriceAlerts.State(ALERTING, [], [FreshContext(0, "A")], [FreshContext(0, "A")],
                                    Some(Topology(2, [])), 1)
    ensures s' == s.(monitors := [Context(0, "A", 5.0, true, true, 1)])
    ensures Next(s, MonitorData(0, 5.0, true, 0), s') && "A" in Fires(s, MonitorData(0, 5.0, true, 0))
  {
    s' := s.(monitors := [Context(0, "A", 5.0, true, true, 1)]);
    assert s.monitors[0 := Context(0, "A", 5.0, true, true, 1)] == s'.monitors;
  }

  lemma FiredMonitorHolds(s: State)
    requires s.service == ALERTING && s.active == [FreshContext(1, "A")] && s.signature == Some(Topology(2, []))
    requires s.monitors == [Context(0, "A", 5.0, true, true, 1)]
    ensures Held(s, "A") && !KnownTab(s, 0) && Evaluate(s.service, DataContext(s.active[0], 5.0, true), 0).fired
  {
    assert MonitorWatches(s, 0, "A");
  }

  /** Why a new tab is reconciled before it is first evaluated: a run at whose end a monitor has fired the
      alert and holds it, and yet evaluating the tab just opened would fire it again. */
  lemma ReconcileMustComeFirst() returns (run: seq<State>, events: seq<Event>)
    ensures |events| == 7 && IsRun(run, events) && run[0].service == EMPTY
    ensures FiresAt(run, events, 5, "A") && !RearmsAt(run, events, 6, "A")
    ensures var s := run[7];
            && Held(s, "A") && s.active == [FreshContext(1, "A")] && !KnownTab(s, 0)
            && Evaluate(s.service, DataContext(s.active[0], 5.0, true), 0).fired
  {
    hide Next, Held, Evaluate, KnownTab, Fires;
    var s0, s1 := TabOpens(0, EMPTY, [], [], None);
    var s2 := TabIsReconciled(s1);
    var s3 := AlertIsSet(s2);
    var s4 := TabCloses(s3);
    var s5 := MonitorStarts(s4);
    var s6 := MonitorFires(s5);
    var t6, s7 := TabOpens(1, ALERTING, s6.monitors, s6.retired, s6.signature);
    FiredMonitorHolds(s7);
    run := [s0, s1, s2, s3, s4, s5, s6, s7];
    events := [OpenTab("A"), Reconcile, SetAlert(0, 10.0, 0), CloseTab(0, true), Reconcile,
               MonitorData(0, 5.0, true, 0), OpenTab("A")];
  }

  /** One tab and no monitor, or no tab and exactly one monitor. */
  ghost predicate OneKindOfWatcher(s: State, t: Ticker) {
    || (Owned(s.active, t) && !Owned(s.monitors, t))
    || (!Owned(s.active, t) && exists j :: OnlyMonitor(s, j, t))
  }

  ghost predicate OnlyMonitor(s: State, j: int, t: Ticker) {
    MonitorWatches(s, j, t) && forall k :: MonitorWatches(s, k, t) ==> k == j
  }

  /** After every reconcile, full or skipped, each valid threshold has exactly one kind of watcher and no
      monitor lacks a threshold. */
  lemma ReconciledAlertsAreWatched(run: seq<State>, events: seq<Event>, i: nat)
    requires IsRun(run, events) && i < |events| && events[i] == Reconcile
    ensures var s := run[i + 1];
            && (forall t :: t in s.service.thresholds && s.service.thresholds[t] > 0.0 ==> OneKindOfWatcher(s, t))
            && (forall j :: 0 <= j < |s.monitors| ==> s.monitors[j].ticker in s.service.thresholds)
  {
    hide Init;
    RunKeepsInv(run, events, i + 1);
    assert Next(run[i], events[i], run[i + 1]);
    var s := run[i + 1];
    assert s.signature == Some(TopologyOf(s.service.revision, s.active)) by {
      ReconcileSigns(run[i], s);
    }
    hide Next, TopologyOf, Owned, InTopology, OneKindOfWatcher;
    forall t | t in s.service.thresholds && s.service.thresholds[t] > 0.0
      ensures OneKindOfWatcher(s, t)
    {
      SettledIsWatched(s, t);
    }
  }

  lemma ReconcileSigns(s: State, s': State)
    requires Reconciled(s, s')
    ensures s'.signature == Some(TopologyOf(s'.service.revision, s'.active))
  {
    hide AdoptAll, Kept, Added;
    if s.signature != Some(TopologyOf(s.service.revision, s.active)) {
      var _ := FullReconcile(s, s');
      SameTopology(s.service.revision, s.active, s'.active);
    }
  }

  lemma SettledIsWatched(s: State, t: Ticker)
    requires Inv(s) && s.signature == Some(TopologyOf(s.service.revision, s.active))
    requires t in s.service.thresholds && s.service.thresholds[t] > 0.0
    ensures OneKindOfWatcher(s, t)
  {
    hide TopologyOf, Owned, InTopology, NoRival, GoodIds;
    var topology := s.signature.value;
    assert topology.revision == s.service.revision by { TopologyRevision(s.service.revision, s.active); }
    assert Settled(s, topology);
    TopologyTickers(s.service.revision, s.active, t);
    OwnedAsWatched(s, t);
    if Owned(s.monitors, t) {
      var j :| MonitorWatches(s, j, t);
      assert !InTopology(topology, s.monitors[j].ticker);
      assert OnlyMonitor(s, j, t);
    }
  }

  lemma TopologyRevision(revision: nat, active: seq<Context>)
    ensures TopologyOf(revision, active).revision == revision
  {
  }
}
