/** What muting a price alert until a time promises over whole runs, and what ends it early. */
module PriceAlertMutes {
  import opened Options
  import opened PriceAlerts
  import opened PriceAlertRuns

  predicate HasThreshold(s: State, t: Ticker) {
    t in s.service.thresholds && s.service.thresholds[t] > 0.0
  }

  /** The price is at or under the alert, or the alert has fired or is sounding. */
  predicate Ringing(s: State, context: Context) {
    || (HasThreshold(s, context.ticker) && context.success
        && 0.0 < context.price <= s.service.thresholds[context.ticker])
    || context.triggered || context.plays > 0
  }

  /** What ends a mute: the threshold is set or removed, the silenced alert is resumed, the time has come,
      another silence takes the place of the mute (a tab that is closed while ringing makes one), or the
      ticker is evaluated without a threshold. */
  predicate EndsMute(s: State, e: Event, t: Ticker, until: int)
    requires Enabled(s, e)
  {
    match e
    case SetAlert(tab, threshold, _) =>
      s.active[tab].ticker == t && t != "" && threshold > 0.0
      && (t in s.service.thresholds || |s.service.thresholds| < 128)
    case ClearAlert(tab, _) => s.active[tab].ticker == t
    case ResumeAlert(ticker) => ticker == t && t in s.service.thresholds && t in s.service.silenced
    case Expire(now) => until <= now
    case SilenceAlert(ticker, other) => ticker == t && other != Some(until)
    case CloseTab(tab, _) => s.active[tab].ticker == t && Ringing(s, s.active[tab])
    case TabData(tab, _, success, _) => s.active[tab].ticker == t && success && !HasThreshold(s, t)
    case MonitorData(monitor, _, _, _) => s.monitors[monitor].ticker == t && !HasThreshold(s, t)
    case _ => false
  }

  /** Nothing is evaluated in this event at or after a time. */
  predicate HappensBefore(e: Event, until: int) {
    match e
    case SetAlert(_, _, now) => now < until
    case ClearAlert(_, now) => now < until
    case TabData(_, _, _, now) => now < until
    case MonitorData(_, _, _, now) => now < until
    case _ => true
  }

  predicate Muted(s: State, t: Ticker, until: int) {
    t in s.service.mutes && s.service.mutes[t] == until
  }

  predicate SilentIn(contexts: seq<Context>, t: Ticker) {
    forall i :: 0 <= i < |contexts| && contexts[i].ticker == t ==> contexts[i].plays == 0
  }

  /** No context of the ticker has a sound left to play. */
  predicate Silent(s: State, t: Ticker) {
    SilentIn(s.active, t) && SilentIn(s.monitors, t) && SilentIn(s.retired, t)
  }

  /** Evaluating any other ticker leaves the mute alone, and so does evaluating this one with a threshold,
      above it too. */
  lemma EvaluateKeepsMute(s: State, service: Service, context: Context, now: int, t: Ticker, until: int)
    requires t in service.mutes && service.mutes[t] == until
    ensures var o := Evaluate(service, context, now);
            (t in o.service.mutes && o.service.mutes[t] == until)
            <==> context.ticker != t || (t in service.thresholds && service.thresholds[t] > 0.0)
  {
  }

  /** Before the time no evaluation of a muted ticker fires or makes a sound. */
  lemma MutedEvaluation(service: Service, context: Context, now: int, until: int)
    requires context.ticker in service.mutes && service.mutes[context.ticker] == until && now < until
    ensures var o := Evaluate(service, context, now);
            !o.fired && (o.context.plays == 0 || o.context.plays == context.plays)
  {
  }

  /** A mute lasts through an event exactly if the event is none that ends it. */
  lemma MuteLasts(s: State, e: Event, s': State, t: Ticker, until: int)
    requires Muted(s, t, until) && Next(s, e, s')
    ensures Muted(s', t, until) <==> !EndsMute(s, e, t, until)
  {
    hide Evaluate, Reconciled, SilenceContexts, RearmContexts, KnownTab;
    match e
    case SetAlert(tab, threshold, now) =>
      KnownIsTab(s, tab);
      var context := s.active[tab];
      var (service, accepted) := s.service.SetThreshold(context.ticker, threshold);
      if context.ticker != t {
        EvaluateKeepsMute(s, service, context.(triggered := false), now, t, until);
      } else if accepted {
        NoMuteNoEvaluation(service, context.(triggered := false), now, t);
      }
    case ClearAlert(tab, now) =>
      KnownIsTab(s, tab);
      RemoveKeepsOthers(s, tab, now, t);
    case TabData(tab, price, success, now) =>
      KnownIsTab(s, tab);
      EvaluateKeepsMute(s, s.service, DataContext(s.active[tab], price, success), now, t, until);
    case MonitorData(monitor, price, success, now) =>
      EvaluateKeepsMute(s, s.service, DataContext(s.monitors[monitor], price, success), now, t, until);
    case Reconcile => ReconcileKeepsService(s, s');
    case CloseTab(tab, _) => RingingSilences(s, s.active[tab]);
    case _ =>
  }

  lemma NoMuteNoEvaluation(service: Service, context: Context, now: int, t: Ticker)
    requires t !in service.mutes
    ensures t !in Evaluate(service, context, now).service.mutes
  {
  }

  lemma RemoveKeepsOthers(s: State, tab: nat, now: int, t: Ticker)
    requires tab < |s.active|
    ensures var removed := RemoveConfigured(s, s.active[tab].ticker);
            && |removed.active| == |s.active| && removed.active[tab].ticker == s.active[tab].ticker
            && var mutes := Evaluate(removed.service, removed.active[tab], now).service.mutes;
               if s.active[tab].ticker == t then t !in mutes
               else (t in mutes <==> t in s.service.mutes) && (t in mutes ==> mutes[t] == s.service.mutes[t])
  {
    hide WithoutTicker;
  }

  lemma ReconcileKeepsService(s: State, s': State)
    requires Reconciled(s, s')
    ensures s'.service == s.service && s'.retired == s.retired
  {
    hide AdoptAll, Kept, Added;
    if s.signature != Some(TopologyOf(s.service.revision, s.active)) {
      var _ := FullReconcile(s, s');
    }
  }

  lemma RingingSilences(s: State, context: Context)
    ensures Silences(s.service, context) <==> Ringing(s, context)
  {
  }

  /** Before the time an event that does not end the mute fires nothing for the ticker. */
  lemma MutedDoesNotFire(s: State, e: Event, t: Ticker, until: int)
    requires Muted(s, t, until) && Enabled(s, e) && !EndsMute(s, e, t, until) && HappensBefore(e, until)
    ensures t !in Fires(s, e)
  {
    hide Evaluate;
    match e
    case SetAlert(tab, threshold, now) =>
      KnownIsTab(s, tab);
    case ClearAlert(tab, _) => KnownIsTab(s, tab);
    case TabData(tab, price, success, now) =>
      KnownIsTab(s, tab);
      if s.active[tab].ticker == t {
        MutedEvaluation(s.service, DataContext(s.active[tab], price, success), now, until);
      }
    case MonitorData(monitor, price, success, now) =>
      if s.monitors[monitor].ticker == t {
        MutedEvaluation(s.service, DataContext(s.monitors[monitor], price, success), now, until);
      }
    case _ =>
  }

  // ---------------------------------------------------------------- no sound

  lemma UpdateSilent(contexts: seq<Context>, i: nat, context: Context, t: Ticker)
    requires SilentIn(contexts, t) && i < |contexts| && (context.ticker == t ==> context.plays == 0)
    ensures SilentIn(contexts[i := context], t)
  {
  }

  lemma EvaluateKeepsTicker(service: Service, context: Context, now: int)
    ensures Evaluate(service, context, now).context.ticker == context.ticker
  {
  }

  lemma {:induction false} AdoptSilent(active: seq<Context>, monitors: seq<Context>, t: Ticker)
    requires SilentIn(active, t) && SilentIn(monitors, t)
    ensures SilentIn(AdoptAll(active, monitors), t)
  {
    if monitors != [] {
      var front, last := monitors[..|monitors| - 1], monitors[|monitors| - 1];
      AdoptSilent(active, front, t);
      hide AdoptAll;
      assert last.ticker == t ==> last.plays == 0;
    }
  }

  lemma {:induction false} KeptSilent(thresholds: map<Ticker, real>, active: seq<Context>, monitors: seq<Context>,
        t: Ticker)
    requires SilentIn(monitors, t)
    ensures SilentIn(Kept(thresholds, active, monitors), t)
  {
    if monitors != [] {
      KeptSilent(thresholds, active, monitors[..|monitors| - 1], t);
    }
  }

  lemma {:induction false} WithoutSilent(contexts: seq<Context>, ticker: Ticker, t: Ticker)
    requires SilentIn(contexts, t)
    ensures SilentIn(WithoutTicker(contexts, ticker), t)
  {
    if contexts != [] {
      WithoutSilent(contexts[..|contexts| - 1], ticker, t);
    }
  }

  lemma ReconcileSilent(s: State, s': State, t: Ticker)
    requires Silent(s, t) && Reconciled(s, s')
    ensures Silent(s', t)
  {
    hide AdoptAll, Kept;
    if s.signature != Some(TopologyOf(s.service.revision, s.active)) {
      var added := FullReconcile(s, s');
      AdoptSilent(s.active, s.monitors, t);
      KeptSilent(s.service.thresholds, s.active, s.monitors, t);
    }
  }

  /** Nor does it make a sound, or hand one on. */
  lemma MutedStaysSilent(s: State, e: Event, s': State, t: Ticker, until: int)
    requires Muted(s, t, until) && Silent(s, t) && Next(s, e, s')
    requires !EndsMute(s, e, t, until) && HappensBefore(e, until)
    ensures Silent(s', t)
  {
    hide Evaluate, Reconciled;
    match e
    case SetAlert(tab, threshold, now) =>
      KnownIsTab(s, tab);
      var (service, _) := s.service.SetThreshold(s.active[tab].ticker, threshold);
      EvaluateKeepsTicker(service, s.active[tab].(triggered := false), now);
    case ClearAlert(tab, now) =>
      KnownIsTab(s, tab);
      ClearedSilent(s, tab, now, s', t);
    case TabData(tab, price, success, now) =>
      KnownIsTab(s, tab);
      var context := DataContext(s.active[tab], price, success);
      EvaluateKeepsTicker(s.service, context, now);
      if context.ticker == t {
        MutedEvaluation(s.service, context, now, until);
      }
    case MonitorData(monitor, price, success, now) =>
      var context := DataContext(s.monitors[monitor], price, success);
      EvaluateKeepsTicker(s.service, context, now);
      if context.ticker == t {
        MutedEvaluation(s.service, context, now, until);
      }
    case Reconcile => ReconcileSilent(s, s', t);
    case _ =>
  }

  lemma ClearedSilent(s: State, tab: nat, now: int, s': State, t: Ticker)
    requires Silent(s, t) && KnownTab(s, tab) && s.active[tab].ticker != t && Next(s, ClearAlert(tab, now), s')
    ensures Silent(s', t)
  {
    WithoutSilent(s.monitors, s.active[tab].ticker, t);
    hide WithoutTicker, Evaluate;
    var removed := RemoveConfigured(s, s.active[tab].ticker);
    EvaluateKeepsTicker(removed.service, removed.active[tab], now);
  }

  lemma SilencingSilences(s: State, t: Ticker, until: int, s': State)
    requires Next(s, SilenceAlert(t, Some(until)), s')
    ensures Muted(s', t, until) && Silent(s', t)
  {
  }

  // ---------------------------------------------------------------- runs

  predicate Undisturbed(run: seq<State>, events: seq<Event>, k: nat, t: Ticker, until: int)
    requires k < |events| && k < |run|
  {
    Enabled(run[k], events[k]) && !EndsMute(run[k], events[k], t, until) && HappensBefore(events[k], until)
  }

  lemma {:induction false} MuteHolds(run: seq<State>, events: seq<Event>, i: nat, j: nat, t: Ticker, until: int)
    requires IsRun(run, events) && i < j <= |events| && events[i] == SilenceAlert(t, Some(until))
    requires forall k :: i < k < j ==> Undisturbed(run, events, k, t, until)
    ensures Muted(run[j], t, until) && Silent(run[j], t)
    decreases j
  {
    hide Init, Next, Muted, Silent, EndsMute, HappensBefore;
    assert Next(run[j - 1], events[j - 1], run[j]);
    if j == i + 1 {
      SilencingSilences(run[i], t, until, run[j]);
    } else {
      MuteHolds(run, events, i, j - 1, t, until);
      assert Undisturbed(run, events, j - 1, t, until);
      MuteLasts(run[j - 1], events[j - 1], run[j], t, until);
      MutedStaysSilent(run[j - 1], events[j - 1], run[j], t, until);
    }
  }

  /** A mute mutes: after a ticker is silenced until a time, no event before that time fires its alert and none
      leaves it a sound to play, whatever quotes arrive, tabs open and close or hand-overs happen, until the
      mute is ended. */
  lemma MuteMutes(run: seq<State>, events: seq<Event>, i: nat, j: nat, t: Ticker, until: int)
    requires IsRun(run, events) && i < j < |events| && events[i] == SilenceAlert(t, Some(until))
    requires forall k :: i < k <= j ==> Undisturbed(run, events, k, t, until)
    ensures !FiresAt(run, events, j, t) && Silent(run[j + 1], t)
  {
    hide Init, Next, Muted, Silent, EndsMute, HappensBefore, Fires;
    MuteHolds(run, events, i, j, t, until);
    MuteHolds(run, events, i, j + 1, t, until);
    assert Undisturbed(run, events, j, t, until);
    MutedDoesNotFire(run[j], events[j], t, until);
  }

  // An alert at 10.0 fires on a tab, is muted until 100, and the tab is closed.

  const MUTED := Service(map["A" := 10.0], 2, {"A"}, map["A" := 100])
  const SILENCED := Service(map["A" := 10.0], 2, {"A"}, map[])

  const FIRED := Context(0, "A", 5.0, true, true, 1)
  const QUIET := Context(0, "A", 5.0, true, true, 0)

  lemma TabFires(s: State) returns (s': State)
    requires s == PriceAlerts.State(ALERTING, [FreshContext(0, "A")], [], [], Some(Topology(2, [(0, "A")])), 1)
    ensures s' == s.(active := [FIRED]) && Next(s, TabData(0, 5.0, true, 0), s')
  {
    s' := s.(active := [FIRED]);
    assert s.signature.value.tabs[0].0 == s.active[0].id;
    assert s.active[0 := FIRED] == [FIRED];
  }

  lemma TabIsMuted(s: State) returns (s': State)
    requires s == PriceAlerts.State(ALERTING, [FIRED], [], [], Some(Topology(2, [(0, "A")])), 1)
    ensures s' == s.(service := MUTED, active := [QUIET]) && Next(s, SilenceAlert("A", Some(100)), s')
  {
    s' := s.(service := MUTED, active := [QUIET]);
    assert s.service.Silence("A", Some(100)) == MUTED;
    assert SilenceContexts(MUTED, "A", [FIRED]) == [QUIET];
    assert SilenceContexts(MUTED, "A", []) == [];
  }

  lemma MutedTabCloses(s: State) returns (s': State)
    requires s == PriceAlerts.State(MUTED, [QUIET], [], [], Some(Topology(2, [(0, "A")])), 1)
    ensures s' == s.(service := SILENCED, active := [], retired := [QUIET]) && Next(s, CloseTab(0, true), s')
  {
    s' := s.(service := SILENCED, active := [], retired := [QUIET]);
    assert s.service.Silence("A", None) == SILENCED;
    assert SilenceContexts(SILENCED, "A", [QUIET]) == [QUIET] && SilenceContexts(SILENCED, "A", []) == [];
    assert [QUIET][..0] + [QUIET][1..] == [] && [] + [QUIET] == [QUIET];
  }

  lemma MonitorTakesOver(s: State) returns (s': State)
    requires s == PriceAlerts.State(SILENCED, [], [], [QUIET], Some(Topology(2, [(0, "A")])), 1)
    ensures s' == s.(monitors := [FreshContext(0, "A")], signature := Some(Topology(2, [])))
    ensures Next(s, Reconcile, s')
  {
    var added := [FreshContext(0, "A")];
    s' := s.(monitors := added, signature := Some(Topology(2, [])));
    assert TopologyOf(2, s.active) == Topology(2, []);
    NobodyOwned("A");
    assert added[0].ticker == "A" && Owned(added, "A");
    assert Added(s.service.thresholds, s.active, [], added);
    assert Kept(s.service.thresholds, s.active, s.monitors) + added == added;
  }

  lemma MonitorRises(s: State) returns (s': State)
    requires s == PriceAlerts.State(SILENCED, [], [FreshContext(0, "A")], [QUIET], Some(Topology(2, [])), 1)
    ensures s' == s.(service := ALERTING, monitors := [Context(0, "A", 11.0, true, false, 0)])
    ensures Next(s, MonitorData(0, 11.0, true, 10), s')
  {
    s' := s.(service := ALERTING, monitors := [Context(0, "A", 11.0, true, false, 0)]);
    assert SILENCED.silenced - {"A"} == {};
    assert s.monitors[0 := Context(0, "A", 11.0, true, false, 0)] == s'.monitors;
  }

  lemma MonitorFalls(s: State) returns (s': State)
    requires s.service == ALERTING && s.monitors == [Context(0, "A", 11.0, true, false, 0)]
    ensures Next(s, MonitorData(0, 5.0, true, 50), s') && "A" in Fires(s, MonitorData(0, 5.0, true, 50))
  {
    s' := s.(monitors := [FIRED]);
    assert s.monitors[0 := FIRED] == s'.monitors;
  }

  lemma TabAppears() returns (s0: State, s1: State, s2: State)
    ensures Init(s0) && Next(s0, OpenTab("A"), s1) && Next(s1, Reconcile, s2)
    ensures s2 == PriceAlerts.State(ALERTING, [FreshContext(0, "A")], [], [], Some(Topology(2, [(0, "A")])), 1)
  {
    s0, s1 := TabOpens(0, ALERTING, [], [], None);
    s2 := s1.(signature := Some(Topology(2, [(0, "A")])));
    assert TopologyOf(2, s1.active) == Topology(2, [(0, "A")]);
    assert s1.active[0].ticker == "A" && Owned(s1.active, "A");
    assert Added(s1.service.thresholds, s1.active, [], []);
    assert Kept(s1.service.thresholds, s1.active, s1.monitors) + [] == [];
  }

  /** Closing a tab while its alert rings forgets the mute: muted until 100, the alert fires again at 50, once
      the price has been above the threshold in between. */
  lemma ClosingForgetsMute() returns (run: seq<State>, events: seq<Event>)
    ensures IsRun(run, events)
    ensures events == [OpenTab("A"), Reconcile, TabData(0, 5.0, true, 0), SilenceAlert("A", Some(100)),
                       CloseTab(0, true), Reconcile, MonitorData(0, 11.0, true, 10), MonitorData(0, 5.0, true, 50)]
    ensures FiresAt(run, events, 7, "A")
  {
    hide Next, Init, Fires;
    var s0, s1, s2 := TabAppears();
    var s3 := TabFires(s2);
    var s4 := TabIsMuted(s3);
    var s5 := MutedTabCloses(s4);
    var s6 := MonitorTakesOver(s5);
    var s7 := MonitorRises(s6);
    var s8 := MonitorFalls(s7);
    run := [s0, s1, s2, s3, s4, s5, s6, s7, s8];
    events := [OpenTab("A"), Reconcile, TabData(0, 5.0, true, 0), SilenceAlert("A", Some(100)),
               CloseTab(0, true), Reconcile, MonitorData(0, 11.0, true, 10), MonitorData(0, 5.0, true, 50)];
  }
}
