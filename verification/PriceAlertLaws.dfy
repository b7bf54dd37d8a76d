/** What evaluation and the policies do to every context, in terms of prices, thresholds and times. */
module PriceAlertLaws {
  import opened Options
  import opened PriceAlerts
  import opened PriceAlertRuns

  predicate AtOrUnder(service: Service, context: Context) {
    && context.ticker in service.thresholds && service.thresholds[context.ticker] > 0.0
    && context.success && 0.0 < context.price <= service.thresholds[context.ticker]
  }

  predicate Over(service: Service, context: Context) {
    && context.ticker in service.thresholds && service.thresholds[context.ticker] > 0.0
    && context.success && context.price > 0.0 && context.price > service.thresholds[context.ticker]
  }

  predicate Hushed(service: Service, ticker: Ticker, now: int) {
    ticker in service.silenced || (ticker in service.mutes && now < service.mutes[ticker])
  }

  predicate Configured(service: Service, ticker: Ticker) {
    ticker in service.thresholds && service.thresholds[ticker] > 0.0
  }

  /** Evaluating a context: with a threshold and a price it is triggered exactly while the price is at or under the
      threshold; it fires, with one sound, exactly if it was not and is neither silenced nor muted; a price over
      the threshold ends the silence but no mute. Without a threshold it ends both. */
  lemma EvaluationIs(service: Service, context: Context, now: int)
    ensures var o, t := Evaluate(service, context, now), context.ticker;
            && (o.fired <==> AtOrUnder(service, context) && !context.triggered && !Hushed(service, t, now))
            && o.context == context.(triggered := o.context.triggered, plays := o.context.plays)
            && (AtOrUnder(service, context) || Over(service, context) ==>
                  (o.context.triggered <==> AtOrUnder(service, context)))
            && (!Configured(service, t) ==> !o.context.triggered)
            && (Configured(service, t) && !AtOrUnder(service, context) && !Over(service, context) ==>
                  o.context == context && o.service == service)
            && o.context.plays == (if o.fired then 1
                                   else if !Configured(service, t) || Over(service, context) then 0
                                   else if AtOrUnder(service, context) && Hushed(service, t, now) then 0
                                   else context.plays)
            && o.service.thresholds == service.thresholds && o.service.revision == service.revision
            && o.service.silenced == (if !Configured(service, t) || Over(service, context)
                                      then service.silenced - {t} else service.silenced)
            && o.service.mutes == (if !Configured(service, t) then service.mutes - {t} else service.mutes)
  {
  }

  /** The revision changes exactly when the thresholds do, and then goes up by one; a threshold that is set or
      removed leaves neither silence nor mute. */
  lemma ThresholdsAndRevision(service: Service, ticker: Ticker, threshold: real)
    ensures var (set', accepted) := service.SetThreshold(ticker, threshold);
            && (accepted <==> ticker != "" && threshold > 0.0
                              && (ticker in service.thresholds || |service.thresholds| < 128))
            && (if accepted then set'.thresholds == service.thresholds[ticker := threshold]
                                 && ticker !in set'.silenced && ticker !in set'.mutes
                else set' == service)
            && set'.revision == (if set'.thresholds == service.thresholds then service.revision
                                 else service.revision + 1)
            && (forall t :: t != ticker ==> (t in set'.silenced <==> t in service.silenced)
                                            && (t in set'.mutes <==> t in service.mutes)
                                            && (t in set'.mutes ==> set'.mutes[t] == service.mutes[t]))
    ensures var (removed, had) := service.RemoveThreshold(ticker);
            && (had <==> ticker in service.thresholds) && removed.thresholds == service.thresholds - {ticker}
            && ticker !in removed.silenced && ticker !in removed.mutes
            && removed.revision == (if removed.thresholds == service.thresholds then service.revision
                                    else service.revision + 1)
            && (forall t :: t != ticker ==> (t in removed.silenced <==> t in service.silenced)
                                            && (t in removed.mutes <==> t in service.mutes)
                                            && (t in removed.mutes ==> removed.mutes[t] == service.mutes[t]))
  {
    var (set', accepted) := service.SetThreshold(ticker, threshold);
    if accepted && set'.thresholds == service.thresholds {
      assert ticker in set'.thresholds && set'.thresholds[ticker] == threshold;
    }
    if accepted && ticker in service.thresholds && service.thresholds[ticker] == threshold {
      assert set'.thresholds == service.thresholds;
    }
    if ticker !in service.thresholds {
      assert service.thresholds - {ticker} == service.thresholds;
    }
  }

  /** All contexts of the tab list, the monitors and the retired ones, in one sequence. */
  function All(s: State): seq<Context> {
    s.active + s.monitors + s.retired
  }

  lemma AllMapped(s: State, s': State, f: Context -> Context)
    requires s'.active == Mapped(s.active, f) && s'.monitors == Mapped(s.monitors, f)
    requires s'.retired == Mapped(s.retired, f)
    ensures |All(s')| == |All(s)| && forall i :: 0 <= i < |All(s)| ==> All(s')[i] == f(All(s)[i])
  {
  }

  /** A silence reaches every context of the ticker, retired ones too: it has no sound left and counts as triggered
      exactly if its price is at or under the threshold. Other tickers are left alone. */
  lemma SilenceReachesAll(s: State, ticker: Ticker, until: Option<int>)
    ensures var s' := ApplySilence(s, ticker, until);
            && |All(s')| == |All(s)|
            && (forall i :: 0 <= i < |All(s)| ==>
                  var c, c' := All(s)[i], All(s')[i];
                  if c.ticker == ticker
                  then c' == c.(triggered := c'.triggered, plays := 0) && (c'.triggered <==> AtOrUnder(s.service, c))
                  else c' == c)
            && s'.service.silenced == s.service.silenced + {ticker}
            && (until.Some? ==> ticker in s'.service.mutes && s'.service.mutes[ticker] == until.value)
            && (until.None? ==> ticker !in s'.service.mutes)
  {
    var s' := ApplySilence(s, ticker, until);
    AllMapped(s, s', context => SilencedContext(s'.service, ticker, context));
  }

  /** So does re-arming, by resuming the alert or by the end of its mute. */
  lemma RearmReachesAll(s: State, service: Service, tickers: set<Ticker>)
    ensures var s' := Rearm(s, service, tickers);
            |All(s')| == |All(s)|
            && forall i :: 0 <= i < |All(s)| ==>
                 All(s')[i] == if All(s)[i].ticker in tickers then All(s)[i].(triggered := false, plays := 0)
                               else All(s)[i]
  {
    AllMapped(s, Rearm(s, service, tickers), context => RearmedContext(tickers, context));
  }

  lemma ResumingReachesAll(s: State, ticker: Ticker)
    ensures var s', resumed := Resume(s, ticker), ticker in s.service.thresholds && ticker in s.service.silenced;
            && |All(s')| == |All(s)|
            && (forall i :: 0 <= i < |All(s)| ==>
                  All(s')[i] == if resumed && All(s)[i].ticker == ticker then All(s)[i].(triggered := false, plays := 0)
                                else All(s)[i])
            && s'.service.silenced == (if resumed then s.service.silenced - {ticker} else s.service.silenced)
            && s'.service.mutes == (if resumed then s.service.mutes - {ticker} else s.service.mutes)
  {
    RearmReachesAll(s, s.service.ClearSilence(ticker), {ticker});
  }

  /** Mutes end exactly when their time has come, with their silences, and re-arm their tickers everywhere. */
  lemma ExpiryReachesAll(s: State, now: int)
    ensures var s' := ExpireMutes(s, now);
            && |All(s')| == |All(s)|
            && (forall i :: 0 <= i < |All(s)| ==>
                  var t := All(s)[i].ticker;
                  All(s')[i] == if t in s.service.mutes && s.service.mutes[t] <= now
                                then All(s)[i].(triggered := false, plays := 0) else All(s)[i])
            && (forall t :: t in s'.service.mutes <==> t in s.service.mutes && now < s.service.mutes[t])
            && (forall t :: t in s'.service.silenced
                            <==> t in s.service.silenced && !(t in s.service.mutes && s.service.mutes[t] <= now))
  {
    RearmReachesAll(s, s.service.ExpireMutes(now), s.service.Expired(now));
  }

  lemma {:induction false} WithoutTickerKeeps(contexts: seq<Context>, ticker: Ticker, context: Context)
    ensures context in WithoutTicker(contexts, ticker) <==> context in contexts && context.ticker != ticker
  {
    if contexts != [] {
      var front, last := contexts[..|contexts| - 1], contexts[|contexts| - 1];
      WithoutTickerKeeps(front, ticker, context);
      assert context in contexts <==> context in front || context == last;
    }
  }

  /** Removing a threshold resets the ticker's tabs and retired contexts and drops its monitors and no others. */
  lemma RemovalReachesAll(s: State, ticker: Ticker)
    requires ticker in s.service.thresholds
    ensures var s' := RemoveConfigured(s, ticker);
            && |s'.active + s'.retired| == |s.active + s.retired|
            && (forall i :: 0 <= i < |s.active + s.retired| ==>
                  var c := (s.active + s.retired)[i];
                  (s'.active + s'.retired)[i] == if c.ticker == ticker then c.(triggered := false, plays := 0) else c)
            && (forall m :: m in s'.monitors <==> m in s.monitors && m.ticker != ticker)
  {
    var s' := RemoveConfigured(s, ticker);
    forall m
      ensures m in s'.monitors <==> m in s.monitors && m.ticker != ticker
    {
      WithoutTickerKeeps(s.monitors, ticker, m);
    }
  }

  /** Clearing an alert on a tab leaves nothing of it, whether there was a threshold or not, and fires nothing. */
  lemma ClearingDisarms(s: State, tab: nat, now: int, s': State)
    requires Next(s, ClearAlert(tab, now), s')
    ensures var t := s.active[tab].ticker;
            && t !in s'.service.thresholds && t !in s'.service.silenced && t !in s'.service.mutes
            && |s'.active| == |s.active| && Fires(s, ClearAlert(tab, now)) == {}
            && s'.active[tab] == s.active[tab].(triggered := false, plays := 0)
  {
  }

  predicate Untouched(context: Context) {
    !context.triggered && context.plays == 0 && !context.success && context.price == 0.0
  }

  /** New watchers know nothing yet: a tab that opens, and every monitor a reconcile starts. */
  lemma NewWatchersAreUntouched(s: State, e: Event, s': State)
    requires Next(s, e, s')
    ensures e.OpenTab? ==> |s'.active| == |s.active| + 1 && s'.active[..|s.active|] == s.active
                           && s'.active[|s.active|].ticker == e.ticker && Untouched(s'.active[|s.active|])
    ensures e.Reconcile? ==> forall m :: m in s'.monitors ==> m in s.monitors || Untouched(m)
  {
    if e.Reconcile? {
      KeptAreMonitors(s.service.thresholds, s.active, s.monitors);
    }
  }

  lemma {:induction false} KeptAreMonitors(thresholds: map<Ticker, real>, active: seq<Context>, monitors: seq<Context>)
    ensures forall m :: m in Kept(thresholds, active, monitors) ==> m in monitors
  {
    if monitors != [] {
      KeptAreMonitors(thresholds, active, monitors[..|monitors| - 1]);
    }
  }
}
