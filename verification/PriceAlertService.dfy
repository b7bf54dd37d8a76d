/** The alert state as it is updated in place, against the functions of PriceAlerts. */
module PriceAlertService {
  import opened Options
  import opened PriceAlerts

  /** Silencing the contexts of one vector; `stopped` tells whether an alert sequence was under way. */
  method SilenceEach(service: Service, ticker: Ticker, contexts: seq<Context>)
    returns (silenced: seq<Context>, stopped: bool)
    ensures silenced == SilenceContexts(service, ticker, contexts)
    ensures stopped <==> AnySounding(contexts, ticker)
  {
    silenced, stopped := contexts, false;
    for i := 0 to |contexts|
      invariant |silenced| == |contexts|
      invariant forall j :: 0 <= j < |contexts| ==>
                  silenced[j] == if j < i then SilencedContext(service, ticker, contexts[j]) else contexts[j]
      invariant stopped <==> exists j :: 0 <= j < i && Sounding(contexts[j], ticker)
    {
      var candidate := contexts[i];
      if candidate.ticker != ticker {
        continue;
      }
      stopped := stopped || candidate.triggered || candidate.plays > 0;
      silenced := silenced[i := candidate.(triggered := Below(service, candidate), plays := 0)];
    }
  }

  predicate Sounding(context: Context, ticker: Ticker) {
    context.ticker == ticker && (context.triggered || context.plays > 0)
  }

  predicate AnySounding(contexts: seq<Context>, ticker: Ticker) {
    exists i :: 0 <= i < |contexts| && Sounding(contexts[i], ticker)
  }

  method RearmEach(tickers: set<Ticker>, contexts: seq<Context>) returns (rearmed: seq<Context>)
    ensures rearmed == RearmContexts(tickers, contexts)
  {
    rearmed := contexts;
    for i := 0 to |contexts|
      invariant |rearmed| == |contexts|
      invariant forall j :: 0 <= j < |contexts| ==>
                  rearmed[j] == if j < i then RearmedContext(tickers, contexts[j]) else contexts[j]
    {
      if contexts[i].ticker in tickers {
        rearmed := rearmed[i := contexts[i].(triggered := false, plays := 0)];
      }
    }
  }

  class AlertRuntime {
    var thresholds: map<Ticker, real>
    var revision: nat
    var silenced: set<Ticker>
    var mutes: map<Ticker, int>
    var active: seq<Context>
    var monitors: seq<Context>
    var retired: seq<Context>
    var signature: Option<Topology>
    var nextId: nat

    function Alerts(): Service
      reads this
    {
      Service(thresholds, revision, silenced, mutes)
    }

    function State(): State
      reads this
    {
      PriceAlerts.State(Alerts(), active, monitors, retired, signature, nextId)
    }

    constructor ()
      ensures State() == PriceAlerts.State(Service(map[], 1, {}, map[]), [], [], [], None, 0)
    {
      thresholds, revision, silenced, mutes := map[], 1, {}, map[];
      active, monitors, retired := [], [], [];
      signature, nextId := None, 0;
    }

    method SetThreshold(ticker: Ticker, threshold: real) returns (accepted: bool)
      modifies this
      ensures (Alerts(), accepted) == old(Alerts()).SetThreshold(ticker, threshold)
      ensures State() == old(State()).(service := Alerts())
    {
      if ticker == "" || threshold <= 0.0 {
        return false;
      }
      if ticker !in thresholds && |thresholds| >= MAX_PRICE_ALERTS {
        return false;
      }
      var changed := ticker !in thresholds || thresholds[ticker] != threshold;
      ClearSilence(ticker);
      thresholds := thresholds[ticker := threshold];
      if changed {
        revision := revision + 1;
      }
      return true;
    }

    method ClearSilence(ticker: Ticker)
      modifies this
      ensures State() == old(State()).(service := old(Alerts()).ClearSilence(ticker))
    {
      silenced := silenced - {ticker};
      mutes := mutes - {ticker};
    }

    method RemoveThreshold(ticker: Ticker) returns (removed: bool)
      modifies this
      ensures (Alerts(), removed) == old(Alerts()).RemoveThreshold(ticker)
      ensures State() == old(State()).(service := Alerts())
    {
      removed := ticker in thresholds;
      if removed {
        thresholds := thresholds - {ticker};
      }
      ClearSilence(ticker);
      if removed {
        revision := revision + 1;
      }
    }

    /** The walk over the mutes, erasing each that is due and its silence. */
    method ExpireMutesAt(now: int) returns (expired: set<Ticker>)
      modifies this
      ensures expired == old(Alerts()).Expired(now)
      ensures State() == old(State()).(service := old(Alerts()).ExpireMutes(now))
    {
      expired := {};
      ghost var was := mutes;
      var unseen := mutes.Keys;
      while unseen != {}
        invariant unseen <= was.Keys
        invariant forall ticker :: ticker in expired <==> ticker in was && ticker !in unseen && was[ticker] <= now
        invariant mutes == was - expired && silenced == old(silenced) - expired
        invariant thresholds == old(thresholds) && revision == old(revision) && nextId == old(nextId)
        invariant active == old(active) && monitors == old(monitors) && retired == old(retired)
        invariant signature == old(signature)
        decreases |unseen|
      {
        var ticker :| ticker in unseen;
        unseen := unseen - {ticker};
        if mutes[ticker] > now {
          continue;
        }
        expired := expired + {ticker};
        silenced := silenced - {ticker};
        mutes := mutes - {ticker};
      }
      assert expired == old(Alerts()).Expired(now);
    }

    /** ApplyPriceAlertSilence. */
    method ApplySilence(ticker: Ticker, until: Option<int>) returns (stopped: bool)
      modifies this
      ensures State() == PriceAlerts.ApplySilence(old(State()), ticker, until)
      ensures stopped <==> AnySounding(old(active), ticker) || AnySounding(old(monitors), ticker)
                           || AnySounding(old(retired), ticker)
    {
      silenced := silenced + {ticker};
      mutes := if until.Some? then mutes[ticker := until.value] else mutes - {ticker};
      var stoppedActive, stoppedMonitors, stoppedRetired;
      active, stoppedActive := SilenceEach(Alerts(), ticker, active);
      monitors, stoppedMonitors := SilenceEach(Alerts(), ticker, monitors);
      retired, stoppedRetired := SilenceEach(Alerts(), ticker, retired);
      stopped := stoppedActive || stoppedMonitors || stoppedRetired;
    }

    /** ExpirePriceAlertMutes: re-arming ticker by ticker is re-arming them all. */
    method ExpireMutes(now: int) returns (any: bool)
      modifies this
      ensures State() == PriceAlerts.ExpireMutes(old(State()), now)
      ensures any <==> old(Alerts()).Expired(now) != {}
    {
      var expired := ExpireMutesAt(now);
      active := RearmEach(expired, active);
      monitors := RearmEach(expired, monitors);
      retired := RearmEach(expired, retired);
      return expired != {};
    }

    /** ResumeConfiguredPriceAlert. */
    method Resume(ticker: Ticker) returns (resumed: bool)
      modifies this
      ensures State() == PriceAlerts.Resume(old(State()), ticker)
      ensures resumed <==> CanResume(old(State()), ticker)
    {
      if ticker !in thresholds || ticker !in silenced {
        return false;
      }
      ClearSilence(ticker);
      active := RearmEach({ticker}, active);
      monitors := RearmEach({ticker}, monitors);
      retired := RearmEach({ticker}, retired);
      return true;
    }

    /** RemoveConfiguredPriceAlert. */
    method RemoveConfigured(ticker: Ticker) returns (removed: bool)
      modifies this
      ensures State() == PriceAlerts.RemoveConfigured(old(State()), ticker)
      ensures removed <==> ticker in old(thresholds)
    {
      removed := RemoveThreshold(ticker);
      if !removed {
        return;
      }
      active := RearmEach({ticker}, active);
      retired := RearmEach({ticker}, retired);
      var kept: seq<Context> := [];
      for i := 0 to |monitors|
        invariant kept == WithoutTicker(monitors[..i], ticker)
      {
        assert monitors[..i + 1][..i] == monitors[..i];
        if monitors[i].ticker != ticker {
          kept := kept + [monitors[i]];
        }
      }
      assert monitors[..|monitors|] == monitors;
      monitors := kept;
    }

    /** SilencePriceAlertForClosedTab, for the context of a tab about to go. */
    method SilenceForClosedTab(context: Context)
      modifies this
      ensures State() == PriceAlerts.SilenceForClosedTab(old(State()), context)
    {
      if Below(Alerts(), context) || context.triggered || context.plays > 0 {
        var _ := ApplySilence(context.ticker, None);
      }
    }

    /** EvaluateStockPriceAlert on the tab at an index. */
    method EvaluateTab(i: nat, now: int) returns (fired: bool)
      requires i < |active|
      modifies this
      ensures var outcome := Evaluate(old(Alerts()), old(active)[i], now);
              State() == old(State()).(service := outcome.service, active := old(active)[i := outcome.context])
              && fired == outcome.fired
    {
      var context := active[i];
      var ticker := context.ticker;
      fired := false;
      if ticker !in thresholds || thresholds[ticker] <= 0.0 {
        ClearSilence(ticker);
        active := active[i := context.(triggered := false, plays := 0)];
        return;
      }
      if !context.success || context.price <= 0.0 {
        return;
      }
      var below := context.price <= thresholds[ticker];
      if below && (ticker in silenced || (ticker in mutes && mutes[ticker] > now)) {
        active := active[i := context.(triggered := true, plays := 0)];
      } else if below && !context.triggered {
        active := active[i := context.(triggered := true, plays := 1)];
        fired := true;
      } else if !below {
        silenced := silenced - {ticker};
        active := active[i := context.(triggered := false, plays := 0)];
      }
    }

    /** The owner map, filled front to back. */
    method OwnerOf(ticker: Ticker) returns (owner: Option<nat>)
      ensures owner == Owner(active, ticker)
    {
      owner := None;
      for i := 0 to |active|
        invariant owner == Owner(active[..i], ticker)
      {
        assert active[..i + 1][..i] == active[..i];
        if active[i].ticker == ticker {
          owner := Some(i);
        }
      }
      assert active[..|active|] == active;
    }

    /** The walk that hands monitors over to the tabs that own their tickers and drops those and the ones
        without a threshold. */
    method HandOver()
      modifies this
      ensures State() == old(State()).(active := AdoptAll(old(active), old(monitors)),
                                       monitors := Kept(thresholds, old(active), old(monitors)))
    {
      ghost var tabs := active;
      var kept: seq<Context> := [];
      for i := 0 to |monitors|
        invariant monitors == old(monitors) && State() == old(State()).(active := active)
        invariant active == AdoptAll(tabs, monitors[..i])
        invariant kept == Kept(thresholds, tabs, monitors[..i])
      {
        var monitor := monitors[i];
        assert monitors[..i + 1][..i] == monitors[..i];
        SameOwner(tabs, active, monitor.ticker);
        var owner := OwnerOf(monitor.ticker);
        if owner.Some? {
          active := active[owner.value := Adopted(active[owner.value], monitor)];
        }
        if monitor.ticker in thresholds && owner == None {
          kept := kept + [monitor];
        }
      }
      assert monitors[..|monitors|] == monitors;
      monitors := kept;
    }

    /** The walk over the thresholds that starts the missing monitors. */
    method StartMonitors()
      modifies this
      ensures exists added :: Added(thresholds, active, old(monitors), added)
                              && State() == old(State()).(monitors := old(monitors) + added)
    {
      hide Owned;
      ghost var added: seq<Context> := [];
      OwnedNever([]);
      var unseen := thresholds.Keys;
      while unseen != {}
        invariant unseen <= thresholds.Keys
        invariant State() == old(State()).(monitors := old(monitors) + added)
        invariant forall i :: 0 <= i < |added| ==>
                    added[i] == FreshContext(0, added[i].ticker) && added[i].ticker !in unseen
                    && Needed(thresholds, active, old(monitors), added[i].ticker)
        invariant forall i, j :: 0 <= i < j < |added| ==> added[i].ticker != added[j].ticker
        invariant forall ticker ::
                    ticker in thresholds && ticker !in unseen && Needed(thresholds, active, old(monitors), ticker) ==>
                      Owned(added, ticker)
        decreases |unseen|
      {
        var ticker :| ticker in unseen;
        unseen := unseen - {ticker};
        if thresholds[ticker] <= 0.0 {
          continue;
        }
        var owner := OwnerOf(ticker);
        if owner.Some? {
          continue;
        }
        OwnedByEither(old(monitors), added, ticker);
        if Owned(monitors, ticker) {
          continue;
        }
        monitors := monitors + [FreshContext(0, ticker)];
        OwnedAfterAdding(added, FreshContext(0, ticker));
        added := added + [FreshContext(0, ticker)];
      }
    }

    /** ReconcilePriceAlertContexts. */
    method Reconcile()
      modifies this
      ensures Reconciled(old(State()), State())
    {
      var topology := TopologyOf(revision, active);
      if signature == Some(topology) {
        return;
      }
      ghost var tabs := active;
      HandOver();
      ghost var kept := monitors;
      StartMonitors();
      ghost var added :| Added(thresholds, active, kept, added) && monitors == kept + added;
      AddedForSameTickers(thresholds, tabs, active, kept, added);
      signature := Some(topology);
    }
  }

  lemma {:induction false} SameOwner(a: seq<Context>, b: seq<Context>, ticker: Ticker)
    requires |a| == |b| && forall i :: 0 <= i < |a| ==> a[i].ticker == b[i].ticker
    ensures Owner(a, ticker) == Owner(b, ticker) && (Owned(a, ticker) <==> Owned(b, ticker))
  {
    if a != [] && a[|a| - 1].ticker != ticker {
      SameOwner(a[..|a| - 1], b[..|b| - 1], ticker);
    }
  }

  lemma OwnedNever(contexts: seq<Context>)
    requires contexts == []
    ensures forall ticker :: !Owned(contexts, ticker)
  {
  }

  lemma OwnedAfterAdding(contexts: seq<Context>, context: Context)
    ensures forall ticker ::
              Owned(contexts + [context], ticker) <==> Owned(contexts, ticker) || ticker == context.ticker
  {
    forall ticker
      ensures Owned(contexts + [context], ticker) <==> Owned(contexts, ticker) || ticker == context.ticker
    {
      OwnedByEither(contexts, [context], ticker);
      assert Owned([context], ticker) <==> [context][0].ticker == ticker;
    }
  }

  lemma AddedForSameTickers(thresholds: map<Ticker, real>, a: seq<Context>, b: seq<Context>, kept: seq<Context>,
        added: seq<Context>)
    requires |a| == |b| && forall i :: 0 <= i < |a| ==> a[i].ticker == b[i].ticker
    requires Added(thresholds, b, kept, added)
    ensures Added(thresholds, a, kept, added)
  {
    forall ticker
      ensures Needed(thresholds, a, kept, ticker) <==> Needed(thresholds, b, kept, ticker)
    {
      SameOwner(a, b, ticker);
    }
  }
}
