/** Price alerts: thresholds, silences, mutes, and the contexts that watch them. */
module PriceAlerts {
  import opened Options

  type Ticker = string

  /** A stock context as far as its alert goes. `id` is the object's identity, `price` and `success` are
      its latest data, `plays` the sound repetitions left. */
  datatype Context = Context(id: nat, ticker: Ticker, price: real, success: bool, triggered: bool, plays: nat)

  /** The alert service without its monitors. */
  datatype Service = Service(
    thresholds: map<Ticker, real>,
    revision: nat,
    silenced: set<Ticker>,
    mutes: map<Ticker, int>)
  {
    function ClearSilence(ticker: Ticker): Service {
      this.(silenced := silenced - {ticker}, mutes := mutes - {ticker})
    }

    function ActiveThreshold(ticker: Ticker): Option<real> {
      if ticker in thresholds && thresholds[ticker] > 0.0 then Some(thresholds[ticker]) else None
    }

    predicate MutedUntil(ticker: Ticker, now: int) {
      ticker in mutes && mutes[ticker] > now
    }

    /** At most 128 thresholds; setting one ends its silence, and only a change advances the revision. */
    function SetThreshold(ticker: Ticker, threshold: real): (Service, bool) {
      if ticker == "" || threshold <= 0.0 || (ticker !in thresholds && |thresholds| >= MAX_PRICE_ALERTS) then
        (this, false)
      else
        var changed := ticker !in thresholds || thresholds[ticker] != threshold;
        (ClearSilence(ticker).(thresholds := thresholds[ticker := threshold],
                               revision := if changed then revision + 1 else revision), true)
    }

    function RemoveThreshold(ticker: Ticker): (Service, bool) {
      if ticker in thresholds then
        (ClearSilence(ticker).(thresholds := thresholds - {ticker}, revision := revision + 1), true)
      else
        (ClearSilence(ticker), false)
    }

    /** Silencing without an expiry drops a mute; silencing until a time keeps both. */
    function Silence(ticker: Ticker, until: Option<int>): Service {
      this.(silenced := silenced + {ticker},
            mutes := if until.Some? then mutes[ticker := until.value] else mutes - {ticker})
    }

    function Expired(now: int): set<Ticker> {
      set ticker | ticker in mutes && mutes[ticker] <= now
    }

    function ExpireMutes(now: int): Service {
      this.(silenced := silenced - Expired(now), mutes := mutes - Expired(now))
    }
  }

  const MAX_PRICE_ALERTS := 128

  /** The part of the state a reconcile depends on, which its signature stands for. */
  datatype Topology = Topology(revision: nat, tabs: seq<(nat, Ticker)>)

  datatype State = State(
    service: Service,
    active: seq<Context>,
    monitors: seq<Context>,
    retired: seq<Context>,
    signature: Option<Topology>,
    nextId: nat)

  // ---------------------------------------------------------------- evaluation

  predicate Below(service: Service, context: Context) {
    var alert := service.ActiveThreshold(context.ticker);
    alert.Some? && context.success && context.price > 0.0 && context.price <= alert.value
  }

  predicate Above(service: Service, context: Context) {
    var alert := service.ActiveThreshold(context.ticker);
    alert.Some? && context.success && context.price > 0.0 && context.price > alert.value
  }

  datatype Outcome = Outcome(service: Service, context: Context, fired: bool)

  /** EvaluateStockPriceAlert. */
  function Evaluate(service: Service, context: Context, now: int): Outcome {
    var alert := service.ActiveThreshold(context.ticker);
    if alert == None then
      Outcome(service.ClearSilence(context.ticker), context.(triggered := false, plays := 0), false)
    else if !context.success || context.price <= 0.0 then
      Outcome(service, context, false)
    else if context.price > alert.value then
      Outcome(service.(silenced := service.silenced - {context.ticker}), context.(triggered := false, plays := 0),
              false)
    else if context.ticker in service.silenced || service.MutedUntil(context.ticker, now) then
      Outcome(service, context.(triggered := true, plays := 0), false)
    else if !context.triggered then
      Outcome(service, context.(triggered := true, plays := 1), true)
    else
      Outcome(service, context, false)
  }

  // ---------------------------------------------------------------- policies over all contexts

  function Mapped(contexts: seq<Context>, f: Context -> Context): (r: seq<Context>)
    ensures |r| == |contexts| && forall i :: 0 <= i < |r| ==> r[i] == f(contexts[i])
  {
    seq(|contexts|, i requires 0 <= i < |contexts| => f(contexts[i]))
  }

  /** A silenced context: triggered exactly if its price is below the alert. */
  function SilencedContext(service: Service, ticker: Ticker, context: Context): Context {
    if context.ticker == ticker then context.(triggered := Below(service, context), plays := 0) else context
  }

  function RearmedContext(tickers: set<Ticker>, context: Context): Context {
    if context.ticker in tickers then context.(triggered := false, plays := 0) else context
  }

  function SilenceContexts(service: Service, ticker: Ticker, contexts: seq<Context>): seq<Context> {
    Mapped(contexts, context => SilencedContext(service, ticker, context))
  }

  function RearmContexts(tickers: set<Ticker>, contexts: seq<Context>): seq<Context> {
    Mapped(contexts, context => RearmedContext(tickers, context))
  }

  /** ApplyPriceAlertSilence. */
  function ApplySilence(s: State, ticker: Ticker, until: Option<int>): State {
    var service := s.service.Silence(ticker, until);
    s.(service := service,
       active := SilenceContexts(service, ticker, s.active),
       monitors := SilenceContexts(service, ticker, s.monitors),
       retired := SilenceContexts(service, ticker, s.retired))
  }

  function Rearm(s: State, service: Service, tickers: set<Ticker>): State {
    s.(service := service,
       active := RearmContexts(tickers, s.active),
       monitors := RearmContexts(tickers, s.monitors),
       retired := RearmContexts(tickers, s.retired))
  }

  /** ExpirePriceAlertMutes. */
  function ExpireMutes(s: State, now: int): State {
    Rearm(s, s.service.ExpireMutes(now), s.service.Expired(now))
  }

  predicate CanResume(s: State, ticker: Ticker) {
    ticker in s.service.thresholds && ticker in s.service.silenced
  }

  /** ResumeConfiguredPriceAlert. */
  function Resume(s: State, ticker: Ticker): State {
    if CanResume(s, ticker) then Rearm(s, s.service.ClearSilence(ticker), {ticker}) else s
  }

  function WithoutTicker(contexts: seq<Context>, ticker: Ticker): seq<Context> {
    if contexts == [] then []
    else
      var rest := WithoutTicker(contexts[..|contexts| - 1], ticker);
      var last := contexts[|contexts| - 1];
      if last.ticker == ticker then rest else rest + [last]
  }

  /** RemoveConfiguredPriceAlert: nothing but the silence goes when there was no threshold. */
  function RemoveConfigured(s: State, ticker: Ticker): State {
    var (service, removed) := s.service.RemoveThreshold(ticker);
    if !removed then s.(service := service)
    else s.(service := service,
            active := RearmContexts({ticker}, s.active),
            retired := RearmContexts({ticker}, s.retired),
            monitors := WithoutTicker(s.monitors, ticker))
  }

  predicate Silences(service: Service, context: Context) {
    Below(service, context) || context.triggered || context.plays > 0
  }

  /** SilencePriceAlertForClosedTab. */
  function SilenceForClosedTab(s: State, context: Context): State {
    if Silences(s.service, context) then ApplySilence(s, context.ticker, None) else s
  }

  // ---------------------------------------------------------------- reconciling watchers

  function TopologyOf(revision: nat, active: seq<Context>): Topology {
    Topology(revision, seq(|active|, i requires 0 <= i < |active| => (active[i].id, active[i].ticker)))
  }

  predicate Owned(active: seq<Context>, ticker: Ticker) {
    exists i :: 0 <= i < |active| && active[i].ticker == ticker
  }

  /** The tab that owns a ticker: the last one, as the owner map is filled front to back. */
  function Owner(active: seq<Context>, ticker: Ticker): (owner: Option<nat>)
    ensures owner.Some? <==> Owned(active, ticker)
    ensures owner.Some? ==> owner.value < |active| && active[owner.value].ticker == ticker
  {
    if active == [] then None
    else if active[|active| - 1].ticker == ticker then Some(|active| - 1)
    else Owner(active[..|active| - 1], ticker)
  }

  /** What a quote patch does to a context's data. */
  function Patched(context: Context, patch: Context): Context {
    if !patch.success then context
    else
      var price := if patch.price > 0.0 then patch.price else context.price;
      context.(price := price, success := price > 0.0)
  }

  /** The owner takes over a monitor's alert state and its quote. */
  function Adopted(owner: Context, monitor: Context): Context {
    Patched(owner.(triggered := monitor.triggered, plays := monitor.plays), monitor)
  }

  function Adopt(active: seq<Context>, monitor: Context): (r: seq<Context>)
    ensures |r| == |active| && forall i :: 0 <= i < |r| ==> r[i].ticker == active[i].ticker && r[i].id == active[i].id
  {
    var owner := Owner(active, monitor.ticker);
    if owner == None then active else active[owner.value := Adopted(active[owner.value], monitor)]
  }

  function AdoptAll(active: seq<Context>, monitors: seq<Context>): (r: seq<Context>)
    ensures |r| == |active| && forall i :: 0 <= i < |r| ==> r[i].ticker == active[i].ticker && r[i].id == active[i].id
  {
    if monitors == [] then active
    else Adopt(AdoptAll(active, monitors[..|monitors| - 1]), monitors[|monitors| - 1])
  }

  /** The monitors that stay: those with a threshold and no tab. */
  function Kept(thresholds: map<Ticker, real>, active: seq<Context>, monitors: seq<Context>): seq<Context> {
    if monitors == [] then []
    else
      var rest := Kept(thresholds, active, monitors[..|monitors| - 1]);
      var last := monitors[|monitors| - 1];
      if last.ticker in thresholds && !Owned(active, last.ticker) then rest + [last] else rest
  }

  /** A context just made for a ticker. Identities of monitors play no part. */
  function FreshContext(id: nat, ticker: Ticker): Context {
    Context(id, ticker, 0.0, false, false, 0)
  }

  predicate Needed(thresholds: map<Ticker, real>, active: seq<Context>, kept: seq<Context>, ticker: Ticker) {
    ticker in thresholds && thresholds[ticker] > 0.0 && !Owned(active, ticker) && !Owned(kept, ticker)
  }

  /** One fresh monitor for each ticker that needs one, in some order. */
  predicate Added(thresholds: map<Ticker, real>, active: seq<Context>, kept: seq<Context>, added: seq<Context>) {
    && (forall i :: 0 <= i < |added| ==> added[i] == FreshContext(0, added[i].ticker))
    && (forall i :: 0 <= i < |added| ==> Needed(thresholds, active, kept, added[i].ticker))
    && (forall i, j :: 0 <= i < j < |added| ==> added[i].ticker != added[j].ticker)
    && (forall ticker :: ticker in thresholds && Needed(thresholds, active, kept, ticker) ==> Owned(added, ticker))
  }

  /** ReconcilePriceAlertContexts. */
  ghost predicate Reconciled(s: State, s': State) {
    var topology := TopologyOf(s.service.revision, s.active);
    if s.signature == Some(topology) then s' == s
    else
      exists added ::
        var kept := Kept(s.service.thresholds, s.active, s.monitors);
        && Added(s.service.thresholds, s.active, kept, added)
        && s' == s.(active := AdoptAll(s.active, s.monitors), monitors := kept + added, signature := Some(topology))
  }

  lemma OwnedByEither(a: seq<Context>, b: seq<Context>, ticker: Ticker)
    ensures Owned(a + b, ticker) <==> Owned(a, ticker) || Owned(b, ticker)
  {
    if i :| 0 <= i < |a| && a[i].ticker == ticker {
      assert (a + b)[i].ticker == ticker;
    }
    if i :| 0 <= i < |b| && b[i].ticker == ticker {
      assert (a + b)[|a| + i].ticker == ticker;
    }
  }
}
