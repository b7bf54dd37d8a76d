/** The screener fetch protocol as a step relation between the UI thread and the one worker thread:
    every atomic load, exchange, compare-exchange and locked region is one step. */
module ScreenerProtocol {
  import opened Options

  type Id = string

  /** Where a list of rows came from: the data source returned it for a fetch or reported it in the meantime, or
      it was in the persistent cache. */
  datatype Origin = Returned(gen: nat) | Reported(gen: nat) | Persistent

  /** The rows of a snapshot, reduced to where the list came from, the screeners whose data went into it and the
      lists merged into it. An empty row list is no rows at all. */
  datatype Rows = Rows(origin: Origin, owners: set<Id>, merged: set<Origin>)
  {
    function Sources(): set<Origin> {
      merged + {origin}
    }

    /** A merge fills in rows from other ones; the list stays. */
    function FilledFrom(other: Rows): Rows {
      this.(owners := owners + other.owners, merged := merged + other.Sources())
    }
  }

  datatype Load = Idle | Loading | Refreshing | Ready | Failed

  datatype Snapshot = Snapshot(gen: nat, id: Id, load: Load, items: Option<Rows>)

  datatype Author = Ui | Worker

  /** A published snapshot and the thread that published it. */
  datatype Entry = Entry(snap: Snapshot, author: Author)

  datatype Job =
    | FetchJob(gen: nat, id: Id, key: string)
    | TrendJob(gen: nat, id: Id, key: string, trend: nat, rows: Rows)

  // ---------------------------------------------------------------- cache keys

  function JoinSymbols(watchlist: seq<string>): string {
    if watchlist == [] then "" else ":" + watchlist[0] + JoinSymbols(watchlist[1..])
  }

  function BuildScreenerCacheKey(id: Id, watchlist: seq<string>): string {
    if id == "watchlist" then id + JoinSymbols(watchlist) else id
  }

  /** The screener whose rows a key holds. */
  function KeyOwner(key: string): Id {
    if "watchlist:" <= key then "watchlist" else key
  }

  lemma KeyOwnerOfBuiltKey(id: Id, watchlist: seq<string>)
    requires !("watchlist:" <= id)
    ensures KeyOwner(BuildScreenerCacheKey(id, watchlist)) == id
  {
    if id == "watchlist" && watchlist != [] {
      var key := BuildScreenerCacheKey(id, watchlist);
      assert key == "watchlist:" + (watchlist[0] + JoinSymbols(watchlist[1..]));
      assert "watchlist:" <= key;
    } else if id == "watchlist" {
      assert BuildScreenerCacheKey(id, watchlist) == "watchlist";
    }
  }

  // ---------------------------------------------------------------- program counters

  /** PublishIfCurrent: load, read the token, read the quit flag, compare-exchange, round again. */
  datatype PublishAt = PLoad | PToken(cur: nat) | PQuit(cur: nat) | PCas(cur: nat)

  datatype Publish = Publish(load: Load, items: Option<Rows>, at: PublishAt)

  /** FinishFailedRequest. */
  datatype Finish = FLoad | FToken(cur: nat) | FQuit(cur: nat) | FPublish(publish: Publish)

  /** FetchScreenerDataBackground, with the progress callback run inside the data source. */
  datatype FetchAt =
    | Source
    | ProgressToken(rows: Rows)
    | ProgressQuit(rows: Rows)
    | ProgressLoad(rows: Rows)
    | ProgressPublish(publish: Publish)
    | ResultToken(result: Option<Rows>)
    | ResultQuit(result: Option<Rows>)
    | TrendExchange(rows: Rows)
    | TrendCancel(rows: Rows, previous: Option<nat>)
    | MergeLoad(rows: Rows)
    | StoreToken(rows: Rows)
    | StoreQuit(rows: Rows)
    | StoreRows(rows: Rows)
    | FinalPublish(publish: Publish)
    | Failing(finish: Finish)

  /** The trend job; `final` tells the last phase from a progress callback. The staleness test reads
      the request token, the quit flag, the trend token and the quit flag, numbered 0 to 3. */
  datatype TrendAt =
    | Enriching
    | EndCheck(k: nat)
    | PhaseLoad(final: bool)
    | PhaseCheck(final: bool, cur: nat, k: nat)
    | PhaseCas(final: bool, cur: nat)
    | PhaseCache(final: bool, rows: Rows)
    | Retire
    | RetireMark

  datatype WorkerPc =
    | WaitingForJob
    | Fetching(job: Job, fetch: FetchAt)
    | Trending(job: Job, trend: TrendAt)
    | JobDone
    | Stopped

  datatype StartAt =
    | SLoad
    | SGeneration(shown: nat)
    | SExchange(shown: nat)
    | SCancel(shown: nat, previous: Option<nat>)
    | STrendExchange(shown: nat)
    | STrendCancel(shown: nat, previous: Option<nat>)
    | SDisplay(shown: nat)
    | SCacheLookup(again: bool)
    | SPersistent
    | SCacheStore(rows: Rows)
    | SPublish(items: Option<Rows>)
    | SDecide
    | SEmptyPublish(publish: Publish)
    | SSubmit
    | SFail(finish: Finish)

  datatype TrendStartAt =
    | TReadSlot
    | TToken
    | TQuit
    | TExchange
    | TCancel(previous: Option<nat>)
    | TSubmit
    | TRetire
    | TRetireMark

  datatype ResetAt = RExchange | RCancel(previous: Option<nat>) | RTrendExchange
                   | RTrendCancel(trend: Option<nat>) | RGeneration | RPublish

  datatype UiPc =
    | UiIdle
    | Starting(id: Id, key: string, empty: bool, gen: nat, start: StartAt)
    | StartingTrend(job: Job, trendStart: TrendStartAt)
    | Resetting(gen: nat, reset: ResetAt)

  /** The shared state. `history` is every snapshot ever published, the last one being current; a
      snapshot pointer is an index into it, so compare-exchange succeeds exactly on the last index.
      A request token is known by its generation. `genId` records the screener of each generation. */
  datatype State = State(
    history: seq<Entry>,
    nextGeneration: nat,
    requestSlot: Option<nat>,
    requestCancelled: set<nat>,
    trendSlot: Option<nat>,
    trendCancelled: set<nat>,
    nextTrend: nat,
    cache: map<string, Rows>,
    pending: Option<Job>,
    busy: bool,
    stopping: bool,
    quit: bool,
    genId: map<nat, Id>,
    ui: UiPc,
    worker: WorkerPc)
  {
    function Last(): nat
      requires history != []
    {
      |history| - 1
    }

    function Current(): Snapshot
      requires history != []
    {
      history[|history| - 1].snap
    }

    predicate Matches(cur: nat, gen: nat, id: Id) {
      cur < |history| && history[cur].snap.gen == gen && history[cur].snap.id == id
    }

    function Published(snap: Snapshot, author: Author): State {
      this.(history := history + [Entry(snap, author)])
    }
  }

  ghost predicate Init(s: State) {
    && s.history == [Entry(Snapshot(0, "", Idle, None), Ui)]
    && s.nextGeneration == 0 && s.requestSlot == None && s.requestCancelled == {}
    && s.trendSlot == None && s.trendCancelled == {}
    && s.cache == map[] && s.pending == None && !s.busy && !s.stopping
    && s.genId == map[0 := ""] && s.ui == UiIdle && s.worker == WaitingForJob
  }

  // ---------------------------------------------------------------- shared sub-steps

  datatype Progress<A> = Going(next: A) | Done(ok: bool)

  /** One step of PublishIfCurrent(gen, id, ..) by the given thread. */
  ghost predicate PublishStep(s: State, s': State, p: Publish, gen: nat, id: Id, author: Author, r: Progress<Publish>)
    requires s.history != []
  {
    match p.at
    case PLoad => s' == s && r == Going(p.(at := PToken(s.Last())))
    case PToken(cur) => s' == s && r == (if gen in s.requestCancelled then Done(false) else Going(p.(at := PQuit(cur))))
    case PQuit(cur) =>
      s' == s && r == (if s.quit || !s.Matches(cur, gen, id) then Done(false) else Going(p.(at := PCas(cur))))
    case PCas(cur) =>
      if cur == s.Last() then
        s' == s.Published(Snapshot(gen, id, p.load, p.items), author) && r == Done(true)
      else
        s' == s && r == Going(p.(at := PLoad))
  }

  /** How a request ends whose fetch failed: Ready exactly with rows to show. */
  function SettledLoad(items: Option<Rows>): Load {
    if items.Some? then Ready else Failed
  }

  /** One step of FinishFailedRequest. */
  ghost predicate FinishStep(s: State, s': State, f: Finish, gen: nat, id: Id, author: Author, r: Progress<Finish>)
    requires s.history != []
  {
    match f
    case FLoad => s' == s && r == Going(FToken(s.Last()))
    case FToken(cur) => s' == s && r == (if gen in s.requestCancelled then Done(false) else Going(FQuit(cur)))
    case FQuit(cur) =>
      s' == s &&
      r == (if s.quit || !s.Matches(cur, gen, id) then Done(false)
            else
              var shown := s.history[cur].snap;
              Going(FPublish(Publish(SettledLoad(shown.items), shown.items, PLoad))))
    case FPublish(p) =>
      exists q :: PublishStep(s, s', p, gen, id, author, q)
                  && r == (if q.Going? then Going(FPublish(q.next)) else Done(q.ok))
  }

  function Cancel(cancelled: set<nat>, token: Option<nat>): set<nat> {
    if token.Some? then cancelled + {token.value} else cancelled
  }

  // ---------------------------------------------------------------- worker

  ghost predicate WorkerStep(s: State, s': State)
    requires s.history != []
  {
    match s.worker
    case WaitingForJob => TakeStep(s, s')
    case Fetching(job, at) => FetchStep(s, s', job, at) || ThrowStep(s, s', job, at)
    case Trending(job, at) => TrendStep(s, s', job, at) || TrendThrowStep(s, s', job, at)
    case JobDone => s' == s.(worker := WaitingForJob, busy := s.busy && s.pending.Some?)
    case Stopped => false
  }

  ghost predicate TakeStep(s: State, s': State) {
    if s.stopping then s' == s.(pending := None, busy := false, worker := Stopped)
    else
      && s.pending.Some?
      && var job := s.pending.value;
         s' == s.(pending := None,
                  worker := if job.FetchJob? then Fetching(job, Source) else Trending(job, Enriching))
  }

  /** The data source may report progress or return, with rows of this screener or none. */
  ghost predicate FetchStep(s: State, s': State, job: Job, at: FetchAt)
    requires s.history != []
  {
    match at
    case Source =>
      || s' == s.(worker := Fetching(job, ProgressToken(Rows(Reported(job.gen), {job.id}, {}))))
      || s' == s.(worker := Fetching(job, ResultToken(Some(Rows(Returned(job.gen), {job.id}, {})))))
      || s' == s.(worker := Fetching(job, ResultToken(None)))
    case ProgressToken(rows) =>
      s' == s.(worker := Fetching(job, if job.gen in s.requestCancelled then Source else ProgressQuit(rows)))
    case ProgressQuit(rows) =>
      s' == s.(worker := Fetching(job, if s.quit then Source else ProgressLoad(rows)))
    case ProgressLoad(rows) =>
      var shown := s.Current();
      if shown.gen != job.gen || shown.id != job.id then s' == s.(worker := Fetching(job, Source))
      else if shown.items.Some? then
        var filled := rows.FilledFrom(shown.items.value);
        s' == s.(worker := Fetching(job, ProgressPublish(Publish(Refreshing, Some(filled), PLoad))))
      else
        || s' == s.(worker := Fetching(job, Source))
        || s' == s.(worker := Fetching(job, ProgressPublish(Publish(Refreshing, Some(rows), PLoad))))
    case ProgressPublish(p) =>
      exists t, r :: PublishStep(s, t, p, job.gen, job.id, Worker, r)
                     && s' == t.(worker := Fetching(job, if r.Going? then ProgressPublish(r.next) else Source))
    case ResultToken(result) =>
      s' == s.(worker := if job.gen in s.requestCancelled then JobDone else Fetching(job, ResultQuit(result)))
    case ResultQuit(result) =>
      s' == s.(worker := if s.quit then JobDone
                         else if result.None? then Fetching(job, Failing(FLoad))
                         else Fetching(job, TrendExchange(result.value)))
    case TrendExchange(rows) =>
      s' == s.(trendSlot := None, worker := Fetching(job, TrendCancel(rows, s.trendSlot)))
    case TrendCancel(rows, previous) =>
      s' == s.(trendCancelled := Cancel(s.trendCancelled, previous), worker := Fetching(job, MergeLoad(rows)))
    case MergeLoad(rows) =>
      var shown := s.Current();
      var merged := if shown.gen == job.gen && shown.id == job.id && shown.items.Some?
                    then rows.FilledFrom(shown.items.value) else rows;
      s' == s.(worker := Fetching(job, StoreToken(merged)))
    case StoreToken(rows) =>
      s' == s.(worker := if job.gen in s.requestCancelled then JobDone else Fetching(job, StoreQuit(rows)))
    case StoreQuit(rows) =>
      s' == s.(worker := if s.quit then JobDone else Fetching(job, StoreRows(rows)))
    case StoreRows(rows) =>
      exists cache :: StoredCache(s.cache, cache, job.key, rows)
                      && s' == s.(cache := cache,
                                  worker := Fetching(job, FinalPublish(Publish(Ready, Some(rows), PLoad))))
    case FinalPublish(p) =>
      exists t, r :: PublishStep(s, t, p, job.gen, job.id, Worker, r)
                     && s' == t.(worker := if r.Going? then Fetching(job, FinalPublish(r.next)) else JobDone)
    case Failing(f) =>
      exists t, r :: FinishStep(s, t, f, job.gen, job.id, Worker, r)
                     && s' == t.(worker := if r.Going? then Fetching(job, Failing(r.next)) else JobDone)
  }

  /** The job's body may throw anywhere before its handler runs, but not between taking a token out of its slot and
      cancelling it. */
  ghost predicate ThrowStep(s: State, s': State, job: Job, at: FetchAt) {
    !at.Failing? && !at.TrendCancel? && s' == s.(worker := Fetching(job, Failing(FLoad)))
  }

  /** A store may be refused; what it does insert, it may evict other entries for. */
  ghost predicate StoredCache(cache: map<string, Rows>, cache': map<string, Rows>, key: string, rows: Rows) {
    forall k :: k in cache' ==> if k == key then cache'[k] == rows || (k in cache && cache'[k] == cache[k])
                                else k in cache && cache'[k] == cache[k]
  }

  predicate Stale(s: State, job: Job, k: nat)
    requires job.TrendJob?
  {
    if k == 0 then job.gen in s.requestCancelled
    else if k == 2 then job.trend in s.trendCancelled
    else s.quit
  }

  ghost predicate TrendStep(s: State, s': State, job: Job, at: TrendAt)
    requires s.history != []
  {
    job.TrendJob? &&
    match at
    case Enriching =>
      || s' == s.(worker := Trending(job, PhaseLoad(false)))
      || s' == s.(worker := Trending(job, EndCheck(0)))
      || s' == s.(worker := Trending(job, Retire))
    case EndCheck(k) =>
      s' == s.(worker := Trending(job, if Stale(s, job, k) then Retire
                                       else if k < 3 then EndCheck(k + 1) else PhaseLoad(true)))
    case PhaseLoad(final) =>
      var shown := s.Current();
      if shown.gen != job.gen || shown.id != job.id || shown.load != Ready || shown.items.None?
      then s' == s.(worker := Trending(job, if final then Retire else Enriching))
      else s' == s.(worker := Trending(job, PhaseCheck(final, s.Last(), 0)))
    case PhaseCheck(final, cur, k) =>
      if Stale(s, job, k) then s' == s.(worker := Trending(job, if final then Retire else Enriching))
      else if k < 3 then s' == s.(worker := Trending(job, PhaseCheck(final, cur, k + 1)))
      else
        || s' == s.(worker := Trending(job, PhaseCas(final, cur)))
        || s' == s.(worker := Trending(job, if final then Retire else Enriching))
    case PhaseCas(final, cur) =>
      if cur == s.Last() && s.Current().items.Some? then
        var rows := s.Current().items.value.FilledFrom(job.rows);
        s' == s.Published(Snapshot(job.gen, job.id, Ready, Some(rows)), Worker)
              .(worker := Trending(job, PhaseCache(final, rows)))
      else
        s' == s.(worker := Trending(job, PhaseLoad(final)))
    case PhaseCache(final, rows) =>
      exists cache :: StoredCache(s.cache, cache, job.key, rows)
                      && s' == s.(cache := cache, worker := Trending(job, if final then Retire else Enriching))
    case Retire =>
      if s.trendSlot == Some(job.trend) then s' == s.(trendSlot := None, worker := Trending(job, RetireMark))
      else s' == s.(worker := JobDone)
    case RetireMark =>
      s' == s.(trendCancelled := s.trendCancelled + {job.trend}, worker := JobDone)
  }

  ghost predicate TrendThrowStep(s: State, s': State, job: Job, at: TrendAt) {
    !at.Retire? && !at.RetireMark? && s' == s.(worker := Trending(job, Retire))
  }

  // ---------------------------------------------------------------- UI thread

  ghost predicate UiStep(s: State, s': State)
    requires s.history != []
  {
    match s.ui
    case UiIdle =>
      || (exists id, watchlist :: BeginStart(s, s', id, watchlist))
      || (exists id, watchlist :: BeginTrend(s, s', id, watchlist))
      || s' == s.(ui := Resetting(0, RExchange))
    case Starting(id, key, empty, gen, at) => StartStep(s, s', id, key, empty, gen, at)
    case StartingTrend(job, at) => TrendStartStep(s, s', job, at)
    case Resetting(gen, at) => ResetStep(s, s', gen, at)
  }

  ghost predicate BeginStart(s: State, s': State, id: Id, watchlist: seq<string>) {
    && !("watchlist:" <= id)
    && s' == s.(ui := Starting(id, BuildScreenerCacheKey(id, watchlist),
                               id == "" || (id == "watchlist" && watchlist == []), 0, SLoad))
  }

  /** StartScreenerTrendFetch past its first load: the snapshot shown is Ready, has rows and misses
      trends. Its other exits leave the state alone. */
  ghost predicate BeginTrend(s: State, s': State, id: Id, watchlist: seq<string>)
    requires s.history != []
  {
    var shown := s.Current();
    && shown.id == id && shown.load == Ready && shown.items.Some?
    && !("watchlist:" <= id)
    && s' == s.(ui := StartingTrend(TrendJob(shown.gen, id, BuildScreenerCacheKey(id, watchlist), 0, shown.items.value),
                                    TReadSlot))
  }

  ghost predicate StartStep(s: State, s': State, id: Id, key: string, empty: bool, gen: nat, at: StartAt)
    requires s.history != []
  {
    match at
    case SLoad => s' == s.(ui := Starting(id, key, empty, gen, SGeneration(s.Last())))
    case SGeneration(shown) =>
      var g := s.nextGeneration + 1;
      s' == s.(nextGeneration := g, genId := s.genId[g := id], ui := Starting(id, key, empty, g, SExchange(shown)))
    case SExchange(shown) =>
      s' == s.(requestSlot := Some(gen), ui := Starting(id, key, empty, gen, SCancel(shown, s.requestSlot)))
    case SCancel(shown, previous) =>
      s' == s.(requestCancelled := Cancel(s.requestCancelled, previous),
               ui := Starting(id, key, empty, gen, STrendExchange(shown)))
    case STrendExchange(shown) =>
      s' == s.(trendSlot := None, ui := Starting(id, key, empty, gen, STrendCancel(shown, s.trendSlot)))
    case STrendCancel(shown, previous) =>
      s' == s.(trendCancelled := Cancel(s.trendCancelled, previous),
               ui := Starting(id, key, empty, gen, SDisplay(shown)))
    case SDisplay(shown) =>
      if shown < |s.history| && s.history[shown].snap.id == id && s.history[shown].snap.items.Some? then
        s' == s.(ui := Starting(id, key, empty, gen, SPublish(s.history[shown].snap.items)))
      else
        || s' == s.(ui := Starting(id, key, empty, gen, SPublish(None)))
        || s' == s.(ui := Starting(id, key, empty, gen, SCacheLookup(false)))
    case SCacheLookup(again) =>
      || (key in s.cache && s' == s.(ui := Starting(id, key, empty, gen, SPublish(Some(s.cache[key])))))
      || (again && s' == s.(ui := Starting(id, key, empty, gen, SPublish(None))))
      || (!again && s' == s.(ui := Starting(id, key, empty, gen, SPersistent)))
    case SPersistent =>
      || s' == s.(ui := Starting(id, key, empty, gen, SPublish(None)))
      || s' == s.(ui := Starting(id, key, empty, gen, SCacheStore(Rows(Persistent, {KeyOwner(key)}, {}))))
    case SCacheStore(rows) =>
      exists cache :: StoredCache(s.cache, cache, key, rows)
                      && (|| s' == s.(cache := cache, ui := Starting(id, key, empty, gen, SCacheLookup(true)))
                          || s' == s.(cache := cache, ui := Starting(id, key, empty, gen, SPublish(None))))
    case SPublish(items) =>
      s' == s.Published(Snapshot(gen, id, if items.Some? then Refreshing else Loading, items), Ui)
            .(ui := Starting(id, key, empty, gen, SDecide))
    case SDecide =>
      var next := if empty then SEmptyPublish(Publish(Ready, None, PLoad)) else SSubmit;
      s' == s.(ui := Starting(id, key, empty, gen, next))
    case SEmptyPublish(p) =>
      exists t, r :: PublishStep(s, t, p, gen, id, Ui, r)
                     && s' == t.(ui := if r.Going? then Starting(id, key, empty, gen, SEmptyPublish(r.next))
                                       else UiIdle)
    case SSubmit =>
      if s.stopping then s' == s.(ui := Starting(id, key, empty, gen, SFail(FLoad)))
      else s' == s.(pending := Some(FetchJob(gen, id, key)), busy := true, ui := UiIdle)
    case SFail(f) =>
      exists t, r :: FinishStep(s, t, f, gen, id, Ui, r)
                     && s' == t.(ui := if r.Going? then Starting(id, key, empty, gen, SFail(r.next)) else UiIdle)
  }

  ghost predicate TrendStartStep(s: State, s': State, job: Job, at: TrendStartAt) {
    job.TrendJob? &&
    match at
    case TReadSlot =>
      s' == s.(ui := if s.requestSlot == Some(job.gen) then StartingTrend(job, TToken) else UiIdle)
    case TToken => s' == s.(ui := if job.gen in s.requestCancelled then UiIdle else StartingTrend(job, TQuit))
    case TQuit => s' == s.(ui := if s.quit then UiIdle else StartingTrend(job, TExchange))
    case TExchange =>
      s' == s.(nextTrend := s.nextTrend + 1, trendSlot := Some(s.nextTrend),
               ui := StartingTrend(job.(trend := s.nextTrend), TCancel(s.trendSlot)))
    case TCancel(previous) =>
      s' == s.(trendCancelled := Cancel(s.trendCancelled, previous), ui := StartingTrend(job, TSubmit))
    case TSubmit =>
      if s.stopping then s' == s.(ui := StartingTrend(job, TRetire))
      else s' == s.(pending := Some(job), busy := true, ui := UiIdle)
    case TRetire =>
      if s.trendSlot == Some(job.trend) then s' == s.(trendSlot := None, ui := StartingTrend(job, TRetireMark))
      else s' == s.(ui := UiIdle)
    case TRetireMark => s' == s.(trendCancelled := s.trendCancelled + {job.trend}, ui := UiIdle)
  }

  ghost predicate ResetStep(s: State, s': State, gen: nat, at: ResetAt)
    requires s.history != []
  {
    match at
    case RExchange => s' == s.(requestSlot := None, ui := Resetting(gen, RCancel(s.requestSlot)))
    case RCancel(previous) =>
      s' == s.(requestCancelled := Cancel(s.requestCancelled, previous), ui := Resetting(gen, RTrendExchange))
    case RTrendExchange => s' == s.(trendSlot := None, ui := Resetting(gen, RTrendCancel(s.trendSlot)))
    case RTrendCancel(previous) =>
      s' == s.(trendCancelled := Cancel(s.trendCancelled, previous), ui := Resetting(gen, RGeneration))
    case RGeneration =>
      var g := s.nextGeneration + 1;
      s' == s.(nextGeneration := g, genId := s.genId[g := ""], ui := Resetting(g, RPublish))
    case RPublish => s' == s.Published(Snapshot(gen, "", Idle, None), Ui).(ui := UiIdle)
  }

  /** Quit may be requested, and the executor stopped, at any time. */
  ghost predicate EnvironmentStep(s: State, s': State) {
    || s' == s.(quit := true)
    || s' == s.(stopping := true, pending := None)
  }

  ghost predicate Step(s: State, s': State)
    requires s.history != []
  {
    UiStep(s, s') || WorkerStep(s, s') || EnvironmentStep(s, s')
  }

  // ---------------------------------------------------------------- invariant

  /** Fresh generation drawn, its snapshot not yet stored. */
  predicate Preparing(ui: UiPc) {
    || (ui.Starting? && !ui.start.SLoad? && !ui.start.SGeneration? && !Submitting(ui))
    || (ui.Resetting? && ui.reset.RPublish?)
  }

  /** The displayed generation's token has left the slot; its replacement is not stored yet. */
  predicate Replacing(ui: UiPc) {
    || (ui.Starting? && !ui.start.SLoad? && !ui.start.SGeneration? && !ui.start.SExchange? && !Submitting(ui))
    || (ui.Resetting? && !ui.reset.RExchange?)
  }

  /** The new snapshot is stored; its job is about to be submitted or its request settled. */
  predicate Submitting(ui: UiPc) {
    ui.Starting? && (ui.start.SDecide? || ui.start.SEmptyPublish? || ui.start.SSubmit? || ui.start.SFail?)
  }

  predicate FetchPending(s: State, gen: nat) {
    s.pending.Some? && s.pending.value.FetchJob? && s.pending.value.gen == gen
  }

  predicate FetchRunning(s: State, gen: nat) {
    s.worker.Fetching? && s.worker.job.gen == gen
  }

  predicate IsLoading(load: Load) {
    load == Loading || load == Refreshing
  }

  /** The displayed request is in somebody's hands. */
  predicate InHand(s: State)
    requires s.history != []
  {
    var gen := s.Current().gen;
    FetchPending(s, gen) || FetchRunning(s, gen) || Submitting(s.ui) || Replacing(s.ui)
  }

  predicate From(items: Option<Rows>, id: Id) {
    items.Some? ==> items.value.owners <= {id}
  }

  /** Generations only grow, the worker keeps what it replaces, rows belong to their screener. */
  predicate GoodHistory(s: State) {
    && s.history != []
    && (forall i, j :: 0 <= i < j < |s.history| ==> s.history[i].snap.gen <= s.history[j].snap.gen)
    && (forall i :: 0 < i < |s.history| && s.history[i].author == Worker ==>
          s.history[i].snap.gen == s.history[i - 1].snap.gen && s.history[i].snap.id == s.history[i - 1].snap.id)
    && (forall i :: 0 <= i < |s.history| ==> From(s.history[i].snap.items, s.history[i].snap.id))
    && (forall i :: 0 <= i < |s.history| ==>
          s.history[i].snap.gen in s.genId && s.genId[s.history[i].snap.gen] == s.history[i].snap.id)
  }

  predicate GoodCache(cache: map<string, Rows>) {
    forall k :: k in cache ==> cache[k].owners <= {KeyOwner(k)}
  }

  /** Generations in use are at most the displayed one, a fresh one is above it, and the displayed
      request's token is only ever cancelled while it is being replaced. */
  predicate GoodGenerations(s: State)
    requires s.history != []
  {
    var shown := s.Current().gen;
    && (forall g :: g in s.genId ==> g <= s.nextGeneration)
    && (if Preparing(s.ui) then shown < s.nextGeneration else shown == s.nextGeneration)
    && (forall c :: c in s.requestCancelled ==> c <= shown && (c < shown || Replacing(s.ui)))
    && (s.requestSlot.Some? ==>
          s.requestSlot.value <= shown || (Replacing(s.ui) && s.requestSlot.value == s.nextGeneration))
    && (s.ui.Starting? && s.ui.start.SCancel? && s.ui.start.previous.Some? ==> s.ui.start.previous.value <= shown)
    && (s.ui.Resetting? && s.ui.reset.RCancel? && s.ui.reset.previous.Some? ==> s.ui.reset.previous.value <= shown)
  }

  predicate SawAtLeast(s: State, cur: nat, gen: nat) {
    cur < |s.history| && s.history[cur].snap.gen >= gen
  }

  predicate GoodPublish(s: State, p: Publish, gen: nat, id: Id) {
    && From(p.items, id)
    && (p.at.PToken? || p.at.PQuit? ==> SawAtLeast(s, p.at.cur, gen))
    && (p.at.PCas? ==> s.Matches(p.at.cur, gen, id))
  }

  predicate GoodFinish(s: State, f: Finish, gen: nat, id: Id) {
    match f
    case FLoad => true
    case FToken(cur) => SawAtLeast(s, cur, gen)
    case FQuit(cur) => SawAtLeast(s, cur, gen)
    case FPublish(p) => GoodPublish(s, p, gen, id) && p.load == SettledLoad(p.items)
  }

  predicate GoodJob(s: State, job: Job)
    requires s.history != []
  {
    && job.gen <= s.Current().gen
    && job.gen in s.genId && s.genId[job.gen] == job.id
    && KeyOwner(job.key) == job.id
    && (job.TrendJob? ==> job.rows.owners <= {job.id})
  }

  predicate GoodFetchAt(s: State, at: FetchAt, gen: nat, id: Id) {
    match at
    case Source => true
    case ProgressPublish(p) => GoodPublish(s, p, gen, id) && p.load == Refreshing && p.items.Some?
    case ResultToken(result) => From(result, id)
    case ResultQuit(result) => From(result, id)
    case FinalPublish(p) => GoodPublish(s, p, gen, id) && p.load == Ready && p.items.Some?
    case Failing(f) => GoodFinish(s, f, gen, id)
    case _ => at.rows.owners <= {id}
  }

  predicate SawReady(s: State, cur: nat, gen: nat, id: Id) {
    s.Matches(cur, gen, id) && s.history[cur].snap.load == Ready && s.history[cur].snap.items.Some?
  }

  predicate GoodTrendAt(s: State, at: TrendAt, gen: nat, id: Id) {
    match at
    case PhaseCheck(_, cur, _) => SawReady(s, cur, gen, id)
    case PhaseCas(_, cur) => SawReady(s, cur, gen, id)
    case PhaseCache(_, rows) => rows.owners <= {id}
    case _ => true
  }

  predicate GoodWorker(s: State)
    requires s.history != []
  {
    match s.worker
    case Fetching(job, at) => job.FetchJob? && GoodJob(s, job) && GoodFetchAt(s, at, job.gen, job.id)
    case Trending(job, at) => job.TrendJob? && GoodJob(s, job) && GoodTrendAt(s, at, job.gen, job.id)
    case _ => true
  }

  predicate GoodStartAt(s: State, at: StartAt, gen: nat, id: Id) {
    match at
    case SPublish(items) => From(items, id)
    case SCacheStore(rows) => rows.owners <= {id}
    case SEmptyPublish(p) => GoodPublish(s, p, gen, id) && p.load == Ready
    case SFail(f) => GoodFinish(s, f, gen, id) && s.stopping
    case _ => true
  }

  predicate GoodUi(s: State)
    requires s.history != []
  {
    match s.ui
    case UiIdle => true
    case Starting(id, key, _, gen, at) =>
      && KeyOwner(key) == id && GoodStartAt(s, at, gen, id)
      && (Preparing(s.ui) || Submitting(s.ui) ==>
            gen == s.nextGeneration && gen in s.genId && s.genId[gen] == id)
    case StartingTrend(job, at) => job.TrendJob? && GoodJob(s, job)
    case Resetting(gen, at) =>
      Preparing(s.ui) ==> gen == s.nextGeneration && gen in s.genId && s.genId[gen] == ""
  }

  predicate WorkerBelow(s: State, gen: nat) {
    && (s.pending.Some? ==> s.pending.value.gen < gen)
    && (s.worker.Fetching? || s.worker.Trending? ==> s.worker.job.gen < gen)
  }

  predicate NoFetch(s: State, gen: nat) {
    !FetchPending(s, gen) && !FetchRunning(s, gen)
  }

  /** A settled snapshot has no fetch left, an unsettled one at most one; a request being submitted has none
      yet; a trend request begins only on a settled snapshot; a loading snapshot is in somebody's hands. */
  predicate GoodLoading(s: State)
    requires s.history != []
  {
    var shown := s.Current();
    && (!IsLoading(shown.load) ==> NoFetch(s, shown.gen))
    && !(FetchPending(s, shown.gen) && FetchRunning(s, shown.gen))
    && (Submitting(s.ui) ==> IsLoading(shown.load) && WorkerBelow(s, shown.gen))
    && (s.ui.StartingTrend? ==> NoFetch(s, shown.gen))
    && (!s.quit && !s.stopping && IsLoading(shown.load) ==> InHand(s))
  }

  predicate GoodBusy(s: State) {
    s.pending.Some? || s.worker.Fetching? || s.worker.Trending? || s.worker.JobDone? ==> s.busy
  }

  predicate Inv(s: State) {
    && GoodHistory(s)
    && GoodCache(s.cache)
    && GoodGenerations(s)
    && (s.pending.Some? ==> GoodJob(s, s.pending.value))
    && GoodWorker(s)
    && GoodUi(s)
    && GoodLoading(s)
    && GoodBusy(s)
  }

  lemma InitInv(s: State)
    requires Init(s)
    ensures Inv(s)
  {
  }
}
