/** Left alone, the worker settles every request, however its jobs go. */
module ScreenerSettling {
  import opened Options
  import opened ScreenerProtocol
  import opened ScreenerInvariant
  import Runs = ScreenerRuns

  /** A request waiting to be settled, with nobody interfering. */
  predicate Unsettled(s: State) {
    s.history != [] && Inv(s) && s.ui == UiIdle && !s.quit && !s.stopping && IsLoading(s.Current().load)
    && !s.worker.Stopped?
  }

  /** In every run, that is every loading state before quit and shutdown while the UI thread is idle. */
  lemma LoadingIsUnsettled(run: seq<State>, i: nat)
    requires Runs.IsRun(run) && i < |run|
    ensures run[i].history != []
    ensures Unsettled(run[i])
            <==> IsLoading(run[i].Current().load) && run[i].ui == UiIdle && !run[i].quit && !run[i].stopping
  {
    Runs.RunKeepsInv(run, i);
    Runs.WorkerLeavesOnStop(run, i);
    hide Runs.IsRun, GoodCache, GoodGenerations, GoodWorker, GoodUi, GoodLoading, GoodBusy;
  }

  /** The data source reports progress, which it may do any number of times. */
  predicate Reports(s: State, s': State) {
    || (s.worker.Fetching? && s.worker.fetch.Source? && s'.worker.Fetching? && s'.worker.fetch.ProgressToken?)
    || (s.worker.Trending? && s.worker.trend.Enriching? && s'.worker.Trending? && s'.worker.trend == PhaseLoad(false))
  }

  /** A step without an exception. */
  ghost predicate OrdinaryStep(s: State, s': State)
    requires s.history != []
  {
    match s.worker
    case WaitingForJob => TakeStep(s, s')
    case Fetching(job, at) => FetchStep(s, s', job, at)
    case Trending(job, at) => TrendStep(s, s', job, at)
    case JobDone => WorkerStep(s, s')
    case Stopped => false
  }

  // ---------------------------------------------------------------- ranks

  /** Steps left in a publish loop that only this thread disturbs. */
  function PublishRank(s: State, at: PublishAt): nat
    requires s.history != []
  {
    match at
    case PLoad => 4
    case PToken(cur) => if cur == s.Last() then 3 else 7
    case PQuit(cur) => if cur == s.Last() then 2 else 6
    case PCas(cur) => if cur == s.Last() then 1 else 5
  }

  function FinishRank(s: State, f: Finish): nat
    requires s.history != []
  {
    match f
    case FLoad => 10
    case FToken(_) => 9
    case FQuit(_) => 8
    case FPublish(p) => PublishRank(s, p.at)
  }

  function FetchRank(s: State, at: FetchAt): nat
    requires s.history != []
  {
    match at
    case ProgressToken(_) => 40
    case ProgressQuit(_) => 39
    case ProgressLoad(_) => 38
    case ProgressPublish(p) => 30 + PublishRank(s, p.at)
    case Source => 30
    case ResultToken(_) => 29
    case ResultQuit(_) => 28
    case TrendExchange(_) => 27
    case TrendCancel(_, _) => 26
    case MergeLoad(_) => 25
    case StoreToken(_) => 24
    case StoreQuit(_) => 23
    case StoreRows(_) => 22
    case FinalPublish(p) => 11 + PublishRank(s, p.at)
    case Failing(f) => FinishRank(s, f)
  }

  function Countdown(k: nat): nat {
    if k < 3 then 3 - k else 0
  }

  /** A trend job that finds the snapshot loading. */
  function TrendRank(at: TrendAt): nat {
    match at
    case RetireMark => 0
    case Retire => 1
    case PhaseLoad(final) => if final then 2 else 14
    case PhaseCas(final, _) => if final then 3 else 15
    case PhaseCheck(final, _, k) => (if final then 4 else 16) + Countdown(k)
    case PhaseCache(final, _) => if final then 8 else 20
    case EndCheck(k) => 9 + Countdown(k)
    case Enriching => 13
  }

  const MAX_RANK: nat := 120

  /** Worker steps left until the request is settled, if no progress is reported: first whatever job the
      worker is busy with, then the fetch of the displayed generation. */
  function Rank(s: State): nat
    requires s.history != []
  {
    match s.worker
    case Fetching(job, at) => (if job.gen == s.Current().gen then 0 else 80) + FetchRank(s, at)
    case WaitingForJob => 50
    case JobDone => 60
    case Trending(_, at) => 61 + TrendRank(at)
    case Stopped => 0
  }

  lemma RankIsBounded(s: State)
    requires s.history != []
    ensures Rank(s) <= MAX_RANK
  {
  }

  // ---------------------------------------------------------------- every step comes nearer

  /** The request has ended: Ready with rows to show, or Failed without any. */
  predicate Settled(s: State) {
    && s.history != []
    && (|| (s.Current().load == Ready && s.Current().items.Some?)
        || (s.Current().load == Failed && s.Current().items.None?))
  }

  /** Settled, or still unsettled and nearer, or unsettled after a report. */
  predicate Nearer(s: State, s': State)
    requires s.history != []
  {
    && s'.history != []
    && (|| Settled(s')
        || (Unsettled(s') && (Reports(s, s') || Rank(s') < Rank(s))))
  }

  lemma CurrentIsNotCancelled(s: State)
    requires Unsettled(s)
    ensures s.Current().gen !in s.requestCancelled
  {
    hide GoodHistory, GoodCache, GoodWorker, GoodLoading;
  }

  lemma PublishNears(s: State, t: State, p: Publish, gen: nat, id: Id, author: Author, r: Progress<Publish>)
    requires s.history != [] && PublishStep(s, t, p, gen, id, author, r) && r.Going?
    ensures PublishRank(s, r.next.at) < PublishRank(s, p.at)
  {
  }

  lemma FinishNears(s: State, t: State, f: Finish, gen: nat, id: Id, author: Author, r: Progress<Finish>)
    requires s.history != [] && FinishStep(s, t, f, gen, id, author, r) && r.Going?
    ensures FinishRank(s, r.next) < FinishRank(s, f)
  {
    hide PublishStep, PublishRank;
    match f
    case FPublish(p) =>
      var q :| PublishStep(s, t, p, gen, id, author, q)
               && r == (if q.Going? then Going(FPublish(q.next)) else Done(q.ok));
      PublishNears(s, t, p, gen, id, author, q);
    case FQuit(_) => RankOfLoad(s);
    case _ =>
  }

  lemma RankOfLoad(s: State)
    requires s.history != []
    ensures PublishRank(s, PLoad) == 4
  {
  }

  predicate Publishes(at: FetchAt) {
    at.ProgressPublish? || at.FinalPublish? || at.Failing?
  }

  /** The steps of a fetch that publish nothing. */
  lemma QuietStep(s: State, s': State, job: Job, at: FetchAt)
    requires s.history != [] && FetchStep(s, s', job, at) && !Publishes(at)
    ensures SameButWorker(s, s')
    ensures || (s'.worker == JobDone && (job.gen in s.requestCancelled || s.quit))
            || (s'.worker.Fetching? && s'.worker.job == job
                && (Reports(s.(worker := Fetching(job, at)), s') || FetchRank(s, s'.worker.fetch) < FetchRank(s, at)))
  {
    hide FetchStep;
    if at.StoreRows? {
      StoreRowsStep(s, s', job, at);
    } else if at.Source? || at.ProgressToken? || at.ProgressQuit? {
      SourceStep(s, s', job, at);
    } else if at.ProgressLoad? {
      ProgressLoadStep(s, s', job, at);
    } else if at.MergeLoad? {
      MergeStep(s, s', job, at);
    } else {
      ResultStep(s, s', job, at);
    }
  }

  lemma StoreRowsStep(s: State, s': State, job: Job, at: FetchAt)
    requires s.history != [] && FetchStep(s, s', job, at) && at.StoreRows?
    ensures SameButWorker(s, s') && s'.worker.Fetching? && s'.worker.job == job
    ensures FetchRank(s, s'.worker.fetch) < FetchRank(s, at)
  {
    hide StoredCache, PublishStep, FinishStep;
    var cache :| StoredCache(s.cache, cache, job.key, at.rows)
                 && s' == s.(cache := cache,
                             worker := Fetching(job, FinalPublish(Publish(Ready, Some(at.rows), PLoad))));
  }

  lemma SourceStep(s: State, s': State, job: Job, at: FetchAt)
    requires s.history != [] && FetchStep(s, s', job, at) && (at.Source? || at.ProgressToken? || at.ProgressQuit?)
    ensures SameButWorker(s, s') && s'.worker.Fetching? && s'.worker.job == job
    ensures (at.Source? && s'.worker.fetch.ProgressToken?) || FetchRank(s, s'.worker.fetch) < FetchRank(s, at)
  {
    hide StoredCache, PublishStep, FinishStep;
  }

  lemma ProgressLoadMoves(s: State, s': State, job: Job, at: FetchAt)
    requires s.history != [] && FetchStep(s, s', job, at) && at.ProgressLoad?
    ensures SameButWorker(s, s') && s'.worker.Fetching? && s'.worker.job == job
    ensures s'.worker.fetch.Source? || (s'.worker.fetch.ProgressPublish? && s'.worker.fetch.publish.at == PLoad)
  {
    hide StoredCache, PublishStep, FinishStep, PublishRank, FetchRank, Cancel;
    var shown := s.Current();
    if shown.gen != job.gen || shown.id != job.id {
      assert s' == s.(worker := Fetching(job, Source));
    } else if shown.items.Some? {
      var p := Publish(Refreshing, Some(at.rows.FilledFrom(shown.items.value)), PLoad);
      assert s' == s.(worker := Fetching(job, ProgressPublish(p)));
    } else {
      var p := Publish(Refreshing, Some(at.rows), PLoad);
      assert s' == s.(worker := Fetching(job, Source)) || s' == s.(worker := Fetching(job, ProgressPublish(p)));
    }
  }

  lemma ProgressLoadStep(s: State, s': State, job: Job, at: FetchAt)
    requires s.history != [] && FetchStep(s, s', job, at) && at.ProgressLoad?
    ensures SameButWorker(s, s') && s'.worker.Fetching? && s'.worker.job == job
    ensures FetchRank(s, s'.worker.fetch) < FetchRank(s, at)
  {
    hide FetchStep;
    ProgressLoadMoves(s, s', job, at);
  }

  lemma MergeStep(s: State, s': State, job: Job, at: FetchAt)
    requires s.history != [] && FetchStep(s, s', job, at) && at.MergeLoad?
    ensures SameButWorker(s, s') && s'.worker.Fetching? && s'.worker.job == job
    ensures FetchRank(s, s'.worker.fetch) < FetchRank(s, at)
  {
    hide StoredCache, PublishStep, FinishStep;
  }

  lemma ResultStep(s: State, s': State, job: Job, at: FetchAt)
    requires s.history != [] && FetchStep(s, s', job, at)
    requires || at.ResultToken? || at.ResultQuit? || at.TrendExchange? || at.TrendCancel?
             || at.StoreToken? || at.StoreQuit?
    ensures SameButWorker(s, s')
    ensures || (s'.worker == JobDone && (job.gen in s.requestCancelled || s.quit))
            || (s'.worker.Fetching? && s'.worker.job == job && FetchRank(s, s'.worker.fetch) < FetchRank(s, at))
  {
    hide StoredCache, PublishStep, FinishStep, PublishRank;
  }

  lemma FetchRankOfSame(s: State, t: State, at: FetchAt)
    requires s.history != [] && t.history == s.history
    ensures FetchRank(t, at) == FetchRank(s, at)
  {
  }

  /** A worker that moves without publishing, keeping its job or leaving one that is out of date. */
  lemma MovesNearer(s: State, s': State, job: Job, at: FetchAt)
    requires Unsettled(s) && s.worker == Fetching(job, at) && SameButWorker(s, s') && Inv(s')
    requires || (s'.worker == JobDone && job.gen != s.Current().gen)
             || (s'.worker.Fetching? && s'.worker.job == job
                 && (Reports(s, s') || FetchRank(s, s'.worker.fetch) < FetchRank(s, at)))
    ensures Nearer(s, s')
  {
    hide Inv, FetchRank;
    if s'.worker.Fetching? {
      FetchRankOfSame(s, s', s'.worker.fetch);
    }
  }

  lemma QuietNears(s: State, s': State, job: Job, at: FetchAt)
    requires Unsettled(s) && s.worker == Fetching(job, at) && FetchStep(s, s', job, at) && !Publishes(at)
    requires Inv(s')
    ensures Nearer(s, s')
  {
    CurrentIsNotCancelled(s);
    hide Inv, FetchStep, FetchRank, Nearer;
    QuietStep(s, s', job, at);
    assert s.(worker := Fetching(job, at)) == s;
    MovesNearer(s, s', job, at);
  }

  /** What the job of a fetching worker is good for. */
  lemma FetchFacts(s: State, job: Job, at: FetchAt)
    requires Inv(s) && s.worker == Fetching(job, at)
    ensures s.history != [] && GoodFetchAt(s, at, job.gen, job.id)
    ensures job.gen <= s.Current().gen && job.gen in s.genId && s.genId[job.gen] == job.id
  {
  }

  lemma ProgressStepIs(s: State, s': State, job: Job, at: FetchAt) returns (t: State, r: Progress<Publish>)
    requires s.history != [] && at.ProgressPublish? && FetchStep(s, s', job, at)
    ensures PublishStep(s, t, at.publish, job.gen, job.id, Worker, r)
            && s' == t.(worker := Fetching(job, if r.Going? then ProgressPublish(r.next) else Source))
  {
    hide PublishStep;
    t, r :| PublishStep(s, t, at.publish, job.gen, job.id, Worker, r)
            && s' == t.(worker := Fetching(job, if r.Going? then ProgressPublish(r.next) else Source));
  }

  lemma SourceIsNearer(s: State, p: Publish)
    requires s.history != []
    ensures FetchRank(s, Source) < FetchRank(s, ProgressPublish(p))
  {
  }

  lemma ProgressNears(s: State, s': State, job: Job, at: FetchAt)
    requires Unsettled(s) && s.worker == Fetching(job, at) && at.ProgressPublish? && FetchStep(s, s', job, at)
    requires Inv(s')
    ensures Nearer(s, s')
  {
    FetchFacts(s, job, at);
    hide Inv, FetchStep, PublishStep, PublishRank, GoodPublish;
    var t, r := ProgressStepIs(s, s', job, at);
    PublishMoves(s, t, at.publish, job.gen, job.id, Worker, r);
    if r.Going? {
      PublishNears(s, t, at.publish, job.gen, job.id, Worker, r);
      MovesNearer(s, s', job, at);
    } else if r == Done(false) {
      SourceIsNearer(s, at.publish);
      MovesNearer(s, s', job, at);
    } else {
      PublishedProgress(s, s', job, at.publish);
    }
  }

  lemma PublishedProgress(s: State, s': State, job: Job, p: Publish)
    requires Unsettled(s) && s.worker == Fetching(job, ProgressPublish(p)) && Inv(s')
    requires s.Current().gen == job.gen && p.load == Refreshing
    requires s' == s.Published(Snapshot(job.gen, job.id, p.load, p.items), Worker).(worker := Fetching(job, Source))
    ensures Nearer(s, s')
  {
    hide Inv;
    assert s'.Current().gen == job.gen;
  }

  lemma FinalNears(s: State, s': State, job: Job, at: FetchAt)
    requires Unsettled(s) && s.worker == Fetching(job, at) && at.FinalPublish? && FetchStep(s, s', job, at)
    requires Inv(s')
    ensures Nearer(s, s')
  {
    FetchFacts(s, job, at);
    CurrentIsNotCancelled(s);
    hide Inv, FetchStep, PublishStep, PublishRank, GoodPublish;
    var t, r := FinalStepIs(s, s', job, at);
    PublishMoves(s, t, at.publish, job.gen, job.id, Worker, r);
    if r.Going? {
      PublishNears(s, t, at.publish, job.gen, job.id, Worker, r);
      MovesNearer(s, s', job, at);
    } else if r == Done(false) {
      MovesNearer(s, s', job, at);
    } else {
      assert s'.Current().load == Ready;
    }
  }

  lemma FailingNears(s: State, s': State, job: Job, at: FetchAt)
    requires Unsettled(s) && s.worker == Fetching(job, at) && at.Failing? && FetchStep(s, s', job, at)
    requires Inv(s')
    ensures Nearer(s, s')
  {
    FetchFacts(s, job, at);
    CurrentIsNotCancelled(s);
    hide Inv, FetchStep, FinishStep, FinishRank, GoodFinish;
    var t, r := FailingStepIs(s, s', job, at);
    FinishMoves(s, t, at.finish, job.gen, job.id, Worker, r);
    if r.Going? {
      FinishNears(s, t, at.finish, job.gen, job.id, Worker, r);
      MovesNearer(s, s', job, at);
    } else if r == Done(false) {
      MovesNearer(s, s', job, at);
    } else {
      assert s'.Current().load == at.finish.publish.load;
    }
  }

  lemma ThrowIsNearer(s: State, at: FetchAt)
    requires s.history != [] && !at.Failing?
    ensures FetchRank(s, Failing(FLoad)) < FetchRank(s, at)
  {
  }

  lemma TrendingNears(s: State, s': State, job: Job, at: TrendAt)
    requires Unsettled(s) && s.worker == Trending(job, at) && Inv(s')
    requires TrendStep(s, s', job, at) || TrendThrowStep(s, s', job, at)
    ensures Nearer(s, s')
  {
    assert GoodTrendAt(s, at, job.gen, job.id);
    hide Inv, TrendStep, Nearer;
    if TrendThrowStep(s, s', job, at) {
      TrendLeft(s, s', job, at);
    } else if at.PhaseCache? {
      TrendCached(s, s', job, at);
      TrendLeft(s, s', job, at);
    } else if at.PhaseCheck? {
      TrendChecked(s, s', job, at);
      TrendLeft(s, s', job, at);
    } else if at.PhaseLoad? || at.PhaseCas? {
      TrendPhased(s, s', job, at);
      TrendLeft(s, s', job, at);
    } else if at.Enriching? || at.EndCheck? {
      TrendAsked(s, s', job, at);
      TrendLeft(s, s', job, at);
    } else {
      TrendRetired(s, s', job, at);
      TrendLeft(s, s', job, at);
    }
  }

  lemma TrendLeft(s: State, s': State, job: Job, at: TrendAt)
    requires Unsettled(s) && s.worker == Trending(job, at) && SameButWorker(s, s') && Inv(s')
    requires || s'.worker == JobDone
             || (s'.worker.Trending? && (Reports(s, s') || TrendRank(s'.worker.trend) < TrendRank(at)))
    ensures Nearer(s, s')
  {
    hide Inv;
  }

  lemma TrendCached(s: State, s': State, job: Job, at: TrendAt)
    requires s.history != [] && TrendStep(s, s', job, at) && at.PhaseCache?
    ensures SameButWorker(s, s') && s'.worker.Trending? && TrendRank(s'.worker.trend) < TrendRank(at)
  {
    hide StoredCache;
    var cache :| StoredCache(s.cache, cache, job.key, at.rows)
                 && s' == s.(cache := cache, worker := Trending(job, if at.final then Retire else Enriching));
  }

  lemma TrendChecked(s: State, s': State, job: Job, at: TrendAt)
    requires s.history != [] && TrendStep(s, s', job, at) && at.PhaseCheck?
    ensures SameButWorker(s, s') && s'.worker.Trending? && TrendRank(s'.worker.trend) < TrendRank(at)
  {
    hide StoredCache, Stale;
    if at.k < 3 {
      assert s'.worker in {Trending(job, Retire), Trending(job, Enriching),
                           Trending(job, PhaseCheck(at.final, at.cur, at.k + 1))};
    }
  }

  /** While the snapshot shown is loading, a trend phase finds nothing to publish. */
  lemma TrendPhased(s: State, s': State, job: Job, at: TrendAt)
    requires s.history != [] && TrendStep(s, s', job, at) && (at.PhaseLoad? || at.PhaseCas?)
    requires IsLoading(s.Current().load) && GoodTrendAt(s, at, job.gen, job.id)
    ensures SameButWorker(s, s') && s'.worker.Trending? && TrendRank(s'.worker.trend) < TrendRank(at)
  {
    hide StoredCache;
  }

  lemma TrendAsked(s: State, s': State, job: Job, at: TrendAt)
    requires s.history != [] && TrendStep(s, s', job, at) && s.worker == Trending(job, at)
    requires at.Enriching? || at.EndCheck?
    ensures SameButWorker(s, s') && s'.worker.Trending?
    ensures Reports(s, s') || TrendRank(s'.worker.trend) < TrendRank(at)
  {
    hide StoredCache;
  }

  lemma TrendRetired(s: State, s': State, job: Job, at: TrendAt)
    requires s.history != [] && TrendStep(s, s', job, at) && (at.Retire? || at.RetireMark?)
    ensures SameButWorker(s, s')
    ensures s'.worker == JobDone || (s'.worker.Trending? && TrendRank(s'.worker.trend) < TrendRank(at))
  {
    hide StoredCache;
  }

  lemma IdleWorkerNears(s: State, s': State)
    requires Unsettled(s) && (s.worker.WaitingForJob? || s.worker.JobDone?) && WorkerStep(s, s') && Inv(s')
    ensures Nearer(s, s')
  {
    assert InHand(s);
    hide Inv;
  }

  /** Every worker step but a progress report settles the request or comes nearer to it: the ordinary ones
      of fetching, merging, storing and publishing, failures, exceptions, and those of an older job. */
  lemma WorkerNears(s: State, s': State)
    requires Unsettled(s) && WorkerStep(s, s')
    ensures Nearer(s, s')
  {
    WorkerKeepsInv(s, s');
    hide Inv, FetchStep, TrendStep, TakeStep, Nearer;
    match s.worker
    case Fetching(job, at) =>
      if ThrowStep(s, s', job, at) {
        ThrowIsNearer(s, at);
        MovesNearer(s, s', job, at);
      } else if at.ProgressPublish? {
        ProgressNears(s, s', job, at);
      } else if at.FinalPublish? {
        FinalNears(s, s', job, at);
      } else if at.Failing? {
        FailingNears(s, s', job, at);
      } else {
        QuietNears(s, s', job, at);
      }
    case Trending(job, at) => TrendingNears(s, s', job, at);
    case _ => IdleWorkerNears(s, s');
  }

  // ---------------------------------------------------------------- the worker can always go on

  lemma PublishGoes(s: State, p: Publish, gen: nat, id: Id) returns (t: State, r: Progress<Publish>)
    requires s.history != []
    ensures PublishStep(s, t, p, gen, id, Worker, r)
  {
    t := s;
    match p.at
    case PLoad => r := Going(p.(at := PToken(s.Last())));
    case PToken(cur) => r := if gen in s.requestCancelled then Done(false) else Going(p.(at := PQuit(cur)));
    case PQuit(cur) => r := if s.quit || !s.Matches(cur, gen, id) then Done(false) else Going(p.(at := PCas(cur)));
    case PCas(cur) =>
      if cur == s.Last() {
        t, r := s.Published(Snapshot(gen, id, p.load, p.items), Worker), Done(true);
      } else {
        r := Going(p.(at := PLoad));
      }
  }

  lemma FinishGoes(s: State, f: Finish, gen: nat, id: Id) returns (t: State, r: Progress<Finish>)
    requires s.history != []
    ensures FinishStep(s, t, f, gen, id, Worker, r)
  {
    hide PublishStep, SettledLoad;
    t := s;
    match f
    case FLoad => r := Going(FToken(s.Last()));
    case FToken(cur) => r := if gen in s.requestCancelled then Done(false) else Going(FQuit(cur));
    case FQuit(cur) =>
      if s.quit || !s.Matches(cur, gen, id) {
        r := Done(false);
      } else {
        var shown := s.history[cur].snap;
        r := Going(FPublish(Publish(SettledLoad(shown.items), shown.items, PLoad)));
      }
    case FPublish(p) =>
      var q;
      t, q := PublishGoes(s, p, gen, id);
      r := if q.Going? then Going(FPublish(q.next)) else Done(q.ok);
  }

  /** A publishing step of a fetch. */
  lemma PublishingGoes(s: State, job: Job, at: FetchAt) returns (s': State)
    requires s.history != [] && Publishes(at)
    ensures FetchStep(s, s', job, at)
  {
    hide PublishStep, FinishStep;
    match at
    case ProgressPublish(p) =>
      var t, r := PublishGoes(s, p, job.gen, job.id);
      s' := t.(worker := Fetching(job, if r.Going? then ProgressPublish(r.next) else Source));
    case FinalPublish(p) =>
      var t, r := PublishGoes(s, p, job.gen, job.id);
      s' := t.(worker := if r.Going? then Fetching(job, FinalPublish(r.next)) else JobDone);
    case Failing(f) =>
      var t, r := FinishGoes(s, f, job.gen, job.id);
      s' := t.(worker := if r.Going? then Fetching(job, Failing(r.next)) else JobDone);
  }

  /** Where a fetch stands before its result is stored. */
  predicate Early(at: FetchAt) {
    at.Source? || at.ProgressToken? || at.ProgressQuit? || at.ProgressLoad? || at.ResultToken? || at.ResultQuit?
  }

  /** The data source returns rows instead of reporting once more. */
  lemma EarlyGoes(s: State, job: Job, at: FetchAt) returns (s': State)
    requires s.history != [] && Early(at)
    ensures FetchStep(s, s', job, at) && (at.Source? ==> s'.worker.Fetching? && s'.worker.fetch.ResultToken?)
  {
    hide PublishStep, FinishStep, StoredCache;
    match at
    case Source => s' := s.(worker := Fetching(job, ResultToken(Some(Rows(Returned(job.gen), {job.id}, {})))));
    case ProgressToken(rows) =>
      s' := s.(worker := Fetching(job, if job.gen in s.requestCancelled then Source else ProgressQuit(rows)));
    case ProgressQuit(rows) => s' := s.(worker := Fetching(job, if s.quit then Source else ProgressLoad(rows)));
    case ProgressLoad(rows) =>
      var shown := s.Current();
      if shown.gen != job.gen || shown.id != job.id || shown.items.None? {
        s' := s.(worker := Fetching(job, Source));
      } else {
        var p := Publish(Refreshing, Some(rows.FilledFrom(shown.items.value)), PLoad);
        s' := s.(worker := Fetching(job, ProgressPublish(p)));
      }
    case ResultToken(result) =>
      s' := s.(worker := if job.gen in s.requestCancelled then JobDone else Fetching(job, ResultQuit(result)));
    case ResultQuit(result) =>
      s' := s.(worker := if s.quit then JobDone
                         else if result.None? then Fetching(job, Failing(FLoad))
                         else Fetching(job, TrendExchange(result.value)));
  }

  lemma LateGoes(s: State, job: Job, at: FetchAt) returns (s': State)
    requires s.history != [] && !Publishes(at) && !Early(at)
    ensures FetchStep(s, s', job, at)
  {
    hide PublishStep, FinishStep;
    match at
    case TrendExchange(rows) =>
      s' := s.(trendSlot := None, worker := Fetching(job, TrendCancel(rows, s.trendSlot)));
    case TrendCancel(rows, previous) =>
      s' := s.(trendCancelled := Cancel(s.trendCancelled, previous), worker := Fetching(job, MergeLoad(rows)));
    case MergeLoad(rows) =>
      var shown := s.Current();
      var merged := if shown.gen == job.gen && shown.id == job.id && shown.items.Some?
                    then rows.FilledFrom(shown.items.value) else rows;
      s' := s.(worker := Fetching(job, StoreToken(merged)));
    case StoreToken(rows) =>
      s' := s.(worker := if job.gen in s.requestCancelled then JobDone else Fetching(job, StoreQuit(rows)));
    case StoreQuit(rows) => s' := s.(worker := if s.quit then JobDone else Fetching(job, StoreRows(rows)));
    case StoreRows(rows) =>
      assert StoredCache(s.cache, s.cache, job.key, rows);
      s' := s.(worker := Fetching(job, FinalPublish(Publish(Ready, Some(rows), PLoad))));
  }

  /** A trend job outside its phases: the provider has been asked, or the job is being retired. */
  lemma TrendGoes(s: State, job: Job, at: TrendAt) returns (s': State)
    requires s.history != [] && job.TrendJob?
    requires at.Enriching? || at.EndCheck? || at.Retire? || at.RetireMark?
    ensures TrendStep(s, s', job, at) && (at.Enriching? ==> s'.worker == Trending(job, EndCheck(0)))
  {
    hide StoredCache;
    match at
    case Enriching => s' := s.(worker := Trending(job, EndCheck(0)));
    case EndCheck(k) =>
      s' := s.(worker := Trending(job, if Stale(s, job, k) then Retire
                                       else if k < 3 then EndCheck(k + 1) else PhaseLoad(true)));
    case Retire =>
      s' := if s.trendSlot == Some(job.trend) then s.(trendSlot := None, worker := Trending(job, RetireMark))
            else s.(worker := JobDone);
    case RetireMark => s' := s.(trendCancelled := s.trendCancelled + {job.trend}, worker := JobDone);
  }

  lemma PhaseGoes(s: State, job: Job, at: TrendAt) returns (s': State)
    requires s.history != [] && job.TrendJob?
    requires at.PhaseLoad? || at.PhaseCheck? || at.PhaseCas? || at.PhaseCache?
    ensures TrendStep(s, s', job, at)
  {
    var next := if at.final then Retire else Enriching;
    match at
    case PhaseLoad(final) =>
      var shown := s.Current();
      s' := s.(worker := Trending(job, if shown.gen != job.gen || shown.id != job.id || shown.load != Ready
                                          || shown.items.None? then next else PhaseCheck(final, s.Last(), 0)));
    case PhaseCheck(final, cur, k) =>
      s' := s.(worker := Trending(job, if Stale(s, job, k) then next
                                       else if k < 3 then PhaseCheck(final, cur, k + 1) else PhaseCas(final, cur)));
    case PhaseCas(final, cur) =>
      if cur == s.Last() && s.Current().items.Some? {
        var rows := s.Current().items.value.FilledFrom(job.rows);
        s' := s.Published(Snapshot(job.gen, job.id, Ready, Some(rows)), Worker)
              .(worker := Trending(job, PhaseCache(final, rows)));
      } else {
        s' := s.(worker := Trending(job, PhaseLoad(final)));
      }
    case PhaseCache(final, rows) =>
      assert StoredCache(s.cache, s.cache, job.key, rows);
      s' := s.(worker := Trending(job, next));
  }

  lemma FetchGoes(s: State, job: Job, at: FetchAt) returns (s': State)
    requires s.history != []
    ensures FetchStep(s, s', job, at) && (at.Source? ==> s'.worker.Fetching? && s'.worker.fetch.ResultToken?)
  {
    hide FetchStep;
    if Publishes(at) {
      s' := PublishingGoes(s, job, at);
    } else if Early(at) {
      s' := EarlyGoes(s, job, at);
    } else {
      s' := LateGoes(s, job, at);
    }
  }

  lemma OrdinaryIsWorkerStep(s: State, s': State)
    requires s.history != [] && OrdinaryStep(s, s')
    ensures WorkerStep(s, s')
  {
    hide FetchStep, TrendStep, TakeStep;
  }

  /** Until the request is settled the worker has a step to take that is neither an exception nor a report. */
  lemma WorkerCanStep(s: State) returns (s': State)
    requires Unsettled(s)
    ensures OrdinaryStep(s, s') && !Reports(s, s')
  {
    assert InHand(s) && (s.worker.Trending? ==> s.worker.job.TrendJob?);
    hide Inv, FetchStep, TrendStep;
    match s.worker {
      case WaitingForJob =>
        var job := s.pending.value;
        s' := s.(pending := None, worker := if job.FetchJob? then Fetching(job, Source) else Trending(job, Enriching));
      case JobDone => s' := s.(worker := WaitingForJob, busy := s.busy && s.pending.Some?);
      case Fetching(job, at) => s' := FetchGoes(s, job, at);
      case Trending(job, at) =>
        if at.PhaseLoad? || at.PhaseCheck? || at.PhaseCas? || at.PhaseCache? {
          s' := PhaseGoes(s, job, at);
        } else {
          s' := TrendGoes(s, job, at);
        }
    }
  }

  // ---------------------------------------------------------------- runs of the worker alone

  ghost predicate WorkerLinked(run: seq<State>, i: nat)
    requires i + 1 < |run|
  {
    run[i].history != [] && WorkerStep(run[i], run[i + 1])
  }

  ghost predicate IsWorkerRun(run: seq<State>) {
    run != [] && forall i :: 0 <= i < |run| - 1 ==> WorkerLinked(run, i)
  }

  function ReportCount(run: seq<State>): nat {
    if |run| < 2 then 0
    else ReportCount(run[..|run| - 1]) + if Reports(run[|run| - 2], run[|run| - 1]) then 1 else 0
  }

  lemma {:induction false} UnsettledRunIsShort(run: seq<State>)
    requires IsWorkerRun(run) && Unsettled(run[0]) && forall i :: 0 <= i < |run| ==> !Settled(run[i])
    ensures Unsettled(run[|run| - 1])
    ensures |run| - 1 + Rank(run[|run| - 1]) <= Rank(run[0]) + (MAX_RANK + 1) * ReportCount(run)
  {
    hide Inv, WorkerStep, Rank, Reports;
    var n := |run| - 1;
    if n > 0 {
      var before := run[..n];
      assert forall i :: 0 <= i < n - 1 ==> WorkerLinked(run, i) ==> WorkerLinked(before, i);
      UnsettledRunIsShort(before);
      assert WorkerLinked(run, n - 1);
      WorkerNears(run[n - 1], run[n]);
      assert !Settled(run[n]);
      RankIsBounded(run[n]);
      assert ReportCount(run) == ReportCount(before) + if Reports(run[n - 1], run[n]) then 1 else 0;
    }
  }

  /** The worker has a step to take that is neither an exception nor a report. */
  ghost predicate CanGoOn(s: State)
    requires s.history != []
  {
    exists next :: OrdinaryStep(s, next) && !Reports(s, next)
  }

  /** A worker-only run settles the request on its way, or it is still short and can go on: it has at most
      Rank(run[0]) steps and MAX_RANK + 1 more for each progress report, and the worker has a further
      ordinary step. So with finitely many reports the request is settled. */
  lemma {:induction false} WorkerRunSettles(run: seq<State>)
    requires IsWorkerRun(run) && Unsettled(run[0])
    ensures || (exists i :: 0 <= i < |run| && Settled(run[i]))
            || (Unsettled(run[|run| - 1])
                && |run| - 1 + Rank(run[|run| - 1]) <= Rank(run[0]) + (MAX_RANK + 1) * ReportCount(run)
                && CanGoOn(run[|run| - 1]))
  {
    hide Inv, Rank, ReportCount, Settled, WorkerLinked, OrdinaryStep, Reports;
    if forall i :: 0 <= i < |run| ==> !Settled(run[i]) {
      UnsettledRunIsShort(run);
      var next := WorkerCanStep(run[|run| - 1]);
    }
  }

  ghost predicate OrdinaryLinked(run: seq<State>, i: nat)
    requires i + 1 < |run|
  {
    run[i].history != [] && OrdinaryStep(run[i], run[i + 1]) && !Reports(run[i], run[i + 1])
  }

  /** Left alone, the worker brings a loading snapshot to Ready or Failed by ordinary steps alone. */
  lemma {:induction false} LoadingCanSettle(s: State) returns (rest: seq<State>)
    requires Unsettled(s)
    ensures rest != [] && rest[0] == s && |rest| - 1 <= Rank(s) + 1
    ensures forall k :: 0 <= k < |rest| - 1 ==> OrdinaryLinked(rest, k)
    ensures Settled(rest[|rest| - 1])
    decreases Rank(s)
  {
    hide Inv, WorkerStep, OrdinaryStep, Reports, Rank;
    var s' := WorkerCanStep(s);
    OrdinaryIsWorkerStep(s, s');
    WorkerNears(s, s');
    if Settled(s') {
      rest := [s, s'];
      assert OrdinaryLinked(rest, 0);
    } else {
      var tail := LoadingCanSettle(s');
      rest := [s] + tail;
      forall k | 0 <= k < |rest| - 1
        ensures OrdinaryLinked(rest, k)
      {
        assert k > 0 ==> OrdinaryLinked(tail, k - 1);
      }
    }
  }
}
