/** What the screener protocol keeps over whole runs. */
module ScreenerRuns {
  import opened Options
  import opened ScreenerProtocol
  import opened ScreenerInvariant
  import Executor = ScreenerExecutor

  ghost predicate IsRun(run: seq<State>) {
    run != [] && Init(run[0]) && forall i :: 0 <= i < |run| - 1 ==> Linked(run, i)
  }

  ghost predicate Linked(run: seq<State>, i: nat)
    requires i + 1 < |run|
  {
    run[i].history != [] && Step(run[i], run[i + 1])
  }

  lemma {:induction false} RunKeepsInv(run: seq<State>, i: nat)
    requires IsRun(run) && i < |run|
    ensures Inv(run[i])
    decreases i
  {
    hide Inv, Step, Init;
    if i == 0 {
      InitInv(run[0]);
    } else {
      RunKeepsInv(run, i - 1);
      assert Linked(run, i - 1);
      StepKeepsInv(run[i - 1], run[i]);
    }
  }

  /** Loading never gets stuck: while the program is not ending, a loading snapshot has its fetch pending
      or running, or the UI thread is submitting it or replacing it. */
  lemma LoadingIsInHand(run: seq<State>, i: nat)
    requires IsRun(run) && i < |run| && !run[i].quit && !run[i].stopping
    ensures run[i].history != []
    ensures IsLoading(run[i].Current().load) ==> InHand(run[i])
    ensures IsLoading(run[i].Current().load) && run[i].ui == UiIdle ==>
              FetchPending(run[i], run[i].Current().gen) || FetchRunning(run[i], run[i].Current().gen)
    ensures !run[i].busy && run[i].ui == UiIdle ==> !IsLoading(run[i].Current().load)
  {
    RunKeepsInv(run, i);
    hide Step, Init, GoodHistory, GoodWorker, GoodCache, GoodUi, GoodGenerations;
  }

  /** The pending fetch of the displayed generation is displaced by no job, trend or fetch: it stays
      until the worker takes it, or until the executor is stopped. */
  lemma PendingFetchIsKept(run: seq<State>, i: nat)
    requires IsRun(run) && i + 1 < |run| && run[i].history != []
    requires FetchPending(run[i], run[i].Current().gen)
    ensures || run[i + 1].pending == run[i].pending
            || FetchRunning(run[i + 1], run[i].Current().gen)
            || run[i + 1].stopping
  {
    RunKeepsInv(run, i);
    var s, s' := run[i], run[i + 1];
    assert Linked(run, i);
    assert !s.ui.StartingTrend? && !(s.ui.Starting? && s.ui.start.SSubmit?);
    hide Inv, Init, UiStep, WorkerStep;
    if UiStep(s, s') {
      UiFrame(s, s');
    } else if WorkerStep(s, s') {
      WorkerFrame(s, s');
    }
  }

  /** The publish loop changes the history alone, and only by adding to it. */
  predicate OnlyHistory(s: State, t: State) {
    t == s.(history := t.history) && s.history <= t.history
  }

  lemma PublishFrame(s: State, t: State, p: Publish, gen: nat, id: Id, author: Author, r: Progress<Publish>)
    requires s.history != [] && PublishStep(s, t, p, gen, id, author, r)
    ensures OnlyHistory(s, t)
  {
  }

  lemma FinishFrame(s: State, t: State, f: Finish, gen: nat, id: Id, author: Author, r: Progress<Finish>)
    requires s.history != [] && FinishStep(s, t, f, gen, id, author, r)
    ensures OnlyHistory(s, t)
  {
    hide PublishStep;
    match f
    case FPublish(p) =>
      var q :| PublishStep(s, t, p, gen, id, author, q)
               && r == (if q.Going? then Going(FPublish(q.next)) else Done(q.ok));
      PublishFrame(s, t, p, gen, id, author, q);
    case _ =>
  }

  /** What the UI thread does to the executor and to the published snapshots. */
  lemma UiFrame(s: State, s': State)
    requires s.history != [] && UiStep(s, s')
    ensures s.history <= s'.history
    ensures s'.pending == s.pending || (s.ui.Starting? && s.ui.start.SSubmit?) || s.ui.StartingTrend?
    ensures s'.stopping == s.stopping && s'.worker == s.worker
  {
    hide StartStep, BeginStart, BeginTrend, TrendStartStep;
    match s.ui
    case Starting(id, key, empty, gen, at) =>
      if at.SEmptyPublish? || at.SFail? {
        SettleFrame(s, s', id, key, empty, gen, at);
      } else if at.SPublish? {
        StartPublishFrame(s, s', id, key, empty, gen, at);
      } else {
        StartFrame(s, s', id, key, empty, gen, at);
      }
    case StartingTrend(job, at) => TrendStartFrame(s, s', job, at);
    case UiIdle => IdleFrame(s, s');
    case Resetting(_, at) =>
      if !at.RPublish? {
        assert s'.history == s.history;
      }
  }

  lemma IdleFrame(s: State, s': State)
    requires s.history != [] && s.ui == UiIdle && UiStep(s, s')
    ensures s.history == s'.history && s'.pending == s.pending && s'.cache == s.cache
    ensures s'.stopping == s.stopping && s'.worker == s.worker
  {
    hide BuildScreenerCacheKey, StartStep, TrendStartStep, ResetStep;
  }

  lemma TrendStartFrame(s: State, s': State, job: Job, at: TrendStartAt)
    requires TrendStartStep(s, s', job, at)
    ensures s.history == s'.history && s'.cache == s.cache
    ensures s'.stopping == s.stopping && s'.worker == s.worker
  {
  }

  lemma StartFrame(s: State, s': State, id: Id, key: string, empty: bool, gen: nat, at: StartAt)
    requires s.history != [] && StartStep(s, s', id, key, empty, gen, at)
    requires !at.SEmptyPublish? && !at.SFail? && !at.SPublish?
    ensures s.history == s'.history
    ensures if at.SCacheStore? then StoredCache(s.cache, s'.cache, key, at.rows) else s'.cache == s.cache
    ensures s'.pending == s.pending || at.SSubmit?
    ensures s'.stopping == s.stopping && s'.worker == s.worker
  {
    hide StartStep;
    if at.SCacheStore? || at.SCacheLookup? || at.SPersistent? || at.SDisplay? {
      DisplayFrame(s, s', id, key, empty, gen, at);
    } else if at.SSubmit? {
      SubmitFrame(s, s', id, key, empty, gen, at);
    } else {
      RequestFrame(s, s', id, key, empty, gen, at);
    }
  }

  lemma SubmitFrame(s: State, s': State, id: Id, key: string, empty: bool, gen: nat, at: StartAt)
    requires s.history != [] && StartStep(s, s', id, key, empty, gen, at) && at.SSubmit?
    ensures s.history == s'.history && s'.cache == s.cache && s'.stopping == s.stopping && s'.worker == s.worker
  {
    hide StoredCache, KeyOwner, PublishStep, FinishStep;
    if s.stopping {
      assert s' == s.(ui := Starting(id, key, empty, gen, SFail(FLoad)));
    } else {
      assert s' == s.(pending := Some(FetchJob(gen, id, key)), busy := true, ui := UiIdle);
    }
  }

  lemma RequestFrame(s: State, s': State, id: Id, key: string, empty: bool, gen: nat, at: StartAt)
    requires s.history != [] && StartStep(s, s', id, key, empty, gen, at)
    requires || at.SLoad? || at.SGeneration? || at.SExchange? || at.SCancel? || at.STrendExchange? || at.STrendCancel?
             || at.SDecide?
    ensures s.history == s'.history && s'.pending == s.pending && s'.cache == s.cache
    ensures s'.stopping == s.stopping && s'.worker == s.worker
  {
    hide StoredCache, KeyOwner, PublishStep, FinishStep, Cancel;
    match at
    case SLoad => assert s' == s.(ui := s'.ui);
    case SGeneration(_) => assert s' == s.(nextGeneration := s'.nextGeneration, genId := s'.genId, ui := s'.ui);
    case SExchange(_) => assert s' == s.(requestSlot := s'.requestSlot, ui := s'.ui);
    case SCancel(_, _) => assert s' == s.(requestCancelled := s'.requestCancelled, ui := s'.ui);
    case STrendExchange(_) => assert s' == s.(trendSlot := s'.trendSlot, ui := s'.ui);
    case STrendCancel(_, _) => assert s' == s.(trendCancelled := s'.trendCancelled, ui := s'.ui);
    case SDecide => assert s' == s.(ui := s'.ui);
  }

  lemma DisplayFrame(s: State, s': State, id: Id, key: string, empty: bool, gen: nat, at: StartAt)
    requires s.history != [] && StartStep(s, s', id, key, empty, gen, at)
    requires at.SCacheStore? || at.SCacheLookup? || at.SPersistent? || at.SDisplay?
    ensures OnlyUiAndCache(s, s') && s'.ui.Starting? && s'.ui.gen == gen
    ensures if at.SCacheStore? then StoredCache(s.cache, s'.cache, key, at.rows) else s'.cache == s.cache
    ensures s'.ui.start.SPublish? || s'.ui.start.SCacheLookup? || s'.ui.start.SPersistent? || s'.ui.start.SCacheStore?
  {
    hide StartStep;
    if at.SCacheStore? {
      StoreLeads(s, s', id, key, empty, gen, at);
    } else if at.SCacheLookup? {
      LookupLeads(s, s', id, key, empty, gen, at);
    } else if at.SPersistent? {
      PersistentLeads(s, s', id, key, empty, gen, at);
    } else {
      DisplayLeads(s, s', id, key, empty, gen, at);
    }
  }

  lemma StartPublishFrame(s: State, s': State, id: Id, key: string, empty: bool, gen: nat, at: StartAt)
    requires s.history != [] && StartStep(s, s', id, key, empty, gen, at) && at.SPublish?
    ensures s.history <= s'.history && s'.pending == s.pending && s'.cache == s.cache
    ensures s'.stopping == s.stopping && s'.worker == s.worker
  {
  }

  lemma SettleFrame(s: State, s': State, id: Id, key: string, empty: bool, gen: nat, at: StartAt)
    requires s.history != [] && StartStep(s, s', id, key, empty, gen, at) && (at.SEmptyPublish? || at.SFail?)
    ensures s.history <= s'.history && s'.pending == s.pending && s'.cache == s.cache
    ensures s'.stopping == s.stopping && s'.worker == s.worker
  {
    hide PublishStep, FinishStep;
    if at.SEmptyPublish? {
      var t, r :| PublishStep(s, t, at.publish, gen, id, Ui, r)
                  && s' == t.(ui := if r.Going? then Starting(id, key, empty, gen, SEmptyPublish(r.next)) else UiIdle);
      PublishFrame(s, t, at.publish, gen, id, Ui, r);
    } else {
      var t, r :| FinishStep(s, t, at.finish, gen, id, Ui, r)
                  && s' == t.(ui := if r.Going? then Starting(id, key, empty, gen, SFail(r.next)) else UiIdle);
      FinishFrame(s, t, at.finish, gen, id, Ui, r);
    }
  }

  /** A step of a job leaves the request tokens, the UI thread and the flags alone, and ends the job or keeps it. */
  predicate WorkerOnly(s: State, s': State, job: Job) {
    && s'.requestSlot == s.requestSlot && s'.requestCancelled == s.requestCancelled && s'.ui == s.ui
    && s'.quit == s.quit && s'.stopping == s.stopping && s'.nextTrend == s.nextTrend
    && s'.nextGeneration == s.nextGeneration && (s.trendSlot == None ==> s'.trendSlot == None)
    && (s'.worker == JobDone || ((s'.worker.Fetching? || s'.worker.Trending?) && s'.worker.job == job))
  }

  predicate KeepsTrends(s: State, s': State) {
    s'.trendSlot == s.trendSlot && s'.trendCancelled == s.trendCancelled
  }

  /** What the worker does to them. */
  lemma WorkerFrame(s: State, s': State)
    requires s.history != [] && WorkerStep(s, s')
    ensures s.history <= s'.history
    ensures s'.pending != s.pending && s.pending.Some? && s.pending.value.FetchJob? ==>
              s'.stopping || s'.worker == Fetching(s.pending.value, Source)
    ensures s'.stopping == s.stopping && (s'.worker.Stopped? ==> s.stopping)
  {
    hide FetchStep, TrendStep;
    match s.worker
    case Fetching(job, at) =>
      if FetchStep(s, s', job, at) {
        if at.ProgressPublish? || at.FinalPublish? || at.Failing? {
          FetchPublishFrame(s, s', job, at);
        } else {
          FetchFrame(s, s', job, at);
        }
      }
    case Trending(job, at) =>
      if TrendStep(s, s', job, at) {
        if at.PhaseCas? {
          PhaseCasFrame(s, s', job, at);
        } else {
          TrendFrame(s, s', job, at);
        }
      }
    case _ =>
  }

  /** A fetch that begins to publish or to fail has looked at nothing yet. */
  predicate BeginsAfresh(at: FetchAt) {
    && (at.Failing? ==> at.finish == FLoad)
    && (at.ProgressPublish? || at.FinalPublish? ==> at.publish.at == PLoad)
  }

  lemma FetchFrame(s: State, s': State, job: Job, at: FetchAt)
    requires s.history != [] && FetchStep(s, s', job, at)
    requires !at.ProgressPublish? && !at.FinalPublish? && !at.Failing?
    ensures s.history == s'.history && s'.pending == s.pending
    ensures if at.StoreRows? then StoredCache(s.cache, s'.cache, job.key, at.rows) else s'.cache == s.cache
    ensures WorkerOnly(s, s', job)
    ensures s'.worker.Fetching? ==> BeginsAfresh(s'.worker.fetch)
    ensures !at.TrendExchange? && !at.TrendCancel? ==> KeepsTrends(s, s')
    ensures !s'.worker.Trending?
  {
    hide FetchStep;
    if at.StoreRows? {
      StoreRowsFrame(s, s', job, at);
    } else if at.Source? || at.ProgressToken? || at.ProgressQuit? {
      ProgressFrame(s, s', job, at);
    } else if at.ProgressLoad? {
      ProgressLoadFrame(s, s', job, at);
    } else if at.MergeLoad? {
      MergeFrame(s, s', job, at);
    } else if at.TrendExchange? || at.TrendCancel? {
      TrendCancelFrame(s, s', job, at);
    } else {
      ResultFrame(s, s', job, at);
    }
  }

  lemma ProgressFrame(s: State, s': State, job: Job, at: FetchAt)
    requires s.history != [] && FetchStep(s, s', job, at) && (at.Source? || at.ProgressToken? || at.ProgressQuit?)
    ensures s.history == s'.history && s'.pending == s.pending && s'.cache == s.cache
    ensures WorkerOnly(s, s', job)
    ensures s'.worker.Fetching? ==> BeginsAfresh(s'.worker.fetch)
    ensures KeepsTrends(s, s')
    ensures !s'.worker.Trending?
  {
    hide StoredCache, PublishStep, FinishStep;
    match at
    case Source =>
      assert s' == s.(worker := s'.worker) && s'.worker.Fetching?;
    case ProgressToken(rows) =>
      var next := if job.gen in s.requestCancelled then Source else ProgressQuit(rows);
      assert s' == s.(worker := Fetching(job, next));
    case ProgressQuit(rows) =>
      var next := if s.quit then Source else ProgressLoad(rows);
      assert s' == s.(worker := Fetching(job, next));
  }

  lemma ProgressLoadFrame(s: State, s': State, job: Job, at: FetchAt)
    requires s.history != [] && FetchStep(s, s', job, at) && at.ProgressLoad?
    ensures s.history == s'.history && s'.pending == s.pending && s'.cache == s.cache
    ensures WorkerOnly(s, s', job)
    ensures s'.worker.Fetching? ==> BeginsAfresh(s'.worker.fetch)
    ensures KeepsTrends(s, s')
    ensures !s'.worker.Trending?
  {
    hide StoredCache, PublishStep, FinishStep;
    var shown := s.Current();
    if shown.gen != job.gen || shown.id != job.id {
      assert s' == s.(worker := Fetching(job, Source));
    } else if shown.items.Some? {
      var p := Publish(Refreshing, Some(at.rows.FilledFrom(shown.items.value)), PLoad);
      assert s' == s.(worker := Fetching(job, ProgressPublish(p)));
    } else {
      var p := Publish(Refreshing, Some(at.rows), PLoad);
      assert s' == s.(worker := Fetching(job, Source)) || s' == s.(worker := Fetching(job, ProgressPublish(p)));
    }
  }

  lemma TrendCancelFrame(s: State, s': State, job: Job, at: FetchAt)
    requires s.history != [] && FetchStep(s, s', job, at) && (at.TrendExchange? || at.TrendCancel?)
    ensures s.history == s'.history && s'.pending == s.pending && s'.cache == s.cache
    ensures WorkerOnly(s, s', job)
    ensures s'.worker.Fetching? ==> BeginsAfresh(s'.worker.fetch)
    ensures !s'.worker.Trending?
  {
    hide StoredCache, PublishStep, FinishStep, Cancel;
    if at.TrendExchange? {
      assert s' == s.(trendSlot := None, worker := Fetching(job, TrendCancel(at.rows, s.trendSlot)));
    } else {
      assert s' == s.(trendCancelled := s'.trendCancelled, worker := Fetching(job, MergeLoad(at.rows)));
    }
  }

  lemma ResultFrame(s: State, s': State, job: Job, at: FetchAt)
    requires s.history != [] && FetchStep(s, s', job, at)
    requires at.ResultToken? || at.ResultQuit? || at.StoreToken? || at.StoreQuit?
    ensures s.history == s'.history && s'.pending == s.pending && s'.cache == s.cache
    ensures WorkerOnly(s, s', job)
    ensures s'.worker.Fetching? ==> BeginsAfresh(s'.worker.fetch)
    ensures KeepsTrends(s, s')
    ensures !s'.worker.Trending?
  {
    hide StoredCache, PublishStep, FinishStep;
    var cancelled := job.gen in s.requestCancelled;
    match at
    case ResultToken(result) =>
      assert s' == s.(worker := if cancelled then JobDone else Fetching(job, ResultQuit(result)));
    case ResultQuit(result) =>
      var next := if result.None? then Failing(FLoad) else TrendExchange(result.value);
      assert s' == s.(worker := if s.quit then JobDone else Fetching(job, next));
    case StoreToken(rows) =>
      assert s' == s.(worker := if cancelled then JobDone else Fetching(job, StoreQuit(rows)));
    case StoreQuit(rows) =>
      assert s' == s.(worker := if s.quit then JobDone else Fetching(job, StoreRows(rows)));
  }

  lemma MergeFrame(s: State, s': State, job: Job, at: FetchAt)
    requires s.history != [] && FetchStep(s, s', job, at) && at.MergeLoad?
    ensures s.history == s'.history && s'.pending == s.pending && s'.cache == s.cache
    ensures WorkerOnly(s, s', job)
    ensures s'.worker.Fetching? ==> BeginsAfresh(s'.worker.fetch)
    ensures KeepsTrends(s, s')
    ensures !s'.worker.Trending?
  {
    hide StoredCache, PublishStep, FinishStep;
    var shown := s.Current();
    var merged := if shown.gen == job.gen && shown.id == job.id && shown.items.Some?
                  then at.rows.FilledFrom(shown.items.value) else at.rows;
    assert s' == s.(worker := Fetching(job, StoreToken(merged)));
  }

  lemma StoreRowsFrame(s: State, s': State, job: Job, at: FetchAt)
    requires s.history != [] && FetchStep(s, s', job, at) && at.StoreRows?
    ensures s.history == s'.history && s'.pending == s.pending
    ensures StoredCache(s.cache, s'.cache, job.key, at.rows)
    ensures WorkerOnly(s, s', job)
    ensures s'.worker.Fetching? ==> BeginsAfresh(s'.worker.fetch)
    ensures KeepsTrends(s, s')
    ensures !s'.worker.Trending?
  {
    hide StoredCache, PublishStep, FinishStep;
    var cache :| StoredCache(s.cache, cache, job.key, at.rows)
                 && s' == s.(cache := cache,
                             worker := Fetching(job, FinalPublish(Publish(Ready, Some(at.rows), PLoad))));
  }

  lemma FetchPublishFrame(s: State, s': State, job: Job, at: FetchAt)
    requires s.history != [] && FetchStep(s, s', job, at)
    requires at.ProgressPublish? || at.FinalPublish? || at.Failing?
    ensures s.history <= s'.history && s'.pending == s.pending && s'.cache == s.cache
    ensures WorkerOnly(s, s', job)
    ensures KeepsTrends(s, s')
    ensures !s'.worker.Trending?
  {
    hide StoredCache, PublishStep, FinishStep;
    if at.ProgressPublish? {
      var t, r :| PublishStep(s, t, at.publish, job.gen, job.id, Worker, r)
                  && s' == t.(worker := Fetching(job, if r.Going? then ProgressPublish(r.next) else Source));
      PublishFrame(s, t, at.publish, job.gen, job.id, Worker, r);
    } else if at.FinalPublish? {
      var t, r :| PublishStep(s, t, at.publish, job.gen, job.id, Worker, r)
                  && s' == t.(worker := if r.Going? then Fetching(job, FinalPublish(r.next)) else JobDone);
      PublishFrame(s, t, at.publish, job.gen, job.id, Worker, r);
    } else {
      var t, r :| FinishStep(s, t, at.finish, job.gen, job.id, Worker, r)
                  && s' == t.(worker := if r.Going? then Fetching(job, Failing(r.next)) else JobDone);
      FinishFrame(s, t, at.finish, job.gen, job.id, Worker, r);
    }
  }

  /** A trend job that has not given its token back. */
  predicate GoesOn(worker: WorkerPc) {
    worker.Trending? && !worker.trend.RetireMark?
  }

  /** The staleness tests before a phase publishes are begun at the first. */
  predicate StartsChecks(at: TrendAt) {
    !at.PhaseCas? && (at.PhaseCheck? ==> at.k == 0)
  }

  lemma TrendFrame(s: State, s': State, job: Job, at: TrendAt)
    requires s.history != [] && TrendStep(s, s', job, at) && !at.PhaseCas?
    ensures s.history == s'.history && s'.pending == s.pending
    ensures if at.PhaseCache? then StoredCache(s.cache, s'.cache, job.key, at.rows) else s'.cache == s.cache
    ensures WorkerOnly(s, s', job) && !s'.worker.Fetching?
    ensures !at.Retire? && !at.RetireMark? ==> KeepsTrends(s, s') && GoesOn(s'.worker)
    ensures !at.PhaseCheck? && s'.worker.Trending? ==> StartsChecks(s'.worker.trend)
  {
    hide TrendStep;
    if at.PhaseLoad? || at.PhaseCheck? || at.PhaseCache? {
      PhaseFrame(s, s', job, at);
    } else {
      RetireFrame(s, s', job, at);
    }
  }

  lemma PhaseFrame(s: State, s': State, job: Job, at: TrendAt)
    requires s.history != [] && TrendStep(s, s', job, at) && (at.PhaseLoad? || at.PhaseCheck? || at.PhaseCache?)
    ensures s.history == s'.history && s'.pending == s.pending
    ensures if at.PhaseCache? then StoredCache(s.cache, s'.cache, job.key, at.rows) else s'.cache == s.cache
    ensures WorkerOnly(s, s', job) && !s'.worker.Fetching?
    ensures KeepsTrends(s, s') && GoesOn(s'.worker)
    ensures !at.PhaseCheck? && s'.worker.Trending? ==> StartsChecks(s'.worker.trend)
  {
    hide StoredCache, Stale;
    var next := if at.final then Retire else Enriching;
    match at
    case PhaseLoad(final) =>
      assert || s' == s.(worker := Trending(job, next))
             || s' == s.(worker := Trending(job, PhaseCheck(final, s.Last(), 0)));
    case PhaseCheck(final, cur, k) =>
      if s' != s.(worker := Trending(job, next)) {
        assert s' == s.(worker := Trending(job, if k < 3 then PhaseCheck(final, cur, k + 1) else PhaseCas(final, cur)));
      }
    case PhaseCache(_, _) => assert s' == s.(cache := s'.cache, worker := Trending(job, next));
  }

  lemma RetireFrame(s: State, s': State, job: Job, at: TrendAt)
    requires s.history != [] && TrendStep(s, s', job, at)
    requires at.Enriching? || at.EndCheck? || at.Retire? || at.RetireMark?
    ensures s.history == s'.history && s'.pending == s.pending && s'.cache == s.cache
    ensures WorkerOnly(s, s', job) && !s'.worker.Fetching?
    ensures !at.Retire? && !at.RetireMark? ==> KeepsTrends(s, s') && GoesOn(s'.worker)
    ensures !at.PhaseCheck? && s'.worker.Trending? ==> StartsChecks(s'.worker.trend)
  {
    hide StoredCache, Stale;
    match at
    case Enriching => assert s' == s.(worker := s'.worker);
    case EndCheck(_) => assert s' == s.(worker := s'.worker);
    case Retire => assert s' == s.(trendSlot := s'.trendSlot, worker := s'.worker);
    case RetireMark => assert s' == s.(trendCancelled := s'.trendCancelled, worker := s'.worker);
  }

  lemma PhaseCasFrame(s: State, s': State, job: Job, at: TrendAt)
    requires s.history != [] && TrendStep(s, s', job, at) && at.PhaseCas?
    ensures s.history <= s'.history && s'.pending == s.pending && s'.cache == s.cache
    ensures WorkerOnly(s, s', job) && !s'.worker.Fetching?
    ensures KeepsTrends(s, s') && GoesOn(s'.worker)
  {
  }

  /** The worker leaves only when the executor is stopping. */
  lemma {:induction false} WorkerLeavesOnStop(run: seq<State>, i: nat)
    requires IsRun(run) && i < |run|
    ensures run[i].worker.Stopped? ==> run[i].stopping
    decreases i
  {
    hide UiStep, WorkerStep;
    if i > 0 {
      WorkerLeavesOnStop(run, i - 1);
      assert Linked(run, i - 1);
      if UiStep(run[i - 1], run[i]) {
        UiFrame(run[i - 1], run[i]);
      } else if WorkerStep(run[i - 1], run[i]) {
        WorkerFrame(run[i - 1], run[i]);
      }
    }
  }

  /** Every step leaves the published snapshots in place. */
  lemma StepExtendsHistory(s: State, s': State)
    requires s.history != [] && Step(s, s')
    ensures s.history <= s'.history
  {
    hide UiStep, WorkerStep;
    if UiStep(s, s') {
      UiFrame(s, s');
    } else if WorkerStep(s, s') {
      WorkerFrame(s, s');
    }
  }

  lemma {:induction false} RunExtendsHistory(run: seq<State>, i: nat, j: nat)
    requires IsRun(run) && i <= j < |run|
    ensures run[i].history != [] && run[i].history <= run[j].history
    decreases j
  {
    hide Inv, Step, Init;
    RunKeepsInv(run, i);
    WorkerFacts(run[i]);
    if i < j {
      RunExtendsHistory(run, i, j - 1);
      assert Linked(run, j - 1);
      StepExtendsHistory(run[j - 1], run[j]);
    }
  }

  /** The displayed generation never goes back. */
  lemma GenerationNeverDecreases(run: seq<State>, i: nat, j: nat)
    requires IsRun(run) && i <= j < |run|
    ensures run[i].history != [] && run[j].history != []
    ensures run[i].Current().gen <= run[j].Current().gen
  {
    RunExtendsHistory(run, i, j);
    RunKeepsInv(run, j);
    hide Step, Init, GoodWorker, GoodCache, GoodUi, GoodGenerations, GoodLoading;
    assert run[i].Current() == run[j].history[|run[i].history| - 1].snap;
  }

  /** Of every snapshot ever shown in a run: the worker kept the generation and the screener of the
      snapshot it replaced, and the rows were fetched or cached for the screener they are shown under. */
  lemma SnapshotsAreFaithful(run: seq<State>, i: nat, k: nat)
    requires IsRun(run) && i < |run| && k < |run[i].history|
    ensures var e := run[i].history[k];
            && (e.author == Worker ==> k > 0 && e.snap.gen == run[i].history[k - 1].snap.gen
                                       && e.snap.id == run[i].history[k - 1].snap.id)
            && (e.snap.items.Some? ==> e.snap.items.value.owners <= {e.snap.id})
  {
    RunKeepsInv(run, i);
    FirstByUi(run, i);
    hide Step, Init, GoodWorker, GoodCache, GoodUi, GoodGenerations, GoodLoading;
    assert From(run[i].history[k].snap.items, run[i].history[k].snap.id);
  }

  lemma FirstByUi(run: seq<State>, i: nat)
    requires IsRun(run) && i < |run|
    ensures run[i].history != [] && run[i].history[0].author == Ui
  {
    RunExtendsHistory(run, 0, i);
    hide Step;
  }

  // ---------------------------------------------------------------- the executor

  /** The executor's part of the protocol's state. */
  function SlotOf(s: State): Executor.Slot<Job> {
    Executor.Slot(s.pending, s.stopping, s.busy)
  }

  /** The protocol's submissions are the executor's, refused only while it is stopping. */
  lemma SubmissionsAreSlotSteps(s: State, s': State)
    requires s.history != [] && UiStep(s, s')
    ensures s.ui.Starting? && s.ui.start.SSubmit? ==>
              SlotOf(s') == SlotOf(s).Submit(FetchJob(s.ui.gen, s.ui.id, s.ui.key))
    ensures s.ui.StartingTrend? && s.ui.trendStart.TSubmit? ==> SlotOf(s') == SlotOf(s).Submit(s.ui.job)
  {
    hide BeginStart, BeginTrend, ResetStep;
  }

  /** So are the worker's waking and the end of its job, and the stop. */
  lemma WorkerUsesSlot(s: State, s': State)
    requires s.history != []
    ensures s.worker.WaitingForJob? && WorkerStep(s, s') ==>
              SlotOf(s).MayWake() && SlotOf(s') == SlotOf(s).Take()
    ensures s.worker.JobDone? && WorkerStep(s, s') ==> SlotOf(s') == SlotOf(s).Finish()
    ensures EnvironmentStep(s, s') ==> SlotOf(s') == SlotOf(s) || SlotOf(s') == SlotOf(s).Stop()
  {
    hide FetchStep, TrendStep;
  }
}
