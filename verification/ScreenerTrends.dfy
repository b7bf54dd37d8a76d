/** Trend tokens: every trend job that has been displaced is cancelled, and a cancelled one publishes nothing more. */
module ScreenerTrends {
  import opened Options
  import opened ScreenerProtocol
  import opened ScreenerInvariant
  import opened ScreenerRuns
  import opened ScreenerRows
  import opened ScreenerTokens

  // ---------------------------------------------------------------- where a trend token is

  /** A thread has taken the token out of the slot and is about to cancel it. */
  predicate InHands(s: State, token: nat) {
    || (s.ui.Starting? && s.ui.start.STrendCancel? && s.ui.start.previous == Some(token))
    || (s.ui.Resetting? && s.ui.reset.RTrendCancel? && s.ui.reset.trend == Some(token))
    || (s.ui.StartingTrend? && s.ui.trendStart.TCancel? && s.ui.trendStart.previous == Some(token))
    || (s.ui.StartingTrend? && s.ui.job.TrendJob? && s.ui.trendStart.TRetireMark? && s.ui.job.trend == token)
    || (s.worker.Fetching? && s.worker.fetch.TrendCancel? && s.worker.fetch.previous == Some(token))
    || (s.worker.Trending? && s.worker.job.TrendJob? && s.worker.trend.RetireMark? && s.worker.job.trend == token)
  }

  predicate TrendAccounted(s: State, token: nat) {
    s.trendSlot == Some(token) || token in s.trendCancelled || InHands(s, token)
  }

  /** The UI thread has put the job's token into the slot. */
  predicate Slotted(at: TrendStartAt) {
    at.TCancel? || at.TSubmit? || at.TRetire? || at.TRetireMark?
  }

  /** Past the exchange of the trend slot a start finds it empty. */
  predicate Emptied(ui: UiPc) {
    && ui.Starting? && !ui.start.SLoad? && !ui.start.SGeneration? && !ui.start.SExchange? && !ui.start.SCancel?
    && !ui.start.STrendExchange?
  }

  /** A trend job in somebody's hands has the token and has not given it back. */
  predicate Live(s: State, token: nat) {
    || (s.pending.Some? && s.pending.value.TrendJob? && s.pending.value.trend == token)
    || (s.worker.Trending? && s.worker.job.TrendJob? && s.worker.job.trend == token && !s.worker.trend.RetireMark?)
    || (s.ui.StartingTrend? && s.ui.job.TrendJob? && s.ui.job.trend == token && Slotted(s.ui.trendStart)
        && !s.ui.trendStart.TRetireMark?)
  }

  predicate SlotIsLive(s: State) {
    && (s.trendSlot.Some? && !s.stopping ==> Live(s, s.trendSlot.value))
    && (Emptied(s.ui) ==> s.trendSlot == None)
    && (s.ui.StartingTrend? && s.ui.job.TrendJob? && Slotted(s.ui.trendStart) && s.trendSlot.Some? ==>
          s.trendSlot.value == s.ui.job.trend)
  }

  predicate TrendsAccounted(s: State) {
    && SlotIsLive(s)
    && (s.pending.Some? && s.pending.value.TrendJob? ==> TrendAccounted(s, s.pending.value.trend))
    && (s.worker.Trending? && s.worker.job.TrendJob? ==> TrendAccounted(s, s.worker.job.trend))
    && (s.ui.StartingTrend? && s.ui.job.TrendJob? && Slotted(s.ui.trendStart) ==> TrendAccounted(s, s.ui.job.trend))
  }

  // ---------------------------------------------------------------- the UI thread

  /** Steps that touch no trend token and submit none. */
  lemma UnrelatedUi(s: State, s': State)
    requires TrendsAccounted(s) && KeepsTrends(s, s') && s'.worker == s.worker
    requires s'.pending == s.pending || (s'.pending.Some? && s'.pending.value.FetchJob? && Emptied(s.ui))
    requires s'.stopping == s.stopping && (Emptied(s'.ui) ==> Emptied(s.ui))
    requires !(s.ui.Starting? && s.ui.start.STrendCancel?) && !s.ui.StartingTrend? && !s'.ui.StartingTrend?
    requires !(s.ui.Resetting? && s.ui.reset.RTrendCancel?)
    ensures TrendsAccounted(s')
  {
  }

  lemma StartKeepsTrends(s: State, s': State, id: Id, key: string, empty: bool, gen: nat, at: StartAt)
    requires s.history != [] && TrendsAccounted(s)
    requires s.ui == Starting(id, key, empty, gen, at) && StartStep(s, s', id, key, empty, gen, at)
    requires at.SLoad? || at.SGeneration? || at.SExchange? || at.SCancel? || at.STrendExchange? || at.STrendCancel?
    ensures TrendsAccounted(s')
  {
    hide StoredCache, KeyOwner, PublishStep, FinishStep;
    match at
    case STrendExchange(shown) =>
      assert s' == s.(trendSlot := None, ui := Starting(id, key, empty, gen, STrendCancel(shown, s.trendSlot)));
    case STrendCancel(shown, previous) =>
      assert s' == s.(trendCancelled := Cancel(s.trendCancelled, previous),
                      ui := Starting(id, key, empty, gen, SDisplay(shown)));
    case _ =>
      hide TrendsAccounted;
      UnrelatedUi(s, s');
  }

  lemma DisplayKeepsTrends(s: State, s': State, id: Id, key: string, empty: bool, gen: nat, at: StartAt)
    requires s.history != [] && TrendsAccounted(s)
    requires s.ui == Starting(id, key, empty, gen, at) && StartStep(s, s', id, key, empty, gen, at)
    requires at.SDisplay? || at.SCacheLookup? || at.SPersistent? || at.SCacheStore?
    ensures TrendsAccounted(s')
  {
    hide StartStep, TrendsAccounted;
    DisplayFrame(s, s', id, key, empty, gen, at);
    UnrelatedUi(s, s');
  }

  lemma SubmitKeepsTrends(s: State, s': State, id: Id, key: string, empty: bool, gen: nat, at: StartAt)
    requires s.history != [] && TrendsAccounted(s)
    requires s.ui == Starting(id, key, empty, gen, at) && StartStep(s, s', id, key, empty, gen, at)
    requires at.SPublish? || at.SDecide? || at.SSubmit?
    ensures TrendsAccounted(s')
  {
    hide StoredCache, KeyOwner, PublishStep, FinishStep, TrendsAccounted;
    if at.SPublish? {
      assert s' == s.(history := s'.history, ui := Starting(id, key, empty, gen, SDecide));
    } else if at.SDecide? {
      assert s' == s.(ui := s'.ui);
    } else if s.stopping {
      assert s' == s.(ui := Starting(id, key, empty, gen, SFail(FLoad)));
    } else {
      assert s' == s.(pending := Some(FetchJob(gen, id, key)), busy := true, ui := UiIdle);
    }
    UnrelatedUi(s, s');
  }

  lemma SettleKeepsTrends(s: State, s': State, id: Id, key: string, empty: bool, gen: nat, at: StartAt)
    requires s.history != [] && TrendsAccounted(s)
    requires s.ui == Starting(id, key, empty, gen, at) && StartStep(s, s', id, key, empty, gen, at)
    requires at.SEmptyPublish? || at.SFail?
    ensures TrendsAccounted(s')
  {
    hide StartStep, TrendsAccounted, GoodStartAt, Displays;
    SettleMoves(s, s', id, key, empty, gen, at);
    UnrelatedUi(s, s');
  }

  lemma TrendExchangeKeepsTrends(s: State, s': State, job: Job, at: TrendStartAt)
    requires TrendsAccounted(s) && s.ui == StartingTrend(job, at) && TrendStartStep(s, s', job, at)
    requires at.TExchange? || at.TCancel?
    ensures TrendsAccounted(s')
  {
    match at
    case TExchange =>
      assert s' == s.(nextTrend := s.nextTrend + 1, trendSlot := Some(s.nextTrend),
                      ui := StartingTrend(job.(trend := s.nextTrend), TCancel(s.trendSlot)));
    case TCancel(previous) =>
      assert s' == s.(trendCancelled := Cancel(s.trendCancelled, previous), ui := StartingTrend(job, TSubmit));
  }

  lemma TrendRetireKeepsTrends(s: State, s': State, job: Job, at: TrendStartAt)
    requires TrendsAccounted(s) && s.ui == StartingTrend(job, at) && TrendStartStep(s, s', job, at)
    requires at.TRetire? || at.TRetireMark?
    ensures TrendsAccounted(s')
  {
    if at.TRetireMark? {
      assert s' == s.(trendCancelled := s.trendCancelled + {job.trend}, ui := UiIdle);
    } else if s.trendSlot == Some(job.trend) {
      assert s' == s.(trendSlot := None, ui := StartingTrend(job, TRetireMark));
    } else {
      assert s' == s.(ui := UiIdle);
    }
  }

  lemma TrendStartKeepsTrends(s: State, s': State, job: Job, at: TrendStartAt)
    requires TrendsAccounted(s) && s.ui == StartingTrend(job, at) && TrendStartStep(s, s', job, at)
    ensures TrendsAccounted(s')
  {
    if at.TExchange? || at.TCancel? {
      TrendExchangeKeepsTrends(s, s', job, at);
    } else if at.TRetire? || at.TRetireMark? {
      TrendRetireKeepsTrends(s, s', job, at);
    } else if at.TSubmit? && !s.stopping {
      assert s' == s.(pending := Some(job), busy := true, ui := UiIdle);
    } else {
      assert s' == s.(ui := s'.ui);
    }
  }

  lemma ResetKeepsTrends(s: State, s': State, gen: nat, at: ResetAt)
    requires s.history != [] && TrendsAccounted(s) && s.ui == Resetting(gen, at) && ResetStep(s, s', gen, at)
    ensures TrendsAccounted(s')
  {
    match at
    case RTrendExchange => assert s' == s.(trendSlot := None, ui := Resetting(gen, RTrendCancel(s.trendSlot)));
    case RTrendCancel(previous) =>
      assert s' == s.(trendCancelled := Cancel(s.trendCancelled, previous), ui := Resetting(gen, RGeneration));
    case _ =>
      hide TrendsAccounted;
      UnrelatedUi(s, s');
  }

  lemma IdleKeepsTrends(s: State, s': State)
    requires s.history != [] && TrendsAccounted(s) && s.ui == UiIdle && UiStep(s, s')
    ensures TrendsAccounted(s')
  {
    hide BuildScreenerCacheKey, TrendsAccounted;
    if id, watchlist :| BeginStart(s, s', id, watchlist) {
      assert s' == s.(ui := s'.ui) && s'.ui.Starting? && s'.ui.start.SLoad?;
    } else if id, watchlist :| BeginTrend(s, s', id, watchlist) {
      assert s' == s.(ui := s'.ui) && s'.ui.StartingTrend? && s'.ui.trendStart.TReadSlot?;
    }
    BeginKeepsTrends(s, s');
  }

  lemma BeginKeepsTrends(s: State, s': State)
    requires TrendsAccounted(s) && s.ui == UiIdle && s' == s.(ui := s'.ui)
    requires || (s'.ui.Starting? && s'.ui.start.SLoad?) || (s'.ui.StartingTrend? && s'.ui.trendStart.TReadSlot?)
             || s'.ui.Resetting?
    ensures TrendsAccounted(s')
  {
  }

  lemma UiKeepsTrends(s: State, s': State)
    requires s.history != [] && TrendsAccounted(s) && UiStep(s, s')
    ensures TrendsAccounted(s')
  {
    hide StartStep, TrendStartStep, ResetStep, TrendsAccounted;
    match s.ui
    case UiIdle => IdleKeepsTrends(s, s');
    case Starting(id, key, empty, gen, at) =>
      if at.SEmptyPublish? || at.SFail? {
        SettleKeepsTrends(s, s', id, key, empty, gen, at);
      } else if at.SPublish? || at.SDecide? || at.SSubmit? {
        SubmitKeepsTrends(s, s', id, key, empty, gen, at);
      } else if at.SDisplay? || at.SCacheLookup? || at.SPersistent? || at.SCacheStore? {
        DisplayKeepsTrends(s, s', id, key, empty, gen, at);
      } else {
        StartKeepsTrends(s, s', id, key, empty, gen, at);
      }
    case StartingTrend(job, at) => TrendStartKeepsTrends(s, s', job, at);
    case Resetting(gen, at) => ResetKeepsTrends(s, s', gen, at);
  }

  // ---------------------------------------------------------------- the worker

  lemma UnrelatedWorker(s: State, s': State, job: Job)
    requires TrendsAccounted(s) && KeepsTrends(s, s') && WorkerOnly(s, s', job) && s'.pending == s.pending
    requires (s.worker.Fetching? || s.worker.Trending?) && s.worker.job == job
    requires if s.worker.Trending? then GoesOn(s'.worker) else !s'.worker.Trending?
    requires !(s.worker.Fetching? && s.worker.fetch.TrendCancel?)
    requires !(s.worker.Trending? && s.worker.trend.RetireMark?)
    ensures TrendsAccounted(s')
  {
  }

  lemma FetchCancels(s: State, s': State, job: Job, at: FetchAt)
    requires s.history != [] && TrendsAccounted(s) && s.worker == Fetching(job, at) && FetchStep(s, s', job, at)
    requires at.TrendExchange? || at.TrendCancel?
    ensures TrendsAccounted(s')
  {
    hide StoredCache, PublishStep, FinishStep;
    if at.TrendExchange? {
      assert s' == s.(trendSlot := None, worker := Fetching(job, TrendCancel(at.rows, s.trendSlot)));
    } else {
      assert s' == s.(trendCancelled := Cancel(s.trendCancelled, at.previous),
                      worker := Fetching(job, MergeLoad(at.rows)));
    }
  }

  lemma FetchKeepsTrends(s: State, s': State, job: Job, at: FetchAt)
    requires s.history != [] && TrendsAccounted(s) && s.worker == Fetching(job, at) && FetchStep(s, s', job, at)
    ensures TrendsAccounted(s')
  {
    hide FetchStep, TrendsAccounted;
    if at.TrendExchange? || at.TrendCancel? {
      FetchCancels(s, s', job, at);
    } else if at.ProgressPublish? || at.FinalPublish? || at.Failing? {
      FetchPublishFrame(s, s', job, at);
      UnrelatedWorker(s, s', job);
    } else {
      FetchFrame(s, s', job, at);
      UnrelatedWorker(s, s', job);
    }
  }

  lemma Retires(s: State, s': State, job: Job, at: TrendAt)
    requires s.history != [] && TrendsAccounted(s) && s.worker == Trending(job, at) && TrendStep(s, s', job, at)
    requires at.Retire? || at.RetireMark?
    ensures TrendsAccounted(s')
  {
    hide StoredCache, Stale;
    if at.RetireMark? {
      assert s' == s.(trendCancelled := s.trendCancelled + {job.trend}, worker := JobDone);
    } else if s.trendSlot == Some(job.trend) {
      assert s' == s.(trendSlot := None, worker := Trending(job, RetireMark));
    } else {
      assert s' == s.(worker := JobDone);
    }
  }

  lemma TrendKeepsTrends(s: State, s': State, job: Job, at: TrendAt)
    requires s.history != [] && TrendsAccounted(s) && s.worker == Trending(job, at) && TrendStep(s, s', job, at)
    ensures TrendsAccounted(s')
  {
    hide TrendStep, TrendsAccounted;
    if at.Retire? || at.RetireMark? {
      Retires(s, s', job, at);
    } else if at.PhaseCas? {
      PhaseCasFrame(s, s', job, at);
      UnrelatedWorker(s, s', job);
    } else {
      TrendFrame(s, s', job, at);
      UnrelatedWorker(s, s', job);
    }
  }

  lemma OtherWorkerKeepsTrends(s: State, s': State)
    requires s.history != [] && TrendsAccounted(s) && WorkerStep(s, s')
    requires s.worker.Fetching? ==> ThrowStep(s, s', s.worker.job, s.worker.fetch)
    requires s.worker.Trending? ==> TrendThrowStep(s, s', s.worker.job, s.worker.trend)
    ensures TrendsAccounted(s')
  {
    hide FetchStep, TrendStep;
  }

  lemma WorkerKeepsTrends(s: State, s': State)
    requires s.history != [] && TrendsAccounted(s) && WorkerStep(s, s')
    ensures TrendsAccounted(s')
  {
    hide FetchStep, TrendStep, TrendsAccounted;
    match s.worker
    case Fetching(job, at) =>
      if FetchStep(s, s', job, at) {
        FetchKeepsTrends(s, s', job, at);
      } else {
        OtherWorkerKeepsTrends(s, s');
      }
    case Trending(job, at) =>
      if TrendStep(s, s', job, at) {
        TrendKeepsTrends(s, s', job, at);
      } else {
        OtherWorkerKeepsTrends(s, s');
      }
    case _ => OtherWorkerKeepsTrends(s, s');
  }

  lemma EnvironmentKeepsTrends(s: State, s': State)
    requires TrendsAccounted(s) && EnvironmentStep(s, s')
    ensures TrendsAccounted(s')
  {
  }

  lemma {:induction false} RunKeepsTrends(run: seq<State>, i: nat)
    requires IsRun(run) && i < |run|
    ensures TrendsAccounted(run[i])
    decreases i
  {
    hide UiStep, WorkerStep, TrendsAccounted, EnvironmentStep;
    if i == 0 {
      NoTrends(run[0]);
    } else {
      RunKeepsTrends(run, i - 1);
      assert Linked(run, i - 1);
      if UiStep(run[i - 1], run[i]) {
        UiKeepsTrends(run[i - 1], run[i]);
      } else if WorkerStep(run[i - 1], run[i]) {
        WorkerKeepsTrends(run[i - 1], run[i]);
      } else {
        EnvironmentKeepsTrends(run[i - 1], run[i]);
      }
    }
  }

  lemma NoTrends(s: State)
    requires Init(s)
    ensures TrendsAccounted(s)
  {
  }

  predicate HasTrend(s: State, token: nat) {
    || (s.pending.Some? && s.pending.value.TrendJob? && s.pending.value.trend == token)
    || (s.worker.Trending? && s.worker.job.TrendJob? && s.worker.job.trend == token)
  }

  /** No trend token is forgotten in the slot: until the executor stops, one that is there belongs to a trend job
      pending, running or being submitted; so an idle executor and an idle UI thread mean an empty slot. */
  lemma TrendSlotIsLive(run: seq<State>, i: nat)
    requires IsRun(run) && i < |run| && !run[i].stopping
    ensures run[i].trendSlot.Some? ==> Live(run[i], run[i].trendSlot.value)
    ensures !run[i].busy && run[i].ui == UiIdle ==> run[i].trendSlot == None
  {
    RunKeepsTrends(run, i);
    RunKeepsInv(run, i);
    BusyIsGood(run[i]);
    hide Init, Step, Inv;
  }

  lemma BusyIsGood(s: State)
    requires Inv(s)
    ensures GoodBusy(s)
  {
  }

  /** At every moment a trend job pending or running holds the token in the slot, or is cancelled, or a thread is in
      the middle of cancelling it: a new start, a reset, a newer trend and a finished fetch each cancel the one
      before. */
  lemma DisplacedTrendIsCancelled(run: seq<State>, i: nat, token: nat)
    requires IsRun(run) && i < |run| && HasTrend(run[i], token)
    ensures run[i].trendSlot == Some(token) || token in run[i].trendCancelled || InHands(run[i], token)
  {
    RunKeepsTrends(run, i);
  }

  // ---------------------------------------------------------------- a cancelled trend is mute

  /** The next staleness tests of the round find the job cancelled. */
  predicate TrendMuted(s: State, job: Job, at: TrendAt) {
    && job.TrendJob? && !at.PhaseCas?
    && (at.PhaseCheck? ==> || (at.k == 0 && job.gen in s.requestCancelled)
                           || (at.k <= 2 && job.trend in s.trendCancelled)
                           || s.quit)
  }

  predicate TrendCancelledNow(s: State, job: Job) {
    job.TrendJob? && (job.gen in s.requestCancelled || job.trend in s.trendCancelled || s.quit)
  }

  lemma CheckStaysMuted(s: State, s': State, job: Job, at: TrendAt)
    requires s.history != [] && TrendCancelledNow(s, job) && TrendMuted(s, job, at) && TrendStep(s, s', job, at)
    requires at.PhaseCheck?
    ensures s'.worker.Trending? ==> TrendMuted(s', job, s'.worker.trend)
  {
    hide StoredCache;
    var next := if at.final then Retire else Enriching;
    if Stale(s, job, at.k) {
      assert s' == s.(worker := Trending(job, next));
    } else if at.k < 3 {
      assert s' == s.(worker := Trending(job, PhaseCheck(at.final, at.cur, at.k + 1)));
    }
  }

  lemma TrendStaysMuted(s: State, s': State, job: Job)
    requires s.history != [] && s.worker.Trending? && s.worker.job == job && TrendCancelledNow(s, job)
    requires TrendMuted(s, job, s.worker.trend) && WorkerStep(s, s')
    requires s.requestCancelled <= s'.requestCancelled && s.trendCancelled <= s'.trendCancelled && s'.quit == s.quit
    ensures s'.history == s.history && (s'.worker.Trending? ==> TrendMuted(s', job, s'.worker.trend))
  {
    hide TrendStep;
    var at := s.worker.trend;
    if TrendStep(s, s', job, at) {
      TrendFrame(s, s', job, at);
      if at.PhaseCheck? {
        CheckStaysMuted(s, s', job, at);
      }
    }
  }

  /** The worker never takes a cancellation back. */
  lemma TrendKeepsCancelled(s: State, s': State, job: Job)
    requires s.history != [] && s.worker.Trending? && s.worker.job == job && WorkerStep(s, s')
    ensures s'.requestCancelled == s.requestCancelled && s.trendCancelled <= s'.trendCancelled && s'.quit == s.quit
  {
    hide TrendStep;
    var at := s.worker.trend;
    if TrendStep(s, s', job, at) {
      if at.PhaseCas? {
        PhaseCasFrame(s, s', job, at);
      } else if at.RetireMark? || at.Retire? {
        RetireGrows(s, s', job, at);
      } else {
        TrendFrame(s, s', job, at);
      }
    }
  }

  lemma RetireGrows(s: State, s': State, job: Job, at: TrendAt)
    requires s.history != [] && TrendStep(s, s', job, at) && (at.RetireMark? || at.Retire?)
    ensures s'.requestCancelled == s.requestCancelled && s.trendCancelled <= s'.trendCancelled && s'.quit == s.quit
  {
    hide StoredCache, Stale;
  }

  /** A trend job cancelled, by its own token, its request's or a quit, before the staleness test that sees it,
      publishes nothing more. */
  lemma {:induction false} CancelledTrendIsMute(run: seq<State>, i: nat, j: nat, job: Job)
    requires IsRun(run) && i <= j < |run| && TrendCancelledNow(run[i], job)
    requires forall m :: i <= m < j ==> run[m].worker.Trending? && run[m].worker.job == job
    requires run[i].worker.Trending? && TrendMuted(run[i], job, run[i].worker.trend)
    ensures TrendCancelledNow(run[j], job) && |run[i].history| <= |run[j].history|
    ensures NoneByWorker(run[j].history, |run[i].history|)
    ensures run[j].worker.Trending? && (i == j || run[j].worker.job == job) ==>
              TrendMuted(run[j], job, run[j].worker.trend)
    decreases j
  {
    hide Init, Inv, UiStep, WorkerStep, HistoryHasRows, WorkerUpToDate, EnvironmentStep;
    if i < j {
      CancelledTrendIsMute(run, i, j - 1, job);
      RunKeepsRows(run, j - 1);
      assert Linked(run, j - 1);
      var s, s' := run[j - 1], run[j];
      if UiStep(s, s') {
        UiStepIsUiOnly(s, s');
      } else if WorkerStep(s, s') {
        TrendKeepsCancelled(s, s', job);
        TrendStaysMuted(s, s', job);
      } else {
        EnvironmentIs(s, s');
      }
    }
  }

  lemma EnvironmentIs(s: State, s': State)
    requires EnvironmentStep(s, s')
    ensures s'.history == s.history && s'.worker == s.worker && (s.quit ==> s'.quit)
    ensures s'.requestCancelled == s.requestCancelled && s'.trendCancelled == s.trendCancelled
  {
  }
}
