/** What cancelling means: which jobs are cancelled at any time, and that a cancelled job publishes nothing more. */
module ScreenerTokens {
  import opened Options
  import opened ScreenerProtocol
  import opened ScreenerInvariant
  import opened ScreenerRuns
  import opened ScreenerRows

  // ---------------------------------------------------------------- request tokens

  /** The UI thread has taken a token out of the slot and is about to cancel it. */
  predicate InUiHands(ui: UiPc, gen: nat) {
    || (ui.Starting? && ui.start.SCancel? && ui.start.previous == Some(gen))
    || (ui.Resetting? && ui.reset.RCancel? && ui.reset.previous == Some(gen))
  }

  /** A token is in the slot, or cancelled, or about to be. */
  predicate Accounted(s: State, gen: nat) {
    s.requestSlot == Some(gen) || gen in s.requestCancelled || InUiHands(s.ui, gen)
  }

  predicate Exchanged(at: StartAt) {
    !at.SLoad? && !at.SGeneration? && !at.SExchange?
  }

  /** The token in the slot is that of the displayed generation, or of the one about to be displayed. */
  predicate GoodSlot(s: State)
    requires s.history != []
  {
    match s.ui
    case Starting(_, _, _, gen, at) =>
      if Exchanged(at) then s.requestSlot == Some(gen)
      else s.requestSlot.Some? ==> s.requestSlot.value == s.Current().gen
    case Resetting(_, at) =>
      if at.RExchange? then s.requestSlot.Some? ==> s.requestSlot.value == s.Current().gen
      else s.requestSlot == None
    case StartingTrend(job, at) =>
      && (s.requestSlot.Some? ==> s.requestSlot.value == s.Current().gen)
      && (!at.TReadSlot? ==> s.requestSlot == Some(job.gen))
    case UiIdle => s.requestSlot.Some? ==> s.requestSlot.value == s.Current().gen
  }

  predicate JobsAccounted(s: State) {
    && (s.pending.Some? ==> Accounted(s, s.pending.value.gen))
    && (s.worker.Fetching? || s.worker.Trending? ==> Accounted(s, s.worker.job.gen))
  }

  predicate TokenInv(s: State) {
    RowsInv(s) && GoodSlot(s) && JobsAccounted(s)
  }

  lemma SubmittingIsShown(s: State)
    requires s.history != [] && Inv(s) && Submitting(s.ui)
    ensures s.Current().gen == s.ui.gen
  {
    hide GoodHistory, GoodCache, GoodWorker, GoodLoading;
  }

  /** The UI thread's steps before anything is published. */
  lemma StartTokens(s: State, s': State, id: Id, key: string, empty: bool, gen: nat, at: StartAt)
    requires s.history != [] && GoodSlot(s) && JobsAccounted(s)
    requires s.ui == Starting(id, key, empty, gen, at) && StartStep(s, s', id, key, empty, gen, at)
    requires at.SLoad? || at.SGeneration? || at.SExchange? || at.SCancel? || at.STrendExchange? || at.STrendCancel?
    ensures s'.history != [] && GoodSlot(s') && JobsAccounted(s')
  {
    hide StoredCache, KeyOwner, PublishStep, FinishStep;
    match at
    case SLoad => assert s' == s.(ui := s'.ui);
    case SGeneration(_) => assert s' == s.(nextGeneration := s'.nextGeneration, genId := s'.genId, ui := s'.ui);
    case SExchange(shown) =>
      assert s' == s.(requestSlot := Some(gen),
                      ui := Starting(id, key, empty, gen, SCancel(shown, s.requestSlot)));
    case SCancel(shown, previous) =>
      assert s' == s.(requestCancelled := Cancel(s.requestCancelled, previous),
                      ui := Starting(id, key, empty, gen, STrendExchange(shown)));
    case STrendExchange(_) => assert s' == s.(trendSlot := s'.trendSlot, ui := s'.ui);
    case STrendCancel(_, _) => assert s' == s.(trendCancelled := s'.trendCancelled, ui := s'.ui);
  }

  /** What leaves tokens, jobs and the displayed snapshot alone. */
  lemma SameTokens(s: State, s': State)
    requires s.history != [] && GoodSlot(s) && JobsAccounted(s)
    requires s'.history == s.history && s'.requestSlot == s.requestSlot && s'.requestCancelled == s.requestCancelled
    requires s'.pending == s.pending && s'.worker == s.worker
    requires s.ui.Starting? && s'.ui.Starting? && s'.ui.gen == s.ui.gen && Exchanged(s.ui.start) && !s.ui.start.SCancel?
    requires Exchanged(s'.ui.start)
    ensures GoodSlot(s') && JobsAccounted(s')
  {
  }

  lemma DisplayTokens(s: State, s': State, id: Id, key: string, empty: bool, gen: nat, at: StartAt)
    requires s.history != [] && GoodSlot(s) && JobsAccounted(s)
    requires s.ui == Starting(id, key, empty, gen, at) && StartStep(s, s', id, key, empty, gen, at)
    requires at.SDisplay? || at.SCacheLookup? || at.SPersistent? || at.SCacheStore?
    ensures s'.history != [] && GoodSlot(s') && JobsAccounted(s')
  {
    hide StartStep, GoodSlot, JobsAccounted;
    DisplayFrame(s, s', id, key, empty, gen, at);
    SameTokens(s, s');
  }

  lemma SubmitTokens(s: State, s': State, id: Id, key: string, empty: bool, gen: nat, at: StartAt)
    requires s.history != [] && Inv(s) && GoodSlot(s) && JobsAccounted(s)
    requires s.ui == Starting(id, key, empty, gen, at) && StartStep(s, s', id, key, empty, gen, at)
    requires at.SPublish? || at.SDecide? || at.SSubmit?
    ensures s'.history != [] && GoodSlot(s') && JobsAccounted(s')
  {
    if at.SSubmit? {
      SubmittingIsShown(s);
    }
    hide Inv, StoredCache, KeyOwner, PublishStep, FinishStep;
    if at.SPublish? {
      assert s' == s.(history := s'.history, ui := Starting(id, key, empty, gen, SDecide));
    } else if at.SDecide? {
      assert s' == s.(ui := s'.ui);
    } else if s.stopping {
      assert s' == s.(ui := Starting(id, key, empty, gen, SFail(FLoad)));
    } else {
      assert s' == s.(pending := Some(FetchJob(gen, id, key)), busy := true, ui := UiIdle);
    }
  }

  lemma SettledTokens(s: State, s': State)
    requires s.history != [] && GoodSlot(s) && JobsAccounted(s) && s.ui.Starting? && Exchanged(s.ui.start)
    requires s'.history != [] && s'.requestSlot == s.requestSlot && s'.requestCancelled == s.requestCancelled
    requires s'.pending == s.pending && s'.worker == s.worker && s'.Current().gen == s.ui.gen && !s.ui.start.SCancel?
    requires s'.ui == UiIdle || (s'.ui.Starting? && s'.ui.gen == s.ui.gen && Exchanged(s'.ui.start))
    ensures GoodSlot(s') && JobsAccounted(s')
  {
  }

  lemma SettleTokens(s: State, s': State, id: Id, key: string, empty: bool, gen: nat, at: StartAt)
    requires s.history != [] && Inv(s) && GoodSlot(s) && JobsAccounted(s)
    requires s.ui == Starting(id, key, empty, gen, at) && StartStep(s, s', id, key, empty, gen, at)
    requires at.SEmptyPublish? || at.SFail?
    ensures s'.history != [] && GoodSlot(s') && JobsAccounted(s')
  {
    SubmittingIsShown(s);
    hide Inv, StartStep, GoodSlot, JobsAccounted, GoodStartAt, Displays;
    SettleMoves(s, s', id, key, empty, gen, at);
    SettledTokens(s, s');
  }

  lemma TrendStartTokens(s: State, s': State, job: Job, at: TrendStartAt)
    requires s.history != [] && GoodSlot(s) && JobsAccounted(s)
    requires s.ui == StartingTrend(job, at) && TrendStartStep(s, s', job, at)
    ensures s'.history != [] && GoodSlot(s') && JobsAccounted(s')
  {
    hide Cancel;
    match at
    case TReadSlot => assert s' == s.(ui := s'.ui);
    case TToken => assert s' == s.(ui := s'.ui);
    case TQuit => assert s' == s.(ui := s'.ui);
    case TExchange => assert s' == s.(nextTrend := s'.nextTrend, trendSlot := s'.trendSlot, ui := s'.ui);
    case TCancel(_) => assert s' == s.(trendCancelled := s'.trendCancelled, ui := s'.ui);
    case TSubmit => assert s' == s.(pending := s'.pending, busy := s'.busy, ui := s'.ui);
    case TRetire => assert s' == s.(trendSlot := s'.trendSlot, ui := s'.ui);
    case TRetireMark => assert s' == s.(trendCancelled := s'.trendCancelled, ui := UiIdle);
  }

  lemma ResetTokens(s: State, s': State, gen: nat, at: ResetAt)
    requires s.history != [] && GoodSlot(s) && JobsAccounted(s)
    requires s.ui == Resetting(gen, at) && ResetStep(s, s', gen, at)
    ensures s'.history != [] && GoodSlot(s') && JobsAccounted(s')
  {
    match at
    case RExchange => assert s' == s.(requestSlot := None, ui := Resetting(gen, RCancel(s.requestSlot)));
    case RCancel(previous) =>
      assert s' == s.(requestCancelled := Cancel(s.requestCancelled, previous), ui := Resetting(gen, RTrendExchange));
    case RTrendExchange => assert s' == s.(trendSlot := s'.trendSlot, ui := s'.ui);
    case RTrendCancel(_) => assert s' == s.(trendCancelled := s'.trendCancelled, ui := s'.ui);
    case RGeneration => assert s' == s.(nextGeneration := s'.nextGeneration, genId := s'.genId, ui := s'.ui);
    case RPublish => assert s' == s.(history := s'.history, ui := UiIdle);
  }

  lemma IdleTokens(s: State, s': State)
    requires s.history != [] && GoodSlot(s) && JobsAccounted(s) && s.ui == UiIdle && UiStep(s, s')
    ensures s'.history != [] && GoodSlot(s') && JobsAccounted(s')
  {
    hide BuildScreenerCacheKey, GoodSlot, JobsAccounted;
    if id, watchlist :| BeginStart(s, s', id, watchlist) {
      assert s' == s.(ui := s'.ui) && s'.ui.Starting? && s'.ui.start.SLoad?;
      BeginsTokens(s, s');
    } else if id, watchlist :| BeginTrend(s, s', id, watchlist) {
      assert s' == s.(ui := s'.ui) && s'.ui.StartingTrend? && s'.ui.trendStart.TReadSlot?;
      BeginsTokens(s, s');
    } else {
      BeginsTokens(s, s');
    }
  }

  lemma BeginsTokens(s: State, s': State)
    requires s.history != [] && GoodSlot(s) && JobsAccounted(s) && s.ui == UiIdle && s' == s.(ui := s'.ui)
    requires || (s'.ui.Starting? && s'.ui.start.SLoad?) || (s'.ui.StartingTrend? && s'.ui.trendStart.TReadSlot?)
             || (s'.ui.Resetting? && s'.ui.reset.RExchange?)
    ensures GoodSlot(s') && JobsAccounted(s')
  {
  }

  lemma UiKeepsTokens(s: State, s': State)
    requires TokenInv(s) && UiStep(s, s')
    ensures s'.history != [] && GoodSlot(s') && JobsAccounted(s')
  {
    hide Inv, StartStep, TrendStartStep, ResetStep, GoodSlot, JobsAccounted, HistoryHasRows, WorkerUpToDate;
    match s.ui
    case UiIdle => IdleTokens(s, s');
    case Starting(id, key, empty, gen, at) =>
      if at.SEmptyPublish? || at.SFail? {
        SettleTokens(s, s', id, key, empty, gen, at);
      } else if at.SPublish? || at.SDecide? || at.SSubmit? {
        SubmitTokens(s, s', id, key, empty, gen, at);
      } else if at.SDisplay? || at.SCacheLookup? || at.SPersistent? || at.SCacheStore? {
        DisplayTokens(s, s', id, key, empty, gen, at);
      } else {
        StartTokens(s, s', id, key, empty, gen, at);
      }
    case StartingTrend(job, at) => TrendStartTokens(s, s', job, at);
    case Resetting(gen, at) => ResetTokens(s, s', gen, at);
  }

  /** What the worker does to tokens and jobs: it keeps its job, ends it, or takes the pending one. */
  lemma WorkerTokens(s: State, s': State)
    requires s.history != [] && WorkerStep(s, s')
    ensures s'.requestSlot == s.requestSlot && s'.requestCancelled == s.requestCancelled && s'.ui == s.ui
    ensures s'.nextTrend == s.nextTrend && (s'.pending == s.pending || s'.pending == None)
    ensures s'.nextGeneration == s.nextGeneration && (s.trendSlot == None ==> s'.trendSlot == None)
    ensures s'.worker.Fetching? || s'.worker.Trending? ==>
              || ((s.worker.Fetching? || s.worker.Trending?) && s'.worker.job == s.worker.job)
              || s.pending == Some(s'.worker.job)
  {
    hide FetchStep, TrendStep;
    match s.worker
    case Fetching(job, at) =>
      if FetchStep(s, s', job, at) {
        if at.ProgressPublish? || at.FinalPublish? || at.Failing? {
          FetchPublishFrame(s, s', job, at);
        } else {
          FetchFrame(s, s', job, at);
        }
      }
    case Trending(job, at) =>
      if TrendStep(s, s', job, at) {
        if at.PhaseCas? {
          PhaseCasFrame(s, s', job, at);
        } else {
          TrendFrame(s, s', job, at);
        }
      }
    case _ =>
  }

  lemma StepKeepsTokens(s: State, s': State)
    requires TokenInv(s) && Step(s, s')
    ensures TokenInv(s')
  {
    StepKeepsRows(s, s');
    hide Inv, UiStep, WorkerStep, HistoryHasRows, WorkerUpToDate, GoodSlot, JobsAccounted;
    if UiStep(s, s') {
      UiKeepsTokens(s, s');
    } else if WorkerStep(s, s') {
      WorkerTokens(s, s');
      WorkerKeepsRows(s, s');
      TokensStay(s, s');
    } else {
      TokensStay(s, s');
    }
  }

  lemma TokensStay(s: State, s': State)
    requires s.history != [] && GoodSlot(s) && JobsAccounted(s)
    requires s'.requestSlot == s.requestSlot && s'.requestCancelled == s.requestCancelled && s'.ui == s.ui
    requires s'.history != [] && s'.Current().gen == s.Current().gen && (s'.pending == s.pending || s'.pending == None)
    requires s'.worker.Fetching? || s'.worker.Trending? ==>
               || ((s.worker.Fetching? || s.worker.Trending?) && s'.worker.job == s.worker.job)
               || s.pending == Some(s'.worker.job)
    ensures GoodSlot(s') && JobsAccounted(s')
  {
  }

  lemma {:induction false} RunKeepsTokens(run: seq<State>, i: nat)
    requires IsRun(run) && i < |run|
    ensures TokenInv(run[i])
    decreases i
  {
    hide Inv, Step;
    if i == 0 {
      InitInv(run[0]);
    } else {
      RunKeepsTokens(run, i - 1);
      assert Linked(run, i - 1);
      StepKeepsTokens(run[i - 1], run[i]);
    }
  }

  /** The job of a thread that is not the displayed generation's. */
  predicate HasJob(s: State, gen: nat) {
    || (s.pending.Some? && s.pending.value.gen == gen)
    || ((s.worker.Fetching? || s.worker.Trending?) && s.worker.job.gen == gen)
  }

  /** Whenever the UI thread is idle, a job pending or running is cancelled if and only if its generation is not
      the displayed one: a new start or a reset cancels every job there was. */
  lemma CancelledIffOvertaken(run: seq<State>, i: nat, gen: nat)
    requires IsRun(run) && i < |run| && run[i].ui == UiIdle && HasJob(run[i], gen)
    ensures run[i].history != []
    ensures gen in run[i].requestCancelled <==> gen != run[i].Current().gen
  {
    RunKeepsTokens(run, i);
    DisplayedIsNotCancelled(run[i]);
    hide Init, Step, Inv, HistoryHasRows, WorkerUpToDate;
  }

  lemma DisplayedIsNotCancelled(s: State)
    requires s.history != [] && Inv(s) && s.ui == UiIdle
    ensures s.Current().gen !in s.requestCancelled
  {
    hide GoodHistory, GoodCache, GoodWorker, GoodUi, GoodLoading;
  }

  // ---------------------------------------------------------------- a cancelled fetch is mute

  /** A request is given up by cancelling its token or by quitting, both for good. */
  predicate Doomed(s: State, gen: nat) {
    gen in s.requestCancelled || s.quit
  }

  /** Past its last check, in its current round, a publish may still store. */
  predicate PublishMuted(s: State, at: PublishAt) {
    at.PLoad? || at.PToken? || (at.PQuit? && s.quit)
  }

  predicate FetchMuted(s: State, at: FetchAt) {
    match at
    case ProgressPublish(p) => PublishMuted(s, p.at)
    case FinalPublish(p) => PublishMuted(s, p.at)
    case Failing(FPublish(p)) => PublishMuted(s, p.at)
    case _ => true
  }

  lemma PublishStaysMuted(s: State, t: State, p: Publish, gen: nat, id: Id, r: Progress<Publish>)
    requires s.history != [] && Doomed(s, gen) && PublishMuted(s, p.at)
    requires PublishStep(s, t, p, gen, id, Worker, r)
    ensures t == s && r != Done(true) && (r.Going? ==> PublishMuted(s, r.next.at))
  {
  }

  lemma FinishStaysMuted(s: State, t: State, f: Finish, gen: nat, id: Id, r: Progress<Finish>)
    requires s.history != [] && Doomed(s, gen) && FetchMuted(s, Failing(f))
    requires FinishStep(s, t, f, gen, id, Worker, r)
    ensures t == s && (r.Going? ==> FetchMuted(s, Failing(r.next)))
  {
    hide PublishStep, Doomed;
    match f
    case FPublish(p) =>
      var q :| PublishStep(s, t, p, gen, id, Worker, q)
               && r == (if q.Going? then Going(FPublish(q.next)) else Done(q.ok));
      PublishStaysMuted(s, t, p, gen, id, q);
    case _ =>
  }

  lemma PublishingStaysMuted(s: State, s': State, job: Job, at: FetchAt)
    requires s.history != [] && Doomed(s, job.gen) && FetchMuted(s, at) && FetchStep(s, s', job, at)
    requires at.ProgressPublish? || at.FinalPublish? || at.Failing?
    ensures s'.history == s.history && s'.quit == s.quit && (s'.worker.Fetching? ==> FetchMuted(s, s'.worker.fetch))
  {
    hide PublishStep, FinishStep, Doomed, PublishMuted;
    if at.ProgressPublish? {
      var t, r :| PublishStep(s, t, at.publish, job.gen, job.id, Worker, r)
                  && s' == t.(worker := Fetching(job, if r.Going? then ProgressPublish(r.next) else Source));
      PublishStaysMuted(s, t, at.publish, job.gen, job.id, r);
    } else if at.FinalPublish? {
      var t, r := FinalStepIs(s, s', job, at);
      PublishStaysMuted(s, t, at.publish, job.gen, job.id, r);
    } else {
      var t, r := FailingStepIs(s, s', job, at);
      FinishStaysMuted(s, t, at.finish, job.gen, job.id, r);
    }
  }

  lemma WorkerStaysMuted(s: State, s': State, job: Job)
    requires s.history != [] && s.worker.Fetching? && s.worker.job == job && Doomed(s, job.gen)
    requires FetchMuted(s, s.worker.fetch) && WorkerStep(s, s')
    ensures s'.history == s.history && s'.quit == s.quit
    ensures s'.worker.Fetching? ==> FetchMuted(s, s'.worker.fetch)
  {
    hide FetchStep, Doomed;
    var at := s.worker.fetch;
    if FetchStep(s, s', job, at) {
      if at.ProgressPublish? || at.FinalPublish? || at.Failing? {
        PublishingStaysMuted(s, s', job, at);
      } else {
        FetchFrame(s, s', job, at);
      }
    }
  }

  lemma MutedStays(s: State, s': State, at: FetchAt, gen: nat)
    requires FetchMuted(s, at) && Doomed(s, gen)
    requires (s.quit ==> s'.quit) && s.requestCancelled <= s'.requestCancelled
    ensures FetchMuted(s', at) && Doomed(s', gen)
  {
  }

  /** The worker's snapshots among those stored from an index on. */
  predicate NoneByWorker(history: seq<Entry>, from: nat) {
    forall k :: from <= k < |history| ==> history[k].author != Worker
  }

  lemma KeepsQuiet(s: State, s': State, job: Job)
    requires RowsInv(s) && Step(s, s') && s.worker.Fetching? && s.worker.job == job
    ensures (s.quit ==> s'.quit) && s.requestCancelled <= s'.requestCancelled
    ensures WorkerStep(s, s') || s'.worker == s.worker
    ensures !WorkerStep(s, s') ==> s.history <= s'.history && NoneByWorker(s'.history, |s.history|)
  {
    hide Inv, UiStep, WorkerStep, HistoryHasRows, WorkerUpToDate;
    if UiStep(s, s') {
      UiStepIsUiOnly(s, s');
      hide Above, Displays;
    } else if WorkerStep(s, s') {
      WorkerTokens(s, s');
      WorkerKeepsQuit(s, s');
    }
  }

  lemma WorkerKeepsQuit(s: State, s': State)
    requires s.history != [] && s.worker.Fetching? && WorkerStep(s, s')
    ensures s'.quit == s.quit
  {
    hide FetchStep;
    var Fetching(job, at) := s.worker;
    if FetchStep(s, s', job, at) {
      if at.ProgressPublish? || at.FinalPublish? || at.Failing? {
        FetchPublishFrame(s, s', job, at);
      } else {
        FetchFrame(s, s', job, at);
      }
    }
  }

  /** A fetch cancelled before the last token check of a publish, or before the last check of a quit, publishes
      nothing more. */
  lemma {:induction false} CancelledFetchIsMute(run: seq<State>, i: nat, j: nat, job: Job)
    requires IsRun(run) && i <= j < |run| && Doomed(run[i], job.gen)
    requires forall m :: i <= m < j ==> run[m].worker.Fetching? && run[m].worker.job == job
    requires run[i].worker.Fetching? && FetchMuted(run[i], run[i].worker.fetch)
    ensures Doomed(run[j], job.gen) && NoneByWorker(run[j].history, |run[i].history|)
    ensures |run[i].history| <= |run[j].history|
    ensures run[j].worker.Fetching? && (i == j || run[j].worker.job == job) ==> FetchMuted(run[j], run[j].worker.fetch)
    decreases j
  {
    hide Init, Step, Inv, WorkerStep, FetchMuted, Doomed, HistoryHasRows, WorkerUpToDate;
    if i < j {
      CancelledFetchIsMute(run, i, j - 1, job);
      RunKeepsRows(run, j - 1);
      assert Linked(run, j - 1);
      var s, s' := run[j - 1], run[j];
      KeepsQuiet(s, s', job);
      MutedStays(s, s', s.worker.fetch, job.gen);
      if WorkerStep(s, s') {
        WorkerStaysMuted(s, s', job);
        if s'.worker.Fetching? {
          MutedStays(s, s', s'.worker.fetch, job.gen);
        }
      }
    }
  }

  /** Before its checks a fetch neither touches the trend slot nor caches rows. */
  predicate Harmless(s: State, at: FetchAt) {
    && !at.TrendExchange? && !at.TrendCancel? && !at.StoreRows?
    && (at.ResultQuit? || at.StoreQuit? ==> s.quit)
  }

  lemma ReportsOnly(s: State, s': State, job: Job, at: FetchAt)
    requires s.history != [] && FetchStep(s, s', job, at) && at.ProgressLoad?
    ensures s'.worker.Fetching? && (s'.worker.fetch == Source || s'.worker.fetch.ProgressPublish?)
  {
    hide PublishStep, FinishStep, StoredCache;
    var shown := s.Current();
    if shown.gen != job.gen || shown.id != job.id {
      assert s' == s.(worker := Fetching(job, Source));
    }
  }

  lemma StaysHarmless(s: State, s': State, job: Job, at: FetchAt)
    requires s.history != [] && Doomed(s, job.gen) && Harmless(s, at) && FetchStep(s, s', job, at)
    requires !at.ProgressPublish? && !at.FinalPublish? && !at.Failing?
    ensures s'.worker.Fetching? ==> Harmless(s, s'.worker.fetch)
  {
    hide PublishStep, FinishStep, StoredCache, Cancel;
    match at
    case Source => SourceLeads(s, s', job);
    case ProgressToken(rows) =>
      var next := if job.gen in s.requestCancelled then Source else ProgressQuit(rows);
      assert s' == s.(worker := Fetching(job, next));
    case ProgressQuit(rows) =>
      var next := if s.quit then Source else ProgressLoad(rows);
      assert s' == s.(worker := Fetching(job, next));
    case ProgressLoad(_) => ReportsOnly(s, s', job, at);
    case ResultToken(result) =>
      assert s' == s.(worker := if job.gen in s.requestCancelled then JobDone else Fetching(job, ResultQuit(result)));
    case ResultQuit(_) => assert s' == s.(worker := JobDone);
    case MergeLoad(_) => assert s'.worker == Fetching(job, StoreToken(s'.worker.fetch.rows));
    case StoreToken(rows) =>
      assert s' == s.(worker := if job.gen in s.requestCancelled then JobDone else Fetching(job, StoreQuit(rows)));
    case StoreQuit(_) => assert s' == s.(worker := JobDone);
  }

  /** The steps of publishing lead nowhere else. */
  lemma PublishesOnly(s: State, s': State, job: Job, at: FetchAt)
    requires s.history != [] && FetchStep(s, s', job, at) && (at.ProgressPublish? || at.FinalPublish? || at.Failing?)
    ensures s'.worker.Fetching? ==> s'.worker.fetch == Source || s'.worker.fetch.ProgressPublish?
                                    || s'.worker.fetch.FinalPublish? || s'.worker.fetch.Failing?
  {
    hide PublishStep, FinishStep;
    if at.ProgressPublish? {
      var t, r :| PublishStep(s, t, at.publish, job.gen, job.id, Worker, r)
                  && s' == t.(worker := Fetching(job, if r.Going? then ProgressPublish(r.next) else Source));
    } else if at.FinalPublish? {
      var t, r := FinalStepIs(s, s', job, at);
    } else {
      var t, r := FailingStepIs(s, s', job, at);
    }
  }

  lemma WorkerStaysHarmless(s: State, s': State, job: Job)
    requires s.history != [] && s.worker.Fetching? && s.worker.job == job && Doomed(s, job.gen)
    requires Harmless(s, s.worker.fetch) && WorkerStep(s, s')
    ensures s'.cache == s.cache && KeepsTrends(s, s')
    ensures s'.worker.Fetching? ==> Harmless(s, s'.worker.fetch)
  {
    hide FetchStep, Doomed;
    var at := s.worker.fetch;
    if FetchStep(s, s', job, at) {
      if at.ProgressPublish? || at.FinalPublish? || at.Failing? {
        FetchPublishFrame(s, s', job, at);
        PublishesOnly(s, s', job, at);
      } else {
        FetchFrame(s, s', job, at);
        StaysHarmless(s, s', job, at);
      }
    }
  }

  /** A fetch given up before it has looked at its result, or before it has checked again to store it, cancels no
      trend and caches nothing. */
  lemma {:induction false} CancelledFetchIsHarmless(run: seq<State>, i: nat, j: nat, job: Job)
    requires IsRun(run) && i <= j < |run| && Doomed(run[i], job.gen)
    requires forall m :: i <= m < j ==> run[m].worker.Fetching? && run[m].worker.job == job
    requires run[i].worker.Fetching? && Harmless(run[i], run[i].worker.fetch)
    ensures Doomed(run[j], job.gen)
    ensures run[j].worker.Fetching? && (i == j || run[j].worker.job == job) ==> Harmless(run[j], run[j].worker.fetch)
    ensures i < j ==> run[j - 1].history != []
    ensures i < j && WorkerStep(run[j - 1], run[j]) ==>
              run[j].cache == run[j - 1].cache && KeepsTrends(run[j - 1], run[j])
    decreases j
  {
    hide Init, Step, Inv, WorkerStep, HistoryHasRows, WorkerUpToDate, Doomed;
    if i < j {
      CancelledFetchIsHarmless(run, i, j - 1, job);
      RunKeepsRows(run, j - 1);
      assert Linked(run, j - 1);
      var s, s' := run[j - 1], run[j];
      KeepsQuiet(s, s', job);
      MutedStays(s, s', Source, job.gen);
      if WorkerStep(s, s') {
        WorkerStaysHarmless(s, s', job);
      }
    }
  }
}
