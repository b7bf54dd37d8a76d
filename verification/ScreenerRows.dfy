/** Which rows the worker's snapshots hold: never none where there were some, and those of the fetch that ended. */
module ScreenerRows {
  import opened Options
  import opened ScreenerProtocol
  import opened ScreenerInvariant
  import opened ScreenerRuns

  /** Rows take in everything that went into others. */
  predicate Covers(items: Option<Rows>, before: Option<Rows>) {
    before.Some? ==> items.Some? && before.value.Sources() <= items.value.Sources()
  }

  /** What the worker may store over a snapshot: rows with Ready or Refreshing, none with Failed, and wherever there
      were rows before, rows with those merged in. */
  predicate Replaces(before: Snapshot, after: Snapshot) {
    && after.load in {Ready, Refreshing, Failed}
    && (after.load == Ready || after.load == Refreshing ==> after.items.Some?)
    && (after.load == Failed ==> after.items.None?)
    && Covers(after.items, before.items)
  }

  /** What the UI thread may store: Refreshing with rows, Loading and Failed without. */
  predicate Displays(after: Snapshot) {
    && (after.load == Refreshing ==> after.items.Some?)
    && (after.load == Loading || after.load == Failed ==> after.items.None?)
  }

  predicate HistoryHasRows(s: State) {
    && (forall i :: 0 < i < |s.history| && s.history[i].author == Worker ==>
          Replaces(s.history[i - 1].snap, s.history[i].snap))
    && (forall i :: 0 <= i < |s.history| && s.history[i].author == Ui ==> Displays(s.history[i].snap))
  }

  /** What a failing fetch has seen or taken over is still displayed if its generation is. */
  predicate FinishUpToDate(s: State, f: Finish)
    requires s.history != []
  {
    match f
    case FLoad => true
    case FToken(cur) => cur == s.Last()
    case FQuit(cur) => cur == s.Last()
    case FPublish(p) => p.items == s.Current().items
  }

  /** And what a fetch is about to store takes in what is displayed. */
  predicate UpToDate(s: State, at: FetchAt)
    requires s.history != []
  {
    match at
    case ProgressPublish(p) => Covers(p.items, s.Current().items)
    case StoreToken(rows) => Covers(Some(rows), s.Current().items)
    case StoreQuit(rows) => Covers(Some(rows), s.Current().items)
    case StoreRows(rows) => Covers(Some(rows), s.Current().items)
    case FinalPublish(p) => Covers(p.items, s.Current().items)
    case Failing(f) => FinishUpToDate(s, f)
    case _ => true
  }

  predicate WorkerUpToDate(s: State)
    requires s.history != []
  {
    s.worker.Fetching? && s.worker.job.gen == s.Current().gen ==> UpToDate(s, s.worker.fetch)
  }

  predicate RowsInv(s: State) {
    s.history != [] && Inv(s) && HistoryHasRows(s) && WorkerUpToDate(s)
  }

  // ---------------------------------------------------------------- the UI thread

  /** The UI thread leaves the worker alone, and stores only snapshots of generations past the worker's job. */
  ghost predicate UiOnly(s: State, s': State) {
    && s'.worker == s.worker && s'.quit == s.quit
    && s.requestCancelled <= s'.requestCancelled && s.trendCancelled <= s'.trendCancelled
    && (|| s'.history == s.history
        || (exists snap :: s'.history == s.history + [Entry(snap, Ui)] && Above(s, snap.gen) && Displays(snap)))
  }

  predicate Above(s: State, gen: nat) {
    s.worker.Fetching? || s.worker.Trending? ==> s.worker.job.gen < gen
  }

  lemma SubmittedIsAbove(s: State, gen: nat)
    requires s.history != [] && Inv(s) && Submitting(s.ui) && s.ui.gen == gen
    ensures Above(s, gen)
  {
    hide GoodHistory, GoodCache, GoodWorker;
  }

  lemma PreparedIsAbove(s: State)
    requires s.history != [] && Inv(s) && Preparing(s.ui)
    ensures Above(s, s.ui.gen)
  {
    hide GoodHistory, GoodCache, GoodLoading, GoodFetchAt, GoodTrendAt;
  }

  lemma UiPublishes(s: State, t: State, p: Publish, gen: nat, id: Id, r: Progress<Publish>)
    requires s.history != [] && PublishStep(s, t, p, gen, id, Ui, r)
    ensures t == s.(history := t.history)
    ensures t.history == s.history || t.history == s.history + [Entry(Snapshot(gen, id, p.load, p.items), Ui)]
  {
  }

  lemma UiFinishes(s: State, t: State, f: Finish, gen: nat, id: Id, r: Progress<Finish>)
    requires s.history != [] && FinishStep(s, t, f, gen, id, Ui, r)
    ensures t == s.(history := t.history)
    ensures || t.history == s.history
            || exists snap: Snapshot ::
                 && t.history == s.history + [Entry(snap, Ui)] && snap.gen == gen
                 && (GoodFinish(s, f, gen, id) ==> Displays(snap))
  {
    hide PublishStep;
    match f
    case FPublish(p) =>
      var q :| PublishStep(s, t, p, gen, id, Ui, q)
               && r == (if q.Going? then Going(FPublish(q.next)) else Done(q.ok));
      UiPublishes(s, t, p, gen, id, q);
    case _ =>
  }

  /** A start that settles its request itself does nothing else. */
  lemma SettleMoves(s: State, s': State, id: Id, key: string, empty: bool, gen: nat, at: StartAt)
    requires s.history != [] && (at.SEmptyPublish? || at.SFail?) && StartStep(s, s', id, key, empty, gen, at)
    ensures s' == s.(history := s'.history, ui := s'.ui)
    ensures || s'.ui == UiIdle
            || (s'.ui.Starting? && s'.ui.gen == gen && (s'.ui.start.SEmptyPublish? || s'.ui.start.SFail?))
    ensures || s'.history == s.history
            || exists snap: Snapshot ::
                 && s'.history == s.history + [Entry(snap, Ui)] && snap.gen == gen
                 && (GoodStartAt(s, at, gen, id) ==> Displays(snap))
  {
    hide PublishStep, FinishStep, GoodFinish, GoodPublish;
    if at.SEmptyPublish? {
      var t, r :| PublishStep(s, t, at.publish, gen, id, Ui, r)
                  && s' == t.(ui := if r.Going? then Starting(id, key, empty, gen, SEmptyPublish(r.next)) else UiIdle);
      UiPublishes(s, t, at.publish, gen, id, r);
    } else {
      var t, r :| FinishStep(s, t, at.finish, gen, id, Ui, r)
                  && s' == t.(ui := if r.Going? then Starting(id, key, empty, gen, SFail(r.next)) else UiIdle);
      UiFinishes(s, t, at.finish, gen, id, r);
    }
  }

  lemma SettlingUi(s: State, s': State, id: Id, key: string, empty: bool, gen: nat, at: StartAt)
    requires s.history != [] && Inv(s) && s.ui == Starting(id, key, empty, gen, at) && (at.SEmptyPublish? || at.SFail?)
    requires StartStep(s, s', id, key, empty, gen, at)
    ensures UiOnly(s, s')
  {
    SubmittedIsAbove(s, gen);
    assert GoodStartAt(s, at, gen, id);
    hide Inv, StartStep, Above, Displays, GoodStartAt;
    SettleMoves(s, s', id, key, empty, gen, at);
  }

  lemma StartingUi(s: State, s': State, id: Id, key: string, empty: bool, gen: nat, at: StartAt)
    requires s.history != [] && Inv(s) && s.ui == Starting(id, key, empty, gen, at) && at.SPublish?
    requires StartStep(s, s', id, key, empty, gen, at)
    ensures UiOnly(s, s')
  {
    PreparedIsAbove(s);
    hide Inv;
    assert s' == s.(history := s'.history, ui := s'.ui);
  }

  lemma ResettingUi(s: State, s': State, gen: nat, at: ResetAt)
    requires s.history != [] && Inv(s) && s.ui == Resetting(gen, at) && ResetStep(s, s', gen, at)
    ensures UiOnly(s, s')
  {
    if at.RPublish? {
      PreparedIsAbove(s);
    }
    hide Inv;
  }

  lemma QuietUi(s: State, s': State, id: Id, key: string, empty: bool, gen: nat, at: StartAt)
    requires s.history != [] && Inv(s) && s.ui == Starting(id, key, empty, gen, at)
    requires !at.SEmptyPublish? && !at.SFail? && !at.SPublish? && StartStep(s, s', id, key, empty, gen, at)
    ensures UiOnly(s, s')
  {
    hide Inv, StartStep, Above;
    StartFrame(s, s', id, key, empty, gen, at);
    StartKeepsCancelled(s, s', id, key, empty, gen, at);
  }

  lemma StartKeepsCancelled(s: State, s': State, id: Id, key: string, empty: bool, gen: nat, at: StartAt)
    requires s.history != [] && StartStep(s, s', id, key, empty, gen, at)
    requires !at.SEmptyPublish? && !at.SFail? && !at.SPublish?
    ensures s.requestCancelled <= s'.requestCancelled && s.trendCancelled <= s'.trendCancelled && s'.quit == s.quit
  {
    hide StoredCache, KeyOwner, PublishStep, FinishStep;
    if at.SDisplay? || at.SCacheLookup? || at.SPersistent? || at.SCacheStore? {
      hide StartStep;
      DisplayFrame(s, s', id, key, empty, gen, at);
    }
  }

  lemma UiStepIsUiOnly(s: State, s': State)
    requires s.history != [] && Inv(s) && UiStep(s, s')
    ensures UiOnly(s, s')
  {
    hide Inv, StartStep, TrendStartStep, ResetStep, BeginStart, BeginTrend, UiOnly;
    match s.ui
    case UiIdle => IdleUi(s, s');
    case Starting(id, key, empty, gen, at) =>
      if at.SEmptyPublish? || at.SFail? {
        SettlingUi(s, s', id, key, empty, gen, at);
      } else if at.SPublish? {
        StartingUi(s, s', id, key, empty, gen, at);
      } else {
        QuietUi(s, s', id, key, empty, gen, at);
      }
    case StartingTrend(job, at) => TrendingUi(s, s', job, at);
    case Resetting(gen, at) => ResettingUi(s, s', gen, at);
  }

  lemma IdleUi(s: State, s': State)
    requires s.history != [] && Inv(s) && s.ui == UiIdle && UiStep(s, s')
    ensures UiOnly(s, s')
  {
    hide Inv, BuildScreenerCacheKey, Above;
  }

  lemma TrendingUi(s: State, s': State, job: Job, at: TrendStartAt)
    requires s.history != [] && Inv(s) && TrendStartStep(s, s', job, at)
    ensures UiOnly(s, s')
  {
    hide Inv, Above;
    TrendStartFrame(s, s', job, at);
  }

  lemma UiKeepsRows(s: State, s': State)
    requires RowsInv(s) && UiOnly(s, s') && Inv(s')
    ensures RowsInv(s')
  {
    hide Inv, Replaces, Displays;
    if s'.history != s.history {
      var snap :| s'.history == s.history + [Entry(snap, Ui)] && Above(s, snap.gen) && Displays(snap);
      assert s'.Current() == snap;
      assert forall i :: 0 <= i < |s.history| ==> s'.history[i] == s.history[i];
    }
  }

  // ---------------------------------------------------------------- the worker

  /** A snapshot added by the worker. */
  lemma Appended(s: State, s': State, snap: Snapshot)
    requires HistoryHasRows(s) && s.history != [] && s'.history == s.history + [Entry(snap, Worker)]
    requires Replaces(s.Current(), snap)
    ensures HistoryHasRows(s')
  {
    hide Replaces, Displays;
    assert forall i :: 0 <= i < |s.history| ==> s'.history[i] == s.history[i];
  }

  lemma PublishKeepsItems(s: State, t: State, p: Publish, gen: nat, id: Id, r: Progress<Publish>)
    requires s.history != [] && PublishStep(s, t, p, gen, id, Worker, r) && r.Going?
    ensures r.next.items == p.items
  {
  }

  lemma SameHistory(s: State, s': State)
    requires HistoryHasRows(s) && s'.history == s.history
    ensures HistoryHasRows(s')
  {
  }

  lemma ProgressKeepsRows(s: State, s': State, job: Job, at: FetchAt)
    requires RowsInv(s) && s.worker == Fetching(job, at) && at.ProgressPublish? && FetchStep(s, s', job, at)
    ensures s'.history != [] && s'.Current().gen == s.Current().gen
    ensures HistoryHasRows(s') && WorkerUpToDate(s')
  {
    assert GoodFetchAt(s, at, job.gen, job.id) && job.gen <= s.Current().gen && s.genId[job.gen] == job.id;
    hide Inv, PublishStep, GoodPublish, HistoryHasRows, Covers;
    var t, r :| PublishStep(s, t, at.publish, job.gen, job.id, Worker, r)
                && s' == t.(worker := Fetching(job, if r.Going? then ProgressPublish(r.next) else Source));
    PublishMoves(s, t, at.publish, job.gen, job.id, Worker, r);
    if r == Done(true) {
      Appended(s, s', Snapshot(job.gen, job.id, at.publish.load, at.publish.items));
    } else {
      SameHistory(s, s');
      if r.Going? {
        PublishKeepsItems(s, t, at.publish, job.gen, job.id, r);
      }
    }
  }

  lemma FinalKeepsRows(s: State, s': State, job: Job, at: FetchAt)
    requires RowsInv(s) && s.worker == Fetching(job, at) && at.FinalPublish? && FetchStep(s, s', job, at)
    ensures s'.history != [] && s'.Current().gen == s.Current().gen
    ensures HistoryHasRows(s') && WorkerUpToDate(s')
  {
    assert GoodFetchAt(s, at, job.gen, job.id) && job.gen <= s.Current().gen && s.genId[job.gen] == job.id;
    hide Inv, FetchStep, PublishStep, GoodPublish, HistoryHasRows, Covers;
    var t, r := FinalStepIs(s, s', job, at);
    PublishMoves(s, t, at.publish, job.gen, job.id, Worker, r);
    if r == Done(true) {
      Appended(s, s', Snapshot(job.gen, job.id, at.publish.load, at.publish.items));
    } else {
      SameHistory(s, s');
      if r.Going? {
        PublishKeepsItems(s, t, at.publish, job.gen, job.id, r);
      }
    }
  }

  lemma FinishStaysUpToDate(s: State, t: State, f: Finish, gen: nat, id: Id, r: Progress<Finish>)
    requires s.history != [] && FinishUpToDate(s, f) && GoodFinish(s, f, gen, id)
    requires FinishStep(s, t, f, gen, id, Worker, r) && r.Going? && t == s
    ensures FinishUpToDate(s, r.next)
  {
    if f.FPublish? {
      hide PublishStep;
      var q :| PublishStep(s, t, f.publish, gen, id, Worker, q)
               && r == (if q.Going? then Going(FPublish(q.next)) else Done(q.ok));
      PublishKeepsItems(s, t, f.publish, gen, id, q);
    }
  }

  lemma FailingKeepsRows(s: State, s': State, job: Job, at: FetchAt)
    requires RowsInv(s) && s.worker == Fetching(job, at) && at.Failing? && FetchStep(s, s', job, at)
    ensures s'.history != [] && s'.Current().gen == s.Current().gen
    ensures HistoryHasRows(s') && WorkerUpToDate(s')
  {
    assert GoodFinish(s, at.finish, job.gen, job.id) && job.gen <= s.Current().gen && s.genId[job.gen] == job.id;
    hide Inv, FetchStep, FinishStep, GoodFinish, HistoryHasRows;
    var t, r := FailingStepIs(s, s', job, at);
    FinishMoves(s, t, at.finish, job.gen, job.id, Worker, r);
    if r == Done(true) {
      var p := at.finish.publish;
      Appended(s, s', Snapshot(job.gen, job.id, p.load, p.items));
    } else {
      SameHistory(s, s');
      if r.Going? && job.gen == s.Current().gen {
        FinishStaysUpToDate(s, t, at.finish, job.gen, job.id, r);
      }
    }
  }

  /** Stages in which nothing is about to be stored. */
  predicate Unready(at: FetchAt) {
    && !at.ProgressPublish? && !at.FinalPublish? && !at.StoreToken? && !at.StoreQuit? && !at.StoreRows?
    && (at.Failing? ==> at.finish == FLoad)
  }

  lemma EarlyIsUnready(s: State, s': State, job: Job, at: FetchAt)
    requires s.history != [] && FetchStep(s, s', job, at)
    requires || at.Source? || at.ProgressToken? || at.ProgressQuit? || at.ResultToken? || at.ResultQuit?
             || at.TrendExchange? || at.TrendCancel?
    ensures s'.worker.Fetching? ==> Unready(s'.worker.fetch)
  {
    hide StoredCache, PublishStep, FinishStep, Cancel;
    var cancelled := job.gen in s.requestCancelled;
    match at
    case Source => SourceLeads(s, s', job);
    case ProgressToken(rows) =>
      var next := if cancelled then Source else ProgressQuit(rows);
      assert s' == s.(worker := Fetching(job, next));
    case ProgressQuit(rows) =>
      var next := if s.quit then Source else ProgressLoad(rows);
      assert s' == s.(worker := Fetching(job, next));
    case ResultToken(result) =>
      assert s' == s.(worker := if cancelled then JobDone else Fetching(job, ResultQuit(result)));
    case ResultQuit(result) =>
      var next := if result.None? then Failing(FLoad) else TrendExchange(result.value);
      assert s' == s.(worker := if s.quit then JobDone else Fetching(job, next));
    case TrendExchange(rows) => assert s'.worker == Fetching(job, TrendCancel(rows, s.trendSlot));
    case TrendCancel(rows, _) => assert s'.worker == Fetching(job, MergeLoad(rows));
  }

  lemma SourceLeads(s: State, s': State, job: Job)
    requires s.history != [] && FetchStep(s, s', job, Source)
    ensures || s' == s.(worker := Fetching(job, ProgressToken(Rows(Reported(job.gen), {job.id}, {}))))
            || s' == s.(worker := Fetching(job, ResultToken(Some(Rows(Returned(job.gen), {job.id}, {})))))
            || s' == s.(worker := Fetching(job, ResultToken(None)))
  {
  }

  /** Loading the snapshot for a merge takes in what it shows. */
  lemma MergeTakesIn(s: State, s': State, job: Job, at: FetchAt)
    requires s.history != [] && FetchStep(s, s', job, at) && (at.MergeLoad? || at.ProgressLoad?)
    requires s.Current().gen == job.gen && s.Current().id == job.id
    ensures s'.history == s.history && s'.worker.Fetching? && UpToDate(s', s'.worker.fetch)
  {
    hide StoredCache, PublishStep, FinishStep;
    if at.MergeLoad? {
      MergeFrame(s, s', job, at);
      var shown := s.Current().items;
      var merged := if shown.Some? then at.rows.FilledFrom(shown.value) else at.rows;
      assert s'.worker == Fetching(job, StoreToken(merged));
    } else {
      ProgressTakesIn(s, s', job, at);
    }
  }

  lemma ProgressTakesIn(s: State, s': State, job: Job, at: FetchAt)
    requires s.history != [] && FetchStep(s, s', job, at) && at.ProgressLoad?
    requires s.Current().gen == job.gen && s.Current().id == job.id
    ensures s'.history == s.history && s'.worker.Fetching? && UpToDate(s', s'.worker.fetch)
  {
    hide StoredCache, PublishStep, FinishStep;
    var shown := s.Current().items;
    if shown.Some? {
      var p := Publish(Refreshing, Some(at.rows.FilledFrom(shown.value)), PLoad);
      assert s' == s.(worker := Fetching(job, ProgressPublish(p)));
    } else {
      var p := Publish(Refreshing, Some(at.rows), PLoad);
      assert s' == s.(worker := Fetching(job, Source)) || s' == s.(worker := Fetching(job, ProgressPublish(p)));
    }
  }

  lemma StoringStaysUpToDate(s: State, s': State, job: Job, at: FetchAt)
    requires s.history != [] && FetchStep(s, s', job, at) && UpToDate(s, at)
    requires at.StoreToken? || at.StoreQuit? || at.StoreRows?
    ensures s'.history == s.history && (s'.worker.Fetching? ==> UpToDate(s', s'.worker.fetch))
  {
    hide PublishStep, FinishStep, StoredCache, Covers;
    match at
    case StoreToken(rows) =>
      assert s' == s.(worker := if job.gen in s.requestCancelled then JobDone else Fetching(job, StoreQuit(rows)));
    case StoreQuit(rows) =>
      assert s' == s.(worker := if s.quit then JobDone else Fetching(job, StoreRows(rows)));
    case StoreRows(rows) =>
      var cache :| StoredCache(s.cache, cache, job.key, rows)
                   && s' == s.(cache := cache,
                               worker := Fetching(job, FinalPublish(Publish(Ready, Some(rows), PLoad))));
  }

  lemma CurrentId(s: State, job: Job)
    requires s.history != [] && Inv(s) && s.worker.Fetching? && s.worker.job == job && job.gen == s.Current().gen
    ensures job.id == s.Current().id
  {
    CurrentFacts(s);
  }

  lemma QuietKeepsRows(s: State, s': State, job: Job, at: FetchAt)
    requires RowsInv(s) && s.worker == Fetching(job, at) && FetchStep(s, s', job, at)
    requires !at.ProgressPublish? && !at.FinalPublish? && !at.Failing?
    ensures s'.history == s.history && WorkerUpToDate(s')
  {
    hide Inv, FetchStep, HistoryHasRows, UpToDate;
    FetchFrame(s, s', job, at);
    if at.MergeLoad? || at.ProgressLoad? {
      if job.gen == s.Current().gen {
        CurrentId(s, job);
        MergeTakesIn(s, s', job, at);
      }
    } else if at.StoreToken? || at.StoreQuit? || at.StoreRows? {
      if job.gen == s.Current().gen {
        StoringStaysUpToDate(s, s', job, at);
      }
    } else {
      EarlyIsUnready(s, s', job, at);
      if s'.worker.Fetching? {
        UnreadyIsUpToDate(s', s'.worker.fetch);
      }
    }
  }

  lemma UnreadyIsUpToDate(s: State, at: FetchAt)
    requires s.history != [] && Unready(at)
    ensures UpToDate(s, at)
  {
  }

  lemma FetchKeepsRows(s: State, s': State, job: Job, at: FetchAt)
    requires RowsInv(s) && s.worker == Fetching(job, at) && FetchStep(s, s', job, at)
    ensures s'.history != [] && s'.Current().gen == s.Current().gen
    ensures HistoryHasRows(s') && WorkerUpToDate(s')
  {
    hide Inv, FetchStep, HistoryHasRows, UpToDate;
    if at.ProgressPublish? {
      ProgressKeepsRows(s, s', job, at);
    } else if at.FinalPublish? {
      FinalKeepsRows(s, s', job, at);
    } else if at.Failing? {
      FailingKeepsRows(s, s', job, at);
    } else {
      QuietKeepsRows(s, s', job, at);
      SameHistory(s, s');
    }
  }

  lemma CasKeepsRows(s: State, s': State, job: Job, at: TrendAt)
    requires RowsInv(s) && s.worker == Trending(job, at) && at.PhaseCas? && TrendStep(s, s', job, at)
    ensures s'.history != [] && s'.Current().gen == s.Current().gen
    ensures HistoryHasRows(s') && !s'.worker.Fetching?
  {
    assert SawReady(s, at.cur, job.gen, job.id);
    hide Inv, HistoryHasRows;
    if at.cur == s.Last() && s.Current().items.Some? {
      var rows := s.Current().items.value.FilledFrom(job.rows);
      assert s' == s.Published(Snapshot(job.gen, job.id, Ready, Some(rows)), Worker)
                    .(worker := Trending(job, PhaseCache(at.final, rows)));
      Appended(s, s', Snapshot(job.gen, job.id, Ready, Some(rows)));
    } else {
      assert s' == s.(worker := Trending(job, PhaseLoad(at.final)));
      SameHistory(s, s');
    }
  }

  lemma TrendKeepsRows(s: State, s': State, job: Job, at: TrendAt)
    requires RowsInv(s) && s.worker == Trending(job, at) && TrendStep(s, s', job, at)
    ensures s'.history != [] && s'.Current().gen == s.Current().gen
    ensures HistoryHasRows(s') && !s'.worker.Fetching?
  {
    hide Inv, HistoryHasRows, TrendStep;
    if at.PhaseCas? {
      CasKeepsRows(s, s', job, at);
    } else {
      TrendFrame(s, s', job, at);
      SameHistory(s, s');
    }
  }

  lemma AfreshIsUpToDate(s: State)
    requires s.history != [] && (s.worker.Fetching? ==> Unready(s.worker.fetch))
    ensures WorkerUpToDate(s)
  {
  }

  lemma WorkerKeepsRows(s: State, s': State)
    requires RowsInv(s) && WorkerStep(s, s')
    ensures RowsInv(s') && s'.Current().gen == s.Current().gen
  {
    WorkerKeepsInv(s, s');
    hide Inv, FetchStep, TrendStep, HistoryHasRows, WorkerUpToDate;
    match s.worker
    case Fetching(job, at) =>
      if FetchStep(s, s', job, at) {
        FetchKeepsRows(s, s', job, at);
      } else {
        SameHistory(s, s');
        AfreshIsUpToDate(s');
      }
    case Trending(job, at) =>
      if TrendStep(s, s', job, at) {
        TrendKeepsRows(s, s', job, at);
      } else {
        SameHistory(s, s');
      }
      AfreshIsUpToDate(s');
    case _ =>
      SameHistory(s, s');
      AfreshIsUpToDate(s');
  }

  lemma StepKeepsRows(s: State, s': State)
    requires RowsInv(s) && Step(s, s')
    ensures RowsInv(s')
  {
    hide Inv, UiStep, WorkerStep, HistoryHasRows, WorkerUpToDate;
    if UiStep(s, s') {
      UiStepIsUiOnly(s, s');
      UiKeepsInv(s, s');
      UiKeepsRows(s, s');
    } else if WorkerStep(s, s') {
      WorkerKeepsRows(s, s');
    } else {
      EnvironmentKeepsInv(s, s');
      SameHistory(s, s');
      EnvironmentKeepsWorker(s, s');
    }
  }

  lemma EnvironmentKeepsWorker(s: State, s': State)
    requires s.history != [] && WorkerUpToDate(s) && EnvironmentStep(s, s')
    ensures s'.history == s.history && WorkerUpToDate(s')
  {
  }

  // ---------------------------------------------------------------- runs

  lemma {:induction false} RunKeepsRows(run: seq<State>, i: nat)
    requires IsRun(run) && i < |run|
    ensures RowsInv(run[i])
    decreases i
  {
    hide Inv, Step;
    if i == 0 {
      InitInv(run[0]);
    } else {
      RunKeepsRows(run, i - 1);
      assert Linked(run, i - 1);
      StepKeepsRows(run[i - 1], run[i]);
    }
  }

  /** Every snapshot the worker ever published as Ready or Refreshing has rows, every one published as Failed has
      none, and it published no others; where there were rows before, it kept rows with those merged in. The UI
      thread shows Refreshing exactly with rows and Loading exactly without. */
  lemma SnapshotsHaveRows(run: seq<State>, i: nat, k: nat)
    requires IsRun(run) && i < |run| && k < |run[i].history|
    ensures run[i].history[k].author == Worker && k > 0 ==>
              Replaces(run[i].history[k - 1].snap, run[i].history[k].snap)
    ensures run[i].history[k].author == Ui ==> Displays(run[i].history[k].snap)
  {
    hide Init, Step, Inv, Replaces, Displays;
    RunKeepsRows(run, i);
  }

  /** A trend phase that publishes keeps the list shown and takes in the enriched rows. */
  lemma TrendTakesIn(run: seq<State>, i: nat)
    requires IsRun(run) && i + 1 < |run| && run[i].worker.Trending? && |run[i].history| < |run[i + 1].history|
    requires run[i + 1].history[|run[i].history|].author == Worker
    ensures run[i].history != []
    ensures var before, after, job := run[i].Current(), run[i + 1].history[|run[i].history|].snap, run[i].worker.job;
            && before.gen == after.gen == job.gen && before.id == after.id == job.id
            && before.load == after.load == Ready && before.items.Some? && after.items.Some? && job.TrendJob?
            && after.items.value.origin == before.items.value.origin
            && Covers(after.items, before.items) && Covers(after.items, Some(job.rows))
  {
    hide Init, Inv, UiStep, HistoryHasRows;
    RunKeepsRows(run, i);
    assert Linked(run, i);
    var s, s' := run[i], run[i + 1];
    var job, at := s.worker.job, s.worker.trend;
    if UiStep(s, s') {
      UiStepIsUiOnly(s, s');
    } else if WorkerStep(s, s') {
      TrendIsGood(s, job, at);
      TrendGrows(s, s', job, at);
    }
  }

  lemma TrendIsGood(s: State, job: Job, at: TrendAt)
    requires s.history != [] && Inv(s) && s.worker == Trending(job, at)
    ensures at.PhaseCas? ==> SawReady(s, at.cur, job.gen, job.id)
  {
  }

  lemma TrendGrows(s: State, s': State, job: Job, at: TrendAt)
    requires s.history != [] && s.worker == Trending(job, at) && WorkerStep(s, s')
    requires |s.history| < |s'.history| && (at.PhaseCas? ==> SawReady(s, at.cur, job.gen, job.id))
    ensures var before, after := s.Current(), s'.history[|s.history|].snap;
            && before.gen == after.gen == job.gen && before.id == after.id == job.id
            && before.load == after.load == Ready && before.items.Some? && after.items.Some? && job.TrendJob?
            && after.items.value.origin == before.items.value.origin
            && Covers(after.items, before.items) && Covers(after.items, Some(job.rows))
  {
    if !at.PhaseCas? {
      hide TrendStep;
      if TrendStep(s, s', job, at) {
        TrendFrame(s, s', job, at);
      }
    } else {
      hide Stale, StoredCache;
      var rows := s.Current().items.value.FilledFrom(job.rows);
      assert s'.history == s.history + [Entry(Snapshot(job.gen, job.id, Ready, Some(rows)), Worker)];
    }
  }

  /** A fetch past its source, holding the rows that were returned to it. */
  predicate HoldsResult(at: FetchAt, gen: nat) {
    match at
    case ResultToken(result) => result.Some? && result.value.origin == Returned(gen)
    case ResultQuit(result) => result.Some? && result.value.origin == Returned(gen)
    case TrendExchange(rows) => rows.origin == Returned(gen)
    case TrendCancel(rows, _) => rows.origin == Returned(gen)
    case MergeLoad(rows) => rows.origin == Returned(gen)
    case StoreToken(rows) => rows.origin == Returned(gen)
    case StoreQuit(rows) => rows.origin == Returned(gen)
    case StoreRows(rows) => rows.origin == Returned(gen)
    case FinalPublish(p) => p.load == Ready && p.items.Some? && p.items.value.origin == Returned(gen)
    case _ => false
  }

  /** Why a fetch with a result may end without showing it: cancelled, quitting or overtaken. */
  predicate GivenUp(s: State, gen: nat)
    requires s.history != []
  {
    gen in s.requestCancelled || s.quit || s.Current().gen > gen
  }

  predicate StillHolds(s: State, job: Job) {
    s.worker.Fetching? && s.worker.job == job && HoldsResult(s.worker.fetch, job.gen)
  }

  lemma HeldThroughMerge(s: State, s': State, job: Job, at: FetchAt)
    requires s.history != [] && FetchStep(s, s', job, at) && HoldsResult(at, job.gen)
    requires at.MergeLoad? || at.StoreToken? || at.StoreQuit? || at.StoreRows?
    ensures s'.worker == JobDone || StillHolds(s', job)
    ensures s'.worker == JobDone ==> job.gen in s.requestCancelled || s.quit
  {
    hide StoredCache, PublishStep, FinishStep;
    match at
    case MergeLoad(rows) =>
      var shown := s.Current();
      var joins := shown.gen == job.gen && shown.id == job.id && shown.items.Some?;
      var merged := if joins then rows.FilledFrom(shown.items.value) else rows;
      assert s' == s.(worker := Fetching(job, StoreToken(merged)));
    case StoreToken(rows) =>
      assert s' == s.(worker := if job.gen in s.requestCancelled then JobDone else Fetching(job, StoreQuit(rows)));
    case StoreQuit(rows) =>
      assert s' == s.(worker := if s.quit then JobDone else Fetching(job, StoreRows(rows)));
    case StoreRows(rows) =>
      var cache :| StoredCache(s.cache, cache, job.key, rows)
                   && s' == s.(cache := cache,
                               worker := Fetching(job, FinalPublish(Publish(Ready, Some(rows), PLoad))));
  }

  lemma HeldToMerge(s: State, s': State, job: Job, at: FetchAt)
    requires s.history != [] && FetchStep(s, s', job, at) && HoldsResult(at, job.gen)
    requires at.ResultToken? || at.ResultQuit? || at.TrendExchange? || at.TrendCancel?
    ensures s'.worker == JobDone || StillHolds(s', job)
    ensures s'.worker == JobDone ==> job.gen in s.requestCancelled || s.quit
  {
    hide StoredCache, PublishStep, FinishStep;
  }

  /** What a fetch that holds its result comes to. */
  predicate Shown(s: State, job: Job) {
    && s.history != [] && s.history[|s.history| - 1].author == Worker
    && s.Current().gen == job.gen && s.Current().id == job.id && s.Current().load == Ready
    && s.Current().items.Some? && s.Current().items.value.origin == Returned(job.gen)
  }

  lemma HeldToTheEnd(s: State, s': State, job: Job, at: FetchAt)
    requires s.history != [] && Inv(s) && s.worker == Fetching(job, at) && FetchStep(s, s', job, at)
    requires HoldsResult(at, job.gen) && at.FinalPublish?
    ensures s'.worker == JobDone || StillHolds(s', job)
    ensures s'.worker == JobDone ==> GivenUp(s, job.gen) || Shown(s', job)
  {
    assert GoodFetchAt(s, at, job.gen, job.id) && job.gen <= s.Current().gen && s.genId[job.gen] == job.id;
    hide Inv, FetchStep, PublishStep, GoodPublish;
    var t, r := FinalStepIs(s, s', job, at);
    PublishMoves(s, t, at.publish, job.gen, job.id, Worker, r);
  }

  lemma ResultIsKept(s: State, s': State, job: Job, at: FetchAt)
    requires s.history != [] && Inv(s) && s.worker == Fetching(job, at) && HoldsResult(at, job.gen)
    requires WorkerStep(s, s') && !ThrowStep(s, s', job, at)
    ensures s'.worker == JobDone || StillHolds(s', job)
    ensures s'.worker == JobDone ==> GivenUp(s, job.gen) || Shown(s', job)
  {
    hide FetchStep, HoldsResult, Shown;
    ResultStages(at, job.gen);
    if at.FinalPublish? {
      HeldToTheEnd(s, s', job, at);
    } else if at.MergeLoad? || at.StoreToken? || at.StoreQuit? || at.StoreRows? {
      HeldThroughMerge(s, s', job, at);
    } else {
      HeldToMerge(s, s', job, at);
    }
  }

  lemma ResultStages(at: FetchAt, gen: nat)
    requires HoldsResult(at, gen)
    ensures || at.ResultToken? || at.ResultQuit? || at.TrendExchange? || at.TrendCancel?
            || at.MergeLoad? || at.StoreToken? || at.StoreQuit? || at.StoreRows? || at.FinalPublish?
  {
  }

  /** The job stays the worker's through this step, or ends in it, without an exception. */
  ghost predicate Undisturbed(run: seq<State>, k: nat, job: Job)
    requires k + 1 < |run|
  {
    && run[k].worker.Fetching? && run[k].worker.job == job
    && !ThrowStep(run[k], run[k + 1], job, run[k].worker.fetch)
  }

  lemma {:induction false} ResultStaysHeld(run: seq<State>, i: nat, k: nat, job: Job, rows: Rows)
    requires IsRun(run) && i <= k < |run| - 1 && run[i].worker == Fetching(job, ResultToken(Some(rows)))
    requires rows.origin == Returned(job.gen) && forall m :: i <= m <= k ==> Undisturbed(run, m, job)
    ensures StillHolds(run[k], job)
    decreases k
  {
    hide Init, Inv, UiStep, WorkerStep, ThrowStep;
    if i < k {
      ResultStaysHeld(run, i, k - 1, job, rows);
      RunKeepsRows(run, k - 1);
      assert Linked(run, k - 1) && Undisturbed(run, k - 1, job) && Undisturbed(run, k, job);
      if UiStep(run[k - 1], run[k]) {
        UiStepIsUiOnly(run[k - 1], run[k]);
      } else if WorkerStep(run[k - 1], run[k]) {
        ResultIsKept(run[k - 1], run[k], job, run[k - 1].worker.fetch);
      }
    } else {
      assert Undisturbed(run, i, job);
    }
  }

  lemma SourceReturns(s: State, s': State, job: Job, rows: Rows)
    requires s.history != [] && Inv(s) && Step(s, s') && s.worker == Fetching(job, Source)
    requires s'.worker == Fetching(job, ResultToken(Some(rows)))
    ensures rows.origin == Returned(job.gen)
  {
    hide Inv, UiStep, FetchStep;
    if UiStep(s, s') {
      UiStepIsUiOnly(s, s');
    } else if FetchStep(s, s', job, Source) {
      SourceLeads(s, s', job);
    }
  }

  /** A fetch whose source returns rows in step i, and which throws no exception after that, ends with a Ready
      snapshot of its generation that holds those rows, unless it was cancelled, the program is quitting or a
      newer generation is shown. */
  lemma FetchedRowsAreShown(run: seq<State>, i: nat, j: nat, job: Job, rows: Rows)
    requires IsRun(run) && i + 1 < j < |run| && run[i].worker == Fetching(job, Source)
    requires run[i + 1].worker == Fetching(job, ResultToken(Some(rows)))
    requires (forall m :: i < m < j ==> Undisturbed(run, m, job)) && !run[j].worker.Fetching?
    ensures run[j - 1].history != [] && (GivenUp(run[j - 1], job.gen) || Shown(run[j], job))
  {
    hide Init, Inv, UiStep, WorkerStep, ThrowStep, Shown;
    RunKeepsRows(run, i);
    assert Linked(run, i);
    SourceReturns(run[i], run[i + 1], job, rows);
    ResultStaysHeld(run, i + 1, j - 1, job, rows);
    RunKeepsRows(run, j - 1);
    assert Linked(run, j - 1) && Undisturbed(run, j - 1, job);
    if UiStep(run[j - 1], run[j]) {
      UiStepIsUiOnly(run[j - 1], run[j]);
    } else if WorkerStep(run[j - 1], run[j]) {
      ResultIsKept(run[j - 1], run[j], job, run[j - 1].worker.fetch);
    }
  }
}
