/** Every step of either thread, of a quit and of a shutdown keeps the screener protocol's invariant. */
module ScreenerInvariant {
  import opened Options
  import opened ScreenerProtocol

  /** Appending a snapshot of the current generation by either thread, or of a newer one by the UI. */
  lemma AppendGood(s: State, snap: Snapshot, author: Author)
    requires GoodHistory(s)
    requires snap.gen >= s.Current().gen
    requires author == Worker ==> snap.gen == s.Current().gen && snap.id == s.Current().id
    requires From(snap.items, snap.id) && snap.gen in s.genId && s.genId[snap.gen] == snap.id
    ensures GoodHistory(s.Published(snap, author)) && s.Published(snap, author).Current() == snap
  {
    hide From;
  }

  lemma EnvironmentKeepsInv(s: State, s': State)
    requires Inv(s) && EnvironmentStep(s, s')
    ensures Inv(s')
  {
    hide GoodHistory, GoodCache, GoodFetchAt, GoodTrendAt, GoodFinish, GoodPublish, KeyOwner, From;
    KeptHistory(s, s');
    SamePromises(s, s');
  }

  lemma KeptHistory(s: State, s': State)
    requires GoodHistory(s) && s'.history == s.history && s'.genId == s.genId
    ensures GoodHistory(s')
  {
  }

  lemma TakeKeepsInv(s: State, s': State)
    requires Inv(s) && s.worker.WaitingForJob? && TakeStep(s, s')
    ensures Inv(s')
  {
    KeptHistory(s, s');
    hide GoodHistory, GoodCache, From, KeyOwner, GoodPublish, GoodFinish;
    SamePromises(s, s');
  }

  /** Steps that touch only trend tokens, the cache and one thread's counter. */
  predicate SameButWorker(s: State, s': State) {
    s' == s.(worker := s'.worker, trendSlot := s'.trendSlot, trendCancelled := s'.trendCancelled, cache := s'.cache)
  }

  predicate SameButUi(s: State, s': State) {
    s' == s.(ui := s'.ui, trendSlot := s'.trendSlot, trendCancelled := s'.trendCancelled, cache := s'.cache,
             nextTrend := s'.nextTrend)
  }

  predicate OnlyUiAndCache(s: State, s': State) {
    s' == s.(ui := s'.ui, cache := s'.cache)
  }

  lemma FetchMoves(s: State, s': State, job: Job, at: FetchAt)
    requires Inv(s) && s.worker.Fetching? && s.worker.job == job
    requires SameButWorker(s, s') && GoodCache(s'.cache)
    requires s'.worker == Fetching(job, at) && GoodFetchAt(s, at, job.gen, job.id)
    ensures Inv(s')
  {
    hide GoodHistory, GoodCache, From;
    KeptHistory(s, s');
  }

  lemma TrendMoves(s: State, s': State, job: Job, at: TrendAt)
    requires Inv(s) && s.worker.Trending? && s.worker.job == job
    requires SameButWorker(s, s') && GoodCache(s'.cache)
    requires s'.worker == Trending(job, at) && GoodTrendAt(s, at, job.gen, job.id)
    ensures Inv(s')
  {
    hide GoodHistory, GoodCache, From;
    KeptHistory(s, s');
  }

  /** Why a fetch may end without settling the snapshot it was started for. */
  predicate MayEnd(s: State, job: Job)
    requires s.history != []
  {
    job.gen in s.requestCancelled || s.quit || s.Current().gen > job.gen || !IsLoading(s.Current().load)
  }

  lemma WorkerEnds(s: State, s': State, job: Job)
    requires Inv(s) && (s.worker.Fetching? || s.worker.Trending?) && s.worker.job == job
    requires s.worker.Fetching? ==> MayEnd(s, job)
    requires SameButWorker(s, s') && GoodCache(s'.cache) && s'.worker == JobDone
    ensures Inv(s')
  {
    hide GoodHistory, GoodCache, From;
    KeptHistory(s, s');
  }

  lemma StoredCacheGood(cache: map<string, Rows>, cache': map<string, Rows>, key: string, rows: Rows)
    requires GoodCache(cache) && StoredCache(cache, cache', key, rows) && rows.owners <= {KeyOwner(key)}
    ensures GoodCache(cache')
  {
    hide KeyOwner;
  }

  /** The publish loop, when it does not store. */
  lemma PublishMoves(s: State, s': State, p: Publish, gen: nat, id: Id, author: Author, r: Progress<Publish>)
    requires Inv(s) && GoodPublish(s, p, gen, id) && gen <= s.Current().gen && gen in s.genId && s.genId[gen] == id
    requires PublishStep(s, s', p, gen, id, author, r)
    ensures r.Going? ==> s' == s && GoodPublish(s, r.next, gen, id) && r.next == p.(at := r.next.at)
    ensures r == Done(false) ==> s' == s && (gen in s.requestCancelled || s.quit || s.Current().gen > gen)
    ensures r == Done(true) ==> gen == s.Current().gen && id == s.Current().id
                                && s' == s.Published(Snapshot(gen, id, p.load, p.items), author)
  {
    hide GoodCache, GoodWorker, GoodUi, GoodLoading, From;
    if p.at.PQuit? && !s.Matches(p.at.cur, gen, id) {
      assert s.history[p.at.cur].snap.gen <= s.Current().gen;
    }
  }

  /** A published snapshot that keeps the generation keeps every promise about it. */
  lemma KeptPromises(s: State, t: State, snap: Snapshot, author: Author)
    requires GoodHistory(s) && snap.gen >= s.Current().gen && t.history == s.Published(snap, author).history
    requires t.genId == s.genId
    ensures forall p, gen, id :: GoodPublish(s, p, gen, id) ==> GoodPublish(t, p, gen, id)
    ensures forall f, gen, id :: GoodFinish(s, f, gen, id) ==> GoodFinish(t, f, gen, id)
    ensures forall at, gen, id :: GoodFetchAt(s, at, gen, id) ==> GoodFetchAt(t, at, gen, id)
    ensures forall at, gen, id :: GoodTrendAt(s, at, gen, id) ==> GoodTrendAt(t, at, gen, id)
    ensures forall at, gen, id :: GoodStartAt(s, at, gen, id) && (s.stopping ==> t.stopping) ==>
        GoodStartAt(t, at, gen, id)
    ensures forall job :: GoodJob(s, job) ==> GoodJob(t, job)
  {
    hide GoodHistory, KeyOwner, From;
  }

  /** The worker stores a snapshot of the displayed generation. */
  lemma WorkerPublishes(s: State, s': State, snap: Snapshot, job: Job)
    requires Inv(s) && (s.worker.Fetching? || s.worker.Trending?) && s.worker.job == job
    requires snap.gen == job.gen == s.Current().gen && snap.id == job.id == s.Current().id
    requires From(snap.items, snap.id)
    requires s' == s.Published(snap, Worker).(worker := s'.worker)
    requires s'.worker == JobDone || (s'.worker.Fetching? && s.worker.Fetching? && s'.worker.job == job)
             || (s'.worker.Trending? && s.worker.Trending? && s'.worker.job == job)
    requires GoodWorker(s')
    requires IsLoading(snap.load) ==> s'.worker.Fetching?
    requires !IsLoading(snap.load) && s.worker.Fetching? ==> s'.worker == JobDone
    requires s.worker.Trending? ==> !IsLoading(snap.load) && !IsLoading(s.Current().load)
    ensures Inv(s')
  {
    hide GoodHistory, GoodCache, From, KeyOwner, GoodFetchAt, GoodTrendAt, GoodWorker, GoodStartAt, GoodJob;
    assert From(snap.items, snap.id) && snap.gen in s.genId && s.genId[snap.gen] == snap.id by {
      WorkerJobGood(s, job);
    }
    AppendGood(s, snap, Worker);
    KeptHistory(s.Published(snap, Worker), s');
    KeptPromises(s, s', snap, Worker);
    assert GoodHistory(s') && s'.Current() == snap;
  }

  lemma WorkerJobGood(s: State, job: Job)
    requires Inv(s) && (s.worker.Fetching? || s.worker.Trending?) && s.worker.job == job
    ensures GoodJob(s, job)
  {
  }

  lemma WorkerFacts(s: State)
    requires Inv(s)
    ensures s.history != [] && GoodWorker(s) && GoodCache(s.cache)
  {
  }

  lemma CurrentFacts(s: State)
    requires Inv(s)
    ensures From(s.Current().items, s.Current().id)
    ensures s.Current().gen in s.genId && s.genId[s.Current().gen] == s.Current().id
  {
  }

  lemma ProgressKeepsInv(s: State, s': State, job: Job, at: FetchAt)
    requires Inv(s) && s.worker == Fetching(job, at) && FetchStep(s, s', job, at)
    requires at.Source? || at.ProgressToken? || at.ProgressQuit?
    ensures Inv(s')
  {
    hide Inv, GoodCache, GoodPublish, GoodFinish, KeyOwner, GoodTrendAt, PublishStep, FinishStep, StoredCache;
    hide GoodGenerations, GoodLoading, GoodUi;
    WorkerFacts(s);
    CurrentFacts(s);
    if s'.worker == JobDone {
      WorkerEnds(s, s', job);
    } else {
      FetchMoves(s, s', job, s'.worker.fetch);
    }
  }

  lemma ProgressLoadKeepsInv(s: State, s': State, job: Job, at: FetchAt)
    requires Inv(s) && s.worker == Fetching(job, at) && at.ProgressLoad? && FetchStep(s, s', job, at)
    ensures Inv(s')
  {
    WorkerFacts(s);
    CurrentFacts(s);
    hide Inv, GoodCache, GoodFinish, KeyOwner, GoodTrendAt, PublishStep, FinishStep, StoredCache, GoodJob;
    var shown := s.Current();
    if shown.gen != job.gen || shown.id != job.id {
      assert s' == s.(worker := Fetching(job, Source));
    } else if shown.items.Some? {
      var p := Publish(Refreshing, Some(at.rows.FilledFrom(shown.items.value)), PLoad);
      assert s' == s.(worker := Fetching(job, ProgressPublish(p)));
    } else {
      var p := Publish(Refreshing, Some(at.rows), PLoad);
      assert s' == s.(worker := Fetching(job, Source)) || s' == s.(worker := Fetching(job, ProgressPublish(p)));
    }
    FetchMoves(s, s', job, s'.worker.fetch);
  }

  lemma ResultKeepsInv(s: State, s': State, job: Job, at: FetchAt)
    requires Inv(s) && s.worker == Fetching(job, at) && FetchStep(s, s', job, at)
    requires at.ResultToken? || at.ResultQuit?
    ensures Inv(s')
  {
    WorkerFacts(s);
    CurrentFacts(s);
    hide Inv, GoodCache, GoodPublish, GoodFinish, KeyOwner, GoodTrendAt, PublishStep, FinishStep, StoredCache;
    if s'.worker == JobDone {
      WorkerEnds(s, s', job);
    } else {
      FetchMoves(s, s', job, s'.worker.fetch);
    }
  }

  lemma TrendCancelKeepsInv(s: State, s': State, job: Job, at: FetchAt)
    requires Inv(s) && s.worker == Fetching(job, at) && FetchStep(s, s', job, at)
    requires at.TrendExchange? || at.TrendCancel?
    ensures Inv(s')
  {
    hide Inv, GoodCache, GoodPublish, GoodFinish, KeyOwner, GoodTrendAt, PublishStep, FinishStep, StoredCache;
    hide GoodGenerations, GoodLoading, GoodUi;
    WorkerFacts(s);
    CurrentFacts(s);
    if s'.worker == JobDone {
      WorkerEnds(s, s', job);
    } else {
      FetchMoves(s, s', job, s'.worker.fetch);
    }
  }

  lemma MergeKeepsInv(s: State, s': State, job: Job, at: FetchAt)
    requires Inv(s) && s.worker == Fetching(job, at) && FetchStep(s, s', job, at)
    requires at.MergeLoad? || at.StoreToken? || at.StoreQuit?
    ensures Inv(s')
  {
    hide Inv, GoodCache, GoodPublish, GoodFinish, KeyOwner, GoodTrendAt, PublishStep, FinishStep, StoredCache;
    hide GoodGenerations, GoodLoading, GoodUi;
    WorkerFacts(s);
    CurrentFacts(s);
    if s'.worker == JobDone {
      WorkerEnds(s, s', job);
    } else {
      FetchMoves(s, s', job, s'.worker.fetch);
    }
  }

  lemma StoreRowsKeepsInv(s: State, s': State, job: Job, at: FetchAt)
    requires Inv(s) && s.worker == Fetching(job, at) && at.StoreRows? && FetchStep(s, s', job, at)
    ensures Inv(s')
  {
    WorkerFacts(s);
    hide GoodHistory, GoodGenerations, GoodUi, GoodLoading, GoodBusy, StoredCache, GoodCache;
    var cache :| StoredCache(s.cache, cache, job.key, at.rows)
                 && s' == s.(cache := cache,
                             worker := Fetching(job, FinalPublish(Publish(Ready, Some(at.rows), PLoad))));
    StoredCacheGood(s.cache, cache, job.key, at.rows);
    FetchMoves(s, s', job, s'.worker.fetch);
  }

  lemma ProgressPublishKeepsInv(s: State, s': State, job: Job, at: FetchAt)
    requires Inv(s) && s.worker == Fetching(job, at) && at.ProgressPublish? && FetchStep(s, s', job, at)
    ensures Inv(s')
  {
    WorkerFacts(s);
    hide GoodHistory, GoodGenerations, GoodUi, GoodLoading, GoodBusy, GoodPublish, GoodCache;
    var t, r :| PublishStep(s, t, at.publish, job.gen, job.id, Worker, r)
                && s' == t.(worker := Fetching(job, if r.Going? then ProgressPublish(r.next) else Source));
    PublishMoves(s, t, at.publish, job.gen, job.id, Worker, r);
    hide PublishStep;
    if r == Done(true) {
      var snap := Snapshot(job.gen, job.id, at.publish.load, at.publish.items);
      PublishItems(s, at.publish, job.gen, job.id);
      KeptPromises(s, s', snap, Worker);
      WorkerPublishes(s, s', snap, job);
    } else {
      FetchMoves(s, s', job, s'.worker.fetch);
    }
  }

  lemma PublishItems(s: State, p: Publish, gen: nat, id: Id)
    requires GoodPublish(s, p, gen, id)
    ensures From(p.items, id)
  {
  }

  lemma FinalStepIs(s: State, s': State, job: Job, at: FetchAt) returns (t: State, r: Progress<Publish>)
    requires s.history != [] && at.FinalPublish? && FetchStep(s, s', job, at)
    ensures PublishStep(s, t, at.publish, job.gen, job.id, Worker, r)
            && s' == t.(worker := if r.Going? then Fetching(job, FinalPublish(r.next)) else JobDone)
  {
    hide PublishStep;
    t, r :| PublishStep(s, t, at.publish, job.gen, job.id, Worker, r)
            && s' == t.(worker := if r.Going? then Fetching(job, FinalPublish(r.next)) else JobDone);
  }

  lemma FinalPublishKeepsInv(s: State, s': State, job: Job, at: FetchAt)
    requires Inv(s) && s.worker == Fetching(job, at) && at.FinalPublish? && FetchStep(s, s', job, at)
    ensures Inv(s')
  {
    WorkerFacts(s);
    hide GoodHistory, GoodGenerations, GoodUi, GoodLoading, GoodBusy, GoodPublish, GoodCache, PublishStep;
    var t, r := FinalStepIs(s, s', job, at);
    hide FetchStep;
    PublishMoves(s, t, at.publish, job.gen, job.id, Worker, r);
    if r == Done(true) {
      PublishItems(s, at.publish, job.gen, job.id);
      WorkerPublishes(s, s', Snapshot(job.gen, job.id, at.publish.load, at.publish.items), job);
    } else if r.Going? {
      FetchMoves(s, s', job, s'.worker.fetch);
    } else {
      WorkerEnds(s, s', job);
    }
  }

  /** FinishFailedRequest, step by step. */
  lemma FinishMoves(s: State, s': State, f: Finish, gen: nat, id: Id, author: Author, r: Progress<Finish>)
    requires Inv(s) && GoodFinish(s, f, gen, id) && gen <= s.Current().gen && gen in s.genId && s.genId[gen] == id
    requires FinishStep(s, s', f, gen, id, author, r)
    ensures r.Going? ==> s' == s && GoodFinish(s, r.next, gen, id)
    ensures r == Done(false) ==> s' == s && (gen in s.requestCancelled || s.quit || s.Current().gen > gen)
    ensures r == Done(true) ==>
              && gen == s.Current().gen && id == s.Current().id && f.FPublish?
              && (f.publish.load == Ready <==> f.publish.items.Some?)
              && (f.publish.load == Failed <==> f.publish.items.None?)
              && From(f.publish.items, id)
              && s' == s.Published(Snapshot(gen, id, f.publish.load, f.publish.items), author)
  {
    hide GoodCache, GoodWorker, GoodUi, GoodLoading, GoodGenerations, GoodBusy, From, PublishStep;
    match f
    case FPublish(p) =>
      var q :| PublishStep(s, s', p, gen, id, author, q)
               && r == (if q.Going? then Going(FPublish(q.next)) else Done(q.ok));
      PublishMoves(s, s', p, gen, id, author, q);
    case FQuit(cur) =>
      if !s.Matches(cur, gen, id) {
        assert s.history[cur].snap.gen <= s.Current().gen;
      } else {
        assert From(s.history[cur].snap.items, s.history[cur].snap.id);
      }
    case _ =>
  }

  lemma FailingStepIs(s: State, s': State, job: Job, at: FetchAt) returns (t: State, r: Progress<Finish>)
    requires s.history != [] && at.Failing? && FetchStep(s, s', job, at)
    ensures FinishStep(s, t, at.finish, job.gen, job.id, Worker, r)
            && s' == t.(worker := if r.Going? then Fetching(job, Failing(r.next)) else JobDone)
  {
    hide FinishStep;
    t, r :| FinishStep(s, t, at.finish, job.gen, job.id, Worker, r)
            && s' == t.(worker := if r.Going? then Fetching(job, Failing(r.next)) else JobDone);
  }

  lemma FailingKeepsInv(s: State, s': State, job: Job, at: FetchAt)
    requires Inv(s) && s.worker == Fetching(job, at) && at.Failing? && FetchStep(s, s', job, at)
    ensures Inv(s')
  {
    hide Inv, GoodUi, GoodLoading, GoodFinish, GoodCache, FinishStep, FetchStep, KeyOwner, From;
    WorkerFacts(s);
    var t, r := FailingStepIs(s, s', job, at);
    FinishMoves(s, t, at.finish, job.gen, job.id, Worker, r);
    if r == Done(true) {
      var p := at.finish.publish;
      WorkerPublishes(s, s', Snapshot(job.gen, job.id, p.load, p.items), job);
    } else if r.Going? {
      FetchMoves(s, s', job, s'.worker.fetch);
    } else {
      WorkerEnds(s, s', job);
    }
  }

  lemma TrendKeepsInv(s: State, s': State, job: Job, at: TrendAt)
    requires Inv(s) && s.worker == Trending(job, at) && TrendStep(s, s', job, at)
    requires at.Enriching? || at.EndCheck?
    ensures Inv(s')
  {
    WorkerFacts(s);
    hide Inv, GoodCache, Stale, KeyOwner, GoodFetchAt, From;
    if s'.worker == JobDone {
      WorkerEnds(s, s', job);
    } else {
      TrendMoves(s, s', job, s'.worker.trend);
    }
  }

  lemma RetireKeepsInv(s: State, s': State, job: Job, at: TrendAt)
    requires Inv(s) && s.worker == Trending(job, at) && TrendStep(s, s', job, at)
    requires at.Retire? || at.RetireMark?
    ensures Inv(s')
  {
    WorkerFacts(s);
    hide Inv, GoodCache, Stale, KeyOwner, GoodFetchAt, From;
    if s'.worker == JobDone {
      WorkerEnds(s, s', job);
    } else {
      TrendMoves(s, s', job, s'.worker.trend);
    }
  }

  lemma PhaseLoadKeepsInv(s: State, s': State, job: Job, at: TrendAt)
    requires Inv(s) && s.worker == Trending(job, at) && TrendStep(s, s', job, at)
    requires at.PhaseLoad?
    ensures Inv(s')
  {
    WorkerFacts(s);
    hide Inv, GoodCache, Stale, KeyOwner, GoodFetchAt, From;
    if s'.worker == JobDone {
      WorkerEnds(s, s', job);
    } else {
      TrendMoves(s, s', job, s'.worker.trend);
    }
  }

  lemma PhaseCheckKeepsInv(s: State, s': State, job: Job, at: TrendAt)
    requires Inv(s) && s.worker == Trending(job, at) && TrendStep(s, s', job, at)
    requires at.PhaseCheck?
    ensures Inv(s')
  {
    WorkerFacts(s);
    hide Inv, GoodCache, Stale, KeyOwner, GoodFetchAt, From;
    if s'.worker == JobDone {
      WorkerEnds(s, s', job);
    } else {
      TrendMoves(s, s', job, s'.worker.trend);
    }
  }

  lemma PhaseCacheKeepsInv(s: State, s': State, job: Job, at: TrendAt)
    requires Inv(s) && s.worker == Trending(job, at) && at.PhaseCache? && TrendStep(s, s', job, at)
    ensures Inv(s')
  {
    hide GoodHistory, GoodGenerations, GoodUi, GoodLoading, GoodBusy, StoredCache, GoodCache;
    var cache :| StoredCache(s.cache, cache, job.key, at.rows)
                 && s' == s.(cache := cache, worker := Trending(job, if at.final then Retire else Enriching));
    StoredCacheGood(s.cache, cache, job.key, at.rows);
    TrendMoves(s, s', job, s'.worker.trend);
  }

  lemma PhaseCasKeepsInv(s: State, s': State, job: Job, at: TrendAt)
    requires Inv(s) && s.worker == Trending(job, at) && at.PhaseCas? && TrendStep(s, s', job, at)
    ensures Inv(s')
  {
    hide GoodHistory, GoodGenerations, GoodUi, GoodLoading, GoodBusy, GoodCache;
    CurrentFacts(s);
    if at.cur == s.Last() {
      var rows := s.Current().items.value.FilledFrom(job.rows);
      var snap := Snapshot(job.gen, job.id, Ready, Some(rows));
      KeptPromises(s, s', snap, Worker);
      WorkerPublishes(s, s', snap, job);
    } else {
      TrendMoves(s, s', job, s'.worker.trend);
    }
  }

  lemma WorkerKeepsInv(s: State, s': State)
    requires Inv(s) && WorkerStep(s, s')
    ensures Inv(s')
  {
    hide Inv, FetchStep, TrendStep, TakeStep;
    WorkerFacts(s);
    match s.worker
    case WaitingForJob => TakeKeepsInv(s, s');
    case Fetching(job, at) =>
      if ThrowStep(s, s', job, at) {
        ThrowKeepsInv(s, s', job, at);
      } else if at.ProgressPublish? {
        ProgressPublishKeepsInv(s, s', job, at);
      } else if at.FinalPublish? {
        FinalPublishKeepsInv(s, s', job, at);
      } else if at.Failing? {
        FailingKeepsInv(s, s', job, at);
      } else if at.StoreRows? {
        StoreRowsKeepsInv(s, s', job, at);
      } else if at.ProgressLoad? {
        ProgressLoadKeepsInv(s, s', job, at);
      } else if at.ResultToken? || at.ResultQuit? {
        ResultKeepsInv(s, s', job, at);
      } else if at.TrendExchange? || at.TrendCancel? {
        TrendCancelKeepsInv(s, s', job, at);
      } else if at.MergeLoad? || at.StoreToken? || at.StoreQuit? {
        MergeKeepsInv(s, s', job, at);
      } else {
        ProgressKeepsInv(s, s', job, at);
      }
    case Trending(job, at) =>
      if TrendThrowStep(s, s', job, at) {
        TrendThrowKeepsInv(s, s', job, at);
      } else if at.PhaseCas? {
        PhaseCasKeepsInv(s, s', job, at);
      } else if at.PhaseCache? {
        PhaseCacheKeepsInv(s, s', job, at);
      } else if at.PhaseLoad? {
        PhaseLoadKeepsInv(s, s', job, at);
      } else if at.PhaseCheck? {
        PhaseCheckKeepsInv(s, s', job, at);
      } else if at.Retire? || at.RetireMark? {
        RetireKeepsInv(s, s', job, at);
      } else {
        TrendKeepsInv(s, s', job, at);
      }
    case JobDone => JobDoneKeepsInv(s, s');
    case Stopped =>
  }

  lemma ThrowKeepsInv(s: State, s': State, job: Job, at: FetchAt)
    requires Inv(s) && s.worker == Fetching(job, at) && ThrowStep(s, s', job, at)
    ensures Inv(s')
  {
    hide GoodHistory, GoodGenerations, GoodUi, GoodLoading, GoodBusy, GoodCache;
    FetchMoves(s, s', job, Failing(FLoad));
  }

  lemma TrendThrowKeepsInv(s: State, s': State, job: Job, at: TrendAt)
    requires Inv(s) && s.worker == Trending(job, at) && TrendThrowStep(s, s', job, at)
    ensures Inv(s')
  {
    hide GoodHistory, GoodGenerations, GoodUi, GoodLoading, GoodBusy, GoodCache;
    TrendMoves(s, s', job, Retire);
  }

  lemma JobDoneKeepsInv(s: State, s': State)
    requires Inv(s) && s.worker == JobDone && s' == s.(worker := WaitingForJob, busy := s.busy && s.pending.Some?)
    ensures Inv(s')
  {
    hide GoodHistory, GoodCache;
    KeptHistory(s, s');
  }

  // ---------------------------------------------------------------- UI preservation

  lemma UiFacts(s: State)
    requires Inv(s)
    ensures s.history != [] && GoodUi(s) && GoodCache(s.cache) && GoodGenerations(s)
  {
  }

  /** A UI step that only moves its counter. */
  lemma UiMoves(s: State, s': State)
    requires Inv(s) && SameButUi(s, s') && GoodCache(s'.cache) && GoodUi(s')
    requires Preparing(s'.ui) == Preparing(s.ui) && Replacing(s'.ui) == Replacing(s.ui)
    requires Submitting(s'.ui) == Submitting(s.ui)
    requires s'.ui.StartingTrend? ==> s.ui.StartingTrend? || NoFetch(s, s.Current().gen)
    requires !(s'.ui.Starting? && s'.ui.start.SCancel?) && !(s'.ui.Resetting? && s'.ui.reset.RCancel?)
    ensures Inv(s')
  {
    hide GoodHistory, GoodCache, From, GoodUi, GoodFetchAt, GoodTrendAt;
    KeptHistory(s, s');
    SamePromises(s, s');
  }

  /** What a counter promises depends on the history and the generations alone. */
  lemma SamePromises(s: State, t: State)
    requires s.history != [] && s.history == t.history
    requires forall g :: g in s.genId ==> g in t.genId && t.genId[g] == s.genId[g]
    ensures forall p, gen, id :: GoodPublish(s, p, gen, id) ==> GoodPublish(t, p, gen, id)
    ensures forall f, gen, id :: GoodFinish(s, f, gen, id) ==> GoodFinish(t, f, gen, id)
    ensures forall at, gen, id :: GoodFetchAt(s, at, gen, id) ==> GoodFetchAt(t, at, gen, id)
    ensures forall at, gen, id :: GoodTrendAt(s, at, gen, id) ==> GoodTrendAt(t, at, gen, id)
    ensures forall at, gen, id :: GoodStartAt(s, at, gen, id) && (s.stopping ==> t.stopping) ==>
        GoodStartAt(t, at, gen, id)
    ensures forall job :: GoodJob(s, job) ==> GoodJob(t, job)
  {
    hide KeyOwner, From;
  }

  /** A fresh generation is drawn. */
  lemma GenerationKeepsInv(s: State, s': State, id: Id)
    requires Inv(s) && !Preparing(s.ui)
    requires s' == s.(nextGeneration := s.nextGeneration + 1, genId := s.genId[s.nextGeneration + 1 := id], ui := s'.ui)
    requires GoodUi(s') && Preparing(s'.ui) && Replacing(s'.ui) == Replacing(s.ui)
    requires !Submitting(s'.ui) && !s'.ui.StartingTrend? && !Submitting(s.ui)
    requires !(s'.ui.Starting? && s'.ui.start.SCancel?) && !(s'.ui.Resetting? && s'.ui.reset.RCancel?)
    ensures Inv(s')
  {
    hide GoodCache, From, GoodUi, GoodFetchAt, GoodTrendAt, KeyOwner;
    GenerationKeepsHistory(s, s', id);
    hide GoodHistory;
    SamePromises(s, s');
  }

  lemma GenerationKeepsHistory(s: State, s': State, id: Id)
    requires Inv(s)
    requires s'.history == s.history && s'.genId == s.genId[s.nextGeneration + 1 := id]
    ensures GoodHistory(s') && s.nextGeneration + 1 !in s.genId
  {
    hide GoodCache, GoodUi, GoodWorker, GoodLoading, From;
  }

  /** A step of StartScreenerFetch that stays on its side of the publication. */
  lemma StartMoves(s: State, s': State, id: Id, key: string, empty: bool, gen: nat, at: StartAt, next: StartAt)
    requires Inv(s) && s.ui == Starting(id, key, empty, gen, at) && SameButUi(s, s') && GoodCache(s'.cache)
    requires s'.ui == Starting(id, key, empty, gen, next) && GoodStartAt(s', next, gen, id)
    requires Preparing(s'.ui) == Preparing(s.ui) && Replacing(s'.ui) == Replacing(s.ui)
    requires Submitting(s'.ui) == Submitting(s.ui) && !next.SCancel?
    ensures Inv(s')
  {
    UiFacts(s);
    hide Inv, GoodCache, GoodGenerations, GoodStartAt, KeyOwner;
    UiMoves(s, s');
  }

  lemma StartKeepsInv(s: State, s': State, id: Id, key: string, empty: bool, gen: nat, at: StartAt)
    requires Inv(s) && s.ui == Starting(id, key, empty, gen, at) && StartStep(s, s', id, key, empty, gen, at)
    requires at.SLoad? || at.STrendExchange? || at.STrendCancel? || at.SDecide?
    ensures Inv(s')
  {
    UiFacts(s);
    hide Inv, GoodCache, GoodGenerations, KeyOwner, From, GoodUi, PublishStep, FinishStep, StoredCache;
    hide GoodPublish, GoodFinish;
    StartMoves(s, s', id, key, empty, gen, at, s'.ui.start);
  }

  /** What looking at the shown snapshot leads to. */
  lemma DisplayLeads(s: State, s': State, id: Id, key: string, empty: bool, gen: nat, at: StartAt)
    requires s.history != [] && at.SDisplay? && StartStep(s, s', id, key, empty, gen, at)
    ensures SameButUi(s, s') && OnlyUiAndCache(s, s') && s'.cache == s.cache && s'.ui.Starting?
    ensures s'.ui == Starting(id, key, empty, gen, s'.ui.start)
    ensures || s'.ui.start == SPublish(None) || s'.ui.start == SCacheLookup(false)
            || (at.shown < |s.history| && s.history[at.shown].snap.id == id
                && s'.ui.start == SPublish(s.history[at.shown].snap.items))
  {
    hide PublishStep, FinishStep, StoredCache;
    var shown := at.shown;
    if shown < |s.history| && s.history[shown].snap.id == id && s.history[shown].snap.items.Some? {
      assert s' == s.(ui := Starting(id, key, empty, gen, SPublish(s.history[shown].snap.items)));
    } else {
      assert || s' == s.(ui := Starting(id, key, empty, gen, SPublish(None)))
             || s' == s.(ui := Starting(id, key, empty, gen, SCacheLookup(false)));
    }
  }

  lemma DisplayKeepsInv(s: State, s': State, id: Id, key: string, empty: bool, gen: nat, at: StartAt)
    requires Inv(s) && s.ui == Starting(id, key, empty, gen, at) && at.SDisplay?
    requires StartStep(s, s', id, key, empty, gen, at)
    ensures Inv(s')
  {
    UiFacts(s);
    ShownRows(s, at.shown);
    assert From(None, id);
    hide Inv, GoodCache, GoodGenerations, KeyOwner, From, GoodUi, StartStep, GoodPublish, GoodFinish;
    DisplayLeads(s, s', id, key, empty, gen, at);
    StartMoves(s, s', id, key, empty, gen, at, s'.ui.start);
  }

  /** What asking the persistent cache leads to. */
  lemma PersistentLeads(s: State, s': State, id: Id, key: string, empty: bool, gen: nat, at: StartAt)
    requires s.history != [] && at.SPersistent? && StartStep(s, s', id, key, empty, gen, at)
    ensures SameButUi(s, s') && OnlyUiAndCache(s, s') && s'.cache == s.cache && s'.ui.Starting?
    ensures s'.ui == Starting(id, key, empty, gen, s'.ui.start)
    ensures s'.ui.start == SPublish(None) || s'.ui.start == SCacheStore(Rows(Persistent, {KeyOwner(key)}, {}))
  {
    hide PublishStep, FinishStep, StoredCache, KeyOwner;
  }

  lemma PersistentKeepsInv(s: State, s': State, id: Id, key: string, empty: bool, gen: nat, at: StartAt)
    requires Inv(s) && s.ui == Starting(id, key, empty, gen, at) && at.SPersistent?
    requires StartStep(s, s', id, key, empty, gen, at)
    ensures Inv(s')
  {
    UiFacts(s);
    assert KeyOwner(key) == id && From(None, id);
    hide Inv, GoodCache, GoodGenerations, KeyOwner, From, GoodUi, StartStep, GoodPublish, GoodFinish;
    PersistentLeads(s, s', id, key, empty, gen, at);
    StartMoves(s, s', id, key, empty, gen, at, s'.ui.start);
  }

  /** What looking into the cache leads to. */
  lemma LookupLeads(s: State, s': State, id: Id, key: string, empty: bool, gen: nat, at: StartAt)
    requires s.history != [] && at.SCacheLookup? && StartStep(s, s', id, key, empty, gen, at)
    ensures SameButUi(s, s') && OnlyUiAndCache(s, s') && s'.cache == s.cache && s'.ui.Starting?
    ensures s'.ui == Starting(id, key, empty, gen, s'.ui.start)
    ensures || s'.ui.start == SPublish(None) || s'.ui.start == SPersistent
            || (key in s.cache && s'.ui.start == SPublish(Some(s.cache[key])))
  {
    hide PublishStep, FinishStep, StoredCache;
  }

  lemma CacheLookupKeepsInv(s: State, s': State, id: Id, key: string, empty: bool, gen: nat, at: StartAt)
    requires Inv(s) && s.ui == Starting(id, key, empty, gen, at) && at.SCacheLookup?
    requires StartStep(s, s', id, key, empty, gen, at)
    ensures Inv(s')
  {
    UiFacts(s);
    CachedRows(s.cache, key);
    assert KeyOwner(key) == id;
    hide Inv, GoodCache, GoodGenerations, KeyOwner, From, GoodUi, StartStep, GoodPublish, GoodFinish;
    LookupLeads(s, s', id, key, empty, gen, at);
    StartMoves(s, s', id, key, empty, gen, at, s'.ui.start);
  }

  lemma ShownRows(s: State, shown: nat)
    requires Inv(s)
    ensures shown < |s.history| ==> From(s.history[shown].snap.items, s.history[shown].snap.id)
  {
  }

  lemma CachedRows(cache: map<string, Rows>, key: string)
    requires GoodCache(cache)
    ensures key in cache ==> cache[key].owners <= {KeyOwner(key)} && From(Some(cache[key]), KeyOwner(key))
    ensures From(None, KeyOwner(key))
  {
  }

  /** What storing persistent rows leads to. */
  lemma StoreLeads(s: State, s': State, id: Id, key: string, empty: bool, gen: nat, at: StartAt)
    requires s.history != [] && at.SCacheStore? && StartStep(s, s', id, key, empty, gen, at)
    ensures SameButUi(s, s') && OnlyUiAndCache(s, s') && s'.ui.Starting?
    ensures StoredCache(s.cache, s'.cache, key, at.rows)
    ensures s'.ui == Starting(id, key, empty, gen, s'.ui.start)
    ensures s'.ui.start == SPublish(None) || s'.ui.start == SCacheLookup(true)
  {
    hide PublishStep, FinishStep, StoredCache;
    var cache :| StoredCache(s.cache, cache, key, at.rows)
                 && (|| s' == s.(cache := cache, ui := Starting(id, key, empty, gen, SCacheLookup(true)))
                     || s' == s.(cache := cache, ui := Starting(id, key, empty, gen, SPublish(None))));
  }

  lemma StartStoreKeepsInv(s: State, s': State, id: Id, key: string, empty: bool, gen: nat, at: StartAt)
    requires Inv(s) && s.ui == Starting(id, key, empty, gen, at) && at.SCacheStore?
    requires StartStep(s, s', id, key, empty, gen, at)
    ensures Inv(s')
  {
    UiFacts(s);
    assert at.rows.owners <= {KeyOwner(key)} && KeyOwner(key) == id && From(None, id);
    hide Inv, GoodCache, GoodGenerations, KeyOwner, StoredCache, From, GoodUi, StartStep;
    StoreLeads(s, s', id, key, empty, gen, at);
    StoredCacheGood(s.cache, s'.cache, key, at.rows);
    StartMoves(s, s', id, key, empty, gen, at, s'.ui.start);
  }

  lemma StartGenerationKeepsInv(s: State, s': State, id: Id, key: string, empty: bool, gen: nat, at: StartAt)
    requires Inv(s) && s.ui == Starting(id, key, empty, gen, at) && at.SGeneration?
    requires StartStep(s, s', id, key, empty, gen, at)
    ensures Inv(s')
  {
    UiFacts(s);
    hide Inv, GoodCache, GoodGenerations;
    GenerationKeepsInv(s, s', id);
  }

  /** The slot exchange and the cancellation of the token it held. */
  lemma StartTokenKeepsInv(s: State, s': State, id: Id, key: string, empty: bool, gen: nat, at: StartAt)
    requires Inv(s) && s.ui == Starting(id, key, empty, gen, at) && (at.SExchange? || at.SCancel?)
    requires StartStep(s, s', id, key, empty, gen, at)
    ensures Inv(s')
  {
    hide PublishStep, FinishStep, StoredCache, GoodPublish, GoodFinish;
    hide GoodHistory, GoodCache, From, GoodFetchAt, GoodTrendAt, KeyOwner;
    KeptHistory(s, s');
    SamePromises(s, s');
  }

  /** A snapshot of a fresh generation replaces the displayed one. */
  lemma FreshSnapshotKeepsInv(s: State, s': State, snap: Snapshot)
    requires Inv(s) && Preparing(s.ui) && Replacing(s.ui)
    requires snap.gen == s.nextGeneration && snap.gen in s.genId && s.genId[snap.gen] == snap.id
    requires From(snap.items, snap.id)
    requires s' == s.Published(snap, Ui).(ui := s'.ui)
    requires GoodUi(s') && !Preparing(s'.ui) && !Replacing(s'.ui) && !s'.ui.StartingTrend?
    requires IsLoading(snap.load) == Submitting(s'.ui)
    ensures Inv(s')
  {
    hide GoodHistory, GoodCache, From, GoodFetchAt, GoodTrendAt, KeyOwner, GoodUi;
    AppendGood(s, snap, Ui);
    KeptHistory(s.Published(snap, Ui), s');
    KeptPromises(s, s', snap, Ui);
  }

  lemma StartPublishKeepsInv(s: State, s': State, id: Id, key: string, empty: bool, gen: nat, at: StartAt)
    requires Inv(s) && s.ui == Starting(id, key, empty, gen, at) && at.SPublish?
    requires StartStep(s, s', id, key, empty, gen, at)
    ensures Inv(s')
  {
    UiFacts(s);
    hide Inv, GoodCache, GoodGenerations, KeyOwner, From;
    FreshSnapshotKeepsInv(s, s', Snapshot(gen, id, if at.items.Some? then Refreshing else Loading, at.items));
  }

  /** The UI settles the request it has just displayed, or leaves it because the program is ending. */
  lemma UiSettles(s: State, s': State, snap: Snapshot)
    requires Inv(s) && Submitting(s.ui) && snap.gen == s.Current().gen && snap.id == s.Current().id
    requires From(snap.items, snap.id) && !IsLoading(snap.load)
    requires s' == s.Published(snap, Ui).(ui := UiIdle)
    ensures Inv(s')
  {
    hide GoodHistory, GoodCache, From, GoodFetchAt, GoodTrendAt, KeyOwner;
    assert snap.gen in s.genId && s.genId[snap.gen] == snap.id by { CurrentFacts(s); }
    AppendGood(s, snap, Ui);
    KeptHistory(s.Published(snap, Ui), s');
    KeptPromises(s, s', snap, Ui);
  }

  lemma UiLeaves(s: State, s': State)
    requires Inv(s) && Submitting(s.ui) && s' == s.(ui := UiIdle) && (s.quit || s.stopping)
    ensures Inv(s')
  {
    hide GoodHistory, GoodCache, From, GoodFetchAt, GoodTrendAt, KeyOwner;
    KeptHistory(s, s');
    SamePromises(s, s');
  }

  lemma SubmittingFacts(s: State)
    requires Inv(s) && Submitting(s.ui)
    ensures s.ui.gen == s.Current().gen && s.ui.id == s.Current().id
    ensures s.ui.gen in s.genId && s.genId[s.ui.gen] == s.ui.id && s.ui.gen !in s.requestCancelled
  {
    CurrentFacts(s);
    hide GoodHistory, GoodCache, GoodWorker, GoodStartAt;
  }

  lemma EmptyPublishKeepsInv(s: State, s': State, id: Id, key: string, empty: bool, gen: nat, at: StartAt)
    requires Inv(s) && s.ui == Starting(id, key, empty, gen, at) && at.SEmptyPublish?
    requires StartStep(s, s', id, key, empty, gen, at)
    ensures Inv(s')
  {
    UiFacts(s);
    SubmittingFacts(s);
    assert GoodPublish(s, at.publish, gen, id) && at.publish.load == Ready;
    hide Inv, GoodCache, GoodGenerations, GoodPublish, GoodFinish, KeyOwner, From, GoodUi;
    var t, r :| PublishStep(s, t, at.publish, gen, id, Ui, r)
                && s' == t.(ui := if r.Going? then Starting(id, key, empty, gen, SEmptyPublish(r.next)) else UiIdle);
    PublishMoves(s, t, at.publish, gen, id, Ui, r);
    hide PublishStep;
    if r == Done(true) {
      PublishItems(s, at.publish, gen, id);
      UiSettles(s, s', Snapshot(gen, id, at.publish.load, at.publish.items));
    } else if r.Going? {
      PromiseMoves(s, s', r.next, gen, id);
      StartMoves(s, s', id, key, empty, gen, at, s'.ui.start);
    } else {
      UiLeaves(s, s');
    }
  }

  lemma PromiseMoves(s: State, t: State, p: Publish, gen: nat, id: Id)
    requires t.history == s.history && GoodPublish(s, p, gen, id)
    ensures GoodPublish(t, p, gen, id)
  {
  }

  lemma FinishPromiseMoves(s: State, t: State, f: Finish, gen: nat, id: Id)
    requires t.history == s.history && GoodFinish(s, f, gen, id)
    ensures GoodFinish(t, f, gen, id)
  {
  }

  lemma SubmitFailedKeepsInv(s: State, s': State, id: Id, key: string, empty: bool, gen: nat, at: StartAt)
    requires Inv(s) && s.ui == Starting(id, key, empty, gen, at) && at.SFail?
    requires StartStep(s, s', id, key, empty, gen, at)
    ensures Inv(s')
  {
    UiFacts(s);
    SubmittingFacts(s);
    assert GoodFinish(s, at.finish, gen, id) && s.stopping;
    hide Inv, GoodCache, GoodGenerations, GoodFinish, GoodPublish, KeyOwner, From, FinishStep, GoodUi;
    var t, r :| FinishStep(s, t, at.finish, gen, id, Ui, r)
                && s' == t.(ui := if r.Going? then Starting(id, key, empty, gen, SFail(r.next)) else UiIdle);
    FinishMoves(s, t, at.finish, gen, id, Ui, r);
    if r == Done(true) {
      var p := at.finish.publish;
      UiSettles(s, s', Snapshot(gen, id, p.load, p.items));
    } else if r.Going? {
      FinishPromiseMoves(s, s', r.next, gen, id);
      StartMoves(s, s', id, key, empty, gen, at, s'.ui.start);
    } else {
      UiLeaves(s, s');
    }
  }

  lemma SubmitLeads(s: State, s': State, id: Id, key: string, empty: bool, gen: nat, at: StartAt)
    requires s.history != [] && at.SSubmit? && StartStep(s, s', id, key, empty, gen, at)
    ensures s' == if s.stopping then s.(ui := Starting(id, key, empty, gen, SFail(FLoad)))
                  else s.(pending := Some(FetchJob(gen, id, key)), busy := true, ui := UiIdle)
  {
    hide PublishStep, FinishStep, StoredCache;
  }

  lemma SubmitKeepsInv(s: State, s': State, id: Id, key: string, empty: bool, gen: nat, at: StartAt)
    requires Inv(s) && s.ui == Starting(id, key, empty, gen, at) && at.SSubmit?
    requires StartStep(s, s', id, key, empty, gen, at)
    ensures Inv(s')
  {
    UiFacts(s);
    SubmittingFacts(s);
    hide StartStep, GoodPublish, GoodFinish;
    hide GoodHistory, GoodCache, From, GoodFetchAt, GoodTrendAt, KeyOwner;
    SubmitLeads(s, s', id, key, empty, gen, at);
    KeptHistory(s, s');
    SamePromises(s, s');
  }

  lemma TrendStartKeepsInv(s: State, s': State, job: Job, at: TrendStartAt)
    requires Inv(s) && s.ui == StartingTrend(job, at) && TrendStartStep(s, s', job, at)
    requires !at.TSubmit?
    ensures Inv(s')
  {
    UiFacts(s);
    hide PublishStep, FinishStep, StoredCache, GoodPublish, GoodFinish;
    hide Inv, GoodCache, GoodGenerations, KeyOwner;
    UiMoves(s, s');
  }

  lemma TrendSubmitKeepsInv(s: State, s': State, job: Job, at: TrendStartAt)
    requires Inv(s) && s.ui == StartingTrend(job, at) && TrendStartStep(s, s', job, at) && at.TSubmit?
    ensures Inv(s')
  {
    hide PublishStep, FinishStep, StoredCache, GoodPublish, GoodFinish;
    hide GoodHistory, GoodCache, From, GoodFetchAt, GoodTrendAt, KeyOwner;
    KeptHistory(s, s');
    SamePromises(s, s');
  }

  lemma ResetTokenKeepsInv(s: State, s': State, gen: nat, at: ResetAt)
    requires Inv(s) && s.ui == Resetting(gen, at) && ResetStep(s, s', gen, at) && (at.RExchange? || at.RCancel?)
    ensures Inv(s')
  {
    hide PublishStep, FinishStep, StoredCache, GoodPublish, GoodFinish;
    hide GoodHistory, GoodCache, From, GoodFetchAt, GoodTrendAt, KeyOwner;
    KeptHistory(s, s');
    SamePromises(s, s');
  }

  lemma ResetKeepsInv(s: State, s': State, gen: nat, at: ResetAt)
    requires Inv(s) && s.ui == Resetting(gen, at) && ResetStep(s, s', gen, at)
    ensures Inv(s')
  {
    UiFacts(s);
    hide Inv, GoodCache, GoodGenerations;
    if at.RExchange? || at.RCancel? {
      ResetTokenKeepsInv(s, s', gen, at);
    } else if at.RGeneration? {
      GenerationKeepsInv(s, s', "");
    } else if at.RPublish? {
      FreshSnapshotKeepsInv(s, s', Snapshot(gen, "", Idle, None));
    } else {
      UiMoves(s, s');
    }
  }

  lemma BeginStartKeepsInv(s: State, s': State, id: Id, watchlist: seq<string>)
    requires Inv(s) && s.ui == UiIdle && BeginStart(s, s', id, watchlist)
    ensures Inv(s')
  {
    UiFacts(s);
    KeyOwnerOfBuiltKey(id, watchlist);
    hide Inv, GoodCache, GoodGenerations, KeyOwner, BuildScreenerCacheKey;
    UiMoves(s, s');
  }

  lemma BeginTrendKeepsInv(s: State, s': State, id: Id, watchlist: seq<string>)
    requires Inv(s) && s.ui == UiIdle && s.history != [] && BeginTrend(s, s', id, watchlist)
    ensures Inv(s')
  {
    UiFacts(s);
    CurrentFacts(s);
    KeyOwnerOfBuiltKey(id, watchlist);
    assert NoFetch(s, s.Current().gen);
    hide Inv, GoodCache, GoodGenerations, KeyOwner, BuildScreenerCacheKey, NoFetch;
    UiMoves(s, s');
  }

  lemma BeginResetKeepsInv(s: State, s': State)
    requires Inv(s) && s.ui == UiIdle && s' == s.(ui := Resetting(0, RExchange))
    ensures Inv(s')
  {
    UiFacts(s);
    hide Inv, GoodCache, GoodGenerations;
    UiMoves(s, s');
  }

  lemma IdleKeepsInv(s: State, s': State)
    requires Inv(s) && s.ui == UiIdle && s.history != [] && UiStep(s, s')
    ensures Inv(s')
  {
    hide Inv, BeginStart, BeginTrend;
    if id, watchlist :| BeginStart(s, s', id, watchlist) {
      BeginStartKeepsInv(s, s', id, watchlist);
    } else if id, watchlist :| BeginTrend(s, s', id, watchlist) {
      BeginTrendKeepsInv(s, s', id, watchlist);
    } else {
      BeginResetKeepsInv(s, s');
    }
  }

  lemma UiKeepsInv(s: State, s': State)
    requires Inv(s) && UiStep(s, s')
    ensures Inv(s')
  {
    hide Inv, StartStep, TrendStartStep, ResetStep, BeginStart, BeginTrend;
    UiFacts(s);
    match s.ui
    case UiIdle => IdleKeepsInv(s, s');
    case Starting(id, key, empty, gen, at) =>
      match at {
        case SGeneration(_) => StartGenerationKeepsInv(s, s', id, key, empty, gen, at);
        case SExchange(_) => StartTokenKeepsInv(s, s', id, key, empty, gen, at);
        case SCancel(_, _) => StartTokenKeepsInv(s, s', id, key, empty, gen, at);
        case SDisplay(_) => DisplayKeepsInv(s, s', id, key, empty, gen, at);
        case SPersistent => PersistentKeepsInv(s, s', id, key, empty, gen, at);
        case SCacheLookup(_) => CacheLookupKeepsInv(s, s', id, key, empty, gen, at);
        case SCacheStore(_) => StartStoreKeepsInv(s, s', id, key, empty, gen, at);
        case SPublish(_) => StartPublishKeepsInv(s, s', id, key, empty, gen, at);
        case SEmptyPublish(_) => EmptyPublishKeepsInv(s, s', id, key, empty, gen, at);
        case SSubmit => SubmitKeepsInv(s, s', id, key, empty, gen, at);
        case SFail(_) => SubmitFailedKeepsInv(s, s', id, key, empty, gen, at);
        case _ => StartKeepsInv(s, s', id, key, empty, gen, at);
      }
    case StartingTrend(job, at) =>
      if at.TSubmit? {
        TrendSubmitKeepsInv(s, s', job, at);
      } else {
        TrendStartKeepsInv(s, s', job, at);
      }
    case Resetting(gen, at) => ResetKeepsInv(s, s', gen, at);
  }

  lemma StepKeepsInv(s: State, s': State)
    requires Inv(s) && Step(s, s')
    ensures Inv(s')
  {
    hide Inv, UiStep, WorkerStep, EnvironmentStep;
    UiFacts(s);
    if UiStep(s, s') {
      UiKeepsInv(s, s');
    } else if WorkerStep(s, s') {
      WorkerKeepsInv(s, s');
    } else {
      EnvironmentKeepsInv(s, s');
    }
  }
}
