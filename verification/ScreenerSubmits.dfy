/** How requests of the user interface end: what they submit to the executor, and what they settle themselves. */
module ScreenerSubmits {
  import opened Options
  import opened ScreenerProtocol
  import opened ScreenerInvariant
  import opened ScreenerRuns
  import opened ScreenerRows
  import opened ScreenerTokens

  // ---------------------------------------------------------------- a start

  /** A start on its way: with nothing to fetch it will publish no rows, otherwise submit or fail. */
  predicate OnTrack(ui: UiPc, id: Id, key: string, empty: bool) {
    && ui.Starting? && ui.id == id && ui.key == key && ui.empty == empty
    && (ui.start.SEmptyPublish? ==> empty && ui.start.publish.items == None)
    && (ui.start.SSubmit? || ui.start.SFail? ==> !empty)
  }

  /** The step ends the start: it has submitted its fetch, or, with nothing to fetch or no executor left, settled
      its request, unless the program is quitting. */
  predicate Ends(s: State, s': State, id: Id, key: string, empty: bool)
    requires s.history != [] && s.ui.Starting?
  {
    && s'.ui == UiIdle && s'.history != [] && s'.Current().gen == s.ui.gen && s'.Current().id == id
    && if empty then
         s'.pending == s.pending && (s.quit || s'.Current() == Snapshot(s.ui.gen, id, Ready, None))
       else if s.stopping then
         s'.pending == s.pending && (s.quit || Displayed(s'.Current()))
       else s'.pending == Some(FetchJob(s.ui.gen, id, key))
  }

  predicate Displayed(snap: Snapshot) {
    (snap.load == Ready && snap.items.Some?) || (snap.load == Failed && snap.items.None?)
  }

  lemma RequestTrack(s: State, s': State, id: Id, key: string, empty: bool, gen: nat, at: StartAt)
    requires s.history != [] && StartStep(s, s', id, key, empty, gen, at)
    requires at.SLoad? || at.SGeneration? || at.SExchange? || at.SCancel? || at.STrendExchange? || at.STrendCancel?
    ensures OnTrack(s'.ui, id, key, empty)
  {
    hide StoredCache, KeyOwner, PublishStep, FinishStep, Cancel;
    match at
    case SLoad => assert s' == s.(ui := Starting(id, key, empty, gen, SGeneration(s.Last())));
    case SGeneration(shown) =>
      var g := s.nextGeneration + 1;
      assert s' == s.(nextGeneration := g, genId := s'.genId, ui := Starting(id, key, empty, g, SExchange(shown)));
    case SExchange(shown) =>
      assert s' == s.(requestSlot := Some(gen),
                      ui := Starting(id, key, empty, gen, SCancel(shown, s.requestSlot)));
    case SCancel(shown, _) =>
      assert s' == s.(requestCancelled := s'.requestCancelled,
                      ui := Starting(id, key, empty, gen, STrendExchange(shown)));
    case STrendExchange(shown) =>
      assert s' == s.(trendSlot := None, ui := Starting(id, key, empty, gen, STrendCancel(shown, s.trendSlot)));
    case STrendCancel(shown, _) =>
      assert s' == s.(trendCancelled := s'.trendCancelled, ui := Starting(id, key, empty, gen, SDisplay(shown)));
  }

  lemma DecideTrack(s: State, s': State, id: Id, key: string, empty: bool, gen: nat, at: StartAt)
    requires s.history != [] && StartStep(s, s', id, key, empty, gen, at) && (at.SPublish? || at.SDecide?)
    ensures OnTrack(s'.ui, id, key, empty)
  {
    hide StoredCache, KeyOwner, PublishStep, FinishStep, Cancel;
    if at.SPublish? {
      assert s' == s.(history := s'.history, ui := Starting(id, key, empty, gen, SDecide));
    } else {
      var next := if empty then SEmptyPublish(Publish(Ready, None, PLoad)) else SSubmit;
      assert s' == s.(ui := Starting(id, key, empty, gen, next));
    }
  }

  lemma SubmitTrack(s: State, s': State, id: Id, key: string, empty: bool, gen: nat, at: StartAt)
    requires Inv(s) && s.ui == Starting(id, key, empty, gen, at) && at.SSubmit? && !empty
    requires StartStep(s, s', id, key, empty, gen, at)
    ensures OnTrack(s'.ui, id, key, empty) || Ends(s, s', id, key, empty)
  {
    SubmittingFacts(s);
    hide Inv, StoredCache, KeyOwner, PublishStep, FinishStep, Cancel;
    if s.stopping {
      assert s' == s.(ui := Starting(id, key, empty, gen, SFail(FLoad)));
    } else {
      assert s' == s.(pending := Some(FetchJob(gen, id, key)), busy := true, ui := UiIdle);
    }
  }

  lemma EmptyTrack(s: State, s': State, id: Id, key: string, empty: bool, gen: nat, at: StartAt)
    requires Inv(s) && s.ui == Starting(id, key, empty, gen, at) && at.SEmptyPublish? && at.publish.items == None
    requires empty && StartStep(s, s', id, key, empty, gen, at)
    ensures OnTrack(s'.ui, id, key, empty) || Ends(s, s', id, key, empty)
  {
    UiFacts(s);
    SubmittingFacts(s);
    assert GoodPublish(s, at.publish, gen, id) && at.publish.load == Ready;
    hide Inv, GoodUi, GoodCache, GoodGenerations, GoodPublish, PublishStep;
    var t, r :| PublishStep(s, t, at.publish, gen, id, Ui, r)
                && s' == t.(ui := if r.Going? then Starting(id, key, empty, gen, SEmptyPublish(r.next)) else UiIdle);
    PublishMoves(s, t, at.publish, gen, id, Ui, r);
  }

  lemma FailTrack(s: State, s': State, id: Id, key: string, empty: bool, gen: nat, at: StartAt)
    requires Inv(s) && s.ui == Starting(id, key, empty, gen, at) && at.SFail? && !empty
    requires StartStep(s, s', id, key, empty, gen, at)
    ensures OnTrack(s'.ui, id, key, empty) || Ends(s, s', id, key, empty)
  {
    UiFacts(s);
    SubmittingFacts(s);
    assert GoodFinish(s, at.finish, gen, id) && s.stopping;
    hide Inv, GoodUi, GoodCache, GoodGenerations, GoodFinish, FinishStep, Displayed, From;
    var t, r :| FinishStep(s, t, at.finish, gen, id, Ui, r)
                && s' == t.(ui := if r.Going? then Starting(id, key, empty, gen, SFail(r.next)) else UiIdle);
    FinishMoves(s, t, at.finish, gen, id, Ui, r);
    hide StartStep;
    if r == Done(true) {
      FinishIsSettled(s, at.finish.publish, gen, id);
    }
  }

  lemma FinishIsSettled(s: State, p: Publish, gen: nat, id: Id)
    requires GoodFinish(s, FPublish(p), gen, id)
    ensures Displayed(Snapshot(gen, id, p.load, p.items))
  {
  }

  lemma TrackStep(s: State, s': State, id: Id, key: string, empty: bool)
    requires s.history != [] && Inv(s) && OnTrack(s.ui, id, key, empty) && UiStep(s, s')
    ensures OnTrack(s'.ui, id, key, empty) || Ends(s, s', id, key, empty)
  {
    var gen, at := s.ui.gen, s.ui.start;
    hide Inv, StartStep, Ends;
    if at.SSubmit? {
      SubmitTrack(s, s', id, key, empty, gen, at);
    } else if at.SEmptyPublish? {
      EmptyTrack(s, s', id, key, empty, gen, at);
    } else if at.SFail? {
      FailTrack(s, s', id, key, empty, gen, at);
    } else if at.SPublish? || at.SDecide? {
      DecideTrack(s, s', id, key, empty, gen, at);
    } else if at.SDisplay? || at.SCacheLookup? || at.SPersistent? || at.SCacheStore? {
      DisplayTrack(s, s', id, key, empty, gen, at);
    } else {
      RequestTrack(s, s', id, key, empty, gen, at);
    }
  }

  lemma DisplayTrack(s: State, s': State, id: Id, key: string, empty: bool, gen: nat, at: StartAt)
    requires s.history != [] && StartStep(s, s', id, key, empty, gen, at)
    requires at.SDisplay? || at.SCacheLookup? || at.SPersistent? || at.SCacheStore?
    ensures OnTrack(s'.ui, id, key, empty)
  {
    hide StartStep;
    DisplayFrame(s, s', id, key, empty, gen, at);
    if at.SCacheStore? {
      StoreLeads(s, s', id, key, empty, gen, at);
    } else if at.SCacheLookup? {
      LookupLeads(s, s', id, key, empty, gen, at);
    } else if at.SPersistent? {
      PersistentLeads(s, s', id, key, empty, gen, at);
    } else {
      DisplayLeads(s, s', id, key, empty, gen, at);
    }
  }

  lemma {:induction false} StaysOnTrack(run: seq<State>, i: nat, j: nat, id: Id, key: string, empty: bool)
    requires IsRun(run) && i <= j < |run| && OnTrack(run[i].ui, id, key, empty)
    requires forall m :: i <= m <= j ==> run[m].ui.Starting?
    ensures OnTrack(run[j].ui, id, key, empty)
    decreases j
  {
    hide Init, Inv, UiStep, WorkerStep, OnTrack;
    if i < j {
      StaysOnTrack(run, i, j - 1, id, key, empty);
      RunKeepsInv(run, j - 1);
      assert Linked(run, j - 1);
      var s, s' := run[j - 1], run[j];
      if UiStep(s, s') {
        TrackStep(s, s', id, key, empty);
      } else if WorkerStep(s, s') {
        WorkerTokens(s, s');
      }
    }
  }

  /** How a start ends. The empty screener and an empty watchlist are shown as Ready without rows, and nothing is
      submitted; any other start submits the fetch of its generation under its key, or settles its request itself
      when the executor is stopping. Only a quit keeps either from showing how it ended. */
  lemma StartEnds(run: seq<State>, i: nat, j: nat, id: Id, watchlist: seq<string>)
    requires IsRun(run) && i + 1 < j < |run| && run[i].history != [] && BeginStart(run[i], run[i + 1], id, watchlist)
    requires (forall m :: i < m < j ==> run[m].ui.Starting?) && run[j].ui == UiIdle
    ensures run[j - 1].history != [] && run[j].history != []
    ensures var s, s', gen := run[j - 1], run[j], run[j - 1].ui.gen;
            && s'.Current().gen == gen && s'.Current().id == id
            && if id == "" || (id == "watchlist" && watchlist == []) then
                 s'.pending == s.pending && (s.quit || s'.Current() == Snapshot(gen, id, Ready, None))
               else if s.stopping then
                 s'.pending == s.pending && (s.quit || Displayed(s'.Current()))
               else s'.pending == Some(FetchJob(gen, id, BuildScreenerCacheKey(id, watchlist)))
  {
    hide Init, Inv, UiStep, WorkerStep, BuildScreenerCacheKey, Displayed;
    var key, empty := BuildScreenerCacheKey(id, watchlist), id == "" || (id == "watchlist" && watchlist == []);
    StaysOnTrack(run, i + 1, j - 1, id, key, empty);
    RunKeepsInv(run, j - 1);
    assert Linked(run, j - 1);
    if UiStep(run[j - 1], run[j]) {
      TrackStep(run[j - 1], run[j], id, key, empty);
    } else if WorkerStep(run[j - 1], run[j]) {
      WorkerTokens(run[j - 1], run[j]);
    }
  }

  // ---------------------------------------------------------------- a trend request

  /** A trend request on its way, with the rows it was begun on. */
  predicate OnTrend(s: State, gen: nat, id: Id, key: string, rows: Rows, first: nat) {
    && s.ui.StartingTrend? && s.ui.job.TrendJob? && s.nextTrend >= first
    && s.ui.job == TrendJob(gen, id, key, s.ui.job.trend, rows)
    && match s.ui.trendStart
       case TReadSlot => true
       case TToken => true
       case TQuit => true
       case TExchange => true
       case TCancel(_) => first <= s.ui.job.trend < s.nextTrend
       case TSubmit => first <= s.ui.job.trend < s.nextTrend
       case _ => s.stopping
  }

  /** The step ends the trend request: submitted as a job with a token of its own, or refused for a reason. */
  predicate EndsTrend(s: State, s': State, gen: nat, id: Id, key: string, rows: Rows, first: nat) {
    && s'.ui == UiIdle
    && (|| (exists token :: first <= token < s'.nextTrend && s'.pending == Some(TrendJob(gen, id, key, token, rows)))
        || (s'.pending == s.pending
            && (s.requestSlot != Some(gen) || gen in s.requestCancelled || s.quit || s.stopping)))
  }

  lemma TrendTrackChecks(s: State, s': State, gen: nat, id: Id, key: string, rows: Rows, first: nat)
    requires OnTrend(s, gen, id, key, rows, first) && TrendStartStep(s, s', s.ui.job, s.ui.trendStart)
    requires s.ui.trendStart.TReadSlot? || s.ui.trendStart.TToken? || s.ui.trendStart.TQuit?
    ensures OnTrend(s', gen, id, key, rows, first) || EndsTrend(s, s', gen, id, key, rows, first)
  {
    assert s' == s.(ui := s'.ui);
  }

  lemma TrendTrackStep(s: State, s': State, gen: nat, id: Id, key: string, rows: Rows, first: nat)
    requires OnTrend(s, gen, id, key, rows, first) && TrendStartStep(s, s', s.ui.job, s.ui.trendStart)
    ensures OnTrend(s', gen, id, key, rows, first) || EndsTrend(s, s', gen, id, key, rows, first)
  {
    hide Cancel;
    var job := s.ui.job;
    match s.ui.trendStart
    case TExchange =>
      assert s' == s.(nextTrend := s.nextTrend + 1, trendSlot := Some(s.nextTrend),
                      ui := StartingTrend(TrendJob(gen, id, key, s.nextTrend, rows), TCancel(s.trendSlot)));
    case TCancel(_) => assert s' == s.(trendCancelled := s'.trendCancelled, ui := StartingTrend(job, TSubmit));
    case TSubmit =>
      if s.stopping {
        assert s' == s.(ui := StartingTrend(job, TRetire));
      } else {
        assert s' == s.(pending := Some(job), busy := true, ui := UiIdle);
        assert s'.pending == Some(TrendJob(gen, id, key, job.trend, rows));
      }
    case TRetire => assert s' == s.(trendSlot := s'.trendSlot, ui := s'.ui);
    case TRetireMark => assert s' == s.(trendCancelled := s'.trendCancelled, ui := UiIdle);
    case _ =>
      hide TrendStartStep, OnTrend, EndsTrend;
      TrendTrackChecks(s, s', gen, id, key, rows, first);
  }

  /** Other threads do not touch it. */
  lemma TrendTrackStays(s: State, s': State, gen: nat, id: Id, key: string, rows: Rows, first: nat)
    requires OnTrend(s, gen, id, key, rows, first)
    requires s'.ui == s.ui && s'.nextTrend == s.nextTrend && (s.stopping ==> s'.stopping)
    ensures OnTrend(s', gen, id, key, rows, first)
  {
  }

  lemma TrendTrackBegins(s: State, s': State, id: Id, watchlist: seq<string>)
    requires s.history != [] && BeginTrend(s, s', id, watchlist)
    ensures var shown := s.Current();
            && shown.id == id && shown.load == Ready && shown.items.Some?
            && OnTrend(s', shown.gen, id, BuildScreenerCacheKey(id, watchlist), shown.items.value, s.nextTrend)
  {
    hide BuildScreenerCacheKey;
  }

  lemma {:induction false} StaysOnTrend(run: seq<State>, i: nat, j: nat, gen: nat, id: Id, key: string, rows: Rows,
        first: nat)
    requires IsRun(run) && i <= j < |run| && OnTrend(run[i], gen, id, key, rows, first)
    requires forall m :: i <= m <= j ==> run[m].ui.StartingTrend?
    ensures OnTrend(run[j], gen, id, key, rows, first)
    decreases j
  {
    hide Init, WorkerStep, OnTrend, TrendStartStep, StartStep, ResetStep;
    if i < j {
      StaysOnTrend(run, i, j - 1, gen, id, key, rows, first);
      assert Linked(run, j - 1);
      var s, s' := run[j - 1], run[j];
      if UiStep(s, s') {
        TrendTrackStep(s, s', gen, id, key, rows, first);
      } else {
        if WorkerStep(s, s') {
          WorkerTokens(s, s');
          WorkerFrame(s, s');
        }
        TrendTrackStays(s, s', gen, id, key, rows, first);
      }
    }
  }

  /** How a trend request ends: submitted with the generation, screener and rows that were on display when it began,
      under the key built for it and with a token never given out before, or refused because the displayed request
      is another one, cancelled, or the program or the executor is stopping. */
  lemma TrendEnds(run: seq<State>, i: nat, j: nat, id: Id, watchlist: seq<string>)
    requires IsRun(run) && i + 1 < j < |run| && run[i].history != [] && BeginTrend(run[i], run[i + 1], id, watchlist)
    requires (forall m :: i < m < j ==> run[m].ui.StartingTrend?) && run[j].ui == UiIdle
    ensures var shown, s, s' := run[i].Current(), run[j - 1], run[j];
            && shown.id == id && shown.load == Ready && shown.items.Some?
            && (|| (exists token :: run[i].nextTrend <= token < s'.nextTrend
                      && s'.pending == Some(TrendJob(shown.gen, id, BuildScreenerCacheKey(id, watchlist), token,
                                                     shown.items.value)))
                || (s'.pending == s.pending
                    && (s.requestSlot != Some(shown.gen) || shown.gen in s.requestCancelled || s.quit || s.stopping)))
  {
    hide Init, WorkerStep, BuildScreenerCacheKey, OnTrend, TrendStartStep, StartStep, ResetStep;
    var shown, key, first := run[i].Current(), BuildScreenerCacheKey(id, watchlist), run[i].nextTrend;
    TrendTrackBegins(run[i], run[i + 1], id, watchlist);
    StaysOnTrend(run, i + 1, j - 1, shown.gen, id, key, shown.items.value, first);
    TrendIsStarting(run[j - 1], shown.gen, id, key, shown.items.value, first);
    assert Linked(run, j - 1);
    if UiStep(run[j - 1], run[j]) {
      TrendTrackStep(run[j - 1], run[j], shown.gen, id, key, shown.items.value, first);
      NoTrend(run[j], shown.gen, id, key, shown.items.value, first);
    } else if WorkerStep(run[j - 1], run[j]) {
      WorkerTokens(run[j - 1], run[j]);
    }
  }

  lemma TrendIsStarting(s: State, gen: nat, id: Id, key: string, rows: Rows, first: nat)
    requires OnTrend(s, gen, id, key, rows, first)
    ensures s.ui.StartingTrend?
  {
  }

  lemma NoTrend(s: State, gen: nat, id: Id, key: string, rows: Rows, first: nat)
    requires s.ui == UiIdle
    ensures !OnTrend(s, gen, id, key, rows, first)
  {
  }

  // ---------------------------------------------------------------- a reset

  /** A reset on its way, begun when so many generations had been drawn. */
  predicate OnReset(s: State, drawn: nat) {
    && s.ui.Resetting?
    && (!s.ui.reset.RExchange? ==> s.requestSlot == None)
    && (s.ui.reset.RTrendCancel? || s.ui.reset.RGeneration? || s.ui.reset.RPublish? ==> s.trendSlot == None)
    && (if s.ui.reset.RPublish? then s.nextGeneration == drawn + 1 == s.ui.gen else s.nextGeneration == drawn)
  }

  predicate EndsReset(s': State, drawn: nat) {
    && s'.ui == UiIdle && s'.history != [] && s'.Current() == Snapshot(drawn + 1, "", Idle, None)
    && s'.requestSlot == None && s'.trendSlot == None && s'.nextGeneration == drawn + 1
  }

  lemma ResetTrackStep(s: State, s': State, drawn: nat)
    requires s.history != [] && OnReset(s, drawn) && ResetStep(s, s', s.ui.gen, s.ui.reset)
    ensures OnReset(s', drawn) || EndsReset(s', drawn)
  {
    var gen := s.ui.gen;
    match s.ui.reset
    case RExchange => assert s' == s.(requestSlot := None, ui := Resetting(gen, RCancel(s.requestSlot)));
    case RCancel(_) => assert s' == s.(requestCancelled := s'.requestCancelled, ui := Resetting(gen, RTrendExchange));
    case RTrendExchange => assert s' == s.(trendSlot := None, ui := Resetting(gen, RTrendCancel(s.trendSlot)));
    case RTrendCancel(_) => assert s' == s.(trendCancelled := s'.trendCancelled, ui := Resetting(gen, RGeneration));
    case RGeneration =>
      assert s' == s.(nextGeneration := drawn + 1, genId := s'.genId, ui := Resetting(drawn + 1, RPublish));
    case RPublish => assert s' == s.Published(Snapshot(gen, "", Idle, None), Ui).(ui := UiIdle);
  }

  lemma ResetTrackStays(s: State, s': State, drawn: nat)
    requires OnReset(s, drawn) && s'.ui == s.ui && s'.requestSlot == s.requestSlot
    requires (s.trendSlot == None ==> s'.trendSlot == None) && s'.nextGeneration == s.nextGeneration
    ensures OnReset(s', drawn)
  {
  }

  lemma {:induction false} StaysOnReset(run: seq<State>, i: nat, j: nat, drawn: nat)
    requires IsRun(run) && i <= j < |run| && OnReset(run[i], drawn)
    requires forall m :: i <= m <= j ==> run[m].ui.Resetting?
    ensures OnReset(run[j], drawn)
    decreases j
  {
    hide Init, WorkerStep, OnReset, EndsReset, StartStep, TrendStartStep, ResetStep;
    if i < j {
      StaysOnReset(run, i, j - 1, drawn);
      assert Linked(run, j - 1);
      var s, s' := run[j - 1], run[j];
      if UiStep(s, s') {
        ResetTrackStep(s, s', drawn);
        NotEnded(s', drawn);
      } else {
        if WorkerStep(s, s') {
          WorkerTokens(s, s');
        }
        ResetTrackStays(s, s', drawn);
      }
    }
  }

  lemma NotEnded(s: State, drawn: nat)
    requires s.ui.Resetting?
    ensures !EndsReset(s, drawn)
  {
  }

  lemma ResetBegins(s: State)
    requires s.ui == Resetting(0, RExchange)
    ensures OnReset(s, s.nextGeneration)
  {
  }

  /** A reset ends with nothing on display, under a generation of its own, and with both slots empty. */
  lemma ResetEnds(run: seq<State>, i: nat, j: nat)
    requires IsRun(run) && i < j < |run| && run[i].ui == Resetting(0, RExchange)
    requires (forall m :: i < m < j ==> run[m].ui.Resetting?) && run[j].ui == UiIdle
    ensures run[j].history != []
    ensures run[j].Current() == Snapshot(run[i].nextGeneration + 1, "", Idle, None)
    ensures run[j].requestSlot == None && run[j].trendSlot == None
  {
    hide Init, WorkerStep, OnReset, StartStep, TrendStartStep, ResetStep;
    var drawn := run[i].nextGeneration;
    ResetBegins(run[i]);
    StaysOnReset(run, i, j - 1, drawn);
    assert Linked(run, j - 1);
    if UiStep(run[j - 1], run[j]) {
      ResetTrackStep(run[j - 1], run[j], drawn);
      NoReset(run[j], drawn);
    } else if WorkerStep(run[j - 1], run[j]) {
      WorkerTokens(run[j - 1], run[j]);
    }
  }

  lemma NoReset(s: State, drawn: nat)
    requires s.ui == UiIdle
    ensures !OnReset(s, drawn)
  {
  }

  // ---------------------------------------------------------------- the cache

  /** What may have put rows under a key: a fetch of that key storing what it got, a trend job of that key storing
      what it has just published, or a start of that key storing persistent rows. */
  predicate Cached(s: State, key: string, rows: Rows) {
    || (s.worker.Fetching? && s.worker.job.key == key && s.worker.fetch == StoreRows(rows))
    || (s.worker.Trending? && s.worker.job.key == key && s.worker.trend.PhaseCache? && s.worker.trend.rows == rows)
    || (s.ui.Starting? && s.ui.key == key && s.ui.start == SCacheStore(rows))
  }

  /** A store touches no other key. */
  lemma StoredUnder(cache: map<string, Rows>, cache': map<string, Rows>, key: string, rows: Rows, k: string)
    requires StoredCache(cache, cache', key, rows) && k in cache' && !(k in cache && cache[k] == cache'[k])
    ensures k == key && cache'[k] == rows
  {
  }

  lemma ResetFrame(s: State, s': State, gen: nat, at: ResetAt)
    requires s.history != [] && ResetStep(s, s', gen, at)
    ensures s'.cache == s.cache
  {
  }

  lemma UiCaches(s: State, s': State, key: string)
    requires s.history != [] && UiStep(s, s') && key in s'.cache && !(key in s.cache && s.cache[key] == s'.cache[key])
    ensures Cached(s, key, s'.cache[key])
  {
    hide StartStep, TrendStartStep, ResetStep, StoredCache;
    match s.ui
    case UiIdle => IdleFrame(s, s');
    case Starting(id, k, empty, gen, at) =>
      if at.SEmptyPublish? || at.SFail? {
        SettleFrame(s, s', id, k, empty, gen, at);
      } else if at.SPublish? {
        StartPublishFrame(s, s', id, k, empty, gen, at);
      } else {
        StartFrame(s, s', id, k, empty, gen, at);
        if at.SCacheStore? {
          StoredUnder(s.cache, s'.cache, k, at.rows, key);
        }
      }
    case StartingTrend(job, at) => TrendStartFrame(s, s', job, at);
    case Resetting(gen, at) => ResetFrame(s, s', gen, at);
  }

  lemma WorkerCaches(s: State, s': State, key: string)
    requires s.history != [] && WorkerStep(s, s')
    requires key in s'.cache && !(key in s.cache && s.cache[key] == s'.cache[key])
    ensures Cached(s, key, s'.cache[key])
  {
    hide FetchStep, TrendStep, StoredCache;
    match s.worker
    case Fetching(job, at) =>
      if FetchStep(s, s', job, at) {
        if at.ProgressPublish? || at.FinalPublish? || at.Failing? {
          FetchPublishFrame(s, s', job, at);
        } else {
          FetchFrame(s, s', job, at);
          if at.StoreRows? {
            StoredUnder(s.cache, s'.cache, job.key, at.rows, key);
          }
        }
      }
    case Trending(job, at) =>
      if TrendStep(s, s', job, at) {
        if at.PhaseCas? {
          PhaseCasFrame(s, s', job, at);
        } else {
          TrendFrame(s, s', job, at);
          if at.PhaseCache? {
            StoredUnder(s.cache, s'.cache, job.key, at.rows, key);
          }
        }
      }
    case _ =>
  }

  /** The cache holds nothing else: whenever the rows under a key change, a fetch, a trend job or a start of that very
      key is storing them. */
  lemma CachedUnderItsKey(run: seq<State>, i: nat, key: string)
    requires IsRun(run) && i + 1 < |run| && key in run[i + 1].cache
    requires !(key in run[i].cache && run[i].cache[key] == run[i + 1].cache[key])
    ensures Cached(run[i], key, run[i + 1].cache[key])
  {
    hide Init, UiStep, WorkerStep, Cached;
    assert Linked(run, i);
    if UiStep(run[i], run[i + 1]) {
      UiCaches(run[i], run[i + 1], key);
    } else if WorkerStep(run[i], run[i + 1]) {
      WorkerCaches(run[i], run[i + 1], key);
    }
  }
}
