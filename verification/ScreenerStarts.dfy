/** What a start shows at once: the rows of its screener that are on display already. */
module ScreenerStarts {
  import opened Options
  import opened ScreenerProtocol
  import opened ScreenerInvariant
  import opened ScreenerRuns
  import opened ScreenerRows
  import opened ScreenerTokens

  /** The start remembers the snapshot it saw, or is about to show its rows. */
  predicate Carries(ui: UiPc, id: Id, shown: nat, items: Option<Rows>) {
    && ui.Starting? && ui.id == id
    && match ui.start
       case SGeneration(seen) => seen == shown
       case SExchange(seen) => seen == shown
       case SCancel(seen, _) => seen == shown
       case STrendExchange(seen) => seen == shown
       case STrendCancel(seen, _) => seen == shown
       case SDisplay(seen) => seen == shown
       case SPublish(rows) => rows == items
       case _ => false
  }

  /** The rows are on display under the new generation. */
  predicate ShowsAgain(s: State, id: Id, items: Option<Rows>) {
    && s.ui.Starting? && s.ui.start.SDecide? && s.history != []
    && s.Current() == Snapshot(s.ui.gen, id, if items.Some? then Refreshing else Loading, items)
  }

  lemma TokensCarryOn(s: State, s': State, id: Id, key: string, empty: bool, gen: nat, at: StartAt, shown: nat,
        items: Option<Rows>)
    requires s.history != [] && StartStep(s, s', id, key, empty, gen, at)
    requires at.SGeneration? || at.SExchange? || at.SCancel? || at.STrendExchange? || at.STrendCancel?
    requires Carries(Starting(id, key, empty, gen, at), id, shown, items)
    ensures Carries(s'.ui, id, shown, items)
  {
    hide StoredCache, KeyOwner, PublishStep, FinishStep, Cancel;
    match at
    case SGeneration(_) =>
      assert s' == s.(nextGeneration := s'.nextGeneration, genId := s'.genId,
                      ui := Starting(id, key, empty, s.nextGeneration + 1, SExchange(shown)));
    case SExchange(_) =>
      assert s' == s.(requestSlot := s'.requestSlot,
                      ui := Starting(id, key, empty, gen, SCancel(shown, s.requestSlot)));
    case SCancel(_, _) =>
      assert s' == s.(requestCancelled := s'.requestCancelled,
                      ui := Starting(id, key, empty, gen, STrendExchange(shown)));
    case STrendExchange(_) =>
      assert s' == s.(trendSlot := s'.trendSlot, ui := Starting(id, key, empty, gen, STrendCancel(shown, s.trendSlot)));
    case STrendCancel(_, _) =>
      assert s' == s.(trendCancelled := s'.trendCancelled, ui := Starting(id, key, empty, gen, SDisplay(shown)));
  }

  lemma RowsCarryOn(s: State, s': State, id: Id, key: string, empty: bool, gen: nat, at: StartAt, shown: nat,
        items: Option<Rows>)
    requires s.history != [] && StartStep(s, s', id, key, empty, gen, at) && (at.SDisplay? || at.SPublish?)
    requires Carries(Starting(id, key, empty, gen, at), id, shown, items) && items.Some?
    requires shown < |s.history| && s.history[shown].snap.id == id && s.history[shown].snap.items == items
    ensures Carries(s'.ui, id, shown, items) || ShowsAgain(s', id, items)
  {
    hide StoredCache, KeyOwner, PublishStep, FinishStep, Cancel;
    if at.SDisplay? {
      assert s' == s.(ui := Starting(id, key, empty, gen, SPublish(items)));
    } else {
      assert s' == s.Published(Snapshot(gen, id, Refreshing, items), Ui).(ui := Starting(id, key, empty, gen, SDecide));
    }
  }

  lemma CarriesOn(s: State, s': State, id: Id, shown: nat, items: Option<Rows>)
    requires s.history != [] && Carries(s.ui, id, shown, items) && UiStep(s, s')
    requires shown < |s.history| && s.history[shown].snap.id == id && s.history[shown].snap.items == items
    requires items.Some?
    ensures Carries(s'.ui, id, shown, items) || ShowsAgain(s', id, items)
  {
    hide StartStep, ShowsAgain;
    var Starting(_, key, empty, gen, at) := s.ui;
    if at.SDisplay? || at.SPublish? {
      RowsCarryOn(s, s', id, key, empty, gen, at, shown, items);
    } else {
      TokensCarryOn(s, s', id, key, empty, gen, at, shown, items);
    }
  }

  /** A start that finds rows of its screener on display shows them again, as Refreshing under the new generation,
      when it first shows anything, whatever the worker does in the meantime. */
  lemma {:induction false} RestartShowsRows(run: seq<State>, i: nat, j: nat, id: Id, shown: nat)
    requires IsRun(run) && i <= j < |run| && run[i].ui.Starting? && run[i].ui.id == id
    requires run[i].ui.start == SGeneration(shown) && shown < |run[i].history|
    requires run[i].history[shown].snap.id == id && run[i].history[shown].snap.items.Some?
    requires forall m :: i <= m < j ==> run[m].ui.Starting? && !Submitting(run[m].ui)
    ensures shown < |run[j].history| && run[j].history[shown] == run[i].history[shown]
    ensures var items := run[i].history[shown].snap.items;
            Carries(run[j].ui, id, shown, items) || ShowsAgain(run[j], id, items)
    decreases j
  {
    hide Init, UiStep, WorkerStep, Carries;
    RunExtendsHistory(run, i, j);
    if i < j {
      RestartShowsRows(run, i, j - 1, id, shown);
      assert Linked(run, j - 1);
      var s, s', items := run[j - 1], run[j], run[i].history[shown].snap.items;
      if UiStep(s, s') {
        CarriesOn(s, s', id, shown, items);
      } else if WorkerStep(s, s') {
        WorkerTokens(s, s');
      }
    } else {
      CarriesFirst(run[i].ui, id, shown, run[i].history[shown].snap.items);
    }
  }

  lemma CarriesFirst(ui: UiPc, id: Id, shown: nat, items: Option<Rows>)
    requires ui.Starting? && ui.id == id && ui.start == SGeneration(shown)
    ensures Carries(ui, id, shown, items)
  {
  }
}
