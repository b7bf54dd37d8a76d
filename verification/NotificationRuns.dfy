/** What the notification channel keeps over whole runs, clears included. */
module NotificationRuns {
  import opened Options
  import opened NotificationChannel

  /** Batch ids start again with every clear, so over a whole run a batch is known by the number of clears
      before it and its id. */
  type Key = (nat, nat)

  /** A published state of a batch. */
  datatype Entry = Entry(clears: nat, id: nat, revision: nat, rows: seq<Row>)
  {
    function Key(): Key {
      (clears, id)
    }
  }

  /** The channel with its history, which a clear does not touch: how often it has been cleared, the moves
      queued into each batch, and what has been published. */
  datatype State = State(
    queue: seq<Request>,
    batches: seq<Batch>,
    nextId: nat,
    clears: nat,
    moves: map<Key, seq<Row>>,
    log: seq<Entry>)
  {
    function KeyOf(b: Batch): Key {
      (clears, b.id)
    }
  }

  datatype Event =
    | Clear
    | Enqueue(request: Request)
    | Take
    | Move(row: Row, nearby: bool, now: int)
    | TakeMoves(enabled: bool, now: int)

  /** The states TakeReady publishes. */
  function Entries(batches: seq<Batch>, clears: nat, now: int): seq<Entry> {
    if batches == [] then []
    else
      var batch := batches[0];
      (if Dirty(batch) then [Entry(clears, batch.id, batch.revision, batch.rows)] else [])
      + (if Ready(batch, now) then Entries(batches[1..], clears, now) else [])
  }

  lemma {:induction false} EntriesArePublished(batches: seq<Batch>, clears: nat, now: int)
    ensures |Entries(batches, clears, now)| == |TakeReady(batches, now).0|
    ensures forall i :: 0 <= i < |Entries(batches, clears, now)| ==>
              var entry, request := Entries(batches, clears, now)[i], TakeReady(batches, now).0[i];
              && entry.clears == clears && request.groupId == entry.id
              && request.content.Moves? && request.content.rows == entry.rows
              && request.content.actionTicker == (if |entry.rows| == 1 then entry.rows[0].ticker else "")
  {
    hide Dirty, Ready;
    if batches != [] {
      EntriesArePublished(batches[1..], clears, now);
    }
  }

  function Initial(): State {
    State([], [], 0, 0, map[], [])
  }

  function MovesOf(moves: map<Key, seq<Row>>, key: Key): seq<Row> {
    if key in moves then moves[key] else []
  }

  function Moved(s: State, row: Row, nearby: bool, now: int): State {
    var (batches, nextId) := QueueMove(s.batches, s.nextId, row, nearby, now);
    var key := s.KeyOf(batches[|batches| - 1]);
    s.(batches := batches, nextId := nextId, moves := s.moves[key := MovesOf(s.moves, key) + [row]])
  }

  function Next(s: State, e: Event): State {
    match e
    case Clear => s.(queue := [], batches := [], nextId := 0, clears := s.clears + 1)
    case Enqueue(request) => s.(queue := Enqueued(s.queue, request))
    case Take => if s.queue == [] then s else s.(queue := s.queue[1..])
    case Move(row, nearby, now) => Moved(s, row, nearby, now)
    case TakeMoves(enabled, now) =>
      if enabled then s.(batches := TakeReady(s.batches, now).1, log := s.log + Entries(s.batches, s.clears, now))
      else s.(batches := [])
  }

  // ---------------------------------------------------------------- the invariant

  /** A batch sums up the moves queued into it and counts them. */
  predicate GoodBatch(s: State, b: Batch) {
    && 1 <= b.id <= s.nextId && s.KeyOf(b) in s.moves && b.rows == Summary(s.moves[s.KeyOf(b)])
    && b.published <= b.revision == |s.moves[s.KeyOf(b)]| && b.revision >= 1 && |b.rows| <= MAX_ROWS
  }

  /** A batch number given out so far. */
  predicate Past(s: State, key: Key) {
    key.0 < s.clears || (key.0 == s.clears && key.1 <= s.nextId)
  }

  predicate GoodEntry(s: State, entry: Entry) {
    && Past(s, entry.Key()) && entry.Key() in s.moves && 1 <= entry.revision <= |s.moves[entry.Key()]|
    && entry.rows == Summary(s.moves[entry.Key()][..entry.revision])
  }

  predicate Ascending(batches: seq<Batch>) {
    forall i, j :: 0 <= i < j < |batches| ==> batches[i].id < batches[j].id
  }

  predicate Before(a: Entry, b: Entry) {
    || a.clears < b.clears
    || (a.clears == b.clears && a.id < b.id)
    || (a.clears == b.clears && a.id == b.id && a.revision < b.revision)
  }

  predicate LogAscends(log: seq<Entry>) {
    forall i, j :: 0 <= i < j < |log| ==> Before(log[i], log[j])
  }

  /** The last publication is of an earlier batch than the front one, or is its published revision. */
  predicate Linked(log: seq<Entry>, clears: nat, batches: seq<Batch>) {
    log != [] && batches != [] ==>
      var last := log[|log| - 1];
      || last.clears < clears
      || (last.clears == clears && last.id < batches[0].id)
      || (last.clears == clears && last.id == batches[0].id && last.revision <= batches[0].published)
  }

  /** This revision of this batch has been published. */
  predicate Logged(log: seq<Entry>, key: Key, revision: nat) {
    exists i :: 0 <= i < |log| && log[i].Key() == key && log[i].revision == revision
  }

  predicate PublishedLogged(log: seq<Entry>, clears: nat, batches: seq<Batch>) {
    forall k :: 0 <= k < |batches| && batches[k].published > 0 ==>
      Logged(log, (clears, batches[k].id), batches[k].published)
  }

  predicate GoodBatches(s: State) {
    && |s.batches| <= MAX_BATCHES && Ascending(s.batches)
    && (forall k :: 0 <= k < |s.batches| ==> GoodBatch(s, s.batches[k]))
    && (forall key :: key in s.moves ==> Past(s, key))
  }

  predicate GoodLog(s: State) {
    && LogAscends(s.log) && Linked(s.log, s.clears, s.batches) && PublishedLogged(s.log, s.clears, s.batches)
    && forall i :: 0 <= i < |s.log| ==> GoodEntry(s, s.log[i])
  }

  predicate Inv(s: State) {
    GoodQueue(s.queue) && GoodBatches(s) && GoodLog(s)
  }

  // ---------------------------------------------------------------- queueing keeps it

  lemma LoggedStays(log: seq<Entry>, more: seq<Entry>, key: Key, revision: nat)
    requires Logged(log, key, revision)
    ensures Logged(log + more, key, revision)
  {
    var i :| 0 <= i < |log| && log[i].Key() == key && log[i].revision == revision;
    assert (log + more)[i] == log[i];
  }

  lemma PublishedStays(log: seq<Entry>, more: seq<Entry>, clears: nat, batches: seq<Batch>)
    requires PublishedLogged(log, clears, batches)
    ensures PublishedLogged(log + more, clears, batches)
  {
    forall k | 0 <= k < |batches| && batches[k].published > 0
      ensures Logged(log + more, (clears, batches[k].id), batches[k].published)
    {
      LoggedStays(log, more, (clears, batches[k].id), batches[k].published);
    }
  }

  lemma PublishedFront(log: seq<Entry>, clears: nat, batches: seq<Batch>, front: Batch)
    requires batches != [] && PublishedLogged(log, clears, batches)
    requires Logged(log, (clears, front.id), front.published)
    ensures PublishedLogged(log, clears, [front] + batches[1..])
  {
  }

  /** Without its front a sequence of batches keeps its order and its link to the log. */
  lemma DropFront(log: seq<Entry>, clears: nat, batches: seq<Batch>)
    requires batches != [] && Ascending(batches)
    requires Linked(log, clears, batches) && PublishedLogged(log, clears, batches)
    ensures Ascending(batches[1..])
    ensures Linked(log, clears, batches[1..]) && PublishedLogged(log, clears, batches[1..])
  {
    forall k | 0 <= k < |batches[1..]| && batches[1..][k].published > 0
      ensures Logged(log, (clears, batches[1..][k].id), batches[1..][k].published)
    {
      assert batches[1..][k] == batches[k + 1];
    }
  }

  /** Moves are only added, so what is known of other batches and of the log stays. */
  lemma EntryStaysGood(s: State, s': State, entry: Entry)
    requires GoodEntry(s, entry) && Past(s', entry.Key())
    requires entry.Key() in s'.moves && s.moves[entry.Key()] <= s'.moves[entry.Key()]
    ensures GoodEntry(s', entry)
  {
    assert s.moves[entry.Key()][..entry.revision] == s'.moves[entry.Key()][..entry.revision];
  }

  /** Batches whose newest may take a move of this stock: it sums up its moves, or has none yet. */
  predicate GoodTarget(s: State, target: seq<Batch>, nextId: nat, ticker: string) {
    && target != [] && |target| <= MAX_BATCHES && s.nextId <= nextId
    && Ascending(target) && Linked(s.log, s.clears, target) && PublishedLogged(s.log, s.clears, target)
    && (forall k :: 0 <= k < |target| - 1 ==> GoodBatch(s, target[k]))
    && GoodNewest(s, target[|target| - 1], nextId, ticker)
  }

  predicate GoodNewest(s: State, newest: Batch, nextId: nat, ticker: string) {
    && (IndexOf(newest.rows, ticker).Some? || |newest.rows| < MAX_ROWS) && |newest.rows| <= MAX_ROWS
    && 1 <= newest.id <= nextId
    && newest.rows == Summary(MovesOf(s.moves, s.KeyOf(newest)))
    && newest.published <= newest.revision == |MovesOf(s.moves, s.KeyOf(newest))|
  }

  function MovedTo(s: State, target: seq<Batch>, nextId: nat, row: Row, nearby: bool, now: int): State
    requires target != []
  {
    var newest := target[|target| - 1];
    s.(batches := target[|target| - 1 := Queued(newest, row, nearby, now)], nextId := nextId,
       moves := s.moves[s.KeyOf(newest) := MovesOf(s.moves, s.KeyOf(newest)) + [row]])
  }

  lemma MovedKeepsBatches(s: State, target: seq<Batch>, nextId: nat, row: Row, nearby: bool, now: int)
    requires GoodTarget(s, target, nextId, row.ticker) && forall key :: key in s.moves ==> Past(s, key)
    ensures GoodBatches(MovedTo(s, target, nextId, row, nearby, now))
  {
    hide Queued, Linked, PublishedLogged;
    var newest := target[|target| - 1];
    var s' := MovedTo(s, target, nextId, row, nearby, now);
    NewestIsGood(s, newest, nextId, row, nearby, now);
    QueuedKeepsIdentity(newest, row, nearby, now);
    hide GoodBatch, GoodNewest;
    forall k | 0 <= k < |s'.batches|
      ensures GoodBatch(s', s'.batches[k])
    {
      if k < |target| - 1 {
        assert target[k].id < newest.id;
        OtherBatchStaysGood(s, s', target[k]);
      } else {
        SameBatch(s', newest, row, nearby, now);
      }
    }
    assert newest.id <= nextId by { NewestFits(s, newest, nextId, row.ticker); }
  }

  lemma NewestFits(s: State, newest: Batch, nextId: nat, ticker: string)
    requires GoodNewest(s, newest, nextId, ticker)
    ensures newest.id <= nextId
  {
  }

  lemma NewestIsGood(s: State, newest: Batch, nextId: nat, row: Row, nearby: bool, now: int)
    requires GoodNewest(s, newest, nextId, row.ticker)
    ensures QueuedGood(s.clears, s.moves[s.KeyOf(newest) := MovesOf(s.moves, s.KeyOf(newest)) + [row]], nextId,
                       Queued(newest, row, nearby, now))
  {
    var moves := MovesOf(s.moves, s.KeyOf(newest)) + [row];
    assert moves[..|moves| - 1] == MovesOf(s.moves, s.KeyOf(newest));
  }

  predicate QueuedGood(clears: nat, moves: map<Key, seq<Row>>, nextId: nat, b: Batch) {
    GoodBatch(State([], [], nextId, clears, moves, []), b)
  }

  lemma SameBatch(s: State, newest: Batch, row: Row, nearby: bool, now: int)
    requires QueuedGood(s.clears, s.moves, s.nextId, Queued(newest, row, nearby, now))
    ensures GoodBatch(s, Queued(newest, row, nearby, now))
  {
  }

  lemma MovedKeepsLog(s: State, target: seq<Batch>, nextId: nat, row: Row, nearby: bool, now: int)
    requires GoodTarget(s, target, nextId, row.ticker) && GoodLog(s)
    ensures GoodLog(MovedTo(s, target, nextId, row, nearby, now))
  {
    hide Queued, GoodBatch, GoodNewest, LogAscends, Logged, GoodEntry;
    var newest := target[|target| - 1];
    var s' := MovedTo(s, target, nextId, row, nearby, now);
    QueuedKeepsIdentity(newest, row, nearby, now);
    forall i | 0 <= i < |s.log|
      ensures GoodEntry(s', s.log[i])
    {
      EntryInMoves(s, s.log[i]);
      EntryStaysGood(s, s', s.log[i]);
    }
  }

  lemma MoveKeepsInv(s: State, row: Row, nearby: bool, now: int)
    requires Inv(s)
    ensures Inv(Moved(s, row, nearby, now))
  {
    hide GoodQueue, MayJoin, Opened, Queued, GoodTarget, GoodLog;
    var joins := MayJoin(s.batches, row, nearby, now);
    var target := if joins then s.batches else Opened(s.batches, s.nextId);
    var nextId := if joins then s.nextId else s.nextId + 1;
    TargetIsGood(s, row, nearby, now);
    MovedKeepsBatches(s, target, nextId, row, nearby, now);
    MovedKeepsLog(s, target, nextId, row, nearby, now);
    QueuedKeepsIdentity(target[|target| - 1], row, nearby, now);
    assert Moved(s, row, nearby, now) == MovedTo(s, target, nextId, row, nearby, now);
  }

  lemma EntryInMoves(s: State, entry: Entry)
    requires GoodEntry(s, entry)
    ensures entry.Key() in s.moves && Past(s, entry.Key())
  {
  }

  lemma OtherBatchStaysGood(s: State, s': State, b: Batch)
    requires GoodBatch(s, b) && s.nextId <= s'.nextId && s'.clears == s.clears
    requires s.KeyOf(b) in s'.moves && s'.moves[s.KeyOf(b)] == s.moves[s.KeyOf(b)]
    ensures GoodBatch(s', b)
  {
  }

  lemma QueuedKeepsIdentity(batch: Batch, row: Row, nearby: bool, now: int)
    ensures var q := Queued(batch, row, nearby, now); q.id == batch.id && q.published == batch.published
  {
  }

  lemma TargetIsGood(s: State, row: Row, nearby: bool, now: int)
    requires Inv(s)
    ensures var joins := MayJoin(s.batches, row, nearby, now);
            var target := if joins then s.batches else Opened(s.batches, s.nextId);
            target != [] && GoodTarget(s, target, if joins then s.nextId else s.nextId + 1, row.ticker)
  {
    hide GoodQueue, LogAscends, Logged, Linked, PublishedLogged, Ascending, GoodEntry, IndexOf, Summary;
    if MayJoin(s.batches, row, nearby, now) {
      assert GoodBatch(s, s.batches[|s.batches| - 1]);
    } else if |s.batches| >= MAX_BATCHES {
      DropFront(s.log, s.clears, s.batches);
      OpenedIsGood(s, s.batches[1..], row.ticker);
    } else {
      OpenedIsGood(s, s.batches, row.ticker);
    }
  }

  lemma OpenedIsGood(s: State, kept: seq<Batch>, ticker: string)
    requires |kept| < MAX_BATCHES && Ascending(kept)
    requires Linked(s.log, s.clears, kept) && PublishedLogged(s.log, s.clears, kept)
    requires forall k :: 0 <= k < |kept| ==> GoodBatch(s, kept[k])
    requires forall i :: 0 <= i < |s.log| ==> GoodEntry(s, s.log[i])
    requires forall key :: key in s.moves ==> Past(s, key)
    ensures GoodTarget(s, kept + [Batch([], 0, s.nextId + 1, 0, 0)], s.nextId + 1, ticker)
  {
    var added := Batch([], 0, s.nextId + 1, 0, 0);
    forall k | 0 <= k < |kept|
      ensures kept[k].id <= s.nextId
    {
      assert GoodBatch(s, kept[k]);
    }
    assert GoodNewest(s, added, s.nextId + 1, ticker);
    hide Logged, Linked, PublishedLogged, Ascending, GoodEntry, GoodBatch, GoodNewest;
    NewestIsLinked(s, kept);
  }

  lemma NewestIsLinked(s: State, kept: seq<Batch>)
    requires Ascending(kept) && Linked(s.log, s.clears, kept) && PublishedLogged(s.log, s.clears, kept)
    requires forall k :: 0 <= k < |kept| ==> kept[k].id <= s.nextId
    requires forall i :: 0 <= i < |s.log| ==> GoodEntry(s, s.log[i])
    ensures var target := kept + [Batch([], 0, s.nextId + 1, 0, 0)];
            Ascending(target) && Linked(s.log, s.clears, target) && PublishedLogged(s.log, s.clears, target)
  {
    hide Logged;
    if s.log != [] {
      assert GoodEntry(s, s.log[|s.log| - 1]);
    }
  }

  // ---------------------------------------------------------------- publishing keeps it

  /** The state after the front batch has been looked at. */
  function FrontTaken(s: State): State
    requires s.batches != []
  {
    var batch := s.batches[0];
    s.(batches := [batch.(published := batch.revision)] + s.batches[1..],
       log := s.log + (if Dirty(batch) then [Entry(s.clears, batch.id, batch.revision, batch.rows)] else []))
  }

  lemma FrontTakenKeepsInv(s: State)
    requires Inv(s) && s.batches != []
    ensures Inv(FrontTaken(s))
  {
    FrontTakenKeepsBatches(s);
    FrontTakenKeepsLog(s);
    hide GoodBatches, GoodLog;
  }

  lemma FrontTakenKeepsBatches(s: State)
    requires GoodBatches(s) && s.batches != []
    ensures GoodBatches(FrontTaken(s))
  {
    hide Summary;
    var s' := FrontTaken(s);
    assert GoodBatch(s, s.batches[0]);
    forall k | 0 <= k < |s'.batches|
      ensures GoodBatch(s', s'.batches[k])
    {
      if k > 0 {
        assert s'.batches[k] == s.batches[k];
        OtherBatchStaysGood(s, s', s.batches[k]);
      }
    }
  }

  lemma FrontTakenKeepsLog(s: State)
    requires GoodBatches(s) && GoodLog(s) && s.batches != []
    ensures GoodLog(FrontTaken(s))
  {
    hide Summary, Logged;
    var s' := FrontTaken(s);
    var batch := s.batches[0];
    assert GoodBatch(s, batch);
    hide GoodBatches;
    assert s.moves[s.KeyOf(batch)][..batch.revision] == s.moves[s.KeyOf(batch)];
    FrontIsLogged(s);
    assert s'.log == s.log + s'.log[|s.log|..];
    PublishedStays(s.log, s'.log[|s.log|..], s.clears, s.batches);
    PublishedFront(s'.log, s.clears, s.batches, s'.batches[0]);
    hide PublishedLogged;
    forall i | 0 <= i < |s.log|
      ensures GoodEntry(s', s.log[i])
    {
      EntryInMoves(s, s.log[i]);
      EntryStaysGood(s, s', s.log[i]);
    }
  }

  lemma FrontIsLogged(s: State)
    requires GoodBatches(s) && GoodLog(s) && s.batches != []
    ensures Logged(FrontTaken(s).log, s.KeyOf(s.batches[0]), s.batches[0].revision)
  {
    hide GoodQueue, Summary;
    var batch := s.batches[0];
    var log := FrontTaken(s).log;
    assert GoodBatch(s, batch);
    if Dirty(batch) {
      assert log[|log| - 1].Key() == s.KeyOf(batch);
    } else {
      assert log == s.log;
    }
  }

  lemma FrontDroppedKeepsInv(s: State)
    requires Inv(s) && s.batches != []
    ensures Inv(s.(batches := s.batches[1..]))
  {
    hide GoodQueue, Logged, LogAscends;
    DropFront(s.log, s.clears, s.batches);
    var s' := s.(batches := s.batches[1..]);
    forall k | 0 <= k < |s'.batches|
      ensures GoodBatch(s', s'.batches[k])
    {
      assert GoodBatch(s, s.batches[k + 1]);
    }
    forall i | 0 <= i < |s.log|
      ensures GoodEntry(s', s.log[i])
    {
      assert GoodEntry(s, s.log[i]);
    }
  }

  /** Taking looks at the front batch, and at the rest if that one was ready. */
  lemma TakeUnfolds(s: State, now: int)
    requires s.batches != []
    ensures var front := FrontTaken(s);
            Next(s, TakeMoves(true, now))
            == if Ready(s.batches[0], now) then Next(front.(batches := s.batches[1..]), TakeMoves(true, now)) else front
  {
    hide Dirty, Ready;
    var batch := s.batches[0];
    var first := if Dirty(batch) then [Entry(s.clears, batch.id, batch.revision, batch.rows)] else [];
    var rest := Entries(s.batches[1..], s.clears, now);
    assert s.log + (first + rest) == (s.log + first) + rest;
    assert first + [] == first;
  }

  lemma {:induction false} TakeKeepsInv(s: State, now: int)
    requires Inv(s)
    ensures Inv(Next(s, TakeMoves(true, now)))
    decreases |s.batches|
  {
    hide Inv, Ready;
    if s.batches == [] {
      assert s.log + [] == s.log;
    } else {
      TakeUnfolds(s, now);
      FrontTakenKeepsInv(s);
      var front := FrontTaken(s);
      if Ready(s.batches[0], now) {
        FrontDroppedKeepsInv(front);
        assert front.batches[1..] == s.batches[1..];
        TakeKeepsInv(front.(batches := s.batches[1..]), now);
      }
    }
  }

  lemma NextKeepsInv(s: State, e: Event)
    requires Inv(s)
    ensures Inv(Next(s, e))
  {
    hide GoodQueue, GoodBatch, GoodEntry, Moved;
    match e
    case Clear => ClearKeepsInv(s);
    case Enqueue(request) =>
      EnqueueKeepsQueue(s.queue, request);
      QueueIsApart(s, Next(s, e));
    case Take =>
      EnqueueKeepsQueue(s.queue, Request(0, Text("")));
      QueueIsApart(s, Next(s, e));
    case Move(row, nearby, now) => MoveKeepsInv(s, row, nearby, now);
    case TakeMoves(enabled, now) =>
      if enabled {
        TakeKeepsInv(s, now);
      } else {
        DroppedAll(s);
      }
  }

  lemma ClearKeepsInv(s: State)
    requires Inv(s)
    ensures Inv(Next(s, Clear))
  {
    hide Logged, Summary;
    var s' := Next(s, Clear);
    forall i | 0 <= i < |s.log|
      ensures GoodEntry(s', s.log[i])
    {
      assert GoodEntry(s, s.log[i]);
    }
  }

  lemma QueueIsApart(s: State, s': State)
    requires Inv(s) && GoodQueue(s'.queue) && s' == s.(queue := s'.queue)
    ensures Inv(s')
  {
    hide GoodQueue, Logged;
  }

  lemma DroppedAll(s: State)
    requires Inv(s)
    ensures Inv(s.(batches := []))
  {
    hide GoodQueue, Logged;
    forall i | 0 <= i < |s.log|
      ensures GoodEntry(s.(batches := []), s.log[i])
    {
      assert GoodEntry(s, s.log[i]);
    }
  }

  // ---------------------------------------------------------------- runs

  predicate IsRun(run: seq<State>, events: seq<Event>) {
    && |run| == |events| + 1 && run[0] == Initial()
    && forall i :: 0 <= i < |events| ==> run[i + 1] == Next(run[i], events[i])
  }

  lemma {:induction false} RunKeepsInv(run: seq<State>, events: seq<Event>, i: nat)
    requires IsRun(run, events) && i < |run|
    ensures Inv(run[i])
    decreases i
  {
    if i > 0 {
      hide Inv, Next;
      RunKeepsInv(run, events, i - 1);
      NextKeepsInv(run[i - 1], events[i - 1]);
      assert run[i] == Next(run[i - 1], events[i - 1]);
    }
  }

  /** Publications come in increasing order of clears, batch and revision. */
  lemma PublishedInOrder(run: seq<State>, events: seq<Event>, i: nat, a: nat, b: nat)
    requires IsRun(run, events) && i < |run| && a < b < |run[i].log|
    ensures Before(run[i].log[a], run[i].log[b])
  {
    RunKeepsInv(run, events, i);
  }

  lemma StepGrows(s: State, e: Event)
    ensures s.log <= Next(s, e).log && s.clears <= Next(s, e).clears
    ensures s.clears < Next(s, e).clears <==> e == Clear
    ensures s.log < Next(s, e).log ==> e.TakeMoves? && e.enabled
    ensures forall k :: |s.log| <= k < |Next(s, e).log| ==> Next(s, e).log[k].clears == s.clears
  {
    hide QueueMove, Enqueued, TakeReady, Entries;
    if e.TakeMoves? && e.enabled {
      EntriesArePublished(s.batches, s.clears, e.now);
    }
  }

  /** Nothing is ever taken out of the log, and the clears are counted. */
  lemma {:induction false} RunGrows(run: seq<State>, events: seq<Event>, i: nat, j: nat)
    requires IsRun(run, events) && i <= j < |run|
    ensures run[i].log <= run[j].log && run[i].clears <= run[j].clears
    decreases j
  {
    hide Next;
    if i < j {
      RunGrows(run, events, i, j - 1);
      assert run[j] == Next(run[j - 1], events[j - 1]);
      StepGrows(run[j - 1], events[j - 1]);
    }
  }

  /** The event that made a publication. */
  predicate Publishes(run: seq<State>, m: nat, k: nat)
    requires m + 1 < |run|
  {
    |run[m].log| <= k < |run[m + 1].log|
  }

  lemma {:induction false} PublishedBy(run: seq<State>, events: seq<Event>, i: nat, k: nat) returns (m: nat)
    requires IsRun(run, events) && i < |run| && k < |run[i].log|
    ensures m < i && events[m].TakeMoves? && Publishes(run, m, k)
    ensures run[i].log[k].clears == run[m].clears
    decreases i
  {
    hide Next;
    assert i > 0;
    assert run[i] == Next(run[i - 1], events[i - 1]);
    StepGrows(run[i - 1], events[i - 1]);
    if k < |run[i - 1].log| {
      m := PublishedBy(run, events, i - 1, k);
    } else {
      m := i - 1;
    }
  }

  lemma {:induction false} ClearBetween(run: seq<State>, events: seq<Event>, i: nat, j: nat) returns (c: nat)
    requires IsRun(run, events) && i <= j < |run| && run[i].clears < run[j].clears
    ensures i <= c < j && events[c] == Clear
    decreases j
  {
    hide Next;
    assert run[j] == Next(run[j - 1], events[j - 1]);
    StepGrows(run[j - 1], events[j - 1]);
    if run[j - 1].clears < run[j].clears {
      c := j - 1;
    } else {
      c := ClearBetween(run, events, i, j - 1);
    }
  }

  /** A batch id and revision are published twice only across a clear, which restarts the numbering. */
  lemma RepeatedAcrossClear(run: seq<State>, events: seq<Event>, i: nat, a: nat, b: nat)
    returns (m: nat, c: nat, n: nat)
    requires IsRun(run, events) && i < |run| && a < b < |run[i].log|
    requires run[i].log[a].id == run[i].log[b].id && run[i].log[a].revision == run[i].log[b].revision
    ensures m < c < n < i && Publishes(run, m, a) && events[c] == Clear && Publishes(run, n, b)
  {
    PublishedInOrder(run, events, i, a, b);
    hide Next;
    m := PublishedBy(run, events, i, a);
    n := PublishedBy(run, events, i, b);
    if n <= m {
      RunGrows(run, events, n, m);
      assert false;
    }
    c := ClearBetween(run, events, m, n);
  }

  lemma FirstMove(s: State, row: Row)
    requires s.batches == [] && s.nextId == 0 && (s.clears, 1) !in s.moves
    ensures Next(s, Move(row, false, 0))
            == s.(batches := [Batch([row], 0, 1, 1, 0)], nextId := 1, moves := s.moves[(s.clears, 1) := [row]])
  {
    assert [Batch([], 0, 1, 0, 0)][0 := Batch([row], 0, 1, 1, 0)] == [Batch([row], 0, 1, 1, 0)];
    assert WithRow([], row) == [row];
    assert MovesOf(s.moves, (s.clears, 1)) + [row] == [row];
  }

  lemma FirstTake(s: State, row: Row)
    requires s.batches == [Batch([row], 0, 1, 1, 0)]
    ensures Next(s, TakeMoves(true, 0)) == s.(batches := [], log := s.log + [Entry(s.clears, 1, 1, [row])])
  {
    assert s.batches[1..] == [];
    assert Entries(s.batches, s.clears, 0) == [Entry(s.clears, 1, 1, [row])];
    assert TakeReady([], 0).1 == [];
  }

  /** And across a clear they are: a move is published, the channel is cleared, another move is published
      under the same batch id and revision. */
  lemma ClearRepeatsNumbers(first: Row, second: Row) returns (run: seq<State>, events: seq<Event>)
    ensures IsRun(run, events)
    ensures events == [Move(first, false, 0), TakeMoves(true, 0), Clear, Move(second, false, 0), TakeMoves(true, 0)]
    ensures run[5].log == [Entry(0, 1, 1, [first]), Entry(1, 1, 1, [second])]
  {
    var s0 := Initial();
    var s1 := s0.(batches := [Batch([first], 0, 1, 1, 0)], nextId := 1, moves := map[(0, 1) := [first]]);
    var s2 := s1.(batches := [], log := [Entry(0, 1, 1, [first])]);
    var s3 := s2.(nextId := 0, clears := 1);
    var s4 := s3.(batches := [Batch([second], 0, 1, 1, 0)], nextId := 1,
                  moves := s3.moves[(1, 1) := [second]]);
    var s5 := s4.(batches := [], log := [Entry(0, 1, 1, [first]), Entry(1, 1, 1, [second])]);
    FirstMove(s0, first);
    FirstTake(s1, first);
    assert s3 == Next(s2, Clear);
    FirstMove(s3, second);
    FirstTake(s4, second);
    hide Next;
    events := [Move(first, false, 0), TakeMoves(true, 0), Clear, Move(second, false, 0), TakeMoves(true, 0)];
    run := [s0, s1, s2, s3, s4, s5];
  }

  /** A publication shows the moves its batch had received by that revision: one row for each stock, at its
      last price. */
  lemma PublishedIsSummary(run: seq<State>, events: seq<Event>, i: nat, k: nat)
    requires IsRun(run, events) && i < |run| && k < |run[i].log|
    ensures var entry := run[i].log[k];
            && entry.Key() in run[i].moves && 1 <= entry.revision <= |run[i].moves[entry.Key()]|
            && var moves := run[i].moves[entry.Key()][..entry.revision];
               && UniqueTickers(entry.rows) && InOrder(entry.rows, moves)
               && (forall t :: MovesFor(moves, t) != [] <==> IndexOf(entry.rows, t).Some?)
               && (forall r :: 0 <= r < |entry.rows| ==> Sums(entry.rows[r], MovesFor(moves, entry.rows[r].ticker)))
  {
    RunKeepsInv(run, events, i);
    hide Summary, Sums, InOrder, MovesFor, IndexOf;
    var entry := run[i].log[k];
    assert GoodEntry(run[i], entry);
    SummaryIs(run[i].moves[entry.Key()][..entry.revision]);
  }

  /** All sizes are bounded, no group is queued twice, and every batch has one row for each of its stocks. */
  lemma BoundsHold(run: seq<State>, events: seq<Event>, i: nat)
    requires IsRun(run, events) && i < |run|
    ensures |run[i].queue| <= 16 && |run[i].batches| <= 5
    ensures forall a, b :: 0 <= a < b < |run[i].queue| && run[i].queue[a].groupId != 0 ==>
              run[i].queue[a].groupId != run[i].queue[b].groupId
    ensures forall k :: 0 <= k < |run[i].batches| ==>
              |run[i].batches[k].rows| <= 64 && UniqueTickers(run[i].batches[k].rows)
  {
    RunKeepsInv(run, events, i);
    forall k | 0 <= k < |run[i].batches|
      ensures |run[i].batches[k].rows| <= MAX_ROWS && UniqueTickers(run[i].batches[k].rows)
    {
      assert GoodBatch(run[i], run[i].batches[k]);
      SummaryIs(run[i].moves[run[i].KeyOf(run[i].batches[k])]);
    }
  }

  predicate Holds(batches: seq<Batch>, id: nat) {
    exists k :: 0 <= k < |batches| && batches[k].id == id
  }

  lemma FrontHolds(s: State, k: nat)
    requires k < |s.batches|
    ensures Holds(FrontTaken(s).batches, s.batches[k].id)
  {
    assert FrontTaken(s).batches[k].id == s.batches[k].id;
  }

  lemma {:induction false} TakenIsLogged(s: State, now: int, k: nat)
    requires Inv(s) && k < |s.batches| && !Holds(TakeReady(s.batches, now).1, s.batches[k].id)
    ensures Logged(Next(s, TakeMoves(true, now)).log, s.KeyOf(s.batches[k]), |s.moves[s.KeyOf(s.batches[k])]|)
    decreases |s.batches|
  {
    hide Ready, Dirty, GoodQueue, GoodLog, Summary, Logged;
    var s' := Next(s, TakeMoves(true, now));
    var front := FrontTaken(s);
    assert GoodBatch(s, s.batches[k]);
    TakeUnfolds(s, now);
    FrontTakenKeepsInv(s);
    FrontHolds(s, k);
    if Ready(s.batches[0], now) {
      var rest := front.(batches := s.batches[1..]);
      assert front.batches[1..] == s.batches[1..];
      FrontDroppedKeepsInv(front);
      if k == 0 {
        FrontIsLogged(s);
        LoggedStays(front.log, Entries(rest.batches, s.clears, now), s.KeyOf(s.batches[0]), s.batches[0].revision);
      } else {
        assert TakeReady(s.batches, now).1 == TakeReady(rest.batches, now).1;
        TakenIsLogged(rest, now, k - 1);
      }
    } else {
      assert false;
    }
  }

  /** A batch popped as ready has been published at its final revision: with all the moves it ever gets,
      whether or not the channel is cleared afterwards. */
  lemma PoppedIsPublished(run: seq<State>, events: seq<Event>, i: nat, k: nat, j: nat)
    requires IsRun(run, events) && i < |events| && events[i].TakeMoves? && events[i].enabled
    requires k < |run[i].batches| && !Holds(run[i + 1].batches, run[i].batches[k].id)
    requires i < j < |run|
    ensures var key := run[i].KeyOf(run[i].batches[k]);
            key in run[j].moves && Logged(run[i + 1].log, key, |run[j].moves[key]|)
  {
    hide Inv, Logged, TakeReady, Moved;
    RunKeepsInv(run, events, i);
    assert run[i + 1] == Next(run[i], events[i]);
    TakenIsLogged(run[i], events[i].now, k);
    InvBatch(run[i], k);
    GoneForGood(run, events, i + 1, j, run[i].KeyOf(run[i].batches[k]));
  }

  lemma InvBatch(s: State, k: nat)
    requires Inv(s) && k < |s.batches|
    ensures s.KeyOf(s.batches[k]) in s.moves && s.batches[k].id <= s.nextId
  {
    assert GoodBatch(s, s.batches[k]);
  }

  /** A batch given a number once and held no more. */
  predicate Gone(s: State, key: Key) {
    Past(s, key) && (key.0 == s.clears ==> !Holds(s.batches, key.1))
  }

  /** A batch that has gone gets no more moves. */
  lemma {:induction false} GoneForGood(run: seq<State>, events: seq<Event>, i: nat, j: nat, key: Key)
    requires IsRun(run, events) && i <= j < |run|
    requires Gone(run[i], key) && key in run[i].moves
    ensures Gone(run[j], key) && key in run[j].moves && run[j].moves[key] == run[i].moves[key]
    decreases j
  {
    hide Next, Gone;
    if i < j {
      GoneForGood(run, events, i, j - 1, key);
      assert run[j] == Next(run[j - 1], events[j - 1]);
      StaysGone(run[j - 1], events[j - 1], key);
    }
  }

  lemma StaysGone(s: State, e: Event, key: Key)
    requires Gone(s, key) && key in s.moves
    ensures var s' := Next(s, e);
            Gone(s', key) && key in s'.moves && s'.moves[key] == s.moves[key]
  {
    hide Queued, TakeReady;
    match e
    case Move(row, nearby, now) =>
      var joins := MayJoin(s.batches, row, nearby, now);
      var target := if joins then s.batches else Opened(s.batches, s.nextId);
      QueuedKeepsIdentity(target[|target| - 1], row, nearby, now);
      assert key.0 == s.clears ==> !Holds(target, key.1);
    case TakeMoves(enabled, now) => TakeKeepsIds(s.batches, now);
    case _ =>
  }

  lemma {:induction false} TakeKeepsIds(batches: seq<Batch>, now: int)
    ensures forall id :: Holds(TakeReady(batches, now).1, id) ==> Holds(batches, id)
  {
    if batches != [] {
      TakeKeepsIds(batches[1..], now);
      forall id | Holds(batches[1..], id)
        ensures Holds(batches, id)
      {
        var k :| 0 <= k < |batches[1..]| && batches[1..][k].id == id;
        assert batches[k + 1].id == id;
      }
    }
  }

  // ---------------------------------------------------------------- where requests and moves go

  predicate QueuedGroup(queue: seq<Request>, group: nat) {
    group != 0 && exists k :: 0 <= k < |queue| && queue[k].groupId == group
  }

  /** What becomes of each queued request: it moves up as the oldest is taken, is replaced in its place by one of
      its group, and makes room as the oldest of sixteen when another comes in. */
  lemma RequestStays(s: State, e: Event, p: nat)
    requires Inv(s) && p < |s.queue|
    ensures var q, q' := s.queue, Next(s, e).queue;
            match e
            case Clear => q' == []
            case Take => |q'| == |q| - 1 && (p > 0 ==> q'[p - 1] == q[p])
            case Enqueue(r) =>
              if QueuedGroup(q, r.groupId) then |q'| == |q| && q'[p] == if q[p].groupId == r.groupId then r else q[p]
              else if |q| < 16 then |q'| == |q| + 1 && q'[p] == q[p] && q'[|q|] == r
              else |q'| == 16 && q'[15] == r && (p > 0 ==> q'[p - 1] == q[p])
            case _ => q' == q
  {
    hide GoodBatches, GoodLog, QueueMove, TakeReady, Entries;
    if e.Enqueue? {
      var found := LastOfGroup(s.queue, e.request.groupId);
      if found.Some? && p != found.value {
        assert s.queue[found.value].groupId != 0 ==> s.queue[p].groupId != s.queue[found.value].groupId;
      }
    }
  }

  /** A first request is queued. */
  lemma FirstRequest(s: State, r: Request)
    requires s.queue == []
    ensures Next(s, Enqueue(r)).queue == [r] && Next(s, Take).queue == []
  {
  }

  /** The batch that took the last move, still pending, is the newest one. */
  predicate NewestIs(batches: seq<Batch>, id: nat, rows: seq<Row>, lastQueuedAt: int) {
    batches != [] ==>
      var newest := batches[|batches| - 1];
      newest.id == id && newest.rows == rows && newest.lastQueuedAt == lastQueuedAt
  }

  lemma {:induction false} TakeKeepsNewest(batches: seq<Batch>, now: int, id: nat, rows: seq<Row>, lastQueuedAt: int)
    requires NewestIs(batches, id, rows, lastQueuedAt)
    ensures NewestIs(TakeReady(batches, now).1, id, rows, lastQueuedAt)
  {
    hide Ready, Dirty, Publication;
    if batches != [] {
      TakeKeepsNewest(batches[1..], now, id, rows, lastQueuedAt);
    }
  }

  lemma {:induction false} NewestStays(run: seq<State>, events: seq<Event>, i: nat, j: nat, id: nat, rows: seq<Row>,
        lastQueuedAt: int)
    requires IsRun(run, events) && i <= j < |run| && NewestIs(run[i].batches, id, rows, lastQueuedAt)
    requires forall k :: i <= k < j ==> !events[k].Move? && !events[k].Clear?
    ensures NewestIs(run[j].batches, id, rows, lastQueuedAt)
    ensures run[j].nextId == run[i].nextId && run[j].clears == run[i].clears && run[j].moves == run[i].moves
    decreases j
  {
    hide NewestIs, TakeReady, Enqueued;
    if i < j {
      NewestStays(run, events, i, j - 1, id, rows, lastQueuedAt);
      var e := events[j - 1];
      assert run[j] == Next(run[j - 1], e);
      if e.TakeMoves? {
        TakeKeepsNewest(run[j - 1].batches, e.now, id, rows, lastQueuedAt);
        NoneIsNewest(id, rows, lastQueuedAt);
      }
    }
  }

  lemma NoneIsNewest(id: nat, rows: seq<Row>, lastQueuedAt: int)
    ensures NewestIs([], id, rows, lastQueuedAt)
  {
  }

  /** The newest batch has the last number given out. */
  predicate NewestIsLast(s: State) {
    s.batches != [] ==> s.batches[|s.batches| - 1].id == s.nextId
  }

  lemma NextKeepsNewest(s: State, e: Event)
    requires NewestIsLast(s)
    ensures NewestIsLast(Next(s, e))
  {
    hide Queued, Enqueued, Entries, TakeReady;
    match e
    case Move(row, nearby, now) =>
      var joins := MayJoin(s.batches, row, nearby, now);
      var target := if joins then s.batches else Opened(s.batches, s.nextId);
      QueuedKeepsIdentity(target[|target| - 1], row, nearby, now);
    case TakeMoves(enabled, now) =>
      if s.batches != [] {
        var newest := s.batches[|s.batches| - 1];
        TakeKeepsNewest(s.batches, now, newest.id, newest.rows, newest.lastQueuedAt);
      } else {
        NothingTaken(now);
      }
    case _ =>
  }

  lemma NothingTaken(now: int)
    ensures TakeReady([], now) == ([], [])
  {
  }

  lemma {:induction false} RunKeepsNewest(run: seq<State>, events: seq<Event>, i: nat)
    requires IsRun(run, events) && i < |run|
    ensures NewestIsLast(run[i])
    decreases i
  {
    hide Next;
    if i > 0 {
      RunKeepsNewest(run, events, i - 1);
      NextKeepsNewest(run[i - 1], events[i - 1]);
      assert run[i] == Next(run[i - 1], events[i - 1]);
    }
  }

  lemma MoveQueues(s: State, row: Row, nearby: bool, now: int)
    requires NewestIsLast(s)
    ensures var s' := Next(s, Move(row, nearby, now));
            && s'.nextId == (if MayJoin(s.batches, row, nearby, now) then s.nextId else s.nextId + 1)
            && s'.batches != [] && s'.clears == s.clears
            && s'.batches[|s'.batches| - 1].id == s'.nextId
            && s'.batches[|s'.batches| - 1].lastQueuedAt == (if nearby then now else 0)
            && s'.moves == s.moves[(s.clears, s'.nextId) := MovesOf(s.moves, (s.clears, s'.nextId)) + [row]]
  {
    hide MayJoin, WithRow;
    var joins := MayJoin(s.batches, row, nearby, now);
    JoinsSomething(s.batches, row, nearby, now);
    var target := if joins then s.batches else Opened(s.batches, s.nextId);
  }

  lemma JoinsSomething(batches: seq<Batch>, row: Row, nearby: bool, now: int)
    ensures MayJoin(batches, row, nearby, now) ==> batches != []
  {
  }

  lemma NewestSums(s: State, ticker: string)
    requires Inv(s) && s.batches != [] && NewestIsLast(s)
    ensures IndexOf(s.batches[|s.batches| - 1].rows, ticker).Some?
            <==> MovesFor(MovesOf(s.moves, (s.clears, s.nextId)), ticker) != []
  {
    hide GoodQueue, GoodLog, IndexOf, MovesFor, Summary;
    assert GoodBatch(s, s.batches[|s.batches| - 1]);
    SummaryIs(s.moves[(s.clears, s.nextId)]);
  }

  /** The queue's own test, in terms of the moves of the newest batch. */
  lemma JoinsWhen(s: State, row: Row, nearby: bool, now: int, rows: seq<Row>, last: int)
    requires Inv(s) && NewestIsLast(s) && NewestIs(s.batches, s.nextId, rows, last)
    ensures MayJoin(s.batches, row, nearby, now)
            <==> && s.batches != [] && nearby && (last == 0 || now - last <= 1_500_000_000)
                 && (MovesFor(MovesOf(s.moves, (s.clears, s.nextId)), row.ticker) != []
                     || |s.batches[|s.batches| - 1].rows| < 64)
  {
    hide Inv, MovesFor, IndexOf;
    if s.batches != [] {
      NewestSums(s, row.ticker);
    }
  }

  /** When two moves in succession share a batch: exactly if the second is a nearby move, the batch of the first is
      still pending, no more than 1.5 s have passed since a first nearby one, and the batch has the stock already or
      room for it under 64. */
  lemma JoinsExactly(run: seq<State>, events: seq<Event>, i: nat, j: nat)
    requires IsRun(run, events) && i < j < |events| && events[i].Move? && events[j].Move?
    requires forall k :: i < k < j ==> !events[k].Move? && !events[k].Clear?
    ensures var s, id := run[j], run[i + 1].nextId;
            && (run[j + 1].nextId == id || run[j + 1].nextId == id + 1)
            && (run[j + 1].nextId == id
                <==> && s.batches != [] && events[j].nearby
                     && (!events[i].nearby || events[i].now == 0 || events[j].now - events[i].now <= 1_500_000_000)
                     && (MovesFor(MovesOf(s.moves, (s.clears, id)), events[j].row.ticker) != []
                         || |s.batches[|s.batches| - 1].rows| < 64))
  {
    hide Next, IndexOf, MovesFor, MayJoin, Inv;
    RunKeepsNewest(run, events, i);
    RunKeepsNewest(run, events, j);
    RunKeepsInv(run, events, j);
    assert run[i + 1] == Next(run[i], events[i]) && run[j + 1] == Next(run[j], events[j]);
    MoveQueues(run[i], events[i].row, events[i].nearby, events[i].now);
    MoveQueues(run[j], events[j].row, events[j].nearby, events[j].now);
    var first := run[i + 1].batches[|run[i + 1].batches| - 1];
    NewestStays(run, events, i + 1, j, first.id, first.rows, first.lastQueuedAt);
    JoinsWhen(run[j], events[j].row, events[j].nearby, events[j].now, first.rows, first.lastQueuedAt);
  }

  /** The moves queued since the last clear. */
  function MovesSince(events: seq<Event>, i: nat): seq<Row>
    requires i <= |events|
  {
    if i == 0 then []
    else match events[i - 1]
      case Clear => []
      case Move(row, _, _) => MovesSince(events, i - 1) + [row]
      case _ => MovesSince(events, i - 1)
  }

  /** The moves of the first n batches since a clear, one batch after the other. */
  function Batched(moves: map<Key, seq<Row>>, clears: nat, n: nat): seq<Row> {
    if n == 0 then [] else Batched(moves, clears, n - 1) + MovesOf(moves, (clears, n))
  }

  lemma {:induction false} BatchedApart(moves: map<Key, seq<Row>>, key: Key, value: seq<Row>, clears: nat, n: nat)
    requires key.0 != clears || key.1 > n
    ensures Batched(moves[key := value], clears, n) == Batched(moves, clears, n)
  {
    if n > 0 {
      BatchedApart(moves, key, value, clears, n - 1);
    }
  }

  lemma {:induction false} NothingBatched(moves: map<Key, seq<Row>>, clears: nat, n: nat)
    requires forall key :: key in moves ==> key.0 < clears
    ensures Batched(moves, clears, n) == []
  {
    if n > 0 {
      NothingBatched(moves, clears, n - 1);
    }
  }

  /** No move is lost on the way into a batch, none is taken in twice, and batches take them in order. */
  lemma {:induction false} EveryMoveIsBatched(run: seq<State>, events: seq<Event>, i: nat)
    requires IsRun(run, events) && i < |run|
    ensures Batched(run[i].moves, run[i].clears, run[i].nextId) == MovesSince(events, i)
    decreases i
  {
    hide Next, Batched, Inv;
    if i == 0 {
      NothingBatched(map[], 0, 0);
    } else {
      EveryMoveIsBatched(run, events, i - 1);
      RunKeepsInv(run, events, i - 1);
      RunKeepsNewest(run, events, i - 1);
      assert run[i] == Next(run[i - 1], events[i - 1]);
      var s, e := run[i - 1], events[i - 1];
      if e.Move? {
        MoveIsBatched(s, e.row, e.nearby, e.now);
      } else {
        OthersBatchNothing(s, e);
      }
    }
  }

  lemma MoveIsBatched(s: State, row: Row, nearby: bool, now: int)
    requires Inv(s) && NewestIsLast(s)
    ensures var s' := Next(s, Move(row, nearby, now));
            Batched(s'.moves, s'.clears, s'.nextId) == Batched(s.moves, s.clears, s.nextId) + [row]
  {
    MoveQueues(s, row, nearby, now);
    JoinsSomething(s.batches, row, nearby, now);
    hide Next, MayJoin, GoodQueue, GoodLog, GoodBatch;
    var s' := Next(s, Move(row, nearby, now));
    var key, before := (s.clears, s'.nextId), MovesOf(s.moves, (s.clears, s'.nextId));
    if s'.nextId == s.nextId {
      NewestIsNumbered(s);
    }
    BatchedApart(s.moves, key, before + [row], s.clears, s'.nextId - 1);
    if s'.nextId == s.nextId + 1 {
      assert key !in s.moves;
      assert before == [] && [] + [row] == [row];
    } else {
      var earlier := Batched(s.moves, s.clears, s.nextId - 1);
      assert earlier + (before + [row]) == (earlier + before) + [row];
    }
  }

  lemma NewestIsNumbered(s: State)
    requires Inv(s) && s.batches != [] && NewestIsLast(s)
    ensures s.nextId > 0
  {
    assert GoodBatch(s, s.batches[|s.batches| - 1]);
  }

  lemma OthersBatchNothing(s: State, e: Event)
    requires Inv(s) && !e.Move?
    ensures var s' := Next(s, e);
            Batched(s'.moves, s'.clears, s'.nextId) == if e.Clear? then [] else Batched(s.moves, s.clears, s.nextId)
  {
    hide GoodQueue, GoodLog, GoodBatch, TakeReady, Entries, Enqueued;
    if e.Clear? {
      NothingBatched(s.moves, s.clears + 1, 0);
    }
  }
}
