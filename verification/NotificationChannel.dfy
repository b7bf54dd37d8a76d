/** The native notification channel: queued requests, and batches of price moves published as they grow. */
module NotificationChannel {
  import opened Options

  /** A price move: the row of a notification. */
  datatype Row = Row(ticker: string, before: real, after: real, priceAlert: bool, alertThreshold: real,
        currency: string)

  /** What a request shows: prepared text, or the moves of a batch, with the stock to open when there is one. */
  datatype Content = Text(text: string) | Moves(rows: seq<Row>, actionTicker: string)

  datatype Request = Request(groupId: nat, content: Content)

  /** Rows being collected. A `lastQueuedAt` of zero means that nothing further is waited for. */
  datatype Batch = Batch(rows: seq<Row>, lastQueuedAt: int, id: nat, revision: nat, published: nat)

  const MAX_QUEUED: nat := 16
  const MAX_ROWS: nat := 64
  const MAX_BATCHES: nat := 5

  /** Times are nanoseconds. */
  const GROUPING_WINDOW: int := 1_500_000_000
  const LEAST_DELAY: int := 10_000_000
  const IDLE_DELAY: int := 30_000_000_000

  // ---------------------------------------------------------------- the request queue

  /** The last queued request of a group. */
  function LastOfGroup(queue: seq<Request>, group: nat): (found: Option<nat>)
    ensures found.Some? ==> found.value < |queue| && queue[found.value].groupId == group
    ensures found == None ==> forall i :: 0 <= i < |queue| ==> queue[i].groupId != group
  {
    if queue == [] then None
    else if queue[|queue| - 1].groupId == group then Some(|queue| - 1)
    else LastOfGroup(queue[..|queue| - 1], group)
  }

  /** A request replaces the one of its group; otherwise it is queued, the oldest making room. */
  function Enqueued(queue: seq<Request>, request: Request): seq<Request> {
    var found := if request.groupId == 0 then None else LastOfGroup(queue, request.groupId);
    if found.Some? then queue[found.value := request]
    else (if |queue| >= MAX_QUEUED then queue[1..] else queue) + [request]
  }

  predicate GoodQueue(queue: seq<Request>) {
    && |queue| <= MAX_QUEUED
    && forall i, j :: 0 <= i < j < |queue| && queue[i].groupId != 0 ==> queue[i].groupId != queue[j].groupId
  }

  /** The queue stays bounded and holds at most one request of each group. */
  lemma EnqueueKeepsQueue(queue: seq<Request>, request: Request)
    requires GoodQueue(queue)
    ensures GoodQueue(Enqueued(queue, request)) && request in Enqueued(queue, request)
    ensures queue != [] ==> GoodQueue(queue[1..])
  {
    var r := Enqueued(queue, request);
    var found := if request.groupId == 0 then None else LastOfGroup(queue, request.groupId);
    assert r[if found.Some? then found.value else |r| - 1] == request;
  }

  // ---------------------------------------------------------------- rows

  function IndexOf(rows: seq<Row>, ticker: string): (found: Option<nat>)
    ensures found.Some? ==> found.value < |rows| && rows[found.value].ticker == ticker
    ensures found == None ==> forall i :: 0 <= i < |rows| ==> rows[i].ticker != ticker
  {
    if rows == [] then None
    else if rows[0].ticker == ticker then Some(0)
    else
      var rest := IndexOf(rows[1..], ticker);
      if rest == None then None else Some(rest.value + 1)
  }

  /** A later move of a stock already in the batch. */
  function MergedRow(existing: Row, row: Row): Row {
    existing.(before := if existing.before <= 0.0 then row.before else existing.before,
              after := row.after,
              priceAlert := existing.priceAlert || row.priceAlert,
              alertThreshold := if row.priceAlert && row.alertThreshold > 0.0 then row.alertThreshold
                                else existing.alertThreshold,
              currency := if row.currency != "" then row.currency else existing.currency)
  }

  function WithRow(rows: seq<Row>, row: Row): seq<Row> {
    var found := IndexOf(rows, row.ticker);
    if found == None then rows + [row] else rows[found.value := MergedRow(rows[found.value], row)]
  }

  /** The rows a sequence of moves comes to. */
  function Summary(moves: seq<Row>): seq<Row> {
    if moves == [] then [] else WithRow(Summary(moves[..|moves| - 1]), moves[|moves| - 1])
  }

  predicate UniqueTickers(rows: seq<Row>) {
    forall i, j :: 0 <= i < j < |rows| ==> rows[i].ticker != rows[j].ticker
  }

  /** The moves of one stock, in order. */
  function MovesFor(moves: seq<Row>, ticker: string): seq<Row> {
    if moves == [] then []
    else
      var last := moves[|moves| - 1];
      MovesFor(moves[..|moves| - 1], ticker) + if last.ticker == ticker then [last] else []
  }

  predicate FirstPriced(moves: seq<Row>, i: int) {
    0 <= i < |moves| && moves[i].before > 0.0 && forall k :: 0 <= k < i ==> moves[k].before <= 0.0
  }

  predicate Alerting(move: Row) {
    move.priceAlert && move.alertThreshold > 0.0
  }

  predicate LastAlerting(moves: seq<Row>, i: int) {
    0 <= i < |moves| && Alerting(moves[i]) && forall k :: i < k < |moves| ==> !Alerting(moves[k])
  }

  predicate LastNamed(moves: seq<Row>, i: int) {
    0 <= i < |moves| && moves[i].currency != "" && forall k :: i < k < |moves| ==> moves[k].currency == ""
  }

  /** What a row says about the moves of its stock: from the first known price to the last one, an alert if
      any of the moves was one, with the last valid threshold of an alert and the last currency named. */
  ghost predicate Sums(row: Row, moves: seq<Row>) {
    && moves != [] && row.ticker == moves[0].ticker
    && (forall i :: FirstPriced(moves, i) ==> row.before == moves[i].before)
    && ((forall i :: 0 <= i < |moves| ==> moves[i].before <= 0.0) ==> row.before == moves[|moves| - 1].before)
    && row.after == moves[|moves| - 1].after
    && (row.priceAlert <==> exists i :: 0 <= i < |moves| && moves[i].priceAlert)
    && (forall i :: LastAlerting(moves, i) ==> row.alertThreshold == moves[i].alertThreshold)
    && ((forall i :: 0 <= i < |moves| ==> !Alerting(moves[i])) ==> row.alertThreshold == moves[0].alertThreshold)
    && (forall i :: LastNamed(moves, i) ==> row.currency == moves[i].currency)
    && ((forall i :: 0 <= i < |moves| ==> moves[i].currency == "") ==> row.currency == "")
  }

  lemma OneMoveSums(move: Row)
    ensures Sums(move, [move]) && forall row :: Sums(row, [move]) ==> row == move
  {
    assert FirstPriced([move], 0) || move.before <= 0.0;
    assert LastAlerting([move], 0) || !Alerting(move);
    assert LastNamed([move], 0) || move.currency == "";
    forall row | Sums(row, [move])
      ensures row == move
    {
      assert [move][0].priceAlert <==> move.priceAlert;
    }
  }

  /** One more move of the stock. */
  lemma MergedSums(row: Row, moves: seq<Row>, move: Row)
    requires Sums(row, moves) && move.ticker == row.ticker
    ensures Sums(MergedRow(row, move), moves + [move])
  {
    MergedPrice(row, moves, move);
    MergedAlert(row, moves, move);
    MergedCurrency(row, moves, move);
    hide FirstPriced, LastAlerting, LastNamed, Alerting;
  }

  lemma MergedPrice(row: Row, moves: seq<Row>, move: Row)
    requires Sums(row, moves)
    ensures var all, r := moves + [move], MergedRow(row, move);
            && (forall i :: FirstPriced(all, i) ==> r.before == all[i].before)
            && ((forall i :: 0 <= i < |all| ==> all[i].before <= 0.0) ==> r.before == move.before)
  {
    hide LastAlerting, LastNamed, Alerting;
    var all, r := moves + [move], MergedRow(row, move);
    if forall i :: 0 <= i < |moves| ==> moves[i].before <= 0.0 {
      assert r.before == move.before;
    } else {
      var first := FirstPricedExists(moves);
      assert all[first] == moves[first];
    }
    forall i | FirstPriced(all, i)
      ensures r.before == all[i].before
    {
      if i < |moves| {
        assert forall k :: 0 <= k <= i ==> moves[k] == all[k];
        assert FirstPriced(moves, i);
      } else {
        assert forall k :: 0 <= k < |moves| ==> moves[k] == all[k];
      }
    }
  }

  lemma {:induction false} FirstPricedExists(moves: seq<Row>) returns (i: int)
    requires exists k :: 0 <= k < |moves| && moves[k].before > 0.0
    ensures FirstPriced(moves, i)
  {
    if moves[0].before > 0.0 {
      i := 0;
    } else {
      var k :| 0 <= k < |moves| && moves[k].before > 0.0;
      assert moves[1..][k - 1] == moves[k];
      var rest := FirstPricedExists(moves[1..]);
      i := rest + 1;
      assert forall j :: 0 < j < i ==> moves[j] == moves[1..][j - 1];
    }
  }

  lemma MergedAlert(row: Row, moves: seq<Row>, move: Row)
    requires Sums(row, moves)
    ensures var all, r := moves + [move], MergedRow(row, move);
            && (r.priceAlert <==> exists i :: 0 <= i < |all| && all[i].priceAlert)
            && (forall i :: LastAlerting(all, i) ==> r.alertThreshold == all[i].alertThreshold)
            && ((forall i :: 0 <= i < |all| ==> !Alerting(all[i])) ==> r.alertThreshold == all[0].alertThreshold)
  {
    hide FirstPriced, LastNamed;
    var all, r := moves + [move], MergedRow(row, move);
    assert all[|moves|] == move && forall k :: 0 <= k < |moves| ==> all[k] == moves[k];
    forall i | LastAlerting(all, i)
      ensures r.alertThreshold == all[i].alertThreshold
    {
      if i < |moves| {
        assert !Alerting(all[|moves|]);
        assert LastAlerting(moves, i);
      }
    }
  }

  lemma MergedCurrency(row: Row, moves: seq<Row>, move: Row)
    requires Sums(row, moves)
    ensures var all, r := moves + [move], MergedRow(row, move);
            && (forall i :: LastNamed(all, i) ==> r.currency == all[i].currency)
            && ((forall i :: 0 <= i < |all| ==> all[i].currency == "") ==> r.currency == "")
  {
    hide FirstPriced, LastAlerting, Alerting;
    var all, r := moves + [move], MergedRow(row, move);
    assert all[|moves|] == move && forall k :: 0 <= k < |moves| ==> all[k] == moves[k];
    forall i | LastNamed(all, i)
      ensures r.currency == all[i].currency
    {
      if i < |moves| {
        assert LastNamed(moves, i);
      }
    }
  }

  predicate FirstMove(moves: seq<Row>, ticker: string, i: int) {
    0 <= i < |moves| && moves[i].ticker == ticker && forall k :: 0 <= k < i ==> moves[k].ticker != ticker
  }

  /** The rows come in the order in which their stocks first moved. */
  ghost predicate InOrder(rows: seq<Row>, moves: seq<Row>) {
    forall a, b, i, j ::
      0 <= a < b < |rows| && FirstMove(moves, rows[a].ticker, i) && FirstMove(moves, rows[b].ticker, j) ==> i < j
  }

  lemma {:induction false} MovedIff(moves: seq<Row>, ticker: string)
    ensures MovesFor(moves, ticker) != [] <==> exists i :: 0 <= i < |moves| && moves[i].ticker == ticker
  {
    if moves != [] {
      var front := moves[..|moves| - 1];
      MovedIff(front, ticker);
      if i :| 0 <= i < |front| && front[i].ticker == ticker {
        assert moves[i].ticker == ticker;
      }
      if i :| 0 <= i < |moves| && moves[i].ticker == ticker && i < |front| {
        assert front[i].ticker == ticker;
      }
    }
  }

  /** A batch of moves has one row for each stock that moved, which sums up its moves; a single move is its own
      row, and the rows come in the order in which their stocks first moved. */
  lemma {:induction false} SummaryIs(moves: seq<Row>)
    ensures UniqueTickers(Summary(moves)) && InOrder(Summary(moves), moves)
    ensures forall t :: MovesFor(moves, t) != [] <==> IndexOf(Summary(moves), t).Some?
    ensures forall i :: 0 <= i < |Summary(moves)| ==> Sums(Summary(moves)[i], MovesFor(moves, Summary(moves)[i].ticker))
    ensures |moves| == 1 ==> Summary(moves) == moves
    decreases |moves|
  {
    hide Sums, InOrder, WithRow, UniqueTickers, MovesFor, IndexOf;
    if moves != [] {
      var front, move := moves[..|moves| - 1], moves[|moves| - 1];
      SummaryIs(front);
      var rows := Summary(front);
      WithRowTickers(rows, move);
      StillInOrder(rows, front, move);
      StillListed(rows, front, move);
      assert moves == front + [move];
      forall i | 0 <= i < |Summary(moves)|
        ensures Sums(Summary(moves)[i], MovesFor(moves, Summary(moves)[i].ticker))
      {
        RowSums(rows, front, move, i);
      }
      if |moves| == 1 {
        OnlyRow(move);
        assert front == [] && moves == [move];
      }
    } else {
      NothingMoved();
    }
  }

  lemma NothingMoved()
    ensures UniqueTickers([]) && InOrder([], [])
    ensures forall t :: MovesFor([], t) == [] && IndexOf([], t) == None
  {
  }

  lemma OnlyRow(move: Row)
    ensures WithRow([], move) == [move]
  {
  }

  lemma StillListed(rows: seq<Row>, front: seq<Row>, move: Row)
    requires UniqueTickers(rows) && forall t :: MovesFor(front, t) != [] <==> IndexOf(rows, t).Some?
    ensures forall t :: MovesFor(front + [move], t) != [] <==> IndexOf(WithRow(rows, move), t).Some?
  {
    hide IndexOf, WithRow;
    WithRowTickers(rows, move);
    assert (front + [move])[..|front|] == front;
  }

  lemma RowSums(rows: seq<Row>, front: seq<Row>, move: Row, i: int)
    requires UniqueTickers(rows) && 0 <= i < |WithRow(rows, move)|
    requires forall t :: MovesFor(front, t) != [] <==> IndexOf(rows, t).Some?
    requires forall k :: 0 <= k < |rows| ==> Sums(rows[k], MovesFor(front, rows[k].ticker))
    ensures var row := WithRow(rows, move)[i]; Sums(row, MovesFor(front + [move], row.ticker))
  {
    hide Sums, MergedRow, IndexOf;
    var row := WithRow(rows, move)[i];
    assert (front + [move])[..|front|] == front;
    if i < |rows| {
      WithRowTickers(rows, move);
      MergedKeepsTicker(rows[i], move);
      if rows[i].ticker == move.ticker {
        MergedSums(rows[i], MovesFor(front, move.ticker), move);
      }
      assert MovesFor(front, row.ticker) + [] == MovesFor(front, row.ticker);
    } else {
      assert MovesFor(front, move.ticker) == [];
      OneMoveSums(move);
      assert [] + [move] == [move];
    }
  }

  lemma MergedKeepsTicker(existing: Row, row: Row)
    ensures MergedRow(existing, row).ticker == existing.ticker
  {
  }

  lemma StillInOrder(rows: seq<Row>, front: seq<Row>, move: Row)
    requires UniqueTickers(rows) && InOrder(rows, front)
    requires forall t :: MovesFor(front, t) != [] <==> IndexOf(rows, t).Some?
    ensures InOrder(WithRow(rows, move), front + [move])
  {
    hide IndexOf, MergedRow, MovesFor;
    var after, moves := WithRow(rows, move), front + [move];
    forall a, b, i, j |
      0 <= a < b < |after| && FirstMove(moves, after[a].ticker, i) && FirstMove(moves, after[b].ticker, j)
      ensures i < j
    {
      KnownFirst(rows, front, move, a, i);
      if b < |rows| {
        KnownFirst(rows, front, move, b, j);
      } else {
        MovedIff(front, move.ticker);
      }
    }
  }

  /** The first move of a stock already listed is an earlier one. */
  lemma KnownFirst(rows: seq<Row>, front: seq<Row>, move: Row, a: int, i: int)
    requires 0 <= a < |rows| && FirstMove(front + [move], WithRow(rows, move)[a].ticker, i)
    requires forall t :: MovesFor(front, t) != [] <==> IndexOf(rows, t).Some?
    ensures WithRow(rows, move)[a].ticker == rows[a].ticker && FirstMove(front, rows[a].ticker, i)
  {
    hide MovesFor;
    MergedKeepsTicker(rows[a], move);
    IndexIsMember(rows, rows[a].ticker);
    MovedIff(front, rows[a].ticker);
    assert forall k :: 0 <= k < |front| ==> (front + [move])[k] == front[k];
  }

  lemma IndexIsMember(rows: seq<Row>, t: string)
    ensures IndexOf(rows, t).Some? <==> exists i :: 0 <= i < |rows| && rows[i].ticker == t
  {
  }

  lemma WithRowTickers(rows: seq<Row>, row: Row)
    requires UniqueTickers(rows)
    ensures UniqueTickers(WithRow(rows, row))
    ensures forall t :: IndexOf(WithRow(rows, row), t).Some? <==> IndexOf(rows, t).Some? || t == row.ticker
    ensures forall i :: 0 <= i < |rows| && rows[i].ticker != row.ticker ==> WithRow(rows, row)[i] == rows[i]
    ensures forall i :: 0 <= i < |rows| && rows[i].ticker == row.ticker ==>
              WithRow(rows, row)[i] == MergedRow(rows[i], row)
  {
    hide IndexOf;
    var r := WithRow(rows, row);
    var found := IndexOf(rows, row.ticker);
    forall t
      ensures IndexOf(r, t).Some? <==> IndexOf(rows, t).Some? || t == row.ticker
    {
      IndexIsMember(r, t);
      IndexIsMember(rows, t);
      if IndexOf(rows, t).Some? {
        assert r[IndexOf(rows, t).value].ticker == t;
      }
      if t == row.ticker {
        assert r[if found.Some? then found.value else |rows|].ticker == t;
      }
    }
  }

  // ---------------------------------------------------------------- batches

  /** The newest batch may take the row: it is still collecting, and knows the stock or has room. */
  predicate MayJoin(batches: seq<Batch>, row: Row, nearby: bool, now: int) {
    && nearby && batches != []
    && var candidate := batches[|batches| - 1];
       && (candidate.lastQueuedAt == 0 || now - candidate.lastQueuedAt <= GROUPING_WINDOW)
       && (IndexOf(candidate.rows, row.ticker).Some? || |candidate.rows| < MAX_ROWS)
  }

  /** A new batch, the oldest making room. */
  function Opened(batches: seq<Batch>, nextId: nat): seq<Batch> {
    (if |batches| >= MAX_BATCHES then batches[1..] else batches) + [Batch([], 0, nextId + 1, 0, 0)]
  }

  function Queued(batch: Batch, row: Row, nearby: bool, now: int): Batch {
    batch.(rows := WithRow(batch.rows, row), lastQueuedAt := if nearby then now else 0, revision := batch.revision + 1)
  }

  function QueueMove(batches: seq<Batch>, nextId: nat, row: Row, nearby: bool, now: int): (r: (seq<Batch>, nat))
    ensures r.0 != []
  {
    var joins := MayJoin(batches, row, nearby, now);
    var target := if joins then batches else Opened(batches, nextId);
    (target[|target| - 1 := Queued(target[|target| - 1], row, nearby, now)], if joins then nextId else nextId + 1)
  }

  predicate Dirty(batch: Batch) {
    batch.revision != batch.published
  }

  predicate Ready(batch: Batch, now: int) {
    |batch.rows| >= MAX_ROWS || batch.lastQueuedAt == 0 || now - batch.lastQueuedAt >= GROUPING_WINDOW
  }

  function Publication(batch: Batch): Request {
    Request(batch.id, Moves(batch.rows, if |batch.rows| == 1 then batch.rows[0].ticker else ""))
  }

  /** What taking the ready notifications publishes, and the batches it leaves: it works from the front,
      publishing each batch that has changed, and stops at the first that is not ready. */
  function TakeReady(batches: seq<Batch>, now: int): (seq<Request>, seq<Batch>) {
    if batches == [] then ([], [])
    else
      var batch := batches[0];
      var first := if Dirty(batch) then [Publication(batch)] else [];
      if Ready(batch, now) then
        var (ready, rest) := TakeReady(batches[1..], now);
        (first + ready, rest)
      else (first, [batch.(published := batch.revision)] + batches[1..])
  }

  /** SecondsUntilPriceMoveFlush, in nanoseconds. */
  function FlushDelay(batches: seq<Batch>, now: int): int {
    if batches == [] then IDLE_DELAY
    else
      var batch := batches[0];
      if Dirty(batch) || |batch.rows| >= MAX_ROWS || batch.lastQueuedAt == 0 then LEAST_DELAY
      else
        var remaining := GROUPING_WINDOW - (now - batch.lastQueuedAt);
        if remaining < LEAST_DELAY then LEAST_DELAY
        else if remaining > GROUPING_WINDOW then GROUPING_WINDOW
        else remaining
  }

  /** A flush delay above 0.01 s means that taking now returns nothing and changes nothing. */
  lemma NothingToFlush(batches: seq<Batch>, now: int)
    requires FlushDelay(batches, now) > LEAST_DELAY
    ensures TakeReady(batches, now) == ([], batches)
  {
    if batches != [] {
      assert [batches[0].(published := batches[0].revision)] + batches[1..] == batches;
    }
  }

  /** And once the delay has passed, taking gets on: the front batch is published or gone. Clocks do not
      run backwards, so the batch was not queued in the future. */
  lemma DelayIsEnough(batches: seq<Batch>, now: int, later: int)
    requires batches != [] && batches[0].lastQueuedAt <= now && later >= now + FlushDelay(batches, now)
    ensures TakeReady(batches, later) != ([], batches)
  {
    var batch := batches[0];
    if !Dirty(batch) {
      TakeShrinks(batches[1..], later);
      assert Ready(batch, later);
    }
  }

  lemma {:induction false} TakeShrinks(batches: seq<Batch>, now: int)
    ensures |TakeReady(batches, now).1| <= |batches|
  {
    if batches != [] {
      TakeShrinks(batches[1..], now);
    }
  }

  // ---------------------------------------------------------------- the channel

  class NativeNotificationChannel {
    var notifications: seq<Request>
    var batches: seq<Batch>
    var nextId: nat

    constructor ()
      ensures notifications == [] && batches == [] && nextId == 0
    {
      notifications, batches, nextId := [], [], 0;
    }

    method Clear()
      modifies this
      ensures notifications == [] && batches == [] && nextId == 0
    {
      notifications := [];
      batches := [];
      nextId := 0;
    }

    /** The search for the request's group goes from the back. */
    method Enqueue(request: Request)
      modifies this`notifications
      ensures notifications == Enqueued(old(notifications), request)
    {
      if request.groupId != 0 {
        var i := |notifications|;
        assert notifications[..i] == notifications;
        while i > 0
          invariant 0 <= i <= |notifications| && notifications == old(notifications)
          invariant LastOfGroup(notifications, request.groupId) == LastOfGroup(notifications[..i], request.groupId)
        {
          i := i - 1;
          assert notifications[..i + 1][..i] == notifications[..i];
          if notifications[i].groupId == request.groupId {
            notifications := notifications[i := request];
            return;
          }
        }
      }
      if |notifications| >= MAX_QUEUED {
        notifications := notifications[1..];
      }
      notifications := notifications + [request];
    }

    method Take() returns (request: Option<Request>)
      modifies this`notifications
      ensures old(notifications) == [] ==> request == None && notifications == []
      ensures old(notifications) != [] ==>
          request == Some(old(notifications)[0]) && notifications == old(notifications)[1..]
    {
      if notifications == [] {
        return None;
      }
      request := Some(notifications[0]);
      notifications := notifications[1..];
    }

    method QueuePriceMove(row: Row, batchNearbyMoves: bool, now: int)
      modifies this`batches, this`nextId
      ensures (batches, nextId) == QueueMove(old(batches), old(nextId), row, batchNearbyMoves, now)
    {
      var joins := false;
      if batchNearbyMoves && batches != [] {
        var candidate := batches[|batches| - 1];
        var collecting := candidate.lastQueuedAt == 0 || now - candidate.lastQueuedAt <= GROUPING_WINDOW;
        var alreadyPresent := IndexOf(candidate.rows, row.ticker).Some?;
        joins := collecting && (alreadyPresent || |candidate.rows| < MAX_ROWS);
      }
      if !joins {
        if |batches| >= MAX_BATCHES {
          batches := batches[1..];
        }
        nextId := nextId + 1;
        batches := batches + [Batch([], 0, nextId, 0, 0)];
      }
      var batch := batches[|batches| - 1];
      var existing := IndexOf(batch.rows, row.ticker);
      if existing.Some? {
        batch := batch.(rows := batch.rows[existing.value := MergedRow(batch.rows[existing.value], row)]);
      } else {
        batch := batch.(rows := batch.rows + [row]);
      }
      batch := batch.(lastQueuedAt := if batchNearbyMoves then now else 0, revision := batch.revision + 1);
      batches := batches[|batches| - 1 := batch];
    }

    method TakeReadyPriceMoveNotifications(enabled: bool, now: int) returns (ready: seq<Request>)
      modifies this`batches
      ensures !enabled ==> ready == [] && batches == []
      ensures enabled ==> (ready, batches) == TakeReady(old(batches), now)
    {
      ready := [];
      if !enabled {
        batches := [];
        return;
      }
      ghost var was := batches;
      while batches != []
        invariant ready + TakeReady(batches, now).0 == TakeReady(was, now).0
        invariant TakeReady(batches, now).1 == TakeReady(was, now).1
        decreases |batches|
      {
        var batch := batches[0];
        TakeStep(ready, batches, now);
        var batchReady := Ready(batch, now);
        if Dirty(batch) {
          ready := ready + [Publication(batch)];
          batch := batch.(published := batch.revision);
          batches := [batch] + batches[1..];
        }
        if batchReady {
          batches := batches[1..];
          continue;
        }
        return;
      }
      assert ready + [] == ready;
    }
  }

  lemma CleanBatch(batch: Batch)
    requires !Dirty(batch)
    ensures batch.(published := batch.revision) == batch
  {
  }

  lemma TakeStep(ready: seq<Request>, batches: seq<Batch>, now: int)
    requires batches != []
    ensures var batch := batches[0];
            var published := if Dirty(batch) then ready + [Publication(batch)] else ready;
            var after := if Dirty(batch) then [batch.(published := batch.revision)] + batches[1..] else batches;
            && after[1..] == batches[1..]
            && ready + TakeReady(batches, now).0
               == (if Ready(batch, now) then published + TakeReady(batches[1..], now).0 else published)
            && TakeReady(batches, now).1 == (if Ready(batch, now) then TakeReady(batches[1..], now).1 else after)
  {
    hide Publication, Dirty, Ready;
    var batch := batches[0];
    var rest := TakeReady(batches[1..], now).0;
    if Dirty(batch) {
      assert ready + ([Publication(batch)] + rest) == (ready + [Publication(batch)]) + rest;
    } else {
      assert batches == [batch.(published := batch.revision)] + batches[1..] by { CleanBatch(batch); }
      assert [] + rest == rest && ready + [] == ready;
    }
  }
}
