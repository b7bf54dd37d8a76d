/** Screener rows and the two merges between cached and fresh ones. */
module ScreenerMerge {
  import opened Options

  datatype Field = Price | Change | ChangePercent | Volume | AvgVol3M | MarketCap | PeRatio | FiftyTwoWkChange

  /** A row of a screener. A field absent from `metrics` is one whose has-flag is not set. `revision` counts
      the replacements of the sparkline. */
  datatype Row = Row(
    symbol: string,
    name: string,
    metrics: map<Field, real>,
    lastMarketTime: int,
    resolved: bool,
    suspectedInactive: bool,
    sparkline: seq<real>,
    attempted: bool,
    revision: nat)

  function ReplaceSparkline(row: Row, values: seq<real>): Row {
    row.(sparkline := values, revision := row.revision + 1)
  }

  /** Which rows a table by symbol takes in: all, or those with a trend to give. */
  datatype Choice = Any | Trends(failures: bool)

  predicate Chosen(choice: Choice, row: Row) {
    choice.Trends? ==> |row.sparkline| >= 2 || (choice.failures && row.attempted)
  }

  /** The row a table by symbol, filled front to back, holds for a symbol. Rows
      without a symbol are not entered. */
  function LastRow(rows: seq<Row>, choice: Choice, symbol: string): Option<Row> {
    if rows == [] || symbol == "" then None
    else
      var last := rows[|rows| - 1];
      if last.symbol == symbol && Chosen(choice, last) then Some(last) else LastRow(rows[..|rows| - 1], choice, symbol)
  }

  function ChangedCount(before: seq<Row>, after: seq<Row>): nat
    requires |before| == |after|
  {
    if before == [] then 0
    else
      var n := |before| - 1;
      ChangedCount(before[..n], after[..n]) + if before[n] != after[n] then 1 else 0
  }

  predicate TableHolds(trends: map<string, Row>, rows: seq<Row>, choice: Choice, symbol: string) {
    LastRow(rows, choice, symbol) == if symbol in trends then Some(trends[symbol]) else None
  }

  /** The table by symbol of these rows. */
  ghost predicate IsTable(trends: map<string, Row>, rows: seq<Row>, choice: Choice) {
    forall symbol :: TableHolds(trends, rows, choice, symbol)
  }

  lemma TableGrows(trends: map<string, Row>, rows: seq<Row>, choice: Choice, item: Row)
    requires IsTable(trends, rows, choice)
    ensures var entered := item.symbol != "" && Chosen(choice, item);
            IsTable(if entered then trends[item.symbol := item] else trends, rows + [item], choice)
  {
    var entered := item.symbol != "" && Chosen(choice, item);
    var after := if entered then trends[item.symbol := item] else trends;
    assert (rows + [item])[..|rows|] == rows;
    forall symbol
      ensures TableHolds(after, rows + [item], choice, symbol)
    {
      assert TableHolds(trends, rows, choice, symbol);
    }
  }

  lemma TableLookup(trends: map<string, Row>, rows: seq<Row>, choice: Choice, symbol: string)
    requires IsTable(trends, rows, choice)
    ensures LastRow(rows, choice, symbol) == if symbol in trends then Some(trends[symbol]) else None
  {
    assert TableHolds(trends, rows, choice, symbol);
  }

  /** The table of the last rows by symbol. */
  method BuildTable(source: seq<Row>, first: nat, end: nat, choice: Choice) returns (trends: map<string, Row>)
    requires first <= end <= |source|
    ensures IsTable(trends, source[first..end], choice)
  {
    trends := map[];
    var index := first;
    while index < end
      invariant first <= index <= end
      invariant IsTable(trends, source[first..index], choice)
    {
      var item := source[index];
      TableGrows(trends, source[first..index], choice, item);
      assert source[first..index] + [item] == source[first..index + 1];
      if item.symbol != "" && Chosen(choice, item) {
        trends := trends[item.symbol := item];
      }
      index := index + 1;
    }
  }

  // ---------------------------------------------------------------- trends

  /** A row with the trend of another: its sparkline and whether it was attempted, and nothing else. */
  function WithTrend(row: Row, source: Row): Row {
    var drawn := if row.sparkline != source.sparkline then ReplaceSparkline(row, source.sparkline) else row;
    drawn.(attempted := source.attempted)
  }

  /** The rows of the source that take part. */
  function Window(source: seq<Row>, first: nat, count: nat): seq<Row> {
    if first >= |source| then []
    else source[first..if first + count < |source| then first + count else |source|]
  }

  function TrendMerged(source: seq<Row>, failures: bool, row: Row): Row {
    var found := LastRow(source, Trends(failures), row.symbol);
    if found == None then row else WithTrend(row, found.value)
  }

  /** What MergeScreenerTrendData leaves in the destination. */
  function TrendsMerged(source: seq<Row>, failures: bool, destination: seq<Row>): seq<Row> {
    seq(|destination|, i requires 0 <= i < |destination| => TrendMerged(source, failures, destination[i]))
  }

  /** One more row looked at. */
  lemma CountStep(before: seq<Row>, after: seq<Row>, i: nat, row: Row)
    requires |before| == |after| && i < |before|
    ensures var result := after[i := row];
            ChangedCount(before[..i + 1], result[..i + 1])
            == ChangedCount(before[..i], after[..i]) + if before[i] != row then 1 else 0
  {
    assert before[..i + 1][..i] == before[..i] && after[i := row][..i + 1][..i] == after[..i];
  }

  method MergeScreenerTrendData(source: seq<Row>, first: nat, count: nat, destination: seq<Row>, failures: bool)
    returns (result: seq<Row>, merged: nat)
    ensures result == TrendsMerged(Window(source, first, count), failures, destination)
    ensures merged == ChangedCount(destination, result)
  {
    hide LastRow, ChangedCount, IsTable;
    result, merged := destination, 0;
    ghost var window := Window(source, first, count);
    if source == [] || destination == [] || count == 0 || first >= |source| {
      NothingMerged(window, failures, destination);
      return;
    }
    var end := if first + count < |source| then first + count else |source|;
    var trends := BuildTable(source, first, end, Trends(failures));
    assert ChangedCount(destination[..0], result[..0]) == 0 by { NothingChanged([]); }
    for i := 0 to |destination|
      invariant |result| == |destination|
      invariant forall k :: 0 <= k < i ==> result[k] == TrendMerged(window, failures, destination[k])
      invariant forall k :: i <= k < |destination| ==> result[k] == destination[k]
      invariant merged == ChangedCount(destination[..i], result[..i])
    {
      var item := result[i];
      TableLookup(trends, window, Trends(failures), item.symbol);
      if item.symbol in trends {
        var trend := trends[item.symbol];
        var changed := false;
        if item.sparkline != trend.sparkline {
          item := ReplaceSparkline(item, trend.sparkline);
          changed := true;
        }
        if item.attempted != trend.attempted {
          item := item.(attempted := trend.attempted);
          changed := true;
        }
        if changed {
          merged := merged + 1;
        }
      }
      CountStep(destination, result, i, item);
      result := result[i := item];
    }
    assert destination[..|destination|] == destination && result[..|destination|] == result;
  }

  lemma NothingMerged(window: seq<Row>, failures: bool, destination: seq<Row>)
    requires window == [] || destination == []
    ensures TrendsMerged(window, failures, destination) == destination
    ensures ChangedCount(destination, destination) == 0
  {
    NothingChanged(destination);
  }

  lemma {:induction false} NothingChanged(rows: seq<Row>)
    ensures ChangedCount(rows, rows) == 0
  {
    if rows != [] {
      NothingChanged(rows[..|rows| - 1]);
    }
  }

  /** Merging the same trends again changes nothing and reports nothing. */
  lemma TrendMergeIsIdempotent(window: seq<Row>, failures: bool, destination: seq<Row>)
    ensures var once := TrendsMerged(window, failures, destination);
            TrendsMerged(window, failures, once) == once
            && ChangedCount(once, TrendsMerged(window, failures, once)) == 0
  {
    var once := TrendsMerged(window, failures, destination);
    forall i | 0 <= i < |once|
      ensures TrendMerged(window, failures, once[i]) == once[i]
    {
      assert once[i].symbol == destination[i].symbol;
    }
    assert TrendsMerged(window, failures, once) == once;
    NothingChanged(once);
  }

  /** A row with a trend to give: one of two points or more or, where failures count, one that was attempted. */
  predicate GivesTrend(row: Row, failures: bool) {
    |row.sparkline| >= 2 || (failures && row.attempted)
  }

  predicate LastTrend(rows: seq<Row>, failures: bool, symbol: string, j: nat)
    requires j < |rows|
  {
    && rows[j].symbol == symbol && GivesTrend(rows[j], failures)
    && forall k :: j < k < |rows| ==> rows[k].symbol != symbol || !GivesTrend(rows[k], failures)
  }

  predicate NoTrend(rows: seq<Row>, failures: bool, symbol: string) {
    forall j :: 0 <= j < |rows| ==> rows[j].symbol != symbol || !GivesTrend(rows[j], failures)
  }

  /** A row's own data stay; its trend becomes that of the last row of its symbol that has one to give, its
      revision counting the change, and where there is none the row stays. */
  lemma TrendMergeIs(window: seq<Row>, failures: bool, row: Row)
    ensures var r := TrendMerged(window, failures, row);
            && r == row.(sparkline := r.sparkline, attempted := r.attempted, revision := r.revision)
            && r.revision == row.revision + (if r.sparkline == row.sparkline then 0 else 1)
            && (forall j :: 0 <= j < |window| && row.symbol != "" && LastTrend(window, failures, row.symbol, j) ==>
                  r.sparkline == window[j].sparkline && r.attempted == window[j].attempted)
            && (row.symbol == "" || NoTrend(window, failures, row.symbol) ==> r == row)
  {
    hide LastRow, LastTrend, GivesTrend, TrendMerged;
    MergedDataStay(window, failures, row);
    forall j | 0 <= j < |window| && row.symbol != "" && LastTrend(window, failures, row.symbol, j)
      ensures TrendMerged(window, failures, row).sparkline == window[j].sparkline
              && TrendMerged(window, failures, row).attempted == window[j].attempted
    {
      TrendIsTaken(window, failures, row, j);
    }
    if row.symbol == "" || NoTrend(window, failures, row.symbol) {
      NoTrendTaken(window, failures, row);
    }
  }

  lemma MergedDataStay(window: seq<Row>, failures: bool, row: Row)
    ensures var r := TrendMerged(window, failures, row);
            && r == row.(sparkline := r.sparkline, attempted := r.attempted, revision := r.revision)
            && r.revision == row.revision + (if r.sparkline == row.sparkline then 0 else 1)
  {
    hide LastRow;
  }

  lemma TrendIsTaken(window: seq<Row>, failures: bool, row: Row, j: nat)
    requires j < |window| && row.symbol != "" && LastTrend(window, failures, row.symbol, j)
    ensures var r := TrendMerged(window, failures, row);
            r.sparkline == window[j].sparkline && r.attempted == window[j].attempted
  {
    hide LastRow;
    assert LastChosen(window, Trends(failures), row.symbol, j);
    LastRowIs(window, Trends(failures), row.symbol, j);
  }

  lemma NoTrendTaken(window: seq<Row>, failures: bool, row: Row)
    requires row.symbol == "" || NoTrend(window, failures, row.symbol)
    ensures TrendMerged(window, failures, row) == row
  {
    hide LastRow;
    NoRow(window, Trends(failures), row.symbol);
  }

  predicate LastChosen(rows: seq<Row>, choice: Choice, symbol: string, j: nat)
    requires j < |rows|
  {
    && rows[j].symbol == symbol && Chosen(choice, rows[j])
    && forall k :: j < k < |rows| ==> rows[k].symbol != symbol || !Chosen(choice, rows[k])
  }

  lemma {:induction false} LastRowIs(rows: seq<Row>, choice: Choice, symbol: string, j: nat)
    requires j < |rows| && symbol != "" && LastChosen(rows, choice, symbol, j)
    ensures LastRow(rows, choice, symbol) == Some(rows[j])
  {
    if j < |rows| - 1 {
      var front := rows[..|rows| - 1];
      assert rows[|rows| - 1].symbol != symbol || !Chosen(choice, rows[|rows| - 1]);
      LastRowIs(front, choice, symbol, j);
    }
  }

  // ---------------------------------------------------------------- refreshes

  /** A live row with what it lacks taken from the cached row of its symbol. */
  function Filled(live: Row, past: Row): Row {
    var inactive := if live.resolved then live.suspectedInactive else past.suspectedInactive;
    var filled := live.(name := if live.name == "" then past.name else live.name,
                        metrics := past.metrics + live.metrics,
                        lastMarketTime := if live.lastMarketTime == 0 then past.lastMarketTime else live.lastMarketTime,
                        resolved := live.resolved || past.resolved,
                        suspectedInactive := inactive);
    if |live.sparkline| < 2 && |past.sparkline| >= 2 then
      ReplaceSparkline(filled, past.sparkline).(attempted := past.attempted)
    else filled
  }

  function RefreshMerged(cached: seq<Row>, live: Row): Row {
    var past := LastRow(cached, Any, live.symbol);
    if past == None then live else Filled(live, past.value)
  }

  /** What MergeScreenerRefreshData makes of the live rows. */
  function Refreshed(cached: seq<Row>, live: seq<Row>): seq<Row> {
    seq(|live|, i requires 0 <= i < |live| => RefreshMerged(cached, live[i]))
  }

  /** How many live rows have a cached one. */
  function MatchedCount(cached: seq<Row>, live: seq<Row>): nat {
    if live == [] then 0
    else
      var n := |live| - 1;
      MatchedCount(cached, live[..n]) + if LastRow(cached, Any, live[n].symbol).Some? then 1 else 0
  }

  /** The loop's body for a row with a cached one. */
  method FillFrom(live: Row, past: Row) returns (item: Row)
    ensures item == Filled(live, past)
  {
    item := live;
    if item.name == "" {
      item := item.(name := past.name);
    }
    item := item.(metrics := past.metrics + item.metrics);
    if item.lastMarketTime == 0 {
      item := item.(lastMarketTime := past.lastMarketTime);
    }
    if !item.resolved {
      item := item.(resolved := past.resolved, suspectedInactive := past.suspectedInactive);
    }
    if |item.sparkline| < 2 && |past.sparkline| >= 2 {
      item := ReplaceSparkline(item, past.sparkline).(attempted := past.attempted);
    }
  }

  method MergeScreenerRefreshData(cached: seq<Row>, live: seq<Row>) returns (result: seq<Row>, merged: nat)
    ensures result == Refreshed(cached, live)
    ensures merged == MatchedCount(cached, live)
  {
    hide LastRow, IsTable, Filled;
    var cachedBySymbol := BuildTable(cached, 0, |cached|, Any);
    assert cached[0..|cached|] == cached;
    result, merged := live, 0;
    for i := 0 to |live|
      invariant |result| == |live|
      invariant forall k :: 0 <= k < i ==> result[k] == RefreshMerged(cached, live[k])
      invariant forall k :: i <= k < |live| ==> result[k] == live[k]
      invariant merged == MatchedCount(cached, live[..i])
    {
      var item := result[i];
      TableLookup(cachedBySymbol, cached, Any, item.symbol);
      assert live[..i + 1][..i] == live[..i];
      if item.symbol !in cachedBySymbol {
        continue;
      }
      var past := cachedBySymbol[item.symbol];
      item := FillFrom(item, past);
      merged := merged + 1;
      result := result[i := item];
    }
    assert live[..|live|] == live;
  }

  predicate Drawn(row: Row) {
    |row.sparkline| >= 2
  }

  /** What a live row says stays: its name, every metric it has, its market time, its verdict once resolved
      and a drawn sparkline. What it lacks comes from the last cached row of its symbol. */
  predicate FilledFrom(live: Row, past: Row, r: Row) {
    && r.symbol == live.symbol
    && r.name == (if live.name != "" then live.name else past.name)
    && (forall f :: f in r.metrics <==> f in live.metrics || f in past.metrics)
    && (forall f :: f in live.metrics ==> f in r.metrics && r.metrics[f] == live.metrics[f])
    && (forall f :: f in past.metrics && f !in live.metrics ==> f in r.metrics && r.metrics[f] == past.metrics[f])
    && r.lastMarketTime == (if live.lastMarketTime != 0 then live.lastMarketTime else past.lastMarketTime)
    && (if live.resolved then r.resolved && r.suspectedInactive == live.suspectedInactive
        else r.resolved == past.resolved && r.suspectedInactive == past.suspectedInactive)
    && (if !Drawn(live) && Drawn(past)
        then r.sparkline == past.sparkline && r.attempted == past.attempted && r.revision == live.revision + 1
        else r.sparkline == live.sparkline && r.attempted == live.attempted && r.revision == live.revision)
  }

  lemma FilledIs(live: Row, past: Row)
    ensures FilledFrom(live, past, Filled(live, past)) && Filled(live, past).symbol == live.symbol
  {
  }

  lemma FilledTwice(live: Row, past: Row)
    ensures Filled(Filled(live, past), past) == Filled(live, past)
  {
    var r := Filled(live, past);
    assert past.metrics + r.metrics == r.metrics;
  }

  /** Field by field, for every live row: with a cached row of its symbol as stated, and without one unchanged.
      Refreshing twice is refreshing once. */
  lemma RefreshIs(cached: seq<Row>, live: Row)
    ensures forall j :: 0 <= j < |cached| && live.symbol != "" && LastChosen(cached, Any, live.symbol, j) ==>
              FilledFrom(live, cached[j], RefreshMerged(cached, live))
    ensures live.symbol == "" || (forall j :: 0 <= j < |cached| ==> cached[j].symbol != live.symbol) ==>
              RefreshMerged(cached, live) == live
    ensures RefreshMerged(cached, RefreshMerged(cached, live)) == RefreshMerged(cached, live)
  {
    hide LastRow, Filled, FilledFrom;
    forall j | 0 <= j < |cached| && live.symbol != "" && LastChosen(cached, Any, live.symbol, j)
      ensures FilledFrom(live, cached[j], RefreshMerged(cached, live))
    {
      LastRowIs(cached, Any, live.symbol, j);
      FilledIs(live, cached[j]);
    }
    if live.symbol == "" || (forall j :: 0 <= j < |cached| ==> cached[j].symbol != live.symbol) {
      NoRow(cached, Any, live.symbol);
    }
    var past := LastRow(cached, Any, live.symbol);
    if past.Some? {
      FilledIs(live, past.value);
      FilledTwice(live, past.value);
    }
  }

  lemma {:induction false} NoRow(rows: seq<Row>, choice: Choice, symbol: string)
    requires symbol == "" || forall j :: 0 <= j < |rows| ==> rows[j].symbol != symbol || !Chosen(choice, rows[j])
    ensures LastRow(rows, choice, symbol) == None
  {
    if rows != [] && symbol != "" {
      NoRow(rows[..|rows| - 1], choice, symbol);
    }
  }

  /** Two sets of the indices below a bound, the second with the bound itself as well if it is in. */
  lemma OneMore(fewer: set<int>, more: set<int>, n: int, added: bool)
    requires n !in fewer && more == if added then fewer + {n} else fewer
    ensures |more| == |fewer| + if added then 1 else 0
  {
  }

  /** The count of a trend merge is the number of rows it changed. */
  lemma {:induction false} ChangedCountIs(before: seq<Row>, after: seq<Row>)
    requires |before| == |after|
    ensures ChangedCount(before, after) == |set i | 0 <= i < |before| && before[i] != after[i]|
  {
    if before != [] {
      var n := |before| - 1;
      ChangedCountIs(before[..n], after[..n]);
      var fewer := set i | 0 <= i < n && before[..n][i] != after[..n][i];
      var more := set i | 0 <= i < |before| && before[i] != after[i];
      OneMore(fewer, more, n, before[n] != after[n]);
    }
  }

  predicate HasRow(rows: seq<Row>, symbol: string) {
    symbol != "" && exists j :: 0 <= j < |rows| && rows[j].symbol == symbol
  }

  lemma {:induction false} RowFound(rows: seq<Row>, symbol: string)
    ensures LastRow(rows, Any, symbol).Some? <==> HasRow(rows, symbol)
  {
    if rows != [] && symbol != "" {
      RowFound(rows[..|rows| - 1], symbol);
    }
  }

  /** The count of a refresh merge is the number of live rows with a cached one. */
  lemma {:induction false} MatchedCountIs(cached: seq<Row>, live: seq<Row>)
    ensures MatchedCount(cached, live) == |set i | 0 <= i < |live| && HasRow(cached, live[i].symbol)|
  {
    hide LastRow, HasRow;
    if live != [] {
      var n := |live| - 1;
      MatchedCountIs(cached, live[..n]);
      RowFound(cached, live[n].symbol);
      var fewer := set i | 0 <= i < n && HasRow(cached, live[..n][i].symbol);
      var more := set i | 0 <= i < |live| && HasRow(cached, live[i].symbol);
      OneMore(fewer, more, n, HasRow(cached, live[n].symbol));
    }
  }
}
