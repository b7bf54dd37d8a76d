# SquareStar: a verified model of its protocols, calendar, search and text handling

SquareStar is a market viewer written in C++20. This project models the parts of it whose correctness is not
visible from any single function: two concurrent protocols, the market calendar, the fuzzy symbol search, the
news text normaliser, and the state machines behind alerts, notifications, requests and the screener cache.

| files | what they model |
|---|---|
| `ScreenerProtocol`, `ScreenerInvariant`, `ScreenerRuns`, `ScreenerSettling`, `ScreenerRows`, `ScreenerTokens`, `ScreenerTrends`, `ScreenerStarts`, `ScreenerSubmits` | the UI thread and the worker thread sharing a job slot, cancellable tokens and a compare-exchanged snapshot, one atomic operation or locked region per step |
| `ScreenerExecutor` | the single-slot executor those steps use, as a class |
| `MainLoopSignal`, `MainLoopRuns` | redraw revision, wake deadline slot, posted event and the loop that promotes, sleeps and draws, with any number of threads |
| `CivilTime`, `MarketCalendar`, `NewYorkTime`, `MarketHours` | `timegm`/`gmtime`, weekday formulas and holidays, the two daylight saving rules, opening and settlement |
| `SymbolSearch` | bounded edit distance against Levenshtein distance and least edit scripts |
| `Utf8`, `Mojibake`, `HtmlEntities`, `NewsText`, `NewsIdempotence`, `NewsTextLaws` | the news text pipeline on bytes, against RFC 3629 |
| `PriceAlerts`, `PriceAlertService`, `PriceAlertRuns`, `PriceAlertMutes`, `PriceAlertLaws` | thresholds, silences, mutes, tabs and monitors |
| `NotificationChannel`, `NotificationRuns` | the request queue and the price-move batches |
| `ScreenerMerge`, `ScreenerCache` | row merges and the bounded cache |
| `RequestTracker` | the desired, in-flight and applied generations |

Code that updates objects or runs loops is modelled by classes and methods proved against functions on values;
the properties over whole runs are lemmas about those functions and about step relations. Bytes are integers
from 0 to 255; a shift by six bits is a division by 64 and a mask of six bits a remainder. Counters are unbounded
integers, prices are reals, clocks are parameters.

## Model

| member | source | states |
|---|---|---|
| ScreenerRuns.LoadingIsInHand | src/application/screener_controller.cpp:435-521 | in every interleaving without quit or shutdown, a snapshot in Loading or Refreshing has its fetch pending in the executor or running, or the UI thread is about to submit it or is replacing it; so an idle executor and an idle UI thread mean that nothing is loading |
| ScreenerRuns.PendingFetchIsKept | src/application/screener_controller.cpp:316-433 | no step, in particular no trend submission, displaces the pending fetch of the displayed generation: it stays until the worker takes it or the executor stops |
| ScreenerRuns.GenerationNeverDecreases | src/application/app_market_data.hpp:80-101 | along every run the displayed generation never goes back |
| ScreenerRuns.SnapshotsAreFaithful | src/application/screener_controller.cpp:88-112 | every snapshot the worker ever published keeps generation and screener of the one it replaced, and the rows of every snapshot were fetched or cached for the screener it is shown under, also when a cancel lands between token check and compare-exchange |
| ScreenerRuns.RunExtendsHistory | src/application/app_market_data.hpp:85-101 | published snapshots are immutable: later states only append to the history |
| ScreenerSettling.LoadingIsUnsettled | src/application/screener_executor.cpp:54-69 | in every run the states the following results speak of are exactly the loading ones before quit and shutdown with the UI thread idle: the worker is still there, as it leaves only when the executor is stopping |
| ScreenerSettling.WorkerNears | src/application/screener_controller.cpp:136-267 | while a request is loading and nobody interferes, every step of the worker settles it or comes strictly nearer to that, whatever job it is in: fetching, merging, storing, publishing, failing, throwing, waiting, enriching trends; only a progress report of the data source does not |
| ScreenerSettling.WorkerCanStep | src/application/screener_controller.cpp:136-267 | until then the worker is never stuck: it has a step that is neither an exception nor a report |
| ScreenerSettling.UnsettledRunIsShort | src/application/screener_controller.cpp:136-267 | a worker-only run that has not settled the request, exceptions and older jobs included, has at most 120 steps and 121 more for each progress report |
| ScreenerSettling.WorkerRunSettles | src/application/screener_controller.cpp:136-267 | so every worker-only run settles the request on its way or is that short and can go on by an ordinary step; with finitely many reports it ends in Ready with rows or Failed without |
| ScreenerSettling.LoadingCanSettle | src/application/screener_controller.cpp:205-267 | from every reachable loading state with nobody interfering, at most 121 ordinary steps settle the request, in a Ready snapshot with rows or a Failed one without: no exception, no progress report |
| ScreenerRows.FetchedRowsAreShown | src/application/screener_controller.cpp:205-267 | in every run a fetch to which the source returns rows, and which throws no exception after that, ends with a Ready snapshot of its generation that holds the very list returned, unless it was cancelled, the program is quitting or a newer generation is shown |
| ScreenerRows.SnapshotsHaveRows | src/application/screener_controller.cpp:114-267 | in every run a snapshot the worker published as Ready or Refreshing has rows and one it published as Failed has none; it never replaced rows by none, and every list that went into the rows it replaced went into its own |
| ScreenerRows.TrendTakesIn | src/application/screener_controller.cpp:268-314 | a snapshot published by a trend phase keeps generation, screener and list of the Ready one it replaces and takes in the enriched rows |
| ScreenerStarts.RestartShowsRows | src/application/screener_controller.cpp:435-521 | a start that finds rows of its screener on display shows them again, as Refreshing under the new generation, whatever the worker does in the meantime |
| ScreenerSubmits.StartEnds | src/application/screener_controller.cpp:435-521 | every start ends by submitting the fetch of its generation under its key, or, executor stopping, in Ready with rows or Failed without; the empty screener and an empty watchlist submit nothing and are shown as Ready without rows; only a quit keeps it from being shown |
| ScreenerSubmits.TrendEnds | src/application/screener_controller.cpp:316-433 | every trend request ends by submitting the generation, screener and rows on display when it began, under the key built for it and with a token never given out before, or is refused because another request is displayed, it is cancelled, or the program or executor is stopping |
| ScreenerSubmits.ResetEnds | src/application/screener_controller.cpp:523-538 | a reset ends with nothing on display under a generation of its own and with both token slots empty, whatever the worker is doing |
| ScreenerSubmits.CachedUnderItsKey | src/application/screener_controller.cpp:169-314 | whenever the rows cached under a key change, a fetch, a trend job or a start of that very key is storing them |
| ScreenerTokens.CancelledIffOvertaken | src/application/screener_controller.cpp:435-530 | whenever the UI thread is idle, a job pending or running is cancelled if and only if its generation is not the displayed one |
| ScreenerTokens.CancelledFetchIsMute | src/application/screener_controller.cpp:88-167 | a fetch cancelled before the last token check of a publish, or before its last check of a quit, publishes nothing more, however the run goes on |
| ScreenerTokens.CancelledFetchIsHarmless | src/application/screener_controller.cpp:205-258 | a fetch given up before it has looked at its result, or before it has checked again to store it, cancels no trend and caches nothing |
| ScreenerTrends.DisplacedTrendIsCancelled | src/application/screener_controller.cpp:205-433 | a trend job pending or running holds the token in the slot, or is cancelled, or a thread is in the middle of cancelling it |
| ScreenerTrends.TrendSlotIsLive | src/application/screener_controller.cpp:37-71 | until the executor stops, a token in the trend slot belongs to a trend job pending, running or being submitted, so an idle program has an empty slot |
| ScreenerTrends.CancelledTrendIsMute | src/application/screener_controller.cpp:268-433 | a trend job cancelled, by its own token, its request's or a quit, before the staleness test that sees it publishes nothing more |
| ScreenerRuns.RunKeepsInv | src/application/screener_controller.cpp:114-134 | every state of every run satisfies the protocol invariant about history, tokens, cache, both threads' counters and the loading state |
| ScreenerInvariant.UiKeepsInv | src/application/screener_controller.cpp:435-530 | every step of start, trend start and reset on the UI thread keeps the invariant, whatever the worker is in the middle of |
| ScreenerInvariant.WorkerKeepsInv | src/application/screener_controller.cpp:136-167 | every step of the worker keeps it: progress callbacks, merging, storing, final publish, failure and exception paths, trend phases |
| ScreenerInvariant.PublishMoves | src/application/screener_controller.cpp:88-112 | one round of the publish loop either moves on without effect, gives up because the request was cancelled, overtaken or the program is quitting, or stores a snapshot exactly when its generation and screener are still displayed |
| ScreenerInvariant.FinishMoves | src/application/screener_controller.cpp:114-134 | settling a failed request publishes Ready exactly with rows shown and Failed exactly without, only while the generation is displayed |
| ScreenerProtocol.KeyOwnerOfBuiltKey | src/application/screener_cache.cpp:73-83 | a cache key determines the screener it was built for, the watchlist's symbols notwithstanding |
| ScreenerExecutor.TakenIsLatest | src/application/screener_executor.cpp:22-34 | the job the worker takes is the last one submitted, and was submitted after the previous one was taken |
| ScreenerExecutor.BusyMeansWork | src/application/screener_executor.cpp:51-81 | until it stops the executor is busy exactly while a job is pending or running |
| ScreenerExecutor.LatestScreenerJobExecutor.Submit | src/application/screener_executor.cpp:22-34 | a submission replaces what is pending and sets busy unless the executor is stopping |
| ScreenerExecutor.StoppedForGood | src/application/screener_executor.cpp:22-49 | once the worker has left, the executor is stopping, empty and not busy in every later state, before and after Stop's last store, whatever is submitted |
| ScreenerExecutor.LatestScreenerJobExecutor.Stop | src/application/screener_executor.cpp:36-42 | stopping drops what is pending, once |
| ScreenerExecutor.LatestScreenerJobExecutor.FinishStop | src/application/screener_executor.cpp:43-49 | after the worker is joined busy is cleared |
| ScreenerExecutor.LatestScreenerJobExecutor.Take | src/application/screener_executor.cpp:58-69 | the worker gets the pending job and empties the slot, or leaves if stopping |
| ScreenerExecutor.LatestScreenerJobExecutor.Finish | src/application/screener_executor.cpp:75-79 | busy is cleared only if nothing is pending |
| MainLoopRuns.DeadlineIsNotLost | src/application/main_loop_signal.cpp:48-69 | ever after a wake request for d is answered: the slot holds a deadline no later than d, or the revision has advanced since the call began, or a thread that cleared such a deadline since then still owes its increment |
| MainLoopRuns.SlotIsClearedWhenDue | src/application/main_loop_signal.cpp:82-96 | the slot is only emptied by a thread whose clock reading had reached its value and which then owes a redraw; otherwise a deadline is only replaced by an earlier one |
| MainLoopRuns.PromotionServesDueDeadlines | src/application/main_loop_signal.cpp:82-96 | a deadline due when a promotion starts has led to a redraw request, or to one still owed, when the promotion ends |
| MainLoopRuns.SleepMissesNothing | src/modules/main_loop_runtime.cpp:184-204 | while the unsuspended loop waits, an undrawn revision has its wake posted or about to be, and without a wake in flight the wait ends by the slot's deadline or 0.05 s after it began |
| MainLoopRuns.WaitIsBounded | src/modules/main_loop_schedule.cpp:54-101 | every wait, in a suspended window too, ends by itself after 0.01 s to 30 s |
| MainLoopRuns.DrawnAfterRequested | src/modules/main_loop_render.cpp:76-132 | once the rendered revision reaches a request's revision, a frame that began after that request has been drawn |
| MainLoopRuns.PassDrawsEverythingRequested | src/modules/main_loop_render.cpp:76-132 | a pass of the loop that comes to the frame check draws everything requested so far before it comes round again |
| MainLoopRuns.AnswerIsPromised | src/application/main_loop_signal.cpp:48-69 | the step that ends a wake request has recorded either its redraw or a slot holding a deadline no later |
| MainLoopSignal.StepKeepsInv | src/application/main_loop_signal.cpp:39-96 | every step of any thread, of the main loop and of the clock keeps the invariant behind these properties, weak compare-exchange failures included |
| MainLoopRuns.RevisionCounts | src/application/main_loop_signal.cpp:39-46 | in every run the revision is one more than the number of redraws requested |
| MainLoopSignal.MainStaysGood | src/modules/main_loop_runtime.cpp:184-204 | whatever another thread does while the loop is on its way to sleep, a changed slot leaves a wake in flight and a raised revision leaves a redraw in flight |
| CivilTime.DateRoundTrip | src/domain/market_calendar.cpp:10-31 | dates from year 1 and day numbers correspond one to one |
| CivilTime.TmRoundTrip | src/domain/market_calendar.cpp:241-247 | gmtime undoes timegm on every valid time from year 1 |
| CivilTime.TimeOfIsPosix | src/domain/market_calendar.cpp:241-247 | timegm is the formula of POSIX.1-2017 Base Definitions, section 4.16 |
| CivilTime.DayNumberOrders | src/domain/market_calendar.cpp:10-21 | day numbers order dates as year, month and day do |
| MarketCalendar.WeekdayFormula | src/domain/market_calendar.cpp:90-98 | for every date of every year, before year 0 too, the weekday formula is the day number modulo 7 if and only if the year counted from March is not negative, or is a leap year and the formula's sum is not negative or a multiple of 7 |
| MarketCalendar.WeekdayFormulaFromYearZero | src/domain/market_calendar.cpp:90-98 | from year 0 on the formula is right if and only if the date is not in January or February of year 0 |
| MarketCalendar.NthWeekday | src/domain/market_calendar.cpp:100-108 | where the weekday formula is right about the first of the month, the result is the one day of that weekday in the nth group of seven days, 0 exactly if the month has none |
| MarketCalendar.NthWeekdayExactly | src/domain/market_calendar.cpp:100-108 | in every month of every year the first four of a weekday are found if and only if the weekday formula is right about the first of the month |
| MarketCalendar.LastWeekday | src/domain/market_calendar.cpp:110-116 | in every month of every year the result has that weekday and lies in the month's last seven days if and only if it is one of the seven and the formula is right about the last day |
| MarketCalendar.EasterIsSunday | src/domain/market_calendar.cpp:118-137 | the computus yields a Sunday in every year |
| MarketCalendar.EasterFollowsFullMoon | src/domain/market_calendar.cpp:118-137 | in every year from 1 on the computus yields the first Sunday strictly after the paschal full moon, the moon being given by golden number, century corrections and epact |
| MarketCalendar.EasterSunday | src/domain/market_calendar.cpp:118-137 | two days after Good Friday comes a Sunday between 22 March and 25 April |
| MarketCalendar.GoodFriday | src/domain/market_calendar.cpp:118-137 | Good Friday is a valid date of its year, a Friday between 20 March and 23 April |
| NewYorkTime.DstRulesAgree | src/domain/market_calendar.cpp:197-258 | the local rule applied to the wall clock agrees with the UTC rule at an instant if and only if the instant is not in the repeated hour of a year from 1967 |
| NewYorkTime.LocalToUtcUndoes | src/domain/market_calendar.cpp:226-258 | converting back gives the instant if and only if it is not in that hour |
| NewYorkTime.WallRoundTrip | src/domain/market_calendar.cpp:197-258 | converting a wall-clock reading forth and back gives it again if and only if it is not in the skipped hour |
| NewYorkTime.DstDays | src/domain/market_calendar.cpp:51-86 | in every year from 1967 daylight saving starts on a Sunday at 07:00 UTC and ends on a later Sunday of that year at 06:00 UTC |
| NewYorkTime.DaylightDays | src/domain/market_calendar.cpp:51-86 | which Sundays those are, by counting days: the last of April, the first of April or the second of March, and the last of October or the first of November, by year, and the two dates of 1974 and 1975 |
| NewYorkTime.LocalRule | src/domain/market_calendar.cpp:197-224 | the month-by-month local rule is the interval from the start day 02:00 to the end day 02:00 |
| MarketHours.TradingDayInAnyWeek | src/domain/market_calendar.cpp:139-179 | any seven consecutive days contain a trading day |
| MarketHours.ClosedExactly | src/domain/market_calendar.cpp:139-179 | in every year from 1 on the closed days are exactly Saturdays, Sundays, the fixed holidays as they are kept, the movable ones by counting weekdays and from the full moon, and the nine one-off closures |
| MarketHours.ClosesExactly | src/domain/market_calendar.cpp:181-195 | of the trading days exactly 3 July, the day after Thanksgiving and Christmas Eve close at 13:00, all others at 16:00 |
| MarketHours.ReasonIsTrue | src/domain/market_calendar.cpp:139-175 | the reason given for a closed day is true of it, by counting days, and an open day has none |
| MarketHours.InvalidIsSaid | src/domain/market_calendar.cpp:139-142 | what is no date is said to be invalid, and nothing else is |
| MarketHours.MidweekClosures | src/domain/market_calendar.cpp:139-175 | a Tuesday or Wednesday is closed only by a fixed holiday or a one-off closure |
| MarketHours.NextTradingNoon | src/domain/market_calendar.cpp:282-294 | the day search stops at the first trading day after the given one, within seven steps |
| MarketHours.BellsAreEdges | src/domain/market_calendar.cpp:260-266 | opening instants are exactly where the market goes from closed to open, settlement instants where it goes from open to closed |
| MarketHours.NextMarketOpenAt | src/domain/market_calendar.cpp:275-306 | the least opening instant strictly after t, where the market is open; a market closed at t is closed until then |
| MarketHours.NextMarketSettlementAt | src/domain/market_calendar.cpp:308-342 | the least settlement instant strictly after t; a market open at t is open until then |
| MarketHours.WallOrders | src/domain/market_calendar.cpp:249-258 | off Sundays the New York wall clock orders instants by day and time of day |
| SymbolSearch.BoundedEditDistance | src/domain/symbol_search.hpp:72-141 | for all texts and every bound k >= 0 the result is the lesser of the Levenshtein distance and k + 1 |
| SymbolSearch.TableDistance | src/domain/symbol_search.hpp:118-140 | the two-row table with its early exit computes that |
| SymbolSearch.AtMostOneEdit | src/domain/symbol_search.hpp:94-117 | the two-pointer path for k = 1 computes it too |
| SymbolSearch.LevIsLeastEdits | src/domain/symbol_search.hpp:72-141 | the Levenshtein recurrence is the length of a shortest script of insertions, deletions and replacements |
| SymbolSearch.LevSymmetric | src/domain/symbol_search.hpp:72-93 | swapping the texts does not change the distance |
| SymbolSearch.RowBoundsDistance | src/domain/symbol_search.hpp:118-140 | every row of the table has an entry no larger than the final distance, which justifies the early exit |
| SymbolSearch.TwoMismatches | src/domain/symbol_search.hpp:94-117 | two mismatches in lockstep mean a distance of at least two |
| Utf8.DecodeOne | src/domain/news_text.cpp:33-82 | the byte-by-byte decoder yields the specified result at every offset |
| Utf8.DecodeMeetsGrammar | src/domain/news_text.cpp:33-82 | decoding succeeds exactly on the sequences of RFC 3629 section 4, gives the scalar value they encode, always advances by one to four bytes within the input, and yields U+FFFD on failure |
| Utf8.DecodeUndoesEncode | src/domain/news_text.cpp:13-82 | decoding at any offset undoes the encoding of every scalar value, whatever surrounds it |
| Utf8.EncodedIsWellFormed | src/domain/news_text.cpp:13-31 | what the encoder appends is well-formed if and only if the number is no surrogate; numbers past U+10FFFF become U+FFFD |
| Utf8.CodePointsEncodeTo | src/domain/news_text.cpp:33-82 | a well-formed text is the encoding of the scalar values it decodes to |
| Mojibake.MojibakeMarkers | src/domain/news_text.cpp:84-97 | the skipping search counts every occurrence of every marker |
| Mojibake.RepairWindows1252Mojibake | src/domain/news_text.cpp:121-146 | the repair yields the recovered bytes exactly when all characters have a Windows-1252 byte, the bytes are UTF-8 and have fewer markers, and the input otherwise |
| Mojibake.RepairInvertsMojibake | src/domain/news_text.cpp:121-146 | on a UTF-8 text misread byte by byte as Windows-1252 the repair gives the text back when it has fewer markers, and leaves the mojibake otherwise |
| Mojibake.RepairInvertsMisreading | src/domain/news_text.cpp:99-146 | the same for every misreading the byte table accepts |
| Mojibake.RepairOnlyUndoesMisreading | src/domain/news_text.cpp:121-146 | on any input the result is the input, or well-formed text with strictly fewer markers of which the input is a misreading |
| Mojibake.CharOfGivesByte | src/domain/news_text.cpp:99-119 | the byte table undoes Windows-1252 decoding of every byte |
| Mojibake.ByteOfIs | src/domain/news_text.cpp:99-119 | and against Windows-1252 in byte order: a code point gives a byte if and only if it is the character of that byte or its number |
| Mojibake.MarkersAre | src/domain/news_text.cpp:84-88 | what the marker bytes mean: first characters of misread sequences, two control characters, a misread U+FFFD |
| HtmlEntities.ParseNumericEntity | src/domain/news_text.cpp:148-175 | a numeric reference is accepted exactly if it denotes, in positional notation, a scalar value other than zero; the overflow test loses none |
| HtmlEntities.DecodeHtmlEntities | src/domain/news_text.cpp:177-213 | the scan yields the text with each reference replaced and the rest copied |
| HtmlEntities.ReferenceIsReplaced | src/domain/news_text.cpp:188-211 | a known reference of at most 15 characters is replaced wherever it stands; of a longer one only the ampersand is copied |
| HtmlEntities.NamedReference | src/domain/news_text.cpp:178-206 | each of the twelve named references is replaced by its character wherever it stands |
| HtmlEntities.NumericReference | src/domain/news_text.cpp:148-175 | every scalar value other than zero may be referred to by its decimal number and by its hexadecimal one, in small or capital letters |
| HtmlEntities.DecodingUndoesEscaping | src/domain/news_text.cpp:177-213 | decoding undoes escaping of every text, in a single pass |
| HtmlEntities.ReferencesAreScalars | src/domain/news_text.cpp:148-211 | the encoder is never given a surrogate here |
| HtmlEntities.DecodingKeepsWellFormed | src/domain/news_text.cpp:177-213 | decoding keeps well-formed text well-formed |
| NewsText.LooksLikeMarcArtifact | src/domain/news_text.cpp:215-243 | the length of the catalogue artifact at an offset, zero if there is none |
| NewsText.CleanAndValidate | src/domain/news_text.cpp:245-277 | the loop writes the rendering of the input's pieces; stripping trailing spaces removes nothing |
| NewsText.RenderIsWords | src/domain/news_text.cpp:245-277 | the output is the input's words, cut at gaps and artifacts, joined by single spaces |
| NewsText.CleanedIsTidy | src/domain/news_text.cpp:245-277 | the output consists of kept characters with single spaces strictly between them |
| NewsTextLaws.CleaningIs | src/domain/news_text.cpp:245-277 | any text without an artifact comes out as its words, cut at controls, spaces, U+00A0 and U+FFFD and without U+FEFF and U+200B, joined by single spaces |
| NewsTextLaws.ArtifactIsFound | src/domain/news_text.cpp:215-243 | wherever three digits, a dollar sign and a letter are followed by question marks and digits, at least one of either, all those question marks and up to three digits are taken |
| NewsTextLaws.ArtifactFound | src/domain/news_text.cpp:215-243 | and nothing else is taken for an artifact |
| NewsText.NormalizeNewsText | src/domain/news_text.cpp:281-286 | entities, then repair if there are markers, then cleaning |
| NewsText.NormalizedIsClean | src/domain/news_text.cpp:281-286 | whatever the bytes, the result is well-formed UTF-8 without leading, trailing or doubled space and without discarded code points |
| NewsTextLaws.NothingElseIsLeft | src/domain/news_text.cpp:281-286 | none of these characters is left in the result but single spaces |
| NewsIdempotence.IdempotentIffNothingJoined | src/domain/news_text.cpp:245-277 | cleaning is idempotent on a text if and only if no discarded U+FEFF or U+200B joins its neighbours into an artifact |
| NewsIdempotence.StableIffNoArtifact | src/domain/news_text.cpp:245-277 | cleaning again changes nothing if and only if the cleaned text holds no artifact |
| NewsIdempotence.NoArtifactSurvives | src/domain/news_text.cpp:245-277 | on text without U+FEFF and U+200B no artifact survives and cleaning is idempotent |
| NewsIdempotence.JoiningExample | src/domain/news_text.cpp:259-260 | "12", U+FEFF, "3$a1" is a text on which it is not |
| NewsIdempotence.RenderConserves | src/domain/news_text.cpp:245-277 | the rendering without its spaces is the sequence of the kept characters, each once and in order |
| PriceAlertRuns.FiringsAreSeparated | src/modules/core.cpp:688-739 | in every run two firings for a ticker are separated by a re-arming: the threshold set, the alert resumed, a mute expired, or a quote above the threshold |
| PriceAlertRuns.ReconciledAlertsAreWatched | src/modules/market_data.cpp:229-303 | after every reconcile, full or skipped, each valid threshold has exactly one kind of watcher, a tab or exactly one monitor, and no monitor lacks a threshold |
| PriceAlertRuns.HeldStays | src/modules/core.cpp:688-739 | an alert that is silenced or whose watcher has fired stays so through every event that does not re-arm it, and does not fire |
| PriceAlertRuns.FiredIsHeld | src/modules/core.cpp:709-722 | an alert that fires is held afterwards, its only watcher being the context that fired |
| PriceAlertRuns.RearmingArms | src/application/price_alert_policy.cpp:58-124 | re-arming works: afterwards nothing but a running mute keeps the alert from firing, unless setting the threshold has fired it at once |
| PriceAlertMutes.MuteMutes | src/modules/core.cpp:705-722 | in every run, after an alert is muted until a time, no event before that time fires it and none leaves it a sound, whatever quotes arrive, tabs open and close or hand-overs happen, until the mute is ended |
| PriceAlertMutes.MuteLasts | src/application/alert_service.hpp:184-245 | what ends a mute, exactly: its time, setting or removing the threshold, resuming, another silence, and evaluation without a threshold |
| PriceAlertMutes.ClosingForgetsMute | src/modules/core.cpp:732-739 | closing a tab while its alert rings is such a silence: in a run from the empty service an alert muted until 100 fires again at 50 |
| PriceAlertLaws.SilenceReachesAll | src/application/price_alert_policy.cpp:30-56 | a silence reaches every context of the ticker, retired ones too, and no other: no sound is left, and it counts as triggered exactly if its price is at or under the threshold |
| PriceAlertLaws.ExpiryReachesAll | src/application/price_alert_policy.cpp:58-74 | mutes end exactly when their time has come, with their silences, and re-arm their tickers in every context |
| PriceAlertLaws.RemovalReachesAll | src/application/price_alert_policy.cpp:85-105 | removing a threshold clears trigger and sound of every context of the ticker, retired ones too, and drops exactly its monitors |
| PriceAlertLaws.NewWatchersAreUntouched | src/modules/market_data.cpp:283-300 | a tab that opens and every monitor a reconcile starts is untriggered, silent and without a price |
| PriceAlertRuns.ReconcileMustComeFirst | src/modules/main_loop_runtime.cpp:148 | a run from the empty service in which a monitor fires an alert, a tab for the ticker opens and, not being reconciled yet, would fire it again if it were evaluated |
| PriceAlertRuns.NextKeepsInv | src/application/price_alert_policy.cpp:30-124 | every event keeps tabs and monitors distinct and apart, and an unchanged signature means settled watchers |
| PriceAlertRuns.TakenOver | src/modules/market_data.cpp:254-281 | a tab of a ticker with a monitor ends the hand-over with the monitor's triggered flag and sound repetitions, and with its price and success exactly as the quote patch prescribes, whatever the other tabs and monitors |
| PriceAlertRuns.MonitorsAfter | src/modules/market_data.cpp:254-300 | after a full reconcile a ticker with a valid threshold has a monitor exactly when it has no tab, and one without a threshold has none |
| PriceAlertService.AlertRuntime.Reconcile | src/modules/market_data.cpp:229-303 | the two walks hand alert state over, drop superseded monitors and start the missing ones |
| PriceAlertService.AlertRuntime.HandOver | src/modules/market_data.cpp:254-281 | the walk over the monitors |
| PriceAlertService.AlertRuntime.StartMonitors | src/modules/market_data.cpp:283-300 | the walk over the thresholds starts one fresh monitor for each ticker that needs one |
| PriceAlertService.AlertRuntime.EvaluateTab | src/modules/core.cpp:688-731 | evaluation of a context |
| PriceAlertService.AlertRuntime.SilenceForClosedTab | src/modules/core.cpp:732-739 | closing a tab silences an alert that is active, has fired or is sounding |
| PriceAlertService.AlertRuntime.ApplySilence | src/application/price_alert_policy.cpp:30-56 | all contexts of the ticker are silenced; the result tells whether a sequence was under way |
| PriceAlertService.AlertRuntime.ExpireMutes | src/application/price_alert_policy.cpp:58-74 | exactly the due mutes end and their tickers are re-armed |
| PriceAlertService.AlertRuntime.ExpireMutesAt | src/application/alert_service.hpp:233-245 | the walk that erases while iterating removes exactly the due mutes and their silences |
| PriceAlertService.AlertRuntime.Resume | src/application/price_alert_policy.cpp:107-124 | resuming re-arms a silenced configured alert and does nothing otherwise |
| PriceAlertService.AlertRuntime.RemoveConfigured | src/application/price_alert_policy.cpp:85-105 | removing a threshold resets its contexts and drops its monitors |
| PriceAlertService.AlertRuntime.SetThreshold | src/application/alert_service.hpp:168-182 | at most 128 thresholds; setting ends the silence; only a change advances the revision |
| NotificationRuns.PublishedInOrder | src/application/notification_channel.cpp:14-19 | over a whole run publications come in strictly increasing order of clears, batch and revision; between two clears that is batch and revision |
| NotificationRuns.RepeatedAcrossClear | src/application/notification_channel.cpp:14-19 | the same batch id and revision are published twice only with a clear between the two, as clearing restarts the numbering |
| NotificationRuns.ClearRepeatsNumbers | src/application/notification_channel.cpp:14-19 | and then they may be: any two moves, each taken, with a clear between them are published under the same batch id and revision |
| NotificationRuns.PublishedIsSummary | src/application/notification_channel.cpp:46-95 | every publication ever made, before a clear or after, has one row for each stock that had moved in its batch by that revision, in the order of their first moves, each summing up the moves of its stock |
| NotificationRuns.EveryMoveIsBatched | src/application/notification_channel.cpp:46-95 | the moves of all batches since the last clear, one batch after the other, are the moves queued since then: none is lost, doubled or reordered |
| NotificationRuns.JoinsExactly | src/application/notification_channel.cpp:51-72 | two moves in succession share a batch if and only if the second is a nearby one, the batch is still pending, no more than 1.5 s have passed since a first nearby one, and the batch knows the stock or has fewer than 64 rows |
| NotificationRuns.RequestStays | src/application/notification_channel.cpp:14-44 | what becomes of each queued request: it moves up, is replaced in its place by one of its group, or makes room as the oldest of sixteen |
| NotificationRuns.PoppedIsPublished | src/application/notification_channel.cpp:111-139 | a batch popped as ready has been published at its final revision, with all moves it ever gets, however the run goes on |
| NotificationRuns.BoundsHold | src/application/notification_channel.cpp:21-95 | at most 16 requests with one per group, 5 batches and 64 rows with unique tickers |
| NotificationRuns.EntriesArePublished | src/application/notification_channel.cpp:117-131 | the publications recorded are those returned, with the batch id as group |
| NotificationChannel.SummaryIs | src/application/notification_channel.cpp:74-91 | a batch has one row per stock moved, in the order of their first moves: the price before is that of the first move with a positive one, the price after that of the last move, an alert if any move was, with the last positive threshold of an alert move, the currency the last one named; a single move is its own row |
| NotificationChannel.NothingToFlush | src/application/notification_channel.cpp:143-162 | a flush delay above 0.01 s means that taking now returns nothing and changes nothing |
| NotificationChannel.DelayIsEnough | src/application/notification_channel.cpp:143-162 | once the delay has passed, taking publishes or pops the front batch |
| NotificationChannel.EnqueueKeepsQueue | src/application/notification_channel.cpp:21-35 | enqueueing and taking keep the queue bounded with one request per group, and the new request is queued |
| NotificationChannel.NativeNotificationChannel.Enqueue | src/application/notification_channel.cpp:21-35 | the backward search replaces the group's request or appends |
| NotificationChannel.NativeNotificationChannel.Take | src/application/notification_channel.cpp:37-44 | the oldest request |
| NotificationChannel.NativeNotificationChannel.QueuePriceMove | src/application/notification_channel.cpp:46-95 | the row joins the newest batch or opens one |
| NotificationChannel.NativeNotificationChannel.TakeReadyPriceMoveNotifications | src/application/notification_channel.cpp:97-141 | the loop from the front publishes changed batches and stops at the first that is not ready |
| ScreenerCache.HitIsLastStore | src/application/screener_cache.cpp:90-156 | in every run a hit returns exactly the rows of the last successful store or update of that key, and only while the last store's data are younger than the age asked for: updates never make them look fresher |
| ScreenerCache.HitIsFresh | src/application/screener_cache.cpp:90-156 | in every run whose two clocks advance together, a cached screener is a hit if and only if the wall time then less the one given to its last successful store is below the age asked for |
| ScreenerCache.OldestDataGoFirst | src/application/screener_cache.cpp:39-60 | of two other screeners, one evicted and one kept, the data of the evicted one are no younger, by the wall times given to their last stores |
| ScreenerCache.EvictedForWant | src/application/screener_cache.cpp:39-60 | nothing is evicted unless three other screeners are held or the bytes would exceed 2 MiB |
| ScreenerCache.CacheIsBounded | src/application/screener_cache.cpp:22-24 | at most three entries and 2 MiB are ever held |
| ScreenerCache.EvictionIsDetermined | src/application/screener_cache.cpp:39-60 | with distinct fetch times, oldest first and no more than needed leave one possible result |
| ScreenerCache.InsertionKeepsBounds | src/application/screener_cache.cpp:39-60 | an insertion ends within the bounds and keeps every entry one of the last stores |
| ScreenerCache.ScreenerCache.Insert | src/application/screener_cache.cpp:39-60 | the loop evicts oldest first and no more than needed |
| ScreenerCache.ScreenerCache.Store | src/application/screener_cache.cpp:105-131 | a store succeeds exactly on non-empty rows that fit with a wall time set and not in the future, dated back by their age |
| ScreenerCache.ScreenerCache.UpdateTrends | src/application/screener_cache.cpp:133-156 | an update succeeds exactly on a cached key and keeps both fetch times |
| ScreenerCache.ScreenerCache.LoadForRefresh | src/application/screener_cache.cpp:90-103 | a hit needs a non-empty entry younger than the age asked for |
| ScreenerMerge.MergeScreenerTrendData | src/application/screener_cache.cpp:216-254 | each row takes the trend of the last row of its symbol in the window that has one, and the count is that of the rows changed |
| ScreenerMerge.TrendMergeIsIdempotent | src/application/screener_cache.cpp:216-254 | merging the same trends again changes nothing and reports zero, which is what ends the retry of a trend phase |
| ScreenerMerge.ChangedCountIs | src/application/screener_cache.cpp:236-254 | the count reported is the number of rows that differ |
| ScreenerMerge.TrendMergeIs | src/application/screener_cache.cpp:216-254 | a row's trend becomes that of the last row of its symbol with two points or more or, where failures count, an attempt; without one the row stays; nothing but the trend and its revision changes |
| ScreenerMerge.MergeScreenerRefreshData | src/application/screener_cache.cpp:158-214 | live rows are filled from the last cached row of their symbol |
| ScreenerMerge.RefreshIs | src/application/screener_cache.cpp:158-214 | field by field which live value stays and which gap is filled from the last cached row of the symbol, name, market time and resolution included; without one the row is unchanged, and refreshing twice is refreshing once |
| ScreenerMerge.MatchedCountIs | src/application/screener_cache.cpp:158-214 | the count reported is the number of live rows with a cached one of their symbol |
| RequestTracker.AcceptedUnlessSuperseded | src/application/stock_request_tracker.cpp:31-43 | in every run the completion of the generation in flight, being newer than the applied one when it began, is accepted if and only if no newer one was requested since; refused, it leaves the channel unsettled and the newest generation to be fetched next |
| RequestTracker.AppliedNeverDecreases | src/application/stock_request_tracker.cpp:5-49 | in every run neither the applied nor the in-flight generation exceeds the desired one, and the applied one never decreases, although cancelling lets numbers be reused |
| RequestTracker.GenerationsAreCounted | src/application/stock_request_tracker.cpp:5-13 | in every run the desired generation is at most the number of requests, and each request asks for the next number |
| RequestTracker.StockRequestTracker.Request | src/application/stock_request_tracker.cpp:5-7 | a request asks for the next generation of one channel |
| RequestTracker.StockRequestTracker.EnsureDesired | src/application/stock_request_tracker.cpp:9-13 | the generation ensured is newer than the applied one |
| RequestTracker.StockRequestTracker.Begin | src/application/stock_request_tracker.cpp:15-22 | at most one generation is in flight |
| RequestTracker.StockRequestTracker.Complete | src/application/stock_request_tracker.cpp:31-43 | the result tells whether the generation was applied |
| RequestTracker.StockRequestTracker.CancelDesired | src/application/stock_request_tracker.cpp:45-49 | cancelling takes a request back unless one is in flight |
| RequestTracker.StockRequestTracker.TriggerFetch | src/modules/market_data.cpp:102-116 | a fetch that starts has the newest generation in flight, newer than anything applied |

## Left out

Of the screener protocol:
- A snapshot pointer is its index in the history of published snapshots, so a compare-exchange succeeds exactly on the last one; memory orders are sequentially consistent.
- Rows are reduced to the list they are, known by the fetch that got it, the screeners whose data went in and the lists merged in; their contents are the subject of `ScreenerMerge` and `ScreenerCache`. In the protocol the cache may lose any entry at any time.
- The refresh time and the trend page key are not modelled; the exception handler itself, the exchange and cancellation of a trend token and the scheduling after a publish are taken not to throw.
- ScreenerRuns.LoadingIsInHand: speaks of states before quit and shutdown, after which nothing needs to load.
- ScreenerSettling.WorkerRunSettles: counts steps of the worker; that a data source stops reporting and that the worker gets to run are not modelled.
- Screener ids are taken not to start with `watchlist:`, as is true of all routes.
- The executor object's creation under its own lock, how a thread is joined and the condition variable: a waiting worker may wake whenever there is something to do.

Of redraw and wake signalling:
- The notifier is taken to be set, and posts a sticky event that the loop's next event pump consumes; the notifier mutex is not modelled.
- Other sources of urgency in the wait computation are arbitrary; input, mouse and periodic refresh may ask for a poll or a frame at any time.
- Fairness: nothing says that a thread about to post gets to run.

Of the calendar:
- Years before 1: which weekdays the formulas get right there is the subject of `MarketCalendar.WeekdayFormula`, `NthWeekdayExactly` and `LastWeekday`; Good Friday, closures, daylight saving and the searches are stated from year 1 on.
- MarketHours.NextMarketOpenAt: stated for instants from the second New York day of year 1 on, so that the day before exists in the calendar.
- MarketHours.NextMarketSettlementAt: likewise.
- NewYorkTime.DstRulesAgree: stated for instants from the second day of year 1 on.
- NewYorkTime.WallRoundTrip: stated for wall-clock readings from that day on.
- The conversions are those of the POSIX branch, `gmtime_r` and `timegm`; on Windows `gmtime_s` and `_mkgmtime` refuse times before 1970.
- Leap seconds do not exist in POSIX time.
- The texts of the closure reasons are an enumeration; the settlement label and the opening window are left out.

Of symbol search:
- Scoring, word matching and normalisation of queries; `BoundedEditDistance` is modelled on sequences of any element type. Overflow of string lengths is left out.

Of news text:
- Character classification is that of the C locale. The named references are the source's twelve.
- In `HtmlEntities.ParseNumericEntity` the check for a missing digit after the prefix is absent: the size test before it rules it out.

Of alerts:
- Ticker symbols fit their buffer, no two tabs have the same ticker, and the topology signature is the topology itself, without hash collisions or reused addresses.
- PriceAlertRuns.FiringsAreSeparated: stated for runs without a switch between the full and the light interface, which rebuilds all contexts, and with a reconcile before a tab's first evaluation, as the main loop's order provides.
- Loading a configuration, which replaces all thresholds before any tab is open.
- Toasts, the notification history, sounds and their timing; prices that are not finite; the patch of a quote apart from price and success.
- Monitors are started in some order; the identity of a monitor object plays no part.

Of notifications:
- The formatting of the message texts: a publication carries its rows. Prices that are not finite.

Of the cache:
- Storage sizes are parameters, and the time of an insertion's lock is not modelled; rows leave out render caches.
- Among entries equally old any may be evicted.

Elsewhere:
- 64-bit counters do not wrap; floating-point rounding is not modelled.
- `stock_request_coordinator` is a second copy of the request tracker and is not modelled again.
- Rendering, windows, audio, key bindings, themes, HTTP, provider parsing, persistence, the benchmark runner and scripts.
