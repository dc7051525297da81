# A verified model of the stock-trader backtesting platform

The project models four connected parts of the platform and proves what they promise over
all inputs, all runs and all interleavings.

- **Rate limiters.** `RedisRateLimiter.dfy` holds the sorted set, the Lua script and the
  `acquire` loop; `RateLimiterRuns.dfy` holds the theorems about the transition system of any
  number of callers, and `AcquireRuns.dfy` shows that the loop is a run of it. Time is the
  server's microsecond clock, which never goes back; `NowMs` folds it into milliseconds as the
  script does. Key expiry, lost replies, Redis errors and both failure modes are steps. Members
  are fresh (a reused member is shown to break the limit). `MassiveRateLimiter.dfy` is the in-process deque on a clock that never goes back but
  may repeat a reading, as `time.monotonic` may. Its spacing holds over every history whose
  clock has moved between a recorded call and the next acquire (`HistoryIsSpaced`); without
  that it can fail (`FrozenClockBreaksSpacing`). `HistoryStaysSpacedIff` names the one
  instant, in terms of the recorded times, at which an acquire can break it, and
  `UncaughtHistoryIsSpaced` holds over every history that avoids it.
- **Bollinger strategy.** `Bollinger.dfy` is the signal loop with its session mask and forced
  exit. The bands are `centre ± std_dev * spread` for any functions of the trailing `length`
  closes with a non-negative spread, and every result of that file is for all of them, so it
  holds for the moving average and the standard deviation of pandas-ta. `BandWidths.dfy` takes
  the mean and the deviation themselves: what a run trades and reports in terms of the closes
  alone, and what a larger `std_dev` does. `WiderHoldsLessIff` ranges over all bands;
  `NeverBuysIff` and `WiderHoldsLessOnDeviationsIff` are about the mean and the standard
  deviation themselves, for every length and either divisor: `BollingerParams` accepts widths
  at which a run can never buy, and short of those the upper exit lets a wider run hold more.
  `WiderUpperExitCanHoldMore` is an instance on seven closes.
- **Metrics.** `StrategyMetrics.dfy` (with `ExactReals.dfy`) is the one-pass metrics fold over
  exact reals. Rounding is a parameter that keeps the order and fixes 0 and 100. As in the
  code, a run with no completed trip reports an ending capital of 0, not the initial capital
  (`EndingCapitalIsTrueIff`).
- **Job pipeline.** `MarketData.dfy` is the insert-if-absent table in front of a provider with a
  fixed history, `BacktestJobs.dfy` the job records, repositories and tasks, and
  `PipelineRuns.dfy` the interleaved system of jobs, fetch tasks with retries, symbol tasks and
  callbacks, with its invariant; `PipelineResults.dfy` holds the theorems about it, and
  `SymbolBacktest.dfy` joins a symbol task to the Bollinger run. Assumed there: the guard and
  the status write of a dispatch are one step; each task is delivered once; the callback runs
  once after all header tasks; database calls succeed; the provider answers a request with its
  bars in the requested days.

Objects that the code updates in place are classes (`SharedKey`, `Limiter`, `MarketDataRepository`,
`MarketDataService`, `BacktestRepository`, `BacktestService`, `Worker`); their methods are proved
against functions, the transition systems step by the same functions, and the lemmas are about
those functions.

Where the code and its documentation differ, the model follows the code:

- `ensure_data` says it returns "bars for the requested range"; any stored row in the range is a
  hit, so a partly covered range comes back short. `AlwaysCompleteIff` gives the exact
  condition on the table and the requests fetched so far, and `PartlyCoveredRangeIsShort` an
  instance.
- The callback says it marks the job "completed or failed"; it tests the error text for truth, so
  failures that all have an empty text count as success. `VerdictIsTrueIff` and `CompletedIsFullIff`
  give the exact condition and `SilentFailureIsCompleted` an instance.
- A dispatch writes RUNNING before it reaches the broker. If the broker is down the job stays
  RUNNING for ever and every later dispatch is refused (`StrandedForEver`); `StrandedIff` says
  job by job when that has happened.

## Model

| member | source | states |
|---|---|---|
| RedisRateLimiter.SharedKey.RunScript | src/stock_trader/infrastructure/redis_rate_limiter.py:28-50 | the script on the shared key leaves the key and gives the reply that `Script` says |
| RedisRateLimiter.Acquire | src/stock_trader/infrastructure/redis_rate_limiter.py:106-140 | the retry loop runs the script on the shared key while others run it too; it ends at the first attempt that is no denial, returns or raises as the failure mode says, and sleeps exactly the waits and jitters of its denials |
| RedisRateLimiter.EvictionKeepsSuffix | src/stock_trader/infrastructure/redis_rate_limiter.py:37 | eviction of an ordered set removes exactly the entries up to the cutoff and keeps the rest in order |
| RedisRateLimiter.NowMsIsFloor | src/stock_trader/infrastructure/redis_rate_limiter.py:34-35 | the folded seconds and microseconds are the clock rounded down to milliseconds |
| RedisRateLimiter.KeptIsWindow | src/stock_trader/infrastructure/redis_rate_limiter.py:37-42 | after eviction, with or without key expiry before it, the set is exactly the grants inside the window |
| RedisRateLimiter.ScriptReply | src/stock_trader/infrastructure/redis_rate_limiter.py:40-49 | the reply is 0 iff the grant `max_requests` ago has left the window, else the exact time until it does, within 1..window |
| RedisRateLimiter.ReserveKeepsTrack | src/stock_trader/infrastructure/redis_rate_limiter.py:40-43 | a run of the script leaves the set and its TTL in step with the record of grants |
| RateLimiterRuns.StepInv | src/stock_trader/infrastructure/redis_rate_limiter.py:117-140 | every step of every caller, of the clock and of key expiry keeps the limiter's invariant |
| RateLimiterRuns.LimitHolds | src/stock_trader/infrastructure/redis_rate_limiter.py:60-82 | in every reachable state: grants `max_requests` apart are `window_seconds` apart, no half-open window holds more, the set is bounded, every metered return owns a grant, and errors end as the failure mode says |
| RateLimiterRuns.SpacedBoundsWindows | src/stock_trader/infrastructure/redis_rate_limiter.py:76-77 | spaced grants put at most `max_requests` in any half-open window of the length |
| RateLimiterRuns.ScriptRefinesFullRecord | src/stock_trader/infrastructure/redis_rate_limiter.py:37-49 | the script answers as a limiter that keeps every grant for ever, so eviction and PEXPIRE change no answer |
| RateLimiterRuns.WaitIsExact | src/stock_trader/infrastructure/redis_rate_limiter.py:46-49 | a denial's wait is within 1..window, nobody is granted before it is over, and with no grant between a call after it succeeds |
| RateLimiterRuns.DenialSleepsItsWait | src/stock_trader/infrastructure/redis_rate_limiter.py:136-140 | the sleep a denied pass adds takes the caller to the wake-up of its attempt, at least the wait in milliseconds away and at most 0.25 s more; no other pass sleeps |
| RateLimiterRuns.SleepIsBounded | src/stock_trader/infrastructure/redis_rate_limiter.py:136-140 | in every reachable state a sleeper wakes within a window and 0.25 s |
| RateLimiterRuns.DenialsArePaidFor | src/stock_trader/infrastructure/redis_rate_limiter.py:136-140 | a caller that is denied again finds that another caller was granted since its previous denial; d denials have seen d - 1 grants, all to others |
| RateLimiterRuns.LoopsEnd | src/stock_trader/infrastructure/redis_rate_limiter.py:117-140 | with one acquire each, a caller among n is denied at most n - max_requests times |
| RateLimiterRuns.SleeperCanFinish | src/stock_trader/infrastructure/redis_rate_limiter.py:138-140 | a sleeping caller can always be granted once its sleep and the window have passed |
| RateLimiterRuns.ReusedMemberIsNeverLimited | src/stock_trader/infrastructure/redis_rate_limiter.py:119 | why member uniqueness is load-bearing: with max_requests of at least 2, on a key that holds no other member, every call with one reused member is granted |
| AcquireRuns.AcquireIsARun | src/stock_trader/infrastructure/redis_rate_limiter.py:117-140 | on a clock that never goes back, with unique members, the loop on the shared key is a run of the transition system with the same key and the same outcome, whoever runs the script in between |
| AcquireRuns.AcquireIsMetered | src/stock_trader/infrastructure/redis_rate_limiter.py:106-134 | so an acquire that returns a slot owns a grant on a record spaced as the limit says |
| MassiveRateLimiter.Limiter.EvictExpired | src/stock_trader/core/market_data/providers/massive/rate_limiter.py:79-83 | the eviction loop drops exactly the leading calls older than the window |
| MassiveRateLimiter.Limiter.AwaitSlot | src/stock_trader/core/market_data/providers/massive/rate_limiter.py:61-75 | eviction, one sleep if full and a second eviction, up to the last clock reading |
| MassiveRateLimiter.Limiter.Acquire | src/stock_trader/core/market_data/providers/massive/rate_limiter.py:55-77 | adds one call at its last clock reading; the deque stays the young end of the record on any clock, and spacing and bound are kept when the clock has moved since the last call |
| MassiveRateLimiter.AcquireInv | src/stock_trader/core/market_data/providers/massive/rate_limiter.py:61-77 | when the clock has moved since the last recorded call, an acquire keeps the spacing, the order and the bound of the deque, whatever readings repeat inside it |
| MassiveRateLimiter.SleepsOnlyWhenFull | src/stock_trader/core/market_data/providers/massive/rate_limiter.py:63-74 | no sleep while the window has room; otherwise at most a window, ending exactly when the call `max_requests` ago expires |
| MassiveRateLimiter.DequeIsWindow | src/stock_trader/core/market_data/providers/massive/rate_limiter.py:61-83 | on any clock an acquire leaves exactly the calls that had not expired at its last eviction, in order, and the new one |
| MassiveRateLimiter.HistoryIsSpaced | src/stock_trader/core/market_data/providers/massive/rate_limiter.py:21-39 | over every history whose clock moves between a call and the next acquire: calls `max_requests` apart are a window apart; at most max_requests + 1 entries, and an extra head has expired |
| MassiveRateLimiter.StandingClockIsSafeIff | src/stock_trader/core/market_data/providers/massive/rate_limiter.py:63-83 | whatever the clock did before, an acquire keeps the spacing for all readings iff the head stands for the call `max_requests` ago |
| MassiveRateLimiter.HistoryStaysSpacedIff | src/stock_trader/core/market_data/providers/massive/rate_limiter.py:61-83 | a spaced history stays spaced through the next acquire, for all its readings, iff it is not the instant at which the call max_requests + 1 ago expires with a younger one after it |
| MassiveRateLimiter.UncaughtHistoryIsSpaced | src/stock_trader/core/market_data/providers/massive/rate_limiter.py:21-39 | every history that never starts an acquire at such an instant is spaced, on any clock that does not go back |
| MassiveRateLimiter.MovingClockIsNeverCaught | src/stock_trader/core/market_data/providers/massive/rate_limiter.py:61-83 | a clock that moves between acquires never meets that instant |
| MassiveRateLimiter.FrozenClockBreaksSpacing | src/stock_trader/core/market_data/providers/massive/rate_limiter.py:81-82 | eviction is strict, so a clock frozen at an expiry lets two calls through at once |
| Bollinger.Run | src/stock_trader/core/strategies/bollinger_reversion.py:74-154 | the loop with its forced exit returns the trades and metrics of `RunResult`, or the error of too few rows or of a non-positive price |
| Bollinger.HeldIff | src/stock_trader/core/strategies/bollinger_reversion.py:101-124 | a position is open before a bar iff an earlier bar gave a buy signal and none since an exit signal |
| Bollinger.TradesAreTheSignals | src/stock_trader/core/strategies/bollinger_reversion.py:93-124 | the loop trades at exactly the bars whose signal finds the position it needs |
| Bollinger.LoopShape | src/stock_trader/core/strategies/bollinger_reversion.py:93-124 | loop trades alternate in strictly rising bar order, answer their bar's signal, and end with a BUY iff a position is open |
| Bollinger.ForcedExitFindsBar | src/stock_trader/core/strategies/bollinger_reversion.py:126-140 | the forced exit happens iff a position is open, always finds the last in-session bar, and never precedes the BUY |
| Bollinger.RunIsPaired | src/stock_trader/core/strategies/bollinger_reversion.py:93-143 | every run alternates BUY and SELL and ends sold, on in-session bars from `length` on, and the metrics count half the trades |
| Bollinger.HeldMonotone | src/stock_trader/core/strategies/bollinger_reversion.py:101-124 | if one run buys only where another would and exits wherever the other would, it holds no bar the other does not |
| Bollinger.UpperAgainstMiddle | src/stock_trader/core/strategies/bollinger_reversion.py:90-140 | the upper exit holds every bar the middle exit holds, buys only where it buys, trades no more, and first sells no earlier |
| Bollinger.WiderBandsHoldLess | src/stock_trader/core/strategies/bollinger_reversion.py:101-124 | with the middle exit a larger `std_dev` never adds a held bar |
| Bollinger.NoLookAhead | src/stock_trader/core/strategies/bollinger_reversion.py:78-140 | the trades on a prefix, without its forced exit, are a prefix of the trades on the whole series; later ones are later |
| BandWidths.LoopOnDeviations | src/stock_trader/core/strategies/bollinger_reversion.py:55-124 | on mean and deviation bands, by the closes alone: a BUY at exactly the session bars that close more than `std_dev` deviations below the mean out of a position, a SELL at exactly those at the mean or the upper band, as `exit_at` says, in one |
| BandWidths.ReportOnDeviations | src/stock_trader/core/strategies/bollinger_reversion.py:78-154 | a successful run reports these trades, a SELL at the last session bar when the data ends in a position, and nothing else |
| BandWidths.RunOutcome | src/stock_trader/core/strategies/bollinger_reversion.py:56-57 | a run fails for too few rows iff there are fewer than `length`, and for a price iff a trade would be at one not positive; otherwise its ending capital is its own initial capital times the product of its trips |
| BandWidths.LastIsWithinReach | src/stock_trader/core/strategies/bollinger_reversion.py:55-75 | no close is further from the mean of its window than the deviation times the root of (length - 1) times divisor over length |
| BandWidths.NeverBuysIff | src/stock_trader/core/strategies/bollinger_reversion.py:55-104 | on mean and deviation bands there is never a buy signal iff `std_dev` squared times length is at least the divisor times length - 1 |
| BandWidths.WiderHoldsLessIff | src/stock_trader/core/strategies/bollinger_reversion.py:90-124 | a larger `std_dev` never adds a held bar on any bands iff the exit is at the middle band |
| BandWidths.WiderHoldsLessOnDeviationsIff | src/stock_trader/core/strategies/bollinger_reversion.py:55-124 | on mean and deviation bands, for every length and pair of widths, a larger `std_dev` never adds a held bar iff the exit is at the middle band or the wider run can never buy |
| BandWidths.WiderUpperExitCanHoldMore | src/stock_trader/core/strategies/bollinger_reversion.py:90-116 | an instance on mean and deviation bands: with the upper exit the wider run still holds where the narrower has sold |
| StrategyMetrics.CollectPairs | src/stock_trader/core/strategies/models.py:84-88 | the stride-2 loop collects the BUY/SELL neighbours |
| StrategyMetrics.CountWins | src/stock_trader/core/strategies/models.py:93 | counts the trips sold above their price |
| StrategyMetrics.FoldEquity | src/stock_trader/core/strategies/models.py:95-105 | the one pass gives the last point of the equity curve and the running drawdown |
| StrategyMetrics.CalculateMetrics | src/stock_trader/core/strategies/models.py:79-115 | the whole computation gives `MetricsOf`, defaults included |
| StrategyMetrics.PairsAreTrips | src/stock_trader/core/strategies/models.py:84-88 | of any list the trips are exactly the BUY/SELL neighbours at even positions |
| StrategyMetrics.PairsInOrder | src/stock_trader/core/strategies/models.py:84-88 | the trips of an even prefix come first, and the rest follows |
| StrategyMetrics.WinsAreGains | src/stock_trader/core/strategies/models.py:93 | the wins are the number of trips sold above their price |
| StrategyMetrics.WinRateCountsGains | src/stock_trader/core/strategies/models.py:93-112 | the unrounded win rate is the percentage of these; 0 iff no trip gains, 100 iff all do |
| StrategyMetrics.DrawdownOfCurve | src/stock_trader/core/strategies/models.py:95-113 | each trip scales the curve by sell over buy, and the reported drawdown is the largest loss between two of its points as a share of the earlier |
| StrategyMetrics.RoundingIsLast | src/stock_trader/core/strategies/models.py:80-115 | every reported figure is the rounded exact figure, and all are 0 without trips |
| StrategyMetrics.AlternatingPairsUp | src/stock_trader/core/strategies/models.py:84-88 | an alternating list is paired completely and in order |
| StrategyMetrics.DrawdownIsLargestDrop | src/stock_trader/core/strategies/models.py:100-105 | the running-peak drawdown is the largest drop between two points of the curve, lies in [0, 1), and is 0 iff no trip loses |
| StrategyMetrics.FiguresOfTrips | src/stock_trader/core/strategies/models.py:93-115 | ending equity is capital times the product of sell/buy; all other figures ignore the capital; the return is at least minus the drawdown |
| StrategyMetrics.EndingCapitalIsTrueIff | src/stock_trader/core/strategies/models.py:90-115 | the ending capital is capital times the product of the ratios iff some trip was completed; otherwise it is reported as 0 |
| StrategyMetrics.MetricsAreValid | src/stock_trader/core/strategies/models.py:28-37 | the field bounds hold for every list of trades under any order-keeping rounding |
| MarketData.MarketDataRepository.BulkInsert | src/stock_trader/db/repositories/market_data_repo.py:40-63 | inserts the absent rows, one bar after the other |
| MarketData.MarketDataService.EnsureData | src/stock_trader/core/market_data/market_data_service.py:51-95 | hit, miss, errors and insert as `Ensure` says; every provider call of a limited service takes a slot first |
| MarketData.QueryIsOrderedRange | src/stock_trader/db/repositories/market_data_repo.py:25-38 | the query gives exactly the rows of symbol, interval and days, in rising timestamp order |
| MarketData.QueryIsDayRange | src/stock_trader/db/repositories/market_data_repo.py:27-30 | by days: the rows of symbol and interval from the start of the first day to the end of the last |
| MarketData.InsertAdds | src/stock_trader/db/repositories/market_data_repo.py:57-61 | a stored row is never overwritten, every given timestamp is stored afterwards, nothing else appears |
| MarketData.InsertExtendsMirror | src/stock_trader/core/market_data/market_data_service.py:86-92 | storing an answer makes the table the provider's bars restricted to one more range |
| MarketData.RacingInsertsCommute | src/stock_trader/db/repositories/market_data_repo.py:57-63 | two racing misses leave the same table in either order |
| MarketData.EnsureMeaning | src/stock_trader/core/market_data/market_data_service.py:58-95 | a hit is the fetched part of the answer and changes nothing, a miss is the full answer and extends the mirror, a failure changes nothing, a success can be read back |
| MarketData.EnsureFailsIff | src/stock_trader/core/market_data/market_data_service.py:66-90 | each error exactly when: never with a stored row in the range; else the limiter, the provider, or no bar offered; a provider call unless stored or the limiter failed |
| MarketData.AlwaysCompleteIff | src/stock_trader/core/market_data/market_data_service.py:66-78 | whatever the provider has, a successful call returns all of it iff no row of the range is stored or every day of the range was asked for before |
| MarketData.PartlyCoveredRangeIsShort | src/stock_trader/core/market_data/market_data_service.py:73-78 | an overlapping range is a hit and comes back short |
| BacktestJobs.BacktestRepository.UpdateJobStatus | src/stock_trader/db/repositories/worker_repo.py:48-71 | status, error and the matching time are written to that job only; a missing job changes nothing |
| BacktestJobs.BacktestService.DispatchBacktestJob | src/stock_trader/api/services/backtest_service.py:52-76 | refuses a missing or running job unchanged; otherwise RUNNING first, then one pipeline, or the broker's error and none |
| BacktestJobs.Worker.EnsureMarketDataForJob | src/stock_trader/core/market_data/market_data_tasks.py:49-79 | one attempt: the symbols in order up to the first exception, as `FetchSymbols` says |
| BacktestJobs.Worker.OnFetchFailure | src/stock_trader/core/market_data/market_data_tasks.py:24-37 | writes FAILED with the cause to that job |
| BacktestJobs.Worker.RunBacktest | src/stock_trader/core/backtest.py:24-95 | never raises, whatever the strategy makes of the stored bars: success with exactly one row, or an error value and no row |
| BacktestJobs.Worker.FinalizeBacktestJob | src/stock_trader/core/backtest.py:99-126 | writes the verdict on the results to that job |
| BacktestJobs.AttemptMeaning | src/stock_trader/core/market_data/market_data_tasks.py:69-79 | an uninterrupted attempt calls the provider at most once per symbol without rows, exactly so when it succeeds, and then every symbol has rows |
| BacktestJobs.FoundMeans | src/stock_trader/core/market_data/market_data_tasks.py:69-76 | a symbol is found iff one-minute bars of it are stored on the job's own days |
| BacktestJobs.AttemptSucceedsIff | src/stock_trader/core/market_data/market_data_tasks.py:69-79 | with limiter and provider up an attempt succeeds iff such bars are stored or offered for every symbol |
| BacktestJobs.AttemptStops | src/stock_trader/core/market_data/market_data_tasks.py:69-76 | a failed attempt stops at the first symbol that fails, with its error, and keeps what it stored before |
| BacktestJobs.OutcomeMeans | src/stock_trader/core/backtest.py:59-95 | a symbol task succeeds iff such bars are stored and the strategy succeeds; without bars it fails with a text |
| BacktestJobs.VerdictCounts | src/stock_trader/core/backtest.py:112-126 | with texts on all errors: COMPLETED iff the successes are all symbols, else FAILED k of n with k plus successes equal to n, naming exactly the others |
| BacktestJobs.VerdictIsTrueIff | src/stock_trader/core/backtest.py:112 | COMPLETED stands for all tasks succeeding iff none failed or some failure has a text |
| BacktestJobs.NamedIff | src/stock_trader/core/backtest.py:112-115 | the symbols named are exactly those of failures with a text |
| BacktestJobs.FailuresInOrder | src/stock_trader/core/backtest.py:112 | failures are listed in the order of the tasks |
| BacktestJobs.SilentFailureIsCompleted | src/stock_trader/core/backtest.py:112-126 | a lone failure without a text is reported as COMPLETED |
| SymbolBacktest.TaskSucceedsIff | src/stock_trader/core/backtest.py:59-95 | with the Bollinger strategy and positive prices a symbol's task succeeds iff at least `length` bars are stored in the job's range |
| SymbolBacktest.TradesAreStoredBars | src/stock_trader/core/backtest.py:59-76 | every trade of a symbol's run is at the close of a stored one-minute bar of the symbol, on a day of the job and in session |
| PipelineRuns.StepsAreEnsure | src/stock_trader/core/market_data/market_data_tasks.py:40-48 | the interleavable steps of one symbol, taken together, are one `ensure_data` call and the task's retry rule |
| PipelineRuns.FetchMovesInv | src/stock_trader/core/market_data/market_data_tasks.py:69-76 | every step of a fetch task keeps its accounts: calls stored, calls that came to nothing, symbols found |
| PipelineRuns.StepInv | src/stock_trader/api/services/celery_task_dispatcher.py:20-23 | every step of every pipeline, job and store keeps the system invariant |
| PipelineResults.PipelineSafety | src/stock_trader/api/services/backtest_service.py:61-76 | a live pipeline's job is RUNNING and has no other and no later one; an ended one wrote exactly one verdict, by the hook or by the callback |
| PipelineResults.RecordIsLastVerdict | src/stock_trader/db/repositories/worker_repo.py:48-71 | the record of a COMPLETED or FAILED job carries the status and error its last pipeline wrote, and that pipeline has ended |
| PipelineResults.JobRecordsAreConsistent | src/stock_trader/db/repositories/worker_repo.py:62-69 | error iff FAILED; finished jobs started no later than they ended; a stale end time of a re-dispatched job precedes its start |
| PipelineResults.WritesAreStamped | src/stock_trader/db/repositories/worker_repo.py:62-69 | every write of a record stamps the clock of its step, the start for RUNNING and the end for COMPLETED or FAILED, and leaves the other time and the work alone |
| PipelineResults.WorkIsAsOrdered | src/stock_trader/db/repositories/backtest_repo.py:25-40 | over every run a job keeps the symbols and days it was created with |
| PipelineResults.FetchBudget | src/stock_trader/core/market_data/market_data_tasks.py:40-48 | over at most four attempts, whatever is interleaved, a job calls the provider at most once per distinct symbol plus three times |
| PipelineResults.StoreMirrorsProvider | src/stock_trader/core/market_data/market_data_service.py:73-92 | in every reachable state the table is the provider restricted to the fetched ranges, whatever raced |
| PipelineResults.FetchedRangeIsFinal | src/stock_trader/db/repositories/market_data_repo.py:57-61 | in every continuation a query gives the fetched part of the provider's answer, and the full answer once its own range has been fetched |
| PipelineResults.FetchedSymbolsHaveData | src/stock_trader/core/backtest.py:56-66 | after the fetch stage no symbol task finds its data missing |
| PipelineResults.OneTaskPerSymbol | src/stock_trader/api/services/celery_task_dispatcher.py:15-23 | whatever order the symbol tasks run in, the callback gets exactly one result for each symbol of the job, in order |
| PipelineResults.RowsAreConserved | src/stock_trader/core/backtest.py:83-126 | a finalized pipeline wrote COMPLETED iff its rows are the job's symbols as multisets, else FAILED k of n with k plus its rows equal to n, naming the symbols without a row; and so says the record of a job it was the last of |
| PipelineResults.PipelineEnds | src/stock_trader/core/market_data/market_data_tasks.py:40-79 | a pipeline takes at most 13 n + 13 steps of its own for n symbols, and until it has ended it always has one to take |
| PipelineResults.CompletedIsFullIff | src/stock_trader/core/backtest.py:112-126 | with errors of any text, COMPLETED stands for a full set of rows exactly when none failed or some failure has a text |
| PipelineResults.LostDispatchStrands | src/stock_trader/api/services/backtest_service.py:66-76 | a dispatch strands its job iff the broker is down |
| PipelineResults.StrandedForEver | src/stock_trader/api/services/backtest_service.py:63-64 | a RUNNING job without a pipeline stays so in every continuation |
| PipelineResults.StrandedIff | src/stock_trader/api/services/backtest_service.py:61-76 | after any run a job is RUNNING without a pipeline iff some dispatch of that job, known and not RUNNING, did not reach the broker |
| PipelineResults.RunningIsBeingRun | src/stock_trader/api/services/backtest_service.py:66-76 | a RUNNING job has a live pipeline iff none of its own dispatches was lost |

## Left out

- HTTP routes, request validation, exception handlers, configuration, logging, migrations and deployment: no property of their own.
- pandas-ta and pandas: the bands are taken under the stated contract, the session mask as a boolean sequence, timestamps as bar positions; time zones and NaN prices are not modelled.
- Floating point and the rounding to two places: exact reals and an order-keeping rounding.
- The text of trade reasons and error messages, beyond the counts and whether an error text is empty.
- Summary, raw and chart payloads of a result, and the `vwap` and `transactions` columns that the table does not store.
- Redelivery of tasks, crashes between two database writes and concurrent dispatches of one job: excluded by the stated assumptions.
- The symbol-scoped fetch task: it appears in the pipeline system as inserts of provider answers for arbitrary requests; its JSON result and its empty series for missing data are not modelled.
- Limits on HTTP requests: a provider call may paginate, so the budgets count calls of `fetch_ohlcv`; the time between a granted slot and the call it pays for is not bounded.
- RedisRateLimiter.Acquire: runs against a finite list of passes, so it says nothing of a loop that never ends; `AcquireIsARun` makes the loop a run of the transition system, where `DenialsArePaidFor` and `LoopsEnd` bound its denials.
- BacktestJobs.Worker.EnsureMarketDataForJob: one attempt with nothing interleaved; retries and interleaving are in the transition system, tied to it by `StepsAreEnsure`.
