/**
  A symbol task of core/backtest.py that runs the Bollinger strategy on the stored bars.
*/
module SymbolBacktest {
  import opened Wrappers
  import opened MarketData
  import opened BacktestJobs
  import StrategyMetrics
  import Bollinger

  // The data frame of the bars: closes, and the session mask of their timestamps.
  function SeriesOf(bars: seq<Bar>, inSession: int -> bool): (s: Bollinger.Series)
    ensures s.Valid() && |s.closes| == |bars|
  {
    Bollinger.Series(seq(|bars|, i requires 0 <= i < |bars| => bars[i].close),
                     seq(|bars|, i requires 0 <= i < |bars| => inSession(bars[i].timestamp)))
  }

  datatype Task = Task(ind: Bollinger.Indicator, params: Bollinger.Params, inSession: int -> bool,
                       round: real -> real, textOf: Bollinger.RunError -> string)

  // What the strategy makes of the bars: a result, or an exception with its text.
  function Outcome(task: Task, bars: seq<Bar>): StrategyRun
    requires task.params.Valid()
  {
    match Bollinger.RunResult(task.ind, task.params, SeriesOf(bars, task.inSession), task.round)
    case Ok(_) => Succeeds
    case Err(e) => Raises(task.textOf(e))
  }

  ghost predicate PositivePrices(t: Table) { forall k :: k in t ==> t[k].close > 0.0 }

  // Every trade is at a close of the series.
  lemma PositiveClosesTrade(task: Task, s: Bollinger.Series)
    requires s.Valid() && forall i :: 0 <= i < |s.closes| ==> s.closes[i] > 0.0
    ensures StrategyMetrics.ValidTrades(Bollinger.AllTrades(task.ind, task.params, s))
  {
    hide Bollinger.AllTrades;
    Bollinger.TradesAlternate(task.ind, task.params, s);
  }

  /**
    End to end for one symbol: on a table of positive prices the task succeeds, and so saves
    its row, if and only if at least `length` bars of the symbol are stored in the job's
    range; what is stored outside the range or for other symbols never matters.
  */
  lemma TaskSucceedsIff(t: Table, job: Job, symbol: Symbol, task: Task)
    requires WellKeyed(t) && PositivePrices(t) && task.params.Valid()
    ensures var bars := Query(t, job.RequestFor(symbol));
            SymbolOutcome(t, job, symbol, Outcome(task, bars)).Done? <==> |bars| >= task.params.length
  {
    hide Query, Bollinger.AllTrades;
    var q := job.RequestFor(symbol);
    var bars := Query(t, q);
    QueryIsOrderedRange(t, q);
    var s := SeriesOf(bars, task.inSession);
    forall i | 0 <= i < |s.closes| ensures s.closes[i] > 0.0 {
      assert bars[i] in bars;
    }
    PositiveClosesTrade(task, s);
  }

  // A trade of the run against a stored bar of the range.
  ghost predicate TradesBar(t: Table, job: Job, symbol: Symbol, task: Task, bars: seq<Bar>,
                            trade: StrategyMetrics.Trade)
  {
    && trade.bar < |bars|
    && var bar := bars[trade.bar];
       && trade.price == bar.close && task.inSession(bar.timestamp)
       && exists k :: k in t && t[k] == bar && InDays(k, symbol, OneMinute, job.startDate, job.endDate)
  }

  /**
    Every trade of a symbol's run is at the close of a stored one-minute bar of that symbol, on
    a day of the job and in session; the trades are in the time order of their bars.
  */
  lemma TradesAreStoredBars(t: Table, job: Job, symbol: Symbol, task: Task, trade: StrategyMetrics.Trade)
    requires WellKeyed(t) && task.params.Valid()
    ensures var bars := Query(t, job.RequestFor(symbol));
            var run := Bollinger.RunResult(task.ind, task.params, SeriesOf(bars, task.inSession), task.round);
            run.Ok? && trade in run.value.trades ==> TradesBar(t, job, symbol, task, bars, trade) && InTimeOrder(bars)
  {
    hide Query, InDays, Bollinger.AllTrades, StrategyMetrics.MetricsOf;
    var bars := Query(t, job.RequestFor(symbol));
    var s := SeriesOf(bars, task.inSession);
    QueryIsOrderedRange(t, job.RequestFor(symbol));
    Bollinger.TradesAlternate(task.ind, task.params, s);
    if trade in Bollinger.AllTrades(task.ind, task.params, s) {
      assert bars[trade.bar] in bars;
      QueryIsDayRange(t, job.RequestFor(symbol), bars[trade.bar]);
    }
  }
}
