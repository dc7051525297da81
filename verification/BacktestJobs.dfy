/**
  Job records and the tasks that move them: db/repositories/backtest_repo.py and
  worker_repo.py, api/services/backtest_service.py, celery_task_dispatcher.py,
  core/backtest.py and the job half of core/market_data/market_data_tasks.py.
*/
module BacktestJobs {
  import opened Wrappers
  import opened MarketData

  type JobId = nat

  datatype Status = Created | Running | Completed | Failed

  // The texts of the error column, with the parts that are counted.
  datatype ErrorText =
    | FetchFailed(cause: string)
    | SymbolsFailed(failed: nat, total: nat, symbols: seq<Symbol>)

  datatype Job = Job(status: Status, symbols: seq<Symbol>, startDate: int, endDate: int,
                     error: Option<ErrorText>, startTime: Option<int>, endTime: Option<int>)
  {
    // Job data is fetched and read at one-minute bars.
    function RequestFor(symbol: Symbol): Request { Request(symbol, OneMinute, startDate, endDate) }
  }

  type Jobs = map<JobId, Job>

  // `run` is history: which pipeline saved the row.
  datatype Row = Row(job: JobId, symbol: Symbol, run: nat)

  datatype JobError = JobNotFound | JobAlreadyRunning | BrokerDown

  // ------------------------------------------------------------------
  // Status changes
  // ------------------------------------------------------------------

  // Both repositories write a status the same way.
  function WithStatus(job: Job, status: Status, error: Option<ErrorText>, now: int): Job {
    var j := job.(status := status, error := error);
    match status
    case Running => j.(startTime := Some(now))
    case Completed => j.(endTime := Some(now))
    case Failed => j.(endTime := Some(now))
    case Created => j
  }

  function NewJob(symbols: seq<Symbol>, startDate: int, endDate: int): Job {
    Job(Created, symbols, startDate, endDate, None, None, None)
  }

  // ------------------------------------------------------------------
  // Results of the symbol tasks
  // ------------------------------------------------------------------

  // A task returns either a success or the text of what went wrong.
  datatype SymbolResult = Done(symbol: Symbol) | Broken(symbol: Symbol, error: string) {
    // `r.get("error")` is only looked at for truth.
    predicate CountsAsFailed() { Broken? && error != "" }
  }

  const NO_DATA_TEXT := "No market data found"

  // What the strategy does once it has its bars.
  datatype StrategyRun = Succeeds | Raises(text: string)

  function SymbolOutcome(t: Table, job: Job, symbol: Symbol, strategy: StrategyRun): SymbolResult {
    if Query(t, job.RequestFor(symbol)) == [] then Broken(symbol, NO_DATA_TEXT)
    else if strategy.Raises? then Broken(symbol, strategy.text)
    else Done(symbol)
  }

  function FailedOnes(results: seq<SymbolResult>): (failed: seq<SymbolResult>)
    ensures |failed| <= |results|
  {
    if results == [] then []
    else (if results[0].CountsAsFailed() then [results[0]] else []) + FailedOnes(results[1..])
  }

  function SymbolsOf(results: seq<SymbolResult>): (symbols: seq<Symbol>)
    ensures |symbols| == |results|
  {
    if results == [] then [] else [results[0].symbol] + SymbolsOf(results[1..])
  }

  datatype Verdict = Verdict(status: Status, error: Option<ErrorText>)

  // What the finalizing callback writes.
  function FinalVerdict(results: seq<SymbolResult>): Verdict {
    var failed := FailedOnes(results);
    if failed == [] then Verdict(Completed, None)
    else Verdict(Failed, Some(SymbolsFailed(|failed|, |results|, SymbolsOf(failed))))
  }

  // The symbols of the tasks that succeeded.
  function Succeeded(results: seq<SymbolResult>): (symbols: multiset<Symbol>)
    ensures |symbols| <= |results|
  {
    if results == [] then multiset{}
    else (if results[0].Done? then multiset{results[0].symbol} else multiset{}) + Succeeded(results[1..])
  }

  ghost predicate ErrorsHaveText(results: seq<SymbolResult>) {
    forall r :: r in results && r.Broken? ==> r.error != ""
  }

  lemma FailedUnfold(results: seq<SymbolResult>)
    requires results != []
    ensures FailedOnes(results) == (if results[0].CountsAsFailed() then [results[0]] else []) + FailedOnes(results[1..])
    ensures SymbolsOf(FailedOnes(results))
            == (if results[0].CountsAsFailed() then [results[0].symbol] else []) + SymbolsOf(FailedOnes(results[1..]))
  {
    hide SymbolResult.CountsAsFailed;
    var later := FailedOnes(results[1..]);
    assert ([results[0]] + later)[1..] == later;
    assert [] + later == later;
  }

  // With texts on every error, failures and successes split the tasks and their symbols.
  lemma {:induction false} FailuresAndSuccessesSplit(results: seq<SymbolResult>)
    requires ErrorsHaveText(results)
    ensures |FailedOnes(results)| + |Succeeded(results)| == |results|
    decreases |results|
  {
    if results != [] {
      assert results[0] in results;
      FailuresAndSuccessesSplit(results[1..]);
    }
  }

  lemma {:induction false} SymbolsSplit(results: seq<SymbolResult>)
    requires ErrorsHaveText(results)
    ensures multiset(SymbolsOf(FailedOnes(results))) + Succeeded(results) == multiset(SymbolsOf(results))
    decreases |results|
  {
    hide FailedOnes;
    if results == [] {
      NoneFailed();
    } else {
      assert results[0] in results;
      SymbolsSplit(results[1..]);
      FailedUnfold(results);
      assert SymbolsOf(results) == [results[0].symbol] + SymbolsOf(results[1..]);
    }
  }

  lemma NoneFailed()
    ensures FailedOnes([]) == []
  {
  }

  /** The failures are listed in the order of the tasks: those of earlier tasks first. */
  lemma {:induction false} FailuresInOrder(early: seq<SymbolResult>, late: seq<SymbolResult>)
    ensures FailedOnes(early + late) == FailedOnes(early) + FailedOnes(late)
    decreases |early|
  {
    hide FailedOnes, SymbolsOf, SymbolResult.CountsAsFailed;
    if early == [] {
      NoneFailed();
      assert early + late == late;
    } else {
      FailuresInOrder(early[1..], late);
      assert (early + late)[1..] == early[1..] + late && (early + late)[0] == early[0];
      FailedUnfold(early + late);
      FailedUnfold(early);
    }
  }

  // And so are their symbols.
  lemma {:induction false} SymbolsOfAt(results: seq<SymbolResult>, k: nat)
    requires k < |results|
    ensures SymbolsOf(results)[k] == results[k].symbol
    decreases |results|
  {
    if k > 0 {
      SymbolsOfAt(results[1..], k - 1);
    }
  }

  // In general, exactly the symbols of failures with a text are named.
  lemma {:induction false} NamedIff(results: seq<SymbolResult>, x: Symbol)
    ensures x in SymbolsOf(FailedOnes(results))
            <==> exists r :: r in results && r.Broken? && r.error != "" && r.symbol == x
    decreases |results|
  {
    hide FailedOnes;
    if results == [] {
      NoneFailed();
    } else {
      NamedIff(results[1..], x);
      FailedUnfold(results);
      assert results == [results[0]] + results[1..];
    }
  }

  lemma {:induction false} AllSucceededIff(results: seq<SymbolResult>)
    ensures Succeeded(results) <= multiset(SymbolsOf(results))
    ensures |Succeeded(results)| == |results| <==> forall r :: r in results ==> r.Done?
    ensures Succeeded(results) == multiset(SymbolsOf(results)) <==> |Succeeded(results)| == |results|
    decreases |results|
  {
    if results != [] {
      var head, rest := results[0], results[1..];
      AllSucceededIff(rest);
      assert results == [head] + rest;
      assert SymbolsOf(results) == [head.symbol] + SymbolsOf(rest);
      assert multiset(SymbolsOf(results)) == multiset{head.symbol} + multiset(SymbolsOf(rest));
      if Succeeded(results) == multiset(SymbolsOf(results)) {
        assert |Succeeded(results)| == |SymbolsOf(results)|;
      }
    }
  }

  lemma {:induction false} NoFailuresIff(results: seq<SymbolResult>)
    ensures FailedOnes(results) == [] <==> forall r :: r in results ==> !r.CountsAsFailed()
    decreases |results|
  {
    if results != [] {
      NoFailuresIff(results[1..]);
      assert results == [results[0]] + results[1..];
    }
  }

  /**
    When every error has a text: the verdict is COMPLETED exactly when the successful
    symbols are all the symbols, as multisets; otherwise it is FAILED with k of n, where n
    counts the tasks, k plus the successes is n, and the k symbols named are the ones that did
    not succeed.
  */
  lemma {:induction false} VerdictCounts(results: seq<SymbolResult>)
    requires ErrorsHaveText(results)
    ensures FinalVerdict(results).status == Completed <==> Succeeded(results) == multiset(SymbolsOf(results))
    ensures FinalVerdict(results).status != Completed ==>
              && FinalVerdict(results).status == Failed
              && FinalVerdict(results).error.Some?
              && var e := FinalVerdict(results).error.value;
                 e.SymbolsFailed? && e.total == |results| && e.failed + |Succeeded(results)| == e.total
                 && e.failed == |e.symbols| > 0
                 && multiset(e.symbols) + Succeeded(results) == multiset(SymbolsOf(results))
  {
    FailuresAndSuccessesSplit(results);
    SymbolsSplit(results);
    AllSucceededIff(results);
  }

  /**
    In general the verdict tells the truth (COMPLETED if and only if every task succeeded)
    exactly when no task failed or some failed task has a non-empty error text.
  */
  lemma VerdictIsTrueIff(results: seq<SymbolResult>)
    ensures (FinalVerdict(results).status == Completed <==> forall r :: r in results ==> r.Done?)
            <==> (forall r :: r in results ==> r.Done?) || (exists r :: r in results && r.CountsAsFailed())
  {
    NoFailuresIff(results);
  }

  /** One task that failed without a text, and nothing else, is reported as COMPLETED. */
  lemma SilentFailureIsCompleted(symbol: Symbol)
    ensures var results := [Broken(symbol, "")];
            FinalVerdict(results).status == Completed && Succeeded(results) == multiset{}
  {
    var results := [Broken(symbol, "")];
    assert results[1..] == [];
  }

  // ------------------------------------------------------------------
  // One attempt of the fetch task
  // ------------------------------------------------------------------

  datatype Fetch = Fetch(error: Option<FetchError>, table: Table, fetches: nat)

  // The symbol loop of ensure_market_data_for_job: it stops at the first exception.
  function FetchSymbols(history: Table, t: Table, job: Job, symbols: seq<Symbol>, w: seq<Weather>): Fetch
    requires |w| >= |symbols|
    decreases |symbols|
  {
    if symbols == [] then Fetch(None, t, 0)
    else
      var e := Ensure(history, t, job.RequestFor(symbols[0]), w[0]);
      if e.result.Err? then Fetch(Some(e.result.error), e.table, e.fetches)
      else
        var rest := FetchSymbols(history, e.table, job, symbols[1..], w[1..]);
        rest.(fetches := e.fetches + rest.fetches)
  }

  predicate Found(t: Table, job: Job, x: Symbol) { Query(t, job.RequestFor(x)) != [] }

  // One-minute bars of the symbol on the job's days.
  ghost predicate HasBars(t: Table, job: Job, x: Symbol) {
    exists k :: k in t && InDays(k, x, OneMinute, job.startDate, job.endDate)
  }

  /** A symbol is found exactly when one-minute bars of it are stored on the job's own days. */
  lemma FoundMeans(t: Table, job: Job, x: Symbol)
    requires WellKeyed(t)
    ensures Found(t, job, x) <==> HasBars(t, job, x)
  {
    hide Query, InDays;
    NonEmptyIff(t, job.RequestFor(x));
  }

  /**
    A symbol task succeeds exactly when the job's days hold one-minute bars of the symbol and
    the strategy makes something of them; without bars it fails with a text, so it counts.
  */
  lemma OutcomeMeans(t: Table, job: Job, symbol: Symbol, strategy: StrategyRun)
    requires WellKeyed(t)
    ensures var r, stored := SymbolOutcome(t, job, symbol, strategy), HasBars(t, job, symbol);
            && r.symbol == symbol
            && (r.Done? <==> stored && strategy.Succeeds?)
            && (!stored ==> r.CountsAsFailed())
            && (stored && strategy.Raises? ==> r == Broken(symbol, strategy.text))
  {
    hide Query, HasBars;
    FoundMeans(t, job, symbol);
  }

  // Symbols of the list with no stored row in the job's range.
  function Missing(t: Table, job: Job, symbols: seq<Symbol>): set<Symbol> {
    set x | x in symbols && !Found(t, job, x)
  }

  // Rows of one symbol do not show in another symbol's query.
  lemma {:induction false} OtherSymbolUnseen(t: Table, q: Request, bars: seq<Bar>, p: Request, lo: int, hi: int)
    requires InTimeOrder(bars) && p.symbol != q.symbol
    ensures Scan(InsertAbsent(t, q, bars), p, lo, hi) == Scan(t, p, lo, hi)
    decreases hi - lo
  {
    if lo < hi {
      OtherSymbolUnseen(t, q, bars, p, lo + 1, hi);
      InsertAdds(t, q, bars);
    }
  }

  /**
    An uninterrupted attempt of the fetch task, on a table that mirrors the provider: it
    leaves a mirror; it calls the provider at most once for each distinct symbol with no
    stored row; and when it succeeds it has called it exactly that often and every symbol
    has rows.
  */
  lemma {:induction false} AttemptMeaning(history: Table, fetched: set<Request>, t: Table, job: Job,
                                          symbols: seq<Symbol>, w: seq<Weather>)
      returns (added: set<Request>)
    requires WellKeyed(history) && Mirrors(history, fetched, t) && |w| >= |symbols|
    ensures Mirrors(history, fetched + added, FetchSymbols(history, t, job, symbols, w).table)
    ensures FetchSymbols(history, t, job, symbols, w).fetches <= |Missing(t, job, symbols)|
    ensures FetchSymbols(history, t, job, symbols, w).error.None? ==>
              && FetchSymbols(history, t, job, symbols, w).fetches == |Missing(t, job, symbols)|
              && Missing(FetchSymbols(history, t, job, symbols, w).table, job, symbols) == {}
    ensures forall x :: Found(t, job, x) ==> Found(FetchSymbols(history, t, job, symbols, w).table, job, x)
    decreases |symbols|
  {
    hide Found, Ensure, Mirrors, Missing;
    added := {};
    if symbols == [] {
      assert fetched + added == fetched;
      NothingMissing(t, job);
    } else {
      AttemptStep(history, fetched, t, job, symbols, w[0]);
      var q := job.RequestFor(symbols[0]);
      var e := Ensure(history, t, q, w[0]);
      if e.result.Ok? {
        var more := if e.fetches == 1 then {q} else {};
        added := AttemptMeaning(history, fetched + more, e.table, job, symbols[1..], w[1..]);
        assert fetched + more + added == fetched + (more + added);
        added := more + added;
        HeadFound(FetchSymbols(history, t, job, symbols, w).table, job, symbols);
      } else {
        assert fetched + added == fetched;
      }
    }
  }

  // Limiter and provider stay up for the whole attempt.
  ghost predicate AllUp(w: seq<Weather>) { forall i :: 0 <= i < |w| ==> w[i].limiterUp && w[i].providerUp }

  lemma {:induction false} AttemptFindsAllIff(history: Table, t: Table, job: Job, symbols: seq<Symbol>, w: seq<Weather>)
    requires WellKeyed(history) && |w| >= |symbols| && AllUp(w)
    ensures FetchSymbols(history, t, job, symbols, w).error.None?
            <==> forall x :: x in symbols ==> Found(t, job, x) || Found(history, job, x)
    decreases |symbols|
  {
    hide Query, InsertAbsent;
    if symbols != [] {
      var x, rest := symbols[0], symbols[1..];
      assert symbols == [x] + rest;
      var e := Ensure(history, t, job.RequestFor(x), w[0]);
      OnlyOwnSymbolChanges(history, t, job, x, w[0]);
      if e.result.Ok? {
        AttemptFindsAllIff(history, e.table, job, rest, w[1..]);
      }
    }
  }

  /**
    With limiter and provider up, an attempt of the fetch task succeeds if and only if for every
    symbol of the job one-minute bars on its days are stored or offered by the provider.
  */
  lemma AttemptSucceedsIff(history: Table, t: Table, job: Job, w: seq<Weather>)
    requires WellKeyed(history) && WellKeyed(t) && |w| >= |job.symbols| && AllUp(w)
    ensures FetchSymbols(history, t, job, job.symbols, w).error.None?
            <==> forall x :: x in job.symbols ==> HasBars(t, job, x) || HasBars(history, job, x)
  {
    hide FetchSymbols, Found, HasBars;
    AttemptFindsAllIff(history, t, job, job.symbols, w);
    forall x | x in job.symbols
      ensures Found(t, job, x) == HasBars(t, job, x) && Found(history, job, x) == HasBars(history, job, x)
    {
      FoundMeans(t, job, x);
      FoundMeans(history, job, x);
    }
  }

  // The attempt went well up to symbol `k`, whose call raised the error of the attempt.
  ghost predicate StopsAt(history: Table, t: Table, job: Job, symbols: seq<Symbol>, w: seq<Weather>, k: nat)
    requires |w| >= |symbols|
  {
    && k < |symbols|
    && var all, before := FetchSymbols(history, t, job, symbols, w), FetchSymbols(history, t, job, symbols[..k], w);
       var e := Ensure(history, before.table, job.RequestFor(symbols[k]), w[k]);
       && before.error.None? && e.result.Err?
       && all == Fetch(Some(e.result.error), before.table, before.fetches + e.fetches)
  }

  /** A failed attempt stops at the first symbol that fails, with its error, and keeps what it stored before. */
  lemma {:induction false} AttemptStops(history: Table, t: Table, job: Job, symbols: seq<Symbol>, w: seq<Weather>)
    requires |w| >= |symbols| && FetchSymbols(history, t, job, symbols, w).error.Some?
    ensures exists k: nat :: StopsAt(history, t, job, symbols, w, k)
    decreases |symbols|
  {
    hide Ensure, StopsAt;
    var e := Ensure(history, t, job.RequestFor(symbols[0]), w[0]);
    if e.result.Err? {
      StopsAtOnce(history, t, job, symbols, w);
    } else {
      AttemptStops(history, e.table, job, symbols[1..], w[1..]);
      var k: nat :| StopsAt(history, e.table, job, symbols[1..], w[1..], k);
      StopsLater(history, t, job, symbols, w, k);
    }
  }

  lemma StopsAtOnce(history: Table, t: Table, job: Job, symbols: seq<Symbol>, w: seq<Weather>)
    requires |w| >= |symbols| > 0 && Ensure(history, t, job.RequestFor(symbols[0]), w[0]).result.Err?
    ensures StopsAt(history, t, job, symbols, w, 0)
  {
    hide Ensure;
    FailureKeepsTable(history, t, job.RequestFor(symbols[0]), w[0]);
    assert symbols[..0] == [];
  }

  lemma StopsLater(history: Table, t: Table, job: Job, symbols: seq<Symbol>, w: seq<Weather>, k: nat)
    requires |w| >= |symbols| > 0
    requires var e := Ensure(history, t, job.RequestFor(symbols[0]), w[0]);
             e.result.Ok? && StopsAt(history, e.table, job, symbols[1..], w[1..], k)
    ensures StopsAt(history, t, job, symbols, w, k + 1)
  {
    hide Ensure;
    assert symbols[..k + 1][1..] == symbols[1..][..k] && symbols[..k + 1][0] == symbols[0];
    assert w[1..][k] == w[k + 1];
  }

  lemma FailureKeepsTable(history: Table, t: Table, q: Request, w: Weather)
    ensures Ensure(history, t, q, w).result.Err? ==> Ensure(history, t, q, w).table == t
  {
  }

  lemma NothingMissing(t: Table, job: Job)
    ensures Missing(t, job, []) == {}
  {
  }

  lemma HeadFound(t: Table, job: Job, symbols: seq<Symbol>)
    requires symbols != []
    ensures Found(t, job, symbols[0]) && Missing(t, job, symbols[1..]) == {} ==> Missing(t, job, symbols) == {}
  {
  }

  // One symbol of the attempt: what is missing shrinks by what was fetched.
  lemma AttemptStep(history: Table, fetched: set<Request>, t: Table, job: Job, symbols: seq<Symbol>, w: Weather)
    requires WellKeyed(history) && Mirrors(history, fetched, t) && symbols != []
    ensures var q := job.RequestFor(symbols[0]);
            var e := Ensure(history, t, q, w);
            && (e.result.Ok? ==>
                  && Mirrors(history, fetched + (if e.fetches == 1 then {q} else {}), e.table)
                  && |Missing(t, job, symbols)| == e.fetches + |Missing(e.table, job, symbols[1..])|
                  && Found(e.table, job, symbols[0]))
            && (e.result.Err? ==> e.table == t && e.fetches <= |Missing(t, job, symbols)|)
            && forall x :: Found(t, job, x) ==> Found(e.table, job, x)
  {
    hide Query, InsertAbsent, Mirrors, FetchedPart;
    var x, rest := symbols[0], symbols[1..];
    var q := job.RequestFor(x);
    var e := Ensure(history, t, q, w);
    EnsureMeaning(history, fetched, t, q, w);
    OnlyOwnSymbolChanges(history, t, job, x, w);
    assert symbols == [x] + rest;
    assert fetched + {} == fetched;
    if e.fetches == 0 {
      assert e.result.Ok? ==> Missing(t, job, symbols) == Missing(e.table, job, rest);
    } else {
      assert x in Missing(t, job, symbols);
      assert e.result.Ok? ==> Missing(t, job, symbols) == {x} + Missing(e.table, job, rest);
    }
  }

  lemma OnlyOwnSymbolChanges(history: Table, t: Table, job: Job, x: Symbol, w: Weather)
    requires WellKeyed(history)
    ensures var e := Ensure(history, t, job.RequestFor(x), w);
            && (forall y :: y != x ==> (Found(e.table, job, y) <==> Found(t, job, y)))
            && (e.fetches == 0 ==> e.table == t)
            && (e.fetches == 1 ==> !Found(t, job, x)) && e.fetches <= 1
            && (e.fetches == 0 && e.result.Ok? ==> Found(t, job, x))
  {
    hide Query, InsertAbsent;
    var q := job.RequestFor(x);
    QueryIsOrderedRange(history, q);
    forall y | y != x
      ensures Query(InsertAbsent(t, q, Answer(history, q)), job.RequestFor(y)) == Query(t, job.RequestFor(y))
    {
      OtherSymbolUnseenInQuery(t, q, Answer(history, q), job.RequestFor(y));
    }
  }

  lemma OtherSymbolUnseenInQuery(t: Table, q: Request, bars: seq<Bar>, p: Request)
    requires InTimeOrder(bars) && p.symbol != q.symbol
    ensures Query(InsertAbsent(t, q, bars), p) == Query(t, p)
  {
    OtherSymbolUnseen(t, q, bars, p, p.From(), p.To());
  }

  // ------------------------------------------------------------------
  // The chain and the chord
  // ------------------------------------------------------------------

  datatype Pipeline = Pipeline(fetch: JobId, header: seq<(JobId, Symbol)>, callback: JobId)

  // The fetch task first, then one task per symbol, then the callback.
  function BuildPipeline(id: JobId, symbols: seq<Symbol>): (p: Pipeline)
    ensures p.fetch == p.callback == id && |p.header| == |symbols|
    ensures forall k :: 0 <= k < |symbols| ==> p.header[k] == (id, symbols[k])
  {
    Pipeline(id, seq(|symbols|, k requires 0 <= k < |symbols| => (id, symbols[k])), id)
  }

  // ------------------------------------------------------------------
  // The objects
  // ------------------------------------------------------------------

  class BacktestRepository {
    var jobs: Jobs
    var results: seq<Row>

    constructor ()
      ensures jobs == map[] && results == []
    {
      jobs, results := map[], [];
    }

    method CreateBacktestJob(id: JobId, symbols: seq<Symbol>, startDate: int, endDate: int)
      requires id !in jobs
      modifies this
      ensures jobs == old(jobs)[id := NewJob(symbols, startDate, endDate)] && results == old(results)
    {
      jobs := jobs[id := NewJob(symbols, startDate, endDate)];
    }

    method GetBacktestJob(id: JobId) returns (r: Result<Job, JobError>)
      ensures r == if id in jobs then Ok(jobs[id]) else Err(JobNotFound)
    {
      if id !in jobs {
        return Err(JobNotFound);
      }
      return Ok(jobs[id]);
    }

    method UpdateJobStatus(id: JobId, status: Status, error: Option<ErrorText>, now: int)
      returns (r: Result<Job, JobError>)
      modifies this
      ensures results == old(results)
      ensures id in old(jobs) ==>
                jobs == old(jobs)[id := WithStatus(old(jobs)[id], status, error, now)] && r == Ok(jobs[id])
      ensures id !in old(jobs) ==> jobs == old(jobs) && r == Err(JobNotFound)
    {
      if id !in jobs {
        return Err(JobNotFound);
      }
      var job := jobs[id];
      job := job.(status := status);
      job := job.(error := error);
      if status == Running {
        job := job.(startTime := Some(now));
      } else if status == Completed || status == Failed {
        job := job.(endTime := Some(now));
      }
      jobs := jobs[id := job];
      return Ok(job);
    }

    method SaveJobResult(id: JobId, symbol: Symbol, run: nat)
      modifies this
      ensures jobs == old(jobs) && results == old(results) + [Row(id, symbol, run)]
    {
      results := results + [Row(id, symbol, run)];
    }
  }

  class TaskDispatcher {
    var sent: seq<Pipeline>

    constructor ()
      ensures sent == []
    {
      sent := [];
    }

    // Raises when the broker cannot be reached.
    method DispatchBacktest(id: JobId, symbols: seq<Symbol>, brokerUp: bool) returns (r: Result<(), JobError>)
      modifies this
      ensures r == if brokerUp then Ok(()) else Err(BrokerDown)
      ensures sent == if brokerUp then old(sent) + [BuildPipeline(id, symbols)] else old(sent)
    {
      if !brokerUp {
        return Err(BrokerDown);
      }
      sent := sent + [BuildPipeline(id, symbols)];
      return Ok(());
    }
  }

  class BacktestService {
    const repo: BacktestRepository
    const dispatcher: TaskDispatcher

    constructor (repo: BacktestRepository, dispatcher: TaskDispatcher)
      ensures this.repo == repo && this.dispatcher == dispatcher
    {
      this.repo := repo;
      this.dispatcher := dispatcher;
    }

    // The guard refuses a running job and changes nothing; otherwise the job is running
    // before its one pipeline is sent, and stays so when the broker's error is raised.
    method DispatchBacktestJob(id: JobId, now: int, brokerUp: bool) returns (r: Result<(), JobError>)
      modifies repo, dispatcher
      ensures repo.results == old(repo.results)
      ensures id !in old(repo.jobs) ==> r == Err(JobNotFound)
      ensures id in old(repo.jobs) && old(repo.jobs)[id].status == Running ==> r == Err(JobAlreadyRunning)
      ensures r == Err(JobNotFound) || r == Err(JobAlreadyRunning) ==>
                repo.jobs == old(repo.jobs) && dispatcher.sent == old(dispatcher.sent)
      ensures id in old(repo.jobs) && old(repo.jobs)[id].status != Running ==>
                && r == (if brokerUp then Ok(()) else Err(BrokerDown))
                && repo.jobs == old(repo.jobs)[id := WithStatus(old(repo.jobs)[id], Running, None, now)]
                && dispatcher.sent == old(dispatcher.sent)
                     + if brokerUp then [BuildPipeline(id, old(repo.jobs)[id].symbols)] else []
    {
      var job := repo.GetBacktestJob(id);
      if job.Err? {
        return Err(job.error);
      }
      if job.value.status == Running {
        return Err(JobAlreadyRunning);
      }
      var updated := repo.UpdateJobStatus(id, Running, None, now);
      r := dispatcher.DispatchBacktest(id, job.value.symbols, brokerUp);
    }
  }

  class Worker {
    const repo: BacktestRepository
    const market: MarketDataService

    constructor (repo: BacktestRepository, market: MarketDataService)
      ensures this.repo == repo && this.market == market
    {
      this.repo := repo;
      this.market := market;
    }

    // One attempt of the fetch task, with the rest of the system standing still.
    method EnsureMarketDataForJob(ghost history: Table, provider: Request -> seq<Bar>, id: JobId, w: seq<Weather>)
      returns (r: Result<JobId, Option<FetchError>>)
      requires market.limited
      requires forall q :: provider(q) == Answer(history, q)
      requires id in repo.jobs ==> |w| >= |repo.jobs[id].symbols|
      modifies market, market.repo
      ensures id !in repo.jobs ==> r == Err(None) && market.repo.table == old(market.repo.table)
      ensures id in repo.jobs ==>
                var f := FetchSymbols(history, old(market.repo.table), repo.jobs[id], repo.jobs[id].symbols, w);
                && market.repo.table == f.table && market.fetches == old(market.fetches) + f.fetches
                && r == if f.error.None? then Ok(id) else Err(f.error)
    {
      var found := repo.GetBacktestJob(id);
      if found.Err? {
        return Err(None);
      }
      var job := found.value;
      ghost var whole := FetchSymbols(history, market.repo.table, job, job.symbols, w);
      for i := 0 to |job.symbols|
        invariant var rest := FetchSymbols(history, market.repo.table, job, job.symbols[i..], w[i..]);
                  && whole.error == rest.error && whole.table == rest.table
                  && market.fetches + rest.fetches == old(market.fetches) + whole.fetches
      {
        assert job.symbols[i..][1..] == job.symbols[i + 1..] && w[i..][1..] == w[i + 1..];
        var ensured := market.EnsureData(history, provider, job.RequestFor(job.symbols[i]), w[i]);
        if ensured.Err? {
          return Err(Some(ensured.error));
        }
      }
      return Ok(id);
    }

    // The hook that runs when the fetch task has failed for good.
    method OnFetchFailure(id: JobId, cause: string, now: int)
      modifies repo
      ensures repo.results == old(repo.results)
      ensures id !in old(repo.jobs) ==> repo.jobs == old(repo.jobs)
      ensures id in old(repo.jobs) ==>
                repo.jobs == old(repo.jobs)[
                  id := WithStatus(old(repo.jobs)[id], Failed, Some(FetchFailed(cause)), now)]
    {
      var r := repo.UpdateJobStatus(id, Failed, Some(FetchFailed(cause)), now);
    }

    // A symbol task never raises, whatever its strategy makes of the stored bars; it saves
    // one row exactly when it reports success.
    method RunBacktest(id: JobId, symbol: Symbol, strategy: seq<Bar> -> StrategyRun, run: nat)
      returns (r: SymbolResult)
      modifies repo
      ensures repo.jobs == old(repo.jobs)
      ensures id in repo.jobs ==>
                r == SymbolOutcome(market.repo.table, repo.jobs[id], symbol,
                                   strategy(Query(market.repo.table, repo.jobs[id].RequestFor(symbol))))
      ensures id !in repo.jobs ==> r.Broken? && r.CountsAsFailed()
      ensures repo.results == if r.Done? then old(repo.results) + [Row(id, symbol, run)] else old(repo.results)
    {
      var found := repo.GetBacktestJob(id);
      if found.Err? {
        return Broken(symbol, "Backtest job not found");
      }
      var ohlcv := market.repo.GetOhlcvData(found.value.RequestFor(symbol));
      if ohlcv.None? {
        return Broken(symbol, NO_DATA_TEXT);
      }
      var outcome := strategy(ohlcv.value);
      if outcome.Raises? {
        return Broken(symbol, outcome.text);
      }
      repo.SaveJobResult(id, symbol, run);
      return Done(symbol);
    }

    method FinalizeBacktestJob(results: seq<SymbolResult>, id: JobId, now: int)
      modifies repo
      ensures repo.results == old(repo.results)
      ensures repo.jobs == if id in old(repo.jobs)
                           then old(repo.jobs)[id := WithStatus(old(repo.jobs)[id], FinalVerdict(results).status,
                                                                FinalVerdict(results).error, now)]
                           else old(repo.jobs)
    {
      var failed := FailedOnes(results);
      if failed != [] {
        var failedSymbols := SymbolsOf(failed);
        var r := repo.UpdateJobStatus(id, Failed, Some(SymbolsFailed(|failed|, |results|, failedSymbols)), now);
      } else {
        var r := repo.UpdateJobStatus(id, Completed, None, now);
      }
    }
  }
}
