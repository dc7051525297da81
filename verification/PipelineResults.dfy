/**
  What the job pipeline promises in every reachable state and over every run: safety, the
  job record, the fetch budget, the store, conservation of rows, the end of every pipeline,
  and dispatches whose broker is down.
*/
module PipelineResults {
  import opened Wrappers
  import opened MarketData
  import opened BacktestJobs
  import opened PipelineRuns

  // ------------------------------------------------------------------
  // What the pipeline promises
  // ------------------------------------------------------------------

  /**
    Pipeline safety in every reachable state: a live pipeline's job is RUNNING and has no
    other live pipeline and no later one; a live pipeline has written nothing; and one that
    has ended wrote exactly one verdict, FAILED with its cause by the hook or the verdict on
    its results by the callback.
  */
  lemma PipelineSafety(history: Table, s: State, r: nat)
    requires WellKeyed(history) && Reachable(history, s) && r < |s.runs|
    ensures s.runs[r].job in s.jobs
    ensures s.runs[r].Live() ==>
              && JobOf(s, r).status == Running && s.runs[r].writes == [] && Newest(s, r)
              && forall x :: 0 <= x < |s.runs| && s.runs[x].Live() && s.runs[x].job == s.runs[r].job ==> x == r
    ensures s.runs[r].stage.FetchLost? ==>
              s.runs[r].writes == [Verdict(Failed, Some(FetchFailed(s.runs[r].stage.cause)))]
    ensures s.runs[r].stage.Finalized? ==> s.runs[r].writes == [FinalVerdict(s.runs[r].stage.outcome)]
  {
    ReachableInv(history, s);
    assert RunInv(history, s, r);
    if s.runs[r].Live() {
      forall x | 0 <= x < |s.runs| && s.runs[x].Live() && s.runs[x].job == s.runs[r].job ensures x == r {
        assert Newest(s, r) && Newest(s, x);
      }
    }
  }

  predicate Over(job: Job) { job.status == Completed || job.status == Failed }

  function Recorded(job: Job): Verdict { Verdict(job.status, job.error) }

  // The job's last pipeline has ended, and the record is what it wrote.
  ghost predicate WrittenBy(s: State, id: JobId, r: nat) {
    && r < |s.runs| && s.runs[r].job == id && id in s.jobs
    && !s.runs[r].Live() && Newest(s, r) && s.runs[r].writes == [Recorded(s.jobs[id])]
  }

  ghost predicate RecordTrue(s: State, id: JobId) {
    id in s.jobs && Over(s.jobs[id]) ==> exists r :: WrittenBy(s, id, r)
  }

  // Only a dispatch or the end of a live pipeline changes a job's status.
  lemma RecordStep(history: Table, s: State, step: Step, id: JobId)
    requires WellKeyed(history) && Inv(history, s) && Enabled(s, step) && RecordTrue(s, id)
    ensures RecordTrue(Apply(history, s, step), id)
  {
    hide InsertAbsent, Query, FetchMoves, SymbolOutcome, TaskInv, Mirrors, FinalVerdict, SavedBy, DoneIn;
    var t := Apply(history, s, step);
    if id in t.jobs && Over(t.jobs[id]) {
      if id in s.jobs && t.jobs[id] == s.jobs[id] {
        var r :| WrittenBy(s, id, r);
        RecordStays(history, s, step, id, r);
      } else {
        EndRecords(history, s, step, id);
      }
    }
  }

  lemma RecordStays(history: Table, s: State, step: Step, id: JobId, r: nat)
    requires Inv(history, s) && Enabled(s, step) && WrittenBy(s, id, r)
    requires id in Apply(history, s, step).jobs && Apply(history, s, step).jobs[id] == s.jobs[id] && Over(s.jobs[id])
    ensures WrittenBy(Apply(history, s, step), id, r)
  {
    hide Apply, Enabled;
    var t := Apply(history, s, step);
    EndedRunStays(history, s, step, r);
    forall x | r < x < |t.runs| ensures t.runs[x].job != id {
      RunKeepsJob(history, s, step, id, x);
    }
  }

  // A pipeline that has ended never moves again.
  lemma EndedRunStays(history: Table, s: State, step: Step, r: nat)
    requires Enabled(s, step) && r < |s.runs| && !s.runs[r].Live()
    ensures r < |Apply(history, s, step).runs| && Apply(history, s, step).runs[r] == s.runs[r]
  {
    hide InsertAbsent, Query, FetchMoves, SymbolOutcome, FinalVerdict;
  }

  // A pipeline keeps its job, and a new one is for a job that its dispatch made RUNNING.
  lemma RunKeepsJob(history: Table, s: State, step: Step, id: JobId, x: nat)
    requires Enabled(s, step) && x < |Apply(history, s, step).runs|
    requires id in s.jobs && id in Apply(history, s, step).jobs && Apply(history, s, step).jobs[id].status != Running
    ensures if x < |s.runs| then Apply(history, s, step).runs[x].job == s.runs[x].job
            else Apply(history, s, step).runs[x].job != id
  {
    hide InsertAbsent, Query, FetchMoves, SymbolOutcome, FinalVerdict;
  }

  lemma EndRecords(history: Table, s: State, step: Step, id: JobId)
    requires Inv(history, s) && Enabled(s, step)
    requires id in Apply(history, s, step).jobs && Over(Apply(history, s, step).jobs[id])
    requires id in s.jobs ==> Apply(history, s, step).jobs[id] != s.jobs[id]
    ensures exists r :: WrittenBy(Apply(history, s, step), id, r)
  {
    hide InsertAbsent, Query, FetchMoves, SymbolOutcome, TaskInv, Mirrors, FinalVerdict, SavedBy, DoneIn;
    var t := Apply(history, s, step);
    assert step.FetchStep? || step.Finalize?;
    var r := step.r;
    assert RunInv(history, s, r) && Newest(s, r);
    assert WrittenBy(t, id, r);
  }

  lemma {:induction false} RecordRun(history: Table, steps: seq<Step>, id: JobId)
    requires WellKeyed(history) && IsRun(history, START, steps)
    ensures RecordTrue(After(history, START, steps), id)
    decreases |steps|
  {
    hide RecordTrue, Inv;
    if steps == [] {
      assert RecordTrue(START, id) by { StartRecordTrue(id); }
    } else {
      var init := steps[..|steps| - 1];
      RecordRun(history, init, id);
      StartInv(history);
      RunsInv(history, START, init);
      RecordStep(history, After(history, START, init), steps[|steps| - 1], id);
    }
  }

  lemma StartRecordTrue(id: JobId)
    ensures RecordTrue(START, id)
  {
  }

  /**
    What a user reads is what happened: in every reachable state the record of a COMPLETED or
    FAILED job carries the status and the error that its last pipeline wrote, and that
    pipeline has ended: FAILED with the cause by the hook, or the callback's verdict on the
    results.
  */
  lemma RecordIsLastVerdict(history: Table, s: State, id: JobId)
    requires WellKeyed(history) && Reachable(history, s) && id in s.jobs && Over(s.jobs[id])
    ensures exists r: nat ::
              && WrittenBy(s, id, r)
              && match s.runs[r].stage
                 case FetchLost(cause) => Recorded(s.jobs[id]) == Verdict(Failed, Some(FetchFailed(cause)))
                 case Finalized(outcome) => Recorded(s.jobs[id]) == FinalVerdict(outcome)
                 case _ => false
  {
    var steps :| Reaches(history, steps, s);
    RecordRun(history, steps, id);
    var r :| WrittenBy(s, id, r);
    PipelineSafety(history, s, r);
  }

  /**
    In every reachable state, re-dispatch included: the error is set exactly when the job has
    failed; a job that is over started no later than it ended, neither in the future; and an
    end time that a re-dispatched RUNNING job still carries is a stale one, no later than its
    new start.
  */
  lemma JobRecordsAreConsistent(history: Table, s: State, id: JobId)
    requires WellKeyed(history) && Reachable(history, s) && id in s.jobs
    ensures var job := s.jobs[id];
            && (job.error.Some? <==> job.status == Failed)
            && (job.status == Created ==> job.startTime.None? && job.endTime.None?)
            && (job.status == Running ==>
                  job.startTime.Some? && job.startTime.value <= s.clock
                  && (job.endTime.Some? ==> job.endTime.value <= job.startTime.value))
            && (job.status == Completed || job.status == Failed ==>
                  job.startTime.Some? && job.endTime.Some?
                  && job.startTime.value <= job.endTime.value <= s.clock)
  {
    ReachableInv(history, s);
    assert JobInv(s.clock, s.jobs[id]);
  }

  /**
    Every write of a record is stamped with the clock of the step that makes it: a dispatch sets
    RUNNING, clears the error and stamps the start; the end of a pipeline sets COMPLETED or
    FAILED and stamps the end; and each leaves the other time and the work of the job alone.
  */
  lemma WritesAreStamped(history: Table, s: State, step: Step, id: JobId)
    requires Enabled(s, step) && id in s.jobs && Apply(history, s, step).jobs[id] != s.jobs[id]
    ensures var before, after := s.jobs[id], Apply(history, s, step).jobs[id];
            && after.symbols == before.symbols && after.startDate == before.startDate && after.endDate == before.endDate
            && if step.Dispatch? then
                 && step.id == id && before.status != Running && after.status == Running && after.error.None?
                 && after.startTime == Some(s.clock) && after.endTime == before.endTime
               else
                 && (step.FetchStep? || step.Finalize?) && s.runs[step.r].job == id && Over(after)
                 && after.endTime == Some(s.clock) && after.startTime == before.startTime
  {
    hide InsertAbsent, Query, FetchMoves, SymbolOutcome, FailedOnes, SymbolsOf;
  }

  ghost predicate OrderedAt(steps: seq<Step>, id: JobId, job: Job, i: nat) {
    i < |steps| && steps[i] == Create(id, job.symbols, job.startDate, job.endDate)
  }

  /** A job always has the symbols and days it was ordered with, whatever has been written since. */
  lemma {:induction false} WorkIsAsOrdered(history: Table, steps: seq<Step>, id: JobId)
    requires IsRun(history, START, steps) && id in After(history, START, steps).jobs
    ensures exists i: nat :: OrderedAt(steps, id, After(history, START, steps).jobs[id], i)
    decreases |steps|
  {
    hide Apply, Enabled;
    if steps != [] {
      var init, last := steps[..|steps| - 1], steps[|steps| - 1];
      var s := After(history, START, init);
      if id in s.jobs {
        WorkIsKept(history, s, last, id);
        WorkIsAsOrdered(history, init, id);
        var i: nat :| OrderedAt(init, id, s.jobs[id], i);
        assert OrderedAt(steps, id, After(history, START, steps).jobs[id], i);
      } else {
        NewJobIsAsOrdered(history, s, last, id);
        assert OrderedAt(steps, id, After(history, START, steps).jobs[id], |steps| - 1);
      }
    }
  }

  lemma WorkIsKept(history: Table, s: State, step: Step, id: JobId)
    requires Enabled(s, step) && id in s.jobs
    ensures id in Apply(history, s, step).jobs && SameWork(Apply(history, s, step).jobs[id], s.jobs[id])
  {
    hide InsertAbsent, Query, FetchMoves, SymbolOutcome, FinalVerdict;
  }

  lemma NewJobIsAsOrdered(history: Table, s: State, step: Step, id: JobId)
    requires Enabled(s, step) && id !in s.jobs && id in Apply(history, s, step).jobs
    ensures var job := Apply(history, s, step).jobs[id];
            step == Create(id, job.symbols, job.startDate, job.endDate) && job.status == Created
  {
    hide InsertAbsent, Query, FetchMoves, SymbolOutcome, FinalVerdict;
  }

  /**
    Fetch budget, with every other job and fetch interleaved: over its at most four attempts
    a job's fetch task calls the provider at most once per distinct symbol and three times
    more.
  */
  lemma FetchBudget(history: Table, s: State, r: nat)
    requires WellKeyed(history) && Reachable(history, s) && r < |s.runs|
    ensures s.runs[r].job in s.jobs
    ensures s.runs[r].task.attempt <= 3
    ensures s.runs[r].task.fetches <= |SymbolSet(JobOf(s, r).symbols)| + 3
  {
    ReachableInv(history, s);
    assert RunInv(history, s, r);
    TaskBudget(history, s.table, JobOf(s, r), s.runs[r].Live(), s.runs[r].task);
  }

  /**
    The store, whatever races: the table always holds exactly the provider's bars restricted
    to the ranges fetched so far, so two runs that fetched the same ranges hold the same
    table.
  */
  lemma StoreMirrorsProvider(history: Table, s: State, t: State)
    requires WellKeyed(history) && Reachable(history, s) && Reachable(history, t)
    ensures Mirrors(history, s.fetched, s.table)
    ensures s.fetched == t.fetched ==> s.table == t.table
  {
    hide RunInv, JobInv;
    ReachableInv(history, s);
    ReachableInv(history, t);
    if s.fetched == t.fetched {
      MirrorIsUnique(history, s.fetched, s.table, t.table);
    }
  }

  /**
    What a job reads, in every continuation of every run: always the fetched part of the
    provider's answer, so it can still grow; but once a request itself has been fetched, the
    full answer, for ever.
  */
  lemma FetchedRangeIsFinal(history: Table, s: State, steps: seq<Step>, q: Request)
    requires WellKeyed(history) && Reachable(history, s) && IsRun(history, s, steps)
    ensures var t := After(history, s, steps);
            && s.fetched <= t.fetched
            && Query(t.table, q) == FetchedPart(t.fetched, q, Answer(history, q))
            && (q in s.fetched ==> Query(t.table, q) == Answer(history, q))
  {
    hide Query, FetchedPart, RunInv, JobInv, Reachable, After, Mirrors;
    var t := After(history, s, steps);
    ReachableInv(history, s);
    RunsInv(history, s, steps);
    FetchedOnlyGrows(history, s, steps);
    QueryOfMirror(history, t.fetched, t.table, q);
    if q in t.fetched {
      OwnRangeIsFetched(history, t.fetched, q);
    }
  }

  lemma {:induction false} FetchedOnlyGrows(history: Table, s: State, steps: seq<Step>)
    requires IsRun(history, s, steps)
    ensures s.fetched <= After(history, s, steps).fetched
    decreases |steps|
  {
    hide Query, InsertAbsent, FetchMoves, SymbolOutcome, FinalVerdict;
    if steps != [] {
      FetchedOnlyGrows(history, s, steps[..|steps| - 1]);
    }
  }

  lemma QueryOfMirror(history: Table, fetched: set<Request>, t: Table, q: Request)
    requires WellKeyed(history) && Mirrors(history, fetched, t)
    ensures Query(t, q) == FetchedPart(fetched, q, Answer(history, q))
  {
    ScanOfMirror(history, fetched, t, q, q.From(), q.To());
  }

  /** After a successful fetch stage no symbol task fails for want of market data. */
  lemma FetchedSymbolsHaveData(history: Table, s: State, r: nat, k: nat, strategy: StrategyRun)
    requires WellKeyed(history) && Reachable(history, s) && Enabled(s, SymbolTask(r, k, strategy))
    ensures var symbol := JobOf(s, r).symbols[k];
            && Query(s.table, JobOf(s, r).RequestFor(symbol)) != []
            && SymbolOutcome(s.table, JobOf(s, r), symbol, strategy)
               == if strategy.Raises? then Broken(symbol, strategy.text) else Done(symbol)
  {
    ReachableInv(history, s);
    assert RunInv(history, s, r);
  }

  /**
    One task per symbol: in every reachable state the symbol tasks of a pipeline are those of
    the header it was dispatched with, and whatever order they run in, slot k holds the result
    of symbol k, so the callback gets exactly one result for each symbol of the job, in order.
  */
  lemma OneTaskPerSymbol(history: Table, s: State, r: nat)
    requires WellKeyed(history) && Reachable(history, s) && r < |s.runs|
    ensures s.runs[r].job in s.jobs
    ensures var header := BuildPipeline(s.runs[r].job, JobOf(s, r).symbols).header;
            match s.runs[r].stage
            case Backtesting(results) =>
              && |results| == |header|
              && forall k :: 0 <= k < |results| && results[k].Some? ==>
                   (s.runs[r].job, results[k].value.symbol) == header[k]
            case Finalized(outcome) =>
              && |outcome| == |header|
              && forall k :: 0 <= k < |outcome| ==> (s.runs[r].job, outcome[k].symbol) == header[k]
            case _ => true
  {
    hide TaskInv, SavedBy, DoneIn, FinalVerdict, Succeeded;
    ReachableInv(history, s);
    assert RunInv(history, s, r);
    if s.runs[r].stage.Finalized? {
      SymbolsInOrder(s.runs[r].stage.outcome);
    }
  }

  // A verdict against the rows saved for it: COMPLETED for all symbols, or FAILED k of n with
  // k symbols without a row, and it names these.
  ghost predicate Accounts(v: Verdict, symbols: seq<Symbol>, saved: multiset<Symbol>) {
    && (v.status == Completed <==> saved == multiset(symbols))
    && (v.status == Completed ==> v.error.None?)
    && (v.status != Completed ==>
          && v.status == Failed && v.error.Some? && v.error.value.SymbolsFailed?
          && v.error.value.total == |symbols| && v.error.value.failed + |saved| == |symbols|
          && multiset(v.error.value.symbols) + saved == multiset(symbols))
  }

  /**
    Conservation, in every order of the symbol tasks: when a pipeline has been finalized and
    its errors have texts, it wrote COMPLETED exactly when the rows it saved are the job's
    symbols, as multisets; otherwise FAILED with k of n, where n is the number of symbols, k
    plus the number of its rows is n, and the symbols named are those without a row.  The job's
    record says the same of its last pipeline.
  */
  lemma RowsAreConserved(history: Table, s: State, r: nat)
    requires WellKeyed(history) && Reachable(history, s)
    requires r < |s.runs| && s.runs[r].stage.Finalized? && ErrorsHaveText(s.runs[r].stage.outcome)
    ensures s.runs[r].job in s.jobs && |s.runs[r].writes| == 1
    ensures Accounts(s.runs[r].writes[0], JobOf(s, r).symbols, SavedBy(s.rows, r))
    ensures Newest(s, r) && Over(JobOf(s, r)) ==>
              Accounts(Recorded(JobOf(s, r)), JobOf(s, r).symbols, SavedBy(s.rows, r))
  {
    hide TaskInv, SavedBy, Succeeded, SymbolsOf, FailedOnes, DoneIn;
    ReachableInv(history, s);
    assert RunInv(history, s, r);
    VerdictCounts(s.runs[r].stage.outcome);
    LastWroteTheRecord(history, s, r);
  }

  // A job has one last pipeline.
  lemma LastWroteTheRecord(history: Table, s: State, r: nat)
    requires WellKeyed(history) && Reachable(history, s)
    requires r < |s.runs| && s.runs[r].job in s.jobs
    ensures Newest(s, r) && Over(JobOf(s, r)) ==> s.runs[r].writes == [Recorded(JobOf(s, r))]
  {
    if Newest(s, r) && Over(JobOf(s, r)) {
      var steps :| Reaches(history, steps, s);
      RecordRun(history, steps, s.runs[r].job);
      var last :| WrittenBy(s, s.runs[r].job, last);
      assert last == r;
    }
  }

  /**
    With errors of any text, the COMPLETED of a finalized pipeline, and of the record it left
    last, stands for a full set of rows exactly when no task failed or some failed task left
    a non-empty text.
  */
  lemma CompletedIsFullIff(history: Table, s: State, r: nat)
    requires WellKeyed(history) && Reachable(history, s)
    requires r < |s.runs| && s.runs[r].stage.Finalized?
    ensures s.runs[r].job in s.jobs && |s.runs[r].writes| == 1
    ensures Newest(s, r) && Over(JobOf(s, r)) ==> s.runs[r].writes[0] == Recorded(JobOf(s, r))
    ensures var outcome := s.runs[r].stage.outcome;
            (s.runs[r].writes[0].status == Completed <==> SavedBy(s.rows, r) == multiset(JobOf(s, r).symbols))
            <==> (forall x :: x in outcome ==> x.Done?) || (exists x :: x in outcome && x.CountsAsFailed())
  {
    hide TaskInv, SavedBy, Succeeded, SymbolsOf, DoneIn;
    ReachableInv(history, s);
    assert RunInv(history, s, r);
    LastWroteTheRecord(history, s, r);
    VerdictIsTrueIff(s.runs[r].stage.outcome);
    AllSucceededIff(s.runs[r].stage.outcome);
  }

  // ------------------------------------------------------------------
  // Every pipeline ends
  // ------------------------------------------------------------------

  // The steps of one pipeline.
  predicate OwnStep(step: Step, r: nat) {
    match step
    case FetchStep(x, _, _) => x == r
    case FetchReturns(x) => x == r
    case SymbolTask(x, _, _) => x == r
    case Finalize(x) => x == r
    case _ => false
  }

  function Own(steps: seq<Step>, r: nat): (count: nat)
    ensures count <= |steps|
  {
    if steps == [] then 0
    else Own(steps[..|steps| - 1], r) + if OwnStep(steps[|steps| - 1], r) then 1 else 0
  }

  function Open(results: seq<Option<SymbolResult>>): (open: nat)
    ensures open <= |results|
  {
    if results == [] then 0 else Open(results[1..]) + if results[0].None? then 1 else 0
  }

  lemma {:induction false} OpenUpdate(results: seq<Option<SymbolResult>>, k: nat, v: SymbolResult)
    requires k < |results| && results[k].None?
    ensures Open(results[k := Some(v)]) == Open(results) - 1
    decreases |results|
  {
    var updated := results[k := Some(v)];
    if k == 0 {
      assert updated[1..] == results[1..];
    } else {
      OpenUpdate(results[1..], k - 1, v);
      assert updated[1..] == results[1..][k - 1 := Some(v)];
    }
  }

  function PhaseLeft(phase: Phase): nat {
    match phase case Reading => 2 case Missed => 1 case Delivered(_) => 0
  }

  // A bound on the steps a fetch task of `n` symbols has left: a retry starts over, a symbol
  // takes three steps.
  function FetchLeft(n: nat, task: FetchTask): int {
    (MAX_RETRIES - task.attempt) * (3 * n + 3) + 3 * (n - task.next) + PhaseLeft(task.phase)
  }

  // And a pipeline: after the fetch one step to return, one for each symbol, and one to end.
  function StepsLeft(n: nat, run: Run): int {
    match run.stage
    case Fetching => FetchLeft(n, run.task) + n + 2
    case Backtesting(results) => Open(results) + 1
    case _ => 0
  }

  lemma FetchMoveLowers(history: Table, t: Table, task: FetchTask, job: Job, e: FetchEvent)
    requires FetchCan(task, job, e) && FetchMoves(history, t, task, job, e).Goes?
    ensures FetchLeft(|job.symbols|, FetchMoves(history, t, task, job, e).task) < FetchLeft(|job.symbols|, task)
  {
    hide Query;
    var n := |job.symbols|;
    assert (MAX_RETRIES - task.attempt) * (3 * n + 3)
           == (MAX_RETRIES - (task.attempt + 1)) * (3 * n + 3) + (3 * n + 3);
  }

  lemma FetchLeftIsNat(n: nat, task: FetchTask)
    requires task.attempt <= MAX_RETRIES && task.next <= n
    ensures FetchLeft(n, task) >= 0
  {
    assert (MAX_RETRIES - task.attempt) * (3 * n + 3) >= 0;
  }

  lemma StepsLeftIsNat(history: Table, s: State, r: nat)
    requires Inv(history, s) && r < |s.runs| && s.runs[r].job in s.jobs
    ensures StepsLeft(|JobOf(s, r).symbols|, s.runs[r]) >= 0
    ensures s.runs[r].Live() ==> StepsLeft(|JobOf(s, r).symbols|, s.runs[r]) > 0
  {
    hide FetchLeft;
    assert RunInv(history, s, r);
    FetchLeftIsNat(|JobOf(s, r).symbols|, s.runs[r].task);
  }

  // Whoever moves, the pipeline keeps its job, and the job its symbols.
  lemma StepKeepsWork(history: Table, s: State, step: Step, r: nat)
    requires Enabled(s, step) && r < |s.runs| && s.runs[r].job in s.jobs
    ensures var t := Apply(history, s, step);
            && r < |t.runs| && t.runs[r].job == s.runs[r].job && t.runs[r].job in t.jobs
            && JobOf(t, r).symbols == JobOf(s, r).symbols
            && (!OwnStep(step, r) ==> t.runs[r] == s.runs[r])
  {
    hide InsertAbsent, Query, FetchMoves, SymbolOutcome, FinalVerdict;
  }

  // Its own steps bring a pipeline nearer to its end.
  lemma OwnStepLowers(history: Table, s: State, step: Step, r: nat)
    requires Inv(history, s) && Enabled(s, step) && OwnStep(step, r)
    ensures var t := Apply(history, s, step);
            && r < |s.runs| && s.runs[r].job in s.jobs && r < |t.runs|
            && StepsLeft(|JobOf(s, r).symbols|, t.runs[r]) < StepsLeft(|JobOf(s, r).symbols|, s.runs[r])
  {
    hide InsertAbsent, Query, FetchMoves, SymbolOutcome, FinalVerdict, FetchLeft, SavedBy, DoneIn, Mirrors;
    assert RunInv(history, s, r);
    var n := |JobOf(s, r).symbols|;
    FetchLeftIsNat(n, s.runs[r].task);
    match step
    case FetchStep(_, e, _) =>
      if FetchMoves(history, s.table, s.runs[r].task, JobOf(s, r), e).Goes? {
        FetchMoveLowers(history, s.table, s.runs[r].task, JobOf(s, r), e);
      }
    case SymbolTask(_, k, strategy) =>
      OpenUpdate(s.runs[r].stage.results, k, SymbolOutcome(s.table, JobOf(s, r), JobOf(s, r).symbols[k], strategy));
    case _ =>
  }

  // A pipeline that has not been dispatched takes no step.
  lemma {:induction false} NoStepBefore(history: Table, steps: seq<Step>, r: nat)
    requires IsRun(history, START, steps) && |After(history, START, steps).runs| <= r
    ensures Own(steps, r) == 0
    decreases |steps|
  {
    hide InsertAbsent, Query, FetchMoves, SymbolOutcome, FinalVerdict;
    if steps != [] {
      NoStepBefore(history, steps[..|steps| - 1], r);
    }
  }

  /**
    Every pipeline ends: whatever is interleaved, the steps it has taken and the bound on the
    steps it has left never exceed 13 n + 13 for a job of n symbols, and as long as it is
    alive that bound is positive and it has a step of its own to take.
  */
  lemma {:induction false} PipelineEnds(history: Table, steps: seq<Step>, r: nat)
    requires WellKeyed(history) && IsRun(history, START, steps) && r < |After(history, START, steps).runs|
    ensures var s := After(history, START, steps);
            && s.runs[r].job in s.jobs
            && var left := StepsLeft(|JobOf(s, r).symbols|, s.runs[r]);
               && left >= 0 && Own(steps, r) + left <= 13 * |JobOf(s, r).symbols| + 13
               && (s.runs[r].Live() ==> left > 0 && exists step :: OwnStep(step, r) && Enabled(s, step))
    decreases |steps|
  {
    hide Inv, StepsLeft, OwnStep, Enabled, Apply;
    var s := After(history, START, steps);
    StartInv(history);
    RunsInv(history, START, steps);
    if steps != [] {
      var init, step := steps[..|steps| - 1], steps[|steps| - 1];
      RunsInv(history, START, init);
      if r < |After(history, START, init).runs| {
        PipelineEnds(history, init, r);
        StepKeepsWork(history, After(history, START, init), step, r);
        if OwnStep(step, r) {
          OwnStepLowers(history, After(history, START, init), step, r);
        }
      } else {
        NoStepBefore(history, init, r);
        NewPipeline(history, After(history, START, init), step, r);
      }
      RunJobKnown(history, s, r);
      StepsLeftIsNat(history, s, r);
      if s.runs[r].Live() {
        LiveCanMove(history, s, r);
      }
    }
  }

  lemma RunJobKnown(history: Table, s: State, r: nat)
    requires Inv(history, s) && r < |s.runs|
    ensures s.runs[r].job in s.jobs
  {
    assert RunInv(history, s, r);
  }

  lemma NewPipeline(history: Table, s: State, step: Step, r: nat)
    requires Enabled(s, step) && |s.runs| <= r < |Apply(history, s, step).runs|
    ensures var t := Apply(history, s, step);
            && t.runs[r].job in t.jobs && !OwnStep(step, r)
            && StepsLeft(|JobOf(t, r).symbols|, t.runs[r]) == 13 * |JobOf(t, r).symbols| + 13
  {
    hide InsertAbsent, Query, FetchMoves, SymbolOutcome, FinalVerdict;
  }

  // A live pipeline always has a step of its own.
  lemma LiveCanMove(history: Table, s: State, r: nat)
    requires Inv(history, s) && r < |s.runs| && s.runs[r].Live()
    ensures exists step :: OwnStep(step, r) && Enabled(s, step)
  {
    hide Query, SavedBy, DoneIn, Mirrors;
    assert RunInv(history, s, r);
    var run := s.runs[r];
    if run.stage.Fetching? {
      if run.task.next == |JobOf(s, r).symbols| {
        assert Enabled(s, FetchReturns(r)) && OwnStep(FetchReturns(r), r);
      } else {
        var e := match run.task.phase case Reading => Read case Missed => LimiterDown case Delivered(_) => Insert;
        assert Enabled(s, FetchStep(r, e, "")) && OwnStep(FetchStep(r, e, ""), r);
      }
    } else if k :| 0 <= k < |run.stage.results| && run.stage.results[k].None? {
      assert Enabled(s, SymbolTask(r, k, Succeeds)) && OwnStep(SymbolTask(r, k, Succeeds), r);
    } else {
      assert Enabled(s, Finalize(r)) && OwnStep(Finalize(r), r);
    }
  }

  // ------------------------------------------------------------------
  // A dispatch whose broker is down
  // ------------------------------------------------------------------

  // The job says it runs, and nothing runs for it.
  ghost predicate Stranded(s: State, id: JobId) {
    && id in s.jobs && s.jobs[id].status == Running
    && forall r :: 0 <= r < |s.runs| && s.runs[r].Live() ==> s.runs[r].job != id
  }

  // The status is written before the pipeline is sent, so a dispatch that cannot reach the
  // broker strands its job.
  lemma LostDispatchStrands(history: Table, s: State, id: JobId)
    requires WellKeyed(history) && Reachable(history, s)
    requires id in s.jobs && s.jobs[id].status != Running
    ensures Stranded(Apply(history, s, Dispatch(id, false)), id)
    ensures !Stranded(Apply(history, s, Dispatch(id, true)), id)
  {
    ReachableInv(history, s);
    forall r | 0 <= r < |s.runs| ensures s.runs[r].Live() ==> s.runs[r].job != id {
      assert RunInv(history, s, r);
    }
    var t := Apply(history, s, Dispatch(id, true));
    assert t.runs[|s.runs|].Live() && t.runs[|s.runs|].job == id;
  }

  lemma StrandedStep(history: Table, s: State, step: Step, id: JobId)
    requires Stranded(s, id) && Enabled(s, step)
    ensures Stranded(Apply(history, s, step), id)
    ensures Apply(history, s, step).jobs[id] == s.jobs[id]
  {
    hide InsertAbsent, Query, FetchMoves, FinalVerdict, SymbolOutcome;
    match step
    case Dispatch(other, _) => assert other == id ==> Apply(history, s, step) == s;
    case FetchStep(r, e, cause) => assert s.runs[r].job != id;
    case Finalize(r) => assert s.runs[r].job != id;
    case _ =>
  }

  /** A stranded job stays as it is for ever: the guard refuses every later dispatch. */
  lemma {:induction false} StrandedForEver(history: Table, s: State, steps: seq<Step>, id: JobId)
    requires Stranded(s, id) && IsRun(history, s, steps)
    ensures Stranded(After(history, s, steps), id) && After(history, s, steps).jobs[id] == s.jobs[id]
    decreases |steps|
  {
    hide Stranded;
    if steps != [] {
      var init := steps[..|steps| - 1];
      StrandedForEver(history, s, init, id);
      StrandedStep(history, After(history, s, init), steps[|steps| - 1], id);
    }
  }

  // A step that ends a pipeline takes its job out of RUNNING.
  lemma EndedJobIsOver(history: Table, s: State, step: Step, r: nat)
    requires Enabled(s, step) && LiveRun(s, r)
    ensures var t := Apply(history, s, step);
            && r < |t.runs| && t.runs[r].job == s.runs[r].job && t.runs[r].job in t.jobs
            && (!t.runs[r].Live() ==> t.jobs[t.runs[r].job].status != Running)
  {
  }

  // Only a lost dispatch strands a job.
  lemma StrandsIff(history: Table, s: State, step: Step, id: JobId)
    requires Inv(history, s) && Enabled(s, step) && !Stranded(s, id)
    ensures Stranded(Apply(history, s, step), id)
            <==> step == Dispatch(id, false) && id in s.jobs && s.jobs[id].status != Running
  {
    hide InsertAbsent, Query, FetchMoves, SymbolOutcome, TaskInv, Mirrors, FinalVerdict, SavedBy, DoneIn;
    var t := Apply(history, s, step);
    if id in s.jobs && s.jobs[id].status == Running {
      var r :| 0 <= r < |s.runs| && s.runs[r].Live() && s.runs[r].job == id;
      EndedJobIsOver(history, s, step, r);
    } else if id in s.jobs && step.Dispatch? && step.id == id {
      if step.brokerUp {
        assert t.runs[|s.runs|].Live() && t.runs[|s.runs|].job == id;
      } else {
        forall r | 0 <= r < |s.runs| ensures s.runs[r].Live() ==> s.runs[r].job != id {
          assert RunInv(history, s, r);
        }
        assert step == Dispatch(id, false) && t.runs == s.runs;
      }
    } else {
      StaysIdle(history, s, step, id);
    }
  }

  // Only its own dispatch makes a job RUNNING.
  lemma StaysIdle(history: Table, s: State, step: Step, id: JobId)
    requires Inv(history, s) && Enabled(s, step)
    requires id in s.jobs ==> s.jobs[id].status != Running && !(step.Dispatch? && step.id == id)
    ensures var t := Apply(history, s, step);
            id in t.jobs ==> t.jobs[id].status != Running
  {
    hide InsertAbsent, Query, FetchMoves, SymbolOutcome, TaskInv, Mirrors, SavedBy, DoneIn, RunInv;
  }

  // Step `i` dispatches the job, known and not RUNNING, and does not reach the broker.
  ghost predicate LosesDispatch(history: Table, steps: seq<Step>, id: JobId, i: nat) {
    && i < |steps| && steps[i] == Dispatch(id, false) && IsRun(history, START, steps[..i])
    && var s := After(history, START, steps[..i]);
       id in s.jobs && s.jobs[id].status != Running
  }

  /**
    Job by job, exactly when a RUNNING job has no pipeline: a job is stranded after a run if
    and only if some dispatch of that very job, known and not RUNNING at the time, failed to
    reach the broker.  Refused dispatches and those of other jobs do no harm.
  */
  lemma {:induction false} StrandedIff(history: Table, steps: seq<Step>, id: JobId)
    requires WellKeyed(history) && IsRun(history, START, steps)
    ensures Stranded(After(history, START, steps), id) <==> exists i :: LosesDispatch(history, steps, id, i)
    decreases |steps|
  {
    hide Stranded, Inv, Enabled, Apply;
    if steps == [] {
      assert !Stranded(START, id) by { StartStrandsNobody(id); }
    } else {
      var init, last := steps[..|steps| - 1], |steps| - 1;
      var s := After(history, START, init);
      StrandedIff(history, init, id);
      StartInv(history);
      RunsInv(history, START, init);
      forall i: nat | i < last ensures LosesDispatch(history, steps, id, i) <==> LosesDispatch(history, init, id, i) {
        assert steps[..i] == init[..i];
      }
      if Stranded(s, id) {
        StrandedStep(history, s, steps[last], id);
        var i :| LosesDispatch(history, init, id, i);
        assert LosesDispatch(history, steps, id, i);
      } else {
        StrandsIff(history, s, steps[last], id);
        assert LosesDispatch(history, steps, id, last)
               <==> steps[last] == Dispatch(id, false) && id in s.jobs && s.jobs[id].status != Running;
      }
    }
  }

  lemma StartStrandsNobody(id: JobId)
    ensures !Stranded(START, id)
  {
  }

  /**
    So a RUNNING job has a live pipeline exactly as long as no dispatch of it was lost; in
    particular while the broker is never down.
  */
  lemma RunningIsBeingRun(history: Table, steps: seq<Step>, id: JobId)
    requires WellKeyed(history) && IsRun(history, START, steps)
    requires id in After(history, START, steps).jobs && After(history, START, steps).jobs[id].status == Running
    ensures var s := After(history, START, steps);
            (exists r :: 0 <= r < |s.runs| && s.runs[r].Live() && s.runs[r].job == id)
            <==> forall i :: !LosesDispatch(history, steps, id, i)
    ensures BrokerNeverDown(steps) ==> forall i :: !LosesDispatch(history, steps, id, i)
  {
    hide LosesDispatch, Inv, Apply, Enabled;
    StrandedIff(history, steps, id);
    if BrokerNeverDown(steps) {
      forall i: nat ensures !LosesDispatch(history, steps, id, i) {
        UpBrokerLosesNothing(history, steps, id, i);
      }
    }
  }

  ghost predicate BrokerNeverDown(steps: seq<Step>) {
    forall i :: 0 <= i < |steps| && steps[i].Dispatch? ==> steps[i].brokerUp
  }

  lemma UpBrokerLosesNothing(history: Table, steps: seq<Step>, id: JobId, i: nat)
    requires BrokerNeverDown(steps)
    ensures !LosesDispatch(history, steps, id, i)
  {
  }
}
