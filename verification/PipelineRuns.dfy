/**
  The job pipeline as a transition system: dispatch, the fetch task with its retries, the
  parallel symbol tasks, and the callback, for any number of jobs and pipelines over one
  store, interleaved step by step.

  Assumed: the guard and the status write of a dispatch are one step; each task is
  delivered once; the chord runs its callback once, after all its header tasks; database
  calls succeed; the provider is a fixed history.
*/
module PipelineRuns {
  import opened Wrappers
  import opened MarketData
  import opened BacktestJobs

  const MAX_RETRIES := 3

  // ------------------------------------------------------------------
  // The fetch task
  // ------------------------------------------------------------------

  // Inside ensure_data for one symbol: about to query, about to fetch after a miss, or
  // about to insert what was delivered.
  datatype Phase = Reading | Missed | Delivered(bars: seq<Bar>)

  // `fetches`, `got` and `failures` are history: provider calls of the task over all its
  // attempts, the symbols it fetched and stored, and the provider calls that came to nothing.
  datatype FetchTask = FetchTask(next: nat, phase: Phase, attempt: nat, fetches: nat, got: set<Symbol>, failures: nat)

  const NEW_TASK := FetchTask(0, Reading, 0, 0, {}, 0)

  datatype FetchEvent = Read | LimiterDown | Call(providerUp: bool) | Insert

  // A task goes on, or it has failed for good.
  datatype FetchNext = Goes(task: FetchTask) | Fails(task: FetchTask)

  // ProviderError and RedisError are retried from the first symbol.
  function Retry(task: FetchTask): FetchNext {
    if task.attempt < MAX_RETRIES then Goes(task.(next := 0, phase := Reading, attempt := task.attempt + 1))
    else Fails(task)
  }

  predicate FetchCan(task: FetchTask, job: Job, e: FetchEvent) {
    && task.next < |job.symbols|
    && match e
       case Read => task.phase.Reading?
       case LimiterDown => task.phase.Missed?
       case Call(_) => task.phase.Missed?
       case Insert => task.phase.Delivered?
  }

  function FetchMoves(history: Table, t: Table, task: FetchTask, job: Job, e: FetchEvent): FetchNext
    requires FetchCan(task, job, e)
  {
    var symbol := job.symbols[task.next];
    var q := job.RequestFor(symbol);
    match e
    case Read =>
      if Query(t, q) != [] then Goes(task.(next := task.next + 1)) else Goes(task.(phase := Missed))
    case LimiterDown => Retry(task)
    case Call(providerUp) =>
      var called := task.(fetches := task.fetches + 1);
      if !providerUp then Retry(called.(failures := called.failures + 1))
      else if Answer(history, q) == [] then Fails(called.(failures := called.failures + 1))
      else Goes(called.(phase := Delivered(Answer(history, q))))
    case Insert => Goes(task.(next := task.next + 1, phase := Reading, got := task.got + {symbol}))
  }

  // ------------------------------------------------------------------
  // The system
  // ------------------------------------------------------------------

  datatype Stage =
    | Fetching
    | Backtesting(results: seq<Option<SymbolResult>>)
    | FetchLost(cause: string)                    // ended by the failure hook
    | Finalized(outcome: seq<SymbolResult>)       // ended by the callback

  // `task` keeps the figures of the fetch task; `writes` is history: what this pipeline has
  // written to its job.
  datatype Run = Run(job: JobId, stage: Stage, task: FetchTask, writes: seq<Verdict>) {
    predicate Live() { stage.Fetching? || stage.Backtesting? }
  }

  datatype State = State(clock: int, jobs: Jobs, table: Table, fetched: set<Request>, rows: seq<Row>, runs: seq<Run>)

  datatype Step =
    | Tick(millis: nat)
    | Create(id: JobId, symbols: seq<Symbol>, startDate: int, endDate: int)
    | Dispatch(id: JobId, brokerUp: bool)
    | FetchStep(r: nat, e: FetchEvent, cause: string)
    | FetchReturns(r: nat)
    | SymbolTask(r: nat, k: nat, strategy: StrategyRun)
    | Finalize(r: nat)
    | OtherInsert(q: Request)    // a symbol-scoped fetch stores its answer

  const START := State(0, map[], map[], {}, [], [])

  ghost predicate LiveRun(s: State, r: nat) {
    r < |s.runs| && s.runs[r].Live() && s.runs[r].job in s.jobs
  }

  function JobOf(s: State, r: nat): Job
    requires r < |s.runs| && s.runs[r].job in s.jobs
  {
    s.jobs[s.runs[r].job]
  }

  ghost predicate Enabled(s: State, step: Step) {
    match step
    case Tick(_) => true
    case Create(id, symbols, startDate, endDate) => id !in s.jobs && symbols != [] && startDate <= endDate
    case Dispatch(id, _) => true
    case FetchStep(r, e, _) =>
      LiveRun(s, r) && s.runs[r].stage.Fetching? && FetchCan(s.runs[r].task, JobOf(s, r), e)
    case FetchReturns(r) =>
      LiveRun(s, r) && s.runs[r].stage.Fetching? && s.runs[r].task.next == |JobOf(s, r).symbols|
    case SymbolTask(r, k, _) =>
      && LiveRun(s, r) && s.runs[r].stage.Backtesting?
      && k < |s.runs[r].stage.results| && k < |JobOf(s, r).symbols| && s.runs[r].stage.results[k].None?
    case Finalize(r) =>
      && LiveRun(s, r) && s.runs[r].stage.Backtesting?
      && forall k :: 0 <= k < |s.runs[r].stage.results| ==> s.runs[r].stage.results[k].Some?
    case OtherInsert(_) => true
  }

  function Values(results: seq<Option<SymbolResult>>): seq<SymbolResult>
    requires forall k :: 0 <= k < |results| ==> results[k].Some?
  {
    seq(|results|, k requires 0 <= k < |results| => results[k].value)
  }

  // Setting a job's status.
  function Write(s: State, id: JobId, v: Verdict): State
    requires id in s.jobs
  {
    s.(jobs := s.jobs[id := WithStatus(s.jobs[id], v.status, v.error, s.clock)])
  }

  // A pipeline's last step: it writes the verdict and is over.
  function End(s: State, r: nat, stage: Stage, task: FetchTask, v: Verdict): State
    requires r < |s.runs| && s.runs[r].job in s.jobs
  {
    var run := s.runs[r];
    Write(s, run.job, v).(runs := s.runs[r := run.(stage := stage, task := task, writes := run.writes + [v])])
  }

  function FetchApplied(history: Table, s: State, r: nat, e: FetchEvent, cause: string): State
    requires r < |s.runs| && s.runs[r].job in s.jobs && FetchCan(s.runs[r].task, JobOf(s, r), e)
  {
    var run, job := s.runs[r], JobOf(s, r);
    match FetchMoves(history, s.table, run.task, job, e)
    case Fails(task) => End(s, r, FetchLost(cause), task, Verdict(Failed, Some(FetchFailed(cause))))
    case Goes(task) =>
      var moved := s.(runs := s.runs[r := run.(task := task)]);
      if e.Insert? then
        var q := job.RequestFor(job.symbols[run.task.next]);
        moved.(table := InsertAbsent(s.table, q, run.task.phase.bars), fetched := s.fetched + {q})
      else moved
  }

  ghost function Apply(history: Table, s: State, step: Step): State
    requires Enabled(s, step)
  {
    match step
    case Tick(millis) => s.(clock := s.clock + millis)
    case Create(id, symbols, startDate, endDate) =>
      s.(jobs := s.jobs[id := NewJob(symbols, startDate, endDate)])
    case Dispatch(id, brokerUp) =>
      if id !in s.jobs || s.jobs[id].status == Running then s
      else Write(s, id, Verdict(Running, None)).(
             runs := s.runs + if brokerUp then [Run(id, Fetching, NEW_TASK, [])] else [])
    case FetchStep(r, e, cause) => FetchApplied(history, s, r, e, cause)
    case FetchReturns(r) =>
      var header := BuildPipeline(s.runs[r].job, JobOf(s, r).symbols).header;
      s.(runs := s.runs[r := s.runs[r].(stage := Backtesting(seq(|header|, k => None)))])
    case SymbolTask(r, k, strategy) =>
      var run, job := s.runs[r], JobOf(s, r);
      var result := SymbolOutcome(s.table, job, job.symbols[k], strategy);
      s.(runs := s.runs[r := run.(stage := Backtesting(run.stage.results[k := Some(result)]))],
         rows := if result.Done? then s.rows + [Row(run.job, job.symbols[k], r)] else s.rows)
    case Finalize(r) =>
      var outcome := Values(s.runs[r].stage.results);
      End(s, r, Finalized(outcome), s.runs[r].task, FinalVerdict(outcome))
    case OtherInsert(q) =>
      s.(table := InsertAbsent(s.table, q, Answer(history, q)), fetched := s.fetched + {q})
  }

  ghost predicate IsRun(history: Table, s: State, steps: seq<Step>)
    decreases |steps|, 0
  {
    steps == [] ||
    var init := steps[..|steps| - 1];
    IsRun(history, s, init) && Enabled(After(history, s, init), steps[|steps| - 1])
  }

  ghost function After(history: Table, s: State, steps: seq<Step>): State
    requires IsRun(history, s, steps)
    decreases |steps|, 1
  {
    if steps == [] then s
    else Apply(history, After(history, s, steps[..|steps| - 1]), steps[|steps| - 1])
  }

  ghost predicate Reaches(history: Table, steps: seq<Step>, s: State) {
    IsRun(history, START, steps) && After(history, START, steps) == s
  }

  ghost predicate Reachable(history: Table, s: State) { exists steps :: Reaches(history, steps, s) }

  // ------------------------------------------------------------------
  // Invariants
  // ------------------------------------------------------------------

  // The error is set exactly when the job failed, and the times are in order.
  ghost predicate JobInv(clock: int, job: Job) {
    && job.symbols != []
    && (job.status == Created ==> job.startTime.None? && job.endTime.None?)
    && (job.error.Some? <==> job.status == Failed)
    && (job.startTime.Some? ==> job.startTime.value <= clock)
    && (job.endTime.Some? ==> job.endTime.value <= clock)
    && (job.status == Running ==>
          job.startTime.Some? && (job.endTime.Some? ==> job.endTime.value <= job.startTime.value))
    && (job.status == Completed || job.status == Failed ==>
          job.startTime.Some? && job.endTime.Some? && job.startTime.value <= job.endTime.value)
  }

  // Each provider call of the task was stored, came to nothing, or is about to be stored;
  // an attempt has at most one that came to nothing.
  ghost predicate TaskInv(history: Table, t: Table, job: Job, live: bool, task: FetchTask) {
    && task.attempt <= MAX_RETRIES && task.next <= |job.symbols|
    && task.fetches == |task.got| + task.failures + (if task.phase.Delivered? then 1 else 0)
    && task.failures <= task.attempt + (if live then 0 else 1)
    && (forall x :: x in task.got ==> x in job.symbols && Query(t, job.RequestFor(x)) != [])
    && (forall k :: 0 <= k < task.next ==> Query(t, job.RequestFor(job.symbols[k])) != [])
    && (!task.phase.Reading? ==> task.next < |job.symbols| && job.symbols[task.next] !in task.got)
    && (task.phase.Delivered? ==>
          task.phase.bars == Answer(history, job.RequestFor(job.symbols[task.next])) && task.phase.bars != [])
    && (task.failures > MAX_RETRIES ==> task.phase.Missed?)
  }

  // A pipeline that is alive is the running job's; one that has ended wrote one verdict.
  ghost predicate RunInv(history: Table, s: State, r: nat)
    requires r < |s.runs|
  {
    var run := s.runs[r];
    && run.job in s.jobs
    && (run.Live() ==> JobOf(s, r).status == Running && run.writes == [])
    && TaskInv(history, s.table, JobOf(s, r), run.Live(), run.task)
    && match run.stage
       case Fetching => SavedBy(s.rows, r) == multiset{}
       case Backtesting(results) =>
         && run.task.next == |JobOf(s, r).symbols| && run.task.phase.Reading?
         && |results| == |JobOf(s, r).symbols|
         && (forall k :: 0 <= k < |results| && results[k].Some? ==> results[k].value.symbol == JobOf(s, r).symbols[k])
         && SavedBy(s.rows, r) == DoneIn(results)
       case FetchLost(cause) =>
         run.writes == [Verdict(Failed, Some(FetchFailed(cause)))] && SavedBy(s.rows, r) == multiset{}
       case Finalized(outcome) =>
         && run.task.next == |JobOf(s, r).symbols| && run.task.phase.Reading?
         && run.writes == [FinalVerdict(outcome)]
         && SymbolsOf(outcome) == JobOf(s, r).symbols
         && SavedBy(s.rows, r) == Succeeded(outcome)
  }

  // The symbols of the rows one pipeline has saved.
  function SavedBy(rows: seq<Row>, r: nat): multiset<Symbol> {
    if rows == [] then multiset{}
    else
      var last := rows[|rows| - 1];
      SavedBy(rows[..|rows| - 1], r) + if last.run == r then multiset{last.symbol} else multiset{}
  }

  // The symbols of the finished tasks that succeeded.
  function DoneIn(results: seq<Option<SymbolResult>>): multiset<Symbol> {
    if results == [] then multiset{}
    else
      DoneIn(results[1..])
      + if results[0].Some? && results[0].value.Done? then multiset{results[0].value.symbol} else multiset{}
  }

  // The last pipeline dispatched for its job.
  ghost predicate Newest(s: State, r: nat)
    requires r < |s.runs|
  {
    forall x :: r < x < |s.runs| ==> s.runs[x].job != s.runs[r].job
  }

  ghost predicate LiveIsNewest(s: State) {
    forall r :: 0 <= r < |s.runs| && s.runs[r].Live() ==> Newest(s, r)
  }

  ghost predicate RowsTagged(s: State) {
    forall k :: 0 <= k < |s.rows| ==> s.rows[k].run < |s.runs| && s.rows[k].job == s.runs[s.rows[k].run].job
  }

  ghost predicate Inv(history: Table, s: State) {
    && (forall id :: id in s.jobs ==> JobInv(s.clock, s.jobs[id]))
    && Mirrors(history, s.fetched, s.table)
    && LiveIsNewest(s)
    && RowsTagged(s)
    && (forall r :: 0 <= r < |s.runs| ==> RunInv(history, s, r))
  }

  // ------------------------------------------------------------------
  // Lemmas about the store
  // ------------------------------------------------------------------

  // Whatever could be found in `t` can be found in `u`.
  ghost predicate Richer(t: Table, u: Table) {
    forall q: Request :: Query(t, q) != [] ==> Query(u, q) != []
  }

  lemma InsertEnriches(history: Table, fetched: set<Request>, t: Table, q: Request)
    requires WellKeyed(history) && Mirrors(history, fetched, t)
    ensures Mirrors(history, fetched + {q}, InsertAbsent(t, q, Answer(history, q)))
    ensures Richer(t, InsertAbsent(t, q, Answer(history, q)))
    ensures Query(InsertAbsent(t, q, Answer(history, q)), q) == Answer(history, q)
  {
    var u := InsertAbsent(t, q, Answer(history, q));
    InsertExtendsMirror(history, fetched, t, q);
    ScanOfMirror(history, fetched + {q}, u, q, q.From(), q.To());
    OwnRangeIsFetched(history, fetched + {q}, q);
    QueryIsOrderedRange(history, q);
    InsertAdds(t, q, Answer(history, q));
    forall p: Request | Query(t, p) != [] ensures Query(u, p) != [] {
      FoundStays(t, u, p);
    }
  }

  lemma FoundStays(t: Table, u: Table, p: Request)
    requires WellKeyed(t) && WellKeyed(u) && Query(t, p) != []
    requires forall k :: k in t ==> k in u && u[k] == t[k]
    ensures Query(u, p) != []
  {
    QueryIsOrderedRange(t, p);
    QueryIsOrderedRange(u, p);
    var b := Query(t, p)[0];
    assert b in Query(t, p);
    assert b in Query(u, p);
  }

  // ------------------------------------------------------------------
  // Lemmas about one fetch task
  // ------------------------------------------------------------------

  lemma TaskInvGrows(history: Table, t: Table, u: Table, job: Job, j: Job, live: bool, task: FetchTask)
    requires TaskInv(history, t, job, live, task) && Richer(t, u)
    requires SameWork(job, j)
    ensures TaskInv(history, u, j, live, task)
  {
  }

  // The table after an event of a task.
  function TableAfter(t: Table, task: FetchTask, job: Job, e: FetchEvent): Table
    requires FetchCan(task, job, e)
  {
    if e.Insert? then InsertAbsent(t, job.RequestFor(job.symbols[task.next]), task.phase.bars) else t
  }

  lemma FetchMovesInv(history: Table, fetched: set<Request>, t: Table, task: FetchTask, job: Job, e: FetchEvent)
    requires WellKeyed(history) && Mirrors(history, fetched, t)
    requires TaskInv(history, t, job, true, task) && FetchCan(task, job, e)
    ensures var m := FetchMoves(history, t, task, job, e);
            && TaskInv(history, TableAfter(t, task, job, e), job, m.Goes?, m.task)
            && (m.Fails? ==> TableAfter(t, task, job, e) == t)
  {
    hide Query, InsertAbsent, Mirrors, TaskInv, FetchMoves;
    if e.Insert? {
      InsertMoveInv(history, fetched, t, task, job);
    } else {
      OtherMoveInv(history, t, task, job, e);
    }
  }

  lemma InsertMoveInv(history: Table, fetched: set<Request>, t: Table, task: FetchTask, job: Job)
    requires WellKeyed(history) && Mirrors(history, fetched, t)
    requires TaskInv(history, t, job, true, task) && FetchCan(task, job, Insert)
    ensures var m := FetchMoves(history, t, task, job, Insert);
            m.Goes? && TaskInv(history, TableAfter(t, task, job, Insert), job, true, m.task)
  {
    hide Query, InsertAbsent, Mirrors;
    var q := job.RequestFor(job.symbols[task.next]);
    InsertEnriches(history, fetched, t, q);
    TaskInvGrows(history, t, TableAfter(t, task, job, Insert), job, job, true, task);
  }

  lemma OtherMoveInv(history: Table, t: Table, task: FetchTask, job: Job, e: FetchEvent)
    requires TaskInv(history, t, job, true, task) && FetchCan(task, job, e) && !e.Insert?
    ensures var m := FetchMoves(history, t, task, job, e);
            TaskInv(history, t, job, m.Goes?, m.task)
  {
  }

  // The steps of one symbol, taken one after the other.
  function SymbolSteps(history: Table, t: Table, task: FetchTask, job: Job, w: Weather): (FetchNext, Table)
    requires FetchCan(task, job, Read)
  {
    var read := FetchMoves(history, t, task, job, Read);
    if read.task.phase.Reading? then (read, t)
    else if !w.limiterUp then (FetchMoves(history, t, read.task, job, LimiterDown), t)
    else
      var called := FetchMoves(history, t, read.task, job, Call(w.providerUp));
      if called.Fails? || !called.task.phase.Delivered? then (called, t)
      else (FetchMoves(history, t, called.task, job, Insert), TableAfter(t, called.task, job, Insert))
  }

  /**
    Without interference the steps of one symbol are one call of ensure_data: same table,
    same number of provider calls, the next symbol on success; a retry from the first
    symbol, while retries are left, on a Redis or provider error; and the end of the task
    on missing data.
  */
  lemma StepsAreEnsure(history: Table, t: Table, task: FetchTask, job: Job, w: Weather)
    requires FetchCan(task, job, Read)
    ensures var e := Ensure(history, t, job.RequestFor(job.symbols[task.next]), w);
            var (after, u) := SymbolSteps(history, t, task, job, w);
            && u == e.table && after.task.fetches == task.fetches + e.fetches
            && (e.result.Ok? ==> after.Goes? && after.task.next == task.next + 1 && after.task.phase.Reading?)
            && (e.result.Err? && e.result.error != NoData ==>
                  if task.attempt < 3
                  then after.Goes? && after.task.next == 0 && after.task.attempt == task.attempt + 1
                  else after.Fails?)
            && (e.result == Err(NoData) ==> after.Fails?)
  {
    hide Query, InsertAbsent;
  }

  function SymbolSet(symbols: seq<Symbol>): set<Symbol> { set x | x in symbols }

  // Over all its attempts a task calls the provider at most once per distinct symbol, and
  // three times more.
  lemma TaskBudget(history: Table, t: Table, job: Job, live: bool, task: FetchTask)
    requires TaskInv(history, t, job, live, task)
    ensures task.fetches <= |SymbolSet(job.symbols)| + MAX_RETRIES
  {
    var all := SymbolSet(job.symbols);
    assert task.got <= all;
    SubsetSize(task.got, all);
    if task.phase.Delivered? || task.failures > MAX_RETRIES {
      var x := job.symbols[task.next];
      assert task.got + {x} <= all;
      SubsetSize(task.got + {x}, all);
    }
  }

  lemma {:induction false} SubsetSize<T>(a: set<T>, b: set<T>)
    requires a <= b
    ensures |a| <= |b|
    decreases a
  {
    if a != {} {
      var x :| x in a;
      SubsetSize(a - {x}, b - {x});
    }
  }

  // ------------------------------------------------------------------
  // Lemmas about rows and results
  // ------------------------------------------------------------------

  lemma SavedByAppend(rows: seq<Row>, row: Row, r: nat)
    ensures SavedBy(rows + [row], r) == SavedBy(rows, r) + if row.run == r then multiset{row.symbol} else multiset{}
  {
  }

  lemma {:induction false} SavedByNobody(rows: seq<Row>, r: nat)
    requires forall k :: 0 <= k < |rows| ==> rows[k].run != r
    ensures SavedBy(rows, r) == multiset{}
    decreases |rows|
  {
    if rows != [] {
      SavedByNobody(rows[..|rows| - 1], r);
    }
  }

  lemma {:induction false} DoneInFresh(results: seq<Option<SymbolResult>>)
    requires forall k :: 0 <= k < |results| ==> results[k].None?
    ensures DoneIn(results) == multiset{}
    decreases |results|
  {
    if results != [] {
      DoneInFresh(results[1..]);
    }
  }

  lemma {:induction false} DoneInUpdate(results: seq<Option<SymbolResult>>, k: nat, v: SymbolResult)
    requires k < |results| && results[k].None?
    ensures DoneIn(results[k := Some(v)]) == DoneIn(results) + if v.Done? then multiset{v.symbol} else multiset{}
    decreases |results|
  {
    var updated := results[k := Some(v)];
    if k == 0 {
      assert updated[1..] == results[1..];
    } else {
      DoneInUpdate(results[1..], k - 1, v);
      assert updated[1..] == results[1..][k - 1 := Some(v)];
    }
  }

  lemma {:induction false} DoneInAll(results: seq<Option<SymbolResult>>)
    requires forall k :: 0 <= k < |results| ==> results[k].Some?
    ensures DoneIn(results) == Succeeded(Values(results))
    decreases |results|
  {
    if results != [] {
      DoneInAll(results[1..]);
      assert Values(results)[1..] == Values(results[1..]);
    }
  }

  lemma SymbolsInOrder(results: seq<SymbolResult>)
    ensures forall k :: 0 <= k < |results| ==> SymbolsOf(results)[k] == results[k].symbol
  {
    forall k | 0 <= k < |results| ensures SymbolsOf(results)[k] == results[k].symbol {
      SymbolsOfAt(results, k);
    }
  }

  // ------------------------------------------------------------------
  // The invariant holds in every reachable state
  // ------------------------------------------------------------------

  // A job's symbols and dates never change.
  predicate SameWork(a: Job, b: Job) {
    a.symbols == b.symbols && a.startDate == b.startDate && a.endDate == b.endDate
  }

  // What a step must leave alone for the runs it does not move.
  ghost predicate Spares(s: State, t: State, r: nat)
    requires r < |s.runs|
  {
    && r < |t.runs| && t.runs[r] == s.runs[r]
    && s.runs[r].job in s.jobs && s.runs[r].job in t.jobs
    && SameWork(s.jobs[s.runs[r].job], t.jobs[s.runs[r].job])
    && (s.runs[r].Live() ==> t.jobs[s.runs[r].job].status == s.jobs[s.runs[r].job].status)
    && SavedBy(t.rows, r) == SavedBy(s.rows, r)
  }

  lemma SparedRunInv(history: Table, s: State, t: State, r: nat)
    requires r < |s.runs| && RunInv(history, s, r) && Spares(s, t, r) && Richer(s.table, t.table)
    ensures RunInv(history, t, r)
  {
    hide Query, SavedBy, TaskInv;
    TaskInvGrows(history, s.table, t.table, JobOf(s, r), JobOf(t, r), s.runs[r].Live(), s.runs[r].task);
  }

  lemma TickInv(history: Table, s: State, millis: nat)
    requires Inv(history, s)
    ensures Inv(history, s.(clock := s.clock + millis))
  {
    var t := s.(clock := s.clock + millis);
    forall r | 0 <= r < |t.runs| ensures RunInv(history, t, r) {
      SparedRunInv(history, s, t, r);
    }
  }

  lemma CreateInv(history: Table, s: State, step: Step)
    requires Inv(history, s) && step.Create? && Enabled(s, step)
    ensures Inv(history, Apply(history, s, step))
  {
    var t := Apply(history, s, step);
    forall r | 0 <= r < |t.runs| ensures RunInv(history, t, r) {
      assert RunInv(history, s, r);
      SparedRunInv(history, s, t, r);
    }
  }

  lemma OtherInsertInv(history: Table, s: State, q: Request)
    requires WellKeyed(history) && Inv(history, s)
    ensures Inv(history, Apply(history, s, OtherInsert(q)))
  {
    hide InsertAbsent, Query, Mirrors;
    var t := Apply(history, s, OtherInsert(q));
    InsertEnriches(history, s.fetched, s.table, q);
    forall r | 0 <= r < |t.runs| ensures RunInv(history, t, r) {
      assert RunInv(history, s, r);
      SparedRunInv(history, s, t, r);
    }
  }

  lemma DispatchInv(history: Table, s: State, id: JobId, brokerUp: bool)
    requires Inv(history, s)
    ensures Inv(history, Apply(history, s, Dispatch(id, brokerUp)))
  {
    hide Query, Mirrors, TaskInv, SavedBy, DoneIn, FinalVerdict, Succeeded, SymbolsOf;
    var t, n := Apply(history, s, Dispatch(id, brokerUp)), |s.runs|;
    if id in s.jobs && s.jobs[id].status != Running {
      forall r | 0 <= r < n ensures (s.runs[r].Live() ==> s.runs[r].job != id) && RunInv(history, t, r) {
        assert RunInv(history, s, r);
        SparedRunInv(history, s, t, r);
      }
      if brokerUp {
        NewRunInv(history, t, n, id, s.rows);
      }
    }
  }

  lemma NewRunInv(history: Table, t: State, n: nat, id: JobId, rows: seq<Row>)
    requires |t.runs| == n + 1 && t.runs[n] == Run(id, Fetching, NEW_TASK, []) && t.rows == rows
    requires id in t.jobs && t.jobs[id].status == Running
    requires forall k :: 0 <= k < |rows| ==> rows[k].run < n
    ensures RunInv(history, t, n)
  {
    hide Query, SavedBy;
    SavedByNobody(rows, n);
    assert TaskInv(history, t.table, t.jobs[id], true, NEW_TASK);
  }

  // Ending a pipeline writes its job's status, which no other live pipeline shares.
  lemma EndSparesOthers(history: Table, s: State, r: nat, stage: Stage, task: FetchTask, v: Verdict)
    requires Inv(history, s) && LiveRun(s, r)
    requires v.status == Completed || v.status == Failed
    requires v.error.Some? <==> v.status == Failed
    requires !stage.Fetching? && !stage.Backtesting?
    ensures var t := End(s, r, stage, task, v);
            && (forall id :: id in t.jobs ==> JobInv(t.clock, t.jobs[id]))
            && LiveIsNewest(t) && RowsTagged(t)
            && forall x :: 0 <= x < |s.runs| && x != r ==> RunInv(history, t, x)
  {
    hide TaskInv, SavedBy, Query;
    var t := End(s, r, stage, task, v);
    assert RunInv(history, s, r);
    forall x | 0 <= x < |s.runs| && x != r ensures RunInv(history, t, x) {
      assert RunInv(history, s, x);
      assert s.runs[x].Live() ==> s.runs[x].job != s.runs[r].job by {
        assert Newest(s, r) && (s.runs[x].Live() ==> Newest(s, x));
      }
      SparedRunInv(history, s, t, x);
    }
  }

  lemma FetchStepInv(history: Table, s: State, r: nat, e: FetchEvent, cause: string)
    requires WellKeyed(history) && Inv(history, s) && Enabled(s, FetchStep(r, e, cause))
    ensures Inv(history, FetchApplied(history, s, r, e, cause))
  {
    hide Query, InsertAbsent, Mirrors, TaskInv, SavedBy, FetchMoves;
    var run, job := s.runs[r], JobOf(s, r);
    var t := FetchApplied(history, s, r, e, cause);
    assert RunInv(history, s, r);
    FetchMovesInv(history, s.fetched, s.table, run.task, job, e);
    var m := FetchMoves(history, s.table, run.task, job, e);
    if m.Fails? {
      var v := Verdict(Failed, Some(FetchFailed(cause)));
      EndSparesOthers(history, s, r, FetchLost(cause), m.task, v);
      TaskInvGrows(history, s.table, t.table, job, JobOf(t, r), false, m.task);
      assert RunInv(history, t, r);
    } else {
      FetchGoesInv(history, s, r, e, cause);
    }
  }

  lemma FetchGoesInv(history: Table, s: State, r: nat, e: FetchEvent, cause: string)
    requires WellKeyed(history) && Inv(history, s) && Enabled(s, FetchStep(r, e, cause))
    requires FetchMoves(history, s.table, s.runs[r].task, JobOf(s, r), e).Goes?
    ensures Inv(history, FetchApplied(history, s, r, e, cause))
  {
    hide Query, InsertAbsent, Mirrors, SavedBy, FetchMoves, DoneIn, FinalVerdict, Succeeded, SymbolsOf;
    var run, job := s.runs[r], JobOf(s, r);
    var t := FetchApplied(history, s, r, e, cause);
    assert RunInv(history, s, r);
    FetchMovesInv(history, s.fetched, s.table, run.task, job, e);
    if e.Insert? {
      InsertEnriches(history, s.fetched, s.table, job.RequestFor(job.symbols[run.task.next]));
    }
    assert Mirrors(history, t.fetched, t.table) && Richer(s.table, t.table);
    forall x | 0 <= x < |s.runs| && x != r ensures RunInv(history, t, x) {
      assert RunInv(history, s, x);
      SparedRunInv(history, s, t, x);
    }
    assert RunInv(history, t, r);
  }

  lemma FetchReturnsInv(history: Table, s: State, r: nat)
    requires Inv(history, s) && Enabled(s, FetchReturns(r))
    ensures Inv(history, Apply(history, s, FetchReturns(r)))
  {
    hide Query, Mirrors, SavedBy;
    var t := Apply(history, s, FetchReturns(r));
    assert RunInv(history, s, r);
    DoneInFresh(t.runs[r].stage.results);
    forall x | 0 <= x < |s.runs| && x != r ensures RunInv(history, t, x) {
      assert RunInv(history, s, x);
      SparedRunInv(history, s, t, x);
    }
    assert RunInv(history, t, r);
  }

  lemma SymbolTaskInv(history: Table, s: State, r: nat, k: nat, strategy: StrategyRun)
    requires Inv(history, s) && Enabled(s, SymbolTask(r, k, strategy))
    ensures Inv(history, Apply(history, s, SymbolTask(r, k, strategy)))
  {
    hide Query, Mirrors, SavedBy, TaskInv, DoneIn, SymbolOutcome;
    var t, job := Apply(history, s, SymbolTask(r, k, strategy)), JobOf(s, r);
    assert RunInv(history, s, r);
    var row := Row(s.runs[r].job, job.symbols[k], r);
    forall x | 0 <= x < |s.runs| && x != r ensures RunInv(history, t, x) {
      assert RunInv(history, s, x);
      SavedByAppend(s.rows, row, x);
      SparedRunInv(history, s, t, x);
    }
    MovedSymbolTask(history, s, r, k, strategy);
  }

  // The pipeline whose symbol task has returned.
  lemma MovedSymbolTask(history: Table, s: State, r: nat, k: nat, strategy: StrategyRun)
    requires r < |s.runs| && RunInv(history, s, r) && Enabled(s, SymbolTask(r, k, strategy))
    ensures RunInv(history, Apply(history, s, SymbolTask(r, k, strategy)), r)
  {
    hide Query, SavedBy, TaskInv, DoneIn;
    var job := JobOf(s, r);
    var result := SymbolOutcome(s.table, job, job.symbols[k], strategy);
    assert result.symbol == job.symbols[k];
    DoneInUpdate(s.runs[r].stage.results, k, result);
    SavedByAppend(s.rows, Row(s.runs[r].job, job.symbols[k], r), r);
  }

  lemma FinalizeInv(history: Table, s: State, r: nat)
    requires Inv(history, s) && Enabled(s, Finalize(r))
    ensures Inv(history, Apply(history, s, Finalize(r)))
  {
    hide Query, Mirrors, SavedBy, TaskInv, DoneIn, FailedOnes, SymbolsOf, Succeeded;
    var run, job := s.runs[r], JobOf(s, r);
    var outcome := Values(run.stage.results);
    var t := Apply(history, s, Finalize(r));
    assert RunInv(history, s, r);
    EndSparesOthers(history, s, r, Finalized(outcome), run.task, FinalVerdict(outcome));
    DoneInAll(run.stage.results);
    SymbolsInOrder(outcome);
    assert SymbolsOf(outcome) == job.symbols;
    EndedTask(history, s.table, job, JobOf(t, r), run.task);
    assert RunInv(history, t, r);
  }

  lemma EndedTask(history: Table, t: Table, job: Job, j: Job, task: FetchTask)
    requires TaskInv(history, t, job, true, task)
    requires SameWork(job, j)
    ensures TaskInv(history, t, j, false, task)
  {
  }

  lemma StepInv(history: Table, s: State, step: Step)
    requires WellKeyed(history) && Inv(history, s) && Enabled(s, step)
    ensures Inv(history, Apply(history, s, step))
  {
    hide Inv;
    match step
    case Tick(millis) => TickInv(history, s, millis);
    case Create(_, _, _, _) => CreateInv(history, s, step);
    case Dispatch(id, brokerUp) => DispatchInv(history, s, id, brokerUp);
    case FetchStep(r, e, cause) => FetchStepInv(history, s, r, e, cause);
    case FetchReturns(r) => FetchReturnsInv(history, s, r);
    case SymbolTask(r, k, strategy) => SymbolTaskInv(history, s, r, k, strategy);
    case Finalize(r) => FinalizeInv(history, s, r);
    case OtherInsert(q) => OtherInsertInv(history, s, q);
  }

  lemma {:induction false} RunsInv(history: Table, s: State, steps: seq<Step>)
    requires WellKeyed(history) && Inv(history, s) && IsRun(history, s, steps)
    ensures Inv(history, After(history, s, steps))
    decreases |steps|
  {
    hide Inv;
    if steps != [] {
      var init := steps[..|steps| - 1];
      RunsInv(history, s, init);
      StepInv(history, After(history, s, init), steps[|steps| - 1]);
    }
  }

  lemma ReachableInv(history: Table, s: State)
    requires WellKeyed(history) && Reachable(history, s)
    ensures Inv(history, s)
  {
    var steps :| Reaches(history, steps, s);
    RunsInv(history, START, steps);
  }

  lemma StartInv(history: Table)
    ensures Inv(history, START)
  {
  }
}
