/**
  The cross-process sliding-window limiter of infrastructure/redis_rate_limiter.py.

  The Lua script is one atomic step on a sorted set with a key TTL.  Any number of
  callers run it through the retry loop of `acquire`; the loop is modelled as a
  transition system over its program points, because its steps interleave with the
  steps of the other callers, with the passing of time and with key expiry.
*/
module RedisRateLimiter {
  import opened Wrappers

  type Caller = nat
  type Member = nat

  datatype Config = Config(maxRequests: nat, windowSeconds: nat, failOpen: bool) {
    // What the constructor accepts.
    predicate Valid() { maxRequests >= 1 && windowSeconds >= 1 }

    function WindowMs(): nat { windowSeconds * 1000 }
  }

  // Largest jitter added to a sleep, in microseconds.
  const MAX_JITTER: nat := 250_000

  // ------------------------------------------------------------------
  // The sorted set and the script
  // ------------------------------------------------------------------

  datatype Entry = Entry(score: nat, member: Member)

  // A sorted set in ascending score order.  The script never observes the order of
  // equal scores.
  type SortedSet = seq<Entry>

  datatype Key = Key(entries: SortedSet, expireAt: Option<nat>)

  ghost predicate Ascending(z: SortedSet) {
    forall i, j :: 0 <= i < j < |z| ==> z[i].score <= z[j].score
  }

  // TIME gives seconds and microseconds; the script folds them into milliseconds.
  function NowMs(clock: nat): nat {
    clock / 1_000_000 * 1000 + clock % 1_000_000 / 1000
  }

  // ZREMRANGEBYSCORE
  function RemoveRangeByScore(z: SortedSet, lo: int, hi: int): SortedSet {
    if z == [] then []
    else if lo <= z[0].score <= hi then RemoveRangeByScore(z[1..], lo, hi)
    else [z[0]] + RemoveRangeByScore(z[1..], lo, hi)
  }

  function RemoveMember(z: SortedSet, member: Member): SortedSet {
    if z == [] then []
    else if z[0].member == member then RemoveMember(z[1..], member)
    else [z[0]] + RemoveMember(z[1..], member)
  }

  function Insert(z: SortedSet, e: Entry): SortedSet {
    if z == [] || z[|z| - 1].score <= e.score then z + [e]
    else Insert(z[..|z| - 1], e) + [z[|z| - 1]]
  }

  // ZADD: a member already present only gets a new score.
  function Add(z: SortedSet, score: nat, member: Member): SortedSet {
    Insert(RemoveMember(z, member), Entry(score, member))
  }

  // What a command sees: a key whose TTL has run out is gone.
  function Visible(k: Key, now: nat): SortedSet {
    if k.expireAt.Some? && now > k.expireAt.value then [] else k.entries
  }

  datatype Reply = Reply(key: Key, wait: nat)

  function Script(c: Config, k: Key, now: nat, member: Member): Reply
    requires c.Valid()
  {
    var kept := RemoveRangeByScore(Visible(k, now), 0, now - c.WindowMs());
    if |kept| < c.maxRequests then
      Reply(Key(Add(kept, now, member), Some(now + c.WindowMs())), 0)
    else
      var wait := kept[0].score + c.WindowMs() - now;
      Reply(Key(kept, k.expireAt), if wait < 1 then 1 else wait)
  }

  /** The shared Redis key, changed in place by the script. */
  class SharedKey {
    var entries: SortedSet
    var expireAt: Option<nat>

    constructor ()
      ensures View() == Key([], None)
    {
      entries, expireAt := [], None;
    }

    ghost function View(): Key
      reads this
    {
      Key(entries, expireAt)
    }

    method RunScript(c: Config, clock: nat, member: Member) returns (wait: nat)
      requires c.Valid()
      modifies this
      ensures Reply(View(), wait) == Script(c, old(View()), NowMs(clock), member)
    {
      var now := NowMs(clock);
      if expireAt.Some? && now > expireAt.value {
        entries, expireAt := [], None;
      }
      entries := RemoveRangeByScore(entries, 0, now - c.WindowMs());
      if |entries| < c.maxRequests {
        entries := Add(entries, now, member);
        expireAt := Some(now + c.WindowMs());
        return 0;
      }
      var oldest := entries[0];
      var remaining := oldest.score + c.WindowMs() - now;
      if remaining < 1 {
        remaining := 1;
      }
      wait := remaining;
    }
  }

  // ------------------------------------------------------------------
  // The retry loop
  // ------------------------------------------------------------------

  datatype Attempt = Answered(wait: nat) | RedisError

  // Where a caller is inside `acquire`.  A metered return remembers its member.
  datatype Pc = Calling | Sleeping(until: nat) | Returned(slot: Option<Member>) | Raised

  // One turn of the loop body: what an attempt at microsecond `clock` leads to.
  function AfterAttempt(c: Config, a: Attempt, member: Member, clock: nat, jitter: nat): Pc {
    match a
    case RedisError => if c.failOpen then Returned(None) else Raised
    case Answered(wait) =>
      if wait == 0 then Returned(Some(member))
      else Sleeping(clock + wait * 1000 + jitter)
  }

  datatype Fault = NoFault | NotRun | ReplyLost

  // One run of the script by somebody else, at a microsecond of the server's clock.
  datatype Visit = Visit(clock: nat, member: Member)

  // What one pass of `acquire` meets: the runs of the script by other callers before it, a
  // Redis error or none, its fresh member, and the clock and jitter of the pass.
  datatype Pass = Pass(others: seq<Visit>, fault: Fault, member: Member, clock: nat, jitter: nat)

  ghost function AfterVisits(c: Config, k: Key, visits: seq<Visit>): Key
    requires c.Valid()
  {
    if visits == [] then k
    else
      var last := visits[|visits| - 1];
      Script(c, AfterVisits(c, k, visits[..|visits| - 1]), NowMs(last.clock), last.member).key
  }

  // The key after the passes, other callers included.
  ghost function KeyAfter(c: Config, k: Key, passes: seq<Pass>): Key
    requires c.Valid()
  {
    if passes == [] then k
    else
      var last := passes[|passes| - 1];
      var met := AfterVisits(c, KeyAfter(c, k, passes[..|passes| - 1]), last.others);
      if last.fault.NotRun? then met else Script(c, met, NowMs(last.clock), last.member).key
  }

  // What the script answers to pass `i`.
  ghost function AttemptAt(c: Config, k: Key, passes: seq<Pass>, i: nat): Attempt
    requires c.Valid() && i < |passes|
  {
    var p := passes[i];
    if !p.fault.NoFault? then RedisError
    else Answered(Script(c, AfterVisits(c, KeyAfter(c, k, passes[..i]), p.others), NowMs(p.clock), p.member).wait)
  }

  ghost predicate Denied(a: Attempt) { a.Answered? && a.wait > 0 }

  // The time asked of sleep over the first `n` passes.
  ghost function TotalSleep(c: Config, k: Key, passes: seq<Pass>, n: nat): nat
    requires c.Valid() && n <= |passes|
  {
    if n == 0 then 0
    else
      var a := AttemptAt(c, k, passes, n - 1);
      TotalSleep(c, k, passes, n - 1) + if Denied(a) then a.wait * 1000 + passes[n - 1].jitter else 0
  }

  method RunVisits(c: Config, key: SharedKey, visits: seq<Visit>)
    requires c.Valid()
    modifies key
    ensures key.View() == AfterVisits(c, old(key.View()), visits)
  {
    for i := 0 to |visits|
      invariant key.View() == AfterVisits(c, old(key.View()), visits[..i])
    {
      assert visits[..i + 1][..i] == visits[..i];
      var wait := key.RunScript(c, visits[i].clock, visits[i].member);
    }
    assert visits[..|visits|] == visits;
  }

  /**
    The `while True` loop on the shared key, against any finite list of passes and whatever
    other callers do to the key between them.  It stops at the first attempt that is not a
    denial, and it sleeps the wait and the jitter of every denial.
  */
  method Acquire(c: Config, key: SharedKey, passes: seq<Pass>) returns (pc: Pc, calls: nat, slept: nat)
    requires c.Valid()
    modifies key
    ensures calls <= |passes|
    ensures key.View() == KeyAfter(c, old(key.View()), passes[..calls])
    ensures pc.Returned? || pc.Raised? ==>
              && calls > 0
              && (forall i :: 0 <= i < calls - 1 ==> Denied(AttemptAt(c, old(key.View()), passes, i)))
              && var last := AttemptAt(c, old(key.View()), passes, calls - 1);
                 && !Denied(last) && slept == TotalSleep(c, old(key.View()), passes, calls - 1)
                 && pc == if last.RedisError? then if c.failOpen then Returned(None) else Raised
                          else Returned(Some(passes[calls - 1].member))
    ensures pc.Calling? || pc.Sleeping? ==>
              && calls == |passes|
              && (forall i :: 0 <= i < calls ==> Denied(AttemptAt(c, old(key.View()), passes, i)))
              && slept == TotalSleep(c, old(key.View()), passes, calls)
  {
    hide AfterVisits, Script;
    pc, calls, slept := Calling, 0, 0;
    while calls < |passes|
      invariant calls <= |passes|
      invariant pc.Calling? || pc.Sleeping?
      invariant key.View() == KeyAfter(c, old(key.View()), passes[..calls])
      invariant forall i :: 0 <= i < calls ==> Denied(AttemptAt(c, old(key.View()), passes, i))
      invariant slept == TotalSleep(c, old(key.View()), passes, calls)
    {
      var p := passes[calls];
      assert passes[..calls + 1][..calls] == passes[..calls];
      RunVisits(c, key, p.others);
      calls := calls + 1;
      var attempt := RedisError;
      if !p.fault.NotRun? {
        var wait := key.RunScript(c, p.clock, p.member);
        attempt := if p.fault.NoFault? then Answered(wait) else RedisError;
      }
      assert attempt == AttemptAt(c, old(key.View()), passes, calls - 1);
      pc := AfterAttempt(c, attempt, p.member, p.clock, p.jitter);
      if attempt.RedisError? || attempt.wait == 0 {
        return;
      }
      slept := slept + attempt.wait * 1000 + p.jitter;
    }
  }

  // ------------------------------------------------------------------
  // The transition system
  // ------------------------------------------------------------------

  // `denials`, `firstSeen` and `lastSeen` are history: the denials of the current
  // acquire, and the number of grants on record at the first and the last of them.
  datatype Waiter = Waiter(pc: Pc, denials: nat, firstSeen: nat, lastSeen: nat)

  datatype Grant = Grant(at: nat, caller: Caller, member: Member) {
    function Ms(): nat { NowMs(at) }
  }

  // `log` is history: every slot ever reserved, in order.
  datatype State = State(clock: nat, key: Key, callers: map<Caller, Waiter>, log: seq<Grant>) {
    function Now(): nat { NowMs(clock) }
  }

  datatype Step =
    | Tick(micros: nat)
    | Expire                                            // Redis drops a key whose TTL has run out
    | Invoke(p: Caller, member: Member, jitter: nat)    // the script runs and its reply arrives
    | Unreachable(p: Caller)                            // RedisError, the script did not run
    | LostReply(p: Caller, member: Member)              // RedisError after the script ran
    | Wake(p: Caller)
    | Again(p: Caller)                                  // a finished caller starts another acquire

  const FRESH := Waiter(Calling, 0, 0, 0)

  ghost function Init(callers: set<Caller>): State {
    State(0, Key([], None), map p | p in callers :: FRESH, [])
  }

  ghost predicate CallingIn(s: State, p: Caller) { p in s.callers && s.callers[p].pc == Calling }

  ghost predicate Unused(log: seq<Grant>, member: Member) {
    forall i :: 0 <= i < |log| ==> log[i].member != member
  }

  ghost predicate Enabled(s: State, step: Step) {
    match step
    case Tick(_) => true
    case Expire => s.key.expireAt.Some? && s.Now() >= s.key.expireAt.value
    case Invoke(p, member, jitter) => CallingIn(s, p) && Unused(s.log, member) && jitter <= MAX_JITTER
    case Unreachable(p) => CallingIn(s, p)
    case LostReply(p, member) => CallingIn(s, p) && Unused(s.log, member)
    case Wake(p) => p in s.callers && s.callers[p].pc.Sleeping? && s.callers[p].pc.until <= s.clock
    case Again(p) => p in s.callers && (s.callers[p].pc.Returned? || s.callers[p].pc.Raised?)
  }

  // The script's effect on the key and on the record of grants.
  ghost function Reserve(c: Config, s: State, p: Caller, member: Member): State
    requires c.Valid()
  {
    var r := Script(c, s.key, s.Now(), member);
    s.(key := r.key, log := if r.wait == 0 then s.log + [Grant(s.clock, p, member)] else s.log)
  }

  ghost function Apply(c: Config, s: State, step: Step): State
    requires c.Valid() && Enabled(s, step)
  {
    match step
    case Tick(micros) => s.(clock := s.clock + micros)
    case Expire => s.(key := Key([], None))
    case Invoke(p, member, jitter) =>
      var wait := Script(c, s.key, s.Now(), member).wait;
      var w := s.callers[p];
      var pc := AfterAttempt(c, Answered(wait), member, s.clock, jitter);
      var n := |s.log|;
      var w' := if wait == 0 then w.(pc := pc)
                else Waiter(pc, w.denials + 1, if w.denials == 0 then n else w.firstSeen, n);
      Reserve(c, s, p, member).(callers := s.callers[p := w'])
    case Unreachable(p) =>
      s.(callers := s.callers[p := s.callers[p].(pc := AfterAttempt(c, RedisError, 0, s.clock, 0))])
    case LostReply(p, member) =>
      Reserve(c, s, p, member).(
        callers := s.callers[p := s.callers[p].(pc := AfterAttempt(c, RedisError, 0, s.clock, 0))])
    case Wake(p) => s.(callers := s.callers[p := s.callers[p].(pc := Calling)])
    case Again(p) => s.(callers := s.callers[p := FRESH])
  }

  // A run is a list of steps, each enabled in the state the earlier ones lead to.
  ghost predicate IsRun(c: Config, s: State, steps: seq<Step>)
    requires c.Valid()
    decreases |steps|, 0
  {
    steps == [] ||
    var init := steps[..|steps| - 1];
    IsRun(c, s, init) && Enabled(After(c, s, init), steps[|steps| - 1])
  }

  ghost function After(c: Config, s: State, steps: seq<Step>): State
    requires c.Valid() && IsRun(c, s, steps)
    decreases |steps|, 1
  {
    if steps == [] then s
    else Apply(c, After(c, s, steps[..|steps| - 1]), steps[|steps| - 1])
  }

  // ------------------------------------------------------------------
  // What the record of grants promises
  // ------------------------------------------------------------------

  ghost predicate Chronological(log: seq<Grant>) {
    forall i, j :: 0 <= i <= j < |log| ==> log[i].at <= log[j].at
  }

  // Grants `maxRequests` apart in order are at least a window apart in time.
  ghost predicate Spaced(c: Config, log: seq<Grant>) {
    forall i :: 0 <= i < |log| - c.maxRequests ==> log[i].Ms() + c.WindowMs() <= log[i + c.maxRequests].Ms()
  }

  ghost predicate DistinctMembers(log: seq<Grant>) {
    forall i, j :: 0 <= i < j < |log| ==> log[i].member != log[j].member
  }

  // The key holds exactly the youngest grants; the ones it lost have left the window.
  ghost predicate Tracks(c: Config, k: Key, log: seq<Grant>, now: nat) {
    && |k.entries| <= |log| && |k.entries| <= c.maxRequests
    && var gone := |log| - |k.entries|;
    && (forall i :: gone <= i < |log| ==> k.entries[i - gone] == Entry(log[i].Ms(), log[i].member))
    && (forall i :: 0 <= i < gone ==> log[i].Ms() + c.WindowMs() <= now)
    && (k.entries != [] ==> k.expireAt == Some(log[|log| - 1].Ms() + c.WindowMs()))
  }

  // Earliest millisecond at which the next slot can be granted.
  ghost function NextFree(c: Config, log: seq<Grant>): nat
    requires c.Valid()
  {
    if |log| < c.maxRequests then 0 else log[|log| - c.maxRequests].Ms() + c.WindowMs()
  }

  // A denied caller has seen a full window, and unless somebody was granted since
  // its last denial, a slot is free by the time it calls again.
  ghost predicate Patient(c: Config, s: State, w: Waiter)
    requires c.Valid()
  {
    w.denials > 0 ==>
      && c.maxRequests <= w.firstSeen
      && w.firstSeen + w.denials - 1 <= w.lastSeen <= |s.log|
      && (w.lastSeen == |s.log| ==>
            && (w.pc.Sleeping? ==> NextFree(c, s.log) <= NowMs(w.pc.until))
            && (w.pc.Calling? ==> NextFree(c, s.log) <= s.Now()))
  }

  // A metered return owns a slot on record; the others end as the failure mode says.
  ghost predicate OwnsSlot(c: Config, s: State, p: Caller, w: Waiter) {
    && (w.pc.Raised? ==> !c.failOpen)
    && (w.pc.Returned? ==>
          if w.pc.slot.None? then c.failOpen
          else exists i :: 0 <= i < |s.log| && s.log[i].caller == p && s.log[i].member == w.pc.slot.value)
  }

  ghost predicate Inv(c: Config, s: State)
    requires c.Valid()
  {
    && Chronological(s.log)
    && (forall i :: 0 <= i < |s.log| ==> s.log[i].at <= s.clock)
    && DistinctMembers(s.log)
    && Spaced(c, s.log)
    && Tracks(c, s.key, s.log, s.Now())
    && (forall p :: p in s.callers ==> Patient(c, s, s.callers[p]))
    && (forall p :: p in s.callers ==> OwnsSlot(c, s, p, s.callers[p]))
  }

  // ------------------------------------------------------------------
  // Lemmas about time and the sorted set
  // ------------------------------------------------------------------

  lemma NowMsIsFloor(clock: nat)
    ensures NowMs(clock) == clock / 1000
  {
    var s, u := clock / 1_000_000, clock % 1_000_000;
    assert clock == 1_000_000 * s + u;
    assert clock / 1000 == 1000 * s + u / 1000;
  }

  lemma NowMsMonotone(a: nat, b: nat)
    requires a <= b
    ensures NowMs(a) <= NowMs(b)
  {
  }

  lemma NowMsAdds(clock: nat, ms: nat, extra: nat)
    ensures NowMs(clock + ms * 1000 + extra) >= NowMs(clock) + ms
  {
  }

  lemma {:induction false} EvictionKeepsSuffix(z: SortedSet, hi: int) returns (cut: nat)
    requires Ascending(z)
    ensures cut <= |z| && RemoveRangeByScore(z, 0, hi) == z[cut..]
    ensures forall i :: 0 <= i < cut ==> z[i].score <= hi
    ensures forall i :: cut <= i < |z| ==> z[i].score > hi
  {
    if z == [] {
      cut := 0;
    } else if z[0].score <= hi {
      cut := EvictionKeepsSuffix(z[1..], hi);
      cut := cut + 1;
      assert forall i :: 0 < i < cut ==> z[i] == z[1..][i - 1];
      assert forall i :: cut <= i < |z| ==> z[i] == z[1..][i - 1];
    } else {
      cut := EvictionKeepsSuffix(z[1..], hi);
      assert cut == 0;
      assert forall i :: 0 < i < |z| ==> z[i] == z[1..][i - 1];
    }
  }

  lemma {:induction false} RemoveAbsentMember(z: SortedSet, member: Member)
    requires forall i :: 0 <= i < |z| ==> z[i].member != member
    ensures RemoveMember(z, member) == z
  {
    if z != [] {
      assert z[0].member != member;
      RemoveAbsentMember(z[1..], member);
      assert z == [z[0]] + z[1..];
    }
  }

  // ------------------------------------------------------------------
  // The script against the record
  // ------------------------------------------------------------------

  lemma TrackedIsAscending(c: Config, s: State)
    requires c.Valid() && Inv(c, s)
    ensures Ascending(s.key.entries)
  {
    hide NowMs;
    var z, gone := s.key.entries, |s.log| - |s.key.entries|;
    forall i, j | 0 <= i < j < |z| ensures z[i].score <= z[j].score {
      assert z[i] == Entry(s.log[gone + i].Ms(), s.log[gone + i].member);
      assert z[j] == Entry(s.log[gone + j].Ms(), s.log[gone + j].member);
      NowMsMonotone(s.log[gone + i].at, s.log[gone + j].at);
    }
  }

  // What eviction leaves is the part of the record inside the window, whether or
  // not the TTL had already removed the key.
  lemma KeptIsWindow(c: Config, s: State) returns (cut: nat)
    requires c.Valid() && Inv(c, s)
    ensures |s.log| - |s.key.entries| <= cut <= |s.log|
    ensures var kept := RemoveRangeByScore(Visible(s.key, s.Now()), 0, s.Now() - c.WindowMs());
            |kept| == |s.log| - cut
            && forall i :: cut <= i < |s.log| ==> kept[i - cut] == Entry(s.log[i].Ms(), s.log[i].member)
    ensures forall i :: 0 <= i < cut ==> s.log[i].Ms() + c.WindowMs() <= s.Now()
    ensures forall i :: cut <= i < |s.log| ==> s.log[i].Ms() + c.WindowMs() > s.Now()
    ensures cut < |s.log| ==> s.key.expireAt == Some(s.log[|s.log| - 1].Ms() + c.WindowMs())
  {
    hide NowMs, RemoveRangeByScore;
    var n, gone := |s.log|, |s.log| - |s.key.entries|;
    TrackedIsAscending(c, s);
    if s.key.entries != [] && s.Now() > s.key.expireAt.value {
      forall i | 0 <= i < n ensures s.log[i].Ms() + c.WindowMs() <= s.Now() {
        NowMsMonotone(s.log[i].at, s.log[n - 1].at);
      }
      cut := n;
      var k := EvictionKeepsSuffix([], s.Now() - c.WindowMs());
    } else {
      var z := s.key.entries;
      assert Visible(s.key, s.Now()) == z;
      var k := EvictionKeepsSuffix(z, s.Now() - c.WindowMs());
      cut := gone + k;
      forall i | gone <= i < n ensures z[i - gone] == Entry(s.log[i].Ms(), s.log[i].member) {
      }
    }
  }

  lemma GrantsArePast(c: Config, s: State)
    requires c.Valid() && Inv(c, s)
    ensures forall i :: 0 <= i < |s.log| ==> s.log[i].Ms() <= s.Now()
  {
  }

  // The script's answer in terms of the full record: the reply is zero exactly when
  // a slot is free, and otherwise the exact time until one is.
  lemma ScriptReply(c: Config, s: State, member: Member)
    requires c.Valid() && Inv(c, s)
    ensures var wait := Script(c, s.key, s.Now(), member).wait;
            && (wait == 0 <==> NextFree(c, s.log) <= s.Now())
            && (wait != 0 ==> wait == NextFree(c, s.log) - s.Now() && 1 <= wait <= c.WindowMs())
  {
    hide NowMs, RemoveRangeByScore, Add;
    var n := |s.log|;
    var cut := KeptIsWindow(c, s);
    if n - cut < c.maxRequests {
      if n >= c.maxRequests {
        assert s.log[n - c.maxRequests].Ms() + c.WindowMs() <= s.Now();
      }
    } else {
      FullWindowIsExact(c, s, cut);
      NowMsMonotone(s.log[cut].at, s.clock);
    }
  }

  // Inside one window there are never more than `maxRequests` grants.
  lemma FullWindowIsExact(c: Config, s: State, cut: nat)
    requires c.Valid() && Inv(c, s)
    requires cut <= |s.log| && c.maxRequests <= |s.log| - cut
    requires forall i :: cut <= i < |s.log| ==> s.log[i].Ms() + c.WindowMs() > s.Now()
    ensures |s.log| - cut == c.maxRequests
  {
    hide NowMs;
    GrantsArePast(c, s);
    forall i | 0 <= i < |s.log| - c.maxRequests ensures s.log[i].Ms() + c.WindowMs() <= s.Now() {
      assert s.log[i + c.maxRequests].Ms() <= s.Now();
    }
    var first := s.log[cut];
  }

  lemma ReserveKeepsTrack(c: Config, s: State, p: Caller, member: Member)
    requires c.Valid() && Inv(c, s) && Unused(s.log, member)
    ensures var t := Reserve(c, s, p, member);
            Tracks(c, t.key, t.log, t.Now())
  {
    hide RemoveRangeByScore, RemoveMember, NowMs;
    var cut := KeptIsWindow(c, s);
    var kept := RemoveRangeByScore(Visible(s.key, s.Now()), 0, s.Now() - c.WindowMs());
    GrantsArePast(c, s);
    if |kept| < c.maxRequests {
      forall i | 0 <= i < |kept| ensures kept[i].member != member && kept[i].score <= s.Now() {
        assert kept[cut + i - cut] == Entry(s.log[cut + i].Ms(), s.log[cut + i].member);
      }
      RemoveAbsentMember(kept, member);
      assert Add(kept, s.Now(), member) == kept + [Entry(s.Now(), member)];
    }
  }

  lemma ReserveKeepsRecord(c: Config, s: State, p: Caller, member: Member)
    requires c.Valid() && Inv(c, s) && Unused(s.log, member)
    ensures var t := Reserve(c, s, p, member);
            && Chronological(t.log) && DistinctMembers(t.log) && Spaced(c, t.log)
            && forall i :: 0 <= i < |t.log| ==> t.log[i].at <= t.clock
  {
    hide NowMs, RemoveRangeByScore, Add;
    ScriptReply(c, s, member);
    var t, n := Reserve(c, s, p, member), |s.log|;
    if |t.log| > n && n >= c.maxRequests {
      forall i | 0 <= i < |t.log| - c.maxRequests
        ensures t.log[i].Ms() + c.WindowMs() <= t.log[i + c.maxRequests].Ms()
      {
        if i < n - c.maxRequests {
          assert s.log[i].Ms() + c.WindowMs() <= s.log[i + c.maxRequests].Ms();
        } else {
          assert t.log[i] == s.log[n - c.maxRequests];
        }
      }
    }
  }
}
