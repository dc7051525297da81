/**
  What the Redis limiter promises over whole runs: any number of callers, every
  interleaving of their steps, the passing of time, key expiry and Redis errors.
*/
module RateLimiterRuns {
  import opened Wrappers
  import opened RedisRateLimiter

  // ------------------------------------------------------------------
  // The invariant
  // ------------------------------------------------------------------

  lemma InitInv(c: Config, callers: set<Caller>)
    requires c.Valid()
    ensures Inv(c, Init(callers))
  {
  }

  // The record only grows, so what was owned stays owned.
  lemma OwnershipGrows(c: Config, s: State, t: State, p: Caller, w: Waiter)
    requires OwnsSlot(c, s, p, w) && s.log <= t.log
    ensures OwnsSlot(c, t, p, w)
  {
  }

  lemma TickInv(c: Config, s: State, micros: nat)
    requires c.Valid() && Inv(c, s)
    ensures Inv(c, s.(clock := s.clock + micros))
  {
  }

  lemma ExpireInv(c: Config, s: State)
    requires c.Valid() && Inv(c, s) && Enabled(s, Expire)
    ensures Inv(c, Apply(c, s, Expire))
  {
  }

  // A caller that does not move in this step stays patient and keeps its slot.
  lemma BystanderInv(c: Config, s: State, t: State, q: Caller)
    requires c.Valid() && q in s.callers && q in t.callers && t.callers[q] == s.callers[q]
    requires Patient(c, s, s.callers[q]) && OwnsSlot(c, s, q, s.callers[q])
    requires s.log <= t.log && t.clock == s.clock
    ensures Patient(c, t, t.callers[q]) && OwnsSlot(c, t, q, t.callers[q])
  {
    hide NowMs;
    OwnershipGrows(c, s, t, q, s.callers[q]);
    if |t.log| == |s.log| {
      assert t.log == s.log;
    }
  }

  // A denial means the record has grown since the caller's previous denial.
  lemma DenialSeesProgress(c: Config, s: State, p: Caller, member: Member)
    requires c.Valid() && Inv(c, s) && CallingIn(s, p)
    requires Script(c, s.key, s.Now(), member).wait != 0
    ensures c.maxRequests <= |s.log|
    ensures s.callers[p].denials > 0 ==> s.callers[p].lastSeen < |s.log|
  {
    hide NowMs;
    ScriptReply(c, s, member);
    assert Patient(c, s, s.callers[p]);
  }

  lemma InvokeInv(c: Config, s: State, p: Caller, member: Member, jitter: nat)
    requires c.Valid() && Inv(c, s) && Enabled(s, Invoke(p, member, jitter))
    ensures Inv(c, Apply(c, s, Invoke(p, member, jitter)))
  {
    hide NowMs, Script, Tracks, Spaced;
    var t := Apply(c, s, Invoke(p, member, jitter));
    var wait := Script(c, s.key, s.Now(), member).wait;
    ReserveKeepsRecord(c, s, p, member);
    ReserveKeepsTrack(c, s, p, member);
    ScriptReply(c, s, member);
    assert Patient(c, s, s.callers[p]);
    if wait == 0 {
      var n := |s.log|;
      assert t.log[n].caller == p && t.log[n].member == member;
    } else {
      DenialSeesProgress(c, s, p, member);
      NowMsAdds(s.clock, wait, jitter);
      assert t.log == s.log;
    }
    assert Patient(c, t, t.callers[p]) && OwnsSlot(c, t, p, t.callers[p]);
    forall q | q in t.callers && q != p ensures Patient(c, t, t.callers[q]) && OwnsSlot(c, t, q, t.callers[q]) {
      BystanderInv(c, s, t, q);
    }
  }

  lemma LostReplyInv(c: Config, s: State, p: Caller, member: Member)
    requires c.Valid() && Inv(c, s) && Enabled(s, LostReply(p, member))
    ensures Inv(c, Apply(c, s, LostReply(p, member)))
  {
    hide NowMs, Script, Tracks, Spaced;
    var t := Apply(c, s, LostReply(p, member));
    ReserveKeepsRecord(c, s, p, member);
    ReserveKeepsTrack(c, s, p, member);
    assert Patient(c, s, s.callers[p]);
    forall q | q in t.callers && q != p ensures Patient(c, t, t.callers[q]) && OwnsSlot(c, t, q, t.callers[q]) {
      BystanderInv(c, s, t, q);
    }
  }

  // Steps that move one caller and touch neither the clock, the key nor the record.
  lemma LocalInv(c: Config, s: State, step: Step)
    requires c.Valid() && Inv(c, s) && Enabled(s, step)
    requires step.Unreachable? || step.Wake? || step.Again?
    ensures Inv(c, Apply(c, s, step))
  {
    hide NowMs;
    var t := Apply(c, s, step);
    assert Patient(c, s, s.callers[step.p]);
    if step.Wake? {
      NowMsMonotone(s.callers[step.p].pc.until, s.clock);
    }
    forall q | q in t.callers && q != step.p ensures Patient(c, t, t.callers[q]) && OwnsSlot(c, t, q, t.callers[q]) {
      BystanderInv(c, s, t, q);
    }
  }

  lemma StepInv(c: Config, s: State, step: Step)
    requires c.Valid() && Inv(c, s) && Enabled(s, step)
    ensures Inv(c, Apply(c, s, step))
  {
    match step
    case Tick(micros) => TickInv(c, s, micros);
    case Expire => ExpireInv(c, s);
    case Invoke(p, member, jitter) => InvokeInv(c, s, p, member, jitter);
    case LostReply(p, member) => LostReplyInv(c, s, p, member);
    case _ => LocalInv(c, s, step);
  }

  lemma {:induction false} RunInv(c: Config, s: State, steps: seq<Step>)
    requires c.Valid() && Inv(c, s) && IsRun(c, s, steps)
    ensures Inv(c, After(c, s, steps))
    decreases |steps|
  {
    hide NowMs;
    if steps != [] {
      var init := steps[..|steps| - 1];
      RunInv(c, s, init);
      StepInv(c, After(c, s, init), steps[|steps| - 1]);
    }
  }

  ghost predicate Reaches(c: Config, callers: set<Caller>, steps: seq<Step>, s: State)
    requires c.Valid()
  {
    IsRun(c, Init(callers), steps) && After(c, Init(callers), steps) == s
  }

  // Reachable by some run of some set of callers.
  ghost predicate Reachable(c: Config, s: State)
    requires c.Valid()
  {
    exists callers, steps :: Reaches(c, callers, steps, s)
  }

  lemma ReachableInv(c: Config, s: State)
    requires c.Valid() && Reachable(c, s)
    ensures Inv(c, s)
  {
    var callers, steps :| Reaches(c, callers, steps, s);
    InitInv(c, callers);
    RunInv(c, Init(callers), steps);
  }

  // ------------------------------------------------------------------
  // Safety
  // ------------------------------------------------------------------

  // Grants with a time in (lo, hi].
  ghost function CountIn(log: seq<Grant>, lo: int, hi: int): (count: nat)
    ensures count <= |log|
  {
    if log == [] then 0
    else CountIn(log[..|log| - 1], lo, hi) + if lo < log[|log| - 1].Ms() <= hi then 1 else 0
  }

  // Grants in the half-open window of the configured length that starts after `lo`.
  ghost function InWindow(c: Config, log: seq<Grant>, lo: int): nat {
    CountIn(log, lo, lo + 1000 * c.windowSeconds)
  }

  lemma {:induction false} CountAtMost(log: seq<Grant>, lo: int, hi: int, k: nat)
    requires k <= |log|
    ensures CountIn(log, lo, hi) <= CountIn(log[..k], lo, hi) + |log| - k
    decreases |log|
  {
    hide NowMs;
    if k == |log| {
      assert log[..k] == log;
    } else {
      assert log[..|log| - 1][..k] == log[..k];
      CountAtMost(log[..|log| - 1], lo, hi, k);
    }
  }

  // A log that is out of the range up to `cut` and inside it afterwards.
  lemma {:induction false} CountSuffix(log: seq<Grant>, lo: int, hi: int, cut: nat)
    requires cut <= |log|
    requires forall i :: 0 <= i < cut ==> log[i].Ms() <= lo
    requires forall i :: cut <= i < |log| ==> lo < log[i].Ms() <= hi
    ensures CountIn(log, lo, hi) == |log| - cut
    decreases |log|
  {
    hide NowMs;
    if cut < |log| {
      CountSuffix(log[..|log| - 1], lo, hi, cut);
    } else if log != [] {
      CountSuffix(log[..|log| - 1], lo, hi, cut - 1);
    }
  }

  // A window that ends at or after the last grant reaches back over `maxRequests` of them.
  lemma WindowAtTheEnd(c: Config, log: seq<Grant>, lo: int)
    requires c.Valid() && Chronological(log) && Spaced(c, log)
    requires log != [] && log[|log| - 1].Ms() <= lo + c.WindowMs()
    ensures InWindow(c, log, lo) <= c.maxRequests
  {
    hide NowMs;
    var hi, n := lo + c.WindowMs(), |log| - 1;
    if n >= c.maxRequests {
      var k := n - c.maxRequests;
      assert log[k].Ms() + c.WindowMs() <= log[k + c.maxRequests].Ms();
      forall i | 0 <= i <= k ensures log[i].Ms() <= lo {
        NowMsMonotone(log[i].at, log[k].at);
      }
      CountSuffix(log[..k + 1], lo, hi, k + 1);
      CountAtMost(log, lo, hi, k + 1);
    } else {
      CountAtMost(log, lo, hi, 0);
    }
  }

  // No half-open window of the configured length holds more than `maxRequests` grants.
  lemma {:induction false} SpacedBoundsWindows(c: Config, log: seq<Grant>, lo: int)
    requires c.Valid() && Chronological(log) && Spaced(c, log)
    ensures InWindow(c, log, lo) <= c.maxRequests
    decreases |log|
  {
    hide NowMs;
    if log != [] {
      if log[|log| - 1].Ms() <= lo + c.WindowMs() {
        WindowAtTheEnd(c, log, lo);
      } else {
        SpacedBoundsWindows(c, log[..|log| - 1], lo);
      }
    }
  }

  /**
    The limit, over every run from the start: grants `maxRequests` apart in order are a
    window apart on the server's millisecond clock (so more than a window less one
    millisecond apart in real time), no half-open window holds more than `maxRequests`
    grants, the sorted set never holds more entries than that, every metered return owns one
    of the grants, and only a fail-open limiter returns unmetered, only a fail-closed one raises.
  */
  lemma LimitHolds(c: Config, s: State)
    requires c.Valid() && Reachable(c, s)
    ensures forall i :: 0 <= i < |s.log| - c.maxRequests ==>
              && s.log[i].Ms() + 1000 * c.windowSeconds <= s.log[i + c.maxRequests].Ms()
              && s.log[i].at + 1_000_000 * c.windowSeconds - 1000 < s.log[i + c.maxRequests].at
    ensures forall lo: int :: InWindow(c, s.log, lo) <= c.maxRequests
    ensures |s.key.entries| <= c.maxRequests
    ensures forall p :: p in s.callers && s.callers[p].pc.Raised? ==> !c.failOpen
    ensures forall p :: p in s.callers && s.callers[p].pc.Returned? ==>
              if s.callers[p].pc.slot.None? then c.failOpen
              else exists i :: 0 <= i < |s.log| && s.log[i].caller == p && s.log[i].member == s.callers[p].pc.slot.value
  {
    ReachableInv(c, s);
    var log := s.log;
    forall i | 0 <= i < |log| - c.maxRequests
      ensures log[i].at + 1_000_000 * c.windowSeconds - 1000 < log[i + c.maxRequests].at
    {
      NowMsIsFloor(log[i].at);
      NowMsIsFloor(log[i + c.maxRequests].at);
    }
    forall lo: int ensures InWindow(c, log, lo) <= c.maxRequests {
      SpacedBoundsWindows(c, log, lo);
    }
    forall p | p in s.callers ensures OwnsSlot(c, s, p, s.callers[p]) {
    }
  }

  // ------------------------------------------------------------------
  // Refinement: the script against a limiter that forgets nothing
  // ------------------------------------------------------------------

  // The answer of a limiter that keeps every grant: free while fewer than
  // `maxRequests` grants lie in (now - window, now], else wait for the first of
  // those grants to leave.
  ghost function FullRecordWait(c: Config, log: seq<Grant>, now: nat): int
    requires c.Valid()
  {
    var n := CountIn(log, now - c.WindowMs(), now);
    if n < c.maxRequests then 0 else log[|log| - n].Ms() + c.WindowMs() - now
  }

  // Eviction leaves as many entries as the record has grants in the window.
  lemma KeptIsCounted(c: Config, s: State) returns (cut: nat)
    requires c.Valid() && Inv(c, s)
    ensures cut <= |s.log| && CountIn(s.log, s.Now() - c.WindowMs(), s.Now()) == |s.log| - cut <= c.maxRequests
    ensures |s.log| - cut == c.maxRequests <==> s.Now() < NextFree(c, s.log)
  {
    hide NowMs, RemoveRangeByScore;
    cut := KeptIsWindow(c, s);
    forall i | 0 <= i < |s.log| ensures s.log[i].Ms() <= s.Now() {
      NowMsMonotone(s.log[i].at, s.clock);
    }
    CountSuffix(s.log, s.Now() - c.WindowMs(), s.Now(), cut);
    if |s.log| - cut >= c.maxRequests {
      FullWindowIsExact(c, s, cut);
    }
  }

  lemma WindowAnswers(c: Config, s: State, member: Member)
    requires c.Valid() && Inv(c, s)
    ensures var wait := Script(c, s.key, s.Now(), member).wait;
            && wait == FullRecordWait(c, s.log, s.Now())
            && (wait == 0 <==> CountIn(s.log, s.Now() - c.WindowMs(), s.Now()) < c.maxRequests)
  {
    hide NowMs, RemoveRangeByScore, Add;
    var cut := KeptIsCounted(c, s);
    ScriptReply(c, s, member);
  }

  /**
    In every reachable state the script on the evicted, expiring sorted set answers as
    the limiter that keeps the full record, so neither eviction nor the TTL of the key
    ever changes an answer.
  */
  lemma ScriptRefinesFullRecord(c: Config, s: State, member: Member)
    requires c.Valid() && Reachable(c, s)
    ensures Script(c, s.key, s.Now(), member).wait == FullRecordWait(c, s.log, s.Now())
    ensures Script(c, s.key, s.Now(), member).wait == 0
            <==> CountIn(s.log, s.Now() - c.WindowMs(), s.Now()) < c.maxRequests
  {
    ReachableInv(c, s);
    WindowAnswers(c, s, member);
  }

  // ------------------------------------------------------------------
  // The wait of a denial
  // ------------------------------------------------------------------

  lemma {:induction false} ClockOnlyGrows(c: Config, s: State, steps: seq<Step>)
    requires c.Valid() && IsRun(c, s, steps)
    ensures s.clock <= After(c, s, steps).clock && s.log <= After(c, s, steps).log
    decreases |steps|
  {
    if steps != [] {
      ClockOnlyGrows(c, s, steps[..|steps| - 1]);
    }
  }

  // Nobody is granted before the record's next free millisecond, whatever happens.
  lemma {:induction false} NothingBeforeNextFree(c: Config, s: State, steps: seq<Step>)
    requires c.Valid() && Inv(c, s) && IsRun(c, s, steps)
    requires After(c, s, steps).Now() < NextFree(c, s.log)
    ensures After(c, s, steps).log == s.log
    decreases |steps|
  {
    hide NowMs, Script, Inv, Apply, Enabled;
    if steps != [] {
      var init := steps[..|steps| - 1];
      var t := After(c, s, init);
      ClockMoves(c, t, steps[|steps| - 1]);
      NothingBeforeNextFree(c, s, init);
      RunInv(c, s, init);
      NoGrantYet(c, t, steps[|steps| - 1]);
    }
  }

  lemma ClockMoves(c: Config, s: State, step: Step)
    requires c.Valid() && Enabled(s, step)
    ensures s.Now() <= Apply(c, s, step).Now()
  {
    hide NowMs, Script;
    NowMsMonotone(s.clock, Apply(c, s, step).clock);
  }

  lemma NoGrantYet(c: Config, s: State, step: Step)
    requires c.Valid() && Inv(c, s) && Enabled(s, step) && s.Now() < NextFree(c, s.log)
    ensures Apply(c, s, step).log == s.log
  {
    hide NowMs, Script, Tracks, Spaced;
    match step
    case Invoke(_, member, _) => ScriptReply(c, s, member);
    case LostReply(_, member) => ScriptReply(c, s, member);
    case _ =>
  }

  /**
    A denial at `now` with wait `w` is exact.  The wait lies in 1..window, so the clamp to
    1 never fires; no caller is granted before now + w in any continuation of the run;
    and in every continuation that reaches now + w without another grant, whoever calls
    is granted.
  */
  lemma WaitIsExact(c: Config, s: State, member: Member, steps: seq<Step>, t: State)
    requires c.Valid() && Reachable(c, s)
    requires Script(c, s.key, s.Now(), member).wait != 0
    requires IsRun(c, s, steps) && t == After(c, s, steps)
    ensures var w := Script(c, s.key, s.Now(), member).wait;
            && 1 <= w <= 1000 * c.windowSeconds
            && (t.Now() < s.Now() + w ==> t.log == s.log)
            && (t.Now() >= s.Now() + w && t.log == s.log ==>
                  forall m: Member :: Script(c, t.key, t.Now(), m).wait == 0)
  {
    ReachableInv(c, s);
    RunInv(c, s, steps);
    ScriptReply(c, s, member);
    if t.Now() < NextFree(c, s.log) {
      NothingBeforeNextFree(c, s, steps);
    }
    forall m: Member | t.Now() >= NextFree(c, s.log) && t.log == s.log
      ensures Script(c, t.key, t.Now(), m).wait == 0
    {
      ScriptReply(c, t, m);
    }
  }

  // ------------------------------------------------------------------
  // The sleep of a denial
  // ------------------------------------------------------------------

  // A sleeper asks for at most a window and a quarter of a second from now.
  ghost predicate SleepsShort(c: Config, s: State, w: Waiter) {
    w.pc.Sleeping? ==> w.pc.until <= s.clock + 1_000_000 * c.windowSeconds + 250_000
  }

  ghost predicate AllSleepShort(c: Config, s: State) { forall p :: p in s.callers ==> SleepsShort(c, s, s.callers[p]) }

  lemma SleepsShortStep(c: Config, s: State, step: Step)
    requires c.Valid() && Inv(c, s) && Enabled(s, step) && AllSleepShort(c, s)
    ensures AllSleepShort(c, Apply(c, s, step))
  {
    hide NowMs, Script, Tracks, Spaced, Patient, OwnsSlot;
    var t := Apply(c, s, step);
    if step.Invoke? {
      ScriptReply(c, s, step.member);
    }
    forall p | p in t.callers ensures SleepsShort(c, t, t.callers[p]) {
      assert SleepsShort(c, s, s.callers[p]);
    }
  }

  lemma {:induction false} SleepsShortRun(c: Config, callers: set<Caller>, steps: seq<Step>)
    requires c.Valid() && IsRun(c, Init(callers), steps)
    ensures AllSleepShort(c, After(c, Init(callers), steps))
    decreases |steps|
  {
    hide Apply, Enabled, Inv;
    if steps != [] {
      var init := steps[..|steps| - 1];
      SleepsShortRun(c, callers, init);
      InitInv(c, callers);
      RunInv(c, Init(callers), init);
      SleepsShortStep(c, After(c, Init(callers), init), steps[|steps| - 1]);
    }
  }

  /** In every reachable state a sleeping caller wakes within a window and a quarter of a second. */
  lemma SleepIsBounded(c: Config, s: State, p: Caller)
    requires c.Valid() && Reachable(c, s) && p in s.callers && s.callers[p].pc.Sleeping?
    ensures s.callers[p].pc.until <= s.clock + 1_000_000 * c.windowSeconds + 250_000
  {
    var callers, steps :| Reaches(c, callers, steps, s);
    SleepsShortRun(c, callers, steps);
    assert SleepsShort(c, s, s.callers[p]);
  }

  /**
    The loop's sleep, pass by pass: what a denied pass adds to the time slept takes the caller
    to the wake-up its attempt leads to, which is at least the wait in milliseconds away and,
    with the jitter in its range, at most a quarter of a second more; any other pass adds
    nothing.
  */
  lemma DenialSleepsItsWait(c: Config, k: Key, passes: seq<Pass>, n: nat)
    requires c.Valid() && n < |passes|
    ensures var a, p := AttemptAt(c, k, passes, n), passes[n];
            var d := TotalSleep(c, k, passes, n + 1) - TotalSleep(c, k, passes, n);
            if Denied(a) then
              && AfterAttempt(c, a, p.member, p.clock, p.jitter) == Sleeping(p.clock + d)
              && NowMs(p.clock) + a.wait <= NowMs(p.clock + d)
              && d >= a.wait * 1000 && (p.jitter <= 250_000 ==> d <= a.wait * 1000 + 250_000)
            else d == 0
  {
    hide AttemptAt, NowMs;
    var a := AttemptAt(c, k, passes, n);
    if Denied(a) {
      NowMsAdds(passes[n].clock, a.wait, passes[n].jitter);
    }
  }

  // ------------------------------------------------------------------
  // Progress
  // ------------------------------------------------------------------

  ghost predicate Done(w: Waiter) { w.pc.Returned? || w.pc.Raised? }

  // Between the first and the last denial of an acquire, and for as long as it goes on,
  // its own caller is granted nothing.
  ghost predicate OnlyOthers(s: State, p: Caller, w: Waiter) {
    w.denials > 0 ==>
      forall i :: w.firstSeen <= i < |s.log| && (i < w.lastSeen || !Done(w)) ==> s.log[i].caller != p
  }

  ghost predicate AllOnlyOthers(s: State) { forall p :: p in s.callers ==> OnlyOthers(s, p, s.callers[p]) }

  // A step adds a grant only to the record of the caller whose acquire it ends.
  lemma OnlyOthersStep(c: Config, s: State, step: Step)
    requires c.Valid() && Inv(c, s) && Enabled(s, step) && AllOnlyOthers(s)
    ensures AllOnlyOthers(Apply(c, s, step))
  {
    hide NowMs, Script, Tracks, Spaced;
    var t := Apply(c, s, step);
    forall p | p in t.callers ensures OnlyOthers(t, p, t.callers[p]) {
      assert Patient(c, s, s.callers[p]) && OnlyOthers(s, p, s.callers[p]);
    }
  }

  lemma {:induction false} OnlyOthersRun(c: Config, callers: set<Caller>, steps: seq<Step>)
    requires c.Valid() && IsRun(c, Init(callers), steps)
    ensures AllOnlyOthers(After(c, Init(callers), steps))
    decreases |steps|
  {
    hide NowMs, Script, OnlyOthers;
    if steps == [] {
      assert AllOnlyOthers(Init(callers)) by { StartOnlyOthers(callers); }
    } else {
      var init := steps[..|steps| - 1];
      OnlyOthersRun(c, callers, init);
      InitInv(c, callers);
      RunInv(c, Init(callers), init);
      OnlyOthersStep(c, After(c, Init(callers), init), steps[|steps| - 1]);
    }
  }

  lemma StartOnlyOthers(callers: set<Caller>)
    ensures AllOnlyOthers(Init(callers))
  {
  }

  // A grant at position `from` of the record or later went to somebody else.
  ghost predicate AnotherGranted(log: seq<Grant>, from: nat, p: Caller) {
    exists i :: from <= i < |log| && log[i].caller != p
  }

  /**
    Every denial of an acquire after its first one is paid for by a grant to somebody else.
    A caller about to be denied again finds that another caller was granted since its last
    denial; and the d denials so far have seen at least d - 1 grants, all to others, since
    the first, which itself saw a full window.
  */
  lemma DenialsArePaidFor(c: Config, s: State, p: Caller)
    requires c.Valid() && Reachable(c, s)
    requires p in s.callers && s.callers[p].denials > 0
    ensures var w := s.callers[p];
            && c.maxRequests <= w.firstSeen <= w.lastSeen <= |s.log|
            && w.denials - 1 <= w.lastSeen - w.firstSeen
            && forall i :: w.firstSeen <= i < w.lastSeen ==> s.log[i].caller != p
    ensures forall member :: CallingIn(s, p) && Script(c, s.key, s.Now(), member).wait != 0 ==>
              AnotherGranted(s.log, s.callers[p].lastSeen, p)
  {
    hide NowMs, Script;
    var callers, steps :| Reaches(c, callers, steps, s);
    InitInv(c, callers);
    RunInv(c, Init(callers), steps);
    OnlyOthersRun(c, callers, steps);
    assert Patient(c, s, s.callers[p]) && OnlyOthers(s, p, s.callers[p]);
    forall member | CallingIn(s, p) && Script(c, s.key, s.Now(), member).wait != 0
      ensures AnotherGranted(s.log, s.callers[p].lastSeen, p)
    {
      DenialSeesProgress(c, s, p, member);
      assert s.log[s.callers[p].lastSeen].caller != p;
    }
  }

  ghost predicate OneAcquireEach(steps: seq<Step>) {
    forall i :: 0 <= i < |steps| ==> !steps[i].Again?
  }

  // When nobody acquires twice, every grant belongs to a different finished caller,
  // and a denial's view of the record leaves out the caller itself.
  ghost predicate OnceInv(c: Config, callers: set<Caller>, s: State) {
    && s.callers.Keys == callers
    && (forall i :: 0 <= i < |s.log| ==> s.log[i].caller in s.callers && Done(s.callers[s.log[i].caller]))
    && (forall i, j :: 0 <= i < j < |s.log| ==> s.log[i].caller != s.log[j].caller)
    && (forall p :: p in s.callers && s.callers[p].denials > 0 ==> s.callers[p].lastSeen < |callers|)
  }

  lemma {:induction false} DistinctFit(grants: seq<Grant>, callers: set<Caller>)
    requires forall i :: 0 <= i < |grants| ==> grants[i].caller in callers
    requires forall i, j :: 0 <= i < j < |grants| ==> grants[i].caller != grants[j].caller
    ensures |grants| <= |callers|
    decreases |grants|
  {
    if grants != [] {
      var last := |grants| - 1;
      DistinctFit(grants[..last], callers - {grants[last].caller});
    }
  }

  // The caller of a step that may reserve a slot has none yet.
  lemma OnceReserve(c: Config, callers: set<Caller>, s: State, p: Caller, member: Member)
    requires c.Valid() && CallingIn(s, p) && OnceInv(c, callers, s)
    ensures |s.log| < |callers|
    ensures forall i :: 0 <= i < |s.log| ==> s.log[i].caller != p
  {
    DistinctFit(s.log, callers - {p});
  }

  lemma OnceStep(c: Config, callers: set<Caller>, s: State, step: Step)
    requires c.Valid() && Enabled(s, step) && !step.Again?
    requires OnceInv(c, callers, s)
    ensures OnceInv(c, callers, Apply(c, s, step))
  {
    hide NowMs, Script, Tracks;
    match step
    case Invoke(p, member, _) => OnceReserve(c, callers, s, p, member);
    case LostReply(p, member) => OnceReserve(c, callers, s, p, member);
    case _ =>
  }

  lemma {:induction false} OnceRun(c: Config, callers: set<Caller>, steps: seq<Step>)
    requires c.Valid() && IsRun(c, Init(callers), steps) && OneAcquireEach(steps)
    ensures OnceInv(c, callers, After(c, Init(callers), steps))
    decreases |steps|
  {
    hide NowMs, Script;
    if steps != [] {
      var init := steps[..|steps| - 1];
      OnceRun(c, callers, init);
      OnceStep(c, callers, After(c, Init(callers), init), steps[|steps| - 1]);
    }
  }

  /**
    With one acquire each, a caller among n is denied at most n - maxRequests times, so its
    loop ends within n - maxRequests + 1 calls of the script (one call when everybody
    fits in the window).
  */
  lemma LoopsEnd(c: Config, callers: set<Caller>, steps: seq<Step>, s: State, p: Caller)
    requires c.Valid() && Reaches(c, callers, steps, s) && OneAcquireEach(steps) && p in callers
    ensures p in s.callers
    ensures s.callers[p].denials > 0 ==> s.callers[p].denials + c.maxRequests <= |callers|
  {
    OnceRun(c, callers, steps);
    if s.callers[p].denials > 0 {
      DenialsArePaidFor(c, s, p);
    }
  }

  /**
    A waiting caller is never stuck: from every reachable state where it sleeps, letting its
    own sleep pass and the window clear gets it a slot on its next call.
  */
  lemma SleeperCanFinish(c: Config, s: State, p: Caller, member: Member)
    requires c.Valid() && Reachable(c, s)
    requires p in s.callers && s.callers[p].pc.Sleeping? && Unused(s.log, member)
    ensures var steps := [Tick(s.callers[p].pc.until + 1000 * c.WindowMs()), Wake(p), Invoke(p, member, 0)];
            IsRun(c, s, steps) && After(c, s, steps).callers[p].pc == Returned(Some(member))
  {
    var tick := Tick(s.callers[p].pc.until + 1000 * c.WindowMs());
    OneMore(c, s, [], tick);
    assert [] + [tick] == [tick];
    var s1 := After(c, s, [tick]);
    OneMore(c, s, [tick], Wake(p));
    assert [tick] + [Wake(p)] == [tick, Wake(p)];
    var s2 := After(c, s, [tick, Wake(p)]);
    assert s2.log == s.log && s2.clock == s.clock + tick.micros && CallingIn(s2, p);
    ReachableInv(c, s);
    RunInv(c, s, [tick, Wake(p)]);
    ClearWindowGrants(c, s, s2, member);
    OneMore(c, s, [tick, Wake(p)], Invoke(p, member, 0));
    assert [tick, Wake(p)] + [Invoke(p, member, 0)] == [tick, Wake(p), Invoke(p, member, 0)];
  }

  lemma ClearWindowGrants(c: Config, s: State, t: State, member: Member)
    requires c.Valid() && Inv(c, s) && Inv(c, t) && t.log == s.log
    requires t.clock >= s.clock + 1000 * c.WindowMs()
    ensures Script(c, t.key, t.Now(), member).wait == 0
  {
    forall i | 0 <= i < |s.log| ensures s.log[i].Ms() + c.WindowMs() <= t.Now() {
      NowMsMonotone(s.log[i].at, s.clock);
      NowMsAdds(s.clock, c.WindowMs(), t.clock - s.clock - c.WindowMs() * 1000);
    }
    ScriptReply(c, t, member);
  }

  lemma OneMore(c: Config, s: State, steps: seq<Step>, step: Step)
    requires c.Valid() && IsRun(c, s, steps) && Enabled(After(c, s, steps), step)
    ensures IsRun(c, s, steps + [step]) && After(c, s, steps + [step]) == Apply(c, After(c, s, steps), step)
  {
  }

  /**
    Why members must be unique: a key whose only entry carries a reused member grants
    every further call with that member, at any time, and stays such a key.  The limit
    above therefore needs the fresh member that every `Invoke` step demands.
  */
  lemma ReusedMemberIsNeverLimited(c: Config, k: Key, now: nat, member: Member)
    requires c.Valid() && c.maxRequests >= 2
    requires |k.entries| <= 1 && forall i :: 0 <= i < |k.entries| ==> k.entries[i].member == member
    ensures var r := Script(c, k, now, member);
            r.wait == 0 && r.key.entries == [Entry(now, member)]
  {
    var seen := Visible(k, now);
    var kept := RemoveRangeByScore(seen, 0, now - c.WindowMs());
    assert kept == [] || kept == seen by {
      if seen != [] {
        assert seen == [seen[0]] && seen[1..] == [];
        assert RemoveRangeByScore(seen[1..], 0, now - c.WindowMs()) == [];
      }
    }
    assert RemoveMember(kept, member) == [] by {
      if kept != [] {
        assert kept[1..] == [];
      }
    }
  }
}
