/**
  The retry loop on the shared key against the transition system: whatever a caller's loop
  meets is a run of the system, so what every reachable state promises holds of it.
*/
module AcquireRuns {
  import opened Wrappers
  import opened RedisRateLimiter
  import opened RateLimiterRuns

  // ------------------------------------------------------------------
  // Reachability, step by step
  // ------------------------------------------------------------------

  ghost predicate RunTo(c: Config, s: State, steps: seq<Step>, t: State)
    requires c.Valid()
  {
    IsRun(c, s, steps) && After(c, s, steps) == t
  }

  ghost predicate Leads(c: Config, s: State, t: State)
    requires c.Valid()
  {
    exists steps :: RunTo(c, s, steps, t)
  }

  lemma LeadsNowhere(c: Config, s: State)
    requires c.Valid()
    ensures Leads(c, s, s)
  {
    assert RunTo(c, s, [], s);
  }

  lemma LeadsOn(c: Config, s: State, t: State, step: Step)
    requires c.Valid() && Leads(c, s, t) && Enabled(t, step)
    ensures Leads(c, s, Apply(c, t, step))
  {
    var steps :| RunTo(c, s, steps, t);
    OneMore(c, s, steps, step);
    assert RunTo(c, s, steps + [step], Apply(c, t, step));
  }

  // What a reachable state leads to is reachable.
  lemma {:induction false} LeadsToReachable(c: Config, s: State, t: State)
    requires c.Valid() && Reachable(c, s) && Leads(c, s, t)
    ensures Reachable(c, t)
  {
    var steps :| RunTo(c, s, steps, t);
    ReachableOn(c, s, steps);
  }

  lemma {:induction false} ReachableOn(c: Config, s: State, steps: seq<Step>)
    requires c.Valid() && Reachable(c, s) && IsRun(c, s, steps)
    ensures Reachable(c, After(c, s, steps))
    decreases |steps|
  {
    hide Apply, Enabled;
    if steps != [] {
      var init, step := steps[..|steps| - 1], steps[|steps| - 1];
      ReachableOn(c, s, init);
      var t := After(c, s, init);
      var callers, before :| Reaches(c, callers, before, t);
      OneMore(c, Init(callers), before, step);
      assert Reaches(c, callers, before + [step], Apply(c, t, step));
    }
  }

  // ------------------------------------------------------------------
  // What a loop can meet
  // ------------------------------------------------------------------

  // The members of the script runs in a list of passes, in order.
  ghost function VisitMembers(visits: seq<Visit>): seq<Member> {
    seq(|visits|, i requires 0 <= i < |visits| => visits[i].member)
  }

  ghost function Members(passes: seq<Pass>): seq<Member> {
    if passes == [] then []
    else
      var last := passes[|passes| - 1];
      Members(passes[..|passes| - 1]) + VisitMembers(last.others) + [last.member]
  }

  // Members are unique: none repeats, and none is on record.
  ghost predicate Fresh(log: seq<Grant>, members: seq<Member>) {
    && (forall i, j :: 0 <= i < j < |members| ==> members[i] != members[j])
    && (forall i :: 0 <= i < |members| ==> Unused(log, members[i]))
  }

  // Script runs of others at rising clocks from `from` to `to`.
  ghost predicate Between(from: nat, visits: seq<Visit>, to: nat) {
    && from <= to
    && (forall i :: 0 <= i < |visits| ==> from <= visits[i].clock <= to)
    && (forall i, j :: 0 <= i < j < |visits| ==> visits[i].clock <= visits[j].clock)
  }

  // The clock of the attempt before pass `i`, or of the start.
  ghost function ClockBefore(clock: nat, passes: seq<Pass>, i: nat): nat
    requires i <= |passes|
  {
    if i == 0 then clock else passes[i - 1].clock
  }

  // The clock never goes back, a sleep never ends early, and jitter is in its range.
  ghost predicate Timely(c: Config, k: Key, clock: nat, passes: seq<Pass>)
    requires c.Valid()
  {
    forall i :: 0 <= i < |passes| ==>
      && passes[i].jitter <= 250_000
      && Between(ClockBefore(clock, passes, i), passes[i].others, passes[i].clock)
      && (i > 0 ==>
            AttemptAt(c, k, passes, i - 1).Answered? ==>
              passes[i - 1].clock + AttemptAt(c, k, passes, i - 1).wait * 1000 + passes[i - 1].jitter
              <= passes[i].clock)
  }

  // ------------------------------------------------------------------
  // Script runs of others
  // ------------------------------------------------------------------

  // Another caller runs the script, loses the reply and starts over.
  lemma VisitLeads(c: Config, s: State, t: State, q: Caller, v: Visit) returns (u: State)
    requires c.Valid() && Leads(c, s, t)
    requires q in t.callers && t.callers[q] == FRESH && t.clock <= v.clock && Unused(t.log, v.member)
    ensures Leads(c, s, u)
    ensures u.key == Script(c, t.key, NowMs(v.clock), v.member).key && u.clock == v.clock && u.callers == t.callers
    ensures forall m :: Unused(t.log, m) && m != v.member ==> Unused(u.log, m)
  {
    hide NowMs, Script, Leads;
    var t1 := Apply(c, t, Tick(v.clock - t.clock));
    LeadsOn(c, s, t, Tick(v.clock - t.clock));
    var t2 := Apply(c, t1, LostReply(q, v.member));
    LeadsOn(c, s, t1, LostReply(q, v.member));
    u := Apply(c, t2, Again(q));
    LeadsOn(c, s, t2, Again(q));
  }

  lemma {:induction false} VisitsLead(c: Config, s: State, t: State, q: Caller, visits: seq<Visit>, to: nat)
      returns (u: State)
    requires c.Valid() && Leads(c, s, t) && q in t.callers && t.callers[q] == FRESH
    requires Between(t.clock, visits, to) && Fresh(t.log, VisitMembers(visits))
    ensures Leads(c, s, u) && u.key == AfterVisits(c, t.key, visits) && u.callers == t.callers && u.clock <= to
    ensures visits != [] ==> u.clock == visits[|visits| - 1].clock
    ensures forall m :: Unused(t.log, m) && m !in VisitMembers(visits) ==> Unused(u.log, m)
    decreases |visits|
  {
    hide NowMs, Script, Leads, Unused;
    if visits == [] {
      u := t;
    } else {
      var init, last := visits[..|visits| - 1], visits[|visits| - 1];
      assert VisitMembers(visits) == VisitMembers(init) + [last.member];
      PrefixIsFresh(t.log, VisitMembers(init), [last.member]);
      var mid := VisitsLead(c, s, t, q, init, last.clock);
      u := VisitLeads(c, s, mid, q, last);
    }
  }

  lemma PrefixIsFresh(log: seq<Grant>, a: seq<Member>, b: seq<Member>)
    requires Fresh(log, a + b)
    ensures Fresh(log, a) && Fresh(log, b) && forall m :: m in b ==> m !in a && Unused(log, m)
  {
    hide Unused;
    forall i, j | 0 <= i < j < |a| ensures a[i] != a[j] {
      assert (a + b)[i] == a[i] && (a + b)[j] == a[j];
    }
    forall i | 0 <= i < |a| ensures Unused(log, a[i]) {
      assert (a + b)[i] == a[i];
    }
    forall i, j | 0 <= i < j < |b| ensures b[i] != b[j] {
      assert (a + b)[|a| + i] == b[i] && (a + b)[|a| + j] == b[j];
    }
    forall j | 0 <= j < |b| ensures Unused(log, b[j]) && b[j] !in a {
      assert (a + b)[|a| + j] == b[j];
      forall i | 0 <= i < |a| ensures a[i] != b[j] {
        assert (a + b)[i] == a[i];
      }
    }
  }

  // ------------------------------------------------------------------
  // One pass
  // ------------------------------------------------------------------

  // The attempt itself, for a caller that is about to call.
  lemma AttemptLeads(c: Config, s: State, t: State, p: Caller, pass: Pass) returns (u: State)
    requires c.Valid() && Leads(c, s, t) && CallingIn(t, p)
    requires t.clock == pass.clock && Unused(t.log, pass.member) && pass.jitter <= 250_000
    ensures Leads(c, s, u) && u.clock == pass.clock && u.callers.Keys == t.callers.Keys
    ensures forall q :: q in t.callers && q != p ==> u.callers[q] == t.callers[q]
    ensures var reply := Script(c, t.key, NowMs(pass.clock), pass.member);
            && u.key == (if pass.fault.NotRun? then t.key else reply.key)
            && u.callers[p].pc == AfterAttempt(c, if pass.fault.NoFault? then Answered(reply.wait) else RedisError,
                                               pass.member, pass.clock, pass.jitter)
    ensures forall m :: Unused(t.log, m) && m != pass.member ==> Unused(u.log, m)
  {
    hide NowMs, Script, Leads;
    var step :=
      match pass.fault
      case NoFault => Invoke(p, pass.member, pass.jitter)
      case NotRun => Unreachable(p)
      case ReplyLost => LostReply(p, pass.member);
    u := Apply(c, t, step);
    LeadsOn(c, s, t, step);
  }

  // A caller that sleeps, or is about to call, at the clock of its next attempt.
  lemma WakesFor(c: Config, s: State, t: State, p: Caller, clock: nat) returns (u: State)
    requires c.Valid() && Leads(c, s, t) && p in t.callers && t.clock <= clock
    requires t.callers[p].pc.Calling? || (t.callers[p].pc.Sleeping? && t.callers[p].pc.until <= clock)
    ensures Leads(c, s, u) && u.key == t.key && u.log == t.log && u.clock == clock && CallingIn(u, p)
    ensures u.callers.Keys == t.callers.Keys
    ensures forall q :: q in t.callers && q != p ==> u.callers[q] == t.callers[q]
  {
    hide NowMs, Script, Leads;
    u := Apply(c, t, Tick(clock - t.clock));
    LeadsOn(c, s, t, Tick(clock - t.clock));
    if t.callers[p].pc.Sleeping? {
      LeadsOn(c, s, u, Wake(p));
      u := Apply(c, u, Wake(p));
    }
  }

  // The visits before a pass, the waking, and the attempt.
  lemma PassLeads(c: Config, s: State, t: State, p: Caller, q: Caller, pass: Pass) returns (u: State)
    requires c.Valid() && Leads(c, s, t) && p in t.callers && q in t.callers && p != q && t.callers[q] == FRESH
    requires t.callers[p].pc.Calling? || (t.callers[p].pc.Sleeping? && t.callers[p].pc.until <= pass.clock)
    requires Between(t.clock, pass.others, pass.clock) && pass.jitter <= 250_000
    requires Fresh(t.log, VisitMembers(pass.others) + [pass.member])
    ensures Leads(c, s, u) && u.clock == pass.clock && p in u.callers && q in u.callers && u.callers[q] == FRESH
    ensures var met := AfterVisits(c, t.key, pass.others);
            var reply := Script(c, met, NowMs(pass.clock), pass.member);
            && u.key == (if pass.fault.NotRun? then met else reply.key)
            && u.callers[p].pc == AfterAttempt(c, if pass.fault.NoFault? then Answered(reply.wait) else RedisError,
                                               pass.member, pass.clock, pass.jitter)
    ensures forall m :: Unused(t.log, m) && m !in VisitMembers(pass.others) && m != pass.member ==> Unused(u.log, m)
  {
    hide NowMs, Script, Leads, Unused, AfterVisits, AfterAttempt, Fresh, Between, VisitMembers;
    PrefixIsFresh(t.log, VisitMembers(pass.others), [pass.member]);
    assert pass.member in [pass.member];
    BetweenEnds(t.clock, pass.others, pass.clock);
    var met := VisitsLead(c, s, t, q, pass.others, pass.clock);
    var awake := WakesFor(c, s, met, p, pass.clock);
    u := AttemptLeads(c, s, awake, p, pass);
  }

  lemma BetweenEnds(from: nat, visits: seq<Visit>, to: nat)
    requires Between(from, visits, to)
    ensures from <= to
  {
  }

  // ------------------------------------------------------------------
  // The whole loop
  // ------------------------------------------------------------------

  /**
    The retry loop refines the transition system.  From any state in which the caller is
    about to call, with the clock never going back, sleeps never ending early and members
    unique, the first `n` passes of its loop are a run of the system: it ends with the key the
    loop leaves, and with the caller where the loop's last attempt takes it.
  */
  lemma {:induction false} AcquireIsARun(c: Config, s: State, p: Caller, q: Caller, passes: seq<Pass>, n: nat)
      returns (t: State)
    requires c.Valid() && CallingIn(s, p) && q in s.callers && p != q && s.callers[q] == FRESH
    requires 0 < n <= |passes| && Timely(c, s.key, s.clock, passes) && Fresh(s.log, Members(passes[..n]))
    requires forall i :: 0 <= i < n - 1 ==> Denied(AttemptAt(c, s.key, passes, i))
    ensures Leads(c, s, t) && t.key == KeyAfter(c, s.key, passes[..n]) && t.clock == passes[n - 1].clock
    ensures p in t.callers && q in t.callers && t.callers[q] == FRESH
    ensures t.callers[p].pc == AfterAttempt(c, AttemptAt(c, s.key, passes, n - 1), passes[n - 1].member,
                                            passes[n - 1].clock, passes[n - 1].jitter)
    ensures forall m :: Unused(s.log, m) && m !in Members(passes[..n]) ==> Unused(t.log, m)
    decreases n
  {
    hide NowMs, Script, Leads, Unused, AfterVisits, VisitMembers, Between, Fresh, Timely;
    var before, pass := s, passes[n - 1];
    assert passes[..n][..n - 1] == passes[..n - 1];
    var earlier, own := Members(passes[..n - 1]), VisitMembers(pass.others) + [pass.member];
    assert Members(passes[..n]) == earlier + own;
    PrefixIsFresh(s.log, earlier, own);
    LeadsNowhere(c, s);
    if n > 1 {
      before := AcquireIsARun(c, s, p, q, passes, n - 1);
      StaysFresh(s.log, before.log, earlier, own);
    }
    TimelyAt(c, s.key, s.clock, passes, n - 1);
    t := PassLeads(c, s, before, p, q, pass);
  }

  lemma TimelyAt(c: Config, k: Key, clock: nat, passes: seq<Pass>, i: nat)
    requires c.Valid() && Timely(c, k, clock, passes) && i < |passes|
    ensures passes[i].jitter <= 250_000
    ensures Between(ClockBefore(clock, passes, i), passes[i].others, passes[i].clock)
    ensures i > 0 && AttemptAt(c, k, passes, i - 1).Answered? ==>
              passes[i - 1].clock + AttemptAt(c, k, passes, i - 1).wait * 1000 + passes[i - 1].jitter
              <= passes[i].clock
  {
    hide Between, AttemptAt;
  }

  lemma StaysFresh(log: seq<Grant>, later: seq<Grant>, earlier: seq<Member>, own: seq<Member>)
    requires Fresh(log, own) && forall m :: m in own ==> m !in earlier
    requires forall m :: Unused(log, m) && m !in earlier ==> Unused(later, m)
    ensures Fresh(later, own)
  {
    hide Unused;
  }

  /**
    What the loop returns is paid for: started from a reachable state, an `acquire` that ends
    with a slot owns a grant on a record that is spaced as the limit says.
  */
  lemma AcquireIsMetered(c: Config, s: State, p: Caller, q: Caller, passes: seq<Pass>, n: nat)
    requires c.Valid() && Reachable(c, s) && CallingIn(s, p) && q in s.callers && p != q && s.callers[q] == FRESH
    requires 0 < n <= |passes| && Timely(c, s.key, s.clock, passes) && Fresh(s.log, Members(passes[..n]))
    requires forall i :: 0 <= i < n - 1 ==> Denied(AttemptAt(c, s.key, passes, i))
    requires AttemptAt(c, s.key, passes, n - 1) == Answered(0)
    ensures exists t: State ::
              && Reachable(c, t) && Leads(c, s, t) && t.key == KeyAfter(c, s.key, passes[..n])
              && Spaced(c, t.log) && t.clock == passes[n - 1].clock
              && exists i :: 0 <= i < |t.log| && t.log[i].caller == p && t.log[i].member == passes[n - 1].member
  {
    hide NowMs, Script, Members, KeyAfter, AttemptAt, Timely, Fresh;
    var t := AcquireIsARun(c, s, p, q, passes, n);
    LeadsToReachable(c, s, t);
    ReachableInv(c, t);
    assert OwnsSlot(c, t, p, t.callers[p]);
  }
}
