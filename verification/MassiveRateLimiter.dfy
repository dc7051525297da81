/**
  The in-process limiter of core/market_data/providers/massive/rate_limiter.py.

  It sleeps at most once per acquire and then records the call without looking at the
  window again, so its spacing guarantee rests on the clock.  The clock never goes back and
  a sleep never ends early; the spacing needs more, namely that the clock has moved between
  a recorded call and the next acquire.
*/
module MassiveRateLimiter {
  datatype Config = Config(maxRequests: nat, windowSeconds: nat) {
    // What the constructor accepts.
    predicate Valid() { maxRequests >= 1 && windowSeconds >= 1 }

    function Window(): real { windowSeconds as real }
  }

  // The readings of the clock in one acquire, in program order: for the first eviction,
  // for the sleep time, for the eviction after the sleep, and for the record.
  datatype Reads = Reads(evict: real, check: real, wake: real, record: real)

  // ------------------------------------------------------------------
  // One acquire as a function of its clock readings
  // ------------------------------------------------------------------

  function Evict(calls: seq<real>, cutoff: real): seq<real> {
    if calls != [] && calls[0] < cutoff then Evict(calls[1..], cutoff) else calls
  }

  // What is left to count after the first eviction.
  function Counted(c: Config, calls: seq<real>, evict: real): seq<real> {
    Evict(calls, evict - c.Window())
  }

  function SleepTime(c: Config, counted: seq<real>, check: real): real
    requires counted != []
  {
    c.Window() - (check - counted[0])
  }

  // The time one acquire asks to sleep: none while the window has room.
  function Asleep(c: Config, calls: seq<real>, evict: real, check: real): real
    requires c.Valid()
  {
    var counted := Counted(c, calls, evict);
    if |counted| < c.maxRequests || SleepTime(c, counted, check) <= 0.0 then 0.0 else SleepTime(c, counted, check)
  }

  function DequeAfter(c: Config, calls: seq<real>, r: Reads): seq<real>
    requires c.Valid()
  {
    var counted := Counted(c, calls, r.evict);
    if |counted| >= c.maxRequests && SleepTime(c, counted, r.check) > 0.0 then
      Evict(counted, r.wake - c.Window()) + [r.record]
    else counted + [r.record]
  }

  // The readings one acquire can meet when the last reading was `now`, on a clock that may
  // stand still but never goes back.
  ghost predicate Readable(c: Config, calls: seq<real>, now: real, r: Reads)
    requires c.Valid()
  {
    var counted := Counted(c, calls, r.evict);
    && now <= r.evict
    && if |counted| < c.maxRequests then r.evict <= r.record
       else
         && r.evict <= r.check
         && if SleepTime(c, counted, r.check) > 0.0 then
              r.check + SleepTime(c, counted, r.check) <= r.wake <= r.record
            else r.check <= r.record
  }

  // The clock has moved since the last recorded call.
  predicate Moved(log: seq<real>, evict: real) { log != [] ==> log[|log| - 1] < evict }

  // ------------------------------------------------------------------
  // The promise and the invariant
  // ------------------------------------------------------------------

  // A new call at `at` is a window away from the call `maxRequests` before it.
  ghost predicate KeepsSpacing(c: Config, log: seq<real>, at: real)
    requires c.Valid()
  {
    |log| >= c.maxRequests ==> log[|log| - c.maxRequests] + c.windowSeconds as real <= at
  }

  ghost predicate Spaced(c: Config, log: seq<real>)
    requires c.Valid()
  {
    forall i :: 0 <= i < |log| - c.maxRequests ==> log[i] + c.windowSeconds as real <= log[i + c.maxRequests]
  }

  // The deque is the young end of the record; what left it has left the window.
  ghost predicate Tracks(c: Config, calls: seq<real>, log: seq<real>, now: real) {
    && (forall i, j :: 0 <= i < j < |log| ==> log[i] <= log[j])
    && (forall i :: 0 <= i < |log| ==> log[i] <= now)
    && |calls| <= |log|
    && calls == log[|log| - |calls|..]
    && (forall i :: 0 <= i < |log| - |calls| ==> log[i] + c.Window() < now)
  }

  // The deque holds at most one call too many, and such a call has already expired.
  ghost predicate Inv(c: Config, calls: seq<real>, log: seq<real>, now: real)
    requires c.Valid()
  {
    && Tracks(c, calls, log, now)
    && Spaced(c, log)
    && |calls| <= c.maxRequests + 1
    && (|calls| == c.maxRequests + 1 ==> calls[0] + c.Window() <= log[|log| - 1])
  }

  lemma {:induction false} EvictIsSuffix(calls: seq<real>, cutoff: real) returns (cut: nat)
    ensures cut <= |calls| && Evict(calls, cutoff) == calls[cut..]
    ensures forall i :: 0 <= i < cut ==> calls[i] < cutoff
    ensures cut < |calls| ==> calls[cut] >= cutoff
  {
    if calls != [] && calls[0] < cutoff {
      cut := EvictIsSuffix(calls[1..], cutoff);
      cut := cut + 1;
    } else {
      cut := 0;
    }
  }

  // Eviction at a later time keeps the deque the young end of the record.
  lemma EvictTracks(c: Config, calls: seq<real>, log: seq<real>, now: real, at: real)
    requires c.Valid() && Tracks(c, calls, log, now) && now <= at
    ensures Tracks(c, Evict(calls, at - c.Window()), log, at)
    ensures |Evict(calls, at - c.Window())| <= |calls|
    ensures calls != [] && calls[0] + c.Window() < at ==> |Evict(calls, at - c.Window())| < |calls|
  {
    var cut := EvictIsSuffix(calls, at - c.Window());
    var gone := |log| - |calls|;
    assert calls[cut..] == log[gone + cut..];
    forall i | gone <= i < gone + cut ensures log[i] + c.Window() < at {
      assert log[i] == calls[i - gone];
    }
  }

  lemma RecordTracks(c: Config, calls: seq<real>, log: seq<real>, now: real, at: real)
    requires Tracks(c, calls, log, now) && now <= at
    ensures Tracks(c, calls + [at], log + [at], at)
  {
  }

  // The call `maxRequests` ago has left the deque or is its head.
  lemma SpacingFromTracks(c: Config, counted: seq<real>, log: seq<real>, r: Reads)
    requires c.Valid() && Tracks(c, counted, log, r.evict) && |counted| <= c.maxRequests <= |log|
    requires r.evict <= r.record
    requires |counted| == c.maxRequests ==> counted[0] + c.Window() <= r.record
    ensures KeepsSpacing(c, log, r.record)
  {
  }

  // Whatever the clock, an acquire leaves a deque that tracks the record.
  lemma AcquireTracks(c: Config, calls: seq<real>, log: seq<real>, now: real, r: Reads)
    requires c.Valid() && Tracks(c, calls, log, now) && Readable(c, calls, now, r)
    ensures Tracks(c, DequeAfter(c, calls, r), log + [r.record], r.record)
  {
    hide Evict, Tracks;
    var counted := Counted(c, calls, r.evict);
    EvictTracks(c, calls, log, now, r.evict);
    if |counted| >= c.maxRequests && SleepTime(c, counted, r.check) > 0.0 {
      EvictTracks(c, counted, log, r.evict, r.wake);
      RecordTracks(c, Evict(counted, r.wake - c.Window()), log, r.wake, r.record);
    } else {
      RecordTracks(c, counted, log, r.evict, r.record);
    }
  }

  // Whatever the clock, an acquire that counts at most `maxRequests` calls keeps the spacing.
  lemma FewCountedAreSpaced(c: Config, calls: seq<real>, log: seq<real>, now: real, r: Reads)
    requires c.Valid() && Tracks(c, calls, log, now) && Readable(c, calls, now, r)
    requires |Counted(c, calls, r.evict)| <= c.maxRequests
    ensures KeepsSpacing(c, log, r.record)
  {
    hide Evict, Tracks;
    EvictTracks(c, calls, log, now, r.evict);
    if c.maxRequests <= |log| {
      SpacingFromTracks(c, Counted(c, calls, r.evict), log, r);
    }
  }

  lemma SpacedGrowsIff(c: Config, log: seq<real>, at: real)
    requires c.Valid() && Spaced(c, log)
    ensures Spaced(c, log + [at]) <==> KeepsSpacing(c, log, at)
  {
    if Spaced(c, log + [at]) && |log| >= c.maxRequests {
      var i := |log| - c.maxRequests;
      assert (log + [at])[i] + c.Window() <= (log + [at])[i + c.maxRequests];
    }
  }

  // A clock that has moved is past an extra head call at the next eviction.
  lemma MovedEvictionFits(c: Config, calls: seq<real>, log: seq<real>, now: real, evict: real)
    requires c.Valid() && Inv(c, calls, log, now) && now <= evict && Moved(log, evict)
    ensures |Counted(c, calls, evict)| <= c.maxRequests
    ensures Tracks(c, Counted(c, calls, evict), log, evict)
  {
    EvictTracks(c, calls, log, now, evict);
  }

  lemma MovedAcquireFits(c: Config, calls: seq<real>, log: seq<real>, now: real, r: Reads)
    requires c.Valid() && Inv(c, calls, log, now) && Readable(c, calls, now, r) && Moved(log, r.evict)
    ensures var after := DequeAfter(c, calls, r);
            && |after| <= c.maxRequests + 1
            && (|after| == c.maxRequests + 1 ==> after[0] + c.Window() <= r.record)
  {
    hide Inv, Evict, Tracks;
    MovedEvictionFits(c, calls, log, now, r.evict);
    var counted := Counted(c, calls, r.evict);
    if |counted| >= c.maxRequests && SleepTime(c, counted, r.check) > 0.0 {
      var cut := EvictIsSuffix(counted, r.wake - c.Window());
      assert cut == 0 ==> Evict(counted, r.wake - c.Window())[0] == counted[0];
    }
  }

  // When the clock has moved since the last call, the invariant holds after the acquire.
  lemma AcquireInv(c: Config, calls: seq<real>, log: seq<real>, now: real, r: Reads)
    requires c.Valid() && Inv(c, calls, log, now) && Readable(c, calls, now, r) && Moved(log, r.evict)
    ensures Inv(c, DequeAfter(c, calls, r), log + [r.record], r.record)
  {
    MovedEvictionFits(c, calls, log, now, r.evict);
    AcquireTracks(c, calls, log, now, r);
    FewCountedAreSpaced(c, calls, log, now, r);
    MovedAcquireFits(c, calls, log, now, r);
    SpacedGrowsIff(c, log, r.record);
  }

  /**
    An acquire sleeps exactly when it has to: it asks for no sleep unless the window counted
    at its first reading is full and still is at its second, and what it asks for is at most
    a window and ends when the oldest counted call does.
  */
  lemma SleepsOnlyWhenFull(c: Config, calls: seq<real>, log: seq<real>, now: real, r: Reads)
    requires c.Valid() && Inv(c, calls, log, now) && Readable(c, calls, now, r) && Moved(log, r.evict)
    ensures 0.0 <= Asleep(c, calls, r.evict, r.check) <= c.windowSeconds as real
    ensures Asleep(c, calls, r.evict, r.check) > 0.0 <==>
              && c.maxRequests <= |log| && c.maxRequests <= |Counted(c, calls, r.evict)|
              && r.check < log[|log| - c.maxRequests] + c.windowSeconds as real
    ensures Asleep(c, calls, r.evict, r.check) > 0.0 ==>
              r.check + Asleep(c, calls, r.evict, r.check) == log[|log| - c.maxRequests] + c.windowSeconds as real
  {
    MovedEvictionFits(c, calls, log, now, r.evict);
    var counted := Counted(c, calls, r.evict);
    if |counted| == c.maxRequests {
      assert counted[0] == log[|log| - c.maxRequests];
    }
  }

  // ------------------------------------------------------------------
  // Whole histories
  // ------------------------------------------------------------------

  ghost function Log(history: seq<Reads>): seq<real> {
    seq(|history|, i requires 0 <= i < |history| => history[i].record)
  }

  ghost function Deque(c: Config, history: seq<Reads>): seq<real>
    requires c.Valid()
  {
    if history == [] then [] else DequeAfter(c, Deque(c, history[..|history| - 1]), history[|history| - 1])
  }

  // The last recorded call, or the start.
  ghost function LastCall(start: real, history: seq<Reads>): real {
    if history == [] then start else history[|history| - 1].record
  }

  // Every acquire of the history meets readings the clock allows, from time `start` on.
  ghost predicate IsHistory(c: Config, start: real, history: seq<Reads>)
    requires c.Valid()
  {
    history == [] ||
    var init := history[..|history| - 1];
    && IsHistory(c, start, init)
    && Readable(c, Deque(c, init), LastCall(start, init), history[|history| - 1])
  }

  // Between a recorded call and the first reading of the next acquire the clock has moved.
  ghost predicate MovesBetween(history: seq<Reads>) {
    forall i :: 0 < i < |history| ==> history[i - 1].record < history[i].evict
  }

  // Whatever the clock, the deque is the sorted young end of the record.
  lemma {:induction false} HistoryTracks(c: Config, start: real, history: seq<Reads>)
    requires c.Valid() && IsHistory(c, start, history)
    ensures Tracks(c, Deque(c, history), Log(history), LastCall(start, history))
    decreases |history|
  {
    hide Readable, DequeAfter, Tracks;
    if history == [] {
      assert Tracks(c, [], [], start) by { EmptyInv(c, start); }
    } else {
      var init := history[..|history| - 1];
      HistoryTracks(c, start, init);
      AcquireTracks(c, Deque(c, init), Log(init), LastCall(start, init), history[|history| - 1]);
      assert Log(history) == Log(init) + [history[|history| - 1].record];
    }
  }

  // The reading of the last eviction of an acquire: the second one if it slept.
  ghost function LastEviction(c: Config, calls: seq<real>, r: Reads): real
    requires c.Valid()
  {
    if Asleep(c, calls, r.evict, r.check) > 0.0 then r.wake else r.evict
  }

  // The recorded calls that have not expired at `at`, from position `cut` on.
  ghost predicate Unexpired(c: Config, log: seq<real>, at: real, cut: nat) {
    && cut <= |log|
    && (forall i :: 0 <= i < cut ==> log[i] + c.windowSeconds as real < at)
    && (forall i :: cut <= i < |log| ==> log[i] + c.windowSeconds as real >= at)
  }

  lemma EvictionLeavesUnexpired(c: Config, calls: seq<real>, log: seq<real>, now: real, at: real) returns (cut: nat)
    requires c.Valid() && Tracks(c, calls, log, now) && now <= at
    ensures Unexpired(c, log, at, cut) && Evict(calls, at - c.Window()) == log[cut..]
  {
    var k := EvictIsSuffix(calls, at - c.Window());
    cut := |log| - |calls| + k;
    assert calls[k..] == log[cut..];
    forall i | 0 <= i < cut ensures log[i] + c.Window() < at {
      if i >= |log| - |calls| {
        assert log[i] == calls[i - (|log| - |calls|)];
      }
    }
    if k < |calls| {
      assert calls[k] == log[cut];
    }
  }

  /**
    What an acquire leaves in the deque, on any clock: exactly the recorded calls that had not
    expired at its last eviction, in order, and the new call.
  */
  lemma DequeIsWindow(c: Config, calls: seq<real>, log: seq<real>, now: real, r: Reads) returns (cut: nat)
    requires c.Valid() && Tracks(c, calls, log, now) && Readable(c, calls, now, r)
    ensures Unexpired(c, log, LastEviction(c, calls, r), cut)
    ensures DequeAfter(c, calls, r) == log[cut..] + [r.record]
  {
    hide Tracks, Evict, Unexpired;
    var counted := Counted(c, calls, r.evict);
    EvictTracks(c, calls, log, now, r.evict);
    if Asleep(c, calls, r.evict, r.check) > 0.0 {
      cut := EvictionLeavesUnexpired(c, counted, log, r.evict, r.wake);
    } else {
      cut := EvictionLeavesUnexpired(c, calls, log, now, r.evict);
    }
  }

  /**
    Over every history whose clock moves between a recorded call and the next acquire: calls
    `maxRequests` apart are at least a window apart, the deque is the sorted young end of the
    record, it never holds more than maxRequests + 1 calls, and an extra head call has left
    the window by the last recorded call.  Inside an acquire readings may repeat.
  */
  lemma {:induction false} HistoryIsSpaced(c: Config, start: real, history: seq<Reads>)
    requires c.Valid() && IsHistory(c, start, history) && MovesBetween(history)
    ensures Inv(c, Deque(c, history), Log(history), LastCall(start, history))
    decreases |history|
  {
    hide Inv, Readable, DequeAfter;
    if history == [] {
      assert Inv(c, [], [], start) by { EmptyInv(c, start); }
    } else {
      var init, last := history[..|history| - 1], history[|history| - 1];
      assert MovesBetween(init);
      HistoryIsSpaced(c, start, init);
      assert Moved(Log(init), last.evict);
      AcquireInv(c, Deque(c, init), Log(init), LastCall(start, init), last);
      assert Log(history) == Log(init) + [last.record];
    }
  }

  lemma EmptyInv(c: Config, start: real)
    requires c.Valid()
    ensures Inv(c, [], [], start)
  {
  }

  // ------------------------------------------------------------------
  // A clock that may stand still
  // ------------------------------------------------------------------

  // No entry of the counted deque that the new call must be spaced from is younger than
  // the head, which is the only entry the sleep looks at.
  ghost predicate HeadDecides(c: Config, counted: seq<real>)
    requires c.Valid()
  {
    |counted| <= c.maxRequests || counted[|counted| - c.maxRequests] == counted[0]
  }

  ghost predicate AlwaysSpaced(c: Config, calls: seq<real>, log: seq<real>, now: real, evict: real)
    requires c.Valid()
  {
    forall r: Reads :: r.evict == evict && Readable(c, calls, now, r) ==> KeepsSpacing(c, log, r.record)
  }

  /**
    Whatever the clock did before, an acquire keeps the spacing for every possible rest of
    its readings if and only if, after its first eviction, the head of the deque stands for
    the call `maxRequests` ago.
  */
  lemma StandingClockIsSafeIff(c: Config, calls: seq<real>, log: seq<real>, now: real, evict: real)
    requires c.Valid() && Tracks(c, calls, log, now) && now <= evict
    ensures AlwaysSpaced(c, calls, log, now, evict) <==> HeadDecides(c, Counted(c, calls, evict))
  {
    var counted := Counted(c, calls, evict);
    EvictTracks(c, calls, log, now, evict);
    if HeadDecides(c, counted) {
      forall r: Reads | r.evict == evict && Readable(c, calls, now, r)
        ensures KeepsSpacing(c, log, r.record)
      {
        if |counted| <= c.maxRequests {
          FewCountedAreSpaced(c, calls, log, now, r);
        } else {
          assert log[|log| - c.maxRequests] == counted[|counted| - c.maxRequests];
        }
      }
    } else {
      YoungEntryIsReached(c, calls, log, now, evict);
    }
  }

  // With an older head than the call to be spaced from, the sleep can end too soon.
  lemma YoungEntryIsReached(c: Config, calls: seq<real>, log: seq<real>, now: real, evict: real)
    requires c.Valid() && Tracks(c, calls, log, now) && now <= evict
    requires !HeadDecides(c, Counted(c, calls, evict))
    ensures !AlwaysSpaced(c, calls, log, now, evict)
  {
    hide Readable, KeepsSpacing, Tracks, Evict;
    EvictTracks(c, calls, log, now, evict);
    var due := Counted(c, calls, evict)[0] + c.Window();
    var r := Reads(evict, evict, due, due);
    WakesAtHeadExpiry(c, calls, now, evict);
    TooYoung(c, Counted(c, calls, evict), log, evict);
    assert Readable(c, calls, now, r) && !KeepsSpacing(c, log, r.record);
  }

  // A clock that stands still at `evict` until the sleep can read the head's expiry last.
  lemma WakesAtHeadExpiry(c: Config, calls: seq<real>, now: real, evict: real)
    requires c.Valid() && now <= evict && |Counted(c, calls, evict)| >= c.maxRequests
    ensures var due := Counted(c, calls, evict)[0] + c.Window();
            Readable(c, calls, now, Reads(evict, evict, due, due))
  {
    var cut := EvictIsSuffix(calls, evict - c.Window());
    hide Evict;
    assert Counted(c, calls, evict)[0] >= evict - c.Window();
  }

  lemma TooYoung(c: Config, counted: seq<real>, log: seq<real>, at: real)
    requires c.Valid() && Tracks(c, counted, log, at) && !HeadDecides(c, counted)
    ensures !KeepsSpacing(c, log, counted[0] + c.Window())
  {
  }

  // The call before the last `maxRequests` ones expires at this very reading, and the call
  // after it has not expired yet.
  ghost predicate Caught(c: Config, log: seq<real>, evict: real)
    requires c.Valid()
  {
    && |log| > c.maxRequests
    && log[|log| - c.maxRequests - 1] + c.windowSeconds as real == evict
    && evict < log[|log| - c.maxRequests] + c.windowSeconds as real
  }

  // On a spaced record the head of the deque matters only at one instant.
  lemma HeadDecidesIff(c: Config, calls: seq<real>, log: seq<real>, now: real, evict: real)
    requires c.Valid() && Tracks(c, calls, log, now) && Spaced(c, log) && now <= evict
    ensures HeadDecides(c, Counted(c, calls, evict)) <==> !Caught(c, log, evict)
  {
    hide Tracks, HeadDecides, Caught, Evict, Spaced;
    EvictTracks(c, calls, log, now, evict);
    var cut := EvictIsSuffix(calls, evict - c.Window());
    FreshHeadDecidesIff(c, Counted(c, calls, evict), log, evict);
  }

  lemma FreshHeadDecidesIff(c: Config, counted: seq<real>, log: seq<real>, evict: real)
    requires c.Valid() && Tracks(c, counted, log, evict) && Spaced(c, log)
    requires counted != [] ==> evict <= counted[0] + c.Window()
    ensures HeadDecides(c, counted) <==> !Caught(c, log, evict)
  {
    var n := |log|;
    if |counted| > c.maxRequests {
      var k, m := n - |counted|, n - c.maxRequests - 1;
      assert counted[0] == log[k] && counted[|counted| - c.maxRequests] == log[m + 1];
      assert log[k] + c.Window() <= log[k + c.maxRequests];
      assert log[m] + c.Window() <= log[m + c.maxRequests];
      assert log[k] <= log[m];
    }
  }

  // A spaced history stays spaced after one more acquire, however the clock reads on.
  ghost predicate StaysSpaced(c: Config, start: real, history: seq<Reads>, evict: real)
    requires c.Valid()
  {
    forall r: Reads :: r.evict == evict && IsHistory(c, start, history + [r]) ==> Spaced(c, Log(history + [r]))
  }

  /**
    The same over whole histories and by the recorded times alone: a history that is spaced
    so far stays so through the next acquire, for every possible rest of its readings, unless
    and only unless its first reading is the very instant at which the call maxRequests + 1
    ago expires and the call after that one is younger.
  */
  lemma HistoryStaysSpacedIff(c: Config, start: real, history: seq<Reads>, evict: real)
    requires c.Valid() && IsHistory(c, start, history) && Spaced(c, Log(history))
    requires LastCall(start, history) <= evict
    ensures StaysSpaced(c, start, history, evict) <==> !Caught(c, Log(history), evict)
  {
    hide Readable, Tracks, HeadDecides, Counted, DequeAfter, Deque, Spaced, KeepsSpacing, Caught;
    var calls, log, now := Deque(c, history), Log(history), LastCall(start, history);
    HistoryTracks(c, start, history);
    StandingClockIsSafeIff(c, calls, log, now, evict);
    HeadDecidesIff(c, calls, log, now, evict);
    forall r: Reads | r.evict == evict
      ensures IsHistory(c, start, history + [r]) <==> Readable(c, calls, now, r)
      ensures Spaced(c, Log(history + [r])) <==> KeepsSpacing(c, log, r.record)
    {
      assert (history + [r])[..|history|] == history;
      assert Log(history + [r]) == log + [r.record];
      SpacedGrowsIff(c, log, r.record);
    }
    if !AlwaysSpaced(c, calls, log, now, evict) {
      var r: Reads :| r.evict == evict && Readable(c, calls, now, r) && !KeepsSpacing(c, log, r.record);
      assert !Spaced(c, Log(history + [r]));
    }
  }

  // No acquire of the history starts at the one instant that can break the spacing.
  ghost predicate NeverCaught(c: Config, history: seq<Reads>)
    requires c.Valid()
  {
    forall i :: 0 <= i < |history| ==> !Caught(c, Log(history[..i]), history[i].evict)
  }

  lemma NeverCaughtPrefix(c: Config, history: seq<Reads>)
    requires c.Valid() && history != [] && NeverCaught(c, history)
    ensures NeverCaught(c, history[..|history| - 1])
    ensures !Caught(c, Log(history[..|history| - 1]), history[|history| - 1].evict)
  {
    hide Caught, Log;
    var init := history[..|history| - 1];
    forall i | 0 <= i < |init| ensures !Caught(c, Log(init[..i]), init[i].evict) {
      assert init[..i] == history[..i] && init[i] == history[i];
    }
  }

  /**
    Over every history, on any clock that does not go back: calls `maxRequests` apart are a
    window apart if no acquire starts at the very instant at which the call maxRequests + 1
    ago expires and the one after it does not.
  */
  lemma {:induction false} UncaughtHistoryIsSpaced(c: Config, start: real, history: seq<Reads>)
    requires c.Valid() && IsHistory(c, start, history) && NeverCaught(c, history)
    ensures Spaced(c, Log(history))
    decreases |history|
  {
    hide IsHistory, LastCall, Caught, NeverCaught, StaysSpaced, Spaced, Log;
    if history == [] {
      EmptyLogIsSpaced(c);
    } else {
      var init, last := history[..|history| - 1], history[|history| - 1];
      assert history == init + [last];
      HistoryPrefix(c, start, init, last);
      NeverCaughtPrefix(c, history);
      UncaughtHistoryIsSpaced(c, start, init);
      HistoryStaysSpacedIff(c, start, init, last.evict);
      StaysSpacedNext(c, start, init, last);
    }
  }

  lemma HistoryPrefix(c: Config, start: real, init: seq<Reads>, last: Reads)
    requires c.Valid() && IsHistory(c, start, init + [last])
    ensures IsHistory(c, start, init) && LastCall(start, init) <= last.evict
  {
    hide Deque;
    assert (init + [last])[..|init|] == init;
  }

  lemma EmptyLogIsSpaced(c: Config)
    requires c.Valid()
    ensures Spaced(c, Log([]))
  {
  }

  lemma StaysSpacedNext(c: Config, start: real, history: seq<Reads>, r: Reads)
    requires c.Valid() && StaysSpaced(c, start, history, r.evict)
    ensures IsHistory(c, start, history + [r]) ==> Spaced(c, Log(history + [r]))
  {
  }

  /** A clock that moves between acquires never meets that instant. */
  lemma MovingClockIsNeverCaught(c: Config, start: real, history: seq<Reads>)
    requires c.Valid() && IsHistory(c, start, history) && MovesBetween(history)
    ensures NeverCaught(c, history)
  {
    hide IsHistory, Inv;
    HistoryIsSpaced(c, start, history);
    assert Spaced(c, Log(history)) by { SpacedInStep(c, Deque(c, history), Log(history), LastCall(start, history)); }
    forall i | 0 <= i < |history| ensures !Caught(c, Log(history[..i]), history[i].evict) {
      if i > c.maxRequests {
        var m := i - c.maxRequests - 1;
        assert Log(history)[m] + c.Window() <= Log(history)[m + c.maxRequests];
        assert history[i - 1].record < history[i].evict;
      }
    }
  }

  lemma SpacedInStep(c: Config, calls: seq<real>, log: seq<real>, now: real)
    requires c.Valid() && Inv(c, calls, log, now)
    ensures Spaced(c, log)
  {
  }

  /** The spacing fails on a clock that stands still exactly when a call expires. */
  lemma FrozenClockBreaksSpacing()
    ensures var c := Config(1, 60);
            var first, later := Reads(0.0, 0.0, 0.0, 0.0), Reads(60.0, 60.0, 60.0, 60.0);
            var history := [first, later, later];
            IsHistory(c, 0.0, history) && !Spaced(c, Log(history))
  {
    var c := Config(1, 60);
    var first, later := Reads(0.0, 0.0, 0.0, 0.0), Reads(60.0, 60.0, 60.0, 60.0);
    var h1, h2, h3 := [first], [first, later], [first, later, later];
    assert h1[..0] == [] && h2[..1] == h1 && h3[..2] == h2;
    assert Deque(c, []) == [];
    assert Deque(c, h1) == [0.0];
    assert Deque(c, h2) == [0.0, 60.0];
    assert IsHistory(c, 0.0, []) && IsHistory(c, 0.0, h1) && IsHistory(c, 0.0, h2);
    assert Log(h3)[1] == 60.0 && Log(h3)[2] == 60.0;
  }

  // ------------------------------------------------------------------
  // The limiter object
  // ------------------------------------------------------------------

  /** `time.monotonic` and `time.sleep`; `slept` is the time asked of sleep. */
  class Clock {
    var now: real
    ghost var slept: real

    constructor (start: real)
      ensures now == start && slept == 0.0
    {
      now := start;
      slept := 0.0;
    }

    method Monotonic() returns (t: real)
      modifies this`now
      ensures old(now) <= t == now
    {
      var passed: real := *;
      now := now + if passed > 0.0 then passed else 0.0;
      t := now;
    }

    method Sleep(seconds: real)
      modifies this
      ensures now >= old(now) + seconds && slept == old(slept) + seconds
    {
      slept := slept + seconds;
      var late: real := *;
      now := now + seconds + if late > 0.0 then late else 0.0;
    }
  }

  class Limiter {
    const c: Config
    const clock: Clock
    var timestamps: seq<real>
    ghost var log: seq<real>

    ghost predicate Valid()
      reads this, clock
    {
      c.Valid() && Tracks(c, timestamps, log, clock.now)
    }

    // What a clock that moves between acquires keeps.
    ghost predicate InStep()
      reads this, clock
    {
      c.Valid() && Inv(c, timestamps, log, clock.now)
    }

    constructor (c: Config, clock: Clock)
      requires c.Valid()
      ensures Valid() && InStep() && this.c == c && this.clock == clock && log == []
    {
      this.c := c;
      this.clock := clock;
      timestamps := [];
      log := [];
    }

    method EvictExpired() returns (ghost at: real)
      requires c.Valid()
      modifies this`timestamps, clock`now
      ensures old(clock.now) <= at == clock.now
      ensures timestamps == Evict(old(timestamps), at - c.Window())
    {
      var now := clock.Monotonic();
      at := now;
      var cutoff := now - c.Window();
      while timestamps != [] && timestamps[0] < cutoff
        invariant Evict(timestamps, cutoff) == Evict(old(timestamps), cutoff)
        invariant clock.now == now
        decreases |timestamps|
      {
        timestamps := timestamps[1..];
      }
    }

    // Everything up to the last reading of the clock.
    method AwaitSlot() returns (ghost evict: real, ghost check: real, ghost wake: real)
      requires c.Valid()
      modifies this`timestamps, clock
      ensures forall record | clock.now <= record ::
                var r := Reads(evict, check, wake, record);
                && Readable(c, old(timestamps), old(clock.now), r)
                && DequeAfter(c, old(timestamps), r) == timestamps + [record]
      ensures clock.slept == old(clock.slept) + Asleep(c, old(timestamps), evict, check)
    {
      check, wake := 0.0, 0.0;
      evict := EvictExpired();
      if |timestamps| >= c.maxRequests {
        var oldest := timestamps[0];
        var now := clock.Monotonic();
        check := now;
        var sleepTime := c.Window() - (now - oldest);
        if sleepTime > 0.0 {
          clock.Sleep(sleepTime);
          wake := EvictExpired();
        }
      }
    }

    // One acquire adds one call to the record, at the last of the readings it met.  It keeps
    // the spacing and the bound of the deque when the clock has moved since the last call.
    method Acquire() returns (ghost r: Reads)
      requires Valid()
      modifies this`timestamps, this`log, clock
      ensures Valid()
      ensures old(InStep()) && Moved(old(log), r.evict) ==> InStep()
      ensures Readable(c, old(timestamps), old(clock.now), r)
      ensures timestamps == DequeAfter(c, old(timestamps), r)
      ensures log == old(log) + [r.record] && clock.now == r.record
      ensures clock.slept == old(clock.slept) + Asleep(c, old(timestamps), r.evict, r.check)
    {
      ghost var evict, check, wake := AwaitSlot();
      var record := clock.Monotonic();
      timestamps := timestamps + [record];
      r := Reads(evict, check, wake, record);
      AcquireTracks(c, old(timestamps), log, old(clock.now), r);
      if old(InStep()) && Moved(log, r.evict) {
        AcquireInv(c, old(timestamps), log, old(clock.now), r);
      }
      log := log + [record];
    }
  }
}
