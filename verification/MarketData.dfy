/**
  The cache-aside store: db/repositories/market_data_repo.py and
  core/market_data/market_data_service.py.

  The table keeps one row per symbol, interval and timestamp and never overwrites a row.
  The provider is a fixed history: it answers a request with the bars of that history in
  the requested days.
*/
module MarketData {
  import opened Wrappers

  type Symbol = string

  datatype Interval = OneMinute | FiveMinute | FifteenMinute | ThirtyMinute | OneHour | Daily

  datatype Bar = Bar(timestamp: int, open: real, high: real, low: real, close: real, volume: int)

  // The unique constraint of the table.
  datatype Key = Key(symbol: Symbol, interval: Interval, timestamp: int)

  type Table = map<Key, Bar>

  const DAY := 86_400_000

  // Days are counted from the epoch; both ends are included.
  datatype Request = Request(symbol: Symbol, interval: Interval, startDate: int, endDate: int) {
    function From(): int { startDate * DAY }

    function To(): int { (endDate + 1) * DAY }

    predicate Covers(k: Key) {
      k.symbol == symbol && k.interval == interval && From() <= k.timestamp < To()
    }

    function KeyAt(timestamp: int): Key { Key(symbol, interval, timestamp) }
  }

  ghost predicate WellKeyed(t: Table) { forall k :: k in t ==> t[k].timestamp == k.timestamp }

  // ------------------------------------------------------------------
  // The ordered range query and insert-if-absent
  // ------------------------------------------------------------------

  // The rows of `q` with a timestamp in lo..hi, in timestamp order.
  function Scan(t: Table, q: Request, lo: int, hi: int): seq<Bar>
    decreases hi - lo
  {
    if lo >= hi then []
    else (if q.KeyAt(lo) in t then [t[q.KeyAt(lo)]] else []) + Scan(t, q, lo + 1, hi)
  }

  function Query(t: Table, q: Request): seq<Bar> { Scan(t, q, q.From(), q.To()) }

  function InsertAbsent(t: Table, q: Request, bars: seq<Bar>): Table
    decreases |bars|
  {
    if bars == [] then t
    else
      var k := q.KeyAt(bars[0].timestamp);
      InsertAbsent(if k in t then t else t[k := bars[0]], q, bars[1..])
  }

  ghost predicate InTimeOrder(bars: seq<Bar>) {
    forall i, j :: 0 <= i < j < |bars| ==> bars[i].timestamp < bars[j].timestamp
  }

  lemma {:induction false} ScanRows(t: Table, q: Request, lo: int, hi: int)
    requires WellKeyed(t)
    ensures InTimeOrder(Scan(t, q, lo, hi))
    ensures forall b :: b in Scan(t, q, lo, hi) ==>
              lo <= b.timestamp < hi && q.KeyAt(b.timestamp) in t && t[q.KeyAt(b.timestamp)] == b
    ensures forall x :: lo <= x < hi && q.KeyAt(x) in t ==> t[q.KeyAt(x)] in Scan(t, q, lo, hi)
    decreases hi - lo
  {
    if lo < hi {
      ScanRows(t, q, lo + 1, hi);
      var rest, all := Scan(t, q, lo + 1, hi), Scan(t, q, lo, hi);
      if q.KeyAt(lo) in t {
        assert all == [t[q.KeyAt(lo)]] + rest;
        forall i, j | 0 <= i < j < |all| ensures all[i].timestamp < all[j].timestamp {
          assert all[j] == rest[j - 1] && rest[j - 1] in rest;
        }
      } else {
        assert all == rest;
      }
    }
  }

  /**
    The query returns exactly the stored rows of the symbol and interval with a timestamp
    from the first day to the end of the last, in strictly rising timestamp order.
  */
  lemma QueryIsOrderedRange(t: Table, q: Request)
    requires WellKeyed(t)
    ensures InTimeOrder(Query(t, q))
    ensures forall b :: b in Query(t, q) <==> exists k :: k in t && q.Covers(k) && t[k] == b
  {
    ScanRows(t, q, q.From(), q.To());
    forall b | b in Query(t, q) ensures exists k :: k in t && q.Covers(k) && t[k] == b {
      assert q.Covers(q.KeyAt(b.timestamp));
    }
    forall b, k | k in t && q.Covers(k) && t[k] == b ensures b in Query(t, q) {
      assert k == q.KeyAt(k.timestamp);
    }
  }

  // A row of the symbol and interval, in milliseconds from the start of the first day to the
  // end of the last.
  ghost predicate InDays(k: Key, symbol: Symbol, interval: Interval, startDate: int, endDate: int) {
    k.symbol == symbol && k.interval == interval && startDate <= k.timestamp / 86_400_000 <= endDate
  }

  /** The query by days: its rows are those of the symbol and interval on the requested days, both included. */
  lemma QueryIsDayRange(t: Table, q: Request, b: Bar)
    requires WellKeyed(t)
    ensures b in Query(t, q)
            <==> exists k :: k in t && t[k] == b && InDays(k, q.symbol, q.interval, q.startDate, q.endDate)
  {
    hide Query;
    QueryIsOrderedRange(t, q);
    forall k ensures q.Covers(k) <==> InDays(k, q.symbol, q.interval, q.startDate, q.endDate) {
    }
  }

  // Rows present stay as they are; a missing key gets the first bar given for it.
  lemma {:induction false} InsertAdds(t: Table, q: Request, bars: seq<Bar>)
    requires InTimeOrder(bars)
    ensures forall k :: k in t ==> k in InsertAbsent(t, q, bars) && InsertAbsent(t, q, bars)[k] == t[k]
    ensures forall b :: b in bars ==> q.KeyAt(b.timestamp) in InsertAbsent(t, q, bars)
    ensures forall k :: k in InsertAbsent(t, q, bars) && k !in t ==>
              InsertAbsent(t, q, bars)[k] in bars && k == q.KeyAt(InsertAbsent(t, q, bars)[k].timestamp)
    decreases |bars|
  {
    if bars != [] {
      var k := q.KeyAt(bars[0].timestamp);
      InsertAdds(if k in t then t else t[k := bars[0]], q, bars[1..]);
    }
  }

  // ------------------------------------------------------------------
  // The table against the provider
  // ------------------------------------------------------------------

  ghost predicate Fetched(fetched: set<Request>, k: Key) { exists q :: q in fetched && q.Covers(k) }

  // The table holds exactly the history restricted to the union of the fetched ranges.
  ghost predicate Mirrors(history: Table, fetched: set<Request>, t: Table) {
    && (forall k :: k in t <==> k in history && Fetched(fetched, k))
    && (forall k :: k in t ==> t[k] == history[k])
  }

  // What the provider answers.
  function Answer(history: Table, q: Request): seq<Bar> { Query(history, q) }

  /** Inserting the provider's answer to a request adds that request's range to the mirror. */
  lemma InsertExtendsMirror(history: Table, fetched: set<Request>, t: Table, q: Request)
    requires WellKeyed(history) && Mirrors(history, fetched, t)
    ensures Mirrors(history, fetched + {q}, InsertAbsent(t, q, Answer(history, q)))
  {
    var bars := Answer(history, q);
    var t' := InsertAbsent(t, q, bars);
    ScanRows(history, q, q.From(), q.To());
    InsertAdds(t, q, bars);
    forall k | k in history && q.Covers(k) ensures k in t' {
      assert k == q.KeyAt(k.timestamp);
      assert history[k] in bars;
    }
    forall k ensures k in t' <==> k in history && Fetched(fetched + {q}, k) {
      FetchedGrows(fetched, q, k);
    }
  }

  lemma FetchedGrows(fetched: set<Request>, q: Request, k: Key)
    ensures Fetched(fetched + {q}, k) <==> Fetched(fetched, k) || q.Covers(k)
  {
  }

  /** The mirror is determined by the ranges alone, so racing misses commute. */
  lemma MirrorIsUnique(history: Table, fetched: set<Request>, t: Table, u: Table)
    requires Mirrors(history, fetched, t) && Mirrors(history, fetched, u)
    ensures t == u
  {
  }

  /** Two misses that both read an empty range end in the same table, whoever inserts first. */
  lemma RacingInsertsCommute(history: Table, fetched: set<Request>, t: Table, p: Request, q: Request)
    requires WellKeyed(history) && Mirrors(history, fetched, t)
    ensures InsertAbsent(InsertAbsent(t, p, Answer(history, p)), q, Answer(history, q))
            == InsertAbsent(InsertAbsent(t, q, Answer(history, q)), p, Answer(history, p))
  {
    InsertExtendsMirror(history, fetched, t, p);
    InsertExtendsMirror(history, fetched, t, q);
    InsertExtendsMirror(history, fetched + {p}, InsertAbsent(t, p, Answer(history, p)), q);
    InsertExtendsMirror(history, fetched + {q}, InsertAbsent(t, q, Answer(history, q)), p);
    assert fetched + {p} + {q} == fetched + {q} + {p};
    MirrorIsUnique(history, fetched + {p} + {q},
                   InsertAbsent(InsertAbsent(t, p, Answer(history, p)), q, Answer(history, q)),
                   InsertAbsent(InsertAbsent(t, q, Answer(history, q)), p, Answer(history, p)));
  }

  // The bars of an answer whose range has been fetched before.
  ghost function FetchedPart(fetched: set<Request>, q: Request, bars: seq<Bar>): seq<Bar> {
    if bars == [] then []
    else (if Fetched(fetched, q.KeyAt(bars[0].timestamp)) then [bars[0]] else []) + FetchedPart(fetched, q, bars[1..])
  }

  lemma {:induction false} ScanOfMirror(history: Table, fetched: set<Request>, t: Table, q: Request, lo: int, hi: int)
    requires WellKeyed(history) && Mirrors(history, fetched, t)
    ensures Scan(t, q, lo, hi) == FetchedPart(fetched, q, Scan(history, q, lo, hi))
    decreases hi - lo
  {
    if lo < hi {
      ScanOfMirror(history, fetched, t, q, lo + 1, hi);
      var k, rest := q.KeyAt(lo), Scan(history, q, lo + 1, hi);
      if k in history {
        assert Scan(history, q, lo, hi)[1..] == rest;
      } else {
        assert Scan(history, q, lo, hi) == rest;
      }
    }
  }

  lemma {:induction false} FetchedPartIsAllIff(fetched: set<Request>, q: Request, bars: seq<Bar>)
    ensures |FetchedPart(fetched, q, bars)| <= |bars|
    ensures FetchedPart(fetched, q, bars) == bars
            <==> forall b :: b in bars ==> Fetched(fetched, q.KeyAt(b.timestamp))
    decreases |bars|
  {
    if bars != [] {
      FetchedPartIsAllIff(fetched, q, bars[1..]);
      if Fetched(fetched, q.KeyAt(bars[0].timestamp)) {
        assert FetchedPart(fetched, q, bars)[1..] == FetchedPart(fetched, q, bars[1..]);
        assert bars == [bars[0]] + bars[1..];
      } else {
        assert bars[0] in bars;
      }
    }
  }

  // ------------------------------------------------------------------
  // ensure_data
  // ------------------------------------------------------------------

  datatype FetchError = RedisError | ProviderError | NoData

  // How the limiter and the provider behave in one call.
  datatype Weather = Weather(limiterUp: bool, providerUp: bool)

  datatype Ensured = Ensured(result: Result<seq<Bar>, FetchError>, table: Table, fetches: nat)

  function Ensure(history: Table, t: Table, q: Request, w: Weather): Ensured {
    var existing, series := Query(t, q), Answer(history, q);
    if existing != [] then Ensured(Ok(existing), t, 0)
    else if !w.limiterUp then Ensured(Err(RedisError), t, 0)
    else if !w.providerUp then Ensured(Err(ProviderError), t, 1)
    else if series == [] then Ensured(Err(NoData), t, 1)
    else Ensured(Ok(series), InsertAbsent(t, q, series), 1)
  }

  /**
    What a call returns and leaves behind, on a table that mirrors the provider: a hit gives
    the part of the provider's answer that was fetched before and changes nothing; a miss
    that succeeds gives the full answer and adds its range to the mirror; a failure changes
    nothing; and after any success the same query finds what was returned.
  */
  lemma EnsureMeaning(history: Table, fetched: set<Request>, t: Table, q: Request, w: Weather)
    requires WellKeyed(history) && Mirrors(history, fetched, t)
    ensures var e := Ensure(history, t, q, w);
            && (e.fetches == 0 && e.result.Ok? ==>
                  e.result.value == FetchedPart(fetched, q, Answer(history, q)) && e.table == t)
            && (e.fetches == 1 && e.result.Ok? ==>
                  e.result.value == Answer(history, q) && Mirrors(history, fetched + {q}, e.table))
            && (e.result.Err? ==> e.table == t)
            && (e.result.Ok? ==> e.result.value != [] && Query(e.table, q) == e.result.value)
  {
    ScanOfMirror(history, fetched, t, q, q.From(), q.To());
    var bars := Answer(history, q);
    if Query(t, q) == [] {
      var t' := InsertAbsent(t, q, bars);
      InsertExtendsMirror(history, fetched, t, q);
      ScanOfMirror(history, fetched + {q}, t', q, q.From(), q.To());
      OwnRangeIsFetched(history, fetched + {q}, q);
    }
  }

  /**
    When a call fails, and with which error, by what the caller can see: never while a row of
    the range is stored; otherwise on the limiter's error without a provider call, on the
    provider's error, or because the provider has no bar in the range.
  */
  lemma EnsureFailsIff(history: Table, t: Table, q: Request, w: Weather)
    requires WellKeyed(history) && WellKeyed(t)
    ensures var e := Ensure(history, t, q, w);
            var stored := exists k :: k in t && InDays(k, q.symbol, q.interval, q.startDate, q.endDate);
            var offered := exists k :: k in history && InDays(k, q.symbol, q.interval, q.startDate, q.endDate);
            && (e.result == Err(RedisError) <==> !stored && !w.limiterUp)
            && (e.result == Err(ProviderError) <==> !stored && w.limiterUp && !w.providerUp)
            && (e.result == Err(NoData) <==> !stored && w.limiterUp && w.providerUp && !offered)
            && e.fetches == (if stored || !w.limiterUp then 0 else 1)
  {
    hide Query, InsertAbsent, InDays;
    NonEmptyIff(t, q);
    NonEmptyIff(history, q);
  }

  lemma NonEmptyIff(t: Table, q: Request)
    requires WellKeyed(t)
    ensures Query(t, q) != [] <==> exists k :: k in t && InDays(k, q.symbol, q.interval, q.startDate, q.endDate)
  {
    hide Query, InDays;
    if Query(t, q) != [] {
      assert Query(t, q)[0] in Query(t, q);
      QueryIsDayRange(t, q, Query(t, q)[0]);
    }
    if k :| k in t && InDays(k, q.symbol, q.interval, q.startDate, q.endDate) {
      QueryIsDayRange(t, q, t[k]);
    }
  }

  lemma OwnRangeIsFetched(history: Table, fetched: set<Request>, q: Request)
    requires WellKeyed(history) && q in fetched
    ensures FetchedPart(fetched, q, Answer(history, q)) == Answer(history, q)
  {
    ScanRows(history, q, q.From(), q.To());
    forall b | b in Answer(history, q) ensures Fetched(fetched, q.KeyAt(b.timestamp)) {
      assert q.Covers(q.KeyAt(b.timestamp));
    }
    FetchedPartIsAllIff(fetched, q, Answer(history, q));
  }

  /**
    The bars "for the requested range" are complete, for every successful call, if and only
    if nothing of the range was stored before the call or earlier fetches cover every bar
    the provider has there.
  */
  lemma CompleteIff(history: Table, fetched: set<Request>, t: Table, q: Request, w: Weather)
    requires WellKeyed(history) && Mirrors(history, fetched, t)
    requires Ensure(history, t, q, w).result.Ok?
    ensures Ensure(history, t, q, w).result.value == Answer(history, q)
            <==> || (forall k :: k in t ==> !q.Covers(k))
                 || (forall k :: k in history && q.Covers(k) ==> Fetched(fetched, k))
  {
    EnsureMeaning(history, fetched, t, q, w);
    var bars := Answer(history, q);
    QueryIsOrderedRange(history, q);
    assert WellKeyed(t);
    QueryIsOrderedRange(t, q);
    if Query(t, q) == [] {
      forall k | k in t ensures !q.Covers(k) {
        assert t[k] !in Query(t, q);
      }
    } else {
      var b := Query(t, q)[0];
      assert b in Query(t, q);
      FetchedPartIsAllIff(fetched, q, bars);
      forall k | k in history && q.Covers(k) ensures history[k] in bars && k == q.KeyAt(history[k].timestamp) {
      }
      forall b | b in bars ensures q.KeyAt(b.timestamp) in history && q.Covers(q.KeyAt(b.timestamp)) {
        var k :| k in history && q.Covers(k) && history[k] == b;
        assert k == q.KeyAt(b.timestamp);
      }
    }
  }

  // A day of the symbol and interval that an earlier fetch asked for.
  ghost predicate DayFetched(fetched: set<Request>, q: Request, day: int) {
    exists f :: f in fetched && f.symbol == q.symbol && f.interval == q.interval && f.startDate <= day <= f.endDate
  }

  // Whatever the provider has, as far as it agrees with the table, a call that succeeds
  // returns all of it.
  ghost predicate AlwaysComplete(fetched: set<Request>, t: Table, q: Request) {
    forall history: Table, w: Weather ::
      WellKeyed(history) && Mirrors(history, fetched, t) && Ensure(history, t, q, w).result.Ok? ==>
        Ensure(history, t, q, w).result.value == Answer(history, q)
  }

  lemma DayOfKey(fetched: set<Request>, q: Request, k: Key)
    requires q.Covers(k)
    ensures q.startDate <= k.timestamp / DAY <= q.endDate
    ensures Fetched(fetched, k) <==> DayFetched(fetched, q, k.timestamp / DAY)
  {
    forall f | f in fetched
      ensures f.Covers(k) <==> f.symbol == q.symbol && f.interval == q.interval
                               && f.startDate <= k.timestamp / DAY <= f.endDate
    {
    }
  }

  // The rows of the table and one bar more, where nothing was fetched.
  lemma UnseenBarIsMissed(fetched: set<Request>, t: Table, q: Request, stored: Key, unseen: Key)
    requires WellKeyed(t) && forall k :: k in t ==> Fetched(fetched, k)
    requires stored in t && q.Covers(stored) && q.Covers(unseen) && !Fetched(fetched, unseen)
    ensures !AlwaysComplete(fetched, t, q)
  {
    hide Query;
    var history := t[unseen := Bar(unseen.timestamp, 1.0, 1.0, 1.0, 1.0, 1)];
    var up := Weather(true, true);
    assert WellKeyed(history) && Mirrors(history, fetched, t);
    QueryIsOrderedRange(t, q);
    assert t[stored] in Query(t, q);
    CompleteIff(history, fetched, t, q, up);
    assert Ensure(history, t, q, up).result.value != Answer(history, q);
  }

  /**
    The bars "for the requested range", by what the caller can know: a table that holds only
    rows of fetched days, and the requests fetched so far.  A successful call is complete,
    whatever the provider may have, if and only if no row of the range is stored or every
    day of the range has been asked for before.
  */
  lemma AlwaysCompleteIff(fetched: set<Request>, t: Table, q: Request)
    requires WellKeyed(t) && forall k :: k in t ==> Fetched(fetched, k)
    ensures AlwaysComplete(fetched, t, q)
            <==> || (forall k :: k in t ==> !q.Covers(k))
                 || (forall day :: q.startDate <= day <= q.endDate ==> DayFetched(fetched, q, day))
  {
    hide Query, Fetched, DayFetched;
    if stored :| stored in t && q.Covers(stored) {
      if day :| q.startDate <= day <= q.endDate && !DayFetched(fetched, q, day) {
        var unseen := q.KeyAt(day * DAY);
        assert unseen.timestamp / DAY == day;
        DayOfKey(fetched, q, unseen);
        UnseenBarIsMissed(fetched, t, q, stored, unseen);
      } else {
        forall k | q.Covers(k) ensures Fetched(fetched, k) {
          DayOfKey(fetched, q, k);
        }
        KnownRangeIsComplete(fetched, t, q);
      }
    } else {
      KnownRangeIsComplete(fetched, t, q);
    }
  }

  lemma KnownRangeIsComplete(fetched: set<Request>, t: Table, q: Request)
    requires (forall k :: k in t ==> !q.Covers(k)) || (forall k :: q.Covers(k) ==> Fetched(fetched, k))
    ensures AlwaysComplete(fetched, t, q)
  {
    hide Fetched, Mirrors, Ensure;
    forall history: Table, w: Weather |
      WellKeyed(history) && Mirrors(history, fetched, t) && Ensure(history, t, q, w).result.Ok?
      ensures Ensure(history, t, q, w).result.value == Answer(history, q)
    {
      CompleteIff(history, fetched, t, q, w);
    }
  }

  lemma {:induction false} EmptyTableHasNoRows(q: Request, lo: int, hi: int)
    ensures Scan(map[], q, lo, hi) == []
    decreases hi - lo
  {
    if lo < hi {
      EmptyTableHasNoRows(q, lo + 1, hi);
    }
  }

  // A provider with one bar on each of two days.
  const FIRST_DAY := Request("A", Daily, 0, 0)
  const BOTH_DAYS := Request("A", Daily, 0, 1)
  const TWO_BARS: Table := map[BOTH_DAYS.KeyAt(0) := Bar(0, 1.0, 1.0, 1.0, 1.0, 1),
                               BOTH_DAYS.KeyAt(DAY) := Bar(DAY, 2.0, 2.0, 2.0, 2.0, 2)]

  /** Asking for both days after the first one was fetched is a hit, and comes back short. */
  lemma PartlyCoveredRangeIsShort(w: Weather)
    ensures var t := Ensure(TWO_BARS, map[], FIRST_DAY, Weather(true, true)).table;
            var e := Ensure(TWO_BARS, t, BOTH_DAYS, w);
            e.result.Ok? && e.fetches == 0 && e.result.value != Answer(TWO_BARS, BOTH_DAYS)
  {
    hide Scan, InsertAbsent, FetchedPart;
    var earlier, q, history := FIRST_DAY, BOTH_DAYS, TWO_BARS;
    var up := Weather(true, true);
    var t := Ensure(history, map[], earlier, up).table;
    EmptyTableHasNoRows(earlier, earlier.From(), earlier.To());
    QueryIsOrderedRange(history, earlier);
    assert earlier.Covers(q.KeyAt(0)) && q.Covers(q.KeyAt(0)) && q.Covers(q.KeyAt(DAY));
    assert history[q.KeyAt(0)] in Answer(history, earlier);
    assert Mirrors(history, {}, map[]);
    EnsureMeaning(history, {}, map[], earlier, up);
    assert {} + {earlier} == {earlier};
    assert Mirrors(history, {earlier}, t);
    assert Fetched({earlier}, q.KeyAt(0)) && !Fetched({earlier}, q.KeyAt(DAY));
    assert WellKeyed(t) && q.KeyAt(0) in t;
    QueryIsOrderedRange(t, q);
    assert t[q.KeyAt(0)] in Query(t, q);
    CompleteIff(history, {earlier}, t, q, w);
  }

  // ------------------------------------------------------------------
  // The repository and the service
  // ------------------------------------------------------------------

  class MarketDataRepository {
    var table: Table

    constructor ()
      ensures table == map[]
    {
      table := map[];
    }

    method GetOhlcvData(q: Request) returns (series: Option<seq<Bar>>)
      ensures series == if Query(table, q) == [] then None else Some(Query(table, q))
    {
      var rows := Query(table, q);
      if rows == [] {
        return None;
      }
      return Some(rows);
    }

    method BulkInsert(q: Request, bars: seq<Bar>)
      modifies this
      ensures table == InsertAbsent(old(table), q, bars)
    {
      for i := 0 to |bars|
        invariant InsertAbsent(table, q, bars[i..]) == InsertAbsent(old(table), q, bars)
      {
        var k := q.KeyAt(bars[i].timestamp);
        assert bars[i..][1..] == bars[i + 1..];
        if k !in table {
          table := table[k := bars[i]];
        }
      }
    }
  }

  class MarketDataService {
    const repo: MarketDataRepository
    const limited: bool
    var slots: nat     // slots taken from the rate limiter
    var fetches: nat   // calls of the provider

    constructor (repo: MarketDataRepository, limited: bool)
      ensures this.repo == repo && this.limited == limited && slots == 0 && fetches == 0
    {
      this.repo := repo;
      this.limited := limited;
      slots, fetches := 0, 0;
    }

    // Every call of a limited provider takes a slot first.
    method EnsureData(ghost history: Table, provider: Request -> seq<Bar>, q: Request, w: Weather)
      returns (r: Result<seq<Bar>, FetchError>)
      requires provider(q) == Answer(history, q)
      modifies this, repo
      ensures var e := Ensure(history, old(repo.table), q, if limited then w else w.(limiterUp := true));
              r == e.result && repo.table == e.table && fetches == old(fetches) + e.fetches
      ensures slots == old(slots) + if limited then fetches - old(fetches) else 0
    {
      var existing := repo.GetOhlcvData(q);
      if existing.Some? {
        return Ok(existing.value);
      }
      if limited {
        if !w.limiterUp {
          return Err(RedisError);
        }
        slots := slots + 1;
      }
      fetches := fetches + 1;
      if !w.providerUp {
        return Err(ProviderError);
      }
      var series := provider(q);
      if series == [] {
        return Err(NoData);
      }
      repo.BulkInsert(q, series);
      return Ok(series);
    }
  }
}
