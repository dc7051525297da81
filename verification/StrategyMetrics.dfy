/**
  Trades and their metrics: core/strategies/models.py.  Prices and capital are exact
  reals; the final rounding to two places is a parameter.
*/
module StrategyMetrics {
  import opened ExactReals

  datatype Signal = Buy | Sell

  // `bar` is the position of the trade's timestamp in the price series.
  datatype Trade = Trade(bar: nat, signal: Signal, price: real) {
    // The field constraint on `price`.
    predicate Valid() { price > 0.0 }
  }

  predicate ValidTrades(trades: seq<Trade>) { forall t :: t in trades ==> t.Valid() }

  datatype RoundTrip = RoundTrip(buy: Trade, sell: Trade) {
    predicate Valid() { buy.Valid() && sell.Valid() }

    predicate Wins() { sell.price > buy.price }

    function Ratio(): (x: real)
      requires Valid()
      ensures x > 0.0
    {
      SharePositive(sell.price, buy.price);
      Share(sell.price, buy.price)
    }
  }

  predicate ValidTrips(trips: seq<RoundTrip>) { forall i :: 0 <= i < |trips| ==> trips[i].Valid() }

  datatype Metrics = Metrics(totalReturnPct: real, numTrades: nat, winRate: real, maxDrawdownPct: real,
                             endingCapital: real)
  {
    // The field constraints of BacktestMetrics.
    predicate Valid() { 0.0 <= winRate <= 100.0 && 0.0 <= maxDrawdownPct && 0.0 <= endingCapital }
  }

  const NO_METRICS := Metrics(0.0, 0, 0.0, 0.0, 0.0)

  // What is used of `round(_, 2)`: it keeps the order and fixes 0 and 100.
  ghost predicate IsRounding(round: real -> real) {
    && (forall x, y :: x <= y ==> round(x) <= round(y))
    && round(0.0) == 0.0 && round(100.0) == 100.0
  }

  function Exact(x: real): real { x }

  // ------------------------------------------------------------------
  // Definitions
  // ------------------------------------------------------------------

  // Neighbours at even positions that are a BUY followed by a SELL.
  function Pairs(trades: seq<Trade>): (trips: seq<RoundTrip>)
    ensures ValidTrades(trades) ==> ValidTrips(trips)
  {
    if |trades| < 2 then [] else PairAt(trades, 0) + Pairs(trades[2..])
  }

  function PairAt(trades: seq<Trade>, i: nat): seq<RoundTrip>
    requires i + 1 < |trades|
  {
    if trades[i].signal.Buy? && trades[i + 1].signal.Sell? then [RoundTrip(trades[i], trades[i + 1])] else []
  }

  function Wins(trips: seq<RoundTrip>): (n: nat)
    ensures n <= |trips|
  {
    if trips == [] then 0
    else Wins(trips[..|trips| - 1]) + if trips[|trips| - 1].Wins() then 1 else 0
  }

  // Growth of one unit of capital over all round trips.
  function Product(trips: seq<RoundTrip>): (x: real)
    requires ValidTrips(trips)
    ensures x > 0.0
  {
    if trips == [] then 1.0
    else
      Times(Product(trips[..|trips| - 1]), trips[|trips| - 1].Ratio())
  }

  // The equity curve: equity after the first `k` round trips.
  function Equity(capital: real, trips: seq<RoundTrip>, k: nat): (x: real)
    requires capital > 0.0 && ValidTrips(trips) && k <= |trips|
    ensures x > 0.0
  {
    Times(capital, Product(trips[..k]))
  }

  // The loss from point i to point j of the equity curve, as a share of point i.
  function Drawdown(capital: real, trips: seq<RoundTrip>, i: nat, j: nat): real
    requires capital > 0.0 && ValidTrips(trips) && i <= |trips| && j <= |trips|
  {
    1.0 - Share(Equity(capital, trips, j), Equity(capital, trips, i))
  }

  ghost predicate IsMaxDrawdown(d: real, capital: real, trips: seq<RoundTrip>)
    requires capital > 0.0 && ValidTrips(trips)
  {
    && (exists i, j :: 0 <= i <= j <= |trips| && d == Drawdown(capital, trips, i, j))
    && (forall i, j :: 0 <= i <= j <= |trips| ==> Drawdown(capital, trips, i, j) <= d)
  }

  // The running peak and the running drawdown of the one-pass computation.
  function Peak(capital: real, trips: seq<RoundTrip>, k: nat): (x: real)
    requires capital > 0.0 && ValidTrips(trips) && k <= |trips|
    ensures x > 0.0
  {
    if k == 0 then capital else Max(Peak(capital, trips, k - 1), Equity(capital, trips, k))
  }

  function RunningDrawdown(capital: real, trips: seq<RoundTrip>, k: nat): real
    requires capital > 0.0 && ValidTrips(trips) && k <= |trips|
  {
    if k == 0 then 0.0
    else
      var peak := Peak(capital, trips, k);
      Max(RunningDrawdown(capital, trips, k - 1), (peak - Equity(capital, trips, k)) / peak)
  }

  function MetricsOf(trades: seq<Trade>, capital: real, round: real -> real): Metrics
    requires ValidTrades(trades) && capital > 0.0
  {
    var trips := Pairs(trades);
    if trips == [] then NO_METRICS
    else
      var equity := Equity(capital, trips, |trips|);
      Metrics(round((equity - capital) / capital * 100.0), |trips|,
              round(Wins(trips) as real / |trips| as real * 100.0),
              round(RunningDrawdown(capital, trips, |trips|) * 100.0), round(equity))
  }

  // ------------------------------------------------------------------
  // The equity curve
  // ------------------------------------------------------------------

  lemma EquityStart(capital: real, trips: seq<RoundTrip>)
    requires capital > 0.0 && ValidTrips(trips)
    ensures Equity(capital, trips, 0) == capital
  {
  }

  lemma EquityStep(capital: real, trips: seq<RoundTrip>, k: nat)
    requires capital > 0.0 && ValidTrips(trips) && k < |trips|
    ensures Equity(capital, trips, k + 1) == Times(Equity(capital, trips, k), trips[k].Ratio())
  {
    assert trips[..k + 1][..k] == trips[..k];
    Associates(capital, Product(trips[..k]), trips[k].Ratio());
  }

  // A trip loses exactly when the curve falls.
  lemma TripMovesCurve(capital: real, trips: seq<RoundTrip>, k: nat)
    requires capital > 0.0 && ValidTrips(trips) && k < |trips|
    ensures Equity(capital, trips, k + 1) >= Equity(capital, trips, k)
            <==> trips[k].sell.price >= trips[k].buy.price
  {
    EquityStep(capital, trips, k);
    GrowthOrder(Equity(capital, trips, k), trips[k].sell.price, trips[k].buy.price);
  }

  // The running peak is the highest point so far.
  lemma {:induction false} PeakIsHighest(capital: real, trips: seq<RoundTrip>, k: nat) returns (top: nat)
    requires capital > 0.0 && ValidTrips(trips) && k <= |trips|
    ensures top <= k && Peak(capital, trips, k) == Equity(capital, trips, top)
    ensures forall i :: 0 <= i <= k ==> Equity(capital, trips, i) <= Peak(capital, trips, k)
  {
    if k == 0 {
      top := 0;
    } else {
      top := PeakIsHighest(capital, trips, k - 1);
      if Peak(capital, trips, k) != Peak(capital, trips, k - 1) {
        top := k;
      }
    }
  }

  // The running drawdown is the largest drawdown among the first `k` points.
  lemma {:induction false} RunningIsLargest(capital: real, trips: seq<RoundTrip>, k: nat) returns (i: nat, j: nat)
    requires capital > 0.0 && ValidTrips(trips) && k <= |trips|
    ensures i <= j <= k && RunningDrawdown(capital, trips, k) == Drawdown(capital, trips, i, j)
    ensures forall a, b :: 0 <= a <= b <= k ==>
              Drawdown(capital, trips, a, b) <= RunningDrawdown(capital, trips, k)
  {
    hide Equity, Share;
    if k == 0 {
      i, j := 0, 0;
      ShareOfItself(Equity(capital, trips, 0));
    } else {
      i, j := RunningIsLargest(capital, trips, k - 1);
      var top := PeakIsHighest(capital, trips, k);
      var peak, last := Peak(capital, trips, k), Equity(capital, trips, k);
      ShareLost(peak, last);
      forall a | 0 <= a <= k ensures Drawdown(capital, trips, a, k) <= 1.0 - Share(last, peak) {
        SmallerShare(last, peak, Equity(capital, trips, a));
      }
      if RunningDrawdown(capital, trips, k) != RunningDrawdown(capital, trips, k - 1) {
        i, j := top, k;
      }
    }
  }

  // ------------------------------------------------------------------
  // What the metrics mean
  // ------------------------------------------------------------------

  /**
    The one-pass drawdown is the largest drop between any two points of the equity curve,
    earlier to later; it lies in [0, 1); and it is zero exactly when no round trip loses.
  */
  lemma DrawdownIsLargestDrop(capital: real, trips: seq<RoundTrip>)
    requires capital > 0.0 && ValidTrips(trips)
    ensures IsMaxDrawdown(RunningDrawdown(capital, trips, |trips|), capital, trips)
    ensures 0.0 <= RunningDrawdown(capital, trips, |trips|) < 1.0
    ensures RunningDrawdown(capital, trips, |trips|) == 0.0
            <==> forall k :: 0 <= k < |trips| ==> trips[k].sell.price >= trips[k].buy.price
  {
    hide Equity, Share, RunningDrawdown;
    var n, d := |trips|, RunningDrawdown(capital, trips, |trips|);
    var i, j := RunningIsLargest(capital, trips, n);
    SharePositive(Equity(capital, trips, j), Equity(capital, trips, i));
    ShareOfItself(Equity(capital, trips, 0));
    assert Drawdown(capital, trips, 0, 0) <= d;
    forall k | 0 <= k < n && d == 0.0 ensures trips[k].sell.price >= trips[k].buy.price {
      assert Drawdown(capital, trips, k, k + 1) <= 0.0;
      RisesIffNoDrawdown(capital, trips, k, k + 1);
      TripMovesCurve(capital, trips, k);
    }
    if forall k :: 0 <= k < n ==> trips[k].sell.price >= trips[k].buy.price {
      CurveRises(capital, trips, i, j);
      RisesIffNoDrawdown(capital, trips, i, j);
    }
  }

  lemma RisesIffNoDrawdown(capital: real, trips: seq<RoundTrip>, i: nat, j: nat)
    requires capital > 0.0 && ValidTrips(trips) && i <= j <= |trips|
    ensures Equity(capital, trips, i) <= Equity(capital, trips, j) <==> Drawdown(capital, trips, i, j) <= 0.0
  {
    hide Equity, Share;
    ShareOfItself(Equity(capital, trips, i));
    ShareOrder(Equity(capital, trips, i), Equity(capital, trips, j), Equity(capital, trips, i));
  }

  lemma {:induction false} CurveRises(capital: real, trips: seq<RoundTrip>, i: nat, j: nat)
    requires capital > 0.0 && ValidTrips(trips) && i <= j <= |trips|
    requires forall k :: 0 <= k < |trips| ==> trips[k].sell.price >= trips[k].buy.price
    ensures Equity(capital, trips, i) <= Equity(capital, trips, j)
    decreases j
  {
    if i < j {
      CurveRises(capital, trips, i, j - 1);
      TripMovesCurve(capital, trips, j - 1);
    }
  }

  // A drawdown does not depend on the capital the curve starts from.
  lemma DrawdownIgnoresCapital(a: real, b: real, trips: seq<RoundTrip>)
    requires a > 0.0 && b > 0.0 && ValidTrips(trips)
    ensures RunningDrawdown(a, trips, |trips|) == RunningDrawdown(b, trips, |trips|)
  {
    forall i, j | 0 <= i <= j <= |trips| ensures Drawdown(a, trips, i, j) == Drawdown(b, trips, i, j) {
      ScaledShare(a, Product(trips[..i]), Product(trips[..j]));
      ScaledShare(b, Product(trips[..i]), Product(trips[..j]));
    }
    var i, j := RunningIsLargest(a, trips, |trips|);
    var k, l := RunningIsLargest(b, trips, |trips|);
  }

  /**
    For any non-empty list of completed trips the unrounded figures are these: capital times
    the product of the sell/buy ratios, and a return, a win rate and a drawdown that do not
    depend on the capital; the return never falls below minus the drawdown.
  */
  lemma FiguresOfTrips(trades: seq<Trade>, capital: real, other: real)
    requires ValidTrades(trades) && capital > 0.0 && other > 0.0 && Pairs(trades) != []
    ensures MetricsOf(trades, capital, Exact).endingCapital == capital * Product(Pairs(trades))
    ensures MetricsOf(trades, capital, Exact).totalReturnPct == (Product(Pairs(trades)) - 1.0) * 100.0
    ensures MetricsOf(trades, capital, Exact).totalReturnPct >= -MetricsOf(trades, capital, Exact).maxDrawdownPct
    ensures MetricsOf(trades, other, Exact)
            == MetricsOf(trades, capital, Exact).(endingCapital := other * Product(Pairs(trades)))
  {
    hide RunningDrawdown, Share;
    var trips := Pairs(trades);
    assert trips[..|trips|] == trips;
    ReturnOfProduct(capital, Product(trips));
    ReturnOfProduct(other, Product(trips));
    DrawdownIgnoresCapital(capital, other, trips);
    ReturnAboveDrawdown(capital, trips);
  }

  /**
    The unrounded ending capital is the capital times the product of the sell/buy ratios, the
    capital itself for no trip, exactly when some trip was completed: without one the code
    reports 0.
  */
  lemma EndingCapitalIsTrueIff(trades: seq<Trade>, capital: real)
    requires ValidTrades(trades) && capital > 0.0
    ensures MetricsOf(trades, capital, Exact).endingCapital == capital * Product(Pairs(trades)) <==> Pairs(trades) != []
    ensures Pairs(trades) == [] ==> MetricsOf(trades, capital, Exact).endingCapital == 0.0
  {
    if Pairs(trades) != [] {
      FiguresOfTrips(trades, capital, capital);
    }
  }

  // The trips that sold above their price.
  ghost function Gains(trips: seq<RoundTrip>): set<nat> {
    set k: nat | k < |trips| && trips[k].sell.price > trips[k].buy.price
  }

  lemma {:induction false} WinsAreGains(trips: seq<RoundTrip>)
    ensures Wins(trips) == |Gains(trips)|
    decreases |trips|
  {
    if trips != [] {
      var last := |trips| - 1;
      var init := trips[..last];
      WinsAreGains(init);
      if trips[last].sell.price > trips[last].buy.price {
        assert Gains(trips) == Gains(init) + {last};
      } else {
        assert Gains(trips) == Gains(init);
      }
    }
  }

  lemma {:induction false} NoWinsIff(trips: seq<RoundTrip>)
    ensures Wins(trips) == 0 <==> forall k :: 0 <= k < |trips| ==> trips[k].sell.price <= trips[k].buy.price
    decreases |trips|
  {
    if trips != [] {
      var init := trips[..|trips| - 1];
      NoWinsIff(init);
      assert forall k :: 0 <= k < |init| ==> init[k] == trips[k];
    }
  }

  lemma {:induction false} AllWinsIff(trips: seq<RoundTrip>)
    ensures Wins(trips) == |trips| <==> forall k :: 0 <= k < |trips| ==> trips[k].sell.price > trips[k].buy.price
    decreases |trips|
  {
    if trips != [] {
      var init := trips[..|trips| - 1];
      AllWinsIff(init);
      assert forall k :: 0 <= k < |init| ==> init[k] == trips[k];
    }
  }

  /**
    The unrounded win rate is the percentage of trips that sold above their price: 0 exactly
    when none did, 100 exactly when all did.
  */
  lemma WinRateCountsGains(trades: seq<Trade>, capital: real)
    requires ValidTrades(trades) && capital > 0.0 && Pairs(trades) != []
    ensures var trips, rate := Pairs(trades), MetricsOf(trades, capital, Exact).winRate;
            && rate * |trips| as real == 100.0 * |Gains(trips)| as real
            && (rate == 0.0 <==> forall k :: 0 <= k < |trips| ==> trips[k].sell.price <= trips[k].buy.price)
            && (rate == 100.0 <==> forall k :: 0 <= k < |trips| ==> trips[k].sell.price > trips[k].buy.price)
  {
    hide Equity, RunningDrawdown, Pairs, Wins, Gains;
    var trips := Pairs(trades);
    var wins, n := Wins(trips) as real, |trips| as real;
    WinsAreGains(trips);
    NoWinsIff(trips);
    AllWinsIff(trips);
    Quotient(wins, n);
    RateEnds(wins / n, wins, n);
  }

  lemma RateEnds(share: real, part: real, whole: real)
    requires whole > 0.0 && share * whole == part
    ensures share * 100.0 * whole == 100.0 * part
    ensures share * 100.0 == 0.0 <==> part == 0.0
    ensures share * 100.0 == 100.0 <==> part == whole
  {
    TimesOrder(share, 1.0, whole);
    TimesOrder(1.0, share, whole);
  }

  // The loss from one point of the curve to another is the share `d` of the first.
  ghost predicate Drops(capital: real, trips: seq<RoundTrip>, i: nat, j: nat, d: real)
    requires capital > 0.0 && ValidTrips(trips) && i <= j <= |trips|
  {
    Equity(capital, trips, i) - Equity(capital, trips, j) == d * Equity(capital, trips, i)
  }

  ghost predicate DropsAtMost(capital: real, trips: seq<RoundTrip>, i: nat, j: nat, d: real)
    requires capital > 0.0 && ValidTrips(trips) && i <= j <= |trips|
  {
    Equity(capital, trips, i) - Equity(capital, trips, j) <= d * Equity(capital, trips, i)
  }

  // Trip `k` moves the curve from its buy price to its sell price.
  ghost predicate Scales(capital: real, trips: seq<RoundTrip>, k: nat)
    requires capital > 0.0 && ValidTrips(trips) && k < |trips|
  {
    Equity(capital, trips, k + 1) * trips[k].buy.price == Equity(capital, trips, k) * trips[k].sell.price
  }

  // `d` is the largest loss between two points of the curve, as a share of the earlier one.
  ghost predicate LargestDrop(capital: real, trips: seq<RoundTrip>, d: real)
    requires capital > 0.0 && ValidTrips(trips)
  {
    && (exists i: nat, j: nat :: i <= j <= |trips| && Drops(capital, trips, i, j, d))
    && (forall i: nat, j: nat :: i <= j <= |trips| ==> DropsAtMost(capital, trips, i, j, d))
  }

  lemma RunningIsLargestDrop(capital: real, trips: seq<RoundTrip>)
    requires capital > 0.0 && ValidTrips(trips)
    ensures LargestDrop(capital, trips, RunningDrawdown(capital, trips, |trips|))
  {
    hide Equity, RunningDrawdown, Drawdown, Drops, DropsAtMost;
    var d := RunningDrawdown(capital, trips, |trips|);
    DrawdownIsLargestDrop(capital, trips);
    forall i: nat, j: nat | i <= j <= |trips| ensures DropsAtMost(capital, trips, i, j, d) {
      DropIsDrawdown(capital, trips, i, j, d);
    }
    var i, j :| 0 <= i <= j <= |trips| && d == Drawdown(capital, trips, i, j);
    DropIsDrawdown(capital, trips, i, j, d);
  }

  /**
    The equity curve starts at the capital and each trip scales it by sell over buy; the
    unrounded drawdown percentage is the largest loss between two of its points, as a share
    of the earlier one.
  */
  lemma DrawdownOfCurve(trades: seq<Trade>, capital: real)
    requires ValidTrades(trades) && capital > 0.0 && Pairs(trades) != []
    ensures var trips := Pairs(trades);
            && Equity(capital, trips, 0) == capital
            && (forall k :: 0 <= k < |trips| ==> Scales(capital, trips, k))
            && LargestDrop(capital, trips, MetricsOf(trades, capital, Exact).maxDrawdownPct / 100.0)
  {
    hide Equity, RunningDrawdown, Pairs, Scales, LargestDrop;
    var trips := Pairs(trades);
    EquityStart(capital, trips);
    RunningIsLargestDrop(capital, trips);
    forall k | 0 <= k < |trips| ensures Scales(capital, trips, k) {
      TripScales(capital, trips, k);
    }
    Percent(RunningDrawdown(capital, trips, |trips|));
  }

  lemma Percent(x: real)
    ensures x * 100.0 / 100.0 == x
  {
  }

  lemma TripScales(capital: real, trips: seq<RoundTrip>, k: nat)
    requires capital > 0.0 && ValidTrips(trips) && k < |trips|
    ensures Scales(capital, trips, k)
  {
    hide Equity;
    EquityStep(capital, trips, k);
    ScaledByRatio(Equity(capital, trips, k), trips[k]);
  }

  lemma DropIsDrawdown(capital: real, trips: seq<RoundTrip>, i: nat, j: nat, d: real)
    requires capital > 0.0 && ValidTrips(trips) && i <= j <= |trips|
    ensures Drawdown(capital, trips, i, j) == d ==> Drops(capital, trips, i, j, d)
    ensures Drawdown(capital, trips, i, j) <= d ==> DropsAtMost(capital, trips, i, j, d)
  {
    hide Equity, Share;
    LossOfShare(Equity(capital, trips, i), Equity(capital, trips, j), d);
  }

  lemma ScaledByRatio(e: real, trip: RoundTrip)
    requires e > 0.0 && trip.Valid()
    ensures Times(e, trip.Ratio()) * trip.buy.price == e * trip.sell.price
  {
    var x := trip.sell.price / trip.buy.price;
    Quotient(trip.sell.price, trip.buy.price);
    assert e * x * trip.buy.price == e * (x * trip.buy.price);
  }

  lemma LossOfShare(e: real, f: real, d: real)
    requires e > 0.0
    ensures (1.0 - Share(f, e)) * e == e - f
    ensures 1.0 - Share(f, e) <= d <==> e - f <= d * e
  {
    Quotient(f, e);
    TimesOrder(1.0 - Share(f, e), d, e);
  }

  /**
    Rounding comes last: whatever it is, each reported figure of a run with trips is the
    rounded exact figure, and the count of trips is exact; without trips every figure is 0.
  */
  lemma RoundingIsLast(trades: seq<Trade>, capital: real, round: real -> real)
    requires ValidTrades(trades) && capital > 0.0
    ensures var m, exact := MetricsOf(trades, capital, round), MetricsOf(trades, capital, Exact);
            && m.numTrades == |Pairs(trades)|
            && if Pairs(trades) == [] then m == Metrics(0.0, 0, 0.0, 0.0, 0.0)
               else m == Metrics(round(exact.totalReturnPct), exact.numTrades, round(exact.winRate),
                                 round(exact.maxDrawdownPct), round(exact.endingCapital))
  {
  }

  // The return given up at the end is one of the drops the drawdown ranges over.
  lemma ReturnAboveDrawdown(capital: real, trips: seq<RoundTrip>)
    requires capital > 0.0 && ValidTrips(trips)
    ensures (Equity(capital, trips, |trips|) - capital) / capital >= -RunningDrawdown(capital, trips, |trips|)
  {
    hide Equity, Share, RunningDrawdown;
    DrawdownIsLargestDrop(capital, trips);
    EquityStart(capital, trips);
    assert Drawdown(capital, trips, 0, |trips|) <= RunningDrawdown(capital, trips, |trips|);
    ShareLost(capital, Equity(capital, trips, |trips|));
    ReturnIsLoss(capital, Equity(capital, trips, |trips|));
  }

  /** The field constraints of BacktestMetrics hold for every list of trades and any rounding. */
  lemma MetricsAreValid(trades: seq<Trade>, capital: real, round: real -> real)
    requires ValidTrades(trades) && capital > 0.0 && IsRounding(round)
    ensures MetricsOf(trades, capital, round).Valid()
  {
    var trips := Pairs(trades);
    if trips != [] {
      hide Equity, RunningDrawdown;
      DrawdownIsLargestDrop(capital, trips);
      var n := |trips| as real;
      ShareOfItself(n);
      ShareOrder(0.0, Wins(trips) as real, n);
      ShareOrder(Wins(trips) as real, n, n);
      Quotient(0.0, n);
      var share := Wins(trips) as real / n;
      assert 0.0 <= share <= 1.0;
      assert round(0.0) <= round(share * 100.0) <= round(100.0);
      assert round(0.0) <= round(RunningDrawdown(capital, trips, |trips|) * 100.0);
      assert round(0.0) <= round(Equity(capital, trips, |trips|));
    }
  }

  // A list that alternates BUY and SELL and ends with a SELL.
  ghost predicate Alternating(trades: seq<Trade>) {
    && |trades| % 2 == 0
    && forall i :: 0 <= i < |trades| ==> trades[i].signal == if i % 2 == 0 then Buy else Sell
  }

  // A BUY and the SELL after it, at an even position.
  predicate TripAt(trades: seq<Trade>, k: nat) {
    2 * k + 1 < |trades| && trades[2 * k].signal == Buy && trades[2 * k + 1].signal == Sell
  }

  function TripOf(trades: seq<Trade>, k: nat): RoundTrip
    requires TripAt(trades, k)
  {
    RoundTrip(trades[2 * k], trades[2 * k + 1])
  }

  /**
    Of any list of trades, well formed or not, the trips are exactly the neighbours at even
    positions that are a BUY followed by a SELL.
  */
  lemma {:induction false} PairsAreTrips(trades: seq<Trade>, t: RoundTrip)
    ensures t in Pairs(trades) <==> exists k: nat :: TripAt(trades, k) && t == TripOf(trades, k)
    decreases |trades|
  {
    hide TripAt, TripOf, PairAt;
    if |trades| < 2 {
      NoTrips(trades);
    } else {
      var rest := trades[2..];
      PairsAreTrips(rest, t);
      FirstTrip(trades);
      if k: nat :| TripAt(rest, k) && t == TripOf(rest, k) {
        ShiftedTrip(trades, k);
      }
      if k: nat :| TripAt(trades, k) && t == TripOf(trades, k) {
        if k > 0 {
          ShiftedTrip(trades, k - 1);
        }
      }
    }
  }

  lemma NoTrips(trades: seq<Trade>)
    requires |trades| < 2
    ensures forall k: nat :: !TripAt(trades, k)
  {
  }

  lemma FirstTrip(trades: seq<Trade>)
    requires |trades| >= 2
    ensures PairAt(trades, 0) == if TripAt(trades, 0) then [TripOf(trades, 0)] else []
  {
  }

  lemma ShiftedTrip(trades: seq<Trade>, k: nat)
    requires |trades| >= 2
    ensures TripAt(trades[2..], k) <==> TripAt(trades, k + 1)
    ensures TripAt(trades[2..], k) ==> TripOf(trades[2..], k) == TripOf(trades, k + 1)
  {
  }

  /** The trips of an even number of trades come before those of the trades after them. */
  lemma {:induction false} PairsInOrder(early: seq<Trade>, late: seq<Trade>)
    requires |early| % 2 == 0
    ensures Pairs(early + late) == Pairs(early) + Pairs(late)
    decreases |early|
  {
    hide PairAt, Pairs;
    if early == [] {
      NoTradesNoTrips();
      assert early + late == late;
    } else {
      PairsInOrder(early[2..], late);
      assert (early + late)[2..] == early[2..] + late;
      FirstPair(early + late);
      FirstPair(early);
      FirstPairOfBoth(early, late);
    }
  }

  lemma NoTradesNoTrips()
    ensures Pairs([]) == []
  {
  }

  lemma FirstPair(trades: seq<Trade>)
    requires |trades| >= 2
    ensures Pairs(trades) == PairAt(trades, 0) + Pairs(trades[2..])
  {
  }

  lemma FirstPairOfBoth(early: seq<Trade>, late: seq<Trade>)
    requires |early| >= 2
    ensures PairAt(early + late, 0) == PairAt(early, 0)
  {
  }

  /** Every trade of an alternating list is paired with its neighbour, in order. */
  lemma {:induction false} AlternatingPairsUp(trades: seq<Trade>)
    requires Alternating(trades)
    ensures |Pairs(trades)| == |trades| / 2
    ensures forall k :: 0 <= k < |trades| / 2 ==>
              Pairs(trades)[k] == RoundTrip(trades[2 * k], trades[2 * k + 1])
    decreases |trades|
  {
    if |trades| >= 2 {
      var rest := trades[2..];
      assert forall i :: 0 <= i < |rest| ==> rest[i] == trades[i + 2];
      AlternatingPairsUp(rest);
      forall k | 1 <= k < |trades| / 2
        ensures Pairs(trades)[k] == RoundTrip(trades[2 * k], trades[2 * k + 1])
      {
        assert Pairs(trades)[k] == Pairs(rest)[k - 1];
      }
    }
  }

  // ------------------------------------------------------------------
  // The computation
  // ------------------------------------------------------------------

  lemma PairsUnfold(trades: seq<Trade>, i: nat)
    requires i + 1 < |trades|
    ensures Pairs(trades[i..]) == PairAt(trades, i) + Pairs(trades[i + 2..])
  {
  }

  method CollectPairs(trades: seq<Trade>) returns (completed: seq<RoundTrip>)
    ensures completed == Pairs(trades)
  {
    hide Pairs;
    completed := [];
    var i := 0;
    while i + 1 < |trades|
      invariant i <= |trades|
      invariant completed + Pairs(trades[i..]) == Pairs(trades)
    {
      PairsUnfold(trades, i);
      assert completed + Pairs(trades[i..]) == completed + PairAt(trades, i) + Pairs(trades[i + 2..]);
      if trades[i].signal == Buy && trades[i + 1].signal == Sell {
        completed := completed + [RoundTrip(trades[i], trades[i + 1])];
      }
      i := i + 2;
    }
    ShortListHasNoPairs(trades[i..]);
  }

  lemma ShortListHasNoPairs(trades: seq<Trade>)
    requires |trades| < 2
    ensures Pairs(trades) == []
  {
  }

  method CountWins(completed: seq<RoundTrip>) returns (wins: nat)
    ensures wins == Wins(completed)
  {
    wins := 0;
    for k := 0 to |completed|
      invariant wins == Wins(completed[..k])
    {
      assert completed[..k + 1][..k] == completed[..k];
      if completed[k].sell.price > completed[k].buy.price {
        wins := wins + 1;
      }
    }
    assert completed[..|completed|] == completed;
  }

  method GrowBy(trip: RoundTrip, equity: real) returns (grown: real)
    requires trip.Valid() && equity > 0.0
    ensures grown == Times(equity, trip.Ratio())
  {
    var pnl := (trip.sell.price - trip.buy.price) / trip.buy.price;
    ProfitIsRatio(equity, trip.sell.price, trip.buy.price);
    grown := equity * (1.0 + pnl);
  }

  method FoldEquity(completed: seq<RoundTrip>, capital: real) returns (equity: real, maxDrawdown: real)
    requires ValidTrips(completed) && capital > 0.0
    ensures equity == Equity(capital, completed, |completed|)
    ensures maxDrawdown == RunningDrawdown(capital, completed, |completed|)
  {
    hide Equity, Share, Times, Product;
    equity, maxDrawdown := capital, 0.0;
    var peak := equity;
    EquityStart(capital, completed);
    for k := 0 to |completed|
      invariant equity == Equity(capital, completed, k)
      invariant peak == Peak(capital, completed, k)
      invariant maxDrawdown == RunningDrawdown(capital, completed, k)
    {
      EquityStep(capital, completed, k);
      equity := GrowBy(completed[k], equity);
      peak := Max(peak, equity);
      var drawdown := (peak - equity) / peak;
      maxDrawdown := Max(maxDrawdown, drawdown);
    }
  }

  method CalculateMetrics(trades: seq<Trade>, capital: real, round: real -> real) returns (m: Metrics)
    requires ValidTrades(trades) && capital > 0.0
    ensures m == MetricsOf(trades, capital, round)
  {
    if trades == [] {
      return NO_METRICS;
    }
    var completed := CollectPairs(trades);
    if completed == [] {
      return NO_METRICS;
    }
    var wins := CountWins(completed);
    var equity, maxDrawdown := FoldEquity(completed, capital);
    var totalReturnPct := (equity - capital) / capital * 100.0;
    m := Metrics(round(totalReturnPct), |completed|, round(wins as real / |completed| as real * 100.0),
                 round(maxDrawdown * 100.0), round(equity));
  }
}
