/**
  What `std_dev` does to the Bollinger strategy on the bands that
  core/strategies/bollinger_reversion.py takes from its library: the mean and the standard
  deviation of the trailing closes, with either divisor.

  Means and deviations are sums over the window; square roots never appear, because only
  the square of a deviation is fixed.
*/
module BandWidths {
  import opened Wrappers
  import opened ExactReals
  import opened StrategyMetrics
  import opened Bollinger

  // ------------------------------------------------------------------
  // Means and deviations
  // ------------------------------------------------------------------

  // The sum of the distances from `m`, and of their squares.
  function Dev(w: seq<real>, m: real): real { if w == [] then 0.0 else w[0] - m + Dev(w[1..], m) }

  function SumSq(w: seq<real>, m: real): (x: real)
    ensures x >= 0.0
  {
    if w == [] then 0.0 else Square(w[0] - m) + SumSq(w[1..], m)
  }

  function Mean(w: seq<real>): real
    requires w != []
  {
    Share(Dev(w, 0.0), |w| as real)
  }

  // Centre and spread are the mean and the standard deviation of a window of `length`
  // closes.  The divisor is `length` for the population, one less for the sample.
  ghost predicate StandardBands(ind: Indicator, length: nat, divisor: nat)
    requires length > 0
  {
    && Bands(ind) && divisor > 0
    && forall w: seq<real> :: |w| == length ==>
         ind.centre(w) == Mean(w) && Mul(divisor as real, Square(ind.spread(w))) == SumSq(w, Mean(w))
  }

  lemma {:induction false} Appended(u: seq<real>, v: seq<real>, m: real)
    ensures Dev(u + v, m) == Dev(u, m) + Dev(v, m) && SumSq(u + v, m) == SumSq(u, m) + SumSq(v, m)
    decreases |u|
  {
    hide Square;
    if u == [] {
      assert u + v == v;
    } else {
      Appended(u[1..], v, m);
      assert (u + v)[1..] == u[1..] + v;
    }
  }

  lemma OneClose(x: real, m: real)
    ensures Dev([x], m) == x - m && SumSq([x], m) == Square(x - m)
  {
    assert [x][1..] == [];
  }

  // Sums about another centre.
  lemma {:induction false} Recentre(w: seq<real>, b: real, m: real)
    ensures Dev(w, m) == Dev(w, b) + Mul(|w| as real, b - m)
    ensures SumSq(w, m) == SumSq(w, b) + 2.0 * Mul(b - m, Dev(w, b)) + Mul(|w| as real, Square(b - m))
    decreases |w|
  {
    hide Square, Mul;
    if w == [] {
      NoCloses(b - m);
    } else {
      Recentre(w[1..], b, m);
      RecentreOne(w[0] - b, b - m, Dev(w[1..], b), |w[1..]| as real);
    }
  }

  lemma NoCloses(d: real)
    ensures Mul(0.0, d) == Mul(0.0, Square(d)) == Mul(d, 0.0) == 0.0
  {
  }

  lemma RecentreOne(x: real, d: real, rest: real, n: real)
    ensures Mul(n + 1.0, d) == Mul(n, d) + d
    ensures Mul(n + 1.0, Square(d)) == Mul(n, Square(d)) + Square(d)
    ensures Square(x + d) + 2.0 * Mul(d, rest) == Square(x) + 2.0 * Mul(d, x + rest) + Square(d)
  {
    assert (x + d) * (x + d) == x * x + 2.0 * (d * x) + d * d;
    assert d * (x + rest) == d * x + d * rest;
  }

  lemma MeanBalances(w: seq<real>)
    requires w != []
    ensures Dev(w, Mean(w)) == 0.0
  {
    hide Square, Share, Mul;
    var n, m := |w| as real, Mean(w);
    Recentre(w, 0.0, m);
    ShareTimes(Dev(w, 0.0), n);
    NegatedFactor(n, m);
  }

  lemma NegatedFactor(n: real, x: real)
    ensures Mul(n, 0.0 - x) == -Mul(n, x) == -Mul(x, n)
  {
  }

  // ------------------------------------------------------------------
  // How far the last close can be from the mean
  // ------------------------------------------------------------------

  /**
    No close of a window is further from its mean than the deviation times the square root
    of (length - 1) times the divisor over length.
  */
  lemma LastIsWithinReach(w: seq<real>)
    requires |w| >= 2
    ensures var g := w[|w| - 1] - Mean(w);
            Mul(|w| as real, Square(g)) <= Mul((|w| - 1) as real, SumSq(w, Mean(w)))
  {
    hide Square, Mul, Mean, Dev, SumSq;
    var u, x, m := w[..|w| - 1], w[|w| - 1], Mean(w);
    var c, k := Mean(u), |u| as real;
    assert w == u + [x];
    Appended(u, [x], m);
    OneClose(x, m);
    MeanBalances(w);
    MeanBalances(u);
    Recentre(u, c, m);
    NoCloses(c - m);
    ReachArithmetic(k, c - m, x - m, SumSq(u, m));
  }

  lemma ReachArithmetic(k: real, d: real, g: real, others: real)
    requires k > 0.0 && Mul(k, d) == -g && others >= Mul(k, Square(d))
    ensures Mul(k + 1.0, Square(g)) <= Mul(k, others + Square(g))
  {
    assert k * (k * (d * d)) == (k * d) * (k * d) == g * g;
    MulOrder(k * (d * d), others, k);
    assert others * k == k * others;
    assert (k * (d * d)) * k == g * g;
    assert k * (others + g * g) == k * others + k * (g * g);
    assert (k + 1.0) * (g * g) == k * (g * g) + g * g;
  }

  // A window whose other closes balance about `b`: the last one is `t` from `b`.
  lemma LastAside(others: seq<real>, b: real, t: real)
    requires others != [] && Dev(others, b) == 0.0
    ensures var w, n := others + [b + t], |others| as real + 1.0;
            var g := b + t - Mean(w);
            Mul(n, g) == Mul(n - 1.0, t) && SumSq(w, Mean(w)) == SumSq(others, b) + Mul(t, g)
  {
    hide Square, Mul, Mean, Dev, SumSq;
    var w := others + [b + t];
    var m := Mean(w);
    Appended(others, [b + t], b);
    OneClose(b + t, b);
    MeanBalances(w);
    Recentre(w, b, m);
    AsideArithmetic(|w| as real, b - m, t);
  }

  lemma AsideArithmetic(n: real, d: real, t: real)
    requires t + Mul(n, d) == 0.0
    ensures Mul(n, t + d) == Mul(n - 1.0, t)
    ensures Square(t) + 2.0 * Mul(d, t) + Mul(n, Square(d)) == Mul(t, t + d)
  {
    assert n * (d * d) == (n * d) * d == -(t * d);
    assert n * (t + d) == n * t + n * d;
    assert t * (t + d) == t * t + t * d;
  }

  // Comparing a distance with a multiple of the deviation, without the root.
  lemma DistanceOrder(k: real, spread: real, h: real, divisor: real, total: real)
    requires k > 0.0 && spread >= 0.0 && h >= 0.0 && divisor > 0.0 && Mul(divisor, Square(spread)) == total
    ensures k * spread < h <==> Mul(Square(k), total) < Mul(divisor, Square(h))
    ensures k * spread <= h <==> Mul(Square(k), total) <= Mul(divisor, Square(h))
  {
    hide Square, Mul;
    ScaledSquare(k, spread, divisor);
    SquareOrder(k * spread, h);
    MulOrder(Square(k * spread), Square(h), divisor);
    Commutes(Square(h), divisor);
  }

  lemma ScaledSquare(k: real, spread: real, divisor: real)
    requires k > 0.0 && spread >= 0.0
    ensures k * spread >= 0.0
    ensures Mul(Square(k * spread), divisor) == Mul(Square(k), Mul(divisor, Square(spread)))
  {
    assert (k * spread) * (k * spread) == (k * k) * (spread * spread);
    assert (k * k) * (spread * spread) * divisor == (k * k) * (divisor * (spread * spread));
  }

  lemma Commutes(a: real, b: real)
    ensures Mul(a, b) == Mul(b, a)
  {
  }

  // ------------------------------------------------------------------
  // What a run does on these bands
  // ------------------------------------------------------------------

  // The `length` closes up to and including bar `i`.
  function Trailing(p: Params, s: Series, i: nat): (w: seq<real>)
    requires 1 <= p.length <= i + 1 <= |s.closes|
    ensures |w| == p.length
  {
    s.closes[i + 1 - p.length..i + 1]
  }

  // A session bar, after the first `length` ones.
  predicate InPlay(p: Params, s: Series, i: nat) {
    s.Valid() && 1 <= p.length <= i < |s.closes| && s.session[i]
  }

  // More than `k` deviations below the mean of the trailing closes.
  predicate ClosesLow(p: Params, s: Series, i: nat, divisor: nat) {
    && InPlay(p, s, i)
    && var w := Trailing(p, s, i);
       var below := Mean(w) - s.closes[i];
       below > 0.0 && Mul(Square(p.stdDev), SumSq(w, Mean(w))) < Mul(divisor as real, Square(below))
  }

  // Back at the mean, or at least `k` deviations above it.
  predicate ClosesHigh(p: Params, s: Series, i: nat, divisor: nat) {
    && InPlay(p, s, i)
    && var w := Trailing(p, s, i);
       var above := s.closes[i] - Mean(w);
       && above >= 0.0
       && (p.exitAt.Upper? ==> Mul(Square(p.stdDev), SumSq(w, Mean(w))) <= Mul(divisor as real, Square(above)))
  }

  // Some bar before `i` closed low and none since closed high.
  ghost predicate LowSince(p: Params, s: Series, i: nat, divisor: nat, j: nat) {
    j < i && ClosesLow(p, s, j, divisor) && forall m :: j < m < i ==> !ClosesHigh(p, s, m, divisor)
  }

  ghost predicate InPosition(p: Params, s: Series, i: nat, divisor: nat) {
    exists j :: LowSince(p, s, i, divisor, j)
  }

  lemma SignalsOnDeviations(ind: Indicator, p: Params, s: Series, i: nat, divisor: nat)
    requires p.Valid() && StandardBands(ind, p.length, divisor)
    ensures BuySignal(ind, p, s, i) <==> ClosesLow(p, s, i, divisor)
    ensures ExitSignal(ind, p, s, i) <==> ClosesHigh(p, s, i, divisor)
  {
    hide Square, Mul, Mean, SumSq;
    if InPlay(p, s, i) {
      var w := Window(p, s, i);
      assert w == Trailing(p, s, i);
      var distance := s.closes[i] - Mean(w);
      NonNegative(p.stdDev, ind.spread(w));
      DistanceOrder(p.stdDev, ind.spread(w), if distance < 0.0 then -distance else distance,
                    divisor as real, SumSq(w, Mean(w)));
    }
  }

  lemma NonNegative(k: real, x: real)
    requires k > 0.0 && x >= 0.0
    ensures k * x >= 0.0
  {
  }

  lemma HeldOnDeviations(ind: Indicator, p: Params, s: Series, i: nat, divisor: nat)
    requires p.Valid() && StandardBands(ind, p.length, divisor)
    ensures Held(ind, p, s, i) <==> InPosition(p, s, i, divisor)
    ensures (exists j :: OpenSince(ind, p, s, i, j)) <==> InPosition(p, s, i, divisor)
  {
    hide Held, BuySignal, ExitSignal, ClosesLow, ClosesHigh, StandardBands;
    assert Bands(ind) by { StandardIsBands(ind, p.length, divisor); }
    HeldIff(ind, p, s, i);
    forall m: nat
      ensures BuySignal(ind, p, s, m) == ClosesLow(p, s, m, divisor)
      ensures ExitSignal(ind, p, s, m) == ClosesHigh(p, s, m, divisor)
    {
      SignalsOnDeviations(ind, p, s, m, divisor);
    }
    forall j: nat ensures OpenSince(ind, p, s, i, j) <==> LowSince(p, s, i, divisor, j) {
    }
  }

  lemma StandardIsBands(ind: Indicator, length: nat, divisor: nat)
    requires length > 0 && StandardBands(ind, length, divisor)
    ensures Bands(ind)
  {
  }

  ghost predicate LastOfSession(s: Series, bar: nat) {
    && s.Valid() && bar < |s.closes| && s.session[bar]
    && forall m :: bar < m < |s.closes| ==> !s.session[m]
  }

  /**
    The signal loop on the library's bands, by means and deviations of the closes alone: a BUY
    at exactly the session bars that close low out of a position, a SELL at exactly those that
    close high in one, at the mean or at the upper band as the parameters say.
  */
  lemma LoopOnDeviations(ind: Indicator, p: Params, s: Series, bar: nat, divisor: nat)
    requires p.Valid() && s.Valid() && StandardBands(ind, p.length, divisor) && bar < |s.closes|
    ensures Trade(bar, Buy, s.closes[bar]) in SignalTrades(ind, p, s, |s.closes|)
            <==> ClosesLow(p, s, bar, divisor) && !InPosition(p, s, bar, divisor)
    ensures Trade(bar, Sell, s.closes[bar]) in SignalTrades(ind, p, s, |s.closes|)
            <==> ClosesHigh(p, s, bar, divisor) && InPosition(p, s, bar, divisor)
  {
    hide Held, BuySignal, ExitSignal, SignalTrades, ClosesLow, ClosesHigh, InPosition, StandardBands;
    StandardIsBands(ind, p.length, divisor);
    TradesAreTheSignals(ind, p, s, bar);
    SignalsOnDeviations(ind, p, s, bar, divisor);
    HeldOnDeviations(ind, p, s, bar, divisor);
  }

  /**
    What a successful run reports, by means and deviations alone: the BUYs of the loop; its
    SELLs, and one at the last session bar when the data ends in a position; nothing else.
  */
  lemma ReportOnDeviations(ind: Indicator, p: Params, s: Series, round: real -> real, t: Trade, divisor: nat)
    requires p.Valid() && s.Valid() && StandardBands(ind, p.length, divisor)
    requires RunResult(ind, p, s, round).Ok?
    ensures t in RunResult(ind, p, s, round).value.trades
            <==> && t.bar < |s.closes| && t.price == s.closes[t.bar]
                 && if t.signal.Buy?
                    then ClosesLow(p, s, t.bar, divisor) && !InPosition(p, s, t.bar, divisor)
                    else || (ClosesHigh(p, s, t.bar, divisor) && InPosition(p, s, t.bar, divisor))
                         || (LastOfSession(s, t.bar) && InPosition(p, s, |s.closes|, divisor))
  {
    hide Held, BuySignal, ExitSignal, SignalTrades, ClosesLow, ClosesHigh, InPosition, StandardBands;
    var n := |s.closes|;
    StandardIsBands(ind, p.length, divisor);
    HeldOnDeviations(ind, p, s, n, divisor);
    ForcedExitFindsBar(ind, p, s);
    LoopTradeAtClose(ind, p, s, t);
    if t.bar < n {
      LoopOnDeviations(ind, p, s, t.bar, divisor);
    }
  }

  lemma LoopTradeAtClose(ind: Indicator, p: Params, s: Series, t: Trade)
    requires s.Valid()
    ensures t in SignalTrades(ind, p, s, |s.closes|) ==> t.bar < |s.closes| && t.price == s.closes[t.bar]
  {
    hide Held, BuySignal, ExitSignal, SignalTrades;
    TradesOfBars(ind, p, s, |s.closes|, t);
  }

  /**
    When a run fails and what a successful one earns: too few rows exactly below `length`; an
    invalid price exactly when some trade would be at one; and the ending capital is the
    run's own initial capital times the product of its trips' ratios.
  */
  lemma RunOutcome(ind: Indicator, p: Params, s: Series)
    requires p.Valid() && s.Valid()
    ensures RunResult(ind, p, s, Exact) == Err(TooFewRows) <==> |s.closes| < p.length
    ensures RunResult(ind, p, s, Exact) == Err(InvalidPrice)
            <==> |s.closes| >= p.length && exists t :: t in AllTrades(ind, p, s) && t.price <= 0.0
    ensures RunResult(ind, p, s, Exact).Ok? ==>
              var report := RunResult(ind, p, s, Exact).value;
              && ValidTrades(report.trades)
              && report.metrics.endingCapital
                 == if report.trades == [] then 0.0 else p.initialCapital * Product(Pairs(report.trades))
  {
    hide AllTrades, MetricsOf, Pairs, Product, Tradeable, Alternating;
    var trades := AllTrades(ind, p, s);
    if RunResult(ind, p, s, Exact).Ok? {
      TradesAlternate(ind, p, s);
      AlternatingPairsUp(trades);
      assert |Pairs(trades)| == 0 <==> |trades| == 0 by { EvenlyMany(trades); }
      EndingCapitalIsTrueIff(trades, p.initialCapital);
    }
  }

  lemma EvenlyMany(trades: seq<Trade>)
    requires Alternating(trades)
    ensures |trades| / 2 == 0 <==> |trades| == 0
  {
  }

  // ------------------------------------------------------------------
  // When the lower band can be reached at all
  // ------------------------------------------------------------------

  // A caller's check on the parameters.
  predicate CanBuy(p: Params, divisor: nat) {
    p.stdDev * p.stdDev * p.length as real < divisor as real * (p.length as real - 1.0)
  }

  lemma CanBuyIs(p: Params, divisor: nat)
    ensures CanBuy(p, divisor)
            <==> Mul(Square(p.stdDev), p.length as real) < Mul(divisor as real, p.length as real - 1.0)
  {
  }

  ghost predicate PositiveCloses(s: Series) { forall i :: 0 <= i < |s.closes| ==> s.closes[i] > 0.0 }

  lemma TooWideNeverBuys(ind: Indicator, p: Params, s: Series, i: nat, divisor: nat)
    requires p.Valid() && StandardBands(ind, p.length, divisor) && BuySignal(ind, p, s, i)
    ensures CanBuy(p, divisor)
  {
    hide Square, Mul, Mean, SumSq, CanBuy;
    var w := Window(p, s, i);
    var h := Mean(w) - s.closes[i];
    assert w[|w| - 1] == s.closes[i];
    LastIsWithinReach(w);
    SquareOfOpposite(h);
    NonNegative(p.stdDev, ind.spread(w));
    DistanceOrder(p.stdDev, ind.spread(w), h, divisor as real, SumSq(w, Mean(w)));
    TooFar(p.stdDev, SumSq(w, Mean(w)), divisor as real, h, p.length as real);
    CanBuyIs(p, divisor);
  }

  lemma SquareOfOpposite(h: real)
    ensures Square(0.0 - h) == Square(h)
  {
  }

  lemma Rearranged(a: real, b: real, c: real)
    ensures Mul(Mul(a, b), c) == Mul(Mul(c, b), a) == Mul(Mul(a, c), b) == Mul(Mul(c, a), b)
  {
    assert a * b * c == c * b * a == a * c * b;
  }

  lemma SquarePositive(x: real)
    requires x > 0.0
    ensures Square(x) > 0.0
  {
    SquareGrows(0.0, x);
  }

  lemma TooFar(k: real, total: real, divisor: real, h: real, n: real)
    requires k > 0.0 && divisor > 0.0 && h > 0.0 && n > 1.0
    requires Mul(Square(k), total) < Mul(divisor, Square(h))
    requires Mul(n, Square(h)) <= Mul(n - 1.0, total)
    ensures Mul(Square(k), n) < Mul(divisor, n - 1.0)
  {
    hide Mul, Square;
    var kk, hh, m := Square(k), Square(h), n - 1.0;
    SquarePositive(k);
    SquarePositive(h);
    MulOrder(Mul(n, hh), Mul(m, total), kk);
    MulOrder(Mul(kk, total), Mul(divisor, hh), m);
    Rearranged(m, total, kk);
    Rearranged(n, hh, kk);
    Rearranged(divisor, hh, m);
    MulOrder(Mul(kk, n), Mul(divisor, m), hh);
  }

  function Flat(x: real, n: nat): seq<real> { seq(n, _ => x) }

  lemma {:induction false} FlatSums(x: real, n: nat)
    ensures Dev(Flat(x, n), x) == 0.0 && SumSq(Flat(x, n), x) == 0.0
    decreases n
  {
    if n > 0 {
      FlatSums(x, n - 1);
      assert Flat(x, n)[1..] == Flat(x, n - 1);
    }
  }

  const DROP := 10.0

  // After equal closes a drop is a buy signal whenever anything can be one.
  lemma DropBuys(ind: Indicator, p: Params, s: Series, i: nat, divisor: nat, base: real)
    requires p.Valid() && StandardBands(ind, p.length, divisor) && CanBuy(p, divisor)
    requires Tradeable(p, s, i) && Window(p, s, i) == Flat(base, p.length - 1) + [base - DROP]
    ensures BuySignal(ind, p, s, i)
  {
    hide Square, Mul, Mean, SumSq, Dev, Window, CanBuy;
    var w := Window(p, s, i);
    var h := Mean(w) - (base - DROP);
    LastOfWindow(p, s, i);
    FlatSums(base, p.length - 1);
    assert base + (0.0 - DROP) == base - DROP;
    LastAside(Flat(base, p.length - 1), base, 0.0 - DROP);
    CanBuyIs(p, divisor);
    DropArithmetic(p.stdDev, divisor as real, p.length as real, h);
    DistanceOrder(p.stdDev, ind.spread(w), h, divisor as real, SumSq(w, Mean(w)));
  }

  lemma LastOfWindow(p: Params, s: Series, i: nat)
    requires 1 <= p.length <= i + 1 <= |s.closes|
    ensures |Window(p, s, i)| == p.length && Window(p, s, i)[p.length - 1] == s.closes[i]
  {
  }

  lemma DropArithmetic(k: real, divisor: real, n: real, h: real)
    requires k > 0.0 && divisor > 0.0 && n > 1.0 && Mul(Square(k), n) < Mul(divisor, n - 1.0)
    requires Mul(n, 0.0 - h) == Mul(n - 1.0, 0.0 - DROP)
    ensures h > 0.0
    ensures Mul(Square(k), Mul(0.0 - DROP, 0.0 - h)) < Mul(divisor, Square(h))
  {
    hide Mul, Square;
    var kk, m := Square(k), n - 1.0;
    Opposites(n, h, m, DROP);
    MulOrder(0.0, m, DROP);
    MulOrder(0.0, h, n);
    Commutes(h, n);
    MulOrder(Mul(kk, n), Mul(divisor, m), DROP);
    Rearranged(kk, n, DROP);
    Nested(divisor, m, DROP, h, n);
    MulOrder(Mul(kk, DROP), Mul(divisor, h), n);
    Rearranged(kk, DROP, n);
    MulOrder(Mul(kk, DROP), Mul(divisor, h), h);
    Nested(kk, DROP, h, h, DROP);
    Nested(divisor, h, h, h, h);
    SquareIsMul(h);
  }

  lemma SquareIsMul(x: real)
    ensures Square(x) == Mul(x, x)
  {
  }

  lemma Opposites(n: real, h: real, m: real, t: real)
    ensures Mul(n, 0.0 - h) == Mul(m, 0.0 - t) <==> Mul(n, h) == Mul(m, t)
    ensures Mul(0.0 - t, 0.0 - h) == Mul(t, h)
  {
    assert n * (0.0 - h) == 0.0 - n * h && m * (0.0 - t) == 0.0 - m * t;
    assert (0.0 - t) * (0.0 - h) == t * h;
  }

  // Equal products stay equal under a further factor.
  lemma Nested(a: real, m: real, t: real, h: real, n: real)
    ensures Mul(Mul(a, m), t) == Mul(a, Mul(m, t))
    ensures Mul(Mul(a, h), n) == Mul(a, Mul(n, h))
  {
    assert a * m * t == a * (m * t);
    assert a * h * n == a * (n * h);
  }

  ghost predicate NeverBuys(ind: Indicator, p: Params) {
    forall s: Series, i: nat :: s.Valid() && PositiveCloses(s) ==> !BuySignal(ind, p, s, i)
  }

  /**
    On the library's bands the strategy can trade at all, on some series of positive prices,
    if and only if the square of `std_dev` times `length` is below the divisor times
    length - 1.  Valid parameters beyond that never give a single buy signal.
  */
  lemma NeverBuysIff(ind: Indicator, p: Params, divisor: nat)
    requires p.Valid() && StandardBands(ind, p.length, divisor)
    ensures NeverBuys(ind, p) <==> !CanBuy(p, divisor)
  {
    hide CanBuy, BuySignal, StandardBands;
    if CanBuy(p, divisor) {
      var s := Series(Flat(100.0, p.length) + [100.0 - DROP], seq(p.length + 1, _ => true));
      assert Window(p, s, p.length) == Flat(100.0, p.length - 1) + [100.0 - DROP];
      DropBuys(ind, p, s, p.length, divisor, 100.0);
      assert s.Valid() && PositiveCloses(s);
    } else {
      forall s: Series, i: nat ensures !BuySignal(ind, p, s, i) {
        if BuySignal(ind, p, s, i) {
          TooWideNeverBuys(ind, p, s, i, divisor);
        }
      }
    }
  }

  // ------------------------------------------------------------------
  // A larger std_dev
  // ------------------------------------------------------------------

  // On every series of positive prices, whatever the run of `p` holds that of `q` holds.
  ghost predicate NeverHoldsMore(ind: Indicator, p: Params, q: Params) {
    forall s: Series, i: nat :: s.Valid() && PositiveCloses(s) && Held(ind, p, s, i) ==> Held(ind, q, s, i)
  }

  ghost predicate Wider(wide: Params, narrow: Params) {
    narrow.Valid() && wide.Valid() && wide == narrow.(stdDev := wide.stdDev) && narrow.stdDev < wide.stdDev
  }

  lemma MiddleNeverHoldsMore(ind: Indicator, narrow: Params, wide: Params)
    requires Wider(wide, narrow) && Bands(ind) && narrow.exitAt == Middle
    ensures NeverHoldsMore(ind, wide, narrow)
  {
    hide Held;
    forall s: Series, i: nat | Held(ind, wide, s, i) ensures Held(ind, narrow, s, i) {
      WiderBandsHoldLess(ind, narrow, wide, s, i);
    }
  }

  // A position bought at bar `length` and left alone up to a last bar is still held after it
  // unless that bar gives an exit signal.
  lemma HeldUnlessExit(ind: Indicator, p: Params, s: Series, last: nat)
    requires p.Valid() && Bands(ind) && p.length < last && BuySignal(ind, p, s, p.length)
    requires forall m :: p.length < m < last ==> !ExitSignal(ind, p, s, m)
    ensures Held(ind, p, s, last + 1) <==> !ExitSignal(ind, p, s, last)
  {
    hide BuySignal, ExitSignal;
    assert OpenSince(ind, p, s, last, p.length);
    HeldIff(ind, p, s, last);
  }

  // A constant centre and a spread of one.
  const UNIT_BANDS := Indicator((w: seq<real>) => 100.0, (w: seq<real>) => 1.0)

  /**
    Over all bands: a larger `std_dev` never adds a held bar, whatever the indicator, if and
    only if the exit is at the middle band.
  */
  lemma WiderHoldsLessIff(narrow: Params, wide: Params)
    requires Wider(wide, narrow)
    ensures (forall ind: Indicator :: Bands(ind) ==> NeverHoldsMore(ind, wide, narrow)) <==> narrow.exitAt == Middle
  {
    hide NeverHoldsMore;
    if narrow.exitAt == Middle {
      forall ind: Indicator | Bands(ind) ensures NeverHoldsMore(ind, wide, narrow) {
        MiddleNeverHoldsMore(ind, narrow, wide);
      }
    } else {
      UnitBandsHoldMore(narrow, wide);
      assert Bands(UNIT_BANDS);
    }
  }

  lemma UnitBandsHoldMore(narrow: Params, wide: Params)
    requires Wider(wide, narrow) && narrow.exitAt == Upper
    ensures !NeverHoldsMore(UNIT_BANDS, wide, narrow)
  {
    hide Held;
    var n := narrow.length;
    var s := Series(Flat(100.0, n) + [100.0 - DROP, 100.0 + narrow.stdDev], seq(n + 2, _ => true));
    HeldUnlessExit(UNIT_BANDS, narrow, s, n + 1);
    HeldUnlessExit(UNIT_BANDS, wide, s, n + 1);
    assert PositiveCloses(s) && Held(UNIT_BANDS, wide, s, n + 2) && !Held(UNIT_BANDS, narrow, s, n + 2);
  }

  // After closes that balance about `base`, a close one above it is an exit at the upper band
  // exactly when the others swing little enough for the width.
  lemma ReboundExitsIff(ind: Indicator, p: Params, s: Series, i: nat, divisor: nat,
                        others: seq<real>, base: real, g: real)
    requires p.Valid() && p.exitAt == Upper && StandardBands(ind, p.length, divisor)
    requires |others| == p.length - 1 && Dev(others, base) == 0.0
    requires Tradeable(p, s, i) && Window(p, s, i) == others + [base + 1.0]
    requires Mul(p.length as real, g) == p.length as real - 1.0
    ensures ExitSignal(ind, p, s, i)
            <==> Mul(Square(p.stdDev), SumSq(others, base) + g) <= Mul(divisor as real, Square(g))
  {
    hide Square, Mul, Mean, SumSq, Dev, Window;
    var w := Window(p, s, i);
    LastOfWindow(p, s, i);
    LastAside(others, base, 1.0);
    SameFactor(p.length as real, g, base + 1.0 - Mean(w));
    assert g == base + 1.0 - Mean(w);
    DistanceOrder(p.stdDev, ind.spread(w), g, divisor as real, SumSq(w, Mean(w)));
  }

  lemma SameFactor(n: real, a: real, b: real)
    requires n > 1.0 && Mul(n, a) == n - 1.0 && Mul(n, b) == Mul(n - 1.0, 1.0)
    ensures a == b > 0.0
    ensures Mul(1.0, b) == b
  {
    MulOrder(a, b, n);
    MulOrder(0.0, b, n);
    Commutes(n, a);
    Commutes(n, b);
  }

  lemma ReboundIsReachable(kk: real, divisor: real, length: real, g: real)
    requires length > 1.0 && g > 0.0 && Mul(kk, length) < Mul(divisor, length - 1.0) && Mul(length, g) == length - 1.0
    ensures Mul(kk, g) < Mul(divisor, Square(g))
  {
    hide Square, Mul;
    Nested(divisor, g, g, g, length);
    MulOrder(kk, Mul(divisor, g), length);
    MulOrder(kk, Mul(divisor, g), g);
    SquareIsMul(g);
  }

  lemma SmallerDivisor(t: real, a: real, b: real)
    requires t > 0.0 && 0.0 < a < b
    ensures Share(t, b) < Share(t, a)
  {
    hide Mul, Share;
    ShareTimes(t, a);
    ShareTimes(t, b);
    SharePositive(t, a);
    MulOrder(a, b, Share(t, a));
    Commutes(b, Share(t, a));
    MulOrder(Share(t, b), Share(t, a), b);
  }

  // A swing for which a rebound of score between the two widths exists.
  lemma ChooseSwing(n: real, k: real, divisor: real, length: real, g: real) returns (a: real)
    requires 0.0 < n < k && divisor > 0.0 && length > 1.0
    requires Mul(Square(k), length) < Mul(divisor, length - 1.0) && Mul(length, g) == length - 1.0
    ensures a > 0.0
    ensures Mul(Square(n), 2.0 * Square(a) + g) <= Mul(divisor, Square(g)) < Mul(Square(k), 2.0 * Square(a) + g)
  {
    hide Square, Mul, Share;
    var nn, kk, target := Square(n), Square(k), Mul(divisor, Square(g));
    SquarePositive(n);
    SquareOrder(n, k);
    MulOne(length - 1.0);
    Commutes(1.0, length - 1.0);
    SameFactor(length, g, g);
    ReboundIsReachable(kk, divisor, length, g);
    MulOrder(0.0, kk, g);
    ShareTimes(target, kk);
    ShareTimes(target, nn);
    MulOrder(g, Share(target, kk), kk);
    Commutes(g, kk);
    SmallerDivisor(target, nn, kk);
    var x, y := Share(target, kk), Share(target, nn);
    a := SquareBetween((x - g) / 2.0, (y - g) / 2.0);
    var total := 2.0 * Square(a) + g;
    MulOrder(x, total, kk);
    Commutes(total, kk);
    MulOrder(total, y, nn);
    Commutes(total, nn);
  }

  // The other closes of the last window: two that swing by `a`, and equal ones.
  function Swing(n: nat, base: real, a: real): seq<real>
    requires n >= 3
  {
    [base + a, base - a] + Flat(base, n - 3)
  }

  lemma SwingSums(n: nat, base: real, a: real)
    requires n >= 3
    ensures Dev(Swing(n, base, a), base) == 0.0 && SumSq(Swing(n, base, a), base) == 2.0 * Square(a)
  {
    hide Square;
    FlatSums(base, n - 3);
    Appended([base + a, base - a], Flat(base, n - 3), base);
    assert [base + a, base - a] == [base + a] + [base - a];
    Appended([base + a], [base - a], base);
    OneClose(base + a, base);
    OneClose(base - a, base);
    SquareOfOpposite(a);
  }

  // Equal closes, a drop, and then out of session a window that swings by `a`, up to a last
  // in-session bar one above the equal closes.
  function DropAndRebound(n: nat, a: real): (s: Series)
    requires n >= 5 && a > 0.0
    ensures s.Valid() && |s.closes| == 2 * n + 1 && PositiveCloses(s)
  {
    var base := a + 100.0;
    Series(Flat(base, n) + [base - DROP] + Swing(n, base, a) + [base + 1.0],
           seq(2 * n + 1, i => i <= n || i == 2 * n))
  }

  lemma DropAndReboundWindows(p: Params, a: real)
    requires p.Valid() && a > 0.0
    ensures var s, n, base := DropAndRebound(p.length, a), p.length, a + 100.0;
            && Tradeable(p, s, n) && Window(p, s, n) == Flat(base, n - 1) + [base - DROP]
            && Tradeable(p, s, 2 * n) && Window(p, s, 2 * n) == Swing(n, base, a) + [base + 1.0]
            && forall m :: n < m < 2 * n ==> !Tradeable(p, s, m)
  {
  }

  // With the swing chosen between the two widths, the narrow run has sold at the end.
  lemma DeviationsHoldMore(ind: Indicator, narrow: Params, wide: Params, divisor: nat)
    requires Wider(wide, narrow) && narrow.exitAt == Upper
    requires StandardBands(ind, narrow.length, divisor) && CanBuy(wide, divisor)
    ensures !NeverHoldsMore(ind, wide, narrow)
  {
    hide Square, Mul, Share, CanBuy, SumSq, Dev, Swing, DropAndRebound, Window, Held, BuySignal, ExitSignal, Flat;
    var n := narrow.length;
    var g := Share(n as real - 1.0, n as real);
    ShareTimes(n as real - 1.0, n as real);
    CanBuyIs(wide, divisor);
    NarrowerCanBuy(narrow, wide, divisor);
    var a := ChooseSwing(narrow.stdDev, wide.stdDev, divisor as real, n as real, g);
    SwingSums(n, a + 100.0, a);
    BuysAndSwings(ind, narrow, divisor, a, g);
    BuysAndSwings(ind, wide, divisor, a, g);
    assert Held(ind, wide, DropAndRebound(n, a), 2 * n + 1) && !Held(ind, narrow, DropAndRebound(n, a), 2 * n + 1);
  }

  lemma NarrowerCanBuy(narrow: Params, wide: Params, divisor: nat)
    requires Wider(wide, narrow) && CanBuy(wide, divisor)
    ensures CanBuy(narrow, divisor)
  {
    hide Square, Mul, CanBuy;
    CanBuyIs(wide, divisor);
    CanBuyIs(narrow, divisor);
    SquareOrder(narrow.stdDev, wide.stdDev);
    MulOrder(Square(narrow.stdDev), Square(wide.stdDev), narrow.length as real);
  }

  lemma BuysAndSwings(ind: Indicator, p: Params, divisor: nat, a: real, g: real)
    requires p.Valid() && p.exitAt == Upper && StandardBands(ind, p.length, divisor) && CanBuy(p, divisor)
    requires a > 0.0 && Mul(p.length as real, g) == p.length as real - 1.0
    ensures Held(ind, p, DropAndRebound(p.length, a), 2 * p.length + 1)
            <==> Mul(divisor as real, Square(g))
                 < Mul(Square(p.stdDev), SumSq(Swing(p.length, a + 100.0, a), a + 100.0) + g)
  {
    hide Square, Mul, CanBuy, SumSq, Dev, DropAndRebound, Window, Held, BuySignal;
    var n, base := p.length, a + 100.0;
    var s := DropAndRebound(n, a);
    DropAndReboundWindows(p, a);
    SwingSums(n, base, a);
    DropBuys(ind, p, s, n, divisor, base);
    HeldUnlessExit(ind, p, s, 2 * n);
    ReboundExitsIff(ind, p, s, 2 * n, divisor, Swing(n, base, a), base, g);
  }

  /**
    On the library's bands, for every length, divisor and pair of widths: a larger `std_dev`
    never adds a held bar if and only if the exit is at the middle band or the wider run can
    never buy.
  */
  lemma WiderHoldsLessOnDeviationsIff(ind: Indicator, narrow: Params, wide: Params, divisor: nat)
    requires Wider(wide, narrow) && StandardBands(ind, narrow.length, divisor)
    ensures NeverHoldsMore(ind, wide, narrow) <==> narrow.exitAt == Middle || !CanBuy(wide, divisor)
  {
    hide NeverHoldsMore, CanBuy, Held, BuySignal;
    if narrow.exitAt == Middle {
      MiddleNeverHoldsMore(ind, narrow, wide);
    } else if CanBuy(wide, divisor) {
      DeviationsHoldMore(ind, narrow, wide, divisor);
    } else {
      NoBuyHoldsNothing(ind, narrow, wide, divisor);
    }
  }

  lemma NoBuyHoldsNothing(ind: Indicator, narrow: Params, wide: Params, divisor: nat)
    requires Wider(wide, narrow) && StandardBands(ind, wide.length, divisor) && !CanBuy(wide, divisor)
    ensures NeverHoldsMore(ind, wide, narrow)
  {
    hide CanBuy, Held, BuySignal;
    forall s: Series, i: nat ensures !Held(ind, wide, s, i) {
      HeldIff(ind, wide, s, i);
      if j :| OpenSince(ind, wide, s, i, j) {
        TooWideNeverBuys(ind, wide, s, j, divisor);
      }
    }
  }

  // Seven closes at the shortest length, with the widths 1 and 1.5.
  const NARROW := Params(5, 1.0, Upper, 10000.0)
  const WIDE := NARROW.(stdDev := 1.5)
  const SEVEN_CLOSES := Series([10.0, 10.0, 10.0, 10.0, 10.0, 7.0, 12.0], [true, true, true, true, true, true, true])

  /**
    An instance on the library's bands, with either divisor: exiting at the upper band, the
    run of width 1.5 is still in its position where the run of width 1 has sold.
  */
  lemma WiderUpperExitCanHoldMore(ind: Indicator, divisor: nat)
    requires 4 <= divisor <= 5 && StandardBands(ind, 5, divisor)
    ensures Held(ind, WIDE, SEVEN_CLOSES, 7) && !Held(ind, NARROW, SEVEN_CLOSES, 7)
  {
    SevenCloses(ind, NARROW, divisor);
    SevenCloses(ind, WIDE, divisor);
  }

  lemma SevenCloses(ind: Indicator, p: Params, divisor: nat)
    requires 4 <= divisor <= 5 && StandardBands(ind, 5, divisor) && (p == NARROW || p == WIDE)
    ensures Held(ind, p, SEVEN_CLOSES, 7) <==> p == WIDE
  {
    hide Held, BuySignal, ExitSignal;
    SevenClosesBuy(ind, p, divisor);
    SevenClosesExit(ind, p, divisor);
    HeldUnlessExit(ind, p, SEVEN_CLOSES, 6);
  }

  lemma SevenClosesBuy(ind: Indicator, p: Params, divisor: nat)
    requires 4 <= divisor <= 5 && StandardBands(ind, 5, divisor) && (p == NARROW || p == WIDE)
    ensures BuySignal(ind, p, SEVEN_CLOSES, 5)
  {
    hide Square, Mul, Mean;
    var w := [10.0, 10.0, 10.0, 10.0, 7.0];
    assert Window(p, SEVEN_CLOSES, 5) == w;
    MeanOfFive(10.0, 10.0, 10.0, 10.0, 7.0);
    assert SumSq(w, 9.4) == 7.2 by { SquaresOfFive(10.0, 10.0, 10.0, 10.0, 7.0, 9.4); SquaresAt(); }
    DistanceOrder(p.stdDev, ind.spread(w), 2.4, divisor as real, 7.2);
    SquaresAt();
  }

  lemma SevenClosesExit(ind: Indicator, p: Params, divisor: nat)
    requires 4 <= divisor <= 5 && StandardBands(ind, 5, divisor) && (p == NARROW || p == WIDE)
    ensures ExitSignal(ind, p, SEVEN_CLOSES, 6) <==> p == NARROW
  {
    hide Square, Mul, Mean;
    var w := [10.0, 10.0, 10.0, 7.0, 12.0];
    assert Window(p, SEVEN_CLOSES, 6) == w;
    MeanOfFive(10.0, 10.0, 10.0, 7.0, 12.0);
    assert SumSq(w, 9.8) == 12.8 by { SquaresOfFive(10.0, 10.0, 10.0, 7.0, 12.0, 9.8); SquaresAt(); }
    DistanceOrder(p.stdDev, ind.spread(w), 2.2, divisor as real, 12.8);
    SquaresAt();
  }

  lemma SquaresAt()
    ensures Square(0.6) == 0.36 && Square(-2.4) == Square(2.4) == 5.76
    ensures Square(0.2) == 0.04 && Square(-2.8) == 7.84 && Square(2.2) == 4.84
    ensures Square(1.0) == 1.0 && Square(1.5) == 2.25
    ensures forall x, y :: Mul(x, y) == x * y
  {
  }

  lemma MeanOfFive(a: real, b: real, c: real, d: real, e: real)
    ensures Mean([a, b, c, d, e]) == (a + b + c + d + e) / 5.0
  {
    SquaresOfFive(a, b, c, d, e, 0.0);
  }

  lemma SquaresOfFive(a: real, b: real, c: real, d: real, e: real, m: real)
    ensures Dev([a, b, c, d, e], m) == a + b + c + d + e - 5.0 * m
    ensures SumSq([a, b, c, d, e], m) == Square(a - m) + Square(b - m) + Square(c - m) + Square(d - m) + Square(e - m)
  {
    hide Square;
    OneClose(e, m);
    OneMore(d, [e], m);
    OneMore(c, [d, e], m);
    OneMore(b, [c, d, e], m);
    OneMore(a, [b, c, d, e], m);
    assert [d, e] == [d] + [e] && [c, d, e] == [c] + [d, e];
    assert [b, c, d, e] == [b] + [c, d, e] && [a, b, c, d, e] == [a] + [b, c, d, e];
  }

  lemma OneMore(x: real, rest: seq<real>, m: real)
    ensures Dev([x] + rest, m) == x - m + Dev(rest, m) && SumSq([x] + rest, m) == Square(x - m) + SumSq(rest, m)
  {
    assert ([x] + rest)[1..] == rest;
  }
}
