/**
  The trading state machine of core/strategies/bollinger_reversion.py.

  The bands come from an indicator that maps the trailing `length` closes to a centre
  and a non-negative spread: lower = centre - std_dev * spread, middle = centre, upper =
  centre + std_dev * spread.  The moving average and the standard deviation are one such
  indicator; nothing below depends on which one is used.
*/
module Bollinger {
  import opened Wrappers
  import opened ExactReals
  import opened StrategyMetrics

  datatype ExitAt = Middle | Upper

  datatype Params = Params(length: nat, stdDev: real, exitAt: ExitAt, initialCapital: real) {
    // The field constraints of BollingerParams.
    predicate Valid() { 5 <= length <= 200 && 0.0 < stdDev <= 5.0 && initialCapital > 0.0 }
  }

  datatype Indicator = Indicator(centre: seq<real> -> real, spread: seq<real> -> real)

  ghost predicate Bands(ind: Indicator) { forall w: seq<real> :: ind.spread(w) >= 0.0 }

  // Bars in time order: closing prices and whether the bar is in the regular session.
  datatype Series = Series(closes: seq<real>, session: seq<bool>) {
    predicate Valid() { |closes| == |session| }

    function Take(n: nat): (s: Series)
      requires Valid() && n <= |closes|
      ensures s.Valid()
    {
      Series(closes[..n], session[..n])
    }
  }

  datatype RunError = TooFewRows | InvalidPrice

  datatype Report = Report(trades: seq<Trade>, metrics: Metrics)

  // ------------------------------------------------------------------
  // Bands and signals
  // ------------------------------------------------------------------

  function Window(p: Params, s: Series, i: nat): seq<real>
    requires 1 <= p.length <= i + 1 <= |s.closes|
  {
    s.closes[i + 1 - p.length..i + 1]
  }

  function Lower(ind: Indicator, p: Params, s: Series, i: nat): real
    requires 1 <= p.length <= i + 1 <= |s.closes|
  {
    ind.centre(Window(p, s, i)) - p.stdDev * ind.spread(Window(p, s, i))
  }

  function ExitBand(ind: Indicator, p: Params, s: Series, i: nat): real
    requires 1 <= p.length <= i + 1 <= |s.closes|
  {
    match p.exitAt
    case Middle => ind.centre(Window(p, s, i))
    case Upper => ind.centre(Window(p, s, i)) + p.stdDev * ind.spread(Window(p, s, i))
  }

  // Bars the signal loop looks at.
  predicate Tradeable(p: Params, s: Series, i: int) {
    s.Valid() && 1 <= p.length <= i < |s.closes| && s.session[i]
  }

  predicate BuySignal(ind: Indicator, p: Params, s: Series, i: int) {
    Tradeable(p, s, i) && s.closes[i] < Lower(ind, p, s, i)
  }

  predicate ExitSignal(ind: Indicator, p: Params, s: Series, i: int) {
    Tradeable(p, s, i) && s.closes[i] >= ExitBand(ind, p, s, i)
  }

  // ------------------------------------------------------------------
  // The run as a function
  // ------------------------------------------------------------------

  // Whether a position is open just before bar `i`.
  function Held(ind: Indicator, p: Params, s: Series, i: nat): bool
    decreases i
  {
    if i <= p.length then false
    else if Held(ind, p, s, i - 1) then !ExitSignal(ind, p, s, i - 1)
    else BuySignal(ind, p, s, i - 1)
  }

  // The trade of bar `i` in the signal loop, if any.
  function TradeOf(ind: Indicator, p: Params, s: Series, i: nat): seq<Trade> {
    if !Tradeable(p, s, i) then []
    else Emit(Held(ind, p, s, i), BuySignal(ind, p, s, i), ExitSignal(ind, p, s, i), i, s.closes[i])
  }

  function Emit(held: bool, buy: bool, exit: bool, bar: nat, close: real): seq<Trade> {
    if !held && buy then [Trade(bar, Buy, close)]
    else if held && exit then [Trade(bar, Sell, close)]
    else []
  }

  // The trades of the signal loop before bar `i`.
  function SignalTrades(ind: Indicator, p: Params, s: Series, i: nat): seq<Trade>
    decreases i
  {
    if i <= p.length then [] else SignalTrades(ind, p, s, i - 1) + TradeOf(ind, p, s, i - 1)
  }

  function LastInSession(session: seq<bool>): (last: Option<nat>)
    ensures last.Some? ==> last.value < |session| && session[last.value]
    ensures forall i :: 0 <= i < |session| && session[i] ==> last.Some? && i <= last.value
  {
    if session == [] then None
    else if session[|session| - 1] then Some(|session| - 1)
    else LastInSession(session[..|session| - 1])
  }

  // The forced exit at the end of the data.
  function ForcedExit(ind: Indicator, p: Params, s: Series): seq<Trade>
    requires s.Valid()
  {
    if Held(ind, p, s, |s.closes|) && LastInSession(s.session).Some? then
      var k := LastInSession(s.session).value;
      [Trade(k, Sell, s.closes[k])]
    else []
  }

  function AllTrades(ind: Indicator, p: Params, s: Series): seq<Trade>
    requires s.Valid()
  {
    SignalTrades(ind, p, s, |s.closes|) + ForcedExit(ind, p, s)
  }

  function RunResult(ind: Indicator, p: Params, s: Series, round: real -> real): Result<Report, RunError>
    requires p.Valid() && s.Valid()
  {
    var trades := AllTrades(ind, p, s);
    if |s.closes| < p.length then Err(TooFewRows)
    else if !ValidTrades(trades) then Err(InvalidPrice)
    else Ok(Report(trades, MetricsOf(trades, p.initialCapital, round)))
  }

  // ------------------------------------------------------------------
  // The run as the loop
  // ------------------------------------------------------------------

  lemma SignalTradesGrow(ind: Indicator, p: Params, s: Series, i: nat, j: nat)
    requires i <= j
    ensures SignalTrades(ind, p, s, i) <= SignalTrades(ind, p, s, j)
    decreases j
  {
    if p.length < j && i < j {
      SignalTradesGrow(ind, p, s, i, j - 1);
    }
  }

  // One turn of the loop: a trade, if any, moves the position.
  lemma LoopTurn(ind: Indicator, p: Params, s: Series, i: nat)
    requires p.length <= i
    ensures var now := TradeOf(ind, p, s, i);
            && SignalTrades(ind, p, s, i + 1) == SignalTrades(ind, p, s, i) + now
            && (Held(ind, p, s, i + 1) <==> if now == [] then Held(ind, p, s, i) else now[0].signal.Buy?)
  {
  }

  // A trade at a non-positive price cannot be built, and the run fails.
  lemma BadPriceFails(ind: Indicator, p: Params, s: Series, i: nat, t: Trade)
    requires s.Valid() && p.length <= i < |s.closes| && TradeOf(ind, p, s, i) == [t] && !t.Valid()
    ensures !ValidTrades(AllTrades(ind, p, s))
  {
    hide TradeOf;
    LoopTurn(ind, p, s, i);
    SignalTradesGrow(ind, p, s, i + 1, |s.closes|);
    assert t in SignalTrades(ind, p, s, i + 1);
    assert t in AllTrades(ind, p, s);
  }

  method Run(ind: Indicator, p: Params, s: Series, round: real -> real) returns (r: Result<Report, RunError>)
    requires p.Valid() && s.Valid()
    ensures r == RunResult(ind, p, s, round)
  {
    hide Held, SignalTrades, Lower, ExitBand, MetricsOf;
    var n := |s.closes|;
    if n < p.length {
      return Err(TooFewRows);
    }
    var trades: seq<Trade> := [];
    var inPosition := false;
    LoopStart(ind, p, s);
    for i := p.length to n
      invariant inPosition == Held(ind, p, s, i)
      invariant trades == SignalTrades(ind, p, s, i) && ValidTrades(trades)
    {
      LoopTurn(ind, p, s, i);
      if s.session[i] {
        var close := s.closes[i];
        if !inPosition {
          if close < Lower(ind, p, s, i) {
            inPosition := true;
            var t := Trade(i, Buy, close);
            if !t.Valid() {
              BadPriceFails(ind, p, s, i, t);
              return Err(InvalidPrice);
            }
            trades := trades + [t];
          }
        } else {
          if close >= ExitBand(ind, p, s, i) {
            inPosition := false;
            var t := Trade(i, Sell, close);
            if !t.Valid() {
              BadPriceFails(ind, p, s, i, t);
              return Err(InvalidPrice);
            }
            trades := trades + [t];
          }
        }
      }
    }
    if inPosition {
      var last := LastInSession(s.session);
      if last.Some? {
        var t := Trade(last.value, Sell, s.closes[last.value]);
        if !t.Valid() {
          assert t in AllTrades(ind, p, s);
          return Err(InvalidPrice);
        }
        trades := trades + [t];
      }
    }
    assert trades == AllTrades(ind, p, s);
    var metrics := CalculateMetrics(trades, p.initialCapital, round);
    return Ok(Report(trades, metrics));
  }

  lemma LoopStart(ind: Indicator, p: Params, s: Series)
    ensures SignalTrades(ind, p, s, p.length) == [] && !Held(ind, p, s, p.length)
  {
  }

  // ------------------------------------------------------------------
  // The position, without the loop
  // ------------------------------------------------------------------

  // A bar never asks to buy and to sell at once.
  lemma SignalsExclude(ind: Indicator, p: Params, s: Series, i: nat)
    requires p.Valid() && Bands(ind)
    ensures !(BuySignal(ind, p, s, i) && ExitSignal(ind, p, s, i))
  {
    if Tradeable(p, s, i) {
      ScaleOrder(0.0, p.stdDev, ind.spread(Window(p, s, i)));
    }
  }

  // The last signal that matters before bar `i` was the buy at bar `j`.
  ghost predicate OpenSince(ind: Indicator, p: Params, s: Series, i: nat, j: nat) {
    && j < i && BuySignal(ind, p, s, j)
    && forall m :: j < m < i ==> !ExitSignal(ind, p, s, m)
  }

  /**
    A position is open before bar `i` exactly when some earlier bar gave a buy signal and no
    bar since gave an exit signal.
  */
  lemma {:induction false} HeldIff(ind: Indicator, p: Params, s: Series, i: nat)
    requires p.Valid() && Bands(ind)
    ensures Held(ind, p, s, i) <==> exists j :: OpenSince(ind, p, s, i, j)
    decreases i
  {
    if i > p.length {
      var last: nat := i - 1;
      HeldIff(ind, p, s, last);
      SignalsExclude(ind, p, s, last);
      hide BuySignal, ExitSignal;
      if ExitSignal(ind, p, s, last) {
        forall j: nat ensures !OpenSince(ind, p, s, i, j) {
        }
      } else if BuySignal(ind, p, s, last) {
        assert OpenSince(ind, p, s, i, last);
      } else {
        forall j: nat ensures OpenSince(ind, p, s, i, j) <==> OpenSince(ind, p, s, last, j) {
        }
      }
    }
  }

  // A bar makes at most one trade, and that at the bar.
  lemma TradeAtBar(ind: Indicator, p: Params, s: Series, i: nat, t: Trade)
    ensures t in TradeOf(ind, p, s, i) <==> t.bar == i && TradeOf(ind, p, s, t.bar) == [t]
  {
    hide Held, BuySignal, ExitSignal;
  }

  lemma {:induction false} TradesOfBars(ind: Indicator, p: Params, s: Series, i: nat, t: Trade)
    ensures t in SignalTrades(ind, p, s, i) <==> p.length <= t.bar < i && TradeOf(ind, p, s, t.bar) == [t]
    decreases i
  {
    hide Held, BuySignal, ExitSignal, TradeOf;
    if i > p.length {
      TradesOfBars(ind, p, s, i - 1, t);
      TradeAtBar(ind, p, s, i - 1, t);
    }
  }

  /**
    The signal loop, without the loop: a BUY at a bar, at its close, exactly when the bar
    gives a buy signal and no earlier buy signal is still open; a SELL exactly when the bar
    gives an exit signal and one is.
  */
  lemma TradesAreTheSignals(ind: Indicator, p: Params, s: Series, bar: nat)
    requires p.Valid() && s.Valid() && Bands(ind) && bar < |s.closes|
    ensures Trade(bar, Buy, s.closes[bar]) in SignalTrades(ind, p, s, |s.closes|)
            <==> BuySignal(ind, p, s, bar) && !exists j :: OpenSince(ind, p, s, bar, j)
    ensures Trade(bar, Sell, s.closes[bar]) in SignalTrades(ind, p, s, |s.closes|)
            <==> ExitSignal(ind, p, s, bar) && exists j :: OpenSince(ind, p, s, bar, j)
  {
    HeldIff(ind, p, s, bar);
    TradesOfBars(ind, p, s, |s.closes|, Trade(bar, Buy, s.closes[bar]));
    TradesOfBars(ind, p, s, |s.closes|, Trade(bar, Sell, s.closes[bar]));
  }

  // ------------------------------------------------------------------
  // Shape of the trades
  // ------------------------------------------------------------------

  // The trades of the loop before bar `i`: alternating, in strictly rising bar order, each
  // at a bar whose signal it answers, and ending with a BUY exactly when a position is open.
  ghost predicate Shape(ind: Indicator, p: Params, s: Series, i: nat, trades: seq<Trade>) {
    && (forall k :: 0 <= k < |trades| ==> Answers(ind, p, s, i, trades[k], if k % 2 == 0 then Buy else Sell))
    && (forall j, k :: 0 <= j < k < |trades| ==> trades[j].bar < trades[k].bar)
    && (Held(ind, p, s, i) <==> |trades| % 2 == 1)
  }

  ghost predicate Answers(ind: Indicator, p: Params, s: Series, i: nat, t: Trade, signal: Signal) {
    && t.bar < i && Tradeable(p, s, t.bar) && t.price == s.closes[t.bar] && t.signal == signal
    && (if signal == Buy then BuySignal(ind, p, s, t.bar) && !Held(ind, p, s, t.bar)
        else ExitSignal(ind, p, s, t.bar) && Held(ind, p, s, t.bar))
  }

  lemma {:induction false} LoopShape(ind: Indicator, p: Params, s: Series, i: nat)
    ensures Shape(ind, p, s, i, SignalTrades(ind, p, s, i))
    decreases i
  {
    hide Held, BuySignal, ExitSignal, TradeOf, Shape;
    if i <= p.length {
      EmptyShape(ind, p, s, i);
    } else {
      LoopShape(ind, p, s, i - 1);
      ShapeGrows(ind, p, s, i - 1, SignalTrades(ind, p, s, i - 1));
    }
  }

  lemma EmptyShape(ind: Indicator, p: Params, s: Series, i: nat)
    requires i <= p.length
    ensures Shape(ind, p, s, i, [])
  {
  }

  lemma ShapeGrows(ind: Indicator, p: Params, s: Series, i: nat, before: seq<Trade>)
    requires p.length <= i && Shape(ind, p, s, i, before)
    ensures Shape(ind, p, s, i + 1, before + TradeOf(ind, p, s, i))
  {
    hide Held, BuySignal, ExitSignal, Tradeable;
    LoopTurn(ind, p, s, i);
    var trades := before + TradeOf(ind, p, s, i);
    forall k | 0 <= k < |trades|
      ensures Answers(ind, p, s, i + 1, trades[k], if k % 2 == 0 then Buy else Sell)
    {
      if k < |before| {
        assert Answers(ind, p, s, i, before[k], if k % 2 == 0 then Buy else Sell);
      }
    }
    forall j, k | 0 <= j < k < |trades| ensures trades[j].bar < trades[k].bar {
      assert Answers(ind, p, s, i, before[j], if j % 2 == 0 then Buy else Sell);
      if k < |before| {
        assert before[j].bar < before[k].bar;
      }
    }
  }

  // An open position was bought at an in-session bar, so there is a bar to exit on.
  lemma ForcedExitFindsBar(ind: Indicator, p: Params, s: Series)
    requires s.Valid()
    ensures var loop := SignalTrades(ind, p, s, |s.closes|);
            var forced := ForcedExit(ind, p, s);
            && (Held(ind, p, s, |s.closes|) <==> forced != []) && |forced| <= 1
            && (forced != [] ==>
                  && loop != [] && loop[|loop| - 1].bar <= forced[0].bar
                  && forced[0].signal.Sell? && Tradeable(p, s, forced[0].bar)
                  && forced[0].price == s.closes[forced[0].bar]
                  && forall m :: forced[0].bar < m < |s.closes| ==> !s.session[m])
  {
    var loop := SignalTrades(ind, p, s, |s.closes|);
    LoopShape(ind, p, s, |s.closes|);
    if Held(ind, p, s, |s.closes|) {
      var k := |loop| - 1;
      assert Answers(ind, p, s, |s.closes|, loop[k], if k % 2 == 0 then Buy else Sell);
    }
  }

  // Forced exit included, BUY and SELL alternate, end with a SELL, and follow the bars.
  lemma TradesAlternate(ind: Indicator, p: Params, s: Series)
    requires s.Valid()
    ensures var trades := AllTrades(ind, p, s);
            && Alternating(trades)
            && (forall j, k :: 0 <= j <= k < |trades| ==> trades[j].bar <= trades[k].bar)
            && (forall k :: 0 <= k < |trades| ==>
                  Tradeable(p, s, trades[k].bar) && trades[k].price == s.closes[trades[k].bar])
  {
    hide BuySignal, ExitSignal, Held, ForcedExit, SignalTrades;
    var n := |s.closes|;
    var loop, forced := SignalTrades(ind, p, s, n), ForcedExit(ind, p, s);
    var trades := AllTrades(ind, p, s);
    LoopShape(ind, p, s, n);
    ForcedExitFindsBar(ind, p, s);
    forall k | 0 <= k < |trades|
      ensures trades[k].signal == if k % 2 == 0 then Buy else Sell
      ensures Tradeable(p, s, trades[k].bar) && trades[k].price == s.closes[trades[k].bar]
    {
      if k < |loop| {
        assert Answers(ind, p, s, n, loop[k], if k % 2 == 0 then Buy else Sell);
      }
    }
    forall j, k | 0 <= j <= k < |trades| ensures trades[j].bar <= trades[k].bar {
      if j < |loop| - 1 && k == |loop| {
        assert loop[j].bar < loop[|loop| - 1].bar;
      }
    }
  }

  /**
    For every input the run pairs up: BUY and SELL alternate and end with a SELL, in bar
    order, all on in-session bars at index `length` or later at that bar's close; and the
    metrics therefore pair every trade, so the number of trips is half the trades.
  */
  lemma RunIsPaired(ind: Indicator, p: Params, s: Series, round: real -> real)
    requires p.Valid() && s.Valid() && RunResult(ind, p, s, round).Ok?
    ensures var report := RunResult(ind, p, s, round).value;
            var trades := report.trades;
            && Alternating(trades)
            && (forall j, k :: 0 <= j <= k < |trades| ==> trades[j].bar <= trades[k].bar)
            && (forall k :: 0 <= k < |trades| ==>
                  Tradeable(p, s, trades[k].bar) && trades[k].price == s.closes[trades[k].bar])
            && |Pairs(trades)| == |trades| / 2
            && report.metrics.numTrades == |trades| / 2
  {
    hide AllTrades, Tradeable, Pairs;
    TradesAlternate(ind, p, s);
    AlternatingPairsUp(AllTrades(ind, p, s));
  }

  // ------------------------------------------------------------------
  // Two parameter sets on the same data
  // ------------------------------------------------------------------

  // Wherever `p` buys `q` would, and wherever `q` exits `p` would.
  ghost predicate HoldsLess(ind: Indicator, p: Params, q: Params, s: Series) {
    && (forall i: nat :: BuySignal(ind, p, s, i) ==> BuySignal(ind, q, s, i))
    && (forall i: nat :: ExitSignal(ind, q, s, i) ==> ExitSignal(ind, p, s, i))
  }

  lemma HeldMonotone(ind: Indicator, p: Params, q: Params, s: Series, i: nat)
    requires p.Valid() && q.Valid() && Bands(ind) && HoldsLess(ind, p, q, s)
    ensures Held(ind, p, s, i) ==> Held(ind, q, s, i)
  {
    HeldIff(ind, p, s, i);
    HeldIff(ind, q, s, i);
    if Held(ind, p, s, i) {
      var j :| OpenSince(ind, p, s, i, j);
      assert OpenSince(ind, q, s, i, j);
    }
  }

  lemma UpperHoldsLonger(ind: Indicator, p: Params, s: Series)
    requires p.Valid() && Bands(ind)
    ensures HoldsLess(ind, p.(exitAt := Middle), p.(exitAt := Upper), s)
  {
    var mid, up := p.(exitAt := Middle), p.(exitAt := Upper);
    forall i: nat | ExitSignal(ind, up, s, i) ensures ExitSignal(ind, mid, s, i) {
      assert Window(mid, s, i) == Window(up, s, i);
      ScaleOrder(0.0, p.stdDev, ind.spread(Window(mid, s, i)));
      assert ExitBand(ind, mid, s, i) <= ExitBand(ind, up, s, i);
    }
    forall i: nat | BuySignal(ind, mid, s, i) ensures BuySignal(ind, up, s, i) {
      assert Window(mid, s, i) == Window(up, s, i);
      assert Lower(ind, mid, s, i) == Lower(ind, up, s, i);
    }
  }

  function Buys(trades: seq<Trade>): nat {
    if trades == [] then 0
    else Buys(trades[..|trades| - 1]) + if trades[|trades| - 1].signal.Buy? then 1 else 0
  }

  lemma BuysOfAppend(trades: seq<Trade>, t: Trade)
    ensures Buys(trades + [t]) == Buys(trades) + if t.signal.Buy? then 1 else 0
  {
    assert (trades + [t])[..|trades|] == trades;
  }

  // What the middle trades `a` have over the upper trades `b`: at least as many buys, and a
  // first SELL that is no later.
  ghost predicate Ahead(a: seq<Trade>, b: seq<Trade>) {
    && Buys(b) <= Buys(a)
    && (a == [] <==> b == [])
    && (|b| >= 2 ==> |a| >= 2 && a[1].bar <= b[1].bar)
  }

  lemma StaysAhead(a: seq<Trade>, b: seq<Trade>, heldA: bool, heldB: bool, buy: bool, exitA: bool, exitB: bool,
                   bar: nat, close: real)
    requires Ahead(a, b)
    requires (heldA <==> |a| % 2 == 1) && (heldB <==> |b| % 2 == 1)
    requires (heldA ==> heldB) && (exitB ==> exitA) && !(buy && exitA)
    requires |a| >= 2 ==> a[1].bar < bar
    ensures Ahead(a + Emit(heldA, buy, exitA, bar, close), b + Emit(heldB, buy, exitB, bar, close))
  {
    BuysOfAppend(a, Trade(bar, if heldA then Sell else Buy, close));
    BuysOfAppend(b, Trade(bar, if heldB then Sell else Buy, close));
    assert a + [] == a && b + [] == b;
  }

  // Both loops, bar by bar.
  lemma {:induction false} LoopsSideBySide(ind: Indicator, p: Params, s: Series, i: nat)
    requires p.Valid() && Bands(ind)
    ensures Ahead(SignalTrades(ind, p.(exitAt := Middle), s, i), SignalTrades(ind, p.(exitAt := Upper), s, i))
    decreases i
  {
    hide BuySignal, ExitSignal, TradeOf, Held, Ahead, Bands;
    if i <= p.length {
      AheadAtStart();
    } else {
      LoopsSideBySide(ind, p, s, i - 1);
      OneBarSideBySide(ind, p, s, i - 1);
    }
  }

  lemma OneBarSideBySide(ind: Indicator, p: Params, s: Series, j: nat)
    requires p.Valid() && Bands(ind)
    requires Ahead(SignalTrades(ind, p.(exitAt := Middle), s, j), SignalTrades(ind, p.(exitAt := Upper), s, j))
    ensures var mid, up := p.(exitAt := Middle), p.(exitAt := Upper);
            Ahead(SignalTrades(ind, mid, s, j) + TradeOf(ind, mid, s, j),
                  SignalTrades(ind, up, s, j) + TradeOf(ind, up, s, j))
  {
    hide BuySignal, ExitSignal, Emit, Held, Ahead, SignalTrades, Bands;
    var mid, up := p.(exitAt := Middle), p.(exitAt := Upper);
    var a, b := SignalTrades(ind, mid, s, j), SignalTrades(ind, up, s, j);
    LoopParity(ind, mid, s, j);
    LoopParity(ind, up, s, j);
    if Tradeable(p, s, j) {
      SignalsAgree(ind, p, s, j);
      StaysAhead(a, b, Held(ind, mid, s, j), Held(ind, up, s, j), BuySignal(ind, mid, s, j),
                 ExitSignal(ind, mid, s, j), ExitSignal(ind, up, s, j), j, s.closes[j]);
    } else {
      assert a + [] == a && b + [] == b;
    }
  }

  lemma AheadAtStart()
    ensures Ahead([], [])
  {
  }

  lemma LoopParity(ind: Indicator, p: Params, s: Series, i: nat)
    ensures var trades := SignalTrades(ind, p, s, i);
            (Held(ind, p, s, i) <==> |trades| % 2 == 1) && (|trades| >= 2 ==> trades[1].bar < i)
  {
    LoopShape(ind, p, s, i);
    var trades := SignalTrades(ind, p, s, i);
    if |trades| >= 2 {
      assert Answers(ind, p, s, i, trades[1], Sell);
    }
  }

  lemma SignalsAgree(ind: Indicator, p: Params, s: Series, i: nat)
    requires p.Valid() && Bands(ind)
    ensures var mid, up := p.(exitAt := Middle), p.(exitAt := Upper);
            && (BuySignal(ind, up, s, i) == BuySignal(ind, mid, s, i))
            && (ExitSignal(ind, up, s, i) ==> ExitSignal(ind, mid, s, i))
            && !(BuySignal(ind, mid, s, i) && ExitSignal(ind, mid, s, i))
            && (Held(ind, mid, s, i) ==> Held(ind, up, s, i))
  {
    hide BuySignal, ExitSignal, Held;
    var mid, up := p.(exitAt := Middle), p.(exitAt := Upper);
    UpperHoldsLonger(ind, p, s);
    HeldMonotone(ind, mid, up, s, i);
    SignalsExclude(ind, mid, s, i);
    ExitIgnoredByBuy(ind, p, s, i);
  }

  // The lower band does not depend on where the run exits.
  lemma ExitIgnoredByBuy(ind: Indicator, p: Params, s: Series, i: nat)
    ensures BuySignal(ind, p.(exitAt := Upper), s, i) == BuySignal(ind, p.(exitAt := Middle), s, i)
  {
    hide Held;
    var mid, up := p.(exitAt := Middle), p.(exitAt := Upper);
    if Tradeable(p, s, i) {
      assert Window(mid, s, i) == Window(up, s, i);
      assert Lower(ind, mid, s, i) == Lower(ind, up, s, i);
    }
  }

  lemma {:induction false} BuysAreHalf(trades: seq<Trade>)
    requires forall k :: 0 <= k < |trades| ==> trades[k].signal == if k % 2 == 0 then Buy else Sell
    ensures Buys(trades) == (|trades| + 1) / 2
    decreases |trades|
  {
    if trades != [] {
      BuysAreHalf(trades[..|trades| - 1]);
    }
  }

  /**
    Exiting at the upper band instead of the middle one, on the same data: every bar held by
    the middle run is held by the upper run; every BUY of the upper run is a BUY of the
    middle run at the same bar; the upper run makes no more trades; and its first SELL,
    forced exits included, is no earlier.
  */
  lemma UpperAgainstMiddle(ind: Indicator, p: Params, s: Series)
    requires p.Valid() && s.Valid() && Bands(ind)
    ensures var mid, up := p.(exitAt := Middle), p.(exitAt := Upper);
            var a, b := AllTrades(ind, mid, s), AllTrades(ind, up, s);
            && (forall i :: Held(ind, mid, s, i) ==> Held(ind, up, s, i))
            && (forall t :: t in b && t.signal.Buy? ==> t in a)
            && |b| <= |a|
            && (|b| >= 2 ==> |a| >= 2 && a[1].signal.Sell? && b[1].signal.Sell? && a[1].bar <= b[1].bar)
  {
    var mid, up, n := p.(exitAt := Middle), p.(exitAt := Upper), |s.closes|;
    forall i | Held(ind, mid, s, i) ensures Held(ind, up, s, i) {
      SignalsAgree(ind, p, s, i);
    }
    forall t | t in AllTrades(ind, up, s) && t.signal.Buy? ensures t in AllTrades(ind, mid, s) {
      UpperBuyIsMiddleBuy(ind, p, s, t);
    }
    TradesSideBySide(ind, p, s);
  }

  lemma UpperBuyIsMiddleBuy(ind: Indicator, p: Params, s: Series, t: Trade)
    requires p.Valid() && s.Valid() && Bands(ind)
    requires t in AllTrades(ind, p.(exitAt := Upper), s) && t.signal.Buy?
    ensures t in AllTrades(ind, p.(exitAt := Middle), s)
  {
    hide Held, BuySignal, ExitSignal, SignalTrades, TradeOf;
    var mid, up, n := p.(exitAt := Middle), p.(exitAt := Upper), |s.closes|;
    assert t in SignalTrades(ind, up, s, n);
    TradesOfBars(ind, up, s, n, t);
    TradesOfBars(ind, mid, s, n, t);
    SameBuy(ind, p, s, t);
  }

  lemma SameBuy(ind: Indicator, p: Params, s: Series, t: Trade)
    requires p.Valid() && Bands(ind) && t.signal.Buy?
    requires TradeOf(ind, p.(exitAt := Upper), s, t.bar) == [t]
    ensures TradeOf(ind, p.(exitAt := Middle), s, t.bar) == [t]
  {
    hide Held, BuySignal, ExitSignal;
    SignalsAgree(ind, p, s, t.bar);
  }

  lemma TradesSideBySide(ind: Indicator, p: Params, s: Series)
    requires p.Valid() && s.Valid() && Bands(ind)
    ensures var a, b := AllTrades(ind, p.(exitAt := Middle), s), AllTrades(ind, p.(exitAt := Upper), s);
            && |b| <= |a|
            && (|b| >= 2 ==> |a| >= 2 && a[1].signal.Sell? && b[1].signal.Sell? && a[1].bar <= b[1].bar)
  {
    hide Tradeable, Held, BuySignal, ExitSignal, ForcedExit, SignalTrades;
    var mid, up, n := p.(exitAt := Middle), p.(exitAt := Upper), |s.closes|;
    var a, b := SignalTrades(ind, mid, s, n), SignalTrades(ind, up, s, n);
    LoopsSideBySide(ind, p, s, n);
    TradesAlternate(ind, mid, s);
    TradesAlternate(ind, up, s);
    SignalsAgree(ind, p, s, n);
    ForcedExitFindsBar(ind, mid, s);
    ForcedExitFindsBar(ind, up, s);
    forall k | 0 <= k < |a| ensures a[k].signal == if k % 2 == 0 then Buy else Sell {
      assert AllTrades(ind, mid, s)[k] == a[k];
    }
    forall k | 0 <= k < |b| ensures b[k].signal == if k % 2 == 0 then Buy else Sell {
      assert AllTrades(ind, up, s)[k] == b[k];
    }
    BuysAreHalf(a);
    BuysAreHalf(b);
    FirstExits(ind, p, s);
  }

  // The middle run's first SELL, on a signal or forced, is no later than a forced exit.
  lemma FirstExits(ind: Indicator, p: Params, s: Series)
    requires p.Valid() && s.Valid() && Bands(ind)
    ensures var a := SignalTrades(ind, p.(exitAt := Middle), s, |s.closes|);
            var last := LastInSession(s.session);
            |a| >= 2 ==> last.Some? && a[1].bar <= last.value
    ensures forall q: Params :: ForcedExit(ind, q, s) != [] ==>
              LastInSession(s.session) == Some(ForcedExit(ind, q, s)[0].bar)
  {
    var mid, n := p.(exitAt := Middle), |s.closes|;
    var a := SignalTrades(ind, mid, s, n);
    LoopShape(ind, mid, s, n);
    if |a| >= 2 {
      assert Answers(ind, mid, s, n, a[1], Sell);
    }
  }

  /**
    With the exit at the middle band, a larger `std_dev` never adds a held bar: whenever the
    run with the wider bands is in a position, so is the run with the narrower ones.
  */
  lemma {:induction false} WiderBandsHoldLess(ind: Indicator, narrow: Params, wide: Params, s: Series, i: nat)
    requires narrow.Valid() && wide.Valid() && Bands(ind)
    requires narrow.exitAt == Middle && wide == narrow.(stdDev := wide.stdDev) && narrow.stdDev <= wide.stdDev
    ensures Held(ind, wide, s, i) ==> Held(ind, narrow, s, i)
  {
    forall k: nat | BuySignal(ind, wide, s, k) ensures BuySignal(ind, narrow, s, k) {
      assert Window(wide, s, k) == Window(narrow, s, k);
      ScaleOrder(narrow.stdDev, wide.stdDev, ind.spread(Window(narrow, s, k)));
    }
    forall k: nat | ExitSignal(ind, narrow, s, k) ensures ExitSignal(ind, wide, s, k) {
      assert Window(wide, s, k) == Window(narrow, s, k);
    }
    HeldMonotone(ind, wide, narrow, s, i);
  }

  // ------------------------------------------------------------------
  // No look-ahead
  // ------------------------------------------------------------------

  // A bar's signals depend on its trailing closes only.
  lemma SignalsOfPrefix(ind: Indicator, p: Params, s: Series, n: nat, i: nat)
    requires p.Valid() && s.Valid() && i < n <= |s.closes|
    ensures BuySignal(ind, p, s.Take(n), i) == BuySignal(ind, p, s, i)
    ensures ExitSignal(ind, p, s.Take(n), i) == ExitSignal(ind, p, s, i)
    ensures Tradeable(p, s.Take(n), i) == Tradeable(p, s, i)
  {
    if p.length <= i {
      assert Window(p, s.Take(n), i) == Window(p, s, i);
    }
  }

  lemma {:induction false} PrefixSignals(ind: Indicator, p: Params, s: Series, n: nat, i: nat)
    requires p.Valid() && s.Valid() && i <= n <= |s.closes|
    ensures Held(ind, p, s.Take(n), i) == Held(ind, p, s, i)
    ensures SignalTrades(ind, p, s.Take(n), i) == SignalTrades(ind, p, s, i)
    decreases i
  {
    hide BuySignal, ExitSignal, Tradeable;
    if i > p.length {
      PrefixSignals(ind, p, s, n, i - 1);
      SignalsOfPrefix(ind, p, s, n, i - 1);
    }
  }

  /**
    No look-ahead: the trades of the run on the first `n` bars, without its forced exit, are a
    prefix of the trades of the run on the whole series, and every later trade of the whole
    run's signal loop is at bar `n` or later.
  */
  lemma NoLookAhead(ind: Indicator, p: Params, s: Series, n: nat)
    requires p.Valid() && s.Valid() && p.length <= n <= |s.closes|
    ensures var early := SignalTrades(ind, p, s.Take(n), n);
            var loop := SignalTrades(ind, p, s, |s.closes|);
            && AllTrades(ind, p, s.Take(n)) == early + ForcedExit(ind, p, s.Take(n))
            && early <= AllTrades(ind, p, s) && early <= loop
            && forall t :: t in loop[|early|..] ==> t.bar >= n
  {
    hide Held, TradeOf;
    PrefixSignals(ind, p, s, n, n);
    var later := LaterTrades(ind, p, s, n, |s.closes|);
    assert SignalTrades(ind, p, s, |s.closes|)[|SignalTrades(ind, p, s, n)|..] == later;
  }

  lemma {:induction false} LaterTrades(ind: Indicator, p: Params, s: Series, n: nat, i: nat) returns (later: seq<Trade>)
    requires n <= i
    ensures SignalTrades(ind, p, s, i) == SignalTrades(ind, p, s, n) + later
    ensures forall t :: t in later ==> t.bar >= n
    decreases i
  {
    hide Held, BuySignal, ExitSignal;
    later := [];
    if n < i && p.length < i {
      var before := LaterTrades(ind, p, s, n, i - 1);
      LoopTurn(ind, p, s, i - 1);
      later := before + TradeOf(ind, p, s, i - 1);
    }
  }
}
