/**
  Products and quotients of positive reals.  `Times` and `Share` name them so that proofs
  about equity curves can use the few facts below and hide the definitions.
*/
module ExactReals {
  function Times(a: real, b: real): (x: real)
    requires a > 0.0 && b > 0.0
    ensures x > 0.0
  {
    a * b
  }

  function Share(part: real, whole: real): real
    requires whole > 0.0
  {
    part / whole
  }

  function Max(a: real, b: real): real { if a >= b then a else b }

  lemma Quotient(y: real, z: real)
    requires z != 0.0
    ensures y / z * z == y
  {
  }

  lemma QuotientIs(x: real, y: real, z: real)
    requires z != 0.0 && x * z == y
    ensures x == y / z
  {
  }

  lemma TimesOrder(a: real, b: real, c: real)
    requires c > 0.0
    ensures a <= b <==> a * c <= b * c
  {
  }

  lemma SharePositive(part: real, whole: real)
    requires part > 0.0 && whole > 0.0
    ensures Share(part, whole) > 0.0
  {
  }

  lemma ShareOfItself(a: real)
    requires a > 0.0
    ensures Share(a, a) == 1.0
  {
  }

  lemma ShareLost(a: real, b: real)
    requires a > 0.0
    ensures (a - b) / a == 1.0 - Share(b, a)
  {
    Quotient(b, a);
    QuotientIs(1.0 - b / a, a - b, a);
  }

  lemma ShareOrder(e: real, f: real, p: real)
    requires p > 0.0
    ensures e <= f <==> Share(e, p) <= Share(f, p)
  {
  }

  lemma SmallerShare(e: real, p: real, q: real)
    requires e > 0.0 && p >= q > 0.0
    ensures Share(e, p) <= Share(e, q)
  {
    Quotient(e, p);
    Quotient(e, q);
    var x, y := e / p, e / q;
    TimesOrder(0.0, y, q);
    TimesOrder(q, p, y);
    assert y * q == q * y && p * y == y * p;
    TimesOrder(x, y, p);
  }

  lemma ScaledShare(c: real, a: real, b: real)
    requires c > 0.0 && a > 0.0 && b > 0.0
    ensures Share(Times(c, b), Times(c, a)) == Share(b, a)
  {
    Quotient(b, a);
    assert b / a * (c * a) == c * (b / a * a);
    QuotientIs(b / a, c * b, c * a);
  }

  lemma Associates(a: real, b: real, c: real)
    requires a > 0.0 && b > 0.0 && c > 0.0
    ensures Times(a, Times(b, c)) == Times(Times(a, b), c)
  {
  }

  // Growing by a ratio of at least one, and only that, is not a loss.
  lemma GrowthOrder(e: real, sell: real, buy: real)
    requires e > 0.0 && sell > 0.0 && buy > 0.0
    ensures Share(sell, buy) > 0.0
    ensures Times(e, Share(sell, buy)) >= e <==> sell >= buy
  {
    var x := sell / buy;
    Quotient(sell, buy);
    TimesOrder(1.0, x, buy);
    assert 1.0 <= x <==> buy <= sell;
    TimesOrder(1.0, x, e);
    assert x * e == e * x == Times(e, Share(sell, buy));
  }

  // The profit-and-loss form of a growth step.
  lemma ProfitIsRatio(e: real, sell: real, buy: real)
    requires e > 0.0 && sell > 0.0 && buy > 0.0
    ensures Share(sell, buy) > 0.0
    ensures e * (1.0 + (sell - buy) / buy) == Times(e, Share(sell, buy))
  {
  }

  lemma ReturnOfProduct(c: real, x: real)
    requires c > 0.0 && x > 0.0
    ensures (Times(c, x) - c) / c == x - 1.0
  {
    assert (x - 1.0) * c == c * x - c;
    QuotientIs(x - 1.0, c * x - c, c);
  }

  lemma ReturnIsLoss(c: real, e: real)
    requires c > 0.0
    ensures (e - c) / c == Share(e, c) - 1.0
  {
    Quotient(e, c);
    QuotientIs(e / c - 1.0, e - c, c);
  }

  lemma ScaleOrder(a: real, b: real, x: real)
    requires a <= b && x >= 0.0
    ensures a * x <= b * x
  {
  }

  // ------------------------------------------------------------------
  // Squares
  // ------------------------------------------------------------------

  function Mul(a: real, b: real): real { a * b }

  function Square(x: real): (y: real)
    ensures y >= 0.0
  {
    x * x
  }

  lemma MulOrder(a: real, b: real, x: real)
    requires x > 0.0
    ensures a < b <==> Mul(a, x) < Mul(b, x)
    ensures a <= b <==> Mul(a, x) <= Mul(b, x)
    ensures Mul(0.0, x) == 0.0
  {
  }

  lemma SquareOrder(a: real, b: real)
    requires a >= 0.0 && b >= 0.0
    ensures a < b <==> Square(a) < Square(b)
    ensures a <= b <==> Square(a) <= Square(b)
  {
    if a < b {
      SquareGrows(a, b);
    } else if b < a {
      SquareGrows(b, a);
    }
  }

  lemma SquareGrows(a: real, b: real)
    requires 0.0 <= a < b
    ensures Square(a) < Square(b)
  {
    MulOrder(0.0, b - a, b + a);
    assert Square(b) - Square(a) == Mul(b - a, b + a);
  }

  lemma SquareEnds(q: real)
    requires q > 0.0
    ensures Square(q + 1.0) >= q && Square(0.0) == 0.0
  {
  }

  lemma SquareOfSum(x: real, y: real)
    ensures Square(x + y) == Square(x) + Mul(2.0 * x + y, y)
  {
    assert (x + y) * (x + y) == x * x + x * y + x * y + y * y;
    assert (2.0 * x + y) * y == x * y + x * y + y * y;
  }

  lemma ShareTimes(y: real, z: real)
    requires z > 0.0
    ensures Mul(Share(y, z), z) == y && Mul(z, Share(y, z)) == y
  {
    Quotient(y, z);
  }

  lemma MulOne(z: real)
    ensures Mul(1.0, z) == z
  {
  }

  // Between any two non-negative reals lies the square of a positive one.
  lemma SquareBetween(p: real, q: real) returns (r: real)
    requires 0.0 <= p < q
    ensures r > 0.0 && p < Square(r) <= q
  {
    hide Share, Square, Mul;
    var top := q + 1.0;
    var z := 2.0 * top + 2.0;
    var step := Share(q - p, z);
    SharePositive(q - p, z);
    ShareTimes(q - p, z);
    MulOrder(step, 1.0, z);
    MulOne(z);
    SquareEnds(q);
    var n := EnoughSteps(top, step);
    r := Climb(p, q, top, 0.0, step, n);
  }

  lemma EnoughSteps(top: real, step: real) returns (n: nat)
    requires top > 0.0 && step > 0.0
    ensures Mul(n as real, step) > top
  {
    hide Share, Mul;
    var x := Share(top, step);
    ShareTimes(top, step);
    SharePositive(top, step);
    n := x.Floor + 1;
    MulOrder(x, n as real, step);
  }

  // Steps so small that the squares cannot pass over p..q.
  lemma {:induction false} Climb(p: real, q: real, top: real, x: real, step: real, n: nat) returns (r: real)
    requires 0.0 <= p < q && top > 0.0 && Square(top) >= q
    requires x >= 0.0 && Square(x) <= q && 0.0 < step <= 1.0 && Mul(2.0 * top + 2.0, step) == q - p
    requires x + Mul(n as real, step) > top
    ensures r > 0.0 && p < Square(r) <= q
    decreases n
  {
    hide Square, Mul;
    var y := x + step;
    SquareOrder(x, top);
    if Square(y) > q {
      r := x;
      SmallStep(p, q, x, step, top);
      SquareEnds(q);
    } else {
      SquareOrder(y, top);
      OneStepFewer(n, step);
      r := Climb(p, q, top, y, step, n - 1);
    }
  }

  lemma SmallStep(p: real, q: real, x: real, step: real, top: real)
    requires 0.0 <= p < q && 0.0 <= x <= top && step > 0.0 && Mul(2.0 * top + 2.0, step) == q - p
    requires step <= 1.0
    ensures Square(x + step) <= Square(x) + (q - p)
  {
    hide Square, Mul;
    SquareOfSum(x, step);
    MulOrder(2.0 * x + step, 2.0 * top + 2.0, step);
  }

  lemma OneStepFewer(n: nat, step: real)
    ensures Mul(n as real, step) == Mul((n - 1) as real, step) + step
    ensures n == 0 ==> Mul(n as real, step) == 0.0
  {
    assert (n - 1) as real == n as real - 1.0;
    assert n as real * step == (n as real - 1.0) * step + step;
  }
}
