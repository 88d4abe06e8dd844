/**
 Rounding to a number of decimals, halves to even, of an exact real.
 */
module Rounding {

  /** The nearest integer; of two equally near, the even one. */
  function Nearest(y: real): (n: int)
    ensures -0.5 <= n as real - y <= 0.5
  {
    var below := y.Floor;
    var over := y - below as real;
    if over < 0.5 || (over == 0.5 && below % 2 == 0) then below else below + 1
  }

  lemma NearestIsMonotone(x: real, y: real)
    requires x <= y
    ensures Nearest(x) <= Nearest(y)
  {
    assert x.Floor <= y.Floor;
  }

  lemma NearestOfWhole(y: real, n: int)
    requires y == n as real
    ensures Nearest(y) == n
  {
  }

  /** `round(x, d)` with `scale` the `d`-th power of ten. */
  function RoundTo(x: real, scale: real): real
    requires scale > 0.0
  {
    Nearest(x * scale) as real / scale
  }

  lemma TimesOrder(a: real, b: real, c: real)
    requires a <= b && c > 0.0
    ensures a * c <= b * c
  {
  }

  lemma OverOrder(a: real, b: real, c: real)
    requires c > 0.0
    ensures a <= b * c <==> a / c <= b
    ensures b * c <= a <==> b <= a / c
  {
    assert a / c * c == a;
  }

  /** Rounding keeps the order of amounts. */
  lemma RoundMonotone(x: real, y: real, scale: real)
    requires x <= y && scale > 0.0
    ensures RoundTo(x, scale) <= RoundTo(y, scale)
  {
    TimesOrder(x, y, scale);
    NearestIsMonotone(x * scale, y * scale);
    OverBoth(Nearest(x * scale) as real, Nearest(y * scale) as real, scale);
  }

  lemma OverBoth(a: real, b: real, c: real)
    requires a <= b && c > 0.0
    ensures a / c <= b / c
  {
    OverOrder(a, b / c, c);
    assert b / c * c == b;
  }

  /** Amounts with no more decimals than that are kept as they are. */
  lemma RoundOfExact(x: real, n: int, scale: real)
    requires scale > 0.0 && x * scale == n as real
    ensures RoundTo(x, scale) == x
  {
    NearestOfWhole(x * scale, n);
    OverOrder(n as real, x, scale);
  }

  /** Rounding moves an amount by at most half of the last decimal. */
  lemma RoundIsNear(x: real, scale: real)
    requires scale > 0.0
    ensures x - 0.5 / scale <= RoundTo(x, scale) <= x + 0.5 / scale
  {
    HalfAway(x, Nearest(x * scale) as real, scale);
  }

  lemma HalfAway(x: real, n: real, c: real)
    requires c > 0.0 && -0.5 <= n - x * c <= 0.5
    ensures x - 0.5 / c <= n / c <= x + 0.5 / c
  {
    assert (x - 0.5 / c) * c == x * c - 0.5 && (x + 0.5 / c) * c == x * c + 0.5 by {
      assert 0.5 / c * c == 0.5;
    }
    OverOrder(n, x - 0.5 / c, c);
    OverOrder(n, x + 0.5 / c, c);
  }
}
