/** The engine's four-decimal floor, and the minimum, maximum and absolute value of reals. */
module Rounding {

  function Min(a: real, b: real): real { if a <= b then a else b }

  function Max(a: real, b: real): real { if a >= b then a else b }

  function Abs(x: real): real { if x < 0.0 then -x else x }

  /** `round_down(value, 4)`. */
  function RoundDown4(v: real): (r: real)
    ensures r <= v < r + 0.0001
    ensures 0.0 <= v ==> 0.0 <= r
    ensures 0.0 < r <==> 0.0001 <= v
  {
    (v * 10000.0).Floor as real / 10000.0
  }

  /** The floor is a whole number of steps of a ten-thousandth. */
  lemma OnGrid(v: real) returns (steps: int)
    ensures RoundDown4(v) * 10000.0 == steps as real
  {
    steps := (v * 10000.0).Floor;
  }

  lemma FloorMonotone(x: real, y: real)
    requires x <= y
    ensures x.Floor <= y.Floor
  {
    assert x.Floor as real <= x && y < (y.Floor + 1) as real;
    assert x.Floor as real < (y.Floor + 1) as real;
  }

  lemma RoundDownMonotone(a: real, b: real)
    requires a <= b
    ensures RoundDown4(a) <= RoundDown4(b)
  {
    FloorMonotone(a * 10000.0, b * 10000.0);
  }

  /** A value already on the grid is left alone. */
  lemma RoundDownIdempotent(v: real)
    ensures RoundDown4(RoundDown4(v)) == RoundDown4(v)
  {
    var n := (v * 10000.0).Floor;
    assert RoundDown4(v) * 10000.0 == n as real;
  }

  /** Dividing by a positive price keeps the order. */
  lemma DivideMonotone(a: real, b: real, price: real)
    requires a <= b && 0.0 < price
    ensures a / price <= b / price
  {
    assert b / price - a / price == (b - a) / price;
  }

  /** A quantity floored to the grid wastes less than one grid step of notional. */
  lemma FlooredQuantityResidual(notional: real, price: real)
    requires 0.0 < price
    ensures 0.0 <= notional - RoundDown4(notional / price) * price < 0.0001 * price
  {
    var x := notional / price;
    assert x * price == notional;
    ScaledGap(notional, x, RoundDown4(x), 0.0001, price);
  }

  lemma ScaledGap(notional: real, x: real, q: real, grid: real, price: real)
    requires 0.0 < price && x * price == notional && q <= x < q + grid
    ensures 0.0 <= notional - q * price < grid * price
  {
    var d := x - q;
    assert d * price < grid * price by { assert (grid - d) * price > 0.0; }
    assert d * price == x * price - q * price;
  }

  lemma ScaleOrder(a: real, b: real, k: real)
    requires a <= b && 0.0 <= k
    ensures a * k <= b * k
  {
    assert (b - a) * k >= 0.0;
  }
}
