/** Small shared datatypes and the numeric primitives the generator and the
    prediction path use: numpy's clip and round, and ceiling on reals. */
module Wrappers {
  datatype Option<+T> = None | Some(value: T)
}

module Numeric {

  /** `np.clip(x, lo, hi)`: the nearest point of [lo, hi] to x. */
  function Clip(x: real, lo: real, hi: real): (r: real)
    requires lo <= hi
    ensures lo <= r <= hi
    ensures lo <= x <= hi ==> r == x
    ensures x < lo ==> r == lo
    ensures hi < x ==> r == hi
  {
    if x < lo then lo else if hi < x then hi else x
  }

  /** `abs` on reals. */
  function Abs(x: real): (r: real)
    ensures r >= 0.0
    ensures r == x || r == -x
  {
    if x < 0.0 then -x else x
  }

  /** 10^d. */
  function Pow10(d: nat): (r: nat)
    ensures r >= 1
  {
    if d == 0 then 1 else 10 * Pow10(d - 1)
  }

  /** The least integer not below y. */
  function Ceil(y: real): (n: int)
    ensures y <= n as real < y + 1.0
  {
    -((-y).Floor)
  }

  /** `rint`: the integer nearest to y, ties going to the even neighbour. */
  function RoundHalfEven(y: real): (n: int)
    ensures y - 0.5 <= n as real <= y + 0.5
    ensures n as real == y - 0.5 || n as real == y + 0.5 ==> n % 2 == 0
  {
    var f := y.Floor;
    var frac := y - f as real;
    if frac < 0.5 then f
    else if frac > 0.5 then f + 1
    else if f % 2 == 0 then f
    else f + 1
  }

  /** `np.round(x, d)`: scale by 10^d, round half to even, scale back; the
      result is a whole number of 10^-d units within half a unit of x. */
  function Round(x: real, d: nat): (r: real)
    ensures exists n: int :: r == Unscale(n, Pow10(d))
    ensures x - 0.5 / Pow10(d) as real <= r <= x + 0.5 / Pow10(d) as real
  {
    var p := Pow10(d);
    var y := Scale(x, p);
    var n := RoundHalfEven(y);
    assert p as real >= 1.0 && y == x * p as real;
    assert y - 0.5 <= n as real <= y + 0.5;
    RoundNear(x, p as real, n as real);
    Unscale(n, p)
  }

  /** An integer within half of x * p, divided by p, is within half of 1/p of x. */
  lemma RoundNear(x: real, p: real, n: real)
    requires p >= 1.0
    requires x * p - 0.5 <= n <= x * p + 0.5
    ensures x - 0.5 / p <= n / p <= x + 0.5 / p
  {
    var h := 0.5 / p;
    assert h * p == 0.5;
    assert (x - h) * p == x * p - 0.5;
    assert (x + h) * p == x * p + 0.5;
    DivideBounds(n, p, x - h, x + h);
  }

  /** x * p as a real. */
  function Scale(x: real, p: nat): real
  {
    x * p as real
  }

  /** n / p as a real. */
  function Unscale(n: int, p: nat): real
    requires p >= 1
  {
    n as real / p as real
  }

  /** Rounding to d decimals never leaves an interval whose ends are whole
      numbers, which is why the generator's clip-then-round keeps its bounds. */
  lemma RoundStaysWithin(x: real, d: nat, lo: int, hi: int)
    requires lo as real <= x <= hi as real
    ensures lo as real <= Round(x, d) <= hi as real
  {
    var P := Pow10(d);
    var y := Scale(x, P);
    ScaleWithin(x, P, lo, hi);
    var n := RoundHalfEven(y);
    IntegerBetween(y, n, lo * P, hi * P);
    UnscaleWithin(n, P, lo, hi);
  }

  /** Scaling by p >= 1 scales whole-number bounds along. */
  lemma ScaleWithin(x: real, p: nat, lo: int, hi: int)
    requires p >= 1 && lo as real <= x <= hi as real
    ensures (lo * p) as real <= Scale(x, p) <= (hi * p) as real
  {
    ScaleBounds(x, p as real, lo as real, hi as real);
    CastProduct(lo, p);
    CastProduct(hi, p);
  }

  /** An integer between lo * p and hi * p, divided by p, lies between lo and hi. */
  lemma UnscaleWithin(n: int, p: nat, lo: int, hi: int)
    requires p >= 1 && lo * p <= n <= hi * p
    ensures lo as real <= Unscale(n, p) <= hi as real
  {
    CastProduct(lo, p);
    CastProduct(hi, p);
    DivideBounds(n as real, p as real, lo as real, hi as real);
  }

  lemma CastProduct(a: int, b: int)
    ensures (a * b) as real == a as real * b as real
  {
  }

  lemma ScaleBounds(x: real, p: real, lo: real, hi: real)
    requires p > 0.0 && lo <= x <= hi
    ensures lo * p <= x * p <= hi * p
  {
    assert (x - lo) * p >= 0.0;
    assert (hi - x) * p >= 0.0;
  }

  /** An integer within half of y stays between any two integers enclosing y. */
  lemma IntegerBetween(y: real, n: int, L: int, H: int)
    requires L as real <= y <= H as real
    requires y - 0.5 <= n as real <= y + 0.5
    ensures L <= n <= H
  {
    assert n as real > (L - 1) as real;
    assert n as real < (H + 1) as real;
  }

  lemma DivideBounds(v: real, p: real, lo: real, hi: real)
    requires p > 0.0
    requires lo * p <= v <= hi * p
    ensures lo <= v / p <= hi
  {
    var q := v / p;
    assert q * p == v;
    ScaleOrder(q, lo, p);
    ScaleOrder(hi, q, p);
  }

  lemma ScaleOrder(a: real, b: real, p: real)
    requires p > 0.0 && b * p <= a * p
    ensures b <= a
  {
    assert (a - b) * p >= 0.0;
  }
}
