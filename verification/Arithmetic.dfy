/** Facts about products, quotients and squares that the numeric modules share. A product is passed on by name, since the
    solver rewrites facts about the product itself. */
module Arithmetic {

  function Square(x: real): (r: real)
    ensures r >= 0.0 && (x == 0.0 || r > 0.0)
  {
    var r := x * x;
    Positive(x, r);
    r
  }

  lemma Positive(x: real, r: real)
    requires r == x * x
    ensures r >= 0.0 && (x == 0.0 || r > 0.0)
  {
    if x > 0.0 {
      Product(x, x, r);
    } else if x < 0.0 {
      assert r == (-x) * (-x);
      Product(-x, -x, r);
    }
  }

  lemma Product(x: real, y: real, r: real)
    requires r == x * y && x > 0.0 && y > 0.0
    ensures r > 0.0
  {
  }

  lemma Same(k: real, x: real, y: real)
    requires x == y
    ensures k * x == k * y
  {
  }

  lemma Distribute(k: real, x: real, y: real)
    ensures k * (x + y) == k * x + k * y
    ensures k * (x - y) == k * x - k * y
  {
  }

  lemma SumProduct(k: real, x: real, y: real, z: real)
    requires z == x + y
    ensures k * z == k * x + k * y
  {
  }

  lemma OneMore(n: nat, x: real)
    requires n > 0
    ensures n as real * x == (n - 1) as real * x + x
  {
    assert n as real == (n - 1) as real + 1.0;
  }

  lemma QuotientTimes(q: real, p: real, s: real)
    requires s > 0.0 && q == p / s
    ensures q * s == p
  {
  }

  lemma Quotient(p: real, v: real, q: real)
    requires v != 0.0 && q * v == p
    ensures q == p / v
  {
  }

  lemma SquareOrder(x: real, y: real, xx: real, yy: real)
    requires x >= 0.0 && y >= 0.0 && xx == x * x && yy == y * y
    ensures x <= y <==> xx <= yy
  {
    if x < y {
      Product(y - x, y + x, yy - xx);
    } else if x > y {
      Product(x - y, x + y, xx - yy);
    }
  }

  lemma Threshold(h: real, v: real, e: real)
    requires v > 0.0
    ensures h / v >= e <==> h >= e * v
  {
    var q := h / v;
    assert q * v == h;
    if q >= e { assert (q - e) * v >= 0.0; } else { assert (e - q) * v > 0.0; }
  }

  /** The square root of the code, as an argument. */
  ghost predicate IsRoot(root: real -> real) {
    forall x :: x >= 0.0 ==> root(x) >= 0.0 && root(x) * root(x) == x
  }

  lemma RootPositive(h: real, x: real)
    requires h >= 0.0 && h * h == x && x > 0.0
    ensures h > 0.0
  {
    if h == 0.0 { Same(h, h, 0.0); }
  }

  lemma Ordered(x: real, y: real, k: real, xk: real, yk: real)
    requires k > 0.0 && xk == x * k && yk == y * k && xk <= yk
    ensures x <= y
  {
  }

  lemma Below(a: nat, b: nat, k: nat)
    requires a <= b
    ensures a * k <= b * k
  {
  }

  lemma Cancel(u: real, x: real, d: real)
    requires u * d == d * x && d != 0.0
    ensures u == x
  {
    assert (u - x) * d == 0.0;
  }

  function Abs(x: real): real { if x < 0.0 then -x else x }

  function Unit(x: real): (r: real)
    ensures 0.0 <= r <= 1.0
  {
    if x < 0.0 then 0.0 else if x > 1.0 then 1.0 else x
  }

  lemma NonNegative(x: real, y: real, xy: real)
    requires x >= 0.0 && y >= 0.0 && xy == x * y
    ensures xy >= 0.0
  {
  }

  function Min(x: real, y: real): real { if x <= y then x else y }

  function Max(x: real, y: real): real { if x <= y then y else x }
}
