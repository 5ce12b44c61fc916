/** Alignment of a face to the canonical template: the closed-form similarity through five landmarks, its
    inverse, and the bilinear warp. Coordinates are real numbers. */
module Align {
  import opened Wrappers
  import opened Arithmetic

  datatype Point = Point(x: real, y: real)

  /** A row-major 2x3 matrix. */
  datatype Affine = Affine(m00: real, m01: real, m02: real, m10: real, m11: real, m12: real) {
    function Apply(p: Point): Point {
      Point(m00 * p.x + m01 * p.y + m02, m10 * p.x + m11 * p.y + m12)
    }

    function Det(): real {
      m00 * m11 - m01 * m10
    }

    predicate Rotates() {
      m00 == m11 && m01 == -m10
    }

    predicate Reflects() {
      m00 == -m11 && m01 == m10
    }
  }

  const LANDMARKS: nat := 5
  const EPS_VAR: real := 1.0
  const EPS_SCALE: real := 0.001
  const EPS_DET: real := 0.000000001

  /* ---- sums over the landmarks ---- */

  function Sum(s: seq<Point>, n: nat): Point
    requires n <= |s|
  {
    if n == 0 then Point(0.0, 0.0) else Point(Sum(s, n - 1).x + s[n - 1].x, Sum(s, n - 1).y + s[n - 1].y)
  }

  function Mean(s: seq<Point>): Point
    requires |s| == LANDMARKS
  {
    Point(Sum(s, LANDMARKS).x / 5.0, Sum(s, LANDMARKS).y / 5.0)
  }

  function Demeaned(s: seq<Point>): seq<Point>
    requires |s| == LANDMARKS
  {
    seq(LANDMARKS, i requires 0 <= i < LANDMARKS => Point(s[i].x - Mean(s).x, s[i].y - Mean(s).y))
  }

  /** The products of destination by source coordinates, and the squares of both. */
  datatype Gram = Gram(xx: real, xy: real, yx: real, yy: real, ss: real, dd: real) {
    /** The parts of `A` that a rotation can reach. */
    function P(): real { xx + yy }
    function Q(): real { yx - xy }
    function Det(): real { xx * yy - xy * yx }
  }

  function Term(g: Gram, s: Point, d: Point): Gram {
    Gram(g.xx + d.x * s.x, g.xy + d.x * s.y, g.yx + d.y * s.x, g.yy + d.y * s.y,
      g.ss + (s.x * s.x + s.y * s.y), g.dd + (d.x * d.x + d.y * d.y))
  }

  function Products(s: seq<Point>, d: seq<Point>, n: nat): Gram
    requires n <= |s| == |d|
  {
    if n == 0 then Gram(0.0, 0.0, 0.0, 0.0, 0.0, 0.0) else Term(Products(s, d, n - 1), s[n - 1], d[n - 1])
  }

  /** The products of the demeaned landmarks. */
  function Moments(src: seq<Point>, dst: seq<Point>): Gram
    requires |src| == |dst| == LANDMARKS
  {
    Products(Demeaned(src), Demeaned(dst), LANDMARKS)
  }

  lemma {:induction false} DemeanedSum(s: seq<Point>, n: nat)
    requires |s| == LANDMARKS && n <= LANDMARKS
    ensures Sum(Demeaned(s), n) == Point(Sum(s, n).x - n as real * Mean(s).x, Sum(s, n).y - n as real * Mean(s).y)
  {
    if n > 0 { DemeanedSum(s, n - 1); }
  }

  lemma DemeanedIsCentred(s: seq<Point>)
    requires |s| == LANDMARKS
    ensures Sum(Demeaned(s), LANDMARKS) == Point(0.0, 0.0)
  {
    DemeanedSum(s, LANDMARKS);
  }

  /* ---- the least-squares cost ---- */

  function Distance2(p: Point, q: Point): (r: real)
    ensures r >= 0.0
    ensures r == 0.0 ==> p == q
  {
    Square(p.x - q.x) + Square(p.y - q.y)
  }

  function Length2(u: Point): (r: real)
    ensures r >= 0.0
  {
    Square(u.x) + Square(u.y)
  }

  /** The sum of squared residuals over the first `n` landmarks. */
  function Cost(m: Affine, s: seq<Point>, d: seq<Point>, n: nat): (r: real)
    requires n <= |s| == |d|
    ensures r >= 0.0
  {
    if n == 0 then 0.0 else Cost(m, s, d, n - 1) + Distance2(m.Apply(s[n - 1]), d[n - 1])
  }

  function Residual(m: Affine, src: seq<Point>, dst: seq<Point>): real
    requires |src| == |dst| == LANDMARKS
  {
    Cost(m, src, dst, LANDMARKS)
  }

  /** Where `m` puts the centre of the sources, seen from the centre of the destinations. */
  function Offset(m: Affine, src: seq<Point>, dst: seq<Point>): Point
    requires |src| == |dst| == LANDMARKS
  {
    Point(m.Apply(Mean(src)).x - Mean(dst).x, m.Apply(Mean(src)).y - Mean(dst).y)
  }

  lemma {:induction false} CostCentred(m: Affine, src: seq<Point>, dst: seq<Point>, n: nat)
    requires |src| == |dst| == LANDMARKS && n <= LANDMARKS
    ensures var u := Offset(m, src, dst);
            Cost(m, src, dst, n) == Cost(m.(m02 := u.x, m12 := u.y), Demeaned(src), Demeaned(dst), n)
  {
    hide Distance2, Affine.Apply, Mean;
    if n > 0 {
      CostCentred(m, src, dst, n - 1);
      CentredTerm(m, src[n - 1], dst[n - 1], Mean(src), Mean(dst));
    }
  }

  lemma CentredTerm(m: Affine, s: Point, d: Point, s0: Point, d0: Point)
    ensures var u := Point(m.Apply(s0).x - d0.x, m.Apply(s0).y - d0.y);
            Distance2(m.Apply(s), d)
            == Distance2(m.(m02 := u.x, m12 := u.y).Apply(Point(s.x - s0.x, s.y - s0.y)), Point(d.x - d0.x, d.y - d0.y))
  {
    var u := Point(m.Apply(s0).x - d0.x, m.Apply(s0).y - d0.y);
    var p, q := m.Apply(s), m.(m02 := u.x, m12 := u.y).Apply(Point(s.x - s0.x, s.y - s0.y));
    assert p.x - d.x == q.x - (d.x - d0.x) && p.y - d.y == q.y - (d.y - d0.y);
  }

  /** The cost of the map of the rotation `(a, -b; b, a)` and the offset `u` as a quadratic form in the products. */
  function Quadratic(a: real, b: real, g: Gram): real {
    (a * a + b * b) * g.ss - 2.0 * (a * g.P() + b * g.Q()) + g.dd
  }

  /** The part of the cost that is linear in the coordinates. */
  function Linear(a: real, b: real, u: Point, s: Point, d: Point): real {
    2.0 * (u.x * (a * s.x - b * s.y - d.x) + u.y * (b * s.x + a * s.y - d.y))
  }

  lemma LinearAdds(a: real, b: real, u: Point, s: Point, d: Point, s1: Point, d1: Point)
    ensures Linear(a, b, u, Point(s.x + s1.x, s.y + s1.y), Point(d.x + d1.x, d.y + d1.y))
            == Linear(a, b, u, s, d) + Linear(a, b, u, s1, d1)
  {
    Distribute(a, s.x, s1.x);
    Distribute(b, s.y, s1.y);
    Distribute(b, s.x, s1.x);
    Distribute(a, s.y, s1.y);
    Distribute(u.x, a * s.x - b * s.y - d.x, a * s1.x - b * s1.y - d1.x);
    Distribute(u.y, b * s.x + a * s.y - d.y, b * s1.x + a * s1.y - d1.y);
  }

  lemma TermIdentity(a: real, b: real, ux: real, uy: real, sx: real, sy: real, dx: real, dy: real)
    ensures Square(a * sx + (-b) * sy + ux - dx) + Square(b * sx + a * sy + uy - dy)
            == (a * a + b * b) * (sx * sx + sy * sy) - 2.0 * (a * (dx * sx + dy * sy) + b * (dy * sx - dx * sy))
               + (dx * dx + dy * dy) + 2.0 * (ux * (a * sx - b * sy - dx) + uy * (b * sx + a * sy - dy))
               + (Square(ux) + Square(uy))
  {
  }

  lemma QuadraticAdds(a: real, b: real, s: Point, d: Point, g: Gram)
    ensures Quadratic(a, b, Term(g, s, d))
            == Quadratic(a, b, g) + Quadratic(a, b, Term(Gram(0.0, 0.0, 0.0, 0.0, 0.0, 0.0), s, d))
  {
    TermSums(g, s, d);
    QuadraticSum(a, b, g, Term(Gram(0.0, 0.0, 0.0, 0.0, 0.0, 0.0), s, d), Term(g, s, d));
    hide *;
  }

  lemma TermSums(g: Gram, s: Point, d: Point)
    ensures var e, t := Term(Gram(0.0, 0.0, 0.0, 0.0, 0.0, 0.0), s, d), Term(g, s, d);
            t.ss == g.ss + e.ss && t.P() == g.P() + e.P() && t.Q() == g.Q() + e.Q() && t.dd == g.dd + e.dd
  {
  }

  lemma QuadraticSum(a: real, b: real, g: Gram, e: Gram, t: Gram)
    requires t.ss == g.ss + e.ss && t.P() == g.P() + e.P() && t.Q() == g.Q() + e.Q() && t.dd == g.dd + e.dd
    ensures Quadratic(a, b, t) == Quadratic(a, b, g) + Quadratic(a, b, e)
  {
    SumProduct(a * a + b * b, g.ss, e.ss, t.ss);
    SumProduct(a, g.P(), e.P(), t.P());
    SumProduct(b, g.Q(), e.Q(), t.Q());
  }

  lemma TermCost(a: real, b: real, u: Point, s: Point, d: Point)
    ensures Distance2(Affine(a, -b, u.x, b, a, u.y).Apply(s), d)
            == Quadratic(a, b, Term(Gram(0.0, 0.0, 0.0, 0.0, 0.0, 0.0), s, d)) + Linear(a, b, u, s, d)
               + Length2(u)
  {
    TermIdentity(a, b, u.x, u.y, s.x, s.y, d.x, d.y);
  }

  lemma {:induction false} RotationCost(a: real, b: real, u: Point, s: seq<Point>, d: seq<Point>, n: nat)
    requires n <= |s| == |d|
    ensures Cost(Affine(a, -b, u.x, b, a, u.y), s, d, n)
            == Quadratic(a, b, Products(s, d, n)) + Linear(a, b, u, Sum(s, n), Sum(d, n))
               + n as real * Length2(u)
  {
    hide Length2, Quadratic, Linear, Distance2, Affine.Apply;
    if n > 0 {
      RotationCost(a, b, u, s, d, n - 1);
      TermCost(a, b, u, s[n - 1], d[n - 1]);
      QuadraticAdds(a, b, s[n - 1], d[n - 1], Products(s, d, n - 1));
      LinearAdds(a, b, u, Sum(s, n - 1), Sum(d, n - 1), s[n - 1], d[n - 1]);
      OneMore(n, Length2(u));
      var k := n - 1;
      var before, term, after := Products(s, d, k), Term(Gram(0.0, 0.0, 0.0, 0.0, 0.0, 0.0), s[k], d[k]), Products(s, d, n);
      hide Term, Products;
      assert Quadratic(a, b, after) == Quadratic(a, b, before) + Quadratic(a, b, term);
    } else {
      NoCost(a, b, u);
    }
  }

  lemma NoCost(a: real, b: real, u: Point)
    ensures Quadratic(a, b, Gram(0.0, 0.0, 0.0, 0.0, 0.0, 0.0)) == 0.0
    ensures Linear(a, b, u, Point(0.0, 0.0), Point(0.0, 0.0)) == 0.0
  {
    var zero := 0.0;
    assert a * zero == 0.0 && b * zero == 0.0 && u.x * zero == 0.0 && u.y * zero == 0.0;
  }

  /* ---- the optimum ---- */

  /** The rotation with the least cost, when one linear equation each fixes its two parameters. */
  lemma Minimum(a: real, b: real, a0: real, b0: real, g: Gram)
    requires g.ss > 0.0 && a0 * g.ss == g.P() && b0 * g.ss == g.Q()
    ensures Quadratic(a0, b0, g) <= Quadratic(a, b, g)
    ensures Quadratic(a0, b0, g) * g.ss == g.dd * g.ss - (Square(g.P()) + Square(g.Q()))
  {
    Gap(a, b, a0, b0, g.ss, g.P(), g.Q(), g.dd);
    Floor(a0, b0, g.ss, g.P(), g.Q(), g.dd);
  }

  lemma Gap(a: real, b: real, a0: real, b0: real, ss: real, p: real, q: real, dd: real)
    requires ss > 0.0 && a0 * ss == p && b0 * ss == q
    ensures (a0 * a0 + b0 * b0) * ss - 2.0 * (a0 * p + b0 * q) + dd <= (a * a + b * b) * ss - 2.0 * (a * p + b * q) + dd
  {
    var gap := Square(a - a0) + Square(b - b0);
    assert gap * ss >= 0.0;
    Same(a, p, a0 * ss);
    Same(b, q, b0 * ss);
    Same(a0, p, a0 * ss);
    Same(b0, q, b0 * ss);
    GapIdentity(a, b, a0, b0, ss);
  }

  lemma GapIdentity(a: real, b: real, a0: real, b0: real, ss: real)
    ensures (a * a + b * b) * ss - 2.0 * (a * (a0 * ss) + b * (b0 * ss))
            - ((a0 * a0 + b0 * b0) * ss - 2.0 * (a0 * (a0 * ss) + b0 * (b0 * ss)))
            == (Square(a - a0) + Square(b - b0)) * ss
  {
  }

  lemma Floor(a0: real, b0: real, ss: real, p: real, q: real, dd: real)
    requires a0 * ss == p && b0 * ss == q
    ensures ((a0 * a0 + b0 * b0) * ss - 2.0 * (a0 * p + b0 * q) + dd) * ss == dd * ss - (Square(p) + Square(q))
  {
    Same(p, p, a0 * ss);
    Same(q, q, b0 * ss);
    Same(a0, p, a0 * ss);
    Same(b0, q, b0 * ss);
    FloorIdentity(a0, b0, ss, dd);
  }

  lemma FloorIdentity(a0: real, b0: real, ss: real, dd: real)
    ensures ((a0 * a0 + b0 * b0) * ss - 2.0 * (a0 * (a0 * ss) + b0 * (b0 * ss)) + dd) * ss
            == dd * ss - ((a0 * ss) * (a0 * ss) + (b0 * ss) * (b0 * ss))
  {
  }

  /** What the source returns when its guards pass: the rotation part solves the two equations, the translation
      takes centre to centre. */
  function Best(src: seq<Point>, dst: seq<Point>): Affine
    requires |src| == |dst| == LANDMARKS && Moments(src, dst).ss > 0.0
  {
    var g := Moments(src, dst);
    var a, b := g.P() / g.ss, g.Q() / g.ss;
    Centring(a, b, Mean(src), Mean(dst))
  }

  function Centring(a: real, b: real, s: Point, d: Point): Affine {
    Translated(a, -b, b, a, s, d)
  }

  /** The linear map, then the translation that takes `s` to `d`. */
  function Translated(r00: real, r01: real, r10: real, r11: real, s: Point, d: Point): Affine {
    Affine(r00, r01, d.x - (r00 * s.x + r01 * s.y), r10, r11, d.y - (r10 * s.x + r11 * s.y))
  }

  /** The cost of any rotating similarity: the quadratic form, and five times the offset. */
  lemma RotationResidual(m: Affine, src: seq<Point>, dst: seq<Point>)
    requires |src| == |dst| == LANDMARKS && m.Rotates()
    ensures Residual(m, src, dst)
            == Quadratic(m.m00, m.m10, Moments(src, dst)) + LANDMARKS as real * Length2(Offset(m, src, dst))
  {
    var u := Offset(m, src, dst);
    CostCentred(m, src, dst, LANDMARKS);
    RotationCost(m.m00, m.m10, u, Demeaned(src), Demeaned(dst), LANDMARKS);
    DemeanedIsCentred(src);
    DemeanedIsCentred(dst);
    NoCost(m.m00, m.m10, u);
    hide Quadratic, Linear, Length2, Demeaned, Cost, Sum, Offset;
    assert m.(m02 := u.x, m12 := u.y) == Affine(m.m00, -m.m10, u.x, m.m10, m.m00, u.y);
  }

  lemma AtLeastQuadratic(m: Affine, src: seq<Point>, dst: seq<Point>)
    requires |src| == |dst| == LANDMARKS && m.Rotates()
    ensures Residual(m, src, dst) >= Quadratic(m.m00, m.m10, Moments(src, dst))
  {
    RotationResidual(m, src, dst);
  }

  lemma CentringOffset(a: real, b: real, src: seq<Point>, dst: seq<Point>)
    requires |src| == |dst| == LANDMARKS
    ensures Offset(Centring(a, b, Mean(src), Mean(dst)), src, dst) == Point(0.0, 0.0)
  {
  }

  lemma Quotients(src: seq<Point>, dst: seq<Point>)
    requires |src| == |dst| == LANDMARKS && Moments(src, dst).ss > 0.0
    ensures var g, m := Moments(src, dst), Best(src, dst);
            && m.Rotates() && m.m00 * g.ss == g.P() && m.m10 * g.ss == g.Q()
            && Residual(m, src, dst) == Quadratic(m.m00, m.m10, g)
  {
    hide *;
    var g := Moments(src, dst);
    var a, b := g.P() / g.ss, g.Q() / g.ss;
    BestIs(src, dst);
    CentringShape(a, b, Mean(src), Mean(dst));
    CentringResidual(a, b, src, dst);
    QuotientTimes(a, g.P(), g.ss);
    QuotientTimes(b, g.Q(), g.ss);
  }

  lemma BestIs(src: seq<Point>, dst: seq<Point>)
    requires |src| == |dst| == LANDMARKS && Moments(src, dst).ss > 0.0
    ensures var g := Moments(src, dst);
            Best(src, dst) == Centring(g.P() / g.ss, g.Q() / g.ss, Mean(src), Mean(dst))
  {
  }

  lemma CentringResidual(a: real, b: real, src: seq<Point>, dst: seq<Point>)
    requires |src| == |dst| == LANDMARKS
    ensures Residual(Centring(a, b, Mean(src), Mean(dst)), src, dst) == Quadratic(a, b, Moments(src, dst))
  {
    hide *;
    CentringShape(a, b, Mean(src), Mean(dst));
    CentringOffset(a, b, src, dst);
    RotationResidual(Centring(a, b, Mean(src), Mean(dst)), src, dst);
    NoLength();
  }

  lemma NoLength()
    ensures Length2(Point(0.0, 0.0)) == 0.0
  {
  }

  lemma CentringShape(a: real, b: real, s: Point, d: Point)
    ensures var m := Centring(a, b, s, d); m.Rotates() && m.m00 == a && m.m10 == b
  {
  }

  lemma {:induction false} FlippedMoments(s: seq<Point>, d: seq<Point>, n: nat)
    requires n <= |s| == |d|
    ensures var g, f := Products(s, d, n), Products(Flip(s), d, n);
            f == Mirrored(g)
  {
    hide Term, Mirrored;
    if n > 0 {
      FlippedMoments(s, d, n - 1);
      FlippedTerm(Products(s, d, n - 1), s[n - 1], d[n - 1]);
    } else {
      NothingMirrored();
    }
  }

  function Mirrored(g: Gram): Gram {
    g.(xy := -g.xy, yy := -g.yy)
  }

  lemma NothingMirrored()
    ensures Mirrored(Gram(0.0, 0.0, 0.0, 0.0, 0.0, 0.0)) == Gram(0.0, 0.0, 0.0, 0.0, 0.0, 0.0)
  {
  }

  lemma FlippedTerm(g: Gram, s: Point, d: Point)
    ensures Term(Mirrored(g), Point(s.x, -s.y), d) == Mirrored(Term(g, s, d))
  {
    var t, f := Term(g, s, d), Point(s.x, -s.y);
    NegatedEntry(g.xy, d.x, s.y, f.y, t.xy);
    NegatedEntry(g.yy, d.y, s.y, f.y, t.yy);
    NegatedBoth(s.y, s.y, f.y, f.y);
  }

  lemma NegatedEntry(a: real, x: real, y: real, ny: real, t: real)
    requires ny == -y && t == a + x * y
    ensures -a + x * ny == -t
  {
  }

  lemma NegatedBoth(x: real, y: real, nx: real, ny: real)
    requires nx == -x && ny == -y
    ensures nx * ny == x * y
  {
  }

  lemma Negated(x: real, y: real)
    ensures x * -y == -(x * y)
    ensures -x * y == -(x * y)
  {
  }

  /** The mirror image in the horizontal axis. */
  function Flip(s: seq<Point>): (r: seq<Point>)
    ensures |r| == |s|
  {
    seq(|s|, i requires 0 <= i < |s| => Point(s[i].x, -s[i].y))
  }

  lemma {:induction false} FlippedSum(s: seq<Point>, n: nat)
    requires n <= |s|
    ensures Sum(Flip(s), n) == Point(Sum(s, n).x, -Sum(s, n).y)
  {
    if n > 0 { FlippedSum(s, n - 1); }
  }

  lemma FlippedDemeaned(s: seq<Point>)
    requires |s| == LANDMARKS
    ensures Demeaned(Flip(s)) == Flip(Demeaned(s))
  {
    FlippedSum(s, LANDMARKS);
  }

  /** A reflecting similarity is a rotating one of the mirror image. */
  lemma {:induction false} FlippedCost(m: Affine, s: seq<Point>, d: seq<Point>, n: nat)
    requires n <= |s| == |d|
    ensures Cost(m, s, d, n) == Cost(m.(m01 := -m.m01, m11 := -m.m11), Flip(s), d, n)
  {
    hide Distance2;
    if n > 0 {
      FlippedCost(m, s, d, n - 1);
      FlippedApply(m, m.(m01 := -m.m01, m11 := -m.m11), s[n - 1], Flip(s)[n - 1]);
    }
  }

  lemma FlippedApply(m: Affine, q: Affine, p: Point, f: Point)
    requires q == m.(m01 := -m.m01, m11 := -m.m11) && f == Point(p.x, -p.y)
    ensures m.Apply(p) == q.Apply(f)
  {
    ApplyRows(m, p);
    ApplyRows(q, f);
    hide Affine.Apply;
    FlippedRow(m.m00, m.m01, m.m02, p.x, p.y, q.m00, q.m01, q.m02, f.x, f.y);
    FlippedRow(m.m10, m.m11, m.m12, p.x, p.y, q.m10, q.m11, q.m12, f.x, f.y);
  }

  lemma ApplyRows(m: Affine, p: Point)
    ensures m.Apply(p).x == m.m00 * p.x + m.m01 * p.y + m.m02
    ensures m.Apply(p).y == m.m10 * p.x + m.m11 * p.y + m.m12
  {
  }

  lemma FlippedRow(a: real, b: real, t: real, x: real, y: real, a1: real, b1: real, t1: real, x1: real, y1: real)
    requires a1 == a && b1 == -b && t1 == t && x1 == x && y1 == -y
    ensures a * x + b * y + t == a1 * x1 + b1 * y1 + t1
  {
  }

  /** No similarity, rotating or reflecting, fits the landmarks better than the one returned. */
  lemma BestIsOptimal(src: seq<Point>, dst: seq<Point>, q: Affine)
    requires |src| == |dst| == LANDMARKS && Moments(src, dst).ss > 0.0
    requires q.Rotates() || (q.Reflects() && Moments(src, dst).Det() >= 0.0)
    ensures Residual(Best(src, dst), src, dst) <= Residual(q, src, dst)
  {
    if q.Rotates() {
      NoBetterRotation(src, dst, q);
    } else {
      NoBetterReflection(src, dst, q);
    }
  }

  lemma NoBetterRotation(src: seq<Point>, dst: seq<Point>, q: Affine)
    requires |src| == |dst| == LANDMARKS && Moments(src, dst).ss > 0.0 && q.Rotates()
    ensures Residual(Best(src, dst), src, dst) <= Residual(q, src, dst)
  {
    hide *;
    Quotients(src, dst);
    AtLeastQuadratic(q, src, dst);
    Minimum(q.m00, q.m10, Best(src, dst).m00, Best(src, dst).m10, Moments(src, dst));
  }

  lemma NoBetterReflection(src: seq<Point>, dst: seq<Point>, q: Affine)
    requires |src| == |dst| == LANDMARKS && Moments(src, dst).ss > 0.0 && q.Reflects() && Moments(src, dst).Det() >= 0.0
    ensures Residual(Best(src, dst), src, dst) <= Residual(q, src, dst)
  {
    hide *;
    Quotients(src, dst);
    ReflectionResidual(q, src, dst);
    ReflectionIsWorse(q.m00, q.m10, Best(src, dst).m00, Best(src, dst).m10, Moments(src, dst));
  }

  lemma ReflectionIsWorse(a: real, b: real, a0: real, b0: real, g: Gram)
    requires g.ss > 0.0 && a0 * g.ss == g.P() && b0 * g.ss == g.Q() && g.Det() >= 0.0
    ensures Quadratic(a0, b0, g) <= Quadratic(a, b, Mirrored(g))
  {
    hide Quadratic;
    var f := Mirrored(g);
    var a1, b1 := f.P() / f.ss, f.Q() / f.ss;
    Minimum(a, b, a1, b1, f);
    Minimum(a0, b0, a0, b0, g);
    hide Square;
    RotationGain(g.xx, g.xy, g.yx, g.yy, g.P(), g.Q(), f.P(), f.Q());
    Same(Quadratic(a1, b1, f), f.ss, g.ss);
    Same(g.dd, f.ss, g.ss);
    var x, y := Quadratic(a0, b0, g) * g.ss, Quadratic(a1, b1, f) * g.ss;
    assert x == g.dd * g.ss - (Square(g.P()) + Square(g.Q()));
    assert y == g.dd * g.ss - (Square(f.P()) + Square(f.Q()));
    assert Square(g.P()) + Square(g.Q()) - (Square(f.P()) + Square(f.Q())) == 4.0 * g.Det();
    assert x <= y;
    Ordered(Quadratic(a0, b0, g), Quadratic(a1, b1, f), g.ss, x, y);
  }

  lemma ReflectionResidual(q: Affine, src: seq<Point>, dst: seq<Point>)
    requires |src| == |dst| == LANDMARKS && q.Reflects()
    ensures var g := Moments(src, dst);
            Residual(q, src, dst) >= Quadratic(q.m00, q.m10, Mirrored(g))
  {
    FlippedCost(q, src, dst, LANDMARKS);
    FlippedDemeaned(src);
    FlippedMoments(Demeaned(src), Demeaned(dst), LANDMARKS);
    AtLeastQuadratic(q.(m01 := -q.m01, m11 := -q.m11), Flip(src), dst);
  }

  /** What a rotation can gain exceeds what a reflection can by four determinants. */
  lemma RotationGain(xx: real, xy: real, yx: real, yy: real, p: real, q: real, p1: real, q1: real)
    requires p == xx + yy && q == yx - xy && p1 == xx - yy && q1 == yx + xy
    ensures Square(p) + Square(q) - (Square(p1) + Square(q1)) == 4.0 * (xx * yy - xy * yx)
  {
  }

  /** The guards: enough variance, a proper orientation, enough scale. */
  predicate Accepted(src: seq<Point>, dst: seq<Point>)
    requires |src| == |dst| == LANDMARKS
  {
    var g := Moments(src, dst);
    && g.ss / 5.0 >= EPS_VAR
    && g.Det() > 0.0
    && Square(g.P()) + Square(g.Q()) >= Square(EPS_SCALE * g.ss)
  }

  /* ---- exact images and degenerate landmarks ---- */

  lemma {:induction false} CostSplits(m: Affine, s: seq<Point>, d: seq<Point>, n: nat)
    requires n <= |s| == |d|
    ensures Cost(m, s, d, n) == 0.0 <==> forall i :: 0 <= i < n ==> m.Apply(s[i]) == d[i]
  {
    hide Affine.Apply;
    if n > 0 {
      CostSplits(m, s, d, n - 1);
      var x := Distance2(m.Apply(s[n - 1]), d[n - 1]);
      if m.Apply(s[n - 1]) == d[n - 1] { assert x == Square(0.0) + Square(0.0) == 0.0; }
    }
  }

  /** When the destinations are an image of the sources under a similarity, every landmark is mapped exactly. */
  lemma ExactImage(src: seq<Point>, dst: seq<Point>, q: Affine)
    requires |src| == |dst| == LANDMARKS && Moments(src, dst).ss > 0.0
    requires q.Rotates() || (q.Reflects() && Moments(src, dst).Det() >= 0.0)
    requires forall i :: 0 <= i < LANDMARKS ==> q.Apply(src[i]) == dst[i]
    ensures forall i :: 0 <= i < LANDMARKS ==> Best(src, dst).Apply(src[i]) == dst[i]
  {
    hide Cost, Affine.Apply, Best, Moments, Gram.Det;
    BestIsOptimal(src, dst, q);
    CostSplits(q, src, dst, LANDMARKS);
    CostSplits(Best(src, dst), src, dst, LANDMARKS);
  }

  /** Two rotating similarities that agree on two points are the same. */
  lemma TwoPoints(m: Affine, q: Affine, s: Point, t: Point)
    requires m.Rotates() && q.Rotates() && s != t && m.Apply(s) == q.Apply(s) && m.Apply(t) == q.Apply(t)
    ensures m == q
  {
    hide *;
    ApplyDifference(m, q, s, t);
    DifferentPoints(m, q, s, t);
    NoRotation(m.m00 - q.m00, m.m01 - q.m01, m.m10 - q.m10, m.m11 - q.m11, s.x - t.x, s.y - t.y);
    SameOffsets(m, q, s);
  }

  lemma DifferentPoints(m: Affine, q: Affine, s: Point, t: Point)
    requires m.Rotates() && q.Rotates() && s != t
    ensures m.m01 - q.m01 == -(m.m10 - q.m10) && m.m11 - q.m11 == m.m00 - q.m00 && (s.x - t.x != 0.0 || s.y - t.y != 0.0)
    ensures m.m00 - q.m00 == 0.0 && m.m10 - q.m10 == 0.0 ==> m.m01 == q.m01 && m.m11 == q.m11
  {
  }

  lemma ApplyDifference(m: Affine, q: Affine, s: Point, t: Point)
    requires m.Apply(s) == q.Apply(s) && m.Apply(t) == q.Apply(t)
    ensures (m.m00 - q.m00) * (s.x - t.x) + (m.m01 - q.m01) * (s.y - t.y) == 0.0
    ensures (m.m10 - q.m10) * (s.x - t.x) + (m.m11 - q.m11) * (s.y - t.y) == 0.0
  {
    Rows(m, q, s);
    Rows(m, q, t);
    hide *;
    RowDifference(m.m00, m.m01, m.m02, q.m00, q.m01, q.m02, s.x, s.y, t.x, t.y);
    RowDifference(m.m10, m.m11, m.m12, q.m10, q.m11, q.m12, s.x, s.y, t.x, t.y);
  }

  lemma Rows(m: Affine, q: Affine, s: Point)
    requires m.Apply(s) == q.Apply(s)
    ensures m.m00 * s.x + m.m01 * s.y + m.m02 == q.m00 * s.x + q.m01 * s.y + q.m02
    ensures m.m10 * s.x + m.m11 * s.y + m.m12 == q.m10 * s.x + q.m11 * s.y + q.m12
  {
  }

  lemma SameOffsets(m: Affine, q: Affine, s: Point)
    requires m.Apply(s) == q.Apply(s) && m.m00 == q.m00 && m.m01 == q.m01 && m.m10 == q.m10 && m.m11 == q.m11
    ensures m == q
  {
    SameOffset(m.m00, m.m01, m.m02, q.m00, q.m01, q.m02, s.x, s.y);
    SameOffset(m.m10, m.m11, m.m12, q.m10, q.m11, q.m12, s.x, s.y);
  }

  lemma SameOffset(a: real, b: real, c: real, a1: real, b1: real, c1: real, x: real, y: real)
    requires a == a1 && b == b1 && a * x + b * y + c == a1 * x + b1 * y + c1
    ensures c == c1
  {
  }

  lemma RowDifference(a: real, b: real, c: real, a1: real, b1: real, c1: real, sx: real, sy: real, tx: real, ty: real)
    requires a * sx + b * sy + c == a1 * sx + b1 * sy + c1 && a * tx + b * ty + c == a1 * tx + b1 * ty + c1
    ensures (a - a1) * (sx - tx) + (b - b1) * (sy - ty) == 0.0
  {
  }

  lemma NoRotation(a: real, nb: real, b: real, a1: real, x: real, y: real)
    requires nb == -b && a1 == a && (x != 0.0 || y != 0.0)
    requires a * x + nb * y == 0.0 && b * x + a1 * y == 0.0
    ensures a == 0.0 && b == 0.0
  {
    RotatedLength(a, b, x, y, a * x + nb * y, b * x + a1 * y);
    assert Square(0.0) == 0.0;
    var l, k := Square(a) + Square(b), Square(x) + Square(y);
    if l > 0.0 { Product(l, k, l * k); }
  }

  lemma RotatedLength(a: real, b: real, x: real, y: real, u: real, v: real)
    requires u == a * x - b * y && v == b * x + a * y
    ensures Square(u) + Square(v) == (Square(a) + Square(b)) * (Square(x) + Square(y))
  {
  }

  /** The landmarks lie on the line `n . p == c`; coincident ones do for every `n`. */
  ghost predicate OnLine(s: seq<Point>, n: Point, c: real) {
    forall i :: 0 <= i < |s| ==> n.x * s[i].x + n.y * s[i].y == c
  }

  lemma {:induction false} LineSum(s: seq<Point>, n: Point, c: real, k: nat)
    requires OnLine(s, n, c) && k <= |s|
    ensures n.x * Sum(s, k).x + n.y * Sum(s, k).y == k as real * c
  {
    if k > 0 {
      LineSum(s, n, c, k - 1);
      OneMore(k, c);
      Distribute(n.x, Sum(s, k - 1).x, s[k - 1].x);
      Distribute(n.y, Sum(s, k - 1).y, s[k - 1].y);
    }
  }

  lemma DemeanedOnLine(s: seq<Point>, n: Point, c: real)
    requires |s| == LANDMARKS && OnLine(s, n, c)
    ensures OnLine(Demeaned(s), n, 0.0)
  {
    LineSum(s, n, c, LANDMARKS);
    assert n.x * Mean(s).x + n.y * Mean(s).y == c;
    forall i | 0 <= i < LANDMARKS ensures n.x * Demeaned(s)[i].x + n.y * Demeaned(s)[i].y == 0.0 {
      Distribute(n.x, s[i].x, Mean(s).x);
      Distribute(n.y, s[i].y, Mean(s).y);
    }
  }

  lemma {:induction false} LineProducts(s: seq<Point>, d: seq<Point>, n: Point, k: nat)
    requires OnLine(s, n, 0.0) && k <= |s| == |d|
    ensures var g := Products(s, d, k); n.x * g.xx + n.y * g.xy == 0.0 && n.x * g.yx + n.y * g.yy == 0.0
  {
    if k > 0 {
      LineProducts(s, d, n, k - 1);
      OneMoreProduct(s, d, n, k);
      hide *;
      LineTerm(Products(s, d, k - 1), s[k - 1], d[k - 1], n);
    }
  }

  lemma OneMoreProduct(s: seq<Point>, d: seq<Point>, n: Point, k: nat)
    requires OnLine(s, n, 0.0) && 0 < k <= |s| == |d|
    ensures Products(s, d, k) == Term(Products(s, d, k - 1), s[k - 1], d[k - 1])
    ensures n.x * s[k - 1].x + n.y * s[k - 1].y == 0.0
  {
    hide Term;
  }

  lemma LineTerm(g: Gram, s: Point, d: Point, n: Point)
    requires n.x * g.xx + n.y * g.xy == 0.0 && n.x * g.yx + n.y * g.yy == 0.0 && n.x * s.x + n.y * s.y == 0.0
    ensures var h := Term(g, s, d); n.x * h.xx + n.y * h.xy == 0.0 && n.x * h.yx + n.y * h.yy == 0.0
  {
    Same(d.x, n.x * s.x + n.y * s.y, 0.0);
    Same(d.y, n.x * s.x + n.y * s.y, 0.0);
    Distribute(n.x, g.xx, d.x * s.x);
    Distribute(n.y, g.xy, d.x * s.y);
    Distribute(n.x, g.yx, d.y * s.x);
    Distribute(n.y, g.yy, d.y * s.y);
  }

  /** Collinear and coincident landmarks are never accepted. */
  lemma CollinearRejected(src: seq<Point>, dst: seq<Point>, n: Point, c: real)
    requires |src| == |dst| == LANDMARKS && n != Point(0.0, 0.0) && OnLine(src, n, c)
    ensures !Accepted(src, dst)
  {
    hide *;
    DemeanedOnLine(src, n, c);
    MomentsAre(src, dst);
    LineProducts(Demeaned(src), Demeaned(dst), n, LANDMARKS);
    var g := Moments(src, dst);
    NoDeterminant(n.x, n.y, g.xx, g.xy, g.yx, g.yy);
    NoneAccepted(src, dst);
  }

  lemma MomentsAre(src: seq<Point>, dst: seq<Point>)
    requires |src| == |dst| == LANDMARKS
    ensures Moments(src, dst) == Products(Demeaned(src), Demeaned(dst), LANDMARKS)
    ensures |Demeaned(src)| == |Demeaned(dst)| == LANDMARKS
  {
    hide Products;
  }

  lemma AcceptedIs(src: seq<Point>, dst: seq<Point>)
    requires |src| == |dst| == LANDMARKS
    ensures var g := Moments(src, dst);
            Accepted(src, dst)
            <==> g.ss / 5.0 >= EPS_VAR && g.Det() > 0.0 && Square(g.P()) + Square(g.Q()) >= Square(EPS_SCALE * g.ss)
  {
    hide Moments;
  }

  lemma NoneAccepted(src: seq<Point>, dst: seq<Point>)
    requires |src| == |dst| == LANDMARKS
    requires var g := Moments(src, dst); g.xx * g.yy - g.xy * g.yx == 0.0
    ensures !Accepted(src, dst)
  {
    hide Moments;
  }

  lemma NoDeterminant(x: real, y: real, xx: real, xy: real, yx: real, yy: real)
    requires x != 0.0 || y != 0.0
    requires x * xx + y * xy == 0.0 && x * yx + y * yy == 0.0
    ensures xx * yy - xy * yx == 0.0
  {
    var det := xx * yy - xy * yx;
    assert x * det == (x * xx + y * xy) * yy - (x * yx + y * yy) * xy;
    assert y * det == (x * yx + y * yy) * xx - (x * xx + y * xy) * yx;
    Same(yy, x * xx + y * xy, 0.0);
    Same(xy, x * yx + y * yy, 0.0);
    Same(xx, x * yx + y * yy, 0.0);
    Same(yx, x * xx + y * xy, 0.0);
    assert x * det == 0.0 && y * det == 0.0;
  }

  /** An accepted similarity has a determinant of at least the square of the least scale. */
  lemma AcceptedScale(src: seq<Point>, dst: seq<Point>)
    requires |src| == |dst| == LANDMARKS && Accepted(src, dst)
    ensures Best(src, dst).Rotates() && Best(src, dst).Det() >= EPS_SCALE * EPS_SCALE
  {
    hide Moments, Best;
    var g, m := Moments(src, dst), Best(src, dst);
    Quotients(src, dst);
    ScaleBound(m.m00, m.m10, g.ss, g.P(), g.Q());
  }

  lemma ScaleBound(a: real, b: real, ss: real, p: real, q: real)
    requires ss > 0.0 && a * ss == p && b * ss == q && Square(p) + Square(q) >= Square(EPS_SCALE * ss)
    ensures a * a + b * b >= EPS_SCALE * EPS_SCALE
  {
    var d := a * a + b * b - EPS_SCALE * EPS_SCALE;
    assert Square(a * ss) == a * a * Square(ss) && Square(b * ss) == b * b * Square(ss);
    assert d * Square(ss) == Square(p) + Square(q) - Square(EPS_SCALE * ss);
    if d < 0.0 { Product(-d, Square(ss), -d * Square(ss)); }
  }

  /* ---- the estimator ---- */

  /** The numbers of the closed form: `a` to `d` are the entries of `A`, `h` its sum of singular values, and
      `((a + d) / h, (c - b) / h)` the direction of the rotation. */
  ghost predicate IsClosedForm(g: Gram, a: real, b: real, c: real, d: real, h: real) {
    && a == g.xx / 5.0 && b == g.xy / 5.0 && c == g.yx / 5.0 && d == g.yy / 5.0 && g.ss > 0.0
    && h >= 0.0 && (a * d - b * c > 0.0 ==> h * h == a * a + b * b + c * c + d * d + 2.0 * (a * d - b * c))
  }

  lemma Guards(g: Gram, a: real, b: real, c: real, d: real, h: real)
    requires IsClosedForm(g, a, b, c, d, h)
    ensures a * d - b * c > 0.0 <==> g.Det() > 0.0
    ensures a * d - b * c > 0.0 ==>
              h > 0.0 && (h / (g.ss / 5.0) >= EPS_SCALE <==> Square(g.P()) + Square(g.Q()) >= Square(EPS_SCALE * g.ss))
  {
    Fifths(g.xx, g.xy, g.yx, g.yy, a, b, c, d);
    if a * d - b * c > 0.0 {
      SumOfSquares(g.xx, g.xy, g.yx, g.yy);
      RootPositive(h, a * a + b * b + c * c + d * d + 2.0 * (a * d - b * c));
      FiveFold(h, h * h);
      Threshold(h, g.ss / 5.0, EPS_SCALE);
      SquareOrder(EPS_SCALE * g.ss, 5.0 * h, Square(EPS_SCALE * g.ss), Square(5.0 * h));
    }
  }

  lemma FiveFold(h: real, hh: real)
    requires hh == h * h
    ensures Square(5.0 * h) == 25.0 * hh
  {
  }

  lemma RotationParts(g: Gram, a: real, b: real, c: real, d: real, h: real)
    requires IsClosedForm(g, a, b, c, d, h) && h > 0.0
    ensures h / (g.ss / 5.0) * ((a + d) / h) == g.P() / g.ss
    ensures h / (g.ss / 5.0) * ((c - b) / h) == g.Q() / g.ss
  {
    var v := g.ss / 5.0;
    assert a + d == g.P() / 5.0 && c - b == g.Q() / 5.0;
    Ratio(h, v, a + d);
    Ratio(h, v, c - b);
    FifthRatio(g.P(), g.ss);
    FifthRatio(g.Q(), g.ss);
  }

  lemma Fifths(xx: real, xy: real, yx: real, yy: real, a: real, b: real, c: real, d: real)
    requires a * 5.0 == xx && b * 5.0 == xy && c * 5.0 == yx && d * 5.0 == yy
    ensures (a * d - b * c) * 25.0 == xx * yy - xy * yx
    ensures (a * a + b * b + c * c + d * d + 2.0 * (a * d - b * c)) * 25.0 == Square(xx + yy) + Square(yx - xy)
  {
  }

  /** A matrix of positive determinant has a rotation part. */
  lemma SumOfSquares(xx: real, xy: real, yx: real, yy: real)
    requires xx * yy - xy * yx > 0.0
    ensures Square(xx + yy) + Square(yx - xy) > 0.0
  {
    RotationGain(xx, xy, yx, yy, xx + yy, yx - xy, xx - yy, yx + xy);
  }

  lemma Ratio(h: real, v: real, p: real)
    requires h > 0.0 && v > 0.0
    ensures h / v * (p / h) == p / v
  {
    var x, y := h / v, p / h;
    assert x * v == h && y * h == p;
    assert (x * y) * v == p;
    Quotient(p, v, x * y);
  }

  lemma FifthRatio(p: real, v: real)
    requires v > 0.0
    ensures p / 5.0 / (v / 5.0) == p / v
  {
    var q := p / 5.0 / (v / 5.0);
    assert q * (v / 5.0) == p / 5.0;
    Quotient(p, v, q);
  }

  /** `estimate_similarity`: it accepts by the guards and returns the optimum. */
  method EstimateSimilarity(src: seq<Point>, dst: seq<Point>, root: real -> real) returns (r: Option<Affine>)
    requires |src| == |dst| == LANDMARKS && IsRoot(root)
    ensures r.Some? <==> Accepted(src, dst)
    ensures r.Some? ==> r.value == Best(src, dst)
  {
    var smx, smy, dmx, dmy := 0.0, 0.0, 0.0, 0.0;
    for i := 0 to LANDMARKS
      invariant Point(smx, smy) == Sum(src, i) && Point(dmx, dmy) == Sum(dst, i)
    {
      smx, smy := smx + src[i].x, smy + src[i].y;
      dmx, dmy := dmx + dst[i].x, dmy + dst[i].y;
    }
    smx, smy, dmx, dmy := smx / 5.0, smy / 5.0, dmx / 5.0, dmy / 5.0;
    assert Point(smx, smy) == Mean(src) && Point(dmx, dmy) == Mean(dst);

    var g := Accumulate(src, dst, Point(smx, smy), Point(dmx, dmy));
    AcceptedIs(src, dst);
    if g.ss > 0.0 { BestParts(src, dst); }
    hide *;
    r := ClosedForm(g, Point(smx, smy), Point(dmx, dmy), root);
  }

  lemma BestParts(src: seq<Point>, dst: seq<Point>)
    requires |src| == |dst| == LANDMARKS && Moments(src, dst).ss > 0.0
    ensures var g := Moments(src, dst); Best(src, dst) == Centring(g.P() / g.ss, g.Q() / g.ss, Mean(src), Mean(dst))
  {
    hide Moments, Centring;
  }

  /** The scalar part: the guards, the scale and the angle from the moments. */
  method ClosedForm(g: Gram, sm: Point, dm: Point, root: real -> real) returns (r: Option<Affine>)
    requires IsRoot(root)
    ensures r.Some? <==>
              g.ss / 5.0 >= EPS_VAR && g.Det() > 0.0 && Square(g.P()) + Square(g.Q()) >= Square(EPS_SCALE * g.ss)
    ensures r.Some? ==> g.ss > 0.0 && r.value == Centring(g.P() / g.ss, g.Q() / g.ss, sm, dm)
  {
    hide Square, Translated;
    var a00, a01, a10, a11, variance := g.xx / 5.0, g.xy / 5.0, g.yx / 5.0, g.yy / 5.0, g.ss / 5.0;
    if variance < EPS_VAR { return None; }
    var det := a00 * a11 - a01 * a10;
    var h := 0.0;
    if det > 0.0 { h := SingularSum(a00, a01, a10, a11, root); }
    Guards(g, a00, a01, a10, a11, h);
    if det <= 0.0 { return None; }
    var scale := h / variance;
    if scale < EPS_SCALE { return None; }
    var c, s := (a00 + a11) / h, (a10 - a01) / h;
    var r00, r01, r10, r11 := scale * c, -scale * s, scale * s, scale * c;
    Assembled(g, a00, a01, a10, a11, h, variance, scale, c, s, r00, r01, r10, r11, sm, dm);
    r := Some(Translated(r00, r01, r10, r11, sm, dm));
  }

  lemma Assembled(g: Gram, a: real, b: real, c: real, d: real, h: real, v: real, scale: real, co: real, si: real,
                  r00: real, r01: real, r10: real, r11: real, sm: Point, dm: Point)
    requires IsClosedForm(g, a, b, c, d, h) && h > 0.0 && v == g.ss / 5.0
    requires scale == h / v && co == (a + d) / h && si == (c - b) / h
    requires r00 == scale * co && r01 == -scale * si && r10 == scale * si && r11 == scale * co
    ensures Translated(r00, r01, r10, r11, sm, dm) == Centring(g.P() / g.ss, g.Q() / g.ss, sm, dm)
  {
    RotationParts(g, a, b, c, d, h);
    Negated(scale, si);
    hide Translated, IsClosedForm;
    assert Centring(r00, r10, sm, dm) == Translated(r00, r01, r10, r11, sm, dm);
  }

  method SingularSum(a: real, b: real, c: real, d: real, root: real -> real) returns (h: real)
    requires IsRoot(root) && a * d - b * c > 0.0
    ensures h >= 0.0 && h * h == a * a + b * b + c * c + d * d + 2.0 * (a * d - b * c)
  {
    var fro2 := a * a + b * b + c * c + d * d;
    var x := fro2 + 2.0 * (a * d - b * c);
    ClampIdle(a, b, c, d, a * a, b * b, c * c, d * d, a * d - b * c, x);
    h := root(if x > 0.0 then x else 0.0);
  }

  /** The clamp before the square root does nothing. */
  lemma ClampIdle(a: real, b: real, c: real, d: real, aa: real, bb: real, cc: real, dd: real, det: real, x: real)
    requires aa == a * a && bb == b * b && cc == c * c && dd == d * d && det > 0.0 && x == aa + bb + cc + dd + 2.0 * det
    ensures x > 0.0
  {
    Positive(a, aa);
    Positive(b, bb);
    Positive(c, cc);
    Positive(d, dd);
  }

  method Accumulate(src: seq<Point>, dst: seq<Point>, sm: Point, dm: Point) returns (g: Gram)
    requires |src| == |dst| == LANDMARKS && sm == Mean(src) && dm == Mean(dst)
    ensures g == Moments(src, dst)
  {
    hide Mean, Term;
    g := Gram(0.0, 0.0, 0.0, 0.0, 0.0, 0.0);
    for i := 0 to LANDMARKS
      invariant g == Products(Demeaned(src), Demeaned(dst), i)
    {
      var s, d := Point(src[i].x - sm.x, src[i].y - sm.y), Point(dst[i].x - dm.x, dst[i].y - dm.y);
      g := Term(g, s, d);
    }
  }
}
