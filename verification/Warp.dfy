/** The warp of a frame onto the aligned crop: template, inverse map, bilinear sampling. */
module Warp {
  import opened Wrappers
  import opened Arithmetic
  import opened Align

  const MAX_ALIGNED_SIZE: nat := 4096

  type Byte = x: int | 0 <= x < 256

  datatype Frame = Frame(w: nat, h: nat, bytes: seq<Byte>) {
    ghost predicate Valid() {
      |bytes| == w * h
    }
  }

  const ARCFACE_DST_112: seq<Point> :=
    [Point(38.2946, 51.6963), Point(73.5318, 51.5014), Point(56.0252, 71.7366),
     Point(41.5493, 92.3655), Point(70.7299, 92.2041)]

  function Scaled(s: seq<Point>, k: real): (r: seq<Point>)
    ensures |r| == |s|
  {
    seq(|s|, i requires 0 <= i < |s| => Point(s[i].x * k, s[i].y * k))
  }

  /** The template for a crop of the given edge. */
  function Template(size: nat): (r: seq<Point>)
    ensures |r| == LANDMARKS
  {
    Scaled(ARCFACE_DST_112, size as real / 112.0)
  }

  /* ---- the inverse ---- */

  datatype Inverse = Inverse(i00: real, i01: real, i10: real, i11: real)

  function InvertAffine(m: Affine): Option<Inverse> {
    if Abs(m.Det()) < EPS_DET then None
    else Some(Inverse(m.m11 / m.Det(), -m.m01 / m.Det(), -m.m10 / m.Det(), m.m00 / m.Det()))
  }

  /** The coordinates in the source that `align_face` samples for the output pixel `p`. */
  function Back(m: Affine, i: Inverse, p: Point): Point {
    Point(i.i00 * (p.x - m.m02) + i.i01 * (p.y - m.m12), i.i10 * (p.x - m.m02) + i.i11 * (p.y - m.m12))
  }

  /** The sampled point is the only one the alignment maps to the output pixel. */
  lemma BackIsInverse(m: Affine, p: Point, s: Point)
    requires InvertAffine(m).Some?
    ensures m.Apply(s) == p <==> s == Back(m, InvertAffine(m).value, p)
  {
    hide Back, InvertAffine;
    BackMapsForward(m, InvertAffine(m).value, p);
    if m.Apply(s) == p { BackUnique(m, InvertAffine(m).value, p, s); }
  }

  lemma BackUnique(m: Affine, i: Inverse, p: Point, s: Point)
    requires InvertAffine(m) == Some(i) && m.Apply(s) == p
    ensures s == Back(m, i, p)
  {
    hide Back, InvertAffine, Affine.Apply;
    InverseParts(m, i);
    ApplyParts(m, p, s);
    CramerUnique(m.m00, m.m01, m.m10, m.m11, m.Det(), i.i00, i.i01, i.i10, i.i11, s.x, s.y, p.x - m.m02, p.y - m.m12);
    BackParts(m, i, p);
  }

  lemma ApplyParts(m: Affine, p: Point, s: Point)
    requires m.Apply(s) == p
    ensures m.m00 * s.x + m.m01 * s.y == p.x - m.m02 && m.m10 * s.x + m.m11 * s.y == p.y - m.m12
  {
  }

  lemma InverseParts(m: Affine, i: Inverse)
    requires InvertAffine(m) == Some(i)
    ensures var d := m.Det(); d != 0.0 && i == Inverse(m.m11 / d, -m.m01 / d, -m.m10 / d, m.m00 / d)
  {
  }

  lemma BackMapsForward(m: Affine, i: Inverse, p: Point)
    requires InvertAffine(m) == Some(i)
    ensures m.Apply(Back(m, i, p)) == p
  {
    hide Back, InvertAffine;
    InverseParts(m, i);
    Cramer(m.m00, m.m01, m.m10, m.m11, m.Det(), i.i00, i.i01, i.i10, i.i11, p.x - m.m02, p.y - m.m12);
    BackParts(m, i, p);
  }

  lemma BackParts(m: Affine, i: Inverse, p: Point)
    ensures var (b, x, y) := (Back(m, i, p), p.x - m.m02, p.y - m.m12);
            && b == Point(i.i00 * x + i.i01 * y, i.i10 * x + i.i11 * y)
            && m.m00 * b.x + m.m01 * b.y == m.m00 * (i.i00 * x + i.i01 * y) + m.m01 * (i.i10 * x + i.i11 * y)
            && m.m10 * b.x + m.m11 * b.y == m.m10 * (i.i00 * x + i.i01 * y) + m.m11 * (i.i10 * x + i.i11 * y)
  {
  }

  lemma Cramer(m00: real, m01: real, m10: real, m11: real, d: real,
               i00: real, i01: real, i10: real, i11: real, x: real, y: real)
    requires d == m00 * m11 - m01 * m10 && d != 0.0
    requires i00 == m11 / d && i01 == -m01 / d && i10 == -m10 / d && i11 == m00 / d
    ensures m00 * (i00 * x + i01 * y) + m01 * (i10 * x + i11 * y) == x
    ensures m10 * (i00 * x + i01 * y) + m11 * (i10 * x + i11 * y) == y
  {
    CramerNamed(m00, m01, m10, m11, d, i00, i01, i10, i11, x, y, i00 * x + i01 * y, i10 * x + i11 * y);
  }

  lemma CramerNamed(m00: real, m01: real, m10: real, m11: real, d: real,
                    i00: real, i01: real, i10: real, i11: real, x: real, y: real, p: real, q: real)
    requires d == m00 * m11 - m01 * m10 && d != 0.0
    requires i00 == m11 / d && i01 == -m01 / d && i10 == -m10 / d && i11 == m00 / d
    requires p == i00 * x + i01 * y && q == i10 * x + i11 * y
    ensures m00 * p + m01 * q == x && m10 * p + m11 * q == y
  {
    Adjugate(i00, i01, m11, -m01, d, x, y);
    Adjugate(i10, i11, -m10, m00, d, x, y);
    var pd, qd := p * d, q * d;
    Determinant(m00, m01, m10, m11, d, x, y, pd, qd);
    Solved(m00, m01, p, q, d, pd, qd, x);
    Solved(m10, m11, p, q, d, pd, qd, y);
  }

  lemma Determinant(m00: real, m01: real, m10: real, m11: real, d: real, x: real, y: real, pd: real, qd: real)
    requires d == m00 * m11 - m01 * m10 && pd == m11 * x + -m01 * y && qd == -m10 * x + m00 * y
    ensures m00 * pd + m01 * qd == d * x && m10 * pd + m11 * qd == d * y
  {
  }

  lemma Adjugate(i: real, j: real, n: real, k: real, d: real, x: real, y: real)
    requires d != 0.0 && i == n / d && j == k / d
    ensures (i * x + j * y) * d == n * x + k * y
  {
    assert i * d == n && j * d == k;
    Times(i, x, d, n);
    Times(j, y, d, k);
  }

  lemma Times(i: real, x: real, d: real, n: real)
    requires i * d == n
    ensures (i * x) * d == n * x
  {
    assert (i * x) * d == (i * d) * x;
  }

  lemma Solved(a: real, b: real, p: real, q: real, d: real, pd: real, qd: real, x: real)
    requires d != 0.0 && p * d == pd && q * d == qd && a * pd + b * qd == d * x
    ensures a * p + b * q == x
  {
    var u := a * p + b * q;
    assert u * d == a * (p * d) + b * (q * d);
    Same(a, p * d, pd);
    Same(b, q * d, qd);
    Cancel(u, x, d);
  }

  lemma CramerUnique(m00: real, m01: real, m10: real, m11: real, d: real,
                     i00: real, i01: real, i10: real, i11: real, sx: real, sy: real, x: real, y: real)
    requires d == m00 * m11 - m01 * m10 && d != 0.0
    requires i00 == m11 / d && i01 == -m01 / d && i10 == -m10 / d && i11 == m00 / d
    requires m00 * sx + m01 * sy == x && m10 * sx + m11 * sy == y
    ensures sx == i00 * x + i01 * y && sy == i10 * x + i11 * y
  {
    NamedUnique(m00, m01, m10, m11, d, i00, i01, i10, i11, sx, sy, x, y, i00 * x + i01 * y, i10 * x + i11 * y);
  }

  lemma NamedUnique(m00: real, m01: real, m10: real, m11: real, d: real,
                    i00: real, i01: real, i10: real, i11: real, sx: real, sy: real, x: real, y: real, p: real, q: real)
    requires d == m00 * m11 - m01 * m10 && d != 0.0
    requires i00 == m11 / d && i01 == -m01 / d && i10 == -m10 / d && i11 == m00 / d
    requires m00 * sx + m01 * sy == x && m10 * sx + m11 * sy == y
    requires p == i00 * x + i01 * y && q == i10 * x + i11 * y
    ensures sx == p && sy == q
  {
    CramerNamed(m00, m01, m10, m11, d, i00, i01, i10, i11, x, y, p, q);
    OneSolution(m00, m01, m10, m11, d, sx, sy, p, q, x, y);
  }

  lemma OneSolution(m00: real, m01: real, m10: real, m11: real, d: real, sx: real, sy: real, p: real, q: real, x: real, y: real)
    requires d == m00 * m11 - m01 * m10 && d != 0.0
    requires m00 * sx + m01 * sy == x && m10 * sx + m11 * sy == y
    requires m00 * p + m01 * q == x && m10 * p + m11 * q == y
    ensures sx == p && sy == q
  {
    Equation(m00, m01, sx, sy, p, q, x);
    Equation(m10, m11, sx, sy, p, q, y);
    NullAlone(m00, m01, m10, m11, d, sx - p, sy - q);
  }

  lemma Equation(a: real, b: real, sx: real, sy: real, p: real, q: real, x: real)
    requires a * sx + b * sy == x && a * p + b * q == x
    ensures a * (sx - p) + b * (sy - q) == 0.0
  {
    Distribute(a, sx, p);
    Distribute(b, sy, q);
  }

  lemma NullAlone(m00: real, m01: real, m10: real, m11: real, d: real, a: real, b: real)
    requires d == m00 * m11 - m01 * m10 && d != 0.0
    requires m00 * a + m01 * b == 0.0 && m10 * a + m11 * b == 0.0
    ensures a == 0.0 && b == 0.0
  {
    assert d * a == m11 * (m00 * a + m01 * b) - m01 * (m10 * a + m11 * b);
    assert d * b == m00 * (m10 * a + m11 * b) - m10 * (m00 * a + m01 * b);
    Same(m11, m00 * a + m01 * b, 0.0);
    Same(m01, m10 * a + m11 * b, 0.0);
    Same(m00, m10 * a + m11 * b, 0.0);
    Same(m10, m00 * a + m01 * b, 0.0);
    Cancel(a, 0.0, d);
    Cancel(b, 0.0, d);
  }

  /** Whatever the estimator accepts can be inverted. */
  lemma AcceptedInverts(src: seq<Point>, dst: seq<Point>)
    requires |src| == |dst| == LANDMARKS && Accepted(src, dst)
    ensures InvertAffine(Best(src, dst)).Some?
  {
    AcceptedScale(src, dst);
  }

  /* ---- sampling ---- */

  function At(f: Frame, x: int, y: int): (r: real)
    requires f.Valid()
    ensures 0.0 <= r <= 255.0
  {
    if 0 <= x < f.w && 0 <= y < f.h then
      Inside(f, x, y);
      f.bytes[y * f.w + x] as real
    else 0.0
  }

  lemma Inside(f: Frame, x: nat, y: nat)
    requires f.Valid() && x < f.w && y < f.h
    ensures 0 <= y * f.w + x < |f.bytes|
  {
    assert y * f.w + f.w == (y + 1) * f.w;
    Below(y + 1, f.h, f.w);
  }

  function Mix(a: real, b: real, t: real): real { a * (1.0 - t) + b * t }

  lemma MixBetween(a: real, b: real, t: real, top: real)
    requires 0.0 <= a <= top && 0.0 <= b <= top && 0.0 <= t <= 1.0
    ensures 0.0 <= Mix(a, b, t) <= top
  {
    assert a * (1.0 - t) <= top * (1.0 - t);
    assert b * t <= top * t;
    assert a * (1.0 - t) >= 0.0 && b * t >= 0.0;
  }

  /** The interpolated value before rounding. */
  function Bilinear(f: Frame, s: Point): real
    requires f.Valid()
  {
    var (x0, y0) := (s.x.Floor, s.y.Floor);
    var (fx, fy) := (s.x - x0 as real, s.y - y0 as real);
    At(f, x0, y0) * (1.0 - fx) * (1.0 - fy) + At(f, x0 + 1, y0) * fx * (1.0 - fy)
    + At(f, x0, y0 + 1) * (1.0 - fx) * fy + At(f, x0 + 1, y0 + 1) * fx * fy
  }

  function Round(x: real): int { (x + 0.5).Floor }

  function Clamp(x: int): Byte { if x < 0 then 0 else if x > 255 then 255 else x }

  function SampleBilinear(f: Frame, s: Point): Byte
    requires f.Valid()
  {
    Clamp(Round(Bilinear(f, s)))
  }

  lemma BilinearIsMix(a: real, b: real, c: real, d: real, x: real, y: real)
    ensures a * (1.0 - x) * (1.0 - y) + b * x * (1.0 - y) + c * (1.0 - x) * y + d * x * y
            == Mix(Mix(a, b, x), Mix(c, d, x), y)
  {
  }

  /** The clamp never acts: interpolation stays within the values it interpolates. */
  lemma ClampIsIdle(f: Frame, s: Point)
    requires f.Valid()
    ensures 0.0 <= Bilinear(f, s) <= 255.0 && SampleBilinear(f, s) == Round(Bilinear(f, s))
  {
    hide At, Mix;
    var (x0, y0) := (s.x.Floor, s.y.Floor);
    var (fx, fy) := (s.x - x0 as real, s.y - y0 as real);
    var (a, b, c, d) := (At(f, x0, y0), At(f, x0 + 1, y0), At(f, x0, y0 + 1), At(f, x0 + 1, y0 + 1));
    assert Bilinear(f, s) == a * (1.0 - fx) * (1.0 - fy) + b * fx * (1.0 - fy) + c * (1.0 - fx) * fy + d * fx * fy;
    hide Bilinear;
    BilinearIsMix(a, b, c, d, fx, fy);
    MixOfMix(a, b, c, d, fx, fy);
  }

  lemma MixOfMix(a: real, b: real, c: real, d: real, x: real, y: real)
    requires 0.0 <= a <= 255.0 && 0.0 <= b <= 255.0 && 0.0 <= c <= 255.0 && 0.0 <= d <= 255.0
    requires 0.0 <= x <= 1.0 && 0.0 <= y <= 1.0
    ensures 0.0 <= Mix(Mix(a, b, x), Mix(c, d, x), y) <= 255.0
  {
    hide Mix;
    MixBetween(a, b, x, 255.0);
    MixBetween(c, d, x, 255.0);
    MixBetween(Mix(a, b, x), Mix(c, d, x), y, 255.0);
  }

  /** On a pixel of the frame the sample is that pixel. */
  lemma SampleAtPixel(f: Frame, x: nat, y: nat)
    requires f.Valid() && x < f.w && y < f.h
    ensures 0 <= y * f.w + x < |f.bytes| && SampleBilinear(f, Point(x as real, y as real)) == f.bytes[y * f.w + x]
  {
    Inside(f, x, y);
    var (a, b, c, d) := (At(f, x, y), At(f, x + 1, y), At(f, x, y + 1), At(f, x + 1, y + 1));
    assert (x as real).Floor == x && (y as real).Floor == y;
    BilinearIsMix(a, b, c, d, 0.0, 0.0);
    assert Mix(Mix(a, b, 0.0), Mix(c, d, 0.0), 0.0) == a;
    assert Bilinear(f, Point(x as real, y as real)) == a;
  }

  /* ---- the template ---- */

  lemma {:induction false} ScaledSum(s: seq<Point>, k: real, n: nat)
    requires n <= |s|
    ensures Sum(Scaled(s, k), n) == Point(Sum(s, n).x * k, Sum(s, n).y * k)
  {
    if n > 0 { ScaledSum(s, k, n - 1); }
  }

  lemma ScaledDemeaned(s: seq<Point>, k: real)
    requires |s| == LANDMARKS
    ensures Demeaned(Scaled(s, k)) == Scaled(Demeaned(s), k)
  {
    ScaledSum(s, k, LANDMARKS);
    ScaledQuotient(Sum(s, LANDMARKS).x, k);
    ScaledQuotient(Sum(s, LANDMARKS).y, k);
    forall i | 0 <= i < LANDMARKS ensures Demeaned(Scaled(s, k))[i] == Scaled(Demeaned(s), k)[i] {
      ScaledDifference(s[i].x, Mean(s).x, k);
      ScaledDifference(s[i].y, Mean(s).y, k);
    }
  }

  lemma ScaledQuotient(x: real, k: real)
    ensures x * k / 5.0 == x / 5.0 * k
  {
  }

  lemma ScaledDifference(x: real, y: real, k: real)
    ensures (x - y) * k == x * k - y * k
  {
  }

  function ScaledGram(g: Gram, c: real): Gram {
    Gram(g.xx * c, g.xy * c, g.yx * c, g.yy * c, g.ss * c, g.dd * c)
  }

  lemma ScaledDet(xx: real, xy: real, yx: real, yy: real, c: real, xxc: real, xyc: real, yxc: real, yyc: real, d: real, cc: real)
    requires xxc == xx * c && xyc == xy * c && yxc == yx * c && yyc == yy * c && d == xx * yy - xy * yx && cc == c * c
    ensures xxc * yyc - xyc * yxc == d * cc
  {
  }

  /** Points against themselves have no rotation part. */
  lemma {:induction false} OwnSymmetry(s: seq<Point>, n: nat)
    requires n <= |s|
    ensures var g := Products(s, s, n); g.Q() == 0.0 && g.P() == g.ss
  {
    if n > 0 { OwnSymmetry(s, n - 1); }
  }

  lemma {:induction false} ScaledProducts(s: seq<Point>, k: real, n: nat)
    requires n <= |s|
    ensures Products(Scaled(s, k), Scaled(s, k), n) == ScaledGram(Products(s, s, n), k * k)
  {
    hide Term, ScaledGram;
    if n > 0 {
      ScaledProducts(s, k, n - 1);
      ScaledTerm(Products(s, s, n - 1), s[n - 1], Scaled(s, k)[n - 1], k, k * k);
    } else {
      NoGram(k * k);
    }
  }

  lemma NoGram(c: real)
    ensures ScaledGram(Gram(0.0, 0.0, 0.0, 0.0, 0.0, 0.0), c) == Gram(0.0, 0.0, 0.0, 0.0, 0.0, 0.0)
  {
  }

  lemma ScaledTerm(g: Gram, p: Point, q: Point, k: real, c: real)
    requires q == Point(p.x * k, p.y * k) && c == k * k
    ensures Term(ScaledGram(g, c), q, q) == ScaledGram(Term(g, p, p), c)
  {
    ScaledFirstRow(g, p, q, k, c);
    ScaledSecondRow(g, p, q, k, c);
    ScaledLengths(g, p, q, k, c);
    ScaledParts(Term(g, p, p), c);
    hide Term, ScaledGram;
  }

  lemma ScaledParts(g: Gram, c: real)
    ensures ScaledGram(g, c) == Gram(g.xx * c, g.xy * c, g.yx * c, g.yy * c, g.ss * c, g.dd * c)
  {
  }

  lemma ScaledFirstRow(g: Gram, p: Point, q: Point, k: real, c: real)
    requires q == Point(p.x * k, p.y * k) && c == k * k
    ensures var t, u := Term(g, p, p), Term(ScaledGram(g, c), q, q);
            u.xx == t.xx * c && u.xy == t.xy * c
  {
    var t := Term(g, p, p);
    ScaledEntry(g.xx, p.x, p.x, q.x, q.x, k, c, t.xx);
    ScaledEntry(g.xy, p.x, p.y, q.x, q.y, k, c, t.xy);
  }

  lemma ScaledSecondRow(g: Gram, p: Point, q: Point, k: real, c: real)
    requires q == Point(p.x * k, p.y * k) && c == k * k
    ensures var t, u := Term(g, p, p), Term(ScaledGram(g, c), q, q);
            u.yx == t.yx * c && u.yy == t.yy * c
  {
    var t := Term(g, p, p);
    ScaledEntry(g.yx, p.y, p.x, q.y, q.x, k, c, t.yx);
    ScaledEntry(g.yy, p.y, p.y, q.y, q.y, k, c, t.yy);
  }

  lemma ScaledLengths(g: Gram, p: Point, q: Point, k: real, c: real)
    requires q == Point(p.x * k, p.y * k) && c == k * k
    ensures var t, u := Term(g, p, p), Term(ScaledGram(g, c), q, q); u.ss == t.ss * c && u.dd == t.dd * c
  {
    var t := Term(g, p, p);
    ScaledSquares(g.ss, p.x, p.y, q.x, q.y, k, c, t.ss);
    ScaledSquares(g.dd, p.x, p.y, q.x, q.y, k, c, t.dd);
  }

  lemma ScaledEntry(a: real, x: real, y: real, xk: real, yk: real, k: real, c: real, t: real)
    requires xk == x * k && yk == y * k && c == k * k && t == a + x * y
    ensures a * c + xk * yk == t * c
  {
  }

  lemma ScaledSquares(a: real, x: real, y: real, xk: real, yk: real, k: real, c: real, t: real)
    requires xk == x * k && yk == y * k && c == k * k && t == a + (x * x + y * y)
    ensures a * c + (xk * xk + yk * yk) == t * c
  {
  }

  /** The numbers of the template at its own size. */
  lemma CanonicalMoments()
    ensures var g := Moments(ARCFACE_DST_112, ARCFACE_DST_112);
            2702.0 < g.ss < 2703.0 && g.Det() > 0.0
  {
    var s := ARCFACE_DST_112;
    assert Mean(s) == Point(56.02616, 71.90078);
    assert Demeaned(s) == [Point(-17.73156, -20.20448), Point(17.50564, -20.39938), Point(-0.00096, -0.16418),
                           Point(-14.47686, 20.46472), Point(14.70374, 20.30332)];
    var d := Demeaned(s);
    var g1, g2, g3, g4 := Products(d, d, 1), Products(d, d, 2), Products(d, d, 3), Products(d, d, 4);
  }

  /** The template is accepted as its own image from a crop of five pixels on. */
  lemma TemplateAccepted(size: nat)
    requires size > 0
    ensures Accepted(Template(size), Template(size)) <==> size >= 5
  {
    hide Demeaned, Products, Sum, ScaledGram, Moments, Accepted, Scaled, Template, Mean, Square, ARCFACE_DST_112;
    var s, k, t := ARCFACE_DST_112, size as real / 112.0, Template(size);
    TemplateIs(size);
    CanonicalMoments();
    ScaledDemeaned(s, k);
    MomentsAre(s, s);
    MomentsAre(t, t);
    ScaledProducts(Demeaned(s), k, LANDMARKS);
    OwnSymmetry(Demeaned(t), LANDMARKS);
    ScaledGuards(Moments(s, s), Moments(t, t), size, k * k);
    AcceptedIs(t, t);
  }

  lemma TemplateIs(size: nat)
    ensures |ARCFACE_DST_112| == LANDMARKS && Template(size) == Scaled(ARCFACE_DST_112, size as real / 112.0)
  {
  }

  lemma ScaledGuards(g: Gram, h: Gram, size: nat, c: real)
    requires size > 0 && c == size as real / 112.0 * (size as real / 112.0)
    requires h == ScaledGram(g, c) && 2702.0 < g.ss < 2703.0 && g.Det() > 0.0 && h.P() == h.ss && h.Q() == 0.0
    ensures h.ss / 5.0 >= EPS_VAR <==> size >= 5
    ensures h.Det() > 0.0 && Square(h.P()) + Square(h.Q()) >= Square(EPS_SCALE * h.ss)
  {
    ScaleFactor(size, c);
    hide Square;
    ScaledOrientation(g, h, c);
    Product(g.ss, c, h.ss);
    Bounds(g.ss, c, h.ss);
    ScaleIsOne(h);
  }

  lemma ScaledOrientation(g: Gram, h: Gram, c: real)
    requires h == ScaledGram(g, c) && c > 0.0 && g.Det() > 0.0
    ensures h.Det() > 0.0
  {
    var d, cc := g.Det(), c * c;
    Product(c, c, cc);
    Product(d, cc, d * cc);
    ScaledDet(g.xx, g.xy, g.yx, g.yy, c, h.xx, h.xy, h.yx, h.yy, d, cc);
  }

  /** Points that are their own image need no scaling. */
  lemma ScaleIsOne(h: Gram)
    requires h.ss > 0.0 && h.P() == h.ss && h.Q() == 0.0
    ensures Square(h.P()) + Square(h.Q()) >= Square(EPS_SCALE * h.ss)
  {
    SquareOrder(EPS_SCALE * h.ss, h.ss, Square(EPS_SCALE * h.ss), Square(h.ss));
  }

  lemma ScaleFactor(size: nat, c: real)
    requires size > 0 && c == size as real / 112.0 * (size as real / 112.0)
    ensures c > 0.0 && (size >= 5 ==> 12544.0 * c >= 25.0) && (size <= 4 ==> 12544.0 * c <= 16.0)
  {
    var n := size as real;
    assert 12544.0 * c == n * n;
    if size >= 5 { SquareOrder(5.0, n, 25.0, n * n); } else { SquareOrder(n, 4.0, n * n, 16.0); }
    Product(n, n, n * n);
  }

  lemma Bounds(ss: real, c: real, r: real)
    requires 2702.0 < ss < 2703.0 && c > 0.0 && r == ss * c
    ensures 12544.0 * c >= 25.0 ==> r > 5.0
    ensures 12544.0 * c <= 16.0 ==> r < 5.0
  {
    Product(ss - 2702.0, c, r - 2702.0 * c);
    Product(2703.0 - ss, c, 2703.0 * c - r);
  }

  /** Fitting the template to itself is the identity. */
  lemma TemplateIsFixed(size: nat)
    requires size > 0 && Accepted(Template(size), Template(size))
    ensures forall p: Point :: Best(Template(size), Template(size)).Apply(p) == p
  {
    EyesApart(size);
    FixedBest(Template(size));
    forall p: Point ensures IDENTITY.Apply(p) == p { IdentityApplies(p); }
  }

  const IDENTITY: Affine := Affine(1.0, 0.0, 0.0, 0.0, 1.0, 0.0)

  lemma IdentityApplies(p: Point)
    ensures IDENTITY.Apply(p) == p && IDENTITY.Rotates()
  {
  }

  lemma FixedBest(t: seq<Point>)
    requires |t| == LANDMARKS && t[0] != t[1] && Accepted(t, t)
    ensures Best(t, t) == IDENTITY
  {
    hide Affine.Apply, Affine.Rotates, Moments, Best;
    AcceptedScale(t, t);
    forall i | 0 <= i < LANDMARKS ensures IDENTITY.Apply(t[i]) == t[i] { IdentityApplies(t[i]); }
    IdentityApplies(t[0]);
    ExactImage(t, t, IDENTITY);
    TwoPoints(Best(t, t), IDENTITY, t[0], t[1]);
  }

  lemma EyesApart(size: nat)
    requires size > 0
    ensures Template(size)[0] != Template(size)[1]
  {
    var k := size as real / 112.0;
    Product(73.5318 - 38.2946, k, 73.5318 * k - 38.2946 * k);
  }

  /* ---- the crop ---- */

  /** The output pixel number `k` of a crop, row by row. */
  function Pixel(size: nat, k: nat): Point
    requires size > 0
  {
    Point((k % size) as real, (k / size) as real)
  }

  /** `align_face`. */
  method AlignFace(frame: Frame, landmarks: seq<Point>, size: nat, root: real -> real) returns (r: Option<Frame>)
    requires frame.Valid() && |landmarks| == LANDMARKS && IsRoot(root)
    ensures r.Some? <==> 1 <= size <= MAX_ALIGNED_SIZE && Accepted(landmarks, Template(size))
    ensures r.Some? ==> r.value.Valid() && r.value.w == r.value.h == size
    ensures r.Some? ==> forall k, s ::
              0 <= k < size * size && Best(landmarks, Template(size)).Apply(s) == Pixel(size, k) ==>
              r.value.bytes[k] == SampleBilinear(frame, s)
  {
    hide Accepted, Best, SampleBilinear, Template;
    if size == 0 || size > MAX_ALIGNED_SIZE { return None; }
    var dst := Template(size);
    var forward := EstimateSimilarity(landmarks, dst, root);
    if forward == None { return None; }
    AcceptedInverts(landmarks, dst);
    var m := forward.value;
    var inverse := InvertAffine(m);
    var bytes := Sampled(frame, size, m, inverse.value);
    r := Some(Frame(size, size, bytes));
    forall k, s | 0 <= k < size * size && m.Apply(s) == Pixel(size, k) ensures bytes[k] == SampleBilinear(frame, s) {
      BackIsInverse(m, Pixel(size, k), s);
    }
  }

  method Sampled(frame: Frame, size: nat, m: Affine, inverse: Inverse) returns (bytes: seq<Byte>)
    requires frame.Valid() && size > 0
    ensures |bytes| == size * size
    ensures forall k :: 0 <= k < size * size ==> bytes[k] == SampleBilinear(frame, Back(m, inverse, Pixel(size, k)))
  {
    hide SampleBilinear, Back;
    var out := new Byte[size * size];
    for v := 0 to size
      invariant v * size <= size * size
      invariant forall k :: 0 <= k < v * size ==> out[k] == SampleBilinear(frame, Back(m, inverse, Pixel(size, k)))
    {
      Below(v + 1, size, size);
      for u := 0 to size
        invariant forall k :: 0 <= k < v * size + u ==> out[k] == SampleBilinear(frame, Back(m, inverse, Pixel(size, k)))
      {
        RowAndColumn(size, u, v);
        out[v * size + u] := SampleBilinear(frame, Back(m, inverse, Point(u as real, v as real)));
      }
    }
    bytes := out[..];
  }

  lemma RowAndColumn(size: nat, u: nat, v: nat)
    requires u < size
    ensures Pixel(size, v * size + u) == Point(u as real, v as real)
  {
    var k := v * size + u;
    var q, r := k / size, k % size;
    assert k == q * size + r;
    OneRow(size, v, u, q, r);
  }

  lemma OneRow(size: nat, v: nat, u: nat, q: nat, r: nat)
    requires u < size && r < size && v * size + u == q * size + r
    ensures v == q && u == r
  {
    if q < v {
      RowBefore(size, q, r, v, u);
    } else if q > v {
      RowBefore(size, v, u, q, r);
    }
  }

  lemma RowBefore(size: nat, q: nat, r: nat, v: nat, u: nat)
    requires q < v && r < size
    ensures q * size + r < v * size + u
  {
    Below(q + 1, v, size);
  }

  /** Landmarks on the template of a crop as large as the frame: accepted from an edge of five pixels on, and the crop
      is then the frame. */
  method IdentityCrop(frame: Frame, size: nat, root: real -> real) returns (r: Option<Frame>)
    requires frame.Valid() && frame.w == frame.h == size <= MAX_ALIGNED_SIZE && IsRoot(root)
    ensures r == if size >= 5 then Some(frame) else None
  {
    hide Accepted, Best, SampleBilinear, Template;
    var t := Template(size);
    r := AlignFace(frame, t, size, root);
    if size > 0 { TemplateAccepted(size); }
    if r.Some? {
      TemplateIsFixed(size);
      forall k | 0 <= k < size * size ensures r.value.bytes[k] == frame.bytes[k] {
        PixelSample(frame, size, k);
      }
      assert r.value.bytes == frame.bytes;
    }
  }

  lemma PixelSample(f: Frame, size: nat, k: nat)
    requires f.Valid() && f.w == f.h == size && k < size * size
    ensures k < |f.bytes| && SampleBilinear(f, Pixel(size, k)) == f.bytes[k]
  {
    hide *;
    PixelIs(size, k);
    SampleAtPixel(f, k % size, k / size);
  }

  lemma PixelIs(size: nat, k: nat)
    requires k < size * size
    ensures size > 0 && k % size < size && k / size < size && k == k / size * size + k % size
    ensures Pixel(size, k) == Point((k % size) as real, (k / size) as real)
  {
    if size == 0 { NoPixels(size); }
    RowInRange(size, k / size, k % size);
  }

  lemma NoPixels(size: nat)
    requires size == 0
    ensures size * size == 0
  {
  }

  lemma RowInRange(size: nat, v: nat, u: nat)
    requires v * size + u < size * size
    ensures v < size
  {
    if v >= size { Below(size, v, size); }
  }
}
