/** Cosine distance between embeddings, and the pooled embedding: buckets, centring, normalisation. */
module Matcher {
  import opened Wrappers
  import opened Arithmetic

  datatype Error = LengthMismatch | ZeroMagnitude | EmptyFrame | NoStructure

  /* ---- cosine distance ---- */

  function Dot(a: seq<real>, b: seq<real>, n: nat): real
    requires n <= |a| == |b|
  {
    if n == 0 then 0.0 else Dot(a, b, n - 1) + a[n - 1] * b[n - 1]
  }

  function Energy(a: seq<real>): real {
    Dot(a, a, |a|)
  }

  lemma {:induction false} DotSymmetric(a: seq<real>, b: seq<real>, n: nat)
    requires n <= |a| == |b|
    ensures Dot(a, b, n) == Dot(b, a, n)
  {
    if n > 0 { DotSymmetric(a, b, n - 1); }
  }

  function Mixed(a: seq<real>, b: seq<real>, x: real, y: real, i: nat): real
    requires i < |a| == |b|
  {
    x * a[i] - y * b[i]
  }

  /** `|x a - y b|^2`, term by term. */
  function Gap(a: seq<real>, b: seq<real>, x: real, y: real, n: nat): (r: real)
    requires n <= |a| == |b|
    ensures r >= 0.0
  {
    if n == 0 then 0.0 else Gap(a, b, x, y, n - 1) + Square(Mixed(a, b, x, y, n - 1))
  }

  function Expanded(x: real, y: real, aa: real, ab: real, bb: real): real {
    (x * x) * aa - 2.0 * ((x * y) * ab) + (y * y) * bb
  }

  lemma {:induction false} GapExpands(a: seq<real>, b: seq<real>, x: real, y: real, n: nat)
    requires n <= |a| == |b|
    ensures Gap(a, b, x, y, n) == Expanded(x, y, Dot(a, a, n), Dot(a, b, n), Dot(b, b, n))
  {
    hide Square, Expanded;
    if n > 0 {
      GapExpands(a, b, x, y, n - 1);
      var p, q := a[n - 1], b[n - 1];
      GapTerm(p, q, x, y, Dot(a, a, n - 1), Dot(a, b, n - 1), Dot(b, b, n - 1),
        Mixed(a, b, x, y, n - 1), Dot(a, a, n), Dot(a, b, n), Dot(b, b, n));
    } else {
      NoTerms(x, y);
    }
  }

  lemma GapTerm(p: real, q: real, x: real, y: real, aa: real, ab: real, bb: real, z: real, aa1: real, ab1: real, bb1: real)
    requires z == x * p - y * q && aa1 == aa + p * p && ab1 == ab + p * q && bb1 == bb + q * q
    ensures Square(z) + Expanded(x, y, aa, ab, bb) == Expanded(x, y, aa1, ab1, bb1)
  {
    assert Square(z) == (x * x) * (p * p) - 2.0 * ((x * y) * (p * q)) + (y * y) * (q * q);
    Distribute(x * x, aa, p * p);
    Distribute(x * y, ab, p * q);
    Distribute(y * y, bb, q * q);
    Same(x * x, aa1, aa + p * p);
    Same(x * y, ab1, ab + p * q);
    Same(y * y, bb1, bb + q * q);
  }

  lemma NoTerms(x: real, y: real)
    ensures Expanded(x, y, 0.0, 0.0, 0.0) == 0.0
  {
  }

  lemma EnergyPositive(a: seq<real>)
    ensures Energy(a) >= 0.0
  {
    GapExpands(a, a, 1.0, 0.0, |a|);
  }

  /** The Cauchy-Schwarz inequality. */
  lemma CauchySchwarz(a: seq<real>, b: seq<real>)
    requires |a| == |b|
    ensures Square(Dot(a, b, |a|)) <= Energy(a) * Energy(b)
  {
    hide Dot, Square, Expanded, Gap;
    EnergyPositive(a);
    EnergyPositive(b);
    DotSymmetric(a, b, |a|);
    var d, aa, bb := Dot(a, b, |a|), Energy(a), Energy(b);
    if bb > 0.0 {
      GapExpands(a, b, bb, d, |a|);
      Discriminant(aa, bb, d, aa * bb);
    } else if aa > 0.0 {
      GapExpands(b, a, aa, d, |a|);
      Discriminant(bb, aa, d, aa * bb);
    } else {
      GapExpands(a, b, 1.0, 1.0, |a|);
      GapExpands(a, b, 1.0, -1.0, |a|);
      Nothing(aa, bb, d, aa * bb);
    }
  }

  lemma Discriminant(aa: real, bb: real, d: real, ab: real)
    requires bb > 0.0 && Expanded(bb, d, aa, d, bb) >= 0.0 && ab == aa * bb
    ensures Square(d) <= ab
  {
    var x := aa * bb - d * d;
    assert bb * x >= 0.0;
    if x < 0.0 { Product(bb, -x, bb * -x); }
  }

  lemma Nothing(aa: real, bb: real, d: real, ab: real)
    requires aa == 0.0 && bb == 0.0 && ab == aa * bb
    requires Expanded(1.0, 1.0, aa, d, bb) >= 0.0 && Expanded(1.0, -1.0, aa, d, bb) >= 0.0
    ensures Square(d) <= ab
  {
    Ones(aa, d, bb);
    hide Expanded;
    Same(aa, bb, 0.0);
    Same(d, d, 0.0);
  }

  lemma Ones(aa: real, d: real, bb: real)
    ensures Expanded(1.0, 1.0, aa, d, bb) == aa - 2.0 * d + bb && Expanded(1.0, -1.0, aa, d, bb) == aa + 2.0 * d + bb
  {
  }

  /** `cosine_distance`, with the clamp of the code. */
  method CosineDistance(a: seq<real>, b: seq<real>, root: real -> real) returns (r: Result<real, Error>)
    requires IsRoot(root)
    ensures |a| != |b| ==> r == Err(LengthMismatch)
    ensures |a| == |b| ==> (r.Err? <==> Energy(a) == 0.0 || Energy(b) == 0.0) && (r.Err? ==> r.error.ZeroMagnitude?)
    ensures r.Ok? ==> IsDistance(a, b, r.value)
  {
    if |a| != |b| { return Err(LengthMismatch); }
    var dot, aa, bb := 0.0, 0.0, 0.0;
    for i := 0 to |a|
      invariant dot == Dot(a, b, i) && aa == Dot(a, a, i) && bb == Dot(b, b, i)
    {
      dot, aa, bb := dot + a[i] * b[i], aa + a[i] * a[i], bb + b[i] * b[i];
    }
    hide Dot, Square;
    EnergyPositive(a);
    EnergyPositive(b);
    var na, nb := root(aa), root(bb);
    RootZero(na, aa);
    RootZero(nb, bb);
    if na == 0.0 || nb == 0.0 { return Err(ZeroMagnitude); }
    CauchySchwarz(a, b);
    CosineBounds(dot, na, nb, aa, bb);
    var cosine := dot / (na * nb);
    r := Ok(if 1.0 - cosine < 0.0 then 0.0 else if 1.0 - cosine > 2.0 then 2.0 else 1.0 - cosine);
  }

  /** What a distance is, without roots: a number from 0 to 2 whose complement has the sign of the dot product and, squared,
      is the share of the energies that the dot product makes up. */
  ghost predicate IsDistance(a: seq<real>, b: seq<real>, d: real)
    requires |a| == |b|
  {
    IsCosine(Dot(a, b, |a|), Energies(a, b), 1.0 - d)
  }

  function Energies(a: seq<real>, b: seq<real>): real {
    Energy(a) * Energy(b)
  }

  ghost predicate IsCosine(dot: real, energies: real, c: real) {
    -1.0 <= c <= 1.0 && energies > 0.0 && Square(c) * energies == Square(dot) && (c >= 0.0 <==> dot >= 0.0)
  }

  lemma RootZero(h: real, x: real)
    requires h >= 0.0 && h * h == x
    ensures h == 0.0 <==> x == 0.0
  {
    if x > 0.0 { RootPositive(h, x); }
    Positive(h, x);
  }

  /** The clamp never acts. */
  lemma CosineBounds(dot: real, na: real, nb: real, aa: real, bb: real)
    requires na > 0.0 && nb > 0.0 && na * na == aa && nb * nb == bb && Square(dot) <= aa * bb
    ensures na * nb > 0.0 && IsCosine(dot, aa * bb, dot / (na * nb))
  {
    var m := na * nb;
    Product(na, nb, m);
    Product(aa, bb, aa * bb);
    assert m * m == aa * bb;
    var c := dot / m;
    QuotientTimes(c, dot, m);
    assert Square(c) * (m * m) == Square(c * m);
    Same(Square(c), m * m, aa * bb);
    if dot >= 0.0 {
      SquareOrder(dot, m, Square(dot), aa * bb);
      Threshold(dot, m, 0.0);
      AtMostOne(dot, m);
    } else {
      SquareOrder(-dot, m, Square(dot), aa * bb);
      Threshold(dot, m, 0.0);
      Threshold(dot, m, -1.0);
      AtMostOne(dot, m);
    }
  }

  lemma AtMostOne(x: real, m: real)
    requires m > 0.0 && x <= m
    ensures x / m <= 1.0
  {
  }

  /** The distance is determined by the embeddings. */
  lemma OneCosine(dot: real, e: real, c: real, d: real)
    requires IsCosine(dot, e, c) && IsCosine(dot, e, d)
    ensures c == d
  {
    SameFactor(Square(c), Square(d), e, Square(dot));
    if c >= 0.0 {
      SquareOrder(c, d, Square(c), Square(d));
      SquareOrder(d, c, Square(d), Square(c));
    } else {
      SquareOrder(-c, -d, Square(c), Square(d));
      SquareOrder(-d, -c, Square(d), Square(c));
    }
  }

  lemma SameFactor(x: real, y: real, e: real, p: real)
    requires e > 0.0 && p == x * e && p == y * e
    ensures x == y
  {
    if x < y { Product(y - x, e, (y - x) * e); }
    if x > y { Product(x - y, e, (x - y) * e); }
  }

  lemma DistanceSymmetric(a: seq<real>, b: seq<real>, d: real)
    requires |a| == |b| && IsDistance(a, b, d)
    ensures IsDistance(b, a, d) && forall e :: IsDistance(b, a, e) ==> e == d
  {
    DotSymmetric(a, b, |a|);
    hide Dot, IsCosine;
    forall e | IsDistance(b, a, e) ensures e == d {
      OneCosine(Dot(a, b, |a|), Energies(a, b), 1.0 - d, 1.0 - e);
    }
  }

  function Times(k: real, a: seq<real>): (r: seq<real>)
    ensures |r| == |a|
  {
    seq(|a|, i requires 0 <= i < |a| => k * a[i])
  }

  lemma {:induction false} TimesDot(k: real, a: seq<real>, b: seq<real>, n: nat)
    requires n <= |a| == |b|
    ensures Dot(Times(k, a), b, n) == k * Dot(a, b, n)
    ensures Dot(Times(k, a), Times(k, a), n) == (k * k) * Dot(a, a, n)
  {
    if n > 0 {
      TimesDot(k, a, b, n - 1);
      Distribute(k, Dot(a, b, n - 1), a[n - 1] * b[n - 1]);
      Distribute(k * k, Dot(a, a, n - 1), a[n - 1] * a[n - 1]);
    }
  }

  /** Scaling an embedding by a positive factor leaves every distance as it is. */
  lemma DistanceIgnoresScale(k: real, a: seq<real>, b: seq<real>, d: real)
    requires |a| == |b| && k > 0.0
    ensures IsDistance(Times(k, a), b, d) <==> IsDistance(a, b, d)
  {
    TimesDot(k, a, b, |a|);
    TimesEnergy(k, a);
    var t := Times(k, a);
    EnergiesAre(t, b);
    EnergiesAre(a, b);
    Meaning(a, b, d);
    Meaning(t, b, d);
    hide *;
    ScaledCosine(k, Dot(a, b, |a|), Energy(a), Energy(b), 1.0 - d, Dot(t, b, |a|), Energy(t), Energies(a, b), Energies(t, b));
  }

  lemma Meaning(a: seq<real>, b: seq<real>, d: real)
    requires |a| == |b|
    ensures IsDistance(a, b, d) <==> IsCosine(Dot(a, b, |a|), Energies(a, b), 1.0 - d)
  {
  }

  lemma EnergiesAre(a: seq<real>, b: seq<real>)
    ensures Energies(a, b) == Energy(a) * Energy(b)
  {
  }

  lemma TimesEnergy(k: real, a: seq<real>)
    ensures Energy(Times(k, a)) == (k * k) * Energy(a)
  {
    TimesDot(k, a, a, |a|);
  }

  lemma ScaledCosine(k: real, dot: real, aa: real, bb: real, c: real, kdot: real, kaa: real, e: real, ke: real)
    requires k > 0.0 && kdot == k * dot && kaa == (k * k) * aa && e == aa * bb && ke == kaa * bb
    ensures IsCosine(kdot, ke, c) <==> IsCosine(dot, e, c)
  {
    assert ke == (k * k) * e;
    Product(k, k, k * k);
    assert Square(kdot) == (k * k) * Square(dot);
    Same(Square(c), ke, (k * k) * e);
    assert Square(c) * ke == (k * k) * (Square(c) * e);
    if Square(c) * ke == Square(kdot) { SameFactor(Square(c) * e, Square(dot), k * k, Square(kdot)); }
    SignOf(k * k, e);
    SignOf(k, dot);
  }

  lemma SignOf(k: real, x: real)
    requires k > 0.0
    ensures (k * x > 0.0 <==> x > 0.0) && (k * x >= 0.0 <==> x >= 0.0)
  {
    if x > 0.0 { Product(k, x, k * x); }
    if x < 0.0 { Product(k, -x, k * -x); }
  }

  /** An embedding is at no distance from itself. */
  lemma DistanceToItself(a: seq<real>, d: real)
    requires Energy(a) != 0.0
    ensures IsDistance(a, a, d) <==> d == 0.0
  {
    EnergyPositive(a);
    EnergiesAre(a, a);
    var e := Energy(a);
    OfItself(e, Energies(a, a));
    hide Dot;
    if IsDistance(a, a, d) { OneCosine(e, Energies(a, a), 1.0 - d, 1.0); }
  }

  lemma OfItself(x: real, xx: real)
    requires x > 0.0 && xx == x * x
    ensures IsCosine(x, xx, 1.0)
  {
    Product(x, x, xx);
    assert Square(1.0) == 1.0;
    Same(xx, Square(1.0), 1.0);
  }
}
