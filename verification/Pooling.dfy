/** The pooled embedding: the flattened frame is cut into buckets, averaged, centred and normalised. */
module Pooling {
  import opened Wrappers
  import opened Arithmetic
  import opened Warp
  import Liveness
  import opened Matcher

  const F32_EPSILON: real := 1.0 / 8388608.0

  /* ---- buckets ---- */

  function Bucket(i: nat, n: nat, dim: nat): nat
    requires n > 0
  {
    i * dim / n
  }

  /** The first pixel of a bucket: `ceil(k n / dim)`. */
  function Start(k: nat, n: nat, dim: nat): nat
    requires dim > 0
  {
    (k * n + dim - 1) / dim
  }

  lemma DivLess(x: nat, y: nat, d: nat)
    requires d > 0
    ensures x / d < y <==> x < y * d
  {
    var q, r := x / d, x % d;
    assert x == q * d + r;
    if q < y { Below(q + 1, y, d); } else { Below(y, q, d); }
  }

  /** Each bucket is a run of pixels: a pixel lies in bucket `k` exactly from its start to the next. */
  lemma BucketIsRun(i: nat, k: nat, n: nat, dim: nat)
    requires n > 0 && dim > 0
    ensures Bucket(i, n, dim) == k <==> Start(k, n, dim) <= i < Start(k + 1, n, dim)
  {
    BeforeStart(i, k, n, dim);
    BeforeStart(i, k + 1, n, dim);
  }

  lemma BeforeStart(i: nat, k: nat, n: nat, dim: nat)
    requires n > 0 && dim > 0
    ensures Bucket(i, n, dim) < k <==> i < Start(k, n, dim)
  {
    var x, y := i * dim, k * n;
    DivLess(x, k, n);
    var q, r := (y + dim - 1) / dim, (y + dim - 1) % dim;
    assert y + dim - 1 == q * dim + r;
    if i < q { Below(i + 1, q, dim); } else { Below(q, i, dim); }
  }

  /** The runs cover all pixels, no bucket index reaches `dim`, and two sizes differ by at most one. */
  lemma BucketsPartition(k: nat, n: nat, dim: nat)
    requires n > 0 && dim > 0 && k < dim
    ensures Start(0, n, dim) == 0 && Start(dim, n, dim) == n
    ensures Start(k, n, dim) <= Start(k + 1, n, dim)
    ensures n / dim <= Start(k + 1, n, dim) - Start(k, n, dim) <= n / dim + (if n % dim == 0 then 0 else 1)
  {
    hide *;
    FirstStart(n, dim);
    LastStart(n, dim);
    DivMod(n, dim);
    StartShift(k, n, dim, n / dim, n % dim);
  }

  lemma FirstStart(n: nat, dim: nat)
    requires dim > 0
    ensures Start(0, n, dim) == 0
  {
    assert 0 * n == 0;
  }

  lemma LastStart(n: nat, dim: nat)
    requires dim > 0
    ensures Start(dim, n, dim) == n
  {
    Ceiling(dim * n, dim, n);
  }

  lemma DivMod(n: nat, d: nat)
    requires d > 0
    ensures n == n / d * d + n % d && 0 <= n / d && 0 <= n % d < d
  {
  }

  lemma Ceiling(x: nat, d: nat, q: nat)
    requires d > 0 && x == d * q
    ensures (x + d - 1) / d == q
  {
    DivLess(x + d - 1, q + 1, d);
    DivLess(x + d - 1, q, d);
    assert (q + 1) * d == q * d + d;
  }

  lemma StartShift(k: nat, n: nat, dim: nat, q: nat, r: nat)
    requires dim > 0 && n == q * dim + r && r < dim
    ensures q <= Start(k + 1, n, dim) - Start(k, n, dim) <= q + (if r == 0 then 0 else 1)
  {
    var x := k * n + dim - 1;
    var y := (k + 1) * n + dim - 1;
    assert y == x + q * dim + r;
    Shifted(x, q, r, dim);
  }

  lemma Shifted(x: nat, q: nat, r: nat, d: nat)
    requires d > 0 && r < d
    ensures x / d + q <= (x + q * d + r) / d <= x / d + q + (if r == 0 then 0 else 1)
  {
    var a, b := x / d, x % d;
    assert x == a * d + b;
    var y := x + q * d + r;
    assert (a + q) * d == a * d + q * d && (a + q + 1) * d == a * d + q * d + d && (a + q + 2) * d == a * d + q * d + 2 * d;
    DivLess(y, a + q, d);
    DivLess(y, a + q + 1, d);
    DivLess(y, a + q + 2, d);
  }

  /** The buckets of the pixels before `i`: how many fell into `k`, and their sum. */
  function Members(n: nat, dim: nat, k: nat, i: nat): nat
    requires n > 0 && dim > 0
  {
    if i == 0 then 0 else Members(n, dim, k, i - 1) + if Bucket(i - 1, n, dim) == k then 1 else 0
  }

  function Sum(bytes: seq<Byte>, dim: nat, k: nat, i: nat): real
    requires i <= |bytes| && |bytes| > 0 && dim > 0
  {
    if i == 0 then 0.0
    else Sum(bytes, dim, k, i - 1) + if Bucket(i - 1, |bytes|, dim) == k then bytes[i - 1] as real else 0.0
  }

  lemma {:induction false} MembersAreRun(n: nat, dim: nat, k: nat, i: nat)
    requires n > 0 && dim > 0 && k < dim && i <= n
    ensures var a, b := Start(k, n, dim), Start(k + 1, n, dim);
            Members(n, dim, k, i) == if i <= a then 0 else if i <= b then i - a else b - a
  {
    hide Start, Bucket;
    BucketsPartition(k, n, dim);
    if i > 0 {
      MembersAreRun(n, dim, k, i - 1);
      BucketIsRun(i - 1, k, n, dim);
    }
  }

  /** A bucket is as large as its run. */
  lemma BucketSize(n: nat, dim: nat, k: nat)
    requires n > 0 && dim > 0 && k < dim
    ensures n / dim <= Members(n, dim, k, n) <= n / dim + (if n % dim == 0 then 0 else 1)
    ensures Members(n, dim, k, n) == Start(k + 1, n, dim) - Start(k, n, dim)
  {
    hide Start;
    MembersAreRun(n, dim, k, n);
    BucketsPartition(k, n, dim);
    StartsAscend(k + 1, n, dim);
  }

  lemma {:induction false} StartsAscend(k: nat, n: nat, dim: nat)
    requires n > 0 && dim > 0 && k <= dim
    ensures Start(k, n, dim) <= n
    decreases dim - k
  {
    hide Start;
    if k == dim { BucketsPartition(0, n, dim); } else {
      BucketsPartition(k, n, dim);
      StartsAscend(k + 1, n, dim);
    }
  }

  /** The sizes add up to all pixels. */
  lemma {:induction false} SizesAddUp(n: nat, dim: nat, k: nat)
    requires n > 0 && dim > 0 && k <= dim
    ensures AllMembers(n, dim, k) == Start(k, n, dim)
    ensures k == dim ==> AllMembers(n, dim, k) == n
  {
    hide Start;
    BucketsPartition(0, n, dim);
    if k > 0 {
      SizesAddUp(n, dim, k - 1);
      BucketSize(n, dim, k - 1);
    }
  }

  function AllMembers(n: nat, dim: nat, k: nat): nat
    requires n > 0 && dim > 0
  {
    if k == 0 then 0 else AllMembers(n, dim, k - 1) + Members(n, dim, k - 1, n)
  }

  /* ---- the embedding ---- */

  function Average(bytes: seq<Byte>, dim: nat, k: nat): real
    requires |bytes| > 0 && dim > 0
  {
    var count := Members(|bytes|, dim, k, |bytes|);
    if count == 0 then 0.0 else Sum(bytes, dim, k, |bytes|) / count as real
  }

  function Averages(bytes: seq<Byte>, dim: nat): (r: seq<real>)
    requires |bytes| > 0 && dim > 0
    ensures |r| == dim
  {
    seq(dim, k requires 0 <= k < dim => Average(bytes, dim, k))
  }

  function Minus(a: seq<real>, m: real): (r: seq<real>)
    ensures |r| == |a|
  {
    seq(|a|, i requires 0 <= i < |a| => a[i] - m)
  }

  function Divided(a: seq<real>, d: real): (r: seq<real>)
    requires d != 0.0
    ensures |r| == |a|
  {
    seq(|a|, i requires 0 <= i < |a| => a[i] / d)
  }

  function Centred(a: seq<real>): (r: seq<real>)
    requires a != []
    ensures |r| == |a|
  {
    Minus(a, Liveness.Average(a))
  }

  lemma {:induction false} ShiftedTotal(a: seq<real>, m: real, n: nat)
    requires n <= |a|
    ensures Liveness.Total(Minus(a, m), n) == Liveness.Total(a, n) - n as real * m
  {
    if n > 0 {
      ShiftedTotal(a, m, n - 1);
      OneMore(n, m);
    }
  }

  lemma CentredTotal(a: seq<real>)
    requires a != []
    ensures Liveness.Total(Centred(a), |a|) == 0.0
  {
    hide *;
    var m := Liveness.Average(a);
    CentringIs(a);
    ShiftedTotal(a, m, |a|);
    NothingLeft(Liveness.Total(a, |a|), m, |a| as real, Liveness.Total(Minus(a, m), |a|));
  }

  lemma CentringIs(a: seq<real>)
    requires a != []
    ensures Liveness.Average(a) == Liveness.Total(a, |a|) / |a| as real && Centred(a) == Minus(a, Liveness.Average(a))
  {
  }

  lemma NothingLeft(t: real, m: real, n: real, x: real)
    requires n > 0.0 && m == t / n && x == t - n * m
    ensures x == 0.0
  {
    QuotientTimes(m, t, n);
  }

  lemma {:induction false} DividedTotal(a: seq<real>, d: real, dd: real, n: nat)
    requires n <= |a| && d > 0.0 && dd == d * d
    ensures Liveness.Total(Divided(a, d), n) * d == Liveness.Total(a, n)
    ensures Dot(Divided(a, d), Divided(a, d), n) * dd == Dot(a, a, n)
  {
    if n > 0 {
      DividedTotal(a, d, dd, n - 1);
      DividedTerm(a[n - 1], Divided(a, d)[n - 1], d, dd, Liveness.Total(Divided(a, d), n - 1),
        Dot(Divided(a, d), Divided(a, d), n - 1));
    }
  }

  lemma DividedTerm(x: real, y: real, d: real, dd: real, t: real, s: real)
    requires d > 0.0 && y == x / d && dd == d * d
    ensures (t + y) * d == t * d + x
    ensures (s + y * y) * dd == s * dd + x * x
  {
    QuotientTimes(y, x, d);
    SquareOfProduct(y, d, dd, x);
  }

  lemma SquareOfProduct(y: real, d: real, dd: real, x: real)
    requires x == y * d && dd == d * d
    ensures (y * y) * dd == x * x
  {
  }

  /** `PooledExtractor::extract` for a positive dimension: the averages of the buckets, centred and normalised; the
      result sums to zero and has length one; a frame without structure is refused. */
  method Extract(bytes: seq<Byte>, dim: nat, root: real -> real) returns (r: Result<seq<real>, Error>)
    requires dim > 0 && IsRoot(root)
    ensures bytes == [] <==> r == Err(EmptyFrame)
    ensures bytes != [] ==> (r == Err(NoStructure) <==> Energy(Centred(Averages(bytes, dim))) <= F32_EPSILON * F32_EPSILON)
    ensures r.Ok? ==> |r.value| == dim && Liveness.Total(r.value, dim) == 0.0 && Energy(r.value) == 1.0
    ensures r.Ok? ==> exists norm :: norm > F32_EPSILON && r.value == Divided(Centred(Averages(bytes, dim)), norm)
    ensures r.Err? ==> r.error.EmptyFrame? || r.error.NoStructure?
  {
    if bytes == [] { return Err(EmptyFrame); }
    var emb := Pool(bytes, dim);
    var centred := Centre(emb);
    CentredTotal(emb);
    hide *;
    r := Normalise(centred, root);
  }

  /** The last step: divide by the norm, unless it is no more than the smallest float step. */
  method Normalise(centred: seq<real>, root: real -> real) returns (r: Result<seq<real>, Error>)
    requires centred != [] && IsRoot(root) && Liveness.Total(centred, |centred|) == 0.0
    ensures r == Err(NoStructure) <==> Energy(centred) <= F32_EPSILON * F32_EPSILON
    ensures r.Ok? ==> |r.value| == |centred| && Liveness.Total(r.value, |centred|) == 0.0 && Energy(r.value) == 1.0
    ensures r.Ok? ==> exists norm :: norm > F32_EPSILON && r.value == Divided(centred, norm)
    ensures r.Err? ==> r.error.NoStructure?
  {
    var energy := SumOfSquares(centred);
    EnergyPositive(centred);
    var norm := root(energy);
    SquareOrder(norm, F32_EPSILON, energy, F32_EPSILON * F32_EPSILON);
    if norm <= F32_EPSILON { return Err(NoStructure); }
    var out := Divide(centred, norm);
    DivisionNormalises(centred, norm);
    r := Ok(out);
  }

  method SumOfSquares(a: seq<real>) returns (energy: real)
    ensures energy == Energy(a)
  {
    energy := 0.0;
    for i := 0 to |a|
      invariant energy == Dot(a, a, i)
    {
      energy := energy + a[i] * a[i];
    }
  }

  lemma DivisionNormalises(a: seq<real>, d: real)
    requires d > 0.0 && d * d == Energy(a) && Liveness.Total(a, |a|) == 0.0
    ensures Liveness.Total(Divided(a, d), |a|) == 0.0 && Energy(Divided(a, d)) == 1.0
  {
    hide Dot, Liveness.Total;
    var out := Divided(a, d);
    var dd := d * d;
    DividedTotal(a, d, dd, |a|);
    NormalisedIs(Liveness.Total(out, |a|), Energy(out), d, dd, Energy(a));
  }

  lemma NormalisedIs(t: real, s: real, d: real, dd: real, e: real)
    requires d > 0.0 && dd == d * d && t * d == 0.0 && s * dd == e && dd == e
    ensures t == 0.0 && s == 1.0
  {
    SameFactor(t, 0.0, d, 0.0);
    Product(d, d, dd);
    SameFactor(s, 1.0, dd, e);
  }

  method Pool(bytes: seq<Byte>, dim: nat) returns (emb: seq<real>)
    requires bytes != [] && dim > 0
    ensures emb == Averages(bytes, dim)
  {
    hide Bucket;
    var n := |bytes|;
    var sums, counts := new real[dim](_ => 0.0), new nat[dim](_ => 0);
    for i := 0 to n
      invariant forall k :: 0 <= k < dim ==> sums[k] == Sum(bytes, dim, k, i) && counts[k] == Members(n, dim, k, i)
    {
      var bucket := Bucket(i, n, dim);
      BucketInRange(i, n, dim);
      sums[bucket], counts[bucket] := sums[bucket] + bytes[i] as real, counts[bucket] + 1;
    }
    emb := seq(dim, k requires 0 <= k < dim reads sums, counts => if counts[k] == 0 then 0.0 else sums[k] / counts[k] as real);
    assert emb == Averages(bytes, dim);
  }

  lemma BucketInRange(i: nat, n: nat, dim: nat)
    requires i < n && dim > 0
    ensures Bucket(i, n, dim) < dim
  {
    DivLess(i * dim, dim, n);
    assert (i + 1) * dim == i * dim + dim;
    Below(i + 1, n, dim);
  }

  method Centre(emb: seq<real>) returns (out: seq<real>)
    requires emb != []
    ensures out == Centred(emb)
  {
    var sum := 0.0;
    for i := 0 to |emb|
      invariant sum == Liveness.Total(emb, i)
    {
      sum := sum + emb[i];
    }
    var mean := sum / |emb| as real;
    out := emb;
    for i := 0 to |emb|
      invariant |out| == |emb|
      invariant forall j :: 0 <= j < i ==> out[j] == emb[j] - mean
      invariant forall j :: i <= j < |emb| ==> out[j] == emb[j]
    {
      out := out[i := out[i] - mean];
    }
    assert out == Centred(emb);
  }

  method Divide(a: seq<real>, d: real) returns (out: seq<real>)
    requires d > 0.0
    ensures out == Divided(a, d)
  {
    out := a;
    for i := 0 to |a|
      invariant |out| == |a|
      invariant forall j :: 0 <= j < i ==> out[j] == a[j] / d
      invariant forall j :: i <= j < |a| ==> out[j] == a[j]
    {
      out := out[i := out[i] / d];
    }
    assert out == Divided(a, d);
  }
}
