/** Active-illumination liveness: statistics of the difference of two frames, hard gates, a composite score, and the
    bound that rejects every flat return. */
module Liveness {
  import opened Wrappers
  import opened Arithmetic
  import opened Warp

  datatype Config = Config(minMean: real, minStd: real, minGradient: real, maxBaseline: real, emissionMinDelta: real,
                           maxSaturated: real, minScore: real)

  datatype Features = Features(mean: real, std: real, gradient: real, specular: real, saturated: real, baseline: real,
                               score: real)

  datatype Failure = WeakReturn | SelfLit | Saturation | UniformReturn | NoRelief | LowScore

  const SPECULAR_LEVEL: int := 235
  const SPECULAR_MIN_DELTA: int := 40
  const SATURATION_LEVEL: int := 250
  const MEAN_REF: real := 60.0
  const STD_REF: real := 45.0
  const GRAD_REF: real := 25.0
  const SPEC_REF: real := 0.02

  /* ---- the differential ---- */

  function Lift(on: Byte, off: Byte): int { if on >= off then on - off else 0 }

  /** The light the emitter added, pixel by pixel. */
  function Delta(on: seq<Byte>, off: seq<Byte>): (d: seq<real>)
    requires |on| == |off|
    ensures |d| == |on|
  {
    seq(|on|, i requires 0 <= i < |on| => Lift(on[i], off[i]) as real)
  }

  function Total(d: seq<real>, n: nat): real
    requires n <= |d|
  {
    if n == 0 then 0.0 else Total(d, n - 1) + d[n - 1]
  }

  function Deviation(d: seq<real>, c: real, n: nat): real
    requires n <= |d|
  {
    if n == 0 then 0.0 else Deviation(d, c, n - 1) + Square(d[n - 1] - c)
  }

  function Average(d: seq<real>): real
    requires d != []
  {
    Total(d, |d|) / |d| as real
  }

  function Variance(d: seq<real>): real
    requires d != []
  {
    Deviation(d, Average(d), |d|) / |d| as real
  }

  ghost predicate InBand(d: seq<real>, low: real, width: real) {
    forall i :: 0 <= i < |d| ==> low <= d[i] <= low + width
  }

  lemma {:induction false} DeviationShift(d: seq<real>, c: real, m: real, n: nat)
    requires n <= |d|
    ensures Deviation(d, c, n)
            == Deviation(d, m, n) + 2.0 * ((m - c) * (Total(d, n) - n as real * m)) + n as real * Square(m - c)
  {
    hide Square;
    if n > 0 {
      DeviationShift(d, c, m, n - 1);
      ShiftTerm(d[n - 1], c, m, Total(d, n - 1), (n - 1) as real);
    }
  }

  lemma ShiftTerm(x: real, c: real, m: real, t: real, n: real)
    ensures Square(x - c) + 2.0 * ((m - c) * (t - n * m)) + n * Square(m - c)
            == Square(x - m) + 2.0 * ((m - c) * (t + x - (n + 1.0) * m)) + (n + 1.0) * Square(m - c)
  {
  }

  /** The mean is the centre of least deviation. */
  lemma MeanIsLeast(d: seq<real>, c: real)
    requires d != []
    ensures Deviation(d, Average(d), |d|) <= Deviation(d, c, |d|)
  {
    hide *;
    var m, n := Average(d), |d| as real;
    AverageTimes(d);
    ShiftFromMean(d, c, m);
    NonNegative(n, Square(m - c), n * Square(m - c));
  }

  lemma AverageTimes(d: seq<real>)
    requires d != []
    ensures Average(d) * |d| as real == Total(d, |d|)
  {
    hide Total;
    QuotientTimes(Average(d), Total(d, |d|), |d| as real);
  }

  lemma ShiftFromMean(d: seq<real>, c: real, m: real)
    requires m * |d| as real == Total(d, |d|)
    ensures Deviation(d, c, |d|) == Deviation(d, m, |d|) + |d| as real * Square(m - c)
  {
    hide *;
    DeviationShift(d, c, m, |d|);
    Same(m - c, Total(d, |d|) - |d| as real * m, 0.0);
  }

  lemma {:induction false} BandDeviation(d: seq<real>, low: real, width: real, n: nat)
    requires InBand(d, low, width) && n <= |d| && width >= 0.0
    ensures Deviation(d, low + width / 2.0, n) <= n as real * Square(width / 2.0)
  {
    hide Square;
    if n > 0 {
      BandDeviation(d, low, width, n - 1);
      SquareBound(d[n - 1] - (low + width / 2.0), width / 2.0);
      OneMore(n, Square(width / 2.0));
    }
  }

  lemma SquareBound(x: real, y: real)
    requires -y <= x <= y
    ensures Square(x) <= Square(y)
  {
    if x >= 0.0 {
      SquareOrder(x, y, Square(x), Square(y));
    } else {
      SquareOrder(-x, y, Square(x), Square(y));
    }
  }

  /** Popoviciu's inequality. */
  lemma BandVariance(d: seq<real>, low: real, width: real)
    requires d != [] && width >= 0.0 && InBand(d, low, width)
    ensures Variance(d) <= Square(width / 2.0)
  {
    MeanIsLeast(d, low + width / 2.0);
    BandDeviation(d, low, width, |d|);
    hide Square, Deviation, Average;
    AtMostEach(Deviation(d, Average(d), |d|), |d| as real, Square(width / 2.0));
  }

  lemma AtMostEach(x: real, n: real, y: real)
    requires n > 0.0 && x <= n * y
    ensures x / n <= y
  {
    var q := x / n;
    QuotientTimes(q, x, n);
    if q > y { Product(q - y, n, (q - y) * n); }
  }

  /* ---- the gradient ---- */

  function Distance(x: real, y: real): (r: real)
    ensures r >= 0.0
  {
    if x <= y then y - x else x - y
  }

  /** `|d/dx| + |d/dy|` at the pixel of the given index in a row of `w`. */
  function Slope(d: seq<real>, w: nat, i: nat): (r: real)
    requires i + w < |d| && i + 1 < |d|
    ensures r >= 0.0
  {
    Distance(d[i + 1], d[i]) + Distance(d[i + w], d[i])
  }

  function RowSlopes(d: seq<real>, w: nat, start: nat, x: nat): real
    requires w > 0 && x < w && start + x + w <= |d|
  {
    if x == 0 then 0.0 else RowSlopes(d, w, start, x - 1) + Slope(d, w, start + x - 1)
  }

  function Slopes(d: seq<real>, w: nat, y: nat): real
    requires w > 0 && (y + 1) * w <= |d|
  {
    if y == 0 then 0.0
    else
      Below(y, y + 1, w);
      var start := (y - 1) * w;
      assert start + (w - 1) + w <= |d| by { assert start + w == y * w && y * w + w == (y + 1) * w; }
      Slopes(d, w, y - 1) + RowSlopes(d, w, start, w - 1)
  }

  /** `mean_gradient`, over the pixels that have a right and a lower neighbour. */
  method MeanGradient(d: seq<real>, w: nat, h: nat) returns (r: real)
    requires w >= 2 && h >= 2 && |d| == w * h
    ensures r == Slopes(d, w, h - 1) / Interior(w, h) as real
  {
    var sum, count := 0.0, 0;
    for y := 0 to h - 1
      invariant (y + 1) * w <= |d|
      invariant sum == Slopes(d, w, y) && count == y * (w - 1)
    {
      Below(y + 2, h, w);
      assert y * w + w == (y + 1) * w && (y + 1) * w + w == (y + 2) * w;
      ghost var before := sum;
      for x := 0 to w - 1
        invariant sum == before + RowSlopes(d, w, y * w, x) && count == y * (w - 1) + x
      {
        var c := d[y * w + x];
        sum := sum + (Distance(d[y * w + x + 1], c) + Distance(d[y * w + x + w], c));
        count := count + 1;
      }
      assert (y + 1) * (w - 1) == y * (w - 1) + (w - 1);
    }
    InteriorPositive(w, h);
    r := sum / count as real;
  }

  function Interior(w: nat, h: nat): nat
    requires w >= 1 && h >= 1
  {
    (h - 1) * (w - 1)
  }

  lemma InteriorPositive(w: nat, h: nat)
    requires w >= 2 && h >= 2
    ensures Interior(w, h) > 0
  {
    Below(1, h - 1, w - 1);
  }

  lemma SlopeBound(d: seq<real>, w: nat, i: nat, low: real, width: real)
    requires i + w < |d| && i + 1 < |d| && InBand(d, low, width)
    ensures Slope(d, w, i) <= 2.0 * width
  {
  }

  lemma {:induction false} RowBound(d: seq<real>, w: nat, start: nat, x: nat, low: real, width: real, top: real)
    requires w > 0 && x < w && start + x + w <= |d| && InBand(d, low, width) && top == 2.0 * width
    ensures RowSlopes(d, w, start, x) <= x as real * top
  {
    hide Slope, InBand;
    if x > 0 {
      RowBound(d, w, start, x - 1, low, width, top);
      SlopeBound(d, w, start + x - 1, low, width);
      OneMore(x, top);
    }
  }

  /** The interior pixels of `y` rows. */
  function Pixels(w: nat, y: nat): nat
    requires w >= 1
  {
    if y == 0 then 0 else Pixels(w, y - 1) + (w - 1)
  }

  lemma {:induction false} PixelsAre(w: nat, y: nat)
    requires w >= 1
    ensures Pixels(w, y) == y * (w - 1)
  {
    if y > 0 {
      PixelsAre(w, y - 1);
      assert y * (w - 1) == (y - 1) * (w - 1) + (w - 1);
    }
  }

  lemma RowEnds(w: nat, y: nat)
    requires y > 0
    ensures (y - 1) * w + w == y * w && y * w + w == (y + 1) * w && y * w <= (y + 1) * w
  {
  }

  lemma {:induction false} SlopesBound(d: seq<real>, w: nat, y: nat, low: real, width: real, top: real)
    requires w > 0 && (y + 1) * w <= |d| && InBand(d, low, width) && top == 2.0 * width
    ensures Slopes(d, w, y) <= Pixels(w, y) as real * top
  {
    hide RowSlopes, InBand;
    if y > 0 {
      RowEnds(w, y);
      SlopesBound(d, w, y - 1, low, width, top);
      RowBound(d, w, (y - 1) * w, w - 1, low, width, top);
      MoreOf(Pixels(w, y - 1), w - 1, top);
    }
  }

  lemma MoreOf(a: nat, b: nat, x: real)
    ensures (a + b) as real * x == a as real * x + b as real * x
  {
    assert (a + b) as real == a as real + b as real;
  }

  /** In a band of width `r` the mean gradient is at most `2 r`. */
  lemma BandGradient(d: seq<real>, w: nat, h: nat, low: real, width: real)
    requires w >= 2 && h >= 2 && |d| == w * h && InBand(d, low, width)
    ensures (h - 1 + 1) * w <= |d| && Interior(w, h) > 0
    ensures Slopes(d, w, h - 1) / Interior(w, h) as real <= 2.0 * width
  {
    BandSlopes(d, w, h, low, width);
    hide *;
    AtMostEach(Slopes(d, w, h - 1), Interior(w, h) as real, 2.0 * width);
  }

  lemma BandSlopes(d: seq<real>, w: nat, h: nat, low: real, width: real)
    requires w >= 2 && h >= 2 && |d| == w * h && InBand(d, low, width)
    ensures (h - 1 + 1) * w <= |d| && Interior(w, h) > 0
    ensures Slopes(d, w, h - 1) <= Interior(w, h) as real * (2.0 * width)
  {
    hide Slopes, InBand;
    InteriorPositive(w, h);
    SlopesBound(d, w, h - 1, low, width, 2.0 * width);
    PixelsAre(w, h - 1);
  }

  /* ---- score and gates ---- */

  function CompositeScore(mean: real, std: real, gradient: real, specular: real): (r: real)
    ensures 0.0 <= r <= 1.0
  {
    0.30 * Unit(mean / MEAN_REF) + 0.30 * Unit(std / STD_REF)
    + 0.30 * Unit(gradient / GRAD_REF) + 0.10 * Unit(specular / SPEC_REF)
  }

  function FirstFailure(f: Features, cfg: Config): (r: Option<Failure>)
    ensures r == None <==>
            && f.mean >= cfg.minMean && f.std >= cfg.minStd && f.gradient >= cfg.minGradient && f.score >= cfg.minScore
            && f.saturated <= cfg.maxSaturated && (f.baseline <= cfg.maxBaseline || f.mean >= cfg.emissionMinDelta)
  {
    if f.mean < cfg.minMean then Some(WeakReturn)
    else if f.baseline > cfg.maxBaseline && f.mean < cfg.emissionMinDelta then Some(SelfLit)
    else if f.saturated > cfg.maxSaturated then Some(Saturation)
    else if f.std < cfg.minStd then Some(UniformReturn)
    else if f.gradient < cfg.minGradient then Some(NoRelief)
    else if f.score < cfg.minScore then Some(LowScore)
    else None
  }

  /* ---- the analysis ---- */

  function CountWhere(on: seq<Byte>, off: seq<Byte>, level: int, lift: int, n: nat): (c: nat)
    requires n <= |on| == |off|
    ensures c <= n
  {
    if n == 0 then 0
    else CountWhere(on, off, level, lift, n - 1) + if on[n - 1] >= level && Lift(on[n - 1], off[n - 1]) >= lift then 1 else 0
  }

  function Brightness(s: seq<Byte>, n: nat): real
    requires n <= |s|
  {
    if n == 0 then 0.0 else Brightness(s, n - 1) + s[n - 1] as real
  }

  /** The statistics of a pair, the root of the variance being `std`. */
  ghost predicate Describes(f: Features, on: seq<Byte>, off: seq<Byte>, w: nat, h: nat)
    requires w >= 3 && h >= 3 && |on| == |off| == w * h
  {
    var d, n := Delta(on, off), |on|;
    && n > 0 && |d| == n && (h - 1 + 1) * w <= |d| && Interior(w, h) > 0
    && f.mean == Average(d)
    && f.std >= 0.0 && f.std * f.std == Variance(d)
    && f.gradient == Slopes(d, w, h - 1) / Interior(w, h) as real
    && f.specular == CountWhere(on, off, SPECULAR_LEVEL, SPECULAR_MIN_DELTA, n) as real / n as real
    && f.saturated == CountWhere(on, off, SATURATION_LEVEL, 0, n) as real / n as real
    && f.baseline == Brightness(off, n) / n as real
    && f.score == CompositeScore(f.mean, f.std, f.gradient, f.specular)
  }

  lemma Nonempty(w: nat, h: nat)
    requires w >= 3 && h >= 3
    ensures w * h > 0
  {
    Below(1, w, h);
  }

  /** `analyze`: none for frames under three pixels on a side. */
  method Analyze(off: seq<Byte>, on: seq<Byte>, w: nat, h: nat, cfg: Config, root: real -> real)
    returns (f: Option<Features>, failure: Option<Failure>)
    requires |on| == |off| == w * h && IsRoot(root)
    ensures f == None <==> w < 3 || h < 3
    ensures f.Some? ==> Describes(f.value, on, off, w, h) && failure == FirstFailure(f.value, cfg)
  {
    hide Slopes;
    if w < 3 || h < 3 { return None, None; }
    Nonempty(w, h);
    InteriorPositive(w, h);
    var n := |off|;
    var delta, sum, baseline, specular, saturated := Measure(off, on);
    var mean := sum / n as real;
    var spread := Spread(delta, mean);
    var variance := spread / n as real;
    VariancePositive(delta);
    var std := root(variance);
    var gradient := MeanGradient(delta, w, h);
    var spec, sat := specular as real / n as real, saturated as real / n as real;
    var features := Features(mean, std, gradient, spec, sat, baseline / n as real, CompositeScore(mean, std, gradient, spec));
    f, failure := Some(features), FirstFailure(features, cfg);
  }

  lemma {:induction false} DeviationPositive(d: seq<real>, c: real, n: nat)
    requires n <= |d|
    ensures Deviation(d, c, n) >= 0.0
  {
    if n > 0 { DeviationPositive(d, c, n - 1); }
  }

  lemma VariancePositive(d: seq<real>)
    requires d != []
    ensures Variance(d) >= 0.0
  {
    DeviationPositive(d, Average(d), |d|);
  }

  method Spread(d: seq<real>, mean: real) returns (s: real)
    ensures s == Deviation(d, mean, |d|)
  {
    s := 0.0;
    for i := 0 to |d|
      invariant s == Deviation(d, mean, i)
    {
      var c := d[i] - mean;
      s := s + Square(c);
    }
  }

  method Measure(off: seq<Byte>, on: seq<Byte>)
    returns (delta: seq<real>, sum: real, baseline: real, specular: nat, saturated: nat)
    requires |on| == |off|
    ensures delta == Delta(on, off) && sum == Total(delta, |delta|) && baseline == Brightness(off, |off|)
    ensures specular == CountWhere(on, off, SPECULAR_LEVEL, SPECULAR_MIN_DELTA, |on|)
    ensures saturated == CountWhere(on, off, SATURATION_LEVEL, 0, |on|)
  {
    var n := |off|;
    var buffer := new real[n];
    ghost var d := Delta(on, off);
    sum, baseline, specular, saturated := 0.0, 0.0, 0, 0;
    for i := 0 to n
      invariant buffer[..i] == d[..i]
      invariant sum == Total(d, i) && baseline == Brightness(off, i)
      invariant specular == CountWhere(on, off, SPECULAR_LEVEL, SPECULAR_MIN_DELTA, i)
      invariant saturated == CountWhere(on, off, SATURATION_LEVEL, 0, i)
    {
      var lift := Lift(on[i], off[i]);
      buffer[i] := lift as real;
      sum, baseline := sum + lift as real, baseline + off[i] as real;
      if on[i] >= SPECULAR_LEVEL && lift >= SPECULAR_MIN_DELTA { specular := specular + 1; }
      if on[i] >= SATURATION_LEVEL { saturated := saturated + 1; }
    }
    delta := buffer[..];
  }

  /** A return that stays in a band narrower than twice the least deviation is rejected, whatever the size of the
      frames, their brightness and the other thresholds; so is one in a band narrower than half the least gradient. */
  lemma FlatReturnRejected(f: Features, on: seq<Byte>, off: seq<Byte>, w: nat, h: nat, cfg: Config, low: real, width: real)
    requires w >= 3 && h >= 3 && |on| == |off| == w * h && Describes(f, on, off, w, h)
    requires width >= 0.0 && InBand(Delta(on, off), low, width)
    ensures f.std <= width / 2.0 && f.gradient <= 2.0 * width
    ensures width < 2.0 * cfg.minStd || 2.0 * width < cfg.minGradient ==> FirstFailure(f, cfg).Some?
  {
    hide Slopes, Square;
    var d := Delta(on, off);
    BandVariance(d, low, width);
    BandGradient(d, w, h, low, width);
    SquareOf(width / 2.0);
    SquareOrder(f.std, width / 2.0, Variance(d), Square(width / 2.0));
  }

  lemma SquareOf(x: real)
    ensures Square(x) == x * x
  {
  }
}
