/** Face detection after the model: decoding one stride, intersection over union, greedy suppression, and the choice
    of the face. Scores and coordinates are real numbers; a float that is no number is `NotFinite`. */
module Detect {
  import opened Wrappers
  import opened Arithmetic

  datatype Float = Finite(value: real) | NotFinite

  datatype Detection = Detection(x1: real, y1: real, w: real, h: real, landmarks: seq<(real, real)>, score: real)

  ghost predicate Positive(d: Detection) {
    d.w > 0.0 && d.h > 0.0
  }

  /* ---- intersection over union ---- */

  function Overlap(a1: real, alen: real, b1: real, blen: real): real {
    Max(Min(a1 + alen, b1 + blen) - Max(a1, b1), 0.0)
  }

  function Inter(a: Detection, b: Detection): real {
    Overlap(a.x1, a.w, b.x1, b.w) * Overlap(a.y1, a.h, b.y1, b.h)
  }

  function Area(a: Detection): real {
    a.w * a.h
  }

  /** The ratio of the common area to the area of both. */
  function Ratio(inter: real, areaA: real, areaB: real): real {
    var both := areaA + areaB - inter;
    if both <= 0.0 then 0.0 else inter / both
  }

  function Iou(a: Detection, b: Detection): real {
    Ratio(Inter(a, b), Area(a), Area(b))
  }

  lemma IouSymmetric(a: Detection, b: Detection)
    ensures Iou(a, b) == Iou(b, a)
  {
    InterSymmetric(a, b);
  }

  lemma InterSymmetric(a: Detection, b: Detection)
    ensures Inter(a, b) == Inter(b, a)
  {
    assert Overlap(a.x1, a.w, b.x1, b.w) == Overlap(b.x1, b.w, a.x1, a.w);
    assert Overlap(a.y1, a.h, b.y1, b.h) == Overlap(b.y1, b.h, a.y1, a.h);
    hide Overlap;
  }

  lemma OverlapBounds(a1: real, alen: real, b1: real, blen: real)
    requires alen > 0.0 && blen > 0.0
    ensures 0.0 <= Overlap(a1, alen, b1, blen) <= alen && Overlap(a1, alen, b1, blen) <= blen
    ensures Overlap(a1, alen, a1, alen) == alen
  {
  }

  lemma ProductOrder(x: real, y: real, u: real, v: real, xy: real, uv: real)
    requires 0.0 <= x <= u && 0.0 <= y <= v && xy == x * y && uv == u * v
    ensures 0.0 <= xy <= uv
  {
    assert x * y <= u * y;
    assert u * y <= u * v;
  }

  lemma RatioInUnit(inter: real, areaA: real, areaB: real)
    requires 0.0 <= inter <= areaA && inter <= areaB && areaA > 0.0 && areaB > 0.0
    ensures 0.0 <= Ratio(inter, areaA, areaB) <= 1.0 && Ratio(areaA, areaA, areaA) == 1.0
  {
    Share(inter, areaA + areaB - inter);
    Share(areaA, areaA);
  }

  lemma Share(x: real, y: real)
    requires 0.0 <= x <= y && y > 0.0
    ensures 0.0 <= x / y <= 1.0 && y / y == 1.0
  {
  }

  /** For boxes of positive size the ratio is between nothing and the whole, and a box covers itself. */
  lemma IouInUnit(a: Detection, b: Detection)
    requires Positive(a) && Positive(b)
    ensures 0.0 <= Iou(a, b) <= 1.0 && Iou(a, a) == 1.0
  {
    hide Inter, Area, Ratio;
    InterBounds(a, b);
    InterBounds(a, a);
    RatioInUnit(Inter(a, b), Area(a), Area(b));
  }

  lemma InterBounds(a: Detection, b: Detection)
    requires Positive(a) && Positive(b)
    ensures Area(a) > 0.0 && Area(b) > 0.0
    ensures 0.0 <= Inter(a, b) <= Area(a) && Inter(a, b) <= Area(b) && Inter(a, a) == Area(a)
  {
    InterWithin(a, b);
    InterWithin(b, a);
    InterSymmetric(a, b);
    OverlapBounds(a.x1, a.w, a.x1, a.w);
    OverlapBounds(a.y1, a.h, a.y1, a.h);
    hide Overlap;
  }

  lemma InterWithin(a: Detection, b: Detection)
    requires Positive(a) && Positive(b)
    ensures Area(a) > 0.0 && 0.0 <= Inter(a, b) <= Area(a)
  {
    OverlapBounds(a.x1, a.w, b.x1, b.w);
    OverlapBounds(a.y1, a.h, b.y1, b.h);
    hide Overlap;
    ProductOrder(Overlap(a.x1, a.w, b.x1, b.w), Overlap(a.y1, a.h, b.y1, b.h), a.w, a.h, Inter(a, b), Area(a));
    Product(a.w, a.h, Area(a));
  }

  /* ---- sorting, highest score first, equal scores in their order ---- */

  predicate Descending(s: seq<Detection>) {
    forall i, j :: 0 <= i < j < |s| ==> s[i].score >= s[j].score
  }

  function Insert(d: Detection, s: seq<Detection>): (r: seq<Detection>)
    ensures multiset(r) == multiset(s) + multiset{d}
  {
    if s == [] then [d]
    else if d.score >= s[0].score then [d] + s
    else
      assert s == [s[0]] + s[1..];
      [s[0]] + Insert(d, s[1..])
  }

  /** The standard library's stable sort. */
  function Sorted(s: seq<Detection>): (r: seq<Detection>)
    ensures multiset(r) == multiset(s)
  {
    if s == [] then []
    else
      assert s == [s[0]] + s[1..];
      Insert(s[0], Sorted(s[1..]))
  }

  lemma {:induction false} InsertDescends(d: Detection, s: seq<Detection>)
    requires Descending(s)
    ensures Descending(Insert(d, s))
  {
    if s != [] && d.score < s[0].score {
      InsertDescends(d, s[1..]);
      var r := Insert(d, s[1..]);
      forall e | e in r ensures e.score <= s[0].score {
        assert e in multiset(r);
        assert e == d || e in s[1..];
      }
      forall j | 0 <= j < |r| ensures r[j].score <= s[0].score {
        assert r[j] in r;
      }
    }
  }

  lemma {:induction false} SortedDescends(s: seq<Detection>)
    ensures Descending(Sorted(s))
  {
    if s != [] {
      SortedDescends(s[1..]);
      InsertDescends(s[0], Sorted(s[1..]));
    }
  }

  lemma {:induction false} SortedIsIdle(s: seq<Detection>)
    requires Descending(s)
    ensures Sorted(s) == s
  {
    if s != [] {
      SortedIsIdle(s[1..]);
      assert s == [s[0]] + s[1..];
    }
  }

  lemma SameMembers(s: seq<Detection>, d: Detection)
    ensures d in Sorted(s) <==> d in s
  {
    assert d in Sorted(s) <==> d in multiset(Sorted(s));
  }

  /* ---- greedy suppression ---- */

  predicate Clear(d: Detection, keep: seq<Detection>, limit: real) {
    forall i :: 0 <= i < |keep| ==> Iou(d, keep[i]) <= limit
  }

  function Greedy(keep: seq<Detection>, rest: seq<Detection>, limit: real): (r: seq<Detection>)
    ensures |keep| <= |r| && r[..|keep|] == keep
    decreases |rest|
  {
    if rest == [] then keep
    else Greedy(if Clear(rest[0], keep, limit) then keep + [rest[0]] else keep, rest[1..], limit)
  }

  function Suppressed(dets: seq<Detection>, limit: real): seq<Detection> {
    Greedy([], Sorted(dets), limit)
  }

  /** `nms`. */
  method Nms(dets: seq<Detection>, limit: real) returns (keep: seq<Detection>)
    ensures keep == Suppressed(dets, limit)
  {
    hide Greedy, Iou, Sorted;
    var sorted := Sorted(dets);
    keep := [];
    assert sorted[0..] == sorted;
    label candidates: for n := 0 to |sorted|
      invariant Greedy(keep, sorted[n..], limit) == Suppressed(dets, limit)
    {
      var d := sorted[n];
      GreedyStep(keep, sorted, n, limit);
      for i := 0 to |keep|
        invariant forall j :: 0 <= j < i ==> Iou(d, keep[j]) <= limit
      {
        if Iou(d, keep[i]) > limit { continue candidates; }
      }
      keep := keep + [d];
    }
    NothingLeft(keep, sorted, limit);
  }

  /** One candidate more. */
  lemma GreedyStep(keep: seq<Detection>, sorted: seq<Detection>, n: nat, limit: real)
    requires n < |sorted|
    ensures Greedy(keep, sorted[n..], limit)
         == Greedy(if Clear(sorted[n], keep, limit) then keep + [sorted[n]] else keep, sorted[n + 1..], limit)
  {
    hide Clear;
    assert sorted[n..][0] == sorted[n] && sorted[n..][1..] == sorted[n + 1..];
  }

  lemma NothingLeft(keep: seq<Detection>, sorted: seq<Detection>, limit: real)
    ensures Greedy(keep, sorted[|sorted|..], limit) == keep
  {
  }

  ghost predicate PairwiseClear(s: seq<Detection>, limit: real) {
    forall i :: 0 <= i < |s| ==> Clear(s[i], s[..i], limit)
  }

  lemma {:induction false} GreedyIsClear(keep: seq<Detection>, rest: seq<Detection>, limit: real)
    requires PairwiseClear(keep, limit)
    ensures PairwiseClear(Greedy(keep, rest, limit), limit)
    decreases |rest|
  {
    if rest != [] {
      var more := keep + [rest[0]];
      assert forall i :: 0 <= i < |keep| ==> more[..i] == keep[..i];
      assert more[..|keep|] == keep;
      GreedyIsClear(if Clear(rest[0], keep, limit) then more else keep, rest[1..], limit);
    }
  }

  lemma {:induction false} ClearIsKept(keep: seq<Detection>, rest: seq<Detection>, limit: real)
    requires PairwiseClear(keep + rest, limit)
    ensures Greedy(keep, rest, limit) == keep + rest
    decreases |rest|
  {
    if rest != [] {
      assert (keep + rest)[|keep|] == rest[0] && (keep + rest)[..|keep|] == keep;
      assert keep + [rest[0]] + rest[1..] == keep + rest;
      ClearIsKept(keep + [rest[0]], rest[1..], limit);
    } else {
      assert keep + rest == keep;
    }
  }

  lemma {:induction false} GreedyDescends(keep: seq<Detection>, rest: seq<Detection>, limit: real)
    requires Descending(keep + rest)
    ensures Descending(Greedy(keep, rest, limit))
    ensures forall d :: d in Greedy(keep, rest, limit) ==> d in keep || d in rest
    decreases |rest|
  {
    if rest != [] {
      assert keep + rest == keep + [rest[0]] + rest[1..];
      var next := if Clear(rest[0], keep, limit) then keep + [rest[0]] else keep;
      assert Descending(next + rest[1..]) by { Without(keep, rest); }
      GreedyDescends(next, rest[1..], limit);
    } else {
      assert keep + rest == keep;
    }
  }

  lemma Without(keep: seq<Detection>, rest: seq<Detection>)
    requires rest != [] && Descending(keep + rest)
    ensures Descending(keep + rest[1..])
  {
    var s, t := keep + rest, keep + rest[1..];
    forall i, j | 0 <= i < j < |t| ensures t[i].score >= t[j].score {
      var k, l := if i < |keep| then i else i + 1, if j < |keep| then j else j + 1;
      assert t[i] == s[k] && t[j] == s[l];
    }
  }

  /** A candidate is kept, or a box already kept of no lower score overlaps it beyond the limit. */
  ghost predicate Covered(d: Detection, keep: seq<Detection>, limit: real) {
    d in keep || exists i :: 0 <= i < |keep| && keep[i].score >= d.score && Iou(d, keep[i]) > limit
  }

  lemma {:induction false} GreedyCovers(keep: seq<Detection>, rest: seq<Detection>, limit: real, d: Detection)
    requires Descending(keep + rest) && d in rest
    ensures Covered(d, Greedy(keep, rest, limit), limit)
    decreases |rest|
  {
    var next := if Clear(rest[0], keep, limit) then keep + [rest[0]] else keep;
    var result := Greedy(next, rest[1..], limit);
    assert keep + rest == keep + [rest[0]] + rest[1..];
    if d == rest[0] {
      CoveredNow(keep, rest, result, limit);
    } else {
      assert d in rest[1..];
      assert Descending(next + rest[1..]) by { Without(keep, rest); }
      GreedyCovers(next, rest[1..], limit, d);
    }
  }

  /** The next candidate is kept, or covered by a box kept before it. */
  lemma CoveredNow(keep: seq<Detection>, rest: seq<Detection>, result: seq<Detection>, limit: real)
    requires rest != [] && Descending(keep + rest)
    requires (if Clear(rest[0], keep, limit) then keep + [rest[0]] else keep) <= result
    ensures Covered(rest[0], result, limit)
  {
    hide Iou;
    var d := rest[0];
    if Clear(d, keep, limit) {
      assert result[|keep|] == d;
    } else {
      var i :| 0 <= i < |keep| && Iou(d, keep[i]) > limit;
      assert (keep + rest)[i] == keep[i] == result[i] && (keep + rest)[|keep|] == d;
    }
  }

  /** What suppression does: the boxes kept come from the candidates in descending order, no two of them overlap beyond
      the limit, and every candidate dropped is overlapped beyond it by a kept one of at least its score. */
  lemma SuppressionIsGreedy(dets: seq<Detection>, limit: real)
    ensures var keep := Suppressed(dets, limit);
            && Descending(keep)
            && (forall i, j :: 0 <= i < |keep| && 0 <= j < |keep| && i != j ==> Iou(keep[i], keep[j]) <= limit)
            && (forall d :: d in keep ==> d in dets)
            && (forall d :: d in dets ==> Covered(d, keep, limit))
  {
    hide *;
    var s, keep := Sorted(dets), Suppressed(dets, limit);
    SuppressedIs(dets, limit);
    SortedDescends(dets);
    assert [] + s == s;
    GreedyDescends([], s, limit);
    GreedyIsClear([], s, limit);
    ClearOfEachOther(keep, limit);
    forall d | d in keep ensures d in dets { SameMembers(dets, d); }
    forall d | d in dets ensures Covered(d, keep, limit) {
      SameMembers(dets, d);
      GreedyCovers([], s, limit, d);
    }
  }

  lemma SuppressedIs(dets: seq<Detection>, limit: real)
    ensures Suppressed(dets, limit) == Greedy([], Sorted(dets), limit) && PairwiseClear([], limit)
  {
  }

  lemma ClearOfEachOther(keep: seq<Detection>, limit: real)
    requires PairwiseClear(keep, limit)
    ensures forall i, j :: 0 <= i < |keep| && 0 <= j < |keep| && i != j ==> Iou(keep[i], keep[j]) <= limit
  {
    hide Iou;
    forall i, j | 0 <= i < |keep| && 0 <= j < |keep| && i != j ensures Iou(keep[i], keep[j]) <= limit {
      IouSymmetric(keep[i], keep[j]);
      var k, l := if i < j then i else j, if i < j then j else i;
      assert Clear(keep[l], keep[..l], limit) && keep[..l][k] == keep[k];
    }
  }

  /** Suppressing what was suppressed changes nothing. */
  lemma SuppressionIsIdempotent(dets: seq<Detection>, limit: real)
    ensures Suppressed(Suppressed(dets, limit), limit) == Suppressed(dets, limit)
  {
    var keep := Suppressed(dets, limit);
    SuppressionIsGreedy(dets, limit);
    GreedyIsClear([], Sorted(dets), limit);
    SortedIsIdle(keep);
    assert [] + keep == keep;
    ClearIsKept([], keep, limit);
  }

  /** Index `j` is the last with the highest score. */
  ghost predicate LastBest(s: seq<Detection>, j: nat) {
    j < |s| && forall k :: 0 <= k < |s| ==> s[k].score <= s[j].score && (j < k ==> s[k].score < s[j].score)
  }

  /** The last step of `detect`: of the kept boxes the last with the highest score, or `NoFace`. Suppression never costs
      the best score, and never invents or loses the only face. */
  method SelectFace(raw: seq<Detection>, limit: real) returns (best: Option<Detection>)
    ensures best == None <==> raw == []
    ensures best.Some? ==> best.value in raw && forall d :: d in raw ==> d.score <= best.value.score
    ensures best.Some? ==> exists j: nat :: LastBest(Suppressed(raw, limit), j) && best.value == Suppressed(raw, limit)[j]
  {
    hide Suppressed, Descending;
    var kept := Nms(raw, limit);
    SuppressionIsGreedy(raw, limit);
    ghost var at;
    best, at := MaxByScore(kept);
    forall d | d in raw ensures best.Some? && d.score <= best.value.score {
      assert Covered(d, kept, limit);
    }
    if raw != [] { assert raw[0] in raw; }
    if kept != [] { assert kept[0] in kept; }
    assert best.Some? ==> kept[at] in kept;
  }

  /** `max_by` over the scores. */
  method MaxByScore(kept: seq<Detection>) returns (best: Option<Detection>, ghost at: nat)
    ensures best == None <==> kept == []
    ensures best.Some? ==> LastBest(kept, at) && best.value == kept[at]
  {
    best, at := None, 0;
    for i := 0 to |kept|
      invariant best == None <==> i == 0
      invariant best.Some? ==> LastBest(kept[..i], at) && best.value == kept[at]
    {
      if best == None || kept[i].score >= best.value.score {
        best, at := Some(kept[i]), i;
      }
    }
    assert kept[..|kept|] == kept;
  }

  /* ---- decoding a stride ---- */

  /** The tensors of one stride, by cell; `exp` and `root` are the functions of the code. */
  datatype Stride = Stride(cols: nat, rows: nat, step: real, scoreA: seq<Float>, scoreB: seq<Float>,
                           bbox: seq<Float>, kps: seq<Float>) {
    function Count(): nat { RowStart(rows) }

    function RowStart(r: nat): nat { r * cols }

    predicate Complete() {
      && |scoreA| == |scoreB| == Count()
      && |bbox| == 4 * Count() && |kps| == 10 * Count()
      && step > 0.0
    }
  }

  function Shift(cell: nat, x: Float, step: real): Float {
    match x case Finite(v) => Finite((cell as real + v) * step) case NotFinite => NotFinite
  }

  function Size(x: Float, step: real, exp: real -> Float): Float {
    match x
    case NotFinite => NotFinite
    case Finite(v) => match exp(v) case Finite(e) => Finite(e * step) case NotFinite => NotFinite
  }

  /** The landmarks of a cell, none if any coordinate is not finite. */
  function Landmarks(s: Stride, r: nat, c: nat, idx: nat, n: nat): (lm: Option<seq<(real, real)>>)
    requires s.Complete() && idx < s.Count() && n <= 5
    ensures lm.Some? ==> |lm.value| == n
  {
    if n == 0 then Some([])
    else
      var before := Landmarks(s, r, c, idx, n - 1);
      var lx, ly := Shift(c, s.kps[idx * 10 + 2 * (n - 1)], s.step), Shift(r, s.kps[idx * 10 + 2 * (n - 1) + 1], s.step);
      if before == None || lx.NotFinite? || ly.NotFinite? then None else Some(before.value + [(lx.value, ly.value)])
  }

  /** What a cell yields. */
  function Cell(s: Stride, r: nat, c: nat, idx: nat, limit: real, exp: real -> Float, root: real -> real)
    : (d: seq<Detection>)
    requires s.Complete() && idx < s.Count()
    ensures |d| <= 1
    ensures d != [] ==> Positive(d[0]) && d[0].score >= limit && |d[0].landmarks| == 5
  {
    var a, b := s.scoreA[idx], s.scoreB[idx];
    if a.NotFinite? || b.NotFinite? then []
    else
      var score := root(Unit(a.value) * Unit(b.value));
      var cx, cy := Shift(c, s.bbox[idx * 4], s.step), Shift(r, s.bbox[idx * 4 + 1], s.step);
      var w, h := Size(s.bbox[idx * 4 + 2], s.step, exp), Size(s.bbox[idx * 4 + 3], s.step, exp);
      if score < limit then []
      else if cx.NotFinite? || cy.NotFinite? || w.NotFinite? || h.NotFinite? || w.value <= 0.0 || h.value <= 0.0 then []
      else
        var lm := Landmarks(s, r, c, idx, 5);
        if lm == None then []
        else [Detection(cx.value - w.value / 2.0, cy.value - h.value / 2.0, w.value, h.value, lm.value, score)]
  }

  /** What the cells before `n` yield, row by row. */
  function Cells(s: Stride, n: nat, limit: real, exp: real -> Float, root: real -> real): (r: seq<Detection>)
    requires s.Complete() && n <= s.Count()
    ensures |r| <= n
    ensures forall d <- r :: Positive(d) && d.score >= limit && |d.landmarks| == 5
  {
    if n == 0 then []
    else Cells(s, n - 1, limit, exp, root) + Cell(s, (n - 1) / s.cols, (n - 1) % s.cols, n - 1, limit, exp, root)
  }

  /** `decode_stride`: every cell once, in row order, appended to what earlier strides gave; and only boxes of positive
      size, so that their ratios are meaningful. */
  method DecodeStride(s: Stride, limit: real, exp: real -> Float, root: real -> real, before: seq<Detection>)
    returns (out: seq<Detection>)
    requires s.Complete()
    ensures out == before + Cells(s, s.Count(), limit, exp, root)
    ensures (forall d <- before :: Positive(d)) ==> forall d <- out :: Positive(d)
  {
    hide Cells, Stride.RowStart;
    Rows(s, 0);
    NoCells(s, limit, exp, root);
    out := before;
    for r := 0 to s.rows
      invariant s.RowStart(r) <= s.Count()
      invariant out == before + Cells(s, s.RowStart(r), limit, exp, root)
    {
      Rows(s, r);
      out := DecodeRow(s, r, limit, exp, root, before, out);
    }
  }

  lemma Rows(s: Stride, r: nat)
    ensures s.RowStart(0) == 0 && s.RowStart(r + 1) == s.RowStart(r) + s.cols
    ensures r < s.rows ==> s.RowStart(r + 1) <= s.Count()
  {
    if r < s.rows { Below(r + 1, s.rows, s.cols); }
  }

  method DecodeRow(s: Stride, r: nat, limit: real, exp: real -> Float, root: real -> real,
                   ghost before: seq<Detection>, soFar: seq<Detection>) returns (out: seq<Detection>)
    requires s.Complete() && r < s.rows && s.RowStart(r) + s.cols <= s.Count()
    requires soFar == before + Cells(s, s.RowStart(r), limit, exp, root)
    ensures out == before + Cells(s, s.RowStart(r) + s.cols, limit, exp, root)
  {
    hide Cells, Cell, Stride.RowStart;
    out := soFar;
    for c := 0 to s.cols
      invariant out == before + Cells(s, s.RowStart(r) + c, limit, exp, root)
    {
      var idx := s.RowStart(r) + c;
      NextCell(s, r, c, limit, exp, root);
      out := out + Cell(s, r, c, idx, limit, exp, root);
    }
  }

  lemma NoCells(s: Stride, limit: real, exp: real -> Float, root: real -> real)
    requires s.Complete()
    ensures Cells(s, 0, limit, exp, root) == []
  {
  }

  lemma NextCell(s: Stride, r: nat, c: nat, limit: real, exp: real -> Float, root: real -> real)
    requires s.Complete() && r < s.rows && c < s.cols && s.RowStart(r) + c < s.Count()
    ensures var idx := s.RowStart(r) + c;
            Cells(s, idx + 1, limit, exp, root) == Cells(s, idx, limit, exp, root) + Cell(s, r, c, idx, limit, exp, root)
  {
    CellOf(s.cols, r, c);
    hide Cell;
  }

  lemma CellOf(cols: nat, r: nat, c: nat)
    requires c < cols
    ensures (r * cols + c) / cols == r && (r * cols + c) % cols == c
  {
    var k := r * cols + c;
    var q, m := k / cols, k % cols;
    if q < r { Below(q + 1, r, cols); } else if q > r { Below(r + 1, q, cols); }
  }
}
