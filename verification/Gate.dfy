/** The face gate: a liveness pair, then up to five warm frames voted on by majority, all under one deadline and with
    the infrared emitter restored. Time is in nanoseconds. */
module Gate {

  /* ---- the vote ---- */

  const MATCH_FRAMES: nat := 5
  const MIN_MATCH_FRAMES: nat := 3
  const PER_FRAME_BUDGET_MS: nat := 150
  const MS: nat := 1000000

  datatype Decision = Match | NoMatch(distance: real) | Insufficient(captured: nat, required: nat)

  /** How many distances are at or under the threshold. */
  function Votes(s: seq<real>, threshold: real): (n: nat)
    ensures n <= |s|
  {
    if s == [] then 0 else (if s[0] <= threshold then 1 else 0) + Votes(s[1..], threshold)
  }

  ghost predicate Ascending(s: seq<real>) {
    forall i, j :: 0 <= i < j < |s| ==> s[i] <= s[j]
  }

  function Insert(x: real, s: seq<real>): (r: seq<real>)
    ensures |r| == |s| + 1 && multiset(r) == multiset(s) + multiset{x}
  {
    if s == [] then [x]
    else if x <= s[0] then [x] + s
    else
      assert s == [s[0]] + s[1..];
      [s[0]] + Insert(x, s[1..])
  }

  /** The standard library's sort. */
  function Sorted(s: seq<real>): (r: seq<real>)
    ensures |r| == |s| && multiset(r) == multiset(s)
  {
    if s == [] then []
    else
      assert s == [s[0]] + s[1..];
      Insert(s[0], Sorted(s[1..]))
  }

  lemma {:induction false} InsertAscends(x: real, s: seq<real>)
    requires Ascending(s)
    ensures Ascending(Insert(x, s))
  {
    if s == [] {
    } else if x <= s[0] {
      ConsAscends(x, s);
    } else {
      InsertAscends(x, s[1..]);
      hide *;
      var r := Insert(x, s[1..]);
      forall y | y in r ensures s[0] <= y {
        InsertMembers(x, s[1..], y);
      }
      ConsAscends(s[0], r);
    }
  }

  lemma InsertMembers(x: real, s: seq<real>, y: real)
    requires y in Insert(x, s)
    ensures y == x || y in s
  {
    hide *;
    assert y in multiset(Insert(x, s));
    assert y in multiset(s) + multiset{x};
  }

  lemma ConsAscends(x: real, s: seq<real>)
    requires Ascending(s) && forall y :: y in s ==> x <= y
    ensures Ascending([x] + s)
  {
    var r := [x] + s;
    forall i, j | 0 <= i < j < |r| ensures r[i] <= r[j] {
      assert r[j] == s[j - 1] && s[j - 1] in s;
    }
  }

  lemma {:induction false} SortedAscends(s: seq<real>)
    ensures Ascending(Sorted(s))
  {
    if s != [] {
      SortedAscends(s[1..]);
      InsertAscends(s[0], Sorted(s[1..]));
    }
  }

  lemma {:induction false} InsertVotes(x: real, s: seq<real>, threshold: real)
    ensures Votes(Insert(x, s), threshold) == Votes(s, threshold) + if x <= threshold then 1 else 0
  {
    if s != [] && x > s[0] { InsertVotes(x, s[1..], threshold); }
  }

  lemma {:induction false} SortedVotes(s: seq<real>, threshold: real)
    ensures Votes(Sorted(s), threshold) == Votes(s, threshold)
  {
    if s != [] {
      SortedVotes(s[1..], threshold);
      InsertVotes(s[0], Sorted(s[1..]), threshold);
    }
  }

  /** In ascending order the votes come first. */
  lemma {:induction false} VotesComeFirst(s: seq<real>, threshold: real, k: nat)
    requires Ascending(s) && k < |s|
    ensures s[k] <= threshold <==> Votes(s, threshold) > k
  {
    if s[0] > threshold {
      NoVotes(s, threshold);
    } else if k > 0 {
      VotesComeFirst(s[1..], threshold, k - 1);
    }
  }

  lemma {:induction false} NoVotes(s: seq<real>, threshold: real)
    requires forall i :: 0 <= i < |s| ==> s[i] > threshold
    ensures Votes(s, threshold) == 0
  {
    if s != [] { NoVotes(s[1..], threshold); }
  }

  /** `decide_match`: with enough distances it accepts exactly on a strict majority of votes, in whatever order they
      came; the distance it reports is one no more than half of them are below. */
  method DecideMatch(distances: array<real>, threshold: real, minFrames: nat) returns (r: Decision)
    requires minFrames > 0
    modifies distances
    ensures multiset(distances[..]) == multiset(old(distances[..]))
    ensures r.Insufficient? <==> distances.Length < minFrames
    ensures r.Insufficient? ==> r == Insufficient(distances.Length, minFrames) && distances[..] == old(distances[..])
    ensures distances.Length >= minFrames ==> Ascending(distances[..])
    ensures r.Match? <==> distances.Length >= minFrames && 2 * Votes(old(distances[..]), threshold) > distances.Length
    ensures r.NoMatch? ==> r.distance > threshold && r.distance in old(distances[..])
                           && r.distance == Sorted(old(distances[..]))[distances.Length / 2]
  {
    if distances.Length < minFrames { return Insufficient(distances.Length, minFrames); }
    ghost var before := distances[..];
    SortedAscends(before);
    SortedVotes(before, threshold);
    var s := Sorted(distances[..]);
    forall i | 0 <= i < distances.Length { distances[i] := s[i]; }
    assert distances[..] == s;
    var median := distances[distances.Length / 2];
    VotesComeFirst(s, threshold, distances.Length / 2);
    assert median in multiset(s);
    r := if median <= threshold then Match else NoMatch(median);
  }

  lemma SplitFirst(s: seq<real>, i: nat)
    requires i < |s|
    ensures multiset(s) == multiset(s[..i] + s[i + 1..]) + multiset{s[i]}
  {
    assert s == s[..i] + [s[i]] + s[i + 1..];
  }

  lemma {:induction false} VotesWithout(s: seq<real>, threshold: real, i: nat)
    requires i < |s|
    ensures Votes(s, threshold) == Votes(s[..i] + s[i + 1..], threshold) + if s[i] <= threshold then 1 else 0
  {
    if i == 0 {
      assert s[..0] + s[1..] == s[1..];
    } else {
      VotesWithout(s[1..], threshold, i - 1);
      assert s[1..][..i - 1] + s[1..][i..] == (s[..i] + s[i + 1..])[1..];
    }
  }

  /** The order of the frames does not matter. */
  lemma {:induction false} VotesIgnoreOrder(s: seq<real>, t: seq<real>, threshold: real)
    requires multiset(s) == multiset(t)
    ensures Votes(s, threshold) == Votes(t, threshold) && |s| == |t|
    decreases |s|
  {
    assert |multiset(s)| == |s| && |multiset(t)| == |t|;
    if s != [] {
      assert s[0] in multiset(t);
      var i :| 0 <= i < |t| && t[i] == s[0];
      assert s == [s[0]] + s[1..];
      SplitFirst(t, i);
      var u := t[..i] + t[i + 1..];
      assert multiset(s) == multiset{s[0]} + multiset(s[1..]);
      assert multiset(s[1..]) == multiset(s) - multiset{s[0]} == multiset(t) - multiset{t[i]} == multiset(u);
      VotesIgnoreOrder(s[1..], u, threshold);
      VotesWithout(t, threshold, i);
    }
  }

  /* ---- the run ---- */

  datatype Capture = Got(frame: nat) | TimedOut | Broken

  /** What the detector and the matcher make of a frame. */
  datatype Judged = Distance(value: real) | NoFaceFound | Unusable

  datatype Outcome = Accepted | Rejected(decision: Decision) | NotLive | DeviceError

  /** What becomes of the pair: `Half` is the run that fails in the second capture, with the emitter on. */
  datatype Pair = Pair(off: nat, on: nat) | Mismatched | Half | NoPair

  class Rig {
    /** The n-th call: what a capture yields, by how much it is late, whether an emitter command fails and what state
        it then leaves. */
    const capture: nat -> Capture
    const took: nat -> nat
    const slack: nat
    const stuck: nat -> bool
    const leaves: nat -> bool
    const live: (nat, nat) -> bool
    const sameSize: (nat, nat) -> bool
    const judge: nat -> Judged
    var now: nat
    var calls: nat
    var emitterOn: bool
    /** The frames captured so far, each with the state of the emitter it was captured under. */
    ghost var shots: seq<(nat, bool)>

    constructor (capture: nat -> Capture, took: nat -> nat, slack: nat, stuck: nat -> bool, leaves: nat -> bool,
                 live: (nat, nat) -> bool, sameSize: (nat, nat) -> bool, judge: nat -> Judged)
      ensures this.capture == capture && this.took == took && this.slack == slack && this.stuck == stuck
      ensures this.leaves == leaves && this.live == live && this.sameSize == sameSize && this.judge == judge
      ensures now == 0 && calls == 0 && !emitterOn && shots == []
    {
      this.capture, this.took, this.slack, this.stuck := capture, took, slack, stuck;
      this.leaves, this.live, this.sameSize, this.judge := leaves, live, sameSize, judge;
      now, calls, emitterOn, shots := 0, 0, false, [];
    }

    ghost predicate EmitterWorks() {
      forall n: nat :: !stuck(n)
    }

    /** The source honours its budget up to `slack`, and a capture takes some time. */
    method CaptureFrame(budget: nat) returns (c: Capture)
      modifies `now, `calls, `shots
      ensures c == capture(old(calls)) && calls == old(calls) + 1
      ensures if c.Got? then shots == old(shots) + [(c.frame, emitterOn)] else shots == old(shots)
      ensures old(now) < now <= old(now) + budget + slack + 1
    {
      c := capture(calls);
      now := now + 1 + (if took(calls) <= budget + slack then took(calls) else budget + slack);
      calls := calls + 1;
      if c.Got? { shots := shots + [(c.frame, emitterOn)]; }
    }

    method SetEnabled(on: bool) returns (ok: bool)
      modifies `calls, `emitterOn
      ensures calls == old(calls) + 1
      ensures ok <==> !stuck(old(calls))
      ensures emitterOn == if ok then on else leaves(old(calls))
    {
      ok := !stuck(calls);
      emitterOn := if ok then on else leaves(calls);
      calls := calls + 1;
    }

    /** Of the two captures of a pair begun at call `n` the second alone fails. */
    ghost predicate SecondFails(n: nat) {
      capture(n + 1).Got? && !capture(n + 3).Got?
    }

    /** The state a command leaves the emitter in. */
    ghost predicate After(n: nat, on: bool) {
      if stuck(n) then leaves(n) else on
    }

    /** The state of the emitter after a pair begun at call `n`: off, on, and off again, as far as it came. */
    ghost predicate PairLeavesOn(n: nat) {
      if stuck(n) then leaves(n)
      else if !capture(n + 1).Got? then false
      else if stuck(n + 2) then leaves(n + 2)
      else if !capture(n + 3).Got? then true
      else After(n + 4, false)
    }

    /** A run begun at call `n` comes to the vote: both frames are there, alike, live and usable. */
    ghost predicate ComesToVote(n: nat) {
      && !stuck(n) && capture(n + 1).Got? && !stuck(n + 2) && capture(n + 3).Got?
      && sameSize(capture(n + 1).frame, capture(n + 3).frame) && live(capture(n + 1).frame, capture(n + 3).frame)
      && !judge(capture(n + 3).frame).Unusable?
    }

    /** The distances of the frames captured under the emitter, in order; frames without a face give none. */
    ghost function Distances(shots: seq<(nat, bool)>): seq<real> {
      if shots == [] then []
      else
        var (frame, lit) := shots[|shots| - 1];
        Distances(shots[..|shots| - 1]) + if lit && judge(frame).Distance? then [judge(frame).value] else []
    }

    /** `capture_liveness_pair`: the first frame is captured in the dark, the second under the emitter. */
    method CapturePair(deadlineMs: nat) returns (p: Pair)
      modifies `now, `calls, `emitterOn, `shots
      ensures calls > old(calls) && old(shots) <= shots
      ensures old(now) <= now <= old(now) + deadlineMs * MS + 2 * slack + 2
      ensures emitterOn <==> PairLeavesOn(old(calls))
      ensures EmitterWorks() ==> (emitterOn <==> p.Half?)
      ensures EmitterWorks() ==> (p.Half? <==> SecondFails(old(calls)))
      ensures p.Pair? ==> !stuck(old(calls)) && !stuck(old(calls) + 2) && calls == old(calls) + 5
                          && capture(old(calls) + 1) == Got(p.off) && capture(old(calls) + 3) == Got(p.on)
      ensures !p.Pair? ==> !ComesToVote(old(calls))
      ensures p.Pair? ==> sameSize(p.off, p.on) && shots == old(shots) + [(p.off, false), (p.on, true)]
    {
      var deadline := now + deadlineMs * MS;
      var ok := SetEnabled(false);
      if !ok { return NoPair; }
      var off := CaptureFrame(deadlineMs / 2 * MS);
      if !off.Got? { return NoPair; }
      ok := SetEnabled(true);
      if !ok { return NoPair; }
      var remaining := if now < deadline then (deadline - now) / MS else 0;
      var on := CaptureFrame(remaining * MS);
      if !on.Got? { return Half; }
      ok := SetEnabled(false);
      p := if sameSize(off.frame, on.frame) then Pair(off.frame, on.frame) else Mismatched;
    }

    /** The loop of `verify` under the emitter guard: it collects distances of captured frames, up to five. */
    method CollectWarm(first: seq<real>, deadline: nat)
      returns (ok: bool, distances: seq<real>, ghost taken: seq<(nat, bool)>)
      requires |first| <= 1 && emitterOn
      modifies `now, `calls, `shots
      ensures |distances| <= MATCH_FRAMES
      ensures shots == old(shots) + taken && distances == first + Distances(taken)
      ensures ok && |distances| < MATCH_FRAMES ==> deadline < now + MS
      ensures old(now) <= now && now <= Later(old(now), deadline) + slack + 1
    {
      hide Distances;
      distances, taken := first, [];
      NoShots();
      while |distances| < MATCH_FRAMES
        invariant |distances| <= MATCH_FRAMES && old(calls) <= calls
        invariant shots == old(shots) + taken && distances == first + Distances(taken)
        invariant old(now) <= now && now <= Later(old(now), deadline) + slack + 1
        decreases Later(old(now), deadline) + slack + 1 - now
      {
        var remaining := if now < deadline then (deadline - now) / MS else 0;
        if remaining == 0 { return true, distances, taken; }
        var budget := if remaining <= PER_FRAME_BUDGET_MS then remaining else PER_FRAME_BUDGET_MS;
        var c := CaptureFrame(budget * MS);
        if c.Got? {
          OneShot(taken, c.frame, true);
          taken := taken + [(c.frame, true)];
        }
        if c.Broken? { return false, distances, taken; }
        if c.Got? {
          var d := judge(c.frame);
          if d.Unusable? { return false, distances, taken; }
          if d.Distance? { distances := distances + [d.value]; }
        }
      }
      ok := true;
    }

    /** `verify`: it accepts only a live pair and a strict majority of three to five distances, and these are the
        distances of all the frames it captured under the emitter. It is done by its deadline but for the lateness of
        captures. Once past the pair it has turned the emitter off whatever happened since; an emitter that obeys is
        left on exactly when the second capture of the pair, and not the first, fails. */
    method Verify(threshold: real, deadlineMs: nat)
      returns (r: Outcome, ghost pair: Pair, ghost distances: seq<real>, ghost guarded: bool)
      modifies `now, `calls, `emitterOn, `shots
      ensures r.Accepted? ==> pair.Pair? && live(pair.off, pair.on)
                              && MIN_MATCH_FRAMES <= |distances| <= MATCH_FRAMES
                              && 2 * Votes(distances, threshold) > |distances|
      ensures r.Rejected? ==> pair.Pair? && live(pair.off, pair.on)
                              && !(|distances| >= MIN_MATCH_FRAMES && 2 * Votes(distances, threshold) > |distances|)
      ensures r.NotLive? ==> pair.Pair? && !live(pair.off, pair.on) && distances == []
      ensures pair.Pair? && !live(pair.off, pair.on) ==> r.NotLive?
      ensures old(shots) <= shots && (guarded ==> distances == Distances(shots[|old(shots)|..]))
      ensures now <= old(now) + deadlineMs * MS + 3 * slack + 3
      ensures guarded ==> calls > 0 && (emitterOn ==> stuck(calls - 1))
      ensures r.Accepted? || r.Rejected? ==> guarded
      ensures EmitterWorks() ==> (emitterOn <==> SecondFails(old(calls)))
      // the state of the emitter, whatever its commands do: the last of them was the one of the guard, if there was a vote
      ensures emitterOn <==>
                if !ComesToVote(old(calls)) then PairLeavesOn(old(calls))
                else if stuck(old(calls) + 5) then leaves(old(calls) + 5)
                else calls > 0 && After(calls - 1, false)
    {
      hide *;
      guarded, distances := false, [];
      var deadline := now + deadlineMs * MS;
      var p := CapturePair(deadlineMs);
      pair := p;
      ghost var began, taken := old(calls), shots;
      if !p.Pair? { return DeviceError, pair, distances, guarded; }
      PairVotes(began, p.off, p.on);
      if !live(p.off, p.on) { return NotLive, pair, distances, guarded; }
      LaterIs(now, deadline);
      r, distances, guarded := Identify(p.on, threshold, deadline);
      PairAndRest(old(shots), taken, shots, p.off, p.on);
    }

    /** Whether a pair comes to the vote. */
    lemma PairVotes(n: nat, off: nat, on: nat)
      requires !stuck(n) && !stuck(n + 2) && capture(n + 1) == Got(off) && capture(n + 3) == Got(on) && sameSize(off, on)
      ensures ComesToVote(n) <==> live(off, on) && !judge(on).Unusable?
    {
    }

    /** The distances of a pair and of what is captured after it. */
    lemma PairAndRest(before: seq<(nat, bool)>, pair: seq<(nat, bool)>, after: seq<(nat, bool)>, off: nat, on: nat)
      requires pair == before + [(off, false), (on, true)] && pair <= after
      ensures before <= after
      ensures Distances(after[|before|..])
           == (if judge(on).Distance? then [judge(on).value] else []) + Distances(after[|pair|..])
    {
      hide *;
      PairDistances(off, on);
      DistancesAppend([(off, false), (on, true)], after[|pair|..]);
      assert after[|before|..] == [(off, false), (on, true)] + after[|pair|..];
    }

    /** The vote of `verify`, under the emitter guard. */
    method Identify(on: nat, threshold: real, deadline: nat)
      returns (r: Outcome, ghost distances: seq<real>, ghost guarded: bool)
      modifies `now, `calls, `emitterOn, `shots
      ensures r.Accepted? ==> MIN_MATCH_FRAMES <= |distances| <= MATCH_FRAMES && 2 * Votes(distances, threshold) > |distances|
      ensures r.Rejected? ==> !(|distances| >= MIN_MATCH_FRAMES && 2 * Votes(distances, threshold) > |distances|)
      ensures !r.NotLive? && (r.Accepted? || r.Rejected? ==> guarded)
      ensures old(shots) <= shots
      ensures guarded ==> distances == (if judge(on).Distance? then [judge(on).value] else [])
                                       + Distances(shots[|old(shots)|..])
      ensures old(now) <= now <= Later(old(now), deadline) + slack + 1
      ensures guarded ==> calls > 0 && (emitterOn ==> stuck(calls - 1))
      ensures EmitterWorks() && !old(emitterOn) ==> !emitterOn
      ensures emitterOn <==>
                if judge(on).Unusable? then old(emitterOn)
                else if stuck(old(calls)) then leaves(old(calls))
                else calls > 0 && After(calls - 1, false)
    {
      distances, guarded := [], false;
      var first := judge(on);
      if first.Unusable? { return DeviceError, distances, guarded; }
      var enabled := SetEnabled(true);
      if !enabled { return DeviceError, distances, guarded; }
      guarded := true;
      var ok, ds, taken := CollectWarm(if first.Distance? then [first.value] else [], deadline);
      distances := ds;
      assert shots[|old(shots)|..] == taken;
      r := DeviceError;
      if ok {
        var decision := Decide(ds, threshold);
        r := if decision.Match? then Accepted else Rejected(decision);
      }
      var restored := SetEnabled(false);
    }

    lemma {:induction false} DistancesAppend(a: seq<(nat, bool)>, b: seq<(nat, bool)>)
      ensures Distances(a + b) == Distances(a) + Distances(b)
    {
      if b == [] {
        assert a + b == a;
      } else {
        assert (a + b)[..|a + b| - 1] == a + b[..|b| - 1];
        DistancesAppend(a, b[..|b| - 1]);
      }
    }

    lemma NoShots()
      ensures Distances([]) == []
    {
    }

    lemma OneShot(a: seq<(nat, bool)>, frame: nat, lit: bool)
      ensures Distances(a + [(frame, lit)])
              == Distances(a) + if lit && judge(frame).Distance? then [judge(frame).value] else []
    {
      assert (a + [(frame, lit)])[..|a|] == a;
    }

    lemma PairDistances(off: nat, on: nat)
      ensures Distances([(off, false), (on, true)]) == if judge(on).Distance? then [judge(on).value] else []
    {
      OneShot([], off, false);
      OneShot([(off, false)], on, true);
      assert [(off, false)] + [(on, true)] == [(off, false), (on, true)] && [] + [(off, false)] == [(off, false)];
    }

    method Decide(ds: seq<real>, threshold: real) returns (r: Decision)
      ensures r.Match? <==> |ds| >= MIN_MATCH_FRAMES && 2 * Votes(ds, threshold) > |ds|
      ensures r.Insufficient? <==> |ds| < MIN_MATCH_FRAMES
    {
      var a := new real[|ds|](i requires 0 <= i < |ds| => ds[i]);
      assert a[..] == ds;
      r := DecideMatch(a, threshold, MIN_MATCH_FRAMES);
    }
  }

  /** A camera that breaks on the second capture leaves the emitter on. */
  method EmitterLeftOn() returns (rig: Rig, r: Outcome)
    ensures fresh(rig) && rig.EmitterWorks() && !r.Accepted? && rig.emitterOn
  {
    rig := new Rig(n => if n == 1 then Got(0) else Broken, n => 0, 0, n => false, n => false,
      (i, j) => true, (i, j) => true, n => Distance(0.0));
    assert rig.SecondFails(0);
    ghost var pair, distances, guarded;
    r, pair, distances, guarded := rig.Verify(0.5, 1000);
  }

  function Later(a: nat, b: nat): nat { if a <= b then b else a }

  lemma LaterIs(a: nat, b: nat)
    ensures Later(a, b) <= a || Later(a, b) <= b
  {
  }
}
