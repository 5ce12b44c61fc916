/** The watchdog over a helper process: polling, SIGTERM, a grace, SIGKILL, a second grace, and the reap that
    is put off when even that does not end it. Time is in nanoseconds. */
module Watchdog {

  datatype Limits = Limits(deadline: nat, grace: nat, poll: nat)

  /** What `try_wait` answers. */
  datatype Status = Alive | Ended(code: int) | Broken

  /** What `kill` answers; `Gone` is ESRCH. */
  datatype Reply = Sent | Gone | Refused

  datatype Signal = Term | Kill

  datatype Event = Polled(at: nat, status: Status) | Signalled(at: nat, signal: Signal, reply: Reply)

  datatype Outcome = Exited(code: int) | TimedOut(escalated: bool) | Failed

  datatype Wait = Reaped(code: int) | Elapsed | Error

  /** Polls alone, all but the last of them finding the child alive. */
  ghost predicate Polling(tail: seq<Event>) {
    |tail| > 0 && forall i :: 0 <= i < |tail| ==> tail[i].Polled? && (i < |tail| - 1 ==> tail[i].status.Alive?)
  }

  /** A poll at `i` that found the child alive. */
  ghost predicate AliveAt(log: seq<Event>, i: int) {
    0 <= i < |log| && log[i].Polled? && log[i].status.Alive?
  }

  /** What a run may look like in the log: polls; then SIGTERM, only past the deadline and after a poll there found
      the child alive; then SIGKILL, only past a full grace that every poll found unanswered; nothing after the
      child was reaped or a call failed. */
  ghost predicate Disciplined(log: seq<Event>, start: nat, w: Limits) {
    && (forall i :: 0 <= i < |log| - 1 ==> Continues(log[i]))
    && (forall i :: TermAt(log, i) ==> JustAlive(log, i) && start + w.deadline <= log[i].at && PollsOnly(log, -1, i))
    && (forall i :: KillAt(log, i) ==> JustAlive(log, i) && exists j :: Unanswered(log, j, i, w.grace))
  }

  ghost predicate Continues(e: Event) {
    (e.Polled? ==> e.status.Alive?) && (e.Signalled? ==> !e.reply.Refused?)
  }

  /** The poll just before the signal, at the same moment, found the child alive. */
  ghost predicate JustAlive(log: seq<Event>, i: int) {
    0 < i < |log| && AliveAt(log, i - 1) && log[i - 1].at == log[i].at
  }

  ghost predicate PollsOnly(log: seq<Event>, j: int, i: int) {
    forall k :: 0 <= k < |log| && j < k < i ==> log[k].Polled?
  }

  /** A SIGTERM at `j` was followed by a grace of polls alone. */
  ghost predicate Unanswered(log: seq<Event>, j: int, i: int, grace: nat) {
    TermAt(log, j) && j < i < |log| && log[j].at + grace <= log[i].at && PollsOnly(log, j, i)
  }

  ghost predicate TermAt(log: seq<Event>, j: int) {
    0 <= j < |log| && log[j].Signalled? && log[j].signal.Term?
  }

  ghost predicate KillAt(log: seq<Event>, j: int) {
    0 <= j < |log| && log[j].Signalled? && log[j].signal.Kill?
  }

  ghost predicate Asked(log: seq<Event>) {
    exists j :: TermAt(log, j)
  }

  ghost predicate Killed(log: seq<Event>) {
    exists j :: KillAt(log, j)
  }

  /** The run ended in a call that failed. */
  ghost predicate EndsInError(log: seq<Event>) {
    |log| > 0 && !Continues(log[|log| - 1]) && !EndsInExit(log)
  }

  ghost predicate EndsInExit(log: seq<Event>) {
    |log| > 0 && log[|log| - 1].Polled? && log[|log| - 1].status.Ended?
  }

  function Meaning(s: Status): Wait {
    match s
    case Alive => Elapsed
    case Ended(code) => Reaped(code)
    case Broken => Error
  }

  lemma NoSignal(log: seq<Event>, start: nat, w: Limits)
    requires Polling(log)
    ensures |log| > 0 && Disciplined(log, start, w) && !Asked(log)
  {
  }

  /** The log of a run that got as far as SIGTERM. */
  lemma Signals(first: seq<Event>, term: Event, tail: seq<Event>, start: nat, w: Limits)
    requires Polling(first) && first[|first| - 1] == Polled(term.at, Alive) && start + w.deadline <= term.at
    requires term.Signalled? && term.signal.Term? && (tail == [] || (Polling(tail) && !term.reply.Refused?))
    ensures var log := first + [term] + tail; Disciplined(log, start, w) && Asked(log) && !Killed(log)
  {
    var log := first + [term] + tail;
    assert TermAt(log, |first|);
    assert forall i :: TermAt(log, i) ==> i == |first|;
    assert forall i :: !KillAt(log, i);
  }

  /** The log of a run that got as far as SIGKILL. */
  lemma Kills(first: seq<Event>, term: Event, tail: seq<Event>, kill: Event, rest: seq<Event>, start: nat, w: Limits)
    requires Polling(first) && first[|first| - 1] == Polled(term.at, Alive) && start + w.deadline <= term.at
    requires term.Signalled? && term.signal.Term? && !term.reply.Refused?
    requires Polling(tail) && tail[|tail| - 1] == Polled(kill.at, Alive) && term.at + w.grace <= kill.at
    requires kill.Signalled? && kill.signal.Kill? && (rest == [] || (Polling(rest) && !kill.reply.Refused?))
    ensures var log := first + [term] + tail + [kill] + rest; Disciplined(log, start, w) && Asked(log) && Killed(log)
  {
    var log := first + [term] + tail + [kill] + rest;
    var at := |first| + 1 + |tail|;
    assert log[at] == kill && log[|first|] == term && log[at - 1] == tail[|tail| - 1];
    assert TermAt(log, |first|) && KillAt(log, at);
    assert forall i :: TermAt(log, i) ==> i == |first|;
    assert forall i :: KillAt(log, i) ==> i == at;
    assert Unanswered(log, |first|, at, w.grace);
  }

  class Child {
    /** How the child answers the n-th poll, made at the given time; how `kill` answers; and by how much the n-th
        sleep is late, never more than `slack`. */
    const status: (nat, nat) -> Status
    const reply: (nat, nat) -> Reply
    const late: nat -> nat
    const slack: nat
    var now: nat
    var calls: nat
    var log: seq<Event>
    var reaped: bool
    var handedOver: bool

    constructor (status: (nat, nat) -> Status, reply: (nat, nat) -> Reply, late: nat -> nat, slack: nat, now: nat)
      ensures this.status == status && this.reply == reply && this.late == late && this.slack == slack
      ensures this.now == now && log == [] && !reaped && !handedOver
    {
      this.status, this.reply, this.late, this.slack, this.now := status, reply, late, slack, now;
      calls, log, reaped, handedOver := 0, [], false, false;
    }

    /** The child ends of itself at time `e`, whatever is done to it. */
    ghost predicate Ends(e: nat, code: int) {
      forall n: nat, t: nat :: status(n, t) == if t < e then Alive else Ended(code)
    }

    method TryWait() returns (s: Status)
      requires !reaped && !handedOver
      modifies `calls, `log, `reaped
      ensures s == status(old(calls), now) && log == old(log) + [Polled(now, s)] && calls == old(calls) + 1
      ensures reaped == s.Ended?
    {
      s := status(calls, now);
      calls, log, reaped := calls + 1, log + [Polled(now, s)], s.Ended?;
    }

    /** `send_signal`: a process that is gone already needs no signal. */
    method Send(signal: Signal) returns (ok: bool)
      requires !reaped && !handedOver
      modifies `calls, `log
      ensures log == old(log) + [Signalled(now, signal, reply(old(calls), now))] && calls == old(calls) + 1
      ensures ok <==> !reply(old(calls), now).Refused?
    {
      var r := reply(calls, now);
      calls, log := calls + 1, log + [Signalled(now, signal, r)];
      ok := !r.Refused?;
    }

    method Sleep(time: nat)
      modifies `now, `calls
      ensures old(now) + time <= now <= old(now) + time + slack && calls == old(calls) + 1
    {
      now, calls := now + time + (if late(calls) <= slack then late(calls) else slack), calls + 1;
    }

    /** `wait_within`, and the first loop of `supervise`: poll until the child has ended or the budget is spent. */
    method WaitWithin(budget: nat, poll: nat) returns (r: Wait, ghost tail: seq<Event>)
      requires !reaped && !handedOver && poll > 0
      modifies `now, `calls, `log, `reaped
      ensures old(now) <= now <= old(now) + budget + slack
      ensures log == old(log) + tail && Polling(tail) && tail[|tail| - 1].at == now
      ensures r == Meaning(tail[|tail| - 1].status)
      ensures r.Elapsed? ==> old(now) + budget <= now
      ensures reaped == r.Reaped?
      ensures forall e: nat, code :: Ends(e, code) ==>
                (r == Elapsed && now < e) || (r == Reaped(code) && e <= now && (now == old(now) || now < e + poll + slack))
    {
      var started := now;
      tail := [];
      while true
        invariant started <= now <= started + budget + slack
        invariant log == old(log) + tail
        invariant forall i :: 0 <= i < |tail| ==> tail[i].Polled? && tail[i].status.Alive?
        invariant forall e: nat, code :: Ends(e, code) ==> now == started || now < e + poll + slack
        invariant !reaped
        decreases budget + slack + 1 - (now - started)
      {
        var s := TryWait();
        tail := tail + [Polled(now, s)];
        if s.Ended? { return Reaped(s.code), tail; }
        if s.Broken? { return Error, tail; }
        if now - started >= budget { return Elapsed, tail; }
        var remaining := budget - (now - started);
        Sleep(if poll <= remaining then poll else remaining);
      }
    }

    /** `escalate_termination`. */
    method Escalate(w: Limits, ghost start: nat) returns (r: Outcome)
      requires !reaped && !handedOver && w.poll > 0
      requires Polling(log) && log[|log| - 1] == Polled(now, Alive) && start + w.deadline <= now
      modifies `now, `calls, `log, `reaped
      ensures |log| > 0 && Disciplined(log, start, w) && Asked(log) && !r.Exited?
      ensures old(now) <= now <= old(now) + 2 * w.grace + 2 * slack
      ensures r.TimedOut? ==> (r.escalated <==> Killed(log)) && (!r.escalated ==> reaped)
      ensures reaped ==> r.TimedOut?
      ensures reaped <==> EndsInExit(log)
      ensures r.Failed? <==> EndsInError(log)
    {
      hide Disciplined, Asked, Killed, Polling;
      ghost var first := log;
      var ok := Send(Term);
      ghost var term := log[|log| - 1];
      Signals(first, term, [], start, w);
      assert log == first + [term] + [];
      if !ok { return Failed; }
      var wait, tail := WaitWithin(w.grace, w.poll);
      Signals(first, term, tail, start, w);
      if wait.Error? { return Failed; }
      if wait.Reaped? { return TimedOut(false); }
      ok := Send(Kill);
      ghost var kill := log[|log| - 1];
      Kills(first, term, tail, kill, [], start, w);
      assert log == first + [term] + tail + [kill] + [];
      if !ok { return Failed; }
      ghost var rest;
      wait, rest := WaitWithin(w.grace, w.poll);
      Kills(first, term, tail, kill, rest, start, w);
      r := if wait.Error? then Failed else TimedOut(true);
    }

    /** `supervise`: whatever the child does, an answer within the deadline, two graces and one late sleep per wait;
        signals by the rules; and a child left neither reaped nor handed to the reaper only when a poll failed
        before the first signal. */
    method Supervise(w: Limits) returns (r: Outcome)
      requires !reaped && !handedOver && w.poll > 0 && log == []
      modifies `now, `calls, `log, `reaped, `handedOver
      ensures now <= old(now) + w.deadline + 2 * w.grace + 3 * slack
      ensures Disciplined(log, old(now), w) && |log| > 0
      ensures r.Exited? <==> reaped && !Asked(log)
      ensures r.Exited? ==> log[|log| - 1].Polled? && log[|log| - 1].status == Ended(r.code)
      ensures r.TimedOut? ==> Asked(log) && (r.escalated <==> Killed(log)) && (!r.escalated ==> reaped)
      ensures r.Failed? <==> EndsInError(log)
      ensures reaped <==> EndsInExit(log)
      ensures !(reaped && handedOver)
      ensures !reaped && !handedOver <==> r.Failed? && !Asked(log)
      ensures forall e: nat, code :: Ends(e, code) && e <= old(now) + w.deadline ==>
                r == Exited(code) && (now == old(now) || now < e + w.poll + slack)
    {
      hide Disciplined, Asked, Killed, Polling, Ends;
      ghost var start := now;
      var wait, tail := WaitWithin(w.deadline, w.poll);
      assert log == tail;
      NoSignal(log, start, w);
      if wait.Error? { return Failed; }
      if wait.Reaped? { return Exited(wait.code); }
      r := Escalate(w, start);
      if !reaped { handedOver := true; }
    }
  }

}
