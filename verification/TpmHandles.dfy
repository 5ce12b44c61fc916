/** The TPM operations under the transaction: sealing, unsealing and changing the lockout authValue, with every
    session and loaded object a handle that has to be given back on every path. */
module TpmHandles {
  import opened Wrappers
  import opened Secrets

  datatype Error = PinEmpty | PinTooLong | NameMismatch | WrongPin | Lockout | AuthTooLong | NoProgress | Fault

  const MAX_LOCKOUT_AUTH_LEN: nat := 32
  const MAX_EMPTY_READS: nat := 8

  /** How many of the calls `from <= n < to` are stuck. */
  ghost function Count(stuck: nat -> bool, from: nat, to: nat): nat {
    if to <= from then 0 else Count(stuck, from, to - 1) + if stuck(to - 1) then 1 else 0
  }

  /** A ledger of handles: those open, and of them those nobody will close. */
  datatype Ledger = Ledger(live: set<nat>, lost: set<nat>, next: nat, releases: nat) {
    ghost predicate Valid() {
      lost <= live && forall h <- live :: h < next
    }

    /** From here to `l` the handles `open` were opened and every other new one was lost, one for each stuck call. */
    ghost predicate Opens(l: Ledger, open: set<nat>, stuck: nat -> bool) {
      && Valid() && l.Valid() && next <= l.next && releases <= l.releases && lost <= l.lost
      && (forall h <- open :: h in l.live && h !in l.lost && h !in live)
      && (forall h <- l.lost :: h in live ==> h in lost)
      && (forall h :: h in l.live <==> h in live || h in l.lost || h in open)
      && |l.lost| == |lost| + Count(stuck, releases, l.releases)
    }

    /** A call on an open handle that has to succeed for the handle not to be lost; a successful flush closes it. */
    function Released(h: nat, ok: bool, flush: bool): Ledger {
      Ledger(if ok && flush then live - {h} else live, if ok then lost else lost + {h}, next, releases + 1)
    }
  }

  lemma CountSplit(stuck: nat -> bool, from: nat, mid: nat, to: nat)
    requires from <= mid <= to
    ensures Count(stuck, from, to) == Count(stuck, from, mid) + Count(stuck, mid, to)
  {
  }

  lemma ReleasedStaysOpen(a: Ledger, b: Ledger, open: set<nat>, h: nat, flush: bool, stuck: nat -> bool)
    requires a.Opens(b, open, stuck) && h in open
    ensures h in b.live
    ensures var ok := !stuck(b.releases);
            a.Opens(b.Released(h, ok, flush), if ok && !flush then open else open - {h}, stuck)
  {
    var ok := !stuck(b.releases);
    var c := b.Released(h, ok, flush);
    LossesCounted(a, b, h, stuck);
    hide Count;
    assert c.lost == if ok then b.lost else b.lost + {h};
    assert c.Valid();
    StillOpen(a, b, open, h, flush, ok, stuck);
  }

  /** Which handles are open after the call. */
  lemma StillOpen(a: Ledger, b: Ledger, open: set<nat>, h: nat, flush: bool, ok: bool, stuck: nat -> bool)
    requires a.Opens(b, open, stuck) && h in open
    ensures var c, rest := b.Released(h, ok, flush), if ok && !flush then open else open - {h};
            && (forall k <- rest :: k in c.live && k !in c.lost && k !in a.live)
            && (forall k <- c.lost :: k in a.live ==> k in a.lost)
            && (forall k :: k in c.live <==> k in a.live || k in c.lost || k in rest)
  {
    hide Count;
  }

  /** A stuck call adds one handle to those lost. */
  lemma LossesCounted(a: Ledger, b: Ledger, h: nat, stuck: nat -> bool)
    requires a.releases <= b.releases && |b.lost| == |a.lost| + Count(stuck, a.releases, b.releases) && h !in b.lost
    ensures var lost := if stuck(b.releases) then b.lost + {h} else b.lost;
            |lost| == |a.lost| + Count(stuck, a.releases, b.releases + 1)
  {
  }

  /** What is opened between is closed between. */
  lemma OpensThen(a: Ledger, b: Ledger, c: Ledger, stuck: nat -> bool)
    requires a.Opens(b, {}, stuck)
    ensures forall open :: b.Opens(c, open, stuck) ==> a.Opens(c, open, stuck)
  {
    if b.releases <= c.releases { CountSplit(stuck, a.releases, b.releases, c.releases); }
  }

  /** When no call was stuck the open handles are those that were open before. */
  lemma NothingLost(a: Ledger, b: Ledger, stuck: nat -> bool)
    requires a.Opens(b, {}, stuck)
    ensures b.live == a.live <==> forall n :: a.releases <= n < b.releases ==> !stuck(n)
  {
    CountZero(stuck, a.releases, b.releases);
    assert b.lost == a.lost + (b.lost - a.lost);
    if b.live == a.live { assert b.lost - a.lost == {}; }
    if |b.lost| == |a.lost| { LostAlready(a.lost, b.lost); }
  }

  lemma LostAlready(a: set<nat>, b: set<nat>)
    requires a <= b && |a| == |b|
    ensures a == b
  {
    assert |b - a| == 0;
  }

  lemma CountZero(stuck: nat -> bool, from: nat, to: nat)
    ensures Count(stuck, from, to) == 0 <==> forall n :: from <= n < to ==> !stuck(n)
  {
    if from < to { CountZero(stuck, from, to - 1); }
  }

  class Context {
    /** Which ordinary call fails, and which call that sets session attributes or flushes a handle. */
    const fault: nat -> bool
    const stuck: nat -> bool
    const random: nat -> seq<bv8>
    const primaryName: string
    const maxAuthFail: nat
    var calls: nat
    var handles: Ledger
    var failures: nat
    var lockoutAuth: Secret
    var cachedAuth: Secret
    /** How many authValues of sealed objects the TPM was asked to judge. */
    ghost var judged: nat

    constructor (fault: nat -> bool, stuck: nat -> bool, random: nat -> seq<bv8>, primaryName: string, maxAuthFail: nat,
                 lockoutAuth: Secret)
      ensures this.fault == fault && this.stuck == stuck && this.random == random
      ensures this.primaryName == primaryName && this.maxAuthFail == maxAuthFail
      ensures calls == 0 && failures == 0 && judged == 0 && this.lockoutAuth == lockoutAuth && handles == Ledger({}, {}, 0, 0)
    {
      this.fault, this.stuck, this.random := fault, stuck, random;
      this.primaryName, this.maxAuthFail := primaryName, maxAuthFail;
      calls, failures, judged, handles := 0, 0, 0, Ledger({}, {}, 0, 0);
      this.lockoutAuth, cachedAuth := lockoutAuth, EMPTY;
    }

    ghost predicate Calm() {
      forall n: nat :: !fault(n) && !stuck(n)
    }

    predicate LockedOut()
      reads `failures
    {
      maxAuthFail != 0 && failures >= maxAuthFail
    }

    method Call() returns (ok: bool)
      modifies `calls
      ensures calls == old(calls) + 1 && ok == !fault(old(calls))
    {
      ok := !fault(calls);
      calls := calls + 1;
    }

    /** `start_auth_session`, and `load` after it: a handle, or nothing opened. */
    method Open() returns (r: Option<nat>)
      requires handles.Valid()
      modifies `calls, `handles
      ensures calls == old(calls) + 1
      ensures r.Some? <==> !fault(old(calls))
      ensures r == None ==> handles == old(handles)
      ensures r.Some? ==> r.value !in old(handles).live && old(handles).Opens(handles, {r.value}, stuck)
      ensures r.Some? ==> handles.releases == old(handles).releases
    {
      var ok := Call();
      if !ok { return None; }
      var h := handles.next;
      handles := handles.(live := handles.live + {h}, next := h + 1);
      r := Some(h);
    }

    /** `tr_sess_set_attributes`, whose failure leaves the session open with nobody holding it. */
    method SetAttributes(h: nat, ghost before: Ledger) returns (ok: bool)
      requires before.Opens(handles, {h}, stuck)
      modifies `handles
      ensures ok <==> !stuck(old(handles).releases)
      ensures handles.releases == old(handles).releases + 1
      ensures before.Opens(handles, if ok then {h} else {}, stuck)
    {
      hide Ledger.Opens;
      ReleasedStaysOpen(before, handles, {h}, h, false, stuck);
      ok := !stuck(handles.releases);
      handles := handles.Released(h, ok, false);
      assert {h} - {h} == {};
    }

    method Flush(h: nat, ghost before: Ledger) returns (ok: bool)
      requires before.Opens(handles, {h}, stuck)
      modifies `handles
      ensures ok <==> !stuck(old(handles).releases)
      ensures before.Opens(handles, {}, stuck) && (!ok ==> h in handles.live)
    {
      hide Ledger.Opens;
      assert {} + {h} == {h};
      ok := FlushBeside(h, {}, before);
    }

    /** A flush with the handles of `rest` still open. */
    method FlushBeside(h: nat, ghost rest: set<nat>, ghost before: Ledger) returns (ok: bool)
      requires before.Opens(handles, rest + {h}, stuck) && h !in rest
      modifies `handles
      ensures ok <==> !stuck(old(handles).releases)
      ensures before.Opens(handles, rest, stuck) && (!ok ==> h in handles.live)
    {
      hide Ledger.Opens;
      ReleasedStaysOpen(before, handles, rest + {h}, h, true, stuck);
      ok := !stuck(handles.releases);
      handles := handles.Released(h, ok, true);
      assert rest + {h} - {h} == rest;
    }

    /** `start_salted_hmac_session` and `start_policy_session`. */
    method StartSession() returns (r: Option<nat>)
      requires handles.Valid()
      modifies `calls, `handles
      ensures old(handles).Opens(handles, if r.Some? then {r.value} else {}, stuck)
      ensures r.Some? ==> r.value !in old(handles).live
      ensures calls == old(calls) + 1
      ensures r.Some? <==> !fault(old(calls)) && !stuck(old(handles).releases)
      ensures r.Some? ==> handles.releases == old(handles).releases + 1
    {
      r := Open();
      if r.Some? {
        var ok := SetAttributes(r.value, old(handles));
        if !ok { r := None; }
      }
    }

    /** `policy_auth_value_digest`: a trial session around two calls. */
    method PolicyDigest() returns (ok: bool)
      requires handles.Valid()
      modifies `calls, `handles
      ensures old(handles).Opens(handles, {}, stuck)
      ensures Calm() ==> ok
      ensures calls > old(calls)
    {
      var trial := Open();
      if trial == None { return false; }
      var asserted := Call();
      var digest := false;
      if asserted { digest := Call(); }
      var flushed := Flush(trial.value, old(handles));
      ok := digest && flushed;
    }

    /** `seal`. */
    method Seal(pin: Secret, secret: Secret) returns (r: Result<SealedObject, Error>)
      requires handles.Valid()
      modifies `calls, `handles
      ensures old(handles).Opens(handles, {}, stuck)
      ensures BadPin(pin).Some? ==> r == Err(BadPin(pin).value) && handles == old(handles) && calls == old(calls)
      ensures r.Ok? ==> r.value == SealedObject(secret, pin, primaryName)
      ensures Calm() && BadPin(pin) == None ==> r.Ok?
    {
      hide Ledger.Opens;
      var bad := BadPin(pin);
      Unopened(old(handles), stuck);
      if bad.Some? { return Err(bad.value); }
      var digest := PolicyDigest();
      ghost var mid := handles;
      OpensValid(old(handles), mid, {}, stuck);
      if !digest { return Err(Fault); }
      var named := Call();
      if !named { return Err(Fault); }
      var session := StartSession();
      OpensThen(old(handles), mid, handles, stuck);
      if session == None { return Err(Fault); }
      var created := Call();
      var flushed := Flush(session.value, old(handles));
      r := if created && flushed then Ok(SealedObject(secret, pin, primaryName)) else Err(Fault);
    }

    /** `unseal_with_policy`: the object stays open, the policy session does not. */
    method UnsealWithPolicy(sealed: SealedObject, pin: Secret) returns (r: Result<Secret, Error>)
      requires handles.Valid()
      modifies `calls, `handles, `failures, `judged
      ensures old(handles).Opens(handles, {}, stuck)
      ensures old(judged) <= judged <= old(judged) + 1 && (r.Ok? || r == Err(WrongPin) ==> judged == old(judged) + 1)
      ensures r.Ok? ==> !old(LockedOut()) && sealed.auth == pin && r.value == sealed.key && failures == old(failures)
      ensures r == Err(Error.Lockout) ==> old(LockedOut())
      ensures r == Err(WrongPin) ==> !old(LockedOut()) && sealed.auth != pin && failures == old(failures) + 1
      ensures failures == old(failures) || (failures == old(failures) + 1 && sealed.auth != pin && r == Err(WrongPin))
      ensures Calm() && !old(LockedOut()) ==> r == (if sealed.auth == pin then Ok(sealed.key) else Err(WrongPin))
      ensures r.Err? ==> r.error in {Error.Lockout, WrongPin, Fault}
    {
      hide Ledger.Opens;
      Unopened(old(handles), stuck);
      var authSet := Call();
      if !authSet { return Err(Fault); }
      var policy := StartSession();
      if policy == None { return Err(Fault); }
      var asserted := Call();
      r := Err(Fault);
      if asserted { r := UnsealCommand(sealed, pin); }
      var flushed := Flush(policy.value, old(handles));
      if r.Ok? && !flushed { r := Err(Fault); }
    }

    /** The TPM's own check of the authValue; a wrong one counts towards its lockout. */
    method UnsealCommand(sealed: SealedObject, auth: Secret) returns (r: Result<Secret, Error>)
      modifies `calls, `failures, `judged
      ensures judged == old(judged) + 1
      ensures calls == old(calls) + 1
      ensures r.Ok? ==> !old(LockedOut()) && sealed.auth == auth && r.value == sealed.key
      ensures r == Err(Error.Lockout) ==> old(LockedOut())
      ensures r == Err(WrongPin) ==> !old(LockedOut()) && sealed.auth != auth
      ensures r.Err? ==> r.error in {Error.Lockout, WrongPin, Fault}
      ensures failures == old(failures) + (if r == Err(WrongPin) then 1 else 0)
      ensures Calm() && !old(LockedOut()) ==> r == (if sealed.auth == auth then Ok(sealed.key) else Err(WrongPin))
    {
      judged := judged + 1;
      var ok := Call();
      if !ok { return Err(Fault); }
      if LockedOut() { return Err(Error.Lockout); }
      if sealed.auth != auth {
        failures := failures + 1;
        return Err(WrongPin);
      }
      r := Ok(sealed.key);
    }

    /** The load of the object, in its own session; once the TPM is locked out it refuses already here. */
    method Load() returns (r: Result<nat, Error>, flushed: bool)
      requires handles.Valid()
      modifies `calls, `handles
      ensures old(handles).Opens(handles, if r.Ok? then {r.value} else {}, stuck)
      ensures r.Ok? ==> !LockedOut()
      ensures r.Err? ==> r.error in {Error.Lockout, Fault} && (r.error.Lockout? ==> LockedOut())
      ensures Calm() ==> flushed && r.Ok? == !LockedOut() && (r.Err? ==> r.error.Lockout?)
    {
      hide Ledger.Opens;
      Unopened(old(handles), stuck);
      var session := StartSession();
      if session == None { return Err(Fault), false; }
      ghost var mid := handles;
      OpensValid(old(handles), mid, {session.value}, stuck);
      if LockedOut() {
        var answered := Call();
        flushed := Flush(session.value, old(handles));
        return Err(if answered then Error.Lockout else Fault), flushed;
      }
      var item := Open();
      if item == None {
        flushed := Flush(session.value, old(handles));
        return Err(Fault), flushed;
      }
      OpensBoth(old(handles), mid, handles, session.value, item.value, stuck);
      flushed := FlushBeside(session.value, {item.value}, old(handles));
      r := Ok(item.value);
    }

    /** `unseal`: on every path each handle is flushed; a PIN of a wrong length opens nothing at all and a wrong Name
        nothing on the TPM; and the key comes out only under its own PIN and its own primary. */
    method Unseal(sealed: SealedObject, pin: Secret) returns (r: Result<Secret, Error>)
      requires handles.Valid()
      modifies `calls, `handles, `failures, `judged
      ensures old(handles).Opens(handles, {}, stuck)
      ensures r.Ok? ==> UnsealValue(sealed, pin, primaryName) == Some(r.value) && !old(LockedOut())
      ensures BadPin(pin).Some? ==> r == Err(BadPin(pin).value) && calls == old(calls)
      ensures BadPin(pin).Some? || sealed.primaryName == "" || sealed.primaryName != primaryName ==>
                r.Err? && handles == old(handles) && failures == old(failures) && judged == old(judged)
      ensures old(judged) <= judged <= old(judged) + 1 && (r.Ok? || r == Err(WrongPin) ==> judged == old(judged) + 1)
      ensures r == Err(WrongPin) ==> failures == old(failures) + 1 && sealed.auth != pin && !old(LockedOut())
      ensures r != Err(WrongPin) ==> failures == old(failures)
      ensures r == Err(Error.Lockout) ==> old(LockedOut())
      ensures Calm() ==> r == Expected(sealed, pin, primaryName, old(LockedOut()))
    {
      hide Ledger.Opens;
      Unopened(old(handles), stuck);
      var bad := BadPin(pin);
      if bad.Some? { return Err(bad.value); }
      var named := Call();
      if !named { return Err(Fault); }
      if sealed.primaryName == "" || sealed.primaryName != primaryName { return Err(NameMismatch); }
      var item, sessionFlushed := Load();
      if item.Err? { return Err(item.error); }
      ghost var loaded := handles;
      OpensValid(old(handles), loaded, {item.value}, stuck);
      r := Err(Fault);
      if sessionFlushed { r := UnsealWithPolicy(sealed, pin); }
      HeldAcross(old(handles), loaded, handles, item.value, stuck);
      Unopened(loaded, stuck);
      var objectFlushed := Flush(item.value, old(handles));
      if r.Ok? && !objectFlushed { r := Err(Fault); }
    }

    /** Whether the change of the lockout authValue is carried out, for a run that makes its calls from `call` on and sets
        attributes and flushes from `release` on: bind, open, set attributes, change. */
    ghost predicate Changes(call: nat, release: nat, current: Secret, wanted: Secret, auth: Secret) {
      && Len(current) <= MAX_LOCKOUT_AUTH_LEN && Len(wanted) <= MAX_LOCKOUT_AUTH_LEN && auth == current
      && !fault(call) && !fault(call + 1) && !stuck(release) && !fault(call + 2)
    }

    /** `set_lockout_auth`. It succeeds exactly when the change is carried out, its session flushed and the new value
        cached; so its error does not mean that the authValue is what it was, and the condition for that is exact. */
    method SetLockoutAuth(current: Secret, wanted: Secret) returns (ok: bool)
      requires handles.Valid()
      modifies `calls, `handles, `lockoutAuth, `cachedAuth
      ensures old(handles).Opens(handles, {}, stuck)
      ensures lockoutAuth == if Changes(old(calls), old(handles).releases, current, wanted, old(lockoutAuth)) then wanted
                             else old(lockoutAuth)
      ensures ok <==> Changes(old(calls), old(handles).releases, current, wanted, old(lockoutAuth))
                      && !stuck(old(handles).releases + 1) && !fault(old(calls) + 3)
      ensures ok ==> cachedAuth == lockoutAuth
      ensures Len(current) > MAX_LOCKOUT_AUTH_LEN || Len(wanted) > MAX_LOCKOUT_AUTH_LEN ==>
                !ok && calls == old(calls) && handles == old(handles) && cachedAuth == old(cachedAuth)
    {
      hide Ledger.Opens;
      Unopened(old(handles), stuck);
      if Len(current) > MAX_LOCKOUT_AUTH_LEN || Len(wanted) > MAX_LOCKOUT_AUTH_LEN { return false; }
      var bound := Call();
      if !bound { return false; }
      cachedAuth := current;
      var session := StartSession();
      if session == None { return false; }
      var answered := Call();
      var accepted := answered && cachedAuth == lockoutAuth;
      if accepted { lockoutAuth := wanted; }
      var flushed := Flush(session.value, old(handles));
      if !accepted || !flushed { return false; }
      ok := Call();
      if ok { cachedAuth := wanted; }
    }

    /** The bytes the TPM's generator yields over the calls `from <= n < to`. */
    ghost function Stream(from: nat, to: nat): seq<bv8> {
      if to <= from then [] else Stream(from, to - 1) + random(to - 1)
    }

    /** `collect_tpm_random`: exactly the first `len` bytes the generator yields, however short its answers; it gives
        up only on a failed call or on eight empty answers in a row, within eight calls a byte. */
    method CollectRandom(len: nat) returns (r: Result<seq<bv8>, Error>)
      modifies `calls
      ensures old(calls) <= calls <= old(calls) + MAX_EMPTY_READS * len
      ensures r.Ok? ==> |r.value| == len && r.value <= Stream(old(calls), calls)
      ensures r.Err? ==> (r.error.Fault? && calls > 0 && fault(calls - 1))
                         || (r.error.NoProgress? && calls >= old(calls) + MAX_EMPTY_READS
                             && forall n :: calls - MAX_EMPTY_READS <= n < calls ==> random(n) == [])
    {
      var out: seq<bv8> := [];
      var empty := 0;
      while |out| < len
        invariant |out| <= len && out <= Stream(old(calls), calls) && (|out| < len ==> out == Stream(old(calls), calls))
        invariant empty < MAX_EMPTY_READS && old(calls) + empty <= calls
        invariant calls - old(calls) <= MAX_EMPTY_READS * |out| + empty
        invariant forall n :: calls - empty <= n < calls ==> random(n) == []
        invariant |out| == len ==> empty == 0
        decreases len - |out|, MAX_EMPTY_READS - empty
      {
        var chunk := random(calls);
        var ok := Call();
        if !ok { return Err(Fault); }
        if chunk == [] {
          empty := empty + 1;
          if empty >= MAX_EMPTY_READS { return Err(NoProgress); }
          continue;
        }
        empty := 0;
        out := out + chunk[..if |chunk| <= len - |out| then |chunk| else len - |out|];
      }
      r := Ok(out);
    }

    /** `pin_holder_recover`. */
    method PinHolderRecover(sealed: SealedObject, pin: Secret) returns (r: Result<(), Error>)
      requires handles.Valid()
      modifies `calls, `handles, `failures, `judged
      ensures old(handles).Opens(handles, {}, stuck)
      ensures r.Ok? ==> !old(LockedOut()) && UnsealValue(sealed, pin, primaryName).Some?
      ensures old(LockedOut()) ==> r.Err? && handles == old(handles) && failures == old(failures)
      ensures Calm() && !old(LockedOut()) ==> (r.Ok? <==> UnsealValue(sealed, pin, primaryName).Some?)
    {
      Unopened(old(handles), stuck);
      var read := Call();
      if !read { return Err(Fault); }
      if LockedOut() { return Err(Error.Lockout); }
      var secret := Unseal(sealed, pin);
      r := if secret.Ok? then Ok(()) else Err(secret.error);
    }
  }

  /** However many PINs are tried, each costs at most one judgement of the TPM, every handle is given back, and only the
      right PIN finds the key. That the wrong ones stay within the limit is then the TPM's own doing. */
  method TryAll(c: Context, sealed: SealedObject, pins: seq<Secret>) returns (found: Option<Secret>, wrong: nat)
    requires c.handles.Valid()
    modifies c`calls, c`handles, c`failures, c`judged
    ensures old(c.handles).Opens(c.handles, {}, c.stuck)
    ensures old(c.judged) + wrong <= c.judged <= old(c.judged) + |pins|
    ensures found.Some? ==> found.value == sealed.key && sealed.auth in pins && !old(c.LockedOut())
    ensures c.failures == old(c.failures) + wrong
    ensures c.maxAuthFail != 0 && old(c.failures) <= c.maxAuthFail ==> c.failures <= c.maxAuthFail
    ensures old(c.LockedOut()) ==> wrong == 0
  {
    hide Ledger.Opens;
    Unopened(c.handles, c.stuck);
    wrong := 0;
    for i := 0 to |pins|
      invariant old(c.handles).Opens(c.handles, {}, c.stuck) && c.handles.Valid()
      invariant old(c.judged) + wrong <= c.judged <= old(c.judged) + i
      invariant c.failures == old(c.failures) + wrong
      invariant c.maxAuthFail != 0 && old(c.failures) <= c.maxAuthFail ==> c.failures <= c.maxAuthFail
      invariant old(c.LockedOut()) ==> wrong == 0
    {
      ghost var before := c.handles;
      var r := c.Unseal(sealed, pins[i]);
      OpensThen(old(c.handles), before, c.handles, c.stuck);
      OpensValid(before, c.handles, {}, c.stuck);
      if r.Ok? { return Some(r.value), wrong; }
      if r.error.WrongPin? { wrong := wrong + 1; }
    }
    found := None;
  }

  /** Sealing and unsealing with the same PIN returns the secret, with every other PIN nothing. */
  method SealThenUnseal(c: Context, pin: Secret, other: Secret, secret: Secret) returns (r: Result<Secret, Error>)
    requires c.handles.Valid() && c.Calm() && !c.LockedOut() && c.primaryName != ""
    modifies c`calls, c`handles, c`failures, c`judged
    ensures BadPin(pin) == None ==> (r == Ok(secret) <==> other == pin) && (r.Ok? <==> other == pin)
    ensures BadPin(pin).Some? ==> r == Err(BadPin(pin).value)
    ensures c.handles.live == old(c.handles.live)
  {
    ghost var before := c.handles;
    var sealed := c.Seal(pin, secret);
    NothingLost(before, c.handles, c.stuck);
    if sealed.Err? { return Err(sealed.error); }
    ghost var mid := c.handles;
    r := c.Unseal(sealed.value, other);
    NothingLost(mid, c.handles, c.stuck);
  }

  /** The verdict on a PIN before any TPM call. */
  function BadPin(pin: Secret): Option<Error> {
    if Len(pin) == 0 then Some(PinEmpty) else if Len(pin) > MAX_PIN_LEN then Some(PinTooLong) else None
  }

  /** What an unseal without faults answers. */
  function Expected(sealed: SealedObject, pin: Secret, primaryName: string, lockedOut: bool): Result<Secret, Error> {
    if BadPin(pin).Some? then Err(BadPin(pin).value)
    else if sealed.primaryName == "" || sealed.primaryName != primaryName then Err(NameMismatch)
    else if lockedOut then Err(Error.Lockout)
    else if sealed.auth != pin then Err(WrongPin)
    else Ok(sealed.key)
  }

  lemma Unopened(l: Ledger, stuck: nat -> bool)
    ensures l.Valid() ==> l.Opens(l, {}, stuck)
  {
  }

  lemma OpensValid(a: Ledger, b: Ledger, open: set<nat>, stuck: nat -> bool)
    requires a.Opens(b, open, stuck)
    ensures b.Valid()
  {
  }

  lemma OpensBoth(a: Ledger, b: Ledger, c: Ledger, h: nat, k: nat, stuck: nat -> bool)
    requires a.Opens(b, {h}, stuck) && b.Opens(c, {k}, stuck) && c.releases == b.releases
    ensures h != k && a.Opens(c, {k} + {h}, stuck)
  {
    assert |c.lost| == |b.lost| && b.lost <= c.lost;
    LostAlready(b.lost, c.lost);
  }

  lemma HeldAcross(a: Ledger, b: Ledger, c: Ledger, h: nat, stuck: nat -> bool)
    requires a.Opens(b, {h}, stuck)
    ensures b == c || b.Opens(c, {}, stuck) ==> a.Opens(c, {h}, stuck)
  {
    if b.releases <= c.releases { CountSplit(stuck, a.releases, b.releases, c.releases); }
  }

  /** The flush of the session fails after the TPM has changed the authValue: an error, and the new value is in force. */
  method ChangedDespiteError() returns (c: Context, ok: bool)
    ensures fresh(c) && !ok && c.lockoutAuth == Bytes([1])
  {
    c := new Context(n => false, n => n == 1, n => [], "primary", 32, EMPTY);
    assert c.Changes(0, 0, EMPTY, Bytes([1]), EMPTY);
    ok := c.SetLockoutAuth(EMPTY, Bytes([1]));
  }
}
