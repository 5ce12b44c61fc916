/** The machine tess acts on: the login keyring, the data directory, the TPM's lockout hierarchy, and
    an environment that answers every outside call. Call number `n` is answered by `world(n)`, so a
    property of all environments is a property of every pattern of faults.

    A crash freezes the machine: from then on every call fails and changes nothing. Whatever holds
    when a method returns therefore also holds at every point where the process may have died. */
module Hosts {
  import opened Faults
  import opened Wrappers
  import opened Secrets

  datatype Answer = Answer(verdict: Verdict, secret: Secret, sealed: SealedObject, blob: RecoveryBlob,
                           template: seq<real>)

  /** What `seal` hands back for an answer. */
  function SealAnswer(a: Answer, key: Secret, auth: Secret, primaryName: string): Option<SealedObject> {
    if Len(auth) == 0 || Len(auth) > MAX_PIN_LEN then None
    else match a.verdict
         case Done => Some(SealedObject(key, auth, primaryName))
         case Bogus => Some(a.sealed)
         case _ => None
  }

  /** What `wrap_key` hands back for an answer. */
  function WrapAnswer(a: Answer, key: Secret, recovery: Secret): Option<RecoveryBlob> {
    if Len(key) != WRAPPED_KEY_LEN then None
    else match a.verdict
         case Done => Some(RecoveryBlob(RECOVERY_BLOB_VERSION, key, recovery))
         case Bogus => Some(a.blob)
         case _ => None
  }

  datatype State = State(
    credential: Secret,
    locked: bool,
    files: Files,
    lockoutAuth: Secret,
    primaryName: string)

  class Host {
    const world: nat -> Answer
    var s: State
    var now: nat
    var crashed: bool

    ghost var passwords: set<Secret>    // keyring passwords the user supplied
    ghost var pins: set<Secret>         // PINs the user supplied
    ghost var secrets: set<Secret>      // recovery secrets generated so far
    ghost var shown: set<Secret>        // those of them that were shown to the user
    ghost var boundBy: Secret           // the recovery secret tess last used to bind the lockout auth
    ghost var late: Option<FileName>    // the last file a failed save nevertheless put in place
    ghost var lateAuth: bool            // a failed lockout-auth change nevertheless took place
    ghost var authCalls: nat            // lockout-auth changes issued to the TPM
    ghost var refused: nat              // those of them with a wrong current value
    ghost var writes: nat               // saves that put a file in place

    constructor (world: nat -> Answer, s: State)
      ensures this.world == world && this.s == s && now == 0 && !crashed
      ensures passwords == {s.credential} && pins == {} && secrets == {} && shown == {} && late == None && !lateAuth
      ensures authCalls == 0 && refused == 0 && writes == 0
    {
      this.world, this.s, now, crashed := world, s, 0, false;
      passwords, pins, secrets, shown, boundBy := {s.credential}, {}, {}, {}, EMPTY;
      late, lateAuth, authCalls, refused, writes := None, false, 0, 0, 0;
    }

    /** From call `from` on, the environment is faultless. */
    ghost predicate Calm(from: nat) {
      forall i: nat :: from <= i ==> world(i).verdict.Done?
    }

    /** A call whose answer carries data: randomness, a captured template, an item check. */
    method Ask() returns (r: Option<Answer>)
      modifies `now, `crashed
      ensures now == old(now) + (if old(crashed) then 0 else 1)
      ensures crashed == (old(crashed) || Dies(world(old(now)).verdict))
      ensures r.Some? <==> !old(crashed) && world(old(now)).verdict.Done?
      ensures r.Some? ==> !crashed && r.value == world(old(now))
    {
      if crashed { return None; }
      var a := world(now);
      now := now + 1;
      crashed := Dies(a.verdict);
      r := if a.verdict.Done? then Some(a) else None;
    }

    /** `KeyringBackend::rekey`: atomic, and refused unless `from` is the credential. */
    method Rekey(from: Secret, to: Secret) returns (ok: bool)
      modifies `s, `now, `crashed
      ensures now == old(now) + (if old(crashed) then 0 else 1)
      ensures crashed == (old(crashed) || Dies(world(old(now)).verdict))
      ensures s == if !old(crashed) && old(s).credential == from && Moves(world(old(now)).verdict)
                   then old(s).(credential := to) else old(s)
      ensures ok <==> !old(crashed) && world(old(now)).verdict.Done? && old(s).credential == from
      ensures !ok && !crashed ==> s == old(s)
    {
      if crashed { return false; }
      var v := world(now).verdict;
      now := now + 1;
      crashed := Dies(v);
      if from == s.credential && Moves(v) {
        s := s.(credential := to);
        return v.Done?;
      }
      ok := false;
    }

    /** `KeyringBackend::unlock`: the daemon answers Ok to a wrong secret and stays as it was. */
    method Unlock(secret: Secret) returns (ok: bool)
      modifies `s, `now, `crashed
      ensures now == old(now) + (if old(crashed) then 0 else 1)
      ensures crashed == (old(crashed) || Dies(world(old(now)).verdict))
      ensures old(crashed) ==> s == old(s)
      ensures s == old(s) || (secret == s.credential && s == old(s).(locked := false))
      ensures ok <==> !old(crashed) && world(old(now)).verdict.Done?
      ensures ok && secret == s.credential ==> !s.locked
    {
      if crashed { return false; }
      var v := world(now).verdict;
      now := now + 1;
      crashed := Dies(v);
      if secret == s.credential && Moves(v) {
        s := s.(locked := false);
      }
      ok := v.Done?;
    }

    /** `KeyringBackend::is_locked`; `None` is an error. */
    method IsLocked() returns (r: Option<bool>)
      modifies `now, `crashed
      ensures now == old(now) + (if old(crashed) then 0 else 1)
      ensures crashed == (old(crashed) || Dies(world(old(now)).verdict))
      ensures r.Some? <==> !old(crashed) && world(old(now)).verdict.Done?
      ensures r.Some? ==> !crashed && r.value == s.locked
    {
      var a := Ask();
      r := if a.Some? then Some(s.locked) else None;
    }

    /** Every durable write (`persist::save`, `save_blob`, `write_secret_file`, `write_durable_marker`,
        `EnrollStore::save`): replaced whole or not at all, but an error may follow the rename. */
    method Save(name: FileName, content: Content) returns (ok: bool)
      modifies `s, `now, `crashed, `late, `writes
      ensures writes == old(writes) + if !old(crashed) && Lands(world(old(now)).verdict) then 1 else 0
      ensures now == old(now) + (if old(crashed) then 0 else 1)
      ensures crashed == (old(crashed) || Dies(world(old(now)).verdict))
      ensures ok <==> !old(crashed) && world(old(now)).verdict.Done?
      ensures ok ==> !crashed && late == old(late) && s == old(s).(files := old(s).files.With(name, content))
      ensures !ok && crashed ==>
                late == old(late) && (s == old(s) || s == old(s).(files := old(s).files.With(name, content)))
      ensures !ok && !crashed ==>
                if world(old(now)).verdict.FailLate?
                then late == Some(name) && s == old(s).(files := old(s).files.With(name, content))
                else late == old(late) && s == old(s)
    {
      if crashed { return false; }
      var v := world(now).verdict;
      now := now + 1;
      crashed := Dies(v);
      if Lands(v) {
        s := s.(files := s.files.With(name, content));
        writes := writes + 1;
      }
      if v.FailLate? {
        late := Some(name);
      }
      ok := v.Done?;
    }

    /** `remove_file` and `EnrollStore::remove`: an absent file counts as removed. */
    method Remove(name: FileName) returns (ok: bool)
      modifies `s, `now, `crashed
      ensures now == old(now) + (if old(crashed) then 0 else 1)
      ensures crashed == (old(crashed) || Dies(world(old(now)).verdict))
      ensures ok <==> !old(crashed) && world(old(now)).verdict.Done?
      ensures old(crashed) ==> s == old(s)
      ensures ok ==> !crashed && s == old(s).(files := old(s).files.With(name, Absent))
      ensures !ok ==> s == old(s) || (crashed && s == old(s).(files := old(s).files.With(name, Absent)))
    {
      if crashed { return false; }
      var v := world(now).verdict;
      now := now + 1;
      crashed := Dies(v);
      if Moves(v) {
        s := s.(files := s.files.With(name, Absent));
      }
      ok := v.Done?;
    }

    /** `KeySealer::seal`. */
    method Seal(auth: Secret, key: Secret) returns (r: Option<SealedObject>)
      modifies `now, `crashed
      ensures now == old(now) + (if old(crashed) then 0 else 1)
      ensures crashed == (old(crashed) || Dies(world(old(now)).verdict))
      ensures r == if old(crashed) then None else SealAnswer(world(old(now)), key, auth, s.primaryName)
    {
      if crashed { return None; }
      var a := world(now);
      now := now + 1;
      crashed := Dies(a.verdict);
      r := SealAnswer(a, key, auth, s.primaryName);
    }

    /** `KeySealer::unseal`. */
    method Unseal(sealed: SealedObject, auth: Secret) returns (r: Option<Secret>)
      modifies `now, `crashed
      ensures now == old(now) + (if old(crashed) then 0 else 1)
      ensures crashed == (old(crashed) || Dies(world(old(now)).verdict))
      ensures r == if !old(crashed) && world(old(now)).verdict.Done? then UnsealValue(sealed, auth, s.primaryName) else None
    {
      var a := Ask();
      r := if a.Some? then UnsealValue(sealed, auth, s.primaryName) else None;
    }

    /** `recovery::wrap_key`, with its two draws of randomness. */
    method Wrap(key: Secret, recovery: Secret) returns (r: Option<RecoveryBlob>)
      modifies `now, `crashed
      ensures now == old(now) + (if old(crashed) then 0 else 1)
      ensures crashed == (old(crashed) || Dies(world(old(now)).verdict))
      ensures r == if old(crashed) then None else WrapAnswer(world(old(now)), key, recovery)
    {
      if crashed { return None; }
      var a := world(now);
      now := now + 1;
      crashed := Dies(a.verdict);
      r := WrapAnswer(a, key, recovery);
    }

    /** `KeySealer::lockout_auth_is_set`. */
    method LockoutAuthIsSet() returns (r: Option<bool>)
      modifies `now, `crashed
      ensures now == old(now) + (if old(crashed) then 0 else 1)
      ensures crashed == (old(crashed) || Dies(world(old(now)).verdict))
      ensures r.Some? <==> !old(crashed) && world(old(now)).verdict.Done?
      ensures r.Some? ==> !crashed && (r.value <==> Len(s.lockoutAuth) != 0)
    {
      var a := Ask();
      r := if a.Some? then Some(Len(s.lockoutAuth) != 0) else None;
    }

    /** `KeySealer::set_lockout_auth`: the TPM refuses a wrong current authValue. */
    method SetLockoutAuth(current: Secret, wanted: Secret) returns (ok: bool)
      requires Len(current) <= LOCKOUT_AUTH_LEN && Len(wanted) <= LOCKOUT_AUTH_LEN
      modifies `s, `now, `crashed, `authCalls, `refused, `lateAuth
      ensures refused == old(refused) + if !old(crashed) && old(s).lockoutAuth != current then 1 else 0
      ensures now == old(now) + (if old(crashed) then 0 else 1)
      ensures crashed == (old(crashed) || Dies(world(old(now)).verdict))
      ensures old(crashed) ==> s == old(s)
      ensures ok <==> !old(crashed) && world(old(now)).verdict.Done? && old(s).lockoutAuth == current
      ensures s == if !old(crashed) && old(s).lockoutAuth == current && Lands(world(old(now)).verdict)
                   then old(s).(lockoutAuth := wanted) else old(s)
      ensures lateAuth == (old(lateAuth) || (!old(crashed) && old(s).lockoutAuth == current && world(old(now)).verdict.FailLate?))
    {
      if crashed { return false; }
      var v := world(now).verdict;
      now := now + 1;
      authCalls := authCalls + 1;
      refused := refused + if current == s.lockoutAuth then 0 else 1;
      crashed := Dies(v);
      if current == s.lockoutAuth && Lands(v) {
        s := s.(lockoutAuth := wanted);
        lateAuth := lateAuth || v.FailLate?;
        return v.Done?;
      }
      ok := false;
    }

    /** A new process starts: the machine runs again. */
    method Boot()
      modifies `crashed
      ensures !crashed
    {
      crashed := false;
    }

    ghost predicate Safe()
      reads `s, `secrets, `pins, `passwords
    {
      NobodyLockedOut(s, passwords, pins, secrets)
    }

    ghost predicate Recoverable()
      reads `s, `secrets, `passwords
    {
      RecoverableState(s, passwords, secrets)
    }

    /** The user holds what leads back in without the TPM. */
    ghost predicate Held()
      reads `s, `shown, `passwords
    {
      RecoverableState(s, passwords, shown)
    }

    ghost predicate Owned()
      reads `s, `boundBy
    {
      MarkerTrue(s, boundBy)
    }
  }

  // ---- What is worth keeping -------------------------------------------------------------------

  /** The recovery blob gives the keyring credential to the holder of one of these recovery secrets. */
  ghost predicate RecoveryOpens(s: State, secrets: set<Secret>) {
    var blob := LoadBlob(s.files.recovery);
    blob.Some? && blob.value.under in secrets && UnwrapKey(blob.value, blob.value.under) == Some(s.credential)
  }

  /** The metadata file unseals, under a PIN the user supplied, to the keyring credential. */
  ghost predicate MetadataOpens(s: State, pins: set<Secret>) {
    var sealed := LoadSealed(s.files.metadata);
    sealed.Some? && sealed.value.auth in pins &&
    UnsealValue(sealed.value, sealed.value.auth, s.primaryName) == Some(s.credential)
  }

  /** Nobody is locked out: the credential is a password the user supplied, or both the TPM path and
      the recovery path, under one of these recovery secrets, lead to it. */
  ghost predicate NobodyLockedOut(s: State, passwords: set<Secret>, pins: set<Secret>, secrets: set<Secret>) {
    s.credential in passwords || (MetadataOpens(s, pins) && RecoveryOpens(s, secrets))
  }

  /** No TPM is needed: the credential is a password the user supplied, or the recovery blob leads to it under one of
      these recovery secrets. Whoever holds that secret is back in even after the TPM was cleared; a secret that was
      generated but never shown is held by nobody. */
  ghost predicate RecoverableState(s: State, passwords: set<Secret>, secrets: set<Secret>) {
    s.credential in passwords || RecoveryOpens(s, secrets)
  }

  /** The ownership marker never claims a foreign lockout hierarchy. */
  ghost predicate MarkerTrue(s: State, boundBy: Secret) {
    s.files.lockoutOwned != Absent ==> s.lockoutAuth == EMPTY || s.lockoutAuth == LockoutAuthOf(boundBy)
  }
}
