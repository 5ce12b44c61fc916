/** What a user does with an enrollment: unlock, recover, re-seal, unenroll, in any order, with any
    fault and with the process dying anywhere. */
module Lifecycle {
  import opened Wrappers
  import opened Secrets
  import opened Hosts
  import opened Enroll

  /** Unseal the keyring key that the metadata file holds. */
  method UnsealWithPin(m: Host, pin: Secret) returns (key: Option<Secret>)
    requires !m.crashed
    modifies m`now, m`crashed
    ensures key.Some? ==> !m.crashed && SealedGood(m.s.files.metadata, key.value, pin, m.s.primaryName)
    ensures forall k :: old(m.Calm(m.now)) && SealedGood(m.s.files.metadata, k, pin, m.s.primaryName) ==> key == Some(k)
    ensures m.now >= old(m.now)
  {
    var sealed := LoadSealed(m.s.files.metadata);
    if sealed.None? { return None; }
    key := m.Unseal(sealed.value, pin);
  }

  /** Unlock the keyring and confirm that it opened. */
  method UnlockAndVerify(m: Host, secret: Secret) returns (ok: bool)
    modifies m`s, m`now, m`crashed
    ensures old(m.crashed) ==> m.crashed
    ensures m.s == old(m.s) || (secret == old(m.s).credential && m.s == old(m.s).(locked := false))
    ensures ok ==> !m.crashed && !m.s.locked
    ensures old(m.Calm(m.now)) && !old(m.crashed) && secret == old(m.s).credential ==> ok
    ensures m.now >= old(m.now)
  {
    ok := m.Unlock(secret);
    if !ok { return; }
    var locked := m.IsLocked();
    ok := locked == Some(false);
  }

  /** `tess unlock`. A keyring that was locked and is reported open was opened by its own credential. */
  method UnlockWithPin(m: Host, pin: Secret) returns (ok: bool)
    requires !m.crashed
    modifies m`s, m`now, m`crashed
    ensures m.s == old(m.s).(locked := m.s.locked)
    ensures ok ==> !m.crashed && !m.s.locked
    ensures m.s.locked != old(m.s).locked ==> SealedGood(m.s.files.metadata, m.s.credential, pin, m.s.primaryName)
    ensures old(m.Calm(m.now)) && SealedGood(m.s.files.metadata, m.s.credential, pin, m.s.primaryName) ==> ok
    ensures m.now >= old(m.now)
  {
    var key := UnsealWithPin(m, pin);
    if key.None? { return false; }
    ok := UnlockAndVerify(m, key.value);
  }

  /** `tess unlock --face`, once the face has matched. */
  method UnlockWithFace(m: Host) returns (ok: bool)
    requires !m.crashed
    modifies m`s, m`now, m`crashed
    ensures m.s == old(m.s).(locked := m.s.locked)
    ensures ok ==> !m.crashed && !m.s.locked
    ensures m.s.locked != old(m.s).locked ==> FaceGood(m.s, m.s.credential)
    ensures old(m.Calm(m.now)) && FaceGood(m.s, m.s.credential) ==> ok
    ensures m.now >= old(m.now)
  {
    var aFace := LoadFaceKey(m.s.files.faceKey);
    if aFace.None? { return false; }
    var sealed := LoadSealed(m.s.files.metadataFace);
    if sealed.None? { return false; }
    var key := m.Unseal(sealed.value, aFace.value);
    if key.None? { return false; }
    ok := UnlockAndVerify(m, key.value);
  }

  /** The key in the recovery blob; needs no TPM. */
  function RecoveredKey(files: Files, recovery: Secret): Option<Secret> {
    var blob := LoadBlob(files.recovery);
    if blob.None? then None else UnwrapKey(blob.value, recovery)
  }

  /** `tess recover`. */
  method Recover(m: Host, recovery: Secret) returns (ok: bool)
    requires !m.crashed
    modifies m`s, m`now, m`crashed
    ensures m.s == old(m.s).(locked := m.s.locked)
    ensures ok ==> !m.crashed && !m.s.locked
    ensures m.s.locked != old(m.s).locked ==> RecoveryGood(m.s.files, m.s.credential, recovery)
    ensures old(m.Calm(m.now)) && RecoveryGood(m.s.files, m.s.credential, recovery) ==> ok
    ensures m.now >= old(m.now)
  {
    var key := RecoveredKey(m.s.files, recovery);
    if key.None? { return false; }
    ok := UnlockAndVerify(m, key.value);
  }

  /** `reseal`: seal the recovered key again, under a new PIN and for the TPM as it is now. It keeps
      everybody in, and after a cleared TPM it restores the TPM path. */
  method Reseal(m: Host, recovery: Secret, newPin: Secret) returns (ok: bool)
    requires !m.crashed
    modifies m`s, m`now, m`crashed, m`late, m`writes, m`pins
    ensures m.pins == old(m.pins) + {newPin}
    ensures m.s == old(m.s).(files := old(m.s).files.(metadata := m.s.files.metadata))
    ensures old(m.Safe()) ==> m.Safe()
    ensures old(m.Recoverable()) ==> m.Recoverable()
    ensures old(m.Held()) ==> m.Held()
    ensures ok && old(m.Recoverable()) ==> m.Safe()
    ensures ok ==> !m.crashed && exists key :: BlobsGood(m.s, key, newPin, recovery)
    ensures (old(m.Calm(m.now)) && 0 < Len(newPin) <= MAX_PIN_LEN && old(m.s).primaryName != ""
             && RecoveredKey(old(m.s).files, recovery).Some?) ==> ok
    ensures m.now >= old(m.now)
  {
    m.pins := m.pins + {newPin};
    if Len(newPin) == 0 { return false; }
    var key := RecoveredKey(m.s.files, recovery);
    if key.None? { return false; }
    m.late := None;
    ok := CommitSealed(m, newPin, key.value);
    assert ok ==> BlobsGood(m.s, key.value, newPin, recovery);
  }

  /** A release with this recovery secret, if it comes to it, is tried with an authValue that the TPM refuses: the marker
      stands, but the lockout authValue is not the one derived from the secret. */
  ghost predicate WrongRelease(s: State, recovery: Option<Secret>) {
    recovery.Some? && s.files.lockoutOwned != Absent && s.lockoutAuth != LockoutAuthOf(recovery.value)
  }

  /** Reset the lockout authValue to empty, if the marker says tess bound it. */
  method ReleaseLockoutAuth(m: Host, recovery: Secret) returns (ok: bool)
    modifies m`s, m`now, m`crashed, m`authCalls, m`refused, m`lateAuth
    ensures old(m.crashed) ==> m.crashed
    ensures LockoutReleased(old(m.s), m.s, recovery)
    ensures old(m.s).files.lockoutOwned == Absent ==> m.authCalls == old(m.authCalls) && m.s == old(m.s)
    ensures m.refused == old(m.refused) + if !old(m.crashed) && WrongRelease(old(m.s), Some(recovery)) then 1 else 0
    ensures old(m.Calm(m.now)) && !old(m.crashed) ==>
              !m.crashed && (old(m.s).lockoutAuth == LockoutAuthOf(recovery) && old(m.s).files.lockoutOwned != Absent ==>
                m.s.lockoutAuth == EMPTY && m.s.files.lockoutOwned == Absent)
    ensures m.now >= old(m.now)
  {
    if m.s.files.lockoutOwned == Absent { return true; }
    ok := m.SetLockoutAuth(LockoutAuthOf(recovery), EMPTY);
    if !ok { return; }
    ok := m.Remove(LockoutOwned);
  }

  /** Only what tess bound is released, and the marker goes only with it. */
  ghost predicate LockoutReleased(before: State, s: State, recovery: Secret) {
    && s == before.(lockoutAuth := s.lockoutAuth, files := before.files.(lockoutOwned := s.files.lockoutOwned))
    && (s.lockoutAuth == before.lockoutAuth
        || (before.files.lockoutOwned != Absent && before.lockoutAuth == LockoutAuthOf(recovery) && s.lockoutAuth == EMPTY))
    && (s.files.lockoutOwned == before.files.lockoutOwned
        || (s.files.lockoutOwned == Absent && s.lockoutAuth == EMPTY && before.lockoutAuth == LockoutAuthOf(recovery)))
  }

  /** Remove the blobs, stopping at the first failure. */
  method RemoveBlobs(m: Host, face: bool) returns (ok: bool)
    modifies m`s, m`now, m`crashed
    ensures old(m.crashed) ==> m.crashed
    ensures m.s == old(m.s).(files := m.s.files) && m.s.files.lockoutOwned == old(m.s).files.lockoutOwned
    ensures !face ==> m.s.files.template == old(m.s).files.template
    ensures ok ==> NoBlobs(m.s.files) && (face ==> m.s.files.template == Absent)
    ensures old(m.Calm(m.now)) && !old(m.crashed) ==> ok && !m.crashed
    ensures m.now >= old(m.now)
  {
    ok := m.Remove(Metadata);
    if !ok { return; }
    ok := m.Remove(Recovery);
    if !ok { return; }
    ok := m.Remove(MetadataFace);
    if !ok { return; }
    ok := m.Remove(FaceKey);
    if !ok { return; }
    if face {
      ok := m.Remove(Template);
    }
  }

  /** `BackOnKey`: the rekey was undone. `NotUndone`: it could not be, and the keyring has the password. */
  datatype Exit = NotStarted | BackOnKey | NotUndone | Unenrolled(clean: bool)

  /** The credential half of `unenroll`: prove the PIN, rekey, verify, and undo a failed verification. */
  method RekeyToPassword(m: Host, pin: Secret, password: Secret) returns (r: Exit)
    requires !m.crashed
    modifies m`s, m`now, m`crashed
    ensures m.s == old(m.s).(credential := m.s.credential, locked := m.s.locked)
    ensures m.s.credential == old(m.s).credential
            || (m.s.credential == password
                && SealedGood(old(m.s).files.metadata, old(m.s).credential, pin, m.s.primaryName))
    ensures !m.crashed && (r.NotStarted? || r.BackOnKey?) ==> m.s.credential == old(m.s).credential
    ensures !m.crashed && r.NotUndone? ==> m.s.credential == password
    ensures r.Unenrolled? ==> !m.crashed && m.s.credential == password && !m.s.locked
    ensures old(m.Calm(m.now)) && SealedGood(m.s.files.metadata, old(m.s).credential, pin, m.s.primaryName) ==>
              r.Unenrolled?
    ensures m.now >= old(m.now)
  {
    var key := UnsealWithPin(m, pin);
    if key.None? { return NotStarted; }
    var opens := UnlockAndVerify(m, key.value);
    if !opens { return NotStarted; }
    var rekeyed := m.Rekey(key.value, password);
    if !rekeyed { return NotStarted; }
    var verified := UnlockAndVerify(m, password);
    if !verified {
      var back := m.Rekey(password, key.value);
      return if back then BackOnKey else NotUndone;
    }
    r := Unenrolled(true);
  }

  /** What unenrolling may do: unless the keyring is on the password, nothing has changed. */
  ghost predicate UnenrollReached(before: State, s: State, password: Secret, recovery: Option<Secret>, face: bool) {
    && s.primaryName == before.primaryName
    && (s.credential == password || s == before.(locked := s.locked))
    && (s.lockoutAuth == before.lockoutAuth
        || (recovery.Some? && before.files.lockoutOwned != Absent
            && before.lockoutAuth == LockoutAuthOf(recovery.value) && s.lockoutAuth == EMPTY))
    && (s.files.lockoutOwned == before.files.lockoutOwned
        || (s.files.lockoutOwned == Absent && s.lockoutAuth == EMPTY && recovery.Some?
            && before.lockoutAuth == LockoutAuthOf(recovery.value)))
    && (!face ==> s.files.template == before.files.template)
  }

  /** `tess unenroll`. The keyring has either its old credential, with every blob that leads to it, or
      the password the user chose. */
  method Unenroll(m: Host, pin: Secret, password: Secret, recovery: Option<Secret>, face: bool) returns (r: Exit)
    requires !m.crashed
    modifies m`s, m`now, m`crashed, m`authCalls, m`refused, m`lateAuth, m`passwords
    ensures m.passwords == old(m.passwords) + {password}
    ensures UnenrollReached(old(m.s), m.s, password, recovery, face)
    ensures old(m.Safe()) ==> m.Safe()
    ensures old(m.Recoverable()) ==> m.Recoverable()
    ensures old(m.Owned()) ==> m.Owned()
    ensures old(m.Held()) ==> m.Held()
    ensures old(m.s).files.lockoutOwned == Absent ==> m.authCalls == old(m.authCalls)
    ensures m.refused == old(m.refused) + if r.Unenrolled? && WrongRelease(old(m.s), recovery) then 1 else 0
    ensures Len(password) == 0 ==> m.s == old(m.s)
    ensures !m.crashed && (r.NotStarted? || r.BackOnKey?) ==> m.s == old(m.s).(locked := m.s.locked)
    ensures r.Unenrolled? ==> m.s.credential == password
    ensures r == Unenrolled(true) ==> NoBlobs(m.s.files) && !m.s.locked && (face ==> m.s.files.template == Absent)
    ensures (old(m.Calm(m.now)) && Len(password) > 0
             && SealedGood(old(m.s).files.metadata, old(m.s).credential, pin, m.s.primaryName)) ==>
              r == Unenrolled(true)
              && (recovery.Some? && old(m.s).files.lockoutOwned != Absent
                  && old(m.s).lockoutAuth == LockoutAuthOf(recovery.value) ==>
                    m.s.lockoutAuth == EMPTY && m.s.files.lockoutOwned == Absent)
    ensures m.now >= old(m.now)
  {
    m.passwords := m.passwords + {password};
    if Len(password) == 0 { return NotStarted; }
    r := RekeyToPassword(m, pin, password);
    if !r.Unenrolled? { return; }
    if recovery.Some? {
      var _ := ReleaseLockoutAuth(m, recovery.value);
    }
    var clean := RemoveBlobs(m, face);
    r := Unenrolled(clean);
  }
}
