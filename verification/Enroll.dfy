/** The enrollment transaction: an ordered list of destructive steps, the journal that records which of
    them happened, and the rollback that undoes exactly those. */
module Enroll {
  import opened Faults
  import opened Wrappers
  import opened Secrets
  import opened Hosts
  import opened Plans
  import opened Endings

  datatype Rollback = Restored | CleanupFailed | RestoreFailed

  /** How `enroll` ends. A recovery secret is shown to the user on `Enrolled` and on `Stranded` only. */
  datatype Outcome =
    | Refused
    | Enrolled(recovery: Secret)
    | RolledBack
    | RolledBackWithLeftovers
    | Stranded(recovery: Secret)

  ghost predicate RecoveryGood(files: Files, key: Secret, recovery: Secret) {
    var blob := LoadBlob(files.recovery);
    blob.Some? && blob.value.under == recovery && UnwrapKey(blob.value, recovery) == Some(key)
  }

  ghost predicate SealedGood(file: Content, key: Secret, auth: Secret, primaryName: string) {
    var sealed := LoadSealed(file);
    sealed.Some? && sealed.value.auth == auth && UnsealValue(sealed.value, auth, primaryName) == Some(key)
  }

  /** Both ways into the keyring lead to `key`: the metadata under `pin`, the blob under `recovery`. */
  ghost predicate BlobsGood(s: State, key: Secret, pin: Secret, recovery: Secret) {
    RecoveryGood(s.files, key, recovery) && SealedGood(s.files.metadata, key, pin, s.primaryName)
  }

  /** The face credential: the authValue on disk unseals the face object to `key`. */
  ghost predicate FaceGood(s: State, key: Secret) {
    var auth := LoadFaceKey(s.files.faceKey);
    auth.Some? && SealedGood(s.files.metadataFace, key, auth.value, s.primaryName)
  }

  /** Every answer that carries a secret carries 32 bytes, as both generators guarantee. */
  ghost predicate FullLengthDraws(world: nat -> Answer) {
    forall i: nat :: Len(world(i).secret) == WRAPPED_KEY_LEN
  }

  /** A file a rollback treats: untouched, or removed because the journal lists it. */
  ghost predicate KeptOrRemoved(before: Content, after: Content, listed: bool) {
    after == before || (listed && after == Absent)
  }

  /** The journal: which destructive steps were performed, so that a failure undoes exactly those. */
  datatype Tx = Tx(
    recoveryWritten: bool,
    metadataWritten: bool,
    faceMetadataWritten: bool,
    faceKeyWritten: bool,
    faceStoreEnrolled: bool,
    lockoutAuth: Option<Secret>,
    newKey: Option<Secret>)
  {
    /** `before` with every file gone that the journal says was written. */
    ghost function Undone(before: Files): Files {
      Files(if metadataWritten then Absent else before.metadata,
            if recoveryWritten then Absent else before.recovery,
            if lockoutAuth.Some? then Absent else before.lockoutOwned,
            if faceMetadataWritten then Absent else before.metadataFace,
            if faceKeyWritten then Absent else before.faceKey,
            if faceStoreEnrolled then Absent else before.template)
    }

    /** Every file the journal says was written is gone; the marker is not counted. */
    ghost predicate AllListedGone(after: Files) {
      && (metadataWritten ==> after.metadata == Absent)
      && (recoveryWritten ==> after.recovery == Absent)
      && (faceMetadataWritten ==> after.metadataFace == Absent)
      && (faceKeyWritten ==> after.faceKey == Absent)
      && (faceStoreEnrolled ==> after.template == Absent)
    }

    /** No file went that the journal does not list. */
    ghost predicate OnlyListedGone(before: Files, after: Files) {
      && KeptOrRemoved(before.metadata, after.metadata, metadataWritten)
      && KeptOrRemoved(before.recovery, after.recovery, recoveryWritten)
      && KeptOrRemoved(before.lockoutOwned, after.lockoutOwned, lockoutAuth.Some?)
      && KeptOrRemoved(before.metadataFace, after.metadataFace, faceMetadataWritten)
      && KeptOrRemoved(before.faceKey, after.faceKey, faceKeyWritten)
      && KeptOrRemoved(before.template, after.template, faceStoreEnrolled)
    }

    /** One best-effort removal, when the journal asks for it. */
    method RemoveIf(m: Host, written: bool, name: FileName) returns (ok: bool)
      modifies m`s, m`now, m`crashed
      ensures old(m.crashed) ==> m.crashed && m.s == old(m.s)
      ensures m.s == old(m.s) || (written && m.s == old(m.s).(files := old(m.s).files.With(name, Absent)))
      ensures ok && written ==> m.s == old(m.s).(files := old(m.s).files.With(name, Absent))
      ensures old(m.Calm(m.now)) && !old(m.crashed) ==> ok && !m.crashed
      ensures m.now >= old(m.now)
    {
      ok := true;
      if written {
        ok := m.Remove(name);
      }
    }

    /** Remove the face artifacts written, best effort, in reverse order. */
    method RemoveFaceWritten(m: Host) returns (clean: bool)
      modifies m`s, m`now, m`crashed
      ensures old(m.crashed) ==> m.crashed && m.s == old(m.s)
      ensures m.s == old(m.s).(files := old(m.s).files.(metadataFace := m.s.files.metadataFace,
                                                       faceKey := m.s.files.faceKey, template := m.s.files.template))
      ensures KeptOrRemoved(old(m.s).files.metadataFace, m.s.files.metadataFace, faceMetadataWritten)
      ensures KeptOrRemoved(old(m.s).files.faceKey, m.s.files.faceKey, faceKeyWritten)
      ensures KeptOrRemoved(old(m.s).files.template, m.s.files.template, faceStoreEnrolled)
      ensures clean && faceMetadataWritten ==> m.s.files.metadataFace == Absent
      ensures clean && faceKeyWritten ==> m.s.files.faceKey == Absent
      ensures clean && faceStoreEnrolled ==> m.s.files.template == Absent
      ensures old(m.Calm(m.now)) && !old(m.crashed) ==> clean && !m.crashed
      ensures m.now >= old(m.now)
    {
      clean := RemoveIf(m, faceStoreEnrolled, Template);
      var faceKey := RemoveIf(m, faceKeyWritten, FaceKey);
      var faceMetadata := RemoveIf(m, faceMetadataWritten, MetadataFace);
      clean := clean && faceKey && faceMetadata;
    }

    /** Remove every file written, best effort, in reverse order. */
    method RemoveWritten(m: Host) returns (clean: bool)
      modifies m`s, m`now, m`crashed
      ensures old(m.crashed) ==> m.crashed && m.s == old(m.s)
      ensures m.now >= old(m.now)
      ensures Removed(this, old(m.s), m.s, clean)
      ensures old(m.Calm(m.now)) && !old(m.crashed) ==> clean && !m.crashed
    {
      clean := RemoveFaceWritten(m);
      var metadata := RemoveIf(m, metadataWritten, Metadata);
      var recovery := RemoveIf(m, recoveryWritten, Recovery);
      clean := clean && metadata && recovery;
    }

    /** Return the lockout authValue to empty and drop the marker. Failures are only warned about. */
    method ReleaseLockout(m: Host)
      requires lockoutAuth.Some? ==> Len(lockoutAuth.value) <= LOCKOUT_AUTH_LEN
      modifies m`s, m`now, m`crashed, m`authCalls, m`refused, m`lateAuth
      ensures old(m.crashed) ==> m.crashed && m.s == old(m.s)
      ensures Released(lockoutAuth, old(m.s), m.s)
      ensures m.s.credential == old(m.s).credential
      ensures lockoutAuth.None? ==> m.authCalls == old(m.authCalls)
      ensures old(m.crashed) || lockoutAuth.None? || lockoutAuth.value == old(m.s).lockoutAuth ==> m.refused == old(m.refused)
      ensures m.now >= old(m.now)
      ensures !old(m.crashed) && lockoutAuth == Some(old(m.s).lockoutAuth) ==>
                m.s.lockoutAuth == if Lands(m.world(old(m.now)).verdict) then EMPTY else old(m.s).lockoutAuth
      ensures old(m.Calm(m.now)) && !old(m.crashed) ==>
                !m.crashed && (lockoutAuth == Some(old(m.s).lockoutAuth) ==> m.s.files.lockoutOwned == Absent)
    {
      if lockoutAuth.Some? {
        var released := m.SetLockoutAuth(lockoutAuth.value, EMPTY);
        if released {
          var _ := m.Remove(LockoutOwned);
        }
      }
    }

    /** Rekey the keyring back to `oldPassword`, if it was rekeyed at all. */
    method RestoreCredential(m: Host, oldPassword: Secret) returns (ok: bool)
      modifies m`s, m`now, m`crashed
      ensures old(m.crashed) ==> m.crashed && m.s == old(m.s)
      ensures m.s.lockoutAuth == old(m.s).lockoutAuth && (ok ==> RekeyedBack(newKey, oldPassword, old(m.s), m.s))
      ensures !ok ==> Unwound(this, old(m.s), m.s, oldPassword, RestoreFailed, m.crashed)
      ensures old(m.Calm(m.now)) && !old(m.crashed) && (newKey.Some? ==> newKey.value == old(m.s).credential) ==>
                ok && !m.crashed
      ensures m.now == old(m.now) + (if newKey.Some? && !old(m.crashed) then 1 else 0)
      ensures !old(m.crashed) && (newKey.Some? ==> newKey.value == old(m.s).credential) ==>
                && (ok <==> newKey.None? || m.world(old(m.now)).verdict.Done?)
                && (m.crashed <==> newKey.Some? && Dies(m.world(old(m.now)).verdict))
                && m.s.credential == if newKey.Some? && Moves(m.world(old(m.now)).verdict) then oldPassword else old(m.s).credential
    {
      ok := true;
      if newKey.Some? {
        ok := m.Rekey(newKey.value, oldPassword);
      }
    }

    /** Undo, credential first; files go only once the keyring is back on `oldPassword`. */
    method RollBack(m: Host, oldPassword: Secret) returns (r: Rollback)
      requires lockoutAuth.Some? ==> Len(lockoutAuth.value) <= LOCKOUT_AUTH_LEN
      modifies m`s, m`now, m`crashed, m`authCalls, m`refused, m`lateAuth
      ensures old(m.crashed) ==> m.crashed && m.s == old(m.s)
      ensures m.now >= old(m.now) && m.s.primaryName == old(m.s).primaryName
      ensures Unwound(this, old(m.s), m.s, oldPassword, r, m.crashed)
      ensures lockoutAuth.None? ==> m.authCalls == old(m.authCalls) && m.s.lockoutAuth == old(m.s).lockoutAuth
      ensures old(m.crashed) || lockoutAuth.None? || lockoutAuth.value == old(m.s).lockoutAuth ==> m.refused == old(m.refused)
      ensures !old(m.crashed) && (newKey.Some? ==> newKey.value == old(m.s).credential)
              && lockoutAuth == Some(old(m.s).lockoutAuth) ==>
                m.s.lockoutAuth == if ReleasedAt(m.world, old(m.now), newKey.Some?) then EMPTY else old(m.s).lockoutAuth
      ensures !old(m.crashed) && (newKey.Some? ==> newKey.value == old(m.s).credential) ==>
                (r.RestoreFailed? && !m.crashed <==> newKey.Some? && Fails(m.world(old(m.now)).verdict))
                && m.s.credential == if newKey.Some? && Moves(m.world(old(m.now)).verdict) then oldPassword else old(m.s).credential
      ensures (old(m.Calm(m.now)) && !old(m.crashed)
               && (newKey.Some? ==> newKey.value == old(m.s).credential)
               && (lockoutAuth.Some? ==> lockoutAuth.value == old(m.s).lockoutAuth)) ==>
                r.Restored? && !m.crashed && m.s == FullyUnwound(this, old(m.s), oldPassword)
    {
      hide Unwound, RekeyedBack, Released, Removed, FullyUnwound;
      ghost var s0 := m.s;
      var back := RestoreCredential(m, oldPassword);
      if !back { return RestoreFailed; }
      ghost var s1 := m.s;
      ReleaseLockout(m);
      ghost var s2 := m.s;
      var clean := RemoveWritten(m);
      r := if clean then Restored else CleanupFailed;
      StepsUnwind(this, oldPassword, s0, s1, s2, m.s, clean, m.crashed);
      if clean && (lockoutAuth.Some? ==> s2.files.lockoutOwned == Absent && s2.lockoutAuth == EMPTY) {
        CleanStepsUnwindFully(this, oldPassword, s0, s1, s2, m.s);
      }
    }
  }

  const BLANK := Tx(false, false, false, false, false, None, None)

  /** From `mid` a rollback leads to `after`: credential first, and files only once it is back on `oldPassword`. */
  ghost predicate Unwound(j: Tx, mid: State, after: State, oldPassword: Secret, r: Rollback, crashed: bool) {
    && after.locked == mid.locked && after.primaryName == mid.primaryName
    // the credential
    && (j.newKey.None? ==> after.credential == mid.credential && !r.RestoreFailed?)
    && (j.newKey.Some? && after.credential != oldPassword ==> after == mid)
    && (j.newKey.Some? && !r.RestoreFailed? ==> after.credential == oldPassword)
    && (after.credential != mid.credential ==> j.newKey == Some(mid.credential) && after.credential == oldPassword)
    && (r.RestoreFailed? && !crashed ==> after == mid)
    // the files
    && j.OnlyListedGone(mid.files, after.files)
    && (r.Restored? ==> j.AllListedGone(after.files))
    // the lockout hierarchy
    && (after.lockoutAuth == mid.lockoutAuth
        || (j.lockoutAuth == Some(mid.lockoutAuth) && after.lockoutAuth == EMPTY))
    && (after.files.lockoutOwned == mid.files.lockoutOwned || after.lockoutAuth == EMPTY)
  }

  /** What a rollback that meets no fault makes of `mid`. */
  ghost function FullyUnwound(j: Tx, mid: State, oldPassword: Secret): State {
    mid.(credential := if j.newKey.Some? then oldPassword else mid.credential,
         lockoutAuth := if j.lockoutAuth.Some? then EMPTY else mid.lockoutAuth,
         files := j.Undone(mid.files))
  }

  /** The steps of a rollback: rekey back, release the lockout hierarchy, remove files. */
  ghost predicate RekeyedBack(newKey: Option<Secret>, oldPassword: Secret, a: State, b: State) {
    if newKey.Some? then a.credential == newKey.value && b == a.(credential := oldPassword) else b == a
  }

  ghost predicate Released(lockoutAuth: Option<Secret>, a: State, b: State) {
    && b == a.(files := b.files, lockoutAuth := b.lockoutAuth)
    && (b.files == a.files || (b.files == a.files.(lockoutOwned := Absent) && b.lockoutAuth == EMPTY
                               && lockoutAuth.Some?))
    && (b.lockoutAuth == a.lockoutAuth || (lockoutAuth == Some(a.lockoutAuth) && b.lockoutAuth == EMPTY))
  }

  ghost predicate Removed(j: Tx, a: State, b: State, clean: bool) {
    && b == a.(files := b.files)
    && b.files.lockoutOwned == a.files.lockoutOwned
    && j.OnlyListedGone(a.files, b.files)
    && (clean ==> j.AllListedGone(b.files))
  }

  lemma StepsUnwind(j: Tx, oldPassword: Secret, s0: State, s1: State, s2: State, s3: State, clean: bool, crashed: bool)
    requires RekeyedBack(j.newKey, oldPassword, s0, s1) && Released(j.lockoutAuth, s1, s2) && Removed(j, s2, s3, clean)
    ensures Unwound(j, s0, s3, oldPassword, if clean then Restored else CleanupFailed, crashed)
  {
  }

  lemma CleanStepsUnwindFully(j: Tx, oldPassword: Secret, s0: State, s1: State, s2: State, s3: State)
    requires RekeyedBack(j.newKey, oldPassword, s0, s1) && Released(j.lockoutAuth, s1, s2) && Removed(j, s2, s3, true)
    requires j.lockoutAuth.Some? ==> s2.files.lockoutOwned == Absent && s2.lockoutAuth == EMPTY
    ensures s3 == FullyUnwound(j, s0, oldPassword)
  {
    assert s3.files == j.Undone(s0.files);
  }

  /** Seal the key and prove that it unseals: steps `k` and `k + 1` of a plan run from call `from` on. */
  method SealChecked(m: Host, auth: Secret, key: Secret, ghost from: nat, ghost steps: seq<Step>, ghost k: nat)
    returns (r: Option<SealedObject>)
    requires !m.crashed && m.now == from + k && k + 1 < |steps| && Through(m.world, from, steps, k)
    requires steps[k] == SealKey(key, auth, m.s.primaryName) && steps[k + 1] == CheckSeal(key, auth, m.s.primaryName)
    modifies m`now, m`crashed
    ensures r.Some? ==> !m.crashed && UnsealValue(r.value, auth, m.s.primaryName) == Some(key)
    ensures if r.Some? then m.now == from + k + 2 && Through(m.world, from, steps, k + 2)
            else Halted(m.world, from, m.now, steps, m.crashed) && from + k < m.now <= from + k + 2
    ensures old(m.Calm(m.now)) && 0 < Len(auth) <= MAX_PIN_LEN && m.s.primaryName != "" ==> r.Some?
  {
    hide Ran, Completed, LateFile, LateBind, StepOk, Traced, Through;
    r := m.Seal(auth, key);
    Next(m.world, from, steps, k, SealKey(key, auth, m.s.primaryName), r.Some?);
    if r.None? { return; }
    var check := m.Unseal(r.value, auth);
    Next(m.world, from, steps, k + 1, CheckSeal(key, auth, m.s.primaryName), check == Some(key));
    if check != Some(key) { r := None; }
  }

  /** The first half of the face steps: capture the template, draw the face authValue and seal the key
      under it, proving that it unseals. Nothing reaches the disk yet. */
  method PrepareFace(m: Host, key: Secret) returns (r: Option<(SealedObject, Secret, seq<real>)>)
    requires !m.crashed
    modifies m`now, m`crashed
    ensures r.Some? ==> !m.crashed && UnsealValue(r.value.0, r.value.1, m.s.primaryName) == Some(key)
    ensures r.Some? ==> r.value.1 == m.world(old(m.now) + 1).secret && r.value.2 == m.world(old(m.now)).template
    ensures old(m.Calm(m.now)) && FullLengthDraws(m.world) && m.s.primaryName != "" ==> r.Some?
    ensures var steps := FaceSteps(key, m.world(old(m.now) + 1).secret, m.s.primaryName);
            if r.Some? then m.now == old(m.now) + 4 && Through(m.world, old(m.now), steps, 4)
            else old(m.now) < m.now <= old(m.now) + 4 && Halted(m.world, old(m.now), m.now, steps, m.crashed)
  {
    hide Ran, Completed, LateFile, LateBind, StepOk, Traced, Through;
    ghost var w, from, steps := m.world, m.now, FaceSteps(key, m.world(m.now + 1).secret, m.s.primaryName);
    Start(w, from, steps);
    var template := m.Ask();
    Next(w, from, steps, 0, Plain, template.Some?);
    if template.None? { return None; }
    var drawn := m.Ask();
    Next(w, from, steps, 1, Plain, drawn.Some?);
    if drawn.None? { return None; }
    var aFace := drawn.value.secret;
    var sealed := SealChecked(m, aFace, key, from, steps, 2);
    if sealed.None? { return None; }
    r := Some((sealed.value, aFace, template.value.template));
  }

  /** A file as the journal has it: unchanged, or written and listed, or left by a save that failed late. */
  ghost predicate Accounted(before: Content, after: Content, listed: bool, late: bool) {
    if listed || late then after != Absent && !(listed && late) else after == before
  }

  ghost predicate FaceAccounted(metadataWritten: bool, keyWritten: bool, enrolled: bool,
                                before: Files, after: Files, late: Option<FileName>)
  {
    && Accounted(before.metadataFace, after.metadataFace, metadataWritten, late == Some(MetadataFace))
    && Accounted(before.faceKey, after.faceKey, keyWritten, late == Some(FaceKey))
    && Accounted(before.template, after.template, enrolled, late == Some(Template))
  }

  /** The additive face steps; disk writes only happen after the capture, which may fail. */
  method CommitFace(m: Host, key: Secret)
    returns (ok: bool, faceMetadataWritten: bool, faceKeyWritten: bool, faceStoreEnrolled: bool)
    requires !m.crashed && m.late.None?
    modifies m`s, m`now, m`crashed, m`late, m`writes
    ensures m.s == old(m.s).(files := old(m.s).files.(metadataFace := m.s.files.metadataFace,
                                                     faceKey := m.s.files.faceKey, template := m.s.files.template))
    ensures m.late.Some? ==> m.late.value in {MetadataFace, FaceKey, Template}
    ensures !m.crashed ==> FaceAccounted(faceMetadataWritten, faceKeyWritten, faceStoreEnrolled,
                                         old(m.s).files, m.s.files, m.late)
    ensures ok ==> !m.crashed && m.late.None? && FaceGood(m.s, key) && m.s.files.template != Absent
    ensures old(m.Calm(m.now)) && FullLengthDraws(m.world) && m.s.primaryName != "" ==> ok
    ensures Report(m.world, old(m.now), m.now, FaceSteps(key, m.world(old(m.now) + 1).secret, m.s.primaryName), ok,
                   m.crashed, m.late, false, faceStoreEnrolled, false)
    ensures old(m.now) <= m.now <= old(m.now) + 7 && (ok ==> m.now == old(m.now) + 7) && m.writes >= old(m.writes)
    ensures !m.crashed && m.late == Some(Template) ==>
              m.s.files.template == TemplateFile(m.world(old(m.now)).template)
  {
    hide Ran, Completed, LateFile, LateBind, StepOk, Traced, Through, Succeeds;
    ghost var from, steps := m.now, FaceSteps(key, m.world(m.now + 1).secret, m.s.primaryName);
    faceMetadataWritten, faceKeyWritten, faceStoreEnrolled := false, false, false;
    ok := false;
    var face := PrepareFace(m, key);
    if face.None? {
      ReportFace(m.world, from, m.now, steps, false, m.crashed, None);
      return;
    }
    var (sealed, aFace, template) := face.value;
    ok, faceMetadataWritten, faceKeyWritten, faceStoreEnrolled := StoreFace(m, sealed, aFace, template, from, steps);
    ReportFace(m.world, from, m.now, steps, ok, m.crashed, m.late);
  }

  lemma ReportFace(w: nat -> Answer, from: nat, to: nat, steps: seq<Step>, ok: bool, crashed: bool, late: Option<FileName>)
    requires exists key, aFace, primaryName :: steps == FaceSteps(key, aFace, primaryName)
    requires Traced(w, from, to, steps, ok, crashed) && (!crashed ==> late == LateFile(w, from, to, steps, ok))
    ensures Report(w, from, to, steps, ok, crashed, late, false, ok, false)
  {
    hide StepOk;
    assert steps[6] == Store(Template) && |steps| == 7;
    assert BindAuth !in steps && forall i :: 0 <= i < 6 ==> steps[i] != Store(Template);
  }

  /** The second half: three files, in this order, as the last steps of the plan. */
  method StoreFace(m: Host, sealed: SealedObject, aFace: Secret, template: seq<real>, ghost from: nat, ghost steps: seq<Step>)
    returns (ok: bool, faceMetadataWritten: bool, faceKeyWritten: bool, faceStoreEnrolled: bool)
    requires !m.crashed && m.late.None? && m.now == from + 4 && |steps| == 7 && Through(m.world, from, steps, 4)
    requires steps[4] == Store(MetadataFace) && steps[5] == Store(FaceKey) && steps[6] == Store(Template)
    modifies m`s, m`now, m`crashed, m`late, m`writes
    ensures m.s == old(m.s).(files := old(m.s).files.(metadataFace := m.s.files.metadataFace,
                                                     faceKey := m.s.files.faceKey, template := m.s.files.template))
    ensures m.late.Some? ==> m.late.value in {MetadataFace, FaceKey, Template}
    ensures !m.crashed ==> FaceAccounted(faceMetadataWritten, faceKeyWritten, faceStoreEnrolled,
                                         old(m.s).files, m.s.files, m.late)
    ensures ok ==> !m.crashed && m.late.None? && m.s.files.metadataFace == MetadataFile(METADATA_VERSION, sealed)
                   && m.s.files.faceKey == KeyFile(aFace) && m.s.files.template == TemplateFile(template)
    ensures old(m.Calm(m.now)) ==> ok
    ensures from + 4 < m.now <= from + 7 && (ok ==> m.now == from + 7) && Traced(m.world, from, m.now, steps, ok, m.crashed)
    ensures !m.crashed ==> m.late == LateFile(m.world, from, m.now, steps, ok)
    ensures faceStoreEnrolled == ok && m.writes >= old(m.writes)
    ensures !m.crashed && m.late == Some(Template) ==> m.s.files.template == TemplateFile(template)
  {
    hide Ran, Completed, LateFile, LateBind, StepOk, Traced, Through, Succeeds;
    faceMetadataWritten, faceKeyWritten, faceStoreEnrolled := false, false, false;
    ok := m.Save(MetadataFace, MetadataFile(METADATA_VERSION, sealed));
    NextSave(m.world, from, steps, 4, MetadataFace, ok);
    if !ok { return; }
    faceMetadataWritten := true;
    ok := m.Save(FaceKey, KeyFile(aFace));
    NextSave(m.world, from, steps, 5, FaceKey, ok);
    if !ok { return; }
    faceKeyWritten := true;
    ok := m.Save(Template, TemplateFile(template));
    NextSave(m.world, from, steps, 6, Template, ok);
    if !ok { return; }
    faceStoreEnrolled := true;
  }

  /** Step 3: the recovery blob first, verified to open before it is written. */
  method CommitRecovery(m: Host, key: Secret, recovery: Secret) returns (ok: bool)
    requires !m.crashed && m.late.None?
    modifies m`s, m`now, m`crashed, m`late, m`writes
    ensures m.s == old(m.s).(files := old(m.s).files.(recovery := m.s.files.recovery))
    ensures m.s == old(m.s) || RecoveryGood(m.s.files, key, recovery)
    ensures m.late in {None, Some(Recovery)}
    ensures !m.crashed ==> Accounted(old(m.s).files.recovery, m.s.files.recovery, ok, m.late == Some(Recovery))
    ensures ok ==> !m.crashed && m.late.None? && RecoveryGood(m.s.files, key, recovery)
    ensures old(m.Calm(m.now)) && Len(key) == WRAPPED_KEY_LEN ==> ok
    ensures Report(m.world, old(m.now), m.now, RecoverySteps(key, recovery), ok, m.crashed, m.late, false, false, false)
    ensures m.writes == old(m.writes) + if m.now >= old(m.now) + 2 && Lands(m.world(old(m.now) + 1).verdict) then 1 else 0
    ensures old(m.now) <= m.now <= old(m.now) + 2 && (ok ==> m.now == old(m.now) + 2 && m.writes > old(m.writes))
  {
    hide Ran, Completed, LateFile, LateBind, StepOk;
    ghost var w, from, steps := m.world, m.now, RecoverySteps(key, recovery);
    var blob := m.Wrap(key, recovery);
    Next(w, from, steps, 0, WrapKey(key, recovery), blob.Some? && UnwrapKey(blob.value, recovery) == Some(key));
    if blob.None? || UnwrapKey(blob.value, recovery) != Some(key) {
      ReportPlain(w, from, m.now, steps, false, m.crashed, None);
      return false;
    }
    ok := m.Save(Recovery, BlobFile(blob.value));
    NextSave(w, from, steps, 1, Recovery, ok);
    ReportPlain(w, from, m.now, steps, ok, m.crashed, m.late);
  }

  /** Step 4: seal under the PIN, prove that it unseals, then persist. */
  method CommitSealed(m: Host, pin: Secret, key: Secret) returns (ok: bool)
    requires !m.crashed && m.late.None?
    modifies m`s, m`now, m`crashed, m`late, m`writes
    ensures m.s == old(m.s).(files := old(m.s).files.(metadata := m.s.files.metadata))
    ensures m.s == old(m.s) || SealedGood(m.s.files.metadata, key, pin, m.s.primaryName)
    ensures m.late in {None, Some(Metadata)}
    ensures !m.crashed ==> Accounted(old(m.s).files.metadata, m.s.files.metadata, ok, m.late == Some(Metadata))
    ensures ok ==> !m.crashed && m.late.None? && SealedGood(m.s.files.metadata, key, pin, m.s.primaryName)
    ensures old(m.Calm(m.now)) && 0 < Len(pin) <= MAX_PIN_LEN && m.s.primaryName != "" ==> ok
    ensures Report(m.world, old(m.now), m.now, SealSteps(key, pin, m.s.primaryName), ok, m.crashed, m.late, false, false, false)
    ensures old(m.now) <= m.now <= old(m.now) + 3 && (ok ==> m.now == old(m.now) + 3) && m.writes >= old(m.writes)
  {
    hide Ran, Completed, LateFile, LateBind, StepOk, Traced, Through;
    ghost var w, from, steps := m.world, m.now, SealSteps(key, pin, m.s.primaryName);
    Start(w, from, steps);
    var sealed := SealChecked(m, pin, key, from, steps, 0);
    if sealed.None? {
      ReportPlain(w, from, m.now, steps, false, m.crashed, None);
      return false;
    }
    ok := m.Save(Metadata, MetadataFile(METADATA_VERSION, sealed.value));
    NextSave(w, from, steps, 2, Metadata, ok);
    ReportPlain(w, from, m.now, steps, ok, m.crashed, m.late);
  }

  /** A stock lockout hierarchy ends up bound and marked; a foreign one is untouched. */
  ghost predicate Bound(before: State, s: State, recovery: Secret) {
    if before.lockoutAuth == EMPTY
    then s.lockoutAuth == LockoutAuthOf(recovery) && s.files.lockoutOwned == MarkerFile
    else s.lockoutAuth == before.lockoutAuth && s.files.lockoutOwned == before.files.lockoutOwned
  }

  /** Step 4.6: bind the TPM lockout hierarchy to the recovery secret, unless somebody else owns it. The
      journal learns of the bound authValue, except when the TPM changes it and reports an error. */
  method BindLockout(m: Host, recovery: Secret) returns (ok: bool, lockoutAuth: Option<Secret>)
    requires !m.crashed && m.late.None? && !m.lateAuth
    modifies m`s, m`now, m`crashed, m`late, m`writes, m`lateAuth, m`authCalls, m`refused, m`boundBy
    ensures m.s == old(m.s).(lockoutAuth := m.s.lockoutAuth,
                             files := old(m.s).files.(lockoutOwned := m.s.files.lockoutOwned))
    ensures old(m.s).lockoutAuth != EMPTY ==>
              m.s == old(m.s) && m.authCalls == old(m.authCalls) && m.boundBy == old(m.boundBy)
    ensures LockoutReached(old(m.s), m.s, m.boundBy, recovery)
    ensures m.boundBy == old(m.boundBy) || m.boundBy == recovery
    ensures lockoutAuth.Some? ==> lockoutAuth.value == LockoutAuthOf(recovery) && old(m.s).lockoutAuth == EMPTY
    ensures m.late in {None, Some(LockoutOwned)}
    ensures !m.crashed ==> LockoutAccounted(lockoutAuth, old(m.s), m.s, m.late, m.lateAuth, recovery)
    ensures ok ==> !m.crashed && m.late.None? && Bound(old(m.s), m.s, recovery)
    ensures old(m.Calm(m.now)) ==> ok
    ensures Report(m.world, old(m.now), m.now, LockoutSteps(old(m.s).lockoutAuth != EMPTY), ok, m.crashed, m.late, m.lateAuth,
                   false, lockoutAuth.Some?)
    ensures old(m.now) <= m.now <= old(m.now) + 3 && m.writes >= old(m.writes)
    ensures if old(m.s).lockoutAuth != EMPTY then m.now == old(m.now) + 1 else ok ==> m.now == old(m.now) + 3
    ensures m.refused == old(m.refused)
    ensures m.s.lockoutAuth == BoundAuth(m.world, old(m.now) + 1, m.now, old(m.s).lockoutAuth, recovery)
    ensures lockoutAuth.Some? <==> old(m.s).lockoutAuth == EMPTY && m.now >= old(m.now) + 3
  {
    hide Ran, Completed, LateFile, LateBind, StepOk, Traced, Through, Report;
    ghost var w, from, foreign := m.world, m.now, m.s.lockoutAuth != EMPTY;
    ghost var steps := LockoutSteps(foreign);
    Start(w, from, steps);
    lockoutAuth := None;
    var isSet := m.LockoutAuthIsSet();
    Next(w, from, steps, 0, Plain, isSet.Some?);
    if isSet.None? {
      ReportLockout(w, from, m.now, foreign, false, m.crashed, None, false);
      return false, None;
    }
    if isSet.value {
      ReportLockout(w, from, m.now, foreign, true, m.crashed, None, false);
      return true, None;
    }
    ok, lockoutAuth := BindStock(m, recovery, from);
  }

  /** The bind and its marker, for a lockout hierarchy in its stock state. */
  method BindStock(m: Host, recovery: Secret, ghost from: nat) returns (ok: bool, lockoutAuth: Option<Secret>)
    requires !m.crashed && m.late.None? && !m.lateAuth && m.s.lockoutAuth == EMPTY
    requires m.now == from + 1 && Through(m.world, from, LockoutSteps(false), 1)
    modifies m`s, m`now, m`crashed, m`late, m`writes, m`lateAuth, m`authCalls, m`refused, m`boundBy
    ensures m.s == old(m.s).(lockoutAuth := m.s.lockoutAuth,
                             files := old(m.s).files.(lockoutOwned := m.s.files.lockoutOwned))
    ensures LockoutReached(old(m.s), m.s, m.boundBy, recovery) && m.boundBy == recovery
    ensures lockoutAuth.Some? ==> lockoutAuth.value == LockoutAuthOf(recovery)
    ensures m.late in {None, Some(LockoutOwned)}
    ensures !m.crashed ==> LockoutAccounted(lockoutAuth, old(m.s), m.s, m.late, m.lateAuth, recovery)
    ensures ok ==> !m.crashed && m.late.None? && Bound(old(m.s), m.s, recovery) && m.now == from + 3
    ensures old(m.Calm(m.now)) ==> ok
    ensures Report(m.world, from, m.now, LockoutSteps(false), ok, m.crashed, m.late, m.lateAuth, false, lockoutAuth.Some?)
    ensures from < m.now <= from + 3 && m.writes >= old(m.writes) && m.refused == old(m.refused)
    ensures m.s.lockoutAuth == BoundAuth(m.world, from + 1, m.now, EMPTY, recovery)
    ensures lockoutAuth.Some? <==> m.now >= from + 3
  {
    hide *;
    ghost var w, steps, before := m.world, LockoutSteps(false), m.s;
    StockSteps(m.world(m.now), m.world(m.now - 1));
    LengthFits(recovery);
    CalmIs(m, m.now);
    lockoutAuth := None;
    var derived := LockoutAuthOf(recovery);
    m.boundBy := recovery;
    ok := m.SetLockoutAuth(EMPTY, derived);
    Next(w, from, steps, 1, BindAuth, ok);
    BoundHere(w, from + 1, recovery);
    BindReaches(before, m.s, m.lateAuth, w(from + 1).verdict, recovery);
    if !ok {
      ReportLockout(w, from, m.now, false, false, m.crashed, None, m.lateAuth);
      return;
    }
    lockoutAuth := Some(derived);
    ghost var bound := m.s;
    ok := m.Save(LockoutOwned, MarkerFile);
    NextSave(w, from, steps, 2, LockoutOwned, ok);
    MarkerReaches(before, bound, m.s, m.late, recovery);
    ReportLockout(w, from, m.now, false, ok, m.crashed, m.late, false);
  }

  lemma StockSteps(a: Answer, b: Answer)
    ensures LockoutSteps(false) == [Plain, BindAuth, Store(LockoutOwned)]
    ensures Succeeds(BindAuth, a, b) <==> a.verdict.Done?
    ensures Len(EMPTY) == 0
  {
  }

  /** The bind alone. */
  lemma BindReaches(before: State, s: State, lateAuth: bool, v: Verdict, recovery: Secret)
    requires before.lockoutAuth == EMPTY && (lateAuth <==> v.FailLate?)
    requires s == if Lands(v) then before.(lockoutAuth := LockoutAuthOf(recovery)) else before
    ensures LockoutReached(before, s, recovery, recovery)
    ensures !v.Done? && !Dies(v) ==> LockoutAccounted(None, before, s, None, lateAuth, recovery)
    ensures v.Done? ==> s.lockoutAuth == LockoutAuthOf(recovery)
  {
  }

  /** And its marker, stored, stored late or not at all. */
  lemma MarkerReaches(before: State, bound: State, s: State, late: Option<FileName>, recovery: Secret)
    requires before.lockoutAuth == EMPTY && bound == before.(lockoutAuth := LockoutAuthOf(recovery))
    requires s == bound || s == bound.(files := bound.files.With(LockoutOwned, MarkerFile))
    ensures LockoutReached(before, s, recovery, recovery)
    ensures s == before.(lockoutAuth := s.lockoutAuth, files := before.files.(lockoutOwned := s.files.lockoutOwned))
    ensures LockoutAccounted(Some(LockoutAuthOf(recovery)), before, s, late, false, recovery)
    ensures s != bound ==> Bound(before, s, recovery)
    ensures bound.files.With(LockoutOwned, MarkerFile) == bound.files ==> Bound(before, s, recovery)
  {
  }

  lemma ReportLockout(w: nat -> Answer, from: nat, to: nat, foreign: bool, ok: bool, crashed: bool, late: Option<FileName>,
                      lateBind: bool)
    requires Traced(w, from, to, LockoutSteps(foreign), ok, crashed)
    requires !crashed ==> late == LateFile(w, from, to, LockoutSteps(foreign), ok)
                          && lateBind == LateBind(w, from, to, LockoutSteps(foreign), ok)
    ensures Report(w, from, to, LockoutSteps(foreign), ok, crashed, late, lateBind, false, !foreign && (ok || to == from + 3))
  {
    hide StepOk;
    var steps := LockoutSteps(foreign);
    assert Store(Template) !in steps;
    assert !foreign ==> steps[0] != BindAuth && steps[1] == BindAuth && |steps| == 3;
  }

  /** Steps 5 and 6: the destructive rekey, then the proof that the keyring opens with the new key. */
  method CommitRekey(m: Host, oldPassword: Secret, key: Secret) returns (ok: bool, newKey: Option<Secret>)
    requires !m.crashed
    modifies m`s, m`now, m`crashed
    ensures m.s == old(m.s).(credential := m.s.credential, locked := m.s.locked)
    ensures m.s.credential == old(m.s).credential || (old(m.s).credential == oldPassword && m.s.credential == key)
    ensures !m.crashed ==> RekeyAccounted(newKey, old(m.s), m.s, oldPassword, key)
    ensures ok ==> !m.crashed && newKey.Some? && !m.s.locked
    ensures old(m.Calm(m.now)) && old(m.s).credential == oldPassword ==> ok
    ensures Report(m.world, old(m.now), m.now, RekeySteps(old(m.s).credential == oldPassword), ok, m.crashed, None, false,
                   false, false)
    ensures m.now > old(m.now) && (newKey.Some? <==> m.now >= old(m.now) + 2)
    ensures m.s.credential
         == RekeyedTo(m.world, old(m.now), m.now, old(m.s).credential == oldPassword, old(m.s).credential, key)
  {
    hide Ran, Completed, LateFile, LateBind, StepOk, Traced, Through, Report;
    ghost var w, from, right := m.world, m.now, m.s.credential == oldPassword;
    ghost var steps := RekeySteps(right);
    Start(w, from, steps);
    newKey := None;
    ok := m.Rekey(oldPassword, key);
    Next(w, from, steps, 0, RekeyFrom(right), ok);
    if ok {
      newKey := Some(key);
      ok := VerifyRekey(m, key, from, steps);
    }
    ReportPlain(w, from, m.now, steps, ok, m.crashed, None);
  }

  /** Step 6: the keyring opens with the new key, says so, and an old item still decrypts. */
  method VerifyRekey(m: Host, key: Secret, ghost from: nat, ghost steps: seq<Step>) returns (ok: bool)
    requires !m.crashed && m.now == from + 1 && m.s.credential == key
    requires |steps| == 4 && steps[1..] == [Plain, Plain, Plain] && Through(m.world, from, steps, 1)
    modifies m`s, m`now, m`crashed
    ensures m.s == old(m.s).(locked := m.s.locked)
    ensures m.now > old(m.now) && (ok ==> !m.crashed && !m.s.locked)
    ensures Traced(m.world, from, m.now, steps, ok, m.crashed) && LateFile(m.world, from, m.now, steps, ok) == None
    ensures old(m.Calm(m.now)) ==> ok
  {
    hide Ran, Completed, LateFile, LateBind, StepOk, Traced, Through;
    ghost var w := m.world;
    assert steps[1] == steps[1..][0] && steps[2] == steps[1..][1] && steps[3] == steps[1..][2];
    ok := m.Unlock(key);
    Next(w, from, steps, 1, Plain, ok);
    if !ok { return; }
    var locked := m.IsLocked();
    Next(w, from, steps, 2, Plain, locked == Some(false));
    if locked != Some(false) { return false; }
    var item := m.Ask();
    ok := item.Some?;
    Next(w, from, steps, 3, Plain, ok);
  }

  /** Where a transaction that started in state `before` may be, at any step and after any fault, its
      rollback included. */
  ghost predicate Reached(before: State, s: State, boundBy: Secret,
                          oldPassword: Secret, pin: Secret, key: Secret, recovery: Secret)
  {
    && s.primaryName == before.primaryName
    // the credential moves only from `oldPassword` to `key` and back, and is `key` only while both blobs are good
    && (s.credential == before.credential
        || (before.credential == oldPassword && s.credential == key && BlobsGood(s, key, pin, recovery)))
    && LockoutReached(before, s, boundBy, recovery)
  }

  /** The lockout authValue moves only from empty to the recovery-derived value and back. */
  ghost predicate LockoutReached(before: State, s: State, boundBy: Secret, recovery: Secret) {
    && (s.lockoutAuth == before.lockoutAuth
        || (before.lockoutAuth == EMPTY && s.lockoutAuth == LockoutAuthOf(recovery) && boundBy == recovery))
    && (s.files.lockoutOwned == before.files.lockoutOwned
        || (before.lockoutAuth == EMPTY
            && ((s.files.lockoutOwned == MarkerFile && s.lockoutAuth == LockoutAuthOf(recovery))
                || s.lockoutAuth == EMPTY)))
  }

  /** The journal of a live transaction is faithful: every file is accounted for, and the credential
      and the lockout authValue are what it says. */
  ghost predicate Faithful(tx: Tx, before: State, s: State, late: Option<FileName>, lateAuth: bool,
                           oldPassword: Secret, key: Secret, recovery: Secret)
  {
    && BlobsAccounted(tx, before.files, s.files, late)
    && RekeyAccounted(tx.newKey, before, s, oldPassword, key)
    && LockoutAccounted(tx.lockoutAuth, before, s, late, lateAuth, recovery)
  }

  ghost predicate BlobsAccounted(tx: Tx, before: Files, after: Files, late: Option<FileName>) {
    && Accounted(before.recovery, after.recovery, tx.recoveryWritten, late == Some(Recovery))
    && Accounted(before.metadata, after.metadata, tx.metadataWritten, late == Some(Metadata))
    && FaceAccounted(tx.faceMetadataWritten, tx.faceKeyWritten, tx.faceStoreEnrolled, before, after, late)
  }

  ghost predicate RekeyAccounted(newKey: Option<Secret>, before: State, s: State, oldPassword: Secret, key: Secret) {
    if newKey.None? then s.credential == before.credential
    else newKey.value == s.credential == key && before.credential == oldPassword
  }

  ghost predicate LockoutAccounted(lockoutAuth: Option<Secret>, before: State, s: State, late: Option<FileName>,
                                   lateAuth: bool, recovery: Secret)
  {
    if lockoutAuth.None?
    then s.files.lockoutOwned == before.files.lockoutOwned && late != Some(LockoutOwned)
         && (s.lockoutAuth != before.lockoutAuth <==> lateAuth)
    else before.lockoutAuth == EMPTY && !lateAuth && lockoutAuth.value == s.lockoutAuth == LockoutAuthOf(recovery)
  }

  ghost predicate SameFace(a: Files, b: Files) {
    b.metadataFace == a.metadataFace && b.faceKey == a.faceKey && b.template == a.template
  }

  /** Steps 3 and 4: the two blobs that lead back to the key. */
  method CommitCredentials(m: Host, pin: Secret, key: Secret, recovery: Secret) returns (ok: bool, tx: Tx)
    requires !m.crashed && m.late.None?
    modifies m`s, m`now, m`crashed, m`late, m`writes
    ensures m.s == old(m.s).(files := old(m.s).files.(recovery := m.s.files.recovery, metadata := m.s.files.metadata))
    ensures m.late in {None, Some(Recovery), Some(Metadata)}
    ensures tx == BLANK.(recoveryWritten := tx.recoveryWritten, metadataWritten := tx.metadataWritten)
    ensures !m.crashed ==> BlobsAccounted(tx, old(m.s).files, m.s.files, m.late)
    ensures ok ==> !m.crashed && m.late.None? && BlobsGood(m.s, key, pin, recovery) && tx.recoveryWritten && tx.metadataWritten
    ensures (old(m.Calm(m.now)) && m.s.primaryName != "" && Len(key) == WRAPPED_KEY_LEN && 0 < Len(pin) <= MAX_PIN_LEN) ==> ok
    ensures Report(m.world, old(m.now), m.now, RecoverySteps(key, recovery) + SealSteps(key, pin, m.s.primaryName), ok,
                   m.crashed, m.late, false, false, false)
    ensures old(m.now) <= m.now <= old(m.now) + 5 && (ok ==> m.now == old(m.now) + 5)
    ensures m.writes >= old(m.writes) && (ok ==> m.writes > old(m.writes))
    ensures m.writes == old(m.writes) <==> !(m.now >= old(m.now) + 2 && Lands(m.world(old(m.now) + 1).verdict))
  {
    hide Report;
    ghost var w, from := m.world, m.now;
    ghost var r, s := RecoverySteps(key, recovery), SealSteps(key, pin, m.s.primaryName);
    tx := BLANK;
    ok := CommitRecovery(m, key, recovery);
    if !ok {
      ReportStops(w, from, m.now, r, s, m.crashed, m.late, false, false, false);
      return;
    }
    tx := tx.(recoveryWritten := true);
    ReportEnds(w, from, m.now, r, m.crashed, m.late, false, false, false);
    ok := CommitSealed(m, pin, key);
    ReportContinues(w, from, m.now, r, s, ok, m.crashed, m.late, false, false, false, false, false);
    if ok { tx := tx.(metadataWritten := true); }
  }

  /** Steps 3 to 4.5: everything that goes to disk before the machine itself is touched. */
  method CommitBlobs(m: Host, pin: Secret, key: Secret, recovery: Secret, face: bool) returns (ok: bool, tx: Tx)
    requires !m.crashed && m.late.None?
    modifies m`s, m`now, m`crashed, m`late, m`writes
    ensures m.s == old(m.s).(files := m.s.files) && m.s.files.lockoutOwned == old(m.s).files.lockoutOwned
    ensures m.late != Some(LockoutOwned)
    ensures tx.newKey.None? && tx.lockoutAuth.None?
    ensures !m.crashed ==> BlobsAccounted(tx, old(m.s).files, m.s.files, m.late)
    ensures !face ==> SameFace(old(m.s).files, m.s.files)
    ensures ok ==> !m.crashed && m.late.None? && BlobsGood(m.s, key, pin, recovery)
                   && (face ==> FaceGood(m.s, key) && m.s.files.template != Absent)
    ensures (old(m.Calm(m.now)) && FullLengthDraws(m.world) && m.s.primaryName != ""
             && Len(key) == WRAPPED_KEY_LEN && 0 < Len(pin) <= MAX_PIN_LEN) ==> ok
    ensures Report(m.world, old(m.now), m.now, BlobSteps(m.world, old(m.now), key, recovery, pin, m.s.primaryName, face), ok,
                   m.crashed, m.late, false, tx.faceStoreEnrolled, false)
    ensures m.now <= old(m.now) + (if face then 12 else 5) && (ok ==> m.now == old(m.now) + (if face then 12 else 5))
    ensures m.now >= old(m.now) && m.writes >= old(m.writes) && (ok ==> m.writes > old(m.writes))
    ensures m.writes == old(m.writes) <==> !(m.now >= old(m.now) + 2 && Lands(m.world(old(m.now) + 1).verdict))
    ensures !m.crashed && m.late == Some(Template) ==>
              m.s.files.template == TemplateFile(m.world(old(m.now) + 5).template)
  {
    hide Report, RecoverySteps, SealSteps, FaceSteps, Lands, BlobsAccounted, FaceAccounted, BlobsGood, FaceGood, FullLengthDraws;
    ghost var w, from, before := m.world, m.now, m.s.files;
    ghost var p := RecoverySteps(key, recovery) + SealSteps(key, pin, m.s.primaryName);
    ghost var f := if face then FaceSteps(key, w(from + 6).secret, m.s.primaryName) else [];
    FaceStartsPlain(f, key, w(from + 6).secret, m.s.primaryName);
    ok, tx := CommitCredentials(m, pin, key, recovery);
    if !ok {
      ReportStops(w, from, m.now, p, f, m.crashed, m.late, false, false, false);
      return;
    }
    ReportEnds(w, from, m.now, p, m.crashed, m.late, false, false, false);
    ghost var mid := m.s;
    if !face {
      assert p + f == p;
      return;
    }
    var metadataWritten, keyWritten, enrolled;
    ok, metadataWritten, keyWritten, enrolled := CommitFace(m, key);
    if !m.crashed {
      FaceAdds(before, mid, m.s, tx, metadataWritten, keyWritten, enrolled, m.late, key, pin, recovery);
    }
    ReportContinues(w, from, m.now, p, f, ok, m.crashed, m.late, false, false, false, enrolled, false);
    tx := tx.(faceMetadataWritten := metadataWritten, faceKeyWritten := keyWritten, faceStoreEnrolled := enrolled);
  }

  /** The face artifacts are accounted for beside the blobs, which stay as good as they were. */
  lemma FaceAdds(before: Files, mid: State, s: State, tx: Tx, metadata: bool, faceKey: bool, enrolled: bool,
                 late: Option<FileName>, key: Secret, pin: Secret, recovery: Secret)
    requires BlobsAccounted(tx, before, mid.files, None) && tx == BLANK.(recoveryWritten := true, metadataWritten := true)
    requires s == mid.(files := mid.files.(metadataFace := s.files.metadataFace, faceKey := s.files.faceKey,
                                           template := s.files.template))
    requires FaceAccounted(metadata, faceKey, enrolled, mid.files, s.files, late)
    requires late.Some? ==> late.value in {MetadataFace, FaceKey, Template}
    ensures BlobsAccounted(tx.(faceMetadataWritten := metadata, faceKeyWritten := faceKey, faceStoreEnrolled := enrolled),
                           before, s.files, late)
    ensures BlobsGood(mid, key, pin, recovery) ==> BlobsGood(s, key, pin, recovery)
  {
  }

  lemma FaceStartsPlain(f: seq<Step>, key: Secret, aFace: Secret, primaryName: string)
    requires f == [] || f == FaceSteps(key, aFace, primaryName)
    ensures f != [] ==> f[0] == Plain
  {
  }

  /** Steps 4.6 to 6: everything that touches the machine itself. */
  method BindAndRekey(m: Host, oldPassword: Secret, key: Secret, recovery: Secret)
    returns (ok: bool, lockoutAuth: Option<Secret>, newKey: Option<Secret>)
    requires !m.crashed && m.late.None? && !m.lateAuth
    modifies m`s, m`now, m`crashed, m`late, m`writes, m`lateAuth, m`authCalls, m`refused, m`boundBy
    ensures m.s == old(m.s).(credential := m.s.credential, locked := m.s.locked, lockoutAuth := m.s.lockoutAuth,
                             files := old(m.s).files.(lockoutOwned := m.s.files.lockoutOwned))
    ensures m.s.credential == old(m.s).credential || (old(m.s).credential == oldPassword && m.s.credential == key)
    ensures LockoutReached(old(m.s), m.s, m.boundBy, recovery)
    ensures old(m.s).lockoutAuth != EMPTY ==> m.authCalls == old(m.authCalls) && m.boundBy == old(m.boundBy)
    ensures m.boundBy == old(m.boundBy) || m.boundBy == recovery
    ensures lockoutAuth.Some? ==> lockoutAuth.value == LockoutAuthOf(recovery) && old(m.s).lockoutAuth == EMPTY
    ensures m.late in {None, Some(LockoutOwned)}
    ensures !m.crashed ==> RekeyAccounted(newKey, old(m.s), m.s, oldPassword, key)
                           && LockoutAccounted(lockoutAuth, old(m.s), m.s, m.late, m.lateAuth, recovery)
    ensures ok ==> !m.crashed && newKey.Some? && m.late.None? && !m.s.locked && Bound(old(m.s), m.s, recovery)
    ensures old(m.Calm(m.now)) && old(m.s).credential == oldPassword ==> ok
    ensures Report(m.world, old(m.now), m.now,
                   MachineSteps(old(m.s).lockoutAuth != EMPTY, old(m.s).credential == oldPassword), ok,
                   m.crashed, m.late, m.lateAuth, false, lockoutAuth.Some?)
    ensures m.now >= old(m.now) && m.writes >= old(m.writes)
    ensures m.s.lockoutAuth == BoundAuth(m.world, old(m.now) + 1, m.now, old(m.s).lockoutAuth, recovery)
    ensures lockoutAuth.Some? <==> old(m.s).lockoutAuth == EMPTY && m.now >= old(m.now) + 3
    ensures m.refused == old(m.refused)
    ensures var rekey := RekeyCall(old(m.now) + 1, old(m.s).lockoutAuth);
            && (newKey.Some? <==> m.now >= rekey + 2)
            && m.s.credential == RekeyedTo(m.world, rekey, m.now, old(m.s).credential == oldPassword, old(m.s).credential, key)
  {
    hide *;
    ghost var w, from, before := m.world, m.now, m.s;
    ghost var foreign, right := m.s.lockoutAuth != EMPTY, m.s.credential == oldPassword;
    ghost var p, q := LockoutSteps(foreign), RekeySteps(right);
    MachineParts(foreign, right);
    newKey := None;
    ok, lockoutAuth := BindLockout(m, recovery);
    ghost var bound := m.s;
    if !ok {
      NotYetRekeyed(w, from + 1, m.now, before, bound, right, oldPassword, key);
      ReportStops(w, from, m.now, p, q, m.crashed, m.late, m.lateAuth, false, lockoutAuth.Some?);
      return;
    }
    RekeyFollows(from, m.now, before.lockoutAuth);
    CalmLater(m, from, m.now);
    ReportEnds(w, from, m.now, p, m.crashed, m.late, m.lateAuth, false, lockoutAuth.Some?);
    ok, newKey := CommitRekey(m, oldPassword, key);
    BoundStays(before, bound, m.s, m.boundBy, lockoutAuth, newKey, oldPassword, key, recovery);
    SameBoundAuth(w, from + 1, from + |p|, m.now, before.lockoutAuth, recovery);
    ReportContinues(w, from, m.now, p, q, ok, m.crashed, None, false, false, lockoutAuth.Some?, false, false);
  }

  lemma MachineParts(foreign: bool, right: bool)
    ensures MachineSteps(foreign, right) == LockoutSteps(foreign) + RekeySteps(right)
    ensures |LockoutSteps(foreign)| == (if foreign then 1 else 3) && RekeySteps(right)[0] == RekeyFrom(right)
  {
  }

  lemma CalmLater(m: Host, from: nat, to: nat)
    requires from <= to
    ensures m.Calm(from) ==> m.Calm(to)
  {
  }

  /** The rekey follows the bind at once. */
  lemma RekeyFollows(from: nat, now: nat, lockoutAuth: Secret)
    requires now == from + if lockoutAuth != EMPTY then 1 else 3
    ensures RekeyCall(from + 1, lockoutAuth) == now
  {
  }

  lemma NotYetRekeyed(w: nat -> Answer, bind: nat, at: nat, before: State, s: State, right: bool, oldPassword: Secret, key: Secret)
    requires at <= bind + (if before.lockoutAuth != EMPTY then 0 else 2) && s.credential == before.credential
    ensures at < RekeyCall(bind, before.lockoutAuth) + 2
    ensures RekeyedTo(w, RekeyCall(bind, before.lockoutAuth), at, right, before.credential, key) == before.credential
    ensures RekeyAccounted(None, before, s, oldPassword, key)
  {
  }

  /** What the rekey changes is not what the bind is about. */
  lemma BoundStays(before: State, mid: State, s: State, boundBy: Secret, lockoutAuth: Option<Secret>, newKey: Option<Secret>,
                   oldPassword: Secret, key: Secret, recovery: Secret)
    requires mid == before.(lockoutAuth := mid.lockoutAuth, files := before.files.(lockoutOwned := mid.files.lockoutOwned))
    requires s == mid.(credential := s.credential, locked := s.locked)
    ensures LockoutReached(before, mid, boundBy, recovery) ==> LockoutReached(before, s, boundBy, recovery)
    ensures LockoutAccounted(lockoutAuth, before, mid, None, false, recovery) ==>
              LockoutAccounted(lockoutAuth, before, s, None, false, recovery)
    ensures RekeyAccounted(newKey, mid, s, oldPassword, key) ==> RekeyAccounted(newKey, before, s, oldPassword, key)
    ensures Bound(before, mid, recovery) ==> Bound(before, s, recovery)
  {
  }

  /** The ordered, destructive body of the enrollment. */
  method Commit(m: Host, oldPassword: Secret, pin: Secret, key: Secret, recovery: Secret, face: bool)
    returns (ok: bool, tx: Tx)
    requires !m.crashed && m.late.None? && !m.lateAuth
    modifies m`s, m`now, m`crashed, m`late, m`writes, m`lateAuth, m`authCalls, m`refused, m`boundBy
    ensures Reached(old(m.s), m.s, m.boundBy, oldPassword, pin, key, recovery)
    ensures m.s.primaryName == old(m.s).primaryName
    ensures tx.newKey.Some? ==> BlobsGood(m.s, key, pin, recovery)
    ensures !m.crashed ==> Faithful(tx, old(m.s), m.s, m.late, m.lateAuth, oldPassword, key, recovery)
    ensures old(m.s).lockoutAuth != EMPTY ==> m.authCalls == old(m.authCalls) && m.boundBy == old(m.boundBy)
    ensures m.boundBy == old(m.boundBy) || m.boundBy == recovery
    ensures tx.lockoutAuth.Some? ==> tx.lockoutAuth.value == LockoutAuthOf(recovery) && old(m.s).lockoutAuth == EMPTY
    ensures ok ==> !m.crashed && tx.newKey.Some? && m.late.None? && !m.s.locked && Bound(old(m.s), m.s, recovery)
                   && (if face then FaceGood(m.s, key) && m.s.files.template != Absent
                       else SameFace(old(m.s).files, m.s.files))
    ensures (old(m.Calm(m.now)) && FullLengthDraws(m.world) && m.s.primaryName != ""
             && Len(key) == WRAPPED_KEY_LEN && 0 < Len(pin) <= MAX_PIN_LEN
             && old(m.s).credential == oldPassword) ==> ok
    ensures Report(m.world, old(m.now), m.now,
                   CommitSteps(m.world, old(m.now), old(m.s), oldPassword, pin, key, recovery, face), ok,
                   m.crashed, m.late, m.lateAuth, tx.faceStoreEnrolled, tx.lockoutAuth.Some?)
    ensures var bind := old(m.now) + (if face then 13 else 6);
            && m.s.lockoutAuth == BoundAuth(m.world, bind, m.now, old(m.s).lockoutAuth, recovery)
            && (tx.lockoutAuth.Some? <==> old(m.s).lockoutAuth == EMPTY && m.now >= bind + 2)
            && (tx.newKey.Some? <==> m.now >= RekeyCall(bind, old(m.s).lockoutAuth) + 2)
            && m.s.credential == RekeyedTo(m.world, RekeyCall(bind, old(m.s).lockoutAuth), m.now,
                                           old(m.s).credential == oldPassword, old(m.s).credential, key)
    ensures m.refused == old(m.refused)
    ensures m.now >= old(m.now) && m.writes >= old(m.writes) && (ok ==> m.writes > old(m.writes))
    ensures m.writes == old(m.writes) <==> !(m.now >= old(m.now) + 2 && Lands(m.world(old(m.now) + 1).verdict))
    ensures !m.crashed && m.late == Some(Template) ==>
              m.s.files.template == TemplateFile(m.world(old(m.now) + 5).template)
  {
    hide Report, BlobSteps, MachineSteps, BlobsGood, FaceGood, Bound, SameFace;
    hide Reached, LockoutReached, Faithful, BlobsAccounted, RekeyAccounted, LockoutAccounted;
    hide Lands, CommitSteps, BoundAuth, FullLengthDraws;
    ghost var before := m.s;
    ghost var w, from := m.world, m.now;
    ghost var p := BlobSteps(w, from, key, recovery, pin, m.s.primaryName, face);
    ghost var q := MachineSteps(m.s.lockoutAuth != EMPTY, m.s.credential == oldPassword);
    PlanParts(w, from, m.s, oldPassword, pin, key, recovery, face);
    ok, tx := CommitBlobs(m, pin, key, recovery, face);
    ghost var written := m.s;
    if !ok {
      NotYetBound(w, from + (if face then 13 else 6), m.now, before, recovery);
      BlobsReach(before, written, tx, m.boundBy, m.late, oldPassword, pin, key, recovery);
      ReportStops(w, from, m.now, p, q, m.crashed, m.late, false, tx.faceStoreEnrolled, false);
      return;
    }
    ReportEnds(w, from, m.now, p, m.crashed, m.late, false, tx.faceStoreEnrolled, false);
    ok, tx := CommitMachine(m, before, tx, from, p, oldPassword, pin, key, recovery);
  }

  /** The second half, once the blobs are good. `p` is the plan run so far, from call `from` on. */
  method CommitMachine(m: Host, ghost before: State, blobs: Tx, ghost from: nat, ghost p: seq<Step>,
                       oldPassword: Secret, ghost pin: Secret, key: Secret, recovery: Secret)
    returns (ok: bool, tx: Tx)
    requires !m.crashed && m.late.None? && !m.lateAuth && BlobsGood(m.s, key, pin, recovery)
    requires m.s == before.(files := m.s.files) && m.s.files.lockoutOwned == before.files.lockoutOwned
    requires BlobsAccounted(blobs, before.files, m.s.files, None)
    requires m.now == from + |p| && Report(m.world, from, m.now, p, true, false, None, false, blobs.faceStoreEnrolled, false)
    modifies m`s, m`now, m`crashed, m`late, m`writes, m`lateAuth, m`authCalls, m`refused, m`boundBy
    ensures m.s.primaryName == before.primaryName && BlobsGood(m.s, key, pin, recovery)
    ensures Reached(before, m.s, m.boundBy, oldPassword, pin, key, recovery)
    ensures tx == blobs.(lockoutAuth := tx.lockoutAuth, newKey := tx.newKey)
    ensures !m.crashed ==> Faithful(tx, before, m.s, m.late, m.lateAuth, oldPassword, key, recovery)
    ensures before.lockoutAuth != EMPTY ==> m.authCalls == old(m.authCalls) && m.boundBy == old(m.boundBy)
    ensures m.boundBy == old(m.boundBy) || m.boundBy == recovery
    ensures tx.lockoutAuth.Some? ==> tx.lockoutAuth.value == LockoutAuthOf(recovery) && before.lockoutAuth == EMPTY
    ensures ok ==> !m.crashed && tx.newKey.Some? && m.late.None? && !m.s.locked && Bound(before, m.s, recovery)
    ensures FaceGood(old(m.s), key) ==> FaceGood(m.s, key)
    ensures SameFace(before.files, old(m.s).files) ==> SameFace(before.files, m.s.files)
    ensures m.s.files == old(m.s).files.(lockoutOwned := m.s.files.lockoutOwned) && m.late in {None, Some(LockoutOwned)}
    ensures old(m.Calm(m.now)) && before.credential == oldPassword ==> ok
    ensures Report(m.world, from, m.now, p + MachineSteps(before.lockoutAuth != EMPTY, before.credential == oldPassword), ok,
                   m.crashed, m.late, m.lateAuth, tx.faceStoreEnrolled, tx.lockoutAuth.Some?)
    ensures m.now >= old(m.now) && m.writes >= old(m.writes)
    ensures m.s.lockoutAuth == BoundAuth(m.world, old(m.now) + 1, m.now, before.lockoutAuth, recovery)
    ensures tx.lockoutAuth.Some? <==> before.lockoutAuth == EMPTY && m.now >= old(m.now) + 3
    ensures m.refused == old(m.refused)
    ensures var rekey := RekeyCall(old(m.now) + 1, before.lockoutAuth);
            && (tx.newKey.Some? <==> m.now >= rekey + 2)
            && m.s.credential == RekeyedTo(m.world, rekey, m.now, before.credential == oldPassword, before.credential, key)
  {
    hide Report, MachineSteps, BlobsGood, FaceGood, Bound, SameFace, BoundAuth, RekeyedTo;
    hide Reached, LockoutReached, Faithful, BlobsAccounted, RekeyAccounted, LockoutAccounted;
    MachineStepsStart(m.s.lockoutAuth != EMPTY, m.s.credential == oldPassword);
    ghost var written, q := m.s, MachineSteps(m.s.lockoutAuth != EMPTY, m.s.credential == oldPassword);
    var lockoutAuth, newKey;
    ok, lockoutAuth, newKey := BindAndRekey(m, oldPassword, key, recovery);
    BlobsKept(written, m.s, key, pin, recovery);
    MachineReaches(before, written, m.s, m.boundBy, oldPassword, pin, key, recovery);
    if !m.crashed {
      MachineFaithful(before, written, m.s, blobs, lockoutAuth, newKey, m.late, m.lateAuth, oldPassword, key, recovery);
    }
    ReportContinues(m.world, from, m.now, p, q, ok, m.crashed, m.late, m.lateAuth, blobs.faceStoreEnrolled, false, false,
      lockoutAuth.Some?);
    tx := blobs.(lockoutAuth := lockoutAuth, newKey := newKey);
  }

  /** What binds and rekeys leaves the blobs as good as they were. */
  lemma BlobsKept(a: State, b: State, key: Secret, pin: Secret, recovery: Secret)
    requires b.primaryName == a.primaryName && b.files == a.files.(lockoutOwned := b.files.lockoutOwned)
    ensures BlobsGood(a, key, pin, recovery) <==> BlobsGood(b, key, pin, recovery)
    ensures FaceGood(a, key) <==> FaceGood(b, key)
  {
  }

  /** The files written change nothing a transaction must not change. */
  lemma BlobsReach(before: State, s: State, tx: Tx, boundBy: Secret, late: Option<FileName>,
                   oldPassword: Secret, pin: Secret, key: Secret, recovery: Secret)
    requires s == before.(files := s.files) && s.files.lockoutOwned == before.files.lockoutOwned
    requires tx.newKey.None? && tx.lockoutAuth.None? && late != Some(LockoutOwned)
    ensures Reached(before, s, boundBy, oldPassword, pin, key, recovery)
    ensures BlobsAccounted(tx, before.files, s.files, late) ==>
              Faithful(tx, before, s, late, false, oldPassword, key, recovery)
  {
  }

  /** Nor do bind and rekey, once the blobs are good. */
  lemma MachineReaches(before: State, mid: State, s: State, boundBy: Secret,
                       oldPassword: Secret, pin: Secret, key: Secret, recovery: Secret)
    requires mid == before.(files := mid.files) && mid.files.lockoutOwned == before.files.lockoutOwned
    requires s.primaryName == mid.primaryName && s.files == mid.files.(lockoutOwned := s.files.lockoutOwned)
    requires s.credential == mid.credential || (mid.credential == oldPassword && s.credential == key)
    requires BlobsGood(s, key, pin, recovery) && LockoutReached(mid, s, boundBy, recovery)
    ensures Reached(before, s, boundBy, oldPassword, pin, key, recovery)
    ensures Bound(mid, s, recovery) ==> Bound(before, s, recovery)
    ensures SameFace(before.files, mid.files) ==> SameFace(before.files, s.files)
  {
  }

  lemma MachineFaithful(before: State, mid: State, s: State, blobs: Tx, lockoutAuth: Option<Secret>, newKey: Option<Secret>,
                        late: Option<FileName>, lateAuth: bool, oldPassword: Secret, key: Secret, recovery: Secret)
    requires mid == before.(files := mid.files) && mid.files.lockoutOwned == before.files.lockoutOwned
    requires s.files == mid.files.(lockoutOwned := s.files.lockoutOwned) && late in {None, Some(LockoutOwned)}
    requires BlobsAccounted(blobs, before.files, mid.files, None)
    requires RekeyAccounted(newKey, mid, s, oldPassword, key)
    requires LockoutAccounted(lockoutAuth, mid, s, late, lateAuth, recovery)
    ensures Faithful(blobs.(lockoutAuth := lockoutAuth, newKey := newKey), before, s, late, lateAuth, oldPassword, key, recovery)
  {
  }

  ghost predicate NoBlobs(files: Files) {
    files.metadata == Absent && files.recovery == Absent && files.metadataFace == Absent && files.faceKey == Absent
  }

  /** What a rollback has to deal with: the call it begins at, whether the template and the lockout auth are in the
      journal, what the failed step has left behind the journal's back, and the template captured. */
  datatype Undo = Undo(at: nat, template: bool, lockout: bool, late: Option<FileName>, lateAuth: bool, captured: seq<real>)

  /** The same from the world's answers alone, for a run of `plan` between two calls. */
  function UndoOf(w: nat -> Answer, from: nat, to: nat, plan: seq<Step>, ok: bool, captured: seq<real>): Undo
    requires from <= to <= from + |plan| && (ok || from < to)
  {
    var done := Completed(from, to, plan, ok);
    Undo(to, Store(Template) in done, BindAuth in done, LateFile(w, from, to, plan, ok), LateBind(w, from, to, plan, ok), captured)
  }

  /** How a faultless rollback leaves the machine. It is exactly as it was, but for what the failed step left behind, an
      older template the new one had replaced, and a marker left over from an earlier enrollment. */
  ghost predicate PutBack(before: State, after: State, undo: Undo) {
    && after.credential == before.credential
    && after.primaryName == before.primaryName
    && (after.lockoutAuth == before.lockoutAuth <==> !undo.lateAuth)
    && (after.files.recovery == Absent <==> undo.late != Some(Recovery))
    && (after.files.metadata == Absent <==> undo.late != Some(Metadata))
    && (after.files.metadataFace == Absent <==> undo.late != Some(MetadataFace))
    && (after.files.faceKey == Absent <==> undo.late != Some(FaceKey))
    && after.files.template == (if undo.late == Some(Template) then TemplateFile(undo.captured)
                                else if undo.template then Absent else before.files.template)
    && after.files.lockoutOwned == (if undo.lockout then Absent else before.files.lockoutOwned)
  }

  /** What a finished run says about the machine. */
  ghost predicate OutcomeTrue(outcome: Outcome, before: State, s: State, oldPassword: Secret, pin: Secret, key: Secret,
                              face: bool)
  {
    match outcome
    case Refused => s == before.(locked := s.locked)
    case Enrolled(recovery) =>
      before.credential == oldPassword && s.credential == key && !s.locked && BlobsGood(s, key, pin, recovery)
      && (if face then FaceGood(s, key) && s.files.template != Absent else SameFace(before.files, s.files))
      && Bound(before, s, recovery)
    case RolledBack => s.credential == before.credential
    case RolledBackWithLeftovers => s.credential == before.credential
    case Stranded(recovery) =>
      before.credential == oldPassword && s.credential == key && BlobsGood(s, key, pin, recovery)
  }

  /** The user is told the recovery secret. */
  predicate Told(outcome: Outcome, crashed: bool) {
    !crashed && (outcome.Enrolled? || outcome.Stranded?)
  }

  function RolledBackAs(r: Rollback, recovery: Secret): Outcome {
    match r
    case Restored => RolledBack
    case CleanupFailed => RolledBackWithLeftovers
    case RestoreFailed => Stranded(recovery)
  }

  /** What a faithful journal records is what the machine has. */
  lemma FaithfulMatches(j: Tx, before: State, s: State, late: Option<FileName>, lateAuth: bool,
                        oldPassword: Secret, key: Secret, recovery: Secret)
    requires Faithful(j, before, s, late, lateAuth, oldPassword, key, recovery)
    ensures j.newKey.Some? ==> j.newKey.value == s.credential == key && before.credential == oldPassword
    ensures j.newKey.None? ==> s.credential == before.credential
    ensures j.lockoutAuth.Some? ==> j.lockoutAuth.value == s.lockoutAuth
  {
  }

  /** A rollback of a faithful journal stays within reach of the start, whatever fails in it. */
  lemma UnwoundIsReached(j: Tx, before: State, mid: State, after: State, undo: Undo,
                         r: Rollback, crashed: bool, boundBy: Secret,
                         oldPassword: Secret, pin: Secret, key: Secret, recovery: Secret)
    requires Reached(before, mid, boundBy, oldPassword, pin, key, recovery)
    requires Faithful(j, before, mid, undo.late, undo.lateAuth, oldPassword, key, recovery)
    requires Unwound(j, mid, after, oldPassword, r, crashed)
    ensures Reached(before, after, boundBy, oldPassword, pin, key, recovery)
  {
    assert LockoutReached(before, after, boundBy, recovery);
  }

  lemma EnrolledOutcome(before: State, s: State, oldPassword: Secret, pin: Secret, key: Secret, recovery: Secret, face: bool)
    requires before.credential == oldPassword && s.credential == key && !s.locked && BlobsGood(s, key, pin, recovery)
    requires if face then FaceGood(s, key) && s.files.template != Absent else SameFace(before.files, s.files)
    requires Bound(before, s, recovery)
    ensures OutcomeTrue(Enrolled(recovery), before, s, oldPassword, pin, key, face)
  {
  }

  /** Its outcome tells the truth about the credential. */
  lemma UnwoundOutcome(j: Tx, before: State, mid: State, after: State, undo: Undo, r: Rollback,
                       oldPassword: Secret, pin: Secret, key: Secret, recovery: Secret, face: bool)
    requires Faithful(j, before, mid, undo.late, undo.lateAuth, oldPassword, key, recovery)
    requires j.newKey.Some? ==> BlobsGood(mid, key, pin, recovery)
    requires Unwound(j, mid, after, oldPassword, r, false)
    ensures OutcomeTrue(RolledBackAs(r, recovery), before, after, oldPassword, pin, key, face)
  {
  }

  /** With no fault it puts everything back. */
  lemma FullyUnwoundIsPutBack(j: Tx, before: State, mid: State, undo: Undo,
                              oldPassword: Secret, key: Secret, recovery: Secret)
    requires NoBlobs(before.files) && mid.primaryName == before.primaryName
    requires Faithful(j, before, mid, undo.late, undo.lateAuth, oldPassword, key, recovery)
    requires undo.template == j.faceStoreEnrolled && undo.lockout == j.lockoutAuth.Some?
    requires undo.late == Some(Template) ==> mid.files.template == TemplateFile(undo.captured)
    ensures PutBack(before, FullyUnwound(j, mid, oldPassword), undo)
  {
  }

  lemma RestoredHasNoBlobs(j: Tx, before: State, mid: State, after: State, undo: Undo, crashed: bool,
                           oldPassword: Secret, key: Secret, recovery: Secret)
    requires NoBlobs(before.files) && undo.late.None?
    requires Faithful(j, before, mid, undo.late, undo.lateAuth, oldPassword, key, recovery)
    requires Unwound(j, mid, after, oldPassword, Restored, crashed)
    ensures NoBlobs(after.files)
  {
  }

  /** From `before` to `s`: a supplied password, or both paths, lead in; the ownership marker stays true; a foreign lockout
      hierarchy is left alone; and the marker goes only with an empty authValue. */
  ghost predicate StaysSafe(before: State, boundBefore: Secret, s: State, boundBy: Secret,
                            passwords: set<Secret>, pins: set<Secret>, secrets: set<Secret>)
  {
    && (before.credential in passwords ==>
          NobodyLockedOut(s, passwords, pins, secrets) && RecoverableState(s, passwords, secrets))
    && (MarkerTrue(before, boundBefore) ==> MarkerTrue(s, boundBy))
    && (before.lockoutAuth != EMPTY ==>
          s.lockoutAuth == before.lockoutAuth && s.files.lockoutOwned == before.files.lockoutOwned)
    && (s.files.lockoutOwned == Absent && before.files.lockoutOwned != Absent ==> s.lockoutAuth == EMPTY)
  }

  /** Whatever a transaction reaches is safe: from a state with no blobs, a credential tess moved the
      keyring to is one that both blobs lead to. */
  lemma ReachedIsSafe(before: State, s: State, boundBefore: Secret, boundBy: Secret,
                      oldPassword: Secret, pin: Secret, key: Secret, recovery: Secret,
                      passwords: set<Secret>, pins: set<Secret>, secrets: set<Secret>)
    requires NoBlobs(before.files) && Reached(before, s, boundBy, oldPassword, pin, key, recovery)
    requires pin in pins && recovery in secrets
    requires boundBy == boundBefore || before.lockoutAuth == EMPTY
    ensures StaysSafe(before, boundBefore, s, boundBy, passwords, pins, secrets)
  {
  }

  /** A commit failed: roll back what its journal records, and say how that went. */
  method Abandon(m: Host, tx: Tx, ghost before: State, oldPassword: Secret, ghost pin: Secret, ghost key: Secret,
                 recovery: Secret, ghost face: bool, ghost undo: Undo)
    returns (outcome: Outcome)
    requires NoBlobs(before.files) && Reached(before, m.s, m.boundBy, oldPassword, pin, key, recovery)
    requires m.s.primaryName == before.primaryName
    requires tx.newKey.Some? ==> BlobsGood(m.s, key, pin, recovery)
    requires !m.crashed ==> Faithful(tx, before, m.s, undo.late, undo.lateAuth, oldPassword, key, recovery)
    requires tx.lockoutAuth.Some? ==> Len(tx.lockoutAuth.value) <= LOCKOUT_AUTH_LEN
    requires undo.at == m.now && undo.template == tx.faceStoreEnrolled && undo.lockout == tx.lockoutAuth.Some?
    requires !m.crashed && undo.late == Some(Template) ==> m.s.files.template == TemplateFile(undo.captured)
    modifies m`s, m`now, m`crashed, m`authCalls, m`refused, m`lateAuth
    ensures m.now >= old(m.now) && m.s.primaryName == before.primaryName
    ensures old(m.crashed) ==> m.crashed
    ensures Reached(before, m.s, m.boundBy, oldPassword, pin, key, recovery)
    ensures tx.lockoutAuth.None? ==> m.authCalls == old(m.authCalls)
    ensures m.s.lockoutAuth == if !old(m.crashed) && tx.lockoutAuth.Some? && ReleasedAt(m.world, undo.at, tx.newKey.Some?)
                               then EMPTY else old(m.s).lockoutAuth
    ensures m.s.credential == if !old(m.crashed) && tx.newKey.Some? && Moves(m.world(undo.at).verdict)
                              then before.credential else old(m.s).credential
    ensures m.refused == old(m.refused)
    ensures outcome.Stranded? && !m.crashed <==> !old(m.crashed) && tx.newKey.Some? && Fails(m.world(undo.at).verdict)
    ensures !m.crashed ==> OutcomeTrue(outcome, before, m.s, oldPassword, pin, key, face)
    ensures !outcome.Refused? && !outcome.Enrolled?
    ensures outcome.Stranded? ==> outcome.recovery == recovery
    ensures !old(m.crashed) && m.Calm(undo.at) ==> !m.crashed && outcome.RolledBack? && PutBack(before, m.s, undo)
    ensures !m.crashed && outcome.RolledBack? && undo.late.None? ==> NoBlobs(m.s.files)
  {
    hide Reached, Faithful, Unwound, FullyUnwound, BlobsGood, PutBack, OutcomeTrue, ReleasedAt;
    ghost var mid, died := m.s, m.crashed;
    if !died {
      FaithfulMatches(tx, before, mid, undo.late, undo.lateAuth, oldPassword, key, recovery);
    }
    var r := tx.RollBack(m, oldPassword);
    outcome := RolledBackAs(r, recovery);
    if !died {
      Unwinding(tx, before, mid, m.s, undo, r, m.crashed, m.boundBy, oldPassword, pin, key, recovery, face);
    }
  }

  /** The rollback of a faithful journal, all told. */
  lemma Unwinding(tx: Tx, before: State, mid: State, after: State, undo: Undo, r: Rollback, crashed: bool,
                  boundBy: Secret, oldPassword: Secret, pin: Secret, key: Secret, recovery: Secret, face: bool)
    requires NoBlobs(before.files) && Reached(before, mid, boundBy, oldPassword, pin, key, recovery)
    requires Faithful(tx, before, mid, undo.late, undo.lateAuth, oldPassword, key, recovery)
    requires mid.primaryName == before.primaryName
    requires undo.template == tx.faceStoreEnrolled && undo.lockout == tx.lockoutAuth.Some?
    requires undo.late == Some(Template) ==> mid.files.template == TemplateFile(undo.captured)
    requires tx.newKey.Some? ==> BlobsGood(mid, key, pin, recovery)
    requires Unwound(tx, mid, after, oldPassword, r, crashed)
    ensures Reached(before, after, boundBy, oldPassword, pin, key, recovery)
    ensures !crashed ==> OutcomeTrue(RolledBackAs(r, recovery), before, after, oldPassword, pin, key, face)
    ensures r.Restored? && undo.late.None? ==> NoBlobs(after.files)
    ensures after == FullyUnwound(tx, mid, oldPassword) ==> PutBack(before, after, undo)
  {
    hide Reached, Faithful, Unwound, FullyUnwound, BlobsGood, PutBack, OutcomeTrue;
    UnwoundIsReached(tx, before, mid, after, undo, r, crashed, boundBy, oldPassword, pin, key, recovery);
    FullyUnwoundIsPutBack(tx, before, mid, undo, oldPassword, key, recovery);
    if r.Restored? && undo.late.None? {
      RestoredHasNoBlobs(tx, before, mid, after, undo, crashed, oldPassword, key, recovery);
    }
    if !crashed {
      UnwoundOutcome(tx, before, mid, after, undo, r, oldPassword, pin, key, recovery, face);
    }
  }

  /** The run of a plan that starts at call `from` ended as the world has it: `undo` is what its answers make of it, and
      but for a rollback that meets a fault the end is decided. */
  ghost predicate Decided(w: nat -> Answer, from: nat, now: nat, crashed: bool, plan: seq<Step>, captured: seq<real>,
                          ok: bool, undo: Undo)
  {
    && from <= undo.at <= now && Ran(w, from, undo.at, plan, ok)
    && undo == UndoOf(w, from, undo.at, plan, ok, captured)
    && (ok ==> now == undo.at && !crashed)
    && (!ok && Dies(w(undo.at - 1).verdict) ==> crashed)
    && (!ok && !Dies(w(undo.at - 1).verdict) && (forall i: nat :: undo.at <= i ==> w(i).verdict.Done?) ==> !crashed)
  }

  /** The end of a transaction whose commit has stopped before call `undo.at`: success, or the rollback. */
  method Conclude(m: Host, ok: bool, tx: Tx, ghost before: State, oldPassword: Secret, ghost pin: Secret, ghost key: Secret,
                  recovery: Secret, ghost face: bool, ghost undo: Undo, ghost bind: nat)
    returns (outcome: Outcome)
    requires NoBlobs(before.files) && Reached(before, m.s, m.boundBy, oldPassword, pin, key, recovery)
    requires tx.newKey.Some? ==> BlobsGood(m.s, key, pin, recovery)
    requires !m.crashed ==> Faithful(tx, before, m.s, undo.late, undo.lateAuth, oldPassword, key, recovery)
    requires tx.lockoutAuth.Some? ==> tx.lockoutAuth.value == LockoutAuthOf(recovery)
    requires undo.at == m.now && undo.template == tx.faceStoreEnrolled && undo.lockout == tx.lockoutAuth.Some?
    requires !m.crashed && undo.late == Some(Template) ==> m.s.files.template == TemplateFile(undo.captured)
    requires ok ==> tx.newKey.Some? && !m.s.locked && Bound(before, m.s, recovery)
                    && (if face then FaceGood(m.s, key) && m.s.files.template != Absent else SameFace(before.files, m.s.files))
    requires m.s.primaryName == before.primaryName && m.now > 0 && (m.crashed <==> !ok && Dies(m.world(m.now - 1).verdict))
    requires m.s.lockoutAuth == BoundAuth(m.world, bind, m.now, before.lockoutAuth, recovery)
    requires tx.lockoutAuth.Some? <==> before.lockoutAuth == EMPTY && m.now >= bind + 2
    requires tx.newKey.Some? <==> m.now >= RekeyCall(bind, before.lockoutAuth) + 2
    requires m.s.credential == RekeyedTo(m.world, RekeyCall(bind, before.lockoutAuth), m.now, before.credential == oldPassword,
                                         before.credential, key)
    modifies m`s, m`now, m`crashed, m`authCalls, m`refused, m`lateAuth
    ensures m.now >= old(m.now) && (ok ==> m.now == undo.at) && m.refused == old(m.refused)
    ensures Reached(before, m.s, m.boundBy, oldPassword, pin, key, recovery)
    ensures tx.lockoutAuth.None? ==> m.authCalls == old(m.authCalls)
    ensures m.crashed <== old(m.crashed)
    ensures ok <==> outcome.Enrolled?
    ensures !outcome.Refused? && (ok ==> !m.crashed)
    ensures !m.crashed ==> OutcomeTrue(outcome, before, m.s, oldPassword, pin, key, face)
    ensures outcome.Enrolled? || outcome.Stranded? ==> outcome.recovery == recovery
    ensures !ok && !old(m.crashed) && m.Calm(undo.at) ==> !m.crashed && outcome.RolledBack? && PutBack(before, m.s, undo)
    ensures !m.crashed && outcome.RolledBack? && undo.late.None? ==> NoBlobs(m.s.files)
    ensures EndsWith(m.world, bind, undo.at, ok, before, m.s, before.credential == oldPassword, key, recovery)
    ensures Told(outcome, m.crashed) <==> ShowsSecret(m.world, RekeyCall(bind, before.lockoutAuth), undo.at, ok)
  {
    hide *;
    ghost var mid, died, rekey := m.s, m.crashed, RekeyCall(bind, before.lockoutAuth);
    if !died { FaithfulMatches(tx, before, mid, undo.late, undo.lateAuth, oldPassword, key, recovery); }
    LengthFits(recovery);
    RekeyAfterBind(bind, before.lockoutAuth);
    if ok {
      EnrolledOutcome(before, mid, oldPassword, pin, key, recovery, face);
      outcome := Enrolled(recovery);
    } else {
      outcome := Abandon(m, tx, before, oldPassword, pin, key, recovery, face, undo);
    }
    LockoutEnds(m.world, bind, undo.at, ok, before.lockoutAuth, recovery, mid.lockoutAuth, m.s.lockoutAuth);
    CredentialEnds(m.world, rekey, undo.at, ok, before.credential == oldPassword, before.credential, key, mid.credential,
      m.s.credential, tx.newKey.Some?);
    BothEnd(m.world, bind, undo.at, ok, before, m.s, before.credential == oldPassword, key, recovery);
    SecretTold(m.world, rekey, undo.at, ok, outcome, m.crashed);
  }

  lemma SecretTold(w: nat -> Answer, rekey: nat, at: nat, ok: bool, outcome: Outcome, crashed: bool)
    requires at > 0 && (ok <==> outcome.Enrolled?) && (ok ==> !crashed)
    requires !ok ==> (outcome.Stranded? && !crashed <==> !Dies(w(at - 1).verdict) && at >= rekey + 2 && Fails(w(at).verdict))
    ensures Told(outcome, crashed) <==> ShowsSecret(w, rekey, at, ok)
  {
  }

  lemma CalmIs(m: Host, from: nat)
    ensures m.Calm(from) <==> forall i: nat :: from <= i ==> m.world(i).verdict.Done?
    ensures m.Calm(from) ==> m.world(from).verdict.Done? && m.world(from + 1).verdict.Done? && m.world(from + 2).verdict.Done?
  {
  }

  /** Commit, and roll back what was done if that fails. `start` is where the enrollment began. */
  method Transact(m: Host, ghost start: State, oldPassword: Secret, pin: Secret, key: Secret, recovery: Secret, face: bool)
    returns (outcome: Outcome, ghost undo: Undo)
    requires !m.crashed && m.late.None? && !m.lateAuth && NoBlobs(m.s.files)
    requires m.s == start.(locked := m.s.locked)
    modifies m`s, m`now, m`crashed, m`late, m`writes, m`lateAuth, m`authCalls, m`refused, m`boundBy
    ensures m.now >= old(m.now) && m.s.primaryName == start.primaryName && m.refused == old(m.refused)
    ensures Reached(start, m.s, m.boundBy, oldPassword, pin, key, recovery)
    ensures m.boundBy == old(m.boundBy) || start.lockoutAuth == EMPTY
    ensures start.lockoutAuth != EMPTY ==> m.authCalls == old(m.authCalls)
    ensures !m.crashed ==> OutcomeTrue(outcome, start, m.s, oldPassword, pin, key, face)
    ensures !outcome.Refused?
    ensures outcome.Enrolled? || outcome.Stranded? ==> outcome.recovery == recovery
    ensures Decided(m.world, old(m.now), m.now, m.crashed,
                    CommitSteps(m.world, old(m.now), start, oldPassword, pin, key, recovery, face),
                    m.world(old(m.now) + 5).template, outcome.Enrolled?, undo)
    ensures !outcome.Enrolled? && !Dies(m.world(undo.at - 1).verdict) && m.Calm(undo.at) ==>
              outcome.RolledBack? && PutBack(start, m.s, undo)
    ensures !m.crashed && outcome.RolledBack? && undo.late.None? ==> NoBlobs(m.s.files)
    ensures EndsWith(m.world, old(m.now) + (if face then 13 else 6), undo.at, outcome.Enrolled?, start, m.s,
                     start.credential == oldPassword, key, recovery)
    ensures Told(outcome, m.crashed)
       <==> ShowsSecret(m.world, RekeyCall(old(m.now) + (if face then 13 else 6), start.lockoutAuth), undo.at, outcome.Enrolled?)
    ensures m.writes >= old(m.writes)
    ensures m.writes == old(m.writes) <==> !(undo.at >= old(m.now) + 2 && Lands(m.world(old(m.now) + 1).verdict))
    ensures (old(m.Calm(m.now)) && FullLengthDraws(m.world) && start.primaryName != ""
             && Len(key) == WRAPPED_KEY_LEN && 0 < Len(pin) <= MAX_PIN_LEN && start.credential == oldPassword) ==>
              outcome.Enrolled? && !m.crashed
  {
    hide *;
    ghost var before, from, w := m.s, m.now, m.world;
    ghost var plan, captured := CommitSteps(w, from, before, oldPassword, pin, key, recovery, face), w(from + 5).template;
    ghost var bind := from + if face then 13 else 6;
    var ok, tx := Commit(m, oldPassword, pin, key, recovery, face);
    LockNotPlanned(w, from, start, before, oldPassword, pin, key, recovery, face);
    ReportUndo(w, from, m.now, plan, ok, m.crashed, m.late, m.lateAuth, tx.faceStoreEnrolled, tx.lockoutAuth.Some?, captured);
    undo := UndoOf(w, from, m.now, plan, ok, captured);
    outcome := Conclude(m, ok, tx, before, oldPassword, pin, key, recovery, face, undo, bind);
    CalmIs(m, undo.at);
    IsDecided(w, from, undo.at, m.now, m.crashed, plan, captured, ok);
    LockIrrelevant(start, before, m.s, m.boundBy, undo, outcome, oldPassword, pin, key, recovery, face);
    EndsAsWell(w, bind, undo.at, ok, start, before, m.s, oldPassword, key, recovery);
  }

  lemma LengthFits(recovery: Secret)
    ensures Len(LockoutAuthOf(recovery)) <= LOCKOUT_AUTH_LEN
  {
  }

  lemma EndsAsWell(w: nat -> Answer, bind: nat, at: nat, ok: bool, start: State, before: State, s: State, oldPassword: Secret,
                   key: Secret, recovery: Secret)
    requires before == start.(locked := before.locked)
    requires EndsWith(w, bind, at, ok, before, s, before.credential == oldPassword, key, recovery)
    ensures EndsWith(w, bind, at, ok, start, s, start.credential == oldPassword, key, recovery)
  {
  }

  lemma IsDecided(w: nat -> Answer, from: nat, at: nat, now: nat, crashed: bool, plan: seq<Step>, captured: seq<real>, ok: bool)
    requires Ran(w, from, at, plan, ok) && at <= now && (ok ==> now == at && !crashed)
    requires !ok && Dies(w(at - 1).verdict) ==> crashed
    requires !ok && !Dies(w(at - 1).verdict) && (forall i: nat :: at <= i ==> w(i).verdict.Done?) ==> !crashed
    ensures Decided(w, from, now, crashed, plan, captured, ok, UndoOf(w, from, at, plan, ok, captured))
  {
  }

  /** What a run reports is what its answers make of it. */
  lemma ReportUndo(w: nat -> Answer, from: nat, to: nat, plan: seq<Step>, ok: bool, crashed: bool, late: Option<FileName>,
                   lateBind: bool, template: bool, bound: bool, captured: seq<real>)
    requires Report(w, from, to, plan, ok, crashed, late, lateBind, template, bound)
    ensures Ran(w, from, to, plan, ok) && (crashed <==> !ok && Dies(w(to - 1).verdict))
    ensures var undo := UndoOf(w, from, to, plan, ok, captured);
            && undo.at == to && undo.template == template && undo.lockout == bound && undo.captured == captured
            && (!crashed ==> undo.late == late && undo.lateAuth == lateBind)
  {
  }

  lemma LockNotPlanned(w: nat -> Answer, from: nat, start: State, before: State, oldPassword: Secret, pin: Secret, key: Secret,
                       recovery: Secret, face: bool)
    requires before == start.(locked := before.locked)
    ensures CommitSteps(w, from, before, oldPassword, pin, key, recovery, face)
         == CommitSteps(w, from, start, oldPassword, pin, key, recovery, face)
  {
  }

  /** Whether the keyring was locked at the start does not matter to any of this. */
  lemma LockIrrelevant(start: State, before: State, s: State, boundBy: Secret, undo: Undo, outcome: Outcome,
                       oldPassword: Secret, pin: Secret, key: Secret, recovery: Secret, face: bool)
    requires before == start.(locked := before.locked)
    ensures Reached(before, s, boundBy, oldPassword, pin, key, recovery) ==>
              Reached(start, s, boundBy, oldPassword, pin, key, recovery)
    ensures OutcomeTrue(outcome, before, s, oldPassword, pin, key, face) && !outcome.Refused? ==>
              OutcomeTrue(outcome, start, s, oldPassword, pin, key, face)
    ensures PutBack(before, s, undo) ==> PutBack(start, s, undo)
  {
  }

  /** The plan that `enroll` follows from a state it does not refuse, and how far the world lets it come. */
  ghost predicate EnrollDecided(w: nat -> Answer, from: nat, now: nat, crashed: bool, s: State, oldPassword: Secret,
                                pin: Secret, face: bool, ok: bool, undo: Undo)
  {
    Decided(w, from, now, crashed, EnrollSteps(w, from, s, oldPassword, pin, face), w(from + 8).template, ok, undo)
  }

  /** The three calls before the transaction, one of which failed. */
  lemma RefusedEarly(w: nat -> Answer, from: nat, k: nat, crashed: bool, s: State, oldPassword: Secret, pin: Secret, face: bool)
    returns (undo: Undo)
    requires k < 3 && (k > 0 ==> w(from).verdict.Done?) && (k > 1 ==> w(from + 1).verdict.Done?)
    requires !w(from + k).verdict.Done? && (crashed <==> Dies(w(from + k).verdict))
    ensures undo.at == from + k + 1
    ensures EnrollDecided(w, from, from + k + 1, crashed, s, oldPassword, pin, face, false, undo)
  {
    hide CommitSteps;
    var plan := EnrollSteps(w, from, s, oldPassword, pin, face);
    assert plan[0] == Plain && plan[1] == Plain && plan[2] == Plain;
    assert forall i :: 0 <= i < k ==> StepOk(w, from, plan, i);
    undo := UndoOf(w, from, from + k + 1, plan, false, w(from + 8).template);
  }

  /** The transaction that follows them. */
  lemma DecidedAfterDraws(w: nat -> Answer, from: nat, now: nat, crashed: bool, s: State, oldPassword: Secret, pin: Secret,
                          face: bool, ok: bool, undo: Undo)
    requires w(from).verdict.Done? && w(from + 1).verdict.Done? && w(from + 2).verdict.Done?
    requires Decided(w, from + 3, now, crashed,
                     CommitSteps(w, from + 3, s, oldPassword, pin, w(from + 1).secret, w(from + 2).secret, face),
                     w(from + 8).template, ok, undo)
    ensures EnrollDecided(w, from, now, crashed, s, oldPassword, pin, face, ok, undo) && from + 3 < undo.at <= now
  {
    hide CommitSteps, StepOk, Ran, LateFile, LateBind;
    var p := [Plain, Plain, Plain];
    var q := CommitSteps(w, from + 3, s, oldPassword, pin, w(from + 1).secret, w(from + 2).secret, face);
    CommitStartsWithWrap(w, from + 3, s, oldPassword, pin, w(from + 1).secret, w(from + 2).secret, face);
    ThreeRan(w, from);
    RanWithin(w, from + 3, undo.at, q, ok);
    Continues(w, from, undo.at, p, q, ok, !ok && Dies(w(undo.at - 1).verdict));
    assert Store(Template) !in p && BindAuth !in p;
  }

  lemma CommitStartsWithWrap(w: nat -> Answer, from: nat, s: State, oldPassword: Secret, pin: Secret, key: Secret,
                             recovery: Secret, face: bool)
    ensures var q := CommitSteps(w, from, s, oldPassword, pin, key, recovery, face);
            q != [] && q[0] == WrapKey(key, recovery)
  {
  }

  lemma ThreeRan(w: nat -> Answer, from: nat)
    requires w(from).verdict.Done? && w(from + 1).verdict.Done? && w(from + 2).verdict.Done?
    ensures Ran(w, from, from + 3, [Plain, Plain, Plain], true)
  {
  }

  lemma RanWithin(w: nat -> Answer, from: nat, to: nat, plan: seq<Step>, ok: bool)
    requires Ran(w, from, to, plan, ok)
    ensures from <= to <= from + |plan| && (ok || from < to) && (plan != [] ==> from < to)
  {
  }

  /** Before the transaction: the old credential is offered, and the key and the recovery secret are drawn. */
  method UnlockAndDraw(m: Host, oldPassword: Secret, ghost pin: Secret, ghost face: bool)
    returns (r: Option<(Secret, Secret)>, ghost undo: Undo)
    requires !m.crashed
    modifies m`s, m`now, m`crashed, m`secrets
    ensures m.secrets == old(m.secrets) + if r.Some? then {r.value.1} else {}
    ensures m.s == old(m.s).(locked := m.s.locked)
    ensures OutcomeTrue(Refused, old(m.s), m.s, oldPassword, pin, EMPTY, face)
    ensures r.Some? ==> !m.crashed && m.now == old(m.now) + 3
                        && r.value == (m.world(old(m.now) + 1).secret, m.world(old(m.now) + 2).secret)
    ensures r.Some? <==> m.world(old(m.now)).verdict.Done? && m.world(old(m.now) + 1).verdict.Done?
                         && m.world(old(m.now) + 2).verdict.Done?
    ensures r.None? ==> m.now == undo.at && old(m.now) < undo.at <= old(m.now) + 3
                        && EnrollDecided(m.world, old(m.now), m.now, m.crashed, old(m.s), oldPassword, pin, face, false, undo)
  {
    hide EnrollDecided;
    ghost var start, w, from := m.s, m.world, m.now;
    undo := Undo(from, false, false, None, false, []);
    var accepted := m.Unlock(oldPassword);
    if !accepted {
      undo := RefusedEarly(w, from, 0, m.crashed, start, oldPassword, pin, face);
      return None, undo;
    }
    var key := m.Ask();
    if key.None? {
      undo := RefusedEarly(w, from, 1, m.crashed, start, oldPassword, pin, face);
      return None, undo;
    }
    var recovery := m.Ask();
    if recovery.None? {
      undo := RefusedEarly(w, from, 2, m.crashed, start, oldPassword, pin, face);
      return None, undo;
    }
    m.secrets := m.secrets + {recovery.value.secret};
    r := Some((key.value.secret, recovery.value.secret));
  }

  /** The lock of the keyring has no part in what is worth keeping. */
  lemma LockIsSafe(before: State, s: State, boundBy: Secret, passwords: set<Secret>, pins: set<Secret>, secrets: set<Secret>)
    requires s == before.(locked := s.locked)
    ensures StaysSafe(before, boundBy, s, boundBy, passwords, pins, secrets)
  {
  }

  lemma MorePins(s: State, passwords: set<Secret>, pins: set<Secret>, secrets: set<Secret>, pin: Secret)
    ensures NobodyLockedOut(s, passwords, pins, secrets) ==> NobodyLockedOut(s, passwords, pins + {pin}, secrets)
  {
  }

  /** Without blobs only a password leads in, so whoever was in at the start still is. */
  lemma SafeFromTheStart(before: State, boundBefore: Secret, s: State, boundBy: Secret, passwords: set<Secret>,
                         pinsBefore: set<Secret>, secretsBefore: set<Secret>, pins: set<Secret>, secrets: set<Secret>)
    requires NoBlobs(before.files) && StaysSafe(before, boundBefore, s, boundBy, passwords, pins, secrets)
    ensures NobodyLockedOut(before, passwords, pinsBefore, secretsBefore) ==> NobodyLockedOut(s, passwords, pins, secrets)
    ensures RecoverableState(before, passwords, secretsBefore) ==> RecoverableState(s, passwords, secrets)
    ensures MarkerTrue(before, boundBefore) ==> MarkerTrue(s, boundBy)
    ensures before.lockoutAuth != EMPTY ==>
              s.lockoutAuth == before.lockoutAuth && s.files.lockoutOwned == before.files.lockoutOwned
    ensures s.files.lockoutOwned == Absent && before.files.lockoutOwned != Absent ==> s.lockoutAuth == EMPTY
  {
  }

  /** All that the world and the machine at the start decide of an enrollment that is not refused outright: how far it
      comes, whether the user is told the recovery secret, where credential and lockout authValue end, that a new
      credential is the key drawn, with both blobs leading to it, and whether anything reaches the disk. */
  ghost predicate Settled(w: nat -> Answer, from: nat, start: State, oldPassword: Secret, pin: Secret, face: bool,
                          outcome: Outcome, undo: Undo, now: nat, crashed: bool, s: State, wrote: bool)
  {
    var bind, key, recovery := BindCall(from, face), w(from + 1).secret, w(from + 2).secret;
    && from < undo.at && EnrollDecided(w, from, now, crashed, start, oldPassword, pin, face, outcome.Enrolled?, undo)
    && (outcome.Refused? <==> undo.at <= from + 3)
    && (outcome.Enrolled? || outcome.Stranded? ==> outcome.recovery == recovery)
    && (Told(outcome, crashed) <==> ShowsSecret(w, RekeyCall(bind, start.lockoutAuth), undo.at, outcome.Enrolled?))
    && EndsWith(w, bind, undo.at, outcome.Enrolled?, start, s, start.credential == oldPassword, key, recovery)
    && (s.credential == start.credential || BlobsGood(s, key, pin, recovery))
    && (wrote <==> undo.at >= from + 5 && Lands(w(from + 4).verdict))
  }

  /** Refused before the transaction began. */
  lemma SettledEarly(w: nat -> Answer, from: nat, start: State, oldPassword: Secret, pin: Secret, face: bool, undo: Undo,
                     now: nat, crashed: bool, s: State)
    requires from < undo.at <= from + 3 && s == start.(locked := s.locked)
    requires EnrollDecided(w, from, now, crashed, start, oldPassword, pin, face, false, undo)
    ensures Settled(w, from, start, oldPassword, pin, face, Refused, undo, now, crashed, s, false)
  {
    hide EnrollDecided, EndsWith, ShowsSecret;
    NeverStarted(w, BindCall(from, face), undo.at, start, s, start.credential == oldPassword, w(from + 1).secret,
      w(from + 2).secret);
  }

  /** As the transaction left it. */
  lemma SettledAfter(w: nat -> Answer, from: nat, start: State, oldPassword: Secret, pin: Secret, face: bool, outcome: Outcome,
                     undo: Undo, now: nat, crashed: bool, s: State, boundBy: Secret, wrote: bool)
    requires w(from).verdict.Done? && w(from + 1).verdict.Done? && w(from + 2).verdict.Done?
    requires Decided(w, from + 3, now, crashed,
                     CommitSteps(w, from + 3, start, oldPassword, pin, w(from + 1).secret, w(from + 2).secret, face),
                     w(from + 8).template, outcome.Enrolled?, undo)
    requires !outcome.Refused? && (outcome.Enrolled? || outcome.Stranded? ==> outcome.recovery == w(from + 2).secret)
    requires Reached(start, s, boundBy, oldPassword, pin, w(from + 1).secret, w(from + 2).secret)
    requires EndsWith(w, from + 3 + (if face then 13 else 6), undo.at, outcome.Enrolled?, start, s,
                      start.credential == oldPassword, w(from + 1).secret, w(from + 2).secret)
    requires Told(outcome, crashed)
        <==> ShowsSecret(w, RekeyCall(from + 3 + (if face then 13 else 6), start.lockoutAuth), undo.at, outcome.Enrolled?)
    requires wrote <==> undo.at >= from + 5 && Lands(w(from + 4).verdict)
    ensures Settled(w, from, start, oldPassword, pin, face, outcome, undo, now, crashed, s, wrote)
  {
    hide EnrollDecided, Decided, EndsWith, ShowsSecret, Lands, CommitSteps, Told, BlobsGood, LockoutReached;
    DecidedAfterDraws(w, from, now, crashed, start, oldPassword, pin, face, outcome.Enrolled?, undo);
  }

  /** What an attempt does, refused or not: the contract of `Enroll` for a machine without blobs. */
  method Attempt(m: Host, oldPassword: Secret, pin: Secret, face: bool)
    returns (outcome: Outcome, ghost key: Secret, ghost undo: Undo)
    requires !m.crashed && m.late.None? && !m.lateAuth && NoBlobs(m.s.files) && pin in m.pins
    modifies m`s, m`now, m`crashed, m`late, m`writes, m`lateAuth, m`authCalls, m`refused, m`boundBy, m`secrets
    ensures m.now >= old(m.now) && m.s.primaryName == old(m.s).primaryName && m.secrets >= old(m.secrets)
    ensures m.refused == old(m.refused) && m.writes >= old(m.writes)
    ensures StaysSafe(old(m.s), old(m.boundBy), m.s, m.boundBy, m.passwords, m.pins, m.secrets)
    ensures old(m.s).lockoutAuth != EMPTY ==> m.authCalls == old(m.authCalls)
    ensures !m.crashed ==> OutcomeTrue(outcome, old(m.s), m.s, oldPassword, pin, key, face)
    ensures outcome.Enrolled? || outcome.Stranded? ==> outcome.recovery in m.secrets
    ensures Settled(m.world, old(m.now), old(m.s), oldPassword, pin, face, outcome, undo, m.now, m.crashed, m.s,
                    m.writes > old(m.writes))
    ensures !outcome.Refused? && !outcome.Enrolled? && !Dies(m.world(undo.at - 1).verdict) && m.Calm(undo.at) ==>
              outcome.RolledBack? && PutBack(old(m.s), m.s, undo)
    ensures !m.crashed && outcome.RolledBack? && undo.late.None? ==> NoBlobs(m.s.files)
    ensures (old(m.Calm(m.now)) && FullLengthDraws(m.world) && old(m.s).primaryName != ""
             && 0 < Len(pin) <= MAX_PIN_LEN && old(m.s).credential == oldPassword) ==> outcome.Enrolled? && !m.crashed
  {
    hide *;
    ghost var start, boundBefore, w, from := m.s, m.boundBy, m.world, m.now;
    key := EMPTY;
    CalmIs(m, from);
    CalmLater(m, from, from + 3);
    FullDraws(w, from);
    var drawn;
    drawn, undo := UnlockAndDraw(m, oldPassword, pin, face);
    LockIsSafe(start, m.s, boundBefore, m.passwords, m.pins, m.secrets);
    if drawn.None? {
      SettledEarly(w, from, start, oldPassword, pin, face, undo, m.now, m.crashed, m.s);
      return Refused, key, undo;
    }
    key := drawn.value.0;
    var recovery := drawn.value.1;
    outcome, undo := Transact(m, start, oldPassword, pin, drawn.value.0, recovery, face);
    SettledAfter(w, from, start, oldPassword, pin, face, outcome, undo, m.now, m.crashed, m.s, m.boundBy,
      m.writes > old(m.writes));
    ReachedIsSafe(start, m.s, boundBefore, m.boundBy, oldPassword, pin, key, recovery, m.passwords, m.pins, m.secrets);
  }

  lemma FullDraws(w: nat -> Answer, from: nat)
    ensures FullLengthDraws(w) ==> Len(w(from + 1).secret) == WRAPPED_KEY_LEN
  {
  }

  /** The user has supplied a PIN; nothing has been left behind yet. */
  ghost method Begin(m: Host, pin: Secret)
    modifies m`pins, m`late, m`lateAuth
    ensures m.pins == old(m.pins) + {pin} && m.late == None && !m.lateAuth
  {
    m.pins := m.pins + {pin};
    m.late, m.lateAuth := None, false;
  }

  /** Run the enrollment. For every environment: nobody is locked out, whatever fails and wherever the
      process dies; the outcome tells which credential the keyring has; a foreign lockout hierarchy is
      left alone; how far it comes is decided by the world and the machine at the start; and a rollback that meets no
      fault restores the machine. */
  method Enroll(m: Host, oldPassword: Secret, pin: Secret, face: bool)
    returns (outcome: Outcome, ghost key: Secret, ghost undo: Undo)
    requires !m.crashed
    modifies m`s, m`now, m`crashed, m`late, m`writes, m`lateAuth, m`authCalls, m`refused, m`boundBy, m`pins, m`secrets, m`shown
    ensures m.now >= old(m.now) && m.s.primaryName == old(m.s).primaryName
    ensures m.pins == old(m.pins) + {pin} && m.secrets >= old(m.secrets) && m.writes >= old(m.writes)
    ensures m.refused == old(m.refused)
    // safety at every step
    ensures old(m.Safe()) ==> m.Safe()
    ensures old(m.Recoverable()) ==> m.Recoverable()
    ensures old(m.Owned()) ==> m.Owned()
    ensures old(m.s).lockoutAuth != EMPTY ==>
              m.authCalls == old(m.authCalls) && m.s.lockoutAuth == old(m.s).lockoutAuth
              && m.s.files.lockoutOwned == old(m.s).files.lockoutOwned
    ensures m.s.files.lockoutOwned == Absent && old(m.s).files.lockoutOwned != Absent ==> m.s.lockoutAuth == EMPTY
    // an enrollment is never overwritten
    ensures Len(pin) == 0 || !NoBlobs(old(m.s).files) ==>
              outcome.Refused? && m.s == old(m.s) && !m.crashed && m.now == old(m.now) && m.writes == old(m.writes)
    // what the outcome means
    ensures !m.crashed ==> OutcomeTrue(outcome, old(m.s), m.s, oldPassword, pin, key, face)
    ensures outcome.Enrolled? || outcome.Stranded? ==>
              outcome.recovery in m.secrets && outcome.recovery == m.world(old(m.now) + 2).secret
    ensures m.shown == old(m.shown) + if Told(outcome, m.crashed) then {outcome.recovery} else {}
    // all or nothing
    ensures Len(pin) > 0 && NoBlobs(old(m.s).files) ==>
              Settled(m.world, old(m.now), old(m.s), oldPassword, pin, face, outcome, undo, m.now, m.crashed, m.s,
                      m.writes > old(m.writes))
    ensures !outcome.Refused? && !outcome.Enrolled? && !Dies(m.world(undo.at - 1).verdict) && m.Calm(undo.at) ==>
              outcome.RolledBack? && PutBack(old(m.s), m.s, undo)
    ensures !m.crashed && outcome.RolledBack? && undo.late.None? ==> NoBlobs(m.s.files)
    ensures (old(m.Calm(m.now)) && FullLengthDraws(m.world) && old(m.s).primaryName != ""
             && 0 < Len(pin) <= MAX_PIN_LEN && old(NoBlobs(m.s.files)) && old(m.s).credential == oldPassword) ==>
              outcome.Enrolled? && !m.crashed
  {
    hide *;
    ghost var start, from, writes := m.s, m.now, m.writes;
    ghost var passwords, pins, secrets, owner := m.passwords, m.pins, m.secrets, m.boundBy;
    CalmIs(m, m.now);
    SafetyIs(m);
    MorePins(m.s, m.passwords, m.pins, m.secrets, pin);
    Begin(m, pin);
    var f := m.s.files;
    NoBlobsIs(f);
    if Len(pin) == 0
       || f.metadata != Absent || f.recovery != Absent || f.metadataFace != Absent || f.faceKey != Absent {
      RefusedIsTrue(m.s, oldPassword, pin, face);
      SafetyIs(m);
      return Refused, EMPTY, Undo(m.now, false, false, None, false, []);
    }
    outcome, key, undo := Attempt(m, oldPassword, pin, face);
    WhatIsTold(m.world, from, start, oldPassword, pin, face, outcome, undo, m.now, m.crashed, m.s, m.writes > writes);
    if !m.crashed && (outcome.Enrolled? || outcome.Stranded?) {
      m.shown := m.shown + {outcome.recovery};
    }
    SafeFromTheStart(start, owner, m.s, m.boundBy, passwords, pins, secrets, m.pins, m.secrets);
    SafetyIs(m);
  }

  lemma WhatIsTold(w: nat -> Answer, from: nat, start: State, oldPassword: Secret, pin: Secret, face: bool,
                   outcome: Outcome, undo: Undo, now: nat, crashed: bool, s: State, wrote: bool)
    requires Settled(w, from, start, oldPassword, pin, face, outcome, undo, now, crashed, s, wrote)
    ensures outcome.Enrolled? || outcome.Stranded? ==> outcome.recovery == w(from + 2).secret
    ensures Told(outcome, crashed) <==> !crashed && (outcome.Enrolled? || outcome.Stranded?)
  {
  }

  lemma SafetyIs(m: Host)
    ensures m.Safe() <==> NobodyLockedOut(m.s, m.passwords, m.pins, m.secrets)
    ensures m.Recoverable() <==> RecoverableState(m.s, m.passwords, m.secrets)
    ensures m.Owned() <==> MarkerTrue(m.s, m.boundBy)
  {
  }

  lemma NoBlobsIs(f: Files)
    ensures NoBlobs(f) <==> f.metadata == Absent && f.recovery == Absent && f.metadataFace == Absent && f.faceKey == Absent
  {
  }

  lemma RefusedIsTrue(s: State, oldPassword: Secret, pin: Secret, face: bool)
    ensures OutcomeTrue(Refused, s, s, oldPassword, pin, EMPTY, face) && !Told(Refused, false)
  {
  }
}
