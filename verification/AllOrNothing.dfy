/** All or nothing: from the world and the machine at the start alone, what an enrollment that does not succeed leaves
    behind, and when that is exactly nothing. */
module AllOrNothing {
  import opened Faults
  import opened Wrappers
  import opened Secrets
  import opened Hosts
  import opened Plans
  import opened Enroll

  /** After call `i`, which is not the last of its process, no call meets a fault. */
  ghost predicate CalmAfter(w: nat -> Answer, i: nat) {
    !Dies(w(i).verdict) && forall j: nat :: i < j ==> w(j).verdict.Done?
  }

  /** What a faultless rollback from failed step `k` can put back exactly: the failed step did not bind the lockout
      authValue, nor leave a blob in place (a late template only if it is the one that stood there); and neither an older
      template nor a leftover marker was replaced before it. */
  ghost predicate Reversible(w: nat -> Answer, from: nat, plan: seq<Step>, k: nat, files: Files)
    requires k < |plan|
  {
    && (w(from + k).verdict.FailLate? ==>
          && !plan[k].BindAuth?
          && (plan[k].Store? && plan[k].name != LockoutOwned ==>
                plan[k].name == Template && files.template == TemplateFile(w(from + 8).template)))
    && (Store(Template) in plan[..k] ==> files.template == Absent)
    && (BindAuth in plan[..k] ==> files.lockoutOwned == Absent)
  }

  /** The plan of an enrollment that the machine `s` does not refuse outright. */
  ghost predicate Open(s: State, pin: Secret) {
    Len(pin) > 0 && NoBlobs(s.files)
  }

  /** When exactly a rolled-back enrollment has left everything as it was. */
  lemma ExactlyAsBefore(w: nat -> Answer, from: nat, plan: seq<Step>, k: nat, before: State, after: State)
    requires k < |plan| && NoBlobs(before.files) && FailsAt(w, from, plan, k)
    requires plan[k].Store? && plan[k].name == LockoutOwned ==> BindAuth in plan[..k]
    requires plan[k] == Store(Template) ==> Store(Template) !in plan[..k]
    requires PutBack(before, after, UndoOf(w, from, from + k + 1, plan, false, w(from + 8).template))
    ensures after == before.(locked := after.locked) <==> Reversible(w, from, plan, k, before.files)
  {
    hide StepOk;
    var undo := UndoOf(w, from, from + k + 1, plan, false, w(from + 8).template);
    var f, g := before.files, after.files;
    assert undo.late == if w(from + k).verdict.FailLate? && plan[k].Store? then Some(plan[k].name) else None;
    assert undo.template == (Store(Template) in plan[..k]) && undo.lockout == (BindAuth in plan[..k]);
    if Reversible(w, from, plan, k, f) {
      assert g == f;
    }
    assert undo.late == Some(Recovery) ==> g.recovery != f.recovery;
    assert undo.late == Some(Metadata) ==> g.metadata != f.metadata;
    assert undo.late == Some(MetadataFace) ==> g.metadataFace != f.metadataFace;
    assert undo.late == Some(FaceKey) ==> g.faceKey != f.faceKey;
    assert undo.template && f.template != Absent && undo.late != Some(Template) ==> g.template != f.template;
    assert undo.lockout && f.lockoutOwned != Absent ==> g.lockoutOwned != f.lockoutOwned;
  }

  /** The marker is stored after the bind, and the template once. */
  lemma PlanOrder(w: nat -> Answer, from: nat, s: State, oldPassword: Secret, pin: Secret, face: bool, k: nat)
    requires k < |EnrollSteps(w, from, s, oldPassword, pin, face)|
    ensures var plan := EnrollSteps(w, from, s, oldPassword, pin, face);
            && (plan[k] == Store(LockoutOwned) ==> BindAuth in plan[..k])
            && (plan[k] == Store(Template) ==> Store(Template) !in plan[..k])
            && (!face ==> Store(Template) !in plan)
  {
    TemplateOnce(w, from, s, oldPassword, pin, face);
    MarkerAfterBind(w, from, s, oldPassword, pin, face);
    hide EnrollSteps;
    var plan := EnrollSteps(w, from, s, oldPassword, pin, face);
    if plan[k] == Store(LockoutOwned) { assert plan[..k][k - 1] == BindAuth; }
  }

  lemma TemplateOnce(w: nat -> Answer, from: nat, s: State, oldPassword: Secret, pin: Secret, face: bool)
    ensures var plan := EnrollSteps(w, from, s, oldPassword, pin, face);
            forall i :: 0 <= i < |plan| && plan[i] == Store(Template) ==> face && i == 14
  {
  }

  lemma MarkerAfterBind(w: nat -> Answer, from: nat, s: State, oldPassword: Secret, pin: Secret, face: bool)
    ensures var plan := EnrollSteps(w, from, s, oldPassword, pin, face);
            forall i :: 0 <= i < |plan| && plan[i] == Store(LockoutOwned) ==> i > 0 && plan[i - 1] == BindAuth
  {
    var blobs := [Plain, Plain, Plain] + BlobSteps(w, from + 3, w(from + 1).secret, w(from + 2).secret, pin, s.primaryName, face);
    var machine := MachineSteps(s.lockoutAuth != EMPTY, s.credential == oldPassword);
    BlobsBeforeMarker(w, from + 3, w(from + 1).secret, w(from + 2).secret, pin, s.primaryName, face);
    MarkerSecond(s.lockoutAuth != EMPTY, s.credential == oldPassword);
    hide BlobSteps, MachineSteps, EnrollSteps;
    assert Store(LockoutOwned) !in blobs;
    LateMarker(blobs, machine);
    EnrollParts(w, from, s, oldPassword, pin, face);
    hide *;
  }

  lemma EnrollParts(w: nat -> Answer, from: nat, s: State, oldPassword: Secret, pin: Secret, face: bool)
    ensures EnrollSteps(w, from, s, oldPassword, pin, face)
         == ([Plain, Plain, Plain] + BlobSteps(w, from + 3, w(from + 1).secret, w(from + 2).secret, pin, s.primaryName, face))
            + MachineSteps(s.lockoutAuth != EMPTY, s.credential == oldPassword)
  {
    hide BlobSteps, MachineSteps;
  }

  lemma LateMarker(p: seq<Step>, q: seq<Step>)
    requires Store(LockoutOwned) !in p
    requires forall i :: 0 <= i < |q| && q[i] == Store(LockoutOwned) ==> i > 0 && q[i - 1] == BindAuth
    ensures forall i :: 0 <= i < |p + q| && (p + q)[i] == Store(LockoutOwned) ==> i > 0 && (p + q)[i - 1] == BindAuth
  {
  }

  lemma BlobsBeforeMarker(w: nat -> Answer, from: nat, key: Secret, recovery: Secret, pin: Secret, primaryName: string, face: bool)
    ensures Store(LockoutOwned) !in BlobSteps(w, from, key, recovery, pin, primaryName, face)
  {
    hide SealSteps, RecoverySteps, FaceSteps;
    NoMarker(key, recovery, pin, w(from + 6).secret, primaryName);
  }

  lemma NoMarker(key: Secret, recovery: Secret, pin: Secret, aFace: Secret, primaryName: string)
    ensures Store(LockoutOwned) !in RecoverySteps(key, recovery) && Store(LockoutOwned) !in SealSteps(key, pin, primaryName)
    ensures Store(LockoutOwned) !in FaceSteps(key, aFace, primaryName)
  {
  }

  lemma MarkerSecond(foreign: bool, right: bool)
    ensures var machine := MachineSteps(foreign, right);
            forall i :: 0 <= i < |machine| && machine[i] == Store(LockoutOwned) ==> i > 0 && machine[i - 1] == BindAuth
  {
  }

  /** The end of a run whose step `k` is the first to fail and the last to meet a fault. */
  ghost predicate Foretold(w: nat -> Answer, from: nat, plan: seq<Step>, k: nat, before: State, outcome: Outcome, after: State)
    requires k < |plan|
  {
    if k < 3 then outcome.Refused? && after == before.(locked := after.locked)
    else outcome.RolledBack? && (after == before.(locked := after.locked) <==> Reversible(w, from, plan, k, before.files))
  }

  /** `enroll` as its caller may foresee it: it succeeds exactly when no step fails; and when one does and no fault
      follows, it refuses or rolls back, and what it leaves behind is nothing exactly when the failure was reversible.
      Nothing reaches the disk exactly when the run ends before its first save, or that save does nothing. */
  method EnrollForeseen(m: Host, oldPassword: Secret, pin: Secret, face: bool) returns (outcome: Outcome)
    requires !m.crashed && Open(m.s, pin)
    modifies m`s, m`now, m`crashed, m`late, m`writes, m`lateAuth, m`authCalls, m`refused, m`boundBy, m`pins, m`secrets, m`shown
    ensures var plan := EnrollSteps(m.world, old(m.now), old(m.s), oldPassword, pin, face);
            && (outcome.Enrolled? <==> !exists k :: FailsAt(m.world, old(m.now), plan, k))
            && (forall k :: FailsAt(m.world, old(m.now), plan, k) && CalmAfter(m.world, old(m.now) + k) ==>
                  !m.crashed && Foretold(m.world, old(m.now), plan, k, old(m.s), outcome, m.s))
    ensures outcome.Enrolled? ==> !m.crashed && old(m.s).credential == oldPassword
    ensures m.writes >= old(m.writes) && (m.writes == old(m.writes) <==> !FirstSaveLands(m.world, old(m.now)))
  {
    hide EnrollSteps, PutBack, EnrollDecided, StepOk, Foretold, FirstSaveLands, Reversible, NoBlobs;
    ghost var w, from, before := m.world, m.now, m.s;
    ghost var key, undo;
    outcome, key, undo := Enroll.Enroll(m, oldPassword, pin, face);
    hide OutcomeTrue;
    RunDecides(w, from, m.now, m.crashed, before, oldPassword, pin, face, outcome.Enrolled?, undo);
    ghost var plan := EnrollSteps(w, from, before, oldPassword, pin, face);
    forall k | FailsAt(w, from, plan, k) && CalmAfter(w, from + k)
      ensures !m.crashed && Foretold(w, from, plan, k, before, outcome, m.s)
    {
      RunForetold(w, from, m.now, m.crashed, before, oldPassword, pin, face, outcome, undo, key, m.s, k);
    }
  }

  /** Whether a step fails, and whether the first save comes, decides the run and is decided by the world. */
  lemma RunDecides(w: nat -> Answer, from: nat, now: nat, crashed: bool, s: State, oldPassword: Secret, pin: Secret, face: bool,
                   ok: bool, undo: Undo)
    requires EnrollDecided(w, from, now, crashed, s, oldPassword, pin, face, ok, undo)
    ensures ok ==> !crashed
    ensures ok <==> !exists k :: FailsAt(w, from, EnrollSteps(w, from, s, oldPassword, pin, face), k)
    ensures undo.at >= from + 5 && Lands(w(from + 4).verdict) <==> FirstSaveLands(w, from)
  {
    hide StepOk;
    var plan := EnrollSteps(w, from, s, oldPassword, pin, face);
    RanTo(w, from, undo.at, plan, ok);
    if !ok { assert FailsAt(w, from, plan, undo.at - from - 1); }
    FirstFive(w, from, s, oldPassword, pin, face);
    var first := StepOk(w, from, plan, 0) && StepOk(w, from, plan, 1) && StepOk(w, from, plan, 2) && StepOk(w, from, plan, 3);
    assert first <==> undo.at >= from + 5;
    assert first <==> w(from).verdict.Done? && w(from + 1).verdict.Done? && w(from + 2).verdict.Done?
                      && Succeeds(WrapKey(w(from + 1).secret, w(from + 2).secret), w(from + 3), w(from + 2));
  }

  lemma FirstFive(w: nat -> Answer, from: nat, s: State, oldPassword: Secret, pin: Secret, face: bool)
    ensures var plan := EnrollSteps(w, from, s, oldPassword, pin, face);
            && |plan| > 5
            && (StepOk(w, from, plan, 0) <==> w(from).verdict.Done?)
            && (StepOk(w, from, plan, 1) <==> w(from + 1).verdict.Done?)
            && (StepOk(w, from, plan, 2) <==> w(from + 2).verdict.Done?)
            && (StepOk(w, from, plan, 3)
                <==> Succeeds(WrapKey(w(from + 1).secret, w(from + 2).secret), w(from + 3), w(from + 2)))
            && (StepOk(w, from, plan, 4) <==> w(from + 4).verdict.Done?)
  {
    var plan := EnrollSteps(w, from, s, oldPassword, pin, face);
    assert plan[0] == plan[1] == plan[2] == Plain;
    assert plan[3] == WrapKey(w(from + 1).secret, w(from + 2).secret) && plan[4] == Store(Recovery);
  }

  lemma RunForetold(w: nat -> Answer, from: nat, now: nat, crashed: bool, before: State, oldPassword: Secret, pin: Secret,
                    face: bool, outcome: Outcome, undo: Undo, key: Secret, after: State, k: nat)
    requires NoBlobs(before.files)
    requires EnrollDecided(w, from, now, crashed, before, oldPassword, pin, face, outcome.Enrolled?, undo)
    requires outcome.Refused? <==> undo.at <= from + 3
    requires !crashed ==> OutcomeTrue(outcome, before, after, oldPassword, pin, key, face)
    requires !outcome.Refused? && !outcome.Enrolled? && CalmAfter(w, undo.at - 1) ==>
               outcome.RolledBack? && PutBack(before, after, undo)
    requires FailsAt(w, from, EnrollSteps(w, from, before, oldPassword, pin, face), k) && CalmAfter(w, from + k)
    ensures !crashed
    ensures Foretold(w, from, EnrollSteps(w, from, before, oldPassword, pin, face), k, before, outcome, after)
  {
    hide StepOk, PutBack, EnrollSteps, Reversible;
    var plan := EnrollSteps(w, from, before, oldPassword, pin, face);
    RanTo(w, from, undo.at, plan, outcome.Enrolled?);
    PlanOrder(w, from, before, oldPassword, pin, face, k);
    if k >= 3 { ExactlyAsBefore(w, from, plan, k, before, after); }
  }

  /** The recovery blob, first of the files, is put in place. */
  ghost predicate FirstSaveLands(w: nat -> Answer, from: nat) {
    && w(from).verdict.Done? && w(from + 1).verdict.Done? && w(from + 2).verdict.Done?
    && Succeeds(WrapKey(w(from + 1).secret, w(from + 2).secret), w(from + 3), w(from + 2))
    && Lands(w(from + 4).verdict)
  }

  /** Nothing that an enrollment replaces stands in its way. */
  ghost predicate Fresh(files: Files, face: bool) {
    files.lockoutOwned == Absent && (face ==> files.template == Absent)
  }

  lemma FreshIsReversible(w: nat -> Answer, from: nat, s: State, oldPassword: Secret, pin: Secret, face: bool, k: nat)
    requires k < |EnrollSteps(w, from, s, oldPassword, pin, face)| && Fresh(s.files, face)
    requires !w(from + k).verdict.FailLate?
    ensures Reversible(w, from, EnrollSteps(w, from, s, oldPassword, pin, face), k, s.files)
  {
    PlanOrder(w, from, s, oldPassword, pin, face, k);
  }

  /** When every step takes effect or fails, and no fault follows the first failure, a fresh machine is left exactly as
      it was. */
  method AtomicSteps(m: Host, oldPassword: Secret, pin: Secret, face: bool) returns (outcome: Outcome)
    requires !m.crashed && Open(m.s, pin) && Fresh(m.s.files, face)
    requires forall i: nat :: !m.world(i).verdict.FailLate?
    modifies m`s, m`now, m`crashed, m`late, m`writes, m`lateAuth, m`authCalls, m`refused, m`boundBy, m`pins, m`secrets, m`shown
    ensures forall k :: FailsAt(m.world, old(m.now), EnrollSteps(m.world, old(m.now), old(m.s), oldPassword, pin, face), k)
                        && CalmAfter(m.world, old(m.now) + k) ==>
              !m.crashed && !outcome.Enrolled? && m.s == old(m.s).(locked := m.s.locked)
  {
    hide EnrollSteps, StepOk, Reversible;
    ghost var w, from, before := m.world, m.now, m.s;
    outcome := EnrollForeseen(m, oldPassword, pin, face);
    forall k | FailsAt(w, from, EnrollSteps(w, from, before, oldPassword, pin, face), k) && CalmAfter(w, from + k)
      ensures !m.crashed && !outcome.Enrolled? && m.s == before.(locked := m.s.locked)
    {
      FreshIsReversible(w, from, before, oldPassword, pin, face, k);
    }
  }

  /** A step that a faultless answer is enough for. */
  ghost predicate Sound(step: Step) {
    match step
    case WrapKey(key, _) => Len(key) == WRAPPED_KEY_LEN
    case SealKey(_, auth, _) => 0 < Len(auth) <= MAX_PIN_LEN
    case CheckSeal(_, auth, primaryName) => 0 < Len(auth) <= MAX_PIN_LEN && primaryName != ""
    case RekeyFrom(right) => right
    case _ => true
  }

  lemma SoundSucceeds(w: nat -> Answer, from: nat, plan: seq<Step>, i: nat)
    requires i < |plan| && Sound(plan[i]) && w(from + i).verdict.Done? && (i > 0 ==> w(from + i - 1).verdict.Done?)
    ensures StepOk(w, from, plan, i)
  {
  }

  /** All that a user can do right, and the machine too. */
  ghost predicate RightInputs(w: nat -> Answer, s: State, pin: Secret) {
    Open(s, pin) && Len(pin) <= MAX_PIN_LEN && s.primaryName != "" && FullLengthDraws(w)
  }

  /** Then every step of the plan is sound but a rekey from a wrong credential. */
  lemma PlanIsSound(w: nat -> Answer, from: nat, s: State, oldPassword: Secret, pin: Secret, face: bool)
    requires RightInputs(w, s, pin)
    ensures forall step <- EnrollSteps(w, from, s, oldPassword, pin, face) ::
              Sound(step) || (step == RekeyFrom(false) && s.credential != oldPassword)
  {
    hide Sound, RecoverySteps, SealSteps, FaceSteps, LockoutSteps, RekeySteps;
    var key, recovery, aFace := w(from + 1).secret, w(from + 2).secret, w(from + 9).secret;
    SoundParts(key, recovery, pin, aFace, s.primaryName);
    SoundMachineParts(s.lockoutAuth != EMPTY, s.credential == oldPassword);
  }

  lemma SoundParts(key: Secret, recovery: Secret, pin: Secret, aFace: Secret, primaryName: string)
    requires Len(key) == Len(aFace) == WRAPPED_KEY_LEN && 0 < Len(pin) <= MAX_PIN_LEN && primaryName != ""
    ensures forall step <- RecoverySteps(key, recovery) :: Sound(step)
    ensures forall step <- SealSteps(key, pin, primaryName) :: Sound(step)
    ensures forall step <- FaceSteps(key, aFace, primaryName) :: Sound(step)
    ensures Sound(Plain)
  {
  }

  lemma SoundMachineParts(foreign: bool, right: bool)
    ensures forall step <- LockoutSteps(foreign) :: Sound(step)
    ensures forall step <- RekeySteps(right) :: Sound(step) || (step == RekeyFrom(false) && !right)
  {
  }

  /** With one fault in all the world, a failure without an effect, a fresh machine ends enrolled or exactly as it was. */
  method SingleFailure(m: Host, pin: Secret, face: bool, ghost fault: nat) returns (outcome: Outcome)
    requires !m.crashed && RightInputs(m.world, m.s, pin) && Fresh(m.s.files, face)
    requires m.world(fault).verdict.Fail? && forall i: nat :: i != fault ==> m.world(i).verdict.Done?
    modifies m`s, m`now, m`crashed, m`late, m`writes, m`lateAuth, m`authCalls, m`refused, m`boundBy, m`pins, m`secrets, m`shown
    ensures !m.crashed && (outcome.Enrolled? || outcome.Refused? || outcome.RolledBack?)
    ensures !outcome.Enrolled? ==> m.s == old(m.s).(locked := m.s.locked)
    ensures outcome.Enrolled? <==>
              !(old(m.now) <= fault < old(m.now)
                                      + |EnrollSteps(m.world, old(m.now), old(m.s), old(m.s).credential, pin, face)|)
  {
    hide EnrollSteps, StepOk, Reversible;
    ghost var w, from, before, password := m.world, m.now, m.s, m.s.credential;
    ghost var plan := EnrollSteps(w, from, before, password, pin, face);
    PlanIsSound(w, from, before, password, pin, face);
    forall i | 0 <= i < |plan| && from + i < fault ensures StepOk(w, from, plan, i) {
      assert plan[i] in plan;
      SoundSucceeds(w, from, plan, i);
    }
    outcome := EnrollForeseen(m, m.s.credential, pin, face);
    if from <= fault < from + |plan| {
      FaultFails(w, from, plan, fault - from);
      FreshIsReversible(w, from, before, password, pin, face, fault - from);
      assert FailsAt(w, from, plan, fault - from) && CalmAfter(w, from + (fault - from));
    } else {
      forall i | 0 <= i < |plan| ensures StepOk(w, from, plan, i) {
        assert plan[i] in plan;
        SoundSucceeds(w, from, plan, i);
      }
    }
  }

  lemma FaultFails(w: nat -> Answer, from: nat, plan: seq<Step>, i: nat)
    requires i < |plan| && w(from + i).verdict.Fail?
    ensures !StepOk(w, from, plan, i)
  {
  }

  // ---- A wrong old credential -------------------------------------------------------------------

  /** The rekey comes fourth from the end, and only once both blobs are stored. */
  lemma RekeyComesLate(w: nat -> Answer, from: nat, s: State, oldPassword: Secret, pin: Secret, face: bool)
    ensures var plan := EnrollSteps(w, from, s, oldPassword, pin, face);
            var r := |plan| - 4;
            && r > 8 && plan[r] == RekeyFrom(s.credential == oldPassword)
            && (forall i :: 0 <= i < r ==> !plan[i].RekeyFrom?)
            && Store(Recovery) in plan[..r] && Store(Metadata) in plan[..r]
  {
    var plan := EnrollSteps(w, from, s, oldPassword, pin, face);
    assert plan[..|plan| - 4][4] == Store(Recovery) && plan[..|plan| - 4][7] == Store(Metadata);
  }

  /** The daemon accepts a wrong old credential, and nothing else goes wrong: both blobs are stored before the rekey
      refuses, and then everything is exactly rolled back. */
  method WrongCredential(m: Host, wrong: Secret, pin: Secret, face: bool) returns (outcome: Outcome)
    requires !m.crashed && RightInputs(m.world, m.s, pin) && Fresh(m.s.files, face)
    requires m.Calm(m.now) && wrong != m.s.credential
    modifies m`s, m`now, m`crashed, m`late, m`writes, m`lateAuth, m`authCalls, m`refused, m`boundBy, m`pins, m`secrets, m`shown
    ensures outcome.RolledBack? && !m.crashed && m.s == old(m.s).(locked := m.s.locked) && m.writes > old(m.writes)
    ensures var plan := EnrollSteps(m.world, old(m.now), old(m.s), wrong, pin, face);
            var r := |plan| - 4;
            && r >= 0 && FailsAt(m.world, old(m.now), plan, r) && plan[r] == RekeyFrom(false)
            && Store(Recovery) in plan[..r] && Store(Metadata) in plan[..r]
  {
    hide EnrollSteps, StepOk, Reversible;
    ghost var w, from, before := m.world, m.now, m.s;
    ghost var plan := EnrollSteps(w, from, before, wrong, pin, face);
    RekeyComesLate(w, from, before, wrong, pin, face);
    ghost var r := |plan| - 4;
    PlanIsSound(w, from, before, wrong, pin, face);
    forall i | 0 <= i < r ensures StepOk(w, from, plan, i) {
      assert plan[i] in plan;
      SoundSucceeds(w, from, plan, i);
    }
    WrongRekeyFails(w, from, plan, r);
    FirstFive(w, from, before, wrong, pin, face);
    FreshIsReversible(w, from, before, wrong, pin, face, r);
    outcome := EnrollForeseen(m, wrong, pin, face);
    assert FailsAt(w, from, plan, r) && CalmAfter(w, from + r);
    assert StepOk(w, from, plan, 3);
  }

  lemma WrongRekeyFails(w: nat -> Answer, from: nat, plan: seq<Step>, i: nat)
    requires i < |plan| && plan[i] == RekeyFrom(false)
    ensures !StepOk(w, from, plan, i)
  {
  }

  // ---- Runs that do not leave everything as it was ----------------------------------------------

  const SECRET: Secret := Bytes(seq(32, _ => 1))
  const NO_FILES: Files := Files(Absent, Absent, Absent, Absent, Absent, Absent)

  function Stock(template: Content): State {
    State(Bytes([7]), true, NO_FILES.(template := template), EMPTY, "primary")
  }

  /** Every call is answered well but one. */
  function OneFault(fault: nat, verdict: Verdict): nat -> Answer {
    (i: nat) => Answer(if i == fault then verdict else Done, SECRET, SealedObject(EMPTY, EMPTY, ""),
      RecoveryBlob(0, EMPTY, EMPTY), [])
  }

  lemma FaultIsFirst(fault: nat, verdict: Verdict, template: Content, face: bool)
    requires !verdict.Done? && !verdict.Bogus?
    ensures var w, s := OneFault(fault, verdict), Stock(template);
            var plan := EnrollSteps(w, 0, s, s.credential, SECRET, face);
            fault < |plan| && plan[fault] in {Plain, Store(Recovery), BindAuth, RekeyFrom(true)} ==>
              FailsAt(w, 0, plan, fault) && (!Dies(verdict) ==> CalmAfter(w, fault))
  {
    hide EnrollSteps;
    var w, s := OneFault(fault, verdict), Stock(template);
    var plan := EnrollSteps(w, 0, s, s.credential, SECRET, face);
    PlanIsSound(w, 0, s, s.credential, SECRET, face);
    if fault < |plan| {
      forall i | 0 <= i < fault ensures StepOk(w, 0, plan, i) {
        assert plan[i] in plan;
        SoundSucceeds(w, 0, plan, i);
      }
    }
  }

  /** A directory sync that fails after the recovery blob was renamed into place leaves the blob behind. */
  method BlobLeftBehind() returns (m: Host, outcome: Outcome)
    ensures fresh(m) && outcome.RolledBack? && !m.crashed
    ensures m.s != Stock(Absent).(locked := m.s.locked)
  {
    hide EnrollSteps, StepOk;
    m := new Host(OneFault(4, FailLate), Stock(Absent));
    ghost var s, plan := m.s, EnrollSteps(m.world, 0, m.s, m.s.credential, SECRET, false);
    FifthStep(m.world, 0, m.s, m.s.credential, SECRET, false);
    FaultIsFirst(4, FailLate, Absent, false);
    assert !Reversible(m.world, 0, plan, 4, s.files);
    outcome := EnrollForeseen(m, m.s.credential, SECRET, false);
    assert FailsAt(m.world, 0, plan, 4) && CalmAfter(m.world, 0 + 4);
  }

  /** An older face template is replaced, and then removed by the rollback. */
  method OlderTemplateLost() returns (m: Host, outcome: Outcome)
    ensures fresh(m) && outcome.RolledBack? && !m.crashed
    ensures m.s != Stock(TemplateFile([0.0])).(locked := m.s.locked)
  {
    hide EnrollSteps, StepOk;
    m := new Host(OneFault(18, Fail), Stock(TemplateFile([0.0])));
    ghost var s, plan := m.s, EnrollSteps(m.world, 0, m.s, m.s.credential, SECRET, true);
    LastSteps(m.world, 0, m.s, m.s.credential, SECRET);
    FaultIsFirst(18, Fail, TemplateFile([0.0]), true);
    assert !Reversible(m.world, 0, plan, 18, s.files);
    outcome := EnrollForeseen(m, m.s.credential, SECRET, true);
    assert FailsAt(m.world, 0, plan, 18) && CalmAfter(m.world, 0 + 18);
  }

  lemma LastSteps(w: nat -> Answer, from: nat, s: State, oldPassword: Secret, pin: Secret)
    requires s.lockoutAuth == EMPTY
    ensures var plan := EnrollSteps(w, from, s, oldPassword, pin, true);
            |plan| == 22 && Store(Template) in plan[..18] && plan[18] == RekeyFrom(s.credential == oldPassword)
  {
    assert EnrollSteps(w, from, s, oldPassword, pin, true)[..18][14] == Store(Template);
  }

  /** A bind that the TPM carries out and then reports as failed: the rollback knows nothing of it, and the lockout
      hierarchy stays bound, without a marker, to a secret that nobody was shown. */
  method BindOrphaned() returns (m: Host, outcome: Outcome)
    ensures fresh(m) && outcome.RolledBack? && !m.crashed && m.shown == {}
    ensures m.s.lockoutAuth == LockoutAuthOf(SECRET) && m.s.files.lockoutOwned == Absent
  {
    hide EnrollSteps, StepOk, EnrollDecided;
    m := new Host(OneFault(9, FailLate), Stock(Absent));
    ghost var w, s := m.world, m.s;
    TenthStep(w, 0, s, s.credential, SECRET);
    FaultIsFirst(9, FailLate, Absent, false);
    ghost var key, undo;
    outcome, key, undo := Enroll.Enroll(m, m.s.credential, SECRET, false);
    EndsAfter(w, 0, m.now, m.crashed, s, s.credential, SECRET, false, outcome.Enrolled?, undo, 9);
  }

  lemma EndsAfter(w: nat -> Answer, from: nat, now: nat, crashed: bool, s: State, oldPassword: Secret, pin: Secret, face: bool,
                  ok: bool, undo: Undo, k: nat)
    requires EnrollDecided(w, from, now, crashed, s, oldPassword, pin, face, ok, undo)
    requires FailsAt(w, from, EnrollSteps(w, from, s, oldPassword, pin, face), k) && CalmAfter(w, from + k)
    ensures !ok && undo.at == from + k + 1 && !crashed
    ensures undo.lockout == (BindAuth in EnrollSteps(w, from, s, oldPassword, pin, face)[..k])
  {
    hide StepOk, EnrollSteps;
    RanTo(w, from, undo.at, EnrollSteps(w, from, s, oldPassword, pin, face), ok);
  }

  lemma TenthStep(w: nat -> Answer, from: nat, s: State, oldPassword: Secret, pin: Secret)
    requires s.lockoutAuth == EMPTY
    ensures var plan := EnrollSteps(w, from, s, oldPassword, pin, false);
            |plan| > 9 && plan[9] == BindAuth && BindAuth !in plan[..9]
  {
  }

  lemma FifthStep(w: nat -> Answer, from: nat, s: State, oldPassword: Secret, pin: Secret, face: bool)
    ensures var plan := EnrollSteps(w, from, s, oldPassword, pin, face); |plan| > 4 && plan[4] == Store(Recovery)
  {
  }
}
