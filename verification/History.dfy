/** Whole histories: any commands, in any order, against any environment, each of them possibly cut
    short by a crash. */
module History {
  import opened Faults
  import opened Wrappers
  import opened Secrets
  import opened Hosts
  import opened Plans
  import opened Endings
  import opened Enroll
  import opened Lifecycle
  import opened AllOrNothing

  /** `LockKeyring` is the session locking the keyring; `ClearTpm` replaces the storage primary and empties
      the lockout authValue, as TPM2_Clear does. */
  datatype Command =
    | DoEnroll(oldPassword: Secret, pin: Secret, face: bool)
    | DoUnlock(pin: Secret)
    | DoUnlockWithFace
    | DoRecover(recovery: Secret)
    | DoReseal(recovery: Secret, newPin: Secret)
    | DoUnenroll(pin: Secret, password: Secret, release: Option<Secret>, face: bool)
    | LockKeyring
    | ClearTpm(primaryName: string)

  /** The machine between two commands, with what the user has supplied and has been shown so far. */
  datatype Moment = Moment(now: nat, s: State, passwords: set<Secret>, pins: set<Secret>, secrets: set<Secret>,
                           shown: set<Secret>, boundBy: Secret, authCalls: nat, refused: nat)
  {
    ghost predicate Safe() {
      NobodyLockedOut(s, passwords, pins, secrets)
    }

    /** A blob wraps the credential, under a secret that was generated; the user need not hold it. */
    ghost predicate Recoverable() {
      RecoverableState(s, passwords, secrets)
    }

    /** The user holds what leads back in without the TPM: a password, or a secret shown that opens the blob. */
    ghost predicate Held() {
      RecoverableState(s, passwords, shown)
    }

    ghost predicate Owned() {
      MarkerTrue(s, boundBy)
    }

    /** A lockout authValue that the user can account for: none, the one that was there, or one derived from a recovery
        secret the user was shown. */
    ghost predicate Explained(foreign: Secret) {
      s.lockoutAuth in {EMPTY, foreign} || exists r :: r in shown && s.lockoutAuth == LockoutAuthOf(r)
    }
  }

  ghost function At(m: Host): Moment
    reads m
  {
    Moment(m.now, m.s, m.passwords, m.pins, m.secrets, m.shown, m.boundBy, m.authCalls, m.refused)
  }

  // ---- The two ways in which an enrollment fails its user ----------------------------------------

  /** Command `c` begins an enrollment in state `s`, and its run ends before call `at`. */
  ghost predicate EnrollsTo(w: nat -> Answer, from: nat, s: State, c: Command, at: nat, ok: bool) {
    c.DoEnroll? && Len(c.pin) > 0 && NoBlobs(s.files)
    && Ran(w, from, at, EnrollSteps(w, from, s, c.oldPassword, c.pin, c.face), ok)
  }

  /** An enrollment from state `s` binds the lockout authValue to a secret that nobody is shown, and leaves it so: it dies
      after the bind, or the bind fails late, or the release in its rollback has no effect. */
  ghost predicate Orphans(w: nat -> Answer, from: nat, s: State, c: Command) {
    exists at, ok ::
      && EnrollsTo(w, from, s, c, at, ok) && s.lockoutAuth == EMPTY
      && LockoutEnd(w, BindCall(from, c.face), at, ok, EMPTY, w(from + 2).secret) != EMPTY
      && !ShowsSecret(w, RekeyCall(BindCall(from, c.face), EMPTY), at, ok)
  }

  /** An enrollment from state `s` moves the keyring to a key whose recovery secret nobody is shown: the rekey takes effect,
      and the process dies before the run is over, or at the rekey of its rollback before that takes effect. */
  ghost predicate Strands(w: nat -> Answer, from: nat, s: State, c: Command) {
    exists at, ok ::
      && EnrollsTo(w, from, s, c, at, ok) && s.credential == c.oldPassword
      && LeftInTheDark(w, RekeyCall(BindCall(from, c.face), s.lockoutAuth), at, ok)
  }

  lemma OneEnd(w: nat -> Answer, from: nat, s: State, c: Command, at: nat, ok: bool, at': nat, ok': bool)
    requires EnrollsTo(w, from, s, c, at, ok) && EnrollsTo(w, from, s, c, at', ok')
    ensures at == at' && ok == ok'
  {
    hide StepOk, EnrollSteps;
    var plan := EnrollSteps(w, from, s, c.oldPassword, c.pin, c.face);
    RanTo(w, from, at, plan, ok);
    RanTo(w, from, at', plan, ok');
    if !ok { assert FailsAt(w, from, plan, at - from - 1); }
    if !ok' { assert FailsAt(w, from, plan, at' - from - 1); }
  }

  lemma DecidedRun(w: nat -> Answer, from: nat, now: nat, crashed: bool, s: State, c: Command, ok: bool, undo: Undo)
    requires c.DoEnroll? && Len(c.pin) > 0 && NoBlobs(s.files)
    requires EnrollDecided(w, from, now, crashed, s, c.oldPassword, c.pin, c.face, ok, undo)
    ensures forall at, ok' :: EnrollsTo(w, from, s, c, at, ok') <==> at == undo.at && ok' == ok
  {
    hide EnrollSteps, Ran;
    assert EnrollsTo(w, from, s, c, undo.at, ok);
    forall at, ok' | EnrollsTo(w, from, s, c, at, ok') ensures at == undo.at && ok' == ok {
      OneEnd(w, from, s, c, undo.at, ok, at, ok');
    }
  }

  /** For the run that took place the condition can be read off. */
  lemma OrphansIs(w: nat -> Answer, from: nat, now: nat, crashed: bool, s: State, c: Command, ok: bool, undo: Undo)
    requires c.DoEnroll? && Len(c.pin) > 0 && NoBlobs(s.files)
    requires EnrollDecided(w, from, now, crashed, s, c.oldPassword, c.pin, c.face, ok, undo)
    ensures Orphans(w, from, s, c) <==>
              s.lockoutAuth == EMPTY && LockoutEnd(w, BindCall(from, c.face), undo.at, ok, EMPTY, w(from + 2).secret) != EMPTY
              && !ShowsSecret(w, RekeyCall(BindCall(from, c.face), EMPTY), undo.at, ok)
  {
    hide EnrollsTo, EnrollDecided, LockoutEnd, ShowsSecret, NoBlobs;
    DecidedRun(w, from, now, crashed, s, c, ok, undo);
  }

  lemma StrandsIs(w: nat -> Answer, from: nat, now: nat, crashed: bool, s: State, c: Command, ok: bool, undo: Undo)
    requires c.DoEnroll? && Len(c.pin) > 0 && NoBlobs(s.files)
    requires EnrollDecided(w, from, now, crashed, s, c.oldPassword, c.pin, c.face, ok, undo)
    ensures Strands(w, from, s, c) <==>
              s.credential == c.oldPassword
              && KeyStays(w, RekeyCall(BindCall(from, c.face), s.lockoutAuth), undo.at, ok)
              && !ShowsSecret(w, RekeyCall(BindCall(from, c.face), s.lockoutAuth), undo.at, ok)
  {
    hide EnrollsTo, EnrollDecided, LeftInTheDark, KeyStays, ShowsSecret, NoBlobs;
    DecidedRun(w, from, now, crashed, s, c, ok, undo);
    InTheDark(w, RekeyCall(BindCall(from, c.face), s.lockoutAuth), undo.at, ok);
  }

  lemma NoRunNoHarm(w: nat -> Answer, from: nat, s: State, c: Command)
    requires !c.DoEnroll? || Len(c.pin) == 0 || !NoBlobs(s.files)
    ensures !Orphans(w, from, s, c) && !Strands(w, from, s, c)
  {
  }

  // ---- One command --------------------------------------------------------------------------------

  /** A lockout hierarchy somebody else owns. */
  ghost predicate Foreign(s: State) {
    s.lockoutAuth != EMPTY && s.files.lockoutOwned == Absent
  }

  /** Command `c` leads from `a` to `b`: nobody is locked out unless the TPM is cleared; and what the user holds is lost
      exactly to an enrollment that strands it. */
  ghost predicate KeepsAccess(w: nat -> Answer, c: Command, a: Moment, b: Moment) {
    && (!c.ClearTpm? && a.Safe() ==> b.Safe())
    && (a.Recoverable() ==> b.Recoverable())
    && (a.Held() && !Strands(w, a.now, a.s, c) ==> b.Held())
    && (Strands(w, a.now, a.s, c) ==>
          && b.shown == a.shown && b.passwords == a.passwords && b.s.credential == w(a.now + 1).secret
          && (b.s.credential != a.s.credential ==>
                BlobsGood(b.s, b.s.credential, c.pin, w(a.now + 2).secret)))
  }

  /** The marker stays true and goes only with an empty authValue; a foreign hierarchy is not even attempted; the user can
      account for the authValue unless an enrollment orphans it; and the TPM never refuses a change of it, but for an
      unenrollment that releases with the wrong secret. */
  ghost predicate KeepsLockout(w: nat -> Answer, c: Command, foreign: Secret, a: Moment, b: Moment) {
    && (a.Owned() ==> b.Owned())
    && (a.s.files.lockoutOwned != Absent && b.s.files.lockoutOwned == Absent ==> b.s.lockoutAuth == EMPTY)
    && (!c.ClearTpm? && Foreign(a.s) ==>
          Foreign(b.s) && b.s.lockoutAuth == a.s.lockoutAuth && b.authCalls == a.authCalls)
    && (a.Explained(foreign) && !Orphans(w, a.now, a.s, c) ==> b.Explained(foreign))
    && (Orphans(w, a.now, a.s, c) ==> b.shown == a.shown && b.s.lockoutAuth == LockoutAuthOf(w(a.now + 2).secret))
    && (b.refused == a.refused
        || (c.DoUnenroll? && WrongRelease(a.s, c.release) && b.refused == a.refused + 1))
  }

  /** All that one command may do. */
  ghost predicate Follows(w: nat -> Answer, c: Command, foreign: Secret, a: Moment, b: Moment) {
    && b.now >= a.now && b.passwords >= a.passwords && b.pins >= a.pins && b.secrets >= a.secrets && b.shown >= a.shown
    && (if c.ClearTpm? then b == a.(s := a.s.(primaryName := c.primaryName, lockoutAuth := EMPTY))
        else b.s.primaryName == a.s.primaryName)
    && KeepsAccess(w, c, a, b)
    && KeepsLockout(w, c, foreign, a, b)
  }

  /** Exactly when the user loses the way back in. */
  lemma HeldUnlessStranded(w: nat -> Answer, c: Command, foreign: Secret, a: Moment, b: Moment)
    requires Follows(w, c, foreign, a, b) && a.Held()
    ensures b.Held() <==> !Strands(w, a.now, a.s, c) || w(a.now + 1).secret in a.passwords || w(a.now + 2).secret in a.shown
  {
    hide LeftInTheDark, KeepsLockout;
  }

  lemma LockAlone(w: nat -> Answer, c: Command, foreign: Secret, a: Moment, b: Moment)
    requires !c.DoEnroll? && !c.ClearTpm?
    requires b.now >= a.now && b == a.(now := b.now, s := a.s.(locked := b.s.locked))
    ensures Follows(w, c, foreign, a, b)
  {
    hide Orphans, Strands;
    NoRunNoHarm(w, a.now, a.s, c);
  }

  lemma MetadataAlone(w: nat -> Answer, c: Command, foreign: Secret, a: Moment, b: Moment)
    requires !c.DoEnroll? && !c.ClearTpm?
    requires b.now >= a.now && b.pins >= a.pins && (a.Safe() ==> b.Safe())
    requires b == a.(now := b.now, pins := b.pins, s := a.s.(files := a.s.files.(metadata := b.s.files.metadata)))
    ensures Follows(w, c, foreign, a, b)
  {
    hide Orphans, Strands, Moment.Safe;
    NoRunNoHarm(w, a.now, a.s, c);
  }

  lemma ClearedFollows(w: nat -> Answer, c: Command, foreign: Secret, a: Moment, b: Moment)
    requires c.ClearTpm? && b == a.(s := a.s.(primaryName := c.primaryName, lockoutAuth := EMPTY))
    ensures Follows(w, c, foreign, a, b)
  {
    hide Orphans, Strands;
    NoRunNoHarm(w, a.now, a.s, c);
  }

  lemma UnenrolledFollows(w: nat -> Answer, c: Command, foreign: Secret, a: Moment, b: Moment)
    requires c.DoUnenroll? && b.now >= a.now
    requires b == a.(now := b.now, s := b.s, passwords := a.passwords + {c.password}, authCalls := b.authCalls,
                     refused := b.refused)
    requires UnenrollReached(a.s, b.s, c.password, c.release, c.face)
    requires (a.Safe() ==> b.Safe()) && (a.Recoverable() ==> b.Recoverable()) && (a.Held() ==> b.Held())
    requires a.Owned() ==> b.Owned()
    requires a.s.files.lockoutOwned == Absent ==> b.authCalls == a.authCalls
    requires b.refused == a.refused || (WrongRelease(a.s, c.release) && b.refused == a.refused + 1)
    ensures Follows(w, c, foreign, a, b)
  {
    hide Orphans, Strands, Moment.Safe, Moment.Recoverable, Moment.Held, Moment.Owned, WrongRelease;
    NoRunNoHarm(w, a.now, a.s, c);
  }

  /** An enrollment that began: whether the user holds the way back in. */
  lemma EnrolledAccess(w: nat -> Answer, c: Command, a: Moment, b: Moment, outcome: Outcome, undo: Undo, crashed: bool,
                       wrote: bool)
    requires c.DoEnroll? && Len(c.pin) > 0 && NoBlobs(a.s.files)
    requires Settled(w, a.now, a.s, c.oldPassword, c.pin, c.face, outcome, undo, b.now, crashed, b.s, wrote)
    requires b.shown == a.shown + (if Told(outcome, crashed) then {outcome.recovery} else {}) && b.passwords == a.passwords
    requires (a.Safe() ==> b.Safe()) && (a.Recoverable() ==> b.Recoverable())
    ensures KeepsAccess(w, c, a, b)
  {
    hide EnrollDecided, LockoutEnd, ShowsSecret, KeyStays, Strands, Moment.Safe, Moment.Recoverable, SealedGood;
    StrandsIs(w, a.now, b.now, crashed, a.s, c, outcome.Enrolled?, undo);
  }

  /** And whether the user can account for the lockout authValue. */
  lemma EnrolledLockout(w: nat -> Answer, c: Command, foreign: Secret, a: Moment, b: Moment, outcome: Outcome, undo: Undo,
                        crashed: bool, wrote: bool)
    requires c.DoEnroll? && Len(c.pin) > 0 && NoBlobs(a.s.files)
    requires Settled(w, a.now, a.s, c.oldPassword, c.pin, c.face, outcome, undo, b.now, crashed, b.s, wrote)
    requires b.shown == a.shown + if Told(outcome, crashed) then {outcome.recovery} else {}
    requires (a.Owned() ==> b.Owned()) && b.refused == a.refused
    requires a.s.files.lockoutOwned != Absent && b.s.files.lockoutOwned == Absent ==> b.s.lockoutAuth == EMPTY
    requires a.s.lockoutAuth != EMPTY ==>
               b.authCalls == a.authCalls && b.s.lockoutAuth == a.s.lockoutAuth
               && b.s.files.lockoutOwned == a.s.files.lockoutOwned
    ensures KeepsLockout(w, c, foreign, a, b)
  {
    hide EnrollDecided, LockoutEnd, ShowsSecret, Orphans, Moment.Owned, BlobsGood, CredentialEnd;
    OrphansIs(w, a.now, b.now, crashed, a.s, c, outcome.Enrolled?, undo);
    DerivedOrNone(w, BindCall(a.now, c.face), undo.at, outcome.Enrolled?, a.s.lockoutAuth, w(a.now + 2).secret);
  }

  /** An enrollment refused outright. */
  lemma RefusedFollows(w: nat -> Answer, c: Command, foreign: Secret, a: Moment, b: Moment)
    requires c.DoEnroll? && (Len(c.pin) == 0 || !NoBlobs(a.s.files))
    requires b.now >= a.now && b.secrets >= a.secrets && b.s == a.s
    requires b == a.(now := b.now, pins := a.pins + {c.pin}, secrets := b.secrets, boundBy := b.boundBy, authCalls := b.authCalls)
    requires a.Owned() ==> b.Owned()
    requires Foreign(a.s) ==> b.authCalls == a.authCalls
    ensures Follows(w, c, foreign, a, b)
  {
    hide Orphans, Strands, NoBlobs;
    NoRunNoHarm(w, a.now, a.s, c);
  }

  lemma MomentIs(m: Host)
    ensures At(m).Safe() <==> m.Safe()
    ensures At(m).Recoverable() <==> m.Recoverable()
    ensures At(m).Held() <==> m.Held()
    ensures At(m).Owned() <==> m.Owned()
    ensures At(m) == Moment(m.now, m.s, m.passwords, m.pins, m.secrets, m.shown, m.boundBy, m.authCalls, m.refused)
  {
  }

  /** An enrollment leaves the user a way back in without the TPM, and a lockout authValue that the user can account for,
      unless it strands the one or orphans the other. */
  method ExecuteEnroll(m: Host, c: Command, ghost foreign: Secret)
    requires c.DoEnroll? && !m.crashed
    modifies m`s, m`now, m`crashed, m`late, m`writes, m`lateAuth, m`authCalls, m`refused, m`boundBy, m`pins, m`secrets, m`shown
    ensures Follows(m.world, c, foreign, old(At(m)), At(m))
  {
    hide *;
    ghost var a, writes := At(m), m.writes;
    MomentIs(m);
    var outcome;
    ghost var key, undo;
    outcome, key, undo := Enroll.Enroll(m, c.oldPassword, c.pin, c.face);
    MomentIs(m);
    ghost var b := At(m);
    if Len(c.pin) > 0 && NoBlobs(a.s.files) {
      EnrolledAccess(m.world, c, a, b, outcome, undo, m.crashed, m.writes > writes);
      EnrolledLockout(m.world, c, foreign, a, b, outcome, undo, m.crashed, m.writes > writes);
      BothKept(m.world, c, foreign, a, b);
    } else {
      NotTold(m.crashed);
      ForeignIs(a.s);
      RefusedFollows(m.world, c, foreign, a, b);
    }
  }

  lemma NotTold(crashed: bool)
    ensures !Told(Refused, crashed)
  {
  }

  lemma ForeignIs(s: State)
    ensures Foreign(s) ==> s.lockoutAuth != EMPTY
  {
  }

  lemma BothKept(w: nat -> Answer, c: Command, foreign: Secret, a: Moment, b: Moment)
    requires KeepsAccess(w, c, a, b) && KeepsLockout(w, c, foreign, a, b) && !c.ClearTpm?
    requires b.now >= a.now && b.passwords >= a.passwords && b.pins >= a.pins && b.secrets >= a.secrets && b.shown >= a.shown
    requires b.s.primaryName == a.s.primaryName
    ensures Follows(w, c, foreign, a, b)
  {
    hide KeepsAccess, KeepsLockout;
  }

  /** Run one command in a process of its own. */
  method Execute(m: Host, c: Command, ghost foreign: Secret)
    modifies m`s, m`now, m`crashed, m`late, m`writes, m`lateAuth, m`authCalls, m`refused, m`boundBy, m`pins, m`secrets, m`shown, m`passwords
    ensures Follows(m.world, c, foreign, old(At(m)), At(m))
  {
    hide *;
    ghost var a, w := At(m), m.world;
    MomentIs(m);
    m.Boot();
    MomentIs(m);
    match c {
      case DoEnroll(oldPassword, pin, face) =>
        ExecuteEnroll(m, c, foreign);
      case DoUnlock(pin) =>
        var _ := UnlockWithPin(m, pin);
        MomentIs(m);
        LockAlone(w, c, foreign, a, At(m));
      case DoUnlockWithFace =>
        var _ := UnlockWithFace(m);
        MomentIs(m);
        LockAlone(w, c, foreign, a, At(m));
      case DoRecover(recovery) =>
        var _ := Recover(m, recovery);
        MomentIs(m);
        LockAlone(w, c, foreign, a, At(m));
      case DoReseal(recovery, newPin) =>
        var _ := Reseal(m, recovery, newPin);
        MomentIs(m);
        MetadataAlone(w, c, foreign, a, At(m));
      case DoUnenroll(pin, password, recovery, face) =>
        var _ := Unenroll(m, pin, password, recovery, face);
        MomentIs(m);
        UnenrolledFollows(w, c, foreign, a, At(m));
      case LockKeyring =>
        m.s := m.s.(locked := true);
        MomentIs(m);
        LockAlone(w, c, foreign, a, At(m));
      case ClearTpm(primaryName) =>
        m.s := m.s.(primaryName := primaryName, lockoutAuth := EMPTY);
        MomentIs(m);
        ClearedFollows(w, c, foreign, a, At(m));
    }
  }

  // ---- Any number of commands ---------------------------------------------------------------------

  ghost predicate NoClear(commands: seq<Command>) {
    forall i :: 0 <= i < |commands| ==> !commands[i].ClearTpm?
  }

  /** `trace` holds the moments between the commands, the first and the last included. */
  ghost predicate Traces(w: nat -> Answer, commands: seq<Command>, foreign: Secret, trace: seq<Moment>) {
    |trace| == |commands| + 1
    && forall i :: 0 <= i < |commands| ==> Follows(w, commands[i], foreign, trace[i], trace[i + 1])
  }

  /** What any history keeps. Nobody is locked out as long as the TPM is not cleared; even across clears the user holds a
      way back in, or an enrollment of this very history has stranded it; the ownership marker is true; a hierarchy that
      was foreign at the start stays as it is, without a single attempt on it; a lockout authValue that the user cannot
      account for was orphaned by an enrollment of this history; and the TPM has refused no change of it but to an
      unenrollment of this history that released with the wrong secret. */
  ghost predicate Kept(w: nat -> Answer, commands: seq<Command>, foreign: Secret, trace: seq<Moment>, n: nat)
    requires |trace| == |commands| + 1 && n <= |commands|
  {
    && (NoClear(commands) && trace[0].Safe() ==> trace[n].Safe())
    && (trace[0].Recoverable() ==> trace[n].Recoverable())
    && (trace[0].Held() && !trace[n].Held() ==>
          exists i :: 0 <= i < n && trace[i].Held() && !trace[i + 1].Held()
                      && Strands(w, trace[i].now, trace[i].s, commands[i]))
    && (trace[0].Owned() ==> trace[n].Owned())
    && (NoClear(commands) && Foreign(trace[0].s) ==>
          Foreign(trace[n].s) && trace[n].s.lockoutAuth == trace[0].s.lockoutAuth && trace[n].authCalls == trace[0].authCalls)
    && (trace[0].Explained(foreign) && !trace[n].Explained(foreign) ==>
          exists i :: 0 <= i < n && trace[i].Explained(foreign) && !trace[i + 1].Explained(foreign)
                      && Orphans(w, trace[i].now, trace[i].s, commands[i]))
    && (trace[n].refused != trace[0].refused ==>
          exists i :: 0 <= i < n && commands[i].DoUnenroll? && WrongRelease(trace[i].s, commands[i].release))
  }

  lemma {:induction false} Along(w: nat -> Answer, commands: seq<Command>, foreign: Secret, trace: seq<Moment>, n: nat)
    requires Traces(w, commands, foreign, trace) && n <= |commands|
    ensures Kept(w, commands, foreign, trace, n)
  {
    hide Strands, Orphans, Foreign, WrongRelease, Moment.Safe, Moment.Recoverable, Moment.Held, Moment.Owned, Moment.Explained;
    if n > 0 {
      Along(w, commands, foreign, trace, n - 1);
      assert Follows(w, commands[n - 1], foreign, trace[n - 1], trace[n - 1 + 1]);
    }
  }

  /** Any history. */
  method Replay(m: Host, commands: seq<Command>, ghost foreign: Secret) returns (ghost trace: seq<Moment>)
    modifies m`s, m`now, m`crashed, m`late, m`writes, m`lateAuth, m`authCalls, m`refused, m`boundBy, m`pins, m`secrets, m`shown, m`passwords
    ensures Traces(m.world, commands, foreign, trace) && trace[0] == old(At(m)) && trace[|commands|] == At(m)
    ensures Kept(m.world, commands, foreign, trace, |commands|)
  {
    hide Follows, Kept;
    trace := [At(m)];
    for i := 0 to |commands|
      invariant |trace| == i + 1 && trace[0] == old(At(m)) && trace[i] == At(m)
      invariant forall j :: 0 <= j < i ==> Follows(m.world, commands[j], foreign, trace[j], trace[j + 1])
    {
      Execute(m, commands[i], foreign);
      trace := trace + [At(m)];
    }
    Along(m.world, commands, foreign, trace, |commands|);
  }

  /** From a fresh machine, whatever it holds: the keyring's own password is one the user supplied, so the user is locked out
      of nothing, unless an enrollment of the history has done it. */
  method ReplayFromScratch(world: nat -> Answer, start: State, commands: seq<Command>)
    returns (m: Host, ghost trace: seq<Moment>)
    ensures m.Recoverable() && (NoClear(commands) ==> m.Safe())
    ensures start.files.lockoutOwned == Absent ==> m.Owned()
    ensures Traces(world, commands, start.lockoutAuth, trace) && trace[0].s == start && trace[|commands|] == At(m)
    ensures m.Held() || exists i :: 0 <= i < |commands| && Strands(world, trace[i].now, trace[i].s, commands[i])
    ensures At(m).Explained(start.lockoutAuth)
            || exists i :: 0 <= i < |commands| && Orphans(world, trace[i].now, trace[i].s, commands[i])
  {
    hide Strands, Orphans, Follows;
    m := new Host(world, start);
    trace := Replay(m, commands, start.lockoutAuth);
  }

  // ---- Runs ---------------------------------------------------------------------------------------

  /** The process dies right after the rekey of an otherwise faultless enrollment, and then the TPM is cleared: the keyring
      has a key that no password of the user is, that the TPM no longer releases, and that the recovery blob releases to
      nobody, since no recovery secret was ever shown. */
  method LockedOut() returns (m: Host)
    ensures fresh(m) && m.shown == {} && m.s.credential !in m.passwords
    ensures !MetadataOpens(m.s, m.pins) && !RecoveryOpens(m.s, m.shown)
  {
    hide EnrollSteps, StepOk, Ran, KeepsLockout;
    m := new Host(OneFault(11, CrashAfter), Stock(Absent));
    var c := DoEnroll(m.s.credential, SECRET, false);
    DiesAfterRekey(m.world, m.s, c);
    Execute(m, c, EMPTY);
    ghost var b := At(m);
    assert BlobsGood(b.s, SECRET, SECRET, SECRET);
    Execute(m, ClearTpm("cleared"), EMPTY);
    assert b.s.primaryName == "primary" && m.s == b.s.(primaryName := "cleared", lockoutAuth := EMPTY);
  }

  lemma DiesAfterRekey(w: nat -> Answer, s: State, c: Command)
    requires w == OneFault(11, CrashAfter) && s == Stock(Absent) && c == DoEnroll(s.credential, SECRET, false)
    ensures Strands(w, 0, s, c)
  {
    hide EnrollSteps, StepOk;
    TwelfthStep(w, 0, s, s.credential, SECRET);
    FaultIsFirst(11, CrashAfter, Absent, false);
    assert EnrollsTo(w, 0, s, c, 12, false);
  }

  lemma TwelfthStep(w: nat -> Answer, from: nat, s: State, oldPassword: Secret, pin: Secret)
    requires s.lockoutAuth == EMPTY
    ensures var plan := EnrollSteps(w, from, s, oldPassword, pin, false);
            |plan| == 15 && plan[11] == RekeyFrom(s.credential == oldPassword)
  {
  }

  /** Enrolling and unenrolling without faults leaves no trace: files, lockout hierarchy and credential are
      what they were, whether or not the lockout hierarchy was tess's to bind. */
  method EnrollThenUnenroll(m: Host, pin: Secret, face: bool)
    requires !m.crashed && m.Calm(m.now) && FullLengthDraws(m.world)
    requires NoBlobs(m.s.files) && m.s.files.lockoutOwned == Absent && (face ==> m.s.files.template == Absent)
    requires 0 < Len(pin) <= MAX_PIN_LEN && Len(m.s.credential) > 0 && m.s.primaryName != ""
    modifies m`s, m`now, m`crashed, m`late, m`writes, m`lateAuth, m`authCalls, m`refused, m`boundBy, m`pins, m`secrets, m`shown, m`passwords
    ensures m.s == old(m.s).(locked := false)
  {
    var password := m.s.credential;
    var outcome, key, _ := Enroll.Enroll(m, password, pin, face);
    ghost var enrolled := m.s;
    var r := Unenroll(m, pin, password, Some(outcome.recovery), face);
    assert m.s.files == old(m.s).files;
  }

  /** A cleared TPM leaves the ownership marker standing. Whoever then re-seals and unenrolls, giving the recovery secret, has
      tess change the lockout authValue with a value that the TPM refuses, and keeps the marker. */
  method ReleaseAfterClear(m: Host, pin: Secret, primaryName: string)
    requires !m.crashed && m.Calm(m.now) && FullLengthDraws(m.world)
    requires NoBlobs(m.s.files) && m.s.lockoutAuth == EMPTY && m.s.primaryName != "" && primaryName != ""
    requires 0 < Len(pin) <= MAX_PIN_LEN && Len(m.s.credential) > 0
    modifies m`s, m`now, m`crashed, m`late, m`writes, m`lateAuth, m`authCalls, m`refused, m`boundBy, m`pins, m`secrets, m`shown, m`passwords
    ensures m.refused == old(m.refused) + 1
    ensures m.s.credential == old(m.s).credential && NoBlobs(m.s.files) && m.s.files.lockoutOwned == MarkerFile
  {
    hide Settled, PutBack, RecoverableState, NobodyLockedOut, MarkerTrue, SameFace, StaysSafe;
    var password := m.s.credential;
    var outcome, key, _ := Enroll.Enroll(m, password, pin, false);
    m.s := m.s.(primaryName := primaryName, lockoutAuth := EMPTY);
    var _ := Reseal(m, outcome.recovery, pin);
    var _ := Unenroll(m, pin, password, Some(outcome.recovery), false);
  }
}
