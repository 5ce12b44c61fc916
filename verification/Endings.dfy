/** Where the world lets an enrollment end: the credential, the lockout authValue, and whether the recovery secret is
    shown. All of it follows from the call at which its run ends and from the answers to a few calls. */
module Endings {
  import opened Faults
  import opened Secrets
  import opened Hosts

  /** The call that would bind a stock lockout authValue, in an enrollment that begins at call `from`. */
  function BindCall(from: nat, face: bool): nat {
    from + if face then 16 else 9
  }

  /** The rekey comes after bind and marker, or in the place of the bind when somebody else owns the hierarchy. */
  function RekeyCall(bind: nat, lockoutAuth: Secret): nat {
    bind + if lockoutAuth == EMPTY then 2 else 0
  }

  lemma RekeyAfterBind(bind: nat, lockoutAuth: Secret)
    ensures lockoutAuth == EMPTY ==> RekeyCall(bind, lockoutAuth) == bind + 2
  {
  }

  /** Whether an enrollment whose run ends before call `at` shows its recovery secret: it succeeds, or cannot undo the rekey
      and says so. */
  predicate ShowsSecret(w: nat -> Answer, rekey: nat, at: nat, ok: bool) {
    ok || (at >= rekey + 2 && !Dies(w(at - 1).verdict) && Fails(w(at).verdict))
  }

  // ---- The credential ---------------------------------------------------------------------------

  /** The credential once the calls before `at` are made. `right` says that the rekey comes from the right old one. */
  function RekeyedTo(w: nat -> Answer, rekey: nat, at: nat, right: bool, before: Secret, key: Secret): Secret {
    if right && at > rekey && Moves(w(rekey).verdict) then key else before
  }

  /** The rekey takes effect, and no rollback takes it back. */
  predicate KeyStays(w: nat -> Answer, rekey: nat, at: nat, ok: bool) {
    && at > rekey && Moves(w(rekey).verdict)
    && (ok || Dies(w(at - 1).verdict) || (at >= rekey + 2 && !Moves(w(at).verdict)))
  }

  /** Where an enrollment leaves the credential. */
  function CredentialEnd(w: nat -> Answer, rekey: nat, at: nat, ok: bool, right: bool, before: Secret, key: Secret): Secret {
    if right && KeyStays(w, rekey, at, ok) then key else before
  }

  /** The key stays and its recovery secret is never shown: the rekey takes effect, and the process dies before the run is
      over, or at the rekey of its rollback before that takes effect. */
  predicate LeftInTheDark(w: nat -> Answer, rekey: nat, at: nat, ok: bool) {
    && !ok && at > rekey && Moves(w(rekey).verdict)
    && (Dies(w(at - 1).verdict) || (at >= rekey + 2 && w(at).verdict.CrashBefore?))
  }

  lemma InTheDark(w: nat -> Answer, rekey: nat, at: nat, ok: bool)
    ensures KeyStays(w, rekey, at, ok) && !ShowsSecret(w, rekey, at, ok) <==> LeftInTheDark(w, rekey, at, ok)
  {
  }

  /** Rekeyed or not, and taken back or not. */
  lemma CredentialEnds(w: nat -> Answer, rekey: nat, at: nat, ok: bool, right: bool, before: Secret, key: Secret,
                       mid: Secret, after: Secret, rekeyed: bool)
    requires at > 0 && mid == RekeyedTo(w, rekey, at, right, before, key)
    requires rekeyed ==> at >= rekey + 2
    requires ok ==> rekeyed
    requires !ok && !Dies(w(at - 1).verdict) ==> rekeyed == (at >= rekey + 2) && mid == if rekeyed then key else before
    requires after == if !ok && !Dies(w(at - 1).verdict) && rekeyed && Moves(w(at).verdict) then before else mid
    ensures after == CredentialEnd(w, rekey, at, ok, right, before, key)
  {
    hide Dies, Moves;
  }

  // ---- The lockout authValue --------------------------------------------------------------------

  /** The lockout authValue once the calls before `at` are made, the bind at call `bind`. */
  function BoundAuth(w: nat -> Answer, bind: nat, at: nat, before: Secret, recovery: Secret): Secret {
    if before == EMPTY && at > bind && Lands(w(bind).verdict) then LockoutAuthOf(recovery) else before
  }

  lemma BoundHere(w: nat -> Answer, bind: nat, recovery: Secret)
    ensures forall at :: at > bind ==>
              BoundAuth(w, bind, at, EMPTY, recovery) == if Lands(w(bind).verdict) then LockoutAuthOf(recovery) else EMPTY
    ensures w(bind).verdict.Done? ==> Lands(w(bind).verdict) && !Dies(w(bind).verdict)
  {
  }

  lemma SameBoundAuth(w: nat -> Answer, bind: nat, at: nat, later: nat, before: Secret, recovery: Secret)
    requires at <= later && (before == EMPTY ==> bind < at)
    ensures BoundAuth(w, bind, later, before, recovery) == BoundAuth(w, bind, at, before, recovery)
  {
  }

  /** A rollback that begins at call `at` empties the lockout authValue: the keyring is back, and the change takes effect. */
  predicate ReleasedAt(w: nat -> Answer, at: nat, rekeyed: bool) {
    if rekeyed then w(at).verdict.Done? && Lands(w(at + 1).verdict) else Lands(w(at).verdict)
  }

  /** Where an enrollment leaves the lockout authValue, if it binds it by call `bind` and its run ends before call `at`: at
      the value derived from the recovery secret when the bind took effect and no rollback released it. A rollback
      does not try after a bind that failed late, nor after a rekey that it could not undo. */
  function LockoutEnd(w: nat -> Answer, bind: nat, at: nat, ok: bool, before: Secret, recovery: Secret): Secret {
    if before != EMPTY then before
    else if at <= bind || !Lands(w(bind).verdict) then EMPTY
    else if ok || Dies(w(at - 1).verdict) || at == bind + 1 || !ReleasedAt(w, at, at >= bind + 4) then LockoutAuthOf(recovery)
    else EMPTY
  }

  /** Bound or not, and released or not. */
  lemma LockoutEnds(w: nat -> Answer, bind: nat, at: nat, ok: bool, before: Secret, recovery: Secret, bound: Secret, after: Secret)
    requires at > 0 && bound == BoundAuth(w, bind, at, before, recovery)
    requires before == EMPTY && at >= bind + 2 && !(!ok && Dies(w(at - 1).verdict)) ==> bound == LockoutAuthOf(recovery)
    requires after == if !ok && !Dies(w(at - 1).verdict) && before == EMPTY && at >= bind + 2
                         && ReleasedAt(w, at, at >= bind + 4) then EMPTY else bound
    ensures after == LockoutEnd(w, bind, at, ok, before, recovery)
  {
    hide ReleasedAt, Dies;
  }

  /** The authValue that an enrollment leaves is none, or the derived one. */
  lemma DerivedOrNone(w: nat -> Answer, bind: nat, at: nat, ok: bool, before: Secret, recovery: Secret)
    ensures LockoutEnd(w, bind, at, ok, before, recovery) in {before, EMPTY, LockoutAuthOf(recovery)}
    ensures before != EMPTY ==> LockoutEnd(w, bind, at, ok, before, recovery) == before
  {
  }

  lemma NotYetBound(w: nat -> Answer, bind: nat, at: nat, before: State, recovery: Secret)
    requires at <= bind
    ensures BoundAuth(w, bind, at, before.lockoutAuth, recovery) == before.lockoutAuth
    ensures forall right, key ::
              RekeyedTo(w, RekeyCall(bind, before.lockoutAuth), at, right, before.credential, key) == before.credential
    ensures at < RekeyCall(bind, before.lockoutAuth) + 2
  {
  }

  // ---- Both -------------------------------------------------------------------------------------

  /** The machine has `credential` and `lockoutAuth` as the world has it, after a run that ended before call `at`. */
  ghost predicate EndsWith(w: nat -> Answer, bind: nat, at: nat, ok: bool, start: State, s: State, right: bool, key: Secret,
                           recovery: Secret)
  {
    && s.lockoutAuth == LockoutEnd(w, bind, at, ok, start.lockoutAuth, recovery)
    && s.credential == CredentialEnd(w, RekeyCall(bind, start.lockoutAuth), at, ok, right, start.credential, key)
  }

  lemma BothEnd(w: nat -> Answer, bind: nat, at: nat, ok: bool, start: State, s: State, right: bool, key: Secret,
                recovery: Secret)
    requires s.lockoutAuth == LockoutEnd(w, bind, at, ok, start.lockoutAuth, recovery)
    requires s.credential == CredentialEnd(w, RekeyCall(bind, start.lockoutAuth), at, ok, right, start.credential, key)
    ensures EndsWith(w, bind, at, ok, start, s, right, key, recovery)
  {
    hide LockoutEnd, CredentialEnd;
  }

  lemma NeverStarted(w: nat -> Answer, bind: nat, at: nat, start: State, s: State, right: bool, key: Secret, recovery: Secret)
    requires at <= bind && s.lockoutAuth == start.lockoutAuth && s.credential == start.credential
    ensures EndsWith(w, bind, at, false, start, s, right, key, recovery)
    ensures !ShowsSecret(w, RekeyCall(bind, start.lockoutAuth), at, false)
  {
  }
}
