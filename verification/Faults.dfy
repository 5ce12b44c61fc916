/** How an outside call may go. */
module Faults {
  /** `FailLate` reports an error although the effect took place (a directory sync failing after the
      rename, a session flush failing after the TPM changed an authValue). `Bogus` reports success
      and hands back a wrong object; a call that hands back none has then failed. */
  datatype Verdict = Done | Fail | FailLate | Bogus | CrashBefore | CrashAfter

  /** The call is the last of its process. */
  predicate Dies(v: Verdict) {
    v.CrashBefore? || v.CrashAfter?
  }

  /** An error that the process lives to tell. */
  predicate Fails(v: Verdict) {
    !v.Done? && !Dies(v)
  }

  /** An atomic call has taken effect. */
  predicate Moves(v: Verdict) {
    v.Done? || v.CrashAfter?
  }

  /** The effect took place, whatever is reported. */
  predicate Lands(v: Verdict) {
    v.Done? || v.FailLate? || v.CrashAfter?
  }
}
