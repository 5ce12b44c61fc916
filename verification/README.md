# tess: what must never go wrong

tess replaces the password of a login keyring by a random key that is sealed in the TPM. This project models the part of
it that must never strand its user, and the dense algorithms around that part, and proves what they promise:

1. **The enrollment transaction and its lifecycle** (`Secrets`, `Host`, `Plan`, `Endings`, `Enroll`, `AllOrNothing`,
   `Lifecycle`, `History`). A `Host` holds the keyring credential, the data files, the TPM's lockout authValue and the
   Name of its storage primary. Every outside call is answered by an arbitrary function of its number: it may work,
   fail, fail after having taken effect, hand back a wrong object, or be the last one before or after a crash. After a
   crash every call does nothing, so what a method ensures on return holds at every point where the process may have
   died. Theorems quantify over all such worlds and all histories of commands. The plan of an enrollment lists its calls
   and what each must answer; the world and the machine at the start then decide how far a run comes, and what it leaves
   behind is told from them alone.
2. **The PAM stack editor** (`PamText`, `PamBlock`, `PamStack`, `PamMachine`, `Install`). Text is `seq<char>`; the
   meaning of a stack is the machine of pam.conf(5). A block is stripped whole, so a line that others put between its
   markers goes with it (`PamMachine.EnclosedLineIsDropped`).
3. **The face pipeline** (`Align`, `Warp`, `Detect`, `Gate`, `Liveness`, `Matcher`, `Pooling`) over exact reals.
4. **The watchdog** over a helper process (`Watchdog`), with an adversarial child and a virtual clock.
5. **TPM handles** (`TpmHandles`) and **atomic file replacement** (`Persist`), the two layers under the transaction.

`Wrappers`, `Faults` and `Arithmetic` hold what these share.

Code that changes state is modelled by classes and methods with loops, proved against functions and predicates on values;
what the source promises is then proved about those. Keys, PINs and secrets are symbolic terms: a sealed object opens
under its own authValue and primary only, a recovery blob under its own secret only, and the HKDF output labelled for the
lockout hierarchy determines the secret it came from. Square roots, `exp` and the expansion of `@include` are arguments.

## Where the code does not do what its text says

* `enroll/mod.rs:19-20` promises a rollback that leaves "the system exactly as before". It does not in general.
  `AllOrNothing.EnrollForeseen` gives the exact condition for every world and start state, for a run that meets no fault
  after its first failing call (`AllOrNothing.Reversible`): that call did not change the lockout authValue while
  reporting an error, nor leave a blob in place (a late template save is harmless only if the same template stood there),
  and no older face template and no leftover ownership marker was replaced before it. `AllOrNothing.AtomicSteps` and
  `AllOrNothing.SingleFailure` state what holds without late failures; `AllOrNothing.BlobLeftBehind` and
  `AllOrNothing.OlderTemplateLost` are runs that leave a trace.
* `enroll/mod.rs:283-287` calls the first `unlock(old)` a proof of the old credential, before anything is written. The
  keyring daemon may answer Ok to a wrong secret (`tests/phase3_e2e.rs:189-199`), so it is not one.
  `AllOrNothing.WrongCredential` is the run: both blobs are stored, the rekey refuses, everything is rolled back. For any
  credential, right or wrong, `AllOrNothing.EnrollForeseen` says when nothing reaches the disk: exactly when the unlock,
  one of the two draws or the wrap answers an error, or the first save does not take effect.
* `enroll/mod.rs:10-13` has a way back in exist before anything destructive. It exists on disk, but not yet in the hands of
  the user: the recovery secret is printed only once `enroll` has returned (`enroll/cli.rs:82-86`), after the rekey of
  `enroll/mod.rs:429-431`. A process that dies in between leaves a keyring whose key the TPM alone releases, and a TPM
  clear then shuts the user out. `History.Strands` is the exact condition for an enrollment to end so: the rekey takes
  effect, and the process dies before the run is over, or at the rekey of its rollback before that takes effect.
  `History.HeldUnlessStranded` proves that nothing else takes the way back in from its user, `History.Replay` that this is
  so over all histories, clears included, and `History.LockedOut` is the run.
* `lifecycle/mod.rs:244-248` promises that unenrolling never authorizes a wrong reset of the lockout hierarchy where enroll
  has left it to its owner, and keeps that. A marker may however outlive what it stands for: after a cleared TPM, or after
  an unenrollment without the secret and a second enrollment, which finds the authValue set and does not bind. Then the
  reset is tried with a value that the TPM refuses. `Lifecycle.Unenroll` says exactly when, `Enroll.Enroll` that an
  enrollment and its rollback never do it, and `History.ReleaseAfterClear` is such a run.
* `lockout.rs:146-156`: an error of `set_lockout_auth` does not mean that the authValue is unchanged.
  `TpmHandles.Context.SetLockoutAuth` gives both conditions exactly and `TpmHandles.ChangedDespiteError` a run. The
  transaction does not count with that: it journals the authValue only after Ok, so a bind that fails late is never
  released and the TPM stays bound to a secret that nobody was shown (`AllOrNothing.BindOrphaned`).
  `History.Orphans` is the exact condition for an enrollment to end so, over all its ways: a death after the bind, a late
  bind, a release in the rollback without effect.
* `config.rs:234-235` says that a control it accepts "can never silently *grant* a login it shouldn't". With
  `[success=done default=ignore]`, which it accepts (`PamMachine.DoneIsAccepted`), a success ends the stack before a
  later line can refuse (`PamMachine.DoneGrants`). `PamMachine.SuccessIsHarmless` proves that the success action `done` is
  exactly what makes the difference. The line that tess itself installs is `optional`.
* `gate.rs:76-80` promises that `verify` never leaves the illuminator on. `Gate.Rig.Verify` proves when it does, whatever
  the emitter's commands do; with an emitter that obeys, exactly when the second capture of the liveness pair fails and
  the first did not. `Gate.EmitterLeftOn` is such a run.

## Model

| member | source | states |
|---|---|---|
| Hosts.Host.Rekey | crates/tess-cli/src/lifecycle/mod.rs:208-214 | a rekey is atomic: it moves the credential only from the right old value, and an error means no change |
| Hosts.Host.Save | crates/tess-cli/src/enroll/recovery.rs:225-245 | a save puts the whole file in place or nothing; an error may come after the rename, and then `late` names the file |
| Enroll.Enroll | crates/tess-cli/src/enroll/mod.rs:254-345 | for every world: nobody is locked out at any point; an existing enrollment is refused untouched; each outcome tells the truth about the credential and the blobs; a foreign lockout hierarchy is never attempted, and no other is with a value that the TPM refuses; how far the run comes, what it reports as left behind, where credential and lockout authValue end and whether the secret is shown are those that the world decides; a rollback without faults puts the machine back; without faults it succeeds |
| AllOrNothing.EnrollForeseen | crates/tess-cli/src/enroll/mod.rs:254-345 | from the world and the start state alone: success exactly when no step fails; else refusal or rollback, and exactly nothing left behind if and only if the failure was reversible; nothing on disk exactly when the run ends before its first save takes effect |
| AllOrNothing.ExactlyAsBefore | crates/tess-cli/src/enroll/mod.rs:19-23 | a faultless rollback from the step that failed has restored the state exactly if and only if that failure was reversible, late template saves included |
| AllOrNothing.AtomicSteps | crates/tess-cli/src/enroll/mod.rs:1-24 | with all-or-nothing steps and no fault after the first failure, a machine without an older template or marker is left exactly as it was |
| AllOrNothing.SingleFailure | crates/tess-cli/src/enroll/mod.rs:1-24 | one failing call in all the world: the run ends enrolled, or refused or rolled back with everything as it was, according to where the fault lies |
| AllOrNothing.WrongCredential | crates/tess-cli/src/enroll/mod.rs:283-287 | a wrong old credential that the daemon accepts: both blobs are stored, the rekey refuses, everything is exactly rolled back |
| AllOrNothing.BlobLeftBehind | crates/tess-cli/src/enroll/recovery.rs:238-243 | a directory sync that fails after the rename leaves the blob |
| AllOrNothing.OlderTemplateLost | crates/tess-cli/src/enroll/mod.rs:191-197 | a rollback removes the template that replaced an older one |
| AllOrNothing.BindOrphaned | crates/tess-cli/src/enroll/mod.rs:415-420 | a bind reported as failed leaves the lockout hierarchy bound, unmarked, to a secret not shown |
| Plans.RanTo | crates/tess-cli/src/enroll/mod.rs:350-447 | the world and the plan decide how far a run comes: to its end, or to the first step that fails |
| Plans.Continues | crates/tess-cli/src/enroll/mod.rs:350-447 | runs of consecutive parts of the plan are runs of the whole |
| Enroll.Commit | crates/tess-cli/src/enroll/mod.rs:350-447 | wherever it stops, the credential is the old one, or the new key with both blobs opening to it; the journal is faithful to what happened; success leaves keyring open, lockout bound and face credential good |
| Enroll.CommitFace | crates/tess-cli/src/enroll/mod.rs:451-499 | each face file is unchanged, or written and in the journal, or left by a save that failed late; on success the face key on disk unseals the face object to the keyring key |
| Enroll.BindLockout | crates/tess-cli/src/enroll/mod.rs:404-425 | only an empty lockout authValue is bound, to the value derived from this recovery secret, and the journal has it except when the TPM changed it and reported an error |
| Enroll.CommitRekey | crates/tess-cli/src/enroll/mod.rs:427-446 | the journal has the new key exactly when the credential is that key; when that is, is told by the answer to the rekey |
| Enroll.Tx.RollBack | crates/tess-cli/src/enroll/mod.rs:156-239 | credential first: files and lockout go only once the keyring is back on the old password; only what the journal lists goes; the three outcomes mean what they say; the credential moves back exactly if the rekey takes effect; the TPM refuses no release of a journal that has the authValue right; without faults the undo is complete |
| Enroll.Unwinding | crates/tess-cli/src/enroll/mod.rs:121-137 | the rollback of a faithful journal stays within the safe states, its outcome is true, `Restored` leaves no blob, and a full undo is the state before but for the listed leftovers |
| Enroll.ReachedIsSafe | crates/tess-cli/src/enroll/mod.rs:1-24 | every state a transaction can reach from a machine without blobs keeps a supplied password or both paths to the credential, keeps the ownership marker true and a foreign lockout authValue as it was |
| Lifecycle.UnlockWithPin | crates/tess-cli/src/lifecycle/mod.rs:84-92 | it changes nothing but the lock; it opens a locked keyring only when PIN and TPM lead to the credential, and then it does |
| Lifecycle.UnlockWithFace | crates/tess-cli/src/lifecycle/mod.rs:106-119 | the same for the authValue on disk and the face object |
| Lifecycle.Recover | crates/tess-cli/src/lifecycle/mod.rs:124-131 | the same for the recovery secret, without the TPM |
| Lifecycle.Reseal | crates/tess-cli/src/lifecycle/mod.rs:157-184 | touches the metadata file only, keeps everybody in wherever it stops, takes no way back in from its user, and after a cleared TPM restores the TPM path |
| Lifecycle.ReleaseLockoutAuth | crates/tess-cli/src/lifecycle/mod.rs:249-268 | only what tess bound is released, and the marker goes only with it; the TPM is asked with a wrong authValue exactly when the marker stands and the authValue is not the one derived from the secret given |
| Lifecycle.RemoveBlobs | crates/tess-cli/src/lifecycle/mod.rs:272-300 | success means that no blob is left; the lockout marker is never touched |
| Lifecycle.RekeyToPassword | crates/tess-cli/src/lifecycle/mod.rs:191-232 | the credential moves to the password only for a PIN that unseals it, an unverified rekey is taken back, and each exit names the credential |
| Lifecycle.Unenroll | crates/tess-cli/src/lifecycle/mod.rs:191-242 | no blob goes before the keyring verifiably has the password; nobody is locked out wherever it stops; the TPM refuses a release exactly when one is reached, the marker stands and the authValue is not the one derived from the secret given; clean success leaves no blob |
| History.Execute | crates/tess-cli/src/lifecycle/mod.rs:1-20 | every command, cut short anywhere, keeps the no-lockout invariant, the way back in that the user holds unless it strands it, the truth of the marker, which goes only with an empty authValue, a foreign lockout hierarchy untouched, and an authValue the user can account for unless it orphans it |
| History.Replay | crates/tess-cli/src/enroll/mod.rs:1-24 | the same over any history of enroll, unlock, recover, reseal, unenroll, locking and clearing, with the moments between the commands as its trace: across clears of the TPM the user holds a password or a recovery secret that was shown and opens the blob, or an enrollment of the trace stranded it; a lockout authValue the user cannot account for was orphaned by an enrollment of the trace; a foreign hierarchy is left alone |
| History.EnrollThenUnenroll | crates/tess-cli/src/lifecycle/mod.rs:191-242 | without faults, enrolling and unenrolling returns files, lockout hierarchy and credential to what they were |
| History.ExecuteEnroll | crates/tess-cli/src/enroll/mod.rs:254-345 | an enrollment leaves the user the way back in and a lockout authValue to account for, unless it strands the one or orphans the other; then the credential is the key drawn, the authValue the one derived from the secret drawn, and that secret was not shown |
| History.OrphansIs | crates/tess-cli/src/enroll/mod.rs:175-187 | whether an enrollment orphans the lockout authValue is decided by the world and the start: bound, not released, and its secret not shown |
| History.StrandsIs | crates/tess-cli/src/enroll/mod.rs:427-446 | whether an enrollment strands the keyring is decided by the world and the start: the key stays and its recovery secret is not shown |
| History.HeldUnlessStranded | crates/tess-cli/src/enroll/cli.rs:82-86 | a user who has a way back in without the TPM has one after any command, if and only if the command is not a stranding enrollment, but for a key or secret the user has anyway |
| History.Along | crates/tess-cli/src/enroll/mod.rs:1-24 | by induction over the trace: what one command keeps, all keep, and what is lost is lost to a named command of the trace |
| History.ReplayFromScratch | crates/tess-cli/src/enroll/mod.rs:1-24 | from any machine: nobody is locked out while the TPM is not cleared; in any case the user holds the way back in and can account for the lockout authValue, or an enrollment of this history has stranded the one or orphaned the other |
| History.LockedOut | crates/tess-cli/src/enroll/mod.rs:427-446 | a death right after the rekey and then a cleared TPM: neither password nor PIN nor any secret shown leads in |
| History.ReleaseAfterClear | crates/tess-cli/src/lifecycle/mod.rs:243-263 | enroll, clear, reseal, unenroll without faults: the release is refused by the TPM and the marker stays |
| Endings.CredentialEnds | crates/tess-cli/src/enroll/mod.rs:164-170 | rekeyed or not, and taken back or not: the credential after the rollback is the one that the world decides |
| Endings.LockoutEnds | crates/tess-cli/src/enroll/mod.rs:175-187 | bound or not, and released or not: the lockout authValue after the rollback is the one that the world decides |
| PamText.MarkerSpan | crates/tess-cli/src/install/config.rs:90-107 | finds the first END with the most recent BEGIN before it, as the span of whole lines, and nothing exactly when there is no such pair |
| PamText.MarkerLineIndices | crates/tess-cli/src/install/config.rs:111-124 | finds the same pair over lines split in the other way |
| PamText.HasBlock | crates/tess-cli/src/install/config.rs:49-51 | is true exactly when the byte search finds a block |
| PamText.RemoveBlock | crates/tess-cli/src/install/config.rs:77-86 | the iterated splice computes what one pass of a stack matcher over the lines computes, and leaves no BEGIN before an END |
| PamText.SpliceKeepsRun | crates/tess-cli/src/install/config.rs:77-86 | splicing out the first pair does not change what the one-pass matcher yields |
| PamBlock.AddBlock | crates/tess-cli/src/install/config.rs:57-68 | the text without its blocks, its last line ended, and the block |
| PamBlock.AddIsIdempotent | crates/tess-cli/src/install/config.rs:53-68 | adding twice is adding once, for every text |
| PamBlock.RemoveIsIdempotent | crates/tess-cli/src/install/config.rs:70-86 | removing twice is removing once |
| PamBlock.RemoveAfterAdd | crates/tess-cli/src/install/config.rs:57-86 | removing after adding yields the removed text with its last line ended |
| PamBlock.RoundTrip | crates/tess-cli/src/install/config.rs:57-86 | a text comes back from add and remove if and only if it has no block and is empty or ends in a newline |
| PamBlock.UnchangedWithoutBlock | crates/tess-cli/src/install/config.rs:77-86 | removal leaves a text as it is if and only if it has no block |
| PamBlock.AddedHasBlock | crates/tess-cli/src/install/config.rs:49-68 | after adding there is a block |
| PamBlock.RemovalKeepsLines | crates/tess-cli/src/install/config.rs:77-86 | what removal leaves are lines of the text, whole and in order: no two are ever joined |
| PamStack.ValidateStack | crates/tess-cli/src/install/config.rs:148-174 | accepts exactly the stacks whose tess lines all fail open, and otherwise reports the first offending line |
| PamStack.ControlIsFailOpen | crates/tess-cli/src/install/config.rs:243-274 | the loop over the bracket words decides the declarative fail-open condition |
| PamMachine.FailOpenActions | crates/tess-cli/src/install/config.rs:234-274 | under every control the check accepts, every code but success is ignored, whatever the bracket says and in whatever order |
| PamMachine.TessLineIsHarmless | crates/tess-pam/src/lib.rs:22-26 | a tess line of an accepted stack, at any place: a non-success code is a no-op; a success decides at most a stack that nobody had decided, unless its action is `done`; and it never changes a stack that has failed before it |
| PamMachine.TessLineAnywhere | crates/tess-pam/src/lib.rs:22-26 | the same for every control the check accepts, before and after any entries, jumps and resets included |
| PamMachine.SuccessIsHarmless | crates/tess-cli/src/install/config.rs:234-242 | of a control the check accepts, the success decides at most an undecided stack, in every stack, if and only if its action is not `done` |
| PamMachine.DoneGrants | crates/tess-cli/src/install/config.rs:234-242 | with `done`, a success passes a stack that the next line would have refused |
| PamMachine.DoneIsAccepted | crates/tess-cli/src/install/config.rs:243-274 | such a control is accepted by the check |
| PamMachine.AppendOptional | crates/tess-cli/src/install/config.rs:16-47 | a tess line appended to a stack changes its outcome only if nothing else decided it and the module succeeds |
| PamMachine.UndecidedWhenAllIgnored | crates/tess-cli/src/install/config.rs:16-47 | nothing decided a stack, without resets and jumps, exactly when every line of it was ignored |
| PamMachine.SnippetParses | crates/tess-cli/src/install/config.rs:197-220 | the line tess installs parses to an optional session line of its module |
| PamMachine.InstallIsHarmless | crates/tess-cli/src/install/config.rs:57-68 | installing into a text without a block changes the result of no stack but an undecided session stack |
| PamMachine.Reinstall | crates/tess-cli/src/install/config.rs:57-68 | installing into a text with a block is installing into the text without it |
| PamMachine.EnclosedLineIsDropped | crates/tess-cli/src/install/config.rs:77-86 | a line of others between the markers is lost to its stack |
| PamMachine.RemoveKeepsValid | crates/tess-cli/src/install/mod.rs:180-206 | removing blocks keeps an accepted stack accepted |
| PamMachine.AddedIsValid | crates/tess-cli/src/install/mod.rs:110-117 | the edited stack passes the check if and only if the stack without its blocks does |
| Install.Disk.Install | crates/tess-cli/src/install/mod.rs:91-176 | no effect before the check passes; the stack is written last, so a wired stack has its module and a backup wherever the run stops; without faults it succeeds exactly on a valid candidate |
| Install.Disk.Unwire | crates/tess-cli/src/install/mod.rs:185-206 | the stack is replaced by the one-pass result or left alone, and a restored stack that would not pass is never written |
| Install.Disk.Uninstall | crates/tess-cli/src/install/mod.rs:185-232 | unwires first, removes the module when its directory is known, and the backup only when a block went |
| Install.Replay | crates/tess-cli/src/install/mod.rs:83-232 | over any history of runs, each cut short anywhere, the service file is the original or the original with the block, both valid, and a wired stack has module and backup |
| Install.InstallThenUninstall | crates/tess-cli/src/install/mod.rs:475-495 | without faults, installing and uninstalling leaves no trace |
| Persist.Volume.Save | crates/tess-tpm/src/persist.rs:88-135 | at every crash point the file reads as before or complete; after success only the new content can ever be read; every other file that stood there is untouched, so no existing temporary file is reused; without faults it fails exactly on sixteen collisions |
| Persist.Volume.WriteNew | crates/tess-tpm/src/persist.rs:166-175 | creates exclusively: a file that existed is reported and untouched; success means a new, fully synced file |
| Persist.Volume.Publish | crates/tess-cli/src/enroll/recovery.rs:235-241 | rename and directory sync: old or new at every point, only the new one after success |
| Persist.RenameIsAtomic | crates/tess-tpm/src/persist.rs:104-118 | a rename of a synced file shows the old or the whole new content to any crash, and after the directory sync only the new one |
| Persist.SaveAll | crates/tess-tpm/src/persist.rs:88-135 | over any history of saves and crashes the path holds one whole content, that of the last successful save or a later one |
| Watchdog.Child.Supervise | crates/tess-pam/src/helper.rs:128-178 | for every child: an answer within deadline, two graces and one late sleep per wait; signals by the rules; the outcome told by the last call; a child neither reaped nor handed over exactly when a poll failed before any signal; a child that ends in time is never signalled and noticed within one poll |
| Watchdog.Child.Escalate | crates/tess-pam/src/helper.rs:185-201 | SIGTERM only past the deadline to a child just seen alive, SIGKILL only after a full unanswered grace, no call after reaping or an error |
| Watchdog.Child.WaitWithin | crates/tess-pam/src/helper.rs:204-216 | returns within its budget and one late sleep, all polls but the last having found the child alive |
| Watchdog.Kills | crates/tess-pam/src/helper.rs:185-201 | a run of polls, SIGTERM, a grace of polls, SIGKILL and polls obeys the signal discipline |
| TpmHandles.Context.Seal | crates/tess-tpm/src/seal.rs:114-142 | on every path each handle is given back or lost to a stuck call; a bad PIN makes no TPM call; success seals the secret under this PIN and primary |
| TpmHandles.Context.Unseal | crates/tess-tpm/src/seal.rs:149-180 | handles as above; a bad PIN or a wrong Name opens nothing and costs no attempt; the key comes out only for its PIN, its primary and an unlocked TPM; wrong PIN and lockout are told apart |
| TpmHandles.Context.UnsealWithPolicy | crates/tess-tpm/src/seal.rs:204-223 | the policy session is always closed, and an attempt is counted exactly when the TPM judged the PIN wrong |
| TpmHandles.Context.PolicyDigest | crates/tess-tpm/src/seal.rs:228-253 | the trial session is closed on every path |
| TpmHandles.Context.StartSession | crates/tess-tpm/src/esapi.rs:185-208 | a session whose attributes cannot be set is lost, and that is the only way to lose one here |
| TpmHandles.Context.SetLockoutAuth | crates/tess-tpm/src/lockout.rs:129-156 | handles as above; the authValue changes exactly when the lengths fit, the current value is right and bind, session, attributes and change succeed; the result is Ok exactly when the flush and the caching then succeed too |
| TpmHandles.ChangedDespiteError | crates/tess-tpm/src/lockout.rs:146-156 | a run that reports an error with the new authValue in force |
| TpmHandles.Context.PinHolderRecover | crates/tess-tpm/src/lockout.rs:103-114 | refused in lockout without touching anything, else it succeeds exactly when the PIN unseals |
| TpmHandles.Context.CollectRandom | crates/tess-tpm/src/seal.rs:81-109 | exactly the first bytes the generator yields, giving up only on a failed call or eight empty answers in a row, within eight calls a byte |
| TpmHandles.NothingLost | crates/tess-tpm/src/seal.rs:358-367 | the open handles are those from before if and only if no attribute or flush call failed |
| TpmHandles.TryAll | crates/tess-tpm/src/lockout.rs:1-9 | however many PINs are tried, each costs at most one judgement of the TPM, which is what keeps the wrong ones within its limit; only the right one yields the key |
| TpmHandles.SealThenUnseal | crates/tess-tpm/src/seal.rs:111-180 | what was sealed comes back for the same PIN and for no other |
| Align.EstimateSimilarity | crates/mug/src/align.rs:95-165 | the loops and guards accept exactly by variance, orientation and scale, and return the closed-form map |
| Align.BestIsOptimal | crates/mug/src/align.rs:93-165 | no similarity, rotating or reflecting, has a smaller sum of squared residuals |
| Align.ExactImage | crates/mug/src/align.rs:93-165 | if the template is a similarity image of the landmarks, every landmark is mapped exactly onto it |
| Align.CollinearRejected | crates/mug/src/align.rs:133-146 | landmarks on one line, coincident ones included, are never accepted |
| Align.AcceptedScale | crates/mug/src/align.rs:148-157 | an accepted map is a rotation with determinant at least the square of the least scale |
| Warp.AcceptedInverts | crates/mug/src/align.rs:169-177 | the inversion cannot fail after the estimator accepted |
| Warp.BackIsInverse | crates/mug/src/align.rs:78-90 | the sampled coordinates are the one point that the forward map takes to the output pixel |
| Warp.ClampIsIdle | crates/mug/src/align.rs:181-209 | the interpolated value is within 0 and 255 before the clamp |
| Warp.SampleAtPixel | crates/mug/src/align.rs:181-209 | on a pixel of the frame the sample is that pixel |
| Warp.AlignFace | crates/mug/src/align.rs:63-91 | every output pixel is the sample at its preimage; refused exactly for a size out of range or rejected landmarks |
| Warp.IdentityCrop | crates/mug/src/align.rs:20-38 | landmarks on the template give back the frame, for every edge of at least five pixels, and are refused below |
| Detect.DecodeStride | crates/mug/src/detect.rs:95-155 | every cell once and in row order, and only boxes of positive size with finite numbers and a sufficient score |
| Detect.IouInUnit | crates/mug/src/detect.rs:160-171 | between 0 and 1 for boxes of positive size, and 1 for a box with itself |
| Detect.IouSymmetric | crates/mug/src/detect.rs:160-171 | the ratio is symmetric |
| Detect.Nms | crates/mug/src/detect.rs:176-192 | the loops compute the greedy selection from the sorted candidates |
| Detect.SuppressionIsGreedy | crates/mug/src/detect.rs:174-192 | kept boxes are candidates in descending order and pairwise at or under the limit; each dropped one is overlapped beyond it by a kept one of at least its score |
| Detect.SuppressionIsIdempotent | crates/mug/src/detect.rs:174-192 | suppressing again changes nothing |
| Detect.SelectFace | crates/mug/src/detect.rs:415-423 | the face chosen has the highest score of all raw detections, the last such among the kept; none exactly when there were none |
| Gate.DecideMatch | crates/mug/src/gate.rs:152-169 | accepts exactly when there are enough distances and strictly more than half are within the threshold; sorts in place, a permutation |
| Gate.VotesIgnoreOrder | crates/mug/src/gate.rs:147-169 | the count that decides does not depend on the order of the frames |
| Gate.Rig.CapturePair | crates/mug/src/camera/mod.rs:135-163 | a pair is a frame captured in the dark and then one under the emitter; bounded by the deadline but for lateness; the state the emitter ends in is that of the commands made |
| Gate.Rig.CollectWarm | crates/mug/src/gate.rs:81-99 | terminates by the deadline with at most five distances, exactly those of the frames it captured under the emitter, and stops short only when the time is up |
| Gate.Rig.Identify | crates/mug/src/gate.rs:70-102 | the vote over the pair's frame and the warm ones; the guard turns the emitter off on every exit |
| Gate.Rig.Verify | crates/mug/src/gate.rs:43-102 | accepts only a live pair and a strict majority of three to five distances, which are those of all frames captured under the emitter; past the pair the emitter is turned off on every exit; the exact condition for an emitter left on, whether it obeys or not; bounded by the deadline but for lateness |
| Gate.EmitterLeftOn | crates/mug/src/camera/mod.rs:146-156 | a run that returns with the emitter on |
| Liveness.Analyze | crates/mug/src/liveness.rs:126-191 | the loops compute mean, deviation, gradient, fractions and score of the difference, and the verdict is that of the gates |
| Liveness.FirstFailure | crates/mug/src/liveness.rs:222-260 | a pair passes exactly when all six conditions hold |
| Liveness.CompositeScore | crates/mug/src/liveness.rs:213-219 | the score is within 0 and 1 |
| Liveness.MeanGradient | crates/mug/src/liveness.rs:194-211 | the nested loops compute the mean slope over the pixels with a right and a lower neighbour |
| Liveness.BandVariance | crates/mug/src/liveness.rs:161-169 | a difference within a band has at most the variance of half its width squared |
| Liveness.BandGradient | crates/mug/src/liveness.rs:193-211 | and a mean gradient of at most twice its width |
| Liveness.FlatReturnRejected | crates/mug/src/liveness.rs:24-34 | so a return in a band narrower than twice the least deviation is rejected, whatever size, brightness and other thresholds |
| Matcher.CauchySchwarz | crates/mug/src/matcher.rs:28-52 | the dot product squared is at most the product of the energies |
| Matcher.CosineDistance | crates/mug/src/matcher.rs:30-52 | the distance is the complement of the cosine, within 0 and 2 without the clamp; errors exactly on a length mismatch or a zero vector |
| Matcher.DistanceSymmetric | crates/mug/src/matcher.rs:30-52 | the distance is symmetric and unique |
| Matcher.DistanceIgnoresScale | crates/mug/src/matcher.rs:28-52 | scaling a vector by a positive factor changes no distance |
| Matcher.DistanceToItself | crates/mug/src/matcher.rs:30-52 | an embedding is at distance 0 from itself and at no other |
| Pooling.BucketIsRun | crates/mug/src/matcher.rs:138-144 | a pixel falls into a bucket exactly when it lies in that bucket's run |
| Pooling.BucketsPartition | crates/mug/src/matcher.rs:138-144 | the runs are contiguous, cover all pixels, and differ by at most one in size |
| Pooling.BucketSize | crates/mug/src/matcher.rs:138-144 | the count the loop accumulates for a bucket is the size of its run |
| Pooling.SizesAddUp | crates/mug/src/matcher.rs:138-144 | the counts add up to the number of pixels |
| Pooling.Extract | crates/mug/src/matcher.rs:130-168 | the centred averages divided by their norm: sum zero, length one; refused exactly when empty or without structure |

## Left out

* Cryptographic strength, randomness quality, nonces, salts, base64 and JSON: terms and constructors stand for them.
* Concurrency between processes and changes by others to files, keyring or TPM, apart from a locked keyring and a cleared
  TPM.
* File permissions and modes, ownership, symbolic-link races, memory locking and wiping.
- Hosts.Host.Save: one atomic step that may fail late; the layer below it is `Persist`. Removals are durable at once, and
  `Path::exists` is taken to tell the truth.
- Enroll.Enroll: after a crash or a late error between binding the lockout authValue and writing its marker, the authValue
  stays bound without a marker; the invariant claims the marker's truth, not its presence. A process dies at a call, before
  or after its effect; a death between the end of the run and the printing of the secret is one after the last call.
- AllOrNothing.EnrollForeseen: the exact state is told for runs without a fault after the first failing call; with
  faults in the rollback too, `Enroll.Enroll` tells the credential, the blobs, the lockout authValue and the outcome.
- AllOrNothing.SingleFailure: for right inputs; with wrong ones the single fault may fall into the rollback.
- Lifecycle.UnlockWithFace: starts after the face has matched; the match itself is `Gate`.
- History.Replay: the hard reset of the dictionary-attack counter by an external tool is no command of the history.
- Install.Disk.Install: the bytes of the module are an argument, and the backup may be half-written after a crash and is
  accepted as it is by the next run, as in the source. Mode bits and the temporary name are not modelled.
- PamText.MarkerSpan: offsets count characters, not bytes of UTF-8.
- PamMachine.InstallIsHarmless: assumes that no jump goes past the end of the stack; in this model such a jump fails the
  stack, an unknown action word counts as `bad`, and PAM_NEW_AUTHTOK_REQD counts as a success where pam.conf(5) says so.
- Persist.Volume.Save: one process at a time; the process id and the clock in a temporary name are an arbitrary stamp.
- Watchdog.Child.Supervise: requires a positive poll interval; only sleeping takes time; the reaper thread is the flag that
  the child was handed over.
- TpmHandles.Context.Unseal: a session or command that fails without a TPM verdict is one kind of fault; attribute and
  template contents are not modelled.
- TpmHandles.Context.CollectRandom: mixing with the random bytes of the operating system is a plain exclusive or and left out.
- Align.EstimateSimilarity: exact reals; rounding, overflow and the rejection of non-finite landmarks are not modelled, and the
  cosine and sine of the angle are the ratios they compute. The sums are kept in one record, with the sum over the
  destinations beside those the source keeps.
- Detect.DecodeStride: a float is a real or not finite; `sqrt` and `exp` are arbitrary functions.
- Gate.Rig.Verify: embedding and detection are an oracle per frame; times of calls other than captures count as none, and a
  capture takes at least one nanosecond and at most its budget and the slack.
- Matcher.CosineDistance: exact reals, so the check for a non-finite cosine has no counterpart.
* ONNX inference, image resizing, V4L2 and UVC access, warm-up of the camera: oracles or nothing.
* The command line, prompts, status and doctor output, environment parsing, module-directory search, the recovery
  secret's text form, fingerprint client, desktop extension: easy or outside.
