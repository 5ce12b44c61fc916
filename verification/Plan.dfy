/** The outside calls of an enrollment in their order, and what each must answer for the next to be made. A run
    makes the calls of its plan up to the first that does not succeed, so that the world and the machine at the
    start decide how far it comes. */
module Plans {
  import opened Faults
  import opened Wrappers
  import opened Secrets
  import opened Hosts

  /** `Plain` stands for a call that only has to answer: an unlock, a draw, a capture, a reading. */
  datatype Step =
    | Plain
    | WrapKey(key: Secret, recovery: Secret)
    | SealKey(key: Secret, auth: Secret, primaryName: string)
    | CheckSeal(key: Secret, auth: Secret, primaryName: string)
    | Store(name: FileName)
    | BindAuth
    | RekeyFrom(right: bool)

  /** Whether a step answered by `a` succeeds; `before` answered the step before it. */
  predicate Succeeds(step: Step, a: Answer, before: Answer) {
    match step
    case WrapKey(key, recovery) =>
      var blob := WrapAnswer(a, key, recovery);
      blob.Some? && UnwrapKey(blob.value, recovery) == Some(key)
    case SealKey(key, auth, primaryName) => SealAnswer(a, key, auth, primaryName).Some?
    case CheckSeal(key, auth, primaryName) =>
      var sealed := SealAnswer(before, key, auth, primaryName);
      a.verdict.Done? && sealed.Some? && UnsealValue(sealed.value, auth, primaryName) == Some(key)
    case RekeyFrom(right) => a.verdict.Done? && right
    case _ => a.verdict.Done?
  }

  predicate StepOk(w: nat -> Answer, from: nat, plan: seq<Step>, i: nat)
    requires i < |plan|
  {
    Succeeds(plan[i], w(from + i), w(if i == 0 then from else from + i - 1))
  }

  /** From call `from` to before call `to` the plan was run: to its end, or to its first step that failed. */
  ghost predicate Ran(w: nat -> Answer, from: nat, to: nat, plan: seq<Step>, ok: bool) {
    && from <= to <= from + |plan|
    && (if ok then to == from + |plan| else from < to && !StepOk(w, from, plan, to - from - 1))
    && forall i :: 0 <= i < (if ok then |plan| else to - from - 1) ==> StepOk(w, from, plan, i)
  }

  /** The same, and the process died exactly if its last call says so. */
  ghost predicate Traced(w: nat -> Answer, from: nat, to: nat, plan: seq<Step>, ok: bool, crashed: bool) {
    Ran(w, from, to, plan, ok) && (crashed <==> !ok && Dies(w(to - 1).verdict))
  }

  /** The steps that succeeded. */
  function Completed(from: nat, to: nat, plan: seq<Step>, ok: bool): seq<Step>
    requires from <= to <= from + |plan| && (ok || from < to)
  {
    plan[..if ok then to - from else to - from - 1]
  }

  /** The file that the failed step has left, if it is a save that failed after its rename. */
  function LateFile(w: nat -> Answer, from: nat, to: nat, plan: seq<Step>, ok: bool): Option<FileName>
    requires from <= to <= from + |plan| && (ok || from < to)
  {
    if !ok && w(to - 1).verdict.FailLate? && plan[to - from - 1].Store? then Some(plan[to - from - 1].name) else None
  }

  /** The failed step is a change of the lockout authValue that took place. */
  predicate LateBind(w: nat -> Answer, from: nat, to: nat, plan: seq<Step>, ok: bool)
    requires from <= to <= from + |plan| && (ok || from < to)
  {
    !ok && w(to - 1).verdict.FailLate? && plan[to - from - 1].BindAuth?
  }

  /** The first `k` steps have succeeded. */
  ghost predicate Through(w: nat -> Answer, from: nat, plan: seq<Step>, k: nat) {
    k <= |plan| && forall i :: 0 <= i < k ==> StepOk(w, from, plan, i)
  }

  /** The run has stopped before call `to` at a step that leaves nothing behind. */
  ghost predicate Halted(w: nat -> Answer, from: nat, to: nat, plan: seq<Step>, crashed: bool) {
    && Traced(w, from, to, plan, false, crashed)
    && Completed(from, to, plan, false) == plan[..to - from - 1]
    && LateFile(w, from, to, plan, false) == None
  }

  lemma Start(w: nat -> Answer, from: nat, plan: seq<Step>)
    ensures Through(w, from, plan, 0)
  {
  }

  /** One step further: on, or the end of the run. */
  lemma Next(w: nat -> Answer, from: nat, plan: seq<Step>, k: nat, step: Step, ok: bool)
    requires k < |plan| && Through(w, from, plan, k) && plan[k] == step
    requires ok == Succeeds(step, w(from + k), w(if k == 0 then from else from + k - 1))
    ensures ok ==> Through(w, from, plan, k + 1)
    ensures !ok ==>
              var to := from + k + 1;
              && Traced(w, from, to, plan, false, Dies(w(from + k).verdict))
              && Completed(from, to, plan, false) == plan[..k]
              && LateFile(w, from, to, plan, false)
                 == (if w(from + k).verdict.FailLate? && step.Store? then Some(step.name) else None)
              && LateBind(w, from, to, plan, false) == (w(from + k).verdict.FailLate? && step.BindAuth?)
    ensures ok && k + 1 == |plan| ==>
              var to := from + |plan|;
              && Traced(w, from, to, plan, true, false) && Completed(from, to, plan, true) == plan
              && LateFile(w, from, to, plan, true) == None && !LateBind(w, from, to, plan, true)
  {
    hide Succeeds;
  }

  lemma NextSave(w: nat -> Answer, from: nat, plan: seq<Step>, k: nat, name: FileName, ok: bool)
    requires k < |plan| && Through(w, from, plan, k) && plan[k] == Store(name) && ok == w(from + k).verdict.Done?
    ensures ok ==> Through(w, from, plan, k + 1)
    ensures !ok ==>
              var to := from + k + 1;
              && Traced(w, from, to, plan, false, Dies(w(from + k).verdict))
              && Completed(from, to, plan, false) == plan[..k]
              && LateFile(w, from, to, plan, false) == (if w(from + k).verdict.FailLate? then Some(name) else None)
              && !LateBind(w, from, to, plan, false)
    ensures ok && k + 1 == |plan| ==>
              var to := from + |plan|;
              && Traced(w, from, to, plan, true, false) && Completed(from, to, plan, true) == plan
              && LateFile(w, from, to, plan, true) == None && !LateBind(w, from, to, plan, true)
  {
    Next(w, from, plan, k, Store(name), ok);
  }

  /** A plan is run through and then the next. */
  lemma Continues(w: nat -> Answer, from: nat, to: nat, p: seq<Step>, q: seq<Step>, ok: bool, crashed: bool)
    requires Ran(w, from, from + |p|, p, true) && Traced(w, from + |p|, to, q, ok, crashed)
    requires q != [] ==> !q[0].CheckSeal?
    ensures Traced(w, from, to, p + q, ok, crashed)
    ensures Completed(from, to, p + q, ok) == p + Completed(from + |p|, to, q, ok)
    ensures LateFile(w, from, to, p + q, ok) == LateFile(w, from + |p|, to, q, ok)
    ensures LateBind(w, from, to, p + q, ok) == LateBind(w, from + |p|, to, q, ok)
  {
    hide StepOk;
    SameSteps(w, from, p, q);
  }

  /** The steps of the parts are those of the whole. */
  lemma SameSteps(w: nat -> Answer, from: nat, p: seq<Step>, q: seq<Step>)
    requires q != [] ==> !q[0].CheckSeal?
    ensures forall i :: 0 <= i < |p| ==> (StepOk(w, from, p + q, i) <==> StepOk(w, from, p, i))
    ensures forall i :: |p| <= i < |p| + |q| ==> (StepOk(w, from, p + q, i) <==> StepOk(w, from + |p|, q, i - |p|))
  {
    hide Succeeds;
    if q != [] { FirstStep(w, from, p, q); }
  }

  lemma FirstStep(w: nat -> Answer, from: nat, p: seq<Step>, q: seq<Step>)
    requires q != [] && !q[0].CheckSeal?
    ensures StepOk(w, from, p + q, |p|) <==> StepOk(w, from + |p|, q, 0)
  {
    assert (p + q)[|p|] == q[0];
  }

  /** A plan that failed is not continued. */
  lemma StopsShort(w: nat -> Answer, from: nat, to: nat, p: seq<Step>, q: seq<Step>, crashed: bool)
    requires Traced(w, from, to, p, false, crashed)
    ensures Traced(w, from, to, p + q, false, crashed)
    ensures Completed(from, to, p + q, false) == Completed(from, to, p, false)
    ensures LateFile(w, from, to, p + q, false) == LateFile(w, from, to, p, false)
    ensures LateBind(w, from, to, p + q, false) == LateBind(w, from, to, p, false)
  {
    hide Succeeds;
    assert forall i :: 0 <= i < |p| ==> (StepOk(w, from, p + q, i) <==> StepOk(w, from, p, i));
  }

  /** All there is to know of a run: how far it came, what its failed step left behind, and whether the face template
      was stored and the lockout authValue bound. */
  ghost predicate Report(w: nat -> Answer, from: nat, to: nat, plan: seq<Step>, ok: bool, crashed: bool,
                         late: Option<FileName>, lateBind: bool, template: bool, bound: bool)
  {
    && Traced(w, from, to, plan, ok, crashed)
    && (!crashed ==> late == LateFile(w, from, to, plan, ok) && lateBind == LateBind(w, from, to, plan, ok))
    && (template <==> Store(Template) in Completed(from, to, plan, ok))
    && (bound <==> BindAuth in Completed(from, to, plan, ok))
  }

  lemma ReportContinues(w: nat -> Answer, from: nat, to: nat, p: seq<Step>, q: seq<Step>, ok: bool, crashed: bool,
                        late: Option<FileName>, lateBind: bool, template: bool, bound: bool, template': bool, bound': bool)
    requires Report(w, from, from + |p|, p, true, false, None, false, template, bound)
    requires Report(w, from + |p|, to, q, ok, crashed, late, lateBind, template', bound') && (q != [] ==> !q[0].CheckSeal?)
    ensures Report(w, from, to, p + q, ok, crashed, late, lateBind, template || template', bound || bound')
  {
    hide Ran, StepOk;
    RunThrough(w, from, p);
    Continues(w, from, to, p, q, ok, crashed);
  }

  lemma ReportEnds(w: nat -> Answer, from: nat, to: nat, p: seq<Step>, crashed: bool, late: Option<FileName>, lateBind: bool,
                   template: bool, bound: bool)
    requires Report(w, from, to, p, true, crashed, late, lateBind, template, bound)
    ensures to == from + |p| && !crashed && late == None && !lateBind
  {
  }

  lemma RunThrough(w: nat -> Answer, from: nat, p: seq<Step>)
    requires Traced(w, from, from + |p|, p, true, false)
    ensures Ran(w, from, from + |p|, p, true) && Completed(from, from + |p|, p, true) == p
  {
  }

  lemma ReportStops(w: nat -> Answer, from: nat, to: nat, p: seq<Step>, q: seq<Step>, crashed: bool,
                    late: Option<FileName>, lateBind: bool, template: bool, bound: bool)
    requires Report(w, from, to, p, false, crashed, late, lateBind, template, bound)
    ensures Report(w, from, to, p + q, false, crashed, late, lateBind, template, bound)
  {
    hide Ran, StepOk;
    StopsShort(w, from, to, p, q, crashed);
  }

  /** A plan without template and bind reports neither. */
  lemma ReportPlain(w: nat -> Answer, from: nat, to: nat, plan: seq<Step>, ok: bool, crashed: bool, late: Option<FileName>)
    requires Traced(w, from, to, plan, ok, crashed) && Store(Template) !in plan && BindAuth !in plan
    requires !crashed ==> late == LateFile(w, from, to, plan, ok)
    ensures Report(w, from, to, plan, ok, crashed, late, false, false, false)
  {
    hide StepOk;
    if !ok { assert plan[to - from - 1] in plan; }
  }

  /** Step `k` is the first that fails. */
  ghost predicate FailsAt(w: nat -> Answer, from: nat, plan: seq<Step>, k: nat) {
    k < |plan| && !StepOk(w, from, plan, k) && forall i :: 0 <= i < k ==> StepOk(w, from, plan, i)
  }

  /** The world and the plan decide how far a run comes. */
  lemma RanTo(w: nat -> Answer, from: nat, to: nat, plan: seq<Step>, ok: bool)
    requires Ran(w, from, to, plan, ok)
    ensures forall k :: FailsAt(w, from, plan, k) <==> !ok && to == from + k + 1
  {
    hide Succeeds;
    if !ok { assert FailsAt(w, from, plan, to - from - 1); }
  }

  // ---- The plan of an enrollment ----------------------------------------------------------------

  function RecoverySteps(key: Secret, recovery: Secret): seq<Step> {
    [WrapKey(key, recovery), Store(Recovery)]
  }

  function SealSteps(key: Secret, pin: Secret, primaryName: string): seq<Step> {
    [SealKey(key, pin, primaryName), CheckSeal(key, pin, primaryName), Store(Metadata)]
  }

  function FaceSteps(key: Secret, aFace: Secret, primaryName: string): seq<Step> {
    [Plain, Plain, SealKey(key, aFace, primaryName), CheckSeal(key, aFace, primaryName),
     Store(MetadataFace), Store(FaceKey), Store(Template)]
  }

  function LockoutSteps(foreign: bool): seq<Step> {
    if foreign then [Plain] else [Plain, BindAuth, Store(LockoutOwned)]
  }

  function RekeySteps(right: bool): seq<Step> {
    [RekeyFrom(right), Plain, Plain, Plain]
  }

  /** The steps that touch the machine itself. */
  function MachineSteps(foreign: bool, right: bool): seq<Step> {
    LockoutSteps(foreign) + RekeySteps(right)
  }

  /** The steps that write the files; the face authValue is drawn at the seventh call. */
  function BlobSteps(w: nat -> Answer, from: nat, key: Secret, recovery: Secret, pin: Secret, primaryName: string, face: bool)
    : seq<Step>
  {
    RecoverySteps(key, recovery) + SealSteps(key, pin, primaryName)
    + if face then FaceSteps(key, w(from + 6).secret, primaryName) else []
  }

  function CommitSteps(w: nat -> Answer, from: nat, s: State, oldPassword: Secret, pin: Secret, key: Secret, recovery: Secret,
                       face: bool): seq<Step>
  {
    BlobSteps(w, from, key, recovery, pin, s.primaryName, face)
    + MachineSteps(s.lockoutAuth != EMPTY, s.credential == oldPassword)
  }

  lemma MachineStepsStart(foreign: bool, right: bool)
    ensures var q := MachineSteps(foreign, right); |q| > 0 && q[0] == Plain
  {
  }

  lemma PlanParts(w: nat -> Answer, from: nat, s: State, oldPassword: Secret, pin: Secret, key: Secret, recovery: Secret,
                  face: bool)
    ensures CommitSteps(w, from, s, oldPassword, pin, key, recovery, face)
         == BlobSteps(w, from, key, recovery, pin, s.primaryName, face)
            + MachineSteps(s.lockoutAuth != EMPTY, s.credential == oldPassword)
  {
  }

  /** Everything `enroll` calls when nothing stops it, from call `from` on. */
  function EnrollSteps(w: nat -> Answer, from: nat, s: State, oldPassword: Secret, pin: Secret, face: bool): seq<Step> {
    [Plain, Plain, Plain]
    + CommitSteps(w, from + 3, s, oldPassword, pin, w(from + 1).secret, w(from + 2).secret, face)
  }
}
