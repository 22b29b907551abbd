/**
 * The leaf element (AbstractStep): a raw status plus an interrupted flag. The reported status masks PENDING and
 * PREPARED as WAITING while the step is interrupted; restart and forceComplete report whether they changed anything.
 * Each operation is one atomic transition; the lock that makes it atomic in the source is not modelled.
 */
module Steps {
  import opened Wrappers
  import opened Statuses
  import opened Elements
  import opened Strategies
  import Interruptible

  /**
   * A step. `errors` and `asset` come from the concrete step class (the work the step does); `raw` is the status
   * field, `interrupted` the flag.
   */
  datatype Step = Step(id: Uuid, name: string, raw: Status, interrupted: bool, errors: seq<string>, asset: Option<Asset>)

  /** How a command response names this step. */
  function RefOf(s: Step): ElementRef {
    ElementRef(s.id, s.name, StepElement)
  }

  /** A new step holds the status it was given and is not interrupted. */
  function NewStep(id: Uuid, name: string, status: Status, errors: seq<string>, asset: Option<Asset>): (s: Step)
    ensures s.id == id && s.name == name && s.raw == status && !s.interrupted
    ensures s.errors == errors && s.asset == asset
    ensures StepStatus(s) == status
  {
    Step(id, name, status, false, errors, asset)
  }

  /** getStatus: interruption shows as WAITING only over PENDING and PREPARED; every other raw status shows through. */
  function StepStatus(s: Step): (r: Status)
    ensures r == Waiting <==> s.raw == Waiting || (s.interrupted && (s.raw == Pending || s.raw == Prepared))
    ensures r != Waiting ==> r == s.raw
  {
    if s.interrupted && (s.raw == Pending || s.raw == Prepared) then Waiting else s.raw
  }

  /** The outcome of setStatus: the prior raw status, the step afterwards, and whether observers were notified. */
  datatype StatusWrite = StatusWrite(prior: Status, step: Step, notified: bool)

  /** setStatus: replaces the raw status only, returns the prior one, and notifies observers only on a real change. */
  function SetStatus(s: Step, status: Status): (r: StatusWrite)
    ensures r.prior == s.raw
    ensures r.step.raw == status
    ensures r.step.(raw := s.raw) == s
    ensures r.notified <==> r.prior != r.step.raw
  {
    StatusWrite(s.raw, s.(raw := status), s.raw != status)
  }

  /** setStatusGetChanged: reports the step itself when the write changed its raw status, and nothing otherwise. */
  function SetStatusGetChanged(s: Step, status: Status): (r: Touched<Step>)
    ensures r.value == SetStatus(s, status).step
    ensures r.changed == [] <==> !SetStatus(s, status).notified
    ensures r.changed != [] ==> r.changed == [RefOf(s)]
  {
    var w := SetStatus(s, status);
    Touched(if w.prior == status then [] else [RefOf(s)], w.step)
  }

  /** setInterruptedGetChanged: sets the flag and answers whether it differed before. */
  function SetInterruptedGetChanged(s: Step, interrupt: bool): (r: Flipped<Step>)
    ensures r.value.interrupted == interrupt
    ensures r.value.(interrupted := s.interrupted) == s
    ensures r.returned <==> s.interrupted != interrupt
  {
    Flipped(s.interrupted != interrupt, s.(interrupted := interrupt))
  }

  /** A step honours the interrupt contract and leaves its raw status alone. */
  function StepInterrupt(s: Step): (r: Flipped<Step>)
    ensures Interruptible.HonoursInterrupt(s.interrupted, r.value.interrupted, r.returned)
    ensures r.value.raw == s.raw && r.value.id == s.id && r.value.name == s.name
  {
    SetInterruptedGetChanged(s, true)
  }

  /** A step honours the proceed contract and leaves its raw status alone. */
  function StepProceed(s: Step): (r: Flipped<Step>)
    ensures Interruptible.HonoursProceed(s.interrupted, r.value.interrupted, r.returned)
    ensures r.value.raw == s.raw && r.value.id == s.id && r.value.name == s.name
  {
    SetInterruptedGetChanged(s, false)
  }

  /** restart: the raw status becomes PENDING; the step is reported exactly when it was not PENDING before. */
  function StepRestart(s: Step): (r: Touched<Step>)
    ensures r.value.raw == Pending && r.value.interrupted == s.interrupted
    ensures r.value.id == s.id && r.value.name == s.name
    ensures r.changed == (if s.raw == Pending then [] else [RefOf(s)])
  {
    SetStatusGetChanged(s, Pending)
  }

  /** forceComplete: the raw status becomes COMPLETE, which no interruption masks. */
  function StepForceComplete(s: Step): (r: Touched<Step>)
    ensures r.value.raw == Complete && StepStatus(r.value) == Complete
    ensures r.value.id == s.id && r.value.name == s.name
    ensures r.changed == (if s.raw == Complete then [] else [RefOf(s)])
  {
    SetStatusGetChanged(s, Complete)
  }

  /** A second restart or forceComplete changes nothing and reports nothing. */
  lemma StepResetsAreIdempotent(s: Step)
    ensures StepRestart(StepRestart(s).value) == Touched([], StepRestart(s).value)
    ensures StepForceComplete(StepForceComplete(s).value) == Touched([], StepForceComplete(s).value)
  {
  }

  /**
   * Interruption is an overlay: interrupting never masks STARTING, IN_PROGRESS, WAITING, COMPLETE or ERROR,
   * masks PENDING and PREPARED as WAITING, and proceeding afterwards shows the untouched raw status again.
   */
  lemma InterruptionIsAnOverlay(s: Step)
    ensures s.raw != Pending && s.raw != Prepared ==> StepStatus(StepInterrupt(s).value) == s.raw
    ensures s.raw == Pending || s.raw == Prepared ==> StepStatus(StepInterrupt(s).value) == Waiting
    ensures StepProceed(StepInterrupt(s).value).value == s.(interrupted := false)
    ensures StepStatus(StepProceed(StepInterrupt(s).value).value) == s.raw
  {
  }

  /** A repeated interrupt or proceed reports no change. */
  lemma StepToggleIsIdempotent(s: Step)
    ensures !StepInterrupt(StepInterrupt(s).value).returned
    ensures !StepProceed(StepProceed(s).value).returned
    ensures StepInterrupt(StepInterrupt(s).value).value == StepInterrupt(s).value
  {
  }
}
