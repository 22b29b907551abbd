/**
 * The plan tree: a Plan owns Phases, a Phase owns Steps. Both parents share the aggregation and fan-out of
 * ParentElement; Phase (DefaultPhase is not part of this model) is taken to mirror DefaultPlan one level down.
 * Statuses are computed fresh from the tree; `sel` is the strategies' getCandidates.
 */
module Plans {
  import opened Wrappers
  import opened Statuses
  import opened Elements
  import opened Strategies
  import opened Steps
  import opened Parents

  datatype Phase = Phase(id: Uuid, name: string, steps: seq<Step>, strategy: Strategy, errors: seq<string>)

  datatype Plan = Plan(id: Uuid, name: string, phases: seq<Phase>, strategy: Strategy, errors: seq<string>)

  /** Constants.DEPLOY_PLAN_NAME: the plan the deprecated /plan routes address and the uninstall plan's name. */
  const DeployPlanName: string := "deploy"

  /** The position of one step in a plan: phase index, then step index. */
  datatype Address = Address(phase: nat, step: nat)

  /** The element operations the command surface applies. */
  datatype Op = Proceed | Interrupt | Restart | ForceComplete

  function PhaseRef(ph: Phase): ElementRef {
    ElementRef(ph.id, ph.name, PhaseElement)
  }

  function PlanRef(p: Plan): ElementRef {
    ElementRef(p.id, p.name, PlanElement)
  }

  predicate ValidAddress(p: Plan, a: Address) {
    a.phase < |p.phases| && a.step < |p.phases[a.phase].steps|
  }

  /*** Phase: status and errors ***/

  function StepStatuses(steps: seq<Step>): seq<Status> {
    seq(|steps|, i requires 0 <= i < |steps| => StepStatus(steps[i]))
  }

  function StepViews(steps: seq<Step>): seq<ChildView> {
    seq(|steps|, i requires 0 <= i < |steps| => ChildView(StepStatus(steps[i]), steps[i].asset))
  }

  /** getErrors(errors) of a phase: its own errors, then each step's, in step order. */
  function PhaseErrors(ph: Phase): seq<string> {
    ph.errors + Concat(seq(|ph.steps|, i requires 0 <= i < |ph.steps| => ph.steps[i].errors))
  }

  /** getStatus of a phase: candidates are asked for with an empty dirty-asset set. */
  function PhaseStatus(ph: Phase, sel: Selector): Status {
    var kids := StepStatuses(ph.steps);
    Aggregate(Some(kids), PhaseErrors(ph) != [], ph.strategy.interrupted,
              Select(kids, sel(ph.strategy, StepViews(ph.steps), {})))
  }

  /*** Plan: status and errors ***/

  function PhaseStatuses(phases: seq<Phase>, sel: Selector): seq<Status> {
    seq(|phases|, i requires 0 <= i < |phases| => PhaseStatus(phases[i], sel))
  }

  function PhaseViews(phases: seq<Phase>, sel: Selector): seq<ChildView> {
    seq(|phases|, i requires 0 <= i < |phases| => ChildView(PhaseStatus(phases[i], sel), None))
  }

  /** getErrors() of DefaultPlan: the plan's own errors, then each phase's getErrors(), in phase order. */
  function PlanErrors(p: Plan): seq<string> {
    p.errors + Concat(seq(|p.phases|, i requires 0 <= i < |p.phases| => PhaseErrors(p.phases[i])))
  }

  /** getStatus of a plan, aggregated over its phases. */
  function PlanStatus(p: Plan, sel: Selector): Status {
    var kids := PhaseStatuses(p.phases, sel);
    Aggregate(Some(kids), PlanErrors(p) != [], p.strategy.interrupted,
              Select(kids, sel(p.strategy, PhaseViews(p.phases, sel), {})))
  }

  /** A string is among a phase's errors exactly when it is one of the phase's own errors or one of a step's. */
  lemma PhaseErrorsMembers(ph: Phase, e: string)
    ensures e in PhaseErrors(ph) <==>
      e in ph.errors || exists j :: 0 <= j < |ph.steps| && e in ph.steps[j].errors
  {
    var stepErrs := seq(|ph.steps|, j requires 0 <= j < |ph.steps| => ph.steps[j].errors);
    ConcatMembers(stepErrs, e);
    assert forall j :: 0 <= j < |ph.steps| ==> stepErrs[j] == ph.steps[j].errors;
  }

  /**
   * Errors are collected without loss or invention: a string is among the plan's errors exactly when it is one of
   * the plan's own errors, a phase's own errors, or a step's errors.
   */
  lemma PlanErrorsMembers(p: Plan, e: string)
    ensures e in PlanErrors(p) <==>
      || e in p.errors
      || (exists i :: 0 <= i < |p.phases| && e in p.phases[i].errors)
      || (exists i, j :: 0 <= i < |p.phases| && 0 <= j < |p.phases[i].steps| && e in p.phases[i].steps[j].errors)
  {
    var phaseErrs := seq(|p.phases|, i requires 0 <= i < |p.phases| => PhaseErrors(p.phases[i]));
    ConcatMembers(phaseErrs, e);
    forall i | 0 <= i < |p.phases| {
      PhaseErrorsMembers(p.phases[i], e);
    }
    if exists i, j :: 0 <= i < |p.phases| && 0 <= j < |p.phases[i].steps| && e in p.phases[i].steps[j].errors {
      var i, j :| 0 <= i < |p.phases| && 0 <= j < |p.phases[i].steps| && e in p.phases[i].steps[j].errors;
      assert e in phaseErrs[i];
    }
    if exists i :: 0 <= i < |p.phases| && e in p.phases[i].errors {
      var i :| 0 <= i < |p.phases| && e in p.phases[i].errors;
      assert e in phaseErrs[i];
    }
  }

  /** A plan's error list is empty exactly when its own list and every phase's error list are. */
  lemma PlanErrorsEmpty(p: Plan)
    ensures PlanErrors(p) == [] <==> p.errors == [] && forall i :: 0 <= i < |p.phases| ==> PhaseErrors(p.phases[i]) == []
  {
    var phaseErrs := seq(|p.phases|, i requires 0 <= i < |p.phases| => PhaseErrors(p.phases[i]));
    ConcatEmpty(phaseErrs);
    assert forall i :: 0 <= i < |p.phases| ==> phaseErrs[i] == PhaseErrors(p.phases[i]);
  }

  /** A phase's error list is empty exactly when its own list and every step's list are. */
  lemma PhaseErrorsEmpty(ph: Phase)
    ensures PhaseErrors(ph) == [] <==> ph.errors == [] && forall j :: 0 <= j < |ph.steps| ==> ph.steps[j].errors == []
  {
    var stepErrs := seq(|ph.steps|, j requires 0 <= j < |ph.steps| => ph.steps[j].errors);
    ConcatEmpty(stepErrs);
    assert forall j :: 0 <= j < |ph.steps| ==> stepErrs[j] == ph.steps[j].errors;
  }

  /** A phase is COMPLETE exactly when it has no errors anywhere and every step reports COMPLETE. */
  lemma PhaseCompleteIff(ph: Phase, sel: Selector)
    ensures PhaseStatus(ph, sel) == Complete <==>
      PhaseErrors(ph) == [] && forall j :: 0 <= j < |ph.steps| ==> StepStatus(ph.steps[j]) == Complete
  {
    var kids := StepStatuses(ph.steps);
    assert forall j :: 0 <= j < |ph.steps| ==> kids[j] == StepStatus(ph.steps[j]);
  }

  /**
   * A plan is COMPLETE exactly when no error string exists anywhere in it and every step of every phase reports
   * COMPLETE; in particular a plan with no phases and no errors is COMPLETE.
   */
  lemma PlanCompleteIff(p: Plan, sel: Selector)
    ensures PlanStatus(p, sel) == Complete <==>
      PlanErrors(p) == [] &&
      forall i, j :: 0 <= i < |p.phases| && 0 <= j < |p.phases[i].steps| ==> StepStatus(p.phases[i].steps[j]) == Complete
  {
    var kids := PhaseStatuses(p.phases, sel);
    assert PlanStatus(p, sel) == Complete <==> PlanErrors(p) == [] && AllHaveStatus(Complete, kids);
    PlanErrorsEmpty(p);
    forall i | 0 <= i < |p.phases| {
      PhaseCompleteIff(p.phases[i], sel);
    }
    assert forall i :: 0 <= i < |p.phases| ==> kids[i] == PhaseStatus(p.phases[i], sel);
  }

  /** The plan with no phases and no errors (what the uninstall builders fall back to) is COMPLETE. */
  lemma EmptyPlanIsComplete(p: Plan, sel: Selector)
    requires p.phases == [] && p.errors == []
    ensures PlanStatus(p, sel) == Complete
  {
    PlanCompleteIff(p, sel);
  }

  /** A step in ERROR, or a step carrying an error string, makes its phase and the whole plan ERROR. */
  lemma StepFailurePoisonsPlan(p: Plan, sel: Selector, a: Address)
    requires ValidAddress(p, a)
    requires p.phases[a.phase].steps[a.step].raw == Error || p.phases[a.phase].steps[a.step].errors != []
    ensures PhaseStatus(p.phases[a.phase], sel) == Error
    ensures PlanStatus(p, sel) == Error
  {
    var ph := p.phases[a.phase];
    var s := ph.steps[a.step];
    if s.raw == Error {
      assert StepStatuses(ph.steps)[a.step] == Error;
    } else {
      var e := s.errors[0];
      PlanErrorsMembers(p, e);
      assert e in PlanErrors(p);
      var stepErrs := seq(|ph.steps|, j requires 0 <= j < |ph.steps| => ph.steps[j].errors);
      ConcatMembers(stepErrs, e);
      assert e in stepErrs[a.step];
    }
    assert PhaseStatuses(p.phases, sel)[a.phase] == Error;
  }

  /** Status reads the strategies only with an empty dirty-asset set, so answers for other dirty sets never matter. */
  lemma StatusIgnoresDirtyAssets(p: Plan, sel1: Selector, sel2: Selector)
    requires forall st, views :: sel1(st, views, {}) == sel2(st, views, {})
    ensures PlanStatus(p, sel1) == PlanStatus(p, sel2)
    ensures forall i :: 0 <= i < |p.phases| ==> PhaseStatus(p.phases[i], sel1) == PhaseStatus(p.phases[i], sel2)
  {
    assert PhaseStatuses(p.phases, sel1) == PhaseStatuses(p.phases, sel2);
    assert PhaseViews(p.phases, sel1) == PhaseViews(p.phases, sel2);
  }

  /*** Interrupt and proceed: the strategy only, never the children ***/

  function PhaseInterrupt(ph: Phase): (r: Flipped<Phase>)
    ensures r.value == ph.(strategy := StrategyInterrupt(ph.strategy).value)
    ensures r.value.strategy.interrupted && r.value.steps == ph.steps
    ensures r.returned == StrategyInterrupt(ph.strategy).returned
  {
    var t := StrategyInterrupt(ph.strategy);
    Flipped(t.returned, ph.(strategy := t.value))
  }

  function PhaseProceed(ph: Phase): (r: Flipped<Phase>)
    ensures r.value == ph.(strategy := StrategyProceed(ph.strategy).value)
    ensures !r.value.strategy.interrupted && r.value.steps == ph.steps
    ensures r.returned == StrategyProceed(ph.strategy).returned
  {
    var t := StrategyProceed(ph.strategy);
    Flipped(t.returned, ph.(strategy := t.value))
  }

  function PlanInterrupt(p: Plan): (r: Flipped<Plan>)
    ensures r.value == p.(strategy := StrategyInterrupt(p.strategy).value)
    ensures r.value.strategy.interrupted && r.value.phases == p.phases
    ensures r.returned == StrategyInterrupt(p.strategy).returned
  {
    var t := StrategyInterrupt(p.strategy);
    Flipped(t.returned, p.(strategy := t.value))
  }

  function PlanProceed(p: Plan): (r: Flipped<Plan>)
    ensures r.value == p.(strategy := StrategyProceed(p.strategy).value)
    ensures !r.value.strategy.interrupted && r.value.phases == p.phases
    ensures r.returned == StrategyProceed(p.strategy).returned
  {
    var t := StrategyProceed(p.strategy);
    Flipped(t.returned, p.(strategy := t.value))
  }

  /**
   * A parent passes its strategy's answer through, so it inherits the inversion: interrupt() on a proceeding plan
   * returns false although it changed state, and on an interrupted plan returns true although it changed nothing.
   */
  lemma ParentReturnIsInverted(p: Plan, ph: Phase)
    ensures PlanInterrupt(p).returned == p.strategy.interrupted
    ensures PlanProceed(p).returned == !p.strategy.interrupted
    ensures PhaseInterrupt(ph).returned == ph.strategy.interrupted
    ensures PhaseProceed(ph).returned == !ph.strategy.interrupted
  {
    StrategyReturnIsInverted(p.strategy);
    StrategyReturnIsInverted(ph.strategy);
  }

  /** isEligible of a parent: whatever Element's default says, and not interrupted. */
  function ParentIsEligible(baseEligible: bool, strategy: Strategy): (r: bool)
    ensures r <==> baseEligible && !strategy.interrupted
  {
    baseEligible && !strategy.interrupted
  }

  /**
   * Interrupting a phase or plan makes it ineligible whatever the default says; proceeding gives the default back.
   */
  lemma InterruptGovernsEligibility(p: Plan, ph: Phase, baseEligible: bool)
    ensures !ParentIsEligible(baseEligible, PlanInterrupt(p).value.strategy)
    ensures ParentIsEligible(baseEligible, PlanProceed(p).value.strategy) == baseEligible
    ensures !ParentIsEligible(baseEligible, PhaseInterrupt(ph).value.strategy)
    ensures ParentIsEligible(baseEligible, PhaseProceed(ph).value.strategy) == baseEligible
  {
  }

  /*** Restart and forceComplete: fan out to every child, collect what changed ***/

  /** Step by step, the one-item report of a step whose raw status differs from `target`, else the empty report. */
  function Differing(steps: seq<Step>, target: Status): (r: seq<seq<ElementRef>>)
    ensures |r| == |steps|
  {
    seq(|steps|, j requires 0 <= j < |steps| => if steps[j].raw != target then [RefOf(steps[j])] else [])
  }

  /** The steps reported by `Differing`: exactly those whose raw status is not `target`. */
  lemma DifferingMembers(steps: seq<Step>, target: Status)
    ensures forall x :: x in Concat(Differing(steps, target)) <==>
      exists j :: 0 <= j < |steps| && steps[j].raw != target && x == RefOf(steps[j])
  {
    var d := Differing(steps, target);
    forall x ensures x in Concat(d) <==> exists j :: 0 <= j < |steps| && steps[j].raw != target && x == RefOf(steps[j]) {
      ConcatMembers(d, x);
      if x in Concat(d) {
        var j :| 0 <= j < |d| && x in d[j];
        assert steps[j].raw != target && x == RefOf(steps[j]);
      }
      if exists j :: 0 <= j < |steps| && steps[j].raw != target && x == RefOf(steps[j]) {
        var j :| 0 <= j < |steps| && steps[j].raw != target && x == RefOf(steps[j]);
        assert x in d[j];
      }
    }
  }

  /** Sets every step's raw status to `target`; reports exactly the steps whose raw status differed, in step order. */
  function SetAllSteps(steps: seq<Step>, target: Status): (r: Touched<seq<Step>>)
    ensures |r.value| == |steps|
    ensures r.changed == Concat(Differing(steps, target))
    ensures forall j :: 0 <= j < |steps| ==> r.value[j] == steps[j].(raw := target)
    ensures forall x :: x in r.changed <==> exists j :: 0 <= j < |steps| && steps[j].raw != target && x == RefOf(steps[j])
    ensures |r.changed| <= |steps|
    ensures (forall j :: 0 <= j < |steps| ==> steps[j].raw == target) ==> r.changed == []
    decreases |steps|
  {
    if steps == [] then Touched([], [])
    else
      var head := SetStatusGetChanged(steps[0], target);
      var tail := SetAllSteps(steps[1..], target);
      assert Differing(steps, target)[1..] == Differing(steps[1..], target);
      DifferingMembers(steps, target);
      Touched(head.changed + tail.changed, [head.value] + tail.value)
  }

  function PhaseSetAll(ph: Phase, target: Status): (r: Touched<Phase>)
    ensures r.value == ph.(steps := SetAllSteps(ph.steps, target).value)
    ensures r.changed == SetAllSteps(ph.steps, target).changed
  {
    var t := SetAllSteps(ph.steps, target);
    Touched(t.changed, ph.(steps := t.value))
  }

  /** restart of a phase: every step back to PENDING, reporting the steps that were not PENDING. */
  function PhaseRestart(ph: Phase): Touched<Phase> {
    PhaseSetAll(ph, Pending)
  }

  /** forceComplete of a phase: every step COMPLETE, reporting the steps that were not COMPLETE. */
  function PhaseForceComplete(ph: Phase): Touched<Phase> {
    PhaseSetAll(ph, Complete)
  }

  /** Each phase's report of changed steps, in phase order. */
  function PhaseReports(phases: seq<Phase>, target: Status): (r: seq<seq<ElementRef>>)
    ensures |r| == |phases|
    ensures forall i :: 0 <= i < |phases| ==> r[i] == SetAllSteps(phases[i].steps, target).changed
  {
    seq(|phases|, i requires 0 <= i < |phases| => PhaseSetAll(phases[i], target).changed)
  }

  /** Applies PhaseSetAll to every phase, in order, and gathers each phase's report. */
  function SetAllPhases(phases: seq<Phase>, target: Status): (r: Touched<seq<Phase>>)
    ensures |r.value| == |phases|
    ensures forall i :: 0 <= i < |phases| ==> r.value[i] == PhaseSetAll(phases[i], target).value
    ensures r.changed == Concat(PhaseReports(phases, target))
  {
    Touched(Concat(PhaseReports(phases, target)),
            seq(|phases|, i requires 0 <= i < |phases| => PhaseSetAll(phases[i], target).value))
  }

  /** A step is reported only if its raw status differed from the target. */
  lemma ReportedStepsDiffered(phases: seq<Phase>, target: Status, x: ElementRef)
    requires x in Concat(PhaseReports(phases, target))
    ensures exists i, j :: 0 <= i < |phases| && 0 <= j < |phases[i].steps| && phases[i].steps[j].raw != target && x == RefOf(phases[i].steps[j])
  {
    var reports := PhaseReports(phases, target);
    ConcatMembers(reports, x);
    var i :| 0 <= i < |reports| && x in reports[i];
    assert x in SetAllSteps(phases[i].steps, target).changed;
    var j :| 0 <= j < |phases[i].steps| && phases[i].steps[j].raw != target && x == RefOf(phases[i].steps[j]);
  }

  /** Every step whose raw status differed from the target is reported. */
  lemma DifferingStepsAreReported(phases: seq<Phase>, target: Status, i: nat, j: nat)
    requires i < |phases| && j < |phases[i].steps| && phases[i].steps[j].raw != target
    ensures RefOf(phases[i].steps[j]) in Concat(PhaseReports(phases, target))
  {
    var reports := PhaseReports(phases, target);
    var x := RefOf(phases[i].steps[j]);
    assert x in SetAllSteps(phases[i].steps, target).changed;
    assert x in reports[i];
    ConcatMembers(reports, x);
  }

  /** The gathered report names exactly the steps, across all phases, whose raw status differed from the target. */
  lemma SetAllPhasesReportsChangedSteps(phases: seq<Phase>, target: Status)
    ensures forall x :: x in SetAllPhases(phases, target).changed <==>
      exists i, j :: 0 <= i < |phases| && 0 <= j < |phases[i].steps| && phases[i].steps[j].raw != target && x == RefOf(phases[i].steps[j])
    ensures (forall i, j :: 0 <= i < |phases| && 0 <= j < |phases[i].steps| ==> phases[i].steps[j].raw == target) ==>
      SetAllPhases(phases, target).changed == []
  {
    var reports := PhaseReports(phases, target);
    forall x | x in Concat(reports)
      ensures exists i, j :: 0 <= i < |phases| && 0 <= j < |phases[i].steps| && phases[i].steps[j].raw != target && x == RefOf(phases[i].steps[j])
    {
      ReportedStepsDiffered(phases, target, x);
    }
    forall x | exists i, j :: 0 <= i < |phases| && 0 <= j < |phases[i].steps| && phases[i].steps[j].raw != target && x == RefOf(phases[i].steps[j])
      ensures x in Concat(reports)
    {
      var i, j :| 0 <= i < |phases| && 0 <= j < |phases[i].steps| && phases[i].steps[j].raw != target && x == RefOf(phases[i].steps[j]);
      DifferingStepsAreReported(phases, target, i, j);
    }
    if forall i, j :: 0 <= i < |phases| && 0 <= j < |phases[i].steps| ==> phases[i].steps[j].raw == target {
      forall i | 0 <= i < |phases| ensures reports[i] == [] {
        assert forall j :: 0 <= j < |phases[i].steps| ==> phases[i].steps[j].raw == target;
      }
      ConcatEmpty(reports);
    }
  }

  function PlanSetAll(p: Plan, target: Status): (r: Touched<Plan>)
    ensures r.value == p.(phases := SetAllPhases(p.phases, target).value)
    ensures r.changed == SetAllPhases(p.phases, target).changed
  {
    var t := SetAllPhases(p.phases, target);
    Touched(t.changed, p.(phases := t.value))
  }

  /** restart of a plan: every step of every phase back to PENDING; reports the steps that were not PENDING. */
  function PlanRestart(p: Plan): Touched<Plan> {
    PlanSetAll(p, Pending)
  }

  /** forceComplete of a plan: every step COMPLETE; reports the steps that were not COMPLETE. */
  function PlanForceComplete(p: Plan): Touched<Plan> {
    PlanSetAll(p, Complete)
  }

  /**
   * restart/forceComplete of a plan reach every step: afterwards each step's raw status is the target, nothing else
   * about any element changes, and the reported elements are exactly the steps that were not already there.
   */
  lemma PlanResetReachesEveryStep(p: Plan, target: Status)
    ensures var r := PlanSetAll(p, target).value;
      && r.id == p.id && r.name == p.name && r.strategy == p.strategy && r.errors == p.errors
      && |r.phases| == |p.phases|
      && (forall i :: 0 <= i < |p.phases| ==>
            r.phases[i] == p.phases[i].(steps := r.phases[i].steps) && |r.phases[i].steps| == |p.phases[i].steps|)
      && (forall i, j :: 0 <= i < |p.phases| && 0 <= j < |p.phases[i].steps| ==>
            r.phases[i].steps[j] == p.phases[i].steps[j].(raw := target))
    ensures forall x :: x in PlanSetAll(p, target).changed <==>
      exists a :: ValidAddress(p, a) && p.phases[a.phase].steps[a.step].raw != target && x == RefOf(p.phases[a.phase].steps[a.step])
  {
    SetAllPhasesReportsChangedSteps(p.phases, target);
    var c := PlanSetAll(p, target).changed;
    forall x | x in c
      ensures exists a :: ValidAddress(p, a) && p.phases[a.phase].steps[a.step].raw != target && x == RefOf(p.phases[a.phase].steps[a.step])
    {
      var i, j :| 0 <= i < |p.phases| && 0 <= j < |p.phases[i].steps| && p.phases[i].steps[j].raw != target && x == RefOf(p.phases[i].steps[j]);
      assert ValidAddress(p, Address(i, j));
    }
  }

  /** A second restart (or forceComplete) of a plan reports nothing and changes nothing. */
  lemma PlanResetIsIdempotent(p: Plan, target: Status)
    ensures PlanSetAll(PlanSetAll(p, target).value, target) == Touched([], PlanSetAll(p, target).value)
  {
    var once := PlanSetAll(p, target);
    var twice := PlanSetAll(once.value, target);
    PlanResetReachesEveryStep(p, target);
    SetAllPhasesReportsChangedSteps(once.value.phases, target);
    forall i | 0 <= i < |p.phases| ensures twice.value.phases[i] == once.value.phases[i] {
      assert twice.value.phases[i].steps == once.value.phases[i].steps;
    }
    assert twice.value.phases == once.value.phases;
  }

  /**
   * After forceComplete a plan is COMPLETE exactly when it carries no error string anywhere; an error string keeps
   * it at ERROR however its steps stand.
   */
  lemma ForceCompletedPlanIsComplete(p: Plan, sel: Selector)
    ensures PlanStatus(PlanForceComplete(p).value, sel) == Complete <==> PlanErrors(p) == []
  {
    ResetKeepsErrors(p, Complete);
    PlanCompleteIff(PlanForceComplete(p).value, sel);
  }

  /** Restart and forceComplete leave every error string where it was. */
  lemma ResetKeepsErrors(p: Plan, target: Status)
    ensures PlanErrors(PlanSetAll(p, target).value) == PlanErrors(p)
  {
    var q := PlanSetAll(p, target).value;
    PlanResetReachesEveryStep(p, target);
    forall i | 0 <= i < |p.phases| ensures PhaseErrors(q.phases[i]) == PhaseErrors(p.phases[i]) {
      var a := seq(|q.phases[i].steps|, j requires 0 <= j < |q.phases[i].steps| => q.phases[i].steps[j].errors);
      var b := seq(|p.phases[i].steps|, j requires 0 <= j < |p.phases[i].steps| => p.phases[i].steps[j].errors);
      assert a == b;
    }
    var a := seq(|q.phases|, i requires 0 <= i < |q.phases| => PhaseErrors(q.phases[i]));
    var b := seq(|p.phases|, i requires 0 <= i < |p.phases| => PhaseErrors(p.phases[i]));
    assert a == b;
  }

  /*** Element operations by kind ***/

  function StepAct(s: Step, op: Op): Step {
    match op
    case Proceed => StepProceed(s).value
    case Interrupt => StepInterrupt(s).value
    case Restart => StepRestart(s).value
    case ForceComplete => StepForceComplete(s).value
  }

  function PhaseAct(ph: Phase, op: Op): Phase {
    match op
    case Proceed => PhaseProceed(ph).value
    case Interrupt => PhaseInterrupt(ph).value
    case Restart => PhaseRestart(ph).value
    case ForceComplete => PhaseForceComplete(ph).value
  }

  function PlanAct(p: Plan, op: Op): Plan {
    match op
    case Proceed => PlanProceed(p).value
    case Interrupt => PlanInterrupt(p).value
    case Restart => PlanRestart(p).value
    case ForceComplete => PlanForceComplete(p).value
  }

  /** Every element operation is idempotent on the element it is applied to. */
  lemma ActIsIdempotent(s: Step, ph: Phase, op: Op)
    ensures StepAct(StepAct(s, op), op) == StepAct(s, op)
    ensures PhaseAct(PhaseAct(ph, op), op) == PhaseAct(ph, op)
  {
    if op == Restart || op == ForceComplete {
      var t := if op == Restart then Pending else Complete;
      var once := PhaseSetAll(ph, t).value;
      var twice := PhaseSetAll(once, t).value;
      assert twice.steps == once.steps;
    }
  }

  /*** Identity and outline ***/

  /** Two plans with the same number of phases and the same number of steps in each. */
  predicate SameShape(p: Plan, q: Plan) {
    |q.phases| == |p.phases| && forall i :: 0 <= i < |p.phases| ==> |q.phases[i].steps| == |p.phases[i].steps|
  }

  /** No phase operation touches the phase's or a step's id or name, nor the number of steps. */
  lemma PhaseActKeepsLabels(ph: Phase, op: Op)
    ensures var r := PhaseAct(ph, op);
      && r.id == ph.id && r.name == ph.name && |r.steps| == |ph.steps|
      && forall j :: 0 <= j < |ph.steps| ==> r.steps[j].id == ph.steps[j].id && r.steps[j].name == ph.steps[j].name
  {
  }

  /** An element's id and name. */
  datatype Label = Label(id: Uuid, name: string)

  /** A phase's label and its steps' labels: all that phase and step lookup reads. */
  datatype PhaseOutline = PhaseOutline(phase: Label, steps: seq<Label>)

  function OutlineOf(p: Plan): seq<PhaseOutline> {
    seq(|p.phases|, i requires 0 <= i < |p.phases| =>
      PhaseOutline(Label(p.phases[i].id, p.phases[i].name),
                   seq(|p.phases[i].steps|, j requires 0 <= j < |p.phases[i].steps| =>
                         Label(p.phases[i].steps[j].id, p.phases[i].steps[j].name))))
  }

  /** Two plans with the same ids and names at every position have the same outline. */
  lemma SameLabelsSameOutline(p: Plan, q: Plan)
    requires |p.phases| == |q.phases|
    requires forall i :: 0 <= i < |p.phases| ==>
      p.phases[i].id == q.phases[i].id && p.phases[i].name == q.phases[i].name && |p.phases[i].steps| == |q.phases[i].steps|
    requires forall i, j :: 0 <= i < |p.phases| && 0 <= j < |p.phases[i].steps| ==>
      p.phases[i].steps[j].id == q.phases[i].steps[j].id && p.phases[i].steps[j].name == q.phases[i].steps[j].name
    ensures OutlineOf(p) == OutlineOf(q)
  {
    forall i | 0 <= i < |p.phases| ensures OutlineOf(p)[i] == OutlineOf(q)[i] {
      assert OutlineOf(p)[i].steps == OutlineOf(q)[i].steps;
    }
  }

  /** No plan operation touches an id or a name: the outline, and the plan's own id and name, stay fixed. */
  lemma PlanActKeepsOutline(p: Plan, op: Op)
    ensures PlanAct(p, op).id == p.id && PlanAct(p, op).name == p.name
    ensures SameShape(p, PlanAct(p, op))
    ensures OutlineOf(PlanAct(p, op)) == OutlineOf(p)
  {
    if op == Restart || op == ForceComplete {
      PlanResetReachesEveryStep(p, if op == Restart then Pending else Complete);
    }
    SameLabelsSameOutline(p, PlanAct(p, op));
  }

  /*** DefaultPlan constructors and identity ***/

  /** The four-argument constructor: exactly the given phases, strategy and errors. */
  function NewPlanWithErrors(id: Uuid, name: string, phases: seq<Phase>, strategy: Strategy, errors: seq<string>): (p: Plan)
    ensures p.id == id && p.name == name && p.phases == phases && p.strategy == strategy && p.errors == errors
  {
    Plan(id, name, phases, strategy, errors)
  }

  /** The three-argument constructor: no plan-level errors. */
  function NewPlanWithStrategy(id: Uuid, name: string, phases: seq<Phase>, strategy: Strategy): (p: Plan)
    ensures p.phases == phases && p.strategy == strategy && p.errors == []
  {
    NewPlanWithErrors(id, name, phases, strategy, [])
  }

  /** The two-argument constructor: a fresh serial strategy and no plan-level errors. */
  function NewPlan(id: Uuid, name: string, phases: seq<Phase>): (p: Plan)
    ensures p.phases == phases && p.strategy == Strategy(Serial, false) && p.errors == []
  {
    NewPlanWithStrategy(id, name, phases, NewStrategy(Serial))
  }

  /** hashCode: Objects.hash of the id alone. The id's own hash is taken to be the id. */
  function PlanHashCode(p: Plan): int {
    31 + p.id
  }

  /** The hash depends only on the id, and no operation changes the id, so the hash is stable. */
  lemma PlanHashIsStable(p: Plan, q: Plan, op: Op)
    requires p.id == q.id
    ensures PlanHashCode(p) == PlanHashCode(q)
    ensures PlanHashCode(PlanAct(p, op)) == PlanHashCode(p)
  {
    PlanActKeepsOutline(p, op);
  }
}
