/**
 * What the commands of the plan resource promise across calls: error answers change nothing, lookups are stable
 * under every command, and interrupt and forceComplete settle after one call.
 */
module CommandLaws {
  import opened Wrappers
  import opened Statuses
  import opened Elements
  import opened Strategies
  import opened Steps
  import opened Parents
  import opened Plans
  import opened PlansResource

  /*** Completion without a selector ***/

  /** A phase with no error strings whose steps are all raw COMPLETE. */
  predicate PhaseDone(ph: Phase) {
    ph.errors == [] && forall j :: 0 <= j < |ph.steps| ==> ph.steps[j].errors == [] && ph.steps[j].raw == Complete
  }

  /** isComplete of a target, read off the tree alone; TargetCompleteIff shows no strategy can change it. */
  predicate TargetComplete(p: Plan, t: Target)
    requires ValidTarget(p, t)
  {
    match t
    case WholePlan => p.errors == [] && forall i :: 0 <= i < |p.phases| ==> PhaseDone(p.phases[i])
    case PhaseAt(i) => PhaseDone(p.phases[i])
    case StepAt(a) => p.phases[a.phase].steps[a.step].raw == Complete
  }

  lemma PhaseDoneIff(ph: Phase, sel: Selector)
    ensures PhaseStatus(ph, sel) == Complete <==> PhaseDone(ph)
  {
    PhaseCompleteIff(ph, sel);
    PhaseErrorsEmpty(ph);
    forall j | 0 <= j < |ph.steps| ensures StepStatus(ph.steps[j]) == Complete <==> ph.steps[j].raw == Complete {
    }
  }

  /** A target reports COMPLETE exactly when no error string lies under it and all its steps are raw COMPLETE. */
  lemma TargetCompleteIff(p: Plan, t: Target, sel: Selector)
    requires ValidTarget(p, t)
    ensures TargetStatus(p, t, sel) == Complete <==> TargetComplete(p, t)
  {
    match t
    case WholePlan =>
      PlanCompleteIff(p, sel);
      PlanErrorsEmpty(p);
      forall i | 0 <= i < |p.phases| {
        PhaseErrorsEmpty(p.phases[i]);
      }
    case PhaseAt(i) =>
      PhaseDoneIff(p.phases[i], sel);
    case StepAt(a) =>
  }

  /*** Progress relations between a plan and a later state of it ***/

  predicate StepAdvances(s: Step, t: Step) {
    t.errors == s.errors && (s.raw == Complete ==> t.raw == Complete)
  }

  predicate PhaseAdvances(a: Phase, b: Phase) {
    b.errors == a.errors && |b.steps| == |a.steps| && forall j :: 0 <= j < |a.steps| ==> StepAdvances(a.steps[j], b.steps[j])
  }

  /** Same shape, same error strings everywhere, and no raw COMPLETE step lost. */
  predicate Advances(p: Plan, q: Plan) {
    q.errors == p.errors && |q.phases| == |p.phases| && forall i :: 0 <= i < |p.phases| ==> PhaseAdvances(p.phases[i], q.phases[i])
  }

  /** Same shape, and no interrupted flag cleared at any level. */
  predicate KeepsInterrupts(p: Plan, q: Plan) {
    && SameShape(p, q)
    && (p.strategy.interrupted ==> q.strategy.interrupted)
    && (forall i :: 0 <= i < |p.phases| ==> (p.phases[i].strategy.interrupted ==> q.phases[i].strategy.interrupted))
    && (forall i, j :: 0 <= i < |p.phases| && 0 <= j < |p.phases[i].steps| ==>
          (p.phases[i].steps[j].interrupted ==> q.phases[i].steps[j].interrupted))
  }

  /** No error strings anywhere in the plan. */
  predicate Clean(p: Plan) {
    p.errors == [] &&
    forall i :: 0 <= i < |p.phases| ==>
      p.phases[i].errors == [] && forall j :: 0 <= j < |p.phases[i].steps| ==> p.phases[i].steps[j].errors == []
  }

  lemma AdvancesIsTransitive(p: Plan, q: Plan, r: Plan)
    requires Advances(p, q) && Advances(q, r)
    ensures Advances(p, r)
  {
    forall i | 0 <= i < |p.phases| ensures PhaseAdvances(p.phases[i], r.phases[i]) {
      assert PhaseAdvances(p.phases[i], q.phases[i]) && PhaseAdvances(q.phases[i], r.phases[i]);
    }
  }

  lemma KeepsInterruptsIsTransitive(p: Plan, q: Plan, r: Plan)
    requires KeepsInterrupts(p, q) && KeepsInterrupts(q, r)
    ensures KeepsInterrupts(p, r)
  {
  }

  /** Progress never undoes completion, and keeps a clean plan clean. */
  lemma AdvancesKeepsCompletion(p: Plan, q: Plan, t: Target)
    requires Advances(p, q) && ValidTarget(p, t)
    ensures ValidTarget(q, t)
    ensures TargetComplete(p, t) ==> TargetComplete(q, t)
    ensures Clean(p) ==> Clean(q)
  {
    if t.StepAt? {
      assert PhaseAdvances(p.phases[t.at.phase], q.phases[t.at.phase]);
    }
    if t.WholePlan? && TargetComplete(p, t) {
      forall i | 0 <= i < |p.phases| ensures PhaseDone(q.phases[i]) {
        assert PhaseAdvances(p.phases[i], q.phases[i]);
      }
    }
    if Clean(p) {
      forall i | 0 <= i < |p.phases| ensures q.phases[i].errors == [] {
        assert PhaseAdvances(p.phases[i], q.phases[i]);
      }
    }
  }

  lemma KeepsInterruptsKeepsTarget(p: Plan, q: Plan, t: Target)
    requires KeepsInterrupts(p, q) && ValidTarget(p, t)
    ensures ValidTarget(q, t)
    ensures TargetInterrupted(p, t) ==> TargetInterrupted(q, t)
  {
  }

  /*** One interrupt, one forceComplete ***/

  /** Interrupting one target keeps every raw status and error, clears no flag, and leaves the target interrupted. */
  lemma ActOnInterrupt(p: Plan, t: Target)
    requires ValidTarget(p, t)
    ensures Advances(p, ActOn(p, t, Interrupt))
    ensures KeepsInterrupts(p, ActOn(p, t, Interrupt))
    ensures TargetInterrupted(ActOn(p, t, Interrupt), t)
  {
    var q := ActOn(p, t, Interrupt);
    match t
    case WholePlan =>
    case PhaseAt(k) =>
      forall i | 0 <= i < |p.phases| ensures PhaseAdvances(p.phases[i], q.phases[i]) {
        if i == k {
          assert q.phases[i].steps == p.phases[i].steps;
        }
      }
    case StepAt(a) =>
      forall i | 0 <= i < |p.phases| ensures PhaseAdvances(p.phases[i], q.phases[i]) {
        if i == a.phase {
          forall j | 0 <= j < |p.phases[i].steps| ensures StepAdvances(p.phases[i].steps[j], q.phases[i].steps[j]) {
          }
        }
      }
  }

  /** Force-completing one target keeps every error, loses no completion, and completes the target if clean. */
  lemma ActOnForceComplete(p: Plan, t: Target)
    requires ValidTarget(p, t)
    ensures Advances(p, ActOn(p, t, ForceComplete))
    ensures Clean(p) ==> TargetComplete(ActOn(p, t, ForceComplete), t)
  {
    var q := ActOn(p, t, ForceComplete);
    match t
    case WholePlan =>
      PlanResetReachesEveryStep(p, Complete);
      forall i | 0 <= i < |p.phases| ensures PhaseAdvances(p.phases[i], q.phases[i]) {
        forall j | 0 <= j < |p.phases[i].steps| ensures StepAdvances(p.phases[i].steps[j], q.phases[i].steps[j]) {
        }
      }
    case PhaseAt(k) =>
      forall i | 0 <= i < |p.phases| ensures PhaseAdvances(p.phases[i], q.phases[i]) {
        if i == k {
          forall j | 0 <= j < |p.phases[i].steps| ensures StepAdvances(p.phases[i].steps[j], q.phases[i].steps[j]) {
          }
        }
      }
    case StepAt(a) =>
      forall i | 0 <= i < |p.phases| ensures PhaseAdvances(p.phases[i], q.phases[i]) {
        if i == a.phase {
          forall j | 0 <= j < |p.phases[i].steps| ensures StepAdvances(p.phases[i].steps[j], q.phases[i].steps[j]) {
          }
        }
      }
  }

  /*** Many targets ***/

  /** ActAll takes its first target, then the rest on the result; the rest stay valid there. */
  lemma ActAllUnfolds(p: Plan, ts: seq<Target>, op: Op)
    requires AllValid(p, ts) && ts != []
    ensures ValidTarget(p, ts[0])
    ensures AllValid(ActOn(p, ts[0], op), ts[1..])
    ensures ActAll(p, ts, op) == ActAll(ActOn(p, ts[0], op), ts[1..], op)
  {
    assert ts[0] in ts;
    var q := ActOn(p, ts[0], op);
    forall t | t in ts[1..] ensures ValidTarget(q, t) {
      assert t in ts;
    }
  }

  /** Every target is either the first or among the rest. */
  lemma HeadOrRest(ts: seq<Target>, t: Target)
    requires t in ts
    ensures t == ts[0] || t in ts[1..]
  {
  }

  lemma {:induction false} ActAllInterrupt(p: Plan, ts: seq<Target>)
    requires AllValid(p, ts)
    ensures Advances(p, ActAll(p, ts, Interrupt))
    ensures KeepsInterrupts(p, ActAll(p, ts, Interrupt))
    ensures forall t :: t in ts ==> TargetInterrupted(ActAll(p, ts, Interrupt), t)
    decreases |ts|
  {
    if ts != [] {
      ActAllUnfolds(p, ts, Interrupt);
      var q := ActOn(p, ts[0], Interrupt);
      ActOnInterrupt(p, ts[0]);
      ActAllInterrupt(q, ts[1..]);
      var r := ActAll(q, ts[1..], Interrupt);
      AdvancesIsTransitive(p, q, r);
      KeepsInterruptsIsTransitive(p, q, r);
      KeepsInterruptsKeepsTarget(q, r, ts[0]);
      forall t | t in ts ensures TargetInterrupted(r, t) {
        HeadOrRest(ts, t);
      }
    }
  }

  /** Force-completing targets one after another keeps every error and loses no completion. */
  lemma {:induction false} ActAllForceCompleteAdvances(p: Plan, ts: seq<Target>)
    requires AllValid(p, ts)
    ensures Advances(p, ActAll(p, ts, ForceComplete))
    decreases |ts|
  {
    if ts != [] {
      ActAllUnfolds(p, ts, ForceComplete);
      var q := ActOn(p, ts[0], ForceComplete);
      ActOnForceComplete(p, ts[0]);
      ActAllForceCompleteAdvances(q, ts[1..]);
      AdvancesIsTransitive(p, q, ActAll(q, ts[1..], ForceComplete));
    }
  }

  /** On a clean plan, force-completing targets one after another leaves every one of them complete. */
  lemma {:induction false} ActAllForceCompletesTargets(p: Plan, ts: seq<Target>)
    requires AllValid(p, ts) && Clean(p)
    ensures forall t :: t in ts ==> ValidTarget(ActAll(p, ts, ForceComplete), t) && TargetComplete(ActAll(p, ts, ForceComplete), t)
    decreases |ts|
  {
    if ts != [] {
      ActAllUnfolds(p, ts, ForceComplete);
      var q := ActOn(p, ts[0], ForceComplete);
      ActOnForceComplete(p, ts[0]);
      AdvancesKeepsCompletion(p, q, ts[0]);
      ActAllForceCompletesTargets(q, ts[1..]);
      var r := ActAll(q, ts[1..], ForceComplete);
      ActAllForceCompleteAdvances(q, ts[1..]);
      AdvancesKeepsCompletion(q, r, ts[0]);
      forall t | t in ts ensures ValidTarget(r, t) && TargetComplete(r, t) {
        HeadOrRest(ts, t);
      }
    }
  }

  /** Force-completing targets keeps every error and loses no completion; on a clean plan it completes them all. */
  lemma ActAllForceComplete(p: Plan, ts: seq<Target>)
    requires AllValid(p, ts)
    ensures Advances(p, ActAll(p, ts, ForceComplete))
    ensures Clean(p) ==> forall t :: t in ts ==> TargetComplete(ActAll(p, ts, ForceComplete), t)
  {
    ActAllForceCompleteAdvances(p, ts);
    if Clean(p) {
      ActAllForceCompletesTargets(p, ts);
    }
  }

  /*** Restart and proceed ***/

  /** Same shape, and the same error strings at every level. */
  predicate KeepsErrors(p: Plan, q: Plan) {
    && SameShape(p, q)
    && q.errors == p.errors
    && (forall i :: 0 <= i < |p.phases| ==> q.phases[i].errors == p.phases[i].errors)
    && (forall i, j :: 0 <= i < |p.phases| && 0 <= j < |p.phases[i].steps| ==>
          q.phases[i].steps[j].errors == p.phases[i].steps[j].errors)
  }

  /** Same shape, and no step taken off raw PENDING. */
  predicate KeepsPending(p: Plan, q: Plan) {
    && SameShape(p, q)
    && (forall i, j :: 0 <= i < |p.phases| && 0 <= j < |p.phases[i].steps| ==>
          (p.phases[i].steps[j].raw == Pending ==> q.phases[i].steps[j].raw == Pending))
  }

  /** The same error strings everywhere and every raw status where it was: at most interrupted flags differ. */
  predicate KeepsProgress(p: Plan, q: Plan) {
    && KeepsErrors(p, q)
    && (forall i, j :: 0 <= i < |p.phases| && 0 <= j < |p.phases[i].steps| ==>
          q.phases[i].steps[j].raw == p.phases[i].steps[j].raw)
  }

  /** Same shape, and no interrupted flag raised at any level. */
  predicate KeepsProceeding(p: Plan, q: Plan) {
    && SameShape(p, q)
    && (!p.strategy.interrupted ==> !q.strategy.interrupted)
    && (forall i :: 0 <= i < |p.phases| ==> (!p.phases[i].strategy.interrupted ==> !q.phases[i].strategy.interrupted))
    && (forall i, j :: 0 <= i < |p.phases| && 0 <= j < |p.phases[i].steps| ==>
          (!p.phases[i].steps[j].interrupted ==> !q.phases[i].steps[j].interrupted))
  }

  /** Every step the target covers has raw status PENDING. */
  predicate PendingUnder(p: Plan, t: Target)
    requires ValidTarget(p, t)
  {
    match t
    case WholePlan => forall i, j :: 0 <= i < |p.phases| && 0 <= j < |p.phases[i].steps| ==> p.phases[i].steps[j].raw == Pending
    case PhaseAt(k) => forall j :: 0 <= j < |p.phases[k].steps| ==> p.phases[k].steps[j].raw == Pending
    case StepAt(a) => p.phases[a.phase].steps[a.step].raw == Pending
  }

  lemma KeepsErrorsIsTransitive(p: Plan, q: Plan, r: Plan)
    requires KeepsErrors(p, q) && KeepsErrors(q, r)
    ensures KeepsErrors(p, r)
  {
  }

  lemma KeepsPendingIsTransitive(p: Plan, q: Plan, r: Plan)
    requires KeepsPending(p, q) && KeepsPending(q, r)
    ensures KeepsPending(p, r)
  {
  }

  lemma KeepsProgressIsTransitive(p: Plan, q: Plan, r: Plan)
    requires KeepsProgress(p, q) && KeepsProgress(q, r)
    ensures KeepsProgress(p, r)
  {
    KeepsErrorsIsTransitive(p, q, r);
  }

  lemma KeepsProceedingIsTransitive(p: Plan, q: Plan, r: Plan)
    requires KeepsProceeding(p, q) && KeepsProceeding(q, r)
    ensures KeepsProceeding(p, r)
  {
  }

  /** A target whose steps are all PENDING stays so across a step that keeps PENDING steps PENDING. */
  lemma KeepsPendingKeepsTarget(p: Plan, q: Plan, t: Target)
    requires KeepsPending(p, q) && ValidTarget(p, t)
    ensures ValidTarget(q, t)
    ensures PendingUnder(p, t) ==> PendingUnder(q, t)
  {
  }

  lemma KeepsProceedingKeepsTarget(p: Plan, q: Plan, t: Target)
    requires KeepsProceeding(p, q) && ValidTarget(p, t)
    ensures ValidTarget(q, t)
    ensures !TargetInterrupted(p, t) ==> !TargetInterrupted(q, t)
  {
  }

  /** Restarting one target keeps every error, takes no step off PENDING, and leaves the target's steps PENDING. */
  lemma ActOnRestart(p: Plan, t: Target)
    requires ValidTarget(p, t)
    ensures KeepsErrors(p, ActOn(p, t, Restart))
    ensures KeepsPending(p, ActOn(p, t, Restart))
    ensures PendingUnder(ActOn(p, t, Restart), t)
  {
    var q := ActOn(p, t, Restart);
    match t
    case WholePlan =>
      PlanResetReachesEveryStep(p, Pending);
    case PhaseAt(k) =>
      forall i, j | 0 <= i < |p.phases| && 0 <= j < |p.phases[i].steps|
        ensures q.phases[i].steps[j].errors == p.phases[i].steps[j].errors
        ensures p.phases[i].steps[j].raw == Pending ==> q.phases[i].steps[j].raw == Pending
      {
        if i == k {
          assert q.phases[i].steps[j] == p.phases[i].steps[j].(raw := Pending);
        }
      }
    case StepAt(a) =>
  }

  /** Proceeding one target changes no error and no raw status, raises no flag, and clears the target's flag. */
  lemma ActOnProceed(p: Plan, t: Target)
    requires ValidTarget(p, t)
    ensures KeepsProgress(p, ActOn(p, t, Proceed))
    ensures KeepsProceeding(p, ActOn(p, t, Proceed))
    ensures !TargetInterrupted(ActOn(p, t, Proceed), t)
  {
  }

  /** Restarting targets one after another keeps every error and leaves the steps under each of them PENDING. */
  lemma {:induction false} ActAllRestart(p: Plan, ts: seq<Target>)
    requires AllValid(p, ts)
    ensures KeepsErrors(p, ActAll(p, ts, Restart))
    ensures KeepsPending(p, ActAll(p, ts, Restart))
    ensures forall t :: t in ts ==> ValidTarget(ActAll(p, ts, Restart), t) && PendingUnder(ActAll(p, ts, Restart), t)
    decreases |ts|
  {
    if ts != [] {
      ActAllUnfolds(p, ts, Restart);
      var q := ActOn(p, ts[0], Restart);
      ActOnRestart(p, ts[0]);
      ActAllRestart(q, ts[1..]);
      var r := ActAll(q, ts[1..], Restart);
      KeepsErrorsIsTransitive(p, q, r);
      KeepsPendingIsTransitive(p, q, r);
      KeepsPendingKeepsTarget(q, r, ts[0]);
      forall t | t in ts ensures ValidTarget(r, t) && PendingUnder(r, t) {
        HeadOrRest(ts, t);
      }
    }
  }

  /** Proceeding targets one after another changes no error and no raw status and leaves each of them proceeding. */
  lemma {:induction false} ActAllProceed(p: Plan, ts: seq<Target>)
    requires AllValid(p, ts)
    ensures KeepsProgress(p, ActAll(p, ts, Proceed))
    ensures KeepsProceeding(p, ActAll(p, ts, Proceed))
    ensures forall t :: t in ts ==> ValidTarget(ActAll(p, ts, Proceed), t) && !TargetInterrupted(ActAll(p, ts, Proceed), t)
    decreases |ts|
  {
    if ts != [] {
      ActAllUnfolds(p, ts, Proceed);
      var q := ActOn(p, ts[0], Proceed);
      ActOnProceed(p, ts[0]);
      ActAllProceed(q, ts[1..]);
      var r := ActAll(q, ts[1..], Proceed);
      KeepsProgressIsTransitive(p, q, r);
      KeepsProceedingIsTransitive(p, q, r);
      KeepsProceedingKeepsTarget(q, r, ts[0]);
      forall t | t in ts ensures ValidTarget(r, t) && !TargetInterrupted(r, t) {
        HeadOrRest(ts, t);
      }
    }
  }

  /*** Laws of the commands ***/

  /** An unknown plan name is NOT_FOUND for every command and touches nothing; start checks parameters first. */
  lemma UnknownPlanIsNotFound(plans: seq<Plan>, name: string, phase: Option<string>, step: Option<string>,
                              parameters: map<string, string>, sel: Selector, parse: Parser)
    requires forall k :: 0 <= k < |plans| ==> plans[k].name != name
    ensures ContinueCommand(plans, name, phase, sel, parse) == Unchanged(plans, NotFound)
    ensures InterruptCommand(plans, name, phase, sel, parse) == Unchanged(plans, NotFound)
    ensures ForceCompleteCommand(plans, name, phase, step, sel, parse) == Unchanged(plans, NotFound)
    ensures RestartCommand(plans, name, phase, step, parse) == Unchanged(plans, NotFound)
    ensures StopPlan(plans, name) == Unchanged(plans, NotFound)
    ensures StartPlan(plans, name, parameters, sel) == Unchanged(plans, if ValidParameters(parameters) then NotFound else BadRequest)
    ensures PlanInfo(plans, name, sel).code == NotFound
  {
  }

  /** A parameter key outside [A-Za-z_][A-Za-z0-9_]* is BAD_REQUEST before any plan is looked up. */
  lemma InvalidParametersComeFirst(plans: seq<Plan>, name: string, parameters: map<string, string>, sel: Selector, key: string)
    requires key in parameters && !IsEnvVarName(key)
    ensures StartPlan(plans, name, parameters, sel) == Unchanged(plans, BadRequest)
  {
  }

  /** A step filter without a phase filter is BAD_REQUEST for forceComplete and restart once the plan exists. */
  lemma StepWithoutPhaseIsBadRequest(plans: seq<Plan>, name: string, step: string, sel: Selector, parse: Parser)
    requires exists k :: 0 <= k < |plans| && plans[k].name == name
    ensures ForceCompleteCommand(plans, name, None, Some(step), sel, parse) == Unchanged(plans, BadRequest)
    ensures RestartCommand(plans, name, None, Some(step), parse) == Unchanged(plans, BadRequest)
  {
  }

  /** restart has no filter: it acts on and lists every resolved element, so it is never 208. */
  lemma RestartIsNeverAlreadyReported(plans: seq<Plan>, name: string, phase: Option<string>, step: Option<string>, parse: Parser)
    ensures RestartCommand(plans, name, phase, step, parse).response.code != AlreadyReported
    ensures FindPlan(plans, name).Some? && (phase.Some? || step.None?) ==>
      var p := plans[FindPlan(plans, name).value];
      var ts := Resolve(p, phase, step, parse);
      RestartCommand(plans, name, phase, step, parse).response ==
        (if ts == [] then Response(NotFound, []) else Response(Ok, Refs(p, ts)))
  {
  }

  /** start on a known plan with valid parameters: 200 listing the plan, which then proceeds; a complete plan is
    * restarted first and an incomplete one keeps its steps. */
  lemma StartPlanEffect(plans: seq<Plan>, name: string, parameters: map<string, string>, sel: Selector)
    requires ValidParameters(parameters) && FindPlan(plans, name).Some?
    ensures var i := FindPlan(plans, name).value;
      var o := StartPlan(plans, name, parameters, sel);
      && o.response == Response(Ok, [PlanRef(plans[i])])
      && |o.plans| == |plans| && o.plans[i].id == plans[i].id
      && !o.plans[i].strategy.interrupted
      && (PlanStatus(plans[i], sel) != Complete ==> o.plans[i].phases == plans[i].phases)
      && (PlanStatus(plans[i], sel) == Complete ==> o.plans[i].phases == PlanRestart(plans[i]).value.phases)
  {
  }

  /** stop on a known plan: 200 listing the plan, which is left interrupted with every step raw PENDING. */
  lemma StopPlanEffect(plans: seq<Plan>, name: string)
    requires FindPlan(plans, name).Some?
    ensures var i := FindPlan(plans, name).value;
      var o := StopPlan(plans, name);
      && o.response == Response(Ok, [PlanRef(plans[i])])
      && o.plans[i].strategy.interrupted
      && OutlineOf(o.plans[i]) == OutlineOf(plans[i])
      && forall a :: ValidAddress(plans[i], a) ==> o.plans[i].phases[a.phase].steps[a.step].raw == Pending
  {
    var i := FindPlan(plans, name).value;
    var p := plans[i];
    var q := PlanInterrupt(p).value;
    PlanResetReachesEveryStep(q, Pending);
    PlanActKeepsOutline(p, Interrupt);
    PlanActKeepsOutline(q, Restart);
  }

  /**
   * stop is idempotent: a second stop finds the plan already interrupted and every step already PENDING, so it
   * answers the same and changes nothing.
   */
  lemma StopPlanIsIdempotent(plans: seq<Plan>, name: string)
    ensures StopPlan(StopPlan(plans, name).plans, name) == StopPlan(plans, name)
  {
    var o1 := StopPlan(plans, name);
    FindPlanReadsNames(plans, o1.plans, name);
    if FindPlan(plans, name).Some? {
      var i := FindPlan(plans, name).value;
      var q := PlanInterrupt(plans[i]).value;
      PlanResetIsIdempotent(q, Pending);
      PlanActKeepsOutline(plans[i], Interrupt);
      PlanActKeepsOutline(q, Restart);
      assert o1.plans[i] == PlanRestart(q).value;
      assert PlanInterrupt(o1.plans[i]).value == o1.plans[i];
    }
  }

  /** A plan that is already stopped (interrupted, every step raw PENDING) is left exactly as it is by stop. */
  lemma StopLeavesStoppedPlanAlone(plans: seq<Plan>, name: string)
    requires FindPlan(plans, name).Some?
    requires var p := plans[FindPlan(plans, name).value];
      p.strategy.interrupted &&
      forall a :: ValidAddress(p, a) ==> p.phases[a.phase].steps[a.step].raw == Pending
    ensures StopPlan(plans, name).plans == plans
  {
    var i := FindPlan(plans, name).value;
    var p := plans[i];
    assert PlanInterrupt(p).value == p;
    var r := PlanRestart(p).value;
    PlanResetReachesEveryStep(p, Pending);
    forall k | 0 <= k < |p.phases| ensures r.phases[k] == p.phases[k] {
      forall j | 0 <= j < |p.phases[k].steps| ensures r.phases[k].steps[j] == p.phases[k].steps[j] {
        assert ValidAddress(p, Address(k, j));
      }
      assert r.phases[k].steps == p.phases[k].steps;
    }
    assert r.phases == p.phases;
    assert r == p;
  }

  /** What start makes of one plan: restarted if complete, then proceeding. */
  function Started(p: Plan, sel: Selector): (r: Plan)
    ensures r.id == p.id && r.name == p.name && !r.strategy.interrupted
  {
    PlanActKeepsOutline(p, Restart);
    PlanProceed(if PlanStatus(p, sel) == Complete then PlanRestart(p).value else p).value
  }

  /** A started plan is complete only when restarting it changes nothing, so starting it again is the identity. */
  lemma StartedIsSettled(p: Plan, sel: Selector)
    ensures Started(Started(p, sel), sel) == Started(p, sel)
  {
    var s := Started(p, sel);
    if PlanStatus(p, sel) == Complete {
      PlanResetIsIdempotent(p, Pending);
      assert PlanRestart(s).value == s;
    } else {
      assert s.phases == p.phases && s.errors == p.errors;
      PlanCompleteIff(p, sel);
      PlanCompleteIff(s, sel);
      PlanErrorsEmpty(p);
      PlanErrorsEmpty(s);
      assert PlanStatus(s, sel) != Complete;
    }
  }

  /**
   * start is idempotent: after one start the plan is proceeding, and it is complete only if it was complete before
   * and already restarted, so a second start answers the same and changes nothing.
   */
  lemma StartPlanIsIdempotent(plans: seq<Plan>, name: string, parameters: map<string, string>, sel: Selector)
    ensures var o1 := StartPlan(plans, name, parameters, sel);
      StartPlan(o1.plans, name, parameters, sel) == o1
  {
    var o1 := StartPlan(plans, name, parameters, sel);
    FindPlanReadsNames(plans, o1.plans, name);
    if ValidParameters(parameters) && FindPlan(plans, name).Some? {
      var i := FindPlan(plans, name).value;
      assert o1.plans[i] == Started(plans[i], sel);
      StartedIsSettled(plans[i], sel);
    }
  }

  /** start leaves a known plan that is neither complete nor interrupted exactly as it is. */
  lemma StartLeavesRunningPlanAlone(plans: seq<Plan>, name: string, parameters: map<string, string>, sel: Selector)
    requires ValidParameters(parameters) && FindPlan(plans, name).Some?
    requires var p := plans[FindPlan(plans, name).value];
      PlanStatus(p, sel) != Complete && !p.strategy.interrupted
    ensures StartPlan(plans, name, parameters, sel).plans == plans
  {
    var p := plans[FindPlan(plans, name).value];
    assert PlanProceed(p).value == p;
  }

  /**
   * continue on a known plan, when it answers 200: it lists exactly the qualifying elements in order, each of them
   * is proceeding afterwards, no error string or raw status anywhere changes, no flag is raised, and every resolved
   * element it skipped was IN_PROGRESS or COMPLETE. Other plans are untouched.
   */
  lemma ContinueCommandEffect(plans: seq<Plan>, name: string, phase: Option<string>, sel: Selector, parse: Parser)
    requires FindPlan(plans, name).Some?
    ensures var i := FindPlan(plans, name).value;
      var p := plans[i];
      var ts := Resolve(p, phase, None, parse);
      var chosen := Qualifying(p, ts, Proceed, sel);
      var o := ContinueCommand(plans, name, phase, sel, parse);
      o.response.code == Ok ==>
        && o.response.elements == Refs(p, chosen)
        && o.plans == plans[i := o.plans[i]]
        && KeepsProgress(p, o.plans[i])
        && KeepsProceeding(p, o.plans[i])
        && (forall t :: t in chosen ==> ValidTarget(o.plans[i], t) && !TargetInterrupted(o.plans[i], t))
        && (forall t :: t in ts && t !in chosen ==> TargetStatus(p, t, sel) in {InProgress, Complete})
  {
    var i := FindPlan(plans, name).value;
    var p := plans[i];
    var ts := Resolve(p, phase, None, parse);
    var chosen := Qualifying(p, ts, Proceed, sel);
    ActAllProceed(p, chosen);
  }

  /**
   * restart on a known plan with a usable filter: 404 when nothing resolves; otherwise 200 listing every resolved
   * element in order, and afterwards every step under each of them is raw PENDING, each of them is proceeding, and
   * no error string anywhere has changed. Other plans are untouched.
   */
  lemma RestartCommandEffect(plans: seq<Plan>, name: string, phase: Option<string>, step: Option<string>, parse: Parser)
    requires FindPlan(plans, name).Some? && (phase.Some? || step.None?)
    ensures var i := FindPlan(plans, name).value;
      var p := plans[i];
      var ts := Resolve(p, phase, step, parse);
      var o := RestartCommand(plans, name, phase, step, parse);
      && (ts == [] ==> o == Unchanged(plans, NotFound))
      && (ts != [] ==>
            && o.response == Response(Ok, Refs(p, ts))
            && o.plans == plans[i := o.plans[i]]
            && KeepsErrors(p, o.plans[i])
            && forall t :: t in ts ==>
                 ValidTarget(o.plans[i], t) && PendingUnder(o.plans[i], t) && !TargetInterrupted(o.plans[i], t))
  {
    var i := FindPlan(plans, name).value;
    var p := plans[i];
    var ts := Resolve(p, phase, step, parse);
    if ts != [] {
      var r1 := ActAll(p, ts, Restart);
      ActAllRestart(p, ts);
      assert AllValid(r1, ts);
      var r2 := ActAll(r1, ts, Proceed);
      ActAllProceed(r1, ts);
      KeepsErrorsIsTransitive(p, r1, r2);
      forall t | t in ts ensures ValidTarget(r2, t) && PendingUnder(r2, t) {
        KeepsPendingKeepsTarget(r1, r2, t);
      }
    }
  }

  /**
   * A second interrupt with the same filter never acts: every element the first one resolved is now interrupted
   * or still complete. So the second answer is 208 or the same 404, and nothing changes.
   */
  lemma InterruptCommandIsIdempotent(plans: seq<Plan>, name: string, phase: Option<string>, sel: Selector, parse: Parser)
    ensures var o1 := InterruptCommand(plans, name, phase, sel, parse);
      var o2 := InterruptCommand(o1.plans, name, phase, sel, parse);
      o2.response.code != Ok && o2.plans == o1.plans
  {
    var o1 := InterruptCommand(plans, name, phase, sel, parse);
    FindPlanReadsNames(plans, o1.plans, name);
    if FindPlan(plans, name).Some? && o1.response.code == Ok {
      var i := FindPlan(plans, name).value;
      var p := plans[i];
      var ts := Resolve(p, phase, None, parse);
      var chosen := Qualifying(p, ts, Interrupt, sel);
      var q := ActAll(p, chosen, Interrupt);
      assert o1.plans[i] == q;
      assert Resolve(q, phase, None, parse) == ts;
      ActAllInterrupt(p, chosen);
      forall t | t in ts ensures !Wanted(q, t, Interrupt, sel) {
        KeepsInterruptsKeepsTarget(p, q, t);
        AdvancesKeepsCompletion(p, q, t);
        TargetCompleteIff(p, t, sel);
        TargetCompleteIff(q, t, sel);
      }
    }
  }

  /**
   * On a plan without error strings a second forceComplete with the same filters never acts: every element the
   * first one resolved is now complete.
   */
  lemma ForceCompleteCommandIsIdempotent(plans: seq<Plan>, name: string, phase: Option<string>, step: Option<string>,
                                         sel: Selector, parse: Parser)
    requires forall k :: 0 <= k < |plans| ==> Clean(plans[k])
    ensures var o1 := ForceCompleteCommand(plans, name, phase, step, sel, parse);
      var o2 := ForceCompleteCommand(o1.plans, name, phase, step, sel, parse);
      o2.response.code != Ok && o2.plans == o1.plans
  {
    var o1 := ForceCompleteCommand(plans, name, phase, step, sel, parse);
    FindPlanReadsNames(plans, o1.plans, name);
    if FindPlan(plans, name).Some? && o1.response.code == Ok {
      var i := FindPlan(plans, name).value;
      var p := plans[i];
      var ts := Resolve(p, phase, step, parse);
      var chosen := Qualifying(p, ts, ForceComplete, sel);
      var q := ActAll(p, chosen, ForceComplete);
      assert o1.plans[i] == q;
      assert Resolve(q, phase, step, parse) == ts;
      ActAllForceComplete(p, chosen);
      forall t | t in ts ensures !Wanted(q, t, ForceComplete, sel) {
        AdvancesKeepsCompletion(p, q, t);
        TargetCompleteIff(p, t, sel);
        TargetCompleteIff(q, t, sel);
      }
    }
  }

  /** With a plan-level error string, forceComplete of the whole plan acts again on every call: ERROR never clears. */
  lemma ForceCompleteRepeatsWhileErrorsRemain(plans: seq<Plan>, name: string, sel: Selector, parse: Parser)
    requires FindPlan(plans, name).Some? && plans[FindPlan(plans, name).value].errors != []
    ensures var o1 := ForceCompleteCommand(plans, name, None, None, sel, parse);
      var o2 := ForceCompleteCommand(o1.plans, name, None, None, sel, parse);
      o1.response.code == Ok && o2.response.code == Ok
  {
    var o1 := ForceCompleteCommand(plans, name, None, None, sel, parse);
    var i := FindPlan(plans, name).value;
    var p := plans[i];
    FindPlanReadsNames(plans, o1.plans, name);
    PlanCompleteIff(p, sel);
    assert PlanStatus(p, sel) != Complete;
    assert Wanted(p, WholePlan, ForceComplete, sel);
    var q := PlanForceComplete(p).value;
    assert o1.plans[i] == ActAll(p, [WholePlan], ForceComplete);
    assert o1.plans[i] == q;
    assert q.errors == p.errors;
    PlanCompleteIff(q, sel);
    assert Wanted(q, WholePlan, ForceComplete, sel);
  }

  /** The deprecated /plan routes are the same commands on the plan named "deploy". */
  lemma DeprecatedRoutesAddressDeploy(plans: seq<Plan>, phase: Option<string>, step: Option<string>,
                                      sel: Selector, parse: Parser)
    ensures FullInfo(plans, sel) == PlanInfo(plans, "deploy", sel)
    ensures DeprecatedContinue(plans, sel, parse) == ContinueCommand(plans, "deploy", None, sel, parse)
    ensures DeprecatedInterrupt(plans, sel, parse) == InterruptCommand(plans, "deploy", None, sel, parse)
    ensures DeprecatedForceComplete(plans, phase, step, sel, parse) == ForceCompleteCommand(plans, "deploy", phase, step, sel, parse)
    ensures DeprecatedRestart(plans, phase, step, parse) == RestartCommand(plans, "deploy", phase, step, parse)
  {
  }
}
