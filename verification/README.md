# Plan execution engine: a verified model

This project models the core of the dcos-commons scheduler SDK's plan execution engine in Dafny. A deployment or
uninstall is a tree: a Plan owns Phases, and a Phase owns Steps. Each Step holds a raw status and an interrupted
flag. A parent (Plan or Phase) has a Strategy that decides which children are candidates for work, and the Strategy
can be interrupted. A parent's status is computed from its children by a fixed precedence chain. The HTTP plan
resource (`/v1/plans/...`) looks a plan up by name, and its phases and steps by name or UUID. It then applies continue, interrupt,
forceComplete, restart, start and stop, and answers 200, 202, 208, 400 or 404. The uninstall scheduler builds an
uninstall plan from what the state store holds, and drives it.

Everything is functional. Every Java mutator becomes a function from the old tree to the new one. It returns
whatever the Java method returns (the changed elements, or the boolean flag) next to the new tree.

Modules, one per file:

- `Wrappers` (`wrappers.dfy`): `Option`.
- `Elements` (`elements.dfy`): ids, element refs, and the `Touched`/`Flipped` result pairs.
- `Statuses` (`status.dfy`): the seven statuses, `allHaveStatus` and `anyHaveStatus`.
- `Interruptible` (`interruptible.dfy`): the interrupt/proceed contract, as predicates.
- `Strategies` (`strategy.dfy`):
  - the strategy's interrupted flag;
  - getCandidates as a caller-supplied `Selector`, which answers with a mask over the children;
  - the Strategy interface's contract for getCandidates.
- `Steps` (`step.dfy`): AbstractStep.
- `Parents` (`parent.dfy`): ParentElement's status aggregation and the concatenation its fan-out uses.
- `Plans` (`plan.dfy`):
  - DefaultPlan, with phases as the same parent one level down;
  - the element operations;
  - the outline of ids and names that lookups read.
- `PlansResource` (`plans_resource.dfy`): every route of PlansResource, as a function from the plans to an
  `Outcome` (the response, and the plans afterwards).
- `CommandLaws` (`command_laws.dfy`): properties that span several commands or repeated calls.
- `Uninstall` (`uninstall.dfy`):
  - UninstallScheduler.getPlan and UninstallPlanBuilder, as pure functions from a state-store snapshot to a plan shape;
  - realising a shape as a plan;
  - initialize and the plan side of processOfferSet.

Several things the source takes from its environment are parameters here:

- UUID parsing (`Parser`, standing for `UUID.fromString`);
- candidate selection (`Selector`, standing for getCandidates of the strategies, whose classes are not part of
  this model);
- ids and step names (`Naming`);
- Constants.TOMBSTONE_MARKER (the string parameter `tombstoneMarker`);
- the step classes' `start()`.

The model follows the code where the code and its documentation differ:

- InterruptibleStrategy.setStateReturnChanged returns `getAndSet(x) == x`. That is true exactly when the flag did
  NOT change. The Strategy and Interruptible interfaces document the opposite: true when the call modified state.
  The model computes what the code computes. `Strategies.StrategyReturnIsInverted` and
  `Plans.ParentReturnIsInverted` state that the documented contract fails, for every strategy and every parent.
- ParentElement.getStatus checks for a null child list before it looks at errors. The order matters in the source:
  with the error rule first, getErrors would iterate the null child list and throw a NullPointerException. The model
  cannot show the difference, because `Plans.PhaseStatus` and `Plans.PlanStatus` always pass a child list (`Some`);
  only `Parents.Aggregate` itself and `Parents.NullChildrenIsError` reach the null case.
- getPlanElements throws IllegalStateException for a step filter without a phase filter. `PlansResource.Resolve`
  instead requires that case away. Every command that reaches it answers 400 first, as the source does.
- UninstallPlanBuilder calls a two-argument DeregisterStep constructor, but DeregisterStep declares only a
  one-argument one. Both give a step that starts PENDING, and that is what is modelled.

## Model

| member | source | states |
|---|---|---|
| Strategies.NewStrategy | sdk/scheduler/src/main/java/com/mesosphere/sdk/scheduler/plan/strategy/InterruptibleStrategy.java:14 | a new strategy is not interrupted |
| Strategies.SetStateReturnChanged | sdk/scheduler/src/main/java/com/mesosphere/sdk/scheduler/plan/strategy/InterruptibleStrategy.java:31-33 | the flag becomes the requested value, and the answer is true exactly when the old flag already equalled it |
| Strategies.StrategyInterrupt | sdk/scheduler/src/main/java/com/mesosphere/sdk/scheduler/plan/strategy/InterruptibleStrategy.java:16-19 | afterwards the strategy is interrupted and keeps its kind |
| Strategies.StrategyProceed | sdk/scheduler/src/main/java/com/mesosphere/sdk/scheduler/plan/strategy/InterruptibleStrategy.java:21-24 | afterwards the strategy is proceeding and keeps its kind |
| Strategies.StrategyToggleIsIdempotent | sdk/scheduler/src/main/java/com/mesosphere/sdk/scheduler/plan/strategy/Strategy.java:26-40 | a repeated interrupt (or proceed) has no further effect; as written, the repeat answers true |
| Strategies.StrategyReturnIsInverted | sdk/scheduler/src/main/java/com/mesosphere/sdk/scheduler/plan/strategy/Strategy.java:26-40 | the answer of interrupt and proceed is the negation of "the call modified state", so the documented contract never holds |
| Strategies.Select | sdk/scheduler/src/main/java/com/mesosphere/sdk/scheduler/plan/strategy/Strategy.java:16-24 | the marked children, and only they, one entry per marked position and in their original order; never more than given; an all-false mask selects nothing |
| Strategies.Candidates | sdk/scheduler/src/main/java/com/mesosphere/sdk/scheduler/plan/strategy/Strategy.java:8-24 | candidates are drawn from the children, none works on a dirty asset, and an interrupted strategy offers none |
| Steps.NewStep | sdk/scheduler/src/main/java/com/mesosphere/sdk/scheduler/plan/AbstractStep.java:31-36 | a new step holds the status it was given and is not interrupted, so it reports that status |
| Steps.StepStatus | sdk/scheduler/src/main/java/com/mesosphere/sdk/scheduler/plan/AbstractStep.java:48-56 | WAITING exactly when the raw status is WAITING, or when the step is interrupted over PENDING or PREPARED; otherwise the raw status |
| Steps.SetStatus | sdk/scheduler/src/main/java/com/mesosphere/sdk/scheduler/plan/AbstractStep.java:65-83 | returns the prior status, replaces only the raw status, and notifies observers exactly when the status changed |
| Steps.SetStatusGetChanged | sdk/scheduler/src/main/java/com/mesosphere/sdk/scheduler/plan/AbstractStep.java:89-94 | reports the step itself exactly when observers were notified, and nothing otherwise |
| Steps.SetInterruptedGetChanged | sdk/scheduler/src/main/java/com/mesosphere/sdk/scheduler/plan/AbstractStep.java:100-107 | sets only the flag and answers whether it differed before |
| Steps.StepInterrupt | sdk/scheduler/src/main/java/com/mesosphere/sdk/scheduler/plan/AbstractStep.java:109-112 | a step meets the documented interrupt contract and keeps its raw status, id and name |
| Steps.StepProceed | sdk/scheduler/src/main/java/com/mesosphere/sdk/scheduler/plan/AbstractStep.java:114-117 | a step meets the documented proceed contract and keeps its raw status, id and name |
| Steps.StepRestart | sdk/scheduler/src/main/java/com/mesosphere/sdk/scheduler/plan/AbstractStep.java:126-130 | the raw status becomes PENDING, and the step is reported exactly when it was not PENDING before |
| Steps.StepForceComplete | sdk/scheduler/src/main/java/com/mesosphere/sdk/scheduler/plan/AbstractStep.java:132-136 | the step reports COMPLETE even while interrupted, and is reported changed exactly when it was not COMPLETE before |
| Steps.StepResetsAreIdempotent | sdk/scheduler/src/main/java/com/mesosphere/sdk/scheduler/plan/AbstractStep.java:126-136 | a second restart or forceComplete changes nothing and reports nothing |
| Steps.InterruptionIsAnOverlay | sdk/scheduler/src/main/java/com/mesosphere/sdk/scheduler/plan/Interruptible.java:3-6 | interruption masks only PENDING and PREPARED, and proceeding afterwards shows the untouched raw status again |
| Steps.StepToggleIsIdempotent | sdk/scheduler/src/main/java/com/mesosphere/sdk/scheduler/plan/Interruptible.java:9-23 | a repeated interrupt or proceed on a step reports no change |
| Parents.Aggregate | sdk/scheduler/src/main/java/com/mesosphere/sdk/scheduler/plan/ParentElement.java:115-181 | never PREPARED; COMPLETE exactly when the child list exists, holds no errors and all children are COMPLETE; PENDING or STARTING only when not interrupted and some candidate has that status |
| Parents.NullChildrenIsError | sdk/scheduler/src/main/java/com/mesosphere/sdk/scheduler/plan/ParentElement.java:120-124 | a null child list is ERROR whatever else holds |
| Parents.ErrorsPoisonParent | sdk/scheduler/src/main/java/com/mesosphere/sdk/scheduler/plan/ParentElement.java:130-132 | an error string in the subtree, or a child in ERROR, makes the parent ERROR |
| Parents.AllCompleteWinsOverInterrupt | sdk/scheduler/src/main/java/com/mesosphere/sdk/scheduler/plan/ParentElement.java:133-139 | with no errors and all children COMPLETE, the parent is COMPLETE even while interrupted |
| Parents.InterruptedIncompleteIsWaiting | sdk/scheduler/src/main/java/com/mesosphere/sdk/scheduler/plan/ParentElement.java:137-139 | with no errors and some child not COMPLETE, an interrupted parent is WAITING |
| Parents.AggregateIsExplainedByChildren | sdk/scheduler/src/main/java/com/mesosphere/sdk/scheduler/plan/ParentElement.java:140-178 | WAITING, IN_PROGRESS and PENDING parents are each explained by the parent's own flag or by some child's status |
| Parents.ConcatMembers | sdk/scheduler/src/main/java/com/mesosphere/sdk/scheduler/plan/ParentElement.java:107-113 | collecting the children's lists loses and invents nothing |
| Plans.PhaseErrorsMembers | sdk/scheduler/src/main/java/com/mesosphere/sdk/scheduler/plan/ParentElement.java:107-113 | a string is among a phase's errors exactly when it is the phase's own or some step's |
| Plans.PlanErrorsMembers | sdk/scheduler/src/main/java/com/mesosphere/sdk/scheduler/plan/DefaultPlan.java:69-72 | a string is among a plan's errors exactly when it is the plan's own, some phase's own or some step's |
| Plans.PhaseCompleteIff | sdk/scheduler/src/main/java/com/mesosphere/sdk/scheduler/plan/ParentElement.java:130-136 | a phase is COMPLETE exactly when it has no errors anywhere and every step reports COMPLETE |
| Plans.PlanCompleteIff | sdk/scheduler/src/main/java/com/mesosphere/sdk/scheduler/plan/ParentElement.java:115-136 | a plan is COMPLETE exactly when it has no errors anywhere and every step of every phase reports COMPLETE, whatever the strategies select |
| Plans.EmptyPlanIsComplete | sdk/scheduler/src/main/java/com/mesosphere/sdk/scheduler/plan/ParentElement.java:133-136 | a plan with no phases and no errors is COMPLETE |
| Plans.StepFailurePoisonsPlan | sdk/scheduler/src/main/java/com/mesosphere/sdk/scheduler/plan/ParentElement.java:130-132 | a step in ERROR, or a step with an error string, makes its phase and its plan ERROR |
| Plans.StatusIgnoresDirtyAssets | sdk/scheduler/src/main/java/com/mesosphere/sdk/scheduler/plan/ParentElement.java:126-127 | status asks the strategies only about the empty dirty-asset set |
| Plans.PhaseInterrupt | sdk/scheduler/src/main/java/com/mesosphere/sdk/scheduler/plan/ParentElement.java:33-38 | only the phase's strategy changes; it becomes interrupted and the strategy's answer is passed through |
| Plans.PhaseProceed | sdk/scheduler/src/main/java/com/mesosphere/sdk/scheduler/plan/ParentElement.java:40-45 | only the phase's strategy changes; it stops being interrupted and the strategy's answer is passed through |
| Plans.PlanInterrupt | sdk/scheduler/src/main/java/com/mesosphere/sdk/scheduler/plan/ParentElement.java:33-38 | only the plan's strategy changes; the phases are untouched |
| Plans.PlanProceed | sdk/scheduler/src/main/java/com/mesosphere/sdk/scheduler/plan/ParentElement.java:40-45 | only the plan's strategy changes; the phases are untouched |
| Plans.ParentReturnIsInverted | sdk/scheduler/src/main/java/com/mesosphere/sdk/scheduler/plan/ParentElement.java:33-45 | a parent inherits the strategy's inverted answer: interrupt on a proceeding parent returns false |
| Plans.ParentIsEligible | sdk/scheduler/src/main/java/com/mesosphere/sdk/scheduler/plan/ParentElement.java:58-61 | a parent is eligible exactly when the default rule allows it and its strategy is not interrupted |
| Plans.InterruptGovernsEligibility | sdk/scheduler/src/main/java/com/mesosphere/sdk/scheduler/plan/ParentElement.java:33-61 | an interrupted phase or plan is never eligible, and proceeding gives back exactly the default rule |
| Plans.SetAllSteps | sdk/scheduler/src/main/java/com/mesosphere/sdk/scheduler/plan/ParentElement.java:76-99 | every step's raw status becomes the target; the report lists each step whose raw status differed, once, in step order, and no other step |
| Plans.SetAllPhasesReportsChangedSteps | sdk/scheduler/src/main/java/com/mesosphere/sdk/scheduler/plan/ParentElement.java:76-99 | the plan's report names exactly the steps, across all phases, that were not already at the target |
| Plans.PlanResetReachesEveryStep | sdk/scheduler/src/main/java/com/mesosphere/sdk/scheduler/plan/ParentElement.java:76-99 | restart and forceComplete set every step and change nothing else, reporting exactly the steps not already there |
| Plans.PlanResetIsIdempotent | sdk/scheduler/src/main/java/com/mesosphere/sdk/scheduler/plan/ParentElement.java:76-99 | a second restart or forceComplete of a plan changes nothing and reports nothing |
| Plans.ForceCompletedPlanIsComplete | sdk/scheduler/src/main/java/com/mesosphere/sdk/scheduler/plan/ParentElement.java:90-136 | after forceComplete a plan is COMPLETE exactly when it carries no error string |
| Plans.ResetKeepsErrors | sdk/scheduler/src/main/java/com/mesosphere/sdk/scheduler/plan/ParentElement.java:76-113 | restart and forceComplete leave every error string in place |
| Plans.ActIsIdempotent | sdk/scheduler/src/main/java/com/mesosphere/sdk/scheduler/plan/ParentElement.java:33-99 | each element operation, applied twice to a step or a phase, equals applying it once |
| Plans.PhaseActKeepsLabels | sdk/scheduler/src/main/java/com/mesosphere/sdk/scheduler/plan/AbstractStep.java:24-25 | no operation changes the id or name of a phase or its steps, nor the number of steps |
| Plans.PlanActKeepsOutline | sdk/scheduler/src/main/java/com/mesosphere/sdk/scheduler/plan/DefaultPlan.java:22-26 | no operation changes any id, name or the shape of the tree |
| Plans.NewPlanWithErrors | sdk/scheduler/src/main/java/com/mesosphere/sdk/scheduler/plan/DefaultPlan.java:28-39 | the plan holds exactly the given name, phases, strategy and errors |
| Plans.NewPlanWithStrategy | sdk/scheduler/src/main/java/com/mesosphere/sdk/scheduler/plan/DefaultPlan.java:45-47 | the plan holds the given phases and strategy and no plan-level errors |
| Plans.NewPlan | sdk/scheduler/src/main/java/com/mesosphere/sdk/scheduler/plan/DefaultPlan.java:41-43 | the plan gets a fresh serial strategy that is not interrupted, and no errors |
| Plans.PlanHashIsStable | sdk/scheduler/src/main/java/com/mesosphere/sdk/scheduler/plan/DefaultPlan.java:91-94 | the hash depends only on the id, so no operation changes it |
| PlansResource.MatchesEnvVarName | sdk/scheduler/src/main/java/com/mesosphere/sdk/api/PlansResource.java:27 | true exactly when the whole key matches `[A-Za-z_][A-Za-z0-9_]*` |
| PlansResource.Validate | sdk/scheduler/src/main/java/com/mesosphere/sdk/api/PlansResource.java:361-368 | no complaint exactly when every key is a valid name; a complaint names a key that is in the map and invalid |
| PlansResource.PlanNames | sdk/scheduler/src/main/java/com/mesosphere/sdk/api/PlansResource.java:343-347 | the plans' names, one per plan, in collection order |
| PlansResource.FindPlan | sdk/scheduler/src/main/java/com/mesosphere/sdk/api/PlansResource.java:349-353 | the first plan whose name equals the given one, or none exactly when no plan has that name |
| PlansResource.FindPlanReadsNames | sdk/scheduler/src/main/java/com/mesosphere/sdk/api/PlansResource.java:349-353 | lookup answers alike for collections with the same names |
| PlansResource.MatchPhases | sdk/scheduler/src/main/java/com/mesosphere/sdk/api/PlansResource.java:301-313 | exactly the phases matching the filter, by id when it parses as a UUID and by name otherwise, in phase order |
| PlansResource.MatchSteps | sdk/scheduler/src/main/java/com/mesosphere/sdk/api/PlansResource.java:320-334 | exactly the matching steps of the given phases, flattened in order |
| PlansResource.Resolve | sdk/scheduler/src/main/java/com/mesosphere/sdk/api/PlansResource.java:273-294 | every element resolved exists in the plan |
| PlansResource.ResolveWithoutFilters | sdk/scheduler/src/main/java/com/mesosphere/sdk/api/PlansResource.java:287-292 | without filters the plan itself is the only element |
| PlansResource.ResolvePhasesExactly | sdk/scheduler/src/main/java/com/mesosphere/sdk/api/PlansResource.java:275-285 | a phase filter resolves to every matching phase, each once, in phase order |
| PlansResource.ResolveStepIsUnique | sdk/scheduler/src/main/java/com/mesosphere/sdk/api/PlansResource.java:335-340 | a phase and a step filter resolve to a step exactly when it is the one and only step that matches |
| PlansResource.ResolveStepNoneOrSeveral | sdk/scheduler/src/main/java/com/mesosphere/sdk/api/PlansResource.java:335-340 | a step filter resolves to nothing exactly when no step matches or several do |
| PlansResource.ActOn | sdk/scheduler/src/main/java/com/mesosphere/sdk/api/PlansResource.java:131 | acting on one element keeps the plan's shape, ids and names |
| PlansResource.ActAll | sdk/scheduler/src/main/java/com/mesosphere/sdk/api/PlansResource.java:218-219 | acting on each element in turn keeps the plan's shape, ids and names |
| PlansResource.Qualifying | sdk/scheduler/src/main/java/com/mesosphere/sdk/api/PlansResource.java:124-126 | exactly the resolved elements the command's filter keeps, in resolved order; empty exactly when none is kept |
| PlansResource.Filtered | sdk/scheduler/src/main/java/com/mesosphere/sdk/api/PlansResource.java:118-133 | 404 when nothing resolves, 208 with no change when nothing qualifies, otherwise 200 whose list is the qualifying elements in resolved order, after acting on them in that order; no other plan changes |
| PlansResource.ContinueCommand | sdk/scheduler/src/main/java/com/mesosphere/sdk/api/PlansResource.java:113-129 | every answer other than 200 (unknown plan, nothing resolved, nothing to proceed) leaves every plan unchanged; no plan is renamed |
| PlansResource.InterruptCommand | sdk/scheduler/src/main/java/com/mesosphere/sdk/api/PlansResource.java:141-157 | every answer other than 200 (unknown plan, nothing resolved, nothing to interrupt) leaves every plan unchanged; no plan is renamed |
| PlansResource.ForceCompleteCommand | sdk/scheduler/src/main/java/com/mesosphere/sdk/api/PlansResource.java:170-190 | every answer other than 200 (unknown plan, step without phase, nothing resolved, nothing to complete) leaves every plan unchanged; no plan is renamed |
| PlansResource.RestartCommand | sdk/scheduler/src/main/java/com/mesosphere/sdk/api/PlansResource.java:203-216 | every answer other than 200 (unknown plan, step without phase, nothing resolved) leaves every plan unchanged; no plan is renamed |
| PlansResource.StartPlan | sdk/scheduler/src/main/java/com/mesosphere/sdk/api/PlansResource.java:69-79 | invalid parameters or an unknown plan leave every plan unchanged; no plan is renamed |
| PlansResource.StopPlan | sdk/scheduler/src/main/java/com/mesosphere/sdk/api/PlansResource.java:96-100 | an unknown plan leaves every plan unchanged; no plan is renamed |
| PlansResource.PlanInfo | sdk/scheduler/src/main/java/com/mesosphere/sdk/api/PlansResource.java:48-60 | 404 exactly for an unknown plan, 200 exactly when the plan is COMPLETE, 202 otherwise |
| CommandLaws.PhaseDoneIff | sdk/scheduler/src/main/java/com/mesosphere/sdk/scheduler/plan/ParentElement.java:130-136 | a phase reports COMPLETE exactly when it has no error strings and every step is raw COMPLETE |
| CommandLaws.TargetCompleteIff | sdk/scheduler/src/main/java/com/mesosphere/sdk/scheduler/plan/ParentElement.java:115-136 | whether a plan, phase or step reports COMPLETE depends on the tree alone, never on the strategies |
| CommandLaws.ActOnInterrupt | sdk/scheduler/src/main/java/com/mesosphere/sdk/api/PlansResource.java:159 | interrupting one element keeps every status and error, clears no flag, and leaves the element interrupted |
| CommandLaws.ActOnForceComplete | sdk/scheduler/src/main/java/com/mesosphere/sdk/api/PlansResource.java:192 | force-completing one element keeps every error, loses no completion, and completes the element on a plan without errors |
| CommandLaws.ActAllInterrupt | sdk/scheduler/src/main/java/com/mesosphere/sdk/api/PlansResource.java:159 | after interrupting a list of elements, every one of them is interrupted and no flag or completion is lost |
| CommandLaws.ActAllForceComplete | sdk/scheduler/src/main/java/com/mesosphere/sdk/api/PlansResource.java:192 | after force-completing a list of elements on a plan without errors, every one of them is complete |
| CommandLaws.ActOnRestart | sdk/scheduler/src/main/java/com/mesosphere/sdk/api/PlansResource.java:218 | restarting one element keeps every error string, takes no step off PENDING, and leaves every step under the element PENDING |
| CommandLaws.ActOnProceed | sdk/scheduler/src/main/java/com/mesosphere/sdk/api/PlansResource.java:131 | proceeding one element changes no error string and no raw status, raises no flag, and leaves the element proceeding |
| CommandLaws.ActAllRestart | sdk/scheduler/src/main/java/com/mesosphere/sdk/api/PlansResource.java:218 | after restarting a list of elements, every step under each of them is PENDING and no error string has changed |
| CommandLaws.ActAllProceed | sdk/scheduler/src/main/java/com/mesosphere/sdk/api/PlansResource.java:131 | after proceeding a list of elements, each of them is proceeding, no flag was raised, and no error string or raw status has changed |
| CommandLaws.UnknownPlanIsNotFound | sdk/scheduler/src/main/java/com/mesosphere/sdk/api/PlansResource.java:66-222 | an unknown plan name gives 404 and no change for every command; start gives 400 first for invalid parameters |
| CommandLaws.InvalidParametersComeFirst | sdk/scheduler/src/main/java/com/mesosphere/sdk/api/PlansResource.java:69-74 | invalid parameters give 400 and no change, whether or not the plan exists |
| CommandLaws.StepWithoutPhaseIsBadRequest | sdk/scheduler/src/main/java/com/mesosphere/sdk/api/PlansResource.java:164-210 | on a known plan, a step filter without a phase filter gives 400 and no change for forceComplete and restart |
| CommandLaws.RestartIsNeverAlreadyReported | sdk/scheduler/src/main/java/com/mesosphere/sdk/api/PlansResource.java:212-221 | restart never answers 208: it lists every resolved element, or answers 404 when none resolves |
| CommandLaws.StartPlanEffect | sdk/scheduler/src/main/java/com/mesosphere/sdk/api/PlansResource.java:81-87 | start answers 200 listing the plan, which then proceeds; a COMPLETE plan is restarted first and any other plan keeps its steps |
| CommandLaws.StopPlanEffect | sdk/scheduler/src/main/java/com/mesosphere/sdk/api/PlansResource.java:90-106 | stop answers 200 listing the plan, which is left interrupted with every step PENDING |
| CommandLaws.StartedIsSettled | sdk/scheduler/src/main/java/com/mesosphere/sdk/api/PlansResource.java:62-64 | starting a plan that start has already handled changes nothing |
| CommandLaws.StartPlanIsIdempotent | sdk/scheduler/src/main/java/com/mesosphere/sdk/api/PlansResource.java:62-88 | a second start answers the same as the first and changes nothing |
| CommandLaws.StartLeavesRunningPlanAlone | sdk/scheduler/src/main/java/com/mesosphere/sdk/api/PlansResource.java:62-64 | start changes nothing on a plan that is neither complete nor interrupted |
| CommandLaws.StopPlanIsIdempotent | sdk/scheduler/src/main/java/com/mesosphere/sdk/api/PlansResource.java:90-106 | a second stop answers the same as the first and changes nothing |
| CommandLaws.StopLeavesStoppedPlanAlone | sdk/scheduler/src/main/java/com/mesosphere/sdk/api/PlansResource.java:90-92 | stop changes nothing on a plan that is interrupted with every step PENDING |
| CommandLaws.ContinueCommandEffect | sdk/scheduler/src/main/java/com/mesosphere/sdk/api/PlansResource.java:118-133 | on 200 the list is exactly the qualifying elements in order, each is proceeding afterwards, no error string or raw status changes, no flag is raised, every resolved element skipped was IN_PROGRESS or COMPLETE, and no other plan changes |
| CommandLaws.RestartCommandEffect | sdk/scheduler/src/main/java/com/mesosphere/sdk/api/PlansResource.java:212-221 | 404 with no change when nothing resolves; otherwise 200 listing every resolved element in order, and afterwards every step under each is PENDING, each is proceeding, no error string has changed, and no other plan changes |
| CommandLaws.InterruptCommandIsIdempotent | sdk/scheduler/src/main/java/com/mesosphere/sdk/api/PlansResource.java:152-158 | a repeated interrupt with the same filter never answers 200 and changes nothing |
| CommandLaws.ForceCompleteCommandIsIdempotent | sdk/scheduler/src/main/java/com/mesosphere/sdk/api/PlansResource.java:185-191 | on plans without error strings, a repeated forceComplete with the same filters never answers 200 and changes nothing |
| CommandLaws.ForceCompleteRepeatsWhileErrorsRemain | sdk/scheduler/src/main/java/com/mesosphere/sdk/api/PlansResource.java:185-192 | with a plan-level error string, forceComplete of the whole plan answers 200 on every call |
| CommandLaws.DeprecatedRoutesAddressDeploy | sdk/scheduler/src/main/java/com/mesosphere/sdk/api/PlansResource.java:224-261 | each deprecated `/plan` route is the same command on the plan named "deploy" |
| Uninstall.Distinct | sdk/scheduler/src/main/java/com/mesosphere/sdk/scheduler/uninstall/UninstallScheduler.java:106-111 | the same ids, each once, never more than given |
| Uninstall.ResourceIdsMembers | sdk/scheduler/src/main/java/com/mesosphere/sdk/scheduler/uninstall/UninstallScheduler.java:128-129 | an id is among the resource ids exactly when some task holds it |
| Uninstall.CleanableTasks | sdk/scheduler/src/main/java/com/mesosphere/sdk/scheduler/uninstall/UninstallScheduler.java:113-126 | exactly the stored tasks that are not both permanently failed and reported TASK_ERROR |
| Uninstall.ResourceCleanupStep | sdk/scheduler/src/main/java/com/mesosphere/sdk/scheduler/uninstall/UninstallScheduler.java:130-131 | a cleanup step starts COMPLETE exactly when its id starts with the tombstone marker, and PENDING otherwise |
| Uninstall.TaskKillSteps | sdk/scheduler/src/main/java/com/mesosphere/sdk/scheduler/uninstall/UninstallScheduler.java:97-101 | one kill step per stored task, in store order |
| Uninstall.ResourceCleanupSteps | sdk/scheduler/src/main/java/com/mesosphere/sdk/scheduler/uninstall/UninstallScheduler.java:128-132 | one cleanup step per resource id of the cleanable tasks, in order |
| Uninstall.SchedulerPlan | sdk/scheduler/src/main/java/com/mesosphere/sdk/scheduler/uninstall/UninstallScheduler.java:87-156 | the store is wiped exactly when there is no framework id; the plan is named "deploy" and is serial |
| Uninstall.SchedulerPhaseOrder | sdk/scheduler/src/main/java/com/mesosphere/sdk/scheduler/uninstall/UninstallScheduler.java:95-156 | the phases are task kill, resource, TLS cleanup (only with a secrets client) and deregister, with their strategies; the last is the single deregister step |
| Uninstall.OneKillStepPerTask | sdk/scheduler/src/main/java/com/mesosphere/sdk/scheduler/uninstall/UninstallScheduler.java:97-104 | the first phase kills every stored task, in store order |
| Uninstall.ResourceStepsComeFromCleanableTasks | sdk/scheduler/src/main/java/com/mesosphere/sdk/scheduler/uninstall/UninstallScheduler.java:113-136 | a resource gets a cleanup step exactly when a task that did not fail at launch holds it, and no two steps clean the same resource |
| Uninstall.TombstonedResourcesStartComplete | sdk/scheduler/src/main/java/com/mesosphere/sdk/scheduler/uninstall/UninstallScheduler.java:129-132 | every resource step starts COMPLETE exactly when its id carries the tombstone marker, and PENDING otherwise |
| Uninstall.NewBuilder | sdk/scheduler/src/main/java/com/mesosphere/sdk/scheduler/uninstall/UninstallPlanBuilder.java:44-99 | without a framework id: wipe, no steps, no deregister step, no phases; otherwise a deregister step, and the first phase holds exactly the resource steps |
| Uninstall.BuilderPhaseOrder | sdk/scheduler/src/main/java/com/mesosphere/sdk/scheduler/uninstall/UninstallPlanBuilder.java:61-98 | the phases are unreserve, TLS cleanup (only with a secrets client) and deregister; a resource gets an unreserve step exactly when some task holds it |
| Uninstall.SetSchedulerDriver | sdk/scheduler/src/main/java/com/mesosphere/sdk/scheduler/uninstall/UninstallPlanBuilder.java:120-124 | with a deregister step and at least one phase, the driver is attached to the step, the last phase holds that step alone, and every other phase, the resource steps and the store flag stay as they were; otherwise nothing changes |
| Uninstall.DriverReachesBuiltDeregisterStep | sdk/scheduler/src/main/java/com/mesosphere/sdk/scheduler/uninstall/UninstallPlanBuilder.java:90-124 | on a builder's output the last phase already holds the deregister step alone, and the driver reaches that step in the plan too; without a framework id nothing changes |
| Uninstall.RealizePhase | sdk/scheduler/src/main/java/com/mesosphere/sdk/scheduler/uninstall/UninstallScheduler.java:102-103 | a realised phase keeps its name and step count, gets a fresh strategy, and its steps start at their initial status, not interrupted and without errors |
| Uninstall.Realize | sdk/scheduler/src/main/java/com/mesosphere/sdk/scheduler/uninstall/UninstallScheduler.java:156 | a realised plan keeps its name and phases, gets a fresh strategy and has no errors |
| Uninstall.NoFrameworkIdIsComplete | sdk/scheduler/src/main/java/com/mesosphere/sdk/scheduler/uninstall/UninstallScheduler.java:88-93 | without a framework id both builders give a plan that reports COMPLETE |
| Uninstall.TombstonedResourcePhaseIsComplete | sdk/scheduler/src/main/java/com/mesosphere/sdk/scheduler/uninstall/UninstallScheduler.java:128-136 | when every resource id carries the tombstone marker, the resource phase starts COMPLETE |
| Uninstall.Manage | sdk/scheduler/src/main/java/com/mesosphere/sdk/scheduler/uninstall/UninstallScheduler.java:69 | adopting the plan interrupts it: only the plan strategy's flag changes, to interrupted, and its kind, the phases, errors, id and name are kept |
| Uninstall.Initialize | sdk/scheduler/src/main/java/com/mesosphere/sdk/scheduler/uninstall/UninstallScheduler.java:160-168 | initialize leaves the plan proceeding: only the plan strategy's flag changes, and its kind, the phases, errors, id and name are kept |
| Uninstall.InitializeUndoesManage | sdk/scheduler/src/main/java/com/mesosphere/sdk/scheduler/uninstall/UninstallScheduler.java:166 | interrupting when the plan manager adopts the plan, then proceeding at initialize, leaves the plan as built, now proceeding |
| Uninstall.StartCandidates | sdk/scheduler/src/main/java/com/mesosphere/sdk/scheduler/uninstall/UninstallScheduler.java:204-212 | starting the candidates keeps the shape, the strategies and the errors, and leaves every non-candidate step untouched |
| Uninstall.EachCandidateStartsOnce | sdk/scheduler/src/main/java/com/mesosphere/sdk/scheduler/uninstall/UninstallScheduler.java:207-212 | with no candidate repeated, each candidate step ends up started exactly once |
| Uninstall.DeregisterStart | sdk/scheduler/src/main/java/com/mesosphere/sdk/scheduler/uninstall/DeregisterStep.java:36-48 | the deregister step ends COMPLETE and keeps its id, name, flag and errors |

## Left out

- Locks and atomics (`statusLock`, `AtomicBoolean`): each operation is one atomic transition here, and interleavings are not modelled.
- Observers: a status write records only whether observers would be notified. Subscription and propagation are not modelled.
- HTTP and JSON: responses are a status code and the list of (id, name, type) entries. Message texts, the PlanInfo body and the listPlans JSON are not modelled.
- UUID parsing and the regex engine: UUID parsing is the `Parser` parameter, and the environment-variable pattern is written out as a predicate.
- State store, scheduler driver, task killer, offer handling and protobuf types: the store is a snapshot value. Offer acceptance, declining and resource cleaning in processOfferSet are not modelled, nor is statusUpdate.
- SchedulerApiServer, threads, and the constructors' wiring of plan managers and resources: these are infrastructure.
- updateParameters and update(TaskStatus): they fan out to step classes that are not part of this model. StartPlan does not change the steps for the parameters.
- DeregisterStart: the clearing of the framework id, the driver stop and the store wipe are not modelled; only the step's status is.
- initializeGlobals (attaching the task killer and the uninstall recorder): these are collaborator wiring.
- equals and toString; hashCode is modelled only as a function of the id.
- The serial and parallel strategies, PlanManager, DefaultPhase, the Element defaults (isComplete, isInProgress, isEligible), TaskKillStep, UninstallStep, ResourceCleanupStep, TLSCleanupStep and Constants are not part of this model. For the Element defaults, isComplete and isInProgress are read as "status is COMPLETE" and "status is IN_PROGRESS". A phase is taken to mirror DefaultPlan one level down.
- Strategies.Candidates: the contract holds only for selectors that honour it. The concrete serial and parallel policies are not modelled.
- Uninstall.Distinct: ResourceUtils.getResourceIds is not part of this model. It is taken to return each id once, in order of first occurrence, as the source's comments describe.
- Uninstall.ResourceCleanupStep: the value of Constants.TOMBSTONE_MARKER is not part of this model, so the marker is a parameter.
- Uninstall.NewBuilder: the initial status of an unreserve step is decided by UninstallStep, which is not part of this model, so it is left undecided (`None`).
- Uninstall.Manage: DefaultPlanManager is not part of this model. That its constructor interrupts the plan it adopts is taken from the plan-resource test (sdk/scheduler/src/test/java/com/mesosphere/sdk/api/PlansResourceTest.java:58), which verifies the call.
- Uninstall.StartCandidates: the candidate list is a parameter. The plan manager's getCandidates, which would choose it through the strategies with an empty dirty-asset set, is not part of this model, so any list of valid addresses is accepted.
- RawScheduler and the Python integration tests: they are outside the engine.
