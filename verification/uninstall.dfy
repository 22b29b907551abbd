/**
 * Uninstall plan construction. The state store is read once into a snapshot; each builder is a pure function from
 * that snapshot to a plan shape: phase names and order, each phase's strategy, and each step's work and initial
 * status. Step classes whose constructors are not part of this model leave the initial status undecided (None).
 */
module Uninstall {
  import opened Wrappers
  import opened Statuses
  import opened Elements
  import opened Strategies
  import opened Steps
  import opened Parents
  import opened Plans

  /* Phase names of UninstallScheduler.getPlan. */
  const TaskKillPhase: string := "task-kill-phase"
  const ResourcePhase: string := "resource-phase"
  const TlsCleanupPhase: string := "tls-cleanup-phase"
  const DeregisterPhase: string := "deregister-phase"

  /* Phase names of UninstallPlanBuilder. */
  const UnreservePhase: string := "unreserve-resources"
  const TlsPhase: string := "tls-cleanup"
  const DeregisterServicePhase: string := "deregister-service"

  /** TASK_ERROR, or any other reported task state. */
  datatype TaskState = TaskError | OtherState

  /** A stored TaskInfo: its id, whether it is labelled permanently failed, and the ids of its resources. */
  datatype TaskRecord = TaskRecord(id: string, permanentlyFailed: bool, resources: seq<string>)

  datatype TaskStatusRecord = TaskStatusRecord(taskId: string, state: TaskState)

  /** What the builders read from the state store. */
  datatype StoreSnapshot = StoreSnapshot(frameworkId: Option<string>, tasks: seq<TaskRecord>, statuses: seq<TaskStatusRecord>)

  /** What a step does; the deregister step records whether a scheduler driver has been attached. */
  datatype Work =
    | KillTask(taskId: string)
    | CleanupResource(resourceId: string)
    | UnreserveResource(resourceId: string)
    | CleanupTls
    | Deregister(driverAttached: bool)

  datatype StepShape = StepShape(work: Work, initial: Option<Status>)

  datatype PhaseShape = PhaseShape(name: string, strategy: StrategyKind, steps: seq<StepShape>)

  datatype PlanShape = PlanShape(name: string, strategy: StrategyKind, phases: seq<PhaseShape>)

  /** A built plan, and whether building it wiped the state store. */
  datatype Built = Built(plan: PlanShape, clearsStore: bool)

  function PhaseNames(p: PlanShape): (r: seq<string>)
    ensures |r| == |p.phases| && forall i :: 0 <= i < |p.phases| ==> r[i] == p.phases[i].name
  {
    seq(|p.phases|, i requires 0 <= i < |p.phases| => p.phases[i].name)
  }

  /*** Resource ids ***/

  /** The ids in order of first occurrence, each once. */
  function Distinct(xs: seq<string>): (r: seq<string>)
    ensures forall x :: x in r <==> x in xs
    ensures forall k, l :: 0 <= k < l < |r| ==> r[k] != r[l]
    ensures |r| <= |xs|
    decreases |xs|
  {
    if xs == [] then []
    else
      var init := xs[..|xs| - 1];
      var rest := Distinct(init);
      assert xs == init + [xs[|xs| - 1]];
      if xs[|xs| - 1] in rest then rest else rest + [xs[|xs| - 1]]
  }

  /** getResourceIds(getAllResources(tasks)): the distinct resource ids of the tasks, in task order. */
  function ResourceIds(tasks: seq<TaskRecord>): seq<string> {
    Distinct(Concat(seq(|tasks|, i requires 0 <= i < |tasks| => tasks[i].resources)))
  }

  /** An id is among the resource ids exactly when some task holds it, and it is there once. */
  lemma ResourceIdsMembers(tasks: seq<TaskRecord>, rid: string)
    ensures rid in ResourceIds(tasks) <==> exists i :: 0 <= i < |tasks| && rid in tasks[i].resources
  {
    var lists := seq(|tasks|, i requires 0 <= i < |tasks| => tasks[i].resources);
    ConcatMembers(lists, rid);
    assert forall i :: 0 <= i < |tasks| ==> lists[i] == tasks[i].resources;
  }

  /** Ids of tasks whose last reported state is TASK_ERROR. */
  function ErroredTaskIds(store: StoreSnapshot): set<string> {
    set k | 0 <= k < |store.statuses| && store.statuses[k].state == TaskError :: store.statuses[k].taskId
  }

  /** A task whose launch failed: labelled permanently failed and reported TASK_ERROR. It holds no resources. */
  predicate FailedAtLaunch(store: StoreSnapshot, t: TaskRecord) {
    t.permanentlyFailed && t.id in ErroredTaskIds(store)
  }

  /** The stored tasks minus those that failed at launch. */
  function CleanableTasks(store: StoreSnapshot): (r: seq<TaskRecord>)
    ensures forall t :: t in r <==> t in store.tasks && !FailedAtLaunch(store, t)
  {
    var mask := seq(|store.tasks|, i requires 0 <= i < |store.tasks| => !FailedAtLaunch(store, store.tasks[i]));
    Select(store.tasks, mask)
  }

  /** A cleanup step for one resource: already COMPLETE when the id carries the tombstone marker, else PENDING. */
  function ResourceCleanupStep(rid: string, tombstoneMarker: string): (s: StepShape)
    ensures s.work == CleanupResource(rid)
    ensures s.initial == Some(Complete) <==> tombstoneMarker <= rid
    ensures s.initial == Some(Pending) <==> !(tombstoneMarker <= rid)
  {
    StepShape(CleanupResource(rid), Some(if tombstoneMarker <= rid then Complete else Pending))
  }

  /*** UninstallScheduler.getPlan ***/

  function TaskKillSteps(store: StoreSnapshot): (r: seq<StepShape>)
    ensures |r| == |store.tasks| && forall i :: 0 <= i < |r| ==> r[i] == StepShape(KillTask(store.tasks[i].id), None)
  {
    seq(|store.tasks|, i requires 0 <= i < |store.tasks| => StepShape(KillTask(store.tasks[i].id), None))
  }

  function ResourceCleanupSteps(store: StoreSnapshot, tombstoneMarker: string): (r: seq<StepShape>)
    ensures |r| == |ResourceIds(CleanableTasks(store))|
    ensures forall i :: 0 <= i < |r| ==> r[i] == ResourceCleanupStep(ResourceIds(CleanableTasks(store))[i], tombstoneMarker)
  {
    var ids := ResourceIds(CleanableTasks(store));
    seq(|ids|, i requires 0 <= i < |ids| => ResourceCleanupStep(ids[i], tombstoneMarker))
  }

  /**
   * getPlan: without a framework id the store is wiped and the plan has no phases. Otherwise: kill every task, clean
   * up the resources of the tasks that did not fail at launch, clean up TLS secrets when a secrets client exists,
   * and deregister. `tombstoneMarker` is Constants.TOMBSTONE_MARKER, whose value is not part of this model.
   */
  function SchedulerPlan(store: StoreSnapshot, hasSecretsClient: bool, tombstoneMarker: string): (r: Built)
    ensures r.clearsStore <==> store.frameworkId.None?
    ensures r.plan.name == DeployPlanName && r.plan.strategy == Serial
  {
    if store.frameworkId.None? then Built(PlanShape(DeployPlanName, Serial, []), true)
    else
      var taskKill := PhaseShape(TaskKillPhase, Parallel, TaskKillSteps(store));
      var resources := PhaseShape(ResourcePhase, Parallel, ResourceCleanupSteps(store, tombstoneMarker));
      var tls := if hasSecretsClient then [PhaseShape(TlsCleanupPhase, Serial, [StepShape(CleanupTls, Some(Pending))])] else [];
      var deregister := PhaseShape(DeregisterPhase, Serial, [StepShape(Deregister(false), Some(Pending))]);
      Built(PlanShape(DeployPlanName, Serial, [taskKill, resources] + tls + [deregister]), false)
  }

  /** Phase order: task kill, resources, TLS cleanup only with a secrets client, deregister; with their strategies. */
  lemma SchedulerPhaseOrder(store: StoreSnapshot, hasSecretsClient: bool, tombstoneMarker: string)
    requires store.frameworkId.Some?
    ensures var p := SchedulerPlan(store, hasSecretsClient, tombstoneMarker).plan;
      && PhaseNames(p) == [TaskKillPhase, ResourcePhase] + (if hasSecretsClient then [TlsCleanupPhase] else []) + [DeregisterPhase]
      && p.phases[0].strategy == Parallel && p.phases[1].strategy == Parallel
      && (forall i :: 2 <= i < |p.phases| ==>
            (p.phases[i].strategy == Serial && |p.phases[i].steps| == 1 && p.phases[i].steps[0].initial == Some(Pending)))
      && p.phases[|p.phases| - 1].steps == [StepShape(Deregister(false), Some(Pending))]
  {
  }

  /** One kill step per stored task, in store order. */
  lemma OneKillStepPerTask(store: StoreSnapshot, hasSecretsClient: bool, tombstoneMarker: string)
    requires store.frameworkId.Some?
    ensures var kills := SchedulerPlan(store, hasSecretsClient, tombstoneMarker).plan.phases[0].steps;
      |kills| == |store.tasks| && forall i :: 0 <= i < |kills| ==> kills[i].work == KillTask(store.tasks[i].id)
  {
  }

  /** The cleanup steps name exactly the resources of the cleanable tasks, each once. */
  lemma CleanupStepsCoverCleanableTasks(store: StoreSnapshot, tombstoneMarker: string, rid: string)
    ensures var steps := ResourceCleanupSteps(store, tombstoneMarker);
      (exists k :: 0 <= k < |steps| && steps[k].work == CleanupResource(rid)) <==>
      (exists t :: t in store.tasks && !FailedAtLaunch(store, t) && rid in t.resources)
    ensures var steps := ResourceCleanupSteps(store, tombstoneMarker);
      forall k, l :: 0 <= k < l < |steps| ==> steps[k].work != steps[l].work
  {
    var kept := CleanableTasks(store);
    var ids := ResourceIds(kept);
    var steps := ResourceCleanupSteps(store, tombstoneMarker);
    ResourceIdsMembers(kept, rid);
    if rid in ids {
      var k :| 0 <= k < |ids| && ids[k] == rid;
      assert steps[k].work == CleanupResource(rid);
    }
    if exists t :: t in store.tasks && !FailedAtLaunch(store, t) && rid in t.resources {
      var t :| t in store.tasks && !FailedAtLaunch(store, t) && rid in t.resources;
      assert t in kept;
      var i :| 0 <= i < |kept| && kept[i] == t;
    }
  }

  /**
   * The resource phase has exactly one step per distinct resource id held by a task that did not fail at launch;
   * a resource held only by tasks that failed at launch gets no step.
   */
  lemma ResourceStepsComeFromCleanableTasks(store: StoreSnapshot, hasSecretsClient: bool, tombstoneMarker: string, rid: string)
    requires store.frameworkId.Some?
    ensures var steps := SchedulerPlan(store, hasSecretsClient, tombstoneMarker).plan.phases[1].steps;
      && ((exists k :: 0 <= k < |steps| && steps[k].work == CleanupResource(rid)) <==>
          (exists t :: t in store.tasks && !FailedAtLaunch(store, t) && rid in t.resources))
      && forall k, l :: 0 <= k < l < |steps| ==> steps[k].work != steps[l].work
  {
    assert SchedulerPlan(store, hasSecretsClient, tombstoneMarker).plan.phases[1].steps == ResourceCleanupSteps(store, tombstoneMarker);
    CleanupStepsCoverCleanableTasks(store, tombstoneMarker, rid);
  }

  /** Every resource step starts COMPLETE exactly when its id carries the tombstone marker, and PENDING otherwise. */
  lemma TombstonedResourcesStartComplete(store: StoreSnapshot, hasSecretsClient: bool, tombstoneMarker: string)
    requires store.frameworkId.Some?
    ensures var steps := SchedulerPlan(store, hasSecretsClient, tombstoneMarker).plan.phases[1].steps;
      forall k :: 0 <= k < |steps| ==>
        steps[k].work.CleanupResource? &&
        (steps[k].initial == Some(Complete) <==> tombstoneMarker <= steps[k].work.resourceId) &&
        (steps[k].initial == Some(Pending) <==> !(tombstoneMarker <= steps[k].work.resourceId))
  {
  }

  /*** UninstallPlanBuilder ***/

  /** The builder's state: the resource steps, the deregister step if any, the plan, and whether it wiped the store. */
  datatype Builder = Builder(resourceSteps: seq<StepShape>, deregister: Option<StepShape>, plan: PlanShape, clearsStore: bool)

  /**
   * The builder's constructor: without a framework id it wipes the store and yields no steps, no deregister step and
   * a plan without phases. Otherwise: unreserve every distinct resource of every stored task (UninstallStep decides
   * the initial status), clean up TLS secrets when a secrets client exists, and deregister.
   */
  function NewBuilder(store: StoreSnapshot, hasSecretsClient: bool): (b: Builder)
    ensures b.clearsStore <==> store.frameworkId.None?
    ensures b.plan.name == DeployPlanName && b.plan.strategy == Serial
    ensures store.frameworkId.None? ==> b.resourceSteps == [] && b.deregister.None? && b.plan.phases == []
    ensures store.frameworkId.Some? ==> b.deregister.Some? && |b.plan.phases| > 0 && b.plan.phases[0].steps == b.resourceSteps
  {
    if store.frameworkId.None? then Builder([], None, PlanShape(DeployPlanName, Serial, []), true)
    else
      var ids := ResourceIds(store.tasks);
      var resourceSteps := seq(|ids|, i requires 0 <= i < |ids| => StepShape(UnreserveResource(ids[i]), None));
      var unreserve := PhaseShape(UnreservePhase, Parallel, resourceSteps);
      var tls := if hasSecretsClient then [PhaseShape(TlsPhase, Serial, [StepShape(CleanupTls, Some(Pending))])] else [];
      var deregister := StepShape(Deregister(false), Some(Pending));
      var phases := [unreserve] + tls + [PhaseShape(DeregisterServicePhase, Serial, [deregister])];
      Builder(resourceSteps, Some(deregister), PlanShape(DeployPlanName, Serial, phases), false)
  }

  function GetPlan(b: Builder): PlanShape {
    b.plan
  }

  function GetResourceSteps(b: Builder): seq<StepShape> {
    b.resourceSteps
  }

  /** The builder's phase order and strategies, and one unreserve step per distinct resource id of every task. */
  lemma BuilderPhaseOrder(store: StoreSnapshot, hasSecretsClient: bool, rid: string)
    requires store.frameworkId.Some?
    ensures var b := NewBuilder(store, hasSecretsClient);
      && PhaseNames(b.plan) == [UnreservePhase] + (if hasSecretsClient then [TlsPhase] else []) + [DeregisterServicePhase]
      && b.plan.phases[0].strategy == Parallel
      && (forall i :: 1 <= i < |b.plan.phases| ==>
            (b.plan.phases[i].strategy == Serial && |b.plan.phases[i].steps| == 1 && b.plan.phases[i].steps[0].initial == Some(Pending)))
      && b.plan.phases[|b.plan.phases| - 1].steps == [b.deregister.value]
      && (StepShape(UnreserveResource(rid), None) in GetResourceSteps(b) <==> exists t :: t in store.tasks && rid in t.resources)
  {
    var b := NewBuilder(store, hasSecretsClient);
    var ids := ResourceIds(store.tasks);
    ResourceIdsMembers(store.tasks, rid);
    if rid in ids {
      var k :| 0 <= k < |ids| && ids[k] == rid;
      assert GetResourceSteps(b)[k] == StepShape(UnreserveResource(rid), None);
    }
    if StepShape(UnreserveResource(rid), None) in GetResourceSteps(b) {
      var k :| 0 <= k < |GetResourceSteps(b)| && GetResourceSteps(b)[k] == StepShape(UnreserveResource(rid), None);
      assert ids[k] == rid;
    }
    if exists t :: t in store.tasks && rid in t.resources {
      var t :| t in store.tasks && rid in t.resources;
      var i :| 0 <= i < |store.tasks| && store.tasks[i] == t;
    }
  }

  /** setSchedulerDriver: attaches the driver to the deregister step, in the builder and in its plan alike. */
  function SetSchedulerDriver(b: Builder): (r: Builder)
    ensures !(b.deregister.Some? && b.deregister.value.work.Deregister? && |b.plan.phases| > 0) ==> r == b
    ensures b.deregister.Some? && b.deregister.value.work.Deregister? && |b.plan.phases| > 0 ==>
      && r.deregister == Some(b.deregister.value.(work := Deregister(true)))
      && r.resourceSteps == b.resourceSteps && r.clearsStore == b.clearsStore
      && r.plan.name == b.plan.name && r.plan.strategy == b.plan.strategy
      && |r.plan.phases| == |b.plan.phases|
      && (forall k :: 0 <= k < |b.plan.phases| - 1 ==> r.plan.phases[k] == b.plan.phases[k])
      && r.plan.phases[|b.plan.phases| - 1] == b.plan.phases[|b.plan.phases| - 1].(steps := [r.deregister.value])
  {
    match b.deregister
    case None => b
    case Some(d) =>
      if !d.work.Deregister? || |b.plan.phases| == 0 then b
      else
        var attached := d.(work := Deregister(true));
        var last := |b.plan.phases| - 1;
        var phases := b.plan.phases[last := b.plan.phases[last].(steps := [attached])];
        b.(deregister := Some(attached), plan := b.plan.(phases := phases))
  }

  /**
   * On a builder's output the driver changes one thing: the deregister step, which the last phase already held
   * alone, now carries the driver. Without a framework id there is no deregister step and nothing changes.
   */
  lemma DriverReachesBuiltDeregisterStep(store: StoreSnapshot, hasSecretsClient: bool)
    ensures var b := NewBuilder(store, hasSecretsClient);
      var r := SetSchedulerDriver(b);
      && (store.frameworkId.None? ==> r == b)
      && (store.frameworkId.Some? ==>
            && b.plan.phases[|b.plan.phases| - 1].steps == [b.deregister.value]
            && r.deregister == Some(StepShape(Deregister(true), Some(Pending)))
            && PhaseNames(r.plan) == PhaseNames(b.plan)
            && r.plan.phases[|b.plan.phases| - 1].steps == [r.deregister.value])
  {
    var b := NewBuilder(store, hasSecretsClient);
    var r := SetSchedulerDriver(b);
    if store.frameworkId.Some? {
      assert b.plan.phases[|b.plan.phases| - 1].steps == [b.deregister.value];
      assert forall k :: 0 <= k < |b.plan.phases| ==> r.plan.phases[k].name == b.plan.phases[k].name;
    }
  }

  /*** From shape to plan ***/

  /**
   * The identities a running scheduler gives a shape: ids for the plan, each phase and each step, step names, and
   * the initial status decided by the step classes, which are not modelled.
   */
  datatype Naming = Naming(plan: Uuid, phase: nat -> Uuid, step: (nat, nat) -> Uuid, stepName: Work -> string,
                           decide: Work -> Status)

  function InitialStatus(s: StepShape, n: Naming): Status {
    match s.initial
    case Some(st) => st
    case None => n.decide(s.work)
  }

  function RealizePhase(ph: PhaseShape, i: nat, n: Naming): (r: Phase)
    ensures r.name == ph.name && r.strategy == Strategy(ph.strategy, false) && r.errors == []
    ensures |r.steps| == |ph.steps|
    ensures forall j :: 0 <= j < |ph.steps| ==>
      r.steps[j].raw == InitialStatus(ph.steps[j], n) && !r.steps[j].interrupted && r.steps[j].errors == []
  {
    var steps := seq(|ph.steps|, j requires 0 <= j < |ph.steps| =>
                       NewStep(n.step(i, j), n.stepName(ph.steps[j].work), InitialStatus(ph.steps[j], n), [], None));
    assert forall j :: 0 <= j < |ph.steps| ==>
      steps[j] == NewStep(n.step(i, j), n.stepName(ph.steps[j].work), InitialStatus(ph.steps[j], n), [], None);
    Phase(n.phase(i), ph.name, steps, NewStrategy(ph.strategy), [])
  }

  /** The plan a shape becomes: DefaultPlan over DefaultPhases with fresh strategies and no errors. */
  function Realize(p: PlanShape, n: Naming): (r: Plan)
    ensures r.name == p.name && r.strategy == Strategy(p.strategy, false) && r.errors == []
    ensures |r.phases| == |p.phases| && forall i :: 0 <= i < |p.phases| ==> r.phases[i] == RealizePhase(p.phases[i], i, n)
  {
    NewPlanWithStrategy(n.plan, p.name,
                        seq(|p.phases|, i requires 0 <= i < |p.phases| => RealizePhase(p.phases[i], i, n)),
                        NewStrategy(p.strategy))
  }

  /** Without a framework id both builders yield a plan that reports COMPLETE, whatever the strategies say. */
  lemma NoFrameworkIdIsComplete(store: StoreSnapshot, hasSecretsClient: bool, tombstoneMarker: string, n: Naming, sel: Selector)
    requires store.frameworkId.None?
    ensures SchedulerPlan(store, hasSecretsClient, tombstoneMarker).plan.phases == []
    ensures PlanStatus(Realize(SchedulerPlan(store, hasSecretsClient, tombstoneMarker).plan, n), sel) == Complete
    ensures PlanStatus(Realize(GetPlan(NewBuilder(store, hasSecretsClient)), n), sel) == Complete
  {
    EmptyPlanIsComplete(Realize(SchedulerPlan(store, hasSecretsClient, tombstoneMarker).plan, n), sel);
    EmptyPlanIsComplete(Realize(GetPlan(NewBuilder(store, hasSecretsClient)), n), sel);
  }

  /** When every resource id carries the tombstone marker, the resource phase starts out COMPLETE. */
  lemma TombstonedResourcePhaseIsComplete(store: StoreSnapshot, hasSecretsClient: bool, tombstoneMarker: string,
                                          n: Naming, sel: Selector)
    requires store.frameworkId.Some?
    requires forall rid :: rid in ResourceIds(CleanableTasks(store)) ==> tombstoneMarker <= rid
    ensures PhaseStatus(Realize(SchedulerPlan(store, hasSecretsClient, tombstoneMarker).plan, n).phases[1], sel) == Complete
  {
    var shape := SchedulerPlan(store, hasSecretsClient, tombstoneMarker).plan;
    var ph := Realize(shape, n).phases[1];
    var ids := ResourceIds(CleanableTasks(store));
    assert shape.phases[1].steps == ResourceCleanupSteps(store, tombstoneMarker);
    forall j | 0 <= j < |ph.steps| ensures StepStatus(ph.steps[j]) == Complete {
      assert ids[j] in ids;
      assert shape.phases[1].steps[j].initial == Some(Complete);
    }
    PhaseErrorsEmpty(ph);
    PhaseCompleteIff(ph, sel);
  }

  /*** Driving the plan ***/

  /** DefaultPlanManager's constructor interrupts the plan it manages (DefaultPlanManager is not part of this model). */
  function Manage(p: Plan): (r: Plan)
    ensures r == p.(strategy := p.strategy.(interrupted := true))
  {
    PlanInterrupt(p).value
  }

  /** initialize: the uninstall plan proceeds. */
  function Initialize(p: Plan): (r: Plan)
    ensures !r.strategy.interrupted && r.phases == p.phases && r.errors == p.errors && r.id == p.id
    ensures r == p.(strategy := p.strategy.(interrupted := false))
  {
    PlanProceed(p).value
  }

  /** Interrupting at adoption and proceeding at initialize leave the plan as built, except that it now proceeds. */
  lemma InitializeUndoesManage(p: Plan)
    ensures Initialize(Manage(p)) == p.(strategy := p.strategy.(interrupted := false))
  {
  }

  /**
   * processOfferSet, plan side: every candidate step (the manager's getCandidates for an empty dirty set, passed in)
   * is started. Starting is the step class's start(), passed in; a deregister step's start completes it.
   */
  function StartCandidates(p: Plan, candidates: seq<Address>, start: Step -> Step): (r: Plan)
    requires forall a :: a in candidates ==> ValidAddress(p, a)
    ensures SameShape(p, r) && r.strategy == p.strategy && r.errors == p.errors
    ensures forall i :: 0 <= i < |p.phases| ==> r.phases[i].strategy == p.phases[i].strategy && r.phases[i].errors == p.phases[i].errors
    ensures forall a :: ValidAddress(p, a) && a !in candidates ==>
      r.phases[a.phase].steps[a.step] == p.phases[a.phase].steps[a.step]
    decreases |candidates|
  {
    if candidates == [] then p
    else
      var a := candidates[0];
      assert a in candidates && ValidAddress(p, a);
      var ph := p.phases[a.phase];
      var q := p.(phases := p.phases[a.phase := ph.(steps := ph.steps[a.step := start(ph.steps[a.step])])]);
      assert forall b :: b in candidates[1..] ==> ValidAddress(q, b) by {
        forall b | b in candidates[1..] ensures ValidAddress(q, b) {
          assert b in candidates && ValidAddress(p, b);
        }
      }
      StartCandidates(q, candidates[1..], start)
  }

  /** With no candidate repeated, each candidate step ends up started exactly once. */
  lemma {:induction false} EachCandidateStartsOnce(p: Plan, candidates: seq<Address>, start: Step -> Step)
    requires forall a :: a in candidates ==> ValidAddress(p, a)
    requires forall k, l :: 0 <= k < l < |candidates| ==> candidates[k] != candidates[l]
    ensures forall a :: a in candidates ==>
      StartCandidates(p, candidates, start).phases[a.phase].steps[a.step] == start(p.phases[a.phase].steps[a.step])
    decreases |candidates|
  {
    if candidates != [] {
      var a := candidates[0];
      assert a in candidates && ValidAddress(p, a);
      var ph := p.phases[a.phase];
      var q := p.(phases := p.phases[a.phase := ph.(steps := ph.steps[a.step := start(ph.steps[a.step])])]);
      assert forall b :: b in candidates[1..] ==> ValidAddress(q, b) by {
        forall b | b in candidates[1..] ensures ValidAddress(q, b) {
          assert b in candidates && ValidAddress(p, b);
        }
      }
      EachCandidateStartsOnce(q, candidates[1..], start);
      assert a !in candidates[1..] by {
        forall k | 0 <= k < |candidates[1..]| ensures candidates[1..][k] != a {
          assert candidates[1..][k] == candidates[k + 1];
        }
      }
      forall b | b in candidates[1..]
        ensures q.phases[b.phase].steps[b.step] == p.phases[b.phase].steps[b.step]
      {
      }
    }
  }

  /** DeregisterStep.start, plan side: the step ends COMPLETE (its store and driver calls are not modelled). */
  function DeregisterStart(s: Step): (r: Step)
    ensures r.raw == Complete && StepStatus(r) == Complete
    ensures r.id == s.id && r.name == s.name && r.interrupted == s.interrupted && r.errors == s.errors
  {
    SetStatus(s, Complete).step
  }
}
