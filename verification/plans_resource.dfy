/**
 * The plan command surface (PlansResource) as pure functions from the plan managers' plans, a command and its
 * filters to an Outcome: the response (code and the elements it lists) and the plans afterwards. The plan manager
 * collection is a sequence of plans in collection order; JSON bodies are reduced to the listed element refs.
 */
module PlansResource {
  import opened Wrappers
  import opened Statuses
  import opened Elements
  import opened Strategies
  import opened Steps
  import opened Parents
  import opened Plans

  /** The HTTP statuses the resource answers with. */
  datatype Code = Ok | Accepted | AlreadyReported | BadRequest | NotFound

  function HttpStatus(c: Code): nat {
    match c
    case Ok => 200
    case Accepted => 202
    case AlreadyReported => 208
    case BadRequest => 400
    case NotFound => 404
  }

  /** A response: its code and the (id, name, type) entries of the command result's element list. */
  datatype Response = Response(code: Code, elements: seq<ElementRef>)

  datatype Outcome = Outcome(response: Response, plans: seq<Plan>)

  /** UUID.fromString: the UUID a string denotes, or None where it throws IllegalArgumentException. */
  type Parser = string -> Option<Uuid>

  function Unchanged(plans: seq<Plan>, code: Code): Outcome {
    Outcome(Response(code, []), plans)
  }

  /*** Parameter validation: [A-Za-z_][A-Za-z0-9_]* ***/

  predicate IsEnvVarStart(c: char) {
    ('A' <= c <= 'Z') || ('a' <= c <= 'z') || c == '_'
  }

  predicate IsEnvVarChar(c: char) {
    IsEnvVarStart(c) || ('0' <= c <= '9')
  }

  /** The whole string matches the environment-variable pattern. */
  predicate IsEnvVarName(s: string) {
    |s| > 0 && IsEnvVarStart(s[0]) && forall i :: 1 <= i < |s| ==> IsEnvVarChar(s[i])
  }

  predicate ValidParameters(parameters: map<string, string>) {
    forall k :: k in parameters ==> IsEnvVarName(k)
  }

  /** The matcher: one scan over the characters. */
  method MatchesEnvVarName(s: string) returns (ok: bool)
    ensures ok <==> IsEnvVarName(s)
  {
    if |s| == 0 || !IsEnvVarStart(s[0]) {
      return false;
    }
    var i := 1;
    while i < |s|
      invariant 1 <= i <= |s|
      invariant forall k :: 1 <= k < i ==> IsEnvVarChar(s[k])
    {
      if !IsEnvVarChar(s[i]) {
        return false;
      }
      i := i + 1;
    }
    return true;
  }

  /** validate: looks at every key; reports a key that does not match, or None when all do. */
  method Validate(parameters: map<string, string>) returns (bad: Option<string>)
    ensures bad.None? <==> ValidParameters(parameters)
    ensures bad.Some? ==> bad.value in parameters && !IsEnvVarName(bad.value)
  {
    var unseen := parameters.Keys;
    while unseen != {}
      invariant unseen <= parameters.Keys
      invariant forall k :: k in parameters && k !in unseen ==> IsEnvVarName(k)
      decreases |unseen|
    {
      var k :| k in unseen;
      var ok := MatchesEnvVarName(k);
      if !ok {
        return Some(k);
      }
      unseen := unseen - {k};
    }
    return None;
  }

  /*** Plan lookup ***/

  /** listPlans: the plans' names in collection order. */
  function PlanNames(plans: seq<Plan>): (r: seq<string>)
    ensures |r| == |plans|
    ensures forall i :: 0 <= i < |plans| ==> r[i] == plans[i].name
  {
    seq(|plans|, i requires 0 <= i < |plans| => plans[i].name)
  }

  function FindPlanFrom(plans: seq<Plan>, name: string, from: nat): (r: Option<nat>)
    requires from <= |plans|
    ensures r.Some? ==> from <= r.value < |plans| && plans[r.value].name == name
    ensures r.Some? ==> forall k :: from <= k < r.value ==> plans[k].name != name
    ensures r.None? <==> forall k :: from <= k < |plans| ==> plans[k].name != name
    decreases |plans| - from
  {
    if from == |plans| then None
    else if plans[from].name == name then Some(from)
    else FindPlanFrom(plans, name, from + 1)
  }

  /** getPlanManager: the first plan whose name equals `name` exactly. */
  function FindPlan(plans: seq<Plan>, name: string): (r: Option<nat>)
    ensures r.Some? ==> r.value < |plans| && plans[r.value].name == name
    ensures r.Some? ==> forall k :: 0 <= k < r.value ==> plans[k].name != name
    ensures r.None? <==> forall k :: 0 <= k < |plans| ==> plans[k].name != name
  {
    FindPlanFrom(plans, name, 0)
  }

  /** Lookup reads names only, so collections with the same names answer alike. */
  lemma FindPlanReadsNames(plans: seq<Plan>, others: seq<Plan>, name: string)
    requires PlanNames(plans) == PlanNames(others)
    ensures FindPlan(plans, name) == FindPlan(others, name)
  {
    var a := FindPlan(plans, name);
    var b := FindPlan(others, name);
    assert |plans| == |others|;
    assert forall k :: 0 <= k < |plans| ==> plans[k].name == PlanNames(plans)[k] == others[k].name;
  }

  /** Replacing a plan by one with the same name keeps the list of names. */
  lemma ReplaceKeepsNames(plans: seq<Plan>, i: nat, q: Plan)
    requires i < |plans| && q.name == plans[i].name
    ensures PlanNames(plans[i := q]) == PlanNames(plans)
  {
  }

  /*** Element resolution ***/

  /** An element a command can address: the plan, a phase by index, or a step by address. */
  datatype Target = WholePlan | PhaseAt(phase: nat) | StepAt(at: Address)

  predicate ValidTarget(p: Plan, t: Target) {
    match t
    case WholePlan => true
    case PhaseAt(i) => i < |p.phases|
    case StepAt(a) => ValidAddress(p, a)
  }

  predicate AllValid(p: Plan, ts: seq<Target>) {
    forall t :: t in ts ==> ValidTarget(p, t)
  }

  /** A filter matches a label by id when it parses as a UUID, and by name otherwise. */
  predicate LabelMatches(l: Label, filter: string, parse: Parser) {
    match parse(filter)
    case Some(u) => l.id == u
    case None => l.name == filter
  }

  /** Every address follows the one before it. */
  predicate Sorted(r: seq<Address>) {
    forall k, l :: 0 <= k < l < |r| ==> Before(r[k], r[l])
  }

  /** Address order: by phase, then by step. */
  predicate Before(a: Address, b: Address) {
    a.phase < b.phase || (a.phase == b.phase && a.step < b.step)
  }

  lemma SortedConcat(h: seq<Address>, t: seq<Address>)
    requires Sorted(h) && Sorted(t)
    requires forall x, y :: x in h && y in t ==> Before(x, y)
    ensures Sorted(h + t)
  {
    forall k, l | 0 <= k < l < |h + t| ensures Before((h + t)[k], (h + t)[l]) {
      if l < |h| {
        assert (h + t)[k] == h[k] && (h + t)[l] == h[l];
      } else if k >= |h| {
        assert (h + t)[k] == t[k - |h|] && (h + t)[l] == t[l - |h|];
      } else {
        assert (h + t)[k] in h && (h + t)[l] in t;
      }
    }
  }

  function MatchPhasesFrom(o: seq<PhaseOutline>, filter: string, parse: Parser, from: nat): (r: seq<nat>)
    requires from <= |o|
    ensures forall i: nat :: i in r <==> from <= i < |o| && LabelMatches(o[i].phase, filter, parse)
    ensures forall k, l :: 0 <= k < l < |r| ==> r[k] < r[l]
    decreases |o| - from
  {
    if from == |o| then []
    else
      var head := if LabelMatches(o[from].phase, filter, parse) then [from] else [];
      var tail := MatchPhasesFrom(o, filter, parse, from + 1);
      forall k | 0 <= k < |tail| ensures from < tail[k] {
        assert tail[k] in tail;
      }
      head + tail
  }

  /** getPhases: the indices of every matching phase, in phase order. */
  function MatchPhases(o: seq<PhaseOutline>, filter: string, parse: Parser): (r: seq<nat>)
    ensures forall i: nat :: i in r <==> i < |o| && LabelMatches(o[i].phase, filter, parse)
    ensures forall k, l :: 0 <= k < l < |r| ==> r[k] < r[l]
  {
    MatchPhasesFrom(o, filter, parse, 0)
  }

  /** The step at `a` of outline `o` exists, lies in one of the phases `idx`, and matches the filter. */
  predicate MatchesIn(o: seq<PhaseOutline>, idx: seq<nat>, filter: string, parse: Parser, a: Address) {
    a.phase in idx && a.phase < |o| && a.step < |o[a.phase].steps| && LabelMatches(o[a.phase].steps[a.step], filter, parse)
  }

  function StepsInPhaseFrom(o: seq<PhaseOutline>, i: nat, filter: string, parse: Parser, from: nat): (r: seq<Address>)
    requires i < |o| && from <= |o[i].steps|
    ensures forall a :: a in r <==> MatchesIn(o, [i], filter, parse, a) && from <= a.step
    ensures Sorted(r)
    decreases |o[i].steps| - from
  {
    if from == |o[i].steps| then []
    else
      var head := if LabelMatches(o[i].steps[from], filter, parse) then [Address(i, from)] else [];
      var tail := StepsInPhaseFrom(o, i, filter, parse, from + 1);
      SortedConcat(head, tail);
      head + tail
  }

  /** The addresses of the matching steps of the given phases, flattened in order. */
  function MatchSteps(o: seq<PhaseOutline>, idx: seq<nat>, filter: string, parse: Parser): (r: seq<Address>)
    requires forall k, l :: 0 <= k < l < |idx| ==> idx[k] < idx[l]
    ensures forall a :: a in r <==> MatchesIn(o, idx, filter, parse, a)
    ensures Sorted(r)
    decreases |idx|
  {
    if idx == [] then []
    else if idx[0] >= |o| then
      assert forall a :: MatchesIn(o, idx, filter, parse, a) <==> MatchesIn(o, idx[1..], filter, parse, a) by {
        assert forall x :: x in idx <==> x == idx[0] || x in idx[1..];
      }
      MatchSteps(o, idx[1..], filter, parse)
    else
      var head := StepsInPhaseFrom(o, idx[0], filter, parse, 0);
      var tail := MatchSteps(o, idx[1..], filter, parse);
      assert forall x :: x in idx[1..] ==> x > idx[0];
      assert forall x, y :: x in head && y in tail ==> Before(x, y);
      SortedConcat(head, tail);
      assert forall a :: MatchesIn(o, idx, filter, parse, a) <==> MatchesIn(o, [idx[0]], filter, parse, a) || MatchesIn(o, idx[1..], filter, parse, a) by {
        assert forall x :: x in idx <==> x == idx[0] || x in idx[1..];
      }
      head + tail
  }

  /**
   * getPlanElements: no phase filter gives the plan; a phase filter gives every matching phase; a phase and a step
   * filter give the one step that matches across those phases, or nothing when none or several do. A step filter
   * without a phase filter throws in the source; every caller rules it out first.
   */
  function Resolve(p: Plan, phase: Option<string>, step: Option<string>, parse: Parser): (r: seq<Target>)
    requires phase.Some? || step.None?
    ensures AllValid(p, r)
  {
    var o := OutlineOf(p);
    if phase.None? then [WholePlan]
    else
      var idx := MatchPhases(o, phase.value, parse);
      if step.None? then
        var r := seq(|idx|, k requires 0 <= k < |idx| => PhaseAt(idx[k]));
        assert |o| == |p.phases|;
        assert AllValid(p, r) by {
          forall t | t in r ensures ValidTarget(p, t) {
            var k :| 0 <= k < |r| && r[k] == t;
            assert idx[k] in idx;
          }
        }
        r
      else
        var found := MatchSteps(o, idx, step.value, parse);
        if |found| == 1 then
          assert found[0] in found;
          [StepAt(found[0])]
        else []
  }

  predicate PhaseMatches(p: Plan, i: nat, filter: string, parse: Parser)
    requires i < |p.phases|
  {
    LabelMatches(Label(p.phases[i].id, p.phases[i].name), filter, parse)
  }

  /** The step at `a` lies in a phase matching `phaseFilter` and itself matches `stepFilter`. */
  predicate StepMatches(p: Plan, a: Address, phaseFilter: string, stepFilter: string, parse: Parser) {
    && ValidAddress(p, a)
    && PhaseMatches(p, a.phase, phaseFilter, parse)
    && LabelMatches(Label(p.phases[a.phase].steps[a.step].id, p.phases[a.phase].steps[a.step].name), stepFilter, parse)
  }

  /** Without a phase filter the plan itself is the only element. */
  lemma ResolveWithoutFilters(p: Plan, parse: Parser)
    ensures Resolve(p, None, None, parse) == [WholePlan]
  {
  }

  /** A phase filter resolves to exactly the matching phases, each once, in phase order; possibly several. */
  lemma ResolvePhasesExactly(p: Plan, filter: string, parse: Parser)
    ensures forall t :: t in Resolve(p, Some(filter), None, parse) <==>
      exists i :: 0 <= i < |p.phases| && PhaseMatches(p, i, filter, parse) && t == PhaseAt(i)
    ensures var r := Resolve(p, Some(filter), None, parse);
      forall k, l :: 0 <= k < l < |r| ==> r[k].PhaseAt? && r[l].PhaseAt? && r[k].phase < r[l].phase
  {
    var o := OutlineOf(p);
    var idx := MatchPhases(o, filter, parse);
    var r := Resolve(p, Some(filter), None, parse);
    assert forall i :: 0 <= i < |p.phases| ==> o[i].phase == Label(p.phases[i].id, p.phases[i].name);
    forall t | t in r ensures exists i :: 0 <= i < |p.phases| && PhaseMatches(p, i, filter, parse) && t == PhaseAt(i) {
      var k :| 0 <= k < |r| && r[k] == t;
      assert idx[k] in idx;
    }
    forall t | exists i :: 0 <= i < |p.phases| && PhaseMatches(p, i, filter, parse) && t == PhaseAt(i)
      ensures t in r
    {
      var i :| 0 <= i < |p.phases| && PhaseMatches(p, i, filter, parse) && t == PhaseAt(i);
      assert i in idx;
      var k :| 0 <= k < |idx| && idx[k] == i;
      assert r[k] == t;
    }
  }

  /** The plan-level reading of the outline-level step match. */
  lemma StepMatchesInOutline(p: Plan, phaseFilter: string, stepFilter: string, parse: Parser, b: Address)
    ensures var o := OutlineOf(p);
      StepMatches(p, b, phaseFilter, stepFilter, parse) <==>
      MatchesIn(o, MatchPhases(o, phaseFilter, parse), stepFilter, parse, b)
  {
    var o := OutlineOf(p);
    if b.phase < |p.phases| {
      assert o[b.phase].phase == Label(p.phases[b.phase].id, p.phases[b.phase].name);
      if b.step < |p.phases[b.phase].steps| {
        assert o[b.phase].steps[b.step] == Label(p.phases[b.phase].steps[b.step].id, p.phases[b.phase].steps[b.step].name);
      }
    }
  }

  /** A sorted sequence whose only member is `a` is `[a]`: order rules out repeats. */
  lemma SortedSingleton(r: seq<Address>, a: Address)
    requires Sorted(r)
    requires forall x :: x in r <==> x == a
    ensures r == [a]
  {
    assert a in r;
    assert |r| < 2 || (r[0] in r && r[1] in r && Before(r[0], r[1]));
    assert r[0] in r;
  }

  /** The step filter succeeds exactly when one and only one step matches across the matched phases. */
  lemma ResolveStepIsUnique(p: Plan, phaseFilter: string, stepFilter: string, parse: Parser, a: Address)
    ensures Resolve(p, Some(phaseFilter), Some(stepFilter), parse) == [StepAt(a)] <==>
      StepMatches(p, a, phaseFilter, stepFilter, parse) &&
      forall b :: StepMatches(p, b, phaseFilter, stepFilter, parse) ==> b == a
  {
    var o := OutlineOf(p);
    var idx := MatchPhases(o, phaseFilter, parse);
    var found := MatchSteps(o, idx, stepFilter, parse);
    assert Resolve(p, Some(phaseFilter), Some(stepFilter), parse) == if |found| == 1 then [StepAt(found[0])] else [];
    forall b ensures StepMatches(p, b, phaseFilter, stepFilter, parse) <==> b in found {
      StepMatchesInOutline(p, phaseFilter, stepFilter, parse, b);
    }
    if |found| == 1 {
      assert found[0] in found;
      assert forall b :: b in found ==> b == found[0];
    }
    if StepMatches(p, a, phaseFilter, stepFilter, parse) && forall b :: StepMatches(p, b, phaseFilter, stepFilter, parse) ==> b == a {
      SortedSingleton(found, a);
    }
  }

  /** The step filter finds nothing exactly when no step matches or at least two do. */
  lemma ResolveStepNoneOrSeveral(p: Plan, phaseFilter: string, stepFilter: string, parse: Parser)
    ensures |Resolve(p, Some(phaseFilter), Some(stepFilter), parse)| <= 1
    ensures Resolve(p, Some(phaseFilter), Some(stepFilter), parse) == [] <==>
      forall a :: StepMatches(p, a, phaseFilter, stepFilter, parse) ==>
        exists b :: StepMatches(p, b, phaseFilter, stepFilter, parse) && b != a
  {
    var r := Resolve(p, Some(phaseFilter), Some(stepFilter), parse);
    if r != [] {
      var a := r[0].at;
      ResolveStepIsUnique(p, phaseFilter, stepFilter, parse, a);
    } else {
      forall a | StepMatches(p, a, phaseFilter, stepFilter, parse)
        ensures exists b :: StepMatches(p, b, phaseFilter, stepFilter, parse) && b != a
      {
        ResolveStepIsUnique(p, phaseFilter, stepFilter, parse, a);
      }
    }
  }

  /*** Reading and acting on a target ***/

  function TargetStatus(p: Plan, t: Target, sel: Selector): Status
    requires ValidTarget(p, t)
  {
    match t
    case WholePlan => PlanStatus(p, sel)
    case PhaseAt(i) => PhaseStatus(p.phases[i], sel)
    case StepAt(a) => StepStatus(p.phases[a.phase].steps[a.step])
  }

  predicate TargetInterrupted(p: Plan, t: Target)
    requires ValidTarget(p, t)
  {
    match t
    case WholePlan => p.strategy.interrupted
    case PhaseAt(i) => p.phases[i].strategy.interrupted
    case StepAt(a) => p.phases[a.phase].steps[a.step].interrupted
  }

  function TargetRef(p: Plan, t: Target): ElementRef
    requires ValidTarget(p, t)
  {
    match t
    case WholePlan => PlanRef(p)
    case PhaseAt(i) => PhaseRef(p.phases[i])
    case StepAt(a) => RefOf(p.phases[a.phase].steps[a.step])
  }

  function Refs(p: Plan, ts: seq<Target>): (r: seq<ElementRef>)
    requires AllValid(p, ts)
    ensures |r| == |ts| && forall k :: 0 <= k < |ts| ==> r[k] == TargetRef(p, ts[k])
  {
    seq(|ts|, k requires 0 <= k < |ts| => TargetRef(p, ts[k]))
  }

  /** Applies one element operation to the addressed element; nothing else in the plan changes. */
  function ActOn(p: Plan, t: Target, op: Op): (r: Plan)
    requires ValidTarget(p, t)
    ensures SameShape(p, r) && OutlineOf(r) == OutlineOf(p) && r.id == p.id && r.name == p.name
  {
    match t
    case WholePlan =>
      PlanActKeepsOutline(p, op);
      PlanAct(p, op)
    case PhaseAt(i) =>
      var q := p.(phases := p.phases[i := PhaseAct(p.phases[i], op)]);
      PhaseActKeepsLabels(p.phases[i], op);
      SameLabelsSameOutline(p, q);
      q
    case StepAt(a) =>
      var ph := p.phases[a.phase];
      var q := p.(phases := p.phases[a.phase := ph.(steps := ph.steps[a.step := StepAct(ph.steps[a.step], op)])]);
      SameLabelsSameOutline(p, q);
      q
  }

  /** Element::op applied to each target in turn. */
  function ActAll(p: Plan, ts: seq<Target>, op: Op): (r: Plan)
    requires AllValid(p, ts)
    ensures SameShape(p, r) && OutlineOf(r) == OutlineOf(p) && r.id == p.id && r.name == p.name
    decreases |ts|
  {
    if ts == [] then p
    else
      var q := ActOn(p, ts[0], op);
      assert AllValid(q, ts[1..]) by {
        forall t | t in ts[1..] ensures ValidTarget(q, t) {
          assert t in ts;
        }
      }
      ActAll(q, ts[1..], op)
  }

  /** The per-command filters: continue skips IN_PROGRESS and COMPLETE, interrupt skips COMPLETE and interrupted,
    * forceComplete skips COMPLETE; restart takes everything. */
  predicate Wanted(p: Plan, t: Target, op: Op, sel: Selector)
    requires ValidTarget(p, t)
  {
    match op
    case Proceed => TargetStatus(p, t, sel) != InProgress && TargetStatus(p, t, sel) != Complete
    case Interrupt => TargetStatus(p, t, sel) != Complete && !TargetInterrupted(p, t)
    case ForceComplete => TargetStatus(p, t, sel) != Complete
    case Restart => true
  }

  function WantedMask(p: Plan, ts: seq<Target>, op: Op, sel: Selector): (m: seq<bool>)
    requires AllValid(p, ts)
    ensures |m| == |ts| && forall k :: 0 <= k < |ts| ==> m[k] == Wanted(p, ts[k], op, sel)
  {
    seq(|ts|, k requires 0 <= k < |ts| => Wanted(p, ts[k], op, sel))
  }

  /** Target by target, the one-item list of a target the filter wants, else the empty list. */
  function WantedOnes(p: Plan, ts: seq<Target>, op: Op, sel: Selector): (r: seq<seq<Target>>)
    requires AllValid(p, ts)
    ensures |r| == |ts|
  {
    seq(|ts|, k requires 0 <= k < |ts| => assert ts[k] in ts; if Wanted(p, ts[k], op, sel) then [ts[k]] else [])
  }

  /** The targets the command's filter keeps, in order. */
  function Qualifying(p: Plan, ts: seq<Target>, op: Op, sel: Selector): (r: seq<Target>)
    requires AllValid(p, ts)
    ensures r == Concat(WantedOnes(p, ts, op, sel))
    ensures forall t :: t in r <==> t in ts && Wanted(p, t, op, sel)
    ensures r == [] <==> forall t :: t in ts ==> !Wanted(p, t, op, sel)
  {
    var mask := WantedMask(p, ts, op, sel);
    var r := Select(ts, mask);
    assert Marked(ts, mask) == WantedOnes(p, ts, op, sel);
    assert forall t :: t in ts && Wanted(p, t, op, sel) ==> t in r by {
      forall t | t in ts && Wanted(p, t, op, sel) ensures t in r {
        var k :| 0 <= k < |ts| && ts[k] == t;
        assert mask[k];
      }
    }
    r
  }

  /**
   * The shared tail of continue, interrupt and forceComplete: nothing resolved is NOT_FOUND, nothing qualifying is
   * 208 with no change, and otherwise the qualifying elements are acted on and listed.
   */
  function Filtered(plans: seq<Plan>, i: nat, ts: seq<Target>, op: Op, sel: Selector): (r: Outcome)
    requires i < |plans| && AllValid(plans[i], ts)
    ensures ts == [] ==> r == Unchanged(plans, NotFound)
    ensures ts != [] && (forall t :: t in ts ==> !Wanted(plans[i], t, op, sel)) ==> r == Unchanged(plans, AlreadyReported)
    ensures r.response.code == Ok <==> exists t :: t in ts && Wanted(plans[i], t, op, sel)
    ensures r.response.code == Ok ==> r.response.elements == Refs(plans[i], Qualifying(plans[i], ts, op, sel))
    ensures r.response.code == Ok ==>
      forall x :: x in r.response.elements <==> exists t :: t in ts && Wanted(plans[i], t, op, sel) && x == TargetRef(plans[i], t)
    ensures r.response.code == Ok ==> r.plans == plans[i := ActAll(plans[i], Qualifying(plans[i], ts, op, sel), op)]
    ensures r.response.code != Ok ==> r.plans == plans
    ensures PlanNames(r.plans) == PlanNames(plans)
  {
    var p := plans[i];
    if ts == [] then Unchanged(plans, NotFound)
    else
      var chosen := Qualifying(p, ts, op, sel);
      if chosen == [] then Unchanged(plans, AlreadyReported)
      else
        var refs := Refs(p, chosen);
        assert forall x :: x in refs <==> exists t :: t in chosen && x == TargetRef(p, t) by {
          forall x | x in refs ensures exists t :: t in chosen && x == TargetRef(p, t) {
            var k :| 0 <= k < |refs| && refs[k] == x;
            assert chosen[k] in chosen;
          }
          forall x | exists t :: t in chosen && x == TargetRef(p, t) ensures x in refs {
            var t :| t in chosen && x == TargetRef(p, t);
            var k :| 0 <= k < |chosen| && chosen[k] == t;
            assert refs[k] == x;
          }
        }
        ReplaceKeepsNames(plans, i, ActAll(p, chosen, op));
        Outcome(Response(Ok, refs), plans[i := ActAll(p, chosen, op)])
  }

  /*** Commands ***/

  /** POST /plans/{name}/continue: proceeds every resolved element that is neither in progress nor complete. */
  function ContinueCommand(plans: seq<Plan>, name: string, phase: Option<string>, sel: Selector, parse: Parser): (r: Outcome)
    ensures |r.plans| == |plans| && PlanNames(r.plans) == PlanNames(plans)
    ensures r.response.code != Ok ==> r.plans == plans
  {
    match FindPlan(plans, name)
    case None => Unchanged(plans, NotFound)
    case Some(i) => Filtered(plans, i, Resolve(plans[i], phase, None, parse), Proceed, sel)
  }

  /** POST /plans/{name}/interrupt: interrupts every resolved element that is neither complete nor interrupted. */
  function InterruptCommand(plans: seq<Plan>, name: string, phase: Option<string>, sel: Selector, parse: Parser): (r: Outcome)
    ensures |r.plans| == |plans| && PlanNames(r.plans) == PlanNames(plans)
    ensures r.response.code != Ok ==> r.plans == plans
  {
    match FindPlan(plans, name)
    case None => Unchanged(plans, NotFound)
    case Some(i) => Filtered(plans, i, Resolve(plans[i], phase, None, parse), Interrupt, sel)
  }

  /** POST /plans/{name}/forceComplete: force-completes every resolved element that is not complete. */
  function ForceCompleteCommand(plans: seq<Plan>, name: string, phase: Option<string>, step: Option<string>,
                                sel: Selector, parse: Parser): (r: Outcome)
    ensures |r.plans| == |plans| && PlanNames(r.plans) == PlanNames(plans)
    ensures r.response.code != Ok ==> r.plans == plans
  {
    match FindPlan(plans, name)
    case None => Unchanged(plans, NotFound)
    case Some(i) =>
      if phase.None? && step.Some? then Unchanged(plans, BadRequest)
      else Filtered(plans, i, Resolve(plans[i], phase, step, parse), ForceComplete, sel)
  }

  /** POST /plans/{name}/restart: restarts, then proceeds, every resolved element; there is no filter. */
  function RestartCommand(plans: seq<Plan>, name: string, phase: Option<string>, step: Option<string>,
                          parse: Parser): (r: Outcome)
    ensures |r.plans| == |plans| && PlanNames(r.plans) == PlanNames(plans)
    ensures r.response.code != Ok ==> r.plans == plans
  {
    match FindPlan(plans, name)
    case None => Unchanged(plans, NotFound)
    case Some(i) =>
      if phase.None? && step.Some? then Unchanged(plans, BadRequest)
      else
        var p := plans[i];
        var ts := Resolve(p, phase, step, parse);
        if ts == [] then Unchanged(plans, NotFound)
        else
          ReplaceKeepsNames(plans, i, ActAll(ActAll(p, ts, Restart), ts, Proceed));
          Outcome(Response(Ok, Refs(p, ts)), plans[i := ActAll(ActAll(p, ts, Restart), ts, Proceed)])
  }

  /**
   * POST /plans/{name}/start: parameters are validated before the plan is looked up; a complete plan is restarted;
   * the plan then always proceeds. What updateParameters does to the steps is not part of this model.
   */
  function StartPlan(plans: seq<Plan>, name: string, parameters: map<string, string>, sel: Selector): (r: Outcome)
    ensures |r.plans| == |plans| && PlanNames(r.plans) == PlanNames(plans)
    ensures r.response.code != Ok ==> r.plans == plans
  {
    if !ValidParameters(parameters) then Unchanged(plans, BadRequest)
    else match FindPlan(plans, name)
      case None => Unchanged(plans, NotFound)
      case Some(i) =>
        var p := plans[i];
        var q := if PlanStatus(p, sel) == Complete then PlanRestart(p).value else p;
        PlanActKeepsOutline(p, Restart);
        PlanActKeepsOutline(q, Proceed);
        ReplaceKeepsNames(plans, i, PlanProceed(q).value);
        Outcome(Response(Ok, [PlanRef(p)]), plans[i := PlanProceed(q).value])
  }

  /** POST /plans/{name}/stop: interrupts the plan, then restarts it. */
  function StopPlan(plans: seq<Plan>, name: string): (r: Outcome)
    ensures |r.plans| == |plans| && PlanNames(r.plans) == PlanNames(plans)
    ensures r.response.code != Ok ==> r.plans == plans
  {
    match FindPlan(plans, name)
    case None => Unchanged(plans, NotFound)
    case Some(i) =>
      var p := plans[i];
      PlanActKeepsOutline(p, Interrupt);
      PlanActKeepsOutline(PlanInterrupt(p).value, Restart);
      ReplaceKeepsNames(plans, i, PlanRestart(PlanInterrupt(p).value).value);
      Outcome(Response(Ok, [PlanRef(p)]), plans[i := PlanRestart(PlanInterrupt(p).value).value])
  }

  /** GET /plans/{name}: 200 when the plan is complete, 202 otherwise; the PlanInfo body is not modelled. */
  function PlanInfo(plans: seq<Plan>, name: string, sel: Selector): (r: Response)
    ensures r.code == NotFound <==> FindPlan(plans, name).None?
    ensures r.code == Ok <==> FindPlan(plans, name).Some? && PlanStatus(plans[FindPlan(plans, name).value], sel) == Complete
    ensures r.code in {Ok, Accepted, NotFound}
  {
    match FindPlan(plans, name)
    case None => Response(NotFound, [])
    case Some(i) => Response(if PlanStatus(plans[i], sel) == Complete then Ok else Accepted, [])
  }

  /*** Deprecated /plan routes: the same commands on the "deploy" plan ***/

  function FullInfo(plans: seq<Plan>, sel: Selector): Response {
    PlanInfo(plans, DeployPlanName, sel)
  }

  function DeprecatedContinue(plans: seq<Plan>, sel: Selector, parse: Parser): Outcome {
    ContinueCommand(plans, DeployPlanName, None, sel, parse)
  }

  function DeprecatedInterrupt(plans: seq<Plan>, sel: Selector, parse: Parser): Outcome {
    InterruptCommand(plans, DeployPlanName, None, sel, parse)
  }

  function DeprecatedForceComplete(plans: seq<Plan>, phase: Option<string>, step: Option<string>,
                                   sel: Selector, parse: Parser): Outcome {
    ForceCompleteCommand(plans, DeployPlanName, phase, step, sel, parse)
  }

  function DeprecatedRestart(plans: seq<Plan>, phase: Option<string>, step: Option<string>, parse: Parser): Outcome {
    RestartCommand(plans, DeployPlanName, phase, step, parse)
  }
}
