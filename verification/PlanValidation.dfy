/** The plan validator: structural checks and the depth-first search for a cycle. */
module PlanValidation {
  import opened Collections

  datatype StepStatus =
    Pending | Ready | Running | Success | Failed | WaitingHuman | Degraded | Skipped | Cancelled

  datatype Step = Step(stepId: string, agent: string, dependencies: seq<string>, status: StepStatus, maxAttempts: int)

  const ALLOWED_AGENTS: set<string> := {"knowledge_agent", "realtime_agent", "diagnosis_agent", "general_agent"}
  const MAX_STEPS: nat := 12

  // ---- Dependency graphs ----

  predicate Edge(deps: map<string, seq<string>>, a: string, b: string) {
    a in deps && b in deps[a]
  }

  ghost predicate IsPath(deps: map<string, seq<string>>, p: seq<string>) {
    p != [] && forall i :: 0 <= i < |p| - 1 ==> Edge(deps, p[i], p[i + 1])
  }

  // Some step reaches itself through one or more dependencies.
  ghost predicate Cyclic(deps: map<string, seq<string>>) {
    exists p :: IsPath(deps, p) && |p| >= 2 && p[0] == p[|p| - 1]
  }

  // Every element comes after all of its dependencies.
  ghost predicate DependenciesFirst(deps: map<string, seq<string>>, order: seq<string>) {
    forall i, d :: 0 <= i < |order| && Edge(deps, order[i], d) ==> d in order[..i]
  }

  ghost predicate TopologicalOrder(deps: map<string, seq<string>>, order: seq<string>) {
    Distinct(order) && DependenciesFirst(deps, order) && forall id :: id in deps ==> id in order
  }

  lemma {:induction false} PathDescends(deps: map<string, seq<string>>, order: seq<string>, p: seq<string>,
          k: nat) returns (j: nat)
    requires DependenciesFirst(deps, order) && IsPath(deps, p)
    requires k < |order| && order[k] == p[0]
    ensures j <= k && order[j] == p[|p| - 1] && (|p| >= 2 ==> j < k)
    decreases |p|
  {
    if |p| == 1 {
      return k;
    }
    assert Edge(deps, order[k], p[1]);
    var h :| 0 <= h < k && order[h] == p[1];
    var q := p[1..];
    forall i | 0 <= i < |q| - 1 ensures Edge(deps, q[i], q[i + 1]) {
      assert Edge(deps, p[i + 1], p[i + 2]);
    }
    j := PathDescends(deps, order, q, h);
  }

  lemma {:induction false} NoCycleFrom(deps: map<string, seq<string>>, order: seq<string>, p: seq<string>, k: nat)
    requires DependenciesFirst(deps, order) && IsPath(deps, p) && |p| >= 2
    requires k < |order| && order[k] == p[0]
    ensures p[0] != p[|p| - 1]
    decreases k
  {
    if p[0] == p[|p| - 1] {
      var j := PathDescends(deps, order, p, k);
      NoCycleFrom(deps, order, p, j);
    }
  }

  lemma OrderedIsAcyclic(deps: map<string, seq<string>>, order: seq<string>)
    requires TopologicalOrder(deps, order)
    ensures !Cyclic(deps)
  {
    forall p | IsPath(deps, p) && |p| >= 2 ensures p[0] != p[|p| - 1] {
      assert Edge(deps, p[0], p[1]);
      var k :| 0 <= k < |order| && order[k] == p[0];
      NoCycleFrom(deps, order, p, k);
    }
  }

  function Nodes(deps: map<string, seq<string>>): set<string> {
    deps.Keys + set a, d | a in deps && d in deps[a] :: d
  }

  // The colours of the search: `stack` is the path being explored, `finished` the
  // completed nodes in the order of their completion.
  ghost predicate SearchOk(deps: map<string, seq<string>>, visiting: set<string>, visited: set<string>,
          stack: seq<string>, finished: seq<string>) {
    && visiting == Elements(stack) && visited == Elements(finished)
    && visiting !! visited && visiting <= Nodes(deps)
    && (stack != [] ==> IsPath(deps, stack))
    && Distinct(finished) && DependenciesFirst(deps, finished)
  }

  lemma PushNode(deps: map<string, seq<string>>, visiting: set<string>, visited: set<string>, stack: seq<string>,
          finished: seq<string>, id: string)
    requires SearchOk(deps, visiting, visited, stack, finished)
    requires id in Nodes(deps) && id !in visiting && id !in visited
    requires stack != [] ==> Edge(deps, stack[|stack| - 1], id)
    ensures SearchOk(deps, visiting + {id}, visited, stack + [id], finished)
  {
    assert Elements(stack + [id]) == Elements(stack) + {id};
  }

  lemma FinishNode(deps: map<string, seq<string>>, visiting: set<string>, visited: set<string>, stack: seq<string>,
          finished: seq<string>, id: string)
    requires id !in visiting && SearchOk(deps, visiting + {id}, visited, stack + [id], finished)
    requires SearchOk(deps, visiting, visited, stack, finished)
    requires forall d :: Edge(deps, id, d) ==> d in visited
    ensures SearchOk(deps, visiting, visited + {id}, stack, finished + [id])
  {
    var longer := finished + [id];
    assert id in visiting + {id};
    assert Elements(longer) == Elements(finished) + {id};
    forall i, d | 0 <= i < |longer| && Edge(deps, longer[i], d) ensures d in longer[..i] {
      assert longer[..i] == finished[..i];
      assert finished[..|finished|] == finished;
    }
    assert forall i :: 0 <= i < |finished| ==> finished[i] in Elements(finished);
  }

  lemma CutBack(deps: map<string, seq<string>>, visiting0: set<string>, visited0: set<string>, stack: seq<string>,
          finished0: seq<string>, visiting: set<string>, visited: set<string>, finished: seq<string>, id: string)
    requires SearchOk(deps, visiting0, visited0, stack, finished0) && id !in visiting0
    requires SearchOk(deps, visiting, visited, stack + [id], finished)
    ensures visiting == visiting0 + {id} && SearchOk(deps, visiting0, visited, stack, finished)
  {
    assert Elements(stack + [id]) == Elements(stack) + {id};
  }

  // The nested search of has_cycle, with its two colour sets.
  class CycleSearch {
    const deps: map<string, seq<string>>
    var visiting: set<string>
    var visited: set<string>
    ghost var stack: seq<string>
    ghost var finished: seq<string>

    ghost predicate Valid()
      reads this
    {
      SearchOk(deps, visiting, visited, stack, finished)
    }

    constructor (deps: map<string, seq<string>>)
      ensures Valid() && this.deps == deps && stack == [] && finished == []
    {
      this.deps := deps;
      visiting, visited, stack, finished := {}, {}, [], [];
    }

    method Dfs(stepId: string) returns (cyclic: bool)
      requires Valid() && stepId in Nodes(deps)
      requires stack != [] ==> Edge(deps, stack[|stack| - 1], stepId)
      modifies this
      ensures cyclic ==> Cyclic(deps)
      ensures !cyclic ==> Valid() && stack == old(stack) && visiting == old(visiting)
      ensures !cyclic ==> old(visited) <= visited && stepId in visited
      decreases Nodes(deps) - visiting
    {
      hide SearchOk, Nodes, Cyclic;
      if stepId in visiting {
        BackEdgeIsCycle(deps, visiting, visited, stack, finished, stepId);
        return true;
      }
      if stepId in visited {
        return false;
      }
      PushNode(deps, visiting, visited, stack, finished, stepId);
      visiting := visiting + {stepId};
      stack := stack + [stepId];
      var dependencies := if stepId in deps then deps[stepId] else [];
      for i := 0 to |dependencies|
        invariant Valid() && stack == old(stack) + [stepId] && visiting == old(visiting) + {stepId}
        invariant old(visited) <= visited && forall j :: 0 <= j < i ==> dependencies[j] in visited
      {
        EdgeIsNode(deps, stepId, dependencies[i]);
        var found := Dfs(dependencies[i]);
        if found {
          return true;
        }
      }
      CutBack(deps, old(visiting), old(visited), old(stack), old(finished), visiting, visited, finished, stepId);
      FinishNode(deps, old(visiting), visited, old(stack), finished, stepId);
      visiting := visiting - {stepId};
      visited := visited + {stepId};
      assert visiting == old(visiting);
      stack := old(stack);
      finished := finished + [stepId];
      cyclic := false;
    }
  }

  lemma EdgeIsNode(deps: map<string, seq<string>>, a: string, b: string)
    requires a in deps && b in deps[a]
    ensures Edge(deps, a, b) && b in Nodes(deps)
  {
  }

  lemma BackEdgeIsCycle(deps: map<string, seq<string>>, visiting: set<string>, visited: set<string>,
          stack: seq<string>, finished: seq<string>, stepId: string)
    requires SearchOk(deps, visiting, visited, stack, finished) && stepId in visiting
    requires stack != [] ==> Edge(deps, stack[|stack| - 1], stepId)
    ensures Cyclic(deps)
  {
    var i :| 0 <= i < |stack| && stack[i] == stepId;
    var p := stack[i..] + [stepId];
    forall j | 0 <= j < |p| - 1 ensures Edge(deps, p[j], p[j + 1]) {
      if j < |p| - 2 {
        assert p[j] == stack[i + j] && p[j + 1] == stack[i + j + 1];
      }
    }
    assert IsPath(deps, p) && p[0] == p[|p| - 1];
  }

  lemma AllVisited(deps: map<string, seq<string>>, visiting: set<string>, visited: set<string>, finished: seq<string>)
    requires SearchOk(deps, visiting, visited, [], finished) && deps.Keys <= visited
    ensures TopologicalOrder(deps, finished) && !Cyclic(deps)
  {
    forall id | id in deps ensures id in finished {
      assert id in visited;
    }
    OrderedIsAcyclic(deps, finished);
  }

  method HasCycle(deps: map<string, seq<string>>) returns (cyclic: bool)
    ensures cyclic <==> Cyclic(deps)
    ensures !cyclic ==> exists order :: TopologicalOrder(deps, order)
  {
    hide SearchOk, Cyclic, TopologicalOrder;
    var search := new CycleSearch(deps);
    var todo := deps.Keys;
    while todo != {}
      invariant search.Valid() && search.deps == deps && search.stack == [] && fresh(search)
      invariant todo <= deps.Keys && deps.Keys - todo <= search.visited
    {
      var stepId :| stepId in todo;
      var found := search.Dfs(stepId);
      if found {
        return true;
      }
      todo := todo - {stepId};
    }
    AllVisited(deps, search.visiting, search.visited, search.finished);
    cyclic := false;
  }

  // ---- validate_plan ----

  datatype PlanError =
    | NoSteps
    | TooManySteps
    | DuplicateIds
    | AgentNotAllowed(stepId: string, agent: string)
    | UnknownDependency(stepId: string, dependency: string)
    | CyclicDependencies

  function Ids(plan: seq<Step>): set<string> {
    set s | s in plan :: s.stepId
  }

  // A dict comprehension: of two steps with one id the later one counts.
  function DependencyMap(plan: seq<Step>): map<string, seq<string>> {
    if plan == [] then map[]
    else
      var last := plan[|plan| - 1];
      DependencyMap(plan[..|plan| - 1])[last.stepId := last.dependencies]
  }

  ghost predicate UniqueIds(plan: seq<Step>) {
    forall i, j :: 0 <= i < j < |plan| ==> plan[i].stepId != plan[j].stepId
  }

  ghost predicate WellFormed(plan: seq<Step>) {
    && 0 < |plan| <= MAX_STEPS && UniqueIds(plan)
    && (forall s :: s in plan ==> s.agent in ALLOWED_AGENTS)
    && (forall s, d :: s in plan && d in s.dependencies ==> d in Ids(plan))
    && !Cyclic(DependencyMap(plan))
  }

  lemma {:induction false} IdCount(plan: seq<Step>)
    ensures |Ids(plan)| <= |plan| && (|Ids(plan)| == |plan| <==> UniqueIds(plan))
  {
    if plan != [] {
      var front, last := plan[..|plan| - 1], plan[|plan| - 1];
      IdCount(front);
      assert plan == front + [last];
      assert Ids(plan) == Ids(front) + {last.stepId};
      UniqueStep(front, last);
    }
  }

  lemma UniqueStep(front: seq<Step>, last: Step)
    ensures UniqueIds(front + [last]) <==> UniqueIds(front) && last.stepId !in Ids(front)
  {
    var plan := front + [last];
    assert forall i :: 0 <= i < |front| ==> plan[i] == front[i] && front[i] in front;
    if last.stepId in Ids(front) {
      var s :| s in front && s.stepId == last.stepId;
      var i :| 0 <= i < |front| && front[i] == s;
      assert plan[i].stepId == plan[|front|].stepId;
    }
    if UniqueIds(plan) {
      forall i, j | 0 <= i < j < |front| ensures front[i].stepId != front[j].stepId {
        assert plan[i].stepId != plan[j].stepId;
      }
    }
  }

  method ValidatePlan(plan: seq<Step>) returns (errors: seq<PlanError>)
    ensures errors == [] <==> WellFormed(plan)
    ensures forall e :: e in errors <==> IsError(plan, e)
    ensures errors == [] ==> exists order :: TopologicalOrder(DependencyMap(plan), order)
    // At most twelve steps, each for one of the four agents.
    ensures TooManySteps in errors <==> |plan| > 12
    ensures forall s :: s in plan ==>
              (AgentNotAllowed(s.stepId, s.agent) in errors <==>
               s.agent !in ["knowledge_agent", "realtime_agent", "diagnosis_agent", "general_agent"])
  {
    hide WellFormed, UniqueIds, Cyclic, StepErrors, CausedBy, DependencyMap, Ids;
    errors := [];
    if |plan| == 0 {
      errors := errors + [NoSteps];
    }
    if |plan| > MAX_STEPS {
      errors := errors + [TooManySteps];
    }
    var ids := Ids(plan);
    IdCount(plan);
    if |plan| != |ids| {
      errors := errors + [DuplicateIds];
    }
    var stepErrors := CheckSteps(plan, ids);
    errors := errors + stepErrors;
    var cyclic := HasCycle(DependencyMap(plan));
    if cyclic {
      errors := errors + [CyclicDependencies];
    }
    AllErrorsMembers(plan, cyclic);
    AgentsAllowed();
    forall s | s in plan ensures AgentNotAllowed(s.stepId, s.agent) in errors <==> s.agent !in ALLOWED_AGENTS {
      AgentError(plan, s);
    }
  }

  lemma AgentError(plan: seq<Step>, s: Step)
    requires s in plan
    ensures IsError(plan, AgentNotAllowed(s.stepId, s.agent)) <==> s.agent !in ALLOWED_AGENTS
  {
    assert s.agent !in ALLOWED_AGENTS ==> CausedBy(s, Ids(plan), AgentNotAllowed(s.stepId, s.agent));
  }

  lemma AgentsAllowed()
    ensures forall a ::
              a in ALLOWED_AGENTS <==> a in ["knowledge_agent", "realtime_agent", "diagnosis_agent", "general_agent"]
  {
    var names := ["knowledge_agent", "realtime_agent", "diagnosis_agent", "general_agent"];
    assert names[0] in names && names[1] in names && names[2] in names && names[3] in names;
  }

  // The loop over the steps.
  method CheckSteps(plan: seq<Step>, ids: set<string>) returns (errors: seq<PlanError>)
    ensures errors == StepErrors(plan, ids)
  {
    errors := [];
    for i := 0 to |plan|
      invariant errors == StepErrors(plan[..i], ids)
    {
      var step := plan[i];
      assert plan[..i + 1][..i] == plan[..i];
      if step.agent !in ALLOWED_AGENTS {
        errors := errors + [AgentNotAllowed(step.stepId, step.agent)];
      }
      var missing := CheckDependencies(step.stepId, step.dependencies, ids);
      errors := errors + missing;
    }
    assert plan[..|plan|] == plan;
  }

  method CheckDependencies(stepId: string, dependencies: seq<string>, ids: set<string>) returns (errors: seq<PlanError>)
    ensures errors == DependencyErrors(stepId, dependencies, ids)
  {
    errors := [];
    for j := 0 to |dependencies|
      invariant errors == DependencyErrors(stepId, dependencies[..j], ids)
    {
      assert dependencies[..j + 1][..j] == dependencies[..j];
      if dependencies[j] !in ids {
        errors := errors + [UnknownDependency(stepId, dependencies[j])];
      }
    }
    assert dependencies[..|dependencies|] == dependencies;
  }

  ghost function AllErrors(plan: seq<Step>, cyclic: bool): seq<PlanError> {
    (if |plan| == 0 then [NoSteps] else [])
    + (if |plan| > MAX_STEPS then [TooManySteps] else [])
    + (if |plan| != |Ids(plan)| then [DuplicateIds] else [])
    + StepErrors(plan, Ids(plan))
    + (if cyclic then [CyclicDependencies] else [])
  }

  // The error that the validator must report, and no other.
  ghost predicate IsError(plan: seq<Step>, e: PlanError) {
    match e
    case NoSteps => plan == []
    case TooManySteps => |plan| > MAX_STEPS
    case DuplicateIds => !UniqueIds(plan)
    case CyclicDependencies => Cyclic(DependencyMap(plan))
    case _ => exists s :: s in plan && CausedBy(s, Ids(plan), e)
  }

  lemma AllErrorsMember(plan: seq<Step>, cyclic: bool, e: PlanError)
    requires cyclic <==> Cyclic(DependencyMap(plan))
    ensures e in AllErrors(plan, cyclic) <==> IsError(plan, e)
  {
    hide UniqueIds, Cyclic, StepErrors, CausedBy, DependencyMap, Ids;
    IdCount(plan);
    StepErrorMember(plan, Ids(plan), e);
    if e in StepErrors(plan, Ids(plan)) {
      StepErrorKinds(plan, Ids(plan), e);
    }
  }

  lemma AllErrorsMembers(plan: seq<Step>, cyclic: bool)
    requires cyclic <==> Cyclic(DependencyMap(plan))
    ensures forall e :: e in AllErrors(plan, cyclic) <==> IsError(plan, e)
    ensures AllErrors(plan, cyclic) == [] <==> WellFormed(plan)
  {
    hide AllErrors, IsError, WellFormed;
    forall e ensures e in AllErrors(plan, cyclic) <==> IsError(plan, e) {
      AllErrorsMember(plan, cyclic, e);
    }
    NoErrors(plan, cyclic);
  }

  lemma NoErrors(plan: seq<Step>, cyclic: bool)
    requires cyclic <==> Cyclic(DependencyMap(plan))
    ensures AllErrors(plan, cyclic) == [] <==> WellFormed(plan)
  {
    hide UniqueIds, Cyclic, StepErrors, DependencyMap, Ids;
    IdCount(plan);
    NoStepErrors(plan, Ids(plan));
  }

  lemma StepErrorKinds(plan: seq<Step>, ids: set<string>, e: PlanError)
    requires e in StepErrors(plan, ids)
    ensures e.AgentNotAllowed? || e.UnknownDependency?
  {
    StepErrorMember(plan, ids, e);
  }

  function DependencyErrors(stepId: string, dependencies: seq<string>, ids: set<string>): seq<PlanError> {
    if dependencies == [] then []
    else
      var n := |dependencies| - 1;
      DependencyErrors(stepId, dependencies[..n], ids)
      + if dependencies[n] in ids then [] else [UnknownDependency(stepId, dependencies[n])]
  }

  function StepErrors(steps: seq<Step>, ids: set<string>): seq<PlanError> {
    if steps == [] then []
    else
      var last := steps[|steps| - 1];
      StepErrors(steps[..|steps| - 1], ids)
      + (if last.agent in ALLOWED_AGENTS then [] else [AgentNotAllowed(last.stepId, last.agent)])
      + DependencyErrors(last.stepId, last.dependencies, ids)
  }

  lemma {:induction false} DependencyErrorMembers(stepId: string, dependencies: seq<string>, ids: set<string>,
          e: PlanError)
    ensures e in DependencyErrors(stepId, dependencies, ids) <==>
      e.UnknownDependency? && e.stepId == stepId && e.dependency in dependencies && e.dependency !in ids
  {
    if dependencies != [] {
      var n := |dependencies| - 1;
      DependencyErrorMembers(stepId, dependencies[..n], ids, e);
      assert dependencies == dependencies[..n] + [dependencies[n]];
    }
  }

  ghost predicate CausedBy(s: Step, ids: set<string>, e: PlanError) {
    match e
    case AgentNotAllowed(id, agent) => s.stepId == id && s.agent == agent && agent !in ALLOWED_AGENTS
    case UnknownDependency(id, d) => s.stepId == id && d in s.dependencies && d !in ids
    case _ => false
  }

  lemma {:induction false} StepErrorMember(steps: seq<Step>, ids: set<string>, e: PlanError)
    ensures e in StepErrors(steps, ids) <==> exists s :: s in steps && CausedBy(s, ids, e)
  {
    if steps != [] {
      var front, last := steps[..|steps| - 1], steps[|steps| - 1];
      StepErrorMember(front, ids, e);
      DependencyErrorMembers(last.stepId, last.dependencies, ids, e);
      assert steps == front + [last];
      assert e in StepErrors(steps, ids) <==> e in StepErrors(front, ids) || CausedBy(last, ids, e);
    }
  }

  lemma StepErrorMembers(plan: seq<Step>, ids: set<string>)
    ensures forall e :: e in StepErrors(plan, ids) <==> exists s :: s in plan && CausedBy(s, ids, e)
  {
    forall e ensures e in StepErrors(plan, ids) <==> exists s :: s in plan && CausedBy(s, ids, e) {
      StepErrorMember(plan, ids, e);
    }
  }

  lemma NoStepErrors(plan: seq<Step>, ids: set<string>)
    ensures StepErrors(plan, ids) == [] <==>
      && (forall s :: s in plan ==> s.agent in ALLOWED_AGENTS)
      && (forall s, d :: s in plan && d in s.dependencies ==> d in ids)
  {
    StepErrorMembers(plan, ids);
    var errors := StepErrors(plan, ids);
    if errors != [] {
      assert errors[0] in errors;
    } else {
      forall s | s in plan ensures s.agent in ALLOWED_AGENTS && forall d :: d in s.dependencies ==> d in ids {
        assert CausedBy(s, ids, AgentNotAllowed(s.stepId, s.agent)) ==> AgentNotAllowed(s.stepId, s.agent) in errors;
        forall d | d in s.dependencies ensures d in ids {
          assert CausedBy(s, ids, UnknownDependency(s.stepId, d)) ==> UnknownDependency(s.stepId, d) in errors;
        }
      }
    }
  }
}
