/** The scheduler, worker and aggregate loop that executes a validated plan. */
module PlanExecution {
  import opened Collections
  import opened Options
  import opened PlanValidation

  // ---- The scheduler ----

  predicate Done(results: map<string, StepStatus>, id: string) {
    id in results && results[id] in {Success, Degraded}
  }

  predicate IsReady(s: Step, results: map<string, StepStatus>) {
    && s.stepId !in results && s.status == Pending
    && forall d :: d in s.dependencies ==> Done(results, d)
  }

  // Pending, without a result, and with every dependency a success or degraded.
  predicate MayRun(s: Step, results: map<string, StepStatus>) {
    && s.status == Pending && s.stepId !in results
    && forall d :: d in s.dependencies ==> d in results && (results[d] == Success || results[d] == Degraded)
  }

  function ReadySteps(plan: seq<Step>, results: map<string, StepStatus>): seq<Step> {
    if plan == [] then []
    else
      var last := plan[|plan| - 1];
      ReadySteps(plan[..|plan| - 1], results) + if IsReady(last, results) then [last] else []
  }

  class StepRecord {
    const data: Step
    var status: StepStatus

    constructor (data: Step)
      ensures this.data == data && status == data.status
    {
      this.data := data;
      status := data.status;
    }
  }

  function Data(records: seq<StepRecord>): (plan: seq<Step>)
    reads records
    ensures |plan| == |records|
    ensures forall i :: 0 <= i < |plan| ==> plan[i] == records[i].data.(status := records[i].status)
  {
    if records == [] then []
    else Data(records[..|records| - 1]) + [records[|records| - 1].data.(status := records[|records| - 1].status)]
  }

  // The records whose plan entry is ready, in plan order.
  function Select(steps: seq<StepRecord>, plan: seq<Step>, results: map<string, StepStatus>): seq<StepRecord>
    requires |steps| == |plan|
  {
    if plan == [] then []
    else
      var n := |plan| - 1;
      Select(steps[..n], plan[..n], results) + if IsReady(plan[n], results) then [steps[n]] else []
  }

  // get_ready_steps: marks the ready steps and returns them in plan order.
  method GetReadySteps(steps: seq<StepRecord>, results: map<string, StepStatus>) returns (ready: seq<StepRecord>)
    requires forall i, j :: 0 <= i < j < |steps| ==> steps[i] != steps[j]
    modifies steps
    ensures ready == Select(steps, old(Data(steps)), results)
    ensures forall i :: 0 <= i < |steps| ==>
              steps[i].status == if MayRun(old(Data(steps))[i], results) then Ready else old(steps[i].status)
    ensures forall i :: 0 <= i < |steps| ==> (steps[i] in ready <==> MayRun(old(Data(steps))[i], results))
  {
    hide Select, IsReady, MayRun;
    ReadyMayRun(results);
    ghost var plan := Data(steps);
    assert forall i :: 0 <= i < |steps| ==> plan[i] == steps[i].data.(status := steps[i].status);
    SelectNone(steps, plan, results);
    ready := [];
    for k := 0 to |steps|
      invariant ready == Select(steps[..k], plan[..k], results)
      invariant forall i :: 0 <= i < k ==>
          steps[i].status == if IsReady(plan[i], results) then Ready else plan[i].status
      invariant forall i :: k <= i < |steps| ==> steps[i].status == plan[i].status
    {
      var step := steps[k];
      SelectStep(steps, plan, results, k);
      if IsReady(step.data.(status := step.status), results) {
        step.status := Ready;
        ready := ready + [step];
      }
    }
    assert plan[..|steps|] == plan && steps[..|steps|] == steps;
    SelectMembers(steps, plan, results);
  }

  lemma ReadyMayRun(results: map<string, StepStatus>)
    ensures forall s :: IsReady(s, results) <==> MayRun(s, results)
  {
  }

  lemma {:induction false} SelectMembers(steps: seq<StepRecord>, plan: seq<Step>, results: map<string, StepStatus>)
    requires |steps| == |plan| && forall i, j :: 0 <= i < j < |steps| ==> steps[i] != steps[j]
    ensures forall i :: 0 <= i < |steps| ==> (steps[i] in Select(steps, plan, results) <==> MayRun(plan[i], results))
    ensures forall s :: s in Select(steps, plan, results) ==> s in steps
  {
    hide MayRun, IsReady;
    ReadyMayRun(results);
    if plan != [] {
      var n := |plan| - 1;
      SelectMembers(steps[..n], plan[..n], results);
      assert steps[n] !in steps[..n];
    }
  }

  // The ready steps are those of the plan that may run, each at its place, in plan order.
  lemma {:induction false} ReadyInPlanOrder(plan: seq<Step>, results: map<string, StepStatus>) returns (at: seq<nat>)
    ensures |at| == |ReadySteps(plan, results)| && forall i, j :: 0 <= i < j < |at| ==> at[i] < at[j]
    ensures forall i :: 0 <= i < |at| ==> at[i] < |plan| && plan[at[i]] == ReadySteps(plan, results)[i]
    ensures forall k :: 0 <= k < |plan| ==> (k in at <==> MayRun(plan[k], results))
  {
    hide MayRun, IsReady, ReadySteps;
    LastReady(plan, results);
    if plan == [] {
      at := [];
    } else {
      var n := |plan| - 1;
      at := ReadyInPlanOrder(plan[..n], results);
      if MayRun(plan[n], results) {
        at := at + [n];
      }
    }
  }

  lemma LastReady(plan: seq<Step>, results: map<string, StepStatus>)
    ensures
      ReadySteps(plan, results) ==
      if plan == [] then []
      else
        var last := plan[|plan| - 1];
        ReadySteps(plan[..|plan| - 1], results) + if MayRun(last, results) then [last] else []
  {
    hide MayRun, IsReady;
    ReadyMayRun(results);
  }

  lemma SelectNone(steps: seq<StepRecord>, plan: seq<Step>, results: map<string, StepStatus>)
    requires |steps| == |plan|
    ensures Select(steps[..0], plan[..0], results) == []
  {
  }

  lemma SelectStep(steps: seq<StepRecord>, plan: seq<Step>, results: map<string, StepStatus>, k: nat)
    requires k < |steps| == |plan|
    ensures Select(steps[..k + 1], plan[..k + 1], results) ==
      Select(steps[..k], plan[..k], results) + if IsReady(plan[k], results) then [steps[k]] else []
  {
    assert plan[..k + 1][..k] == plan[..k] && steps[..k + 1][..k] == steps[..k];
  }

  lemma {:induction false} SelectIsReadySteps(steps: seq<StepRecord>, plan: seq<Step>, results: map<string, StepStatus>)
    requires |steps| == |plan| && forall i :: 0 <= i < |plan| ==> plan[i] == steps[i].data.(status := plan[i].status)
    ensures |Select(steps, plan, results)| == |ReadySteps(plan, results)|
    ensures forall i :: 0 <= i < |ReadySteps(plan, results)| ==>
              ReadySteps(plan, results)[i] == Select(steps, plan, results)[i].data.(status := Pending)
  {
    if plan != [] {
      SelectIsReadySteps(steps[..|plan| - 1], plan[..|plan| - 1], results);
    }
  }

  // route_ready_steps: fresh records each round, so the stored plan is never marked.
  method RouteReadySteps(plan: seq<Step>, results: map<string, StepStatus>) returns (sends: seq<Step>)
    ensures |sends| == |ReadySteps(plan, results)|
    ensures forall i :: 0 <= i < |sends| ==> sends[i] == ReadySteps(plan, results)[i].(status := Ready)
  {
    var records: seq<StepRecord> := [];
    for k := 0 to |plan|
      invariant |records| == k && fresh(records)
      invariant forall i :: 0 <= i < k ==> records[i].data == plan[i] && records[i].status == plan[i].status
      invariant forall i, j :: 0 <= i < j < k ==> records[i] != records[j]
    {
      var record := new StepRecord(plan[k]);
      records := records + [record];
    }
    assert Data(records) == plan;
    var ready := GetReadySteps(records, results);
    SelectIsReadySteps(records, plan, results);
    sends := seq(|ready|, i requires 0 <= i < |ready| => ready[i].data.(status := Ready));
  }

  // ---- The worker ----

  datatype ToolRecord = ToolRecord(toolName: string, reportsFailure: bool, error: Option<string>)

  // One call of the step's agent: it raises (or times out), or returns its tool records.
  datatype AgentCall = Raised | Returned(tools: seq<ToolRecord>)

  datatype WorkerEvent =
    | StepStarted(attempt: nat)
    | StepRetry(attempt: nat)
    | StepFailed(attempt: nat)
    | StepSucceeded(attempt: nat)
    | StepDegraded(attempt: nat)

  datatype StepResult = StepResult(stepId: string, status: StepStatus, attempt: nat)

  const DEFAULT_TOOL_ERROR := "实时告警工具查询失败"

  // The message of the first failed alarm query of the realtime agent.
  function RealtimeToolFailure(agent: string, tools: seq<ToolRecord>): string {
    if agent != "realtime_agent" || tools == [] then ""
    else if tools[0].toolName == "query_alarm_tool" && tools[0].reportsFailure then
      match tools[0].error
      case Some(message) => message
      case None => DEFAULT_TOOL_ERROR
    else RealtimeToolFailure(agent, tools[1..])
  }

  function MaxAttempts(step: Step): nat {
    if step.maxAttempts < 1 then 1 else step.maxAttempts
  }

  function StatusOf(step: Step, call: AgentCall): StepStatus {
    match call
    case Raised => Failed
    case Returned(tools) => if RealtimeToolFailure(step.agent, tools) != "" then Degraded else Success
  }

  function FinalEvent(status: StepStatus, attempt: nat): WorkerEvent {
    if status == Failed then StepFailed(attempt)
    else if status == Degraded then StepDegraded(attempt)
    else StepSucceeded(attempt)
  }

  // Some alarm query of the call failed, and the first such failure has a message or none at all.
  ghost predicate AlarmFailed(tools: seq<ToolRecord>) {
    exists i ::
      && 0 <= i < |tools| && tools[i].toolName == "query_alarm_tool" && tools[i].reportsFailure
      && tools[i].error != Some("")
      && forall j :: 0 <= j < i ==> !(tools[j].toolName == "query_alarm_tool" && tools[j].reportsFailure)
  }

  lemma {:induction false} FailureIffAlarmFailed(agent: string, tools: seq<ToolRecord>)
    ensures RealtimeToolFailure(agent, tools) != "" <==> agent == "realtime_agent" && AlarmFailed(tools)
  {
    assert |DEFAULT_TOOL_ERROR| > 0;
    if agent == "realtime_agent" && tools != [] {
      var rest := tools[1..];
      FailureIffAlarmFailed(agent, rest);
      if tools[0].toolName == "query_alarm_tool" && tools[0].reportsFailure {
        assert AlarmFailed(tools) <==> tools[0].error != Some("");
      } else {
        AlarmFailedLater(tools);
      }
    }
  }

  lemma AlarmFailedLater(tools: seq<ToolRecord>)
    requires tools != [] && !(tools[0].toolName == "query_alarm_tool" && tools[0].reportsFailure)
    ensures AlarmFailed(tools) <==> AlarmFailed(tools[1..])
  {
    var rest := tools[1..];
    if AlarmFailed(rest) {
      var i :| 0 <= i < |rest| && rest[i].toolName == "query_alarm_tool" && rest[i].reportsFailure &&
          rest[i].error != Some("") &&
          forall j :: 0 <= j < i ==> !(rest[j].toolName == "query_alarm_tool" && rest[j].reportsFailure);
      assert tools[i + 1] == rest[i];
      assert forall j :: 1 <= j < i + 1 ==> tools[j] == rest[j - 1];
    }
    if AlarmFailed(tools) {
      var i :| 0 <= i < |tools| && tools[i].toolName == "query_alarm_tool" && tools[i].reportsFailure &&
          tools[i].error != Some("") &&
          forall j :: 0 <= j < i ==> !(tools[j].toolName == "query_alarm_tool" && tools[j].reportsFailure);
      assert rest[i - 1] == tools[i];
      assert forall j :: 0 <= j < i - 1 ==> rest[j] == tools[j + 1];
    }
  }

  // When a call makes a step fail, and when it degrades it.
  lemma StatusIff(step: Step, call: AgentCall)
    ensures StatusOf(step, call) == Failed <==> call.Raised?
    ensures StatusOf(step, call) == Degraded
            <==> call.Returned? && step.agent == "realtime_agent" && AlarmFailed(call.tools)
    ensures StatusOf(step, call) in {Failed, Degraded, Success}
  {
    if call.Returned? {
      FailureIffAlarmFailed(step.agent, call.tools);
    }
  }

  // Attempt a is the first that returned, or the last one allowed, and its outcome is the status.
  ghost predicate Decides(s: Step, a: nat, status: StepStatus, calls: nat -> AgentCall) {
    && (a == 1 || 1 <= a <= s.maxAttempts) && (forall b: nat :: 1 <= b < a ==> calls(b).Raised?)
    && (calls(a).Raised? ==> a >= s.maxAttempts)
    && status == match calls(a)
                 case Raised => Failed
                 case Returned(tools) => if s.agent == "realtime_agent" && AlarmFailed(tools) then Degraded else Success
  }

  // The first call that returns decides; the step fails only when every attempt raised.
  method RunWorker(step: Step, calls: nat -> AgentCall) returns (result: StepResult, events: seq<WorkerEvent>)
    ensures result.stepId == step.stepId && 1 <= result.attempt <= MaxAttempts(step)
    ensures forall a: nat :: 1 <= a < result.attempt ==> calls(a).Raised?
    ensures Decides(step, result.attempt, result.status, calls)
    ensures result.status == Failed
            <==> forall a: nat :: a == 1 || 1 <= a <= step.maxAttempts ==> calls(a).Raised?
    ensures
      |events| == 2 * result.attempt &&
      events[|events| - 1] ==
      match result.status
      case Failed => StepFailed(result.attempt)
      case Degraded => StepDegraded(result.attempt)
      case _ => StepSucceeded(result.attempt)
    ensures forall a: nat :: 1 <= a <= result.attempt ==> events[2 * a - 2] == StepStarted(a)
    ensures forall a: nat :: 1 <= a < result.attempt ==> events[2 * a - 1] == StepRetry(a)
  {
    events := [];
    var attempt := 1;
    while true
      invariant 1 <= attempt <= MaxAttempts(step) && |events| == 2 * (attempt - 1)
      invariant forall a: nat :: 1 <= a < attempt ==> calls(a).Raised?
      invariant forall a: nat :: 1 <= a < attempt ==>
          events[2 * a - 2] == StepStarted(a) && events[2 * a - 1] == StepRetry(a)
      decreases MaxAttempts(step) - attempt
    {
      events := events + [StepStarted(attempt)];
      var call := calls(attempt);
      if call.Raised? && attempt < MaxAttempts(step) {
        events := events + [StepRetry(attempt)];
        attempt := attempt + 1;
      } else {
        var status := StatusOf(step, call);
        StatusIff(step, call);
        result := StepResult(step.stepId, status, attempt);
        events := events + [FinalEvent(status, attempt)];
        return;
      }
    }
  }

  // ---- The aggregate step and the loop ----

  datatype PlanningStatus = Validated | InProgress | Completed | PlanFailed

  datatype RunState = RunState(results: map<string, StepStatus>, status: PlanningStatus)

  ghost predicate NoneFailed(results: map<string, StepStatus>) {
    forall id :: id in results ==> results[id] != Failed
  }

  // The ids that the aggregate step waits for: the empty id is not among them.
  function CountedIds(plan: seq<Step>): set<string> {
    Ids(plan) - {""}
  }

  ghost function AggregateStatus(plan: seq<Step>, results: map<string, StepStatus>): PlanningStatus {
    if !NoneFailed(results) then PlanFailed
    else if CountedIds(plan) - results.Keys != {} then InProgress
    else Completed
  }

  function ReadyIds(plan: seq<Step>, results: map<string, StepStatus>): set<string> {
    set s | s in plan && IsReady(s, results) :: s.stepId
  }

  // One turn of the loop: dispatch all ready steps, collect their results, aggregate.
  // Completed and failed states leave the loop.
  ghost predicate Round(plan: seq<Step>, s: RunState, s': RunState) {
    && s.status in {Validated, InProgress}
    && s'.results.Keys == s.results.Keys + ReadyIds(plan, s.results)
    && (forall id :: id in s.results ==> s'.results[id] == s.results[id])
    && (forall id :: id in ReadyIds(plan, s.results) ==> s'.results[id] in {Success, Degraded, Failed})
    && s'.status == AggregateStatus(plan, s'.results)
  }

  ghost predicate IsRun(plan: seq<Step>, b: seq<RunState>) {
    && b != [] && b[0] == RunState(map[], Validated)
    && forall k :: 0 <= k < |b| - 1 ==> Round(plan, b[k], b[k + 1])
  }

  // ---- Dependency chains ----

  // Each element depends on the one before it.
  ghost predicate IsChain(deps: map<string, seq<string>>, c: seq<string>) {
    && c != [] && (forall i :: 0 <= i < |c| ==> c[i] in deps)
    && forall i :: 0 <= i < |c| - 1 ==> Edge(deps, c[i + 1], c[i])
  }

  ghost predicate ChainTo(deps: map<string, seq<string>>, id: string, c: seq<string>) {
    IsChain(deps, c) && c[|c| - 1] == id
  }

  ghost predicate DepthAtMost(deps: map<string, seq<string>>, id: string, n: int) {
    forall c :: ChainTo(deps, id, c) ==> |c| <= n
  }

  // The longest dependency chain that ends in `id` has n elements.
  ghost predicate HasDepth(deps: map<string, seq<string>>, id: string, n: int) {
    DepthAtMost(deps, id, n) && exists c :: ChainTo(deps, id, c) && |c| == n
  }

  ghost predicate Closed(deps: map<string, seq<string>>) {
    forall a, d :: Edge(deps, a, d) ==> d in deps
  }

  lemma ExtendChain(deps: map<string, seq<string>>, c: seq<string>, id: string)
    requires IsChain(deps, c) && id in deps && Edge(deps, id, c[|c| - 1])
    ensures ChainTo(deps, id, c + [id])
  {
  }

  lemma ShortenChain(deps: map<string, seq<string>>, c: seq<string>)
    requires IsChain(deps, c) && |c| >= 2
    ensures ChainTo(deps, c[|c| - 2], c[..|c| - 1]) && Edge(deps, c[|c| - 1], c[|c| - 2])
  {
    assert Edge(deps, c[(|c| - 2) + 1], c[|c| - 2]);
    forall i | 0 <= i < |c| - 2 ensures Edge(deps, c[i + 1], c[i]) {
    }
  }

  lemma DepthStep(deps: map<string, seq<string>>, id: string, n: nat)
    requires id in deps && Closed(deps)
    ensures DepthAtMost(deps, id, n + 1) <==> forall d :: Edge(deps, id, d) ==> DepthAtMost(deps, d, n)
  {
    if DepthAtMost(deps, id, n + 1) {
      forall d, c | Edge(deps, id, d) && ChainTo(deps, d, c) ensures |c| <= n {
        ExtendChain(deps, c, id);
      }
    }
    if forall d :: Edge(deps, id, d) ==> DepthAtMost(deps, d, n) {
      forall c | ChainTo(deps, id, c) ensures |c| <= n + 1 {
        if |c| >= 2 {
          ShortenChain(deps, c);
        }
      }
    }
  }

  lemma DepthPositive(deps: map<string, seq<string>>, id: string)
    requires id in deps
    ensures !DepthAtMost(deps, id, 0)
  {
    assert ChainTo(deps, id, [id]);
  }

  lemma {:induction false} DepthOf(deps: map<string, seq<string>>, id: string, n: nat)
    ensures DepthAtMost(deps, id, n + 1) && !DepthAtMost(deps, id, n) <==> HasDepth(deps, id, n + 1)
  {
    if DepthAtMost(deps, id, n + 1) && !DepthAtMost(deps, id, n) {
      var c :| ChainTo(deps, id, c) && |c| > n;
    }
  }

  lemma ReversedPath(deps: map<string, seq<string>>, c: seq<string>, i: nat, j: nat) returns (p: seq<string>)
    requires IsChain(deps, c) && i <= j < |c|
    ensures IsPath(deps, p) && |p| == j - i + 1 && p[0] == c[j] && p[|p| - 1] == c[i]
  {
    p := seq(j - i + 1, h requires 0 <= h < j - i + 1 => c[j - h]);
    forall h | 0 <= h < |p| - 1 ensures Edge(deps, p[h], p[h + 1]) {
      assert Edge(deps, c[(j - h - 1) + 1], c[j - h - 1]);
    }
  }

  // A chain of an acyclic graph has no repetition, so it is no longer than the graph.
  lemma ChainIsDistinct(deps: map<string, seq<string>>, c: seq<string>, i: nat, j: nat)
    requires IsChain(deps, c) && !Cyclic(deps) && i < j < |c|
    ensures c[i] != c[j]
  {
    var p := ReversedPath(deps, c, i, j);
  }

  lemma ChainBound(deps: map<string, seq<string>>, c: seq<string>)
    requires IsChain(deps, c) && !Cyclic(deps)
    ensures |c| <= |deps|
  {
    forall i, j | 0 <= i < j < |c| ensures c[i] != c[j] {
      ChainIsDistinct(deps, c, i, j);
    }
    ElementsSize(c);
    assert Elements(c) <= deps.Keys;
    SubsetSize(Elements(c), deps.Keys);
  }

  // ---- Validated plans ----

  lemma {:induction false} DependenciesOf(plan: seq<Step>)
    requires UniqueIds(plan)
    ensures DependencyMap(plan).Keys == Ids(plan)
    ensures forall s :: s in plan ==> s.stepId in DependencyMap(plan) && DependencyMap(plan)[s.stepId] == s.dependencies
  {
    if plan != [] {
      var front, last := plan[..|plan| - 1], plan[|plan| - 1];
      assert plan == front + [last];
      UniqueStep(front, last);
      DependenciesOf(front);
      assert Ids(plan) == Ids(front) + {last.stepId};
      forall s | s in front ensures s.stepId != last.stepId {
        assert s.stepId in Ids(front);
      }
    }
  }

  lemma ValidatedGraph(plan: seq<Step>)
    requires WellFormed(plan)
    ensures
      var deps := DependencyMap(plan);
      deps.Keys == Ids(plan) && Closed(deps) && !Cyclic(deps) && |deps| == |plan|
  {
    DependenciesOf(plan);
    IdCount(plan);
    var deps := DependencyMap(plan);
    assert |deps.Keys| == |plan|;
    forall a, d | Edge(deps, a, d) ensures d in deps {
      var s :| s in plan && s.stepId == a;
    }
  }

  // ---- Steps that can be dispatched at all ----

  predicate PendingId(plan: seq<Step>, id: string) {
    exists s :: s in plan && s.stepId == id && s.status == Pending
  }

  // The step is pending at the start, and so is every step it depends on, however indirectly.
  ghost predicate Live(plan: seq<Step>, id: string) {
    forall p :: IsPath(DependencyMap(plan), p) && p[0] == id ==> PendingId(plan, p[|p| - 1])
  }

  lemma LiveStep(plan: seq<Step>, id: string)
    ensures Live(plan, id) <==> PendingId(plan, id) && forall d :: Edge(DependencyMap(plan), id, d) ==> Live(plan, d)
  {
    hide PendingId, DependencyMap;
    var deps := DependencyMap(plan);
    if Live(plan, id) {
      assert IsPath(deps, [id]);
      forall d, p | Edge(deps, id, d) && IsPath(deps, p) && p[0] == d ensures PendingId(plan, p[|p| - 1]) {
        PathPrepend(deps, id, p);
      }
    }
    if PendingId(plan, id) && forall d :: Edge(deps, id, d) ==> Live(plan, d) {
      forall p | IsPath(deps, p) && p[0] == id ensures PendingId(plan, p[|p| - 1]) {
        if |p| > 1 {
          PathTail(deps, p);
        }
      }
    }
  }

  lemma PathPrepend(deps: map<string, seq<string>>, id: string, p: seq<string>)
    requires IsPath(deps, p) && Edge(deps, id, p[0])
    ensures IsPath(deps, [id] + p)
  {
    var longer := [id] + p;
    forall i | 0 <= i < |longer| - 1 ensures Edge(deps, longer[i], longer[i + 1]) {
      if i > 0 {
        assert Edge(deps, p[i - 1], p[(i - 1) + 1]);
      }
    }
  }

  lemma PathTail(deps: map<string, seq<string>>, p: seq<string>)
    requires IsPath(deps, p) && |p| > 1
    ensures IsPath(deps, p[1..]) && Edge(deps, p[0], p[1])
  {
    assert Edge(deps, p[0], p[0 + 1]);
    forall i | 0 <= i < |p[1..]| - 1 ensures Edge(deps, p[1..][i], p[1..][i + 1]) {
      assert Edge(deps, p[i + 1], p[(i + 1) + 1]);
    }
  }

  lemma AllPendingAreLive(plan: seq<Step>, id: string)
    requires WellFormed(plan) && (forall s :: s in plan ==> s.status == Pending) && id in Ids(plan)
    ensures Live(plan, id)
  {
    var deps := DependencyMap(plan);
    ValidatedGraph(plan);
    forall p | IsPath(deps, p) && p[0] == id ensures PendingId(plan, p[|p| - 1]) {
      PathStays(deps, p);
      var s :| s in plan && s.stepId == p[|p| - 1];
    }
  }

  lemma {:induction false} PathStays(deps: map<string, seq<string>>, p: seq<string>)
    requires IsPath(deps, p) && p[0] in deps && Closed(deps)
    ensures p[|p| - 1] in deps
    decreases |p|
  {
    if |p| > 1 {
      PathTail(deps, p);
      PathStays(deps, p[1..]);
    }
  }

  // Readiness of the step with a given id.
  lemma ReadyId(plan: seq<Step>, results: map<string, StepStatus>, id: string)
    requires WellFormed(plan)
    ensures id in ReadyIds(plan, results) <==>
      && id in Ids(plan) && PendingId(plan, id) && id !in results
      && forall d :: Edge(DependencyMap(plan), id, d) ==> Done(results, d)
  {
    DependenciesOf(plan);
    if id in Ids(plan) {
      var s :| s in plan && s.stepId == id;
      OnlyStep(plan, s);
      assert IsReady(s, results) <==>
        s.status == Pending && id !in results && forall d :: Edge(DependencyMap(plan), id, d) ==> Done(results, d);
    }
  }

  lemma OnlyStep(plan: seq<Step>, s: Step)
    requires WellFormed(plan) && s in plan
    ensures forall t :: t in plan && t.stepId == s.stepId ==> t == s
  {
    forall t | t in plan && t.stepId == s.stepId ensures t == s {
      var i :| 0 <= i < |plan| && plan[i] == s;
      var j :| 0 <= j < |plan| && plan[j] == t;
    }
  }

  // ---- Every run of a validated plan ----

  // Results written by the workers.
  ghost predicate Terminal(results: map<string, StepStatus>) {
    forall id :: id in results ==> results[id] in {Success, Degraded, Failed}
  }

  // After k rounds exactly the live steps with chains of at most k elements have results.
  ghost predicate AtDepth(plan: seq<Step>, results: map<string, StepStatus>, k: nat) {
    forall id :: id in results <==> id in Ids(plan) && Live(plan, id) && DepthAtMost(DependencyMap(plan), id, k)
  }

  ghost predicate Active(s: RunState) {
    s.status in {Validated, InProgress}
  }

  lemma RoundReadiness(plan: seq<Step>, results: map<string, StepStatus>, k: nat, id: string)
    requires WellFormed(plan) && Terminal(results) && NoneFailed(results) && AtDepth(plan, results, k)
    ensures id in ReadyIds(plan, results) <==>
      && id in Ids(plan) && Live(plan, id)
      && DepthAtMost(DependencyMap(plan), id, k + 1) && !DepthAtMost(DependencyMap(plan), id, k)
  {
    hide WellFormed, DepthAtMost, ReadyIds, Ids, DependencyMap, Edge, Closed, Cyclic, Live, PendingId;
    var deps := DependencyMap(plan);
    ValidatedGraph(plan);
    ReadyId(plan, results, id);
    if id in Ids(plan) {
      DepthStep(deps, id, k);
      LiveStep(plan, id);
      forall d | Edge(deps, id, d) ensures Done(results, d) <==> Live(plan, d) && DepthAtMost(deps, d, k) {
        EdgeToId(plan, id, d);
      }
    }
  }

  lemma EdgeToId(plan: seq<Step>, id: string, d: string)
    requires WellFormed(plan) && Edge(DependencyMap(plan), id, d)
    ensures d in Ids(plan)
  {
    ValidatedGraph(plan);
  }

  lemma DepthMonotone(deps: map<string, seq<string>>, id: string, n: int, m: int)
    requires DepthAtMost(deps, id, n) && n <= m
    ensures DepthAtMost(deps, id, m)
  {
  }

  lemma RoundKeepsDepth(plan: seq<Step>, s: RunState, s': RunState, k: nat)
    requires WellFormed(plan) && Round(plan, s, s')
    requires Terminal(s.results) && NoneFailed(s.results) && AtDepth(plan, s.results, k)
    ensures Terminal(s'.results) && AtDepth(plan, s'.results, k + 1)
    ensures Active(s') ==> NoneFailed(s'.results)
  {
    hide WellFormed, DepthAtMost, ReadyIds, Ids, DependencyMap, Edge, Live;
    forall id
      ensures id in s'.results <==> id in Ids(plan) && Live(plan, id) && DepthAtMost(DependencyMap(plan), id, k + 1)
    {
      RoundReadiness(plan, s.results, k, id);
      if DepthAtMost(DependencyMap(plan), id, k) {
        DepthMonotone(DependencyMap(plan), id, k, k + 1);
      }
    }
  }

  lemma {:induction false} RunDepth(plan: seq<Step>, b: seq<RunState>, k: nat)
    requires WellFormed(plan) && IsRun(plan, b) && k < |b|
    ensures Terminal(b[k].results) && AtDepth(plan, b[k].results, k)
    ensures Active(b[k]) ==> NoneFailed(b[k].results)
  {
    hide WellFormed, Terminal, AtDepth, NoneFailed, Round;
    if k == 0 {
      EmptyAtDepth(plan);
    } else {
      RunDepth(plan, b, k - 1);
      RoundSource(plan, b[k - 1], b[k]);
      RoundKeepsDepth(plan, b[k - 1], b[k], k - 1);
    }
  }

  lemma RoundSource(plan: seq<Step>, s: RunState, s': RunState)
    requires Round(plan, s, s')
    ensures Active(s) && s'.status == AggregateStatus(plan, s'.results)
  {
  }

  lemma EmptyAtDepth(plan: seq<Step>)
    requires WellFormed(plan)
    ensures Terminal(map[]) && NoneFailed(map[]) && AtDepth(plan, map[], 0)
  {
    ValidatedGraph(plan);
    forall id | id in Ids(plan) ensures !DepthAtMost(DependencyMap(plan), id, 0) {
      DepthPositive(DependencyMap(plan), id);
    }
  }

  // Round k + 1 dispatches exactly the live steps whose longest dependency chain has k + 1
  // elements.
  lemma RoundDispatchesByDepth(plan: seq<Step>, b: seq<RunState>, k: nat, id: string)
    requires WellFormed(plan) && IsRun(plan, b) && k < |b| && Active(b[k])
    ensures
      id in ReadyIds(plan, b[k].results)
      <==> id in Ids(plan) && Live(plan, id) && HasDepth(DependencyMap(plan), id, k + 1)
  {
    hide Live, WellFormed;
    RunDepth(plan, b, k);
    RoundReadiness(plan, b[k].results, k, id);
    DepthOf(DependencyMap(plan), id, k);
  }

  // A step is dispatched only when all its dependencies are done.
  lemma DispatchedAfterDependencies(plan: seq<Step>, b: seq<RunState>, k: nat, id: string)
    requires WellFormed(plan) && IsRun(plan, b) && k < |b| && id in ReadyIds(plan, b[k].results)
    ensures forall d :: Edge(DependencyMap(plan), id, d) ==>
              d in b[k].results && (b[k].results[d] == Success || b[k].results[d] == Degraded)
  {
    hide WellFormed, ReadyIds, IsRun, Edge;
    ReadyId(plan, b[k].results, id);
  }

  // A step is dispatched once: it has its result in the next round, and is never ready again.
  lemma DispatchedOnce(plan: seq<Step>, b: seq<RunState>, k: nat, later: nat, id: string)
    requires WellFormed(plan) && IsRun(plan, b) && k < later < |b| && Active(b[later])
    requires id in ReadyIds(plan, b[k].results)
    ensures id in b[k + 1].results && id !in ReadyIds(plan, b[later].results)
  {
    hide WellFormed, DepthAtMost, HasDepth, ReadyIds, IsRun, Edge, Live;
    RunIsActive(plan, b, k);
    RoundDispatchesByDepth(plan, b, k, id);
    RoundDispatchesByDepth(plan, b, later, id);
    if id in ReadyIds(plan, b[later].results) {
      DepthUnique(DependencyMap(plan), id, k + 1, later + 1);
    }
  }

  lemma RunIsActive(plan: seq<Step>, b: seq<RunState>, k: nat)
    requires IsRun(plan, b) && k < |b| - 1
    ensures Active(b[k]) && b[k + 1].results.Keys == b[k].results.Keys + ReadyIds(plan, b[k].results)
  {
    assert Round(plan, b[k], b[k + 1]);
  }

  lemma DepthUnique(deps: map<string, seq<string>>, id: string, m: int, n: int)
    requires HasDepth(deps, id, m) && HasDepth(deps, id, n)
    ensures m == n
  {
  }

  // Every step that the aggregate waits for can be dispatched.
  ghost predicate CountedAreLive(plan: seq<Step>) {
    forall id :: id in CountedIds(plan) ==> Live(plan, id)
  }

  // After as many rounds as there are steps, every counted step has a result.
  lemma RunIsBounded(plan: seq<Step>, b: seq<RunState>)
    requires WellFormed(plan) && CountedAreLive(plan) && IsRun(plan, b)
    ensures |b| <= |plan| + 1
  {
    hide Live, DepthAtMost, Terminal, Round, WellFormed;
    if |b| > |plan| + 1 {
      var k := |plan|;
      assert WellFormed(plan) ==> k > 0 by {
        NotEmpty(plan);
      }
      RunIsActive(plan, b, k);
      RunDepth(plan, b, k);
      ValidatedGraph(plan);
      forall id | id in CountedIds(plan) ensures id in b[k].results {
        DeepEnough(DependencyMap(plan), id);
      }
      LastRoundDecides(plan, b, k);
    }
  }

  lemma NotEmpty(plan: seq<Step>)
    requires WellFormed(plan)
    ensures plan != []
  {
  }

  lemma DeepEnough(deps: map<string, seq<string>>, id: string)
    requires !Cyclic(deps)
    ensures DepthAtMost(deps, id, |deps|)
  {
    forall c | ChainTo(deps, id, c) ensures |c| <= |deps| {
      ChainBound(deps, c);
    }
  }

  lemma LastRoundDecides(plan: seq<Step>, b: seq<RunState>, k: nat)
    requires IsRun(plan, b) && 0 < k < |b|
    ensures b[k].status == AggregateStatus(plan, b[k].results)
  {
    assert Round(plan, b[k - 1], b[(k - 1) + 1]);
  }

  // While a run is active and a counted step is missing, some step is ready.
  lemma NeverSpins(plan: seq<Step>, b: seq<RunState>, k: nat)
    requires WellFormed(plan) && CountedAreLive(plan) && IsRun(plan, b) && k < |b| && Active(b[k])
    requires CountedIds(plan) - b[k].results.Keys != {}
    ensures ReadyIds(plan, b[k].results) != {}
  {
    hide AtDepth, Terminal, NoneFailed, ReadyIds, Cyclic, Closed, IsRun, DependencyMap, Ids, AggregateStatus, Live;
    RunDepth(plan, b, k);
    var id :| id in CountedIds(plan) - b[k].results.Keys;
    assert id in Ids(plan) && Live(plan, id);
    ValidatedGraph(plan);
    var ready := FindReady(plan, b[k].results, [id]);
  }

  // From a missing step, walk down to a missing step whose dependencies are all done.
  lemma {:induction false} FindReady(plan: seq<Step>, results: map<string, StepStatus>, c: seq<string>)
          returns (id: string)
    requires WellFormed(plan) && Terminal(results) && NoneFailed(results)
    requires IsChain(DependencyMap(plan), c) && c[0] !in results && Live(plan, c[0])
    ensures id in ReadyIds(plan, results)
    decreases |plan| - |c|
  {
    hide WellFormed, ReadyIds, Cyclic, Edge, Ids, DependencyMap, Closed, Live, PendingId;
    var deps := DependencyMap(plan);
    ValidatedGraph(plan);
    ChainBound(deps, c);
    ReadyId(plan, results, c[0]);
    LiveStep(plan, c[0]);
    id := c[0];
    if id !in ReadyIds(plan, results) {
      var d :| Edge(deps, id, d) && !Done(results, d);
      EdgeToId(plan, id, d);
      PrependChain(deps, c, d);
      ChainBound(deps, [d] + c);
      id := FindReady(plan, results, [d] + c);
    }
  }

  lemma PrependChain(deps: map<string, seq<string>>, c: seq<string>, d: string)
    requires IsChain(deps, c) && d in deps && Edge(deps, c[0], d)
    ensures IsChain(deps, [d] + c)
  {
    var longer := [d] + c;
    forall i | 0 <= i < |longer| - 1 ensures Edge(deps, longer[i + 1], longer[i]) {
      if i > 0 {
        assert Edge(deps, c[(i - 1) + 1], c[i - 1]);
      }
    }
  }

  // ---- How runs end ----

  // A run ends completed exactly when no step failed, and then every counted step has a result.
  lemma RunOutcome(plan: seq<Step>, b: seq<RunState>)
    requires WellFormed(plan) && IsRun(plan, b) && !Active(b[|b| - 1])
    ensures
      var last := b[|b| - 1];
      && (last.status == Completed <==> NoneFailed(last.results))
      && (last.status == Completed ==> CountedIds(plan) <= last.results.Keys <= Ids(plan))
      && (last.status == PlanFailed <==> exists id :: id in last.results && last.results[id] == Failed)
  {
    hide WellFormed, Terminal, IsRun, DepthAtMost, Ids, DependencyMap, Live;
    RunStarts(plan, b);
    RunDepth(plan, b, |b| - 1);
    LastRoundDecides(plan, b, |b| - 1);
    var results := b[|b| - 1].results;
    assert forall id :: id in results.Keys ==> id in Ids(plan);
    forall id | id in CountedIds(plan) && id !in results ensures CountedIds(plan) - results.Keys != {} {
    }
  }

  lemma RunStarts(plan: seq<Step>, b: seq<RunState>)
    requires IsRun(plan, b)
    ensures b != [] && Active(b[0])
  {
  }

  // A step with the empty id gets its turn before the loop ends: there is none, or it can be
  // dispatched, and in the first round or no later than some counted step.
  ghost predicate EmptyIdHasItsTurn(plan: seq<Step>) {
    "" in Ids(plan) ==>
      && Live(plan, "")
      && (DepthAtMost(DependencyMap(plan), "", 1) ||
          exists id :: id in CountedIds(plan) && NoDeeper(DependencyMap(plan), "", id))
  }

  ghost predicate NoDeeper(deps: map<string, seq<string>>, a: string, b: string) {
    forall n :: DepthAtMost(deps, b, n) ==> DepthAtMost(deps, a, n)
  }

  // A completed run has the results of all steps if and only if a step with the empty id, if
  // any, had its turn.
  lemma CompletedIsCompleteIff(plan: seq<Step>, b: seq<RunState>)
    requires WellFormed(plan) && IsRun(plan, b) && b[|b| - 1].status == Completed
    ensures b[|b| - 1].results.Keys == Ids(plan) <==> EmptyIdHasItsTurn(plan)
  {
    hide WellFormed, Terminal, IsRun, DepthAtMost, Ids, DependencyMap, Live, NoneFailed, Round;
    var k := |b| - 1;
    RunStarts(plan, b);
    RunOutcome(plan, b);
    RunDepth(plan, b, k);
    var deps, results := DependencyMap(plan), b[k].results;
    if EmptyIdHasItsTurn(plan) && "" in Ids(plan) {
      TurnInTime(plan, results, k);
      assert results.Keys == Ids(plan);
    }
    if results.Keys == Ids(plan) && "" in Ids(plan) {
      assert "" in results.Keys;
      if k > 1 {
        RunIsActive(plan, b, k - 1);
        LastRoundDecides(plan, b, k - 1);
        RunDepth(plan, b, k - 1);
        var id :| id in CountedIds(plan) - b[k - 1].results.Keys;
        assert id in results.Keys;
        StillMissing(plan, b[k - 1].results, results, k, id);
      }
    }
  }

  lemma TurnInTime(plan: seq<Step>, results: map<string, StepStatus>, k: nat)
    requires AtDepth(plan, results, k) && k >= 1 && CountedIds(plan) <= results.Keys
    requires EmptyIdHasItsTurn(plan) && "" in Ids(plan)
    ensures "" in results
  {
    hide DepthAtMost, Ids, DependencyMap, Live;
    if DepthAtMost(DependencyMap(plan), "", 1) {
      DepthMonotone(DependencyMap(plan), "", 1, k);
    } else {
      var id :| id in CountedIds(plan) && NoDeeper(DependencyMap(plan), "", id);
      assert id in results.Keys;
    }
  }

  // A step that is missing one round before the last is as deep as any that has its result.
  lemma StillMissing(plan: seq<Step>, before: map<string, StepStatus>, after: map<string, StepStatus>, k: nat,
          id: string)
    requires k > 0 && AtDepth(plan, before, k - 1) && AtDepth(plan, after, k)
    requires id in CountedIds(plan) && id !in before && id in after && "" in after
    ensures NoDeeper(DependencyMap(plan), "", id)
  {
    hide DepthAtMost, Ids, DependencyMap, Live;
    var deps := DependencyMap(plan);
    forall n | DepthAtMost(deps, id, n) ensures DepthAtMost(deps, "", n) {
      if n <= k - 1 {
        DepthMonotone(deps, id, n, k - 1);
      } else {
        DepthMonotone(deps, "", k, n);
      }
    }
  }

  // A plan that completes without its second step, which is called "".
  const FIRST := Step("a", "general_agent", [], Pending, 1)
  const NAMELESS := Step("", "general_agent", ["a"], Pending, 1)

  lemma TwoSteps(a: Step, b: Step)
    requires a.stepId != b.stepId
    ensures DependencyMap([a, b]) == map[a.stepId := a.dependencies, b.stepId := b.dependencies]
    ensures Ids([a, b]) == {a.stepId, b.stepId}
  {
    var plan := [a, b];
    assert plan[..1] == [a] && [a][..0] == [];
    assert DependencyMap([a]) == map[a.stepId := a.dependencies];
    assert a in plan && b in plan;
  }

  lemma NamelessPlanIsWellFormed()
    ensures WellFormed([FIRST, NAMELESS])
  {
    assert |"a"| == 1 && |""| == 0;
    TwoSteps(FIRST, NAMELESS);
    var deps := DependencyMap([FIRST, NAMELESS]);
    var order := ["a", ""];
    assert order[..0] == [] && order[..1] == ["a"];
    assert TopologicalOrder(deps, order);
    OrderedIsAcyclic(deps, order);
  }

  lemma NamelessIsNotReady()
    ensures ReadyIds([FIRST, NAMELESS], map[]) == {"a"} && CountedIds([FIRST, NAMELESS]) == {"a"}
    ensures "" in Ids([FIRST, NAMELESS])
  {
    assert |"a"| == 1 && |""| == 0;
    TwoSteps(FIRST, NAMELESS);
    assert "a" in NAMELESS.dependencies;
    assert FIRST in [FIRST, NAMELESS];
  }

  lemma CompletesWithoutNameless()
    ensures WellFormed([FIRST, NAMELESS]) && !EmptyIdHasItsTurn([FIRST, NAMELESS])
    ensures exists b: seq<RunState> ::
              IsRun([FIRST, NAMELESS], b) && b[|b| - 1].status == Completed && "" !in b[|b| - 1].results
  {
    hide WellFormed, EmptyIdHasItsTurn, ReadyIds, CountedIds, Ids, IsReady;
    var plan := [FIRST, NAMELESS];
    NamelessPlanIsWellFormed();
    NamelessIsNotReady();
    var b := [RunState(map[], Validated), RunState(map["a" := Success], Completed)];
    assert CountedIds(plan) - b[1].results.Keys == {};
    assert |"a"| == 1 && "" !in b[1].results.Keys;
    assert Round(plan, b[0], b[1]);
    assert IsRun(plan, b);
    CompletedIsCompleteIff(plan, b);
  }

  // ---- The validator does not look at the steps' own status ----

  // The run in which every agent call succeeds.
  ghost function Succeeding(plan: seq<Step>, n: nat): RunState {
    if n == 0 then RunState(map[], Validated)
    else
      var results := Succeeding(plan, n - 1).results;
      var results' := results + map id | id in ReadyIds(plan, results) :: Success;
      RunState(results', AggregateStatus(plan, results'))
  }

  // A counted step that is not live is never dispatched, and the loop goes on without it.
  lemma {:induction false} StuckStepSpins(plan: seq<Step>, n: nat, id: string)
    requires WellFormed(plan) && id in CountedIds(plan) && !Live(plan, id)
    ensures Terminal(Succeeding(plan, n).results) && NoneFailed(Succeeding(plan, n).results)
    ensures AtDepth(plan, Succeeding(plan, n).results, n) && id !in Succeeding(plan, n).results
    ensures Active(Succeeding(plan, n))
    ensures n > 0 ==> Round(plan, Succeeding(plan, n - 1), Succeeding(plan, n))
  {
    hide WellFormed, ReadyIds, AggregateStatus, Ids, Round, Live, Terminal, NoneFailed, DepthAtMost, DependencyMap;
    if n == 0 {
      EmptyAtDepth(plan);
    } else {
      StuckStepSpins(plan, n - 1, id);
      SucceedingRound(plan, Succeeding(plan, n - 1));
      RoundKeepsDepth(plan, Succeeding(plan, n - 1), Succeeding(plan, n), n - 1);
      MissingKeepsGoing(plan, Succeeding(plan, n).results, id);
    }
  }

  lemma SucceedingRound(plan: seq<Step>, before: RunState)
    requires Active(before) && NoneFailed(before.results)
    ensures
      var results' := before.results + map id | id in ReadyIds(plan, before.results) :: Success;
      NoneFailed(results') && Round(plan, before, RunState(results', AggregateStatus(plan, results')))
  {
    var ready := ReadyIds(plan, before.results);
    assert forall id :: id in ready ==> id !in before.results;
  }

  lemma MissingKeepsGoing(plan: seq<Step>, results: map<string, StepStatus>, id: string)
    requires NoneFailed(results) && id in CountedIds(plan) && id !in results
    ensures AggregateStatus(plan, results) == InProgress
  {
    assert id in CountedIds(plan) - results.Keys;
  }

  // A validated plan has only bounded runs if and only if no step with a non-empty id is, or
  // depends on, a step that is not pending at the start.
  lemma BoundedIffCountedAreLive(plan: seq<Step>)
    requires WellFormed(plan)
    ensures (forall b :: IsRun(plan, b) ==> |b| <= |plan| + 1) <==> CountedAreLive(plan)
  {
    hide WellFormed, Live, Round, Terminal, AtDepth, NoneFailed;
    if CountedAreLive(plan) {
      forall b | IsRun(plan, b) ensures |b| <= |plan| + 1 {
        RunIsBounded(plan, b);
      }
    } else {
      var id :| id in CountedIds(plan) && !Live(plan, id);
      RunsForEver(plan, |plan| + 1, id);
    }
  }

  // Runs of any length, each the beginning of the next.
  lemma RunsForEver(plan: seq<Step>, n: nat, id: string)
    requires WellFormed(plan) && id in CountedIds(plan) && !Live(plan, id)
    ensures IsRun(plan, seq(n + 1, i requires 0 <= i < n + 1 => Succeeding(plan, i)))
  {
    hide WellFormed, Live, Round, Terminal, AtDepth, NoneFailed;
    var b := seq(n + 1, i requires 0 <= i < n + 1 => Succeeding(plan, i));
    forall k | 0 <= k < |b| - 1 ensures Round(plan, b[k], b[k + 1]) {
      StuckStepSpins(plan, k + 1, id);
    }
  }

  // A plan of one step that is already skipped: it passes validation, and its loop never ends.
  const SKIPPED := Step("a", "general_agent", [], Skipped, 1)

  lemma OneStep(a: Step)
    ensures DependencyMap([a]) == map[a.stepId := a.dependencies] && Ids([a]) == {a.stepId}
  {
    assert [a][..0] == [] && a in [a];
  }

  lemma SkippedPlan()
    ensures WellFormed([SKIPPED]) && "a" in CountedIds([SKIPPED]) && !PendingId([SKIPPED], "a")
  {
    var plan := [SKIPPED];
    assert |"a"| == 1 && SKIPPED in plan && ["a"][..0] == [];
    OneStep(SKIPPED);
    var deps := DependencyMap(plan);
    OrderedIsAcyclic(deps, ["a"]);
  }

  lemma ValidatedPlanThatNeverEnds(n: nat)
    ensures WellFormed([SKIPPED]) && !CountedAreLive([SKIPPED])
    ensures exists b: seq<RunState> :: IsRun([SKIPPED], b) && |b| == n + 1
  {
    hide WellFormed, CountedIds, Round, PendingId, IsRun;
    SkippedPlan();
    LiveStep([SKIPPED], "a");
    RunsForEver([SKIPPED], n, "a");
  }

  // ---- What the planners write ----

  // A step as a planner names it: it has no status.
  datatype StepOutput = StepOutput(stepId: string, agent: string, dependencies: seq<string>)

  const DEFAULT_ATTEMPTS := 2

  function Planned(outputs: seq<StepOutput>): (plan: seq<Step>)
    ensures |plan| == |outputs|
    ensures forall i :: 0 <= i < |plan| ==> plan[i].status == Pending && plan[i].maxAttempts == 2
  {
    seq(|outputs|, i requires 0 <= i < |outputs| =>
      Step(outputs[i].stepId, outputs[i].agent, outputs[i].dependencies, Pending, DEFAULT_ATTEMPTS))
  }

  // So no plan of the graph runs for ever: once validated, each of its steps can be dispatched.
  lemma PlannedRunsAreBounded(outputs: seq<StepOutput>)
    requires WellFormed(Planned(outputs))
    ensures forall id :: id in Ids(Planned(outputs)) ==> Live(Planned(outputs), id)
    ensures forall b :: IsRun(Planned(outputs), b) ==> |b| <= |outputs| + 1
  {
    hide WellFormed, IsRun, Live;
    var plan := Planned(outputs);
    forall id | id in Ids(plan) ensures Live(plan, id) {
      AllPendingAreLive(plan, id);
    }
    BoundedIffCountedAreLive(plan);
  }

  // ---- The loop as it runs ----

  // planning_aggregate_node
  method Aggregate(plan: seq<Step>, results: map<string, StepStatus>) returns (status: PlanningStatus)
    ensures status == AggregateStatus(plan, results)
  {
    var failed := set id | id in results && results[id] == Failed;
    assert forall id :: id in results && results[id] == Failed ==> id in failed;
    var missing := CountedIds(plan) - results.Keys;
    status := if failed != {} then PlanFailed else if missing != {} then InProgress else Completed;
  }

  ghost predicate FromWorker(plan: seq<Step>, id: string, status: StepStatus, calls: string -> nat -> AgentCall) {
    exists s, a: nat :: s in plan && s.stepId == id && Decides(s, a, status, calls(id))
  }

  // The results that a round added come from the calls of that round.
  ghost predicate ResultsFrom(plan: seq<Step>, before: RunState, after: RunState, calls: string -> nat -> AgentCall) {
    forall id :: id in after.results && id !in before.results ==> FromWorker(plan, id, after.results[id], calls)
  }

  function SentIds(sends: seq<Step>): set<string> {
    set s | s in sends :: s.stepId
  }

  // One turn: the router fans out, a worker runs each step sent, results are merged and
  // aggregated. calls(id)(a) is what attempt a of a step comes to.
  method RunRound(plan: seq<Step>, before: RunState, calls: string -> nat -> AgentCall) returns (after: RunState)
    requires before.status in {Validated, InProgress}
    ensures Round(plan, before, after)
    ensures
      forall id :: id in ReadyIds(plan, before.results) ==>
        id in after.results && FromWorker(plan, id, after.results[id], calls)
  {
    hide AggregateStatus, FromWorker, ReadySteps, IsReady, Decides;
    var sends := RouteReadySteps(plan, before.results);
    SentAreReady(plan, before.results, sends);
    var results := before.results;
    for i := 0 to |sends|
      invariant results.Keys == before.results.Keys + SentIds(sends[..i])
      invariant forall id :: id in before.results ==> results[id] == before.results[id]
      invariant forall id :: id in SentIds(sends[..i]) ==>
                  FromWorker(plan, id, results[id], calls) && results[id] in {Success, Degraded, Failed}
    {
      var step := sends[i];
      var result, events := RunWorker(step, calls(step.stepId));
      assert sends[..i + 1] == sends[..i] + [step] && step in sends;
      assert SentIds(sends[..i + 1]) == SentIds(sends[..i]) + {step.stepId};
      ByWorker(plan, step, result.attempt, result.status, calls);
      DecidedStatus(step, result.attempt, result.status, calls(step.stepId));
      results := results[result.stepId := result.status];
    }
    assert sends[..|sends|] == sends;
    var status := Aggregate(plan, results);
    after := RunState(results, status);
  }

  lemma DecidedStatus(s: Step, a: nat, status: StepStatus, calls: nat -> AgentCall)
    requires Decides(s, a, status, calls)
    ensures status in {Success, Degraded, Failed}
  {
  }

  lemma ByWorker(plan: seq<Step>, step: Step, a: nat, status: StepStatus, calls: string -> nat -> AgentCall)
    requires exists s :: s in plan && step == s.(status := Ready)
    requires Decides(step, a, status, calls(step.stepId))
    ensures FromWorker(plan, step.stepId, status, calls)
  {
    var s :| s in plan && step == s.(status := Ready);
    assert Decides(s, a, status, calls(step.stepId));
  }

  lemma SentAreReady(plan: seq<Step>, results: map<string, StepStatus>, sends: seq<Step>)
    requires |sends| == |ReadySteps(plan, results)|
    requires forall i :: 0 <= i < |sends| ==> sends[i] == ReadySteps(plan, results)[i].(status := Ready)
    ensures SentIds(sends) == ReadyIds(plan, results) && SentIds(sends) !! results.Keys
    ensures forall s :: s in sends ==> exists t :: t in plan && s == t.(status := Ready)
  {
    hide ReadySteps, IsReady;
    var ready := ReadySteps(plan, results);
    ReadyStepsAre(plan, results);
    forall i | 0 <= i < |sends| ensures ready[i] in plan && IsReady(ready[i], results) {
      assert ready[i] in ready;
    }
    ReadyIdsAre(plan, results, sends);
    ReadyIsNew(plan, results);
  }

  lemma ReadyIdsAre(plan: seq<Step>, results: map<string, StepStatus>, sends: seq<Step>)
    requires |sends| == |ReadySteps(plan, results)|
    requires forall i :: 0 <= i < |sends| ==> sends[i] == ReadySteps(plan, results)[i].(status := Ready)
    ensures SentIds(sends) == ReadyIds(plan, results)
  {
    hide ReadySteps, IsReady;
    var ready := ReadySteps(plan, results);
    ReadyStepsAre(plan, results);
    forall id | id in SentIds(sends) ensures id in ReadyIds(plan, results) {
      var i :| 0 <= i < |sends| && sends[i].stepId == id;
      assert ready[i] in ready;
    }
    forall id | id in ReadyIds(plan, results) ensures id in SentIds(sends) {
      var t :| t in plan && IsReady(t, results) && t.stepId == id;
      assert t in ready;
      var i :| 0 <= i < |ready| && ready[i] == t;
      assert sends[i] in sends;
    }
  }

  lemma ReadyIsNew(plan: seq<Step>, results: map<string, StepStatus>)
    ensures ReadyIds(plan, results) !! results.Keys
  {
  }

  lemma {:induction false} ReadyStepsAre(plan: seq<Step>, results: map<string, StepStatus>)
    ensures forall s :: s in ReadySteps(plan, results) <==> s in plan && IsReady(s, results)
  {
    if plan != [] {
      ReadyStepsAre(plan[..|plan| - 1], results);
      assert plan == plan[..|plan| - 1] + [plan[|plan| - 1]];
    }
  }

  // The whole loop, for a plan whose counted steps can all be dispatched: it ends, and it ends
  // completed exactly when no step failed. calls(k) are the agent calls of round k.
  method ExecutePlan(plan: seq<Step>, calls: nat -> string -> nat -> AgentCall)
          returns (last: RunState, ghost run: seq<RunState>)
    requires WellFormed(plan) && CountedAreLive(plan)
    ensures IsRun(plan, run) && run[|run| - 1] == last && |run| <= |plan| + 1
    ensures last.status == Completed <==> NoneFailed(last.results)
    ensures last.status == Completed || last.status == PlanFailed
    ensures last.status == Completed ==> CountedIds(plan) <= last.results.Keys
    ensures forall k :: 0 <= k < |run| - 1 ==> ResultsFrom(plan, run[k], run[k + 1], calls(k))
  {
    hide WellFormed, CountedAreLive, Round, Live, NoneFailed, FromWorker, ReadyIds;
    last := RunState(map[], Validated);
    run := [last];
    var k := 0;
    while last.status in {Validated, InProgress}
      invariant IsRun(plan, run) && |run| == k + 1 && run[k] == last
      invariant last.status in {Validated, InProgress} || last.status in {Completed, PlanFailed}
      invariant forall m :: 0 <= m < k ==> ResultsFrom(plan, run[m], run[m + 1], calls(m))
      decreases |plan| + 1 - k
    {
      RunIsBounded(plan, run);
      last := RunRound(plan, last, calls(k));
      LastStatus(plan, run[k], last);
      NewResults(plan, run[k], last);
      run := run + [last];
      k := k + 1;
    }
    RunIsBounded(plan, run);
    RunOutcome(plan, run);
  }

  lemma NewResults(plan: seq<Step>, s: RunState, s': RunState)
    requires Round(plan, s, s')
    ensures forall id :: id in s'.results && id !in s.results ==> id in ReadyIds(plan, s.results)
  {
  }

  lemma LastStatus(plan: seq<Step>, s: RunState, s': RunState)
    requires Round(plan, s, s')
    ensures s'.status in {InProgress, Completed, PlanFailed}
  {
  }
}
