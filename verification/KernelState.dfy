/** What spawn validation and the absorption of provider responses compute. */
module KernelState {
  import opened Wrappers
  import opened KernelTypes

  const U16_MAX: nat := 0xFFFF

  function Min(a: nat, b: nat): nat {
    if a <= b then a else b
  }

  // ---------------------------------------------------------------- the task graph

  function InsertTask(g: Graph, task: SubtaskSpec): Graph {
    var parents := if task.taskId in g.dependencies then g.dependencies[task.taskId] else {};
    g.(tasks := g.tasks[task.taskId := task],
       dependencies := if task.parentTaskId.Some?
                       then g.dependencies[task.taskId := parents + {task.parentTaskId.value}]
                       else g.dependencies)
  }

  function InsertTasks(g: Graph, tasks: seq<SubtaskSpec>): Graph
    decreases |tasks|
  {
    if tasks == [] then g else InsertTasks(InsertTask(g, tasks[0]), tasks[1..])
  }

  /** The tasks that have a parent: the agents of a request. */
  function Agents(g: Graph): set<string> {
    set id | id in g.tasks && g.tasks[id].parentTaskId.Some? :: id
  }

  // ---------------------------------------------------------------- spawn validation

  function RefError(scope: IsolationKey, store: Artifacts, r: ArtifactRef): Option<KernelError> {
    if r.scope != scope then Some(ArtifactScopeMismatch(scope, r.scope))
    else if (r.scope, r.artifactId) !in store then Some(MissingArtifact(r.scope, r.artifactId))
    else None
  }

  function RefsError(scope: IsolationKey, store: Artifacts, refs: seq<ArtifactRef>): Option<KernelError> {
    if refs == [] then None
    else if RefError(scope, store, refs[0]).Some? then RefError(scope, store, refs[0])
    else RefsError(scope, store, refs[1..])
  }

  function ChildError(limits: ExecutionLimits, scope: IsolationKey, store: Artifacts, g: Graph, child: SubtaskSpec)
    : Option<KernelError>
  {
    if child.spawnDepth > limits.maxSpawnDepth
    then Some(SpawnDepthExceeded(child.taskId, child.spawnDepth, limits.maxSpawnDepth))
    else if child.taskId in g.tasks then Some(DuplicateTask(child.taskId))
    else RefsError(scope, store, child.inputArtifactRefs)
  }

  function ChildrenError(limits: ExecutionLimits, scope: IsolationKey, store: Artifacts, g: Graph,
                         children: seq<SubtaskSpec>)
    : Option<KernelError>
  {
    if children == [] then None
    else
      var error := ChildError(limits, scope, store, g, children[0]);
      if error.Some? then error else ChildrenError(limits, scope, store, g, children[1..])
  }

  /** The agents a plan asks for, as the sixteen-bit counter sees them. */
  function Requested(g: Graph, plan: SpawnPlan): nat {
    Min(|Agents(g)| + |plan.children|, U16_MAX)
  }

  function PlanError(limits: ExecutionLimits, scope: IsolationKey, store: Artifacts, g: Graph, plan: SpawnPlan)
    : Option<KernelError>
  {
    if Requested(g, plan) > limits.maxAgentsPerRequest
    then Some(AgentLimitExceeded(Requested(g, plan), limits.maxAgentsPerRequest))
    else ChildrenError(limits, scope, store, g, plan.children)
  }

  function ValidateAndApply(limits: ExecutionLimits, scope: IsolationKey, store: Artifacts, g: Graph, plan: SpawnPlan)
    : (Graph, Option<KernelError>)
  {
    var error := PlanError(limits, scope, store, g, plan);
    if error.Some? then (g, error) else (InsertTasks(g, plan.children), None)
  }

  // ---------------------------------------------------------------- provider responses

  datatype State = State(store: Artifacts, calls: Calls, graph: Graph, texts: seq<AgentArtifact>)

  function Put(store: Artifacts, artifact: AgentArtifact): Artifacts {
    store[(artifact.scope, artifact.id) := artifact]
  }

  function RecordCalls(calls: Calls, records: seq<ToolCallRecord>): Calls
    decreases |records|
  {
    if records == [] then calls
    else RecordCalls(calls[(records[0].scope, records[0].toolCallId) := records[0]], records[1..])
  }

  function Truncate(plan: SpawnPlan, room: nat): (cut: SpawnPlan)
    ensures |cut.children| <= room
  {
    plan.(children := plan.children[..Min(room, |plan.children|)])
  }

  function Room(limits: ExecutionLimits, g: Graph): nat {
    if |Agents(g)| <= limits.maxAgentsPerRequest then limits.maxAgentsPerRequest - |Agents(g)| else 0
  }

  function KeepText(st: State, text: AgentArtifact): State {
    st.(store := Put(st.store, text), texts := st.texts + [text])
  }

  function ApplyPlan(limits: ExecutionLimits, scope: IsolationKey, st: State, plan: SpawnPlan)
    : (State, Option<KernelError>)
  {
    var cut := Truncate(plan, Room(limits, st.graph));
    if cut.children == [] then (st, None)
    else
      var (g, error) := ValidateAndApply(limits, scope, st.store, st.graph, cut);
      (st.(graph := g), error)
  }

  function ApplyArtifact(limits: ExecutionLimits, scope: IsolationKey, task: SubtaskSpec, st: State,
                         artifact: AgentArtifact)
    : (State, Option<KernelError>)
  {
    match artifact
    case TextArtifact(_, _, _) => (KeepText(st, artifact), None)
    case Opaque(_, _) => (st.(store := Put(st.store, artifact)), None)
    case PlanArtifact(id, origin, plan, rendered) =>
      if task.maySpawn then ApplyPlan(limits, scope, st, plan)
      else (KeepText(st, TextArtifact(id, origin, rendered)), None)
  }

  function ApplyArtifacts(limits: ExecutionLimits, scope: IsolationKey, task: SubtaskSpec, st: State,
                          artifacts: seq<AgentArtifact>)
    : (State, Option<KernelError>)
    decreases |artifacts|
  {
    if artifacts == [] then (st, None)
    else
      var (next, error) := ApplyArtifact(limits, scope, task, st, artifacts[0]);
      if error.Some? then (next, error) else ApplyArtifacts(limits, scope, task, next, artifacts[1..])
  }

  /** `apply_provider_response` */
  function Absorb(limits: ExecutionLimits, scope: IsolationKey, task: SubtaskSpec, st: State,
                  response: ProviderResponse)
    : (State, Option<KernelError>)
  {
    if |st.calls| + |response.toolCalls| > limits.maxTotalToolCalls then (st, Some(BudgetExceeded))
    else ApplyArtifacts(limits, scope, task, st.(calls := RecordCalls(st.calls, response.toolCalls)),
                        response.artifacts)
  }

  // ---------------------------------------------------------------- planner responses

  function Plans(artifacts: seq<AgentArtifact>): seq<SpawnPlan> {
    if artifacts == [] then []
    else (if artifacts[0].PlanArtifact? then [artifacts[0].plan] else []) + Plans(artifacts[1..])
  }

  function PutOthers(store: Artifacts, artifacts: seq<AgentArtifact>): Artifacts
    decreases |artifacts|
  {
    if artifacts == [] then store
    else PutOthers(if artifacts[0].PlanArtifact? then store else Put(store, artifacts[0]), artifacts[1..])
  }

  function ApplyPlans(limits: ExecutionLimits, scope: IsolationKey, store: Artifacts, g: Graph, plans: seq<SpawnPlan>)
    : (Graph, Option<KernelError>)
    decreases |plans|
  {
    if plans == [] then (g, None)
    else
      var (next, error) := ValidateAndApply(limits, scope, store, g, plans[0]);
      if error.Some? then (next, error) else ApplyPlans(limits, scope, store, next, plans[1..])
  }

  /** `apply_spawn_plan_response` */
  function AbsorbPlans(limits: ExecutionLimits, scope: IsolationKey, st: State, artifacts: seq<AgentArtifact>)
    : (State, Option<KernelError>)
  {
    var store := PutOthers(st.store, artifacts);
    var (g, error) := ApplyPlans(limits, scope, store, st.graph, Plans(artifacts));
    (st.(store := store, graph := g), error)
  }

  /** The calls of one task in one scope that no recorded result answers. */
  function Unresolved(calls: Calls, results: set<(IsolationKey, string)>, scope: IsolationKey, taskId: string)
    : set<(IsolationKey, string)>
  {
    set key | key in calls && key.0 == scope && key !in results && calls[key].taskId == taskId :: key
  }
}
