/** The protocol types the orchestration kernel passes around. */
module KernelTypes {
  import opened Wrappers

  datatype IsolationKey = IsolationKey(tenantId: string, requestId: string, conversationFingerprint: string)

  datatype ArtifactRef = ArtifactRef(scope: IsolationKey, artifactId: string)

  datatype AgentLimits = AgentLimits(maxTokens: nat, maxToolCalls: nat)

  const DEFAULT_AGENT_LIMITS := AgentLimits(2_048, 4)

  /** `maySpawn` says whether the capability set contains `Spawn`. */
  datatype SubtaskSpec = SubtaskSpec(
    taskId: string,
    parentTaskId: Option<string>,
    spawnDepth: nat,
    objective: string,
    inputArtifactRefs: seq<ArtifactRef>,
    maySpawn: bool,
    limits: AgentLimits)

  datatype SpawnPlan = SpawnPlan(parentTaskId: string, children: seq<SubtaskSpec>)

  datatype ToolCallRecord = ToolCallRecord(toolCallId: string, scope: IsolationKey, taskId: string, resolved: bool)

  datatype ToolResultRecord = ToolResultRecord(toolCallId: string, scope: IsolationKey)

  /** `rendered` is the JSON text of a plan; media, tool and verification artifacts are `Opaque`. */
  datatype AgentArtifact =
    | TextArtifact(id: string, scope: IsolationKey, text: string)
    | PlanArtifact(id: string, scope: IsolationKey, plan: SpawnPlan, rendered: string)
    | Opaque(id: string, scope: IsolationKey)

  datatype ProviderResponse = ProviderResponse(
    artifacts: seq<AgentArtifact>,
    toolCalls: seq<ToolCallRecord>,
    tokens: nat)

  datatype ExecutionLimits = ExecutionLimits(
    maxSpawnDepth: nat,
    maxAgentsPerRequest: nat,
    maxParallelAgents: nat,
    maxTotalToolCalls: nat)

  datatype KernelError =
    | AgentLimitExceeded(requested: nat, max: nat)
    | SpawnDepthExceeded(taskId: string, depth: nat, max: nat)
    | DuplicateTask(taskId: string)
    | ArtifactScopeMismatch(requestScope: IsolationKey, artifactScope: IsolationKey)
    | MissingArtifact(scope: IsolationKey, artifactId: string)
    | UnknownToolCall(scope: IsolationKey, toolCallId: string)
    | BudgetExceeded
    | Provider(message: string)
    | AgentTimeout
    | PlanRefused(childCount: nat)
    | EmptySynthesis(attempts: nat)

  type Artifacts = map<(IsolationKey, string), AgentArtifact>
  type Calls = map<(IsolationKey, string), ToolCallRecord>

  datatype Graph = Graph(rootTaskId: string, tasks: map<string, SubtaskSpec>, dependencies: map<string, set<string>>)
}
