/** The stores of one request, updated in place, and the operations that update them. */
module KernelStores {
  import opened Wrappers
  import opened KernelTypes
  import S = KernelState

  class ArtifactStore {
    var artifacts: Artifacts

    constructor ()
      ensures artifacts == map[]
    {
      artifacts := map[];
    }

    method Insert(artifact: AgentArtifact)
      modifies this
      ensures artifacts == S.Put(old(artifacts), artifact)
    {
      artifacts := artifacts[(artifact.scope, artifact.id) := artifact];
    }

    predicate ContainsRef(r: ArtifactRef)
      reads this
    {
      (r.scope, r.artifactId) in artifacts
    }
  }

  class ToolLedger {
    var calls: Calls
    var results: map<(IsolationKey, string), ToolResultRecord>

    /** Results are only ever recorded for calls. */
    ghost predicate Valid()
      reads this
    {
      && results.Keys <= calls.Keys
      && (forall key :: key in calls ==> key == (calls[key].scope, calls[key].toolCallId))
      && (forall key :: key in results ==> key == (results[key].scope, results[key].toolCallId))
    }

    constructor ()
      ensures Valid() && calls == map[] && results == map[]
    {
      calls, results := map[], map[];
    }

    method RecordCall(call: ToolCallRecord)
      requires Valid()
      modifies this`calls
      ensures Valid()
      ensures calls == S.RecordCalls(old(calls), [call])
      ensures |calls| <= |old(calls)| + 1
    {
      ghost var before := calls;
      var key := (call.scope, call.toolCallId);
      calls := calls[key := call];
      assert calls.Keys == before.Keys + {key};
      assert |calls| == |calls.Keys| && |before| == |before.Keys|;
    }

    /** A result for an unknown call is refused; a known call becomes resolved and stays recorded. */
    method RecordResult(result: ToolResultRecord) returns (error: Option<KernelError>)
      requires Valid()
      modifies this
      ensures Valid()
      ensures var key := (result.scope, result.toolCallId);
        && (key in old(calls) ==>
              && error == None
              && results == old(results)[key := result]
              && calls == old(calls)[key := old(calls)[key].(resolved := true)])
        && (key !in old(calls) ==>
              && error == Some(UnknownToolCall(result.scope, result.toolCallId))
              && results == old(results) && calls == old(calls))
    {
      var key := (result.scope, result.toolCallId);
      if key !in calls {
        return Some(UnknownToolCall(result.scope, result.toolCallId));
      }
      calls := calls[key := calls[key].(resolved := true)];
      results := results[key := result];
      error := None;
    }

    function CallCount(): nat
      reads this
    {
      |calls|
    }
  }

  class TaskGraph {
    const rootTaskId: string
    var tasks: map<string, SubtaskSpec>
    var dependencies: map<string, set<string>>

    function View(): Graph
      reads this
    {
      Graph(rootTaskId, tasks, dependencies)
    }

    constructor (rootTaskId: string)
      ensures View() == Graph(rootTaskId, map[], map[])
    {
      this.rootTaskId := rootTaskId;
      tasks, dependencies := map[], map[];
    }

    method InsertTask(task: SubtaskSpec)
      modifies this
      ensures View() == S.InsertTask(old(View()), task)
    {
      if task.parentTaskId.Some? {
        var parents := if task.taskId in dependencies then dependencies[task.taskId] else {};
        dependencies := dependencies[task.taskId := parents + {task.parentTaskId.value}];
      }
      tasks := tasks[task.taskId := task];
    }
  }

  // ---------------------------------------------------------------- spawn validation

  method CheckRefs(scope: IsolationKey, store: ArtifactStore, refs: seq<ArtifactRef>)
    returns (error: Option<KernelError>)
    ensures error == S.RefsError(scope, store.artifacts, refs)
  {
    for i := 0 to |refs|
      invariant S.RefsError(scope, store.artifacts, refs) == S.RefsError(scope, store.artifacts, refs[i..])
    {
      var r := refs[i];
      if r.scope != scope {
        return Some(ArtifactScopeMismatch(scope, r.scope));
      }
      if !store.ContainsRef(r) {
        return Some(MissingArtifact(r.scope, r.artifactId));
      }
      assert refs[i..][1..] == refs[i + 1..];
    }
    return None;
  }

  method CheckChildren(limits: ExecutionLimits, scope: IsolationKey, store: ArtifactStore, graph: TaskGraph,
                       children: seq<SubtaskSpec>)
    returns (error: Option<KernelError>)
    ensures error == S.ChildrenError(limits, scope, store.artifacts, graph.View(), children)
  {
    for i := 0 to |children|
      invariant S.ChildrenError(limits, scope, store.artifacts, graph.View(), children)
             == S.ChildrenError(limits, scope, store.artifacts, graph.View(), children[i..])
    {
      var child := children[i];
      if child.spawnDepth > limits.maxSpawnDepth {
        return Some(SpawnDepthExceeded(child.taskId, child.spawnDepth, limits.maxSpawnDepth));
      }
      if child.taskId in graph.tasks {
        return Some(DuplicateTask(child.taskId));
      }
      error := CheckRefs(scope, store, child.inputArtifactRefs);
      if error.Some? {
        return;
      }
      assert children[i..][1..] == children[i + 1..];
    }
    error := None;
  }

  method CountAgents(graph: TaskGraph) returns (count: nat)
    ensures count == |S.Agents(graph.View())|
  {
    var rest, agents := graph.tasks.Keys, {};
    while rest != {}
      invariant rest <= graph.tasks.Keys
      invariant agents == S.Agents(graph.View()) - rest
      decreases |rest|
    {
      var id :| id in rest;
      if graph.tasks[id].parentTaskId.Some? {
        agents := agents + {id};
      }
      rest := rest - {id};
    }
    assert agents == S.Agents(graph.View());
    count := |agents|;
  }

  method ValidateAndApply(limits: ExecutionLimits, scope: IsolationKey, store: ArtifactStore, graph: TaskGraph,
                          plan: SpawnPlan)
    returns (error: Option<KernelError>)
    modifies graph
    ensures (graph.View(), error) == S.ValidateAndApply(limits, scope, store.artifacts, old(graph.View()), plan)
  {
    var agents := CountAgents(graph);
    var requested := S.Min(agents + |plan.children|, S.U16_MAX);
    if requested > limits.maxAgentsPerRequest {
      return Some(AgentLimitExceeded(requested, limits.maxAgentsPerRequest));
    }
    error := CheckChildren(limits, scope, store, graph, plan.children);
    if error.Some? {
      return;
    }
    for i := 0 to |plan.children|
      invariant S.InsertTasks(old(graph.View()), plan.children) == S.InsertTasks(graph.View(), plan.children[i..])
    {
      assert plan.children[i..][1..] == plan.children[i + 1..];
      graph.InsertTask(plan.children[i]);
    }
  }

  // ---------------------------------------------------------------- provider responses

  method ApplyArtifact(limits: ExecutionLimits, scope: IsolationKey, task: SubtaskSpec, store: ArtifactStore,
                       graph: TaskGraph, texts: seq<AgentArtifact>, ghost calls: Calls, artifact: AgentArtifact)
    returns (kept: seq<AgentArtifact>, error: Option<KernelError>)
    modifies store, graph
    ensures (S.State(store.artifacts, calls, graph.View(), kept), error)
         == S.ApplyArtifact(limits, scope, task, old(S.State(store.artifacts, calls, graph.View(), texts)), artifact)
  {
    kept, error := texts, None;
    match artifact {
      case TextArtifact(_, _, _) =>
        store.Insert(artifact);
        kept := texts + [artifact];
      case Opaque(_, _) =>
        store.Insert(artifact);
      case PlanArtifact(id, origin, plan, rendered) =>
        if !task.maySpawn {
          var text := TextArtifact(id, origin, rendered);
          store.Insert(text);
          kept := texts + [text];
        } else {
          var agents := CountAgents(graph);
          var remaining := if agents <= limits.maxAgentsPerRequest then limits.maxAgentsPerRequest - agents else 0;
          var cut := plan.(children := plan.children[..S.Min(remaining, |plan.children|)]);
          if cut.children != [] {
            error := ValidateAndApply(limits, scope, store, graph, cut);
          }
        }
    }
  }

  method ApplyProviderResponse(limits: ExecutionLimits, scope: IsolationKey, task: SubtaskSpec, store: ArtifactStore,
                               ledger: ToolLedger, graph: TaskGraph, texts: seq<AgentArtifact>,
                               response: ProviderResponse)
    returns (kept: seq<AgentArtifact>, error: Option<KernelError>)
    requires ledger.Valid()
    modifies store, ledger`calls, graph
    ensures ledger.Valid()
    ensures (S.State(store.artifacts, ledger.calls, graph.View(), kept), error)
         == S.Absorb(limits, scope, task, old(S.State(store.artifacts, ledger.calls, graph.View(), texts)), response)
  {
    kept := texts;
    if ledger.CallCount() + |response.toolCalls| > limits.maxTotalToolCalls {
      return kept, Some(BudgetExceeded);
    }
    for i := 0 to |response.toolCalls|
      invariant ledger.Valid() && store.artifacts == old(store.artifacts) && graph.View() == old(graph.View())
      invariant S.RecordCalls(old(ledger.calls), response.toolCalls)
             == S.RecordCalls(ledger.calls, response.toolCalls[i..])
    {
      assert response.toolCalls[i..][1..] == response.toolCalls[i + 1..];
      ledger.RecordCall(response.toolCalls[i]);
    }
    ghost var recorded := ledger.calls;
    ghost var start := old(S.State(store.artifacts, ledger.calls, graph.View(), texts)).(calls := recorded);
    for i := 0 to |response.artifacts|
      invariant ledger.Valid() && ledger.calls == recorded
      invariant S.ApplyArtifacts(limits, scope, task, start, response.artifacts)
             == S.ApplyArtifacts(limits, scope, task, S.State(store.artifacts, recorded, graph.View(), kept),
                                 response.artifacts[i..])
    {
      assert response.artifacts[i..][1..] == response.artifacts[i + 1..];
      kept, error := ApplyArtifact(limits, scope, task, store, graph, kept, recorded, response.artifacts[i]);
      if error.Some? {
        return;
      }
    }
    error := None;
  }

  method ApplySpawnPlanResponse(limits: ExecutionLimits, scope: IsolationKey, store: ArtifactStore, graph: TaskGraph,
                                artifacts: seq<AgentArtifact>)
    returns (sawPlan: bool, error: Option<KernelError>)
    modifies store, graph
    ensures sawPlan == (S.Plans(artifacts) != [])
    ensures store.artifacts == S.PutOthers(old(store.artifacts), artifacts)
    ensures (graph.View(), error)
         == S.ApplyPlans(limits, scope, store.artifacts, old(graph.View()), S.Plans(artifacts))
  {
    var plans := StoreOthers(store, artifacts);
    sawPlan := plans != [];
    error := ApplyPlans(limits, scope, store, graph, plans);
  }

  /** The plans of a response; everything else is stored. */
  method StoreOthers(store: ArtifactStore, artifacts: seq<AgentArtifact>) returns (plans: seq<SpawnPlan>)
    modifies store
    ensures plans == S.Plans(artifacts)
    ensures store.artifacts == S.PutOthers(old(store.artifacts), artifacts)
  {
    plans := [];
    for i := 0 to |artifacts|
      invariant plans + S.Plans(artifacts[i..]) == S.Plans(artifacts)
      invariant S.PutOthers(old(store.artifacts), artifacts) == S.PutOthers(store.artifacts, artifacts[i..])
    {
      assert artifacts[i..][1..] == artifacts[i + 1..];
      var before := plans;
      match artifacts[i] {
        case PlanArtifact(_, _, plan, _) => plans := plans + [plan];
        case _ => store.Insert(artifacts[i]);
      }
      PlansInTurn(before, artifacts[i], S.Plans(artifacts[i + 1..]));
    }
  }

  lemma PlansInTurn(plans: seq<SpawnPlan>, artifact: AgentArtifact, more: seq<SpawnPlan>)
    ensures artifact.PlanArtifact? ==> plans + ([artifact.plan] + more) == plans + [artifact.plan] + more
    ensures plans + ([] + more) == plans + more
  {
  }

  method ApplyPlans(limits: ExecutionLimits, scope: IsolationKey, store: ArtifactStore, graph: TaskGraph,
                    plans: seq<SpawnPlan>)
    returns (error: Option<KernelError>)
    modifies graph
    ensures (graph.View(), error) == S.ApplyPlans(limits, scope, store.artifacts, old(graph.View()), plans)
  {
    for i := 0 to |plans|
      invariant S.ApplyPlans(limits, scope, store.artifacts, old(graph.View()), plans)
             == S.ApplyPlans(limits, scope, store.artifacts, graph.View(), plans[i..])
    {
      assert plans[i..][1..] == plans[i + 1..];
      error := ValidateAndApply(limits, scope, store, graph, plans[i]);
      if error.Some? {
        return;
      }
    }
    error := None;
  }
}
