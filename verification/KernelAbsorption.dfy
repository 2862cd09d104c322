/** What absorbing a response stores, and which fault a refused plan is refused for. */
module KernelAbsorption {
  import opened Wrappers
  import opened KernelTypes
  import opened KernelState
  import opened KernelBudgets

  // ---------------------------------------------------------------- what is stored

  type Key = (IsolationKey, string)

  function KeyOf(artifact: AgentArtifact): Key {
    (artifact.scope, artifact.id)
  }

  /** What the store keeps of an artifact: a plan only if it is taken for a text. */
  function StoredAs(artifact: AgentArtifact, maySpawn: bool): Option<AgentArtifact> {
    match artifact
    case TextArtifact(_, _, _) => Some(artifact)
    case Opaque(_, _) => Some(artifact)
    case PlanArtifact(id, scope, _, rendered) => if maySpawn then None else Some(TextArtifact(id, scope, rendered))
  }

  predicate Stores(artifact: AgentArtifact, maySpawn: bool, key: Key) {
    StoredAs(artifact, maySpawn).Some? && KeyOf(artifact) == key
  }

  /** Of all artifacts stored under a key the last one stays, and under any other key nothing changes. */
  predicate LastOneStays(before: Artifacts, after: Artifacts, artifacts: seq<AgentArtifact>, maySpawn: bool, key: Key,
                         i: int)
  {
    && -1 <= i < |artifacts|
    && (forall j :: i < j < |artifacts| ==> !Stores(artifacts[j], maySpawn, key))
    && (if i >= 0 then
          && Stores(artifacts[i], maySpawn, key)
          && key in after && after[key] == StoredAs(artifacts[i], maySpawn).value
        else (key in after <==> key in before) && (key in before ==> after[key] == before[key]))
  }

  lemma {:induction false} AbsorbedAreStored(limits: ExecutionLimits, scope: IsolationKey, task: SubtaskSpec, st: State,
                                             artifacts: seq<AgentArtifact>, key: Key)
    returns (i: int)
    requires ApplyArtifacts(limits, scope, task, st, artifacts).1 == None
    ensures LastOneStays(st.store, ApplyArtifacts(limits, scope, task, st, artifacts).0.store, artifacts, task.maySpawn,
                         key, i)
    decreases |artifacts|
  {
    if artifacts == [] {
      i := -1;
    } else {
      var next := ApplyArtifact(limits, scope, task, st, artifacts[0]).0;
      var rest := AbsorbedAreStored(limits, scope, task, next, artifacts[1..], key);
      i := if rest >= 0 then rest + 1 else if Stores(artifacts[0], task.maySpawn, key) then 0 else -1;
    }
  }

  /** The planner's other artifacts are stored the same way. */
  lemma {:induction false} OthersAreStored(store: Artifacts, artifacts: seq<AgentArtifact>, key: Key)
    returns (i: int)
    ensures LastOneStays(store, PutOthers(store, artifacts), artifacts, true, key, i)
    decreases |artifacts|
  {
    if artifacts == [] {
      i := -1;
    } else {
      var next := if artifacts[0].PlanArtifact? then store else Put(store, artifacts[0]);
      var rest := OthersAreStored(next, artifacts[1..], key);
      i := if rest >= 0 then rest + 1 else if Stores(artifacts[0], true, key) then 0 else -1;
    }
  }

  // ---------------------------------------------------------------- why a plan is refused

  /** The reference is the first that does not resolve, and the error says how. */
  predicate FirstBadRef(scope: IsolationKey, store: Artifacts, refs: seq<ArtifactRef>, k: nat, error: KernelError) {
    && k < |refs| && !RefResolves(scope, store, refs[k])
    && (forall l :: 0 <= l < k ==> RefResolves(scope, store, refs[l]))
    && error == if refs[k].scope != scope then ArtifactScopeMismatch(scope, refs[k].scope)
                else MissingArtifact(refs[k].scope, refs[k].artifactId)
  }

  lemma {:induction false} FaultOfRefs(scope: IsolationKey, store: Artifacts, refs: seq<ArtifactRef>) returns (k: nat)
    requires RefsError(scope, store, refs).Some?
    ensures FirstBadRef(scope, store, refs, k, RefsError(scope, store, refs).value)
  {
    if RefError(scope, store, refs[0]).Some? {
      k := 0;
    } else {
      var rest := FaultOfRefs(scope, store, refs[1..]);
      k := rest + 1;
    }
  }

  /** What is wrong with a child, in the order of the checks: its depth, its id, its references. */
  predicate ChildFault(limits: ExecutionLimits, scope: IsolationKey, store: Artifacts, g: Graph, child: SubtaskSpec,
                       k: nat, error: KernelError)
  {
    if child.spawnDepth > limits.maxSpawnDepth
    then error == SpawnDepthExceeded(child.taskId, child.spawnDepth, limits.maxSpawnDepth)
    else if child.taskId in g.tasks then error == DuplicateTask(child.taskId)
    else FirstBadRef(scope, store, child.inputArtifactRefs, k, error)
  }

  lemma {:induction false} FaultOfChildren(limits: ExecutionLimits, scope: IsolationKey, store: Artifacts, g: Graph,
                                           children: seq<SubtaskSpec>)
    returns (i: nat, k: nat)
    requires ChildrenError(limits, scope, store, g, children).Some?
    ensures i < |children| && ChildrenAllowed(limits, scope, store, g, children[..i])
    ensures ChildFault(limits, scope, store, g, children[i], k, ChildrenError(limits, scope, store, g, children).value)
  {
    var child := children[0];
    if ChildError(limits, scope, store, g, child).Some? {
      i, k := 0, 0;
      if child.spawnDepth <= limits.maxSpawnDepth && child.taskId !in g.tasks {
        k := FaultOfRefs(scope, store, child.inputArtifactRefs);
      }
    } else {
      RefsErrorIff(scope, store, child.inputArtifactRefs);
      var rest;
      rest, k := FaultOfChildren(limits, scope, store, g, children[1..]);
      i := rest + 1;
      assert children[..i] == [child] + children[1..][..rest];
    }
  }

  /**
   A plan that asks for too many agents is refused for that. Any other refused plan is refused for
   its first child that is not allowed, and for the first of its faults.
   */
  lemma PlanIsRefusedForItsFirstFault(limits: ExecutionLimits, scope: IsolationKey, store: Artifacts, g: Graph,
                                      plan: SpawnPlan)
    returns (i: nat, k: nat)
    requires limits.maxAgentsPerRequest < U16_MAX
    requires ValidateAndApply(limits, scope, store, g, plan).1.Some?
    ensures var requested, error :=
              |Agents(g)| + |plan.children|, ValidateAndApply(limits, scope, store, g, plan).1.value;
      if requested > limits.maxAgentsPerRequest
      then error == AgentLimitExceeded(Min(requested, U16_MAX), limits.maxAgentsPerRequest)
      else
        && i < |plan.children| && ChildrenAllowed(limits, scope, store, g, plan.children[..i])
        && ChildFault(limits, scope, store, g, plan.children[i], k, error)
  {
    i, k := 0, 0;
    if |Agents(g)| + |plan.children| <= limits.maxAgentsPerRequest {
      i, k := FaultOfChildren(limits, scope, store, g, plan.children);
    }
  }
}
