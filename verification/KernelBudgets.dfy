/** Spawn and tool budgets, over every run of provider and planner responses. */
module KernelBudgets {
  import opened Wrappers
  import opened KernelTypes
  import opened KernelState

  // ---------------------------------------------------------------- when a plan is accepted

  predicate RefResolves(scope: IsolationKey, store: Artifacts, r: ArtifactRef) {
    r.scope == scope && (scope, r.artifactId) in store
  }

  predicate RefsResolve(scope: IsolationKey, store: Artifacts, refs: seq<ArtifactRef>) {
    forall i :: 0 <= i < |refs| ==> RefResolves(scope, store, refs[i])
  }

  /** What a spawned task must satisfy in its request. */
  predicate TaskAllowed(limits: ExecutionLimits, scope: IsolationKey, store: Artifacts, task: SubtaskSpec) {
    task.spawnDepth <= limits.maxSpawnDepth && RefsResolve(scope, store, task.inputArtifactRefs)
  }

  lemma {:induction false} RefsErrorIff(scope: IsolationKey, store: Artifacts, refs: seq<ArtifactRef>)
    ensures RefsError(scope, store, refs) == None <==> RefsResolve(scope, store, refs)
    ensures RefsError(scope, store, refs) != None ==>
              RefsError(scope, store, refs).value.ArtifactScopeMismatch?
              || RefsError(scope, store, refs).value.MissingArtifact?
  {
    if refs != [] {
      RefsErrorIff(scope, store, refs[1..]);
      if RefsResolve(scope, store, refs[1..]) && RefError(scope, store, refs[0]) == None {
        assert forall i :: 1 <= i < |refs| ==> refs[i] == refs[1..][i - 1];
      }
    }
  }

  predicate ChildAllowed(limits: ExecutionLimits, scope: IsolationKey, store: Artifacts, g: Graph, child: SubtaskSpec) {
    child.taskId !in g.tasks && TaskAllowed(limits, scope, store, child)
  }

  predicate ChildrenAllowed(limits: ExecutionLimits, scope: IsolationKey, store: Artifacts, g: Graph,
                            children: seq<SubtaskSpec>) {
    forall i :: 0 <= i < |children| ==> ChildAllowed(limits, scope, store, g, children[i])
  }

  lemma {:induction false} ChildrenErrorIff(limits: ExecutionLimits, scope: IsolationKey, store: Artifacts, g: Graph,
                                            children: seq<SubtaskSpec>)
    ensures ChildrenError(limits, scope, store, g, children) == None
       <==> ChildrenAllowed(limits, scope, store, g, children)
    ensures var error := ChildrenError(limits, scope, store, g, children);
      error.Some? ==> !error.value.AgentLimitExceeded?
  {
    if children != [] {
      RefsErrorIff(scope, store, children[0].inputArtifactRefs);
      ChildrenErrorIff(limits, scope, store, g, children[1..]);
      if ChildrenAllowed(limits, scope, store, g, children[1..]) && ChildAllowed(limits, scope, store, g, children[0]) {
        assert forall i :: 1 <= i < |children| ==> children[i] == children[1..][i - 1];
      }
    }
  }

  /**
   A plan is accepted exactly when it fits the agent cap and each child fits the depth cap, is
   new to the graph, and refers only to stored artifacts of the request's own scope. Two children
   of one plan with the same id are accepted.
   */
  lemma PlanAcceptedIff(limits: ExecutionLimits, scope: IsolationKey, store: Artifacts, g: Graph, plan: SpawnPlan)
    requires limits.maxAgentsPerRequest < U16_MAX
    ensures ValidateAndApply(limits, scope, store, g, plan).1 == None <==>
              && |Agents(g)| + |plan.children| <= limits.maxAgentsPerRequest
              && ChildrenAllowed(limits, scope, store, g, plan.children)
    ensures ValidateAndApply(limits, scope, store, g, plan).1 != None ==>
              ValidateAndApply(limits, scope, store, g, plan).0 == g
  {
    ChildrenErrorIff(limits, scope, store, g, plan.children);
  }

  // ---------------------------------------------------------------- what insertion does

  function Ids(children: seq<SubtaskSpec>): set<string> {
    if children == [] then {} else {children[0].taskId} + Ids(children[1..])
  }

  lemma {:induction false} IdsMembers(children: seq<SubtaskSpec>)
    ensures forall i :: 0 <= i < |children| ==> children[i].taskId in Ids(children)
  {
    if children != [] {
      IdsMembers(children[1..]);
      forall i | 0 <= i < |children| ensures children[i].taskId in Ids(children) {
        if i > 0 {
          assert children[1..][i - 1].taskId in Ids(children[1..]);
        }
      }
    }
  }

  lemma {:induction false} IdAt(children: seq<SubtaskSpec>, id: string) returns (i: nat)
    requires id in Ids(children)
    ensures i < |children| && children[i].taskId == id
  {
    if id == children[0].taskId {
      i := 0;
    } else {
      i := IdAt(children[1..], id);
      i := i + 1;
    }
  }

  predicate DistinctIds(children: seq<SubtaskSpec>) {
    forall i, j :: 0 <= i < j < |children| ==> children[i].taskId != children[j].taskId
  }

  predicate AllHaveParents(children: seq<SubtaskSpec>) {
    forall i :: 0 <= i < |children| ==> children[i].parentTaskId.Some?
  }

  lemma {:induction false} IdsCount(children: seq<SubtaskSpec>)
    ensures |Ids(children)| <= |children|
    ensures |Ids(children)| == |children| <==> DistinctIds(children)
  {
    if children != [] {
      IdsCount(children[1..]);
      IdsMembers(children[1..]);
      if children[0].taskId in Ids(children[1..]) {
        assert Ids(children) == Ids(children[1..]);
        var i := IdAt(children[1..], children[0].taskId);
        assert children[i + 1].taskId == children[0].taskId;
      } else if DistinctIds(children[1..]) {
        assert forall j :: 0 < j < |children| ==> children[j] == children[1..][j - 1];
      }
      assert DistinctIds(children) ==> DistinctIds(children[1..]);
    }
  }

  /** Insertion touches only the keys of the inserted tasks. */
  lemma {:induction false} InsertTasksKeys(g: Graph, children: seq<SubtaskSpec>)
    ensures InsertTasks(g, children).tasks.Keys == g.tasks.Keys + Ids(children)
    ensures InsertTasks(g, children).rootTaskId == g.rootTaskId
    ensures forall id :: id in g.tasks && id !in Ids(children) ==> InsertTasks(g, children).tasks[id] == g.tasks[id]
    decreases |children|
  {
    if children != [] {
      InsertTasksKeys(InsertTask(g, children[0]), children[1..]);
    }
  }

  /** And every inserted key holds one of the inserted tasks. */
  lemma {:induction false} InsertTasksValues(g: Graph, children: seq<SubtaskSpec>, id: string)
    requires id in Ids(children)
    ensures id in InsertTasks(g, children).tasks
    ensures exists i :: 0 <= i < |children| && children[i].taskId == id
                        && InsertTasks(g, children).tasks[id] == children[i]
    decreases |children|
  {
    var next := InsertTask(g, children[0]);
    InsertTasksKeys(next, children[1..]);
    if id in Ids(children[1..]) {
      InsertTasksValues(next, children[1..], id);
      var i :| 0 <= i < |children[1..]| && children[1..][i].taskId == id
               && InsertTasks(next, children[1..]).tasks[id] == children[1..][i];
      assert children[i + 1].taskId == id;
    } else {
      assert children[0].taskId == id;
    }
  }

  /** What a task depends on. */
  function DependsOn(g: Graph, id: string): set<string> {
    if id in g.dependencies then g.dependencies[id] else {}
  }

  /** The parents that a list of tasks gives to one task. */
  function ParentsGiven(children: seq<SubtaskSpec>, id: string): set<string> {
    set i | 0 <= i < |children| && children[i].taskId == id && children[i].parentTaskId.Some?
      :: children[i].parentTaskId.value
  }

  function Parent(task: SubtaskSpec): set<string> {
    if task.parentTaskId.Some? then {task.parentTaskId.value} else {}
  }

  lemma ParentsGivenCons(children: seq<SubtaskSpec>, id: string)
    requires children != []
    ensures ParentsGiven(children, id) ==
            (if children[0].taskId == id then Parent(children[0]) else {}) + ParentsGiven(children[1..], id)
  {
    forall parent | parent in ParentsGiven(children[1..], id) ensures parent in ParentsGiven(children, id) {
      var i :| 0 <= i < |children[1..]| && children[1..][i].taskId == id
               && children[1..][i].parentTaskId == Some(parent);
      assert children[i + 1].parentTaskId == Some(parent);
    }
    forall parent | parent in ParentsGiven(children, id) && parent !in ParentsGiven(children[1..], id)
      ensures children[0].taskId == id && children[0].parentTaskId == Some(parent)
    {
      var i :| 0 <= i < |children| && children[i].taskId == id && children[i].parentTaskId == Some(parent);
      if i > 0 {
        assert children[1..][i - 1].parentTaskId == Some(parent);
      }
    }
  }

  /** Inserting tasks adds to the dependencies of each of them the parents it is given, and nothing else. */
  lemma {:induction false} DependenciesAfterInsert(g: Graph, children: seq<SubtaskSpec>, id: string)
    ensures DependsOn(InsertTasks(g, children), id) == DependsOn(g, id) + ParentsGiven(children, id)
    decreases |children|
  {
    if children != [] {
      ParentsGivenCons(children, id);
      DependenciesAfterInsert(InsertTask(g, children[0]), children[1..], id);
    }
  }

  lemma AgentsAfterInsert(g: Graph, children: seq<SubtaskSpec>)
    ensures Agents(InsertTasks(g, children)) <= Agents(g) + Ids(children)
    ensures |Agents(InsertTasks(g, children))| <= |Agents(g)| + |children|
  {
    InsertTasksKeys(g, children);
    IdsCount(children);
    SubsetSize(Agents(InsertTasks(g, children)), Agents(g) + Ids(children));
    UnionSize(Agents(g), Ids(children));
  }

  lemma SubsetSize<T>(a: set<T>, b: set<T>)
    requires a <= b
    ensures |a| <= |b|
    ensures |a| == |b| ==> a == b
  {
    assert b == a + (b - a);
  }

  lemma UnionSize<T>(a: set<T>, b: set<T>)
    ensures |a + b| <= |a| + |b|
    ensures a !! b ==> |a + b| == |a| + |b|
  {
  }

  lemma CoversUnion<T>(a: set<T>, b: set<T>, c: set<T>)
    requires b <= a && c <= a && a <= b + c && b !! c
    ensures |a| == |b| + |c|
  {
    assert a == b + c;
  }

  /** Distinct tasks all arrive as they are. */
  lemma DistinctArrive(g: Graph, children: seq<SubtaskSpec>, i: nat)
    requires DistinctIds(children) && i < |children|
    ensures children[i].taskId in InsertTasks(g, children).tasks
    ensures InsertTasks(g, children).tasks[children[i].taskId] == children[i]
  {
    IdsMembers(children);
    InsertTasksValues(g, children, children[i].taskId);
    var j :| 0 <= j < |children| && children[j].taskId == children[i].taskId
             && InsertTasks(g, children).tasks[children[i].taskId] == children[j];
    assert i == j;
  }

  /**
   Inserting tasks that are new to the graph adds one agent for each of them exactly when their
   ids are distinct and all have a parent.
   */
  lemma AddsEveryAgentIff(g: Graph, children: seq<SubtaskSpec>)
    requires AllNew(g, children)
    ensures |Agents(InsertTasks(g, children))| == |Agents(g)| + |children|
       <==> DistinctIds(children) && AllHaveParents(children)
  {
    if DistinctIds(children) && AllHaveParents(children) {
      DistinctParentedAddAll(g, children);
    } else if |Agents(InsertTasks(g, children))| == |Agents(g)| + |children| {
      FullCountMeansAllAdded(g, children);
    }
  }

  predicate AllNew(g: Graph, children: seq<SubtaskSpec>) {
    forall i :: 0 <= i < |children| ==> children[i].taskId !in g.tasks
  }

  lemma NewIds(g: Graph, children: seq<SubtaskSpec>)
    requires AllNew(g, children)
    ensures g.tasks.Keys !! Ids(children)
  {
    forall id | id in Ids(children) ensures id !in g.tasks {
      var i := IdAt(children, id);
    }
  }

  lemma NewIdsAreApart(g: Graph, children: seq<SubtaskSpec>)
    requires AllNew(g, children)
    ensures Agents(g) !! Ids(children)
    ensures Agents(g) <= Agents(InsertTasks(g, children))
  {
    NewIds(g, children);
    InsertTasksKeys(g, children);
  }

  lemma DistinctParentedArrive(g: Graph, children: seq<SubtaskSpec>)
    requires DistinctIds(children) && AllHaveParents(children)
    ensures Ids(children) <= Agents(InsertTasks(g, children))
  {
    forall id | id in Ids(children) ensures id in Agents(InsertTasks(g, children)) {
      var i := IdAt(children, id);
      DistinctArrive(g, children, i);
    }
  }

  lemma DistinctParentedAddAll(g: Graph, children: seq<SubtaskSpec>)
    requires AllNew(g, children) && DistinctIds(children) && AllHaveParents(children)
    ensures |Agents(InsertTasks(g, children))| == |Agents(g)| + |children|
  {
    NewIdsAreApart(g, children);
    AgentsAfterInsert(g, children);
    DistinctParentedArrive(g, children);
    CoversUnion(Agents(InsertTasks(g, children)), Agents(g), Ids(children));
    IdsCount(children);
  }

  lemma FullCountMeansAllAdded(g: Graph, children: seq<SubtaskSpec>)
    requires AllNew(g, children)
    requires |Agents(InsertTasks(g, children))| == |Agents(g)| + |children|
    ensures DistinctIds(children) && AllHaveParents(children)
  {
    var after := InsertTasks(g, children);
    NewIdsAreApart(g, children);
    AgentsAfterInsert(g, children);
    UnionSize(Agents(g), Ids(children));
    IdsCount(children);
    SubsetSize(Agents(after), Agents(g) + Ids(children));
    IdsMembers(children);
    forall i | 0 <= i < |children| ensures children[i].parentTaskId.Some? {
      DistinctArrive(g, children, i);
      assert children[i].taskId in Agents(after);
    }
  }

  // ---------------------------------------------------------------- the invariant

  /**
   The budgets of one request. Every task but the root has bounded depth and resolvable
   references, the root is the task the request began with, and both counters are within their caps.
   */
  ghost predicate InBudget(limits: ExecutionLimits, scope: IsolationKey, root: SubtaskSpec, st: State) {
    && |st.calls| <= limits.maxTotalToolCalls
    && |Agents(st.graph)| <= limits.maxAgentsPerRequest
    && root.taskId in st.graph.tasks && st.graph.tasks[root.taskId] == root
    && forall id :: id in st.graph.tasks && id != root.taskId ==>
                      TaskAllowed(limits, scope, st.store, st.graph.tasks[id])
  }

  lemma GrowingStoreKeepsAllowed(limits: ExecutionLimits, scope: IsolationKey, store: Artifacts, more: Artifacts,
                                 task: SubtaskSpec)
    requires store.Keys <= more.Keys && TaskAllowed(limits, scope, store, task)
    ensures TaskAllowed(limits, scope, more, task)
  {
    forall i | 0 <= i < |task.inputArtifactRefs| ensures RefResolves(scope, more, task.inputArtifactRefs[i]) {
      assert RefResolves(scope, store, task.inputArtifactRefs[i]);
      assert (scope, task.inputArtifactRefs[i].artifactId) in store.Keys;
    }
  }

  lemma GrowingStoreKeepsBudget(limits: ExecutionLimits, scope: IsolationKey, root: SubtaskSpec, st: State, more: State)
    requires InBudget(limits, scope, root, st)
    requires more.graph == st.graph && st.store.Keys <= more.store.Keys && |more.calls| <= limits.maxTotalToolCalls
    ensures InBudget(limits, scope, root, more)
  {
    forall id | id in more.graph.tasks && id != root.taskId
      ensures TaskAllowed(limits, scope, more.store, more.graph.tasks[id])
    {
      GrowingStoreKeepsAllowed(limits, scope, st.store, more.store, st.graph.tasks[id]);
    }
  }

  lemma AcceptedPlanKeepsBudget(limits: ExecutionLimits, scope: IsolationKey, root: SubtaskSpec, st: State,
                                plan: SpawnPlan)
    requires InBudget(limits, scope, root, st) && limits.maxAgentsPerRequest < U16_MAX
    ensures var (g, error) := ValidateAndApply(limits, scope, st.store, st.graph, plan);
      InBudget(limits, scope, root, st.(graph := g))
  {
    var (g, error) := ValidateAndApply(limits, scope, st.store, st.graph, plan);
    PlanAcceptedIff(limits, scope, st.store, st.graph, plan);
    if error == None {
      InsertedTasksAllowed(limits, scope, root, st, plan.children);
      AgentsAfterInsert(st.graph, plan.children);
    }
  }

  lemma InsertedTasksAllowed(limits: ExecutionLimits, scope: IsolationKey, root: SubtaskSpec, st: State,
                             children: seq<SubtaskSpec>)
    requires InBudget(limits, scope, root, st) && ChildrenAllowed(limits, scope, st.store, st.graph, children)
    ensures var g := InsertTasks(st.graph, children);
      && root.taskId in g.tasks && g.tasks[root.taskId] == root
      && forall id :: id in g.tasks && id != root.taskId ==> TaskAllowed(limits, scope, st.store, g.tasks[id])
  {
    var g := InsertTasks(st.graph, children);
    InsertTasksKeys(st.graph, children);
    assert AllNew(st.graph, children) by {
      assert forall i :: 0 <= i < |children| ==> ChildAllowed(limits, scope, st.store, st.graph, children[i]);
    }
    NewIds(st.graph, children);
    forall id | id in g.tasks && id != root.taskId ensures TaskAllowed(limits, scope, st.store, g.tasks[id]) {
      if id in Ids(children) {
        InsertTasksValues(st.graph, children, id);
        var i :| 0 <= i < |children| && children[i].taskId == id && g.tasks[id] == children[i];
        assert ChildAllowed(limits, scope, st.store, st.graph, children[i]);
      }
    }
  }

  /** Truncation to the remaining room makes the agent-limit error unreachable. */
  lemma TruncatedPlanFits(limits: ExecutionLimits, scope: IsolationKey, st: State, plan: SpawnPlan)
    requires |Agents(st.graph)| <= limits.maxAgentsPerRequest
    ensures var error := ApplyPlan(limits, scope, st, plan).1;
      error.Some? ==> !error.value.AgentLimitExceeded?
  {
    var cut := Truncate(plan, Room(limits, st.graph));
    ChildrenErrorIff(limits, scope, st.store, st.graph, cut.children);
  }

  lemma ApplyArtifactKeepsBudget(limits: ExecutionLimits, scope: IsolationKey, root: SubtaskSpec, task: SubtaskSpec,
                                 st: State, artifact: AgentArtifact)
    requires InBudget(limits, scope, root, st) && limits.maxAgentsPerRequest < U16_MAX
    ensures var (next, error) := ApplyArtifact(limits, scope, task, st, artifact);
      InBudget(limits, scope, root, next) && (error.Some? ==> !error.value.AgentLimitExceeded?)
  {
    var next := ApplyArtifact(limits, scope, task, st, artifact).0;
    if artifact.PlanArtifact? && task.maySpawn {
      TruncatedPlanFits(limits, scope, st, artifact.plan);
      AcceptedPlanKeepsBudget(limits, scope, root, st, Truncate(artifact.plan, Room(limits, st.graph)));
    } else {
      GrowingStoreKeepsBudget(limits, scope, root, st, next);
    }
  }

  lemma {:induction false} ApplyArtifactsKeepBudget(limits: ExecutionLimits, scope: IsolationKey, root: SubtaskSpec,
                                                    task: SubtaskSpec, st: State, artifacts: seq<AgentArtifact>)
    requires InBudget(limits, scope, root, st) && limits.maxAgentsPerRequest < U16_MAX
    ensures var (next, error) := ApplyArtifacts(limits, scope, task, st, artifacts);
      InBudget(limits, scope, root, next) && (error.Some? ==> !error.value.AgentLimitExceeded?)
    decreases |artifacts|
  {
    if artifacts != [] {
      ApplyArtifactKeepsBudget(limits, scope, root, task, st, artifacts[0]);
      var (next, error) := ApplyArtifact(limits, scope, task, st, artifacts[0]);
      if error == None {
        ApplyArtifactsKeepBudget(limits, scope, root, task, next, artifacts[1..]);
      }
    }
  }

  lemma {:induction false} RecordCallsCount(calls: Calls, records: seq<ToolCallRecord>)
    ensures |RecordCalls(calls, records)| <= |calls| + |records|
    ensures calls.Keys <= RecordCalls(calls, records).Keys
    decreases |records|
  {
    if records != [] {
      var key := (records[0].scope, records[0].toolCallId);
      var next := calls[key := records[0]];
      assert next.Keys == calls.Keys + {key};
      assert |next| == |next.Keys| && |calls| == |calls.Keys|;
      UnionSize(calls.Keys, {key});
      RecordCallsCount(next, records[1..]);
    }
  }

  /** Absorbing a response keeps every budget, whether it succeeds or fails, and never runs into the agent cap. */
  lemma AbsorbKeepsBudget(limits: ExecutionLimits, scope: IsolationKey, root: SubtaskSpec, task: SubtaskSpec, st: State,
                          response: ProviderResponse)
    requires InBudget(limits, scope, root, st) && limits.maxAgentsPerRequest < U16_MAX
    ensures var (next, error) := Absorb(limits, scope, task, st, response);
      InBudget(limits, scope, root, next) && (error.Some? ==> !error.value.AgentLimitExceeded?)
  {
    if |st.calls| + |response.toolCalls| <= limits.maxTotalToolCalls {
      var recorded := st.(calls := RecordCalls(st.calls, response.toolCalls));
      RecordCallsCount(st.calls, response.toolCalls);
      GrowingStoreKeepsBudget(limits, scope, root, st, recorded);
      ApplyArtifactsKeepBudget(limits, scope, root, task, recorded, response.artifacts);
    }
  }

  // ---------------------------------------------------------------- planner responses

  lemma {:induction false} PutOthersKeeps(store: Artifacts, artifacts: seq<AgentArtifact>)
    ensures store.Keys <= PutOthers(store, artifacts).Keys
    decreases |artifacts|
  {
    if artifacts != [] {
      PutOthersKeeps(if artifacts[0].PlanArtifact? then store else Put(store, artifacts[0]), artifacts[1..]);
    }
  }

  lemma {:induction false} ApplyPlansKeepBudget(limits: ExecutionLimits, scope: IsolationKey, root: SubtaskSpec,
                                                st: State, plans: seq<SpawnPlan>)
    requires InBudget(limits, scope, root, st) && limits.maxAgentsPerRequest < U16_MAX
    ensures InBudget(limits, scope, root, st.(graph := ApplyPlans(limits, scope, st.store, st.graph, plans).0))
    decreases |plans|
  {
    if plans != [] {
      AcceptedPlanKeepsBudget(limits, scope, root, st, plans[0]);
      var (g, error) := ValidateAndApply(limits, scope, st.store, st.graph, plans[0]);
      if error == None {
        ApplyPlansKeepBudget(limits, scope, root, st.(graph := g), plans[1..]);
      }
    }
  }

  lemma AbsorbPlansKeepsBudget(limits: ExecutionLimits, scope: IsolationKey, root: SubtaskSpec, st: State,
                               artifacts: seq<AgentArtifact>)
    requires InBudget(limits, scope, root, st) && limits.maxAgentsPerRequest < U16_MAX
    ensures InBudget(limits, scope, root, AbsorbPlans(limits, scope, st, artifacts).0)
  {
    var stored := st.(store := PutOthers(st.store, artifacts));
    PutOthersKeeps(st.store, artifacts);
    GrowingStoreKeepsBudget(limits, scope, root, st, stored);
    ApplyPlansKeepBudget(limits, scope, root, stored, Plans(artifacts));
  }

  // ---------------------------------------------------------------- runs

  datatype Step = Respond(task: SubtaskSpec, response: ProviderResponse) | Plan(artifacts: seq<AgentArtifact>)

  function Apply(limits: ExecutionLimits, scope: IsolationKey, st: State, step: Step): State {
    match step
    case Respond(task, response) => Absorb(limits, scope, task, st, response).0
    case Plan(artifacts) => AbsorbPlans(limits, scope, st, artifacts).0
  }

  function Run(limits: ExecutionLimits, scope: IsolationKey, st: State, steps: seq<Step>): State
    decreases |steps|
  {
    if steps == [] then st else Run(limits, scope, Apply(limits, scope, st, steps[0]), steps[1..])
  }

  /** The state a request begins with: its media in the store, and the root alone in the graph. */
  function Initial(root: SubtaskSpec, media: Artifacts): State {
    State(media, map[], InsertTask(Graph(root.taskId, map[], map[]), root), [])
  }

  lemma {:induction false} RunKeepsBudget(limits: ExecutionLimits, scope: IsolationKey, root: SubtaskSpec, st: State,
                                          steps: seq<Step>)
    requires InBudget(limits, scope, root, st) && limits.maxAgentsPerRequest < U16_MAX
    ensures InBudget(limits, scope, root, Run(limits, scope, st, steps))
    decreases |steps|
  {
    if steps != [] {
      match steps[0] {
        case Respond(task, response) => AbsorbKeepsBudget(limits, scope, root, task, st, response);
        case Plan(artifacts) => AbsorbPlansKeepsBudget(limits, scope, root, st, artifacts);
      }
      RunKeepsBudget(limits, scope, root, Apply(limits, scope, st, steps[0]), steps[1..]);
    }
  }

  /**
   Whatever the provider returns, in any order and even after failures: the tasks with a parent
   stay within the agent cap, spawned tasks within the depth cap and with resolvable references,
   recorded calls within the tool budget, and the root task is never replaced.
   */
  lemma EveryRunStaysInBudget(limits: ExecutionLimits, scope: IsolationKey, root: SubtaskSpec, media: Artifacts,
                              steps: seq<Step>)
    requires limits.maxAgentsPerRequest < U16_MAX && root.parentTaskId == None
    ensures InBudget(limits, scope, root, Run(limits, scope, Initial(root, media), steps))
  {
    assert Agents(Initial(root, media).graph) == {};
    RunKeepsBudget(limits, scope, root, Initial(root, media), steps);
  }
}
