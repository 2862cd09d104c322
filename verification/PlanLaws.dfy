/** How many children, and which, a planner response hands over. */
module PlanLaws {
  import opened Wrappers
  import opened Sequences
  import opened FreshNames
  import opened KernelTypes
  import opened KernelState
  import opened KernelBudgets
  import opened PlanReconciliation

  // ---------------------------------------------------------------- the added children

  lemma {:induction false} IdsConcat(a: seq<SubtaskSpec>, b: seq<SubtaskSpec>)
    ensures Ids(a + b) == Ids(a) + Ids(b)
  {
    if a == [] {
      assert a + b == b;
    } else {
      assert (a + b)[1..] == a[1..] + b;
      IdsConcat(a[1..], b);
    }
  }

  /** Added children have ids that are new, and all different. */
  lemma {:induction false} AdditionsAreFresh(w: Wording, templates: seq<SubtaskSpec>, parent: string, current: nat,
                                             offset: nat, missing: nat, taken: set<string>)
    requires templates != [] && offset <= missing
    ensures var added := Additions(w, templates, parent, current, offset, missing, taken);
      Ids(added) !! taken && |Ids(added)| == missing - offset && AllHaveParents(added)
    decreases missing - offset
  {
    if offset < missing {
      var template := Cycle(templates, offset);
      var child := NextCrosscheck(w, template, parent, current + offset + 1, taken);
      FreshNameIsFree(template.taskId + w.infix, 2, current + offset + 1, taken);
      AdditionsAreFresh(w, templates, parent, current, offset + 1, missing, taken + {child.taskId});
      FreshInFront(child, Additions(w, templates, parent, current, offset + 1, missing, taken + {child.taskId}), taken);
    }
  }

  lemma FreshInFront(child: SubtaskSpec, rest: seq<SubtaskSpec>, taken: set<string>)
    requires child.taskId !in taken && child.parentTaskId.Some?
    requires Ids(rest) !! taken + {child.taskId} && AllHaveParents(rest)
    ensures Ids([child] + rest) !! taken && |Ids([child] + rest)| == 1 + |Ids(rest)| && AllHaveParents([child] + rest)
  {
    IdsConcat([child], rest);
    assert Ids([child]) == {child.taskId};
    UnionSize({child.taskId}, Ids(rest));
    ParentsConcat([child], rest);
  }

  /** The first plan grows; every other artifact stays. */
  lemma {:induction false} ChildrenAfterAdding(artifacts: seq<AgentArtifact>, added: seq<SubtaskSpec>)
    returns (front: seq<SubtaskSpec>, back: seq<SubtaskSpec>)
    requires Plans(artifacts) != []
    ensures front == Plans(artifacts)[0].children && Children(artifacts) == front + back
    ensures Children(AddToFirstPlan(artifacts, added)) == front + added + back
  {
    if artifacts[0].PlanArtifact? {
      front, back := artifacts[0].plan.children, Children(artifacts[1..]);
    } else {
      front, back := ChildrenAfterAdding(artifacts[1..], added);
      var after := AddToFirstPlan(artifacts, added);
      assert after[1..] == AddToFirstPlan(artifacts[1..], added);
    }
  }

  lemma ParentsConcat(a: seq<SubtaskSpec>, b: seq<SubtaskSpec>)
    ensures AllHaveParents(a + b) <==> AllHaveParents(a) && AllHaveParents(b)
  {
    assert forall i :: 0 <= i < |a| ==> (a + b)[i] == a[i];
    assert forall i :: 0 <= i < |b| ==> (a + b)[|a| + i] == b[i];
  }

  lemma CountsAfterAdding(front: seq<SubtaskSpec>, added: seq<SubtaskSpec>, back: seq<SubtaskSpec>)
    requires Ids(added) !! Ids(front + back) && |Ids(added)| == |added| && AllHaveParents(added)
    ensures DistinctIds(front + added + back) <==> DistinctIds(front + back)
    ensures AllHaveParents(front + added + back) <==> AllHaveParents(front + back)
  {
    IdsConcat(front, back);
    IdsConcat(front + added, back);
    IdsConcat(front, added);
    assert Ids(front + added + back) == Ids(front + back) + Ids(added);
    UnionSize(Ids(front + back), Ids(added));
    IdsCount(front + back);
    IdsCount(front + added + back);
    ParentsConcat(front, back);
    ParentsConcat(front + added, back);
    ParentsConcat(front, added);
  }

  /**
   Reconciliation brings a response that has some but too few children to exactly the target,
   and neither loses nor creates a clash of ids or a missing parent.
   */
  lemma ReconcileReachesTarget(artifacts: seq<AgentArtifact>, target: nat)
    ensures var children := Children(Reconcile(artifacts, target));
      && |children| == (if 0 < |Children(artifacts)| < target then target else |Children(artifacts)|)
      && (DistinctIds(children) <==> DistinctIds(Children(artifacts)))
      && (AllHaveParents(children) <==> AllHaveParents(Children(artifacts)))
  {
    var templates := Children(artifacts);
    var current := |templates|;
    if 0 < current < target {
      PlanExists(artifacts);
      var parent := Plans(artifacts)[0].parentTaskId;
      var added := Additions(CROSSCHECK, templates, parent, current, 0, target - current, Ids(templates));
      AdditionsAreFresh(CROSSCHECK, templates, parent, current, 0, target - current, Ids(templates));
      var front, back := ChildrenAfterAdding(artifacts, added);
      CountsAfterAdding(front, added, back);
    }
  }

  // ---------------------------------------------------------------- what is handed over

  /** The response that planning ends with: reconciled if it still misses the target. */
  function Settled(artifacts: seq<AgentArtifact>, target: nat): seq<AgentArtifact> {
    if ShouldRepair(Coverage(artifacts), target) then Reconcile(artifacts, target) else artifacts
  }

  lemma {:induction false} ChildrenNeedPlans(artifacts: seq<AgentArtifact>)
    ensures Plans(artifacts) == [] ==> Children(artifacts) == []
  {
    if artifacts != [] {
      ChildrenNeedPlans(artifacts[1..]);
    }
  }

  /**
   A response that was cut to the target is refused exactly when it has no children at all;
   every other one hands over exactly the target.
   */
  lemma SettledIsExactOrRefused(artifacts: seq<AgentArtifact>, target: nat)
    requires target > 1 && |Children(artifacts)| <= target
    ensures ShouldRepair(Coverage(Settled(artifacts, target)), target) <==> Children(artifacts) == []
    ensures Children(artifacts) != [] ==> |Children(Settled(artifacts, target))| == target
  {
    var settled := Settled(artifacts, target);
    ReconcileReachesTarget(artifacts, target);
    ChildrenNeedPlans(settled);
    ChildrenNeedPlans(artifacts);
  }

  /** When all plans are accepted, all their children are inserted, and all of them were new. */
  lemma {:induction false} AcceptedPlansInsertAll(limits: ExecutionLimits, scope: IsolationKey, store: Artifacts,
                                                  g: Graph, plans: seq<SpawnPlan>)
    requires limits.maxAgentsPerRequest < U16_MAX
    requires ApplyPlans(limits, scope, store, g, plans).1 == None
    ensures ApplyPlans(limits, scope, store, g, plans).0 == InsertTasks(g, ChildrenOf(plans))
    ensures AllNew(g, ChildrenOf(plans))
    decreases |plans|
  {
    if plans != [] {
      var (next, error) := ValidateAndApply(limits, scope, store, g, plans[0]);
      PlanAcceptedIff(limits, scope, store, g, plans[0]);
      AcceptedPlansInsertAll(limits, scope, store, next, plans[1..]);
      InsertTasksConcat(g, plans[0].children, ChildrenOf(plans[1..]));
      InsertTasksKeys(g, plans[0].children);
      AllowedAreNew(limits, scope, store, g, plans[0].children);
      NewConcat(g, plans[0].children, ChildrenOf(plans[1..]));
    }
  }

  lemma AllowedAreNew(limits: ExecutionLimits, scope: IsolationKey, store: Artifacts, g: Graph,
                      children: seq<SubtaskSpec>)
    requires ChildrenAllowed(limits, scope, store, g, children)
    ensures AllNew(g, children)
  {
    assert forall i :: 0 <= i < |children| ==> ChildAllowed(limits, scope, store, g, children[i]);
  }

  lemma NewConcat(g: Graph, a: seq<SubtaskSpec>, b: seq<SubtaskSpec>)
    requires AllNew(g, a) && AllNew(InsertTasks(g, a), b)
    ensures AllNew(g, a + b)
  {
    InsertTasksKeys(g, a);
    forall i | 0 <= i < |a + b| ensures (a + b)[i].taskId !in g.tasks {
      if i >= |a| {
        assert b[i - |a|].taskId !in InsertTasks(g, a).tasks.Keys;
      }
    }
  }

  function ChildrenOf(plans: seq<SpawnPlan>): seq<SubtaskSpec> {
    if plans == [] then [] else plans[0].children + ChildrenOf(plans[1..])
  }

  lemma {:induction false} ChildrenArePlanChildren(artifacts: seq<AgentArtifact>)
    ensures Children(artifacts) == ChildrenOf(Plans(artifacts))
  {
    if artifacts != [] {
      ChildrenArePlanChildren(artifacts[1..]);
      var rest := Plans(artifacts[1..]);
      if artifacts[0].PlanArtifact? {
        DropPrefix([artifacts[0].plan], rest);
      } else {
        assert [] + rest == rest && [] + Children(artifacts[1..]) == Children(artifacts[1..]);
      }
    }
  }

  lemma {:induction false} InsertTasksConcat(g: Graph, a: seq<SubtaskSpec>, b: seq<SubtaskSpec>)
    ensures InsertTasks(g, a + b) == InsertTasks(InsertTasks(g, a), b)
    decreases |a|
  {
    if a == [] {
      assert a + b == b;
    } else {
      assert (a + b)[1..] == a[1..] + b;
      InsertTasksConcat(InsertTask(g, a[0]), a[1..], b);
    }
  }

  /**
   Exact child count: for whatever response planning ends with, if its plans are accepted then
   the request has exactly the configured number of agents, precisely when the model gave its
   children distinct ids and every one of them a parent.
   */
  lemma ExactChildCount(limits: ExecutionLimits, scope: IsolationKey, root: SubtaskSpec, store: Artifacts,
                        artifacts: seq<AgentArtifact>)
    requires 1 < limits.maxAgentsPerRequest < U16_MAX && root.parentTaskId == None
    requires 0 < |Children(artifacts)| <= limits.maxAgentsPerRequest
    requires var target := limits.maxAgentsPerRequest;
      ApplyPlans(limits, scope, store, Initial(root, map[]).graph, Plans(Settled(artifacts, target))).1 == None
    ensures var target := limits.maxAgentsPerRequest;
      var g := ApplyPlans(limits, scope, store, Initial(root, map[]).graph, Plans(Settled(artifacts, target))).0;
      |Agents(g)| == target <==> DistinctIds(Children(artifacts)) && AllHaveParents(Children(artifacts))
  {
    var target, g := limits.maxAgentsPerRequest, Initial(root, map[]).graph;
    var settled := Settled(artifacts, target);
    assert Agents(g) == {};
    SettledIsExactOrRefused(artifacts, target);
    ReconcileReachesTarget(artifacts, target);
    AcceptedPlansInsertAll(limits, scope, store, g, Plans(settled));
    ChildrenArePlanChildren(settled);
    AddsEveryAgentIff(g, Children(settled));
  }
}
