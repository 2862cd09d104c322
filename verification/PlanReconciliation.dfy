/** Bringing a planner response to the exact number of children a request is entitled to. */
module PlanReconciliation {
  import opened Wrappers
  import opened Sequences
  import opened FreshNames
  import opened KernelTypes
  import opened KernelState
  import opened KernelBudgets

  // ---------------------------------------------------------------- what a response asks for

  /** All children of all plans, in order. */
  function Children(artifacts: seq<AgentArtifact>): seq<SubtaskSpec> {
    if artifacts == [] then []
    else (if artifacts[0].PlanArtifact? then artifacts[0].plan.children else []) + Children(artifacts[1..])
  }

  datatype PlannerCoverage = PlannerCoverage(sawPlan: bool, childCount: nat)

  function Coverage(artifacts: seq<AgentArtifact>): PlannerCoverage {
    PlannerCoverage(Plans(artifacts) != [], |Children(artifacts)|)
  }

  predicate ShouldRepair(coverage: PlannerCoverage, target: nat) {
    target > 1 && (!coverage.sawPlan || coverage.childCount != target)
  }

  // ---------------------------------------------------------------- too many children

  function TruncateAll(artifacts: seq<AgentArtifact>, remaining: nat): seq<AgentArtifact> {
    if artifacts == [] then []
    else
      match artifacts[0]
      case PlanArtifact(id, scope, plan, rendered) =>
        var cut := Truncate(plan, remaining);
        [artifacts[0].(plan := cut)] + TruncateAll(artifacts[1..], remaining - |cut.children|)
      case _ => [artifacts[0]] + TruncateAll(artifacts[1..], remaining)
  }

  method NormalizeOverTarget(artifacts: seq<AgentArtifact>, target: nat) returns (normalized: seq<AgentArtifact>)
    ensures normalized == TruncateAll(artifacts, target)
  {
    normalized := artifacts;
    var remaining: nat := target;
    for i := 0 to |artifacts|
      invariant |normalized| == |artifacts| && normalized[i..] == artifacts[i..]
      invariant normalized[..i] + TruncateAll(artifacts[i..], remaining) == TruncateAll(artifacts, target)
    {
      normalized, remaining := TruncateAt(normalized, artifacts, i, remaining);
    }
  }

  method TruncateAt(normalized: seq<AgentArtifact>, ghost artifacts: seq<AgentArtifact>, i: nat, remaining: nat)
    returns (truncated: seq<AgentArtifact>, left: nat)
    requires i < |artifacts| == |normalized| && normalized[i..] == artifacts[i..]
    ensures |truncated| == |artifacts| && truncated[i + 1..] == artifacts[i + 1..]
    ensures normalized[..i] + TruncateAll(artifacts[i..], remaining)
         == truncated[..i + 1] + TruncateAll(artifacts[i + 1..], left)
  {
    TruncateStep(normalized, artifacts, i, remaining);
    truncated, left := normalized, remaining;
    if normalized[i].PlanArtifact? {
      var cut := Truncate(normalized[i].plan, remaining);
      truncated := normalized[i := normalized[i].(plan := cut)];
      left := remaining - |cut.children|;
    } else {
      assert normalized[i := normalized[i]] == normalized;
    }
  }

  function TruncateOne(artifact: AgentArtifact, remaining: nat): AgentArtifact {
    if artifact.PlanArtifact? then artifact.(plan := Truncate(artifact.plan, remaining)) else artifact
  }

  lemma TruncateStep(normalized: seq<AgentArtifact>, artifacts: seq<AgentArtifact>, i: nat, remaining: nat)
    requires i < |artifacts| == |normalized| && normalized[i..] == artifacts[i..]
    ensures var cut := TruncateOne(artifacts[i], remaining);
      var left := if cut.PlanArtifact? then remaining - |cut.plan.children| else remaining;
      && left >= 0
      && normalized[i] == artifacts[i]
      && normalized[i := cut][i + 1..] == artifacts[i + 1..]
      && normalized[..i] + TruncateAll(artifacts[i..], remaining)
         == normalized[i := cut][..i + 1] + TruncateAll(artifacts[i + 1..], left)
  {
    var cut := TruncateOne(artifacts[i], remaining);
    var left := if cut.PlanArtifact? then remaining - |cut.plan.children| else remaining;
    assert normalized[i..][0] == artifacts[i..][0];
    assert artifacts[i..][1..] == artifacts[i + 1..] && normalized[i..][1..] == artifacts[i + 1..];
    assert normalized[i := cut][..i + 1] == normalized[..i] + [cut];
    Assoc(normalized[..i], [cut], TruncateAll(artifacts[i + 1..], left));
  }

  /** Truncation across the plans is `take(target)` of the concatenated children. */
  lemma {:induction false} TruncationTakesPrefix(artifacts: seq<AgentArtifact>, target: nat)
    ensures Children(TruncateAll(artifacts, target)) == Children(artifacts)[..Min(target, |Children(artifacts)|)]
    ensures |Plans(TruncateAll(artifacts, target))| == |Plans(artifacts)|
  {
    if artifacts != [] {
      match artifacts[0]
      case PlanArtifact(_, _, plan, _) =>
        var cut := Truncate(plan, target);
        TruncationTakesPrefix(artifacts[1..], target - |cut.children|);
        TakeOfConcat(plan.children, Children(artifacts[1..]), target);
      case _ =>
        TruncationTakesPrefix(artifacts[1..], target);
    }
  }

  lemma TakeOfConcat<T>(a: seq<T>, b: seq<T>, n: nat)
    ensures (a + b)[..Min(n, |a + b|)] == a[..Min(n, |a|)] + b[..Min(n - Min(n, |a|), |b|)]
  {
  }

  // ---------------------------------------------------------------- too few children

  /** The texts that mark a cross-check in its id and in its objective. */
  datatype Wording = Wording(infix: string, prefix: string)

  const CROSSCHECK := Wording("-independent-crosscheck-", "Independently cross-check: ")

  /** The first free id for a cross-check of `base`, counting up from `start`. */
  function FreshId(w: Wording, base: string, start: nat, taken: set<string>): string {
    FreshName(base + w.infix, 2, start, taken)
  }

  function Crosscheck(w: Wording, template: SubtaskSpec, parent: string, id: string): SubtaskSpec {
    template.(taskId := id, parentTaskId := Some(parent), objective := w.prefix + template.objective)
  }

  /** The cross-check of a template under the first free id. */
  function NextCrosscheck(w: Wording, template: SubtaskSpec, parent: string, suffix: nat, taken: set<string>)
    : SubtaskSpec
  {
    Crosscheck(w, template, parent, FreshId(w, template.taskId, suffix, taken))
  }

  /** `templates[offset % templates.len()]` */
  function Cycle(templates: seq<SubtaskSpec>, offset: nat): SubtaskSpec
    requires templates != []
  {
    if offset < |templates| then templates[offset] else Cycle(templates, offset - |templates|)
  }

  /** The children that are added, from `offset` on, to the `current` ones. */
  function Additions(w: Wording, templates: seq<SubtaskSpec>, parent: string, current: nat, offset: nat, missing: nat,
                     taken: set<string>)
    : (added: seq<SubtaskSpec>)
    requires templates != [] && offset <= missing
    ensures |added| == missing - offset
    decreases missing - offset
  {
    if offset == missing then []
    else
      var child := NextCrosscheck(w, Cycle(templates, offset), parent, current + offset + 1, taken);
      [child] + Additions(w, templates, parent, current, offset + 1, missing, taken + {child.taskId})
  }

  function AddToFirstPlan(artifacts: seq<AgentArtifact>, added: seq<SubtaskSpec>): seq<AgentArtifact> {
    if artifacts == [] then []
    else if artifacts[0].PlanArtifact?
    then [artifacts[0].(plan := artifacts[0].plan.(children := artifacts[0].plan.children + added))] + artifacts[1..]
    else [artifacts[0]] + AddToFirstPlan(artifacts[1..], added)
  }

  function Reconcile(artifacts: seq<AgentArtifact>, target: nat): seq<AgentArtifact> {
    var templates := Children(artifacts);
    var current := |templates|;
    if current == 0 || current >= target then artifacts
    else
      PlanExists(artifacts);
      AddToFirstPlan(artifacts,
        Additions(CROSSCHECK, templates, Plans(artifacts)[0].parentTaskId, current, 0, target - current,
                  Ids(templates)))
  }

  lemma {:induction false} PlanExists(artifacts: seq<AgentArtifact>)
    requires Children(artifacts) != []
    ensures Plans(artifacts) != []
  {
    if !artifacts[0].PlanArtifact? {
      PlanExists(artifacts[1..]);
    }
  }

  method ReconcileUnderTarget(artifacts: seq<AgentArtifact>, target: nat)
    returns (reconciled: seq<AgentArtifact>, added: nat)
    ensures reconciled == Reconcile(artifacts, target)
    ensures added == if 0 < |Children(artifacts)| < target then target - |Children(artifacts)| else 0
  {
    var templates := Children(artifacts);
    var current := |templates|;
    if current == 0 || current >= target {
      return artifacts, 0;
    }
    PlanExists(artifacts);
    var parent := Plans(artifacts)[0].parentTaskId;
    var missing := target - current;
    var children := AddCrosschecks(CROSSCHECK, templates, parent, current, missing, Ids(templates));
    return AddToFirstPlan(artifacts, children), missing;
  }

  method AddCrosschecks(w: Wording, templates: seq<SubtaskSpec>, parent: string, current: nat, missing: nat,
                        ids: set<string>)
    returns (children: seq<SubtaskSpec>)
    requires templates != []
    ensures children == Additions(w, templates, parent, current, 0, missing, ids)
  {
    children := [];
    var taken := ids;
    for offset := 0 to missing
      invariant Additions(w, templates, parent, current, 0, missing, ids)
             == children + Additions(w, templates, parent, current, offset, missing, taken)
    {
      children, taken := AddOne(w, templates, parent, current, offset, missing, children, taken);
    }
    assert children + [] == children;
  }

  /** One iteration: the next child, under an id that is then taken too. */
  method AddOne(w: Wording, templates: seq<SubtaskSpec>, parent: string, current: nat, offset: nat, missing: nat,
                children: seq<SubtaskSpec>, taken: set<string>)
    returns (more: seq<SubtaskSpec>, after: set<string>)
    requires templates != [] && offset < missing
    ensures children + Additions(w, templates, parent, current, offset, missing, taken)
         == more + Additions(w, templates, parent, current, offset + 1, missing, after)
  {
    var template := Cycle(templates, offset);
    var id := FindFreshName(template.taskId + w.infix, 2, current + offset + 1, taken);
    var child := Crosscheck(w, template, parent, id);
    AdditionsStep(w, templates, parent, current, offset, missing, taken, children);
    more, after := children + [child], taken + {id};
  }

  lemma AdditionsStep(w: Wording, templates: seq<SubtaskSpec>, parent: string, current: nat, offset: nat, missing: nat,
                      taken: set<string>, children: seq<SubtaskSpec>)
    requires templates != [] && offset < missing
    ensures var child := NextCrosscheck(w, Cycle(templates, offset), parent, current + offset + 1, taken);
      children + Additions(w, templates, parent, current, offset, missing, taken)
        == children + [child] + Additions(w, templates, parent, current, offset + 1, missing, taken + {child.taskId})
  {
    var child := NextCrosscheck(w, Cycle(templates, offset), parent, current + offset + 1, taken);
    Assoc(children, [child], Additions(w, templates, parent, current, offset + 1, missing, taken + {child.taskId}));
  }
}
