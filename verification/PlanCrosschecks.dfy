/** Which cross-checks reconciliation adds to a plan with too few children. */
module PlanCrosschecks {
  import opened Wrappers
  import opened KernelTypes
  import opened KernelState
  import opened KernelBudgets
  import opened PlanReconciliation
  import Decimal
  import FreshNames
  import PlanLaws

  /** The templates are taken in turn, over and over. */
  lemma {:induction false} TemplatesAreTakenInTurn(templates: seq<SubtaskSpec>, i: nat, rounds: nat)
    requires i < |templates|
    ensures Cycle(templates, i + rounds * |templates|) == templates[i]
    decreases rounds
  {
    if rounds > 0 {
      var n := |templates|;
      assert i + rounds * n - n == i + (rounds - 1) * n;
      TemplatesAreTakenInTurn(templates, i, rounds - 1);
    }
  }

  /**
   The child repeats the template under another id, for another parent and with a marked objective:
   its depth, references, capabilities and limits are those of the template. Its number is at least
   `first`.
   */
  ghost predicate Repeats(w: Wording, child: SubtaskSpec, template: SubtaskSpec, parent: string, first: nat) {
    && (exists number: nat :: number >= first
                              && child.taskId == template.taskId + w.infix + Decimal.ZeroPadded(number, 2))
    && child.parentTaskId == Some(parent)
    && child.objective == w.prefix + template.objective
    && child.spawnDepth == template.spawnDepth && child.inputArtifactRefs == template.inputArtifactRefs
    && child.maySpawn == template.maySpawn && child.limits == template.limits
  }

  lemma NextRepeats(w: Wording, template: SubtaskSpec, parent: string, first: nat, taken: set<string>)
    returns (child: SubtaskSpec)
    ensures child == NextCrosscheck(w, template, parent, first, taken)
    ensures Repeats(w, child, template, parent, first)
  {
    child := NextCrosscheck(w, template, parent, first, taken);
    var number := FreshNames.Search(template.taskId + w.infix, 2, first, taken, |taken|);
  }

  /** The additions from `offset` on: the first of them, and the others. */
  lemma FirstAddition(w: Wording, templates: seq<SubtaskSpec>, parent: string, current: nat, offset: nat, next: nat,
                      missing: nat, taken: set<string>, first: nat)
    returns (child: SubtaskSpec, more: set<string>, added: seq<SubtaskSpec>, rest: seq<SubtaskSpec>)
    requires templates != [] && offset < missing && next == offset + 1 && first == current + next
    ensures Repeats(w, child, Cycle(templates, offset), parent, first)
    ensures added == Additions(w, templates, parent, current, offset, missing, taken) && added == [child] + rest
    ensures rest == Additions(w, templates, parent, current, next, missing, more)
  {
    child := NextRepeats(w, Cycle(templates, offset), parent, first, taken);
    more := taken + {child.taskId};
    added := Additions(w, templates, parent, current, offset, missing, taken);
    rest := Additions(w, templates, parent, current, next, missing, more);
  }

  /** Each child repeats the next template. */
  ghost predicate AllRepeat(w: Wording, added: seq<SubtaskSpec>, templates: seq<SubtaskSpec>, parent: string,
                            current: nat, offset: nat)
    requires templates != []
  {
    added != [] ==>
    && Repeats(w, added[0], Cycle(templates, offset), parent, current + offset + 1)
    && AllRepeat(w, added[1..], templates, parent, current, offset + 1)
  }

  lemma AllRepeatCons(w: Wording, child: SubtaskSpec, rest: seq<SubtaskSpec>, templates: seq<SubtaskSpec>,
                      parent: string, current: nat, offset: nat, next: nat, first: nat)
    requires templates != [] && next == offset + 1 && first == current + next
    requires Repeats(w, child, Cycle(templates, offset), parent, first)
    requires AllRepeat(w, rest, templates, parent, current, next)
    ensures AllRepeat(w, [child] + rest, templates, parent, current, offset)
  {
    assert ([child] + rest)[1..] == rest;
    assert first == current + offset + 1;
  }

  lemma {:induction false} AdditionsRepeat(w: Wording, templates: seq<SubtaskSpec>, parent: string, current: nat,
                                           offset: nat, missing: nat, taken: set<string>)
    returns (added: seq<SubtaskSpec>)
    requires templates != [] && offset <= missing
    ensures added == Additions(w, templates, parent, current, offset, missing, taken)
    ensures AllRepeat(w, added, templates, parent, current, offset)
    decreases missing - offset
  {
    if offset == missing {
      added := [];
    } else {
      var next, first := offset + 1, current + (offset + 1);
      var child, more, all, rest :=
        FirstAddition(w, templates, parent, current, offset, next, missing, taken, first);
      var others := AdditionsRepeat(w, templates, parent, current, next, missing, more);
      added := all;
      AllRepeatCons(w, child, rest, templates, parent, current, offset, next, first);
    }
  }

  lemma {:induction false} RepeatAt(w: Wording, added: seq<SubtaskSpec>, templates: seq<SubtaskSpec>, parent: string,
                                    current: nat, offset: nat, i: nat, k: nat, first: nat)
    requires templates != [] && i < |added| && k == offset + i && first == current + k + 1
    requires AllRepeat(w, added, templates, parent, current, offset)
    ensures Repeats(w, added[i], Cycle(templates, k), parent, first)
    decreases i
  {
    if i > 0 {
      RepeatAt(w, added[1..], templates, parent, current, offset + 1, i - 1, k, first);
    }
  }

  /** In the kernel's words. */
  ghost predicate Crosschecks(child: SubtaskSpec, template: SubtaskSpec, parent: string, first: nat) {
    Repeats(Wording("-independent-crosscheck-", "Independently cross-check: "), child, template, parent, first)
  }

  lemma InTheKernelsWords(w: Wording, child: SubtaskSpec, template: SubtaskSpec, parent: string, first: nat)
    requires w == CROSSCHECK && Repeats(w, child, template, parent, first)
    ensures Crosschecks(child, template, parent, first)
  {
  }

  lemma AddedRepeat(w: Wording, templates: seq<SubtaskSpec>, parent: string, missing: nat, i: nat, rounds: nat, k: nat,
                    first: nat)
    returns (added: seq<SubtaskSpec>)
    requires k == i + rounds * |templates| && i < |templates| && k < missing && first == |templates| + k + 1
    ensures added == Additions(w, templates, parent, |templates|, 0, missing, Ids(templates))
    ensures Repeats(w, added[k], templates[i], parent, first)
  {
    added := AdditionsRepeat(w, templates, parent, |templates|, 0, missing, Ids(templates));
    RepeatAt(w, added, templates, parent, |templates|, 0, k, k, first);
    TemplatesAreTakenInTurn(templates, i, rounds);
  }

  /**
   Some but too few children: behind the children of the first plan comes one cross-check for each
   that is missing, of the given children in turn.
   */
  lemma ReconciliationCrosschecksInTurn(artifacts: seq<AgentArtifact>, target: nat, i: nat, rounds: nat, k: nat)
    returns (front: seq<SubtaskSpec>, added: seq<SubtaskSpec>, back: seq<SubtaskSpec>)
    requires 0 < |Children(artifacts)| < target
    requires k == i + rounds * |Children(artifacts)| && i < |Children(artifacts)|
    requires k < target - |Children(artifacts)|
    ensures Plans(artifacts) != [] && front == Plans(artifacts)[0].children && Children(artifacts) == front + back
    ensures Children(Reconcile(artifacts, target)) == front + added + back
    ensures |added| == target - |Children(artifacts)|
    ensures Crosschecks(added[k], Children(artifacts)[i], Plans(artifacts)[0].parentTaskId,
                        |Children(artifacts)| + k + 1)
  {
    var templates := Children(artifacts);
    PlanExists(artifacts);
    var parent, missing, first := Plans(artifacts)[0].parentTaskId, target - |templates|, |templates| + k + 1;
    added := AddedRepeat(CROSSCHECK, templates, parent, missing, i, rounds, k, first);
    front, back := PlanLaws.ChildrenAfterAdding(artifacts, added);
    InTheKernelsWords(CROSSCHECK, added[k], templates[i], parent, first);
  }
}
