/** Which of the planner's answers a run settles on. */
module KernelPlanning {
  import opened KernelTypes
  import opened ModelProvider
  import opened PlanReconciliation
  import opened KernelRun
  import PlanLaws

  /** The children that the reply to a call asks for. */
  function Asked(replies: seq<Reply>, call: nat): seq<SubtaskSpec> {
    match Ask(replies, call)
    case Success(response) => Children(response.artifacts)
    case Failure(_) => []
  }

  /** The calls from `first` up to `last` were answered, with fewer children than the target. */
  predicate AskForTooFew(replies: seq<Reply>, first: nat, last: nat, target: nat) {
    forall k: nat :: first <= k < last ==> Ask(replies, k).Success? && |Asked(replies, k)| < target
  }

  /** A response that is cut to the target needs a repair exactly when it asks for too few children. */
  lemma RepairIffTooFew(artifacts: seq<AgentArtifact>, target: nat)
    requires target > 1
    ensures ShouldRepair(Coverage(TruncateAll(artifacts, target)), target) <==> |Children(artifacts)| < target
    ensures Children(TruncateAll(artifacts, target)) ==
            if |Children(artifacts)| <= target then Children(artifacts) else Children(artifacts)[..target]
  {
    TruncationTakesPrefix(artifacts, target);
    PlanLaws.ChildrenNeedPlans(artifacts);
  }

  /** One more answer: it settles the plan, or asks for too few and is followed by a repair. */
  lemma AnswerStep(replies: seq<Reply>, target: nat, m: Meter, artifacts: seq<AgentArtifact>, attempts: nat, after: nat)
    returns (stage: Stage<seq<AgentArtifact>>, ended: bool, next: Meter, repaired: seq<AgentArtifact>)
    requires attempts <= MAX_ORCHESTRATION_REPAIR_ATTEMPTS && after == attempts + 1
    ensures stage == RepairPlan(replies, target, m, artifacts, attempts) && next.invocations == m.invocations + 1
    ensures ended && stage.Going? ==>
      && stage == Going(m, artifacts)
      && (ShouldRepair(Coverage(artifacts), target) ==> attempts == MAX_ORCHESTRATION_REPAIR_ATTEMPTS)
    ensures !ended ==>
      && ShouldRepair(Coverage(artifacts), target) && after <= MAX_ORCHESTRATION_REPAIR_ATTEMPTS
      && Ask(replies, m.invocations).Success?
      && repaired == TruncateAll(Ask(replies, m.invocations).value.artifacts, target)
      && stage == RepairPlan(replies, target, next, repaired, after)
  {
    stage, next, repaired := RepairPlan(replies, target, m, artifacts, attempts), Failed(m), [];
    ended := !ShouldRepair(Coverage(artifacts), target) || attempts == MAX_ORCHESTRATION_REPAIR_ATTEMPTS
             || Ask(replies, m.invocations).Failure?;
    if !ended {
      next := Answered(m, Ask(replies, m.invocations).value);
      repaired := TruncateAll(Ask(replies, m.invocations).value.artifacts, target);
    }
  }

  lemma {:induction false} RepairsSettle(replies: seq<Reply>, target: nat, m: Meter, artifacts: seq<AgentArtifact>,
                                         attempts: nat, first: nat, call: nat)
    returns (stage: Stage<seq<AgentArtifact>>, last: nat)
    requires target > 1 && attempts <= MAX_ORCHESTRATION_REPAIR_ATTEMPTS
    requires call == first + attempts && m.invocations == call + 1 && AskForTooFew(replies, first, call, target)
    requires Ask(replies, call).Success? && artifacts == TruncateAll(Ask(replies, call).value.artifacts, target)
    ensures stage == RepairPlan(replies, target, m, artifacts, attempts)
    ensures stage.Going? ==> SettlesOn(replies, first, last, target, stage)
    decreases MAX_ORCHESTRATION_REPAIR_ATTEMPTS - attempts
  {
    var after, next := attempts + 1, call + 1;
    var ended, m1, repaired;
    stage, ended, m1, repaired := AnswerStep(replies, target, m, artifacts, attempts, after);
    RepairIffTooFew(Ask(replies, call).value.artifacts, target);
    last := call;
    if !ended {
      stage, last := RepairsSettle(replies, target, m1, repaired, after, first, next);
    }
  }

  /**
   The plan is the answer to call `last`, cut to the target: the first that asks for enough
   children, or the fourth.
   */
  predicate SettlesOn(replies: seq<Reply>, first: nat, last: nat, target: nat, stage: Stage<seq<AgentArtifact>>)
    requires stage.Going?
  {
    && first <= last <= first + 3 && stage.meter.invocations == last + 1
    && AskForTooFew(replies, first, last, target)
    && Ask(replies, last).Success?
    && (|Asked(replies, last)| < target ==> last == first + 3)
    && Children(stage.value) ==
       if |Asked(replies, last)| <= target then Asked(replies, last) else Asked(replies, last)[..target]
  }

  lemma PlanningSettles(replies: seq<Reply>, target: nat, m: Meter)
    returns (stage: Stage<seq<AgentArtifact>>, last: nat)
    requires target > 1
    ensures stage == PlanChildren(replies, target, m)
    ensures stage.Going? ==> SettlesOn(replies, m.invocations, last, target, stage)
  {
    stage, last := PlanChildren(replies, target, m), m.invocations;
    var reply := Ask(replies, m.invocations);
    if reply.Success? {
      stage, last := RepairsSettle(replies, target, Answered(m, reply.value),
                                   TruncateAll(reply.value.artifacts, target), 0, m.invocations, m.invocations);
    }
  }
}
