/** A failed call ends a run, unless it was made to verify or repair. */
module KernelAnswers {
  import opened KernelTypes
  import opened KernelState
  import opened ModelProvider
  import opened SemanticVerification
  import opened KernelRun
  import opened KernelRunLaws
  import FanOut
  import KernelFinalText
  import KernelUsage
  import PlanReconciliation

  /** The first `calls` calls were all answered. */
  predicate AllAnswered(replies: seq<Reply>, calls: nat) {
    forall k: nat :: k < calls ==> Ask(replies, k).Success?
  }

  // ---------------------------------------------------------------- phase by phase

  lemma {:induction false} RepairsAnswered(replies: seq<Reply>, target: nat, m: Meter, artifacts: seq<AgentArtifact>,
                                           attempts: nat)
    requires attempts <= MAX_ORCHESTRATION_REPAIR_ATTEMPTS && AllAnswered(replies, m.invocations)
    ensures var stage := RepairPlan(replies, target, m, artifacts, attempts);
      stage.Going? ==> AllAnswered(replies, stage.meter.invocations)
    decreases MAX_ORCHESTRATION_REPAIR_ATTEMPTS - attempts
  {
    var reply := Ask(replies, m.invocations);
    if reply.Success? && attempts < MAX_ORCHESTRATION_REPAIR_ATTEMPTS {
      RepairsAnswered(replies, target, Answered(m, reply.value),
                      PlanReconciliation.TruncateAll(reply.value.artifacts, target), attempts + 1);
    }
  }

  lemma PlanningAnswered(replies: seq<Reply>, target: nat, m: Meter)
    requires AllAnswered(replies, m.invocations)
    ensures var stage := PlanChildren(replies, target, m);
      stage.Going? ==> AllAnswered(replies, stage.meter.invocations)
  {
    var reply := Ask(replies, m.invocations);
    if reply.Success? {
      RepairsAnswered(replies, target, Answered(m, reply.value),
                      PlanReconciliation.TruncateAll(reply.value.artifacts, target), 0);
    }
  }

  lemma AskedAnswered(replies: seq<Reply>, r: Request, task: SubtaskSpec, st: State, m: Meter)
    requires AllAnswered(replies, m.invocations)
    ensures var stage := AskAndAbsorb(replies, r, task, st, m);
      stage.Going? ==> AllAnswered(replies, stage.meter.invocations)
  {
  }

  lemma PlanFirstAnswered(replies: seq<Reply>, r: Request, st: State, m: Meter)
    requires AllAnswered(replies, m.invocations)
    ensures var stage := PlanFirst(replies, r, st, m);
      stage.Going? ==> AllAnswered(replies, stage.meter.invocations)
  {
    PlanningAnswered(replies, r.limits.maxAgentsPerRequest, m);
    var plan := PlanChildren(replies, r.limits.maxAgentsPerRequest, m);
    if plan.Going? {
      var applied := ApplyPlanning(r, st, plan.meter, plan.value);
      if applied.Going? {
        AskedAnswered(replies, r, r.rootTask, applied.value, applied.meter);
      }
    }
  }

  lemma BeginningAnswered(replies: seq<Reply>, r: Request)
    requires r.Valid()
    ensures var stage := Begin(replies, r);
      stage.Going? ==> AllAnswered(replies, stage.meter.invocations)
  {
    var m := Meter(0, 0, 0);
    if r.effort == Direct {
      AskedAnswered(replies, r, r.rootTask, r.Start(), m);
    } else {
      RootToolGateStaysShut(replies, r, m);
      PlanFirstAnswered(replies, r, r.Start(), m);
    }
  }

  lemma FanOutAnswered(replies: seq<Reply>, r: Request, schedule: Schedule, st: State, m: Meter)
    requires AllAnswered(replies, m.invocations) && FanOutChildren(replies, r, schedule, st, m).Going?
    ensures AllAnswered(replies, FanOutChildren(replies, r, schedule, st, m).meter.invocations)
  {
    var tasks, given, p, next, m1 := KernelUsage.FannedOut(replies, r, schedule, st, m);
    GivenAnswered(replies, m.invocations, given);
  }

  lemma GivenAnswered(replies: seq<Reply>, first: nat, given: seq<Reply>)
    requires AllAnswered(replies, first)
    requires given == NextReplies(replies, first, |given|) && FanOut.AllSucceed(given)
    ensures AllAnswered(replies, first + |given|)
  {
    forall k: nat | first <= k < first + |given| ensures Ask(replies, k).Success? {
      KernelUsage.GivenAt(replies, first, |given|, k - first, k);
    }
  }

  lemma {:induction false} SynthesisAnswered(replies: seq<Reply>, m: Meter, attempt: nat)
    requires attempt <= MAX_EMPTY_SYNTHESIS_RETRY_ATTEMPTS && AllAnswered(replies, m.invocations)
    ensures var stage := SynthesizeFrom(replies, m, attempt);
      stage.Going? ==> AllAnswered(replies, stage.meter.invocations)
    decreases MAX_EMPTY_SYNTHESIS_RETRY_ATTEMPTS - attempt
  {
    var reply := Ask(replies, m.invocations);
    if reply.Success? && attempt < MAX_EMPTY_SYNTHESIS_RETRY_ATTEMPTS {
      SynthesisAnswered(replies, Answered(m, reply.value), attempt + 1);
    }
  }

  lemma PhasesAnswered(replies: seq<Reply>, r: Request, hasChildren: bool, st: State, m: Meter, c: Continued, m1: Meter,
                       summarized: bool, m2: Meter, d: Draft, m3: Meter)
    requires AllAnswered(replies, m.invocations)
    requires Continue(replies, r, hasChildren, st, m) == Going(m1, c)
    requires Summarize(replies, r, hasChildren, c.state, m1) == Going(m2, summarized)
    requires Write(replies, r, hasChildren, c, m2) == Going(m3, d)
    ensures AllAnswered(replies, m3.invocations)
  {
    AskedAnswered(replies, r, r.rootTask, st.(texts := []), m);
    assert AllAnswered(replies, m1.invocations);
    assert AllAnswered(replies, m2.invocations);
    SynthesisAnswered(replies, m2, 0);
  }

  /** What the loop adds to the calls is what it has in its log. */
  lemma CheckedCalls(verdicts: Verdicts, replies: seq<Reply>, r: Request, d: Draft, evidence: seq<AgentArtifact>,
                     m: Meter)
    ensures var v := Check(verdicts, replies, r, d, evidence, m);
      v.meter.invocations == m.invocations + |v.log|
  {
    if Verifies(r, d, LaidOut(d)) {
      VerificationIsSound(verdicts, replies, r.maxRepairs, m, LaidOut(d));
    }
  }

  // ---------------------------------------------------------------- the whole run

  lemma FinishAnswered(verdicts: Verdicts, replies: seq<Reply>, r: Request, hasChildren: bool, reconciled: bool,
                       st: State, m: Meter)
    returns (o: Output, calls: nat)
    requires AllAnswered(replies, m.invocations)
    requires Finish(verdicts, replies, r, hasChildren, reconciled, st, m).Going?
    ensures o == Finish(verdicts, replies, r, hasChildren, reconciled, st, m).value
    ensures calls + |o.verification.log| ==
            Finish(verdicts, replies, r, hasChildren, reconciled, st, m).meter.invocations
    ensures AllAnswered(replies, calls)
  {
    var c, m1, summarized, m2, d, m3, output :=
      KernelFinalText.FinishPhases(verdicts, replies, r, hasChildren, reconciled, st, m);
    o, calls := output, m3.invocations;
    PhasesAnswered(replies, r, hasChildren, st, m, c, m1, summarized, m2, d, m3);
    CheckedCalls(verdicts, replies, r, d, c.state.texts, m3);
  }

  /**
   A run that returns an output had an answer to every call but those of its verification: no failure
   of the planner, the root, a worker, the summary or a synthesis is passed over.
   */
  lemma EveryOutputHadItsAnswers(verdicts: Verdicts, replies: seq<Reply>, r: Request, schedule: Schedule)
    returns (stage: Stage<Output>, calls: nat)
    requires r.Valid() && Run(verdicts, replies, r, schedule).Going?
    ensures stage == Run(verdicts, replies, r, schedule)
    ensures calls + |stage.value.verification.log| == stage.meter.invocations
    ensures forall k: nat :: k < calls ==> Ask(replies, k).Success?
  {
    var m, begun, m1, st, run := KernelFinalText.RunPhases(verdicts, replies, r, schedule);
    stage := run;
    BeginningAnswered(replies, r);
    FanOutAnswered(replies, r, schedule, begun.state, m);
    var o;
    o, calls := FinishAnswered(verdicts, replies, r, Agents(begun.state.graph) != {}, begun.reconciled, st, m1);
  }
}
