/** What a run reports as used: one response and its tokens for every reply it got. */
module KernelUsage {
  import opened Wrappers
  import opened KernelTypes
  import opened KernelState
  import opened ModelProvider
  import opened SemanticVerification
  import opened TaskOrder
  import opened KernelRun
  import opened KernelRunLaws
  import FanOut
  import KernelFinalText
  import PlanReconciliation

  // ---------------------------------------------------------------- the replies of a run

  function TokensOf(reply: Reply): nat {
    match reply
    case Success(response) => response.tokens
    case Failure(_) => 0
  }

  /** The responses among the first `calls` replies, and the tokens they used. */
  function ResponsesTo(replies: seq<Reply>, calls: nat): nat {
    if calls == 0 then 0
    else
      var before := calls - 1;
      ResponsesTo(replies, before) + (if Ask(replies, before).Success? then 1 else 0)
  }

  function TokensUsed(replies: seq<Reply>, calls: nat): nat {
    if calls == 0 then 0
    else
      var before := calls - 1;
      TokensUsed(replies, before) + TokensOf(Ask(replies, before))
  }

  /** Every response is counted once, with its tokens. */
  predicate Counts(replies: seq<Reply>, m: Meter) {
    m.responses == ResponsesTo(replies, m.invocations) && m.tokens == TokensUsed(replies, m.invocations)
  }

  // ---------------------------------------------------------------- one call at a time

  lemma OneCall(replies: seq<Reply>, m: Meter)
    requires Counts(replies, m)
    ensures Counts(replies, Metered(m, Ask(replies, m.invocations)))
    ensures Ask(replies, m.invocations).Failure? ==> Counts(replies, Failed(m))
  {
    var next := m.invocations + 1;
    assert ResponsesTo(replies, next) == ResponsesTo(replies, m.invocations)
                                         + (if Ask(replies, m.invocations).Success? then 1 else 0);
    assert TokensUsed(replies, next) == TokensUsed(replies, m.invocations) + TokensOf(Ask(replies, m.invocations));
  }

  lemma {:induction false} RepairPlanCounts(replies: seq<Reply>, target: nat, m: Meter, artifacts: seq<AgentArtifact>,
                                            attempts: nat)
    requires attempts <= MAX_ORCHESTRATION_REPAIR_ATTEMPTS && Counts(replies, m)
    ensures Counts(replies, RepairPlan(replies, target, m, artifacts, attempts).meter)
    decreases MAX_ORCHESTRATION_REPAIR_ATTEMPTS - attempts
  {
    OneCall(replies, m);
    var reply := Ask(replies, m.invocations);
    if reply.Success? && attempts < MAX_ORCHESTRATION_REPAIR_ATTEMPTS {
      RepairPlanCounts(replies, target, Answered(m, reply.value),
                       PlanReconciliation.TruncateAll(reply.value.artifacts, target), attempts + 1);
    }
  }

  lemma PlanningCounts(replies: seq<Reply>, target: nat, m: Meter)
    requires Counts(replies, m)
    ensures Counts(replies, PlanChildren(replies, target, m).meter)
  {
    OneCall(replies, m);
    var reply := Ask(replies, m.invocations);
    if reply.Success? {
      RepairPlanCounts(replies, target, Answered(m, reply.value),
                       PlanReconciliation.TruncateAll(reply.value.artifacts, target), 0);
    }
  }

  lemma AskedCounts(replies: seq<Reply>, r: Request, task: SubtaskSpec, st: State, m: Meter)
    requires Counts(replies, m)
    ensures Counts(replies, AskAndAbsorb(replies, r, task, st, m).meter)
  {
    OneCall(replies, m);
  }

  lemma PlanFirstCounts(replies: seq<Reply>, r: Request, st: State, m: Meter)
    requires Counts(replies, m)
    ensures Counts(replies, PlanFirst(replies, r, st, m).meter)
  {
    PlanningCounts(replies, r.limits.maxAgentsPerRequest, m);
    var plan := PlanChildren(replies, r.limits.maxAgentsPerRequest, m);
    if plan.Going? {
      var applied := ApplyPlanning(r, st, plan.meter, plan.value);
      if applied.Going? {
        AskedCounts(replies, r, r.rootTask, applied.value, applied.meter);
      }
    }
  }

  lemma BeginningCounts(replies: seq<Reply>, r: Request)
    requires r.Valid()
    ensures Counts(replies, Begin(replies, r).meter)
  {
    var m := Meter(0, 0, 0);
    if r.effort == Direct {
      AskedCounts(replies, r, r.rootTask, r.Start(), m);
    } else {
      RootToolGateStaysShut(replies, r, m);
      PlanFirstCounts(replies, r, r.Start(), m);
    }
  }

  // ---------------------------------------------------------------- the fan-out

  lemma {:induction false} GivenAt(replies: seq<Reply>, first: nat, count: nat, i: nat, call: nat)
    requires i < count && call == first + i
    ensures NextReplies(replies, first, count)[i] == Ask(replies, call)
    decreases count
  {
    if i > 0 {
      GivenAt(replies, first + 1, count - 1, i - 1, call);
    }
  }

  function ResultTokens(results: seq<FanOut.Indexed>): nat {
    if results == [] then 0 else results[0].1.tokens + ResultTokens(results[1..])
  }

  lemma {:induction false} AbsorbedUsage(r: Request, p: FanOut.Progress, tasks: seq<SubtaskSpec>,
                                         results: seq<FanOut.Indexed>)
    requires forall i :: 0 <= i < |results| ==> results[i].0 < |tasks|
    ensures var (next, error) := FanOut.AbsorbAll(r.limits, r.scope, p, tasks, results);
      error == None ==>
        next.responses == p.responses + |results| && next.tokens == p.tokens + ResultTokens(results)
    decreases |results|
  {
    if results != [] {
      var (index, response) := results[0];
      var (state, error) := Absorb(r.limits, r.scope, tasks[index], p.state, response);
      if error == None {
        AbsorbedUsage(r, FanOut.Progress(state, p.responses + 1, p.tokens + response.tokens), tasks, results[1..]);
      }
    }
  }

  /** The replies from number `i` on, in task order, are the calls from `call` on. */
  lemma {:induction false} TaskOrderUsage(replies: seq<Reply>, first: nat, given: seq<Reply>, i: nat, call: nat,
                                          last: nat)
    requires i <= |given| && call == first + i && last == first + |given|
    requires given == NextReplies(replies, first, |given|) && FanOut.AllSucceed(given)
    ensures TokensUsed(replies, last) == TokensUsed(replies, call) + ResultTokens(FanOut.InTaskOrder(given, i))
    ensures ResponsesTo(replies, last) == ResponsesTo(replies, call) + |FanOut.InTaskOrder(given, i)|
    decreases |given| - i
  {
    if i < |given| {
      var next := call + 1;
      GivenAt(replies, first, |given|, i, call);
      TaskOrderUsage(replies, first, given, i + 1, next, last);
      assert TokensUsed(replies, next) == TokensUsed(replies, call) + TokensOf(Ask(replies, call));
      assert ResponsesTo(replies, next) == ResponsesTo(replies, call) + 1;
    }
  }

  lemma OneByOneCounts(replies: seq<Reply>, r: Request, p: FanOut.Progress, m: Meter, tasks: seq<SubtaskSpec>,
                       given: seq<Reply>, calls: nat)
    requires Counts(replies, m) && p.responses == m.responses && p.tokens == m.tokens
    requires given == NextReplies(replies, m.invocations, |tasks|) && FanOut.AllSucceed(given)
    requires calls == m.invocations + |tasks|
    ensures var (next, error) := FanOut.OneByOne(r.limits, r.scope, p, tasks, given);
      error == None ==> Counts(replies, Meter(calls, next.responses, next.tokens))
  {
    FanOut.TaskOrderIndices(given, 0);
    AbsorbedUsage(r, p, tasks, FanOut.InTaskOrder(given, 0));
    TaskOrderUsage(replies, m.invocations, given, 0, m.invocations, calls);
  }

  /** A fan-out that goes on had an answer for every child, and absorbed them one by one in task order. */
  lemma FannedOut(replies: seq<Reply>, r: Request, schedule: Schedule, st: State, m: Meter)
    returns (tasks: seq<SubtaskSpec>, given: seq<Reply>, p: FanOut.Progress, next: FanOut.Progress, m1: Meter)
    requires FanOutChildren(replies, r, schedule, st, m).Going?
    ensures given == NextReplies(replies, m.invocations, |tasks|) && FanOut.AllSucceed(given)
    ensures p == FanOut.Progress(st, m.responses, m.tokens)
    ensures FanOut.OneByOne(r.limits, r.scope, p, tasks, given) == (next, None)
    ensures m1 == Meter(m.invocations + |tasks|, next.responses, next.tokens)
    ensures FanOutChildren(replies, r, schedule, st, m) == Going(m1, next.state)
  {
    tasks := ChildTasks(st.graph);
    given := NextReplies(replies, m.invocations, |tasks|);
    p := FanOut.Progress(st, m.responses, m.tokens);
    FanOut.FanOutIsScheduleIndependent(r.limits, r.scope, p, tasks, given, CompletionOrder(schedule, |tasks|));
    next := FanOut.OneByOne(r.limits, r.scope, p, tasks, given).0;
    m1 := Meter(m.invocations + |tasks|, next.responses, next.tokens);
  }

  lemma FanOutCounts(replies: seq<Reply>, r: Request, schedule: Schedule, st: State, m: Meter)
    returns (m1: Meter)
    requires Counts(replies, m) && FanOutChildren(replies, r, schedule, st, m).Going?
    ensures m1 == FanOutChildren(replies, r, schedule, st, m).meter && Counts(replies, m1)
  {
    var tasks, given, p, next, after := FannedOut(replies, r, schedule, st, m);
    m1 := after;
    OneByOneCounts(replies, r, p, m, tasks, given, m1.invocations);
  }

  // ---------------------------------------------------------------- the end of a run

  lemma {:induction false} SynthesisCounts(replies: seq<Reply>, m: Meter, attempt: nat)
    requires attempt <= MAX_EMPTY_SYNTHESIS_RETRY_ATTEMPTS && Counts(replies, m)
    ensures Counts(replies, SynthesizeFrom(replies, m, attempt).meter)
    decreases MAX_EMPTY_SYNTHESIS_RETRY_ATTEMPTS - attempt
  {
    OneCall(replies, m);
    var reply := Ask(replies, m.invocations);
    if reply.Success? && attempt < MAX_EMPTY_SYNTHESIS_RETRY_ATTEMPTS {
      SynthesisCounts(replies, Answered(m, reply.value), attempt + 1);
    }
  }

  lemma {:induction false} LoopCounts(verdicts: Verdicts, replies: seq<Reply>, maxRepairs: nat, attempts: nat, m: Meter,
                                      candidate: string)
    returns (v: Verification)
    requires attempts <= maxRepairs && Counts(replies, m)
    ensures v == VerifyFrom(verdicts, replies, maxRepairs, attempts, m, candidate) && Counts(replies, v.meter)
    decreases maxRepairs - attempts
  {
    var verifier := Ask(replies, m.invocations);
    OneCall(replies, m);
    v := VerifyFrom(verdicts, replies, maxRepairs, attempts, m, candidate);
    var judgement := Judge(verdicts, candidate, verifier);
    if judgement.Rejected? && attempts < maxRepairs {
      var m1, after := Metered(m, verifier), attempts + 1;
      OneCall(replies, m1);
      var exchange, outcome := RepairEnds(verdicts, replies, maxRepairs, attempts, after, m1, candidate,
                                          judgement.issues, judgement.covered);
      if outcome.Success? {
        var rest := LoopCounts(verdicts, replies, maxRepairs, after, Metered(m1, exchange.reply), outcome.value);
      }
    }
  }

  lemma FinishCounts(verdicts: Verdicts, replies: seq<Reply>, r: Request, hasChildren: bool, reconciled: bool,
                     st: State, m: Meter)
    requires Counts(replies, m) && Finish(verdicts, replies, r, hasChildren, reconciled, st, m).Going?
    ensures Counts(replies, Finish(verdicts, replies, r, hasChildren, reconciled, st, m).meter)
  {
    var c, m1, summarized, m2, d, m3, o :=
      KernelFinalText.FinishPhases(verdicts, replies, r, hasChildren, reconciled, st, m);
    AskedCounts(replies, r, r.rootTask, st.(texts := []), m);
    OneCall(replies, m1);
    SynthesisCounts(replies, m2, 0);
    if Verifies(r, d, LaidOut(d)) {
      var v := LoopCounts(verdicts, replies, r.maxRepairs, 0, m3, LaidOut(d));
    }
  }

  /**
   Every run that returns an output reports exactly what it used: as many responses as there are
   among the replies to its calls, and the sum of their tokens; no call is missed or counted twice,
   whatever the schedule.
   */
  lemma EveryOutputReportsItsUsage(verdicts: Verdicts, replies: seq<Reply>, r: Request, schedule: Schedule)
    requires r.Valid() && Run(verdicts, replies, r, schedule).Going?
    ensures var m := Run(verdicts, replies, r, schedule).meter;
      m.responses == ResponsesTo(replies, m.invocations) && m.tokens == TokensUsed(replies, m.invocations)
  {
    var m, begun, m1, st, stage := KernelFinalText.RunPhases(verdicts, replies, r, schedule);
    BeginningCounts(replies, r);
    var fanned := FanOutCounts(replies, r, schedule, begun.state, m);
    FinishCounts(verdicts, replies, r, Agents(begun.state.graph) != {}, begun.reconciled, st, m1);
  }
}
