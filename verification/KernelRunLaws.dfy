/** What every run of the kernel satisfies, whatever the provider answers. */
module KernelRunLaws {
  import opened Wrappers
  import opened RustText
  import opened KernelTypes
  import opened KernelState
  import opened ModelProvider
  import opened PlanReconciliation
  import opened SemanticVerification
  import opened TaskOrder
  import opened KernelRun
  import Budgets = KernelBudgets
  import Decimal
  import FanOut
  import Plans = PlanLaws

  // ---------------------------------------------------------------- orchestration

  lemma StartInBudget(r: Request)
    requires r.Valid()
    ensures Budgets.InBudget(r.limits, r.scope, r.rootTask, r.Start())
    ensures r.limits.maxAgentsPerRequest < U16_MAX
  {
    assert Agents(r.Start().graph) == {};
  }

  lemma AskAndAbsorbStays(replies: seq<Reply>, r: Request, task: SubtaskSpec, st: State, m: Meter)
    requires r.Valid() && Budgets.InBudget(r.limits, r.scope, r.rootTask, st)
    ensures var stage := AskAndAbsorb(replies, r, task, st, m);
      && stage.meter.invocations == m.invocations + 1
      && (stage.Going? ==> Budgets.InBudget(r.limits, r.scope, r.rootTask, stage.value))
  {
    StartInBudget(r);
    match Ask(replies, m.invocations)
    case Failure(_) =>
    case Success(response) => Budgets.AbsorbKeepsBudget(r.limits, r.scope, r.rootTask, task, st, response);
  }

  lemma ApplyPlanningStays(r: Request, st: State, m: Meter, artifacts: seq<AgentArtifact>)
    requires r.Valid() && Budgets.InBudget(r.limits, r.scope, r.rootTask, st)
    ensures var stage := ApplyPlanning(r, st, m, artifacts);
      && stage.meter == m
      && (stage.Going? ==> Budgets.InBudget(r.limits, r.scope, r.rootTask, stage.value))
  {
    StartInBudget(r);
    Budgets.AbsorbPlansKeepsBudget(r.limits, r.scope, r.rootTask, st,
                                   Plans.Settled(artifacts, r.limits.maxAgentsPerRequest));
  }

  /** A run without the gate and without a preface: plan, and ask the root when the plan gave no agents. */
  function PlanFirst(replies: seq<Reply>, r: Request, st: State, m: Meter): Stage<Orchestrated> {
    match PlanChildren(replies, r.limits.maxAgentsPerRequest, m)
    case Stopped(m1, error) => Stopped(m1, error)
    case Going(m1, artifacts) =>
      var reconciled := ShouldRepair(Coverage(artifacts), r.limits.maxAgentsPerRequest);
      match ApplyPlanning(r, st, m1, artifacts)
      case Stopped(m2, error) => Stopped(m2, error)
      case Going(m2, planned) =>
        if Agents(planned.graph) != {} then Going(m2, Orchestrated(planned, reconciled, false))
        else
          match AskAndAbsorb(replies, r, r.rootTask, planned, m2)
          case Stopped(m3, error) => Stopped(m3, error)
          case Going(m3, asked) => Going(m3, Orchestrated(asked, reconciled, true))
  }

  /**
   The gate that would ask the root before any planning never opens, and no answer of the root is
   ever held back as a preface: for every request that is not direct, whatever its tools and tool
   results, orchestration is planning first and the root only after a plan without agents.
   */
  lemma RootToolGateStaysShut(replies: seq<Reply>, r: Request, m: Meter)
    requires r.Valid() && r.effort != Direct
    ensures OpenGate(replies, r, r.Start(), m) == Going(m, Gated(r.Start(), []))
    ensures Orchestrate(replies, r, r.Start(), m) == PlanFirst(replies, r, r.Start(), m)
  {
    assert Agents(r.Start().graph) == {};
    assert RootResolved(r, r.Start());
  }

  /** Planning first makes at most four planning calls, and one more exactly when the plan gave no agents. */
  lemma PlanFirstIsBounded(replies: seq<Reply>, r: Request, st: State, m: Meter)
    requires r.Valid() && Budgets.InBudget(r.limits, r.scope, r.rootTask, st)
    ensures var stage := PlanFirst(replies, r, st, m);
      && m.invocations + 1 <= stage.meter.invocations <= m.invocations + 5
      && (stage.Going? ==>
            && Budgets.InBudget(r.limits, r.scope, r.rootTask, stage.value.state)
            && stage.meter.invocations <= m.invocations + 4 + (if stage.value.rootAsked then 1 else 0))
  {
    PlanningIsBounded(replies, r.limits.maxAgentsPerRequest, m);
    var plan := PlanChildren(replies, r.limits.maxAgentsPerRequest, m);
    if plan.Going? {
      ApplyPlanningStays(r, st, plan.meter, plan.value);
      var applied := ApplyPlanning(r, st, plan.meter, plan.value);
      if applied.Going? {
        AskAndAbsorbStays(replies, r, r.rootTask, applied.value, applied.meter);
      }
    }
  }

  lemma BeginningIsBounded(replies: seq<Reply>, r: Request)
    requires r.Valid()
    ensures var stage := Begin(replies, r);
      && 1 <= stage.meter.invocations <= 5
      && (r.effort == Direct ==> stage.meter.invocations == 1)
      && (stage.Going? ==>
            && Budgets.InBudget(r.limits, r.scope, r.rootTask, stage.value.state)
            && (!stage.value.rootAsked ==> stage.meter.invocations <= 4))
  {
    StartInBudget(r);
    AskAndAbsorbStays(replies, r, r.rootTask, r.Start(), Meter(0, 0, 0));
    if r.effort != Direct {
      RootToolGateStaysShut(replies, r, Meter(0, 0, 0));
      PlanFirstIsBounded(replies, r, r.Start(), Meter(0, 0, 0));
    }
  }

  /**
   Exact child count, over a whole planning phase: whatever the planner and its repairs answered,
   an accepted plan gives exactly as many agents as the effort is entitled to, precisely when the
   model's own children have distinct ids and all have parents.
   */
  lemma PlannedAgentsAreExact(replies: seq<Reply>, r: Request)
    requires r.Valid() && r.effort != Direct
    requires var plan := PlanChildren(replies, r.limits.maxAgentsPerRequest, Meter(0, 0, 0));
             plan.Going? && ApplyPlanning(r, r.Start(), plan.meter, plan.value).Going?
    ensures var plan := PlanChildren(replies, r.limits.maxAgentsPerRequest, Meter(0, 0, 0));
      var planned := ApplyPlanning(r, r.Start(), plan.meter, plan.value).value;
      |Agents(planned.graph)| == MaxAgents(r.effort) <==>
        Budgets.DistinctIds(Children(plan.value)) && Budgets.AllHaveParents(Children(plan.value))
  {
    var target := r.limits.maxAgentsPerRequest;
    PlanningIsBounded(replies, target, Meter(0, 0, 0));
    var plan := PlanChildren(replies, target, Meter(0, 0, 0));
    Plans.SettledIsExactOrRefused(plan.value, target);
    Plans.ExactChildCount(r.limits, r.scope, r.rootTask, PutOthers(r.media, Plans.Settled(plan.value, target)),
                          plan.value);
  }

  // ---------------------------------------------------------------- the rest

  /** What the end of a run can cost: tools, summary and three attempts to synthesize with workers, and the loop. */
  function FinishCost(r: Request, hasChildren: bool): nat {
    (if hasChildren && r.rootToolsAvailable then 1 else 0) + (if hasChildren && r.publicReasoning then 1 else 0)
    + (if hasChildren then 3 else 0) + CheckCost(r)
  }

  function CheckCost(r: Request): nat {
    if r.semanticVerification && r.effort != Direct then 2 * r.maxRepairs + 1 else 0
  }

  lemma FinishIsBounded(verdicts: Verdicts, replies: seq<Reply>, r: Request, hasChildren: bool, reconciled: bool,
                        st: State, m: Meter)
    ensures var stage := Finish(verdicts, replies, r, hasChildren, reconciled, st, m);
      stage.meter.invocations <= m.invocations + FinishCost(r, hasChildren)
  {
    var continued := Continue(replies, r, hasChildren, st, m);
    if continued.Going? {
      var c := continued.value;
      var summarized := Summarize(replies, r, hasChildren, c.state, continued.meter);
      if summarized.Going? {
        SynthesisIsBoundedAndNotBlank(replies, summarized.meter);
        var written := Write(replies, r, hasChildren, c, summarized.meter);
        if written.Going? {
          CheckIsBounded(verdicts, replies, r, written.value, c.state.texts, written.meter);
        }
      }
    }
  }

  lemma CheckIsBounded(verdicts: Verdicts, replies: seq<Reply>, r: Request, d: Draft, evidence: seq<AgentArtifact>,
                       m: Meter)
    ensures Check(verdicts, replies, r, d, evidence, m).meter.invocations <= m.invocations + CheckCost(r)
  {
    if Verifies(r, d, LaidOut(d)) {
      VerificationIsSound(verdicts, replies, r.maxRepairs, m, LaidOut(d));
    }
  }

  lemma FanOutCost(replies: seq<Reply>, r: Request, schedule: Schedule, st: State, m: Meter)
    ensures FanOutChildren(replies, r, schedule, st, m).meter.invocations == m.invocations + |Agents(st.graph)|
  {
  }

  /** From the fan-out on; without agents there is nothing to fan out, to continue or to synthesize. */
  lemma RestIsBounded(verdicts: Verdicts, replies: seq<Reply>, r: Request, schedule: Schedule, o: Orchestrated,
                      m: Meter)
    requires r.Valid() && Budgets.InBudget(r.limits, r.scope, r.rootTask, o.state)
    ensures var calls := RunRest(verdicts, replies, r, schedule, o, m).meter.invocations;
      && calls <= m.invocations + MaxAgents(r.effort) + FinishCost(r, true)
      && (Agents(o.state.graph) == {} ==> calls <= m.invocations + CheckCost(r))
  {
    var fanned := FanOutChildren(replies, r, schedule, o.state, m);
    FanOutCost(replies, r, schedule, o.state, m);
    if fanned.Going? {
      FinishIsBounded(verdicts, replies, r, Agents(o.state.graph) != {}, o.reconciled, fanned.value, fanned.meter);
    }
  }

  lemma RestAddsCalls(verdicts: Verdicts, replies: seq<Reply>, r: Request, schedule: Schedule, o: Orchestrated,
                      m: Meter)
    ensures RunRest(verdicts, replies, r, schedule, o, m).meter.invocations >= m.invocations
  {
    var fanned := FanOutChildren(replies, r, schedule, o.state, m);
    FanOutCost(replies, r, schedule, o.state, m);
    if fanned.Going? {
      FinishAddsCalls(verdicts, replies, r, Agents(o.state.graph) != {}, o.reconciled, fanned.value, fanned.meter);
    }
  }

  lemma FinishAddsCalls(verdicts: Verdicts, replies: seq<Reply>, r: Request, hasChildren: bool, reconciled: bool,
                        st: State, m: Meter)
    ensures Finish(verdicts, replies, r, hasChildren, reconciled, st, m).meter.invocations >= m.invocations
  {
    var continued := Continue(replies, r, hasChildren, st, m);
    if continued.Going? {
      var summarized := Summarize(replies, r, hasChildren, continued.value.state, continued.meter);
      if summarized.Going? {
        SynthesisIsBoundedAndNotBlank(replies, summarized.meter);
        var written := Write(replies, r, hasChildren, continued.value, summarized.meter);
        if written.Going? {
          CheckAddsCalls(verdicts, replies, r, written.value, continued.value.state.texts, written.meter);
        }
      }
    }
  }

  lemma CheckAddsCalls(verdicts: Verdicts, replies: seq<Reply>, r: Request, d: Draft, evidence: seq<AgentArtifact>,
                       m: Meter)
    ensures Check(verdicts, replies, r, d, evidence, m).meter.invocations >= m.invocations
  {
    if Verifies(r, d, LaidOut(d)) {
      VerificationIsSound(verdicts, replies, r.maxRepairs, m, LaidOut(d));
    }
  }

  // ---------------------------------------------------------------- the provider bound

  lemma {:induction false} TextLeavesGraph(r: Request, task: SubtaskSpec, st: State, artifacts: seq<AgentArtifact>)
    requires !task.maySpawn
    ensures ApplyArtifacts(r.limits, r.scope, task, st, artifacts).0.graph == st.graph
    decreases |artifacts|
  {
    if artifacts != [] {
      var (next, error) := ApplyArtifact(r.limits, r.scope, task, st, artifacts[0]);
      TextLeavesGraph(r, task, next, artifacts[1..]);
    }
  }

  /** A root that may not spawn and is asked after planning leaves the run without agents. */
  lemma AskedRootWithoutSpawning(replies: seq<Reply>, r: Request, st: State, m: Meter)
    requires !r.rootTask.maySpawn
    ensures var stage := PlanFirst(replies, r, st, m);
      stage.Going? && stage.value.rootAsked ==> Agents(stage.value.state.graph) == {}
  {
    var plan := PlanChildren(replies, r.limits.maxAgentsPerRequest, m);
    if plan.Going? {
      var applied := ApplyPlanning(r, st, plan.meter, plan.value);
      if applied.Going? {
        var reply := Ask(replies, applied.meter.invocations);
        if reply.Success? {
          var calls := RecordCalls(applied.value.calls, reply.value.toolCalls);
          TextLeavesGraph(r, r.rootTask, applied.value.(calls := calls), reply.value.artifacts);
        }
      }
    }
  }

  /** Everything a request must have switched on to cost as much as a run can cost. */
  predicate CanCostMost(r: Request) {
    r.rootTask.maySpawn && r.rootToolsAvailable && r.publicReasoning && r.semanticVerification
  }

  /**
   The provider bound. With N the agent cap of the effort and m the cap on semantic repairs, a
   direct run makes exactly one call. Any other run makes at most N + 2m + 10, and one more only for
   a request that has everything switched on, and only when the accepted plan gave no task a parent,
   so that the root was asked after planning.
   */
  lemma ProviderCallsAreBounded(verdicts: Verdicts, replies: seq<Reply>, r: Request, schedule: Schedule)
    requires r.Valid()
    ensures var calls := Run(verdicts, replies, r, schedule).meter.invocations;
      && (r.effort == Direct ==> calls == 1)
      && calls <= MaxAgents(r.effort) + 2 * r.maxRepairs + (if CanCostMost(r) then 11 else 10)
      && (Begin(replies, r).Going? && !Begin(replies, r).value.rootAsked ==>
            calls <= MaxAgents(r.effort) + 2 * r.maxRepairs + 10)
  {
    BeginningIsBounded(replies, r);
    var begun := Begin(replies, r);
    if begun.Going? {
      RestIsBounded(verdicts, replies, r, schedule, begun.value, begun.meter);
      RestAddsCalls(verdicts, replies, r, schedule, begun.value, begun.meter);
      if r.effort != Direct && !r.rootTask.maySpawn {
        RootToolGateStaysShut(replies, r, Meter(0, 0, 0));
        AskedRootWithoutSpawning(replies, r, r.Start(), Meter(0, 0, 0));
      }
    }
  }

  // ---------------------------------------------------------------- what a finished run returns

  lemma DraftIsWritten(replies: seq<Reply>, r: Request, hasChildren: bool, c: Continued, m: Meter)
    ensures var stage := Write(replies, r, hasChildren, c, m);
      stage.Going? ==>
        && (stage.value.origin == Withheld <==> !RootResolved(r, c.state))
        && (stage.value.origin == FromSynthesis ==> !IsBlank(LaidOut(stage.value)))
  {
    SynthesisIsBoundedAndNotBlank(replies, m);
  }

  lemma CheckIsSound(verdicts: Verdicts, replies: seq<Reply>, r: Request, d: Draft, evidence: seq<AgentArtifact>,
                     m: Meter)
    ensures var v := Check(verdicts, replies, r, d, evidence, m);
      && (v.log != [] && v.result.passed ==> LastVerdictAccepted(verdicts, v))
      && (!v.result.passed ==> v.result.issues != [])
      && (IsBlank(v.result.finalText) <==> IsBlank(LaidOut(d)))
  {
    if Verifies(r, d, LaidOut(d)) {
      VerificationIsSound(verdicts, replies, r.maxRepairs, m, LaidOut(d));
    }
  }

  lemma ReportIsSound(r: Request, st: State, reconciled: bool, retries: nat, result: SemanticResult)
    requires !result.passed ==> result.issues != []
    ensures var report := ReportOf(r, st, reconciled, retries, result);
      && (report.passed ==> result.passed && report.unresolvedToolCalls == {})
      && (!report.passed ==> report.issues != [])
      && (report.unresolvedToolCalls == {} <==> RootResolved(r, st))
  {
    var report := ReportOf(r, st, reconciled, retries, result);
    if report.unresolvedToolCalls != {} {
      assert report.issues[|result.issues|] == UnresolvedToolCalls;
    }
  }

  /** What a finished run may report. */
  predicate HonestOutput(verdicts: Verdicts, o: Output) {
    && (o.report.passed ==> o.report.unresolvedToolCalls == {})
    && (o.report.passed && o.verification.log != [] ==>
          LastVerdictAccepted(verdicts, o.verification) && o.verification.result.finalText == o.finalText)
    && (!o.report.passed ==> o.report.issues != [])
    && (o.origin == FromSynthesis ==> !IsBlank(o.finalText))
    && (o.origin == Withheld <==> o.report.unresolvedToolCalls != {})
  }

  lemma FinishIsHonest(verdicts: Verdicts, replies: seq<Reply>, r: Request, hasChildren: bool, reconciled: bool,
                       st: State, m: Meter)
    ensures var stage := Finish(verdicts, replies, r, hasChildren, reconciled, st, m);
      stage.Going? ==> HonestOutput(verdicts, stage.value)
  {
    var continued := Continue(replies, r, hasChildren, st, m);
    if continued.Going? {
      var c := continued.value;
      var summarized := Summarize(replies, r, hasChildren, c.state, continued.meter);
      if summarized.Going? {
        DraftIsWritten(replies, r, hasChildren, c, summarized.meter);
        var written := Write(replies, r, hasChildren, c, summarized.meter);
        if written.Going? {
          var d := written.value;
          CheckIsSound(verdicts, replies, r, d, c.state.texts, written.meter);
          var v := Check(verdicts, replies, r, d, c.state.texts, written.meter);
          ReportIsSound(r, c.state, reconciled, d.retries, v.result);
        }
      }
    }
  }

  /**
   Every run that returns an output reports it honestly: a passed report has no unresolved root
   tool calls, and if the text was verified, the last verdict accepted exactly the text that is
   returned; a report that did not pass says why; a text from the synthesis loop is never blank.
   */
  lemma EveryOutputIsHonest(verdicts: Verdicts, replies: seq<Reply>, r: Request, schedule: Schedule)
    requires r.Valid()
    ensures var stage := Run(verdicts, replies, r, schedule);
      stage.Going? ==> HonestOutput(verdicts, stage.value)
  {
    var begun := Begin(replies, r);
    if begun.Going? {
      RestIsHonest(verdicts, replies, r, schedule, begun.value, begun.meter);
    }
  }

  lemma RestIsHonest(verdicts: Verdicts, replies: seq<Reply>, r: Request, schedule: Schedule, o: Orchestrated, m: Meter)
    ensures var stage := RunRest(verdicts, replies, r, schedule, o, m);
      stage.Going? ==> HonestOutput(verdicts, stage.value)
  {
    var fanned := FanOutChildren(replies, r, schedule, o.state, m);
    if fanned.Going? {
      FinishIsHonest(verdicts, replies, r, Agents(o.state.graph) != {}, o.reconciled, fanned.value, fanned.meter);
    }
  }

  // ---------------------------------------------------------------- budgets of a finished run

  lemma {:induction false} AbsorbAllKeepsBudget(r: Request, p: FanOut.Progress, tasks: seq<SubtaskSpec>,
                                                results: seq<FanOut.Indexed>)
    requires r.Valid() && Budgets.InBudget(r.limits, r.scope, r.rootTask, p.state)
    requires forall i :: 0 <= i < |results| ==> results[i].0 < |tasks|
    ensures Budgets.InBudget(r.limits, r.scope, r.rootTask,
                             FanOut.AbsorbAll(r.limits, r.scope, p, tasks, results).0.state)
    decreases |results|
  {
    if results != [] {
      var (index, response) := results[0];
      StartInBudget(r);
      Budgets.AbsorbKeepsBudget(r.limits, r.scope, r.rootTask, tasks[index], p.state, response);
      var (state, error) := Absorb(r.limits, r.scope, tasks[index], p.state, response);
      if error == None {
        AbsorbAllKeepsBudget(r, FanOut.Progress(state, p.responses + 1, p.tokens + response.tokens), tasks,
                             results[1..]);
      }
    }
  }

  lemma FanOutKeepsBudget(replies: seq<Reply>, r: Request, schedule: Schedule, st: State, m: Meter)
    requires r.Valid() && Budgets.InBudget(r.limits, r.scope, r.rootTask, st)
    ensures var stage := FanOutChildren(replies, r, schedule, st, m);
      stage.Going? ==> Budgets.InBudget(r.limits, r.scope, r.rootTask, stage.value)
  {
    var tasks := ChildTasks(st.graph);
    var given := NextReplies(replies, m.invocations, |tasks|);
    var p := FanOut.Progress(st, m.responses, m.tokens);
    FanOut.FanOutIsScheduleIndependent(r.limits, r.scope, p, tasks, given, CompletionOrder(schedule, |tasks|));
    if FanOut.AllSucceed(given) {
      FanOut.TaskOrderIndices(given, 0);
      AbsorbAllKeepsBudget(r, p, tasks, FanOut.InTaskOrder(given, 0));
    }
  }

  lemma FinishKeepsBudget(verdicts: Verdicts, replies: seq<Reply>, r: Request, hasChildren: bool, reconciled: bool,
                          st: State, m: Meter)
    requires r.Valid() && Budgets.InBudget(r.limits, r.scope, r.rootTask, st)
    ensures var stage := Finish(verdicts, replies, r, hasChildren, reconciled, st, m);
      stage.Going? ==> Budgets.InBudget(r.limits, r.scope, r.rootTask, stage.value.state)
  {
    AskAndAbsorbStays(replies, r, r.rootTask, st.(texts := []), m);
  }

  /**
   Every output was reached within budget: at most N agents besides the root, spawned tasks
   within the depth cap and with references that resolve in the request's own scope, and at most
   the configured number of tool calls on record.
   */
  lemma EveryOutputIsInBudget(verdicts: Verdicts, replies: seq<Reply>, r: Request, schedule: Schedule)
    requires r.Valid()
    ensures var stage := Run(verdicts, replies, r, schedule);
      stage.Going? ==> Budgets.InBudget(r.limits, r.scope, r.rootTask, stage.value.state)
  {
    BeginningIsBounded(replies, r);
    var begun := Begin(replies, r);
    if begun.Going? {
      RestKeepsBudget(verdicts, replies, r, schedule, begun.value, begun.meter);
    }
  }

  lemma RestKeepsBudget(verdicts: Verdicts, replies: seq<Reply>, r: Request, schedule: Schedule, o: Orchestrated,
                        m: Meter)
    requires r.Valid() && Budgets.InBudget(r.limits, r.scope, r.rootTask, o.state)
    ensures var stage := RunRest(verdicts, replies, r, schedule, o, m);
      stage.Going? ==> Budgets.InBudget(r.limits, r.scope, r.rootTask, stage.value.state)
  {
    FanOutKeepsBudget(replies, r, schedule, o.state, m);
    var fanned := FanOutChildren(replies, r, schedule, o.state, m);
    if fanned.Going? {
      FinishKeepsBudget(verdicts, replies, r, Agents(o.state.graph) != {}, o.reconciled, fanned.value, fanned.meter);
    }
  }

  // ---------------------------------------------------------------- the graph of a finished run

  lemma {:induction false} SynthesisTaskCount(r: Request, retries: nat)
    ensures |SynthesisTasks(r, retries)| == retries + 1
  {
    if retries > 0 {
      SynthesisTaskCount(r, retries - 1);
    }
  }

  lemma {:induction false} LoopTaskCount(r: Request, log: seq<Exchange>, repairs: nat)
    ensures |LoopTasks(r, log, repairs)| == |log|
    decreases |log|
  {
    if log != [] {
      LoopTaskCount(r, log[1..], repairs);
      LoopTaskCount(r, log[1..], repairs + 1);
    }
  }

  function Repairs(log: seq<Exchange>): nat {
    if log == [] then 0 else (if log[0].Repair? then 1 else 0) + Repairs(log[1..])
  }

  lemma {:induction false} RepairsAreTheRest(log: seq<Exchange>)
    ensures Verifiers(log) + Repairs(log) == |log|
  {
    if log != [] {
      RepairsAreTheRest(log[1..]);
    }
  }

  /** The names that the kernel gives its own tasks, with at most that many repairs. */
  function HelperIds(maxRepairs: nat): set<string> {
    {SUMMARY_ID, SYNTHESIZER_ID, RETRY_ID + Decimal.Format(1), RETRY_ID + Decimal.Format(2)} + LoopIds(maxRepairs)
  }

  function LoopIds(maxRepairs: nat): set<string> {
    if maxRepairs == 0 then {VERIFIER_ID + Decimal.Format(0)}
    else
      LoopIds(maxRepairs - 1) + {VERIFIER_ID + Decimal.Format(maxRepairs), REPAIR_ID + Decimal.Format(maxRepairs)}
  }

  lemma {:induction false} LoopIdsHave(maxRepairs: nat, k: nat)
    requires k <= maxRepairs
    ensures VERIFIER_ID + Decimal.Format(k) in LoopIds(maxRepairs)
    ensures k > 0 ==> REPAIR_ID + Decimal.Format(k) in LoopIds(maxRepairs)
    decreases maxRepairs
  {
    if k < maxRepairs {
      LoopIdsHave(maxRepairs - 1, k);
    }
  }

  predicate Named(tasks: seq<SubtaskSpec>, ids: set<string>) {
    forall i :: 0 <= i < |tasks| ==> tasks[i].taskId in ids
  }

  lemma NamedInTurn(a: seq<SubtaskSpec>, b: seq<SubtaskSpec>, ids: set<string>, more: set<string>)
    requires Named(a, ids) && Named(b, more)
    ensures Named(a + b, ids + more)
  {
  }

  lemma {:induction false} SynthesisNames(r: Request, retries: nat, ids: set<string>)
    requires retries <= 2
    requires ids == {SYNTHESIZER_ID, RETRY_ID + Decimal.Format(1), RETRY_ID + Decimal.Format(2)}
    ensures Named(SynthesisTasks(r, retries), ids)
  {
    if retries > 0 {
      SynthesisNames(r, retries - 1, ids);
    }
  }

  lemma {:induction false} LoopNames(r: Request, log: seq<Exchange>, repairs: nat, maxRepairs: nat)
    requires repairs + Repairs(log) <= maxRepairs
    ensures Named(LoopTasks(r, log, repairs), LoopIds(maxRepairs))
    decreases |log|
  {
    if log != [] {
      LoopIdsHave(maxRepairs, repairs);
      if log[0].Verify? {
        LoopNames(r, log[1..], repairs, maxRepairs);
      } else {
        LoopIdsHave(maxRepairs, repairs + 1);
        LoopNames(r, log[1..], repairs + 1, maxRepairs);
      }
    }
  }

  lemma HelpersAreNamed(r: Request, summarized: bool, d: Draft, log: seq<Exchange>)
    requires d.retries <= 2 && Repairs(log) <= r.maxRepairs
    ensures Named(HelperTasks(r, summarized, d, log), HelperIds(r.maxRepairs))
  {
    var retries := {SYNTHESIZER_ID, RETRY_ID + Decimal.Format(1), RETRY_ID + Decimal.Format(2)};
    var summary := if summarized then [HelperTask(r, SUMMARY_ID, SUMMARY_OBJECTIVE)] else [];
    var synthesis := if d.origin == FromSynthesis then SynthesisTasks(r, d.retries) else [];
    SynthesisNames(r, d.retries, retries);
    LoopNames(r, log, 0, r.maxRepairs);
    NamedInTurn(summary, synthesis, {SUMMARY_ID}, retries);
    NamedInTurn(summary + synthesis, LoopTasks(r, log, 0), {SUMMARY_ID} + retries, LoopIds(r.maxRepairs));
    assert {SUMMARY_ID} + retries + LoopIds(r.maxRepairs) == HelperIds(r.maxRepairs);
  }

  lemma HelpersAreFew(r: Request, summarized: bool, d: Draft, log: seq<Exchange>)
    requires d.retries <= 2 && |log| <= 2 * r.maxRepairs + 1
    ensures |HelperTasks(r, summarized, d, log)| <= 5 + 2 * r.maxRepairs
  {
    SynthesisTaskCount(r, d.retries);
    LoopTaskCount(r, log, 0);
  }

  /** The graph of an output has the kernel's own tasks: which ones depends on how the text was written and verified. */
  predicate HasHelpers(r: Request, o: Output, summarized: bool, d: Draft) {
    && d.origin == o.origin && (summarized ==> r.publicReasoning)
    && o.graph == InsertTasks(o.state.graph, HelperTasks(r, summarized, d, o.verification.log))
    && |HelperTasks(r, summarized, d, o.verification.log)| <= 5 + 2 * r.maxRepairs
    && Named(HelperTasks(r, summarized, d, o.verification.log), HelperIds(r.maxRepairs))
  }

  lemma CheckLogIsBounded(verdicts: Verdicts, replies: seq<Reply>, r: Request, d: Draft, evidence: seq<AgentArtifact>,
                          m: Meter)
    ensures var log := Check(verdicts, replies, r, d, evidence, m).log;
      |log| <= 2 * r.maxRepairs + 1 && Repairs(log) <= r.maxRepairs
  {
    if Verifies(r, d, LaidOut(d)) {
      VerificationIsSound(verdicts, replies, r.maxRepairs, m, LaidOut(d));
      RepairsAreTheRest(Check(verdicts, replies, r, d, evidence, m).log);
    }
  }

  lemma RetriesAreBounded(replies: seq<Reply>, r: Request, hasChildren: bool, c: Continued, m: Meter)
    ensures var stage := Write(replies, r, hasChildren, c, m);
      stage.Going? ==> stage.value.retries <= 2
  {
    SynthesisIsBoundedAndNotBlank(replies, m);
  }

  lemma FinishInsertsHelpers(verdicts: Verdicts, replies: seq<Reply>, r: Request, hasChildren: bool, reconciled: bool,
                             st: State, m: Meter)
    ensures var stage := Finish(verdicts, replies, r, hasChildren, reconciled, st, m);
      stage.Going? ==> exists summarized: bool, d: Draft :: HasHelpers(r, stage.value, summarized, d)
  {
    var continued := Continue(replies, r, hasChildren, st, m);
    if continued.Going? {
      var c := continued.value;
      var summarized := Summarize(replies, r, hasChildren, c.state, continued.meter);
      if summarized.Going? {
        RetriesAreBounded(replies, r, hasChildren, c, summarized.meter);
        var written := Write(replies, r, hasChildren, c, summarized.meter);
        if written.Going? {
          var v := Check(verdicts, replies, r, written.value, c.state.texts, written.meter);
          CheckLogIsBounded(verdicts, replies, r, written.value, c.state.texts, written.meter);
          HelpersAreFew(r, summarized.value, written.value, v.log);
          HelpersAreNamed(r, summarized.value, written.value, v.log);
          assert HasHelpers(r, Concluded(r, c.state, reconciled, summarized.value, written.value, v),
                            summarized.value, written.value);
        }
      }
    }
  }

  /** What the kernel's own tasks do to a graph: they are all there, and replace the tasks that have their names. */
  predicate Covers(before: Graph, after: Graph, tasks: seq<SubtaskSpec>) {
    && after.tasks.Keys == before.tasks.Keys + Budgets.Ids(tasks)
    && (forall id :: id in before.tasks && id !in Budgets.Ids(tasks) ==> after.tasks[id] == before.tasks[id])
    && (forall id :: id in Budgets.Ids(tasks) ==> after.tasks[id] in tasks)
    && |Agents(after)| <= |Agents(before)| + |tasks|
  }

  lemma InsertTasksCovers(g: Graph, tasks: seq<SubtaskSpec>)
    ensures Covers(g, InsertTasks(g, tasks), tasks)
  {
    Budgets.InsertTasksKeys(g, tasks);
    Budgets.AgentsAfterInsert(g, tasks);
    forall id | id in Budgets.Ids(tasks) ensures InsertTasks(g, tasks).tasks[id] in tasks {
      Budgets.InsertTasksValues(g, tasks, id);
    }
  }

  /** The planned tasks, and at most 2m + 5 of the kernel's own, which replace those that have their names. */
  predicate CoveredGraph(r: Request, o: Output, summarized: bool, d: Draft) {
    && HasHelpers(r, o, summarized, d)
    && Covers(o.state.graph, o.graph, HelperTasks(r, summarized, d, o.verification.log))
    && |Agents(o.graph)| <= MaxAgents(r.effort) + 2 * r.maxRepairs + 5
    && (forall id :: id in o.state.graph.tasks && id !in HelperIds(r.maxRepairs) ==>
          id in o.graph.tasks && o.graph.tasks[id] == o.state.graph.tasks[id])
  }

  lemma HelpersCover(r: Request, o: Output, summarized: bool, d: Draft)
    requires HasHelpers(r, o, summarized, d) && |Agents(o.state.graph)| <= MaxAgents(r.effort)
    ensures CoveredGraph(r, o, summarized, d)
  {
    var tasks := HelperTasks(r, summarized, d, o.verification.log);
    InsertTasksCovers(o.state.graph, tasks);
    forall id | id in Budgets.Ids(tasks) ensures id in HelperIds(r.maxRepairs) {
      var i := Budgets.IdAt(tasks, id);
    }
  }

  /**
   The graph of every output: the planned tasks and the kernel's own `HelperTasks`, so at most
   N + 2m + 5 agents. A planned task stays as it was unless it has one of the names in `HelperIds`,
   and it is replaced when the kernel's task of that name was needed.
   */
  lemma EveryOutputGraphIsCovered(verdicts: Verdicts, replies: seq<Reply>, r: Request, schedule: Schedule)
    requires r.Valid()
    ensures var stage := Run(verdicts, replies, r, schedule);
      stage.Going? ==> exists summarized: bool, d: Draft :: CoveredGraph(r, stage.value, summarized, d)
  {
    EveryOutputIsInBudget(verdicts, replies, r, schedule);
    var begun := Begin(replies, r);
    if begun.Going? {
      RestInsertsHelpers(verdicts, replies, r, schedule, begun.value, begun.meter);
      var stage := RunRest(verdicts, replies, r, schedule, begun.value, begun.meter);
      if stage.Going? {
        var summarized: bool, d: Draft :| HasHelpers(r, stage.value, summarized, d);
        HelpersCover(r, stage.value, summarized, d);
      }
    }
  }

  lemma RestInsertsHelpers(verdicts: Verdicts, replies: seq<Reply>, r: Request, schedule: Schedule, o: Orchestrated,
                           m: Meter)
    ensures var stage := RunRest(verdicts, replies, r, schedule, o, m);
      stage.Going? ==> exists summarized: bool, d: Draft :: HasHelpers(r, stage.value, summarized, d)
  {
    var fanned := FanOutChildren(replies, r, schedule, o.state, m);
    if fanned.Going? {
      FinishInsertsHelpers(verdicts, replies, r, Agents(o.state.graph) != {}, o.reconciled, fanned.value, fanned.meter);
    }
  }

  // ---------------------------------------------------------------- schedules

  /** A run succeeds, and with the same output, under every schedule or under none. */
  lemma RunIsScheduleIndependent(verdicts: Verdicts, replies: seq<Reply>, r: Request, one: Schedule, other: Schedule)
    ensures var a, b := Run(verdicts, replies, r, one), Run(verdicts, replies, r, other);
      && (a.Going? <==> b.Going?)
      && (a.Going? ==> a == b)
      && a.meter == b.meter
  {
    var begun := Begin(replies, r);
    if begun.Going? {
      FanOutAgrees(replies, r, one, other, begun.value.state, begun.meter);
    }
  }

  lemma FanOutAgrees(replies: seq<Reply>, r: Request, one: Schedule, other: Schedule, st: State, m: Meter)
    ensures var a, b := FanOutChildren(replies, r, one, st, m), FanOutChildren(replies, r, other, st, m);
      a == b || (a.Stopped? && b.Stopped? && a.meter == b.meter)
  {
    var tasks := ChildTasks(st.graph);
    var given := NextReplies(replies, m.invocations, |tasks|);
    var p := FanOut.Progress(st, m.responses, m.tokens);
    FanOut.FanOutIsScheduleIndependent(r.limits, r.scope, p, tasks, given, CompletionOrder(one, |tasks|));
    FanOut.FanOutIsScheduleIndependent(r.limits, r.scope, p, tasks, given, CompletionOrder(other, |tasks|));
  }
}
