/** Which tasks of its own the kernel puts into the graph of an output, and what they may do. */
module KernelHelpers {
  import opened Wrappers
  import opened KernelTypes
  import opened KernelState
  import opened ModelProvider
  import opened SemanticVerification
  import opened KernelRun
  import opened KernelRunLaws
  import opened KernelFinalText
  import Budgets = KernelBudgets
  import Decimal

  // ---------------------------------------------------------------- what they may do

  /** A child of the root at depth zero that can neither spawn nor call a tool, and is given no artifacts. */
  predicate Harmless(r: Request, task: SubtaskSpec) {
    && task.parentTaskId == Some(r.rootTask.taskId)
    && task.spawnDepth == 0 && task.inputArtifactRefs == [] && !task.maySpawn
    && task.limits == AgentLimits(r.rootTask.limits.maxTokens, 0)
  }

  predicate AllHarmless(r: Request, tasks: seq<SubtaskSpec>) {
    forall i :: 0 <= i < |tasks| ==> Harmless(r, tasks[i])
  }

  lemma {:induction false} SynthesisIsHarmless(r: Request, retries: nat)
    ensures AllHarmless(r, SynthesisTasks(r, retries))
  {
    if retries > 0 {
      SynthesisIsHarmless(r, retries - 1);
    }
  }

  lemma {:induction false} LoopIsHarmless(r: Request, log: seq<Exchange>, repairs: nat)
    ensures AllHarmless(r, LoopTasks(r, log, repairs))
    decreases |log|
  {
    if log != [] {
      LoopIsHarmless(r, log[1..], repairs);
      LoopIsHarmless(r, log[1..], repairs + 1);
    }
  }

  lemma HelpersAreHarmless(r: Request, summarized: bool, d: Draft, log: seq<Exchange>)
    ensures AllHarmless(r, HelperTasks(r, summarized, d, log))
  {
    SynthesisIsHarmless(r, d.retries);
    LoopIsHarmless(r, log, 0);
  }

  // ---------------------------------------------------------------- which there are

  predicate HasId(tasks: seq<SubtaskSpec>, id: string) {
    exists i :: 0 <= i < |tasks| && tasks[i].taskId == id
  }

  lemma HasIdInTurn(a: seq<SubtaskSpec>, b: seq<SubtaskSpec>, id: string)
    ensures HasId(a + b, id) <==> HasId(a, id) || HasId(b, id)
  {
    var tasks := a + b;
    if HasId(a, id) {
      var i :| 0 <= i < |a| && a[i].taskId == id;
      assert tasks[i].taskId == id;
    }
    if HasId(b, id) {
      var i :| 0 <= i < |b| && b[i].taskId == id;
      assert tasks[|a| + i].taskId == id;
    }
    if HasId(tasks, id) {
      var i :| 0 <= i < |tasks| && tasks[i].taskId == id;
      assert if i < |a| then a[i].taskId == id else b[i - |a|].taskId == id;
    }
  }

  /** The name of the task of an exchange: a verifier bears the number of repairs before it, a repair counts itself. */
  function ExchangeId(log: seq<Exchange>, i: nat): string
    requires i < |log|
  {
    if log[i].Verify? then "semantic-verifier-" + Decimal.Format(Repairs(log[..i]))
    else "semantic-repair-" + Decimal.Format(Repairs(log[..i]) + 1)
  }

  lemma {:induction false} LoopTaskAt(r: Request, log: seq<Exchange>, repairs: nat, i: nat, before: nat)
    requires i < |log| && before == repairs + Repairs(log[..i])
    ensures |LoopTasks(r, log, repairs)| == |log|
    ensures LoopTasks(r, log, repairs)[i].taskId ==
            if log[i].Verify? then VERIFIER_ID + Decimal.Format(before) else REPAIR_ID + Decimal.Format(before + 1)
    decreases |log|
  {
    var after := if log[0].Verify? then repairs else repairs + 1;
    LoopTaskCount(r, log, repairs);
    if i > 0 {
      assert log[..i][1..] == log[1..][..i - 1];
      LoopTaskAt(r, log[1..], after, i - 1, before);
    }
  }

  lemma {:induction false} SynthesisTaskAt(r: Request, retries: nat, k: nat)
    requires k <= retries
    ensures |SynthesisTasks(r, retries)| == retries + 1
    ensures SynthesisTasks(r, retries)[k].taskId ==
            if k == 0 then SYNTHESIZER_ID else RETRY_ID + Decimal.Format(k)
  {
    SynthesisTaskCount(r, retries);
    if 0 < retries {
      SynthesisTaskCount(r, retries - 1);
      if k < retries {
        SynthesisTaskAt(r, retries - 1, k);
      }
    }
  }

  function RetryId(k: nat): string {
    "synthesizer-empty-retry-" + Decimal.Format(k)
  }

  /** The tasks that a run with this summary, draft and log needs. */
  predicate Needed(summarized: bool, d: Draft, log: seq<Exchange>, id: string) {
    || (summarized && id == "reasoning-summary")
    || (d.origin == FromSynthesis && (id == "synthesizer" || exists k: nat :: 1 <= k <= d.retries && id == RetryId(k)))
    || exists i :: 0 <= i < |log| && id == ExchangeId(log, i)
  }

  lemma SynthesisHas(r: Request, retries: nat, id: string)
    ensures HasId(SynthesisTasks(r, retries), id) <==>
            id == "synthesizer" || exists k: nat :: 1 <= k <= retries && id == RetryId(k)
  {
    var tasks := SynthesisTasks(r, retries);
    SynthesisTaskAt(r, retries, 0);
    assert tasks[0].taskId == "synthesizer";
    forall k | 1 <= k <= retries ensures tasks[k].taskId == RetryId(k) {
      SynthesisTaskAt(r, retries, k);
    }
    if HasId(tasks, id) {
      var i :| 0 <= i < |tasks| && tasks[i].taskId == id;
      assert i == 0 || id == RetryId(i);
    }
  }

  lemma LoopHas(r: Request, log: seq<Exchange>, id: string)
    ensures HasId(LoopTasks(r, log, 0), id) <==> exists i :: 0 <= i < |log| && id == ExchangeId(log, i)
  {
    var tasks := LoopTasks(r, log, 0);
    LoopTaskCount(r, log, 0);
    forall i | 0 <= i < |log| ensures tasks[i].taskId == ExchangeId(log, i) {
      LoopTaskAt(r, log, 0, i, Repairs(log[..i]));
    }
  }

  /** The kernel's own tasks are exactly those that are needed. */
  lemma HelpersAreThoseNeeded(r: Request, summarized: bool, d: Draft, log: seq<Exchange>, id: string)
    ensures HasId(HelperTasks(r, summarized, d, log), id) <==> Needed(summarized, d, log, id)
  {
    var summary := if summarized then [HelperTask(r, SUMMARY_ID, SUMMARY_OBJECTIVE)] else [];
    var synthesis := if d.origin == FromSynthesis then SynthesisTasks(r, d.retries) else [];
    HasIdInTurn(summary, synthesis, id);
    HasIdInTurn(summary + synthesis, LoopTasks(r, log, 0), id);
    SynthesisHas(r, d.retries, id);
    LoopHas(r, log, id);
    SummaryHas(r, summarized, id);
  }

  lemma SummaryHas(r: Request, summarized: bool, id: string)
    ensures HasId(if summarized then [HelperTask(r, SUMMARY_ID, SUMMARY_OBJECTIVE)] else [], id) <==>
            summarized && id == "reasoning-summary"
  {
    if summarized {
      assert [HelperTask(r, SUMMARY_ID, SUMMARY_OBJECTIVE)][0].taskId == "reasoning-summary";
    }
  }

  // ---------------------------------------------------------------- the graph of an output

  lemma IdsAreThere(tasks: seq<SubtaskSpec>, id: string)
    ensures id in Budgets.Ids(tasks) <==> HasId(tasks, id)
  {
    Budgets.IdsMembers(tasks);
    if id in Budgets.Ids(tasks) {
      var i := Budgets.IdAt(tasks, id);
      assert tasks[i].taskId == id;
    }
  }

  /** The graph has the planned tasks and the needed ones; a needed one is harmless, any other is as planned. */
  ghost predicate HasExactly(r: Request, planned: Graph, graph: Graph, summarized: bool, d: Draft, log: seq<Exchange>) {
    forall id :: (id in graph.tasks <==> id in planned.tasks || Needed(summarized, d, log, id))
                 && (id in graph.tasks && Needed(summarized, d, log, id) ==> Harmless(r, graph.tasks[id]))
                 && (id in graph.tasks && !Needed(summarized, d, log, id) ==>
                       id in planned.tasks && graph.tasks[id] == planned.tasks[id])
  }

  lemma InsertedHelpers(r: Request, planned: Graph, summarized: bool, d: Draft, log: seq<Exchange>)
    ensures HasExactly(r, planned, InsertTasks(planned, HelperTasks(r, summarized, d, log)), summarized, d, log)
  {
    var tasks := HelperTasks(r, summarized, d, log);
    var graph := InsertTasks(planned, tasks);
    InsertTasksCovers(planned, tasks);
    HelpersAreHarmless(r, summarized, d, log);
    forall id
      ensures (id in graph.tasks <==> id in planned.tasks || Needed(summarized, d, log, id))
              && (id in graph.tasks && Needed(summarized, d, log, id) ==> Harmless(r, graph.tasks[id]))
              && (id in graph.tasks && !Needed(summarized, d, log, id) ==>
                    id in planned.tasks && graph.tasks[id] == planned.tasks[id])
    {
      HelpersAreThoseNeeded(r, summarized, d, log, id);
      IdsAreThere(tasks, id);
      assert id in graph.tasks <==> id in graph.tasks.Keys;
    }
  }

  /** The summary is written when it is wanted, there are workers, and the root does not wait for tools. */
  predicate Summarizes(r: Request, hasChildren: bool, o: Output) {
    r.publicReasoning && hasChildren && o.origin != Withheld
  }

  lemma FinishHasHelpers(verdicts: Verdicts, replies: seq<Reply>, r: Request, hasChildren: bool, reconciled: bool,
                         st: State, m: Meter)
    returns (o: Output, d: Draft, first: nat)
    requires Finish(verdicts, replies, r, hasChildren, reconciled, st, m).Going?
    ensures o == Finish(verdicts, replies, r, hasChildren, reconciled, st, m).value && d.origin == o.origin
    ensures HasExactly(r, o.state.graph, o.graph, Summarizes(r, hasChildren, o), d, o.verification.log)
    ensures o.origin == FromSynthesis ==>
      first == m.invocations + CallsBeforeSynthesis(r) && FirstToSay(replies, first, first + d.retries)
  {
    var c, m1, summarized, m2, draft, m3, output :=
      FinishPhases(verdicts, replies, r, hasChildren, reconciled, st, m);
    o, d, first := output, draft, m2.invocations;
    var call := PhaseFacts(replies, r, hasChildren, st, m, c, m1, summarized, m2, d, m3);
    SummaryIsWritten(replies, r, hasChildren, c.state, m1, summarized, m2);
    InsertedHelpers(r, c.state.graph, summarized, d, o.verification.log);
  }

  lemma SummaryIsWritten(replies: seq<Reply>, r: Request, hasChildren: bool, st: State, m: Meter, summarized: bool,
                         m1: Meter)
    requires Summarize(replies, r, hasChildren, st, m) == Going(m1, summarized)
    ensures summarized <==> r.publicReasoning && RootResolved(r, st) && hasChildren
  {
  }

  /**
   The graph of every output: the planned tasks and exactly those of the kernel's own that the run
   needed, each of them harmless; a planned task is as it was unless one of those has its name.
   */
  lemma EveryOutputHasItsHelpers(verdicts: Verdicts, replies: seq<Reply>, r: Request, schedule: Schedule)
    returns (m: Meter, begun: Orchestrated, o: Output, d: Draft, first: nat)
    requires Run(verdicts, replies, r, schedule).Going?
    ensures o == Run(verdicts, replies, r, schedule).value && Begin(replies, r) == Going(m, begun)
    ensures d.origin == o.origin
    ensures HasExactly(r, o.state.graph, o.graph, Summarizes(r, Agents(begun.state.graph) != {}, o), d,
                       o.verification.log)
    ensures o.origin == FromSynthesis ==>
      && first == m.invocations + |Agents(begun.state.graph)| + CallsBeforeSynthesis(r)
      && FirstToSay(replies, first, first + d.retries)
  {
    var m1, st, stage;
    m, begun, m1, st, stage := RunPhases(verdicts, replies, r, schedule);
    o, d, first := FinishHasHelpers(verdicts, replies, r, Agents(begun.state.graph) != {}, begun.reconciled, st, m1);
  }
}
