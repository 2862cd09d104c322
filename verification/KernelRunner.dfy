/** `run_inner` over the stores it updates in place. */
module KernelRunner {
  import opened Wrappers
  import opened RustText
  import opened KernelTypes
  import opened ModelProvider
  import opened PlanReconciliation
  import opened SemanticVerification
  import opened TaskOrder
  import opened KernelRun
  import opened KernelStores
  import S = KernelState
  import FanOut
  import StructuredLayout

  /** The stores of one running request. */
  class Session {
    const oracle: Oracle
    const store: ArtifactStore
    const ledger: ToolLedger
    const graph: TaskGraph
    var texts: seq<AgentArtifact>

    ghost predicate Valid()
      reads this, ledger
    {
      ledger.Valid()
    }

    function View(): S.State
      reads this, store, ledger, graph
    {
      S.State(store.artifacts, ledger.calls, graph.View(), texts)
    }

    constructor (oracle: Oracle, r: Request)
      ensures Valid() && View() == r.Start() && this.oracle == oracle
      ensures fresh(store) && fresh(ledger) && fresh(graph)
    {
      this.oracle := oracle;
      store := new ArtifactStore();
      ledger := new ToolLedger();
      graph := new TaskGraph(r.rootTask.taskId);
      texts := [];
      new;
      store.artifacts := r.media;
      graph.InsertTask(r.rootTask);
    }

    /** One call for a task whose response is absorbed. */
    method AskAndAbsorb(r: Request, task: SubtaskSpec) returns (stage: Stage<S.State>)
      requires Valid()
      modifies this`texts, oracle, store, ledger, graph
      ensures Valid()
      ensures stage == KernelRun.AskAndAbsorb(oracle.replies, r, task, old(View()), old(oracle.meter))
      ensures oracle.meter == stage.meter && (stage.Going? ==> View() == stage.value)
    {
      var reply := oracle.Invoke();
      if reply.Failure? {
        return Stopped(oracle.meter, reply.error);
      }
      var error;
      texts, error := ApplyProviderResponse(r.limits, r.scope, task, store, ledger, graph, texts, reply.value);
      stage := if error.Some? then Stopped(oracle.meter, error.value) else Going(oracle.meter, View());
    }

    /** One call for the root whose texts are collected apart from those kept so far. */
    method AskApart(r: Request) returns (stage: Stage<S.State>, apart: seq<AgentArtifact>)
      requires Valid()
      modifies this`texts, oracle, store, ledger, graph
      ensures Valid()
      ensures var asked := KernelRun.AskAndAbsorb(oracle.replies, r, r.rootTask, old(View()).(texts := []),
                                                  old(oracle.meter));
        match asked
        case Stopped(_, _) => stage == asked
        case Going(m, next) => stage == Going(m, next.(texts := old(texts))) && apart == next.texts
      ensures oracle.meter == stage.meter && (stage.Going? ==> View() == stage.value)
    {
      var kept := texts;
      apart, texts := [], [];
      stage := AskAndAbsorb(r, r.rootTask);
      if stage.Going? {
        apart, texts := texts, kept;
        stage := Going(stage.meter, View());
      }
    }

    method OpenGate(r: Request) returns (stage: Stage<Gated>)
      requires Valid()
      modifies this`texts, oracle, store, ledger, graph
      ensures Valid()
      ensures stage == KernelRun.OpenGate(oracle.replies, r, old(View()), old(oracle.meter))
      ensures oracle.meter == stage.meter && (stage.Going? ==> View() == stage.value.state)
    {
      if !ShouldRunRootToolGate(r) || ShouldUseModelOrchestration(r) {
        return Going(oracle.meter, Gated(View(), []));
      }
      var asked, preface := AskApart(r);
      stage := if asked.Stopped? then Stopped(asked.meter, asked.error)
        else Going(oracle.meter, Gated(View(), preface));
    }

    method Orchestrate(r: Request) returns (stage: Stage<Orchestrated>)
      requires Valid()
      modifies this`texts, oracle, store, ledger, graph
      ensures Valid()
      ensures stage == KernelRun.Orchestrate(oracle.replies, r, old(View()), old(oracle.meter))
      ensures oracle.meter == stage.meter && (stage.Going? ==> View() == stage.value.state)
    {
      var gated := OpenGate(r);
      if gated.Stopped? {
        return Stopped(gated.meter, gated.error);
      }
      var resolved := RootResolved(r, View());
      var planned := Plan(r);
      if planned.Stopped? {
        return Stopped(planned.meter, planned.error);
      }
      stage := AskRoot(r, resolved, gated.value.preface, planned.value.reconciled);
    }

    method AskRoot(r: Request, resolved: bool, preface: seq<AgentArtifact>, reconciled: bool)
      returns (stage: Stage<Orchestrated>)
      requires Valid()
      modifies this`texts, oracle, store, ledger, graph
      ensures Valid()
      ensures stage == KernelRun.AskRoot(oracle.replies, r, resolved, preface, Planned(old(View()), reconciled),
                                         old(oracle.meter))
      ensures oracle.meter == stage.meter && (stage.Going? ==> View() == stage.value.state)
    {
      if !resolved || S.Agents(graph.View()) != {} {
        return Going(oracle.meter, Orchestrated(View(), reconciled, false));
      }
      if preface != [] {
        texts := texts + preface;
        return Going(oracle.meter, Orchestrated(View(), reconciled, false));
      }
      var asked := AskAndAbsorb(r, r.rootTask);
      if asked.Stopped? {
        return Stopped(oracle.meter, asked.error);
      }
      stage := Going(oracle.meter, Orchestrated(View(), reconciled, true));
    }

    method Plan(r: Request) returns (stage: Stage<Planned>)
      requires Valid()
      modifies this`texts, oracle, store, ledger, graph
      ensures Valid()
      ensures stage == KernelRun.Plan(oracle.replies, r, old(View()), old(oracle.meter))
      ensures oracle.meter == stage.meter && (stage.Going? ==> View() == stage.value.state)
    {
      if !RootResolved(r, View()) || S.Agents(graph.View()) != {} || !ShouldUseModelOrchestration(r) {
        return Going(oracle.meter, Planned(View(), false));
      }
      var target := r.limits.maxAgentsPerRequest;
      var planned := RunPlanner(oracle, target);
      if planned.Stopped? {
        return Stopped(oracle.meter, planned.error);
      }
      var artifacts := planned.value;
      var reconciled := ShouldRepair(Coverage(artifacts), target);
      if reconciled {
        var added;
        artifacts, added := ReconcileUnderTarget(artifacts, target);
      }
      if ShouldRepair(Coverage(artifacts), target) {
        return Stopped(oracle.meter, PlanRefused(|Children(artifacts)|));
      }
      var sawPlan, error := ApplySpawnPlanResponse(r.limits, r.scope, store, graph, artifacts);
      if error.Some? {
        return Stopped(oracle.meter, error.value);
      }
      stage := Going(oracle.meter, Planned(View(), reconciled));
    }

    /** The calls of all children at once, then their results in task order. */
    method RunChildren(r: Request) returns (stage: Stage<S.State>, ghost schedule: Schedule)
      requires Valid()
      modifies this`texts, oracle, store, ledger, graph
      ensures Valid()
      ensures stage == FanOutChildren(oracle.replies, r, schedule, old(View()), old(oracle.meter))
      ensures oracle.meter == stage.meter && (stage.Going? ==> View() == stage.value)
    {
      var tasks := EnumerateChildTasks(graph.View());
      var given := oracle.InvokeAll(|tasks|);
      var parallel := if r.limits.maxParallelAgents < 1 then 1 else r.limits.maxParallelAgents;
      var done := FanOut.CompleteAll(|tasks|, parallel);
      schedule := map[|tasks| := done];
      ScheduledOrder(done, |tasks|);
      stage := AbsorbCompleted(r, tasks, given, done);
    }

    /** The first failure in completion order stops the run; otherwise everything is absorbed in task order. */
    method AbsorbCompleted(r: Request, tasks: seq<SubtaskSpec>, given: seq<Reply>, done: seq<nat>)
      returns (stage: Stage<S.State>)
      requires Valid() && |given| == |tasks| && forall i :: 0 <= i < |done| ==> done[i] < |given|
      modifies this`texts, oracle, store, ledger, graph
      ensures Valid()
      ensures var (p, error) := FanOut.Outcome(r.limits, r.scope, old(Progress()), tasks, given, done);
        && oracle.meter == Meter(old(oracle.meter.invocations), p.responses, p.tokens)
        && stage == (if error.Some? then Stopped(oracle.meter, error.value) else Going(oracle.meter, p.state))
        && View() == p.state
    {
      var collected := FanOut.Collect(given, done);
      if collected.Failure? {
        return Stopped(oracle.meter, collected.error);
      }
      FanOut.CollectedIndices(given, done);
      FanOut.SortedIndices(collected.value, |tasks|);
      stage := AbsorbResults(r, tasks, FanOut.SortByIndex(collected.value));
    }

    method AbsorbResults(r: Request, tasks: seq<SubtaskSpec>, results: seq<FanOut.Indexed>)
      returns (stage: Stage<S.State>)
      requires Valid() && forall i :: 0 <= i < |results| ==> results[i].0 < |tasks|
      modifies this`texts, oracle, store, ledger, graph
      ensures Valid()
      ensures var (p, error) := FanOut.AbsorbAll(r.limits, r.scope, old(Progress()), tasks, results);
        && oracle.meter == Meter(old(oracle.meter.invocations), p.responses, p.tokens)
        && stage == (if error.Some? then Stopped(oracle.meter, error.value) else Going(oracle.meter, p.state))
        && View() == p.state
    {
      for k := 0 to |results|
        invariant Valid() && oracle.meter.invocations == old(oracle.meter.invocations)
        invariant FanOut.AbsorbAll(r.limits, r.scope, old(Progress()), tasks, results)
               == FanOut.AbsorbAll(r.limits, r.scope, Progress(), tasks, results[k..])
      {
        assert results[k..][1..] == results[k + 1..];
        var error := AbsorbFirst(r, tasks, results[k..]);
        if error.Some? {
          return Stopped(oracle.meter, error.value);
        }
      }
      stage := Going(oracle.meter, View());
    }

    method AbsorbFirst(r: Request, tasks: seq<SubtaskSpec>, results: seq<FanOut.Indexed>)
      returns (error: Option<KernelError>)
      requires Valid() && results != [] && forall i :: 0 <= i < |results| ==> results[i].0 < |tasks|
      modifies this`texts, oracle, store, ledger, graph
      ensures Valid() && oracle.meter.invocations == old(oracle.meter.invocations)
      ensures FanOut.AbsorbAll(r.limits, r.scope, old(Progress()), tasks, results)
           == if error.Some? then (Progress(), error)
              else FanOut.AbsorbAll(r.limits, r.scope, Progress(), tasks, results[1..])
    {
      error := AbsorbResult(r, tasks[results[0].0], results[0].1);
    }

    method AbsorbResult(r: Request, task: SubtaskSpec, response: ProviderResponse) returns (error: Option<KernelError>)
      requires Valid()
      modifies this`texts, oracle, store, ledger, graph
      ensures Valid() && oracle.meter.invocations == old(oracle.meter.invocations)
      ensures (View(), error) == S.Absorb(r.limits, r.scope, task, old(View()), response)
      ensures Progress() == FanOut.Progress(View(), old(Progress()).responses + 1,
                                            old(Progress()).tokens + response.tokens)
    {
      oracle.Account(response);
      texts, error := ApplyProviderResponse(r.limits, r.scope, task, store, ledger, graph, texts, response);
    }

    function Progress(): FanOut.Progress
      reads this, oracle, store, ledger, graph
    {
      FanOut.Progress(View(), oracle.meter.responses, oracle.meter.tokens)
    }

    /** The root's continuation; its texts are collected apart from those of the workers. */
    method Continue(r: Request, hasChildren: bool) returns (stage: Stage<Continued>)
      requires Valid()
      modifies this`texts, oracle, store, ledger, graph
      ensures Valid()
      ensures stage == KernelRun.Continue(oracle.replies, r, hasChildren, old(View()), old(oracle.meter))
      ensures oracle.meter == stage.meter && (stage.Going? ==> View() == stage.value.state)
    {
      if !(RootResolved(r, View()) && hasChildren && r.rootToolsAvailable) {
        return Going(oracle.meter, Continued(View(), []));
      }
      var asked, continuation := AskApart(r);
      stage := if asked.Stopped? then Stopped(asked.meter, asked.error)
        else Going(oracle.meter, Continued(View(), continuation));
    }

    method Finish(verdicts: Verdicts, r: Request, hasChildren: bool, reconciled: bool) returns (stage: Stage<Output>)
      requires Valid()
      modifies this`texts, oracle, store, ledger, graph
      ensures Valid()
      ensures stage == KernelRun.Finish(verdicts, oracle.replies, r, hasChildren, reconciled, old(View()),
                                        old(oracle.meter))
      ensures oracle.meter == stage.meter
    {
      var continued := Continue(r, hasChildren);
      if continued.Stopped? {
        return Stopped(continued.meter, continued.error);
      }
      var summarized := Summarize(r, hasChildren);
      if summarized.Stopped? {
        return Stopped(summarized.meter, summarized.error);
      }
      var written := Write(r, hasChildren, continued.value.texts);
      if written.Stopped? {
        return Stopped(written.meter, written.error);
      }
      stage := Conclude(verdicts, r, reconciled, summarized.value, written.value);
    }

    method Summarize(r: Request, hasChildren: bool) returns (stage: Stage<bool>)
      modifies oracle
      ensures stage == KernelRun.Summarize(oracle.replies, r, hasChildren, View(), old(oracle.meter))
      ensures oracle.meter == stage.meter
    {
      if !(r.publicReasoning && RootResolved(r, View()) && hasChildren) {
        return Going(oracle.meter, false);
      }
      var summary := oracle.Invoke();
      stage := if summary.Failure? then Stopped(oracle.meter, summary.error) else Going(oracle.meter, true);
    }

    method Write(r: Request, hasChildren: bool, continuation: seq<AgentArtifact>) returns (stage: Stage<Draft>)
      modifies oracle
      ensures stage == KernelRun.Write(oracle.replies, r, hasChildren, Continued(View(), continuation),
                                       old(oracle.meter))
      ensures oracle.meter == stage.meter
    {
      if !RootResolved(r, View()) {
        return Going(oracle.meter, Draft(Withheld, "", 0));
      }
      if continuation != [] {
        return Going(oracle.meter, Draft(FromContinuation, SynthesizeText(continuation), 0));
      }
      if !hasChildren {
        return Going(oracle.meter, Draft(FromTexts, SynthesizeText(texts), 0));
      }
      var synthesis := Synthesize(oracle);
      match synthesis {
        case Stopped(m, error) => stage := Stopped(m, error);
        case Going(m, s) => stage := Going(m, Draft(FromSynthesis, s.text, s.retries));
      }
    }

    /** Layout, verification, the kernel's own tasks, which nothing reads before, and the report. */
    method Conclude(verdicts: Verdicts, r: Request, reconciled: bool, summarized: bool, d: Draft)
      returns (stage: Stage<Output>)
      modifies oracle, graph
      ensures var v := Check(verdicts, oracle.replies, r, d, texts, old(oracle.meter));
        stage == Going(v.meter, Concluded(r, old(View()), reconciled, summarized, d, v))
      ensures oracle.meter == stage.meter && graph.View() == stage.value.graph
    {
      var st := View();
      var text := d.text;
      if d.origin != Withheld && !IsBlank(text) {
        text := StructuredLayout.NormalizeStructuredTextLayout(text);
      }
      var result := SemanticResult(text, true, [], IdsOf(texts));
      var log: seq<Exchange> := [];
      if Verifies(r, d, text) {
        result, log := RunSemanticVerification(verdicts, oracle, r.maxRepairs, text);
      }
      var v := Verification(result, oracle.meter, log);
      assert v == Check(verdicts, oracle.replies, r, d, texts, old(oracle.meter));
      InsertAll(HelperTasks(r, summarized, d, log));
      var report := ReportOf(r, st, reconciled, d.retries, result);
      stage := Going(oracle.meter, Output(result.finalText, d.origin, report, st, graph.View(), v));
    }

    method InsertAll(tasks: seq<SubtaskSpec>)
      modifies graph
      ensures graph.View() == S.InsertTasks(old(graph.View()), tasks)
    {
      for i := 0 to |tasks|
        invariant S.InsertTasks(old(graph.View()), tasks) == S.InsertTasks(graph.View(), tasks[i..])
      {
        assert tasks[i..][1..] == tasks[i + 1..];
        graph.InsertTask(tasks[i]);
      }
    }
  }

  method RunInner(verdicts: Verdicts, oracle: Oracle, r: Request)
    returns (stage: Stage<Output>, ghost schedule: Schedule)
    requires oracle.meter == Meter(0, 0, 0)
    modifies oracle
    ensures stage == Run(verdicts, oracle.replies, r, schedule)
    ensures oracle.meter == stage.meter
  {
    schedule := map[];
    var session := new Session(oracle, r);
    var reconciled := false;
    if r.effort == Direct {
      var asked := session.AskAndAbsorb(r, r.rootTask);
      if asked.Stopped? {
        return Stopped(asked.meter, asked.error), schedule;
      }
    } else {
      var orchestrated := session.Orchestrate(r);
      if orchestrated.Stopped? {
        return Stopped(orchestrated.meter, orchestrated.error), schedule;
      }
      reconciled := orchestrated.value.reconciled;
    }
    var hasChildren := S.Agents(session.graph.View()) != {};
    var fanned;
    fanned, schedule := session.RunChildren(r);
    if fanned.Stopped? {
      return Stopped(fanned.meter, fanned.error), schedule;
    }
    stage := session.Finish(verdicts, r, hasChildren, reconciled);
  }

  lemma ScheduledOrder(done: seq<nat>, n: nat)
    requires FanOut.IsOrder(done, n)
    ensures CompletionOrder(map[n := done], n) == done
  {
  }
}
