/** Runs that make as many provider calls as a run can make, for every request that allows them. */
module KernelRunWitness {
  import opened Wrappers
  import opened RustText
  import opened KernelTypes
  import opened KernelState
  import opened ModelProvider
  import opened PlanReconciliation
  import opened SemanticVerification
  import opened TaskOrder
  import opened KernelRun
  import opened KernelRunLaws
  import Budgets = KernelBudgets
  import Kernel = KernelState
  import Laws = PlanLaws
  import FanOut
  import StructuredLayout
  import StructuredLayoutLaws

  // ---------------------------------------------------------------- answers

  const NOTHING := ProviderResponse([], [], 0)

  const P := "p"
  const SCOPE := IsolationKey(P, P, P)

  function PlanFor(children: seq<SubtaskSpec>): SpawnPlan {
    SpawnPlan(P, children)
  }

  function PlanOf(children: seq<SubtaskSpec>): AgentArtifact {
    PlanArtifact(P, SCOPE, PlanFor(children), P)
  }

  function Proposed(children: seq<SubtaskSpec>): ProviderResponse {
    ProviderResponse([PlanOf(children)], [], 0)
  }

  function Said(text: string): ProviderResponse {
    ProviderResponse([TextArtifact(P, SCOPE, text)], [], 0)
  }

  /** The calls numbered from `first` up to `last` all get one answer. */
  predicate Answers(replies: seq<Reply>, first: nat, last: nat, response: ProviderResponse) {
    forall k: nat :: first <= k < last ==> Ask(replies, k) == Success(response)
  }

  /** A request that can cost most, and is not direct. */
  predicate Costly(r: Request) {
    r.Valid() && r.effort != Direct && CanCostMost(r)
  }

  /** As many children as a request is entitled to: new to a graph, within depth, without references. */
  predicate Plannable(r: Request, g: Graph, children: seq<SubtaskSpec>) {
    && |children| == r.limits.maxAgentsPerRequest
    && forall i :: 0 <= i < |children| ==>
         children[i].taskId !in g.tasks && children[i].spawnDepth == 0 && children[i].inputArtifactRefs == []
  }

  lemma PlanIsAccepted(r: Request, store: Artifacts, g: Graph, children: seq<SubtaskSpec>)
    requires Costly(r) && Plannable(r, g, children) && Agents(g) == {}
    ensures ValidateAndApply(r.limits, r.scope, store, g, PlanFor(children)) == (InsertTasks(g, children), None)
  {
    var plan := PlanFor(children);
    forall i | 0 <= i < |plan.children| ensures Budgets.ChildAllowed(r.limits, r.scope, store, g, plan.children[i]) {
    }
    Budgets.PlanAcceptedIff(r.limits, r.scope, store, g, plan);
  }

  // ---------------------------------------------------------------- planning

  /** Three answers without a plan, and then one with children. */
  predicate LatePlan(replies: seq<Reply>, orphans: seq<SubtaskSpec>) {
    Answers(replies, 0, 3, NOTHING) && Ask(replies, 3) == Success(Proposed(orphans))
  }

  lemma NothingNeedsRepair(target: nat)
    requires target > 1
    ensures TruncateAll(NOTHING.artifacts, target) == [] && ShouldRepair(Coverage([]), target)
  {
  }

  lemma FullPlanIsEnough(children: seq<SubtaskSpec>, target: nat)
    requires |children| == target
    ensures TruncateAll([PlanOf(children)], target) == [PlanOf(children)]
    ensures !ShouldRepair(Coverage([PlanOf(children)]), target)
    ensures Kernel.Plans([PlanOf(children)]) == [PlanFor(children)]
  {
    assert children[..target] == children;
    assert [PlanOf(children)][1..] == [];
    assert Children([PlanOf(children)][1..]) == [] && Kernel.Plans([PlanOf(children)][1..]) == [];
    assert TruncateAll([PlanOf(children)][1..], 0) == [];
  }

  lemma PlanningTakesFour(replies: seq<Reply>, orphans: seq<SubtaskSpec>, target: nat)
    requires LatePlan(replies, orphans) && |orphans| == target > 1
    ensures PlanChildren(replies, target, Meter(0, 0, 0)) == Going(Meter(4, 4, 0), [PlanOf(orphans)])
  {
    var plan := [PlanOf(orphans)];
    NothingNeedsRepair(target);
    FullPlanIsEnough(orphans, target);
    assert RepairPlan(replies, target, Meter(4, 4, 0), plan, 3) == Going(Meter(4, 4, 0), plan);
    assert RepairPlan(replies, target, Meter(3, 3, 0), [], 2) == RepairPlan(replies, target, Meter(4, 4, 0), plan, 3);
    assert RepairPlan(replies, target, Meter(2, 2, 0), [], 1) == RepairPlan(replies, target, Meter(3, 3, 0), [], 2);
    assert RepairPlan(replies, target, Meter(1, 1, 0), [], 0) == RepairPlan(replies, target, Meter(2, 2, 0), [], 1);
  }

  predicate Orphans(children: seq<SubtaskSpec>) {
    forall i :: 0 <= i < |children| ==> children[i].parentTaskId == None
  }

  lemma OrphansAreNoAgents(g: Graph, children: seq<SubtaskSpec>)
    requires Orphans(children) && Agents(g) == {}
    ensures Agents(InsertTasks(g, children)) == {}
  {
    var after := InsertTasks(g, children);
    Budgets.InsertTasksKeys(g, children);
    forall id | id in after.tasks ensures after.tasks[id].parentTaskId == None {
      if id in Budgets.Ids(children) {
        Budgets.InsertTasksValues(g, children, id);
        var i :| 0 <= i < |children| && children[i].taskId == id && after.tasks[id] == children[i];
      } else {
        assert id !in Agents(g);
      }
    }
  }

  lemma FullPlanStays(children: seq<SubtaskSpec>, target: nat)
    requires |children| == target
    ensures Laws.Settled([PlanOf(children)], target) == [PlanOf(children)]
  {
    FullPlanIsEnough(children, target);
  }

  lemma PlansAbsorbed(r: Request, st: State, children: seq<SubtaskSpec>)
    requires Costly(r) && Plannable(r, st.graph, children) && Agents(st.graph) == {}
    ensures AbsorbPlans(r.limits, r.scope, st, [PlanOf(children)])
         == (st.(graph := InsertTasks(st.graph, children)), None)
  {
    FullPlanIsEnough(children, |children|);
    PlanIsAccepted(r, st.store, st.graph, children);
    var artifacts, plans := [PlanOf(children)], [PlanFor(children)];
    assert artifacts[1..] == [] && plans[1..] == [];
    assert PutOthers(st.store, artifacts) == PutOthers(st.store, artifacts[1..]);
    var g := InsertTasks(st.graph, children);
    assert ApplyPlans(r.limits, r.scope, st.store, g, plans[1..]) == (g, None);
    assert ApplyPlans(r.limits, r.scope, st.store, st.graph, plans) == (g, None);
  }

  lemma PlanIsApplied(r: Request, orphans: seq<SubtaskSpec>, st: State, m: Meter)
    requires Costly(r) && Plannable(r, st.graph, orphans) && Agents(st.graph) == {}
    ensures ApplyPlanning(r, st, m, [PlanOf(orphans)]) == Going(m, st.(graph := InsertTasks(st.graph, orphans)))
  {
    FullPlanStays(orphans, |orphans|);
    FullPlanIsEnough(orphans, |orphans|);
    PlansAbsorbed(r, st, orphans);
  }

  /** The root answers with a plan of its own. */
  lemma RootSpawns(replies: seq<Reply>, r: Request, st: State, m: Meter, workers: seq<SubtaskSpec>)
    requires Costly(r) && Ask(replies, m.invocations) == Success(Proposed(workers))
    requires Plannable(r, st.graph, workers) && Agents(st.graph) == {} && st.calls == map[]
    ensures AskAndAbsorb(replies, r, r.rootTask, st, m)
         == Going(Answered(m, Proposed(workers)), st.(graph := InsertTasks(st.graph, workers)))
  {
    PlanIsAccepted(r, st.store, st.graph, workers);
    var artifacts := [PlanOf(workers)];
    var next := st.(graph := InsertTasks(st.graph, workers));
    assert workers[..|workers|] == workers;
    assert Truncate(PlanFor(workers), |workers|) == PlanFor(workers);
    assert ApplyPlan(r.limits, r.scope, st, PlanFor(workers)) == (next, None);
    assert artifacts[1..] == [];
    assert ApplyArtifacts(r.limits, r.scope, r.rootTask, next, artifacts[1..]) == (next, None);
    assert ApplyArtifacts(r.limits, r.scope, r.rootTask, st, artifacts) == (next, None);
    assert st.(calls := RecordCalls(st.calls, [])) == st;
  }

  /** Absorbing an empty response changes nothing. */
  lemma NothingAbsorbed(r: Request, task: SubtaskSpec, st: State)
    requires st.calls == map[]
    ensures Absorb(r.limits, r.scope, task, st, NOTHING) == (st, None)
  {
    assert st.(calls := RecordCalls(st.calls, [])) == st;
  }

  /** Orphans from the planner leave no agents, so the root is asked as well. */
  lemma RootIsAsked(replies: seq<Reply>, r: Request, st: State, orphans: seq<SubtaskSpec>, planned: State, asked: State)
    requires |orphans| == r.limits.maxAgentsPerRequest
    requires PlanChildren(replies, r.limits.maxAgentsPerRequest, Meter(0, 0, 0))
          == Going(Meter(4, 4, 0), [PlanOf(orphans)])
    requires ApplyPlanning(r, st, Meter(4, 4, 0), [PlanOf(orphans)]) == Going(Meter(4, 4, 0), planned)
    requires Agents(planned.graph) == {}
    requires AskAndAbsorb(replies, r, r.rootTask, planned, Meter(4, 4, 0)) == Going(Meter(5, 5, 0), asked)
    ensures PlanFirst(replies, r, st, Meter(0, 0, 0)) == Going(Meter(5, 5, 0), Orchestrated(asked, false, true))
  {
    FullPlanIsEnough(orphans, |orphans|);
  }

  lemma PlanFirstTakesFive(replies: seq<Reply>, r: Request, st: State, orphans: seq<SubtaskSpec>,
                           workers: seq<SubtaskSpec>)
    requires Costly(r) && LatePlan(replies, orphans) && Ask(replies, 4) == Success(Proposed(workers))
    requires Agents(st.graph) == {} && st.calls == map[]
    requires Orphans(orphans) && Plannable(r, st.graph, orphans)
             && Plannable(r, InsertTasks(st.graph, orphans), workers)
    ensures PlanFirst(replies, r, st, Meter(0, 0, 0)) == Going(Meter(5, 5, 0),
      Orchestrated(st.(graph := InsertTasks(InsertTasks(st.graph, orphans), workers)), false, true))
  {
    var planned := st.(graph := InsertTasks(st.graph, orphans));
    PlanningTakesFour(replies, orphans, |orphans|);
    PlanIsApplied(r, orphans, st, Meter(4, 4, 0));
    OrphansAreNoAgents(st.graph, orphans);
    RootSpawns(replies, r, planned, Meter(4, 4, 0), workers);
    RootIsAsked(replies, r, st, orphans, planned, planned.(graph := InsertTasks(planned.graph, workers)));
  }

  // ---------------------------------------------------------------- the fan-out

  lemma {:induction false} NothingCollected(r: Request, tasks: seq<SubtaskSpec>, results: seq<FanOut.Indexed>,
                                            p: FanOut.Progress)
    requires p.state.calls == map[]
    requires forall i :: 0 <= i < |results| ==> results[i].0 < |tasks| && results[i].1 == NOTHING
    ensures FanOut.AbsorbAll(r.limits, r.scope, p, tasks, results)
         == (p.(responses := p.responses + |results|), None)
    decreases |results|
  {
    if results != [] {
      NothingAbsorbed(r, tasks[results[0].0], p.state);
      var next := FanOut.Progress(p.state, p.responses + 1, p.tokens);
      NothingCollected(r, tasks, results[1..], next);
    }
  }

  lemma {:induction false} TaskOrderOfNothing(given: seq<Reply>, i: nat)
    requires i <= |given| && forall k :: 0 <= k < |given| ==> given[k] == Success(NOTHING)
    ensures |FanOut.InTaskOrder(given, i)| == |given| - i
    ensures forall k :: 0 <= k < |given| - i ==>
              FanOut.InTaskOrder(given, i)[k].0 < |given| && FanOut.InTaskOrder(given, i)[k].1 == NOTHING
    decreases |given| - i
  {
    if i < |given| {
      TaskOrderOfNothing(given, i + 1);
    }
  }

  lemma {:induction false} RepliesAre(replies: seq<Reply>, first: nat, count: nat, last: nat)
    requires Answers(replies, first, last, NOTHING) && last == first + count
    ensures forall k :: 0 <= k < count ==> NextReplies(replies, first, count)[k] == Success(NOTHING)
    decreases count
  {
    if count > 0 {
      RepliesAre(replies, first + 1, count - 1, last);
    }
  }

  lemma NothingInTaskOrder(r: Request, tasks: seq<SubtaskSpec>, given: seq<Reply>, p: FanOut.Progress)
    requires p.state.calls == map[] && |given| == |tasks|
    requires forall k :: 0 <= k < |given| ==> given[k] == Success(NOTHING)
    ensures FanOut.AllSucceed(given)
    ensures FanOut.OneByOne(r.limits, r.scope, p, tasks, given) == (p.(responses := p.responses + |tasks|), None)
  {
    TaskOrderOfNothing(given, 0);
    NothingCollected(r, tasks, FanOut.InTaskOrder(given, 0), p);
  }

  lemma NothingInAnyOrder(r: Request, tasks: seq<SubtaskSpec>, given: seq<Reply>, p: FanOut.Progress, done: seq<nat>)
    requires p.state.calls == map[] && |given| == |tasks| && FanOut.IsOrder(done, |tasks|)
    requires forall k :: 0 <= k < |given| ==> given[k] == Success(NOTHING)
    ensures FanOut.Outcome(r.limits, r.scope, p, tasks, given, done) == (p.(responses := p.responses + |tasks|), None)
  {
    NothingInTaskOrder(r, tasks, given, p);
    FanOut.FanOutIsScheduleIndependent(r.limits, r.scope, p, tasks, given, done);
  }

  lemma FanOutOfNothing(replies: seq<Reply>, r: Request, schedule: Schedule, st: State, m: Meter, count: nat, last: nat)
    requires |Agents(st.graph)| == count && st.calls == map[]
    requires Answers(replies, m.invocations, last, NOTHING) && last == m.invocations + count
    ensures FanOutChildren(replies, r, schedule, st, m) == Going(Meter(last, m.responses + count, m.tokens), st)
  {
    var tasks := ChildTasks(st.graph);
    var given := NextReplies(replies, m.invocations, count);
    RepliesAre(replies, m.invocations, count, last);
    NothingInAnyOrder(r, tasks, given, FanOut.Progress(st, m.responses, m.tokens), CompletionOrder(schedule, count));
  }

  // ---------------------------------------------------------------- to the end

  lemma SynthesisTakesThree(replies: seq<Reply>, m: Meter, text: string)
    requires Answers(replies, m.invocations, m.invocations + 2, NOTHING)
    requires Ask(replies, m.invocations + 2) == Success(Said(text)) && !IsBlank(text)
    ensures SynthesizeFrom(replies, m, 0)
         == Going(Answered(Answered(Answered(m, NOTHING), NOTHING), Said(text)), Synthesis(text, 2))
  {
    var m1 := Answered(m, NOTHING);
    var m2 := Answered(m1, NOTHING);
    assert SynthesizeText(NOTHING.artifacts) == [] && IsBlank([]);
    SaidTwice(text);
    assert SynthesizeFrom(replies, m1, 1) == SynthesizeFrom(replies, m2, 2);
    assert SynthesizeFrom(replies, m, 0) == SynthesizeFrom(replies, m1, 1);
  }

  lemma SaidTwice(text: string)
    ensures SynthesizeText(Said(text).artifacts) == text
  {
    assert Said(text).artifacts[1..] == [] && TextsOf(Said(text).artifacts) == [text];
  }

  /** A model that gives one text to every verification and every repair, and what that text means as a verdict. */
  predicate Refuses(verdicts: Verdicts, text: string) {
    !IsBlank(text) && text in verdicts && !verdicts[text].passed
  }

  /** Verifying and repairing goes on until the repairs are used up. */
  lemma {:induction false} LoopTakesAll(verdicts: Verdicts, replies: seq<Reply>, maxRepairs: nat, attempts: nat,
                                        left: nat, m: Meter, candidate: string, text: string, last: nat)
    requires Refuses(verdicts, text) && Answers(replies, m.invocations, last, Said(text))
    requires maxRepairs == attempts + left && last == m.invocations + 2 * left + 1
    ensures VerifyFrom(verdicts, replies, maxRepairs, attempts, m, candidate).meter.invocations == last
    decreases left, 1
  {
    var issues, covered := IssuesOf(verdicts[text]), verdicts[text].coveredArtifactIds;
    assert Ask(replies, m.invocations) == Success(Said(text));
    assert Judge(verdicts, candidate, Success(Said(text))) == Rejected(issues, covered);
    if left > 0 {
      RepairTakesAll(verdicts, replies, maxRepairs, attempts, attempts + 1, left - 1, Answered(m, Said(text)),
                     candidate,
                     issues, covered, text, last);
    }
  }

  lemma {:induction false} RepairTakesAll(verdicts: Verdicts, replies: seq<Reply>, maxRepairs: nat, attempts: nat,
                                          after: nat, left: nat, m: Meter, candidate: string, issues: seq<Issue>,
                                          covered: set<string>, text: string, last: nat)
    requires Refuses(verdicts, text) && Answers(replies, m.invocations, last, Said(text))
    requires after == attempts + 1 && maxRepairs == after + left && last == m.invocations + 2 * left + 2
    ensures RepairFrom(verdicts, replies, maxRepairs, attempts, m, candidate, issues, covered).meter.invocations == last
    decreases left, 2
  {
    var next := StructuredLayout.Normalize(text);
    assert Ask(replies, m.invocations) == Success(Said(text));
    SaidTwice(text);
    assert Repaired(candidate, issues, covered, Success(Said(text))) == Success(next);
    LoopTakesAll(verdicts, replies, maxRepairs, after, left, Answered(m, Said(text)), next, text, last);
  }

  /** What the end of the run starts from: workers that answered with nothing. */
  predicate Finishable(r: Request, st: State) {
    Costly(r) && st.calls == map[] && st.texts == []
  }

  lemma ContinueIsOneCall(replies: seq<Reply>, r: Request, st: State, m: Meter)
    requires Finishable(r, st) && Ask(replies, m.invocations) == Success(NOTHING)
    ensures Continue(replies, r, true, st, m) == Going(Answered(m, NOTHING), Continued(st, []))
  {
    assert st.(texts := []) == st;
    NothingAbsorbed(r, r.rootTask, st);
  }

  lemma SummaryIsOneCall(replies: seq<Reply>, r: Request, st: State, m: Meter)
    requires Finishable(r, st) && Ask(replies, m.invocations) == Success(NOTHING)
    ensures Summarize(replies, r, true, st, m) == Going(Answered(m, NOTHING), true)
  {
  }

  lemma WritingIsThreeCalls(replies: seq<Reply>, r: Request, st: State, m: Meter, text: string)
    requires Finishable(r, st) && Answers(replies, m.invocations, m.invocations + 2, NOTHING)
    requires Ask(replies, m.invocations + 2) == Success(Said(text)) && !IsBlank(text)
    ensures var written := Write(replies, r, true, Continued(st, []), m);
      && written.Going? && written.meter.invocations == m.invocations + 3
      && written.value == Draft(FromSynthesis, text, 2)
  {
    SynthesisTakesThree(replies, m, text);
  }

  lemma CheckTakesAll(verdicts: Verdicts, replies: seq<Reply>, r: Request, text: string, evidence: seq<AgentArtifact>,
                      m: Meter, last: nat)
    requires Costly(r) && Refuses(verdicts, text) && Answers(replies, m.invocations, last, Said(text))
    requires last == m.invocations + 2 * r.maxRepairs + 1
    ensures Check(verdicts, replies, r, Draft(FromSynthesis, text, 2), evidence, m).meter.invocations == last
  {
    StructuredLayoutLaws.NormalizeKeepsInk(text);
    LoopTakesAll(verdicts, replies, r.maxRepairs, 0, r.maxRepairs, m, LaidOut(Draft(FromSynthesis, text, 2)), text,
                 last);
  }

  /** The answers to the end of a run: four times nothing, and one text from then on. */
  predicate LateText(replies: seq<Reply>, first: nat, said: nat, last: nat, text: string) {
    said == first + 4 && Answers(replies, first, said, NOTHING) && Answers(replies, said, last, Said(text))
  }

  lemma FinishTakesAll(verdicts: Verdicts, replies: seq<Reply>, r: Request, st: State, m: Meter, text: string,
                       said: nat, last: nat)
    requires Finishable(r, st) && Refuses(verdicts, text) && LateText(replies, m.invocations, said, last, text)
    requires last == said + 2 * r.maxRepairs + 2
    ensures Finish(verdicts, replies, r, true, false, st, m).meter.invocations == last
  {
    var m1 := Answered(m, NOTHING);
    var m2 := Answered(m1, NOTHING);
    ContinueIsOneCall(replies, r, st, m);
    SummaryIsOneCall(replies, r, st, m1);
    WritingIsThreeCalls(replies, r, st, m2, text);
    var written := Write(replies, r, true, Continued(st, []), m2);
    CheckTakesAll(verdicts, replies, r, text, st.texts, written.meter, last);
  }

  lemma ThenFinishes(verdicts: Verdicts, replies: seq<Reply>, r: Request, schedule: Schedule, st: State, m: Meter,
                     m1: Meter)
    requires Agents(st.graph) != {} && FanOutChildren(replies, r, schedule, st, m) == Going(m1, st)
    ensures RunRest(verdicts, replies, r, schedule, Orchestrated(st, false, true), m)
         == Finish(verdicts, replies, r, true, false, st, m1)
  {
  }

  /** Workers that answer with nothing, and then the end. */
  lemma RestTakesAll(verdicts: Verdicts, replies: seq<Reply>, r: Request, schedule: Schedule, st: State, text: string,
                     m: Meter, first: nat, said: nat, last: nat)
    requires Finishable(r, st) && Refuses(verdicts, text) && |Agents(st.graph)| == r.limits.maxAgentsPerRequest
    requires Answers(replies, m.invocations, first, NOTHING) && first == m.invocations + r.limits.maxAgentsPerRequest
    requires LateText(replies, first, said, last, text) && last == said + 2 * r.maxRepairs + 2
    ensures RunRest(verdicts, replies, r, schedule, Orchestrated(st, false, true), m).meter.invocations == last
  {
    var m1 := Meter(first, m.responses + r.limits.maxAgentsPerRequest, m.tokens);
    FanOutOfNothing(replies, r, schedule, st, m, r.limits.maxAgentsPerRequest, first);
    assert Agents(st.graph) != {};
    ThenFinishes(verdicts, replies, r, schedule, st, m, m1);
    FinishTakesAll(verdicts, replies, r, st, m1, text, said, last);
  }

  // ---------------------------------------------------------------- the whole run

  lemma StartIsEmpty(r: Request)
    requires r.Valid()
    ensures Agents(r.Start().graph) == {} && r.Start().calls == map[] && r.Start().texts == []
    ensures r.Start().graph.tasks.Keys == {r.rootTask.taskId}
  {
  }

  lemma WorkersJoin(r: Request, orphans: seq<SubtaskSpec>, workers: seq<SubtaskSpec>)
    requires Costly(r) && Orphans(orphans) && Plannable(r, InsertTasks(r.Start().graph, orphans), workers)
    requires Budgets.DistinctIds(workers) && Budgets.AllHaveParents(workers)
    ensures |Agents(InsertTasks(InsertTasks(r.Start().graph, orphans), workers))| == r.limits.maxAgentsPerRequest
  {
    StartIsEmpty(r);
    OrphansAreNoAgents(r.Start().graph, orphans);
    Budgets.AddsEveryAgentIff(InsertTasks(r.Start().graph, orphans), workers);
  }

  /** A model that first plans orphans, then has the root spawn workers, and never accepts a text. */
  predicate Script(r: Request, replies: seq<Reply>, orphans: seq<SubtaskSpec>, workers: seq<SubtaskSpec>, text: string,
                   first: nat, said: nat, last: nat)
  {
    && LatePlan(replies, orphans) && Ask(replies, 4) == Success(Proposed(workers))
    && first == 5 + r.limits.maxAgentsPerRequest && Answers(replies, 5, first, NOTHING)
    && LateText(replies, first, said, last, text) && last == said + 2 * r.maxRepairs + 2
  }

  /** The run under such a model, for any children that may be planned. */
  lemma OrphansCostOneMore(verdicts: Verdicts, replies: seq<Reply>, r: Request, orphans: seq<SubtaskSpec>,
                           workers: seq<SubtaskSpec>, text: string, schedule: Schedule, first: nat, said: nat,
                           last: nat)
    requires Costly(r) && Refuses(verdicts, text) && Script(r, replies, orphans, workers, text, first, said, last)
    requires Orphans(orphans) && Plannable(r, r.Start().graph, orphans)
    requires Plannable(r, InsertTasks(r.Start().graph, orphans), workers)
    requires Budgets.DistinctIds(workers) && Budgets.AllHaveParents(workers)
    ensures Run(verdicts, replies, r, schedule).meter.invocations == last
  {
    var st := r.Start().(graph := InsertTasks(InsertTasks(r.Start().graph, orphans), workers));
    StartIsEmpty(r);
    RootToolGateStaysShut(replies, r, Meter(0, 0, 0));
    PlanFirstTakesFive(replies, r, r.Start(), orphans, workers);
    WorkersJoin(r, orphans, workers);
    RestTakesAll(verdicts, replies, r, schedule, st, text, Meter(5, 5, 0), first, said, last);
  }

  // ---------------------------------------------------------------- children and answers for any request

  function Name(length: nat): (name: string)
    ensures |name| == length
  {
    seq(length, _ => 'x')
  }

  /** Tasks told apart by the length of their names. */
  function Team(first: nat, count: nat, parent: Option<string>): (team: seq<SubtaskSpec>)
    ensures |team| == count
    ensures forall i :: 0 <= i < count ==>
              team[i] == SubtaskSpec(Name(first + i), parent, 0, P, [], true, DEFAULT_AGENT_LIMITS)
  {
    seq(count, (i: nat) => SubtaskSpec(Name(first + i), parent, 0, P, [], true, DEFAULT_AGENT_LIMITS))
  }

  lemma TeamNames(first: nat, count: nat, parent: Option<string>, id: string)
    requires id in Budgets.Ids(Team(first, count, parent))
    ensures first <= |id| < first + count
  {
    var i := Budgets.IdAt(Team(first, count, parent), id);
  }

  lemma TeamsArePlannable(r: Request, first: nat, count: nat, parent: Option<string>)
    requires r.Valid() && count == r.limits.maxAgentsPerRequest && first > |r.rootTask.taskId|
    ensures Plannable(r, r.Start().graph, Team(first, count, None))
    ensures Plannable(r, InsertTasks(r.Start().graph, Team(first, count, None)), Team(first + count, count, parent))
  {
    var orphans, workers := Team(first, count, None), Team(first + count, count, parent);
    StartIsEmpty(r);
    Budgets.InsertTasksKeys(r.Start().graph, orphans);
    forall i | 0 <= i < count ensures workers[i].taskId !in InsertTasks(r.Start().graph, orphans).tasks {
      if workers[i].taskId in Budgets.Ids(orphans) {
        TeamNames(first, count, None, workers[i].taskId);
      }
    }
  }

  function AnswerAt(k: nat, said: nat, orphans: seq<SubtaskSpec>, workers: seq<SubtaskSpec>, text: string): Reply {
    if k == 3 then Success(Proposed(orphans)) else if k == 4 then Success(Proposed(workers))
    else if k >= said then Success(Said(text)) else Success(NOTHING)
  }

  lemma ScriptFor(r: Request, orphans: seq<SubtaskSpec>, workers: seq<SubtaskSpec>, text: string, first: nat, said: nat,
                  last: nat)
    returns (replies: seq<Reply>)
    requires first == 5 + r.limits.maxAgentsPerRequest && said == first + 4 && last == said + 2 * r.maxRepairs + 2
    ensures Script(r, replies, orphans, workers, text, first, said, last)
  {
    replies := seq(last, (k: nat) => AnswerAt(k, said, orphans, workers, text));
    assert forall k: nat :: k < last ==> Ask(replies, k) == AnswerAt(k, said, orphans, workers, text);
  }

  lemma VisibleText()
    ensures !IsBlank(Name(1))
  {
    assert !IsWhitespace(Name(1)[0]);
  }

  lemma MostCostlyRun(r: Request, schedule: Schedule) returns (verdicts: Verdicts, replies: seq<Reply>)
    requires Costly(r)
    ensures Run(verdicts, replies, r, schedule).meter.invocations == MaxAgents(r.effort) + 2 * r.maxRepairs + 11
  {
    var cap, text := r.limits.maxAgentsPerRequest, Name(1);
    var base := |r.rootTask.taskId| + 1;
    var orphans, workers := Team(base, cap, None), Team(base + cap, cap, Some(P));
    verdicts := map[text := Verdict(false, [], {})];
    VisibleText();
    TeamsArePlannable(r, base, cap, Some(P));
    replies := ScriptFor(r, orphans, workers, text, 5 + cap, 9 + cap, 2 * r.maxRepairs + 11 + cap);
    assert Orphans(orphans) && Budgets.DistinctIds(workers) && Budgets.AllHaveParents(workers);
    OrphansCostOneMore(verdicts, replies, r, orphans, workers, text, schedule, 5 + cap, 9 + cap,
                       2 * r.maxRepairs + 11 + cap);
  }

  /**
   When N + 2m + 11 calls can be made: for every request that is not direct, whatever N and m, some
   model and some schedule make a run cost that much exactly when the root may spawn and has tools,
   and public reasoning and semantic verification are switched on. In all other cases N + 2m + 10 is
   a bound.
   */
  lemma MostCallsAreMadeIff(r: Request)
    requires r.Valid() && r.effort != Direct
    ensures (exists verdicts: Verdicts, replies: seq<Reply>, schedule: Schedule ::
               Run(verdicts, replies, r, schedule).meter.invocations == MaxAgents(r.effort) + 2 * r.maxRepairs + 11)
       <==> CanCostMost(r)
  {
    if CanCostMost(r) {
      var verdicts, replies := MostCostlyRun(r, map[]);
    } else {
      forall verdicts: Verdicts, replies: seq<Reply>, schedule: Schedule
        ensures Run(verdicts, replies, r, schedule).meter.invocations != MaxAgents(r.effort) + 2 * r.maxRepairs + 11
      {
        ProviderCallsAreBounded(verdicts, replies, r, schedule);
      }
    }
  }
}
