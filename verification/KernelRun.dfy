/** A whole request: planning, fan-out, continuation, summary, synthesis and verification. */
module KernelRun {
  import opened Wrappers
  import opened RustText
  import opened KernelTypes
  import opened KernelState
  import opened ModelProvider
  import opened PlanReconciliation
  import opened SemanticVerification
  import opened TaskOrder
  import Decimal
  import FanOut
  import Plans = PlanLaws
  import StructuredLayout

  datatype ReasoningEffort = Direct | Low | Medium | High | XHigh

  function MaxAgents(effort: ReasoningEffort): nat {
    match effort
    case Direct => 0
    case Low => 4
    case Medium => 16
    case High => 32
    case XHigh => 64
  }

  /** What a run depends on. `limits` is the policy after the effort and the metadata are applied to it. */
  datatype Request = Request(
    scope: IsolationKey,
    effort: ReasoningEffort,
    limits: ExecutionLimits,
    rootTask: SubtaskSpec,
    media: Artifacts,
    rootToolsAvailable: bool,
    toolResultsGiven: bool,
    publicReasoning: bool,
    semanticVerification: bool,
    maxRepairs: nat)
  {
    predicate Valid() {
      && limits.maxAgentsPerRequest == MaxAgents(effort)
      && rootTask.parentTaskId == None
    }

    function Start(): State {
      State(media, map[], InsertTask(Graph(rootTask.taskId, map[], map[]), rootTask), [])
    }
  }

  /** `should_run_root_tool_gate` */
  predicate ShouldRunRootToolGate(r: Request) {
    r.rootToolsAvailable && !r.toolResultsGiven
  }

  /** `should_use_model_orchestration` */
  predicate ShouldUseModelOrchestration(r: Request) {
    r.effort != Direct && r.limits.maxAgentsPerRequest > 1
  }

  predicate RootResolved(r: Request, st: State) {
    Unresolved(st.calls, {}, r.scope, r.rootTask.taskId) == {}
  }

  const MAX_ORCHESTRATION_REPAIR_ATTEMPTS: nat := 3

  // ---------------------------------------------------------------- planning

  /** The planner's repair loop, after `attempts` repairs. */
  function RepairPlan(replies: seq<Reply>, target: nat, m: Meter, artifacts: seq<AgentArtifact>, attempts: nat)
    : Stage<seq<AgentArtifact>>
    requires attempts <= MAX_ORCHESTRATION_REPAIR_ATTEMPTS
    decreases MAX_ORCHESTRATION_REPAIR_ATTEMPTS - attempts
  {
    if !ShouldRepair(Coverage(artifacts), target) || attempts == MAX_ORCHESTRATION_REPAIR_ATTEMPTS
      then Going(m, artifacts)
    else
      match Ask(replies, m.invocations)
      case Failure(error) => Stopped(Failed(m), error)
      case Success(response) =>
        RepairPlan(replies, target, Answered(m, response), TruncateAll(response.artifacts, target), attempts + 1)
  }

  function PlanChildren(replies: seq<Reply>, target: nat, m: Meter): Stage<seq<AgentArtifact>> {
    match Ask(replies, m.invocations)
    case Failure(error) => Stopped(Failed(m), error)
    case Success(response) => RepairPlan(replies, target, Answered(m, response),
                                         TruncateAll(response.artifacts, target), 0)
  }

  method RunPlanner(oracle: Oracle, target: nat) returns (stage: Stage<seq<AgentArtifact>>)
    modifies oracle
    ensures stage == PlanChildren(oracle.replies, target, old(oracle.meter))
    ensures oracle.meter == stage.meter
  {
    var reply := oracle.Invoke();
    if reply.Failure? {
      return Stopped(oracle.meter, reply.error);
    }
    var artifacts := NormalizeOverTarget(reply.value.artifacts, target);
    var attempts := 0;
    while ShouldRepair(Coverage(artifacts), target) && attempts < MAX_ORCHESTRATION_REPAIR_ATTEMPTS
      invariant attempts <= MAX_ORCHESTRATION_REPAIR_ATTEMPTS
      invariant PlanChildren(oracle.replies, target, old(oracle.meter))
             == RepairPlan(oracle.replies, target, oracle.meter, artifacts, attempts)
      decreases MAX_ORCHESTRATION_REPAIR_ATTEMPTS - attempts
    {
      reply := oracle.Invoke();
      if reply.Failure? {
        return Stopped(oracle.meter, reply.error);
      }
      artifacts := NormalizeOverTarget(reply.value.artifacts, target);
      attempts := attempts + 1;
    }
    stage := Going(oracle.meter, artifacts);
  }

  lemma {:induction false} RepairIsBounded(replies: seq<Reply>, target: nat, m: Meter, artifacts: seq<AgentArtifact>,
                                           attempts: nat)
    requires attempts <= MAX_ORCHESTRATION_REPAIR_ATTEMPTS && |Children(artifacts)| <= target
    ensures var stage := RepairPlan(replies, target, m, artifacts, attempts);
      && m.invocations <= stage.meter.invocations <= m.invocations + MAX_ORCHESTRATION_REPAIR_ATTEMPTS - attempts
      && (stage.Going? ==> |Children(stage.value)| <= target)
    decreases MAX_ORCHESTRATION_REPAIR_ATTEMPTS - attempts
  {
    if ShouldRepair(Coverage(artifacts), target) && attempts < MAX_ORCHESTRATION_REPAIR_ATTEMPTS {
      var reply := Ask(replies, m.invocations);
      if reply.Success? {
        TruncationTakesPrefix(reply.value.artifacts, target);
        RepairIsBounded(replies, target, Answered(m, reply.value), TruncateAll(reply.value.artifacts, target),
                        attempts + 1);
      }
    }
  }

  /** Planning makes at most four calls and settles on at most `target` children. */
  lemma PlanningIsBounded(replies: seq<Reply>, target: nat, m: Meter)
    ensures var stage := PlanChildren(replies, target, m);
      && m.invocations + 1 <= stage.meter.invocations <= m.invocations + 4
      && (stage.Going? ==> |Children(stage.value)| <= target)
  {
    var reply := Ask(replies, m.invocations);
    if reply.Success? {
      TruncationTakesPrefix(reply.value.artifacts, target);
      RepairIsBounded(replies, target, Answered(m, reply.value), TruncateAll(reply.value.artifacts, target), 0);
    }
  }

  // ---------------------------------------------------------------- the root

  /** One call for a task whose response is absorbed. */
  function AskAndAbsorb(replies: seq<Reply>, r: Request, task: SubtaskSpec, st: State, m: Meter): Stage<State> {
    match Ask(replies, m.invocations)
    case Failure(error) => Stopped(Failed(m), error)
    case Success(response) =>
      var (next, error) := Absorb(r.limits, r.scope, task, st, response);
      if error.Some? then Stopped(Answered(m, response), error.value) else Going(Answered(m, response), next)
  }

  /** What orchestration leaves: the state, and whether the plan had to be reconciled or the root asked. */
  datatype Orchestrated = Orchestrated(state: State, reconciled: bool, rootAsked: bool)

  function ApplyPlanning(r: Request, st: State, m: Meter, artifacts: seq<AgentArtifact>): Stage<State> {
    var settled := Plans.Settled(artifacts, r.limits.maxAgentsPerRequest);
    if ShouldRepair(Coverage(settled), r.limits.maxAgentsPerRequest) then Stopped(m, PlanRefused(|Children(settled)|))
    else
      var (next, error) := AbsorbPlans(r.limits, r.scope, st, settled);
      if error.Some? then Stopped(m, error.value) else Going(m, next)
  }

  /** What the root said before any planning; its texts are kept apart. */
  datatype Gated = Gated(state: State, preface: seq<AgentArtifact>)

  /** The gate that asks the root first, when its tools may be needed and no planner will be asked. */
  function OpenGate(replies: seq<Reply>, r: Request, st: State, m: Meter): Stage<Gated> {
    if !ShouldRunRootToolGate(r) || ShouldUseModelOrchestration(r) then Going(m, Gated(st, []))
    else
      match AskAndAbsorb(replies, r, r.rootTask, st.(texts := []), m)
      case Stopped(m1, error) => Stopped(m1, error)
      case Going(m1, next) => Going(m1, Gated(next.(texts := st.texts), next.texts))
  }

  /** The planner with its repairs, and whether its plan had to be reconciled. */
  datatype Planned = Planned(state: State, reconciled: bool)

  function Plan(replies: seq<Reply>, r: Request, st: State, m: Meter): Stage<Planned> {
    if !RootResolved(r, st) || Agents(st.graph) != {} || !ShouldUseModelOrchestration(r)
      then Going(m, Planned(st, false))
    else
      match PlanChildren(replies, r.limits.maxAgentsPerRequest, m)
      case Stopped(m1, error) => Stopped(m1, error)
      case Going(m1, artifacts) =>
        match ApplyPlanning(r, st, m1, artifacts)
        case Stopped(m2, error) => Stopped(m2, error)
        case Going(m2, next) => Going(m2, Planned(next,
                                                  ShouldRepair(Coverage(artifacts), r.limits.maxAgentsPerRequest)))
  }

  /** Without agents the root answers itself, unless it already has. */
  function AskRoot(replies: seq<Reply>, r: Request, resolved: bool, preface: seq<AgentArtifact>, p: Planned, m: Meter)
    : Stage<Orchestrated>
  {
    if !resolved || Agents(p.state.graph) != {} then Going(m, Orchestrated(p.state, p.reconciled, false))
    else if preface != [] then Going(m, Orchestrated(p.state.(texts := p.state.texts + preface), p.reconciled, false))
    else
      match AskAndAbsorb(replies, r, r.rootTask, p.state, m)
      case Stopped(m1, error) => Stopped(m1, error)
      case Going(m1, asked) => Going(m1, Orchestrated(asked, p.reconciled, true))
  }

  function Orchestrate(replies: seq<Reply>, r: Request, st: State, m: Meter): Stage<Orchestrated> {
    match OpenGate(replies, r, st, m)
    case Stopped(m1, error) => Stopped(m1, error)
    case Going(m1, gated) =>
      match Plan(replies, r, gated.state, m1)
      case Stopped(m2, error) => Stopped(m2, error)
      case Going(m2, planned) => AskRoot(replies, r, RootResolved(r, gated.state), gated.preface, planned, m2)
  }

  function Begin(replies: seq<Reply>, r: Request): Stage<Orchestrated> {
    var m := Meter(0, 0, 0);
    if r.effort == Direct then
      match AskAndAbsorb(replies, r, r.rootTask, r.Start(), m)
      case Stopped(m1, error) => Stopped(m1, error)
      case Going(m1, st) => Going(m1, Orchestrated(st, false, true))
    else Orchestrate(replies, r, r.Start(), m)
  }

  // ---------------------------------------------------------------- the children

  /** In which order a number of children complete; task order where nothing else is given. */
  type Schedule = map<nat, seq<nat>>

  function TaskOrderOf(n: nat): (done: seq<nat>)
    ensures FanOut.IsOrder(done, n)
  {
    if n == 0 then []
    else
      var rest := TaskOrderOf(n - 1);
      assert forall i: nat :: i < n - 1 ==> i in rest;
      rest + [n - 1]
  }

  function CompletionOrder(schedule: Schedule, n: nat): (done: seq<nat>)
    ensures FanOut.IsOrder(done, n)
  {
    if n in schedule && Completes(schedule[n], n) then schedule[n] else TaskOrderOf(n)
  }

  predicate Completes(done: seq<nat>, n: nat)
    ensures Completes(done, n) <==> FanOut.IsOrder(done, n)
  {
    && |done| == n && FanOut.NoDuplicates(done)
    && (forall i :: 0 <= i < |done| ==> done[i] < n)
    && (forall i :: 0 <= i < n ==> i in done)
  }

  ghost function FanOutChildren(replies: seq<Reply>, r: Request, schedule: Schedule, st: State, m: Meter)
    : Stage<State>
  {
    var tasks := ChildTasks(st.graph);
    var given := NextReplies(replies, m.invocations, |tasks|);
    var (p, error) := FanOut.Outcome(r.limits, r.scope, FanOut.Progress(st, m.responses, m.tokens), tasks, given,
                                     CompletionOrder(schedule, |tasks|));
    var after := Meter(m.invocations + |tasks|, p.responses, p.tokens);
    if error.Some? then Stopped(after, error.value) else Going(after, p.state)
  }

  // ---------------------------------------------------------------- the rest of a run

  /** The root's chance to use tools after its workers; its texts are kept apart. */
  datatype Continued = Continued(state: State, texts: seq<AgentArtifact>)

  function Continue(replies: seq<Reply>, r: Request, hasChildren: bool, st: State, m: Meter): Stage<Continued> {
    if !(RootResolved(r, st) && hasChildren && r.rootToolsAvailable) then Going(m, Continued(st, []))
    else
      match AskAndAbsorb(replies, r, r.rootTask, st.(texts := []), m)
      case Stopped(m1, error) => Stopped(m1, error)
      case Going(m1, next) => Going(m1, Continued(next.(texts := st.texts), next.texts))
  }

  /** The public summary of the workers' reasoning; only its usage matters here. */
  function Summarize(replies: seq<Reply>, r: Request, hasChildren: bool, st: State, m: Meter): Stage<bool> {
    if !(r.publicReasoning && RootResolved(r, st) && hasChildren) then Going(m, false)
    else
      match Ask(replies, m.invocations)
      case Failure(error) => Stopped(Failed(m), error)
      case Success(response) => Going(Answered(m, response), true)
  }

  /** Where the final text comes from. */
  datatype Origin = FromContinuation | FromSynthesis | FromTexts | Withheld

  datatype Draft = Draft(origin: Origin, text: string, retries: nat)

  function Write(replies: seq<Reply>, r: Request, hasChildren: bool, c: Continued, m: Meter): Stage<Draft> {
    if !RootResolved(r, c.state) then Going(m, Draft(Withheld, "", 0))
    else if c.texts != [] then Going(m, Draft(FromContinuation, SynthesizeText(c.texts), 0))
    else if hasChildren then
      match SynthesizeFrom(replies, m, 0)
      case Stopped(m1, error) => Stopped(m1, error)
      case Going(m1, synthesis) => Going(m1, Draft(FromSynthesis, synthesis.text, synthesis.retries))
    else Going(m, Draft(FromTexts, SynthesizeText(c.state.texts), 0))
  }

  function LaidOut(d: Draft): string {
    if d.origin != Withheld && !IsBlank(d.text) then StructuredLayout.Normalize(d.text) else d.text
  }

  function IdsOf(artifacts: seq<AgentArtifact>): set<string> {
    if artifacts == [] then {} else {artifacts[0].id} + IdsOf(artifacts[1..])
  }

  predicate Verifies(r: Request, d: Draft, text: string) {
    r.semanticVerification && r.effort != Direct && d.origin != Withheld && !IsBlank(text)
  }

  function Check(verdicts: Verdicts, replies: seq<Reply>, r: Request, d: Draft, evidence: seq<AgentArtifact>, m: Meter)
    : Verification
  {
    var text := LaidOut(d);
    if Verifies(r, d, text) then VerifyFrom(verdicts, replies, r.maxRepairs, 0, m, text)
    else Verification(SemanticResult(text, true, [], IdsOf(evidence)), m, [])
  }

  predicate Tolerated(issue: Issue) {
    issue == MissingModelSpawnPlan || issue == OrchestrationPlanReconciled || issue == EmptySynthesisRecovered
  }

  predicate AllTolerated(issues: seq<Issue>) {
    forall i :: 0 <= i < |issues| ==> Tolerated(issues[i])
  }

  function NoteIf(condition: bool, issue: Issue): seq<Issue> {
    if condition then [issue] else []
  }

  datatype Report = Report(passed: bool, issues: seq<Issue>, unresolvedToolCalls: set<(IsolationKey, string)>)

  function ReportOf(r: Request, st: State, reconciled: bool, retries: nat, result: SemanticResult): Report {
    var unresolved := Unresolved(st.calls, {}, r.scope, r.rootTask.taskId);
    var issues := result.issues + NoteIf(unresolved != {}, UnresolvedToolCalls)
                  + NoteIf(reconciled, OrchestrationPlanReconciled) + NoteIf(retries > 0, EmptySynthesisRecovered);
    Report(result.passed && AllTolerated(issues), issues, unresolved)
  }

  // ---------------------------------------------------------------- the tasks of the kernel's own agents

  const SUMMARY_ID := "reasoning-summary"
  const SUMMARY_OBJECTIVE := "summarize bounded worker-agent outputs for public reasoning"
  const SYNTHESIZER_ID := "synthesizer"
  const SYNTHESIZER_OBJECTIVE := "synthesize a natural final answer for the user"
  const RETRY_ID := "synthesizer-empty-retry-"
  const RETRY_OBJECTIVE :=
    "retry final synthesis after an empty model completion while preserving every user constraint"
  const VERIFIER_ID := "semantic-verifier-"
  const VERIFIER_OBJECTIVE :=
    "independently verify the candidate answer against the user request and worker evidence"
  const REPAIR_ID := "semantic-repair-"
  const REPAIR_OBJECTIVE := "repair the candidate answer using bounded verifier feedback and existing evidence"

  function HelperTask(r: Request, id: string, objective: string): SubtaskSpec {
    SubtaskSpec(id, Some(r.rootTask.taskId), 0, objective, [], false, AgentLimits(r.rootTask.limits.maxTokens, 0))
  }

  function SynthesisTasks(r: Request, retries: nat): seq<SubtaskSpec> {
    if retries == 0 then [HelperTask(r, SYNTHESIZER_ID, SYNTHESIZER_OBJECTIVE)]
    else SynthesisTasks(r, retries - 1) + [HelperTask(r, RETRY_ID + Decimal.Format(retries), RETRY_OBJECTIVE)]
  }

  /** The tasks of a verification, after `repairs` repairs. */
  function LoopTasks(r: Request, log: seq<Exchange>, repairs: nat): seq<SubtaskSpec> {
    if log == [] then []
    else
      match log[0]
      case Verify(_, _) =>
        [HelperTask(r, VERIFIER_ID + Decimal.Format(repairs), VERIFIER_OBJECTIVE)] + LoopTasks(r, log[1..], repairs)
      case Repair(_, _, _) =>
        [HelperTask(r, REPAIR_ID + Decimal.Format(repairs + 1), REPAIR_OBJECTIVE)] + LoopTasks(r, log[1..], repairs + 1)
  }

  /** All of them, in the order in which they are inserted into the graph. */
  function HelperTasks(r: Request, summarized: bool, d: Draft, log: seq<Exchange>): seq<SubtaskSpec> {
    (if summarized then [HelperTask(r, SUMMARY_ID, SUMMARY_OBJECTIVE)] else [])
    + (if d.origin == FromSynthesis then SynthesisTasks(r, d.retries) else [])
    + LoopTasks(r, log, 0)
  }

  // ---------------------------------------------------------------- to the end

  /** `state` is what the agents of the plan left; `graph` has the kernel's own tasks besides. */
  datatype Output = Output(
    finalText: string,
    origin: Origin,
    report: Report,
    state: State,
    graph: Graph,
    verification: Verification)

  function Finish(verdicts: Verdicts, replies: seq<Reply>, r: Request, hasChildren: bool, reconciled: bool, st: State,
                  m: Meter)
    : Stage<Output>
  {
    match Continue(replies, r, hasChildren, st, m)
    case Stopped(m1, error) => Stopped(m1, error)
    case Going(m1, c) =>
      match Summarize(replies, r, hasChildren, c.state, m1)
      case Stopped(m2, error) => Stopped(m2, error)
      case Going(m2, summarized) =>
        match Write(replies, r, hasChildren, c, m2)
        case Stopped(m3, error) => Stopped(m3, error)
        case Going(m3, d) =>
          var v := Check(verdicts, replies, r, d, c.state.texts, m3);
          Going(v.meter, Concluded(r, c.state, reconciled, summarized, d, v))
  }

  function Concluded(r: Request, st: State, reconciled: bool, summarized: bool, d: Draft, v: Verification): Output {
    Output(v.result.finalText, d.origin, ReportOf(r, st, reconciled, d.retries, v.result), st,
           InsertTasks(st.graph, HelperTasks(r, summarized, d, v.log)), v)
  }

  /** A run from the fan-out on. */
  ghost function RunRest(verdicts: Verdicts, replies: seq<Reply>, r: Request, schedule: Schedule, o: Orchestrated,
                         m: Meter)
    : Stage<Output>
  {
    match FanOutChildren(replies, r, schedule, o.state, m)
    case Stopped(m1, error) => Stopped(m1, error)
    case Going(m1, st) => Finish(verdicts, replies, r, Agents(o.state.graph) != {}, o.reconciled, st, m1)
  }

  /** `run_inner`: a whole run, for any replies, any meaning of verdicts, and any schedule of the fan-out. */
  ghost function Run(verdicts: Verdicts, replies: seq<Reply>, r: Request, schedule: Schedule): Stage<Output> {
    match Begin(replies, r)
    case Stopped(m, error) => Stopped(m, error)
    case Going(m, o) => RunRest(verdicts, replies, r, schedule, o, m)
  }
}
