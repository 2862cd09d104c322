/** The final text of a run in terms of what the model replied. */
module KernelFinalText {
  import opened Wrappers
  import opened RustText
  import opened KernelTypes
  import opened KernelState
  import opened ModelProvider
  import opened ResponseTexts
  import opened SemanticVerification
  import opened KernelRun
  import opened KernelRunLaws
  import Sequences
  import StructuredLayout
  import StructuredLayoutLaws

  /** A call for the root: the reply, and what it adds to the texts. */
  lemma AskedTexts(replies: seq<Reply>, r: Request, task: SubtaskSpec, st: State, m: Meter)
    requires AllText(st.texts) && AskAndAbsorb(replies, r, task, st, m).Going?
    ensures var stage, reply := AskAndAbsorb(replies, r, task, st, m), Ask(replies, m.invocations);
      && reply.Success?
      && stage.meter == Answered(m, reply.value)
      && AllText(stage.value.texts)
      && TextsOf(stage.value.texts) == TextsOf(st.texts) + TextsAt(replies, m.invocations, task.maySpawn)
  {
    AbsorbedResponse(r.limits, r.scope, task, st, Ask(replies, m.invocations).value);
  }

  // ---------------------------------------------------------------- before the fan-out

  /** Nothing but the root has said anything, and only in the last call, when there are no agents. */
  lemma PlanFirstTexts(replies: seq<Reply>, r: Request, st: State, m: Meter)
    requires st.texts == [] && PlanFirst(replies, r, st, m).Going?
    ensures var stage := PlanFirst(replies, r, st, m);
      && AllText(stage.value.state.texts)
      && (Agents(stage.value.state.graph) == {} ==>
            && stage.meter.invocations > 0
            && TextsOf(stage.value.state.texts) ==
               TextsAt(replies, stage.meter.invocations - 1, r.rootTask.maySpawn))
  {
    var plan := PlanChildren(replies, r.limits.maxAgentsPerRequest, m);
    var applied := ApplyPlanning(r, st, plan.meter, plan.value);
    assert applied.value.texts == [];
    if Agents(applied.value.graph) == {} {
      AskedTexts(replies, r, r.rootTask, applied.value, applied.meter);
    }
  }

  lemma BeginningTexts(replies: seq<Reply>, r: Request)
    requires r.Valid() && Begin(replies, r).Going?
    ensures var stage := Begin(replies, r);
      && AllText(stage.value.state.texts)
      && (Agents(stage.value.state.graph) == {} ==>
            && stage.meter.invocations > 0
            && TextsOf(stage.value.state.texts) ==
               TextsAt(replies, stage.meter.invocations - 1, r.rootTask.maySpawn))
  {
    if r.effort == Direct {
      AskedTexts(replies, r, r.rootTask, r.Start(), Meter(0, 0, 0));
    } else {
      RootToolGateStaysShut(replies, r, Meter(0, 0, 0));
      PlanFirstTexts(replies, r, r.Start(), Meter(0, 0, 0));
    }
  }

  lemma NobodyToFanOutTo(replies: seq<Reply>, r: Request, schedule: Schedule, st: State, m: Meter)
    requires Agents(st.graph) == {}
    ensures FanOutChildren(replies, r, schedule, st, m) == Going(m, st)
  {
  }

  // ---------------------------------------------------------------- the draft

  /** The layout of a text, which leaves a blank one as it is. */
  function Layout(text: string): string {
    if IsBlank(text) then text else StructuredLayout.Normalize(text)
  }

  lemma LayoutKeepsInk(text: string)
    ensures Ink(Layout(text)) == Ink(text) && (IsBlank(Layout(text)) <==> IsBlank(text))
  {
    InkOfBlank(text);
    InkOfBlank(Layout(text));
    if !IsBlank(text) {
      StructuredLayoutLaws.NormalizeKeepsInk(text);
    }
  }

  /** What becomes of a draft: its layout is returned, or is the first text to be verified. */
  predicate Follows(r: Request, o: Output, draft: string) {
    && (IsBlank(o.finalText) <==> IsBlank(draft))
    && if r.semanticVerification && r.effort != Direct && !IsBlank(draft)
       then
         && o.verification.log != []
         && o.verification.log[0].Verify? && o.verification.log[0].candidate == Layout(draft)
       else o.verification.log == [] && o.finalText == Layout(draft)
  }

  lemma FirstCandidate(verdicts: Verdicts, replies: seq<Reply>, maxRepairs: nat, m: Meter, candidate: string)
    ensures var log := VerifyFrom(verdicts, replies, maxRepairs, 0, m, candidate).log;
      log != [] && log[0].Verify? && log[0].candidate == candidate
  {
  }

  lemma CheckedDraft(verdicts: Verdicts, replies: seq<Reply>, r: Request, reconciled: bool, summarized: bool, st: State,
                     d: Draft, m: Meter)
    requires d.origin != Withheld
    ensures var v := Check(verdicts, replies, r, d, st.texts, m);
      Follows(r, Concluded(r, st, reconciled, summarized, d, v), d.text)
  {
    LayoutKeepsInk(d.text);
    if Verifies(r, d, LaidOut(d)) {
      VerificationIsSound(verdicts, replies, r.maxRepairs, m, LaidOut(d));
      FirstCandidate(verdicts, replies, r.maxRepairs, m, LaidOut(d));
    }
  }

  /** What the reply to a call for a text says, line by line. */
  function SaidAt(replies: seq<Reply>, call: nat): string {
    Join(TextsAt(replies, call, true), "\n")
  }

  /** The calls from `first` up to `last` were answered, with nothing but whitespace. */
  predicate SayNothing(replies: seq<Reply>, first: nat, last: nat) {
    forall k: nat :: first <= k < last ==> Ask(replies, k).Success? && !HasInk(SaidAt(replies, k))
  }

  /** The first call from `first` on, of at most three, whose reply has ink. */
  predicate FirstToSay(replies: seq<Reply>, first: nat, call: nat) {
    first <= call <= first + 2 && SayNothing(replies, first, call) && HasInk(SaidAt(replies, call))
  }

  /** One attempt: it ends the synthesis, or says nothing and is followed by the next one. */
  lemma SynthesisStep(replies: seq<Reply>, m: Meter, attempt: nat, after: nat)
    returns (stage: Stage<Synthesis>, ended: bool, next: Meter)
    requires attempt <= MAX_EMPTY_SYNTHESIS_RETRY_ATTEMPTS && after == attempt + 1
    ensures stage == SynthesizeFrom(replies, m, attempt) && next.invocations == m.invocations + 1
    ensures ended && stage.Going? ==> HasInk(SaidAt(replies, m.invocations))
                                      && stage.value == Synthesis(SaidAt(replies, m.invocations), attempt)
    ensures !ended ==>
      && after <= MAX_EMPTY_SYNTHESIS_RETRY_ATTEMPTS
      && Ask(replies, m.invocations).Success? && !HasInk(SaidAt(replies, m.invocations))
      && stage == SynthesizeFrom(replies, next, after)
  {
    stage, ended, next := SynthesizeFrom(replies, m, attempt), true, Failed(m);
    match Ask(replies, m.invocations)
    case Failure(_) =>
    case Success(response) =>
      TextsOfText(response.artifacts);
      InkOfBlank(SaidAt(replies, m.invocations));
      next := Answered(m, response);
      ended := !IsBlank(SynthesizeText(response.artifacts)) || attempt == MAX_EMPTY_SYNTHESIS_RETRY_ATTEMPTS;
  }

  lemma {:induction false} SynthesisIsFirstToSay(replies: seq<Reply>, m: Meter, attempt: nat, first: nat)
    returns (stage: Stage<Synthesis>, call: nat)
    requires attempt <= MAX_EMPTY_SYNTHESIS_RETRY_ATTEMPTS && m.invocations == first + attempt
    requires SayNothing(replies, first, m.invocations)
    ensures stage == SynthesizeFrom(replies, m, attempt)
    ensures stage.Going? ==>
      && call == first + stage.value.retries
      && FirstToSay(replies, first, call) && stage.value.text == SaidAt(replies, call)
    decreases MAX_EMPTY_SYNTHESIS_RETRY_ATTEMPTS - attempt
  {
    var after := attempt + 1;
    var ended, next;
    stage, ended, next := SynthesisStep(replies, m, attempt, after);
    call := m.invocations;
    if !ended {
      stage, call := SynthesisIsFirstToSay(replies, next, after, first);
    }
  }

  // ---------------------------------------------------------------- the whole run

  /** The calls between the fan-out and the synthesis. */
  function CallsBeforeSynthesis(r: Request): nat {
    (if r.rootToolsAvailable then 1 else 0) + (if r.publicReasoning then 1 else 0)
  }

  /**
   Where the final text of an output comes from, with `first` the number of the first call after
   the fan-out: what the root says after its workers, or else the first synthesis that is not
   blank, or, without workers, what the root said in the last call; nothing while the root waits
   for tools.
   */
  ghost predicate SaysWhatWasSaid(replies: seq<Reply>, r: Request, first: nat, hasChildren: bool, o: Output) {
    match o.origin
    case Withheld => o.finalText == "" && o.verification.log == []
    case FromContinuation =>
      && hasChildren && r.rootToolsAvailable && TextsAt(replies, first, r.rootTask.maySpawn) != []
      && Follows(r, o, Join(TextsAt(replies, first, r.rootTask.maySpawn), "\n"))
    case FromSynthesis =>
      && hasChildren && (r.rootToolsAvailable ==> TextsAt(replies, first, r.rootTask.maySpawn) == [])
      && exists start, call :: FirstToSay(replies, start, call)
                               && start == first + CallsBeforeSynthesis(r) && Follows(r, o, SaidAt(replies, call))
    case FromTexts =>
      && !hasChildren && first > 0
      && Follows(r, o, Join(TextsAt(replies, first - 1, r.rootTask.maySpawn), "\n"))
  }

  /** What the continuation of the root gave, from the call with that number. */
  predicate ContinuedSays(replies: seq<Reply>, r: Request, call: nat, hasChildren: bool, c: Continued) {
    && (c.texts != [] ==>
          && hasChildren && r.rootToolsAvailable
          && TextsOf(c.texts) == TextsAt(replies, call, r.rootTask.maySpawn) != [])
    && (c.texts == [] && RootResolved(r, c.state) && hasChildren && r.rootToolsAvailable ==>
          TextsAt(replies, call, r.rootTask.maySpawn) == [])
  }

  lemma ContinuedTexts(replies: seq<Reply>, r: Request, hasChildren: bool, st: State, m: Meter)
    returns (c: Continued, m1: Meter)
    requires Continue(replies, r, hasChildren, st, m).Going?
    ensures Continue(replies, r, hasChildren, st, m) == Going(m1, c)
    ensures ContinuedSays(replies, r, m.invocations, hasChildren, c) && c.state.texts == st.texts
    ensures c.texts == [] && RootResolved(r, c.state) && hasChildren ==>
      m1.invocations == m.invocations + (if r.rootToolsAvailable then 1 else 0)
    ensures !hasChildren ==> m1 == m
  {
    c, m1 := Continue(replies, r, hasChildren, st, m).value, Continue(replies, r, hasChildren, st, m).meter;
    if RootResolved(r, st) && hasChildren && r.rootToolsAvailable {
      AskedTexts(replies, r, r.rootTask, st.(texts := []), m);
      TextsOfText(c.texts);
    }
  }

  lemma SummarizedCalls(replies: seq<Reply>, r: Request, hasChildren: bool, st: State, m: Meter)
    requires Summarize(replies, r, hasChildren, st, m).Going? && RootResolved(r, st)
    ensures Summarize(replies, r, hasChildren, st, m).meter.invocations ==
            m.invocations + (if hasChildren && r.publicReasoning then 1 else 0)
  {
  }

  /** The draft, by where it comes from; `call` is the synthesis that said it. */
  predicate Drafted(replies: seq<Reply>, r: Request, first: nat, call: nat, hasChildren: bool, c: Continued, d: Draft) {
    match d.origin
    case Withheld => !RootResolved(r, c.state) && d.text == ""
    case FromContinuation => RootResolved(r, c.state) && c.texts != [] && d.text == Join(TextsOf(c.texts), "\n")
    case FromSynthesis =>
      && RootResolved(r, c.state) && c.texts == [] && hasChildren
      && FirstToSay(replies, first, call) && d.text == SaidAt(replies, call)
    case FromTexts =>
      RootResolved(r, c.state) && c.texts == [] && !hasChildren && d.text == Join(TextsOf(c.state.texts), "\n")
  }

  lemma WrittenDraft(replies: seq<Reply>, r: Request, hasChildren: bool, c: Continued, m: Meter, d: Draft, m1: Meter)
    returns (call: nat)
    requires Write(replies, r, hasChildren, c, m) == Going(m1, d)
    ensures Drafted(replies, r, m.invocations, call, hasChildren, c, d)
    ensures d.origin == Withheld <==> !RootResolved(r, c.state)
    ensures if d.origin == FromSynthesis then call == m.invocations + d.retries else d.retries == 0
  {
    if RootResolved(r, c.state) && c.texts == [] && hasChildren {
      var stage;
      stage, call := SynthesisIsFirstToSay(replies, m, 0, m.invocations);
    } else {
      call := m.invocations;
    }
  }

  /** The phases that a run ends with. */
  lemma FinishPhases(verdicts: Verdicts, replies: seq<Reply>, r: Request, hasChildren: bool, reconciled: bool,
                     st: State, m: Meter)
    returns (c: Continued, m1: Meter, summarized: bool, m2: Meter, d: Draft, m3: Meter, o: Output)
    requires Finish(verdicts, replies, r, hasChildren, reconciled, st, m).Going?
    ensures Continue(replies, r, hasChildren, st, m) == Going(m1, c)
    ensures Summarize(replies, r, hasChildren, c.state, m1) == Going(m2, summarized)
    ensures Write(replies, r, hasChildren, c, m2) == Going(m3, d)
    ensures o == Concluded(r, c.state, reconciled, summarized, d, Check(verdicts, replies, r, d, c.state.texts, m3))
    ensures o == Finish(verdicts, replies, r, hasChildren, reconciled, st, m).value
  {
    var continued := Continue(replies, r, hasChildren, st, m);
    c, m1 := continued.value, continued.meter;
    var summary := Summarize(replies, r, hasChildren, c.state, m1);
    summarized, m2 := summary.value, summary.meter;
    var written := Write(replies, r, hasChildren, c, m2);
    d, m3 := written.value, written.meter;
    o := Finish(verdicts, replies, r, hasChildren, reconciled, st, m).value;
  }

  /** How a draft is concluded. */
  lemma ConcludedDraft(verdicts: Verdicts, replies: seq<Reply>, r: Request, reconciled: bool, summarized: bool,
                       st: State, d: Draft, m: Meter)
    returns (o: Output)
    ensures o == Concluded(r, st, reconciled, summarized, d, Check(verdicts, replies, r, d, st.texts, m))
    ensures o.origin == d.origin
    ensures d.origin != Withheld ==> Follows(r, o, d.text)
    ensures d.origin == Withheld ==> o.finalText == d.text && o.verification.log == []
  {
    o := Concluded(r, st, reconciled, summarized, d, Check(verdicts, replies, r, d, st.texts, m));
    if d.origin != Withheld {
      CheckedDraft(verdicts, replies, r, reconciled, summarized, st, d, m);
    }
  }

  /** What the first three of these phases come to. */
  lemma PhaseFacts(replies: seq<Reply>, r: Request, hasChildren: bool, st: State, m: Meter, c: Continued, m1: Meter,
                   summarized: bool, m2: Meter, d: Draft, m3: Meter)
    returns (call: nat)
    requires Continue(replies, r, hasChildren, st, m) == Going(m1, c)
    requires Summarize(replies, r, hasChildren, c.state, m1) == Going(m2, summarized)
    requires Write(replies, r, hasChildren, c, m2) == Going(m3, d)
    ensures ContinuedSays(replies, r, m.invocations, hasChildren, c) && c.state.texts == st.texts
    ensures Drafted(replies, r, m2.invocations, call, hasChildren, c, d)
    ensures d.origin == Withheld <==> !RootResolved(r, c.state)
    ensures d.origin == FromSynthesis ==> m2.invocations == m.invocations + CallsBeforeSynthesis(r)
    ensures if d.origin == FromSynthesis then call == m2.invocations + d.retries else d.retries == 0
  {
    var continued, after := ContinuedTexts(replies, r, hasChildren, st, m);
    call := WrittenDraft(replies, r, hasChildren, c, m2, d, m3);
    if d.origin == FromSynthesis {
      SummarizedCalls(replies, r, hasChildren, c.state, m1);
    }
  }

  lemma DraftSays(replies: seq<Reply>, r: Request, hasChildren: bool, c: Continued, first: nat, last: nat, call: nat,
                  d: Draft, o: Output)
    requires ContinuedSays(replies, r, first, hasChildren, c)
    requires Drafted(replies, r, last, call, hasChildren, c, d)
    requires d.origin == FromSynthesis ==> last == first + CallsBeforeSynthesis(r)
    requires !hasChildren ==>
      first > 0 && TextsOf(c.state.texts) == TextsAt(replies, first - 1, r.rootTask.maySpawn)
    requires o.origin == d.origin && (d.origin != Withheld ==> Follows(r, o, d.text))
    requires d.origin == Withheld ==> o.finalText == d.text && o.verification.log == []
    ensures SaysWhatWasSaid(replies, r, first, hasChildren, o)
  {
  }

  lemma FinishSays(verdicts: Verdicts, replies: seq<Reply>, r: Request, hasChildren: bool, reconciled: bool, st: State,
                   m: Meter)
    returns (o: Output)
    requires Finish(verdicts, replies, r, hasChildren, reconciled, st, m).Going?
    requires !hasChildren ==>
      m.invocations > 0 && TextsOf(st.texts) == TextsAt(replies, m.invocations - 1, r.rootTask.maySpawn)
    ensures o == Finish(verdicts, replies, r, hasChildren, reconciled, st, m).value
    ensures SaysWhatWasSaid(replies, r, m.invocations, hasChildren, o)
  {
    var c, m1, summarized, m2, d, m3, output := FinishPhases(verdicts, replies, r, hasChildren, reconciled, st, m);
    o := output;
    PhasesSay(verdicts, replies, r, hasChildren, reconciled, st, m, c, m1, summarized, m2, d, m3, o);
  }

  lemma PhasesSay(verdicts: Verdicts, replies: seq<Reply>, r: Request, hasChildren: bool, reconciled: bool, st: State,
                  m: Meter, c: Continued, m1: Meter, summarized: bool, m2: Meter, d: Draft, m3: Meter, o: Output)
    requires Continue(replies, r, hasChildren, st, m) == Going(m1, c)
    requires Summarize(replies, r, hasChildren, c.state, m1) == Going(m2, summarized)
    requires Write(replies, r, hasChildren, c, m2) == Going(m3, d)
    requires o == Concluded(r, c.state, reconciled, summarized, d, Check(verdicts, replies, r, d, c.state.texts, m3))
    requires !hasChildren ==>
      m.invocations > 0 && TextsOf(st.texts) == TextsAt(replies, m.invocations - 1, r.rootTask.maySpawn)
    ensures SaysWhatWasSaid(replies, r, m.invocations, hasChildren, o)
  {
    var call := PhaseFacts(replies, r, hasChildren, st, m, c, m1, summarized, m2, d, m3);
    var concluded := ConcludedDraft(verdicts, replies, r, reconciled, summarized, c.state, d, m3);
    DraftSays(replies, r, hasChildren, c, m.invocations, m2.invocations, call, d, o);
  }

  /** The phases of a run in front of its end. */
  lemma RunPhases(verdicts: Verdicts, replies: seq<Reply>, r: Request, schedule: Schedule)
    returns (m: Meter, begun: Orchestrated, m1: Meter, st: State, stage: Stage<Output>)
    requires Run(verdicts, replies, r, schedule).Going?
    ensures Begin(replies, r) == Going(m, begun)
    ensures FanOutChildren(replies, r, schedule, begun.state, m) == Going(m1, st)
    ensures m1.invocations == m.invocations + |Agents(begun.state.graph)|
    ensures stage == Run(verdicts, replies, r, schedule)
    ensures stage == Finish(verdicts, replies, r, Agents(begun.state.graph) != {}, begun.reconciled, st, m1)
  {
    m, begun := Begin(replies, r).meter, Begin(replies, r).value;
    FanOutCost(replies, r, schedule, begun.state, m);
    var fanned := FanOutChildren(replies, r, schedule, begun.state, m);
    m1, st := fanned.meter, fanned.value;
    stage := Run(verdicts, replies, r, schedule);
  }

  /** The last call before the fan-out, when there is nobody to fan out to. */
  lemma RootSpokeLast(replies: seq<Reply>, r: Request, schedule: Schedule, m: Meter, begun: Orchestrated, m1: Meter,
                      st: State)
    requires r.Valid() && Begin(replies, r) == Going(m, begun)
    requires FanOutChildren(replies, r, schedule, begun.state, m) == Going(m1, st)
    ensures Agents(begun.state.graph) == {} ==>
      m1.invocations > 0 && TextsOf(st.texts) == TextsAt(replies, m1.invocations - 1, r.rootTask.maySpawn)
  {
    BeginningTexts(replies, r);
    if Agents(begun.state.graph) == {} {
      NobodyToFanOutTo(replies, r, schedule, begun.state, m);
    }
  }

  /** The final text of every output is what the replies said, in the order of preference of the kernel. */
  lemma EveryOutputSaysWhatWasSaid(verdicts: Verdicts, replies: seq<Reply>, r: Request, schedule: Schedule)
    returns (m: Meter, begun: Orchestrated, o: Output)
    requires r.Valid() && Run(verdicts, replies, r, schedule).Going?
    ensures o == Run(verdicts, replies, r, schedule).value && Begin(replies, r) == Going(m, begun)
    ensures var workers := |Agents(begun.state.graph)|;
      SaysWhatWasSaid(replies, r, m.invocations + workers, workers > 0, o)
  {
    var m1, st, stage;
    m, begun, m1, st, stage := RunPhases(verdicts, replies, r, schedule);
    RootSpokeLast(replies, r, schedule, m, begun, m1, st);
    o := FinishSays(verdicts, replies, r, Agents(begun.state.graph) != {}, begun.reconciled, st, m1);
  }

  // ---------------------------------------------------------------- the report

  /** The first synthesis of an output said nothing. */
  predicate Retried(replies: seq<Reply>, first: nat, o: Output) {
    o.origin == FromSynthesis && !HasInk(SaidAt(replies, first))
  }

  /** The report repeats the issues of the verification and adds exactly the notes that are due. */
  ghost predicate Reports(r: Request, o: Output, reconciled: bool, retried: bool) {
    && o.verification.result.issues <= o.report.issues
    && var notes := o.report.issues[|o.verification.result.issues|..];
    && (UnresolvedToolCalls in notes <==> o.origin == Withheld)
    && (OrchestrationPlanReconciled in notes <==> reconciled)
    && (EmptySynthesisRecovered in notes <==> retried)
    && (forall issue :: issue in notes ==>
          issue == UnresolvedToolCalls || issue == OrchestrationPlanReconciled || issue == EmptySynthesisRecovered)
    && (o.report.passed <==> o.verification.result.passed && o.origin != Withheld)
    && (o.verification.log == [] ==>
          o.verification.result.coveredArtifactIds == set text <- o.state.texts :: text.id)
    && (forall key :: key in o.report.unresolvedToolCalls <==>
          key in o.state.calls && key.0 == r.scope && o.state.calls[key].taskId == r.rootTask.taskId)
  }

  lemma NotesAreDue(unresolved: bool, reconciled: bool, retried: bool)
    returns (notes: seq<Issue>)
    ensures notes == NoteIf(unresolved, UnresolvedToolCalls) + NoteIf(reconciled, OrchestrationPlanReconciled)
                     + NoteIf(retried, EmptySynthesisRecovered)
    ensures UnresolvedToolCalls in notes <==> unresolved
    ensures OrchestrationPlanReconciled in notes <==> reconciled
    ensures EmptySynthesisRecovered in notes <==> retried
    ensures forall issue :: issue in notes ==>
              issue == UnresolvedToolCalls || issue == OrchestrationPlanReconciled || issue == EmptySynthesisRecovered
    ensures AllTolerated(notes) <==> !unresolved
  {
    var a, b, c := NoteIf(unresolved, UnresolvedToolCalls), NoteIf(reconciled, OrchestrationPlanReconciled),
                   NoteIf(retried, EmptySynthesisRecovered);
    notes := a + b + c;
    if unresolved {
      assert notes[0] == UnresolvedToolCalls;
    }
  }

  /** The issues of a report are those of the verification and the notes behind them. */
  lemma NotesBehindIssues(issues: seq<Issue>, a: seq<Issue>, b: seq<Issue>, c: seq<Issue>)
    ensures issues + a + b + c == issues + (a + b + c)
    ensures (issues + (a + b + c))[|issues|..] == a + b + c
    ensures issues <= issues + (a + b + c)
    ensures AllTolerated(a + b + c) && issues == [] ==> AllTolerated(issues + (a + b + c))
    ensures AllTolerated(issues + (a + b + c)) ==> AllTolerated(a + b + c)
  {
    var notes := a + b + c;
    assert forall i :: 0 <= i < |notes| ==> notes[i] == (issues + notes)[|issues| + i];
  }

  lemma ConcludedReport(r: Request, st: State, reconciled: bool, summarized: bool, d: Draft, v: Verification,
                        retried: bool)
    requires v.result.passed <==> v.result.issues == []
    requires v.log == [] ==> v.result.coveredArtifactIds == set text <- st.texts :: text.id
    requires retried <==> d.retries > 0
    requires d.origin == Withheld <==> !RootResolved(r, st)
    ensures Reports(r, Concluded(r, st, reconciled, summarized, d, v), reconciled, retried)
  {
    var notes := NotesAreDue(!RootResolved(r, st), reconciled, retried);
    NotesBehindIssues(v.result.issues, NoteIf(!RootResolved(r, st), UnresolvedToolCalls),
                      NoteIf(reconciled, OrchestrationPlanReconciled), NoteIf(retried, EmptySynthesisRecovered));
  }

  lemma CheckedIssues(verdicts: Verdicts, replies: seq<Reply>, r: Request, d: Draft, evidence: seq<AgentArtifact>,
                      m: Meter)
    ensures var v := Check(verdicts, replies, r, d, evidence, m);
      && (v.result.passed <==> v.result.issues == [])
      && (v.log == [] ==> v.result.coveredArtifactIds == set text <- evidence :: text.id)
  {
    IdsAreThose(evidence);
    if Verifies(r, d, LaidOut(d)) {
      VerificationIsSound(verdicts, replies, r.maxRepairs, m, LaidOut(d));
      FirstCandidate(verdicts, replies, r.maxRepairs, m, LaidOut(d));
    }
  }

  lemma {:induction false} IdsAreThose(artifacts: seq<AgentArtifact>)
    ensures IdsOf(artifacts) == set artifact <- artifacts :: artifact.id
  {
    if artifacts != [] {
      IdsAreThose(artifacts[1..]);
      Sequences.Cons(artifacts);
    }
  }

  lemma RetriesAreSilence(replies: seq<Reply>, first: nat, call: nat, retries: nat)
    requires FirstToSay(replies, first, call) && call == first + retries
    ensures retries > 0 <==> !HasInk(SaidAt(replies, first))
  {
  }

  lemma FinishReports(verdicts: Verdicts, replies: seq<Reply>, r: Request, hasChildren: bool, reconciled: bool,
                      st: State, m: Meter)
    returns (o: Output, first: nat, retried: bool)
    requires Finish(verdicts, replies, r, hasChildren, reconciled, st, m).Going?
    ensures o == Finish(verdicts, replies, r, hasChildren, reconciled, st, m).value
    ensures o.origin == FromSynthesis ==> first == m.invocations + CallsBeforeSynthesis(r)
    ensures retried <==> Retried(replies, first, o)
    ensures Reports(r, o, reconciled, retried)
  {
    var c, m1, summarized, m2, d, m3, output := FinishPhases(verdicts, replies, r, hasChildren, reconciled, st, m);
    o, first, retried := output, m2.invocations, d.retries > 0;
    PhasesReport(verdicts, replies, r, hasChildren, reconciled, st, m, c, m1, summarized, m2, d, m3, o, retried);
  }

  lemma PhasesReport(verdicts: Verdicts, replies: seq<Reply>, r: Request, hasChildren: bool, reconciled: bool,
                     st: State, m: Meter, c: Continued, m1: Meter, summarized: bool, m2: Meter, d: Draft, m3: Meter,
                     o: Output, retried: bool)
    requires Continue(replies, r, hasChildren, st, m) == Going(m1, c)
    requires Summarize(replies, r, hasChildren, c.state, m1) == Going(m2, summarized)
    requires Write(replies, r, hasChildren, c, m2) == Going(m3, d)
    requires o == Concluded(r, c.state, reconciled, summarized, d, Check(verdicts, replies, r, d, c.state.texts, m3))
    requires retried <==> d.retries > 0
    ensures d.origin == FromSynthesis ==> m2.invocations == m.invocations + CallsBeforeSynthesis(r)
    ensures retried <==> Retried(replies, m2.invocations, o)
    ensures Reports(r, o, reconciled, retried)
  {
    var call := PhaseFacts(replies, r, hasChildren, st, m, c, m1, summarized, m2, d, m3);
    if d.origin == FromSynthesis {
      RetriesAreSilence(replies, m2.invocations, call, d.retries);
    }
    CheckedIssues(verdicts, replies, r, d, c.state.texts, m3);
    ConcludedReport(r, c.state, reconciled, summarized, d, Check(verdicts, replies, r, d, c.state.texts, m3), retried);
  }

  /** The report of every output has the issues of its verification, exactly the notes that are due, and says so. */
  lemma EveryReportIsExact(verdicts: Verdicts, replies: seq<Reply>, r: Request, schedule: Schedule)
    returns (m: Meter, begun: Orchestrated, o: Output, first: nat, retried: bool)
    requires Run(verdicts, replies, r, schedule).Going?
    ensures o == Run(verdicts, replies, r, schedule).value && Begin(replies, r) == Going(m, begun)
    ensures o.origin == FromSynthesis ==>
      first == m.invocations + |Agents(begun.state.graph)| + CallsBeforeSynthesis(r)
    ensures retried <==> Retried(replies, first, o)
    ensures Reports(r, o, begun.reconciled, retried)
  {
    var m1, st, stage;
    m, begun, m1, st, stage := RunPhases(verdicts, replies, r, schedule);
    o, first, retried :=
      FinishReports(verdicts, replies, r, Agents(begun.state.graph) != {}, begun.reconciled, st, m1);
  }

  // ---------------------------------------------------------------- direct runs

  function KeyOf(call: ToolCallRecord): (IsolationKey, string) {
    (call.scope, call.toolCallId)
  }

  /** The last record under a key, and that it is the one that stays. */
  lemma {:induction false} LastRecordStays(calls: Calls, records: seq<ToolCallRecord>, key: (IsolationKey, string))
    returns (i: int)
    ensures -1 <= i < |records|
    ensures forall j :: i < j < |records| ==> KeyOf(records[j]) != key
    ensures i >= 0 ==>
      KeyOf(records[i]) == key && key in RecordCalls(calls, records) && RecordCalls(calls, records)[key] == records[i]
    ensures i == -1 ==> (key in RecordCalls(calls, records) <==> key in calls)
    ensures i == -1 && key in calls ==> RecordCalls(calls, records)[key] == calls[key]
    decreases |records|
  {
    if records == [] {
      i := -1;
    } else {
      var rest := LastRecordStays(calls[KeyOf(records[0]) := records[0]], records[1..], key);
      i := if rest >= 0 then rest + 1 else if KeyOf(records[0]) == key then 0 else -1;
    }
  }

  /** A call of the root that no later record of the same key replaces. */
  predicate RootCall(r: Request, calls: seq<ToolCallRecord>, i: nat) {
    && i < |calls| && calls[i].scope == r.scope && calls[i].taskId == r.rootTask.taskId
    && forall j :: i < j < |calls| ==> KeyOf(calls[j]) != KeyOf(calls[i])
  }

  predicate RootCalls(r: Request, calls: seq<ToolCallRecord>) {
    exists i :: 0 <= i < |calls| && RootCall(r, calls, i)
  }

  /** A root that called no tool is resolved, and no other. */
  lemma ResolvedIffNoRootCall(r: Request, calls: seq<ToolCallRecord>)
    ensures Unresolved(RecordCalls(map[], calls), {}, r.scope, r.rootTask.taskId) == {} <==> !RootCalls(r, calls)
  {
    var recorded := RecordCalls(map[], calls);
    var unresolved := Unresolved(recorded, {}, r.scope, r.rootTask.taskId);
    if key :| key in unresolved {
      var i := LastRecordStays(map[], calls, key);
      assert RootCall(r, calls, i);
    }
    if i :| 0 <= i < |calls| && RootCall(r, calls, i) {
      var last := LastRecordStays(map[], calls, KeyOf(calls[i]));
      assert KeyOf(calls[i]) in unresolved;
    }
  }

  /** Without room for agents a response is absorbed whole, and its plans come to nothing. */
  lemma {:induction false} AbsorbedWithoutRoom(limits: ExecutionLimits, scope: IsolationKey, task: SubtaskSpec,
                                               st: State, artifacts: seq<AgentArtifact>)
    requires limits.maxAgentsPerRequest == 0
    ensures var (next, error) := ApplyArtifacts(limits, scope, task, st, artifacts);
      error == None && next.graph == st.graph && next.calls == st.calls
    decreases |artifacts|
  {
    if artifacts != [] {
      AbsorbedWithoutRoom(limits, scope, task, ApplyArtifact(limits, scope, task, st, artifacts[0]).0, artifacts[1..]);
    }
  }

  /** What a direct run comes to, by the one reply it gets. */
  ghost predicate DirectlySays(r: Request, reply: Reply, stage: Stage<Output>) {
    match reply
    case Failure(error) => stage == Stopped(Meter(1, 0, 0), error)
    case Success(response) =>
      var meter := Meter(1, 1, response.tokens);
      if |response.toolCalls| > r.limits.maxTotalToolCalls then stage == Stopped(meter, BudgetExceeded)
      else
        && stage.Going? && stage.meter == meter
        && if RootCalls(r, response.toolCalls)
           then stage.value.origin == Withheld && stage.value.finalText == "" && !stage.value.report.passed
           else
             && stage.value.origin == FromTexts
             && stage.value.finalText == Layout(Join(Texts(response.artifacts, r.rootTask.maySpawn), "\n"))
             && stage.value.report == Report(true, [], {})
  }

  /** A direct run begins with the one reply, absorbed whole, or stops. */
  lemma DirectlyBegun(replies: seq<Reply>, r: Request, response: ProviderResponse)
    returns (st: State)
    requires r.Valid() && r.effort == Direct
    requires Ask(replies, 0) == Success(response) && |response.toolCalls| <= r.limits.maxTotalToolCalls
    ensures Begin(replies, r) == Going(Meter(1, 1, response.tokens), Orchestrated(st, false, true))
    ensures Agents(st.graph) == {} && st.calls == RecordCalls(map[], response.toolCalls)
    ensures TextsOf(st.texts) == Texts(response.artifacts, r.rootTask.maySpawn)
  {
    var start := r.Start().(calls := RecordCalls(map[], response.toolCalls));
    AbsorbedWithoutRoom(r.limits, r.scope, r.rootTask, start, response.artifacts);
    AbsorbedTexts(r.limits, r.scope, r.rootTask, start, response.artifacts);
    st := ApplyArtifacts(r.limits, r.scope, r.rootTask, start, response.artifacts).0;
  }

  lemma DirectlyFinished(verdicts: Verdicts, replies: seq<Reply>, r: Request, st: State, m: Meter)
    returns (o: Output)
    requires r.effort == Direct
    ensures Finish(verdicts, replies, r, false, false, st, m) == Going(m, o)
    ensures !RootResolved(r, st) ==> o.origin == Withheld && o.finalText == "" && !o.report.passed
    ensures RootResolved(r, st) ==>
      && o.origin == FromTexts && o.finalText == Layout(Join(TextsOf(st.texts), "\n"))
      && o.report == Report(true, [], {})
  {
    var c := Continued(st, []);
    var d := if RootResolved(r, st) then Draft(FromTexts, SynthesizeText(st.texts), 0) else Draft(Withheld, "", 0);
    assert Write(replies, r, false, c, m) == Going(m, d);
    o := Concluded(r, st, false, false, d, Check(verdicts, replies, r, d, st.texts, m));
    if !RootResolved(r, st) {
      assert o.report.issues[0] == UnresolvedToolCalls;
    }
  }

  /** A direct run is its one reply: refused, held back for its tool calls, or laid out as the answer. */
  lemma DirectRunSaysItsReply(verdicts: Verdicts, replies: seq<Reply>, r: Request, schedule: Schedule)
    requires r.Valid() && r.effort == Direct
    ensures DirectlySays(r, Ask(replies, 0), Run(verdicts, replies, r, schedule))
  {
    match Ask(replies, 0)
    case Failure(_) =>
    case Success(response) =>
      if |response.toolCalls| <= r.limits.maxTotalToolCalls {
        var m := Meter(1, 1, response.tokens);
        var st := DirectlyBegun(replies, r, response);
        NobodyToFanOutTo(replies, r, schedule, st, m);
        ResolvedIffNoRootCall(r, response.toolCalls);
        var o := DirectlyFinished(verdicts, replies, r, st, m);
      }
  }
}
