/** The final synthesis with its retries, and the loop that verifies and repairs its result. */
module SemanticVerification {
  import opened Wrappers
  import opened RustText
  import opened KernelTypes
  import opened ModelProvider
  import StructuredLayout
  import StructuredLayoutLaws

  // ---------------------------------------------------------------- synthesis

  const MAX_EMPTY_SYNTHESIS_RETRY_ATTEMPTS: nat := 2

  datatype Synthesis = Synthesis(text: string, retries: nat)

  /** The synthesis attempts from `attempt` on. */
  function SynthesizeFrom(replies: seq<Reply>, m: Meter, attempt: nat): (stage: Stage<Synthesis>)
    requires attempt <= MAX_EMPTY_SYNTHESIS_RETRY_ATTEMPTS
    decreases MAX_EMPTY_SYNTHESIS_RETRY_ATTEMPTS - attempt
  {
    match Ask(replies, m.invocations)
    case Failure(error) => Stopped(Failed(m), error)
    case Success(response) =>
      var next, text := Answered(m, response), SynthesizeText(response.artifacts);
      if !IsBlank(text) then Going(next, Synthesis(text, attempt))
      else if attempt == MAX_EMPTY_SYNTHESIS_RETRY_ATTEMPTS then Stopped(next, EmptySynthesis(attempt + 1))
      else SynthesizeFrom(replies, next, attempt + 1)
  }

  method Synthesize(oracle: Oracle) returns (stage: Stage<Synthesis>)
    modifies oracle
    ensures stage == SynthesizeFrom(oracle.replies, old(oracle.meter), 0)
    ensures oracle.meter == stage.meter
  {
    var attempt := 0;
    while true
      invariant attempt <= MAX_EMPTY_SYNTHESIS_RETRY_ATTEMPTS
      invariant SynthesizeFrom(oracle.replies, old(oracle.meter), 0)
             == SynthesizeFrom(oracle.replies, oracle.meter, attempt)
      decreases MAX_EMPTY_SYNTHESIS_RETRY_ATTEMPTS - attempt
    {
      var reply := oracle.Invoke();
      match reply {
        case Failure(error) =>
          return Stopped(oracle.meter, error);
        case Success(response) =>
          var text := SynthesizeText(response.artifacts);
          if !IsBlank(text) {
            return Going(oracle.meter, Synthesis(text, attempt));
          }
          if attempt >= MAX_EMPTY_SYNTHESIS_RETRY_ATTEMPTS {
            return Stopped(oracle.meter, EmptySynthesis(attempt + 1));
          }
          attempt := attempt + 1;
      }
    }
  }

  lemma {:induction false} SynthesisIsBounded(replies: seq<Reply>, m: Meter, attempt: nat)
    requires attempt <= MAX_EMPTY_SYNTHESIS_RETRY_ATTEMPTS
    ensures var stage := SynthesizeFrom(replies, m, attempt);
      && m.invocations < stage.meter.invocations <= m.invocations + 3 - attempt
      && (stage.Going? ==>
            attempt <= stage.value.retries <= MAX_EMPTY_SYNTHESIS_RETRY_ATTEMPTS && !IsBlank(stage.value.text))
    decreases MAX_EMPTY_SYNTHESIS_RETRY_ATTEMPTS - attempt
  {
    match Ask(replies, m.invocations)
    case Failure(_) =>
    case Success(response) =>
      if IsBlank(SynthesizeText(response.artifacts)) && attempt < MAX_EMPTY_SYNTHESIS_RETRY_ATTEMPTS {
        SynthesisIsBounded(replies, Answered(m, response), attempt + 1);
      }
  }

  /** Synthesis makes at most three calls and never goes on with a blank text, before or after layout. */
  lemma SynthesisIsBoundedAndNotBlank(replies: seq<Reply>, m: Meter)
    ensures var stage := SynthesizeFrom(replies, m, 0);
      && m.invocations < stage.meter.invocations <= m.invocations + 3
      && (stage.Going? ==>
            && stage.value.retries <= MAX_EMPTY_SYNTHESIS_RETRY_ATTEMPTS
            && !IsBlank(stage.value.text)
            && !IsBlank(StructuredLayout.Normalize(stage.value.text)))
  {
    SynthesisIsBounded(replies, m, 0);
    var stage := SynthesizeFrom(replies, m, 0);
    if stage.Going? {
      StructuredLayoutLaws.NormalizeKeepsInk(stage.value.text);
    }
  }

  // ---------------------------------------------------------------- verification

  datatype Issue =
    | SemanticVerifierError
    | InvalidSemanticVerdict
    | SemanticVerificationFailed
    | SemanticRepairError
    | EmptySemanticRepair
    | UnresolvedToolCalls
    | MissingModelSpawnPlan
    | OrchestrationPlanReconciled
    | EmptySynthesisRecovered
    | Reported(code: string)

  datatype Verdict = Verdict(passed: bool, issues: seq<Issue>, coveredArtifactIds: set<string>)

  /** The texts that parse as verdicts, with what they say. */
  type Verdicts = map<string, Verdict>

  function VerdictOf(verdicts: Verdicts, artifacts: seq<AgentArtifact>): Option<Verdict> {
    if artifacts == [] then None
    else if artifacts[0].TextArtifact? && artifacts[0].text in verdicts then Some(verdicts[artifacts[0].text])
    else VerdictOf(verdicts, artifacts[1..])
  }

  function IssuesOf(verdict: Verdict): (issues: seq<Issue>)
    ensures issues != []
  {
    if verdict.issues == [] then [SemanticVerificationFailed] else verdict.issues
  }

  datatype SemanticResult = SemanticResult(
    finalText: string,
    passed: bool,
    issues: seq<Issue>,
    coveredArtifactIds: set<string>)

  /** What the loop sent to the model, and the reply. */
  datatype Exchange =
    | Verify(candidate: string, reply: Reply)
    | Repair(candidate: string, issues: seq<Issue>, reply: Reply)

  datatype Verification = Verification(result: SemanticResult, meter: Meter, log: seq<Exchange>)

  /** What one verifier reply means for a candidate. */
  datatype Judgement = Settled(result: SemanticResult) | Rejected(issues: seq<Issue>, covered: set<string>)

  function Judge(verdicts: Verdicts, candidate: string, reply: Reply): Judgement {
    match reply
    case Failure(_) => Settled(SemanticResult(candidate, false, [SemanticVerifierError], {}))
    case Success(response) =>
      match VerdictOf(verdicts, response.artifacts)
      case None => Settled(SemanticResult(candidate, false, [InvalidSemanticVerdict], {}))
      case Some(verdict) =>
        if verdict.passed then Settled(SemanticResult(candidate, true, [], verdict.coveredArtifactIds))
        else Rejected(IssuesOf(verdict), verdict.coveredArtifactIds)
  }

  /** What one repair reply means: a new candidate, or giving up on the old one. */
  function Repaired(candidate: string, issues: seq<Issue>, covered: set<string>, reply: Reply)
    : Result<string, SemanticResult>
  {
    match reply
    case Failure(_) => Failure(SemanticResult(candidate, false, issues + [SemanticRepairError], covered))
    case Success(response) =>
      var text := SynthesizeText(response.artifacts);
      if IsBlank(text) then Failure(SemanticResult(candidate, false, issues + [EmptySemanticRepair], covered))
      else Success(StructuredLayout.Normalize(text))
  }

  function Metered(m: Meter, reply: Reply): Meter {
    match reply
    case Success(response) => Answered(m, response)
    case Failure(_) => Failed(m)
  }

  /** The verify/repair loop after `attempts` repairs, with what it sends out from there on. */
  function VerifyFrom(verdicts: Verdicts, replies: seq<Reply>, maxRepairs: nat, attempts: nat, m: Meter,
                      candidate: string)
    : Verification
    requires attempts <= maxRepairs
    decreases maxRepairs - attempts, 1
  {
    var verifier := Ask(replies, m.invocations);
    var m1, exchange := Metered(m, verifier), Verify(candidate, verifier);
    match Judge(verdicts, candidate, verifier)
    case Settled(result) => Verification(result, m1, [exchange])
    case Rejected(issues, covered) =>
      if attempts == maxRepairs then Verification(SemanticResult(candidate, false, issues, covered), m1, [exchange])
      else Behind(exchange, RepairFrom(verdicts, replies, maxRepairs, attempts, m1, candidate, issues, covered))
  }

  /** The loop from a repair on. */
  function RepairFrom(verdicts: Verdicts, replies: seq<Reply>, maxRepairs: nat, attempts: nat, m: Meter,
                      candidate: string, issues: seq<Issue>, covered: set<string>)
    : Verification
    requires attempts < maxRepairs
    decreases maxRepairs - attempts, 0
  {
    var repair := Ask(replies, m.invocations);
    var m1, exchange := Metered(m, repair), Repair(candidate, issues, repair);
    match Repaired(candidate, issues, covered, repair)
    case Failure(result) => Verification(result, m1, [exchange])
    case Success(next) => Behind(exchange, VerifyFrom(verdicts, replies, maxRepairs, attempts + 1, m1, next))
  }

  /** What follows an exchange. */
  function Behind(exchange: Exchange, v: Verification): Verification {
    Verification(v.result, v.meter, [exchange] + v.log)
  }

  method RunSemanticVerification(verdicts: Verdicts, oracle: Oracle, maxRepairs: nat, first: string)
    returns (result: SemanticResult, log: seq<Exchange>)
    modifies oracle
    ensures Verification(result, oracle.meter, log)
         == VerifyFrom(verdicts, oracle.replies, maxRepairs, 0, old(oracle.meter), first)
  {
    var attempts, candidate := 0, first;
    log := [];
    while true
      invariant attempts <= maxRepairs
      invariant Continues(log, VerifyFrom(verdicts, oracle.replies, maxRepairs, attempts, oracle.meter, candidate))
             == VerifyFrom(verdicts, oracle.replies, maxRepairs, 0, old(oracle.meter), first)
      decreases maxRepairs - attempts
    {
      var verified := AskVerifier(verdicts, oracle, maxRepairs, attempts, candidate, log);
      log := log + [verified.exchange];
      if verified.Ended? {
        return verified.result, log;
      }
      var after := attempts + 1;
      var repaired := AskForRepair(verdicts, oracle, maxRepairs, attempts, after, candidate, verified.issues,
                                   verified.covered, log);
      log := log + [repaired.exchange];
      attempts := after;
      match repaired {
        case GivenUp(_, given) =>
          return given, log;
        case Candidate(_, next) =>
          candidate := next;
      }
    }
  }

  /** What one call to the verifier leads to. */
  datatype Verified =
    | Ended(exchange: Exchange, result: SemanticResult)
    | ToRepair(exchange: Exchange, issues: seq<Issue>, covered: set<string>)

  method AskVerifier(verdicts: Verdicts, oracle: Oracle, maxRepairs: nat, attempts: nat, candidate: string,
                     ghost log: seq<Exchange>)
    returns (verified: Verified)
    requires attempts <= maxRepairs
    modifies oracle
    ensures var all := Continues(log, VerifyFrom(verdicts, oracle.replies, maxRepairs, attempts, old(oracle.meter),
                                                 candidate));
      match verified
      case Ended(exchange, result) => all == Verification(result, oracle.meter, log + [exchange])
      case ToRepair(exchange, issues, covered) =>
        && attempts < maxRepairs
        && all == Continues(log + [exchange], RepairFrom(verdicts, oracle.replies, maxRepairs, attempts, oracle.meter,
                                                         candidate, issues, covered))
  {
    var verifier := oracle.Invoke();
    var exchange := Verify(candidate, verifier);
    match Judge(verdicts, candidate, verifier) {
      case Settled(settled) =>
        verified := Ended(exchange, settled);
      case Rejected(issues, covered) =>
        if attempts >= maxRepairs {
          return Ended(exchange, SemanticResult(candidate, false, issues, covered));
        }
        verified := ToRepair(exchange, issues, covered);
        ContinuesBehind(log, exchange, RepairFrom(verdicts, oracle.replies, maxRepairs, attempts, oracle.meter,
                                                  candidate, issues, covered));
    }
  }

  /** What one call for a repair leads to. */
  datatype Amended = GivenUp(exchange: Exchange, result: SemanticResult) | Candidate(exchange: Exchange, next: string)

  method AskForRepair(verdicts: Verdicts, oracle: Oracle, maxRepairs: nat, attempts: nat, ghost after: nat,
                      candidate: string, issues: seq<Issue>, covered: set<string>, ghost log: seq<Exchange>)
    returns (amended: Amended)
    requires attempts < maxRepairs && after == attempts + 1
    modifies oracle
    ensures var all := Continues(log, RepairFrom(verdicts, oracle.replies, maxRepairs, attempts, old(oracle.meter),
                                                 candidate, issues, covered));
      match amended
      case GivenUp(exchange, result) => all == Verification(result, oracle.meter, log + [exchange])
      case Candidate(exchange, next) =>
        all == Continues(log + [exchange], VerifyFrom(verdicts, oracle.replies, maxRepairs, after, oracle.meter, next))
  {
    var repair := oracle.Invoke();
    var exchange := Repair(candidate, issues, repair);
    match Repaired(candidate, issues, covered, repair) {
      case Failure(given) =>
        amended := GivenUp(exchange, given);
      case Success(next) =>
        amended := Candidate(exchange, next);
        ContinuesBehind(log, exchange, VerifyFrom(verdicts, oracle.replies, maxRepairs, after, oracle.meter, next));
    }
  }

  ghost function Continues(log: seq<Exchange>, v: Verification): Verification {
    Verification(v.result, v.meter, log + v.log)
  }

  lemma ContinuesBehind(log: seq<Exchange>, exchange: Exchange, v: Verification)
    ensures Continues(log, Behind(exchange, v)) == Continues(log + [exchange], v)
  {
    assert log + ([exchange] + v.log) == log + [exchange] + v.log;
  }

  // ---------------------------------------------------------------- what the loop guarantees

  /** The last thing the loop did was to have exactly the returned text accepted. */
  predicate LastVerdictAccepted(verdicts: Verdicts, v: Verification) {
    v.log != [] && Accepts(verdicts, v.log[|v.log| - 1], v.result.finalText)
  }

  predicate Accepts(verdicts: Verdicts, exchange: Exchange, text: string) {
    && exchange.Verify? && exchange.candidate == text && exchange.reply.Success?
    && VerdictOf(verdicts, exchange.reply.value.artifacts).Some?
    && VerdictOf(verdicts, exchange.reply.value.artifacts).value.passed
  }

  /** Not blank, said without a quantifier. */
  predicate HasInk(s: string) {
    Ink(s) != []
  }

  predicate CandidatesHaveInk(log: seq<Exchange>) {
    log == [] || (HasInk(log[0].candidate) && CandidatesHaveInk(log[1..]))
  }

  function Verifiers(log: seq<Exchange>): nat {
    if log == [] then 0 else (if log[0].Verify? then 1 else 0) + Verifiers(log[1..])
  }

  lemma RepairedNotBlank(candidate: string, issues: seq<Issue>, covered: set<string>, reply: Reply)
    ensures var r := Repaired(candidate, issues, covered, reply);
      && (r.Success? ==> HasInk(r.value))
      && (r.Failure? ==> r.error.finalText == candidate && !r.error.passed && r.error.issues != [])
  {
    if reply.Success? {
      StructuredLayoutLaws.NormalizeKeepsInk(SynthesizeText(reply.value.artifacts));
      InkOfBlank(SynthesizeText(reply.value.artifacts));
    }
  }

  lemma JudgedTexts(verdicts: Verdicts, candidate: string, reply: Reply)
    ensures var j := Judge(verdicts, candidate, reply);
      && (j.Settled? ==> j.result.finalText == candidate && (j.result.passed <==> j.result.issues == []))
      && (j.Settled? && j.result.passed ==> Accepts(verdicts, Verify(candidate, reply), candidate))
      && (j.Rejected? ==> j.issues != [])
  {
  }

  /**
   A log that uses at most that many verifier and repair calls, sends out no blank candidate, and
   ends with an accepted text if it ends with a pass.
   */
  predicate SoundLog(verdicts: Verdicts, verifiers: nat, repairs: nat, log: seq<Exchange>, result: SemanticResult) {
    && log != []
    && HasInk(log[0].candidate)
    && (if log[0].Verify? then verifiers > 0 else repairs > 0)
    && (if |log| == 1 then result.passed ==> Accepts(verdicts, log[0], result.finalText)
        else if log[0].Verify? then SoundLog(verdicts, verifiers - 1, repairs, log[1..], result)
        else SoundLog(verdicts, verifiers, repairs - 1, log[1..], result))
  }

  lemma {:induction false} SoundLogMeans(verdicts: Verdicts, verifiers: nat, repairs: nat, log: seq<Exchange>,
                                         result: SemanticResult)
    requires SoundLog(verdicts, verifiers, repairs, log, result)
    ensures Verifiers(log) <= verifiers && |log| - Verifiers(log) <= repairs
    ensures CandidatesHaveInk(log)
    ensures log != [] && (result.passed ==> Accepts(verdicts, log[|log| - 1], result.finalText))
    decreases |log|
  {
    if |log| == 1 {
      assert log[1..] == [];
    } else if log[0].Verify? {
      SoundLogMeans(verdicts, verifiers - 1, repairs, log[1..], result);
    } else {
      SoundLogMeans(verdicts, verifiers, repairs - 1, log[1..], result);
    }
  }

  /** What holds of the loop's outcome with that many verifier and repair calls left, however it is entered. */
  predicate Sound(verdicts: Verdicts, verifiers: nat, repairs: nat, m: Meter, v: Verification) {
    && SoundLog(verdicts, verifiers, repairs, v.log, v.result)
    && v.meter.invocations == m.invocations + |v.log|
    && (v.result.passed <==> v.result.issues == [])
    && HasInk(v.result.finalText)
  }

  lemma OneExchangeIsSound(verdicts: Verdicts, verifiers: nat, repairs: nat, m: Meter, exchange: Exchange,
                           result: SemanticResult)
    requires HasInk(exchange.candidate) && result.finalText == exchange.candidate
             && (result.passed <==> result.issues == [])
    requires result.passed ==> Accepts(verdicts, exchange, exchange.candidate)
    requires if exchange.Verify? then verifiers > 0 else repairs > 0
    ensures Sound(verdicts, verifiers, repairs, m, Verification(result, Metered(m, exchange.reply), [exchange]))
  {
  }

  /** One more exchange in front of a sound rest; `verifiers` and `repairs` count it too. */
  lemma BehindIsSound(verdicts: Verdicts, verifiers: nat, repairs: nat, m: Meter, exchange: Exchange, v: Verification,
                      verifiersLeft: nat, repairsLeft: nat)
    requires HasInk(exchange.candidate) && Sound(verdicts, verifiersLeft, repairsLeft, Metered(m, exchange.reply), v)
    requires if exchange.Verify? then verifiers == verifiersLeft + 1 && repairs == repairsLeft
             else verifiers == verifiersLeft && repairs == repairsLeft + 1
    ensures Sound(verdicts, verifiers, repairs, m, Behind(exchange, v))
  {
    assert Behind(exchange, v).log[1..] == v.log;
  }

  lemma {:induction false} LoopIsSound(verdicts: Verdicts, replies: seq<Reply>, maxRepairs: nat, attempts: nat,
                                       m: Meter, candidate: string, verifiers: nat, repairs: nat)
    returns (v: Verification)
    requires attempts <= maxRepairs && HasInk(candidate)
    requires repairs == maxRepairs - attempts && verifiers == repairs + 1
    ensures v == VerifyFrom(verdicts, replies, maxRepairs, attempts, m, candidate)
    ensures Sound(verdicts, verifiers, repairs, m, v)
    decreases maxRepairs - attempts, 1
  {
    var verifier := Ask(replies, m.invocations);
    var exchange := Verify(candidate, verifier);
    JudgedTexts(verdicts, candidate, verifier);
    match Judge(verdicts, candidate, verifier)
    case Settled(result) =>
      v := Verification(result, Metered(m, verifier), [exchange]);
      OneExchangeIsSound(verdicts, verifiers, repairs, m, exchange, result);
    case Rejected(issues, covered) =>
      if attempts == maxRepairs {
        var result := SemanticResult(candidate, false, issues, covered);
        v := Verification(result, Metered(m, verifier), [exchange]);
        OneExchangeIsSound(verdicts, verifiers, repairs, m, exchange, result);
      } else {
        var rest := RepairIsSound(verdicts, replies, maxRepairs, attempts, Metered(m, verifier), candidate, issues,
                                  covered, repairs);
        v := Behind(exchange, rest);
        BehindIsSound(verdicts, verifiers, repairs, m, exchange, rest, repairs, repairs);
      }
  }

  lemma {:induction false} RepairIsSound(verdicts: Verdicts, replies: seq<Reply>, maxRepairs: nat, attempts: nat,
                                         m: Meter, candidate: string, issues: seq<Issue>, covered: set<string>,
                                         left: nat)
    returns (v: Verification)
    requires attempts < maxRepairs && left == maxRepairs - attempts && HasInk(candidate) && issues != []
    ensures v == RepairFrom(verdicts, replies, maxRepairs, attempts, m, candidate, issues, covered)
    ensures Sound(verdicts, left, left, m, v)
    decreases maxRepairs - attempts, 0
  {
    var after, repairs := attempts + 1, left - 1;
    var exchange, outcome := RepairEnds(verdicts, replies, maxRepairs, attempts, after, m, candidate, issues, covered);
    if outcome.Failure? {
      v := Verification(outcome.error, Metered(m, exchange.reply), [exchange]);
      OneExchangeIsSound(verdicts, left, left, m, exchange, outcome.error);
    } else {
      v := NextCandidateIsSound(verdicts, replies, maxRepairs, after, m, exchange, outcome.value, left, repairs);
    }
  }

  lemma {:induction false} NextCandidateIsSound(verdicts: Verdicts, replies: seq<Reply>, maxRepairs: nat, attempts: nat,
                                                m: Meter, exchange: Exchange, next: string, left: nat, repairs: nat)
    returns (v: Verification)
    requires attempts <= maxRepairs && repairs == maxRepairs - attempts && left == repairs + 1
    requires exchange.Repair? && HasInk(exchange.candidate) && HasInk(next)
    ensures v == Behind(exchange, VerifyFrom(verdicts, replies, maxRepairs, attempts, Metered(m, exchange.reply), next))
    ensures Sound(verdicts, left, left, m, v)
    decreases maxRepairs - attempts, 2
  {
    var rest := LoopIsSound(verdicts, replies, maxRepairs, attempts, Metered(m, exchange.reply), next, left, repairs);
    BehindIsSound(verdicts, left, left, m, exchange, rest, left, repairs);
    v := Behind(exchange, rest);
  }

  /** How the loop goes on from a repair: it gives up with issues, or verifies a new candidate. */
  lemma RepairEnds(verdicts: Verdicts, replies: seq<Reply>, maxRepairs: nat, attempts: nat, after: nat, m: Meter,
                   candidate: string, issues: seq<Issue>, covered: set<string>)
    returns (exchange: Exchange, outcome: Result<string, SemanticResult>)
    requires attempts < maxRepairs && after == attempts + 1
    ensures exchange == Repair(candidate, issues, Ask(replies, m.invocations))
    ensures outcome == Repaired(candidate, issues, covered, exchange.reply)
    ensures outcome.Failure? ==>
      && outcome.error.finalText == candidate && !outcome.error.passed && outcome.error.issues != []
      && RepairFrom(verdicts, replies, maxRepairs, attempts, m, candidate, issues, covered)
         == Verification(outcome.error, Metered(m, exchange.reply), [exchange])
    ensures outcome.Success? ==>
      && HasInk(outcome.value)
      && RepairFrom(verdicts, replies, maxRepairs, attempts, m, candidate, issues, covered)
         == Behind(exchange, VerifyFrom(verdicts, replies, maxRepairs, after, Metered(m, exchange.reply),
                                        outcome.value))
  {
    var repair := Ask(replies, m.invocations);
    exchange, outcome := Repair(candidate, issues, repair), Repaired(candidate, issues, covered, repair);
    RepairedNotBlank(candidate, issues, covered, repair);
  }

  /**
   The loop ends after at most `maxRepairs + 1` verifier and `maxRepairs` repair calls. It passes
   only a text that the last verdict accepted; it has issues exactly when it does not pass; and
   neither the text it returns nor any text it sent out is blank.
   */
  lemma VerificationIsSound(verdicts: Verdicts, replies: seq<Reply>, maxRepairs: nat, m: Meter, candidate: string)
    requires !IsBlank(candidate)
    ensures var v := VerifyFrom(verdicts, replies, maxRepairs, 0, m, candidate);
      && Verifiers(v.log) <= maxRepairs + 1 && |v.log| - Verifiers(v.log) <= maxRepairs
      && v.meter.invocations == m.invocations + |v.log|
      && (v.result.passed ==> LastVerdictAccepted(verdicts, v))
      && (v.result.passed <==> v.result.issues == [])
      && CandidatesHaveInk(v.log) && !IsBlank(v.result.finalText)
  {
    InkOfBlank(candidate);
    var v := LoopIsSound(verdicts, replies, maxRepairs, 0, m, candidate, maxRepairs + 1, maxRepairs);
    SoundLogMeans(verdicts, maxRepairs + 1, maxRepairs, v.log, v.result);
    InkOfBlank(v.result.finalText);
  }
}
