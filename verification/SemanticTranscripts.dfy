/** The verify and repair loop as a transcript: what is sent after what, and how it ends. */
module SemanticTranscripts {
  import opened Wrappers
  import opened RustText
  import opened KernelTypes
  import opened ModelProvider
  import opened ResponseTexts
  import opened SemanticVerification
  import StructuredLayout

  // ---------------------------------------------------------------- verdicts

  predicate HasVerdict(verdicts: Verdicts, artifact: AgentArtifact) {
    artifact.TextArtifact? && artifact.text in verdicts
  }

  /** The verdict of a response is that of the first text that parses as one. */
  lemma {:induction false} VerdictIsFirst(verdicts: Verdicts, artifacts: seq<AgentArtifact>, i: nat)
    ensures i < |artifacts| && HasVerdict(verdicts, artifacts[i]) &&
            (forall j :: 0 <= j < i ==> !HasVerdict(verdicts, artifacts[j])) ==>
              VerdictOf(verdicts, artifacts) == Some(verdicts[artifacts[i].text])
    ensures (forall j :: 0 <= j < |artifacts| ==> !HasVerdict(verdicts, artifacts[j])) ==>
              VerdictOf(verdicts, artifacts) == None
  {
    if artifacts != [] {
      if i > 0 {
        VerdictIsFirst(verdicts, artifacts[1..], i - 1);
      } else {
        VerdictIsFirst(verdicts, artifacts[1..], 0);
      }
    }
  }

  // ---------------------------------------------------------------- the transcript

  /** What a repair said. */
  function Proposed(reply: Reply): string {
    match reply
    case Success(response) => Join(Texts(response.artifacts, true), "\n")
    case Failure(_) => ""
  }

  function VerdictIn(verdicts: Verdicts, reply: Reply): Option<Verdict> {
    match reply
    case Success(response) => VerdictOf(verdicts, response.artifacts)
    case Failure(_) => None
  }

  /** The reply rejects a candidate for these issues. */
  predicate Rejects(verdicts: Verdicts, reply: Reply, issues: seq<Issue>) {
    && VerdictIn(verdicts, reply).Some?
    && var verdict := VerdictIn(verdicts, reply).value;
    && !verdict.passed
    && issues == if verdict.issues == [] then [SemanticVerificationFailed] else verdict.issues
  }

  /**
   Behind a verifier call comes a repair of the same candidate for the issues of the verdict that
   rejected it; behind a repair the layout of what it said is verified.
   */
  predicate Follows(verdicts: Verdicts, one: Exchange, next: Exchange) {
    match one
    case Verify(candidate, reply) =>
      next.Repair? && next.candidate == candidate && Rejects(verdicts, reply, next.issues)
    case Repair(_, _, reply) =>
      && next.Verify? && !IsBlank(Proposed(reply)) && next.candidate == StructuredLayout.Normalize(Proposed(reply))
  }

  predicate Linked(verdicts: Verdicts, log: seq<Exchange>) {
    |log| < 2 || (Follows(verdicts, log[0], log[1]) && Linked(verdicts, log[1..]))
  }

  /** Each exchange has the reply to its own call. */
  predicate Numbered(replies: seq<Reply>, first: nat, log: seq<Exchange>) {
    forall i :: 0 <= i < |log| ==> log[i].reply == Ask(replies, first + i)
  }

  /** How the loop ends on an exchange; `last` says that no repair is left. */
  predicate EndsOn(verdicts: Verdicts, exchange: Exchange, last: bool, result: SemanticResult) {
    && result.finalText == exchange.candidate
    && match exchange
       case Verify(_, Failure(_)) =>
         !result.passed && result.issues == [SemanticVerifierError] && result.coveredArtifactIds == {}
       case Verify(_, Success(response)) =>
         (match VerdictOf(verdicts, response.artifacts)
          case None =>
            !result.passed && result.issues == [InvalidSemanticVerdict] && result.coveredArtifactIds == {}
          case Some(verdict) =>
            && result.passed == verdict.passed
            && result.coveredArtifactIds == verdict.coveredArtifactIds
            && (verdict.passed ==> result.issues == [])
            && (!verdict.passed ==> last && Rejects(verdicts, exchange.reply, result.issues)))
       case Repair(_, issues, Failure(_)) => !result.passed && result.issues == issues + [SemanticRepairError]
       case Repair(_, issues, Success(_)) =>
         && !result.passed && IsBlank(Proposed(exchange.reply)) && result.issues == issues + [EmptySemanticRepair]
  }

  /** A loop that gives up on a repair still covers what the verdict before it covered. */
  predicate CoversLastVerdict(verdicts: Verdicts, log: seq<Exchange>, result: SemanticResult) {
    |log| >= 2 && log[|log| - 1].Repair? ==>
      && VerdictIn(verdicts, log[|log| - 2].reply).Some?
      && result.coveredArtifactIds == VerdictIn(verdicts, log[|log| - 2].reply).value.coveredArtifactIds
  }

  /** A log of at most `longest` exchanges, the first of which is the call with that number. */
  predicate Transcript(verdicts: Verdicts, replies: seq<Reply>, first: nat, longest: nat, v: Verification) {
    && v.log != [] && |v.log| <= longest
    && Numbered(replies, first, v.log)
    && Linked(verdicts, v.log)
    && EndsOn(verdicts, v.log[|v.log| - 1], |v.log| == longest, v.result)
    && CoversLastVerdict(verdicts, v.log, v.result)
  }

  lemma OneExchange(verdicts: Verdicts, replies: seq<Reply>, first: nat, longest: nat, exchange: Exchange,
                    result: SemanticResult, m: Meter)
    requires longest > 0 && exchange.reply == Ask(replies, first)
    requires EndsOn(verdicts, exchange, longest == 1, result)
    ensures Transcript(verdicts, replies, first, longest, Verification(result, m, [exchange]))
  {
  }

  lemma NumberedBehind(replies: seq<Reply>, first: nat, next: nat, exchange: Exchange, log: seq<Exchange>)
    requires next == first + 1 && exchange.reply == Ask(replies, first) && Numbered(replies, next, log)
    ensures Numbered(replies, first, [exchange] + log)
  {
  }

  lemma LinkedBehind(verdicts: Verdicts, exchange: Exchange, log: seq<Exchange>)
    requires log != [] && Follows(verdicts, exchange, log[0]) && Linked(verdicts, log)
    ensures Linked(verdicts, [exchange] + log)
  {
    assert ([exchange] + log)[1..] == log;
  }

  lemma LastBehind(exchange: Exchange, log: seq<Exchange>)
    requires log != []
    ensures var more := [exchange] + log;
      more[|more| - 1] == log[|log| - 1] && more[|more| - 2] == if |log| == 1 then exchange else log[|log| - 2]
  {
  }

  lemma OneMore(verdicts: Verdicts, replies: seq<Reply>, first: nat, longest: nat, exchange: Exchange, v: Verification,
                next: nat, left: nat)
    requires next == first + 1 && longest == left + 1
    requires Transcript(verdicts, replies, next, left, v) && exchange.reply == Ask(replies, first)
    requires Follows(verdicts, exchange, v.log[0])
    requires |v.log| == 1 && v.log[0].Repair? && exchange.Verify? ==>
      v.result.coveredArtifactIds == VerdictIn(verdicts, exchange.reply).value.coveredArtifactIds
    ensures Transcript(verdicts, replies, first, longest, Behind(exchange, v))
  {
    NumberedBehind(replies, first, next, exchange, v.log);
    LinkedBehind(verdicts, exchange, v.log);
    LastBehind(exchange, v.log);
  }

  // ---------------------------------------------------------------- the loop writes such a transcript

  /** What one verifier reply leads to: an end, or a repair of the candidate. */
  lemma JudgedReply(verdicts: Verdicts, candidate: string, reply: Reply)
    ensures var judgement, exchange := Judge(verdicts, candidate, reply), Verify(candidate, reply);
      && (judgement.Settled? ==> forall last :: EndsOn(verdicts, exchange, last, judgement.result))
      && (judgement.Rejected? ==>
            && Rejects(verdicts, reply, judgement.issues)
            && VerdictIn(verdicts, reply).value.coveredArtifactIds == judgement.covered
            && EndsOn(verdicts, exchange, true,
                      SemanticResult(candidate, false, judgement.issues, judgement.covered)))
  {
  }

  /** What one repair reply leads to: giving up, or the layout of what it says. */
  lemma RepairedReply(verdicts: Verdicts, candidate: string, issues: seq<Issue>, covered: set<string>, reply: Reply)
    ensures var repaired, exchange := Repaired(candidate, issues, covered, reply), Repair(candidate, issues, reply);
      && (repaired.Failure? ==>
            && repaired.error.coveredArtifactIds == covered
            && forall last :: EndsOn(verdicts, exchange, last, repaired.error))
      && (repaired.Success? ==>
            !IsBlank(Proposed(reply)) && repaired.value == StructuredLayout.Normalize(Proposed(reply)))
  {
    if reply.Success? {
      TextsOfText(reply.value.artifacts);
    }
  }

  lemma {:induction false} LoopTranscript(verdicts: Verdicts, replies: seq<Reply>, maxRepairs: nat, attempts: nat,
                                          m: Meter, candidate: string, left: nat, longest: nat)
    returns (v: Verification)
    requires attempts <= maxRepairs && left == maxRepairs - attempts && longest == 2 * left + 1
    ensures v == VerifyFrom(verdicts, replies, maxRepairs, attempts, m, candidate)
    ensures Transcript(verdicts, replies, m.invocations, longest, v)
    ensures v.log[0].Verify? && v.log[0].candidate == candidate
    decreases maxRepairs - attempts, 1
  {
    var verifier := Ask(replies, m.invocations);
    var m1, exchange := Metered(m, verifier), Verify(candidate, verifier);
    JudgedReply(verdicts, candidate, verifier);
    match Judge(verdicts, candidate, verifier)
    case Settled(result) =>
      v := Verification(result, m1, [exchange]);
      OneExchange(verdicts, replies, m.invocations, longest, exchange, result, m1);
    case Rejected(issues, covered) =>
      if attempts == maxRepairs {
        var result := SemanticResult(candidate, false, issues, covered);
        v := Verification(result, m1, [exchange]);
        OneExchange(verdicts, replies, m.invocations, longest, exchange, result, m1);
      } else {
        var rest := RepairTranscript(verdicts, replies, maxRepairs, attempts, m1, candidate, issues, covered, left,
                                     longest - 1);
        v := Behind(exchange, rest);
        OneMore(verdicts, replies, m.invocations, longest, exchange, rest, m1.invocations, longest - 1);
      }
  }

  lemma {:induction false} RepairTranscript(verdicts: Verdicts, replies: seq<Reply>, maxRepairs: nat, attempts: nat,
                                            m: Meter, candidate: string, issues: seq<Issue>, covered: set<string>,
                                            left: nat, longest: nat)
    returns (v: Verification)
    requires attempts < maxRepairs && left == maxRepairs - attempts && longest == 2 * left
    ensures v == RepairFrom(verdicts, replies, maxRepairs, attempts, m, candidate, issues, covered)
    ensures Transcript(verdicts, replies, m.invocations, longest, v)
    ensures v.log[0].Repair? && v.log[0].candidate == candidate && v.log[0].issues == issues
    ensures |v.log| == 1 ==> v.result.coveredArtifactIds == covered
    decreases maxRepairs - attempts, 0
  {
    var after, fewer := attempts + 1, left - 1;
    var exchange, outcome := RepairEnds(verdicts, replies, maxRepairs, attempts, after, m, candidate, issues, covered);
    var m1 := Metered(m, exchange.reply);
    RepairedReply(verdicts, candidate, issues, covered, exchange.reply);
    if outcome.Failure? {
      v := Verification(outcome.error, m1, [exchange]);
      OneExchange(verdicts, replies, m.invocations, longest, exchange, outcome.error, m1);
    } else {
      v := RepairedTranscript(verdicts, replies, maxRepairs, after, m, exchange, outcome.value, fewer, longest);
    }
  }

  lemma {:induction false} RepairedTranscript(verdicts: Verdicts, replies: seq<Reply>, maxRepairs: nat, attempts: nat,
                                              m: Meter, exchange: Exchange, next: string, left: nat, longest: nat)
    returns (v: Verification)
    requires attempts <= maxRepairs && left == maxRepairs - attempts && longest == 2 * left + 2
    requires exchange.Repair? && exchange.reply == Ask(replies, m.invocations)
    requires !IsBlank(Proposed(exchange.reply)) && next == StructuredLayout.Normalize(Proposed(exchange.reply))
    ensures v == Behind(exchange, VerifyFrom(verdicts, replies, maxRepairs, attempts, Metered(m, exchange.reply), next))
    ensures Transcript(verdicts, replies, m.invocations, longest, v)
    ensures v.log[0] == exchange && |v.log| > 1
    decreases maxRepairs - attempts, 2
  {
    var m1, shorter := Metered(m, exchange.reply), longest - 1;
    var rest := LoopTranscript(verdicts, replies, maxRepairs, attempts, m1, next, left, shorter);
    v := Behind(exchange, rest);
    OneMore(verdicts, replies, m.invocations, longest, exchange, rest, m1.invocations, shorter);
  }

  /**
   The whole conversation of the loop: the first candidate is verified; every rejected candidate is
   sent to a repair with the issues of its verdict; the layout of every repair that says something
   is verified; and it ends on an acceptance, on a failed or unreadable reply, on a repair that
   says nothing, or on a rejection when all repairs are used.
   */
  lemma VerificationIsATranscript(verdicts: Verdicts, replies: seq<Reply>, maxRepairs: nat, m: Meter, candidate: string)
    returns (v: Verification)
    ensures v == VerifyFrom(verdicts, replies, maxRepairs, 0, m, candidate)
    ensures Transcript(verdicts, replies, m.invocations, 2 * maxRepairs + 1, v)
    ensures v.log[0].Verify? && v.log[0].candidate == candidate
  {
    v := LoopTranscript(verdicts, replies, maxRepairs, 0, m, candidate, maxRepairs, 2 * maxRepairs + 1);
  }
}
