/** The model behind the kernel: an arbitrary oracle, given by what it answers call by call. */
module ModelProvider {
  import opened Wrappers
  import opened RustText
  import opened KernelTypes

  type Reply = Result<ProviderResponse, KernelError>

  /** The reply to the call with this number; a script that has run out answers with a timeout. */
  function Ask(replies: seq<Reply>, call: nat): Reply {
    if call < |replies| then replies[call] else Failure(AgentTimeout)
  }

  /** The replies to the next `count` calls. */
  function NextReplies(replies: seq<Reply>, first: nat, count: nat): (next: seq<Reply>)
    ensures |next| == count
    decreases count
  {
    if count == 0 then [] else [Ask(replies, first)] + NextReplies(replies, first + 1, count - 1)
  }

  /** Invocations made, responses received, and tokens they used. */
  datatype Meter = Meter(invocations: nat, responses: nat, tokens: nat)

  function Failed(m: Meter): Meter {
    m.(invocations := m.invocations + 1)
  }

  /** `accumulate_usage` */
  function Answered(m: Meter, response: ProviderResponse): Meter {
    Meter(m.invocations + 1, m.responses + 1, m.tokens + response.tokens)
  }

  /** A phase of a run: it stops with an error, or goes on with a value. */
  datatype Stage<T> = Stopped(meter: Meter, error: KernelError) | Going(meter: Meter, value: T)

  function TextsOf(artifacts: seq<AgentArtifact>): seq<string> {
    if artifacts == [] then []
    else (if artifacts[0].TextArtifact? then [artifacts[0].text] else []) + TextsOf(artifacts[1..])
  }

  function SynthesizeText(artifacts: seq<AgentArtifact>): string {
    Join(TextsOf(artifacts), "\n")
  }

  class Oracle {
    const replies: seq<Reply>
    var meter: Meter

    constructor (replies: seq<Reply>)
      ensures this.replies == replies && meter == Meter(0, 0, 0)
    {
      this.replies := replies;
      meter := Meter(0, 0, 0);
    }

    method Invoke() returns (reply: Reply)
      modifies this
      ensures reply == Ask(replies, old(meter).invocations)
      ensures meter == if reply.Success? then Answered(old(meter), reply.value) else Failed(old(meter))
    {
      reply := Ask(replies, meter.invocations);
      match reply {
        case Success(response) => meter := Answered(meter, response);
        case Failure(_) => meter := Failed(meter);
      }
    }

    /** Several calls at once; what they used is accounted for when their responses are absorbed. */
    method InvokeAll(count: nat) returns (given: seq<Reply>)
      modifies this
      ensures given == NextReplies(replies, old(meter).invocations, count)
      ensures meter == old(meter).(invocations := old(meter).invocations + count)
    {
      given := [];
      var first := meter.invocations;
      for i := 0 to count
        invariant meter == old(meter)
        invariant given + NextReplies(replies, first + i, count - i) == NextReplies(replies, first, count)
      {
        given := given + [Ask(replies, first + i)];
      }
      assert given + [] == given;
      meter := meter.(invocations := first + count);
    }

    method Account(response: ProviderResponse)
      modifies this
      ensures meter == Meter(old(meter).invocations, old(meter).responses + 1, old(meter).tokens + response.tokens)
    {
      meter := Meter(meter.invocations, meter.responses + 1, meter.tokens + response.tokens);
    }
  }
}
