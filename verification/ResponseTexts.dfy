/** What the responses of the model say to the user. */
module ResponseTexts {
  import opened Wrappers
  import opened KernelTypes
  import opened KernelState
  import opened ModelProvider
  import Sequences

  /** What one artifact says to the user: a text, or the rendering of a plan that may not spawn. */
  function Said(artifact: AgentArtifact, maySpawn: bool): seq<string> {
    match artifact
    case TextArtifact(_, _, text) => [text]
    case PlanArtifact(_, _, _, rendered) => if maySpawn then [] else [rendered]
    case Opaque(_, _) => []
  }

  /** What a response says, artifact by artifact. */
  function Texts(artifacts: seq<AgentArtifact>, maySpawn: bool): seq<string> {
    if artifacts == [] then []
    else Texts(artifacts[..|artifacts| - 1], maySpawn) + Said(artifacts[|artifacts| - 1], maySpawn)
  }

  lemma {:induction false} TextsCons(artifacts: seq<AgentArtifact>, maySpawn: bool)
    requires artifacts != []
    ensures Texts(artifacts, maySpawn) == Said(artifacts[0], maySpawn) + Texts(artifacts[1..], maySpawn)
  {
    var front, last := artifacts[..|artifacts| - 1], artifacts[|artifacts| - 1];
    if |artifacts| == 1 {
      assert front == [] && artifacts[1..] == [];
    } else {
      TextsCons(front, maySpawn);
      assert front[1..] == artifacts[1..][..|artifacts[1..]| - 1];
      Sequences.Assoc(Said(front[0], maySpawn), Texts(front[1..], maySpawn), Said(last, maySpawn));
    }
  }

  predicate AllText(artifacts: seq<AgentArtifact>) {
    forall i :: 0 <= i < |artifacts| ==> artifacts[i].TextArtifact?
  }

  lemma {:induction false} TextsOfText(artifacts: seq<AgentArtifact>)
    ensures TextsOf(artifacts) == Texts(artifacts, true)
    ensures AllText(artifacts) ==> |TextsOf(artifacts)| == |artifacts|
  {
    if artifacts != [] {
      TextsCons(artifacts, true);
      TextsOfText(artifacts[1..]);
    }
  }

  lemma TextsOfMore(texts: seq<AgentArtifact>, text: AgentArtifact)
    requires text.TextArtifact?
    ensures TextsOf(texts + [text]) == TextsOf(texts) + [text.text]
  {
    var more := texts + [text];
    TextsOfText(texts);
    TextsOfText(more);
    assert more[..|more| - 1] == texts && more[|more| - 1] == text;
  }

  lemma TextsOfKept(limits: ExecutionLimits, scope: IsolationKey, task: SubtaskSpec, st: State, artifact: AgentArtifact)
    requires AllText(st.texts)
    ensures var (next, error) := ApplyArtifact(limits, scope, task, st, artifact);
      error == None ==> AllText(next.texts) && TextsOf(next.texts) == TextsOf(st.texts) + Said(artifact, task.maySpawn)
  {
    match artifact
    case TextArtifact(_, _, _) => TextsOfMore(st.texts, artifact);
    case Opaque(_, _) =>
    case PlanArtifact(id, origin, plan, rendered) =>
      if !task.maySpawn {
        TextsOfMore(st.texts, TextArtifact(id, origin, rendered));
      }
  }

  /** Absorbing a response adds what it says to the texts. */
  lemma {:induction false} AbsorbedTexts(limits: ExecutionLimits, scope: IsolationKey, task: SubtaskSpec, st: State,
                                         artifacts: seq<AgentArtifact>)
    requires AllText(st.texts)
    ensures var (next, error) := ApplyArtifacts(limits, scope, task, st, artifacts);
      error == None ==>
        AllText(next.texts) && TextsOf(next.texts) == TextsOf(st.texts) + Texts(artifacts, task.maySpawn)
    decreases |artifacts|
  {
    if artifacts != [] {
      TextsCons(artifacts, task.maySpawn);
      TextsOfKept(limits, scope, task, st, artifacts[0]);
      var (next, error) := ApplyArtifact(limits, scope, task, st, artifacts[0]);
      if error == None {
        AbsorbedTexts(limits, scope, task, next, artifacts[1..]);
        Sequences.Assoc(TextsOf(st.texts), Said(artifacts[0], task.maySpawn), Texts(artifacts[1..], task.maySpawn));
      }
    }
  }

  lemma AbsorbedResponse(limits: ExecutionLimits, scope: IsolationKey, task: SubtaskSpec, st: State,
                         response: ProviderResponse)
    requires AllText(st.texts)
    ensures var (next, error) := Absorb(limits, scope, task, st, response);
      error == None ==>
        AllText(next.texts) && TextsOf(next.texts) == TextsOf(st.texts) + Texts(response.artifacts, task.maySpawn)
  {
    AbsorbedTexts(limits, scope, task, st.(calls := RecordCalls(st.calls, response.toolCalls)), response.artifacts);
  }

  /** What the reply to a call says. */
  function TextsAt(replies: seq<Reply>, call: nat, maySpawn: bool): seq<string> {
    match Ask(replies, call)
    case Success(response) => Texts(response.artifacts, maySpawn)
    case Failure(_) => []
  }
}
