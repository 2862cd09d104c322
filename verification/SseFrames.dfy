/** Frames of an event stream and what one frame means to a provider. */
module SseFrames {
  import opened Wrappers
  import opened RustText

  datatype ProviderStreamEvent =
    | TextDelta(text: string)
    | ToolCallDelta(index: nat, id: Option<string>, name: Option<string>, argumentsDelta: string)
    | Usage(inputTokens: nat, outputTokens: nat)
    | Finish(reason: string)

  datatype ProviderError = Rejected(message: string) | InvalidPayload

  type Item = Result<ProviderStreamEvent, ProviderError>

  /** A JSON payload, as far as the stream looks at it. */
  datatype Payload = Payload(
    kind: Option<string>,
    error: Option<string>,
    rendered: string,
    events: map<string, seq<ProviderStreamEvent>>)

  /** The two framings, each with the payloads that are valid JSON. */
  datatype Provider =
    | OpenAi(payloads: map<string, Payload>)
    | Anthropic(payloads: map<string, Payload>)

  const SEPARATOR: string := "\n\n"
  const DATA: string := "data:"
  const EVENT: string := "event:"
  const DONE: string := "[DONE]"
  const PING: string := "ping"
  const ERROR: string := "error"
  const CHUNK: string := "chunk"

  predicate SeparatorAt(s: string, i: int) {
    0 <= i < |s| - 1 && s[i] == '\n' && s[i + 1] == '\n'
  }

  predicate NoSeparatorBefore(s: string, end: nat) {
    forall i :: 0 <= i < end ==> !SeparatorAt(s, i)
  }

  predicate NoSeparator(s: string) {
    NoSeparatorBefore(s, |s|)
  }

  /** `buffer.find("\n\n")`; the length of the text when there is none. */
  function FindSeparator(s: string): (i: nat)
    ensures i <= |s| && NoSeparatorBefore(s, i)
    ensures i < |s| ==> SeparatorAt(s, i)
  {
    if s == [] || SeparatorAt(s, 0) then 0
    else
      assert forall i :: 0 < i < |s| ==> (SeparatorAt(s, i) <==> SeparatorAt(s[1..], i - 1));
      1 + FindSeparator(s[1..])
  }

  /** The values of the `data:` fields, in order. */
  function DataFields(lines: seq<string>): seq<string> {
    if lines == [] then []
    else (if StartsWith(lines[0], DATA) then [TrimStart(lines[0][5..])] else []) + DataFields(lines[1..])
  }

  /** The value of the first `event:` field. */
  function EventField(lines: seq<string>): Option<string> {
    if lines == [] then None
    else if StartsWith(lines[0], EVENT) then Some(Trim(lines[0][6..]))
    else EventField(lines[1..])
  }

  function Data(frame: string): string {
    Join(DataFields(Lines(frame)), "\n")
  }

  function Successes(events: seq<ProviderStreamEvent>): seq<Item> {
    if events == [] then [] else [Success(events[0])] + Successes(events[1..])
  }

  function EventsOfKind(payload: Payload, kind: Option<string>): seq<Item> {
    if kind.Some? && kind.value in payload.events then Successes(payload.events[kind.value]) else []
  }

  function ParseOpenAiFrame(payloads: map<string, Payload>, frame: string): seq<Item> {
    var data := Data(frame);
    if IsBlank(data) || Trim(data) == DONE then []
    else if data !in payloads then [Failure(InvalidPayload)]
    else if payloads[data].error.Some? then [Failure(Rejected(payloads[data].error.value))]
    else EventsOfKind(payloads[data], Some(CHUNK))
  }

  function ParseAnthropicFrame(payloads: map<string, Payload>, frame: string): seq<Item> {
    var event, data := EventField(Lines(frame)), Data(frame);
    if IsBlank(data) || event == Some(PING) then []
    else if data !in payloads then [Failure(InvalidPayload)]
    else
      var payload := payloads[data];
      if event == Some(ERROR) || payload.kind == Some(ERROR) then [Failure(Rejected(payload.rendered))]
      else EventsOfKind(payload, if payload.kind.Some? then payload.kind else event)
  }

  function ParseFrame(p: Provider, frame: string): seq<Item> {
    match p
    case OpenAi(payloads) => ParseOpenAiFrame(payloads, frame)
    case Anthropic(payloads) => ParseAnthropicFrame(payloads, frame)
  }
}
