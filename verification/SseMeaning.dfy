/** What a message on the wire means to its receiver, from the frame to the whole stream. */
module SseMeaning {
  import opened Wrappers
  import opened Sequences
  import opened RustText
  import opened Utf8
  import opened SseFrames
  import opened SseStream
  import opened SseInvariance

  /** One message as the peer sends it: an event name, if any, and the lines of its data. */
  datatype Message = Message(event: Option<string>, data: seq<string>)

  /** A value that fits on one line of a frame as it is. */
  predicate OneLine(value: string) {
    '\n' !in value && !EndsWith(value, '\r') && (value == [] || !IsWhitespace(value[0]))
  }

  predicate AllOneLine(values: seq<string>) {
    forall i :: 0 <= i < |values| ==> OneLine(values[i])
  }

  predicate Sendable(m: Message) {
    && m.data != [] && AllOneLine(m.data)
    && (m.event.Some? ==> '\n' !in m.event.value && Trim(m.event.value) == m.event.value)
  }

  const DATA_LINE: string := "data: "
  const EVENT_LINE: string := "event: "

  function DataLines(values: seq<string>): seq<string> {
    if values == [] then [] else [DATA_LINE + values[0]] + DataLines(values[1..])
  }

  function EventLines(event: Option<string>): seq<string> {
    if event.Some? then [EVENT_LINE + event.value] else []
  }

  function LinesOf(m: Message): seq<string> {
    EventLines(m.event) + DataLines(m.data)
  }

  function Frame(m: Message): string {
    Join(LinesOf(m), "\n")
  }

  /** The text of a whole stream. */
  function Wire(messages: seq<Message>): string {
    if messages == [] then "" else Frame(messages[0]) + SEPARATOR + Wire(messages[1..])
  }

  // ---------------------------------------------------------------- the lines of a frame

  predicate IsLine(line: string) {
    line != [] && '\n' !in line && !EndsWith(line, '\r')
  }

  predicate AllLines(lines: seq<string>) {
    lines != [] && forall i :: 0 <= i < |lines| ==> IsLine(lines[i])
  }

  lemma LineThenRest(line: string, rest: string)
    requires IsLine(line)
    ensures Lines(line + "\n" + rest) == [line] + Lines(rest)
  {
    var s := line + "\n" + rest;
    assert s[|line|] == '\n';
    var i := IndexOf(s, '\n');
    assert forall j :: 0 <= j < |line| ==> s[j] == line[j];
    assert i == |line|;
    assert s[..i] == line && s[i + 1..] == rest;
  }

  lemma LastLine(line: string)
    requires IsLine(line)
    ensures Lines(line) == [line]
  {
    assert IndexOf(line, '\n') == |line|;
  }

  lemma {:induction false} LinesAreReadBack(lines: seq<string>)
    requires AllLines(lines)
    ensures Lines(Join(lines, "\n")) == lines
  {
    if |lines| == 1 {
      LastLine(lines[0]);
    } else {
      LinesAreReadBack(lines[1..]);
      LineThenRest(lines[0], Join(lines[1..], "\n"));
      Cons(lines);
    }
  }

  /** Lines that are not empty leave no separator inside their frame or across its end. */
  lemma {:induction false} LinesEndAtSeparator(lines: seq<string>)
    requires AllLines(lines)
    ensures Join(lines, "\n") != [] && Join(lines, "\n")[0] != '\n'
    ensures EndsAtFirstSeparator(Join(lines, "\n"))
  {
    if |lines| == 1 {
      LineEndsAtSeparator(lines[0], []);
      assert lines[0] + [] + SEPARATOR == lines[0] + SEPARATOR;
    } else {
      var rest := Join(lines[1..], "\n");
      LinesEndAtSeparator(lines[1..]);
      LineBeforeFrame(lines[0], rest);
    }
  }

  lemma LineEndsAtSeparator(line: string, more: string)
    requires IsLine(line)
    ensures NoSeparatorBefore(line + more + SEPARATOR, |line|)
  {
    var s := line + more + SEPARATOR;
    forall i | 0 <= i < |line| ensures !SeparatorAt(s, i) {
      assert s[i] == line[i];
    }
  }

  lemma LineBeforeFrame(line: string, frame: string)
    requires IsLine(line) && frame != [] && frame[0] != '\n' && EndsAtFirstSeparator(frame)
    ensures EndsAtFirstSeparator(line + "\n" + frame)
  {
    var s, t := line + "\n" + frame + SEPARATOR, frame + SEPARATOR;
    forall i | 0 <= i < |line| + 1 + |frame| ensures !SeparatorAt(s, i) {
      if i < |line| {
        assert s[i] == line[i];
      } else if i == |line| {
        assert s[i + 1] == frame[0];
      } else {
        var j := i - |line| - 1;
        assert s[i] == t[j] && s[i + 1] == t[j + 1];
        assert !SeparatorAt(t, j);
      }
    }
  }

  lemma DataLine(value: string)
    requires OneLine(value)
    ensures IsLine(DATA_LINE + value)
    ensures StartsWith(DATA_LINE + value, DATA) && TrimStart((DATA_LINE + value)[5..]) == value
    ensures !StartsWith(DATA_LINE + value, EVENT)
  {
    var line := DATA_LINE + value;
    assert line[..5] == DATA && line[0] == 'd';
    assert line[5..] == [' '] + value;
    assert line[5..][1..] == value;
    if value != [] {
      assert line[|line| - 1] == value[|value| - 1];
    }
  }

  lemma EventLine(event: string)
    requires '\n' !in event && Trim(event) == event
    ensures IsLine(EVENT_LINE + event)
    ensures StartsWith(EVENT_LINE + event, EVENT) && Trim((EVENT_LINE + event)[6..]) == event
    ensures !StartsWith(EVENT_LINE + event, DATA)
  {
    var line := EVENT_LINE + event;
    assert line[..6] == EVENT && line[0] == 'e';
    assert line[6..] == [' '] + event;
    assert line[6..][1..] == event;
    if event != [] {
      TrimEndFacts(TrimStart(event));
      assert line[|line| - 1] == event[|event| - 1];
    }
  }

  lemma {:induction false} DataLinesAreLines(values: seq<string>)
    requires AllOneLine(values)
    ensures forall i :: 0 <= i < |DataLines(values)| ==> IsLine(DataLines(values)[i])
    ensures DataFields(DataLines(values)) == values
    ensures EventField(DataLines(values)) == None
  {
    if values != [] {
      DataLine(values[0]);
      DataLinesAreLines(values[1..]);
      DropPrefix([DATA_LINE + values[0]], DataLines(values[1..]));
      Cons(values);
    }
  }

  lemma FieldsBehindEvent(line: string, rest: seq<string>)
    requires StartsWith(line, EVENT) && !StartsWith(line, DATA)
    ensures DataFields([line] + rest) == DataFields(rest)
    ensures EventField([line] + rest) == Some(Trim(line[6..]))
  {
    DropPrefix([line], rest);
    assert [] + DataFields(rest) == DataFields(rest);
  }

  lemma FieldsAreReadBack(m: Message)
    requires Sendable(m)
    ensures AllLines(LinesOf(m))
    ensures EventField(LinesOf(m)) == m.event
    ensures DataFields(LinesOf(m)) == m.data
  {
    DataLinesAreLines(m.data);
    if m.event.Some? {
      EventLine(m.event.value);
      FieldsBehindEvent(EVENT_LINE + m.event.value, DataLines(m.data));
    } else {
      assert LinesOf(m) == DataLines(m.data);
    }
  }

  /** Event name and data of a frame are read back as they were sent. */
  lemma FrameIsReadBack(m: Message)
    requires Sendable(m)
    ensures EventField(Lines(Frame(m))) == m.event
    ensures Data(Frame(m)) == Join(m.data, "\n")
    ensures EndsAtFirstSeparator(Frame(m))
  {
    FieldsAreReadBack(m);
    LinesAreReadBack(LinesOf(m));
    LinesEndAtSeparator(LinesOf(m));
  }

  lemma ReturnThenRest(line: string, rest: string)
    requires IsLine(line)
    ensures Lines(line + "\r\n" + rest) == [line] + Lines(rest)
  {
    var front := line + "\r";
    var s := line + "\r\n" + rest;
    assert s[|front|] == '\n';
    var i := IndexOf(s, '\n');
    assert forall j :: 0 <= j < |front| ==> s[j] == front[j];
    assert i == |front|;
    assert s[..i] == front && s[i + 1..] == rest;
    assert front[..|front| - 1] == line;
  }

  lemma {:induction false} ReturnsAreDropped(lines: seq<string>)
    requires AllLines(lines)
    ensures Lines(Join(lines, "\r\n")) == lines
  {
    if |lines| == 1 {
      LastLine(lines[0]);
    } else {
      ReturnsAreDropped(lines[1..]);
      ReturnThenRest(lines[0], Join(lines[1..], "\r\n"));
      Cons(lines);
    }
  }

  lemma SameLinesSameItems(p: Provider, a: string, b: string)
    requires Lines(a) == Lines(b)
    ensures ParseFrame(p, a) == ParseFrame(p, b)
  {
    assert Data(a) == Data(b);
  }

  /** Inside a frame a carriage return in front of a line feed makes no difference. */
  lemma CarriageReturnsDoNotMatter(p: Provider, m: Message)
    requires Sendable(m)
    ensures ParseFrame(p, Join(LinesOf(m), "\r\n")) == ParseFrame(p, Frame(m))
  {
    FieldsAreReadBack(m);
    LinesAreReadBack(LinesOf(m));
    ReturnsAreDropped(LinesOf(m));
    SameLinesSameItems(p, Join(LinesOf(m), "\r\n"), Frame(m));
  }

  // ---------------------------------------------------------------- the meaning of one message

  predicate AreSuccesses(items: seq<Item>, events: seq<ProviderStreamEvent>) {
    |items| == |events| && forall k :: 0 <= k < |items| ==> items[k] == Success(events[k])
  }

  function EventsUnder(payload: Payload, kind: string): seq<ProviderStreamEvent> {
    if kind in payload.events then payload.events[kind] else []
  }

  /** What an OpenAI message has to yield. */
  predicate OpenAiYields(payloads: map<string, Payload>, data: string, items: seq<Item>) {
    var silent := IsBlank(data) || Trim(data) == "[DONE]";
    && (silent ==> items == [])
    && (!silent && data !in payloads ==> items == [Failure(InvalidPayload)])
    && (!silent && data in payloads && payloads[data].error.Some? ==>
          items == [Failure(Rejected(payloads[data].error.value))])
    && (!silent && data in payloads && payloads[data].error.None? ==>
          AreSuccesses(items, EventsUnder(payloads[data], "chunk")))
  }

  /** The type of an Anthropic message: that of its payload, or else its event name. */
  function TypeOf(event: Option<string>, payload: Payload): Option<string> {
    match payload.kind
    case Some(kind) => Some(kind)
    case None => event
  }

  /** What an Anthropic message has to yield. */
  predicate AnthropicYields(payloads: map<string, Payload>, event: Option<string>, data: string, items: seq<Item>) {
    var silent := IsBlank(data) || event == Some("ping");
    && (silent ==> items == [])
    && (!silent && data !in payloads ==> items == [Failure(InvalidPayload)])
    && (!silent && data in payloads ==>
          var payload := payloads[data];
          var failed := event == Some("error") || payload.kind == Some("error");
          && (failed ==> items == [Failure(Rejected(payload.rendered))])
          && (!failed && TypeOf(event, payload).None? ==> items == [])
          && (!failed && TypeOf(event, payload).Some? ==>
                AreSuccesses(items, EventsUnder(payload, TypeOf(event, payload).value))))
  }

  predicate Yields(p: Provider, m: Message, items: seq<Item>) {
    match p
    case OpenAi(payloads) => OpenAiYields(payloads, Join(m.data, "\n"), items)
    case Anthropic(payloads) => AnthropicYields(payloads, m.event, Join(m.data, "\n"), items)
  }

  lemma {:induction false} SuccessesAt(events: seq<ProviderStreamEvent>)
    ensures AreSuccesses(Successes(events), events)
  {
    if events != [] {
      SuccessesAt(events[1..]);
    }
  }

  lemma SameSuccesses(a: seq<Item>, b: seq<Item>, events: seq<ProviderStreamEvent>)
    requires AreSuccesses(a, events) && AreSuccesses(b, events)
    ensures a == b
  {
  }

  lemma OpenAiFrameYields(payloads: map<string, Payload>, frame: string, items: seq<Item>)
    ensures OpenAiYields(payloads, Data(frame), items) <==> items == ParseOpenAiFrame(payloads, frame)
  {
    var data := Data(frame);
    if data in payloads {
      var events := EventsUnder(payloads[data], CHUNK);
      SuccessesAt(events);
      if AreSuccesses(items, events) {
        SameSuccesses(items, Successes(events), events);
      }
    }
  }

  lemma AnthropicFrameYields(payloads: map<string, Payload>, frame: string, items: seq<Item>)
    ensures AnthropicYields(payloads, EventField(Lines(frame)), Data(frame), items) <==>
            items == ParseAnthropicFrame(payloads, frame)
  {
    var event, data := EventField(Lines(frame)), Data(frame);
    if data in payloads && TypeOf(event, payloads[data]).Some? {
      var events := EventsUnder(payloads[data], TypeOf(event, payloads[data]).value);
      SuccessesAt(events);
      if AreSuccesses(items, events) {
        SameSuccesses(items, Successes(events), events);
      }
    }
  }

  /** The frame of a message yields what the message has to yield, and nothing else. */
  lemma FrameYieldsItsMessage(p: Provider, m: Message, items: seq<Item>)
    requires Sendable(m)
    ensures Yields(p, m, items) <==> items == ParseFrame(p, Frame(m))
  {
    FrameIsReadBack(m);
    match p
    case OpenAi(payloads) => OpenAiFrameYields(payloads, Frame(m), items);
    case Anthropic(payloads) => AnthropicFrameYields(payloads, Frame(m), items);
  }

  // ---------------------------------------------------------------- the meaning of a stream

  function Concat(outcomes: seq<seq<Item>>): seq<Item> {
    if outcomes == [] then [] else outcomes[0] + Concat(outcomes[1..])
  }

  predicate AllSendable(messages: seq<Message>) {
    forall i :: 0 <= i < |messages| ==> Sendable(messages[i])
  }

  /** One outcome per message, each the one its message has to yield. */
  predicate YieldEach(p: Provider, messages: seq<Message>, outcomes: seq<seq<Item>>) {
    && |outcomes| == |messages|
    && forall i :: 0 <= i < |messages| ==> Yields(p, messages[i], outcomes[i])
  }

  lemma ParseTextStep(p: Provider, frame: string, rest: string)
    requires EndsAtFirstSeparator(frame)
    ensures ParseText(p, frame + SEPARATOR + rest) == ParseFrame(p, frame) + ParseText(p, rest)
  {
    FrameBehindSeparator(frame, rest);
    var frames := Frames(rest);
    assert Frames(frame + SEPARATOR + rest) == [frame] + frames;
    ParseEachStep(p, frame, frames);
    Assoc(ParseFrame(p, frame), ParseEach(p, Complete(frames)),
          if IsBlank(Remainder(frames)) then [] else ParseFrame(p, Remainder(frames)));
  }

  lemma {:induction false} WireParses(p: Provider, messages: seq<Message>, outcomes: seq<seq<Item>>)
    requires AllSendable(messages) && YieldEach(p, messages, outcomes)
    ensures ParseText(p, Wire(messages)) == Concat(outcomes)
  {
    if messages == [] {
      assert Frames("") == [""];
    } else {
      FrameIsReadBack(messages[0]);
      FrameYieldsItsMessage(p, messages[0], outcomes[0]);
      ParseTextStep(p, Frame(messages[0]), Wire(messages[1..]));
      WireParses(p, messages[1..], outcomes[1..]);
    }
  }

  /** The bytes of the text arrive without a fault, cut anywhere between two characters. */
  predicate Carries(upstream: seq<Delivery>, text: string) {
    NoFault(upstream) && Flatten(ChunksOf(upstream)) == Encode(text) && Aligned(ChunksOf(upstream))
  }

  /** However its bytes are cut, a stream of messages yields the outcomes of its messages in order. */
  lemma StreamYieldsItsMessages(p: Provider, messages: seq<Message>, outcomes: seq<seq<Item>>, upstream: seq<Delivery>)
    requires AllSendable(messages) && YieldEach(p, messages, outcomes)
    requires Carries(upstream, Wire(messages))
    ensures Events(p, "", upstream) == Concat(outcomes)
  {
    WireParses(p, messages, outcomes);
    AlignedChunksParseTheText(p, upstream, Wire(messages));
  }

  // ---------------------------------------------------------------- streams without failures

  /** The payloads of the lines, each sent as one message, and the terminator behind them. */
  function OpenAiMessages(lines: seq<string>): seq<Message> {
    if lines == [] then [Message(None, ["[DONE]"])] else [Message(None, [lines[0]])] + OpenAiMessages(lines[1..])
  }

  /** The line is a payload without an error. */
  predicate IsChunk(payloads: map<string, Payload>, line: string) {
    && OneLine(line) && !IsBlank(line) && Trim(line) != "[DONE]"
    && line in payloads && payloads[line].error.None?
  }

  predicate AllChunks(payloads: map<string, Payload>, lines: seq<string>) {
    forall i :: 0 <= i < |lines| ==> IsChunk(payloads, lines[i])
  }

  /** The events of the payloads, one payload after the other. */
  function EventsSent(payloads: map<string, Payload>, lines: seq<string>): seq<ProviderStreamEvent>
    requires AllChunks(payloads, lines)
  {
    if lines == [] then []
    else
      assert IsChunk(payloads, lines[0]);
      EventsUnder(payloads[lines[0]], "chunk") + EventsSent(payloads, lines[1..])
  }

  lemma SuccessesConcat(a: seq<Item>, e: seq<ProviderStreamEvent>, b: seq<Item>, f: seq<ProviderStreamEvent>)
    requires AreSuccesses(a, e) && AreSuccesses(b, f)
    ensures AreSuccesses(a + b, e + f)
  {
  }

  lemma TerminatorIsSilent(payloads: map<string, Payload>)
    ensures Sendable(Message(None, ["[DONE]"]))
    ensures Yields(OpenAi(payloads), Message(None, ["[DONE]"]), [])
  {
    var done := "[DONE]";
    assert done[0] == '[' && done[5] == ']';
    assert TrimStart(done) == done && TrimEnd(done) == done;
    assert Join([done], "\n") == done;
  }

  lemma {:induction false} ChunksYield(payloads: map<string, Payload>, lines: seq<string>)
    returns (outcomes: seq<seq<Item>>)
    requires AllChunks(payloads, lines)
    ensures AllSendable(OpenAiMessages(lines)) && YieldEach(OpenAi(payloads), OpenAiMessages(lines), outcomes)
    ensures AreSuccesses(Concat(outcomes), EventsSent(payloads, lines))
  {
    if lines == [] {
      TerminatorIsSilent(payloads);
      outcomes := [[]];
    } else {
      assert IsChunk(payloads, lines[0]);
      var events := EventsUnder(payloads[lines[0]], "chunk");
      var more := ChunksYield(payloads, lines[1..]);
      SuccessesAt(events);
      assert Join([lines[0]], "\n") == lines[0];
      outcomes := [Successes(events)] + more;
      assert outcomes[1..] == more;
      SuccessesConcat(Successes(events), events, Concat(more), EventsSent(payloads, lines[1..]));
    }
  }

  /**
   An OpenAI stream of valid payloads, ended by the terminator, yields the events of the payloads
   in order and nothing else, however its bytes are cut between characters.
   */
  lemma OpenAiStreamYieldsEventsSent(payloads: map<string, Payload>, lines: seq<string>, upstream: seq<Delivery>)
    requires AllChunks(payloads, lines)
    requires Carries(upstream, Wire(OpenAiMessages(lines)))
    ensures AreSuccesses(Events(OpenAi(payloads), "", upstream), EventsSent(payloads, lines))
  {
    var outcomes := ChunksYield(payloads, lines);
    StreamYieldsItsMessages(OpenAi(payloads), OpenAiMessages(lines), outcomes, upstream);
  }

  /** The message is a payload of some type that is not an error. */
  predicate IsEvent(payloads: map<string, Payload>, m: Message) {
    && Sendable(m) && m.event != Some("ping") && m.event != Some("error")
    && var data := Join(m.data, "\n");
    && !IsBlank(data) && data in payloads && payloads[data].kind != Some("error")
    && TypeOf(m.event, payloads[data]).Some?
  }

  predicate IsPing(m: Message) {
    Sendable(m) && m.event == Some("ping")
  }

  predicate AllEvents(payloads: map<string, Payload>, messages: seq<Message>) {
    forall i :: 0 <= i < |messages| ==> IsPing(messages[i]) || IsEvent(payloads, messages[i])
  }

  /** The events of the messages under their types, one message after the other; pings have none. */
  function EventsTold(payloads: map<string, Payload>, messages: seq<Message>): seq<ProviderStreamEvent>
    requires AllEvents(payloads, messages)
  {
    if messages == [] then []
    else
      var m, rest := messages[0], EventsTold(payloads, messages[1..]);
      if IsPing(m) then rest
      else
        assert IsEvent(payloads, m);
        var payload := payloads[Join(m.data, "\n")];
        EventsUnder(payload, TypeOf(m.event, payload).value) + rest
  }

  lemma {:induction false} TypedEventsYield(payloads: map<string, Payload>, messages: seq<Message>)
    returns (outcomes: seq<seq<Item>>)
    requires AllEvents(payloads, messages)
    ensures YieldEach(Anthropic(payloads), messages, outcomes)
    ensures AreSuccesses(Concat(outcomes), EventsTold(payloads, messages))
  {
    if messages == [] {
      outcomes := [];
    } else {
      var m := messages[0];
      var more := TypedEventsYield(payloads, messages[1..]);
      var rest := EventsTold(payloads, messages[1..]);
      assert IsPing(m) || IsEvent(payloads, m);
      if IsPing(m) {
        outcomes := [[]] + more;
        assert [] + Concat(more) == Concat(more);
      } else {
        var payload := payloads[Join(m.data, "\n")];
        var events := EventsUnder(payload, TypeOf(m.event, payload).value);
        SuccessesAt(events);
        outcomes := [Successes(events)] + more;
        SuccessesConcat(Successes(events), events, Concat(more), rest);
      }
      assert outcomes[1..] == more;
    }
  }

  /**
   An Anthropic stream of valid messages and pings yields the events of the messages under the
   type of the payload, or else the event name, in order and nothing else.
   */
  lemma AnthropicStreamYieldsEventsTold(payloads: map<string, Payload>, messages: seq<Message>, upstream: seq<Delivery>)
    requires AllEvents(payloads, messages)
    requires Carries(upstream, Wire(messages))
    ensures AreSuccesses(Events(Anthropic(payloads), "", upstream), EventsTold(payloads, messages))
  {
    var outcomes := TypedEventsYield(payloads, messages);
    StreamYieldsItsMessages(Anthropic(payloads), messages, outcomes, upstream);
  }

  /** Opens a stream and asks for the next item until there is none. */
  method ReadToEnd(provider: Provider, upstream: seq<Delivery>) returns (items: seq<Item>)
    ensures items == Events(provider, "", upstream)
  {
    var stream := new SseProviderStream(provider, upstream);
    items := [];
    var item := stream.Next();
    while item.Some?
      invariant Events(provider, "", upstream) ==
                items + (if item.Some? then [item.value] + stream.Rest() else [])
      decreases if item.Some? then 1 + |stream.Rest()| else 0
    {
      Assoc(items, [item.value], stream.Rest());
      items := items + [item.value];
      item := stream.Next();
    }
  }
}
