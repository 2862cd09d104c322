/** How an event stream is cut into chunks does not change what it yields. */
module SseInvariance {
  import opened Wrappers
  import opened Sequences
  import opened RustText
  import opened Utf8
  import opened SseFrames
  import opened SseStream

  // ---------------------------------------------------------------- batch framing

  /** A whole text cut at its separators, leftmost first; the last frame is what remains. */
  function Frames(text: string): (frames: seq<string>)
    ensures frames != []
    decreases |text|
  {
    var index := FindSeparator(text);
    if index == |text| then [text] else [text[..index]] + Frames(text[index + 2..])
  }

  function Complete(frames: seq<string>): seq<string>
    requires frames != []
  {
    frames[..|frames| - 1]
  }

  function Remainder(frames: seq<string>): string
    requires frames != []
  {
    frames[|frames| - 1]
  }

  /** The first separator of a frame that ends in one is that one. */
  predicate EndsAtFirstSeparator(frame: string) {
    NoSeparatorBefore(frame + SEPARATOR, |frame|)
  }

  predicate WellFramed(frames: seq<string>) {
    && frames != []
    && (forall i :: 0 <= i < |frames| - 1 ==> EndsAtFirstSeparator(frames[i]))
    && NoSeparator(Remainder(frames))
  }

  lemma FirstSeparator(text: string, index: nat)
    requires NoSeparatorBefore(text, index) && index <= |text|
    requires index < |text| ==> SeparatorAt(text, index)
    ensures FindSeparator(text) == index
  {
    assert !(FindSeparator(text) < index);
  }

  /** More text behind a separator does not move it. */
  lemma SeparatorStays(text: string, more: string)
    requires FindSeparator(text) < |text|
    ensures FindSeparator(text + more) == FindSeparator(text)
  {
    var index := FindSeparator(text);
    assert forall i :: 0 <= i <= index ==> (SeparatorAt(text + more, i) <==> SeparatorAt(text, i));
    FirstSeparator(text + more, index);
  }

  lemma FrameBehindSeparator(frame: string, rest: string)
    requires EndsAtFirstSeparator(frame)
    ensures FindSeparator(frame + SEPARATOR + rest) == |frame|
    ensures (frame + SEPARATOR + rest)[..|frame|] == frame
    ensures (frame + SEPARATOR + rest)[|frame| + 2..] == rest
  {
    FirstSeparator(frame + SEPARATOR, |frame|);
    SeparatorStays(frame + SEPARATOR, rest);
  }

  /** Framing loses nothing: joined by separators the frames are the text again. */
  lemma {:induction false} FramesJoin(text: string)
    ensures Join(Frames(text), SEPARATOR) == text
    ensures WellFramed(Frames(text))
    decreases |text|
  {
    var index := FindSeparator(text);
    if index < |text| {
      var frame, rest := text[..index], text[index + 2..];
      FramesJoin(rest);
      SeparatedFront(text, index);
      FrameInFront(frame, Frames(rest));
    }
  }

  lemma SeparatedFront(text: string, index: nat)
    requires index < |text| && SeparatorAt(text, index) && NoSeparatorBefore(text, index)
    ensures text == text[..index] + SEPARATOR + text[index + 2..]
    ensures EndsAtFirstSeparator(text[..index])
  {
    var framed := text[..index] + SEPARATOR;
    assert framed[index] == SEPARATOR[0] == text[index];
    forall i | 0 <= i < index ensures !SeparatorAt(framed, i) {
      assert !SeparatorAt(text, i);
      assert framed[i] == text[i] && framed[i + 1] == text[i + 1];
    }
  }

  lemma FrameInFront(frame: string, frames: seq<string>)
    requires EndsAtFirstSeparator(frame) && WellFramed(frames)
    ensures WellFramed([frame] + frames)
    ensures Join([frame] + frames, SEPARATOR) == frame + SEPARATOR + Join(frames, SEPARATOR)
  {
    assert ([frame] + frames)[1..] == frames;
  }

  /** And the framing is the only one: well-framed texts are framed the way they were joined. */
  lemma {:induction false} FramesOfJoin(frames: seq<string>)
    requires WellFramed(frames)
    ensures Frames(Join(frames, SEPARATOR)) == frames
  {
    if |frames| == 1 {
      FirstSeparator(frames[0], |frames[0]|);
    } else {
      var rest := Join(frames[1..], SEPARATOR);
      FrameBehindSeparator(frames[0], rest);
      assert Remainder(frames[1..]) == Remainder(frames);
      assert forall i :: 0 <= i < |frames[1..]| - 1 ==> frames[1..][i] == frames[i + 1];
      FramesOfJoin(frames[1..]);
      Cons(frames);
    }
  }

  function ParseEach(p: Provider, frames: seq<string>): seq<Item> {
    if frames == [] then [] else ParseFrame(p, frames[0]) + ParseEach(p, frames[1..])
  }

  /** Parsing a whole text at once: every frame, the remainder only when it is not blank. */
  function ParseText(p: Provider, text: string): seq<Item> {
    var frames := Frames(text);
    ParseEach(p, Complete(frames)) + (if IsBlank(Remainder(frames)) then [] else ParseFrame(p, Remainder(frames)))
  }

  // ---------------------------------------------------------------- the incremental loop

  predicate NoFault(upstream: seq<Delivery>) {
    forall i :: 0 <= i < |upstream| ==> upstream[i].Bytes?
  }

  /** The bytes of the deliveries of a fault-free upstream. */
  function ChunksOf(upstream: seq<Delivery>): seq<seq<byte>>
    requires NoFault(upstream)
  {
    if upstream == [] then [] else [upstream[0].bytes] + ChunksOf(upstream[1..])
  }

  function Text(upstream: seq<Delivery>): string
    requires NoFault(upstream)
  {
    DecodeEach(ChunksOf(upstream))
  }

  /**
   The buffer loop factors through the text: after any fault-free deliveries it has yielded the
   complete frames of everything received, and holds the remainder.
   */
  lemma {:induction false} EventsFactor(p: Provider, buffer: string, before: seq<Delivery>, after: seq<Delivery>)
    requires NoFault(before)
    ensures var frames := Frames(buffer + Text(before));
      Events(p, buffer, before + after) == ParseEach(p, Complete(frames)) + Events(p, Remainder(frames), after)
    decreases |before|, |buffer|
  {
    var index := FindSeparator(buffer);
    if index < |buffer| {
      FactorFrame(p, buffer, before, after, index);
    } else if before == [] {
      assert before + after == after && buffer + Text(before) == buffer;
    } else {
      var decoded := DecodeLossy(before[0].bytes);
      assert (before + after)[1..] == before[1..] + after;
      EventsFactor(p, buffer + decoded, before[1..], after);
      Assoc(buffer, decoded, Text(before[1..]));
      assert Text(before) == decoded + Text(before[1..]);
    }
  }

  lemma FactorFrame(p: Provider, buffer: string, before: seq<Delivery>, after: seq<Delivery>, index: nat)
    requires NoFault(before) && index == FindSeparator(buffer) < |buffer|
    ensures var frames := Frames(buffer + Text(before));
      Events(p, buffer, before + after) == ParseEach(p, Complete(frames)) + Events(p, Remainder(frames), after)
    decreases |before|, |buffer|, 0
  {
    var rest := buffer[index + 2..];
    EventsAtFrame(p, buffer, before + after, index);
    FramesStep(buffer, Text(before), index);
    EventsFactor(p, rest, before, after);
    var frames := Frames(rest + Text(before));
    ParseEachStep(p, buffer[..index], frames);
    Assoc(ParseFrame(p, buffer[..index]), ParseEach(p, Complete(frames)), Events(p, Remainder(frames), after));
  }

  lemma EventsAtFrame(p: Provider, buffer: string, upstream: seq<Delivery>, index: nat)
    requires index == FindSeparator(buffer) < |buffer|
    ensures Events(p, buffer, upstream) == ParseFrame(p, buffer[..index]) + Events(p, buffer[index + 2..], upstream)
  {
  }

  lemma FramesStep(buffer: string, more: string, index: nat)
    requires index == FindSeparator(buffer) < |buffer|
    ensures Frames(buffer + more) == [buffer[..index]] + Frames(buffer[index + 2..] + more)
  {
    SeparatorStays(buffer, more);
    assert (buffer + more)[..index] == buffer[..index];
    assert (buffer + more)[index + 2..] == buffer[index + 2..] + more;
  }

  lemma ParseEachStep(p: Provider, frame: string, frames: seq<string>)
    requires frames != []
    ensures Remainder([frame] + frames) == Remainder(frames)
    ensures ParseEach(p, Complete([frame] + frames)) == ParseFrame(p, frame) + ParseEach(p, Complete(frames))
  {
    assert Complete([frame] + frames)[1..] == Complete(frames);
  }

  lemma RemainderHasNoSeparator(text: string)
    ensures FindSeparator(Remainder(Frames(text))) == |Remainder(Frames(text))|
  {
    FramesJoin(text);
    FirstSeparator(Remainder(Frames(text)), |Remainder(Frames(text))|);
  }

  /**
   Chunk invariance: however the bytes arrive, including separators that straddle chunks, the
   stream yields what parsing the whole decoded text yields.
   */
  lemma ChunkInvariance(p: Provider, upstream: seq<Delivery>)
    requires NoFault(upstream)
    ensures Events(p, "", upstream) == ParseText(p, Text(upstream))
  {
    EventsFactor(p, "", upstream, []);
    RemainderHasNoSeparator(Text(upstream));
    assert upstream + [] == upstream && "" + Text(upstream) == Text(upstream);
  }

  /** For UTF-8 cut between characters, that is the text that was sent. */
  lemma AlignedChunksParseTheText(p: Provider, upstream: seq<Delivery>, text: string)
    requires NoFault(upstream) && Flatten(ChunksOf(upstream)) == Encode(text)
    ensures Aligned(ChunksOf(upstream)) <==> Text(upstream) == text
    ensures Aligned(ChunksOf(upstream)) ==> Events(p, "", upstream) == ParseText(p, text)
  {
    ChunksDecodeWholeIffAligned(text, ChunksOf(upstream));
    ChunkInvariance(p, upstream);
  }

  /**
   A fault of the upstream is yielded in place: behind the frames completed before it, without
   disturbing the unfinished one.
   */
  lemma FaultsAreYieldedInPlace(p: Provider, before: seq<Delivery>, error: string, after: seq<Delivery>)
    requires NoFault(before)
    ensures var frames := Frames(Text(before));
      && Events(p, "", before + [Failed(error)] + after)
        == ParseEach(p, Complete(frames)) + [Failure(Rejected(error))] + Events(p, Remainder(frames), after)
      && Events(p, "", before + after) == ParseEach(p, Complete(frames)) + Events(p, Remainder(frames), after)
  {
    var rest := Remainder(Frames(Text(before)));
    assert "" + Text(before) == Text(before);
    EventsFactor(p, "", before, after);
    EventsFactor(p, "", before, [Failed(error)] + after);
    Assoc(before, [Failed(error)], after);
    RemainderHasNoSeparator(Text(before));
    DropPrefix([Failed(error)], after);
    Assoc(ParseEach(p, Complete(Frames(Text(before)))), [Failure(Rejected(error))], Events(p, rest, after));
  }
}
