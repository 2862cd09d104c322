/** Bounded rendering of chunks, and the front trim that respects character boundaries. */
module ContextRendering {
  import opened Sequences
  import opened RustText
  import opened Utf8
  import Decimal
  import opened ContextChunks

  const SEPARATOR: string := "\n\n"
  const HEADER_REVISION: string := "[context revision="
  const HEADER_ROLE: string := " role="
  const HEADER_END: string := "]\n"

  function Part(chunk: StoredContextChunk): (part: string)
    ensures part != []
  {
    HEADER_REVISION + Decimal.Format(chunk.revision) + HEADER_ROLE + chunk.role + HEADER_END + Trim(chunk.text)
  }

  /** Where digits end is determined by the whole. */
  lemma DigitsSplit(a: string, b: string, x: string, y: string)
    requires forall i :: 0 <= i < |a| ==> Decimal.IsDigit(a[i])
    requires forall i :: 0 <= i < |b| ==> Decimal.IsDigit(b[i])
    requires x != [] && y != [] && !Decimal.IsDigit(x[0]) && !Decimal.IsDigit(y[0])
    requires a + x == b + y
    ensures a == b && x == y
  {
    var whole := a + x;
    assert whole[|a|] == x[0] && whole[|b|] == y[0];
    assert forall i :: 0 <= i < |a| ==> whole[i] == a[i];
    assert forall i :: 0 <= i < |b| ==> whole[i] == b[i];
    assert |a| == |b|;
    DropPrefix(a, x);
    DropPrefix(b, y);
  }

  /**
   Revision, role and text can all be told from a part: equal parts have the same revision, and
   with the same role the same trimmed text, and with the same trimmed text the same role.
   */
  lemma PartTellsChunk(a: StoredContextChunk, b: StoredContextChunk)
    requires Part(a) == Part(b)
    ensures a.revision == b.revision
    ensures a.role + HEADER_END + Trim(a.text) == b.role + HEADER_END + Trim(b.text)
    ensures a.role == b.role <==> Trim(a.text) == Trim(b.text)
  {
    var x, y := a.role + HEADER_END + Trim(a.text), b.role + HEADER_END + Trim(b.text);
    PartShape(a);
    PartShape(b);
    DropPrefix(HEADER_REVISION, Decimal.Format(a.revision) + (HEADER_ROLE + x));
    DropPrefix(HEADER_REVISION, Decimal.Format(b.revision) + (HEADER_ROLE + y));
    DigitsSplit(Decimal.Format(a.revision), Decimal.Format(b.revision), HEADER_ROLE + x, HEADER_ROLE + y);
    Decimal.ParseOfFormat(a.revision);
    Decimal.ParseOfFormat(b.revision);
    DropPrefix(HEADER_ROLE, x);
    DropPrefix(HEADER_ROLE, y);
    SameBehind(a.role, b.role, Trim(a.text), Trim(b.text));
  }

  lemma PartShape(chunk: StoredContextChunk)
    ensures Part(chunk) == HEADER_REVISION +
              (Decimal.Format(chunk.revision) + (HEADER_ROLE + (chunk.role + HEADER_END + Trim(chunk.text))))
  {
  }

  lemma SameBehind(a: string, b: string, x: string, y: string)
    requires a + HEADER_END + x == b + HEADER_END + y
    ensures a == b <==> x == y
  {
    var s, t := a + HEADER_END + x, b + HEADER_END + y;
    if a == b {
      DropPrefix(a + HEADER_END, x);
      DropPrefix(b + HEADER_END, y);
    }
    if x == y {
      assert |a| == |b|;
      assert s[..|a|] == a && t[..|b|] == b;
    }
  }

  function Parts(chunks: seq<StoredContextChunk>): seq<string> {
    if chunks == [] then [] else [Part(chunks[0])] + Parts(chunks[1..])
  }

  lemma {:induction false} PartsAreNotEmpty(chunks: seq<StoredContextChunk>)
    ensures |Parts(chunks)| == |chunks| && NoneEmpty(Parts(chunks))
  {
    if chunks != [] {
      PartsAreNotEmpty(chunks[1..]);
    }
  }

  lemma PartsConcat(a: seq<StoredContextChunk>, b: seq<StoredContextChunk>)
    ensures Parts(a + b) == Parts(a) + Parts(b)
  {
    if a == [] {
      assert a + b == b;
    } else {
      assert (a + b)[1..] == a[1..] + b;
      PartsConcat(a[1..], b);
    }
  }

  /** One iteration of `render_chunks`: a part is appended whole or skipped. */
  function Extend(rendered: string, part: string, maxBytes: nat): string {
    if rendered == [] then (if ByteLen(part) <= maxBytes then part else rendered)
    else if ByteLen(rendered) + ByteLen(part) + 2 <= maxBytes then rendered + SEPARATOR + part
    else rendered
  }

  function RenderFrom(parts: seq<string>, rendered: string, maxBytes: nat): string {
    if parts == [] then rendered
    else RenderFrom(parts[1..], Extend(rendered, parts[0], maxBytes), maxBytes)
  }

  function Render(chunks: seq<StoredContextChunk>, maxBytes: nat): string {
    RenderFrom(Parts(chunks), "", maxBytes)
  }

  /** Rendering without a bound: every part, separated by blank lines. */
  function RenderAll(chunks: seq<StoredContextChunk>): string {
    Join(Parts(chunks), SEPARATOR)
  }

  lemma RenderStep(chunks: seq<StoredContextChunk>, rendered: string, part: string, maxBytes: nat)
    requires chunks != [] && part == Part(chunks[0])
    ensures RenderFrom(Parts(chunks), rendered, maxBytes)
         == RenderFrom(Parts(chunks[1..]), Extend(rendered, part, maxBytes), maxBytes)
  {
    DropPrefix([part], Parts(chunks[1..]));
  }

  method RenderChunks(chunks: seq<StoredContextChunk>, maxBytes: nat) returns (rendered: string)
    ensures rendered == Render(chunks, maxBytes)
  {
    rendered := "";
    assert chunks[0..] == chunks;
    for i := 0 to |chunks|
      invariant Render(chunks, maxBytes) == RenderFrom(Parts(chunks[i..]), rendered, maxBytes)
    {
      var part := Part(chunks[i]);
      RenderStep(chunks[i..], rendered, part, maxBytes);
      assert chunks[i..][1..] == chunks[i + 1..];
      if rendered == [] {
        if ByteLen(part) <= maxBytes {
          rendered := part;
        }
      } else if ByteLen(rendered) + ByteLen(part) + 2 <= maxBytes {
        rendered := rendered + SEPARATOR + part;
      }
    }
  }

  lemma SeparatorLength(a: string, b: string)
    ensures ByteLen(a + SEPARATOR + b) == ByteLen(a) + 2 + ByteLen(b)
  {
    assert ByteLen(SEPARATOR) == 2 by {
      assert SEPARATOR == ['\n'] + ['\n'];
      ByteLenConcat(['\n'], ['\n']);
    }
    ByteLenConcat(a, SEPARATOR);
    ByteLenConcat(a + SEPARATOR, b);
  }

  predicate NoneEmpty(parts: seq<string>) {
    forall i :: 0 <= i < |parts| ==> parts[i] != []
  }

  lemma JoinedIsEmpty(parts: seq<string>, separator: string)
    requires NoneEmpty(parts)
    ensures Join(parts, separator) == [] <==> parts == []
  {
  }

  lemma JoinOneMore(parts: seq<string>, part: string)
    requires parts != []
    ensures Join(parts + [part], SEPARATOR) == Join(parts, SEPARATOR) + SEPARATOR + part
    ensures ByteLen(Join(parts + [part], SEPARATOR)) == ByteLen(Join(parts, SEPARATOR)) + 2 + ByteLen(part)
  {
    JoinConcat(parts, [part], SEPARATOR);
    SeparatorLength(Join(parts, SEPARATOR), part);
  }

  /** Rendering distributes over concatenation. */
  lemma RenderAllConcat(a: seq<StoredContextChunk>, b: seq<StoredContextChunk>)
    requires a != [] && b != []
    ensures RenderAll(a + b) == RenderAll(a) + SEPARATOR + RenderAll(b)
    ensures ByteLen(RenderAll(a + b)) == ByteLen(RenderAll(a)) + 2 + ByteLen(RenderAll(b))
  {
    PartsConcat(a, b);
    JoinConcat(Parts(a), Parts(b), SEPARATOR);
    SeparatorLength(RenderAll(a), RenderAll(b));
  }

  lemma RenderAllEmpty(chunks: seq<StoredContextChunk>)
    ensures RenderAll(chunks) == [] <==> chunks == []
  {
    PartsAreNotEmpty(chunks);
    JoinedIsEmpty(Parts(chunks), SEPARATOR);
  }

  /** The parts that the bounded rendering shows after it has shown `shown`. */
  function Shown(parts: seq<string>, shown: seq<string>, maxBytes: nat): seq<string> {
    if parts == [] then shown
    else
      var now := Join(shown, SEPARATOR);
      var fits := Extend(now, parts[0], maxBytes) != now;
      Shown(parts[1..], if fits then shown + [parts[0]] else shown, maxBytes)
  }

  lemma ExtendShows(shown: seq<string>, part: string, maxBytes: nat)
    requires NoneEmpty(shown) && part != []
    requires ByteLen(Join(shown, SEPARATOR)) <= maxBytes
    ensures var now, next := Join(shown, SEPARATOR), Extend(Join(shown, SEPARATOR), part, maxBytes);
      && ByteLen(next) <= maxBytes
      && (next == now || next == Join(shown + [part], SEPARATOR))
  {
    JoinedIsEmpty(shown, SEPARATOR);
    if shown == [] {
      assert shown + [part] == [part];
    } else {
      JoinOneMore(shown, part);
    }
  }

  lemma {:induction false} RenderFromShows(parts: seq<string>, shown: seq<string>, maxBytes: nat)
    requires NoneEmpty(parts) && NoneEmpty(shown)
    requires ByteLen(Join(shown, SEPARATOR)) <= maxBytes
    ensures RenderFrom(parts, Join(shown, SEPARATOR), maxBytes) == Join(Shown(parts, shown, maxBytes), SEPARATOR)
    ensures ByteLen(RenderFrom(parts, Join(shown, SEPARATOR), maxBytes)) <= maxBytes
  {
    if parts != [] {
      ExtendShows(shown, parts[0], maxBytes);
      var now, next := Join(shown, SEPARATOR), Extend(Join(shown, SEPARATOR), parts[0], maxBytes);
      RenderFromShows(parts[1..], if next != now then shown + [parts[0]] else shown, maxBytes);
    }
  }

  /** The rendering is a rendering of whole parts and never exceeds its bound. */
  lemma RenderingIsWholeAndBounded(chunks: seq<StoredContextChunk>, maxBytes: nat)
    ensures Render(chunks, maxBytes) == Join(Shown(Parts(chunks), [], maxBytes), SEPARATOR)
    ensures ByteLen(Render(chunks, maxBytes)) <= maxBytes
  {
    PartsAreNotEmpty(chunks);
    RenderFromShows(Parts(chunks), [], maxBytes);
  }

  lemma {:induction false} JoinGrows(before: seq<string>, rest: seq<string>)
    ensures ByteLen(Join(before, SEPARATOR)) <= ByteLen(Join(before + rest, SEPARATOR))
  {
    if before == [] || rest == [] {
      assert rest == [] ==> before + rest == before;
    } else {
      JoinConcat(before, rest, SEPARATOR);
      SeparatorLength(Join(before, SEPARATOR), Join(rest, SEPARATOR));
    }
  }

  lemma {:induction false} RenderFromAll(parts: seq<string>, before: seq<string>, maxBytes: nat)
    requires NoneEmpty(parts) && NoneEmpty(before)
    requires ByteLen(Join(before + parts, SEPARATOR)) <= maxBytes
    ensures RenderFrom(parts, Join(before, SEPARATOR), maxBytes) == Join(before + parts, SEPARATOR)
  {
    if parts == [] {
      assert before + parts == before;
    } else {
      var next := before + [parts[0]];
      assert before + parts == next + parts[1..];
      JoinGrows(next, parts[1..]);
      JoinedIsEmpty(before, SEPARATOR);
      if before != [] {
        JoinOneMore(before, parts[0]);
      }
      RenderFromAll(parts[1..], next, maxBytes);
    }
  }

  /** A rendering that fits is complete. */
  lemma RenderWhole(chunks: seq<StoredContextChunk>, maxBytes: nat)
    requires ByteLen(RenderAll(chunks)) <= maxBytes
    ensures Render(chunks, maxBytes) == RenderAll(chunks)
  {
    PartsAreNotEmpty(chunks);
    assert [] + Parts(chunks) == Parts(chunks);
    RenderFromAll(Parts(chunks), [], maxBytes);
  }

  // ---------------------------------------------------------------- trim_to_char_boundary

  /** The longest suffix of whole characters within the byte bound. */
  function TrimFront(text: string, maxBytes: nat): string {
    if ByteLen(text) <= maxBytes then text else TrimFront(text[1..], maxBytes)
  }

  lemma TrimFrontIsBoundedSuffix(text: string, maxBytes: nat)
    ensures var r := TrimFront(text, maxBytes);
      ByteLen(r) <= maxBytes && |r| <= |text| && r == text[|text| - |r|..]
  {
  }

  lemma {:induction false} TrimFrontIs(text: string, k: nat, maxBytes: nat)
    requires k <= |text| && ByteLen(text[k..]) <= maxBytes
    requires k > 0 ==> ByteLen(text[k - 1..]) > maxBytes
    ensures TrimFront(text, maxBytes) == text[k..]
  {
    if k > 0 {
      assert text == text[..k - 1] + text[k - 1..];
      ByteLenConcat(text[..k - 1], text[k - 1..]);
      assert text[1..][k - 1..] == text[k..];
      if k > 1 {
        assert text[1..][k - 2..] == text[k - 1..];
      }
      TrimFrontIs(text[1..], k - 1, maxBytes);
    } else {
      assert text[0..] == text;
    }
  }

  /** The scan over the bytes of the text; the result is again well-formed UTF-8. */
  method TrimToCharBoundary(text: string, maxBytes: nat) returns (trimmed: string)
    ensures trimmed == TrimFront(text, maxBytes)
    ensures exists start :: 0 <= start <= |Encode(text)| && Encode(text)[start..] == Encode(trimmed)
  {
    var bytes := Encode(text);
    ByteLenIsEncodedLength(text);
    if |bytes| <= maxBytes {
      assert bytes[0..] == bytes;
      return text;
    }
    var start := |bytes| - maxBytes;
    while !IsCharBoundary(bytes, start)
      invariant |bytes| - maxBytes <= start <= |bytes|
      invariant forall i :: |bytes| - maxBytes <= i < start ==> !IsCharBoundary(bytes, i)
      decreases |bytes| - start
    {
      start := start + 1;
    }
    ghost var k := BoundaryIsPrefixEnd(text, start);
    CutAtBoundary(text, k);
    assert k > 0;
    CutAtBoundary(text, k - 1);
    TrimFrontIs(text, k, maxBytes);
    DecodeOfEncoded(text[k..]);
    trimmed := DecodeLossy(bytes[start..]);
  }

  lemma CutAtBoundary(text: string, k: nat)
    requires k <= |text|
    ensures ByteLen(text[..k]) + ByteLen(text[k..]) == ByteLen(text) == |Encode(text)|
    ensures IsCharBoundary(Encode(text), ByteLen(text[..k]))
    ensures Encode(text)[ByteLen(text[..k])..] == Encode(text[k..])
  {
    assert text == text[..k] + text[k..];
    EncodeConcat(text[..k], text[k..]);
    ByteLenConcat(text[..k], text[k..]);
    ByteLenIsEncodedLength(text[..k]);
    ByteLenIsEncodedLength(text[k..]);
    assert Encode(text)[ByteLen(text[..k])..] == Encode(text[k..]);
    if k < |text| {
      OnlyFirstByteStarts(text[k]);
      assert Encode(text[k..])[0] == EncodeChar(text[k])[0];
    }
  }

  predicate HasSuffix(text: string, tail: string) {
    |tail| <= |text| && text[|text| - |tail|..] == tail
  }

  /** The front trim leaves a tail within the bound whole. */
  lemma {:induction false} KeepsSuffix(front: string, tail: string, maxBytes: nat)
    requires ByteLen(tail) <= maxBytes
    ensures HasSuffix(TrimFront(front + tail, maxBytes), tail)
  {
    if front == [] {
      assert front + tail == tail;
    } else if ByteLen(front + tail) > maxBytes {
      assert (front + tail)[1..] == front[1..] + tail;
      KeepsSuffix(front[1..], tail, maxBytes);
    }
  }
}
