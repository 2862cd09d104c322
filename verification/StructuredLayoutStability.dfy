/** When the layout passes are stable, and that their slices respect character boundaries. */
module StructuredLayoutStability {
  import opened Wrappers
  import opened Sequences
  import opened RustText
  import opened Utf8
  import opened StructuredLayout
  import opened StructuredLayoutLaws

  // ---------------------------------------------------------------- the tag pass

  /** Whether the first tag from `i` on has anything but whitespace behind it. */
  predicate InkBehindTag(s: string, i: nat)
    requires i <= |s|
    decreases |s| - i
  {
    i < |s| &&
    match TagEnd(s, i)
    case None => InkBehindTag(s, i + 1)
    case Some(end) => !IsBlank(s[end + 1..])
  }

  lemma {:induction false} InkBehindTagShift(p: string, s: string, i: nat)
    requires i <= |s|
    ensures InkBehindTag(p + s, |p| + i) == InkBehindTag(s, i)
    decreases |s| - i
  {
    if i < |s| {
      TagBehind(p, s, i, Bracket);
      match TagEnd(s, i)
      case None => InkBehindTagShift(p, s, i + 1);
      case Some(end) => assert (p + s)[|p| + end + 1..] == s[end + 1..];
    }
  }

  lemma {:induction false} InkBehindTagBlank(s: string, blank: string, i: nat)
    requires i <= |s| && IsBlank(blank)
    ensures InkBehindTag(s + blank, i) == InkBehindTag(s, i)
    decreases |s| - i
  {
    if i < |s| {
      TagBeforeBlank(s, blank, i, Bracket);
      match TagEnd(s, i)
      case None => InkBehindTagBlank(s, blank, i + 1);
      case Some(end) =>
        assert (s + blank)[end + 1..] == s[end + 1..] + blank;
        BlankConcat(s[end + 1..], blank);
    } else {
      NoTagsInBlank(s + blank, i);
    }
  }

  lemma BlankConcat(a: string, b: string)
    ensures IsBlank(a + b) <==> IsBlank(a) && IsBlank(b)
  {
    InkOfBlank(a + b);
    InkOfBlank(a);
    InkOfBlank(b);
    InkConcat(a, b);
  }

  lemma {:induction false} NoTagsInBlank(s: string, i: nat)
    requires i <= |s| && forall k :: i <= k < |s| ==> IsWhitespace(s[k])
    ensures !InkBehindTag(s, i)
    decreases |s| - i
  {
    if i < |s| {
      NoTagInBlank(s, i, Bracket);
      NoTagsInBlank(s, i + 1);
    }
  }

  /** Spreading moves no ink from one side of a tag to the other. */
  lemma {:induction false} InkBehindTagOfSpread(s: string, i: nat, open: bool)
    requires i <= |s|
    ensures InkBehindTag(Spread(s, i, open), 0) == InkBehindTag(s, i)
    decreases |s| - i, 1
  {
    if i < |s| {
      match TagEnd(s, i)
      case None =>
        SpreadCopied(s, i, open);
        InkBehindTagOfCopy(s, i);
      case Some(end) =>
        SpreadTagged(s, i, end, open);
        InkOfSpread(s, end + 1, false);
        InkBehindFirstTag(s, i, end, NewlineIf(open), Spread(s, end + 1, false));
    }
  }

  lemma {:induction false} InkBehindTagOfCopy(s: string, i: nat)
    requires i < |s| && TagEnd(s, i) == None
    ensures InkBehindTag([s[i]] + Spread(s, i + 1, s[i] != '\n'), 0) == InkBehindTag(s, i)
    decreases |s| - i, 0
  {
    CopiedBeginsNoTag(s, i);
    InkBehindTagOfSpread(s, i + 1, s[i] != '\n');
    InkBehindFirstChar(s[i], Spread(s, i + 1, s[i] != '\n'));
  }

  lemma InkBehindFirstChar(c: char, rest: string)
    requires TagEnd([c] + rest, 0) == None
    ensures InkBehindTag([c] + rest, 0) == InkBehindTag(rest, 0)
  {
    InkBehindTagShift([c], rest, 0);
  }

  lemma InkBehindFirstTag(s: string, i: nat, end: nat, newline: string, rest: string)
    requires TagEnd(s, i) == Some(end) && newline in ["", "\n"]
    requires Ink(rest) == Ink(s[end + 1..])
    ensures InkBehindTag(newline + s[i..end + 1] + "\n" + rest, 0) == !IsBlank(s[end + 1..])
  {
    var behind := s[i..end + 1] + "\n" + rest;
    InkBehindLeadingTag(s, i, end, rest);
    if newline == "" {
      assert newline + s[i..end + 1] + "\n" + rest == behind;
    } else {
      assert newline + s[i..end + 1] + "\n" + rest == ['\n'] + behind;
      NoTagAtNewline(['\n'] + behind);
      InkBehindFirstChar('\n', behind);
    }
  }

  lemma InkBehindLeadingTag(s: string, i: nat, end: nat, rest: string)
    requires TagEnd(s, i) == Some(end) && Ink(rest) == Ink(s[end + 1..])
    ensures InkBehindTag(s[i..end + 1] + "\n" + rest, 0) == !IsBlank(s[end + 1..])
  {
    var tag := s[i..end + 1];
    TagOfFront(s, i, end, "", rest);
    assert "" + tag + "\n" + rest == tag + "\n" + rest;
    BehindNewline(tag, rest, s[end + 1..]);
  }

  lemma BehindNewline(tag: string, rest: string, more: string)
    requires Ink(rest) == Ink(more)
    ensures (tag + "\n" + rest)[|tag|..] == "\n" + rest
    ensures IsBlank("\n" + rest) == IsBlank(more)
  {
    InkConcat("\n", rest);
    InkOfBlank("\n");
    InkOfBlank("\n" + rest);
    InkOfBlank(more);
  }

  lemma NoTagAtNewline(s: string)
    requires s != [] && s[0] == '\n'
    ensures TagEnd(s, 0) == None
  {
  }

  lemma InkBehindTagOfPass(s: string)
    ensures InkBehindTag(TagPass(s), 0) == InkBehindTag(s, 0)
  {
    var r := Spread(s, 0, false);
    InkBehindTagOfSpread(s, 0, false);
    var front, back := TrimParts(r);
    InkBehindTagBlank(front + Trim(r), back, 0);
    InkBehindTagBlankFront(front, Trim(r), 0);
  }

  lemma {:induction false} InkBehindTagBlankFront(front: string, s: string, i: nat)
    requires i <= |front| && IsBlank(front)
    ensures InkBehindTag(front + s, i) == InkBehindTag(s, 0)
    decreases |front| - i
  {
    if i == |front| {
      InkBehindTagShift(front, s, 0);
    } else {
      assert (front + s)[i] != '<';
      InkBehindTagBlankFront(front, s, i + 1);
    }
  }

  // ---------------------------------------------------------------- growing

  predicate EndsInInk(s: string) {
    s != [] && !IsWhitespace(s[|s| - 1])
  }

  lemma TrimEndOfInk(s: string)
    requires EndsInInk(s)
    ensures TrimEnd(s) == s
  {
  }

  lemma {:induction false} TrimEndBehind(a: string, b: string)
    requires TrimEnd(b) != []
    ensures TrimEnd(a + b) == a + TrimEnd(b)
    decreases |b|
  {
    if IsWhitespace(b[|b| - 1]) {
      assert (a + b)[..|a + b| - 1] == a + b[..|b| - 1];
      TrimEndBehind(a, b[..|b| - 1]);
    } else {
      TrimEndOfInk(a + b);
    }
  }

  /** Behind every tag that has ink behind it the pass adds at least one newline. */
  lemma {:induction false} SpreadGrows(s: string, i: nat, open: bool)
    requires i < |s| && EndsInInk(s)
    ensures |TrimEnd(Spread(s, i, open))| >= |s| - i + (if InkBehindTag(s, i) then 1 else 0)
    decreases |s| - i
  {
    match TagEnd(s, i)
    case None =>
      SpreadCopied(s, i, open);
      var rest := Spread(s, i + 1, s[i] != '\n');
      if i + 1 < |s| {
        SpreadGrows(s, i + 1, s[i] != '\n');
        TrimEndBehind([s[i]], rest);
      } else {
        assert [s[i]] + rest == [s[i]];
        TrimEndOfInk([s[i]]);
      }
    case Some(end) =>
      SpreadTagged(s, i, end, open);
      SpreadTagGrows(s, i, end, NewlineIf(open));
  }

  lemma {:induction false} SpreadTagGrows(s: string, i: nat, end: nat, newline: string)
    requires TagEnd(s, i) == Some(end) && EndsInInk(s)
    ensures i < end < |s|
    ensures |TrimEnd(newline + s[i..end + 1] + "\n" + Spread(s, end + 1, false))|
         >= |s| - i + (if IsBlank(s[end + 1..]) then 0 else 1)
    decreases |s| - i, 0
  {
    var tag, rest := newline + s[i..end + 1], Spread(s, end + 1, false);
    if end + 1 < |s| {
      SpreadGrows(s, end + 1, false);
      TrimEndBehind(tag + "\n", rest);
    } else {
      assert s[end + 1..] == [];
      assert tag + "\n" + rest == tag + "\n";
      assert tag[|tag| - 1] == '>';
      TrimEndOfInk(tag);
      assert (tag + "\n")[..|tag|] == tag;
    }
  }

  // ---------------------------------------------------------------- staying

  lemma InkTailIsNotBlank(s: string, i: nat)
    requires i <= |s| && EndsInInk(s)
    ensures i < |s| ==> !IsBlank(s[i..])
  {
    if i < |s| {
      assert s[i..][|s| - 1 - i] == s[|s| - 1];
    }
  }

  /** Without ink behind a tag, and with the tags on lines of their own, nothing is inserted inside. */
  lemma {:induction false} SpreadStays(s: string, i: nat, open: bool)
    requires i <= |s| && EndsInInk(s) && TagsAlone(s) && !InkBehindTag(s, i)
    requires open == (i > 0 && s[i - 1] != '\n')
    ensures Spread(s, i, open) == s[i..] || Spread(s, i, open) == s[i..] + "\n"
    decreases |s| - i
  {
    if i < |s| {
      match TagEnd(s, i)
      case None =>
        SpreadStays(s, i + 1, s[i] != '\n');
        SpreadCopied(s, i, open);
        assert s[i..] == [s[i]] + s[i + 1..];
        Assoc([s[i]], s[i + 1..], "\n");
      case Some(end) =>
        assert StandsAlone(s, i);
        InkTailIsNotBlank(s, end + 1);
        SpreadTagged(s, i, end, open);
        assert "" + s[i..end + 1] + "\n" + [] == s[i..] + "\n";
    }
  }

  lemma TrimOfTrimmed(s: string)
    requires s != [] ==> !IsWhitespace(s[0]) && EndsInInk(s)
    ensures Trim(s) == s && Trim(s + "\n") == s
  {
    if s != [] {
      TrimEndOfInk(s);
      assert (s + "\n")[..|s|] == s;
    }
  }

  lemma TrimIsTrimmed(s: string)
    ensures Trim(s) != [] ==> !IsWhitespace(Trim(s)[0]) && EndsInInk(Trim(s))
  {
    var started := TrimStart(s);
    TrimStartFacts(s);
    TrimEndFacts(started);
    assert Trim(s) == started[..|Trim(s)|];
  }

  lemma SpreadStart(s: string)
    requires s != [] && !IsWhitespace(s[0])
    ensures TrimStart(Spread(s, 0, false)) == Spread(s, 0, false)
  {
    match TagEnd(s, 0)
    case None =>
      SpreadCopied(s, 0, false);
    case Some(end) =>
      SpreadTaggedStart(s, 0, end, false);
  }

  /**
   The exact condition under which the tag pass is idempotent: no tag of the text has anything
   but whitespace behind it. The newline that already separates two tags is otherwise kept and
   another one added.
   */
  lemma TagPassIdempotentIff(s: string)
    ensures TagPass(TagPass(s)) == TagPass(s) <==> !InkBehindTag(s, 0)
  {
    var o := TagPass(s);
    InkBehindTagOfPass(s);
    TagPassIsolatesTags(s);
    TrimIsTrimmed(Spread(s, 0, false));
    if o == [] {
      assert TagPass(o) == [];
    } else if InkBehindTag(o, 0) {
      SpreadGrows(o, 0, false);
      SpreadStart(o);
    } else {
      SpreadStays(o, 0, false);
      assert o[0..] == o;
      TrimOfTrimmed(o);
    }
  }

  // ---------------------------------------------------------------- bytes

  /** `TagFrom` over the bytes of a text, as the code scans it. */
  function TagFromBytes(bytes: seq<byte>, index: nat, stage: Stage): (end: Option<nat>)
    decreases |bytes| - index, Ahead(stage)
  {
    if index >= |bytes| || bytes[index] >= 0x80 then None
    else
      var c := bytes[index] as char;
      match stage
      case Bracket => if c == '<' then TagFromBytes(bytes, index + 1, Slash) else None
      case Slash => TagFromBytes(bytes, if c == '/' then index + 1 else index, Name)
      case Name => if IsTagStart(c) then TagFromBytes(bytes, index, Body) else None
      case Body =>
        if c == '>' then Some(index)
        else if IsTagChar(c) then TagFromBytes(bytes, index + 1, Body)
        else None
  }

  /** The byte offset of a character. */
  function Offset(s: string, i: nat): nat
    requires i <= |s|
  {
    ByteLen(s[..i])
  }

  lemma CharAtOffset(s: string, i: nat)
    requires i < |s|
    ensures Offset(s, i) < |Encode(s)|
    ensures Offset(s, i + 1) == Offset(s, i) + CharLen(s[i])
    ensures Encode(s)[Offset(s, i)] == EncodeChar(s[i])[0]
  {
    Split(s, i);
    EncodeConcat(s[..i], s[i..]);
    ByteLenIsEncodedLength(s[..i]);
    assert s[..i + 1] == s[..i] + [s[i]];
    ByteLenConcat(s[..i], [s[i]]);
  }

  lemma {:induction false} TagFromBytesAgrees(s: string, i: nat, stage: Stage)
    requires i <= |s|
    ensures TagFromBytes(Encode(s), Offset(s, i), stage)
         == match TagFrom(s, i, stage) case None => None case Some(end) => Some(Offset(s, end))
    decreases |s| - i, Ahead(stage)
  {
    ByteLenIsEncodedLength(s);
    if i == |s| {
      assert s[..i] == s;
    } else {
      CharAtOffset(s, i);
      if s[i] < '\U{80}' {
        match stage
        case Bracket => TagFromBytesAgrees(s, i + 1, Slash);
        case Slash => TagFromBytesAgrees(s, if s[i] == '/' then i + 1 else i, Name);
        case Name => TagFromBytesAgrees(s, i, Body);
        case Body => TagFromBytesAgrees(s, i + 1, Body);
      } else {
        NoTagBeyondAscii(s, i, stage);
      }
    }
  }

  lemma NoTagBeyondAscii(s: string, i: nat, stage: Stage)
    requires i < |s| && s[i] >= '\U{80}'
    ensures TagFrom(s, i, stage) == None
    ensures EncodeChar(s[i])[0] >= 0x80
  {
    assert TagFrom(s, i, Name) == None;
  }

  /**
   The byte scan finds the tag that the character scan finds, and both ends of it are character
   boundaries, so no slice of the tag pass cuts a character.
   */
  lemma TagSlicesOnCharBoundaries(s: string, start: nat)
    requires start < |s|
    ensures TagFromBytes(Encode(s), Offset(s, start), Bracket)
         == match TagEnd(s, start) case None => None case Some(end) => Some(Offset(s, end))
    ensures IsCharBoundary(Encode(s), Offset(s, start))
    ensures TagEnd(s, start).Some? ==> ClosesAtBoundary(s, TagEnd(s, start).value)
  {
    TagFromBytesAgrees(s, start, Bracket);
    OffsetIsBoundary(s, start);
    if TagEnd(s, start).Some? {
      BracketClosesAtBoundary(s, TagEnd(s, start).value);
    }
  }

  /** The byte behind the closing bracket begins the next character. */
  predicate ClosesAtBoundary(s: string, end: nat) {
    && end < |s|
    && Offset(s, end) + 1 == Offset(s, end + 1)
    && IsCharBoundary(Encode(s), Offset(s, end + 1))
  }

  lemma BracketClosesAtBoundary(s: string, end: nat)
    requires end < |s| && s[end] == '>'
    ensures ClosesAtBoundary(s, end)
  {
    CharAtOffset(s, end);
    OffsetIsBoundary(s, end + 1);
  }

  lemma OffsetIsBoundary(s: string, i: nat)
    requires i <= |s|
    ensures IsCharBoundary(Encode(s), Offset(s, i))
  {
    ByteLenIsEncodedLength(s);
    if i == |s| {
      assert s[..i] == s;
    } else {
      CharAtOffset(s, i);
      OnlyFirstByteStarts(s[i]);
    }
  }
}
