/** What the layout normaliser preserves, and when its passes are stable. */
module StructuredLayoutLaws {
  import opened Wrappers
  import opened Sequences
  import opened RustText
  import opened StructuredLayout

  // ---------------------------------------------------------------- only whitespace changes

  lemma {:induction false} InkOfSpread(s: string, i: nat, open: bool)
    requires i <= |s|
    ensures Ink(Spread(s, i, open)) == Ink(s[i..])
    decreases |s| - i, 1
  {
    if i < |s| {
      match TagEnd(s, i)
      case None =>
        SpreadCopied(s, i, open);
        InkOfSpread(s, i + 1, s[i] != '\n');
        InkOfFirst(s, i, Spread(s, i + 1, s[i] != '\n'));
      case Some(end) =>
        SpreadTagged(s, i, end, open);
        InkOfSpreadTag(s, i, end, NewlineIf(open));
    }
  }

  lemma {:induction false} InkOfSpreadTag(s: string, i: nat, end: nat, newline: string)
    requires i < end < |s| && IsBlank(newline)
    ensures Ink(newline + s[i..end + 1] + "\n" + Spread(s, end + 1, false)) == Ink(s[i..])
    decreases |s| - i, 0
  {
    InkOfSpread(s, end + 1, false);
    InkOfTagged(newline, s[i..end + 1], Spread(s, end + 1, false));
    InkOfSlices(s, i, end + 1);
  }

  lemma InkOfFirst(s: string, i: nat, more: string)
    requires i < |s| && Ink(more) == Ink(s[i + 1..])
    ensures Ink([s[i]] + more) == Ink(s[i..])
  {
    InkOfSlices(s, i, i + 1);
    InkConcat([s[i]], more);
    assert s[i..i + 1] == [s[i]];
  }

  lemma InkOfTagged(newline: string, tag: string, more: string)
    requires IsBlank(newline)
    ensures Ink(newline + tag + "\n" + more) == Ink(tag) + Ink(more)
  {
    InkConcat(newline + tag + "\n", more);
    InkConcat(newline + tag, "\n");
    InkConcat(newline, tag);
    InkOfBlank(newline);
    InkOfBlank("\n");
  }

  lemma InkOfSlices(s: string, i: nat, j: nat)
    requires i <= j <= |s|
    ensures Ink(s[i..]) == Ink(s[i..j]) + Ink(s[j..])
  {
    assert s[i..] == s[i..j] + s[j..];
    InkConcat(s[i..j], s[j..]);
  }

  lemma TagPassKeepsInk(s: string)
    ensures Ink(TagPass(s)) == Ink(s)
  {
    InkOfSpread(s, 0, false);
    InkOfTrim(Spread(s, 0, false));
    assert s[0..] == s;
  }

  function InkOfAll(parts: seq<string>): string {
    if parts == [] then [] else Ink(parts[0]) + InkOfAll(parts[1..])
  }

  lemma {:induction false} InkOfJoin(parts: seq<string>)
    ensures Ink(Join(parts, "\n")) == InkOfAll(parts)
  {
    if |parts| > 1 {
      InkOfJoin(parts[1..]);
      InkConcat(parts[0] + "\n", Join(parts[1..], "\n"));
      InkConcat(parts[0], "\n");
      InkOfBlank("\n");
    }
  }

  lemma {:induction false} InkOfLines(s: string) returns (lines: seq<string>)
    ensures lines == Lines(s) && InkOfAll(lines) == Ink(s)
    decreases |s|
  {
    var i := IndexOf(s, '\n');
    if s == [] {
      lines := [];
    } else if i == |s| {
      lines := [s];
    } else {
      var behind := InkOfLines(s[i + 1..]);
      lines := [StripCarriageReturn(s[..i])] + behind;
      InkOfStripped(s[..i]);
      InkOfFirstLine(s, i);
      assert lines[1..] == behind;
    }
  }

  lemma InkOfFirstLine(s: string, i: nat)
    requires i < |s| && s[i] == '\n'
    ensures Ink(s) == Ink(s[..i]) + Ink(s[i + 1..])
  {
    assert s == s[..i] + [s[i]] + s[i + 1..];
    InkAroundSpace(s[..i], s[i], s[i + 1..]);
  }

  lemma InkAroundSpace(a: string, space: char, b: string)
    requires IsWhitespace(space)
    ensures Ink(a + [space] + b) == Ink(a) + Ink(b)
  {
    InkConcat(a + [space], b);
    InkConcat(a, [space]);
    InkOfBlank([space]);
  }

  lemma InkOfStripped(line: string)
    ensures Ink(StripCarriageReturn(line)) == Ink(line)
  {
    if EndsWith(line, '\r') {
      Snoc(line);
      InkConcat(line[..|line| - 1], "\r");
      InkOfBlank("\r");
    }
  }

  lemma InkOfSpacedHeading(line: string)
    ensures Ink(SpaceHeading(line)) == Ink(line)
  {
    var trimmed := TrimStart(line);
    var body := |line| - |trimmed| + Hashes(trimmed);
    assert SpaceHeading(line) == line || SpaceHeading(line) == line[..body] + " " + line[body..];
    InkOfSpaced(line, body);
  }

  lemma InkOfSpaced(line: string, i: nat)
    requires i <= |line|
    ensures Ink(line[..i] + " " + line[i..]) == Ink(line)
  {
    InkConcat(line[..i] + " ", line[i..]);
    InkConcat(line[..i], " ");
    InkOfBlank(" ");
    InkConcat(line[..i], line[i..]);
    Split(line, i);
  }

  lemma {:induction false} InkOfSpacedHeadings(lines: seq<string>)
    ensures InkOfAll(SpaceHeadings(lines)) == InkOfAll(lines)
  {
    if lines != [] {
      InkOfSpacedHeading(lines[0]);
      InkOfSpacedHeadings(lines[1..]);
    }
  }

  lemma HeadingPassKeepsInk(s: string)
    ensures Ink(HeadingPass(s)) == Ink(s)
  {
    InkOfJoin(SpaceHeadings(Lines(s)));
    InkOfSpacedHeadings(Lines(s));
    var lines := InkOfLines(s);
  }

  /** A heading whose hashes run into its text. */
  predicate LacksSpace(line: string) {
    var trimmed := TrimStart(line);
    var hashes := Hashes(trimmed);
    1 <= hashes <= 6 && hashes < |trimmed| && !IsWhitespace(trimmed[hashes])
  }

  lemma {:induction false} TrimStartOfIndented(indent: string, text: string)
    requires IsBlank(indent) && (text == [] || !IsWhitespace(text[0]))
    ensures TrimStart(indent + text) == text
  {
    if indent == [] {
      assert indent + text == text;
    } else {
      assert (indent + text)[1..] == indent[1..] + text;
      TrimStartOfIndented(indent[1..], text);
    }
  }

  lemma {:induction false} HashesOfSpaced(hashes: string, text: string)
    requires Hashes(hashes) == |hashes|
    ensures Hashes(hashes + " " + text) == |hashes|
  {
    if hashes != [] {
      assert (hashes + " " + text)[1..] == hashes[1..] + " " + text;
      HashesOfSpaced(hashes[1..], text);
    } else {
      assert (hashes + " " + text)[0] == ' ';
    }
  }

  lemma {:induction false} HashesOfPrefix(s: string, n: nat)
    requires n == Hashes(s)
    ensures Hashes(s[..n]) == n
  {
    if n > 0 {
      HashesOfPrefix(s[1..], n - 1);
      assert s[..n][1..] == s[1..][..n - 1];
    }
  }

  lemma SpacedDoesNotLack(spaced: string, indent: string, hashes: string, text: string)
    requires spaced == indent + (hashes + " " + text)
    requires IsBlank(indent) && hashes != [] && Hashes(hashes) == |hashes|
    ensures !LacksSpace(spaced)
  {
    var behind := hashes + " " + text;
    TrimStartOfIndented(indent, behind);
    HashesOfSpaced(hashes, text);
    assert behind[|hashes|] == ' ';
  }

  /** The heading pass changes exactly the headings that lack a space, and leaves none that does. */
  lemma SpacedHeading(line: string)
    ensures SpaceHeading(line) == line <==> !LacksSpace(line)
    ensures !LacksSpace(SpaceHeading(line))
  {
    if LacksSpace(line) {
      TrimStartFacts(line);
      SpacedNoLonger(line, |line| - |TrimStart(line)|, Hashes(TrimStart(line)), SpaceHeading(line));
    }
  }

  lemma SpacedNoLonger(line: string, k: nat, n: nat, spaced: string)
    requires k + n <= |line| && IsBlank(line[..k]) && 1 <= n && Hashes(line[k..]) == n
    requires spaced == line[..k + n] + " " + line[k + n..]
    ensures !LacksSpace(spaced) && spaced != line
  {
    assert |spaced| == |line| + 1;
    SpacedShape(line, k, n);
    HashesOfPrefix(line[k..], n);
    SpacedDoesNotLack(spaced, line[..k], line[k..][..n], line[k..][n..]);
  }

  lemma SpacedShape(line: string, k: nat, n: nat)
    requires k + n <= |line|
    ensures line[..k + n] + " " + line[k + n..] == line[..k] + (line[k..][..n] + " " + line[k..][n..])
  {
    assert line[..k + n] == line[..k] + line[k..][..n];
    assert line[k + n..] == line[k..][n..];
  }

  lemma {:induction false} InkOfLabels(text: string, index: nat, output: string) returns (labels: string)
    requires index <= |text|
    ensures labels == LabelsFrom(text, index, output) && Ink(labels) == Ink(output) + Ink(text[index..])
    decreases |text| - index
  {
    if index == |text| {
      labels := output;
    } else {
      var newline := NewlineIf(index > 0 && Breaks(output, text[index - 1], text[index..]));
      labels := InkOfLabels(text, index + 1, output + newline + [text[index]]);
      InkOfWritten(output, newline, text[index], text[index + 1..]);
      assert text[index..] == [text[index]] + text[index + 1..];
    }
  }

  lemma InkOfWritten(output: string, newline: string, c: char, more: string)
    requires IsBlank(newline)
    ensures Ink(output + newline + [c]) + Ink(more) == Ink(output) + Ink([c] + more)
  {
    InkConcat(output + newline, [c]);
    InkConcat(output, newline);
    InkOfBlank(newline);
    InkConcat([c], more);
    Assoc(Ink(output), Ink([c]), Ink(more));
  }

  lemma LabelPassKeepsInk(s: string)
    ensures Ink(LabelPass(s)) == Ink(s)
  {
    var labels := InkOfLabels(s, 0, "");
    assert s[0..] == s;
  }

  /** Layout normalisation changes nothing but whitespace; in particular it never blanks an answer. */
  lemma NormalizeKeepsInk(s: string)
    ensures Ink(Normalize(s)) == Ink(s)
    ensures IsBlank(Normalize(s)) <==> IsBlank(s)
  {
    TagPassKeepsInk(s);
    HeadingPassKeepsInk(TagPass(s));
    LabelPassKeepsInk(HeadingPass(TagPass(s)));
    InkOfBlank(s);
    InkOfBlank(Normalize(s));
  }

  // ---------------------------------------------------------------- tags under slicing

  function Shift(end: Option<nat>, distance: nat): Option<nat> {
    match end
    case None => None
    case Some(e) => Some(e + distance)
  }

  /** Text in front of a tag does not matter to it. */
  lemma {:induction false} TagBehind(p: string, s: string, i: nat, stage: Stage)
    ensures TagFrom(p + s, |p| + i, stage) == Shift(TagFrom(s, i, stage), |p|)
    decreases |s| - i, Ahead(stage)
  {
    if i < |s| {
      assert (p + s)[|p| + i] == s[i];
      match stage
      case Bracket => TagBehind(p, s, i + 1, Slash);
      case Slash => TagBehind(p, s, if s[i] == '/' then i + 1 else i, Name);
      case Name => TagBehind(p, s, i, Body);
      case Body => TagBehind(p, s, i + 1, Body);
    }
  }

  /** Nor does blank text behind it. */
  lemma {:induction false} TagBeforeBlank(s: string, blank: string, i: nat, stage: Stage)
    requires i <= |s| && IsBlank(blank)
    ensures TagFrom(s + blank, i, stage) == TagFrom(s, i, stage)
    decreases |s| - i, Ahead(stage)
  {
    if i < |s| {
      match stage
      case Bracket => TagBeforeBlank(s, blank, i + 1, Slash);
      case Slash => TagBeforeBlank(s, blank, if s[i] == '/' then i + 1 else i, Name);
      case Name => TagBeforeBlank(s, blank, i, Body);
      case Body => TagBeforeBlank(s, blank, i + 1, Body);
    } else {
      NoTagInBlank(s + blank, i, stage);
    }
  }

  lemma {:induction false} NoTagInBlank(s: string, i: nat, stage: Stage)
    requires forall k :: i <= k < |s| ==> IsWhitespace(s[k])
    ensures TagFrom(s, i, stage) == None
    decreases |s| - i, Ahead(stage)
  {
    if i < |s| {
      match stage
      case Bracket =>
      case Slash => NoTagInBlank(s, i, Name);
      case Name => NoTagInBlank(s, i, Body);
      case Body => NoTagInBlank(s, i + 1, Body);
    }
  }

  // ---------------------------------------------------------------- every tag on a line of its own

  lemma SpreadCopied(s: string, i: nat, open: bool)
    requires i < |s| && TagEnd(s, i) == None
    ensures Spread(s, i, open) == [s[i]] + Spread(s, i + 1, s[i] != '\n')
  {
  }

  lemma SpreadTagged(s: string, i: nat, end: nat, open: bool)
    requires i < end < |s| && TagEnd(s, i) == Some(end)
    ensures Spread(s, i, open) == NewlineIf(open) + s[i..end + 1] + "\n" + Spread(s, end + 1, false)
  {
  }

  lemma SpreadTaggedStart(s: string, i: nat, end: nat, open: bool)
    requires TagEnd(s, i) == Some(end)
    ensures Spread(s, i, open) != [] && Spread(s, i, open)[0] == if open then '\n' else '<'
  {
    SpreadTagged(s, i, end, open);
    assert s[i..end + 1][0] == '<';
  }

  /** What continues a tag survives the spreading of the text, and nothing else continues one. */
  lemma {:induction false} TagOfSpread(s: string, i: nat, open: bool, stage: Stage)
    requires i <= |s| && stage != Bracket
    ensures TagFrom(s, i, stage) == Shift(TagFrom(Spread(s, i, open), 0, stage), i)
    decreases |s| - i, 1
  {
    if i < |s| {
      match TagEnd(s, i)
      case None =>
        SpreadCopied(s, i, open);
        TagOfCopied(s, i, Spread(s, i + 1, s[i] != '\n'), stage);
      case Some(end) =>
        SpreadTaggedStart(s, i, end, open);
        NoTagContinues(Spread(s, i, open), 0, stage);
        NoTagContinues(s, i, stage);
    }
  }

  lemma {:induction false} TagOfCopied(s: string, i: nat, rest: string, stage: Stage)
    requires i < |s| && stage != Bracket && TagEnd(s, i) == None && rest == Spread(s, i + 1, s[i] != '\n')
    ensures TagFrom(s, i, stage) == Shift(TagFrom([s[i]] + rest, 0, stage), i)
    decreases |s| - i, 0
  {
    TagOfSpread(s, i + 1, s[i] != '\n', Name);
    ContinuesBehind(s, i, rest, Name);
    TagOfSpread(s, i + 1, s[i] != '\n', Body);
    ContinuesBehind(s, i, rest, Body);
    TagOneChar(s, i, [s[i]] + rest, stage);
  }

  lemma ContinuesBehind(s: string, i: nat, rest: string, stage: Stage)
    requires i < |s| && TagFrom(s, i + 1, stage) == Shift(TagFrom(rest, 0, stage), i + 1)
    ensures TagFrom(s, i + 1, stage) == Shift(TagFrom([s[i]] + rest, 1, stage), i)
  {
    TagBehindChar(s[i], rest, stage);
    Shifts(TagFrom(rest, 0, stage), TagFrom([s[i]] + rest, 1, stage), TagFrom(s, i + 1, stage), i);
  }

  lemma TagBehindChar(c: char, rest: string, stage: Stage)
    ensures TagFrom([c] + rest, 1, stage) == Shift(TagFrom(rest, 0, stage), 1)
  {
    TagBehind([c], rest, 0, stage);
  }

  lemma Shifts(a: Option<nat>, b: Option<nat>, c: Option<nat>, i: nat)
    requires b == Shift(a, 1) && c == Shift(a, i + 1)
    ensures c == Shift(b, i)
  {
  }

  /** Two texts that agree on a character and on what continues a tag behind it. */
  lemma TagOneChar(s: string, i: nat, t: string, stage: Stage)
    requires i < |s| && t != [] && s[i] == t[0] && stage != Bracket
    requires TagFrom(s, i + 1, Name) == Shift(TagFrom(t, 1, Name), i)
    requires TagFrom(s, i + 1, Body) == Shift(TagFrom(t, 1, Body), i)
    ensures TagFrom(s, i, stage) == Shift(TagFrom(t, 0, stage), i)
  {
    assert TagFrom(s, i, Body) == Shift(TagFrom(t, 0, Body), i);
    assert TagFrom(s, i, Name) == Shift(TagFrom(t, 0, Name), i);
  }

  lemma NoTagContinues(r: string, i: nat, stage: Stage)
    requires i < |r| && (r[i] == '\n' || r[i] == '<') && stage != Bracket
    ensures TagFrom(r, i, stage) == None
  {
    assert TagFrom(r, i, Name) == None;
  }

  /** A character that begins no tag still begins none when the text behind it is spread. */
  lemma CopiedBeginsNoTag(s: string, i: nat)
    requires i < |s| && TagEnd(s, i) == None
    ensures TagEnd([s[i]] + Spread(s, i + 1, s[i] != '\n'), 0) == None
  {
    var rest := Spread(s, i + 1, s[i] != '\n');
    TagOfSpread(s, i + 1, s[i] != '\n', Slash);
    TagBehindChar(s[i], rest, Slash);
  }

  /** What holds of a tag at `k` of a spread text. */
  predicate AloneAt(r: string, k: nat, open: bool)
    requires k < |r|
  {
    TagEnd(r, k).Some? ==>
      && (if k == 0 then !open else r[k - 1] == '\n')
      && TagEnd(r, k).value + 1 < |r| && r[TagEnd(r, k).value + 1] == '\n'
  }

  /** In a spread text every tag begins and ends a line. */
  lemma {:induction false} SpreadIsolatesTag(s: string, i: nat, open: bool, k: nat) returns (spread: string)
    requires i <= |s|
    ensures spread == Spread(s, i, open) && Alone(spread, k, open)
    decreases |s| - i
  {
    if i == |s| {
      return [];
    }
    match TagEnd(s, i)
    case None =>
      var rest := SpreadIsolatesTag(s, i + 1, s[i] != '\n', Behind(k, 1));
      spread := CopyIsolatesTag(s, i, open, k, rest);
    case Some(end) =>
      var front := NewlineIf(open) + s[i..end + 1] + "\n";
      var rest := SpreadIsolatesTag(s, end + 1, false, Behind(k, |front|));
      spread := TagIsolatesTag(s, i, end, open, k, front, rest);
  }

  function Behind(k: nat, front: nat): nat {
    if k < front then 0 else k - front
  }

  predicate Alone(spread: string, k: nat, open: bool) {
    k < |spread| ==> AloneAt(spread, k, open)
  }

  lemma CopyIsolatesTag(s: string, i: nat, open: bool, k: nat, rest: string) returns (spread: string)
    requires i < |s| && TagEnd(s, i) == None && rest == Spread(s, i + 1, s[i] != '\n')
    requires Alone(rest, Behind(k, 1), s[i] != '\n')
    ensures spread == Spread(s, i, open) && Alone(spread, k, open)
  {
    spread := [s[i]] + rest;
    SpreadCopied(s, i, open);
    CopiedBeginsNoTag(s, i);
    if k < |spread| {
      AloneBehindCopy(s, i, open, k, rest);
    }
  }

  lemma TagIsolatesTag(s: string, i: nat, end: nat, open: bool, k: nat, front: string, rest: string)
    returns (spread: string)
    requires i < end < |s| && TagEnd(s, i) == Some(end) && rest == Spread(s, end + 1, false)
    requires front == NewlineIf(open) + s[i..end + 1] + "\n" && Alone(rest, Behind(k, |front|), false)
    ensures spread == Spread(s, i, open) && Alone(spread, k, open)
  {
    spread := front + rest;
    SpreadTagged(s, i, end, open);
    if k < |spread| {
      AloneBehindTag(s, i, end, open, k, front, rest);
    }
  }

  /** At a character that is copied, and in what follows it. */
  lemma AloneBehindCopy(s: string, i: nat, open: bool, k: nat, rest: string)
    requires i < |s| && TagEnd(s, i) == None && TagEnd([s[i]] + rest, 0) == None
    requires k < |[s[i]] + rest| && (k >= 1 ==> AloneAt(rest, k - 1, s[i] != '\n'))
    ensures AloneAt([s[i]] + rest, k, open)
  {
    if k >= 1 {
      AloneBehind([s[i]], rest, k - 1, s[i] != '\n', open);
    }
  }

  /** In a tag on lines of its own, and in what follows it. */
  lemma AloneBehindTag(s: string, i: nat, end: nat, open: bool, k: nat, front: string, rest: string)
    requires TagEnd(s, i) == Some(end) && front == NewlineIf(open) + s[i..end + 1] + "\n"
    requires k < |front + rest| && (k >= |front| ==> AloneAt(rest, k - |front|, false))
    ensures AloneAt(front + rest, k, open)
  {
    if k < |front| {
      AloneInFront(s, i, end, open, rest, k);
    } else {
      AloneBehind(front, rest, k - |front|, false, open);
    }
  }

  lemma AloneBehind(front: string, rest: string, k: nat, inner: bool, open: bool)
    requires k < |rest| && AloneAt(rest, k, inner)
    requires front != [] && inner == (front[|front| - 1] != '\n')
    ensures AloneAt(front + rest, |front| + k, open)
  {
    var r := front + rest;
    TagBehind(front, rest, k, Bracket);
    if TagEnd(rest, k).Some? {
      var end := TagEnd(rest, k).value;
      assert r[|front| + end + 1] == rest[end + 1];
      assert r[|front| + k - 1] == if k == 0 then front[|front| - 1] else rest[k - 1];
    }
  }

  lemma AloneInFront(s: string, i: nat, end: nat, open: bool, rest: string, k: nat)
    requires TagEnd(s, i) == Some(end)
    ensures i < end < |s|
    ensures var front := NewlineIf(open) + s[i..end + 1] + "\n";
      k < |front| ==> AloneAt(front + rest, k, open)
  {
    var newline, tag := NewlineIf(open), s[i..end + 1];
    var front := newline + tag + "\n";
    if k == |newline| {
      TagOfFront(s, i, end, newline, rest);
      assert (front + rest)[|newline| + end - i + 1] == '\n';
    } else if k < |front| {
      TagInterior(s, i, end);
      assert (front + rest)[k] == front[k];
      assert front[k] != '<' by {
        if |newline| < k < |front| - 1 {
          assert front[k] == s[i + k - |newline|];
        }
      }
    }
  }

  lemma TagInterior(s: string, i: nat, end: nat)
    requires TagEnd(s, i) == Some(end)
    ensures i < end < |s|
    ensures forall k :: i < k <= end ==> s[k] != '<'
  {
    TagSkipsBrackets(s, i + 1, Slash);
  }

  lemma {:induction false} TagSkipsBrackets(s: string, i: nat, stage: Stage)
    requires stage != Bracket && TagFrom(s, i, stage).Some?
    ensures forall k :: i <= k <= TagFrom(s, i, stage).value ==> s[k] != '<'
    decreases |s| - i, Ahead(stage)
  {
    match stage
    case Slash => TagSkipsBrackets(s, if s[i] == '/' then i + 1 else i, Name);
    case Name => TagSkipsBrackets(s, i, Body);
    case Body =>
      if s[i] != '>' {
        TagSkipsBrackets(s, i + 1, Body);
      }
  }

  /** A tag stays a tag of the same length whatever surrounds it. */
  lemma TagOfFront(s: string, i: nat, end: nat, newline: string, rest: string)
    requires TagEnd(s, i) == Some(end)
    ensures i < end < |s|
    ensures TagEnd(newline + s[i..end + 1] + "\n" + rest, |newline|) == Some(|newline| + end - i)
  {
    var tag := s[i..end + 1];
    var behind := tag + "\n" + rest;
    assert newline + tag + "\n" + rest == newline + behind;
    TagBehind(newline, behind, 0, Bracket);
    assert forall k :: i <= k <= end ==> behind[k - i] == s[k];
    SameTag(s, i, behind, i, Bracket);
  }

  lemma {:induction false} SameTag(s: string, i: nat, t: string, at: nat, stage: Stage)
    requires i <= at && TagFrom(s, at, stage).Some?
    requires TagFrom(s, at, stage).value - i < |t|
    requires forall k :: i <= k <= TagFrom(s, at, stage).value ==> t[k - i] == s[k]
    ensures TagFrom(t, at - i, stage) == Some(TagFrom(s, at, stage).value - i)
    decreases |s| - at, Ahead(stage)
  {
    assert t[at - i] == s[at];
    match stage
    case Bracket => SameTag(s, i, t, at + 1, Slash);
    case Slash => SameTag(s, i, t, if s[at] == '/' then at + 1 else at, Name);
    case Name => SameTag(s, i, t, at, Body);
    case Body =>
      if s[at] != '>' {
        SameTag(s, i, t, at + 1, Body);
      }
  }

  /** Every tag of a text begins a line and ends one. */
  predicate TagsAlone(o: string) {
    forall k :: 0 <= k < |o| && TagEnd(o, k).Some? ==> StandsAlone(o, k)
  }

  /** A text and its trimmed form: `front + Trim(s) + back`, with blank ends. */
  lemma TrimParts(s: string) returns (front: string, back: string)
    ensures s == front + Trim(s) + back && IsBlank(front) && IsBlank(back)
  {
    var started := TrimStart(s);
    front, back := s[..|s| - |started|], started[|TrimEnd(started)|..];
    TrimStartFacts(s);
    TrimEndFacts(started);
    Split(s, |front|);
    Split(started, |TrimEnd(started)|);
    Assoc(front, Trim(s), back);
  }

  /** The tags of a text between blank ends are the tags of the whole. */
  lemma TagBetweenBlanks(front: string, o: string, back: string, k: nat)
    requires IsBlank(back) && k < |o|
    ensures TagEnd(front + o + back, |front| + k) == Shift(TagEnd(o, k), |front|)
  {
    Assoc(front, o, back);
    TagBehind(front, o + back, k, Bracket);
    TagBeforeBlank(o, back, k, Bracket);
  }

  predicate StandsAlone(o: string, k: nat)
    requires k < |o| && TagEnd(o, k).Some?
  {
    && (k == 0 || o[k - 1] == '\n')
    && (TagEnd(o, k).value + 1 == |o| || o[TagEnd(o, k).value + 1] == '\n')
  }

  lemma TagStaysAlone(front: string, o: string, back: string, k: nat)
    requires IsBlank(back)
    requires k < |o| && TagEnd(o, k).Some? && AloneAt(front + o + back, |front| + k, false)
    ensures StandsAlone(o, k)
  {
    var r, end := front + o + back, TagEnd(o, k).value;
    TagBetweenBlanks(front, o, back, k);
    assert k > 0 ==> r[|front| + k - 1] == o[k - 1];
    assert end + 1 < |o| ==> r[|front| + end + 1] == o[end + 1];
  }

  /** What the tag pass is for: in its result every tag stands on a line of its own. */
  lemma TagPassIsolatesTags(s: string)
    ensures TagsAlone(TagPass(s))
  {
    var r := Spread(s, 0, false);
    var front, back := TrimParts(r);
    forall k | 0 <= k < |Trim(r)| && TagEnd(Trim(r), k).Some?
      ensures StandsAlone(Trim(r), k)
    {
      var spread := SpreadIsolatesTag(s, 0, false, |front| + k);
      TagStaysAlone(front, Trim(r), back, k);
    }
  }
}
