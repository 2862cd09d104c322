/** What the whole normaliser does to a text: when it does anything, and what becomes of its tags. */
module StructuredLayoutWhole {
  import opened Wrappers
  import opened Sequences
  import opened RustText
  import opened StructuredLayout
  import Labels = StructuredLayoutLabels
  import Laws = StructuredLayoutLaws

  // ---------------------------------------------------------------- what a tag is

  predicate BeginsName(c: char) {
    IsAsciiAlphabetic(c) || c == '_'
  }

  predicate MayBeInTag(c: char) {
    IsAsciiAlphanumeric(c) || c in "_-:/ \t"
  }

  /** A bracket, an optional slash, and a name with whatever may be in a tag up to the closing bracket. */
  predicate IsTag(s: string, i: nat, e: nat) {
    && i + 1 < e < |s| && s[i] == '<' && s[e] == '>'
    && var name := if s[i + 1] == '/' then i + 2 else i + 1;
    && name < e && BeginsName(s[name])
    && forall k :: name <= k < e ==> MayBeInTag(s[k])
  }

  lemma {:induction false} BodyIff(s: string, i: nat, e: nat)
    requires i < |s|
    ensures TagFrom(s, i, Body) == Some(e) <==>
            i <= e < |s| && s[e] == '>' && forall k :: i <= k < e ==> MayBeInTag(s[k])
    decreases |s| - i
  {
    assert IsTagChar(s[i]) <==> MayBeInTag(s[i]) by {
      assert "_-:/ \t"[..] == ['_', '-', ':', '/', ' ', '\t'];
    }
    if s[i] != '>' && IsTagChar(s[i]) && i + 1 < |s| {
      BodyIff(s, i + 1, e);
    }
  }

  lemma TagIff(s: string, i: nat, e: nat)
    requires i < |s|
    ensures TagEnd(s, i) == Some(e) <==> IsTag(s, i, e)
  {
    if s[i] == '<' && i + 1 < |s| {
      var name := if s[i + 1] == '/' then i + 2 else i + 1;
      assert TagEnd(s, i) == TagFrom(s, i + 1, Slash) == TagFrom(s, name, Name);
      if name < |s| {
        BodyIff(s, name, e);
      }
    }
  }

  // ---------------------------------------------------------------- where a line is broken

  /** There is a colon in front of `i` on its line. */
  predicate ColonBefore(s: string, i: nat)
    requires i <= |s|
  {
    exists k :: 0 <= k < i && IsColon(s[k]) && forall l :: k < l < i ==> s[l] != '\n' && s[l] != '\r'
  }

  lemma ColonBeforeNext(s: string, before: nat, i: nat)
    requires i <= |s| && i == before + 1
    ensures ColonBefore(s, i) <==>
            IsColon(s[before]) || (s[before] != '\n' && s[before] != '\r' && ColonBefore(s, before))
  {
    if IsColon(s[before]) {
      assert ColonBefore(s, i);
    } else if ColonBefore(s, before) && s[before] != '\n' && s[before] != '\r' {
      var k :| 0 <= k < before && IsColon(s[k]) && forall l :: k < l < before ==> s[l] != '\n' && s[l] != '\r';
      assert forall l :: k < l < i ==> s[l] != '\n' && s[l] != '\r';
    }
  }

  lemma {:induction false} ColonBeforeIff(s: string, i: nat)
    requires i <= |s|
    ensures ColonOnLine(s[..i]) <==> ColonBefore(s, i)
  {
    if i > 0 {
      var before := i - 1;
      ColonBeforeIff(s, before);
      ColonBeforeNext(s, before, i);
      assert s[..i][..before] == s[..before];
    }
  }

  /**
   A text is broken exactly in front of a field label that has a colon in front of it on its line,
   unless it stands directly behind a colon, a slash, a dash, an underscore or a bracket.
   */
  lemma BreakPointIff(s: string, i: nat)
    requires 0 < i < |s|
    ensures Labels.BreakPoint(s, i) <==>
            && ColonBefore(s, i) && FieldLabelAt(s[i - 1], s[i..])
            && s[i - 1] !in ":\U{FF1A}/-_<>"
  {
    ColonBeforeIff(s, i);
  }

  // ---------------------------------------------------------------- structured texts

  lemma {:induction false} SomeTagIff(s: string, i: nat)
    requires i <= |s|
    ensures CountTags(s, i) > 0 <==> exists k :: i <= k < |s| && TagEnd(s, k).Some?
    decreases |s| - i
  {
    if i < |s| && TagEnd(s, i) == None {
      SomeTagIff(s, i + 1);
    }
  }

  /** Tags do not overlap, so two tags are counted exactly where two begin. */
  lemma {:induction false} TwoTagsIff(s: string, i: nat)
    requires i <= |s|
    ensures CountTags(s, i) >= 2 <==>
            exists j, k :: i <= j < k < |s| && TagEnd(s, j).Some? && TagEnd(s, k).Some?
    decreases |s| - i
  {
    if i < |s| {
      match TagEnd(s, i)
      case None =>
        TwoTagsIff(s, i + 1);
      case Some(end) =>
        SomeTagIff(s, end + 1);
        Laws.TagInterior(s, i, end);
        assert forall k :: i < k < |s| && TagEnd(s, k).Some? ==> k > end;
    }
  }

  lemma {:induction false} ContainsIff(s: string, part: string)
    ensures Contains(s, part) <==> exists k :: 0 <= k <= |s| && StartsWith(s[k..], part)
  {
    if StartsWith(s, part) {
      assert s[0..] == s;
    } else if s != [] {
      ContainsIff(s[1..], part);
      assert forall k :: 0 <= k <= |s[1..]| ==> s[1..][k..] == s[k + 1..];
      if k :| 0 <= k <= |s| && StartsWith(s[k..], part) {
        assert k > 0 && s[1..][k - 1..] == s[k..] by {
          assert s[0..] == s;
        }
      }
    } else {
      assert s[0..] == s;
    }
  }

  /** A line that begins, after its indentation, like a heading or a table row. */
  predicate IsMarked(line: string) {
    var text := TrimStart(line);
    text != [] && (text[0] == '#' || text[0] == '|')
  }

  lemma {:induction false} AnyMarkedIff(lines: seq<string>)
    ensures AnyMarkedLine(lines) <==> exists i :: 0 <= i < |lines| && IsMarked(lines[i])
  {
    if lines != [] {
      AnyMarkedIff(lines[1..]);
      MarkedIff(lines[0]);
      if i :| 0 <= i < |lines| && IsMarked(lines[i]) {
        assert i > 0 ==> lines[1..][i - 1] == lines[i];
      }
    }
  }

  lemma MarkedIff(line: string)
    ensures IsMarked(line) <==> StartsWith(TrimStart(line), "#") || StartsWith(TrimStart(line), "|")
  {
    var text := TrimStart(line);
    if text != [] {
      assert text[..1] == [text[0]];
    }
  }

  /** A text with two tags, a code fence, or a heading or table line. */
  ghost predicate IsStructured(text: string) {
    || (exists j, k :: 0 <= j < k < |text| && TagEnd(text, j).Some? && TagEnd(text, k).Some?)
    || (exists k :: 0 <= k <= |text| && StartsWith(text[k..], "```"))
    || (exists i :: 0 <= i < |Lines(text)| && IsMarked(Lines(text)[i]))
  }

  /** Only structured texts are touched. */
  lemma OnlyStructuredTextsChange(text: string)
    ensures LooksStructured(text) <==> IsStructured(text)
    ensures !IsStructured(text) ==> Normalize(text) == text
  {
    TwoTagsIff(text, 0);
    ContainsIff(text, FENCE);
    AnyMarkedIff(Lines(text));
  }

  // ---------------------------------------------------------------- lines of a text

  predicate AtLineStart(s: string) {
    s == "" || EndsWith(s, '\n')
  }

  lemma FirstLine(s: string, line: string, rest: string)
    requires '\n' !in line && s == line + "\n" + rest
    ensures Lines(s) == [StripCarriageReturn(line)] + Lines(rest)
  {
    var i := IndexOf(s, '\n');
    assert s[|line|] == '\n';
    assert forall j :: 0 <= j < |line| ==> s[j] == line[j];
    assert i == |line|;
    assert s[..i] == line && s[i + 1..] == rest;
  }

  /** Whole lines in front of a text are lines of the whole. */
  lemma {:induction false} LinesInTurn(a: string, s: string) returns (lines: seq<string>)
    requires AtLineStart(a)
    ensures lines == Lines(a) && Lines(a + s) == lines + Lines(s)
    decreases |a|
  {
    if a == "" {
      lines := [];
      assert a + s == s;
    } else {
      var line, rest := CutLine(a);
      FirstLine(a, line, rest);
      FirstLine(a + s, line, rest + s);
      var more := LinesInTurn(rest, s);
      lines := [StripCarriageReturn(line)] + more;
      Assoc([StripCarriageReturn(line)], more, Lines(s));
    }
  }

  lemma CutLine(a: string) returns (line: string, rest: string)
    requires EndsWith(a, '\n')
    ensures '\n' !in line && a == line + "\n" + rest && AtLineStart(rest)
    ensures forall s: string :: a + s == line + "\n" + (rest + s)
  {
    var i := IndexOf(a, '\n');
    assert a[|a| - 1] == '\n';
    line, rest := a[..i], a[i + 1..];
    assert rest != "" ==> rest[|rest| - 1] == a[|a| - 1];
    forall s: string ensures a + s == line + "\n" + (rest + s) {
      Assoc(line + "\n", rest, s);
    }
  }

  /** The lines of a tag and of what follows it on further lines. */
  lemma TagThenLines(tag: string, b: string)
    requires tag != "" && '\n' !in tag && !EndsWith(tag, '\r')
    requires b == "" || b[0] == '\n'
    ensures Lines(tag + b) == [tag] + Lines(if b == "" then "" else b[1..])
  {
    var s := tag + b;
    assert forall j :: 0 <= j < |tag| ==> s[j] == tag[j];
    if b == "" {
      assert s == tag && IndexOf(tag, '\n') == |tag|;
    } else {
      assert s[|tag|] == '\n' && IndexOf(s, '\n') == |tag|;
      assert s[..|tag|] == tag && s[|tag| + 1..] == b[1..];
    }
  }

  lemma SpaceHeadingsConcat(a: seq<string>, b: seq<string>)
    ensures SpaceHeadings(a + b) == SpaceHeadings(a) + SpaceHeadings(b)
  {
    if a == [] {
      assert a + b == b;
    } else {
      assert (a + b)[1..] == a[1..] + b;
      SpaceHeadingsConcat(a[1..], b);
    }
  }

  /** What precedes a line in a join, and what follows it. */
  lemma JoinAround(a: seq<string>, line: string, b: seq<string>) returns (front: string, back: string)
    ensures Join(a + [line] + b, "\n") == front + line + back
    ensures AtLineStart(front) && (back == "" || back[0] == '\n')
  {
    front := if a == [] then "" else Join(a, "\n") + "\n";
    back := if b == [] then "" else "\n" + Join(b, "\n");
    if b == [] {
      assert a + [line] + b == a + [line];
    } else {
      JoinConcat([line], b, "\n");
    }
    assert Join([line] + b, "\n") == line + back;
    Assoc(a, [line], b);
    if a == [] {
      assert a + [line] + b == [line] + b;
    } else {
      JoinConcat(a, [line] + b, "\n");
    }
    Assoc(front, line, back);
  }

  lemma {:induction false} TagHasNoBreak(s: string, i: nat, stage: Stage)
    requires TagFrom(s, i, stage).Some?
    ensures forall k :: i <= k <= TagFrom(s, i, stage).value ==> s[k] != '\n'
    decreases |s| - i, Ahead(stage)
  {
    match stage
    case Bracket => TagHasNoBreak(s, i + 1, Slash);
    case Slash => TagHasNoBreak(s, if s[i] == '/' then i + 1 else i, Name);
    case Name => TagHasNoBreak(s, i, Body);
    case Body =>
      if s[i] != '>' {
        TagHasNoBreak(s, i + 1, Body);
      }
  }

  /** The heading pass carries a tag on a line of its own over as it is. */
  lemma HeadingPassKeepsTag(a: string, tag: string, b: string) returns (front: string, back: string)
    requires AtLineStart(a) && (b == "" || b[0] == '\n')
    requires TagEnd(tag, 0) == Some(|tag| - 1)
    ensures HeadingPass(a + tag + b) == front + tag + back
    ensures AtLineStart(front) && (back == "" || back[0] == '\n')
  {
    TagHasNoBreak(tag, 0, Bracket);
    var rest := Lines(if b == "" then "" else b[1..]);
    Assoc(a, tag, b);
    var lines := LinesInTurn(a, tag + b);
    TagThenLines(tag, b);
    assert Lines(a + tag + b) == Lines(a) + ([tag] + rest);
    assert Hashes(tag) == 0 && TrimStart(tag) == tag;
    assert SpaceHeadings([tag]) == [tag];
    SpaceHeadingsConcat([tag], rest);
    SpaceHeadingsConcat(Lines(a), [tag] + rest);
    Assoc(SpaceHeadings(Lines(a)), [tag], SpaceHeadings(rest));
    front, back := JoinAround(SpaceHeadings(Lines(a)), tag, SpaceHeadings(rest));
  }

  /**
   Every tag that the tag pass has put on its own line is there in the normalised text, at the start
   of a line and with nothing behind it on its last one, as what the label pass makes of the tag by
   itself: whole, unless it has a break point.
   */
  lemma NormalizedTagStandsAlone(text: string, k: nat, tag: string) returns (front: string, back: string)
    requires LooksStructured(text) && k < |TagPass(text)| && TagEnd(TagPass(text), k).Some?
    requires tag == TagPass(text)[k..TagEnd(TagPass(text), k).value + 1]
    ensures Normalize(text) == front + LabelPass(tag) + back
    ensures AtLineStart(front) && (back == "" || back[0] == '\n')
    ensures LabelPass(tag) != tag <==> exists i :: 0 <= i < |tag| && Labels.BreakPoint(tag, i)
  {
    var t, end := TagPass(text), TagEnd(TagPass(text), k).value;
    Laws.TagPassIsolatesTags(text);
    assert Laws.StandsAlone(t, k);
    var a, b := t[..k], t[end + 1..];
    assert t == a + tag + b;
    Laws.SameTag(t, k, tag, k, Bracket);
    var x, y := HeadingPassKeepsTag(a, tag, b);
    back := Labels.TagOnItsLineIsTornIff(x, tag, y);
    front := LabelPass(x);
  }

  // ---------------------------------------------------------------- line by line

  lemma {:induction false} LabelRunAtBreak(s: string)
    ensures LabelRun(s + "\n") == LabelRun(s)
  {
    if s == "" {
      assert s + "\n" == "\n";
    } else if IsLabelChar(s[0]) {
      assert (s + "\n")[1..] == s[1..] + "\n";
      LabelRunAtBreak(s[1..]);
    }
  }

  /** A line feed behind a line does not matter to where the line is broken. */
  lemma {:induction false} EmitAtBreak(s: string, previous: char, colon: bool) returns (emitted: string)
    ensures emitted == Labels.Emit(s, previous, colon) && Labels.Emit(s + "\n", previous, colon) == emitted + "\n"
  {
    if s == "" {
      emitted := "";
      assert s + "\n" == "\n" && "\n"[1..] == "";
      assert Labels.Emit("\n", previous, colon) == "\n";
    } else {
      LabelRunAtBreak(s);
      var breaks := Labels.BreaksBefore(s, previous, colon);
      assert Labels.BreaksBefore(s + "\n", previous, colon) == breaks;
      assert (s + "\n")[1..] == s[1..] + "\n";
      var rest := EmitAtBreak(s[1..], s[0], Labels.ColonBehind(colon && !breaks, s[0]));
      emitted := NewlineIf(breaks) + [s[0]] + rest;
      Assoc(NewlineIf(breaks) + [s[0]], rest, "\n");
    }
  }

  lemma LabelPassOfLine(line: string)
    ensures LabelPass(line + "\n") == LabelPass(line) + "\n"
  {
    Labels.LabelPassEmits(line, ' ');
    Labels.LabelPassEmits(line + "\n", ' ');
    var emitted := EmitAtBreak(line, ' ', false);
  }

  function LabelLines(lines: seq<string>): seq<string> {
    if lines == [] then [] else [LabelPass(lines[0])] + LabelLines(lines[1..])
  }

  /** The label pass works on each line by itself. */
  lemma {:induction false} LabelPassIsLineByLine(lines: seq<string>)
    ensures LabelPass(Join(lines, "\n")) == Join(LabelLines(lines), "\n")
  {
    if lines != [] {
      var line, rest := lines[0], lines[1..];
      LabelPassIsLineByLine(rest);
      if rest != [] {
        Labels.BehindWholeLines(line + "\n", Join(rest, "\n"));
        LabelPassOfLine(line);
        assert LabelLines(lines)[1..] == LabelLines(rest) && LabelLines(rest) != [];
      }
    }
  }

  /** The normal form of a line that the tag pass has left. */
  function NormalLines(lines: seq<string>): seq<string> {
    if lines == [] then [] else [LabelPass(SpaceHeading(lines[0]))] + NormalLines(lines[1..])
  }

  lemma {:induction false} NormalLinesAre(lines: seq<string>)
    ensures NormalLines(lines) == LabelLines(SpaceHeadings(lines))
  {
    if lines != [] {
      NormalLinesAre(lines[1..]);
    }
  }

  /**
   The normaliser works line by line: once the tags have lines of their own, every line gets the
   space its heading lacks and the breaks its labels need, and no line matters to another.
   */
  lemma NormalizeIsLineByLine(text: string)
    ensures Normalize(text) ==
            if IsStructured(text) then Join(NormalLines(Lines(TagPass(text))), "\n") else text
  {
    OnlyStructuredTextsChange(text);
    LabelPassIsLineByLine(SpaceHeadings(Lines(TagPass(text))));
    NormalLinesAre(Lines(TagPass(text)));
  }
}
