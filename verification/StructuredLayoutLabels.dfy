/** Where the label pass of the layout normaliser begins new lines. */
module StructuredLayoutLabels {
  import opened Wrappers
  import opened Sequences
  import opened RustText
  import opened StructuredLayout

  // ---------------------------------------------------------------- stable texts

  /** Where the label pass begins a new line, judged on the text it is given. */
  predicate BreakPoint(s: string, i: nat) {
    0 < i < |s| && Breaks(s[..i], s[i - 1], s[i..])
  }

  lemma {:induction false} LabelsGrow(s: string, i: nat, output: string)
    requires i <= |s|
    ensures |LabelsFrom(s, i, output)| >= |output| + |s| - i
    decreases |s| - i
  {
    if i < |s| {
      var breaks := i > 0 && Breaks(output, s[i - 1], s[i..]);
      LabelsGrow(s, i + 1, output + NewlineIf(breaks) + [s[i]]);
    }
  }

  lemma {:induction false} LabelsStayIff(s: string, i: nat)
    requires i <= |s|
    ensures LabelsFrom(s, i, s[..i]) == s <==> forall j :: i <= j < |s| ==> !BreakPoint(s, j)
    decreases |s| - i
  {
    if i < |s| {
      var next := s[..i] + NewlineIf(BreakPoint(s, i)) + [s[i]];
      if BreakPoint(s, i) {
        LabelsGrow(s, i + 1, next);
      } else {
        assert next == s[..i + 1];
        LabelsStayIff(s, i + 1);
      }
    } else {
      assert s[..i] == s;
    }
  }

  /** The label pass leaves a text alone exactly when the text has no break point. */
  lemma LabelPassStableIff(s: string)
    ensures LabelPass(s) == s <==> forall i :: 0 <= i < |s| ==> !BreakPoint(s, i)
  {
    LabelsStayIff(s, 0);
    assert s[..0] == "";
  }

  // ---------------------------------------------------------------- the pass as an automaton

  /** Whether the line has a colon once `c` is written on it. */
  predicate ColonBehind(colon: bool, c: char) {
    c != '\n' && c != '\r' && (colon || IsColon(c))
  }

  /** Whether a new line begins in front of a text, given what precedes it and whether its line has a colon. */
  predicate BreaksBefore(s: string, previous: char, colon: bool)
    requires s != []
  {
    colon && FieldLabelAt(previous, s) && previous !in NEVER_BEFORE_BREAK
  }

  /** What the label pass writes for the rest of a text: of what is written already only the colon matters. */
  function Emit(s: string, previous: char, colon: bool): string {
    if s == [] then []
    else
      var breaks := BreaksBefore(s, previous, colon);
      NewlineIf(breaks) + [s[0]] + Emit(s[1..], s[0], ColonBehind(colon && !breaks, s[0]))
  }

  lemma ColonOfSnoc(output: string, c: char)
    ensures ColonOnLine(output + [c]) == ColonBehind(ColonOnLine(output), c)
  {
    assert (output + [c])[..|output|] == output;
  }

  /** One character: what is written for it, and whether the line has a colon behind it. */
  lemma OneCharacter(output: string, previous: char, s: string)
    requires s != []
    ensures Breaks(output, previous, s) == BreaksBefore(s, previous, ColonOnLine(output))
    ensures ColonOnLine(output + NewlineIf(Breaks(output, previous, s)) + [s[0]])
         == ColonBehind(ColonOnLine(output) && !Breaks(output, previous, s), s[0])
  {
    var newline := NewlineIf(Breaks(output, previous, s));
    ColonOfSnoc(output + newline, s[0]);
    if Breaks(output, previous, s) {
      ColonOfSnoc(output, '\n');
    } else {
      assert output + newline == output;
    }
  }

  lemma LabelsStep(text: string, index: nat, next: nat, output: string, previous: char, s: string, written: string)
    requires index < |text| && next == index + 1 && s == text[index..]
    requires if index == 0 then output == "" else previous == text[index - 1]
    requires written == NewlineIf(BreaksBefore(s, previous, ColonOnLine(output))) + [s[0]]
    ensures LabelsFrom(text, index, output) == LabelsFrom(text, next, output + written)
    ensures ColonOnLine(output + written)
         == ColonBehind(ColonOnLine(output) && !BreaksBefore(s, previous, ColonOnLine(output)), s[0])
    ensures s[1..] == text[next..] && output + written != "" && s[0] == text[index]
  {
    var newline := NewlineIf(Breaks(output, previous, s));
    OneCharacter(output, previous, s);
    Assoc(output, newline, [s[0]]);
  }

  lemma {:induction false} LabelsAreEmitted(text: string, index: nat, output: string, previous: char, s: string)
    returns (emitted: string)
    requires index <= |text| && s == text[index..] && (if index == 0 then output == "" else previous == text[index - 1])
    ensures emitted == Emit(s, previous, ColonOnLine(output)) && LabelsFrom(text, index, output) == output + emitted
    decreases |text| - index
  {
    if s == [] {
      emitted := [];
      assert output + [] == output;
    } else {
      var colon, next := ColonOnLine(output), index + 1;
      var breaks := BreaksBefore(s, previous, colon);
      var written := NewlineIf(breaks) + [s[0]];
      LabelsStep(text, index, next, output, previous, s, written);
      var behind := LabelsAreEmitted(text, next, output + written, s[0], s[1..]);
      emitted := written + behind;
      Assoc(output, written, behind);
    }
  }

  lemma LabelPassEmits(text: string, previous: char)
    ensures LabelPass(text) == Emit(text, previous, false)
  {
    assert text[0..] == text;
    var emitted := LabelsAreEmitted(text, 0, "", previous, text);
    assert "" + emitted == emitted;
  }

  // ---------------------------------------------------------------- one piece at a time

  /** A text that does not end within a label. */
  predicate EndsOutsideLabel(s: string) {
    s != [] && !IsLabelChar(s[|s| - 1])
  }

  lemma {:induction false} LabelRunAhead(s: string, more: string)
    requires EndsOutsideLabel(s)
    ensures LabelRun(s + more) == LabelRun(s) < |s|
  {
    if IsLabelChar(s[0]) {
      assert (s + more)[1..] == s[1..] + more;
      LabelRunAhead(s[1..], more);
    }
  }

  lemma BreaksAhead(s: string, more: string, previous: char, colon: bool)
    requires EndsOutsideLabel(s)
    ensures BreaksBefore(s + more, previous, colon) == BreaksBefore(s, previous, colon)
  {
    LabelRunAhead(s, more);
  }

  /** The pass over a piece that does not end within a label, and then over what follows it. */
  lemma {:induction false} EmitInTurn(piece: string, after: string, previous: char, colon: bool) returns (behind: bool)
    requires EndsOutsideLabel(piece)
    ensures Emit(piece + after, previous, colon)
         == Emit(piece, previous, colon) + Emit(after, piece[|piece| - 1], behind)
    ensures EndsWith(piece, '\n') ==> !behind
  {
    var breaks := BreaksBefore(piece, previous, colon);
    var now, next := NewlineIf(breaks) + [piece[0]], ColonBehind(colon && !breaks, piece[0]);
    BreaksAhead(piece, after, previous, colon);
    assert (piece + after)[1..] == piece[1..] + after;
    if |piece| == 1 {
      behind := next;
      assert piece[1..] == [] && [] + after == after;
      assert now + [] == now;
    } else {
      behind := EmitInTurn(piece[1..], after, piece[0], next);
      Assoc(now, Emit(piece[1..], piece[0], next), Emit(after, piece[|piece| - 1], behind));
    }
  }

  /** The pass ends with the last character of the text. */
  lemma {:induction false} EmitKeepsEnd(s: string, previous: char, colon: bool) returns (emitted: string)
    requires s != []
    ensures emitted == Emit(s, previous, colon)
    ensures emitted != [] && emitted[|emitted| - 1] == s[|s| - 1]
  {
    var breaks := BreaksBefore(s, previous, colon);
    var behind := [];
    if |s| > 1 {
      behind := EmitKeepsEnd(s[1..], s[0], ColonBehind(colon && !breaks, s[0]));
    } else {
      assert s[1..] == [];
    }
    emitted := NewlineIf(breaks) + [s[0]] + behind;
  }

  // ---------------------------------------------------------------- torn tags

  /** Output behind which a line begins. */
  predicate AtLineStart(output: string) {
    output == "" || EndsWith(output, '\n')
  }

  /** Whole lines do not matter to what follows them. */
  lemma BehindWholeLines(a: string, s: string)
    requires AtLineStart(a)
    ensures AtLineStart(LabelPass(a)) && LabelPass(a + s) == LabelPass(a) + LabelPass(s)
  {
    LabelPassEmits(a, ' ');
    LabelPassEmits(a + s, ' ');
    LabelPassEmits(s, '\n');
    if a == "" {
      assert a + s == s && LabelPass(a) + LabelPass(s) == LabelPass(s);
    } else {
      var emitted := EmitKeepsEnd(a, ' ', false);
      var behind := EmitInTurn(a, s, ' ', false);
    }
  }

  /**
   A tag that stands alone on its line, in any text: the label pass carries it over as what it
   makes of the tag by itself, and nothing joins it on its line. So it is torn apart exactly when
   it has a break point of its own.
   */
  lemma TagOnItsLineIsTornIff(a: string, tag: string, b: string) returns (rest: string)
    requires AtLineStart(a) && (b == "" || b[0] == '\n' || b[0] == '\r')
    requires TagEnd(tag, 0) == Some(|tag| - 1)
    ensures LabelPass(a + tag + b) == LabelPass(a) + LabelPass(tag) + rest
    ensures if b == "" then rest == "" else rest != "" && rest[0] == b[0]
    ensures AtLineStart(LabelPass(a))
    ensures LabelPass(tag) != tag <==> exists i :: 0 <= i < |tag| && BreakPoint(tag, i)
  {
    rest := BehindTag(tag, b);
    BehindWholeLines(a, tag + b);
    Assoc(a, tag, b);
    Assoc(LabelPass(a), LabelPass(tag), rest);
    LabelPassStableIff(tag);
  }

  lemma BehindTag(tag: string, b: string) returns (rest: string)
    requires EndsOutsideLabel(tag) && (b == "" || b[0] == '\n' || b[0] == '\r')
    ensures LabelPass(tag + b) == LabelPass(tag) + rest
    ensures if b == "" then rest == "" else rest != "" && rest[0] == b[0]
  {
    LabelPassEmits(tag, ' ');
    LabelPassEmits(tag + b, ' ');
    var behind := EmitInTurn(tag, b, ' ', false);
    rest := Emit(b, tag[|tag| - 1], behind);
  }

  // ---------------------------------------------------------------- the size of a label

  /** A label, made of label characters and begun by a capital letter or an ideograph. */
  predicate IsLabel(name: string) {
    name != [] && IsLabelStart(name[0]) && forall i :: 0 <= i < |name| ==> IsLabelChar(name[i])
  }

  lemma {:induction false} LabelRunOfLabel(name: string, more: string)
    requires forall i :: 0 <= i < |name| ==> IsLabelChar(name[i])
    requires more != [] && !IsLabelChar(more[0])
    ensures LabelRun(name + more) == |name|
  {
    if name == [] {
      assert name + more == more;
    } else {
      assert (name + more)[1..] == name[1..] + more;
      LabelRunOfLabel(name[1..], more);
    }
  }

  /** What may stand directly in front of a label that begins with a capital letter, or with an ideograph. */
  predicate Introduces(previous: char, first: char) {
    if IsAsciiUpper(first) then IsAsciiLower(previous) || IsAsciiDigit(previous) || IsCjk(previous)
    else
      || IsAsciiAlphanumeric(previous) || IsCjk(previous)
      || previous in "%)]}\U{FF09}\U{3011}\U{300D}\U{300F}\U{300B}\U{3009}"
  }

  /** A label with its colon is a field label exactly if it has 2 to 32 characters and may follow what precedes it. */
  lemma FieldLabelIff(previous: char, name: string, colon: char, more: string)
    requires IsLabel(name) && IsColon(colon)
    ensures FieldLabelAt(previous, name + ([colon] + more)) <==> 2 <= |name| <= 32 && Introduces(previous, name[0])
  {
    LabelRunOfLabel(name, [colon] + more);
    if previous in BEFORE_DENSE_LABEL {
      ClosersAreNoSpace(previous);
    }
  }

  lemma ClosersAreNoSpace(c: char)
    requires c in BEFORE_DENSE_LABEL
    ensures !IsWhitespace(c) && !IsColon(c)
  {
    var i :| 0 <= i < |BEFORE_DENSE_LABEL| && BEFORE_DENSE_LABEL[i] == c;
  }

  // ---------------------------------------------------------------- a torn tag

  const WITNESS := "<x:aFoo:b>"

  /** A single tag that the label pass tears apart. */
  lemma LabelPassSplitsTag()
    ensures exists tag: string :: TagEnd(tag, 0) == Some(|tag| - 1) && LabelPass(tag) != tag
  {
    WitnessIsTag(WITNESS);
    WitnessBreaks(WITNESS);
    BreakPointChanges(WITNESS, 4);
  }

  lemma BreakPointChanges(s: string, i: nat)
    requires BreakPoint(s, i)
    ensures LabelPass(s) != s
  {
    LabelPassStableIff(s);
  }

  lemma WitnessIsTag(tag: string)
    requires tag == WITNESS
    ensures TagEnd(tag, 0) == Some(9)
  {
    assert TagFrom(tag, 9, Body) == TagFrom(tag, 8, Body) == TagFrom(tag, 7, Body) == Some(9);
    assert TagFrom(tag, 5, Body) == TagFrom(tag, 7, Body);
    assert TagFrom(tag, 3, Body) == TagFrom(tag, 5, Body);
    assert TagFrom(tag, 1, Body) == TagFrom(tag, 3, Body);
    assert TagFrom(tag, 1, Slash) == TagFrom(tag, 1, Name) == TagFrom(tag, 1, Body);
  }

  lemma WitnessBreaks(tag: string)
    requires tag == WITNESS
    ensures BreakPoint(tag, 4)
  {
    WitnessLine(tag[..4]);
    WitnessLabel(tag[4..]);
  }

  lemma WitnessLine(line: string)
    requires line == "<x:a"
    ensures ColonOnLine(line)
  {
    assert ColonOnLine(line[..3]);
  }

  lemma WitnessLabel(rest: string)
    requires rest == "Foo:b>"
    ensures FieldLabelAt('a', rest)
  {
    var tail := rest[1..];
    assert tail == "oo:b>" && tail[1..] == "o:b>" && tail[1..][1..] == ":b>";
    assert LabelRun(tail[1..][1..]) == 0;
    assert LabelRun(tail[1..]) == 1;
    assert LabelRun(tail) == 2;
    assert LabelRun(rest) == 3;
  }
}
