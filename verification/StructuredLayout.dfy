/** The layout normaliser for final answers: tag boundaries, heading spacing and field labels. */
module StructuredLayout {
  import opened Wrappers
  import opened Sequences
  import opened RustText

  // ---------------------------------------------------------------- tags

  predicate IsTagStart(c: char) {
    IsAsciiAlphabetic(c) || c == '_'
  }

  predicate IsTagChar(c: char) {
    IsAsciiAlphanumeric(c) || c == '_' || c == '-' || c == ':' || c == '/' || c == ' ' || c == '\t'
  }

  /** How much of a tag has been read: nothing, `<`, `<` with its optional `/`, or part of the body. */
  datatype Stage = Bracket | Slash | Name | Body

  /** How many stages are still to come; they may be passed without reading a character. */
  function Ahead(stage: Stage): nat {
    match stage
    case Bracket => 3
    case Slash => 2
    case Name => 1
    case Body => 0
  }

  /** The index of the closing bracket of the tag that continues at `index`. */
  function TagFrom(s: string, index: nat, stage: Stage): (end: Option<nat>)
    ensures end.Some? ==> index <= end.value < |s| && s[end.value] == '>'
    decreases |s| - index, Ahead(stage)
  {
    if index >= |s| then None
    else
      match stage
      case Bracket => if s[index] == '<' then TagFrom(s, index + 1, Slash) else None
      case Slash => TagFrom(s, if s[index] == '/' then index + 1 else index, Name)
      case Name => if IsTagStart(s[index]) then TagFrom(s, index, Body) else None
      case Body =>
        if s[index] == '>' then Some(index)
        else if IsTagChar(s[index]) then TagFrom(s, index + 1, Body)
        else None
  }

  /** The index of the closing bracket of the tag that begins at `start`. */
  function TagEnd(s: string, start: nat): (end: Option<nat>)
    ensures end.Some? ==> start < end.value < |s| && s[start] == '<' && s[end.value] == '>'
  {
    TagFrom(s, start, Bracket)
  }

  method XmlLikeTagEnd(text: string, start: nat) returns (end: Option<nat>)
    ensures end == TagEnd(text, start)
  {
    if start >= |text| || text[start] != '<' {
      return None;
    }
    var index := start + 1;
    if index < |text| && text[index] == '/' {
      index := index + 1;
    }
    assert TagFrom(text, start, Bracket) == TagFrom(text, start + 1, Slash) == TagFrom(text, index, Name);
    if index >= |text| || !IsTagStart(text[index]) {
      return None;
    }
    while index < |text|
      invariant start < index <= |text|
      invariant TagEnd(text, start) == TagFrom(text, index, Body)
    {
      if text[index] == '>' {
        return Some(index);
      }
      if !IsTagChar(text[index]) {
        return None;
      }
      index := index + 1;
    }
    return None;
  }

  /** `text[cursor..].find('<')`, as an index into the whole text. */
  method FindBracket(text: string, cursor: nat) returns (start: nat)
    requires cursor <= |text|
    ensures cursor <= start <= |text|
    ensures start < |text| ==> text[start] == '<'
    ensures forall i :: cursor <= i < start ==> text[i] != '<'
  {
    start := cursor;
    while start < |text| && text[start] != '<'
      invariant cursor <= start <= |text|
      invariant forall i :: cursor <= i < start ==> text[i] != '<'
    {
      start := start + 1;
    }
  }

  /** The number of tags from an index on. */
  function CountTags(s: string, i: nat): nat
    requires i <= |s|
    decreases |s| - i
  {
    if i == |s| then 0
    else
      match TagEnd(s, i)
      case None => CountTags(s, i + 1)
      case Some(end) => 1 + CountTags(s, end + 1)
  }

  method CountXmlLikeTags(text: string) returns (count: nat)
    ensures count == CountTags(text, 0)
  {
    count := 0;
    var cursor := 0;
    while true
      invariant cursor <= |text|
      invariant CountTags(text, 0) == count + CountTags(text, cursor)
      decreases |text| - cursor
    {
      var start := FindBracket(text, cursor);
      CountSkipsPlain(text, cursor, start);
      if start == |text| {
        return;
      }
      var end := XmlLikeTagEnd(text, start);
      match end {
        case None =>
          cursor := start + 1;
        case Some(e) =>
          count := count + 1;
          cursor := e + 1;
      }
    }
  }

  lemma {:induction false} CountSkipsPlain(s: string, i: nat, j: nat)
    requires i <= j <= |s| && forall k :: i <= k < j ==> s[k] != '<'
    ensures CountTags(s, i) == CountTags(s, j)
    decreases j - i
  {
    if i < j {
      CountSkipsPlain(s, i + 1, j);
    }
  }

  // ---------------------------------------------------------------- the tag pass

  /** Whether a newline is missing before a tag that is put behind `output`. */
  predicate Open(output: string) {
    output != [] && !EndsWith(output, '\n')
  }

  function NewlineIf(missing: bool): string {
    if missing then "\n" else ""
  }

  /** A text from an index on, with a newline on each side of every tag. */
  function Spread(s: string, i: nat, open: bool): string
    requires i <= |s|
    decreases |s| - i
  {
    if i == |s| then []
    else
      match TagEnd(s, i)
      case None => [s[i]] + Spread(s, i + 1, s[i] != '\n')
      case Some(end) => NewlineIf(open) + s[i..end + 1] + "\n" + Spread(s, end + 1, false)
  }

  function TagPass(text: string): string {
    Trim(Spread(text, 0, false))
  }

  method NormalizeXmlLikeTagBoundaries(text: string) returns (normalized: string)
    ensures normalized == TagPass(text)
  {
    var output, cursor := "", 0;
    while cursor < |text|
      invariant cursor <= |text|
      invariant Spreading(text, output, cursor)
      decreases |text| - cursor
    {
      var start := FindBracket(text, cursor);
      SpreadCopies(output, text, cursor, start);
      output := output + text[cursor..start];
      cursor := start;
      if start == |text| {
        break;
      }
      output, cursor := PastBracket(text, output, start);
    }
    assert output + [] == output;
    normalized := Trim(output);
  }

  /** The loop's invariant: what is written, followed by what the rest of the text becomes. */
  ghost predicate Spreading(text: string, output: string, cursor: nat)
    requires cursor <= |text|
  {
    output + Spread(text, cursor, Open(output)) == Spread(text, 0, false)
  }

  /** At an opening bracket: a whole tag goes on lines of its own, any other bracket is copied. */
  method PastBracket(text: string, output: string, start: nat) returns (pushed: string, cursor: nat)
    requires start < |text| && text[start] == '<' && Spreading(text, output, start)
    ensures start < cursor <= |text| && Spreading(text, pushed, cursor)
  {
    var end := XmlLikeTagEnd(text, start);
    match end {
      case None =>
        SpreadCopy(output, text, start);
        pushed := output + [text[start]];
        cursor := start + 1;
      case Some(e) =>
        SpreadTag(output, text, start, e);
        pushed := PushTag(output, text[start..e + 1]);
        cursor := e + 1;
    }
  }

  method PushTag(output: string, tag: string) returns (tagged: string)
    requires EndsWith(tag, '>')
    ensures tagged == output + NewlineIf(Open(output)) + tag + "\n"
  {
    tagged := output;
    if tagged != [] && !EndsWith(tagged, '\n') {
      tagged := tagged + "\n";
    }
    tagged := tagged + tag;
    assert tagged[|tagged| - 1] == '>';
    if !EndsWith(tagged, '\n') {
      tagged := tagged + "\n";
    }
  }

  /** A character that begins no tag is copied. */
  lemma SpreadCopy(output: string, s: string, i: nat)
    requires i < |s| && TagEnd(s, i) == None
    ensures output + Spread(s, i, Open(output)) == output + [s[i]] + Spread(s, i + 1, Open(output + [s[i]]))
  {
    Assoc(output, [s[i]], Spread(s, i + 1, s[i] != '\n'));
  }

  lemma {:induction false} SpreadCopies(output: string, s: string, i: nat, j: nat)
    requires i <= j <= |s| && forall k :: i <= k < j ==> s[k] != '<'
    ensures output + Spread(s, i, Open(output)) == output + s[i..j] + Spread(s, j, Open(output + s[i..j]))
    decreases j - i
  {
    if i == j {
      assert output + s[i..j] == output;
    } else {
      SpreadCopy(output, s, i);
      SpreadCopies(output + [s[i]], s, i + 1, j);
      SliceStep(output, s, i, j);
    }
  }

  lemma SliceStep(output: string, s: string, i: nat, j: nat)
    requires i < j <= |s|
    ensures output + s[i..j] == output + [s[i]] + s[i + 1..j]
  {
    assert s[i..j] == [s[i]] + s[i + 1..j];
    Assoc(output, [s[i]], s[i + 1..j]);
  }

  lemma SpreadTag(output: string, s: string, i: nat, end: nat)
    requires TagEnd(s, i) == Some(end)
    ensures i < end < |s| && EndsWith(s[i..end + 1], '>')
    ensures var tagged := output + NewlineIf(Open(output)) + s[i..end + 1] + "\n";
      output + Spread(s, i, Open(output)) == tagged + Spread(s, end + 1, Open(tagged))
  {
    var newline, tag, more := NewlineIf(Open(output)), s[i..end + 1], Spread(s, end + 1, false);
    assert output + (newline + tag + "\n" + more) == output + newline + tag + "\n" + more;
  }

  // ---------------------------------------------------------------- the heading pass

  function Hashes(s: string): (n: nat)
    ensures n <= |s|
    ensures forall i :: 0 <= i < n ==> s[i] == '#'
    ensures n < |s| ==> s[n] != '#'
  {
    if s == [] || s[0] != '#' then 0 else 1 + Hashes(s[1..])
  }

  /** Puts the missing space behind the hashes of a heading. */
  function SpaceHeading(line: string): string {
    var trimmed := TrimStart(line);
    var hashes := Hashes(trimmed);
    var body := |line| - |trimmed| + hashes;
    if 1 <= hashes <= 6 && hashes < |trimmed| && !IsWhitespace(trimmed[hashes])
    then line[..body] + " " + line[body..]
    else line
  }

  function SpaceHeadings(lines: seq<string>): seq<string> {
    if lines == [] then [] else [SpaceHeading(lines[0])] + SpaceHeadings(lines[1..])
  }

  function HeadingPass(text: string): string {
    Join(SpaceHeadings(Lines(text)), "\n")
  }

  // ---------------------------------------------------------------- the label pass

  /** Characters that may stand in front of a dense label beside letters, digits and ideographs. */
  const BEFORE_DENSE_LABEL: string := "%)]}\U{FF09}\U{3011}\U{300D}\U{300F}\U{300B}\U{3009}"

  /** Characters behind which no line is begun. */
  const NEVER_BEFORE_BREAK: string := ":\U{FF1A}/-_<>"

  predicate IsCjk(c: char) {
    '\U{3400}' <= c <= '\U{9FFF}' || '\U{F900}' <= c <= '\U{FAFF}'
  }

  predicate IsColon(c: char) {
    c == ':' || c == '\U{FF1A}'
  }

  predicate IsLabelStart(c: char) {
    IsAsciiUpper(c) || IsCjk(c)
  }

  predicate IsLabelChar(c: char) {
    IsAsciiAlphanumeric(c) || c == '_' || c == '-' || c == '/' || IsCjk(c)
  }

  predicate CanPrecedeDenseLabel(c: char) {
    || IsAsciiAlphanumeric(c) || IsCjk(c)
    || c in BEFORE_DENSE_LABEL
  }

  /** The length of the longest run of label characters a text begins with. */
  function LabelRun(s: string): (n: nat)
    ensures n <= |s|
  {
    if s == [] || !IsLabelChar(s[0]) then 0 else 1 + LabelRun(s[1..])
  }

  /** The run consists of label characters, and ends where there is none or the text ends. */
  lemma {:induction false} LabelRunIsLongest(s: string)
    ensures forall i :: 0 <= i < LabelRun(s) ==> IsLabelChar(s[i])
    ensures LabelRun(s) < |s| ==> !IsLabelChar(s[LabelRun(s)])
  {
    if s != [] && IsLabelChar(s[0]) {
      LabelRunIsLongest(s[1..]);
    }
  }

  /** Whether a field label of 2 to 32 characters and its colon begin a text, behind `previous`. */
  predicate FieldLabelAt(previous: char, s: string)
    requires s != []
  {
    var end := LabelRun(s);
    && IsLabelStart(s[0])
    && !IsWhitespace(previous) && !IsColon(previous)
    && end < |s| && IsColon(s[end])
    && 2 <= end <= 32
    && (if IsAsciiUpper(s[0]) then IsAsciiLower(previous) || IsAsciiDigit(previous) || IsCjk(previous)
        else CanPrecedeDenseLabel(previous))
  }

  method IsFieldLabelBoundary(chars: string, start: nat) returns (boundary: bool)
    requires 0 < start < |chars|
    ensures boundary == FieldLabelAt(chars[start - 1], chars[start..])
  {
    if !IsLabelStart(chars[start]) {
      return false;
    }
    var previous := chars[start - 1];
    if IsWhitespace(previous) || previous == '\n' || previous == '\r' || IsColon(previous) {
      return false;
    }
    var end := start;
    while end < |chars| && IsLabelChar(chars[end])
      invariant start <= end <= |chars|
      invariant forall i :: start <= i < end ==> IsLabelChar(chars[i])
      invariant LabelRun(chars[start..]) == end - start + LabelRun(chars[end..])
    {
      assert chars[end..][1..] == chars[end + 1..];
      end := end + 1;
    }
    if end >= |chars| || !IsColon(chars[end]) {
      return false;
    }
    var labelLength := end - start;
    if labelLength < 2 || labelLength > 32 {
      return false;
    }
    if IsAsciiUpper(chars[start]) {
      return IsAsciiLower(previous) || IsAsciiDigit(previous) || IsCjk(previous);
    }
    return CanPrecedeDenseLabel(previous);
  }

  /** Whether the last line of an output has a colon. */
  predicate ColonOnLine(output: string) {
    && output != []
    && output[|output| - 1] != '\n' && output[|output| - 1] != '\r'
    && (IsColon(output[|output| - 1]) || ColonOnLine(output[..|output| - 1]))
  }

  /** Whether the label pass begins a new line in front of the text `s` behind `output`. */
  predicate Breaks(output: string, previous: char, s: string)
    requires s != []
  {
    && !EndsWith(output, '\n') && ColonOnLine(output)
    && FieldLabelAt(previous, s)
    && previous !in NEVER_BEFORE_BREAK
  }

  /** The label pass over the characters from `index`, behind what it has written. */
  function LabelsFrom(text: string, index: nat, output: string): string
    requires index <= |text|
    decreases |text| - index
  {
    if index == |text| then output
    else
      var breaks := index > 0 && Breaks(output, text[index - 1], text[index..]);
      LabelsFrom(text, index + 1, output + NewlineIf(breaks) + [text[index]])
  }

  function LabelPass(text: string): string {
    LabelsFrom(text, 0, "")
  }

  method NormalizeFieldLabelBoundaries(text: string) returns (output: string)
    ensures output == LabelPass(text)
  {
    output := "";
    for index := 0 to |text|
      invariant LabelPass(text) == LabelsFrom(text, index, output)
    {
      var breaks := index > 0 && !EndsWith(output, '\n');
      if breaks {
        breaks := HasColonOnLine(output);
      }
      if breaks {
        breaks := IsFieldLabelBoundary(text, index);
      }
      if breaks && text[index - 1] !in NEVER_BEFORE_BREAK {
        output := output + "\n";
      } else {
        assert output + "" == output;
      }
      output := output + [text[index]];
    }
  }

  method HasColonOnLine(output: string) returns (found: bool)
    ensures found == ColonOnLine(output)
  {
    var i := |output|;
    assert output[..i] == output;
    while i > 0 && output[i - 1] != '\n' && output[i - 1] != '\r'
      invariant 0 <= i <= |output|
      invariant ColonOnLine(output) == ColonOnLine(output[..i])
    {
      assert output[..i][..i - 1] == output[..i - 1];
      if IsColon(output[i - 1]) {
        return true;
      }
      i := i - 1;
    }
    return false;
  }

  // ---------------------------------------------------------------- the whole normaliser

  const FENCE: string := "```"

  predicate Contains(s: string, part: string) {
    StartsWith(s, part) || (s != [] && Contains(s[1..], part))
  }

  predicate AnyMarkedLine(lines: seq<string>) {
    && lines != []
    && (StartsWith(TrimStart(lines[0]), "#") || StartsWith(TrimStart(lines[0]), "|") || AnyMarkedLine(lines[1..]))
  }

  predicate LooksStructured(text: string) {
    CountTags(text, 0) >= 2 || Contains(text, FENCE) || AnyMarkedLine(Lines(text))
  }

  function Normalize(text: string): string {
    if LooksStructured(text) then LabelPass(HeadingPass(TagPass(text))) else text
  }

  method NormalizeStructuredTextLayout(text: string) returns (normalized: string)
    ensures normalized == Normalize(text)
  {
    var tags := CountXmlLikeTags(text);
    if !(tags >= 2 || Contains(text, FENCE) || AnyMarkedLine(Lines(text))) {
      return text;
    }
    var withTagBoundaries := NormalizeXmlLikeTagBoundaries(text);
    var withHeadingSpacing := HeadingPass(withTagBoundaries);
    normalized := NormalizeFieldLabelBoundaries(withHeadingSpacing);
  }
}
