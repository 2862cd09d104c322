/** Plans in the short form that models answer with, normalised into spawn plans. */
module MinimalPlan {
  import opened Wrappers
  import opened Sequences
  import opened RustText
  import Decimal
  import opened FreshNames
  import opened KernelTypes

  // ---------------------------------------------------------------- slugs

  function ToLower(c: char): char {
    if IsAsciiUpper(c) then (c as int - 'A' as int + 'a' as int) as char else c
  }

  /** What the slug loop appends for a text, given whether it has just appended a dash. */
  function Dashed(value: string, lastDash: bool): string {
    if value == [] then []
    else if IsAsciiAlphanumeric(value[0]) then [ToLower(value[0])] + Dashed(value[1..], false)
    else if lastDash then Dashed(value[1..], true)
    else ['-'] + Dashed(value[1..], true)
  }

  function TrimDashesStart(s: string): string {
    if s != [] && s[0] == '-' then TrimDashesStart(s[1..]) else s
  }

  function TrimDashesEnd(s: string): string {
    if s != [] && s[|s| - 1] == '-' then TrimDashesEnd(s[..|s| - 1]) else s
  }

  function Slugify(value: string): string {
    TrimDashesEnd(TrimDashesStart(Dashed(value, false)))
  }

  method SlugifyTaskId(value: string) returns (slug: string)
    ensures slug == Slugify(value)
  {
    slug := "";
    var lastDash := false;
    for i := 0 to |value|
      invariant slug + Dashed(value[i..], lastDash) == Dashed(value, false)
    {
      ghost var before, rest := slug, value[i..];
      assert rest[1..] == value[i + 1..];
      if IsAsciiAlphanumeric(value[i]) {
        Assoc(before, [ToLower(value[i])], Dashed(rest[1..], false));
        slug := slug + [ToLower(value[i])];
        lastDash := false;
      } else if !lastDash {
        Assoc(before, ['-'], Dashed(rest[1..], true));
        slug := slug + "-";
        lastDash := true;
      }
    }
    assert slug + [] == slug;
    slug := TrimDashesEnd(TrimDashesStart(slug));
  }

  predicate IsSlugChar(c: char) {
    IsAsciiLower(c) || '0' <= c <= '9' || c == '-'
  }

  /** Lowercase letters and digits in runs that are separated by single dashes. */
  predicate DashSeparated(s: string) {
    && (forall i :: 0 <= i < |s| ==> IsSlugChar(s[i]))
    && (forall i :: 0 <= i < |s| - 1 ==> s[i] == '-' ==> s[i + 1] != '-')
  }

  /** And with no dash at either edge. */
  predicate IsSlug(s: string) {
    DashSeparated(s) && (s != [] ==> s[0] != '-' && s[|s| - 1] != '-')
  }

  lemma {:induction false} DashedIsDashSeparated(value: string, lastDash: bool)
    ensures DashSeparated(Dashed(value, lastDash))
    ensures lastDash && Dashed(value, lastDash) != [] ==> Dashed(value, lastDash)[0] != '-'
  {
    if value != [] {
      if IsAsciiAlphanumeric(value[0]) {
        DashedIsDashSeparated(value[1..], false);
        ConsDashSeparated(ToLower(value[0]), Dashed(value[1..], false));
      } else {
        DashedIsDashSeparated(value[1..], true);
        ConsDashSeparated('-', Dashed(value[1..], true));
      }
    }
  }

  lemma ConsDashSeparated(c: char, s: string)
    requires DashSeparated(s) && IsSlugChar(c) && (c == '-' && s != [] ==> s[0] != '-')
    ensures DashSeparated([c] + s)
  {
    var t := [c] + s;
    forall i | 0 <= i < |t| - 1 && t[i] == '-' ensures t[i + 1] != '-' {
      if i > 0 {
        assert t[i] == s[i - 1] && t[i + 1] == s[i];
      }
    }
  }

  lemma TrimmedIsSlug(s: string)
    requires DashSeparated(s)
    ensures IsSlug(TrimDashesEnd(TrimDashesStart(s)))
  {
    var front := TrimDashesStart(s);
    if s != [] && s[0] == '-' {
      TailDashSeparated(s);
      assert front == s[1..];
    }
    if front != [] && front[|front| - 1] == '-' {
      var back := front[..|front| - 1];
      assert TrimDashesEnd(front) == back;
      assert back != [] ==> back[0] == front[0];
    }
  }

  lemma SlugifyMakesSlugs(value: string)
    ensures IsSlug(Slugify(value))
  {
    DashedIsDashSeparated(value, false);
    TrimmedIsSlug(Dashed(value, false));
  }

  lemma TailDashSeparated(s: string)
    requires DashSeparated(s) && s != []
    ensures DashSeparated(s[1..])
  {
    var t := s[1..];
    forall i | 0 <= i < |t| - 1 && t[i] == '-' ensures t[i + 1] != '-' {
      assert s[i + 1] == t[i] && s[i + 2] == t[i + 1];
    }
  }

  lemma {:induction false} DashedOfDashSeparated(s: string, lastDash: bool)
    requires DashSeparated(s) && (lastDash && s != [] ==> s[0] != '-')
    ensures Dashed(s, lastDash) == s
  {
    if s != [] {
      Cons(s);
      assert IsSlugChar(s[0]);
      TailDashSeparated(s);
      DashedOfDashSeparated(s[1..], s[0] == '-');
    }
  }

  /** The slugs are exactly the texts that slugification leaves alone, so it is idempotent. */
  lemma SlugsAreFixpoints(s: string)
    ensures Slugify(s) == s <==> IsSlug(s)
    ensures Slugify(Slugify(s)) == Slugify(s)
  {
    SlugifyMakesSlugs(s);
    FixpointOfSlug(Slugify(s));
    if IsSlug(s) {
      FixpointOfSlug(s);
    }
  }

  lemma FixpointOfSlug(s: string)
    requires IsSlug(s)
    ensures Slugify(s) == s
  {
    DashedOfDashSeparated(s, false);
  }

  /** The letters and digits of a text, in lower case. */
  function Alphanumerics(s: string): string {
    if s == [] then []
    else (if IsAsciiAlphanumeric(s[0]) then [ToLower(s[0])] else []) + Alphanumerics(s[1..])
  }

  lemma {:induction false} DashedKeepsAlphanumerics(s: string, lastDash: bool)
    ensures Alphanumerics(Dashed(s, lastDash)) == Alphanumerics(s)
  {
    if s != [] {
      if IsAsciiAlphanumeric(s[0]) {
        DashedKeepsAlphanumerics(s[1..], false);
        assert Dashed(s, lastDash)[1..] == Dashed(s[1..], false);
      } else {
        DashedKeepsAlphanumerics(s[1..], true);
        if !lastDash {
          assert Dashed(s, lastDash)[1..] == Dashed(s[1..], true);
        }
      }
    }
  }

  lemma {:induction false} AlphanumericsSnocDash(s: string)
    ensures Alphanumerics(s + "-") == Alphanumerics(s)
  {
    if s == [] {
      assert s + "-" == "-";
      assert "-"[1..] == [];
    } else {
      assert (s + "-")[1..] == s[1..] + "-";
      AlphanumericsSnocDash(s[1..]);
    }
  }

  lemma {:induction false} TrimmingStart(s: string)
    ensures Alphanumerics(TrimDashesStart(s)) == Alphanumerics(s)
  {
    if s != [] && s[0] == '-' {
      TrimmingStart(s[1..]);
    }
  }

  lemma {:induction false} TrimmingEnd(s: string)
    ensures Alphanumerics(TrimDashesEnd(s)) == Alphanumerics(s)
  {
    if s != [] && s[|s| - 1] == '-' {
      TrimmingEnd(s[..|s| - 1]);
      Snoc(s);
      AlphanumericsSnocDash(s[..|s| - 1]);
    }
  }

  /** A slug keeps every letter and digit of its text in order; only what separates them changes. */
  lemma SlugifyKeepsAlphanumerics(s: string)
    ensures Alphanumerics(Slugify(s)) == Alphanumerics(s)
  {
    DashedKeepsAlphanumerics(s, false);
    TrimmingStart(Dashed(s, false));
    TrimmingEnd(TrimDashesStart(Dashed(s, false)));
  }

  // ---------------------------------------------------------------- task ids

  const WORKER: string := "worker-"

  function PreferredOrNumbered(preferred: string, index: nat): string {
    if preferred == [] then WORKER + Decimal.ZeroPadded(index + 1, 2) else preferred
  }

  function UniqueId(preferred: string, index: nat, seen: set<string>): string {
    var base := PreferredOrNumbered(preferred, index);
    if base !in seen then base else FreshName(base + ['-'], 1, 2, seen)
  }

  method UniqueTaskId(preferred: string, index: nat, seen: set<string>) returns (id: string, after: set<string>)
    ensures id == UniqueId(preferred, index, seen)
    ensures id !in seen && after == seen + {id}
  {
    var base := PreferredOrNumbered(preferred, index);
    if base !in seen {
      return base, seen + {base};
    }
    id := FindFreshName(base + ['-'], 1, 2, seen);
    after := seen + {id};
  }

  lemma DigitsBehindSlug(front: string, digits: string)
    requires front != [] && DashSeparated(front) && front[0] != '-'
    requires digits != [] && forall i :: 0 <= i < |digits| ==> Decimal.IsDigit(digits[i])
    ensures IsSlug(front + digits)
  {
    var s := front + digits;
    assert forall k :: |front| <= k < |s| ==> s[k] == digits[k - |front|];
    assert forall k :: 0 <= k < |front| ==> s[k] == front[k];
    assert s[|s| - 1] == digits[|digits| - 1];
  }

  lemma SlugThenDash(s: string)
    requires IsSlug(s) && s != []
    ensures DashSeparated(s + ['-'])
  {
    var t := s + ['-'];
    assert forall i :: 0 <= i < |s| ==> t[i] == s[i];
  }

  /** Ids are non-empty slugs. */
  lemma UniqueIdIsSlug(preferred: string, index: nat, seen: set<string>)
    requires IsSlug(preferred)
    ensures UniqueId(preferred, index, seen) != [] && IsSlug(UniqueId(preferred, index, seen))
    ensures UniqueId(preferred, index, seen) !in seen
  {
    var base := PreferredOrNumbered(preferred, index);
    if preferred == [] {
      assert DashSeparated(WORKER);
      DigitsBehindSlug(WORKER, Decimal.ZeroPadded(index + 1, 2));
    }
    if base in seen {
      FreshNameIsFree(base + ['-'], 1, 2, seen);
      SlugThenDash(base);
      DigitsBehindSlug(base + ['-'], Decimal.ZeroPadded(Search(base + ['-'], 1, 2, seen, |seen|), 1));
    }
  }

  // ---------------------------------------------------------------- children

  const ROOT: string := "root"

  /** A field of a JSON object: missing, a string, or some other value. */
  datatype Field = Missing | NotText | Text(text: string)

  datatype RawChild =
    | NotAnObject
    | RawChild(
        objective: Field, task: Field, description: Field,
        taskId: Field, id: Field, name: Field,
        parentTaskId: Field,
        spawnDepth: Option<nat>,
        inputArtifactRefs: Option<seq<ArtifactRef>>,
        maySpawn: Option<bool>,
        limits: Option<AgentLimits>)

  function OrElse(a: Field, b: Field): Field {
    if a == Missing then b else a
  }

  function UnwrapOr<T>(value: Option<T>, fallback: T): T {
    if value.Some? then value.value else fallback
  }

  /** The first of the three objective fields that is present, trimmed; a blank one is none. */
  function ObjectiveOf(value: RawChild): (objective: Option<string>)
    ensures objective.Some? ==> objective.value != []
  {
    match value
    case NotAnObject => None
    case RawChild(objective, task, description, _, _, _, _, _, _, _, _) =>
      var field := OrElse(OrElse(objective, task), description);
      if field.Text? && Trim(field.text) != [] then Some(Trim(field.text)) else None
  }

  function PreferredId(value: RawChild, objective: string): string
    requires value.RawChild?
  {
    var field := OrElse(OrElse(value.taskId, value.id), value.name);
    if field.Text? && Slugify(field.text) != [] then Slugify(field.text) else Slugify(objective)
  }

  function ChildOf(value: RawChild, index: nat, seen: set<string>): Option<SubtaskSpec> {
    match ObjectiveOf(value)
    case None => None
    case Some(objective) =>
      var parent := if value.parentTaskId.Text? then value.parentTaskId.text else ROOT;
      Some(SubtaskSpec(
             UniqueId(PreferredId(value, objective), index, seen),
             Some(parent),
             UnwrapOr(value.spawnDepth, 1),
             objective,
             UnwrapOr(value.inputArtifactRefs, []),
             UnwrapOr(value.maySpawn, false),
             UnwrapOr(value.limits, DEFAULT_AGENT_LIMITS).(maxToolCalls := 0)))
  }

  function ChildrenFrom(values: seq<RawChild>, index: nat, seen: set<string>): seq<SubtaskSpec>
    requires index <= |values|
    decreases |values| - index
  {
    if index == |values| then []
    else
      match ChildOf(values[index], index, seen)
      case None => ChildrenFrom(values, index + 1, seen)
      case Some(child) => [child] + ChildrenFrom(values, index + 1, seen + {child.taskId})
  }

  method NormalizeMinimalChild(value: RawChild, index: nat, seen: set<string>)
    returns (child: Option<SubtaskSpec>, after: set<string>)
    ensures child == ChildOf(value, index, seen)
    ensures after == if child.Some? then seen + {child.value.taskId} else seen
  {
    var objective := ObjectiveOf(value);
    if objective == None {
      return None, seen;
    }
    var field := OrElse(OrElse(value.taskId, value.id), value.name);
    var preferred := "";
    if field.Text? {
      preferred := SlugifyTaskId(field.text);
    }
    if preferred == [] {
      preferred := SlugifyTaskId(objective.value);
    }
    var id;
    id, after := UniqueTaskId(preferred, index, seen);
    var parent := if value.parentTaskId.Text? then value.parentTaskId.text else ROOT;
    child := Some(SubtaskSpec(
      id,
      Some(parent),
      UnwrapOr(value.spawnDepth, 1),
      objective.value,
      UnwrapOr(value.inputArtifactRefs, []),
      UnwrapOr(value.maySpawn, false),
      UnwrapOr(value.limits, DEFAULT_AGENT_LIMITS).(maxToolCalls := 0)));
  }

  method NormalizeMinimalSpawnPlan(parentTaskId: Field, values: seq<RawChild>) returns (plan: SpawnPlan)
    ensures plan == SpawnPlan(if parentTaskId.Text? then parentTaskId.text else ROOT, ChildrenFrom(values, 0, {}))
  {
    var seen: set<string>, children: seq<SubtaskSpec> := {}, [];
    for index := 0 to |values|
      invariant children + ChildrenFrom(values, index, seen) == ChildrenFrom(values, 0, {})
    {
      var child;
      child, seen := NormalizeMinimalChild(values[index], index, seen);
      if child.Some? {
        Assoc(children, [child.value], ChildrenFrom(values, index + 1, seen));
        children := children + [child.value];
      }
    }
    assert children + [] == children;
    plan := SpawnPlan(if parentTaskId.Text? then parentTaskId.text else ROOT, children);
  }

  // ---------------------------------------------------------------- well-formed plans

  predicate WellFormedChild(child: SubtaskSpec) {
    && child.taskId != [] && IsSlug(child.taskId)
    && child.parentTaskId.Some?
    && !IsBlank(child.objective)
    && child.limits.maxToolCalls == 0
  }

  predicate WellFormedPlan(children: seq<SubtaskSpec>, seen: set<string>) {
    && (forall i :: 0 <= i < |children| ==> WellFormedChild(children[i]) && children[i].taskId !in seen)
    && (forall i, j :: 0 <= i < j < |children| ==> children[i].taskId != children[j].taskId)
  }

  lemma ObjectiveIsNotBlank(value: RawChild)
    ensures ObjectiveOf(value).Some? ==> !IsBlank(ObjectiveOf(value).value)
  {
    if ObjectiveOf(value).Some? {
      var text := OrElse(OrElse(value.objective, value.task), value.description).text;
      TrimmedIsNotBlank(text);
    }
  }

  lemma TrimmedIsNotBlank(text: string)
    requires Trim(text) != []
    ensures !IsBlank(Trim(text))
  {
    var t := Trim(text);
    TrimEndFacts(TrimStart(text));
    assert !IsWhitespace(t[|t| - 1]);
  }

  lemma ChildIsWellFormed(value: RawChild, index: nat, seen: set<string>)
    ensures var child := ChildOf(value, index, seen);
      child.Some? ==> WellFormedChild(child.value) && child.value.taskId !in seen
  {
    ObjectiveIsNotBlank(value);
    if ObjectiveOf(value).Some? {
      var objective := ObjectiveOf(value).value;
      var field := OrElse(OrElse(value.taskId, value.id), value.name);
      SlugifyMakesSlugs(objective);
      if field.Text? {
        SlugifyMakesSlugs(field.text);
      }
      UniqueIdIsSlug(PreferredId(value, objective), index, seen);
    }
  }

  lemma WellFormedCons(child: SubtaskSpec, rest: seq<SubtaskSpec>, seen: set<string>)
    requires WellFormedChild(child) && child.taskId !in seen && WellFormedPlan(rest, seen + {child.taskId})
    ensures WellFormedPlan([child] + rest, seen)
  {
    var children := [child] + rest;
    forall i | 0 <= i < |children| ensures WellFormedChild(children[i]) && children[i].taskId !in seen {
      if i > 0 {
        assert children[i] == rest[i - 1];
      }
    }
    forall i, j | 0 <= i < j < |children| ensures children[i].taskId != children[j].taskId {
      assert children[j] == rest[j - 1];
    }
  }

  lemma {:induction false} ChildrenAreWellFormed(values: seq<RawChild>, index: nat, seen: set<string>)
    requires index <= |values|
    ensures WellFormedPlan(ChildrenFrom(values, index, seen), seen)
    decreases |values| - index
  {
    if index < |values| {
      ChildIsWellFormed(values[index], index, seen);
      match ChildOf(values[index], index, seen)
      case None => ChildrenAreWellFormed(values, index + 1, seen);
      case Some(child) =>
        ChildrenAreWellFormed(values, index + 1, seen + {child.taskId});
        WellFormedCons(child, ChildrenFrom(values, index + 1, seen + {child.taskId}), seen);
    }
  }

  /**
   Whatever a model answers, the normalised children have pairwise distinct ids that are
   non-empty slugs, a parent, an objective that is not blank, and no tool calls of their own.
   */
  lemma MinimalPlansAreWellFormed(values: seq<RawChild>)
    ensures WellFormedPlan(ChildrenFrom(values, 0, {}), {})
  {
    ChildrenAreWellFormed(values, 0, {});
  }

  /** The objectives that the answer gives, in order. */
  function Objectives(values: seq<RawChild>, index: nat): seq<string>
    requires index <= |values|
    decreases |values| - index
  {
    if index == |values| then []
    else
      match ObjectiveOf(values[index])
      case None => Objectives(values, index + 1)
      case Some(objective) => [objective] + Objectives(values, index + 1)
  }

  function ObjectivesOf(children: seq<SubtaskSpec>): seq<string> {
    if children == [] then [] else [children[0].objective] + ObjectivesOf(children[1..])
  }

  /** Only entries without a usable objective are dropped; the others keep their order. */
  lemma {:induction false} ChildrenKeepObjectives(values: seq<RawChild>, index: nat, seen: set<string>)
    requires index <= |values|
    ensures ObjectivesOf(ChildrenFrom(values, index, seen)) == Objectives(values, index)
    decreases |values| - index
  {
    if index < |values| {
      match ChildOf(values[index], index, seen)
      case None => ChildrenKeepObjectives(values, index + 1, seen);
      case Some(child) =>
        var rest := ChildrenFrom(values, index + 1, seen + {child.taskId});
        ChildrenKeepObjectives(values, index + 1, seen + {child.taskId});
        DropPrefix([child], rest);
    }
  }
}
