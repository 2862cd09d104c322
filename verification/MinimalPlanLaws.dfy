/** What the normalisation of short plans takes over, fills in and ignores. */
module MinimalPlanLaws {
  import opened Wrappers
  import opened RustText
  import opened KernelTypes
  import opened MinimalPlan
  import Decimal
  import FreshNames

  // ---------------------------------------------------------------- complete plans

  function FieldOf(text: Option<string>): Field {
    match text
    case None => Missing
    case Some(t) => Text(t)
  }

  /** A child written out with all its fields, under their first names. */
  function RawOf(child: SubtaskSpec): RawChild {
    RawChild(Text(child.objective), Missing, Missing, Text(child.taskId), Missing, Missing,
             FieldOf(child.parentTaskId), Some(child.spawnDepth), Some(child.inputArtifactRefs), Some(child.maySpawn),
             Some(child.limits))
  }

  function Raws(children: seq<SubtaskSpec>): (values: seq<RawChild>)
    ensures |values| == |children|
    ensures forall i :: 0 <= i < |children| ==> values[i] == RawOf(children[i])
  {
    if children == [] then [] else [RawOf(children[0])] + Raws(children[1..])
  }

  predicate IsTrimmed(child: SubtaskSpec) {
    Trim(child.objective) == child.objective
  }

  predicate AllTrimmed(children: seq<SubtaskSpec>) {
    forall i :: 0 <= i < |children| ==> IsTrimmed(children[i])
  }

  /** A plan as normalisation leaves it. */
  predicate IsNormalized(children: seq<SubtaskSpec>) {
    WellFormedPlan(children, {}) && AllTrimmed(children)
  }

  lemma CompleteChildStays(child: SubtaskSpec, index: nat, seen: set<string>)
    requires WellFormedChild(child) && IsTrimmed(child) && child.taskId !in seen
    ensures ChildOf(RawOf(child), index, seen) == Some(child)
  {
    SlugsAreFixpoints(child.taskId);
    InkOfTrim(child.objective);
  }

  lemma ChildrenStep(values: seq<RawChild>, index: nat, next: nat, seen: set<string>, child: SubtaskSpec)
    requires index < |values| && next == index + 1 && ChildOf(values[index], index, seen) == Some(child)
    ensures ChildrenFrom(values, index, seen) == [child] + ChildrenFrom(values, next, seen + {child.taskId})
  {
  }

  /** The children from `index` on have ids that were not seen. */
  predicate StillNew(children: seq<SubtaskSpec>, index: nat, seen: set<string>) {
    forall i :: index <= i < |children| ==> children[i].taskId !in seen
  }

  lemma NextIsStillNew(children: seq<SubtaskSpec>, index: nat, next: nat, seen: set<string>)
    requires IsNormalized(children) && index < |children| && next == index + 1 && StillNew(children, index, seen)
    ensures StillNew(children, next, seen + {children[index].taskId})
  {
  }

  /** One complete child is taken over, and the others are still new. */
  lemma CompleteStep(children: seq<SubtaskSpec>, values: seq<RawChild>, index: nat, next: nat, seen: set<string>)
    returns (after: set<string>)
    requires IsNormalized(children) && values == Raws(children) && index < |children| && next == index + 1
    requires StillNew(children, index, seen)
    ensures StillNew(children, next, after)
    ensures ChildrenFrom(values, index, seen) == [children[index]] + ChildrenFrom(values, next, after)
  {
    CompleteChildStays(children[index], index, seen);
    ChildrenStep(values, index, next, seen, children[index]);
    NextIsStillNew(children, index, next, seen);
    after := seen + {children[index].taskId};
  }

  lemma RestFrom(children: seq<SubtaskSpec>, index: nat, next: nat)
    requires index < |children| && next == index + 1
    ensures children[index..] == [children[index]] + children[next..]
  {
  }

  lemma {:induction false} CompleteChildrenStay(children: seq<SubtaskSpec>, values: seq<RawChild>, index: nat,
                                                seen: set<string>)
    returns (made: seq<SubtaskSpec>)
    requires IsNormalized(children) && values == Raws(children) && index <= |children|
    requires StillNew(children, index, seen)
    ensures made == ChildrenFrom(values, index, seen) && made == children[index..]
    decreases |children| - index
  {
    if index == |children| {
      made := [];
    } else {
      var next := index + 1;
      var after := CompleteStep(children, values, index, next, seen);
      var rest := CompleteChildrenStay(children, values, next, after);
      RestFrom(children, index, next);
      made := [children[index]] + rest;
    }
  }

  lemma TrimmedStays(s: string)
    ensures Trim(Trim(s)) == Trim(s)
  {
    var front := TrimStart(s);
    var t := TrimEnd(front);
    TrimStartFacts(s);
    TrimEndFacts(front);
    if t != [] {
      assert t[0] == front[0];
      assert TrimStart(t) == t;
    }
    TrimEndStays(front);
  }

  lemma {:induction false} TrimEndStays(s: string)
    ensures TrimEnd(TrimEnd(s)) == TrimEnd(s)
  {
    TrimEndFacts(s);
  }

  lemma ChildIsTrimmed(value: RawChild, index: nat, seen: set<string>)
    ensures ChildOf(value, index, seen).Some? ==> IsTrimmed(ChildOf(value, index, seen).value)
  {
    if ObjectiveOf(value).Some? {
      TrimmedStays(OrElse(OrElse(value.objective, value.task), value.description).text);
    }
  }

  lemma {:induction false} ChildrenAreTrimmed(values: seq<RawChild>, index: nat, seen: set<string>)
    returns (children: seq<SubtaskSpec>)
    requires index <= |values|
    ensures children == ChildrenFrom(values, index, seen) && AllTrimmed(children)
    decreases |values| - index
  {
    if index == |values| {
      children := [];
    } else {
      ChildIsTrimmed(values[index], index, seen);
      match ChildOf(values[index], index, seen)
      case None => children := ChildrenAreTrimmed(values, index + 1, seen);
      case Some(child) =>
        var rest := ChildrenAreTrimmed(values, index + 1, seen + {child.taskId});
        children := [child] + rest;
    }
  }

  /**
   A plan that is normalised already, written out in full, is taken over as it is: ids, parents,
   depths, objectives, references, capabilities and limits.
   */
  lemma NormalizedPlansAreTakenOver(children: seq<SubtaskSpec>)
    requires IsNormalized(children)
    ensures ChildrenFrom(Raws(children), 0, {}) == children
  {
    var made := CompleteChildrenStay(children, Raws(children), 0, {});
    assert children[0..] == children;
  }

  /** So normalising is idempotent. */
  lemma NormalizationIsIdempotent(values: seq<RawChild>) returns (once: seq<SubtaskSpec>)
    ensures once == ChildrenFrom(values, 0, {})
    ensures IsNormalized(once) && ChildrenFrom(Raws(once), 0, {}) == once
  {
    MinimalPlansAreWellFormed(values);
    once := ChildrenAreTrimmed(values, 0, {});
    NormalizedPlansAreTakenOver(once);
  }

  // ---------------------------------------------------------------- missing fields

  /** An entry with nothing but an objective. */
  function Bare(objective: string): RawChild {
    RawChild(Text(objective), Missing, Missing, Missing, Missing, Missing, Missing, None, None, None, None)
  }

  /** What is missing is filled in: the root as parent, depth one, no references, no spawning, and default limits. */
  lemma BareEntryIsFilledIn(objective: string, index: nat, seen: set<string>)
    requires !IsBlank(objective)
    ensures ChildOf(Bare(objective), index, seen).Some?
    ensures var child := ChildOf(Bare(objective), index, seen).value;
      && child == SubtaskSpec(child.taskId, Some("root"), 1, Trim(objective), [], false, AgentLimits(2_048, 0))
      && (Slugify(Trim(objective)) != [] && Slugify(Trim(objective)) !in seen ==>
            child.taskId == Slugify(Trim(objective)))
  {
    InkOfTrim(objective);
  }

  /** The present fields with their alternatives moved up. */
  function MovedUp(value: RawChild): RawChild
    requires value.RawChild?
  {
    value.(objective := value.task, task := value.description, description := Missing)
  }

  function NamesMovedUp(value: RawChild): RawChild
    requires value.RawChild?
  {
    value.(taskId := value.id, id := value.name, name := Missing)
  }

  /**
   The alternatives of a field count only when it is missing: a field that is there hides them, also
   when it is not a text, and a missing one lets them move up.
   */
  lemma AlternativesCountOnlyWhenMissing(value: RawChild, index: nat, seen: set<string>)
    requires value.RawChild?
    ensures if value.objective == Missing then ChildOf(value, index, seen) == ChildOf(MovedUp(value), index, seen)
            else ChildOf(value, index, seen) == ChildOf(value.(task := Missing, description := Missing), index, seen)
    ensures if value.taskId == Missing then ChildOf(value, index, seen) == ChildOf(NamesMovedUp(value), index, seen)
            else ChildOf(value, index, seen) == ChildOf(value.(id := Missing, name := Missing), index, seen)
    ensures value.objective == NotText ==> ChildOf(value, index, seen) == None
  {
  }

  // ---------------------------------------------------------------- ids

  /** An id that is free is taken as it is, and one without letters and digits is numbered by its place. */
  lemma FreeIdIsTaken(preferred: string, index: nat, seen: set<string>)
    ensures preferred != [] && preferred !in seen ==> UniqueId(preferred, index, seen) == preferred
    ensures var numbered := "worker-" + Decimal.ZeroPadded(index + 1, 2);
      numbered !in seen ==> UniqueId([], index, seen) == numbered
  {
  }

  /** An id that is not free gets the first number from two on that makes it new. */
  lemma CollidingIdIsNumbered(preferred: string, index: nat, seen: set<string>) returns (n: nat)
    requires preferred != [] && preferred in seen
    ensures n >= 2 && UniqueId(preferred, index, seen) == preferred + "-" + Decimal.Format(n)
    ensures UniqueId(preferred, index, seen) !in seen
    ensures forall k :: 2 <= k < n ==> preferred + "-" + Decimal.Format(k) in seen
  {
    var front := preferred + ['-'];
    n := FreshNames.Search(front, 1, 2, seen, |seen|);
    FreshNames.FreshNameIsFree(front, 1, 2, seen);
    forall k | 2 <= k < n ensures preferred + "-" + Decimal.Format(k) in seen {
      FreshNames.SearchSkipsTaken(front, 1, 2, seen, |seen|, k);
      assert FreshNames.Name(front, 1, k) == preferred + "-" + Decimal.Format(k);
    }
  }
}
