/** When the counts of an ended batch stay the tally of its stored results. */
module AnthropicBatchEndings {
  import opened BatchItems
  import opened AnthropicBatch

  /** Every request canceled: what a worker that is told to stop before it runs reports. */
  function AllCanceled(ids: seq<string>): Counts {
    NO_COUNTS.(canceled := |ids|)
  }

  /** What an ended record should say. */
  predicate Tallied(s: Batch) {
    s.record.status == Ended ==> s.results.Some? && s.record.counts == Tally(s.results.value)
  }

  // ---------------------------------------------------------------- what a worker can still report

  /** A worker that has items left to complete, in whatever way they turn out. */
  predicate CanReportAnything(ids: seq<string>, s: Batch) {
    match s.runner
    case Spawned(batch) => !batch.cancelRequested && !s.token
    case Running(_, done) => |done| < |ids|
    case _ => false
  }

  /** What any other worker will report; for no worker this does not matter. */
  function Reported(ids: seq<string>, s: Batch): Counts {
    match s.runner
    case Running(_, done) => Tally(done)
    case Finishing(_, counts) => counts
    case _ => AllCanceled(ids)
  }

  /**
   Nothing under way can set the results of an ended record apart from its counts: no worker, and no
   recovery yet to spawn one, can report anything but what the record says already. A cancel request
   that is between its read and its write opens the record to one more recovery, which reports all
   requests canceled.
   */
  predicate StaysTallied(ids: seq<string>, s: Batch) {
    && Tallied(s) && !CanReportAnything(ids, s)
    && (s.recovering.Some? ==> s.recovering.value.cancelRequested)
    && (if s.record.status == Ended then
          && (s.runner != Idle ==> Reported(ids, s) == s.record.counts)
          && (s.recovering.Some? || (CancelInFlight(s) && s.runner != Idle) ==> s.record.counts == AllCanceled(ids))
        else
          s.record.cancelRequested && (s.runner != Idle ==> Reported(ids, s) == AllCanceled(ids)))
  }

  lemma CancelStepKeepsTallied(ids: seq<string>, s: Batch, step: Step)
    requires Valid(ids, s) && StaysTallied(ids, s) && Enabled(ids, s, step) && IsHandlerStep(step)
    ensures StaysTallied(ids, Next(ids, s, step))
  {
  }

  lemma RecoveryStepKeepsTallied(ids: seq<string>, s: Batch, step: Step)
    requires Valid(ids, s) && StaysTallied(ids, s) && Enabled(ids, s, step) && IsRecoveryStep(step)
    ensures StaysTallied(ids, Next(ids, s, step))
  {
  }

  lemma FullListHasAll(done: seq<Line<Outcome>>, ids: seq<string>, id: string)
    requires DistinctLines(done) && |done| >= |ids| && id in ids
    requires forall i :: 0 <= i < |done| ==> done[i].customId in ids
    ensures Listed(done, id) && |done| == |ids|
  {
    IdSetSize(done);
    IdSetMembers(done);
    MembersSize(ids);
    SubsetIsWhole(IdSet(done), Members(ids));
    assert id in IdSet(done);
  }

  lemma CompleteNeedsItems(ids: seq<string>, s: Batch, line: Line<Outcome>)
    requires Valid(ids, s) && Enabled(ids, s, Complete(line))
    ensures CanReportAnything(ids, s)
  {
    if |s.runner.done| >= |ids| {
      FullListHasAll(s.runner.done, ids, line.customId);
    }
  }

  lemma SubsetIsWhole(a: set<string>, b: set<string>)
    requires a <= b && |b| <= |a|
    ensures a == b && |a| == |b|
  {
    assert b == a + (b - a);
  }

  lemma WorkerStepKeepsTallied(ids: seq<string>, s: Batch, step: Step)
    requires Distinct(ids) && Valid(ids, s) && StaysTallied(ids, s) && Enabled(ids, s, step)
    requires !IsHandlerStep(step) && !IsRecoveryStep(step)
    ensures StaysTallied(ids, Next(ids, s, step))
  {
    match step
    case Complete(line) =>
      CompleteNeedsItems(ids, s, line);
    case WriteCanceledResults =>
      CanceledListsEachOnce(ids);
    case _ =>
  }

  lemma {:induction false} RunKeepsTallied(ids: seq<string>, s: Batch, steps: seq<Step>)
    requires Distinct(ids) && Valid(ids, s) && StaysTallied(ids, s) && IsRun(ids, s, steps)
    ensures Tallied(After(ids, s, steps))
    decreases |steps|
  {
    if steps != [] {
      NextKeepsValid(ids, s, steps[0]);
      if IsHandlerStep(steps[0]) {
        CancelStepKeepsTallied(ids, s, steps[0]);
      } else if IsRecoveryStep(steps[0]) {
        RecoveryStepKeepsTallied(ids, s, steps[0]);
      } else {
        WorkerStepKeepsTallied(ids, s, steps[0]);
      }
      RunKeepsTallied(ids, Next(ids, s, steps[0]), steps[1..]);
    }
  }

  // ---------------------------------------------------------------- and otherwise they come apart

  lemma {:induction false} MembersOfDistinct(ids: seq<string>)
    requires Distinct(ids)
    ensures |Members(ids)| == |ids|
  {
    if ids != [] {
      MembersOfDistinct(ids[..|ids| - 1]);
      MembersSize(ids[..|ids| - 1]);
    }
  }

  lemma {:induction false} OneMore(small: set<string>, big: set<string>) returns (id: string)
    requires |small| < |big|
    ensures id in big && id !in small
    decreases small
  {
    if small == {} {
      id :| id in big;
    } else {
      var x :| x in small;
      id := OneMore(small - {x}, big - {x});
    }
  }

  lemma UnlistedId(ids: seq<string>, done: seq<Line<Outcome>>) returns (id: string)
    requires Distinct(ids) && DistinctLines(done) && |done| < |ids|
    ensures id in ids && !Listed(done, id)
  {
    MembersOfDistinct(ids);
    MembersSize(ids);
    IdSetSize(done);
    IdSetMembers(done);
    id := OneMore(IdSet(done), Members(ids));
  }

  lemma TallyOfSnoc(done: seq<Line<Outcome>>, line: Line<Outcome>)
    ensures Tally(done + [line]) == Count(Tally(done), line.outcome)
  {
    assert (done + [line])[..|done|] == done;
  }

  /** All items that are left turn out the same way. */
  lemma {:induction false} CompleteRest(ids: seq<string>, from: Batch, steps: seq<Step>, s: Batch, outcome: Outcome,
                                        left: nat)
    returns (more: seq<Step>, done: seq<Line<Outcome>>)
    requires Reaches(ids, from, steps, s) && Distinct(ids) && Valid(ids, s) && outcome != Canceled
    requires s.runner.Running? && |s.runner.done| + left == |ids|
    ensures Reaches(ids, from, more, s.(runner := Running(s.runner.batch, done))) && |done| == |ids|
    ensures Tally(done).succeeded == Tally(s.runner.done).succeeded + if outcome == Succeeded then left else 0
    decreases left
  {
    done := s.runner.done;
    more := steps;
    if left > 0 {
      var id := UnlistedId(ids, done);
      var line := Line(id, outcome);
      TallyOfSnoc(done, line);
      CompleteKeepsValid(ids, s, line);
      more := Then(ids, from, steps, s, Complete(line));
      more, done := CompleteRest(ids, from, more, Next(ids, s, Complete(line)), outcome, left - 1);
    }
  }

  lemma ItemsDisagree(ids: seq<string>, from: Batch, steps: seq<Step>, s: Batch) returns (more: seq<Step>, t: Batch)
    requires Reaches(ids, from, steps, s) && Distinct(ids) && Valid(ids, s) && s.record.status == Ended
    requires s.runner.Running? && |s.runner.done| < |ids|
    ensures Reaches(ids, from, more, t) && !Tallied(t)
  {
    var left := |ids| - |s.runner.done|;
    var all := Tally(s.runner.done).succeeded + left;
    var outcome := if s.record.counts.succeeded == all then Errored else Succeeded;
    var done;
    more, done := CompleteRest(ids, from, steps, s, outcome, left);
    t := s.(runner := Running(s.runner.batch, done));
    more := Then(ids, from, more, t, WriteResults);
    t := Next(ids, t, WriteResults);
  }

  lemma AnythingDisagrees(ids: seq<string>, from: Batch, steps: seq<Step>, s: Batch) returns (more: seq<Step>, t: Batch)
    requires Reaches(ids, from, steps, s) && Distinct(ids) && ids != [] && Valid(ids, s) && s.record.status == Ended
    requires CanReportAnything(ids, s)
    ensures Reaches(ids, from, more, t) && !Tallied(t)
  {
    more, t := steps, s;
    if s.runner.Spawned? {
      NextKeepsValid(ids, s, Start);
      more := Then(ids, from, more, s, Start);
      t := Next(ids, s, Start);
    }
    more, t := ItemsDisagree(ids, from, more, t);
  }

  /** A worker that can report only one thing does so, and nothing else changes. */
  lemma WriteReported(ids: seq<string>, from: Batch, steps: seq<Step>, s: Batch) returns (more: seq<Step>, t: Batch)
    requires Reaches(ids, from, steps, s) && Distinct(ids) && Valid(ids, s) && ids != []
    requires s.runner != Idle && !CanReportAnything(ids, s)
    ensures Reaches(ids, from, more, t) && Valid(ids, t) && t.runner.Finishing?
    ensures t.runner.counts == Reported(ids, s) && t.results.Some? && Tally(t.results.value) == Reported(ids, s)
    ensures t == s.(runner := t.runner, results := t.results)
  {
    more, t := steps, s;
    if t.runner.Spawned? {
      NextKeepsValid(ids, t, Start);
      more := Then(ids, from, more, t, Start);
      t := Next(ids, t, Start);
    }
    if t.runner.Refusing? {
      CanceledListsEachOnce(ids);
      NextKeepsValid(ids, t, WriteCanceledResults);
      more := Then(ids, from, more, t, WriteCanceledResults);
      t := Next(ids, t, WriteCanceledResults);
    } else if t.runner.Running? {
      FullListHasAll(t.runner.done, ids, ids[0]);
      NextKeepsValid(ids, t, WriteResults);
      more := Then(ids, from, more, t, WriteResults);
      t := Next(ids, t, WriteResults);
    }
  }

  lemma EndReported(ids: seq<string>, from: Batch, steps: seq<Step>, s: Batch) returns (more: seq<Step>, t: Batch)
    requires Reaches(ids, from, steps, s) && Distinct(ids) && Valid(ids, s) && ids != []
    requires s.runner != Idle && !CanReportAnything(ids, s)
    ensures Reaches(ids, from, more, t) && Valid(ids, t) && t.runner == Idle
    ensures t.record.status == Ended && t.record.counts == Reported(ids, s) && t.recovering == s.recovering
  {
    more, t := WriteReported(ids, from, steps, s);
    NextKeepsValid(ids, t, WriteRecord);
    more := Then(ids, from, more, t, WriteRecord);
    t := Next(ids, t, WriteRecord);
  }

  /** Without a worker, a recovery can set the results apart from a record that does not say that all are canceled. */
  lemma RecoveryDisagrees(ids: seq<string>, from: Batch, steps: seq<Step>, s: Batch) returns (more: seq<Step>, t: Batch)
    requires Reaches(ids, from, steps, s) && Distinct(ids) && ids != [] && Valid(ids, s) && s.record.status == Ended
    requires s.runner == Idle && s.recovering.Some?
    requires s.recovering.value.cancelRequested ==> s.record.counts != AllCanceled(ids)
    ensures Reaches(ids, from, more, t) && !Tallied(t)
  {
    NextKeepsValid(ids, s, RecoverSpawn);
    more := Then(ids, from, steps, s, RecoverSpawn);
    t := Next(ids, s, RecoverSpawn);
    if CanReportAnything(ids, t) {
      more, t := AnythingDisagrees(ids, from, more, t);
    } else {
      more, t := WriteReported(ids, from, more, t);
    }
  }

  /** A cancel request between its read and its write, and a worker about to end. */
  lemma CancelDisagrees(ids: seq<string>, s: Batch, h: nat) returns (more: seq<Step>, t: Batch)
    requires Distinct(ids) && ids != [] && Valid(ids, s) && h < |s.handlers| && s.handlers[h].Loaded?
    requires s.runner != Idle && !CanReportAnything(ids, s) && Reported(ids, s) != AllCanceled(ids)
    ensures Reaches(ids, s, more, t) && !Tallied(t)
  {
    NextKeepsValid(ids, s, CancelStore(h));
    more := Then(ids, s, [], s, CancelStore(h));
    t := Next(ids, s, CancelStore(h));
    NextKeepsValid(ids, t, RecoverRead);
    more := Then(ids, s, more, t, RecoverRead);
    t := Next(ids, t, RecoverRead);
    more, t := EndReported(ids, s, more, t);
    more, t := RecoveryDisagrees(ids, s, more, t);
  }

  lemma UnstableDisagrees(ids: seq<string>, s: Batch) returns (more: seq<Step>)
    requires Distinct(ids) && ids != [] && Valid(ids, s) && s.record.status == Ended && !StaysTallied(ids, s)
    ensures IsRun(ids, s, more) && !Tallied(After(ids, s, more))
  {
    var t := s;
    more := [];
    if Tallied(s) {
      if CanReportAnything(ids, s) {
        more, t := AnythingDisagrees(ids, s, more, s);
      } else if s.runner != Idle && Reported(ids, s) != s.record.counts {
        more, t := WriteReported(ids, s, more, s);
      } else if s.recovering.Some? {
        if s.runner != Idle {
          more, t := EndReported(ids, s, more, s);
        }
        more, t := RecoveryDisagrees(ids, s, more, t);
      } else {
        var h :| 0 <= h < |s.handlers| && s.handlers[h].Loaded?;
        more, t := CancelDisagrees(ids, s, h);
      }
    }
  }

  /**
   When the counts of an ended batch stay the tally of its stored results, in every reachable state:
   exactly when they are now, and no worker, recovery or cancel request that is under way can set the
   results apart from them.
   */
  lemma EndedStaysTalliedIff(ids: seq<string>, steps: seq<Step>)
    requires Distinct(ids) && ids != [] && IsRun(ids, Created(ids), steps)
    requires After(ids, Created(ids), steps).record.status == Ended
    ensures var s := After(ids, Created(ids), steps);
      (forall more: seq<Step> :: IsRun(ids, s, more) ==> Tallied(After(ids, s, more))) <==> StaysTallied(ids, s)
  {
    var s := After(ids, Created(ids), steps);
    RunKeepsValid(ids, Created(ids), steps);
    if StaysTallied(ids, s) {
      forall more: seq<Step> | IsRun(ids, s, more) ensures Tallied(After(ids, s, more)) {
        RunKeepsTallied(ids, s, more);
      }
    } else {
      var more := UnstableDisagrees(ids, s);
      assert !Tallied(After(ids, s, more));
    }
  }

  /** A batch that has ended with its one request succeeded, and whose results then say that it failed. */
  lemma EndedCountsCanDisagree(id: string) returns (steps: seq<Step>, t: Batch)
    ensures Reaches([id], Created([id]), steps, t) && t.record.status == Ended && !Tallied(t)
  {
    var ids, line, s := [id], Line(id, Succeeded), Created([id]);
    t := Next(ids, s, RecoverSpawn);
    steps := Then(ids, s, [], s, RecoverSpawn);
    steps := Then(ids, s, steps, t, RecoverRead);
    steps, t := RunOfOne(ids, s, steps, Next(ids, t, RecoverRead), line);
    RunKeepsValid(ids, s, steps);
    steps, t := RecoveryDisagrees(ids, s, steps, t);
  }
}
