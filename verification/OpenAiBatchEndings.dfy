/** What the counters of a batch say when a worker ends, and when its terminal status is final. */
module OpenAiBatchEndings {
  import opened Wrappers
  import opened BatchItems
  import opened OpenAiBatch

  // ---------------------------------------------------------------- whole tallies

  function Reported(c: Counts): nat {
    c.completed + c.failed
  }

  /** A multiple of the number of requests. */
  predicate Multiple(sum: nat, n: nat)
    requires n > 0
  {
    sum == 0 || (sum >= n && Multiple(sum - n, n))
  }

  /** Counters of a batch that has not begun, or that some number of workers have each added all requests to. */
  predicate Whole(ids: seq<string>, c: Counts)
    requires ids != []
  {
    (c.total == 0 && Reported(c) == 0) || (c.total == |ids| && Multiple(Reported(c), |ids|))
  }

  predicate RunnerWhole(ids: seq<string>, r: Runner)
    requires ids != []
  {
    match r
    case Idle => true
    case Spawned(batch) => Whole(ids, batch.counts)
    case Checked(batch) => Whole(ids, batch.counts)
    case Running(batch, _) => Whole(ids, batch.counts)
    case Writing(batch, base, _, _, _) => Whole(ids, batch.counts) && Whole(ids, base)
  }

  predicate AllWhole(ids: seq<string>, s: Batch)
    requires ids != []
  {
    && Whole(ids, s.record.counts) && RunnerWhole(ids, s.runner)
    && (forall h :: 0 <= h < |s.handlers| && s.handlers[h].Loaded? ==> Whole(ids, s.handlers[h].snapshot.counts))
    && (s.recovering.Some? ==> Whole(ids, s.recovering.value.counts))
  }

  lemma TallyKeepsWhole(ids: seq<string>, base: Counts, done: Lines)
    requires ids != [] && Whole(ids, base) && |done| == |ids|
    ensures Whole(ids, Tallied(base, done))
  {
    OutcomesPartition(done);
    assert Reported(Tallied(base, done)) - |ids| == Reported(base);
  }

  lemma NextKeepsWhole(ids: seq<string>, s: Batch, step: Step)
    requires ids != [] && AllWhole(ids, s) && Enabled(ids, s, step)
    ensures AllWhole(ids, Next(ids, s, step))
  {
    match step
    case Collect => TallyKeepsWhole(ids, s.runner.batch.counts, s.runner.done);
    case _ =>
      if IsHandlerStep(step) {
        HandlerStepKeepsWhole(ids, s, step);
      } else if IsRecoveryStep(step) {
        RecoveryStepKeepsWhole(ids, s, step);
      } else {
        RunnerStepKeepsWhole(ids, s, step);
      }
  }

  lemma HandlerStepKeepsWhole(ids: seq<string>, s: Batch, step: Step)
    requires ids != [] && AllWhole(ids, s) && Enabled(ids, s, step) && IsHandlerStep(step)
    ensures AllWhole(ids, Next(ids, s, step))
  {
  }

  lemma RecoveryStepKeepsWhole(ids: seq<string>, s: Batch, step: Step)
    requires ids != [] && AllWhole(ids, s) && Enabled(ids, s, step) && IsRecoveryStep(step)
    ensures AllWhole(ids, Next(ids, s, step))
  {
  }

  lemma RunnerStepKeepsWhole(ids: seq<string>, s: Batch, step: Step)
    requires ids != [] && AllWhole(ids, s) && Enabled(ids, s, step)
    requires step.Start? || step.Begin? || step.Complete? || step.Write?
    ensures AllWhole(ids, Next(ids, s, step))
  {
  }

  lemma {:induction false} RunKeepsWhole(ids: seq<string>, s: Batch, steps: seq<Step>)
    requires ids != [] && AllWhole(ids, s) && IsRun(ids, s, steps)
    ensures AllWhole(ids, After(ids, s, steps))
    decreases |steps|
  {
    if steps != [] {
      NextKeepsWhole(ids, s, steps[0]);
      RunKeepsWhole(ids, Next(ids, s, steps[0]), steps[1..]);
    }
  }

  /** In every run completed and failed of the stored record add up to a multiple of the number of requests. */
  lemma EveryRecordCountsWholeTallies(ids: seq<string>, steps: seq<Step>)
    requires ids != [] && IsRun(ids, Created(), steps)
    ensures Whole(ids, After(ids, Created(), steps).record.counts)
  {
    RunKeepsWhole(ids, Created(), steps);
  }

  // ---------------------------------------------------------------- a worker that ends

  /** The last write of a worker. */
  predicate AboutToEnd(s: Batch) {
    s.runner.Writing? && s.runner.stage.Finish?
  }

  /** A worker that was told to stop before it began has no results; any other has one for every request. */
  predicate TurnedAway(r: Runner)
    requires r.Writing?
  {
    r.done == []
  }

  /**
   The counters of any worker that ends. One that was turned away writes back the counters it read,
   without files, so they add up to the total exactly when they did in the record it read. Any other
   adds one completed for every output line, and one failed for every error line and every cancelled
   item, so they add up to the total exactly when it read both at zero.
   */
  lemma CountersOfEndedRun(ids: seq<string>, steps: seq<Step>, file: FileId)
    requires ids != [] && IsRun(ids, Created(), steps)
    requires AboutToEnd(After(ids, Created(), steps)) && Enabled(ids, After(ids, Created(), steps), Write(file))
    ensures var s := After(ids, Created(), steps);
      var r, base, stopped := Next(ids, s, Write(file)).record, s.runner.base, |Only(s.runner.done, Stopped)|;
      && IsTerminal(r.status)
      && (TurnedAway(s.runner) ==>
            && r.status == Cancelled && r.counts == base && r.outputFile == None && r.errorFile == None
            && (Reported(r.counts) == r.counts.total <==> Reported(base) == base.total))
      && (!TurnedAway(s.runner) ==>
            && r.counts.total == |ids|
            && r.counts.completed == base.completed + |LinesOf(s.files, r.outputFile)|
            && r.counts.failed == base.failed + |LinesOf(s.files, r.errorFile)| + stopped
            && |LinesOf(s.files, r.outputFile)| + |LinesOf(s.files, r.errorFile)| + stopped == |ids|
            && (Reported(r.counts) == r.counts.total <==> Reported(base) == 0))
  {
    RunKeepsValid(ids, Created(), steps);
    OutcomesPartition(After(ids, Created(), steps).runner.done);
  }

  // ---------------------------------------------------------------- runs that are not recovered

  predicate Zero(c: Counts) {
    c.completed == 0 && c.failed == 0
  }

  /** Completed counts the output lines, failed at least the error lines, and both all requests. */
  predicate FilesCounted(ids: seq<string>, s: Batch) {
    && s.record.counts.completed == |LinesOf(s.files, s.record.outputFile)|
    && s.record.counts.failed >= |LinesOf(s.files, s.record.errorFile)|
    && Reported(s.record.counts) == s.record.counts.total == |ids|
  }

  predicate NothingCounted(s: Batch) {
    Reported(s.record.counts) == 0 && s.record.outputFile == None && s.record.errorFile == None
  }

  /** Counters that no worker has added to yet, or that the one worker has added to from zero. */
  predicate FromZero(ids: seq<string>, s: Batch) {
    && (s.recovering.Some? ==> Zero(s.recovering.value.counts) && s.runner == Idle)
    && (match s.runner
        case Idle => true
        case Spawned(batch) => Zero(batch.counts)
        case Checked(batch) => Zero(batch.counts)
        case Running(batch, _) => Zero(batch.counts)
        case Writing(_, base, _, _, _) => Zero(base))
    && (s.record.status == Completed ==>
          FilesCounted(ids, s) && s.record.counts.failed == |LinesOf(s.files, s.record.errorFile)|)
    && (s.record.status == Cancelled ==> NothingCounted(s) || FilesCounted(ids, s))
  }

  lemma FinishKeepsFromZero(ids: seq<string>, s: Batch, file: FileId)
    requires ids != [] && Valid(ids, s) && FromZero(ids, s) && Enabled(ids, s, Write(file)) && s.runner.stage.Finish?
    ensures FromZero(ids, WriteNext(s, s.runner, file))
  {
    OutcomesPartition(s.runner.done);
  }

  lemma LinesStay(before: Files, after: Files, file: Option<FileId>)
    requires Grows(before, after) && FileStored(before, file)
    ensures LinesOf(after, file) == LinesOf(before, file)
  {
  }

  lemma WriteFileKeepsFromZero(ids: seq<string>, s: Batch, file: FileId)
    requires Valid(ids, s) && FromZero(ids, s) && Enabled(ids, s, Write(file)) && !s.runner.stage.Finish?
    ensures FromZero(ids, WriteNext(s, s.runner, file))
  {
    var t := WriteNext(s, s.runner, file);
    WriteFileGrows(s, file);
    LinesStay(s.files, t.files, s.record.outputFile);
    LinesStay(s.files, t.files, s.record.errorFile);
  }

  lemma NextKeepsFromZero(ids: seq<string>, s: Batch, step: Step)
    requires ids != [] && Valid(ids, s) && FromZero(ids, s) && Enabled(ids, s, step) && step != RecoverRead
    ensures FromZero(ids, Next(ids, s, step))
  {
    match step
    case Write(file) =>
      if s.runner.stage.Finish? {
        FinishKeepsFromZero(ids, s, file);
      } else {
        WriteFileKeepsFromZero(ids, s, file);
      }
    case _ =>
  }

  lemma {:induction false} RunKeepsFromZero(ids: seq<string>, s: Batch, steps: seq<Step>)
    requires ids != [] && Valid(ids, s) && FromZero(ids, s) && IsRun(ids, s, steps) && RecoverRead !in steps
    ensures FromZero(ids, After(ids, s, steps))
    decreases |steps|
  {
    if steps != [] {
      var t := NextKeepsValid(ids, s, steps[0]);
      NextKeepsFromZero(ids, s, steps[0]);
      RunKeepsFromZero(ids, Next(ids, s, steps[0]), steps[1..]);
    }
  }

  /**
   Without recovery a completed record counts its files: completed is the number of output lines,
   failed the number of error lines, and together they are the total. A cancelled record either has
   no files and counts nothing, or its counters add up to the total as well, where failed counts
   the items without a line besides the error lines.
   */
  lemma UnrecoveredRunsConserve(ids: seq<string>, steps: seq<Step>)
    requires ids != [] && IsRun(ids, Created(), steps) && RecoverRead !in steps
    ensures var s := After(ids, Created(), steps);
      && (s.record.status == Completed ==>
            FilesCounted(ids, s) && s.record.counts.failed == |LinesOf(s.files, s.record.errorFile)|)
      && (s.record.status == Cancelled ==> NothingCounted(s) || FilesCounted(ids, s))
  {
    RunKeepsValid(ids, Created(), steps);
    RunKeepsFromZero(ids, Created(), steps);
  }

  // ---------------------------------------------------------------- recovered and refused runs

  lemma OneLine(line: Line<Outcome>)
    requires line.outcome == Answered
    ensures Only([line], Answered) == [line] && Only([line], Refused) == [] && Only([line], Stopped) == []
  {
    assert [line][..0] == [];
  }

  /** A worker with one item, from the record it was spawned with to the record that says it is finalizing. */
  lemma WorkToFinalizing(s: Batch, batch: Record, steps: seq<Step>, line: Line<Outcome>)
    returns (more: seq<Step>, t: Batch)
    requires line.outcome == Answered && Reaches([line.customId], Created(), steps, s)
    requires !s.token && s.runner == Idle && s.recovering == Some(batch) && !batch.cancelRequested
    ensures Reaches([line.customId], Created(), more, t)
    ensures t.record == batch.(status := Finalizing,
                               counts := Counts(1, batch.counts.completed + 1, batch.counts.failed))
    ensures t.files == s.files && !t.token && t.handlers == s.handlers
    ensures t.runner == Writing(t.record, batch.counts.(total := 1), [line], false, OutputBlob)
  {
    var ids := [line.customId];
    OneLine(line);
    var s1 := Next(ids, s, RecoverSpawn);
    var s2 := Next(ids, Next(ids, s1, Start), Begin);
    var s3 := Next(ids, s2, Complete(line));
    assert [] + [line] == [line];
    more := Then(ids, Created(), steps, s, RecoverSpawn);
    more := Then(ids, Created(), more, s1, Start);
    more := Then(ids, Created(), more, Next(ids, s1, Start), Begin);
    more := Then(ids, Created(), more, s2, Complete(line));
    more := Then(ids, Created(), more, s3, Collect);
    t := Next(ids, s3, Collect);
  }

  /** From there to its end. */
  lemma WorkToCompleted(s: Batch, steps: seq<Step>, line: Line<Outcome>) returns (more: seq<Step>, t: Batch)
    requires line.outcome == Answered && s.files == Files(map[], {}) && Reaches([line.customId], Created(), steps, s)
    requires s.runner.Writing? && s.runner.done == [line] && !s.runner.cancelled && s.runner.stage == OutputBlob
    ensures Reaches([line.customId], Created(), more, t)
    ensures t.record == Ended(s.runner.batch, false, Some(0), None)
    ensures t.runner == Idle && !t.token && t.recovering == s.recovering
  {
    var ids := [line.customId];
    OneLine(line);
    var s1 := Next(ids, s, Write(0));
    var s2 := Next(ids, s1, Write(1));
    var s3 := Next(ids, s2, Write(2));
    more := Then(ids, Created(), steps, s, Write(0));
    more := Then(ids, Created(), more, s1, Write(1));
    more := Then(ids, Created(), more, s2, Write(2));
    more := Then(ids, Created(), more, s3, Write(3));
    t := Next(ids, s3, Write(3));
  }

  lemma CrashAndRead(ids: seq<string>, s: Batch, steps: seq<Step>) returns (more: seq<Step>)
    requires Reaches(ids, Created(), steps, s) && !IsTerminal(s.record.status)
    ensures Reaches(ids, Created(), more, Batch(s.record, s.files, Idle, false, [], Some(s.record)))
  {
    more := Then(ids, Created(), steps, s, Crash);
    more := Then(ids, Created(), more, Next(ids, s, Crash), RecoverRead);
  }

  /**
   A crash while a batch is finalizing makes the recovered worker start from counters that
   already count its items: a batch with one request completes with two completed requests.
   */
  lemma RecoveredRunCountsTwice(id: string) returns (steps: seq<Step>, t: Batch)
    ensures Reaches([id], Created(), steps, t)
    ensures t.record.status == Completed && t.record.counts == Counts(1, 2, 0)
  {
    var line := Line(id, Answered);
    steps, t := WorkToFinalizing(Created(), Created().record, [], line);
    steps := CrashAndRead([id], t, steps);
    steps, t := WorkToFinalizing(Batch(t.record, t.files, Idle, false, [], Some(t.record)), t.record, steps, line);
    steps, t := WorkToCompleted(t, steps, line);
  }

  /** A cancel request whose signal is lost in a crash once it is written; the recovered worker is turned away. */
  lemma CancelledAndTurnedAway(ids: seq<string>, s: Batch, steps: seq<Step>) returns (more: seq<Step>, t: Batch)
    requires Reaches(ids, Created(), steps, s) && !IsTerminal(s.record.status) && s.files == Files(map[], {})
             && s.handlers == []
    ensures Reaches(ids, Created(), more, t)
    ensures t.record == Ended(s.record.(cancelRequested := true), true, None, None)
  {
    var s1 := Next(ids, s, CancelLoad);
    var s2 := Next(ids, s1, CancelStore(0));
    more := Then(ids, Created(), steps, s, CancelLoad);
    more := Then(ids, Created(), more, s1, CancelStore(0));
    more := CrashAndRead(ids, s2, more);
    var s3 := Batch(s2.record, s.files, Idle, false, [], Some(s2.record));
    var s4 := Next(ids, s3, RecoverSpawn);
    more := Then(ids, Created(), more, s3, RecoverSpawn);
    more := Then(ids, Created(), more, s4, Start);
    more, t := TurnedAwayEnds(ids, Next(ids, s4, Start), more);
  }

  lemma TurnedAwayEnds(ids: seq<string>, s: Batch, steps: seq<Step>) returns (more: seq<Step>, t: Batch)
    requires Reaches(ids, Created(), steps, s) && s.files == Files(map[], {})
    requires s.runner.Writing? && s.runner.done == [] && s.runner.cancelled && s.runner.stage == OutputBlob
    ensures Reaches(ids, Created(), more, t)
    ensures t.record == Ended(s.runner.batch, true, None, None)
  {
    var s1 := Next(ids, s, Write(0));
    var s2 := Next(ids, s1, Write(0));
    more := Then(ids, Created(), steps, s, Write(0));
    more := Then(ids, Created(), more, s1, Write(0));
    more := Then(ids, Created(), more, s2, Write(0));
    t := Next(ids, s2, Write(0));
  }

  /**
   Neither half of the condition for workers that are not turned away holds for those that are. A
   worker that read both counters at zero can end with an item that is on no list and in no counter;
   and one that read a finalizing record ends with counters that add up, but without any file.
   */
  lemma TurnedAwayRunsMiscount(id: string) returns (early: seq<Step>, late: seq<Step>)
    ensures IsRun([id], Created(), early) && IsRun([id], Created(), late)
    ensures var r := After([id], Created(), early).record;
      r.status == Cancelled && r.counts == Counts(1, 0, 0) && r.outputFile == None && r.errorFile == None
    ensures var r := After([id], Created(), late).record;
      r.status == Cancelled && r.counts == Counts(1, 1, 0) && r.outputFile == None && r.errorFile == None
  {
    var line, t := Line(id, Answered), Next([id], Created(), RecoverSpawn);
    early := Then([id], Created(), [], Created(), RecoverSpawn);
    early := Then([id], Created(), early, t, Start);
    early := Then([id], Created(), early, Next([id], t, Start), Begin);
    early, t := CancelledAndTurnedAway([id], Next([id], Next([id], t, Start), Begin), early);
    late, t := WorkToFinalizing(Created(), Created().record, [], line);
    late, t := CancelledAndTurnedAway([id], t, late);
  }

  // ---------------------------------------------------------------- when a terminal status is final

  predicate CancelInFlight(s: Batch) {
    exists h :: 0 <= h < |s.handlers| && s.handlers[h].Loaded?
  }

  /**
   A worker that can still begin: one that read a record without a cancel request and is not signalled
   before its check, one that is past its check, or a recovery yet to spawn such a one.
   */
  predicate WorkPending(s: Batch) {
    || (s.runner.Spawned? && !s.runner.batch.cancelRequested && !s.token)
    || s.runner.Checked?
    || (s.recovering.Some? && !s.recovering.value.cancelRequested)
  }

  predicate Settled(s: Batch) {
    IsTerminal(s.record.status) && !CancelInFlight(s) && !WorkPending(s)
  }

  lemma NextKeepsSettled(ids: seq<string>, s: Batch, step: Step)
    requires ids != [] && Valid(ids, s) && Settled(s) && Enabled(ids, s, step)
    ensures Settled(Next(ids, s, step))
  {
  }

  lemma {:induction false} RunKeepsSettled(ids: seq<string>, s: Batch, steps: seq<Step>)
    requires ids != [] && Valid(ids, s) && Settled(s) && IsRun(ids, s, steps)
    ensures Settled(After(ids, s, steps))
    decreases |steps|
  {
    if steps != [] {
      var t := NextKeepsValid(ids, s, steps[0]);
      NextKeepsSettled(ids, s, steps[0]);
      RunKeepsSettled(ids, Next(ids, s, steps[0]), steps[1..]);
    }
  }

  lemma {:induction false} Above(files: set<FileId>) returns (bound: nat)
    ensures forall f :: f in files ==> f < bound
    decreases files
  {
    bound := 0;
    if files != {} {
      var f :| f in files;
      var below := Above(files - {f});
      bound := if f < below then below else f + 1;
      assert forall g :: g in files ==> g == f || g in files - {f};
    }
  }

  lemma FreshFile(files: Files) returns (file: FileId)
    ensures Fresh(files, file)
  {
    file := Above(files.blobs.Keys + files.metadata);
  }

  function WritesLeft(stage: Stage): nat {
    match stage
    case OutputBlob => 5
    case OutputMetadata(_) => 4
    case ErrorBlob(_) => 3
    case ErrorMetadata(_, _) => 2
    case Finish(_, _) => 1
  }

  /** A worker that writes can end, whatever waits besides it. */
  lemma {:induction false} WriterCanEnd(ids: seq<string>, s: Batch, steps: seq<Step>, t: Batch)
    returns (more: seq<Step>, u: Batch)
    requires Reaches(ids, s, steps, t) && t.runner.Writing?
    ensures Reaches(ids, s, more, u) && u.runner == Idle && !u.token && u.recovering == t.recovering
    decreases WritesLeft(t.runner.stage)
  {
    var file := FreshFile(t.files);
    more := Then(ids, s, steps, t, Write(file));
    u := Next(ids, t, Write(file));
    if u.runner.Writing? {
      more, u := WriterCanEnd(ids, s, more, u);
    }
  }

  lemma PendingRecoveryReopens(ids: seq<string>, s: Batch, steps: seq<Step>, t: Batch) returns (more: seq<Step>)
    requires Reaches(ids, s, steps, t) && t.runner == Idle && !t.token
    requires t.recovering.Some? && !t.recovering.value.cancelRequested
    ensures IsRun(ids, s, more) && After(ids, s, more).record.status == InProgress
  {
    var t1 := Next(ids, t, RecoverSpawn);
    more := Then(ids, s, steps, t, RecoverSpawn);
    more := Then(ids, s, more, t1, Start);
    more := Then(ids, s, more, Next(ids, t1, Start), Begin);
  }

  lemma UnsettledReopens(ids: seq<string>, s: Batch) returns (more: seq<Step>)
    requires ids != [] && Valid(ids, s) && IsTerminal(s.record.status) && !Settled(s)
    ensures IsRun(ids, s, more) && !IsTerminal(After(ids, s, more).record.status)
  {
    more := [];
    if h :| 0 <= h < |s.handlers| && s.handlers[h].Loaded? {
      more := Then(ids, s, more, s, CancelStore(h));
    } else if s.runner.Spawned? && !s.runner.batch.cancelRequested && !s.token {
      more := Then(ids, s, more, s, Start);
      more := Then(ids, s, more, Next(ids, s, Start), Begin);
    } else if s.runner.Checked? {
      more := Then(ids, s, more, s, Begin);
    } else {
      var t := s;
      if t.runner.Spawned? {
        more := Then(ids, s, more, t, Start);
        t := Next(ids, t, Start);
      }
      if t.runner.Writing? {
        more, t := WriterCanEnd(ids, s, more, t);
      }
      more := PendingRecoveryReopens(ids, s, more, t);
    }
  }

  /**
   When `completed` and `cancelled` are final, in every reachable state: exactly when no cancel
   request has read the record and not yet written it, and no worker, spawned or only pending, can
   still begin.
   */
  lemma TerminalIsAbsorbingIff(ids: seq<string>, steps: seq<Step>)
    requires ids != [] && IsRun(ids, Created(), steps) && IsTerminal(After(ids, Created(), steps).record.status)
    ensures var s := After(ids, Created(), steps);
      (forall more: seq<Step> :: IsRun(ids, s, more) ==> IsTerminal(After(ids, s, more).record.status))
      <==> !CancelInFlight(s) && !WorkPending(s)
  {
    var s := After(ids, Created(), steps);
    RunKeepsValid(ids, Created(), steps);
    if Settled(s) {
      forall more: seq<Step> | IsRun(ids, s, more) ensures IsTerminal(After(ids, s, more).record.status) {
        RunKeepsSettled(ids, s, more);
      }
    } else {
      var more := UnsettledReopens(ids, s);
    }
  }

  /** And such a recovery can be pending: a batch that has completed is set back to `in_progress`. */
  lemma CompletedCanBeReopened(id: string) returns (steps: seq<Step>, more: seq<Step>)
    ensures IsRun([id], Created(), steps) && After([id], Created(), steps).record.status == Completed
    ensures var s := After([id], Created(), steps);
      IsRun([id], s, more) && After([id], s, more).record.status == InProgress
  {
    var line, t := Line(id, Answered), Created();
    steps, t := WorkToFinalizing(Created(), Created().record, [], line);
    steps := Then([id], Created(), steps, t, RecoverRead);
    steps, t := WorkToCompleted(Next([id], t, RecoverRead), steps, line);
    more := PendingRecoveryReopens([id], t, [], t);
  }
}
