/** Where the lines of a batch come from: each was completed in the run, unless a cancel was asked for. */
module BatchProvenance {
  import opened BatchItems
  import A = AnthropicBatch
  import O = OpenAiBatch

  // ---------------------------------------------------------------- message batches

  /** A cancel request was written in the run. */
  predicate CancelAsked(steps: seq<A.Step>) {
    exists i :: 0 <= i < |steps| && steps[i].CancelStore?
  }

  /** The run completed exactly this item in this way, and canceled it only after it was asked to. */
  predicate Reported(steps: seq<A.Step>, line: Line<A.Outcome>) {
    A.Complete(line) in steps && (line.outcome == A.Canceled ==> CancelAsked(steps))
  }

  predicate AllReported(steps: seq<A.Step>, lines: seq<Line<A.Outcome>>) {
    forall i :: 0 <= i < |lines| ==> Reported(steps, lines[i])
  }

  /** Every request canceled, without any of them being dispatched. */
  predicate AllTurnedAway(ids: seq<string>, steps: seq<A.Step>, lines: seq<Line<A.Outcome>>) {
    CancelAsked(steps) && lines == A.CanceledLines(ids)
  }

  predicate RunnerSourced(steps: seq<A.Step>, runner: A.Runner) {
    match runner
    case Idle => true
    case Spawned(batch) => batch.cancelRequested ==> CancelAsked(steps)
    case Running(batch, done) => (batch.cancelRequested ==> CancelAsked(steps)) && AllReported(steps, done)
    case Refusing(batch) => CancelAsked(steps)
    case Finishing(batch, _) => batch.cancelRequested ==> CancelAsked(steps)
  }

  predicate HandlerSourced(steps: seq<A.Step>, handler: A.Handler) {
    match handler
    case Loaded(snapshot) => snapshot.cancelRequested ==> CancelAsked(steps)
    case Signalling => CancelAsked(steps)
  }

  predicate Sourced(ids: seq<string>, steps: seq<A.Step>, s: A.Batch) {
    && (s.record.cancelRequested || s.token ==> CancelAsked(steps))
    && (s.results.Some? ==> AllReported(steps, s.results.value) || AllTurnedAway(ids, steps, s.results.value))
    && RunnerSourced(steps, s.runner)
    && (forall h :: 0 <= h < |s.handlers| ==> HandlerSourced(steps, s.handlers[h]))
    && (s.recovering.Some? && s.recovering.value.cancelRequested ==> CancelAsked(steps))
  }

  lemma MoreSteps(ids: seq<string>, steps: seq<A.Step>, s: A.Batch, step: A.Step)
    requires Sourced(ids, steps, s)
    ensures Sourced(ids, steps + [step], s)
    ensures CancelAsked(steps) ==> CancelAsked(steps + [step])
  {
    if CancelAsked(steps) {
      var i :| 0 <= i < |steps| && steps[i].CancelStore?;
      assert (steps + [step])[i].CancelStore?;
    }
  }

  lemma StepIsSourced(ids: seq<string>, steps: seq<A.Step>, s: A.Batch, step: A.Step)
    requires Sourced(ids, steps, s) && A.Enabled(ids, s, step)
    ensures Sourced(ids, steps + [step], A.Next(ids, s, step))
  {
    MoreSteps(ids, steps, s, step);
    assert (steps + [step])[|steps|] == step;
  }

  lemma {:induction false} RunIsSourced(ids: seq<string>, before: seq<A.Step>, s: A.Batch, steps: seq<A.Step>)
    requires Sourced(ids, before, s) && A.IsRun(ids, s, steps)
    ensures Sourced(ids, before + steps, A.After(ids, s, steps))
    decreases |steps|
  {
    if steps == [] {
      assert before + steps == before;
    } else {
      StepIsSourced(ids, before, s, steps[0]);
      RunIsSourced(ids, before + [steps[0]], A.Next(ids, s, steps[0]), steps[1..]);
      assert before + [steps[0]] + steps[1..] == before + steps;
    }
  }

  /**
   In every run each stored result was completed with exactly that outcome, or a cancel request
   turned all of them away; and without a cancel request no result is canceled.
   */
  lemma EveryResultIsReported(ids: seq<string>, steps: seq<A.Step>)
    requires A.IsRun(ids, A.Created(ids), steps)
    ensures var s := A.After(ids, A.Created(ids), steps);
      s.results.Some? ==> AllReported(steps, s.results.value) || AllTurnedAway(ids, steps, s.results.value)
  {
    RunIsSourced(ids, [], A.Created(ids), steps);
    assert [] + steps == steps;
  }

  // ---------------------------------------------------------------- batches over files

  predicate CancelWritten(steps: seq<O.Step>) {
    exists i :: 0 <= i < |steps| && steps[i].CancelStore?
  }

  /** The run completed exactly this item in this way, and stopped it only after it was asked to. */
  predicate Answered(steps: seq<O.Step>, line: Line<O.Outcome>) {
    O.Complete(line) in steps && (line.outcome == O.Stopped ==> CancelWritten(steps))
  }

  predicate AllAnswered(steps: seq<O.Step>, lines: O.Lines) {
    forall i :: 0 <= i < |lines| ==> Answered(steps, lines[i])
  }

  predicate RecordSourced(steps: seq<O.Step>, r: O.Record) {
    r.cancelRequested || r.status == O.Cancelling || r.status == O.Cancelled ==> CancelWritten(steps)
  }

  predicate WorkerSourced(steps: seq<O.Step>, runner: O.Runner) {
    match runner
    case Idle => true
    case Spawned(batch) => RecordSourced(steps, batch)
    case Checked(batch) => RecordSourced(steps, batch)
    case Running(batch, done) => RecordSourced(steps, batch) && AllAnswered(steps, done)
    case Writing(batch, _, done, cancelled, _) =>
      RecordSourced(steps, batch) && AllAnswered(steps, done) && (cancelled ==> CancelWritten(steps))
  }

  predicate RequestSourced(steps: seq<O.Step>, handler: O.Handler) {
    match handler
    case Loaded(snapshot) => RecordSourced(steps, snapshot)
    case Signalling => CancelWritten(steps)
  }

  predicate BatchSourced(steps: seq<O.Step>, s: O.Batch) {
    && RecordSourced(steps, s.record) && (s.token ==> CancelWritten(steps))
    && (forall f :: f in s.files.blobs ==> AllAnswered(steps, s.files.blobs[f]))
    && WorkerSourced(steps, s.runner)
    && (forall h :: 0 <= h < |s.handlers| ==> RequestSourced(steps, s.handlers[h]))
    && (s.recovering.Some? ==> RecordSourced(steps, s.recovering.value))
  }

  lemma MoreStepsWritten(steps: seq<O.Step>, s: O.Batch, step: O.Step)
    requires BatchSourced(steps, s)
    ensures BatchSourced(steps + [step], s)
    ensures CancelWritten(steps) ==> CancelWritten(steps + [step])
  {
    if CancelWritten(steps) {
      var i :| 0 <= i < |steps| && steps[i].CancelStore?;
      assert (steps + [step])[i].CancelStore?;
    }
  }

  lemma {:induction false} OnlyAnswered(steps: seq<O.Step>, lines: O.Lines, outcome: O.Outcome)
    requires AllAnswered(steps, lines)
    ensures AllAnswered(steps, Only(lines, outcome))
    ensures outcome == O.Stopped && Only(lines, outcome) != [] ==> CancelWritten(steps)
  {
    if lines != [] {
      OnlyAnswered(steps, lines[..|lines| - 1], outcome);
    }
  }

  lemma OtherStepIsSourced(ids: seq<string>, steps: seq<O.Step>, s: O.Batch, step: O.Step)
    requires BatchSourced(steps, s) && O.Enabled(ids, s, step) && !step.Write? && !step.Collect?
    ensures BatchSourced(steps + [step], O.Next(ids, s, step))
  {
    MoreStepsWritten(steps, s, step);
    assert (steps + [step])[|steps|] == step;
  }

  lemma CollectIsSourced(ids: seq<string>, steps: seq<O.Step>, s: O.Batch, step: O.Step)
    requires BatchSourced(steps, s) && O.Enabled(ids, s, step) && step.Collect?
    ensures BatchSourced(steps + [step], O.Next(ids, s, step))
  {
    MoreStepsWritten(steps, s, step);
    OnlyAnswered(steps + [step], s.runner.done, O.Stopped);
  }

  lemma WrittenIsSourced(steps: seq<O.Step>, s: O.Batch, file: O.FileId)
    requires BatchSourced(steps, s) && s.runner.Writing?
    ensures BatchSourced(steps, O.WriteNext(s, s.runner, file))
  {
    OnlyAnswered(steps, s.runner.done, O.Answered);
    OnlyAnswered(steps, s.runner.done, O.Refused);
  }

  lemma WriteIsSourced(ids: seq<string>, steps: seq<O.Step>, s: O.Batch, step: O.Step)
    requires BatchSourced(steps, s) && O.Enabled(ids, s, step) && step.Write?
    ensures BatchSourced(steps + [step], O.Next(ids, s, step))
  {
    MoreStepsWritten(steps, s, step);
    WrittenIsSourced(steps + [step], s, step.file);
  }

  lemma {:induction false} RunIsSourcedWhole(ids: seq<string>, before: seq<O.Step>, s: O.Batch, steps: seq<O.Step>)
    requires BatchSourced(before, s) && O.IsRun(ids, s, steps)
    ensures BatchSourced(before + steps, O.After(ids, s, steps))
    decreases |steps|
  {
    if steps == [] {
      assert before + steps == before;
    } else {
      if steps[0].Collect? {
        CollectIsSourced(ids, before, s, steps[0]);
      } else if steps[0].Write? {
        WriteIsSourced(ids, before, s, steps[0]);
      } else {
        OtherStepIsSourced(ids, before, s, steps[0]);
      }
      RunIsSourcedWhole(ids, before + [steps[0]], O.Next(ids, s, steps[0]), steps[1..]);
      assert before + [steps[0]] + steps[1..] == before + steps;
    }
  }

  /**
   In every run each line of a file was completed with exactly that outcome, and a batch is
   cancelling or cancelled only when a cancel request was written.
   */
  lemma EveryLineIsAnswered(ids: seq<string>, steps: seq<O.Step>)
    requires O.IsRun(ids, O.Created(), steps)
    ensures var s := O.After(ids, O.Created(), steps);
      && (forall f :: f in s.files.blobs ==> AllAnswered(steps, s.files.blobs[f]))
      && (s.record.status == O.Cancelling || s.record.status == O.Cancelled ==> CancelWritten(steps))
  {
    RunIsSourcedWhole(ids, [], O.Created(), steps);
    assert [] + steps == steps;
  }

  // ---------------------------------------------------------------- which file a line is in

  predicate AllHave(lines: O.Lines, outcome: O.Outcome) {
    forall i :: 0 <= i < |lines| ==> lines[i].outcome == outcome
  }

  /** Responses are in the output file, and refusals in the error file. */
  predicate RecordSorted(files: O.Files, r: O.Record) {
    AllHave(O.LinesOf(files, r.outputFile), O.Answered) && AllHave(O.LinesOf(files, r.errorFile), O.Refused)
  }

  predicate WorkerSorted(files: O.Files, runner: O.Runner) {
    match runner
    case Idle => true
    case Spawned(batch) => RecordSorted(files, batch)
    case Checked(batch) => RecordSorted(files, batch)
    case Running(batch, _) => RecordSorted(files, batch)
    case Writing(batch, _, _, _, _) => RecordSorted(files, batch)
  }

  predicate Sorted(s: O.Batch) {
    && RecordSorted(s.files, s.record)
    && WorkerSorted(s.files, s.runner)
    && (forall h :: 0 <= h < |s.handlers| && s.handlers[h].Loaded? ==> RecordSorted(s.files, s.handlers[h].snapshot))
    && (s.recovering.Some? ==> RecordSorted(s.files, s.recovering.value))
  }

  lemma {:induction false} OnlyHave(lines: O.Lines, outcome: O.Outcome)
    ensures AllHave(Only(lines, outcome), outcome)
  {
    if lines != [] {
      OnlyHave(lines[..|lines| - 1], outcome);
    }
  }

  /** Files that are added leave the lines of a record alone. */
  lemma StaysSorted(ids: seq<string>, before: O.Files, after: O.Files, r: O.Record)
    requires O.Grows(before, after) && O.RecordValid(ids, before, r) && RecordSorted(before, r)
    ensures RecordSorted(after, r)
  {
    assert O.LinesOf(after, r.outputFile) == O.LinesOf(before, r.outputFile);
    assert O.LinesOf(after, r.errorFile) == O.LinesOf(before, r.errorFile);
  }

  lemma WrittenFileIsSorted(ids: seq<string>, s: O.Batch, file: O.FileId)
    requires O.Valid(ids, s) && Sorted(s) && O.Enabled(ids, s, O.Write(file)) && !s.runner.stage.Finish?
    ensures Sorted(O.WriteNext(s, s.runner, file))
  {
    var t := O.WriteNext(s, s.runner, file);
    O.WriteFileGrows(s, file);
    StaysSorted(ids, s.files, t.files, s.record);
    StaysSorted(ids, s.files, t.files, s.runner.batch);
    forall h | 0 <= h < |s.handlers| && s.handlers[h].Loaded? ensures RecordSorted(t.files, s.handlers[h].snapshot) {
      StaysSorted(ids, s.files, t.files, s.handlers[h].snapshot);
    }
    if s.recovering.Some? {
      StaysSorted(ids, s.files, t.files, s.recovering.value);
    }
  }

  lemma FinishedIsSorted(ids: seq<string>, s: O.Batch, file: O.FileId)
    requires O.Valid(ids, s) && Sorted(s) && O.Enabled(ids, s, O.Write(file)) && s.runner.stage.Finish?
    ensures Sorted(O.WriteNext(s, s.runner, file))
  {
    OnlyHave(s.runner.done, O.Answered);
    OnlyHave(s.runner.done, O.Refused);
  }

  lemma StepKeepsSorted(ids: seq<string>, s: O.Batch, step: O.Step)
    requires O.Valid(ids, s) && Sorted(s) && O.Enabled(ids, s, step)
    ensures Sorted(O.Next(ids, s, step))
  {
    if step.Write? {
      if s.runner.stage.Finish? {
        FinishedIsSorted(ids, s, step.file);
      } else {
        WrittenFileIsSorted(ids, s, step.file);
      }
    }
  }

  lemma {:induction false} RunKeepsSorted(ids: seq<string>, s: O.Batch, steps: seq<O.Step>)
    requires O.Valid(ids, s) && Sorted(s) && O.IsRun(ids, s, steps)
    ensures Sorted(O.After(ids, s, steps))
    decreases |steps|
  {
    if steps != [] {
      StepKeepsSorted(ids, s, steps[0]);
      var t := O.NextKeepsValid(ids, s, steps[0]);
      RunKeepsSorted(ids, t, steps[1..]);
    }
  }

  /** In every run the output file of the record has only responses, and its error file only refusals. */
  lemma EveryFileIsSorted(ids: seq<string>, steps: seq<O.Step>)
    requires O.IsRun(ids, O.Created(), steps)
    ensures var s := O.After(ids, O.Created(), steps);
      && AllHave(O.LinesOf(s.files, s.record.outputFile), O.Answered)
      && AllHave(O.LinesOf(s.files, s.record.errorFile), O.Refused)
  {
    RunKeepsSorted(ids, O.Created(), steps);
  }
}
