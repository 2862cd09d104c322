/**
 One batch over a validated input file as a state machine: its runner with the files it writes,
 cancel handlers that read and write the record in two steps, recovery, and crashes. Storage does
 not fail and files are not deleted.
 */
module OpenAiBatch {
  import opened Wrappers
  import opened BatchItems

  // ---------------------------------------------------------------- records and files

  datatype Counts = Counts(total: nat, completed: nat, failed: nat)

  datatype Status = Validating | InProgress | Finalizing | Cancelling | Completed | Cancelled

  type FileId = nat

  datatype Record = Record(
    status: Status,
    counts: Counts,
    outputFile: Option<FileId>,
    errorFile: Option<FileId>,
    cancelRequested: bool)

  /** A response with a success status; any other response or a dispatch error; no response because of a cancel. */
  datatype Outcome = Answered | Refused | Stopped

  type Lines = seq<Line<Outcome>>

  datatype Files = Files(blobs: map<FileId, Lines>, metadata: set<FileId>)

  predicate IsTerminal(status: Status) {
    status == Completed || status == Cancelled
  }

  // ---------------------------------------------------------------- the tally

  /** The counters after a run that began with `base`. They are added to, not reset. */
  function Tallied(base: Counts, done: Lines): Counts {
    Counts(|done|, base.completed + |Only(done, Answered)|, base.failed + |Only(done, Refused)| + |Only(done, Stopped)|)
  }

  method TallyResults(results: Lines, base: Counts)
    returns (counts: Counts, outputLines: Lines, errorLines: Lines, cancelled: nat)
    ensures counts == Tallied(base, results)
    ensures outputLines == Only(results, Answered) && errorLines == Only(results, Refused)
    ensures cancelled == |Only(results, Stopped)|
  {
    counts := Counts(|results|, base.completed, base.failed);
    outputLines, errorLines, cancelled := [], [], 0;
    for i := 0 to |results|
      invariant outputLines == Only(results[..i], Answered) && errorLines == Only(results[..i], Refused)
      invariant cancelled == |Only(results[..i], Stopped)|
      invariant counts == Counts(|results|, base.completed + |outputLines|, base.failed + |errorLines|)
    {
      assert results[..i + 1][..i] == results[..i];
      match results[i].outcome {
        case Stopped =>
          cancelled := cancelled + 1;
        case Answered =>
          counts := counts.(completed := counts.completed + 1);
          outputLines := outputLines + [results[i]];
        case Refused =>
          counts := counts.(failed := counts.failed + 1);
          errorLines := errorLines + [results[i]];
      }
    }
    assert results[..|results|] == results;
    counts := counts.(failed := counts.failed + cancelled);
  }

  lemma {:induction false} OutcomesPartition(done: Lines)
    ensures |Only(done, Answered)| + |Only(done, Refused)| + |Only(done, Stopped)| == |done|
  {
    if done != [] {
      OutcomesPartition(done[..|done| - 1]);
      var last := done[|done| - 1].outcome;
      assert last == Answered || last == Refused || last == Stopped;
    }
  }

  /** Every item is on exactly one of the three lists. */
  lemma EveryItemOnOneList(done: Lines, ids: seq<string>, id: string)
    requires ListsEachOnce(done, ids) && id in ids
    ensures (if Listed(Only(done, Answered), id) then 1 else 0)
          + (if Listed(Only(done, Refused), id) then 1 else 0)
          + (if Listed(Only(done, Stopped), id) then 1 else 0) == 1
  {
    OnlyListed(done, Answered, id);
    OnlyListed(done, Refused, id);
    OnlyListed(done, Stopped, id);
    var i :| 0 <= i < |ids| && ids[i] == id;
    assert Listed(done, ids[i]);
    var j :| 0 <= j < |done| && done[j].customId == id;
    assert forall k :: 0 <= k < |done| && done[k].customId == id ==> k == j;
    assert Listed(Only(done, Answered), id) <==> done[j].outcome == Answered;
    assert Listed(Only(done, Refused), id) <==> done[j].outcome == Refused;
    assert Listed(Only(done, Stopped), id) <==> done[j].outcome == Stopped;
  }

  /** Without stopped items the output and the error lines together list every item once. */
  lemma OutputAndErrorsListAll(done: Lines, ids: seq<string>)
    requires ListsEachOnce(done, ids) && Only(done, Stopped) == []
    ensures ListsEachOnce(Only(done, Answered) + Only(done, Refused), ids)
  {
    var a, b := Only(done, Answered), Only(done, Refused);
    OutcomesPartition(done);
    OnlyDistinct(done, Answered);
    OnlyDistinct(done, Refused);
    forall i, j | 0 <= i < |a| && 0 <= j < |b| ensures a[i].customId != b[j].customId {
      ApartLists(done, a[i].customId, i, j);
    }
    ConcatDistinct(a, b);
    forall i | 0 <= i < |a + b| ensures (a + b)[i].customId in ids {
      var id := (a + b)[i].customId;
      OnlyListed(done, Answered, id);
      OnlyListed(done, Refused, id);
      assert if i < |a| then a[i].customId == id else b[i - |a|].customId == id;
      var k :| 0 <= k < |done| && done[k].customId == id;
    }
    FullListCoversAll(a + b, ids);
  }

  lemma ApartLists(done: Lines, id: string, i: nat, j: nat)
    requires DistinctLines(done)
    requires i < |Only(done, Answered)| && j < |Only(done, Refused)| && Only(done, Answered)[i].customId == id
    ensures Only(done, Refused)[j].customId != id
  {
    OnlyListed(done, Answered, id);
    OnlyListed(done, Refused, id);
  }

  lemma ConcatDistinct(a: Lines, b: Lines)
    requires DistinctLines(a) && DistinctLines(b)
    requires forall i, j :: 0 <= i < |a| && 0 <= j < |b| ==> a[i].customId != b[j].customId
    ensures DistinctLines(a + b)
  {
    var all := a + b;
    forall i, j | 0 <= i < j < |all| ensures all[i].customId != all[j].customId {
      assert all[i] == (if i < |a| then a[i] else b[i - |a|]) && all[j] == (if j < |a| then a[j] else b[j - |a|]);
    }
  }

  // ---------------------------------------------------------------- the machine

  /** How far the output and error files have been written. */
  datatype Stage =
    | OutputBlob
    | OutputMetadata(file: FileId)
    | ErrorBlob(output: Option<FileId>)
    | ErrorMetadata(output: Option<FileId>, file: FileId)
    | Finish(output: Option<FileId>, error: Option<FileId>)

  /**
   A worker that has passed its check for a cancel reads its input before it writes the record. `base`
   is what the counters were when the worker was spawned.
   */
  datatype Runner =
    | Idle
    | Spawned(batch: Record)
    | Checked(batch: Record)
    | Running(batch: Record, done: Lines)
    | Writing(batch: Record, base: Counts, done: Lines, cancelled: bool, stage: Stage)

  datatype Handler = Loaded(snapshot: Record) | Signalling

  datatype Batch = Batch(
    record: Record,
    files: Files,
    runner: Runner,
    token: bool,
    handlers: seq<Handler>,
    recovering: Option<Record>)

  datatype Step =
    | Start
    | Begin
    | Complete(line: Line<Outcome>)
    | Collect
    | Write(file: FileId)
    | CancelLoad
    | CancelStore(handler: nat)
    | CancelSignal(handler: nat)
    | RecoverRead
    | RecoverSpawn
    | Crash

  /** What create leaves behind before it spawns the worker. */
  function Created(): Batch {
    var record := Record(Validating, Counts(0, 0, 0), None, None, false);
    Batch(record, Files(map[], {}), Idle, false, [], Some(record))
  }

  predicate Fresh(files: Files, file: FileId) {
    file !in files.blobs && file !in files.metadata
  }

  predicate Enabled(ids: seq<string>, s: Batch, step: Step) {
    match step
    case Start => s.runner.Spawned?
    case Begin => s.runner.Checked?
    case Complete(line) =>
      s.runner.Running? && line.customId in ids && !Listed(s.runner.done, line.customId)
      && (line.outcome == Stopped ==> s.token)
    case Collect => s.runner.Running? && |s.runner.done| == |ids|
    case Write(file) => s.runner.Writing? && Fresh(s.files, file)
    case CancelLoad => !IsTerminal(s.record.status)
    case CancelStore(h) => h < |s.handlers| && s.handlers[h].Loaded?
    case CancelSignal(h) => h < |s.handlers| && s.handlers[h].Signalling?
    case RecoverRead => !IsTerminal(s.record.status)
    case RecoverSpawn => s.recovering.Some?
    case Crash => true
  }

  function Checking(s: Batch, batch: Record): Batch {
    if batch.cancelRequested || s.token then s.(runner := Writing(batch, batch.counts, [], true, OutputBlob))
    else s.(runner := Checked(batch))
  }

  function Begun(s: Batch, ids: seq<string>, batch: Record): Batch {
    var begun := batch.(status := InProgress, counts := batch.counts.(total := |ids|));
    s.(record := begun, runner := Running(begun, []))
  }

  function Collected(s: Batch, batch: Record, done: Lines): Batch {
    var tallied := batch.(counts := Tallied(batch.counts, done));
    if s.token || batch.cancelRequested || Only(done, Stopped) != []
    then s.(runner := Writing(tallied, batch.counts, done, true, OutputBlob))
    else
      var finalizing := tallied.(status := Finalizing);
      s.(record := finalizing, runner := Writing(finalizing, batch.counts, done, false, OutputBlob))
  }

  /** One write of `write_openai_batch_output_file`, or the last write of the record. */
  function WriteNext(s: Batch, r: Runner, file: FileId): Batch
    requires r.Writing?
  {
    match r.stage
    case OutputBlob =>
      var lines := Only(r.done, Answered);
      if lines == [] then s.(runner := r.(stage := ErrorBlob(None)))
      else s.(files := s.files.(blobs := s.files.blobs[file := lines]), runner := r.(stage := OutputMetadata(file)))
    case OutputMetadata(f) =>
      s.(files := s.files.(metadata := s.files.metadata + {f}), runner := r.(stage := ErrorBlob(Some(f))))
    case ErrorBlob(output) =>
      var lines := Only(r.done, Refused);
      if lines == [] then s.(runner := r.(stage := Finish(output, None)))
      else s.(files := s.files.(blobs := s.files.blobs[file := lines]),
              runner := r.(stage := ErrorMetadata(output, file)))
    case ErrorMetadata(output, f) =>
      s.(files := s.files.(metadata := s.files.metadata + {f}), runner := r.(stage := Finish(output, Some(f))))
    case Finish(output, error) =>
      s.(record := Ended(r.batch, r.cancelled, output, error), runner := Idle, token := false)
  }

  function Ended(batch: Record, cancelled: bool, output: Option<FileId>, error: Option<FileId>): Record {
    batch.(status := if cancelled then Cancelled else Completed, outputFile := output, errorFile := error)
  }

  function Next(ids: seq<string>, s: Batch, step: Step): Batch
    requires Enabled(ids, s, step)
  {
    match step
    case Start => Checking(s, s.runner.batch)
    case Begin => Begun(s, ids, s.runner.batch)
    case Complete(line) => s.(runner := Running(s.runner.batch, s.runner.done + [line]))
    case Collect => Collected(s, s.runner.batch, s.runner.done)
    case Write(file) => WriteNext(s, s.runner, file)
    case CancelLoad => s.(handlers := s.handlers + [Loaded(s.record)])
    case CancelStore(h) =>
      s.(record := s.handlers[h].snapshot.(status := Cancelling, cancelRequested := true),
         handlers := s.handlers[h := Signalling])
    case CancelSignal(h) =>
      s.(token := s.token || s.runner != Idle, handlers := s.handlers[..h] + s.handlers[h + 1..])
    case RecoverRead => s.(recovering := Some(s.record))
    case RecoverSpawn =>
      if s.runner == Idle then s.(runner := Spawned(s.recovering.value), recovering := None) else s.(recovering := None)
    case Crash => s.(runner := Idle, token := false, handlers := [], recovering := None)
  }

  predicate IsRun(ids: seq<string>, s: Batch, steps: seq<Step>)
    decreases |steps|
  {
    steps == [] || (Enabled(ids, s, steps[0]) && IsRun(ids, Next(ids, s, steps[0]), steps[1..]))
  }

  function After(ids: seq<string>, s: Batch, steps: seq<Step>): Batch
    requires IsRun(ids, s, steps)
    decreases |steps|
  {
    if steps == [] then s else After(ids, Next(ids, s, steps[0]), steps[1..])
  }

  lemma {:induction false} RunConcat(ids: seq<string>, s: Batch, first: seq<Step>, second: seq<Step>)
    requires IsRun(ids, s, first) && IsRun(ids, After(ids, s, first), second)
    ensures IsRun(ids, s, first + second) && After(ids, s, first + second) == After(ids, After(ids, s, first), second)
    decreases |first|
  {
    if first == [] {
      assert first + second == second;
    } else {
      assert (first + second)[1..] == first[1..] + second;
      RunConcat(ids, Next(ids, s, first[0]), first[1..], second);
    }
  }

  /** A run, and where it ends. */
  predicate Reaches(ids: seq<string>, s: Batch, steps: seq<Step>, t: Batch) {
    IsRun(ids, s, steps) && After(ids, s, steps) == t
  }

  lemma Then(ids: seq<string>, s: Batch, steps: seq<Step>, t: Batch, step: Step) returns (more: seq<Step>)
    requires Reaches(ids, s, steps, t) && Enabled(ids, t, step)
    ensures Reaches(ids, s, more, Next(ids, t, step))
  {
    more := steps + [step];
    assert [step][1..] == [];
    assert IsRun(ids, Next(ids, t, step), [step][1..]);
    RunConcat(ids, s, steps, [step]);
  }

  // ---------------------------------------------------------------- the invariant

  predicate FileStored(files: Files, file: Option<FileId>) {
    file.Some? ==> file.value in files.blobs && file.value in files.metadata
  }

  /** The lines behind a file id; none where there is no file. */
  function LinesOf(files: Files, file: Option<FileId>): Lines {
    if file.Some? && file.value in files.blobs then files.blobs[file.value] else []
  }

  function Delivered(files: Files, r: Record): Lines {
    LinesOf(files, r.outputFile) + LinesOf(files, r.errorFile)
  }

  /** File ids refer to stored files; a completed record delivers every item on one line. */
  predicate RecordValid(ids: seq<string>, files: Files, r: Record) {
    && FileStored(files, r.outputFile) && FileStored(files, r.errorFile)
    && (r.status == Completed ==> ListsEachOnce(Delivered(files, r), ids))
  }

  /** A file that is written so far has the lines of one outcome; there is none for no lines. */
  predicate Holds(files: Files, file: Option<FileId>, lines: Lines) {
    FileStored(files, file) && LinesOf(files, file) == lines && (file == None <==> lines == [])
  }

  predicate BlobHolds(files: Files, file: FileId, lines: Lines) {
    file in files.blobs && files.blobs[file] == lines && lines != []
  }

  predicate StageValid(files: Files, done: Lines, stage: Stage) {
    match stage
    case OutputBlob => true
    case OutputMetadata(f) => BlobHolds(files, f, Only(done, Answered))
    case ErrorBlob(output) => Holds(files, output, Only(done, Answered))
    case ErrorMetadata(output, f) =>
      Holds(files, output, Only(done, Answered)) && BlobHolds(files, f, Only(done, Refused))
    case Finish(output, error) =>
      Holds(files, output, Only(done, Answered)) && Holds(files, error, Only(done, Refused))
  }

  predicate RunnerValid(ids: seq<string>, s: Batch) {
    match s.runner
    case Idle => !s.token
    case Spawned(batch) => RecordValid(ids, s.files, batch) && !IsTerminal(batch.status)
    case Checked(batch) => RecordValid(ids, s.files, batch) && !IsTerminal(batch.status)
    case Running(batch, done) =>
      && RecordValid(ids, s.files, batch) && batch.status == InProgress && batch.counts.total == |ids|
      && DistinctLines(done) && (forall i :: 0 <= i < |done| ==> done[i].customId in ids)
      && !IsTerminal(s.record.status)
    case Writing(batch, base, done, cancelled, stage) =>
      && RecordValid(ids, s.files, batch) && !IsTerminal(batch.status)
      && (ids != [] && done == [] ==> batch.counts == base && cancelled)
      && (ids != [] && done != [] ==> base.total == |ids| && !IsTerminal(s.record.status))
      && StageValid(s.files, done, stage)
      && batch.counts.completed == base.completed + |Only(done, Answered)|
      && batch.counts.failed == base.failed + |Only(done, Refused)| + |Only(done, Stopped)|
      && (done == [] || ListsEachOnce(done, ids))
      && (!cancelled ==> ListsEachOnce(done, ids) && Only(done, Stopped) == [])
      && (ListsEachOnce(done, ids) && ids != [] ==> batch.counts.total == |ids|)
  }

  predicate SnapshotValid(ids: seq<string>, files: Files, r: Record) {
    RecordValid(ids, files, r) && !IsTerminal(r.status)
  }

  predicate Valid(ids: seq<string>, s: Batch) {
    && RecordValid(ids, s.files, s.record)
    && RunnerValid(ids, s)
    && (forall h :: 0 <= h < |s.handlers| && s.handlers[h].Loaded? ==>
        SnapshotValid(ids, s.files, s.handlers[h].snapshot))
    && (s.recovering.Some? ==> SnapshotValid(ids, s.files, s.recovering.value))
  }

  // ---------------------------------------------------------------- every step keeps it

  /** Files are only ever added. */
  predicate Grows(before: Files, after: Files) {
    && before.metadata <= after.metadata
    && (forall f :: f in before.blobs ==> f in after.blobs && after.blobs[f] == before.blobs[f])
  }

  lemma RecordStaysValid(ids: seq<string>, before: Files, after: Files, r: Record)
    requires Grows(before, after) && RecordValid(ids, before, r)
    ensures RecordValid(ids, after, r)
  {
    assert r.status == Completed ==> Delivered(after, r) == Delivered(before, r);
  }

  /** What a step that only adds files keeps. */
  lemma AddingFilesKeeps(ids: seq<string>, s: Batch, t: Batch)
    requires Valid(ids, s) && Grows(s.files, t.files)
    requires t.record == s.record && t.handlers == s.handlers && t.recovering == s.recovering
    requires RunnerValid(ids, t)
    ensures Valid(ids, t)
  {
    RecordStaysValid(ids, s.files, t.files, s.record);
    forall h | 0 <= h < |s.handlers| && s.handlers[h].Loaded?
      ensures SnapshotValid(ids, t.files, s.handlers[h].snapshot)
    {
      RecordStaysValid(ids, s.files, t.files, s.handlers[h].snapshot);
    }
    if s.recovering.Some? {
      RecordStaysValid(ids, s.files, t.files, s.recovering.value);
    }
  }

  lemma WriteFileGrows(s: Batch, file: FileId)
    requires s.runner.Writing? && Fresh(s.files, file) && !s.runner.stage.Finish?
    ensures var t := WriteNext(s, s.runner, file);
      && Grows(s.files, t.files)
      && t.runner.Writing? && t.runner == s.runner.(stage := t.runner.stage)
      && t == s.(files := t.files, runner := t.runner)
  {
  }

  lemma HoldsStill(before: Files, after: Files, file: Option<FileId>, lines: Lines)
    requires Grows(before, after) && Holds(before, file, lines)
    ensures Holds(after, file, lines)
  {
  }

  lemma WriteFileKeepsStage(s: Batch, file: FileId)
    requires s.runner.Writing? && Fresh(s.files, file) && !s.runner.stage.Finish?
    requires StageValid(s.files, s.runner.done, s.runner.stage)
    ensures var t := WriteNext(s, s.runner, file);
      t.runner.Writing? && StageValid(t.files, s.runner.done, t.runner.stage)
  {
    var t, done := WriteNext(s, s.runner, file), s.runner.done;
    WriteFileGrows(s, file);
    match s.runner.stage
    case ErrorBlob(output) => HoldsStill(s.files, t.files, output, Only(done, Answered));
    case ErrorMetadata(output, _) => HoldsStill(s.files, t.files, output, Only(done, Answered));
    case _ =>
  }

  lemma WriteFileKeepsValid(ids: seq<string>, s: Batch, file: FileId)
    requires Valid(ids, s) && Enabled(ids, s, Write(file)) && !s.runner.stage.Finish?
    ensures Valid(ids, WriteNext(s, s.runner, file))
  {
    var t := WriteNext(s, s.runner, file);
    WriteFileGrows(s, file);
    WriteFileKeepsStage(s, file);
    RecordStaysValid(ids, s.files, t.files, s.runner.batch);
    AddingFilesKeeps(ids, s, t);
  }

  lemma FinishKeepsValid(ids: seq<string>, s: Batch, file: FileId) returns (t: Batch)
    requires Valid(ids, s) && Enabled(ids, s, Write(file)) && s.runner.stage.Finish?
    ensures t == Next(ids, s, Write(file)) && Valid(ids, t)
  {
    t := Next(ids, s, Write(file));
    if !s.runner.cancelled {
      OutputAndErrorsListAll(s.runner.done, ids);
    }
  }

  lemma CollectKeepsValid(ids: seq<string>, s: Batch) returns (t: Batch)
    requires Valid(ids, s) && Enabled(ids, s, Collect)
    ensures t == Next(ids, s, Collect) && Valid(ids, t)
  {
    t := Next(ids, s, Collect);
    FullListCoversAll(s.runner.done, ids);
  }

  lemma CompleteKeepsValid(ids: seq<string>, s: Batch, line: Line<Outcome>) returns (t: Batch)
    requires Valid(ids, s) && Enabled(ids, s, Complete(line))
    ensures t == Next(ids, s, Complete(line)) && Valid(ids, t)
  {
    t := Next(ids, s, Complete(line));
    SnocDistinct(s.runner.done, line);
  }

  predicate IsHandlerStep(step: Step) {
    step.CancelLoad? || step.CancelStore? || step.CancelSignal?
  }

  predicate IsRecoveryStep(step: Step) {
    step.RecoverRead? || step.RecoverSpawn? || step.Crash?
  }

  lemma HandlerStepKeepsValid(ids: seq<string>, s: Batch, step: Step) returns (t: Batch)
    requires Valid(ids, s) && Enabled(ids, s, step) && IsHandlerStep(step)
    ensures t == Next(ids, s, step) && Valid(ids, t)
  {
    t := Next(ids, s, step);
  }

  lemma RecoveryStepKeepsValid(ids: seq<string>, s: Batch, step: Step) returns (t: Batch)
    requires Valid(ids, s) && Enabled(ids, s, step) && IsRecoveryStep(step)
    ensures t == Next(ids, s, step) && Valid(ids, t)
  {
    t := Next(ids, s, step);
  }

  lemma BeginKeepsValid(ids: seq<string>, s: Batch, step: Step) returns (t: Batch)
    requires Valid(ids, s) && Enabled(ids, s, step) && (step.Start? || step.Begin?)
    ensures t == Next(ids, s, step) && Valid(ids, t)
  {
    t := Next(ids, s, step);
  }

  lemma WriteKeepsValid(ids: seq<string>, s: Batch, file: FileId) returns (t: Batch)
    requires Valid(ids, s) && Enabled(ids, s, Write(file))
    ensures t == Next(ids, s, Write(file)) && Valid(ids, t)
  {
    if s.runner.stage.Finish? {
      t := FinishKeepsValid(ids, s, file);
    } else {
      t := WriteNext(s, s.runner, file);
      WriteFileKeepsValid(ids, s, file);
    }
  }

  lemma WorkerStepKeepsValid(ids: seq<string>, s: Batch, step: Step) returns (t: Batch)
    requires Valid(ids, s) && Enabled(ids, s, step) && !IsHandlerStep(step) && !IsRecoveryStep(step)
    ensures t == Next(ids, s, step) && Valid(ids, t)
  {
    match step
    case Complete(line) => t := CompleteKeepsValid(ids, s, line);
    case Collect => t := CollectKeepsValid(ids, s);
    case Write(file) => t := WriteKeepsValid(ids, s, file);
    case _ => t := BeginKeepsValid(ids, s, step);
  }

  lemma NextKeepsValid(ids: seq<string>, s: Batch, step: Step) returns (t: Batch)
    requires Valid(ids, s) && Enabled(ids, s, step)
    ensures t == Next(ids, s, step) && Valid(ids, t)
  {
    if IsHandlerStep(step) {
      t := HandlerStepKeepsValid(ids, s, step);
    } else if IsRecoveryStep(step) {
      t := RecoveryStepKeepsValid(ids, s, step);
    } else {
      t := WorkerStepKeepsValid(ids, s, step);
    }
  }

  lemma {:induction false} RunKeepsValid(ids: seq<string>, s: Batch, steps: seq<Step>)
    requires Valid(ids, s) && IsRun(ids, s, steps)
    ensures Valid(ids, After(ids, s, steps))
    decreases |steps|
  {
    if steps != [] {
      var t := NextKeepsValid(ids, s, steps[0]);
      RunKeepsValid(ids, t, steps[1..]);
    }
  }

  // ---------------------------------------------------------------- the main results

  /**
   In every run, with any order of completion and any interleaving of cancels, crashes and
   recoveries: the file ids of the stored record refer to a stored blob and stored metadata, and
   the files of a completed batch together list every custom id exactly once.
   */
  lemma EveryRunDelivers(ids: seq<string>, steps: seq<Step>)
    requires IsRun(ids, Created(), steps)
    ensures var s := After(ids, Created(), steps);
      && FileStored(s.files, s.record.outputFile) && FileStored(s.files, s.record.errorFile)
      && (s.record.status == Completed ==> ListsEachOnce(Delivered(s.files, s.record), ids))
  {
    RunKeepsValid(ids, Created(), steps);
  }
}
