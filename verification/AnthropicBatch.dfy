/**
 One Message Batch as a state machine: its runner, cancel handlers that read and write the record
 in two steps, recovery, and crashes, over durable storage that does not fail. The batch is not
 deleted while it is observed.
 */
module AnthropicBatch {
  import opened Wrappers
  import opened BatchItems

  // ---------------------------------------------------------------- records

  datatype Counts = Counts(processing: nat, succeeded: nat, errored: nat, canceled: nat, expired: nat)
  {
    function Sum(): nat {
      processing + succeeded + errored + canceled + expired
    }
  }

  const NO_COUNTS := Counts(0, 0, 0, 0, 0)

  datatype Status = InProgress | Canceling | Ended

  datatype Record = Record(status: Status, counts: Counts, cancelRequested: bool)

  datatype Outcome = Succeeded | Errored | Canceled

  // ---------------------------------------------------------------- the tally

  function Count(counts: Counts, outcome: Outcome): Counts {
    match outcome
    case Succeeded => counts.(succeeded := counts.succeeded + 1)
    case Errored => counts.(errored := counts.errored + 1)
    case Canceled => counts.(canceled := counts.canceled + 1)
  }

  function Tally(lines: seq<Line<Outcome>>): Counts {
    if lines == [] then NO_COUNTS else Count(Tally(lines[..|lines| - 1]), lines[|lines| - 1].outcome)
  }

  /** Each count is the number of lines with its outcome. */
  predicate ByOutcome(counts: Counts, lines: seq<Line<Outcome>>) {
    && counts.succeeded == |Only(lines, Succeeded)|
    && counts.errored == |Only(lines, Errored)|
    && counts.canceled == |Only(lines, Canceled)|
    && counts.processing == 0 && counts.expired == 0
  }

  lemma {:induction false} TallyIsByOutcome(lines: seq<Line<Outcome>>)
    ensures ByOutcome(Tally(lines), lines)
  {
    if lines != [] {
      TallyIsByOutcome(lines[..|lines| - 1]);
    }
  }

  method TallyResults(results: seq<Line<Outcome>>) returns (counts: Counts, lines: seq<Line<Outcome>>)
    ensures counts == Tally(results) && ByOutcome(counts, results)
    ensures lines == results
  {
    counts, lines := NO_COUNTS, [];
    for i := 0 to |results|
      invariant counts == Tally(results[..i]) && lines == results[..i]
    {
      assert results[..i + 1][..i] == results[..i];
      match results[i].outcome {
        case Canceled => counts := counts.(canceled := counts.canceled + 1);
        case Succeeded => counts := counts.(succeeded := counts.succeeded + 1);
        case Errored => counts := counts.(errored := counts.errored + 1);
      }
      lines := lines + [Line(results[i].customId, results[i].outcome)];
    }
    assert results[..|results|] == results;
    TallyIsByOutcome(results);
  }

  lemma {:induction false} TallySum(lines: seq<Line<Outcome>>)
    ensures Tally(lines).Sum() == |lines| && Tally(lines).processing == 0 && Tally(lines).expired == 0
  {
    if lines != [] {
      TallySum(lines[..|lines| - 1]);
    }
  }

  function CanceledLines(ids: seq<string>): (lines: seq<Line<Outcome>>)
    ensures |lines| == |ids|
    ensures forall i :: 0 <= i < |ids| ==> lines[i] == Line(ids[i], Canceled)
  {
    if ids == [] then [] else [Line(ids[0], Canceled)] + CanceledLines(ids[1..])
  }

  // ---------------------------------------------------------------- the machine

  /** The worker of a batch; it carries the record as it was when it was spawned. */
  datatype Runner =
    | Idle
    | Spawned(batch: Record)
    | Running(batch: Record, done: seq<Line<Outcome>>)
    | Refusing(batch: Record)
    | Finishing(batch: Record, counts: Counts)

  /** A cancel request that has read the record, and one that has written it but not yet signalled the worker. */
  datatype Handler = Loaded(snapshot: Record) | Signalling

  datatype Batch = Batch(
    record: Record,
    results: Option<seq<Line<Outcome>>>,
    runner: Runner,
    token: bool,
    handlers: seq<Handler>,
    recovering: Option<Record>)

  datatype Step =
    | Start
    | Complete(line: Line<Outcome>)
    | WriteResults
    | WriteCanceledResults
    | WriteRecord
    | CancelLoad
    | CancelStore(handler: nat)
    | CancelSignal(handler: nat)
    | RecoverRead
    | RecoverSpawn
    | Crash

  /** What create leaves behind before it spawns the worker. */
  function Created(ids: seq<string>): Batch {
    var record := Record(InProgress, NO_COUNTS.(processing := |ids|), false);
    Batch(record, None, Idle, false, [], Some(record))
  }

  /** An item ends canceled only after the worker was told to stop. */
  predicate Enabled(ids: seq<string>, s: Batch, step: Step) {
    match step
    case Start => s.runner.Spawned?
    case Complete(line) =>
      s.runner.Running? && line.customId in ids && !Listed(s.runner.done, line.customId)
      && (line.outcome == Canceled ==> s.token)
    case WriteResults => s.runner.Running? && |s.runner.done| == |ids|
    case WriteCanceledResults => s.runner.Refusing?
    case WriteRecord => s.runner.Finishing?
    case CancelLoad => s.record.status != Ended
    case CancelStore(h) => h < |s.handlers| && s.handlers[h].Loaded?
    case CancelSignal(h) => h < |s.handlers| && s.handlers[h].Signalling?
    case RecoverRead => s.record.status != Ended
    case RecoverSpawn => s.recovering.Some?
    case Crash => true
  }

  function Requested(r: Record): Record {
    r.(status := Canceling, cancelRequested := true)
  }

  function Finished(batch: Record, counts: Counts): Record {
    batch.(status := Ended, counts := counts.(processing := 0))
  }

  function Next(ids: seq<string>, s: Batch, step: Step): Batch
    requires Enabled(ids, s, step)
  {
    match step
    case Start =>
      var batch := s.runner.batch;
      s.(runner := if batch.cancelRequested || s.token then Refusing(batch) else Running(batch, []))
    case Complete(line) => s.(runner := s.runner.(done := s.runner.done + [line]))
    case WriteResults =>
      s.(results := Some(s.runner.done), runner := Finishing(s.runner.batch, Tally(s.runner.done)))
    case WriteCanceledResults =>
      s.(results := Some(CanceledLines(ids)), runner := Finishing(s.runner.batch, NO_COUNTS.(canceled := |ids|)))
    case WriteRecord => s.(record := Finished(s.runner.batch, s.runner.counts), runner := Idle, token := false)
    case CancelLoad => s.(handlers := s.handlers + [Loaded(s.record)])
    case CancelStore(h) => s.(record := Requested(s.handlers[h].snapshot), handlers := s.handlers[h := Signalling])
    case CancelSignal(h) =>
      s.(token := s.token || s.runner != Idle, handlers := s.handlers[..h] + s.handlers[h + 1..])
    case RecoverRead => s.(recovering := Some(s.record))
    case RecoverSpawn =>
      if s.runner == Idle then s.(runner := Spawned(s.recovering.value), recovering := None) else s.(recovering := None)
    case Crash => s.(runner := Idle, token := false, handlers := [], recovering := None)
  }

  predicate IsRun(ids: seq<string>, s: Batch, steps: seq<Step>)
    decreases |steps|
  {
    steps == [] || (Enabled(ids, s, steps[0]) && IsRun(ids, Next(ids, s, steps[0]), steps[1..]))
  }

  function After(ids: seq<string>, s: Batch, steps: seq<Step>): Batch
    requires IsRun(ids, s, steps)
    decreases |steps|
  {
    if steps == [] then s else After(ids, Next(ids, s, steps[0]), steps[1..])
  }

  /** A run, and where it ends. */
  predicate Reaches(ids: seq<string>, s: Batch, steps: seq<Step>, t: Batch) {
    IsRun(ids, s, steps) && After(ids, s, steps) == t
  }

  lemma Then(ids: seq<string>, s: Batch, steps: seq<Step>, t: Batch, step: Step) returns (more: seq<Step>)
    requires Reaches(ids, s, steps, t) && Enabled(ids, t, step)
    ensures Reaches(ids, s, more, Next(ids, t, step))
  {
    more := steps + [step];
    assert [step][1..] == [];
    assert IsRun(ids, Next(ids, t, step), [step][1..]);
    RunConcat(ids, s, steps, [step]);
  }

  lemma {:induction false} RunConcat(ids: seq<string>, s: Batch, first: seq<Step>, second: seq<Step>)
    requires IsRun(ids, s, first) && IsRun(ids, After(ids, s, first), second)
    ensures IsRun(ids, s, first + second) && After(ids, s, first + second) == After(ids, After(ids, s, first), second)
    decreases |first|
  {
    if first == [] {
      assert first + second == second;
    } else {
      assert (first + second)[1..] == first[1..] + second;
      RunConcat(ids, Next(ids, s, first[0]), first[1..], second);
    }
  }

  // ---------------------------------------------------------------- the invariant

  /** All requests are accounted for. */
  predicate Accounted(ids: seq<string>, r: Record) {
    r.counts.Sum() == |ids| && (r.status == Ended ==> r.counts.processing == 0)
  }

  predicate RunnerValid(ids: seq<string>, s: Batch) {
    match s.runner
    case Idle => !s.token
    case Spawned(batch) => Accounted(ids, batch)
    case Refusing(batch) => Accounted(ids, batch)
    case Running(batch, done) =>
      Accounted(ids, batch) && DistinctLines(done) && forall i :: 0 <= i < |done| ==> done[i].customId in ids
    case Finishing(batch, counts) =>
      counts.Sum() == |ids| && counts.processing == 0 && s.results.Some? && counts == Tally(s.results.value)
  }

  predicate Valid(ids: seq<string>, s: Batch) {
    && Accounted(ids, s.record)
    && (s.results.Some? ==> ListsEachOnce(s.results.value, ids))
    && (s.record.status == Ended ==> s.results.Some?)
    && RunnerValid(ids, s)
    && (forall h :: 0 <= h < |s.handlers| && s.handlers[h].Loaded? ==> Accounted(ids, s.handlers[h].snapshot))
    && (s.recovering.Some? ==> Accounted(ids, s.recovering.value))
  }

  lemma CanceledListsEachOnce(ids: seq<string>)
    requires Distinct(ids)
    ensures ListsEachOnce(CanceledLines(ids), ids)
    ensures Tally(CanceledLines(ids)) == NO_COUNTS.(canceled := |ids|)
  {
    var lines := CanceledLines(ids);
    forall i | 0 <= i < |ids| ensures Listed(lines, ids[i]) {
      assert lines[i].customId == ids[i];
    }
    AllCanceledTally(lines);
  }

  lemma {:induction false} AllCanceledTally(lines: seq<Line<Outcome>>)
    requires forall i :: 0 <= i < |lines| ==> lines[i].outcome == Canceled
    ensures Tally(lines) == NO_COUNTS.(canceled := |lines|)
  {
    if lines != [] {
      AllCanceledTally(lines[..|lines| - 1]);
    }
  }

  lemma CompleteKeepsValid(ids: seq<string>, s: Batch, line: Line<Outcome>)
    requires Valid(ids, s) && Enabled(ids, s, Complete(line))
    ensures Valid(ids, Next(ids, s, Complete(line)))
  {
    var done := s.runner.done + [line];
    forall i, j | 0 <= i < j < |done| ensures done[i].customId != done[j].customId {
      if j == |done| - 1 {
        assert s.runner.done[i] == done[i];
      }
    }
  }

  predicate IsHandlerStep(step: Step) {
    step.CancelLoad? || step.CancelStore? || step.CancelSignal?
  }

  predicate IsRecoveryStep(step: Step) {
    step.RecoverRead? || step.RecoverSpawn? || step.Crash?
  }

  lemma HandlerStepKeepsValid(ids: seq<string>, s: Batch, step: Step)
    requires Valid(ids, s) && Enabled(ids, s, step) && IsHandlerStep(step)
    ensures Valid(ids, Next(ids, s, step))
  {
  }

  lemma RecoveryStepKeepsValid(ids: seq<string>, s: Batch, step: Step)
    requires Valid(ids, s) && Enabled(ids, s, step) && IsRecoveryStep(step)
    ensures Valid(ids, Next(ids, s, step))
  {
  }

  lemma ResultsKeepValid(ids: seq<string>, s: Batch, step: Step)
    requires Distinct(ids) && Valid(ids, s) && Enabled(ids, s, step)
             && (step.WriteResults? || step.WriteCanceledResults?)
    ensures Valid(ids, Next(ids, s, step))
  {
    if step.WriteResults? {
      FullListCoversAll(s.runner.done, ids);
      TallySum(s.runner.done);
    } else {
      CanceledListsEachOnce(ids);
    }
  }

  lemma NextKeepsValid(ids: seq<string>, s: Batch, step: Step)
    requires Distinct(ids) && Valid(ids, s) && Enabled(ids, s, step)
    ensures Valid(ids, Next(ids, s, step))
  {
    match step
    case Complete(line) => CompleteKeepsValid(ids, s, line);
    case WriteResults => ResultsKeepValid(ids, s, step);
    case WriteCanceledResults => ResultsKeepValid(ids, s, step);
    case _ =>
      if IsHandlerStep(step) {
        HandlerStepKeepsValid(ids, s, step);
      } else if IsRecoveryStep(step) {
        RecoveryStepKeepsValid(ids, s, step);
      }
  }

  lemma {:induction false} RunKeepsValid(ids: seq<string>, s: Batch, steps: seq<Step>)
    requires Distinct(ids) && Valid(ids, s) && IsRun(ids, s, steps)
    ensures Valid(ids, After(ids, s, steps))
    decreases |steps|
  {
    if steps != [] {
      NextKeepsValid(ids, s, steps[0]);
      RunKeepsValid(ids, Next(ids, s, steps[0]), steps[1..]);
    }
  }

  /**
   However running, cancelling, crashing and recovering interleave, and in whatever order the
   items complete: the five counts of the stored record always add up to the number of requests,
   an ended batch has its results stored, and stored results list every custom id exactly once.
   */
  lemma EveryRunConservesRequests(ids: seq<string>, steps: seq<Step>)
    requires Distinct(ids) && IsRun(ids, Created(ids), steps)
    ensures var s := After(ids, Created(ids), steps);
      && s.record.counts.Sum() == |ids|
      && (s.record.status == Ended ==> s.results.Some? && s.record.counts.processing == 0)
      && (s.results.Some? ==> ListsEachOnce(s.results.value, ids))
  {
    RunKeepsValid(ids, Created(ids), steps);
  }

  /**
   Write ordering: when a worker ends a batch, the stored results are there, and each count is the
   number of stored results with its outcome.
   */
  lemma EndingMatchesResults(ids: seq<string>, steps: seq<Step>)
    requires Distinct(ids) && IsRun(ids, Created(ids), steps)
    requires Enabled(ids, After(ids, Created(ids), steps), WriteRecord)
    ensures var s := Next(ids, After(ids, Created(ids), steps), WriteRecord);
      && s.record.status == Ended && s.results.Some?
      && ByOutcome(s.record.counts, s.results.value)
  {
    RunKeepsValid(ids, Created(ids), steps);
    TallyIsByOutcome(After(ids, Created(ids), steps).results.value);
  }

  // ---------------------------------------------------------------- absorption

  predicate CancelInFlight(s: Batch) {
    exists h :: 0 <= h < |s.handlers| && s.handlers[h].Loaded?
  }

  lemma {:induction false} EndedStays(ids: seq<string>, s: Batch, steps: seq<Step>)
    requires s.record.status == Ended && !CancelInFlight(s) && IsRun(ids, s, steps)
    ensures After(ids, s, steps).record.status == Ended
    decreases |steps|
  {
    if steps != [] {
      EndedStays(ids, Next(ids, s, steps[0]), steps[1..]);
    }
  }

  /**
   When `ended` is final: exactly when no cancel request has read the record and not yet written
   it. Otherwise that request overwrites the ended record with the older one it has read.
   */
  lemma EndedIsAbsorbingIff(ids: seq<string>, s: Batch)
    requires s.record.status == Ended
    ensures (forall steps: seq<Step> :: IsRun(ids, s, steps) ==> After(ids, s, steps).record.status == Ended)
       <==> !CancelInFlight(s)
  {
    if CancelInFlight(s) {
      var h :| 0 <= h < |s.handlers| && s.handlers[h].Loaded?;
      StoreUndoes(ids, s, h);
    } else {
      forall steps: seq<Step> | IsRun(ids, s, steps) ensures After(ids, s, steps).record.status == Ended {
        EndedStays(ids, s, steps);
      }
    }
  }

  lemma StoreUndoes(ids: seq<string>, s: Batch, h: nat)
    requires h < |s.handlers| && s.handlers[h].Loaded?
    ensures exists steps: seq<Step> :: IsRun(ids, s, steps) && After(ids, s, steps).record.status == Canceling
  {
    var steps := Then(ids, s, [], s, CancelStore(h));
  }

  /** And such a request can be in flight: a batch that has ended is set back to `canceling`. */
  lemma EndedCanBeUndone(id: string) returns (steps: seq<Step>, more: seq<Step>)
    ensures IsRun([id], Created([id]), steps) && After([id], Created([id]), steps).record.status == Ended
    ensures var s := After([id], Created([id]), steps);
      IsRun([id], s, more) && After([id], s, more).record.status == Canceling
  {
    var ids, line, s := [id], Line(id, Succeeded), Created([id]);
    var t := Next(ids, s, RecoverSpawn);
    steps := Then(ids, s, [], s, RecoverSpawn);
    steps := Then(ids, s, steps, t, CancelLoad);
    steps, t := RunOfOne(ids, s, steps, Next(ids, t, CancelLoad), line);
    more := Then(ids, t, [], t, CancelStore(0));
  }

  /** A worker that has one item to complete, and is not told to stop. */
  lemma RunOfOne(ids: seq<string>, from: Batch, steps: seq<Step>, s: Batch, line: Line<Outcome>)
    returns (more: seq<Step>, t: Batch)
    requires ids == [line.customId] && line.outcome == Succeeded && Reaches(ids, from, steps, s)
    requires s.runner.Spawned? && !s.runner.batch.cancelRequested && !s.token
    ensures Reaches(ids, from, more, t)
    ensures t == s.(record := Finished(s.runner.batch, Tally([line])), results := Some([line]), runner := Idle)
  {
    var s1 := Next(ids, s, Start);
    var s2 := Next(ids, s1, Complete(line));
    var s3 := Next(ids, s2, WriteResults);
    assert [] + [line] == [line];
    more := Then(ids, from, steps, s, Start);
    more := Then(ids, from, more, s1, Complete(line));
    more := Then(ids, from, more, s2, WriteResults);
    more := Then(ids, from, more, s3, WriteRecord);
    t := Next(ids, s3, WriteRecord);
  }
}
