/** What a cancel request brings about, and what a crash and a recovery leave. */
module BatchCancels {
  import opened Wrappers
  import opened BatchItems
  import A = AnthropicBatch
  import O = OpenAiBatch

  // ---------------------------------------------------------------- message batches

  /** The request has been signalled to a worker that has not started. */
  predicate TurnsAway(s: A.Batch) {
    match s.runner
    case Spawned(batch) => s.token || batch.cancelRequested
    case Refusing(batch) => true
    case _ => false
  }

  predicate AllTurnedAway(ids: seq<string>, s: A.Batch) {
    s.runner.Finishing? && s.runner.counts == A.NO_COUNTS.(canceled := |ids|)
  }

  predicate EndedAllCanceled(ids: seq<string>, s: A.Batch) {
    s.runner.Idle? && s.record.status == A.Ended && s.record.counts == A.NO_COUNTS.(canceled := |ids|)
  }

  /** The signal reaches the worker, whatever it is doing: from then on every item left may end canceled. */
  lemma SignalReachesWorker(ids: seq<string>, s: A.Batch, h: nat, id: string)
    requires A.Enabled(ids, s, A.CancelSignal(h)) && s.runner != A.Idle
    ensures var t := A.Next(ids, s, A.CancelSignal(h));
      && t.record == s.record && t.results == s.results && t.runner == s.runner && |t.handlers| == |s.handlers| - 1
      && (s.runner.Spawned? ==> TurnsAway(t))
      && (s.runner.Running? && id in ids && !Listed(s.runner.done, id) ==>
            A.Enabled(ids, t, A.Complete(Line(id, A.Canceled))))
  {
  }

  /** Unless it crashes, a worker that is turned away goes on to end the batch with every request canceled. */
  lemma TurnedAwayEndsCanceled(ids: seq<string>, s: A.Batch, step: A.Step)
    requires A.Enabled(ids, s, step) && step != A.Crash
    requires TurnsAway(s) || AllTurnedAway(ids, s)
    ensures var t := A.Next(ids, s, step);
      TurnsAway(t) || AllTurnedAway(ids, t) || EndedAllCanceled(ids, t)
  {
  }

  /** The run belongs to one worker, which does not crash: it is at work before every step. */
  predicate OneWorker(ids: seq<string>, s: A.Batch, steps: seq<A.Step>)
    requires A.IsRun(ids, s, steps)
    decreases |steps|
  {
    steps == [] || (s.runner != A.Idle && steps[0] != A.Crash && OneWorker(ids, A.Next(ids, s, steps[0]), steps[1..]))
  }

  /** A worker that is signalled before it starts, or whose record says so, ends with every request canceled. */
  lemma {:induction false} TurnedAwayWorkerCancelsAll(ids: seq<string>, s: A.Batch, steps: seq<A.Step>)
    requires A.IsRun(ids, s, steps) && OneWorker(ids, s, steps)
    requires TurnsAway(s) || AllTurnedAway(ids, s) || EndedAllCanceled(ids, s)
    ensures var t := A.After(ids, s, steps);
      t.runner == A.Idle ==> t.record.status == A.Ended && t.record.counts == A.NO_COUNTS.(canceled := |ids|)
    decreases |steps|
  {
    if steps != [] {
      TurnedAwayEndsCanceled(ids, s, steps[0]);
      TurnedAwayWorkerCancelsAll(ids, A.Next(ids, s, steps[0]), steps[1..]);
    }
  }

  /** The record as the worker took it over. */
  function TakenOver(runner: A.Runner): A.Record
    requires runner != A.Idle
  {
    runner.batch
  }

  /**
   A worker ends its batch with the request for a cancel as it was when it took the record over: one
   that is written in the meantime is not in the ended record.
   */
  lemma {:induction false} WorkerWritesBackItsRequest(ids: seq<string>, s: A.Batch, steps: seq<A.Step>)
    requires A.IsRun(ids, s, steps) && OneWorker(ids, s, steps) && s.runner != A.Idle
    ensures var t := A.After(ids, s, steps);
      && (t.runner == A.Idle ==>
            t.record.status == A.Ended && t.record.cancelRequested == TakenOver(s.runner).cancelRequested)
      && (t.runner != A.Idle ==> TakenOver(t.runner) == TakenOver(s.runner))
    decreases |steps|
  {
    if steps != [] {
      var t := A.Next(ids, s, steps[0]);
      if t.runner == A.Idle {
        assert steps[1..] == [];
      } else {
        WorkerWritesBackItsRequest(ids, t, steps[1..]);
      }
    }
  }

  /** A crash leaves the stored record and results alone, and a recovery works on exactly that record. */
  lemma RecoveryResumesTheRecord(ids: seq<string>, s: A.Batch) returns (steps: seq<A.Step>, t: A.Batch)
    requires s.record.status != A.Ended
    ensures A.Reaches(ids, s, steps, t)
    ensures t == A.Batch(s.record, s.results, A.Spawned(s.record), false, [], None)
  {
    var crashed := A.Next(ids, s, A.Crash);
    var read := A.Next(ids, crashed, A.RecoverRead);
    steps := A.Then(ids, s, [], s, A.Crash);
    steps := A.Then(ids, s, steps, crashed, A.RecoverRead);
    steps := A.Then(ids, s, steps, read, A.RecoverSpawn);
    t := A.Next(ids, read, A.RecoverSpawn);
  }

  // ---------------------------------------------------------------- batches over files

  /** A worker that has been told to stop, or works on a record that says so. */
  predicate Doomed(s: O.Batch) {
    match s.runner
    case Idle => false
    case Spawned(batch) => s.token || batch.cancelRequested
    case Checked(batch) => s.token || batch.cancelRequested
    case Running(batch, _) => s.token || batch.cancelRequested
    case Writing(_, _, _, cancelled, _) => cancelled
  }

  lemma SignalDooms(ids: seq<string>, s: O.Batch, h: nat)
    requires O.Enabled(ids, s, O.CancelSignal(h)) && s.runner != O.Idle && !s.runner.Writing?
    ensures var t := O.Next(ids, s, O.CancelSignal(h));
      Doomed(t) && t.record == s.record && t.runner == s.runner && t.files == s.files
  {
  }

  /** A worker told to stop before it tallies its items ends the batch cancelled, never completed, unless it crashes. */
  lemma DoomedEndsCancelled(ids: seq<string>, s: O.Batch, step: O.Step)
    requires O.Enabled(ids, s, step) && step != O.Crash && Doomed(s)
    ensures var t := O.Next(ids, s, step);
      Doomed(t) || (t.runner == O.Idle && t.record.status == O.Cancelled)
  {
  }

  /** And without a request, and without stopped items, it goes on to complete the batch. */
  predicate Completing(s: O.Batch) {
    s.runner.Writing? && !s.runner.cancelled
  }

  lemma UndisturbedCompletes(ids: seq<string>, s: O.Batch, step: O.Step)
    requires O.Enabled(ids, s, step) && step != O.Crash
    requires Completing(s) || (step.Collect? && !Doomed(s) && Only(s.runner.done, O.Stopped) == [])
    ensures var t := O.Next(ids, s, step);
      Completing(t) || (t.runner == O.Idle && t.record.status == O.Completed)
  {
  }

  predicate OneRunner(ids: seq<string>, s: O.Batch, steps: seq<O.Step>)
    requires O.IsRun(ids, s, steps)
    decreases |steps|
  {
    steps == [] || (s.runner != O.Idle && steps[0] != O.Crash && OneRunner(ids, O.Next(ids, s, steps[0]), steps[1..]))
  }

  /** A worker that is told to stop before it tallies its items ends its batch cancelled. */
  lemma {:induction false} DoomedWorkerEndsCancelled(ids: seq<string>, s: O.Batch, steps: seq<O.Step>)
    requires O.IsRun(ids, s, steps) && OneRunner(ids, s, steps)
    requires Doomed(s) || (s.runner == O.Idle && s.record.status == O.Cancelled)
    ensures var t := O.After(ids, s, steps);
      t.runner == O.Idle ==> t.record.status == O.Cancelled
    decreases |steps|
  {
    if steps != [] {
      DoomedEndsCancelled(ids, s, steps[0]);
      DoomedWorkerEndsCancelled(ids, O.Next(ids, s, steps[0]), steps[1..]);
    }
  }

  /** A worker that has tallied its items undisturbed completes its batch, whatever happens on the way. */
  lemma {:induction false} UndisturbedWorkerCompletes(ids: seq<string>, s: O.Batch, steps: seq<O.Step>)
    requires O.IsRun(ids, s, steps) && OneRunner(ids, s, steps)
    requires Completing(s) || (s.runner == O.Idle && s.record.status == O.Completed)
    ensures var t := O.After(ids, s, steps);
      t.runner == O.Idle ==> t.record.status == O.Completed
    decreases |steps|
  {
    if steps != [] {
      UndisturbedCompletes(ids, s, steps[0]);
      UndisturbedWorkerCompletes(ids, O.Next(ids, s, steps[0]), steps[1..]);
    }
  }

  lemma RecoveryResumesTheBatch(ids: seq<string>, s: O.Batch) returns (steps: seq<O.Step>, t: O.Batch)
    requires !O.IsTerminal(s.record.status)
    ensures O.Reaches(ids, s, steps, t)
    ensures t == O.Batch(s.record, s.files, O.Spawned(s.record), false, [], None)
  {
    var crashed := O.Next(ids, s, O.Crash);
    var read := O.Next(ids, crashed, O.RecoverRead);
    steps := O.Then(ids, s, [], s, O.Crash);
    steps := O.Then(ids, s, steps, crashed, O.RecoverRead);
    steps := O.Then(ids, s, steps, read, O.RecoverSpawn);
    t := O.Next(ids, read, O.RecoverSpawn);
  }
}
