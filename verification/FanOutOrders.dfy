/** In which orders the children of a request can complete, and which failure a fan-out reports. */
module FanOutOrders {
  import opened Wrappers
  import opened KernelTypes
  import opened ModelProvider
  import opened FanOut

  /** A completion order that some run of the pool has. */
  ghost predicate Reachable(done: seq<nat>, n: nat, limit: nat) {
    exists events: seq<Event> :: IsRun(IDLE, n, limit, events) && After(IDLE, events) == Pool(n, {}, done)
  }

  ghost predicate Reaches(p: Pool, n: nat, limit: nat, events: seq<Event>, q: Pool) {
    IsRun(p, n, limit, events) && After(p, events) == q
  }

  lemma {:induction false} RunConcat(p: Pool, n: nat, limit: nat, first: seq<Event>, q: Pool, second: seq<Event>)
    requires Reaches(p, n, limit, first, q) && IsRun(q, n, limit, second)
    ensures Reaches(p, n, limit, first + second, After(q, second))
    decreases |first|
  {
    if first == [] {
      assert first + second == second;
    } else {
      assert (first + second)[1..] == first[1..] + second;
      RunConcat(Next(p, first[0]), n, limit, first[1..], q, second);
    }
  }

  lemma Then(p: Pool, n: nat, limit: nat, events: seq<Event>, q: Pool, e: Event) returns (more: seq<Event>)
    requires Reaches(p, n, limit, events, q) && Valid(q, n, limit) && Enabled(q, n, limit, e)
    ensures Reaches(p, n, limit, more, Next(q, e)) && Valid(Next(q, e), n, limit)
  {
    more := events + [e];
    assert [e][1..] == [];
    assert After(q, [e]) == After(Next(q, e), [e][1..]);
    RunConcat(p, n, limit, events, q, [e]);
    NextKeepsValid(q, n, limit, e);
  }

  // ---------------------------------------------------------------- the orders of a bounded pool

  /** No child completes before fewer than `limit` of those that start ahead of it are still out. */
  predicate WithinWindow(done: seq<nat>, limit: nat) {
    forall k :: 0 <= k < |done| ==> done[k] < k + limit
  }

  lemma NextKeepsWindow(p: Pool, n: nat, limit: nat, e: Event)
    requires Valid(p, n, limit) && Enabled(p, n, limit, e) && WithinWindow(p.done, limit)
    ensures WithinWindow(Next(p, e).done, limit)
  {
    DoneIsBounded(p, n, limit);
  }

  lemma {:induction false} RunKeepsWindow(p: Pool, n: nat, limit: nat, events: seq<Event>)
    requires Valid(p, n, limit) && IsRun(p, n, limit, events) && WithinWindow(p.done, limit)
    ensures Valid(After(p, events), n, limit) && WithinWindow(After(p, events).done, limit)
    decreases |events|
  {
    if events != [] {
      NextKeepsValid(p, n, limit, events[0]);
      NextKeepsWindow(p, n, limit, events[0]);
      RunKeepsWindow(Next(p, events[0]), n, limit, events[1..]);
    }
  }

  /** Starting children until one of them has started. */
  lemma {:induction false} StartUntil(n: nat, limit: nat, events: seq<Event>, p: Pool, target: nat)
    returns (more: seq<Event>, q: Pool)
    requires Reaches(IDLE, n, limit, events, p) && Valid(p, n, limit) && target < n && target < |p.done| + limit
    ensures Reaches(IDLE, n, limit, more, q) && Valid(q, n, limit) && target < q.started && q.done == p.done
    decreases n - p.started
  {
    more, q := events, p;
    if p.started <= target {
      DoneIsBounded(p, n, limit);
      more := Then(IDLE, n, limit, events, p, Start);
      more, q := StartUntil(n, limit, more, Next(p, Start), target);
    }
  }

  /** A run that has completed the first `k` children of an order. */
  lemma {:induction false} RunOfPrefix(done: seq<nat>, n: nat, limit: nat, k: nat) returns (events: seq<Event>, p: Pool)
    requires IsOrder(done, n) && WithinWindow(done, limit) && k <= n
    ensures Reaches(IDLE, n, limit, events, p) && Valid(p, n, limit) && p.done == done[..k]
  {
    if k == 0 {
      events, p := [], IDLE;
    } else {
      events, p := RunOfPrefix(done, n, limit, k - 1);
      events, p := StartUntil(n, limit, events, p, done[k - 1]);
      assert done[k - 1] !in p.done;
      events := Then(IDLE, n, limit, events, p, Finish(done[k - 1]));
      p := Next(p, Finish(done[k - 1]));
    }
  }

  lemma CompleteWhenAllDone(p: Pool, n: nat, limit: nat)
    requires Valid(p, n, limit) && IsOrder(p.done, n)
    ensures p == Pool(n, {}, p.done)
  {
    DoneIsBounded(p, n, limit);
  }

  /** The completion orders of the pool: every child once, and each within the window of those that may run. */
  lemma ReachableOrders(done: seq<nat>, n: nat, limit: nat)
    ensures Reachable(done, n, limit) <==> IsOrder(done, n) && WithinWindow(done, limit)
  {
    if Reachable(done, n, limit) {
      var events :| IsRun(IDLE, n, limit, events) && After(IDLE, events) == Pool(n, {}, done);
      RunKeepsWindow(IDLE, n, limit, events);
      AllDone(After(IDLE, events), n, limit);
    }
    if IsOrder(done, n) && WithinWindow(done, limit) {
      var events, p := RunOfPrefix(done, n, limit, n);
      assert done[..n] == done;
      CompleteWhenAllDone(p, n, limit);
    }
  }

  // ---------------------------------------------------------------- the failure that is reported

  /** The failed replies ahead of one. */
  function FailuresBefore(replies: seq<Reply>, i: nat): set<nat>
    requires i <= |replies|
  {
    set j | 0 <= j < i && replies[j].Failure?
  }

  /** A failed reply among the first `limit` failures, in task order. */
  predicate CanBeReported(replies: seq<Reply>, limit: nat, i: nat) {
    i < |replies| && replies[i].Failure? && |FailuresBefore(replies, i)| < limit
  }

  /** A schedule of the children with these replies. */
  ghost predicate Completes(replies: seq<Reply>, limit: nat, done: seq<nat>)
    ensures Completes(replies, limit, done) ==> IsOrder(done, |replies|)
  {
    ReachableOrders(done, |replies|, limit);
    Reachable(done, |replies|, limit)
  }

  ghost predicate Reports(replies: seq<Reply>, limit: nat, error: KernelError) {
    exists i: nat :: CanBeReported(replies, limit, i) && replies[i] == Failure(error)
  }

  lemma {:induction false} CollectSnoc(replies: seq<Reply>, done: seq<nat>, last: nat)
    requires last < |replies| && forall i :: 0 <= i < |done| ==> done[i] < |replies|
    ensures Collect(replies, done).Failure? ==> Collect(replies, done + [last]) == Collect(replies, done)
    ensures Collect(replies, done).Success? && replies[last].Success? ==> Collect(replies, done + [last]).Success?
    ensures Collect(replies, done).Success? && replies[last].Failure? ==>
              Collect(replies, done + [last]) == Failure(replies[last].error)
  {
    if done == [] {
      assert [last][1..] == [];
      assert [] + [last] == [last];
    } else {
      CollectSnoc(replies, done[1..], last);
      assert (done + [last])[1..] == done[1..] + [last];
    }
  }

  /** What a pool has collected so far. */
  ghost predicate CollectedEarly(replies: seq<Reply>, limit: nat, p: Pool)
    requires forall i :: 0 <= i < |p.done| ==> p.done[i] < |replies|
  {
    match Collect(replies, p.done)
    case Success(_) => forall i :: i in p.done ==> i < |replies| && replies[i].Success?
    case Failure(error) => Reports(replies, limit, error)
  }

  /** The failures ahead of the first one to complete are all still running. */
  lemma FirstFailureCanBeReported(replies: seq<Reply>, limit: nat, p: Pool, i: nat)
    requires Valid(p, |replies|, limit) && i in p.inFlight && i < |replies| && replies[i].Failure?
    requires forall k :: k in p.done ==> k < |replies| && replies[k].Success?
    ensures CanBeReported(replies, limit, i)
  {
    var ahead := FailuresBefore(replies, i);
    assert ahead <= p.inFlight - {i};
    SubsetSize(ahead, p.inFlight - {i});
  }

  lemma {:induction false} SubsetSize(a: set<nat>, b: set<nat>)
    requires a <= b
    ensures |a| <= |b|
    decreases a
  {
    if a != {} {
      var x :| x in a;
      SubsetSize(a - {x}, b - {x});
    }
  }

  lemma StartedIsBelow(p: Pool, n: nat, limit: nat)
    requires Valid(p, n, limit)
    ensures forall i :: i in p.inFlight || i in p.done ==> i < n
    ensures forall i :: 0 <= i < |p.done| ==> p.done[i] < n
  {
    forall i | 0 <= i < |p.done| ensures p.done[i] < n {
      assert p.done[i] in p.done;
    }
  }

  lemma {:induction false} RunCollectsEarly(replies: seq<Reply>, limit: nat, p: Pool, events: seq<Event>)
    requires Valid(p, |replies|, limit) && IsRun(p, |replies|, limit, events)
    requires forall i :: 0 <= i < |p.done| ==> p.done[i] < |replies|
    requires CollectedEarly(replies, limit, p)
    ensures Valid(After(p, events), |replies|, limit)
    ensures forall i :: 0 <= i < |After(p, events).done| ==> After(p, events).done[i] < |replies|
    ensures CollectedEarly(replies, limit, After(p, events))
    decreases |events|
  {
    if events != [] {
      var q := Next(p, events[0]);
      NextKeepsValid(p, |replies|, limit, events[0]);
      StartedIsBelow(p, |replies|, limit);
      StartedIsBelow(q, |replies|, limit);
      if events[0].Finish? {
        var i := events[0].index;
        CollectSnoc(replies, p.done, i);
        if Collect(replies, p.done).Success? && replies[i].Failure? {
          FirstFailureCanBeReported(replies, limit, p, i);
        }
      }
      RunCollectsEarly(replies, limit, q, events[1..]);
    }
  }

  // ---------------------------------------------------------------- a run that reports a given failure

  lemma FailuresStep(replies: seq<Reply>, i: nat)
    requires i < |replies|
    ensures FailuresBefore(replies, i + 1) == FailuresBefore(replies, i) + if replies[i].Failure? then {i} else {}
    ensures |FailuresBefore(replies, i)| <= |FailuresBefore(replies, i + 1)|
  {
    SubsetSize(FailuresBefore(replies, i), FailuresBefore(replies, i + 1));
  }

  /** Starting the children one by one, and finishing at once those that succeed. */
  lemma {:induction false} RunPastSuccesses(replies: seq<Reply>, limit: nat, i: nat)
    returns (events: seq<Event>, p: Pool)
    requires i <= |replies| && (i == 0 || |FailuresBefore(replies, i - 1)| < limit)
    ensures Reaches(IDLE, |replies|, limit, events, p) && PastSuccesses(replies, limit, p, i)
  {
    if i == 0 {
      events, p := [], IDLE;
    } else {
      if i > 1 {
        FailuresStep(replies, i - 2);
      }
      events, p := RunPastSuccesses(replies, limit, i - 1);
      events, p := OneMorePast(replies, limit, events, p, i - 1, i);
    }
  }

  /** All children up to `i` have started, and those of them that succeed have finished. */
  ghost predicate PastSuccesses(replies: seq<Reply>, limit: nat, p: Pool, i: nat)
    requires i <= |replies|
  {
    && Valid(p, |replies|, limit) && p.started == i && p.inFlight == FailuresBefore(replies, i)
    && (forall k :: 0 <= k < |p.done| ==> p.done[k] < |replies|)
    && Collect(replies, p.done).Success?
  }

  lemma OneMorePast(replies: seq<Reply>, limit: nat, events: seq<Event>, p: Pool, i: nat, next: nat)
    returns (more: seq<Event>, q: Pool)
    requires i < |replies| && next == i + 1 && |FailuresBefore(replies, i)| < limit
    requires Reaches(IDLE, |replies|, limit, events, p) && PastSuccesses(replies, limit, p, i)
    ensures Reaches(IDLE, |replies|, limit, more, q) && PastSuccesses(replies, limit, q, next)
  {
    FailuresStep(replies, i);
    more := Then(IDLE, |replies|, limit, events, p, Start);
    q := Next(p, Start);
    if replies[i].Success? {
      more, q := FinishOne(replies, limit, more, q, i);
      assert q.inFlight == FailuresBefore(replies, i);
    }
  }

  lemma FinishOne(replies: seq<Reply>, limit: nat, events: seq<Event>, p: Pool, i: nat)
    returns (more: seq<Event>, q: Pool)
    requires Reaches(IDLE, |replies|, limit, events, p) && Valid(p, |replies|, limit)
    requires i < |replies| && i in p.inFlight && forall k :: 0 <= k < |p.done| ==> p.done[k] < |replies|
    ensures q == p.(inFlight := p.inFlight - {i}, done := p.done + [i])
    ensures Reaches(IDLE, |replies|, limit, more, q) && Valid(q, |replies|, limit)
    ensures forall k :: 0 <= k < |q.done| ==> q.done[k] < |replies|
    ensures Collect(replies, p.done).Success? && replies[i].Success? ==> Collect(replies, q.done).Success?
    ensures Collect(replies, p.done).Success? && replies[i].Failure? ==>
              Collect(replies, q.done) == Failure(replies[i].error)
  {
    q := Next(p, Finish(i));
    CollectSnoc(replies, p.done, i);
    more := Then(IDLE, |replies|, limit, events, p, Finish(i));
  }

  /** Any run can be continued until all children have completed. */
  lemma {:induction false} RunToEnd(n: nat, limit: nat, events: seq<Event>, p: Pool)
    returns (more: seq<Event>, rest: seq<nat>)
    requires Reaches(IDLE, n, limit, events, p) && Valid(p, n, limit) && limit >= 1
    ensures Reaches(IDLE, n, limit, more, Pool(n, {}, p.done + rest))
    decreases 2 * n - p.started - |p.done|
  {
    DoneIsBounded(p, n, limit);
    if p.inFlight != {} {
      var i :| i in p.inFlight;
      more := Then(IDLE, n, limit, events, p, Finish(i));
      DoneIsBounded(Next(p, Finish(i)), n, limit);
      more, rest := RunToEnd(n, limit, more, Next(p, Finish(i)));
      assert p.done + [i] + rest == p.done + ([i] + rest);
      rest := [i] + rest;
    } else if p.started < n {
      more := Then(IDLE, n, limit, events, p, Start);
      more, rest := RunToEnd(n, limit, more, Next(p, Start));
    } else {
      more, rest := events, [];
      assert p.done + [] == p.done;
    }
  }

  lemma {:induction false} CollectPrefix(replies: seq<Reply>, done: seq<nat>, rest: seq<nat>)
    requires forall i :: 0 <= i < |done + rest| ==> (done + rest)[i] < |replies|
    requires (forall i :: 0 <= i < |done| ==> done[i] < |replies|) && Collect(replies, done).Failure?
    ensures Collect(replies, done + rest) == Collect(replies, done)
  {
    if replies[done[0]].Success? {
      assert (done + rest)[1..] == done[1..] + rest;
      assert forall i :: 0 <= i < |done[1..] + rest| ==> (done[1..] + rest)[i] == (done + rest)[i + 1];
      CollectPrefix(replies, done[1..], rest);
    }
  }

  lemma RunThatReports(replies: seq<Reply>, limit: nat, i: nat) returns (done: seq<nat>)
    requires limit >= 1 && CanBeReported(replies, limit, i)
    ensures Completes(replies, limit, done)
    ensures Collect(replies, done) == Failure(replies[i].error)
  {
    var n := |replies|;
    if i > 0 {
      FailuresStep(replies, i - 1);
    }
    var events, p := RunPastSuccesses(replies, limit, i);
    events := Then(IDLE, n, limit, events, p, Start);
    var r;
    events, r := FinishOne(replies, limit, events, Next(p, Start), i);
    done := RunOnCollects(replies, limit, events, r);
  }

  /** A run that has collected a failure reports it at its end. */
  lemma RunOnCollects(replies: seq<Reply>, limit: nat, events: seq<Event>, r: Pool) returns (done: seq<nat>)
    requires limit >= 1 && Reaches(IDLE, |replies|, limit, events, r) && Valid(r, |replies|, limit)
    requires (forall k :: 0 <= k < |r.done| ==> r.done[k] < |replies|) && Collect(replies, r.done).Failure?
    ensures Completes(replies, limit, done) && Collect(replies, done) == Collect(replies, r.done)
  {
    var more, rest := RunToEnd(|replies|, limit, events, r);
    done := r.done + rest;
    assert Reachable(done, |replies|, limit);
    ReachableOrders(done, |replies|, limit);
    CollectPrefix(replies, r.done, rest);
  }

  /**
   Which failures a fan-out can report, over all runs of its pool: exactly those among the first
   `limit` failed children in task order.
   */
  lemma ReportedFailures(replies: seq<Reply>, limit: nat, error: KernelError)
    requires limit >= 1
    ensures (exists done: seq<nat> :: Completes(replies, limit, done) && Collect(replies, done) == Failure(error))
       <==> exists i: nat :: CanBeReported(replies, limit, i) && replies[i] == Failure(error)
  {
    if done: seq<nat> :| Completes(replies, limit, done) && Collect(replies, done) == Failure(error) {
      var events :| IsRun(IDLE, |replies|, limit, events) && After(IDLE, events) == Pool(|replies|, {}, done);
      RunCollectsEarly(replies, limit, IDLE, events);
      assert Reports(replies, limit, error);
    }
    if i: nat :| CanBeReported(replies, limit, i) && replies[i] == Failure(error) {
      var done := RunThatReports(replies, limit, i);
    }
  }

  /**
   When the reported failure does not depend on the schedule: exactly when the first `limit` failed
   children, in task order, carry the same error.
   */
  lemma ReportIsDeterminedIff(replies: seq<Reply>, limit: nat)
    requires limit >= 1 && !AllSucceed(replies)
    ensures (forall a: seq<nat>, b: seq<nat> ::
               Completes(replies, limit, a) && Completes(replies, limit, b) ==>
                 Collect(replies, a) == Collect(replies, b))
       <==> (forall i: nat, j: nat :: CanBeReported(replies, limit, i) && CanBeReported(replies, limit, j) ==>
               replies[i] == replies[j])
  {
    if forall i: nat, j: nat :: CanBeReported(replies, limit, i) && CanBeReported(replies, limit, j) ==>
      replies[i] == replies[j] {
      forall a: seq<nat>, b: seq<nat> | Completes(replies, limit, a) && Completes(replies, limit, b)
        ensures Collect(replies, a) == Collect(replies, b)
      {
        SomeFailureIsReported(replies, limit, a);
        SomeFailureIsReported(replies, limit, b);
      }
    } else {
      var i: nat, j: nat :| CanBeReported(replies, limit, i) && CanBeReported(replies, limit, j)
          && replies[i] != replies[j];
      var a := RunThatReports(replies, limit, i);
      var b := RunThatReports(replies, limit, j);
      assert Collect(replies, a) != Collect(replies, b);
    }
  }

  lemma SomeFailureIsReported(replies: seq<Reply>, limit: nat, done: seq<nat>)
    requires limit >= 1 && !AllSucceed(replies) && Completes(replies, limit, done)
    ensures exists i: nat :: CanBeReported(replies, limit, i) && Collect(replies, done) == Failure(replies[i].error)
  {
    var f :| 0 <= f < |replies| && replies[f].Failure?;
    assert f in done;
    var k :| 0 <= k < |done| && done[k] == f;
    CollectFails(replies, done);
    ReportedFailures(replies, limit, Collect(replies, done).error);
  }

  /** One at a time, the first failure in task order is reported. */
  lemma OneAtATimeReportsFirst(replies: seq<Reply>, first: nat, done: seq<nat>)
    requires first < |replies| && replies[first].Failure? && FailuresBefore(replies, first) == {}
    requires Completes(replies, 1, done)
    ensures Collect(replies, done) == Failure(replies[first].error)
  {
    SomeFailureIsReported(replies, 1, done);
    var i: nat :| CanBeReported(replies, 1, i) && Collect(replies, done) == Failure(replies[i].error);
    assert first in FailuresBefore(replies, i) || i <= first;
    assert i in FailuresBefore(replies, first) || first <= i;
  }

  /** Two at a time or more, two children with different errors make the report depend on the schedule. */
  lemma ReportedFailureDependsOnSchedule(limit: nat, one: KernelError, other: KernelError)
    returns (a: seq<nat>, b: seq<nat>)
    requires limit >= 2 && one != other
    ensures var replies: seq<Reply> := [Failure(one), Failure(other)];
      Completes(replies, limit, a) && Completes(replies, limit, b) && Collect(replies, a) == Failure(one)
      && Collect(replies, b) == Failure(other)
  {
    var replies: seq<Reply> := [Failure(one), Failure(other)];
    assert FailuresBefore(replies, 0) == {} && FailuresBefore(replies, 1) == {0};
    a := RunThatReports(replies, limit, 0);
    b := RunThatReports(replies, limit, 1);
  }
}
