/** The bounded, concurrent fan-out over the child tasks of a request. */
module FanOut {
  import opened Wrappers
  import opened Sequences
  import opened KernelTypes
  import opened KernelState
  import opened ModelProvider

  // ---------------------------------------------------------------- the pool

  /** What `buffer_unordered` has started, what is running, and what has completed, in that order. */
  datatype Pool = Pool(started: nat, inFlight: set<nat>, done: seq<nat>)

  datatype Event = Start | Finish(index: nat)

  const IDLE := Pool(0, {}, [])

  /** Children start in task order whenever there is room, and finish in any order. */
  predicate Enabled(p: Pool, n: nat, limit: nat, e: Event) {
    match e
    case Start => p.started < n && |p.inFlight| < limit
    case Finish(i) => i in p.inFlight
  }

  function Next(p: Pool, e: Event): Pool {
    match e
    case Start => p.(started := p.started + 1, inFlight := p.inFlight + {p.started})
    case Finish(i) => p.(inFlight := p.inFlight - {i}, done := p.done + [i])
  }

  predicate IsRun(p: Pool, n: nat, limit: nat, events: seq<Event>)
    decreases |events|
  {
    events == [] || (Enabled(p, n, limit, events[0]) && IsRun(Next(p, events[0]), n, limit, events[1..]))
  }

  function After(p: Pool, events: seq<Event>): Pool
    decreases |events|
  {
    if events == [] then p else After(Next(p, events[0]), events[1..])
  }

  predicate NoDuplicates(s: seq<nat>) {
    forall i, j :: 0 <= i < j < |s| ==> s[i] != s[j]
  }

  /** Every started child is either running or has completed once. */
  ghost predicate Valid(p: Pool, n: nat, limit: nat) {
    && p.started <= n
    && |p.inFlight| <= limit
    && NoDuplicates(p.done)
    && (forall i :: i in p.inFlight ==> i !in p.done)
    && (forall i: nat :: i < p.started <==> i in p.inFlight || i in p.done)
  }

  lemma NextKeepsValid(p: Pool, n: nat, limit: nat, e: Event)
    requires Valid(p, n, limit) && Enabled(p, n, limit, e)
    ensures Valid(Next(p, e), n, limit)
  {
    var q := Next(p, e);
    match e
    case Start =>
      assert q.inFlight == p.inFlight + {p.started};
    case Finish(i) =>
      assert p.inFlight == q.inFlight + {i};
      assert forall k :: k in q.done <==> k in p.done || k == i;
  }

  lemma {:induction false} RunKeepsValid(p: Pool, n: nat, limit: nat, events: seq<Event>)
    requires Valid(p, n, limit) && IsRun(p, n, limit, events)
    ensures Valid(After(p, events), n, limit)
    ensures After(p, events).started + |After(p, events).done| == p.started + |p.done| + |events|
    decreases |events|
  {
    if events != [] {
      NextKeepsValid(p, n, limit, events[0]);
      RunKeepsValid(Next(p, events[0]), n, limit, events[1..]);
    }
  }

  /** A completion order: every child exactly once. */
  predicate IsOrder(done: seq<nat>, n: nat) {
    && |done| == n && NoDuplicates(done)
    && (forall i :: 0 <= i < |done| ==> done[i] < n)
    && (forall i: nat :: i < n ==> i in done)
  }

  ghost predicate Stuck(p: Pool, n: nat, limit: nat) {
    forall e: Event :: !Enabled(p, n, limit, e)
  }

  function Members(s: seq<nat>): set<nat> {
    if s == [] then {} else Members(s[..|s| - 1]) + {s[|s| - 1]}
  }

  lemma {:induction false} MembersSize(s: seq<nat>)
    ensures forall i :: i in Members(s) <==> i in s
    ensures NoDuplicates(s) ==> |Members(s)| == |s|
  {
    if s != [] {
      MembersSize(s[..|s| - 1]);
      Snoc(s);
    }
  }

  function Below(n: nat): set<nat> {
    if n == 0 then {} else Below(n - 1) + {n - 1}
  }

  lemma {:induction false} BelowSize(n: nat)
    ensures |Below(n)| == n && forall i: nat :: i in Below(n) <==> i < n
  {
    if n > 0 {
      BelowSize(n - 1);
    }
  }

  /**
   At most `limit` children run at a time, no child runs twice, every step brings the pool closer
   to its end, and it can only stop when all children have completed, each once.
   */
  lemma EveryRunCompletes(n: nat, limit: nat, events: seq<Event>)
    requires 1 <= limit && IsRun(IDLE, n, limit, events)
    ensures var p := After(IDLE, events);
      && |p.inFlight| <= limit && NoDuplicates(p.done)
      && |events| <= 2 * n
      && (Stuck(p, n, limit) <==> |events| == 2 * n)
      && (Stuck(p, n, limit) ==> IsOrder(p.done, n))
  {
    var p := After(IDLE, events);
    assert Valid(IDLE, n, limit);
    RunKeepsValid(IDLE, n, limit, events);
    DoneIsBounded(p, n, limit);
    if Stuck(p, n, limit) {
      assert !Enabled(p, n, limit, Start);
      assert p.inFlight == {} by {
        assert forall i :: i in p.inFlight ==> Enabled(p, n, limit, Finish(i));
      }
      assert p.started == n;
      AllDone(p, n, limit);
    }
  }

  lemma DoneIsBounded(p: Pool, n: nat, limit: nat)
    requires Valid(p, n, limit)
    ensures |p.done| + |p.inFlight| == p.started
  {
    MembersSize(p.done);
    BelowSize(p.started);
    assert Below(p.started) == p.inFlight + Members(p.done);
    assert p.inFlight !! Members(p.done);
  }

  lemma AllDone(p: Pool, n: nat, limit: nat)
    requires Valid(p, n, limit) && p.inFlight == {} && p.started == n
    ensures IsOrder(p.done, n)
  {
    DoneIsBounded(p, n, limit);
    forall i | 0 <= i < |p.done| ensures p.done[i] < n {
      assert p.done[i] in p.done;
    }
  }

  // ---------------------------------------------------------------- collecting and sorting

  type Indexed = (nat, ProviderResponse)

  /** `collect::<Result<Vec<_>, _>>` over the completion order: the first failure, or everything. */
  function Collect(replies: seq<Reply>, done: seq<nat>): Result<seq<Indexed>, KernelError>
    requires forall i :: 0 <= i < |done| ==> done[i] < |replies|
  {
    if done == [] then Success([])
    else
      match replies[done[0]]
      case Failure(error) => Failure(error)
      case Success(response) =>
        match Collect(replies, done[1..])
        case Failure(error) => Failure(error)
        case Success(rest) => Success([(done[0], response)] + rest)
  }

  function InsertIndexed(x: Indexed, sorted: seq<Indexed>): seq<Indexed> {
    if sorted != [] && sorted[0].0 < x.0 then [sorted[0]] + InsertIndexed(x, sorted[1..]) else [x] + sorted
  }

  /** `sort_by_key(|(index, ..)| *index)` */
  function SortByIndex(results: seq<Indexed>): seq<Indexed> {
    if results == [] then [] else InsertIndexed(results[0], SortByIndex(results[1..]))
  }

  predicate AllSucceed(replies: seq<Reply>) {
    forall i :: 0 <= i < |replies| ==> replies[i].Success?
  }

  /** The responses from `i` on, in task order. */
  function InTaskOrder(replies: seq<Reply>, i: nat): seq<Indexed>
    requires i <= |replies| && AllSucceed(replies)
    decreases |replies| - i
  {
    if i == |replies| then [] else [(i, replies[i].value)] + InTaskOrder(replies, i + 1)
  }

  /** The responses of a set of children, in task order. */
  function Selected(replies: seq<Reply>, i: nat, chosen: set<nat>): seq<Indexed>
    requires i <= |replies| && AllSucceed(replies)
    decreases |replies| - i
  {
    if i == |replies| then []
    else (if i in chosen then [(i, replies[i].value)] else []) + Selected(replies, i + 1, chosen)
  }

  lemma {:induction false} SelectedStart(replies: seq<Reply>, i: nat, chosen: set<nat>)
    requires i <= |replies| && AllSucceed(replies)
    ensures forall k :: 0 <= k < |Selected(replies, i, chosen)| ==> Selected(replies, i, chosen)[k].0 >= i
    decreases |replies| - i
  {
    if i < |replies| {
      SelectedStart(replies, i + 1, chosen);
    }
  }

  lemma {:induction false} SelectedWithout(replies: seq<Reply>, i: nat, chosen: set<nat>, x: nat)
    requires i <= |replies| && AllSucceed(replies) && x < i
    ensures Selected(replies, i, chosen + {x}) == Selected(replies, i, chosen)
    decreases |replies| - i
  {
    if i < |replies| {
      SelectedWithout(replies, i + 1, chosen, x);
    }
  }

  lemma {:induction false} InsertSelects(replies: seq<Reply>, i: nat, chosen: set<nat>, x: nat)
    requires i <= x < |replies| && AllSucceed(replies) && x !in chosen
    ensures InsertIndexed((x, replies[x].value), Selected(replies, i, chosen)) == Selected(replies, i, chosen + {x})
    decreases |replies| - i
  {
    var rest := Selected(replies, i + 1, chosen);
    if i == x {
      SelectedWithout(replies, i + 1, chosen, x);
      SelectedStart(replies, i + 1, chosen);
      assert [] + rest == rest;
    } else {
      InsertSelects(replies, i + 1, chosen, x);
      if i in chosen {
        assert ([(i, replies[i].value)] + rest)[1..] == rest;
      } else {
        assert [] + rest == rest;
      }
    }
  }

  /** Collecting and sorting a list of different children gives their responses in task order. */
  lemma {:induction false} SortSelects(replies: seq<Reply>, done: seq<nat>)
    requires AllSucceed(replies) && NoDuplicates(done) && forall i :: 0 <= i < |done| ==> done[i] < |replies|
    ensures Collect(replies, done).Success?
    ensures SortByIndex(Collect(replies, done).value) == Selected(replies, 0, SetOf(done))
  {
    if done == [] {
      SelectedNone(replies, 0);
    } else {
      SortSelects(replies, done[1..]);
      var rest := Collect(replies, done[1..]).value;
      DropPrefix([(done[0], replies[done[0]].value)], rest);
      NotInTail(done);
      InsertSelects(replies, 0, SetOf(done[1..]), done[0]);
      assert SetOf(done) == SetOf(done[1..]) + {done[0]};
    }
  }

  function SetOf(done: seq<nat>): set<nat> {
    if done == [] then {} else {done[0]} + SetOf(done[1..])
  }

  lemma {:induction false} SetOfMembers(done: seq<nat>)
    ensures forall i :: i in SetOf(done) <==> i in done
  {
    if done != [] {
      SetOfMembers(done[1..]);
      Cons(done);
    }
  }

  lemma NotInTail(done: seq<nat>)
    requires done != [] && NoDuplicates(done)
    ensures done[0] !in SetOf(done[1..])
  {
    SetOfMembers(done[1..]);
  }

  lemma {:induction false} SelectedNone(replies: seq<Reply>, i: nat)
    requires i <= |replies| && AllSucceed(replies)
    ensures Selected(replies, i, {}) == []
    decreases |replies| - i
  {
    if i < |replies| {
      SelectedNone(replies, i + 1);
    }
  }

  lemma {:induction false} SelectedAll(replies: seq<Reply>, i: nat, chosen: set<nat>)
    requires i <= |replies| && AllSucceed(replies) && forall k: nat :: i <= k < |replies| ==> k in chosen
    ensures Selected(replies, i, chosen) == InTaskOrder(replies, i)
    decreases |replies| - i
  {
    if i < |replies| {
      SelectedAll(replies, i + 1, chosen);
    }
  }

  /** A collected failure is the reply of some child; there is one exactly when some child failed. */
  lemma {:induction false} CollectFails(replies: seq<Reply>, done: seq<nat>)
    requires forall i :: 0 <= i < |done| ==> done[i] < |replies|
    ensures Collect(replies, done).Failure? <==> exists i :: 0 <= i < |done| && replies[done[i]].Failure?
    ensures Collect(replies, done).Failure? ==>
              exists i :: 0 <= i < |done| && replies[done[i]] == Failure(Collect(replies, done).error)
  {
    if done != [] {
      CollectFails(replies, done[1..]);
      if replies[done[0]].Success? {
        assert forall i :: 1 <= i < |done| ==> done[i] == done[1..][i - 1];
        if Collect(replies, done).Failure? {
          var i :| 0 <= i < |done[1..]| && replies[done[1..][i]] == Failure(Collect(replies, done).error);
          assert replies[done[i + 1]] == Failure(Collect(replies, done).error);
        }
      } else {
        assert replies[done[0]] == Failure(Collect(replies, done).error);
      }
    }
  }

  // ---------------------------------------------------------------- absorbing the results

  /** What a request has accumulated: its state, and the responses and tokens it has used. */
  datatype Progress = Progress(state: State, responses: nat, tokens: nat)

  function AbsorbAll(limits: ExecutionLimits, scope: IsolationKey, p: Progress, tasks: seq<SubtaskSpec>,
                     results: seq<Indexed>)
    : (Progress, Option<KernelError>)
    requires forall i :: 0 <= i < |results| ==> results[i].0 < |tasks|
    decreases |results|
  {
    if results == [] then (p, None)
    else
      var (index, response) := results[0];
      var (state, error) := Absorb(limits, scope, tasks[index], p.state, response);
      var next := Progress(state, p.responses + 1, p.tokens + response.tokens);
      if error.Some? then (next, error) else AbsorbAll(limits, scope, next, tasks, results[1..])
  }

  lemma {:induction false} SortedIndices(results: seq<Indexed>, n: nat)
    requires forall i :: 0 <= i < |results| ==> results[i].0 < n
    ensures forall i :: 0 <= i < |SortByIndex(results)| ==> SortByIndex(results)[i].0 < n
  {
    if results != [] {
      SortedIndices(results[1..], n);
      InsertIndices(results[0], SortByIndex(results[1..]), n);
    }
  }

  lemma {:induction false} InsertIndices(x: Indexed, sorted: seq<Indexed>, n: nat)
    requires x.0 < n && forall i :: 0 <= i < |sorted| ==> sorted[i].0 < n
    ensures forall i :: 0 <= i < |InsertIndexed(x, sorted)| ==> InsertIndexed(x, sorted)[i].0 < n
  {
    if sorted != [] && sorted[0].0 < x.0 {
      InsertIndices(x, sorted[1..], n);
    }
  }

  lemma {:induction false} CollectedIndices(replies: seq<Reply>, done: seq<nat>)
    requires forall i :: 0 <= i < |done| ==> done[i] < |replies|
    ensures var r := Collect(replies, done);
      r.Success? ==> forall i :: 0 <= i < |r.value| ==> r.value[i].0 < |replies|
  {
    if done != [] {
      CollectedIndices(replies, done[1..]);
    }
  }

  /** The outcome of a fan-out whose children complete in the given order. */
  function Outcome(limits: ExecutionLimits, scope: IsolationKey, p: Progress, tasks: seq<SubtaskSpec>,
                   replies: seq<Reply>, done: seq<nat>)
    : (Progress, Option<KernelError>)
    requires |replies| == |tasks| && forall i :: 0 <= i < |done| ==> done[i] < |replies|
  {
    match Collect(replies, done)
    case Failure(error) => (p, Some(error))
    case Success(results) =>
      CollectedIndices(replies, done);
      SortedIndices(results, |tasks|);
      AbsorbAll(limits, scope, p, tasks, SortByIndex(results))
  }

  lemma {:induction false} TaskOrderIndices(replies: seq<Reply>, i: nat)
    requires i <= |replies| && AllSucceed(replies)
    ensures forall k :: 0 <= k < |InTaskOrder(replies, i)| ==> InTaskOrder(replies, i)[k].0 < |replies|
    decreases |replies| - i
  {
    if i < |replies| {
      TaskOrderIndices(replies, i + 1);
    }
  }

  /** Running the children one after the other, in task order. */
  function OneByOne(limits: ExecutionLimits, scope: IsolationKey, p: Progress, tasks: seq<SubtaskSpec>,
                    replies: seq<Reply>)
    : (Progress, Option<KernelError>)
    requires |replies| == |tasks| && AllSucceed(replies)
  {
    TaskOrderIndices(replies, 0);
    AbsorbAll(limits, scope, p, tasks, InTaskOrder(replies, 0))
  }

  lemma OrderSortsToTaskOrder(replies: seq<Reply>, done: seq<nat>)
    requires IsOrder(done, |replies|) && AllSucceed(replies)
    ensures Collect(replies, done).Success?
    ensures SortByIndex(Collect(replies, done).value) == InTaskOrder(replies, 0)
  {
    SortSelects(replies, done);
    SetOfMembers(done);
    SelectedAll(replies, 0, SetOf(done));
  }

  /**
   Schedule independence. When every child gets a response, each completion order leaves the same
   store, ledger, graph, text artifacts and usage as running the children in task order, and the
   same error if absorbing one fails. When some child fails, every completion order fails before
   anything is absorbed, with the error of one of the failed children.
   */
  lemma FanOutIsScheduleIndependent(limits: ExecutionLimits, scope: IsolationKey, p: Progress, tasks: seq<SubtaskSpec>,
                                    replies: seq<Reply>, done: seq<nat>)
    requires |replies| == |tasks| && IsOrder(done, |tasks|)
    ensures AllSucceed(replies) ==>
              Outcome(limits, scope, p, tasks, replies, done) == OneByOne(limits, scope, p, tasks, replies)
    ensures !AllSucceed(replies) ==>
              exists i :: 0 <= i < |replies| && replies[i].Failure?
                          && Outcome(limits, scope, p, tasks, replies, done) == (p, Some(replies[i].error))
  {
    if AllSucceed(replies) {
      OrderSortsToTaskOrder(replies, done);
    } else {
      var i :| 0 <= i < |replies| && replies[i].Failure?;
      assert i in done;
      var j :| 0 <= j < |done| && done[j] == i;
      CollectFails(replies, done);
    }
  }

  // ---------------------------------------------------------------- the executor

  /** `buffer_unordered`: a scheduler that picks any enabled event until none is left. */
  method CompleteAll(n: nat, limit: nat) returns (done: seq<nat>)
    requires 1 <= limit
    ensures IsOrder(done, n)
  {
    var pool := IDLE;
    while pool.started < n || pool.inFlight != {}
      invariant Valid(pool, n, limit)
      decreases 2 * n - pool.started - |pool.done|
    {
      DoneIsBounded(pool, n, limit);
      var start := *;
      if pool.inFlight == {} || (start && pool.started < n && |pool.inFlight| < limit) {
        NextKeepsValid(pool, n, limit, Start);
        pool := Next(pool, Start);
      } else {
        var i :| i in pool.inFlight;
        NextKeepsValid(pool, n, limit, Finish(i));
        pool := Next(pool, Finish(i));
      }
      DoneIsBounded(pool, n, limit);
    }
    AllDone(pool, n, limit);
    done := pool.done;
  }
}
