/** Rewinding a context is reading it as it was. */
module ContextRewind {
  import opened Wrappers
  import opened VersionedMap
  import opened ContextPolicy
  import opened ContextChunks
  import opened ContextState
  import opened ContextInvariants
  import opened ContextRuns

  /** The length of the longest prefix of the run after which the context had not passed `revision`. */
  function SnapshotIndex(lex: Lexicon, steps: seq<Step>, scope: Scope, revision: nat): (n: nat)
    ensures n <= |steps|
    ensures Latest(Run(lex, steps[..n]), scope) <= revision
  {
    if Latest(Run(lex, steps), scope) <= revision then
      assert steps[..|steps|] == steps;
      |steps|
    else
      var before := steps[..|steps| - 1];
      var n := SnapshotIndex(lex, before, scope, revision);
      assert before[..n] == steps[..n];
      n
  }

  lemma {:induction false} SnapshotIsLongest(lex: Lexicon, steps: seq<Step>, scope: Scope, revision: nat, m: nat)
    requires SnapshotIndex(lex, steps, scope, revision) < m <= |steps|
    ensures Latest(Run(lex, steps[..m]), scope) > revision
  {
    if m == |steps| {
      assert steps[..m] == steps;
    } else {
      var before := steps[..|steps| - 1];
      SnapshotIsLongest(lex, before, scope, revision, m);
      assert before[..m] == steps[..m];
    }
  }

  /** One step adds no head, and changes no chunk, at or below the revision already reached. */
  lemma StepKeepsThePast(lex: Lexicon, st: ContextState, step: Step, scope: Scope, revision: nat)
    requires Valid(st) && revision < Latest(Apply(lex, st, step), scope)
    ensures HeadAt(Apply(lex, st, step), scope, Some(revision)) == HeadAt(st, scope, Some(revision))
  {
    assert ScopeValid(st, scope);
    match step
    case AppendStep(tenantId, contextId, records) =>
      var kept := NonBlank(records);
      if Scope(tenantId, contextId) == scope && Apply(lex, st, step) != st {
        HeadCells(st, scope);
        AppendToScope(st, scope, kept);
        var after := AppendRecords(st, scope, kept);
        GetAtBelow(HeadVersions(st, scope), Latest(after, scope), HeadOrEmpty(after, scope), revision);
      }
    case AssembleStep(tenantId, contextId, options) =>
      AssembleKeepsHeadsAndChunks(lex, st, tenantId, contextId, options);
  }

  lemma AssembleKeepsHeadsAndChunks(lex: Lexicon, st: ContextState, tenantId: string, contextId: string,
                                    options: ContextAssemblyOptions)
    ensures var after := Assemble(lex, st, tenantId, contextId, options).0;
      after.heads == st.heads && after.chunks == st.chunks
  {
    var scope, o := Scope(tenantId, contextId), options.Normalized();
    AssembleForKeepsHeadsAndChunks(lex, st, scope, o, HeadAt(st, scope, o.rewindRevision));
  }

  lemma AssembleForKeepsHeadsAndChunks(lex: Lexicon, st: ContextState, scope: Scope, o: ContextAssemblyOptions,
                                       head: Option<ContextHead>)
    ensures var after := AssembleFor(lex, st, scope, o, head).0;
      after.heads == st.heads && after.chunks == st.chunks
  {
    if head.Some? {
      AssembleAtKeepsHeadsAndChunks(lex, st, scope, o, TargetRevision(o, head.value));
    }
  }

  lemma AssembleAtKeepsHeadsAndChunks(lex: Lexicon, st: ContextState, scope: Scope, o: ContextAssemblyOptions,
                                      target: nat)
    ensures var after := AssembleAt(lex, st, scope, o, target).0;
      after.heads == st.heads && after.chunks == st.chunks
  {
    WritePackKeepsHeadsAndChunks(st, scope, PolicyLayout(o), AssemblyAt(lex, st, scope, o, target));
  }

  lemma WritePackKeepsHeadsAndChunks(st: ContextState, scope: Scope, policy: Policy, assembly: ContextAssembly)
    ensures var after := WritePack(st, scope, policy, assembly);
      after.heads == st.heads && after.chunks == st.chunks
  {
  }

  lemma StepKeepsChunks(lex: Lexicon, st: ContextState, step: Step, scope: Scope)
    requires Valid(st)
    ensures Latest(st, scope) <= Latest(Apply(lex, st, step), scope)
    ensures forall revision: nat :: revision <= Latest(st, scope) ==>
              Upto(Apply(lex, st, step), scope, revision) == Upto(st, scope, revision)
  {
    assert ScopeValid(st, scope);
    match step
    case AppendStep(tenantId, contextId, records) =>
      if Apply(lex, st, step) != st {
        AppendKeepsChunks(st, Scope(tenantId, contextId), NonBlank(records), scope);
      }
    case AssembleStep(tenantId, contextId, options) =>
      AssembleKeepsHeadsAndChunks(lex, st, tenantId, contextId, options);
  }

  lemma AppendKeepsChunks(st: ContextState, target: Scope, records: seq<ContextAppendRecord>, scope: Scope)
    requires ScopeValid(st, scope) && records != []
    ensures Latest(st, scope) <= Latest(AppendRecords(st, target, records), scope)
    ensures forall revision: nat :: revision <= Latest(st, scope) ==>
              Upto(AppendRecords(st, target, records), scope, revision) == Upto(st, scope, revision)
  {
    if target == scope {
      AppendToScope(st, scope, records);
    }
    forall revision: nat | revision <= Latest(st, scope)
      ensures Upto(AppendRecords(st, target, records), scope, revision) == Upto(st, scope, revision)
    {
      AppendKeepsUpto(st, target, records, scope, revision);
    }
  }

  /** What a run leaves readable of the moment after its first `n` steps. */
  predicate Preserves(lex: Lexicon, steps: seq<Step>, n: nat, scope: Scope)
    requires n <= |steps|
  {
    var then_, now := Run(lex, steps[..n]), Run(lex, steps);
    && Latest(then_, scope) <= Latest(now, scope)
    && forall revision: nat :: revision <= Latest(then_, scope) ==>
      Upto(now, scope, revision) == Upto(then_, scope, revision)
  }

  lemma {:induction false} RunPreserves(lex: Lexicon, steps: seq<Step>, n: nat, scope: Scope)
    requires n <= |steps|
    ensures Preserves(lex, steps, n, scope)
  {
    if n == |steps| {
      assert steps[..n] == steps;
    } else {
      var before, last := steps[..|steps| - 1], steps[|steps| - 1];
      assert before[..n] == steps[..n];
      RunPreserves(lex, before, n, scope);
      EveryRunIsValid(lex, before);
      StepKeepsChunks(lex, Run(lex, before), last, scope);
    }
  }

  /**
   Rewinding to a revision shows the head as it was at the last moment when the context had not
   passed it. Append batches are atomic: a revision in the middle of one shows nothing of it.
   */
  lemma {:induction false} RewindShowsSnapshotHead(lex: Lexicon, steps: seq<Step>, scope: Scope, revision: nat)
    ensures HeadAt(Run(lex, steps), scope, Some(revision))
         == HeadAt(Run(lex, steps[..SnapshotIndex(lex, steps, scope, revision)]), scope, None)
  {
    var st := Run(lex, steps);
    EveryRunIsValid(lex, steps);
    if Latest(st, scope) <= revision {
      assert steps[..|steps|] == steps;
      assert ScopeValid(st, scope);
      HeadCells(st, scope);
      GetAtAbove(HeadVersions(st, scope), revision);
    } else {
      var before, last := steps[..|steps| - 1], steps[|steps| - 1];
      assert before[..SnapshotIndex(lex, before, scope, revision)]
          == steps[..SnapshotIndex(lex, steps, scope, revision)];
      RewindShowsSnapshotHead(lex, before, scope, revision);
      EveryRunIsValid(lex, before);
      StepKeepsThePast(lex, Run(lex, before), last, scope, revision);
    }
  }

  // ---------------------------------------------------------------- cold assembly

  lemma PickIgnoresRewind(ranked: seq<Candidate>, picked: seq<StoredContextChunk>, a: ContextAssemblyOptions,
                          b: ContextAssemblyOptions)
    requires a.maxChunks == b.maxChunks && a.maxContextBytes == b.maxContextBytes
    ensures Pick(ranked, picked, a) == Pick(ranked, picked, b)
  {
  }

  lemma ColdIgnoresRewind(lex: Lexicon, chunks: seq<StoredContextChunk>, scope: Scope, a: ContextAssemblyOptions,
                          b: ContextAssemblyOptions, target: nat)
    requires a.(rewindRevision := None) == b.(rewindRevision := None)
    ensures ColdAssembly(lex, chunks, scope, a, target) == ColdAssembly(lex, chunks, scope, b, target)
  {
    assert a.query == a.(rewindRevision := None).query && b.query == b.(rewindRevision := None).query;
    assert Ranked(lex, chunks, a) == Ranked(lex, chunks, b);
    PickIgnoresRewind(Ranked(lex, chunks, a), [], a, b);
  }

  /** What a caller without the cache gets, as a function of the head and the chunks below it. */
  function ColdAnswer(lex: Lexicon, st: ContextState, scope: Scope, o: ContextAssemblyOptions,
                      head: Option<ContextHead>)
    : ContextAssembly
  {
    if head.None? then EmptyAssembly(scope.contextId, o.cacheNamespace)
    else
      var target := head.value.latestRevision;
      ColdAssembly(lex, Upto(st, scope, target), scope, o, target)
  }

  lemma AssembleCold(lex: Lexicon, st: ContextState, tenantId: string, contextId: string,
                     options: ContextAssemblyOptions)
    requires Valid(st) && ScopeError(tenantId, contextId) == None && !options.cacheEnabled
    ensures var scope, o := Scope(tenantId, contextId), options.Normalized();
      Assemble(lex, st, tenantId, contextId, options).1
        == Success(ColdAnswer(lex, st, scope, o, HeadAt(st, scope, o.rewindRevision)))
  {
    var scope, o := Scope(tenantId, contextId), options.Normalized();
    assert ScopeValid(st, scope);
    TargetOfHead(st, scope, o);
  }

  /**
   Rewind is time travel: without the cache, assembling at a revision returns, field for field,
   what the plain assembly returned when the context was last at or below it, and no later
   step of any kind changes that.
   */
  lemma RewindIsTimeTravel(lex: Lexicon, steps: seq<Step>, tenantId: string, contextId: string,
                           options: ContextAssemblyOptions, revision: nat)
    requires ScopeError(tenantId, contextId) == None && !options.cacheEnabled && options.rewindRevision == None
    ensures var n := SnapshotIndex(lex, steps, Scope(tenantId, contextId), revision);
      Assemble(lex, Run(lex, steps), tenantId, contextId, options.(rewindRevision := Some(revision))).1
        == Assemble(lex, Run(lex, steps[..n]), tenantId, contextId, options).1
  {
    var scope := Scope(tenantId, contextId);
    var n := SnapshotIndex(lex, steps, scope, revision);
    var now, snapshot := Run(lex, steps), Run(lex, steps[..n]);
    var o, p := options.(rewindRevision := Some(revision)).Normalized(), options.Normalized();
    EveryRunIsValid(lex, steps);
    EveryRunIsValid(lex, steps[..n]);
    AssembleCold(lex, now, tenantId, contextId, options.(rewindRevision := Some(revision)));
    AssembleCold(lex, snapshot, tenantId, contextId, options);
    RewindShowsSnapshotHead(lex, steps, scope, revision);
    var head := HeadAt(snapshot, scope, None);
    if head.Some? {
      assert ScopeValid(snapshot, scope);
      TargetOfHead(snapshot, scope, p);
      RunPreserves(lex, steps, n, scope);
      ColdIgnoresRewind(lex, Upto(snapshot, scope, head.value.latestRevision), scope, o, p, head.value.latestRevision);
    }
  }
}
