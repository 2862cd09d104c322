/** What a read reports about itself, and what it leaves behind. */
module ContextReads {
  import opened Wrappers
  import opened RustText
  import opened VersionedMap
  import opened ContextPolicy
  import opened ContextChunks
  import opened ContextState
  import opened ContextInvariants

  // ---------------------------------------------------------------- options

  function Distance(a: nat, b: nat): nat {
    if a <= b then b - a else a - b
  }

  /** `n` is the number in the range that is nearest to `asked`. */
  predicate IsNearest(n: nat, asked: nat, low: nat, high: nat) {
    && low <= n <= high
    && forall v: nat :: low <= v <= high ==> Distance(asked, n) <= Distance(asked, v)
  }

  /**
   The limits of a request are moved to the nearest ones allowed, the recent tail to at most the
   chunk limit, and a name space is cut off at 256 characters; nothing else of it changes.
   */
  lemma NormalizedIsNearest(o: ContextAssemblyOptions)
    ensures var n := o.Normalized();
      && IsNearest(n.maxContextBytes, o.maxContextBytes, 1, 1_048_576)
      && IsNearest(n.maxChunks, o.maxChunks, 1, 128)
      && IsNearest(n.recentTailChunks, o.recentTailChunks, 0, n.maxChunks)
      && n == o.(maxContextBytes := n.maxContextBytes, maxChunks := n.maxChunks,
                 recentTailChunks := n.recentTailChunks, cacheNamespace := n.cacheNamespace)
  {
  }

  /** A blank name space is the default one; any other is what `trim` leaves of it, or its first 256 characters. */
  lemma NamespaceIsCutOff(value: string)
    ensures var name := NormalizeCacheNamespace(value);
      && 1 <= |name| <= 256
      && (IsBlank(value) ==> name == "default")
      && (!IsBlank(value) ==> name <= Trim(value) && (name == Trim(value) || |name| == 256))
  {
    InkOfTrim(value);
  }

  // ---------------------------------------------------------------- what a read says

  /** The parts of an assembly that tell which path it took. */
  predicate TellsItsPath(o: ContextAssemblyOptions, a: ContextAssembly) {
    && (a.cacheHit <==> a.baseCacheRevision.Some?)
    && (a.baseCacheRevision.Some? ==> o.cacheEnabled && a.baseCacheRevision.value <= a.revision)
    && (a.tailChunks > 0 ==> a.cacheHit && a.baseCacheRevision.value < a.revision)
    && (a.baseCacheRevision == Some(a.revision) ==> a.tailChunks == 0)
  }

  lemma AssemblyTellsItsPath(lex: Lexicon, st: ContextState, scope: Scope, o: ContextAssemblyOptions, target: nat)
    requires ScopeValid(st, scope) && 1 <= target <= Latest(st, scope)
    ensures var a := AssemblyAt(lex, st, scope, o, target);
      && TellsItsPath(o, a) && a.contextId == scope.contextId && a.cacheNamespace == o.cacheNamespace
      && a.revision == target
  {
    CachedPackIsOld(st, scope, o, target);
    AssemblyIsAccounted(lex, st, scope, o, target);
  }

  /** A context that has nothing at the revision asked for reads as empty, and the read leaves nothing behind. */
  lemma EmptyContextReadsEmpty(lex: Lexicon, st: ContextState, tenantId: string, contextId: string,
                               options: ContextAssemblyOptions)
    requires !IsBlank(tenantId) && !IsBlank(contextId)
    requires HeadAt(st, Scope(tenantId, contextId), options.rewindRevision) == None
    ensures var (after, answer) := Assemble(lex, st, tenantId, contextId, options);
      && after == st && answer.Success?
      && answer.value.text == "" && answer.value.revision == 0
      && answer.value.includedChunks == 0 && answer.value.includedBytes == 0 && answer.value.tailChunks == 0
      && !answer.value.cacheHit && answer.value.baseCacheRevision == None
  {
  }

  // ---------------------------------------------------------------- what a read leaves behind

  /** Only packs change, only under the policy of the read, and not at all without the cache. */
  predicate WritesOnlyPacks(before: ContextState, after: ContextState, cacheEnabled: bool, scope: Scope, policy: Policy)
  {
    && after.heads == before.heads && after.chunks == before.chunks
    && (!cacheEnabled ==> after == before)
    && after.packs - {(scope, policy)} == before.packs - {(scope, policy)}
  }

  lemma PackIsWritten(st: ContextState, scope: Scope, policy: Policy, assembly: ContextAssembly)
    ensures WritesOnlyPacks(st, WritePack(st, scope, policy, assembly), true, scope, policy)
  {
  }

  lemma ReadWritesOnlyPacks(lex: Lexicon, st: ContextState, scope: Scope, o: ContextAssemblyOptions,
                            head: Option<ContextHead>)
    ensures WritesOnlyPacks(st, AssembleFor(lex, st, scope, o, head).0, o.cacheEnabled, scope, PolicyLayout(o))
  {
    if head.Some? {
      PackIsWritten(st, scope, PolicyLayout(o), AssemblyAt(lex, st, scope, o, TargetRevision(o, head.value)));
    }
  }

  lemma EveryReadWritesOnlyPacks(lex: Lexicon, st: ContextState, tenantId: string, contextId: string,
                                 options: ContextAssemblyOptions)
    ensures WritesOnlyPacks(st, Assemble(lex, st, tenantId, contextId, options).0, options.cacheEnabled,
                            Scope(tenantId, contextId), PolicyLayout(options.Normalized()))
  {
    var scope, o := Scope(tenantId, contextId), options.Normalized();
    ReadWritesOnlyPacks(lex, st, scope, o, HeadAt(st, scope, o.rewindRevision));
  }

  lemma WrittenIsRead<V>(cells: Versions<V>, version: nat, value: V)
    ensures GetAt(SetAt(cells, version, value), version) == Some(value)
  {
    var front := SetAt(cells, version, value)[..version + 1];
    assert front[|front| - 1] == Some(value);
  }

  /** The pack that a read finds at its own target afterwards. */
  lemma ReadLeavesPack(lex: Lexicon, st: ContextState, scope: Scope, o: ContextAssemblyOptions, target: nat)
    requires ScopeValid(st, scope) && 1 <= target <= Latest(st, scope) && o.cacheEnabled
    ensures var (after, a) := AssembleAt(lex, st, scope, o, target);
      var cached := CachedPack(after, scope, o, target);
      && IsExact(cached, target)
      && cached.value.text == a.text && cached.value.includedChunks == a.includedChunks
      && cached.value.byteLen == a.includedBytes
  {
    var a := AssemblyAt(lex, st, scope, o, target);
    AssemblyIsAccounted(lex, st, scope, o, target);
    CachedPackIsOld(st, scope, o, target);
    WrittenIsRead(PackVersions(st, scope, PolicyLayout(o)), target, PackOf(PolicyLayout(o), a));
  }

  /** Whatever path the first read took, the same read again is an exact hit with the same text, and changes nothing. */
  lemma SecondReadIsExactHit(lex: Lexicon, st: ContextState, scope: Scope, o: ContextAssemblyOptions, target: nat)
    requires ScopeValid(st, scope) && 1 <= target <= Latest(st, scope) && o.cacheEnabled
    ensures var (after, a) := AssembleAt(lex, st, scope, o, target);
      var (again, b) := AssembleAt(lex, after, scope, o, target);
      && again == after
      && b == a.(cacheHit := true, baseCacheRevision := Some(target), tailChunks := 0)
  {
    AssemblyTellsItsPath(lex, st, scope, o, target);
    ReadLeavesPack(lex, st, scope, o, target);
  }
}
