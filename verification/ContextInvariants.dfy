/** What every operation on the context log keeps. */
module ContextInvariants {
  import opened Wrappers
  import opened Sequences
  import opened Utf8
  import opened VersionedMap
  import opened ContextPolicy
  import opened ContextChunks
  import opened ContextState

  // ---------------------------------------------------------------- the invariant

  /** Heads are stamped with their own revision, and the newest one is the last cell. */
  predicate HeadsValid(cells: Versions<ContextHead>, scope: Scope) {
    && (forall v :: 0 <= v < |cells| && cells[v].Some? ==>
          1 <= v && cells[v].value == ContextHead(scope.tenantId, scope.contextId, v, v))
    && (cells != [] ==> cells[|cells| - 1].Some?)
  }

  predicate ChunkValid(scope: Scope, revision: nat, chunk: StoredContextChunk) {
    && chunk.tenantId == scope.tenantId && chunk.contextId == scope.contextId
    && chunk.revision == revision
    && chunk.byteLen == ByteLen(chunk.text)
  }

  /** Revisions are dense: exactly 1 up to the latest one. */
  ghost predicate ChunksValid(chunks: map<(Scope, nat), StoredContextChunk>, scope: Scope, latest: nat) {
    && (forall r: nat :: (scope, r) in chunks <==> 1 <= r <= latest)
    && (forall r: nat :: (scope, r) in chunks ==> ChunkValid(scope, r, chunks[(scope, r)]))
  }

  /** A pack stored at a version is a pack of exactly that revision. */
  predicate PackValid(pack: ContextPack, version: nat) {
    && pack.revision == version
    && pack.includedChunks == version
    && pack.byteLen == ByteLen(pack.text)
  }

  predicate PacksValid(cells: Versions<ContextPack>, latest: nat) {
    && |cells| <= latest + 1
    && forall v :: 0 <= v < |cells| && cells[v].Some? ==> 1 <= v && PackValid(cells[v].value, v)
  }

  ghost predicate ScopeValid(st: ContextState, scope: Scope) {
    && HeadsValid(HeadVersions(st, scope), scope)
    && ChunksValid(st.chunks, scope, Latest(st, scope))
    && forall policy :: PacksValid(PackVersions(st, scope, policy), Latest(st, scope))
  }

  ghost predicate Valid(st: ContextState) {
    forall scope :: ScopeValid(st, scope)
  }

  lemma ValidAscends(st: ContextState)
    requires Valid(st)
    ensures AscendingScans(st)
  {
    forall key | key in st.chunks ensures st.chunks[key].revision == key.1 {
      assert ScopeValid(st, key.0);
      assert (key.0, key.1) in st.chunks;
    }
  }

  /** The latest revision is the version of the last head, and `chunk_count` equals it. */
  lemma LatestOfValid(cells: Versions<ContextHead>, scope: Scope)
    requires HeadsValid(cells, scope) && cells != []
    ensures Get(cells) == Some(ContextHead(scope.tenantId, scope.contextId, |cells| - 1, |cells| - 1))
    ensures |cells| >= 2
  {
    assert cells[|cells| - 1].Some?;
  }

  lemma HeadCells(st: ContextState, scope: Scope)
    requires ScopeValid(st, scope)
    ensures var cells := HeadVersions(st, scope);
      |cells| == if cells == [] then 0 else Latest(st, scope) + 1
    ensures HeadVersions(st, scope) == [] ==> Latest(st, scope) == 0
    ensures HeadOrEmpty(st, scope)
         == ContextHead(scope.tenantId, scope.contextId, Latest(st, scope), Latest(st, scope))
  {
    if HeadVersions(st, scope) != [] {
      LatestOfValid(HeadVersions(st, scope), scope);
    }
  }

  // ---------------------------------------------------------------- append

  /** Whether storing `records` after `latest` writes the key `(s, r)`. */
  predicate Stored(scope: Scope, latest: nat, records: seq<ContextAppendRecord>, s: Scope, r: nat) {
    s == scope && latest < r <= latest + |records|
  }

  lemma {:induction false} StoreChunksAdds(chunks: map<(Scope, nat), StoredContextChunk>, scope: Scope, latest: nat,
                                           records: seq<ContextAppendRecord>)
    ensures var after := StoreChunks(chunks, scope, latest, records);
      && (forall s: Scope, r: nat :: (s, r) in after <==> (s, r) in chunks || Stored(scope, latest, records, s, r))
      && (forall s: Scope, r: nat :: Stored(scope, latest, records, s, r) ==>
            after[(s, r)] == ChunkOf(scope, r, records[r - latest - 1]))
      && (forall s: Scope, r: nat :: (s, r) in chunks && !Stored(scope, latest, records, s, r) ==>
            after[(s, r)] == chunks[(s, r)])
    decreases |records|
  {
    if records != [] {
      var stored := chunks[(scope, latest + 1) := ChunkOf(scope, latest + 1, records[0])];
      StoreChunksAdds(stored, scope, latest + 1, records[1..]);
    }
  }

  lemma HeadsAfterAppend(cells: Versions<ContextHead>, scope: Scope, version: nat)
    requires HeadsValid(cells, scope) && |cells| <= version && 1 <= version
    ensures var after := SetAt(cells, version, ContextHead(scope.tenantId, scope.contextId, version, version));
      HeadsValid(after, scope) && Get(after) == after[version]
  {
  }

  lemma AppendToScope(st: ContextState, scope: Scope, records: seq<ContextAppendRecord>)
    requires ScopeValid(st, scope) && records != []
    ensures var after := AppendRecords(st, scope, records);
      && ScopeValid(after, scope)
      && Latest(after, scope) == Latest(st, scope) + |records|
      && HeadVersions(after, scope) == SetAt(HeadVersions(st, scope), Latest(after, scope), HeadOrEmpty(after, scope))
  {
    var latest, n := Latest(st, scope), |records|;
    var after := AppendRecords(st, scope, records);
    HeadCells(st, scope);
    HeadsAfterAppend(HeadVersions(st, scope), scope, latest + n);
    StoreChunksAdds(st.chunks, scope, latest, records);
    assert Latest(after, scope) == latest + n;
    forall policy ensures PacksValid(PackVersions(after, scope, policy), latest + n) {
      assert PackVersions(after, scope, policy) == PackVersions(st, scope, policy);
      assert PacksValid(PackVersions(st, scope, policy), latest);
    }
  }

  /** An append to one context is invisible in every other. */
  lemma AppendElsewhere(st: ContextState, scope: Scope, records: seq<ContextAppendRecord>, other: Scope)
    requires other != scope && ScopeValid(st, other)
    ensures ScopeValid(AppendRecords(st, scope, records), other)
  {
    var after := AppendRecords(st, scope, records);
    StoreChunksAdds(st.chunks, scope, Latest(st, scope), records);
    assert HeadVersions(after, other) == HeadVersions(st, other);
    forall policy ensures PacksValid(PackVersions(after, other, policy), Latest(after, other)) {
      assert PackVersions(after, other, policy) == PackVersions(st, other, policy);
      assert PacksValid(PackVersions(st, other, policy), Latest(st, other));
    }
  }

  lemma AppendKeepsValid(st: ContextState, tenantId: string, contextId: string, records: seq<ContextAppendRecord>)
    requires Valid(st)
    ensures Valid(Append(st, tenantId, contextId, records).0)
  {
    var target, kept := Scope(tenantId, contextId), NonBlank(records);
    var after := Append(st, tenantId, contextId, records).0;
    if after != st {
      forall scope ensures ScopeValid(after, scope) {
        assert ScopeValid(st, scope);
        if scope == target {
          AppendToScope(st, scope, kept);
        } else {
          AppendElsewhere(st, target, kept, scope);
        }
      }
    }
  }

  // ---------------------------------------------------------------- scans

  /** Over dense revisions a scan has every revision of its range. */
  lemma {:induction false} DenseScan(chunks: map<(Scope, nat), StoredContextChunk>, scope: Scope, latest: nat, low: nat,
                                     high: nat)
    requires ChunksValid(chunks, scope, latest) && 1 <= low <= high + 1 && high <= latest
    ensures |Scan(chunks, scope, low, high)| == high + 1 - low
    decreases high
  {
    if low <= high {
      DenseScan(chunks, scope, latest, low, high - 1);
    }
  }

  lemma {:induction false} ScanSplits(chunks: map<(Scope, nat), StoredContextChunk>, scope: Scope, low: nat,
                                      middle: nat, high: nat)
    requires 1 <= low <= middle + 1 && middle <= high
    ensures Scan(chunks, scope, low, high) == Scan(chunks, scope, low, middle) + Scan(chunks, scope, middle + 1, high)
    decreases high
  {
    if middle < high {
      ScanSplits(chunks, scope, low, middle, high - 1);
      var last := if (scope, high) in chunks then [chunks[(scope, high)]] else [];
      Assoc(Scan(chunks, scope, low, middle), Scan(chunks, scope, middle + 1, high - 1), last);
    }
  }

  /** A scan sees only the keys of its range. */
  lemma {:induction false} ScanUnchanged(before: map<(Scope, nat), StoredContextChunk>,
                                         after: map<(Scope, nat), StoredContextChunk>, scope: Scope, low: nat,
                                         high: nat)
    requires forall r: nat :: low <= r <= high ==> ((scope, r) in before <==> (scope, r) in after)
    requires forall r: nat :: low <= r <= high && (scope, r) in before ==> before[(scope, r)] == after[(scope, r)]
    ensures Scan(before, scope, low, high) == Scan(after, scope, low, high)
    decreases high
  {
    if low <= high && high > 0 {
      ScanUnchanged(before, after, scope, low, high - 1);
    }
  }

  // ---------------------------------------------------------------- assemble

  /** The pack that is read is never newer than the target. */
  lemma CachedPackIsOld(st: ContextState, scope: Scope, o: ContextAssemblyOptions, target: nat)
    requires ScopeValid(st, scope)
    ensures var cached := CachedPack(st, scope, o, target);
      cached.Some? ==>
        && 1 <= cached.value.revision <= target
        && cached.value.revision < |PackVersions(st, scope, PolicyLayout(o))|
        && PackVersions(st, scope, PolicyLayout(o))[cached.value.revision] == cached
        && PackValid(cached.value, cached.value.revision)
  {
    var cells := PackVersions(st, scope, PolicyLayout(o));
    assert PacksValid(cells, Latest(st, scope));
    var v := GetAtIsNewest(cells, target);
  }

  /** The accounting of every assembly of a non-empty context. */
  predicate Accounted(assembly: ContextAssembly, target: nat) {
    && assembly.revision == target
    && assembly.includedChunks == target
    && assembly.includedBytes == ByteLen(assembly.text)
    && (assembly.baseCacheRevision.Some? ==> assembly.baseCacheRevision.value + assembly.tailChunks == target)
  }

  lemma AssemblyIsAccounted(lex: Lexicon, st: ContextState, scope: Scope, o: ContextAssemblyOptions, target: nat)
    requires ScopeValid(st, scope) && 1 <= target <= Latest(st, scope)
    ensures Accounted(AssemblyAt(lex, st, scope, o, target), target)
  {
    var cached := CachedPack(st, scope, o, target);
    CachedPackIsOld(st, scope, o, target);
    var base := Base(cached, target);
    DenseScan(st.chunks, scope, Latest(st, scope), FirstLoaded(base), target);
  }

  lemma WritePackKeepsValid(st: ContextState, scope: Scope, policy: Policy, assembly: ContextAssembly)
    requires Valid(st) && Accounted(assembly, assembly.revision) && 1 <= assembly.revision <= Latest(st, scope)
    ensures Valid(WritePack(st, scope, policy, assembly))
  {
    var after := WritePack(st, scope, policy, assembly);
    forall other ensures ScopeValid(after, other) {
      assert ScopeValid(st, other);
      assert HeadVersions(after, other) == HeadVersions(st, other);
      forall p ensures PacksValid(PackVersions(after, other, p), Latest(after, other)) {
        assert PacksValid(PackVersions(st, other, p), Latest(st, other));
      }
    }
  }

  /** The head that a read at a revision sees; its revision is the target. */
  lemma TargetOfHead(st: ContextState, scope: Scope, o: ContextAssemblyOptions)
    requires ScopeValid(st, scope)
    ensures var head := HeadAt(st, scope, o.rewindRevision);
      head.Some? ==>
        && 1 <= head.value.latestRevision <= Latest(st, scope)
        && TargetRevision(o, head.value) == head.value.latestRevision
  {
    var cells := HeadVersions(st, scope);
    HeadCells(st, scope);
    match o.rewindRevision
    case None =>
      var v := GetIsNewest(cells);
    case Some(revision) =>
      var v := GetAtIsNewest(cells, revision);
  }

  lemma AssembleKeepsValid(lex: Lexicon, st: ContextState, tenantId: string, contextId: string,
                           options: ContextAssemblyOptions)
    requires Valid(st)
    ensures Valid(Assemble(lex, st, tenantId, contextId, options).0)
  {
    var scope, o := Scope(tenantId, contextId), options.Normalized();
    AssembleForKeepsValid(lex, st, scope, o);
  }

  lemma AssembleForKeepsValid(lex: Lexicon, st: ContextState, scope: Scope, o: ContextAssemblyOptions)
    requires Valid(st)
    ensures Valid(AssembleFor(lex, st, scope, o, HeadAt(st, scope, o.rewindRevision)).0)
  {
    assert ScopeValid(st, scope);
    TargetOfHead(st, scope, o);
    var head := HeadAt(st, scope, o.rewindRevision);
    if head.Some? {
      AssembleAtKeepsValid(lex, st, scope, o, TargetRevision(o, head.value));
    }
  }

  lemma AssembleAtKeepsValid(lex: Lexicon, st: ContextState, scope: Scope, o: ContextAssemblyOptions, target: nat)
    requires Valid(st) && 1 <= target <= Latest(st, scope)
    ensures Valid(AssembleAt(lex, st, scope, o, target).0)
  {
    assert ScopeValid(st, scope);
    AssemblyIsAccounted(lex, st, scope, o, target);
    WritePackKeepsValid(st, scope, PolicyLayout(o), AssemblyAt(lex, st, scope, o, target));
  }
}
