/** The context store itself: its methods update the stored maps in place. */
module ContextStore {
  import opened Wrappers
  import opened Utf8
  import opened VersionedMap
  import opened ContextPolicy
  import opened ContextChunks
  import opened ContextRendering
  import S = ContextState

  class SurrealKvContextStore {
    const lex: Lexicon
    var heads: map<S.Scope, Versions<S.ContextHead>>
    var chunks: map<(S.Scope, nat), StoredContextChunk>
    var packs: map<(S.Scope, S.Policy), Versions<S.ContextPack>>

    /** The stored maps as one value. */
    function View(): S.ContextState
      reads this
    {
      S.ContextState(heads, chunks, packs)
    }

    constructor Open(lex: Lexicon)
      ensures View() == S.EMPTY_STATE && this.lex == lex
    {
      this.lex := lex;
      heads, chunks, packs := map[], map[], map[];
    }

    method Append(tenantId: string, contextId: string, records: seq<S.ContextAppendRecord>)
      returns (r: Result<S.ContextHead, S.ContextStoreError>)
      modifies this`heads, this`chunks
      ensures (View(), r) == S.Append(old(View()), tenantId, contextId, records)
    {
      var scope := S.Scope(tenantId, contextId);
      var error := S.ScopeError(tenantId, contextId);
      if error.Some? {
        return Failure(error.value);
      }
      var kept := S.NonBlank(records);
      if kept == [] {
        return Success(S.HeadOrEmpty(View(), scope));
      }
      var head := S.HeadOrEmpty(View(), scope);
      ghost var first := head;
      for i := 0 to |kept|
        invariant heads == old(heads) && packs == old(packs)
        invariant head == S.NextHead(first, i)
        invariant S.StoreChunks(old(chunks), scope, first.latestRevision, kept)
               == S.StoreChunks(chunks, scope, head.latestRevision, kept[i..])
      {
        var revision := head.latestRevision + 1;
        chunks := chunks[(scope, revision) := S.ChunkOf(scope, revision, kept[i])];
        assert kept[i..][1..] == kept[i + 1..];
        head := head.(latestRevision := revision, chunkCount := head.chunkCount + 1);
      }
      heads := heads[scope := SetAt(S.HeadVersions(View(), scope), head.latestRevision, head)];
      r := Success(head);
    }

    /** Reads at a revision see the head as it was when that revision was the latest one. */
    method Head(tenantId: string, contextId: string, rewind: Option<nat>)
      returns (r: Result<Option<S.ContextHead>, S.ContextStoreError>)
      ensures r == match S.ScopeError(tenantId, contextId)
                   case Some(error) => Failure(error)
                   case None => Success(S.HeadAt(View(), S.Scope(tenantId, contextId), rewind))
    {
      var error := S.ScopeError(tenantId, contextId);
      if error.Some? {
        return Failure(error.value);
      }
      var cells := S.HeadVersions(View(), S.Scope(tenantId, contextId));
      match rewind {
        case None => r := Success(Get(cells));
        case Some(revision) => r := Success(GetAt(cells, revision));
      }
    }

    /** The range scan visits the chunk keys of the scope in ascending order and filters them. */
    method LoadChunks(scope: S.Scope, start: nat, end: nat) returns (loaded: seq<StoredContextChunk>)
      requires 1 <= start
      ensures loaded == S.Scan(chunks, scope, start, end)
    {
      loaded := [];
      if start > end {
        return;
      }
      var remaining := set key | key in chunks.Keys && key.0 == scope :: key.1;
      ghost var visited: int := start - 1;
      while remaining != {}
        invariant forall r :: r in remaining ==> (scope, r) in chunks
        invariant start - 1 <= visited <= end
        invariant forall r :: visited < r <= end && (scope, r) in chunks ==> r in remaining
        invariant forall r :: r in remaining && start <= r <= end ==> visited < r
        invariant loaded == S.Scan(chunks, scope, start, visited)
        decreases |remaining|
      {
        var r := Least(remaining);
        if start <= r <= end {
          ScanGap(scope, start, visited, r - 1);
          loaded := loaded + [chunks[(scope, r)]];
          visited := r;
        }
        remaining := remaining - {r};
      }
      ScanGap(scope, start, visited, end);
    }

    lemma ScanGap(scope: S.Scope, low: nat, seen: nat, high: nat)
      requires 1 <= low && low - 1 <= seen <= high
      requires forall r :: seen < r <= high ==> (scope, r) !in chunks
      ensures S.Scan(chunks, scope, low, high) == S.Scan(chunks, scope, low, seen)
      decreases high
    {
      if seen < high {
        ScanGap(scope, low, seen, high - 1);
      }
    }

    method ReadPackAt(scope: S.Scope, policy: S.Policy, revision: nat) returns (pack: Option<S.ContextPack>)
      ensures pack == GetAt(S.PackVersions(View(), scope, policy), revision)
    {
      pack := GetAt(S.PackVersions(View(), scope, policy), revision);
    }

    method WritePack(scope: S.Scope, policy: S.Policy, assembly: S.ContextAssembly)
      modifies this`packs
      ensures View() == S.WritePack(old(View()), scope, policy, assembly)
    {
      if assembly.revision == 0 {
        return;
      }
      var pack := S.PackOf(policy, assembly);
      packs := packs[(scope, policy) := SetAt(S.PackVersions(View(), scope, policy), assembly.revision, pack)];
    }

    method Assemble(tenantId: string, contextId: string, options: ContextAssemblyOptions)
      returns (r: Result<S.ContextAssembly, S.ContextStoreError>)
      requires S.AscendingScans(View())
      modifies this`packs
      ensures (View(), r) == S.Assemble(lex, old(View()), tenantId, contextId, options)
    {
      var scope := S.Scope(tenantId, contextId);
      var o := options.Normalized();
      var head := Head(tenantId, contextId, o.rewindRevision);
      if head.Failure? {
        return Failure(head.error);
      }
      if head.value.None? || head.value.value.latestRevision == 0 {
        return Success(S.EmptyAssembly(contextId, o.cacheNamespace));
      }
      var assembly := AssembleAt(scope, o, S.TargetRevision(o, head.value.value));
      r := Success(assembly);
    }

    /** Everything but an exact hit leaves its result behind as a pack. */
    method AssembleAt(scope: S.Scope, o: ContextAssemblyOptions, target: nat)
      returns (assembly: S.ContextAssembly)
      requires S.AscendingScans(View())
      modifies this`packs
      ensures (View(), assembly) == S.AssembleAt(lex, old(View()), scope, o, target)
    {
      var cached := None;
      if o.cacheEnabled {
        cached := ReadPackAt(scope, PolicyLayout(o), target);
      }
      assembly := AssembleFrom(scope, o, target, cached);
      if o.cacheEnabled && !S.IsExact(cached, target) {
        WritePack(scope, PolicyLayout(o), assembly);
      }
    }

    /** Exact hit, older pack with a tail, or recomputation. */
    method AssembleFrom(scope: S.Scope, o: ContextAssemblyOptions, target: nat, cached: Option<S.ContextPack>)
      returns (assembly: S.ContextAssembly)
      requires S.AscendingScans(View())
      ensures assembly == S.AssemblyFrom(lex, View(), scope, o, target, cached)
    {
      if S.IsExact(cached, target) {
        return S.ExactHit(scope, o, target, cached.value);
      }
      var base := S.Base(cached, target);
      var loaded := LoadChunks(scope, S.FirstLoaded(base), target);
      S.ScanAscends(View(), scope, S.FirstLoaded(base), target);
      assembly := BuildAssembly(loaded, scope, o, target, base);
    }

    /** The chunks selected and rendered, anew or behind the text of the older pack. */
    method BuildAssembly(loaded: seq<StoredContextChunk>, scope: S.Scope, o: ContextAssemblyOptions, target: nat,
                         base: Option<S.ContextPack>)
      returns (assembly: S.ContextAssembly)
      requires Ascending(loaded)
      ensures assembly == S.Build(lex, loaded, scope, o, target, base)
    {
      var selected := ChooseChunks(lex, loaded, o);
      match base {
        case None =>
          var text := RenderChunks(selected, o.maxContextBytes);
          assembly := S.ContextAssembly(scope.contextId, o.cacheNamespace, target, text, |loaded|, ByteLen(text),
                                        false, None, 0);
        case Some(pack) =>
          var tailText := RenderChunks(selected, S.Remaining(o, pack.text));
          var text := JoinBounded(pack.text, tailText, o.maxContextBytes);
          assembly := S.ContextAssembly(scope.contextId, o.cacheNamespace, target, text, pack.includedChunks + |loaded|,
                                        ByteLen(text), true, Some(pack.revision), |loaded|);
      }
    }
  }

  /** Appends a non-empty tail behind a separator and trims the front to the bound. */
  method JoinBounded(base: string, tail: string, maxBytes: nat) returns (text: string)
    ensures text == TrimFront(S.JoinTail(base, tail), maxBytes)
  {
    text := base;
    if tail != [] {
      if text != [] {
        text := text + SEPARATOR;
      }
      text := text + tail;
    }
    assert [] + tail == tail;
    assert text == S.JoinTail(base, tail);
    text := TrimToCharBoundary(text, maxBytes);
  }

  /** The first key a range scan still has to visit. */
  method Least(s: set<nat>) returns (m: nat)
    requires s != {}
    ensures m in s && forall r :: r in s ==> m <= r
  {
    m :| m in s;
    var rest := s - {m};
    while rest != {}
      invariant m in s && rest <= s
      invariant forall r :: r in s ==> m <= r || r in rest
    {
      var r :| r in rest;
      if r < m {
        m := r;
      }
      rest := rest - {r};
    }
  }
}
