/** The range scan over the flattened keys of the tree finds the chunks of a range of revisions. */
module ContextScan {
  import opened Wrappers
  import opened TextOrder
  import opened ContextKeys
  import opened ContextChunks
  import opened ContextState
  import Invariants = ContextInvariants

  /** The tree behind the store: a chunk, or nothing for a value of another family of keys. */
  type Tree = map<string, Option<StoredContextChunk>>

  type Chunks = map<(Scope, nat), StoredContextChunk>

  function KeyOf(scope: Scope, revision: nat): string {
    Flatten(ChunkKey(scope.tenantId, scope.contextId, revision))
  }

  /** The chunk keys of the tree are those of the chunks; every other key is one of the other families. */
  ghost predicate Holds(tree: Tree, chunks: Chunks) {
    && (forall scope, r :: (scope, r) in chunks ==>
          && r <= U64_MAX && KeyOf(scope, r) in tree && tree[KeyOf(scope, r)] == Some(chunks[(scope, r)])
          && chunks[(scope, r)].revision == r)
    && (forall s :: s in tree ==> Keyed(chunks, s))
  }

  ghost predicate Keyed(chunks: Chunks, s: string) {
    exists k: StoreKey :: Stored(k) && Flatten(k) == s
                          && (k.ChunkKey? ==> (Scope(k.tenantId, k.contextId), k.revision) in chunks)
  }

  /** The keys that the half-open range of a scope visits. */
  ghost function Visited(tree: Tree, scope: Scope): set<string> {
    set s | s in tree && InRange(s, ChunkPrefix(scope.tenantId, scope.contextId))
  }

  /** The visited chunks with a revision in the range, as the loop keeps them. */
  function Kept(values: seq<Option<StoredContextChunk>>, start: nat, end: nat): seq<StoredContextChunk> {
    if values == [] then []
    else (if values[0].Some? && start <= values[0].value.revision <= end then [values[0].value] else [])
         + Kept(values[1..], start, end)
  }

  ghost function KeysOf(scope: Scope, revisions: set<nat>): set<string> {
    set r | r in revisions :: KeyOf(scope, r)
  }

  /** The revisions of a scope from one on. */
  ghost predicate AreFrom(chunks: Chunks, scope: Scope, revisions: set<nat>, from: nat) {
    forall r: nat :: r in revisions <==> (scope, r) in chunks && from <= r
  }

  lemma AllRevisions(chunks: Chunks, scope: Scope) returns (revisions: set<nat>)
    ensures AreFrom(chunks, scope, revisions, 0)
  {
    revisions := set key | key in chunks && key.0 == scope :: key.1;
    forall r: nat | (scope, r) in chunks ensures r in revisions {
      assert (scope, r).0 == scope && (scope, r).1 == r;
    }
  }

  /** The visited keys are the keys of the scope's chunks, and no others. */
  lemma VisitedAreChunks(tree: Tree, chunks: Chunks, scope: Scope, revisions: set<nat>)
    requires Holds(tree, chunks) && AreFrom(chunks, scope, revisions, 0)
    ensures Visited(tree, scope) == KeysOf(scope, revisions)
  {
    forall s | s in Visited(tree, scope) ensures s in KeysOf(scope, revisions) {
      assert Keyed(chunks, s);
      var k :| Stored(k) && Flatten(k) == s && (k.ChunkKey? ==> (Scope(k.tenantId, k.contextId), k.revision) in chunks);
      ScanIsExact(scope.tenantId, scope.contextId, k);
    }
    forall r | r in revisions ensures KeyOf(scope, r) in Visited(tree, scope) {
      var s := KeyOf(scope, r);
      assert Keyed(chunks, s);
      var k :| Stored(k) && Flatten(k) == s && (k.ChunkKey? ==> (Scope(k.tenantId, k.contextId), k.revision) in chunks);
      FlattenInjective(k, ChunkKey(scope.tenantId, scope.contextId, r));
      ScanIsExact(scope.tenantId, scope.contextId, k);
    }
  }

  lemma {:induction false} LeastRevision(revisions: set<nat>) returns (least: nat)
    requires revisions != {}
    ensures least in revisions && forall r :: r in revisions ==> least <= r
    decreases revisions
  {
    var one :| one in revisions;
    var rest := revisions - {one};
    assert forall r :: r in revisions ==> r == one || r in rest;
    least := one;
    if rest != {} {
      var other := LeastRevision(rest);
      least := if other < one then other else one;
    }
  }

  /** The least key is that of the least revision, and taking it away leaves the keys of the others. */
  lemma KeysWithoutLeast(scope: Scope, revisions: set<nat>, least: nat)
    requires least in revisions && forall r :: r in revisions ==> least <= r <= U64_MAX
    ensures IsLeast(KeyOf(scope, least), KeysOf(scope, revisions))
    ensures KeysOf(scope, revisions) - {KeyOf(scope, least)} == KeysOf(scope, revisions - {least})
  {
    forall r | r in revisions ensures AtMost(KeyOf(scope, least), KeyOf(scope, r)) {
      ChunkKeysAreInRevisionOrder(scope.tenantId, scope.contextId, least, r);
    }
    forall r | r in revisions && KeyOf(scope, r) == KeyOf(scope, least) ensures r == least {
      FlattenInjective(ChunkKey(scope.tenantId, scope.contextId, r), ChunkKey(scope.tenantId, scope.contextId, least));
    }
  }

  lemma {:induction false} ScanAbsent(chunks: Chunks, scope: Scope, low: nat, high: nat)
    requires 1 <= low && forall r: nat :: low <= r <= high ==> (scope, r) !in chunks
    ensures Scan(chunks, scope, low, high) == []
    decreases high
  {
    if low <= high {
      ScanAbsent(chunks, scope, low, high - 1);
    }
  }

  function Max(a: nat, b: nat): nat {
    if a < b then b else a
  }

  /** A scan that starts before its first chunk. */
  lemma ScanFromLeast(chunks: Chunks, scope: Scope, low: nat, least: nat, next: nat, high: nat)
    requires 1 <= low <= least <= high && (scope, least) in chunks && next == least + 1
    requires forall r: nat :: low <= r < least ==> (scope, r) !in chunks
    ensures Scan(chunks, scope, low, high) == [chunks[(scope, least)]] + Scan(chunks, scope, next, high)
  {
    Invariants.ScanSplits(chunks, scope, low, least, high);
    ScanAbsent(chunks, scope, low, least - 1);
    assert [] + [chunks[(scope, least)]] == [chunks[(scope, least)]];
  }

  lemma FromNext(chunks: Chunks, scope: Scope, revisions: set<nat>, from: nat, least: nat, next: nat)
    requires AreFrom(chunks, scope, revisions, from) && next == least + 1
    requires least in revisions && forall r :: r in revisions ==> least <= r
    ensures AreFrom(chunks, scope, revisions - {least}, next)
  {
  }

  /** Reading the keys from one revision on, in key order. */
  lemma {:induction false} KeptIsScan(tree: Tree, chunks: Chunks, scope: Scope, revisions: set<nat>, from: nat,
                                      start: nat, end: nat)
    requires Holds(tree, chunks) && 1 <= start && AreFrom(chunks, scope, revisions, from)
    ensures KeysOf(scope, revisions) <= tree.Keys
    ensures Kept(InOrder(tree, KeysOf(scope, revisions)), start, end) == Scan(chunks, scope, Max(from, start), end)
    decreases |revisions|
  {
    var keys := KeysOf(scope, revisions);
    if revisions == {} {
      assert keys == {};
      ScanAbsent(chunks, scope, Max(from, start), end);
    } else {
      var least := LeastRevision(revisions);
      var rest := revisions - {least};
      KeysWithoutLeast(scope, revisions, least);
      var next := least + 1;
      FromNext(chunks, scope, revisions, from, least, next);
      KeptIsScan(tree, chunks, scope, rest, next, start, end);
      InOrderStep(tree, keys, KeyOf(scope, least));
      KeptCons(chunks[(scope, least)], InOrder(tree, KeysOf(scope, rest)), start, end);
      KeptStep(chunks, scope, from, least, next, start, end);
    }
  }

  lemma KeptCons(chunk: StoredContextChunk, rest: seq<Option<StoredContextChunk>>, start: nat, end: nat)
    ensures Kept([Some(chunk)] + rest, start, end)
         == (if start <= chunk.revision <= end then [chunk] else []) + Kept(rest, start, end)
  {
    assert ([Some(chunk)] + rest)[1..] == rest;
  }

  lemma KeptStep(chunks: Chunks, scope: Scope, from: nat, least: nat, next: nat, start: nat, end: nat)
    requires 1 <= start && from <= least && next == least + 1 && (scope, least) in chunks
    requires forall r: nat :: from <= r < least ==> (scope, r) !in chunks
    ensures Scan(chunks, scope, Max(from, start), end)
         == (if start <= least <= end then [chunks[(scope, least)]] else [])
           + Scan(chunks, scope, Max(next, start), end)
  {
    if start <= least <= end {
      ScanFromLeast(chunks, scope, Max(from, start), least, next, end);
    } else if least > end {
      ScanAbsent(chunks, scope, Max(from, start), end);
    }
  }

  /**
   What `load_chunks` keeps of the byte range from the chunk prefix of a scope to the prefix and
   0xff, in key order, is the scan of the structured chunks: exactly the chunks of the scope with a
   revision in the range, in revision order.
   */
  lemma RangeScanIsScan(tree: Tree, chunks: Chunks, scope: Scope, start: nat, end: nat)
    requires Holds(tree, chunks) && 1 <= start
    ensures Kept(InOrder(tree, Visited(tree, scope)), start, end) == Scan(chunks, scope, start, end)
  {
    var revisions := AllRevisions(chunks, scope);
    VisitedAreChunks(tree, chunks, scope, revisions);
    KeptIsScan(tree, chunks, scope, revisions, 0, start, end);
  }
}
