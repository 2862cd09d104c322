/**
 The context log as a value: what `append`, `head` and `assemble` compute from the stored heads,
 chunks and packs. SHA-256 is injective here: a policy is its layout.
 */
module ContextState {
  import opened Wrappers
  import opened RustText
  import opened Utf8
  import opened VersionedMap
  import opened ContextPolicy
  import opened ContextChunks
  import opened ContextRendering

  datatype ContextStoreError = InvalidInput(name: string)

  const TENANT_ID: string := "tenant_id"
  const CONTEXT_ID: string := "context_id"

  datatype ContextAppendRecord = ContextAppendRecord(role: string, text: string)

  datatype Scope = Scope(tenantId: string, contextId: string)

  datatype ContextHead = ContextHead(tenantId: string, contextId: string, latestRevision: nat, chunkCount: nat)

  type Policy = seq<byte>

  datatype ContextPack = ContextPack(
    contextId: string,
    cacheNamespace: string,
    revision: nat,
    policy: Policy,
    text: string,
    byteLen: nat,
    includedChunks: nat)

  datatype ContextAssembly = ContextAssembly(
    contextId: string,
    cacheNamespace: string,
    revision: nat,
    text: string,
    includedChunks: nat,
    includedBytes: nat,
    cacheHit: bool,
    baseCacheRevision: Option<nat>,
    tailChunks: nat)

  datatype ContextState = ContextState(
    heads: map<Scope, Versions<ContextHead>>,
    chunks: map<(Scope, nat), StoredContextChunk>,
    packs: map<(Scope, Policy), Versions<ContextPack>>)

  const EMPTY_STATE := ContextState(map[], map[], map[])

  /** `validate_component` for the two names every operation takes. */
  function ScopeError(tenantId: string, contextId: string): Option<ContextStoreError> {
    if IsBlank(tenantId) then Some(InvalidInput(TENANT_ID))
    else if IsBlank(contextId) then Some(InvalidInput(CONTEXT_ID))
    else None
  }

  function HeadVersions(st: ContextState, scope: Scope): Versions<ContextHead> {
    if scope in st.heads then st.heads[scope] else []
  }

  function PackVersions(st: ContextState, scope: Scope, policy: Policy): Versions<ContextPack> {
    if (scope, policy) in st.packs then st.packs[(scope, policy)] else []
  }

  /** `head`, without the validation of its arguments. */
  function HeadAt(st: ContextState, scope: Scope, rewind: Option<nat>): Option<ContextHead> {
    match rewind
    case None => Get(HeadVersions(st, scope))
    case Some(revision) => GetAt(HeadVersions(st, scope), revision)
  }

  function EmptyHead(scope: Scope): ContextHead {
    ContextHead(scope.tenantId, scope.contextId, 0, 0)
  }

  function HeadOrEmpty(st: ContextState, scope: Scope): ContextHead {
    match HeadAt(st, scope, None)
    case None => EmptyHead(scope)
    case Some(head) => head
  }

  function Latest(st: ContextState, scope: Scope): nat {
    HeadOrEmpty(st, scope).latestRevision
  }

  // ---------------------------------------------------------------- append

  function NonBlank(records: seq<ContextAppendRecord>): (kept: seq<ContextAppendRecord>)
    ensures forall i :: 0 <= i < |kept| ==> !IsBlank(kept[i].text)
  {
    if records == [] then []
    else (if IsBlank(records[0].text) then [] else [records[0]]) + NonBlank(records[1..])
  }

  function ChunkOf(scope: Scope, revision: nat, record: ContextAppendRecord): StoredContextChunk {
    StoredContextChunk(scope.tenantId, scope.contextId, revision, record.role, ByteLen(record.text), record.text)
  }

  /** The chunks after storing `records` at the revisions that follow `latest`. */
  function StoreChunks(chunks: map<(Scope, nat), StoredContextChunk>, scope: Scope, latest: nat,
                       records: seq<ContextAppendRecord>)
    : map<(Scope, nat), StoredContextChunk>
    decreases |records|
  {
    if records == [] then chunks
    else
      var revision := latest + 1;
      StoreChunks(chunks[(scope, revision) := ChunkOf(scope, revision, records[0])], scope, revision, records[1..])
  }

  function NextHead(head: ContextHead, appended: nat): ContextHead {
    head.(latestRevision := head.latestRevision + appended, chunkCount := head.chunkCount + appended)
  }

  function AppendRecords(st: ContextState, scope: Scope, records: seq<ContextAppendRecord>): ContextState {
    var head := HeadOrEmpty(st, scope);
    var next := NextHead(head, |records|);
    var version := if next.latestRevision == 0 then 1 else next.latestRevision;
    ContextState(
      st.heads[scope := SetAt(HeadVersions(st, scope), version, next)],
      StoreChunks(st.chunks, scope, head.latestRevision, records),
      st.packs)
  }

  function Append(st: ContextState, tenantId: string, contextId: string, records: seq<ContextAppendRecord>)
    : (ContextState, Result<ContextHead, ContextStoreError>)
  {
    var scope := Scope(tenantId, contextId);
    match ScopeError(tenantId, contextId)
    case Some(error) => (st, Failure(error))
    case None =>
      var head, kept := HeadOrEmpty(st, scope), NonBlank(records);
      if kept == [] then (st, Success(head))
      else (AppendRecords(st, scope, kept), Success(NextHead(head, |kept|)))
  }

  // ---------------------------------------------------------------- assemble

  /** The chunks of one scope with revisions `low..=high`, in revision order. */
  function Scan(chunks: map<(Scope, nat), StoredContextChunk>, scope: Scope, low: nat, high: nat)
    : seq<StoredContextChunk>
    decreases high
  {
    if high < low then []
    else
      var last := if (scope, high) in chunks then [chunks[(scope, high)]] else [];
      if high == 0 then last else Scan(chunks, scope, low, high - 1) + last
  }

  /** Every stored chunk carries the revision of its key, so scans come out in ascending order. */
  predicate AscendingScans(st: ContextState) {
    forall key :: key in st.chunks ==> st.chunks[key].revision == key.1
  }

  lemma {:induction false} ScanAscends(st: ContextState, scope: Scope, low: nat, high: nat)
    requires AscendingScans(st)
    ensures Ascending(Scan(st.chunks, scope, low, high))
    ensures forall c :: c in Scan(st.chunks, scope, low, high) ==> low <= c.revision <= high
    decreases high
  {
    if low <= high && high > 0 {
      ScanAscends(st, scope, low, high - 1);
    }
  }

  function TargetRevision(o: ContextAssemblyOptions, head: ContextHead): nat {
    match o.rewindRevision
    case None => head.latestRevision
    case Some(revision) => Min(revision, head.latestRevision)
  }

  function EmptyAssembly(contextId: string, cacheNamespace: string): ContextAssembly {
    ContextAssembly(contextId, cacheNamespace, 0, "", 0, 0, false, None, 0)
  }

  function ExactHit(scope: Scope, o: ContextAssemblyOptions, target: nat, pack: ContextPack): ContextAssembly {
    ContextAssembly(scope.contextId, o.cacheNamespace, target, pack.text, pack.includedChunks, pack.byteLen,
                    true, Some(pack.revision), 0)
  }

  /** The base text with the rendered tail behind it, before the front trim. */
  function JoinTail(base: string, tail: string): string {
    if tail == [] then base
    else if base == [] then tail
    else base + SEPARATOR + tail
  }

  /** `max_context_bytes.saturating_sub(text.len())` */
  function Remaining(o: ContextAssemblyOptions, base: string): nat {
    if ByteLen(base) <= o.maxContextBytes then o.maxContextBytes - ByteLen(base) else 0
  }

  function TailText(lex: Lexicon, tail: seq<StoredContextChunk>, o: ContextAssemblyOptions, base: string): string {
    Render(Choose(lex, tail, o), Remaining(o, base))
  }

  /** The text of the middle path: the base, the rendered tail, and the front trim. */
  function BehindBase(lex: Lexicon, tail: seq<StoredContextChunk>, o: ContextAssemblyOptions, base: string): string {
    TrimFront(JoinTail(base, TailText(lex, tail, o, base)), o.maxContextBytes)
  }

  function TailAssembly(lex: Lexicon, tail: seq<StoredContextChunk>, scope: Scope, o: ContextAssemblyOptions,
                        target: nat, pack: ContextPack): ContextAssembly
  {
    var text := BehindBase(lex, tail, o, pack.text);
    ContextAssembly(scope.contextId, o.cacheNamespace, target, text, pack.includedChunks + |tail|, ByteLen(text),
                    true, Some(pack.revision), |tail|)
  }

  function ColdText(lex: Lexicon, chunks: seq<StoredContextChunk>, o: ContextAssemblyOptions): string {
    Render(Choose(lex, chunks, o), o.maxContextBytes)
  }

  function ColdAssembly(lex: Lexicon, chunks: seq<StoredContextChunk>, scope: Scope, o: ContextAssemblyOptions,
                        target: nat)
    : ContextAssembly
  {
    var text := ColdText(lex, chunks, o);
    ContextAssembly(scope.contextId, o.cacheNamespace, target, text, |chunks|, ByteLen(text), false, None, 0)
  }

  /** An assembly on top of an older pack, or from nothing, out of the chunks that follow. */
  function Build(lex: Lexicon, loaded: seq<StoredContextChunk>, scope: Scope, o: ContextAssemblyOptions, target: nat,
                 base: Option<ContextPack>): ContextAssembly
  {
    match base
    case Some(pack) => TailAssembly(lex, loaded, scope, o, target, pack)
    case None => ColdAssembly(lex, loaded, scope, o, target)
  }

  function PackOf(policy: Policy, assembly: ContextAssembly): ContextPack {
    ContextPack(assembly.contextId, assembly.cacheNamespace, assembly.revision, policy, assembly.text,
                ByteLen(assembly.text), assembly.includedChunks)
  }

  function WritePack(st: ContextState, scope: Scope, policy: Policy, assembly: ContextAssembly): ContextState {
    if assembly.revision == 0 then st
    else
      var cells := SetAt(PackVersions(st, scope, policy), assembly.revision, PackOf(policy, assembly));
      st.(packs := st.packs[(scope, policy) := cells])
  }

  function CachedPack(st: ContextState, scope: Scope, o: ContextAssemblyOptions, target: nat): Option<ContextPack> {
    if o.cacheEnabled then GetAt(PackVersions(st, scope, PolicyLayout(o)), target) else None
  }

  predicate IsExact(cached: Option<ContextPack>, target: nat) {
    cached.Some? && cached.value.revision == target
  }

  /** The older pack that the tail is put behind, if there is one. */
  function Base(cached: Option<ContextPack>, target: nat): Option<ContextPack> {
    if cached.Some? && cached.value.revision < target then cached else None
  }

  function FirstLoaded(base: Option<ContextPack>): nat {
    if base.Some? then base.value.revision + 1 else 1
  }

  /** The three paths of `assemble` for a non-empty context and normalised options. */
  function AssemblyFrom(lex: Lexicon, st: ContextState, scope: Scope, o: ContextAssemblyOptions, target: nat,
                        cached: Option<ContextPack>): ContextAssembly
  {
    if IsExact(cached, target) then ExactHit(scope, o, target, cached.value)
    else
      var base := Base(cached, target);
      Build(lex, Scan(st.chunks, scope, FirstLoaded(base), target), scope, o, target, base)
  }

  function AssemblyAt(lex: Lexicon, st: ContextState, scope: Scope, o: ContextAssemblyOptions, target: nat)
    : ContextAssembly
  {
    AssemblyFrom(lex, st, scope, o, target, CachedPack(st, scope, o, target))
  }

  /** Everything but an exact hit leaves its result behind as a pack. */
  function AssembleAt(lex: Lexicon, st: ContextState, scope: Scope, o: ContextAssemblyOptions, target: nat)
    : (ContextState, ContextAssembly)
  {
    var assembly := AssemblyAt(lex, st, scope, o, target);
    var write := o.cacheEnabled && !IsExact(CachedPack(st, scope, o, target), target);
    (if write then WritePack(st, scope, PolicyLayout(o), assembly) else st, assembly)
  }

  /** The answer to a read whose head is known; without chunks there is nothing to assemble. */
  function AssembleFor(lex: Lexicon, st: ContextState, scope: Scope, o: ContextAssemblyOptions,
                       head: Option<ContextHead>)
    : (ContextState, ContextAssembly)
  {
    if head.None? || head.value.latestRevision == 0 then (st, EmptyAssembly(scope.contextId, o.cacheNamespace))
    else AssembleAt(lex, st, scope, o, TargetRevision(o, head.value))
  }

  function Assemble(lex: Lexicon, st: ContextState, tenantId: string, contextId: string,
                    options: ContextAssemblyOptions)
    : (ContextState, Result<ContextAssembly, ContextStoreError>)
  {
    var scope := Scope(tenantId, contextId);
    var o := options.Normalized();
    match ScopeError(tenantId, contextId)
    case Some(error) => (st, Failure(error))
    case None =>
      var (after, assembly) := AssembleFor(lex, st, scope, o, HeadAt(st, scope, o.rewindRevision));
      (after, Success(assembly))
  }
}
