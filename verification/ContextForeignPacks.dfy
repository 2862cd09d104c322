/** Runs in which the pack of one policy is served under another, and which namespaces allow them. */
module ContextForeignPacks {
  import opened Wrappers
  import opened RustText
  import opened Utf8
  import opened VersionedMap
  import Decimal
  import opened ContextPolicy
  import opened ContextPolicyLaws
  import opened ContextChunks
  import opened ContextSelection
  import opened ContextRendering
  import opened ContextState
  import opened ContextRuns

  // ---------------------------------------------------------------- a chunk of any rendered size

  const TEXT := "t"

  function Plain(length: nat): (s: string)
    ensures |s| == length
  {
    seq(length, _ => 'u')
  }

  lemma {:induction false} AsciiByteLen(s: string)
    requires forall i :: 0 <= i < |s| ==> s[i] < '\U{80}'
    ensures ByteLen(s) == |s|
  {
    if s != [] {
      AsciiByteLen(s[1..]);
    }
  }

  /** One record whose rendering at revision 1 has exactly `size` bytes. */
  function RecordOf(size: nat): ContextAppendRecord
    requires size >= LEAST_RENDERING
  {
    ContextAppendRecord(Plain(size - LEAST_RENDERING), TEXT)
  }

  lemma RenderedSize(chunk: StoredContextChunk, size: nat)
    requires size >= LEAST_RENDERING
    requires chunk.revision == 1 && chunk.role == RecordOf(size).role && chunk.text == TEXT
    ensures ByteLen(Part(chunk)) == size
  {
    assert Decimal.Format(1) == [Decimal.Digit(1)];
    TrimOfText();
    var part := Part(chunk);
    forall i | 0 <= i < |part| ensures part[i] < '\U{80}' {
      PartIsAscii(chunk.role, i);
    }
    AsciiByteLen(part);
  }

  lemma TrimOfText()
    ensures Trim(TEXT) == TEXT
  {
  }

  lemma PartIsAscii(role: string, i: nat)
    requires forall k :: 0 <= k < |role| ==> role[k] == 'u'
    requires i < |HEADER_REVISION + ['1'] + HEADER_ROLE + role + HEADER_END + TEXT|
    ensures (HEADER_REVISION + ['1'] + HEADER_ROLE + role + HEADER_END + TEXT)[i] < '\U{80}'
  {
  }

  /** The recomputed text of that one chunk, under a policy that holds it and asks for no terms. */
  lemma SingleChunkIsServed(lex: Lexicon, chunk: StoredContextChunk, o: ContextAssemblyOptions)
    requires o.InRange() && o.maxContextBytes >= LEAST_RENDERING && Terms(lex, o) == []
    requires chunk.revision == 1 && chunk.role == RecordOf(o.maxContextBytes).role
    requires chunk.text == TEXT && chunk.byteLen == ByteLen(TEXT)
    ensures ByteLen(ColdText(lex, [chunk], o)) == o.maxContextBytes
  {
    var chosen := [chunk];
    AsciiByteLen(TEXT);
    OneChunkTotal(chunk);
    FittingListIsChosenWhole(lex, chosen, o);
    SingleChunkIsRendered(chunk, o.maxContextBytes);
  }

  lemma SingleChunkIsRendered(chunk: StoredContextChunk, size: nat)
    requires size >= LEAST_RENDERING
    requires chunk.revision == 1 && chunk.role == RecordOf(size).role && chunk.text == TEXT
    ensures ByteLen(Render([chunk], size)) == size
  {
    RenderedSize(chunk, size);
    PartsOfOne(chunk);
    RenderOfOne(Part(chunk), size);
  }

  lemma PartsOfOne(chunk: StoredContextChunk)
    ensures Parts([chunk]) == [Part(chunk)]
  {
    assert [chunk][1..] == [];
  }

  lemma OneChunkTotal(chunk: StoredContextChunk)
    ensures TotalBytes([chunk]) == chunk.byteLen
  {
    assert [chunk][..0] == [];
  }

  lemma RenderOfOne(part: string, maxBytes: nat)
    requires ByteLen(part) <= maxBytes
    ensures RenderFrom([part], "", maxBytes) == part
  {
    assert RenderFrom([part], "", maxBytes) == RenderFrom([part][1..], part, maxBytes);
  }

  // ---------------------------------------------------------------- the run

  /** The log after one append. */
  lemma OneChunk(tenantId: string, contextId: string, record: ContextAppendRecord) returns (st: ContextState)
    requires ScopeError(tenantId, contextId) == None && record.text == TEXT
    ensures st == Append(EMPTY_STATE, tenantId, contextId, [record]).0
    ensures var scope := Scope(tenantId, contextId);
      && st.packs == map[]
      && HeadAt(st, scope, None) == Some(ContextHead(tenantId, contextId, 1, 1))
      && Scan(st.chunks, scope, 1, 1) == [ChunkOf(scope, 1, record)]
  {
    st := Append(EMPTY_STATE, tenantId, contextId, [record]).0;
    assert !IsWhitespace(TEXT[0]);
    assert [record][1..] == [];
    assert NonBlank([record]) == [record];
    var scope := Scope(tenantId, contextId);
    var first := ChunkOf(scope, 1, record);
    assert st.chunks == StoreChunks(map[(scope, 1) := first], scope, 1, [record][1..]);
    assert Scan(st.chunks, scope, 1, 0) == [];
  }

  /** Without packs an assembly recomputes and leaves its text behind; with the same key it is served as it is. */
  lemma ForeignPackIsServed(lex: Lexicon, st: ContextState, tenantId: string, contextId: string,
                            a: ContextAssemblyOptions, b: ContextAssemblyOptions)
    requires ScopeError(tenantId, contextId) == None && st.packs == map[]
    requires var scope := Scope(tenantId, contextId);
             HeadAt(st, scope, None) == Some(ContextHead(tenantId, contextId, 1, 1))
    requires a == a.Normalized() && b == b.Normalized() && PolicyLayout(a) == PolicyLayout(b) && a.Plain() && b.Plain()
    ensures var scope := Scope(tenantId, contextId);
      var r := Assemble(lex, Assemble(lex, st, tenantId, contextId, a).0, tenantId, contextId, b).1;
      && r.Success? && r.value.cacheHit
      && r.value.includedBytes == ByteLen(ColdText(lex, Scan(st.chunks, scope, 1, 1), a))
  {
    var scope := Scope(tenantId, contextId);
    var cold := AssemblyAt(lex, st, scope, a, 1);
    var after := WritePack(st, scope, PolicyLayout(a), cold);
    assert Assemble(lex, st, tenantId, contextId, a).0 == after;
    var cells := PackVersions(after, scope, PolicyLayout(b));
    assert cells[1] == Some(PackOf(PolicyLayout(a), cold));
    assert GetAt(cells, 1) == cells[1];
  }

  lemma RunOfTwo(lex: Lexicon, first: Step, second: Step)
    ensures Run(lex, [first, second]) == Apply(lex, Apply(lex, EMPTY_STATE, first), second)
  {
    assert [first, second][..1] == [first] && [first][..0] == [];
    assert Run(lex, [first]) == Apply(lex, EMPTY_STATE, first);
  }

  /** An answer that is an exact hit longer than the byte limit it was asked for with. */
  predicate ExceedsBound(lex: Lexicon, steps: seq<Step>, tenantId: string, contextId: string,
                         options: ContextAssemblyOptions)
  {
    var r := Assemble(lex, Run(lex, steps), tenantId, contextId, options).1;
    r.Success? && r.value.includedBytes > options.Normalized().maxContextBytes
  }

  /**
   Two policies with one key and different byte limits, in any context: one append, one assembly
   under the policy with the greater limit, and the answer under the other one is too long. The
   greater limit must hold a rendering, and its policy must not ask for terms.
   */
  lemma ForeignPackExceedsBound(lex: Lexicon, tenantId: string, contextId: string, a: ContextAssemblyOptions,
                                b: ContextAssemblyOptions)
    returns (steps: seq<Step>)
    requires ScopeError(tenantId, contextId) == None
    requires a == a.Normalized() && b == b.Normalized() && PolicyLayout(a) == PolicyLayout(b) && a.Plain() && b.Plain()
    requires a.maxContextBytes > b.maxContextBytes && a.maxContextBytes >= LEAST_RENDERING && Terms(lex, a) == []
    ensures |steps| == 2 && steps[0].AppendStep? && steps[1] == AssembleStep(tenantId, contextId, a)
    ensures ExceedsBound(lex, steps, tenantId, contextId, b)
  {
    var record := RecordOf(a.maxContextBytes);
    var st := OneChunk(tenantId, contextId, record);
    NormalizedInRange(a);
    SingleChunkIsServed(lex, ChunkOf(Scope(tenantId, contextId), 1, record), a);
    ForeignPackIsServed(lex, st, tenantId, contextId, a, b);
    var append, assemble := AppendStep(tenantId, contextId, [record]), AssembleStep(tenantId, contextId, a);
    steps := [append, assemble];
    RunOfTwo(lex, append, assemble);
  }

  // ---------------------------------------------------------------- which namespaces keep the bound

  /** All assemblies of a run, and the one that follows it, use these namespaces. */
  predicate Uses(steps: seq<Step>, options: ContextAssemblyOptions, namespaces: set<string>) {
    && options.Normalized().cacheNamespace in namespaces
    && forall i :: 0 <= i < |steps| && steps[i].AssembleStep? ==>
         steps[i].options.Normalized().cacheNamespace in namespaces
  }

  ghost predicate CanExceedBound(namespaces: set<string>) {
    exists lex: Lexicon, steps: seq<Step>, tenantId: string, contextId: string, options: ContextAssemblyOptions ::
      Uses(steps, options, namespaces) && ExceedsBound(lex, steps, tenantId, contextId, options)
  }

  predicate NormalizedNamespaces(namespaces: set<string>) {
    forall x :: x in namespaces ==> NormalizeCacheNamespace(x) == x
  }

  ghost predicate SomeContinues(namespaces: set<string>) {
    exists x, y :: x in namespaces && y in namespaces && Continues(x, y)
  }

  lemma NormalizedIs(o: ContextAssemblyOptions)
    requires o.InRange() && NormalizeCacheNamespace(o.cacheNamespace) == o.cacheNamespace
    ensures o == o.Normalized()
  {
  }

  /** A tokenisation in which no query has terms. */
  const NO_TERMS := Lexicon(map[], map[])

  lemma NothingIsAsked(o: ContextAssemblyOptions)
    ensures Terms(NO_TERMS, o) == []
  {
  }

  lemma SomeContext()
    ensures ScopeError(TEXT, TEXT) == None
  {
    assert !IsWhitespace(TEXT[0]);
  }

  lemma RunUses(steps: seq<Step>, a: ContextAssemblyOptions, b: ContextAssemblyOptions, namespaces: set<string>)
    requires |steps| == 2 && steps[0].AppendStep? && steps[1] == AssembleStep(TEXT, TEXT, a)
    requires a == a.Normalized() && a.cacheNamespace in namespaces
    requires b == b.Normalized() && b.cacheNamespace in namespaces
    ensures Uses(steps, b, namespaces)
  {
  }

  lemma ExceedsBoundOnce(lex: Lexicon, steps: seq<Step>, tenantId: string, contextId: string,
                         options: ContextAssemblyOptions, namespaces: set<string>)
    requires Uses(steps, options, namespaces) && ExceedsBound(lex, steps, tenantId, contextId, options)
    ensures CanExceedBound(namespaces)
  {
  }

  lemma WiderPolicyExceeds(a: ContextAssemblyOptions, b: ContextAssemblyOptions, namespaces: set<string>)
    requires a == a.Normalized() && b == b.Normalized() && PolicyLayout(a) == PolicyLayout(b) && a.Plain() && b.Plain()
    requires a.maxContextBytes > b.maxContextBytes && a.maxContextBytes >= LEAST_RENDERING
    requires a.cacheNamespace in namespaces && b.cacheNamespace in namespaces
    ensures CanExceedBound(namespaces)
  {
    SomeContext();
    NothingIsAsked(a);
    var steps := ForeignPackExceedsBound(NO_TERMS, TEXT, TEXT, a, b);
    RunUses(steps, a, b, namespaces);
    ExceedsBoundOnce(NO_TERMS, steps, TEXT, TEXT, b, namespaces);
  }

  lemma ContinuedPairExceeds(x: string, y: string, namespaces: set<string>)
    requires Continues(x, y) && NormalizeCacheNamespace(x) == x && NormalizeCacheNamespace(y) == y
    requires x in namespaces && y in namespaces
    ensures CanExceedBound(namespaces)
  {
    var a, b := ContinuedNamespacesCollide(x, y);
    NormalizedIs(a);
    NormalizedIs(b);
    if a.maxContextBytes > b.maxContextBytes {
      WiderPolicyExceeds(a, b, namespaces);
    } else {
      WiderPolicyExceeds(b, a, namespaces);
    }
  }

  lemma ApartKeepsBound(lex: Lexicon, steps: seq<Step>, tenantId: string, contextId: string,
                        options: ContextAssemblyOptions, namespaces: set<string>)
    requires Uses(steps, options, namespaces) && !SomeContinues(namespaces)
    ensures !ExceedsBound(lex, steps, tenantId, contextId, options)
  {
    NormalizedInRange(options);
    ApartRunsAgree(steps, options.Normalized());
    EveryAssemblyIsBounded(lex, steps, tenantId, contextId, options);
  }

  /**
   Which namespaces keep the byte bound: over all runs whose assemblies use them, with any texts,
   queries and budgets, an answer can be longer than its byte limit if and only if one of the
   namespaces continues another.
   */
  lemma BoundIsKeptIff(namespaces: set<string>)
    requires NormalizedNamespaces(namespaces)
    ensures CanExceedBound(namespaces) <==> SomeContinues(namespaces)
  {
    if x, y :| x in namespaces && y in namespaces && Continues(x, y) {
      ContinuedPairExceeds(x, y, namespaces);
    } else if lex: Lexicon, steps: seq<Step>, tenantId: string, contextId: string, options: ContextAssemblyOptions :|
      Uses(steps, options, namespaces) && ExceedsBound(lex, steps, tenantId, contextId, options) {
      ApartKeepsBound(lex, steps, tenantId, contextId, options, namespaces);
    }
  }
}
