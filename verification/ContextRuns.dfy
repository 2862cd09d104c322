/** The laws of the context log over every run of appends and assemblies. */
module ContextRuns {
  import opened Wrappers
  import opened Utf8
  import opened ContextPolicy
  import opened ContextPolicyLaws
  import opened ContextChunks
  import opened ContextSelection
  import opened ContextRendering
  import opened ContextState
  import opened ContextInvariants

  datatype Step =
    | AppendStep(tenantId: string, contextId: string, records: seq<ContextAppendRecord>)
    | AssembleStep(tenantId: string, contextId: string, options: ContextAssemblyOptions)

  function Apply(lex: Lexicon, st: ContextState, step: Step): ContextState {
    match step
    case AppendStep(tenantId, contextId, records) => Append(st, tenantId, contextId, records).0
    case AssembleStep(tenantId, contextId, options) => Assemble(lex, st, tenantId, contextId, options).0
  }

  function Run(lex: Lexicon, steps: seq<Step>): ContextState {
    if steps == [] then EMPTY_STATE
    else Apply(lex, Run(lex, steps[..|steps| - 1]), steps[|steps| - 1])
  }

  lemma ApplyKeepsValid(lex: Lexicon, st: ContextState, step: Step)
    requires Valid(st)
    ensures Valid(Apply(lex, st, step))
  {
    match step
    case AppendStep(tenantId, contextId, records) => AppendKeepsValid(st, tenantId, contextId, records);
    case AssembleStep(tenantId, contextId, options) => AssembleKeepsValid(lex, st, tenantId, contextId, options);
  }

  /**
   In every reachable store revisions are dense, `chunk_count` equals the latest revision, and a
   pack stored at a version is a pack of that revision.
   */
  lemma {:induction false} EveryRunIsValid(lex: Lexicon, steps: seq<Step>)
    ensures Valid(Run(lex, steps))
  {
    if steps != [] {
      EveryRunIsValid(lex, steps[..|steps| - 1]);
      ApplyKeepsValid(lex, Run(lex, steps[..|steps| - 1]), steps[|steps| - 1]);
    }
  }

  // ---------------------------------------------------------------- packs of one policy

  /** The budgets hold the whole list: its number, its bytes and its full rendering. */
  predicate FitsWhole(chunks: seq<StoredContextChunk>, o: ContextAssemblyOptions) {
    && |chunks| <= o.maxChunks
    && TotalBytes(chunks) <= o.maxContextBytes
    && ByteLen(RenderAll(chunks)) <= o.maxContextBytes
  }

  function Upto(st: ContextState, scope: Scope, revision: nat): seq<StoredContextChunk> {
    Scan(st.chunks, scope, 1, revision)
  }

  /** A text that may be served for a list of chunks under a policy. */
  predicate SoundFor(lex: Lexicon, chunks: seq<StoredContextChunk>, o: ContextAssemblyOptions, text: string) {
    && ByteLen(text) <= o.maxContextBytes
    && (Terms(lex, o) == [] && FitsWhole(chunks, o) ==> text == RenderAll(chunks))
  }

  predicate TextSound(lex: Lexicon, st: ContextState, scope: Scope, o: ContextAssemblyOptions, revision: nat,
                      text: string) {
    SoundFor(lex, Upto(st, scope, revision), o, text)
  }

  predicate PacksSound(lex: Lexicon, st: ContextState, scope: Scope, o: ContextAssemblyOptions) {
    var cells := PackVersions(st, scope, PolicyLayout(o));
    forall v :: 0 <= v < |cells| && cells[v].Some? ==> TextSound(lex, st, scope, o, v, cells[v].value.text)
  }

  lemma FitsPrefix(a: seq<StoredContextChunk>, b: seq<StoredContextChunk>, o: ContextAssemblyOptions)
    requires FitsWhole(a + b, o)
    ensures FitsWhole(a, o)
    ensures b != [] ==> |b| <= o.maxChunks && TotalBytes(b) <= o.maxContextBytes
    ensures a != [] && b != [] ==> ByteLen(RenderAll(a)) + 2 + ByteLen(RenderAll(b)) <= o.maxContextBytes
  {
    TotalBytesConcat(a, b);
    if a != [] && b != [] {
      RenderAllConcat(a, b);
    } else if b == [] {
      assert a + b == a;
    } else {
      RenderAllEmpty(a);
    }
  }

  /** The pack-plus-tail text renders the whole list when the base text renders its part. */
  lemma TailTextSound(lex: Lexicon, base: seq<StoredContextChunk>, tail: seq<StoredContextChunk>,
                      o: ContextAssemblyOptions, text: string)
    requires base != [] && tail != [] && Ascending(tail) && SoundFor(lex, base, o, text)
    ensures SoundFor(lex, base + tail, o, BehindBase(lex, tail, o, text))
  {
    TrimFrontIsBoundedSuffix(JoinTail(text, TailText(lex, tail, o, text)), o.maxContextBytes);
    if Terms(lex, o) == [] && FitsWhole(base + tail, o) {
      FitsPrefix(base, tail, o);
      FittingListIsChosenWhole(lex, tail, o);
      RenderWhole(tail, Remaining(o, text));
      RenderAllConcat(base, tail);
      RenderAllEmpty(base);
      RenderAllEmpty(tail);
    }
  }

  /**
   Putting a tail behind a base, for any base, chunk list and policy: the rendered tail overshoots
   the bound, or a base that is over it already, by at most the separator; and the front trim never
   touches the tail.
   */
  lemma TailSurvivesTrim(lex: Lexicon, tail: seq<StoredContextChunk>, o: ContextAssemblyOptions, base: string)
    ensures var rendered := TailText(lex, tail, o, base);
      && ByteLen(JoinTail(base, rendered)) <= (if ByteLen(base) <= o.maxContextBytes then o.maxContextBytes
                                               else ByteLen(base)) + 2
      && HasSuffix(BehindBase(lex, tail, o, base), rendered)
      && ByteLen(BehindBase(lex, tail, o, base)) <= o.maxContextBytes
  {
    var rendered := TailText(lex, tail, o, base);
    RenderingIsWholeAndBounded(Choose(lex, tail, o), Remaining(o, base));
    TrimFrontIsBoundedSuffix(JoinTail(base, rendered), o.maxContextBytes);
    if rendered != [] {
      var front := if base == [] then [] else base + SEPARATOR;
      SeparatorLength(base, rendered);
      assert [] + rendered == rendered;
      assert JoinTail(base, rendered) == front + rendered;
      KeepsSuffix(front, rendered, o.maxContextBytes);
    }
  }

  lemma ColdTextSound(lex: Lexicon, chunks: seq<StoredContextChunk>, o: ContextAssemblyOptions)
    requires Ascending(chunks)
    ensures SoundFor(lex, chunks, o, ColdText(lex, chunks, o))
  {
    RenderingIsWholeAndBounded(Choose(lex, chunks, o), o.maxContextBytes);
    if Terms(lex, o) == [] && FitsWhole(chunks, o) {
      FittingListIsChosenWhole(lex, chunks, o);
      RenderWhole(chunks, o.maxContextBytes);
    }
  }

  /** The scan of a prefix and the scan behind it, both in order and neither empty. */
  lemma SplitUpto(st: ContextState, scope: Scope, middle: nat, target: nat)
    requires ScopeValid(st, scope) && AscendingScans(st)
    requires 1 <= middle < target <= Latest(st, scope)
    ensures var base, tail := Upto(st, scope, middle), Scan(st.chunks, scope, middle + 1, target);
      Upto(st, scope, target) == base + tail && base != [] && tail != [] && Ascending(tail)
  {
    ScanSplits(st.chunks, scope, 1, middle, target);
    DenseScan(st.chunks, scope, Latest(st, scope), 1, middle);
    DenseScan(st.chunks, scope, Latest(st, scope), middle + 1, target);
    ScanAscends(st, scope, middle + 1, target);
  }

  lemma BuildSoundFor(lex: Lexicon, before: seq<StoredContextChunk>, loaded: seq<StoredContextChunk>, scope: Scope,
                      o: ContextAssemblyOptions, target: nat, base: Option<ContextPack>)
    requires Ascending(loaded)
    requires base.None? ==> before == []
    requires base.Some? ==> before != [] && loaded != [] && SoundFor(lex, before, o, base.value.text)
    ensures SoundFor(lex, before + loaded, o, Build(lex, loaded, scope, o, target, base).text)
  {
    if base.Some? {
      TailTextSound(lex, before, loaded, o, base.value.text);
    } else {
      ColdTextSound(lex, loaded, o);
      assert before + loaded == loaded;
    }
  }

  /** An older pack with a tail behind it. */
  lemma TailSound(lex: Lexicon, st: ContextState, scope: Scope, o: ContextAssemblyOptions, target: nat,
                  pack: ContextPack)
    requires ScopeValid(st, scope) && AscendingScans(st) && 1 <= pack.revision < target <= Latest(st, scope)
    requires TextSound(lex, st, scope, o, pack.revision, pack.text)
    ensures TextSound(lex, st, scope, o, target,
                      Build(lex, Scan(st.chunks, scope, pack.revision + 1, target), scope, o, target, Some(pack)).text)
  {
    SplitUpto(st, scope, pack.revision, target);
    BuildSoundFor(lex, Upto(st, scope, pack.revision), Scan(st.chunks, scope, pack.revision + 1, target),
                  scope, o, target, Some(pack));
  }

  /** Recomputation from the first chunk. */
  lemma ColdSound(lex: Lexicon, st: ContextState, scope: Scope, o: ContextAssemblyOptions, target: nat)
    requires AscendingScans(st)
    ensures TextSound(lex, st, scope, o, target,
                      Build(lex, Upto(st, scope, target), scope, o, target, None).text)
  {
    ScanAscends(st, scope, 1, target);
    BuildSoundFor(lex, [], Upto(st, scope, target), scope, o, target, None);
    assert [] + Upto(st, scope, target) == Upto(st, scope, target);
  }

  lemma ColdPathSound(lex: Lexicon, st: ContextState, scope: Scope, o: ContextAssemblyOptions, target: nat)
    requires AscendingScans(st)
    ensures TextSound(lex, st, scope, o, target, AssemblyFrom(lex, st, scope, o, target, None).text)
  {
    ColdSound(lex, st, scope, o, target);
  }

  lemma TailPathSound(lex: Lexicon, st: ContextState, scope: Scope, o: ContextAssemblyOptions, target: nat,
                      pack: ContextPack)
    requires ScopeValid(st, scope) && AscendingScans(st) && 1 <= pack.revision < target <= Latest(st, scope)
    requires TextSound(lex, st, scope, o, pack.revision, pack.text)
    ensures TextSound(lex, st, scope, o, target, AssemblyFrom(lex, st, scope, o, target, Some(pack)).text)
  {
    TailSound(lex, st, scope, o, target, pack);
    TailPath(lex, st, scope, o, target, pack);
  }

  lemma TailPath(lex: Lexicon, st: ContextState, scope: Scope, o: ContextAssemblyOptions, target: nat,
                 pack: ContextPack)
    requires pack.revision < target
    ensures AssemblyFrom(lex, st, scope, o, target, Some(pack))
         == Build(lex, Scan(st.chunks, scope, pack.revision + 1, target), scope, o, target, Some(pack))
  {
    assert !IsExact(Some(pack), target) && Base(Some(pack), target) == Some(pack);
    assert FirstLoaded(Some(pack)) == pack.revision + 1;
  }

  lemma ExactPathSound(lex: Lexicon, st: ContextState, scope: Scope, o: ContextAssemblyOptions, pack: ContextPack)
    requires TextSound(lex, st, scope, o, pack.revision, pack.text)
    ensures TextSound(lex, st, scope, o, pack.revision, AssemblyFrom(lex, st, scope, o, pack.revision, Some(pack)).text)
  {
  }

  /** The three paths, for whichever pack was read. */
  lemma PathsSound(lex: Lexicon, st: ContextState, scope: Scope, o: ContextAssemblyOptions, target: nat,
                   cached: Option<ContextPack>)
    requires ScopeValid(st, scope) && AscendingScans(st) && target <= Latest(st, scope)
    requires cached.Some? ==> 1 <= cached.value.revision <= target
                              && TextSound(lex, st, scope, o, cached.value.revision, cached.value.text)
    ensures TextSound(lex, st, scope, o, target, AssemblyFrom(lex, st, scope, o, target, cached).text)
  {
    if cached.None? {
      ColdPathSound(lex, st, scope, o, target);
    } else if cached.value.revision < target {
      TailPathSound(lex, st, scope, o, target, cached.value);
    } else {
      ExactPathSound(lex, st, scope, o, cached.value);
    }
  }

  /** All three paths of `assemble` serve a sound text. */
  lemma AssemblySound(lex: Lexicon, st: ContextState, scope: Scope, o: ContextAssemblyOptions, target: nat)
    requires Valid(st) && 1 <= target <= Latest(st, scope) && PacksSound(lex, st, scope, o)
    ensures TextSound(lex, st, scope, o, target, AssemblyAt(lex, st, scope, o, target).text)
  {
    ValidAscends(st);
    assert ScopeValid(st, scope);
    CachedPackIsOld(st, scope, o, target);
    PathsSound(lex, st, scope, o, target, CachedPack(st, scope, o, target));
  }

  // ---------------------------------------------------------------- soundness of packs over runs

  /** Every assembly of the run that shares the cache key of `o` also shares its policy. */
  predicate Agrees(steps: seq<Step>, o: ContextAssemblyOptions) {
    forall i :: 0 <= i < |steps| && steps[i].AssembleStep? ==>
                  var n := steps[i].options.Normalized();
                  PolicyLayout(n) == PolicyLayout(o) ==> SamePolicy(n, o)
  }

  lemma NormalizedInRange(o: ContextAssemblyOptions)
    ensures o.Normalized().InRange()
  {
  }

  /** Runs in which no namespace continues that of `o`, or the other way around, keep their policies apart from `o`. */
  lemma ApartRunsAgree(steps: seq<Step>, o: ContextAssemblyOptions)
    requires o.InRange()
    requires forall i :: 0 <= i < |steps| && steps[i].AssembleStep? ==>
                           var namespace := steps[i].options.Normalized().cacheNamespace;
                           !Continues(namespace, o.cacheNamespace) && !Continues(o.cacheNamespace, namespace)
    ensures Agrees(steps, o)
  {
    forall i | 0 <= i < |steps| && steps[i].AssembleStep?
      ensures var n := steps[i].options.Normalized();
              PolicyLayout(n) == PolicyLayout(o) ==> SamePolicy(n, o)
    {
      NormalizedInRange(steps[i].options);
      PolicyLayoutIdentifiesPolicy(steps[i].options.Normalized(), o);
    }
  }

  /** In particular namespaces without U+0000 do. */
  lemma NulFreeRunsAgree(steps: seq<Step>, o: ContextAssemblyOptions)
    requires o.InRange() && '\0' !in o.cacheNamespace
    requires forall i :: 0 <= i < |steps| && steps[i].AssembleStep? ==>
                           '\0' !in steps[i].options.Normalized().cacheNamespace
    ensures Agrees(steps, o)
  {
    forall i | 0 <= i < |steps| && steps[i].AssembleStep?
      ensures var namespace := steps[i].options.Normalized().cacheNamespace;
              !Continues(namespace, o.cacheNamespace) && !Continues(o.cacheNamespace, namespace)
    {
      PlainNamespacesAreApart(steps[i].options.Normalized().cacheNamespace, o.cacheNamespace);
    }
    ApartRunsAgree(steps, o);
  }

  lemma SoundUnderSamePolicy(lex: Lexicon, st: ContextState, scope: Scope, a: ContextAssemblyOptions,
                             b: ContextAssemblyOptions)
    requires SamePolicy(a, b)
    ensures forall v, text :: TextSound(lex, st, scope, a, v, text) <==> TextSound(lex, st, scope, b, v, text)
    ensures PacksSound(lex, st, scope, a) <==> PacksSound(lex, st, scope, b)
  {
  }

  /** Appending leaves every chunk up to the previous latest revision alone. */
  lemma AppendKeepsUpto(st: ContextState, target: Scope, records: seq<ContextAppendRecord>, scope: Scope, revision: nat)
    requires revision <= Latest(st, scope) && ScopeValid(st, scope)
    ensures Upto(AppendRecords(st, target, records), scope, revision) == Upto(st, scope, revision)
  {
    StoreChunksAdds(st.chunks, target, Latest(st, target), records);
    ScanUnchanged(st.chunks, AppendRecords(st, target, records).chunks, scope, 1, revision);
  }

  lemma AppendKeepsPacksSound(lex: Lexicon, st: ContextState, target: Scope, records: seq<ContextAppendRecord>,
                              scope: Scope, o: ContextAssemblyOptions)
    requires ScopeValid(st, scope) && PacksSound(lex, st, scope, o)
    ensures PacksSound(lex, AppendRecords(st, target, records), scope, o)
  {
    var cells := PackVersions(st, scope, PolicyLayout(o));
    assert PacksValid(cells, Latest(st, scope));
    forall v | 0 <= v < |cells| && cells[v].Some?
      ensures TextSound(lex, AppendRecords(st, target, records), scope, o, v, cells[v].value.text)
    {
      AppendKeepsUpto(st, target, records, scope, v);
    }
  }

  lemma WritePackKeepsPacksSound(lex: Lexicon, st: ContextState, target: Scope, n: ContextAssemblyOptions,
                                 assembly: ContextAssembly, scope: Scope, o: ContextAssemblyOptions)
    requires PacksSound(lex, st, scope, o)
    requires PolicyLayout(n) == PolicyLayout(o) ==> SamePolicy(n, o)
    requires TextSound(lex, st, target, n, assembly.revision, assembly.text)
           || (PolicyLayout(n) != PolicyLayout(o) || target != scope)
    ensures PacksSound(lex, WritePack(st, target, PolicyLayout(n), assembly), scope, o)
  {
    var after := WritePack(st, target, PolicyLayout(n), assembly);
    var before, cells := PackVersions(st, scope, PolicyLayout(o)), PackVersions(after, scope, PolicyLayout(o));
    if target == scope && PolicyLayout(n) == PolicyLayout(o) {
      SoundUnderSamePolicy(lex, st, scope, n, o);
    } else {
      assert cells == before;
    }
  }

  lemma AssembleAtKeepsPacksSound(lex: Lexicon, st: ContextState, target: Scope, n: ContextAssemblyOptions,
                                  revision: nat, scope: Scope, o: ContextAssemblyOptions)
    requires Valid(st) && PacksSound(lex, st, scope, o) && 1 <= revision <= Latest(st, target)
    requires PolicyLayout(n) == PolicyLayout(o) ==> SamePolicy(n, o)
    ensures PacksSound(lex, AssembleAt(lex, st, target, n, revision).0, scope, o)
  {
    var assembly := AssemblyAt(lex, st, target, n, revision);
    assert ScopeValid(st, target);
    AssemblyIsAccounted(lex, st, target, n, revision);
    if target == scope && PolicyLayout(n) == PolicyLayout(o) {
      SoundUnderSamePolicy(lex, st, scope, n, o);
      AssemblySound(lex, st, scope, n, revision);
    }
    WritePackKeepsPacksSound(lex, st, target, n, assembly, scope, o);
  }

  lemma AssembleKeepsPacksSound(lex: Lexicon, st: ContextState, tenantId: string, contextId: string,
                                options: ContextAssemblyOptions, scope: Scope, o: ContextAssemblyOptions)
    requires Valid(st) && PacksSound(lex, st, scope, o)
    requires PolicyLayout(options.Normalized()) == PolicyLayout(o) ==> SamePolicy(options.Normalized(), o)
    ensures PacksSound(lex, Assemble(lex, st, tenantId, contextId, options).0, scope, o)
  {
    var target, n := Scope(tenantId, contextId), options.Normalized();
    assert ScopeValid(st, target);
    TargetOfHead(st, target, n);
    var head := HeadAt(st, target, n.rewindRevision);
    if head.Some? {
      AssembleAtKeepsPacksSound(lex, st, target, n, TargetRevision(n, head.value), scope, o);
    }
  }

  lemma ApplyKeepsPacksSound(lex: Lexicon, st: ContextState, step: Step, scope: Scope, o: ContextAssemblyOptions)
    requires Valid(st) && PacksSound(lex, st, scope, o)
    requires step.AssembleStep? ==>
               var n := step.options.Normalized();
               PolicyLayout(n) == PolicyLayout(o) ==> SamePolicy(n, o)
    ensures PacksSound(lex, Apply(lex, st, step), scope, o)
  {
    match step
    case AppendStep(tenantId, contextId, records) =>
      assert ScopeValid(st, scope);
      AppendKeepsPacksSound(lex, st, Scope(tenantId, contextId), NonBlank(records), scope, o);
    case AssembleStep(tenantId, contextId, options) =>
      AssembleKeepsPacksSound(lex, st, tenantId, contextId, options, scope, o);
  }

  lemma {:induction false} PacksStaySound(lex: Lexicon, steps: seq<Step>, scope: Scope, o: ContextAssemblyOptions)
    requires Agrees(steps, o)
    ensures PacksSound(lex, Run(lex, steps), scope, o)
  {
    if steps != [] {
      var before, last := steps[..|steps| - 1], steps[|steps| - 1];
      assert Agrees(before, o);
      PacksStaySound(lex, before, scope, o);
      EveryRunIsValid(lex, before);
      assert steps[|steps| - 1] == last;
      ApplyKeepsPacksSound(lex, Run(lex, before), last, scope, o);
    }
  }

  // ---------------------------------------------------------------- the main results

  /** An assembly of a non-empty context, and what every one of them satisfies. */
  predicate Bounded(assembly: ContextAssembly, o: ContextAssemblyOptions) {
    && assembly.includedBytes == ByteLen(assembly.text)
    && assembly.includedBytes <= o.maxContextBytes
    && assembly.includedChunks == assembly.revision
    && (assembly.baseCacheRevision.Some? ==>
          assembly.baseCacheRevision.value + assembly.tailChunks == assembly.revision)
  }

  /**
   Whatever happened before, and whichever of the three paths answers, the text stays within the
   byte bound, its size is reported exactly, and the revision accounting is right.
   */
  lemma EveryAssemblyIsBounded(lex: Lexicon, steps: seq<Step>, tenantId: string, contextId: string,
                               options: ContextAssemblyOptions)
    requires Agrees(steps, options.Normalized())
    ensures var r := Assemble(lex, Run(lex, steps), tenantId, contextId, options).1;
      r.Success? ==> Bounded(r.value, options.Normalized())
  {
    var st, scope, o := Run(lex, steps), Scope(tenantId, contextId), options.Normalized();
    EveryRunIsValid(lex, steps);
    PacksStaySound(lex, steps, scope, o);
    assert ScopeValid(st, scope);
    TargetOfHead(st, scope, o);
    var head := HeadAt(st, scope, o.rewindRevision);
    if head.Some? {
      var target := TargetRevision(o, head.value);
      AssemblyIsAccounted(lex, st, scope, o, target);
      AssemblySound(lex, st, scope, o, target);
    }
  }

  /** A text that is a base within the bound with a tail put behind it, and ends with the rendering of the tail. */
  predicate PutBehind(lex: Lexicon, tail: seq<StoredContextChunk>, o: ContextAssemblyOptions, base: string,
                      text: string) {
    && ByteLen(base) <= o.maxContextBytes
    && text == BehindBase(lex, tail, o, base)
    && HasSuffix(text, TailText(lex, tail, o, base))
  }

  /** An answer on top of an older pack. */
  predicate OnOlderPack(lex: Lexicon, st: ContextState, scope: Scope, o: ContextAssemblyOptions,
                        assembly: ContextAssembly) {
    var cached := CachedPack(st, scope, o, assembly.revision);
    && cached.Some? && cached.value.revision < assembly.revision
    && assembly.baseCacheRevision == Some(cached.value.revision)
    && PutBehind(lex, Scan(st.chunks, scope, FirstLoaded(cached), assembly.revision), o, cached.value.text,
                 assembly.text)
  }

  lemma TailPathPutsBehind(lex: Lexicon, st: ContextState, scope: Scope, o: ContextAssemblyOptions, target: nat,
                           pack: ContextPack)
    requires pack.revision < target && ByteLen(pack.text) <= o.maxContextBytes
    requires CachedPack(st, scope, o, target) == Some(pack)
    ensures OnOlderPack(lex, st, scope, o, AssemblyFrom(lex, st, scope, o, target, Some(pack)))
  {
    TailSurvivesTrim(lex, Scan(st.chunks, scope, FirstLoaded(Some(pack)), target), o, pack.text);
  }

  lemma TailOfPack(lex: Lexicon, st: ContextState, scope: Scope, o: ContextAssemblyOptions, target: nat)
    requires ScopeValid(st, scope) && PacksSound(lex, st, scope, o) && 1 <= target <= Latest(st, scope)
    ensures var assembly := AssemblyAt(lex, st, scope, o, target);
      assembly.baseCacheRevision.Some? && assembly.tailChunks > 0 ==> OnOlderPack(lex, st, scope, o, assembly)
  {
    var cached := CachedPack(st, scope, o, target);
    CachedPackIsOld(st, scope, o, target);
    if cached.Some? && cached.value.revision < target {
      assert TextSound(lex, st, scope, o, cached.value.revision, cached.value.text);
      TailPathPutsBehind(lex, st, scope, o, target, cached.value);
    }
  }

  /**
   The middle path after any run: an answer with a tail is the text of an older pack, within the
   bound, with the tail put behind it, and it ends with the whole rendering of the chunks chosen from
   the revisions that the older pack does not cover.
   */
  lemma EveryTailSurvives(lex: Lexicon, steps: seq<Step>, tenantId: string, contextId: string,
                          options: ContextAssemblyOptions)
    requires Agrees(steps, options.Normalized())
    ensures var st, scope, o := Run(lex, steps), Scope(tenantId, contextId), options.Normalized();
      var r := Assemble(lex, st, tenantId, contextId, options).1;
      r.Success? && r.value.baseCacheRevision.Some? && r.value.tailChunks > 0 ==>
        OnOlderPack(lex, st, scope, o, r.value)
  {
    var st, scope, o := Run(lex, steps), Scope(tenantId, contextId), options.Normalized();
    EveryRunIsValid(lex, steps);
    PacksStaySound(lex, steps, scope, o);
    assert ScopeValid(st, scope);
    TargetOfHead(st, scope, o);
    var head := HeadAt(st, scope, o.rewindRevision);
    if head.Some? {
      TailOfPack(lex, st, scope, o, TargetRevision(o, head.value));
    }
  }

  /** The revision that an assembly answers for. */
  function Answered(st: ContextState, scope: Scope, o: ContextAssemblyOptions): nat {
    match HeadAt(st, scope, o.rewindRevision)
    case None => 0
    case Some(head) => head.latestRevision
  }

  /**
   The cache refines the simple computation: when the query has no terms and everything up to
   the answered revision fits, exact hit, older pack plus tail, and recomputation all return the
   rendering of every chunk, and turning the cache off changes no text and no count.
   */
  lemma CacheRefinesRecompute(lex: Lexicon, steps: seq<Step>, tenantId: string, contextId: string,
                              options: ContextAssemblyOptions)
    requires ScopeError(tenantId, contextId) == None
    requires Agrees(steps, options.Normalized())
    requires Terms(lex, options) == []
    requires var st, scope := Run(lex, steps), Scope(tenantId, contextId);
             FitsWhole(Upto(st, scope, Answered(st, scope, options)), options.Normalized())
    ensures var st, scope := Run(lex, steps), Scope(tenantId, contextId);
      var cached := Assemble(lex, st, tenantId, contextId, options).1;
      var cold := Assemble(lex, st, tenantId, contextId, options.(cacheEnabled := false)).1;
      && cached.Success? && cold.Success?
      && cached.value.text == cold.value.text == RenderAll(Upto(st, scope, Answered(st, scope, options)))
      && cached.value.revision == cold.value.revision == Answered(st, scope, options)
      && cached.value.includedChunks == cold.value.includedChunks
  {
    var st, scope := Run(lex, steps), Scope(tenantId, contextId);
    EveryRunIsValid(lex, steps);
    PacksStaySound(lex, steps, scope, options.Normalized());
    WholeAnswer(lex, st, tenantId, contextId, options);
    NoCacheIsSound(lex, st, scope, options.(cacheEnabled := false).Normalized());
    WholeAnswer(lex, st, tenantId, contextId, options.(cacheEnabled := false));
  }

  lemma NoCacheIsSound(lex: Lexicon, st: ContextState, scope: Scope, o: ContextAssemblyOptions)
    requires Valid(st) && !o.cacheEnabled
    ensures forall target :: 1 <= target <= Latest(st, scope) ==>
                               TextSound(lex, st, scope, o, target, AssemblyAt(lex, st, scope, o, target).text)
  {
    ValidAscends(st);
    forall target | 1 <= target <= Latest(st, scope)
      ensures TextSound(lex, st, scope, o, target, AssemblyAt(lex, st, scope, o, target).text)
    {
      ColdSound(lex, st, scope, o, target);
    }
  }

  /** One call, given that its text is sound. */
  lemma WholeAnswer(lex: Lexicon, st: ContextState, tenantId: string, contextId: string,
                    options: ContextAssemblyOptions)
    requires Valid(st) && ScopeError(tenantId, contextId) == None && Terms(lex, options) == []
    requires var scope := Scope(tenantId, contextId);
      && (PacksSound(lex, st, scope, options.Normalized()) || !options.cacheEnabled)
      && FitsWhole(Upto(st, scope, Answered(st, scope, options)), options.Normalized())
    ensures var scope := Scope(tenantId, contextId);
      var r := Assemble(lex, st, tenantId, contextId, options).1;
      && r.Success?
      && r.value.text == RenderAll(Upto(st, scope, Answered(st, scope, options)))
      && r.value.revision == r.value.includedChunks == Answered(st, scope, options)
  {
    var scope, o := Scope(tenantId, contextId), options.Normalized();
    assert ScopeValid(st, scope);
    TargetOfHead(st, scope, o);
    var head := HeadAt(st, scope, o.rewindRevision);
    if head.Some? {
      var target := TargetRevision(o, head.value);
      AssemblyIsAccounted(lex, st, scope, o, target);
      if options.cacheEnabled {
        AssemblySound(lex, st, scope, o, target);
      } else {
        NoCacheIsSound(lex, st, scope, o);
      }
    } else {
      RenderAllEmpty([]);
    }
  }
}
