# Orchestration gateway: model and proofs

This project models, in Dafny 4.11, the parts of the gateway that carry state or a protocol, and
proves what they guarantee for every input, every run and every answer a provider may give.

| component | files |
|---|---|
| versioned context log and its pack cache | `ContextPolicy`, `ContextPolicyLaws`, `ContextKeys`, `ContextScan`, `VersionedMap`, `ContextChunks`, `ContextSelection`, `ContextRelevance`, `ContextRendering`, `ContextState`, `ContextStore`, `ContextAppends`, `ContextReads`, `ContextInvariants`, `ContextRuns`, `ContextForeignPacks`, `ContextRewind` |
| orchestration kernel | `KernelTypes`, `KernelState`, `KernelStores`, `KernelAbsorption`, `KernelBudgets`, `PlanReconciliation`, `PlanLaws`, `PlanCrosschecks`, `TaskOrder`, `FanOut`, `FanOutOrders`, `ModelProvider`, `ResponseTexts`, `SemanticVerification`, `SemanticTranscripts`, `KernelRun`, `KernelRunner`, `KernelRunLaws`, `KernelPlanning`, `KernelFinalText`, `KernelUsage`, `KernelAnswers`, `KernelHelpers`, `KernelRunWitness` |
| layout of final answers | `StructuredLayout`, `StructuredLayoutLaws`, `StructuredLayoutStability`, `StructuredLayoutLabels`, `StructuredLayoutWhole` |
| plans in short form | `MinimalPlan`, `MinimalPlanLaws`, `FreshNames` |
| event streams | `SseFrames`, `SseStream`, `SseInvariance`, `SseMeaning` |
| durable storage and batch jobs | `DurableStore`, `BatchItems`, `AnthropicBatch`, `AnthropicBatchEndings`, `OpenAiBatch`, `OpenAiBatchEndings`, `BatchProvenance`, `BatchCancels` |
| shared | `Wrappers`, `Sequences`, `RustText`, `Utf8`, `Decimal`, `TextOrder` |

## How the model is built

Code that updates state in place is a class or a method with loops: the context store, the
artifact store, tool ledger and task graph, the running session of the kernel, the event stream,
the durable tables, the selection, rendering, layout, slug and tally loops. Each method is proved
equal to a function of the old state (`ContextState`, `KernelState`, `KernelRun`, ...), and the
properties are lemmas about those functions, over every run. Concurrency is a state machine over
steps: the fan-out pool (`FanOut`), the batch runners with their cancel handlers, crashes and
recoveries (`AnthropicBatch`, `AnthropicBatchEndings`, `OpenAiBatch`, `OpenAiBatchEndings`). What these functions
come to is stated once more in terms of inputs, replies and steps alone, without the functions that
compute it: `ContextRelevance`, `ContextAppends`, `ContextReads`, `SseMeaning`, `KernelFinalText`,
`SemanticTranscripts`, `StructuredLayoutWhole`, `MinimalPlanLaws`, `BatchProvenance` and others.

* Texts are sequences of Unicode scalar values; where the code counts or cuts bytes, `Utf8`
  encodes and decodes them as section 3 of RFC 3629 says, with the lossy decoder of the Rust
  standard library.
* The model provider is an arbitrary list of replies, one per call; a list that has run out
  answers with a timeout. What parses as JSON (stream payloads, verdicts, plans) is a table from
  texts to parsed values, so every theorem holds for every meaning of those texts.
* SHA-256 is injective: a cache policy is the byte string that is hashed, and tenant hashes are an
  injective table of texts without a colon.
* Tokenisation, case folding and term matching of the chunk score are the tables of `Lexicon`.

## What the proofs found

* Byte layout of the cache policy: two namespaces keep their policies apart exactly when neither
  continues the other with U+0000 and bytes that read as budgets in range (`NamespacesApartIff`).
  `CacheRefinesRecompute` and the byte bound therefore ask that no earlier assembly had another
  policy under the same key (`Agrees`); `ApartRunsAgree` says which namespaces ensure that. Over all
  runs with a given set of namespaces an answer can be longer than its byte limit exactly when one of
  them continues another (`BoundIsKeptIff`).
* Below saturation the recency bonus and the revision in a chunk's priority never decide anything but
  that of two equally good matches the newer one comes first (`OutranksIffMoreMatchesOrNewer`); being
  recent matters only to whether a chunk without a match is considered at all (`RankedIffRelevant`).
* A run that is not direct makes at most N + 2m + 10 provider calls, or one more when the accepted
  plan gives no task a parent and the root is asked after planning (`ProviderCallsAreBounded`). For
  every N and m such a run exists exactly for requests whose root may spawn and has tools, with
  public reasoning and semantic verification switched on (`MostCallsAreMadeIff`).
* The branch that asks the root before planning never runs, and no preface of the root is ever kept:
  every effort that is not direct has at least four agents (`RootToolGateStaysShut`).
* The spawn validator accepts two children with one id in the same plan (`PlanAcceptedIff`), so the
  exact agent count needs distinct ids (`ExactChildCount`).
* The kernel inserts its own summary, synthesis, verifier and repair tasks without a check, so one
  of them replaces a planned child that has its name, and no other child (`EveryOutputGraphIsCovered`).
* Of several failing children a schedule can have any of the first `max_parallel_agents` failed ones
  reported, and no other; so the report depends on the schedule exactly when two of those failed with
  different errors (`ReportedFailures`, `ReportIsDeterminedIff`). Whether a run fails, and everything
  a successful run returns, does not.
* The tag pass is idempotent exactly on texts where no tag has anything but whitespace behind it
  (`TagPassIdempotentIff`); the label pass can tear a tag apart (`LabelPassSplitsTag`), and does so to
  a tag on a line of its own exactly when the tag has a break point (`TagOnItsLineIsTornIff`).
* Decoding an event stream chunk by chunk gives back the text exactly when no chunk begins inside a
  character (`ChunksDecodeWholeIffAligned`).
* The framing accepts only a pair of line feeds as a frame end and trims all white space in front
  of a data value; section 9.2.5 of the WHATWG HTML Living Standard also allows carriage returns and
  section 9.2.6 removes a single space.
* `ended` is final exactly when no cancel request is between its read and its write
  (`EndedIsAbsorbingIff`, `EndedCanBeUndone`). A stale recovery can rewrite the results under an ended
  record, so that its counts are no longer their tally (`EndedCountsCanDisagree`); they stay their
  tally exactly when nothing under way can report anything else (`EndedStaysTalliedIff`). For the
  terminal statuses of an OpenAI batch it also takes that no worker or recovery that read the record
  earlier is still to begin (`TerminalIsAbsorbingIff`, `CompletedCanBeReopened`).
* A worker writes back the cancel request as it took it over, so one that is stored while it works is
  not in the ended record (`WorkerWritesBackItsRequest`).
* The counters of an OpenAI batch are added to, not reset, when a worker is recovered, so a crash
  while finalizing makes them exceed the total (`RecoveredRunCountsTwice`). A worker that does its
  items ends with counters that add up exactly when it read them at zero; a worker that is turned
  away at its start writes back what it read, which can leave an item uncounted
  (`CountersOfEndedRun`, `TurnedAwayRunsMiscount`).

## Model

| member | source | states |
|---|---|---|
| `ContextStore.SurrealKvContextStore.Append` | crates/context-store/src/lib.rs:41-98 | the loop over the records, with its one write of the head, leaves the store that the specification of an append computes; the `ContextAppends` rows say what that is |
| `ContextAppends.AppendStoresInOrder` | crates/context-store/src/lib.rs:50-88 | each record that is not blank is stored with its own role and text at the latest revision plus one plus the number of such records before it |
| `ContextAppends.AppendGrowsByWritten` | crates/context-store/src/lib.rs:50-97 | the latest revision and the answer grow by the number of records that are not blank, also when there are none |
| `ContextAppends.AppendKeepsTheRest` | crates/context-store/src/lib.rs:60-97 | no stored chunk changes, no other is added, and no other context is touched |
| `ContextAppends.AppendIsReadBack` | crates/context-store/src/lib.rs:50-88 | scanning the new revisions gives the written records in the order they were given |
| `ContextAppends.BlankNamesAreRefused` | crates/context-store/src/lib.rs:47-48 | exactly a blank tenant or context name is refused, the tenant first, and nothing changes |
| `ContextStore.SurrealKvContextStore.Head` | crates/context-store/src/lib.rs:100-118 | the head at a revision is the one with the greatest version at or below it |
| `ContextStore.SurrealKvContextStore.LoadChunks` | crates/context-store/src/lib.rs:223-251 | the scan over the chunk keys returns exactly the chunks of the scope with a revision in the range, in revision order |
| `ContextStore.SurrealKvContextStore.Assemble` | crates/context-store/src/lib.rs:120-221 | exact hit, older pack plus tail, or recomputation; everything but an exact hit is written back as a pack of the target revision |
| `ContextReads.AssemblyTellsItsPath` | crates/context-store/src/lib.rs:144-220 | cache_hit, base revision and tail_chunks tell which path answered: a base only with the cache, at or below the revision, and a tail only behind an older one |
| `ContextReads.EmptyContextReadsEmpty` | crates/context-store/src/lib.rs:129-142 | a context with nothing at the revision asked for reads as empty, with all counts zero, and the read leaves nothing behind |
| `ContextReads.EveryReadWritesOnlyPacks` | crates/context-store/src/lib.rs:120-221 | a read changes nothing but the pack under its own policy, and nothing at all without the cache |
| `ContextReads.SecondReadIsExactHit` | crates/context-store/src/lib.rs:150-166 | whichever path answered, the same read again is an exact hit with the same text and counts, and changes nothing |
| `ContextReads.NormalizedIsNearest` | crates/context-store/src/lib.rs:434-440 | every limit becomes the nearest one that is allowed, and nothing else of the options changes |
| `ContextReads.NamespaceIsCutOff` | crates/context-store/src/lib.rs:608-615 | a blank name space becomes the default one, any other is trimmed and cut to 256 characters |
| `ContextStore.SurrealKvContextStore.WritePack` | crates/context-store/src/lib.rs:267-295 | the pack is stored under the policy at the version of its own revision, and nothing at revision 0 |
| `ContextStore.JoinBounded` | crates/context-store/src/lib.rs:178-184 | an empty tail adds no separator; otherwise base, blank line, tail, trimmed from the front |
| `VersionedMap.GetAtIsNewest` | crates/context-store/src/lib.rs:109-113 | a read at a version returns the newest value at or below it |
| `VersionedMap.GetAtBelow` | crates/context-store/src/lib.rs:91-96 | a write at any version, newer or older than what is stored, is invisible to every read below it |
| `ContextKeys.FlattenInjective` | crates/context-store/src/lib.rs:626-676 | head, chunk, pack and JSON keys never collide, within a family or across families |
| `ContextKeys.ScanIsExact` | crates/context-store/src/lib.rs:234-240 | the range from the chunk prefix to the prefix and 0xff contains exactly the chunk keys of one tenant and context |
| `ContextKeys.ChunkKeysAreInRevisionOrder` | crates/context-store/src/lib.rs:644-648 | for 64-bit revisions the twenty-digit keys are ordered as the numbers |
| `ContextScan.RangeScanIsScan` | crates/context-store/src/lib.rs:234-249 | over a tree with all families of keys, what the loop keeps of the byte range is the scan of the structured chunks: those of the scope and the revisions asked for, in revision order |
| `ContextPolicyLaws.PolicyLayoutIdentifiesPolicy` | crates/context-store/src/lib.rs:595-606 | unless one namespace continues the other, two policies in range share a cache key exactly when namespace, budgets and query are the same |
| `ContextPolicyLaws.NamespacesApartIff` | crates/context-store/src/lib.rs:595-606 | for two namespaces, sharing a key always means being the same policy if and only if neither is the other followed by U+0000 and bytes that read as budgets in range |
| `ContextPolicyLaws.ContinuedNamespacesCollide` | crates/context-store/src/lib.rs:595-615 | whenever one namespace continues the other there are two policies in range with one key and different byte limits |
| `ContextChunks.ChooseChunks` | crates/context-store/src/lib.rs:491-549 | the selection loop picks as the greedy pass over the ranked candidates and returns the picks in revision order |
| `ContextChunks.SelectGreedily` | crates/context-store/src/lib.rs:536-547 | the loop with its early exit and its skips selects the revisions of the full greedy pass |
| `ContextSelection.PriorityIsLexicographic` | crates/context-store/src/lib.rs:519-521 | below saturation the packed priority orders by score, then recency, then capped revision |
| `ContextSelection.RankSorted` | crates/context-store/src/lib.rs:529-534 | candidates are ranked by priority and then revision, both descending |
| `ContextSelection.PickedIffItFits` | crates/context-store/src/lib.rs:538-547 | a candidate is selected exactly when it still fits beside those of its betters that were selected |
| `ContextSelection.SelectionIsBoundedAndMaximal` | crates/context-store/src/lib.rs:491-549 | the result is in revision order, at most max_chunks, within the byte budget or one chunk, and no admitted chunk left out would still fit unless the count is full |
| `ContextSelection.NewestFirst` | crates/context-store/src/lib.rs:513-534 | without query terms the ranking is strictly newest first |
| `ContextSelection.FittingListIsChosenWhole` | crates/context-store/src/lib.rs:491-549 | without query terms a list within both budgets is selected whole |
| `ContextRelevance.RankedIffRelevant` | crates/context-store/src/lib.rs:513-527 | a chunk is ranked exactly when the query has no terms, the chunk matches, or it is one of the last recent_tail_chunks |
| `ContextRelevance.RankedByRelevance` | crates/context-store/src/lib.rs:515-534 | below saturation a chunk ranks in front of another exactly by matches, then recency, then capped revision, then revision |
| `ContextRelevance.OutranksIffMoreMatchesOrNewer` | crates/context-store/src/lib.rs:519-534 | the last three only repeat that the newer chunk comes first |
| `ContextRelevance.NoQueryRanksNewestFirst` | crates/context-store/src/lib.rs:499-534 | an absent query and an empty one rank strictly newest first |
| `ContextRelevance.ChosenIffItFitsBesideItsBetters` | crates/context-store/src/lib.rs:491-549 | the selection without ranking and without a pass: a chunk is selected exactly when it is relevant and still fits, in number and bytes, beside the selected chunks that outrank it; the first always fits |
| `ContextRelevance.BestIsChosen` | crates/context-store/src/lib.rs:491-549 | with max_chunks one the selection is the one relevant chunk that outranks all others, and empty only without a relevant chunk |
| `ContextRelevance.MostMatchesWin` | crates/context-store/src/lib.rs:572-581 | with max_chunks one and a query with terms, the chunk with more matches than every other is selected |
| `ContextRendering.RenderChunks` | crates/context-store/src/lib.rs:551-570 | the rendering loop appends a part whole or skips it |
| `ContextRendering.PartTellsChunk` | crates/context-store/src/lib.rs:554-559 | revision, role and trimmed text can be told from a rendered part |
| `ContextRendering.RenderingIsWholeAndBounded` | crates/context-store/src/lib.rs:551-570 | what is rendered is within the byte bound and consists of whole parts |
| `ContextRendering.RenderAllConcat` | crates/context-store/src/lib.rs:551-570 | unbounded rendering distributes over concatenation with one blank line between |
| `ContextRendering.TrimToCharBoundary` | crates/context-store/src/lib.rs:691-701 | the front trim cuts at the first character boundary that leaves at most max_bytes, and the result is valid UTF-8 |
| `ContextRuns.TailSurvivesTrim` | crates/context-store/src/lib.rs:168-184 | for every base, tail and policy the join overshoots by at most the two separator bytes and the front trim never touches the rendered tail |
| `ContextRuns.EveryTailSurvives` | crates/context-store/src/lib.rs:150-199 | after any run an answer with a tail is an older pack within the bound with the tail behind it, and ends with the whole rendering of the chunks chosen after that pack |
| `ContextInvariants.AppendKeepsValid` | crates/context-store/src/lib.rs:60-97 | append keeps revisions dense, chunk_count equal to the latest revision, and every pack at the version of its revision |
| `ContextInvariants.AssembleKeepsValid` | crates/context-store/src/lib.rs:120-221 | assemble keeps the same invariant for every option and every rewind |
| `ContextInvariants.CachedPackIsOld` | crates/context-store/src/lib.rs:150-153 | a pack that is read was stored at its own revision, which is never newer than the target |
| `ContextInvariants.AssemblyIsAccounted` | crates/context-store/src/lib.rs:144-214 | revision, included_chunks and included_bytes of every assembly are right, and base revision plus tail_chunks is the revision |
| `ContextRuns.EveryRunIsValid` | crates/context-store/src/lib.rs:41-295 | the store invariant holds after every sequence of appends and assemblies |
| `ContextRuns.EveryAssemblyIsBounded` | crates/context-store/src/lib.rs:144-214 | whichever path answers, after any run, included_bytes is the size of the text and at most max_context_bytes |
| `ContextRuns.CacheRefinesRecompute` | crates/context-store/src/lib.rs:144-220 | after any run, for a query without terms and chunks that fit whole, all three paths return the full rendering, and switching the cache off changes neither text nor counts |
| `ContextRuns.ApartRunsAgree` | crates/context-store/src/lib.rs:595-615 | a run in which no namespace continues another keeps its policies apart |
| `ContextRuns.NulFreeRunsAgree` | crates/context-store/src/lib.rs:595-615 | in particular runs whose namespaces have no U+0000 do |
| `ContextForeignPacks.ForeignPackExceedsBound` | crates/context-store/src/lib.rs:150-166 | for any two policies with one key and different byte limits, in every context: after one append and one assembly under the wider one, the exact hit under the other is longer than its limit |
| `ContextForeignPacks.BoundIsKeptIff` | crates/context-store/src/lib.rs:120-221 | over all runs whose assemblies use a set of namespaces, with any texts, queries and budgets, an answer can exceed its byte limit if and only if one namespace continues another |
| `ContextRewind.RewindShowsSnapshotHead` | crates/context-store/src/lib.rs:69-118 | rewinding shows the head of the last append commit at or below the revision, never part of a batch |
| `ContextRewind.RewindIsTimeTravel` | crates/context-store/src/lib.rs:120-147 | without the cache, assembling at a revision returns what the plain assembly returned when the context was last at or below it, whatever happened since |
| `Utf8.WellFormedIffEncoded` | crates/context-store/src/lib.rs:691-701 | the byte strings the encoder produces are exactly the well-formed ones, and decoding inverts encoding |
| `Utf8.ChunksDecodeWholeIffAligned` | crates/provider-openai/src/lib.rs:413-416 | decoding chunk by chunk gives the text back exactly when no chunk begins inside a character |
| `SseStream.SseProviderStream.Next` | crates/provider-openai/src/lib.rs:402-430 | each call yields the next item of everything still to come, terminates, and ends the stream only when nothing is left; what is to come is the subject of the `SseInvariance` and `SseMeaning` rows |
| `SseStream.SseProviderStream.PopSseFrame` | crates/provider-openai/src/lib.rs:433-438 | the frame up to the first pair of line feeds is taken off the buffer, or nothing when there is none |
| `SseInvariance.FramesJoin` | crates/provider-openai/src/lib.rs:433-438 | framing loses nothing: joined by separators the frames are the text |
| `SseInvariance.FramesOfJoin` | crates/provider-anthropic/src/lib.rs:359-364 | the framing of a text is unique |
| `SseInvariance.EventsFactor` | crates/provider-openai/src/lib.rs:402-430 | after any fault-free deliveries the loop has yielded the complete frames of the text received and holds the remainder |
| `SseInvariance.ChunkInvariance` | crates/provider-anthropic/src/lib.rs:328-356 | for every split into chunks the items are those of parsing the whole decoded text, with a remainder that is not blank as the last frame |
| `SseInvariance.AlignedChunksParseTheText` | crates/provider-openai/src/lib.rs:413-416 | chunks that begin characters yield the items of the text that was sent |
| `SseInvariance.FaultsAreYieldedInPlace` | crates/provider-openai/src/lib.rs:417-419 | an upstream error is yielded behind the frames completed before it and does not disturb the unfinished one |
| `SseMeaning.FrameIsReadBack` | crates/provider-openai/src/lib.rs:440-446 | event name and data lines of a frame are read back as they were sent, the data joined by line feeds |
| `SseMeaning.CarriageReturnsDoNotMatter` | crates/provider-openai/src/lib.rs:441-446 | inside a frame a carriage return in front of a line feed makes no difference |
| `SseMeaning.FrameYieldsItsMessage` | crates/provider-openai/src/lib.rs:440-470 | for both providers a frame yields exactly what its message has to: nothing for blank data, the terminator or a ping, one failure for what is not JSON, one rejection for an error, and otherwise the events of the payload, for Anthropic under its type or else the event name |
| `SseMeaning.StreamYieldsItsMessages` | crates/provider-openai/src/lib.rs:402-430 | however the bytes are cut between characters, a stream of messages yields the outcomes of its messages in order, failures included |
| `SseMeaning.OpenAiStreamYieldsEventsSent` | crates/provider-openai/src/lib.rs:440-555 | payloads sent as data frames and ended by `[DONE]` yield exactly their events in order |
| `SseMeaning.AnthropicStreamYieldsEventsTold` | crates/provider-anthropic/src/lib.rs:366-410 | messages and pings yield exactly the events of the messages in order |
| `SseMeaning.ReadToEnd` | crates/api-server/src/lib.rs:8475-8484 | asking for the next item until there is none gives every item of the stream, once and in order |
| `StructuredLayout.XmlLikeTagEnd` | crates/agent-kernel/src/lib.rs:2562-2586 | the scan finds the closing bracket of a tag exactly where a bracket, an optional slash, a name start and tag characters lead to one |
| `StructuredLayoutWhole.TagIff` | crates/agent-kernel/src/lib.rs:2562-2586 | a tag is a bracket, an optional slash, a letter or underscore and characters that may be in a tag, up to the closing bracket |
| `StructuredLayout.NormalizeXmlLikeTagBoundaries` | crates/agent-kernel/src/lib.rs:2531-2560 | the cursor loop is the spreading of the text with a newline before and behind every tag, trimmed |
| `StructuredLayout.NormalizeFieldLabelBoundaries` | crates/agent-kernel/src/lib.rs:2611-2632 | the character loop begins a new line exactly in front of a dense field label on a line that has a colon |
| `StructuredLayout.IsFieldLabelBoundary` | crates/agent-kernel/src/lib.rs:2634-2667 | a label of 2 to 32 label characters and a colon begins here, behind a character that may precede one |
| `StructuredLayoutLaws.NormalizeKeepsInk` | crates/agent-kernel/src/lib.rs:2498-2506 | the three passes change nothing but whitespace, and never blank an answer |
| `StructuredLayoutLaws.SpacedHeading` | crates/agent-kernel/src/lib.rs:2588-2609 | exactly the headings whose hashes run into their text are changed, and none is left |
| `StructuredLayoutLaws.TagPassIsolatesTags` | crates/agent-kernel/src/lib.rs:2531-2560 | in the result of the tag pass every tag begins and ends a line |
| `StructuredLayoutStability.TagPassIdempotentIff` | crates/agent-kernel/src/lib.rs:2549-2556 | the tag pass is idempotent on a text exactly when no tag of it has anything but whitespace behind it |
| `StructuredLayoutLabels.LabelPassStableIff` | crates/agent-kernel/src/lib.rs:2611-2632 | the label pass leaves a text alone exactly when the text has no break point |
| `StructuredLayoutLabels.LabelPassSplitsTag` | crates/agent-kernel/src/lib.rs:2615-2629 | a single tag that the label pass tears apart |
| `StructuredLayoutLabels.TagOnItsLineIsTornIff` | crates/agent-kernel/src/lib.rs:2611-2632 | in any text a tag on a line of its own is carried over as what the pass makes of it by itself, so it is torn exactly when it has a break point |
| `StructuredLayoutLabels.FieldLabelIff` | crates/agent-kernel/src/lib.rs:2634-2684 | a label with its colon is a field label exactly when it has 2 to 32 characters and what precedes it may precede a label with that first character |
| `StructuredLayoutWhole.BreakPointIff` | crates/agent-kernel/src/lib.rs:2611-2632 | a text is broken exactly in front of a field label with a colon before it on its line that does not stand directly behind a colon, slash, dash, underscore or bracket |
| `StructuredLayoutWhole.OnlyStructuredTextsChange` | crates/agent-kernel/src/lib.rs:2498-2529 | a text is touched only if two tags begin in it, it has a code fence, or a line begins like a heading or table row |
| `StructuredLayoutWhole.NormalizeIsLineByLine` | crates/agent-kernel/src/lib.rs:2498-2506 | once the tags have lines of their own, every line gets its heading space and its label breaks by itself; no line matters to another |
| `StructuredLayoutWhole.NormalizedTagStandsAlone` | crates/agent-kernel/src/lib.rs:2498-2506 | in the normalised text every tag is there at the start of a line with nothing behind it, whole unless it has a break point |
| `StructuredLayoutStability.TagSlicesOnCharBoundaries` | crates/agent-kernel/src/lib.rs:2540-2557 | the byte scan finds the same tag as a scan of characters, and both ends of it are character boundaries |
| `MinimalPlan.SlugifyTaskId` | crates/provider-openai/src/lib.rs:1130-1143 | the loop computes the dashed text trimmed of dashes |
| `MinimalPlan.SlugifyMakesSlugs` | crates/provider-openai/src/lib.rs:1130-1143 | slugs are runs of lowercase letters and digits separated by single dashes, with none at an edge |
| `MinimalPlan.SlugsAreFixpoints` | crates/provider-openai/src/lib.rs:1130-1143 | the slugs are exactly the texts slugification leaves alone, so it is idempotent |
| `MinimalPlan.SlugifyKeepsAlphanumerics` | crates/provider-openai/src/lib.rs:1130-1143 | every letter and digit is kept, in order and in lower case |
| `MinimalPlan.UniqueTaskId` | crates/provider-openai/src/lib.rs:1145-1166 | the id was not seen before and is recorded as seen |
| `FreshNames.FindFreshName` | crates/provider-openai/src/lib.rs:1157-1165 | counting up a suffix terminates at the first free name, because every failure uses up a taken one |
| `FreshNames.FreshNameIsFree` | crates/agent-kernel/src/lib.rs:2096-2106 | by the pigeonhole principle a free name is found within as many tries as there are taken names |
| `MinimalPlan.NormalizeMinimalChild` | crates/provider-openai/src/lib.rs:1062-1121 | an entry without a usable objective is dropped and takes no id; any other becomes a child under a new id |
| `MinimalPlan.NormalizeMinimalSpawnPlan` | crates/provider-openai/src/lib.rs:1021-1060 | the loop builds the children in order with the ids seen so far |
| `MinimalPlan.MinimalPlansAreWellFormed` | crates/provider-openai/src/lib.rs:1021-1121 | for every answer the ids are distinct non-empty slugs, and all children have a parent, an objective that is not blank and no tool calls |
| `MinimalPlan.ChildrenKeepObjectives` | crates/provider-openai/src/lib.rs:1024-1031 | exactly the entries with a usable objective are kept, in order |
| `MinimalPlanLaws.NormalizedPlansAreTakenOver` | crates/provider-openai/src/lib.rs:1062-1121 | a plan that is normalised already and written out in full is taken over with all its fields |
| `MinimalPlanLaws.NormalizationIsIdempotent` | crates/provider-openai/src/lib.rs:1021-1121 | normalising the written-out result of a normalisation gives it back |
| `MinimalPlanLaws.BareEntryIsFilledIn` | crates/provider-openai/src/lib.rs:1085-1120 | an entry with only an objective becomes a child of the root at depth one without references, spawning or tool calls and with default limits |
| `MinimalPlanLaws.AlternativesCountOnlyWhenMissing` | crates/provider-openai/src/lib.rs:1068-1083 | the alternative names of a field count only when it is missing, and a field that is no text hides them |
| `MinimalPlanLaws.FreeIdIsTaken` | crates/provider-openai/src/lib.rs:1150-1155 | an id that is free is taken as it is, and a missing one is numbered by its place |
| `MinimalPlanLaws.CollidingIdIsNumbered` | crates/provider-openai/src/lib.rs:1157-1165 | an id that is not free gets the first number from two on that makes it new |
| `KernelStores.ToolLedger.RecordCall` | crates/agent-kernel/src/lib.rs:102-105 | a call is stored under its scope and id, replacing an earlier one |
| `KernelStores.ToolLedger.RecordResult` | crates/agent-kernel/src/lib.rs:107-120 | a result for a known call resolves it; one for an unknown call is refused and changes nothing |
| `KernelStores.TaskGraph.InsertTask` | crates/agent-protocol/src/lib.rs:230-238 | the task is stored under its id and its parent joins its dependencies |
| `KernelStores.ValidateAndApply` | crates/agent-kernel/src/lib.rs:244-303 | agent cap, then per child depth, duplicate, foreign scope and missing artifact; a plan is inserted whole or not at all |
| `KernelStores.ApplyProviderResponse` | crates/agent-kernel/src/lib.rs:1330-1396 | the tool budget comes first; a plan from a task that may not spawn becomes text; any other plan is cut to the remaining room and validated |
| `KernelStores.ApplySpawnPlanResponse` | crates/agent-kernel/src/lib.rs:1398-1422 | other artifacts are stored first, then the plans are validated one after the other |
| `KernelAbsorption.AbsorbedAreStored` | crates/agent-kernel/src/lib.rs:1352-1393 | of the artifacts of a response the last under each key is stored as it is, a plan only as the text it is taken for, and nothing else in the store changes |
| `KernelAbsorption.OthersAreStored` | crates/agent-kernel/src/lib.rs:1398-1410 | the other artifacts of a planner response are stored the same way |
| `KernelAbsorption.PlanIsRefusedForItsFirstFault` | crates/agent-kernel/src/lib.rs:244-297 | a refused plan is refused for the agent cap, or for its first child that is not allowed: its depth, its id, or its first reference of another scope or without an artifact |
| `KernelBudgets.DependenciesAfterInsert` | crates/agent-protocol/src/lib.rs:230-238 | inserting tasks adds to the dependencies of each the parents it is given, and changes no others |
| `KernelBudgets.PlanAcceptedIff` | crates/agent-kernel/src/lib.rs:244-303 | a plan is accepted exactly when it fits the cap and every child is within depth, new to the graph and refers to stored artifacts of the scope; a rejected plan leaves the graph unchanged |
| `KernelBudgets.AddsEveryAgentIff` | crates/agent-kernel/src/lib.rs:298-300 | new children add one agent each exactly when their ids are distinct and all have a parent |
| `KernelBudgets.TruncatedPlanFits` | crates/agent-kernel/src/lib.rs:1371-1384 | after truncation the agent-limit error cannot occur |
| `KernelBudgets.AbsorbKeepsBudget` | crates/agent-kernel/src/lib.rs:1340-1395 | absorbing any response keeps the agent, depth, reference and tool-call budgets, even when it fails halfway |
| `KernelBudgets.EveryRunStaysInBudget` | crates/agent-kernel/src/lib.rs:1330-1422 | the budgets hold after every sequence of provider and planner responses, and the root task is never replaced |
| `PlanReconciliation.NormalizeOverTarget` | crates/agent-kernel/src/lib.rs:2042-2053 | the loop cuts the plans one after the other to what remains |
| `PlanReconciliation.TruncationTakesPrefix` | crates/agent-kernel/src/lib.rs:2042-2053 | cutting across plans is taking the first target children of their concatenation |
| `PlanReconciliation.ReconcileUnderTarget` | crates/agent-kernel/src/lib.rs:2055-2114 | cross-checks of the given children, cycled, are added to the first plan under free ids |
| `PlanLaws.ReconcileReachesTarget` | crates/agent-kernel/src/lib.rs:2055-2114 | some but too few children become exactly the target, and neither clashes of ids nor missing parents are lost or added |
| `PlanCrosschecks.ReconciliationCrosschecksInTurn` | crates/agent-kernel/src/lib.rs:2055-2114 | behind the children of the first plan comes one cross-check for each that is missing, of the given children in turn, equal to them but for id, parent and marked objective |
| `PlanLaws.SettledIsExactOrRefused` | crates/agent-kernel/src/lib.rs:609-631 | what planning ends with is refused exactly when it has no children, and otherwise hands over exactly the target |
| `PlanLaws.ExactChildCount` | crates/agent-kernel/src/lib.rs:609-646 | an accepted plan gives exactly the configured number of agents precisely when the model's ids are distinct and all children have parents |
| `FanOut.EveryRunCompletes` | crates/agent-kernel/src/lib.rs:736-745 | at most the limit run at a time, none twice; every run has at most 2n steps and can only stop when all n have completed once |
| `FanOut.CompleteAll` | crates/agent-kernel/src/lib.rs:743-745 | any scheduler of the pool ends with each child completed once |
| `FanOut.FanOutIsScheduleIndependent` | crates/agent-kernel/src/lib.rs:736-771 | when all children answer, every completion order leaves the same state and usage as task order; when one fails, every order fails before anything is absorbed |
| `FanOutOrders.ReachableOrders` | crates/agent-kernel/src/lib.rs:736-745 | a completion order comes from a run of the pool exactly when each child is there once and the child in place k is one of the first k + limit |
| `FanOutOrders.ReportedFailures` | crates/agent-kernel/src/lib.rs:746-748 | over all runs of the pool the reported error is that of one of the first limit failed children, and each of them can be reported |
| `FanOutOrders.ReportIsDeterminedIff` | crates/agent-kernel/src/lib.rs:746-748 | all schedules report the same error exactly when the first limit failed children carry the same one |
| `FanOutOrders.OneAtATimeReportsFirst` | crates/agent-kernel/src/lib.rs:736-748 | with one child at a time the first failure in task order is reported |
| `FanOutOrders.ReportedFailureDependsOnSchedule` | crates/agent-kernel/src/lib.rs:746-748 | for two at a time or more, two runs of the pool that report different errors |
| `TaskOrder.EnumerateChildTasks` | crates/agent-kernel/src/lib.rs:692-697 | the tasks with a parent, in the order of their ids |
| `SemanticVerification.Synthesize` | crates/agent-kernel/src/lib.rs:906-963 | the retry loop, call by call |
| `SemanticVerification.SynthesisIsBoundedAndNotBlank` | crates/agent-kernel/src/lib.rs:906-982 | at most three calls, and the text it ends with is blank neither before nor after layout |
| `SemanticVerification.RunSemanticVerification` | crates/agent-kernel/src/lib.rs:1075-1267 | the verify and repair loop, with every exit |
| `SemanticVerification.VerificationIsSound` | crates/agent-kernel/src/lib.rs:1075-1267 | at most m + 1 verifier and m repair calls; passes exactly without issues; a passed text is the one the last verdict accepted; no candidate is blank |
| `SemanticTranscripts.VerificationIsATranscript` | crates/agent-kernel/src/lib.rs:1092-1267 | the whole conversation: the first candidate is verified, every rejected one is sent to repair with the issues of its verdict, the layout of what a repair says is verified, and the loop ends exactly on an acceptance, a failed or unreadable reply, a silent repair, or a rejection when all repairs are used |
| `SemanticTranscripts.VerdictIsFirst` | crates/agent-kernel/src/lib.rs:2302-2310 | the verdict of a reply is that of its first text that parses as one |
| `KernelRun.RunPlanner` | crates/agent-kernel/src/lib.rs:540-608 | the planner call and its repair loop, call by call |
| `KernelRun.PlanningIsBounded` | crates/agent-kernel/src/lib.rs:540-608 | one to four calls, and never more children than the target |
| `KernelPlanning.PlanningSettles` | crates/agent-kernel/src/lib.rs:540-608 | the run settles on the first of at most four answers that asks for enough children, or on the fourth, cut to the target |
| `KernelRunner.RunInner` | crates/agent-kernel/src/lib.rs:388-1072 | the whole run over its mutable stores equals the specification of a run, under the schedule it met |
| `KernelRunner.Session.Orchestrate` | crates/agent-kernel/src/lib.rs:536-690 | planning, reconciliation, spawn validation and the root call when there are no agents |
| `KernelRunner.Session.RunChildren` | crates/agent-kernel/src/lib.rs:698-771 | all children are called, collected in completion order, sorted and absorbed in task order |
| `KernelRunner.Session.Finish` | crates/agent-kernel/src/lib.rs:786-1072 | continuation, summary, final text, layout, verification and report |
| `KernelRunLaws.PlannedAgentsAreExact` | crates/agent-kernel/src/lib.rs:536-646 | for all planner and repair answers, an accepted plan gives exactly the agents of the effort precisely when ids are distinct and parents present |
| `KernelRunLaws.ProviderCallsAreBounded` | crates/agent-kernel/src/lib.rs:388-1072 | a direct run makes exactly one call; any other at most N + 2m + 10, and one more only for a request with everything switched on whose root was asked after planning |
| `KernelRunWitness.OrphansCostOneMore` | crates/agent-kernel/src/lib.rs:631-690 | for every such request a planner that answers with children without parents, and a root that then spawns workers, make a run of N + 2m + 11 calls |
| `KernelRunWitness.MostCallsAreMadeIff` | crates/agent-kernel/src/lib.rs:388-1072 | for every effort that is not direct and every m, some model and schedule cost N + 2m + 11 calls if and only if the root may spawn and has tools, and public reasoning and semantic verification are on |
| `KernelRunLaws.EveryOutputIsHonest` | crates/agent-kernel/src/lib.rs:984-1072 | a passed report has no unresolved root calls and a text the last verdict accepted; one that did not pass has issues; synthesized text is not blank |
| `KernelFinalText.DirectRunSaysItsReply` | crates/agent-kernel/src/lib.rs:388-1072 | a direct run is its one reply: its error, the tool budget, an empty text while the root waits for a tool it called, or the layout of its texts and rendered plans joined by line feeds, with a passed report |
| `KernelFinalText.EveryOutputSaysWhatWasSaid` | crates/agent-kernel/src/lib.rs:786-1018 | the final text of every run: what the root says after its workers, or else the first of at most three syntheses with ink, or without workers what the root said last; its layout is returned, or is the first text to be verified, and is blank only if it is |
| `KernelFinalText.EveryReportIsExact` | crates/agent-kernel/src/lib.rs:1020-1045 | a report has the issues of the verification and exactly the notes that are due, passes exactly when the text did and the root is resolved, and covers all texts when nothing was verified |
| `KernelUsage.EveryOutputReportsItsUsage` | crates/agent-kernel/src/lib.rs:2690-2700 | responses and tokens of every output are those of the replies to its calls, none missed and none counted twice, under every schedule |
| `KernelAnswers.EveryOutputHadItsAnswers` | crates/agent-kernel/src/lib.rs:388-1072 | a run that returns an output had an answer to every call but those of its verification |
| `KernelRunLaws.EveryOutputIsInBudget` | crates/agent-kernel/src/lib.rs:388-1072 | every returned output was reached within the agent, depth, reference and tool-call budgets |
| `KernelRunLaws.RunIsScheduleIndependent` | crates/agent-kernel/src/lib.rs:736-771 | a run succeeds under every schedule or under none, with the same output and the same number of calls |
| `KernelRunLaws.RootToolGateStaysShut` | crates/agent-kernel/src/lib.rs:485-690 | for every request that is not direct the whole orchestration, with its gate and its preface, equals planning first and asking the root only after a plan without agents |
| `KernelRunLaws.EveryOutputGraphIsCovered` | crates/agent-kernel/src/lib.rs:843-1211 | the returned graph is that of the plan with the kernel's summary, synthesis, verifier and repair tasks inserted, at most 2m + 5; a planned task changes only if it has one of their names |
| `KernelHelpers.EveryOutputHasItsHelpers` | crates/agent-kernel/src/lib.rs:843-1211 | the graph has exactly those of the kernel's own tasks that the run needed, each a child of the root at depth zero that can neither spawn nor call tools |
| `DurableStore.MemoryKeyInjective` | crates/api-server/src/durable.rs:397-399 | flattened keys are equal only for equal namespace, tenant and id |
| `DurableStore.TenantPrefixSelects` | crates/api-server/src/durable.rs:129-137 | the tenant prefix selects exactly the records of that tenant in that namespace |
| `DurableStore.NamespacePrefixSelects` | crates/api-server/src/durable.rs:184-192 | the namespace prefix selects exactly the records of that namespace |
| `DurableStore.Table.Put` | crates/api-server/src/durable.rs:59-88 | the record under (namespace, tenant, id) is set and no other changes; an invalid namespace or id is refused and nothing changes |
| `DurableStore.Table.Get` | crates/api-server/src/durable.rs:90-120 | the record stored last under exactly that key, or none |
| `DurableStore.Table.Delete` | crates/api-server/src/durable.rs:250-273 | the record is removed, and the answer says whether it was there |
| `DurableStore.Table.List` | crates/api-server/src/durable.rs:122-175 | exactly the records of the tenant in the namespace, in id order |
| `DurableStore.Table.ListAll` | crates/api-server/src/durable.rs:177-248 | the records of the namespace over all tenants, each exactly once, in key order |
| `AnthropicBatch.TallyResults` | crates/api-server/src/batch_api.rs:1158-1189 | from counts at zero each result adds one to the count of its outcome, so each count is the number of results with that outcome, and there is one line per result |
| `AnthropicBatch.TallySum` | crates/api-server/src/batch_api.rs:1158-1189 | the counts add up to the number of results and leave none processing |
| `AnthropicBatch.TallyIsByOutcome` | crates/api-server/src/batch_api.rs:1158-1189 | each count is the number of results with its outcome, and none is processing or expired |
| `BatchProvenance.EveryResultIsReported` | crates/api-server/src/batch_api.rs:1139-1210 | in every run each stored result was completed with exactly that outcome, or a cancel request turned all of them away; without a cancel request none is canceled |
| `AnthropicBatch.EveryRunConservesRequests` | crates/api-server/src/batch_api.rs:1118-1249 | over every interleaving of run, cancel, crash and recovery the five counts add up to the input size, an ended batch has its results, and results list every custom id exactly once |
| `AnthropicBatch.EndingMatchesResults` | crates/api-server/src/batch_api.rs:1190-1210 | when a worker ends a batch the results are already stored, and each count is the number of stored results with its outcome |
| `AnthropicBatch.EndedIsAbsorbingIff` | crates/api-server/src/batch_api.rs:745-786 | an ended batch stays ended exactly when no cancel request has read the record and not yet written it |
| `AnthropicBatch.EndedCanBeUndone` | crates/api-server/src/batch_api.rs:745-786 | a run in which an ended batch is set back to canceling |
| `BatchCancels.SignalReachesWorker` | crates/api-server/src/batch_api.rs:780-786 | a cancel signal reaches the worker whatever it is doing, and changes nothing else |
| `BatchCancels.TurnedAwayWorkerCancelsAll` | crates/api-server/src/batch_api.rs:1134-1137 | a worker that is signalled before it starts, or works on a record that says so, ends with every request canceled unless it crashes |
| `BatchCancels.WorkerWritesBackItsRequest` | crates/api-server/src/batch_api.rs:1190-1210 | a worker ends its batch with the cancel request as it took it over; one that is written in the meantime is not in the ended record |
| `BatchCancels.RecoveryResumesTheRecord` | crates/api-server/src/batch_api.rs:842-887 | a crash leaves record and results alone, and recovery works on exactly that record |
| `AnthropicBatchEndings.EndedStaysTalliedIff` | crates/api-server/src/batch_api.rs:1118-1249 | in every reachable ended state the counts stay the tally of the stored results exactly when they are, and no worker, recovery or cancel request under way can set the results apart from them |
| `AnthropicBatchEndings.EndedCountsCanDisagree` | crates/api-server/src/batch_api.rs:842-887 | a stale recovery rewrites the results of an ended batch, whose counts then say something else |
| `OpenAiBatch.TallyResults` | crates/api-server/src/batch_api.rs:982-1025 | output lines, error lines and cancelled items by outcome, added to the counters the worker began with |
| `OpenAiBatch.EveryItemOnOneList` | crates/api-server/src/batch_api.rs:982-1025 | every custom id is on exactly one of the output, error and cancelled lists |
| `OpenAiBatch.OutputAndErrorsListAll` | crates/api-server/src/batch_api.rs:982-1025 | without cancelled items output and error lines together list every custom id once |
| `OpenAiBatch.EveryRunDelivers` | crates/api-server/src/batch_api.rs:1031-1069 | in every run the file ids of the record refer to a stored blob and stored metadata, and the files of a completed batch list every custom id exactly once |
| `BatchProvenance.EveryLineIsAnswered` | crates/api-server/src/batch_api.rs:960-1048 | in every run each line of a file was completed with exactly that outcome, and a batch is cancelling or cancelled only after a cancel request |
| `BatchProvenance.EveryFileIsSorted` | crates/api-server/src/batch_api.rs:982-1025 | in every run the output file has only responses and the error file only refusals |
| `BatchCancels.SignalDooms` | crates/api-server/src/batch_api.rs:556 | a cancel signal tells a worker that has not tallied its items to stop, and changes nothing else |
| `BatchCancels.DoomedWorkerEndsCancelled` | crates/api-server/src/batch_api.rs:895-1030 | a worker that is told to stop before it tallies its items ends its batch cancelled, whatever happens on the way, unless it crashes |
| `BatchCancels.UndisturbedWorkerCompletes` | crates/api-server/src/batch_api.rs:1031-1049 | one that tallies its items undisturbed completes its batch |
| `BatchCancels.RecoveryResumesTheBatch` | crates/api-server/src/batch_api.rs:842-887 | a crash leaves record and files alone, and recovery works on exactly that record |
| `OpenAiBatchEndings.EveryRecordCountsWholeTallies` | crates/api-server/src/batch_api.rs:889-1049 | in every run completed and failed of the record add up to a multiple of the number of requests |
| `OpenAiBatchEndings.CountersOfEndedRun` | crates/api-server/src/batch_api.rs:889-1069 | a worker turned away at its start writes back the counters it read, without files; any other adds its output lines, error lines and cancelled items, and its counters add up to the total exactly when it read both at zero |
| `OpenAiBatchEndings.TurnedAwayRunsMiscount` | crates/api-server/src/batch_api.rs:896-898 | runs of turned-away workers that end with an item in no counter, and with full counters but no file |
| `OpenAiBatchEndings.UnrecoveredRunsConserve` | crates/api-server/src/batch_api.rs:889-1069 | without recovery a completed record counts its output and error lines; a cancelled one counts nothing and has no files, or its counters add up to the total |
| `OpenAiBatchEndings.RecoveredRunCountsTwice` | crates/api-server/src/batch_api.rs:847-858 | a crash while finalizing makes a batch with one request complete with two |
| `OpenAiBatchEndings.TerminalIsAbsorbingIff` | crates/api-server/src/batch_api.rs:524-547 | in every reachable state completed and cancelled are final exactly when no cancel request has read the record and not yet written it, and no worker or recovery with an earlier record is still to begin |
| `OpenAiBatchEndings.CompletedCanBeReopened` | crates/api-server/src/batch_api.rs:842-887 | a run in which a stale recovery sets a completed batch back to in progress |

## Left out

* Time stamps, text hashes, request ids and UUIDs; the chunk and pack fields that hold them.
* SurrealKV transactions: each store operation is one atomic step, and I/O errors do not occur.
* 64-bit overflow of revisions and chunk counts, and of token counters, which saturate in the code.
* Case folding, term splitting and matching of the chunk score (`Lexicon` stands for them).
* The JSON side of the context store (`put_json` to `list_json`); only its keys are modelled.
* ContextRuns.CacheRefinesRecompute: says nothing about queries with terms or chunk lists beyond a budget, where the three paths select different chunks by design.
* ContextRelevance.ChosenIffItFitsBesideItsBetters: speaks of match counts whose priority fits into 64 bits; with more than 1.8 quadrillion matches in one chunk the sum in the code would overflow.
* KernelUsage.EveryOutputReportsItsUsage: says nothing about runs that fail, which report no usage.
* KernelRunner.RunInner: leaves out the trace, prompts and sealed sub-agent state, and inserts the kernel's own tasks into the graph at the end of a run instead of one by one before each call; nothing reads the graph in between.
* FanOut.FanOutIsScheduleIndependent: takes the reply to each child as given by the child, so it does not model a provider whose reply to one child depends on when another finishes.
* KernelBudgets.PlanAcceptedIff: assumes a cap below 65,535, where the sixteen-bit agent counter saturates; the largest cap of any effort is 64.
* Timeouts, retries and admission; a timed-out call is a failed reply.
* `stream_root`, prompt building, provider option merging, stateful tool handles and mock providers.
* Parsing of JSON payloads, plans and verdicts; capability sets are reduced to whether a task may spawn.
* AnthropicBatch.EveryRunConservesRequests: covers runs without storage errors and without deletion; a delete that interleaves with a stale cancel write can leave a record without its input, and the failure path writes its own single result line.
* OpenAiBatch.EveryRunDelivers: begins with a validated input file and leaves out the failure path, expiry, usage accumulation and deletion of files.
* The filesystem backend of the durable store and its atomic writes.
* DurableStore.Table.List: leaves out values that fail to deserialise.
* Paging, HTTP handlers, response rendering, metrics and multipart upload, which would add only easy members.
