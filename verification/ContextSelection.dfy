/** What the greedy selection guarantees. */
module ContextSelection {
  import opened Wrappers
  import opened ContextPolicy
  import opened ContextChunks

  /**
   Below saturation the packed priority is the lexicographic order on score, recency and the
   capped revision.
   */
  lemma PriorityIsLexicographic(s1: nat, r1: bool, v1: nat, s2: nat, r2: bool, v2: nat)
    requires s1 * 10_000 <= U64_MAX && s2 * 10_000 <= U64_MAX
    ensures Priority(s1, r1, v1) > Priority(s2, r2, v2) <==>
              || s1 > s2
              || (s1 == s2 && r1 && !r2)
              || (s1 == s2 && r1 == r2 && Min(v1, 4_999) > Min(v2, 4_999))
  {
  }

  predicate Sorted(ranked: seq<Candidate>) {
    forall i, j :: 0 <= i < j < |ranked| ==> Ahead(ranked[i], ranked[j])
  }

  lemma InsertSorted(c: Candidate, sorted: seq<Candidate>)
    requires Sorted(sorted)
    requires forall x :: x in sorted ==> x.chunk.revision != c.chunk.revision
    ensures Sorted(Insert(c, sorted))
  {
    if sorted != [] && Ahead(sorted[0], c) {
      InsertSorted(c, sorted[1..]);
      InsertMembers(c, sorted[1..]);
      assert forall x :: x in sorted[1..] ==> Ahead(sorted[0], x);
    } else if sorted != [] {
      assert forall x :: x in sorted ==> Ahead(c, x);
    }
  }

  lemma RankSorted(candidates: seq<Candidate>)
    requires DistinctRevisions(candidates)
    ensures Sorted(Rank(candidates))
  {
    if candidates != [] {
      RankSorted(candidates[1..]);
      RankMembers(candidates[1..]);
      assert forall x :: x in candidates[1..] ==> x.chunk.revision != candidates[0].chunk.revision;
      InsertSorted(candidates[0], Rank(candidates[1..]));
    }
  }

  // ---------------------------------------------------------------- the greedy pass

  lemma PickSplits(a: seq<Candidate>, b: seq<Candidate>, picked: seq<StoredContextChunk>, o: ContextAssemblyOptions)
    ensures Pick(a + b, picked, o) == Pick(b, Pick(a, picked, o), o)
  {
    if a == [] {
      assert a + b == b;
    } else {
      assert (a + b)[1..] == a[1..] + b;
      var next := if CanTake(picked, a[0].chunk, o) then picked + [a[0].chunk] else picked;
      PickSplits(a[1..], b, next, o);
    }
  }

  lemma {:induction false} PickExtends(ranked: seq<Candidate>, picked: seq<StoredContextChunk>,
                                       o: ContextAssemblyOptions)
    ensures picked <= Pick(ranked, picked, o)
    ensures forall c :: c in Pick(ranked, picked, o) ==>
              c in picked || exists j :: 0 <= j < |ranked| && ranked[j].chunk == c
  {
    if ranked != [] {
      var next := if CanTake(picked, ranked[0].chunk, o) then picked + [ranked[0].chunk] else picked;
      PickExtends(ranked[1..], next, o);
      forall c | c in Pick(ranked, picked, o) && c !in picked
        ensures exists j :: 0 <= j < |ranked| && ranked[j].chunk == c
      {
        if c == ranked[0].chunk {
          assert ranked[0].chunk == c;
        } else {
          var j :| 0 <= j < |ranked[1..]| && ranked[1..][j].chunk == c;
          assert ranked[j + 1].chunk == c;
        }
      }
    }
  }

  /** Within the count; within the byte budget, or a single oversized chunk. */
  predicate WithinBudget(picked: seq<StoredContextChunk>, o: ContextAssemblyOptions) {
    |picked| <= o.maxChunks && (TotalBytes(picked) <= o.maxContextBytes || |picked| == 1)
  }

  lemma {:induction false} PickWithinBudget(ranked: seq<Candidate>, picked: seq<StoredContextChunk>,
                                            o: ContextAssemblyOptions)
    requires WithinBudget(picked, o)
    ensures WithinBudget(Pick(ranked, picked, o), o)
  {
    if ranked != [] {
      TakeOne(picked, ranked[0].chunk);
      var next := if CanTake(picked, ranked[0].chunk, o) then picked + [ranked[0].chunk] else picked;
      PickWithinBudget(ranked[1..], next, o);
    }
  }

  lemma {:induction false} TotalBytesMonotone(a: seq<StoredContextChunk>, b: seq<StoredContextChunk>)
    requires a <= b
    ensures TotalBytes(a) <= TotalBytes(b)
  {
    if a != b {
      TotalBytesMonotone(a, b[..|b| - 1]);
    }
  }

  /**
   The independent description of the greedy pass: a candidate is selected exactly when it still
   fits beside those of its betters that were selected.
   */
  lemma PickedIffItFits(ranked: seq<Candidate>, i: nat, o: ContextAssemblyOptions)
    requires i < |ranked| && DistinctRevisions(ranked)
    ensures ranked[i].chunk in Pick(ranked, [], o) <==> CanTake(Pick(ranked[..i], [], o), ranked[i].chunk, o)
  {
    var before := Pick(ranked[..i], [], o);
    var chunk := ranked[i].chunk;
    assert ranked == ranked[..i] + ranked[i..];
    PickSplits(ranked[..i], ranked[i..], [], o);
    var next := if CanTake(before, chunk, o) then before + [chunk] else before;
    assert ranked[i..][1..] == ranked[i + 1..];
    PickExtends(ranked[i + 1..], next, o);
    PickExtends(ranked[..i], [], o);
    assert Pick(ranked, [], o) == Pick(ranked[i + 1..], next, o);
    var earlier, later := ranked[..i], ranked[i + 1..];
    assert forall j :: 0 <= j < |earlier| ==> earlier[j].chunk != chunk;
    assert forall j :: 0 <= j < |later| ==> later[j].chunk != chunk;
    if CanTake(before, chunk, o) {
      assert next[|before|] == chunk;
    }
  }

  /** When the count is not exhausted, no candidate that was left out would still fit. */
  lemma LeftOutDoesNotFit(ranked: seq<Candidate>, i: nat, o: ContextAssemblyOptions)
    requires i < |ranked| && DistinctRevisions(ranked)
    requires 1 <= o.maxChunks
    ensures var picked := Pick(ranked, [], o);
      || ranked[i].chunk in picked
      || |picked| == o.maxChunks
      || TotalBytes(picked) + ranked[i].chunk.byteLen > o.maxContextBytes
  {
    PickedIffItFits(ranked, i, o);
    PickWithinBudget(ranked, [], o);
    assert ranked == ranked[..i] + ranked[i..];
    PickSplits(ranked[..i], ranked[i..], [], o);
    PickExtends(ranked[i..], Pick(ranked[..i], [], o), o);
    TotalBytesMonotone(Pick(ranked[..i], [], o), Pick(ranked, [], o));
  }

  // ---------------------------------------------------------------- from picking order to revision order

  lemma {:induction false} KeepAscends(chunks: seq<StoredContextChunk>, revisions: set<nat>, low: nat)
    requires Ascending(chunks) && forall i :: 0 <= i < |chunks| ==> low <= chunks[i].revision
    ensures Ascending(Keep(chunks, revisions))
    ensures forall i :: 0 <= i < |Keep(chunks, revisions)| ==> low <= Keep(chunks, revisions)[i].revision
  {
    if chunks != [] {
      KeepAscends(chunks[1..], revisions, chunks[0].revision + 1);
    }
  }

  lemma {:induction false} KeepMember(chunks: seq<StoredContextChunk>, revisions: set<nat>, c: StoredContextChunk)
    ensures c in Keep(chunks, revisions) <==> c in chunks && c.revision in revisions
  {
    if chunks != [] {
      KeepMember(chunks[1..], revisions, c);
    }
  }

  lemma KeepMembers(chunks: seq<StoredContextChunk>, revisions: set<nat>)
    requires Ascending(chunks)
    ensures Ascending(Keep(chunks, revisions))
    ensures forall c :: c in Keep(chunks, revisions) <==> c in chunks && c.revision in revisions
  {
    KeepAscends(chunks, revisions, 0);
    forall c ensures c in Keep(chunks, revisions) <==> c in chunks && c.revision in revisions {
      KeepMember(chunks, revisions, c);
    }
  }

  lemma TotalBytesConcat(a: seq<StoredContextChunk>, b: seq<StoredContextChunk>)
    ensures TotalBytes(a + b) == TotalBytes(a) + TotalBytes(b)
  {
    if b == [] {
      assert a + b == a;
    } else {
      assert (a + b)[..|a + b| - 1] == a + b[..|b| - 1];
      TotalBytesConcat(a, b[..|b| - 1]);
    }
  }

  lemma {:induction false} KeepOneMore(chunks: seq<StoredContextChunk>, revisions: set<nat>, x: StoredContextChunk)
    requires Ascending(chunks) && x in chunks && x.revision !in revisions
    ensures |Keep(chunks, revisions + {x.revision})| == |Keep(chunks, revisions)| + 1
    ensures TotalBytes(Keep(chunks, revisions + {x.revision})) == TotalBytes(Keep(chunks, revisions)) + x.byteLen
  {
    var more := revisions + {x.revision};
    var head := if chunks[0].revision in revisions then [chunks[0]] else [];
    TotalBytesConcat(head, Keep(chunks[1..], revisions));
    if chunks[0] == x {
      KeepIgnoresAbsent(chunks[1..], revisions, x.revision);
      TotalBytesConcat([x], Keep(chunks[1..], revisions));
      TakeOne([], x);
      assert [] + [x] == [x];
    } else {
      assert x in chunks[1..];
      assert chunks[0].revision != x.revision;
      KeepOneMore(chunks[1..], revisions, x);
      TotalBytesConcat(head, Keep(chunks[1..], more));
    }
  }

  lemma KeepIgnoresAbsent(chunks: seq<StoredContextChunk>, revisions: set<nat>, r: nat)
    requires forall c :: c in chunks ==> c.revision != r
    ensures Keep(chunks, revisions + {r}) == Keep(chunks, revisions)
  {
  }

  predicate DistinctPicks(picked: seq<StoredContextChunk>) {
    forall i, j :: 0 <= i < j < |picked| ==> picked[i].revision != picked[j].revision
  }

  /** Reading the picks back in revision order changes neither their number nor their size. */
  lemma {:induction false} KeepPreservesTotals(chunks: seq<StoredContextChunk>, picked: seq<StoredContextChunk>)
    requires Ascending(chunks) && DistinctPicks(picked)
    requires forall c :: c in picked ==> c in chunks
    ensures |Keep(chunks, Revisions(picked))| == |picked|
    ensures TotalBytes(Keep(chunks, Revisions(picked))) == TotalBytes(picked)
  {
    if picked == [] {
      KeepNothing(chunks);
    } else {
      var before, last := picked[..|picked| - 1], picked[|picked| - 1];
      assert picked == before + [last];
      TakeOne(before, last);
      RevisionsMembers(before);
      assert last.revision !in Revisions(before);
      KeepPreservesTotals(chunks, before);
      KeepOneMore(chunks, Revisions(before), last);
    }
  }

  lemma KeepNothing(chunks: seq<StoredContextChunk>)
    ensures Keep(chunks, {}) == []
  {
  }

  lemma {:induction false} PickDistinct(ranked: seq<Candidate>, picked: seq<StoredContextChunk>,
                                        o: ContextAssemblyOptions)
    requires DistinctRevisions(ranked) && DistinctPicks(picked)
    requires forall c, j :: c in picked && 0 <= j < |ranked| ==> c.revision != ranked[j].chunk.revision
    ensures DistinctPicks(Pick(ranked, picked, o))
  {
    if ranked != [] {
      var next := if CanTake(picked, ranked[0].chunk, o) then picked + [ranked[0].chunk] else picked;
      assert forall c :: c in next ==> c in picked || c == ranked[0].chunk;
      PickDistinct(ranked[1..], next, o);
    }
  }

  lemma RankedMembers(lex: Lexicon, chunks: seq<StoredContextChunk>, o: ContextAssemblyOptions)
    ensures var terms, recent := Terms(lex, o), RecentRevisions(chunks, o);
      && (forall c :: c in Ranked(lex, chunks, o) ==> c.chunk in chunks)
      && (forall c :: c in chunks && Admitted(lex, c, terms, recent) ==>
            CandidateOf(lex, c, terms, recent) in Ranked(lex, chunks, o))
  {
    CandidatesAreAdmitted(lex, chunks, Terms(lex, o), RecentRevisions(chunks, o));
    RankMembers(Candidates(lex, chunks, Terms(lex, o), RecentRevisions(chunks, o)));
  }

  lemma PickedAreDistinctChunks(lex: Lexicon, chunks: seq<StoredContextChunk>, o: ContextAssemblyOptions)
    requires Ascending(chunks)
    ensures DistinctPicks(Picked(lex, chunks, o))
    ensures forall c :: c in Picked(lex, chunks, o) ==> c in chunks
  {
    var picked := Picked(lex, chunks, o);
    RankedIsDistinct(lex, chunks, o);
    RankedMembers(lex, chunks, o);
    PickDistinct(Ranked(lex, chunks, o), [], o);
    PickExtends(Ranked(lex, chunks, o), [], o);
    forall c | c in picked ensures c in chunks {
      var j :| 0 <= j < |Ranked(lex, chunks, o)| && Ranked(lex, chunks, o)[j].chunk == c;
      assert Ranked(lex, chunks, o)[j] in Ranked(lex, chunks, o);
    }
  }

  /** Keeping the revisions of some of the chunks is keeping those chunks. */
  lemma KeepOfPicks(chunks: seq<StoredContextChunk>, picked: seq<StoredContextChunk>)
    requires Ascending(chunks) && forall c :: c in picked ==> c in chunks
    ensures forall c :: c in Keep(chunks, Revisions(picked)) <==> c in picked
  {
    KeepMembers(chunks, Revisions(picked));
    RevisionsMembers(picked);
    forall c | c in picked ensures c in Keep(chunks, Revisions(picked)) {
      var i :| 0 <= i < |picked| && picked[i] == c;
      assert c.revision in Revisions(picked);
    }
    forall c | c in Keep(chunks, Revisions(picked)) ensures c in picked {
      var i :| 0 <= i < |picked| && picked[i].revision == c.revision;
      assert picked[i] in chunks && c in chunks;
    }
  }

  /**
   The selection, for every chunk list and every option: oldest first, at most `maxChunks`,
   within the byte budget or a single chunk, and with no admitted chunk left out that still fits.
   */
  lemma SelectionIsBoundedAndMaximal(lex: Lexicon, chunks: seq<StoredContextChunk>, o: ContextAssemblyOptions)
    requires Ascending(chunks) && 1 <= o.maxChunks
    ensures var chosen := Choose(lex, chunks, o);
      && Ascending(chosen)
      && (forall c :: c in chosen ==> c in chunks)
      && WithinBudget(chosen, o)
      && (forall c :: c in chunks && Admitted(lex, c, Terms(lex, o), RecentRevisions(chunks, o)) && c !in chosen ==>
            |chosen| == o.maxChunks || TotalBytes(chosen) + c.byteLen > o.maxContextBytes)
  {
    var ranked, picked, chosen := Ranked(lex, chunks, o), Picked(lex, chunks, o), Choose(lex, chunks, o);
    var terms, recent := Terms(lex, o), RecentRevisions(chunks, o);
    PickedAreDistinctChunks(lex, chunks, o);
    KeepOfPicks(chunks, picked);
    KeepMembers(chunks, Revisions(picked));
    KeepPreservesTotals(chunks, picked);
    RankedIsDistinct(lex, chunks, o);
    RankedMembers(lex, chunks, o);
    PickWithinBudget(ranked, [], o);
    forall c | c in chunks && Admitted(lex, c, terms, recent) && c !in chosen
      ensures |chosen| == o.maxChunks || TotalBytes(chosen) + c.byteLen > o.maxContextBytes
    {
      var candidate := CandidateOf(lex, c, terms, recent);
      assert candidate in ranked;
      var i :| 0 <= i < |ranked| && ranked[i] == candidate;
      LeftOutDoesNotFit(ranked, i, o);
    }
  }

  // ---------------------------------------------------------------- selection without query terms

  function Reverse(chunks: seq<StoredContextChunk>): seq<StoredContextChunk> {
    if chunks == [] then [] else Reverse(chunks[1..]) + [chunks[0]]
  }

  function ChunksOf(ranked: seq<Candidate>): (r: seq<StoredContextChunk>)
    ensures |r| == |ranked|
  {
    if ranked == [] then [] else [ranked[0].chunk] + ChunksOf(ranked[1..])
  }

  lemma ChunksOfConcat(a: seq<Candidate>, b: seq<Candidate>)
    ensures ChunksOf(a + b) == ChunksOf(a) + ChunksOf(b)
  {
    if a == [] {
      assert a + b == b;
    } else {
      assert (a + b)[1..] == a[1..] + b;
      ChunksOfConcat(a[1..], b);
    }
  }

  lemma InsertLast(c: Candidate, sorted: seq<Candidate>)
    requires forall x :: x in sorted ==> Ahead(x, c)
    ensures Insert(c, sorted) == sorted + [c]
  {
  }

  /** Recency is upward closed: every chunk after a recent one is recent. */
  predicate RecentSuffix(chunks: seq<StoredContextChunk>, recent: set<nat>) {
    forall i, j :: 0 <= i < j < |chunks| && chunks[i].revision in recent ==> chunks[j].revision in recent
  }

  lemma OldestRanksLast(lex: Lexicon, chunks: seq<StoredContextChunk>, recent: set<nat>, x: Candidate)
    requires chunks != [] && Ascending(chunks) && RecentSuffix(chunks, recent)
    requires x in Candidates(lex, chunks[1..], [], recent)
    ensures Ahead(x, CandidateOf(lex, chunks[0], [], recent))
  {
    CandidatesAreAdmitted(lex, chunks[1..], [], recent);
    var i :| 0 <= i < |chunks[1..]| && chunks[1..][i] == x.chunk;
    assert x.chunk == chunks[i + 1];
    NewerIsAhead(x, x.chunk.revision in recent,
                 CandidateOf(lex, chunks[0], [], recent), chunks[0].revision in recent);
  }

  lemma RankWithLast(first: Candidate, tail: seq<Candidate>)
    requires forall x :: x in tail ==> Ahead(x, first)
    ensures ChunksOf(Rank([first] + tail)) == ChunksOf(Rank(tail)) + [first.chunk]
  {
    assert ([first] + tail)[1..] == tail;
    RankMembers(tail);
    InsertLast(first, Rank(tail));
    ChunksOfConcat(Rank(tail), [first]);
  }

  lemma {:induction false} AscendingRanksReversed(lex: Lexicon, chunks: seq<StoredContextChunk>, recent: set<nat>)
    requires Ascending(chunks) && RecentSuffix(chunks, recent)
    ensures ChunksOf(Rank(Candidates(lex, chunks, [], recent))) == Reverse(chunks)
  {
    if chunks != [] {
      AscendingRanksReversed(lex, chunks[1..], recent);
      forall x | x in Candidates(lex, chunks[1..], [], recent)
        ensures Ahead(x, CandidateOf(lex, chunks[0], [], recent))
      {
        OldestRanksLast(lex, chunks, recent, x);
      }
      RankWithLast(CandidateOf(lex, chunks[0], [], recent), Candidates(lex, chunks[1..], [], recent));
    }
  }

  lemma NewerIsAhead(x: Candidate, recentX: bool, y: Candidate, recentY: bool)
    requires x.chunk.revision > y.chunk.revision
    requires x.priority == Priority(0, recentX, x.chunk.revision)
    requires y.priority == Priority(0, recentY, y.chunk.revision)
    requires recentY ==> recentX
    ensures Ahead(x, y)
  {
  }

  /** Without query terms candidates are considered strictly newest first. */
  lemma NewestFirst(lex: Lexicon, chunks: seq<StoredContextChunk>, o: ContextAssemblyOptions)
    requires Ascending(chunks) && Terms(lex, o) == []
    ensures ChunksOf(Ranked(lex, chunks, o)) == Reverse(chunks)
  {
    var recent := RecentRevisions(chunks, o);
    forall i, j | 0 <= i < j < |chunks| && chunks[i].revision in recent ensures chunks[j].revision in recent {
      var start := RecentStart(chunks, o);
      var recentChunks := chunks[start..];
      RevisionsMembers(recentChunks);
      var k :| 0 <= k < |recentChunks| && recentChunks[k].revision == chunks[i].revision;
      assert chunks[start + k] == recentChunks[k];
      assert recentChunks[j - start] == chunks[j];
    }
    AscendingRanksReversed(lex, chunks, recent);
  }

  lemma TotalBytesCons(chunk: StoredContextChunk, rest: seq<StoredContextChunk>)
    ensures TotalBytes([chunk] + rest) == chunk.byteLen + TotalBytes(rest)
  {
    TotalBytesConcat([chunk], rest);
    TakeOne([], chunk);
    assert [] + [chunk] == [chunk];
  }

  lemma {:induction false} PickEverything(ranked: seq<Candidate>, picked: seq<StoredContextChunk>,
                                          o: ContextAssemblyOptions)
    requires |picked| + |ranked| <= o.maxChunks
    requires TotalBytes(picked) + TotalBytes(ChunksOf(ranked)) <= o.maxContextBytes
    ensures Pick(ranked, picked, o) == picked + ChunksOf(ranked)
  {
    if ranked != [] {
      var chunk, rest := ranked[0].chunk, ranked[1..];
      TotalBytesCons(chunk, ChunksOf(rest));
      TakeOne(picked, chunk);
      PickEverything(rest, picked + [chunk], o);
      assert picked + [chunk] + ChunksOf(rest) == picked + ChunksOf(ranked);
    }
  }

  lemma {:induction false} TotalBytesOfReverse(chunks: seq<StoredContextChunk>)
    ensures TotalBytes(Reverse(chunks)) == TotalBytes(chunks)
    ensures forall c :: c in Reverse(chunks) <==> c in chunks
  {
    if chunks != [] {
      var rest := chunks[1..];
      assert chunks == [chunks[0]] + rest;
      TotalBytesOfReverse(rest);
      TakeOne(Reverse(rest), chunks[0]);
      TotalBytesCons(chunks[0], rest);
    }
  }

  lemma ReverseLength(chunks: seq<StoredContextChunk>)
    ensures |Reverse(chunks)| == |chunks|
  {
  }

  lemma KeepEverything(chunks: seq<StoredContextChunk>, revisions: set<nat>)
    requires forall c :: c in chunks ==> c.revision in revisions
    ensures Keep(chunks, revisions) == chunks
  {
  }

  lemma PicksAllNewestFirst(lex: Lexicon, chunks: seq<StoredContextChunk>, o: ContextAssemblyOptions)
    requires Ascending(chunks) && Terms(lex, o) == []
    requires |chunks| <= o.maxChunks && TotalBytes(chunks) <= o.maxContextBytes
    ensures Picked(lex, chunks, o) == Reverse(chunks)
  {
    NewestFirst(lex, chunks, o);
    TotalBytesOfReverse(chunks);
    ReverseLength(chunks);
    PickEverything(Ranked(lex, chunks, o), [], o);
    assert [] + Reverse(chunks) == Reverse(chunks);
  }

  /** Without query terms, a list that fits the budgets is selected whole. */
  lemma FittingListIsChosenWhole(lex: Lexicon, chunks: seq<StoredContextChunk>, o: ContextAssemblyOptions)
    requires Ascending(chunks) && Terms(lex, o) == []
    requires |chunks| <= o.maxChunks && TotalBytes(chunks) <= o.maxContextBytes
    ensures Choose(lex, chunks, o) == chunks
  {
    PicksAllNewestFirst(lex, chunks, o);
    var reversed := Reverse(chunks);
    TotalBytesOfReverse(chunks);
    RevisionsMembers(reversed);
    forall c | c in chunks ensures c.revision in Revisions(reversed) {
      var i :| 0 <= i < |reversed| && reversed[i] == c;
    }
    KeepEverything(chunks, Revisions(reversed));
  }
}
