/** What a query selects, in terms of the matches, the place and the revision of the chunks alone. */
module ContextRelevance {
  import opened Wrappers
  import opened ContextPolicy
  import opened ContextChunks
  import opened ContextSelection

  type Chunks = seq<StoredContextChunk>

  /** Chunk `k` is one of the last `recentTailChunks` of the list. */
  predicate InRecentTail(chunks: Chunks, o: ContextAssemblyOptions, k: nat) {
    k >= |chunks| - o.recentTailChunks
  }

  function Matches(lex: Lexicon, chunks: Chunks, o: ContextAssemblyOptions, k: nat): nat
    requires k < |chunks|
  {
    Score(lex, chunks[k], Terms(lex, o))
  }

  predicate Relevant(lex: Lexicon, chunks: Chunks, o: ContextAssemblyOptions, k: nat)
    requires k < |chunks|
  {
    Terms(lex, o) == [] || Matches(lex, chunks, o, k) > 0 || InRecentTail(chunks, o, k)
  }

  /** Chunk `a` beats chunk `b` on matches, recency, capped revision and revision, in this order. */
  predicate Outranks(lex: Lexicon, chunks: Chunks, o: ContextAssemblyOptions, a: nat, b: nat)
    requires a < |chunks| && b < |chunks|
  {
    var m, n := Matches(lex, chunks, o, a), Matches(lex, chunks, o, b);
    var p, q := InRecentTail(chunks, o, a), InRecentTail(chunks, o, b);
    var v, w := chunks[a].revision, chunks[b].revision;
    || m > n
    || (m == n && p && !q)
    || (m == n && p == q && Min(v, 4_999) > Min(w, 4_999))
    || (m == n && p == q && Min(v, 4_999) == Min(w, 4_999) && v > w)
  }

  /** No priority saturates. */
  predicate Unsaturated(lex: Lexicon, chunks: Chunks, o: ContextAssemblyOptions) {
    forall k :: 0 <= k < |chunks| ==> Matches(lex, chunks, o, k) * 10_000 <= U64_MAX
  }

  /** Recency and capped revision only repeat that the newer chunk comes first. */
  lemma OutranksIffMoreMatchesOrNewer(lex: Lexicon, chunks: Chunks, o: ContextAssemblyOptions, a: nat, b: nat)
    requires Ascending(chunks) && a < |chunks| && b < |chunks|
    ensures Outranks(lex, chunks, o, a, b) <==>
              || Matches(lex, chunks, o, a) > Matches(lex, chunks, o, b)
              || (Matches(lex, chunks, o, a) == Matches(lex, chunks, o, b) && a > b)
  {
    assert a < b ==> chunks[a].revision < chunks[b].revision;
    assert b < a ==> chunks[b].revision < chunks[a].revision;
  }

  // ---------------------------------------------------------------- the ranking

  lemma RecentIffInTail(chunks: Chunks, o: ContextAssemblyOptions, k: nat)
    requires Ascending(chunks) && k < |chunks|
    ensures chunks[k].revision in RecentRevisions(chunks, o) <==> InRecentTail(chunks, o, k)
  {
    var start := RecentStart(chunks, o);
    var tail := chunks[start..];
    RevisionsMembers(tail);
    assert forall i :: 0 <= i < |tail| ==> tail[i] == chunks[start + i];
    if k >= start {
      assert tail[k - start] == chunks[k];
    }
  }

  /** The index of a ranked chunk, and its priority. */
  lemma RankedChunk(lex: Lexicon, chunks: Chunks, o: ContextAssemblyOptions, i: nat)
    returns (k: nat)
    requires Ascending(chunks) && i < |Ranked(lex, chunks, o)|
    ensures k < |chunks| && Ranked(lex, chunks, o)[i].chunk == chunks[k]
    ensures Relevant(lex, chunks, o, k)
    ensures Ranked(lex, chunks, o)[i].priority ==
            Priority(Matches(lex, chunks, o, k), InRecentTail(chunks, o, k), chunks[k].revision)
  {
    var terms, recent := Terms(lex, o), RecentRevisions(chunks, o);
    var candidates := Candidates(lex, chunks, terms, recent);
    CandidatesAreAdmitted(lex, chunks, terms, recent);
    RankMembers(candidates);
    var c := Ranked(lex, chunks, o)[i];
    assert c in Rank(candidates);
    assert c.chunk in chunks;
    k :| 0 <= k < |chunks| && chunks[k] == c.chunk;
    RecentIffInTail(chunks, o, k);
  }

  lemma RelevantIsRanked(lex: Lexicon, chunks: Chunks, o: ContextAssemblyOptions, k: nat)
    returns (i: nat)
    requires Ascending(chunks) && k < |chunks| && Relevant(lex, chunks, o, k)
    ensures i < |Ranked(lex, chunks, o)| && Ranked(lex, chunks, o)[i].chunk == chunks[k]
  {
    var terms, recent := Terms(lex, o), RecentRevisions(chunks, o);
    RecentIffInTail(chunks, o, k);
    RankedMembers(lex, chunks, o);
    var c := CandidateOf(lex, chunks[k], terms, recent);
    assert chunks[k] in chunks && c in Ranked(lex, chunks, o);
    i :| 0 <= i < |Ranked(lex, chunks, o)| && Ranked(lex, chunks, o)[i] == c;
  }

  /** The ranking lists exactly the relevant chunks. */
  lemma RankedIffRelevant(lex: Lexicon, chunks: Chunks, o: ContextAssemblyOptions, k: nat)
    requires Ascending(chunks) && k < |chunks|
    ensures (exists i :: 0 <= i < |Ranked(lex, chunks, o)| && Ranked(lex, chunks, o)[i].chunk == chunks[k]) <==>
            Relevant(lex, chunks, o, k)
  {
    var ranked := Ranked(lex, chunks, o);
    if Relevant(lex, chunks, o, k) {
      var i := RelevantIsRanked(lex, chunks, o, k);
    } else if exists i :: 0 <= i < |ranked| && ranked[i].chunk == chunks[k] {
      var i :| 0 <= i < |ranked| && ranked[i].chunk == chunks[k];
      var l := RankedChunk(lex, chunks, o, i);
      SameRevisionSameIndex(chunks, k, l);
      assert false;
    }
  }

  lemma SameRevisionSameIndex(chunks: Chunks, k: nat, l: nat)
    requires Ascending(chunks) && k < |chunks| && l < |chunks|
    requires chunks[k].revision == chunks[l].revision
    ensures k == l
  {
  }

  lemma PriorityOrder(m: nat, p: bool, v: nat, n: nat, q: bool, w: nat)
    requires m * 10_000 <= U64_MAX && n * 10_000 <= U64_MAX
    requires Priority(m, p, v) > Priority(n, q, w) || (Priority(m, p, v) == Priority(n, q, w) && v > w)
    ensures || m > n
            || (m == n && p && !q)
            || (m == n && p == q && Min(v, 4_999) > Min(w, 4_999))
            || (m == n && p == q && Min(v, 4_999) == Min(w, 4_999) && v > w)
  {
    PriorityIsLexicographic(m, p, v, n, q, w);
    PriorityIsLexicographic(n, q, w, m, p, v);
  }

  /** Of two ranked chunks the one in front outranks the other. */
  lemma RankedByRelevance(lex: Lexicon, chunks: Chunks, o: ContextAssemblyOptions, i: nat, j: nat, a: nat, b: nat)
    requires Ascending(chunks) && Unsaturated(lex, chunks, o)
    requires i < j < |Ranked(lex, chunks, o)| && a < |chunks| && b < |chunks|
    requires Ranked(lex, chunks, o)[i].chunk == chunks[a] && Ranked(lex, chunks, o)[j].chunk == chunks[b]
    ensures Outranks(lex, chunks, o, a, b)
  {
    var ranked := Ranked(lex, chunks, o);
    CandidatesDistinct(lex, chunks, Terms(lex, o), RecentRevisions(chunks, o));
    RankSorted(Candidates(lex, chunks, Terms(lex, o), RecentRevisions(chunks, o)));
    assert Ahead(ranked[i], ranked[j]);
    var k := RankedChunk(lex, chunks, o, i);
    SameRevisionSameIndex(chunks, a, k);
    var l := RankedChunk(lex, chunks, o, j);
    SameRevisionSameIndex(chunks, b, l);
    PriorityOrder(Matches(lex, chunks, o, a), InRecentTail(chunks, o, a), chunks[a].revision,
                  Matches(lex, chunks, o, b), InRecentTail(chunks, o, b), chunks[b].revision);
  }

  /** Without a query, or with an empty one, the newest chunk comes first. */
  lemma NoQueryRanksNewestFirst(lex: Lexicon, chunks: Chunks, o: ContextAssemblyOptions)
    requires Ascending(chunks) && (o.query == None || o.query == Some(""))
    ensures ChunksOf(Ranked(lex, chunks, o)) == Reverse(chunks)
  {
    NewestFirst(lex, chunks, o);
  }

  // ---------------------------------------------------------------- the selection

  /** The revisions of the selected chunks that outrank chunk `k`. */
  function BetterRevisions(lex: Lexicon, chunks: Chunks, o: ContextAssemblyOptions, chosen: Chunks, k: nat): set<nat>
    requires k < |chunks|
  {
    set j | 0 <= j < |chunks| && chunks[j] in chosen && Outranks(lex, chunks, o, j, k) :: chunks[j].revision
  }

  /** The selected chunks that outrank chunk `k`. */
  function Betters(lex: Lexicon, chunks: Chunks, o: ContextAssemblyOptions, chosen: Chunks, k: nat): Chunks
    requires k < |chunks|
  {
    Keep(chunks, BetterRevisions(lex, chunks, o, chosen, k))
  }

  /** What was picked in front of place `i` are the selected betters of the chunk in that place. */
  lemma PickedInFront(lex: Lexicon, chunks: Chunks, o: ContextAssemblyOptions, i: nat, k: nat, c: StoredContextChunk)
    requires Ascending(chunks) && Unsaturated(lex, chunks, o)
    requires i < |Ranked(lex, chunks, o)| && k < |chunks| && Ranked(lex, chunks, o)[i].chunk == chunks[k]
    ensures c in Pick(Ranked(lex, chunks, o)[..i], [], o) <==>
            && c in Picked(lex, chunks, o)
            && exists j :: 0 <= j < |chunks| && chunks[j] == c && Outranks(lex, chunks, o, j, k)
  {
    var ranked := Ranked(lex, chunks, o);
    var front := ranked[..i];
    assert ranked == front + ranked[i..];
    PickSplits(front, ranked[i..], [], o);
    PickExtends(ranked[i..], Pick(front, [], o), o);
    PickExtends(front, [], o);
    if c in Pick(front, [], o) {
      var h :| 0 <= h < |front| && front[h].chunk == c;
      var j := RankedChunk(lex, chunks, o, h);
      RankedByRelevance(lex, chunks, o, h, i, j, k);
    } else if c in Picked(lex, chunks, o) {
      var h :| 0 <= h < |ranked[i..]| && ranked[i..][h].chunk == c;
      assert ranked[i + h].chunk == c;
      forall j | 0 <= j < |chunks| && chunks[j] == c ensures !Outranks(lex, chunks, o, j, k) {
        if h == 0 {
          SameRevisionSameIndex(chunks, j, k);
        } else {
          RankedByRelevance(lex, chunks, o, i, i + h, k, j);
        }
      }
    }
  }

  lemma BettersAreThosePicked(lex: Lexicon, chunks: Chunks, o: ContextAssemblyOptions, i: nat, k: nat)
    requires Ascending(chunks) && Unsaturated(lex, chunks, o)
    requires i < |Ranked(lex, chunks, o)| && k < |chunks| && Ranked(lex, chunks, o)[i].chunk == chunks[k]
    ensures BetterRevisions(lex, chunks, o, Choose(lex, chunks, o), k) ==
            Revisions(Pick(Ranked(lex, chunks, o)[..i], [], o))
  {
    var before, chosen := Pick(Ranked(lex, chunks, o)[..i], [], o), Choose(lex, chunks, o);
    var better := BetterRevisions(lex, chunks, o, chosen, k);
    RevisionsMembers(before);
    PickedAreDistinctChunks(lex, chunks, o);
    KeepOfPicks(chunks, Picked(lex, chunks, o));
    forall r | r in better ensures r in Revisions(before) {
      var j :| 0 <= j < |chunks| && chunks[j] in chosen && Outranks(lex, chunks, o, j, k) && chunks[j].revision == r;
      PickedInFront(lex, chunks, o, i, k, chunks[j]);
    }
    forall r | r in Revisions(before) ensures r in better {
      var h :| 0 <= h < |before| && before[h].revision == r;
      PickedInFront(lex, chunks, o, i, k, before[h]);
    }
  }

  lemma FrontIsDistinct(lex: Lexicon, chunks: Chunks, o: ContextAssemblyOptions, i: nat)
    requires Ascending(chunks) && i < |Ranked(lex, chunks, o)|
    ensures DistinctPicks(Pick(Ranked(lex, chunks, o)[..i], [], o))
    ensures forall c :: c in Pick(Ranked(lex, chunks, o)[..i], [], o) ==> c in chunks
  {
    var ranked := Ranked(lex, chunks, o);
    assert ranked == ranked[..i] + ranked[i..];
    PickSplits(ranked[..i], ranked[i..], [], o);
    PickExtends(ranked[i..], Pick(ranked[..i], [], o), o);
    PickedAreDistinctChunks(lex, chunks, o);
  }

  lemma ChosenIsRelevant(lex: Lexicon, chunks: Chunks, o: ContextAssemblyOptions, k: nat)
    requires Ascending(chunks) && k < |chunks| && chunks[k] in Choose(lex, chunks, o)
    ensures Relevant(lex, chunks, o, k)
  {
    PickedAreDistinctChunks(lex, chunks, o);
    KeepOfPicks(chunks, Picked(lex, chunks, o));
    PickExtends(Ranked(lex, chunks, o), [], o);
    RankedIffRelevant(lex, chunks, o, k);
  }

  /**
   The selection, described without ranking and without a pass: a chunk is selected exactly when
   it is relevant and still fits, in number and in bytes, beside the selected chunks that outrank
   it. The first chunk always fits.
   */
  lemma ChosenIffItFitsBesideItsBetters(lex: Lexicon, chunks: Chunks, o: ContextAssemblyOptions, k: nat)
    requires Ascending(chunks) && Unsaturated(lex, chunks, o) && k < |chunks|
    ensures var betters := Betters(lex, chunks, o, Choose(lex, chunks, o), k);
            chunks[k] in Choose(lex, chunks, o) <==>
              && Relevant(lex, chunks, o, k)
              && |betters| < o.maxChunks
              && (betters == [] || TotalBytes(betters) + chunks[k].byteLen <= o.maxContextBytes)
  {
    if Relevant(lex, chunks, o, k) {
      var i := RelevantIsRanked(lex, chunks, o, k);
      RankedIsDistinct(lex, chunks, o);
      PickedIffItFits(Ranked(lex, chunks, o), i, o);
      BettersAreThosePicked(lex, chunks, o, i, k);
      FrontIsDistinct(lex, chunks, o, i);
      KeepPreservesTotals(chunks, Pick(Ranked(lex, chunks, o)[..i], [], o));
      PickedAreDistinctChunks(lex, chunks, o);
      KeepOfPicks(chunks, Picked(lex, chunks, o));
    } else if chunks[k] in Choose(lex, chunks, o) {
      ChosenIsRelevant(lex, chunks, o, k);
    }
  }

  lemma BettersMember(lex: Lexicon, chunks: Chunks, o: ContextAssemblyOptions, chosen: Chunks, k: nat)
    returns (j: nat)
    requires Ascending(chunks) && k < |chunks| && Betters(lex, chunks, o, chosen, k) != []
    ensures j < |chunks| && chunks[j] in chosen && Outranks(lex, chunks, o, j, k)
  {
    var revisions := BetterRevisions(lex, chunks, o, chosen, k);
    KeepMembers(chunks, revisions);
    var c := Keep(chunks, revisions)[0];
    assert c in Keep(chunks, revisions);
    j :| 0 <= j < |chunks| && chunks[j] in chosen && Outranks(lex, chunks, o, j, k) && chunks[j].revision == c.revision;
  }

  predicate IsBest(lex: Lexicon, chunks: Chunks, o: ContextAssemblyOptions, k: nat)
    requires k < |chunks|
  {
    && Relevant(lex, chunks, o, k)
    && forall j :: 0 <= j < |chunks| && j != k && Relevant(lex, chunks, o, j) ==> Outranks(lex, chunks, o, k, j)
  }

  lemma BestIsPicked(lex: Lexicon, chunks: Chunks, o: ContextAssemblyOptions, k: nat)
    requires Ascending(chunks) && Unsaturated(lex, chunks, o) && k < |chunks|
    requires 1 <= o.maxChunks && IsBest(lex, chunks, o, k)
    ensures chunks[k] in Choose(lex, chunks, o)
  {
    var chosen := Choose(lex, chunks, o);
    ChosenIffItFitsBesideItsBetters(lex, chunks, o, k);
    if Betters(lex, chunks, o, chosen, k) != [] {
      var j := BettersMember(lex, chunks, o, chosen, k);
      ChosenIsRelevant(lex, chunks, o, j);
      OutranksIffMoreMatchesOrNewer(lex, chunks, o, j, k);
      OutranksIffMoreMatchesOrNewer(lex, chunks, o, k, j);
      assert false;
    }
  }

  lemma ChosenAloneIsBest(lex: Lexicon, chunks: Chunks, o: ContextAssemblyOptions, k: nat)
    requires Ascending(chunks) && Unsaturated(lex, chunks, o) && k < |chunks|
    requires o.maxChunks == 1 && Choose(lex, chunks, o) == [chunks[k]]
    ensures IsBest(lex, chunks, o, k)
  {
    ChosenIsRelevant(lex, chunks, o, k);
    forall j | 0 <= j < |chunks| && j != k && Relevant(lex, chunks, o, j) ensures Outranks(lex, chunks, o, k, j) {
      ChosenIffItFitsBesideItsBetters(lex, chunks, o, j);
      var better := BettersMember(lex, chunks, o, [chunks[k]], j);
      SameRevisionSameIndex(chunks, better, k);
    }
  }

  /** A single chunk is asked for: it is the one that outranks every other relevant chunk. */
  lemma BestIsChosen(lex: Lexicon, chunks: Chunks, o: ContextAssemblyOptions, k: nat)
    requires Ascending(chunks) && Unsaturated(lex, chunks, o) && k < |chunks|
    requires o.maxChunks == 1
    ensures Choose(lex, chunks, o) == [chunks[k]] <==> IsBest(lex, chunks, o, k)
    ensures Choose(lex, chunks, o) == [] ==> !Relevant(lex, chunks, o, k)
  {
    var chosen := Choose(lex, chunks, o);
    SelectionIsBoundedAndMaximal(lex, chunks, o);
    if IsBest(lex, chunks, o, k) {
      BestIsPicked(lex, chunks, o, k);
    }
    if chosen == [chunks[k]] {
      ChosenAloneIsBest(lex, chunks, o, k);
    }
    if chosen == [] {
      ChosenIffItFitsBesideItsBetters(lex, chunks, o, k);
      if Betters(lex, chunks, o, chosen, k) != [] {
        var j := BettersMember(lex, chunks, o, chosen, k);
      }
    }
  }

  /** A query in the words of the lexicon: the chunk with more matches than any other is the one selected. */
  lemma MostMatchesWin(lex: Lexicon, chunks: Chunks, o: ContextAssemblyOptions, query: string, terms: seq<string>,
                       k: nat)
    requires Ascending(chunks) && k < |chunks| && o.maxChunks == 1
    requires o.query == Some(query) && query != "" && query in lex.terms && lex.terms[query] == terms && terms != []
    requires forall j :: 0 <= j < |chunks| ==> (chunks[j].text, terms) in lex.matches
    requires forall j :: 0 <= j < |chunks| && j != k ==>
                           lex.matches[(chunks[j].text, terms)] < lex.matches[(chunks[k].text, terms)]
    requires 0 < lex.matches[(chunks[k].text, terms)] && lex.matches[(chunks[k].text, terms)] * 10_000 <= U64_MAX
    ensures Choose(lex, chunks, o) == [chunks[k]]
  {
    assert forall j :: 0 <= j < |chunks| ==> Matches(lex, chunks, o, j) == lex.matches[(chunks[j].text, terms)];
    assert Unsaturated(lex, chunks, o);
    BestIsChosen(lex, chunks, o, k);
  }
}
