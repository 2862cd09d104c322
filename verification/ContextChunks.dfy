/** Stored chunks: the greedy, budgeted selector and the bounded renderer. */
module ContextChunks {
  import opened Wrappers
  import opened ContextPolicy

  datatype StoredContextChunk = StoredContextChunk(
    tenantId: string,
    contextId: string,
    revision: nat,
    role: string,
    byteLen: nat,
    text: string)

  /**
   Tokenisation and matching, which fold case, as tables: `terms` gives the terms of a query and
   `matches` the summed occurrences of a list of terms in a text. Absent entries are empty.
   */
  datatype Lexicon = Lexicon(terms: map<string, seq<string>>, matches: map<(string, seq<string>), nat>)

  function QueryTerms(lex: Lexicon, query: string): seq<string> {
    if query != "" && query in lex.terms then lex.terms[query] else []
  }

  function Terms(lex: Lexicon, o: ContextAssemblyOptions): seq<string> {
    QueryTerms(lex, o.QueryText())
  }

  function Score(lex: Lexicon, chunk: StoredContextChunk, terms: seq<string>): nat {
    if terms == [] || (chunk.text, terms) !in lex.matches then 0 else lex.matches[(chunk.text, terms)]
  }

  function SaturatingMul(a: nat, b: nat): nat {
    if a * b > U64_MAX then U64_MAX else a * b
  }

  function Priority(score: nat, recent: bool, revision: nat): nat {
    SaturatingMul(score, 10_000) + (if recent then 5_000 else 0) + Min(revision, 4_999)
  }

  /** Lists of chunks come from a range scan, in strictly ascending revision order. */
  predicate Ascending(chunks: seq<StoredContextChunk>) {
    forall i, j :: 0 <= i < j < |chunks| ==> chunks[i].revision < chunks[j].revision
  }

  datatype Candidate = Candidate(priority: nat, chunk: StoredContextChunk)

  /** The selection order: priority, then revision, both descending. */
  predicate Ahead(a: Candidate, b: Candidate) {
    a.priority > b.priority || (a.priority == b.priority && a.chunk.revision > b.chunk.revision)
  }

  function Revisions(chunks: seq<StoredContextChunk>): set<nat> {
    if chunks == [] then {} else Revisions(chunks[..|chunks| - 1]) + {chunks[|chunks| - 1].revision}
  }

  lemma {:induction false} RevisionsMembers(chunks: seq<StoredContextChunk>)
    ensures forall i :: 0 <= i < |chunks| ==> chunks[i].revision in Revisions(chunks)
    ensures forall r :: r in Revisions(chunks) ==> exists i :: 0 <= i < |chunks| && chunks[i].revision == r
  {
    if chunks != [] {
      var before, last := chunks[..|chunks| - 1], chunks[|chunks| - 1];
      RevisionsMembers(before);
      forall r | r in Revisions(chunks) ensures exists i :: 0 <= i < |chunks| && chunks[i].revision == r {
        if r in Revisions(before) {
          var i :| 0 <= i < |before| && before[i].revision == r;
          assert chunks[i].revision == r;
        } else {
          assert chunks[|chunks| - 1].revision == r;
        }
      }
      forall i | 0 <= i < |chunks| ensures chunks[i].revision in Revisions(chunks) {
        if i < |before| {
          assert before[i].revision in Revisions(before);
        }
      }
    }
  }

  function RecentStart(chunks: seq<StoredContextChunk>, o: ContextAssemblyOptions): (start: nat)
    ensures start <= |chunks|
  {
    if |chunks| >= o.recentTailChunks then |chunks| - o.recentTailChunks else 0
  }

  function RecentRevisions(chunks: seq<StoredContextChunk>, o: ContextAssemblyOptions): set<nat> {
    Revisions(chunks[RecentStart(chunks, o)..])
  }

  predicate Admitted(lex: Lexicon, chunk: StoredContextChunk, terms: seq<string>, recent: set<nat>) {
    terms == [] || Score(lex, chunk, terms) > 0 || chunk.revision in recent
  }

  function CandidateOf(lex: Lexicon, chunk: StoredContextChunk, terms: seq<string>, recent: set<nat>): Candidate {
    Candidate(Priority(Score(lex, chunk, terms), chunk.revision in recent, chunk.revision), chunk)
  }

  function Candidates(lex: Lexicon, chunks: seq<StoredContextChunk>, terms: seq<string>, recent: set<nat>)
    : seq<Candidate>
  {
    if chunks == [] then []
    else
      var rest := Candidates(lex, chunks[1..], terms, recent);
      if Admitted(lex, chunks[0], terms, recent) then [CandidateOf(lex, chunks[0], terms, recent)] + rest else rest
  }

  lemma {:induction false} CandidatesAreAdmitted(lex: Lexicon, chunks: seq<StoredContextChunk>, terms: seq<string>,
                                                 recent: set<nat>)
    ensures forall c :: c in Candidates(lex, chunks, terms, recent) ==>
              && c.chunk in chunks
              && Admitted(lex, c.chunk, terms, recent)
              && c == CandidateOf(lex, c.chunk, terms, recent)
    ensures forall chunk :: chunk in chunks && Admitted(lex, chunk, terms, recent) ==>
                              CandidateOf(lex, chunk, terms, recent) in Candidates(lex, chunks, terms, recent)
  {
    if chunks != [] {
      CandidatesAreAdmitted(lex, chunks[1..], terms, recent);
    }
  }

  function Insert(c: Candidate, sorted: seq<Candidate>): seq<Candidate> {
    if sorted != [] && Ahead(sorted[0], c) then [sorted[0]] + Insert(c, sorted[1..]) else [c] + sorted
  }

  /** The sort of `choose_chunks`. */
  function Rank(candidates: seq<Candidate>): seq<Candidate> {
    if candidates == [] then [] else Insert(candidates[0], Rank(candidates[1..]))
  }

  lemma InsertMembers(c: Candidate, sorted: seq<Candidate>)
    ensures |Insert(c, sorted)| == |sorted| + 1
    ensures forall x :: x in Insert(c, sorted) <==> x == c || x in sorted
  {
  }

  lemma {:induction false} RankMembers(candidates: seq<Candidate>)
    ensures |Rank(candidates)| == |candidates|
    ensures forall x :: x in Rank(candidates) <==> x in candidates
  {
    if candidates != [] {
      RankMembers(candidates[1..]);
      InsertMembers(candidates[0], Rank(candidates[1..]));
    }
  }

  function Ranked(lex: Lexicon, chunks: seq<StoredContextChunk>, o: ContextAssemblyOptions): seq<Candidate> {
    Rank(Candidates(lex, chunks, Terms(lex, o), RecentRevisions(chunks, o)))
  }

  function TotalBytes(chunks: seq<StoredContextChunk>): nat {
    if chunks == [] then 0 else TotalBytes(chunks[..|chunks| - 1]) + chunks[|chunks| - 1].byteLen
  }

  /** Whether `choose_chunks` still takes a chunk once it has taken `picked`. */
  predicate CanTake(picked: seq<StoredContextChunk>, chunk: StoredContextChunk, o: ContextAssemblyOptions) {
    |picked| < o.maxChunks && (picked == [] || TotalBytes(picked) + chunk.byteLen <= o.maxContextBytes)
  }

  /** The greedy pass over the ranked candidates, in the order of picking. */
  function Pick(ranked: seq<Candidate>, picked: seq<StoredContextChunk>, o: ContextAssemblyOptions)
    : seq<StoredContextChunk>
  {
    if ranked == [] then picked
    else Pick(ranked[1..], if CanTake(picked, ranked[0].chunk, o) then picked + [ranked[0].chunk] else picked, o)
  }

  function Picked(lex: Lexicon, chunks: seq<StoredContextChunk>, o: ContextAssemblyOptions): seq<StoredContextChunk> {
    Pick(Ranked(lex, chunks, o), [], o)
  }

  function Keep(chunks: seq<StoredContextChunk>, revisions: set<nat>): seq<StoredContextChunk> {
    if chunks == [] then []
    else (if chunks[0].revision in revisions then [chunks[0]] else []) + Keep(chunks[1..], revisions)
  }

  /** What `choose_chunks` returns: the picked chunks, oldest first. */
  function Choose(lex: Lexicon, chunks: seq<StoredContextChunk>, o: ContextAssemblyOptions): seq<StoredContextChunk> {
    Keep(chunks, Revisions(Picked(lex, chunks, o)))
  }

  method ChooseChunks(lex: Lexicon, chunks: seq<StoredContextChunk>, o: ContextAssemblyOptions)
    returns (chosen: seq<StoredContextChunk>)
    requires Ascending(chunks)
    ensures chosen == Choose(lex, chunks, o)
  {
    if chunks == [] {
      return [];
    }
    var terms := Terms(lex, o);
    var recent := RecentRevisions(chunks, o);
    var candidates := Rank(Candidates(lex, chunks, terms, recent));
    RankedIsDistinct(lex, chunks, o);

    var selected := SelectGreedily(candidates, o);
    chosen := InRevisionOrder(chunks, selected.Keys);
  }

  /** The loop over the ranked candidates. */
  method SelectGreedily(candidates: seq<Candidate>, o: ContextAssemblyOptions)
    returns (selected: map<nat, StoredContextChunk>)
    requires DistinctRevisions(candidates)
    ensures selected.Keys == Revisions(Pick(candidates, [], o))
  {
    selected := map[];
    var bytes := 0;
    ghost var picked := [];
    var i := 0;
    while i < |candidates|
      invariant 0 <= i <= |candidates|
      invariant Pick(candidates, [], o) == Pick(candidates[i..], picked, o)
      invariant bytes == TotalBytes(picked)
      invariant |selected| == |picked| && selected.Keys == Revisions(picked)
      invariant forall j :: i <= j < |candidates| ==> candidates[j].chunk.revision !in selected
    {
      if |selected| >= o.maxChunks {
        PickWhenFull(candidates[i..], picked, o);
        break;
      }
      var chunk := candidates[i].chunk;
      assert candidates[i..][1..] == candidates[i + 1..];
      i := i + 1;
      if selected != map[] && bytes + chunk.byteLen > o.maxContextBytes {
        continue;
      }
      TakeOne(picked, chunk);
      bytes := bytes + chunk.byteLen;
      selected := selected[chunk.revision := chunk];
      picked := picked + [chunk];
    }
  }

  /** Reads the selected chunks back in key order, as `BTreeMap::into_values` does. */
  method InRevisionOrder(chunks: seq<StoredContextChunk>, revisions: set<nat>) returns (chosen: seq<StoredContextChunk>)
    ensures chosen == Keep(chunks, revisions)
  {
    chosen := [];
    var k := 0;
    while k < |chunks|
      invariant 0 <= k <= |chunks|
      invariant chosen + Keep(chunks[k..], revisions) == Keep(chunks, revisions)
    {
      assert chunks[k..][1..] == chunks[k + 1..];
      KeepInTurn(chosen, chunks[k], Keep(chunks[k + 1..], revisions));
      if chunks[k].revision in revisions {
        chosen := chosen + [chunks[k]];
      }
      k := k + 1;
    }
  }

  lemma KeepInTurn(chosen: seq<StoredContextChunk>, chunk: StoredContextChunk, more: seq<StoredContextChunk>)
    ensures chosen + ([chunk] + more) == chosen + [chunk] + more
    ensures chosen + ([] + more) == chosen + more
  {
  }

  lemma TakeOne(picked: seq<StoredContextChunk>, chunk: StoredContextChunk)
    ensures TotalBytes(picked + [chunk]) == TotalBytes(picked) + chunk.byteLen
    ensures Revisions(picked + [chunk]) == Revisions(picked) + {chunk.revision}
  {
    assert (picked + [chunk])[..|picked|] == picked;
  }

  lemma PickWhenFull(ranked: seq<Candidate>, picked: seq<StoredContextChunk>, o: ContextAssemblyOptions)
    requires ranked == [] || |picked| >= o.maxChunks
    ensures Pick(ranked, picked, o) == picked
  {
  }

  predicate DistinctRevisions(ranked: seq<Candidate>) {
    forall i, j :: 0 <= i < j < |ranked| ==> ranked[i].chunk.revision != ranked[j].chunk.revision
  }

  lemma CandidatesDistinct(lex: Lexicon, chunks: seq<StoredContextChunk>, terms: seq<string>, recent: set<nat>)
    requires Ascending(chunks)
    ensures DistinctRevisions(Candidates(lex, chunks, terms, recent))
  {
    if chunks != [] {
      assert Ascending(chunks[1..]);
      CandidatesDistinct(lex, chunks[1..], terms, recent);
      CandidatesAreAdmitted(lex, chunks[1..], terms, recent);
      assert forall c :: c in chunks[1..] ==> c.revision > chunks[0].revision;
    }
  }

  lemma InsertDistinct(c: Candidate, sorted: seq<Candidate>)
    requires DistinctRevisions(sorted)
    requires forall x :: x in sorted ==> x.chunk.revision != c.chunk.revision
    ensures DistinctRevisions(Insert(c, sorted))
  {
    if sorted != [] && Ahead(sorted[0], c) {
      InsertDistinct(c, sorted[1..]);
      InsertMembers(c, sorted[1..]);
      assert forall x :: x in sorted[1..] ==> x.chunk.revision != sorted[0].chunk.revision;
    }
  }

  lemma RankDistinct(candidates: seq<Candidate>)
    requires DistinctRevisions(candidates)
    ensures DistinctRevisions(Rank(candidates))
  {
    if candidates != [] {
      RankDistinct(candidates[1..]);
      RankMembers(candidates[1..]);
      assert forall x :: x in candidates[1..] ==> x.chunk.revision != candidates[0].chunk.revision;
      InsertDistinct(candidates[0], Rank(candidates[1..]));
    }
  }

  lemma RankedIsDistinct(lex: Lexicon, chunks: seq<StoredContextChunk>, o: ContextAssemblyOptions)
    requires Ascending(chunks)
    ensures DistinctRevisions(Ranked(lex, chunks, o))
  {
    CandidatesDistinct(lex, chunks, Terms(lex, o), RecentRevisions(chunks, o));
    RankDistinct(Candidates(lex, chunks, Terms(lex, o), RecentRevisions(chunks, o)));
  }
}
