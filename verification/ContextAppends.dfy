/** What an append leaves behind, record by record. */
module ContextAppends {
  import opened Wrappers
  import opened RustText
  import opened Utf8
  import opened ContextChunks
  import opened ContextState
  import opened ContextInvariants

  type Records = seq<ContextAppendRecord>

  /** The number of records whose text is not blank. */
  function Written(records: Records): nat {
    if records == [] then 0
    else Written(records[..|records| - 1]) + (if IsBlank(records[|records| - 1].text) then 0 else 1)
  }

  lemma {:induction false} WrittenCons(records: Records)
    requires records != []
    ensures Written(records) == (if IsBlank(records[0].text) then 0 else 1) + Written(records[1..])
  {
    var front := records[..|records| - 1];
    if |records| == 1 {
      assert front == [] && records[1..] == [];
    } else {
      WrittenCons(front);
      assert front[1..] == records[1..][..|records[1..]| - 1];
    }
  }

  lemma {:induction false} KeptCount(records: Records)
    ensures |NonBlank(records)| == Written(records)
  {
    if records != [] {
      WrittenCons(records);
      KeptCount(records[1..]);
    }
  }

  /** A record that is not blank is kept behind those before it that are not. */
  lemma {:induction false} KeptInOrder(records: Records, i: nat)
    requires i < |records| && !IsBlank(records[i].text)
    ensures Written(records[..i]) < |NonBlank(records)|
    ensures NonBlank(records)[Written(records[..i])] == records[i]
  {
    if i > 0 {
      KeptInOrder(records[1..], i - 1);
      WrittenCons(records[..i]);
      assert records[..i][1..] == records[1..][..i - 1];
    }
  }

  lemma PlaceIsBelowCount(records: Records, i: nat)
    requires i < |records| && !IsBlank(records[i].text)
    ensures Written(records[..i]) < Written(records)
  {
    KeptCount(records);
    KeptInOrder(records, i);
  }

  // ---------------------------------------------------------------- one append

  /** The chunk at a revision has the role and the text of the record, and the size of that text. */
  predicate StoredAt(chunks: map<(Scope, nat), StoredContextChunk>, scope: Scope, revision: nat,
                     record: ContextAppendRecord)
  {
    && (scope, revision) in chunks
    && var chunk := chunks[(scope, revision)];
    && chunk.tenantId == scope.tenantId && chunk.contextId == scope.contextId && chunk.revision == revision
    && chunk.role == record.role && chunk.text == record.text && chunk.byteLen == ByteLen(record.text)
  }

  predicate ReadAt(read: seq<StoredContextChunk>, k: nat, record: ContextAppendRecord) {
    k < |read| && read[k].role == record.role && read[k].text == record.text
  }

  /** Exactly a blank tenant or context name is refused, the tenant first. */
  lemma BlankNamesAreRefused(st: ContextState, tenantId: string, contextId: string, records: Records)
    ensures IsBlank(tenantId) ==>
              Append(st, tenantId, contextId, records) == (st, Failure(InvalidInput("tenant_id")))
    ensures !IsBlank(tenantId) && IsBlank(contextId) ==>
              Append(st, tenantId, contextId, records) == (st, Failure(InvalidInput("context_id")))
    ensures Append(st, tenantId, contextId, records).1.Success? <==> !IsBlank(tenantId) && !IsBlank(contextId)
  {
  }

  /** The latest revision grows by the number of records that are not blank, and the answer says so. */
  lemma AppendGrowsByWritten(st: ContextState, tenantId: string, contextId: string, records: Records)
    requires !IsBlank(tenantId) && !IsBlank(contextId)
    requires ScopeValid(st, Scope(tenantId, contextId))
    ensures var scope, (after, answer) := Scope(tenantId, contextId), Append(st, tenantId, contextId, records);
      && Latest(after, scope) == Latest(st, scope) + Written(records)
      && answer == Success(ContextHead(tenantId, contextId, Latest(after, scope), Latest(after, scope)))
  {
    var scope, kept := Scope(tenantId, contextId), NonBlank(records);
    KeptCount(records);
    HeadCells(st, scope);
    if kept != [] {
      AppendToScope(st, scope, kept);
    }
  }

  /**
   Every record that is not blank is stored with its own role and text, at the revision that
   counts the records written before it; blank records take no revision.
   */
  lemma AppendStoresInOrder(st: ContextState, tenantId: string, contextId: string, records: Records, i: nat)
    requires !IsBlank(tenantId) && !IsBlank(contextId)
    requires ScopeValid(st, Scope(tenantId, contextId))
    requires i < |records| && !IsBlank(records[i].text)
    ensures var scope, after := Scope(tenantId, contextId), Append(st, tenantId, contextId, records).0;
      StoredAt(after.chunks, scope, Latest(st, scope) + 1 + Written(records[..i]), records[i])
  {
    var scope, kept := Scope(tenantId, contextId), NonBlank(records);
    var latest := Latest(st, scope);
    KeptInOrder(records, i);
    StoreChunksAdds(st.chunks, scope, latest, kept);
    assert Stored(scope, latest, kept, scope, latest + 1 + Written(records[..i]));
  }

  /** Nothing that was stored changes, and nothing else is added. */
  lemma AppendKeepsTheRest(st: ContextState, tenantId: string, contextId: string, records: Records, s: Scope, r: nat)
    requires !IsBlank(tenantId) && !IsBlank(contextId)
    requires ScopeValid(st, Scope(tenantId, contextId))
    ensures var scope, after := Scope(tenantId, contextId), Append(st, tenantId, contextId, records).0;
      && ((s, r) in st.chunks ==> (s, r) in after.chunks && after.chunks[(s, r)] == st.chunks[(s, r)])
      && ((s, r) in after.chunks ==>
            (s, r) in st.chunks || (s == scope && Latest(st, scope) < r <= Latest(st, scope) + Written(records)))
      && (s != scope ==> HeadVersions(after, s) == HeadVersions(st, s))
      && after.packs == st.packs
  {
    var scope, kept := Scope(tenantId, contextId), NonBlank(records);
    KeptCount(records);
    StoreChunksAdds(st.chunks, scope, Latest(st, scope), kept);
  }

  // ---------------------------------------------------------------- reading it back

  /** Over dense revisions a scan lists the chunks of its range one by one. */
  lemma {:induction false} ScanAt(chunks: map<(Scope, nat), StoredContextChunk>, scope: Scope, latest: nat, low: nat,
                                  high: nat, r: nat)
    requires ChunksValid(chunks, scope, latest) && 1 <= low <= r <= high <= latest
    ensures |Scan(chunks, scope, low, high)| == high + 1 - low
    ensures Scan(chunks, scope, low, high)[r - low] == chunks[(scope, r)]
    decreases high
  {
    DenseScan(chunks, scope, latest, low, high);
    DenseScan(chunks, scope, latest, low, high - 1);
    if r < high {
      ScanAt(chunks, scope, latest, low, high - 1, r);
    }
  }

  lemma ScannedInOrder(chunks: map<(Scope, nat), StoredContextChunk>, scope: Scope, low: nat, high: nat, r: nat,
                       record: ContextAppendRecord, place: nat, count: nat)
    returns (read: seq<StoredContextChunk>)
    requires ChunksValid(chunks, scope, high) && 1 <= low <= r <= high
    requires low + place == r && low + count == high + 1
    requires StoredAt(chunks, scope, r, record)
    ensures read == Scan(chunks, scope, low, high) && |read| == count && ReadAt(read, place, record)
  {
    read := Scan(chunks, scope, low, high);
    ScanAt(chunks, scope, high, low, high, r);
    assert r - low == place;
  }

  lemma AppendKeepsScope(st: ContextState, tenantId: string, contextId: string, records: Records)
    requires ScopeValid(st, Scope(tenantId, contextId))
    ensures ScopeValid(Append(st, tenantId, contextId, records).0, Scope(tenantId, contextId))
  {
    var kept := NonBlank(records);
    if kept != [] {
      AppendToScope(st, Scope(tenantId, contextId), kept);
    }
  }

  /** The revisions an append writes, and the one that record `i` gets. */
  lemma AppendRange(st: ContextState, tenantId: string, contextId: string, records: Records, i: nat)
    returns (first: nat, newest: nat, revision: nat)
    requires !IsBlank(tenantId) && !IsBlank(contextId)
    requires ScopeValid(st, Scope(tenantId, contextId))
    requires i < |records| && !IsBlank(records[i].text)
    ensures first == Latest(st, Scope(tenantId, contextId)) + 1
    ensures newest == Latest(Append(st, tenantId, contextId, records).0, Scope(tenantId, contextId))
    ensures first + Written(records) == newest + 1 && first + Written(records[..i]) == revision
    ensures first <= revision <= newest
    ensures ChunksValid(Append(st, tenantId, contextId, records).0.chunks, Scope(tenantId, contextId), newest)
    ensures StoredAt(Append(st, tenantId, contextId, records).0.chunks, Scope(tenantId, contextId), revision,
                     records[i])
  {
    var scope := Scope(tenantId, contextId);
    AppendStoresInOrder(st, tenantId, contextId, records, i);
    AppendGrowsByWritten(st, tenantId, contextId, records);
    AppendKeepsScope(st, tenantId, contextId, records);
    PlaceIsBelowCount(records, i);
    first := Latest(st, scope) + 1;
    newest := Latest(Append(st, tenantId, contextId, records).0, scope);
    revision := first + Written(records[..i]);
  }

  /** Reading the new revisions back gives the written records in the order they were given. */
  lemma AppendIsReadBack(st: ContextState, tenantId: string, contextId: string, records: Records, i: nat)
    returns (first: nat, newest: nat, read: seq<StoredContextChunk>)
    requires !IsBlank(tenantId) && !IsBlank(contextId)
    requires ScopeValid(st, Scope(tenantId, contextId))
    requires i < |records| && !IsBlank(records[i].text)
    ensures first == Latest(st, Scope(tenantId, contextId)) + 1
    ensures newest == Latest(Append(st, tenantId, contextId, records).0, Scope(tenantId, contextId))
    ensures read == Scan(Append(st, tenantId, contextId, records).0.chunks, Scope(tenantId, contextId), first, newest)
    ensures |read| == Written(records) && ReadAt(read, Written(records[..i]), records[i])
  {
    var revision;
    first, newest, revision := AppendRange(st, tenantId, contextId, records, i);
    read := ScannedInOrder(Append(st, tenantId, contextId, records).0.chunks, Scope(tenantId, contextId), first, newest,
                           revision, records[i], Written(records[..i]), Written(records));
  }
}
