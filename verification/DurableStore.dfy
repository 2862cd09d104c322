/** The in-memory backend of the durable store: flattened keys, prefix listing, validation. */
module DurableStore {
  import opened Wrappers
  import opened Sequences
  import opened RustText
  import opened TextOrder

  datatype DurableError = InvalidDurable(name: string)

  const MAX_COMPONENT_BYTES: nat := 160

  predicate IsComponentChar(c: char) {
    IsAsciiAlphanumeric(c) || c == '-' || c == '_'
  }

  /** `validate_component`: such a text is ASCII, so its bytes are its characters. */
  predicate IsComponent(value: string) {
    && 1 <= |value| <= MAX_COMPONENT_BYTES
    && forall i :: 0 <= i < |value| ==> IsComponentChar(value[i])
  }

  function ComponentError(namespace: string, id: string): Option<DurableError> {
    if !IsComponent(namespace) then Some(InvalidDurable("namespace"))
    else if !IsComponent(id) then Some(InvalidDurable("id"))
    else None
  }

  // ---------------------------------------------------------------- keys

  /** The hashes of the tenants that occur; SHA-256 is taken to keep them apart. */
  type TenantHashes = map<string, string>

  predicate NoColon(s: string) {
    ':' !in s
  }

  predicate HashesAreSound(hashes: TenantHashes) {
    && (forall t :: t in hashes ==> NoColon(hashes[t]))
    && (forall t, u :: t in hashes && u in hashes && hashes[t] == hashes[u] ==> t == u)
  }

  datatype Key = Key(namespace: string, tenantId: string, id: string)

  predicate ValidKey(hashes: TenantHashes, k: Key) {
    IsComponent(k.namespace) && IsComponent(k.id) && k.tenantId in hashes
  }

  function TenantPrefix(hashes: TenantHashes, namespace: string, tenantId: string): string
    requires tenantId in hashes
  {
    namespace + [':'] + (hashes[tenantId] + [':'])
  }

  function MemoryKey(hashes: TenantHashes, k: Key): string
    requires k.tenantId in hashes
  {
    TenantPrefix(hashes, k.namespace, k.tenantId) + k.id
  }

  lemma ComponentHasNoColon(value: string)
    requires IsComponent(value)
    ensures NoColon(value)
  {
  }

  lemma KeyShape(hashes: TenantHashes, k: Key)
    requires k.tenantId in hashes
    ensures MemoryKey(hashes, k) == k.namespace + [':'] + (hashes[k.tenantId] + [':'] + k.id)
  {
    var hash := hashes[k.tenantId];
    assert k.namespace + [':'] + (hash + [':']) + k.id == k.namespace + [':'] + (hash + [':'] + k.id);
  }

  /** Flattened keys are equal only for equal keys. */
  lemma MemoryKeyInjective(hashes: TenantHashes, j: Key, k: Key)
    requires HashesAreSound(hashes) && ValidKey(hashes, j) && ValidKey(hashes, k)
    ensures MemoryKey(hashes, j) == MemoryKey(hashes, k) <==> j == k
  {
    if MemoryKey(hashes, j) == MemoryKey(hashes, k) {
      KeyShape(hashes, j);
      KeyShape(hashes, k);
      ComponentHasNoColon(j.namespace);
      ComponentHasNoColon(k.namespace);
      FirstSplits(':', j.namespace, k.namespace, hashes[j.tenantId] + [':'] + j.id, hashes[k.tenantId] + [':'] + k.id);
      FirstSplits(':', hashes[j.tenantId], hashes[k.tenantId], j.id, k.id);
    }
  }

  /** Listing by the prefix of a tenant selects exactly the records of that tenant. */
  lemma TenantPrefixSelects(hashes: TenantHashes, namespace: string, tenantId: string, k: Key)
    requires HashesAreSound(hashes) && ValidKey(hashes, k) && IsComponent(namespace) && tenantId in hashes
    ensures StartsWith(MemoryKey(hashes, k), TenantPrefix(hashes, namespace, tenantId))
       <==> k.namespace == namespace && k.tenantId == tenantId
  {
    var prefix, whole := TenantPrefix(hashes, namespace, tenantId), MemoryKey(hashes, k);
    if k.namespace == namespace && k.tenantId == tenantId {
      DropPrefix(prefix, k.id);
    }
    if StartsWith(whole, prefix) {
      var rest := whole[|prefix|..];
      Split(whole, |prefix|);
      assert whole == namespace + [':'] + (hashes[tenantId] + [':'] + rest);
      KeyShape(hashes, k);
      ComponentHasNoColon(k.namespace);
      ComponentHasNoColon(namespace);
      FirstSplits(':', k.namespace, namespace, hashes[k.tenantId] + [':'] + k.id, hashes[tenantId] + [':'] + rest);
      FirstSplits(':', hashes[k.tenantId], hashes[tenantId], k.id, rest);
    }
  }

  /** Listing by the prefix of a namespace selects exactly the records of all its tenants. */
  lemma NamespacePrefixSelects(hashes: TenantHashes, namespace: string, k: Key)
    requires HashesAreSound(hashes) && ValidKey(hashes, k) && IsComponent(namespace)
    ensures StartsWith(MemoryKey(hashes, k), namespace + [':']) <==> k.namespace == namespace
  {
    var prefix, whole := namespace + [':'], MemoryKey(hashes, k);
    KeyShape(hashes, k);
    var behind := hashes[k.tenantId] + [':'] + k.id;
    if k.namespace == namespace {
      DropPrefix(prefix, behind);
    }
    if StartsWith(whole, prefix) {
      Split(whole, |prefix|);
      ComponentHasNoColon(k.namespace);
      ComponentHasNoColon(namespace);
      FirstSplits(':', k.namespace, namespace, behind, whole[|prefix|..]);
    }
  }

  // ---------------------------------------------------------------- order of listings

  function Prefixed(p: string, ids: set<string>): set<string> {
    set id | id in ids :: p + id
  }

  lemma PrefixedLeast(p: string, ids: set<string>, id: string)
    requires IsLeast(id, ids)
    ensures IsLeast(p + id, Prefixed(p, ids))
  {
    forall other | other in Prefixed(p, ids) ensures AtMost(p + id, other) {
      var o :| o in ids && other == p + o;
      PrefixKeepsOrder(p, id, o);
    }
  }

  /** Reading prefixed keys in order is reading what follows the prefix in order. */
  lemma {:induction false} PrefixedInOrder<V>(p: string, entries: map<string, V>, records: map<string, V>,
                                              ids: set<string>)
    requires ids <= records.Keys
    requires forall id :: id in ids ==> p + id in entries && entries[p + id] == records[id]
    ensures Prefixed(p, ids) <= entries.Keys
    ensures InOrder(entries, Prefixed(p, ids)) == InOrder(records, ids)
    decreases |ids|
  {
    if ids == {} {
      assert Prefixed(p, ids) == {};
    } else {
      LeastExists(ids);
      var id :| IsLeast(id, ids);
      PrefixedLeast(p, ids, id);
      InOrderStep(records, ids, id);
      InOrderStep(entries, Prefixed(p, ids), p + id);
      PrefixedWithout(p, ids, id);
      PrefixedInOrder(p, entries, records, ids - {id});
    }
  }

  lemma PrefixedWithout(p: string, ids: set<string>, id: string)
    requires id in ids
    ensures Prefixed(p, ids) - {p + id} == Prefixed(p, ids - {id})
  {
    forall other | other in ids && p + other == p + id ensures other == id {
      DropPrefix(p, other);
      DropPrefix(p, id);
    }
  }

  // ---------------------------------------------------------------- tables

  /** The records of one tenant in a namespace, by id. */
  ghost function TenantRecords<V>(records: map<Key, V>, namespace: string, tenantId: string): map<string, V> {
    map k | k in records.Keys && k.namespace == namespace && k.tenantId == tenantId :: k.id := records[k]
  }

  /** The entries are the records under their flattened keys, and nothing else. */
  ghost predicate Flattens<V>(hashes: TenantHashes, entries: map<string, V>, records: map<Key, V>) {
    && (forall k :: k in records ==>
          ValidKey(hashes, k) && MemoryKey(hashes, k) in entries && entries[MemoryKey(hashes, k)] == records[k])
    && (forall s :: s in entries ==> Recorded(hashes, records, s))
  }

  lemma KeysAreApart<V>(hashes: TenantHashes, entries: map<string, V>, records: map<Key, V>, k: Key)
    requires HashesAreSound(hashes) && Flattens(hashes, entries, records) && ValidKey(hashes, k)
    ensures forall j :: j in records ==> (MemoryKey(hashes, j) == MemoryKey(hashes, k) <==> j == k)
    ensures MemoryKey(hashes, k) in entries <==> k in records
  {
    forall j | j in records ensures MemoryKey(hashes, j) == MemoryKey(hashes, k) <==> j == k {
      MemoryKeyInjective(hashes, j, k);
    }
  }

  /** Whether an entry belongs to some record. */
  ghost predicate Recorded<V>(hashes: TenantHashes, records: map<Key, V>, s: string) {
    exists k :: k in records && ValidKey(hashes, k) && MemoryKey(hashes, k) == s
  }

  lemma PutFlattens<V>(hashes: TenantHashes, entries: map<string, V>, records: map<Key, V>, k: Key, value: V)
    requires HashesAreSound(hashes) && Flattens(hashes, entries, records) && ValidKey(hashes, k)
    ensures Flattens(hashes, entries[MemoryKey(hashes, k) := value], records[k := value])
  {
    KeysAreApart(hashes, entries, records, k);
    forall s | s in entries ensures Recorded(hashes, records[k := value], s) {
      var j :| j in records && ValidKey(hashes, j) && MemoryKey(hashes, j) == s;
      assert j in records[k := value];
    }
    assert k in records[k := value];
    assert Recorded(hashes, records[k := value], MemoryKey(hashes, k));
  }

  lemma DeleteFlattens<V>(hashes: TenantHashes, entries: map<string, V>, records: map<Key, V>, k: Key)
    requires HashesAreSound(hashes) && Flattens(hashes, entries, records) && ValidKey(hashes, k)
    ensures Flattens(hashes, entries - {MemoryKey(hashes, k)}, records - {k})
  {
    KeysAreApart(hashes, entries, records, k);
    forall s | s in entries && s != MemoryKey(hashes, k) ensures Recorded(hashes, records - {k}, s) {
      var j :| j in records && ValidKey(hashes, j) && MemoryKey(hashes, j) == s;
      assert j in records - {k};
    }
  }

  function Matching(keys: set<string>, prefix: string): set<string> {
    set s | s in keys && StartsWith(s, prefix)
  }

  lemma MatchingWithout(keys: set<string>, prefix: string, s: string)
    requires IsLeast(s, keys)
    ensures Matching(keys - {s}, prefix) == Matching(keys, prefix) - {s}
    ensures !StartsWith(s, prefix) ==> Matching(keys - {s}, prefix) == Matching(keys, prefix)
    ensures StartsWith(s, prefix) ==> IsLeast(s, Matching(keys, prefix))
  {
  }

  /** Reading the first key: it is taken when it has the prefix. */
  lemma MatchingInOrder<V>(entries: map<string, V>, keys: set<string>, prefix: string, s: string)
    requires keys <= entries.Keys && IsLeast(s, keys)
    ensures Matching(keys, prefix) <= entries.Keys && Matching(keys - {s}, prefix) <= entries.Keys
    ensures InOrder(entries, Matching(keys, prefix))
         == (if StartsWith(s, prefix) then [entries[s]] else []) + InOrder(entries, Matching(keys - {s}, prefix))
  {
    MatchingWithout(keys, prefix, s);
    if StartsWith(s, prefix) {
      InOrderStep(entries, Matching(keys, prefix), s);
    }
  }

  /** What is read, followed by what is still to be read, is everything. */
  ghost predicate Reading<V>(table: map<string, V>, values: seq<V>, rest: set<string>, prefix: string)
    requires rest <= table.Keys
  {
    values + InOrder(table, Matching(rest, prefix)) == InOrder(table, Matching(table.Keys, prefix))
  }

  lemma ReadNext<V>(table: map<string, V>, values: seq<V>, rest: set<string>, prefix: string, s: string)
    requires rest <= table.Keys && Reading(table, values, rest, prefix) && IsLeast(s, rest)
    ensures Reading(table, if StartsWith(s, prefix) then values + [table[s]] else values, rest - {s}, prefix)
  {
    MatchingInOrder(table, rest, prefix, s);
    var more := InOrder(table, Matching(rest - {s}, prefix));
    Assoc(values, [table[s]], more);
    assert [] + more == more;
  }

  class Table<V> {
    const hashes: TenantHashes
    var entries: map<string, V>
    ghost var records: map<Key, V>

    /** The entries are the records under their flattened keys, and nothing else. */
    ghost predicate Valid()
      reads this
    {
      HashesAreSound(hashes) && Flattens(hashes, entries, records)
    }

    constructor (hashes: TenantHashes)
      requires HashesAreSound(hashes)
      ensures Valid() && records == map[] && this.hashes == hashes
    {
      this.hashes := hashes;
      entries, records := map[], map[];
    }

    method Put(k: Key, value: V) returns (error: Option<DurableError>)
      requires Valid() && k.tenantId in hashes
      modifies this
      ensures Valid()
      ensures error == ComponentError(k.namespace, k.id)
      ensures records == if error == None then old(records)[k := value] else old(records)
    {
      error := ComponentError(k.namespace, k.id);
      if error.Some? {
        return;
      }
      PutFlattens(hashes, entries, records, k, value);
      entries := entries[MemoryKey(hashes, k) := value];
      records := records[k := value];
    }

    method Get(k: Key) returns (r: Result<Option<V>, DurableError>)
      requires Valid() && k.tenantId in hashes
      ensures var error := ComponentError(k.namespace, k.id);
        r == if error.Some? then Failure(error.value) else Success(if k in records then Some(records[k]) else None)
    {
      var error := ComponentError(k.namespace, k.id);
      if error.Some? {
        return Failure(error.value);
      }
      var s := MemoryKey(hashes, k);
      KeysAreApart(hashes, entries, records, k);
      if s in entries {
        return Success(Some(entries[s]));
      }
      return Success(None);
    }

    method Delete(k: Key) returns (r: Result<bool, DurableError>)
      requires Valid() && k.tenantId in hashes
      modifies this
      ensures Valid()
      ensures var error := ComponentError(k.namespace, k.id);
        r == if error.Some? then Failure(error.value) else Success(k in old(records))
      ensures records == if r.Success? then old(records) - {k} else old(records)
    {
      var error := ComponentError(k.namespace, k.id);
      if error.Some? {
        return Failure(error.value);
      }
      KeysAreApart(hashes, entries, records, k);
      DeleteFlattens(hashes, entries, records, k);
      var s := MemoryKey(hashes, k);
      var found := s in entries;
      entries := entries - {s};
      records := records - {k};
      r := Success(found);
    }

    /** The keys with a prefix, in key order. */
    method ReadPrefix(prefix: string) returns (values: seq<V>)
      ensures values == InOrder(entries, Matching(entries.Keys, prefix))
    {
      var table, rest := entries, entries.Keys;
      values := [];
      while rest != {}
        invariant rest <= table.Keys
        invariant Reading(table, values, rest, prefix)
        decreases |rest|
      {
        var s := FindLeast(rest);
        ReadNext(table, values, rest, prefix, s);
        if StartsWith(s, prefix) {
          values := values + [table[s]];
        }
        rest := rest - {s};
      }
      assert Matching(rest, prefix) == {};
    }

    method List(namespace: string, tenantId: string) returns (r: Result<seq<V>, DurableError>)
      requires Valid() && tenantId in hashes
      ensures !IsComponent(namespace) ==> r == Failure(InvalidDurable("namespace"))
      ensures IsComponent(namespace) ==>
        var own := TenantRecords(records, namespace, tenantId);
        r == Success(InOrder(own, own.Keys))
    {
      if !IsComponent(namespace) {
        return Failure(InvalidDurable("namespace"));
      }
      var prefix := TenantPrefix(hashes, namespace, tenantId);
      var values := ReadPrefix(prefix);
      TenantKeys(namespace, tenantId);
      r := Success(values);
    }

    /** The keys behind the prefix of a tenant are its ids. */
    lemma TenantKeys(namespace: string, tenantId: string)
      requires Valid() && tenantId in hashes && IsComponent(namespace)
      ensures var own := TenantRecords(records, namespace, tenantId);
        var keys := Matching(entries.Keys, TenantPrefix(hashes, namespace, tenantId));
        InOrder(entries, keys) == InOrder(own, own.Keys)
    {
      var own, prefix := TenantRecords(records, namespace, tenantId), TenantPrefix(hashes, namespace, tenantId);
      var keys := Matching(entries.Keys, prefix);
      forall id | id in own ensures prefix + id in entries && StartsWith(prefix + id, prefix)
             && entries[prefix + id] == own[id] {
        var k := Key(namespace, tenantId, id);
        assert k in records && MemoryKey(hashes, k) == prefix + id;
        DropPrefix(prefix, id);
      }
      forall s | s in keys ensures s in Prefixed(prefix, own.Keys) {
        assert Recorded(hashes, records, s);
        var k :| k in records && ValidKey(hashes, k) && MemoryKey(hashes, k) == s;
        TenantPrefixSelects(hashes, namespace, tenantId, k);
        assert k.id in own && s == prefix + k.id;
      }
      assert keys == Prefixed(prefix, own.Keys);
      PrefixedInOrder(prefix, entries, own, own.Keys);
    }

    method ListAll(namespace: string) returns (r: Result<seq<V>, DurableError>)
      requires Valid()
      ensures !IsComponent(namespace) ==> r == Failure(InvalidDurable("namespace"))
      ensures IsComponent(namespace) ==>
        exists order: seq<Key> ::
          IsListing(hashes, order, NamespaceRecords(namespace)) && r == Success(ValuesAt(records, order))
    {
      if !IsComponent(namespace) {
        return Failure(InvalidDurable("namespace"));
      }
      var values := ReadPrefix(namespace + [':']);
      NamespaceKeysAreRecords(namespace);
      ghost var order := ListingExists(hashes, entries, records, NamespaceRecords(namespace), NamespaceKeys(namespace));
      r := Success(values);
    }

    ghost function NamespaceKeys(namespace: string): set<string>
      reads this
    {
      Matching(entries.Keys, namespace + [':'])
    }

    ghost function NamespaceRecords(namespace: string): set<Key>
      reads this
    {
      set k | k in records && k.namespace == namespace
    }

    /** The keys behind the prefix of a namespace are those of its records. */
    lemma NamespaceKeysAreRecords(namespace: string)
      requires Valid() && IsComponent(namespace)
      ensures AreKeysOf(hashes, NamespaceKeys(namespace), NamespaceRecords(namespace))
    {
      forall k | k in records ensures StartsWith(MemoryKey(hashes, k), namespace + [':'])
        <==> k.namespace == namespace {
        NamespacePrefixSelects(hashes, namespace, k);
      }
      forall s | s in NamespaceKeys(namespace)
        ensures exists k :: k in NamespaceRecords(namespace) && ValidKey(hashes, k) && MemoryKey(hashes, k) == s
      {
        assert Recorded(hashes, records, s);
        var k :| k in records && ValidKey(hashes, k) && MemoryKey(hashes, k) == s;
        assert k in NamespaceRecords(namespace);
      }
    }
  }

  /** The values of the records with these keys, in turn. */
  ghost function ValuesAt<V>(records: map<Key, V>, order: seq<Key>): seq<V>
    requires forall i :: 0 <= i < |order| ==> order[i] in records
  {
    if order == [] then [] else [records[order[0]]] + ValuesAt(records, order[1..])
  }

  /** Each of the keys once, in the order of the flattened keys. */
  ghost predicate IsListing(hashes: TenantHashes, order: seq<Key>, owned: set<Key>) {
    && (forall i :: 0 <= i < |order| ==> order[i] in owned && ValidKey(hashes, order[i]))
    && (forall k :: k in owned ==> k in order)
    && (forall i, j :: 0 <= i < j < |order| ==>
          order[i] != order[j] && AtMost(MemoryKey(hashes, order[i]), MemoryKey(hashes, order[j])))
  }

  /** The flattened keys of a set of keys. */
  ghost predicate AreKeysOf(hashes: TenantHashes, keys: set<string>, owned: set<Key>) {
    && (forall k :: k in owned ==> ValidKey(hashes, k) && MemoryKey(hashes, k) in keys)
    && (forall s :: s in keys ==> exists k :: k in owned && ValidKey(hashes, k) && MemoryKey(hashes, k) == s)
  }

  lemma KeysWithout(hashes: TenantHashes, keys: set<string>, owned: set<Key>, k: Key)
    requires HashesAreSound(hashes) && AreKeysOf(hashes, keys, owned) && k in owned
    ensures AreKeysOf(hashes, keys - {MemoryKey(hashes, k)}, owned - {k})
  {
    forall j | j in owned ensures MemoryKey(hashes, j) == MemoryKey(hashes, k) <==> j == k {
      MemoryKeyInjective(hashes, j, k);
    }
  }

  lemma ListingCons(hashes: TenantHashes, keys: set<string>, owned: set<Key>, k: Key, rest: seq<Key>)
    requires AreKeysOf(hashes, keys, owned) && k in owned && IsLeast(MemoryKey(hashes, k), keys)
    requires IsListing(hashes, rest, owned - {k})
    ensures IsListing(hashes, [k] + rest, owned)
  {
    var order := [k] + rest;
    assert order[1..] == rest;
    forall j | j in owned ensures j in order {
      if j != k {
        assert j in rest;
      }
    }
    forall i | 0 <= i < |order| ensures order[i] in owned && ValidKey(hashes, order[i]) {
      assert i > 0 ==> order[i] == rest[i - 1];
    }
    forall i, j | 0 <= i < j < |order|
      ensures order[i] != order[j] && AtMost(MemoryKey(hashes, order[i]), MemoryKey(hashes, order[j]))
    {
      assert order[j] == rest[j - 1];
      assert i > 0 ==> order[i] == rest[i - 1];
    }
  }

  /** Reading flattened keys in order is reading the records they belong to, each once. */
  lemma {:induction false} ListingExists<V>(hashes: TenantHashes, entries: map<string, V>, records: map<Key, V>,
                                            owned: set<Key>, keys: set<string>)
    returns (order: seq<Key>)
    requires HashesAreSound(hashes) && Flattens(hashes, entries, records)
    requires owned <= records.Keys && AreKeysOf(hashes, keys, owned)
    ensures keys <= entries.Keys && IsListing(hashes, order, owned)
    ensures InOrder(entries, keys) == ValuesAt(records, order)
    decreases |keys|
  {
    if keys == {} {
      order := [];
    } else {
      LeastExists(keys);
      var s :| IsLeast(s, keys);
      var k :| k in owned && ValidKey(hashes, k) && MemoryKey(hashes, k) == s;
      KeysWithout(hashes, keys, owned, k);
      var rest := ListingExists(hashes, entries, records, owned - {k}, keys - {s});
      ListingCons(hashes, keys, owned, k, rest);
      order := [k] + rest;
      assert order[1..] == rest;
      InOrderStep(entries, keys, s);
    }
  }
}
