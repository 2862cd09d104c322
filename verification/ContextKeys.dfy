/** The flattened keys of the context store and the range scan over the chunk keys. */
module ContextKeys {
  import opened Wrappers
  import opened Sequences
  import opened RustText
  import opened Utf8
  import opened TextOrder
  import Decimal

  // ---------------------------------------------------------------- components

  function HexDigit(d: nat): (c: char)
    requires d < 16
    ensures '0' <= c <= '9' || 'a' <= c <= 'f'
  {
    if d < 10 then (48 + d) as char else (87 + d) as char
  }

  function HexValue(c: char): nat {
    if '0' <= c <= '9' then c as nat - 48 else if 'a' <= c <= 'f' then c as nat - 87 else 0
  }

  /** `hex::encode` */
  function Hex(bytes: seq<byte>): string {
    if bytes == [] then [] else [HexDigit(bytes[0] / 16), HexDigit(bytes[0] % 16)] + Hex(bytes[1..])
  }

  function Unhex(s: string): seq<byte>
    requires |s| % 2 == 0
  {
    if s == [] then [] else [(16 * HexValue(s[0]) + HexValue(s[1])) % 256] + Unhex(s[2..])
  }

  lemma {:induction false} UnhexOfHex(bytes: seq<byte>)
    ensures |Hex(bytes)| == 2 * |bytes| && Unhex(Hex(bytes)) == bytes
    ensures '/' !in Hex(bytes)
  {
    if bytes != [] {
      UnhexOfHex(bytes[1..]);
      var b := bytes[0];
      assert HexValue(HexDigit(b / 16)) == b / 16 && HexValue(HexDigit(b % 16)) == b % 16;
      DropPrefix([HexDigit(b / 16), HexDigit(b % 16)], Hex(bytes[1..]));
      Cons(bytes);
    }
  }

  function EncodeComponent(value: string): string {
    Hex(Encode(value))
  }

  lemma ComponentsDiffer(a: string, b: string)
    ensures EncodeComponent(a) == EncodeComponent(b) <==> a == b
    ensures '/' !in EncodeComponent(a)
  {
    UnhexOfHex(Encode(a));
    UnhexOfHex(Encode(b));
    DecodeOfEncoded(a);
    DecodeOfEncoded(b);
  }

  // ---------------------------------------------------------------- keys

  datatype StoreKey =
    | HeadKey(tenantId: string, contextId: string)
    | ChunkKey(tenantId: string, contextId: string, revision: nat)
    | PackKey(tenantId: string, contextId: string, policyHash: string)
    | JsonKey(namespace: string, tenantId: string, key: string)

  const REVISION_DIGITS: nat := 20

  /** `{first}/{second}/{rest}` behind the name of a family of keys. */
  function Path(family: string, first: string, second: string, rest: string): string {
    family + ['/'] + (EncodeComponent(first) + ['/'] + (EncodeComponent(second) + ['/'] + rest))
  }

  /** What a key of the context family has behind its tenant and its context. */
  function Leaf(k: StoreKey): string {
    match k
    case HeadKey(_, _) => "head"
    case ChunkKey(_, _, revision) => "chunk/" + Decimal.ZeroPadded(revision, REVISION_DIGITS)
    case PackKey(_, _, policyHash) => "pack/" + policyHash
    case JsonKey(_, _, key) => EncodeComponent(key)
  }

  function Flatten(k: StoreKey): string {
    if k.JsonKey? then Path("json", k.namespace, k.tenantId, Leaf(k))
    else Path("ctx", k.tenantId, k.contextId, Leaf(k))
  }

  function ChunkPrefix(tenantId: string, contextId: string): string {
    Path("ctx", tenantId, contextId, "chunk/")
  }

  lemma PathsDiffer(f: string, a: string, b: string, x: string, g: string, c: string, d: string, y: string)
    requires '/' !in f && '/' !in g
    ensures Path(f, a, b, x) == Path(g, c, d, y) <==> f == g && a == c && b == d && x == y
  {
    if Path(f, a, b, x) == Path(g, c, d, y) {
      ComponentsDiffer(a, c);
      ComponentsDiffer(b, d);
      ComponentsDiffer(c, a);
      ComponentsDiffer(d, b);
      FirstSplits('/', f, g, EncodeComponent(a) + ['/'] + (EncodeComponent(b) + ['/'] + x),
                  EncodeComponent(c) + ['/'] + (EncodeComponent(d) + ['/'] + y));
      FirstSplits('/', EncodeComponent(a), EncodeComponent(c), EncodeComponent(b) + ['/'] + x,
                  EncodeComponent(d) + ['/'] + y);
      FirstSplits('/', EncodeComponent(b), EncodeComponent(d), x, y);
    }
  }

  lemma LeavesDiffer(j: StoreKey, k: StoreKey)
    requires !j.JsonKey? && !k.JsonKey? && Leaf(j) == Leaf(k)
    ensures j.HeadKey? == k.HeadKey? && j.ChunkKey? == k.ChunkKey?
    ensures j.ChunkKey? ==> j.revision == k.revision
    ensures j.PackKey? ==> j.policyHash == k.policyHash
  {
    assert Leaf(j)[0] == if j.HeadKey? then 'h' else if j.ChunkKey? then 'c' else 'p';
    assert Leaf(k)[0] == if k.HeadKey? then 'h' else if k.ChunkKey? then 'c' else 'p';
    if j.ChunkKey? {
      DropPrefix("chunk/", Decimal.ZeroPadded(j.revision, REVISION_DIGITS));
      DropPrefix("chunk/", Decimal.ZeroPadded(k.revision, REVISION_DIGITS));
      Decimal.ParseOfZeroPadded(j.revision, REVISION_DIGITS);
      Decimal.ParseOfZeroPadded(k.revision, REVISION_DIGITS);
    } else if j.PackKey? {
      DropPrefix("pack/", j.policyHash);
      DropPrefix("pack/", k.policyHash);
    }
  }

  /** The families of keys are disjoint, and within each of them different keys stay different. */
  lemma FlattenInjective(j: StoreKey, k: StoreKey)
    ensures Flatten(j) == Flatten(k) <==> j == k
  {
    assert Flatten(j)[0] == if j.JsonKey? then 'j' else 'c';
    assert Flatten(k)[0] == if k.JsonKey? then 'j' else 'c';
    if Flatten(j) == Flatten(k) {
      if j.JsonKey? && k.JsonKey? {
        PathsDiffer("json", j.namespace, j.tenantId, Leaf(j), "json", k.namespace, k.tenantId, Leaf(k));
        ComponentsDiffer(j.key, k.key);
      } else if !j.JsonKey? && !k.JsonKey? {
        PathsDiffer("ctx", j.tenantId, j.contextId, Leaf(j), "ctx", k.tenantId, k.contextId, Leaf(k));
        LeavesDiffer(j, k);
      }
    }
  }

  // ---------------------------------------------------------------- the range scan

  /** The half-open range from a prefix to the prefix with a byte 0xff behind it. */
  predicate InRange(key: string, prefix: string) {
    AtMost(prefix, key) && key != prefix + ['\U{FF}'] && AtMost(key, prefix + ['\U{FF}'])
  }

  predicate BelowFF(s: string) {
    forall i :: 0 <= i < |s| ==> s[i] < '\U{FF}'
  }

  /** For keys that contain no byte 0xff the range is the set of keys with the prefix. */
  lemma {:induction false} RangeIsPrefix(key: string, prefix: string)
    requires BelowFF(key)
    ensures InRange(key, prefix) <==> StartsWith(key, prefix)
  {
    if prefix == [] {
      assert prefix + ['\U{FF}'] == ['\U{FF}'];
    } else if key != [] {
      assert (prefix + ['\U{FF}'])[1..] == prefix[1..] + ['\U{FF}'];
      RangeIsPrefix(key[1..], prefix[1..]);
      Cons(key);
      Cons(prefix + ['\U{FF}']);
      StartsWithStep(key, prefix);
    }
  }

  lemma StartsWithStep(key: string, prefix: string)
    requires key != [] && prefix != []
    ensures StartsWith(key, prefix) <==> key[0] == prefix[0] && StartsWith(key[1..], prefix[1..])
  {
    if key[0] == prefix[0] && StartsWith(key[1..], prefix[1..]) {
      assert key[..|prefix|] == [key[0]] + key[1..][..|prefix| - 1];
      Cons(prefix);
    }
    if StartsWith(key, prefix) {
      assert key[1..][..|prefix| - 1] == key[..|prefix|][1..];
    }
  }

  /** Policy hashes are hexadecimal, so no stored key contains a byte 0xff. */
  predicate Stored(k: StoreKey) {
    BelowFF(Flatten(k))
  }

  /**
   The scan from a chunk prefix visits exactly the chunk keys of that tenant and that context,
   and no head, pack or JSON key.
   */
  lemma ScanIsExact(tenantId: string, contextId: string, k: StoreKey)
    requires Stored(k)
    ensures InRange(Flatten(k), ChunkPrefix(tenantId, contextId))
       <==> k.ChunkKey? && k.tenantId == tenantId && k.contextId == contextId
  {
    var prefix, whole := ChunkPrefix(tenantId, contextId), Flatten(k);
    RangeIsPrefix(whole, prefix);
    assert whole[0] == if k.JsonKey? then 'j' else 'c';
    assert StartsWith(whole, prefix) ==> whole[0] == whole[..|prefix|][0] == 'c';
    if !k.JsonKey? {
      PrefixOfContextKey(tenantId, contextId, k);
    }
  }

  lemma PrefixOfContextKey(tenantId: string, contextId: string, k: StoreKey)
    requires !k.JsonKey?
    ensures StartsWith(Flatten(k), ChunkPrefix(tenantId, contextId))
       <==> k.ChunkKey? && k.tenantId == tenantId && k.contextId == contextId
  {
    var prefix, whole := ChunkPrefix(tenantId, contextId), Flatten(k);
    if StartsWith(whole, prefix) {
      var rest := whole[|prefix|..];
      Split(whole, |prefix|);
      PathTail(tenantId, contextId, "chunk/", rest);
      PathsDiffer("ctx", k.tenantId, k.contextId, Leaf(k), "ctx", tenantId, contextId, "chunk/" + rest);
      assert Leaf(k)[0] == 'c';
    }
    if k.ChunkKey? && k.tenantId == tenantId && k.contextId == contextId {
      PathTail(tenantId, contextId, "chunk/", Decimal.ZeroPadded(k.revision, REVISION_DIGITS));
      DropPrefix(prefix, Decimal.ZeroPadded(k.revision, REVISION_DIGITS));
    }
  }

  lemma PathTail(a: string, b: string, x: string, y: string)
    ensures Path("ctx", a, b, x) + y == Path("ctx", a, b, x + y)
  {
  }

  // ---------------------------------------------------------------- numeric order

  lemma {:induction false} AtMostSnoc(a: string, b: string, x: char, y: char)
    requires |a| == |b|
    ensures AtMost(a + [x], b + [y]) <==> (a != b && AtMost(a, b)) || (a == b && x <= y)
  {
    if a != [] {
      assert (a + [x])[1..] == a[1..] + [x] && (b + [y])[1..] == b[1..] + [y];
      AtMostSnoc(a[1..], b[1..], x, y);
      Cons(a);
      Cons(b);
    } else {
      assert [x][1..] == [];
    }
  }

  /** Zero-padded numbers are ordered like the numbers. */
  lemma {:induction false} PaddedOrder(m: nat, n: nat, width: nat)
    requires 1 <= width && m < Decimal.Pow10(width) && n < Decimal.Pow10(width)
    ensures AtMost(Decimal.ZeroPadded(m, width), Decimal.ZeroPadded(n, width)) <==> m <= n
  {
    if width == 1 {
      OneDigit(m);
      OneDigit(n);
      OneCharOrder(Decimal.Digit(m), Decimal.Digit(n));
    } else {
      PaddedOrder(m / 10, n / 10, width - 1);
      PaddedDiffer(m / 10, n / 10, width - 1);
      Decimal.ZeroPaddedStep(m, width - 1);
      Decimal.ZeroPaddedStep(n, width - 1);
      AtMostSnoc(Decimal.ZeroPadded(m / 10, width - 1), Decimal.ZeroPadded(n / 10, width - 1),
                 Decimal.Digit(m % 10), Decimal.Digit(n % 10));
      DigitwiseOrder(m, n);
    }
  }

  lemma OneDigit(n: nat)
    requires n < Decimal.Pow10(1)
    ensures n < 10 && Decimal.ZeroPadded(n, 1) == [Decimal.Digit(n)]
  {
    assert Decimal.Pow10(1) == 10;
  }

  lemma OneCharOrder(x: char, y: char)
    ensures AtMost([x], [y]) <==> x <= y
  {
    assert [x][1..] == [];
  }

  lemma PaddedDiffer(m: nat, n: nat, width: nat)
    requires 1 <= width && m < Decimal.Pow10(width) && n < Decimal.Pow10(width)
    ensures |Decimal.ZeroPadded(m, width)| == |Decimal.ZeroPadded(n, width)|
    ensures Decimal.ZeroPadded(m, width) == Decimal.ZeroPadded(n, width) <==> m == n
  {
    Decimal.ZeroPaddedWidth(m, width);
    Decimal.ZeroPaddedWidth(n, width);
    Decimal.ParseOfZeroPadded(m, width);
    Decimal.ParseOfZeroPadded(n, width);
  }

  lemma DigitwiseOrder(m: nat, n: nat)
    ensures m <= n <==> m / 10 < n / 10 || (m / 10 == n / 10 && m % 10 <= n % 10)
    ensures Decimal.Digit(m % 10) <= Decimal.Digit(n % 10) <==> m % 10 <= n % 10
  {
  }

  lemma U64FitsTwentyDigits()
    ensures U64_MAX < Decimal.Pow10(REVISION_DIGITS)
  {
    assert Decimal.Pow10(5) == 100_000;
    Pow10Sum(5, 5);
    Pow10Sum(10, 10);
  }

  lemma {:induction false} Pow10Sum(a: nat, b: nat)
    ensures Decimal.Pow10(a + b) == Decimal.Pow10(a) * Decimal.Pow10(b)
  {
    if a > 0 {
      Pow10Sum(a - 1, b);
    }
  }

  /** The scan meets the chunks of a context in revision order. */
  lemma ChunkKeysAreInRevisionOrder(tenantId: string, contextId: string, m: nat, n: nat)
    requires m <= U64_MAX && n <= U64_MAX
    ensures AtMost(Flatten(ChunkKey(tenantId, contextId, m)), Flatten(ChunkKey(tenantId, contextId, n))) <==> m <= n
  {
    U64FitsTwentyDigits();
    PaddedOrder(m, n, REVISION_DIGITS);
    var front := ChunkPrefix(tenantId, contextId);
    PathTail(tenantId, contextId, "chunk/", Decimal.ZeroPadded(m, REVISION_DIGITS));
    PathTail(tenantId, contextId, "chunk/", Decimal.ZeroPadded(n, REVISION_DIGITS));
    PrefixKeepsOrder(front, Decimal.ZeroPadded(m, REVISION_DIGITS), Decimal.ZeroPadded(n, REVISION_DIGITS));
  }
}
