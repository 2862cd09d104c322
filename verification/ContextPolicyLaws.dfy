/** When the byte layout of the cache key tells two policies apart. */
module ContextPolicyLaws {
  import opened Wrappers
  import opened Sequences
  import opened Utf8
  import opened ContextPolicy

  // ---------------------------------------------------------------- the bytes of the budgets

  /** `usize::from_be_bytes`, generalised to any width. */
  function Value(bytes: seq<byte>): nat {
    if bytes == [] then 0 else Value(bytes[..|bytes| - 1]) * 0x100 + bytes[|bytes| - 1]
  }

  lemma {:induction false} BigEndianOfValue(bytes: seq<byte>)
    ensures BigEndian(Value(bytes), |bytes|) == bytes
  {
    if bytes != [] {
      var front, low := bytes[..|bytes| - 1], bytes[|bytes| - 1];
      BigEndianOfValue(front);
      BigEndianStep(Value(front), low, |front|, |bytes|);
      Snoc(bytes);
    }
  }

  lemma BigEndianStep(high: nat, low: byte, width: nat, next: nat)
    requires next == width + 1
    ensures BigEndian(high * 0x100 + low, next) == BigEndian(high, width) + [low]
  {
    assert (high * 0x100 + low) / 0x100 == high && (high * 0x100 + low) % 0x100 == low;
  }

  function Pow256(width: nat): nat {
    if width == 0 then 1 else 0x100 * Pow256(width - 1)
  }

  lemma {:induction false} ValueOfBigEndian(n: nat, width: nat)
    requires n < Pow256(width)
    ensures Value(BigEndian(n, width)) == n
  {
    if width > 0 {
      ValueOfBigEndian(n / 0x100, width - 1);
      DropPrefix(BigEndian(n / 0x100, width - 1), [n % 0x100]);
    }
  }

  lemma EightBytes()
    ensures 0x100_0000 <= Pow256(8)
  {
    assert Pow256(8) == 0x100 * Pow256(7) && Pow256(7) == 0x100 * Pow256(6);
    assert Pow256(6) == 0x100 * Pow256(5) && Pow256(5) == 0x100 * Pow256(4);
    assert Pow256(4) == 0x100 * Pow256(3) && Pow256(3) == 0x100 * Pow256(2);
  }

  lemma FieldsOfBudgets(o: ContextAssemblyOptions)
    ensures Budgets(o)[..8] == BigEndian(o.maxContextBytes, 8)
    ensures Budgets(o)[8..16] == BigEndian(o.maxChunks, 8)
    ensures Budgets(o)[16..] == BigEndian(o.recentTailChunks, 8)
  {
  }

  /** The budgets can be read back from their bytes. */
  lemma BudgetsReadBack(o: ContextAssemblyOptions)
    requires o.InRange()
    ensures Value(Budgets(o)[..8]) == o.maxContextBytes
    ensures Value(Budgets(o)[8..16]) == o.maxChunks
    ensures Value(Budgets(o)[16..]) == o.recentTailChunks
  {
    EightBytes();
    FieldsOfBudgets(o);
    ValueOfBigEndian(o.maxContextBytes, 8);
    ValueOfBigEndian(o.maxChunks, 8);
    ValueOfBigEndian(o.recentTailChunks, 8);
  }

  /** Twenty-four bytes are the budgets that they read as. */
  lemma BudgetsOfBytes(bytes: seq<byte>, o: ContextAssemblyOptions)
    requires |bytes| == 24 && o.maxContextBytes == Value(bytes[..8])
    requires o.maxChunks == Value(bytes[8..16]) && o.recentTailChunks == Value(bytes[16..])
    ensures Budgets(o) == bytes
  {
    BigEndianOfValue(bytes[..8]);
    BigEndianOfValue(bytes[8..16]);
    BigEndianOfValue(bytes[16..]);
    assert bytes == bytes[..8] + bytes[8..16] + bytes[16..];
  }

  lemma {:induction false} ZeroBigEndian(width: nat)
    ensures forall i :: 0 <= i < width ==> BigEndian(0, width)[i] == 0
  {
    if width > 0 {
      ZeroBigEndian(width - 1);
    }
  }

  lemma SmallBigEndian(n: nat)
    requires n < 0x100_0000
    ensures var bytes := BigEndian(n, 8);
      && (forall i :: 0 <= i < 5 ==> bytes[i] == 0)
      && bytes[5] == n / 0x10000 && bytes[6] == n / 0x100 % 0x100 && bytes[7] == n % 0x100
  {
    var n1, n2 := n / 0x100, n / 0x100 / 0x100;
    assert n2 == n / 0x10000 && n2 / 0x100 == 0 && n2 % 0x100 == n2;
    ZeroBigEndian(5);
    assert BigEndian(n2, 6) == BigEndian(0, 5) + [n2];
    assert BigEndian(n1, 7) == BigEndian(n2, 6) + [n1 % 0x100];
  }

  lemma TinyBigEndian(n: nat)
    requires n < 0x100
    ensures (forall i :: 0 <= i < 7 ==> BigEndian(n, 8)[i] == 0) && BigEndian(n, 8)[7] == n
  {
    ZeroBigEndian(7);
    assert n / 0x100 == 0;
  }

  /** Where the bytes of budgets in range can be other than zero. */
  predicate BudgetShaped(bytes: seq<byte>) {
    && |bytes| == 24
    && (forall i :: 0 <= i < 24 && i !in {5, 6, 7, 15, 23} ==> bytes[i] == 0)
    && bytes[5] <= 0x10 && 1 <= bytes[15] <= 128 && bytes[23] <= bytes[15]
  }

  lemma BudgetsAreShaped(o: ContextAssemblyOptions)
    requires o.InRange()
    ensures BudgetShaped(Budgets(o))
    ensures Budgets(o)[7] == o.maxContextBytes % 0x100 && Budgets(o)[15] == o.maxChunks
            && Budgets(o)[23] == o.recentTailChunks
  {
    SmallBigEndian(o.maxContextBytes);
    TinyBigEndian(o.maxChunks);
    TinyBigEndian(o.recentTailChunks);
  }

  // ---------------------------------------------------------------- namespaces that run into the budgets

  function Zeros(count: nat): (bytes: seq<byte>)
    ensures |bytes| == count && forall i :: 0 <= i < count ==> bytes[i] == 0
  {
    seq(count, _ => 0)
  }

  function Padded(rest: seq<byte>): (bytes: seq<byte>)
    ensures |bytes| == 24
  {
    (rest + Zeros(24))[..24]
  }

  /**
   What follows a U+0000 in a namespace reads as budgets in range: all of them from sixteen bytes
   on, and just the number of bytes when there are seven to nine.
   */
  predicate ReadsAsBudgets(rest: seq<byte>) {
    var p := Padded(rest);
    && 1 <= Value(p[..8]) <= DEFAULT_MAX_CONTEXT_BYTES
    && (|| (7 <= |rest| <= 9 && Value(p[8..16]) == 0)
        || (|rest| >= 16 && Value(p[16..]) <= Value(p[8..16]) && 1 <= Value(p[8..16]) <= DEFAULT_MAX_CHUNKS))
  }

  /** A namespace continues another with U+0000 and bytes that read as budgets. */
  predicate Continues(x: string, y: string) {
    && |x| < |y| && y[..|x|] == x && y[|x|] == '\0'
    && ReadsAsBudgets(Encode(y[|x| + 1..]))
  }

  lemma {:induction false} ValueOfZeros(bytes: seq<byte>)
    requires forall i :: 0 <= i < |bytes| ==> bytes[i] == 0
    ensures Value(bytes) == 0
  {
    if bytes != [] {
      ValueOfZeros(bytes[..|bytes| - 1]);
    }
  }

  /** The first twenty-four bytes of two equal layouts, behind the shorter namespace. */
  ghost predicate Overlap(rest: seq<byte>, a: seq<byte>, b: seq<byte>) {
    && BudgetShaped(a) && BudgetShaped(b)
    && forall i :: 0 <= i < 24 ==>
         a[i] == if i < |rest| then rest[i] else if i == |rest| then 0 else b[i - |rest| - 1]
  }

  /** A short rest must put the chunk limit of one policy on a byte of the other's byte limit. */
  lemma ShortOverlap(rest: seq<byte>, a: seq<byte>, b: seq<byte>)
    requires Overlap(rest, a, b) && |rest| < 16
    ensures 7 <= |rest| <= 9
    ensures Padded(rest)[..8] == a[..8]
    ensures forall i :: 8 <= i < 24 ==> Padded(rest)[i] == 0
  {
    assert a[15] >= 1;
    assert |rest| < 15 ==> a[15] == b[14 - |rest|];
  }

  lemma LongOverlap(rest: seq<byte>, a: seq<byte>, b: seq<byte>)
    requires Overlap(rest, a, b) && |rest| >= 16
    ensures Padded(rest)[..16] == a[..16]
    ensures Padded(rest)[16..] == if |rest| < 24 then Zeros(8) else a[16..]
  {
  }

  lemma OverlapReads(rest: seq<byte>, a: ContextAssemblyOptions, b: ContextAssemblyOptions)
    requires a.InRange() && b.InRange() && Overlap(rest, Budgets(a), Budgets(b))
    ensures ReadsAsBudgets(rest)
  {
    var p, bytes := Padded(rest), Budgets(a);
    BudgetsReadBack(a);
    if |rest| < 16 {
      ShortOverlap(rest, bytes, Budgets(b));
      ValueOfZeros(p[8..16]);
    } else {
      LongOverlap(rest, bytes, Budgets(b));
      assert p[..8] == p[..16][..8] && p[8..16] == p[..16][8..];
      assert bytes[..8] == bytes[..16][..8] && bytes[8..16] == bytes[..16][8..];
      ValueOfZeros(Zeros(8));
    }
  }

  // ---------------------------------------------------------------- equal layouts

  /** A byte below 0x80 is a character of its own. */
  lemma {:induction false} CutAfterAscii(s: string, i: nat) returns (k: nat)
    requires i < |Encode(s)| && Encode(s)[i] < 0x80
    ensures k < |s| && s[k] as int == Encode(s)[i]
    ensures Encode(s[..k]) == Encode(s)[..i] && Encode(s[k + 1..]) == Encode(s)[i + 1..]
  {
    var first, rest := EncodeChar(s[0]), Encode(s[1..]);
    DropPrefix(first, rest);
    if i < |first| {
      CutAtFirst(s, i);
      k := 0;
    } else {
      var j := CutAfterAscii(s[1..], i - |first|);
      k := j + 1;
      EncodeHead(s, k);
      CutBehind(first, rest, i);
    }
  }

  lemma CutAtFirst(s: string, i: nat)
    requires s != [] && i < |EncodeChar(s[0])| && Encode(s)[i] < 0x80
    ensures i == 0 && s[0] as int == Encode(s)[0] && Encode(s[1..]) == Encode(s)[1..] && Encode(s[..0]) == []
  {
    OnlyFirstByteStarts(s[0]);
    DropPrefix(EncodeChar(s[0]), Encode(s[1..]));
    assert Encode(s)[i] == EncodeChar(s[0])[i];
  }

  lemma EncodeHead(s: string, k: nat)
    requires 1 <= k < |s|
    ensures Encode(s[..k]) == EncodeChar(s[0]) + Encode(s[1..][..k - 1]) && s[k + 1..] == s[1..][k..]
            && s[k] == s[1..][k - 1]
  {
    assert s[..k][1..] == s[1..][..k - 1];
  }

  lemma CutBehind(first: seq<byte>, rest: seq<byte>, i: nat)
    requires |first| <= i < |first + rest|
    ensures (first + rest)[..i] == first + rest[..i - |first|] && (first + rest)[i + 1..] == rest[i - |first| + 1..]
  {
  }

  lemma EncodeInjective(s: string, t: string)
    requires Encode(s) == Encode(t)
    ensures s == t
  {
    DecodeOfEncoded(s);
    DecodeOfEncoded(t);
  }

  /** Behind the shorter namespace the bytes of equal layouts overlap. */
  lemma WholesOverlap(x: seq<byte>, a: seq<byte>, q1: seq<byte>, y: seq<byte>, b: seq<byte>, q2: seq<byte>)
    requires BudgetShaped(a) && BudgetShaped(b) && |x| < |y|
    requires x + [0] + a + q1 == y + [0] + b + q2
    ensures y[..|x|] == x && y[|x|] == 0 && Overlap(y[|x| + 1..], a, b)
  {
    var whole, other, n := x + [0] + a + q1, y + [0] + b + q2, |x|;
    assert forall i :: 0 <= i < n ==> whole[i] == x[i] && other[i] == y[i];
    assert whole[n] == 0 && other[n] == y[n];
    forall i | 0 <= i < 24
      ensures a[i] == if i < |y| - n - 1 then y[n + 1..][i] else if i == |y| - n - 1 then 0
                else b[i - (|y| - n - 1) - 1]
    {
      assert whole[n + 1 + i] == a[i];
    }
  }

  lemma LayoutsOverlap(a: ContextAssemblyOptions, b: ContextAssemblyOptions)
    requires a.InRange() && b.InRange() && PolicyLayout(a) == PolicyLayout(b)
    requires |Encode(a.cacheNamespace)| < |Encode(b.cacheNamespace)|
    ensures var x, y := Encode(a.cacheNamespace), Encode(b.cacheNamespace);
      y[..|x|] == x && y[|x|] == 0 && Overlap(y[|x| + 1..], Budgets(a), Budgets(b))
  {
    BudgetsAreShaped(a);
    BudgetsAreShaped(b);
    WholesOverlap(Encode(a.cacheNamespace), Budgets(a), Encode(a.QueryText()),
                  Encode(b.cacheNamespace), Budgets(b), Encode(b.QueryText()));
  }

  lemma ContinuesInBytes(x: string, y: string) returns (rest: string)
    requires |Encode(x)| < |Encode(y)| && Encode(y)[..|Encode(x)|] == Encode(x) && Encode(y)[|Encode(x)|] == 0
    ensures |x| < |y| && y[..|x|] == x && y[|x|] == '\0' && y[|x| + 1..] == rest
    ensures Encode(rest) == Encode(y)[|Encode(x)| + 1..]
  {
    var k := CutAfterAscii(y, |Encode(x)|);
    EncodeInjective(y[..k], x);
    assert |y[..k]| == k;
    assert y[k] as int == 0;
    rest := y[k + 1..];
  }

  lemma EqualLayoutsContinue(a: ContextAssemblyOptions, b: ContextAssemblyOptions)
    requires a.InRange() && b.InRange() && PolicyLayout(a) == PolicyLayout(b)
    requires |Encode(a.cacheNamespace)| < |Encode(b.cacheNamespace)|
    ensures Continues(a.cacheNamespace, b.cacheNamespace)
  {
    LayoutsOverlap(a, b);
    var rest := ContinuesInBytes(a.cacheNamespace, b.cacheNamespace);
    OverlapReads(Encode(rest), a, b);
    ContinuesBy(a.cacheNamespace, b.cacheNamespace, rest);
  }

  lemma ContinuesBy(x: string, y: string, rest: string)
    requires |x| < |y| && y[..|x|] == x && y[|x|] == '\0' && y[|x| + 1..] == rest && ReadsAsBudgets(Encode(rest))
    ensures Continues(x, y)
  {
  }

  /** Layouts of one length of namespace split into their fields. */
  lemma EqualLengthsSplit(a: ContextAssemblyOptions, b: ContextAssemblyOptions)
    requires a.InRange() && b.InRange() && PolicyLayout(a) == PolicyLayout(b)
    requires |Encode(a.cacheNamespace)| == |Encode(b.cacheNamespace)|
    ensures SamePolicy(a, b)
  {
    var whole, n := PolicyLayout(a), |Encode(a.cacheNamespace)|;
    FieldsOfLayout(a);
    FieldsOfLayout(b);
    EncodeInjective(a.cacheNamespace, b.cacheNamespace);
    EncodeInjective(a.QueryText(), b.QueryText());
    BudgetsReadBack(a);
    BudgetsReadBack(b);
  }

  lemma FieldsOfLayout(o: ContextAssemblyOptions)
    ensures var n := |Encode(o.cacheNamespace)|;
      && |PolicyLayout(o)| >= n + 25
      && PolicyLayout(o)[..n] == Encode(o.cacheNamespace)
      && PolicyLayout(o)[n + 1..n + 25] == Budgets(o)
      && PolicyLayout(o)[n + 25..] == Encode(o.QueryText())
  {
  }

  /**
   Unless one namespace continues the other, two policies share a cache key exactly when they are
   the same.
   */
  lemma PolicyLayoutIdentifiesPolicy(a: ContextAssemblyOptions, b: ContextAssemblyOptions)
    requires a.InRange() && b.InRange()
    requires !Continues(a.cacheNamespace, b.cacheNamespace) && !Continues(b.cacheNamespace, a.cacheNamespace)
    ensures PolicyLayout(a) == PolicyLayout(b) <==> SamePolicy(a, b)
  {
    if PolicyLayout(a) == PolicyLayout(b) {
      if |Encode(a.cacheNamespace)| < |Encode(b.cacheNamespace)| {
        EqualLayoutsContinue(a, b);
      } else if |Encode(b.cacheNamespace)| < |Encode(a.cacheNamespace)| {
        EqualLayoutsContinue(b, a);
      } else {
        EqualLengthsSplit(a, b);
      }
    }
  }

  // ---------------------------------------------------------------- colliding policies

  /** The text of an ASCII byte string. */
  function Ascii(bytes: seq<byte>): (s: string)
    requires forall i :: 0 <= i < |bytes| ==> bytes[i] < 0x80
    ensures Encode(s) == bytes
  {
    if bytes == [] then [] else [bytes[0] as char] + Ascii(bytes[1..])
  }

  /** The fewest bytes that the rendering of a chunk takes. */
  const LEAST_RENDERING: nat := 28

  /**
   Two policies in range, the first of which has a query that takes up the rest of the other one's
   layout; and one of them has a byte limit above that of the other that holds a rendering.
   */
  predicate Completes(rest: seq<byte>, a: ContextAssemblyOptions, b: ContextAssemblyOptions) {
    && a.InRange() && b.InRange() && a.Plain() && b.Plain() && b.query == None
    && rest + [0] + Budgets(b) == Budgets(a) + Encode(a.QueryText())
    && LimitsDiffer(a.maxContextBytes, b.maxContextBytes)
  }

  predicate LimitsDiffer(a: nat, b: nat) {
    a != b && (LEAST_RENDERING <= a || LEAST_RENDERING <= b)
  }

  /** A byte limit that differs from another. */
  function OtherLimit(limit: nat): nat {
    if limit == 100 then 101 else 100
  }

  function WithLimits(bytes: nat, chunks: nat, recent: nat, query: Option<string>): ContextAssemblyOptions {
    ContextAssemblyOptions(query, DEFAULT_NAMESPACE, None, bytes, chunks, recent, true)
  }

  lemma OverlapJoins(rest: seq<byte>, a: seq<byte>, b: seq<byte>)
    requires Overlap(rest, a, b) && |rest| < 24
    ensures rest + [0] + b == a + b[23 - |rest|..]
  {
    var whole, n := rest + [0] + b, |rest|;
    assert whole[..24] == a;
    assert whole[24..] == b[23 - n..];
  }

  lemma ShortRestOverlaps(rest: seq<byte>, a: seq<byte>, b: seq<byte>, chunks: byte)
    requires 7 <= |rest| <= 9 && BudgetShaped(a) && BudgetShaped(b)
    requires a[..8] == Padded(rest)[..8] && (|rest| == 9 ==> rest[8] == 0)
    requires a[15] == chunks && a[23] == (if |rest| == 7 then b[15] else 0)
    requires b[5] == (if |rest| == 9 then chunks else 0) && b[6] == (if |rest| == 8 then chunks else 0)
    requires b[7] == (if |rest| == 7 then chunks else 0)
    ensures Overlap(rest, a, b)
  {
    forall i | 0 <= i < 8 ensures a[i] == if i < |rest| then rest[i] else 0 {
      assert a[i] == Padded(rest)[i];
    }
  }

  /** The byte limit whose bytes hold a chunk limit at the place where a short rest puts it. */
  function ShortLimit(n: nat, chunks: nat): nat {
    if n == 7 then chunks else if n == 8 then 0x100 * chunks else 0x1_0000 * chunks
  }

  /** The chunk limit that makes that byte limit differ from the other one. */
  function ShortChunks(n: nat, limit: nat): nat {
    if limit == ShortLimit(n, 1) then 2 else 1
  }

  /** Seven to nine bytes: the chunk limit of one is one of the three low bytes of the other's byte limit. */
  lemma ShortRestCompletes(rest: seq<byte>) returns (a: ContextAssemblyOptions, b: ContextAssemblyOptions)
    requires ReadsAsBudgets(rest) && |rest| < 16
    ensures Completes(rest, a, b)
  {
    var n, limit := |rest|, Value(Padded(rest)[..8]);
    var chunks := ShortChunks(n, limit);
    a := WithLimits(limit, chunks, if n == 7 then 1 else 0, None);
    b := WithLimits(ShortLimit(n, chunks), 1, 0, None);
    ShortBudgetsOverlap(rest, a, b, chunks);
    ShortLeft(b);
    a := OverlapCompletes(rest, a, b, Budgets(b)[23 - n..]);
  }

  lemma OverlapCompletes(rest: seq<byte>, a: ContextAssemblyOptions, b: ContextAssemblyOptions, left: seq<byte>)
    returns (asking: ContextAssemblyOptions)
    requires a.InRange() && b.InRange() && a.Plain() && b.Plain() && b.query == None
    requires Overlap(rest, Budgets(a), Budgets(b)) && |rest| < 24 && left == Budgets(b)[23 - |rest|..]
    requires LimitsDiffer(a.maxContextBytes, b.maxContextBytes) && forall i :: 0 <= i < |left| ==> left[i] < 0x80
    ensures Completes(rest, asking, b)
  {
    OverlapJoins(rest, Budgets(a), Budgets(b));
    asking := a.(query := Some(Ascii(left)));
  }

  /** What the query takes up is ASCII. */
  lemma ShortLeft(b: ContextAssemblyOptions)
    requires b.InRange() && b.maxChunks == 1
    ensures forall i :: 8 <= i < 24 ==> Budgets(b)[i] < 0x80
  {
    BudgetsAreShaped(b);
  }

  lemma ShortBudgetsOverlap(rest: seq<byte>, a: ContextAssemblyOptions, b: ContextAssemblyOptions, chunks: nat)
    requires ReadsAsBudgets(rest) && |rest| < 16
    requires a.maxContextBytes == Value(Padded(rest)[..8]) && a.maxChunks == chunks
    requires chunks == ShortChunks(|rest|, a.maxContextBytes)
    requires a.recentTailChunks == if |rest| == 7 then 1 else 0
    requires b.maxContextBytes == ShortLimit(|rest|, chunks) && b.maxChunks == 1 && b.recentTailChunks == 0
    ensures a.InRange() && b.InRange() && Overlap(rest, Budgets(a), Budgets(b))
    ensures LimitsDiffer(a.maxContextBytes, b.maxContextBytes)
  {
    ShortRestReads(rest);
    FieldsOfBudgets(a);
    BigEndianOfValue(Padded(rest)[..8]);
    BudgetsAreShaped(a);
    ShortLimitBytes(|rest|, b, chunks);
    ShortRestOverlaps(rest, Budgets(a), Budgets(b), chunks);
  }

  lemma ShortRestReads(rest: seq<byte>)
    requires ReadsAsBudgets(rest) && |rest| < 16
    ensures |rest| == 9 ==> rest[8] == 0
    ensures |rest| == 7 ==> Value(Padded(rest)[..8]) >= 0x100
  {
    var p := Padded(rest);
    ZerosOfValue(p[8..16]);
    assert p[8..16][0] == p[8];
    if |rest| == 7 {
      assert p[..8][7] == p[7] == 0;
      assert Value(p[..8]) == Value(p[..8][..7]) * 0x100;
    }
  }

  lemma ShortLimitBytes(n: nat, b: ContextAssemblyOptions, chunks: byte)
    requires 7 <= n <= 9 && 1 <= chunks <= 2
    requires b.maxContextBytes == ShortLimit(n, chunks) && b.maxChunks == 1 && b.recentTailChunks == 0
    ensures b.InRange() && BudgetShaped(Budgets(b)) && Budgets(b)[15] == 1
    ensures Budgets(b)[5] == (if n == 9 then chunks else 0) && Budgets(b)[6] == (if n == 8 then chunks else 0)
    ensures Budgets(b)[7] == (if n == 7 then chunks else 0)
  {
    BudgetsAreShaped(b);
    FieldsOfBudgets(b);
    SmallBigEndian(b.maxContextBytes);
  }

  lemma {:induction false} ZerosOfValue(bytes: seq<byte>)
    requires Value(bytes) == 0
    ensures forall i :: 0 <= i < |bytes| ==> bytes[i] == 0
  {
    if bytes != [] {
      ZerosOfValue(bytes[..|bytes| - 1]);
    }
  }

  lemma BudgetsRead(p: seq<byte>, query: Option<string>) returns (o: ContextAssemblyOptions)
    requires |p| == 24 && 1 <= Value(p[..8]) <= DEFAULT_MAX_CONTEXT_BYTES
    requires Value(p[16..]) <= Value(p[8..16]) && 1 <= Value(p[8..16]) <= DEFAULT_MAX_CHUNKS
    ensures o.InRange() && Budgets(o) == p && o.query == query && o.Plain()
  {
    o := WithLimits(Value(p[..8]), Value(p[8..16]), Value(p[16..]), query);
    BudgetsOfBytes(p, o);
  }

  /** A small policy with a byte limit other than a given one; its budgets are ASCII. */
  lemma OtherPolicy(limit: nat) returns (b: ContextAssemblyOptions)
    ensures b.InRange() && b.query == None && b.Plain() && LimitsDiffer(limit, b.maxContextBytes)
    ensures forall i :: 0 <= i < 24 ==> Budgets(b)[i] < 0x80
    ensures forall i :: 0 <= i < 7 ==> Budgets(b)[i] == 0
  {
    b := WithLimits(OtherLimit(limit), 1, 0, None);
    BudgetsAreShaped(b);
    TinyBigEndian(b.maxContextBytes);
    FieldsOfBudgets(b);
  }

  /** Sixteen to twenty-three bytes: what is missing of the budgets is zero. */
  lemma MiddleRestCompletes(rest: seq<byte>) returns (a: ContextAssemblyOptions, b: ContextAssemblyOptions)
    requires ReadsAsBudgets(rest) && 16 <= |rest| < 24
    ensures Completes(rest, a, b)
  {
    var p, n := Padded(rest), |rest|;
    b := OtherPolicy(Value(p[..8]));
    var left := Budgets(b)[23 - n..];
    a := BudgetsRead(p, Some(Ascii(left)));
    BudgetsReadBack(a);
    MiddleRestJoins(rest, Budgets(b), left);
  }

  lemma MiddleRestJoins(rest: seq<byte>, b: seq<byte>, left: seq<byte>)
    requires 16 <= |rest| < 24 && |b| == 24 && (forall i :: 0 <= i < 7 ==> b[i] == 0) && left == b[23 - |rest|..]
    ensures rest + [0] + b == Padded(rest) + left
  {
  }

  /** A rest that holds all budgets ends them with a whole character. */
  lemma LongRestSplits(rest: string) returns (behind: string)
    requires ReadsAsBudgets(Encode(rest)) && |Encode(rest)| >= 24
    ensures Encode(behind) == Encode(rest)[24..]
  {
    var bytes := Encode(rest);
    LastBytesAreSmall(bytes);
    var k := CutAfterAscii(rest, 22);
    var tail := rest[k + 1..];
    assert Encode(tail) == bytes[23..];
    behind := tail[1..];
    FirstByteIsAscii(tail);
  }

  lemma LastBytesAreSmall(bytes: seq<byte>)
    requires ReadsAsBudgets(bytes) && |bytes| >= 24
    ensures bytes[22] == 0 && bytes[23] <= 0x80
  {
    var p := Padded(bytes);
    BigEndianOfValue(p[16..]);
    TinyBigEndian(Value(p[16..]));
    assert p[16..][6] == bytes[22] && p[16..][7] == bytes[23];
  }

  /** No character begins with a byte from 0x80 to 0xC1. */
  lemma FirstByteIsAscii(s: string)
    requires s != [] && Encode(s)[0] <= 0x80
    ensures CharLen(s[0]) == 1 && Encode(s[1..]) == Encode(s)[1..]
  {
    assert Encode(s)[0] == EncodeChar(s[0])[0];
    DropPrefix(EncodeChar(s[0]), Encode(s[1..]));
  }

  lemma LongRestCompletes(rest: string) returns (a: ContextAssemblyOptions, b: ContextAssemblyOptions)
    requires ReadsAsBudgets(Encode(rest)) && |Encode(rest)| >= 24
    ensures Completes(Encode(rest), a, b)
  {
    var bytes := Encode(rest);
    var p := Padded(bytes);
    b := OtherPolicy(Value(p[..8]));
    var query := QueryBehind(rest, [0] + Budgets(b));
    a := BudgetsRead(p, Some(query));
    BudgetsReadBack(a);
    LongRestJoins(bytes, p, Budgets(b), bytes[24..]);
  }

  lemma QueryBehind(rest: string, left: seq<byte>) returns (query: string)
    requires ReadsAsBudgets(Encode(rest)) && |Encode(rest)| >= 24 && forall i :: 0 <= i < |left| ==> left[i] < 0x80
    ensures Encode(query) == Encode(rest)[24..] + left
  {
    var behind := LongRestSplits(rest);
    query := behind + Ascii(left);
    EncodeConcat(behind, Ascii(left));
  }

  lemma LongRestJoins(rest: seq<byte>, a: seq<byte>, b: seq<byte>, behind: seq<byte>)
    requires |rest| >= 24 && a == rest[..24] && behind == rest[24..]
    ensures rest + [0] + b == a + (behind + ([0] + b))
  {
  }

  /**
   Namespaces of which one continues the other have two policies in range with one cache key, and
   with different byte limits, of which the greater one holds a rendering.
   */
  lemma ContinuedNamespacesCollide(x: string, y: string) returns (a: ContextAssemblyOptions, b: ContextAssemblyOptions)
    requires Continues(x, y)
    ensures a.InRange() && b.InRange() && a.cacheNamespace == x && b.cacheNamespace == y && a.Plain() && b.Plain()
    ensures PolicyLayout(a) == PolicyLayout(b)
    ensures LimitsDiffer(a.maxContextBytes, b.maxContextBytes)
  {
    var rest := y[|x| + 1..];
    if |Encode(rest)| < 16 {
      a, b := ShortRestCompletes(Encode(rest));
    } else if |Encode(rest)| < 24 {
      a, b := MiddleRestCompletes(Encode(rest));
    } else {
      a, b := LongRestCompletes(rest);
    }
    LayoutsMeet(x, y, rest, a, b);
    a, b := a.(cacheNamespace := x), b.(cacheNamespace := y);
  }

  lemma {:induction false} EncodeContinued(x: string, y: string, rest: string)
    requires |x| < |y| && y[..|x|] == x && y[|x|] == '\0' && y[|x| + 1..] == rest
    ensures Encode(y) == Encode(x) + ([0] + Encode(rest))
  {
    var nul := ['\0'];
    assert y == x + (nul + rest);
    EncodeConcat(x, nul + rest);
    EncodeNulBefore(rest);
  }

  lemma EncodeNulBefore(rest: string)
    ensures Encode(['\0'] + rest) == [0] + Encode(rest)
  {
    DropPrefix(['\0'], rest);
  }

  lemma LayoutsMeet(x: string, y: string, rest: string, a: ContextAssemblyOptions, b: ContextAssemblyOptions)
    requires |x| < |y| && y[..|x|] == x && y[|x|] == '\0' && y[|x| + 1..] == rest
    requires Completes(Encode(rest), a, b)
    ensures PolicyLayout(a.(cacheNamespace := x)) == PolicyLayout(b.(cacheNamespace := y))
  {
    EncodeContinued(x, y, rest);
    BytesMeet(Encode(x), Encode(rest), Budgets(b), Budgets(a), Encode(a.QueryText()));
    assert Encode(b.QueryText()) == [];
  }

  lemma BytesMeet(x: seq<byte>, rest: seq<byte>, b: seq<byte>, a: seq<byte>, query: seq<byte>)
    requires rest + [0] + b == a + query
    ensures x + [0] + a + query == x + ([0] + rest) + [0] + b + []
  {
    Assoc(x + [0], a, query);
    assert x + ([0] + rest) + [0] + b + [] == x + [0] + (rest + [0] + b);
  }

  /**
   Which namespaces the cache key keeps apart: for two namespaces, policies in range share a key
   exactly when they are the same, if and only if neither namespace continues the other.
   */
  lemma NamespacesApartIff(x: string, y: string)
    ensures (forall a: ContextAssemblyOptions, b: ContextAssemblyOptions ::
               a.InRange() && b.InRange() && a.cacheNamespace == x && b.cacheNamespace == y ==>
                 (PolicyLayout(a) == PolicyLayout(b) <==> SamePolicy(a, b)))
       <==> !Continues(x, y) && !Continues(y, x)
  {
    if Continues(x, y) {
      var a, b := ContinuedNamespacesCollide(x, y);
      assert !SamePolicy(a, b);
    } else if Continues(y, x) {
      var b, a := ContinuedNamespacesCollide(y, x);
      assert !SamePolicy(a, b);
    } else {
      forall a: ContextAssemblyOptions, b: ContextAssemblyOptions
        | a.InRange() && b.InRange() && a.cacheNamespace == x && b.cacheNamespace == y
        ensures PolicyLayout(a) == PolicyLayout(b) <==> SamePolicy(a, b)
      {
        PolicyLayoutIdentifiesPolicy(a, b);
      }
    }
  }

  /** Policies of one namespace never collide, and neither do those of namespaces without U+0000. */
  lemma PlainNamespacesAreApart(x: string, y: string)
    requires x == y || ('\0' !in x && '\0' !in y)
    ensures !Continues(x, y) && !Continues(y, x)
  {
  }
}
