/**
 UTF-8 as section 3 of RFC 3629 defines it, with the lossy decoder of the Rust standard
 library (`String::from_utf8_lossy`), which replaces each maximal ill-formed prefix by U+FFFD.
 */
module Utf8 {
  import opened Sequences

  type byte = b: int | 0 <= b < 0x100

  /** `char::len_utf8` */
  function CharLen(c: char): (n: nat)
    ensures 1 <= n <= 4
  {
    var u := c as int;
    if u < 0x80 then 1 else if u < 0x800 then 2 else if u < 0x10000 then 3 else 4
  }

  function EncodeChar(c: char): (bytes: seq<byte>)
    ensures |bytes| == CharLen(c)
  {
    var u := c as int;
    if u < 0x80 then [u]
    else if u < 0x800 then [0xC0 + u / 0x40, 0x80 + u % 0x40]
    else if u < 0x10000 then [0xE0 + u / 0x1000, 0x80 + u / 0x40 % 0x40, 0x80 + u % 0x40]
    else [0xF0 + u / 0x40000, 0x80 + u / 0x1000 % 0x40, 0x80 + u / 0x40 % 0x40, 0x80 + u % 0x40]
  }

  lemma OnlyFirstByteStarts(c: char)
    ensures !IsContinuation(EncodeChar(c)[0])
    ensures forall i :: 0 < i < |EncodeChar(c)| ==> IsContinuation(EncodeChar(c)[i])
  {
  }

  function Encode(s: string): seq<byte> {
    if s == [] then [] else EncodeChar(s[0]) + Encode(s[1..])
  }

  /** `str::len`: the number of bytes, not of characters. */
  function ByteLen(s: string): nat {
    if s == [] then 0 else CharLen(s[0]) + ByteLen(s[1..])
  }

  predicate IsContinuation(b: byte) {
    0x80 <= b < 0xC0
  }

  /** `str::is_char_boundary` */
  predicate IsCharBoundary(bytes: seq<byte>, index: nat) {
    index == |bytes| || (index < |bytes| && !IsContinuation(bytes[index]))
  }

  lemma EncodeConcat(a: string, b: string)
    ensures Encode(a + b) == Encode(a) + Encode(b)
  {
    if a == [] {
      assert a + b == b;
    } else {
      assert (a + b)[1..] == a[1..] + b;
      EncodeConcat(a[1..], b);
      Assoc(EncodeChar(a[0]), Encode(a[1..]), Encode(b));
    }
  }

  lemma ByteLenConcat(a: string, b: string)
    ensures ByteLen(a + b) == ByteLen(a) + ByteLen(b)
  {
    if a == [] {
      assert a + b == b;
    } else {
      assert (a + b)[1..] == a[1..] + b;
      ByteLenConcat(a[1..], b);
    }
  }

  lemma ByteLenIsEncodedLength(s: string)
    ensures |Encode(s)| == ByteLen(s)
  {
  }

  /** A byte offset is a character boundary exactly when some prefix of the text ends there. */
  lemma {:induction false} BoundaryIsPrefixEnd(s: string, index: nat) returns (k: nat)
    requires index <= ByteLen(s)
    requires |Encode(s)| == ByteLen(s)
    ensures k <= |s| && ByteLen(s[..k]) <= index
    ensures k < |s| ==> index < ByteLen(s[..k]) + CharLen(s[k])
    ensures IsCharBoundary(Encode(s), index) <==> ByteLen(s[..k]) == index
  {
    if s == [] {
      k := 0;
    } else {
      var width := CharLen(s[0]);
      ByteLenIsEncodedLength(s[1..]);
      OnlyFirstByteStarts(s[0]);
      if index < width {
        k := 0;
      } else {
        var j := BoundaryIsPrefixEnd(s[1..], index - width);
        k := j + 1;
        assert s[..k] == [s[0]] + s[1..][..j];
        ByteLenConcat([s[0]], s[1..][..j]);
        assert ByteLen([s[0]]) == width;
        assert index < |Encode(s)| ==> Encode(s)[index] == Encode(s[1..])[index - width];
      }
    }
  }

  /** The outcome of reading one character: the character, or the length of the ill-formed prefix. */
  datatype Decoded = Good(c: char, len: nat) | Bad(len: nat)

  /** A missing byte reads as zero, which is never a continuation byte. */
  function At(bytes: seq<byte>, i: nat): byte {
    if i < |bytes| then bytes[i] else 0
  }

  /** The well-formed second bytes after a three-byte or four-byte lead. */
  predicate SecondByteAllowed(first: byte, second: byte) {
    if first == 0xE0 then 0xA0 <= second < 0xC0
    else if first == 0xED then 0x80 <= second < 0xA0
    else if first == 0xF0 then 0x90 <= second < 0xC0
    else if first == 0xF4 then 0x80 <= second < 0x90
    else IsContinuation(second)
  }

  function ScanFirst(bytes: seq<byte>): (r: Decoded)
    requires bytes != []
    ensures 1 <= r.len <= |bytes|
  {
    ScanBytes(bytes[0], At(bytes, 1), At(bytes, 2), At(bytes, 3))
  }

  function ScanBytes(first: byte, second: byte, third: byte, fourth: byte): (r: Decoded)
    ensures 1 <= r.len
    ensures second == 0 ==> r.len == 1
    ensures third == 0 ==> r.len <= 2
    ensures fourth == 0 ==> r.len <= 3
    ensures r.len <= 4
  {
    if first < 0x80 then Good(first as char, 1)
    else if 0xC2 <= first < 0xE0 then
      if !IsContinuation(second) then Bad(1)
      else Good(Scalar(0, 0, first - 0xC0, second - 0x80), 2)
    else if 0xE0 <= first < 0xF0 then
      if !SecondByteAllowed(first, second) then Bad(1)
      else if !IsContinuation(third) then Bad(2)
      else Good(Scalar(0, first - 0xE0, second - 0x80, third - 0x80), 3)
    else if 0xF0 <= first < 0xF5 then
      if !SecondByteAllowed(first, second) then Bad(1)
      else if !IsContinuation(third) then Bad(2)
      else if !IsContinuation(fourth) then Bad(3)
      else Good(Scalar(first - 0xF0, second - 0x80, third - 0x80, fourth - 0x80), 4)
    else Bad(1)
  }

  /** The character whose code point has these base-64 digits, most significant first. */
  function Scalar(d3: int, d2: int, d1: int, d0: int): char
    requires 0 <= d3 < 0x40 && 0 <= d2 < 0x40 && 0 <= d1 < 0x40 && 0 <= d0 < 0x40
    requires d3 < 4 || (d3 == 4 && d2 < 0x10)
    requires d3 == 0 && d2 == 0xD ==> d1 < 0x20
  {
    (d3 * 0x40000 + d2 * 0x1000 + d1 * 0x40 + d0) as char
  }

  const REPLACEMENT: char := '\U{FFFD}'

  /** `String::from_utf8_lossy` */
  function DecodeLossy(bytes: seq<byte>): string {
    if bytes == [] then []
    else
      var scan := ScanFirst(bytes);
      [if scan.Good? then scan.c else REPLACEMENT] + DecodeLossy(bytes[scan.len..])
  }

  /** Well-formed UTF-8. */
  predicate IsUtf8(bytes: seq<byte>) {
    bytes == [] || (ScanFirst(bytes).Good? && IsUtf8(bytes[ScanFirst(bytes).len..]))
  }

  lemma DigitsOfChar(c: char)
    ensures var u := c as int;
      && u == u / 0x40000 * 0x40000 + u / 0x1000 % 0x40 * 0x1000 + u / 0x40 % 0x40 * 0x40 + u % 0x40
      && (u < 0x10000 ==> u / 0x1000 % 0x40 == u / 0x1000)
      && (u < 0x800 ==> u / 0x40 % 0x40 == u / 0x40)
  {
    var u := c as int;
    var u1 := u / 0x40;
    var u2 := u1 / 0x40;
    assert u2 == u / 0x1000 && u2 / 0x40 == u / 0x40000;
    assert u == u1 * 0x40 + u % 0x40;
    assert u1 == u2 * 0x40 + u1 % 0x40;
    assert u2 == u2 / 0x40 * 0x40 + u2 % 0x40;
  }

  /** Scanning the bytes of a character; the bytes after it do not matter. */
  lemma ScanOfCharBytes(c: char, second: byte, third: byte, fourth: byte)
    requires CharLen(c) > 1 ==> second == EncodeChar(c)[1]
    requires CharLen(c) > 2 ==> third == EncodeChar(c)[2]
    requires CharLen(c) > 3 ==> fourth == EncodeChar(c)[3]
    ensures ScanBytes(EncodeChar(c)[0], second, third, fourth) == Good(c, CharLen(c))
  {
    DigitsOfChar(c);
  }

  lemma ScanOfEncoded(c: char, rest: seq<byte>)
    ensures ScanFirst(EncodeChar(c) + rest) == Good(c, CharLen(c))
  {
    var bytes, wide := EncodeChar(c) + rest, EncodeChar(c);
    assert bytes[0] == wide[0];
    assert forall i :: 0 <= i < |wide| ==> At(bytes, i) == wide[i];
    ScanOfCharBytes(c, At(bytes, 1), At(bytes, 2), At(bytes, 3));
  }

  lemma CharOfDigits(d3: int, d2: int, d1: int, d0: int)
    requires 0 <= d3 < 0x40 && 0 <= d2 < 0x40 && 0 <= d1 < 0x40 && 0 <= d0 < 0x40
    requires d3 < 4 || (d3 == 4 && d2 < 0x10)
    requires d3 == 0 && d2 == 0xD ==> d1 < 0x20
    ensures var u := Scalar(d3, d2, d1, d0) as int;
      && u / 0x40000 == d3 && u / 0x1000 % 0x40 == d2 && u / 0x40 % 0x40 == d1 && u % 0x40 == d0
      && (d3 == 0 ==> u / 0x1000 == d2) && (d3 == 0 && d2 == 0 ==> u / 0x40 == d1)
  {
    var u2 := d3 * 0x40 + d2;
    var u1 := u2 * 0x40 + d1;
    var u := u1 * 0x40 + d0;
    LowDigit(u1, d0);
    LowDigit(u2, d1);
    LowDigit(d3, d2);
    assert u / 0x1000 == u / 0x40 / 0x40 && u / 0x40000 == u / 0x1000 / 0x40;
  }

  lemma LowDigit(high: nat, low: nat)
    requires low < 0x40
    ensures (high * 0x40 + low) / 0x40 == high && (high * 0x40 + low) % 0x40 == low
  {
  }

  lemma EncodedScan(bytes: seq<byte>)
    requires bytes != [] && ScanFirst(bytes).Good?
    ensures EncodeChar(ScanFirst(bytes).c) == bytes[..ScanFirst(bytes).len]
  {
    var first, second, third, fourth := bytes[0], At(bytes, 1), At(bytes, 2), At(bytes, 3);
    if first < 0x80 {
      assert bytes[..1] == [first];
    } else if first < 0xE0 {
      CharOfDigits(0, 0, first - 0xC0, second - 0x80);
      assert bytes[..2] == [first, second];
    } else if first < 0xF0 {
      CharOfDigits(0, first - 0xE0, second - 0x80, third - 0x80);
      assert bytes[..3] == [first, second, third];
    } else {
      CharOfDigits(first - 0xF0, second - 0x80, third - 0x80, fourth - 0x80);
      assert bytes[..4] == [first, second, third, fourth];
    }
  }

  lemma DecodeStep(c: char, rest: seq<byte>)
    ensures DecodeLossy(EncodeChar(c) + rest) == [c] + DecodeLossy(rest)
  {
    ScanOfEncoded(c, rest);
    DropPrefix(EncodeChar(c), rest);
  }

  /** Decoding undoes encoding, whatever follows. */
  lemma {:induction false} DecodeEncoded(s: string, rest: seq<byte>)
    ensures DecodeLossy(Encode(s) + rest) == s + DecodeLossy(rest)
  {
    if s == [] {
      assert Encode(s) + rest == rest;
    } else {
      var c, tail := s[0], Encode(s[1..]);
      DecodeStep(c, tail + rest);
      DecodeEncoded(s[1..], rest);
      Assoc(EncodeChar(c), tail, rest);
      Cons(s);
      Assoc([c], s[1..], DecodeLossy(rest));
    }
  }

  lemma DecodeOfEncoded(s: string)
    ensures DecodeLossy(Encode(s)) == s
  {
    DecodeEncoded(s, []);
    assert Encode(s) + [] == Encode(s) && s + [] == s;
  }

  lemma {:induction false} EncodedIsUtf8(s: string)
    ensures IsUtf8(Encode(s))
  {
    if s != [] {
      ScanOfEncoded(s[0], Encode(s[1..]));
      assert Encode(s)[CharLen(s[0])..] == Encode(s[1..]);
      EncodedIsUtf8(s[1..]);
    }
  }

  lemma {:induction false} EncodedAgain(bytes: seq<byte>)
    requires IsUtf8(bytes)
    ensures Encode(DecodeLossy(bytes)) == bytes
  {
    if bytes != [] {
      var scan := ScanFirst(bytes);
      EncodedScan(bytes);
      EncodedAgain(bytes[scan.len..]);
      DropPrefix([scan.c], DecodeLossy(bytes[scan.len..]));
      Split(bytes, scan.len);
    }
  }

  /** The byte strings the encoder produces are exactly the well-formed ones. */
  lemma WellFormedIffEncoded(bytes: seq<byte>)
    ensures IsUtf8(bytes) <==> Encode(DecodeLossy(bytes)) == bytes
    ensures IsUtf8(bytes) <==> exists s :: Encode(s) == bytes
  {
    if IsUtf8(bytes) {
      EncodedAgain(bytes);
    }
    forall s | Encode(s) == bytes ensures IsUtf8(bytes) {
      EncodedIsUtf8(s);
    }
  }

  // ---------------------------------------------------------------- decoding chunk by chunk

  /** How many characters begin in a byte string. */
  function Starts(bytes: seq<byte>): nat {
    if bytes == [] then 0 else (if IsContinuation(bytes[0]) then 0 else 1) + Starts(bytes[1..])
  }

  lemma StartsConcat(a: seq<byte>, b: seq<byte>)
    ensures Starts(a + b) == Starts(a) + Starts(b)
  {
    if a == [] {
      assert a + b == b;
    } else {
      assert (a + b)[1..] == a[1..] + b;
      StartsConcat(a[1..], b);
    }
  }

  lemma NoStarts(bytes: seq<byte>)
    requires forall i :: 0 <= i < |bytes| ==> IsContinuation(bytes[i])
    ensures Starts(bytes) == 0
  {
  }

  lemma {:induction false} StartsOfEncoded(s: string)
    ensures Starts(Encode(s)) == |s|
  {
    if s != [] {
      var wide := EncodeChar(s[0]);
      OnlyFirstByteStarts(s[0]);
      NoStarts(wide[1..]);
      StartsConcat(wide, Encode(s[1..]));
      StartsOfEncoded(s[1..]);
    }
  }

  /** Whatever one scan consumes, only its first byte can begin a character. */
  lemma ScanConsumesContinuations(bytes: seq<byte>)
    requires bytes != []
    ensures forall i :: 0 < i < ScanFirst(bytes).len ==> IsContinuation(bytes[i])
  {
  }

  /** A decoder never loses a character, and a string that begins inside one decodes to more. */
  lemma {:induction false} DecodedLength(bytes: seq<byte>)
    ensures |DecodeLossy(bytes)| >= Starts(bytes)
    ensures bytes != [] && IsContinuation(bytes[0]) ==> |DecodeLossy(bytes)| > Starts(bytes)
  {
    if bytes != [] {
      var n := ScanFirst(bytes).len;
      ScanConsumesContinuations(bytes);
      NoStarts(bytes[1..n]);
      Split(bytes, n);
      StartsConcat(bytes[..n], bytes[n..]);
      assert bytes[..n][1..] == bytes[1..n];
      DecodedLength(bytes[n..]);
    }
  }

  function Flatten(chunks: seq<seq<byte>>): seq<byte> {
    if chunks == [] then [] else chunks[0] + Flatten(chunks[1..])
  }

  /** `String::from_utf8_lossy` on each chunk alone. */
  function DecodeEach(chunks: seq<seq<byte>>): string {
    if chunks == [] then [] else DecodeLossy(chunks[0]) + DecodeEach(chunks[1..])
  }

  /** No chunk begins in the middle of a character. */
  predicate Aligned(chunks: seq<seq<byte>>) {
    forall i :: 0 <= i < |chunks| && chunks[i] != [] ==> !IsContinuation(chunks[i][0])
  }

  lemma {:induction false} DecodedEachLength(chunks: seq<seq<byte>>)
    ensures |DecodeEach(chunks)| >= Starts(Flatten(chunks))
    ensures !Aligned(chunks) ==> |DecodeEach(chunks)| > Starts(Flatten(chunks))
  {
    if chunks != [] {
      StartsConcat(chunks[0], Flatten(chunks[1..]));
      DecodedLength(chunks[0]);
      DecodedEachLength(chunks[1..]);
      if chunks[0] == [] || !IsContinuation(chunks[0][0]) {
        assert Aligned(chunks[1..]) ==> Aligned(chunks);
      }
    }
  }

  /** A chunk list of a text whose pieces all begin characters is cut between characters. */
  lemma {:induction false} AlignedChunkIsPrefix(s: string, chunks: seq<seq<byte>>) returns (k: nat)
    requires chunks != [] && Flatten(chunks) == Encode(s) && Aligned(chunks)
    ensures k <= |s| && chunks[0] == Encode(s[..k]) && Flatten(chunks[1..]) == Encode(s[k..])
  {
    var cut := |chunks[0]|;
    ByteLenIsEncodedLength(s);
    FlattenStart(chunks[1..]);
    DropPrefix(chunks[0], Flatten(chunks[1..]));
    k := BoundaryIsPrefixEnd(s, cut);
    ByteLenIsEncodedLength(s[..k]);
    Split(s, k);
    EncodeConcat(s[..k], s[k..]);
    DropPrefix(Encode(s[..k]), Encode(s[k..]));
    if Flatten(chunks[1..]) != [] {
      assert Encode(s)[cut] == Flatten(chunks[1..])[0];
    }
    assert IsCharBoundary(Encode(s), cut);
  }

  lemma {:induction false} FlattenStart(chunks: seq<seq<byte>>)
    requires Aligned(chunks)
    ensures Flatten(chunks) != [] ==> !IsContinuation(Flatten(chunks)[0])
  {
    if chunks != [] {
      FlattenStart(chunks[1..]);
      if chunks[0] == [] {
        assert Flatten(chunks) == Flatten(chunks[1..]);
      }
    }
  }

  lemma {:induction false} AlignedDecodesWhole(s: string, chunks: seq<seq<byte>>)
    requires Flatten(chunks) == Encode(s) && Aligned(chunks)
    ensures DecodeEach(chunks) == s
    decreases |chunks|
  {
    if chunks == [] {
      DecodeOfEncoded(s);
    } else {
      var k := AlignedChunkIsPrefix(s, chunks);
      DecodeOfEncoded(s[..k]);
      AlignedDecodesWhole(s[k..], chunks[1..]);
      Split(s, k);
    }
  }

  /**
   Decoding a well-formed byte string chunk by chunk gives the text back exactly when no chunk
   begins inside a character.
   */
  lemma ChunksDecodeWholeIffAligned(s: string, chunks: seq<seq<byte>>)
    requires Flatten(chunks) == Encode(s)
    ensures DecodeEach(chunks) == s <==> Aligned(chunks)
  {
    if Aligned(chunks) {
      AlignedDecodesWhole(s, chunks);
    } else {
      DecodedEachLength(chunks);
      StartsOfEncoded(s);
    }
  }
}
