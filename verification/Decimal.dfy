/** Decimal formatting of unsigned integers: `{n}` and the zero-padded `{n:0width}`. */
module Decimal {

  function Digit(d: nat): char
    requires d < 10
  {
    ('0' as int + d) as char
  }

  predicate IsDigit(c: char) {
    '0' <= c <= '9'
  }

  function Format(n: nat): (s: string)
    ensures s != []
    ensures forall i :: 0 <= i < |s| ==> IsDigit(s[i])
  {
    if n < 10 then [Digit(n)] else Format(n / 10) + [Digit(n % 10)]
  }

  function Zeros(count: nat): (s: string)
    ensures |s| == count
    ensures forall i :: 0 <= i < |s| ==> s[i] == '0'
  {
    seq(count, i => '0')
  }

  function ZeroPadded(n: nat, width: nat): (s: string)
    ensures |s| >= width
    ensures forall i :: 0 <= i < |s| ==> IsDigit(s[i])
  {
    var digits := Format(n);
    if |digits| >= width then digits else Zeros(width - |digits|) + digits
  }

  /** The number a digit string denotes. */
  function Parse(s: string): nat {
    if s == [] then 0
    else
      var last := s[|s| - 1];
      10 * Parse(s[..|s| - 1]) + (if IsDigit(last) then last as int - '0' as int else 0)
  }

  lemma ParseOfFormat(n: nat)
    ensures Parse(Format(n)) == n
  {
    if n >= 10 {
      ParseOfFormat(n / 10);
      assert Format(n)[..|Format(n)| - 1] == Format(n / 10);
    }
  }

  lemma {:induction false} ParseSkipsZeros(count: nat, s: string)
    ensures Parse(Zeros(count) + s) == Parse(s)
    decreases |s|, count
  {
    if s != [] {
      assert (Zeros(count) + s)[..count + |s| - 1] == Zeros(count) + s[..|s| - 1];
      ParseSkipsZeros(count, s[..|s| - 1]);
    } else if count > 0 {
      var zeros := Zeros(count) + s;
      assert zeros[..count - 1] == Zeros(count - 1) + s;
      ParseSkipsZeros(count - 1, s);
    }
  }

  /** Padding loses nothing, so different numbers are formatted differently. */
  lemma ParseOfZeroPadded(n: nat, width: nat)
    ensures Parse(ZeroPadded(n, width)) == n
  {
    ParseOfFormat(n);
    if |Format(n)| < width {
      ParseSkipsZeros(width - |Format(n)|, Format(n));
    }
  }

  function Pow10(width: nat): nat {
    if width == 0 then 1 else 10 * Pow10(width - 1)
  }

  /** Numbers below `10^width` are padded to exactly `width` digits. */
  lemma ZeroPaddedWidth(n: nat, width: nat)
    requires 1 <= width && n < Pow10(width)
    ensures |ZeroPadded(n, width)| == width
  {
    if width > 1 && n >= 10 {
      ZeroPaddedWidth(n / 10, width - 1);
    }
  }

  /** The last digit of a padded number, and the padded number before it. */
  lemma ZeroPaddedStep(n: nat, width: nat)
    requires 1 <= width && n < Pow10(width + 1)
    ensures ZeroPadded(n, width + 1) == ZeroPadded(n / 10, width) + [Digit(n % 10)]
  {
    ZeroPaddedWidth(n, width + 1);
    ZeroPaddedWidth(n / 10, width);
    if n < 10 {
      assert ZeroPadded(n, width + 1) == Zeros(width) + [Digit(n)];
      assert ZeroPadded(0, width) == Zeros(width - 1) + [Digit(0)];
    } else {
      assert Format(n) == Format(n / 10) + [Digit(n % 10)];
    }
  }
}
