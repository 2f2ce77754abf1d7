/**
  Decimal rendering of integers, as JavaScript's `Number.prototype.toString()` and PHP's string
  conversion produce it for integral values: an optional '-' followed by digits without leading
  zeros. Snapshot keys are built from it, so it matters that the rendering is injective.
 */
module Decimal {

  predicate IsDigit(c: char) {
    '0' <= c <= '9'
  }

  function DigitChar(d: nat): (c: char)
    requires d < 10
    ensures IsDigit(c) && DigitValue(c) == d
  {
    "0123456789"[d]
  }

  function DigitValue(c: char): nat {
    if IsDigit(c) then (c as int - '0' as int) as nat else 0
  }

  /** The decimal digits of `n`, most significant first. */
  function NatToString(n: nat): (s: string)
    ensures |s| >= 1
    ensures forall i :: 0 <= i < |s| ==> IsDigit(s[i])
    decreases n
  {
    if n < 10 then [DigitChar(n)] else NatToString(n / 10) + [DigitChar(n % 10)]
  }

  /** Reads a string of digits back; the inverse of NatToString. */
  function ParseNat(s: string): nat
    decreases |s|
  {
    if |s| == 0 then 0 else ParseNat(s[..|s| - 1]) * 10 + DigitValue(s[|s| - 1])
  }

  function IntToString(i: int): (s: string)
    ensures |s| >= 1
    ensures s[0] == '-' <==> i < 0
    ensures forall k :: 0 < k < |s| ==> IsDigit(s[k])
  {
    if i < 0 then "-" + NatToString(-i) else NatToString(i)
  }

  function ParseInt(s: string): int {
    if |s| > 0 && s[0] == '-' then -(ParseNat(s[1..]) as int) else ParseNat(s)
  }

  lemma {:induction false} ParseNatToString(n: nat)
    ensures ParseNat(NatToString(n)) == n
    decreases n
  {
    var s := NatToString(n);
    if n >= 10 {
      ParseNatToString(n / 10);
      assert s[..|s| - 1] == NatToString(n / 10);
    }
  }

  /** Parsing inverts rendering. */
  lemma ParseIntToString(i: int)
    ensures ParseInt(IntToString(i)) == i
  {
    if i < 0 {
      ParseNatToString(-i);
      assert IntToString(i)[1..] == NatToString(-i);
    } else {
      ParseNatToString(i);
    }
  }

  /** Distinct integers render to distinct strings. */
  lemma IntToStringInjective(i: int, j: int)
    requires IntToString(i) == IntToString(j)
    ensures i == j
  {
    ParseIntToString(i);
    ParseIntToString(j);
  }
}
