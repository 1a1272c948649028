/**
 * Python's `str` on an integer: the decimal text surfaced as `total_price`
 * and used inside `rate_id`, together with the parse that inverts it.
 */
module Decimal {

  predicate IsDigit(c: char) {
    '0' <= c <= '9'
  }

  function DigitChar(d: nat): (c: char)
    requires d < 10
    ensures IsDigit(c) && c as int - '0' as int == d
  {
    (d + '0' as int) as char
  }

  function DigitValue(c: char): nat {
    if IsDigit(c) then c as int - '0' as int else 0
  }

  /** Decimal digits of `n`, most significant first, without leading zeros. */
  function FromNat(n: nat): (s: string)
    ensures |s| > 0
    ensures forall i :: 0 <= i < |s| ==> IsDigit(s[i])
    ensures s[0] == '0' ==> n == 0
    decreases n
  {
    if n < 10 then [DigitChar(n)] else FromNat(n / 10) + [DigitChar(n % 10)]
  }

  /** `str(i)`: a minus sign before the digits of a negative number. */
  function FromInt(i: int): (s: string)
    ensures |s| > 0
    ensures s[0] == '-' <==> i < 0
  {
    if i < 0 then "-" + FromNat(-i) else FromNat(i)
  }

  /** Reads a string of digits back as a number. */
  function ToNat(s: string): nat {
    if |s| == 0 then 0 else ToNat(s[..|s| - 1]) * 10 + DigitValue(s[|s| - 1])
  }

  /** Reads an optionally signed string of digits back as a number. */
  function ToInt(s: string): int {
    if |s| > 0 && s[0] == '-' then 0 - (ToNat(s[1..]) as int) else ToNat(s)
  }

  lemma {:induction false} NatRoundTrip(n: nat)
    ensures ToNat(FromNat(n)) == n
    decreases n
  {
    var s := FromNat(n);
    if n < 10 {
      assert s[..|s| - 1] == [];
    } else {
      NatRoundTrip(n / 10);
      assert s[..|s| - 1] == FromNat(n / 10);
    }
  }

  /** The text of a price or an id reads back as that number. */
  lemma IntRoundTrip(i: int)
    ensures ToInt(FromInt(i)) == i
  {
    if i < 0 {
      NatRoundTrip(-i);
      assert FromInt(i)[1..] == FromNat(-i);
    } else {
      NatRoundTrip(i);
    }
  }

  /** Different numbers never print the same. */
  lemma FromIntInjective(i: int, j: int)
    ensures FromInt(i) == FromInt(j) <==> i == j
  {
    IntRoundTrip(i);
    IntRoundTrip(j);
  }
}
