/**
 Decimal rendering of non-negative integers, as Python's `str(n)` and the
 `"{}".format(n)` calls in the scripts produce it, together with the parser
 that reads such a string back.
 */
module Decimal {

  predicate IsDigit(c: char) {
    '0' <= c <= '9'
  }

  predicate AllDigits(s: string) {
    forall i :: 0 <= i < |s| ==> IsDigit(s[i])
  }

  function DigitChar(d: nat): (c: char)
    requires d < 10
    ensures IsDigit(c)
  {
    (('0' as int) + d) as char
  }

  function DigitValue(c: char): (d: nat)
    requires IsDigit(c)
    ensures d < 10
  {
    (c as int) - ('0' as int)
  }

  /** The value of a string of decimal digits (most significant first). */
  function Parse(s: string): nat
    requires AllDigits(s)
  {
    if |s| == 0 then 0 else Parse(s[..|s| - 1]) * 10 + DigitValue(s[|s| - 1])
  }

  /** `s` is exactly how `str(n)` writes n: digits only, no leading zero, reading back as n. */
  predicate IsDecimalOf(s: string, n: nat) {
    0 < |s| && AllDigits(s) && Parse(s) == n && (|s| > 1 ==> s[0] != '0')
  }

  /** `str(n)` for a non-negative integer: no sign, no leading zeros. */
  function FromNat(n: nat): (s: string)
    ensures IsDecimalOf(s, n)
    decreases n
  {
    if n < 10 then [DigitChar(n)]
    else
      var prefix := FromNat(n / 10);
      var s := prefix + [DigitChar(n % 10)];
      assert s[..|s| - 1] == prefix;
      s
  }

  /**
   `IsDecimalOf` pins the text, not just the value: the only string that
   writes n this way is `FromNat(n)`.
   */
  lemma {:induction false} DecimalOfUnique(s: string, n: nat)
    requires IsDecimalOf(s, n)
    ensures s == FromNat(n)
    decreases |s|
  {
    var last := s[|s| - 1];
    if |s| == 1 {
      assert Parse(s) == Parse(s[..0]) * 10 + DigitValue(last);
      assert Parse(s[..0]) == 0;
      assert n == DigitValue(last) < 10;
      assert DigitChar(DigitValue(last)) == last;
      assert s == [last];
    } else {
      var prefix := s[..|s| - 1];
      assert prefix[0] == s[0];
      assert n / 10 == Parse(prefix) && n % 10 == DigitValue(last);
      if |prefix| == 1 {
        assert IsDecimalOf(prefix, Parse(prefix));
      } else {
        assert IsDecimalOf(prefix, Parse(prefix));
        DecimalOfUnique(prefix, Parse(prefix));
      }
      assert Parse(prefix) > 0;
      assert DigitChar(DigitValue(last)) == last;
      assert s == prefix + [last];
    }
  }

}
