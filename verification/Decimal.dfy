/**
Decimal text: what the firmware's printf conversions write, and what the
receiver's strict integer tokens mean.
*/
module Decimal {
  predicate IsDigit(c: char) {
    '0' <= c <= '9'
  }

  predicate AllDigits(s: string) {
    forall k :: 0 <= k < |s| ==> IsDigit(s[k])
  }

  function DigitChar(d: nat): (c: char)
    requires d < 10
    ensures IsDigit(c) && DigitValue(c) == d
  {
    ('0' as int + d) as char
  }

  function DigitValue(c: char): (d: nat)
    requires IsDigit(c)
    ensures d < 10
  {
    c as int - '0' as int
  }

  /** The conversion of `%u` and `%lu`. */
  function Unsigned(n: nat): (s: string)
    ensures s != "" && AllDigits(s)
  {
    if n < 10 then [DigitChar(n)] else Unsigned(n / 10) + [DigitChar(n % 10)]
  }

  /** The conversion of `%d` and `%ld`. */
  function Signed(i: int): string {
    if i < 0 then "-" + Unsigned(-i) else Unsigned(i)
  }

  /** Positional value of a string of digits. */
  function DigitsValue(s: string): nat
    requires AllDigits(s)
  {
    if s == "" then 0
    else 10 * DigitsValue(s[..|s| - 1]) + DigitValue(s[|s| - 1])
  }

  predicate HasSign(s: string) {
    s != "" && (s[0] == '-' || s[0] == '+')
  }

  /** The token without the sign, when a sign is allowed and present. */
  function Body(tok: string, allowSign: bool): string {
    if allowSign && HasSign(tok) then tok[1..] else tok
  }

  /** A strict integer token: an optional sign where allowed, then digits only. */
  predicate IsStrictToken(tok: string, allowSign: bool) {
    tok != "" && Body(tok, allowSign) != "" && AllDigits(Body(tok, allowSign))
  }

  /** Python's `int(tok)` on a strict token. */
  function TokenValue(tok: string): int
    requires IsStrictToken(tok, true)
  {
    var magnitude: int := DigitsValue(Body(tok, true));
    if tok[0] == '-' then -magnitude else magnitude
  }

  lemma {:induction false} UnsignedRoundTrip(n: nat)
    ensures DigitsValue(Unsigned(n)) == n
  {
    if n < 10 {
      assert Unsigned(n)[..0] == "";
    } else {
      UnsignedRoundTrip(n / 10);
      var s := Unsigned(n);
      assert s[..|s| - 1] == Unsigned(n / 10);
    }
  }

  /** A printed integer is a strict token exactly where its sign is allowed, and reads back as itself. */
  lemma SignedRoundTrip(i: int, allowSign: bool)
    ensures IsStrictToken(Signed(i), allowSign) <==> i >= 0 || allowSign
    ensures IsStrictToken(Signed(i), true) && TokenValue(Signed(i)) == i
  {
    var s := Signed(i);
    if i < 0 {
      UnsignedRoundTrip(-i);
      assert s[1..] == Unsigned(-i);
      assert !IsDigit(s[0]);
    } else {
      UnsignedRoundTrip(i);
      assert IsDigit(s[0]);
    }
  }

  function Pow10(k: nat): (p: nat)
    ensures p >= 1
  {
    if k == 0 then 1 else 10 * Pow10(k - 1)
  }

  /** A number below 10^k prints in at most k characters, and no fewer than k if it is at least 10^(k-1). */
  lemma {:induction false} UnsignedLength(n: nat, k: nat)
    requires k >= 1
    ensures n < Pow10(k) <==> |Unsigned(n)| <= k
  {
    if k == 1 {
      assert Pow10(1) == 10 * Pow10(0);
      if n >= 10 {
        assert |Unsigned(n / 10)| >= 1;
      }
    } else if n >= 10 {
      UnsignedLength(n / 10, k - 1);
      assert n / 10 < Pow10(k - 1) <==> n < Pow10(k);
    } else {
      assert Pow10(k) == 10 * Pow10(k - 1);
    }
  }

  /** Widths of the unsigned fields the firmware prints. */
  lemma UnsignedWidths(n: nat)
    ensures n < 10 ==> |Unsigned(n)| == 1
    ensures n < 1000 ==> |Unsigned(n)| <= 3
    ensures n < 10000 ==> |Unsigned(n)| <= 4
    ensures n < 100000 ==> |Unsigned(n)| <= 5
    ensures n < 1000000 ==> |Unsigned(n)| <= 6
    ensures n < 10000000000 ==> |Unsigned(n)| <= 10
  {
    assert Pow10(1) == 10 && Pow10(2) == 100 && Pow10(3) == 1000;
    assert Pow10(4) == 10000 && Pow10(5) == 100000 && Pow10(6) == 1000000;
    assert Pow10(7) == 10000000 && Pow10(8) == 100000000;
    assert Pow10(9) == 1000000000 && Pow10(10) == 10000000000;
    UnsignedLength(n, 1);
    UnsignedLength(n, 3);
    UnsignedLength(n, 4);
    UnsignedLength(n, 5);
    UnsignedLength(n, 6);
    UnsignedLength(n, 10);
  }

  lemma SignedWidths(i: int)
    ensures -1000 < i < 1000 ==> |Signed(i)| <= 4
    ensures -100000 < i < 100000 ==> |Signed(i)| <= 6
    ensures -1000000 < i < 1000000 ==> |Signed(i)| <= 7
    ensures -10000000000 < i < 10000000000 ==> |Signed(i)| <= 11
  {
    UnsignedWidths(if i < 0 then -i else i);
  }
}
