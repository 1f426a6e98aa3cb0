/** Numbers in positional notation, in their shortest form. */
module Numerals {
  import opened Bits

  const DIGITS: string := "0123456789abcdef"

  function DigitChar(d: nat): (c: char)
    requires d < 16
    ensures c as int == if d < 10 then '0' as int + d else 'a' as int + d - 10
  {
    DIGITS[d]
  }

  predicate IsDigit(c: char) { '0' <= c <= '9' || 'a' <= c <= 'f' }

  function NumText(n: nat, base: nat): (s: string)
    requires 2 <= base <= 16
    ensures s != "" && forall i | 0 <= i < |s| :: IsDigit(s[i])
  {
    (if n < base then "" else NumText(n / base, base)) + [DigitChar(n % base)]
  }

  lemma NumTextStep(n: nat, base: nat)
    requires 2 <= base <= 16
    ensures n < base ==> NumText(n, base) == [DigitChar(n)]
    ensures n >= base ==> NumText(n, base) == NumText(n / base, base) + [DigitChar(n % base)]
  {
    hide DigitChar;
    if n < base { SmallMod(n, base); }
  }

  lemma Divided(n: nat, base: nat)
    requires base >= 2
    ensures n / base * base + n % base == n && (n > 0 ==> n / base < n)
  {
    var q := n / base;
    assert q * base == 2 * q + q * (base - 2);
  }
}
