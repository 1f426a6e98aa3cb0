/** Numbers as strings of binary digits, as the assembler and the simulator
    handle them (assembler.py, simulator.py). */
module Bits {

  /** The first digit is the highest. */
  predicate Digits(s: string) {
    forall i | 0 <= i < |s| :: s[i] == '0' || s[i] == '1'
  }

  function Pow2(n: nat): (p: nat)
    ensures p >= 1
  {
    if n == 0 then 1 else 2 * Pow2(n - 1)
  }

  function Digit(c: char): (d: nat) ensures d <= 1 { if c == '1' then 1 else 0 }

  /** `int(s, 2)`, with the empty string as 0. */
  function Val(s: string): (v: nat)
    ensures v < Pow2(|s|)
    decreases |s|
  {
    if s == "" then 0 else 2 * Val(s[..|s| - 1]) + Digit(s[|s| - 1])
  }

  /** `bin(n)[2:]` */
  function Bin(n: nat): (s: string)
    ensures |s| >= 1 && Digits(s) && Val(s) == n
    ensures |s| > 1 ==> Pow2(|s| - 1) <= n
  {
    var d := if n % 2 == 1 then "1" else "0";
    if n < 2 then assert d[..0] == ""; d else
      var high := Bin(n / 2);
      assert (high + d)[..|high + d| - 1] == high;
      high + d
  }

  function Zeros(n: nat): (s: string)
    ensures |s| == n && Val(s) == 0 && Digits(s)
  {
    if n == 0 then "" else
      var z := Zeros(n - 1);
      assert (z + "0")[..n - 1] == z;
      z + "0"
  }

  lemma {:induction false} ValCat(a: string, b: string)
    ensures Val(a + b) == Val(a) * Pow2(|b|) + Val(b)
    decreases |b|
  {
    hide Pow2, Val;
    if b == "" {
      assert a + b == a;
      assert Pow2(|b|) == 1 && Val(b) == 0 by { NoDigits(); }
    } else {
      var low, c := b[..|b| - 1], b[|b| - 1];
      assert a + b == (a + low) + [c] && b == low + [c];
      ValCat(a, low);
      ValSnoc(a + low, c);
      ValSnoc(low, c);
      Twice(Val(a), Pow2(|low|));
    }
  }

  lemma NoDigits()
    ensures Pow2(0) == 1 && Val("") == 0
  {}

  lemma ValSnoc(s: string, c: char)
    ensures Val(s + [c]) == 2 * Val(s) + Digit(c)
    ensures Pow2(|s + [c]|) == 2 * Pow2(|s|)
  {
    assert (s + [c])[..|s|] == s;
  }

  lemma Twice(a: nat, p: nat)
    ensures a * (2 * p) == 2 * (a * p)
  {}

  /** `l_ext`: digits padded with zeros to at least w of them. */
  function LExt(s: string, w: nat): (r: string)
    ensures Val(r) == Val(s) && |r| == if |s| < w then w else |s|
    ensures Digits(s) ==> Digits(r)
  {
    if |s| < w then ValCat(Zeros(w - |s|), s); Zeros(w - |s|) + s else s
  }

  /** A number in w digits has exactly w of them when it fits, and more otherwise. */
  lemma FieldWidth(n: nat, w: nat)
    requires w >= 1
    ensures |LExt(Bin(n), w)| == w <==> n < Pow2(w)
    ensures |LExt(Bin(n), w)| >= w
  {
    var s := Bin(n);
    if |s| <= w { PowMono(|s|, w); } else { PowMono(w, |s| - 1); }
  }

  lemma {:induction false} PowMono(a: nat, b: nat)
    requires a <= b
    ensures Pow2(a) <= Pow2(b)
    decreases b
  {
    if a < b { PowMono(a, b - 1); }
  }

  /** `bindigits`: the two's complement of n in w digits. */
  function BinDigits(n: int, w: nat): (s: string)
    requires w >= 1
    ensures |s| == w && Val(s) == n % Pow2(w) && Digits(s)
  {
    FieldWidth(n % Pow2(w), w);
    LExt(Bin(n % Pow2(w)), w)
  }

  function Cut(v: nat, d: nat, m: nat): nat
    requires d > 0 && m > 0
  {
    v / d % m
  }

  /** A slice of a digit string is the same slice of the number: what `ins[hi:lo]`
      means in the hardware. */
  lemma Slice(s: string, i: nat, j: nat)
    requires i <= j <= |s|
    ensures Cut(Val(s), Pow2(|s| - j), Pow2(j - i)) == Val(s[i..j])
  {
    var a, b, c := s[..i], s[i..j], s[j..];
    assert s == s[..j] + c && s[..j] == a + b;
    ValCat(s[..j], c);
    ValCat(a, b);
    DivModUnique(Val(s[..j]), Pow2(|c|), Val(c));
    DivModUnique(Val(a), Pow2(|b|), Val(b));
  }

  lemma DivModUnique(q: int, d: nat, r: nat)
    requires r < d
    ensures (q * d + r) / d == q && (q * d + r) % d == r
  {
    var n := q * d + r;
    var k := n / d - q;
    assert k * d == r - n % d;
    if k != 0 { AwayFromZero(k, d); }
  }

  lemma AwayFromZero(k: int, d: int)
    requires k != 0 && d > 0
    ensures k * d >= d || k * d <= -d
  {
    if k > 0 { assert k * d == d + (k - 1) * d; } else { assert k * d == -d - (-k - 1) * d; }
  }

  lemma SmallMod(v: nat, p: nat)
    requires v < p
    ensures v % p == v
  {}

  // ------------------------------------------------- the simulator's arithmetic

  /** `invert` */
  method Invert(s: string) returns (ret: string)
    requires Digits(s)
    ensures |ret| == |s| && Val(ret) == Pow2(|s|) - 1 - Val(s)
  {
    ret := "";
    for i := 0 to |s|
      invariant |ret| == i && Val(ret) == Pow2(i) - 1 - Val(s[..i])
    {
      var c := if s[i] == '0' then '1' else '0';
      assert (ret + [c])[..i] == ret;
      assert s[..i + 1][..i] == s[..i];
      ret := ret + [c];
    }
    assert s[..|s|] == s;
  }

  /** `full_adder`: the carry ripples from the last digit to the first. */
  method FullAdder(str1: string, str2: string) returns (ret: string)
    requires |str1| == 32 && |str2| == 32 && Digits(str1) && Digits(str2)
    ensures |ret| == 32 && Val(ret) == (Val(str1) + Val(str2)) % Pow2(32)
  {
    hide Pow2, Val, Weight;
    var c := 0;
    ret := "";
    var i := 32;
    assert Val(str1[32..]) == 0 && Val(str2[32..]) == 0 && Val(ret) == Weight(c, 0) == 0 by { EmptyVal(); }
    while i > 0
      invariant 0 <= i <= 32 && 0 <= c <= 1 && |ret| == 32 - i
      invariant Val(str1[i..]) + Val(str2[i..]) == Val(ret) + Weight(c, 32 - i)
    {
      i := i - 1;
      ghost var low1, low2, low := str1[i + 1..], str2[i + 1..], ret;
      ghost var carry := c;
      var tmp;
      if str1[i] == str2[i] && str1[i] == '1' {
        tmp := if c != 0 then '1' else '0';
        c := 1;
      } else if str1[i] != str2[i] {
        tmp := if c != 0 then '0' else '1';
        c := if c == 1 then 1 else 0;
      } else {
        tmp := if c == 1 then '1' else '0';
        c := 0;
      }
      assert str1[i..] == [str1[i]] + low1 && str2[i..] == [str2[i]] + low2;
      ValCons(str1[i], low1);
      ValCons(str2[i], low2);
      ValCons(tmp, low);
      Column(Digit(str1[i]), Digit(str2[i]), carry, Digit(tmp), c, |low|);
      ret := [tmp] + ret;
    }
    assert str1[0..] == str1 && str2[0..] == str2;
    assert Weight(c, 32) == c * Pow2(32) by { WeightIsProduct(c, 32); }
    DivModUnique(c, Pow2(32), Val(ret));
  }

  function Weight(c: nat, n: nat): (w: nat)
    requires c <= 1
  {
    if c == 1 then Pow2(n) else 0
  }

  /** One column of the addition: 2 * carry out + digit = sum of the digits + carry in. */
  lemma Column(a: nat, b: nat, c: nat, sum: nat, out: nat, n: nat)
    requires a <= 1 && b <= 1 && c <= 1 && sum <= 1 && out <= 1 && 2 * out + sum == a + b + c
    ensures Weight(a, n) + Weight(b, n) + Weight(c, n) == Weight(out, n + 1) + Weight(sum, n)
  {}

  lemma WeightIsProduct(c: nat, n: nat)
    requires c <= 1
    ensures Weight(c, n) == c * Pow2(n)
  {}

  lemma EmptyVal()
    ensures Val("") == Weight(0, 0) == 0
  {}

  lemma ValCons(c: char, s: string)
    ensures Val([c] + s) == Weight(Digit(c), |s|) + Val(s)
  {
    hide Pow2, Val, Weight, Digit;
    ValCat([c], s);
    OneDigit(c);
    WeightIsProduct(Digit(c), |s|);
  }

  lemma OneDigit(c: char)
    ensures Val([c]) == Digit(c)
  {
    assert [c][..0] == "";
  }

  /** The signed reading of 32 bits. */
  function Signed32(n: int): int {
    var w := n % 0x1_0000_0000;
    if w < 0x8000_0000 then w else w - 0x1_0000_0000
  }

  lemma SignBit(n: int)
    ensures BinDigits(n, 32)[0] == '1' <==> Signed32(n) < 0
    ensures Pow2(32) == 0x1_0000_0000
  {
    hide Pow2, Val, BinDigits;
    var s := BinDigits(n, 32);
    Pow2Is32();
    assert s == [s[0]] + s[1..];
    ValCons(s[0], s[1..]);
  }

  lemma Pow2Is32()
    ensures Pow2(31) == 0x8000_0000 && Pow2(32) == 0x1_0000_0000
  {
    assert Pow2(8) == 256;
    assert Pow2(16) == 0x1_0000;
    assert Pow2(24) == 0x100_0000;
    assert Pow2(31) == 0x8000_0000;
  }

  /** `twos_comp_less_than`. With two clear sign bits the numbers themselves are
      compared, which is the signed comparison of their low words exactly when
      dropping the high bits keeps their order. */
  method TwosCompLessThan(num1: int, num2: int) returns (r: bool)
    ensures (r <==> Signed32(num1) < Signed32(num2))
            <==> (Signed32(num1) >= 0 && Signed32(num2) >= 0 ==>
                    (num1 < num2 <==> Signed32(num1) < Signed32(num2)))
    ensures -0x8000_0000 <= num1 < 0x1_0000_0000 && -0x8000_0000 <= num2 < 0x1_0000_0000 ==>
              (r <==> Signed32(num1) < Signed32(num2))
  {
    hide Pow2, Val, BinDigits;
    var s1, s2 := BinDigits(num1, 32), BinDigits(num2, 32);
    SignBit(num1);
    SignBit(num2);
    if -0x8000_0000 <= num1 < 0x1_0000_0000 { NoWrap(num1); }
    if -0x8000_0000 <= num2 < 0x1_0000_0000 { NoWrap(num2); }
    if s1[0] == '0' && s2[0] == '0' {
      r := num1 < num2;
    } else if s1[0] == '0' && s2[0] == '1' {
      r := false;
    } else if s1[0] == '1' && s2[0] == '0' {
      r := true;
    } else {
      var i1 := Invert(s1);
      var i2 := Invert(s2);
      r := Val(i1) > Val(i2);
    }
  }

  lemma NoWrap(n: int)
    requires -0x8000_0000 <= n < 0x1_0000_0000
    ensures Signed32(n) >= 0 ==> n == Signed32(n)
  {}
}
