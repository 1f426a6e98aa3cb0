/** Hexadecimal text in the C++ assembler: printing bytes and words
    (primitives.cpp, primitives.h), reading numbers (ustrop.h, ustrop.cpp) and
    turning hexadecimal text back into bytes (x2b.cpp). */
module Hex {
  import opened Options
  import opened Bits
  import opened Numerals

  type Byte = n: nat | n < 256
  type Nibble = n: nat | n < 16

  function HexChar(v: Nibble): char { DigitChar(v) }

  /** `get_digit_value`: both cases of the letters, whatever the base. */
  function DigitValue(c: char): Option<Nibble> {
    if '0' <= c <= '9' then Some(c as nat - '0' as nat)
    else if 'a' <= c <= 'f' then Some(c as nat - 'a' as nat + 10)
    else if 'A' <= c <= 'F' then Some(c as nat - 'A' as nat + 10)
    else None
  }

  lemma DigitOfChar(v: Nibble)
    ensures DigitValue(HexChar(v)) == Some(v) && IsHex(HexChar(v)) && !IsWhitespace(HexChar(v))
  {}

  // ----------------------------------------------------------------- printing

  function Pair(b: Byte): string { [HexChar(b / 16), HexChar(b % 16)] }

  /** Two digits a byte, the last byte first: the number the bytes stand for when
      the lowest comes first. */
  function HexOf(bytes: seq<Byte>): (s: string)
    ensures |s| == 2 * |bytes|
  {
    if bytes == [] then "" else HexOf(bytes[1..]) + Pair(bytes[0])
  }

  /** `dynamicHexBuilder`: a nibble at a time, from the low one of the first byte. */
  method DynamicHexBuilder(ui: seq<Byte>) returns (interm: string)
    ensures interm == HexOf(ui)
  {
    interm := "";
    var ind, tbl := 0, 0;
    while ind < |ui|
      invariant 0 <= ind <= |ui| && (tbl == 0 || (tbl == 4 && ind < |ui|))
      invariant interm == (if tbl == 4 then [HexChar(ui[ind] % 16)] else "") + HexOf(ui[..ind])
      decreases |ui| - ind, 8 - tbl
    {
      var val := if tbl == 0 then ui[ind] % 16 else ui[ind] / 16 % 16;
      ghost var before := HexOf(ui[..ind]);
      interm := [HexChar(val)] + interm;
      tbl := tbl + 4;
      if tbl == 8 {
        HexSnoc(ui[..ind], ui[ind]);
        assert ui[..ind + 1] == ui[..ind] + [ui[ind]];
        assert interm == Pair(ui[ind]) + before;
        ind, tbl := ind + 1, 0;
      }
    }
    assert ui[..|ui|] == ui;
  }

  lemma {:induction false} HexSnoc(bytes: seq<Byte>, b: Byte)
    ensures HexOf(bytes + [b]) == Pair(b) + HexOf(bytes)
  {
    if bytes != [] {
      assert (bytes + [b])[1..] == bytes[1..] + [b];
      HexSnoc(bytes[1..], b);
    } else {
      assert HexOf([b]) == HexOf([]) + Pair(b);
    }
  }

  /** Appending bytes puts their digits in front. */
  lemma {:induction false} HexCat(a: seq<Byte>, b: seq<Byte>)
    ensures HexOf(a + b) == HexOf(b) + HexOf(a)
    decreases |a|
  {
    if a == [] {
      assert a + b == b;
    } else {
      assert (a + b)[1..] == a[1..] + b;
      HexCat(a[1..], b);
    }
  }

  // ------------------------------------------------------------------- reading

  function Power(base: nat, n: nat): nat { if n == 0 then 1 else base * Power(base, n - 1) }

  /** The positional value of a digit string; none when a character is no digit. */
  function Positional(s: string, base: nat): Option<nat>
    decreases |s|
  {
    if s == "" then Some(0) else
      var high, d := Positional(s[..|s| - 1], base), DigitValue(s[|s| - 1]);
      if high.None? || d.None? then None else Some(high.value * base + d.value)
  }

  /** `has_prefix`: the rest of a string that is longer than its prefix, or "". */
  function AfterPrefix(s: string, prefix: string): string {
    if |prefix| < |s| && prefix <= s then s[|prefix|..] else ""
  }

  /** What a numeral means: 0x, o and - in front, and modulus m at the end. */
  function Interpreted(key: string, m: nat): Option<nat>
    requires m > 0
  {
    var hex, oct := AfterPrefix(key, "0x"), AfterPrefix(key, "o");
    var base := if hex != "" then 16 else if oct != "" then 8 else 10;
    var body := if hex != "" then hex else if oct != "" then oct else key;
    if body == "" then None
    else
      var neg := body[0] == '-';
      var v := Positional(if neg then body[1..] else body, base);
      if v.None? then None else Some((if neg then 0 - v.value else v.value) % m)
  }

  /** `numeric_interpret`, for an unsigned type of modulus m. */
  method NumericInterpret(key: string, m: nat) returns (r: Option<nat>)
    requires m > 0
    ensures r == Interpreted(key, m)
  {
    var base := 10;
    var unprefd := AfterPrefix(key, "0x");
    if unprefd != "" {
      base := 16;
    } else {
      unprefd := AfterPrefix(key, "o");
      if unprefd != "" { base := 8; } else { unprefd := key; }
    }
    if |unprefd| == 0 { return None; }
    var neg := unprefd[0] == '-';
    if neg { unprefd := unprefd[1..]; }
    r := ReadDigits(unprefd, base, m);
    if neg && r.Some? {
      ModMinus(Positional(unprefd, base).value, m);
      r := Some((0 - r.value) % m);
    }
  }

  /** Its loops: the digits from the last to the first, every product and sum
      wrapping around. */
  method ReadDigits(s: string, base: nat, m: nat) returns (r: Option<nat>)
    requires m > 0
    ensures r == if Positional(s, base).None? then None else Some(Positional(s, base).value % m)
  {
    var ret: nat, itr: nat := 0, 0;
    NothingRead(s, base, m);
    hide ReadSoFar, DigitValue, Power, Positional;
    while itr < |s|
      invariant itr <= |s| && ret < m && ReadSoFar(s, itr, base, m, ret)
    {
      var multiplier := Multiplier(base, itr, m);
      var d := DigitValue(s[|s| - 1 - itr]);
      ReadStep(s, itr, base, m, ret, multiplier);
      if d.None? { return None; }
      ret := Added(ret, d.value, multiplier, m);
      itr := itr + 1;
    }
    AllRead(s, base, m, ret);
    r := Some(ret);
  }

  /** A digit's product and the sum so far, in the width of the type. */
  function Added(ret: nat, d: nat, p: nat, m: nat): (r: nat)
    requires m > 0
    ensures r < m
  {
    (ret + d * p) % m
  }

  /** The last itr digits are worth ret. */
  ghost predicate ReadSoFar(s: string, itr: nat, base: nat, m: nat, ret: nat)
    requires itr <= |s| && m > 0
  {
    var low := Positional(s[|s| - itr..], base);
    low.Some? && low.value % m == ret
  }

  lemma NothingRead(s: string, base: nat, m: nat)
    requires m > 0
    ensures ReadSoFar(s, 0, base, m, 0)
  {
    assert s[|s|..] == "";
  }

  lemma AllRead(s: string, base: nat, m: nat, ret: nat)
    requires m > 0 && ReadSoFar(s, |s|, base, m, ret)
    ensures Positional(s, base).Some? && Positional(s, base).value % m == ret
  {
    hide Positional;
    assert s[0..] == s;
  }

  lemma ReadStep(s: string, itr: nat, base: nat, m: nat, ret: nat, p: nat)
    requires m > 0 && itr < |s| && ReadSoFar(s, itr, base, m, ret) && p == Power(base, itr) % m
    ensures var d := DigitValue(s[|s| - 1 - itr]);
            if d.None? then Positional(s, base).None?
            else ReadSoFar(s, itr + 1, base, m, Added(ret, d.value, p, m))
  {
    hide Positional, DigitValue, Power;
    var c, low := s[|s| - 1 - itr], s[|s| - itr..];
    assert s[|s| - (itr + 1)..] == [c] + low;
    if DigitValue(c).None? { BadDigit(s, |s| - 1 - itr, base); } else { NextDigit(c, low, base, m, ret, p); }
  }

  lemma NextDigit(c: char, low: string, base: nat, m: nat, ret: nat, p: nat)
    requires m > 0 && DigitValue(c).Some? && Positional(low, base).Some?
    requires Positional(low, base).value % m == ret && p == Power(base, |low|) % m
    ensures var v := Positional([c] + low, base); v.Some? && v.value % m == (ret + DigitValue(c).value * p) % m
  {
    hide Positional, DigitValue, Power;
    PositionalCons(c, low, base);
    Accumulate(DigitValue(c).value, Power(base, |low|), Positional(low, base).value, m);
  }

  method Multiplier(base: nat, n: nat, m: nat) returns (p: nat)
    requires m > 0
    ensures p == Power(base, n) % m
  {
    p := 1 % m;
    for i := 0 to n
      invariant p == Power(base, i) % m
    {
      ModTimes(base, Power(base, i), m);
      p := p * base % m;
    }
  }

  lemma Accumulate(d: nat, p: nat, v: nat, m: nat)
    requires m > 0
    ensures (v % m + d * (p % m)) % m == (d * p + v) % m
  {
    ModTimes(d, p, m);
    ModPlus(v, d * (p % m), m);
    ModPlus(v, d * p, m);
    ModPlus(v % m, d * (p % m), m);
  }

  lemma {:induction false} PositionalCons(c: char, s: string, base: nat)
    ensures var d, low := DigitValue(c), Positional(s, base);
            Positional([c] + s, base)
            == if d.None? || low.None? then None else Some(d.value * Power(base, |s|) + low.value)
    decreases |s|
  {
    hide DigitValue;
    if s == "" {
      assert ([c] + s)[..0] == "" && [c] + s == [c];
    } else {
      var init, last := s[..|s| - 1], s[|s| - 1];
      assert ([c] + s)[..|s|] == [c] + init;
      PositionalCons(c, init, base);
      if DigitValue(c).Some? && Positional(init, base).Some? {
        Distribute(DigitValue(c).value, Power(base, |init|), Positional(init, base).value, base);
      }
    }
  }

  lemma Distribute(d: nat, p: nat, v: nat, base: nat)
    ensures (d * p + v) * base == d * (base * p) + v * base
  {}

  lemma {:induction false} BadDigit(s: string, k: nat, base: nat)
    requires k < |s| && DigitValue(s[k]).None?
    ensures Positional(s, base).None?
    decreases |s|
  {
    if k < |s| - 1 { BadDigit(s[..|s| - 1], k, base); }
  }

  lemma ModTimes(a: nat, b: nat, m: nat)
    requires m > 0
    ensures a * (b % m) % m == a * b % m && (b % m) * a % m == a * b % m
  {
    var q, r := b / m, b % m;
    assert a * b == a * r + (a * q) * m;
    ModShift(a * r, a * q, m);
  }

  lemma ModPlus(a: nat, b: nat, m: nat)
    requires m > 0
    ensures (a % m + b) % m == (a + b) % m && (a + b % m) % m == (a + b) % m
  {
    ModShift(a % m + b, a / m, m);
    ModShift(a + b % m, b / m, m);
    assert a == a / m * m + a % m && b == b / m * m + b % m;
  }

  lemma ModShift(x: nat, k: nat, m: nat)
    requires m > 0
    ensures (x + k * m) % m == x % m
  {
    DivModUnique(x / m + k, m, x % m);
  }

  lemma ModMinus(v: nat, m: nat)
    requires m > 0
    ensures (0 - v % m) % m == (0 - v) % m
  {
    var q, r := v / m, v % m;
    if r == 0 {
      assert 0 - v == -q * m + 0;
      DivModUnique(-q, m, 0);
    } else {
      assert 0 - v == (-q - 1) * m + (m - r) && 0 - r == -1 * m + (m - r);
      DivModUnique(-q - 1, m, m - r);
      DivModUnique(-1, m, m - r);
    }
  }

  // ------------------------------------------------------------ numbers as written

  /** A number with its prefix, its sign behind that, and its digits. */
  function NumeralText(v: int, base: nat): string
    requires base == 8 || base == 10 || base == 16
  {
    Prefix(base) + if v < 0 then "-" + NumText(-v, base) else NumText(v, base)
  }

  function Prefix(base: nat): string { if base == 16 then "0x" else if base == 8 then "o" else "" }

  lemma {:induction false} PositionalBack(n: nat, base: nat)
    requires 2 <= base <= 16
    ensures Positional(NumText(n, base), base) == Some(n)
  {
    hide Positional, NumText, DigitChar, DigitValue;
    NumTextStep(n, base);
    Divided(n, base);
    if n < base {
      PositionalSnoc("", n, 0, base);
      assert "" + [DigitChar(n)] == [DigitChar(n)];
    } else {
      PositionalBack(n / base, base);
      PositionalSnoc(NumText(n / base, base), n % base, n / base, base);
    }
  }

  lemma PositionalSnoc(s: string, d: nat, q: nat, base: nat)
    requires d < 16
    ensures Positional("", base) == Some(0)
    ensures Positional(s, base) == Some(q) ==> Positional(s + [DigitChar(d)], base) == Some(q * base + d)
  {
    DigitOfChar(d);
    assert (s + [DigitChar(d)])[..|s|] == s;
  }

  /** The digits above 9 can be written in capitals. */
  lemma {:induction false} EitherCase(s: string, t: string, base: nat)
    requires |s| == |t|
    requires forall i | 0 <= i < |s| :: s[i] == t[i] || ('A' <= s[i] <= 'F' && t[i] as int == s[i] as int + 32)
    ensures Positional(s, base) == Positional(t, base)
    decreases |s|
  {
    if s != "" { EitherCase(s[..|s| - 1], t[..|t| - 1], base); }
  }

  lemma NoPrefix(s: string, prefix: string, k: nat)
    requires k < |prefix| && (k >= |s| || s[k] != prefix[k])
    ensures AfterPrefix(s, prefix) == ""
  {}

  lemma PrefixOf(body: string)
    requires body != "" && (body[0] == '-' || IsDigit(body[0])) && (|body| > 1 ==> IsDigit(body[1]))
    ensures AfterPrefix("0x" + body, "0x") == body && AfterPrefix("o" + body, "o") == body
    ensures AfterPrefix("o" + body, "0x") == "" && AfterPrefix(body, "0x") == "" && AfterPrefix(body, "o") == ""
  {
    NoPrefix("o" + body, "0x", 0);
    NoPrefix(body, "0x", 1);
    NoPrefix(body, "o", 0);
  }

  lemma BodyInterpreted(body: string, base: nat, m: nat)
    requires m > 0 && (base == 8 || base == 10 || base == 16)
    requires body != "" && (body[0] == '-' || IsDigit(body[0])) && (|body| > 1 ==> IsDigit(body[1]))
    ensures var v := Positional(if body[0] == '-' then body[1..] else body, base);
            Interpreted(Prefix(base) + body, m)
            == if v.None? then None else Some((if body[0] == '-' then 0 - v.value else v.value) % m)
  {
    PrefixOf(body);
    hide AfterPrefix, Positional, IsDigit;
    assert "" + body == body;
  }

  /** A number written in octal, decimal or hexadecimal is read as itself modulo the
      type's modulus, a negative one too. */
  lemma NumeralReadsBack(v: int, base: nat, m: nat)
    requires (base == 8 || base == 10 || base == 16) && m > 0
    ensures Interpreted(NumeralText(v, base), m) == Some(v % m)
  {
    var mag: nat := if v < 0 then -v else v;
    var digits := NumText(mag, base);
    var body := if v < 0 then "-" + digits else digits;
    PositionalBack(mag, base);
    hide NumText, Positional, Prefix, Interpreted;
    assert v < 0 ==> body[1..] == digits;
    BodyInterpreted(body, base, m);
  }

  // ------------------------------------------------------------- printing words

  /** The n lowest hexadecimal digits of a word. */
  function Nibbles(word: nat, n: nat): (s: string)
    ensures |s| == n
  {
    if n == 0 then "" else Nibbles(word / 16, n - 1) + [HexChar(word % 16)]
  }

  function WordHex(word: nat, n: nat): string { "0x" + Nibbles(word, n) }

  /** `genericHexBuilder` for an unsigned word of a multiple of four bits. */
  method GenericHexBuilder(word: nat, bitlength: nat) returns (ret: string)
    requires bitlength % 4 == 0
    ensures ret == WordHex(word, bitlength / 4)
  {
    var c, tbl, interm := word, bitlength, "";
    while tbl > 0
      invariant tbl % 4 == 0 && Nibbles(c, tbl / 4) + interm == Nibbles(word, bitlength / 4)
    {
      var val := c % 16;
      assert Nibbles(c, tbl / 4) + interm == Nibbles(c / 16, (tbl - 4) / 4) + ([HexChar(val)] + interm);
      interm := [HexChar(val)] + interm;
      c := c / 16;
      tbl := tbl - 4;
    }
    ret := "0x" + interm;
  }

  /** Reading a printed word gives the word back, whatever its width. */
  lemma PrintedReadsBack(word: nat, n: nat)
    requires n >= 1 && word < Power(16, n)
    ensures Interpreted(WordHex(word, n), Power(16, n)) == Some(word)
  {
    var s := WordHex(word, n);
    assert s[..2] == "0x" && s[2..] == Nibbles(word, n);
    NibblesValue(word, n);
    assert s[2] != '-' by { NibbleAt(word, n); }
    SmallMod(word, Power(16, n));
  }

  lemma {:induction false} NibblesValue(word: nat, n: nat)
    requires word < Power(16, n)
    ensures Positional(Nibbles(word, n), 16) == Some(word)
  {
    if n > 0 {
      NibblesValue(word / 16, n - 1);
      DigitOfChar(word % 16);
      var s := Nibbles(word, n);
      assert s[..n - 1] == Nibbles(word / 16, n - 1);
    }
  }

  lemma {:induction false} NibbleAt(word: nat, n: nat)
    requires n > 0
    ensures Nibbles(word, n)[0] != '-'
  {
    DigitOfChar(word % 16);
    if n > 1 { NibbleAt(word / 16, n - 1); }
  }

  // ---------------------------------------------------------------- text to bytes

  predicate IsHex(c: char) { 'a' <= c <= 'f' || '0' <= c <= '9' }
  predicate IsWhitespace(c: char) { c == '\n' || c == '\r' || c == ' ' || c == '\t' }

  /** The digits of a text, without white space; none when it holds anything else. */
  function HexText(s: string): Option<string>
    decreases |s|
  {
    if s == "" then Some("") else
      var before, c := HexText(s[..|s| - 1]), s[|s| - 1];
      if before.None? then None
      else if IsWhitespace(c) then before
      else if IsHex(c) then Some(before.value + [c])
      else None
  }

  predicate AllHex(s: string) { forall i | 0 <= i < |s| :: IsHex(s[i]) }

  function PairValue(high: char, low: char): Byte
    requires IsHex(high) && IsHex(low)
  {
    16 * DigitValue(high).value + DigitValue(low).value
  }

  /** The bytes of a digit string, the last pair first. */
  function Unhex(s: string): (bytes: seq<Byte>)
    requires |s| % 2 == 0 && AllHex(s)
    ensures 2 * |bytes| == |s|
    decreases |s|
  {
    if s == "" then [] else [PairValue(s[|s| - 2], s[|s| - 1])] + Unhex(s[..|s| - 2])
  }

  /** What the conversion makes of a text: an error, or the bytes written out. */
  function Converted(text: string): Option<seq<Byte>> {
    var digits := HexText(text);
    if digits.None? || |digits.value| % 2 == 1 then None
    else
      HexTextHex(text);
      Some(Unhex(digits.value))
  }

  lemma {:induction false} HexTextHex(s: string)
    ensures HexText(s).Some? ==> AllHex(HexText(s).value)
    decreases |s|
  {
    if s != "" { HexTextHex(s[..|s| - 1]); }
  }

  /** The loop of x2b: two digits make a byte, which goes to the front of the list. */
  method X2b(text: string) returns (r: Option<seq<Byte>>)
    ensures r == Converted(text)
  {
    hide HexText, Unhex, Interpreted, PairValue;
    var bList: seq<Byte> := [];
    var val := "";
    var i := 0;
    ghost var digits := "";
    assert HexText(text[..0]) == Some(digits + val) && bList == Unhex(digits) by { EmptyText(text); }
    while i < |text|
      invariant i <= |text| && |val| <= 1 && HexText(text[..i]) == Some(digits + val)
      invariant |digits| % 2 == 0 && AllHex(digits) && AllHex(val) && bList == Unhex(digits)
    {
      var buf := text[i];
      TextStep(text, i);
      i := i + 1;
      if IsWhitespace(buf) { continue; }
      if !IsHex(buf) {
        NotHexText(text, i);
        return None;
      }
      assert (digits + val) + [buf] == digits + (val + [buf]);
      val := val + [buf];
      if |val| == 2 {
        var buildable := NumericInterpret("0x" + val, 0x1_0000_0000);
        PairInterpreted(val[0], val[1]);
        assert val == [val[0], val[1]];
        UnhexPair(digits, val[0], val[1]);
        bList := [buildable.value % 256] + bList;
        digits := digits + val;
        val := "";
        assert digits + val == digits;
      }
    }
    assert text[..|text|] == text;
    assert |val| == 0 ==> digits + val == digits;
    if |val| == 1 { return None; }
    r := Some(bList);
  }

  lemma EmptyText(text: string)
    ensures HexText(text[..0]) == Some("" + "") && Unhex("") == []
  {
    assert "" + "" == "";
  }

  lemma TextStep(text: string, i: nat)
    requires i < |text|
    ensures var before, c := HexText(text[..i]), text[i];
            HexText(text[..i + 1]) == if before.None? then None
                                      else if IsWhitespace(c) then before
                                      else if IsHex(c) then Some(before.value + [c])
                                      else None
  {
    assert text[..i + 1][..i] == text[..i];
  }

  lemma UnhexPair(s: string, high: char, low: char)
    requires |s| % 2 == 0 && AllHex(s) && IsHex(high) && IsHex(low)
    ensures AllHex(s + [high, low]) && Unhex(s + [high, low]) == [PairValue(high, low)] + Unhex(s)
  {
    hide DigitValue, IsHex;
    var t := s + [high, low];
    assert t[..|s|] == s && t[|t| - 2] == high && t[|t| - 1] == low;
  }

  lemma PairInterpreted(high: char, low: char)
    requires IsHex(high) && IsHex(low)
    ensures Interpreted("0x" + [high, low], 0x1_0000_0000) == Some(PairValue(high, low) as nat)
  {
    var s := "0x" + [high, low];
    assert s[2..] == [high, low] && s[..2] == "0x";
    assert [high, low][..1] == [high] && [high][..0] == "";
    assert Positional([high], 16) == Some(DigitValue(high).value as nat);
  }

  lemma {:induction false} NotHexText(s: string, n: nat)
    requires n <= |s| && HexText(s[..n]).None?
    ensures HexText(s).None?
    decreases |s| - n
  {
    if n == |s| {
      assert s[..n] == s;
    } else {
      assert s[..n + 1][..n] == s[..n];
      NotHexText(s, n + 1);
    }
  }

  predicate Readable(c: char) { IsDigit(c) || c in {'\n', '\r', ' ', '\t'} }

  function HexDigits(s: string): nat {
    if s == "" then 0 else HexDigits(s[..|s| - 1]) + if IsDigit(s[|s| - 1]) then 1 else 0
  }

  lemma {:induction false} TextExact(s: string)
    ensures HexText(s).Some? <==> forall i | 0 <= i < |s| :: Readable(s[i])
    ensures HexText(s).Some? ==> |HexText(s).value| == HexDigits(s)
    decreases |s|
  {
    if s != "" {
      var init := s[..|s| - 1];
      TextExact(init);
      assert forall i | 0 <= i < |s| :: s[i] == if i < |s| - 1 then init[i] else s[|s| - 1];
    }
  }

  /** A text is converted exactly when it holds white space and an even number of digits,
      small letters only, and nothing else. */
  lemma ConvertedExact(text: string)
    ensures Converted(text).Some?
            <==> (forall i | 0 <= i < |text| :: Readable(text[i])) && HexDigits(text) % 2 == 0
  {
    hide HexText, Unhex;
    TextExact(text);
  }

  // ------------------------------------------------------------------ round trips

  lemma {:induction false} HexOfHex(bytes: seq<Byte>)
    ensures AllHex(HexOf(bytes))
  {
    if bytes != [] {
      HexOfHex(bytes[1..]);
      DigitOfChar(bytes[0] / 16);
      DigitOfChar(bytes[0] % 16);
    }
  }

  /** Printing bytes and reading the digits back gives the bytes. */
  lemma {:induction false} UnhexOfHex(bytes: seq<Byte>)
    ensures AllHex(HexOf(bytes)) && Unhex(HexOf(bytes)) == bytes
  {
    hide Unhex;
    HexOfHex(bytes);
    if bytes == [] {
      EmptyText("");
    } else {
      UnhexOfHex(bytes[1..]);
      DigitOfChar(bytes[0] / 16);
      DigitOfChar(bytes[0] % 16);
      UnhexPair(HexOf(bytes[1..]), HexChar(bytes[0] / 16), HexChar(bytes[0] % 16));
    }
  }

  lemma {:induction false} HexTextOfHex(s: string)
    requires AllHex(s)
    ensures HexText(s) == Some(s)
    decreases |s|
  {
    if s != "" {
      HexTextOfHex(s[..|s| - 1]);
      assert s == s[..|s| - 1] + [s[|s| - 1]];
    }
  }

  lemma {:induction false} HexTextCat(a: string, b: string)
    requires HexText(a).Some? && HexText(b).Some?
    ensures HexText(a + b) == Some(HexText(a).value + HexText(b).value)
    decreases |b|
  {
    if b == "" {
      assert a + b == a && HexText(a).value + HexText(b).value == HexText(a).value;
    } else {
      var init := b[..|b| - 1];
      assert (a + b)[..|a + b| - 1] == a + init;
      HexTextCat(a, init);
      assert HexText(init).Some?;
      assert HexText(a).value + (HexText(init).value + [b[|b| - 1]])
          == (HexText(a).value + HexText(init).value) + [b[|b| - 1]];
    }
  }

  /** A file in hexadecimal mode: one line an instruction (mtsstream.cpp). */
  function HexFile(insts: seq<seq<Byte>>): string {
    if insts == [] then "" else HexOf(insts[0]) + "\n" + HexFile(insts[1..])
  }

  function Backwards(insts: seq<seq<Byte>>): seq<Byte> {
    if insts == [] then [] else Backwards(insts[1..]) + insts[0]
  }

  /** Converting such a file gives every instruction's bytes in order, but the
      instructions from the last to the first. */
  lemma HexFileComesBackwards(insts: seq<seq<Byte>>)
    ensures Converted(HexFile(insts)) == Some(Backwards(insts))
  {
    hide HexText, Unhex, HexFile, Backwards, HexOf;
    HexFileDigits(insts);
    UnhexOfHex(Backwards(insts));
  }

  lemma {:induction false} HexFileDigits(insts: seq<seq<Byte>>)
    ensures HexText(HexFile(insts)) == Some(HexOf(Backwards(insts)))
  {
    if insts != [] {
      var first, rest := HexOf(insts[0]), HexFile(insts[1..]);
      HexFileDigits(insts[1..]);
      HexOfHex(insts[0]);
      HexTextOfHex(first);
      assert (first + "\n")[..|first|] == first;
      HexTextCat(first + "\n", rest);
      HexCat(Backwards(insts[1..]), insts[0]);
    }
  }

  /** A single line always round-trips. */
  lemma OneLineRoundTrip(bytes: seq<Byte>)
    ensures Converted(HexOf(bytes)) == Some(bytes)
    ensures Converted(HexFile([bytes])) == Some(bytes)
  {
    hide HexText, Unhex, HexFile, HexOf;
    UnhexOfHex(bytes);
    HexTextOfHex(HexOf(bytes));
    HexFileComesBackwards([bytes]);
    assert [bytes][1..] == [] && Backwards([bytes]) == Backwards([]) + bytes == bytes;
  }
}
