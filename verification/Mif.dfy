/** The memory initialisation file of the C++ assembler (mtsstream.cpp):
    instructions of any length are cut into words of a fixed width. */
module Mif {
  import opened Hex
  import B = Bits

  /** The byte stream of a program. */
  function Stream(insts: seq<seq<Byte>>): seq<Byte>
    decreases |insts|
  {
    if insts == [] then [] else Stream(insts[..|insts| - 1]) + insts[|insts| - 1]
  }

  function Zeros(n: nat): (z: seq<Byte>)
    ensures |z| == n
  {
    seq(n, _ => 0)
  }

  /** The data of the lines: words of w bytes, the last one filled up with zeros. */
  function Lines(bytes: seq<Byte>, w: nat): seq<string>
    requires w >= 1
    decreases |bytes|
  {
    if bytes == [] then []
    else if |bytes| <= w then [HexOf(bytes + Zeros(w - |bytes|))]
    else [HexOf(bytes[..w])] + Lines(bytes[w..], w)
  }

  /** The depth printed in the header. */
  function Depth(total: nat, w: nat): nat
    requires w >= 1
  {
    total / w + (if total % w != 0 then 1 else 0)
  }

  lemma {:induction false} LinesSnoc(full: seq<Byte>, p: seq<Byte>, w: nat)
    requires w >= 1 && |full| % w == 0 && 1 <= |p| <= w
    ensures Lines(full + p, w) == Lines(full, w) + [HexOf(p + Zeros(w - |p|))]
    decreases |full|
  {
    if full == [] {
      assert full + p == p;
    } else {
      Whole(|full|, w);
      assert (full + p)[..w] == full[..w] && (full + p)[w..] == full[w..] + p;
      LinesSnoc(full[w..], p, w);
      if |full| == w {
        assert full[w..] == [] && full + Zeros(0) == full && full[..w] == full;
      }
      assert Lines(full, w) == [HexOf(full[..w])] + Lines(full[w..], w);
    }
  }

  /** A positive multiple of w is at least w, and stays one without it. */
  lemma Whole(n: nat, w: nat)
    requires w >= 1 && n > 0 && n % w == 0
    ensures n >= w && (n - w) % w == 0
  {
    if n < w { Small(n, w); }
    OneLess(n, w);
  }

  lemma Small(n: nat, w: nat)
    requires n < w
    ensures n % w == n && n / w == 0
  {}

  lemma OneLess(n: nat, w: nat)
    requires w >= 1 && n >= w
    ensures (n - w) % w == n % w && n / w == (n - w) / w + 1
  {
    var q, r := (n - w) / w, (n - w) % w;
    assert n == (q + 1) * w + r;
    B.DivModUnique(q + 1, w, r);
  }

  /** `asm_ostream` in MIF mode */
  class AsmOstream {
    var mifInsts: seq<string>
    const width: nat
    var totalBytes: nat

    ghost predicate Holds(insts: seq<seq<Byte>>)
      reads this
    {
      && width >= 1
      && |mifInsts| == |insts| && (forall i | 0 <= i < |insts| :: mifInsts[i] == HexOf(insts[i]))
      && totalBytes == |Stream(insts)|
    }

    constructor (width: nat)
      requires width >= 1
      ensures Holds([]) && this.width == width
    {
      mifInsts, totalBytes := [], 0;
      this.width := width;
    }

    /** `append` */
    method Append(ui: seq<Byte>, ghost insts: seq<seq<Byte>>)
      requires Holds(insts)
      modifies this
      ensures Holds(insts + [ui])
    {
      var ninst := DynamicHexBuilder(ui);
      mifInsts := mifInsts + [ninst];
      totalBytes := totalBytes + |ui|;
      assert (insts + [ui])[..|insts|] == insts;
    }

    /** `finalize`: the depth, and the data of the lines at addresses 0, 1, ... */
    method Finalize(ghost insts: seq<seq<Byte>>) returns (depth: nat, lines: seq<string>)
      requires Holds(insts)
      ensures depth == Depth(|Stream(insts)|, width)
      ensures lines == Lines(Stream(insts), width)
    {
      hide HexOf, Lines, Blocked;
      depth := totalBytes / width + (if totalBytes % width != 0 then 1 else 0);
      lines := [];
      var bcount, nextLine := 0, "";
      assert insts[..0] == [];
      assert Blocked(Stream(insts[..0]), width, lines, nextLine, bcount) by { NothingYet(width); }
      for wordInd := 0 to |mifInsts|
        invariant Blocked(Stream(insts[..wordInd]), width, lines, nextLine, bcount)
      {
        var currInst := mifInsts[wordInd];
        ghost var inst, done := insts[wordInd], 0;
        ghost var before := Stream(insts[..wordInd]);
        assert insts[..wordInd + 1][..wordInd] == insts[..wordInd];
        assert before + inst[..0] == before && inst[0..] == inst;
        while currInst != ""
          invariant done <= |inst| && currInst == HexOf(inst[done..])
          invariant Blocked(before + inst[..done], width, lines, nextLine, bcount)
          decreases |inst| - done
        {
          assert done < |inst| && currInst == HexOf(inst[done + 1..]) + Pair(inst[done]) by { HexRest(inst, done); }
          var fbyte := [currInst[|currInst| - 2], currInst[|currInst| - 1]];
          currInst := currInst[..|currInst| - 2];
          lines, nextLine, bcount := TakeByte(width, fbyte, lines, nextLine, bcount, before + inst[..done], inst[done]);
          assert before + inst[..done] + [inst[done]] == before + inst[..done + 1];
          done := done + 1;
        }
        assert inst[..done] == inst;
      }
      assert insts[..|insts|] == insts;
      lines := LastLine(width, lines, nextLine, bcount, Stream(insts));
    }
  }

  /** The lines of all whole words so far, and the digits of the bytes left over. */
  ghost predicate Blocked(bytes: seq<Byte>, w: nat, lines: seq<string>, nextLine: string, bcount: nat) {
    && bcount < w && bcount <= |bytes| && (|bytes| - bcount) % w == 0
    && lines == Lines(bytes[..|bytes| - bcount], w)
    && nextLine == HexOf(bytes[|bytes| - bcount..])
  }

  lemma NothingYet(w: nat)
    requires w >= 1
    ensures Blocked([], w, [], "", 0)
  {}

  lemma HexRest(inst: seq<Byte>, k: nat)
    requires k <= |inst| && HexOf(inst[k..]) != ""
    ensures k < |inst| && HexOf(inst[k..]) == HexOf(inst[k + 1..]) + Pair(inst[k])
  {
    assert inst[k..][1..] == inst[k + 1..];
  }

  /** One byte goes in front of the line; a full line is written. */
  method TakeByte(width: nat, fbyte: string, lines: seq<string>, nextLine: string, bcount: nat,
                  ghost bytes: seq<Byte>, ghost b: Byte)
    returns (lines': seq<string>, nextLine': string, bcount': nat)
    requires Blocked(bytes, width, lines, nextLine, bcount) && fbyte == Pair(b)
    ensures Blocked(bytes + [b], width, lines', nextLine', bcount')
  {
    hide HexOf, Lines;
    ghost var full, pending := bytes[..|bytes| - bcount], bytes[|bytes| - bcount..];
    ghost var all := bytes + [b];
    HexSnoc(pending, b);
    lines', nextLine', bcount' := lines, fbyte + nextLine, bcount + 1;
    assert all[..|all| - bcount'] == full && all[|all| - bcount'..] == pending + [b];
    if bcount' >= width {
      LinesSnoc(full, pending + [b], width);
      assert pending + [b] + Zeros(0) == pending + [b];
      assert all == full + (pending + [b]);
      lines', nextLine', bcount' := lines' + [nextLine'], "", 0;
      OneLess(|full| + width, width);
      assert all[..|all|] == all && all[|all|..] == [];
      assert HexOf([]) == "";
    }
  }

  /** The zero filling of the last line. */
  method LastLine(width: nat, lines: seq<string>, nextLine: string, bcount: nat, ghost bytes: seq<Byte>)
    returns (all: seq<string>)
    requires Blocked(bytes, width, lines, nextLine, bcount)
    ensures all == Lines(bytes, width)
  {
    hide HexOf, Lines;
    ghost var full, pending := bytes[..|bytes| - bcount], bytes[|bytes| - bcount..];
    assert bytes == full + pending;
    all := lines;
    if nextLine != "" {
      assert pending != [] && pending + Zeros(0) == pending;
      LinesSnoc(full, pending, width);
      var padded, count := nextLine, bcount;
      ghost var n := 0;
      while count < width
        invariant count == bcount + n <= width && padded == HexOf(pending + Zeros(n))
      {
        HexSnoc(pending + Zeros(n), 0);
        assert pending + Zeros(n) + [0] == pending + Zeros(n + 1);
        padded := "00" + padded;
        count, n := count + 1, n + 1;
      }
      all := all + [padded];
    } else {
      assert full + pending == full;
    }
  }

  /** A line's data is w bytes in digits. */
  predicate IsWord(l: string, w: nat) { |l| == 2 * w && |l| % 2 == 0 && AllHex(l) }

  /** The bytes of the lines, read as words with the lowest byte first. */
  function ReadBack(lines: seq<string>, w: nat): seq<Byte> {
    if lines == [] then []
    else (if IsWord(lines[0], w) then Unhex(lines[0]) else []) + ReadBack(lines[1..], w)
  }

  /** The zero bytes that fill up the last word. */
  function Padding(n: nat, w: nat): (p: nat)
    requires w >= 1
    ensures p < w
  {
    if n % w == 0 then 0 else w - n % w
  }

  lemma DigitsOfWord(word: seq<Byte>, w: nat)
    requires |word| == w
    ensures IsWord(HexOf(word), w)
  {
    HexOfHex(word);
  }

  /** Reading one more line gives its bytes. */
  lemma ReadBackCons(word: seq<Byte>, rest: seq<string>, w: nat)
    requires |word| == w
    ensures ReadBack([HexOf(word)] + rest, w) == word + ReadBack(rest, w)
  {
    DigitsOfWord(word, w);
    UnhexOfHex(word);
    hide HexOf, Unhex;
    assert ([HexOf(word)] + rest)[1..] == rest;
  }

  lemma PaddingOf(n: nat, w: nat)
    requires w >= 1
    ensures n == 0 ==> Padding(n, w) == 0
    ensures 0 < n <= w ==> Padding(n, w) == w - n
    ensures n >= w ==> Padding(n, w) == Padding(n - w, w)
  {
    Small(0, w);
    if n < w { Small(n, w); } else { OneLess(n, w); }
  }

  /** Re-blocking loses nothing and adds nothing but the padding at the end. */
  lemma {:induction false} ReblockingPreserves(bytes: seq<Byte>, w: nat)
    requires w >= 1
    ensures forall i | 0 <= i < |Lines(bytes, w)| :: IsWord(Lines(bytes, w)[i], w)
    ensures ReadBack(Lines(bytes, w), w) == bytes + Zeros(Padding(|bytes|, w))
    decreases |bytes|
  {
    hide HexOf, IsWord, ReadBack, Padding;
    PaddingOf(|bytes|, w);
    if bytes == [] {
      NothingRead(w);
    } else if |bytes| <= w {
      var word := bytes + Zeros(w - |bytes|);
      DigitsOfWord(word, w);
      ReadBackCons(word, [], w);
      NothingRead(w);
      assert Lines(bytes, w) == [HexOf(word)] + [] && word + [] == word;
    } else {
      var word, rest := bytes[..w], Lines(bytes[w..], w);
      ReblockingPreserves(bytes[w..], w);
      DigitsOfWord(word, w);
      ReadBackCons(word, rest, w);
      Regroup(word, bytes[w..], Zeros(Padding(|bytes|, w)));
      assert bytes == word + bytes[w..] && Lines(bytes, w) == [HexOf(word)] + rest;
    }
  }

  lemma NothingRead(w: nat)
    ensures ReadBack([], w) == []
  {}

  lemma Regroup(a: seq<Byte>, b: seq<Byte>, c: seq<Byte>)
    ensures a + (b + c) == (a + b) + c
  {}

  /** There are as many lines as the header says. */
  lemma {:induction false} DepthCountsLines(bytes: seq<Byte>, w: nat)
    requires w >= 1
    ensures |Lines(bytes, w)| == Depth(|bytes|, w)
    ensures Depth(|bytes|, w) * w == |bytes| + Padding(|bytes|, w)
    decreases |bytes|
  {
    hide HexOf;
    if bytes == [] {
      Small(0, w);
    } else if |bytes| <= w {
      if |bytes| < w { Small(|bytes|, w); } else { OneLess(w, w); Small(0, w); }
    } else {
      DepthCountsLines(bytes[w..], w);
      OneLess(|bytes|, w);
      assert Depth(|bytes|, w) == Depth(|bytes| - w, w) + 1;
    }
  }
}
