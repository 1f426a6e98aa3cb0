/** The instruction set word by word: what each of the 2^32 words does, from its fields
    and in numbers, against decode.sv, alu.sv and pc_cal.sv. */
module Reference {
  import opened Bits
  import opened Isa
  import opened Tkb
  import opened Agreement

  // The fields of a word.
  function Operation(w: Word): nat { w / 2 % 16 }
  function Function(w: Word): nat { w / 0x20 % 8 }
  function Rd(w: Word): Reg { w / 0x800_0000 }
  function Ra(w: Word): Reg { w / 0x40_0000 % 32 }
  function Rb(w: Word): Reg { w / 0x2_0000 % 32 }
  function Imm16(w: Word): Half { w / 0x400 % 0x1_0000 }
  function Imm12(w: Word): nat { Imm16(w) % 0x1000 }
  function Offset(w: Word): int { if Imm12(w) < 0x800 then Imm12(w) else Imm12(w) - 0x1000 }

  /** Two registers, or one and a distance. */
  function Calculated(f: nat, a: Word, b: Word, n: nat): Word {
    if f == 6 then ToWord(a + b)
    else if f == 7 then Apply(LAnd, a, b)
    else if f == 5 then Apply(LOr, a, b)
    else if f == 3 then Apply(LXor, a, b)
    else if f == 0 then MODULUS - 1 - a
    else if f == 1 then Times2(a, n)
    else if f == 2 then Over2(a, n)
    else SignedOver2(a, n)
  }

  /** A register and an immediate; b is the register that is built up from halves. */
  function WithImmediate(w: Word, a: Word, b: Word): Word {
    var f := Function(w);
    if f == 6 then ToWord(a + Offset(w))
    else if f == 1 then Imm16(w)
    else if f == 2 then ToWord(b * 0x1_0000 + Imm16(w))
    else Calculated(f, a, Imm12(w), Imm16(w) % 32)
  }

  predicate Compares(f: nat, a: Word, b: Word) {
    if f == 1 then a == b else if f == 3 then a != b else f == 7 && (a - b) % MODULUS >= 0x8000_0000
  }

  function Jumping(w: Word, pc: Word, x: Reg -> Word): Effect {
    var f := Function(w);
    if f == 0 then Effect(Put(Rd(w), pc), ToWord(pc + 1 + Offset(w)))
    else if f == 2 then Effect(Put(Rd(w), pc), ToWord(x(Ra(w)) + Offset(w)))
    else Effect(Keep, if Compares(f, x(Ra(w)), x(Rd(w))) then ToWord(pc + 1 + Offset(w)) else Inc(pc))
  }

  function Managing(w: Word, x: Reg -> Word): Action {
    var f := Function(w);
    if f == 7 then StartThread(Rd(w), x(Ra(w)), x(Rb(w)))
    else if f == 5 then OnThread(Sleep, x(Ra(w)))
    else if f == 2 then OnThread(Wake, x(Ra(w)))
    else if f == 0 then OnThread(Kill, x(Ra(w)))
    else Keep
  }

  function Does(w: Word, pc: Word, x: Reg -> Word): Effect {
    var op := Operation(w);
    if op == 15 || op == 12 then
      Effect(Put(Rd(w), Calculated(Function(w), x(Ra(w)), x(Rb(w)), Imm16(w) % 32)), Inc(pc))
    else if op == 14 then Effect(Put(Rd(w), WithImmediate(w, x(Ra(w)), x(Rb(w)))), Inc(pc))
    else if op == 9 then Effect(Put(Rd(w), WithImmediate(w, x(Ra(w)), x(Rd(w)))), Inc(pc))
    else if op == 8 then
      var addr := WithImmediate(w, x(Ra(w)), x(Rd(w)));
      Effect(if w / 0x100 % 2 == 1 then FetchFrom(Rd(w), addr) else StoreTo(addr, x(Rd(w))), Inc(pc))
    else if op == 10 then Jumping(w, pc, x)
    else if op == 6 then Effect(Managing(w, x), Inc(pc))
    else Effect(Keep, Inc(pc))
  }

  lemma Shifted(a: Word, imm: Half)
    ensures ShiftLeft(a, imm) == Times2(a, imm % 32) && ShiftRight(a, imm) == Over2(a, imm % 32)
    ensures ShiftArith(a, imm) == SignedOver2(a, imm % 32)
  {
    ShiftLeftExact(a, imm);
    ShiftRightExact(a, imm);
    ShiftArithExact(a, imm);
    SignedBack(ShiftArith(a, imm));
  }

  lemma OffsetExtends(w: Word)
    ensures SignExt12(Imm16(w)) == ToWord(Offset(w))
  {}

  lemma AluOnRegisters(c: Ctrl, a: Word, b: Word)
    requires !c.iType
    ensures Alu(c, a, b) == Calculated(c.aluOp, a, b, c.imm % 32)
  {
    Shifted(a, c.imm);
    AddIsSum(a, b);
    hide ShiftLeft, ShiftRight, ShiftArith, Wordwise, Pow2, Signed, Add, ToWord;
  }

  lemma AluOnImmediate(w: Word, c: Ctrl, a: Word, b: Word)
    requires c.iType && c.aluOp == Function(w) && c.imm == Imm16(w)
    ensures Alu(c, a, b) == WithImmediate(w, a, b)
  {
    Shifted(a, c.imm);
    OffsetExtends(w);
    Wraps(a, Offset(w));
    HighHalf(b, c.imm);
    hide ShiftLeft, ShiftRight, ShiftArith, Wordwise, Pow2, Signed, Add, ToWord, SignExt12, Offset;
  }

  /** The classes that write a result and do nothing else. */
  lemma CalculationDecoded(w: Word)
    requires Operation(w) in {15, 12, 14, 9}
    ensures var c := Decode(w);
            && c.wrEn && !c.memRd && !c.memWr && c.trdOp == NoOp && c.jump == NoJump
            && c.rd == Rd(w) && c.ra == Ra(w) && c.rb == (if Operation(w) == 9 then Rd(w) else Rb(w))
            && c.aluOp == Function(w) && c.imm == Imm16(w) && c.iType == (Operation(w) in {14, 9})
  {}

  lemma CalculationDoes(w: Word, pc: Word, x: Reg -> Word)
    requires Operation(w) in {15, 12, 14, 9}
    ensures Performed(Decode(w), pc, x) == Does(w, pc, x)
  {
    var c := Decode(w);
    CalculationDecoded(w);
    hide Decode, Alu, Calculated, WithImmediate, Performed, Rd, Ra, Rb, Imm16, Function;
    PerformedAlu(c, pc, x);
    if c.iType { AluOnImmediate(w, c, x(c.ra), x(c.rb)); } else { AluOnRegisters(c, x(c.ra), x(c.rb)); }
  }

  lemma AccessDecoded(w: Word)
    requires Operation(w) == 8
    ensures var c := Decode(w);
            && c.memRd == (w / 0x100 % 2 == 1) && c.memWr == !c.memRd && c.trdOp == NoOp && c.jump == NoJump
            && c.rd == Rd(w) && c.ra == Ra(w) && c.rb == Rd(w)
            && c.aluOp == Function(w) && c.imm == Imm16(w) && c.iType
  {}

  lemma PerformedAccess(c: Ctrl, pc: Word, x: Reg -> Word)
    requires (c.memRd || c.memWr) && c.trdOp == NoOp && c.jump == NoJump
    ensures var addr := Alu(c, x(c.ra), x(c.rb));
            Performed(c, pc, x) == Effect(if c.memRd then FetchFrom(c.rd, addr) else StoreTo(addr, x(c.rb)), Inc(pc))
  {
    hide Alu, Target, Inc;
  }

  lemma AccessDoes(w: Word, pc: Word, x: Reg -> Word)
    requires Operation(w) == 8
    ensures Performed(Decode(w), pc, x) == Does(w, pc, x)
  {
    var c := Decode(w);
    AccessDecoded(w);
    hide Decode, Alu, WithImmediate, Performed, Rd, Ra, Rb, Imm16, Function;
    PerformedAccess(c, pc, x);
    AluOnImmediate(w, c, x(c.ra), x(c.rb));
  }

  lemma JumpDoes(w: Word, pc: Word, x: Reg -> Word)
    requires Operation(w) == 10
    ensures Performed(Decode(w), pc, x) == Does(w, pc, x)
  {
    var c := Decode(w);
    OffsetExtends(w);
    Wraps(pc, Offset(w));
    Wraps(x(c.ra), Offset(w));
    EqualExact(c, x(c.ra), x(c.rb));
    hide Alu, SignExt12, Offset, ToWord, Add;
  }

  lemma OtherDoes(w: Word, pc: Word, x: Reg -> Word)
    requires Operation(w) !in {15, 12, 14, 9, 8, 10}
    ensures Performed(Decode(w), pc, x) == Does(w, pc, x)
  {
    hide Alu, Target;
  }

  /** Every word, decoded and executed, does what the tables say; words whose operation
      code or function is not in them do nothing. */
  lemma EveryWord(w: Word, pc: Word, x: Reg -> Word)
    ensures Performed(Decode(w), pc, x) == Does(w, pc, x)
  {
    if Operation(w) in {15, 12, 14, 9} { CalculationDoes(w, pc, x); }
    else if Operation(w) == 8 { AccessDoes(w, pc, x); }
    else if Operation(w) == 10 { JumpDoes(w, pc, x); }
    else { OtherDoes(w, pc, x); }
  }
}
