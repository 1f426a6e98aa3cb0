/** The processor does what the assembler's commands mean: the assembler's own
    reading of a command (assembler.py) against decode.sv, alu.sv and pc_cal.sv
    applied to the word it emits. */
module Agreement {
  import opened Bits
  import opened Isa
  import opened Tkb

  /** What one instruction does besides choosing the next one. */
  datatype Action =
    | Keep
    | Put(rd: nat, v: Word)
    | FetchFrom(rd: nat, addr: Word)
    | StoreTo(addr: Word, v: Word)
    | OnThread(op: ThreadOp, id: Word)
    | StartThread(rd: nat, start: Word, arg: Word)

  datatype Effect = Effect(action: Action, next: Word)

  function ToWord(v: int): Word { v % MODULUS }

  function Apply(op: Logic, a: Word, b: Word): Word {
    match op case LAnd => BitAnd(a, b) case LOr => BitOr(a, b) case LXor => BitXor(a, b)
  }

  // Products with and quotients by 2^n.
  function Times2(a: Word, n: nat): Word { ToWord(a * Pow2(n)) }
  function Over2(a: Word, n: nat): Word {
    NotLarger(a, Pow2(n));
    a / Pow2(n)
  }
  function SignedOver2(a: Word, n: nat): Word { ToWord(Signed(a) / Pow2(n)) }

  lemma NotLarger(a: nat, p: nat)
    requires p >= 1
    ensures 0 <= a / p <= a
  {
    var q := a / p;
    if p > 1 { assert a == q * p + a % p && q * p == q + q * (p - 1); }
  }

  predicate Holds(cond: Cond, a: Word, b: Word) {
    match cond
    case Eq => a == b
    case Neq => a != b
    case Lt => Sub(a, b) >= 0x8000_0000
  }

  predicate Fits(c: Command) { Registers(c) && Ranges(c) }

  /** The command as the programmer reads it, over the registers x. The link
      value of the jumps is the jump's own address, as in exe.sv. */
  function Meaning(c: Command, pc: Word, x: Reg -> Word): Effect
    requires Fits(c)
  {
    match c
    case AddCmd(rd, ra, rb) => Effect(Put(rd, ToWord(x(ra) + x(rb))), Inc(pc))
    case LogicCmd(op, rd, ra, rb) => Effect(Put(rd, Apply(op, x(ra), x(rb))), Inc(pc))
    case NotCmd(rd, ra) => Effect(Put(rd, MODULUS - 1 - x(ra)), Inc(pc))
    case AddImm(rd, ra, v) => Effect(Put(rd, ToWord(x(ra) + v)), Inc(pc))
    case LogicImm(op, rd, ra, v) => Effect(Put(rd, Apply(op, x(ra), ToWord(v))), Inc(pc))
    case ShiftLeftImm(rd, ra, v) => Effect(Put(rd, Times2(x(ra), Places(v))), Inc(pc))
    case ShiftRightImm(rd, ra, v) => Effect(Put(rd, Over2(x(ra), Places(v))), Inc(pc))
    case ShiftArithImm(rd, ra, v) => Effect(Put(rd, SignedOver2(x(ra), Places(v))), Inc(pc))
    case LoadLow(rd, v) => Effect(Put(rd, ToWord(v)), Inc(pc))
    case LoadHigh(rd, v) => Effect(Put(rd, ToWord(x(rd) * 0x1_0000 + v)), Inc(pc))
    case Store(ra, rb, v) => Effect(StoreTo(ToWord(x(ra) + v), x(rb)), Inc(pc))
    case Load(rd, ra, v) => Effect(FetchFrom(rd, ToWord(x(ra) + v)), Inc(pc))
    case Jal(rd, v) => Effect(Put(rd, pc), ToWord(pc + 1 + v))
    case Jalr(rd, ra, v) => Effect(Put(rd, pc), ToWord(x(ra) + v))
    case BranchCmd(cond, ra, rb, v) =>
      Effect(Keep, if Holds(cond, x(ra), x(rb)) then ToWord(pc + 1 + v) else Inc(pc))
    case ThreadCmd(act, ra) => Effect(OnThread(act, x(ra)), Inc(pc))
    case NewThread(rd, ra, rb) => Effect(StartThread(rd, x(ra), x(rb)), Inc(pc))
  }

  function Places(v: int): nat
    requires InField(v, 5, false)
    ensures Places(v) < 32
  {
    Powers();
    v
  }

  /** What the stages of the processor make of a decoded instruction. */
  function Performed(c: Ctrl, pc: Word, x: Reg -> Word): Effect {
    var o := Execute(c, pc, x(c.ra), x(c.rb));
    Effect(if c.trdOp == Create then StartThread(c.rd, x(c.ra), x(c.rb))
           else if c.trdOp != NoOp then OnThread(c.trdOp, x(c.ra))
           else if c.memRd then FetchFrom(c.rd, o.addr)
           else if c.memWr then StoreTo(o.addr, o.data)
           else if c.wrEn then Put(c.rd, o.data)
           else Keep,
           NextPc(o, pc))
  }

  // ------------------------------------------------------------ the word's parts

  function First(c: Command): string {
    match c
    case BranchCmd(_, _, rb, _) => Field(rb)
    case Store(_, rb, _) => Field(rb)
    case ThreadCmd(_, _) => Zeros(5)
    case _ => Field(c.rd)
  }

  function Rest(c: Command): string {
    match c
    case AddCmd(_, ra, rb) => Field(ra) + Field(rb) + Zeros(9)
    case LogicCmd(_, _, ra, rb) => Field(ra) + Field(rb) + Zeros(9)
    case NewThread(_, ra, rb) => Field(ra) + Field(rb) + Zeros(9)
    case NotCmd(_, ra) => Field(ra) + Zeros(14)
    case ThreadCmd(_, ra) => Field(ra) + Zeros(14)
    case Jal(_, v) => Zeros(5) + ImmBits(v, 12) + Zeros(2)
    case ShiftLeftImm(_, ra, v) => Field(ra) + Zeros(7) + ImmBits(v, 5) + Zeros(2)
    case ShiftRightImm(_, ra, v) => Field(ra) + Zeros(7) + ImmBits(v, 5) + Zeros(2)
    case ShiftArithImm(_, ra, v) => Field(ra) + Zeros(7) + ImmBits(v, 5) + Zeros(2)
    case LoadLow(_, v) => "0" + ImmBits(v, 16) + Zeros(2)
    case LoadHigh(_, v) => "0" + ImmBits(v, 16) + Zeros(2)
    case Load(_, ra, v) => Field(ra) + ImmBits(v, 12) + ("0" + "1")
    case Store(ra, _, v) => Field(ra) + ImmBits(v, 12) + ("0" + "0")
    case _ => Field(c.ra) + ImmBits(c.imm, 12) + Zeros(2)
  }

  function Code(c: Command): string {
    if c.Load? || c.Store? then "1101000" else OpCode(c)
  }

  function LayoutOf(c: Command, atomic: bool): Layout {
    Layout(First(c), Rest(c), Code(c), if atomic then "1" else "0")
  }

  lemma LaidWell(c: Command, atomic: bool)
    requires Fits(c)
    ensures WellFormed(LayoutOf(c, atomic))
  {
    hide Fits, First, Rest, OpCode;
    FirstLength(c);
    RestLength(c);
    CodeLength(c);
  }

  lemma FirstLength(c: Command)
    requires Fits(c)
    ensures |First(c)| == 5
  {
    hide Field, Zeros;
    forall r: nat ensures |Field(r)| >= 5 && (|Field(r)| == 5 <==> r < 32) { FieldExact(r); }
  }

  lemma RestLength(c: Command)
    requires Fits(c)
    ensures |Rest(c)| == 19
  {
    hide Field, BinDigits, InField, Zeros, First;
    forall r: nat ensures |Field(r)| >= 5 && (|Field(r)| == 5 <==> r < 32) { FieldExact(r); }
  }

  lemma LaidOut(c: Command, atomic: bool)
    ensures Encode(c, atomic) == Text(LayoutOf(c, atomic))
  {
    if HasImm12(c) { LaidImm12(c, atomic); }
    else if HasImm5(c) || HasImm16(c) { LaidShort(c, atomic); }
    else { LaidRegisters(c, atomic); }
  }

  lemma LaidRegisters(c: Command, atomic: bool)
    requires !HasImm12(c) && !HasImm5(c) && !HasImm16(c)
    ensures Encode(c, atomic) == Text(LayoutOf(c, atomic))
  {
    hide Field, Zeros, OpCode;
    var code := OpCode(c);
    CodeLength(c);
    match c
    case AddCmd(rd, ra, rb) => Group4(Field(rd), Field(ra), Field(rb), Zeros(9), code);
    case LogicCmd(_, rd, ra, rb) => Group4(Field(rd), Field(ra), Field(rb), Zeros(9), code);
    case NewThread(rd, ra, rb) => Group4(Field(rd), Field(ra), Field(rb), Zeros(9), code);
    case NotCmd(rd, ra) => Group3(Field(rd), Field(ra), Zeros(14), code);
    case ThreadCmd(_, ra) => Group3(Zeros(5), Field(ra), Zeros(14), code);
  }

  lemma LaidShort(c: Command, atomic: bool)
    requires HasImm5(c) || HasImm16(c)
    ensures Encode(c, atomic) == Text(LayoutOf(c, atomic))
  {
    hide Field, ImmBits, Zeros, OpCode;
    var code := OpCode(c);
    CodeLength(c);
    match c
    case ShiftLeftImm(rd, ra, v) => Group5(Field(rd), Field(ra), Zeros(7), ImmBits(v, 5), Zeros(2), code);
    case ShiftRightImm(rd, ra, v) => Group5(Field(rd), Field(ra), Zeros(7), ImmBits(v, 5), Zeros(2), code);
    case ShiftArithImm(rd, ra, v) => Group5(Field(rd), Field(ra), Zeros(7), ImmBits(v, 5), Zeros(2), code);
    case LoadLow(rd, v) => Group4(Field(rd), "0", ImmBits(v, 16), Zeros(2), code);
    case LoadHigh(rd, v) => Group4(Field(rd), "0", ImmBits(v, 16), Zeros(2), code);
  }

  lemma LaidImm12(c: Command, atomic: bool)
    requires HasImm12(c)
    ensures Encode(c, atomic) == Text(LayoutOf(c, atomic))
  {
    hide Field, ImmBits, Zeros, OpCode;
    var code := OpCode(c);
    CodeLength(c);
    match c
    case Jal(rd, v) => Group4(Field(rd), Zeros(5), ImmBits(v, 12), Zeros(2), code);
    case Load(rd, ra, v) => GroupMem(Field(rd), Field(ra), ImmBits(v, 12), "1", "1101000");
    case Store(ra, rb, v) => GroupMem(Field(rb), Field(ra), ImmBits(v, 12), "0", "1101000");
    case AddImm(rd, ra, v) => Group4(Field(rd), Field(ra), ImmBits(v, 12), Zeros(2), code);
    case LogicImm(_, rd, ra, v) => Group4(Field(rd), Field(ra), ImmBits(v, 12), Zeros(2), code);
    case Jalr(rd, ra, v) => Group4(Field(rd), Field(ra), ImmBits(v, 12), Zeros(2), code);
    case BranchCmd(_, ra, rb, v) => Group4(Field(rb), Field(ra), ImmBits(v, 12), Zeros(2), code);
  }

  lemma Group3(a: string, b: string, c: string, code: string)
    ensures a + b + c + code == a + (b + c) + code
  {}

  lemma Group4(a: string, b: string, c: string, d: string, code: string)
    ensures a + b + c + d + code == a + (b + c + d) + code
  {}

  lemma Group5(a: string, b: string, c: string, d: string, e: string, code: string)
    ensures a + b + c + d + e + code == a + (b + c + d + e) + code
  {}

  lemma GroupMem(a: string, b: string, imm: string, access: string, code: string)
    requires |access| == 1 && |code| == 7
    ensures a + b + imm + "0" + (access + code) == a + (b + imm + ("0" + access)) + code
  {}

  // ---------------------------------------------------------- the decoder's view

  function ClassOf(c: Command): nat {
    match c
    case AddCmd(_, _, _) => CAL
    case LogicCmd(_, _, _, _) => CAL
    case NotCmd(_, _) => CAL
    case AddImm(_, _, _) => CALI
    case LogicImm(_, _, _, _) => CALI
    case ShiftLeftImm(_, _, _) => SHIFT
    case ShiftRightImm(_, _, _) => SHIFT
    case ShiftArithImm(_, _, _) => SHIFT
    case LoadLow(_, _) => LOADI
    case LoadHigh(_, _) => LOADI
    case Store(_, _, _) => MEMOP
    case Load(_, _, _) => MEMOP
    case Jal(_, _) => BRANCH
    case Jalr(_, _, _) => BRANCH
    case BranchCmd(_, _, _, _) => BRANCH
    case ThreadCmd(_, _) => MULTI
    case NewThread(_, _, _) => MULTI
  }

  function LogicFunct(op: Logic): nat { match op case LAnd => AND case LOr => OR case LXor => XOR }

  function FunctNo(c: Command): nat {
    match c
    case AddCmd(_, _, _) => ADD
    case LogicCmd(op, _, _, _) => LogicFunct(op)
    case NotCmd(_, _) => NOT
    case AddImm(_, _, _) => ADD
    case LogicImm(op, _, _, _) => LogicFunct(op)
    case ShiftLeftImm(_, _, _) => SHLT
    case ShiftRightImm(_, _, _) => SHRT
    case ShiftArithImm(_, _, _) => SHAR
    case LoadLow(_, _) => SHLT
    case LoadHigh(_, _) => SHRT
    case Store(_, _, _) => ADD
    case Load(_, _, _) => ADD
    case Jal(_, _) => 0
    case Jalr(_, _, _) => 2
    case BranchCmd(cond, _, _, _) => (match cond case Eq => 1 case Neq => 3 case Lt => 7)
    case ThreadCmd(act, _) => if act == Sleep then 5 else if act == Wake then 2 else 0
    case NewThread(_, _, _) => 7
  }

  lemma CodeDigits(code: string)
    requires |code| == 7
    ensures Val(code[..3]) == 4 * Digit(code[0]) + 2 * Digit(code[1]) + Digit(code[2])
    ensures Val(code[3..]) == 8 * Digit(code[3]) + 4 * Digit(code[4]) + 2 * Digit(code[5]) + Digit(code[6])
  {
    Three(code[..3]);
    var low := code[3..];
    Three(low[..3]);
    assert low == low[..3] + [low[3]];
    ValSnoc(low[..3], low[3]);
  }

  lemma Three(s: string)
    requires |s| == 3
    ensures Val(s) == 4 * Digit(s[0]) + 2 * Digit(s[1]) + Digit(s[2])
  {
    assert s == (([s[0]]) + [s[1]]) + [s[2]];
    ValSnoc([s[0]] + [s[1]], s[2]);
    ValSnoc([s[0]], s[1]);
    OneDigit(s[0]);
  }

  lemma CodeMeans(c: Command)
    requires Ranges(c)
    ensures |Code(c)| == 7 && Val(Code(c)[..3]) == FunctNo(c) && Val(Code(c)[3..]) == ClassOf(c)
  {
    hide Val, InField, Pow2;
    CodeLength(c);
    CodeDigits(Code(c));
  }

  /** The fields of an encoded command, as the decoder cuts them. */
  lemma WordFields(c: Command, atomic: bool)
    requires Fits(c)
    ensures |Encode(c, atomic)| == 32 && Val(Encode(c, atomic)) < MODULUS && |Rest(c)| == 19
    ensures var w := Val(Encode(c, atomic));
            && Opcode(w) == ClassOf(c) && FunctOf(w) == FunctNo(c) && (AtomicBit(w) <==> atomic)
            && w / 0x800_0000 % 32 == Val(First(c))
            && w / 0x40_0000 % 32 == Val(Rest(c)[..5])
            && w / 0x2_0000 % 32 == Val(Rest(c)[5..10])
            && w / 0x400 % 0x1_0000 == Val(Rest(c)[1..17])
            && w / 0x100 % 2 == Digit(Rest(c)[18])
  {
    hide Val, Rest, First, Code, Encode, Text, Opcode, FunctOf, AtomicBit, ClassOf, FunctNo, Digit;
    LaidWell(c, atomic);
    LaidOut(c, atomic);
    LayoutFields(LayoutOf(c, atomic));
    CodeMeans(c);
  }

  // Reading the parts back.

  function FirstReg(c: Command): nat {
    match c
    case BranchCmd(_, _, rb, _) => rb
    case Store(_, rb, _) => rb
    case ThreadCmd(_, _) => 0
    case _ => c.rd
  }

  predicate HasA(c: Command) { !c.Jal? && !c.LoadLow? && !c.LoadHigh? }
  predicate HasThird(c: Command) { c.AddCmd? || c.LogicCmd? || c.NewThread? }
  predicate HasImm5(c: Command) { c.ShiftLeftImm? || c.ShiftRightImm? || c.ShiftArithImm? }
  predicate HasImm16(c: Command) { c.LoadLow? || c.LoadHigh? }
  predicate HasImm12(c: Command) {
    !HasThird(c) && !HasImm5(c) && !HasImm16(c) && !c.NotCmd? && !c.ThreadCmd?
  }

  lemma FirstRead(c: Command)
    requires Fits(c)
    ensures Val(First(c)) == FirstReg(c)
  {
    hide Field, Val, InField, Zeros;
    forall r: nat ensures Val(Field(r)) == r { FieldExact(r); }
  }

  lemma SourceRead(c: Command)
    requires Fits(c) && HasA(c)
    ensures |Rest(c)| >= 5 && Val(Rest(c)[..5]) == c.ra
  {
    hide Field, Val, InField, Zeros, BinDigits;
    FieldExact(c.ra);
    assert Field(c.ra) <= Rest(c);
    assert Rest(c)[..5] == Field(c.ra);
  }

  lemma ThirdRead(c: Command)
    requires Fits(c) && HasThird(c)
    ensures |Rest(c)| >= 10 && Val(Rest(c)[5..10]) == c.rb
  {
    hide Val, Field, InField, Zeros;
    FieldExact(c.ra);
    ReadSecond(Field(c.ra), c.rb, Zeros(9));
  }

  lemma ImmediateRead(c: Command)
    requires Fits(c) && |Rest(c)| == 19
    ensures HasImm12(c) ==> Val(Rest(c)[1..17]) % 0x1000 == c.imm % 0x1000
    ensures HasImm5(c) ==> Val(Rest(c)[1..17]) % 32 == c.imm
    ensures HasImm16(c) ==> Val(Rest(c)[1..17]) == c.imm
  {
    hide Val, Field, Zeros, ImmBits, Pow2, BinDigits;
    Powers();
    if HasImm16(c) {
      ReadWholeImm(c.imm, Zeros(2));
    } else if HasImm5(c) {
      FieldExact(c.ra);
      ReadImm(Field(c.ra) + Zeros(7), c.imm, 5, Zeros(2));
      SmallMod(c.imm, 32);
    } else if c.Jal? {
      ReadImm(Zeros(5), c.imm, 12, Zeros(2));
    } else if HasImm12(c) {
      FieldExact(c.ra);
      ReadImm(Field(c.ra), c.imm, 12, if c.Load? then "0" + "1" else if c.Store? then "0" + "0" else Zeros(2));
    }
  }

  lemma ReadSecond(x: string, r: nat, more: string)
    requires |x| == 5 && r < 32
    ensures Val((x + Field(r) + more)[5..10]) == r
  {
    hide Field, Val;
    FieldExact(r);
    assert (x + Field(r) + more)[5..10] == Field(r);
  }

  lemma ReadImm(x: string, v: int, n: nat, more: string)
    requires 1 <= n <= 16 && |x| == 17 - n && |more| == 2
    ensures Val((x + ImmBits(v, n) + more)[1..17]) % Pow2(n) == v % Pow2(n)
  {
    hide Val, Pow2, BinDigits;
    var imm := ImmBits(v, n);
    assert (x + imm + more)[1..17] == x[1..] + imm;
    ValCat(x[1..], imm);
    DivModUnique(Val(x[1..]), Pow2(n), Val(imm));
  }

  lemma ReadWholeImm(v: int, more: string)
    requires InField(v, 16, false) && |more| == 2
    ensures Val(("0" + ImmBits(v, 16) + more)[1..17]) == v
  {
    hide Val, Pow2, BinDigits;
    assert ("0" + ImmBits(v, 16) + more)[1..17] == ImmBits(v, 16);
    SmallMod(v, Pow2(16));
  }

  // -------------------------------------------------------------- the agreement

  /** The fields of the word w are those of the command. */
  predicate Encodes(c: Command, w: Word) {
    && Opcode(w) == ClassOf(c) && FunctOf(w) == FunctNo(c)
    && w / 0x800_0000 % 32 == FirstReg(c)
    && (HasA(c) ==> w / 0x40_0000 % 32 == c.ra)
    && (HasThird(c) ==> w / 0x2_0000 % 32 == c.rb)
    && (HasImm12(c) ==> w / 0x400 % 0x1_0000 % 0x1000 == c.imm % 0x1000)
    && (HasImm5(c) ==> w / 0x400 % 0x1_0000 % 32 == c.imm)
    && (HasImm16(c) ==> w / 0x400 % 0x1_0000 == c.imm)
    && (c.Load? ==> w / 0x100 % 2 == 1)
    && (c.Store? ==> w / 0x100 % 2 == 0)
  }

  lemma MemoryBit(c: Command)
    requires Fits(c) && |Rest(c)| == 19
    ensures c.Load? ==> Rest(c)[18] == "1"[0]
    ensures c.Store? ==> Rest(c)[18] == "0"[0]
  {
    hide Field, ImmBits, InField, Zeros;
    if c.Load? || c.Store? {
      FieldExact(c.ra);
      var operands := Field(c.ra) + ImmBits(c.imm, 12);
      LastDigit(operands, if c.Load? then "1" else "0");
    }
  }

  lemma LastDigit(x: string, m: string)
    requires |x| == 17 && |m| == 1
    ensures (x + ("0" + m))[18] == m[0]
  {}

  lemma WordEncodes(c: Command, atomic: bool)
    requires Fits(c)
    ensures var s := Encode(c, atomic);
            |s| == 32 && Val(s) < MODULUS && Encodes(c, Val(s)) && (AtomicBit(Val(s)) <==> atomic)
  {
    hide Val, Rest, First, Encode, Opcode, FunctOf, AtomicBit, ClassOf, FunctNo, Fits, FirstReg;
    WordFields(c, atomic);
    FirstRead(c);
    if HasA(c) { SourceRead(c); }
    if HasThird(c) { ThirdRead(c); }
    ImmediateRead(c);
    MemoryBit(c);
  }

  lemma SignExtends(imm: Half, v: int)
    requires imm % 0x1000 == v % 0x1000 && InField(v, 12, true)
    ensures SignExt12(imm) == ToWord(v)
  {
    Powers();
  }

  lemma Wraps(a: Word, v: int)
    ensures Add(a, ToWord(v)) == ToWord(a + v)
    ensures Add(Inc(a), ToWord(v)) == ToWord(a + 1 + v)
  {
    AddMod(a, v);
    AddMod((a + 1) % MODULUS, v);
    AddMod(v, a + 1);
  }

  lemma AddMod(a: int, v: int)
    ensures (a + v % MODULUS) % MODULUS == (a + v) % MODULUS
  {
    assert a + v == a + v % MODULUS + v / MODULUS * MODULUS;
  }

  /** Decoded and executed, w has the effect the command is written for. */
  predicate Agree(c: Command, w: Word, pc: Word, x: Reg -> Word)
    requires Fits(c)
  {
    !Decode(w).invalid && Performed(Decode(w), pc, x) == Meaning(c, pc, x)
  }

  lemma AgreeRegisters(c: Command, w: Word, pc: Word, x: Reg -> Word)
    requires Fits(c) && Encodes(c, w) && (c.AddCmd? || c.LogicCmd? || c.NotCmd?)
    ensures Agree(c, w, pc, x)
  {
    hide Pow2, Wordwise, ShiftLeft, ShiftRight, ShiftArith, SignExt12, Add, Sub, InField;
    var d := Decode(w);
    if c.AddCmd? { AddIsSum(x(c.ra), x(c.rb)); }
  }

  lemma AgreeAddImm(c: Command, w: Word, pc: Word, x: Reg -> Word)
    requires Fits(c) && Encodes(c, w) && c.AddImm?
    ensures Agree(c, w, pc, x)
  {
    hide Pow2, Wordwise, ShiftLeft, ShiftRight, ShiftArith, SignExt12, Add, Sub, InField;
    var d := Decode(w);
    SignExtends(d.imm, c.imm);
    Wraps(x(d.ra), c.imm);
  }

  lemma LogicImmDecoded(c: Command, w: Word)
    requires Fits(c) && Encodes(c, w) && c.LogicImm?
    ensures var d := Decode(w);
            && d.iType && d.wrEn && !d.memRd && !d.memWr && d.trdOp == NoOp && d.jump == NoJump && !d.invalid
            && d.rd == c.rd && d.ra == c.ra && d.imm % 0x1000 == c.imm
            && d.aluOp == GateOf(c.op)
  {
    hide Pow2, InField;
    LogicField(c);
  }

  function GateOf(op: Logic): Funct { match op case LAnd => AND case LOr => OR case LXor => XOR }

  lemma LogicAlu(d: Ctrl, op: Logic, a: Word, b: Word)
    requires d.iType && d.aluOp == GateOf(op)
    ensures Alu(d, a, b) == Apply(op, a, d.imm % 0x1000)
  {
    hide BitAnd, BitOr, BitXor, ShiftLeft, ShiftRight, ShiftArith;
  }

  lemma PerformedAlu(d: Ctrl, pc: Word, x: Reg -> Word)
    requires d.wrEn && !d.memRd && !d.memWr && d.trdOp == NoOp && d.jump == NoJump
    ensures Performed(d, pc, x) == Effect(Put(d.rd, Alu(d, x(d.ra), x(d.rb))), Inc(pc))
  {
    hide Alu, Target, Inc;
  }

  lemma FitsWord(w: Word)
    ensures ToWord(w) == w
  {}

  lemma MeaningLogicImm(c: Command, pc: Word, x: Reg -> Word)
    requires Fits(c) && c.LogicImm?
    ensures 0 <= c.imm < 0x1000 && Meaning(c, pc, x) == Effect(Put(c.rd, Apply(c.op, x(c.ra), c.imm)), Inc(pc))
  {
    LogicField(c);
    hide Apply, Inc, Pow2, InField, Places, Signed, ToWord;
    assert ToWord(c.imm) == c.imm by { FitsWord(c.imm); }
  }

  lemma AgreeLogicImm(c: Command, w: Word, pc: Word, x: Reg -> Word)
    requires Fits(c) && Encodes(c, w) && c.LogicImm?
    ensures Agree(c, w, pc, x)
  {
    var d := Decode(w);
    LogicImmDecoded(c, w);
    LogicField(c);
    MeaningLogicImm(c, pc, x);
    hide Fits, Decode, Encodes, Pow2, Alu, Apply, Performed, Inc, Meaning;
    LogicAlu(d, c.op, x(d.ra), x(d.rb));
    PerformedAlu(d, pc, x);
  }

  lemma AgreeShifts(c: Command, w: Word, pc: Word, x: Reg -> Word)
    requires Fits(c) && Encodes(c, w) && (HasImm5(c))
    ensures Agree(c, w, pc, x)
  {
    hide Pow2, Wordwise, ShiftLeft, ShiftRight, ShiftArith, SignExt12, Add, Sub, InField;
    var d := Decode(w);
    assert d.imm % 32 == Places(c.imm);
    ShiftLeftExact(x(d.ra), d.imm);
    ShiftRightExact(x(d.ra), d.imm);
    ShiftArithExact(x(d.ra), d.imm);
    SignedBack(ShiftArith(x(d.ra), d.imm));
  }

  lemma AgreeLoadLow(c: Command, w: Word, pc: Word, x: Reg -> Word)
    requires Fits(c) && Encodes(c, w) && c.LoadLow?
    ensures Agree(c, w, pc, x)
  {
    hide Pow2, Wordwise, ShiftLeft, ShiftRight, ShiftArith, SignExt12, Add, Sub, InField;
    var d := Decode(w);
    HalfField(c);
  }

  lemma AgreeLoadHigh(c: Command, w: Word, pc: Word, x: Reg -> Word)
    requires Fits(c) && Encodes(c, w) && c.LoadHigh?
    ensures Agree(c, w, pc, x)
  {
    hide Pow2, Wordwise, ShiftLeft, ShiftRight, ShiftArith, SignExt12, Add, Sub, InField;
    var d := Decode(w);
    HighHalf(x(d.rb), c.imm);
    HalfField(c);
  }

  lemma AgreeMemory(c: Command, w: Word, pc: Word, x: Reg -> Word)
    requires Fits(c) && Encodes(c, w) && (c.Load? || c.Store?)
    ensures Agree(c, w, pc, x)
  {
    hide Pow2, Wordwise, ShiftLeft, ShiftRight, ShiftArith, SignExt12, Add, Sub, InField;
    var d := Decode(w);
    SignExtends(d.imm, c.imm);
    Wraps(x(d.ra), c.imm);
  }

  lemma AgreeJumps(c: Command, w: Word, pc: Word, x: Reg -> Word)
    requires Fits(c) && Encodes(c, w) && (c.Jal? || c.Jalr?)
    ensures Agree(c, w, pc, x)
  {
    hide Pow2, Wordwise, ShiftLeft, ShiftRight, ShiftArith, SignExt12, Add, Sub, InField;
    var d := Decode(w);
    SignExtends(d.imm, c.imm);
    Wraps(if c.Jal? then pc else x(d.ra), c.imm);
  }

  lemma AgreeBranches(c: Command, w: Word, pc: Word, x: Reg -> Word)
    requires Fits(c) && Encodes(c, w) && (c.BranchCmd?)
    ensures Agree(c, w, pc, x)
  {
    hide Pow2, Wordwise, ShiftLeft, ShiftRight, ShiftArith, SignExt12, Add, Sub, InField;
    var d := Decode(w);
    SignExtends(d.imm, c.imm);
    Wraps(pc, c.imm);
    EqualExact(d, x(d.ra), x(d.rb));
  }

  lemma AgreeThreads(c: Command, w: Word, pc: Word, x: Reg -> Word)
    requires Fits(c) && Encodes(c, w) && (c.ThreadCmd? || c.NewThread?)
    ensures Agree(c, w, pc, x)
  {
    hide Pow2, Wordwise, ShiftLeft, ShiftRight, ShiftArith, SignExt12, Add, Sub, InField;
    var d := Decode(w);
  }

  lemma SignedBack(w: Word)
    ensures ToWord(Signed(w)) == w
  {}

  lemma AddIsSum(a: Word, b: Word)
    ensures Add(a, b) == ToWord(a + b)
  {}

  lemma LogicField(c: Command)
    requires c.LogicImm? && Ranges(c)
    ensures 0 <= c.imm < 0x1000
  {
    Powers();
  }

  lemma HalfField(c: Command)
    requires HasImm16(c) && Ranges(c)
    ensures 0 <= c.imm < 0x1_0000
  {
    Powers();
  }

  lemma HighHalf(b: Word, v: Half)
    ensures b % 0x1_0000 * 0x1_0000 + v == ToWord(b * 0x1_0000 + v)
  {
    var hi, lo := b / 0x1_0000, b % 0x1_0000;
    assert b * 0x1_0000 + v == hi * MODULUS + (lo * 0x1_0000 + v);
    DivModUnique(hi, MODULUS, lo * 0x1_0000 + v);
  }

  lemma DecodedAgrees(c: Command, w: Word, pc: Word, x: Reg -> Word)
    requires Fits(c) && Encodes(c, w)
    ensures Agree(c, w, pc, x)
  {
    hide Fits, Encodes, Agree;
    match c
    case AddCmd(_, _, _) => AgreeRegisters(c, w, pc, x);
    case LogicCmd(_, _, _, _) => AgreeRegisters(c, w, pc, x);
    case NotCmd(_, _) => AgreeRegisters(c, w, pc, x);
    case AddImm(_, _, _) => AgreeAddImm(c, w, pc, x);
    case LogicImm(_, _, _, _) => AgreeLogicImm(c, w, pc, x);
    case ShiftLeftImm(_, _, _) => AgreeShifts(c, w, pc, x);
    case ShiftRightImm(_, _, _) => AgreeShifts(c, w, pc, x);
    case ShiftArithImm(_, _, _) => AgreeShifts(c, w, pc, x);
    case LoadLow(_, _) => AgreeLoadLow(c, w, pc, x);
    case LoadHigh(_, _) => AgreeLoadHigh(c, w, pc, x);
    case Store(_, _, _) => AgreeMemory(c, w, pc, x);
    case Load(_, _, _) => AgreeMemory(c, w, pc, x);
    case Jal(_, _) => AgreeJumps(c, w, pc, x);
    case Jalr(_, _, _) => AgreeJumps(c, w, pc, x);
    case BranchCmd(_, _, _, _) => AgreeBranches(c, w, pc, x);
    case ThreadCmd(_, _) => AgreeThreads(c, w, pc, x);
    case NewThread(_, _, _) => AgreeThreads(c, w, pc, x);
  }

  /** Whether an operation code is in use, with that function: the classes of the
      calculations, shifts, loads of constants and memory accesses take any, the jumps
      and the thread operations some, and there are no others. */
  predicate InUse(op: nat, funct: nat) {
    || op in {CAL, CALI, SHIFT, LOADI, MEMOP}
    || (op == BRANCH && funct in {0, 1, 2, 3, 7})
    || (op == MULTI && funct in {0, 2, 5, 7})
  }

  /** Any other word changes no register and no memory, manages no thread and jumps
      nowhere; in the classes of the jumps and of the thread operations it is reported. */
  lemma UnusedIdles(w: Word, pc: Word, x: Reg -> Word)
    requires !InUse(w / 2 % 16, w / 0x20 % 8)
    ensures Performed(Decode(w), pc, x) == Effect(Keep, Inc(pc))
    ensures Decode(w).invalid <==> w / 2 % 16 == BRANCH || w / 2 % 16 == MULTI
  {
    hide Alu, Target;
  }

  /** Every command that fills a word is carried out as it reads: assembled, decoded
      and executed, it has the effect it is written for, whatever the registers
      hold, and the atomic bit is the suffix. */
  lemma AssembledMeans(c: Command, atomic: bool, pc: Word, x: Reg -> Word)
    requires Fits(c)
    ensures var s := Encode(c, atomic);
            && |s| == 32 && Val(s) < MODULUS
            && (AtomicBit(Val(s)) <==> atomic)
            && !Decode(Val(s)).invalid
            && Performed(Decode(Val(s)), pc, x) == Meaning(c, pc, x)
  {
    hide Fits, Encodes, Encode, Val, Decode, Performed, Meaning, AtomicBit;
    WordEncodes(c, atomic);
    DecodedAgrees(c, Val(Encode(c, atomic)), pc, x);
  }
}
