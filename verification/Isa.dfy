/** The TKB instruction set as the hardware implements it: instruction fields
    and control signals (decode.sv), the ALU (alu.sv) and branch targets
    (pc_cal.sv), put together into what the EXE stage computes (exe.sv). */
module Isa {
  import B = Bits

  const MODULUS: nat := 0x1_0000_0000

  type Word = n: nat | n < MODULUS
  type Half = n: nat | n < 0x1_0000
  type Reg = n: nat | n < 32
  type Funct = n: nat | n < 8

  const START_PC: Word := 0x0001_0100
  const HANDLER: Word := 0x0001_0000

  // 32-bit wrap-around arithmetic
  function Add(a: Word, b: Word): Word { (a + b) % MODULUS }
  function Sub(a: Word, b: Word): Word { (a - b) % MODULUS }
  function Inc(pc: Word): Word { Add(pc, 1) }
  function Not(a: Word): Word { MODULUS - 1 - a }

  /** The two's complement value of a word. */
  function Signed(a: Word): int {
    if a < 0x8000_0000 then a else a - MODULUS
  }

  /** The low twelve bits of an immediate, sign extended to a word. */
  function SignExt12(imm: Half): Word {
    var low := imm % 0x1000;
    if low < 0x800 then low else low + 0xFFFF_F000
  }

  datatype Jump = NoJump | IfEqual | IfLess | IfNotEqual | Relative | Absolute
  datatype ThreadOp = NoOp | Sleep | Wake | Kill | Create

  /** The control signals the decoder produces. */
  datatype Ctrl = Ctrl(
    ra: Reg, rb: Reg, rd: Reg, imm: Half, aluOp: Funct,
    wrEn: bool, wbSel: bool, iType: bool, memRd: bool, memWr: bool,
    trdOp: ThreadOp, jump: Jump, expJmp: bool, expReturn: bool, invalid: bool)

  // Operation codes, bits 4:1
  const CAL := 15
  const CALI := 14
  const SHIFT := 12
  const LOADI := 9
  const MEMOP := 8
  const BRANCH := 10
  const EXC := 0
  const MULTI := 6

  function Opcode(ins: Word): nat { ins / 2 % 16 }
  function FunctOf(ins: Word): Funct { ins / 0x20 % 8 }
  predicate AtomicBit(ins: Word) { ins % 2 == 1 }

  function Decode(ins: Word): Ctrl {
    var op := Opcode(ins);
    var funct := FunctOf(ins);
    var rb := if op == BRANCH || op == MEMOP || op == LOADI
              then ins / 0x800_0000 % 32 else ins / 0x2_0000 % 32;
    var base := Ctrl(ins / 0x40_0000 % 32, rb, ins / 0x800_0000 % 32, ins / 0x400 % 0x1_0000, funct,
                     false, false, false, false, false, NoOp, NoJump, false, false, false);
    if op == CAL || op == SHIFT then base.(wrEn := true)
    else if op == CALI || op == LOADI then base.(wrEn := true, iType := true)
    else if op == MEMOP then
      if ins / 0x100 % 2 == 1
      then base.(iType := true, memRd := true, wbSel := true, wrEn := true)
      else base.(iType := true, memWr := true)
    else if op == BRANCH then
      if funct == 0 then base.(jump := Relative, wrEn := true)
      else if funct == 2 then base.(jump := Absolute, wrEn := true)
      else if funct == 1 then base.(jump := IfEqual)
      else if funct == 3 then base.(jump := IfNotEqual)
      else if funct == 7 then base.(jump := IfLess)
      else base.(invalid := true)
    else if op == EXC then
      if funct % 2 == 1 then base.(expJmp := true)
      else if funct / 2 % 2 == 1 then base.(expReturn := true)
      else base
    else if op == MULTI then
      if funct == 7 then base.(wrEn := true, trdOp := Create)
      else if funct == 5 then base.(trdOp := Sleep)
      else if funct == 2 then base.(trdOp := Wake)
      else if funct == 0 then base.(trdOp := Kill)
      else base.(invalid := true)
    else base
  }

  // ALU functions, bits 7:5
  const ADD := 6
  const NOT := 0
  const AND := 7
  const OR := 5
  const XOR := 3
  const SHLT := 1
  const SHRT := 2
  const SHAR := 4

  /** The second ALU operand: a register or an extended immediate. */
  function Operand2(c: Ctrl, b: Word): Word {
    if !c.iType then b
    else if c.aluOp == SHLT || c.aluOp == SHRT then c.imm
    else if c.aluOp == ADD then SignExt12(c.imm)
    else c.imm % 0x1000
  }

  // The bitwise operations, a digit at a time from the lowest.
  datatype Gate = AndGate | OrGate | XorGate

  predicate Through(g: Gate, x: bool, y: bool) {
    match g case AndGate => x && y case OrGate => x || y case XorGate => x != y
  }

  function Bitwise(g: Gate, a: nat, b: nat, n: nat): (w: nat)
    ensures w < B.Pow2(n)
  {
    if n == 0 then 0
    else 2 * Bitwise(g, a / 2, b / 2, n - 1) + if Through(g, a % 2 == 1, b % 2 == 1) then 1 else 0
  }

  function Wordwise(g: Gate, a: Word, b: Word): Word {
    B.Pow2Is32();
    Bitwise(g, a, b, 32)
  }

  function BitAnd(a: Word, b: Word): Word { Wordwise(AndGate, a, b) }
  function BitOr(a: Word, b: Word): Word { Wordwise(OrGate, a, b) }
  function BitXor(a: Word, b: Word): Word { Wordwise(XorGate, a, b) }

  // The shifters have five stages, for the five bits of the distance; a stage shifts by
  // 1, 2, 4, 8 or 16 places, a factor of 2, 4, 16, 256 or 65536.
  predicate Factor(p: nat) { p == 2 || p == 4 || p == 16 || p == 0x100 || p == 0x1_0000 }

  function StageLeft(a: Word, on: bool, p: nat): Word
    requires Factor(p)
  {
    if on then a % (MODULUS / p) * p else a
  }

  function StageRight(a: Word, on: bool, p: nat): Word
    requires Factor(p)
  {
    if on then a / p else a
  }

  /** The free places take the sign bit. */
  function StageArith(a: Word, on: bool, p: nat): Word
    requires Factor(p)
  {
    if !on then a
    else if a < 0x8000_0000 then a / p
    else MODULUS - MODULUS / p + a / p
  }

  function ShiftLeft(a: Word, n: nat): Word {
    var s0 := StageLeft(a, n % 2 == 1, 2);
    var s1 := StageLeft(s0, n / 2 % 2 == 1, 4);
    var s2 := StageLeft(s1, n / 4 % 2 == 1, 16);
    var s3 := StageLeft(s2, n / 8 % 2 == 1, 0x100);
    StageLeft(s3, n / 16 % 2 == 1, 0x1_0000)
  }

  function ShiftRight(a: Word, n: nat): Word {
    var s0 := StageRight(a, n % 2 == 1, 2);
    var s1 := StageRight(s0, n / 2 % 2 == 1, 4);
    var s2 := StageRight(s1, n / 4 % 2 == 1, 16);
    var s3 := StageRight(s2, n / 8 % 2 == 1, 0x100);
    StageRight(s3, n / 16 % 2 == 1, 0x1_0000)
  }

  function ShiftArith(a: Word, n: nat): Word {
    var s0 := StageArith(a, n % 2 == 1, 2);
    var s1 := StageArith(s0, n / 2 % 2 == 1, 4);
    var s2 := StageArith(s1, n / 4 % 2 == 1, 16);
    var s3 := StageArith(s2, n / 8 % 2 == 1, 0x100);
    StageArith(s3, n / 16 % 2 == 1, 0x1_0000)
  }

  function Alu(c: Ctrl, a: Word, b: Word): Word {
    var b2 := Operand2(c, b);
    if c.aluOp == ADD then Add(a, b2)
    else if c.aluOp == AND then BitAnd(a, b2)
    else if c.aluOp == OR then BitOr(a, b2)
    else if c.aluOp == XOR then BitXor(a, b2)
    else if c.aluOp == NOT then Not(a)
    else if c.aluOp == SHLT then (if c.iType then c.imm else ShiftLeft(a, c.imm))
    else if c.aluOp == SHRT then (if c.iType then b % 0x1_0000 * 0x1_0000 + c.imm else ShiftRight(a, c.imm))
    else ShiftArith(a, c.imm)
  }

  // The comparison flags are taken from the 32-bit difference of the operands.
  predicate EqFlag(c: Ctrl, a: Word, b: Word) { Sub(a, Operand2(c, b)) == 0 }
  predicate LtFlag(c: Ctrl, a: Word, b: Word) { Sub(a, Operand2(c, b)) >= 0x8000_0000 }

  predicate Taken(c: Ctrl, a: Word, b: Word) {
    match c.jump
    case NoJump => false
    case IfEqual => EqFlag(c, a, b)
    case IfLess => LtFlag(c, a, b)
    case IfNotEqual => !EqFlag(c, a, b)
    case Relative => true
    case Absolute => true
  }

  /** Branch target (pc_cal.sv); meaningful when the jump is taken. */
  function Target(c: Ctrl, pc: Word, a: Word): Word {
    if c.jump == Absolute then Add(a, SignExt12(c.imm))
    else Add(Inc(pc), SignExt12(c.imm))
  }

  /** Everything the EXE stage computes from an instruction and its operands. */
  datatype Outcome = Outcome(addr: Word, data: Word, taken: bool, target: Word)

  function Execute(c: Ctrl, pc: Word, a: Word, b: Word): Outcome {
    var alu := Alu(c, a, b);
    Outcome(alu,
            if c.jump == Relative || c.jump == Absolute then pc
            else if c.memWr then b
            else alu,
            Taken(c, a, b),
            Target(c, pc, a))
  }

  function NextPc(o: Outcome, pc: Word): Word {
    if o.taken then o.target else Inc(pc)
  }

  /** An instruction that is neither a thread operation nor part of exception
      handling: it only touches its own registers, the data memory and its PC. */
  predicate Plain(c: Ctrl) { c.trdOp == NoOp && !c.expJmp && !c.expReturn }

  /** The word that a flushed stage register or an idle fetch holds. */
  lemma IdleWord()
    ensures Decode(0) == Ctrl(0, 0, 0, 0, 0, false, false, false, false, false,
                              NoOp, NoJump, false, false, false)
  {}

  /** The ALU's less-than flag is the signed comparison exactly when the
      difference of the operands does not overflow a signed word. */
  lemma LessThanExact(c: Ctrl, a: Word, b: Word)
    ensures var d := Signed(a) - Signed(Operand2(c, b));
            (LtFlag(c, a, b) <==> d < 0) <==> -0x8000_0000 <= d < 0x8000_0000
  {
    var b2 := Operand2(c, b);
    assert Sub(a, b2) == if a >= b2 then a - b2 else a - b2 + MODULUS;
  }

  /** The equality flag is exact: no difference of distinct words wraps to zero. */
  lemma EqualExact(c: Ctrl, a: Word, b: Word)
    ensures EqFlag(c, a, b) <==> a == Operand2(c, b)
  {
    var b2 := Operand2(c, b);
    assert Sub(a, b2) == if a >= b2 then a - b2 else a - b2 + MODULUS;
  }

  // ------------------------------------------------ bitwise operations and shifts

  /** Digit i of a word. */
  function DigitOf(w: nat, i: nat): (d: nat) ensures d <= 1 { w / B.Pow2(i) % 2 }

  lemma DivDiv(a: int, p: nat, q: nat)
    requires p > 0 && q > 0
    ensures p * q > 0 && a / p / q == a / (p * q)
  {
    var x, s := a / p, a % p;
    var y, r := x / q, x % q;
    var low := r * p + s;
    assert a == y * q * p + low by { Expand(y * q, r, p); }
    Swap(y, q, p);
    Below(r, q, s, p);
    var m := p * q;
    B.DivModUnique(y, m, low);
  }

  lemma Expand(x: int, y: int, p: int)
    ensures (x + y) * p == x * p + y * p
  {}

  lemma Swap(y: int, q: int, p: int)
    ensures y * q * p == y * (q * p)
  {}

  lemma Below(x: nat, q: nat, r: nat, p: nat)
    requires x < q && r < p
    ensures x * p + r < p * q
  {
    assert (x + 1) * p <= q * p;
  }

  lemma {:induction false} BitwiseDigit(g: Gate, a: nat, b: nat, n: nat, i: nat)
    requires i < n
    ensures DigitOf(Bitwise(g, a, b, n), i) == 1 <==> Through(g, DigitOf(a, i) == 1, DigitOf(b, i) == 1)
    decreases n
  {
    hide Through, DigitOf;
    BitwiseHalves(g, a, b, n);
    if i == 0 {
      LastDigit(a);
      LastDigit(b);
      LastDigit(Bitwise(g, a, b, n));
    } else {
      BitwiseDigit(g, a / 2, b / 2, n - 1, i - 1);
      HalfDigit(a, i);
      HalfDigit(b, i);
      HalfDigit(Bitwise(g, a, b, n), i);
    }
  }

  lemma BitwiseHalves(g: Gate, a: nat, b: nat, n: nat)
    requires n > 0
    ensures Bitwise(g, a, b, n) / 2 == Bitwise(g, a / 2, b / 2, n - 1)
    ensures Bitwise(g, a, b, n) % 2 == 1 <==> Through(g, a % 2 == 1, b % 2 == 1)
  {}

  lemma LastDigit(a: nat)
    ensures DigitOf(a, 0) == a % 2
  {}

  /** What the gates of the ALU do to each of the 32 digits. */
  lemma LogicDigits(a: Word, b: Word, i: nat)
    requires i < 32
    ensures DigitOf(BitAnd(a, b), i) == 1 <==> DigitOf(a, i) == 1 && DigitOf(b, i) == 1
    ensures DigitOf(BitOr(a, b), i) == 1 <==> DigitOf(a, i) == 1 || DigitOf(b, i) == 1
    ensures DigitOf(BitXor(a, b), i) == 1 <==> DigitOf(a, i) != DigitOf(b, i)
    ensures DigitOf(Not(a), i) != DigitOf(a, i)
  {
    hide DigitOf, Bitwise;
    BitwiseDigit(AndGate, a, b, 32, i);
    BitwiseDigit(OrGate, a, b, 32, i);
    BitwiseDigit(XorGate, a, b, 32, i);
    B.Pow2Is32();
    NotDigit(a, 32, i);
  }

  lemma {:induction false} NotDigit(a: nat, n: nat, i: nat)
    requires i < n && a < B.Pow2(n)
    ensures DigitOf(B.Pow2(n) - 1 - a, i) != DigitOf(a, i)
    decreases n
  {
    var v := B.Pow2(n) - 1 - a;
    assert B.Pow2(n) == 2 * B.Pow2(n - 1);
    if i == 0 {
      assert v % 2 != a % 2;
    } else {
      NotDigit(a / 2, n - 1, i - 1);
      HalfDigit(a, i);
      HalfDigit(v, i);
      assert v / 2 == B.Pow2(n - 1) - 1 - a / 2;
    }
  }

  lemma HalfDigit(a: nat, i: nat)
    requires i > 0
    ensures DigitOf(a, i) == DigitOf(a / 2, i - 1)
  {
    DivDiv(a, 2, B.Pow2(i - 1));
  }

  /** Words with the same digits are the same. */
  lemma {:induction false} DigitsDecide(v: nat, w: nat, n: nat)
    requires v < B.Pow2(n) && w < B.Pow2(n) && forall i | 0 <= i < n :: DigitOf(v, i) == DigitOf(w, i)
    ensures v == w
  {
    if n > 0 {
      forall i | 0 <= i < n - 1 ensures DigitOf(v / 2, i) == DigitOf(w / 2, i) {
        HalfDigit(v, i + 1);
        HalfDigit(w, i + 1);
        assert DigitOf(v, i + 1) == DigitOf(w, i + 1);
      }
      DigitsDecide(v / 2, w / 2, n - 1);
      assert DigitOf(v, 0) == DigitOf(w, 0);
    }
  }

  function Chosen(on: bool, p: nat): (f: nat)
    ensures p > 0 ==> f > 0
  {
    if on then p else 1
  }

  /** The factors of the five stages, the first stage's first. */
  function Factors(n: nat): nat {
    Chosen(n % 2 == 1, 2) * Chosen(n / 2 % 2 == 1, 4) * Chosen(n / 4 % 2 == 1, 16) * Chosen(n / 8 % 2 == 1, 0x100)
    * Chosen(n / 16 % 2 == 1, 0x1_0000)
  }

  lemma {:induction false} PowSum(a: nat, b: nat)
    ensures B.Pow2(a + b) == B.Pow2(a) * B.Pow2(b)
  {
    if a > 0 {
      PowSum(a - 1, b);
      assert 2 * B.Pow2(a - 1) * B.Pow2(b) == 2 * (B.Pow2(a - 1) * B.Pow2(b));
    }
  }

  lemma PowSums(e0: nat, e1: nat, e2: nat, e3: nat, e4: nat)
    ensures B.Pow2(e0) * B.Pow2(e1) * B.Pow2(e2) * B.Pow2(e3) * B.Pow2(e4) == B.Pow2(e0 + e1 + e2 + e3 + e4)
  {
    hide B.Pow2;
    PowSum(e0, e1);
    PowSum(e0 + e1, e2);
    PowSum(e0 + e1 + e2, e3);
    PowSum(e0 + e1 + e2 + e3, e4);
  }

  lemma FiveDigits(n: nat)
    ensures n % 32 == n % 2 + 2 * (n / 2 % 2) + 4 * (n / 4 % 2) + 8 * (n / 8 % 2) + 16 * (n / 16 % 2)
  {
    Halved(n, 2);
    Halved(n, 4);
    Halved(n, 8);
    Halved(n, 16);
  }

  lemma Halved(n: nat, p: nat)
    requires p > 0
    ensures n % (2 * p) == n % p + p * (n / p % 2)
  {
    var h, d := n / p / 2, n / p % 2;
    assert n == h * (2 * p) + (n % p + p * d) by { Expand(2 * h, d, p); }
    B.DivModUnique(h, 2 * p, n % p + p * d);
  }

  lemma FactorsArePower(n: nat)
    ensures Factors(n) == B.Pow2(n % 32)
  {
    hide B.Pow2, Chosen;
    StagePowers(n % 2, n / 2 % 2, n / 4 % 2, n / 8 % 2, n / 16 % 2);
    PowSums(n % 2, 2 * (n / 2 % 2), 4 * (n / 4 % 2), 8 * (n / 8 % 2), 16 * (n / 16 % 2));
    FiveDigits(n);
  }

  lemma StagePowers(d0: nat, d1: nat, d2: nat, d3: nat, d4: nat)
    requires d0 <= 1 && d1 <= 1 && d2 <= 1 && d3 <= 1 && d4 <= 1
    ensures Chosen(d0 == 1, 2) == B.Pow2(d0) && Chosen(d1 == 1, 4) == B.Pow2(2 * d1)
    ensures Chosen(d2 == 1, 16) == B.Pow2(4 * d2) && Chosen(d3 == 1, 0x100) == B.Pow2(8 * d3)
    ensures Chosen(d4 == 1, 0x1_0000) == B.Pow2(16 * d4)
  {
    assert B.Pow2(0) == 1 && B.Pow2(1) == 2 && B.Pow2(2) == 4 && B.Pow2(4) == 16;
    assert B.Pow2(8) == 0x100;
    assert B.Pow2(16) == 0x1_0000;
  }

  lemma {:induction false} AndZero(b: nat, n: nat)
    ensures Bitwise(AndGate, 0, b, n) == 0
  {
    if n > 0 { AndZero(b / 2, n - 1); }
  }

  /** A stage drops what a product of the same factor leaves out of the word. */
  lemma DropHigh(a: nat, p: nat, q: nat)
    requires p > 0 && q > 0
    ensures p * q > 0 && a * p % (p * q) == a % q * p
  {
    var h, l := a / q, a % q;
    assert a * p == h * q * p + l * p by { Expand(h * q, l, p); }
    Swap(h, q, p);
    Below(l, q, 0, p);
    var m, r := p * q, l * p;
    B.DivModUnique(h, m, r);
  }

  lemma StageWraps(x: int, p: nat)
    ensures x % MODULUS * p % MODULUS == x * p % MODULUS
  {
    var a, k := x % MODULUS, x / MODULUS;
    Expand(k * MODULUS, a, p);
    Swap(k, MODULUS, p);
    assert x * p == (k * p) * MODULUS + a * p;
    B.DivModUnique(k * p + a * p / MODULUS, MODULUS, a * p % MODULUS);
  }

  lemma LeftStage(a: Word, on: bool, p: nat, x: int)
    requires Factor(p) && a == x % MODULUS
    ensures StageLeft(a, on, p) == x * Chosen(on, p) % MODULUS
  {
    if on {
      DropHigh(a, p, MODULUS / p);
      StageWraps(x, p);
    }
  }

  /** The five stages to the left multiply by 2 to the low five bits of n. */
  lemma ShiftLeftExact(a: Word, n: nat)
    ensures ShiftLeft(a, n) == a * B.Pow2(n % 32) % MODULUS
  {
    FactorsArePower(n);
    hide StageLeft, Chosen, B.Pow2;
    var p0, p1, p2, p3 := Chosen(n % 2 == 1, 2), Chosen(n / 2 % 2 == 1, 4), Chosen(n / 4 % 2 == 1, 16),
                          Chosen(n / 8 % 2 == 1, 0x100);
    var s0 := StageLeft(a, n % 2 == 1, 2);
    LeftStage(a, n % 2 == 1, 2, a);
    var s1 := StageLeft(s0, n / 2 % 2 == 1, 4);
    LeftStage(s0, n / 2 % 2 == 1, 4, a * p0);
    var s2 := StageLeft(s1, n / 4 % 2 == 1, 16);
    LeftStage(s1, n / 4 % 2 == 1, 16, a * p0 * p1);
    var s3 := StageLeft(s2, n / 8 % 2 == 1, 0x100);
    LeftStage(s2, n / 8 % 2 == 1, 0x100, a * p0 * p1 * p2);
    LeftStage(s3, n / 16 % 2 == 1, 0x1_0000, a * p0 * p1 * p2 * p3);
    Product(a, p0, p1, p2, p3, Chosen(n / 16 % 2 == 1, 0x1_0000));
  }

  lemma Product(a: int, p0: nat, p1: nat, p2: nat, p3: nat, p4: nat)
    ensures a * p0 * p1 * p2 * p3 * p4 == a * (p0 * p1 * p2 * p3 * p4)
  {
    assert a * p0 * p1 == a * (p0 * p1);
    assert a * (p0 * p1) * p2 == a * (p0 * p1 * p2);
    assert a * (p0 * p1 * p2) * p3 == a * (p0 * p1 * p2 * p3);
    assert a * (p0 * p1 * p2 * p3) * p4 == a * (p0 * p1 * p2 * p3 * p4);
  }

  lemma RightStage(a: Word, on: bool, p: nat)
    requires Factor(p)
    ensures StageRight(a, on, p) == a / Chosen(on, p)
  {}

  lemma Quotients(a: int, p0: nat, p1: nat, p2: nat, p3: nat, p4: nat)
    requires p0 > 0 && p1 > 0 && p2 > 0 && p3 > 0 && p4 > 0
    ensures p0 * p1 * p2 * p3 * p4 > 0
    ensures a / p0 / p1 / p2 / p3 / p4 == a / (p0 * p1 * p2 * p3 * p4)
  {
    DivDiv(a, p0, p1);
    DivDiv(a, p0 * p1, p2);
    DivDiv(a, p0 * p1 * p2, p3);
    DivDiv(a, p0 * p1 * p2 * p3, p4);
  }

  /** The five stages to the right divide by that power. */
  lemma ShiftRightExact(a: Word, n: nat)
    ensures ShiftRight(a, n) == a / B.Pow2(n % 32)
  {
    FactorsArePower(n);
    Quotients(a, Chosen(n % 2 == 1, 2), Chosen(n / 2 % 2 == 1, 4), Chosen(n / 4 % 2 == 1, 16),
              Chosen(n / 8 % 2 == 1, 0x100), Chosen(n / 16 % 2 == 1, 0x1_0000));
  }

  lemma ArithStage(a: Word, on: bool, p: nat)
    requires Factor(p)
    ensures Signed(StageArith(a, on, p)) == Signed(a) / Chosen(on, p)
  {}

  /** The stages with the sign bit divide the signed value by it, rounding down. */
  lemma ShiftArithExact(a: Word, n: nat)
    ensures Signed(ShiftArith(a, n)) == Signed(a) / B.Pow2(n % 32)
  {
    hide StageArith, Chosen, Signed;
    FactorsArePower(n);
    var p0, p1, p2, p3 := Chosen(n % 2 == 1, 2), Chosen(n / 2 % 2 == 1, 4), Chosen(n / 4 % 2 == 1, 16),
                          Chosen(n / 8 % 2 == 1, 0x100);
    var s0 := StageArith(a, n % 2 == 1, 2);
    var s1 := StageArith(s0, n / 2 % 2 == 1, 4);
    var s2 := StageArith(s1, n / 4 % 2 == 1, 16);
    var s3 := StageArith(s2, n / 8 % 2 == 1, 0x100);
    ArithStage(a, n % 2 == 1, 2);
    ArithStage(s0, n / 2 % 2 == 1, 4);
    ArithStage(s1, n / 4 % 2 == 1, 16);
    ArithStage(s2, n / 8 % 2 == 1, 0x100);
    ArithStage(s3, n / 16 % 2 == 1, 0x1_0000);
    Quotients(Signed(a), p0, p1, p2, p3, Chosen(n / 16 % 2 == 1, 0x1_0000));
  }
}
