/** The ThreadKraken assembler (assembler.py): reading one command, encoding it
    as 32 binary digits, and what the processor makes of the word. */
module Tkb {
  import opened Options
  import opened Bits
  import opened Isa

  // ------------------------------------------------------------------- commands

  datatype Cond = Eq | Neq | Lt
  datatype Logic = LAnd | LOr | LXor

  /** A command with its operands read. Register numbers are as written;
      immediates are numbers, a label being replaced by its distance. */
  datatype Command =
    | AddCmd(rd: nat, ra: nat, rb: nat)
    | LogicCmd(op: Logic, rd: nat, ra: nat, rb: nat)
    | NotCmd(rd: nat, ra: nat)
    | AddImm(rd: nat, ra: nat, imm: int)
    | LogicImm(op: Logic, rd: nat, ra: nat, imm: int)
    | ShiftLeftImm(rd: nat, ra: nat, imm: int)
    | ShiftRightImm(rd: nat, ra: nat, imm: int)
    | ShiftArithImm(rd: nat, ra: nat, imm: int)
    | LoadLow(rd: nat, imm: int)
    | LoadHigh(rd: nat, imm: int)
    | Store(ra: nat, rb: nat, imm: int)
    | Load(rd: nat, ra: nat, imm: int)
    | Jal(rd: nat, imm: int)
    | Jalr(rd: nat, ra: nat, imm: int)
    | BranchCmd(cond: Cond, ra: nat, rb: nat, imm: int)
    | ThreadCmd(act: ThreadOp, ra: nat)
    | NewThread(rd: nat, ra: nat, rb: nat)

  type Labels = map<string, nat>

  // ------------------------------------------------------------- reading operands

  function HexDigit(c: char): Option<nat> {
    if '0' <= c <= '9' then Some(c as nat - '0' as nat)
    else if 'a' <= c <= 'f' then Some(c as nat - 'a' as nat + 10)
    else None
  }

  /** `int(s, base)` on a string of digits. */
  function Numeral(s: string, base: nat): Option<nat>
    decreases |s|
  {
    if s == "" then None else
      var d := HexDigit(s[|s| - 1]);
      if d.None? || d.value >= base then None
      else if |s| == 1 then d
      else
        var high := Numeral(s[..|s| - 1], base);
        if high.None? then None else Some(high.value * base + d.value)
  }

  /** Register operands: `r` and a decimal number. */
  function RegNum(tok: string): Option<nat> {
    if tok == "" || tok[0] != 'r' then None else Numeral(tok[1..], 10)
  }

  /** A number without its sign. */
  function Magnitude(s: string): Option<nat> {
    if |s| >= 2 && s[..2] == "0x" then Numeral(s[2..], 16) else Numeral(s, 10)
  }

  /** The operand checks of `imm_to_bin`: a signed field takes magnitudes up to
      2^(n-1) - 1, an unsigned one takes 0 to 2^n - 1 and no minus sign. */
  function Immediate(tok: string, n: nat, signed: bool): (r: Option<int>)
    requires n >= 1
    ensures r.Some? ==> InField(r.value, n, signed)
  {
    if tok == "" then None else
      var neg := tok[0] == '-';
      var s := if neg then tok[1..] else tok;
      var mag := Magnitude(s);
      if mag.None? then None
      else if signed && mag.value > Pow2(n - 1) - 1 then None
      else if !signed && mag.value > Pow2(n) - 1 then None
      else if neg && !signed then None
      else Some(WithSign(neg, mag.value))
  }

  function WithSign(neg: bool, mag: nat): int { if neg then 0 - mag else mag }

  predicate InField(v: int, n: nat, signed: bool)
    requires n >= 1
  {
    if signed then v + Pow2(n - 1) > 0 && v < Pow2(n - 1) else 0 <= v < Pow2(n)
  }

  /** The immediate of a jump: the distance to a label, or a signed number. */
  function Distance(tok: string, labels: Labels, pc: nat): Option<int> {
    if tok in labels then
      var diff := labels[tok] - pc - 1;
      if InField(diff, 12, true) then Some(diff) else None
    else Immediate(tok, 12, true)
  }

  // ---------------------------------------------------------- reading a command

  /** The mnemonics of `func_map`. */
  const MNEMONICS: set<string> :=
    {"add", "not", "and", "or", "xor", "addi", "andi", "ori", "xori", "shlt", "shrt", "shra", "lbi", "slbi",
     "st", "ld", "jal", "jalr", "beq", "bneq", "blt", "slp", "wk", "kill", "nt"}

  /** `cmd_table`: the mnemonics that may carry the atomic suffix. */
  const CMD_TABLE: set<string> := MNEMONICS - {"shra"}

  /** One encoder's reading of its operands. */
  function Read(name: string, args: seq<string>, labels: Labels, pc: nat): Option<Command> {
    if name !in MNEMONICS then None
    else if OneOperand(name) then
      if |args| != 1 || RegNum(args[0]).None? then None
      else Some(ThreadCmd(if name == "slp" then Sleep else if name == "wk" then Wake else Kill,
                          RegNum(args[0]).value))
    else if TwoOperands(name) then
      if |args| != 2 then None
      else if name == "not" then
        var rd, ra := RegNum(args[0]), RegNum(args[1]);
        if rd.Some? && ra.Some? then Some(NotCmd(rd.value, ra.value)) else None
      else
        var rd := RegNum(args[0]);
        var v := if name == "jal" then Distance(args[1], labels, pc) else Immediate(args[1], 16, false);
        if rd.None? || v.None? then None
        else Some(if name == "lbi" then LoadLow(rd.value, v.value)
                  else if name == "slbi" then LoadHigh(rd.value, v.value)
                  else Jal(rd.value, v.value))
    else if |args| != 3 then None
    else
      var x, y := RegNum(args[0]), RegNum(args[1]);
      if x.None? || y.None? then None
      else if OnRegisters(name) then
        var z := RegNum(args[2]);
        if z.None? then None
        else Some(ThreeRegisters(name, x.value, y.value, z.value))
      else
        var v := if Jumps(name) then Distance(args[2], labels, pc)
                 else Immediate(args[2], if Shifts(name) then 5 else 12, TakesSign(name));
        if v.None? then None
        else Some(TwoAndImmediate(name, x.value, y.value, v.value))
  }

  predicate OneOperand(name: string) { name in {"slp", "wk", "kill"} }
  predicate TwoOperands(name: string) { name in {"not", "lbi", "slbi", "jal"} }
  predicate OnRegisters(name: string) { name in {"add", "and", "or", "xor", "nt"} }
  predicate Jumps(name: string) { name in {"beq", "bneq", "blt", "jalr"} }
  predicate Shifts(name: string) { name in {"shlt", "shrt", "shra"} }
  predicate TakesSign(name: string) { name in {"addi", "st", "ld"} }

  function ThreeRegisters(name: string, x: nat, y: nat, z: nat): Command {
    if name == "add" then AddCmd(x, y, z)
    else if name == "and" then LogicCmd(LAnd, x, y, z)
    else if name == "or" then LogicCmd(LOr, x, y, z)
    else if name == "xor" then LogicCmd(LXor, x, y, z)
    else NewThread(x, y, z)
  }

  function TwoAndImmediate(name: string, x: nat, y: nat, v: int): Command {
    if name == "addi" then AddImm(x, y, v)
    else if name == "andi" then LogicImm(LAnd, x, y, v)
    else if name == "ori" then LogicImm(LOr, x, y, v)
    else if name == "xori" then LogicImm(LXor, x, y, v)
    else if name == "shlt" then ShiftLeftImm(x, y, v)
    else if name == "shrt" then ShiftRightImm(x, y, v)
    else if name == "shra" then ShiftArithImm(x, y, v)
    else if name == "st" then Store(x, y, v)
    else if name == "ld" then Load(x, y, v)
    else if name == "jalr" then Jalr(x, y, v)
    else BranchCmd(if name == "beq" then Eq else if name == "bneq" then Neq else Lt, x, y, v)
  }

  // ------------------------------------------------------------------- encoding

  /** A register field: five digits, or more when the number needs them. */
  function Field(r: nat): string { LExt(Bin(r), 5) }

  /** `imm_to_bin`'s digits. */
  function ImmBits(v: int, n: nat): string
    requires n >= 1
  {
    BinDigits(v, n)
  }

  /** The digits between the operands and the atomic bit. */
  function OpCode(c: Command): string {
    match c
    case AddCmd(_, _, _) => "1101111"
    case LogicCmd(op, _, _, _) =>
      (match op case LAnd => "1111111" case LOr => "1011111" case LXor => "0111111")
    case NotCmd(_, _) => "0001111"
    case AddImm(_, _, _) => "1101110"
    case LogicImm(op, _, _, _) =>
      (match op case LAnd => "1111110" case LOr => "1011110" case LXor => "0111110")
    case ShiftLeftImm(_, _, _) => "0011100"
    case ShiftRightImm(_, _, _) => "0101100"
    case ShiftArithImm(_, _, _) => "1001100"
    case LoadLow(_, _) => "0011001"
    case LoadHigh(_, _) => "0101001"
    case Store(_, _, _) => "01101000"
    case Load(_, _, _) => "11101000"
    case Jal(_, _) => "0001010"
    case Jalr(_, _, _) => "0101010"
    case BranchCmd(cond, _, _, _) =>
      (match cond case Eq => "0011010" case Neq => "0111010" case Lt => "1111010")
    case ThreadCmd(op, _) =>
      if op == Sleep then "1010110" else if op == Wake then "0100110" else "0000110"
    case NewThread(_, _, _) => "1110110"
  }

  /** The operand digits in front of the operation code. */
  function Operands(c: Command): string {
    match c
    case AddCmd(rd, ra, rb) => Field(rd) + Field(ra) + Field(rb) + Zeros(9)
    case LogicCmd(_, rd, ra, rb) => Field(rd) + Field(ra) + Field(rb) + Zeros(9)
    case NewThread(rd, ra, rb) => Field(rd) + Field(ra) + Field(rb) + Zeros(9)
    case NotCmd(rd, ra) => Field(rd) + Field(ra) + Zeros(14)
    case ThreadCmd(_, ra) => Zeros(5) + Field(ra) + Zeros(14)
    case AddImm(rd, ra, v) => Field(rd) + Field(ra) + ImmBits(v, 12) + Zeros(2)
    case LogicImm(_, rd, ra, v) => Field(rd) + Field(ra) + ImmBits(v, 12) + Zeros(2)
    case Jalr(rd, ra, v) => Field(rd) + Field(ra) + ImmBits(v, 12) + Zeros(2)
    case BranchCmd(_, ra, rb, v) => Field(rb) + Field(ra) + ImmBits(v, 12) + Zeros(2)
    case Jal(rd, v) => Field(rd) + Zeros(5) + ImmBits(v, 12) + Zeros(2)
    case ShiftLeftImm(rd, ra, v) => Field(rd) + Field(ra) + Zeros(7) + ImmBits(v, 5) + Zeros(2)
    case ShiftRightImm(rd, ra, v) => Field(rd) + Field(ra) + Zeros(7) + ImmBits(v, 5) + Zeros(2)
    case ShiftArithImm(rd, ra, v) => Field(rd) + Field(ra) + Zeros(7) + ImmBits(v, 5) + Zeros(2)
    case LoadLow(rd, v) => Field(rd) + "0" + ImmBits(v, 16) + Zeros(2)
    case LoadHigh(rd, v) => Field(rd) + "0" + ImmBits(v, 16) + Zeros(2)
    case Store(ra, rb, v) => Field(rb) + Field(ra) + ImmBits(v, 12) + "0"
    case Load(rd, ra, v) => Field(rd) + Field(ra) + ImmBits(v, 12) + "0"
  }

  /** The encoders, with the last digit replaced by the atomic bit (`processCmd`). */
  function Encode(c: Command, atomic: bool): string {
    Operands(c) + OpCode(c) + (if atomic then "1" else "0")
  }

  // --------------------------------------------------------- fields of the word

  lemma HighCuts(s: string)
    requires |s| == 32
    ensures Val(s) < MODULUS
    ensures Cut(Val(s), 0x800_0000, 32) == Val(s[..5])
    ensures Cut(Val(s), 0x40_0000, 32) == Val(s[5..10])
    ensures Cut(Val(s), 0x2_0000, 32) == Val(s[10..15])
    ensures Cut(Val(s), 0x400, 0x1_0000) == Val(s[6..22])
  {
    hide Pow2, Val, Cut;
    Powers();
    Slice(s, 0, 5);
    Slice(s, 5, 10);
    Slice(s, 10, 15);
    Slice(s, 6, 22);
    assert s[0..5] == s[..5];
  }

  lemma LowCuts(s: string)
    requires |s| == 32
    ensures Cut(Val(s), 0x100, 2) == Digit(s[23])
    ensures Cut(Val(s), 0x20, 8) == Val(s[24..27])
    ensures Cut(Val(s), 2, 16) == Val(s[27..31])
    ensures Cut(Val(s), 1, 2) == Digit(s[31])
  {
    hide Pow2, Val, Cut;
    Powers();
    Slice(s, 23, 24);
    Slice(s, 24, 27);
    Slice(s, 27, 31);
    Slice(s, 31, 32);
    assert s[23..24] == [s[23]] && s[31..32] == [s[31]];
    OneDigit(s[23]);
    OneDigit(s[31]);
  }

  /** What the decoder reads from a word given by its digits. */
  lemma Fields(s: string)
    requires |s| == 32
    ensures Val(s) < MODULUS
    ensures Val(s) / 0x800_0000 % 32 == Val(s[..5])
    ensures Val(s) / 0x40_0000 % 32 == Val(s[5..10])
    ensures Val(s) / 0x2_0000 % 32 == Val(s[10..15])
    ensures Val(s) / 0x400 % 0x1_0000 == Val(s[6..22])
    ensures Val(s) / 0x100 % 2 == Digit(s[23])
    ensures Val(s) / 0x20 % 8 == Val(s[24..27])
    ensures Val(s) / 2 % 16 == Val(s[27..31])
    ensures Val(s) % 2 == Digit(s[31])
  {
    hide Pow2, Val, Digit;
    HighCuts(s);
    LowCuts(s);
  }

  lemma Powers()
    ensures Pow2(0) == 1 && Pow2(1) == 2 && Pow2(3) == 8 && Pow2(4) == 16 && Pow2(5) == 32
    ensures Pow2(8) == 0x100 && Pow2(10) == 0x400 && Pow2(11) == 0x800 && Pow2(12) == 0x1000
    ensures Pow2(16) == 0x1_0000 && Pow2(17) == 0x2_0000 && Pow2(22) == 0x40_0000
    ensures Pow2(27) == 0x800_0000 && Pow2(32) == MODULUS
  {}

  /** The parts of an encoded command: the first register field, the nineteen
      digits after it, the operation code and the atomic bit. */
  datatype Layout = Layout(first: string, rest: string, code: string, last: string)

  predicate WellFormed(l: Layout) {
    && |l.first| == 5 && |l.rest| == 19 && |l.code| == 7 && |l.last| == 1
  }

  function Text(l: Layout): string { l.first + l.rest + l.code + l.last }

  /** The decoder's fields of a laid-out word. */
  lemma LayoutFields(l: Layout)
    requires WellFormed(l)
    ensures |Text(l)| == 32 && Val(Text(l)) < MODULUS
    ensures var w := Val(Text(l));
            && w / 0x800_0000 % 32 == Val(l.first)
            && w / 0x40_0000 % 32 == Val(l.rest[..5])
            && w / 0x2_0000 % 32 == Val(l.rest[5..10])
            && w / 0x400 % 0x1_0000 == Val(l.rest[1..17])
            && w / 0x100 % 2 == Digit(l.rest[18])
            && FunctOf(w) == Val(l.code[..3])
            && Opcode(w) == Val(l.code[3..])
            && (AtomicBit(w) <==> l.last == "1")
  {
    hide Pow2, Val;
    var s := Text(l);
    Fields(s);
    assert s[..5] == l.first;
    assert s[5..10] == l.rest[..5];
    assert s[10..15] == l.rest[5..10];
    assert s[6..22] == l.rest[1..17];
    assert s[23] == l.rest[18];
    assert s[24..27] == l.code[..3];
    assert s[27..31] == l.code[3..];
    assert s[31] == l.last[0];
    assert l.last == [l.last[0]];
  }

  /** The commands whose encoding fills one word. */
  predicate Registers(c: Command) {
    match c
    case AddCmd(rd, ra, rb) => rd < 32 && ra < 32 && rb < 32
    case LogicCmd(_, rd, ra, rb) => rd < 32 && ra < 32 && rb < 32
    case NewThread(rd, ra, rb) => rd < 32 && ra < 32 && rb < 32
    case NotCmd(rd, ra) => rd < 32 && ra < 32
    case ThreadCmd(_, ra) => ra < 32
    case AddImm(rd, ra, _) => rd < 32 && ra < 32
    case LogicImm(_, rd, ra, _) => rd < 32 && ra < 32
    case Jalr(rd, ra, _) => rd < 32 && ra < 32
    case BranchCmd(_, ra, rb, _) => rb < 32 && ra < 32
    case Jal(rd, _) => rd < 32
    case ShiftLeftImm(rd, ra, _) => rd < 32 && ra < 32
    case ShiftRightImm(rd, ra, _) => rd < 32 && ra < 32
    case ShiftArithImm(rd, ra, _) => rd < 32 && ra < 32
    case LoadLow(rd, _) => rd < 32
    case LoadHigh(rd, _) => rd < 32
    case Store(ra, rb, _) => ra < 32 && rb < 32
    case Load(rd, ra, _) => rd < 32 && ra < 32
  }

  /** The immediates that the operand checks let through. */
  predicate Ranges(c: Command) {
    match c
    case AddImm(_, _, v) => InField(v, 12, true)
    case LogicImm(_, _, _, v) => InField(v, 12, false)
    case Jalr(_, _, v) => InField(v, 12, true)
    case BranchCmd(_, _, _, v) => InField(v, 12, true)
    case Jal(_, v) => InField(v, 12, true)
    case ShiftLeftImm(_, _, v) => InField(v, 5, false)
    case ShiftRightImm(_, _, v) => InField(v, 5, false)
    case ShiftArithImm(_, _, v) => InField(v, 5, false)
    case LoadLow(_, v) => InField(v, 16, false)
    case LoadHigh(_, v) => InField(v, 16, false)
    case Store(_, _, v) => InField(v, 12, true)
    case Load(_, _, v) => InField(v, 12, true)
    case ThreadCmd(op, _) => op == Sleep || op == Wake || op == Kill
    case _ => true
  }

  lemma ReadRanges(name: string, args: seq<string>, labels: Labels, pc: nat)
    ensures Read(name, args, labels, pc).Some? ==> Ranges(Read(name, args, labels, pc).value)
  {
    hide Immediate, Distance, RegNum, InField;
    if |args| == 2 {
      DistanceFits(args[1], labels, pc);
    } else if |args| == 3 {
      DistanceFits(args[2], labels, pc);
    }
  }

  lemma DistanceFits(tok: string, labels: Labels, pc: nat)
    ensures var v := Distance(tok, labels, pc); v.Some? ==> InField(v.value, 12, true)
  {}

  /** A register field is five digits exactly for the 32 registers there are. */
  lemma FieldExact(r: nat)
    ensures |Field(r)| >= 5 && Digits(Field(r)) && Val(Field(r)) == r
    ensures |Field(r)| == 5 <==> r < 32
  {
    hide Pow2, Val, Bin, LExt;
    Powers();
    FieldWidth(r, 5);
  }

  lemma CodeLength(c: Command)
    ensures match c
            case Load(_, _, _) => OpCode(c) == "1" + "1101000"
            case Store(_, _, _) => OpCode(c) == "0" + "1101000"
            case _ => |OpCode(c)| == 7
  {}

  /** An encoded command has 32 digits exactly when every register exists. */
  lemma WidthExact(c: Command, atomic: bool)
    requires Ranges(c)
    ensures |Encode(c, atomic)| == 32 <==> Registers(c)
  {
    hide Field, BinDigits, InField, OpCode, Zeros;
    CodeLength(c);
    forall r: nat ensures |Field(r)| >= 5 && (|Field(r)| == 5 <==> r < 32) { FieldExact(r); }
  }
}
