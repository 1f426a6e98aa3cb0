/** The words of the MIPS back end as the MIPS32 architecture manual draws them: binary
    codes and fields from left to right, mnemonic by mnemonic. */
module Manual {
  import opened Options
  import opened Numerals
  import opened Hex
  import opened Mips
  import B = Bits

  // -------------------------------------------------------------------- registers

  /** The names of the registers, in the order of their numbers. */
  const NAMES: seq<string> := [
    "$zero", "$at", "$v0", "$v1", "$a0", "$a1", "$a2", "$a3", "$t0", "$t1", "$t2", "$t3", "$t4", "$t5", "$t6", "$t7",
    "$s0", "$s1", "$s2", "$s3", "$s4", "$s5", "$s6", "$s7", "$t8", "$t9", "$k0", "$k1", "$gp", "$sp", "$fp", "$ra"]

  lemma RegisterNamed(r: nat)
    requires r < 32
    ensures RegNum(NAMES[r]) == Some(r)
  {
    if r < 16 {
      assert FRIENDLY[NAMES[r]] == r;
    } else {
      assert FRIENDLY[NAMES[r]] == r;
    }
  }

  // ----------------------------------------------------------------------- formats

  /** How an instruction is written, and its code: of the function field for the first
      two, of the operation field for the others. */
  datatype Form =
    | Three(code: string)       // op rd, rs, rt
    | Shift(code: string)       // op rd, operand, sa
    | Return                    // jr rs
    | Immediate(code: string)   // op rt, rs, imm
    | Access(code: string)      // op rt, imm(rs)
    | Jump(code: string)        // op target

  predicate OfFunction(f: Form) { f.Three? || f.Shift? || f.Return? }

  function FormOf(name: string): Option<Form> {
    var f := FunctionForm(name);
    if f.Some? then f else OperationForm(name)
  }

  function FunctionForm(name: string): (f: Option<Form>)
    ensures f.Some? ==> OfFunction(f.value)
  {
    if name == "add" then Some(Three("100000"))
    else if name == "addu" then Some(Three("100001"))
    else if name == "sub" then Some(Three("100010"))
    else if name == "subu" then Some(Three("100011"))
    else if name == "and" then Some(Three("100100"))
    else if name == "or" then Some(Three("100101"))
    else if name == "nor" then Some(Three("100111"))
    else if name == "slt" then Some(Three("101010"))
    else if name == "sltu" then Some(Three("101011"))
    else if name == "sll" then Some(Shift("000000"))
    else if name == "srl" then Some(Shift("000010"))
    else if name == "jr" then Some(Return)
    else None
  }

  function OperationForm(name: string): (f: Option<Form>)
    ensures f.Some? ==> !OfFunction(f.value)
  {
    if name == "beq" then Some(Immediate("000100"))
    else if name == "bne" then Some(Immediate("000101"))
    else if name == "addi" then Some(Immediate("001000"))
    else if name == "addiu" then Some(Immediate("001001"))
    else if name == "slti" then Some(Immediate("001010"))
    else if name == "sltiu" then Some(Immediate("001011"))
    else if name == "andi" then Some(Immediate("001100"))
    else if name == "ori" then Some(Immediate("001101"))
    else if name == "xori" then Some(Immediate("001110"))
    else if name == "lw" then Some(Access("100011"))
    else if name == "lbu" then Some(Access("100100"))
    else if name == "lhu" then Some(Access("100101"))
    else if name == "sb" then Some(Access("101000"))
    else if name == "sh" then Some(Access("101001"))
    else if name == "sw" then Some(Access("101011"))
    else if name == "j" then Some(Jump("000010"))
    else if name == "jal" then Some(Jump("000011"))
    else None
  }

  function CodeOf(f: Form): Operation {
    match f
    case Three(code) => Operation(R, 0, B.Val(code))
    case Shift(code) => Operation(R, 0, B.Val(code))
    case Return => Operation(R, 0, B.Val("001000"))
    case Immediate(code) => Operation(I, B.Val(code), 0)
    case Access(code) => Operation(I, B.Val(code), 0)
    case Jump(code) => Operation(J, B.Val(code), 0)
  }

  lemma ThreeDigits(s: string)
    requires |s| == 3
    ensures B.Val(s) == 4 * B.Digit(s[0]) + 2 * B.Digit(s[1]) + B.Digit(s[2])
  {
    hide B.Val, B.Digit;
    assert s[..1] == [s[0]] && s[..2] == [s[0]] + [s[1]] && s == s[..2] + [s[2]];
    B.OneDigit(s[0]);
    B.ValSnoc([s[0]], s[1]);
    B.ValSnoc(s[..2], s[2]);
  }

  lemma SixDigits(s: string)
    requires |s| == 6
    ensures B.Val(s) == 32 * B.Digit(s[0]) + 16 * B.Digit(s[1]) + 8 * B.Digit(s[2])
                        + 4 * B.Digit(s[3]) + 2 * B.Digit(s[4]) + B.Digit(s[5])
  {
    hide B.Val, B.Digit;
    ThreeDigits(s[..3]);
    ThreeDigits(s[3..]);
    B.ValCat(s[..3], s[3..]);
    assert s == s[..3] + s[3..] && B.Pow2(3) == 8;
  }

  lemma LowCodes()
    ensures B.Val("000000") == 0 && B.Val("000010") == 2 && B.Val("000011") == 3 && B.Val("000100") == 4
    ensures B.Val("000101") == 5 && B.Val("001000") == 8 && B.Val("001001") == 9 && B.Val("001010") == 10
    ensures B.Val("001011") == 11 && B.Val("001100") == 12 && B.Val("001101") == 13 && B.Val("001110") == 14
  {
    hide B.Val;
    SixDigits("000000");
    SixDigits("000010");
    SixDigits("000011");
    SixDigits("000100");
    SixDigits("000101");
    SixDigits("001000");
    SixDigits("001001");
    SixDigits("001010");
    SixDigits("001011");
    SixDigits("001100");
    SixDigits("001101");
    SixDigits("001110");
  }

  lemma HighCodes()
    ensures B.Val("100000") == 32 && B.Val("100001") == 33 && B.Val("100010") == 34 && B.Val("100011") == 35
    ensures B.Val("100100") == 36 && B.Val("100101") == 37 && B.Val("100111") == 39 && B.Val("101000") == 40
    ensures B.Val("101001") == 41 && B.Val("101010") == 42 && B.Val("101011") == 43
  {
    hide B.Val;
    SixDigits("100000");
    SixDigits("100001");
    SixDigits("100010");
    SixDigits("100011");
    SixDigits("100100");
    SixDigits("100101");
    SixDigits("100111");
    SixDigits("101000");
    SixDigits("101001");
    SixDigits("101010");
    SixDigits("101011");
  }

  lemma SumsAgree(name: string)
    requires name in {"add", "addu", "sub", "subu"}
    ensures FormOf(name).Some? && OperationOf(name) == Some(CodeOf(FormOf(name).value))
  {
    hide B.Val;
    HighCodes();
  }

  lemma LogicAgrees(name: string)
    requires name in {"and", "or", "nor", "slt", "sltu"}
    ensures FormOf(name).Some? && OperationOf(name) == Some(CodeOf(FormOf(name).value))
  {
    hide B.Val;
    HighCodes();
  }

  lemma ShiftsAgree(name: string)
    requires name in {"sll", "srl", "jr"}
    ensures FormOf(name).Some? && OperationOf(name) == Some(CodeOf(FormOf(name).value))
  {
    hide B.Val;
    LowCodes();
  }

  lemma FunctionNames(name: string)
    requires FormOf(name).Some? && OfFunction(FormOf(name).value)
    ensures name in {"add", "addu", "sub", "subu"} || name in {"and", "or", "nor", "slt", "sltu"}
            || name in {"sll", "srl", "jr"}
  {}

  lemma OperationsAgree(name: string)
    requires FormOf(name).Some? && !OfFunction(FormOf(name).value)
    ensures OperationOf(name) == Some(CodeOf(FormOf(name).value))
  {
    hide B.Val;
    LowCodes();
    HighCodes();
  }

  /** The codes are those of the manual, for the mnemonics there are and for no others. */
  lemma CodesAgree(name: string)
    ensures OperationOf(name) == if FormOf(name).None? then None else Some(CodeOf(FormOf(name).value))
  {
    if FormOf(name).None? {
      NoSuchName(name);
    } else if OfFunction(FormOf(name).value) {
      FunctionNames(name);
      if name in {"add", "addu", "sub", "subu"} { SumsAgree(name); }
      else if name in {"sll", "srl", "jr"} { ShiftsAgree(name); }
      else { LogicAgrees(name); }
    } else {
      OperationsAgree(name);
    }
    hide FormOf, OperationOf, CodeOf;
  }

  const FUNCTIONS := {"add", "addu", "sub", "subu", "and", "or", "nor", "slt", "sltu", "sll", "srl", "jr"}

  lemma NoFunction(name: string)
    ensures FunctionForm(name).Some? <==> name in FUNCTIONS
  {}

  lemma NoSuchName(name: string)
    requires FormOf(name).None?
    ensures OperationOf(name).None?
  {
    NoFunction(name);
    hide FunctionForm;
  }

  // ------------------------------------------------------------------------- words

  function Five(v: int): string { B.BinDigits(v, 5) }

  function DrawnR(rs: int, rt: int, rd: int, sa: int, funct: string): string {
    "000000" + Five(rs) + Five(rt) + Five(rd) + Five(sa) + funct
  }

  function DrawnI(op: string, rs: int, rt: int, imm: int): string { op + Five(rs) + Five(rt) + B.BinDigits(imm, 16) }

  function DrawnJ(op: string, index: int): string { op + B.BinDigits(index, 26) }

  lemma Powers()
    ensures B.Pow2(5) == 0x20 && B.Pow2(6) == 0x40 && B.Pow2(16) == 0x1_0000 && B.Pow2(26) == 0x400_0000
  {
    assert B.Pow2(10) == 0x400;
    assert B.Pow2(20) == 0x10_0000;
  }

  /** Fields joined from left to right, the widths of the right parts given. */
  lemma JoinR(rs: int, rt: int, rd: int, sa: int, funct: string)
    requires |funct| == 6
    ensures |DrawnR(rs, rt, rd, sa, funct)| == 32
    ensures B.Val(DrawnR(rs, rt, rd, sa, funct)) == Encode(rs, rt, rd, sa, Operation(R, 0, B.Val(funct)))
  {
    hide B.Val, B.BinDigits, B.Pow2;
    Powers();
    var a := "000000" + Five(rs);
    var b := a + Five(rt);
    var c := b + Five(rd);
    var d := c + Five(sa);
    B.ValCat("000000", Five(rs));
    B.ValCat(a, Five(rt));
    B.ValCat(b, Five(rd));
    B.ValCat(c, Five(sa));
    B.ValCat(d, funct);
    SixDigits("000000");
    assert B.Val(funct) % 64 == B.Val(funct) by { B.SmallMod(B.Val(funct), 64); }
  }

  lemma JoinI(op: string, rs: int, rt: int, imm: int)
    requires |op| == 6
    ensures |DrawnI(op, rs, rt, imm)| == 32 && B.Val(op) < 64
    ensures B.Val(DrawnI(op, rs, rt, imm)) == Encode(rs, rt, 0, imm, Operation(I, B.Val(op), 0))
  {
    hide B.Val, B.BinDigits, B.Pow2;
    Powers();
    var a := op + Five(rs);
    var b := a + Five(rt);
    B.ValCat(op, Five(rs));
    B.ValCat(a, Five(rt));
    B.ValCat(b, B.BinDigits(imm, 16));
  }

  lemma JoinJ(op: string, index: int)
    requires |op| == 6
    ensures |DrawnJ(op, index)| == 32 && B.Val(op) < 64
    ensures B.Val(DrawnJ(op, index)) == Encode(0, 0, 0, index, Operation(J, B.Val(op), 0))
  {
    hide B.Val, B.BinDigits, B.Pow2;
    Powers();
    B.ValCat(op, B.BinDigits(index, 26));
  }

  /** What an instruction is drawn as; none when an operand is missing or cannot be read.
      The shifts name their operand in rs. */
  function Drawn(args: seq<string>, pc: Word, syms: Syms): Option<string>
    requires args != []
  {
    match FormOf(args[0])
    case None => None
    case Some(Three(code)) =>
      if |args| != 4 || RegNum(args[1]).None? || RegNum(args[2]).None? || RegNum(args[3]).None? then None
      else Some(DrawnR(RegNum(args[2]).value, RegNum(args[3]).value, RegNum(args[1]).value, 0, code))
    case Some(Shift(code)) =>
      if |args| != 4 || RegNum(args[1]).None? || RegNum(args[2]).None? || Imm(args[3]).None? then None
      else Some(DrawnR(RegNum(args[2]).value, 0, RegNum(args[1]).value, Imm(args[3]).value, code))
    case Some(Return) =>
      if |args| != 2 || RegNum(args[1]).None? then None
      else Some(DrawnR(RegNum(args[1]).value, 0, 0, 0, "001000"))
    case Some(Immediate(code)) =>
      if |args| != 4 || RegNum(args[1]).None? || RegNum(args[2]).None? then None
      else if args[3] in syms then
        Some(DrawnI(code, RegNum(args[2]).value, RegNum(args[1]).value, Offset(pc, syms[args[3]] % MODULUS)))
      else if Imm(args[3]).None? then None
      else Some(DrawnI(code, RegNum(args[2]).value, RegNum(args[1]).value, Imm(args[3]).value))
    case Some(Access(code)) =>
      if |args| != 3 then None
      else
        var (imm, reg, left, right) := Parenthesised(args[2]);
        if !left || !right || RegNum(args[1]).None? || RegNum(reg).None? || Imm(imm).None? then None
        else Some(DrawnI(code, RegNum(reg).value, RegNum(args[1]).value, Imm(imm).value))
    case Some(Jump(code)) =>
      if |args| != 2 then None
      else if args[1] in syms then Some(DrawnJ(code, syms[args[1]] % MODULUS / 4))
      else if Imm(args[1]).None? then None
      else Some(DrawnJ(code, Imm(args[1]).value))
  }

  function WordOf(picture: Option<string>): Option<nat> {
    if picture.None? then None else Some(B.Val(picture.value))
  }

  lemma SixLong(name: string)
    ensures FormOf(name).Some? && !FormOf(name).value.Return? ==> |FormOf(name).value.code| == 6
  {}

  /** The codes fall into the classes by which the assembler tells the forms apart. */
  lemma CodeClass(name: string)
    requires FormOf(name).Some?
    ensures match FormOf(name).value
            case Three(code) => |code| == 6 && B.Val(code) >= 32
            case Shift(code) => |code| == 6 && B.Val(code) in SHIFTS
            case Return => B.Val("001000") == 8
            case Immediate(code) => |code| == 6 && B.Val(code) !in MEMORY
            case Access(code) => |code| == 6 && B.Val(code) in MEMORY
            case Jump(code) => |code| == 6
  {
    hide B.Val;
    LowCodes();
    HighCodes();
  }

  lemma ThreeWord(args: seq<string>, pc: Word, syms: Syms, o: Operation)
    requires args != [] && OperationOf(args[0]) == Some(o) && o.format == R && o.funct >= 32 && o.op < 64
    ensures Assemble(args, pc, syms)
         == if |args| == 4 && RegNum(args[1]).Some? && RegNum(args[2]).Some? && RegNum(args[3]).Some?
            then Some(Encode(RegNum(args[2]).value, RegNum(args[3]).value, RegNum(args[1]).value, 0, o)) else None
  {
    hide OperationOf, RegNum, Imm, Encode;
  }

  lemma ThreeAssembled(args: seq<string>, pc: Word, syms: Syms)
    requires args != [] && FormOf(args[0]).Some? && FormOf(args[0]).value.Three?
    ensures Assemble(args, pc, syms) == WordOf(Drawn(args, pc, syms))
  {
    hide FormOf, OperationOf, RegNum, Imm, Encode, B.Val, DrawnR, Assemble;
    var name := args[0];
    CodesAgree(name);
    CodeClass(name);
    var code := FormOf(name).value.code;
    ThreeWord(args, pc, syms, Operation(R, 0, B.Val(code)));
    if |args| == 4 && RegNum(args[1]).Some? && RegNum(args[2]).Some? && RegNum(args[3]).Some? {
      JoinR(RegNum(args[2]).value, RegNum(args[3]).value, RegNum(args[1]).value, 0, code);
    }
  }

  lemma ShiftWord(args: seq<string>, pc: Word, syms: Syms, o: Operation)
    requires args != [] && OperationOf(args[0]) == Some(o) && o.format == R && o.funct in SHIFTS && o.op < 64
    ensures Assemble(args, pc, syms)
         == if |args| == 4 && RegNum(args[1]).Some? && RegNum(args[2]).Some? && Imm(args[3]).Some?
            then Some(Encode(RegNum(args[2]).value, 0, RegNum(args[1]).value, Imm(args[3]).value, o)) else None
  {
    hide OperationOf, RegNum, Imm, Encode;
  }

  lemma ShiftAssembled(args: seq<string>, pc: Word, syms: Syms)
    requires args != [] && FormOf(args[0]).Some? && FormOf(args[0]).value.Shift?
    ensures Assemble(args, pc, syms) == WordOf(Drawn(args, pc, syms))
  {
    hide FormOf, OperationOf, RegNum, Imm, Encode, B.Val, DrawnR, Assemble;
    var name := args[0];
    CodesAgree(name);
    CodeClass(name);
    var code := FormOf(name).value.code;
    ShiftWord(args, pc, syms, Operation(R, 0, B.Val(code)));
    if |args| == 4 && RegNum(args[1]).Some? && RegNum(args[2]).Some? && Imm(args[3]).Some? {
      JoinR(RegNum(args[2]).value, 0, RegNum(args[1]).value, Imm(args[3]).value, code);
    }
  }

  lemma ReturnWord(args: seq<string>, pc: Word, syms: Syms, o: Operation)
    requires args != [] && OperationOf(args[0]) == Some(o) && o.format == R && o.funct == 8 && o.op < 64
    ensures Assemble(args, pc, syms)
         == if |args| == 2 && RegNum(args[1]).Some? then Some(Encode(RegNum(args[1]).value, 0, 0, 0, o)) else None
  {
    hide OperationOf, RegNum, Imm, Encode;
  }

  lemma ReturnAssembled(args: seq<string>, pc: Word, syms: Syms)
    requires args != [] && FormOf(args[0]).Some? && FormOf(args[0]).value.Return?
    ensures Assemble(args, pc, syms) == WordOf(Drawn(args, pc, syms))
  {
    hide FormOf, OperationOf, RegNum, Imm, Encode, B.Val, DrawnR, Assemble;
    var name := args[0];
    CodesAgree(name);
    CodeClass(name);
    var code := "001000";
    ReturnWord(args, pc, syms, Operation(R, 0, B.Val(code)));
    if |args| == 2 && RegNum(args[1]).Some? {
      JoinR(RegNum(args[1]).value, 0, 0, 0, code);
    }
  }

  lemma ImmediateAssembled(args: seq<string>, pc: Word, syms: Syms)
    requires args != [] && FormOf(args[0]).Some? && FormOf(args[0]).value.Immediate?
    ensures Assemble(args, pc, syms) == WordOf(Drawn(args, pc, syms))
  {
    hide FormOf, OperationOf, RegNum, Imm, Encode, B.Val, Parenthesised, Offset, DrawnR, DrawnI, DrawnJ;
    var name := args[0];
    CodesAgree(name);
    CodeClass(name);
    var code := FormOf(name).value.code;
    var o := Operation(I, B.Val(code), 0);
    assert OperationOf(name) == Some(o);
    if |args| == 4 && RegNum(args[1]).Some? && RegNum(args[2]).Some? && Lookup(args[3], syms, pc).Some? {
      JoinI(code, RegNum(args[2]).value, RegNum(args[1]).value, Lookup(args[3], syms, pc).value);
    }
  }

  lemma AccessAssembled(args: seq<string>, pc: Word, syms: Syms)
    requires args != [] && FormOf(args[0]).Some? && FormOf(args[0]).value.Access?
    ensures Assemble(args, pc, syms) == WordOf(Drawn(args, pc, syms))
  {
    hide FormOf, OperationOf, RegNum, Imm, Encode, B.Val, Parenthesised, Lookup, DrawnR, DrawnI, DrawnJ;
    var name := args[0];
    CodesAgree(name);
    CodeClass(name);
    var code := FormOf(name).value.code;
    var o := Operation(I, B.Val(code), 0);
    assert OperationOf(name) == Some(o);
    if |args| == 3 {
      var (imm, reg, left, right) := Parenthesised(args[2]);
      if RegNum(args[1]).Some? && RegNum(reg).Some? && Imm(imm).Some? {
        JoinI(code, RegNum(reg).value, RegNum(args[1]).value, Imm(imm).value);
      }
    }
  }

  lemma JumpAssembled(args: seq<string>, pc: Word, syms: Syms)
    requires args != [] && FormOf(args[0]).Some? && FormOf(args[0]).value.Jump?
    ensures Assemble(args, pc, syms) == WordOf(Drawn(args, pc, syms))
  {
    hide FormOf, OperationOf, RegNum, Imm, Encode, B.Val, Parenthesised, Lookup, DrawnR, DrawnI, DrawnJ;
    var name := args[0];
    CodesAgree(name);
    CodeClass(name);
    var code := FormOf(name).value.code;
    var o := Operation(J, B.Val(code), 0);
    assert OperationOf(name) == Some(o);
    if |args| == 2 && args[1] in syms {
      JoinJ(code, syms[args[1]] % MODULUS / 4);
    } else if |args| == 2 && Imm(args[1]).Some? {
      JoinJ(code, Imm(args[1]).value);
    }
  }

  /** An instruction assembles exactly when it can be drawn, and then to the word drawn. */
  lemma AssembleExact(args: seq<string>, pc: Word, syms: Syms)
    ensures Assemble(args, pc, syms) == if args == [] then Some(0) else WordOf(Drawn(args, pc, syms))
  {
    if args != [] {
      match FormOf(args[0])
      case None => CodesAgree(args[0]);
      case Some(Three(_)) => ThreeAssembled(args, pc, syms);
      case Some(Shift(_)) => ShiftAssembled(args, pc, syms);
      case Some(Return) => ReturnAssembled(args, pc, syms);
      case Some(Immediate(_)) => ImmediateAssembled(args, pc, syms);
      case Some(Access(_)) => AccessAssembled(args, pc, syms);
      case Some(Jump(_)) => JumpAssembled(args, pc, syms);
    }
    hide FormOf, OperationOf, RegNum, Imm, Encode, B.Val, Parenthesised, Lookup;
  }

  // ------------------------------------------------------------------ operand texts

  predicate Free(s: string) { forall i | 0 <= i < |s| :: s[i] != '(' && s[i] != ')' }

  lemma {:induction false} FreeText(s: string)
    requires Free(s)
    ensures Parenthesised(s) == (s, "", false, false)
    decreases |s|
  {
    if s != "" {
      FreeText(s[..|s| - 1]);
      assert s == s[..|s| - 1] + [s[|s| - 1]];
    }
  }

  lemma {:induction false} Inside(imm: string, reg: string)
    requires Free(imm) && Free(reg)
    ensures Parenthesised(imm + "(" + reg) == (imm, reg, true, false)
    decreases |reg|
  {
    var s := imm + "(" + reg;
    if reg == "" {
      assert s[..|s| - 1] == imm;
      FreeText(imm);
    } else {
      var init := reg[..|reg| - 1];
      assert s[..|s| - 1] == imm + "(" + init && reg == init + [reg[|reg| - 1]];
      Inside(imm, init);
    }
  }

  /** `imm(reg)` is split at its parentheses. */
  lemma AccessSplit(imm: string, reg: string)
    requires Free(imm) && Free(reg)
    ensures Parenthesised(imm + "(" + reg + ")") == (imm, reg, true, true)
  {
    var s := imm + "(" + reg + ")";
    assert s[..|s| - 1] == imm + "(" + reg;
    Inside(imm, reg);
  }

  /** Immediates in octal, decimal and hexadecimal, and registers by their numbers. */
  lemma NumbersRead(v: int, base: nat)
    requires base == 8 || base == 10 || base == 16
    ensures Imm(NumeralText(v, base)) == Some(v % MODULUS)
    ensures v >= 0 ==> RegNum("$" + NumText(v, 10)) == Some(v)
  {
    NumeralReadsBack(v, base, MODULUS);
    if v >= 0 { NumberedRegister(v); }
  }

  lemma {:induction false} DecimalDigits(n: nat)
    ensures forall i | 0 <= i < |NumText(n, 10)| :: '0' <= NumText(n, 10)[i] <= '9'
  {
    NumTextStep(n, 10);
    if n >= 10 { DecimalDigits(n / 10); }
  }

  lemma NumberedRegister(r: nat)
    ensures RegNum("$" + NumText(r, 10)) == Some(r)
  {
    var digits := NumText(r, 10);
    var s := "$" + digits;
    PositionalBack(r, 10);
    DecimalDigits(r);
    hide NumText, Positional, RegNum, FRIENDLY;
    assert s[1..] == digits && forall i | 1 <= i < |s| :: s[i] == digits[i - 1];
    Unnamed(s);
    ByNumber(s);
  }

  lemma ByNumber(s: string)
    requires s !in FRIENDLY && |s| > 1 && s[0] == '$' && forall i | 1 <= i < |s| :: '0' <= s[i] <= '9'
    ensures RegNum(s) == Positional(s[1..], 10)
  {
    hide FRIENDLY, Positional;
  }

  lemma Unnamed(s: string)
    requires |s| > 1 && '0' <= s[1] <= '9'
    ensures s !in FRIENDLY
  {}

  /** A line with a label defines it, and keeps what follows. */
  lemma LabelDropped(name: string, rest: seq<string>)
    requires forall i | 0 <= i < |name| :: name[i] != ':'
    ensures HasLabel([name + ":"] + rest) && LabelName([name + ":"] + rest) == name
    ensures ArgsOf([name + ":"] + rest) == rest
  {
    AfterLabel(name);
    var parts := [name + ":"] + rest;
    assert parts[0] == name + ":" && parts[1..] == rest;
  }

  /** A second label on the line is not seen: only the first colon counts. */
  lemma SecondLabelKept(first: string, second: string, rest: seq<string>)
    requires second != "" && forall i | 0 <= i < |first| :: first[i] != ':'
    ensures ArgsOf([first + ":" + second + ":"] + rest) == [second + ":"] + rest
  {
    var parts := [first + ":" + second + ":"] + rest;
    AfterFirst(first, second + ":");
    assert parts[0] == first + ":" + (second + ":") && parts[1..] == rest;
  }

  lemma {:induction false} AfterFirst(name: string, more: string)
    requires forall i | 0 <= i < |name| :: name[i] != ':'
    ensures AfterColon(name + ":" + more) == more
  {
    if name != "" {
      assert (name + ":" + more)[0] == name[0] && (name + ":" + more)[1..] == name[1..] + ":" + more;
      AfterFirst(name[1..], more);
    } else {
      assert (name + ":" + more)[0] == ':' && (name + ":" + more)[1..] == more;
    }
  }

  lemma {:induction false} AfterLabel(name: string)
    requires forall i | 0 <= i < |name| :: name[i] != ':'
    ensures AfterColon(name + ":") == ""
  {
    if name != "" {
      assert (name + ":")[1..] == name[1..] + ":";
      AfterLabel(name[1..]);
    }
  }
}
