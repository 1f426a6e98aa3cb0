/** Commands as they are written: printing a command and reading it back
    (assembler.py). */
module Notation {
  import opened Options
  import opened Bits
  import opened Isa
  import opened Numerals
  import opened Tkb
  import opened Assembly

  // ---------------------------------------------------------------------- numbers

  lemma DigitRead(d: nat)
    requires d < 16
    ensures HexDigit(DigitChar(d)) == Some(d)
  {}

  lemma NumeralJoin(q: nat, d: nat, base: nat)
    requires 2 <= base <= 16 && d < base && Numeral(NumText(q, base), base) == Some(q)
    ensures Numeral(NumText(q, base) + [DigitChar(d)], base) == Some(q * base + d)
  {
    hide Numeral, NumText, DigitChar;
    DigitRead(d);
    NumeralSnoc(NumText(q, base), DigitChar(d), base);
  }

  lemma {:induction false} NumeralBack(n: nat, base: nat)
    requires 2 <= base <= 16
    ensures Numeral(NumText(n, base), base) == Some(n)
  {
    hide Numeral, NumText, DigitChar;
    NumTextStep(n, base);
    Divided(n, base);
    if n < base {
      DigitRead(n);
      NumeralOne(DigitChar(n), base);
    } else {
      NumeralBack(n / base, base);
      NumeralJoin(n / base, n % base, base);
    }
  }

  lemma NumeralOne(c: char, base: nat)
    requires HexDigit(c).Some? && HexDigit(c).value < base
    ensures Numeral([c], base) == HexDigit(c)
  {}

  lemma NumeralSnoc(s: string, c: char, base: nat)
    requires Numeral(s, base).Some? && HexDigit(c).Some? && HexDigit(c).value < base
    ensures Numeral(s + [c], base) == Some(Numeral(s, base).value * base + HexDigit(c).value)
  {
    assert (s + [c])[..|s + [c]| - 1] == s;
  }

  /** A number in decimal or hexadecimal notation. */
  function MagText(n: nat, hex: bool): (s: string)
    ensures s != "" && s[0] != '-' && s[0] != '.' && Plainly(s)
  {
    if hex then "0x" + NumText(n, 16) else NumText(n, 10)
  }

  lemma MagnitudeBack(n: nat, hex: bool)
    ensures Magnitude(MagText(n, hex)) == Some(n)
  {
    var base := if hex then 16 else 10;
    var digits, s := NumText(n, base), MagText(n, hex);
    NumeralBack(n, base);
    hide NumText, Numeral;
    if hex {
      assert s[..2] == "0x" && s[2..] == digits;
    } else if |s| >= 2 {
      assert s[..2][1] != 'x';
    }
  }

  /** An immediate, with its sign in front. */
  function ImmText(v: int, hex: bool): (s: string)
    ensures s != "" && s[0] != '.' && Plainly(s)
  {
    if v < 0 then "-" + MagText(-v, hex) else MagText(v, hex)
  }

  /** A printed number is read back exactly when it is in the range of its field. */
  lemma ImmediateBack(v: int, hex: bool, n: nat, signed: bool)
    requires n >= 1
    ensures Immediate(ImmText(v, hex), n, signed) == if InField(v, n, signed) then Some(v) else None
  {
    var mag: nat := if v < 0 then -v else v;
    MagnitudeBack(mag, hex);
    hide MagText, Magnitude, Pow2;
    assert v < 0 ==> ImmText(v, hex)[1..] == MagText(mag, hex);
  }

  /** Every register is read back from its name. */
  lemma RegisterBack(r: nat)
    ensures RegNum("r" + NumText(r, 10)) == Some(r)
  {
    NumeralBack(r, 10);
    assert ("r" + NumText(r, 10))[1..] == NumText(r, 10);
  }

  // --------------------------------------------------------------------- commands

  /** What the programmer writes behind the mnemonic. */
  datatype Operand =
    | Register(r: nat)
    | Number(v: int, width: nat, signed: bool)
    | Target(v: int)

  function Mnemonic(c: Command): string {
    match c
    case AddCmd(_, _, _) => "add"
    case LogicCmd(LAnd, _, _, _) => "and"
    case LogicCmd(LOr, _, _, _) => "or"
    case LogicCmd(LXor, _, _, _) => "xor"
    case NotCmd(_, _) => "not"
    case AddImm(_, _, _) => "addi"
    case LogicImm(LAnd, _, _, _) => "andi"
    case LogicImm(LOr, _, _, _) => "ori"
    case LogicImm(LXor, _, _, _) => "xori"
    case ShiftLeftImm(_, _, _) => "shlt"
    case ShiftRightImm(_, _, _) => "shrt"
    case ShiftArithImm(_, _, _) => "shra"
    case LoadLow(_, _) => "lbi"
    case LoadHigh(_, _) => "slbi"
    case Store(_, _, _) => "st"
    case Load(_, _, _) => "ld"
    case Jal(_, _) => "jal"
    case Jalr(_, _, _) => "jalr"
    case BranchCmd(Eq, _, _, _) => "beq"
    case BranchCmd(Neq, _, _, _) => "bneq"
    case BranchCmd(Lt, _, _, _) => "blt"
    case ThreadCmd(Sleep, _) => "slp"
    case ThreadCmd(Wake, _) => "wk"
    case ThreadCmd(_, _) => "kill"
    case NewThread(_, _, _) => "nt"
  }

  /** In the order in which they are written. */
  function OperandsOf(c: Command): seq<Operand> {
    match c
    case AddCmd(rd, ra, rb) => [Register(rd), Register(ra), Register(rb)]
    case LogicCmd(_, rd, ra, rb) => [Register(rd), Register(ra), Register(rb)]
    case NotCmd(rd, ra) => [Register(rd), Register(ra)]
    case AddImm(rd, ra, v) => [Register(rd), Register(ra), Number(v, 12, true)]
    case LogicImm(_, rd, ra, v) => [Register(rd), Register(ra), Number(v, 12, false)]
    case ShiftLeftImm(rd, ra, v) => [Register(rd), Register(ra), Number(v, 5, false)]
    case ShiftRightImm(rd, ra, v) => [Register(rd), Register(ra), Number(v, 5, false)]
    case ShiftArithImm(rd, ra, v) => [Register(rd), Register(ra), Number(v, 5, false)]
    case LoadLow(rd, v) => [Register(rd), Number(v, 16, false)]
    case LoadHigh(rd, v) => [Register(rd), Number(v, 16, false)]
    case Store(ra, rb, v) => [Register(ra), Register(rb), Number(v, 12, true)]
    case Load(rd, ra, v) => [Register(rd), Register(ra), Number(v, 12, true)]
    case Jal(rd, v) => [Register(rd), Target(v)]
    case Jalr(rd, ra, v) => [Register(rd), Register(ra), Target(v)]
    case BranchCmd(_, ra, rb, v) => [Register(ra), Register(rb), Target(v)]
    case ThreadCmd(_, ra) => [Register(ra)]
    case NewThread(rd, ra, rb) => [Register(rd), Register(ra), Register(rb)]
  }

  predicate Means(tok: string, op: Operand, labels: Labels, pc: nat) {
    match op
    case Register(r) => RegNum(tok) == Some(r)
    case Number(v, n, signed) => n >= 1 && Immediate(tok, n, signed) == Some(v)
    case Target(v) => Distance(tok, labels, pc) == Some(v)
  }

  /** A thread command is one of the three that act on a thread that exists. */
  predicate Writable(c: Command) { c.ThreadCmd? ==> c.act in {Sleep, Wake, Kill} }

  predicate Spelled(c: Command, name: string, args: seq<string>, labels: Labels, pc: nat) {
    && name == Mnemonic(c) && |args| == |OperandsOf(c)|
    && forall i | 0 <= i < |args| :: Means(args[i], OperandsOf(c)[i], labels, pc)
  }

  lemma ReadOne(c: Command, name: string, args: seq<string>, labels: Labels, pc: nat)
    requires Read(name, args, labels, pc) == Some(c) && |args| <= 1
    ensures Spelled(c, name, args, labels, pc)
  {
    hide RegNum, Immediate, Distance;
  }

  lemma ReadTwo(c: Command, name: string, args: seq<string>, labels: Labels, pc: nat)
    requires Read(name, args, labels, pc) == Some(c) && |args| == 2
    ensures Spelled(c, name, args, labels, pc)
  {
    hide RegNum, Immediate, Distance;
  }

  predicate OnNumber(name: string) { name in {"addi", "andi", "ori", "xori", "st", "ld"} }

  lemma ReadRegisters(c: Command, name: string, args: seq<string>, labels: Labels, pc: nat)
    requires Read(name, args, labels, pc) == Some(c) && |args| == 3 && OnRegisters(name)
    ensures Spelled(c, name, args, labels, pc)
  {
    hide RegNum, Immediate, Distance;
  }

  lemma ReadTarget(c: Command, name: string, args: seq<string>, labels: Labels, pc: nat)
    requires Read(name, args, labels, pc) == Some(c) && |args| == 3 && Jumps(name)
    ensures Spelled(c, name, args, labels, pc)
  {
    hide RegNum, Immediate, Distance;
  }

  lemma NumberName(name: string)
    requires OnNumber(name)
    ensures name in MNEMONICS && !OneOperand(name) && !TwoOperands(name) && !OnRegisters(name) && !Jumps(name)
    ensures !Shifts(name)
  {}

  lemma NumberOperands(name: string, x: nat, y: nat, v: int)
    requires OnNumber(name)
    ensures var c := TwoAndImmediate(name, x, y, v);
            Mnemonic(c) == name && OperandsOf(c) == [Register(x), Register(y), Number(v, 12, TakesSign(name))]
  {}

  lemma ReadNumber(c: Command, name: string, args: seq<string>, labels: Labels, pc: nat)
    requires Read(name, args, labels, pc) == Some(c) && |args| == 3 && OnNumber(name)
    ensures Spelled(c, name, args, labels, pc)
  {
    NumberName(name);
    hide OneOperand, TwoOperands, OnRegisters, Jumps, Shifts, TakesSign, OnNumber, Mnemonic, OperandsOf;
    hide RegNum, Immediate, Distance, TwoAndImmediate, ThreeRegisters;
    NumberOperands(name, RegNum(args[0]).value, RegNum(args[1]).value, Immediate(args[2], 12, TakesSign(name)).value);
  }

  lemma ReadShift(c: Command, name: string, args: seq<string>, labels: Labels, pc: nat)
    requires Read(name, args, labels, pc) == Some(c) && |args| == 3 && Shifts(name)
    ensures Spelled(c, name, args, labels, pc)
  {
    hide RegNum, Immediate, Distance;
  }

  lemma ThreeOperands(name: string, args: seq<string>, labels: Labels, pc: nat)
    requires Read(name, args, labels, pc).Some? && |args| != 1 && |args| != 2
    ensures |args| == 3 && (OnRegisters(name) || Jumps(name) || OnNumber(name) || Shifts(name))
  {
    hide RegNum, Immediate, Distance, ThreeRegisters, TwoAndImmediate;
  }

  lemma ReadIsSpelled(c: Command, name: string, args: seq<string>, labels: Labels, pc: nat)
    requires Read(name, args, labels, pc) == Some(c)
    ensures Spelled(c, name, args, labels, pc)
  {
    hide Read, Spelled;
    if |args| == 1 { ReadOne(c, name, args, labels, pc); }
    else if |args| == 2 { ReadTwo(c, name, args, labels, pc); }
    else {
      ThreeOperands(name, args, labels, pc);
      if OnRegisters(name) { ReadRegisters(c, name, args, labels, pc); }
      else if Jumps(name) { ReadTarget(c, name, args, labels, pc); }
      else if OnNumber(name) { ReadNumber(c, name, args, labels, pc); }
      else { ReadShift(c, name, args, labels, pc); }
    }
  }

  lemma SpelledThree(c: Command, args: seq<string>, labels: Labels, pc: nat)
    requires Spelled(c, Mnemonic(c), args, labels, pc) && (c.AddCmd? || c.LogicCmd? || c.NewThread?)
    ensures Read(Mnemonic(c), args, labels, pc) == Some(c)
  {
    hide RegNum, Immediate, Distance;
  }

  lemma SpelledOne(c: Command, args: seq<string>, labels: Labels, pc: nat)
    requires Spelled(c, Mnemonic(c), args, labels, pc) && Writable(c) && c.ThreadCmd?
    ensures Read(Mnemonic(c), args, labels, pc) == Some(c)
  {
    hide RegNum, Immediate, Distance;
  }

  lemma SpelledTwo(c: Command, args: seq<string>, labels: Labels, pc: nat)
    requires Spelled(c, Mnemonic(c), args, labels, pc) && (c.NotCmd? || c.LoadLow? || c.LoadHigh? || c.Jal?)
    ensures Read(Mnemonic(c), args, labels, pc) == Some(c)
  {
    hide RegNum, Immediate, Distance;
  }

  lemma NumberRead(name: string, args: seq<string>, labels: Labels, pc: nat, x: nat, y: nat, v: int)
    requires OnNumber(name) && |args| == 3 && RegNum(args[0]) == Some(x) && RegNum(args[1]) == Some(y)
    requires Immediate(args[2], 12, TakesSign(name)) == Some(v)
    ensures Read(name, args, labels, pc) == Some(TwoAndImmediate(name, x, y, v))
  {
    NumberName(name);
    hide OneOperand, TwoOperands, OnRegisters, Jumps, Shifts, TakesSign, OnNumber;
    hide RegNum, Immediate, Distance, TwoAndImmediate, ThreeRegisters;
  }

  lemma SpelledNumber(c: Command, args: seq<string>, labels: Labels, pc: nat)
    requires Spelled(c, Mnemonic(c), args, labels, pc)
    requires c.AddImm? || c.LogicImm? || c.Store? || c.Load?
    ensures Read(Mnemonic(c), args, labels, pc) == Some(c)
  {
    hide RegNum, Immediate, Distance, Read;
    var ops := OperandsOf(c);
    NumberRead(Mnemonic(c), args, labels, pc, ops[0].r, ops[1].r, ops[2].v);
  }

  lemma ShiftName(name: string)
    requires Shifts(name)
    ensures name in MNEMONICS && !OneOperand(name) && !TwoOperands(name) && !OnRegisters(name) && !Jumps(name)
    ensures !TakesSign(name)
  {}

  lemma ShiftRead(name: string, args: seq<string>, labels: Labels, pc: nat, x: nat, y: nat, v: int)
    requires Shifts(name) && |args| == 3 && RegNum(args[0]) == Some(x) && RegNum(args[1]) == Some(y)
    requires Immediate(args[2], 5, false) == Some(v)
    ensures Read(name, args, labels, pc) == Some(TwoAndImmediate(name, x, y, v))
  {
    ShiftName(name);
    hide OneOperand, TwoOperands, OnRegisters, Jumps, Shifts, TakesSign;
    hide RegNum, Immediate, Distance, TwoAndImmediate, ThreeRegisters;
  }

  lemma SpelledShift(c: Command, args: seq<string>, labels: Labels, pc: nat)
    requires Spelled(c, Mnemonic(c), args, labels, pc)
    requires c.ShiftLeftImm? || c.ShiftRightImm? || c.ShiftArithImm?
    ensures Read(Mnemonic(c), args, labels, pc) == Some(c)
  {
    hide RegNum, Immediate, Distance, Read;
    var ops := OperandsOf(c);
    ShiftRead(Mnemonic(c), args, labels, pc, ops[0].r, ops[1].r, ops[2].v);
  }

  lemma SpelledTarget(c: Command, args: seq<string>, labels: Labels, pc: nat)
    requires Spelled(c, Mnemonic(c), args, labels, pc) && (c.Jalr? || c.BranchCmd?)
    ensures Read(Mnemonic(c), args, labels, pc) == Some(c)
  {
    hide RegNum, Immediate, Distance;
  }

  /** A command is read exactly from its mnemonic and operands that mean its own. */
  lemma ReadExact(c: Command, name: string, args: seq<string>, labels: Labels, pc: nat)
    requires Writable(c)
    ensures Read(name, args, labels, pc) == Some(c) <==> Spelled(c, name, args, labels, pc)
  {
    hide Read, Means, Mnemonic, OperandsOf;
    if Read(name, args, labels, pc) == Some(c) { ReadIsSpelled(c, name, args, labels, pc); }
    if Spelled(c, name, args, labels, pc) {
      if c.ThreadCmd? { SpelledOne(c, args, labels, pc); }
      else if c.AddCmd? || c.LogicCmd? || c.NewThread? { SpelledThree(c, args, labels, pc); }
      else if c.NotCmd? || c.LoadLow? || c.LoadHigh? || c.Jal? { SpelledTwo(c, args, labels, pc); }
      else if c.AddImm? || c.LogicImm? || c.Store? || c.Load? { SpelledNumber(c, args, labels, pc); }
      else if c.Jalr? || c.BranchCmd? { SpelledTarget(c, args, labels, pc); }
      else { SpelledShift(c, args, labels, pc); }
    }
  }

  // ------------------------------------------------------------------------ lines

  predicate IsToken(s: string) { s != "" && Plainly(s) }

  function Join(args: seq<string>): string {
    if args == [] then "" else if |args| == 1 then args[0] else args[0] + ", " + Join(args[1..])
  }

  /** A mnemonic, a space, and the operands between commas. */
  function LineText(name: string, args: seq<string>): string { name + " " + Join(args) }

  lemma {:induction false} GapAfter(tok: string, rest: string)
    requires Plainly(tok) && rest != "" && IsGap(rest[0])
    ensures FirstGap(tok + rest) == |tok|
  {
    if tok != "" {
      assert (tok + rest)[0] == tok[0] && (tok + rest)[1..] == tok[1..] + rest;
      GapAfter(tok[1..], rest);
    } else {
      assert tok + rest == rest;
    }
  }

  lemma TokenFirst(tok: string, rest: string)
    requires IsToken(tok) && rest != "" && IsGap(rest[0])
    ensures Tokens(tok + rest) == [tok] + Tokens(rest[1..])
  {
    GapAfter(tok, rest);
    assert (tok + rest)[..|tok|] == tok && (tok + rest)[|tok| + 1..] == rest[1..];
  }

  lemma OneToken(tok: string)
    requires IsToken(tok)
    ensures Tokens(tok) == [tok]
  {}

  predicate Lowered(s: string) { forall i | 0 <= i < |s| :: !IsUpper(s[i]) }

  lemma {:induction false} JoinTokens(args: seq<string>)
    requires forall i | 0 <= i < |args| :: IsToken(args[i])
    ensures Tokens(Join(args)) == args && Lowered(Join(args))
  {
    hide Tokens;
    if args == [] {
      NoTokens();
    } else if |args| == 1 {
      OneToken(args[0]);
      assert args == [args[0]];
    } else {
      var rest := Join(args[1..]);
      JoinTokens(args[1..]);
      TokenFirst(args[0], ", " + rest);
      SkipSpace(rest);
      assert (", " + rest)[1..] == " " + rest;
      assert args[0] + ", " + rest == args[0] + (", " + rest);
      assert args == [args[0]] + args[1..];
    }
  }

  lemma NoTokens()
    ensures Tokens("") == []
  {}

  lemma SkipSpace(s: string)
    ensures Tokens(" " + s) == Tokens(s)
  {
    assert (" " + s)[1..] == s;
  }

  lemma LineTokens(name: string, args: seq<string>)
    requires IsToken(name) && forall i | 0 <= i < |args| :: IsToken(args[i])
    ensures var line := LineText(name, args);
            && Lower(line) == line && Lower(name) == name && line[..FirstGap(line)] == name
            && Tokens(line) == [name] + args
  {
    var line, rest := LineText(name, args), " " + Join(args);
    hide Tokens, Join;
    JoinTokens(args);
    assert line == name + rest;
    GapAfter(name, rest);
    TokenFirst(name, rest);
    assert rest[1..] == Join(args);
    assert Lowered(line);
    LoweredStays(line);
    LoweredStays(name);
  }

  lemma LoweredStays(s: string)
    requires Lowered(s)
    ensures Lower(s) == s
  {}

  function Suffixed(name: string, atomic: bool): string { if atomic then name + "a" else name }

  lemma MnemonicToken(c: Command)
    ensures Mnemonic(c) in MNEMONICS && IsToken(Mnemonic(c)) && (Mnemonic(c) == "shra" <==> c.ShiftArithImm?)
  {}

  lemma SuffixedToken(base: string, atomic: bool)
    requires IsToken(base)
    ensures IsToken(Suffixed(base, atomic))
  {}

  lemma LineParsed(name: string, args: seq<string>, labels: Labels, pc: nat)
    requires IsToken(name) && forall i | 0 <= i < |args| :: IsToken(args[i])
    ensures var (base, atomic) := Select(name); var c := Read(base, args, labels, pc);
            ReadCmd(pc, LineText(name, args), labels) == if c.None? then None else Some((c.value, atomic))
  {
    LineTokens(name, args);
    hide Read, Select, LineText, Tokens, Lower, FirstGap, Plainly;
    var toks := [name] + args;
    assert toks != [] && toks[1..] == args;
  }

  /** A line with a command's mnemonic, perhaps with the atomic suffix, and operands that
      mean the command's is read as that command; only the atomic `shra` is not. */
  lemma LineRead(c: Command, atomic: bool, args: seq<string>, labels: Labels, pc: nat)
    requires Writable(c) && Spelled(c, Mnemonic(c), args, labels, pc)
    requires forall i | 0 <= i < |args| :: IsToken(args[i])
    ensures ReadCmd(pc, LineText(Suffixed(Mnemonic(c), atomic), args), labels)
         == if atomic && c.ShiftArithImm? then None else Some((c, atomic))
  {
    var base := Mnemonic(c);
    MnemonicToken(c);
    ReadExact(c, base, args, labels, pc);
    AtomicSuffixExact(base);
    hide Mnemonic, Read, Select, LineText, ReadCmd, Means, OperandsOf, MNEMONICS;
    assert IsToken(Suffixed(base, atomic)) by { SuffixedToken(base, atomic); }
    hide IsToken, Suffixed;
    LineParsed(Suffixed(base, atomic), args, labels, pc);
    if atomic && c.ShiftArithImm? {
      assert base + "a" == "shraa";
      AtomicShra(args, labels, pc);
    }
  }

  lemma AtomicShra(args: seq<string>, labels: Labels, pc: nat)
    ensures Select("shraa") == ("shraa", false) && Read("shraa", args, labels, pc).None?
  {
    assert "shraa"[..4] == "shra";
    hide RegNum, Immediate, Distance, ThreeRegisters, TwoAndImmediate;
  }

  /** Capitals stand 32 places before the small letters. */
  predicate Capital(c: char, small: char) { 'A' <= c <= 'Z' && small as int == c as int + 32 }

  predicate SameLetters(text: string, line: string) {
    |text| == |line| && forall i | 0 <= i < |text| :: text[i] == line[i] || Capital(text[i], line[i])
  }

  lemma LowerIs(text: string, line: string)
    requires SameLetters(text, line) && Lowered(line)
    ensures Lower(text) == line
  {
    forall i | 0 <= i < |text| ensures LowerChar(text[i]) == line[i] {
      if text[i] != line[i] { assert Capital(text[i], line[i]); }
    }
  }

  /** Capitals are read as small letters. */
  lemma AnyCase(text: string, line: string, labels: Labels, pc: nat)
    requires SameLetters(text, line) && Lowered(line)
    ensures Lower(text) == line && ReadCmd(pc, text, labels) == ReadCmd(pc, line, labels)
  {
    GapsAgree(text, line);
    var n := FirstGap(text);
    LowerIs(text, line);
    LowerIs(text[..n], line[..n]);
    LoweredStays(line);
    LoweredStays(line[..n]);
    hide SameLetters, Lowered, Lower, FirstGap, Tokens, Read, Select;
  }

  lemma {:induction false} GapsAgree(text: string, line: string)
    requires SameLetters(text, line)
    ensures FirstGap(text) == FirstGap(line)
  {
    if text != "" {
      assert text[0] == line[0] || Capital(text[0], line[0]);
      GapsAgree(text[1..], line[1..]);
    }
  }

  function OperandText(op: Operand, hex: bool): string {
    match op
    case Register(r) => "r" + NumText(r, 10)
    case Number(v, _, _) => ImmText(v, hex)
    case Target(v) => ImmText(v, hex)
  }

  function OperandTexts(ops: seq<Operand>, hex: bool): (texts: seq<string>)
    ensures |texts| == |ops| && forall i | 0 <= i < |ops| :: texts[i] == OperandText(ops[i], hex)
  {
    seq(|ops|, i requires 0 <= i < |ops| => OperandText(ops[i], hex))
  }

  /** Labels start with a dot, as the first round makes them. */
  predicate Dotted(labels: Labels) { forall l | l in labels :: l != "" && l[0] == '.' }

  predicate InRange(op: Operand) {
    match op
    case Register(_) => true
    case Number(v, n, signed) => n >= 1 && InField(v, n, signed)
    case Target(v) => InField(v, 12, true)
  }

  lemma OperandRead(op: Operand, hex: bool, labels: Labels, pc: nat)
    requires InRange(op) && Dotted(labels)
    ensures IsToken(OperandText(op, hex)) && Means(OperandText(op, hex), op, labels, pc)
  {
    hide NumText, ImmText, Immediate, InField;
    match op
    case Register(r) => RegisterBack(r);
    case Number(v, n, signed) => ImmediateBack(v, hex, n, signed);
    case Target(v) => ImmediateBack(v, hex, 12, true);
  }

  /** A label as a target means the distance to it. */
  lemma LabelMeans(l: string, labels: Labels, pc: nat)
    requires l in labels
    ensures var d := labels[l] - pc - 1; Means(l, Target(d), labels, pc) <==> InField(d, 12, true)
  {}

  lemma InRanges(c: Command)
    requires Ranges(c)
    ensures Writable(c) && forall i | 0 <= i < |OperandsOf(c)| :: InRange(OperandsOf(c)[i])
  {
    hide InField;
  }

  /** Printing a command and reading the line gives the command back, for every command
      whose immediates are in the ranges of their fields, in either notation. */
  lemma PrintedReadsBack(c: Command, hex: bool, atomic: bool, labels: Labels, pc: nat)
    requires Ranges(c) && Dotted(labels)
    ensures ReadCmd(pc, LineText(Suffixed(Mnemonic(c), atomic), OperandTexts(OperandsOf(c), hex)), labels)
         == if atomic && c.ShiftArithImm? then None else Some((c, atomic))
  {
    var ops := OperandsOf(c);
    InRanges(c);
    hide OperandsOf, Mnemonic, Ranges, Dotted, Means, InRange, OperandText, LineText;
    forall i | 0 <= i < |ops| { OperandRead(ops[i], hex, labels, pc); }
    LineRead(c, atomic, OperandTexts(ops, hex), labels, pc);
  }

  // ------------------------------------------------------------- comments and space

  predicate White(c: char) { c in {' ', '\t', '\n', '\r'} }
  predicate Blank(s: string) { forall i | 0 <= i < |s| :: White(s[i]) }
  predicate Tight(s: string) { s == "" || (!White(s[0]) && !White(s[|s| - 1])) }

  lemma {:induction false} StripTail(s: string, b: string)
    requires Tight(s) && Blank(b)
    ensures Strip(s + b) == s
    decreases |b|
  {
    if b == "" {
      assert s + b == s;
    } else if s == "" {
      assert s + b == b && b[1..] == s + b[1..];
      StripTail(s, b[1..]);
    } else {
      var t := s + b;
      assert t[..|t| - 1] == s + b[..|b| - 1];
      StripTail(s, b[..|b| - 1]);
    }
  }

  /** Stripping removes the space around a text and nothing else. */
  lemma {:induction false} StripExact(a: string, s: string, b: string)
    requires Blank(a) && Tight(s) && Blank(b)
    ensures Strip(a + s + b) == s
    decreases |a|
  {
    if a == "" {
      assert a + s + b == s + b;
      StripTail(s, b);
    } else {
      assert (a + s + b)[1..] == a[1..] + s + b;
      StripExact(a[1..], s, b);
    }
  }

  lemma {:induction false} SlashAfter(s: string, more: string)
    requires forall i | 0 <= i < |s| :: s[i] != '/'
    ensures Slash(s) == |s| && Slash(s + "/" + more) == |s|
  {
    var t := s + "/" + more;
    if s != "" {
      assert t[0] == s[0] && t[1..] == s[1..] + "/" + more;
      SlashAfter(s[1..], more);
    } else {
      assert t[0] == '/';
    }
  }

  /** What is left of a line of code: everything before a slash, without space around. */
  lemma CommentDropped(code: string, space: string, more: string)
    requires Tight(code) && Blank(space) && forall i | 0 <= i < |code| :: code[i] != '/'
    ensures CodeText(code) == code && CodeText(code + space + "/" + more) == code
  {
    SlashAfter(code, more);
    SlashAfter(code + space, more);
    var t := code + space + "/" + more;
    assert t[..|code + space|] == code + space;
    StripTail(code, space);
  }

  /** The lines of a file: code with the space and the comment behind it, if any; a whole
      line of comment; a label; nothing. */
  datatype Line =
    | CodeLine(code: string, space: string, comment: Option<string>)
    | CommentLine(mark: char, text: string)
    | LabelLine(name: string)
    | BlankLine

  predicate WellWritten(l: Line) {
    match l
    case CodeLine(code, space, _) =>
      code != "" && Tight(code) && Blank(space) && code[0] != '#' && code[0] != '.'
      && forall i | 0 <= i < |code| :: code[i] != '/'
    case CommentLine(mark, _) => mark == '#' || mark == '/'
    case LabelLine(_) => true
    case BlankLine => true
  }

  function TextOf(l: Line): string {
    match l
    case CodeLine(code, space, comment) =>
      if comment.None? then code else code + space + "/" + comment.value
    case CommentLine(mark, text) => [mark] + text
    case LabelLine(name) => "." + name
    case BlankLine => ""
  }

  function TextsOf(ls: seq<Line>): (texts: seq<string>)
    ensures |texts| == |ls| && forall i | 0 <= i < |ls| :: texts[i] == TextOf(ls[i])
  {
    seq(|ls|, i requires 0 <= i < |ls| => TextOf(ls[i]))
  }

  function CodeOf(ls: seq<Line>): seq<string>
    decreases |ls|
  {
    if ls == [] then []
    else CodeOf(ls[..|ls| - 1]) + if ls[|ls| - 1].CodeLine? then [ls[|ls| - 1].code] else []
  }

  /** The commands of a file are its lines of code, in order, without what stands behind
      them. */
  lemma {:induction false} ListingOf(ls: seq<Line>)
    requires forall i | 0 <= i < |ls| :: WellWritten(ls[i])
    ensures Listing(TextsOf(ls)) == CodeOf(ls)
    decreases |ls|
  {
    hide TextOf, WellWritten, CodeText;
    if ls != [] {
      var init, last := ls[..|ls| - 1], ls[|ls| - 1];
      ListingOf(init);
      assert TextsOf(ls) == TextsOf(init) + [TextOf(last)];
      ListingSnoc(TextsOf(init), TextOf(last));
      OneLine(last);
    }
  }

  lemma OneLine(l: Line)
    requires WellWritten(l)
    ensures IsCode(TextOf(l)) <==> l.CodeLine?
    ensures IsLabel(TextOf(l)) <==> l.LabelLine?
    ensures l.CodeLine? ==> CodeText(TextOf(l)) == l.code
  {
    if l.CodeLine? {
      CommentDropped(l.code, l.space, if l.comment.Some? then l.comment.value else "");
      hide CodeText;
    }
  }
}
