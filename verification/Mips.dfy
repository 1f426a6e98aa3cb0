/** The MIPS back end of the C++ assembler: instruction encoding and label
    distances (mips.cpp), the symbol table (syms_table.cpp) and the two passes
    of the shell (shell.cpp). */
module Mips {
  import opened Options
  import opened Hex
  import B = Bits

  const MODULUS := 0x1_0000_0000
  type Word = n: nat | n < MODULUS

  // ------------------------------------------------------------------ encoding

  datatype Format = R | I | J

  /** A mnemonic's format, operation code and function code. */
  datatype Operation = Operation(format: Format, op: nat, funct: nat)

  const MNEMONICS: map<string, Operation> := map[
    "add" := Operation(R, 0, 32), "addu" := Operation(R, 0, 33), "sub" := Operation(R, 0, 34),
    "subu" := Operation(R, 0, 35), "and" := Operation(R, 0, 36), "or" := Operation(R, 0, 37),
    "nor" := Operation(R, 0, 39), "slt" := Operation(R, 0, 42), "sltu" := Operation(R, 0, 43),
    "sll" := Operation(R, 0, 0), "srl" := Operation(R, 0, 2), "jr" := Operation(R, 0, 8),
    "beq" := Operation(I, 4, 0), "bne" := Operation(I, 5, 0), "addi" := Operation(I, 8, 0),
    "addiu" := Operation(I, 9, 0), "slti" := Operation(I, 10, 0), "sltiu" := Operation(I, 11, 0),
    "andi" := Operation(I, 12, 0), "ori" := Operation(I, 13, 0), "xori" := Operation(I, 14, 0),
    "lw" := Operation(I, 35, 0), "lbu" := Operation(I, 36, 0), "lhu" := Operation(I, 37, 0),
    "sb" := Operation(I, 40, 0), "sh" := Operation(I, 41, 0), "sw" := Operation(I, 43, 0),
    "j" := Operation(J, 2, 0), "jal" := Operation(J, 3, 0)]

  function OperationOf(name: string): (o: Option<Operation>)
    ensures o.Some? ==> o.value.op < 64
  {
    if name in MNEMONICS then Some(MNEMONICS[name]) else None
  }

  const MEMORY: set<nat> := {35, 36, 37, 40, 41, 43}
  const SHIFTS: set<nat> := {0, 2}

  /** `generic_mips32_encode`: every field is cut to its width and put in place. */
  function Encode(rs: int, rt: int, rd: int, imm: int, o: Operation): (w: Word)
    requires o.op < 64
  {
    match o.format
    case R => o.funct % 64 + imm % 32 * 0x40 + rd % 32 * 0x800 + rt % 32 * 0x1_0000
              + rs % 32 * 0x20_0000 + o.op * 0x400_0000
    case I => imm % 0x1_0000 + rt % 32 * 0x1_0000 + rs % 32 * 0x20_0000 + o.op * 0x400_0000
    case J => imm % 0x400_0000 + o.op * 0x400_0000
  }

  // The fields of a word, as in MIPS32 Architecture For Programmers, Volume II.
  function OpField(w: Word): nat { w / 0x400_0000 }
  function RsField(w: Word): nat { w / 0x20_0000 % 32 }
  function RtField(w: Word): nat { w / 0x1_0000 % 32 }
  function RdField(w: Word): nat { w / 0x800 % 32 }
  function ShamtField(w: Word): nat { w / 0x40 % 32 }
  function FunctField(w: Word): nat { w % 64 }
  function ImmField(w: Word): nat { w % 0x1_0000 }
  function IndexField(w: Word): nat { w % 0x400_0000 }

  lemma FieldsOfR(rs: int, rt: int, rd: int, imm: int, o: Operation)
    requires o.format == R && o.op < 64
    ensures var w := Encode(rs, rt, rd, imm, o);
            && OpField(w) == o.op && RsField(w) == rs % 32 && RtField(w) == rt % 32
            && RdField(w) == rd % 32 && ShamtField(w) == imm % 32 && FunctField(w) == o.funct % 64
  {
    Unpack(o.funct % 64, imm % 32, rd % 32, rt % 32, rs % 32, o.op);
  }

  lemma Unpack(a: nat, b: nat, c: nat, d: nat, e: nat, f: nat)
    requires a < 64 && b < 32 && c < 32 && d < 32 && e < 32
    ensures var w := a + b * 0x40 + c * 0x800 + d * 0x1_0000 + e * 0x20_0000 + f * 0x400_0000;
            && w / 0x400_0000 == f && w / 0x20_0000 % 32 == e && w / 0x1_0000 % 32 == d
            && w / 0x800 % 32 == c && w / 0x40 % 32 == b && w % 64 == a
  {
    var w := a + b * 0x40 + c * 0x800 + d * 0x1_0000 + e * 0x20_0000 + f * 0x400_0000;
    assert w / 0x40 == b + c * 0x20 + d * 0x400 + e * 0x8000 + f * 0x10_0000;
    assert w / 0x800 == c + d * 0x20 + e * 0x400 + f * 0x8000;
    assert w / 0x1_0000 == d + e * 0x20 + f * 0x400;
    assert w / 0x20_0000 == e + f * 0x20;
  }

  lemma FieldsOfI(rs: int, rt: int, imm: int, o: Operation)
    requires o.format == I && o.op < 64
    ensures var w := Encode(rs, rt, 0, imm, o);
            OpField(w) == o.op && RsField(w) == rs % 32 && RtField(w) == rt % 32 && ImmField(w) == imm % 0x1_0000
  {}

  lemma FieldsOfJ(imm: int, o: Operation)
    requires o.format == J && o.op < 64
    ensures var w := Encode(0, 0, 0, imm, o);
            OpField(w) == o.op && IndexField(w) == imm % 0x400_0000
  {}

  // ---------------------------------------------------------------- label distances

  /** `offset_to_address_br`: the distance in instructions, shifted without sign. */
  function Offset(current: Word, target: Word): Word {
    (target - current - 4) % MODULUS / 4
  }

  function Sext16(imm: nat): int
    requires imm < 0x1_0000
  {
    if imm < 0x8000 then imm else imm - 0x1_0000
  }

  function SignedWord(w: int): int {
    var u := w % MODULUS;
    if u < 0x8000_0000 then u else u - MODULUS
  }

  /** Where BEQ and BNE go when taken, and where J and JAL go. */
  function BranchTarget(w: Word, pc: Word): Word { (pc + 4 + 4 * Sext16(ImmField(w))) % MODULUS }

  function JumpTarget(w: Word, pc: Word): Word {
    (pc + 4) % MODULUS / 0x1000_0000 * 0x1000_0000 + 4 * IndexField(w)
  }

  /** A branch reaches its label exactly when the label is within 2^15 instructions
      of the next one; the logical shift loses nothing. */
  lemma BranchExact(rs: int, rt: int, pc: Word, target: Word, o: Operation)
    requires o.format == I && o.op < 64 && pc % 4 == 0 && target % 4 == 0
    ensures BranchTarget(Encode(rs, rt, 0, Offset(pc, target), o), pc) == target
            <==> -0x2_0000 <= SignedWord(target - pc - 4) < 0x2_0000
  {
    FieldsOfI(rs, rt, Offset(pc, target), o);
    var d := target - pc - 4;
    var u := d % MODULUS;
    assert u % 4 == 0;
    var imm := u / 4 % 0x1_0000;
    assert (pc + 4 + d) % MODULUS == target;
    SameTarget(pc, d, 4 * Sext16(imm));
    ShortDistance(u);
  }

  /** Two distances lead to the same address exactly when they agree as words. */
  lemma SameTarget(pc: Word, d: int, e: int)
    ensures (pc + 4 + d) % MODULUS == (pc + 4 + e) % MODULUS <==> d % MODULUS == e % MODULUS
  {}

  lemma ShortDistance(u: Word)
    requires u % 4 == 0
    ensures (4 * Sext16(u / 4 % 0x1_0000)) % MODULUS == u <==> -0x2_0000 <= SignedWord(u) < 0x2_0000
  {}

  /** A jump reaches its label exactly when the label lies in the same 256 megabytes
      as the next instruction. */
  lemma JumpExact(pc: Word, target: Word, o: Operation)
    requires o.format == J && o.op < 64 && target % 4 == 0
    ensures JumpTarget(Encode(0, 0, 0, target / 4, o), pc) == target
            <==> (pc + 4) % MODULUS / 0x1000_0000 == target / 0x1000_0000
  {
    FieldsOfJ(target / 4, o);
  }

  /** The word that four bytes stand for, the highest first. */
  function Number(b: seq<Byte>): nat
    requires |b| == 4
  {
    var b0: nat, b1: nat, b2: nat, b3: nat := b[0], b[1], b[2], b[3];
    ((b0 * 256 + b1) * 256 + b2) * 256 + b3
  }

  /** The bytes written for a word: the host's, lowest first, turned round. */
  function BigEndian(w: Word): (b: seq<Byte>)
    ensures |b| == 4 && Number(b) == w
  {
    var b2 := w / 256;
    var b1 := b2 / 256;
    [b1 / 256, b1 % 256, b2 % 256, w % 256]
  }

  // ------------------------------------------------------------- reading operands

  const FRIENDLY: map<string, nat> := map[
    "$zero" := 0, "$at" := 1, "$v0" := 2, "$v1" := 3, "$a0" := 4, "$a1" := 5, "$a2" := 6, "$a3" := 7,
    "$t0" := 8, "$t1" := 9, "$t2" := 10, "$t3" := 11, "$t4" := 12, "$t5" := 13, "$t6" := 14, "$t7" := 15,
    "$s0" := 16, "$s1" := 17, "$s2" := 18, "$s3" := 19, "$s4" := 20, "$s5" := 21, "$s6" := 22, "$s7" := 23,
    "$t8" := 24, "$t9" := 25, "$k0" := 26, "$k1" := 27, "$gp" := 28, "$sp" := 29, "$fp" := 30, "$ra" := 31]

  /** `friendly_to_numerical`, then `get_reg_num`. */
  function RegNum(s: string): Option<nat> {
    if s in FRIENDLY then Some(FRIENDLY[s])
    else if |s| <= 1 || s[0] != '$' || exists i | 1 <= i < |s| :: !('0' <= s[i] <= '9') then None
    else Positional(s[1..], 10)
  }

  /** `get_imm` */
  function Imm(s: string): Option<nat> { Interpreted(s, MODULUS) }

  /** Splits `imm(reg)`: what stands before and after the left parenthesis. */
  function Parenthesised(s: string): (r: (string, string, bool, bool))
    decreases |s|
  {
    if s == "" then ("", "", false, false)
    else
      var (imm, reg, left, right) := Parenthesised(s[..|s| - 1]);
      var c := s[|s| - 1];
      if c == '(' then (imm, reg, true, right)
      else if c == ')' then (imm, reg, left, true)
      else if left then (imm, reg + [c], left, right)
      else (imm + [c], reg, left, right)
  }

  type Syms = map<string, nat>

  function Lookup(s: string, syms: Syms, pc: Word): Option<int> {
    if s in syms then Some(Offset(pc, syms[s] % MODULUS)) else Imm(s)
  }

  function Whole(rs: Option<int>, rt: Option<int>, rd: Option<int>, imm: Option<int>, o: Operation): Option<Word>
    requires o.op < 64
  {
    if rs.None? || rt.None? || rd.None? || imm.None? then None
    else Some(Encode(rs.value, rt.value, rd.value, imm.value, o))
  }

  /** `MIPS_32::assemble`; none where the assembler reports an error. */
  function Assemble(args: seq<string>, pc: Word, syms: Syms): Option<Word> {
    if args == [] then Some(0)
    else if OperationOf(args[0]).None? then None
    else
      var o := OperationOf(args[0]).value;
      match o.format
      case R =>
        if o.funct == 8 then
          if |args| != 2 then None else Whole(RegNum(args[1]), Some(0), Some(0), Some(0), o)
        else if |args| != 4 then None
        else if o.funct in SHIFTS then Whole(RegNum(args[2]), Some(0), RegNum(args[1]), Imm(args[3]), o)
        else Whole(RegNum(args[2]), RegNum(args[3]), RegNum(args[1]), Some(0), o)
      case I =>
        if o.op in MEMORY then
          if |args| != 3 then None
          else
            var (imm, reg, left, right) := Parenthesised(args[2]);
            if !left || !right then None else Whole(RegNum(reg), RegNum(args[1]), Some(0), Imm(imm), o)
        else if |args| != 4 then None
        else Whole(RegNum(args[2]), RegNum(args[1]), Some(0), Lookup(args[3], syms, pc), o)
      case J =>
        if |args| != 2 then None
        else Whole(Some(0), Some(0), Some(0),
                   if args[1] in syms then Some(syms[args[1]] % MODULUS / 4) else Imm(args[1]), o)
  }

  /** The manual has `sll rd, rt, sa` shift rt; the word assembled here names the
      operand in rs and shifts $zero, which is right exactly for that register. */
  lemma ShiftOperandExact(args: seq<string>, pc: Word, syms: Syms, rd: nat, rt: nat, sa: nat)
    requires |args| == 4 && (args[0] == "sll" || args[0] == "srl")
    requires RegNum(args[1]) == Some(rd) && RegNum(args[2]) == Some(rt) && Imm(args[3]) == Some(sa)
    ensures var w := Assemble(args, pc, syms);
            && w.Some? && RdField(w.value) == rd % 32 && ShamtField(w.value) == sa % 32
            && (RtField(w.value) == rt % 32 <==> rt % 32 == 0)
            && (RsField(w.value) == 0 <==> rt % 32 == 0)
  {
    hide RegNum, Imm;
    FieldsOfR(rt, 0, rd, sa, OperationOf(args[0]).value);
  }

  // ------------------------------------------------------------------ symbol table

  /** `syms_table`: many symbols to a PC, one PC to a symbol. */
  class SymsTable {
    var pcToSyms: map<nat, seq<string>>
    var symsToPc: Syms

    /** The two maps tell the same. */
    ghost predicate Valid()
      reads this
    {
      && (forall s | s in symsToPc :: symsToPc[s] in pcToSyms && s in pcToSyms[symsToPc[s]])
      && (forall pc, s | pc in pcToSyms && s in pcToSyms[pc] :: s in symsToPc && symsToPc[s] == pc)
      && (forall pc | pc in pcToSyms :: Distinct(pcToSyms[pc]))
    }

    constructor ()
      ensures Valid() && symsToPc == map[] && pcToSyms == map[]
    {
      pcToSyms, symsToPc := map[], map[];
    }

    /** `insert`: a second definition is refused and changes nothing. */
    method Insert(key: string, pc: nat) returns (ok: bool)
      requires Valid()
      modifies this
      ensures Valid() && ok == (key !in old(symsToPc))
      ensures symsToPc == if ok then old(symsToPc)[key := pc] else old(symsToPc)
      ensures ok ==> pcToSyms == old(pcToSyms)[pc := (if pc in old(pcToSyms) then old(pcToSyms)[pc] else []) + [key]]
      ensures !ok ==> pcToSyms == old(pcToSyms)
    {
      if key in symsToPc { return false; }
      DistinctSnoc(if pc in pcToSyms then pcToSyms[pc] else [], key);
      hide Distinct;
      if pc !in pcToSyms {
        pcToSyms := pcToSyms[pc := [] + [key]];
      } else {
        pcToSyms := pcToSyms[pc := pcToSyms[pc] + [key]];
      }
      symsToPc := symsToPc[key := pc];
      ok := true;
    }
  }

  lemma DistinctSnoc(names: seq<string>, key: string)
    ensures Distinct([])
    ensures Distinct(names) && key !in names ==> Distinct(names + [key])
  {}

  predicate Distinct(names: seq<string>) {
    forall i, j | 0 <= i < j < |names| :: names[i] != names[j]
  }

  // -------------------------------------------------------------------- two passes

  predicate HasLabel(parts: seq<string>) {
    parts != [] && parts[0] != "" && parts[0][|parts[0]| - 1] == ':'
  }

  function LabelName(parts: seq<string>): string
    requires HasLabel(parts)
  {
    parts[0][..|parts[0]| - 1]
  }

  /** `trim_label`: what follows the first colon. */
  function TrimLabel(parts: seq<string>): seq<string>
    requires parts != []
  {
    var rest := AfterColon(parts[0]);
    if rest == "" then parts[1..] else [rest] + parts[1..]
  }

  function AfterColon(s: string): string {
    if s == "" then "" else if s[0] == ':' then s[1..] else AfterColon(s[1..])
  }

  /** A line that holds nothing but, perhaps, a label. */
  predicate NoInstruction(parts: seq<string>) { parts == [] || (HasLabel(parts) && |parts| == 1) }

  function ArgsOf(parts: seq<string>): seq<string>
    requires parts != []
  {
    if HasLabel(parts) then TrimLabel(parts) else parts
  }

  /** The instructions of a source, in order. */
  function Insts(src: seq<seq<string>>): seq<seq<string>>
    decreases |src|
  {
    if src == [] then []
    else
      var before, last := Insts(src[..|src| - 1]), src[|src| - 1];
      if NoInstruction(last) then before else before + [ArgsOf(last)]
  }

  function Pc(i: nat): Word { 4 * i % MODULUS }

  /** Line k defines the label. */
  predicate Defines(src: seq<seq<string>>, k: nat, name: string) {
    k < |src| && HasLabel(src[k]) && LabelName(src[k]) == name
  }

  function InstsBefore(src: seq<seq<string>>, k: nat): nat
    requires k <= |src|
  {
    |Insts(src[..k])|
  }

  /** The symbols of a source: a label stands for the instruction that follows it. */
  ghost predicate SymsOf(src: seq<seq<string>>, syms: Syms) {
    && (forall k: nat, name | Defines(src, k, name) :: name in syms && syms[name] == Pc(InstsBefore(src, k)))
    && (forall s | s in syms :: exists k: nat :: Defines(src, k, s))
  }

  /** No label is defined twice. */
  ghost predicate NoClash(src: seq<seq<string>>) {
    forall j: nat, k: nat, name | Defines(src, j, name) && Defines(src, k, name) :: j == k
  }

  /** The state of `Shell::Run`. */
  class Shell {
    const jumpSyms: SymsTable
    var lines: seq<seq<string>>
    var equivPc: Word
    var prog: seq<Byte>
    var asmPc: nat

    constructor ()
      ensures fresh(jumpSyms) && HasRead([]) && prog == [] && asmPc == 0
    {
      jumpSyms := new SymsTable();
      lines, equivPc, prog, asmPc := [], 0, [], 0;
    }

    /** What the first pass has read from the lines so far. */
    ghost predicate HasRead(seen: seq<seq<string>>)
      reads this, jumpSyms
    {
      && jumpSyms.Valid() && lines == Insts(seen) && equivPc == Pc(|lines|)
      && NoClash(seen) && SymsOf(seen, jumpSyms.symsToPc)
    }

    /** The first pass over the lines, each cut into its parts. */
    method FirstPass(src: seq<seq<string>>) returns (ok: bool)
      requires HasRead([])
      modifies this`lines, this`equivPc, jumpSyms
      ensures ok <==> NoClash(src)
      ensures ok ==> HasRead(src)
    {
      assert src[..0] == [];
      for i := 0 to |src|
        invariant HasRead(src[..i])
      {
        var more := FirstPassLine(src[i], src[..i]);
        assert src[..i + 1] == src[..i] + [src[i]];
        if !more {
          ClashStays(src, i + 1);
          return false;
        }
      }
      assert src[..|src|] == src;
      ok := true;
    }

    method FirstPassLine(parts: seq<string>, ghost seen: seq<seq<string>>) returns (ok: bool)
      requires HasRead(seen)
      modifies this`lines, this`equivPc, jumpSyms
      ensures ok <==> NoClash(seen + [parts])
      ensures ok ==> HasRead(seen + [parts])
    {
      hide SymsOf, NoClash, HasLabel, Pc, Insts, TrimLabel;
      InstsSnoc(seen, parts);
      SymsSnoc(seen, parts, jumpSyms.symsToPc);
      assert !HasLabel([]) by { NoLabelInNothing(); }
      if parts == [] { return true; }
      if HasLabel(parts) {
        ok := jumpSyms.Insert(LabelName(parts), equivPc);
        if !ok { return; }
        if |parts| == 1 { return; }
      }
      NextPc(|lines|);
      lines := lines + [ArgsOf(parts)];
      equivPc := (equivPc + 4) % MODULUS;
      ok := true;
    }

    /** The second pass, until an instruction cannot be assembled. */
    method SecondPass() returns (ok: bool)
      requires prog == [] && asmPc == 0
      modifies this`prog, this`asmPc
      ensures ok <==> forall i | 0 <= i < |lines| :: Assembles(lines, i, jumpSyms.symsToPc)
      ensures ok ==> prog == Image(lines, |lines|, jumpSyms.symsToPc)
    {
      hide Assemble, BigEndian;
      for i := 0 to |lines|
        invariant asmPc == 4 * i
        invariant forall j | 0 <= j < i :: Assembles(lines, j, jumpSyms.symsToPc)
        invariant prog == Image(lines, i, jumpSyms.symsToPc)
      {
        var inst := Assemble(lines[i], asmPc % MODULUS, jumpSyms.symsToPc);
        if inst.None? {
          assert !Assembles(lines, i, jumpSyms.symsToPc);
          return false;
        }
        prog := prog + BigEndian(inst.value);
        asmPc := asmPc + 4;
      }
      ok := true;
    }
  }

  predicate Assembles(lines: seq<seq<string>>, i: nat, syms: Syms)
    requires i < |lines|
  {
    Assemble(lines[i], Pc(i), syms).Some?
  }

  function WordAt(lines: seq<seq<string>>, i: nat, syms: Syms): Word
    requires i < |lines| && Assembles(lines, i, syms)
  {
    Assemble(lines[i], Pc(i), syms).value
  }

  /** The bytes of the first n instructions, each in big-endian order at 4i. */
  function Image(lines: seq<seq<string>>, n: nat, syms: Syms): (b: seq<Byte>)
    requires n <= |lines| && forall i | 0 <= i < n :: Assembles(lines, i, syms)
    ensures |b| == 4 * n
  {
    if n == 0 then [] else Image(lines, n - 1, syms) + BigEndian(WordAt(lines, n - 1, syms))
  }

  lemma {:induction false} ImageAt(lines: seq<seq<string>>, n: nat, syms: Syms, i: nat)
    requires i < n <= |lines| && forall j | 0 <= j < n :: Assembles(lines, j, syms)
    ensures Number(Image(lines, n, syms)[4 * i..4 * i + 4]) == WordAt(lines, i, syms)
    decreases n
  {
    hide WordAt, BigEndian, Number;
    var b := Image(lines, n, syms);
    if i < n - 1 {
      ImageAt(lines, n - 1, syms, i);
      assert b[4 * i..4 * i + 4] == Image(lines, n - 1, syms)[4 * i..4 * i + 4];
    } else {
      assert b[4 * i..4 * i + 4] == BigEndian(WordAt(lines, i, syms));
    }
  }

  lemma NoLabelInNothing()
    ensures !HasLabel([])
  {}

  lemma NextPc(n: nat)
    ensures (Pc(n) + 4) % MODULUS == Pc(n + 1)
  {}

  lemma ClashStays(src: seq<seq<string>>, n: nat)
    requires n <= |src| && !NoClash(src[..n])
    ensures !NoClash(src)
  {
    var j: nat, k: nat, name :| Defines(src[..n], j, name) && Defines(src[..n], k, name) && j != k;
    assert Defines(src, j, name) && Defines(src, k, name);
  }

  lemma DefinesSnoc(seen: seq<seq<string>>, parts: seq<string>, k: nat, name: string)
    ensures Defines(seen + [parts], k, name)
            <==> Defines(seen, k, name) || (k == |seen| && HasLabel(parts) && LabelName(parts) == name)
    ensures k <= |seen| ==> InstsBefore(seen + [parts], k) == InstsBefore(seen, k)
  {
    if k <= |seen| { assert (seen + [parts])[..k] == seen[..k]; }
  }

  /** How one line changes the symbols. */
  lemma SymsSnoc(seen: seq<seq<string>>, parts: seq<string>, syms: Syms)
    requires NoClash(seen) && SymsOf(seen, syms)
    ensures var all := seen + [parts];
            if !HasLabel(parts) then NoClash(all) && SymsOf(all, syms)
            else if LabelName(parts) in syms then !NoClash(all)
            else NoClash(all) && SymsOf(all, syms[LabelName(parts) := Pc(|Insts(seen)|)])
  {
    forall k: nat, name
      ensures Defines(seen + [parts], k, name)
              <==> Defines(seen, k, name) || (k == |seen| && HasLabel(parts) && LabelName(parts) == name)
      ensures Defines(seen, k, name) ==> k < |seen| && InstsBefore(seen + [parts], k) == InstsBefore(seen, k)
    {
      DefinesSnoc(seen, parts, k, name);
    }
    DefinesSnoc(seen, parts, |seen|, "");
    assert seen[..|seen|] == seen;
    hide HasLabel, LabelName, Insts, Pc, Defines;
    var all := seen + [parts];
    if HasLabel(parts) && LabelName(parts) in syms {
      var name := LabelName(parts);
      var k: nat :| Defines(seen, k, name);
      assert Defines(all, k, name) && Defines(all, |seen|, name);
    } else if HasLabel(parts) {
      var name := LabelName(parts);
      assert Defines(all, |seen|, name);
      assert forall k: nat :: !Defines(seen, k, name);
      forall s | s in syms ensures exists k: nat :: Defines(all, k, s) {
        var k: nat :| Defines(seen, k, s);
        assert Defines(all, k, s);
      }
    } else {
      forall s | s in syms ensures exists k: nat :: Defines(all, k, s) {
        var k: nat :| Defines(seen, k, s);
        assert Defines(all, k, s);
      }
    }
  }

  lemma InstsSnoc(src: seq<seq<string>>, parts: seq<string>)
    ensures Insts(src + [parts]) == Insts(src) + if NoInstruction(parts) then [] else [ArgsOf(parts)]
  {
    assert (src + [parts])[..|src|] == src;
  }

  lemma {:induction false} InstsPrefix(src: seq<seq<string>>, n: nat)
    requires n <= |src|
    ensures Insts(src[..n]) <= Insts(src)
    decreases |src| - n
  {
    if n == |src| {
      assert src[..n] == src;
    } else {
      InstsPrefix(src, n + 1);
      assert src[..n + 1] == src[..n] + [src[n]];
      InstsSnoc(src[..n], src[n]);
    }
  }

  /** The instruction a label stands for is the first one at or after its line. */
  lemma {:induction false} LabelNamesNext(src: seq<seq<string>>, k: nat, j: nat)
    requires k <= j < |src| && !NoInstruction(src[j]) && forall i | k <= i < j :: NoInstruction(src[i])
    ensures InstsBefore(src, k) < |Insts(src)| && Insts(src)[InstsBefore(src, k)] == ArgsOf(src[j])
    decreases j - k
  {
    assert src[..k + 1] == src[..k] + [src[k]];
    InstsSnoc(src[..k], src[k]);
    InstsPrefix(src, k + 1);
    if k < j { LabelNamesNext(src, k + 1, j); }
  }

  /** A branch to a label goes to the labelled instruction exactly when that is
      less than 2^15 instructions from the next one, counting round the address
      space in either direction. */
  lemma BranchReachesLabel(lines: seq<seq<string>>, i: nat, syms: Syms, j: nat)
    requires i < |lines| && Assembles(lines, i, syms)
    requires |lines[i]| == 4 && (lines[i][0] == "beq" || lines[i][0] == "bne")
    requires lines[i][3] in syms && syms[lines[i][3]] == Pc(j)
    ensures var d := (j - (i + 1)) % 0x4000_0000;
            BranchTarget(WordAt(lines, i, syms), Pc(i)) == Pc(j) <==> d < 0x8000 || d >= 0x3FFF_8000
  {
    var rs, rt, o := BranchWord(lines, i, syms, j);
    hide Assembles, WordAt, BranchTarget, Encode, Offset, SignedWord, Pc;
    PcDistance(i, j);
    BranchExact(rs, rt, Pc(i), Pc(j), o);
  }

  lemma BranchWord(lines: seq<seq<string>>, i: nat, syms: Syms, j: nat) returns (rs: int, rt: int, o: Operation)
    requires i < |lines| && Assembles(lines, i, syms)
    requires |lines[i]| == 4 && (lines[i][0] == "beq" || lines[i][0] == "bne")
    requires lines[i][3] in syms && syms[lines[i][3]] == Pc(j)
    ensures o.format == I && o.op < 64 && WordAt(lines, i, syms) == Encode(rs, rt, 0, Offset(Pc(i), Pc(j)), o)
  {
    hide RegNum, Imm, Encode, Offset;
    o := OperationOf(lines[i][0]).value;
    rs, rt := RegNum(lines[i][2]).value, RegNum(lines[i][1]).value;
  }

  lemma PcDistance(i: nat, j: nat)
    ensures Pc(i) % 4 == 0 && Pc(j) % 4 == 0
    ensures var d := (j - (i + 1)) % 0x4000_0000;
            -0x2_0000 <= SignedWord(Pc(j) - Pc(i) - 4) < 0x2_0000 <==> d < 0x8000 || d >= 0x3FFF_8000
  {
    PcIsScaled(i);
    PcIsScaled(j);
    hide Pc;
    var n, m := i % 0x4000_0000, j % 0x4000_0000;
    var d := (j - (i + 1)) % 0x4000_0000;
    assert d == (m - n - 1) % 0x4000_0000 by { ModDifference(j, i); }
    assert d == if m > n then m - n - 1 else m - n - 1 + 0x4000_0000;
  }

  lemma PcIsScaled(i: nat)
    ensures Pc(i) == 4 * (i % 0x4000_0000)
  {}

  lemma ModDifference(j: nat, i: nat)
    ensures (j - (i + 1)) % 0x4000_0000 == (j % 0x4000_0000 - i % 0x4000_0000 - 1) % 0x4000_0000
  {
    var a, b := j / 0x4000_0000, i / 0x4000_0000;
    assert j - (i + 1) == (j % 0x4000_0000 - i % 0x4000_0000 - 1) + (a - b) * 0x4000_0000;
  }

  /** A jump to a label goes to the labelled instruction exactly when that lies in
      the same 256 megabytes as the next one. */
  lemma JumpReachesLabel(lines: seq<seq<string>>, i: nat, syms: Syms, j: nat)
    requires i < |lines| && Assembles(lines, i, syms)
    requires |lines[i]| == 2 && (lines[i][0] == "j" || lines[i][0] == "jal")
    requires lines[i][1] in syms && syms[lines[i][1]] == Pc(j)
    ensures JumpTarget(WordAt(lines, i, syms), Pc(i)) == Pc(j)
            <==> Pc(i + 1) / 0x1000_0000 == Pc(j) / 0x1000_0000
  {
    hide RegNum, Imm, JumpTarget, Encode;
    JumpExact(Pc(i), Pc(j), OperationOf(lines[i][0]).value);
    NextPc(i);
    PcDistance(i, j);
  }
}
