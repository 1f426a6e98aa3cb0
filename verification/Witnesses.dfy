/** Programs that run into the limits: from reset, and with hits but for one fetch,
    the pipeline ends up with other registers, or at another address, than the
    sequential machine. */
module Witnesses {
  import opened Isa
  import opened Core
  import opened Refinement
  import opened Runs
  import Scheduler

  // ------------------------------------------------- the pipeline with one thread

  /** What the pipeline holds while only thread 0 runs. */
  datatype Solo = Solo(
    pc: Word, dec: DecReg, ex: ExeReg, a: Word, b: Word, data: Bank, me: MemReg, wb: WbReg, mem: Memory, o: Occ)

  predicate Shows(k: Pipe, v: Solo) {
    && k.o == v.o && k.s.dec == v.dec && k.s.ex == v.ex && k.s.me == v.me && k.s.wb == v.wb && k.s.mem == v.mem
    && k.s.rf.trd == 0 && k.s.rf.files[0] == RegFile(v.data, v.a, v.b)
    && k.s.ctl.csrs[0].valid && k.s.ctl.csrs[0].running && k.s.ctl.csrs[0].pc == v.pc
    && (forall t: Tid | t != 0 :: !k.s.ctl.csrs[t].valid && !k.s.ctl.csrs[t].running)
    && k.s.ctl.wait == {} && k.s.ctl.last == 0 && k.s.ctl.tmp == 0 && k.s.ctl.lastPc == v.dec.pc && !k.s.ctl.rstInit
    && v.dec.trd == 0 && v.ex.trd == 0 && v.me.trd == 0 && v.wb.trd == 0
  }

  /** Nothing has missed and no thread is being managed. */
  predicate Quiet(v: Solo) { v.wb.trdOp == NoOp && !v.wb.miss && !v.dec.miss }

  function WbValue(v: Solo): Word { if v.wb.wbSel then v.wb.rdData else v.wb.data }

  function Operand(v: Solo, r: Reg, raw: Word): Word {
    if v.me.wrEn && r == v.me.rd then (if !v.me.wbSel && r != 0 then v.me.data else raw)
    else if v.wb.wrEn && r == v.wb.rd && r != 0 then WbValue(v)
    else raw
  }

  function Out(v: Solo): Outcome {
    Execute(v.ex.c, v.ex.pc, Operand(v, v.ex.c.ra, v.a), Operand(v, v.ex.c.rb, v.b))
  }

  predicate Waits(v: Solo) {
    !Out(v).taken && v.me.wrEn && v.me.wbSel && (v.ex.c.ra == v.me.rd || v.ex.c.rb == v.me.rd)
  }

  function SoloNext(prog: Program, v: Solo, i: Input): Solo {
    var out, d := Out(v), Decode(v.dec.ins);
    var jmp, stall := out.taken, Waits(v);
    var at := if stall then v.dec.pc else v.pc;
    var c := v.ex.c;
    Solo(
      if jmp then out.target else if stall then v.pc else Inc(v.pc),
      DecReg(0, at, if !jmp && !i.fetchMiss then prog(at) else 0, !jmp && i.fetchMiss),
      if jmp then NO_EXE else if stall then v.ex else ExeReg(0, v.dec.pc, v.dec.ins, d),
      if v.wb.wrEn && v.wb.rd == d.ra then WbValue(v) else v.data[d.ra],
      if v.wb.wrEn && v.wb.rd == d.rb then WbValue(v) else v.data[d.rb],
      if v.wb.wrEn && v.wb.rd > 1 then v.data[v.wb.rd := WbValue(v)] else v.data,
      if stall then NO_MEM
      else MemReg(0, v.ex.pc, v.ex.ins, out.addr, out.data, c.rd, c.wrEn, c.wbSel, c.memRd, c.memWr, c.trdOp,
                  Operand(v, c.ra, v.a), Operand(v, c.rb, v.b)),
      WbReg(0, v.me.pc, v.me.ins, v.me.data, v.me.rd, v.me.wrEn, v.me.wbSel, v.me.trdOp, v.me.newPc, v.me.newData,
            if v.me.memRd then Load(v.mem, v.me.addr) else 0, (v.me.memRd || v.me.memWr) && i.accessMiss),
      if v.me.memWr && !i.accessMiss then v.mem[v.me.addr := v.me.data] else v.mem,
      Occ(!jmp && !i.fetchMiss, if jmp then false else if stall then v.o.ex else v.o.dec, v.o.ex && !stall, v.o.me))
  }

  /** The wires. */
  lemma SoloWires(k: Pipe, v: Solo)
    requires Shows(k, v) && Quiet(v)
    ensures var s := k.s;
            && !Squash(s) && !Init(s) && WbData(s) == WbValue(v) && WrEnFinal(s) == v.wb.wrEn
            && FwdA(s) == Operand(v, v.ex.c.ra, v.a) && FwdB(s) == Operand(v, v.ex.c.rb, v.b)
            && ExeOut(s) == Out(v) && Jmp(s) == Out(v).taken && Stall(s) == Waits(v)
            && Cur(s) == 0 && CurPc(s) == (if Waits(v) then v.dec.pc else v.pc)
            && IRd(s) == !Out(v).taken && TrdMiss(s) == {}
            && FlushID(s) == Out(v).taken && !FlushEX(s) && !FlushMEM(s)
            && (forall t: Tid | t != 0 :: !PcWr(s, t)) && RunTrd(s) == {0}
  {
    hide Execute, Decode;
  }

  lemma SoloControl(prog: Program, k: Pipe, v: Solo, i: Input)
    requires Shows(k, v) && Quiet(v)
    ensures var c, n := CtlNext(k.s), SoloNext(prog, v, i);
            && c.csrs[0].valid && c.csrs[0].running && c.csrs[0].pc == n.pc
            && (forall t: Tid | t != 0 :: !c.csrs[t].valid && !c.csrs[t].running)
            && c.wait == {} && c.last == 0 && c.tmp == 0 && c.lastPc == n.dec.pc && !c.rstInit
  {
    SoloWires(k, v);
    assert PcWr(k.s, 0) == !Stall(k.s);
    assert !Stall(k.s) ==> NxtPc(k.s, 0) == SoloNext(prog, v, i).pc;
    hide Execute, Decode, Stall, Jmp, Cur, CurPc, IRd, RunTrd, PcWr, NxtPc, Operand, Waits, Out, Squash, Init, TrdMiss;
    forall t: Tid ensures CtlNext(k.s).csrs[t] == CsrNext(k.s, t) {}
  }

  lemma SoloStages(prog: Program, k: Pipe, v: Solo, i: Input)
    requires Shows(k, v) && Quiet(v)
    ensures var n, s := SoloNext(prog, v, i), k.s;
            && DecNext(prog, s, i) == n.dec && ExeNext(s) == n.ex && MemNext(s) == n.me && WbNext(s, i) == n.wb
            && MemoryNext(s, i) == n.mem && OccNext(s, k.o, i) == n.o
            && RfNext(s).trd == 0 && RfNext(s).files[0] == RegFile(n.data, n.a, n.b)
  {
    SoloWires(k, v);
    hide Execute, Decode, Stall, Jmp, Cur, CurPc, IRd, Operand, Waits, Out, Squash, Init, FlushID, FlushEX, FlushMEM;
    hide FwdA, FwdB, ExeOut, WrEnFinal, WbData, WbValue;
    assert RfNext(k.s).files[0] == FileNext(k.s, 0);
    assert !InitWb(k.s);
  }

  lemma SoloClock(prog: Program, k: Pipe, v: Solo, i: Input)
    requires Shows(k, v) && Quiet(v)
    ensures Shows(PipeStep(prog, k, i), SoloNext(prog, v, i))
  {
    SoloControl(prog, k, v, i);
    SoloStages(prog, k, v, i);
    hide CtlNext, DecNext, ExeNext, RfNext, MemNext, WbNext, MemoryNext, OccNext;
    assert SoloNext(prog, v, i).dec.trd == 0 && SoloNext(prog, v, i).wb.trd == 0 by { hide Execute, Decode; }
    assert SoloNext(prog, v, i).ex.trd == 0 && SoloNext(prog, v, i).me.trd == 0 by { hide Execute, Decode; }
    hide SoloNext;
  }

  // ------------------------------------------------------------------------ runs

  const HIT := Input(false, false)

  function Hitting(n: nat): seq<Input> { seq(n, _ => HIT) }
  /** r6 of thread 0. */
  function R6(m: Arch): Word { m.regs[0][6] }

  function Turns(n: nat): seq<Tid> { seq(n, _ => 0) }

  function SoloRun(prog: Program, v: Solo, ins: seq<Input>): Solo
    decreases |ins|
  {
    if ins == [] then v else SoloRun(prog, SoloNext(prog, v, ins[0]), ins[1..])
  }

  /** n clocks with hits. */
  function SoloAt(prog: Program, v: Solo, n: nat): Solo { SoloRun(prog, v, Hitting(n)) }

  lemma {:induction false} SoloSnoc(prog: Program, v: Solo, ins: seq<Input>, i: Input)
    ensures SoloRun(prog, v, ins + [i]) == SoloNext(prog, SoloRun(prog, v, ins), i)
    decreases |ins|
  {
    hide SoloNext;
    if ins == [] {
      assert ([] + [i])[1..] == [];
    } else {
      assert (ins + [i])[0] == ins[0] && (ins + [i])[1..] == ins[1..] + [i];
      SoloSnoc(prog, SoloNext(prog, v, ins[0]), ins[1..], i);
    }
  }

  lemma SoloStep(prog: Program, v: Solo, n: nat)
    ensures SoloAt(prog, v, 0) == v
    ensures SoloAt(prog, v, n + 1) == SoloNext(prog, SoloAt(prog, v, n), HIT)
  {
    hide SoloNext;
    assert Hitting(n + 1) == Hitting(n) + [HIT];
    SoloSnoc(prog, v, Hitting(n), HIT);
  }

  function Commits1(v: Solo): nat { if v.o.me then 1 else 0 }

  function CountAt(prog: Program, v: Solo, n: nat): nat {
    if n == 0 then 0 else CountAt(prog, v, n - 1) + Commits1(SoloAt(prog, v, n - 1))
  }

  function At(prog: Program, n: nat): Pipe { PipeRun(prog, Started(prog), Hitting(n)) }

  lemma {:induction false} RunSnoc(prog: Program, k: Pipe, ins: seq<Input>, i: Input)
    ensures PipeRun(prog, k, ins + [i]) == PipeStep(prog, PipeRun(prog, k, ins), i)
    ensures Committed(prog, k, ins + [i])
         == Committed(prog, k, ins) + if Commits(PipeRun(prog, k, ins), i) then [PipeRun(prog, k, ins).s.me.trd] else []
    decreases |ins|
  {
    hide PipeStep, Commits;
    if ins == [] {
      assert ([] + [i])[1..] == [];
    } else {
      assert (ins + [i])[0] == ins[0] && (ins + [i])[1..] == ins[1..] + [i];
      RunSnoc(prog, PipeStep(prog, k, ins[0]), ins[1..], i);
    }
  }

  lemma AtStep(prog: Program, n: nat)
    ensures At(prog, n + 1) == PipeStep(prog, At(prog, n), HIT)
  {
    hide PipeStep, PipeRun, Started, Commits;
    assert Hitting(n + 1) == Hitting(n) + [HIT];
    RunSnoc(prog, Started(prog), Hitting(n), HIT);
  }

  lemma {:induction false} SoloRuns(prog: Program, n: nat)
    requires forall m: nat | m < n :: Quiet(SoloAt(prog, START, m))
    ensures Shows(At(prog, n), SoloAt(prog, START, n))
    ensures Committed(prog, Started(prog), Hitting(n)) == Turns(CountAt(prog, START, n))
  {
    hide SoloNext, PipeStep, Shows, Quiet, Commits;
    if n == 0 {
      StartShows(prog);
    } else {
      SoloRuns(prog, n - 1);
      SoloStep(prog, START, n - 1);
      assert Hitting(n) == Hitting(n - 1) + [HIT];
      RunSnoc(prog, Started(prog), Hitting(n - 1), HIT);
      SoloClock(prog, At(prog, n - 1), SoloAt(prog, START, n - 1), HIT);
      SoloCommitsToo(At(prog, n - 1), SoloAt(prog, START, n - 1));
      var c := CountAt(prog, START, n - 1);
      assert Turns(c) + [0] == Turns(c + 1) && Turns(c) + [] == Turns(c);
    }
  }

  lemma SoloCommitsToo(k: Pipe, v: Solo)
    requires Shows(k, v) && Quiet(v)
    ensures Commits(k, HIT) == v.o.me && k.s.me.trd == 0
  {
    SoloWires(k, v);
  }

  const FRESH: Bank := [0, 0, 0x0001_0FFF, 0x0001_0FFF] + seq(28, _ => 0)

  const START := Solo(
    START_PC, DecReg(0, START_PC, 0, false), NO_EXE, 0, 0, FRESH,
    MemReg(0, 0, 0, 0xFFFF_FFFF, 0xFFFF_FFFF, 0, false, false, false, false, NoOp, 0, 0),
    NO_WB, map[], EMPTY)

  function Started(prog: Program): Pipe { PipeStep(prog, ResetPipe(), HIT) }

  lemma StartShows(prog: Program)
    ensures Shows(Started(prog), START) && InitBank(0, 0) == FRESH
  {
    var s := ResetState();
    IdleWord();
    assert Alu(Decode(0), 0, 0) == 0xFFFF_FFFF;
    hide Alu, Target;
    assert !Jmp(s) && !Squash(s) && !StallReq(s);
    assert Init(s) && ObjTrd(s) == 0;
    assert Cur(s) == 0 && !IRd(s);
    FirstClock(prog, HIT);
    assert InitBank(0, 0) == FRESH;
  }

  // -------------------------------------------------------------------- programs

  /** A program of four instructions from START_PC on. */
  function Words(w0: Word, w1: Word, w2: Word, w3: Word): Program {
    (pc: Word) => WordOf(pc, w0, w1, w2, w3)
  }

  function WordOf(pc: Word, w0: Word, w1: Word, w2: Word, w3: Word): Word {
    if pc == START_PC then w0
    else if pc == START_PC + 1 then w1
    else if pc == START_PC + 2 then w2
    else if pc == START_PC + 3 then w3
    else 0
  }

  const LD: Word := 0x2800_01D0         // ld r5, r0, 0
  const ADD_LOADED: Word := 0x308A_00DE // add r6, r2, r5
  const ADDI_R0: Word := 0x0080_00DC    // addi r0, r2, 0
  const ADD_R0: Word := 0x3000_00DE     // add r6, r0, r0
  const NT: Word := 0x2800_00EC         // nt r5, r0, r0
  const ADD_ID: Word := 0x3140_00DE     // add r6, r5, r0
  const BEQ: Word := 0x0000_0C34        // beq r0, r0, 3

  const NONE := Decode(0)

  lemma DecodedLoad()
    ensures Decode(LD)
         == NONE.(rd := 5, rb := 5, aluOp := ADD, iType := true, memRd := true, wbSel := true, wrEn := true)
    ensures Decode(ADD_LOADED) == NONE.(rd := 6, ra := 2, rb := 5, imm := 0x2280, aluOp := ADD, wrEn := true)
  {
    DecodedLoadFirst();
    DecodedLoadSecond();
    hide Decode;
  }

  lemma DecodedLoadFirst()
    ensures Decode(LD)
         == NONE.(rd := 5, rb := 5, aluOp := ADD, iType := true, memRd := true, wbSel := true, wrEn := true)
  {}

  lemma DecodedLoadSecond()
    ensures Decode(ADD_LOADED) == NONE.(rd := 6, ra := 2, rb := 5, imm := 0x2280, aluOp := ADD, wrEn := true)
  {}

  lemma DecodedR0()
    ensures Decode(ADDI_R0) == NONE.(ra := 2, imm := 0x2000, aluOp := ADD, iType := true, wrEn := true)
    ensures Decode(ADD_R0) == NONE.(rd := 6, aluOp := ADD, wrEn := true)
  {
    DecodedR0First();
    DecodedR0Second();
    hide Decode;
  }

  lemma DecodedR0First()
    ensures Decode(ADDI_R0) == NONE.(ra := 2, imm := 0x2000, aluOp := ADD, iType := true, wrEn := true)
  {}

  lemma DecodedR0Second()
    ensures Decode(ADD_R0) == NONE.(rd := 6, aluOp := ADD, wrEn := true)
  {}

  lemma DecodedCreate()
    ensures Decode(NT) == NONE.(rd := 5, aluOp := AND, wrEn := true, trdOp := Create)
    ensures Decode(ADD_ID) == NONE.(rd := 6, ra := 5, imm := 0x5000, aluOp := ADD, wrEn := true)
  {
    DecodedCreateFirst();
    DecodedCreateSecond();
    hide Decode;
  }

  lemma DecodedCreateFirst()
    ensures Decode(NT) == NONE.(rd := 5, aluOp := AND, wrEn := true, trdOp := Create)
  {}

  lemma DecodedCreateSecond()
    ensures Decode(ADD_ID) == NONE.(rd := 6, ra := 5, imm := 0x5000, aluOp := ADD, wrEn := true)
  {}

  lemma DecodedBranch()
    ensures Decode(BEQ) == NONE.(aluOp := 1, imm := 3, jump := IfEqual)
  {}

  lemma DecodedNone()
    ensures NONE == Ctrl(0, 0, 0, 0, 0, false, false, false, false, false, NoOp, NoJump, false, false, false)
  {
    IdleWord();
  }

  /** A clock with a hit in which EXE neither jumps nor waits. */
  lemma Flows(prog: Program, v: Solo)
    requires v.ex.c.jump == NoJump && !Waits(v)
    ensures var n, o := SoloNext(prog, v, HIT), Out(v);
            && n.pc == Inc(v.pc) && n.dec == DecReg(0, v.pc, prog(v.pc), false)
            && n.ex == ExeReg(0, v.dec.pc, v.dec.ins, Decode(v.dec.ins))
            && n.me == MemReg(0, v.ex.pc, v.ex.ins, o.addr, o.data, v.ex.c.rd, v.ex.c.wrEn, v.ex.c.wbSel, v.ex.c.memRd,
                              v.ex.c.memWr, v.ex.c.trdOp, Operand(v, v.ex.c.ra, v.a), Operand(v, v.ex.c.rb, v.b))
            && n.o == Occ(true, v.o.dec, v.o.ex, v.o.me)
            && !o.taken
  {
    hide Decode, Alu, Target;
  }

  /** What reaches WB, the registers and the ports in such a clock, or in a stall. */
  lemma Retires(prog: Program, v: Solo)
    requires !v.me.memWr
    ensures var n, d := SoloNext(prog, v, HIT), Decode(v.dec.ins);
            && n.wb == WbReg(0, v.me.pc, v.me.ins, v.me.data, v.me.rd, v.me.wrEn, v.me.wbSel, v.me.trdOp, v.me.newPc,
                             v.me.newData, if v.me.memRd then Load(v.mem, v.me.addr) else 0, false)
            && n.data == (if v.wb.wrEn && v.wb.rd > 1 then v.data[v.wb.rd := WbValue(v)] else v.data)
            && n.a == (if v.wb.wrEn && v.wb.rd == d.ra then WbValue(v) else v.data[d.ra])
            && n.b == (if v.wb.wrEn && v.wb.rd == d.rb then WbValue(v) else v.data[d.rb])
            && n.mem == v.mem
  {
    hide Decode, Execute;
  }

  // ------------------------------------------------- a load-use stall loses r2

  const STALLING := Words(LD, ADD_LOADED, 0, 0)

  lemma Holds(prog: Program, v: Solo)
    requires Waits(v)
    ensures var n := SoloNext(prog, v, HIT);
            && n.pc == v.pc && n.dec == DecReg(0, v.dec.pc, prog(v.dec.pc), false) && n.ex == v.ex && n.me == NO_MEM
            && n.o == Occ(true, v.o.ex, false, v.o.me)
  {
    hide Decode, Execute;
  }

  lemma SumOut(v: Solo)
    requires v.ex.c.aluOp == ADD && !v.ex.c.iType && !v.ex.c.memWr && v.ex.c.jump == NoJump
    ensures Out(v).data == Add(Operand(v, v.ex.c.ra, v.a), Operand(v, v.ex.c.rb, v.b))
  {}

  lemma Steps(prog: Program)
    ensures SoloAt(prog, START, 0) == START
    ensures forall n: nat, m: nat | m == n + 1 :: SoloAt(prog, START, m) == SoloNext(prog, SoloAt(prog, START, n), HIT)
  {
    forall n: nat, m: nat | m == n + 1
      ensures SoloAt(prog, START, m) == SoloNext(prog, SoloAt(prog, START, n), HIT)
    {
      SoloStep(prog, START, n);
    }
    SoloStep(prog, START, 0);
  }

  lemma CountSix(prog: Program)
    ensures CountAt(prog, START, 6)
         == Commits1(SoloAt(prog, START, 0)) + Commits1(SoloAt(prog, START, 1)) + Commits1(SoloAt(prog, START, 2))
            + Commits1(SoloAt(prog, START, 3)) + Commits1(SoloAt(prog, START, 4)) + Commits1(SoloAt(prog, START, 5))
  {
    hide SoloAt, Commits1;
    assert CountAt(prog, START, 1) == Commits1(SoloAt(prog, START, 0));
    assert CountAt(prog, START, 3) == CountAt(prog, START, 2) + Commits1(SoloAt(prog, START, 2));
    assert CountAt(prog, START, 5) == CountAt(prog, START, 4) + Commits1(SoloAt(prog, START, 4));
  }

  lemma NoJumpTaken(v: Solo)
    requires v.ex.c.jump == NoJump
    ensures !Out(v).taken
  {}

  lemma StallingRun()
    ensures forall m: nat | m < 6 :: Quiet(SoloAt(STALLING, START, m))
    ensures var w := SoloAt(STALLING, START, 6).wb;
            w.wrEn && w.rd == 6 && w.data == 0 && !w.wbSel && w.trdOp == NoOp && !w.miss
    ensures CountAt(STALLING, START, 6) == 2
  {
    DecodedNone();
    DecodedLoad();
    hide Decode, SoloNext, Out, SoloAt;
    Steps(STALLING);
    var v0, v1, v2 := START, SoloAt(STALLING, START, 1), SoloAt(STALLING, START, 2);
    var v3, v4, v5 := SoloAt(STALLING, START, 3), SoloAt(STALLING, START, 4), SoloAt(STALLING, START, 5);
    Flows(STALLING, v0);
    Retires(STALLING, v0);
    Flows(STALLING, v1);
    Retires(STALLING, v1);
    Flows(STALLING, v2);
    Retires(STALLING, v2);
    NoJumpTaken(v3);
    Holds(STALLING, v3);
    Retires(STALLING, v3);
    Flows(STALLING, v4);
    Retires(STALLING, v4);
    SumOut(v4);
    Retires(STALLING, v5);
    CountSix(STALLING);
  }

  /** What the abstraction shows of thread 0 when WB holds a result for r6. */
  lemma ShowsResult(k: Pipe, v: Solo)
    requires Shows(k, v) && v.wb.wrEn && v.wb.rd == 6 && !v.wb.wbSel && v.wb.trdOp == NoOp && !v.wb.miss
    ensures R6(Abs(k)) == v.wb.data
  {}

  lemma OrdinaryWords(w0: Word, w1: Word, w2: Word, w3: Word)
    requires Ordinary(Decode(w0)) && Ordinary(Decode(w1)) && Ordinary(Decode(w2)) && Ordinary(Decode(w3))
    ensures OrdinaryProgram(Words(w0, w1, w2, w3))
  {
    DecodedNone();
    hide Decode;
  }

  /** ld r5, r0, 0; add r6, r2, r5. The stall reads the port of r2 again for the slot
      in DEC, which names r0: r6 becomes 0 instead of r2. */
  lemma StallLosesRegister()
    ensures OrdinaryProgram(STALLING)
    ensures Committed(STALLING, Started(STALLING), Hitting(6)) == [0, 0]
    ensures R6(Abs(At(STALLING, 6))) == 0
    ensures R6(SeqRun(STALLING, ResetArch(), [0, 0])) == 0x0001_0FFF
  {
    hide Shows, SoloAt, Quiet, Decode, SeqRun, Committed, At, Abs, CountAt, OrdinaryProgram, ResetArch, Started, Turns;
    StallingRun();
    SoloRuns(STALLING, 6);
    TurnsAre();
    ShowsResult(At(STALLING, 6), SoloAt(STALLING, START, 6));
    StallingSequential();
    DecodedLoad();
    DecodedNone();
    OrdinaryWords(LD, ADD_LOADED, 0, 0);
  }

  lemma TurnsAre()
    ensures Turns(1) + [0] == [0, 0] && Turns(2) == [0, 0] && Turns(4) == [0, 0, 0, 0]
  {}

  lemma TwoSteps(prog: Program, m: Arch)
    ensures SeqRun(prog, m, [0, 0]) == SeqStep(prog, SeqStep(prog, m, 0), 0)
  {
    hide SeqStep;
    assert [0, 0][1..] == [0] && [0][1..] == [];
    assert SeqRun(prog, SeqStep(prog, m, 0), [0]) == SeqRun(prog, SeqStep(prog, SeqStep(prog, m, 0), 0), []);
  }

  lemma StallingSequential()
    ensures R6(SeqRun(STALLING, ResetArch(), [0, 0])) == 0x0001_0FFF
  {
    TwoSteps(STALLING, ResetArch());
    DecodedNone();
    DecodedLoad();
    hide Decode;
    var m := SeqStep(STALLING, ResetArch(), 0);
    assert m.threads[0].pc == START_PC + 1 && m.regs[0][2] == 0x0001_0FFF && m.regs[0][5] == 0;
  }

  // ----------------------------------------------- the bypass hands on a dropped r0

  const BYPASSED := Words(ADDI_R0, 0, 0, ADD_R0)

  lemma SumImmOut(v: Solo)
    requires v.ex.c == NONE.(rd := v.ex.c.rd, ra := 2, imm := 0x2000, aluOp := ADD, iType := true, wrEn := true)
    ensures Out(v).data == Operand(v, 2, v.a)
  {
    DecodedNone();
  }

  lemma BypassedRun()
    ensures forall m: nat | m < 7 :: Quiet(SoloAt(BYPASSED, START, m))
    ensures var w := SoloAt(BYPASSED, START, 7).wb;
            w.wrEn && w.rd == 6 && w.data == 0x0002_1FFE && !w.wbSel && w.trdOp == NoOp && !w.miss
    ensures CountAt(BYPASSED, START, 7) == 4
  {
    DecodedNone();
    DecodedR0();
    hide Decode, SoloNext, Out, SoloAt;
    Steps(BYPASSED);
    var v0, v1, v2 := START, SoloAt(BYPASSED, START, 1), SoloAt(BYPASSED, START, 2);
    var v3, v4, v5 := SoloAt(BYPASSED, START, 3), SoloAt(BYPASSED, START, 4), SoloAt(BYPASSED, START, 5);
    Flows(BYPASSED, v0);
    Retires(BYPASSED, v0);
    Flows(BYPASSED, v1);
    Retires(BYPASSED, v1);
    Flows(BYPASSED, v2);
    Retires(BYPASSED, v2);
    SumImmOut(v2);
    Flows(BYPASSED, v3);
    Retires(BYPASSED, v3);
    Flows(BYPASSED, v4);
    Retires(BYPASSED, v4);
    Flows(BYPASSED, v5);
    Retires(BYPASSED, v5);
    SumOut(v5);
    Retires(BYPASSED, SoloAt(BYPASSED, START, 6));
    CountSix(BYPASSED);
  }

  lemma FourSteps(prog: Program, m: Arch)
    ensures SeqRun(prog, m, [0, 0, 0, 0])
         == SeqStep(prog, SeqStep(prog, SeqStep(prog, SeqStep(prog, m, 0), 0), 0), 0)
  {
    hide SeqStep;
    TwoSteps(prog, SeqStep(prog, SeqStep(prog, m, 0), 0));
    assert [0, 0, 0, 0][1..] == [0, 0, 0] && [0, 0, 0][1..] == [0, 0];
    assert SeqRun(prog, SeqStep(prog, m, 0), [0, 0, 0]) == SeqRun(prog, SeqStep(prog, SeqStep(prog, m, 0), 0), [0, 0]);
  }

  lemma BypassedSequential()
    ensures R6(SeqRun(BYPASSED, ResetArch(), [0, 0, 0, 0])) == 0
  {
    FourSteps(BYPASSED, ResetArch());
    DecodedNone();
    DecodedR0();
    hide Decode;
    var m1 := SeqStep(BYPASSED, ResetArch(), 0);
    var m2 := SeqStep(BYPASSED, m1, 0);
    var m3 := SeqStep(BYPASSED, m2, 0);
    assert m1.threads[0].pc == START_PC + 1 && m1.regs == ResetArch().regs;
    assert m2.threads[0].pc == START_PC + 2 && m2.regs == m1.regs;
    assert m3.threads[0].pc == START_PC + 3 && m3.regs == m1.regs;
    assert m3.regs[0][0] == 0;
  }

  /** addi r0, r2, 0; two idle words; add r6, r0, r0. The write of r0 is dropped, and
      yet the instruction that reads r0 in its clock gets it. */
  lemma BypassLeaksR0()
    ensures OrdinaryProgram(BYPASSED)
    ensures Committed(BYPASSED, Started(BYPASSED), Hitting(7)) == [0, 0, 0, 0]
    ensures R6(Abs(At(BYPASSED, 7))) == 0x0002_1FFE
    ensures R6(SeqRun(BYPASSED, ResetArch(), [0, 0, 0, 0])) == 0
  {
    hide SeqRun, Committed, At, Abs, OrdinaryProgram, ResetArch, Started;
    BypassedPipeline();
    BypassedSequential();
    BypassedOrdinary();
  }

  lemma BypassedOrdinary()
    ensures OrdinaryProgram(BYPASSED)
  {
    hide Decode, OrdinaryProgram;
    DecodedR0();
    DecodedNone();
    OrdinaryWords(ADDI_R0, 0, 0, ADD_R0);
  }

  lemma BypassedPipeline()
    ensures Committed(BYPASSED, Started(BYPASSED), Hitting(7)) == [0, 0, 0, 0]
    ensures R6(Abs(At(BYPASSED, 7))) == 0x0002_1FFE
  {
    hide Shows, SoloAt, Quiet, Committed, At, Abs, CountAt, Started, Turns;
    BypassedRun();
    SoloRuns(BYPASSED, 7);
    TurnsAre();
    ShowsResult(At(BYPASSED, 7), SoloAt(BYPASSED, START, 7));
  }

  // ---------------------------------------------- forwarding hands on a dropped r1

  const ADDI_R1: Word := 0x0880_00DC    // addi r1, r2, 0
  const ADD_R1: Word := 0x3040_00DE     // add r6, r1, r0
  const FORWARDED := Words(ADDI_R1, ADD_R1, 0, 0)

  lemma DecodedR1()
    ensures Decode(ADDI_R1) == NONE.(rd := 1, ra := 2, imm := 0x2000, aluOp := ADD, iType := true, wrEn := true)
    ensures Decode(ADD_R1) == NONE.(rd := 6, ra := 1, imm := 0x1000, aluOp := ADD, wrEn := true)
  {
    DecodedR1First();
    DecodedR1Second();
    hide Decode;
  }

  lemma DecodedR1First()
    ensures Decode(ADDI_R1) == NONE.(rd := 1, ra := 2, imm := 0x2000, aluOp := ADD, iType := true, wrEn := true)
  {}

  lemma DecodedR1Second()
    ensures Decode(ADD_R1) == NONE.(rd := 6, ra := 1, imm := 0x1000, aluOp := ADD, wrEn := true)
  {}

  lemma ForwardedRun()
    ensures forall m: nat | m < 5 :: Quiet(SoloAt(FORWARDED, START, m))
    ensures var w := SoloAt(FORWARDED, START, 5).wb;
            w.wrEn && w.rd == 6 && w.data == 0x0001_0FFF && !w.wbSel && w.trdOp == NoOp && !w.miss
    ensures CountAt(FORWARDED, START, 5) == 2
  {
    DecodedNone();
    DecodedR1();
    hide Decode, SoloNext, Out, SoloAt;
    Steps(FORWARDED);
    var v0, v1, v2 := START, SoloAt(FORWARDED, START, 1), SoloAt(FORWARDED, START, 2);
    var v3, v4 := SoloAt(FORWARDED, START, 3), SoloAt(FORWARDED, START, 4);
    Flows(FORWARDED, v0);
    Retires(FORWARDED, v0);
    Flows(FORWARDED, v1);
    Retires(FORWARDED, v1);
    Flows(FORWARDED, v2);
    Retires(FORWARDED, v2);
    SumImmOut(v2);
    Flows(FORWARDED, v3);
    Retires(FORWARDED, v3);
    SumOut(v3);
    Retires(FORWARDED, v4);
    CountFive(FORWARDED);
  }

  lemma CountFive(prog: Program)
    ensures CountAt(prog, START, 5)
         == Commits1(SoloAt(prog, START, 0)) + Commits1(SoloAt(prog, START, 1)) + Commits1(SoloAt(prog, START, 2))
            + Commits1(SoloAt(prog, START, 3)) + Commits1(SoloAt(prog, START, 4))
  {
    CountSix(prog);
    assert CountAt(prog, START, 6) == CountAt(prog, START, 5) + Commits1(SoloAt(prog, START, 5));
  }

  lemma ForwardedSequential()
    ensures R6(SeqRun(FORWARDED, ResetArch(), [0, 0])) == 0
  {
    TwoSteps(FORWARDED, ResetArch());
    DecodedNone();
    DecodedR1();
    hide Decode;
    var m := SeqStep(FORWARDED, ResetArch(), 0);
    assert m.threads[0].pc == START_PC + 1 && m.regs == ResetArch().regs;
    assert m.regs[0][1] == 0 && m.regs[0][0] == 0;
  }

  lemma ForwardedPipeline()
    ensures Committed(FORWARDED, Started(FORWARDED), Hitting(5)) == [0, 0]
    ensures R6(Abs(At(FORWARDED, 5))) == 0x0001_0FFF
  {
    hide Shows, SoloAt, Quiet, Committed, At, Abs, CountAt, Started, Turns;
    ForwardedRun();
    SoloRuns(FORWARDED, 5);
    TurnsAre();
    ShowsResult(At(FORWARDED, 5), SoloAt(FORWARDED, START, 5));
  }

  /** addi r1, r2, 0; add r6, r1, r0. The write of r1 is dropped, and yet the next
      instruction is handed it. */
  lemma ForwardLeaksR1()
    ensures OrdinaryProgram(FORWARDED)
    ensures Committed(FORWARDED, Started(FORWARDED), Hitting(5)) == [0, 0]
    ensures R6(Abs(At(FORWARDED, 5))) == 0x0001_0FFF
    ensures R6(SeqRun(FORWARDED, ResetArch(), [0, 0])) == 0
  {
    hide SeqRun, Committed, At, Abs, ResetArch, Started;
    ForwardedPipeline();
    ForwardedSequential();
    DecodedR1();
    DecodedNone();
    hide Decode, OrdinaryProgram;
    OrdinaryWords(ADDI_R1, ADD_R1, 0, 0);
  }

  // -------------------------------------------------- `nt` forwards no thread id

  const CREATING := Words(NT, ADD_ID, 0, 0)

  lemma CreateOut(v: Solo)
    requires v.ex.c == NONE.(rd := 5, aluOp := AND, wrEn := true, trdOp := Create)
    requires Operand(v, 0, v.a) == 0
    ensures Out(v).data == 0
  {
    DecodedNone();
    AndZero(Operand(v, 0, v.b), 32);
  }

  lemma CreatingRun()
    ensures forall m: nat | m < 4 :: Quiet(SoloAt(CREATING, START, m))
    ensures var v := SoloAt(CREATING, START, 4);
            && v.me.wrEn && v.me.rd == 6 && v.me.data == 0 && !v.me.wbSel && !v.me.memRd && !v.me.memWr
            && v.me.trdOp == NoOp && v.o.me && v.wb.trdOp == Create && !v.wb.miss
    ensures CountAt(CREATING, START, 4) == 1
  {
    DecodedNone();
    DecodedCreate();
    hide Decode, SoloNext, Out, SoloAt;
    Steps(CREATING);
    var v0, v1, v2, v3 := START, SoloAt(CREATING, START, 1), SoloAt(CREATING, START, 2), SoloAt(CREATING, START, 3);
    Flows(CREATING, v0);
    Retires(CREATING, v0);
    Flows(CREATING, v1);
    Retires(CREATING, v1);
    Flows(CREATING, v2);
    Retires(CREATING, v2);
    CreateOut(v2);
    Flows(CREATING, v3);
    Retires(CREATING, v3);
    SumOut(v3);
    assert CountAt(CREATING, START, 1) == Commits1(v0);
    assert CountAt(CREATING, START, 3) == CountAt(CREATING, START, 2) + Commits1(v2);
  }

  /** The clock in which the addition commits, while `nt` is in WB. */
  lemma AddsForwarded(prog: Program, k: Pipe, v: Solo)
    requires Shows(k, v) && v.me.wrEn && v.me.rd == 6 && v.me.data == 0 && !v.me.wbSel && !v.me.memRd && !v.me.memWr
    requires v.me.trdOp == NoOp && v.o.me && v.wb.trdOp == Create && !v.wb.miss
    ensures Commits(k, HIT) && k.s.me.trd == 0 && R6(Abs(PipeStep(prog, k, HIT))) == 0
  {
    assert !FlushMEM(k.s);
    hide Execute, Decode, CtlNext, DecNext, ExeNext, MemNext, RfNext, CommitPc, NewTrd;
    var s' := Step(prog, k.s, HIT);
    assert s'.wb.trdOp == NoOp && s'.wb.rd == 6 && s'.wb.wrEn && !s'.wb.miss && WbData(s') == 0 && s'.wb.trd == 0;
  }

  lemma CreatingSequential()
    ensures R6(SeqRun(CREATING, ResetArch(), [0, 0])) == 1
  {
    TwoSteps(CREATING, ResetArch());
    DecodedNone();
    DecodedCreate();
    var m := SeqStep(CREATING, ResetArch(), 0);
    FreeFromIsLowest(ResetArch().threads, 0);
    assert ResetArch().threads[0].valid && !ResetArch().threads[1].valid;
    assert NewTrd(ResetArch().threads) == 1;
    hide Decode, NewTrd, InitBank;
    assert m.threads[0].pc == START_PC + 1 && m.regs[0][5] == 1 && m.regs[0][0] == 0 by {
      assert ResetArch().regs[0][0] == 0 by { StartShows(CREATING); }
    }
  }

  /** nt r5, r0, r0; add r6, r5, r0. The addition is handed what the ALU made of the
      two operands instead of the id of thread 1. */
  lemma CreateForwardsNoId()
    ensures OrdinaryProgram(CREATING)
    ensures Committed(CREATING, Started(CREATING), Hitting(5)) == [0, 0]
    ensures R6(Abs(At(CREATING, 5))) == 0
    ensures R6(SeqRun(CREATING, ResetArch(), [0, 0])) == 1
  {
    hide Shows, SoloAt, Quiet, Decode, SeqRun, Committed, Abs, CountAt, OrdinaryProgram, ResetArch, Started, Turns;
    hide PipeRun, PipeStep, Commits;
    CreatingRun();
    SoloRuns(CREATING, 4);
    AddsForwarded(CREATING, At(CREATING, 4), SoloAt(CREATING, START, 4));
    assert Hitting(5) == Hitting(4) + [HIT];
    RunSnoc(CREATING, Started(CREATING), Hitting(4), HIT);
    TurnsAre();
    CreatingSequential();
    DecodedCreate();
    DecodedNone();
    OrdinaryWords(NT, ADD_ID, 0, 0);
  }

  // --------------------------------------------------- a jump lost to its own miss

  const JUMPING := Words(BEQ, 0, 0, 0)
  const MISS := Input(true, false)

  lemma MissingRun()
    ensures var v := SoloNext(JUMPING, SoloNext(JUMPING, START, HIT), MISS);
            && v.ex.c == Decode(BEQ) && v.ex.pc == START_PC && v.a == 0 && v.b == 0 && !v.me.wrEn && !v.wb.wrEn
            && v.dec == DecReg(0, START_PC + 1, 0, true) && v.o.ex && v.wb.trdOp == NoOp && !v.wb.miss
  {
    DecodedNone();
    DecodedBranch();
    hide Decode, Out;
    Flows(JUMPING, START);
    Retires(JUMPING, START);
    NoJumpTaken(SoloNext(JUMPING, START, HIT));
  }

  /** A taken branch in EXE with its own wrong-path fetch missing in DEC. */
  lemma SentBackByMiss(prog: Program, k: Pipe, v: Solo)
    requires Shows(k, v) && v.ex.c == Decode(BEQ) && v.ex.pc == START_PC && v.a == 0 && v.b == 0
    requires !v.me.wrEn && !v.wb.wrEn && v.dec == DecReg(0, START_PC + 1, 0, true) && v.wb.trdOp == NoOp && !v.wb.miss
    ensures Jmp(k.s) && ExeOut(k.s).target == START_PC + 4
    ensures var k' := PipeStep(prog, k, HIT); FetchPc(k'.s, 0) == START_PC + 1 && !k'.o.dec && !k'.o.ex
  {
    DecodedNone();
    DecodedBranch();
    hide Decode;
    var s := k.s;
    assert FwdA(s) == 0 && FwdB(s) == 0;
    assert ExeOut(s).taken && ExeOut(s).target == START_PC + 4;
    hide Execute, Forward;
    assert PcWr(s, 0) && NxtPc(s, 0) == START_PC + 1 && !IRd(s);
    hide PcWr, NxtPc, IRd;
    assert Step(prog, s, HIT).ctl.csrs[0] == CsrNext(s, 0);
  }

  lemma JumpingSequential()
    ensures SeqStep(JUMPING, ResetArch(), 0).threads[0].pc == START_PC + 4
  {
    DecodedNone();
    DecodedBranch();
    hide Decode;
  }

  /** beq r0, r0, 3, with the fetch of the next word missing: the branch is taken, and
      the thread goes on behind it, with no slot left that could put that right. */
  lemma MissLosesJump()
    ensures OrdinaryProgram(JUMPING)
    ensures var k := PipeRun(JUMPING, Started(JUMPING), [HIT, MISS]);
            var k' := PipeStep(JUMPING, k, HIT);
            && Jmp(k.s) && FetchPc(k'.s, 0) == START_PC + 1 && !k'.o.dec && !k'.o.ex
    ensures SeqStep(JUMPING, ResetArch(), 0).threads[0].pc == START_PC + 4
  {
    hide Shows, Decode, OrdinaryProgram, ResetArch, SeqStep, SoloNext, PipeStep, PipeRun, Started;
    MissingShows();
    MissingRun();
    SentBackByMiss(JUMPING, PipeRun(JUMPING, Started(JUMPING), [HIT, MISS]),
                   SoloNext(JUMPING, SoloNext(JUMPING, START, HIT), MISS));
    JumpingSequential();
    DecodedNone();
    DecodedBranch();
    OrdinaryWords(BEQ, 0, 0, 0);
  }

  lemma MissingShows()
    ensures Shows(PipeRun(JUMPING, Started(JUMPING), [HIT, MISS]),
                  SoloNext(JUMPING, SoloNext(JUMPING, START, HIT), MISS))
  {
    hide Shows, Decode, SoloNext, PipeStep;
    var k0, v0 := Started(JUMPING), START;
    var k1, v1 := PipeStep(JUMPING, k0, HIT), SoloNext(JUMPING, v0, HIT);
    DecodedNone();
    DecodedBranch();
    StartShows(JUMPING);
    SoloClock(JUMPING, k0, v0, HIT);
    Flows(JUMPING, v0);
    Retires(JUMPING, v0);
    SoloClock(JUMPING, k1, v1, MISS);
    assert [HIT, MISS][1..] == [MISS] && [MISS][1..] == [];
    assert PipeRun(JUMPING, k1, [MISS]) == PipeRun(JUMPING, PipeStep(JUMPING, k1, MISS), []);
  }

  // -------------------------------------------- a branch taken on the value before

  const ST: Word := 0x1000_00D0         // st r0, r2, 0
  const BEQ_LOADED: Word := 0x0140_0C34 // beq r5, r0, 3
  const HASTY := Words(ST, LD, BEQ_LOADED, 0)

  lemma DecodedHasty()
    ensures Decode(ST) == NONE.(rd := 2, rb := 2, aluOp := ADD, iType := true, memWr := true)
    ensures Decode(BEQ_LOADED) == NONE.(ra := 5, imm := 0x5003, aluOp := 1, jump := IfEqual)
  {
    DecodedHastyFirst();
    DecodedHastySecond();
    hide Decode;
  }

  lemma DecodedHastyFirst()
    ensures Decode(ST) == NONE.(rd := 2, rb := 2, aluOp := ADD, iType := true, memWr := true)
  {}

  lemma DecodedHastySecond()
    ensures Decode(BEQ_LOADED) == NONE.(ra := 5, imm := 0x5003, aluOp := 1, jump := IfEqual)
  {}

  lemma MemOutOf(v: Solo)
    requires v.ex.c.aluOp == ADD && v.ex.c.iType && v.ex.c.imm == 0 && v.ex.c.jump == NoJump
    ensures Out(v).addr == Operand(v, v.ex.c.ra, v.a)
    ensures v.ex.c.memWr ==> Out(v).data == Operand(v, v.ex.c.rb, v.b)
  {}

  lemma Stores(prog: Program, v: Solo)
    requires v.me.memWr
    ensures SoloNext(prog, v, HIT).mem == v.mem[v.me.addr := v.me.data]
    ensures var n, d := SoloNext(prog, v, HIT), Decode(v.dec.ins);
            && n.wb.wrEn == v.me.wrEn && n.wb.trdOp == v.me.trdOp && !n.wb.miss
            && n.data == (if v.wb.wrEn && v.wb.rd > 1 then v.data[v.wb.rd := WbValue(v)] else v.data)
            && n.a == (if v.wb.wrEn && v.wb.rd == d.ra then WbValue(v) else v.data[d.ra])
            && n.b == (if v.wb.wrEn && v.wb.rd == d.rb then WbValue(v) else v.data[d.rb])
  {
    hide Decode, Execute;
  }

  /** After four clocks the branch is in EXE and the load that it needs in MEM. */
  lemma HastyRun()
    ensures forall m: nat | m < 4 :: Quiet(SoloAt(HASTY, START, m))
    ensures var v := SoloAt(HASTY, START, 4);
            && v.ex.c == Decode(BEQ_LOADED) && v.ex.pc == START_PC + 2 && v.a == 0 && v.b == 0
            && v.me.memRd && v.me.addr == 0 && v.me.rd == 5 && v.me.wrEn && v.me.wbSel && v.me.trdOp == NoOp
            && !v.wb.wrEn && v.wb.trdOp == NoOp && !v.wb.miss && !v.dec.miss
            && v.o.ex
  {
    DecodedNone();
    DecodedLoad();
    DecodedHasty();
    hide Decode, SoloNext, Out, SoloAt;
    Steps(HASTY);
    var v0, v1 := START, SoloAt(HASTY, START, 1);
    var v2, v3 := SoloAt(HASTY, START, 2), SoloAt(HASTY, START, 3);
    Flows(HASTY, v0);
    Retires(HASTY, v0);
    Flows(HASTY, v1);
    Retires(HASTY, v1);
    Flows(HASTY, v2);
    Retires(HASTY, v2);
    MemOutOf(v2);
    Flows(HASTY, v3);
    Stores(HASTY, v3);
    MemOutOf(v3);
  }

  lemma TakenOnOld(prog: Program, k: Pipe, v: Solo)
    requires Shows(k, v) && v.ex.c == Decode(BEQ_LOADED) && v.ex.pc == START_PC + 2 && v.a == 0 && v.b == 0
    requires v.me.wrEn && v.me.wbSel && v.me.rd == 5 && !v.wb.wrEn && v.wb.trdOp == NoOp && !v.wb.miss && !v.dec.miss
    ensures StallReq(k.s) && Jmp(k.s) && !Stall(k.s)
    ensures var k' := PipeStep(prog, k, HIT); FetchPc(k'.s, 0) == START_PC + 6 && !k'.o.dec && !k'.o.ex
  {
    DecodedHasty();
    DecodedNone();
    hide Decode;
    var s := k.s;
    assert FwdA(s) == 0 && FwdB(s) == 0;
    assert ExeOut(s).taken && ExeOut(s).target == START_PC + 6;
    hide Execute, Forward;
    assert PcWr(s, 0) && NxtPc(s, 0) == START_PC + 6 && !IRd(s);
    hide PcWr, NxtPc, IRd;
    assert Step(prog, s, HIT).ctl.csrs[0] == CsrNext(s, 0);
  }

  lemma ThreeSteps(prog: Program, m: Arch)
    ensures SeqRun(prog, m, [0, 0, 0]) == SeqStep(prog, SeqStep(prog, SeqStep(prog, m, 0), 0), 0)
  {
    hide SeqStep;
    TwoSteps(prog, SeqStep(prog, m, 0));
    assert [0, 0, 0][1..] == [0, 0];
  }

  lemma HastySequential()
    ensures SeqRun(HASTY, ResetArch(), [0, 0, 0]).threads[0].pc == START_PC + 3
  {
    hide SeqStep, ResetArch, SeqRun;
    ThreeSteps(HASTY, ResetArch());
    HastyStores();
    HastyEnds(SeqStep(HASTY, ResetArch(), 0));
  }

  lemma HastyStores()
    ensures var m := SeqStep(HASTY, ResetArch(), 0);
            m.threads[0].pc == START_PC + 1 && m.regs[0][0] == 0 && m.mem == map[0 := 0x0001_0FFF]
  {
    DecodedNone();
    DecodedHasty();
    hide Decode;
  }

  lemma HastyEnds(m: Arch)
    requires m.threads[0].pc == START_PC + 1 && m.regs[0][0] == 0 && m.mem == map[0 := 0x0001_0FFF]
    ensures SeqStep(HASTY, SeqStep(HASTY, m, 0), 0).threads[0].pc == START_PC + 3
  {
    DecodedNone();
    DecodedLoad();
    DecodedHasty();
    hide Decode;
    var m' := SeqStep(HASTY, m, 0);
    assert m'.threads[0].pc == START_PC + 2 && m'.regs[0][5] == 0x0001_0FFF && m'.regs[0][0] == 0;
  }

  /** st r0, r2, 0; ld r5, r0, 0; beq r5, r0, 3. The branch is taken on the old r5, and
      the stall it asks for gives way to it. */
  lemma BranchDoesNotWait()
    ensures var k := At(HASTY, 4); var k' := PipeStep(HASTY, k, HIT);
            && StallReq(k.s) && Jmp(k.s) && !Stall(k.s)
            && FetchPc(k'.s, 0) == START_PC + 6 && !k'.o.dec && !k'.o.ex
    ensures SeqRun(HASTY, ResetArch(), [0, 0, 0]).threads[0].pc == START_PC + 3
  {
    hide Shows, Decode, SoloAt, Quiet, At, PipeStep, SeqRun, ResetArch;
    HastyRun();
    SoloRuns(HASTY, 4);
    TakenOnOld(HASTY, At(HASTY, 4), SoloAt(HASTY, START, 4));
    HastySequential();
  }

  // ------------------------------------------------- a creation in a full table

  const NTA: Word := 0x3080_00ED        // nta r6, r2, r0
  const CROWD: Program := (pc: Word) => NTA

  /** Eight atomic creations in a row: m threads exist, and every stage of the pipeline
      holds one more creation of the root. */
  predicate Crowding(k: Pipe, m: nat, pc: Word) {
    var s := k.s;
    && (forall t: Tid :: s.ctl.csrs[t].valid == s.ctl.csrs[t].running == (t < m)) && s.ctl.csrs[0].pc == pc
    && s.ctl.wait == {} && s.ctl.last == 0 && !s.ctl.rstInit
    && s.dec.trd == 0 && s.dec.ins == NTA && !s.dec.miss
    && s.ex.trd == 0 && s.ex.c == Decode(NTA)
    && s.me.trd == 0 && s.me.trdOp == Create && !s.me.memRd && !s.me.memWr && !s.me.wbSel
    && s.wb.trd == 0 && s.wb.trdOp == Create && !s.wb.miss
  }

  lemma DecodedCrowd()
    ensures Decode(NTA) == NONE.(rd := 6, ra := 2, imm := 0x2000, aluOp := AND, wrEn := true, trdOp := Create)
    ensures AtomicBit(NTA)
  {}

  lemma CrowdWires(k: Pipe, m: nat, pc: Word)
    requires Crowding(k, m, pc) && 1 <= m <= 8
    ensures var s := k.s;
            && !Squash(s) && !Jmp(s) && !Stall(s) && InitWb(s) && Cur(s) == 0 && IRd(s) && CurPc(s) == pc
            && NewTrd(s.ctl.csrs) == (if m < 8 then m else 0)
            && (forall t: Tid :: PcWr(s, t) <==> t == 0) && NxtPc(s, 0) == Inc(pc) && TrdMiss(s) == {}
  {
    DecodedCrowd();
    DecodedNone();
    FreeFromIsLowest(k.s.ctl.csrs, 0);
    hide Alu, Decode, Forward, FreeFrom;
    assert NewTrd(k.s.ctl.csrs) == FreeFrom(k.s.ctl.csrs, 0);
  }

  lemma CrowdGrows(prog: Program, k: Pipe, m: nat, pc: Word)
    requires prog == CROWD && Crowding(k, m, pc) && 1 <= m < 8
    ensures Crowding(PipeStep(prog, k, HIT), m + 1, Inc(pc))
  {
    CrowdStages(prog, k, m, pc);
    CrowdTable(k, m, pc);
    hide Decode, CtlNext, DecNext, ExeNext, MemNext, WbNext, RfNext;
  }

  lemma CrowdTable(k: Pipe, m: nat, pc: Word)
    requires Crowding(k, m, pc) && 1 <= m < 8
    ensures var c := CtlNext(k.s);
            && (forall t: Tid :: c.csrs[t].valid == c.csrs[t].running == (t < m + 1)) && c.csrs[0].pc == Inc(pc)
            && c.wait == {} && c.last == 0 && !c.rstInit
  {
    CrowdWires(k, m, pc);
    var s := k.s;
    hide Decode, Squash, Jmp, Stall, Cur, IRd, CurPc, NewTrd, PcWr, NxtPc, TrdMiss, Scheduler.Next;
    forall t: Tid ensures CtlNext(s).csrs[t] == CsrNext(s, t) {}
  }

  lemma CrowdStages(prog: Program, k: Pipe, m: nat, pc: Word)
    requires prog == CROWD && Crowding(k, m, pc) && 1 <= m < 8
    ensures DecNext(prog, k.s, HIT) == DecReg(0, pc, NTA, false)
    ensures ExeNext(k.s).trd == 0 && ExeNext(k.s).c == Decode(NTA)
    ensures var me := MemNext(k.s); me.trd == 0 && me.trdOp == Create && !me.memRd && !me.memWr && !me.wbSel
    ensures var wb := WbNext(k.s, HIT); wb.trd == 0 && wb.trdOp == Create && !wb.miss
  {
    DecodedCrowd();
    DecodedNone();
    CrowdWires(k, m, pc);
    hide Decode, Squash, Jmp, Stall, Cur, IRd, CurPc, ExeOut, FwdA, FwdB;
  }

  lemma CrowdOverflows(prog: Program, k: Pipe, pc: Word)
    requires Crowding(k, 8, pc)
    ensures TrdFull(k.s.ctl.csrs) && InitWb(k.s)
    ensures Step(prog, k.s, HIT).ctl.csrs[0] == Csr(true, true, 0, START_PC)
  {
    CrowdWires(k, 8, pc);
    var s := k.s;
    hide Squash, Jmp, Stall, Cur, IRd, CurPc, NewTrd, PcWr, NxtPc;
    assert Step(prog, s, HIT).ctl.csrs[0] == CsrNext(s, 0);
  }

  lemma CrowdStarts()
    ensures forall m: nat | m < 4 :: Quiet(SoloAt(CROWD, START, m))
    ensures Crowding(At(CROWD, 4), 1, START_PC + 4)
  {
    DecodedNone();
    DecodedCrowd();
    hide Decode, SoloNext, Out, SoloAt, Crowding, At;
    Steps(CROWD);
    var v0, v1, v2, v3 := START, SoloAt(CROWD, START, 1), SoloAt(CROWD, START, 2), SoloAt(CROWD, START, 3);
    Flows(CROWD, v0);
    Retires(CROWD, v0);
    Flows(CROWD, v1);
    Retires(CROWD, v1);
    Flows(CROWD, v2);
    Retires(CROWD, v2);
    Flows(CROWD, v3);
    Retires(CROWD, v3);
    SoloRuns(CROWD, 4);
    CrowdShown(At(CROWD, 4), SoloAt(CROWD, START, 4));
  }

  lemma CrowdShown(k: Pipe, v: Solo)
    requires Shows(k, v) && v.pc == START_PC + 4 && v.dec.ins == NTA && !v.dec.miss && v.ex.c == Decode(NTA)
    requires v.me.trdOp == Create && !v.me.memRd && !v.me.memWr && !v.me.wbSel
    requires v.wb.trdOp == Create && !v.wb.miss
    ensures Crowding(k, 1, START_PC + 4)
  {
    hide Decode;
  }

  lemma {:induction false} CrowdAt(n: nat)
    requires 4 <= n <= 11
    ensures Crowding(At(CROWD, n), n - 3, START_PC + n)
    decreases n
  {
    hide Crowding, PipeStep, At;
    if n == 4 {
      CrowdStarts();
    } else {
      CrowdAt(n - 1);
      AtStep(CROWD, n - 1);
      CrowdGrows(CROWD, At(CROWD, n - 1), n - 4, START_PC + n - 1);
    }
  }

  /** nta r6, r2, r0 eight times: the eighth starts the root again from START_PC. */
  lemma FullTableRestartsRoot()
    ensures var s := At(CROWD, 11).s;
            && TrdFull(s.ctl.csrs) && InitWb(s) && s.ctl.csrs[0].pc == START_PC + 11
            && Step(CROWD, s, HIT).ctl.csrs[0] == Csr(true, true, 0, START_PC)
  {
    CrowdAt(11);
    CrowdOverflows(CROWD, At(CROWD, 11), START_PC + 11);
    hide At, Step;
  }
}
