/** Two threads that run into the limits together, from reset: thread 0 idles for n
    clocks, creates thread 1, and meets it in the pipeline. */
module Duets {
  import opened Isa
  import opened Core
  import opened Refinement
  import opened Runs
  import opened Witnesses
  import Limits
  import Scheduler

  const CHILD: Word := 0x0001_0C00      // where thread 1 starts

  const SET_R5: Word := 0x28B0_04DC     // addi r5, r2, -1023
  const NEW: Word := 0x3140_00EC        // nt r6, r5, r0

  /** A program: n idle words, the address of the child, its creation, and the words
      that matter: some of thread 0 behind the creation, and the first of thread 1. */
  datatype Plan = Plan(n: nat, a5: Word, a7: Word, a8: Word, c0: Word, c1: Word)

  function WordAt(p: Plan, pc: Word): Word {
    if pc == START_PC + p.n then SET_R5
    else if pc == START_PC + p.n + 1 then NEW
    else if pc == START_PC + p.n + 5 then p.a5
    else if pc == START_PC + p.n + 7 then p.a7
    else if pc == START_PC + p.n + 8 then p.a8
    else if pc == CHILD then p.c0
    else if pc == CHILD + 1 then p.c1
    else 0
  }

  function Code(p: Plan): Program { (pc: Word) => WordAt(p, pc) }

  lemma DecodedParents()
    ensures Decode(SET_R5)
         == NONE.(rd := 5, ra := 2, rb := 24, imm := 0x2C01, aluOp := ADD, iType := true, wrEn := true)
    ensures Decode(NEW) == NONE.(rd := 6, ra := 5, imm := 0x5000, aluOp := AND, wrEn := true, trdOp := Create)
  {
    DecodedParentsFirst();
    DecodedParentsSecond();
    hide Decode;
  }

  lemma DecodedParentsFirst()
    ensures Decode(SET_R5)
         == NONE.(rd := 5, ra := 2, rb := 24, imm := 0x2C01, aluOp := ADD, iType := true, wrEn := true)
  {}

  lemma DecodedParentsSecond()
    ensures Decode(NEW) == NONE.(rd := 6, ra := 5, imm := 0x5000, aluOp := AND, wrEn := true, trdOp := Create)
  {}

  // ------------------------------------------------------------- thread 0 alone

  lemma FreshBank()
    ensures InitBank(0, 0) == FRESH
  {}

  predicate InertMem(m: MemReg) { !m.wrEn && !m.memRd && !m.memWr && m.trdOp == NoOp }
  predicate InertWb(w: WbReg) { !w.wrEn && w.trdOp == NoOp && !w.miss }

  predicate Idling(v: Solo, pc: Word) {
    && v.pc == pc && v.dec.ins == 0 && !v.dec.miss && v.ex.c == Decode(0) && InertMem(v.me) && InertWb(v.wb)
    && v.data == InitBank(0, 0) && v.mem == map[] && v.a == 0 && v.b == 0
  }

  lemma {:induction false} IdlePhase(p: Plan, m: nat)
    requires m <= p.n <= 60
    ensures Idling(SoloAt(Code(p), START, m), START_PC + m)
    ensures forall j: nat | j <= m :: Quiet(SoloAt(Code(p), START, j))
  {
    DecodedNone();
    FreshBank();
    hide Decode, SoloNext, Out, SoloAt;
    Steps(Code(p));
    if m > 0 {
      IdlePhase(p, m - 1);
      var v := SoloAt(Code(p), START, m - 1);
      NoJumpTaken(v);
      Flows(Code(p), v);
      Retires(Code(p), v);
    }
  }

  lemma ImmOut(v: Solo)
    requires v.ex.c == NONE.(rd := 5, ra := 2, rb := 24, imm := 0x2C01, aluOp := ADD, iType := true, wrEn := true)
    requires Operand(v, 2, v.a) == 0x0001_0FFF
    ensures Out(v).data == CHILD
  {
    DecodedNone();
  }

  /** The creation in WB. */
  predicate Parented(v: Solo, n: nat) {
    && n <= 60 && v.pc == START_PC + n + 5 && v.dec == DecReg(0, START_PC + n + 4, 0, false)
    && v.ex.c == Decode(0) && InertMem(v.me)
    && v.wb.trdOp == Create && v.wb.wrEn && v.wb.rd == 6 && !v.wb.miss && v.wb.newPc == CHILD && v.wb.newData == 0
    && v.data == InitBank(0, 0)[5 := CHILD] && v.mem == map[]
  }

  function Clocked(prog: Program, v: Solo): Solo { SoloNext(prog, v, HIT) }

  /** The address of the child is computed, and its creation reaches EXE. */
  lemma ThreeClocks(p: Plan, v0: Solo)
    requires p.n <= 60 && Idling(v0, START_PC + p.n)
    ensures var v1 := Clocked(Code(p), v0); var v2 := Clocked(Code(p), v1); var v3 := Clocked(Code(p), v2);
            && Quiet(v1) && Quiet(v2) && Quiet(v3)
            && v3.pc == START_PC + p.n + 3 && v3.dec == DecReg(0, START_PC + p.n + 2, 0, false)
            && v3.ex.c == Decode(NEW) && v3.b == 0 && InertWb(v3.wb)
            && v3.me.wrEn && v3.me.rd == 5 && !v3.me.wbSel && v3.me.data == CHILD && v3.me.trdOp == NoOp
            && !v3.me.memRd && !v3.me.memWr
            && v3.data == InitBank(0, 0) && v3.mem == map[]
  {
    FreshBank();
    DecodedNone();
    DecodedParents();
    hide Decode, SoloNext, Out, InitBank;
    var v1 := Clocked(Code(p), v0);
    var v2 := Clocked(Code(p), v1);
    Flows(Code(p), v0);
    Retires(Code(p), v0);
    Flows(Code(p), v1);
    Retires(Code(p), v1);
    Flows(Code(p), v2);
    Retires(Code(p), v2);
    ImmOut(v2);
  }

  lemma TwoClocks(p: Plan, v3: Solo)
    requires p.n <= 60 && v3.pc == START_PC + p.n + 3 && v3.dec == DecReg(0, START_PC + p.n + 2, 0, false)
    requires v3.ex.c == Decode(NEW) && v3.b == 0 && InertWb(v3.wb)
    requires v3.me.wrEn && v3.me.rd == 5 && !v3.me.wbSel && v3.me.data == CHILD && v3.me.trdOp == NoOp
    requires !v3.me.memRd && !v3.me.memWr && v3.data == InitBank(0, 0) && v3.mem == map[]
    ensures var v4 := Clocked(Code(p), v3); var v5 := Clocked(Code(p), v4);
            Quiet(v4) && Parented(v5, p.n)
  {
    DecodedNone();
    DecodedParents();
    hide Decode, SoloNext, Out, InitBank;
    var v4 := Clocked(Code(p), v3);
    Flows(Code(p), v3);
    Retires(Code(p), v3);
    Flows(Code(p), v4);
    Retires(Code(p), v4);
  }

  lemma ParentPhase(p: Plan)
    requires p.n <= 60
    ensures Parented(SoloAt(Code(p), START, p.n + 5), p.n)
    ensures forall j: nat | j < p.n + 5 :: Quiet(SoloAt(Code(p), START, j))
  {
    hide SoloNext, SoloAt, Quiet, Parented, Idling, InertWb, Code;
    var prog, n := Code(p), p.n;
    var v0 := SoloAt(prog, START, n);
    var v1, v2, v3 := SoloAt(prog, START, n + 1), SoloAt(prog, START, n + 2), SoloAt(prog, START, n + 3);
    var v4 := SoloAt(prog, START, n + 4);
    IdlePhase(p, n);
    SoloStep(prog, START, n);
    SoloStep(prog, START, n + 1);
    SoloStep(prog, START, n + 2);
    SoloStep(prog, START, n + 3);
    SoloStep(prog, START, n + 4);
    assert v1 == Clocked(prog, v0) && v2 == Clocked(prog, v1) && v3 == Clocked(prog, v2) && v4 == Clocked(prog, v3);
    ThreeClocks(p, v0);
    TwoClocks(p, v3);
    forall j: nat | j < n + 5 ensures Quiet(SoloAt(prog, START, j)) {
      assert j <= n || j == n + 1 || j == n + 2 || j == n + 3 || j == n + 4;
    }
  }

  // ------------------------------------------------------------------ two threads

  /** The thread table and the pointer while threads 0 and 1 run and nobody waits. */
  predicate Table(k: Pipe, pc0: Word, pc1: Word, tmp: Tid) {
    var s := k.s;
    && s.ctl.csrs[0].running && s.ctl.csrs[0].pc == pc0
    && s.ctl.csrs[1].running && s.ctl.csrs[1].pc == pc1 && s.ctl.csrs[1].par == 0
    && (forall t: Tid | t > 1 :: !s.ctl.csrs[t].running)
    && s.ctl.wait == {} && s.ctl.tmp == tmp <= 1 && s.ctl.last == s.dec.trd <= 1 && s.ctl.lastPc == s.dec.pc
    && !s.ctl.rstInit && !s.dec.miss
  }

  function Pointed(k: Pipe, tmp: Tid): Tid { if AtomicBit(k.s.dec.ins) then k.s.dec.trd else tmp }

  predicate Registers(k: Pipe) {
    && k.s.rf.files[0].data == InitBank(0, 0)[5 := CHILD][6 := 1] && k.s.rf.files[1].data == InitBank(1, 0)
    && k.s.mem == map[]
  }

  /** The child starts. */
  lemma BirthClock(prog: Program, k: Pipe, v: Solo, n: nat)
    requires Shows(k, v) && Parented(v, n)
    ensures var k' := PipeStep(prog, k, HIT); var s' := k'.s;
            && Table(k', START_PC + n + 6, CHILD, 0) && Registers(k')
            && s'.dec == DecReg(0, START_PC + n + 5, prog(START_PC + n + 5), false)
            && s'.ex == ExeReg(0, START_PC + n + 4, 0, Decode(0))
            && s'.me.trd == 0 && InertMem(s'.me) && s'.wb.trd == 0 && InertWb(s'.wb)
            && k'.o.dec
  {
    DecodedNone();
    FreeFromIsLowest(k.s.ctl.csrs, 0);
    var s := k.s;
    BirthWires(k, v, n);
    hide Decode, Execute, Stall, Jmp, Squash, Cur, CurPc, IRd, NewTrd, PcWr, NxtPc, InitBank, Forward, Scheduler.Next;
    var s' := Step(prog, s, HIT);
    forall t: Tid ensures s'.ctl.csrs[t] == CsrNext(s, t) && s'.rf.files[t] == FileNext(s, t) {}
  }

  lemma BirthWires(k: Pipe, v: Solo, n: nat)
    requires Shows(k, v) && Parented(v, n)
    ensures var s := k.s;
            && !Squash(s) && !Jmp(s) && !Stall(s) && InitWb(s) && WbData(s) == 1 && WrEnFinal(s)
            && Cur(s) == 0 && CurPc(s) == START_PC + n + 5 && IRd(s) && TrdMiss(s) == {} && NewTrd(s.ctl.csrs) == 1
            && (forall t: Tid :: PcWr(s, t) <==> t == 0) && NxtPc(s, 0) == START_PC + n + 6
            && Scheduler.Next(8, 0, RunTrd(s)) == 0
  {
    DecodedNone();
    FreeFromIsLowest(k.s.ctl.csrs, 0);
    assert NewTrd(k.s.ctl.csrs) == FreeFrom(k.s.ctl.csrs, 0);
    hide Decode, Alu, FreeFrom;
    assert RunTrd(k.s) == {0};
    OnlyRunner(0, 0);
  }

  lemma OnlyRunner(cur: Tid, t: Tid)
    ensures Scheduler.Next(8, cur, {t}) == t
  {
    Scheduler.NextIsNearest(8, cur, {t}, t);
  }

  lemma OtherRunner(cur: Tid)
    requires cur <= 1
    ensures Scheduler.Next(8, cur, {0, 1}) == 1 - cur
  {
    Scheduler.NextIsNearest(8, cur, {0, 1}, 1 - cur);
  }

  /** What moves from stage to stage when nothing holds or flushes it. */
  predicate Moves(prog: Program, k: Pipe, k': Pipe, i: Input, c: Tid, pc: Word) {
    var s, s' := k.s, k'.s;
    && s'.dec == DecReg(c, pc, prog(pc), false)
    && s'.ex == ExeReg(s.dec.trd, s.dec.pc, s.dec.ins, Decode(s.dec.ins))
    && MemFrom(s, s'.me)
    && s'.wb.trd == s.me.trd && s'.wb.pc == s.me.pc && s'.wb.wrEn == s.me.wrEn && s'.wb.trdOp == s.me.trdOp
    && s'.wb.newPc == s.me.newPc && s'.wb.miss == ((s.me.memRd || s.me.memWr) && i.accessMiss)
    && s'.rf.trd == s.dec.trd
    && (forall t: Tid | t <= 1 :: s'.rf.files[t] == RegFile(s.rf.files[t].data, s.rf.files[t].data[s'.ex.c.ra],
                                                            s.rf.files[t].data[s'.ex.c.rb]))
    && (!s.me.memWr ==> s'.mem == s.mem)
    && k'.o == Occ(true, k.o.dec, k.o.ex, k.o.me)
  }

  predicate MemFrom(s: Core, m: MemReg) {
    var c := s.ex.c;
    && m.trd == s.ex.trd && m.pc == s.ex.pc && m.rd == c.rd && m.wrEn == c.wrEn && m.wbSel == c.wbSel
    && m.memRd == c.memRd && m.memWr == c.memWr && m.trdOp == c.trdOp && m.newPc == FwdA(s)
  }

  /** Where thread t goes on when c is fetched. */
  function Goes(k: Pipe, t: Tid, c: Tid, pc: Word): Word {
    if Jmp(k.s) && k.s.ex.trd == t then ExeOut(k.s).target else if c == t then Inc(pc) else pc
  }

  lemma TwoWires(k: Pipe, pc0: Word, pc1: Word, tmp: Tid)
    requires Table(k, pc0, pc1, tmp) && InertWb(k.s.wb) && !StallReq(k.s)
    requires Jmp(k.s) ==> k.s.ex.trd != k.s.dec.trd && k.s.ex.trd != Pointed(k, tmp)
    ensures var s, c := k.s, Pointed(k, tmp);
            && c <= 1 && !Squash(s) && !Stall(s) && !Init(s) && Cur(s) == c && CurPc(s) == (if c == 0 then pc0 else pc1)
            && IRd(s) && TrdMiss(s) == {} && RunTrd(s) == {0, 1}
            && !FlushID(s) && !FlushEX(s) && !FlushMEM(s) && !WrEnFinal(s)
            && (forall t: Tid :: (PcWr(s, t) <==> (Jmp(s) && s.ex.trd == t) || c == t))
            && (forall t: Tid | PcWr(s, t) :: NxtPc(s, t) == if Jmp(s) && s.ex.trd == t then ExeOut(s).target
                                                             else Inc(CurPc(s)))
  {
    hide Execute, Forward, StallReq;
  }

  /** A clock in which nothing is held or flushed, nothing is written and nothing but
      perhaps the access in MEM misses. */
  lemma TwoClock(prog: Program, k: Pipe, pc0: Word, pc1: Word, tmp: Tid, i: Input)
    requires Table(k, pc0, pc1, tmp) && InertWb(k.s.wb) && !StallReq(k.s) && !i.fetchMiss
    requires Jmp(k.s) ==> k.s.ex.trd != k.s.dec.trd && k.s.ex.trd != Pointed(k, tmp)
    ensures var k' := PipeStep(prog, k, i); var c := Pointed(k, tmp);
            && c <= 1 && Table(k', Goes(k, 0, c, pc0), Goes(k, 1, c, pc1), 1 - c)
            && Moves(prog, k, k', i, c, if c == 0 then pc0 else pc1)
            && k'.s.ctl.delay == (k.s.ctl.delay + 1) % 64
  {
    TwoTable(prog, k, pc0, pc1, tmp, i);
    TwoMoves(prog, k, pc0, pc1, tmp, i);
    hide Step;
  }

  lemma TwoTable(prog: Program, k: Pipe, pc0: Word, pc1: Word, tmp: Tid, i: Input)
    requires Table(k, pc0, pc1, tmp) && InertWb(k.s.wb) && !StallReq(k.s) && !i.fetchMiss
    requires Jmp(k.s) ==> k.s.ex.trd != k.s.dec.trd && k.s.ex.trd != Pointed(k, tmp)
    ensures var k' := PipeStep(prog, k, i); var c := Pointed(k, tmp);
            && c <= 1 && Table(k', Goes(k, 0, c, pc0), Goes(k, 1, c, pc1), 1 - c)
            && k'.s.ctl.delay == (k.s.ctl.delay + 1) % 64
  {
    var s, c := k.s, Pointed(k, tmp);
    hide Decode, Execute, Stall, Jmp, Squash, Cur, CurPc, IRd, PcWr, NxtPc, Forward, Scheduler.Next, Init, ExeOut;
    hide ExeNext, MemNext, WbNext, RfNext, MemoryNext, TrdMiss, RunTrd, StallReq, FlushID, FlushEX, FlushMEM;
    hide WrEnFinal, CsrNext, FlushIF;
    TwoWires(k, pc0, pc1, tmp);
    OtherRunner(c);
    forall t: Tid
      ensures var csr := Step(prog, s, i).ctl.csrs[t];
              && csr.running == s.ctl.csrs[t].running && csr.par == s.ctl.csrs[t].par
              && csr.pc == if PcWr(s, t) then NxtPc(s, t) else s.ctl.csrs[t].pc
    {
      PlainCsr(s, t);
      assert Step(prog, s, i).ctl.csrs[t] == CsrNext(s, t);
    }
  }

  lemma PlainCsr(s: Core, t: Tid)
    requires s.wb.trdOp == NoOp && !s.ctl.rstInit
    ensures var csr := CsrNext(s, t);
            && csr.running == s.ctl.csrs[t].running && csr.par == s.ctl.csrs[t].par
            && csr.pc == if PcWr(s, t) then NxtPc(s, t) else s.ctl.csrs[t].pc
  {
    hide PcWr, NxtPc;
  }

  lemma TwoMoves(prog: Program, k: Pipe, pc0: Word, pc1: Word, tmp: Tid, i: Input)
    requires Table(k, pc0, pc1, tmp) && InertWb(k.s.wb) && !StallReq(k.s) && !i.fetchMiss
    requires Jmp(k.s) ==> k.s.ex.trd != k.s.dec.trd && k.s.ex.trd != Pointed(k, tmp)
    ensures var c := Pointed(k, tmp); Moves(prog, k, PipeStep(prog, k, i), i, c, if c == 0 then pc0 else pc1)
  {
    TwoWires(k, pc0, pc1, tmp);
    var s := k.s;
    hide Decode, Execute, Stall, Jmp, Squash, Cur, CurPc, IRd, FwdA, FwdB, WrEnFinal, WbData;
    hide FlushID, FlushEX, FlushMEM, CtlNext;
    assert !InitWb(s);
    forall t: Tid ensures Step(prog, s, i).rf.files[t] == FileNext(s, t) {}
  }

  /** The clock in which the miss of an access of thread u is flushed. */
  lemma FlushWires(k: Pipe, pc0: Word, pc1: Word, tmp: Tid, u: Tid)
    requires Table(k, pc0, pc1, tmp) && u <= 1 && k.s.wb.miss && k.s.wb.trd == u && k.s.wb.trdOp == NoOp
    ensures var s, c := k.s, Pointed(k, tmp);
            && c <= 1 && Squash(s) && !Stall(s) && !Init(s) && Cur(s) == c && CurPc(s) == (if c == 0 then pc0 else pc1)
            && IRd(s) == (c != u) && TrdMiss(s) == {u} && RunTrd(s) == {1 - u}
            && FlushID(s) == (s.dec.trd == u) && FlushEX(s) == (s.ex.trd == u) && FlushMEM(s) == (s.me.trd == u)
            && !WrEnFinal(s)
            && (forall t: Tid :: (PcWr(s, t) <==> t == u || (Jmp(s) && s.ex.trd == t) || c == t))
            && (forall t: Tid | PcWr(s, t) :: NxtPc(s, t) == if t == u then s.wb.pc
                                                             else if Jmp(s) && s.ex.trd == t then ExeOut(s).target
                                                             else Inc(CurPc(s)))
  {
    hide Execute, Forward, StallReq;
  }

  lemma FlushClock(prog: Program, k: Pipe, pc0: Word, pc1: Word, tmp: Tid, u: Tid, i: Input)
    requires Table(k, pc0, pc1, tmp) && u <= 1 && k.s.wb.miss && k.s.wb.trd == u && k.s.wb.trdOp == NoOp
    ensures var k' := PipeStep(prog, k, i); var s, s' := k.s, k'.s; var c := Pointed(k, tmp);
            var pc := if c == 0 then pc0 else pc1;
            && c <= 1 && s'.ctl.csrs[u].pc == s.wb.pc
            && s'.ctl.csrs[1 - u].pc == Goes(k, 1 - u, c, if u == 1 then pc0 else pc1)
            && (forall t: Tid :: s'.ctl.csrs[t].running == s.ctl.csrs[t].running)
            && s'.ctl.wait == (if s.ctl.delay == 0 then {} else {u})
            && s'.ctl.last == c && s'.ctl.lastPc == pc && !s'.ctl.rstInit
            && s'.dec == DecReg(c, pc, if c == u || i.fetchMiss then 0 else prog(pc), c != u && i.fetchMiss)
            && (k'.o.dec <==> c != u && !i.fetchMiss)
            && (s.dec.trd != u ==> s'.ex == ExeReg(s.dec.trd, s.dec.pc, s.dec.ins, Decode(s.dec.ins))
                                   && k'.o.ex == k.o.dec)
            && (s.ex.trd != u ==> MemFrom(s, s'.me) && k'.o.me == k.o.ex)
            && (s.me.trd == u ==> InertWb(s'.wb))
  {
    FlushWires(k, pc0, pc1, tmp, u);
    var s := k.s;
    hide Decode, Execute, Stall, Jmp, Squash, Cur, CurPc, IRd, PcWr, NxtPc, Forward, Scheduler.Next, Init, ExeOut;
    hide FlushID, FlushEX, FlushMEM, FwdA, FwdB, WrEnFinal, RfNext, MemoryNext;
    forall t: Tid ensures Step(prog, s, i).ctl.csrs[t] == CsrNext(s, t) {}
  }

  /** A stall: the address in DEC is fetched again when its thread is runnable. */
  lemma StallClock(prog: Program, k: Pipe)
    requires InertWb(k.s.wb) && !k.s.dec.miss && !k.s.ctl.rstInit && k.s.ctl.wait == {}
    requires k.s.ctl.last == k.s.dec.trd && k.s.ctl.lastPc == k.s.dec.pc
    requires k.s.ex.c.jump == NoJump
    requires k.s.me.trd == k.s.ex.trd && k.s.me.wrEn && k.s.me.wbSel && k.s.ex.c.ra == k.s.me.rd
    ensures var k' := PipeStep(prog, k, HIT); var t := k.s.dec.trd;
            && Stall(k.s) && k'.o.dec == k.s.ctl.csrs[t].running
            && k'.s.dec.trd == t && k'.s.dec.pc == k.s.dec.pc && !k'.s.dec.miss
            && (k'.o.dec ==> k'.s.dec.ins == prog(k.s.dec.pc))
            && FetchPc(k'.s, t) == k.s.ctl.csrs[t].pc && k'.s.ctl.csrs[t].running == k.s.ctl.csrs[t].running
            && k'.s.ctl.last == t && k'.s.ctl.wait == {} && !k'.s.ctl.rstInit
            && k'.s.ex == k.s.ex && !k'.s.me.wrEn && k'.s.wb.trdOp == k.s.me.trdOp && !k'.s.wb.miss
  {
    var s, t := k.s, k.s.dec.trd;
    assert !Jmp(s) by { hide Alu, Target, Forward; }
    hide Execute, Decode, Jmp;
    assert Stall(s) && Cur(s) == t && CurPc(s) == s.dec.pc && IRd(s) == s.ctl.csrs[t].running;
    assert !PcWr(s, t) && !Init(s);
    hide Stall, Cur, CurPc, IRd, PcWr, NxtPc, Init, RfNext;
    assert Step(prog, s, HIT).ctl.csrs[t] == CsrNext(s, t);
  }

  /** An atomic instruction in DEC: its thread is fetched once more. */
  lemma AtomicClock(prog: Program, k: Pipe)
    requires k.s.wb.trdOp == NoOp && !k.s.wb.miss && !k.s.dec.miss && !k.s.ctl.rstInit && k.s.ctl.wait == {}
    requires k.s.ctl.last == k.s.dec.trd && AtomicBit(k.s.dec.ins) && k.s.ctl.csrs[k.s.dec.trd].running
    requires k.s.ex.c.jump == NoJump && !k.s.me.wrEn
    ensures var k' := PipeStep(prog, k, HIT); var t := k.s.dec.trd; var pc := k.s.ctl.csrs[t].pc;
            && k'.o.dec && k'.s.dec == DecReg(t, pc, prog(pc), false)
            && k'.o.ex == k.o.dec && k'.s.ex.trd == t && k'.s.ex.pc == k.s.dec.pc
  {
    NoJumpHere(k.s);
    InertNeverStalls(k.s);
    hide Decode, Jmp, StallReq, Execute;
  }

  // ------------------------------------------------------------ the two threads meet

  lemma {:induction false} DelayAt(prog: Program, n: nat)
    ensures At(prog, n).s.ctl.delay == (n + 1) % 64
  {
    hide PipeStep, At;
    if n == 0 {
      assert At(prog, 0) == Started(prog) by { AtZero(prog); }
      FirstDelay(prog);
    } else {
      DelayAt(prog, n - 1);
      AtStep(prog, n - 1);
      DelayStep(prog, At(prog, n - 1), HIT);
    }
  }

  lemma AtZero(prog: Program)
    ensures At(prog, 0) == Started(prog)
  {}

  lemma FirstDelay(prog: Program)
    ensures Started(prog).s.ctl.delay == 1
  {
    DelayStep(prog, ResetPipe(), HIT);
    hide PipeStep;
  }

  lemma DelayStep(prog: Program, k: Pipe, i: Input)
    ensures PipeStep(prog, k, i).s.ctl.delay == (k.s.ctl.delay + 1) % 64
  {
    hide CsrNext, DecNext, ExeNext, MemNext, RfNext, WbNext, Cur, CurPc, RunTrd;
  }

  lemma NoJumpHere(s: Core)
    requires s.ex.c.jump == NoJump
    ensures !Jmp(s)
  {
    hide Alu, Target, Forward;
  }

  lemma InertNeverStalls(s: Core)
    requires !s.me.wrEn
    ensures !StallReq(s)
  {}

  /** The child has just been fetched for the first time. */
  predicate Met(k: Pipe, p: Plan) {
    var s, n, c5 := k.s, p.n, Decode(p.a5);
    && n <= 60 && Table(k, START_PC + n + 7, CHILD + 1, 0) && Registers(k)
    && s.dec == DecReg(1, CHILD, p.c0, false) && s.ex == ExeReg(0, START_PC + n + 6, 0, Decode(0))
    && s.me.trd == 0 && s.me.pc == START_PC + n + 5
    && s.me.rd == c5.rd && s.me.wrEn == c5.wrEn && s.me.wbSel == c5.wbSel
    && s.me.memRd == c5.memRd && s.me.memWr == c5.memWr && s.me.trdOp == c5.trdOp
    && (c5.ra == 6 ==> s.me.newPc == 1)
    && InertWb(s.wb) && k.o.dec && k.o.ex
  }

  lemma Birth(p: Plan)
    requires p.n <= 60
    ensures var k := At(Code(p), p.n + 6);
            && Table(k, START_PC + p.n + 6, CHILD, 0) && Registers(k)
            && k.s.dec == DecReg(0, START_PC + p.n + 5, Code(p)(START_PC + p.n + 5), false)
            && k.s.ex == ExeReg(0, START_PC + p.n + 4, 0, Decode(0))
            && k.s.me.trd == 0 && InertMem(k.s.me) && InertWb(k.s.wb) && k.o.dec
  {
    var prog, n := Code(p), p.n;
    hide At, SoloAt, PipeStep, Shows, Quiet, Parented, Code, Table, Registers, Decode;
    ParentPhase(p);
    SoloRuns(prog, n + 5);
    AtStep(prog, n + 5);
    BirthClock(prog, At(prog, n + 5), SoloAt(prog, START, n + 5), n);
  }

  lemma Meeting(p: Plan)
    requires p.n <= 60 && Decode(p.a5).jump == NoJump
    ensures Met(At(Code(p), p.n + 8), p)
  {
    var prog, n := Code(p), p.n;
    hide At, PipeStep, Code, Table, Registers, Decode, Near, Met, InertMem, InertWb;
    Birth(p);
    AtStep(prog, n + 6);
    MeetsOnce(p, At(prog, n + 6));
    AtStep(prog, n + 7);
    MeetsAgain(p, At(prog, n + 7));
  }

  lemma CodeWords(p: Plan)
    requires p.n <= 60
    ensures var prog, a := Code(p), START_PC + p.n;
            && prog(a + 5) == p.a5 && prog(a + 6) == 0 && prog(a + 7) == p.a7 && prog(a + 8) == p.a8 && prog(a + 9) == 0
            && prog(CHILD) == p.c0 && prog(CHILD + 1) == p.c1 && prog(CHILD + 2) == 0
  {}

  lemma RegistersStay(prog: Program, k: Pipe, c: Tid, pc: Word)
    requires Registers(k) && !k.s.me.memWr
    ensures var k' := PipeStep(prog, k, HIT); Moves(prog, k, k', HIT, c, pc) ==> Registers(k')
  {
    hide Decode, PipeStep, InitBank;
  }

  predicate Near(k: Pipe, p: Plan) {
    var s, n := k.s, p.n;
    && n <= 60 && Table(k, START_PC + n + 7, CHILD, 1) && Registers(k)
    && s.dec == DecReg(0, START_PC + n + 6, 0, false)
    && s.ex == ExeReg(0, START_PC + n + 5, p.a5, Decode(p.a5))
    && s.rf.trd == 0 && s.rf.files[0].a == s.rf.files[0].data[s.ex.c.ra]
    && InertMem(s.me) && InertWb(s.wb) && k.o.dec && k.o.ex
  }

  lemma MeetsOnce(p: Plan, k: Pipe)
    requires p.n <= 60 && Table(k, START_PC + p.n + 6, CHILD, 0) && Registers(k)
    requires k.s.dec == DecReg(0, START_PC + p.n + 5, Code(p)(START_PC + p.n + 5), false)
    requires k.s.ex == ExeReg(0, START_PC + p.n + 4, 0, Decode(0))
    requires k.s.me.trd == 0 && InertMem(k.s.me) && InertWb(k.s.wb) && k.o.dec
    ensures Near(PipeStep(Code(p), k, HIT), p)
  {
    hide Decode, Jmp, StallReq, PipeStep, Table, Registers, Code, Execute, Forward;
    DecodedNone();
    NoJumpHere(k.s);
    InertNeverStalls(k.s);
    CodeWords(p);
    RegistersStay(Code(p), k, 0, START_PC + p.n + 6);
    TwoClock(Code(p), k, START_PC + p.n + 6, CHILD, 0, HIT);
  }

  lemma NearOperands(k: Pipe, p: Plan)
    requires Near(k, p) && Decode(p.a5).jump == NoJump
    ensures !Jmp(k.s) && !StallReq(k.s) && (k.s.ex.c.ra == 6 ==> FwdA(k.s) == 1)
  {
    NoJumpHere(k.s);
    InertNeverStalls(k.s);
    hide Decode, Jmp, StallReq, Table;
  }

  lemma MeetsAgain(p: Plan, k: Pipe)
    requires Near(k, p) && Decode(p.a5).jump == NoJump
    ensures Met(PipeStep(Code(p), k, HIT), p)
  {
    hide Decode, Jmp, StallReq, PipeStep, Table, Registers, Forward, FwdA, Code, Execute;
    NearOperands(k, p);
    CodeWords(p);
    RegistersStay(Code(p), k, 1, CHILD);
    TwoClock(Code(p), k, START_PC + p.n + 7, CHILD, 1, HIT);
  }

  const ACCESS_MISS := Input(false, true)
  const FETCH_MISS := Input(true, false)

  // ------------------------------------------------- a wrong-path slot is kept

  const LD_R7: Word := 0x3800_01D0      // ld r7, r0, 0

  /** Thread 0 loads, and thread 1 starts with a taken branch. */
  function Keeping(): Plan { Plan(0, LD_R7, 0, 0, BEQ, 0) }

  lemma DecodedKeeping()
    ensures Decode(LD_R7)
         == NONE.(rd := 7, rb := 7, aluOp := ADD, iType := true, memRd := true, wbSel := true, wrEn := true)
    ensures !AtomicBit(BEQ)
  {}

  /** The clock in which the load misses. */
  lemma KeepingClock(k: Pipe)
    requires Met(k, Keeping())
    ensures var k' := PipeStep(Code(Keeping()), k, ACCESS_MISS); var s := k'.s;
            && Table(k', START_PC + 8, CHILD + 1, 1) && s.dec.ins == 0 && s.dec.trd == 0
            && s.ex == ExeReg(1, CHILD, BEQ, Decode(BEQ)) && s.wb.miss && s.wb.trd == 0 && s.wb.trdOp == NoOp
            && s.me.trd == 0 && !s.me.wrEn && s.rf.trd == 1 && s.rf.files[1].a == 0 && s.rf.files[1].b == 0
            && k'.o.ex
  {
    hide Decode, Jmp, StallReq, PipeStep, Table, Code, Execute, Forward;
    DecodedNone();
    DecodedKeeping();
    DecodedBranch();
    NoJumpHere(k.s);
    assert !StallReq(k.s) by { OtherThread(k.s); }
    CodeWords(Keeping());
    TwoClock(Code(Keeping()), k, START_PC + 7, CHILD + 1, 0, ACCESS_MISS);
  }

  lemma OtherThread(s: Core)
    ensures s.me.trd != s.ex.trd ==> !StallReq(s)
    ensures s.ex.c == Decode(0) && s.me.rd != 0 ==> !StallReq(s)
  {
    IdleWord();
  }

  lemma TakenBranch(s: Core)
    requires s.ex.c == Decode(BEQ) && s.ex.pc == CHILD && s.ex.trd == 1 && s.me.trd == 0 && s.wb.trd == 0
    requires s.rf.trd == 1 && s.rf.files[1].a == 0 && s.rf.files[1].b == 0
    ensures Jmp(s) && ExeOut(s).target == CHILD + 4
  {
    DecodedNone();
    DecodedBranch();
    assert FwdA(s) == 0 && FwdB(s) == 0;
    hide Decode, Forward;
  }

  /** While the miss of thread 0 is flushed, thread 1 jumps, and yet the word behind its
      jump is fetched: it stays, or it misses and takes the thread back to it. */
  lemma FlushKeepsWrongPath()
    ensures var prog := Code(Keeping());
            var k := PipeStep(prog, At(prog, 8), ACCESS_MISS);
            var k' := PipeStep(prog, k, HIT);
            && k.o.ex && k.s.ex.trd == 1 && k.s.ex.pc == CHILD && Jmp(k.s) && ExeOut(k.s).target == CHILD + 4
            && k'.o.dec && k'.s.dec == DecReg(1, CHILD + 1, 0, false) && FetchPc(k'.s, 1) == CHILD + 4
            && FetchPc(PipeStep(prog, k, FETCH_MISS).s, 1) == CHILD + 1
  {
    var prog := Code(Keeping());
    hide Decode, Jmp, StallReq, PipeStep, Table, Code, Execute, Forward, At, Met;
    DecodedNone();
    DecodedKeeping();
    Meeting(Keeping());
    var k := PipeStep(prog, At(prog, 8), ACCESS_MISS);
    KeepingClock(At(prog, 8));
    TakenBranch(k.s);
    CodeWords(Keeping());
    FlushClock(prog, k, START_PC + 8, CHILD + 1, 1, 0, HIT);
    FlushClock(prog, k, START_PC + 8, CHILD + 1, 1, 0, FETCH_MISS);
  }

  // ------------------------------- a branch on a stale load, beside another's miss

  const LDA_R3: Word := 0x1800_01D1     // lda r3, r0, 0
  const BEQ_R3: Word := 0x00C0_0C34     // beq r3, r0, 3
  const LD_R9: Word := 0x4800_05D0      // ld r9, r0, 1

  const ADD_R3: Word := 0x40C6_00DE     // add r8, r3, r3

  /** Thread 0 uses what it loads, and thread 1 starts with a load. */
  function Hurrying(a8: Word): Plan { Plan(0, 0, LDA_R3, a8, LD_R9, 0) }

  /** It branches on it, or adds it to itself. */
  predicate Uses(a8: Word) { a8 == BEQ_R3 || a8 == ADD_R3 }

  lemma DecodedHurrying()
    ensures Decode(LDA_R3)
         == NONE.(rd := 3, rb := 3, aluOp := ADD, iType := true, memRd := true, wbSel := true, wrEn := true)
    ensures AtomicBit(LDA_R3) && !AtomicBit(BEQ_R3)
    ensures Decode(BEQ_R3) == NONE.(ra := 3, imm := 0x3003, aluOp := 1, jump := IfEqual)
    ensures Decode(LD_R9)
         == NONE.(rd := 9, rb := 9, imm := 1, aluOp := ADD, iType := true, memRd := true, wbSel := true, wrEn := true)
    ensures !AtomicBit(LD_R9)
    ensures Decode(ADD_R3) == NONE.(rd := 8, ra := 3, rb := 3, imm := 0x3180, aluOp := ADD, wrEn := true)
    ensures !AtomicBit(ADD_R3)
  {
    DecodedLoadR3();
    DecodedBranchR3();
    DecodedAddR3();
    DecodedLoadR9();
    hide Decode;
  }

  lemma DecodedLoadR3()
    ensures Decode(LDA_R3)
         == NONE.(rd := 3, rb := 3, aluOp := ADD, iType := true, memRd := true, wbSel := true, wrEn := true)
    ensures AtomicBit(LDA_R3) && !AtomicBit(BEQ_R3)
  {}

  lemma DecodedBranchR3()
    ensures Decode(BEQ_R3) == NONE.(ra := 3, imm := 0x3003, aluOp := 1, jump := IfEqual)
  {}

  lemma DecodedLoadR9()
    ensures Decode(LD_R9)
         == NONE.(rd := 9, rb := 9, imm := 1, aluOp := ADD, iType := true, memRd := true, wbSel := true, wrEn := true)
    ensures !AtomicBit(LD_R9)
  {}

  lemma DecodedAddR3()
    ensures Decode(ADD_R3) == NONE.(rd := 8, ra := 3, rb := 3, imm := 0x3180, aluOp := ADD, wrEn := true)
    ensures !AtomicBit(ADD_R3)
  {}

  /** Both loads are under way, and the use of one is in DEC. */
  predicate Hurried(k: Pipe, a8: Word) {
    var s := k.s;
    && Table(k, START_PC + 9, CHILD + 1, 1) && Registers(k) && k.o.dec
    && s.dec == DecReg(0, START_PC + 8, a8, false) && s.ex == ExeReg(0, START_PC + 7, LDA_R3, Decode(LDA_R3))
    && s.me.trd == 1 && s.me.memRd && s.me.trdOp == NoOp && InertWb(s.wb)
  }

  lemma HurryingFirst(a8: Word, k: Pipe)
    requires Met(k, Hurrying(a8))
    ensures var k' := PipeStep(Code(Hurrying(a8)), k, HIT); var s := k'.s;
            && Table(k', START_PC + 8, CHILD + 1, 1) && Registers(k') && k'.o.dec
            && s.dec == DecReg(0, START_PC + 7, LDA_R3, false) && s.ex == ExeReg(1, CHILD, LD_R9, Decode(LD_R9))
            && InertMem(s.me) && InertWb(s.wb)
  {
    hide Decode, Jmp, StallReq, PipeStep, Table, Registers, Code, Execute, Forward;
    DecodedNone();
    DecodedHurrying();
    NoJumpHere(k.s);
    InertNeverStalls(k.s);
    CodeWords(Hurrying(a8));
    RegistersStay(Code(Hurrying(a8)), k, 0, START_PC + 7);
    TwoClock(Code(Hurrying(a8)), k, START_PC + 7, CHILD + 1, 0, HIT);
  }

  lemma HurryingSecond(a8: Word, k: Pipe)
    requires Uses(a8) && Table(k, START_PC + 8, CHILD + 1, 1) && Registers(k) && k.o.dec
    requires k.s.dec == DecReg(0, START_PC + 7, LDA_R3, false) && k.s.ex == ExeReg(1, CHILD, LD_R9, Decode(LD_R9))
    requires InertMem(k.s.me) && InertWb(k.s.wb)
    ensures Hurried(PipeStep(Code(Hurrying(a8)), k, HIT), a8)
  {
    hide Decode, Jmp, StallReq, PipeStep, Table, Registers, Code, Execute, Forward;
    DecodedNone();
    DecodedHurrying();
    NoJumpHere(k.s);
    InertNeverStalls(k.s);
    CodeWords(Hurrying(a8));
    RegistersStay(Code(Hurrying(a8)), k, 0, START_PC + 8);
    TwoClock(Code(Hurrying(a8)), k, START_PC + 8, CHILD + 1, 1, HIT);
  }

  /** The use in EXE, the load it needs in MEM, and the miss of thread 1 in WB. */
  predicate Stale(k: Pipe, a8: Word) {
    var s := k.s;
    && Table(k, START_PC + 9, CHILD + 2, 0) && k.o.ex && s.dec.ins == 0
    && s.ex == ExeReg(0, START_PC + 8, a8, Decode(a8)) && s.rf.trd == 0
    && s.rf.files[0].a == 0x0001_0FFF && s.rf.files[0].b == (if a8 == BEQ_R3 then 0 else 0x0001_0FFF)
    && s.me.trd == 0 && s.me.wrEn && s.me.wbSel && s.me.rd == 3
    && s.wb.miss && s.wb.trd == 1 && s.wb.trdOp == NoOp
  }

  lemma HurryingThird(a8: Word, k: Pipe)
    requires Uses(a8) && Hurried(k, a8)
    ensures Stale(PipeStep(Code(Hurrying(a8)), k, ACCESS_MISS), a8)
  {
    hide Decode, Jmp, StallReq, PipeStep, Table, Code, Execute, Forward;
    DecodedNone();
    DecodedHurrying();
    NoJumpHere(k.s);
    assert !StallReq(k.s) by { OtherThread(k.s); }
    CodeWords(Hurrying(a8));
    TwoClock(Code(Hurrying(a8)), k, START_PC + 9, CHILD + 1, 1, ACCESS_MISS);
  }

  lemma StaleUse(a8: Word, k: Pipe)
    requires Uses(a8) && Stale(k, a8)
    ensures StallReq(k.s) && !Stall(k.s) && !FlushEX(k.s) && !Jmp(k.s)
    ensures a8 == ADD_R3 ==> ExeOut(k.s).data == 0x0002_1FFE
  {
    DecodedNone();
    DecodedHurrying();
    assert FwdA(k.s) == 0x0001_0FFF && FwdB(k.s) == (if a8 == BEQ_R3 then 0 else 0x0001_0FFF);
    hide Decode, Forward;
  }

  lemma Enters(prog: Program, k: Pipe, i: Input)
    requires !FlushEX(k.s) && !Stall(k.s)
    ensures PipeStep(prog, k, i).s.me.data == ExeOut(k.s).data
  {
    hide Stall, Execute, CtlNext, RfNext, DecNext, ExeNext, WbNext;
  }

  lemma {:induction false} IdleTurns(prog: Program, m: Arch, n: nat)
    requires m.threads[0].pc + n < MODULUS
    requires forall pc: Word | m.threads[0].pc <= pc < m.threads[0].pc + n :: prog(pc) == 0
    ensures var m' := SeqRun(prog, m, Turns(n));
            m'.regs == m.regs && m'.mem == m.mem && m'.threads[0].pc == m.threads[0].pc + n
    decreases n
  {
    hide SeqStep;
    if n > 0 {
      var m1 := SeqStep(prog, m, 0);
      IdleTurn(prog, m);
      assert Turns(n)[0] == 0 && Turns(n)[1..] == Turns(n - 1);
      IdleTurns(prog, m1, n - 1);
    }
  }

  lemma IdleTurn(prog: Program, m: Arch)
    requires prog(m.threads[0].pc) == 0
    ensures var m' := SeqStep(prog, m, 0);
            m'.regs == m.regs && m'.mem == m.mem && m'.threads[0].pc == Inc(m.threads[0].pc)
  {
    IdleWord();
    hide Decode, Alu;
  }

  lemma {:induction false} MoreTurns(prog: Program, m: Arch, a: nat, b: nat)
    ensures SeqRun(prog, m, Turns(a + b)) == SeqRun(prog, SeqRun(prog, m, Turns(a)), Turns(b))
    decreases a
  {
    hide SeqStep;
    if a > 0 {
      assert Turns(a)[1..] == Turns(a - 1) && Turns(a + b)[1..] == Turns(a - 1 + b);
      MoreTurns(prog, SeqStep(prog, m, 0), a - 1, b);
    }
  }

  /** Two turns of thread 0 create thread 1. */
  lemma ParentTurns(p: Plan)
    requires p.n == 0
    ensures var m := SeqRun(Code(p), ResetArch(), Turns(2));
            && m.threads[0].pc == START_PC + 2 && m.regs[0] == InitBank(0, 0)[5 := CHILD][6 := 1] && m.mem == map[]
  {
    hide SeqStep, Code, ResetArch, SeqRun;
    TurnsAre();
    TwoSteps(Code(p), ResetArch());
    AddressTurn(p);
    CreateTurn(p, SeqStep(Code(p), ResetArch(), 0));
  }

  lemma AddressTurn(p: Plan)
    requires p.n == 0
    ensures var m := SeqStep(Code(p), ResetArch(), 0);
            && m.threads[0].pc == START_PC + 1 && m.regs[0] == InitBank(0, 0)[5 := CHILD] && m.mem == map[]
            && (forall t: Tid :: m.threads[t].valid <==> t == 0)
  {
    DecodedNone();
    DecodedParents();
    hide Decode;
    assert InitBank(0, 0)[2] == 0x0001_0FFF by { FreshBank(); }
    hide InitBank;
  }

  lemma CreateTurn(p: Plan, m: Arch)
    requires p.n == 0 && m.threads[0].pc == START_PC + 1 && m.regs[0] == InitBank(0, 0)[5 := CHILD] && m.mem == map[]
    requires forall t: Tid :: m.threads[t].valid <==> t == 0
    ensures var m' := SeqStep(Code(p), m, 0);
            && m'.threads[0].pc == START_PC + 2 && m'.regs[0] == InitBank(0, 0)[5 := CHILD][6 := 1] && m'.mem == map[]
  {
    hide Decode, NewTrd, InitBank, Code, SeqStep;
    DecodedParents();
    DecodedNone();
    NewWord(p);
    FirstFree(m.threads);
    CreateStep(Code(p), m);
  }

  lemma NewWord(p: Plan)
    requires p.n == 0
    ensures Code(p)(START_PC + 1) == NEW
  {}

  lemma FirstFree(csrs: Csrs)
    requires forall t: Tid :: csrs[t].valid <==> t == 0
    ensures NewTrd(csrs) == 1
  {
    FreeFromIsLowest(csrs, 0);
    assert NewTrd(csrs) == FreeFrom(csrs, 0);
    hide NewTrd, FreeFrom;
  }

  lemma CreateStep(prog: Program, m: Arch)
    requires var c := Decode(prog(m.threads[0].pc));
             c.trdOp == Create && c.wrEn && !c.memWr && c.jump == NoJump && c.rd == 6
    requires NewTrd(m.threads) == 1
    ensures var m' := SeqStep(prog, m, 0);
            m'.threads[0].pc == Inc(m.threads[0].pc) && m'.regs[0] == m.regs[0][6 := 1] && m'.mem == m.mem
  {
    hide Decode, NewTrd, FreeFrom, InitBank, Alu, Target;
  }

  lemma HurryingTurns(a8: Word)
    requires Uses(a8)
    ensures var m := SeqRun(Code(Hurrying(a8)), ResetArch(), Turns(9));
            if a8 == BEQ_R3 then m.threads[0].pc == START_PC + 12 else m.regs[0][8] == 0
  {
    hide SeqStep, Code, ResetArch, SeqRun, Turns;
    var prog := Code(Hurrying(a8));
    var m2 := SeqRun(prog, ResetArch(), Turns(2));
    var m7 := SeqRun(prog, m2, Turns(5));
    ParentTurns(Hurrying(a8));
    MoreTurns(prog, ResetArch(), 2, 5);
    MoreTurns(prog, ResetArch(), 7, 2);
    TurnsAre();
    TwoSteps(prog, m7);
    assert forall pc: Word | START_PC + 2 <= pc < START_PC + 7 :: prog(pc) == 0 by { HurryingIdles(a8); }
    IdleTurns(prog, m2, 5);
    CodeWords(Hurrying(a8));
    HurryingLoad(prog, m7);
    HurryingUse(a8, prog, SeqStep(prog, m7, 0));
  }

  lemma HurryingIdles(a8: Word)
    ensures forall pc: Word | START_PC + 2 <= pc < START_PC + 7 :: Code(Hurrying(a8))(pc) == 0
  {}

  /** The load brings 0, and the branch is taken, or the sum is 0. */
  lemma HurryingLoad(prog: Program, m: Arch)
    requires prog(START_PC + 7) == LDA_R3
    requires m.threads[0].pc == START_PC + 7 && m.regs[0] == InitBank(0, 0)[5 := CHILD][6 := 1] && m.mem == map[]
    ensures var m' := SeqStep(prog, m, 0);
            m'.threads[0].pc == START_PC + 8 && m'.regs[0][3] == 0 && m'.regs[0][0] == 0
  {
    DecodedNone();
    DecodedHurrying();
    hide Decode;
  }

  lemma HurryingUse(a8: Word, prog: Program, m: Arch)
    requires Uses(a8) && prog(START_PC + 8) == a8
    requires m.threads[0].pc == START_PC + 8 && m.regs[0][3] == 0 && m.regs[0][0] == 0
    ensures var m' := SeqStep(prog, m, 0);
            if a8 == BEQ_R3 then m'.threads[0].pc == START_PC + 12 else m'.regs[0][8] == 0
  {
    DecodedNone();
    DecodedHurrying();
    hide Decode;
  }

  /** The state in the clock of the flush. */
  function Hurry(a8: Word): Pipe {
    var prog := Code(Hurrying(a8));
    PipeStep(prog, PipeStep(prog, At(prog, 9), Input(false, false)), Input(false, true))
  }

  /** The stall is asked for and not granted, and the use enters MEM. */
  predicate Hastens(k: Pipe, k': Pipe) {
    && k.o.ex && k.s.ex.trd == 0 && k.s.ex.pc == START_PC + 8 && StallReq(k.s) && !Stall(k.s)
    && k'.o.me && k'.s.me.trd == 0 && k'.s.me.pc == START_PC + 8
  }

  lemma HurryIsStale(a8: Word)
    requires Uses(a8)
    ensures Stale(Hurry(a8), a8)
  {
    var prog := Code(Hurrying(a8));
    hide Decode, PipeStep, Code, At, Met, Hurried, Stale, Table, Registers;
    DecodedNone();
    Meeting(Hurrying(a8));
    AtStep(prog, 8);
    HurryingFirst(a8, At(prog, 8));
    HurryingSecond(a8, At(prog, 9));
    HurryingThird(a8, PipeStep(prog, At(prog, 9), HIT));
  }

  lemma HurryLeaves(a8: Word)
    requires Uses(a8)
    ensures var k := Hurry(a8); var k' := PipeStep(Code(Hurrying(a8)), k, HIT);
            && Hastens(k, k') && !Jmp(k.s)
            && k'.o.dec && k'.s.dec == DecReg(0, START_PC + 9, 0, false)
            && (a8 == ADD_R3 ==> k'.s.me.wrEn && k'.s.me.rd == 8 && k'.s.me.data == 0x0002_1FFE)
  {
    DecodedNone();
    DecodedHurrying();
    var prog, k := Code(Hurrying(a8)), Hurry(a8);
    hide Decode, Jmp, StallReq, Stall, PipeStep, Code, Execute, Forward, Hurry, Table;
    HurryIsStale(a8);
    StaleUse(a8, k);
    CodeWords(Hurrying(a8));
    FlushClock(prog, k, START_PC + 9, CHILD + 2, 0, 1, HIT);
    Enters(prog, k, HIT);
  }

  /** Thread 0 uses its load while the miss of thread 1 is flushed, and is not held: a
      branch is not taken, where the loaded 0 takes it, and an addition carries the sum
      of the old values to MEM, where it is 0. */
  lemma StaleUseLeaves(a8: Word)
    requires Uses(a8)
    ensures var k := Hurry(a8); var k' := PipeStep(Code(Hurrying(a8)), k, HIT);
            && Hastens(k, k')
            && if a8 == BEQ_R3 then !Jmp(k.s) && k'.o.dec && k'.s.dec == DecReg(0, START_PC + 9, 0, false)
               else k'.s.me.wrEn && k'.s.me.rd == 8 && k'.s.me.data == 0x0002_1FFE
    ensures var m := SeqRun(Code(Hurrying(a8)), ResetArch(), Turns(9));
            if a8 == BEQ_R3 then m.threads[0].pc == START_PC + 12 else m.regs[0][8] == 0
  {
    HurryingTurns(a8);
    HurryLeaves(a8);
    hide SeqRun, ResetArch, Turns, PipeStep, Code, Hurry, Hastens, Jmp;
  }

  // ------------------------------------- a stall over the bubble of a missing thread

  const LDA_R7: Word := 0x3800_01D1     // lda r7, r0, 0
  const ADD_R8: Word := 0x41CE_00DE     // add r8, r7, r7
  const LDA_R9: Word := 0x4800_05D1     // lda r9, r0, 1
  const JAL: Word := 0x503F_F814        // jal r10, -2

  /** Thread 0 uses what it loads, and thread 1 loads at its start; the counter wraps
      when the miss of that load is flushed. */
  function Straggling(c1: Word): Plan { Plan(52, 0, LDA_R7, ADD_R8, LDA_R9, c1) }

  lemma DecodedStraggling()
    ensures Decode(LDA_R7)
         == NONE.(rd := 7, rb := 7, aluOp := ADD, iType := true, memRd := true, wbSel := true, wrEn := true)
    ensures AtomicBit(LDA_R7)
    ensures Decode(ADD_R8) == NONE.(rd := 8, ra := 7, rb := 7, imm := 0x7380, aluOp := ADD, wrEn := true)
    ensures !AtomicBit(ADD_R8)
  {
    DecodedLoadR7();
    DecodedAddR8();
    hide Decode;
  }

  lemma DecodedLoadR7()
    ensures Decode(LDA_R7)
         == NONE.(rd := 7, rb := 7, aluOp := ADD, iType := true, memRd := true, wbSel := true, wrEn := true)
    ensures AtomicBit(LDA_R7)
  {}

  lemma DecodedAddR8()
    ensures Decode(ADD_R8) == NONE.(rd := 8, ra := 7, rb := 7, imm := 0x7380, aluOp := ADD, wrEn := true)
    ensures !AtomicBit(ADD_R8)
  {}

  lemma DecodedChild()
    ensures Decode(LDA_R9)
         == NONE.(rd := 9, rb := 9, imm := 1, aluOp := ADD, iType := true, memRd := true, wbSel := true, wrEn := true)
    ensures AtomicBit(LDA_R9)
  {}

  lemma DecodedJal()
    ensures Decode(JAL) == NONE.(rd := 10, rb := 10, imm := 0x0FFE, wrEn := true, jump := Relative)
    ensures !AtomicBit(JAL)
  {}

  /** What follows the load of thread 1: nothing, or the jump back to it. */
  predicate Follows(c1: Word) { c1 == 0 || c1 == JAL }
  function Onward(c1: Word): Word { if c1 == JAL then CHILD else CHILD + 2 }

  lemma StragglingFirst(c1: Word, k: Pipe)
    requires Follows(c1) && Met(k, Straggling(c1))
    ensures var k' := PipeStep(Code(Straggling(c1)), k, HIT); var s := k'.s;
            && Table(k', START_PC + 59, CHILD + 2, 0) && k'.o.dec
            && s.dec == DecReg(1, CHILD + 1, c1, false) && s.ex == ExeReg(1, CHILD, LDA_R9, Decode(LDA_R9))
            && InertMem(s.me) && InertWb(s.wb)
  {
    hide Decode, Jmp, StallReq, PipeStep, Table, Code, Execute, Forward;
    DecodedNone();
    DecodedChild();
    NoJumpHere(k.s);
    InertNeverStalls(k.s);
    CodeWords(Straggling(c1));
    TwoClock(Code(Straggling(c1)), k, START_PC + 59, CHILD + 1, 0, HIT);
  }

  /** Both threads have a load under way; the one of thread 1 is in MEM. */
  predicate Loading(k: Pipe, c1: Word) {
    var s := k.s;
    && Table(k, START_PC + 60, CHILD + 2, 1) && k.o.dec
    && s.dec == DecReg(0, START_PC + 59, LDA_R7, false) && s.ex == ExeReg(1, CHILD + 1, c1, Decode(c1))
    && s.me.trd == 1 && s.me.pc == CHILD && s.me.rd == 9 && s.me.memRd && s.me.trdOp == NoOp && InertWb(s.wb)
  }

  lemma StragglingSecond(c1: Word, k: Pipe)
    requires Follows(c1) && Table(k, START_PC + 59, CHILD + 2, 0) && k.o.dec
    requires k.s.dec == DecReg(1, CHILD + 1, c1, false) && k.s.ex == ExeReg(1, CHILD, LDA_R9, Decode(LDA_R9))
    requires InertMem(k.s.me) && InertWb(k.s.wb)
    ensures Loading(PipeStep(Code(Straggling(c1)), k, HIT), c1)
  {
    hide Decode, Jmp, StallReq, PipeStep, Table, Code, Execute, Forward;
    DecodedNone();
    DecodedChild();
    DecodedJal();
    NoJumpHere(k.s);
    InertNeverStalls(k.s);
    CodeWords(Straggling(c1));
    TwoClock(Code(Straggling(c1)), k, START_PC + 59, CHILD + 2, 0, HIT);
  }

  lemma LoadingWires(c1: Word, k: Pipe)
    requires Follows(c1) && Loading(k, c1)
    ensures !StallReq(k.s) && (Jmp(k.s) <==> c1 == JAL) && (Jmp(k.s) ==> ExeOut(k.s).target == CHILD)
  {
    DecodedNone();
    DecodedJal();
    hide Decode, Forward, Alu;
  }

  /** The load of thread 0 is in EXE, what uses it in DEC, and the miss of thread 1 in WB. */
  predicate Late(k: Pipe, c1: Word) {
    var s := k.s;
    && Table(k, START_PC + 61, Onward(c1), 1) && k.o.dec
    && s.dec == DecReg(0, START_PC + 60, ADD_R8, false) && s.ex == ExeReg(0, START_PC + 59, LDA_R7, Decode(LDA_R7))
    && s.me.trd == 1 && s.wb.miss && s.wb.trd == 1 && s.wb.pc == CHILD && s.wb.trdOp == NoOp
  }

  lemma StragglingThird(c1: Word, k: Pipe)
    requires Follows(c1) && Loading(k, c1)
    ensures Late(PipeStep(Code(Straggling(c1)), k, ACCESS_MISS), c1)
    ensures PipeStep(Code(Straggling(c1)), k, ACCESS_MISS).s.ctl.delay == (k.s.ctl.delay + 1) % 64
  {
    hide Decode, Jmp, StallReq, PipeStep, Table, Code, Execute, Forward;
    DecodedNone();
    DecodedStraggling();
    LoadingWires(c1, k);
    CodeWords(Straggling(c1));
    TwoClock(Code(Straggling(c1)), k, START_PC + 60, CHILD + 2, 1, ACCESS_MISS);
  }

  /** A bubble of thread 1 in DEC, and the use of the load behind it. */
  predicate Bubbling(k: Pipe, c1: Word) {
    var s := k.s;
    && s.dec == DecReg(1, Onward(c1), 0, false) && !k.o.dec
    && s.ctl.csrs[1].running && s.ctl.csrs[1].pc == CHILD && s.ctl.wait == {}
    && s.ctl.last == 1 && s.ctl.lastPc == Onward(c1) && !s.ctl.rstInit
    && s.ex.trd == 0 && s.ex.c == Decode(ADD_R8)
    && s.me.trd == 0 && s.me.wrEn && s.me.wbSel && s.me.rd == 7 && s.me.trdOp == NoOp
    && InertWb(s.wb)
  }

  lemma StragglingFourth(c1: Word, k: Pipe)
    requires Follows(c1) && Late(k, c1) && k.s.ctl.delay == 0
    ensures Bubbling(PipeStep(Code(Straggling(c1)), k, HIT), c1)
  {
    hide Decode, Jmp, StallReq, PipeStep, Code, Execute, Forward;
    DecodedNone();
    DecodedStraggling();
    FlushClock(Code(Straggling(c1)), k, START_PC + 61, Onward(c1), 1, 1, HIT);
  }

  lemma StragglingStall(c1: Word, k: Pipe)
    requires Follows(c1) && Bubbling(k, c1)
    ensures var k' := PipeStep(Code(Straggling(c1)), k, HIT);
            && Stall(k.s) && Runnable(k.s, 1) && k'.o.dec && FetchPc(k'.s, 1) == CHILD
            && k'.s.dec == DecReg(1, Onward(c1), Code(Straggling(c1))(Onward(c1)), false)
    ensures c1 == JAL ==>
              var k' := PipeStep(Code(Straggling(c1)), k, HIT); var k'' := PipeStep(Code(Straggling(c1)), k', HIT);
              k''.o.dec && k''.o.ex && k''.s.dec == k'.s.dec && k''.s.ex.trd == 1 && k''.s.ex.pc == CHILD
  {
    hide Decode, Stall, PipeStep, Code, Execute, Forward;
    DecodedNone();
    DecodedStraggling();
    StallClock(Code(Straggling(c1)), k);
    if c1 == JAL {
      DecodedChild();
      CodeWords(Straggling(c1));
      AtomicClock(Code(Straggling(c1)), PipeStep(Code(Straggling(c1)), k, HIT));
    }
  }

  /** The state in the clock of the stall. */
  function Straggler(c1: Word): Pipe {
    var prog := Code(Straggling(c1));
    PipeStep(prog, PipeStep(prog, At(prog, 62), Input(false, true)), Input(false, false))
  }

  lemma StragglerBubbles(c1: Word)
    requires Follows(c1)
    ensures Bubbling(Straggler(c1), c1)
  {
    var prog := Code(Straggling(c1));
    hide Decode, PipeStep, Code, At, Met, Loading, Late, Table, Bubbling;
    DecodedNone();
    Meeting(Straggling(c1));
    AtStep(prog, 60);
    StragglingFirst(c1, At(prog, 60));
    AtStep(prog, 61);
    StragglingSecond(c1, At(prog, 61));
    StragglingThird(c1, At(prog, 62));
    DelayAt(prog, 62);
    StragglingFourth(c1, PipeStep(prog, At(prog, 62), ACCESS_MISS));
  }

  /** Thread 1 jumps back to a load that misses. The stall of thread 0 fetches the load
      in place of a bubble, without moving on, so that the next clock fetches it again. */
  lemma StallDuplicates()
    ensures var k := Straggler(JAL); var k' := PipeStep(Code(Straggling(JAL)), k, HIT);
            && Stall(k.s) && !k.o.dec && Runnable(k.s, 1) && k.s.dec.pc == FetchPc(k.s, 1) == CHILD
            && k'.o.dec && k'.s.dec == DecReg(1, CHILD, LDA_R9, false) && FetchPc(k'.s, 1) == CHILD
            && var k'' := PipeStep(Code(Straggling(JAL)), k', HIT);
               k''.o.ex && k''.s.ex.trd == 1 && k''.s.ex.pc == CHILD && k''.o.dec && k''.s.dec == k'.s.dec
  {
    hide Decode, PipeStep, Code, Stall, Straggler;
    StragglerBubbles(JAL);
    StragglingStall(JAL, Straggler(JAL));
    CodeWords(Straggling(JAL));
  }

  /** Without that jump, thread 1 gets the word two behind its load, before the load. */
  lemma StallRevives()
    ensures var k := Straggler(0); var k' := PipeStep(Code(Straggling(0)), k, HIT);
            && Stall(k.s) && !k.o.dec && Runnable(k.s, 1) && FetchPc(k.s, 1) == CHILD
            && k'.o.dec && k'.s.dec == DecReg(1, CHILD + 2, 0, false) && FetchPc(k'.s, 1) == CHILD
  {
    hide Decode, PipeStep, Code, Stall, Straggler;
    StragglerBubbles(0);
    StragglingStall(0, Straggler(0));
    CodeWords(Straggling(0));
  }

  // ------------------------------------------- a stall over the slot of a sleeper

  const SLP_R6: Word := 0x0180_00AC     // slp r6
  const ADDA_R8: Word := 0x4252_00DF    // adda r8, r9, r9

  /** Thread 0 puts thread 1 to sleep, which uses what it loads. */
  function Sleeping(): Plan { Plan(0, SLP_R6, 0, 0, LDA_R9, ADDA_R8) }

  lemma DecodedSleeping()
    ensures Decode(SLP_R6) == NONE.(ra := 6, imm := 0x6000, aluOp := 5, trdOp := Sleep)
    ensures Decode(ADDA_R8) == NONE.(rd := 8, ra := 9, rb := 9, imm := 0x9480, aluOp := ADD, wrEn := true)
    ensures AtomicBit(ADDA_R8)
  {
    DecodedSleep();
    DecodedAddaR8();
    hide Decode;
  }

  lemma DecodedSleep()
    ensures Decode(SLP_R6) == NONE.(ra := 6, imm := 0x6000, aluOp := 5, trdOp := Sleep)
  {}

  lemma DecodedAddaR8()
    ensures Decode(ADDA_R8) == NONE.(rd := 8, ra := 9, rb := 9, imm := 0x9480, aluOp := ADD, wrEn := true)
    ensures AtomicBit(ADDA_R8)
  {}

  /** The order to sleep is in WB. */
  predicate Ordered(k: Pipe) {
    var s := k.s;
    && Table(k, START_PC + 7, CHILD + 2, 0)
    && s.dec == DecReg(1, CHILD + 1, ADDA_R8, false) && s.ex == ExeReg(1, CHILD, LDA_R9, Decode(LDA_R9))
    && s.me.trd == 0 && s.me.pc == START_PC + 6 && k.o.me
    && s.wb.trd == 0 && s.wb.trdOp == Sleep && s.wb.newPc == 1 && !s.wb.miss
  }

  lemma SleepingFirst(k: Pipe)
    requires Met(k, Sleeping())
    ensures Ordered(PipeStep(Code(Sleeping()), k, HIT))
  {
    hide Decode, Jmp, StallReq, PipeStep, Table, Code, Execute, Forward;
    DecodedNone();
    DecodedSleeping();
    DecodedChild();
    NoJumpHere(k.s);
    InertNeverStalls(k.s);
    CodeWords(Sleeping());
    TwoClock(Code(Sleeping()), k, START_PC + 7, CHILD + 1, 0, HIT);
  }

  lemma SleepWires(k: Pipe)
    requires Ordered(k)
    ensures var s := k.s;
            && Squash(s) && SleepWb(s) && !Stall(s) && !Init(s) && ObjTrd(s) == 1
            && Cur(s) == 1 && CurPc(s) == CHILD + 2 && IRd(s) && TrdMiss(s) == {}
            && !FlushID(s) && !FlushEX(s) && FlushMEM(s)
            && PcWr(s, 1) && NxtPc(s, 1) == CHILD + 3
  {
    DecodedSleeping();
    DecodedNone();
    DecodedChild();
    NoJumpHere(k.s);
    hide Jmp, Decode, Forward, StallReq;
  }

  lemma SleepClock(prog: Program, k: Pipe)
    requires Ordered(k)
    ensures var k' := PipeStep(prog, k, HIT); var s := k'.s;
            && s.dec == DecReg(1, CHILD + 2, prog(CHILD + 2), false) && k'.o.dec
            && s.ex.trd == 1 && s.ex.c == Decode(ADDA_R8)
            && s.me.trd == 1 && s.me.wrEn && s.me.wbSel && s.me.rd == 9 && InertWb(s.wb)
            && !s.ctl.csrs[1].running && s.ctl.csrs[1].pc == CHILD + 3 && s.ctl.wait == {}
            && s.ctl.last == 1 && s.ctl.lastPc == CHILD + 2 && !s.ctl.rstInit
  {
    SleepWires(k);
    DecodedNone();
    DecodedChild();
    var s := k.s;
    hide Decode, Execute, Squash, Stall, Cur, CurPc, IRd, PcWr, NxtPc, Forward, Scheduler.Next, Init, ObjTrd, ExeOut;
    hide FlushID, FlushEX, FlushMEM, FwdA, FwdB, RfNext, MemoryNext, TrdMiss;
    assert Step(prog, s, HIT).ctl.csrs[1] == CsrNext(s, 1);
  }

  /** Thread 1 is put to sleep in the clock before its own stall: the slot it has in DEC
      is gone, and it will go on behind that slot. */
  lemma StallSkipsSlot()
    ensures var prog := Code(Sleeping());
            var k := At(prog, 10); var k' := At(prog, 11);
            && Stall(k.s) && k.o.dec && k.s.dec == DecReg(1, CHILD + 2, 0, false) && !Runnable(k.s, 1)
            && !k'.o.dec && !k'.s.dec.miss && FetchPc(k'.s, 1) == CHILD + 3
  {
    var prog := Code(Sleeping());
    hide Decode, PipeStep, Code, At, Met, Table, Execute, Forward, Stall, Ordered;
    DecodedNone();
    DecodedSleeping();
    Meeting(Sleeping());
    AtStep(prog, 8);
    SleepingFirst(At(prog, 8));
    AtStep(prog, 9);
    SleepClock(prog, At(prog, 9));
    CodeWords(Sleeping());
    AtStep(prog, 10);
    StallClock(prog, At(prog, 10));
  }

  /** In the clock in which thread 0 puts thread 1 to sleep it loses its own instruction
      in MEM: that is flushed, and thread 0 goes on behind it. */
  lemma SleepLosesSlot()
    ensures var prog := Code(Sleeping());
            var k := At(prog, 9); var k' := At(prog, 10);
            && SleepWb(k.s) && k.s.wb.trd == 0 && ObjTrd(k.s) == 1
            && k.o.me && k.s.me.trd == 0 && k.s.me.pc == START_PC + 6
            && !(k'.o.dec && k'.s.dec.trd == 0) && !(k'.o.ex && k'.s.ex.trd == 0) && !(k'.o.me && k'.s.me.trd == 0)
            && !(k'.o.wb && k'.s.wb.trd == 0) && FetchPc(k'.s, 0) == START_PC + 7
  {
    var prog := Code(Sleeping());
    hide Decode, PipeStep, Code, At, Met, Execute, Forward, Stall;
    DecodedNone();
    DecodedSleeping();
    Meeting(Sleeping());
    AtStep(prog, 8);
    SleepingFirst(At(prog, 8));
    AtStep(prog, 9);
    Limits.StopFlushes(prog, At(prog, 9), HIT);
  }
}
