/** Misses are precise, and the situations behind the guards of the refinement are
    exact: if and only if they arise, the pipeline hands on a wrong value, loses or
    revives a slot, or loses a jump. */
module Limits {
  import opened Isa
  import opened Core
  import opened Refinement

  // ---------------------------------------------------------- precise misses

  /** An access of thread t misses in this clock, in any state of any program.
      Whatever happens in it and in the next, be it a younger jump of t in EXE: in
      the next clock no register is written and t stores nothing, after it no stage
      holds a slot of t, and t fetches the access again. */
  lemma PreciseReplay(prog: Program, k: Pipe, i: Input, j: Input)
    requires (k.s.me.memRd || k.s.me.memWr) && k.s.me.trdOp == NoOp && !FlushMEM(k.s) && i.accessMiss
    ensures var t := k.s.me.trd; var k1 := PipeStep(prog, k, i); var k2 := PipeStep(prog, k1, j);
            && (forall u: Tid :: k2.s.rf.files[u].data == k1.s.rf.files[u].data)
            && k1.s.mem == k.s.mem && (k1.s.me.trd == t ==> k2.s.mem == k1.s.mem)
            && !(k2.o.dec && k2.s.dec.trd == t) && !(k2.o.ex && k2.s.ex.trd == t)
            && !(k2.o.me && k2.s.me.trd == t) && !(k2.o.wb && k2.s.wb.trd == t)
            && k2.s.ctl.csrs[t].pc == k.s.me.pc && FetchPc(k2.s, t) == k.s.me.pc
  {
    var t := k.s.me.trd;
    var k1 := PipeStep(prog, k, i);
    assert Replays(k1.s, t) && k1.s.wb.trdOp == NoOp && !k1.s.ctl.rstInit && k1.s.wb.pc == k.s.me.pc;
    ReplayClock(prog, k1, j, t);
    hide Execute, Decode, Forward, CtlNext, DecNext, FileNext, ExeNext, MemNext;
    assert k1.s.mem == k.s.mem;
  }

  /** The clock in which the miss is flushed. */
  lemma ReplayClock(prog: Program, k: Pipe, j: Input, t: Tid)
    requires Replays(k.s, t) && k.s.wb.trdOp == NoOp && !k.s.ctl.rstInit
    ensures var k' := PipeStep(prog, k, j);
            && (forall u: Tid :: k'.s.rf.files[u].data == k.s.rf.files[u].data)
            && (k.s.me.trd == t ==> k'.s.mem == k.s.mem)
            && !(k'.o.dec && k'.s.dec.trd == t) && !(k'.o.ex && k'.s.ex.trd == t)
            && !(k'.o.me && k'.s.me.trd == t) && !(k'.o.wb && k'.s.wb.trd == t)
            && k'.s.ctl.csrs[t].pc == k.s.wb.pc && FetchPc(k'.s, t) == k.s.wb.pc
  {
    hide Execute, Decode, Forward, StallReq;
    ReplayedPc(prog, k, j, t);
    assert PipeStep(prog, k, j).s.ctl.csrs[t] == CsrNext(k.s, t);
  }

  /** In a state of the invariant the registers of t are then those before the
      access, and the access is its next instruction to commit. */
  lemma ReplayIsExact(prog: Program, k: Pipe, i: Input, j: Input)
    requires Inv(prog, k) && OrdinaryProgram(prog)
    requires k.o.me && (k.s.me.memRd || k.s.me.memWr) && !FlushMEM(k.s) && i.accessMiss
    ensures var t := k.s.me.trd; var k2 := PipeStep(prog, PipeStep(prog, k, i), j);
            k2.s.rf.files[t].data == Regs(k.s)[t] && CommitPc(k2, t) == k.s.me.pc
  {
    var t := k.s.me.trd;
    LoadsReadMemory(prog(k.s.me.pc));
    OrdinaryAt(prog, k.s.me.pc);
    PreciseReplay(prog, k, i, j);
    FilesCatchUp(prog, k, i, t);
    hide Execute, Decode, Forward, Step;
  }

  /** `slp` or `kill` of thread t is in WB, in any state of any program: after the clock
      no stage holds a slot of t, nothing of t is written, and the slots of the others
      move on. What was flushed is not fetched again when t wakes up: it goes on where
      its fetches had come to, or a jump of it, flushed as well, had sent it. */
  lemma StopFlushes(prog: Program, k: Pipe, i: Input)
    requires (SleepWb(k.s) || KillWb(k.s)) && !k.s.wb.miss && !k.s.ctl.rstInit
    ensures var t := k.s.wb.trd; var s := k.s; var k' := PipeStep(prog, k, i);
            && (forall u: Tid :: k'.s.rf.files[u].data == s.rf.files[u].data)
            && (s.me.trd == t ==> k'.s.mem == s.mem)
            && !(k'.o.dec && k'.s.dec.trd == t) && !(k'.o.ex && k'.s.ex.trd == t)
            && !(k'.o.me && k'.s.me.trd == t) && !(k'.o.wb && k'.s.wb.trd == t)
            && (s.dec.trd != t ==> k'.o.ex == k.o.dec && k'.s.ex.trd == s.dec.trd && k'.s.ex.pc == s.dec.pc)
            && (s.ex.trd != t ==> k'.o.me == k.o.ex && k'.s.me.trd == s.ex.trd && k'.s.me.pc == s.ex.pc)
            && (s.me.trd != t ==> k'.o.wb == k.o.me && k'.s.wb.trd == s.me.trd && k'.s.wb.pc == s.me.pc)
            && FetchPc(k'.s, t) == GoesOnAt(s, t)
  {
    var s, t := k.s, k.s.wb.trd;
    assert Squash(s) && !Init(s) && !WrEnFinal(s) && !Stall(s);
    hide Execute, Decode, Forward, Jmp, StallReq;
    forall u: Tid ensures PipeStep(prog, k, i).s.rf.files[u].data == s.rf.files[u].data {
      assert RfNext(s).files[u] == FileNext(s, u);
    }
    assert Step(prog, s, i).ctl.csrs[t] == CsrNext(s, t);
  }

  function GoesOnAt(s: Core, t: Tid): Word {
    if Jmp(s) && s.ex.trd == t && !(s.dec.miss && s.dec.trd == t) then ExeOut(s).target else FetchPc(s, t)
  }

  predicate InFlight(k: Pipe, t: Tid) {
    || (k.o.dec && k.s.dec.trd == t) || (k.o.ex && k.s.ex.trd == t) || (k.o.me && k.s.me.trd == t)
  }

  /** So the instruction of t that was to commit next is still the next one exactly when
      none of t was in flight, or its fetches happen to have come back to it. */
  lemma StopLosesExact(prog: Program, k: Pipe, i: Input)
    requires (SleepWb(k.s) || KillWb(k.s)) && !k.s.wb.miss && !k.s.ctl.rstInit
    requires Jmp(k.s) ==> k.o.ex
    ensures var t := k.s.wb.trd;
            PcFromMem(PipeStep(prog, k, i), t) == PcFromMem(k, t)
            <==> !InFlight(k, t) || GoesOnAt(k.s, t) == PcFromMem(k, t)
  {
    StopFlushes(prog, k, i);
    hide PipeStep, Jmp, ExeOut, FetchPc;
  }

  // ------------------------------------------------------- exact forwarding

  /** The same pipeline with other data on its way to the registers. */
  function WithData(s: Core, vm: Word, vw: Word): Core {
    s.(me := s.me.(data := vm), wb := s.wb.(data := vw, rdData := vw))
  }

  /** Register r is the id of a thread that MEM is about to create. */
  predicate AwaitsId(s: Core, r: Reg) { r > 1 && MemMatches(s, r) && s.me.trdOp == Create }

  /** The thread table as it will stand, and the id it has for the next thread. */
  function NextTable(s: Core): Csrs { seq(8, t requires 0 <= t < 8 => CsrNext(s, t)) }

  function NextId(s: Core): Tid { NewTrd(NextTable(s)) }

  /** Register r of the thread in EXE once the writes ahead of it are made: an id
      not yet given out, the word being loaded, a result, or what the file holds. */
  function Due(s: Core, r: Reg, loaded: Word): Word {
    if AwaitsId(s, r) && !s.me.wbSel then NextId(s) else RegisterFor(s, r, loaded)
  }

  function Delivered(s: Core, r: Reg): Word { Forward(s, r, s.rf.files[s.ex.trd].data[r]) }

  /** The network cannot know register r. */
  predicate Unknown(s: Core, r: Reg) { DroppedWrite(s, r) || StaleLoad(s, r) || AwaitsId(s, r) }

  predicate ForwardsRight(s: Core, r: Reg, vm: Word, vw: Word, loaded: Word) {
    Delivered(WithData(s, vm, vw), r) == Due(WithData(s, vm, vw), r, loaded)
  }

  function Other(v: Word): Word { if v == 0 then 1 else 0 }

  /** What data cannot change: which thread a creation will be. */
  lemma IdIgnoresData(s: Core, vm: Word, vw: Word)
    ensures NextId(WithData(s, vm, vw)) == NextId(s)
  {
    var v := WithData(s, vm, vw);
    forall t: Tid ensures CsrNext(v, t).valid == CsrNext(s, t).valid { LifeIgnoresData(s, vm, vw, t); }
    SameFree(NextTable(v), NextTable(s), 0);
    hide CsrNext;
  }

  lemma LifeIgnoresData(s: Core, vm: Word, vw: Word, t: Tid)
    ensures CsrNext(WithData(s, vm, vw), t).valid == CsrNext(s, t).valid
  {
    hide PcWr, NxtPc, NewTrd;
  }

  /** Forwarding is right for all data exactly when no guard holds of the register. */
  lemma ForwardExact(s: Core, r: Reg)
    requires s.wb.trdOp != Create
    ensures (forall vm, vw, loaded :: ForwardsRight(s, r, vm, vw, loaded)) <==> !Unknown(s, r)
  {
    forall vm: Word, vw: Word { IdIgnoresData(s, vm, vw); }
    hide NextId;
    var x := s.rf.files[s.ex.trd].data[r];
    if AwaitsId(s, r) && !s.me.wbSel {
      assert !ForwardsRight(s, r, Other(NextId(s)), 0, 0);
    } else if Unknown(s, r) {
      assert !ForwardsRight(s, r, Other(x), Other(x), Other(x));
    }
  }

  /** Thread u has a slot after this clock. */
  predicate LivesOn(s: Core, u: Tid) {
    || (Init(s) && ObjTrd(s) == u)
    || (s.ctl.csrs[u].valid && !(KillWb(s) && ObjTrd(s) == u && HasAuthority(s.ctl.csrs[u], u, s.wb.trd)))
  }

  /** n is the lowest slot left free by this clock, or 0 when none is. */
  predicate LowestFree(s: Core, n: nat) {
    || (n < 8 && !LivesOn(s, n) && forall u: Tid | u < n :: LivesOn(s, u))
    || (n == 0 && forall u: Tid :: LivesOn(s, u))
  }

  lemma NextIdIsLowestFree(s: Core, n: nat)
    ensures NextId(s) == n <==> LowestFree(s, n)
  {
    forall u: Tid ensures NextTable(s)[u].valid == LivesOn(s, u) {
      hide PcWr, NxtPc, ObjTrd;
    }
    FreeFromIsLowest(NextTable(s), 0);
    hide CsrNext, LivesOn, NewTrd;
    assert NextId(s) == FreeFrom(NextTable(s), 0) by { NewTrdIsFreeFrom(NextTable(s)); }
  }

  lemma NewTrdIsFreeFrom(csrs: Csrs)
    ensures NewTrd(csrs) == FreeFrom(csrs, 0)
  {}

  /** What an `nt` forwards from MEM is the conjunction of the operands it had in
      EXE; that is the id it will write exactly when the conjunction is the lowest
      slot left free. */
  lemma CreateForwardExact(prog: Program, s: Core, i: Input, j: Input, ins: Word, r: Reg, raw: Word)
    requires s.ex.c == Decode(ins) && s.ex.c.trdOp == Create && !FlushEX(s) && !Stall(s)
    requires r > 1 && MemMatches(Step(prog, s, i), r) && !FlushMEM(Step(prog, s, i))
    ensures var s1 := Step(prog, s, i);
            && Forward(s1, r, raw) == BitAnd(FwdA(s), FwdB(s))
            && WbData(Step(prog, s1, j)) == NextId(s1)
            && (Forward(s1, r, raw) == WbData(Step(prog, s1, j)) <==> LowestFree(s1, BitAnd(FwdA(s), FwdB(s))))
  {
    var s1 := Step(prog, s, i);
    NextIdIsLowestFree(s1, BitAnd(FwdA(s), FwdB(s)));
    CreateInExe(prog, s, i, ins);
    assert CtlNext(s1).csrs == NextTable(s1);
    hide Step, NewTrd, Execute, LowestFree, NextTable, FwdA, FwdB, BitAnd;
    CreateInWb(prog, s1, j);
  }

  lemma CreateInExe(prog: Program, s: Core, i: Input, ins: Word)
    requires s.ex.c == Decode(ins) && s.ex.c.trdOp == Create && !FlushEX(s) && !Stall(s)
    ensures var m := Step(prog, s, i).me; m.trdOp == Create && !m.wbSel && m.data == BitAnd(FwdA(s), FwdB(s))
  {
    CreateDecoded(ins);
    hide Decode, CtlNext, DecNext, ExeNext, RfNext, WbNext, MemoryNext, Forward, BitAnd, FlushEX, Stall, Taken, Target;
  }

  lemma CreateDecoded(ins: Word)
    ensures var c := Decode(ins);
            c.trdOp == Create ==> c.aluOp == AND && !c.iType && !c.wbSel && !c.memWr && c.jump == NoJump
  {}

  lemma CreateInWb(prog: Program, s: Core, j: Input)
    requires s.me.trdOp == Create && !FlushMEM(s)
    ensures WbData(Step(prog, s, j)) == NewTrd(CtlNext(s).csrs)
  {
    hide CtlNext, DecNext, ExeNext, RfNext, MemNext, MemoryNext, NewTrd;
  }

  // ------------------------------------------------------ jumps on wrong operands

  /** The jump in EXE goes where it would with the registers as they are due. */
  predicate JumpRight(s: Core, loaded: Word) {
    var c := s.ex.c;
    var o := Execute(c, s.ex.pc, Delivered(s, c.ra), Delivered(s, c.rb));
    var o' := Execute(c, s.ex.pc, Due(s, c.ra, loaded), Due(s, c.rb, loaded));
    o.taken == o'.taken && NextPc(o, s.ex.pc) == NextPc(o', s.ex.pc)
  }

  /** A conditional branch compares two registers, of which one is as in `wrong`;
      or the target comes from such a register. Comparing a register with itself
      goes well whatever it is. */
  predicate DependsOn(c: Ctrl, wrong: set<Reg>) {
    || (Conditional(c) && c.ra != c.rb && (c.ra in wrong || c.rb in wrong))
    || (c.jump == Absolute && c.ra in wrong)
  }

  function UnknownRegs(s: Core): set<Reg> { set r: Reg | Unknown(s, r) }

  predicate Branches(c: Ctrl, a: Word, b: Word) {
    match c.jump
    case IfEqual => a == b
    case IfNotEqual => a != b
    case _ => Sub(a, b) >= 0x8000_0000
  }

  /** A first, or second, operand that makes a branch go either way. */
  function FirstFor(c: Ctrl, b: Word, want: bool): Word {
    if c.jump == IfLess then (if want then Sub(b, 1) else b)
    else if (c.jump == IfEqual) == want then b else Add(b, 1)
  }

  function SecondFor(c: Ctrl, a: Word, want: bool): Word {
    if c.jump == IfLess then (if want then Add(a, 1) else a)
    else if (c.jump == IfEqual) == want then a else Add(a, 1)
  }

  lemma BranchesEitherWay(c: Ctrl, x: Word, want: bool)
    requires Conditional(c)
    ensures Branches(c, FirstFor(c, x, want), x) == want
    ensures Branches(c, x, SecondFor(c, x, want)) == want
  {
    assert Sub(x, x) == 0 && Sub(Sub(x, 1), x) == 0xFFFF_FFFF && Sub(x, Add(x, 1)) == 0xFFFF_FFFF;
    assert Add(x, 1) != x;
  }

  lemma JumpOutcome(c: Ctrl, ins: Word, pc: Word, a: Word, b: Word)
    requires c == Decode(ins) && c.jump != NoJump
    ensures var o := Execute(c, pc, a, b);
            && (o.taken <==> Conditional(c) ==> Branches(c, a, b))
            && (c.jump == Absolute ==> o.target == Add(a, SignExt12(c.imm)))
            && (c.jump != Absolute ==> o.target == Add(Inc(pc), SignExt12(c.imm)))
  {
    assert !c.iType;
    EqualExact(c, a, b);
    hide Alu, SignExt12, Add;
  }

  // The two values of a register, spelled out: the data in MEM, the data in WB,
  // the word being loaded, the next id, or what the file holds.
  function Held(s: Core, r: Reg): Word { s.rf.files[s.ex.trd].data[r] }

  function DeliveredBy(s: Core, r: Reg, vm: Word, vw: Word): Word {
    if MemMatches(s, r) then (if !s.me.wbSel && r != 0 then vm else Held(s, r))
    else if WbMatches(s, r) && r != 0 then vw
    else Held(s, r)
  }

  function DueBy(s: Core, r: Reg, vm: Word, vw: Word, loaded: Word): Word {
    if MemMatches(s, r) && r > 1 then
      (if s.me.wbSel then loaded else if s.me.trdOp == Create then NextId(s) else vm)
    else if WbMatches(s, r) && r > 1 then vw
    else Held(s, r)
  }

  lemma Flows(s: Core, r: Reg, vm: Word, vw: Word, loaded: Word)
    requires s.wb.trdOp != Create
    ensures Delivered(WithData(s, vm, vw), r) == DeliveredBy(s, r, vm, vw)
    ensures Due(WithData(s, vm, vw), r, loaded) == DueBy(s, r, vm, vw, loaded)
  {
    IdIgnoresData(s, vm, vw);
    hide NextId;
  }

  /** What the jump in EXE does with two operands. */
  predicate SameJump(c: Ctrl, a: Word, b: Word, a': Word, b': Word) {
    if Conditional(c) then Branches(c, a, b) == Branches(c, a', b') else c.jump == Absolute ==> a == a'
  }

  lemma JumpRightMeans(s: Core, ins: Word, vm: Word, vw: Word, loaded: Word)
    requires s.ex.c == Decode(ins) && s.ex.c.jump != NoJump && s.wb.trdOp != Create
    ensures var c := s.ex.c;
            JumpRight(WithData(s, vm, vw), loaded)
            <==> SameJump(c, DeliveredBy(s, c.ra, vm, vw), DeliveredBy(s, c.rb, vm, vw),
                          DueBy(s, c.ra, vm, vw, loaded), DueBy(s, c.rb, vm, vw, loaded))
  {
    var c, v := s.ex.c, WithData(s, vm, vw);
    Flows(s, c.ra, vm, vw, loaded);
    Flows(s, c.rb, vm, vw, loaded);
    var a, b, a', b' := DeliveredBy(s, c.ra, vm, vw), DeliveredBy(s, c.rb, vm, vw),
                        DueBy(s, c.ra, vm, vw, loaded), DueBy(s, c.rb, vm, vw, loaded);
    JumpOutcome(c, ins, s.ex.pc, a, b);
    JumpOutcome(c, ins, s.ex.pc, a', b');
    AddCancels(a, a', SignExt12(c.imm));
    hide Execute, Decode, Delivered, Due, DeliveredBy, DueBy, Branches, Add, SignExt12;
  }

  lemma AddCancels(a: Word, b: Word, e: Word)
    ensures Add(a, e) == Add(b, e) ==> a == b
  {}

  /** Data for which a jump that depends on an unknown register goes wrong: of the
      data the two values of the register are made of, one is free to differ. */
  lemma WrongData(s: Core, ins: Word) returns (vm: Word, vw: Word, loaded: Word)
    requires s.ex.c == Decode(ins) && s.ex.c.jump != NoJump
    requires DependsOn(s.ex.c, UnknownRegs(s))
    ensures var c := s.ex.c;
            !SameJump(c, DeliveredBy(s, c.ra, vm, vw), DeliveredBy(s, c.rb, vm, vw),
                      DueBy(s, c.ra, vm, vw, loaded), DueBy(s, c.rb, vm, vw, loaded))
  {
    hide Decode, Branches, FirstFor, SecondFor, NextId;
    var c := s.ex.c;
    vm, vw, loaded := 0, 0, 0;
    var first := Unknown(s, c.ra);
    var r := if first then c.ra else c.rb;
    assert Unknown(s, r);
    if Conditional(c) {
      var other := if first then c.rb else c.ra;
      var own := Own(s, r);
      var d, u := DeliveredBy(s, other, 0, 0), DueBy(s, other, 0, 0, 0);
      if own == LoadedData {
        var right := if first then Branches(c, Held(s, r), d) else Branches(c, d, Held(s, r));
        loaded := if first then FirstFor(c, u, !right) else SecondFor(c, u, !right);
        BranchesEitherWay(c, u, !right);
      } else {
        var due := DueBy(s, r, 0, 0, 0);
        var right := if first then Branches(c, due, u) else Branches(c, u, due);
        var v := if first then FirstFor(c, d, !right) else SecondFor(c, d, !right);
        BranchesEitherWay(c, d, !right);
        if own == MemData { vm := v; } else { vw := v; }
      }
    } else {
      vm, vw, loaded := Other(DueBy(s, r, 0, 0, 0)), Other(Held(s, r)), Other(Held(s, r));
    }
  }

  datatype Source = MemData | WbDatum | LoadedData

  /** The data that tell the two values of an unknown register apart. */
  function Own(s: Core, r: Reg): Source {
    if StaleLoad(s, r) then LoadedData else if MemMatches(s, r) then MemData else WbDatum
  }

  /** A jump goes where it should for all data exactly when it depends on no unknown
      register: a load or a creation in MEM, or a dropped write of r1. */
  lemma JumpOperandExact(s: Core, ins: Word)
    requires s.ex.c == Decode(ins) && s.ex.c.jump != NoJump && s.wb.trdOp != Create
    ensures (forall vm, vw, loaded :: JumpRight(WithData(s, vm, vw), loaded))
            <==> !DependsOn(s.ex.c, UnknownRegs(s))
  {
    forall vm: Word, vw: Word, loaded: Word { JumpRightMeans(s, ins, vm, vw, loaded); }
    hide JumpRight, DependsOn, WithData, Decode, Branches;
    if DependsOn(s.ex.c, UnknownRegs(s)) {
      var vm, vw, loaded := WrongData(s, ins);
      assert !JumpRight(WithData(s, vm, vw), loaded);
    } else {
      forall vm: Word, vw: Word, loaded: Word ensures JumpRight(WithData(s, vm, vw), loaded) {
        KnownSame(s, vm, vw, loaded);
      }
    }
  }

  lemma KnownSame(s: Core, vm: Word, vw: Word, loaded: Word)
    requires !DependsOn(s.ex.c, UnknownRegs(s))
    ensures var c := s.ex.c;
            SameJump(c, DeliveredBy(s, c.ra, vm, vw), DeliveredBy(s, c.rb, vm, vw),
                     DueBy(s, c.ra, vm, vw, loaded), DueBy(s, c.rb, vm, vw, loaded))
  {
    hide NextId;
    var c := s.ex.c;
    assert !Unknown(s, c.ra) ==> DeliveredBy(s, c.ra, vm, vw) == DueBy(s, c.ra, vm, vw, loaded);
    assert !Unknown(s, c.rb) ==> DeliveredBy(s, c.rb, vm, vw) == DueBy(s, c.rb, vm, vw, loaded);
  }

  // --------------------------------------------------- jumps that do not wait

  function StaleRegs(s: Core): set<Reg> { set r: Reg | StaleLoad(s, r) }

  /** The word being loaded is all that the operands an instruction in EXE reads lack. */
  predicate OnlyLoads(s: Core) {
    var c := s.ex.c;
    && (ReadsA(c) ==> DataA(s) == Held(s, c.ra) && !DroppedWrite(s, c.ra) && !AwaitsId(s, c.ra))
    && (ReadsB(c) ==> DataB(s) == Held(s, c.rb) && !DroppedWrite(s, c.rb) && !AwaitsId(s, c.rb))
  }

  /** The instruction in EXE leaves it as it is. */
  predicate Leaves(s: Core) { !Stall(s) && !FlushEX(s) }

  /** With such operands a jump that leaves EXE is right for every loaded word exactly
      when it does not depend on the load, or does not leave: a stall request gives
      way to the jump itself, once it is taken on the old value, and to the flush of
      another thread. */
  lemma JumpWaitsExact(s: Core, ins: Word)
    requires s.ex.c == Decode(ins) && s.ex.c.jump != NoJump && s.wb.trdOp != Create && OnlyLoads(s)
    ensures (forall loaded :: Leaves(s) ==> JumpRight(s, loaded))
            <==> !(DependsOn(s.ex.c, StaleRegs(s)) && (Jmp(s) || Squash(s)) && !FlushEX(s))
  {
    var c := s.ex.c;
    forall loaded: Word { JumpRightNow(s, ins, loaded); }
    if DependsOn(c, StaleRegs(s)) {
      assert StallReq(s);
      var loaded := WrongLoad(s);
      assert !JumpRight(s, loaded);
    } else {
      forall loaded: Word ensures JumpRight(s, loaded) {
        hide JumpRight, Decode, Branches, NextId;
        NotStaleSame(s, loaded);
      }
    }
  }

  /** The operands the instruction in EXE reads are the registers as they are due. */
  predicate OperandsRight(s: Core, loaded: Word) {
    var c := s.ex.c;
    && (ReadsA(c) ==> FwdA(s) == Due(s, c.ra, loaded))
    && (ReadsB(c) ==> FwdB(s) == Due(s, c.rb, loaded))
  }

  /** Any other instruction, with such operands, leaves EXE with the right ones for
      every loaded word exactly when it reads no register that is being loaded, or
      does not leave: the only thing a stall request gives way to is then the flush of
      another thread. */
  lemma LoadWaitsExact(s: Core)
    requires s.ex.c.jump == NoJump && OnlyLoads(s)
    ensures (forall loaded :: Leaves(s) ==> OperandsRight(s, loaded))
            <==> !((exists r | r in StaleRegs(s) :: Reads(s.ex.c, r)) && Squash(s) && !FlushEX(s))
  {
    var c := s.ex.c;
    hide Execute, NextId;
    assert !Jmp(s) by { NoJumpNotTaken(s); }
    if r :| r in StaleRegs(s) && Reads(c, r) {
      assert StallReq(s);
      if Squash(s) && !FlushEX(s) {
        assert Leaves(s) && !OperandsRight(s, Other(Held(s, r)));
      }
    } else {
      assert ReadsA(c) && StaleLoad(s, c.ra) ==> c.ra in StaleRegs(s) && Reads(c, c.ra);
      assert ReadsB(c) && StaleLoad(s, c.rb) ==> c.rb in StaleRegs(s) && Reads(c, c.rb);
      forall loaded: Word ensures OperandsRight(s, loaded) {}
    }
  }

  lemma NoJumpNotTaken(s: Core)
    requires s.ex.c.jump == NoJump
    ensures !Jmp(s)
  {}

  lemma JumpRightNow(s: Core, ins: Word, loaded: Word)
    requires s.ex.c == Decode(ins) && s.ex.c.jump != NoJump && s.wb.trdOp != Create
    ensures var c, vm, vw := s.ex.c, s.me.data, WbData(s);
            JumpRight(s, loaded)
            <==> SameJump(c, DeliveredBy(s, c.ra, vm, vw), DeliveredBy(s, c.rb, vm, vw),
                          DueBy(s, c.ra, vm, vw, loaded), DueBy(s, c.rb, vm, vw, loaded))
  {
    var c, vm, vw := s.ex.c, s.me.data, WbData(s);
    FlowsNow(s, c.ra, loaded);
    FlowsNow(s, c.rb, loaded);
    var a, b, a', b' := DeliveredBy(s, c.ra, vm, vw), DeliveredBy(s, c.rb, vm, vw),
                        DueBy(s, c.ra, vm, vw, loaded), DueBy(s, c.rb, vm, vw, loaded);
    JumpOutcome(c, ins, s.ex.pc, a, b);
    JumpOutcome(c, ins, s.ex.pc, a', b');
    AddCancels(a, a', SignExt12(c.imm));
    hide Execute, Decode, Delivered, Due, DeliveredBy, DueBy, Branches, Add, SignExt12;
  }

  lemma FlowsNow(s: Core, r: Reg, loaded: Word)
    requires s.wb.trdOp != Create
    ensures Delivered(s, r) == DeliveredBy(s, r, s.me.data, WbData(s))
    ensures Due(s, r, loaded) == DueBy(s, r, s.me.data, WbData(s), loaded)
  {
    hide NextId;
  }

  lemma WrongLoad(s: Core) returns (loaded: Word)
    requires DependsOn(s.ex.c, StaleRegs(s)) && OnlyLoads(s)
    ensures var c, vm, vw := s.ex.c, s.me.data, WbData(s);
            !SameJump(c, DeliveredBy(s, c.ra, vm, vw), DeliveredBy(s, c.rb, vm, vw),
                      DueBy(s, c.ra, vm, vw, loaded), DueBy(s, c.rb, vm, vw, loaded))
  {
    hide Branches, FirstFor, SecondFor, NextId;
    var c, vm, vw := s.ex.c, s.me.data, WbData(s);
    var first := StaleLoad(s, c.ra);
    var r, other := if first then c.ra else c.rb, if first then c.rb else c.ra;
    assert StaleLoad(s, r);
    if Conditional(c) {
      var d, u := DeliveredBy(s, other, vm, vw), DueBy(s, other, vm, vw, 0);
      var right := if first then Branches(c, Held(s, r), d) else Branches(c, d, Held(s, r));
      loaded := if first then FirstFor(c, u, !right) else SecondFor(c, u, !right);
      BranchesEitherWay(c, u, !right);
    } else {
      loaded := Other(Held(s, r));
    }
  }

  lemma NotStaleSame(s: Core, loaded: Word)
    requires OnlyLoads(s) && !DependsOn(s.ex.c, StaleRegs(s))
    ensures var c, vm, vw := s.ex.c, s.me.data, WbData(s);
            SameJump(c, DeliveredBy(s, c.ra, vm, vw), DeliveredBy(s, c.rb, vm, vw),
                     DueBy(s, c.ra, vm, vw, loaded), DueBy(s, c.rb, vm, vw, loaded))
  {
    hide NextId;
    var c, vm, vw := s.ex.c, s.me.data, WbData(s);
    assert ReadsA(c) && !StaleLoad(s, c.ra) ==> DeliveredBy(s, c.ra, vm, vw) == DueBy(s, c.ra, vm, vw, loaded);
    assert ReadsB(c) && !StaleLoad(s, c.rb) ==> DeliveredBy(s, c.rb, vm, vw) == DueBy(s, c.rb, vm, vw, loaded);
  }

  // ------------------------------------------------------------ exact bypass

  predicate WriteMeets(s: Core, r: Reg) { WrEnFinal(s) && s.wb.trd == s.dec.trd && s.wb.rd == r }

  /** One of the two registers an instruction names, and one of the two ports. */
  function RegOf(c: Ctrl, second: bool): Reg { if second then c.rb else c.ra }
  function PortOf(f: RegFile, second: bool): Word { if second then f.b else f.a }

  /** What a read port will show of the slot in DEC, against the register. */
  predicate PortRight(s: Core, second: bool, vm: Word, vw: Word) {
    var f := FileNext(WithData(s, vm, vw), s.dec.trd);
    PortOf(f, second) == f.data[RegOf(Decode(s.dec.ins), second)]
  }

  /** The write-through of the register file is right for all data, on either port,
      exactly when it is not r0 or r1 that is being written and read. */
  lemma BypassExact(s: Core, second: bool)
    requires s.wb.trdOp != Create
    ensures var r := RegOf(Decode(s.dec.ins), second);
            (forall vm, vw :: PortRight(s, second, vm, vw)) <==> !(WriteMeets(s, r) && r <= 1)
  {
    hide Decode;
    var r := RegOf(Decode(s.dec.ins), second);
    var x := s.rf.files[s.dec.trd].data[r];
    if WriteMeets(s, r) && r <= 1 {
      assert !PortRight(s, second, Other(x), Other(x));
    }
  }

  // ----------------------------------------------- exact operands after a stall

  function ForwardedOf(s: Core, second: bool): Word { if second then FwdB(s) else FwdA(s) }

  /** An operand of the stalled instruction, one clock later, when the load it
      waited for is in WB, against its register, over register files with which the
      instruction stalls. */
  predicate StalledOperandRight(prog: Program, s: Core, i: Input, second: bool, files: RegFiles) {
    var v := s.(rf := s.rf.(files := files));
    var s' := Step(prog, v, i);
    Stall(v) ==> ForwardedOf(s', second) == RegisterFor(s', RegOf(s.ex.c, second), 0)
  }

  function Poke(files: RegFiles, t: Tid, r: Reg, v: Word): RegFiles {
    files[t := files[t].(data := files[t].data[r := v])]
  }

  /** What EXE sees after the stall, and what it should see. */
  function Seen(s: Core, i: Input, second: bool): Word {
    var r := RegOf(s.ex.c, second);
    if r == s.me.rd && r != 0 then WbNext(s, i).rdData else PortOf(FileNext(s, s.dec.trd), second)
  }

  function Wanted(s: Core, i: Input, second: bool): Word {
    var r := RegOf(s.ex.c, second);
    if r == s.me.rd && r > 1 then WbNext(s, i).rdData else FileNext(s, s.ex.trd).data[r]
  }

  lemma AfterStall(prog: Program, s: Core, i: Input, second: bool)
    requires s.me.trdOp == NoOp && Stall(s)
    ensures ForwardedOf(Step(prog, s, i), second) == Seen(s, i, second)
    ensures RegisterFor(Step(prog, s, i), RegOf(s.ex.c, second), 0) == Wanted(s, i, second)
  {
    hide Alu, Decode, CtlNext, DecNext, FileNext, Jmp;
  }

  predicate StallKeepsReg(k: Pipe, second: bool) {
    var r := RegOf(k.s.ex.c, second);
    KeepsPort(k, r, RegOf(Decode(k.s.dec.ins), second)) && !(r == k.s.me.rd && r == 1)
  }

  lemma StallKeepsOperand(k: Pipe, i: Input, second: bool)
    requires !Starts(k.s, k.s.ex.trd) && Stall(k.s) && StallKeepsReg(k, second)
    ensures Seen(k.s, i, second) == Wanted(k.s, i, second)
  {
    hide Decode, WbNext, Jmp;
  }

  /** Of the port and the register, the one WB does not write is free to be wrong. */
  lemma StallLosesOperand(k: Pipe, i: Input, second: bool) returns (files: RegFiles)
    requires !Starts(k.s, k.s.ex.trd) && Stall(k.s) && !StallKeepsReg(k, second)
    ensures var v := k.s.(rf := k.s.rf.(files := files)); Stall(v) && Seen(v, i, second) != Wanted(v, i, second)
  {
    hide Decode, Stall;
    var s := k.s;
    var r := RegOf(s.ex.c, second);
    if WrEnFinal(s) && s.wb.trd == s.ex.trd && s.wb.rd == r && r > 1 {
      files := Poke(s.rf.files, s.dec.trd, RegOf(Decode(s.dec.ins), second), Other(WbData(s)));
      PokePort(k, i, second, files);
    } else {
      files := Poke(s.rf.files, s.ex.trd, r, Other(Seen(s, i, second)));
      PokeRegister(k, i, second, files);
    }
    PokeKeepsStall(s, files);
  }

  lemma PokePort(k: Pipe, i: Input, second: bool, files: RegFiles)
    requires !Starts(k.s, k.s.ex.trd) && Stall(k.s) && !StallKeepsReg(k, second)
    requires var r := RegOf(k.s.ex.c, second);
             && WrEnFinal(k.s) && k.s.wb.trd == k.s.ex.trd && k.s.wb.rd == r && r > 1
             && files == Poke(k.s.rf.files, k.s.dec.trd, RegOf(Decode(k.s.dec.ins), second), Other(WbData(k.s)))
    ensures var v := k.s.(rf := k.s.rf.(files := files)); Seen(v, i, second) != Wanted(v, i, second)
  {
    hide Decode, Stall, WbNext;
  }

  lemma PokeRegister(k: Pipe, i: Input, second: bool, files: RegFiles)
    requires !Starts(k.s, k.s.ex.trd) && Stall(k.s) && !StallKeepsReg(k, second)
    requires var r := RegOf(k.s.ex.c, second);
             && !(WrEnFinal(k.s) && k.s.wb.trd == k.s.ex.trd && k.s.wb.rd == r && r > 1)
             && files == Poke(k.s.rf.files, k.s.ex.trd, r, Other(Seen(k.s, i, second)))
    ensures var v := k.s.(rf := k.s.rf.(files := files)); Seen(v, i, second) != Wanted(v, i, second)
  {
    SeenAsBefore(k, i, second, files);
    LoadIgnoresFiles(k.s, i, files);
    hide Decode, Stall, WbNext, Seen, NewTrd, InitBank, KeepsPort;
    if RegOf(k.s.ex.c, second) == k.s.me.rd {
      assert RegOf(k.s.ex.c, second) <= 1 by { NotLoaded(k, second); }
    }
  }

  lemma NotLoaded(k: Pipe, second: bool)
    requires !StallKeepsReg(k, second) && RegOf(k.s.ex.c, second) == k.s.me.rd
    ensures k.s.me.rd <= 1
  {}

  lemma SeenAsBefore(k: Pipe, i: Input, second: bool, files: RegFiles)
    requires Stall(k.s) && !StallKeepsReg(k, second)
    requires var r := RegOf(k.s.ex.c, second); files == Poke(k.s.rf.files, k.s.ex.trd, r, Other(Seen(k.s, i, second)))
    ensures Seen(k.s.(rf := k.s.rf.(files := files)), i, second) == Seen(k.s, i, second)
  {
    LoadIgnoresFiles(k.s, i, files);
    hide Decode, Stall, WbNext, NewTrd, InitBank;
  }

  lemma LoadIgnoresFiles(s: Core, i: Input, files: RegFiles)
    ensures WbNext(s.(rf := s.rf.(files := files)), i) == WbNext(s, i)
  {}

  /** A stall is decided by what the ports show, not by the registers behind them. */
  lemma PokeKeepsStall(s: Core, files: RegFiles)
    requires files[s.rf.trd].a == s.rf.files[s.rf.trd].a && files[s.rf.trd].b == s.rf.files[s.rf.trd].b
    ensures Stall(s.(rf := s.rf.(files := files))) == Stall(s)
  {
    hide Execute;
  }

  /** After a load-use stall, of a branch that is not taken as well, an operand is
      right for all register contents exactly when the load brings it, or the slot
      in DEC happens to read the same register of the same thread on that port (r0
      and r1 aside where a write is dropped). */
  lemma StallOperandExact(prog: Program, k: Pipe, i: Input, second: bool)
    requires !Starts(k.s, k.s.ex.trd) && k.s.me.trdOp == NoOp && Stall(k.s)
    ensures (forall files: RegFiles :: StalledOperandRight(prog, k.s, i, second, files)) <==> StallKeepsReg(k, second)
  {
    hide Decode, Step, Forward, Seen, Wanted, Execute, RegisterFor, Stall;
    forall files: RegFiles
      ensures var v := k.s.(rf := k.s.rf.(files := files));
              StalledOperandRight(prog, k.s, i, second, files)
              <==> (Stall(v) ==> Seen(v, i, second) == Wanted(v, i, second))
    {
      var v := k.s.(rf := k.s.rf.(files := files));
      if Stall(v) { AfterStall(prog, v, i, second); }
    }
    if StallKeepsReg(k, second) {
      forall files: RegFiles ensures StalledOperandRight(prog, k.s, i, second, files) {
        var v := k.s.(rf := k.s.rf.(files := files));
        if Stall(v) { StallKeepsOperand(k.(s := v), i, second); }
      }
    } else {
      var files := StallLosesOperand(k, i, second);
      assert !StalledOperandRight(prog, k.s, i, second, files);
    }
  }

  // ------------------------------------------------------------ exact jumps

  /** The wrong path of a taken jump is still being fetched in its clock: another
      thread's miss is flushed instead of it. */
  predicate FetchesOn(k: Pipe) { k.s.wb.miss && IRd(k.s) && Cur(k.s) == k.s.ex.trd }

  /** A slot of the wrong path outlives the jump: it was in DEC, or its fetch hits. */
  predicate SlotOutlives(k: Pipe, i: Input) {
    (k.s.wb.miss && k.o.dec && k.s.dec.trd == k.s.ex.trd) || (FetchesOn(k) && !i.fetchMiss)
  }

  /** The thread is sent back to a wrong-path fetch that missed, in the clock before
      or in this one. */
  predicate SentBack(k: Pipe, i: Input) { LostJump(k) || (FetchesOn(k) && i.fetchMiss) }

  function SentBackTo(k: Pipe): Word {
    if LostJump(k) then k.s.dec.pc else k.s.ctl.csrs[k.s.ex.trd].pc
  }

  /** A taken jump that is not itself replayed, whatever the fetch of its clock
      brings: its wrong-path slots are gone after the clock exactly when none of
      them outlives it, and its thread continues at the target exactly when it is
      not sent back to another address. */
  lemma JumpExact(prog: Program, k: Pipe, i: Input)
    requires Inv(prog, k) && k.o.ex && Jmp(k.s) && !FlushEX(k.s)
    ensures var t := k.s.ex.trd; var k' := PipeStep(prog, k, i);
            && (!(k'.o.dec && k'.s.dec.trd == t) && !(k'.o.ex && k'.s.ex.trd == t) <==> !SlotOutlives(k, i))
            && (FetchPc(k'.s, t) == ExeOut(k.s).target
                <==> !SentBack(k, i) || SentBackTo(k) == ExeOut(k.s).target)
    ensures LostFlush(k) <==> SlotOutlives(k, i) || (FetchesOn(k) && i.fetchMiss)
  {
    if InitWb(k.s) { NewSlot(k); }
    hide Execute, Decode, FileNext, MemNext, WbNext, Forward, NewTrd, ExeInv, MemInv;
    BubblesIdle(prog, k);
  }

  // ------------------------------------------------------------ exact stalls

  lemma StallStep(prog: Program, k: Pipe, i: Input)
    requires Inv(prog, k) && Stall(k.s) && !Starts(k.s, k.s.dec.trd)
    ensures var t := k.s.dec.trd; var k' := PipeStep(prog, k, i);
            && k'.s.dec.trd == t && k'.s.dec.pc == k.s.dec.pc
            && (k'.o.dec || k'.s.dec.miss <==> Runnable(k.s, t))
            && (k.s.dec.miss ==> !Runnable(k.s, t))
            && k'.s.ctl.csrs[t].pc == FetchPc(k.s, t)
  {
    var s, t := k.s, k.s.dec.trd;
    assert Cur(s) == t && !Squash(s) && !Jmp(s);
    assert !FlushIF(s) && (PcWr(s, t) <==> s.dec.miss) && (s.dec.miss ==> NxtPc(s, t) == s.dec.pc);
    hide Execute, Decode, FileNext, Forward, StallReq, Jmp, NewTrd, PcWr, NxtPc, ExeInv, MemInv;
    assert Step(prog, s, i).ctl.csrs[t] == CsrNext(s, t);
  }

  /** After the clock k', the way of the thread in DEC is what it was: the same address
      comes next, and what is fetched next follows it. */
  predicate WayKept(k: Pipe, k': Pipe) {
    var t := k.s.dec.trd;
    && PcFromDec(k', t) == PcFromDec(k, t)
    && (k'.o.dec && k'.s.dec.trd == t ==> FetchPc(k'.s, t) == Inc(k'.s.dec.pc))
  }

  /** The thread in DEC is runnable exactly when its slot is there; or a bubble is
      fetched again at the thread's own address, and misses. */
  predicate StallKeepsWay(k: Pipe, i: Input) {
    if Runnable(k.s, k.s.dec.trd) then k.o.dec || (i.fetchMiss && k.s.dec.pc == FetchPc(k.s, k.s.dec.trd))
    else !k.o.dec
  }

  /** A stall leaves the way of the thread in DEC alone exactly then; with a hit that is
      the guard of the refinement. Otherwise the slot in DEC is skipped, when its
      thread is not runnable, or the address of a bubble is fetched although nobody
      has moved past it: when that is the thread's next address, its instruction is
      executed twice, and when it is another one, it comes out of turn. A thread that
      starts in this clock starts in any case. */
  lemma StallSkips(prog: Program, k: Pipe, i: Input)
    requires Inv(prog, k) && Stall(k.s)
    ensures var t := k.s.dec.trd; var k' := PipeStep(prog, k, i);
            if Starts(k.s, t) then PcFromDec(k', t) == k.s.wb.newPc && !k'.o.dec
            else
              && (WayKept(k, k') <==> StallKeepsWay(k, i))
              && (!i.fetchMiss ==> (WayKept(k, k') <==> StallKeepsSlot(k)))
              && (k.o.dec && !Runnable(k.s, t) ==> !k'.o.dec && FetchPc(k'.s, t) == Inc(k.s.dec.pc))
              && (!k.o.dec && Runnable(k.s, t) && !i.fetchMiss ==>
                    k'.o.dec && k'.s.dec == DecReg(t, k.s.dec.pc, prog(k.s.dec.pc), false)
                    && FetchPc(k'.s, t) == FetchPc(k.s, t))
  {
    if Starts(k.s, k.s.dec.trd) { StartedDec(prog, k, i); } else { StallPath(prog, k, i); }
  }

  lemma StallPath(prog: Program, k: Pipe, i: Input)
    requires Inv(prog, k) && Stall(k.s) && !Starts(k.s, k.s.dec.trd)
    ensures var t := k.s.dec.trd; var k' := PipeStep(prog, k, i);
            && (WayKept(k, k') <==> StallKeepsWay(k, i))
            && (!i.fetchMiss ==> (WayKept(k, k') <==> StallKeepsSlot(k)))
            && (k.o.dec && !Runnable(k.s, t) ==> !k'.o.dec && FetchPc(k'.s, t) == Inc(k.s.dec.pc))
            && (!k.o.dec && Runnable(k.s, t) && !i.fetchMiss ==>
                  k'.o.dec && k'.s.dec == DecReg(t, k.s.dec.pc, prog(k.s.dec.pc), false)
                  && FetchPc(k'.s, t) == FetchPc(k.s, t))
  {
    var t := k.s.dec.trd;
    StallStep(prog, k, i);
    StallFetches(prog, k, i);
    assert k.o.dec ==> FetchPc(k.s, t) == Inc(k.s.dec.pc) by { if k.o.dec { DecPath(prog, k); } }
    hide PipeStep, Stall, Runnable, Inv, Inc, Starts, IRd;
    assert Inc(k.s.dec.pc) != k.s.dec.pc by { IncMoves(k.s.dec.pc); }
  }

  /** The fetch of a stall. */
  lemma StallFetches(prog: Program, k: Pipe, i: Input)
    requires Inv(prog, k) && Stall(k.s)
    ensures var t := k.s.dec.trd; var k' := PipeStep(prog, k, i);
            && (IRd(k.s) <==> Runnable(k.s, t))
            && k'.o.dec == (Runnable(k.s, t) && !i.fetchMiss) && k'.s.dec.miss == (Runnable(k.s, t) && i.fetchMiss)
            && (k'.o.dec ==> k'.s.dec == DecReg(t, k.s.dec.pc, prog(k.s.dec.pc), false))
  {
    var s := k.s;
    assert Cur(s) == s.dec.trd && CurPc(s) == s.dec.pc && !FlushIF(s);
    hide Execute, Decode, CtlNext, ExeNext, MemNext, RfNext, WbNext, Forward, StallReq, Jmp, NewTrd, ExeInv, MemInv;
    hide Runnable;
  }

  lemma DecPath(prog: Program, k: Pipe)
    requires Inv(prog, k) && k.o.dec && Stall(k.s)
    ensures FetchPc(k.s, k.s.dec.trd) == Inc(k.s.dec.pc)
  {
    hide ExeInv, MemInv, LiveInv, WbInv, StallReq, Jmp;
  }

  lemma IncMoves(pc: Word)
    ensures Inc(pc) != pc
  {}

  lemma StartedDec(prog: Program, k: Pipe, i: Input)
    requires Inv(prog, k) && Stall(k.s) && Starts(k.s, k.s.dec.trd)
    ensures PcFromDec(PipeStep(prog, k, i), k.s.dec.trd) == k.s.wb.newPc && !PipeStep(prog, k, i).o.dec
  {
    NewSlot(k);
    BubblesIdle(prog, k);
    var t := k.s.dec.trd;
    hide Execute, Decode, FileNext, Forward, StallReq, NewTrd, Jmp, ExeInv, MemInv;
    assert Step(prog, k.s, i).ctl.csrs[t] == CsrNext(k.s, t);
    assert !Runnable(k.s, t);
  }
}
