/** Refinement over whole runs, from reset on. */
module Runs {
  import opened Isa
  import opened Core
  import opened Refinement

  function PipeRun(prog: Program, k: Pipe, ins: seq<Input>): Pipe
    decreases |ins|
  {
    if ins == [] then k else PipeRun(prog, PipeStep(prog, k, ins[0]), ins[1..])
  }

  /** The threads whose instructions commit, in commit order. */
  function Committed(prog: Program, k: Pipe, ins: seq<Input>): seq<Tid>
    decreases |ins|
  {
    if ins == [] then []
    else (if Commits(k, ins[0]) then [k.s.me.trd] else []) + Committed(prog, PipeStep(prog, k, ins[0]), ins[1..])
  }

  predicate CleanRun(prog: Program, k: Pipe, ins: seq<Input>)
    decreases |ins|
  {
    ins != [] ==> Clean(k) && CleanRun(prog, PipeStep(prog, k, ins[0]), ins[1..])
  }

  lemma {:induction false} SeqRunCons(prog: Program, m: Arch, t: Tid, ts: seq<Tid>)
    ensures SeqRun(prog, m, [t] + ts) == SeqRun(prog, SeqStep(prog, m, t), ts)
  {
    hide SeqStep;
    assert ([t] + ts)[1..] == ts;
  }

  /** For every program and every schedule of fetches, holds, stalls, flushes and
      misses that stays clear of the guards, the registers, the memory and the
      thread table are those of executing the committed instructions one
      at a time, in commit order. */
  lemma {:induction false} RunRefines(prog: Program, k: Pipe, ins: seq<Input>)
    requires Inv(prog, k) && OrdinaryProgram(prog) && CleanRun(prog, k, ins)
    ensures Inv(prog, PipeRun(prog, k, ins))
    ensures Abs(PipeRun(prog, k, ins)) == SeqRun(prog, Abs(k), Committed(prog, k, ins))
    decreases |ins|
  {
    hide Inv, Abs, SeqStep, Commits, PipeStep;
    if ins != [] {
      var k' := PipeStep(prog, k, ins[0]);
      InvKept(prog, k, ins[0]);
      ClockRefines(prog, k, ins[0]);
      RunRefines(prog, k', ins[1..]);
      var rest := Committed(prog, k', ins[1..]);
      if Commits(k, ins[0]) {
        SeqRunCons(prog, Abs(k), k.s.me.trd, rest);
      } else {
        assert [] + rest == rest;
      }
    }
  }

  // ------------------------------------------------------------------ reset

  const EMPTY := Occ(false, false, false, false)

  function ResetPipe(): Pipe { Pipe(ResetState(), EMPTY) }

  function ResetArch(): Arch {
    Arch(seq(8, t requires 0 <= t < 8 => InitBank(t, 0)), map[],
         [Csr(true, true, 0, START_PC)] + seq(7, _ => Csr(false, false, 0, START_PC)))
  }

  lemma ResetWires()
    ensures var s := ResetState();
            && !Jmp(s) && !Squash(s) && !StallReq(s) && !Stall(s) && Init(s) && ObjTrd(s) == 0 && !InitWb(s)
            && Cur(s) == 0 && CurPc(s) == START_PC && !IRd(s) && TrdMiss(s) == {}
  {
    hide Alu, Target, Forward;
    IdleWord();
  }

  lemma FirstTable(t: Tid)
    ensures CsrNext(ResetState(), t) == ResetArch().threads[t]
  {
    ResetWires();
    hide Jmp, Squash, StallReq, Stall, Init, ObjTrd, Cur, CurPc, IRd, ExeOut;
  }

  lemma FirstRegs(t: Tid)
    ensures FileNext(ResetState(), t).data == InitBank(t, 0)
  {
    ResetWires();
    hide Squash, InitBank, Decode;
  }

  /** The first clock after reset starts thread 0 and nothing else. */
  lemma FirstClock(prog: Program, i: Input)
    ensures var k := PipeStep(prog, ResetPipe(), i);
            Inv(prog, k) && Abs(k) == ResetArch() && k.o == EMPTY
  {
    FirstInv(prog, i);
    FirstAbs(prog, i);
  }

  lemma FirstStages(prog: Program, i: Input)
    ensures var k := PipeStep(prog, ResetPipe(), i);
            && k.o == EMPTY && k.s.dec == DecReg(0, START_PC, 0, false) && k.s.ex == ExeReg(0, 0, 0, Decode(0))
            && !k.s.me.wrEn && !k.s.me.memRd && !k.s.me.memWr && k.s.me.trdOp == NoOp && k.s.me.trd == 0
            && k.s.wb == NO_WB && k.s.mem == map[]
            && k.s.ctl.last == 0 && k.s.ctl.lastPc == START_PC && !k.s.ctl.rstInit
  {
    ResetWires();
    IdleWord();
    hide Jmp, StallReq, Stall, Init, ObjTrd, Cur, CurPc, IRd, CsrNext, FileNext, Execute, Forward;
  }

  lemma FirstInv(prog: Program, i: Input)
    ensures Inv(prog, PipeStep(prog, ResetPipe(), i))
  {
    FirstStages(prog, i);
    forall t: Tid { FirstTable(t); }
    var k := PipeStep(prog, ResetPipe(), i);
    assert forall t: Tid :: k.s.ctl.csrs[t] == CsrNext(ResetState(), t);
    hide Decode, Step, OccNext, CsrNext;
  }

  lemma FirstAbs(prog: Program, i: Input)
    ensures Abs(PipeStep(prog, ResetPipe(), i)) == ResetArch()
  {
    FirstStages(prog, i);
    var k := PipeStep(prog, ResetPipe(), i);
    forall t: Tid ensures ThreadOf(k, t) == ResetArch().threads[t] && Regs(k.s)[t] == InitBank(t, 0) {
      FirstTable(t);
      FirstRegs(t);
      assert k.s.ctl.csrs[t] == CsrNext(ResetState(), t) && k.s.rf.files[t] == FileNext(ResetState(), t);
      hide Step, OccNext, CsrNext, FileNext;
    }
    hide Step, OccNext;
    assert Abs(k).regs == ResetArch().regs;
    assert Abs(k).threads == ResetArch().threads;
  }

  /** From reset, every clean run, with all the threads it creates, is a run of
      the one-at-a-time machine from its initial state. */
  lemma ResetRunRefines(prog: Program, first: Input, ins: seq<Input>)
    requires OrdinaryProgram(prog) && CleanRun(prog, PipeStep(prog, ResetPipe(), first), ins)
    ensures var k := PipeStep(prog, ResetPipe(), first);
            Abs(PipeRun(prog, k, ins)) == SeqRun(prog, ResetArch(), Committed(prog, k, ins))
  {
    FirstClock(prog, first);
    RunRefines(prog, PipeStep(prog, ResetPipe(), first), ins);
  }

  /** Once WB has nothing to write, what was proved of the committed registers
      holds of the register files themselves. */
  lemma QuietIsPhysical(k: Pipe, t: Tid)
    requires (!k.s.wb.wrEn || k.s.wb.miss || k.s.wb.rd <= 1) && k.s.wb.trdOp != Create
    ensures Abs(k).regs[t] == k.s.rf.files[t].data && Abs(k).mem == k.s.mem
  {}

  predicate Hits(ins: seq<Input>) {
    forall j | 0 <= j < |ins| :: !ins[j].fetchMiss && !ins[j].accessMiss
  }

  predicate NoMiss(k: Pipe) { !k.s.dec.miss && !k.s.wb.miss }
}
