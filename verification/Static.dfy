/** Programs that are correct on this pipeline whatever the schedule: a check of
    each instruction and its successor replaces all the guards of the refinement
    that depend on the run, except that the memories must hit and that threads
    must not be created in a full table. */
module Static {
  import opened Isa
  import opened Core
  import opened Refinement
  import opened Runs

  predicate Names(c: Ctrl, r: Reg) { c.ra == r || c.rb == r }

  /** No instruction writes r0 or r1, and the result of a load or of a thread
      creation is not named by the next instruction. */
  predicate Scheduled(prog: Program) {
    forall pc: Word :: ScheduledAt(Decode(prog(pc)), Decode(prog(Inc(pc))))
  }

  predicate ScheduledAt(c: Ctrl, next: Ctrl) {
    && (c.wrEn ==> c.rd > 1)
    && (c.wbSel || c.trdOp == Create ==> !Names(next, c.rd))
  }

  predicate StaticInv(prog: Program, k: Pipe) {
    Inv(prog, k) && NoMiss(k) && (k.s.wb.wrEn ==> k.s.wb.rd > 1)
  }

  /** What MEM and EXE hold of one thread are neighbours in the program. */
  lemma Neighbours(prog: Program, k: Pipe)
    requires StaticInv(prog, k) && k.o.me && k.o.ex && k.s.me.trd == k.s.ex.trd
    requires Decode(prog(k.s.me.pc)).jump == NoJump
    ensures k.s.ex.pc == Inc(k.s.me.pc) && k.s.ex.c == Decode(prog(Inc(k.s.me.pc)))
  {
    hide Decode, Alu, Target;
  }

  lemma NothingStalls(prog: Program, k: Pipe)
    requires StaticInv(prog, k) && Scheduled(prog)
    ensures k.s.me.wrEn ==> k.s.me.rd > 1
    ensures (k.s.me.wrEn && k.s.me.wbSel) || k.s.me.trdOp == Create ==>
              !(k.s.me.trd == k.s.ex.trd && Names(k.s.ex.c, k.s.me.rd))
    ensures !StallReq(k.s)
  {
    IdleWord();
    var c := Decode(prog(k.s.me.pc));
    assert ScheduledAt(c, Decode(prog(Inc(k.s.me.pc))));
    LoadsReadMemory(prog(k.s.me.pc));
    MemoryNeverJumps(prog(k.s.me.pc));
    if k.o.me && k.o.ex && k.s.me.trd == k.s.ex.trd && c.jump == NoJump { Neighbours(prog, k); }
    hide Decode, Inc, MemOut, DecInv, WbInv, LiveInv;
  }

  lemma StaticClean(prog: Program, k: Pipe)
    requires StaticInv(prog, k) && Scheduled(prog) && !Overflows(k)
    ensures Clean(k)
  {
    NothingStalls(prog, k);
    assert forall r: Reg :: Reads(k.s.ex.c, r) ==> Names(k.s.ex.c, r);
    hide Decode, Execute, Overflows, Reads, Names, Jmp, IRd, StallReq, Inv, Scheduled;
  }

  lemma StaticInvKept(prog: Program, k: Pipe, i: Input)
    requires StaticInv(prog, k) && OrdinaryProgram(prog) && Scheduled(prog) && !Overflows(k)
    requires NoMiss(PipeStep(prog, k, i))
    ensures StaticInv(prog, PipeStep(prog, k, i))
  {
    StaticClean(prog, k);
    NothingStalls(prog, k);
    InvKept(prog, k, i);
    hide Inv, Clean, CtlNext, ExeNext, MemNext, RfNext, Decode, Scheduled;
  }

  lemma HitsMissNothing(prog: Program, k: Pipe, i: Input)
    requires !i.fetchMiss && !i.accessMiss
    ensures NoMiss(PipeStep(prog, k, i))
  {
    hide CtlNext, ExeNext, MemNext, RfNext, IRd, FlushMEM;
  }

  /** Along the run no thread is created when all eight slots are taken. */
  predicate NeverOverflows(prog: Program, k: Pipe, ins: seq<Input>)
    decreases |ins|
  {
    ins != [] ==> !Overflows(k) && NeverOverflows(prog, PipeStep(prog, k, ins[0]), ins[1..])
  }

  lemma {:induction false} StaticRunClean(prog: Program, k: Pipe, ins: seq<Input>)
    requires StaticInv(prog, k) && OrdinaryProgram(prog) && Scheduled(prog)
    requires Hits(ins) && NeverOverflows(prog, k, ins)
    ensures CleanRun(prog, k, ins)
    decreases |ins|
  {
    hide StaticInv, PipeStep, OrdinaryProgram, Scheduled, Clean, Overflows, NoMiss;
    if ins != [] {
      StaticClean(prog, k);
      HitsMissNothing(prog, k, ins[0]);
      StaticInvKept(prog, k, ins[0]);
      StaticRunClean(prog, PipeStep(prog, k, ins[0]), ins[1..]);
    }
  }

  /** From reset, a scheduled program runs on the pipeline as on the one-at-a-time
      machine, whatever threads it creates and however they interleave. */
  lemma ScheduledRefines(prog: Program, first: Input, ins: seq<Input>)
    requires OrdinaryProgram(prog) && Scheduled(prog) && Hits(ins)
    requires NeverOverflows(prog, PipeStep(prog, ResetPipe(), first), ins)
    ensures var k := PipeStep(prog, ResetPipe(), first);
            Abs(PipeRun(prog, k, ins)) == SeqRun(prog, ResetArch(), Committed(prog, k, ins))
  {
    var k := PipeStep(prog, ResetPipe(), first);
    FirstClock(prog, first);
    assert StaticInv(prog, k) by { ResetQuiet(prog, first); }
    hide Inv, StaticInv, Scheduled, OrdinaryProgram, PipeStep, ResetPipe, ResetArch, Abs;
    StaticRunClean(prog, k, ins);
    RunRefines(prog, k, ins);
  }

  lemma ResetQuiet(prog: Program, i: Input)
    ensures var k := PipeStep(prog, ResetPipe(), i); NoMiss(k) && !k.s.wb.wrEn
  {
    hide Alu, Target, Forward;
    IdleWord();
    var s := ResetState();
    assert !Jmp(s) && !Squash(s) && !StallReq(s) && !IRd(s);
  }
}
