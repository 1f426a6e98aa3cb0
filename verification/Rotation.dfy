/** What the project promises of fine-grained multithreading: with two threads
    in rotation no instruction ever waits for a load, with three no jump flushes
    a slot and an instruction commits in every clock, and the result is that of
    running the threads in strict rotation, one instruction at a time. */
module Rotation {
  import opened Isa
  import opened Core
  import opened Refinement
  import opened Runs
  import opened Static
  import Scheduler

  /** An instruction that is not atomic, manages no threads, and does not write
      r0 or r1. */
  predicate Good(ins: Word) {
    var c := Decode(ins);
    !AtomicBit(ins) && Plain(c) && (c.wrEn ==> c.rd > 1)
  }

  /** Only such instructions are in flight. */
  predicate Calm(k: Pipe) {
    && Good(k.s.dec.ins)
    && k.s.ex.c.trdOp == NoOp && (k.s.ex.c.wrEn ==> k.s.ex.c.rd > 1)
    && k.s.me.trdOp == NoOp && (k.s.me.wrEn ==> k.s.me.rd > 1)
    && k.s.wb.trdOp == NoOp && (k.s.wb.wrEn ==> k.s.wb.rd > 1)
  }

  lemma CalmNoClash(k: Pipe)
    requires Calm(k)
    ensures !BypassClash(k) && !ForwardClash(k) && !CreateForward(k) && !Overflows(k)
  {
    hide Good, Decode, Reads;
  }

  lemma CalmKept(prog: Program, k: Pipe, i: Input)
    requires Calm(k) && Good(PipeStep(prog, k, i).s.dec.ins)
    ensures Calm(PipeStep(prog, k, i))
  {
    IdleWord();
    hide Execute, Decode, DecNext, CtlNext, RfNext, Forward, Stall;
  }

  /** Exactly the threads in run are runnable, whatever others sleep or back off,
      and none of them is missing. */
  predicate Awake(k: Pipe, run: set<nat>) {
    && NoMiss(k)
    && run == set t: nat | t < 8 && k.s.ctl.csrs[t].running && t !in k.s.ctl.wait
  }

  function After(t: Tid, run: set<nat>): Tid { Scheduler.Next(8, t, run) }

  /** Neighbouring slots follow the rotation. */
  predicate Rotates(k: Pipe, run: set<nat>) {
    && k.s.ctl.tmp == After(k.s.ctl.last, run)
    && (k.o.ex ==> k.s.dec.trd == After(k.s.ex.trd, run))
    && (k.o.ex && k.o.me ==> k.s.ex.trd == After(k.s.me.trd, run))
  }

  predicate RotInv(prog: Program, k: Pipe, run: set<nat>) {
    Inv(prog, k) && Calm(k) && Awake(k, run) && Rotates(k, run)
  }

  lemma RunIsAwake(k: Pipe, run: set<nat>)
    requires Awake(k, run)
    ensures RunTrd(k.s) == run && forall t | t in run :: t < 8
  {}

  /** Two threads in rotation are enough: the instruction behind a load belongs to
      another thread, so that no instruction in EXE requests a load-use stall. (A
      load of r0 can still request one over a bubble.) */
  lemma TwoThreadsNeverStall(prog: Program, k: Pipe, run: set<nat>)
    requires Inv(prog, k) && Rotates(k, run) && |run| >= 2 && forall t | t in run :: t < 8
    ensures StallReq(k.s) ==> !k.o.ex && k.s.me.rd == 0
  {
    Scheduler.NeighboursDiffer(8, k.s.me.trd, run);
    hide Execute, Decode, Forward;
    IdleWord();
    BubblesIdle(prog, k);
  }

  /** With r0 and r1 left alone and nothing atomic the pointer moves in every clock. */
  lemma PointerMoves(prog: Program, k: Pipe, run: set<nat>)
    requires RotInv(prog, k, run) && |run| >= 2
    ensures !StallReq(k.s) && !Hold(k.s)
    ensures Cur(k.s) == After(k.s.dec.trd, run)
  {
    RunIsAwake(k, run);
    TwoThreadsNeverStall(prog, k, run);
    hide Execute, Decode, Forward, StallReq;
    assert StallReq(k.s) ==> k.s.me.wrEn by { StallNeedsLoad(k.s); }
  }

  lemma StallNeedsLoad(s: Core)
    ensures StallReq(s) ==> s.me.wrEn
  {}

  lemma TwoThreadsClean(prog: Program, k: Pipe, run: set<nat>)
    requires OrdinaryProgram(prog) && RotInv(prog, k, run) && |run| >= 2
    ensures Clean(k)
  {
    PointerMoves(prog, k, run);
    CalmNoClash(k);
    hide Execute, Decode, Forward, Jmp, IRd;
    assert Reads(k.s.ex.c, k.s.me.rd) ==> k.s.ex.c.ra == k.s.me.rd || k.s.ex.c.rb == k.s.me.rd;
  }

  /** The runnable set stays what it is while nothing misses, until the back-off
      counter wraps round beside a thread that is awake and waiting. */
  lemma AwakeKept(prog: Program, k: Pipe, i: Input, run: set<nat>)
    requires Inv(prog, k) && Calm(k) && Awake(k, run) && !i.fetchMiss && !i.accessMiss
    requires k.s.ctl.delay != 0 || forall t: Tid :: k.s.ctl.csrs[t].running ==> t !in k.s.ctl.wait
    ensures Awake(PipeStep(prog, k, i), run)
  {
    hide Execute, Decode, Forward, FileNext, ExeNext, MemNext, PcWr, NxtPc;
    BubblesIdle(prog, k);
    var k' := PipeStep(prog, k, i);
    forall t: Tid ensures k'.s.ctl.csrs[t].running == k.s.ctl.csrs[t].running {
      assert k'.s.ctl.csrs[t] == CsrNext(k.s, t);
    }
  }

  /** Along the run the runnable set does not change, and only good instructions are
      fetched. */
  predicate SteadyRun(prog: Program, k: Pipe, ins: seq<Input>, run: set<nat>)
    decreases |ins|
  {
    Good(k.s.dec.ins) && Awake(k, run) && (ins != [] ==> SteadyRun(prog, PipeStep(prog, k, ins[0]), ins[1..], run))
  }

  lemma RotInvKept(prog: Program, k: Pipe, i: Input, run: set<nat>)
    requires OrdinaryProgram(prog) && RotInv(prog, k, run) && |run| >= 2
    requires Good(PipeStep(prog, k, i).s.dec.ins) && Awake(PipeStep(prog, k, i), run)
    ensures RotInv(prog, PipeStep(prog, k, i), run)
  {
    TwoThreadsClean(prog, k, run);
    PointerMoves(prog, k, run);
    InvKept(prog, k, i);
    RunIsAwake(k, run);
    CalmKept(prog, k, i);
    hide Execute, Decode, Forward, FileNext, WbNext, CsrNext, ExeInv, MemInv, Calm, Awake, Jmp;
  }

  /** A program of good instructions, with hits and nobody waiting, has no other
      runs. */
  lemma {:induction false} GoodProgramIsSteady(prog: Program, k: Pipe, ins: seq<Input>, run: set<nat>)
    requires OrdinaryProgram(prog) && RotInv(prog, k, run) && |run| >= 2 && Hits(ins) && k.s.ctl.wait == {}
    requires forall pc: Word :: Good(prog(pc))
    ensures SteadyRun(prog, k, ins, run)
    decreases |ins|
  {
    hide RotInv, OrdinaryProgram, Good, PipeStep, Awake;
    assert Good(k.s.dec.ins) && Awake(k, run) by { RotIsCalm(prog, k, run); }
    if ins != [] {
      SteadyStep(prog, k, ins[0], run);
      GoodProgramIsSteady(prog, PipeStep(prog, k, ins[0]), ins[1..], run);
    }
  }

  lemma RotIsCalm(prog: Program, k: Pipe, run: set<nat>)
    requires RotInv(prog, k, run)
    ensures Good(k.s.dec.ins) && Awake(k, run)
  {
    hide Good, Awake, Inv;
  }

  lemma SteadyStep(prog: Program, k: Pipe, i: Input, run: set<nat>)
    requires OrdinaryProgram(prog) && RotInv(prog, k, run) && |run| >= 2 && k.s.ctl.wait == {}
    requires !i.fetchMiss && !i.accessMiss && forall pc: Word :: Good(prog(pc))
    ensures RotInv(prog, PipeStep(prog, k, i), run) && PipeStep(prog, k, i).s.ctl.wait == {}
  {
    GoodFetch(prog, k, i);
    AwakeKept(prog, k, i, run);
    hide Good, PipeStep, Inv, Calm, Awake, Rotates, OrdinaryProgram;
    RotInvKept(prog, k, i, run);
  }

  lemma GoodFetch(prog: Program, k: Pipe, i: Input)
    requires (forall pc: Word :: Good(prog(pc))) && k.s.ctl.wait == {} && NoMiss(k)
    ensures Good(PipeStep(prog, k, i).s.dec.ins) && PipeStep(prog, k, i).s.ctl.wait == {}
  {
    IdleWord();
    hide Decode, ExeNext, MemNext, RfNext, WbNext, Cur, IRd, CsrNext, CurPc, RunTrd;
  }

  lemma {:induction false} RunStaysClean(prog: Program, k: Pipe, ins: seq<Input>, run: set<nat>)
    requires OrdinaryProgram(prog) && RotInv(prog, k, run) && |run| >= 2 && SteadyRun(prog, k, ins, run)
    ensures CleanRun(prog, k, ins) && RotInv(prog, PipeRun(prog, k, ins), run)
    decreases |ins|
  {
    hide Clean, RotInv, PipeStep, OrdinaryProgram, Awake, Good;
    if ins != [] {
      TwoThreadsClean(prog, k, run);
      RotInvKept(prog, k, ins[0], run);
      RunStaysClean(prog, PipeStep(prog, k, ins[0]), ins[1..], run);
    }
  }

  /** Two or more threads in rotation: the pipeline is the one-at-a-time machine,
      with no condition left on the run. */
  lemma TwoThreadsRefine(prog: Program, k: Pipe, ins: seq<Input>, run: set<nat>)
    requires OrdinaryProgram(prog) && RotInv(prog, k, run) && |run| >= 2 && SteadyRun(prog, k, ins, run)
    ensures Abs(PipeRun(prog, k, ins)) == SeqRun(prog, Abs(k), Committed(prog, k, ins))
  {
    RunStaysClean(prog, k, ins, run);
    hide Inv, CleanRun, Abs, PipeRun, SeqRun, Committed, Calm, Awake, Rotates, OrdinaryProgram;
    RunRefines(prog, k, ins);
  }

  /** Three runnable threads are enough: a taken jump meets slots of other
      threads only, nothing is flushed, and every clock fetches. */
  lemma ThreeThreadsNeverFlush(prog: Program, k: Pipe, i: Input, run: set<nat>)
    requires OrdinaryProgram(prog) && RotInv(prog, k, run) && |run| >= 3
    ensures !FlushIF(k.s) && !FlushID(k.s) && !FlushEX(k.s) && !FlushMEM(k.s) && IRd(k.s)
    ensures NoMiss(PipeStep(prog, k, i)) ==> PipeStep(prog, k, i).o == Occ(true, k.o.dec, k.o.ex, k.o.me)
  {
    PointerMoves(prog, k, run);
    RunIsAwake(k, run);
    BubblesIdle(prog, k);
    Scheduler.NeighboursDiffer(8, k.s.ex.trd, run);
    var u :| u in run;
    Scheduler.NextIsNearest(8, k.s.dec.trd, run, u);
    hide Execute, Decode, Forward, ExeInv, MemInv, Awake, Jmp, StallReq;
    assert Runnable(k.s, Cur(k.s)) by { assert Cur(k.s) in RunTrd(k.s); }
  }

  predicate Full(k: Pipe) { k.o.dec && k.o.ex && k.o.me }

  /** The pipeline fills in three clocks. */
  lemma FillsInThree(prog: Program, k: Pipe, a: Input, b: Input, c: Input, run: set<nat>)
    requires OrdinaryProgram(prog) && RotInv(prog, k, run) && |run| >= 3 && SteadyRun(prog, k, [a, b, c], run)
    ensures Full(PipeRun(prog, k, [a, b, c])) && RotInv(prog, PipeRun(prog, k, [a, b, c]), run)
  {
    hide RotInv, OrdinaryProgram, PipeStep, Good, SteadyRun, PipeRun;
    var k1 := PipeStep(prog, k, a);
    var k2 := PipeStep(prog, k1, b);
    Unfold3(prog, k, a, b, c, run);
    ThreeThreadsNeverFlush(prog, k, a, run);
    RotInvKept(prog, k, a, run);
    ThreeThreadsNeverFlush(prog, k1, b, run);
    RotInvKept(prog, k1, b, run);
    ThreeThreadsNeverFlush(prog, k2, c, run);
    RotInvKept(prog, k2, c, run);
  }

  lemma Unfold3(prog: Program, k: Pipe, a: Input, b: Input, c: Input, run: set<nat>)
    requires SteadyRun(prog, k, [a, b, c], run)
    ensures var k1 := PipeStep(prog, k, a); var k2 := PipeStep(prog, k1, b); var k3 := PipeStep(prog, k2, c);
            && PipeRun(prog, k, [a, b, c]) == k3
            && Good(k1.s.dec.ins) && Good(k2.s.dec.ins) && Good(k3.s.dec.ins)
            && Awake(k1, run) && Awake(k2, run) && Awake(k3, run)
  {
    hide PipeStep, Good, Awake;
    var k1 := PipeStep(prog, k, a);
    var k2 := PipeStep(prog, k1, b);
    assert [a, b, c][1..] == [b, c] && [b, c][1..] == [c] && [c][1..] == [];
    assert SteadyRun(prog, k1, [b, c], run) && PipeRun(prog, k, [a, b, c]) == PipeRun(prog, k1, [b, c]);
    assert SteadyRun(prog, k2, [c], run) && PipeRun(prog, k1, [b, c]) == PipeRun(prog, k2, [c]);
    assert PipeRun(prog, k2, [c]) == PipeRun(prog, PipeStep(prog, k2, c), []);
    assert SteadyRun(prog, PipeStep(prog, k2, c), [], run);
  }

  /** n turns of the rotation, from thread t on. */
  function RoundRobin(t: Tid, run: set<nat>, n: nat): (ts: seq<Tid>)
    ensures |ts| == n
    decreases n
  {
    if n == 0 then [] else [t] + RoundRobin(After(t, run), run, n - 1)
  }

  lemma FullClock(prog: Program, k: Pipe, i: Input, run: set<nat>)
    requires OrdinaryProgram(prog) && RotInv(prog, k, run) && |run| >= 3
    requires Full(k) && NoMiss(PipeStep(prog, k, i))
    ensures var k' := PipeStep(prog, k, i);
            Commits(k, i) && Full(k') && k'.s.me.trd == After(k.s.me.trd, run)
  {
    PointerMoves(prog, k, run);
    ThreeThreadsNeverFlush(prog, k, i, run);
    hide OrdinaryProgram, Inv, Execute, Decode, Forward, WbNext, CtlNext, DecNext, ExeNext, RfNext, After;
  }

  /** A full pipeline commits in every clock, thread by thread in rotation. */
  lemma {:induction false} CommitsEveryClock(prog: Program, k: Pipe, ins: seq<Input>, run: set<nat>)
    requires OrdinaryProgram(prog) && RotInv(prog, k, run) && |run| >= 3 && Full(k)
    requires SteadyRun(prog, k, ins, run)
    ensures Committed(prog, k, ins) == RoundRobin(k.s.me.trd, run, |ins|)
    decreases |ins|
  {
    hide RotInv, OrdinaryProgram, PipeStep, Full, After, Commits, Good;
    if ins != [] {
      FullClock(prog, k, ins[0], run);
      RotInvKept(prog, k, ins[0], run);
      CommitsEveryClock(prog, PipeStep(prog, k, ins[0]), ins[1..], run);
    }
  }

  /** The project's promise: three or more threads in rotation run at one
      instruction per clock, and n clocks do exactly what n turns of strict
      round robin do on the one-at-a-time machine. */
  lemma OneInstructionPerClock(prog: Program, k: Pipe, ins: seq<Input>, run: set<nat>)
    requires OrdinaryProgram(prog) && RotInv(prog, k, run) && |run| >= 3 && Full(k)
    requires SteadyRun(prog, k, ins, run)
    ensures Abs(PipeRun(prog, k, ins)) == SeqRun(prog, Abs(k), RoundRobin(k.s.me.trd, run, |ins|))
  {
    CommitsEveryClock(prog, k, ins, run);
    TwoThreadsRefine(prog, k, ins, run);
  }

  // ------------------------------------------------------- coming into rotation

  predicate PointerTurns(k: Pipe, run: set<nat>) { k.s.ctl.tmp == After(k.s.ctl.last, run) }

  predicate FrontTurns(k: Pipe, run: set<nat>) {
    PointerTurns(k, run) && (k.o.ex ==> k.s.dec.trd == After(k.s.ex.trd, run))
  }

  predicate Settles(prog: Program, k: Pipe, run: set<nat>) {
    StaticInv(prog, k) && Calm(k) && Awake(k, run)
  }

  /** Each clock brings one more stage into step. */
  lemma TurnStep(prog: Program, k: Pipe, i: Input, run: set<nat>)
    requires OrdinaryProgram(prog) && Scheduled(prog) && Settles(prog, k, run)
    requires Good(PipeStep(prog, k, i).s.dec.ins) && Awake(PipeStep(prog, k, i), run)
    ensures var k' := PipeStep(prog, k, i);
            && Settles(prog, k', run) && PointerTurns(k', run)
            && (PointerTurns(k, run) ==> FrontTurns(k', run))
            && (FrontTurns(k, run) ==> Rotates(k', run))
  {
    NothingStalls(prog, k);
    CalmNoClash(k);
    StaticInvKept(prog, k, i);
    CalmKept(prog, k, i);
    RunIsAwake(k, run);
    hide Execute, Decode, Forward, FileNext, WbNext, CsrNext, Jmp, StallReq;
    hide ExeInv, MemInv, LiveInv, WbInv, Calm, Awake, Scheduled;
    assert !Hold(k.s) by { CalmIsFree(k); }
  }

  lemma CalmIsFree(k: Pipe)
    requires Calm(k)
    ensures !Atomic(k.s)
  {
    hide Decode;
  }

  /** Three clocks after the set of runnable threads last changed, a scheduled program
      is in rotation, however the threads came to be created. */
  lemma EntersRotation(prog: Program, k: Pipe, a: Input, b: Input, c: Input, run: set<nat>)
    requires OrdinaryProgram(prog) && Scheduled(prog) && Settles(prog, k, run)
    requires SteadyRun(prog, k, [a, b, c], run)
    ensures RotInv(prog, PipeRun(prog, k, [a, b, c]), run)
  {
    Unfold3(prog, k, a, b, c, run);
    hide OrdinaryProgram, Scheduled, PipeStep, PipeRun, Good, SteadyRun, Inv, Calm, Awake;
    hide PointerTurns, FrontTurns, Rotates;
    var k1 := PipeStep(prog, k, a);
    var k2 := PipeStep(prog, k1, b);
    TurnStep(prog, k, a, run);
    TurnStep(prog, k1, b, run);
    TurnStep(prog, k2, c, run);
  }
}
