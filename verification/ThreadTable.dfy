/** The life of threads: the table of thread registers over whole runs with any
    thread operations and misses, thread creation across the modules it touches,
    and the back-off after a miss. */
module ThreadTable {
  import opened Isa
  import opened Core
  import Scheduler

  // -------------------------------------------------------------- safety

  predicate TableInv(s: Core) {
    && s.ctl.delay < 64
    && forall t: Tid :: s.ctl.csrs[t].running ==> s.ctl.csrs[t].valid
  }

  lemma TableInvKept(prog: Program, s: Core, i: Input)
    requires TableInv(s)
    ensures TableInv(Step(prog, s, i))
  {
    hide PcWr, NxtPc, ObjTrd;
    forall t: Tid ensures Step(prog, s, i).ctl.csrs[t] == CsrNext(s, t) {}
  }

  /** In every reachable state, whatever the program and the misses: a fetch is
      issued only for a thread that is valid, awake, not backing off and not
      missing. */
  lemma {:induction false} FetchIsSafe(prog: Program, s: Core, ins: seq<Input>)
    requires TableInv(s)
    ensures TableInv(Run(prog, s, ins))
    ensures var e := Run(prog, s, ins); IRd(e) ==>
              var c := Cur(e);
              e.ctl.csrs[c].valid && e.ctl.csrs[c].running && c !in e.ctl.wait && c !in TrdMiss(e)
    decreases |ins|
  {
    hide Step, FlushIF;
    if ins != [] {
      TableInvKept(prog, s, ins[0]);
      FetchIsSafe(prog, Step(prog, s, ins[0]), ins[1..]);
    }
  }

  /** `child_p` */
  function Children(csrs: Csrs, p: nat): set<nat> {
    set t: nat | t < 8 && csrs[t].valid && csrs[t].par == p
  }

  /** The child sets partition the valid threads. */
  lemma ChildrenPartition(csrs: Csrs, t: nat)
    requires t < 8
    ensures csrs[t].valid <==> exists p: Tid :: t in Children(csrs, p)
    ensures forall p: Tid, q: Tid :: t in Children(csrs, p) && t in Children(csrs, q) ==> p == q
  {
    if csrs[t].valid { assert t in Children(csrs, csrs[t].par); }
  }

  /** The error wires of thread_csr.sv and thread_ctrl.sv. */
  predicate CsrError(s: Core, t: Tid) {
    || (ObjTrd(s) == t && !HasAuthority(s.ctl.csrs[t], t, s.wb.trd) && (SleepWb(s) || KillWb(s)))
    || (Init(s) && ObjTrd(s) == t && s.ctl.csrs[t].valid)
  }
  predicate InvalidOp(s: Core) { exists t: Tid :: CsrError(s, t) }
  predicate Error(s: Core) { TrdFull(s.ctl.csrs) && Init(s) }

  /** Creating a thread lands on a live slot exactly when the table is full, and
      that is exactly when both error wires report it. */
  lemma InitOverwritesExactlyWhenFull(s: Core)
    requires Init(s)
    ensures s.ctl.csrs[ObjTrd(s)].valid <==> TrdFull(s.ctl.csrs)
    ensures Error(s) <==> TrdFull(s.ctl.csrs)
    ensures !SleepWb(s) && !KillWb(s) ==> (InvalidOp(s) <==> TrdFull(s.ctl.csrs))
    ensures TrdFull(s.ctl.csrs) ==> InvalidOp(s)
  {
    FreeFromIsLowest(s.ctl.csrs, 0);
    assert CsrError(s, ObjTrd(s)) || !TrdFull(s.ctl.csrs);
  }

  predicate SameLife(a: Csr, b: Csr) { a.valid == b.valid && a.running == b.running && a.par == b.par }

  /** The thread a thread operation in write-back names. */
  function Named(s: Core): Tid { s.wb.newPc % 8 }

  /** What `wk`, `slp` and `kill` do to the thread they name: anybody wakes a valid
      thread; only the thread itself and its parent put it to sleep, or end it, if it is
      valid; whatever else is asked for has no effect, and nobody else is touched. */
  lemma ManagesNamed(prog: Program, s: Core, i: Input, t: Tid)
    requires !Init(s) && (WakeWb(s) || SleepWb(s) || KillWb(s))
    ensures var c := s.ctl.csrs[t]; var c' := Step(prog, s, i).ctl.csrs[t]; var act := s.wb.trd;
            && c'.par == c.par
            && (t != Named(s) ==> SameLife(c, c'))
            && (t == Named(s) && s.wb.trdOp == Wake ==>
                  c'.valid == c.valid && c'.running == (c.running || c.valid))
            && (t == Named(s) && s.wb.trdOp == Sleep ==>
                  c'.valid == c.valid && c'.running == (c.running && act != t && act != c.par))
            && (t == Named(s) && s.wb.trdOp == Kill ==>
                  if c.valid && (act == t || act == c.par) then !c'.valid && !c'.running else SameLife(c, c'))
  {
    hide PcWr, NxtPc;
    assert Step(prog, s, i).ctl.csrs[t] == CsrNext(s, t);
  }

  /** From EXE to that clock: the operand a thread operation has in EXE names its object. */
  lemma OperationFromExe(prog: Program, s: Core, i0: Input, i1: Input)
    requires s.ex.c.trdOp != NoOp && !FlushEX(s) && !Stall(s) && !FlushMEM(Step(prog, s, i0))
    ensures var w := Step(prog, Step(prog, s, i0), i1);
            w.wb.trdOp == s.ex.c.trdOp && w.wb.trd == s.ex.trd && Named(w) == FwdA(s) % 8
  {
    hide CtlNext, DecNext, ExeNext, RfNext, MemoryNext, Forward, Execute;
  }

  /** With no thread operation in write-back nobody's life changes. */
  lemma LivesOn(prog: Program, s: Core, i: Input, t: Tid)
    requires s.wb.trdOp == NoOp && !s.ctl.rstInit
    ensures SameLife(s.ctl.csrs[t], Step(prog, s, i).ctl.csrs[t])
  {
    hide PcWr, NxtPc;
    assert Step(prog, s, i).ctl.csrs[t] == CsrNext(s, t);
  }

  /** A thread is stopped only by itself or its parent. */
  lemma OnlyAuthorityStops(prog: Program, s: Core, i: Input, t: Tid)
    requires var c := s.ctl.csrs[t]; var c' := Step(prog, s, i).ctl.csrs[t];
             (c.valid && !c'.valid) || (c.running && !c'.running)
    ensures ObjTrd(s) == t && HasAuthority(s.ctl.csrs[t], t, s.wb.trd)
    ensures KillWb(s) || SleepWb(s)
  {
    hide PcWr, NxtPc;
    assert Step(prog, s, i).ctl.csrs[t] == CsrNext(s, t);
  }

  /** Along the run no thread is created in a full table and the root stays valid. */
  predicate RootHolds(prog: Program, s: Core, ins: seq<Input>)
    decreases |ins|
  {
    && s.ctl.csrs[0].valid
    && (ins != [] ==> !(Init(s) && TrdFull(s.ctl.csrs)) && RootHolds(prog, Step(prog, s, ins[0]), ins[1..]))
  }

  /** Then the root remains its own parent, so that in any later clock only the
      root can put itself to sleep or kill itself. */
  lemma {:induction false} OnlyRootStopsRoot(prog: Program, s: Core, ins: seq<Input>, i: Input)
    requires RootHolds(prog, s, ins) && s.ctl.csrs[0].par == 0
    ensures var e := Run(prog, s, ins);
            && e.ctl.csrs[0].par == 0
            && (e.ctl.csrs[0].running && !Step(prog, e, i).ctl.csrs[0].running ==> e.wb.trd == 0)
            && (!Step(prog, e, i).ctl.csrs[0].valid ==> e.wb.trd == 0)
    decreases |ins|
  {
    hide PcWr, NxtPc;
    if ins == [] {
      assert Step(prog, s, i).ctl.csrs[0] == CsrNext(s, 0);
    } else {
      FreeFromIsLowest(s.ctl.csrs, 0);
      var s' := Step(prog, s, ins[0]);
      assert s'.ctl.csrs[0] == CsrNext(s, 0);
      OnlyRootStopsRoot(prog, s', ins[1..], i);
    }
  }

  // -------------------------------------------------------------- creation

  /** What a clock with `nt` in write-back has done: slot n is the lowest free
      one, it runs thread n from scratch, the parent's destination register holds
      n, and nobody else's life or registers have changed. */
  predicate Created(s: Core, s': Core, n: Tid) {
    var parent := s.wb.trd;
    && n != 0 && !s.ctl.csrs[n].valid && (forall u | 0 <= u < n :: s.ctl.csrs[u].valid)
    && s'.ctl.csrs[n] == Csr(true, true, parent, s.wb.newPc)
    && s'.rf.files[n].data == [0, n, StackTop(n), StackTop(n), s.wb.newData] + seq(27, _ => 0)
    && s'.rf.files[parent].data == (if s.wb.wrEn && s.wb.rd > 1 then s.rf.files[parent].data[s.wb.rd := n]
                                    else s.rf.files[parent].data)
    && (forall u: Tid | u != n :: SameLife(s.ctl.csrs[u], s'.ctl.csrs[u]))
    && (forall u: Tid | u != n && u != parent :: s'.rf.files[u].data == s.rf.files[u].data)
  }

  predicate Creates(s: Core) {
    && InitWb(s) && !s.wb.miss && !TrdFull(s.ctl.csrs)
    && s.ctl.csrs[0].valid && s.ctl.csrs[s.wb.trd].valid
  }

  lemma CreateFile(prog: Program, s: Core, i: Input, u: Tid)
    requires Creates(s)
    ensures var n := NewTrd(s.ctl.csrs); var f := Step(prog, s, i).rf.files[u].data;
            f == (if u == n then InitBank(n, s.wb.newData)
                  else if u == s.wb.trd && s.wb.wrEn && s.wb.rd > 1 then s.rf.files[u].data[s.wb.rd := n]
                  else s.rf.files[u].data)
  {
    hide Decode, InitBank, CtlNext, DecNext, ExeNext, MemNext, WbNext;
    FreeFromIsLowest(s.ctl.csrs, 0);
  }

  lemma CreateCsr(prog: Program, s: Core, i: Input, u: Tid)
    requires Creates(s)
    ensures var n := NewTrd(s.ctl.csrs); var c := Step(prog, s, i).ctl.csrs[u];
            if u == n then c == Csr(true, true, s.wb.trd, s.wb.newPc) else SameLife(s.ctl.csrs[u], c)
  {
    hide PcWr, NxtPc, DecNext, ExeNext, MemNext, WbNext, RfNext;
    FreeFromIsLowest(s.ctl.csrs, 0);
  }

  lemma CreateThread(prog: Program, s: Core, i: Input)
    requires Creates(s)
    ensures Created(s, Step(prog, s, i), NewTrd(s.ctl.csrs))
  {
    FreeFromIsLowest(s.ctl.csrs, 0);
    forall u: Tid { CreateFile(prog, s, i, u); }
    forall u: Tid { CreateCsr(prog, s, i, u); }
    hide Step, SameLife, FreeFrom;
  }

  /** From EXE to the new thread: the operands `nt` has in EXE are the child's
      start address and its r4 three clocks later. */
  lemma CreateFromExe(prog: Program, s: Core, i0: Input, i1: Input, i2: Input)
    requires s.ex.c.trdOp == Create && !FlushEX(s) && !Stall(s)
    requires !FlushMEM(Step(prog, s, i0))
    requires var w := Step(prog, Step(prog, s, i0), i1);
             !w.wb.miss && !TrdFull(w.ctl.csrs) && w.ctl.csrs[0].valid && w.ctl.csrs[s.ex.trd].valid
    ensures var w := Step(prog, Step(prog, s, i0), i1); var e := Step(prog, w, i2);
            var n := NewTrd(w.ctl.csrs);
            && Created(w, e, n) && w.wb.trd == s.ex.trd && w.wb.rd == s.ex.c.rd
            && e.ctl.csrs[n].pc == FwdA(s) && e.rf.files[n].data[4] == FwdB(s)
  {
    var w := Step(prog, Step(prog, s, i0), i1);
    hide CtlNext, DecNext, ExeNext, RfNext, MemoryNext, Forward, Execute;
    assert InitWb(w);
    CreateThread(prog, w, i2);
  }

  /** The stacks grow down from the tops that the registers r2 and r3 of a thread start
      with, to these ends. */
  const STACK_ENDS: seq<Word> :=
    [0x0001_0E00, 0x0001_0D00, 0x0001_0C00, 0x0001_0B00, 0x0001_0A00, 0x0001_0900, 0x0001_0800, 0x0001_0700]

  /** The root has 512 words, every other thread 256, and no word belongs to two threads:
      below the end of a stack the next one begins. */
  lemma StacksApart(t: Tid, arg: Word)
    ensures InitBank(t, arg)[2] == InitBank(t, arg)[3] == STACK_ENDS[t] + (if t == 0 then 0x200 else 0x100) - 1
    ensures t > 0 ==> STACK_ENDS[t - 1] == StackTop(t) + 1
    ensures InitBank(t, arg)[0] == 0 && InitBank(t, arg)[1] == t && InitBank(t, arg)[4] == arg
  {}

  // -------------------------------------------------------------- back-off

  lemma WaitStep(prog: Program, s: Core, i: Input, t: Tid)
    requires s.ctl.delay < 64 && t !in TrdMiss(s)
    ensures var s' := Step(prog, s, i);
            && s'.ctl.delay == (if s.ctl.delay == 63 then 0 else s.ctl.delay + 1)
            && (t !in s.ctl.wait || s.ctl.delay == 0 ==> t !in s'.ctl.wait)
  {
    hide Cur, CurPc, CsrNext, RunTrd;
  }

  /** Thread t is awake and has no miss, in every clock of the run. */
  predicate Undisturbed(prog: Program, s: Core, ins: seq<Input>, t: Tid)
    decreases |ins|
  {
    && s.ctl.csrs[t].running && t !in TrdMiss(s)
    && (ins != [] ==> Undisturbed(prog, Step(prog, s, ins[0]), ins[1..], t))
  }

  /** The clocks until the free-running counter has released the waiting threads. */
  function ReleaseIn(delay: nat): nat
    requires delay < 64
  {
    if delay == 0 then 1 else 65 - delay
  }

  lemma {:induction false} WaitEnds(prog: Program, s: Core, ins: seq<Input>, t: Tid)
    requires s.ctl.delay < 64 && Undisturbed(prog, s, ins, t)
    requires t !in s.ctl.wait || |ins| >= ReleaseIn(s.ctl.delay)
    ensures t !in Run(prog, s, ins).ctl.wait && Runnable(Run(prog, s, ins), t)
    decreases |ins|
  {
    hide Step, TrdMiss;
    if ins != [] {
      WaitStep(prog, s, ins[0], t);
      WaitEnds(prog, Step(prog, s, ins[0]), ins[1..], t);
    }
  }

  /** Who waits after a clock: whoever waited or missed, unless the counter stood at 0. */
  lemma WaitExact(prog: Program, s: Core, i: Input, t: Tid)
    ensures t in Step(prog, s, i).ctl.wait <==> s.ctl.delay != 0 && (t in s.ctl.wait || Misses(s, t))
  {
    hide Cur, CurPc, CsrNext, RunTrd;
  }

  /** The fetch of the thread in DEC, or the access of the one in WB, has missed. */
  predicate Misses(s: Core, t: Tid) { (s.dec.miss && s.dec.trd == t) || (s.wb.miss && s.wb.trd == t) }

  /** A thread that has missed is not runnable until the counter wraps, however long that
      takes and whatever happens to it meanwhile. */
  lemma {:induction false} WaitLasts(prog: Program, s: Core, ins: seq<Input>, t: Tid)
    requires s.ctl.delay < 64 && (t in s.ctl.wait || Misses(s, t)) && |ins| < ReleaseIn(s.ctl.delay)
    ensures !Runnable(Run(prog, s, ins), t)
    decreases |ins|
  {
    hide Step;
    if ins != [] {
      WaitExact(prog, s, ins[0], t);
      DelayTurns(prog, s, ins[0]);
      WaitLasts(prog, Step(prog, s, ins[0]), ins[1..], t);
    }
  }

  lemma DelayTurns(prog: Program, s: Core, i: Input)
    requires s.ctl.delay < 64
    ensures Step(prog, s, i).ctl.delay == if s.ctl.delay == 63 then 0 else s.ctl.delay + 1
  {
    hide Cur, CurPc, CsrNext, RunTrd;
  }

  /** The run as the thread pointer sees it. */
  function Clocks(prog: Program, s: Core, ins: seq<Input>): (cs: seq<Scheduler.Clock>)
    ensures |cs| == |ins|
    decreases |ins|
  {
    if ins == [] then []
    else [Scheduler.Clock(Hold(s), RunTrd(s))] + Clocks(prog, Step(prog, s, ins[0]), ins[1..])
  }

  /** The threads the core points at, clock by clock. */
  function Pointed(prog: Program, s: Core, ins: seq<Input>): seq<nat>
    decreases |ins|
  {
    if ins == [] then [] else [Cur(s)] + Pointed(prog, Step(prog, s, ins[0]), ins[1..])
  }

  lemma {:induction false} PointedIsFetched(prog: Program, s: Core, ins: seq<Input>)
    ensures Pointed(prog, s, ins)
         == Scheduler.Fetched(8, Scheduler.Pointer(s.ctl.last, s.ctl.tmp), Clocks(prog, s, ins))
    decreases |ins|
  {
    hide Stall, Runnable;
    if ins != [] {
      var s' := Step(prog, s, ins[0]);
      PointedIsFetched(prog, s', ins[1..]);
      assert Clocks(prog, s, ins)[1..] == Clocks(prog, s', ins[1..]);
      assert Scheduler.Advance(8, Scheduler.Pointer(s.ctl.last, s.ctl.tmp), Clocks(prog, s, ins)[0])
          == Scheduler.Pointer(s'.ctl.last, s'.ctl.tmp);
    }
  }

  lemma {:induction false} StaysRunnable(prog: Program, s: Core, ins: seq<Input>, t: Tid)
    requires s.ctl.delay < 64 && Undisturbed(prog, s, ins, t) && t !in s.ctl.wait
    ensures forall j | 0 <= j < |ins| :: t in Clocks(prog, s, ins)[j].run
    decreases |ins|
  {
    hide Step, TrdMiss;
    if ins != [] {
      WaitStep(prog, s, ins[0], t);
      assert Runnable(s, t);
      StaysRunnable(prog, Step(prog, s, ins[0]), ins[1..], t);
    }
  }

  lemma {:induction false} UndisturbedSplit(prog: Program, s: Core, a: seq<Input>, b: seq<Input>, t: Tid)
    requires Undisturbed(prog, s, a + b, t)
    ensures Undisturbed(prog, s, a, t) && Undisturbed(prog, Run(prog, s, a), b, t)
    decreases |a|
  {
    hide Step, TrdMiss;
    if a == [] {
      assert a + b == b;
    } else {
      assert (a + b)[0] == a[0] && (a + b)[1..] == a[1..] + b;
      UndisturbedSplit(prog, Step(prog, s, a[0]), a[1..], b, t);
    }
  }

  lemma {:induction false} DelayBounded(prog: Program, s: Core, ins: seq<Input>)
    requires s.ctl.delay < 64
    ensures Run(prog, s, ins).ctl.delay < 64
    decreases |ins|
  {
    if ins != [] { DelayBounded(prog, Step(prog, s, ins[0]), ins[1..]); }
  }

  /** After a miss a thread that stays awake is runnable again within 64 clocks,
      and current within eight un-held clocks more, whatever the others do. */
  lemma BackOffIsBounded(prog: Program, s: Core, wait: seq<Input>, more: seq<Input>, t: Tid)
    requires s.ctl.delay < 64 && Undisturbed(prog, s, wait + more, t)
    requires |wait| >= 64 && Scheduler.UnHeld(Clocks(prog, Run(prog, s, wait), more)) >= 8
    ensures Runnable(Run(prog, s, wait), t)
    ensures t in Pointed(prog, Run(prog, s, wait), more)
  {
    hide Step, TrdMiss, Cur, Hold;
    UndisturbedSplit(prog, s, wait, more, t);
    WaitEnds(prog, s, wait, t);
    DelayBounded(prog, s, wait);
    var e := Run(prog, s, wait);
    StaysRunnable(prog, e, more, t);
    PointedIsFetched(prog, e, more);
    Scheduler.BoundedWaiting(8, Scheduler.Pointer(e.ctl.last, e.ctl.tmp), Clocks(prog, e, more), t);
  }
}
