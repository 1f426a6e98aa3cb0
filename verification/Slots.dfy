/** Conservation of fetch slots: the pipeline neither loses nor repeats nor
    reorders what was fetched, stalls included. */
module Slots {
  import opened Isa
  import opened Core
  import opened Refinement
  import opened Runs

  datatype Slot = Slot(trd: Tid, pc: Word)

  function InExe(k: Pipe): seq<Slot> { if k.o.ex then [Slot(k.s.ex.trd, k.s.ex.pc)] else [] }
  function InDec(k: Pipe): seq<Slot> { if k.o.dec then [Slot(k.s.dec.trd, k.s.dec.pc)] else [] }

  /** The slots that have been fetched and have yet to enter MEM, oldest first. */
  function InFlight(k: Pipe): seq<Slot> { InExe(k) + InDec(k) }

  function Entering(k: Pipe): seq<Slot> { if FlushEX(k.s) || Stall(k.s) then [] else InExe(k) }

  function Fetching(k: Pipe, i: Input): seq<Slot> {
    if !Stall(k.s) && IRd(k.s) && !i.fetchMiss then [Slot(Cur(k.s), CurPc(k.s))] else []
  }

  /** Slots thrown away: flushed by a jump or a miss, or missing when a stall
      fetches them again. */
  function Dropping(k: Pipe, i: Input): seq<Slot> {
    (if FlushEX(k.s) then InExe(k) else [])
    + (if FlushID(k.s) || (Stall(k.s) && i.fetchMiss) then InDec(k) else [])
  }

  function InMem(k: Pipe): seq<Slot> { if k.o.me then [Slot(k.s.me.trd, k.s.me.pc)] else [] }

  /** All slots that have been fetched and have yet to commit, oldest first. */
  function Pending(k: Pipe): seq<Slot> { InMem(k) + InFlight(k) }

  function Committing(k: Pipe, i: Input): seq<Slot> { if Commits(k, i) then InMem(k) else [] }

  // The same, collected over a run.
  function Entered(prog: Program, k: Pipe, ins: seq<Input>): seq<Slot>
    decreases |ins|
  {
    if ins == [] then [] else Entering(k) + Entered(prog, PipeStep(prog, k, ins[0]), ins[1..])
  }

  function AllFetched(prog: Program, k: Pipe, ins: seq<Input>): seq<Slot>
    decreases |ins|
  {
    if ins == [] then [] else Fetching(k, ins[0]) + AllFetched(prog, PipeStep(prog, k, ins[0]), ins[1..])
  }

  function Dropped(prog: Program, k: Pipe, ins: seq<Input>): seq<Slot>
    decreases |ins|
  {
    if ins == [] then [] else Dropping(k, ins[0]) + Dropped(prog, PipeStep(prog, k, ins[0]), ins[1..])
  }

  /** The slots that commit, in commit order. */
  function CommittedSlots(prog: Program, k: Pipe, ins: seq<Input>): seq<Slot>
    decreases |ins|
  {
    if ins == [] then []
    else Committing(k, ins[0]) + CommittedSlots(prog, PipeStep(prog, k, ins[0]), ins[1..])
  }

  function TrdsOf(slots: seq<Slot>): seq<Tid> {
    seq(|slots|, i requires 0 <= i < |slots| => slots[i].trd)
  }

  predicate StallsKeepSlots(prog: Program, k: Pipe, ins: seq<Input>)
    decreases |ins|
  {
    ins != [] ==> StallKeepsSlot(k) && StallsKeepSlots(prog, PipeStep(prog, k, ins[0]), ins[1..])
  }

  // --------------------------------------------------------------- subsequences

  /** a is what is left of b when some of its elements are taken out. */
  predicate Subseq(a: seq<Slot>, b: seq<Slot>)
    decreases |b|
  {
    a == [] || (b != [] && ((a[0] == b[0] && Subseq(a[1..], b[1..])) || Subseq(a, b[1..])))
  }

  lemma {:induction false} SubseqSame(a: seq<Slot>)
    ensures Subseq(a, a)
  {
    if a != [] { SubseqSame(a[1..]); }
  }

  lemma {:induction false} SubseqTail(a: seq<Slot>, b: seq<Slot>)
    requires a != [] && Subseq(a, b)
    ensures Subseq(a[1..], b)
    decreases |b|
  {
    if a[0] == b[0] && Subseq(a[1..], b[1..]) {
      if a[1..] != [] { assert b != []; }
    } else {
      SubseqTail(a, b[1..]);
    }
  }

  lemma {:induction false} SubseqCat(a: seq<Slot>, b: seq<Slot>, c: seq<Slot>, d: seq<Slot>)
    requires Subseq(a, b) && Subseq(c, d)
    ensures Subseq(a + c, b + d)
    decreases |b|
  {
    if b == [] {
      assert a + c == c && b + d == d;
    } else {
      assert (b + d)[1..] == b[1..] + d;
      if a == [] {
        SubseqCat(a, b[1..], c, d);
      } else if a[0] == b[0] && Subseq(a[1..], b[1..]) {
        assert (a + c)[1..] == a[1..] + c;
        SubseqCat(a[1..], b[1..], c, d);
      } else {
        SubseqCat(a, b[1..], c, d);
      }
    }
  }

  lemma {:induction false} SubseqTrans(a: seq<Slot>, b: seq<Slot>, c: seq<Slot>)
    requires Subseq(a, b) && Subseq(b, c)
    ensures Subseq(a, c)
    decreases |c|
  {
    if a != [] {
      if b[0] == c[0] && Subseq(b[1..], c[1..]) {
        if a[0] == b[0] && Subseq(a[1..], b[1..]) {
          SubseqTrans(a[1..], b[1..], c[1..]);
        } else {
          SubseqTrans(a, b[1..], c[1..]);
        }
      } else {
        SubseqTrans(a, b, c[1..]);
      }
    }
  }

  lemma Assoc(a: seq<Slot>, b: seq<Slot>, c: seq<Slot>)
    ensures a + (b + c) == (a + b) + c
  {}

  /** One clock and the rest of the run. */
  lemma SubseqChain(now: seq<Slot>, then': seq<Slot>, end: seq<Slot>, mid: seq<Slot>, start: seq<Slot>,
                    new': seq<Slot>, later: seq<Slot>)
    requires Subseq(now + mid, start + new') && Subseq(then' + end, mid + later)
    ensures Subseq((now + then') + end, start + (new' + later))
  {
    hide Subseq;
    SubseqSame(now);
    SubseqCat(now, now, then' + end, mid + later);
    SubseqSame(later);
    SubseqCat(now + mid, start + new', later, later);
    Assoc(now, then', end);
    Assoc(now, mid, later);
    Assoc(start, new', later);
    SubseqTrans(now + (then' + end), now + (mid + later), start + (new' + later));
  }

  lemma StagesMove(prog: Program, k: Pipe, i: Input)
    requires StallKeepsSlot(k)
    ensures var k' := PipeStep(prog, k, i);
            && InExe(k') == (if FlushID(k.s) then [] else if Stall(k.s) then InExe(k) else InDec(k))
            && InDec(k') == (if Stall(k.s) then (if i.fetchMiss then [] else InDec(k)) else Fetching(k, i))
    ensures Stall(k.s) ==> !FlushID(k.s) && !FlushEX(k.s)
  {
    hide Execute, Decode, Forward, FileNext, CtlNext, WbNext, StallReq, KillWb, SleepWb, Jmp, Cur, Runnable, CurPc;
  }

  /** In one clock: the slots entering MEM and those still on the way are the ones
      that were on the way and the one fetched, in the same order, without those
      dropped. */
  lemma ClockConserves(prog: Program, k: Pipe, i: Input)
    requires StallKeepsSlot(k)
    ensures var k' := PipeStep(prog, k, i);
            && multiset(Entering(k)) + multiset(InFlight(k')) + multiset(Dropping(k, i))
               == multiset(InFlight(k)) + multiset(Fetching(k, i))
            && Subseq(Entering(k) + InFlight(k'), InFlight(k) + Fetching(k, i))
            && InMem(k') == Entering(k)
  {
    StagesMove(prog, k, i);
    assert InMem(PipeStep(prog, k, i)) == Entering(k) by { hide Execute, Decode, FlushEX, Stall; }
    hide PipeStep, InExe, InDec, FlushID, FlushEX, Stall, IRd, Cur, CurPc, Subseq;
    assert Stall(k.s) ==> Fetching(k, i) == [];
    hide StallKeepsSlot, Fetching;
    Books(InExe(k), InDec(k), Fetching(k, i), Stall(k.s), FlushID(k.s), FlushEX(k.s), i.fetchMiss);
    Order(InExe(k), InDec(k), Fetching(k, i), Stall(k.s), FlushID(k.s), FlushEX(k.s), i.fetchMiss);
  }

  lemma Books(e: seq<Slot>, d: seq<Slot>, f: seq<Slot>, stall: bool, flushID: bool, flushEX: bool, miss: bool)
    requires stall ==> !flushID && !flushEX && f == []
    ensures var entering := if flushEX || stall then [] else e;
            var after := (if flushID then [] else if stall then e else d)
                         + (if stall then (if miss then [] else d) else f);
            var dropping := (if flushEX then e else []) + (if flushID || (stall && miss) then d else []);
            multiset(entering) + multiset(after) + multiset(dropping) == multiset(e + d) + multiset(f)
  {}

  lemma Order(e: seq<Slot>, d: seq<Slot>, f: seq<Slot>, stall: bool, flushID: bool, flushEX: bool, miss: bool)
    requires stall ==> !flushID && !flushEX && f == []
    ensures var entering := if flushEX || stall then [] else e;
            var after := (if flushID then [] else if stall then e else d)
                         + (if stall then (if miss then [] else d) else f);
            Subseq(entering + after, (e + d) + f)
  {
    hide Subseq;
    var e', d' := if flushEX then [] else e, if flushID || (stall && miss) then [] else d;
    InOrder(e, d, f, flushEX, flushID || (stall && miss));
    if stall {
      assert (e' + d') + f == [] + (e + d');
    } else {
      Assoc(e', d', f);
    }
  }

  lemma InOrder(e: seq<Slot>, d: seq<Slot>, f: seq<Slot>, noE: bool, noD: bool)
    ensures Subseq(((if noE then [] else e) + (if noD then [] else d)) + f, (e + d) + f)
  {
    hide Subseq;
    Less(e, noE);
    Less(d, noD);
    SubseqSame(f);
    SubseqCat(if noE then [] else e, e, if noD then [] else d, d);
    SubseqCat((if noE then [] else e) + (if noD then [] else d), e + d, f, f);
  }

  lemma Less(a: seq<Slot>, drop: bool)
    ensures Subseq(if drop then [] else a, a)
  {
    SubseqSame(a);
  }

  /** What is dropped was flushed by the write-back stage for its own thread, by a
      taken jump of its own thread, or missed when a stall fetched it again. */
  lemma DroppedByOwnThread(k: Pipe, i: Input, x: Slot)
    requires x in Dropping(k, i)
    ensures || (Squash(k.s) && x.trd == k.s.wb.trd)
            || (!Squash(k.s) && Jmp(k.s) && x.trd == k.s.ex.trd && x in InDec(k))
            || (Stall(k.s) && i.fetchMiss && x in InDec(k))
  {
    hide Jmp, StallReq, KillWb, SleepWb;
  }

  lemma Chain(a: multiset<Slot>, b: multiset<Slot>, d: multiset<Slot>, i: multiset<Slot>, f: multiset<Slot>,
              a': multiset<Slot>, b': multiset<Slot>, d': multiset<Slot>, f': multiset<Slot>)
    requires a + b + d == i + f && a' + b' + d' == b + f'
    ensures (a + a') + b' + (d + d') == i + (f + f')
  {
    forall x | x in (a + a') + b' + (d + d') || x in i + (f + f')
      ensures ((a + a') + b' + (d + d'))[x] == (i + (f + f'))[x]
    {
      assert (a + b + d)[x] == (i + f)[x] && (a' + b' + d')[x] == (b + f')[x];
    }
  }

  /** Every fetched slot enters MEM exactly once, is still in flight, or was
      dropped, and nothing else enters MEM. */
  lemma {:induction false} SlotsConserved(prog: Program, k: Pipe, ins: seq<Input>)
    requires StallsKeepSlots(prog, k, ins)
    ensures multiset(Entered(prog, k, ins)) + multiset(InFlight(PipeRun(prog, k, ins)))
            + multiset(Dropped(prog, k, ins))
            == multiset(InFlight(k)) + multiset(AllFetched(prog, k, ins))
    decreases |ins|
  {
    hide PipeStep, InFlight, Entering, Fetching, Dropping, StallKeepsSlot, Subseq, InMem;
    if ins != [] {
      var k' := PipeStep(prog, k, ins[0]);
      ClockConserves(prog, k, ins[0]);
      SlotsConserved(prog, k', ins[1..]);
      Chain(multiset(Entering(k)), multiset(InFlight(k')), multiset(Dropping(k, ins[0])),
            multiset(InFlight(k)), multiset(Fetching(k, ins[0])),
            multiset(Entered(prog, k', ins[1..])), multiset(InFlight(PipeRun(prog, k, ins))),
            multiset(Dropped(prog, k', ins[1..])), multiset(AllFetched(prog, k', ins[1..])));
    }
  }

  /** Slots enter MEM in fetch order, whatever is dropped on the way. This holds of
      every run, from every state, in which a stall keeps the slot in DEC. */
  lemma {:induction false} SlotsInOrder(prog: Program, k: Pipe, ins: seq<Input>)
    requires StallsKeepSlots(prog, k, ins)
    ensures Subseq(Entered(prog, k, ins) + InFlight(PipeRun(prog, k, ins)), InFlight(k) + AllFetched(prog, k, ins))
    decreases |ins|
  {
    hide PipeStep, InFlight, Entering, Fetching, Dropping, StallKeepsSlot, Subseq, InMem;
    if ins == [] {
      SubseqSame(InFlight(k));
      assert [] + InFlight(k) == InFlight(k) == InFlight(k) + [];
    } else {
      var k' := PipeStep(prog, k, ins[0]);
      ClockConserves(prog, k, ins[0]);
      SlotsInOrder(prog, k', ins[1..]);
      SubseqChain(Entering(k), Entered(prog, k', ins[1..]), InFlight(PipeRun(prog, k', ins[1..])), InFlight(k'),
                  InFlight(k), Fetching(k, ins[0]), AllFetched(prog, k', ins[1..]));
    }
  }

  // --------------------------------------------------------- commits in order

  lemma ClockCommits(prog: Program, k: Pipe, i: Input)
    requires StallKeepsSlot(k)
    ensures Subseq(Committing(k, i) + Pending(PipeStep(prog, k, i)), Pending(k) + Fetching(k, i))
  {
    var k' := PipeStep(prog, k, i);
    ClockConserves(prog, k, i);
    hide PipeStep, InFlight, Entering, Fetching, Subseq, InMem, Commits, StallKeepsSlot;
    Less(InMem(k), !Commits(k, i));
    SubseqCat(Committing(k, i), InMem(k), Entering(k) + InFlight(k'), InFlight(k) + Fetching(k, i));
    Assoc(InMem(k), InFlight(k), Fetching(k, i));
    Assoc(Committing(k, i), Entering(k), InFlight(k'));
    Assoc(Committing(k, i), InMem(k'), InFlight(k'));
  }

  /** Instructions commit in fetch order: what has committed, followed by what is
      pending, is what was pending followed by what was fetched, with the slots
      that were dropped or missed taken out. */
  lemma {:induction false} CommitsInFetchOrder(prog: Program, k: Pipe, ins: seq<Input>)
    requires StallsKeepSlots(prog, k, ins)
    ensures Subseq(CommittedSlots(prog, k, ins) + Pending(PipeRun(prog, k, ins)), Pending(k) + AllFetched(prog, k, ins))
    decreases |ins|
  {
    hide PipeStep, Pending, Committing, Fetching, StallKeepsSlot, Subseq;
    if ins == [] {
      SubseqSame(Pending(k));
      assert [] + Pending(k) == Pending(k) == Pending(k) + [];
    } else {
      var k' := PipeStep(prog, k, ins[0]);
      ClockCommits(prog, k, ins[0]);
      CommitsInFetchOrder(prog, k', ins[1..]);
      SubseqChain(Committing(k, ins[0]), CommittedSlots(prog, k', ins[1..]), Pending(PipeRun(prog, k', ins[1..])),
                  Pending(k'), Pending(k), Fetching(k, ins[0]), AllFetched(prog, k', ins[1..]));
    }
  }

  /** The committed threads of the refinement are those of these slots. */
  lemma {:induction false} CommittedAreSlots(prog: Program, k: Pipe, ins: seq<Input>)
    ensures Committed(prog, k, ins) == TrdsOf(CommittedSlots(prog, k, ins))
    decreases |ins|
  {
    hide PipeStep, Commits;
    if ins != [] {
      var k' := PipeStep(prog, k, ins[0]);
      CommittedAreSlots(prog, k', ins[1..]);
      var now, later := Committing(k, ins[0]), CommittedSlots(prog, k', ins[1..]);
      assert Commits(k, ins[0]) ==> k.o.me by { CommitsFromMem(k, ins[0]); }
      assert TrdsOf(now + later) == TrdsOf(now) + TrdsOf(later);
    }
  }

  lemma CommitsFromMem(k: Pipe, i: Input)
    ensures Commits(k, i) ==> k.o.me
  {}

  lemma {:induction false} CleanStalls(prog: Program, k: Pipe, ins: seq<Input>)
    requires CleanRun(prog, k, ins)
    ensures StallsKeepSlots(prog, k, ins)
    decreases |ins|
  {
    hide PipeStep, StallKeepsSlot;
    if ins != [] {
      CleanStalls(prog, PipeStep(prog, k, ins[0]), ins[1..]);
    }
  }

  lemma ResetPending(prog: Program, first: Input)
    ensures Pending(PipeStep(prog, ResetPipe(), first)) == []
  {
    FirstClock(prog, first);
    hide PipeStep, ResetPipe, Inv, Abs;
  }

  /** The refinement in terms of what was fetched: from reset, the result of a clean
      run is that of executing, one at a time and in fetch order, the fetched
      instructions without those that were flushed or missed. */
  lemma FetchOrderRefines(prog: Program, first: Input, ins: seq<Input>)
    requires OrdinaryProgram(prog) && CleanRun(prog, PipeStep(prog, ResetPipe(), first), ins)
    ensures var k := PipeStep(prog, ResetPipe(), first);
            var done := CommittedSlots(prog, k, ins);
            && Abs(PipeRun(prog, k, ins)) == SeqRun(prog, ResetArch(), TrdsOf(done))
            && Subseq(done + Pending(PipeRun(prog, k, ins)), AllFetched(prog, k, ins))
  {
    var k := PipeStep(prog, ResetPipe(), first);
    ResetPending(prog, first);
    hide Clean, CleanRun, CommittedSlots, AllFetched, Committed, PipeRun, SeqRun, StallsKeepSlots, TrdsOf;
    hide PipeStep, Pending, Subseq, OrdinaryProgram, Inv, Abs, ResetPipe, ResetArch;
    CleanStalls(prog, k, ins);
    CommitsInFetchOrder(prog, k, ins);
    CommittedAreSlots(prog, k, ins);
    ResetRunRefines(prog, first, ins);
    assert Pending(k) + AllFetched(prog, k, ins) == AllFetched(prog, k, ins);
  }

  // ----------------------------------------------------- what a stall fetches

  /** The thread pointer's copies of the slot in DEC. */
  predicate Echoes(s: Core) { s.ctl.last == s.dec.trd && s.ctl.lastPc == s.dec.pc }

  /** They are right in every reachable state of every program, so that a stall
      fetches exactly the slot in DEC. */
  lemma {:induction false} LastIsDec(prog: Program, s: Core, ins: seq<Input>)
    requires Echoes(s)
    ensures Echoes(Run(prog, s, ins))
    ensures var e := Run(prog, s, ins); Stall(e) ==> Cur(e) == e.dec.trd && CurPc(e) == e.dec.pc
    ensures Echoes(ResetState())
    decreases |ins|
  {
    hide Stall, Step;
    if ins != [] {
      EchoStep(prog, s, ins[0]);
      LastIsDec(prog, Step(prog, s, ins[0]), ins[1..]);
    }
  }

  lemma EchoStep(prog: Program, s: Core, i: Input)
    requires Echoes(s)
    ensures Echoes(Step(prog, s, i))
  {
    hide Stall, Atomic;
  }

  // ------------------------------------------------------- when a stall skips

  predicate Stops(c: Ctrl) { c.trdOp == Sleep || c.trdOp == Kill }

  /** Nothing in flight stops a thread, and the thread of a slot in DEC is awake. */
  predicate Unstopped(k: Pipe) {
    var s := k.s;
    && Echoes(s) && !Stops(Decode(s.dec.ins)) && !Stops(s.ex.c)
    && s.me.trdOp != Sleep && s.me.trdOp != Kill && s.wb.trdOp != Sleep && s.wb.trdOp != Kill
    && (k.o.dec ==> !s.dec.miss && s.ctl.csrs[s.dec.trd].running && s.dec.trd !in s.ctl.wait)
  }

  lemma UnstoppedStages(prog: Program, k: Pipe, i: Input)
    requires Unstopped(k) && forall pc: Word :: !Stops(Decode(prog(pc)))
    ensures var s := Step(prog, k.s, i);
            && !Stops(Decode(s.dec.ins)) && !Stops(s.ex.c)
            && s.me.trdOp != Sleep && s.me.trdOp != Kill && s.wb.trdOp != Sleep && s.wb.trdOp != Kill
  {
    IdleWord();
    hide Decode, Execute, Stall, Squash, IRd, CurPc, RfNext, CtlNext, FlushID, FlushEX, FlushMEM;
  }

  lemma UnstoppedSlot(prog: Program, k: Pipe, i: Input)
    requires Unstopped(k)
    ensures var k' := PipeStep(prog, k, i); var s := k'.s;
            k'.o.dec ==> !s.dec.miss && s.ctl.csrs[s.dec.trd].running && s.dec.trd !in s.ctl.wait
  {
    var s, t := k.s, Cur(k.s);
    hide Decode, Execute, Jmp, StallReq, PcWr, NxtPc, RfNext, ExeNext, MemNext, WbNext, MemoryNext, NewTrd;
    hide Scheduler.Next;
    assert Step(prog, s, i).ctl.csrs[t] == CsrNext(s, t);
  }

  lemma {:induction false} UnstoppedRun(prog: Program, k: Pipe, ins: seq<Input>)
    requires Unstopped(k) && forall pc: Word :: !Stops(Decode(prog(pc)))
    ensures Unstopped(PipeRun(prog, k, ins))
    decreases |ins|
  {
    hide Step, Stops, Decode;
    if ins != [] {
      EchoStep(prog, k.s, ins[0]);
      UnstoppedStages(prog, k, ins[0]);
      UnstoppedSlot(prog, k, ins[0]);
      UnstoppedRun(prog, PipeStep(prog, k, ins[0]), ins[1..]);
    }
  }

  /** From reset, in a program without `slp` and `kill`, a stall never finds the thread
      of a slot in DEC asleep or backing off, so that it never skips an instruction. */
  lemma SkipNeedsStop(prog: Program, ins: seq<Input>)
    requires forall pc: Word :: !Stops(Decode(prog(pc)))
    ensures var k := PipeRun(prog, ResetPipe(), ins); Stall(k.s) && k.o.dec ==> Runnable(k.s, k.s.dec.trd)
  {
    hide PipeRun, Stall, Runnable, ResetPipe, Unstopped, Stops, Decode;
    ResetUnstopped();
    UnstoppedRun(prog, ResetPipe(), ins);
    var k := PipeRun(prog, ResetPipe(), ins);
    if Stall(k.s) && k.o.dec { StallFindsAwake(k); }
  }

  lemma ResetUnstopped()
    ensures Unstopped(ResetPipe())
  {
    IdleWord();
    hide Decode, InitBank;
  }

  lemma StallFindsAwake(k: Pipe)
    requires Unstopped(k) && Stall(k.s) && k.o.dec
    ensures Runnable(k.s, k.s.dec.trd)
  {
    hide Decode, Jmp, StallReq;
  }
}
