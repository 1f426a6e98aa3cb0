/** The pipeline refines a machine that executes one instruction at a time.
    An instruction commits when it leaves MEM without a miss; whatever is in
    flight, stalled, flushed or replayed in between, and whatever threads are
    created, the committed registers, memory, PCs and thread table are those of
    the one-at-a-time machine. */
module Refinement {
  import opened Isa
  import opened Core

  // ------------------------------------------------- the one-at-a-time machine

  const ZERO: Bank := seq(32, _ => 0)
  const ZERO_BANKS: seq<Bank> := [ZERO, ZERO, ZERO, ZERO, ZERO, ZERO, ZERO, ZERO]
  type Banks = s: seq<Bank> | |s| == 8 witness ZERO_BANKS
  type Pcs = s: seq<Word> | |s| == 8 witness seq(8, _ => 0)

  /** Registers and memory, and of each thread its life and its PC. */
  datatype Arch = Arch(regs: Banks, mem: Memory, threads: Csrs)

  /** Writes to r0 and r1 are dropped. */
  function Written(regs: Banks, t: Tid, rd: Reg, v: Word): Banks {
    if rd > 1 then regs[t := regs[t][rd := v]] else regs
  }

  /** Thread t executes the instruction at its PC. A new thread n starts at the
      address in the first operand, with the second one as its argument. */
  function SeqStep(prog: Program, m: Arch, t: Tid): Arch {
    var pc := m.threads[t].pc;
    var c := Decode(prog(pc));
    var a, b := m.regs[t][c.ra], m.regs[t][c.rb];
    var o := Execute(c, pc, a, b);
    var n := NewTrd(m.threads);
    var value := if c.trdOp == Create then n else if c.wbSel then Load(m.mem, o.addr) else o.data;
    var regs := if c.wrEn then Written(m.regs, t, c.rd, value) else m.regs;
    var threads := m.threads[t := m.threads[t].(pc := NextPc(o, pc))];
    Arch(if c.trdOp == Create then regs[n := InitBank(n, b)] else regs,
         if c.memWr then m.mem[o.addr := o.data] else m.mem,
         if c.trdOp == Create then threads[n := Csr(true, true, t, a)] else threads)
  }

  function SeqRun(prog: Program, m: Arch, ts: seq<Tid>): Arch
    decreases |ts|
  {
    if ts == [] then m else SeqRun(prog, SeqStep(prog, m, ts[0]), ts[1..])
  }

  // --------------------------------------------------------- slots in flight

  /** Which stages hold a fetched instruction rather than a bubble. */
  datatype Occ = Occ(dec: bool, ex: bool, me: bool, wb: bool)

  datatype Pipe = Pipe(s: Core, o: Occ)

  function OccNext(s: Core, o: Occ, i: Input): Occ {
    Occ(IRd(s) && !i.fetchMiss,
        if FlushID(s) then false else if Stall(s) then o.ex else o.dec,
        o.ex && !FlushEX(s) && !Stall(s),
        o.me && !FlushMEM(s))
  }

  function PipeStep(prog: Program, k: Pipe, i: Input): Pipe {
    Pipe(Step(prog, k.s, i), OccNext(k.s, k.o, i))
  }

  /** The instruction in MEM commits in this clock. */
  predicate Commits(k: Pipe, i: Input) {
    k.o.me && !FlushMEM(k.s) && !((k.s.me.memRd || k.s.me.memWr) && i.accessMiss)
  }

  // ------------------------------------------------------- the abstraction

  /** Thread t is being rolled back to the access of it that missed. */
  predicate Replays(s: Core, t: Tid) { s.wb.miss && s.wb.trd == t }

  /** The register files with the write that is in WB, and with the registers of
      the thread that WB is about to create. */
  function Regs(s: Core): Banks {
    var files := seq(8, t requires 0 <= t < 8 => s.rf.files[t].data);
    var regs := if s.wb.wrEn && !s.wb.miss then Written(files, s.wb.trd, s.wb.rd, WbData(s)) else files;
    if InitWb(s) then regs[NewTrd(s.ctl.csrs) := InitBank(NewTrd(s.ctl.csrs), s.wb.newData)] else regs
  }

  /** The PC thread t fetches from next. */
  function FetchPc(s: Core, t: Tid): Word {
    if s.dec.miss && s.dec.trd == t then s.dec.pc else s.ctl.csrs[t].pc
  }

  // PC of the oldest slot of t in DEC; in DEC and EXE; in DEC, EXE and MEM
  function PcFromDec(k: Pipe, t: Tid): Word {
    if k.o.dec && k.s.dec.trd == t then k.s.dec.pc else FetchPc(k.s, t)
  }
  function PcFromExe(k: Pipe, t: Tid): Word {
    if k.o.ex && k.s.ex.trd == t then k.s.ex.pc else PcFromDec(k, t)
  }
  function PcFromMem(k: Pipe, t: Tid): Word {
    if k.o.me && k.s.me.trd == t then k.s.me.pc else PcFromExe(k, t)
  }

  function CommitPc(k: Pipe, t: Tid): Word {
    if Replays(k.s, t) then k.s.wb.pc else PcFromMem(k, t)
  }

  /** WB is about to create thread t. */
  predicate Starts(s: Core, t: Tid) { InitWb(s) && NewTrd(s.ctl.csrs) == t }

  function ThreadOf(k: Pipe, t: Tid): Csr {
    if Starts(k.s, t) then Csr(true, true, k.s.wb.trd, k.s.wb.newPc)
    else k.s.ctl.csrs[t].(pc := CommitPc(k, t))
  }

  function Threads(k: Pipe): Csrs { seq(8, t requires 0 <= t < 8 => ThreadOf(k, t)) }

  function Abs(k: Pipe): Arch { Arch(Regs(k.s), k.s.mem, Threads(k)) }

  // -------------------------------------------------------- the invariant

  predicate Conditional(c: Ctrl) { c.jump == IfEqual || c.jump == IfLess || c.jump == IfNotEqual }
  predicate Calculates(c: Ctrl) { c.jump == NoJump && (c.wrEn || c.memWr) }

  /** Does what an instruction does depend on its first, second operand? */
  predicate ReadsA(c: Ctrl) {
    || Conditional(c) || c.jump == Absolute
    || (Calculates(c) && !(c.iType && (c.aluOp == SHLT || c.aluOp == SHRT)))
  }

  predicate ReadsB(c: Ctrl) {
    || Conditional(c)
    || (Calculates(c) && (|| c.memWr
                          || (c.iType && c.aluOp == SHRT)
                          || (!c.iType && c.aluOp in {ADD, AND, OR, XOR})))
  }

  /** Two outcomes that agree on everything the instruction goes on to use. */
  predicate Alike(c: Ctrl, pc: Word, o: Outcome, o': Outcome) {
    && (c.wrEn || c.memWr ==> o.data == o'.data)
    && (c.memRd || c.memWr ==> o.addr == o'.addr)
    && o.taken == o'.taken && NextPc(o, pc) == NextPc(o', pc)
  }

  lemma MemoryNeverJumps(ins: Word)
    ensures var c := Decode(ins); c.memRd || c.memWr ==> c.jump == NoJump && (c.wrEn || c.memWr)
  {}

  lemma AluReads(c: Ctrl, a: Word, b: Word, a': Word, b': Word)
    requires (c.iType && (c.aluOp == SHLT || c.aluOp == SHRT)) || a == a'
    requires (c.iType && c.aluOp == SHRT) || (!c.iType && c.aluOp in {ADD, AND, OR, XOR}) ==> b == b'
    ensures Alu(c, a, b) == Alu(c, a', b')
  {
    hide BitAnd, BitOr, BitXor, ShiftLeft, ShiftRight, ShiftArith;
  }

  lemma OperandsRead(ins: Word, pc: Word, a: Word, b: Word, a': Word, b': Word)
    requires var c := Decode(ins); (ReadsA(c) ==> a == a') && (ReadsB(c) ==> b == b')
    ensures var c := Decode(ins); Alike(c, pc, Execute(c, pc, a, b), Execute(c, pc, a', b'))
  {
    var c := Decode(ins);
    MemoryNeverJumps(ins);
    hide Decode, Alu;
    if Calculates(c) {
      AluReads(c, a, b, a', b');
    }
  }

  /** What the instruction in MEM computes from committed registers. */
  function MemOut(prog: Program, k: Pipe): Outcome {
    var c := Decode(prog(k.s.me.pc));
    var regs := Regs(k.s)[k.s.me.trd];
    Execute(c, k.s.me.pc, regs[c.ra], regs[c.rb])
  }

  /** A raw operand in EXE is the register, or WB is about to replace it. */
  predicate RawOk(s: Core, r: Reg, raw: Word) {
    || raw == s.rf.files[s.ex.trd].data[r]
    || (s.wb.trd == s.ex.trd && s.wb.wrEn && s.wb.rd == r && r > 1)
  }

  predicate DecInv(prog: Program, k: Pipe) {
    && k.s.ctl.last == k.s.dec.trd && k.s.ctl.lastPc == k.s.dec.pc && !k.s.ctl.rstInit
    && (k.s.dec.miss ==> !k.o.dec)
    && (!k.o.dec ==> k.s.dec.ins == 0)
    && (k.o.dec ==> k.s.dec.ins == prog(k.s.dec.pc))
    && (k.o.dec && !Replays(k.s, k.s.dec.trd) ==> FetchPc(k.s, k.s.dec.trd) == Inc(k.s.dec.pc))
  }

  predicate ExeInv(prog: Program, k: Pipe) {
    && (!k.o.ex ==> k.s.ex.c == Decode(0))
    && (k.o.ex ==>
          && k.s.ex.c == Decode(prog(k.s.ex.pc))
          && (ReadsA(k.s.ex.c) ==> RawOk(k.s, k.s.ex.c.ra, DataA(k.s)))
          && (ReadsB(k.s.ex.c) ==> RawOk(k.s, k.s.ex.c.rb, DataB(k.s)))
          && (!Replays(k.s, k.s.ex.trd) ==> PcFromDec(k, k.s.ex.trd) == Inc(k.s.ex.pc)))
  }

  predicate MemInv(prog: Program, k: Pipe) {
    && (!k.o.me ==> !k.s.me.wrEn && !k.s.me.memRd && !k.s.me.memWr && k.s.me.trdOp == NoOp)
    && (k.o.me ==>
          var c := Decode(prog(k.s.me.pc));
          && k.s.me.rd == c.rd && k.s.me.wrEn == c.wrEn && k.s.me.wbSel == c.wbSel
          && k.s.me.memRd == c.memRd && k.s.me.memWr == c.memWr && k.s.me.trdOp == c.trdOp)
    && (k.o.me && !Replays(k.s, k.s.me.trd) ==>
          var o := MemOut(prog, k);
          && (k.s.me.memRd || k.s.me.memWr ==> k.s.me.addr == o.addr)
          && (k.s.me.wrEn || k.s.me.memWr ==> k.s.me.data == o.data)
          && PcFromExe(k, k.s.me.trd) == NextPc(o, k.s.me.pc)
          && (k.s.me.trdOp == Create ==>
                var c, regs := Decode(prog(k.s.me.pc)), Regs(k.s)[k.s.me.trd];
                k.s.me.newPc == regs[c.ra] && k.s.me.newData == regs[c.rb]))
  }

  predicate WbInv(k: Pipe) {
    && (k.s.wb.trdOp == NoOp
        || (k.s.wb.trdOp == Create && k.o.wb && k.s.wb.wrEn && !k.s.wb.miss && !TrdFull(k.s.ctl.csrs)))
    && (!k.o.wb ==> !k.s.wb.wrEn && !k.s.wb.miss)
  }

  /** Only valid threads have slots in flight, and the root is valid. */
  predicate LiveInv(k: Pipe) {
    var csrs := k.s.ctl.csrs;
    && csrs[0].valid && (forall t: Tid :: csrs[t].running ==> csrs[t].valid)
    && (k.o.dec || k.s.dec.miss ==> csrs[k.s.dec.trd].valid)
    && (k.o.ex ==> csrs[k.s.ex.trd].valid)
    && (k.o.me ==> csrs[k.s.me.trd].valid)
    && (k.o.wb ==> csrs[k.s.wb.trd].valid)
  }

  predicate Inv(prog: Program, k: Pipe) {
    DecInv(prog, k) && ExeInv(prog, k) && MemInv(prog, k) && WbInv(k) && LiveInv(k)
  }

  // --------------------------------------------------------- the guards

  /** Instructions that touch their own registers, memory and PC, or create a thread. */
  predicate Ordinary(c: Ctrl) { Plain(c.(trdOp := NoOp)) && (c.trdOp == NoOp || c.trdOp == Create) }

  predicate OrdinaryProgram(prog: Program) { forall pc: Word :: Ordinary(Decode(prog(pc))) }

  predicate Reads(c: Ctrl, r: Reg) { (ReadsA(c) && r == c.ra) || (ReadsB(c) && r == c.rb) }

  /** The regfile bypass would hand a dropped write of r0 or r1 to the slot in DEC. */
  predicate BypassClash(k: Pipe) {
    && k.o.dec && WrEnFinal(k.s) && k.s.wb.trd == k.s.dec.trd && k.s.wb.rd <= 1
    && Reads(Decode(k.s.dec.ins), k.s.wb.rd)
  }

  predicate MemMatches(s: Core, r: Reg) { s.me.trd == s.ex.trd && s.me.wrEn && s.me.rd == r }
  predicate WbMatches(s: Core, r: Reg) { s.wb.trd == s.ex.trd && s.wb.wrEn && s.wb.rd == r }

  /** The forwarding network would hand the value of a dropped write of r1 to EXE. */
  predicate DroppedWrite(s: Core, r: Reg) {
    r == 1 && (if MemMatches(s, r) then !s.me.wbSel else WbMatches(s, r))
  }

  /** The value EXE wants is still being loaded. */
  predicate StaleLoad(s: Core, r: Reg) { r > 1 && MemMatches(s, r) && s.me.wbSel }

  /** Register r of the thread in EXE once the writes ahead of it are made;
      `loaded` is what a load in MEM will bring. */
  function RegisterFor(s: Core, r: Reg, loaded: Word): Word {
    if MemMatches(s, r) && r > 1 then (if s.me.wbSel then loaded else s.me.data)
    else if WbMatches(s, r) && r > 1 then WbData(s)
    else s.rf.files[s.ex.trd].data[r]
  }

  predicate ForwardClash(k: Pipe) {
    k.o.ex && !FlushEX(k.s) && Reads(k.s.ex.c, 1) && DroppedWrite(k.s, 1)
  }

  predicate LoadUse(k: Pipe) {
    k.o.ex && Reads(k.s.ex.c, k.s.me.rd) && StaleLoad(k.s, k.s.me.rd)
  }

  /** A stall keeps the operand on this port: WB will forward it, or the slot in
      DEC reads the same register. */
  predicate KeepsPort(k: Pipe, r: Reg, decPort: Reg) {
    || (r == k.s.me.rd && r > 1)
    || (k.s.dec.trd == k.s.ex.trd && decPort == r
        && !(WrEnFinal(k.s) && k.s.wb.trd == k.s.dec.trd && k.s.wb.rd == r && r <= 1))
  }

  /** A stall fetches the slot in DEC again: it must still be runnable, and must
      have been fetched in the first place. */
  predicate StallKeepsSlot(k: Pipe) { Stall(k.s) ==> (IRd(k.s) <==> k.o.dec) }

  predicate StallKeepsOperands(k: Pipe) {
    Stall(k.s) && k.o.ex ==>
      var d := Decode(k.s.dec.ins);
      && (ReadsA(k.s.ex.c) ==> KeepsPort(k, k.s.ex.c.ra, d.ra))
      && (ReadsB(k.s.ex.c) ==> KeepsPort(k, k.s.ex.c.rb, d.rb))
  }

  /** A taken jump whose younger slots are not flushed because another thread's
      miss is being flushed in the same clock. */
  predicate LostFlush(k: Pipe) {
    && k.o.ex && Jmp(k.s) && k.s.wb.miss && k.s.ex.trd != k.s.wb.trd
    && ((k.o.dec && k.s.dec.trd == k.s.ex.trd) || (IRd(k.s) && Cur(k.s) == k.s.ex.trd))
  }

  /** A taken jump overruled by the refetch of its own wrong-path slot. */
  predicate LostJump(k: Pipe) {
    k.o.ex && Jmp(k.s) && !FlushEX(k.s) && k.s.dec.miss && k.s.dec.trd == k.s.ex.trd
  }

  /** The instruction in MEM creates a thread when every slot is taken. */
  predicate Overflows(k: Pipe) { k.o.me && !FlushMEM(k.s) && k.s.me.trdOp == Create && TrdFull(Threads(k)) }

  /** The id of a thread that MEM is about to create is not known yet, and the
      forwarding network hands on the ALU's output in its place. */
  predicate CreateForward(k: Pipe) {
    && k.o.ex && !FlushEX(k.s) && k.s.me.trdOp == Create && k.s.me.rd > 1
    && MemMatches(k.s, k.s.me.rd) && Reads(k.s.ex.c, k.s.me.rd)
  }

  /** None of the places where the pipeline loses a value, a slot or a jump. */
  predicate Clean(k: Pipe) {
    && !BypassClash(k) && !ForwardClash(k) && !CreateForward(k) && !Overflows(k)
    && (LoadUse(k) && !FlushEX(k.s) ==> Stall(k.s))
    && StallKeepsSlot(k) && StallKeepsOperands(k)
    && !LostFlush(k) && !LostJump(k)
  }

  // ------------------------------------------------------------ one clock

  lemma OrdinaryAt(prog: Program, pc: Word)
    requires OrdinaryProgram(prog)
    ensures Ordinary(Decode(prog(pc)))
  {}

  lemma LoadsReadMemory(ins: Word)
    ensures var c := Decode(ins);
            && (c.wbSel <==> c.memRd) && (c.memRd ==> c.wrEn) && !(c.memRd && c.memWr)
            && (c.trdOp == Create ==> c.wrEn && !c.memRd && !c.memWr && c.jump == NoJump && ReadsA(c) && ReadsB(c))
  {}

  /** The slot that is about to be filled is free and nothing of it is in flight. */
  lemma NewSlot(k: Pipe)
    requires WbInv(k) && LiveInv(k) && InitWb(k.s)
    ensures var n := NewTrd(k.s.ctl.csrs);
            && n != 0 && !k.s.ctl.csrs[n].valid && !k.s.ctl.csrs[n].running && n != k.s.wb.trd
            && (k.o.dec || k.s.dec.miss ==> n != k.s.dec.trd)
            && (k.o.ex ==> n != k.s.ex.trd) && (k.o.me ==> n != k.s.me.trd)
  {
    FreeFromIsLowest(k.s.ctl.csrs, 0);
  }

  /** The write in WB lands in the register file; the files then hold what the
      abstraction already showed. */
  lemma FilesCatchUp(prog: Program, k: Pipe, i: Input, t: Tid)
    requires WbInv(k) && LiveInv(k)
    ensures Step(prog, k.s, i).rf.files[t].data == Regs(k.s)[t]
  {
    if InitWb(k.s) { NewSlot(k); }
    hide Execute, Decode, NewTrd, InitBank;
  }

  /** The thread table moves as the abstraction shows, too. */
  lemma TableCatchesUp(prog: Program, k: Pipe, i: Input, t: Tid)
    requires Inv(prog, k)
    ensures var c, c' := ThreadOf(k, t), Step(prog, k.s, i).ctl.csrs[t];
            c'.valid == c.valid && c'.running == c.running && c'.par == c.par
  {
    if InitWb(k.s) { NewSlot(k); }
    hide Execute, Decode, PcWr, NxtPc, NewTrd, CommitPc;
    assert Step(prog, k.s, i).ctl.csrs[t] == CsrNext(k.s, t);
  }

  lemma {:induction false} SameFree(a: Csrs, b: Csrs, i: nat)
    requires i <= 8 && forall t: Tid :: a[t].valid == b[t].valid
    ensures FreeFrom(a, i) == FreeFrom(b, i)
    ensures TrdFull(a) == TrdFull(b)
    decreases 8 - i
  {
    if i < 8 { SameFree(a, b, i + 1); }
  }

  /** The slot a creation will take next clock is free in the abstraction now. */
  lemma NextSlot(prog: Program, k: Pipe, i: Input)
    requires Inv(prog, k)
    ensures var csrs := Step(prog, k.s, i).ctl.csrs;
            NewTrd(csrs) == NewTrd(Threads(k)) && TrdFull(csrs) == TrdFull(Threads(k))
  {
    forall t: Tid ensures Step(prog, k.s, i).ctl.csrs[t].valid == Threads(k)[t].valid { TableCatchesUp(prog, k, i, t); }
    SameFree(Step(prog, k.s, i).ctl.csrs, Threads(k), 0);
  }

  /** The instruction that commits is the one at the committed PC of its thread. */
  lemma CommitsAtPc(prog: Program, k: Pipe, i: Input)
    requires Inv(prog, k) && Commits(k, i)
    ensures var t := k.s.me.trd;
            && !Replays(k.s, t) && !Starts(k.s, t) && Abs(k).threads[t] == k.s.ctl.csrs[t].(pc := k.s.me.pc)
    ensures MemOut(prog, k) == (var c := Decode(prog(k.s.me.pc)); var r := Abs(k).regs[k.s.me.trd];
                                Execute(c, k.s.me.pc, r[c.ra], r[c.rb]))
  {
    if InitWb(k.s) { NewSlot(k); }
    hide Execute, Decode, NewTrd;
  }

  /** The committed registers move exactly when the instruction in MEM commits,
      and then as the one-at-a-time machine moves them. */
  lemma RegsStep(prog: Program, k: Pipe, i: Input)
    requires Inv(prog, k) && OrdinaryProgram(prog)
    ensures var k' := PipeStep(prog, k, i);
            Regs(k'.s) == if Commits(k, i) then SeqStep(prog, Abs(k), k.s.me.trd).regs else Regs(k.s)
  {
    var k' := PipeStep(prog, k, i);
    forall t: Tid ensures k'.s.rf.files[t].data == Regs(k.s)[t] { FilesCatchUp(prog, k, i, t); }
    assert seq(8, t requires 0 <= t < 8 => k'.s.rf.files[t].data) == Regs(k.s);
    OrdinaryAt(prog, k.s.me.pc);
    LoadsReadMemory(prog(k.s.me.pc));
    NextSlot(prog, k, i);
    if Commits(k, i) { CommitsAtPc(prog, k, i); }
    hide Execute, Decode, CtlNext, DecNext, ExeNext, MemNext, RfNext, Taken, NewTrd, InitBank, Threads, Regs;
    RegsUnfold(k'.s);
  }

  lemma RegsUnfold(s: Core)
    ensures var files := seq(8, t requires 0 <= t < 8 => s.rf.files[t].data);
            var regs := if s.wb.wrEn && !s.wb.miss then Written(files, s.wb.trd, s.wb.rd, WbData(s)) else files;
            var n := NewTrd(s.ctl.csrs);
            Regs(s) == if InitWb(s) then regs[n := InitBank(n, s.wb.newData)] else regs
  {}

  lemma MemoryStep(prog: Program, k: Pipe, i: Input)
    requires Inv(prog, k) && OrdinaryProgram(prog)
    ensures MemoryNext(k.s, i) == if Commits(k, i) then SeqStep(prog, Abs(k), k.s.me.trd).mem else k.s.mem
  {
    OrdinaryAt(prog, k.s.me.pc);
    LoadsReadMemory(prog(k.s.me.pc));
    if Commits(k, i) { CommitsAtPc(prog, k, i); }
    hide Execute, Decode, Regs, Threads;
  }

  /** A jump can only come from a fetched instruction. */
  lemma BubblesIdle(prog: Program, k: Pipe)
    requires Inv(prog, k)
    ensures Jmp(k.s) ==> k.o.ex
    ensures StallReq(k.s) ==> k.s.me.memRd
    ensures Init(k.s) <==> InitWb(k.s)
    ensures Squash(k.s) <==> k.s.wb.miss
    ensures InitWb(k.s) ==> !Squash(k.s)
  {
    hide Alu, Target;
    IdleWord();
    LoadsReadMemory(prog(k.s.me.pc));
  }

  /** What the youngest slot of a thread, and its fetch PC behind it, become. */
  lemma PcFromDecStep(prog: Program, k: Pipe, i: Input, t: Tid)
    requires Inv(prog, k) && StallKeepsSlot(k)
    requires k.o.ex && k.s.ex.trd == t ==> !LostFlush(k) && !LostJump(k)
    requires !Replays(k.s, t) && !Starts(k.s, t)
    ensures PcFromDec(PipeStep(prog, k, i), t)
         == if Stall(k.s) then PcFromDec(k, t)
            else if Jmp(k.s) && k.s.ex.trd == t then ExeOut(k.s).target
            else FetchPc(k.s, t)
  {
    hide Execute, Decode, ExeNext, MemNext, WbNext, FileNext, Forward, StallReq, NewTrd;
    BubblesIdle(prog, k);
  }

  lemma PcFromExeStep(prog: Program, k: Pipe, i: Input, t: Tid)
    requires Inv(prog, k) && StallKeepsSlot(k)
    requires k.o.ex && k.s.ex.trd == t ==> !LostFlush(k) && !LostJump(k)
    requires !Replays(k.s, t) && !Starts(k.s, t)
    ensures PcFromExe(PipeStep(prog, k, i), t)
         == if Stall(k.s) then PcFromExe(k, t)
            else if Jmp(k.s) && k.s.ex.trd == t then ExeOut(k.s).target
            else PcFromDec(k, t)
  {
    PcFromDecStep(prog, k, i, t);
    hide Execute, Decode, DecNext, CtlNext, MemNext, WbNext, FileNext, Forward, StallReq, NewTrd;
    BubblesIdle(prog, k);
  }

  lemma PcFromMemStep(prog: Program, k: Pipe, i: Input, t: Tid)
    requires Inv(prog, k) && StallKeepsSlot(k)
    requires !Replays(k.s, t) && !Starts(k.s, t)
    ensures PcFromMem(PipeStep(prog, k, i), t) == PcFromExe(k, t)
  {
    if !(k.o.ex && k.s.ex.trd == t) { PcFromExeStep(prog, k, i, t); }
    hide Execute, Decode, DecNext, CtlNext, WbNext, FileNext, Forward, StallReq, FetchPc, NewTrd;
    BubblesIdle(prog, k);
  }

  /** A replayed thread has no slot left anywhere and fetches the access again. */
  lemma ReplayedPc(prog: Program, k: Pipe, i: Input, t: Tid)
    requires k.s.wb.trdOp == NoOp && !k.s.ctl.rstInit && Replays(k.s, t)
    ensures PcFromMem(PipeStep(prog, k, i), t) == k.s.wb.pc
    ensures var o := PipeStep(prog, k, i).o; var s := PipeStep(prog, k, i).s;
            && !(o.dec && s.dec.trd == t) && !(o.ex && s.ex.trd == t)
            && !(o.me && s.me.trd == t) && !(o.wb && s.wb.trd == t)
    ensures !Replays(Step(prog, k.s, i), t)
  {
    hide Execute, Decode, FileNext, Forward, StallReq;
  }

  /** A new thread starts with nothing in flight. */
  lemma StartedPc(prog: Program, k: Pipe, i: Input, t: Tid)
    requires Inv(prog, k) && Starts(k.s, t)
    ensures CommitPc(PipeStep(prog, k, i), t) == k.s.wb.newPc
    ensures !(k.o.me && k.s.me.trd == t)
  {
    NewSlot(k);
    BubblesIdle(prog, k);
    hide Execute, Decode, FileNext, Forward, StallReq, NewTrd, Jmp;
    var s' := Step(prog, k.s, i);
    assert s'.ctl.csrs[t] == CsrNext(k.s, t);
    assert s'.ctl.csrs[t].pc == k.s.wb.newPc;
  }

  lemma CommitPcStep(prog: Program, k: Pipe, i: Input, t: Tid)
    requires Inv(prog, k) && StallKeepsSlot(k)
    ensures CommitPc(PipeStep(prog, k, i), t)
         == if Starts(k.s, t) then k.s.wb.newPc
            else if Commits(k, i) && t == k.s.me.trd then NextPc(MemOut(prog, k), k.s.me.pc)
            else CommitPc(k, t)
  {
    if Starts(k.s, t) {
      StartedPc(prog, k, i, t);
    } else if Replays(k.s, t) {
      ReplayedPc(prog, k, i, t);
    } else {
      PcFromMemStep(prog, k, i, t);
    }
    hide Execute, Decode, DecNext, CtlNext, FileNext, Forward, StallReq, FetchPc, NewTrd;
  }

  /** What WB will do next to the thread table, after a clock. */
  lemma NextStart(prog: Program, k: Pipe, i: Input)
    requires Inv(prog, k) && OrdinaryProgram(prog)
    ensures var c := Decode(prog(k.s.me.pc)); var k' := PipeStep(prog, k, i); var a := Abs(k);
            && (InitWb(k'.s) <==> Commits(k, i) && c.trdOp == Create)
            && (InitWb(k'.s) ==>
                  && NewTrd(k'.s.ctl.csrs) == NewTrd(a.threads) && k'.s.wb.trd == k.s.me.trd
                  && k'.s.wb.newPc == a.regs[k.s.me.trd][c.ra])
  {
    NextSlot(prog, k, i);
    OrdinaryAt(prog, k.s.me.pc);
    LoadsReadMemory(prog(k.s.me.pc));
    if Commits(k, i) { CommitsAtPc(prog, k, i); }
    hide Execute, Decode, Regs, CommitPc, Threads, NewTrd, CtlNext, DecNext, ExeNext, MemNext, RfNext, MemoryNext;
    hide DecInv, ExeInv, LiveInv;
  }

  lemma ThreadStep(prog: Program, k: Pipe, i: Input, t: Tid)
    requires Inv(prog, k) && OrdinaryProgram(prog) && StallKeepsSlot(k)
    ensures ThreadOf(PipeStep(prog, k, i), t)
         == if Commits(k, i) then SeqStep(prog, Abs(k), k.s.me.trd).threads[t] else ThreadOf(k, t)
  {
    CommitPcStep(prog, k, i, t);
    TableCatchesUp(prog, k, i, t);
    NextStart(prog, k, i);
    if Commits(k, i) { CommitsAtPc(prog, k, i); }
    hide Execute, Decode, CommitPc, Regs, MemOut, NewTrd, Inv, Commits, InitWb, PipeStep;
  }

  /** One clock of the pipeline is one step of the one-at-a-time machine when an
      instruction commits, and no step otherwise. */
  lemma ClockRefines(prog: Program, k: Pipe, i: Input)
    requires Inv(prog, k) && OrdinaryProgram(prog) && StallKeepsSlot(k)
    ensures Abs(PipeStep(prog, k, i))
         == if Commits(k, i) then SeqStep(prog, Abs(k), k.s.me.trd) else Abs(k)
    ensures Commits(k, i) ==> Abs(k).threads[k.s.me.trd].valid
  {
    var k' := PipeStep(prog, k, i);
    RegsStep(prog, k, i);
    MemoryStep(prog, k, i);
    forall t: Tid
      ensures ThreadOf(k', t) == if Commits(k, i) then SeqStep(prog, Abs(k), k.s.me.trd).threads[t] else ThreadOf(k, t)
    {
      ThreadStep(prog, k, i, t);
    }
    if Commits(k, i) { CommitsAtPc(prog, k, i); }
    hide SeqStep, ThreadOf, Regs, Step;
    if Commits(k, i) {
      assert Abs(k').threads == SeqStep(prog, Abs(k), k.s.me.trd).threads;
    } else {
      assert Abs(k').threads == Abs(k).threads;
    }
  }

  // ------------------------------------------------- the invariant is kept

  lemma DecInvKept(prog: Program, k: Pipe, i: Input)
    requires Inv(prog, k) && Clean(k)
    ensures DecInv(prog, PipeStep(prog, k, i))
  {
    if InitWb(k.s) { NewSlot(k); }
    hide Execute, Decode, ExeNext, MemNext, WbNext, FileNext, Forward, StallReq, NewTrd;
    BubblesIdle(prog, k);
  }

  lemma WbInvKept(prog: Program, k: Pipe, i: Input)
    requires Inv(prog, k) && OrdinaryProgram(prog) && Clean(k)
    ensures WbInv(PipeStep(prog, k, i))
  {
    OrdinaryAt(prog, k.s.me.pc);
    LoadsReadMemory(prog(k.s.me.pc));
    NextSlot(prog, k, i);
    hide Execute, Decode, ExeNext, MemNext, DecNext, CtlNext, FileNext, Forward, StallReq, NewTrd, Threads;
  }

  lemma LiveInvKept(prog: Program, k: Pipe, i: Input)
    requires Inv(prog, k)
    ensures LiveInv(PipeStep(prog, k, i))
  {
    var s' := Step(prog, k.s, i);
    forall t: Tid
      ensures k.s.ctl.csrs[t].valid ==> s'.ctl.csrs[t].valid
      ensures s'.ctl.csrs[t].running ==> s'.ctl.csrs[t].valid
    {
      TableCatchesUp(prog, k, i, t);
    }
    hide Execute, Decode, CtlNext, FileNext, Forward, StallReq, NewTrd, Jmp;
  }

  /** The register read of the slot in DEC gives the register, as it will be. */
  lemma PortReads(prog: Program, k: Pipe, i: Input, r: Reg)
    requires Inv(prog, k) && !Starts(k.s, k.s.dec.trd)
    requires !(WrEnFinal(k.s) && k.s.wb.trd == k.s.dec.trd && k.s.wb.rd == r && r <= 1)
    ensures var d := Decode(k.s.dec.ins); var s' := Step(prog, k.s, i);
            && s'.rf.trd == k.s.dec.trd
            && (d.ra == r ==> DataA(s') == s'.rf.files[k.s.dec.trd].data[r])
            && (d.rb == r ==> DataB(s') == s'.rf.files[k.s.dec.trd].data[r])
  {
    hide Execute, Decode, DecNext, CtlNext, ExeNext, MemNext, WbNext, NewTrd;
  }

  lemma ExeControlKept(prog: Program, k: Pipe, i: Input)
    requires Inv(prog, k)
    ensures var k' := PipeStep(prog, k, i);
            k'.s.ex.c == if k'.o.ex then Decode(prog(k'.s.ex.pc)) else Decode(0)
  {
    BubblesIdle(prog, k);
    hide Execute, Decode, DecNext, CtlNext, MemNext, RfNext, WbNext, MemoryNext, Forward, StallReq, MemInv, LiveInv;
  }

  lemma ExePathKept(prog: Program, k: Pipe, i: Input)
    requires Inv(prog, k) && Clean(k)
    ensures var k' := PipeStep(prog, k, i); var t := k'.s.ex.trd;
            k'.o.ex && !Replays(k'.s, t) ==> PcFromDec(k', t) == Inc(k'.s.ex.pc)
  {
    var k' := PipeStep(prog, k, i);
    var t := k'.s.ex.trd;
    BubblesIdle(prog, k);
    if InitWb(k.s) { NewSlot(k); }
    if k'.o.ex && !Replays(k'.s, t) {
      assert !Replays(k.s, t) by { hide Execute, Decode, Forward, StallReq, Jmp; }
      PcFromDecStep(prog, k, i, t);
    }
    hide Execute, Decode, DecNext, CtlNext, MemNext, RfNext, WbNext, Forward, NewTrd, MemInv, StallReq;
    hide StallKeepsOperands, LoadUse;
  }

  /** The ports of the slot that moves into EXE, or that a stall holds there. */
  lemma ExePortsKept(prog: Program, k: Pipe, i: Input)
    requires Inv(prog, k) && Clean(k) && PipeStep(prog, k, i).o.ex
    ensures var s' := Step(prog, k.s, i);
            && (ReadsA(s'.ex.c) ==> RawOk(s', s'.ex.c.ra, DataA(s')))
            && (ReadsB(s'.ex.c) ==> RawOk(s', s'.ex.c.rb, DataB(s')))
  {
    var s := k.s;
    BubblesIdle(prog, k);
    if InitWb(s) { NewSlot(k); }
    var d := Decode(s.dec.ins);
    if !Starts(s, s.dec.trd) {
      if !(WrEnFinal(s) && s.wb.trd == s.dec.trd && s.wb.rd == d.ra && d.ra <= 1) { PortReads(prog, k, i, d.ra); }
      if !(WrEnFinal(s) && s.wb.trd == s.dec.trd && s.wb.rd == d.rb && d.rb <= 1) { PortReads(prog, k, i, d.rb); }
    }
    hide Execute, Decode, DecNext, CtlNext, MemNext, RfNext, MemoryNext, Forward, NewTrd, StallReq, MemInv, DecInv;
    hide DataA, DataB, ReadsA, ReadsB, Regs, LoadUse, LostFlush, LostJump, Jmp;
  }

  lemma ExeInvKept(prog: Program, k: Pipe, i: Input)
    requires Inv(prog, k) && Clean(k)
    ensures ExeInv(prog, PipeStep(prog, k, i))
  {
    ExeControlKept(prog, k, i);
    ExePathKept(prog, k, i);
    if PipeStep(prog, k, i).o.ex { ExePortsKept(prog, k, i); }
    hide Step, Decode, ReadsA, ReadsB, RawOk, PcFromDec;
  }

  lemma RegisterOf(s: Core, t: Tid, r: Reg)
    requires !Starts(s, t)
    ensures Regs(s)[t][r] == if s.wb.wrEn && !s.wb.miss && s.wb.trd == t && s.wb.rd == r && r > 1
                             then WbData(s) else s.rf.files[t].data[r]
  {
    hide NewTrd, InitBank;
  }

  /** The register as it will stand when the instruction in EXE reaches MEM. */
  lemma RegisterNext(prog: Program, k: Pipe, i: Input, r: Reg)
    requires Inv(prog, k) && OrdinaryProgram(prog) && Clean(k)
    requires k.o.ex && Reads(k.s.ex.c, r) && !StaleLoad(k.s, r)
    requires !FlushEX(k.s) && !Replays(Step(prog, k.s, i), k.s.ex.trd)
    ensures Regs(Step(prog, k.s, i))[k.s.ex.trd][r] == RegisterFor(k.s, r, 0)
  {
    var s, t := k.s, k.s.ex.trd;
    var s' := Step(prog, s, i);
    FilesCatchUp(prog, k, i, t);
    NoStartAhead(prog, k, i);
    RegisterOf(s, t, r);
    RegisterOf(s', t, r);
    OrdinaryAt(prog, s.me.pc);
    LoadsReadMemory(prog(s.me.pc));
    BubblesIdle(prog, k);
    hide Execute, Decode, DecNext, CtlNext, ExeNext, MemNext, RfNext, NewTrd, Regs, Stall, IRd, Reads;
    hide LiveInv, DecInv, ExeInv, StallKeepsSlot, StallKeepsOperands, LostFlush, LostJump, Overflows, LoadUse;
  }

  /** The thread in EXE is not one that WB creates now or in the next clock. */
  lemma NoStartAhead(prog: Program, k: Pipe, i: Input)
    requires Inv(prog, k) && OrdinaryProgram(prog) && Clean(k) && k.o.ex
    ensures !Starts(k.s, k.s.ex.trd) && !Starts(Step(prog, k.s, i), k.s.ex.trd)
  {
    var s' := Step(prog, k.s, i);
    WbInvKept(prog, k, i);
    LiveInvKept(prog, k, i);
    TableCatchesUp(prog, k, i, k.s.ex.trd);
    if InitWb(k.s) { NewSlot(k); }
    if InitWb(s') { NewSlot(PipeStep(prog, k, i)); }
    hide Step, Inv, OccNext;
  }

  /** The forwarding network delivers that register. */
  lemma ForwardIsRegister(prog: Program, k: Pipe, i: Input, r: Reg, raw: Word)
    requires Inv(prog, k) && OrdinaryProgram(prog) && Clean(k)
    requires k.o.ex && Reads(k.s.ex.c, r) && RawOk(k.s, r, raw) && !StaleLoad(k.s, r)
    requires !FlushEX(k.s) && !Replays(Step(prog, k.s, i), k.s.ex.trd)
    ensures Forward(k.s, r, raw) == Regs(Step(prog, k.s, i))[k.s.ex.trd][r]
  {
    RegisterNext(prog, k, i, r);
    assert !DroppedWrite(k.s, r);
    hide Execute, Decode, Step, Regs, Inv, Clean, NewTrd, Reads;
  }

  /** The instruction that enters MEM computes what it would from the committed
      registers, and its thread's path continues after it. */
  lemma EntersMem(prog: Program, k: Pipe, i: Input)
    requires Inv(prog, k) && OrdinaryProgram(prog) && Clean(k)
    requires var k' := PipeStep(prog, k, i); k'.o.me && !Replays(k'.s, k.s.ex.trd)
    ensures var k' := PipeStep(prog, k, i); var c := k.s.ex.c; var regs := Regs(k'.s)[k.s.ex.trd];
            && Alike(c, k.s.ex.pc, ExeOut(k.s), Execute(c, k.s.ex.pc, regs[c.ra], regs[c.rb]))
            && (ReadsA(c) ==> FwdA(k.s) == regs[c.ra]) && (ReadsB(c) ==> FwdB(k.s) == regs[c.rb])
  {
    var k' := PipeStep(prog, k, i);
    var c := k.s.ex.c;
    assert k.o.ex && !FlushEX(k.s) && !Stall(k.s);
    if ReadsA(c) { ForwardIsRegister(prog, k, i, c.ra, DataA(k.s)); }
    if ReadsB(c) { ForwardIsRegister(prog, k, i, c.rb, DataB(k.s)); }
    var regs := Regs(k'.s)[k.s.ex.trd];
    OperandsRead(prog(k.s.ex.pc), k.s.ex.pc, FwdA(k.s), FwdB(k.s), regs[c.ra], regs[c.rb]);
    hide Execute, Decode, Step, Regs, NewTrd, Forward, Alike;
  }

  lemma MemInvKept(prog: Program, k: Pipe, i: Input)
    requires Inv(prog, k) && OrdinaryProgram(prog) && Clean(k)
    ensures MemInv(prog, PipeStep(prog, k, i))
  {
    var k' := PipeStep(prog, k, i);
    var t := k.s.ex.trd;
    IdleWord();
    BubblesIdle(prog, k);
    LoadsReadMemory(prog(k.s.ex.pc));
    if k'.o.me && !Replays(k'.s, t) {
      NoStartAhead(prog, k, i);
      PcFromExeStep(prog, k, i, t);
      EntersMem(prog, k, i);
      MemoryNeverJumps(prog(k.s.ex.pc));
    }
    hide Execute, Decode, DecNext, CtlNext, ExeNext, RfNext, Forward, Regs, PcFromDec, RawOk, NewTrd;
    hide StallKeepsSlot, StallKeepsOperands, LiveInv, DecInv, WbInv, Overflows, LoadUse, IRd;
  }

  /** Outside the guards every clock keeps the invariant. */
  lemma InvKept(prog: Program, k: Pipe, i: Input)
    requires Inv(prog, k) && OrdinaryProgram(prog) && Clean(k)
    ensures Inv(prog, PipeStep(prog, k, i))
  {
    DecInvKept(prog, k, i);
    ExeInvKept(prog, k, i);
    MemInvKept(prog, k, i);
    WbInvKept(prog, k, i);
    LiveInvKept(prog, k, i);
  }
}
