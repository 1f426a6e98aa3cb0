/** One clock of the eight-thread, five-stage pipeline: every register of
    rtl/main as a value, every wire as a function of the registers, and the next
    value of each register. The memories are the one-cycle memories of the
    top-level testbench, which may miss. */
module Core {
  import opened Isa
  import Scheduler

  type Tid = n: nat | n < 8
  type Bank = s: seq<Word> | |s| == 32 witness seq(32, _ => 0)
  type Memory = map<Word, Word>
  type Program = Word -> Word

  // ------------------------------------------------------------------ registers

  /** thread_csr.sv */
  datatype Csr = Csr(valid: bool, running: bool, par: Tid, pc: Word)
  type Csrs = s: seq<Csr> | |s| == 8 witness seq(8, _ => Csr(false, false, 0, START_PC))

  /** thread_ctrl.sv; `wait` is the set of threads backing off after a miss */
  datatype Ctl = Ctl(csrs: Csrs, delay: nat, wait: set<nat>, last: Tid, tmp: Tid, lastPc: Word, rstInit: bool)

  /** IF/DEC: the slot insfetch.sv hands over, and what the instruction memory answers */
  datatype DecReg = DecReg(trd: Tid, pc: Word, ins: Word, miss: bool)

  /** DEC/EXE of insdec.sv */
  datatype ExeReg = ExeReg(trd: Tid, pc: Word, ins: Word, c: Ctrl)

  /** regfile.sv: thirty-two registers and the two read ports */
  datatype RegFile = RegFile(data: Bank, a: Word, b: Word)
  type RegFiles = s: seq<RegFile> | |s| == 8 witness seq(8, _ => RegFile(seq(32, _ => 0), 0, 0))

  /** regfile_set.sv */
  datatype RegSet = RegSet(files: RegFiles, trd: Tid)

  /** EXE/MEM of exe.sv */
  datatype MemReg = MemReg(
    trd: Tid, pc: Word, ins: Word, addr: Word, data: Word, rd: Reg, wrEn: bool, wbSel: bool,
    memRd: bool, memWr: bool, trdOp: ThreadOp, newPc: Word, newData: Word)

  /** MEM/WB of mem.sv, and what the data memory answers */
  datatype WbReg = WbReg(
    trd: Tid, pc: Word, ins: Word, data: Word, rd: Reg, wrEn: bool, wbSel: bool,
    trdOp: ThreadOp, newPc: Word, newData: Word, rdData: Word, miss: bool)

  datatype Core = Core(ctl: Ctl, dec: DecReg, ex: ExeReg, rf: RegSet, me: MemReg, wb: WbReg, mem: Memory)

  /** The environment's choice in one clock: does the fetch, or the data access,
      that is presented to the memories in this clock miss? */
  datatype Input = Input(fetchMiss: bool, accessMiss: bool)

  const NO_DEC := DecReg(0, 0, 0, false)
  const NO_EXE := ExeReg(0, 0, 0, Decode(0))
  const NO_MEM := MemReg(0, 0, 0, 0, 0, 0, false, false, false, false, NoOp, 0, 0)
  const NO_WB := WbReg(0, 0, 0, 0, 0, false, false, NoOp, 0, 0, 0, false)

  // -------------------------------------------------------------------- wires

  /** wb.sv */
  predicate InitWb(s: Core) { s.wb.trdOp == Create }
  predicate KillWb(s: Core) { s.wb.trdOp == Kill }
  predicate SleepWb(s: Core) { s.wb.trdOp == Sleep }
  predicate WakeWb(s: Core) { s.wb.trdOp == Wake }

  function WbData(s: Core): Word {
    if InitWb(s) then NewTrd(s.ctl.csrs)
    else if s.wb.wbSel then s.wb.rdData
    else s.wb.data
  }

  predicate WrEnFinal(s: Core) { s.wb.wrEn && !FlushWB(s) }

  /** The lowest free slot of the thread table, slot 0 when there is none. */
  function NewTrd(csrs: Csrs): (t: Tid) {
    FreeFrom(csrs, 0)
  }

  function FreeFrom(csrs: Csrs, i: nat): (t: Tid)
    requires i <= 8
    decreases 8 - i
  {
    if i == 8 then 0 else if !csrs[i].valid then i else FreeFrom(csrs, i + 1)
  }

  lemma {:induction false} FreeFromIsLowest(csrs: Csrs, i: nat)
    requires i <= 8
    ensures var t := FreeFrom(csrs, i);
            if forall u | i <= u < 8 :: csrs[u].valid then t == 0
            else i <= t && !csrs[t].valid && forall u | i <= u < t :: csrs[u].valid
    decreases 8 - i
  {
    if i < 8 && csrs[i].valid { FreeFromIsLowest(csrs, i + 1); }
  }

  predicate TrdFull(csrs: Csrs) { forall i | 0 <= i < 8 :: csrs[i].valid }

  predicate Init(s: Core) { InitWb(s) || s.ctl.rstInit }
  function ObjTrd(s: Core): Tid { if Init(s) then NewTrd(s.ctl.csrs) else s.wb.newPc % 8 }

  /** exe.sv: one operand through the forwarding network. The MEM stage shields
      the WB stage whenever its destination matches, even if it forwards nothing. */
  function Forward(s: Core, r: Reg, raw: Word): Word {
    if s.me.trd == s.ex.trd && s.me.wrEn && r == s.me.rd then
      (if !s.me.wbSel && s.me.rd != 0 then s.me.data else raw)
    else if s.ex.trd == s.wb.trd && s.wb.wrEn && r == s.wb.rd && s.wb.rd != 0 then WbData(s)
    else raw
  }

  function DataA(s: Core): Word { s.rf.files[s.rf.trd].a }
  function DataB(s: Core): Word { s.rf.files[s.rf.trd].b }
  function FwdA(s: Core): Word { Forward(s, s.ex.c.ra, DataA(s)) }
  function FwdB(s: Core): Word { Forward(s, s.ex.c.rb, DataB(s)) }

  /** A load in MEM whose destination the instruction in EXE reads. */
  predicate StallReq(s: Core) {
    && s.me.trd == s.ex.trd && s.me.wrEn && s.me.wbSel
    && (s.ex.c.ra == s.me.rd || s.ex.c.rb == s.me.rd)
  }

  function ExeOut(s: Core): Outcome { Execute(s.ex.c, s.ex.pc, FwdA(s), FwdB(s)) }
  predicate Jmp(s: Core) { ExeOut(s).taken }

  /** flush_stall.sv */
  predicate Squash(s: Core) { KillWb(s) || SleepWb(s) || s.wb.miss }
  predicate FlushIF(s: Core) { if Squash(s) then Cur(s) == s.wb.trd else Jmp(s) && Cur(s) == s.ex.trd }
  predicate FlushID(s: Core) { if Squash(s) then s.dec.trd == s.wb.trd else Jmp(s) && s.dec.trd == s.ex.trd }
  predicate FlushEX(s: Core) { Squash(s) && s.ex.trd == s.wb.trd }
  predicate FlushMEM(s: Core) { Squash(s) && s.me.trd == s.wb.trd }
  predicate FlushWB(s: Core) { Squash(s) }
  predicate Stall(s: Core) { !Squash(s) && !Jmp(s) && StallReq(s) }

  /** insfetch.sv: threads with a miss in this clock */
  function TrdMiss(s: Core): set<nat> {
    (if s.dec.miss then {s.dec.trd} else {}) + (if s.wb.miss then {s.wb.trd} else {})
  }

  predicate Atomic(s: Core) { AtomicBit(s.dec.ins) }

  /** thread_ctrl.sv */
  predicate Runnable(s: Core, t: nat) {
    t < 8 && s.ctl.csrs[t].running && t !in s.ctl.wait && t !in TrdMiss(s)
  }

  function RunTrd(s: Core): set<nat> { set t: nat | t < 8 && Runnable(s, t) }
  predicate Hold(s: Core) { Atomic(s) || Stall(s) }
  function Cur(s: Core): Tid { if Hold(s) then s.ctl.last else s.ctl.tmp }
  function CurPc(s: Core): Word { if Stall(s) then s.ctl.lastPc else s.ctl.csrs[Cur(s)].pc }
  predicate IRd(s: Core) { Runnable(s, Cur(s)) && !FlushIF(s) }

  /** pc_sel.sv without exceptions: the write to the PC of thread t, if any. */
  predicate PcWr(s: Core, t: Tid) {
    || (s.wb.miss && s.wb.trd == t)
    || (s.dec.miss && s.dec.trd == t)
    || (Jmp(s) && s.ex.trd == t && !Stall(s))
    || (Cur(s) == t && !Stall(s) && IRd(s))
  }

  function NxtPc(s: Core, t: Tid): Word {
    if s.wb.miss && s.wb.trd == t then s.wb.pc
    else if s.dec.miss && s.dec.trd == t then s.dec.pc
    else if Jmp(s) && s.ex.trd == t && !Stall(s) then ExeOut(s).target
    else Inc(CurPc(s))
  }

  // ------------------------------------------------------------ next registers

  /** thread_csr.sv, for the CSR of thread t */
  predicate HasAuthority(csr: Csr, t: Tid, act: Tid) { act == csr.par || act == t }

  function CsrNext(s: Core, t: Tid): Csr {
    var csr := s.ctl.csrs[t];
    var obj := ObjTrd(s) == t;
    var life :=
      if Init(s) && obj then csr.(valid := true, running := true, par := s.wb.trd)
      else if SleepWb(s) && obj && HasAuthority(csr, t, s.wb.trd) then csr.(running := false)
      else if WakeWb(s) && obj && csr.valid then csr.(running := true)
      else if KillWb(s) && obj && csr.valid && HasAuthority(csr, t, s.wb.trd)
      then csr.(valid := false, running := false)
      else csr;
    life.(pc := if Init(s) && obj then (if t == 0 then START_PC else s.wb.newPc)
                else if PcWr(s, t) then NxtPc(s, t)
                else csr.pc)
  }

  function WaitNext(s: Core): set<nat> {
    if s.ctl.delay == 0 then {}
    else if s.dec.miss || s.wb.miss then s.ctl.wait + TrdMiss(s)
    else s.ctl.wait
  }

  function CtlNext(s: Core): Ctl {
    Ctl(seq(8, t requires 0 <= t < 8 => CsrNext(s, t)),
        (s.ctl.delay + 1) % 64, WaitNext(s), Cur(s),
        Scheduler.Next(8, Cur(s), RunTrd(s)), CurPc(s), false)
  }

  function DecNext(prog: Program, s: Core, i: Input): DecReg {
    DecReg(if Stall(s) then s.dec.trd else Cur(s),
           if Stall(s) then s.dec.pc else CurPc(s),
           if IRd(s) && !i.fetchMiss then prog(CurPc(s)) else 0,
           IRd(s) && i.fetchMiss)
  }

  function ExeNext(s: Core): ExeReg {
    if FlushID(s) then NO_EXE
    else if Stall(s) then s.ex
    else ExeReg(s.dec.trd, s.dec.pc, s.dec.ins, Decode(s.dec.ins))
  }

  function StackTop(t: Tid): Word {
    if t == 0 then 0x0001_0FFF else 0x0001_0EFF - 0x100 * t
  }

  function InitBank(t: Tid, arg: Word): (b: Bank) {
    [0, t, StackTop(t), StackTop(t), arg] + seq(27, _ => 0)
  }

  /** regfile.sv, for the file of thread t; the file of thread 0 is never initialised */
  function FileNext(s: Core, t: Tid): RegFile {
    var f := s.rf.files[t];
    var d := Decode(s.dec.ins);
    var write := WrEnFinal(s) && s.wb.trd == t;
    RegFile(
      if InitWb(s) && t != 0 && NewTrd(s.ctl.csrs) == t then InitBank(t, s.wb.newData)
      else if write && s.wb.rd > 1 then f.data[s.wb.rd := WbData(s)]
      else f.data,
      if write && s.wb.rd == d.ra then WbData(s) else f.data[d.ra],
      if write && s.wb.rd == d.rb then WbData(s) else f.data[d.rb])
  }

  function RfNext(s: Core): RegSet {
    RegSet(seq(8, t requires 0 <= t < 8 => FileNext(s, t)), s.dec.trd)
  }

  function MemNext(s: Core): MemReg {
    if FlushEX(s) || Stall(s) then NO_MEM
    else
      var o := ExeOut(s);
      MemReg(s.ex.trd, s.ex.pc, s.ex.ins, o.addr, o.data, s.ex.c.rd, s.ex.c.wrEn, s.ex.c.wbSel,
             s.ex.c.memRd, s.ex.c.memWr, s.ex.c.trdOp, FwdA(s), FwdB(s))
  }

  predicate DRd(s: Core) { s.me.memRd && !FlushMEM(s) }
  predicate DWr(s: Core) { s.me.memWr && !FlushMEM(s) }

  function Load(m: Memory, a: Word): Word { if a in m then m[a] else 0 }

  function WbNext(s: Core, i: Input): WbReg {
    var rdData := if DRd(s) then Load(s.mem, s.me.addr) else 0;
    var miss := (DRd(s) || DWr(s)) && i.accessMiss;
    if FlushMEM(s) then NO_WB.(rdData := rdData, miss := miss)
    else WbReg(s.me.trd, s.me.pc, s.me.ins, s.me.data, s.me.rd, s.me.wrEn, s.me.wbSel,
               s.me.trdOp, s.me.newPc, s.me.newData, rdData, miss)
  }

  function MemoryNext(s: Core, i: Input): Memory {
    if DWr(s) && !i.accessMiss then s.mem[s.me.addr := s.me.data] else s.mem
  }

  /** One clock. */
  function Step(prog: Program, s: Core, i: Input): Core {
    Core(CtlNext(s), DecNext(prog, s, i), ExeNext(s), RfNext(s), MemNext(s), WbNext(s, i), MemoryNext(s, i))
  }

  function Run(prog: Program, s: Core, ins: seq<Input>): Core
    decreases |ins|
  {
    if ins == [] then s else Run(prog, Step(prog, s, ins[0]), ins[1..])
  }

  /** The registers while reset is held. */
  function ResetFile(t: Tid): RegFile { RegFile(InitBank(t, 0), 0, 0) }

  function ResetState(): Core {
    Core(Ctl(seq(8, _ => Csr(false, false, 0, START_PC)), 0, {}, 0, 0, 0, true),
         NO_DEC, NO_EXE, RegSet(seq(8, t requires 0 <= t < 8 => ResetFile(t)), 0), NO_MEM, NO_WB, map[])
  }
}
