/** The clocked blocks of rtl/main as objects that update their registers in
    place: one class for each module that holds registers, put together as in
    threadkraken_top.sv. The wires between them are the functions of Core, read
    before the clock; together the blocks take one Core.Step per clock. */
module Hardware {
  import opened Isa
  import opened Core
  import Scheduler

  // ------------------------------------------------------------- register files

  /** The inputs shared by the eight register files. */
  datatype FilePorts = FilePorts(
    ra: Reg, rb: Reg, wr: Reg, wrEn: bool, wrTrd: Tid, wrData: Word, init: bool, newTrd: Tid, initData: Word)

  /** What a clock makes of the file of thread t. A read of the register being
      written sees the new value, even when the write itself is dropped. */
  function FileStep(f: RegFile, t: Tid, p: FilePorts): RegFile {
    var write := p.wrEn && p.wrTrd == t;
    RegFile(
      if p.init && p.newTrd == t then InitBank(t, p.initData)
      else if write && p.wr > 1 then f.data[p.wr := p.wrData]
      else f.data,
      if write && p.wr == p.ra then p.wrData else f.data[p.ra],
      if write && p.wr == p.rb then p.wrData else f.data[p.rb])
  }

  /** regfile.sv */
  class Regfile {
    const id: Tid
    const data: array<Word>
    var dataA: Word
    var dataB: Word

    predicate Valid() { data.Length == 32 }

    function State(): RegFile
      requires Valid()
      reads this, data
    {
      RegFile(data[..], dataA, dataB)
    }

    constructor Reset(id: Tid)
      ensures Valid() && this.id == id && fresh(data) && State() == ResetFile(id)
    {
      this.id := id;
      data := new Word[32];
      dataA, dataB := 0, 0;
      new;
      Initialise(0);
    }

    /** The reset values, with the argument of the new thread in r4. */
    method Initialise(initData: Word)
      requires Valid()
      modifies data
      ensures data[..] == InitBank(id, initData)
    {
      data[0], data[1], data[2], data[3], data[4] := 0, id, StackTop(id), StackTop(id), initData;
      for i := 5 to 32
        invariant data[0] == 0 && data[1] == id && data[2] == data[3] == StackTop(id) && data[4] == initData
        invariant forall j | 5 <= j < i :: data[j] == 0
      {
        data[i] := 0;
      }
    }

    method Clock(p: FilePorts)
      requires Valid()
      modifies this`dataA, this`dataB, data
      ensures State() == FileStep(old(State()), id, p)
    {
      var hit := p.wrEn && p.wrTrd == id;
      dataA := if hit && p.wr == p.ra then p.wrData else data[p.ra];
      dataB := if hit && p.wr == p.rb then p.wrData else data[p.rb];
      if p.init && p.newTrd == id {
        Initialise(p.initData);
      } else if hit {
        if p.wr > 1 { data[p.wr] := p.wrData; }
      }
    }
  }

  /** regfile_set.sv: the file of thread 0 is never initialised after reset. */
  class RegfileSet {
    const files: seq<Regfile>
    var trdExe: Tid

    predicate Valid() {
      && |files| == 8
      && (forall t | 0 <= t < 8 :: files[t].Valid() && files[t].id == t)
      && (forall t, u | 0 <= t < u < 8 :: files[t] != files[u] && files[t].data != files[u].data)
    }

    function State(): RegSet
      requires Valid()
      reads this, files, set f | f in files :: f.data
    {
      RegSet([files[0].State(), files[1].State(), files[2].State(), files[3].State(),
              files[4].State(), files[5].State(), files[6].State(), files[7].State()], trdExe)
    }

    constructor Reset()
      ensures Valid() && fresh(files) && forall f | f in files :: fresh(f.data)
      ensures State() == ResetState().rf
    {
      hide ResetFile;
      var fs: seq<Regfile> := [];
      for t := 0 to 8
        invariant |fs| == t
        invariant forall u | 0 <= u < t :: fresh(fs[u]) && fresh(fs[u].data) && fs[u].Valid() && fs[u].id == u
        invariant forall u | 0 <= u < t :: fs[u].State() == ResetFile(u)
        invariant forall u, v | 0 <= u < v < t :: fs[u] != fs[v] && fs[u].data != fs[v].data
      {
        var f := new Regfile.Reset(t);
        fs := fs + [f];
      }
      files := fs;
      trdExe := 0;
      new;
      assert State().files == ResetState().rf.files;
    }

    method Clock(trdDec: Tid, p: FilePorts)
      requires Valid()
      modifies this, files, set f | f in files :: f.data
      ensures State().trd == trdDec
      ensures forall t: Tid :: State().files[t] == FileStep(old(State()).files[t], t, p.(init := p.init && t != 0))
    {
      hide FileStep;
      trdExe := trdDec;
      for t := 0 to 8
        invariant trdExe == trdDec
        invariant forall u | 0 <= u < t ::
          files[u].State() == FileStep(old(files[u].State()), u, p.(init := p.init && u != 0))
        invariant forall u | t <= u < 8 :: files[u].State() == old(files[u].State())
      {
        files[t].Clock(p.(init := p.init && t != 0));
      }
    }
  }

  // --------------------------------------------------------------- thread table

  /** The inputs shared by the eight thread registers. */
  datatype CsrPorts = CsrPorts(init: bool, slp: bool, wake: bool, kill: bool, obj: Tid, act: Tid)

  /** What a clock makes of the registers of thread t. */
  function CsrStep(csr: Csr, t: Tid, p: CsrPorts, initPc: Word, pcWr: bool, nxtPc: Word): Csr {
    var obj := p.obj == t;
    var life :=
      if p.init && obj then csr.(valid := true, running := true, par := p.act)
      else if p.slp && obj && HasAuthority(csr, t, p.act) then csr.(running := false)
      else if p.wake && obj && csr.valid then csr.(running := true)
      else if p.kill && obj && csr.valid && HasAuthority(csr, t, p.act) then csr.(valid := false, running := false)
      else csr;
    life.(pc := if p.init && obj then initPc else if pcWr then nxtPc else csr.pc)
  }

  /** thread_csr.sv */
  class ThreadCsr {
    const id: Tid
    var valid: bool
    var running: bool
    var parTrd: Tid
    var curPc: Word

    function State(): Csr
      reads this
    {
      Csr(valid, running, parTrd, curPc)
    }

    constructor Reset(id: Tid)
      ensures this.id == id && State() == Csr(false, false, 0, START_PC)
    {
      this.id := id;
      valid, running, parTrd, curPc := false, false, 0, START_PC;
    }

    method Clock(p: CsrPorts, initPc: Word, pcWr: bool, nxtPc: Word)
      modifies this
      ensures State() == CsrStep(old(State()), id, p, initPc, pcWr, nxtPc)
    {
      if p.init && p.obj == id {
        valid, running, parTrd := true, true, p.act;
      } else if p.slp && p.obj == id && (p.act == parTrd || p.act == id) {
        running := false;
      } else if p.wake && p.obj == id && valid {
        running := true;
      } else if p.kill && p.obj == id && valid && (p.act == parTrd || p.act == id) {
        valid, running := false, false;
      }
      if p.init && p.obj == id {
        curPc := initPc;
      } else if pcWr {
        curPc := nxtPc;
      }
    }
  }

  /** thread_ctrl.sv: the thread table and the thread pointer. Thread 0 always
      starts at START_PC. */
  class ThreadCtrl {
    const csrs: seq<ThreadCsr>
    var delayCount: nat
    var waitTrd: set<nat>
    var lastTrd: Tid
    var curTrdTmp: Tid
    var lastPc: Word
    var rstInit: bool

    predicate Valid() {
      && |csrs| == 8
      && (forall t | 0 <= t < 8 :: csrs[t].id == t)
      && (forall t, u | 0 <= t < u < 8 :: csrs[t] != csrs[u])
    }

    function State(): Ctl
      requires Valid()
      reads this, csrs
    {
      Ctl([csrs[0].State(), csrs[1].State(), csrs[2].State(), csrs[3].State(),
           csrs[4].State(), csrs[5].State(), csrs[6].State(), csrs[7].State()],
          delayCount, waitTrd, lastTrd, curTrdTmp, lastPc, rstInit)
    }

    constructor Reset()
      ensures Valid() && fresh(csrs)
      ensures State() == ResetState().ctl
    {
      var c0 := new ThreadCsr.Reset(0);
      var c1 := new ThreadCsr.Reset(1);
      var c2 := new ThreadCsr.Reset(2);
      var c3 := new ThreadCsr.Reset(3);
      var c4 := new ThreadCsr.Reset(4);
      var c5 := new ThreadCsr.Reset(5);
      var c6 := new ThreadCsr.Reset(6);
      var c7 := new ThreadCsr.Reset(7);
      csrs := [c0, c1, c2, c3, c4, c5, c6, c7];
      delayCount, waitTrd, lastTrd, curTrdTmp, lastPc, rstInit := 0, {}, 0, 0, 0, true;
    }

    /** The table takes the writes of one clock. */
    method ClockTable(p: CsrPorts, initPc: Word, pcWr: seq<bool>, nxtPc: seq<Word>)
      requires Valid() && |pcWr| == |nxtPc| == 8
      modifies csrs
      ensures forall t: Tid ::
                State().csrs[t]
                == CsrStep(old(State()).csrs[t], t, p, if t == 0 then START_PC else initPc, pcWr[t], nxtPc[t])
    {
      hide CsrStep;
      for t := 0 to 8
        invariant forall u | 0 <= u < t ::
          csrs[u].State() == CsrStep(old(csrs[u].State()), u, p, if u == 0 then START_PC else initPc, pcWr[u], nxtPc[u])
        invariant forall u | t <= u < 8 :: csrs[u].State() == old(csrs[u].State())
      {
        csrs[t].Clock(p, if t == 0 then START_PC else initPc, pcWr[t], nxtPc[t]);
      }
    }

    /** The registers of the pointer and of the miss back-off. */
    method ClockPointer(curTrd: Tid, curPc: Word, runTrd: set<nat>, miss: bool, trdMiss: set<nat>)
      modifies this
      ensures delayCount == (old(delayCount) + 1) % 64 && !rstInit
      ensures waitTrd == if old(delayCount) == 0 then {} else if miss then old(waitTrd) + trdMiss else old(waitTrd)
      ensures lastTrd == curTrd && curTrdTmp == Scheduler.Next(8, curTrd, runTrd) && lastPc == curPc
    {
      if delayCount == 0 {
        waitTrd := {};
      } else if miss {
        waitTrd := waitTrd + trdMiss;
      }
      delayCount := (delayCount + 1) % 64;
      lastTrd := curTrd;
      Scheduler.EightWayIsNext(curTrd, runTrd);
      curTrdTmp := Scheduler.NxtTrd(curTrd, runTrd);
      lastPc := curPc;
      rstInit := false;
    }
  }

  // ------------------------------------------------------------ stage registers

  /** IF/DEC of insfetch.sv, with the answer of the instruction memory
      (miss_mem.sv), which is not held on a stall. */
  class FetchStage {
    var trdDec: Tid
    var pcDec: Word
    var insDec: Word
    var iMiss: bool

    function State(): DecReg
      reads this
    {
      DecReg(trdDec, pcDec, insDec, iMiss)
    }

    constructor Reset()
      ensures State() == NO_DEC
    {
      trdDec, pcDec, insDec, iMiss := 0, 0, 0, false;
    }

    method Clock(prog: Program, stall: bool, curTrd: Tid, iAddr: Word, iRd: bool, fetchMiss: bool)
      modifies this
      ensures State() == DecReg(if stall then old(trdDec) else curTrd, if stall then old(pcDec) else iAddr,
                                if iRd && !fetchMiss then prog(iAddr) else 0, iRd && fetchMiss)
    {
      if !stall { trdDec, pcDec := curTrd, iAddr; }
      insDec := if iRd && !fetchMiss then prog(iAddr) else 0;
      iMiss := iRd && fetchMiss;
    }
  }

  /** DEC/EXE of insdec.sv */
  class DecodeStage {
    var trdExe: Tid
    var pcExe: Word
    var insExe: Word
    var ctrlExe: Ctrl

    function State(): ExeReg
      reads this
    {
      ExeReg(trdExe, pcExe, insExe, ctrlExe)
    }

    constructor Reset()
      ensures State() == NO_EXE
    {
      trdExe, pcExe, insExe, ctrlExe := 0, 0, 0, Decode(0);
    }

    /** A flush clears the slot, a stall holds it. */
    method Clock(flushID: bool, stall: bool, d: DecReg)
      modifies this
      ensures State() == if flushID then NO_EXE
                         else if stall then old(State())
                         else ExeReg(d.trd, d.pc, d.ins, Decode(d.ins))
    {
      if flushID {
        trdExe, pcExe, insExe, ctrlExe := 0, 0, 0, Decode(0);
      } else if !stall {
        trdExe, pcExe, insExe, ctrlExe := d.trd, d.pc, d.ins, Decode(d.ins);
      }
    }
  }

  /** EXE/MEM of exe.sv */
  class ExecuteStage {
    var trdMem: Tid
    var pcMem: Word
    var insMem: Word
    var addrMem: Word
    var dataMem: Word
    var regWrMem: Reg
    var wrEnMem: bool
    var wbSelMem: bool
    var memRdMem: bool
    var memWrMem: bool
    var trdOpMem: ThreadOp
    var newPcMem: Word
    var newDataMem: Word

    function State(): MemReg
      reads this
    {
      MemReg(trdMem, pcMem, insMem, addrMem, dataMem, regWrMem, wrEnMem, wbSelMem,
             memRdMem, memWrMem, trdOpMem, newPcMem, newDataMem)
    }

    constructor Reset()
      ensures State() == NO_MEM
    {
      trdMem, pcMem, insMem, addrMem, dataMem, regWrMem := 0, 0, 0, 0, 0, 0;
      wrEnMem, wbSelMem, memRdMem, memWrMem := false, false, false, false;
      trdOpMem, newPcMem, newDataMem := NoOp, 0, 0;
    }

    /** A flush clears the slot, and a stall puts a bubble in its place. */
    method Clock(flushEX: bool, stall: bool, e: ExeReg, o: Outcome, a: Word, b: Word)
      modifies this
      ensures State() == if flushEX || stall then NO_MEM
                         else MemReg(e.trd, e.pc, e.ins, o.addr, o.data, e.c.rd, e.c.wrEn, e.c.wbSel,
                                     e.c.memRd, e.c.memWr, e.c.trdOp, a, b)
    {
      if flushEX || stall {
        trdMem, pcMem, insMem, addrMem, dataMem, regWrMem := 0, 0, 0, 0, 0, 0;
        wrEnMem, wbSelMem, memRdMem, memWrMem := false, false, false, false;
        trdOpMem, newPcMem, newDataMem := NoOp, 0, 0;
      } else {
        trdMem, pcMem, insMem, addrMem, dataMem, regWrMem := e.trd, e.pc, e.ins, o.addr, o.data, e.c.rd;
        wrEnMem, wbSelMem, memRdMem, memWrMem := e.c.wrEn, e.c.wbSel, e.c.memRd, e.c.memWr;
        trdOpMem, newPcMem, newDataMem := e.c.trdOp, a, b;
      }
    }
  }

  /** MEM/WB of mem.sv */
  class MemoryStage {
    var trdWb: Tid
    var pcWb: Word
    var insWb: Word
    var dataWb: Word
    var regWrWb: Reg
    var wrEnWb: bool
    var wbSelWb: bool
    var trdOpWb: ThreadOp
    var newPcWb: Word
    var newDataWb: Word

    /** The slot in WB, with what the data memory answers. */
    function State(rdData: Word, miss: bool): WbReg
      reads this
    {
      WbReg(trdWb, pcWb, insWb, dataWb, regWrWb, wrEnWb, wbSelWb, trdOpWb, newPcWb, newDataWb, rdData, miss)
    }

    constructor Reset()
      ensures State(0, false) == NO_WB
    {
      trdWb, pcWb, insWb, dataWb, regWrWb, wrEnWb, wbSelWb := 0, 0, 0, 0, 0, false, false;
      trdOpWb, newPcWb, newDataWb := NoOp, 0, 0;
    }

    method Clock(flushMEM: bool, m: MemReg)
      modifies this
      ensures forall rdData: Word, miss: bool :: State(rdData, miss) ==
                if flushMEM then NO_WB.(rdData := rdData, miss := miss)
                else WbReg(m.trd, m.pc, m.ins, m.data, m.rd, m.wrEn, m.wbSel, m.trdOp,
                           m.newPc, m.newData, rdData, miss)
    {
      if flushMEM {
        trdWb, pcWb, insWb, dataWb, regWrWb, wrEnWb, wbSelWb := 0, 0, 0, 0, 0, false, false;
        trdOpWb, newPcWb, newDataWb := NoOp, 0, 0;
      } else {
        trdWb, pcWb, insWb, dataWb, regWrWb, wrEnWb, wbSelWb := m.trd, m.pc, m.ins, m.data, m.rd, m.wrEn, m.wbSel;
        trdOpWb, newPcWb, newDataWb := m.trdOp, m.newPc, m.newData;
      }
    }
  }

  /** The data memory of the testbench (miss_mem.sv). */
  class DataMemory {
    var mem: Memory
    var rdData: Word
    var miss: bool

    constructor Reset()
      ensures mem == map[] && rdData == 0 && !miss
    {
      mem, rdData, miss := map[], 0, false;
    }

    /** An access that misses changes nothing. */
    method Clock(dRd: bool, dWr: bool, addr: Word, data: Word, accessMiss: bool)
      modifies this
      ensures mem == if dWr && !accessMiss then old(mem)[addr := data] else old(mem)
      ensures rdData == (if dRd then Load(old(mem), addr) else 0) && miss == ((dRd || dWr) && accessMiss)
    {
      rdData := if dRd then Load(mem, addr) else 0;
      miss := (dRd || dWr) && accessMiss;
      if dWr && !accessMiss { mem := mem[addr := data]; }
    }
  }

  // ------------------------------------------------------------------------ top

  function FilePortsOf(s: Core): FilePorts {
    var d := Decode(s.dec.ins);
    FilePorts(d.ra, d.rb, s.wb.rd, WrEnFinal(s), s.wb.trd, WbData(s), InitWb(s), NewTrd(s.ctl.csrs), s.wb.newData)
  }

  function CsrPortsOf(s: Core): CsrPorts {
    CsrPorts(Init(s), SleepWb(s), WakeWb(s), KillWb(s), ObjTrd(s), s.wb.trd)
  }

  lemma FileStepIsNext(s: Core, t: Tid)
    ensures FileStep(s.rf.files[t], t, FilePortsOf(s).(init := InitWb(s) && t != 0)) == FileNext(s, t)
  {}

  lemma CsrStepIsNext(s: Core, t: Tid)
    ensures CsrStep(s.ctl.csrs[t], t, CsrPortsOf(s), if t == 0 then START_PC else s.wb.newPc, PcWr(s, t), NxtPc(s, t))
            == CsrNext(s, t)
  {
    hide Execute, Forward, NewTrd;
  }

  lemma ResetParts()
    ensures ResetState() == Core(ResetState().ctl, NO_DEC, NO_EXE, ResetState().rf, NO_MEM, NO_WB, map[])
  {}

  /** threadkraken_top.sv */
  class Processor {
    const fetch: FetchStage
    const ctrl: ThreadCtrl
    const decode: DecodeStage
    const files: RegfileSet
    const execute: ExecuteStage
    const memory: MemoryStage
    const dMem: DataMemory

    predicate Valid() { ctrl.Valid() && files.Valid() }

    function State(): Core
      requires Valid()
      reads fetch, ctrl, ctrl.csrs, decode, files, files.files, set f | f in files.files :: f.data
      reads execute, memory, dMem
    {
      Core(ctrl.State(), fetch.State(), decode.State(), files.State(), execute.State(),
           memory.State(dMem.rdData, dMem.miss), dMem.mem)
    }

    constructor (ctrl: ThreadCtrl, files: RegfileSet)
      requires ctrl.Valid() && files.Valid()
      ensures Valid() && this.ctrl == ctrl && this.files == files
      ensures fetch.State() == NO_DEC && decode.State() == NO_EXE && execute.State() == NO_MEM
      ensures memory.State(dMem.rdData, dMem.miss) == NO_WB && dMem.mem == map[]
    {
      this.ctrl, this.files := ctrl, files;
      fetch := new FetchStage.Reset();
      decode := new DecodeStage.Reset();
      execute := new ExecuteStage.Reset();
      memory := new MemoryStage.Reset();
      dMem := new DataMemory.Reset();
    }

    method ClockThreads(s: Core)
      requires Valid() && ctrl.State() == s.ctl
      modifies ctrl, ctrl.csrs
      ensures ctrl.State() == CtlNext(s)
    {
      hide CsrStep, CsrNext, Cur, CurPc, PcWr, NxtPc, RunTrd, TrdMiss, CsrPortsOf, Scheduler.Next;
      ctrl.ClockTable(CsrPortsOf(s), s.wb.newPc, seq(8, t requires 0 <= t < 8 => PcWr(s, t)),
                      seq(8, t requires 0 <= t < 8 => NxtPc(s, t)));
      ctrl.ClockPointer(Cur(s), CurPc(s), RunTrd(s), s.dec.miss || s.wb.miss, TrdMiss(s));
      forall t: Tid ensures ctrl.State().csrs[t] == CsrNext(s, t) { CsrStepIsNext(s, t); }
      assert ctrl.State().csrs == CtlNext(s).csrs;
    }

    method ClockFiles(s: Core)
      requires Valid() && files.State() == s.rf
      modifies files, files.files, set f | f in files.files :: f.data
      ensures files.State() == RfNext(s)
    {
      hide FileStep, FileNext;
      files.Clock(s.dec.trd, FilePortsOf(s));
      forall t: Tid ensures files.State().files[t] == FileNext(s, t) { FileStepIsNext(s, t); }
      assert files.State().files == RfNext(s).files;
    }

    method ClockStages(prog: Program, s: Core, i: Input)
      requires s.dec == fetch.State() && s.ex == decode.State() && s.me == execute.State()
      requires s.wb == memory.State(dMem.rdData, dMem.miss) && s.mem == dMem.mem
      modifies fetch, decode, execute, memory, dMem
      ensures fetch.State() == DecNext(prog, s, i) && decode.State() == ExeNext(s) && execute.State() == MemNext(s)
      ensures memory.State(dMem.rdData, dMem.miss) == WbNext(s, i) && dMem.mem == MemoryNext(s, i)
    {
      hide Cur, CurPc, IRd, FlushID, FlushEX, FlushMEM, Stall, ExeOut, FwdA, FwdB, Decode;
      fetch.Clock(prog, Stall(s), Cur(s), CurPc(s), IRd(s), i.fetchMiss);
      decode.Clock(FlushID(s), Stall(s), s.dec);
      execute.Clock(FlushEX(s), Stall(s), s.ex, ExeOut(s), FwdA(s), FwdB(s));
      memory.Clock(FlushMEM(s), s.me);
      dMem.Clock(DRd(s), DWr(s), s.me.addr, s.me.data, i.accessMiss);
    }

    /** One clock: every block reads the wires as they were before it. */
    method Clock(prog: Program, i: Input)
      requires Valid()
      modifies fetch, ctrl, ctrl.csrs, decode, files, files.files, set f | f in files.files :: f.data
      modifies execute, memory, dMem
      ensures State() == Step(prog, old(State()), i)
    {
      hide CtlNext, DecNext, ExeNext, RfNext, MemNext, WbNext, MemoryNext;
      hide RegfileSet.State, ThreadCtrl.State, RegfileSet.Valid, ThreadCtrl.Valid;
      var s := State();
      ClockThreads(s);
      assert files.State() == s.rf;
      ClockFiles(s);
      assert ctrl.State() == CtlNext(s);
      ClockStages(prog, s, i);
      assert ctrl.State() == CtlNext(s) && files.State() == RfNext(s);
    }
  }

  /** The processor while reset is held. */
  method Reset() returns (p: Processor)
    ensures p.Valid() && p.State() == ResetState()
  {
    hide RegfileSet.Valid, ThreadCtrl.Valid, RegfileSet.State, ThreadCtrl.State, ResetState;
    var ctrl := new ThreadCtrl.Reset();
    var files := new RegfileSet.Reset();
    p := new Processor(ctrl, files);
    ResetParts();
  }
}
