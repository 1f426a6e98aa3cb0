/** What the data memory brings back: a load gives the data of the last store to its
    address, over every run of the sequential machine and of the pipeline. */
module Storage {
  import opened Isa
  import opened Core
  import opened Refinement
  import opened Runs

  /** A store: where it goes, and what it puts there. */
  datatype Write = Write(addr: Word, data: Word)

  /** The j-th of the writes is the last one to a. */
  predicate LastAt(ws: seq<Write>, a: Word, j: nat) {
    j < |ws| && ws[j].addr == a && forall i | j < i < |ws| :: ws[i].addr != a
  }

  predicate Unwritten(ws: seq<Write>, a: Word) { forall i | 0 <= i < |ws| :: ws[i].addr != a }

  /** v is what a holds after the writes: the data of the last one to it, or 0. */
  ghost predicate Holds(ws: seq<Write>, a: Word, v: Word) {
    && (forall j: nat | LastAt(ws, a, j) :: v == ws[j].data)
    && (Unwritten(ws, a) ==> v == 0)
  }

  /** Some write is the last one to a, or there is none, so that v is determined. */
  lemma {:induction false} SomeLast(ws: seq<Write>, a: Word)
    ensures Unwritten(ws, a) || exists j: nat :: LastAt(ws, a, j)
    decreases |ws|
  {
    if ws != [] {
      var init, k := ws[..|ws| - 1], |ws| - 1;
      SomeLast(init, a);
      if ws[k].addr == a {
        assert LastAt(ws, a, k);
      } else if j: nat :| LastAt(init, a, j) {
        assert LastAt(ws, a, j);
      }
    }
  }

  /** m is the memory after the writes. */
  ghost predicate Remembers(m: Memory, ws: seq<Write>) { forall a: Word :: Holds(ws, a, Load(m, a)) }

  lemma StartsEmpty()
    ensures Remembers(map[], [])
  {}

  lemma Another(m: Memory, ws: seq<Write>, w: Write)
    requires Remembers(m, ws)
    ensures Remembers(m[w.addr := w.data], ws + [w])
  {
    var m' := m[w.addr := w.data];
    forall a: Word ensures Holds(ws + [w], a, Load(m', a)) {
      assert Holds(ws, a, Load(m, a));
      if a == w.addr { LastIsNew(ws, w); } else { LastIsOld(ws, w, a); }
    }
  }

  lemma LastIsNew(ws: seq<Write>, w: Write)
    ensures !Unwritten(ws + [w], w.addr)
    ensures forall j: nat | LastAt(ws + [w], w.addr, j) :: j == |ws|
  {
    assert (ws + [w])[|ws|] == w;
  }

  lemma LastIsOld(ws: seq<Write>, w: Write, a: Word)
    requires a != w.addr
    ensures Unwritten(ws + [w], a) ==> Unwritten(ws, a)
    ensures forall j: nat | LastAt(ws + [w], a, j) :: LastAt(ws, a, j) && (ws + [w])[j] == ws[j]
  {
    assert (ws + [w])[|ws|] == w;
    assert forall i | 0 <= i < |ws| :: (ws + [w])[i] == ws[i];
  }

  // ------------------------------------------------- the sequential machine

  /** The store of the instruction that thread t executes next, if it is one: its second
      register, at the address it computes. */
  function Storing(prog: Program, m: Arch, t: Tid): seq<Write> {
    var pc := m.threads[t].pc;
    var c := Decode(prog(pc));
    if c.memWr then [Write(AddressOf(prog, m, t), m.regs[t][c.rb])] else []
  }

  function AddressOf(prog: Program, m: Arch, t: Tid): Word {
    var pc := m.threads[t].pc;
    var c := Decode(prog(pc));
    Execute(c, pc, m.regs[t][c.ra], m.regs[t][c.rb]).addr
  }

  /** The instruction that thread t executes next loads register r. */
  predicate Loading(prog: Program, m: Arch, t: Tid, r: Reg) {
    var c := Decode(prog(m.threads[t].pc));
    c.memRd && c.rd == r && r > 1
  }

  /** The stores of a run, in order. */
  function Stores(prog: Program, m: Arch, ts: seq<Tid>): seq<Write>
    decreases |ts|
  {
    if ts == [] then [] else Storing(prog, m, ts[0]) + Stores(prog, SeqStep(prog, m, ts[0]), ts[1..])
  }

  lemma StepStores(prog: Program, m: Arch, t: Tid)
    ensures var m' := SeqStep(prog, m, t); var ws := Storing(prog, m, t);
            m'.mem == if ws == [] then m.mem else m.mem[ws[0].addr := ws[0].data]
  {
    MemoryNeverJumps(prog(m.threads[t].pc));
    hide Decode, Alu, Target, Taken, InitBank, NewTrd;
  }

  lemma LoadsRegister(prog: Program, m: Arch, t: Tid, r: Reg)
    requires Loading(prog, m, t, r)
    ensures SeqStep(prog, m, t).regs[t][r] == Load(m.mem, AddressOf(prog, m, t))
  {
    var ins := prog(m.threads[t].pc);
    LoadDecoded(ins);
    hide Decode, Execute, InitBank, NewTrd, Load;
  }

  lemma LoadDecoded(ins: Word)
    ensures var c := Decode(ins); c.memRd ==> c.wrEn && c.wbSel && c.trdOp == NoOp
  {}

  lemma {:induction false} SeqRemembers(prog: Program, m: Arch, ws: seq<Write>, ts: seq<Tid>)
    requires Remembers(m.mem, ws)
    ensures Remembers(SeqRun(prog, m, ts).mem, ws + Stores(prog, m, ts))
    decreases |ts|
  {
    hide SeqStep, Remembers, Storing;
    if ts == [] {
      assert ws + [] == ws;
    } else {
      var now, m' := Storing(prog, m, ts[0]), SeqStep(prog, m, ts[0]);
      StepStores(prog, m, ts[0]);
      OneStore(prog, m, ts[0]);
      if now != [] { Another(m.mem, ws, now[0]); }
      assert ws + [] == ws;
      SeqRemembers(prog, m', ws + now, ts[1..]);
      assert (ws + now) + Stores(prog, m', ts[1..]) == ws + (now + Stores(prog, m', ts[1..]));
    }
  }

  lemma OneStore(prog: Program, m: Arch, t: Tid)
    ensures var now := Storing(prog, m, t); now == [] || now == [now[0]]
  {}

  /** From reset, in whatever order the threads take their turns, a load brings the data
      of the last store to its address, and 0 when there was none. */
  lemma LoadBringsLast(prog: Program, ts: seq<Tid>, t: Tid, r: Reg)
    requires Loading(prog, SeqRun(prog, ResetArch(), ts), t, r)
    ensures var m := SeqRun(prog, ResetArch(), ts);
            Holds(Stores(prog, ResetArch(), ts), AddressOf(prog, m, t), SeqStep(prog, m, t).regs[t][r])
  {
    var m := SeqRun(prog, ResetArch(), ts);
    hide SeqStep, SeqRun, Stores, Loading, AddressOf;
    StartsEmpty();
    SeqRemembers(prog, ResetArch(), [], ts);
    assert [] + Stores(prog, ResetArch(), ts) == Stores(prog, ResetArch(), ts);
    LoadsRegister(prog, m, t, r);
  }

  lemma {:induction false} Undisturbed(prog: Program, m: Arch, ts: seq<Tid>, a: Word)
    requires Unwritten(Stores(prog, m, ts), a)
    ensures Load(SeqRun(prog, m, ts).mem, a) == Load(m.mem, a)
    decreases |ts|
  {
    hide SeqStep, Storing;
    if ts != [] {
      var now, later := Storing(prog, m, ts[0]), Stores(prog, SeqStep(prog, m, ts[0]), ts[1..]);
      StepStores(prog, m, ts[0]);
      assert forall i | 0 <= i < |now| :: now[i] == (now + later)[i];
      assert forall i | 0 <= i < |later| :: later[i] == (now + later)[|now| + i];
      Undisturbed(prog, SeqStep(prog, m, ts[0]), ts[1..], a);
    }
  }

  /** From any state: thread t stores a register, whatever turns ts follow do not store
      to that address, and thread u loads it. The load gives that register back. */
  lemma StoreThenLoad(prog: Program, m: Arch, t: Tid, ts: seq<Tid>, u: Tid, r: Reg)
    requires Storing(prog, m, t) != []
    requires var m1 := SeqStep(prog, m, t); var m2 := SeqRun(prog, m1, ts);
             && Unwritten(Stores(prog, m1, ts), AddressOf(prog, m, t))
             && Loading(prog, m2, u, r) && AddressOf(prog, m2, u) == AddressOf(prog, m, t)
    ensures SeqStep(prog, SeqRun(prog, SeqStep(prog, m, t), ts), u).regs[u][r]
         == m.regs[t][Decode(prog(m.threads[t].pc)).rb]
  {
    var m1 := SeqStep(prog, m, t);
    StepStores(prog, m, t);
    hide SeqStep, SeqRun, Stores, Loading, AddressOf, Decode, Unwritten;
    Undisturbed(prog, m1, ts, AddressOf(prog, m, t));
    LoadsRegister(prog, SeqRun(prog, m1, ts), u, r);
  }

  // ------------------------------------------------------------ the pipeline

  /** What the data memory is given to write, over a run of the pipeline. */
  function MemoryWrites(prog: Program, s: Core, ins: seq<Input>): seq<Write>
    decreases |ins|
  {
    if ins == [] then []
    else (if DWr(s) && !ins[0].accessMiss then [Write(s.me.addr, s.me.data)] else [])
         + MemoryWrites(prog, Step(prog, s, ins[0]), ins[1..])
  }

  lemma {:induction false} MemoryRemembers(prog: Program, s: Core, ws: seq<Write>, ins: seq<Input>)
    requires Remembers(s.mem, ws)
    ensures Remembers(Run(prog, s, ins).mem, ws + MemoryWrites(prog, s, ins))
    decreases |ins|
  {
    hide CtlNext, DecNext, ExeNext, RfNext, MemNext, WbNext, Remembers, DWr;
    if ins == [] {
      assert ws + [] == ws;
    } else {
      var s' := Step(prog, s, ins[0]);
      var now := if DWr(s) && !ins[0].accessMiss then [Write(s.me.addr, s.me.data)] else [];
      if now != [] { Another(s.mem, ws, now[0]); } else { assert ws + now == ws; }
      MemoryRemembers(prog, s', ws + now, ins[1..]);
      assert (ws + now) + MemoryWrites(prog, s', ins[1..]) == ws + (now + MemoryWrites(prog, s', ins[1..]));
    }
  }

  /** Every access of every program, whatever was flushed or missed before: the data of a
      load, as it enters WB, is that of the last write the memory took for its address. */
  lemma AccessBringsLast(prog: Program, ins: seq<Input>, i: Input)
    requires DRd(Run(prog, ResetState(), ins))
    ensures var s := Run(prog, ResetState(), ins);
            Holds(MemoryWrites(prog, ResetState(), ins), s.me.addr, WbNext(s, i).rdData)
  {
    var s := Run(prog, ResetState(), ins);
    hide Run, MemoryWrites, DRd, FlushMEM;
    StartsEmpty();
    assert ResetState().mem == map[];
    MemoryRemembers(prog, ResetState(), [], ins);
    assert [] + MemoryWrites(prog, ResetState(), ins) == MemoryWrites(prog, ResetState(), ins);
    assert Holds(MemoryWrites(prog, ResetState(), ins), s.me.addr, Load(s.mem, s.me.addr));
  }

  /** Over a clean run those are the stores of the instructions that commit. */
  lemma CommittedStores(prog: Program, first: Input, ins: seq<Input>)
    requires OrdinaryProgram(prog) && CleanRun(prog, PipeStep(prog, ResetPipe(), first), ins)
    ensures var k := PipeStep(prog, ResetPipe(), first);
            Remembers(PipeRun(prog, k, ins).s.mem, Stores(prog, ResetArch(), Committed(prog, k, ins)))
  {
    var k := PipeStep(prog, ResetPipe(), first);
    ResetRunRefines(prog, first, ins);
    hide PipeStep, PipeRun, Committed, SeqRun, Stores, CleanRun, OrdinaryProgram, Regs, Threads, ResetPipe, Remembers;
    var ws := Stores(prog, ResetArch(), Committed(prog, k, ins));
    assert Remembers(map[], []) by { StartsEmpty(); }
    SeqRemembers(prog, ResetArch(), [], Committed(prog, k, ins));
    assert [] + ws == ws;
  }
}
