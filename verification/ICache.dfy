/** The instruction cache of the Zedboard (i_cache_zed.sv) and the handshake
    that fills it from the host (mmu_zed.sv). */
module ICache {

  type Word = n: nat | n < 0x1_0000_0000
  type Host = Word -> Word
  type Line = s: seq<Word> | |s| == 8 witness seq(8, _ => 0)
  type Words = s: seq<Word> | |s| == 512 witness seq(512, _ => 0)
  type Flags = s: seq<bool> | |s| == 64 witness seq(64, _ => false)

  /** Program memory: the 512 words from 0x0001_0000 on. */
  const BASE := 0x0001_0000
  predicate InRange(a: Word) { BASE <= a < BASE + 512 }

  function Index(a: Word): nat { a % 512 }
  function LineOf(a: Word): nat { a % 512 / 8 }
  function Align(a: Word): Word { a / 8 * 8 }

  /** `segfault` */
  predicate Segfault(a: Word) { a / 0x1000 != 0x10 || a / 0x200 % 8 != 0 }

  lemma SegfaultIsOutOfRange(a: Word)
    ensures Segfault(a) <==> !InRange(a)
  {}

  datatype Cache = Cache(mem: Words, valid: Flags, miss: bool, rdData: Word, segfault: bool,
                         lastAddr: Word, missAddr: Word, rdReq: bool)

  datatype Fetch = Fetch(rd: bool, addr: Word)

  /** The line a fill writes; the address it uses is the miss address. */
  function Filled(mem: Words, a: Word, line: Line): (m: Words)
    ensures forall i | 0 <= i < 512 :: m[i] == if Index(a) <= i < Index(a) + 8 then line[i - Index(a)] else mem[i]
  {
    seq(512, i requires 0 <= i < 512 => if Index(a) <= i < Index(a) + 8 then line[i - Index(a)] else mem[i])
  }

  function CacheNext(c: Cache, f: Fetch, fill: bool, line: Line): Cache {
    var hit := c.valid[LineOf(f.addr)];
    Cache(
      if fill then Filled(c.mem, c.missAddr, line) else c.mem,
      if fill then c.valid[LineOf(c.missAddr) := true] else c.valid,
      f.rd && (c.miss || (!Segfault(f.addr) && !hit)),
      if !f.rd then 0 else if !Segfault(f.addr) && hit then c.mem[Index(f.addr)] else c.rdData,
      f.rd && (c.segfault || Segfault(f.addr)),
      if f.rd then f.addr else c.lastAddr,
      if c.miss && !c.rdReq then Align(c.lastAddr) else if fill then 0 else c.missAddr,
      if c.miss && !c.rdReq then true else if fill then false else c.rdReq)
  }

  class ICacheZed {
    const mem: array<Word>
    const valid: array<bool>
    var iMiss: bool
    var iRdData: Word
    var iSegfault: bool
    var lastAddr: Word
    var iMissAddr: Word
    var iRdReq: bool

    ghost predicate Valid()
      reads this
    {
      mem.Length == 512 && valid.Length == 64 && iMissAddr % 8 == 0
    }

    ghost function Abs(): Cache
      requires Valid()
      reads this, mem, valid
    {
      Cache(mem[..], valid[..], iMiss, iRdData, iSegfault, lastAddr, iMissAddr, iRdReq)
    }

    constructor Reset()
      ensures Valid() && fresh(mem) && fresh(valid)
      ensures var c := Abs();
              c == Cache(c.mem, c.valid, false, 0, false, 0, 0, false) && forall l | 0 <= l < 64 :: !c.valid[l]
    {
      mem := new Word[512];
      valid := new bool[64](_ => false);
      iMiss, iRdData, iSegfault, lastAddr, iMissAddr, iRdReq := false, 0, false, 0, 0, false;
    }

    /** The eight words of a line, written in place. */
    method Fill(line: Line)
      requires Valid()
      modifies mem, valid
      ensures mem[..] == Filled(old(mem[..]), iMissAddr, line)
      ensures valid[..] == old(valid[..])[LineOf(iMissAddr) := true]
    {
      var hostPhyAddr := iMissAddr % 512;
      for j := 0 to 8
        modifies mem
        invariant forall i | 0 <= i < 512 ::
          mem[i] == if hostPhyAddr <= i < hostPhyAddr + j then line[i - hostPhyAddr] else old(mem[i])
      {
        mem[hostPhyAddr + j] := line[j];
      }
      assert mem[..] == Filled(old(mem[..]), iMissAddr, line);
      valid[hostPhyAddr / 8] := true;
    }

    method Clock(f: Fetch, hostRdValid: bool, line: Line)
      requires Valid()
      modifies this, mem, valid
      ensures Valid() && Abs() == CacheNext(old(Abs()), f, hostRdValid, line)
    {
      var missed, last := iMiss, lastAddr;
      if f.rd {
        if f.addr / 0x1000 != 0x10 || f.addr / 0x200 % 8 != 0 { iSegfault := true; }
        else if !valid[f.addr % 512 / 8] { iMiss := true; }
        else { iRdData := mem[f.addr % 512]; }
        lastAddr := f.addr;
      } else {
        iSegfault, iMiss, iRdData := false, false, 0;
      }
      if hostRdValid { Fill(line); }
      if missed && !iRdReq {
        iRdReq, iMissAddr := true, last / 8 * 8;
      } else if hostRdValid {
        iRdReq, iMissAddr := false, 0;
      }
    }
  }

  // ------------------------------------------------------------- handshake

  datatype Phase = IDLE | READ | WAIT | DONE

  datatype Mmu = Mmu(cache: Cache, phase: Phase)

  /** A clock of the memory unit: the fetch presented, the host's two signals and
      its data lines. */
  datatype Port = Port(fetch: Fetch, reqGet: bool, dataValid: bool, line: Line)

  function PhaseNext(p: Phase, rdReq: bool, i: Port): Phase {
    match p
    case IDLE => if rdReq then READ else IDLE
    case READ => if i.reqGet then WAIT else READ
    case WAIT => if i.dataValid then DONE else WAIT
    case DONE => IDLE
  }

  function HostRdAddr(m: Mmu): Word { if m.phase == READ then m.cache.missAddr else 0 }

  function MmuNext(m: Mmu, i: Port): Mmu {
    Mmu(CacheNext(m.cache, i.fetch, m.phase == DONE, i.line), PhaseNext(m.phase, m.cache.rdReq, i))
  }

  class MmuZed {
    const iCache: ICacheZed
    var state: Phase

    ghost predicate Valid()
      reads this, iCache
    {
      iCache.Valid()
    }

    ghost function Abs(): Mmu
      requires Valid()
      reads this, iCache, iCache.mem, iCache.valid
    {
      Mmu(iCache.Abs(), state)
    }

    constructor Reset()
      ensures Valid() && fresh(iCache) && fresh(iCache.mem) && fresh(iCache.valid)
      ensures ResetMmu(Abs())
    {
      iCache := new ICacheZed.Reset();
      state := IDLE;
    }

    method Clock(i: Port)
      requires Valid()
      modifies this, iCache, iCache.mem, iCache.valid
      ensures Valid() && Abs() == MmuNext(old(Abs()), i)
    {
      var hostRdValid := state == DONE;
      match state {
        case IDLE => if iCache.iRdReq { state := READ; }
        case READ => if i.reqGet { state := WAIT; }
        case WAIT => if i.dataValid { state := DONE; }
        case DONE => state := IDLE;
      }
      iCache.Clock(i.fetch, hostRdValid, i.line);
    }
  }

  predicate ResetMmu(m: Mmu) {
    && m.phase == IDLE && !m.cache.miss && !m.cache.rdReq && m.cache.missAddr == 0
    && forall l | 0 <= l < 64 :: !m.cache.valid[l]
  }

  // ------------------------------------------------- agreement with the host

  /** The memory unit with the address the host took from it last. */
  datatype System = System(m: Mmu, taken: Word)

  function SystemNext(y: System, i: Port): System {
    System(MmuNext(y.m, i), if y.m.phase == READ && i.reqGet then HostRdAddr(y.m) else y.taken)
  }

  function HostLine(host: Host, a: Word): Line
    requires a + 8 <= 0x1_0000_0000
  {
    [host(a), host(a + 1), host(a + 2), host(a + 3), host(a + 4), host(a + 5), host(a + 6), host(a + 7)]
  }

  /** The program only fetches from program memory, and when the host says its
      data is there it is the line at the address it took. */
  predicate Behaves(host: Host, y: System, i: Port) {
    && (i.fetch.rd ==> InRange(i.fetch.addr))
    && (y.m.phase == DONE && y.taken + 8 <= 0x1_0000_0000 ==> i.line == HostLine(host, y.taken))
  }

  /** Line l of the cache is the l-th line of program memory. */
  predicate LineAgrees(host: Host, mem: Words, l: nat)
    requires l < 64
  {
    forall i | 8 * l <= i < 8 * l + 8 :: mem[i] == host(BASE + i)
  }

  predicate Agrees(host: Host, c: Cache) {
    forall l | 0 <= l < 64 && c.valid[l] :: LineAgrees(host, c.mem, l)
  }

  predicate Inv(host: Host, y: System) {
    var c := y.m.cache;
    && c.missAddr % 8 == 0
    && (y.m.phase != IDLE ==> c.rdReq)
    && (y.m.phase == WAIT || y.m.phase == DONE ==> y.taken == c.missAddr)
    && (c.miss ==> InRange(c.lastAddr)) && (c.rdReq ==> InRange(c.missAddr))
    && Agrees(host, c)
  }

  lemma ResetAgrees(host: Host, y: System)
    requires ResetMmu(y.m)
    ensures Inv(host, y)
  {}

  lemma HostLineAt(host: Host, a: Word, j: nat)
    requires a + 8 <= 0x1_0000_0000 && j < 8
    ensures HostLine(host, a)[j] == host(a + j)
  {
    if j < 4 {
      assert j == 0 || j == 1 || j == 2 || j == 3;
    } else {
      assert j == 4 || j == 5 || j == 6 || j == 7;
    }
  }

  lemma FillAgrees(host: Host, mem: Words, a: Word, l: nat)
    requires a % 8 == 0 && InRange(a) && l < 64
    requires l == LineOf(a) || LineAgrees(host, mem, l)
    ensures LineAgrees(host, Filled(mem, a, HostLine(host, a)), l)
  {
    var m := Filled(mem, a, HostLine(host, a));
    assert Index(a) == a - BASE == 8 * LineOf(a);
    forall i | 8 * l <= i < 8 * l + 8 ensures m[i] == host(BASE + i) {
      if l == LineOf(a) { HostLineAt(host, a, i - Index(a)); }
    }
  }

  lemma InvKept(host: Host, y: System, i: Port)
    requires Inv(host, y) && Behaves(host, y, i)
    ensures Inv(host, SystemNext(y, i))
  {
    var c := y.m.cache;
    var c' := SystemNext(y, i).m.cache;
    forall l | 0 <= l < 64 && c'.valid[l] ensures LineAgrees(host, c'.mem, l) {
      if y.m.phase == DONE { FillAgrees(host, c.mem, c.missAddr, l); }
    }
  }

  /** A fetch that hits brings the host's word. */
  lemma HitsReturnHostWord(host: Host, y: System, i: Port)
    requires Inv(host, y) && i.fetch.rd && InRange(i.fetch.addr) && y.m.cache.valid[LineOf(i.fetch.addr)]
    ensures SystemNext(y, i).m.cache.rdData == host(i.fetch.addr)
  {
    var a := i.fetch.addr;
    SegfaultIsOutOfRange(a);
    assert LineAgrees(host, y.m.cache.mem, LineOf(a));
    assert y.m.cache.mem[Index(a)] == host(BASE + Index(a));
  }

  /** From the request until its fill the miss address does not move; then the
      line it names is valid. */
  lemma RequestIsStable(host: Host, y: System, i: Port)
    requires Inv(host, y) && y.m.cache.rdReq
    ensures var c := y.m.cache; var c' := SystemNext(y, i).m.cache;
            && c.missAddr % 8 == 0
            && (y.m.phase != DONE ==> c'.rdReq && c'.missAddr == c.missAddr)
            && (y.m.phase == DONE ==> !c'.rdReq && c'.valid[LineOf(c.missAddr)])
  {}

  function SystemRun(y: System, ps: seq<Port>): System
    decreases |ps|
  {
    if ps == [] then y else SystemRun(SystemNext(y, ps[0]), ps[1..])
  }

  predicate BehavesAll(host: Host, y: System, ps: seq<Port>)
    decreases |ps|
  {
    ps != [] ==> Behaves(host, y, ps[0]) && BehavesAll(host, SystemNext(y, ps[0]), ps[1..])
  }

  function RequestsRaised(y: System, ps: seq<Port>): nat
    decreases |ps|
  {
    if ps == [] then 0
    else (if y.m.cache.miss && !y.m.cache.rdReq then 1 else 0) + RequestsRaised(SystemNext(y, ps[0]), ps[1..])
  }

  function FillsMade(y: System, ps: seq<Port>): nat
    decreases |ps|
  {
    if ps == [] then 0
    else (if y.m.phase == DONE then 1 else 0) + FillsMade(SystemNext(y, ps[0]), ps[1..])
  }

  function Open(y: System): nat { if y.m.cache.rdReq then 1 else 0 }

  /** Over every run: each request is answered by exactly one fill or is still
      open, and every valid line equals program memory. */
  lemma {:induction false} OneFillPerRequest(host: Host, y: System, ps: seq<Port>)
    requires Inv(host, y) && BehavesAll(host, y, ps)
    ensures Open(y) + RequestsRaised(y, ps) == FillsMade(y, ps) + Open(SystemRun(y, ps))
    ensures Agrees(host, SystemRun(y, ps).m.cache)
    decreases |ps|
  {
    if ps != [] {
      InvKept(host, y, ps[0]);
      OneFillPerRequest(host, SystemNext(y, ps[0]), ps[1..]);
    }
  }

  /** A request names a line of program memory exactly when the last fetch was in
      range: the miss flag outlives the miss, so that a later stray fetch can
      turn into a request for its own address. */
  lemma RequestRangeExact(y: System, i: Port)
    requires y.m.cache.miss && !y.m.cache.rdReq
    ensures InRange(SystemNext(y, i).m.cache.missAddr) <==> InRange(y.m.cache.lastAddr)
  {}

  /** A fill from address a makes its line agree with every host exactly when a
      is in range. */
  lemma FillExact(mem: Words, a: Word)
    requires a % 8 == 0 && a + 8 <= 0x1_0000_0000
    ensures (forall host: Host :: LineAgrees(host, Filled(mem, a, HostLine(host, a)), LineOf(a))) <==> InRange(a)
  {
    if InRange(a) {
      forall host: Host ensures LineAgrees(host, Filled(mem, a, HostLine(host, a)), LineOf(a)) {
        FillAgrees(host, mem, a, LineOf(a));
      }
    } else {
      var host: Host := x => if x == a then 1 else 0;
      var m := Filled(mem, a, HostLine(host, a));
      assert m[8 * LineOf(a)] == HostLine(host, a)[0] == 1;
      assert !LineAgrees(host, m, LineOf(a));
    }
  }

  // ------------------------------------------------------- a miss is served

  /** The miss flag after a clock: a fetch of program memory whose line is not there
      raises it, and it stays up as long as something is fetched. The data of the last
      hit stays as well. */
  lemma MissExact(c: Cache, f: Fetch, fill: bool, line: Line)
    ensures var c' := CacheNext(c, f, fill, line);
            && (c'.miss <==> f.rd && (c.miss || (InRange(f.addr) && !c.valid[LineOf(f.addr)])))
            && (c'.segfault <==> f.rd && (c.segfault || !InRange(f.addr)))
            && (f.rd ==> c'.lastAddr == f.addr)
            && (f.rd && InRange(f.addr) && c.valid[LineOf(f.addr)] ==> c'.rdData == c.mem[f.addr - BASE])
            && (f.rd && !(InRange(f.addr) && c.valid[LineOf(f.addr)]) ==> c'.rdData == c.rdData)
            && (!f.rd ==> c'.rdData == 0)
  {
    SegfaultIsOutOfRange(f.addr);
  }

  predicate NoTake(ps: seq<Port>) { forall j | 0 <= j < |ps| :: !ps[j].reqGet }
  predicate NoData(ps: seq<Port>) { forall j | 0 <= j < |ps| :: !ps[j].dataValid }

  /** The request for address a is out, and the handshake is in phase p. */
  predicate Asking(y: System, a: Word, p: Phase) {
    y.m.phase == p && y.m.cache.rdReq && y.m.cache.missAddr == a
  }

  lemma {:induction false} AsksOn(y: System, a: Word, ps: seq<Port>)
    requires Asking(y, a, READ) && NoTake(ps)
    ensures Asking(SystemRun(y, ps), a, READ)
    decreases |ps|
  {
    if ps != [] { AsksOn(SystemNext(y, ps[0]), a, ps[1..]); }
  }

  lemma {:induction false} WaitsOn(y: System, a: Word, ps: seq<Port>)
    requires Asking(y, a, WAIT) && NoData(ps)
    ensures Asking(SystemRun(y, ps), a, WAIT)
    decreases |ps|
  {
    if ps != [] { WaitsOn(SystemNext(y, ps[0]), a, ps[1..]); }
  }

  lemma Opened(y: System, p: Port, p1: Port, p2: Port)
    requires y.m.phase == IDLE && !y.m.cache.miss && !y.m.cache.rdReq
    requires p.fetch.rd && InRange(p.fetch.addr) && !y.m.cache.valid[LineOf(p.fetch.addr)]
    ensures Asking(SystemNext(SystemNext(SystemNext(y, p), p1), p2), Align(p.fetch.addr), READ)
  {
    MissExact(y.m.cache, p.fetch, false, p.line);
    var y1 := SystemNext(y, p);
    assert y1.m.cache.miss && y1.m.cache.lastAddr == p.fetch.addr && !y1.m.cache.rdReq && y1.m.phase == IDLE;
    hide Filled, Segfault, LineOf, Index;
    var y2 := SystemNext(y1, p1);
    assert Asking(y2, Align(p.fetch.addr), IDLE);
  }

  lemma Moves(y: System, a: Word, i: Port)
    requires Asking(y, a, y.m.phase)
    ensures y.m.phase == READ && i.reqGet ==> HostRdAddr(y.m) == a && SystemNext(y, i).taken == a
    ensures y.m.phase == READ && i.reqGet ==> Asking(SystemNext(y, i), a, WAIT)
    ensures y.m.phase == WAIT && i.dataValid ==> Asking(SystemNext(y, i), a, DONE)
  {
    hide Filled;
  }

  lemma FillsWord(y: System, a: Word, i: Port)
    requires Asking(y, Align(a), DONE)
    ensures var e := SystemNext(y, i);
            e.m.phase == IDLE && e.m.cache.valid[LineOf(a)] && e.m.cache.mem[Index(a)] == i.line[a % 8]
  {
    Aligned(a);
    hide Align, Segfault;
  }

  lemma Aligned(a: Word)
    ensures LineOf(Align(a)) == LineOf(a) && Index(a) == Index(Align(a)) + a % 8 && Index(Align(a)) <= 504
  {
    var h, r := a / 512, a % 512;
    assert Align(a) == 512 * h + r / 8 * 8;
  }

  /** A fetch that misses while nothing is under way: two clocks later its line is asked
      for; whenever the host takes the request, and whenever it answers after that, the
      line it brings is in place and valid in the clock after the answer, whatever is
      fetched meanwhile. */
  lemma MissIsServed(y: System, p: Port, p1: Port, p2: Port, asks: seq<Port>, take: Port, waits: seq<Port>,
                     answer: Port, fill: Port)
    requires y.m.phase == IDLE && !y.m.cache.miss && !y.m.cache.rdReq
    requires p.fetch.rd && InRange(p.fetch.addr) && !y.m.cache.valid[LineOf(p.fetch.addr)]
    requires NoTake(asks) && take.reqGet && NoData(waits) && answer.dataValid
    ensures var a := p.fetch.addr;
            var asked := SystemNext(SystemNext(SystemNext(y, p), p1), p2);
            var waiting := SystemNext(SystemRun(asked, asks), take);
            var done := SystemNext(SystemRun(waiting, waits), answer);
            var e := SystemNext(done, fill);
            && asked.m.phase == READ && HostRdAddr(asked.m) == waiting.taken == Align(a) && done.m.phase == DONE
            && e.m.phase == IDLE && e.m.cache.valid[LineOf(a)] && e.m.cache.mem[Index(a)] == fill.line[a % 8]
  {
    var a := p.fetch.addr;
    Opened(y, p, p1, p2);
    hide SystemNext, SystemRun, LineOf, Index, Align, NoTake, NoData;
    var asked := SystemNext(SystemNext(SystemNext(y, p), p1), p2);
    AsksOn(asked, Align(a), asks);
    Moves(SystemRun(asked, asks), Align(a), take);
    var waiting := SystemNext(SystemRun(asked, asks), take);
    WaitsOn(waiting, Align(a), waits);
    Moves(SystemRun(waiting, waits), Align(a), answer);
    FillsWord(SystemNext(SystemRun(waiting, waits), answer), a, fill);
  }
}
