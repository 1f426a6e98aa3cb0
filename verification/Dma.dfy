/** The DMA engine (cci_dma.sv): reads cache lines from the host through a FIFO
    under credit-based flow control, and writes lines back. */
module Dma {
  import opened Options
  import F = Fifo

  const FIFO_DEPTH := 512
  const ADDRS := 0x400_0000_0000     // 42-bit cache line addresses
  const COUNTS := 0x800_0000_0000    // 43-bit line counts

  type Addr = n: nat | n < ADDRS
  type Count = n: nat | n < COUNTS

  /** The read registers with the request register `c0Tx`. */
  datatype ReadRegs = ReadRegs(addr: Addr, cciRem: Count, pending: Count, dmaRem: Count, tx: Option<Addr>)

  /** The write registers with the request register `c1Tx`. */
  datatype WriteRegs<T> = WriteRegs(addr: Addr, rem: Count, delayed: bool, tx: Option<(Addr, T)>)

  datatype State<T> = State(rd: ReadRegs, wr: WriteRegs<T>, fifo: F.Queue<T>)

  /** The inputs of one clock: the user's side of `dma_if`, and the host's side. */
  datatype Port<T> = Port(
    rdGo: bool, rdByteAddr: nat, rdSize: Count, rdEn: bool, txFull: bool, rxValid: bool, rxData: T,
    wrGo: bool, wrByteAddr: nat, wrSize: Count, wrEn: bool, wrData: T, wrTxFull: bool, wrIdle: bool)

  /** A byte address without its six low bits. */
  function LineOf(byteAddr: nat): Addr { byteAddr / 64 % ADDRS }

  /** A line is 64 bytes: the bytes of a line, as far as addresses reach, are 64 to 64
      times its address. */
  lemma LineOfByte(byteAddr: nat, line: Addr)
    requires byteAddr < 64 * ADDRS
    ensures LineOf(byteAddr) == line <==> 64 * line <= byteAddr < 64 * (line + 1)
  {}

  // The address and count registers wrap around at their width.
  function NextLine(a: Addr): Addr { (a + 1) % ADDRS }
  function AddTo(c: Count, d: int): Count { (c + d) % COUNTS }

  lemma AddToSmall(c: Count, d: int)
    requires 0 <= c + d < COUNTS
    ensures AddTo(c, d) == c + d
  {}

  predicate RdDone<T>(s: State<T>) { s.rd.dmaRem == 0 }
  predicate RdStarts<T>(s: State<T>, p: Port<T>) { p.rdGo && RdDone(s) }

  /** A read is requested while lines remain, the channel has room, and every
      line already asked for leaves space in the FIFO. */
  predicate Requests<T>(s: State<T>, p: Port<T>) {
    s.rd.cciRem > 0 && !p.txFull && s.rd.pending < FIFO_DEPTH - |s.fifo.items|
  }

  predicate WrDone<T>(s: State<T>, p: Port<T>) { !s.wr.delayed && p.wrIdle && s.wr.rem == 0 }
  predicate WrStarts<T>(s: State<T>, p: Port<T>) { p.wrGo && WrDone(s, p) }
  predicate Writes<T>(s: State<T>, p: Port<T>) { p.wrEn && !p.wrTxFull && s.wr.rem > 0 }

  function ReadNext<T>(r: ReadRegs, p: Port<T>, requests: bool, starts: bool, delivers: bool): ReadRegs {
    ReadRegs(
      if requests then NextLine(r.addr) else if starts then LineOf(p.rdByteAddr) else r.addr,
      if requests then AddTo(r.cciRem, -1) else if starts then p.rdSize else r.cciRem,
      AddTo(r.pending, (if requests then 1 else 0) - (if p.rxValid then 1 else 0)),
      if delivers then AddTo(r.dmaRem, -1) else if starts then p.rdSize else r.dmaRem,
      if requests then Some(r.addr) else None)
  }

  function WriteNext<T>(w: WriteRegs<T>, p: Port<T>, writes: bool, starts: bool): WriteRegs<T> {
    WriteRegs(
      if p.wrEn && !p.wrTxFull then NextLine(w.addr) else if starts then LineOf(p.wrByteAddr) else w.addr,
      if writes then AddTo(w.rem, -1) else if starts then p.wrSize else w.rem,
      writes,
      if writes then Some((w.addr, p.wrData)) else None)
  }

  function Next<T>(s: State<T>, p: Port<T>): State<T> {
    State(ReadNext(s.rd, p, Requests(s, p), RdStarts(s, p), F.Delivers(s.fifo, p.rdEn)),
          WriteNext(s.wr, p, Writes(s, p), WrStarts(s, p)),
          F.QueueNext(FIFO_DEPTH, s.fifo, p.rdEn, p.rxValid, p.rxData))
  }

  class CciDma<T(0)> {
    const rdFifo: F.Fifo<T>
    var rdAddr: Addr
    var cciRdRemaining: Count
    var cciRdPending: Count
    var dmaRdRemaining: Count
    var c0Tx: Option<Addr>
    var wrAddr: Addr
    var cciWrRemaining: Count
    var cciWrEnDelayed: bool
    var c1Tx: Option<(Addr, T)>

    ghost predicate Valid()
      reads this, rdFifo, rdFifo.mem
    {
      rdFifo.depth == FIFO_DEPTH && rdFifo.Valid()
    }

    ghost function Rd(): ReadRegs
      reads this
    {
      ReadRegs(rdAddr, cciRdRemaining, cciRdPending, dmaRdRemaining, c0Tx)
    }

    ghost function Wr(): WriteRegs<T>
      reads this
    {
      WriteRegs(wrAddr, cciWrRemaining, cciWrEnDelayed, c1Tx)
    }

    ghost function Abs(): State<T>
      requires Valid()
      reads this, rdFifo, rdFifo.mem
    {
      State(Rd(), Wr(), rdFifo.State())
    }

    constructor Reset()
      ensures Valid() && fresh(rdFifo) && fresh(rdFifo.mem)
      ensures Abs() == ResetState()
    {
      rdFifo := new F.Fifo.Reset(FIFO_DEPTH, FIFO_DEPTH);
      rdAddr, cciRdRemaining, cciRdPending, dmaRdRemaining, c0Tx := 0, 0, 0, 0, None;
      wrAddr, cciWrRemaining, cciWrEnDelayed, c1Tx := 0, 0, false, None;
    }

    method ReadSide(p: Port<T>, empty: bool, space: nat)
      modifies `rdAddr, `cciRdRemaining, `cciRdPending, `dmaRdRemaining, `c0Tx
      ensures var r := old(Rd());
              Rd() == ReadNext(r, p, r.cciRem > 0 && !p.txFull && r.pending < space,
                               p.rdGo && r.dmaRem == 0, p.rdEn && !empty)
    {
      var addr, remaining, left := rdAddr, cciRdRemaining, dmaRdRemaining;
      var rdFifoAlmostFull := cciRdPending >= space;
      var cciRdEn := cciRdRemaining > 0 && !p.txFull && !rdFifoAlmostFull;
      var rdDone := dmaRdRemaining == 0;
      c0Tx := if cciRdEn then Some(rdAddr) else None;
      // Later assignments overrule earlier ones and read the old registers.
      if p.rdGo && rdDone {
        rdAddr, cciRdRemaining, dmaRdRemaining := LineOf(p.rdByteAddr), p.rdSize, p.rdSize;
      }
      if p.rdEn && !empty { dmaRdRemaining := AddTo(left, -1); }
      var pending := 0;
      if cciRdEn {
        rdAddr, cciRdRemaining := NextLine(addr), AddTo(remaining, -1);
        pending := pending + 1;
      }
      if p.rxValid { pending := pending - 1; }
      cciRdPending := AddTo(cciRdPending, pending);
    }

    method WriteSide(p: Port<T>)
      modifies `wrAddr, `cciWrRemaining, `cciWrEnDelayed, `c1Tx
      ensures var w := old(Wr());
              Wr() == WriteNext(w, p, p.wrEn && !p.wrTxFull && w.rem > 0,
                                p.wrGo && !w.delayed && p.wrIdle && w.rem == 0)
    {
      var addr, remaining := wrAddr, cciWrRemaining;
      var cciWrEn := p.wrEn && !p.wrTxFull && cciWrRemaining > 0;
      var wrDone := !(cciWrEnDelayed || !p.wrIdle || cciWrRemaining > 0);
      c1Tx := if cciWrEn then Some((wrAddr, p.wrData)) else None;
      if p.wrGo && wrDone {
        wrAddr, cciWrRemaining := LineOf(p.wrByteAddr), p.wrSize;
      }
      if p.wrEn && !p.wrTxFull { wrAddr := NextLine(addr); }
      if cciWrEn { cciWrRemaining := AddTo(remaining, -1); }
      cciWrEnDelayed := cciWrEn;
    }

    /** Both sides see the FIFO as it was before the clock. */
    method Registers(p: Port<T>)
      requires Valid()
      modifies this
      ensures Valid() && rdFifo.State() == old(rdFifo.State())
      ensures var n := Next(old(Abs()), p); Rd() == n.rd && Wr() == n.wr
    {
      rdFifo.WiresShowQueue();
      hide ReadNext, WriteNext;
      ReadSide(p, rdFifo.empty, rdFifo.spaceR);
      WriteSide(p);
    }

    /** One clock. */
    method Clock(p: Port<T>)
      requires Valid()
      modifies this, rdFifo, rdFifo.mem
      ensures Valid() && Abs() == Next(old(Abs()), p)
    {
      hide F.QueueNext, F.Ring, ReadNext, WriteNext;
      Registers(p);
      rdFifo.Clock(p.rdEn, p.rxValid, p.rxData);
    }
  }

  function ResetState<T>(): State<T> {
    State(ReadRegs(0, 0, 0, 0, None), WriteRegs(0, 0, false, None), F.Queue([], false))
  }

  // ------------------------------------------------------------ reading

  /** The engine, the requests the host has accepted and not answered, and the
      transfer in progress: where it started, how many lines were asked for, and
      the lines the user has received. */
  datatype System<T> = System(s: State<T>, asked: seq<Addr>, start: Addr, size: Count, got: seq<T>)

  /** The host answers in order, with the line at the address requested. */
  predicate HostAnswers<T(==)>(host: Addr -> T, y: System<T>, p: Port<T>) {
    p.rxValid ==> y.asked != [] && p.rxData == host(y.asked[0])
  }

  function SystemNext<T>(y: System<T>, p: Port<T>): System<T> {
    var starts := RdStarts(y.s, p);
    System(Next(y.s, p),
           (if p.rxValid && y.asked != [] then y.asked[1..] else y.asked)
           + (if y.s.rd.tx.Some? then [y.s.rd.tx.value] else []),
           if starts then LineOf(p.rdByteAddr) else y.start,
           if starts then p.rdSize else y.size,
           if starts then []
           else if F.Delivers(y.s.fifo, p.rdEn) then y.got + [y.s.fifo.items[0]]
           else y.got)
  }

  /** n host lines from address `start` on. */
  function Lines<T>(host: Addr -> T, start: Addr, n: nat): (r: seq<T>)
    ensures |r| == n
  {
    if n == 0 then [] else Lines(host, start, n - 1) + [host((start + n - 1) % ADDRS)]
  }

  function Fetch<T>(host: Addr -> T, addrs: seq<Addr>): (r: seq<T>)
    ensures |r| == |addrs| && forall i | 0 <= i < |r| :: r[i] == host(addrs[i])
  {
    seq(|addrs|, i requires 0 <= i < |addrs| => host(addrs[i]))
  }

  function Requested<T>(y: System<T>): seq<Addr> {
    y.asked + (if y.s.rd.tx.Some? then [y.s.rd.tx.value] else [])
  }

  /** Conservation: the lines still to be delivered are those not yet requested,
      those requested and those in the FIFO; every request in flight has its
      place in the FIFO reserved; and what was delivered, what is stored and what
      was requested are together the next lines of the transfer, in order. */
  predicate ReadCounts<T>(y: System<T>) {
    && y.s.rd.dmaRem == y.s.rd.cciRem + y.s.rd.pending + |y.s.fifo.items|
    && y.s.rd.pending + |y.s.fifo.items| <= FIFO_DEPTH
    && y.s.rd.pending == |Requested(y)|
    && (!y.s.fifo.ready ==> y.s.rd.pending == 0)
    && y.s.rd.dmaRem <= y.size
  }

  predicate ReadLines<T(==)>(host: Addr -> T, y: System<T>)
    requires y.s.rd.cciRem <= y.size
  {
    && y.s.rd.addr == (y.start + (y.size - y.s.rd.cciRem)) % ADDRS
    && y.got + y.s.fifo.items + Fetch(host, Requested(y)) == Lines(host, y.start, y.size - y.s.rd.cciRem)
  }

  predicate ReadInv<T(==)>(host: Addr -> T, y: System<T>) { ReadCounts(y) && ReadLines(host, y) }

  lemma ResetRead<T>(host: Addr -> T)
    ensures ReadInv(host, System(ResetState(), [], 0, 0, []))
  {}

  /** No answer ever meets a full FIFO. */
  lemma AnswersAccepted<T>(host: Addr -> T, y: System<T>, p: Port<T>)
    requires ReadInv(host, y) && HostAnswers(host, y, p) && p.rxValid
    ensures F.Accepts(FIFO_DEPTH, y.s.fifo, true) && y.s.rd.pending > 0
  {}

  /** What a clock adds to the lines requested. */
  lemma RequestsMove<T>(host: Addr -> T, y: System<T>, p: Port<T>)
    requires ReadInv(host, y) && HostAnswers(host, y, p) && !RdStarts(y.s, p)
    ensures Requested(SystemNext(y, p)) == (if p.rxValid then Requested(y)[1..] else Requested(y))
                                           + (if Requests(y.s, p) then [y.s.rd.addr] else [])
  {
    if p.rxValid { AnswersAccepted(host, y, p); }
    hide AddTo, LineOf, NextLine, Lines, Fetch, ReadLines, WriteNext, F.QueueNext, F.Delivers;
  }

  /** What it takes from the lines stored. */
  lemma LinesMove<T>(host: Addr -> T, y: System<T>, p: Port<T>)
    requires ReadInv(host, y) && HostAnswers(host, y, p) && !RdStarts(y.s, p)
    ensures var y' := SystemNext(y, p);
            y'.got + y'.s.fifo.items == y.got + y.s.fifo.items + (if p.rxValid then [host(Requested(y)[0])] else [])
  {
    if p.rxValid { AnswersAccepted(host, y, p); }
    hide AddTo, LineOf, NextLine, Lines, Fetch, ReadLines, ReadNext, WriteNext;
    var items := y.s.fifo.items;
    if F.Delivers(y.s.fifo, p.rdEn) { assert items == [items[0]] + items[1..]; }
  }

  lemma ReadCountsKept<T>(host: Addr -> T, y: System<T>, p: Port<T>)
    requires ReadInv(host, y) && HostAnswers(host, y, p)
    ensures ReadCounts(SystemNext(y, p))
  {
    hide ReadLines;
    if p.rxValid { assert F.Accepts(FIFO_DEPTH, y.s.fifo, true); }
    AddToSmall(y.s.rd.pending, (if Requests(y.s, p) then 1 else 0) - (if p.rxValid then 1 else 0));
    if y.s.rd.cciRem > 0 { AddToSmall(y.s.rd.cciRem, -1); }
    if y.s.rd.dmaRem > 0 { AddToSmall(y.s.rd.dmaRem, -1); }
    hide Lines, Fetch, LineOf, AddTo, NextLine;
  }

  lemma NextAddr(start: Addr, n: nat)
    ensures ((start + n) % ADDRS + 1) % ADDRS == (start + (n + 1)) % ADDRS
  {}

  lemma FetchCat<T>(host: Addr -> T, a: seq<Addr>, b: seq<Addr>)
    ensures Fetch(host, a + b) == Fetch(host, a) + Fetch(host, b)
  {}

  lemma Splice<T>(have': seq<T>, have: seq<T>, a: seq<T>, b: seq<T>, c: seq<T>)
    requires have' == have + a
    ensures have' + (b + c) == (have + (a + b)) + c
  {}

  /** The address and the number of lines asked for move together. */
  lemma AddrMoves<T>(host: Addr -> T, y: System<T>, p: Port<T>)
    requires ReadInv(host, y) && HostAnswers(host, y, p) && !RdStarts(y.s, p)
    ensures var y' := SystemNext(y, p); var n := y.size - y.s.rd.cciRem;
            && y'.start == y.start && y'.size == y.size
            && y'.s.rd.cciRem == y.s.rd.cciRem - (if Requests(y.s, p) then 1 else 0) <= y.size
            && y'.s.rd.addr == (y.start + (y.size - y'.s.rd.cciRem)) % ADDRS
            && Lines(host, y.start, y.size - y'.s.rd.cciRem)
               == Lines(host, y.start, n) + if Requests(y.s, p) then [host(y.s.rd.addr)] else []
  {
    NextAddr(y.start, y.size - y.s.rd.cciRem);
    if y.s.rd.cciRem > 0 { AddToSmall(y.s.rd.cciRem, -1); }
    hide AddTo, F.QueueNext, F.Delivers, Fetch, Requested, LineOf, WriteNext;
  }

  lemma ReadLinesKept<T>(host: Addr -> T, y: System<T>, p: Port<T>)
    requires ReadInv(host, y) && HostAnswers(host, y, p) && !RdStarts(y.s, p)
    ensures ReadLines(host, SystemNext(y, p))
  {
    var y' := SystemNext(y, p);
    var r := Requested(y);
    var rest := if p.rxValid then r[1..] else r;
    var more := if Requests(y.s, p) then [y.s.rd.addr] else [];
    var head := if p.rxValid then [r[0]] else [];
    RequestsMove(host, y, p);
    LinesMove(host, y, p);
    AddrMoves(host, y, p);
    hide SystemNext, Requested, Requests, RdStarts, Lines, F.QueueNext, F.Delivers;
    assert r == head + rest;
    FetchCat(host, head, rest);
    FetchCat(host, rest, more);
    assert Fetch(host, more) == if more == [] then [] else [host(y.s.rd.addr)];
    assert Fetch(host, head) == if p.rxValid then [host(r[0])] else [];
    hide Fetch;
    Splice(y'.got + y'.s.fifo.items, y.got + y.s.fifo.items,
           Fetch(host, head), Fetch(host, rest), Fetch(host, more));
  }

  lemma ReadStarts<T>(host: Addr -> T, y: System<T>, p: Port<T>)
    requires ReadInv(host, y) && HostAnswers(host, y, p) && RdStarts(y.s, p)
    ensures ReadLines(host, SystemNext(y, p))
  {
    assert Requested(y) == [] && Requested(SystemNext(y, p)) == [];
  }

  lemma ReadInvKept<T>(host: Addr -> T, y: System<T>, p: Port<T>)
    requires ReadInv(host, y) && HostAnswers(host, y, p)
    ensures ReadInv(host, SystemNext(y, p))
  {
    ReadCountsKept(host, y, p);
    if RdStarts(y.s, p) { ReadStarts(host, y, p); } else { ReadLinesKept(host, y, p); }
  }

  function SystemRun<T>(y: System<T>, ps: seq<Port<T>>): System<T>
    decreases |ps|
  {
    if ps == [] then y else SystemRun(SystemNext(y, ps[0]), ps[1..])
  }

  predicate HostAnswersAll<T(==)>(host: Addr -> T, y: System<T>, ps: seq<Port<T>>)
    decreases |ps|
  {
    ps != [] ==> HostAnswers(host, y, ps[0]) && HostAnswersAll(host, SystemNext(y, ps[0]), ps[1..])
  }

  /** Whatever the user and the host do, whenever `rd_done` is up the user has
      received exactly the lines of the last transfer, in order. */
  lemma {:induction false} TransfersExact<T>(host: Addr -> T, y: System<T>, ps: seq<Port<T>>)
    requires ReadInv(host, y) && HostAnswersAll(host, y, ps)
    ensures var e := SystemRun(y, ps);
            && ReadInv(host, e)
            && e.got <= Lines(host, e.start, e.size)
            && (RdDone(e.s) <==> e.got == Lines(host, e.start, e.size))
    decreases |ps|
  {
    if ps != [] {
      ReadInvKept(host, y, ps[0]);
      TransfersExact(host, SystemNext(y, ps[0]), ps[1..]);
    } else {
      LinesPrefix(host, y.start, y.size - y.s.rd.cciRem, y.size);
      assert |y.got| + |y.s.fifo.items| + y.s.rd.pending == y.size - y.s.rd.cciRem;
      assert y.got <= y.got + y.s.fifo.items + Fetch(host, Requested(y));
      if y.s.rd.dmaRem == 0 { assert y.got + [] + [] == y.got; }
    }
  }

  lemma {:induction false} LinesPrefix<T>(host: Addr -> T, start: Addr, m: nat, n: nat)
    requires m <= n
    ensures Lines(host, start, m) <= Lines(host, start, n)
    decreases n
  {
    if m < n { LinesPrefix(host, start, m, n - 1); }
  }

  /** Nobody stands still: the channel takes requests, the host answers what it has been
      asked, the user reads, and no other transfer is started. */
  predicate Eager<T(==)>(host: Addr -> T, y: System<T>, p: Port<T>) {
    && !p.txFull && p.rdEn && !p.rdGo
    && (p.rxValid <==> y.asked != []) && (y.asked != [] ==> p.rxData == host(y.asked[0]))
  }

  predicate EagerAll<T(==)>(host: Addr -> T, y: System<T>, ps: seq<Port<T>>)
    decreases |ps|
  {
    ps != [] ==> Eager(host, y, ps[0]) && EagerAll(host, SystemNext(y, ps[0]), ps[1..])
  }

  /** Clocks the transfer can still take: a line is requested, goes out, is answered and
      is read. */
  function ClocksLeft<T>(y: System<T>): nat {
    4 * y.s.rd.cciRem + 3 * (if y.s.rd.tx.Some? then 1 else 0) + 2 * |y.asked| + |y.s.fifo.items|
  }

  lemma ClockCounts<T>(host: Addr -> T, y: System<T>, p: Port<T>)
    requires ReadInv(host, y) && Eager(host, y, p)
    ensures var y' := SystemNext(y, p);
            && y'.start == y.start && y'.size == y.size
            && (ClocksLeft(y) > 0 ==> ClocksLeft(y') < ClocksLeft(y))
            && (ClocksLeft(y) == 0 ==> ClocksLeft(y') == 0)
  {
    if p.rxValid { AnswersAccepted(host, y, p); }
    if y.s.rd.cciRem > 0 { AddToSmall(y.s.rd.cciRem, -1); }
    hide ReadLines, AddTo, WriteNext, LineOf, NextLine;
  }

  lemma {:induction false} TransferEnds<T>(host: Addr -> T, y: System<T>, ps: seq<Port<T>>)
    requires ReadInv(host, y) && EagerAll(host, y, ps) && |ps| >= ClocksLeft(y)
    ensures var e := SystemRun(y, ps);
            RdDone(e.s) && e.start == y.start && e.size == y.size && e.got == Lines(host, y.start, y.size)
    decreases |ps|
  {
    if ps == [] {
      TransfersExact(host, y, []);
    } else {
      ClockCounts(host, y, ps[0]);
      ReadInvKept(host, y, ps[0]);
      hide SystemNext, ReadInv, Eager, ClocksLeft;
      TransferEnds(host, SystemNext(y, ps[0]), ps[1..]);
    }
  }

  /** A transfer asked for while none is under way is done, with every line of it in
      order, four clocks a line later at the latest if nobody stands still. */
  lemma TransferCompletes<T>(host: Addr -> T, y: System<T>, p: Port<T>, ps: seq<Port<T>>)
    requires ReadInv(host, y) && y.s.rd.dmaRem == 0 && p.rdGo && HostAnswers(host, y, p)
    requires EagerAll(host, SystemNext(y, p), ps) && |ps| >= 4 * p.rdSize
    ensures var e := SystemRun(SystemNext(y, p), ps);
            RdDone(e.s) && e.got == Lines(host, p.rdByteAddr / 64 % ADDRS, p.rdSize)
  {
    var y' := SystemNext(y, p);
    assert y'.start == p.rdByteAddr / 64 % ADDRS && y'.size == p.rdSize && ClocksLeft(y') == 4 * p.rdSize;
    ReadInvKept(host, y, p);
    TransferEnds(host, y', ps);
  }

  /** As before, but the user does not read. */
  predicate Unread<T(==)>(host: Addr -> T, y: System<T>, p: Port<T>) {
    && !p.txFull && !p.rdEn && !p.rdGo
    && (p.rxValid <==> y.asked != []) && (y.asked != [] ==> p.rxData == host(y.asked[0]))
  }

  predicate UnreadAll<T(==)>(host: Addr -> T, y: System<T>, ps: seq<Port<T>>)
    decreases |ps|
  {
    ps != [] ==> Unread(host, y, ps[0]) && UnreadAll(host, SystemNext(y, ps[0]), ps[1..])
  }

  /** The lines there are still places for. */
  function Wanted<T>(y: System<T>): nat
    requires ReadCounts(y)
  {
    F.Least(y.s.rd.cciRem, 512 - y.s.rd.pending - |y.s.fifo.items|)
  }

  function ClocksToFill<T>(y: System<T>): nat
    requires ReadCounts(y)
  {
    3 * Wanted(y) + 2 * (if y.s.rd.tx.Some? then 1 else 0) + |y.asked|
  }

  lemma FillCounts<T>(host: Addr -> T, y: System<T>, p: Port<T>)
    requires ReadInv(host, y) && Unread(host, y, p) && ReadCounts(SystemNext(y, p))
    ensures var y' := SystemNext(y, p);
            && y'.s.rd.pending + |y'.s.fifo.items| + Wanted(y') == y.s.rd.pending + |y.s.fifo.items| + Wanted(y)
            && (ClocksToFill(y) > 0 ==> ClocksToFill(y') < ClocksToFill(y))
            && (ClocksToFill(y) == 0 ==> ClocksToFill(y') == 0)
  {
    if p.rxValid { AnswersAccepted(host, y, p); }
    if y.s.rd.cciRem > 0 { AddToSmall(y.s.rd.cciRem, -1); }
    AddToSmall(y.s.rd.pending, (if Requests(y.s, p) then 1 else 0) - (if p.rxValid then 1 else 0));
    hide ReadLines, AddTo, WriteNext, LineOf, NextLine;
  }

  /** Without a reader the engine goes on until the FIFO is full to its last place, or
      holds all that is left of the transfer. */
  lemma {:induction false} FillsFifo<T>(host: Addr -> T, y: System<T>, ps: seq<Port<T>>)
    requires ReadInv(host, y) && UnreadAll(host, y, ps) && |ps| >= ClocksToFill(y)
    ensures |SystemRun(y, ps).s.fifo.items| == F.Least(y.s.rd.dmaRem, 512)
    decreases |ps|
  {
    if ps != [] {
      ReadInvKept(host, y, ps[0]);
      FillCounts(host, y, ps[0]);
      var y' := SystemNext(y, ps[0]);
      FillsFifo(host, y', ps[1..]);
      assert y'.s.rd.dmaRem == y.s.rd.dmaRem;
    }
  }

  // ------------------------------------------------------------ writing

  /** A write transfer takes its start address exactly when the user does not
      already write in the clock of `wr_go`. */
  lemma WriteStartExact<T>(s: State<T>, p: Port<T>)
    requires WrStarts(s, p)
    ensures Next(s, p).wr.addr == LineOf(p.wrByteAddr)
            <==> p.wrTxFull || !p.wrEn || NextLine(s.wr.addr) == LineOf(p.wrByteAddr)
  {}

  /** The write transfer in progress and the lines sent to the host in it. */
  datatype Writer<T> = Writer(s: State<T>, start: Addr, size: Count, data: seq<T>, sent: seq<(Addr, T)>)

  function WriterNext<T>(w: Writer<T>, p: Port<T>): Writer<T> {
    var starts := WrStarts(w.s, p);
    Writer(Next(w.s, p),
           if starts then LineOf(p.wrByteAddr) else w.start,
           if starts then p.wrSize else w.size,
           if starts then [] else if Writes(w.s, p) then w.data + [p.wrData] else w.data,
           if starts then [] else w.sent + (if Next(w.s, p).wr.tx.Some? then [Next(w.s, p).wr.tx.value] else []))
  }

  /** The i-th line the user writes goes to the i-th address of the transfer. */
  predicate WriteInv<T(==)>(w: Writer<T>) {
    && w.s.wr.rem <= w.size && |w.data| == |w.sent| == w.size - w.s.wr.rem
    && (w.s.wr.rem > 0 ==> w.s.wr.addr == (w.start + |w.data|) % ADDRS)
    && forall i | 0 <= i < |w.sent| :: w.sent[i] == ((w.start + i) % ADDRS, w.data[i])
  }

  lemma WriteInvKept<T>(w: Writer<T>, p: Port<T>)
    requires WriteInv(w) && (WrStarts(w.s, p) ==> p.wrTxFull || !p.wrEn)
    ensures WriteInv(WriterNext(w, p))
  {
    if w.s.wr.rem > 0 { AddToSmall(w.s.wr.rem, -1); }
    NextAddr(w.start, |w.data|);
    hide AddTo, LineOf, ReadNext, F.QueueNext;
    var w' := WriterNext(w, p);
    forall i | 0 <= i < |w'.sent| ensures w'.sent[i] == ((w'.start + i) % ADDRS, w'.data[i]) {
      if i < |w.sent| { assert w.sent[i] == ((w.start + i) % ADDRS, w.data[i]); }
    }
  }

  function WriterRun<T>(w: Writer<T>, ps: seq<Port<T>>): Writer<T>
    decreases |ps|
  {
    if ps == [] then w else WriterRun(WriterNext(w, ps[0]), ps[1..])
  }

  /** The user never writes in a clock in which a transfer starts. */
  predicate WaitsForStart<T>(w: Writer<T>, ps: seq<Port<T>>)
    decreases |ps|
  {
    ps != [] ==>
      && (WrStarts(w.s, ps[0]) ==> ps[0].wrTxFull || !ps[0].wrEn)
      && WaitsForStart(WriterNext(w, ps[0]), ps[1..])
  }

  lemma ResetWrite<T>(w: Writer<T>)
    requires w == Writer(ResetState(), 0, 0, [], [])
    ensures WriteInv(w)
  {}

  /** Over every such run from reset: what has been sent in the last transfer is the
      first lines the user has written, each at its address; and no line is left to
      send, as it must be when `wr_done` is up, exactly when all of them are. */
  lemma {:induction false} WritesExact<T>(w: Writer<T>, ps: seq<Port<T>>, p: Port<T>)
    requires WriteInv(w) && WaitsForStart(w, ps)
    ensures var e := WriterRun(w, ps);
            && |e.sent| == |e.data| <= e.size
            && (forall i | 0 <= i < |e.sent| :: e.sent[i] == ((e.start + i) % ADDRS, e.data[i]))
            && (e.s.wr.rem == 0 <==> |e.sent| == e.size)
            && (WrDone(e.s, p) ==> |e.sent| == e.size)
    decreases |ps|
  {
    hide WriterNext;
    if ps != [] {
      WriteInvKept(w, ps[0]);
      WritesExact(WriterNext(w, ps[0]), ps[1..], p);
    }
  }

  /** The data the user writes while the channel has room. */
  function Offered<T>(ps: seq<Port<T>>): seq<T> {
    if ps == [] then []
    else Offer(ps[0]) + Offered(ps[1..])
  }

  predicate NoStart<T>(ps: seq<Port<T>>) { forall i | 0 <= i < |ps| :: !ps[i].wrGo }

  function Offer<T>(p: Port<T>): seq<T> { if p.wrEn && !p.wrTxFull then [p.wrData] else [] }

  lemma {:induction false} TakesOffers<T>(w: Writer<T>, ps: seq<Port<T>>)
    requires WriteInv(w) && NoStart(ps) && |Offered(ps)| <= w.s.wr.rem
    ensures var e := WriterRun(w, ps);
            && WriteInv(e) && e.start == w.start && e.size == w.size && e.data == w.data + Offered(ps)
            && e.s.wr.rem == w.s.wr.rem - |Offered(ps)|
    decreases |ps|
  {
    hide WriterNext, WriteInv, Offer;
    if ps == [] {
      assert w.data + [] == w.data;
    } else {
      var now, later := Offer(ps[0]), Offered(ps[1..]);
      assert !ps[0].wrGo && NoStart(ps[1..]);
      WriteInvKept(w, ps[0]);
      OfferTaken(w, ps[0]);
      TakesOffers(WriterNext(w, ps[0]), ps[1..]);
      assert w.data + now + later == w.data + (now + later);
    }
  }

  lemma OfferTaken<T>(w: Writer<T>, p: Port<T>)
    requires !p.wrGo && |Offer(p)| <= w.s.wr.rem
    ensures var w' := WriterNext(w, p); var now := Offer(p);
            && w'.start == w.start && w'.size == w.size && w'.data == w.data + now && w'.s.wr.rem == w.s.wr.rem - |now|
            && (w'.s.wr.delayed <==> now != [])
  {
    if w.s.wr.rem > 0 { AddToSmall(w.s.wr.rem, -1); }
    hide AddTo, LineOf, NextLine, ReadNext, F.QueueNext;
  }

  lemma WriteBegins<T>(w: Writer<T>, p: Port<T>)
    requires WriteInv(w) && w.s.wr.rem == 0 && !w.s.wr.delayed && p.wrIdle && p.wrGo && !p.wrEn
    ensures var w' := WriterNext(w, p);
            && WriteInv(w') && w'.start == p.wrByteAddr / 64 % ADDRS
            && w'.size == w'.s.wr.rem == p.wrSize && w'.data == []
  {
    hide AddTo, NextLine, ReadNext, F.QueueNext;
  }

  lemma SentAre<T>(w: Writer<T>)
    requires WriteInv(w) && w.s.wr.rem == 0
    ensures w.sent == seq(w.size, i requires 0 <= i < w.size => ((w.start + i) % ADDRS, w.data[i]))
  {}

  /** A write transfer asked for while none is under way sends what the user then writes,
      the i-th line to the i-th address, and is done a clock after the last of them, once
      the host is idle. */
  lemma WriteCompletes<T>(w: Writer<T>, p: Port<T>, ps: seq<Port<T>>, rest: Port<T>, last: Port<T>)
    requires WriteInv(w) && w.s.wr.rem == 0 && !w.s.wr.delayed && p.wrIdle && p.wrGo && !p.wrEn
    requires NoStart(ps) && |Offered(ps)| == p.wrSize && !rest.wrGo && !rest.wrEn && last.wrIdle
    ensures var e := WriterRun(WriterNext(w, p), ps); var line := p.wrByteAddr / 64 % ADDRS;
            && e.sent == seq(p.wrSize, i requires 0 <= i < p.wrSize => ((line + i) % ADDRS, Offered(ps)[i]))
            && WrDone(WriterNext(e, rest).s, last)
  {
    hide WriterNext, WriterRun, WriteInv, Offered, NoStart;
    var w' := WriterNext(w, p);
    WriteBegins(w, p);
    TakesOffers(w', ps);
    var e := WriterRun(w', ps);
    assert [] + Offered(ps) == Offered(ps);
    SentAre(e);
    OfferTaken(e, rest);
  }
}
