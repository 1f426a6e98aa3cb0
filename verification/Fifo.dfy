/** The FIFO of the DMA engine (fifo.sv): a circular buffer with a prefetched
    head, refining a bounded queue. */
module Fifo {
  import opened Bits

  /** `$clog2`: the least width whose addresses cover d words. */
  function Clog2(d: nat): (w: nat)
    ensures Pow2(w) >= d
    ensures w > 0 ==> Pow2(w - 1) < d
  {
    if d <= 1 then 0 else
      var w := Clog2((d + 1) / 2);
      w + 1
  }

  /** The queue the FIFO implements. After reset the full flag is up for one
      clock, so that the first write can be refused although nothing is stored. */
  datatype Queue<T> = Queue(items: seq<T>, ready: bool)

  predicate Accepts<T>(depth: nat, q: Queue<T>, wrEn: bool) { wrEn && q.ready && |q.items| < depth }
  predicate Delivers<T>(q: Queue<T>, rdEn: bool) { rdEn && q.items != [] }

  function QueueNext<T>(depth: nat, q: Queue<T>, rdEn: bool, wrEn: bool, wrData: T): Queue<T> {
    Queue((if Delivers(q, rdEn) then q.items[1..] else q.items)
          + (if Accepts(depth, q, wrEn) then [wrData] else []),
          true)
  }

  /** Addresses wrap around at the size of the block RAM. */
  function Turn(size: nat, a: nat): nat { if a < size then a else a - size }

  /** The pointers stay the right distance apart. */
  lemma Pointers(size: nat, start: nat, n: nat, wr: bool, rd: bool)
    requires start < size && n <= size && (wr ==> n < size) && (rd ==> n > 0)
    ensures var start' := if rd then Turn(size, start + 1) else start;
            var n' := (if wr then n + 1 else n) - (if rd then 1 else 0);
            && start' < size && Turn(size, start + n) < size
            && (if wr then Turn(size, Turn(size, start + n) + 1) else Turn(size, start + n)) == Turn(size, start' + n')
  {}

  /** The n words of a circular buffer from address `start` on. */
  function Ring<T>(buf: seq<T>, start: nat, n: nat): (r: seq<T>)
    requires start < |buf| && n <= |buf|
    ensures |r| == n && forall i | 0 <= i < n :: r[i] == buf[Turn(|buf|, start + i)]
  {
    seq(n, i requires 0 <= i < n => buf[Turn(|buf|, start + i)])
  }

  lemma RingPush<T>(buf: seq<T>, start: nat, n: nat, x: T)
    requires start < |buf| && n < |buf|
    ensures Ring(buf[Turn(|buf|, start + n) := x], start, n + 1) == Ring(buf, start, n) + [x]
  {
    var after := buf[Turn(|buf|, start + n) := x];
    forall i | 0 <= i < n ensures Ring(after, start, n + 1)[i] == Ring(buf, start, n)[i] {
      assert Turn(|buf|, start + i) != Turn(|buf|, start + n);
    }
  }

  lemma RingPop<T>(buf: seq<T>, start: nat, n: nat)
    requires start < |buf| && 0 < n <= |buf|
    ensures Ring(buf, Turn(|buf|, start + 1), n - 1) == Ring(buf, start, n)[1..]
  {
    var rest := Ring(buf, start, n)[1..];
    forall i | 0 <= i < n - 1 ensures Ring(buf, Turn(|buf|, start + 1), n - 1)[i] == rest[i] {
      assert Turn(|buf|, Turn(|buf|, start + 1) + i) == Turn(|buf|, start + (i + 1));
    }
  }

  /** A write and a read of the circular buffer in the same clock. */
  lemma RingClock<T>(buf: seq<T>, start: nat, n: nat, wr: bool, rd: bool, x: T)
    requires start < |buf| && n <= |buf| && (wr ==> n < |buf|) && (rd ==> n > 0)
    ensures var buf' := if wr then buf[Turn(|buf|, start + n) := x] else buf;
            var start' := if rd then Turn(|buf|, start + 1) else start;
            var n' := (if wr then n + 1 else n) - (if rd then 1 else 0);
            Ring(buf', start', n')
            == (if rd then Ring(buf, start, n)[1..] else Ring(buf, start, n)) + (if wr then [x] else [])
  {
    if wr { RingPush(buf, start, n, x); }
    if rd { RingPop(if wr then buf[Turn(|buf|, start + n) := x] else buf, start, if wr then n + 1 else n); }
  }

  class Fifo<T(0)> {
    const depth: nat
    const almostFullCount: nat
    const mem: array<T>
    var wrAddr: nat
    var rdAddr: nat
    var countR: nat
    var spaceR: nat
    var full: bool
    var almostFull: bool
    var empty: bool
    var rdData: T

    ghost predicate Valid()
      reads this, mem
    {
      && 2 <= depth && mem.Length == Pow2(Clog2(depth))
      && rdAddr < mem.Length && countR <= depth && wrAddr == Turn(mem.Length, rdAddr + countR)
      && countR + spaceR == depth
      && (empty <==> countR == 0)
      && (countR > 0 ==> (full <==> countR == depth))
      && (Ready() ==> (almostFull <==> countR >= almostFullCount))
      && (countR > 0 ==> rdData == mem[rdAddr])
    }

    ghost predicate Ready()
      reads this
    {
      !(full && countR == 0)
    }

    ghost function Contents(): (c: seq<T>)
      requires Valid()
      reads this, mem
      ensures |c| == countR
    {
      Ring(mem[..], rdAddr, countR)
    }

    ghost function State(): Queue<T>
      requires Valid()
      reads this, mem
    {
      Queue(Contents(), Ready())
    }

    constructor Reset(depth: nat, almostFullCount: nat)
      requires 2 <= depth
      ensures Valid() && State() == Queue([], false)
      ensures this.depth == depth && this.almostFullCount == almostFullCount && fresh(mem)
    {
      this.depth, this.almostFullCount := depth, almostFullCount;
      mem := new T[Pow2(Clog2(depth))];
      wrAddr, rdAddr, countR, spaceR := 0, 0, 0, depth;
      full, almostFull, empty := true, true, true;
    }

    /** The block RAM: the write comes first, so that a read of the same address
        already sees it. */
    method Ram(validWr: bool, wrData: T, rdAddrAdjusted: nat)
      requires rdAddrAdjusted < mem.Length && wrAddr < mem.Length
      modifies this`rdData, mem
      ensures mem[..] == if validWr then old(mem[..])[wrAddr := wrData] else old(mem[..])
      ensures rdData == mem[rdAddrAdjusted]
    {
      if validWr { mem[wrAddr] := wrData; }
      rdData := mem[rdAddrAdjusted];
    }

    /** The clocked block: addresses, counts and flags. */
    method Registers(validRd: bool, validWr: bool)
      requires rdAddr < mem.Length && wrAddr < mem.Length && (validRd ==> countR > 0) && (validWr ==> spaceR > 0)
      modifies `rdAddr, `wrAddr, `countR, `spaceR, `full, `almostFull, `empty
      ensures rdAddr == if validRd then Turn(mem.Length, old(rdAddr) + 1) else old(rdAddr)
      ensures wrAddr == if validWr then Turn(mem.Length, old(wrAddr) + 1) else old(wrAddr)
      ensures var d := (if validWr then 1 else 0) - (if validRd then 1 else 0);
              countR == old(countR) + d && spaceR == old(spaceR) - d
      ensures (almostFull <==> countR >= almostFullCount) && (full <==> countR == depth) && (empty <==> countR == 0)
    {
      if validRd { rdAddr := Turn(mem.Length, rdAddr + 1); }
      if validWr { wrAddr := Turn(mem.Length, wrAddr + 1); }
      if validRd && !validWr {
        countR, spaceR := countR - 1, spaceR + 1;
      } else if !validRd && validWr {
        countR, spaceR := countR + 1, spaceR - 1;
      }
      almostFull := countR >= almostFullCount;
      full := countR == depth;
      empty := countR == 0;
    }

    /** One clock. */
    method Clock(rdEn: bool, wrEn: bool, wrData: T)
      requires Valid()
      modifies this, mem
      ensures Valid()
      ensures State() == QueueNext(depth, old(State()), rdEn, wrEn, wrData)
    {
      hide Pow2, Clog2, Ring, Turn;
      ghost var q := State();
      var validWr := wrEn && !full;
      var validRd := rdEn && !empty;
      RingClock(mem[..], rdAddr, countR, validWr, validRd, wrData);
      Pointers(mem.Length, rdAddr, countR, validWr, validRd);
      Ram(validWr, wrData, if validRd then Turn(mem.Length, rdAddr + 1) else rdAddr);
      Registers(validRd, validWr);
      assert Contents() == QueueNext(depth, q, rdEn, wrEn, wrData).items;
    }

    /** What the wires show is the queue: its length and free space, its flags,
        and its head whenever there is one. */
    lemma WiresShowQueue()
      requires Valid()
      ensures countR == |State().items| && countR + spaceR == depth
      ensures empty <==> State().items == []
      ensures full <==> !State().ready || |State().items| == depth
      ensures !empty ==> rdData == State().items[0]
    {
      if !empty { assert State().items[0] == mem[..][Turn(mem.Length, rdAddr + 0)]; }
    }
  }

  // ----------------------------------------------------------------- over runs

  datatype Port<T> = Port(rdEn: bool, wrEn: bool, wrData: T)

  function QueueRun<T>(depth: nat, q: Queue<T>, ps: seq<Port<T>>): Queue<T>
    decreases |ps|
  {
    if ps == [] then q
    else QueueRun(depth, QueueNext(depth, q, ps[0].rdEn, ps[0].wrEn, ps[0].wrData), ps[1..])
  }

  /** The values written and not refused. */
  function Written<T>(depth: nat, q: Queue<T>, ps: seq<Port<T>>): seq<T>
    decreases |ps|
  {
    if ps == [] then []
    else (if Accepts(depth, q, ps[0].wrEn) then [ps[0].wrData] else [])
         + Written(depth, QueueNext(depth, q, ps[0].rdEn, ps[0].wrEn, ps[0].wrData), ps[1..])
  }

  /** The values on the read port when they are acknowledged. */
  function Read<T>(depth: nat, q: Queue<T>, ps: seq<Port<T>>): seq<T>
    decreases |ps|
  {
    if ps == [] then []
    else (if Delivers(q, ps[0].rdEn) then [q.items[0]] else [])
         + Read(depth, QueueNext(depth, q, ps[0].rdEn, ps[0].wrEn, ps[0].wrData), ps[1..])
  }

  /** Nothing is lost, repeated or reordered: what has been read, followed by
      what is stored, is what was stored followed by what was accepted. */
  lemma {:induction false} FirstInFirstOut<T>(depth: nat, q: Queue<T>, ps: seq<Port<T>>)
    requires |q.items| <= depth
    ensures Read(depth, q, ps) + QueueRun(depth, q, ps).items == q.items + Written(depth, q, ps)
    ensures |QueueRun(depth, q, ps).items| <= depth
    decreases |ps|
  {
    if ps != [] {
      var p := ps[0];
      var q' := QueueNext(depth, q, p.rdEn, p.wrEn, p.wrData);
      FirstInFirstOut(depth, q', ps[1..]);
      var r := if Delivers(q, p.rdEn) then [q.items[0]] else [];
      var w := if Accepts(depth, q, p.wrEn) then [p.wrData] else [];
      assert r + q'.items == q.items + w;
      Passes(r, w, q.items, q'.items, Read(depth, q', ps[1..]), QueueRun(depth, q', ps[1..]).items,
             Written(depth, q', ps[1..]));
    }
  }

  lemma Passes<T>(r: seq<T>, w: seq<T>, q: seq<T>, q': seq<T>, read: seq<T>, left: seq<T>, written: seq<T>)
    requires r + q' == q + w && read + left == q' + written
    ensures (r + read) + left == q + (w + written)
  {
    assert (r + read) + left == r + (read + left) == (r + q') + written;
    assert (q + w) + written == q + (w + written);
  }

  function Least(a: nat, b: nat): nat { if a <= b then a else b }

  /** Written without reading, the FIFO takes as many values as it has room for, down to
      the last place, and refuses the rest. */
  lemma {:induction false} TakesUpToDepth<T>(depth: nat, q: Queue<T>, ps: seq<Port<T>>)
    requires q.ready && |q.items| <= depth && forall i | 0 <= i < |ps| :: ps[i].wrEn && !ps[i].rdEn
    ensures var n := Least(depth - |q.items|, |ps|);
            QueueRun(depth, q, ps).items == q.items + seq(n, i requires 0 <= i < n => ps[i].wrData)
    decreases |ps|
  {
    if ps != [] {
      var q' := QueueNext(depth, q, false, true, ps[0].wrData);
      TakesUpToDepth(depth, q', ps[1..]);
    }
  }

  /** Read as many times as it holds values, it gives all of them and is empty. */
  lemma {:induction false} GivesAll<T>(depth: nat, q: Queue<T>, ps: seq<Port<T>>)
    requires |ps| == |q.items| && forall i | 0 <= i < |ps| :: ps[i].rdEn && !ps[i].wrEn
    ensures Read(depth, q, ps) == q.items && QueueRun(depth, q, ps).items == []
    decreases |ps|
  {
    if ps != [] {
      GivesAll(depth, QueueNext(depth, q, true, false, ps[0].wrData), ps[1..]);
    }
  }
}
