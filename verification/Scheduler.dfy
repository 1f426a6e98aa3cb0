/** The thread pointer of the fetch stage (thread_ctrl.sv): which thread is
    fetched next, over any number of threads, and the simulator's version of
    the same choice (simulator.py). */
module Scheduler {
  import opened Options

  /** Steps from thread `a` round the ring to `b`; a full turn when a == b. */
  function Dist(n: nat, a: nat, b: nat): nat
    requires a < n && b < n
  {
    if b > a then b - a else b - a + n
  }

  /** The first runnable thread after `cur` in cyclic order, `cur` itself last;
      `cur` as well when no thread is runnable. */
  function Next(n: nat, cur: nat, run: set<nat>): (r: nat)
    requires cur < n
    ensures r < n
  {
    Search(n, cur, run, 1)
  }

  function Search(n: nat, cur: nat, run: set<nat>, d: nat): (r: nat)
    requires cur < n && 1 <= d <= n
    ensures r < n
    ensures r in run || r == cur
    ensures d <= Dist(n, cur, r) <= n
    ensures forall u | u in run && u < n && d <= Dist(n, cur, u) :: Dist(n, cur, r) <= Dist(n, cur, u)
    decreases n - d
  {
    var t := if cur + d < n then cur + d else cur + d - n;
    if d == n || t in run then t else Search(n, cur, run, d + 1)
  }

  /** Next is the runnable thread at the smallest cyclic distance. */
  lemma NextIsNearest(n: nat, cur: nat, run: set<nat>, u: nat)
    requires cur < n && u < n && u in run
    ensures Next(n, cur, run) in run
    ensures Dist(n, cur, Next(n, cur, run)) <= Dist(n, cur, u)
  {
    if Next(n, cur, run) == cur {
      assert Dist(n, cur, u) == n;
      assert u == cur;
    }
  }

  /** Anything runnable and at least as near as every runnable thread is Next. */
  lemma NextUnique(n: nat, cur: nat, run: set<nat>, r: nat)
    requires cur < n && r < n && r in run
    requires forall u | u in run && u < n :: Dist(n, cur, r) <= Dist(n, cur, u)
    ensures r == Next(n, cur, run)
  {
    NextIsNearest(n, cur, run, r);
  }

  // ---------------------------------------------------------------- eight threads

  function First(run: set<nat>, order: seq<nat>, default: nat): nat {
    if order == [] then default
    else if order[0] in run then order[0]
    else First(run, order[1..], default)
  }

  /** The eight-way case statement of the thread pointer, case by case. */
  function NxtTrd(cur: nat, run: set<nat>): nat
    requires cur < 8
  {
    match cur
    case 0 => First(run, [1, 2, 3, 4, 5, 6, 7], 0)
    case 1 => First(run, [2, 3, 4, 5, 6, 7, 0], 1)
    case 2 => First(run, [3, 4, 5, 6, 7, 0, 1], 2)
    case 3 => First(run, [4, 5, 6, 7, 0, 1, 2], 3)
    case 4 => First(run, [5, 6, 7, 0, 1, 2, 3], 4)
    case 5 => First(run, [6, 7, 0, 1, 2, 3, 4], 5)
    case 6 => First(run, [7, 0, 1, 2, 3, 4, 5], 6)
    case _ => First(run, [0, 1, 2, 3, 4, 5, 6], 7)
  }

  /** The thread d steps after cur among eight. */
  function Around(cur: nat, d: nat): nat
    requires cur < 8 && d <= 8
  {
    if cur + d < 8 then cur + d else cur + d - 8
  }

  lemma {:induction false} FirstIsSearch(cur: nat, run: set<nat>, order: seq<nat>, d: nat)
    requires cur < 8 && 1 <= d <= 8 && |order| == 8 - d
    requires forall i | 0 <= i < |order| :: order[i] == Around(cur, d + i)
    ensures First(run, order, cur) == Search(8, cur, run, d)
    decreases |order|
  {
    if d < 8 {
      assert order[0] == Around(cur, d);
      if order[0] !in run { FirstIsSearch(cur, run, order[1..], d + 1); }
    }
  }

  /** The hand-written case table is the cyclic successor. */
  lemma EightWayIsNext(cur: nat, run: set<nat>)
    requires cur < 8
    ensures NxtTrd(cur, run) == Next(8, cur, run)
  {
    var orders := [[1, 2, 3, 4, 5, 6, 7], [2, 3, 4, 5, 6, 7, 0], [3, 4, 5, 6, 7, 0, 1], [4, 5, 6, 7, 0, 1, 2],
                   [5, 6, 7, 0, 1, 2, 3], [6, 7, 0, 1, 2, 3, 4], [7, 0, 1, 2, 3, 4, 5], [0, 1, 2, 3, 4, 5, 6]];
    FirstIsSearch(cur, run, orders[cur], 1);
  }

  /** The simulator's search over its thread pool: true marks a runnable slot. */
  method FindNextThread(last: nat, pool: seq<bool>) returns (r: Option<nat>)
    requires last < 8 && |pool| == 8
    ensures r.None? <==> forall i | 0 <= i < 8 :: !pool[i]
    ensures r.Some? ==> r.value == Next(8, last, set i | 0 <= i < 8 && pool[i])
  {
    ghost var run := set i: nat | i < 8 && pool[i];
    assert run == set i | 0 <= i < 8 && pool[i];
    for i := last + 1 to 8
      invariant forall j | last < j < i :: !pool[j]
    {
      if pool[i] {
        NextUnique(8, last, run, i);
        return Some(i);
      }
    }
    for i := 0 to last + 1
      invariant forall j | last < j < 8 :: !pool[j]
      invariant forall j | 0 <= j < i :: !pool[j]
    {
      if pool[i] {
        NextUnique(8, last, run, i);
        return Some(i);
      }
    }
    return None;
  }

  // ------------------------------------------------------------ the pointer over time

  /** `last_trd` and `cur_trd_tmp`. */
  datatype Pointer = Pointer(last: nat, tmp: nat)

  /** What happens in one clock: the fetch is held on the last thread (atomic or
      stall), and these threads are runnable. */
  datatype Clock = Clock(hold: bool, run: set<nat>)

  predicate InRing(n: nat, p: Pointer) { p.last < n && p.tmp < n }

  function Current(p: Pointer, hold: bool): nat { if hold then p.last else p.tmp }

  function Advance(n: nat, p: Pointer, c: Clock): (q: Pointer)
    requires InRing(n, p)
    ensures InRing(n, q)
  {
    var cur := Current(p, c.hold);
    Pointer(cur, Next(n, cur, c.run))
  }

  /** The threads fetched, clock by clock. */
  function Fetched(n: nat, p: Pointer, cs: seq<Clock>): (f: seq<nat>)
    requires InRing(n, p)
    ensures |f| == |cs|
    decreases |cs|
  {
    if cs == [] then [] else [Current(p, cs[0].hold)] + Fetched(n, Advance(n, p, cs[0]), cs[1..])
  }

  function UnHeld(cs: seq<Clock>): nat {
    if cs == [] then 0 else (if cs[0].hold then 0 else 1) + UnHeld(cs[1..])
  }

  /** A thread that stays runnable is fetched before the pointer has made n free
      moves, whatever the other threads do and however often it is held: before
      that, every free move brings the pointer strictly nearer. */
  lemma {:induction false} WaitIsBounded(n: nat, p: Pointer, before: set<nat>, cs: seq<Clock>, u: nat)
    requires InRing(n, p) && u < n
    requires u in before && p.tmp == Next(n, p.last, before)
    requires forall i | 0 <= i < |cs| :: u in cs[i].run
    requires UnHeld(cs) >= Dist(n, p.last, u)
    ensures u in Fetched(n, p, cs)
    decreases |cs|
  {
    if cs != [] {
      var cur := Current(p, cs[0].hold);
      if cur != u {
        NextIsNearest(n, p.last, before, u);
        assert cs[0].hold || Dist(n, p.tmp, u) == Dist(n, p.last, u) - Dist(n, p.last, p.tmp);
        WaitIsBounded(n, Advance(n, p, cs[0]), cs[0].run, cs[1..], u);
      }
      assert Fetched(n, p, cs)[0] == cur;
      assert Fetched(n, p, cs)[1..] == Fetched(n, Advance(n, p, cs[0]), cs[1..]);
    }
  }

  /** Bounded waiting: n free clocks are always enough, even when the next
      thread was chosen before `u` became runnable. */
  lemma BoundedWaiting(n: nat, p: Pointer, cs: seq<Clock>, u: nat)
    requires InRing(n, p) && u < n
    requires forall i | 0 <= i < |cs| :: u in cs[i].run
    requires UnHeld(cs) >= n
    ensures u in Fetched(n, p, cs)
  {
    var q := Advance(n, p, cs[0]);
    if q.last != u {
      assert Dist(n, q.last, u) <= n - (if cs[0].hold then 0 else 1);
      WaitIsBounded(n, q, cs[0].run, cs[1..], u);
    }
    assert Fetched(n, p, cs)[0] == q.last;
    assert Fetched(n, p, cs)[1..] == Fetched(n, q, cs[1..]);
  }

  // ---------------------------------------------------------------- rotation

  /** The i-th slot after `cur` when the runnable set does not change. */
  function Slot(n: nat, cur: nat, run: set<nat>, i: nat): (s: nat)
    requires cur < n
    ensures s < n
  {
    if i == 0 then cur else Next(n, Slot(n, cur, run, i - 1), run)
  }

  function Upto(n: nat, cur: nat, run: set<nat>, u: nat): set<nat>
    requires cur < n && u < n
    requires forall v | v in run :: v < n
  {
    set v | v in run && Dist(n, cur, v) <= Dist(n, cur, u)
  }

  /** The step from one slot to the next passes over no runnable thread. */
  lemma UptoNext(n: nat, cur: nat, run: set<nat>, r: nat, u: nat)
    requires cur < n && r < n && u in run && r in run
    requires forall v | v in run :: v < n
    requires u !in Upto(n, cur, run, r)
    ensures Next(n, r, run) in run && Next(n, r, run) !in Upto(n, cur, run, r)
    ensures Upto(n, cur, run, Next(n, r, run)) == Upto(n, cur, run, r) + {Next(n, r, run)}
  {
    var s := Next(n, r, run);
    NextIsNearest(n, r, run, u);
    assert Dist(n, cur, s) == Dist(n, cur, r) + Dist(n, r, s);
    forall v | v in run && v !in Upto(n, cur, run, r) && v != s ensures Dist(n, cur, s) < Dist(n, cur, v) {
      NextIsNearest(n, r, run, v);
    }
  }

  lemma UptoFirst(n: nat, cur: nat, run: set<nat>, u: nat)
    requires cur < n && u in run
    requires forall v | v in run :: v < n
    ensures Next(n, cur, run) in run
    ensures Upto(n, cur, run, Next(n, cur, run)) == {Next(n, cur, run)}
  {
    NextIsNearest(n, cur, run, u);
    forall v | v in run && v != Next(n, cur, run)
      ensures Dist(n, cur, Next(n, cur, run)) < Dist(n, cur, v)
    {
      NextIsNearest(n, cur, run, v);
    }
  }

  /** Slot i is the i-th nearest runnable thread, so the slots spread round the ring. */
  lemma {:induction false} SlotRank(n: nat, cur: nat, run: set<nat>, i: nat)
    requires cur < n && 1 <= i <= |run|
    requires forall v | v in run :: v < n
    ensures Slot(n, cur, run, i) in run
    ensures |Upto(n, cur, run, Slot(n, cur, run, i))| == i
    decreases i
  {
    hide Next, Upto, Dist;
    if i == 1 {
      var u :| u in run;
      UptoFirst(n, cur, run, u);
      assert Slot(n, cur, run, 1) == Next(n, Slot(n, cur, run, 0), run);
    } else {
      SlotRank(n, cur, run, i - 1);
      var near := Upto(n, cur, run, Slot(n, cur, run, i - 1));
      if run <= near { SubsetSize(run, near); }
      var u :| u in run && u !in near;
      UptoNext(n, cur, run, Slot(n, cur, run, i - 1), u);
    }
  }

  /** Any |run| consecutive slots belong to different threads. */
  lemma SlotsDistinct(n: nat, cur: nat, run: set<nat>, i: nat, j: nat)
    requires cur < n && i < j < |run|
    requires forall v | v in run :: v < n
    ensures Slot(n, cur, run, i) != Slot(n, cur, run, j)
  {
    SlotRank(n, cur, run, j);
    if i == 0 {
      if cur in run { assert Upto(n, cur, run, cur) == run; }
    } else {
      SlotRank(n, cur, run, i);
    }
  }

  /** Exact fairness: the rotation comes back to a runnable thread after |run|
      slots, not sooner. */
  lemma RotationPeriod(n: nat, cur: nat, run: set<nat>)
    requires cur < n && cur in run
    requires forall v | v in run :: v < n
    ensures Slot(n, cur, run, |run|) == cur
    ensures forall i | 0 < i < |run| :: Slot(n, cur, run, i) != cur
  {
    SlotRank(n, cur, run, |run|);
    var s := Slot(n, cur, run, |run|);
    if s != cur {
      assert Upto(n, cur, run, s) <= run - {cur};
      SubsetSize(Upto(n, cur, run, s), run - {cur});
    }
    forall i | 0 < i < |run| ensures Slot(n, cur, run, i) != cur {
      SlotsDistinct(n, cur, run, 0, i);
    }
  }

  lemma {:induction false} SubsetSize(a: set<nat>, b: set<nat>)
    requires a <= b
    ensures |a| <= |b|
    decreases |a|
  {
    if a != {} {
      var x :| x in a;
      SubsetSize(a - {x}, b - {x});
    }
  }

  /** Neighbouring slots differ with two runnable threads, and so do slots two
      apart with three. */
  lemma NeighboursDiffer(n: nat, cur: nat, run: set<nat>)
    requires cur < n
    requires forall v | v in run :: v < n
    ensures |run| >= 2 ==> Next(n, cur, run) != cur
    ensures |run| >= 3 ==> Next(n, Next(n, cur, run), run) != cur
  {
    assert Slot(n, cur, run, 0) == cur;
    assert Slot(n, cur, run, 1) == Next(n, cur, run);
    assert Slot(n, cur, run, 2) == Next(n, Next(n, cur, run), run);
    if |run| >= 2 { SlotsDistinct(n, cur, run, 0, 1); }
    if |run| >= 3 { SlotsDistinct(n, cur, run, 0, 2); }
  }
}
