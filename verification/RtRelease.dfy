/** Release of throttled queues that hold no runtime of their own (rt.c): with sharing on, the
    period timer lets them borrow, and each firing pays off part of what the queues together owe. */
module RtRelease {
  import opened Arithmetic
  import opened RtBandwidth

  // ------------------------------------------------------------------
  // The time still to be paid off
  // ------------------------------------------------------------------

  ghost function Owed(q: Queue): int {
    if Enabled(q) then q.time else 0
  }

  /** What the enabled queues have to pay off together */
  ghost function Debt(qs: seq<Queue>): int {
    if qs == [] then 0 else Owed(qs[0]) + Debt(qs[1..])
  }

  lemma {:induction false} DebtUpdate(qs: seq<Queue>, i: nat, q: Queue)
    requires i < |qs|
    ensures Debt(qs[i := q]) == Debt(qs) - Owed(qs[i]) + Owed(q)
  {
    if i == 0 {
      assert qs[0 := q][1..] == qs[1..];
    } else {
      DebtUpdate(qs[1..], i - 1, q);
      assert qs[i := q][1..] == qs[1..][i - 1 := q];
    }
  }

  lemma {:induction false} DebtSame(qs: seq<Queue>, r: seq<Queue>)
    requires |r| == |qs| && forall i {:trigger r[i]} {:trigger qs[i]} :: 0 <= i < |qs| ==> Owed(r[i]) == Owed(qs[i])
    ensures Debt(r) == Debt(qs)
  {
    hide Owed;
    if qs != [] {
      forall i | 0 <= i < |qs[1..]| ensures Owed(r[1..][i]) == Owed(qs[1..][i]) {
        assert r[1..][i] == r[i + 1] && qs[1..][i] == qs[i + 1];
      }
      DebtSame(qs[1..], r[1..]);
    }
  }

  lemma {:induction false} DebtHolds(qs: seq<Queue>, i: nat)
    requires i < |qs| && NonNegative(qs)
    ensures 0 <= Owed(qs[i]) <= Debt(qs)
  {
    if i == 0 {
      if |qs| > 1 { DebtHolds(qs[1..], 0); }
    } else {
      DebtHolds(qs[1..], i - 1);
    }
  }

  // ------------------------------------------------------------------
  // Who pays at a firing
  // ------------------------------------------------------------------

  /** A queue with a share to give */
  ghost predicate Spare(qs: seq<Queue>, i: nat) {
    i < |qs| && Enabled(qs[i]) && qs[i].runtime - qs[i].time >= |qs|
  }

  /** An enabled queue with time on its account pays some of it off if it holds runtime, or is
      throttled and finds somebody to borrow from. */
  ghost predicate Pays(qs: seq<Queue>, i: nat) {
    && i < |qs| && Enabled(qs[i]) && qs[i].time > 0
    && (qs[i].runtime > 0 || (qs[i].throttled && exists k: nat :: k != i && Spare(qs, k)))
  }

  ghost predicate Stuck(qs: seq<Queue>) {
    forall i: nat {:trigger Pays(qs, i)} :: !Pays(qs, i)
  }

  /** Who has nothing gets something by borrowing exactly if somebody has a share to give. */
  lemma {:induction false} BorrowsIff(qs: seq<Queue>, k: nat, i: nat, period: int)
    requires k < |qs| && i <= |qs| && Enabled(qs[k]) && InRange(qs, period) && period > 0 && qs[k].runtime == 0
    ensures
      var r := Balanced(qs, k, i, period);
      if exists l: nat :: i <= l && l != k && Spare(qs, l) then r[k].runtime > 0 else r == qs
    decreases |qs| - i
  {
    hide InRange;
    if i < |qs| {
      ShareOfNone(qs, k, i, period);
      if i != k && Spare(qs, i) {
        var next := Lent(qs, k, i, period);
        LentFacts(qs, k, i, period);
        if !(next[k].runtime == period) { PeriodFloor(next, k, i + 1, period); }
      } else {
        BorrowsIff(qs, k, i + 1, period);
      }
    }
  }

  lemma {:induction false} ShareOfNone(qs: seq<Queue>, k: nat, i: nat, period: int)
    requires k < |qs| && i < |qs| && qs[k].runtime == 0 && period > 0
    ensures if i != k && Spare(qs, i) then Lends(qs, k, i) && Lent(qs, k, i, period)[k].runtime > 0
            else Lent(qs, k, i, period) == qs
  {
    if Lends(qs, k, i) {
      var spare, w := qs[i].runtime - qs[i].time, |qs|;
      DivBound(spare, w);
      DivMod(spare, w);
      if spare < w {
        DivUnique(spare, w, 0);
        assert Share(0, qs[i], w, period) == 0;
        assert Lent(qs, k, i, period) == qs;
      } else {
        DivMonotone(w, spare, w);
        DivUnique(w, w, 1);
      }
    }
  }

  // ------------------------------------------------------------------
  // One turn, one firing
  // ------------------------------------------------------------------

  /** A turn pays off something exactly if it is that of a queue that pays, and otherwise leaves
      every enabled queue as it is. */
  lemma {:induction false} TurnDebt(qs: seq<Queue>, i: nat, overrun: nat, base: int, period: int)
    requires i < |qs| && Books(qs, base, period) && period > 0 && overrun >= 1 && overrun * Pool(qs) < U64
    ensures
      var r := TimerAt(qs, i, overrun, period, true);
      if Pays(qs, i) then Debt(r) < Debt(qs)
      else forall j {:trigger r[j]} :: 0 <= j < |qs| && Enabled(qs[j]) ==> r[j] == qs[j]
    ensures forall j :: 0 <= j < |qs| ==>
      Enabled(TimerAt(qs, i, overrun, period, true)[j]) == Enabled(qs[j])
  {
    var r := TimerAt(qs, i, overrun, period, true);
    RebalancedFacts(qs, i, base, period, true);
    var b := if qs[i].throttled then Rebalanced(qs, i, period, true) else qs;
    if Enabled(qs[i]) && qs[i].time > 0 {
      ConservedRange(qs, base, period);
      RebalancedPool(qs, i, base, period, true);
      PoolBounds(b, i);
      Repays(b[i].runtime, overrun, Pool(qs));
      if qs[i].runtime == 0 && qs[i].throttled { BorrowsIff(qs, i, 0, period); }
      DebtSame(qs, b);
      DebtUpdate(b, i, r[i]);
    }
  }

  /** Enabled queues that stay as they are pay, or do not, as before. */
  lemma {:induction false} PaysSame(qs: seq<Queue>, r: seq<Queue>, i: nat)
    requires |r| == |qs| && forall j :: 0 <= j < |qs| ==> Enabled(r[j]) == Enabled(qs[j])
    requires forall j {:trigger r[j]} {:trigger qs[j]} :: 0 <= j < |qs| && Enabled(qs[j]) ==> r[j] == qs[j]
    ensures Pays(r, i) <==> Pays(qs, i)
  {
    assert forall k: nat :: Spare(r, k) <==> Spare(qs, k);
  }

  lemma {:induction false} TurnOnlyPays(qs: seq<Queue>, i: nat, overrun: nat, base: int, period: int)
    requires i < |qs| && Books(qs, base, period) && period > 0 && overrun >= 1 && overrun * Pool(qs) < U64
    ensures Debt(TimerAt(qs, i, overrun, period, true)) <= Debt(qs)
    ensures !Pays(qs, i) ==>
      && Debt(TimerAt(qs, i, overrun, period, true)) == Debt(qs)
      && forall l: nat {:trigger Pays(qs, l)} {:trigger Pays(TimerAt(qs, i, overrun, period, true), l)} ::
           Pays(TimerAt(qs, i, overrun, period, true), l) <==> Pays(qs, l)
  {
    hide TimerAt, Pays, Books;
    var r := TimerAt(qs, i, overrun, period, true);
    TurnDebt(qs, i, overrun, base, period);
    if !Pays(qs, i) {
      DebtSame(qs, r);
      forall l: nat ensures Pays(r, l) <==> Pays(qs, l) { PaysSame(qs, r, l); }
    }
  }

  /** The turns from i on pay off something exactly if one of those queues pays; the enabled
      queues are left as they are otherwise. */
  lemma {:induction false} FiringDebt(qs: seq<Queue>, i: nat, overrun: nat, base: int, period: int)
    requires i <= |qs| && Books(qs, base, period) && period > 0 && overrun >= 1 && overrun * Pool(qs) < U64
    ensures
      var r := TimerFrom(qs, i, overrun, period, true);
      && Debt(r) <= Debt(qs)
      && (Debt(r) < Debt(qs) <==> exists l: nat :: i <= l && Pays(qs, l))
      && (forall j :: 0 <= j < |qs| ==> Enabled(r[j]) == Enabled(qs[j]))
      && (Debt(r) == Debt(qs) ==> forall j {:trigger r[j]} :: 0 <= j < |qs| && Enabled(qs[j]) ==> r[j] == qs[j])
    decreases |qs| - i
  {
    hide TimerAt, Books;
    if i < |qs| {
      var r := TimerAt(qs, i, overrun, period, true);
      TimerAtGood(qs, i, overrun, base, period, true);
      TurnPool(qs, i, overrun, base, period, true);
      TurnDebt(qs, i, overrun, base, period);
      TurnOnlyPays(qs, i, overrun, base, period);
      FiringDebt(r, i + 1, overrun, base, period);
      assert (exists l: nat :: i <= l && Pays(qs, l)) <==> Pays(qs, i) || exists l: nat :: i + 1 <= l && Pays(qs, l);
    }
  }

  /** Each firing pays off some of the debt exactly if the group is not stuck, and a stuck group
      stays stuck, its enabled queues unchanged. */
  lemma {:induction false} FiringPaysIff(qs: seq<Queue>, overrun: nat, base: int, period: int)
    requires Books(qs, base, period) && period > 0 && overrun >= 1 && overrun * Pool(qs) < U64
    ensures
      var r := TimerFrom(qs, 0, overrun, period, true);
      && Debt(r) <= Debt(qs) && (Debt(r) < Debt(qs) <==> !Stuck(qs))
      && (Stuck(qs) ==> Stuck(r) && forall j {:trigger r[j]} :: 0 <= j < |qs| && Enabled(qs[j]) ==> r[j] == qs[j])
  {
    hide Books, Pays, TimerFrom;
    FiringDebt(qs, 0, overrun, base, period);
    var r := TimerFrom(qs, 0, overrun, period, true);
    if Stuck(qs) {
      forall l: nat ensures !Pays(r, l) { PaysSame(qs, r, l); }
    }
  }

  // ------------------------------------------------------------------
  // A group is never stuck with a unit for each CPU
  // ------------------------------------------------------------------

  lemma {:induction false} PoolCeiling(qs: seq<Queue>, b: int)
    requires forall i {:trigger Part(qs[i])} :: 0 <= i < |qs| && Enabled(qs[i]) ==> Part(qs[i]) <= b
    ensures Pool(qs) <= Count(qs) * b
  {
    if qs != [] {
      forall i | 0 <= i < |qs[1..]| && Enabled(qs[1..][i]) ensures Part(qs[1..][i]) <= b {
        assert qs[1..][i] == qs[i + 1] && Part(qs[i + 1]) <= b;
      }
      PoolCeiling(qs[1..], b);
      assert Enabled(qs[0]) ==> Part(qs[0]) <= b;
      Distributes(Count(qs[1..]), b);
    }
  }

  lemma Distributes(n: nat, b: int)
    ensures (1 + n) * b == b + n * b
  {
  }

  lemma {:induction false} CountsOne(qs: seq<Queue>, i: nat)
    requires i < |qs| && Enabled(qs[i])
    ensures Count(qs) >= 1
  {
    if i > 0 { CountsOne(qs[1..], i - 1); }
  }

  /** If the group's runtime is at least one unit for each CPU, a throttled queue never waits in
      vain: somebody pays. */
  lemma {:induction false} RoomyNeverStuck(qs: seq<Queue>, j: nat, base: int, period: int)
    requires j < |qs| && Books(qs, base, period) && Late(qs) && base >= |qs|
    requires Enabled(qs[j]) && qs[j].throttled
    ensures !Stuck(qs)
  {
    if Stuck(qs) {
      CountsOne(qs, j);
      var b := |qs| - 1;
      forall i | 0 <= i < |qs| && Enabled(qs[i]) ensures Part(qs[i]) <= b {
        assert !Pays(qs, i) && !Pays(qs, j);
        assert i != j ==> !Spare(qs, i);
      }
      PoolCeiling(qs, b);
      Above(Count(qs), b, base);
      assert false;
    }
  }

  lemma Above(n: nat, b: int, base: int)
    requires n >= 1 && b < base
    ensures n * b < n * base
  {
    MulMonotone(b + 1, base, n);
    assert (b + 1) * n == b * n + n && b * n == n * b && base * n == n * base;
  }

  // ------------------------------------------------------------------
  // So every throttled queue is released
  // ------------------------------------------------------------------

  lemma {:induction false} FiredEnabled(qs: seq<Queue>, j: nat, overruns: seq<nat>, m: nat, base: int, period: int)
    requires j < |qs| && m <= |overruns| && Books(qs, base, period) && Late(qs) && period > 0
    requires NoOverflow(overruns, Pool(qs))
    ensures Enabled(Fired(qs, overruns, m, period, true)[j]) == Enabled(qs[j])
    ensures Debt(Fired(qs, overruns, m, period, true)) <= Debt(qs)
  {
    hide Books, Late, TimerFrom, Pool, Enabled, Pays;
    if m > 0 {
      FiredEnabled(qs, j, overruns, m - 1, base, period);
      FiredGood(qs, overruns, m - 1, base, period, true);
      FiringDebt(Fired(qs, overruns, m - 1, period, true), 0, overruns[m - 1], base, period);
    }
  }

  /** As long as it stays throttled, each firing pays off a unit at least. */
  lemma {:induction false} DebtFalls(qs: seq<Queue>, j: nat, overruns: seq<nat>, m: nat, base: int, period: int)
    requires j < |qs| && m <= |overruns| && Books(qs, base, period) && Late(qs) && period > 0 && base >= |qs|
    requires NoOverflow(overruns, Pool(qs)) && Enabled(qs[j])
    requires forall k {:trigger Fired(qs, overruns, k, period, true)} :: 0 <= k < m ==>
      Fired(qs, overruns, k, period, true)[j].throttled
    ensures Debt(Fired(qs, overruns, m, period, true)) <= Debt(qs) - m
  {
    hide Books, Late, TimerFrom, Pool, Enabled, Stuck;
    if m > 0 {
      DebtFalls(qs, j, overruns, m - 1, base, period);
      FiredEnabled(qs, j, overruns, m - 1, base, period);
      FiredGood(qs, overruns, m - 1, base, period, true);
      var r := Fired(qs, overruns, m - 1, period, true);
      RoomyNeverStuck(r, j, base, period);
      FiringPaysIff(r, overruns[m - 1], base, period);
    }
  }

  /** The firings after which nothing can be left throttled */
  ghost function Enough(qs: seq<Queue>): int {
    Max(1, Debt(qs))
  }

  /** With sharing on and a unit of runtime for each CPU, the period timer releases every throttled
      queue, even one that holds nothing itself, within as many firings as the queues owe units. */
  lemma {:induction false} AllAreReleased(qs: seq<Queue>, j: nat, overruns: seq<nat>, base: int, period: int)
    returns (m: nat)
    requires j < |qs| && Books(qs, base, period) && Late(qs) && qs[j].throttled && period > 0 && base >= |qs|
    requires NoOverflow(overruns, Pool(qs)) && |overruns| >= Enough(qs)
    ensures 1 <= m <= Enough(qs) && !Fired(qs, overruns, m, period, true)[j].throttled
  {
    hide TimerFrom, Pool, NoOverflow, Conserved;
    if !Enabled(qs[j]) {
      m := ThrottledIsReleased(qs, j, overruns, base, period, true);
    } else {
      DebtHolds(qs, j);
      var n := Debt(qs);
      if k: nat :| 1 <= k <= n && !Fired(qs, overruns, k, period, true)[j].throttled {
        m := k;
      } else {
        assert Fired(qs, overruns, 0, period, true) == qs;
        DebtFalls(qs, j, overruns, n, base, period);
        FiredGood(qs, overruns, n, base, period, true);
        FiredEnabled(qs, j, overruns, n, base, period);
        var r := Fired(qs, overruns, n, period, true);
        DebtHolds(r, j);
        assert false;
      }
    }
  }

  /** That holds in every state of every run. */
  lemma {:induction false} AllReleasedInEveryRun(run: seq<Group>, steps: seq<Step>, share: bool, i: nat, j: nat,
          overruns: seq<nat>)
    returns (m: nat)
    requires IsRun(run, steps, share) && Sound(run[0]) && Late(run[0].qs) && i < |run| && j < |run[i].qs|
    requires run[i].qs[j].throttled && run[i].period > 0 && run[i].runtime >= |run[i].qs|
    requires NoOverflow(overruns, Pool(run[i].qs)) && |overruns| >= Enough(run[i].qs)
    ensures 1 <= m <= Enough(run[i].qs)
    ensures !Fired(run[i].qs, overruns, m, run[i].period, true)[j].throttled
  {
    hide Books, Late, Pool, NoOverflow, Enough;
    LateInEveryRun(run, steps, share, i);
    m := AllAreReleased(run[i].qs, j, overruns, run[i].runtime, run[i].period);
  }

  // ------------------------------------------------------------------
  // Where it is not so
  // ------------------------------------------------------------------

  /** Without sharing a throttled queue that holds nothing is never released. */
  lemma {:induction false} NothingToPayWith(qs: seq<Queue>, j: nat, i: nat, overrun: nat, period: int)
    requires j < |qs| && i <= |qs| && qs[j].runtime == 0 && qs[j].throttled && qs[j].time > 0
    ensures TimerFrom(qs, i, overrun, period, false)[j] == qs[j]
    decreases |qs| - i
  {
    if i < |qs| {
      assert (overrun * 0) % U64 == 0;
      NothingToPayWith(TimerAt(qs, i, overrun, period, false), j, i + 1, overrun, period);
    }
  }

  /** Nor is it with sharing in a stuck group, for instance with two units for each of four CPUs. */
  lemma {:induction false} StuckForEver(qs: seq<Queue>, j: nat, overruns: seq<nat>, m: nat, base: int, period: int)
    requires j < |qs| && m <= |overruns| && Books(qs, base, period) && Late(qs) && period > 0
    requires NoOverflow(overruns, Pool(qs)) && Stuck(qs) && Enabled(qs[j])
    ensures Stuck(Fired(qs, overruns, m, period, true)) && Fired(qs, overruns, m, period, true)[j] == qs[j]
  {
    hide Books, Late, TimerFrom, Pool, Stuck;
    if m > 0 {
      StuckForEver(qs, j, overruns, m - 1, base, period);
      FiredGood(qs, overruns, m - 1, base, period, true);
      FiringPaysIff(Fired(qs, overruns, m - 1, period, true), overruns[m - 1], base, period);
    }
  }

  lemma {:induction false} TooLittleToShare()
    ensures
      var qs := [Queue(3, 0, false), Queue(3, 0, false), Queue(2, 0, false), Queue(0, 5, true)];
      Books(qs, 2, 100) && Late(qs) && Stuck(qs)
  {
    var a, b, c, d := Queue(3, 0, false), Queue(3, 0, false), Queue(2, 0, false), Queue(0, 5, true);
    var qs := [a, b, c, d];
    assert qs[1..] == [b, c, d] && [b, c, d][1..] == [c, d] && [c, d][1..] == [d] && [d][1..] == [];
    assert Pool([]) == 0 && Count([]) == 0;
    assert Pool([d]) == 0 && Count([d]) == 1;
    assert Pool([c, d]) == 2 && Count([c, d]) == 2;
    assert Pool([b, c, d]) == 5 && Count([b, c, d]) == 3;
    forall i: nat ensures !Pays(qs, i) {
      if i == 3 { assert forall k: nat :: k != i ==> !Spare(qs, k); }
    }
  }

  /** A CPU going down takes back what it lent and may leave a throttled queue nothing. */
  lemma {:induction false} DisableDrains()
    ensures
      var qs := [Queue(14, 100, true), Queue(69, 65, false), Queue(7, 0, false)];
      var r := Disabled(qs, 2, 30).qs;
      Books(qs, 30, 100) && Late(qs) && Owing(qs) && r[0] == Queue(0, 100, true)
  {
    var a, b, c := Queue(14, 100, true), Queue(69, 65, false), Queue(7, 0, false);
    var qs := [a, b, c];
    assert qs[1..] == [b, c] && [b, c][1..] == [c] && [c][1..] == [];
    assert Pool([]) == 0 && Count([]) == 0;
    assert Pool([c]) == 7 && Count([c]) == 1;
    assert Pool([b, c]) == 76 && Count([b, c]) == 2;
    var qs1 := qs[0 := Queue(0, 100, true)];
    var qs2 := qs1[1 := Queue(60, 65, false)];
    assert Reclaim(qs1, 2, 1, 9) == Reclaimed(qs2, 0);
    assert Reclaim(qs, 2, 0, 23) == Reclaim(qs1, 2, 1, 9);
  }
}
