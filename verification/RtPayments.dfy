/** What borrowing, reclaiming, charging and paying off come to, in amounts: for every queue, the
    runtime, the time and the flag it ends with (rt.c).

    The amounts are stated on the queues as they were, without following the loops. */
module RtPayments {
  import opened Arithmetic
  import opened Sums
  import opened RtBandwidth

  // ------------------------------------------------------------------
  // do_balance_runtime
  // ------------------------------------------------------------------

  ghost predicate HasSpare(qs: seq<Queue>, k: nat, i: nat) {
    i < |qs| && i != k && qs[i].runtime != 0xFFFF_FFFF_FFFF_FFFF && qs[i].time < qs[i].runtime
  }

  lemma SpareIff(qs: seq<Queue>, k: nat)
    ensures (exists i: nat :: HasSpare(qs, k, i)) <==> exists j :: 0 <= j < |qs| && Lends(qs, k, j)
  {
    if i: nat :| HasSpare(qs, k, i) { assert Lends(qs, k, i); }
    if j :| 0 <= j < |qs| && Lends(qs, k, j) { assert HasSpare(qs, k, j); }
  }

  /** The shares of the CPUs before i: of each, the n-th part of what it has not used */
  ghost function Offers(qs: seq<Queue>, k: nat, i: nat): (r: int)
    requires i <= |qs|
    ensures r >= 0
  {
    if i == 0 then 0
    else
      var q := qs[i - 1];
      if HasSpare(qs, k, i - 1) then
        DivBound(q.runtime - q.time, |qs|);
        Offers(qs, k, i - 1) + (q.runtime - q.time) / |qs|
      else Offers(qs, k, i - 1)
  }

  ghost predicate AnySpare(qs: seq<Queue>, k: nat, i: nat) {
    exists j: nat :: j < i && HasSpare(qs, k, j)
  }

  /** The runtime of k once the CPUs before i were asked: all they offer, but no more than a period.
      A k that holds more than a period is cut down to it by the first one that has any to spare. */
  ghost function Level(qs: seq<Queue>, k: nat, i: nat, period: int): int
    requires k < |qs| && i <= |qs|
  {
    if AnySpare(qs, k, i) then Min(period, qs[k].runtime + Offers(qs, k, i)) else qs[k].runtime
  }

  /** The runtime of queue j after k borrowed: every lender gives up just what k gained from it. */
  ghost function Holds(qs: seq<Queue>, k: nat, j: nat, period: int): int
    requires k < |qs| && j < |qs|
  {
    if j == k then Level(qs, k, |qs|, period)
    else qs[j].runtime - (Level(qs, k, j + 1, period) - Level(qs, k, j, period))
  }

  lemma {:induction false} LevelNext(qs: seq<Queue>, k: nat, i: nat, period: int)
    requires k < |qs| && i < |qs|
    ensures !HasSpare(qs, k, i) ==> Level(qs, k, i + 1, period) == Level(qs, k, i, period)
    ensures HasSpare(qs, k, i) ==>
      Level(qs, k, i + 1, period) == Min(period, Level(qs, k, i, period) + (qs[i].runtime - qs[i].time) / |qs|)
  {
    hide HasSpare;
    if AnySpare(qs, k, i) {
      var j: nat :| j < i && HasSpare(qs, k, j);
      assert j < i + 1;
    }
    if HasSpare(qs, k, i) {
      assert AnySpare(qs, k, i + 1);
      SpareShare(qs, k, i);
      if !AnySpare(qs, k, i) { NoOffers(qs, k, i); }
    } else if AnySpare(qs, k, i + 1) {
      assert AnySpare(qs, k, i);
    }
  }

  lemma {:induction false} NoOffers(qs: seq<Queue>, k: nat, i: nat)
    requires i <= |qs| && !AnySpare(qs, k, i)
    ensures Offers(qs, k, i) == 0
  {
    if i > 0 {
      assert forall j: nat :: j < i - 1 && HasSpare(qs, k, j) ==> j < i;
      NoOffers(qs, k, i - 1);
      assert !HasSpare(qs, k, i - 1);
    }
  }

  lemma SpareShare(qs: seq<Queue>, k: nat, i: nat)
    requires HasSpare(qs, k, i)
    ensures (qs[i].runtime - qs[i].time) / |qs| >= 0
  {
    DivBound(qs[i].runtime - qs[i].time, |qs|);
  }

  /** A level at the period stays there. */
  lemma {:induction false} LevelFull(qs: seq<Queue>, k: nat, i: nat, j: nat, period: int)
    requires k < |qs| && i <= j <= |qs| && AnySpare(qs, k, i) && Level(qs, k, i, period) == period
    ensures AnySpare(qs, k, j) && Level(qs, k, j, period) == period
    decreases j - i
  {
    hide HasSpare;
    if i < j {
      LevelNext(qs, k, i, period);
      var x: nat :| x < i && HasSpare(qs, k, x);
      assert x < i + 1;
      if HasSpare(qs, k, i) { SpareShare(qs, k, i); }
      LevelFull(qs, k, i + 1, j, period);
    }
  }

  /** cur is what qs has become when k has asked the CPUs before i. */
  ghost predicate Asked(qs: seq<Queue>, cur: seq<Queue>, k: nat, i: nat, period: int) {
    && |cur| == |qs| && k < |qs| && i <= |qs|
    && cur[k] == qs[k].(runtime := Level(qs, k, i, period))
    && (forall j :: 0 <= j < i && j != k ==> cur[j] == qs[j].(runtime := Holds(qs, k, j, period)))
    && (forall j :: i <= j < |qs| && j != k ==> cur[j] == qs[j])
  }

  lemma {:induction false} AskNext(qs: seq<Queue>, cur: seq<Queue>, k: nat, i: nat, period: int)
    requires Asked(qs, cur, k, i, period) && i < |qs|
    ensures Lends(cur, k, i) <==> HasSpare(qs, k, i)
    ensures Asked(qs, Lent(cur, k, i, period), k, i + 1, period)
  {
    hide Level;
    LevelNext(qs, k, i, period);
    assert Lends(cur, k, i) <==> HasSpare(qs, k, i);
    if i == k {
      assert Lent(cur, k, i, period) == cur;
    } else if HasSpare(qs, k, i) {
      assert cur[i] == qs[i];
    }
  }

  lemma {:induction false} BalancedAt(qs: seq<Queue>, cur: seq<Queue>, k: nat, i: nat, period: int)
    requires Asked(qs, cur, k, i, period)
    ensures Asked(qs, Balanced(cur, k, i, period), k, |qs|, period)
    decreases |qs| - i
  {
    hide Level, Lent;
    if i < |qs| {
      AskNext(qs, cur, k, i, period);
      var next := Lent(cur, k, i, period);
      BalancedNext(cur, k, i, period);
      if Lends(cur, k, i) && next[k].runtime == period {
        assert AnySpare(qs, k, i + 1);
        forall j: nat | i + 1 <= j <= |qs| ensures Level(qs, k, j, period) == period {
          LevelFull(qs, k, i + 1, j, period);
        }
      } else {
        BalancedAt(qs, next, k, i + 1, period);
      }
    }
  }

  /** The whole round of borrowing, in amounts. */
  lemma {:induction false} BalancedExact(qs: seq<Queue>, k: nat, period: int)
    requires k < |qs|
    ensures forall j :: 0 <= j < |qs| ==>
      Balanced(qs, k, 0, period)[j] == qs[j].(runtime := Holds(qs, k, j, period))
  {
    assert !AnySpare(qs, k, 0);
    BalancedAt(qs, qs, k, 0, period);
  }

  /** The runtime of queue j after balance_runtime for k */
  ghost function HoldsThen(qs: seq<Queue>, k: nat, j: nat, period: int, share: bool): int
    requires k < |qs| && j < |qs|
  {
    if share && qs[k].runtime < qs[k].time then Holds(qs, k, j, period) else qs[j].runtime
  }

  lemma {:induction false} RebalancedExact(qs: seq<Queue>, k: nat, period: int, share: bool)
    requires k < |qs|
    ensures forall j :: 0 <= j < |qs| ==>
      Rebalanced(qs, k, period, share)[j] == qs[j].(runtime := HoldsThen(qs, k, j, period, share))
  {
    hide Balanced, Holds;
    BalancedExact(qs, k, period);
  }

  // ------------------------------------------------------------------
  // sched_rt_runtime_exceeded and update_curr_rt
  // ------------------------------------------------------------------

  /** Queue k is held to its runtime: it is not throttled yet and has less than a period. */
  ghost predicate Checked(qs: seq<Queue>, k: nat, period: int)
    requires k < |qs|
  {
    !qs[k].throttled && qs[k].runtime < period
  }

  /** And has used more than it holds, borrowed runtime included. */
  ghost predicate RanOut(qs: seq<Queue>, k: nat, period: int, share: bool)
    requires k < |qs|
  {
    && Checked(qs, k, period)
    && HoldsThen(qs, k, k, period, share) != 0xFFFF_FFFF_FFFF_FFFF
    && HoldsThen(qs, k, k, period, share) < qs[k].time
  }

  /** What becomes of the queues: k's flag is set if it ran out, its time forgiven if its group has no
      runtime at all, and runtime moved by borrowing alone. */
  ghost predicate HeldTo(qs: seq<Queue>, r: seq<Queue>, k: nat, base: int, period: int, share: bool) {
    && |r| == |qs| && k < |qs|
    && (r[k].throttled <==> qs[k].throttled || (RanOut(qs, k, period, share) && base != 0))
    && r[k].time == (if RanOut(qs, k, period, share) && base == 0 then 0 else qs[k].time)
    && (forall j :: 0 <= j < |qs| ==>
          r[j].runtime == if Checked(qs, k, period) then HoldsThen(qs, k, j, period, share) else qs[j].runtime)
    && (forall j :: 0 <= j < |qs| && j != k ==> r[j].time == qs[j].time && r[j].throttled == qs[j].throttled)
  }

  /** The caller is told to reschedule exactly if the queue is throttled now and not boosted. */
  lemma {:induction false} ExceededExact(qs: seq<Queue>, k: nat, boosted: bool, base: int, period: int, share: bool)
    requires k < |qs|
    ensures
      var v := Exceeded(qs, k, boosted, base, period, share);
      HeldTo(qs, v.qs, k, base, period, share) && (v.over <==> v.qs[k].throttled && !boosted)
  {
    hide HoldsThen, Rebalanced;
    RebalancedExact(qs, k, period, share);
  }

  /** The time of queue k grown by what is charged to it */
  ghost function Grown(qs: seq<Queue>, k: nat, delta: int): seq<Queue>
    requires k < |qs|
  {
    qs[k := Queue(qs[k].runtime, qs[k].time + delta, qs[k].throttled)]
  }

  lemma {:induction false} ChargedExact(qs: seq<Queue>, k: nat, delta: int, boosted: bool, base: int, period: int,
          share: bool)
    requires k < |qs|
    ensures
      var v := Charged(qs, k, delta, boosted, base, period, share);
      if qs[k].runtime == 0xFFFF_FFFF_FFFF_FFFF then v.qs == qs && !v.over
      else
        HeldTo(Grown(qs, k, delta), v.qs, k, base, period, share) && (v.over <==> v.qs[k].throttled && !boosted)
  {
    hide Exceeded, HeldTo;
    ExceededExact(Grown(qs, k, delta), k, boosted, base, period, share);
  }

  // ------------------------------------------------------------------
  // do_sched_rt_period_timer
  // ------------------------------------------------------------------

  /** One CPU's turn: a throttled queue borrows first; each pays off its runtime once for every period
      that passed, as far as its time goes and as the product shows in 64 bits, and is released when
      what is left is below its runtime.  A queue without time is passed by. */
  ghost predicate Turned(qs: seq<Queue>, r: seq<Queue>, i: nat, overrun: nat, period: int, share: bool) {
    && |r| == |qs| && i < |qs|
    && (qs[i].time == 0 ==> r == qs)
    && (qs[i].time != 0 ==>
          && r[i].time == qs[i].time - Min(qs[i].time, (overrun * r[i].runtime) % 0x1_0000_0000_0000_0000)
          && (r[i].throttled <==> qs[i].throttled && r[i].time >= r[i].runtime)
          && (forall j :: 0 <= j < |qs| ==>
                r[j].runtime == if qs[i].throttled then HoldsThen(qs, i, j, period, share) else qs[j].runtime))
    && (forall j :: 0 <= j < |qs| && j != i ==> r[j].time == qs[j].time && r[j].throttled == qs[j].throttled)
  }

  lemma {:induction false} TurnExact(qs: seq<Queue>, i: nat, overrun: nat, period: int, share: bool)
    requires i < |qs|
    ensures Turned(qs, TimerAt(qs, i, overrun, period, share), i, overrun, period, share)
  {
    hide HoldsThen, Rebalanced;
    RebalancedExact(qs, i, period, share);
  }

  /** Without wrap-around the payment is the runtime times the periods that passed. */
  lemma {:induction false} TurnPays(qs: seq<Queue>, i: nat, overrun: nat, base: int, period: int, share: bool)
    requires i < |qs| && Books(qs, base, period) && overrun * Pool(qs) < 0x1_0000_0000_0000_0000
    requires qs[i].runtime != 0xFFFF_FFFF_FFFF_FFFF
    ensures
      var r := TimerAt(qs, i, overrun, period, share);
      r[i].time + Min(qs[i].time, overrun * r[i].runtime) == qs[i].time
  {
    hide HoldsThen, Pool, Rebalanced, TimerAt, Conserved;
    var r := TimerAt(qs, i, overrun, period, share);
    TurnExact(qs, i, overrun, period, share);
    TimerAtGood(qs, i, overrun, base, period, share);
    TurnPool(qs, i, overrun, base, period, share);
    TurnEnables(qs, i, overrun, base, period, share);
    PoolBounds(r, i);
    MulMonotone(r[i].runtime, Pool(qs), overrun);
    assert 0 <= overrun * r[i].runtime < 0x1_0000_0000_0000_0000 by { MulNonNegative(overrun, r[i].runtime); }
  }

  lemma TurnEnables(qs: seq<Queue>, i: nat, overrun: nat, base: int, period: int, share: bool)
    requires i < |qs| && Books(qs, base, period)
    ensures Enabled(TimerAt(qs, i, overrun, period, share)[i]) == Enabled(qs[i])
  {
    hide Rebalanced;
    RebalancedFacts(qs, i, base, period, share);
  }

  /** A firing is a turn of every CPU, in order. */
  ghost predicate Turns(qs: seq<Queue>, r: seq<Queue>, i: nat, overrun: nat, period: int, share: bool)
    requires i <= |qs|
    decreases |qs| - i
  {
    if i == |qs| then r == qs
    else exists next: seq<Queue> ::
      Turned(qs, next, i, overrun, period, share) && Turns(next, r, i + 1, overrun, period, share)
  }

  lemma {:induction false} TimerTurns(qs: seq<Queue>, i: nat, overrun: nat, period: int, share: bool)
    requires i <= |qs|
    ensures Turns(qs, TimerFrom(qs, i, overrun, period, share), i, overrun, period, share)
    decreases |qs| - i
  {
    hide TimerAt;
    if i < |qs| {
      TurnExact(qs, i, overrun, period, share);
      TimerTurns(TimerAt(qs, i, overrun, period, share), i + 1, overrun, period, share);
    }
  }

  /** Nobody borrows: each queue pays by itself. */
  ghost function Paid(q: Queue, overrun: nat): Queue {
    if q.time == 0 then q
    else
      var time := q.time - Min(q.time, (overrun * q.runtime) % 0x1_0000_0000_0000_0000);
      Queue(q.runtime, time, q.throttled && time >= q.runtime)
  }

  lemma {:induction false} FiringPays(qs: seq<Queue>, i: nat, overrun: nat, period: int)
    requires i <= |qs|
    ensures forall j :: 0 <= j < |qs| ==>
      TimerFrom(qs, i, overrun, period, false)[j] == if j < i then qs[j] else Paid(qs[j], overrun)
    decreases |qs| - i
  {
    hide TimerAt;
    if i < |qs| {
      var r := TimerAt(qs, i, overrun, period, false);
      TurnExact(qs, i, overrun, period, false);
      assert r[i] == Paid(qs[i], overrun);
      FiringPays(r, i + 1, overrun, period);
    }
  }

  /** How much runtime the first m firings are worth: it is paid off as far as there is time, and the
      queue is released once what is left is below its runtime, not before. */
  lemma {:induction false} FiredPays(qs: seq<Queue>, overruns: seq<nat>, m: nat, period: int, j: nat)
    requires m <= |overruns| && j < |qs| && qs[j].time > 0 && qs[j].runtime >= 0
    requires forall n {:trigger overruns[n]} :: 0 <= n < m ==> overruns[n] * qs[j].runtime < 0x1_0000_0000_0000_0000
    ensures
      var r := Fired(qs, overruns, m, period, false);
      && r[j].runtime == qs[j].runtime
      && r[j].time == Max(0, qs[j].time - Sum(overruns[..m]) * qs[j].runtime)
      && (r[j].throttled <==> qs[j].throttled && (m == 0 || r[j].time >= qs[j].runtime))
    ensures Sum(overruns[..m]) * qs[j].runtime >= 0
  {
    hide TimerFrom;
    if m > 0 {
      FiredPays(qs, overruns, m - 1, period, j);
      var r := Fired(qs, overruns, m - 1, period, false);
      FiringPays(r, 0, overruns[m - 1], period);
      assert overruns[..m][..m - 1] == overruns[..m - 1];
      PayMore(Sum(overruns[..m - 1]), overruns[m - 1], qs[j].runtime);
    }
  }

  lemma PayMore(paid: int, overrun: nat, runtime: int)
    requires runtime >= 0
    ensures (paid + overrun) * runtime == paid * runtime + overrun * runtime && overrun * runtime >= 0
  {
    MulNonNegative(overrun, runtime);
  }

  // ------------------------------------------------------------------
  // __disable_runtime
  // ------------------------------------------------------------------

  /** What the enabled queues before i hold, k's own left out */
  ghost function HeldBefore(qs: seq<Queue>, k: nat, i: nat): (r: int)
    requires i <= |qs|
  {
    if i == 0 then 0
    else
      HeldBefore(qs, k, i - 1)
      + if i - 1 == k || qs[i - 1].runtime == 0xFFFF_FFFF_FFFF_FFFF then 0 else qs[i - 1].runtime
  }

  /** The runtime of queue j once want was taken back: in order, each gives all it holds until that is
      enough.  Queue k's own and that of the disabled ones are left alone. */
  ghost function Left(qs: seq<Queue>, k: nat, j: nat, want: int): int
    requires j < |qs|
  {
    qs[j].runtime - (Min(want, HeldBefore(qs, k, j + 1)) - Min(want, HeldBefore(qs, k, j)))
  }

  lemma {:induction false} HeldGrows(qs: seq<Queue>, k: nat, i: nat, j: nat)
    requires i <= j <= |qs| && NonNegative(qs)
    ensures HeldBefore(qs, k, i) <= HeldBefore(qs, k, j)
    decreases j - i
  {
    if i < j { HeldGrows(qs, k, i, j - 1); }
  }

  /** cur is what qs has become when the CPUs before i were asked and want is still missing. */
  ghost predicate TakenFrom(qs: seq<Queue>, cur: seq<Queue>, k: nat, i: nat, want: int) {
    && |cur| == |qs| && i <= |qs|
    && (forall j :: 0 <= j < i ==> cur[j] == qs[j].(runtime := Left(qs, k, j, want)))
    && (forall j :: i <= j < |qs| ==> cur[j] == qs[j])
  }

  lemma HeldNext(qs: seq<Queue>, k: nat, i: nat)
    requires i < |qs|
    ensures HeldBefore(qs, k, i + 1) == HeldBefore(qs, k, i) + if i == k || !Enabled(qs[i]) then 0 else qs[i].runtime
  {
  }

  /** The one that has enough is the last that is asked. */
  lemma {:induction false} TakeLast(qs: seq<Queue>, cur: seq<Queue>, k: nat, i: nat, want: int)
    requires NonNegative(qs) && TakenFrom(qs, cur, k, i, want) && i < |qs|
    requires HeldBefore(qs, k, i) < want <= HeldBefore(qs, k, i + 1)
    ensures TakenFrom(qs, cur[i := qs[i].(runtime := qs[i].runtime - (want - HeldBefore(qs, k, i)))], k, |qs|, want)
    ensures HeldBefore(qs, k, |qs|) >= want
  {
    hide HeldBefore;
    forall j: nat | i + 1 <= j <= |qs| ensures HeldBefore(qs, k, j) >= want { HeldGrows(qs, k, i + 1, j); }
  }

  lemma ReclaimNext(cur: seq<Queue>, k: nat, i: nat, want: int)
    requires k < |cur| && i < |cur| && want > 0
    ensures i == k || !Enabled(cur[i]) ==> Reclaim(cur, k, i, want) == Reclaim(cur, k, i + 1, want)
    ensures i != k && Enabled(cur[i]) && cur[i].runtime < want ==>
      Reclaim(cur, k, i, want) == Reclaim(cur[i := cur[i].(runtime := 0)], k, i + 1, want - cur[i].runtime)
    ensures i != k && Enabled(cur[i]) && cur[i].runtime >= want ==>
      Reclaim(cur, k, i, want) == Reclaimed(cur[i := cur[i].(runtime := cur[i].runtime - want)], 0)
  {
  }

  lemma {:induction false} ReclaimAt(qs: seq<Queue>, cur: seq<Queue>, k: nat, i: nat, want: int)
    requires k < |qs| && NonNegative(qs) && TakenFrom(qs, cur, k, i, want) && HeldBefore(qs, k, i) < want
    ensures
      var r := Reclaim(cur, k, i, want - HeldBefore(qs, k, i));
      TakenFrom(qs, r.qs, k, |qs|, want) && r.want == Max(0, want - HeldBefore(qs, k, |qs|))
    decreases |qs| - i
  {
    hide Reclaim, HeldBefore, NonNegative;
    if i == |qs| {
      ReclaimEnd(cur, k, want - HeldBefore(qs, k, i));
    } else {
      ReclaimNext(cur, k, i, want - HeldBefore(qs, k, i));
      HeldNext(qs, k, i);
      if HeldBefore(qs, k, i + 1) >= want {
        TakeLast(qs, cur, k, i, want);
      } else {
        ReclaimAt(qs, if i == k || !Enabled(qs[i]) then cur else cur[i := qs[i].(runtime := 0)], k, i + 1, want);
      }
    }
  }

  lemma ReclaimEnd(cur: seq<Queue>, k: nat, want: int)
    requires k < |cur|
    ensures Reclaim(cur, k, |cur|, want) == Reclaimed(cur, want)
  {
  }

  /** j is the first enabled queue that is not k's. */
  ghost predicate FirstEnabled(qs: seq<Queue>, k: nat, j: nat) {
    && j < |qs| && j != k && qs[j].runtime != 0xFFFF_FFFF_FFFF_FFFF
    && forall i :: 0 <= i < j && i != k ==> qs[i].runtime == 0xFFFF_FFFF_FFFF_FFFF
  }

  /** The queues of a CPU going down and of the others.  With less than the group's runtime it takes
      the difference from the others in order; with more it leaves the surplus to the first of them. */
  ghost predicate Settled(qs: seq<Queue>, r: seq<Queue>, k: nat, base: int, j: nat)
    requires k < |qs| == |r| && j < |qs|
  {
    var own := qs[k].runtime;
    && r[j].time == qs[j].time && r[j].throttled == qs[j].throttled
    && (j == k ==> r[j].runtime == 0xFFFF_FFFF_FFFF_FFFF)
    && (j != k && (own == 0xFFFF_FFFF_FFFF_FFFF || own == base) ==> r[j].runtime == qs[j].runtime)
    && (j != k && own < base && own != 0xFFFF_FFFF_FFFF_FFFF ==> r[j].runtime == Left(qs, k, j, base - own))
    && (j != k && own > base && own != 0xFFFF_FFFF_FFFF_FFFF ==>
          r[j].runtime == qs[j].runtime + if FirstEnabled(qs, k, j) then own - base else 0)
  }

  lemma {:induction false} DisabledExact(qs: seq<Queue>, k: nat, base: int)
    requires k < |qs| && NonNegative(qs)
    ensures forall j :: 0 <= j < |qs| ==> Settled(qs, Disabled(qs, k, base).qs, k, base, j)
  {
    hide Reclaim, HeldBefore;
    var own := qs[k].runtime;
    if own != 0xFFFF_FFFF_FFFF_FFFF && own < base {
      NoneHeld(qs, k);
      ReclaimAt(qs, qs, k, 0, base - own);
    } else if own != 0xFFFF_FFFF_FFFF_FFFF && own > base {
      forall j | 0 <= j < |qs| ensures Settled(qs, Disabled(qs, k, base).qs, k, base, j) {
        SurplusAt(qs, k, 0, base - own, j);
      }
    }
  }

  lemma NoneHeld(qs: seq<Queue>, k: nat)
    ensures HeldBefore(qs, k, 0) == 0
  {
  }

  lemma {:induction false} SurplusAt(qs: seq<Queue>, k: nat, i: nat, want: int, j: nat)
    requires k < |qs| && i <= |qs| && want < 0 && j < |qs|
    requires forall x :: 0 <= x < i && x != k ==> qs[x].runtime == 0xFFFF_FFFF_FFFF_FFFF
    ensures
      var r := Reclaim(qs, k, i, want).qs[j];
      r == qs[j].(runtime := qs[j].runtime - if FirstEnabled(qs, k, j) then want else 0)
    decreases |qs| - i
  {
    if i < |qs| && (i == k || !Enabled(qs[i])) {
      SurplusAt(qs, k, i + 1, want, j);
    }
  }
}
