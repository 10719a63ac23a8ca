/** Runtime borrowing between the CPUs of one task group (rt.c).

    A group's queue on each CPU starts with the group's runtime.  A queue that ran out
    takes part of the unused runtime of the others; a CPU that goes down takes back
    what it lent, or returns what it borrowed, and is marked by an infinite runtime. */
module RtBandwidth {
  import opened Arithmetic

  /** The bandwidth fields of struct rt_rq. */
  datatype Queue = Queue(runtime: int, time: int, throttled: bool)

  predicate Enabled(q: Queue) {
    q.runtime != RUNTIME_INF
  }

  ghost function Part(q: Queue): int {
    if Enabled(q) then q.runtime else 0
  }

  /** The runtime held by the enabled queues together. */
  ghost function Pool(qs: seq<Queue>): int {
    if qs == [] then 0 else Part(qs[0]) + Pool(qs[1..])
  }

  ghost function Count(qs: seq<Queue>): nat {
    if qs == [] then 0 else (if Enabled(qs[0]) then 1 else 0) + Count(qs[1..])
  }

  lemma {:induction false} PoolUpdate(qs: seq<Queue>, i: nat, q: Queue)
    requires i < |qs|
    ensures Pool(qs[i := q]) == Pool(qs) - Part(qs[i]) + Part(q)
    ensures Count(qs[i := q]) == Count(qs) - (if Enabled(qs[i]) then 1 else 0) + (if Enabled(q) then 1 else 0)
  {
    if i == 0 {
      assert qs[0 := q][1..] == qs[1..];
    } else {
      PoolUpdate(qs[1..], i - 1, q);
      assert qs[i := q][1..] == qs[1..][i - 1 := q];
    }
  }

  ghost predicate NonNegative(qs: seq<Queue>) {
    forall i :: 0 <= i < |qs| ==> qs[i].runtime >= 0 && qs[i].time >= 0
  }

  /** No runtime leaks: the enabled queues hold one group runtime each, on average. */
  ghost predicate Conserved(qs: seq<Queue>, runtime: int) {
    if runtime == RUNTIME_INF then Count(qs) == 0 else Pool(qs) == Count(qs) * runtime
  }

  // ------------------------------------------------------------------
  // do_balance_runtime
  // ------------------------------------------------------------------

  /** What a lender gives: 1/weight of what it has not used, capped at the period. */
  function Share(own: int, lender: Queue, weight: nat, period: int): int
    requires weight > 0
  {
    var part := (lender.runtime - lender.time) / weight;
    if own + part > period then period - own else part
  }

  predicate Lends(qs: seq<Queue>, k: nat, i: nat)
    requires i < |qs|
  {
    i != k && Enabled(qs[i]) && qs[i].runtime - qs[i].time > 0
  }

  function Lent(qs: seq<Queue>, k: nat, i: nat, period: int): (r: seq<Queue>)
    requires k < |qs| && i < |qs|
    ensures |r| == |qs|
  {
    if Lends(qs, k, i) then
      var diff := Share(qs[k].runtime, qs[i], |qs|, period);
      qs[i := qs[i].(runtime := qs[i].runtime - diff)][k := qs[k].(runtime := qs[k].runtime + diff)]
    else qs
  }

  /** The queues after k has asked the CPUs from i on; it stops once it holds a full period. */
  function Balanced(qs: seq<Queue>, k: nat, i: nat, period: int): (r: seq<Queue>)
    requires k < |qs| && i <= |qs|
    ensures |r| == |qs|
    decreases |qs| - i
  {
    if i == |qs| then qs
    else
      var next := Lent(qs, k, i, period);
      if Lends(qs, k, i) && next[k].runtime == period then next else Balanced(next, k, i + 1, period)
  }

  lemma BalancedDone(qs: seq<Queue>, k: nat, period: int)
    requires k < |qs|
    ensures Balanced(qs, k, |qs|, period) == qs
  {
  }

  lemma BalancedNext(qs: seq<Queue>, k: nat, i: nat, period: int)
    requires k < |qs| && i < |qs|
    ensures
      var next := Lent(qs, k, i, period);
      Balanced(qs, k, i, period)
        == if Lends(qs, k, i) && next[k].runtime == period then next else Balanced(next, k, i + 1, period)
  {
  }

  lemma {:induction false} PoolBounds(qs: seq<Queue>, i: nat)
    requires NonNegative(qs) && i < |qs|
    ensures 0 <= Part(qs[i]) <= Pool(qs)
  {
    if i == 0 {
      if |qs| > 1 { PoolBounds(qs[1..], 0); }
    } else {
      PoolBounds(qs[1..], i - 1);
    }
  }

  lemma {:induction false} PairBounds(qs: seq<Queue>, i: nat, k: nat)
    requires NonNegative(qs) && i < |qs| && k < |qs| && i != k
    ensures 0 <= Part(qs[i]) + Part(qs[k]) <= Pool(qs)
  {
    PoolUpdate(qs, i, qs[i].(runtime := 0));
    PoolBounds(qs[i := qs[i].(runtime := 0)], k);
    PoolBounds(qs, i);
  }

  /** Queues whose sums stay below the mark of a disabled queue. */
  ghost predicate InRange(qs: seq<Queue>, period: int) {
    NonNegative(qs) && Pool(qs) < RUNTIME_INF && 0 <= period < RUNTIME_INF
  }

  /** The amounts of one loan. */
  lemma {:induction false} ShareFacts(qs: seq<Queue>, k: nat, i: nat, period: int)
    requires k < |qs| && i < |qs| && Enabled(qs[k]) && InRange(qs, period) && Lends(qs, k, i)
    ensures var diff := Share(qs[k].runtime, qs[i], |qs|, period);
      && 0 <= qs[k].runtime + diff < RUNTIME_INF
      && qs[i].time <= qs[i].runtime - diff < RUNTIME_INF
      && (qs[k].runtime <= period ==> 0 <= diff <= period - qs[k].runtime)
      && (qs[k].runtime > period ==> diff < 0)
  {
    PairBounds(qs, i, k);
    DivBound(qs[i].runtime - qs[i].time, |qs|);
  }

  /** What the borrower and the lenders may count on while k borrows from j. */
  ghost predicate Fair(qs: seq<Queue>, r: seq<Queue>, k: nat, period: int) {
    && |r| == |qs| && k < |qs|
    && (forall j :: 0 <= j < |qs| ==>
          r[j].time == qs[j].time && r[j].throttled == qs[j].throttled && Enabled(r[j]) == Enabled(qs[j]))
    && (forall j :: 0 <= j < |qs| && j != k && !Lends(qs, k, j) ==> r[j] == qs[j])
    && (forall j :: 0 <= j < |qs| && j != k && Lends(qs, k, j) ==> r[j].runtime >= r[j].time)
    && (qs[k].runtime <= period ==> qs[k].runtime <= r[k].runtime <= period)
    && (qs[k].runtime <= period ==> forall j :: 0 <= j < |qs| && j != k ==> r[j].runtime <= qs[j].runtime)
  }

  lemma {:induction false} LentFair(qs: seq<Queue>, k: nat, i: nat, period: int)
    requires k < |qs| && i < |qs| && Enabled(qs[k]) && InRange(qs, period)
    ensures NonNegative(Lent(qs, k, i, period)) && Fair(qs, Lent(qs, k, i, period), k, period)
  {
    hide Share, Pool;
    if Lends(qs, k, i) {
      ShareFacts(qs, k, i, period);
    }
  }

  /** Borrowing touches no time and no flag. */
  lemma {:induction false} BalancedKeepsFlags(qs: seq<Queue>, k: nat, i: nat, period: int)
    requires k < |qs| && i <= |qs|
    ensures forall j :: 0 <= j < |qs| ==>
      Balanced(qs, k, i, period)[j].time == qs[j].time && Balanced(qs, k, i, period)[j].throttled == qs[j].throttled
    decreases |qs| - i
  {
    if i < |qs| { BalancedKeepsFlags(Lent(qs, k, i, period), k, i + 1, period); }
  }

  /** One loan: nothing is lost, no queue is enabled or disabled, the lender keeps what it
      already used, and the borrower does not pass the period. */
  lemma {:induction false} LentFacts(qs: seq<Queue>, k: nat, i: nat, period: int)
    requires k < |qs| && i < |qs| && Enabled(qs[k]) && InRange(qs, period)
    ensures var r := Lent(qs, k, i, period);
      InRange(r, period) && Pool(r) == Pool(qs) && Count(r) == Count(qs) && Fair(qs, r, k, period)
  {
    hide Share, Fair, NonNegative;
    LentFair(qs, k, i, period);
    if Lends(qs, k, i) {
      ShareFacts(qs, k, i, period);
      var diff := Share(qs[k].runtime, qs[i], |qs|, period);
      var lender := qs[i].(runtime := qs[i].runtime - diff);
      PoolUpdate(qs, i, lender);
      PoolUpdate(qs[i := lender], k, qs[k].(runtime := qs[k].runtime + diff));
    }
  }

  /** The whole round of borrowing. */
  lemma {:induction false} BalancedFacts(qs: seq<Queue>, k: nat, i: nat, period: int)
    requires k < |qs| && i <= |qs| && Enabled(qs[k]) && InRange(qs, period)
    ensures var r := Balanced(qs, k, i, period);
      InRange(r, period) && Pool(r) == Pool(qs) && Count(r) == Count(qs) && Fair(qs, r, k, period)
    decreases |qs| - i
  {
    hide Lent, Pool, Count, InRange;
    if i < |qs| {
      LentFacts(qs, k, i, period);
      BalancedFacts(Lent(qs, k, i, period), k, i + 1, period);
    }
  }

  // ------------------------------------------------------------------
  // __disable_runtime and __enable_runtime
  // ------------------------------------------------------------------

  datatype Reclaimed = Reclaimed(qs: seq<Queue>, want: int)

  /** Taking back want from the CPUs from i on; a negative want is handed to the first one. */
  function Reclaim(qs: seq<Queue>, k: nat, i: nat, want: int): (r: Reclaimed)
    requires k < |qs| && i <= |qs|
    ensures |r.qs| == |qs|
    decreases |qs| - i
  {
    if i == |qs| then Reclaimed(qs, want)
    else if i == k || !Enabled(qs[i]) then Reclaim(qs, k, i + 1, want)
    else
      var diff := if want > 0 && qs[i].runtime < want then qs[i].runtime else want;
      var next := qs[i := qs[i].(runtime := qs[i].runtime - diff)];
      if want == diff then Reclaimed(next, 0) else Reclaim(next, k, i + 1, want - diff)
  }

  ghost predicate OtherEnabled(qs: seq<Queue>, k: nat, i: nat) {
    exists j :: i <= j < |qs| && j != k && Enabled(qs[j])
  }

  /** The runtime held from CPU i on by queues other than k. */
  ghost function OthersFrom(qs: seq<Queue>, k: nat, i: nat): int
    requires i <= |qs|
    decreases |qs| - i
  {
    if i == |qs| then 0 else (if i == k then 0 else Part(qs[i])) + OthersFrom(qs, k, i + 1)
  }

  lemma {:induction false} OthersPool(qs: seq<Queue>, k: nat, i: nat)
    requires k < |qs| && i <= |qs|
    ensures OthersFrom(qs, k, i) == Pool(qs[i..]) - (if i <= k then Part(qs[k]) else 0)
    decreases |qs| - i
  {
    if i < |qs| {
      OthersPool(qs, k, i + 1);
      assert qs[i..][0] == qs[i] && qs[i..][1..] == qs[i + 1..];
    }
  }

  lemma {:induction false} OthersUpdate(qs: seq<Queue>, k: nat, i: nat, j: nat, q: Queue)
    requires j < i <= |qs|
    ensures OthersFrom(qs[j := q], k, i) == OthersFrom(qs, k, i)
    decreases |qs| - i
  {
    if i < |qs| { OthersUpdate(qs, k, i + 1, j, q); }
  }

  ghost predicate SameButRuntime(qs: seq<Queue>, r: seq<Queue>, k: nat) {
    && |r| == |qs| && k < |qs| && r[k] == qs[k]
    && forall j :: 0 <= j < |qs| ==> r[j] == qs[j].(runtime := r[j].runtime) && Enabled(r[j]) == Enabled(qs[j])
  }

  /** One CPU's part in the reclaim. */
  lemma {:induction false} TakeFacts(qs: seq<Queue>, i: nat, diff: int)
    requires i < |qs| && NonNegative(qs) && Enabled(qs[i]) && diff <= qs[i].runtime
    requires qs[i].runtime - diff < RUNTIME_INF
    ensures var r := qs[i := qs[i].(runtime := qs[i].runtime - diff)];
      NonNegative(r) && Enabled(r[i]) && Pool(r) == Pool(qs) - diff && Count(r) == Count(qs)
  {
    PoolUpdate(qs, i, qs[i].(runtime := qs[i].runtime - diff));
  }

  /** Reclaiming moves runtime out of the others and accounts for every unit of it. */
  lemma {:induction false} ReclaimFacts(qs: seq<Queue>, k: nat, i: nat, want: int)
    requires k < |qs| && i <= |qs| && NonNegative(qs) && want != 0
    requires Pool(qs) < RUNTIME_INF
    requires want < 0 ==> forall j :: 0 <= j < |qs| && j != k ==> Part(qs[j]) - want < RUNTIME_INF
    ensures var r := Reclaim(qs, k, i, want);
      && NonNegative(r.qs) && SameButRuntime(qs, r.qs, k)
      && Pool(r.qs) == Pool(qs) - (want - r.want) && Count(r.qs) == Count(qs)
    decreases |qs| - i
  {
    hide Pool, Count;
    if i < |qs| {
      if i == k || !Enabled(qs[i]) {
        ReclaimFacts(qs, k, i + 1, want);
      } else {
        var diff := if want > 0 && qs[i].runtime < want then qs[i].runtime else want;
        PoolBounds(qs, i);
        TakeFacts(qs, i, diff);
        if want != diff {
          ReclaimFacts(qs[i := qs[i].(runtime := qs[i].runtime - diff)], k, i + 1, want - diff);
        }
      }
    }
  }

  /** Runtime that was lent is found in full exactly when the others still hold that much. */
  lemma {:induction false} ReclaimWanted(qs: seq<Queue>, k: nat, i: nat, want: int)
    requires k < |qs| && i <= |qs| && NonNegative(qs) && want > 0
    ensures Reclaim(qs, k, i, want).want == if OthersFrom(qs, k, i) >= want then 0 else want - OthersFrom(qs, k, i)
    decreases |qs| - i
  {
    OthersPositive(qs, k, i);
    if i < |qs| {
      OthersPositive(qs, k, i + 1);
      if i == k || !Enabled(qs[i]) {
        ReclaimWanted(qs, k, i + 1, want);
      } else if qs[i].runtime < want {
        var q := qs[i].(runtime := 0);
        OthersUpdate(qs, k, i + 1, i, q);
        ReclaimWanted(qs[i := q], k, i + 1, want - qs[i].runtime);
      }
    }
  }

  /** Runtime that was borrowed is returned exactly when another queue is there to take it. */
  lemma {:induction false} ReclaimSurplus(qs: seq<Queue>, k: nat, i: nat, want: int)
    requires k < |qs| && i <= |qs| && want < 0
    ensures Reclaim(qs, k, i, want).want == if OtherEnabled(qs, k, i) then 0 else want
    decreases |qs| - i
  {
    if i < |qs| && (i == k || !Enabled(qs[i])) {
      ReclaimSurplus(qs, k, i + 1, want);
    }
  }

  lemma {:induction false} OthersPositive(qs: seq<Queue>, k: nat, i: nat)
    requires i <= |qs| && NonNegative(qs)
    ensures OthersFrom(qs, k, i) >= 0
    decreases |qs| - i
  {
    if i < |qs| { OthersPositive(qs, k, i + 1); }
  }

  function Disabled(qs: seq<Queue>, k: nat, base: int): (r: Reclaimed)
    requires k < |qs|
    ensures |r.qs| == |qs|
  {
    var r := if qs[k].runtime == RUNTIME_INF || qs[k].runtime == base then Reclaimed(qs, 0)
             else Reclaim(qs, k, 0, base - qs[k].runtime);
    Reclaimed(r.qs[k := r.qs[k].(runtime := RUNTIME_INF)], r.want)
  }

  /** When a going CPU can settle its account: BUG_ON(want) stays silent exactly then. */
  ghost predicate Settles(qs: seq<Queue>, k: nat, base: int)
    requires k < |qs|
  {
    || !Enabled(qs[k]) || qs[k].runtime == base
    || (qs[k].runtime < base && OthersFrom(qs, k, 0) >= base - qs[k].runtime)
    || (qs[k].runtime > base && OtherEnabled(qs, k, 0))
  }

  lemma {:induction false} DisableSettles(qs: seq<Queue>, k: nat, base: int)
    requires k < |qs| && NonNegative(qs)
    ensures Disabled(qs, k, base).want == 0 <==> Settles(qs, k, base)
  {
    if Enabled(qs[k]) && qs[k].runtime != base {
      OthersPositive(qs, k, 0);
      if qs[k].runtime < base {
        ReclaimWanted(qs, k, 0, base - qs[k].runtime);
      } else {
        ReclaimSurplus(qs, k, 0, base - qs[k].runtime);
      }
    }
  }

  /** The mark of a disabled queue cannot be reached by moving runtime around. */
  ghost predicate Bounded(qs: seq<Queue>, base: int, period: int) {
    && NonNegative(qs) && 0 <= period < RUNTIME_INF && base >= 0
    && (base != RUNTIME_INF ==> |qs| * base < RUNTIME_INF)
    && forall i :: 0 <= i < |qs| ==> qs[i].time < RUNTIME_INF
  }

  lemma {:induction false} CountBound(qs: seq<Queue>)
    ensures Count(qs) <= |qs|
    ensures Count(qs) == 0 ==> Pool(qs) == 0
    ensures Count(qs) == 0 <==> forall i :: 0 <= i < |qs| ==> !Enabled(qs[i])
  {
    if qs != [] { CountBound(qs[1..]); }
  }

  lemma {:induction false} ConservedRange(qs: seq<Queue>, base: int, period: int)
    requires Bounded(qs, base, period) && Conserved(qs, base)
    ensures InRange(qs, period)
    ensures base != RUNTIME_INF ==> Pool(qs) == Count(qs) * base <= |qs| * base
  {
    CountBound(qs);
    if base != RUNTIME_INF { MulMonotone(Count(qs), |qs|, base); }
  }

  /** Once a queue holds just the group's runtime it can leave. */
  lemma {:induction false} LeaveConserves(qs: seq<Queue>, k: nat, base: int, period: int)
    requires k < |qs| && Bounded(qs, base, period) && Conserved(qs, base)
    requires Enabled(qs[k]) ==> qs[k].runtime == base
    ensures var r := qs[k := qs[k].(runtime := RUNTIME_INF)]; Bounded(r, base, period) && Conserved(r, base)
  {
    PoolUpdate(qs, k, qs[k].(runtime := RUNTIME_INF));
    CountBound(qs);
    assert (Count(qs) - 1) * base == Count(qs) * base - base;
  }

  /** Settling leaves the group with one group runtime less, spread over the others. */
  lemma {:induction false} ReclaimConserves(qs: seq<Queue>, k: nat, base: int, period: int)
    requires k < |qs| && Bounded(qs, base, period) && Conserved(qs, base) && Enabled(qs[k]) && qs[k].runtime != base
    ensures var r := Reclaim(qs, k, 0, base - qs[k].runtime); var mid := r.qs;
      r.want == 0 && |mid| == |qs| && mid[k] == qs[k] && Bounded(mid, base, period)
      && Conserved(mid[k := mid[k].(runtime := base)], base)
  {
    hide OthersFrom, Settles;
    ConservedRange(qs, base, period);
    DisableSettles(qs, k, base);
    SettlesWhenConserved(qs, k, base);
    CountBound(qs);
    forall j | 0 <= j < |qs| && j != k ensures Part(qs[j]) + Part(qs[k]) < RUNTIME_INF {
      PairBounds(qs, j, k);
    }
    ReclaimFacts(qs, k, 0, base - qs[k].runtime);
    var mid := Reclaim(qs, k, 0, base - qs[k].runtime).qs;
    PoolUpdate(mid, k, mid[k].(runtime := base));
  }

  /** In a conserved group every CPU can settle its account, and the rest stays conserved. */
  lemma {:induction false} DisableConserves(qs: seq<Queue>, k: nat, base: int, period: int)
    requires k < |qs| && Bounded(qs, base, period) && Conserved(qs, base)
    ensures var r := Disabled(qs, k, base);
      r.want == 0 && |r.qs| == |qs| && Bounded(r.qs, base, period) && Conserved(r.qs, base) && !Enabled(r.qs[k])
  {
    if Enabled(qs[k]) && qs[k].runtime != base {
      ReclaimConserves(qs, k, base, period);
      var mid := Reclaim(qs, k, 0, base - qs[k].runtime).qs;
      CountBound(qs);
      var settled := mid[k := mid[k].(runtime := base)];
      LeaveConserves(settled, k, base, period);
      assert settled[k := settled[k].(runtime := RUNTIME_INF)] == mid[k := mid[k].(runtime := RUNTIME_INF)];
    } else {
      LeaveConserves(qs, k, base, period);
    }
  }

  lemma {:induction false} SettlesWhenConserved(qs: seq<Queue>, k: nat, base: int)
    requires k < |qs| && NonNegative(qs) && Conserved(qs, base) && Enabled(qs[k]) && base >= 0
    ensures Settles(qs, k, base)
  {
    CountBound(qs);
    OthersPool(qs, k, 0);
    assert qs[0..] == qs;
    var n := Count(qs);
    if qs[k].runtime < base {
      MulMonotone(1, n, base);
    } else if qs[k].runtime > base && !OtherEnabled(qs, k, 0) {
      OnlyOneEnabled(qs, k);
    }
  }

  lemma {:induction false} OnlyOneEnabled(qs: seq<Queue>, k: nat)
    requires k < |qs| && Enabled(qs[k]) && !OtherEnabled(qs, k, 0)
    ensures Count(qs) == 1 && Pool(qs) == qs[k].runtime
  {
    var none := qs[k := qs[k].(runtime := RUNTIME_INF)];
    PoolUpdate(qs, k, none[k]);
    CountBound(none);
  }

  function EnabledAgain(qs: seq<Queue>, k: nat, base: int): seq<Queue>
    requires k < |qs|
  {
    qs[k := Queue(base, 0, false)]
  }

  /** Enabling is safe exactly for a queue that is disabled or holds just the group's runtime:
      a queue that has lent or borrowed since it was enabled would create or destroy runtime. */
  lemma {:induction false} EnableConservesIff(qs: seq<Queue>, k: nat, base: int)
    requires k < |qs| && Conserved(qs, base)
    ensures Conserved(EnabledAgain(qs, k, base), base) <==> !Enabled(qs[k]) || qs[k].runtime == base
  {
    PoolUpdate(qs, k, Queue(base, 0, false));
    CountBound(qs);
    assert (Count(qs) + 1) * base == Count(qs) * base + base;
  }

  // ------------------------------------------------------------------
  // Throttling: sched_rt_runtime_exceeded and do_sched_rt_period_timer
  // ------------------------------------------------------------------

  /** balance_runtime, under sched_feat(RT_RUNTIME_SHARE) */
  function Rebalanced(qs: seq<Queue>, k: nat, period: int, share: bool): (r: seq<Queue>)
    requires k < |qs|
    ensures |r| == |qs|
  {
    if share && qs[k].time > qs[k].runtime then Balanced(qs, k, 0, period) else qs
  }

  datatype Verdict = Verdict(qs: seq<Queue>, over: bool)

  /** sched_rt_runtime_exceeded: a group without any runtime is never throttled for the time it
      was boosted, and a boosted queue is throttled but not taken off. */
  function Exceeded(qs: seq<Queue>, i: nat, boosted: bool, base: int, period: int, share: bool): (v: Verdict)
    requires i < |qs|
    ensures |v.qs| == |qs|
  {
    if qs[i].throttled then Verdict(qs, !boosted)
    else if qs[i].runtime >= period then Verdict(qs, false)
    else
      var r := Rebalanced(qs, i, period, share);
      if r[i].runtime == RUNTIME_INF || r[i].time <= r[i].runtime then Verdict(r, false)
      else if base != 0 then Verdict(r[i := r[i].(throttled := true)], !boosted)
      else Verdict(r[i := r[i].(time := 0)], false)
  }

  /** The part of update_curr_rt that charges one queue. */
  function Charged(qs: seq<Queue>, i: nat, delta: int, boosted: bool, base: int, period: int, share: bool): (v: Verdict)
    requires i < |qs|
    ensures |v.qs| == |qs|
  {
    if Enabled(qs[i]) then Exceeded(qs[i := qs[i].(time := qs[i].time + delta)], i, boosted, base, period, share)
    else Verdict(qs, false)
  }

  /** One CPU's turn in the period timer; overrun * runtime is computed in 64 bits. */
  function TimerAt(qs: seq<Queue>, i: nat, overrun: nat, period: int, share: bool): (r: seq<Queue>)
    requires i < |qs|
    ensures |r| == |qs|
  {
    if qs[i].time == 0 then qs
    else
      var r := if qs[i].throttled then Rebalanced(qs, i, period, share) else qs;
      var time := r[i].time - Min(r[i].time, (overrun * r[i].runtime) % U64);
      r[i := r[i].(time := time, throttled := r[i].throttled && time >= r[i].runtime)]
  }

  function TimerFrom(qs: seq<Queue>, i: nat, overrun: nat, period: int, share: bool): (r: seq<Queue>)
    requires i <= |qs|
    ensures |r| == |qs|
    decreases |qs| - i
  {
    if i == |qs| then qs
    else TimerFrom(TimerAt(qs, i, overrun, period, share), i + 1, overrun, period, share)
  }

  /** A throttled queue has used at least what it holds, so it never lends. */
  ghost predicate Owing(qs: seq<Queue>) {
    forall i :: 0 <= i < |qs| && Enabled(qs[i]) && qs[i].throttled ==> qs[i].time >= qs[i].runtime
  }

  /** A throttled queue has some time on its account; unlike owing, this survives everything. */
  ghost predicate Late(qs: seq<Queue>) {
    forall i :: 0 <= i < |qs| && qs[i].throttled ==> qs[i].time > 0
  }

  ghost predicate Books(qs: seq<Queue>, base: int, period: int) {
    Bounded(qs, base, period) && Conserved(qs, base)
  }

  /** Borrowing by k: everything but "k owes if it is throttled" is kept. */
  lemma {:induction false} RebalancedFacts(qs: seq<Queue>, k: nat, base: int, period: int, share: bool)
    requires k < |qs| && Books(qs, base, period)
    ensures var r := Rebalanced(qs, k, period, share);
      && Bounded(r, base, period) && Conserved(r, base) && |r| == |qs|
      && r[k].time == qs[k].time && r[k].throttled == qs[k].throttled && Enabled(r[k]) == Enabled(qs[k])
      && Min(r[k].runtime, period) >= Min(qs[k].runtime, period)
      && (forall j :: 0 <= j < |qs| && j != k ==> OwesAsBefore(qs[j], r[j]) && StillPays(qs[j], r[j]))
  {
    ConservedRange(qs, base, period);
    if share && qs[k].time > qs[k].runtime {
      BalancedFacts(qs, k, 0, period);
      PeriodFloor(qs, k, 0, period);
    }
  }

  /** What another queue sees: its flag and its time stay, and if it is throttled and owes so does its runtime. */
  ghost predicate OwesAsBefore(q: Queue, r: Queue) {
    && r.time == q.time && r.throttled == q.throttled && Enabled(r) == Enabled(q)
    && (Enabled(q) && q.throttled && q.time >= q.runtime ==> r == q)
  }

  /** And if it holds at least the time it has to pay off, it goes on doing so, lender or not. */
  ghost predicate StillPays(q: Queue, r: Queue) {
    q.runtime >= q.time ==> r.runtime >= r.time
  }

  /** Borrowing leaves the borrower with no less than it had, or with a full period. */
  lemma {:induction false} PeriodFloor(qs: seq<Queue>, k: nat, i: nat, period: int)
    requires k < |qs| && i <= |qs| && Enabled(qs[k]) && InRange(qs, period)
    ensures Balanced(qs, k, i, period)[k].runtime >= Min(qs[k].runtime, period)
    decreases |qs| - i
  {
    BalancedFacts(qs, k, i, period);
    if qs[k].runtime > period && i < |qs| {
      LentFacts(qs, k, i, period);
      if Lends(qs, k, i) {
        assert Lent(qs, k, i, period)[k].runtime == period by {
          ShareFacts(qs, k, i, period);
          ShareCapped(qs, k, i, period);
        }
      } else {
        PeriodFloor(qs, k, i + 1, period);
      }
    }
  }

  lemma {:induction false} ShareCapped(qs: seq<Queue>, k: nat, i: nat, period: int)
    requires k < |qs| && i < |qs| && Lends(qs, k, i) && qs[k].runtime > period
    ensures Share(qs[k].runtime, qs[i], |qs|, period) == period - qs[k].runtime
  {
    DivBound(qs[i].runtime - qs[i].time, |qs|);
  }

  /** Writing a queue's time and flag leaves the runtime books alone. */
  lemma {:induction false} StampKeeps(qs: seq<Queue>, i: nat, time: int, throttled: bool, base: int, period: int)
    requires i < |qs| && Bounded(qs, base, period) && Conserved(qs, base) && 0 <= time < RUNTIME_INF
    ensures
      var r := qs[i := qs[i].(time := time, throttled := throttled)];
      Bounded(r, base, period) && Conserved(r, base)
  {
    PoolUpdate(qs, i, qs[i].(time := time, throttled := throttled));
  }

  lemma {:induction false} ExceededGood(qs: seq<Queue>, i: nat, boosted: bool, base: int, period: int, share: bool)
    requires i < |qs| && Books(qs, base, period)
    ensures var v := Exceeded(qs, i, boosted, base, period, share);
      && Books(v.qs, base, period) && (Owing(qs) ==> Owing(v.qs)) && (Late(qs) ==> Late(v.qs))
      && (v.over <==> v.qs[i].throttled && !boosted)
  {
    hide Conserved, Rebalanced;
    if !qs[i].throttled && qs[i].runtime < period {
      RebalancedFacts(qs, i, base, period, share);
      var r := Rebalanced(qs, i, period, share);
      StampKeeps(r, i, r[i].time, true, base, period);
      StampKeeps(r, i, 0, r[i].throttled, base, period);
    }
  }

  /** Charging time keeps the books and the rule that throttled queues owe. */
  lemma {:induction false} ChargedGood(qs: seq<Queue>, i: nat, delta: int, boosted: bool, base: int, period: int,
          share: bool)
    requires i < |qs| && Books(qs, base, period) && delta >= 0 && qs[i].time + delta < RUNTIME_INF
    ensures var v := Charged(qs, i, delta, boosted, base, period, share);
      && |v.qs| == |qs| && Books(v.qs, base, period) && (Owing(qs) ==> Owing(v.qs)) && (Late(qs) ==> Late(v.qs))
      && (v.over <==> Enabled(qs[i]) && v.qs[i].throttled && !boosted)
  {
    hide Conserved, Exceeded;
    StampKeeps(qs, i, qs[i].time + delta, qs[i].throttled, base, period);
    ExceededGood(qs[i := qs[i].(time := qs[i].time + delta)], i, boosted, base, period, share);
  }

  /** One CPU's turn in the timer. */
  lemma {:induction false} TimerAtGood(qs: seq<Queue>, i: nat, overrun: nat, base: int, period: int, share: bool)
    requires i < |qs| && Books(qs, base, period)
    ensures var r := TimerAt(qs, i, overrun, period, share);
      && |r| == |qs| && Books(r, base, period) && (Owing(qs) ==> Owing(r)) && (Late(qs) ==> Late(r))
      && (forall j :: 0 <= j < |qs| && j != i ==> OwesAsBefore(qs[j], r[j]) && StillPays(qs[j], r[j]))
  {
    hide Conserved, Rebalanced;
    if qs[i].time != 0 {
      RebalancedFacts(qs, i, base, period, share);
      var r := if qs[i].throttled then Rebalanced(qs, i, period, share) else qs;
      var paid := (overrun * r[i].runtime) % U64;
      var time := r[i].time - Min(r[i].time, paid);
      PaidNothing(overrun, r[i].runtime);
      StampKeeps(r, i, time, r[i].throttled && time >= r[i].runtime, base, period);
    }
  }

  /** And leaves the time and the flag of every other queue alone. */
  lemma {:induction false} TurnKeepsFlags(qs: seq<Queue>, i: nat, overrun: nat, period: int, share: bool)
    requires i < |qs|
    ensures
      var r := TimerAt(qs, i, overrun, period, share);
      forall j :: 0 <= j < |qs| && j != i ==> r[j].time == qs[j].time && r[j].throttled == qs[j].throttled
  {
    BalancedKeepsFlags(qs, i, 0, period);
  }

  lemma TimerNext(qs: seq<Queue>, i: nat, overrun: nat, period: int, share: bool)
    requires i < |qs|
    ensures TimerFrom(qs, i, overrun, period, share)
         == TimerFrom(TimerAt(qs, i, overrun, period, share), i + 1, overrun, period, share)
    ensures qs[i].time == 0 ==> TimerAt(qs, i, overrun, period, share) == qs
  {
  }

  lemma TimerDone(qs: seq<Queue>, overrun: nat, period: int, share: bool)
    ensures TimerFrom(qs, |qs|, overrun, period, share) == qs
  {
  }

  lemma PaidNothing(overrun: nat, runtime: int)
    ensures 0 <= (overrun * runtime) % U64
    ensures runtime == 0 ==> (overrun * runtime) % U64 == 0
  {
  }

  lemma {:induction false} TimerGood(qs: seq<Queue>, i: nat, overrun: nat, base: int, period: int, share: bool)
    requires i <= |qs| && Books(qs, base, period)
    ensures var r := TimerFrom(qs, i, overrun, period, share);
      |r| == |qs| && Books(r, base, period) && (Owing(qs) ==> Owing(r)) && (Late(qs) ==> Late(r))
    decreases |qs| - i
  {
    if i < |qs| {
      TimerAtGood(qs, i, overrun, base, period, share);
      TimerGood(TimerAt(qs, i, overrun, period, share), i + 1, overrun, base, period, share);
    }
  }

  // ------------------------------------------------------------------
  // How long a throttled queue waits
  // ------------------------------------------------------------------

  /** One firing of the timer, seen by a late throttled queue that holds runtime: it is released,
      or it owed, still owes, and has paid off one runtime at least. */
  ghost predicate Firing(q: Queue, r: Queue, period: int) {
    q.throttled && q.time > 0 && Min(q.runtime, period) > 0 ==>
      || !r.throttled
      || (&& q.time > q.runtime && Min(r.runtime, period) >= Min(q.runtime, period)
          && r.time <= q.time - Min(q.runtime, period) && r.time >= r.runtime)
  }

  /** A queue's own turn, whatever the other queues look like. */
  lemma {:induction false} TurnFires(qs: seq<Queue>, i: nat, overrun: nat, base: int, period: int, share: bool)
    requires i < |qs| && Books(qs, base, period) && overrun >= 1 && overrun * Pool(qs) < U64
    ensures Firing(qs[i], TimerAt(qs, i, overrun, period, share)[i], period)
  {
    if Enabled(qs[i]) && qs[i].throttled && qs[i].time > 0 && Min(qs[i].runtime, period) > 0 {
      RebalancedFacts(qs, i, base, period, share);
      RebalancedPool(qs, i, base, period, share);
      var r := Rebalanced(qs, i, period, share);
      PoolBounds(r, i);
      Repays(r[i].runtime, overrun, Pool(qs));
    }
  }

  /** A queue that holds what it has to pay is released by its own turn. */
  lemma {:induction false} TurnReleases(qs: seq<Queue>, i: nat, overrun: nat, base: int, period: int, share: bool)
    requires i < |qs| && Books(qs, base, period) && overrun >= 1 && overrun * Pool(qs) < U64
    requires qs[i].throttled && 0 < qs[i].time <= qs[i].runtime
    ensures !TimerAt(qs, i, overrun, period, share)[i].throttled
  {
    if Enabled(qs[i]) {
      PoolBounds(qs, i);
      Repays(qs[i].runtime, overrun, Pool(qs));
    }
  }

  /** Without wrap-around every firing pays off at least one runtime. */
  lemma {:induction false} Repays(runtime: int, overrun: nat, bound: int)
    requires 0 <= runtime <= bound && overrun >= 1 && overrun * bound < U64
    ensures (overrun * runtime) % U64 >= runtime
  {
    MulMonotone(runtime, bound, overrun);
    MulMonotone(1, overrun, runtime);
    var paid := overrun * runtime;
    assert paid == runtime * overrun && bound * overrun == overrun * bound;
    assert runtime <= paid < U64;
  }

  /** With it a firing may pay off nothing at all. */
  lemma {:induction false} OverflowPaysNothing()
    ensures
      var half := U64 / 2;
      var qs := [Queue(half, half + 1, true)];
      Books(qs, half, 100) && Late(qs) && TimerFrom(qs, 0, 2, 100, false) == qs
  {
    var half: int := U64 / 2;
    var qs := [Queue(half, half + 1, true)];
    assert qs[1..] == [] && Pool([]) == 0 && Count([]) == 0;
    assert (2 * half) % U64 == 0;
    assert TimerAt(qs, 0, 2, 100, false) == qs;
    assert TimerFrom(qs, 1, 2, 100, false) == qs;
  }

  lemma {:induction false} RebalancedPool(qs: seq<Queue>, k: nat, base: int, period: int, share: bool)
    requires k < |qs| && Books(qs, base, period)
    ensures Pool(Rebalanced(qs, k, period, share)) == Pool(qs)
  {
    ConservedRange(qs, base, period);
    if share && qs[k].time > qs[k].runtime { BalancedFacts(qs, k, 0, period); }
  }

  lemma {:induction false} TurnPool(qs: seq<Queue>, i: nat, overrun: nat, base: int, period: int, share: bool)
    requires i < |qs| && Books(qs, base, period)
    ensures Pool(TimerAt(qs, i, overrun, period, share)) == Pool(qs)
  {
    if qs[i].time != 0 {
      RebalancedPool(qs, i, base, period, share);
      var r := if qs[i].throttled then Rebalanced(qs, i, period, share) else qs;
      PoolUpdate(r, i, TimerAt(qs, i, overrun, period, share)[i]);
    }
  }

  /** Turns of later CPUs leave a queue whose turn is over as it is, or released. */
  lemma {:induction false} TimerLater(qs: seq<Queue>, j: nat, i: nat, overrun: nat, base: int, period: int, share: bool)
    requires j < i <= |qs| && Books(qs, base, period)
    ensures OwesAsBefore(qs[j], TimerFrom(qs, i, overrun, period, share)[j])
    decreases |qs| - i
  {
    if i < |qs| {
      TimerAtGood(qs, i, overrun, base, period, share);
      TimerLater(TimerAt(qs, i, overrun, period, share), j, i + 1, overrun, base, period, share);
    }
  }

  /** A throttled queue that holds what it has to pay is released by the firing that comes to it,
      even if earlier CPUs borrow from it first. */
  lemma {:induction false} TimerReleases(qs: seq<Queue>, j: nat, i: nat, overrun: nat, base: int, period: int,
          share: bool)
    requires i <= j < |qs| && Books(qs, base, period) && overrun >= 1 && overrun * Pool(qs) < U64
    requires qs[j].throttled && 0 < qs[j].time <= qs[j].runtime
    ensures !TimerFrom(qs, i, overrun, period, share)[j].throttled
    decreases |qs| - i
  {
    var r := TimerAt(qs, i, overrun, period, share);
    TimerAtGood(qs, i, overrun, base, period, share);
    if i == j {
      TurnReleases(qs, i, overrun, base, period, share);
      TimerLater(r, j, i + 1, overrun, base, period, share);
    } else {
      TurnPool(qs, i, overrun, base, period, share);
      TimerReleases(r, j, i + 1, overrun, base, period, share);
    }
  }

  /** One firing over all CPUs is a firing for each of them. */
  lemma {:induction false} TimerFires(qs: seq<Queue>, j: nat, i: nat, overrun: nat, base: int, period: int, share: bool)
    requires i <= j < |qs| && Books(qs, base, period) && overrun >= 1 && overrun * Pool(qs) < U64
    ensures Firing(qs[j], TimerFrom(qs, i, overrun, period, share)[j], period)
    decreases |qs| - i
  {
    if qs[j].throttled && qs[j].time > 0 {
      if qs[j].time <= qs[j].runtime {
        TimerReleases(qs, j, i, overrun, base, period, share);
      } else {
        OwingFires(qs, j, i, overrun, base, period, share);
      }
    }
  }

  lemma {:induction false} OwingFires(qs: seq<Queue>, j: nat, i: nat, overrun: nat, base: int, period: int, share: bool)
    requires i <= j < |qs| && Books(qs, base, period) && overrun >= 1 && overrun * Pool(qs) < U64
    requires qs[j].throttled && qs[j].time > qs[j].runtime
    ensures Firing(qs[j], TimerFrom(qs, i, overrun, period, share)[j], period)
    decreases |qs| - i
  {
    var r := TimerAt(qs, i, overrun, period, share);
    TimerAtGood(qs, i, overrun, base, period, share);
    TurnPool(qs, i, overrun, base, period, share);
    if i == j {
      TurnFires(qs, i, overrun, base, period, share);
      TimerLater(r, j, i + 1, overrun, base, period, share);
    } else {
      OwingFires(r, j, i + 1, overrun, base, period, share);
    }
  }

  /** The firings a queue may need: one for each runtime, or period if that is shorter, that its
      time amounts to, and at least one. */
  function Firings(q: Queue, period: int): (n: int)
    requires Min(q.runtime, period) > 0 && q.time >= 0
    ensures n >= 1
  {
    if q.time <= q.runtime then 1 else
      DivBound(q.time, Min(q.runtime, period));
      Max(1, q.time / Min(q.runtime, period))
  }

  lemma {:induction false} ReleasedInTime(run: seq<Queue>, period: int)
    requires |run| > 0 && run[0].throttled && run[0].time > 0 && Min(run[0].runtime, period) > 0
    requires forall m :: 0 <= m < |run| - 1 ==> Firing(run[m], run[m + 1], period)
    requires forall m :: 0 <= m < |run| && run[m].throttled ==> run[m].time > 0
    requires |run| > Firings(run[0], period)
    ensures exists m :: 1 <= m <= Firings(run[0], period) && !run[m].throttled
  {
    var unit, last := Min(run[0].runtime, period), Firings(run[0], period);
    DivMod(run[0].time, unit);
    if forall m :: 1 <= m <= last ==> run[m].throttled {
      PaidOff(run, period, last);
      assert last >= 1 && run[0].time > run[0].runtime;
      MulMonotone(run[0].time / unit, last, unit);
      assert false;
    }
  }

  lemma {:induction false} PaidOff(run: seq<Queue>, period: int, m: nat)
    requires m < |run| && Min(run[0].runtime, period) > 0
    requires forall j :: 0 <= j < |run| - 1 ==> Firing(run[j], run[j + 1], period)
    requires forall j :: 0 <= j <= m ==> run[j].throttled && run[j].time > 0
    ensures Min(run[m].runtime, period) >= Min(run[0].runtime, period)
    ensures run[m].time <= run[0].time - m * Min(run[0].runtime, period)
    ensures m >= 1 ==> run[0].time > run[0].runtime && run[m].time >= run[m].runtime
  {
    if m > 0 {
      PaidOff(run, period, m - 1);
      assert Firing(run[m - 1], run[m], period);
      assert m * Min(run[0].runtime, period) == (m - 1) * Min(run[0].runtime, period) + Min(run[0].runtime, period);
    }
  }

  lemma {:induction false} TimerPool(qs: seq<Queue>, i: nat, overrun: nat, base: int, period: int, share: bool)
    requires i <= |qs| && Books(qs, base, period)
    ensures Pool(TimerFrom(qs, i, overrun, period, share)) == Pool(qs)
    decreases |qs| - i
  {
    if i < |qs| {
      TimerAtGood(qs, i, overrun, base, period, share);
      TurnPool(qs, i, overrun, base, period, share);
      TimerPool(TimerAt(qs, i, overrun, period, share), i + 1, overrun, base, period, share);
    }
  }

  /** The queues after the first m firings, with no time charged in between */
  ghost function Fired(qs: seq<Queue>, overruns: seq<nat>, m: nat, period: int, share: bool): (r: seq<Queue>)
    requires m <= |overruns|
    ensures |r| == |qs|
  {
    if m == 0 then qs else TimerFrom(Fired(qs, overruns, m - 1, period, share), 0, overruns[m - 1], period, share)
  }

  lemma {:induction false} FiredGood(qs: seq<Queue>, overruns: seq<nat>, m: nat, base: int, period: int, share: bool)
    requires m <= |overruns| && Books(qs, base, period) && Late(qs)
    ensures var r := Fired(qs, overruns, m, period, share); Books(r, base, period) && Late(r) && Pool(r) == Pool(qs)
  {
    hide Books, Owing, Late, TimerFrom, Pool;
    if m > 0 {
      FiredGood(qs, overruns, m - 1, base, period, share);
      var r := Fired(qs, overruns, m - 1, period, share);
      TimerGood(r, 0, overruns[m - 1], base, period, share);
      TimerPool(r, 0, overruns[m - 1], base, period, share);
    }
  }

  lemma LateAt(qs: seq<Queue>, j: nat, base: int, period: int)
    requires j < |qs| && Books(qs, base, period) && Late(qs)
    ensures qs[j].time >= 0 && (qs[j].throttled ==> qs[j].time > 0)
  {
  }

  /** No firing's product leaves 64 bits. */
  ghost predicate NoOverflow(overruns: seq<nat>, total: int) {
    forall m {:trigger overruns[m]} :: 0 <= m < |overruns| ==> overruns[m] >= 1 && overruns[m] * total < U64
  }

  /** A throttled queue that holds any runtime is released by the period timer within that many
      firings, whatever state the other queues are in. */
  lemma {:induction false} ThrottledIsReleased(qs: seq<Queue>, j: nat, overruns: seq<nat>, base: int, period: int,
          share: bool)
    returns (m: nat)
    requires j < |qs| && Books(qs, base, period) && Late(qs) && qs[j].throttled
    requires Min(qs[j].runtime, period) > 0 && NoOverflow(overruns, Pool(qs))
    requires qs[j].time >= 0 && |overruns| >= Firings(qs[j], period)
    ensures 1 <= m <= Firings(qs[j], period) && !Fired(qs, overruns, m, period, share)[j].throttled
  {
    hide Books, Owing, Late, TimerFrom, Pool, Firing, Firings;
    var run := seq(|overruns| + 1, m requires 0 <= m <= |overruns| => Fired(qs, overruns, m, period, share)[j]);
    assert Fired(qs, overruns, 0, period, share) == qs;
    forall m: nat | m < |run| ensures run[m].throttled ==> run[m].time > 0 {
      FiredGood(qs, overruns, m, base, period, share);
      LateAt(Fired(qs, overruns, m, period, share), j, base, period);
    }
    forall m: nat | m < |run| - 1 ensures Firing(run[m], run[m + 1], period) {
      FiredGood(qs, overruns, m, base, period, share);
      TimerFires(Fired(qs, overruns, m, period, share), j, 0, overruns[m], base, period, share);
    }
    ReleasedInTime(run, period);
    m :| 1 <= m <= Firings(qs[j], period) && !run[m].throttled;
  }

  // ------------------------------------------------------------------
  // What takes throttled queues out of debt
  // ------------------------------------------------------------------

  /** The first other CPU that takes part from i on: where the runtime of a going CPU that
      borrowed ends up */
  function FirstOther(qs: seq<Queue>, k: nat, i: nat): (f: nat)
    requires i <= |qs|
    ensures i <= f <= |qs| && (f < |qs| ==> f != k && Enabled(qs[f]))
    decreases |qs| - i
  {
    if i == |qs| || (i != k && Enabled(qs[i])) then i else FirstOther(qs, k, i + 1)
  }

  /** It leaves throttled queues in debt unless it hands the first of the others so much that
      that queue is throttled without owing any more. */
  ghost predicate LeavesDebt(qs: seq<Queue>, k: nat, base: int)
    requires k < |qs|
  {
    var f := FirstOther(qs, k, 0);
    if Enabled(qs[k]) && qs[k].runtime > base && f < |qs| && qs[f].throttled
    then qs[f].time >= qs[f].runtime + qs[k].runtime - base
    else true
  }

  lemma {:induction false} SurplusGoesToFirst(qs: seq<Queue>, k: nat, i: nat, want: int)
    requires k < |qs| && i <= |qs| && want < 0
    ensures
      var f := FirstOther(qs, k, i);
      Reclaim(qs, k, i, want).qs == if f < |qs| then qs[f := qs[f].(runtime := qs[f].runtime - want)] else qs
    decreases |qs| - i
  {
    if i < |qs| && (i == k || !Enabled(qs[i])) {
      SurplusGoesToFirst(qs, k, i + 1, want);
    }
  }

  /** Taking runtime back only deepens debts. */
  lemma {:induction false} ReclaimOnlyTakes(qs: seq<Queue>, k: nat, i: nat, want: int)
    requires k < |qs| && i <= |qs| && want > 0 && NonNegative(qs)
    requires forall j :: 0 <= j < |qs| && Enabled(qs[j]) ==> qs[j].runtime < RUNTIME_INF
    ensures
      var r := Reclaim(qs, k, i, want).qs;
      forall j :: 0 <= j < |qs| ==> r[j] == qs[j].(runtime := r[j].runtime) && r[j].runtime <= qs[j].runtime
                                    && Enabled(r[j]) == Enabled(qs[j])
    decreases |qs| - i
  {
    if i < |qs| {
      if i == k || !Enabled(qs[i]) {
        ReclaimOnlyTakes(qs, k, i + 1, want);
      } else {
        var diff := if qs[i].runtime < want then qs[i].runtime else want;
        if want != diff {
          ReclaimOnlyTakes(qs[i := qs[i].(runtime := qs[i].runtime - diff)], k, i + 1, want - diff);
        }
      }
    }
  }

  lemma {:induction false} DisableOwesIff(qs: seq<Queue>, k: nat, base: int, period: int)
    requires k < |qs| && Books(qs, base, period) && Owing(qs)
    ensures Owing(Disabled(qs, k, base).qs) <==> LeavesDebt(qs, k, base)
  {
    hide Conserved;
    var r := Disabled(qs, k, base).qs;
    if Enabled(qs[k]) && qs[k].runtime < base {
      ConservedRange(qs, base, period);
      forall j | 0 <= j < |qs| && Enabled(qs[j]) ensures qs[j].runtime < RUNTIME_INF { PoolBounds(qs, j); }
      ReclaimOnlyTakes(qs, k, 0, base - qs[k].runtime);
    } else if Enabled(qs[k]) && qs[k].runtime > base {
      SurplusGoesToFirst(qs, k, 0, base - qs[k].runtime);
      var f := FirstOther(qs, k, 0);
      if f < |qs| {
        SurplusFits(qs, k, f, base, period);
        assert r[f] == qs[f].(runtime := qs[f].runtime + qs[k].runtime - base);
      }
    }
  }

  /** The surplus cannot look like the mark of a disabled queue. */
  lemma {:induction false} SurplusFits(qs: seq<Queue>, k: nat, f: nat, base: int, period: int)
    requires k < |qs| && f < |qs| && f != k && Books(qs, base, period) && Enabled(qs[k]) && Enabled(qs[f])
    ensures qs[f].runtime + qs[k].runtime - base < RUNTIME_INF
  {
    ConservedRange(qs, base, period);
    PairBounds(qs, f, k);
  }

  /** A new group runtime leaves throttled queues in debt exactly when none of them has used less. */
  lemma {:induction false} SetBandwidthOwesIff(qs: seq<Queue>, runtime: int)
    ensures Owing(Refilled(qs, runtime)) <==>
      (runtime == RUNTIME_INF || forall i :: 0 <= i < |qs| && qs[i].throttled ==> qs[i].time >= runtime)
  {
    var r := Refilled(qs, runtime);
    if runtime != RUNTIME_INF && Owing(r) {
      forall i | 0 <= i < |qs| && qs[i].throttled ensures qs[i].time >= runtime {
        assert Enabled(r[i]) && r[i].throttled;
      }
    }
  }

  // ------------------------------------------------------------------
  // Runs
  // ------------------------------------------------------------------

  /** A task group's bandwidth: its queues, the group's runtime and period. */
  datatype Group = Group(qs: seq<Queue>, runtime: int, period: int)

  datatype Step =
    | Charge(k: nat, delta: nat, boosted: bool)
    | Timer(overrun: nat)
    | Disable(k: nat)
    | Enable(k: nat)
    | SetBandwidth(runtime: int, period: int)

  ghost predicate Allowed(g: Group, step: Step) {
    match step
    case Charge(k, delta, _) => k < |g.qs| && g.qs[k].time + delta < RUNTIME_INF
    case Timer(_) => true
    case Disable(k) => k < |g.qs|
    case Enable(k) => k < |g.qs| && (!Enabled(g.qs[k]) || g.qs[k].runtime == g.runtime)
    case SetBandwidth(runtime, period) =>
      0 <= period < RUNTIME_INF && runtime >= 0 && (runtime != RUNTIME_INF ==> |g.qs| * runtime < RUNTIME_INF)
  }

  /** tg_set_rt_bandwidth gives every queue the new runtime, even one that is disabled. */
  function Refilled(qs: seq<Queue>, runtime: int): (r: seq<Queue>)
    ensures |r| == |qs|
    ensures forall i :: 0 <= i < |qs| ==> r[i] == qs[i].(runtime := runtime)
  {
    if qs == [] then [] else [qs[0].(runtime := runtime)] + Refilled(qs[1..], runtime)
  }

  lemma {:induction false} RefilledConserved(qs: seq<Queue>, runtime: int)
    ensures Pool(Refilled(qs, runtime)) == Count(Refilled(qs, runtime)) * runtime || runtime == RUNTIME_INF
    ensures Count(Refilled(qs, runtime)) == if runtime == RUNTIME_INF then 0 else |qs|
  {
    if qs != [] {
      RefilledConserved(qs[1..], runtime);
      var r := Refilled(qs, runtime);
      assert r[1..] == Refilled(qs[1..], runtime);
      assert Count(r) * runtime == Count(r[1..]) * runtime + (Count(r) - Count(r[1..])) * runtime;
    }
  }

  function After(g: Group, step: Step, share: bool): Group
    requires Allowed(g, step)
  {
    match step
    case Charge(k, delta, boosted) => g.(qs := Charged(g.qs, k, delta, boosted, g.runtime, g.period, share).qs)
    case Timer(overrun) => g.(qs := TimerFrom(g.qs, 0, overrun, g.period, share))
    case Disable(k) => g.(qs := Disabled(g.qs, k, g.runtime).qs)
    case Enable(k) => g.(qs := EnabledAgain(g.qs, k, g.runtime))
    case SetBandwidth(runtime, period) => Group(Refilled(g.qs, runtime), runtime, period)
  }

  ghost predicate Sound(g: Group) {
    Books(g.qs, g.runtime, g.period)
  }

  /** The steps that keep throttled queues in debt */
  ghost predicate KeepsDebt(g: Group, step: Step)
    requires Allowed(g, step)
  {
    match step
    case Disable(k) => LeavesDebt(g.qs, k, g.runtime)
    case SetBandwidth(runtime, _) =>
      runtime == RUNTIME_INF || forall i :: 0 <= i < |g.qs| && g.qs[i].throttled ==> g.qs[i].time >= runtime
    case _ => true
  }

  lemma {:induction false} ReclaimKeepsFlags(qs: seq<Queue>, k: nat, i: nat, want: int)
    requires k < |qs| && i <= |qs|
    ensures
      var r := Reclaim(qs, k, i, want).qs;
      forall j :: 0 <= j < |qs| ==> r[j].time == qs[j].time && r[j].throttled == qs[j].throttled
    decreases |qs| - i
  {
    if i < |qs| {
      var diff := if want > 0 && qs[i].runtime < want then qs[i].runtime else want;
      if i == k || !Enabled(qs[i]) {
        ReclaimKeepsFlags(qs, k, i + 1, want);
      } else if want != diff {
        ReclaimKeepsFlags(qs[i := qs[i].(runtime := qs[i].runtime - diff)], k, i + 1, want - diff);
      }
    }
  }

  lemma {:induction false} DisableKeepsLate(qs: seq<Queue>, k: nat, base: int)
    requires k < |qs|
    ensures Late(qs) ==> Late(Disabled(qs, k, base).qs)
  {
    if Enabled(qs[k]) && qs[k].runtime != base {
      ReclaimKeepsFlags(qs, k, 0, base - qs[k].runtime);
    }
  }

  lemma {:induction false} StepConserves(g: Group, step: Step, share: bool)
    requires Sound(g) && Allowed(g, step)
    ensures Sound(After(g, step, share)) && |After(g, step, share).qs| == |g.qs|
    ensures step.Disable? ==> Disabled(g.qs, step.k, g.runtime).want == 0
    ensures Late(g.qs) ==> Late(After(g, step, share).qs)
    ensures Owing(g.qs) ==> (Owing(After(g, step, share).qs) <==> KeepsDebt(g, step))
  {
    hide Charged, TimerFrom, Disabled, Bounded, Conserved, LeavesDebt;
    match step
    case Charge(k, delta, boosted) =>
      ChargedGood(g.qs, k, delta, boosted, g.runtime, g.period, share);
    case Timer(overrun) => TimerGood(g.qs, 0, overrun, g.runtime, g.period, share);
    case Disable(k) =>
      DisableConserves(g.qs, k, g.runtime, g.period);
      DisableKeepsLate(g.qs, k, g.runtime);
      if Owing(g.qs) { DisableOwesIff(g.qs, k, g.runtime, g.period); }
    case Enable(k) => EnableStep(g.qs, k, g.runtime, g.period);
    case SetBandwidth(runtime, period) => RefillStep(g.qs, runtime, period, g.runtime, g.period);
  }

  lemma {:induction false} EnableStep(qs: seq<Queue>, k: nat, base: int, period: int)
    requires k < |qs| && Books(qs, base, period) && (!Enabled(qs[k]) || qs[k].runtime == base)
    ensures
      var r := EnabledAgain(qs, k, base);
      Books(r, base, period) && (Owing(qs) ==> Owing(r)) && (Late(qs) ==> Late(r))
  {
    hide Conserved;
    EnableConservesIff(qs, k, base);
  }

  lemma {:induction false} RefillStep(qs: seq<Queue>, runtime: int, period: int, base0: int, period0: int)
    requires Books(qs, base0, period0) && 0 <= period < RUNTIME_INF && runtime >= 0
    requires runtime != RUNTIME_INF ==> |qs| * runtime < RUNTIME_INF
    ensures var r := Refilled(qs, runtime); Books(r, runtime, period) && (Late(qs) ==> Late(r))
    ensures Owing(Refilled(qs, runtime)) <==>
      (runtime == RUNTIME_INF || forall i :: 0 <= i < |qs| && qs[i].throttled ==> qs[i].time >= runtime)
  {
    RefilledConserved(qs, runtime);
    SetBandwidthOwesIff(qs, runtime);
  }

  /** A run: each step is allowed in the state it finds. */
  ghost predicate IsRun(run: seq<Group>, steps: seq<Step>, share: bool) {
    && |run| == |steps| + 1
    && forall i :: 0 <= i < |steps| ==> Allowed(run[i], steps[i]) && run[i + 1] == After(run[i], steps[i], share)
  }

  /** Over every run no runtime leaks, and no CPU going down is left wanting. */
  lemma {:induction false} RunConserves(run: seq<Group>, steps: seq<Step>, share: bool, i: nat)
    requires IsRun(run, steps, share) && Sound(run[0]) && i < |run|
    ensures Sound(run[i]) && InRange(run[i].qs, run[i].period)
    ensures i < |steps| && steps[i].Disable? ==> Disabled(run[i].qs, steps[i].k, run[i].runtime).want == 0
  {
    if i > 0 {
      RunConserves(run, steps, share, i - 1);
      StepConserves(run[i - 1], steps[i - 1], share);
    }
    ConservedRange(run[i].qs, run[i].runtime, run[i].period);
    if i < |steps| {
      StepConserves(run[i], steps[i], share);
    }
  }

  /** Throttled queues are late in every state of a run that starts so, and so the period timer
      releases each that holds runtime, after any hotplug and reconfiguration. */
  lemma {:induction false} ReleasedInEveryRun(run: seq<Group>, steps: seq<Step>, share: bool, i: nat, j: nat,
          overruns: seq<nat>)
    returns (m: nat)
    requires IsRun(run, steps, share) && Sound(run[0]) && Late(run[0].qs) && i < |run| && j < |run[i].qs|
    requires var q := run[i].qs[j]; q.throttled && q.time >= 0 && Min(q.runtime, run[i].period) > 0
    requires NoOverflow(overruns, Pool(run[i].qs)) && |overruns| >= Firings(run[i].qs[j], run[i].period)
    ensures 1 <= m <= Firings(run[i].qs[j], run[i].period)
    ensures !Fired(run[i].qs, overruns, m, run[i].period, share)[j].throttled
  {
    hide Books, Late, Pool, NoOverflow, Firings;
    LateInEveryRun(run, steps, share, i);
    m := ThrottledIsReleased(run[i].qs, j, overruns, run[i].runtime, run[i].period, share);
  }

  lemma {:induction false} LateInEveryRun(run: seq<Group>, steps: seq<Step>, share: bool, i: nat)
    requires IsRun(run, steps, share) && Sound(run[0]) && Late(run[0].qs) && i < |run|
    ensures Sound(run[i]) && Late(run[i].qs)
  {
    hide Sound, Late;
    if i > 0 {
      LateInEveryRun(run, steps, share, i - 1);
      StepConserves(run[i - 1], steps[i - 1], share);
    }
  }

  // ------------------------------------------------------------------
  // Two runs in which a throttled queue stops owing
  // ------------------------------------------------------------------

  /** A CPU is throttled at 31 of 30, and then its group is given 60. */
  lemma {:induction false} RaiseForgives()
    ensures
      var g0 := Group([Queue(30, 0, false)], 30, 100);
      var charge, raise := Charge(0, 31, false), SetBandwidth(60, 100);
      && Sound(g0) && Late(g0.qs) && Allowed(g0, charge)
      && var g1 := After(g0, charge, false);
      && Allowed(g1, raise) && Owing(g1.qs) && !Owing(After(g1, raise, false).qs)
  {
    var g0, charge := Group([Queue(30, 0, false)], 30, 100), Charge(0, 31, false);
    assert g0.qs[1..] == [];
    assert Pool([]) == 0 && Count([]) == 0;
    var g1 := After(g0, charge, false);
    assert g1.qs == [Queue(30, 31, true)];
    var g2 := After(g1, SetBandwidth(60, 100), false);
    assert g2.qs[0] == Queue(60, 31, true);
  }

  function Two(a: Queue, b: Queue): (r: seq<Queue>)
    ensures |r| == 2
  {
    [a, b]
  }

  /** CPU 1 borrows 15 from CPU 0 and lends 2 back; CPU 0 is throttled at 20 of 17; then CPU 1
      goes down and returns 13. */
  lemma {:induction false} DisableForgives()
    ensures
      var g0 := Group(Two(Queue(30, 0, false), Queue(30, 0, false)), 30, 100);
      var borrow, charge, down := Charge(1, 40, false), Charge(0, 20, false), Disable(1);
      && Sound(g0) && Late(g0.qs) && Allowed(g0, borrow)
      && var g1 := After(g0, borrow, true);
      && Allowed(g1, charge)
      && var g2 := After(g1, charge, true);
      && Allowed(g2, down) && Owing(g2.qs) && !Owing(After(g2, down, true).qs)
  {
    hide Balanced, Reclaim;
    var g0 := Group(Two(Queue(30, 0, false), Queue(30, 0, false)), 30, 100);
    TwoPool(Queue(30, 0, false), Queue(30, 0, false));
    TwoBorrows();
    var g1 := After(g0, Charge(1, 40, false), true);
    assert g0.qs[1 := Queue(30, 40, false)] == Two(Queue(30, 0, false), Queue(30, 40, false));
    assert g1.qs == Two(Queue(15, 0, false), Queue(45, 40, false));
    var g2 := After(g1, Charge(0, 20, false), true);
    assert g1.qs[0 := Queue(15, 20, false)] == Two(Queue(15, 20, false), Queue(45, 40, false));
    assert g2.qs == Two(Queue(17, 20, true), Queue(43, 40, false));
    SurplusGoesToFirst(g2.qs, 1, 0, -13);
    assert FirstOther(g2.qs, 1, 0) == 0;
    var g3 := After(g2, Disable(1), true);
    assert g3.qs[0] == Queue(30, 20, true);
  }

  lemma {:induction false} TwoPool(a: Queue, b: Queue)
    requires Enabled(a) && Enabled(b)
    ensures Pool(Two(a, b)) == a.runtime + b.runtime && Count(Two(a, b)) == 2
  {
    assert Two(a, b)[1..] == [b] && [b][1..] == [];
    assert Pool([b]) == b.runtime && Count([b]) == 1;
  }

  lemma {:induction false} TwoBorrows()
    ensures Balanced(Two(Queue(30, 0, false), Queue(30, 40, false)), 1, 0, 100)
         == Two(Queue(15, 0, false), Queue(45, 40, false))
    ensures Balanced(Two(Queue(15, 20, false), Queue(45, 40, false)), 0, 0, 100)
         == Two(Queue(17, 20, false), Queue(43, 40, false))
  {
    var a0, a1 := Two(Queue(30, 0, false), Queue(30, 40, false)), Two(Queue(15, 0, false), Queue(45, 40, false));
    assert Lent(a0, 1, 0, 100) == a1 && Lent(a1, 1, 1, 100) == a1;
    assert Balanced(a1, 1, 2, 100) == a1;
    assert Balanced(a1, 1, 1, 100) == Balanced(a1, 1, 2, 100);
    var b0, b1 := Two(Queue(15, 20, false), Queue(45, 40, false)), Two(Queue(17, 20, false), Queue(43, 40, false));
    assert Lent(b0, 0, 0, 100) == b0 && Lent(b0, 0, 1, 100) == b1;
    assert Balanced(b1, 0, 2, 100) == b1;
    assert Balanced(b0, 0, 1, 100) == Balanced(b1, 0, 2, 100);
  }

  // ------------------------------------------------------------------
  // Enabling twice
  // ------------------------------------------------------------------

  function Three(a: Queue, b: Queue, c: Queue): (r: seq<Queue>)
    ensures |r| == 3
  {
    [a, b, c]
  }

  lemma {:induction false} ThreePool(a: Queue, b: Queue, c: Queue)
    ensures Pool(Three(a, b, c)) == Part(a) + Part(b) + Part(c)
    ensures Enabled(a) && Enabled(b) && Enabled(c) ==> Count(Three(a, b, c)) == 3
  {
    assert Three(a, b, c)[1..] == [b, c] && [b, c][1..] == [c] && [c][1..] == [];
    assert Pool([c]) == Part(c) && Pool([b, c]) == Part(b) + Pool([c]);
    assert Enabled(b) && Enabled(c) ==> Count([c]) == 1 && Count([b, c]) == 2;
  }

  /** The last of three CPUs borrows a part from each of the others. */
  lemma {:induction false} LastBorrows(lender: Queue, own: Queue, period: int)
    requires Enabled(lender) && lender.runtime - lender.time > 0
    requires own.runtime + 2 * ((lender.runtime - lender.time) / 3) < period
    ensures var part := (lender.runtime - lender.time) / 3;
      Balanced(Three(lender, lender, own), 2, 0, period)
      == Three(lender.(runtime := lender.runtime - part), lender.(runtime := lender.runtime - part),
          own.(runtime := own.runtime + 2 * part))
  {
    var part := (lender.runtime - lender.time) / 3;
    DivBound(lender.runtime - lender.time, 3);
    var left := lender.(runtime := lender.runtime - part);
    var q0 := Three(lender, lender, own);
    var q1 := Three(left, lender, own.(runtime := own.runtime + part));
    var q2 := Three(left, left, own.(runtime := own.runtime + 2 * part));
    assert Lent(q0, 2, 0, period) == q1;
    assert Lent(q1, 2, 1, period) == q2;
    assert Lent(q2, 2, 2, period) == q2;
    assert Balanced(q2, 2, 2, period) == q2;
    assert Balanced(q1, 2, 1, period) == Balanced(q2, 2, 2, period);
  }

  function Fresh(): Group {
    Group(Three(Queue(30, 0, false), Queue(30, 0, false), Queue(30, 0, false)), 30, 100)
  }

  /** One charge to CPU 2 that makes it borrow from the other two. */
  lemma {:induction false} ChargeBorrows(r: nat, own: nat, used: nat, delta: nat)
    requires r > 0 && own < used + delta && own + 2 * (r / 3) >= used + delta && own + 2 * (r / 3) < 100
    ensures
      Charged(Three(Queue(r, 0, false), Queue(r, 0, false), Queue(own, used, false)), 2, delta, false, 30, 100, true).qs
      == Three(Queue(r - r / 3, 0, false), Queue(r - r / 3, 0, false), Queue(own + 2 * (r / 3), used + delta, false))
  {
    var charged := Three(Queue(r, 0, false), Queue(r, 0, false), Queue(own, used + delta, false));
    assert Three(Queue(r, 0, false), Queue(r, 0, false), Queue(own, used, false))[2 := Queue(own, used + delta, false)]
        == charged;
    LastBorrows(Queue(r, 0, false), Queue(own, used + delta, false), 100);
  }

  /** A CPU that comes up is enabled by two notifiers, rq_online_rt and update_runtime.  If it
      borrows between the two, the second one destroys what it borrowed: here CPU 2 borrows 40,
      is enabled again, and of the two other CPUs that then go down the second is left wanting 10. */
  lemma {:induction false} SecondEnableLeaks()
    ensures Sound(Fresh())
    ensures var s1 := Charged(Fresh().qs, 2, 35, false, 30, 100, true).qs;
      var s2 := Charged(s1, 2, 20, false, 30, 100, true).qs;
      var s3 := Charged(s2, 2, 10, false, 30, 100, true).qs;
      var again := EnabledAgain(s3, 2, 30);
      Disabled(again, 0, 30).want == 0 && Disabled(Disabled(again, 0, 30).qs, 1, 30).want == 10
  {
    hide Charged, Disabled;
    ThreePool(Queue(30, 0, false), Queue(30, 0, false), Queue(30, 0, false));
    ChargeBorrows(30, 30, 0, 35);
    ChargeBorrows(20, 50, 35, 20);
    ChargeBorrows(14, 62, 55, 10);
    assert EnabledAgain(Three(Queue(10, 0, false), Queue(10, 0, false), Queue(70, 65, false)), 2, 30)
        == Three(Queue(10, 0, false), Queue(10, 0, false), Queue(30, 0, false));
    LastPays();
    LeftWanting();
  }

  /** CPU 0 goes down and takes 20 back, all of CPU 1 and part of CPU 2. */
  lemma {:induction false} LastPays()
    ensures Disabled(Three(Queue(10, 0, false), Queue(10, 0, false), Queue(30, 0, false)), 0, 30)
         == Reclaimed(Three(Queue(RUNTIME_INF, 0, false), Queue(0, 0, false), Queue(20, 0, false)), 0)
  {
    var q0 := Three(Queue(10, 0, false), Queue(10, 0, false), Queue(30, 0, false));
    var q1 := Three(Queue(10, 0, false), Queue(0, 0, false), Queue(30, 0, false));
    var q2 := Three(Queue(10, 0, false), Queue(0, 0, false), Queue(20, 0, false));
    assert q0[1 := Queue(0, 0, false)] == q1 && q1[2 := Queue(20, 0, false)] == q2;
    assert Reclaim(q1, 0, 2, 10) == Reclaimed(q2, 0);
    assert Reclaim(q0, 0, 1, 20) == Reclaim(q1, 0, 2, 10);
    assert Reclaim(q0, 0, 0, 20) == Reclaim(q0, 0, 1, 20);
  }

  lemma {:induction false} LeftWanting()
    ensures Disabled(Three(Queue(RUNTIME_INF, 0, false), Queue(0, 0, false), Queue(20, 0, false)), 1, 30).want == 10
  {
    var q := Three(Queue(RUNTIME_INF, 0, false), Queue(0, 0, false), Queue(20, 0, false));
    var r := Three(Queue(RUNTIME_INF, 0, false), Queue(0, 0, false), Queue(0, 0, false));
    assert q[2 := Queue(0, 0, false)] == r;
    assert Reclaim(r, 1, 3, 10) == Reclaimed(r, 10);
    assert Reclaim(q, 1, 2, 30) == Reclaim(r, 1, 3, 10);
    assert Reclaim(q, 1, 1, 30) == Reclaim(q, 1, 2, 30);
    assert Reclaim(q, 1, 0, 30) == Reclaim(q, 1, 1, 30);
  }
}
