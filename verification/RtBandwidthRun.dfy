/** struct rt_bandwidth with the bandwidth fields of its queue on each CPU, and the
    operations of rt.c that move runtime between them, each proved against RtBandwidth. */
module RtBandwidthRun {
  import opened Arithmetic
  import opened RtBandwidth
  import opened RtPayments

  class Bandwidth {
    var qs: seq<Queue>   // tg->rt_rq[cpu], over the span of the root domain
    var rtRuntime: int
    var rtPeriod: int
    const share: bool    // sched_feat(RT_RUNTIME_SHARE)

    ghost function GroupOf(): Group
      reads this
    {
      Group(qs, rtRuntime, rtPeriod)
    }

    ghost predicate Valid()
      reads this
    {
      Sound(GroupOf())
    }

    constructor (cpus: nat, runtime: int, period: int, sharing: bool)
      requires 0 <= period < RUNTIME_INF && runtime >= 0
      requires runtime != RUNTIME_INF ==> cpus * runtime < RUNTIME_INF
      ensures Valid() && |qs| == cpus && rtRuntime == runtime && rtPeriod == period && share == sharing
      ensures forall i :: 0 <= i < cpus ==> qs[i] == Queue(runtime, 0, false)
      ensures Late(qs)
    {
      qs := seq(cpus, _ => Queue(runtime, 0, false));
      rtRuntime, rtPeriod, share := runtime, period, sharing;
      new;
      RefilledConserved(qs, runtime);
      assert Refilled(qs, runtime) == qs;
    }

    /** do_balance_runtime: more is set exactly when some other queue had runtime to spare. */
    method DoBalanceRuntime(k: nat) returns (more: bool)
      requires k < |qs|
      modifies this
      ensures GroupOf() == old(GroupOf()).(qs := Balanced(old(qs), k, 0, rtPeriod))
      ensures forall j :: 0 <= j < |qs| ==> qs[j] == old(qs)[j].(runtime := Holds(old(qs), k, j, rtPeriod))
      ensures more <==> exists i: nat :: HasSpare(old(qs), k, i)
    {
      hide Balanced, Holds, HasSpare;
      BalancedExact(qs, k, rtPeriod);
      SpareIff(qs, k);
      more := false;
      var weight := |qs|;
      for i := 0 to |qs|
        invariant rtRuntime == old(rtRuntime) && rtPeriod == old(rtPeriod) && |qs| == weight == |old(qs)|
        invariant Balanced(qs, k, i, rtPeriod) == Balanced(old(qs), k, 0, rtPeriod)
        invariant !more ==> qs == old(qs) && forall j :: 0 <= j < i ==> !Lends(qs, k, j)
        invariant more ==> exists j :: 0 <= j < weight && Lends(old(qs), k, j)
      {
        BalancedNext(qs, k, i, rtPeriod);
        if i == k {
          continue;
        }
        if qs[i].runtime == RUNTIME_INF {
          continue;
        }
        var diff := qs[i].runtime - qs[i].time;
        if diff > 0 {
          assert Lends(qs, k, i);
          diff := diff / weight;
          if qs[k].runtime + diff > rtPeriod {
            diff := rtPeriod - qs[k].runtime;
          }
          qs := qs[i := qs[i].(runtime := qs[i].runtime - diff)];
          qs := qs[k := qs[k].(runtime := qs[k].runtime + diff)];
          more := true;
          if qs[k].runtime == rtPeriod {
            return;
          }
        }
      }
      BalancedDone(qs, k, rtPeriod);
    }

    /** balance_runtime */
    method BalanceRuntime(k: nat) returns (more: bool)
      requires k < |qs|
      modifies this
      ensures GroupOf() == old(GroupOf()).(qs := Rebalanced(old(qs), k, rtPeriod, share))
      ensures forall j :: 0 <= j < |qs| ==> qs[j] == old(qs)[j].(runtime := HoldsThen(old(qs), k, j, rtPeriod, share))
    {
      hide Holds;
      more := false;
      if !share {
        return;
      }
      if qs[k].time > qs[k].runtime {
        more := DoBalanceRuntime(k);
      }
    }

    /** __disable_runtime; the result is what BUG_ON(want) tests. */
    method DisableRuntime(k: nat) returns (want: int)
      requires k < |qs|
      modifies this
      ensures GroupOf() == old(GroupOf()).(qs := Disabled(old(qs), k, rtRuntime).qs)
      ensures want == Disabled(old(qs), k, rtRuntime).want
      ensures NonNegative(old(qs)) ==> forall j :: 0 <= j < |qs| ==> Settled(old(qs), qs, k, rtRuntime, j)
      ensures old(Valid()) ==> Valid() && want == 0 && (Late(old(qs)) ==> Late(qs))
      ensures old(Valid()) && Owing(old(qs)) ==> (Owing(qs) <==> LeavesDebt(old(qs), k, rtRuntime))
    {
      hide Sound, Owing, Late, LeavesDebt, Settled, NonNegative;
      ghost var g := GroupOf();
      want := 0;
      if qs[k].runtime != RUNTIME_INF && qs[k].runtime != rtRuntime {
        want := rtRuntime - qs[k].runtime;
        ghost var wanted := want;
        for i := 0 to |qs|
          invariant rtRuntime == g.runtime && rtPeriod == g.period && |qs| == |g.qs|
          invariant want != 0
          invariant Reclaim(qs, k, i, want) == Reclaim(g.qs, k, 0, wanted)
        {
          if i == k || qs[i].runtime == RUNTIME_INF {
            continue;
          }
          if want > 0 {
            var diff := Min(qs[i].runtime, want);
            qs := qs[i := qs[i].(runtime := qs[i].runtime - diff)];
            want := want - diff;
          } else {
            qs := qs[i := qs[i].(runtime := qs[i].runtime - want)];
            want := want - want;
          }
          if want == 0 {
            break;
          }
        }
      }
      qs := qs[k := qs[k].(runtime := RUNTIME_INF)];
      if NonNegative(g.qs) { DisabledExact(g.qs, k, rtRuntime); }
      if Sound(g) {
        StepConserves(g, Disable(k), share);
      }
    }

    /** __enable_runtime */
    method EnableRuntime(k: nat)
      requires k < |qs|
      modifies this
      ensures GroupOf() == old(GroupOf()).(qs := EnabledAgain(old(qs), k, rtRuntime))
      ensures qs == old(qs)[k := Queue(rtRuntime, 0, false)]
      ensures old(Valid()) ==> (Valid() <==> !Enabled(old(qs)[k]) || old(qs)[k].runtime == rtRuntime)
    {
      if Sound(GroupOf()) {
        EnableConservesIff(qs, k, rtRuntime);
      }
      qs := qs[k := qs[k].(runtime := rtRuntime)];
      qs := qs[k := qs[k].(time := 0)];
      qs := qs[k := qs[k].(throttled := false)];
      assert qs == EnabledAgain(old(qs), k, rtRuntime);
    }

    /** sched_rt_runtime_exceeded */
    method RuntimeExceeded(k: nat, boosted: bool) returns (over: bool)
      requires k < |qs|
      modifies this
      ensures GroupOf() == old(GroupOf()).(qs := Exceeded(old(qs), k, boosted, rtRuntime, rtPeriod, share).qs)
      ensures HeldTo(old(qs), qs, k, rtRuntime, rtPeriod, share)
      ensures over <==> qs[k].throttled && !boosted
    {
      hide HeldTo, Holds;
      ExceededExact(qs, k, boosted, rtRuntime, rtPeriod, share);
      if qs[k].throttled {
        return qs[k].throttled && !boosted;
      }
      if qs[k].runtime >= rtPeriod {
        return false;
      }
      BalancedKeepsFlags(qs, k, 0, rtPeriod);
      var _ := BalanceRuntime(k);
      if qs[k].runtime == RUNTIME_INF {
        return false;
      }
      if qs[k].time > qs[k].runtime {
        if rtRuntime != 0 {
          qs := qs[k := qs[k].(throttled := true)];
        } else {
          qs := qs[k := qs[k].(time := 0)];
        }
        if qs[k].throttled && !boosted {
          return true;
        }
      }
      return false;
    }

    /** update_curr_rt, for one queue on the way up */
    method ChargeRuntime(k: nat, delta: nat, boosted: bool) returns (over: bool)
      requires k < |qs|
      modifies this
      ensures GroupOf() == old(GroupOf()).(qs := Charged(old(qs), k, delta, boosted, rtRuntime, rtPeriod, share).qs)
      ensures old(qs)[k].runtime == 0xFFFF_FFFF_FFFF_FFFF ==> qs == old(qs) && !over
      ensures old(qs)[k].runtime != 0xFFFF_FFFF_FFFF_FFFF ==>
        HeldTo(Grown(old(qs), k, delta), qs, k, rtRuntime, rtPeriod, share) && (over <==> qs[k].throttled && !boosted)
      ensures old(Valid()) && old(qs)[k].time + delta < RUNTIME_INF ==>
        Valid() && (Owing(old(qs)) ==> Owing(qs)) && (Late(old(qs)) ==> Late(qs))
    {
      hide HeldTo, Sound, Late, Owing;
      ghost var g := GroupOf();
      over := false;
      if qs[k].runtime != RUNTIME_INF {
        qs := qs[k := qs[k].(time := qs[k].time + delta)];
        over := RuntimeExceeded(k, boosted);
      }
      if Sound(g) && g.qs[k].time + delta < RUNTIME_INF {
        StepConserves(g, Charge(k, delta, boosted), share);
      }
    }

    /** One CPU's turn in it, for a queue with time on its account */
    method TimerTurn(i: nat, overrun: nat)
      requires i < |qs| && qs[i].time != 0
      modifies this
      ensures GroupOf() == old(GroupOf()).(qs := TimerAt(old(qs), i, overrun, rtPeriod, share))
      ensures Turned(old(qs), qs, i, overrun, rtPeriod, share)
    {
      hide Turned, Holds;
      TurnExact(qs, i, overrun, rtPeriod, share);
      BalancedKeepsFlags(qs, i, 0, rtPeriod);
      if qs[i].throttled {
        var _ := BalanceRuntime(i);
      }
      var runtime := qs[i].runtime;
      qs := qs[i := qs[i].(time := qs[i].time - Min(qs[i].time, (overrun * runtime) % U64))];
      if qs[i].throttled && qs[i].time < runtime {
        qs := qs[i := qs[i].(throttled := false)];
      }
      assert qs == TimerAt(old(qs), i, overrun, rtPeriod, share);
    }

    /** do_sched_rt_period_timer; running are the queues' rt_nr_running, and enabled tells whether there
        is a limit. The timer may go to rest only with nothing left to do for it: no queue has time
        or tasks, or nothing is throttled and no limit applies. In no case does it leave a queue
        throttled. */
    method PeriodTimer(overrun: nat, running: seq<nat>, enabled: bool) returns (idle: bool)
      requires |running| == |qs|
      modifies this
      ensures GroupOf() == old(GroupOf()).(qs := TimerFrom(old(qs), 0, overrun, rtPeriod, share))
      ensures Turns(old(qs), qs, 0, overrun, rtPeriod, share)
      ensures !share ==> forall j :: 0 <= j < |qs| ==> qs[j] == Paid(old(qs)[j], overrun)
      ensures old(Valid()) ==> Valid() && (Owing(old(qs)) ==> Owing(qs)) && (Late(old(qs)) ==> Late(qs))
      ensures idle <==>
        || ((forall i :: 0 <= i < |qs| ==> !qs[i].throttled) && (!enabled || rtRuntime == RUNTIME_INF))
        || forall i :: 0 <= i < |qs| ==> qs[i].time == 0 && running[i] == 0
      ensures old(Valid()) && Late(old(qs)) && idle ==> forall i :: 0 <= i < |qs| ==> !qs[i].throttled
    {
      hide TimerAt, TimerFrom, Sound, Owing, Turns, Turned, Paid;
      ghost var g := GroupOf();
      TimerTurns(qs, 0, overrun, rtPeriod, share);
      if !share { FiringPays(qs, 0, overrun, rtPeriod); }
      idle := true;
      var throttled := false;
      for i := 0 to |qs|
        invariant rtRuntime == g.runtime && rtPeriod == g.period && |qs| == |g.qs|
        invariant TimerFrom(qs, i, overrun, rtPeriod, share) == TimerFrom(g.qs, 0, overrun, rtPeriod, share)
        invariant throttled <==> exists j :: 0 <= j < i && qs[j].throttled
        invariant idle <==> forall j :: 0 <= j < i ==> qs[j].time == 0 && running[j] == 0
      {
        TurnKeepsFlags(qs, i, overrun, rtPeriod, share);
        TimerNext(qs, i, overrun, rtPeriod, share);
        if qs[i].time != 0 {
          TimerTurn(i, overrun);
          if qs[i].time != 0 || running[i] != 0 {
            idle := false;
          }
        } else if running[i] != 0 {
          idle := false;
        }
        if qs[i].throttled {
          throttled := true;
        }
      }
      TimerDone(qs, overrun, rtPeriod, share);
      if Sound(g) {
        StepConserves(g, Timer(overrun), share);
      }
      if !throttled && (!enabled || rtRuntime == RUNTIME_INF) {
        return true;
      }
    }

    /** sched_rt_period_timer: as many firings as periods have passed. The timer is started again
        unless it may rest, and so as long as any queue is throttled. */
    method SchedRtPeriodTimer(overruns: seq<nat>, running: seq<seq<nat>>, enabled: bool) returns (restart: bool)
      requires |running| == |overruns| && forall m :: 0 <= m < |running| ==> |running[m]| == |qs|
      modifies this
      ensures GroupOf() == old(GroupOf()).(qs := Fired(old(qs), overruns, |overruns|, rtPeriod, share))
      ensures old(Valid()) && Late(old(qs)) ==> Valid() && Late(qs)
      ensures old(Valid()) && Late(old(qs)) && (exists i :: 0 <= i < |qs| && qs[i].throttled) ==> restart
    {
      ghost var g := GroupOf();
      var idle := false;
      for m := 0 to |overruns|
        invariant GroupOf() == g.(qs := Fired(g.qs, overruns, m, g.period, share))
        invariant Sound(g) && Late(g.qs) ==> Valid() && Late(qs)
        invariant Sound(g) && Late(g.qs) && idle ==> forall i :: 0 <= i < |qs| ==> !qs[i].throttled
      {
        idle := PeriodTimer(overruns[m], running[m], enabled);
      }
      restart := !idle;
    }

    /** tg_set_rt_bandwidth, once the new setting is admitted */
    method SetRtBandwidth(period: int, runtime: int)
      requires 0 <= period < RUNTIME_INF && runtime >= 0
      requires runtime != RUNTIME_INF ==> |qs| * runtime < RUNTIME_INF
      modifies this
      ensures GroupOf() == Group(Refilled(old(qs), runtime), runtime, period)
      ensures |qs| == |old(qs)| && forall i :: 0 <= i < |qs| ==> qs[i] == old(qs)[i].(runtime := runtime)
      ensures old(Valid()) ==> Valid() && (Late(old(qs)) ==> Late(qs))
      ensures old(Valid()) && Owing(old(qs)) ==> (Owing(qs) <==>
        runtime == RUNTIME_INF || forall i :: 0 <= i < |qs| && old(qs)[i].throttled ==> old(qs)[i].time >= runtime)
    {
      ghost var g := GroupOf();
      rtPeriod := period;
      rtRuntime := runtime;
      for i := 0 to |qs|
        invariant rtPeriod == period && rtRuntime == runtime && |qs| == |g.qs|
        invariant forall j :: 0 <= j < |qs| ==> qs[j] == if j < i then g.qs[j].(runtime := runtime) else g.qs[j]
      {
        qs := qs[i := qs[i].(runtime := runtime)];
      }
      assert qs == Refilled(g.qs, runtime);
      if Sound(g) {
        StepConserves(g, SetBandwidth(runtime, period), share);
      }
    }
  }
}
