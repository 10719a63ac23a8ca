/** How per-CPU counts reach the load average (core.c) when CPUs may stop ticking: every
    change is first a delta in somebody's hands and then lands in one of three counters.
    Each method is one atomic step, so a run of a machine is any sequence of calls. */
module NoHzLoad {
  import opened Arithmetic
  import opened LoadAverage
  import opened Sums

  /** What a CPU holds between folding its count and adding the change somewhere. */
  datatype Local =
    | Quiet
    | Ticking(delta: int)              // in calc_load_account_active
    | Idling(delta: int)               // in calc_load_enter_idle, slot not chosen
    | Indexed(delta: int, idx: nat)    // has read calc_load_idx but not the time
    | Slotted(delta: int, slot: nat)   // knows which idle counter to add to
  {
    ghost function Carried(): int {
      if Quiet? then 0 else delta
    }

    /** A CPU going idle carries a change, or nothing. */
    ghost predicate Possible() {
      (Idling? || Indexed? || Slotted? ==> delta != 0) && (Slotted? ==> slot < 2)
    }
  }

  ghost function Deltas(ls: seq<Local>): (r: seq<int>)
    ensures |r| == |ls|
  {
    seq(|ls|, i requires 0 <= i < |ls| => ls[i].Carried())
  }

  ghost function InFlight(ls: seq<Local>): int {
    Sum(Deltas(ls))
  }

  lemma {:induction false} InFlightUpdate(ls: seq<Local>, i: nat, l: Local)
    requires i < |ls|
    ensures InFlight(ls[i := l]) == InFlight(ls) - ls[i].Carried() + l.Carried()
  {
    assert Deltas(ls[i := l]) == Deltas(ls)[i := l.Carried()];
    SumUpdate(Deltas(ls), i, l.Carried());
  }

  /** Where calc_global_load stands: between its steps other CPUs run. */
  datatype Fold = Resting | Emptied(delta: int) | Folded | Sampled | Timed {
    ghost function Carried(): int {
      if Emptied? then delta else 0
    }
  }

  // ------------------------------------------------------------------
  // Catching up
  // ------------------------------------------------------------------

  /** Repeating the single update for as long as one is due. */
  function Advance(now: nat, update: nat, freq: nat): nat
    requires freq > 0
    decreases now - update
  {
    if now < update + 10 then update else Advance(now, update + freq, freq)
  }

  function AdvanceLoad(now: nat, update: nat, freq: nat, load: nat, exp: nat, active: nat): nat
    requires freq > 0 && exp <= FIXED_1
    decreases now - update
  {
    if now < update + 10 then load
    else AdvanceLoad(now, update + freq, freq, CalcLoad(load, exp, active), exp, active)
  }

  function Missed(now: nat, update: nat, freq: nat): nat
    requires freq > 0 && now >= update + 10
  {
    DivBound(now - update - 10, freq);
    1 + (now - update - 10) / freq
  }

  lemma {:induction false} MissedOne(now: nat, update: nat, freq: nat)
    requires freq > 0 && now >= update + 10
    ensures now < update + freq + 10 ==> Missed(now, update, freq) == 1
    ensures now >= update + freq + 10 ==> Missed(now, update, freq) == 1 + Missed(now, update + freq, freq)
  {
    var d: int := now - update - 10;
    if d < freq {
      DivUnique(d, freq, 0);
    } else {
      DivMod(d - freq, freq);
      DivUnique(d, freq, (d - freq) / freq + 1);
    }
  }

  /** The bulk step leaves the time where repeating the single one would. */
  lemma {:induction false} CatchUpTime(now: nat, update: nat, freq: nat)
    requires freq > 0 && now >= update + 10
    ensures Advance(now, update, freq) == update + Missed(now, update, freq) * freq
    ensures now < Advance(now, update, freq) + 10 <= now + freq
    decreases now - update
  {
    MissedOne(now, update, freq);
    if now >= update + freq + 10 {
      CatchUpTime(now, update + freq, freq);
      var m := Missed(now, update + freq, freq);
      assert (1 + m) * freq == freq + m * freq;
    }
  }

  lemma {:induction false} StepsFromFirst(load: nat, exp: nat, active: nat, n: nat)
    requires exp <= FIXED_1
    ensures Steps(load, exp, active, n + 1) == Steps(CalcLoad(load, exp, active), exp, active, n)
  {
    hide CalcLoad;
    if n > 0 {
      StepsFromFirst(load, exp, active, n - 1);
    }
  }

  lemma {:induction false} CatchUpSteps(now: nat, update: nat, freq: nat, load: nat, exp: nat, active: nat)
    requires freq > 0 && now >= update + 10 && exp <= FIXED_1
    ensures AdvanceLoad(now, update, freq, load, exp, active) == Steps(load, exp, active, Missed(now, update, freq))
    decreases now - update
  {
    hide CalcLoad, Missed;
    MissedOne(now, update, freq);
    var next := CalcLoad(load, exp, active);
    if now >= update + freq + 10 {
      CatchUpSteps(now, update + freq, freq, next, exp, active);
      StepsFromFirst(load, exp, active, Missed(now, update + freq, freq));
    } else {
      assert Steps(load, exp, active, 0) == load;
      assert Steps(load, exp, active, 1) == next;
    }
  }

  /** And the load within a known distance of where repeating would. */
  lemma {:induction false} CatchUpLoad(now: nat, update: nat, freq: nat, load: nat, exp: nat, active: nat)
    requires freq > 0 && now >= update + 10 && exp <= FIXED_1 && load < LIMIT && active < LIMIT
    ensures
      var n := Missed(now, update, freq);
      Close(CalcLoadN(load, exp, active, n) as real, AdvanceLoad(now, update, freq, load, exp, active) as real,
            Spread(load, active, n))
  {
    hide CalcLoad, CalcLoadN, Steps, Missed, Close, Spread;
    MissedOne(now, update, freq);
    assert Missed(now, update, freq) >= 1 by { MissedPositive(now, update, freq); }
    CatchUpSteps(now, update, freq, load, exp, active);
    CalcLoadNClose(load, exp, active, Missed(now, update, freq));
  }

  lemma MissedPositive(now: nat, update: nat, freq: nat)
    requires freq > 0 && now >= update + 10
    ensures Missed(now, update, freq) >= 1
  {
    DivBound(now - update - 10, freq);
  }

  // ------------------------------------------------------------------
  // Waking from idle
  // ------------------------------------------------------------------

  /** A CPU's next sampling time after calc_load_exit_idle. */
  function AfterIdle(now: nat, own: nat, update: nat, freq: nat): nat {
    if now < own then own
    else if now < update + 10 then update + freq else update
  }

  /** The first window to open after now: windows open every freq ticks, one of them at update. */
  function NextWindow(now: nat, update: nat, freq: nat): nat
    requires freq > 0
  {
    if now < update then update else update + ((now - update) / freq + 1) * freq
  }

  lemma {:induction false} WindowAhead(now: nat, update: nat, freq: nat)
    requires freq > 0
    ensures now < NextWindow(now, update, freq)
    ensures update <= now < update + freq ==> NextWindow(now, update, freq) == update + freq
  {
    if update <= now {
      var k := (now - update) / freq;
      DivMod(now - update, freq);
      assert (k + 1) * freq == k * freq + freq;
      if now < update + freq {
        DivUnique(now - update, freq, 0);
      }
    }
  }

  /** A CPU that slept past its sample is to skip the window it woke in and take the next. It does
      so exactly if that window is open. Before it opens, the CPU skips one window more; once it
      should have closed, but calc_global_load has not yet moved the update time, the CPU skips
      none and samples at once. A window is shorter than the time between two. */
  lemma {:induction false} AfterIdleInStepIff(now: nat, own: nat, update: nat, freq: nat)
    requires own <= now && freq >= 10
    ensures AfterIdle(now, own, update, freq) == NextWindow(now, update, freq) <==> update <= now < update + 10
    ensures now < update ==> AfterIdle(now, own, update, freq) == NextWindow(now, update, freq) + freq
    ensures now >= update + 10 ==> AfterIdle(now, own, update, freq) <= now < NextWindow(now, update, freq)
  {
    WindowAhead(now, update, freq);
  }

  /** With HZ at 100, a CPU that wakes in tick 20, after its own sample at 10 and long before the
      next at 511, will not sample before 1012. */
  lemma {:induction false} SkipsASample()
    ensures var freq := 5 * 100 + 1; AfterIdle(20, 10, 511, freq) == 1012 && NextWindow(20, 511, freq) == 511
  {
    assert !(20 < 10);
  }

  function Exp(k: nat): (e: nat)
    requires k < 3
    ensures e <= FIXED_1
  {
    if k == 0 then EXP_1 else if k == 1 then EXP_5 else EXP_15
  }

  /** The active count as the averages see it. */
  function Active(tasks: int): nat {
    if tasks > 0 then (tasks * FIXED_1) % ULONG else 0
  }

  /** An average moves towards the number of active tasks, in units of 1/2048: one that stands there
      stays, any other ends up between; with nothing active it decays. */
  ghost predicate Towards(load: nat, tasks: int, r: nat) {
    load < 1024 * 2048 && tasks < 1024 ==>
      if tasks <= 0 then r <= load
      else if load <= tasks * 2048 then load <= r <= tasks * 2048 else tasks * 2048 <= r <= load
  }

  /** In one step it keeps exp of 2048 parts of itself, and takes the others from what is active. */
  ghost predicate Stepped(load: nat, exp: nat, tasks: int, r: nat) {
    load < 1024 * 2048 && tasks < 1024 ==>
      if tasks <= 0 then r == (load * exp + 1024) / 2048
      else r == (load * exp + (tasks * 2048) * (2048 - exp) + 1024) / 2048
  }

  lemma ActiveTasks(tasks: int)
    requires tasks < 1024
    ensures Active(tasks) == if tasks > 0 then tasks * 2048 else 0
    ensures Active(tasks) < LIMIT == 1024 * 2048
  {
  }

  lemma {:induction false} StepsTowards(load: nat, exp: nat, tasks: int)
    requires exp <= FIXED_1
    ensures
      var r := CalcLoad(load, exp, Active(tasks));
      Stepped(load, exp, tasks, r) && Towards(load, tasks, r)
  {
    hide CalcLoad, Active, Mix;
    if load < 1024 * 2048 && tasks < 1024 {
      ActiveTasks(tasks);
      CalcLoadFits(load, exp, Active(tasks));
      CalcLoadBetween(load, exp, Active(tasks));
      MixParts(load, exp, Active(tasks));
    }
  }

  lemma MixParts(load: nat, exp: nat, active: nat)
    requires exp <= FIXED_1
    ensures Mix(load, exp, active) == load * exp + active * (2048 - exp)
    ensures active == 0 ==> Mix(load, exp, active) == load * exp
  {
  }

  lemma {:induction false} BulkTowards(load: nat, exp: nat, tasks: int, n: nat)
    requires exp <= FIXED_1
    ensures Towards(load, tasks, CalcLoadN(load, exp, Active(tasks), n))
  {
    hide CalcLoadN, Active;
    if load < 1024 * 2048 && tasks < 1024 {
      ActiveTasks(tasks);
      CalcLoadNBetween(load, exp, Active(tasks), n);
    }
  }

  /** Each CPU's runnable and uninterruptible tasks. */
  ghost function Counts(running: seq<nat>, uninterruptible: seq<int>): (r: seq<int>)
    requires |running| == |uninterruptible|
    ensures |r| == |running|
  {
    seq(|running|, c requires 0 <= c < |running| => running[c] + uninterruptible[c])
  }

  class LoadBooks {
    const cpus: nat
    const freq: nat                   // LOAD_FREQ, 5 * HZ + 1
    var jiffies: nat
    var calcLoadUpdate: nat
    var calcLoadTasks: int
    var calcLoadIdle: seq<int>
    var calcLoadIdx: nat
    var avenrun: seq<nat>
    var nrRunning: seq<nat>           // the fields of struct rq, by CPU
    var nrUninterruptible: seq<int>
    var calcLoadActive: seq<int>
    var rqUpdate: seq<nat>
    var local: seq<Local>             // what each CPU has in hand
    var fold: Fold                    // and the one CPU in calc_global_load

    ghost predicate Shape()
      reads this
    {
      && freq > 0 && |calcLoadIdle| == 2 && |avenrun| == 3
      && |nrRunning| == |nrUninterruptible| == |calcLoadActive| == |rqUpdate| == |local| == cpus
      && (forall c {:trigger local[c]} :: 0 <= c < cpus ==> local[c].Possible())
      && (fold.Emptied? || fold.Folded? ==> jiffies >= calcLoadUpdate + 10)
    }

    /** Every folded count is in one of the three counters or in somebody's hands. */
    ghost predicate Valid()
      reads this
    {
      && Shape()
      && calcLoadTasks + calcLoadIdle[0] + calcLoadIdle[1] + InFlight(local) + fold.Carried() == Sum(calcLoadActive)
    }

    /** The idle counter that is not being written outside a window is empty there, and the
        one being folded stays empty until the index moves on. */
    ghost predicate Apart()
      reads this
      requires Shape()
    {
      if fold.Resting? then jiffies < calcLoadUpdate ==> calcLoadIdle[(calcLoadIdx + 1) % 2] == 0
      else calcLoadIdle[calcLoadIdx % 2] == 0
    }

    /** An addition to this counter leaves the two apart. */
    ghost predicate KeepsApart(slot: nat)
      reads this
    {
      if fold.Resting? then jiffies < calcLoadUpdate ==> slot == calcLoadIdx % 2
      else slot != calcLoadIdx % 2
    }

    constructor (n: nat, hz: nat, now: nat)
      requires hz > 0
      ensures Valid() && Apart() && cpus == n && freq == 5 * hz + 1
      ensures fold.Resting? && forall c :: 0 <= c < n ==> local[c].Quiet?
      ensures calcLoadUpdate == now + freq && jiffies == now
      ensures calcLoadTasks == 0 && calcLoadIdle == [0, 0] && calcLoadIdx == 0 && avenrun == [0, 0, 0]
      ensures forall c :: 0 <= c < n ==>
        nrRunning[c] == 0 && nrUninterruptible[c] == 0 && calcLoadActive[c] == 0 && rqUpdate[c] == now + freq
    {
      cpus, freq := n, 5 * hz + 1;
      jiffies, calcLoadUpdate, calcLoadTasks := now, now + 5 * hz + 1, 0;
      calcLoadIdle, calcLoadIdx, avenrun := [0, 0], 0, [0, 0, 0];
      nrRunning, nrUninterruptible := seq(n, i => 0), seq(n, i => 0);
      calcLoadActive, rqUpdate := seq(n, i => 0), seq(n, i => now + 5 * hz + 1);
      local, fold := seq(n, i => Quiet), Resting;
      new;
      SumZero(calcLoadActive);
      SumZero(Deltas(local));
    }

    /** With nothing in flight the three counters add up to what the CPUs last reported; and
        if each has reported since its count changed, to the machine's active tasks. */
    lemma Balanced()
      requires Valid() && !fold.Emptied? && forall c :: 0 <= c < cpus ==> local[c].Quiet?
      ensures calcLoadTasks + calcLoadIdle[0] + calcLoadIdle[1] == Sum(calcLoadActive)
      ensures (forall c :: 0 <= c < cpus ==> calcLoadActive[c] == nrRunning[c] + nrUninterruptible[c]) ==>
        calcLoadTasks + calcLoadIdle[0] + calcLoadIdle[1] == Sum(Counts(nrRunning, nrUninterruptible))
    {
      SumZero(Deltas(local));
      if forall c :: 0 <= c < cpus ==> calcLoadActive[c] == nrRunning[c] + nrUninterruptible[c] {
        assert calcLoadActive == Counts(nrRunning, nrUninterruptible);
      }
    }

    /** Time passes. */
    method Tick()
      requires Valid()
      modifies `jiffies
      ensures Valid() && jiffies == old(jiffies) + 1
      ensures old(Apart()) ==> Apart()
    {
      jiffies := jiffies + 1;
    }

    /** The scheduler changes a run queue's counts behind the averages' back. */
    method Reschedule(c: nat, running: nat, uninterruptible: int)
      requires Valid() && c < cpus
      modifies `nrRunning, `nrUninterruptible
      ensures Valid()
      ensures nrRunning == old(nrRunning)[c := running]
      ensures nrUninterruptible == old(nrUninterruptible)[c := uninterruptible]
    {
      nrRunning, nrUninterruptible := nrRunning[c := running], nrUninterruptible[c := uninterruptible];
    }

    /** calc_load_fold_active: the CPU's count is brought up to date, the change is returned. */
    method FoldActive(c: nat) returns (delta: int)
      requires Shape() && c < cpus
      modifies `calcLoadActive
      ensures calcLoadActive == old(calcLoadActive)[c := nrRunning[c] + nrUninterruptible[c]]
      ensures Sum(calcLoadActive) == old(Sum(calcLoadActive)) + delta
    {
      delta := 0;
      var nrActive := nrRunning[c] + nrUninterruptible[c];
      SumUpdate(calcLoadActive, c, nrActive);
      if nrActive != calcLoadActive[c] {
        delta := nrActive - calcLoadActive[c];
        calcLoadActive := calcLoadActive[c := nrActive];
      } else {
        assert calcLoadActive == calcLoadActive[c := nrActive];
      }
    }

    /** calc_load_account_active up to the addition */
    method AccountActive(c: nat)
      requires Valid() && c < cpus && local[c].Quiet?
      modifies `calcLoadActive, `local
      ensures Valid()
      ensures if jiffies < rqUpdate[c] then local == old(local) && calcLoadActive == old(calcLoadActive)
              else && calcLoadActive == old(calcLoadActive)[c := nrRunning[c] + nrUninterruptible[c]]
                   && local == old(local)[c := Ticking(calcLoadActive[c] - old(calcLoadActive[c]))]
    {
      if jiffies < rqUpdate[c] {
        return;
      }
      SumUpdate(calcLoadActive, c, nrRunning[c] + nrUninterruptible[c]);
      var delta := FoldActive(c);
      InFlightUpdate(local, c, Ticking(delta));
      local := local[c := Ticking(delta)];
    }

    method AccountAdd(c: nat)
      requires Valid() && c < cpus && local[c].Ticking?
      modifies `calcLoadTasks, `rqUpdate, `local
      ensures Valid() && calcLoadTasks == old(calcLoadTasks) + old(local[c].delta)
      ensures local == old(local)[c := Quiet] && rqUpdate == old(rqUpdate)[c := old(rqUpdate[c]) + freq]
    {
      if local[c].delta != 0 {
        calcLoadTasks := calcLoadTasks + local[c].delta;
      }
      InFlightUpdate(local, c, Quiet);
      rqUpdate := rqUpdate[c := rqUpdate[c] + freq];
      local := local[c := Quiet];
    }

    /** calc_load_enter_idle folds, */
    method EnterIdle(c: nat)
      requires Valid() && c < cpus && local[c].Quiet?
      modifies `calcLoadActive, `local
      ensures Valid()
      ensures calcLoadActive == old(calcLoadActive)[c := nrRunning[c] + nrUninterruptible[c]]
      ensures var delta := calcLoadActive[c] - old(calcLoadActive[c]);
              local == old(local)[c := if delta == 0 then Quiet else Idling(delta)]
    {
      SumUpdate(calcLoadActive, c, nrRunning[c] + nrUninterruptible[c]);
      var delta := FoldActive(c);
      var next := if delta == 0 then Quiet else Idling(delta);
      InFlightUpdate(local, c, next);
      local := local[c := next];
    }

    /** reads the index, */
    method ReadIdx(c: nat)
      requires Valid() && c < cpus && local[c].Idling?
      modifies `local
      ensures Valid() && local == old(local)[c := Indexed(old(local[c].delta), calcLoadIdx)]
    {
      var next := Indexed(local[c].delta, calcLoadIdx);
      InFlightUpdate(local, c, next);
      local := local[c := next];
    }

    /** moves to the other counter if the window has opened: whatever index it read, that is the
        right counter for now just if it is the one in use, or, once a fold has begun, is not
        the one being folded, */
    method ChooseSlot(c: nat)
      requires Valid() && c < cpus && local[c].Indexed?
      modifies `local
      ensures Valid()
      ensures local == old(local)[c := Slotted(old(local[c].delta),
        if jiffies < calcLoadUpdate then old(local[c].idx) % 2 else (old(local[c].idx) + 1) % 2)]
      ensures KeepsApart(local[c].slot) <==>
        if fold.Resting? then jiffies >= calcLoadUpdate || old(local[c].idx) % 2 == calcLoadIdx % 2
        else jiffies >= calcLoadUpdate <==> old(local[c].idx) % 2 == calcLoadIdx % 2
    {
      var idx := local[c].idx;
      if !(jiffies < calcLoadUpdate) {
        idx := idx + 1;
      }
      var next := Slotted(local[c].delta, idx % 2);
      InFlightUpdate(local, c, next);
      local := local[c := next];
    }

    /** and adds. The counters stay apart if and only if the addition goes to the right one then. */
    method AddIdle(c: nat)
      requires Valid() && c < cpus && local[c].Slotted?
      modifies `calcLoadIdle, `local
      ensures Valid() && local == old(local)[c := Quiet]
      ensures var slot := old(local[c].slot);
              calcLoadIdle == old(calcLoadIdle)[slot := old(calcLoadIdle[slot]) + old(local[c].delta)]
      ensures old(Apart()) ==> (Apart() <==> KeepsApart(old(local[c].slot)))
    {
      var slot := local[c].slot;
      InFlightUpdate(local, c, Quiet);
      calcLoadIdle := calcLoadIdle[slot := calcLoadIdle[slot] + local[c].delta];
      local := local[c := Quiet];
    }

    method ExitIdle(c: nat)
      requires Valid() && c < cpus
      modifies `rqUpdate
      ensures Valid()
      ensures rqUpdate == old(rqUpdate)[c := AfterIdle(jiffies, old(rqUpdate[c]), calcLoadUpdate, freq)]
      ensures jiffies < old(rqUpdate[c]) ==> rqUpdate == old(rqUpdate)
      ensures jiffies >= old(rqUpdate[c]) ==>
        rqUpdate[c] == if jiffies < calcLoadUpdate + 10 then calcLoadUpdate + freq else calcLoadUpdate
    {
      if jiffies < rqUpdate[c] {
        assert rqUpdate == rqUpdate[c := rqUpdate[c]];
        return;
      }
      rqUpdate := rqUpdate[c := calcLoadUpdate];
      if jiffies < rqUpdate[c] + 10 {
        rqUpdate := rqUpdate[c := rqUpdate[c] + freq];
      }
    }

    /** calc_global_load: takes the old idle counter, */
    method FoldIdle()
      requires Valid() && fold.Resting?
      modifies `calcLoadIdle, `fold
      ensures Valid()
      ensures jiffies < calcLoadUpdate + 10 ==> fold.Resting? && calcLoadIdle == old(calcLoadIdle)
      ensures jiffies >= calcLoadUpdate + 10 ==>
        && fold == Emptied(old(calcLoadIdle[calcLoadIdx % 2]))
        && calcLoadIdle == old(calcLoadIdle)[calcLoadIdx % 2 := 0]
      ensures old(Apart()) ==> Apart()
    {
      if jiffies < calcLoadUpdate + 10 {
        return;
      }
      var idx := calcLoadIdx % 2;
      var delta := 0;
      if calcLoadIdle[idx] != 0 {
        delta := calcLoadIdle[idx];
        calcLoadIdle := calcLoadIdle[idx := 0];
      } else {
        assert calcLoadIdle == calcLoadIdle[idx := 0];
      }
      fold := Emptied(delta);
    }

    /** adds it, */
    method FoldAdd()
      requires Valid() && fold.Emptied?
      modifies `calcLoadTasks, `fold
      ensures Valid() && fold.Folded? && calcLoadTasks == old(calcLoadTasks) + old(fold.delta)
      ensures old(Apart()) ==> Apart()
    {
      if fold.delta != 0 {
        calcLoadTasks := calcLoadTasks + fold.delta;
      }
      fold := Folded;
    }

    /** takes one step, */
    method Sample()
      requires Valid() && fold.Folded?
      modifies `avenrun, `calcLoadUpdate, `fold
      ensures Valid() && fold.Sampled? && calcLoadUpdate == old(calcLoadUpdate) + freq
      ensures forall k :: 0 <= k < 3 ==> avenrun[k] == CalcLoad(old(avenrun[k]), Exp(k), Active(calcLoadTasks))
      ensures Stepped(old(avenrun[0]), 1884, calcLoadTasks, avenrun[0])
      ensures Stepped(old(avenrun[1]), 2014, calcLoadTasks, avenrun[1])
      ensures Stepped(old(avenrun[2]), 2037, calcLoadTasks, avenrun[2])
      ensures forall k :: 0 <= k < 3 ==> Towards(old(avenrun[k]), calcLoadTasks, avenrun[k])
      ensures old(Apart()) ==> Apart()
    {
      hide Stepped, Towards, CalcLoad, Active;
      forall k | 0 <= k < 3
        ensures Stepped(avenrun[k], Exp(k), calcLoadTasks, CalcLoad(avenrun[k], Exp(k), Active(calcLoadTasks)))
        ensures Towards(avenrun[k], calcLoadTasks, CalcLoad(avenrun[k], Exp(k), Active(calcLoadTasks)))
      {
        StepsTowards(avenrun[k], Exp(k), calcLoadTasks);
      }
      var active := Active(calcLoadTasks);
      avenrun := [CalcLoad(avenrun[0], EXP_1, active),
                  CalcLoad(avenrun[1], EXP_5, active),
                  CalcLoad(avenrun[2], EXP_15, active)];
      calcLoadUpdate := calcLoadUpdate + freq;
      fold := Sampled;
    }

    /** and the ones that were missed, at once: time ends up where repeating the single step
        would leave it, and so do the averages, nearly, as long as nothing wraps, */
    method CatchUp()
      requires Valid() && fold.Sampled?
      modifies `avenrun, `calcLoadUpdate, `fold
      ensures Valid() && fold.Timed?
      ensures calcLoadUpdate == Advance(jiffies, old(calcLoadUpdate), freq) && jiffies < calcLoadUpdate + 10
      ensures jiffies < old(calcLoadUpdate) + 10 ==> avenrun == old(avenrun) && calcLoadUpdate == old(calcLoadUpdate)
      ensures jiffies >= old(calcLoadUpdate) + 10 ==> calcLoadUpdate + 10 <= jiffies + freq
      ensures forall k :: 0 <= k < 3 ==> Towards(old(avenrun[k]), calcLoadTasks, avenrun[k])
      ensures jiffies >= old(calcLoadUpdate) + 10 ==>
        var n := Missed(jiffies, old(calcLoadUpdate), freq);
        var active := Active(calcLoadTasks);
        && (forall k :: 0 <= k < 3 ==> avenrun[k] == CalcLoadN(old(avenrun[k]), Exp(k), active, n))
        && (forall k :: 0 <= k < 3 && old(avenrun[k]) < LIMIT && active < LIMIT ==>
              Close(avenrun[k] as real,
                    AdvanceLoad(jiffies, old(calcLoadUpdate), freq, old(avenrun[k]), Exp(k), active) as real,
                    Spread(old(avenrun[k]), active, n)))
      ensures old(Apart()) ==> Apart()
    {
      hide CalcLoadN, AdvanceLoad, Close, Spread, InFlight, Sum, Active;
      if !(jiffies < calcLoadUpdate + 10) {
        var n := Missed(jiffies, calcLoadUpdate, freq);
        var active := Active(calcLoadTasks);
        CatchUpTime(jiffies, calcLoadUpdate, freq);
        forall k | 0 <= k < 3 && avenrun[k] < LIMIT && active < LIMIT
          ensures Close(CalcLoadN(avenrun[k], Exp(k), active, n) as real,
                        AdvanceLoad(jiffies, calcLoadUpdate, freq, avenrun[k], Exp(k), active) as real,
                        Spread(avenrun[k], active, n))
        {
          CatchUpLoad(jiffies, calcLoadUpdate, freq, avenrun[k], Exp(k), active);
        }
        forall k | 0 <= k < 3 ensures Towards(avenrun[k], calcLoadTasks, CalcLoadN(avenrun[k], Exp(k), active, n)) {
          BulkTowards(avenrun[k], Exp(k), calcLoadTasks, n);
        }
        avenrun := [CalcLoadN(avenrun[0], EXP_1, active, n),
                    CalcLoadN(avenrun[1], EXP_5, active, n),
                    CalcLoadN(avenrun[2], EXP_15, active, n)];
        calcLoadUpdate := calcLoadUpdate + n * freq;
      }
      fold := Timed;
    }

    /** and moves the index on. */
    method Flip()
      requires Valid() && fold.Timed?
      modifies `calcLoadIdx, `fold
      ensures Valid() && fold.Resting? && calcLoadIdx == old(calcLoadIdx) + 1
      ensures old(Apart()) ==> Apart()
    {
      calcLoadIdx := calcLoadIdx + 1;
      fold := Resting;
    }

    /** A CPU goes down: what it reported is withdrawn. */
    method GlobalLoadRemove(c: nat)
      requires Valid() && c < cpus && local[c].Quiet?
      modifies `calcLoadTasks, `calcLoadActive
      ensures Valid() && calcLoadActive == old(calcLoadActive)[c := 0]
      ensures calcLoadTasks == old(calcLoadTasks) - old(calcLoadActive[c])
    {
      SumUpdate(calcLoadActive, c, 0);
      calcLoadTasks := calcLoadTasks - calcLoadActive[c];
      calcLoadActive := calcLoadActive[c := 0];
    }
  }

  // ------------------------------------------------------------------
  // Runs that mix the counters
  // ------------------------------------------------------------------

  /** One CPU at HZ 100, with one task that its last sample does not know of */
  method OneBusyCpu() returns (b: LoadBooks)
    ensures b.Valid() && b.Apart() && b.cpus == 1 && b.freq == 501 && b.calcLoadIdx == 0 && fresh(b)
    ensures b.fold.Resting? && b.local == [Quiet] && b.jiffies == 0 && b.calcLoadUpdate == 501
    ensures b.calcLoadIdle == [0, 0] && b.nrRunning == [1] && b.nrUninterruptible == [0] && b.calcLoadActive == [0]
    ensures b.rqUpdate == [501]
  {
    b := new LoadBooks(1, 100, 0);
    b.Reschedule(0, 1, 0);
    assert b.nrRunning == [1] && b.nrUninterruptible == [0] && b.local == [Quiet] && b.rqUpdate == [501];
  }

  method TickUntil(b: LoadBooks, time: nat)
    requires b.Valid() && b.Apart() && b.jiffies <= time
    modifies b`jiffies
    ensures b.Valid() && b.Apart() && b.jiffies == time
  {
    while b.jiffies < time
      invariant b.Valid() && b.Apart() && b.jiffies <= time
      decreases time - b.jiffies
    {
      b.Tick();
    }
  }

  /** It goes idle as far as reading the index. */
  method GoingIdle() returns (b: LoadBooks)
    ensures b.Valid() && b.Apart() && b.cpus == 1 && b.freq == 501 && b.calcLoadIdx == 0 && fresh(b)
    ensures b.fold.Resting? && b.local == [Indexed(1, 0)] && b.jiffies == 0 && b.calcLoadUpdate == 501
    ensures b.calcLoadIdle == [0, 0] && b.rqUpdate == [501]
    ensures b.nrRunning == [1] && b.nrUninterruptible == [0] && b.calcLoadActive == [1]
  {
    hide InFlight, Sum;
    b := OneBusyCpu();
    b.EnterIdle(0);
    b.ReadIdx(0);
    assert b.local == [Indexed(1, 0)];
  }

  /** The global update takes its step, and the new time is set. */
  method FoldAndSample(b: LoadBooks)
    requires b.Valid() && b.Apart() && b.fold.Resting? && b.jiffies >= b.calcLoadUpdate + 10
    requires b.calcLoadIdle == [0, 0]
    modifies b`calcLoadIdle, b`calcLoadTasks, b`avenrun, b`calcLoadUpdate, b`fold
    ensures b.Valid() && b.Apart() && b.fold.Sampled? && b.calcLoadIdle == [0, 0]
    ensures b.calcLoadUpdate == old(b.calcLoadUpdate) + b.freq
  {
    hide InFlight, Sum, CalcLoad, Active;
    b.FoldIdle();
    b.FoldAdd();
    b.Sample();
  }

  /** The counter was right when it was chosen; by the time of the addition it is being folded. */
  method LateAddition() returns (b: LoadBooks)
    ensures b.Valid() && !b.Apart() && b.fold.Emptied? && b.calcLoadIdle == [1, 0]
  {
    hide InFlight, Sum;
    b := GoingIdle();
    b.ChooseSlot(0);
    assert b.local[0] == Slotted(1, 0) && b.KeepsApart(0);
    TickUntil(b, 511);
    b.FoldIdle();
    b.AddIdle(0);
  }

  /** The new time is set, the index has not moved: the counter just emptied is chosen. */
  method TimeBeforeIndex() returns (b: LoadBooks)
    ensures b.Valid() && !b.Apart() && b.fold.Sampled? && b.calcLoadIdle == [1, 0]
  {
    hide InFlight, Sum;
    b := OneBusyCpu();
    TickUntil(b, 511);
    FoldAndSample(b);
    b.EnterIdle(0);
    b.ReadIdx(0);
    b.ChooseSlot(0);
    assert b.local[0] == Slotted(1, 0);
    b.AddIdle(0);
  }

  /** The index was read before it moved and the time after it was set: outside any window the
      change goes to the counter that is not in use, and waits there for a whole period. */
  method IndexBeforeFlip() returns (b: LoadBooks)
    ensures b.Valid() && !b.Apart() && b.fold.Resting? && b.calcLoadIdx == 1 && b.calcLoadIdle == [1, 0]
  {
    hide InFlight, Sum, CalcLoadN, Missed, AdvanceLoad, Close, Spread, Active;
    b := GoingIdle();
    TickUntil(b, 511);
    FoldAndSample(b);
    b.CatchUp();
    b.Flip();
    b.ChooseSlot(0);
    assert b.local[0] == Slotted(1, 0);
    b.AddIdle(0);
  }

  // ------------------------------------------------------------------
  // Runs out of step after idle
  // ------------------------------------------------------------------

  /** A CPU that went idle at once, and stays so until the window has closed */
  method AsleepUntil511() returns (b: LoadBooks)
    ensures b.Valid() && b.cpus == 1 && b.freq == 501 && fresh(b) && b.fold.Resting? && b.local == [Quiet]
    ensures b.jiffies == 511 && b.calcLoadUpdate == 501 && b.rqUpdate == [501]
    ensures b.nrRunning == [1] && b.nrUninterruptible == [0] && b.calcLoadActive == [1]
  {
    hide InFlight, Sum;
    b := GoingIdle();
    b.ChooseSlot(0);
    b.AddIdle(0);
    assert b.local == [Quiet];
    TickUntil(b, 511);
  }

  /** Nobody has moved the update time when it wakes: instead of skipping the window it samples
      at once. */
  method SamplesAtOnce() returns (b: LoadBooks)
    ensures b.Valid() && b.jiffies == 511 && b.calcLoadUpdate == 501 && b.rqUpdate == [501]
    ensures NextWindow(511, 501, 501) == 1002 && b.local == [Ticking(1)]
  {
    hide InFlight, Sum, NextWindow;
    b := AsleepUntil511();
    b.ExitIdle(0);
    assert b.rqUpdate == [501];
    b.Reschedule(0, 2, 0);
    b.AccountActive(0);
    assert b.local == [Ticking(1)];
    WindowAhead(511, 501, 501);
  }

  /** It wakes just after the update time has been moved to 1002: it will not sample before
      1503. */
  method SkipsTwoWindows() returns (b: LoadBooks)
    ensures b.Valid() && b.jiffies == 511 && b.calcLoadUpdate == 1002 && b.rqUpdate == [1503]
    ensures NextWindow(511, 1002, 501) == 1002
  {
    hide InFlight, Sum, CalcLoad, Active;
    b := AsleepUntil511();
    b.FoldIdle();
    b.FoldAdd();
    b.Sample();
    b.ExitIdle(0);
    assert b.rqUpdate == [1503];
  }
}
