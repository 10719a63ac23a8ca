/** The shares of the weighted round robin class over runs of the machine: on a CPU that its tasks
    have to themselves the rounds of WrrRound take place, whatever the other CPUs do. */
module WrrShares {
  import Sequences

  import opened WrrRound
  import opened WrrBooks
  import opened WrrSteps
  import opened WrrWaiting

  /** CPU c runs the first task of its list. */
  ghost predicate HeadRuns(m: State, c: nat) {
    c < |m.rqs| && c < |m.curr| && |m.rqs[c].queue| > 0 && m.curr[c] == m.rqs[c].queue[0]
  }

  /** The step ticks CPU c, which may then be rescheduled, or leaves its list and its running task
      alone. */
  predicate KeepsTo(m: State, op: Op, c: nat) {
    c < |m.rqs| && c < |m.curr| &&
    match op
    case TickOn(d, preempts) => d == c ==> preempts
    case Replace(p, t, _) => p !in m.rqs[c].queue && !(t.onRq && t.wrrClass && t.cpu == c)
    case Requeue(p, _) => p !in m.rqs[c].queue
    case Switch(d, to) => d == c ==> to == m.curr[c]
    case _ => true
  }

  /** The list of CPU c as the round-robin rules see it */
  ghost function ViewOf(s: Setup, m: State, c: nat): (q: Queue)
    requires Sound(s, m) && c < s.cpus
    ensures c < |m.rqs| && |q| == |m.rqs[c].queue| && Good(q, s.hz) && Distinct(q)
  {
    ViewGood(s, m.tasks, m.rqs[c], c);
    View(m.tasks, m.rqs[c].queue)
  }

  lemma {:induction false} ViewSame(s: Setup, m: State, m': State, c: nat)
    requires Sound(s, m) && Sound(s, m') && c < s.cpus && HeadRuns(m, c)
    requires m'.rqs[c].queue == m.rqs[c].queue && m'.curr[c] == m.curr[c]
    requires forall p {:trigger p in m.rqs[c].queue} :: p in m.rqs[c].queue ==>
      && p < |m.tasks| && p < |m'.tasks|
      && m'.tasks[p].weight == m.tasks[p].weight && m'.tasks[p].slice == m.tasks[p].slice
    ensures HeadRuns(m', c) && ViewOf(s, m', c) == ViewOf(s, m, c)
  {
    hide Sound;
    SoundQueue(s, m, c);
    SoundQueue(s, m', c);
    var q := m.rqs[c].queue;
    forall i | 0 <= i < |q| ensures ViewOf(s, m', c)[i] == ViewOf(s, m, c)[i] {
      assert q[i] in q;
    }
  }

  /** What happens elsewhere does not show. */
  lemma {:induction false} ElsewhereStays(s: Setup, m: State, op: Op, c: nat)
    requires Sound(s, m) && Allowed(s, m, op) && c < s.cpus && HeadRuns(m, c)
    requires KeepsTo(m, op, c) && Charged(op, c) == 0
    ensures Sound(s, After(s, m, op)) && HeadRuns(After(s, m, op), c)
    ensures ViewOf(s, After(s, m, op), c) == ViewOf(s, m, c)
  {
    hide Sound, TaskOk, TickedTask, TickedQueue, Replaced;
    AfterKeeps(s, m, op);
    SoundQueue(s, m, c);
    match op
    case TickOn(d, preempts) =>
      SoundQueue(s, m, d);
      ViewSame(s, m, After(s, m, op), c);
    case Replace(p, t, head) =>
      ReplacedQueue(s, m, p, t, head, c);
      SameCurr(s, m, p, t, head);
      Sequences.WithoutMembers(m.rqs[c].queue, p);
      ViewSame(s, m, After(s, m, op), c);
    case Requeue(p, head) => ViewSame(s, m, After(s, m, op), c);
    case Affine(p, allowed) => ViewSame(s, m, After(s, m, op), c);
    case Fork(t) => ViewSame(s, m, After(s, m, op), c);
    case Switch(d, to) => ViewSame(s, m, After(s, m, op), c);
  }

  /** A tick is the round-robin step, and the first task of the list goes on or takes over. */
  lemma {:induction false} TickIsRound(s: Setup, m: State, c: nat)
    requires Sound(s, m) && c < s.cpus && HeadRuns(m, c)
    ensures RunsHere(m, c) && Sound(s, Ticked(s, m, c, true)) && HeadRuns(Ticked(s, m, c, true), c)
    ensures |ViewOf(s, m, c)| > 0
    ensures ViewOf(s, Ticked(s, m, c, true), c) == Tick(ViewOf(s, m, c), s.hz)
  {
    hide RqOk, Quota, MovedTo;
    SoundQueue(s, m, c);
    assert m.rqs[c].queue[0] in m.rqs[c].queue;
    TickedKeeps(s, m, c, true);
    TickedView(s, m.tasks, m.rqs[c], c);
    Alone(m.rqs[c].queue);
  }

  lemma Alone(q: seq<nat>)
    requires |q| > 0 && Sequences.NoDuplicates(q)
    ensures |MovedTo(q, q[0], false)| == |q|
    ensures |q| == 1 ==> MovedTo(q, q[0], false) == q
  {
    Sequences.WithoutLength(q, q[0]);
    if |q| == 1 {
      assert Sequences.Without(q, q[0]) == [];
    }
  }

  // ------------------------------------------------------------------
  // Runs
  // ------------------------------------------------------------------

  /** Who ran on CPU c at each tick charged to it */
  ghost function RanOn(run: seq<State>, ops: seq<Op>, c: nat, n: nat): seq<nat>
    requires n <= |ops| && |run| == |ops| + 1
  {
    if n == 0 then [] else
      var now := if Charged(ops[n - 1], c) == 1 && RunsHere(run[n - 1], c) then [run[n - 1].curr[c] as nat] else [];
      RanOn(run, ops, c, n - 1) + now
  }

  /** CPU c has its first task running, and every step ticks it, with rescheduling, or leaves its
      list and its running task alone. */
  ghost predicate OnlyTicked(run: seq<State>, ops: seq<Op>, c: nat) {
    && |run| == |ops| + 1 && HeadRuns(run[0], c)
    && forall i {:trigger ops[i]} :: 0 <= i < |ops| ==> KeepsTo(run[i], ops[i], c)
  }

  lemma {:induction false} FirstView(s: Setup, run: seq<State>, ops: seq<Op>, c: nat)
    requires IsRun(s, run, ops) && c < s.cpus && OnlyTicked(run, ops, c)
    ensures Sound(s, run[0]) && |ViewOf(s, run[0], c)| > 0 && Good(ViewOf(s, run[0], c), s.hz)
  {
    hide Sound;
    SoundQueue(s, run[0], c);
  }

  /** The run is one of the round-robin rules. */
  lemma {:induction false} RunIsTicks(s: Setup, run: seq<State>, ops: seq<Op>, c: nat, n: nat)
    requires IsRun(s, run, ops) && c < s.cpus && OnlyTicked(run, ops, c) && n <= |ops|
    ensures Sound(s, run[0]) && Sound(s, run[n]) && HeadRuns(run[n], c) && |ViewOf(s, run[0], c)| > 0
    ensures ViewOf(s, run[n], c) == Ticks(ViewOf(s, run[0], c), s.hz, Charges(ops, c, n))
    ensures RanOn(run, ops, c, n) == Ran(ViewOf(s, run[0], c), s.hz, Charges(ops, c, n))
  {
    hide Sound, After, Allowed, KeepsTo, HeadRuns, ViewOf, Ticks, Ran, Tick, Good, Distinct;
    FirstView(s, run, ops, c);
    var q := ViewOf(s, run[0], c);
    if n == 0 {
      NoTicks(q, s.hz);
    } else {
      RunIsTicks(s, run, ops, c, n - 1);
      assert Step(s, run[n - 1], ops[n - 1], run[n]) && KeepsTo(run[n - 1], ops[n - 1], c);
      StepIsTick(s, run[n - 1], ops[n - 1], c);
      if Charged(ops[n - 1], c) == 1 {
        OneTick(q, s.hz, Charges(ops, c, n - 1));
      }
    }
  }

  lemma {:induction false} StepIsTick(s: Setup, m: State, op: Op, c: nat)
    requires Sound(s, m) && Allowed(s, m, op) && c < s.cpus && HeadRuns(m, c) && KeepsTo(m, op, c)
    ensures Sound(s, After(s, m, op)) && HeadRuns(After(s, m, op), c) && |ViewOf(s, m, c)| > 0
    ensures Charged(op, c) == 0 ==> ViewOf(s, After(s, m, op), c) == ViewOf(s, m, c)
    ensures Charged(op, c) == 1 ==>
      && ViewOf(s, After(s, m, op), c) == Tick(ViewOf(s, m, c), s.hz)
      && RunsHere(m, c) && m.curr[c] == ViewOf(s, m, c)[0].id
  {
    hide Sound, Ticked, Tick, TaskOk;
    if Charged(op, c) == 0 {
      ElsewhereStays(s, m, op, c);
    } else {
      TickIsRound(s, m, c);
    }
    SoundQueue(s, m, c);
  }

  lemma {:induction false} OneTick(q: Queue, hz: nat, n: nat)
    requires |q| > 0 && Good(q, hz)
    ensures |Ticks(q, hz, n)| > 0
    ensures Ticks(q, hz, n + 1) == Tick(Ticks(q, hz, n), hz)
    ensures Ran(q, hz, n + 1) == Ran(q, hz, n) + [Ticks(q, hz, n)[0].id]
  {
    hide Tick, Good;
    TicksAdd(q, hz, n, 1);
    var r := Ticks(q, hz, n);
    TickKeepsGood(r, hz);
    NoTicks(Tick(r, hz), hz);
    assert Ticks(r, hz, 1) == Ticks(Tick(r, hz), hz, 0) && Ran(r, hz, 1) == [r[0].id] + Ran(Tick(r, hz), hz, 0);
  }

  /** How many of the ticks were the task's */
  ghost function TicksOf(run: seq<State>, ops: seq<Op>, c: nat, n: nat, p: nat): nat
    requires n <= |ops| && |run| == |ops| + 1
  {
    Times(RanOn(run, ops, c, n), p)
  }

  ghost function SlicesOn(s: Setup, m: State, c: nat): nat
    requires Sound(s, m) && c < s.cpus
  {
    Slices(ViewOf(s, m, c))
  }

  /** Once as many ticks are charged as the slices add up to, every task has run the slice it had,
      the list is as it was, and all slices are full. */
  lemma {:induction false} RoundOnCpu(s: Setup, run: seq<State>, ops: seq<Op>, c: nat, n: nat, i: nat)
    requires IsRun(s, run, ops) && c < s.cpus && OnlyTicked(run, ops, c) && n <= |ops|
    requires Charges(ops, c, n) == SlicesOn(s, run[0], c) && i < |run[0].rqs[c].queue|
    ensures c < |run[n].rqs| && run[n].rqs[c].queue == run[0].rqs[c].queue
    ensures
      var p := run[0].rqs[c].queue[i];
      && p < |run[0].tasks| && p < |run[n].tasks| && run[n].tasks[p].weight == run[0].tasks[p].weight
      && run[n].tasks[p].slice == Quota(run[0].tasks[p].weight, s.hz)
      && TicksOf(run, ops, c, n, p) == run[0].tasks[p].slice
  {
    hide IsRun, KeepsTo, Ticks, Ran, RanOn, Times, Slices, Good, Distinct, RqOk, Charges, Quota, HeadRuns;
    RunIsTicks(s, run, ops, c, n);
    var q := ViewOf(s, run[0], c);
    Round(q, s.hz);
    SameList(s, run[0], run[n], c);
    assert Times(RanOn(run, ops, c, n), q[i].id) == q[i].slice;
    assert ViewOf(s, run[n], c)[i] == Renewed(q[i], s.hz);
  }

  lemma {:induction false} SameList(s: Setup, m: State, m': State, c: nat)
    requires Sound(s, m) && Sound(s, m') && c < s.cpus && |ViewOf(s, m', c)| == |ViewOf(s, m, c)|
    requires forall i {:trigger ViewOf(s, m', c)[i]} :: 0 <= i < |ViewOf(s, m, c)| ==>
      ViewOf(s, m', c)[i].id == ViewOf(s, m, c)[i].id
    ensures m'.rqs[c].queue == m.rqs[c].queue
    ensures forall i {:trigger m.rqs[c].queue[i]} :: 0 <= i < |m.rqs[c].queue| ==>
      var p := m.rqs[c].queue[i];
      && p < |m.tasks| && p < |m'.tasks|
      && ViewOf(s, m, c)[i] == Entity(p, m.tasks[p].weight, m.tasks[p].slice)
      && ViewOf(s, m', c)[i] == Entity(p, m'.tasks[p].weight, m'.tasks[p].slice)
  {
    ViewGood(s, m.tasks, m.rqs[c], c);
    ViewGood(s, m'.tasks, m'.rqs[c], c);
    forall i | 0 <= i < |m.rqs[c].queue| ensures m'.rqs[c].queue[i] == m.rqs[c].queue[i] {
      assert ViewOf(s, m', c)[i].id == ViewOf(s, m, c)[i].id;
    }
  }

  ghost predicate AllFull(s: Setup, m: State, c: nat)
    requires Sound(s, m) && c < s.cpus
  {
    Full(ViewOf(s, m, c), s.hz)
  }

  /** From full slices, k rounds give every task exactly k quotas. */
  lemma {:induction false} RoundsOnCpu(s: Setup, run: seq<State>, ops: seq<Op>, c: nat, n: nat, k: nat, i: nat)
    requires IsRun(s, run, ops) && c < s.cpus && OnlyTicked(run, ops, c) && n <= |ops|
    requires AllFull(s, run[0], c)
    requires Charges(ops, c, n) == k * SlicesOn(s, run[0], c) && i < |run[0].rqs[c].queue|
    ensures
      var p := run[0].rqs[c].queue[i];
      && p < |run[0].tasks|
      && TicksOf(run, ops, c, n, p) == k * Quota(run[0].tasks[p].weight, s.hz)
  {
    hide IsRun, KeepsTo, Ticks, Ran, RanOn, Times, Slices, Good, Distinct, RqOk, Charges, Quota, HeadRuns, Full;
    RunIsTicks(s, run, ops, c, n);
    var q := ViewOf(s, run[0], c);
    Rounds(q, s.hz, k);
    SameList(s, run[0], run[0], c);
    assert Times(RanOn(run, ops, c, n), q[i].id) == k * Quota(q[i].weight, s.hz);
  }

  /** So a foreground task of the CPU runs exactly ten times as long as a background one. */
  lemma {:induction false} SharesOnCpu(s: Setup, run: seq<State>, ops: seq<Op>, c: nat, n: nat, k: nat, i: nat, j: nat)
    requires IsRun(s, run, ops) && c < s.cpus && OnlyTicked(run, ops, c) && n <= |ops|
    requires AllFull(s, run[0], c) && Charges(ops, c, n) == k * SlicesOn(s, run[0], c)
    requires i < |run[0].rqs[c].queue| && j < |run[0].rqs[c].queue|
    requires
      var p, o := run[0].rqs[c].queue[i], run[0].rqs[c].queue[j];
      && p < |run[0].tasks| && run[0].tasks[p].weight == FOREGROUND
      && o < |run[0].tasks| && run[0].tasks[o].weight == BACKGROUND
    ensures
      TicksOf(run, ops, c, n, run[0].rqs[c].queue[i]) == 10 * TicksOf(run, ops, c, n, run[0].rqs[c].queue[j])
  {
    hide OnlyTicked, TicksOf, Charges, Quota, RqOk, SlicesOn, AllFull;
    RoundsOnCpu(s, run, ops, c, n, k, i);
    RoundsOnCpu(s, run, ops, c, n, k, j);
    QuotaWeighs(s.hz);
    TenTimes(k, Quota(BACKGROUND, s.hz));
  }

  lemma TenTimes(k: nat, b: nat)
    ensures k * (10 * b) == 10 * (k * b)
  {
  }
}
