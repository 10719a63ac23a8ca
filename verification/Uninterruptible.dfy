/** Tasks in uninterruptible sleep (core.c): a sleep counts on the CPU where the task went to
    sleep and a wakeup on the CPU where it wakes, in unsigned words, and only the sum means
    anything. Each method is one atomic step of the code that holds the locks. */
module Uninterruptible {
  import opened Arithmetic
  import opened Sums

  /** Stopped stands for every other state a task may sleep or end in. */
  datatype TaskState = Running | Interruptible | Uninterruptible | Stopped | Waking

  datatype Task = Task(state: TaskState, frozen: bool, onRq: bool, contributes: bool, cpu: nat)

  /** task_contributes_to_load */
  predicate Contributes(t: Task) {
    t.state.Uninterruptible? && !t.frozen
  }

  /** Blocked and to be counted, or on its way out of such a sleep but not yet activated */
  predicate Counted(t: Task) {
    !t.onRq && (Contributes(t) || (t.state.Waking? && t.contributes))
  }

  function Count(tasks: seq<Task>): nat {
    if |tasks| == 0 then 0 else Count(tasks[..|tasks| - 1]) + (if Counted(tasks[|tasks| - 1]) then 1 else 0)
  }

  lemma {:induction false} CountUpdate(tasks: seq<Task>, p: nat, t: Task)
    requires p < |tasks|
    ensures Count(tasks[p := t]) == Count(tasks) - (if Counted(tasks[p]) then 1 else 0) + (if Counted(t) then 1 else 0)
  {
    var last := |tasks| - 1;
    var tasks' := tasks[p := t];
    if p == last {
      assert tasks'[..last] == tasks[..last];
    } else {
      assert tasks'[..last] == tasks[..last][p := t];
      CountUpdate(tasks[..last], p, t);
    }
  }

  /** In uninterruptible sleep and not frozen, or just woken from such a sleep and not yet on a run queue */
  ghost predicate IsBlocked(t: Task) {
    && !t.onRq
    && ((t.state == Uninterruptible && !t.frozen) || (t.state == Waking && t.contributes))
  }

  ghost function Blocked(tasks: seq<Task>): set<nat> {
    set p | 0 <= p < |tasks| && IsBlocked(tasks[p])
  }

  lemma {:induction false} CountIsBlocked(tasks: seq<Task>)
    ensures Count(tasks) == |Blocked(tasks)|
  {
    hide IsBlocked, Counted;
    if |tasks| > 0 {
      var last := |tasks| - 1;
      CountIsBlocked(tasks[..last]);
      CountedIsBlocked(tasks[last]);
      assert Blocked(tasks) == Blocked(tasks[..last]) + if IsBlocked(tasks[last]) then {last} else {};
    }
  }

  lemma CountedIsBlocked(t: Task)
    ensures Counted(t) <==> IsBlocked(t)
  {
  }

  /** Words wrap around. */
  function Plus(w: nat, v: nat): nat
    requires w < ULONG && v < ULONG
  {
    if w + v >= ULONG then w + v - ULONG else w + v
  }

  function Down(w: nat): nat {
    if w == 0 then ULONG - 1 else w - 1
  }

  /** A CPU's counter goes up or down by one. */
  function Upped(nr: seq<nat>, c: nat): seq<nat>
    requires c < |nr| && nr[c] < ULONG
  {
    nr[c := Plus(nr[c], 1)]
  }

  function Downed(nr: seq<nat>, c: nat): seq<nat>
    requires c < |nr|
  {
    nr[c := Down(nr[c])]
  }

  class LoadCounts {
    var tasks: seq<Task>
    var nrUninterruptible: seq<nat>   // by CPU
    ghost var laps: int               // how often the counters have wrapped, all told

    ghost predicate Shape()
      reads this
    {
      && (forall c {:trigger nrUninterruptible[c]} :: 0 <= c < |nrUninterruptible| ==> nrUninterruptible[c] < ULONG)
      && (forall p {:trigger tasks[p]} :: 0 <= p < |tasks| ==>
            tasks[p].cpu < |nrUninterruptible| && (tasks[p].onRq ==> !tasks[p].state.Waking?))
    }

    ghost function Total(): int
      reads this
    {
      Sum(nrUninterruptible) + laps * ULONG
    }

    /** Up to wrapping, the counters add up to the tasks that are to be counted. */
    ghost predicate Valid()
      reads this
    {
      Shape() && Total() == Count(tasks)
    }

    constructor (cpus: nat)
      ensures Valid() && nrUninterruptible == seq(cpus, c => 0) && tasks == []
    {
      tasks, nrUninterruptible, laps := [], seq(cpus, c => 0), 0;
      new;
      SumZero(nrUninterruptible);
    }

    method CountUp(c: nat)
      requires Shape() && c < |nrUninterruptible|
      modifies `nrUninterruptible, `laps
      ensures Shape() && nrUninterruptible == Upped(old(nrUninterruptible), c)
      ensures Total() == old(Total()) + 1
    {
      SumUpdate(nrUninterruptible, c, Plus(nrUninterruptible[c], 1));
      laps := if nrUninterruptible[c] + 1 == ULONG then laps + 1 else laps;
      nrUninterruptible := nrUninterruptible[c := Plus(nrUninterruptible[c], 1)];
    }

    method CountDown(c: nat)
      requires Shape() && c < |nrUninterruptible|
      modifies `nrUninterruptible, `laps
      ensures Shape() && nrUninterruptible == Downed(old(nrUninterruptible), c)
      ensures Total() == old(Total()) - 1
    {
      SumUpdate(nrUninterruptible, c, Down(nrUninterruptible[c]));
      laps := if nrUninterruptible[c] == 0 then laps - 1 else laps;
      nrUninterruptible := nrUninterruptible[c := Down(nrUninterruptible[c])];
    }

    /** activate_task and deactivate_task, as far as they count; the caller settles the rest. */
    method ActivateTask(p: nat, c: nat)
      requires Shape() && p < |tasks| && c < |nrUninterruptible|
      modifies `nrUninterruptible, `laps
      ensures Shape() && |nrUninterruptible| == old(|nrUninterruptible|)
      ensures Total() == old(Total()) - if Contributes(tasks[p]) then 1 else 0
      ensures nrUninterruptible == if tasks[p].state == Uninterruptible && !tasks[p].frozen
        then Downed(old(nrUninterruptible), c) else old(nrUninterruptible)
    {
      if Contributes(tasks[p]) {
        CountDown(c);
      }
    }

    method DeactivateTask(p: nat, c: nat)
      requires Shape() && p < |tasks| && c < |nrUninterruptible|
      modifies `nrUninterruptible, `laps
      ensures Shape() && |nrUninterruptible| == old(|nrUninterruptible|)
      ensures Total() == old(Total()) + if Contributes(tasks[p]) then 1 else 0
      ensures nrUninterruptible == if tasks[p].state == Uninterruptible && !tasks[p].frozen
        then Upped(old(nrUninterruptible), c) else old(nrUninterruptible)
    {
      if Contributes(tasks[p]) {
        CountUp(c);
      }
    }

    /** A running task changes its own state, or is frozen or thawed: not during a sleep. */
    method SetCurrentState(p: nat, state: TaskState, frozen: bool)
      requires Valid() && p < |tasks| && tasks[p].onRq && !state.Waking?
      modifies `tasks
      ensures Valid() && tasks == old(tasks)[p := old(tasks[p]).(state := state, frozen := frozen)]
    {
      CountUpdate(tasks, p, tasks[p].(state := state, frozen := frozen));
      tasks := tasks[p := tasks[p].(state := state, frozen := frozen)];
    }

    /** __schedule: unless preempted, or with a signal pending, a task that set a sleeping state
        comes off its run queue and is counted if it is to be. */
    method Schedule(p: nat, preempted: bool, signalled: bool)
      requires Valid() && p < |tasks| && tasks[p].onRq
      modifies this
      ensures Valid() && p < |tasks|
      ensures var t := old(tasks[p]);
              tasks == old(tasks)[p := if t.state.Running? || preempted then t
                                       else if signalled then t.(state := Running) else t.(onRq := false)]
      ensures Count(tasks) == old(Count(tasks)) + if Counted(tasks[p]) then 1 else 0
      ensures old(tasks[p]).cpu < old(|nrUninterruptible|)
      ensures var sleeps := old(tasks[p]).state == Uninterruptible && !old(tasks[p]).frozen
                            && !preempted && !signalled;
              nrUninterruptible == if sleeps then Upped(old(nrUninterruptible), old(tasks[p]).cpu)
                                   else old(nrUninterruptible)
    {
      if tasks[p].state.Running? || preempted {
        assert tasks == tasks[p := tasks[p]];
      } else {
        if signalled {
          CountUpdate(tasks, p, tasks[p].(state := Running));
          tasks := tasks[p := tasks[p].(state := Running)];
        } else {
          var c := tasks[p].cpu;
          CountUpdate(tasks, p, tasks[p].(onRq := false));
          DeactivateTask(p, c);
          tasks := tasks[p := tasks[p].(onRq := false)];
        }
      }
    }

    /** try_to_wake_up under pi_lock: a task still on a run queue only changes state; one that
        has just come off it, its CPU being still in the middle of the switch, is put on again at
        once (ttwu_activate_remote), and activate_task counts down; another is marked and sent to
        a CPU, and goes on being counted until it is activated there. */
    method TryToWakeUp(p: nat, mask: set<TaskState>, onCpu: bool, c: nat) returns (success: bool)
      requires Valid() && p < |tasks| && c < |nrUninterruptible| && Running !in mask && Waking !in mask
      modifies this
      ensures Valid() && success == (old(tasks[p]).state in mask)
      ensures var t := old(tasks[p]);
              tasks == old(tasks)[p := if !success then t
                                       else if t.onRq then t.(state := Running)
                                       else if onCpu then t.(state := Running, onRq := true)
                                       else t.(contributes := t.state == Uninterruptible && !t.frozen,
                                                state := Waking, cpu := c)]
      ensures old(tasks[p]).cpu < old(|nrUninterruptible|)
      ensures var t := old(tasks[p]);
              var down := success && onCpu && !t.onRq && t.state == Uninterruptible && !t.frozen;
              && Count(tasks) == old(Count(tasks)) - (if down then 1 else 0)
              && nrUninterruptible == if down then Downed(old(nrUninterruptible), old(tasks[p]).cpu)
                                      else old(nrUninterruptible)
    {
      success := tasks[p].state in mask;
      if !success {
        assert tasks == tasks[p := tasks[p]];
        return;
      }
      if tasks[p].onRq {
        CountUpdate(tasks, p, tasks[p].(state := Running));
        tasks := tasks[p := tasks[p].(state := Running)];
      } else if onCpu {
        Activate(p);
      } else {
        var t := tasks[p].(contributes := Contributes(tasks[p]), state := Waking, cpu := c);
        CountUpdate(tasks, p, t);
        tasks := tasks[p := t];
      }
    }

    /** ttwu_activate and ttwu_do_wakeup for a task that still has its sleeping state */
    method Activate(p: nat)
      requires Valid() && p < |tasks| && !tasks[p].onRq && !tasks[p].state.Waking?
      modifies this
      ensures Valid() && tasks == old(tasks)[p := old(tasks[p]).(state := Running, onRq := true)]
      ensures old(tasks[p]).cpu < old(|nrUninterruptible|)
      ensures var down := old(tasks[p]).state == Uninterruptible && !old(tasks[p]).frozen;
              && Count(tasks) == old(Count(tasks)) - (if down then 1 else 0)
              && nrUninterruptible == if down then Downed(old(nrUninterruptible), old(tasks[p]).cpu)
                                      else old(nrUninterruptible)
    {
      var t := tasks[p].(state := Running, onRq := true);
      CountUpdate(tasks, p, t);
      ActivateTask(p, tasks[p].cpu);
      tasks := tasks[p := tasks[p].(onRq := true)];
      tasks := tasks[p := tasks[p].(state := Running)];
      assert tasks == old(tasks)[p := t];
    }

    /** ttwu_do_activate, at once or from the CPU's wake_list: counts down once. The state has
        already lost the bit that would make activate_task count down again. */
    method TtwuDoActivate(p: nat)
      requires Valid() && p < |tasks| && tasks[p].state.Waking?
      modifies this
      ensures Valid() && tasks == old(tasks)[p := old(tasks[p]).(state := Running, onRq := true)]
      ensures Count(tasks) == old(Count(tasks)) - if Counted(old(tasks[p])) then 1 else 0
      ensures old(tasks[p]).cpu < old(|nrUninterruptible|)
      ensures nrUninterruptible == if old(tasks[p]).contributes then Downed(old(nrUninterruptible), old(tasks[p]).cpu)
                                   else old(nrUninterruptible)
    {
      var c := tasks[p].cpu;
      var t := tasks[p].(state := Running, onRq := true);
      CountUpdate(tasks, p, t);
      if tasks[p].contributes {
        CountDown(c);
      }
      ActivateTask(p, c);
      tasks := tasks[p := tasks[p].(onRq := true)];
      tasks := tasks[p := tasks[p].(state := Running)];
      assert tasks == old(tasks)[p := t];
    }

    /** try_to_wake_up_local: activate_task does the counting down here. */
    method TryToWakeUpLocal(p: nat)
      requires Valid() && p < |tasks|
      modifies this
      ensures Valid()
      ensures tasks == old(tasks)[p := if old(tasks[p]).state.Uninterruptible? || old(tasks[p]).state.Interruptible?
                                       then old(tasks[p]).(state := Running, onRq := true) else old(tasks[p])]
      ensures old(tasks[p]).cpu < old(|nrUninterruptible|)
      ensures nrUninterruptible ==
              if !old(tasks[p]).onRq && old(tasks[p]).state == Uninterruptible && !old(tasks[p]).frozen
              then Downed(old(nrUninterruptible), old(tasks[p]).cpu) else old(nrUninterruptible)
    {
      if !tasks[p].state.Uninterruptible? && !tasks[p].state.Interruptible? {
        assert tasks == tasks[p := tasks[p]];
        return;
      }
      if !tasks[p].onRq {
        Activate(p);
      } else {
        CountUpdate(tasks, p, tasks[p].(state := Running));
        tasks := tasks[p := tasks[p].(state := Running)];
      }
    }

    /** push_rt_task, pull_rt_task and pull_wrr_task move with deactivate_task and
        activate_task. A task preempted on its way to sleep is counted up on one CPU and down
        on the other. */
    method MoveQueuedTask(p: nat, dst: nat)
      requires Valid() && p < |tasks| && tasks[p].onRq && dst < |nrUninterruptible|
      modifies this
      ensures Valid() && tasks == old(tasks)[p := old(tasks[p]).(cpu := dst)] && Count(tasks) == old(Count(tasks))
      ensures old(tasks[p]).cpu < old(|nrUninterruptible|)
      ensures old(tasks[p]).cpu != dst ==>
        nrUninterruptible == if old(tasks[p]).state == Uninterruptible && !old(tasks[p]).frozen
          then Downed(Upped(old(nrUninterruptible), old(tasks[p]).cpu), dst) else old(nrUninterruptible)
    {
      var src := tasks[p].cpu;
      DeactivateTask(p, src);
      CountUpdate(tasks, p, tasks[p].(cpu := dst));
      tasks := tasks[p := tasks[p].(cpu := dst)];
      ActivateTask(p, dst);
    }

    /** A new task is never counted. */
    method WakeUpNewTask(c: nat)
      requires Valid() && c < |nrUninterruptible|
      modifies this
      ensures Valid() && tasks == old(tasks) + [Task(Running, false, true, false, c)]
      ensures nrUninterruptible == old(nrUninterruptible)
    {
      var t := Task(Running, false, true, false, c);
      assert (tasks + [t])[..|tasks|] == tasks;
      tasks := tasks + [t];
      ActivateTask(|tasks| - 1, c);
    }

    /** A CPU goes down: its counter is added to another's. */
    method MigrateNrUninterruptible(src: nat, dst: nat)
      requires Valid() && src < |nrUninterruptible| && dst < |nrUninterruptible| && src != dst
      modifies `nrUninterruptible, `laps
      ensures Valid()
      ensures nrUninterruptible ==
        old(nrUninterruptible)[dst := Plus(old(nrUninterruptible[dst]), old(nrUninterruptible[src]))][src := 0]
    {
      var w := Plus(nrUninterruptible[dst], nrUninterruptible[src]);
      laps := if nrUninterruptible[dst] + nrUninterruptible[src] >= ULONG then laps + 1 else laps;
      SumUpdate(nrUninterruptible, dst, w);
      nrUninterruptible := nrUninterruptible[dst := w];
      SumUpdate(nrUninterruptible, src, 0);
      nrUninterruptible := nrUninterruptible[src := 0];
    }

    /** nr_uninterruptible(): as long as fewer than half the words' range are counted, the sum is
        exactly their number. */
    method NrUninterruptible() returns (sum: int)
      requires Valid()
      ensures |Blocked(tasks)| < 0x8000_0000 ==> sum == |Blocked(tasks)|
    {
      CountIsBlocked(tasks);
      var word: nat := 0;
      ghost var wrapped := 0;
      for i := 0 to |nrUninterruptible|
        invariant word < ULONG && word + wrapped * ULONG == Sum(nrUninterruptible[..i])
      {
        assert nrUninterruptible[..i + 1][..i] == nrUninterruptible[..i];
        wrapped := if word + nrUninterruptible[i] >= ULONG then wrapped + 1 else wrapped;
        word := Plus(word, nrUninterruptible[i]);
      }
      assert nrUninterruptible[..|nrUninterruptible|] == nrUninterruptible;
      sum := word;
      if word >= ULONG / 2 {   // negative as a signed long
        sum := 0;
      }
    }
  }

  /** No single counter says how many sleep: a task that went to sleep on one CPU and woke on
      another leaves one counter at 1 and the other just below zero. */
  method SleepHereWakeThere() returns (m: LoadCounts)
    ensures m.nrUninterruptible == [1, 0xFFFF_FFFF] && Blocked(m.tasks) == {}
  {
    hide Count, Sum;
    m := new LoadCounts(2);
    assert m.nrUninterruptible == [0, 0];
    m.WakeUpNewTask(0);
    assert m.tasks == [Task(Running, false, true, false, 0)];
    m.SetCurrentState(0, Uninterruptible, false);
    assert m.tasks == [Task(Uninterruptible, false, true, false, 0)];
    m.Schedule(0, false, false);
    assert m.tasks == [Task(Uninterruptible, false, false, false, 0)] && m.nrUninterruptible == [1, 0];
    var woken := m.TryToWakeUp(0, {Uninterruptible}, false, 1);
    assert m.tasks == [Task(Waking, false, false, true, 1)];
    m.TtwuDoActivate(0);
    assert m.tasks == [Task(Running, false, true, true, 1)];
  }
}
