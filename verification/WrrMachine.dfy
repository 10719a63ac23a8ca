/** The operations of the weighted round robin class and its hooks in the core scheduler
    (wrr.c, core.c), each keeping every account of WrrBooks in order. */
module WrrMachine {
  import opened Errors
  import opened Options
  import opened Sequences
  import opened WrrRound
  import opened WrrBooks
  import opened WrrSteps
  import opened WrrWaiting
  import opened WrrMeaning

  predicate RtPolicy(policy: int) { policy == 1 || policy == 2 }

  predicate KnownPolicy(policy: int) {
    policy in {0, 1, 2, 3, 5, SCHED_WRR}
  }

  /** init_task, which becomes the idle thread of CPU 0 */
  const BOOT: nat := 0

  /** INIT_TASK and init_idle: the class leaves its weight at zero, and gives it a slice of
      RR_TIMESLICE. */
  function BootTask(hz: nat): Task {
    Task(0, ForegroundSlice(hz), 0, 0, 0, false, false, 0, {0}, false)
  }

  /** SCHED_RESET_ON_FORK, which may be ORed to a policy; a policy is an int. */
  const RESET_ON_FORK: int := 0x4000_0000

  predicate AsksReset(policy: int) {
    RESET_ON_FORK <= policy < 2 * RESET_ON_FORK
  }

  function Masked(policy: int): int {
    if AsksReset(policy) then policy - RESET_ON_FORK else policy
  }

  /** The answer of __sched_setscheduler; a negative policy asks for the present one. */
  function Verdict(t: Task, policy: int, prio: int): int {
    if policy >= 0 && !KnownPolicy(Masked(policy)) then EINVAL
    else if prio < 0 || prio > 99 || RtPolicy(Wanted(t, policy)) != (prio != 0) then EINVAL
    else 0
  }

  function Wanted(t: Task, policy: int): nat {
    if policy < 0 then t.policy else Masked(policy)
  }

  /** A request for the policy and priority the task already has, with or without the flag */
  predicate Nothing(t: Task, policy: int, prio: int) {
    Wanted(t, policy) == t.policy && (!RtPolicy(Wanted(t, policy)) || prio == t.rtPriority)
  }

  /** What is asked for, with the flag's bit taken out of the policy: refused unless the policy is known,
      the priority in range, and not zero exactly for the two real-time policies; and nothing is to be
      done if the task has that policy, and for a real-time one that priority. */
  lemma {:induction false} RequestMeans(t: Task, policy: int, prio: int)
    ensures
      var masked := if 0x4000_0000 <= policy < 0x8000_0000 then policy - 0x4000_0000 else policy;
      var wanted := if policy < 0 then t.policy else masked;
      && (policy < 0 || masked in {0, 1, 2, 3, 5, 6} ==> Wanted(t, policy) == wanted)
      && (Verdict(t, policy, prio) == 0 <==>
            && (policy < 0 || masked in {0, 1, 2, 3, 5, 6}) && 0 <= prio <= 99
            && (wanted == 1 || wanted == 2 <==> prio != 0))
      && (Verdict(t, policy, prio) != 0 ==> Verdict(t, policy, prio) == -22)
      && (policy < 0 || masked in {0, 1, 2, 3, 5, 6} ==>
            (Nothing(t, policy, prio) <==> wanted == t.policy && (wanted == 1 || wanted == 2 ==> prio == t.rtPriority)))
  {
  }

  /** What sched_fork makes of the copy of a task: outside this class, and with the flag only a
      real-time policy is given up. */
  function Child(t: Task): Task {
    var c := t.(wrrClass := false, onRq := false);
    if !t.resetOnFork then c
    else if RtPolicy(t.policy) then c.(policy := 0, rtPriority := 0, resetOnFork := false)
    else c.(resetOnFork := false)
  }

  /** cpu_possible_mask */
  function Below(n: nat): (r: set<nat>)
    ensures forall c: nat :: c in r <==> c < n
  {
    if n == 0 then {} else Below(n - 1) + {n - 1}
  }

  ghost predicate IsFirst(c: nat, cpus: set<nat>) {
    c in cpus && forall d :: 0 <= d < c ==> d !in cpus
  }

  class Machine {
    const s: Setup
    var online: set<nat>
    var tasks: seq<Task>
    var rqs: seq<WrrRq>
    var curr: seq<int>       // rq->curr, NOBODY for one that is not modelled

    ghost predicate Shape()
      reads this
    {
      |curr| == s.cpus && forall c {:trigger c in online} :: c in online ==> c < s.cpus
    }

    ghost predicate Valid()
      reads this
    {
      Shape() && Books(s, tasks, rqs, NOBODY)
    }

    function Now(): State
      reads this
    {
      State(tasks, rqs, curr)
    }

    /** sched_init: the boot task runs on CPU 0, in the root group, and nothing is queued. */
    constructor (hz: nat, cpus: nat, background: seq<bool>, up: set<nat>)
      requires Clock(hz) && cpus > 0 && |background| > 0 && forall c :: c in up ==> c < cpus
      ensures Valid() && s == Setup(hz, cpus, background) && online == up
      ensures tasks == [BootTask(hz)] && rqs == seq(cpus, c => WrrRq([], 0, 0))
      ensures tasks == [Task(0, 100 * hz / 1000, 0, 0, 0, false, false, 0, {0}, false)]
      ensures curr == seq(cpus, c => if c == 0 then BOOT else NOBODY)
    {
      s, online, tasks := Setup(hz, cpus, background), up, [BootTask(hz)];
      rqs, curr := seq(cpus, c => WrrRq([], 0, 0)), seq(cpus, c => if c == 0 then BOOT else NOBODY);
    }

    // ----------------------------------------------------------------
    // The run list
    // ----------------------------------------------------------------

    method EnqueueWrrEntity(p: nat, head: bool)
      requires Shape() && Books(s, tasks, rqs, p) && p < |tasks| && tasks[p].wrrClass && !InQueue(tasks, rqs, p)
      modifies `tasks, `rqs
      ensures Shape() && Books(s, tasks, rqs, p) && p < |tasks| && InQueue(tasks, rqs, p)
      ensures old(tasks[p]).group < |s.background| && old(tasks[p]).cpu < old(|rqs|)
      ensures tasks == old(tasks)[p := Weighed(s, old(tasks[p]))] && PutOn(s, old(tasks[p]), tasks[p])
      ensures rqs[tasks[p].cpu].queue ==
        if head then [p] + old(rqs)[tasks[p].cpu].queue else old(rqs)[tasks[p].cpu].queue + [p]
      ensures var c := old(tasks[p]).cpu;
              rqs == old(rqs)[c := Enqueued(old(rqs[c]), p, tasks[p].weight, head)]
    {
      hide RqOk, Weighted;
      assert TaskOk(s, tasks[p]);
      EnqueueKeeps(s, tasks, rqs, p, head);
      WeighedMeans(s, tasks[p]);
      var c := tasks[p].cpu;
      if s.background[tasks[p].group] && tasks[p].weight != BACKGROUND {
        tasks := tasks[p := tasks[p].(slice := BackgroundSlice(s.hz), weight := BACKGROUND)];
      } else if !s.background[tasks[p].group] && tasks[p].weight != FOREGROUND {
        tasks := tasks[p := tasks[p].(slice := ForegroundSlice(s.hz), weight := FOREGROUND)];
      } else {
        assert tasks == tasks[p := tasks[p]];
      }
      var r := rqs[c];
      if head {
        r := r.(queue := [p] + r.queue);
      } else {
        r := r.(queue := r.queue + [p]);
      }
      r := r.(totalWeight := r.totalWeight + tasks[p].weight);
      r := r.(nrRunning := r.nrRunning + 1);
      rqs := rqs[c := r];
    }

    method DequeueWrrEntity(p: nat)
      requires Valid() && p < |tasks| && InQueue(tasks, rqs, p)
      modifies `rqs
      ensures Shape() && Books(s, tasks, rqs, p) && !InQueue(tasks, rqs, p)
      ensures var c := tasks[p].cpu;
              rqs == old(rqs)[c := Dequeued(old(rqs[c]), p, tasks[p].weight)]
    {
      hide RqOk, Weighted;
      DequeueKeeps(s, tasks, rqs, NOBODY, p);
      var c := tasks[p].cpu;
      var r := rqs[c];
      r := r.(queue := Without(r.queue, p));
      r := r.(totalWeight := r.totalWeight - tasks[p].weight);
      r := r.(nrRunning := r.nrRunning - 1);
      rqs := rqs[c := r];
    }

    method RequeueTaskWrr(p: nat, head: bool)
      requires Valid() && p < |tasks| && InQueue(tasks, rqs, p)
      modifies `rqs
      ensures Valid() && Step(s, old(Now()), Requeue(p, head), Now())
    {
      hide RqOk, Weighted;
      MoveKeeps(s, tasks, rqs, p, head);
      var c := tasks[p].cpu;
      rqs := rqs[c := rqs[c].(queue := MovedTo(rqs[c].queue, p, head))];
    }

    method YieldTaskWrr(c: nat)
      requires Valid() && c < s.cpus && RunsHere(Now(), c)
      modifies `rqs
      ensures Valid() && 0 <= curr[c] && Step(s, old(Now()), Requeue(curr[c], false), Now())
    {
      hide RqOk, Weighted;
      NotQueued(s, tasks, rqs, NOBODY, curr[c], c);
      RequeueTaskWrr(curr[c], false);
    }

    /** One tick of the running task p: off its slice goes one; when that was the last, it gets
        a new slice and, unless alone, goes to the tail. At the head of the queue, this is the
        step whose rounds are known. */
    method TaskTickWrr(p: nat) returns (resched: bool)
      requires Valid() && p < |tasks| && InQueue(tasks, rqs, p)
      modifies `tasks, `rqs
      ensures Valid()
      ensures var t := old(tasks[p]);
              && p < |tasks| && t.cpu < |rqs| && t.cpu < |old(rqs)|
              && tasks[p] == (if t.slice > 1 then t.(slice := t.slice - 1)
                              else if t.weight == 1 then t.(slice := 10 * s.hz / 1000)
                              else t.(slice := 100 * s.hz / 1000))
              && rqs[t.cpu].queue == if t.slice > 1 then old(rqs)[t.cpu].queue
                                     else Without(old(rqs)[t.cpu].queue, p) + [p]
      ensures var c := old(tasks[p]).cpu;
              && tasks == old(tasks)[p := TickedTask(s, old(tasks[p]))]
              && rqs == old(rqs)[c := old(rqs[c]).(queue := TickedQueue(old(rqs[c]).queue, p, old(tasks[p])))]
              && (resched <==> old(tasks[p]).slice == 1 && |old(rqs[c]).queue| > 1)
              && (curr[c] == p ==> Step(s, old(Now()), TickOn(c, false), Now()))
              && (old(rqs[c]).queue[0] == p ==>
                    && (forall i :: 0 <= i < |old(rqs[c]).queue| ==> old(rqs[c]).queue[i] < |old(tasks)|)
                    && (forall i :: 0 <= i < |rqs[c].queue| ==> rqs[c].queue[i] < |tasks|)
                    && View(tasks, rqs[c].queue) == Tick(View(old(tasks), old(rqs[c]).queue), s.hz))
    {
      hide Weighted, Quota, Without;
      var c := tasks[p].cpu;
      assert RqOk(s, tasks, rqs[c], c);
      SliceInRange(p);
      TickedMeans(s, tasks[p], rqs[c].queue, p);
      if rqs[c].queue[0] == p {
        TickedView(s, tasks, rqs[c], c);
      }
      resched := false;
      var i := Index(rqs[c].queue, p);
      AloneIff(rqs[c].queue, i);
      if Decremented(tasks[p].slice) > 0 {
        SliceKeeps(s, tasks, rqs, p, Decremented(tasks[p].slice));
        tasks := tasks[p := tasks[p].(slice := Decremented(tasks[p].slice))];
        assert rqs == rqs[c := rqs[c].(queue := rqs[c].queue)];
        return;
      }
      SliceKeeps(s, tasks, rqs, p, Quota(tasks[p].weight, s.hz));
      tasks := tasks[p := tasks[p].(slice := Quota(tasks[p].weight, s.hz))];
      if Before(rqs[c].queue, i) != Behind(rqs[c].queue, i) {
        RequeueTaskWrr(p, false);
        resched := true;
      } else {
        AloneStays(rqs[c].queue, p);
        assert rqs == rqs[c := rqs[c].(queue := MovedTo(rqs[c].queue, p, false))];
      }
    }

    lemma SliceInRange(p: nat)
      requires Valid() && p < |tasks| && InQueue(tasks, rqs, p)
      ensures 1 <= tasks[p].slice <= Quota(tasks[p].weight, s.hz)
    {
      assert RqOk(s, tasks, rqs[tasks[p].cpu], tasks[p].cpu);
    }

    static lemma AloneStays(q: seq<nat>, p: nat)
      requires p in q && |q| == 1
      ensures MovedTo(q, p, false) == q
    {
      assert q == [p] && [p][1..] == [];
      assert Without([p], p) == Without([], p);
    }

    // ----------------------------------------------------------------
    // Hooks of the core scheduler
    // ----------------------------------------------------------------

    /** enqueue_task: only this class keeps accounts here. */
    method EnqueueTask(p: nat, head: bool)
      requires Shape() && Books(s, tasks, rqs, p) && p < |tasks| && !InQueue(tasks, rqs, p)
      modifies `tasks, `rqs
      ensures Shape() && Books(s, tasks, rqs, p) && p < |tasks|
      ensures tasks == old(tasks)[p := PutOnTask(s, old(tasks[p]))] && rqs == PutOnQueues(old(rqs), p, tasks[p], head)
      ensures InQueue(tasks, rqs, p) <==> tasks[p].wrrClass
      ensures if old(tasks[p]).wrrClass then PutOn(s, old(tasks[p]), tasks[p])
              else tasks == old(tasks) && rqs == old(rqs)
    {
      hide RqOk, Weighted;
      assert TaskOk(s, tasks[p]);
      if tasks[p].wrrClass {
        EnqueueWrrEntity(p, head);
      } else {
        assert tasks == tasks[p := tasks[p]];
      }
    }

    method DequeueTask(p: nat)
      requires Valid() && p < |tasks| && tasks[p].onRq
      modifies `rqs
      ensures Shape() && Books(s, tasks, rqs, p) && !InQueue(tasks, rqs, p)
      ensures rqs == TakenOff(tasks, old(rqs), p)
    {
      hide RqOk, Weighted;
      OpenBooks(s, tasks, rqs, p);
      assert InQueue(tasks, rqs, p) <==> tasks[p].wrrClass;
      if tasks[p].wrrClass {
        DequeueWrrEntity(p);
      }
    }

    /** try_to_wake_up and schedule: a task comes onto a run queue or goes off it. */
    method Wakeup(p: nat, c: nat)
      requires Valid() && p < |tasks| && !tasks[p].onRq && c < s.cpus
      modifies `tasks, `rqs
      ensures Valid() && Step(s, old(Now()), Replace(p, old(tasks[p]).(cpu := c, onRq := true), false), Now())
    {
      hide RqOk, Weighted;
      assert TaskOk(s, tasks[p]);
      assert !InQueue(tasks, rqs, p);
      ChangeKeeps(s, tasks, rqs, NOBODY, p, tasks[p].(cpu := c));
      tasks := tasks[p := tasks[p].(cpu := c)];
      EnqueueTask(p, false);
      OnRqKeeps(s, tasks, rqs, p, true);
      tasks := tasks[p := tasks[p].(onRq := true)];
    }

    method Deactivate(p: nat)
      requires Valid() && p < |tasks| && tasks[p].onRq
      modifies `tasks, `rqs
      ensures Valid() && Step(s, old(Now()), Replace(p, old(tasks[p]).(onRq := false), false), Now())
    {
      hide RqOk, Weighted;
      assert TaskOk(s, tasks[p]);
      DequeueTask(p);
      OnRqKeeps(s, tasks, rqs, p, false);
      tasks := tasks[p := tasks[p].(onRq := false)];
    }

    /** sched_fork: the child is never in this class. With the flag set it is to have policy
        SCHED_NORMAL, and has, exactly if the parent's policy is that or a real-time one. */
    method SchedFork(parent: nat) returns (child: nat)
      requires Valid() && parent < |tasks|
      modifies `tasks
      ensures Valid() && child == old(|tasks|) && child < |tasks|
      ensures Step(s, old(Now()), Fork(Child(old(tasks[parent]))), Now())
      ensures var t := old(tasks[parent]);
              var gives := t.resetOnFork && (t.policy == 1 || t.policy == 2);
              tasks == old(tasks) + [
                t.(wrrClass := false, onRq := false, resetOnFork := false,
                   policy := if gives then 0 else t.policy, rtPriority := if gives then 0 else t.rtPriority)]
      ensures var t := old(tasks[parent]);
              if t.resetOnFork then tasks[child].policy == 0 <==> t.policy == 0 || RtPolicy(t.policy)
              else tasks[child].policy == t.policy
    {
      hide RqOk, Weighted;
      assert TaskOk(s, tasks[parent]);
      child := |tasks|;
      var t := tasks[parent].(wrrClass := false, onRq := false);
      if t.resetOnFork {
        if RtPolicy(t.policy) {
          t := t.(policy := 0, rtPriority := 0);
        }
        t := t.(resetOnFork := false);
      }
      ForkKeeps(s, tasks, rqs, t);
      tasks := tasks + [t];
    }

    /** wake_up_new_task: a new task starts with its group's weight and a full slice. */
    method WakeUpNewTask(p: nat, c: nat)
      requires Valid() && p < |tasks| && !tasks[p].onRq && c < s.cpus
      modifies `tasks, `rqs
      ensures Valid() && old(tasks[p]).group < |s.background|
      ensures var w := GroupWeight(s, old(tasks[p]));
              var t := old(tasks[p]).(cpu := c, weight := w, slice := Quota(w, s.hz), onRq := true);
              Step(s, old(Now()), Replace(p, t, false), Now()) && p < |tasks| && tasks[p] == t
      ensures var fore := !s.background[old(tasks[p]).group];
              && tasks[p].weight == (if fore then 10 else 1)
              && tasks[p].slice == if fore then 100 * s.hz / 1000 else 10 * s.hz / 1000
    {
      hide RqOk, Weighted;
      assert TaskOk(s, tasks[p]);
      assert !InQueue(tasks, rqs, p);
      QuotaWeighs(s.hz);
      var t := tasks[p].(cpu := c);
      if s.background[t.group] {
        t := t.(slice := BackgroundSlice(s.hz), weight := BACKGROUND);
      } else {
        t := t.(slice := ForegroundSlice(s.hz), weight := FOREGROUND);
      }
      ChangeKeeps(s, tasks, rqs, NOBODY, p, t);
      tasks := tasks[p := t];
      EnqueueTask(p, false);
      OnRqKeeps(s, tasks, rqs, p, true);
      tasks := tasks[p := tasks[p].(onRq := true)];
    }

    /** sched_move_task: the task is off the queue while its group changes, so its old weight
        leaves the account and the new group's comes in. */
    method SchedMoveTask(p: nat, group: nat)
      requires Valid() && p < |tasks| && group < |s.background|
      modifies `tasks, `rqs
      ensures Valid() && Step(s, old(Now()), Replace(p, old(tasks[p]).(group := group), false), Now())
      ensures var t := old(tasks[p]).(group := group);
              p < |tasks| && if t.onRq && t.wrrClass then PutOn(s, t, tasks[p]) else tasks[p] == t
    {
      hide RqOk, Weighted;
      assert TaskOk(s, tasks[p]);
      var onRq := tasks[p].onRq;
      if onRq {
        DequeueTask(p);
      } else {
        OpenBooks(s, tasks, rqs, p);
        assert !InQueue(tasks, rqs, p);
      }
      ChangeKeeps(s, tasks, rqs, p, p, tasks[p].(group := group));
      tasks := tasks[p := tasks[p].(group := group)];
      if onRq {
        EnqueueTask(p, false);
      }
      CloseBooks(s, tasks, rqs, p);
      StepMeans(s, old(Now()), Replace(p, old(tasks[p]).(group := group), false), Now());
    }

    /** do_set_cpus_allowed */
    method DoSetCpusAllowed(p: nat, allowed: set<nat>)
      requires Valid() && p < |tasks|
      modifies `tasks
      ensures Valid() && Step(s, old(Now()), Affine(p, allowed), Now())
    {
      hide RqOk, TaskOk;
      AffineKeeps(s, tasks, rqs, p, allowed);
      tasks := tasks[p := tasks[p].(allowed := allowed)];
    }

    /** switched_to_wrr would set a queued task's weight behind its account, but enqueueing has
        already given it that weight: nothing changes. */
    method SwitchedToWrr(p: nat)
      requires Valid() && p < |tasks| && tasks[p].wrrClass
      modifies `tasks
      ensures tasks == old(tasks)
    {
      hide Quota;
      assert TaskOk(s, tasks[p]);
      if tasks[p].onRq && curr[tasks[p].cpu] != p {
        assert InQueue(tasks, rqs, p);
        assert RqOk(s, tasks, rqs[tasks[p].cpu], tasks[p].cpu);
        if s.background[tasks[p].group] {
          tasks := tasks[p := tasks[p].(weight := BACKGROUND)];
        } else {
          tasks := tasks[p := tasks[p].(weight := FOREGROUND)];
        }
      }
    }

    /** The common part of a class change: off, changed, and on again. */
    method ChangeClass(p: nat, policy: nat, prio: nat, wrr: bool, reset: bool, head: bool)
      requires Valid() && p < |tasks| && (wrr ==> policy == SCHED_WRR)
      modifies `tasks, `rqs
      ensures Valid()
      ensures var t := old(tasks[p]).(policy := policy, rtPriority := prio, wrrClass := wrr, resetOnFork := reset);
              Step(s, old(Now()), Replace(p, t, head), Now())
    {
      hide RqOk, Weighted;
      assert TaskOk(s, tasks[p]);
      var onRq, was := tasks[p].onRq, tasks[p].wrrClass;
      if onRq {
        DequeueTask(p);
      } else {
        OpenBooks(s, tasks, rqs, p);
        assert !InQueue(tasks, rqs, p);
      }
      var t := tasks[p].(policy := policy, rtPriority := prio, wrrClass := wrr, resetOnFork := reset);
      ChangeKeeps(s, tasks, rqs, p, p, t);
      tasks := tasks[p := t];
      if onRq {
        EnqueueTask(p, head);
      }
      CloseBooks(s, tasks, rqs, p);
      if was != wrr && wrr {
        SwitchedToWrr(p);
      }
    }

    /** __sched_setscheduler past its permission checks. A request for what a task already has
        does nothing; so SCHED_WRR puts a task into the class unless the task had the policy
        without the class, as the child of one does, and the flag asked for is set unless the
        task had that policy without it. */
    method SetScheduler(p: nat, policy: int, prio: int) returns (ret: int)
      requires Valid() && p < |tasks|
      modifies `tasks, `rqs
      ensures Valid() && p < |tasks| && ret == Verdict(old(tasks[p]), policy, prio)
      ensures ret != 0 || Nothing(old(tasks[p]), policy, prio) ==> Now() == old(Now())
      ensures ret == 0 && !Nothing(old(tasks[p]), policy, prio) ==>
        var pol := Wanted(old(tasks[p]), policy);
        var reset := if policy < 0 then old(tasks[p]).resetOnFork else AsksReset(policy);
        var t := old(tasks[p]).(policy := pol, rtPriority := prio, wrrClass := pol == SCHED_WRR, resetOnFork := reset);
        Step(s, old(Now()), Replace(p, t, false), Now())
      ensures ret == 0 && Masked(policy) == SCHED_WRR ==>
        (tasks[p].wrrClass <==> old(tasks[p]).policy != SCHED_WRR || old(tasks[p]).wrrClass)
      ensures ret == 0 && AsksReset(policy) ==>
        (tasks[p].resetOnFork <==> !Nothing(old(tasks[p]), policy, prio) || old(tasks[p]).resetOnFork)
    {
      hide Books, TaskOk;
      var pol, reset := policy, tasks[p].resetOnFork;
      if pol < 0 {
        pol := tasks[p].policy;
      } else {
        reset := AsksReset(pol);
        pol := Masked(pol);
        if !KnownPolicy(pol) {
          return EINVAL;
        }
      }
      if prio < 0 || prio > 99 || RtPolicy(pol) != (prio != 0) {
        return EINVAL;
      }
      if pol == tasks[p].policy && (!RtPolicy(pol) || prio == tasks[p].rtPriority) {
        return 0;
      }
      ChangeClass(p, pol, prio, pol == SCHED_WRR, reset, false);
      return 0;
    }

    /** rt_mutex_setprio chooses the class by the policy first; head says that the priority got
        worse. The idle thread is left alone. */
    method RtMutexSetPrio(p: nat, head: bool)
      requires Valid() && p < |tasks|
      modifies `tasks, `rqs
      ensures Valid()
      ensures p == BOOT ==> Now() == old(Now())
      ensures p != BOOT ==>
        var t := old(tasks[p]).(wrrClass := old(tasks[p]).policy == SCHED_WRR);
        Step(s, old(Now()), Replace(p, t, head), Now())
    {
      hide Books, TaskOk;
      if p == BOOT {
        return;
      }
      ChangeClass(p, tasks[p].policy, tasks[p].rtPriority, tasks[p].policy == SCHED_WRR, tasks[p].resetOnFork, head);
    }

    method PickNextTaskWrr(c: nat) returns (p: Option<nat>)
      requires Valid() && c < s.cpus
      ensures p.None? <==> rqs[c].queue == []
      ensures p.Some? ==>
        p.value == rqs[c].queue[0] && p.value < |tasks| && tasks[p.value].wrrClass && tasks[p.value].onRq
    {
      hide Weighted;
      assert RqOk(s, tasks, rqs[c], c);
      if rqs[c].nrRunning == 0 {
        return None;
      }
      p := Some(rqs[c].queue[0]);
      assert rqs[c].queue[0] in rqs[c].queue;
      assert InQueue(tasks, rqs, p.value);
    }

    /** A choice of another class */
    ghost predicate Outside(p: int)
      reads this
    {
      0 <= p ==> p < |tasks| && !tasks[p].wrrClass
    }

    /** schedule: before this class come the stop and real-time classes, whose choice is first,
        if any; behind it come the fair and idle ones, whose choice is last. */
    method Schedule(c: nat, first: Option<int>, last: int)
      requires Valid() && c < s.cpus && (first.Some? ==> Outside(first.value)) && Outside(last)
      modifies `curr
      ensures Valid() && c < |curr| && Step(s, old(Now()), Switch(c, curr[c]), Now())
      ensures curr[c] in rqs[c].queue <==> first.None? && rqs[c].queue != []
    {
      hide Weighted;
      assert RqOk(s, tasks, rqs[c], c);
      var next := first;
      if next.None? {
        var p := PickNextTaskWrr(c);
        next := if p.Some? then Some(p.value) else Some(last);
      }
      curr := curr[c := next.value];
    }

    /** scheduler_tick, as far as this class goes. When the tick asks for it and the CPU may be
        preempted, schedule follows at once, nothing of the real-time classes being runnable.
        A CPU with nothing of this class pulls a task. */
    method SchedulerTick(c: nat, preempts: bool) returns (pulled: Option<nat>)
      requires Valid() && c < s.cpus
      modifies `tasks, `rqs, `curr
      ensures Valid()
      ensures old(RunsHere(Now(), c)) ==> pulled.None? && Step(s, old(Now()), TickOn(c, preempts), Now())
      ensures pulled.Some? ==>
        && old(rqs[c]).queue == [] && pulled.value < |old(tasks)|
        && Step(s, old(Now()), Replace(pulled.value, old(tasks[pulled.value]).(cpu := c), false), Now())
      ensures pulled.None? && !old(RunsHere(Now(), c)) ==> Now() == old(Now())
    {
      hide Weighted, TaskOk, Books;
      pulled := None;
      if RunsHere(Now(), c) {
        var p: nat := curr[c];
        QueueOf(p, c);
        var resched := TaskTickWrr(p);
        if resched && preempts {
          Schedule(c, None, NOBODY);
        }
      }
      QueueCounted(c);
      if rqs[c].nrRunning == 0 {
        pulled := PullWrrTask(c);
      }
    }

    lemma QueueCounted(c: nat)
      requires Valid() && c < s.cpus
      ensures c < |rqs| && rqs[c].nrRunning == |rqs[c].queue|
    {
      assert RqOk(s, tasks, rqs[c], c);
    }

    /** The running task is queued on its own CPU and stays so over a tick. */
    lemma QueueOf(p: nat, c: nat)
      requires Valid() && c < s.cpus && p in rqs[c].queue
      ensures p < |tasks| && InQueue(tasks, rqs, p) && tasks[p].cpu == c
      ensures |TickedQueue(rqs[c].queue, p, tasks[p])| == |rqs[c].queue|
    {
      hide Weighted;
      NotQueued(s, tasks, rqs, NOBODY, p, c);
      assert RqOk(s, tasks, rqs[c], c);
      WithoutLength(rqs[c].queue, p);
    }

    /** select_task_rq_wrr: the lightest of the online CPUs the task may use, its own if none is
        lighter, and the first of those that are equally light. */
    method SelectTaskRqWrr(p: nat) returns (result: nat)
      requires Valid() && p < |tasks|
      ensures result < |rqs| && tasks[p].cpu < |rqs|
      ensures |tasks[p].allowed| == 1 ==> result == tasks[p].cpu
      ensures result != tasks[p].cpu ==>
        && result in online && result in tasks[p].allowed
        && rqs[result].totalWeight < rqs[tasks[p].cpu].totalWeight
        && forall c :: 0 <= c < result && c in online && c in tasks[p].allowed ==>
          rqs[result].totalWeight < rqs[c].totalWeight
      ensures |tasks[p].allowed| != 1 ==>
        forall c :: 0 <= c < s.cpus && c in online && c in tasks[p].allowed ==>
          rqs[result].totalWeight <= rqs[c].totalWeight
      ensures result !in tasks[p].allowed <==>
        && tasks[p].cpu !in tasks[p].allowed
        && (|tasks[p].allowed| == 1 || forall c :: 0 <= c < s.cpus && c in online && c in tasks[p].allowed ==>
              rqs[c].totalWeight >= rqs[tasks[p].cpu].totalWeight)
    {
      hide RqOk, Weighted;
      assert TaskOk(s, tasks[p]);
      result := tasks[p].cpu;
      if |tasks[p].allowed| == 1 {
        return;
      }
      var minimum := rqs[result].totalWeight;
      for cpu := 0 to s.cpus
        invariant result < |rqs| && minimum == rqs[result].totalWeight <= rqs[tasks[p].cpu].totalWeight
        invariant result != tasks[p].cpu ==>
          && result in online && result in tasks[p].allowed
          && minimum < rqs[tasks[p].cpu].totalWeight && result < cpu
        invariant result != tasks[p].cpu ==>
          forall c :: 0 <= c < result && c in online && c in tasks[p].allowed ==> minimum < rqs[c].totalWeight
        invariant forall c :: 0 <= c < cpu && c in online && c in tasks[p].allowed ==>
          minimum <= rqs[c].totalWeight
      {
        if cpu !in online || cpu !in tasks[p].allowed {
          continue;
        }
        var temp := rqs[cpu].totalWeight;
        if temp < minimum {
          minimum, result := temp, cpu;
        }
      }
    }

    /** The searches of select_fallback_rq for a CPU that is online and allowed; every online CPU
        is taken to be active. */
    method FirstAllowed(p: nat, among: set<nat>) returns (cpu: Option<nat>)
      requires Valid() && p < |tasks|
      ensures cpu.Some? ==> IsFirst(cpu.value, online * tasks[p].allowed * among)
      ensures cpu.None? <==> online * tasks[p].allowed * among == {}
    {
      for c := 0 to s.cpus
        invariant forall d :: 0 <= d < c ==> d !in online * tasks[p].allowed * among
      {
        if c in online && c in tasks[p].allowed && c in among {
          return Some(c);
        }
      }
      return None;
    }

    /** select_fallback_rq: first the node of the CPU the task is on, then anywhere, at last with
        the mask the task's cpuset would give it, and with any. The BUG is not reached. */
    method SelectFallbackRq(p: nat, node: set<nat>, cpuset: set<nat>) returns (cpu: nat)
      requires Valid() && p < |tasks| && online != {}
      modifies `tasks
      ensures Valid() && p < |tasks| && cpu in online && cpu in tasks[p].allowed
      ensures var was := old(tasks[p]).allowed;
              && tasks == old(tasks)[p := old(tasks[p]).(allowed := tasks[p].allowed)]
              && tasks[p].allowed == (if online * was != {} then was
                                      else if online * cpuset != {} then cpuset
                                      else Below(s.cpus))
              && IsFirst(cpu, if online * was * node != {} then online * was * node else online * tasks[p].allowed)
    {
      hide Books;
      var found := FirstAllowed(p, node);
      if found.Some? {
        cpu := found.value;
        assert cpu in online * tasks[p].allowed && tasks == tasks[p := tasks[p]];
        return;
      }
      cpu := Anywhere(p, cpuset);
    }

    method Anywhere(p: nat, cpuset: set<nat>) returns (cpu: nat)
      requires Valid() && p < |tasks| && online != {}
      modifies `tasks
      ensures Valid() && p < |tasks| && IsFirst(cpu, online * tasks[p].allowed)
      ensures var was := old(tasks[p]).allowed;
              && tasks == old(tasks)[p := old(tasks[p]).(allowed := tasks[p].allowed)]
              && tasks[p].allowed == if online * was != {} then was
                                     else if online * cpuset != {} then cpuset
                                     else Below(s.cpus)
    {
      hide Books;
      var all := Below(s.cpus);
      AllOnline();
      var found := FirstAllowed(p, all);
      WithinAll(tasks[p].allowed);
      var state := 0;
      while found.None?
        invariant Valid() && p < |tasks| && state <= 2
        invariant tasks == old(tasks)[p := old(tasks[p]).(allowed := tasks[p].allowed)]
        invariant tasks[p].allowed == if state == 0 then old(tasks[p]).allowed else if state == 1 then cpuset else all
        invariant state >= 1 ==> online * old(tasks[p]).allowed == {}
        invariant state == 2 ==> online * cpuset == {}
        invariant found.Some? ==> IsFirst(found.value, online * tasks[p].allowed)
        invariant found.None? ==> online * tasks[p].allowed == {} && state < 2
        decreases 2 - state, found.None?
      {
        if state == 0 {
          DoSetCpusAllowed(p, cpuset);
        } else if state == 1 {
          DoSetCpusAllowed(p, all);
        } else {
          assert false;
        }
        state := state + 1;
        found := FirstAllowed(p, all);
        WithinAll(tasks[p].allowed);
        assert state == 2 ==> online * tasks[p].allowed == online;
      }
      cpu := found.value;
    }

    lemma AllOnline()
      requires Valid()
      ensures online <= Below(s.cpus)
    {
    }

    lemma WithinAll(allowed: set<nat>)
      requires Valid()
      ensures online * allowed * Below(s.cpus) == online * allowed
    {
      AllOnline();
    }

    /** select_task_rq for a task of this class: whatever the class says, the task goes where it
        may run. */
    method SelectTaskRq(p: nat, node: set<nat>, cpuset: set<nat>) returns (cpu: nat)
      requires Valid() && p < |tasks| && online != {}
      modifies `tasks
      ensures Valid() && p < |tasks| && cpu in online && cpu in tasks[p].allowed
      ensures online * old(tasks[p]).allowed != {} ==> tasks == old(tasks)
    {
      hide Books;
      cpu := SelectTaskRqWrr(p);
      if cpu !in tasks[p].allowed || cpu !in online {
        cpu := SelectFallbackRq(p, node, cpuset);
        assert online * old(tasks[p]).allowed != {} ==> tasks == old(tasks)[p := old(tasks[p])];
      } else {
        assert cpu in online * tasks[p].allowed;
      }
    }

    // ----------------------------------------------------------------
    // Pulling
    // ----------------------------------------------------------------

    static lemma PullIsStep(s: Setup, m: State, p: nat, dst: nat)
      requires Sound(s, m) && p < |m.tasks| && InQueue(m.tasks, m.rqs, p) && dst < s.cpus && dst != m.tasks[p].cpu
      ensures m.tasks[p].cpu < |m.rqs| == s.cpus
      ensures
        var t := m.tasks[p].(cpu := dst);
        && Allowed(s, m, Replace(p, t, false))
        && Replaced(s, m, p, t, false) == State(m.tasks[p := t], Pulled(m.tasks, m.rqs, m.tasks[p].cpu, dst, p), m.curr)
    {
      hide RqOk, Quota;
      NotQueued(s, m.tasks, m.rqs, NOBODY, p, m.tasks[p].cpu);
      assert TaskOk(s, m.tasks[p]);
    }

    /** The move itself; migration does the same. */
    method MoveQueuedTask(p: nat, dst: nat)
      requires Valid() && p < |tasks| && InQueue(tasks, rqs, p) && dst < s.cpus && dst != tasks[p].cpu
      modifies `tasks, `rqs
      ensures Valid() && old(tasks[p]).cpu < old(|rqs|) && dst < old(|rqs|)
      ensures tasks == old(tasks)[p := old(tasks[p]).(cpu := dst)]
      ensures rqs == Pulled(old(tasks), old(rqs), old(tasks[p]).cpu, dst, p)
      ensures Step(s, old(Now()), Replace(p, old(tasks[p]).(cpu := dst), false), Now())
      ensures MachineWeight(rqs) == old(MachineWeight(rqs)) && MachineRunning(rqs) == old(MachineRunning(rqs))
    {
      hide RqOk, Quota, Replaced, MachineWeight, MachineRunning;
      var src := tasks[p].cpu;
      NotQueued(s, tasks, rqs, NOBODY, p, src);
      assert TaskOk(s, tasks[p]);
      assert tasks[p].onRq && tasks[p].wrrClass;
      PullConserves(tasks, rqs, src, dst, p);
      PullIsStep(s, Now(), p, dst);
      DequeueTask(p);
      ChangeKeeps(s, tasks, rqs, p, p, tasks[p].(cpu := dst));
      tasks := tasks[p := tasks[p].(cpu := dst)];
      EnqueueTask(p, false);
      CloseBooks(s, tasks, rqs, p);
    }

    /** A task that CPU dst may take from CPU src */
    ghost predicate MayMove(src: nat, dst: nat, p: nat)
      reads this
    {
      && src < |rqs| && src < |curr| && p < |tasks| && p in rqs[src].queue && curr[src] != p
      && tasks[p].policy == 6 && dst in tasks[p].allowed && tasks[p].onRq
    }

    /** The inner search of pull_wrr_task */
    method FindEligible(src: nat, dst: nat) returns (p: Option<nat>)
      requires Valid() && src < s.cpus && dst < s.cpus
      ensures p.None? ==> NoneEligible(tasks, rqs, curr, src, dst)
      ensures p.Some? ==> Eligible(tasks, rqs, curr, src, dst, p.value)
      ensures p.Some? ==> MayMove(src, dst, p.value)
      ensures p.None? ==> forall k :: 0 <= k < |tasks| ==> !MayMove(src, dst, k)
      ensures p.Some? ==> forall i :: 0 <= i < Index(rqs[src].queue, p.value) ==>
        !Eligible(tasks, rqs, curr, src, dst, rqs[src].queue[i])
    {
      hide Weighted;
      var q := rqs[src].queue;
      assert RqOk(s, tasks, rqs[src], src);
      for i := 0 to |q|
        invariant forall j :: 0 <= j < i ==> !Eligible(tasks, rqs, curr, src, dst, q[j])
      {
        var k := q[i];
        assert k in q;
        if curr[src] == k || tasks[k].policy != SCHED_WRR || dst !in tasks[k].allowed {
          continue;
        }
        if tasks[k].onRq {
          IndexOf(q, i);
          return Some(k);
        }
      }
      forall k: nat ensures !Eligible(tasks, rqs, curr, src, dst, k) {
        if k in q {
          var i := Index(q, k);
          assert q[i] == k;
        }
      }
      return None;
    }

    static lemma IndexOf(q: seq<nat>, i: nat)
      requires NoDuplicates(q) && i < |q|
      ensures q[i] in q && Index(q, q[i]) == i
    {
      var j := Index(q, q[i]);
      assert q[j] == q[i];
    }

    /** pull_wrr_task: takes the first task that may move from the first other CPU that has one;
        takes none only if there is none. Nothing is lost or gained machine-wide. */
    method PullWrrTask(dst: nat) returns (pulled: Option<nat>)
      requires Valid() && dst < s.cpus
      modifies `tasks, `rqs
      ensures Valid()
      ensures pulled.None? ==> tasks == old(tasks) && rqs == old(rqs)
      ensures pulled.None? && dst in online ==>
        forall src, p :: 0 <= src < s.cpus && src in online && src != dst && 0 <= p < |tasks| ==>
          !MayMove(src, dst, p)
      ensures pulled.Some? ==> pulled.value < |old(tasks)| && old(MayMove(tasks[pulled.value].cpu, dst, pulled.value))
      ensures pulled.None? && dst in online ==>
        forall src :: 0 <= src < s.cpus && src in online && src != dst ==>
          NoneEligible(tasks, rqs, curr, src, dst)
      ensures pulled.Some? ==>
        var p := pulled.value;
        && dst in online && p < |old(tasks)| && old(tasks[p]).cpu < old(|rqs|) && dst < old(|rqs|)
        && var src := old(tasks[p]).cpu;
        && src in online && src != dst && Eligible(old(tasks), old(rqs), curr, src, dst, p)
        && (forall c :: 0 <= c < src && c in online && c != dst ==> NoneEligible(old(tasks), old(rqs), curr, c, dst))
        && (forall i :: 0 <= i < Index(old(rqs[src]).queue, p) ==>
              !Eligible(old(tasks), old(rqs), curr, src, dst, old(rqs[src]).queue[i]))
        && tasks == old(tasks)[p := old(tasks[p]).(cpu := dst)]
        && rqs == Pulled(old(tasks), old(rqs), src, dst, p)
        && dst in tasks[p].allowed && Step(s, old(Now()), Replace(p, old(tasks[p]).(cpu := dst), false), Now())
      ensures MachineWeight(rqs) == old(MachineWeight(rqs)) && MachineRunning(rqs) == old(MachineRunning(rqs))
    {
      hide Weighted, Eligible, NoneEligible, MachineWeight, MachineRunning, Pulled;
      if dst !in online {
        return None;
      }
      for src := 0 to s.cpus
        invariant Valid() && tasks == old(tasks) && rqs == old(rqs)
        invariant forall c :: 0 <= c < src && c in online && c != dst ==> NoneEligible(tasks, rqs, curr, c, dst)
      {
        if src !in online || src == dst {
          continue;
        }
        if rqs[src].queue == [] {
          EmptyHasNone(tasks, rqs, curr, src, dst);
          continue;
        }
        pulled := FindEligible(src, dst);
        if pulled.Some? {
          EligibleQueued(src, dst, pulled.value);
          MoveQueuedTask(pulled.value, dst);
          return;
        }
      }
      forall src: nat | src < s.cpus && src in online && src != dst
        ensures forall p :: 0 <= p < |tasks| ==> !MayMove(src, dst, p)
      {
        NoneMoves(src, dst);
      }
      return None;
    }

    lemma NoneMoves(src: nat, dst: nat)
      requires NoneEligible(tasks, rqs, curr, src, dst)
      ensures forall p :: 0 <= p < |tasks| ==> !MayMove(src, dst, p)
    {
      forall p: nat | p < |tasks| && MayMove(src, dst, p) ensures false {
        EligibleMeans(tasks, rqs, curr, src, dst, p);
      }
    }

    static lemma EmptyHasNone(tasks: seq<Task>, rqs: seq<WrrRq>, curr: seq<int>, src: nat, dst: nat)
      requires src < |rqs| && rqs[src].queue == []
      ensures NoneEligible(tasks, rqs, curr, src, dst)
    {
    }

    lemma EligibleQueued(src: nat, dst: nat, p: nat)
      requires Valid() && src < s.cpus && Eligible(tasks, rqs, curr, src, dst, p)
      ensures p < |tasks| && InQueue(tasks, rqs, p) && tasks[p].cpu == src && dst in tasks[p].allowed
    {
      NotQueued(s, tasks, rqs, NOBODY, p, src);
    }
  }

  // ------------------------------------------------------------------
  // Runs from the constructor
  // ------------------------------------------------------------------

  /** The child of a task of the class asks for the class, is told yes, and stays outside. */
  method ChildStaysOut() returns (m: Machine, child: nat, ret: int)
    ensures fresh(m) && m.Valid() && child < |m.tasks| && ret == 0
    ensures m.tasks[child].policy == SCHED_WRR && !m.tasks[child].wrrClass && m.tasks[child].onRq
  {
    hide Books, TaskOk;
    m := new Machine(100, 1, [false], {0});
    var p := m.SchedFork(BOOT);
    m.WakeUpNewTask(p, 0);
    ret := m.SetScheduler(p, SCHED_WRR, 0);
    assert m.tasks[p].wrrClass && m.tasks[p].policy == SCHED_WRR;
    child := m.SchedFork(p);
    m.WakeUpNewTask(child, 0);
    ret := m.SetScheduler(child, SCHED_WRR, 0);
  }

  /** The flag does not help: the child of a task of the class keeps the policy, and a task that has
      the policy already is told yes and does not get the flag. */
  method ResetsNothing() returns (m: Machine, parent: nat, child: nat, ret: int)
    ensures fresh(m) && m.Valid() && parent < |m.tasks| && child < |m.tasks| && ret == 0
    ensures m.tasks[parent].resetOnFork && m.tasks[child].policy == SCHED_WRR && !m.tasks[child].resetOnFork
  {
    hide Books, TaskOk;
    m := new Machine(100, 1, [false], {0});
    parent := m.SchedFork(BOOT);
    ret := m.SetScheduler(parent, SCHED_WRR + RESET_ON_FORK, 0);
    assert m.tasks[parent].policy == SCHED_WRR && m.tasks[parent].resetOnFork;
    child := m.SchedFork(parent);
    assert m.tasks[child] == Child(m.tasks[parent]);
    ret := m.SetScheduler(child, SCHED_WRR + RESET_ON_FORK, 0);
  }

  /** A foreground task of the class on CPU 0, woken up for the first time and put into the
      class */
  method Spawn(m: Machine) returns (p: nat)
    requires m.Valid() && m.s.cpus > 0 && |m.s.background| > 0 && !m.s.background[0]
    requires |m.tasks| > 0 && m.tasks[0] == BootTask(m.s.hz)
    modifies m
    ensures m.Valid() && p == |old(m.tasks)| && m.curr == old(m.curr) && m.online == old(m.online)
    ensures var t := Task(FOREGROUND, ForegroundSlice(m.s.hz), 0, SCHED_WRR, 0, true, true, 0, {0}, false);
      && 0 < |old(m.rqs)| && m.tasks == old(m.tasks) + [t]
      && m.rqs == old(m.rqs)[0 := Enqueued(old(m.rqs[0]), p, FOREGROUND, false)]
  {
    hide Books, TaskOk, ForegroundSlice;
    p := m.SchedFork(BOOT);
    OutsideBooks(m.s, m.tasks, m.rqs, p);
    m.WakeUpNewTask(p, 0);
    OutsideBooks(m.s, m.tasks, m.rqs, p);
    var ret := m.SetScheduler(p, SCHED_WRR, 0);
  }

  lemma OutsideBooks(s: Setup, tasks: seq<Task>, rqs: seq<WrrRq>, p: nat)
    requires Books(s, tasks, rqs, NOBODY) && p < |tasks| && !tasks[p].wrrClass
    ensures |rqs| == s.cpus && !InQueue(tasks, rqs, p)
  {
  }

  /** A task of the class that lost its CPU while asleep: nothing allowed is lighter, so the
      class still chooses the old one. */
  method OutsideItsMask() returns (m: Machine, result: nat)
    ensures fresh(m) && m.Valid() && |m.tasks| == 2 && m.tasks[1].wrrClass
    ensures m.tasks[1].allowed == {1, 2} && m.tasks[1].allowed <= m.online && result == 0
  {
    hide Books, TaskOk;
    m := new Machine(100, 3, [false], {0, 1, 2});
    var p := Spawn(m);
    m.Deactivate(p);
    assert m.tasks[p].cpu == 0 && forall c :: 0 <= c < 3 ==> m.rqs[c].totalWeight == 0;
    m.DoSetCpusAllowed(p, {1, 2});
    result := m.SelectTaskRqWrr(p);
  }

  /** A running task that changes its group goes to the tail and runs on: the other one, now at
      the head, has its whole new slice still to wait. */
  method MovedWhileRunning() returns (m: Machine)
    ensures fresh(m) && m.Valid() && |m.tasks| == 3 && m.curr == [1] && m.rqs[0].queue == [2, 1]
    ensures m.tasks[1].slice == BackgroundSlice(100) && WaitsOn(m.Now(), 0, 2)
    ensures WaitOn(m.Now(), 0, 2) == BackgroundSlice(100) > 0
  {
    hide Books, TaskOk, Wait, Without;
    m := new Machine(100, 1, [false, true], {0});
    var p := Spawn(m);
    m.Schedule(0, None, NOBODY);
    var q := Spawn(m);
    assert m.curr == [1] && m.rqs[0].queue == [1, 2];
    SecondStays();
    m.SchedMoveTask(1, 1);
    assert m.rqs[0].queue == [2, 1] && m.tasks[1].slice == BackgroundSlice(100);
    OnlyTheRunning(m.tasks);
  }

  lemma SecondStays()
    ensures Without<nat>([1, 2], 1) == [2]
  {
    var q: seq<nat> := [1, 2];
    assert q[1..] == [2] && q[1..][1..] == [];
  }

  lemma OnlyTheRunning(tasks: seq<Task>)
    requires |tasks| > 2
    ensures Wait(tasks, [2, 1], 1, 2) == tasks[1].slice
  {
    assert Ahead([2, 1], 2) == [];
  }
}
