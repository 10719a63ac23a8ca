/** What one operation of the weighted round robin class does to the whole machine (wrr.c,
    core.c), as a step from state to state, and that every step keeps the accounts. */
module WrrSteps {
  import opened WrrRound
  import opened WrrBooks

  /** curr is rq->curr: a task, or any negative number for one that is not modelled. */
  datatype State = State(tasks: seq<Task>, rqs: seq<WrrRq>, curr: seq<int>)

  datatype Op =
    | TickOn(c: nat, preempts: bool)             // task_tick_wrr; may the CPU be rescheduled at once?
    | Replace(p: nat, t: Task, head: bool)     // off its queue if on one, changed, on again if on_rq
    | Requeue(p: nat, head: bool)              // requeue_task_wrr
    | Affine(p: nat, allowed: set<nat>)        // do_set_cpus_allowed
    | Fork(t: Task)
    | Switch(c: nat, to: int)                  // schedule

  ghost predicate Sound(s: Setup, m: State) {
    Books(s, m.tasks, m.rqs, NOBODY) && |m.curr| == s.cpus
  }

  /** The CPU's running task is queued in this class. */
  predicate RunsHere(m: State, c: nat) {
    c < |m.rqs| && c < |m.curr| && 0 <= m.curr[c] < |m.tasks| && m.curr[c] in m.rqs[c].queue
  }

  /** schedule chooses the first task of the class, or one of another class. */
  ghost predicate Allowed(s: Setup, m: State, op: Op) {
    match op
    case TickOn(c, _) => c < s.cpus && RunsHere(m, c)
    case Replace(p, t, _) => p < |m.tasks| && TaskOk(s, t)
    case Requeue(p, _) => p < |m.tasks| && InQueue(m.tasks, m.rqs, p)
    case Affine(p, _) => p < |m.tasks|
    case Fork(t) => TaskOk(s, t) && !t.onRq
    case Switch(c, to) => c < |m.rqs| && c < |m.curr| && (to !in m.rqs[c].queue || to == m.rqs[c].queue[0])
  }

  /** Dequeue, change, enqueue: the common shape of wakeups, sleeps, moves and class changes */
  function Replaced(s: Setup, m: State, p: nat, t: Task, head: bool): State
    requires p < |m.tasks|
  {
    var off := TakenOff(m.tasks, m.rqs, p);
    if t.onRq then
      var t' := PutOnTask(s, t);
      State(m.tasks[p := t'], PutOnQueues(off, p, t', head), m.curr)
    else State(m.tasks[p := t], off, m.curr)
  }

  function Ticked(s: Setup, m: State, c: nat, preempts: bool): State
    requires RunsHere(m, c)
  {
    var p: nat := m.curr[c];
    var queue := TickedQueue(m.rqs[c].queue, p, m.tasks[p]);
    State(m.tasks[p := TickedTask(s, m.tasks[p])], m.rqs[c := m.rqs[c].(queue := queue)],
          if preempts && Decremented(m.tasks[p].slice) == 0 && |queue| > 1 then m.curr[c := queue[0]] else m.curr)
  }

  function Requeued(m: State, p: nat, head: bool): State
    requires p < |m.tasks| && InQueue(m.tasks, m.rqs, p)
  {
    var c := m.tasks[p].cpu;
    m.(rqs := m.rqs[c := m.rqs[c].(queue := MovedTo(m.rqs[c].queue, p, head))])
  }

  ghost function After(s: Setup, m: State, op: Op): State
    requires Allowed(s, m, op)
  {
    match op
    case TickOn(c, preempts) => Ticked(s, m, c, preempts)
    case Replace(p, t, head) => Replaced(s, m, p, t, head)
    case Requeue(p, head) => Requeued(m, p, head)
    case Affine(p, allowed) => m.(tasks := m.tasks[p := m.tasks[p].(allowed := allowed)])
    case Fork(t) => m.(tasks := m.tasks + [t])
    case Switch(c, to) => m.(curr := m.curr[c := to])
  }

  lemma {:induction false} ReplacedKeeps(s: Setup, m: State, p: nat, t: Task, head: bool)
    requires Sound(s, m) && p < |m.tasks| && TaskOk(s, t)
    ensures Sound(s, Replaced(s, m, p, t, head))
  {
    hide RqOk, Weighted, TaskOk, Dequeued, Enqueued;
    if InQueue(m.tasks, m.rqs, p) {
      DequeueKeeps(s, m.tasks, m.rqs, NOBODY, p);
    } else {
      OpenBooks(s, m.tasks, m.rqs, p);
    }
    var off := TakenOff(m.tasks, m.rqs, p);
    TaskFits(s, t);
    ChangeKeeps(s, m.tasks, off, p, p, t);
    var tasks := m.tasks[p := t];
    if t.onRq && t.wrrClass {
      EnqueueKeeps(s, tasks, off, p, head);
      assert tasks[p := Weighed(s, t)] == m.tasks[p := Weighed(s, t)];
    }
    var r := Replaced(s, m, p, t, head);
    CloseBooks(s, r.tasks, r.rqs, p);
  }

  lemma {:induction false} TickedKeeps(s: Setup, m: State, c: nat, preempts: bool)
    requires Sound(s, m) && c < s.cpus && RunsHere(m, c)
    ensures Sound(s, Ticked(s, m, c, preempts))
  {
    hide RqOk, Weighted, TaskOk, MovedTo;
    var p: nat := m.curr[c];
    NotQueued(s, m.tasks, m.rqs, NOBODY, p, c);
    SliceRange(s, m.tasks[p]);
    var t := TickedTask(s, m.tasks[p]);
    SliceKeeps(s, m.tasks, m.rqs, p, t.slice);
    if Decremented(m.tasks[p].slice) == 0 {
      MoveKeeps(s, m.tasks[p := t], m.rqs, p, false);
    } else {
      assert m.rqs[c := m.rqs[c].(queue := m.rqs[c].queue)] == m.rqs;
    }
  }

  lemma {:induction false} SliceRange(s: Setup, t: Task)
    requires Weighted(s, t)
    ensures 1 <= t.slice <= Quota(t.weight, s.hz) && 1 <= TickedTask(s, t).slice <= Quota(t.weight, s.hz)
  {
  }

  /** Every step keeps every account. */
  lemma {:induction false} AfterKeeps(s: Setup, m: State, op: Op)
    requires Sound(s, m) && Allowed(s, m, op)
    ensures Sound(s, After(s, m, op))
  {
    hide Books, Ticked, Replaced, TaskOk;
    match op
    case TickOn(c, preempts) => TickedKeeps(s, m, c, preempts);
    case Replace(p, t, head) => ReplacedKeeps(s, m, p, t, head);
    case Requeue(p, head) => MoveKeeps(s, m.tasks, m.rqs, p, head);
    case Affine(p, allowed) => AffineKeeps(s, m.tasks, m.rqs, p, allowed);
    case Fork(t) => ForkKeeps(s, m.tasks, m.rqs, t);
    case Switch(c, to) =>
  }

  ghost predicate Step(s: Setup, m: State, op: Op, m': State) {
    Allowed(s, m, op) && m' == After(s, m, op)
  }

  ghost predicate IsRun(s: Setup, run: seq<State>, ops: seq<Op>) {
    && |run| == |ops| + 1 && Sound(s, run[0])
    && forall i {:trigger ops[i]} :: 0 <= i < |ops| ==> Step(s, run[i], ops[i], run[i + 1])
  }

  /** Over every run the accounts are in order. */
  lemma {:induction false} RunKeeps(s: Setup, run: seq<State>, ops: seq<Op>, i: nat)
    requires IsRun(s, run, ops) && i < |run|
    ensures Sound(s, run[i])
  {
    hide Sound, After, Allowed;
    if i > 0 {
      RunKeeps(s, run, ops, i - 1);
      assert Step(s, run[i - 1], ops[i - 1], run[i]);
      AfterKeeps(s, run[i - 1], ops[i - 1]);
    }
  }
}
