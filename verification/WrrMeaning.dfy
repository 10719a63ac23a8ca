/** What every step of the weighted round robin class comes to, field by field: the task's weight and
    slice, where it stands in which list, and that everything else stays (wrr.c, core.c). */
module WrrMeaning {
  import opened Sequences
  import opened WrrRound
  import opened WrrBooks
  import opened WrrSteps

  /** A task that is put on a queue has its group's weight, 1 in a background group and 10 in any other.
      If that weight is new to it, so is the slice: 10 ms or 100 ms in ticks. */
  ghost predicate PutOn(s: Setup, was: Task, now: Task) {
    && was.group < |s.background|
    && now == was.(weight := now.weight, slice := now.slice)
    && now.weight == (if s.background[was.group] then 1 else 10)
    && (now.weight == was.weight ==> now.slice == was.slice)
    && (now.weight != was.weight ==>
          now.slice == if s.background[was.group] then 10 * s.hz / 1000 else 100 * s.hz / 1000)
  }

  lemma {:induction false} WeighedMeans(s: Setup, t: Task)
    requires t.group < |s.background|
    ensures PutOn(s, t, Weighed(s, t))
  {
  }

  /** Where a list is left by a task that goes off it and perhaps on again */
  ghost predicate OffAndOn(q: seq<nat>, q': seq<nat>, p: nat, on: bool, head: bool) {
    q' == if !on then Without(q, p) else if head then [p] + Without(q, p) else Without(q, p) + [p]
  }

  ghost predicate OthersStay(tasks: seq<Task>, tasks': seq<Task>, p: nat) {
    |tasks'| == |tasks| && forall k :: 0 <= k < |tasks| && k != p ==> tasks'[k] == tasks[k]
  }

  /** Off, changed, and on again: the task ends as it was asked for, weighed if it is queued in this
      class, at the tail of its CPU's list or at the head, and in no other list. */
  ghost predicate MeansReplace(s: Setup, m: State, p: nat, t: Task, head: bool, m': State) {
    && p < |m.tasks| && OthersStay(m.tasks, m'.tasks, p)
    && (if t.onRq && t.wrrClass then PutOn(s, t, m'.tasks[p]) else m'.tasks[p] == t)
    && |m'.rqs| == |m.rqs| && m'.curr == m.curr
    && forall c :: 0 <= c < |m.rqs| ==>
      OffAndOn(m.rqs[c].queue, m'.rqs[c].queue, p, t.onRq && t.wrrClass && t.cpu == c, head)
  }

  /** A tick takes one off the slice of the running task. When that was the last, the slice is full
      again and the task goes to the tail, and if others are queued and the CPU may be preempted the
      next one runs. */
  ghost predicate MeansTick(s: Setup, m: State, c: nat, preempts: bool, m': State) {
    && c < |m.rqs| == |m'.rqs| && c < |m.curr| && 0 <= m.curr[c] < |m.tasks|
    && OthersStay(m.tasks, m'.tasks, m.curr[c])
    && (forall d :: 0 <= d < |m.rqs| && d != c ==> m'.rqs[d] == m.rqs[d])
    && var p: nat := m.curr[c]; var t := m.tasks[p];
    if t.slice > 1 then
      && m'.tasks[p] == t.(slice := t.slice - 1)
      && m'.rqs[c] == m.rqs[c] && m'.curr == m.curr
    else
      && m'.tasks[p] == t.(slice := if t.weight == 1 then 10 * s.hz / 1000 else 100 * s.hz / 1000)
      && m'.rqs[c].queue == Without(m.rqs[c].queue, p) + [p]
      && m'.curr == if preempts && |m.rqs[c].queue| > 1 then m.curr[c := m'.rqs[c].queue[0]] else m.curr
  }

  ghost predicate Means(s: Setup, m: State, op: Op, m': State) {
    match op
    case TickOn(c, preempts) => MeansTick(s, m, c, preempts, m')
    case Replace(p, t, head) => MeansReplace(s, m, p, t, head, m')
    case Requeue(p, head) =>
      && m'.tasks == m.tasks && m'.curr == m.curr && |m'.rqs| == |m.rqs|
      && (forall c :: 0 <= c < |m.rqs| ==> OffAndOn(m.rqs[c].queue, m'.rqs[c].queue, p, p in m.rqs[c].queue, head))
    case Affine(p, allowed) =>
      && p < |m.tasks| && OthersStay(m.tasks, m'.tasks, p) && m'.tasks[p] == m.tasks[p].(allowed := allowed)
      && m'.rqs == m.rqs && m'.curr == m.curr
    case Fork(t) => m'.tasks == m.tasks + [t] && m'.rqs == m.rqs && m'.curr == m.curr
    case Switch(c, to) => c < |m.curr| && m'.tasks == m.tasks && m'.rqs == m.rqs && m'.curr == m.curr[c := to]
  }

  /** In a machine whose accounts are in order a task is in the list of its own CPU or in none. */
  lemma {:induction false} OwnList(s: Setup, m: State, p: nat, c: nat)
    requires Sound(s, m) && p < |m.tasks| && c < |m.rqs|
    ensures p in m.rqs[c].queue <==> m.tasks[p].cpu == c && InQueue(m.tasks, m.rqs, p)
    ensures p !in m.rqs[c].queue ==> Without(m.rqs[c].queue, p) == m.rqs[c].queue
  {
    if p in m.rqs[c].queue { NotQueued(s, m.tasks, m.rqs, NOBODY, p, c); }
    WithoutMembers(m.rqs[c].queue, p);
  }

  lemma {:induction false} ReplaceMeans(s: Setup, m: State, p: nat, t: Task, head: bool)
    requires Sound(s, m) && p < |m.tasks| && TaskOk(s, t)
    ensures MeansReplace(s, m, p, t, head, Replaced(s, m, p, t, head))
  {
    hide Sound, Weighed, Without, PutOn;
    TaskFits(s, t);
    WeighedMeans(s, t);
    WeighedPlace(s, t);
    forall c | 0 <= c < |m.rqs|
      ensures OffAndOn(m.rqs[c].queue, Replaced(s, m, p, t, head).rqs[c].queue, p,
                       t.onRq && t.wrrClass && t.cpu == c, head)
    {
      OwnList(s, m, p, c);
    }
  }

  lemma WeighedPlace(s: Setup, t: Task)
    requires t.group < |s.background|
    ensures Weighed(s, t).cpu == t.cpu && Weighed(s, t).wrrClass == t.wrrClass
  {
  }

  lemma TickedMeans(s: Setup, t: Task, q: seq<nat>, p: nat)
    requires t.slice >= 1 && p in q
    ensures t.slice > 1 ==> TickedTask(s, t) == t.(slice := t.slice - 1) && TickedQueue(q, p, t) == q
    ensures t.slice == 1 ==>
      && TickedTask(s, t) == t.(slice := if t.weight == 1 then 10 * s.hz / 1000 else 100 * s.hz / 1000)
      && TickedQueue(q, p, t) == Without(q, p) + [p]
  {
  }

  lemma {:induction false} TickMeans(s: Setup, m: State, c: nat, preempts: bool)
    requires Sound(s, m) && c < s.cpus && RunsHere(m, c)
    ensures MeansTick(s, m, c, preempts, Ticked(s, m, c, preempts))
  {
    hide RqOk, TaskOk, Without;
    var p: nat := m.curr[c];
    NotQueued(s, m.tasks, m.rqs, NOBODY, p, c);
    assert RqOk(s, m.tasks, m.rqs[c], c);
    MovedLength(s, m.tasks, m.rqs[c], c, p);
  }

  lemma MovedLength(s: Setup, tasks: seq<Task>, r: WrrRq, c: nat, p: nat)
    requires RqOk(s, tasks, r, c) && p in r.queue
    ensures |Without(r.queue, p)| == |r.queue| - 1
  {
    WithoutLength(r.queue, p);
  }

  /** Every step means what it says. */
  lemma {:induction false} StepMeans(s: Setup, m: State, op: Op, m': State)
    requires Sound(s, m) && Step(s, m, op, m')
    ensures Means(s, m, op, m')
  {
    hide Sound, MeansTick, MeansReplace, Ticked, Replaced, Without, TaskOk;
    match op
    case TickOn(c, preempts) => TickMeans(s, m, c, preempts);
    case Replace(p, t, head) => ReplaceMeans(s, m, p, t, head);
    case Requeue(p, head) =>
      forall c | 0 <= c < |m.rqs| ensures OffAndOn(m.rqs[c].queue, m'.rqs[c].queue, p, p in m.rqs[c].queue, head) {
        OwnList(s, m, p, c);
      }
    case _ =>
  }

  /** The tasks a CPU may take from another one: queued there in this policy, not running, and allowed
      to move. */
  lemma EligibleMeans(tasks: seq<Task>, rqs: seq<WrrRq>, curr: seq<int>, src: nat, dst: nat, p: nat)
    requires src < |rqs| && src < |curr| && p < |tasks|
    ensures Eligible(tasks, rqs, curr, src, dst, p) <==>
      p in rqs[src].queue && curr[src] != p && tasks[p].policy == 6 && dst in tasks[p].allowed && tasks[p].onRq
  {
  }
}
