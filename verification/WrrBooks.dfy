/** The accounts of the weighted round robin class (wrr.c, core.c): every CPU's queue, its
    count and its total weight, and what moving one task does to them. */
module WrrBooks {
  import opened Sequences
  import opened Sums
  import opened WrrRound

  const SCHED_WRR: nat := 6

  /** The fields of struct task_struct that matter here. wrrClass tells wrr_sched_class from
      every other class. */
  datatype Task = Task(weight: int, slice: nat, group: nat, policy: nat, rtPriority: nat, wrrClass: bool,
                       onRq: bool, cpu: nat, allowed: set<nat>, resetOnFork: bool)

  /** struct wrr_rq */
  datatype WrrRq = WrrRq(queue: seq<nat>, nrRunning: int, totalWeight: int)

  /** The machine's fixed parts: which groups are background groups, by number. */
  datatype Setup = Setup(hz: nat, cpus: nat, background: seq<bool>)

  function GroupWeight(s: Setup, t: Task): int
    requires t.group < |s.background|
  {
    if s.background[t.group] then BACKGROUND else FOREGROUND
  }

  ghost function TotalWeight(tasks: seq<Task>, q: seq<nat>): int {
    if |q| == 0 then 0 else (if q[0] < |tasks| then tasks[q[0]].weight else 0) + TotalWeight(tasks, q[1..])
  }

  /** A queued task has its group's weight and a slice of between one tick and its quota. */
  ghost predicate Weighted(s: Setup, t: Task) {
    t.group < |s.background| && t.weight == GroupWeight(s, t) && 1 <= t.slice <= Quota(t.weight, s.hz)
  }

  /** Any task's slice fits its weight, if that is one of the two: a task that was never queued
      may have another. */
  ghost predicate TaskOk(s: Setup, t: Task) {
    && t.group < |s.background| && t.cpu < s.cpus
    && (t.weight == BACKGROUND || t.weight == FOREGROUND ==> 1 <= t.slice <= Quota(t.weight, s.hz))
    && (t.wrrClass ==> t.policy == SCHED_WRR)
  }

  ghost predicate RqOk(s: Setup, tasks: seq<Task>, r: WrrRq, c: nat) {
    && NoDuplicates(r.queue) && r.nrRunning == |r.queue|
    && (forall p {:trigger p in r.queue} :: p in r.queue ==>
          p < |tasks| && tasks[p].cpu == c && tasks[p].wrrClass && Weighted(s, tasks[p]))
    && r.totalWeight == TotalWeight(tasks, r.queue)
  }

  predicate InQueue(tasks: seq<Task>, rqs: seq<WrrRq>, p: nat)
    requires p < |tasks|
  {
    tasks[p].cpu < |rqs| && p in rqs[tasks[p].cpu].queue
  }

  const NOBODY: int := -1

  /** All accounts are in order, except that task x may be queued or not. */
  ghost predicate Books(s: Setup, tasks: seq<Task>, rqs: seq<WrrRq>, x: int) {
    && Clock(s.hz) && |rqs| == s.cpus
    && (forall c {:trigger rqs[c]} :: 0 <= c < s.cpus ==> RqOk(s, tasks, rqs[c], c))
    && (forall p {:trigger tasks[p]} :: 0 <= p < |tasks| ==> TaskOk(s, tasks[p]))
    && (forall p {:trigger InQueue(tasks, rqs, p)} :: 0 <= p < |tasks| && p != x ==>
          (InQueue(tasks, rqs, p) <==> tasks[p].onRq && tasks[p].wrrClass))
  }

  // ------------------------------------------------------------------
  // Sums
  // ------------------------------------------------------------------

  lemma {:induction false} TotalAppend(tasks: seq<Task>, q: seq<nat>, r: seq<nat>)
    ensures TotalWeight(tasks, q + r) == TotalWeight(tasks, q) + TotalWeight(tasks, r)
  {
    if |q| == 0 {
      assert q + r == r;
    } else {
      assert (q + r)[0] == q[0] && (q + r)[1..] == q[1..] + r;
      TotalAppend(tasks, q[1..], r);
    }
  }

  lemma {:induction false} TotalSame(tasks: seq<Task>, tasks': seq<Task>, q: seq<nat>)
    requires forall p {:trigger p in q} :: p in q ==> p < |tasks| && p < |tasks'| && tasks[p].weight == tasks'[p].weight
    ensures TotalWeight(tasks, q) == TotalWeight(tasks', q)
  {
    if |q| > 0 {
      assert q[0] in q;
      assert forall p {:trigger p in q[1..]} :: p in q[1..] ==> p in q;
      TotalSame(tasks, tasks', q[1..]);
    }
  }

  lemma {:induction false} TotalOne(tasks: seq<Task>, p: nat)
    requires p < |tasks|
    ensures TotalWeight(tasks, [p]) == tasks[p].weight
  {
    assert [p][1..] == [];
    assert TotalWeight(tasks, []) == 0;
  }

  function Index(q: seq<nat>, p: nat): (i: nat)
    requires p in q
    ensures i < |q| && q[i] == p
  {
    if q[0] == p then 0 else Index(q[1..], p) + 1
  }

  lemma {:induction false} TotalWithout(tasks: seq<Task>, q: seq<nat>, p: nat)
    requires p in q && NoDuplicates(q) && p < |tasks|
    ensures TotalWeight(tasks, Without(q, p)) == TotalWeight(tasks, q) - tasks[p].weight
  {
    if q[0] == p {
      assert p !in q[1..];
      WithoutMembers(q[1..], p);
    } else {
      TotalWithout(tasks, q[1..], p);
      assert ([q[0]] + Without(q[1..], p))[1..] == Without(q[1..], p);
    }
  }

  lemma {:induction false} WithoutFacts(tasks: seq<Task>, q: seq<nat>, p: nat)
    requires p in q && NoDuplicates(q) && p < |tasks|
    ensures NoDuplicates(Without(q, p)) && |Without(q, p)| == |q| - 1
    ensures forall k {:trigger k in q} {:trigger k in Without(q, p)} :: k in Without(q, p) <==> k in q && k != p
    ensures TotalWeight(tasks, Without(q, p)) == TotalWeight(tasks, q) - tasks[p].weight
  {
    WithoutNoDuplicates(q, p);
    WithoutLength(q, p);
    WithoutMembers(q, p);
    TotalWithout(tasks, q, p);
  }

  // ------------------------------------------------------------------
  // One task at a time
  // ------------------------------------------------------------------

  /** What enqueue_wrr_entity makes of a task: its group's weight, and with a new weight a new
      slice. */
  function Weighed(s: Setup, t: Task): Task
    requires t.group < |s.background|
  {
    if t.weight == GroupWeight(s, t) then t
    else t.(weight := GroupWeight(s, t), slice := Quota(GroupWeight(s, t), s.hz))
  }

  function Enqueued(r: WrrRq, p: nat, weight: int, head: bool): WrrRq {
    WrrRq(if head then [p] + r.queue else r.queue + [p], r.nrRunning + 1, r.totalWeight + weight)
  }

  function Dequeued(r: WrrRq, p: nat, weight: int): WrrRq
    requires p in r.queue
  {
    WrrRq(Without(r.queue, p), r.nrRunning - 1, r.totalWeight - weight)
  }

  lemma {:induction false} WeighedOk(s: Setup, t: Task)
    requires Clock(s.hz) && TaskOk(s, t)
    ensures TaskOk(s, Weighed(s, t)) && Weighted(s, Weighed(s, t))
  {
    QuotaWeighs(s.hz);
  }

  /** A task that is not queued is in no queue. */
  lemma {:induction false} NotQueued(s: Setup, tasks: seq<Task>, rqs: seq<WrrRq>, x: int, p: nat, c: nat)
    requires Books(s, tasks, rqs, x) && p < |tasks| && c < s.cpus && p in rqs[c].queue
    ensures InQueue(tasks, rqs, p) && tasks[p].cpu == c && Weighted(s, tasks[p]) && tasks[p].wrrClass
  {
    assert RqOk(s, tasks, rqs[c], c);
  }

  /** A change to a task that is not queued leaves the queues' accounts alone. */
  lemma {:induction false} RqUntouched(s: Setup, tasks: seq<Task>, r: WrrRq, c: nat, p: nat, t: Task)
    requires RqOk(s, tasks, r, c) && p < |tasks| && p !in r.queue
    ensures RqOk(s, tasks[p := t], r, c)
  {
    TotalSame(tasks, tasks[p := t], r.queue);
  }

  lemma {:induction false} ChangeKeeps(s: Setup, tasks: seq<Task>, rqs: seq<WrrRq>, x: int, p: nat, t: Task)
    requires Books(s, tasks, rqs, x) && p < |tasks| && !InQueue(tasks, rqs, p) && TaskOk(s, t)
      && (x == NOBODY || x == p)
    ensures Books(s, tasks[p := t], rqs, p) && !InQueue(tasks[p := t], rqs, p)
  {
    hide RqOk, TaskOk;
    var tasks' := tasks[p := t];
    forall c | 0 <= c < s.cpus ensures RqOk(s, tasks', rqs[c], c) && p !in rqs[c].queue {
      if p in rqs[c].queue { NotQueued(s, tasks, rqs, x, p, c); }
      RqUntouched(s, tasks, rqs[c], c, p, t);
    }
    assert t.cpu < s.cpus by { TaskCpu(s, t); }
    forall k: nat | k < |tasks'| && k != p ensures InQueue(tasks', rqs, k) <==> tasks'[k].onRq && tasks'[k].wrrClass {
      assert InQueue(tasks', rqs, k) == InQueue(tasks, rqs, k);
    }
  }

  lemma TaskCpu(s: Setup, t: Task)
    requires TaskOk(s, t)
    ensures t.cpu < s.cpus
  {
  }

  /** The exception ends when the task is queued just if it ought to be. */
  lemma {:induction false} CloseBooks(s: Setup, tasks: seq<Task>, rqs: seq<WrrRq>, p: nat)
    requires Books(s, tasks, rqs, p) && p < |tasks|
    requires InQueue(tasks, rqs, p) <==> tasks[p].onRq && tasks[p].wrrClass
    ensures Books(s, tasks, rqs, NOBODY)
  {
  }

  lemma OpenBooks(s: Setup, tasks: seq<Task>, rqs: seq<WrrRq>, p: nat)
    requires Books(s, tasks, rqs, NOBODY)
    ensures Books(s, tasks, rqs, p)
  {
  }

  lemma {:induction false} RqEnqueue(s: Setup, tasks: seq<Task>, r: WrrRq, c: nat, p: nat, head: bool)
    requires RqOk(s, tasks, r, c) && p < |tasks| && p !in r.queue
    requires tasks[p].cpu == c && tasks[p].wrrClass && Weighted(s, tasks[p])
    ensures RqOk(s, tasks, Enqueued(r, p, tasks[p].weight, head), c)
  {
    TotalOne(tasks, p);
    if head { TotalAppend(tasks, [p], r.queue); } else { TotalAppend(tasks, r.queue, [p]); }
  }

  /** Enqueueing an unqueued task of the class puts it, reweighed, into its CPU's account. */
  lemma {:induction false} EnqueueKeeps(s: Setup, tasks: seq<Task>, rqs: seq<WrrRq>, p: nat, head: bool)
    requires Books(s, tasks, rqs, p) && p < |tasks| && tasks[p].wrrClass && !InQueue(tasks, rqs, p)
    ensures tasks[p].group < |s.background| && tasks[p].cpu < |rqs|
    ensures
      var t, c := Weighed(s, tasks[p]), tasks[p].cpu;
      var rqs' := rqs[c := Enqueued(rqs[c], p, t.weight, head)];
      Books(s, tasks[p := t], rqs', p) && InQueue(tasks[p := t], rqs', p)
  {
    hide RqOk, TaskOk, Weighted;
    assert TaskOk(s, tasks[p]);
    TaskFits(s, tasks[p]);
    var t, c := Weighed(s, tasks[p]), tasks[p].cpu;
    WeighedOk(s, tasks[p]);
    ChangeKeeps(s, tasks, rqs, p, p, t);
    var tasks' := tasks[p := t];
    RqEnqueue(s, tasks', rqs[c], c, p, head);
    var rqs' := rqs[c := Enqueued(rqs[c], p, t.weight, head)];
    forall k: nat | k < |tasks'| && k != p ensures InQueue(tasks', rqs', k) <==> tasks'[k].onRq && tasks'[k].wrrClass {
      assert InQueue(tasks', rqs', k) == InQueue(tasks', rqs, k);
    }
  }

  lemma TaskFits(s: Setup, t: Task)
    requires TaskOk(s, t)
    ensures t.cpu < s.cpus && t.group < |s.background|
  {
  }

  lemma {:induction false} RqDequeue(s: Setup, tasks: seq<Task>, r: WrrRq, c: nat, p: nat)
    requires RqOk(s, tasks, r, c) && p < |tasks| && p in r.queue
    ensures RqOk(s, tasks, Dequeued(r, p, tasks[p].weight), c)
    ensures p !in Dequeued(r, p, tasks[p].weight).queue
    ensures forall k {:trigger k in Dequeued(r, p, tasks[p].weight).queue} :: k != p ==>
      (k in Dequeued(r, p, tasks[p].weight).queue <==> k in r.queue)
  {
    WithoutFacts(tasks, r.queue, p);
  }

  lemma {:induction false} DequeueKeeps(s: Setup, tasks: seq<Task>, rqs: seq<WrrRq>, x: int, p: nat)
    requires Books(s, tasks, rqs, x) && p < |tasks| && InQueue(tasks, rqs, p) && (x == NOBODY || x == p)
    ensures
      var c := tasks[p].cpu;
      var rqs' := rqs[c := Dequeued(rqs[c], p, tasks[p].weight)];
      Books(s, tasks, rqs', p) && !InQueue(tasks, rqs', p)
  {
    hide RqOk, TaskOk, Weighted, Dequeued;
    var c := tasks[p].cpu;
    var r := Dequeued(rqs[c], p, tasks[p].weight);
    RqDequeue(s, tasks, rqs[c], c, p);
    var rqs' := rqs[c := r];
    forall k: nat | k < |tasks| && k != p ensures InQueue(tasks, rqs', k) <==> tasks[k].onRq && tasks[k].wrrClass {
      assert InQueue(tasks, rqs', k) == InQueue(tasks, rqs, k);
    }
  }

  /** A new slice, in range, for a queued task */
  lemma {:induction false} SliceKeeps(s: Setup, tasks: seq<Task>, rqs: seq<WrrRq>, p: nat, slice: nat)
    requires Books(s, tasks, rqs, NOBODY) && p < |tasks| && InQueue(tasks, rqs, p)
    requires 1 <= slice <= Quota(tasks[p].weight, s.hz)
    ensures Books(s, tasks[p := tasks[p].(slice := slice)], rqs, NOBODY)
  {
    hide RqOk;
    var tasks' := tasks[p := tasks[p].(slice := slice)];
    assert TaskOk(s, tasks[p]);
    forall c | 0 <= c < s.cpus ensures RqOk(s, tasks', rqs[c], c) { RqSlice(s, tasks, rqs[c], c, p, slice); }
    forall k: nat | k < |tasks'| ensures InQueue(tasks', rqs, k) <==> tasks'[k].onRq && tasks'[k].wrrClass {
      assert InQueue(tasks', rqs, k) == InQueue(tasks, rqs, k);
    }
  }

  lemma {:induction false} RqSlice(s: Setup, tasks: seq<Task>, r: WrrRq, c: nat, p: nat, slice: nat)
    requires RqOk(s, tasks, r, c) && p < |tasks| && 1 <= slice <= Quota(tasks[p].weight, s.hz)
    ensures RqOk(s, tasks[p := tasks[p].(slice := slice)], r, c)
  {
    TotalSame(tasks, tasks[p := tasks[p].(slice := slice)], r.queue);
  }

  function MovedTo(q: seq<nat>, p: nat, head: bool): seq<nat>
    requires p in q
  {
    if head then [p] + Without(q, p) else Without(q, p) + [p]
  }

  /** Moving a queued task to either end */
  lemma {:induction false} MoveKeeps(s: Setup, tasks: seq<Task>, rqs: seq<WrrRq>, p: nat, head: bool)
    requires Books(s, tasks, rqs, NOBODY) && p < |tasks| && InQueue(tasks, rqs, p)
    ensures
      var c := tasks[p].cpu;
      Books(s, tasks, rqs[c := rqs[c].(queue := MovedTo(rqs[c].queue, p, head))], NOBODY)
  {
    hide RqOk, TaskOk, MovedTo;
    var c := tasks[p].cpu;
    RqMove(s, tasks, rqs[c], c, p, head);
    var rqs' := rqs[c := rqs[c].(queue := MovedTo(rqs[c].queue, p, head))];
    forall k: nat | k < |tasks| ensures InQueue(tasks, rqs', k) <==> tasks[k].onRq && tasks[k].wrrClass {
      assert InQueue(tasks, rqs', k) == InQueue(tasks, rqs, k);
    }
  }

  lemma {:induction false} RqMove(s: Setup, tasks: seq<Task>, r: WrrRq, c: nat, p: nat, head: bool)
    requires RqOk(s, tasks, r, c) && p in r.queue && p < |tasks|
    ensures RqOk(s, tasks, r.(queue := MovedTo(r.queue, p, head)), c)
    ensures forall k {:trigger k in MovedTo(r.queue, p, head)} :: k in MovedTo(r.queue, p, head) <==> k in r.queue
  {
    WithoutFacts(tasks, r.queue, p);
    var rest := Without(r.queue, p);
    TotalOne(tasks, p);
    if head { TotalAppend(tasks, [p], rest); } else { TotalAppend(tasks, rest, [p]); }
  }

  // ------------------------------------------------------------------
  // Taking off and putting on, whatever the class
  // ------------------------------------------------------------------

  /** The queues once dequeue_task has been called for a task that is on one */
  function TakenOff(tasks: seq<Task>, rqs: seq<WrrRq>, p: nat): seq<WrrRq>
    requires p < |tasks|
  {
    if InQueue(tasks, rqs, p) then
      var c := tasks[p].cpu;
      rqs[c := Dequeued(rqs[c], p, tasks[p].weight)]
    else rqs
  }

  /** The task, and the queues, once enqueue_task has been called for it */
  function PutOnTask(s: Setup, t: Task): Task {
    if t.wrrClass && t.group < |s.background| then Weighed(s, t) else t
  }

  function PutOnQueues(rqs: seq<WrrRq>, p: nat, t: Task, head: bool): seq<WrrRq> {
    if t.wrrClass && t.cpu < |rqs| then rqs[t.cpu := Enqueued(rqs[t.cpu], p, t.weight, head)] else rqs
  }

  /** Setting on_rq ends the exception. */
  lemma {:induction false} OnRqKeeps(s: Setup, tasks: seq<Task>, rqs: seq<WrrRq>, p: nat, onRq: bool)
    requires Books(s, tasks, rqs, p) && p < |tasks|
    requires InQueue(tasks, rqs, p) <==> onRq && tasks[p].wrrClass
    ensures Books(s, tasks[p := tasks[p].(onRq := onRq)], rqs, NOBODY)
  {
    hide RqOk;
    var tasks' := tasks[p := tasks[p].(onRq := onRq)];
    assert TaskOk(s, tasks[p]);
    forall c | 0 <= c < s.cpus ensures RqOk(s, tasks', rqs[c], c) { RqOnRq(s, tasks, rqs[c], c, p, onRq); }
    forall k: nat | k < |tasks'| ensures InQueue(tasks', rqs, k) <==> tasks'[k].onRq && tasks'[k].wrrClass {
      assert InQueue(tasks', rqs, k) == InQueue(tasks, rqs, k);
    }
  }

  lemma {:induction false} RqOnRq(s: Setup, tasks: seq<Task>, r: WrrRq, c: nat, p: nat, onRq: bool)
    requires RqOk(s, tasks, r, c) && p < |tasks|
    ensures RqOk(s, tasks[p := tasks[p].(onRq := onRq)], r, c)
  {
    TotalSame(tasks, tasks[p := tasks[p].(onRq := onRq)], r.queue);
  }

  /** The mask a task may run on is no part of the accounts. */
  lemma {:induction false} AffineKeeps(s: Setup, tasks: seq<Task>, rqs: seq<WrrRq>, p: nat, allowed: set<nat>)
    requires Books(s, tasks, rqs, NOBODY) && p < |tasks|
    ensures Books(s, tasks[p := tasks[p].(allowed := allowed)], rqs, NOBODY)
  {
    hide RqOk;
    var tasks' := tasks[p := tasks[p].(allowed := allowed)];
    assert TaskOk(s, tasks[p]);
    forall c | 0 <= c < s.cpus ensures RqOk(s, tasks', rqs[c], c) { RqAffine(s, tasks, rqs[c], c, p, allowed); }
    forall k: nat | k < |tasks'| ensures InQueue(tasks', rqs, k) <==> tasks'[k].onRq && tasks'[k].wrrClass {
      assert InQueue(tasks', rqs, k) == InQueue(tasks, rqs, k);
    }
  }

  lemma {:induction false} RqAffine(s: Setup, tasks: seq<Task>, r: WrrRq, c: nat, p: nat, allowed: set<nat>)
    requires RqOk(s, tasks, r, c) && p < |tasks|
    ensures RqOk(s, tasks[p := tasks[p].(allowed := allowed)], r, c)
  {
    TotalSame(tasks, tasks[p := tasks[p].(allowed := allowed)], r.queue);
  }

  /** A new task that is on no queue */
  lemma {:induction false} ForkKeeps(s: Setup, tasks: seq<Task>, rqs: seq<WrrRq>, t: Task)
    requires Books(s, tasks, rqs, NOBODY) && TaskOk(s, t) && !t.onRq
    ensures Books(s, tasks + [t], rqs, NOBODY)
  {
    hide RqOk, TaskOk;
    var tasks' := tasks + [t];
    TaskCpu(s, t);
    forall c | 0 <= c < s.cpus
      ensures RqOk(s, tasks', rqs[c], c) && |tasks| !in rqs[c].queue
    {
      RqGrow(s, tasks, rqs[c], c, t);
    }
    forall k: nat | k < |tasks'| ensures InQueue(tasks', rqs, k) <==> tasks'[k].onRq && tasks'[k].wrrClass {
      if k < |tasks| { assert InQueue(tasks', rqs, k) == InQueue(tasks, rqs, k); }
    }
  }

  lemma {:induction false} RqGrow(s: Setup, tasks: seq<Task>, r: WrrRq, c: nat, t: Task)
    requires RqOk(s, tasks, r, c)
    ensures RqOk(s, tasks + [t], r, c) && |tasks| !in r.queue
  {
    TotalSame(tasks, tasks + [t], r.queue);
  }

  // ------------------------------------------------------------------
  // The machine
  // ------------------------------------------------------------------

  ghost function MachineWeight(rqs: seq<WrrRq>): int {
    Sum(seq(|rqs|, c requires 0 <= c < |rqs| => rqs[c].totalWeight))
  }

  ghost function MachineRunning(rqs: seq<WrrRq>): int {
    Sum(seq(|rqs|, c requires 0 <= c < |rqs| => rqs[c].nrRunning))
  }

  lemma {:induction false} MachineUpdate(rqs: seq<WrrRq>, c: nat, r: WrrRq)
    requires c < |rqs|
    ensures MachineWeight(rqs[c := r]) == MachineWeight(rqs) - rqs[c].totalWeight + r.totalWeight
    ensures MachineRunning(rqs[c := r]) == MachineRunning(rqs) - rqs[c].nrRunning + r.nrRunning
  {
    var weights := seq(|rqs|, i requires 0 <= i < |rqs| => rqs[i].totalWeight);
    var counts := seq(|rqs|, i requires 0 <= i < |rqs| => rqs[i].nrRunning);
    var rqs' := rqs[c := r];
    SumUpdate(weights, c, r.totalWeight);
    SumUpdate(counts, c, r.nrRunning);
    assert weights[c := r.totalWeight] == seq(|rqs'|, i requires 0 <= i < |rqs'| => rqs'[i].totalWeight);
    assert counts[c := r.nrRunning] == seq(|rqs'|, i requires 0 <= i < |rqs'| => rqs'[i].nrRunning);
  }

  /** A queue as the round-robin rules see it */
  ghost function View(tasks: seq<Task>, q: seq<nat>): (r: Queue)
    requires forall i {:trigger q[i]} :: 0 <= i < |q| ==> q[i] < |tasks|
    ensures |r| == |q|
  {
    seq(|q|, i requires 0 <= i < |q| => Entity(q[i], tasks[q[i]].weight, tasks[q[i]].slice))
  }

  /** An account in order is a good queue of distinct tasks. */
  lemma {:induction false} ViewGood(s: Setup, tasks: seq<Task>, r: WrrRq, c: nat)
    requires RqOk(s, tasks, r, c)
    ensures forall i {:trigger r.queue[i]} :: 0 <= i < |r.queue| ==> r.queue[i] < |tasks|
    ensures Good(View(tasks, r.queue), s.hz) && Distinct(View(tasks, r.queue))
  {
    forall i | 0 <= i < |r.queue| ensures r.queue[i] < |tasks| && Weighted(s, tasks[r.queue[i]]) {
      assert r.queue[i] in r.queue;
    }
  }

  /** What a tick leaves of the running task and of its queue */
  function TickedTask(s: Setup, t: Task): Task {
    if Decremented(t.slice) > 0 then t.(slice := Decremented(t.slice)) else t.(slice := Quota(t.weight, s.hz))
  }

  function TickedQueue(q: seq<nat>, p: nat, t: Task): seq<nat>
    requires p in q
  {
    if Decremented(t.slice) > 0 then q else MovedTo(q, p, false)
  }

  /** When the running task is at the head, that is the round-robin step. */
  lemma {:induction false} TickedView(s: Setup, tasks: seq<Task>, r: WrrRq, c: nat)
    requires RqOk(s, tasks, r, c) && |r.queue| > 0
    ensures r.queue[0] < |tasks| && r.queue[0] in r.queue
    ensures
      var p := r.queue[0];
      var q' := TickedQueue(r.queue, p, tasks[p]);
      && (forall i {:trigger r.queue[i]} :: 0 <= i < |r.queue| ==> r.queue[i] < |tasks|)
      && (forall i {:trigger q'[i]} :: 0 <= i < |q'| ==> q'[i] < |tasks|)
      && View(tasks[p := TickedTask(s, tasks[p])], q') == Tick(View(tasks, r.queue), s.hz)
  {
    hide RqOk, Quota;
    HeadFirst(s, tasks, r, c);
  }

  lemma {:induction false} HeadFirst(s: Setup, tasks: seq<Task>, r: WrrRq, c: nat)
    requires RqOk(s, tasks, r, c) && |r.queue| > 0
    ensures Without(r.queue, r.queue[0]) == r.queue[1..]
    ensures forall i {:trigger r.queue[i]} :: 0 <= i < |r.queue| ==> r.queue[i] < |tasks|
    ensures forall i {:trigger r.queue[i]} :: 1 <= i < |r.queue| ==> r.queue[i] != r.queue[0]
  {
    ViewGood(s, tasks, r, c);
    WithoutMembers(r.queue[1..], r.queue[0]);
  }

  // ------------------------------------------------------------------
  // The test for a lone task
  // ------------------------------------------------------------------

  /** The neighbours of the i-th entry in the circular list, NOBODY for the list head */
  function Before(q: seq<nat>, i: nat): int
    requires i < |q|
  {
    if i == 0 then NOBODY else q[i - 1]
  }

  function Behind(q: seq<nat>, i: nat): int
    requires i < |q|
  {
    if i == |q| - 1 then NOBODY else q[i + 1]
  }

  /** They differ just if the task is not alone. */
  lemma {:induction false} AloneIff(q: seq<nat>, i: nat)
    requires NoDuplicates(q) && i < |q|
    ensures Before(q, i) != Behind(q, i) <==> |q| > 1
  {
    if 0 < i < |q| - 1 {
      assert q[i - 1] != q[i + 1];
    }
  }

  // ------------------------------------------------------------------
  // Pulling
  // ------------------------------------------------------------------

  /** A task that pull_wrr_task may take from src to dst */
  predicate Eligible(tasks: seq<Task>, rqs: seq<WrrRq>, curr: seq<int>, src: nat, dst: nat, p: nat) {
    && src < |rqs| && src < |curr| && p < |tasks| && p in rqs[src].queue && curr[src] != p
    && tasks[p].policy == SCHED_WRR && dst in tasks[p].allowed && tasks[p].onRq
  }

  ghost predicate NoneEligible(tasks: seq<Task>, rqs: seq<WrrRq>, curr: seq<int>, src: nat, dst: nat) {
    forall p: nat {:trigger Eligible(tasks, rqs, curr, src, dst, p)} :: !Eligible(tasks, rqs, curr, src, dst, p)
  }

  /** Where a pull leaves the queues: the accounts of both CPUs move by the task's weight. */
  function Pulled(tasks: seq<Task>, rqs: seq<WrrRq>, src: nat, dst: nat, p: nat): seq<WrrRq>
    requires src < |rqs| && dst < |rqs| && p < |tasks| && p in rqs[src].queue
  {
    var w := tasks[p].weight;
    var rqs1 := rqs[src := Dequeued(rqs[src], p, w)];
    rqs1[dst := Enqueued(rqs1[dst], p, w, false)]
  }

  /** Both machine-wide totals stay. */
  lemma {:induction false} PullConserves(tasks: seq<Task>, rqs: seq<WrrRq>, src: nat, dst: nat, p: nat)
    requires src < |rqs| && dst < |rqs| && p < |tasks| && p in rqs[src].queue
    ensures MachineWeight(Pulled(tasks, rqs, src, dst, p)) == MachineWeight(rqs)
    ensures MachineRunning(Pulled(tasks, rqs, src, dst, p)) == MachineRunning(rqs)
  {
    var w := tasks[p].weight;
    var rqs1 := rqs[src := Dequeued(rqs[src], p, w)];
    MachineUpdate(rqs, src, Dequeued(rqs[src], p, w));
    MachineUpdate(rqs1, dst, Enqueued(rqs1[dst], p, w, false));
  }
}
