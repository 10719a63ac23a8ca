/** How long a queued task of the weighted round robin class waits for its CPU (wrr.c, core.c),
    over every run of the steps of WrrSteps. The running task need not be the one at the head:
    a group move or a class change of it puts it at the tail and lets it run on. */
module WrrWaiting {
  import opened Sequences
  import opened WrrRound
  import opened WrrBooks
  import opened WrrSteps

  // ------------------------------------------------------------------
  // The wait of a task in a queue
  // ------------------------------------------------------------------

  ghost function Ahead(q: seq<nat>, id: nat): seq<nat> {
    if |q| == 0 || q[0] == id then [] else [q[0]] + Ahead(q[1..], id)
  }

  ghost function SlicesOf(tasks: seq<Task>, q: seq<nat>): nat {
    if |q| == 0 then 0 else (if q[0] < |tasks| then tasks[q[0]].slice else 0) + SlicesOf(tasks, q[1..])
  }

  /** The running task counts as well when it is queued but not ahead. */
  ghost predicate RunsBehind(tasks: seq<Task>, q: seq<nat>, curr: int, id: nat) {
    0 <= curr < |tasks| && curr in q && curr != id && curr !in Ahead(q, id)
  }

  /** The slices ahead of the task, and what is left of the running one's if that is not ahead */
  ghost function Wait(tasks: seq<Task>, q: seq<nat>, curr: int, id: nat): nat {
    SlicesOf(tasks, Ahead(q, id)) + if RunsBehind(tasks, q, curr, id) then tasks[curr].slice else 0
  }

  lemma {:induction false} AheadMembers(q: seq<nat>, id: nat)
    ensures forall x {:trigger x in Ahead(q, id)} :: x in Ahead(q, id) ==> x in q && x != id
  {
    if |q| > 0 && q[0] != id {
      AheadMembers(q[1..], id);
    }
  }

  lemma {:induction false} AheadNoDuplicates(q: seq<nat>, id: nat)
    requires NoDuplicates(q)
    ensures NoDuplicates(Ahead(q, id))
  {
    if |q| > 0 && q[0] != id {
      AheadNoDuplicates(q[1..], id);
      AheadMembers(q[1..], id);
      var r := Ahead(q[1..], id);
      forall j | 0 <= j < |r| ensures r[j] != q[0] {
        assert r[j] in r;
      }
    }
  }

  lemma {:induction false} AheadAppend(q: seq<nat>, id: nat, p: nat)
    requires id in q
    ensures Ahead(q + [p], id) == Ahead(q, id)
  {
    assert (q + [p])[0] == q[0];
    if q[0] != id {
      assert (q + [p])[1..] == q[1..] + [p];
      AheadAppend(q[1..], id, p);
    }
  }

  lemma AheadPrepend(q: seq<nat>, id: nat, p: nat)
    requires p != id
    ensures Ahead([p] + q, id) == [p] + Ahead(q, id)
  {
    assert ([p] + q)[1..] == q;
  }

  lemma {:induction false} AheadWithout(q: seq<nat>, id: nat, p: nat)
    requires p != id
    ensures Ahead(Without(q, p), id) == Without(Ahead(q, id), p)
  {
    if |q| > 0 {
      AheadWithout(q[1..], id, p);
      if q[0] != p && q[0] != id {
        AheadPrepend(Without(q[1..], p), id, q[0]);
        assert ([q[0]] + Ahead(q[1..], id))[1..] == Ahead(q[1..], id);
      } else if q[0] == p {
        assert ([p] + Ahead(q[1..], id))[1..] == Ahead(q[1..], id);
      }
    }
  }

  lemma {:induction false} SlicesWithout(tasks: seq<Task>, q: seq<nat>, p: nat)
    requires NoDuplicates(q) && p < |tasks|
    ensures SlicesOf(tasks, Without(q, p)) == SlicesOf(tasks, q) - if p in q then tasks[p].slice else 0
  {
    if |q| > 0 {
      SlicesWithout(tasks, q[1..], p);
      if q[0] != p {
        assert ([q[0]] + Without(q[1..], p))[1..] == Without(q[1..], p);
      }
    }
  }

  lemma {:induction false} SlicesSame(tasks: seq<Task>, tasks': seq<Task>, q: seq<nat>)
    requires forall p {:trigger p in q} :: p in q ==> p < |tasks| && p < |tasks'| && tasks[p].slice == tasks'[p].slice
    ensures SlicesOf(tasks, q) == SlicesOf(tasks', q)
  {
    if |q| > 0 {
      assert q[0] in q;
      assert forall p {:trigger p in q[1..]} :: p in q[1..] ==> p in q;
      SlicesSame(tasks, tasks', q[1..]);
    }
  }

  lemma {:induction false} SlicesChange(tasks: seq<Task>, q: seq<nat>, p: nat, t: Task)
    requires NoDuplicates(q) && p < |tasks|
    ensures SlicesOf(tasks[p := t], q) == SlicesOf(tasks, q) + if p in q then t.slice - tasks[p].slice else 0
  {
    if |q| > 0 {
      SlicesChange(tasks, q[1..], p, t);
    }
  }

  /** What a task contributes to the wait of another */
  ghost function Part(tasks: seq<Task>, q: seq<nat>, curr: int, id: nat, p: nat): nat
    requires p < |tasks|
  {
    if p in Ahead(q, id) || (p in q && p == curr && p != id) then tasks[p].slice else 0
  }

  lemma {:induction false} WaitWithout(tasks: seq<Task>, q: seq<nat>, curr: int, id: nat, p: nat)
    requires NoDuplicates(q) && p < |tasks| && p != id && id in q
    ensures Wait(tasks, Without(q, p), curr, id) == Wait(tasks, q, curr, id) - Part(tasks, q, curr, id, p)
    ensures id in Without(q, p)
  {
    hide Ahead, SlicesOf;
    AheadWithout(q, id, p);
    AheadNoDuplicates(q, id);
    AheadMembers(q, id);
    SlicesWithout(tasks, Ahead(q, id), p);
    WithoutMembers(Ahead(q, id), p);
    WithoutMembers(q, p);
  }

  lemma {:induction false} WaitWith(tasks: seq<Task>, q: seq<nat>, curr: int, id: nat, p: nat, head: bool)
    requires p < |tasks| && p != id && id in q && p !in q
    ensures
      var q' := if head then [p] + q else q + [p];
      && id in q'
      && Wait(tasks, q', curr, id) == Wait(tasks, q, curr, id) + if head || p == curr then tasks[p].slice else 0
  {
    AheadMembers(q, id);
    if head {
      AheadPrepend(q, id, p);
      assert ([p] + Ahead(q, id))[1..] == Ahead(q, id);
    } else {
      AheadAppend(q, id, p);
    }
  }

  /** A task that is not in the queue may change. */
  lemma {:induction false} WaitChange(tasks: seq<Task>, q: seq<nat>, curr: int, id: nat, p: nat, t: Task)
    requires p < |tasks| && p !in q && forall k {:trigger k in q} :: k in q ==> k < |tasks|
    ensures Wait(tasks[p := t], q, curr, id) == Wait(tasks, q, curr, id)
  {
    AheadMembers(q, id);
    SlicesSame(tasks, tasks[p := t], Ahead(q, id));
  }

  /** The running task's slice changes. */
  lemma {:induction false} WaitSlice(tasks: seq<Task>, q: seq<nat>, p: nat, id: nat, t: Task)
    requires NoDuplicates(q) && p < |tasks| && p in q && p != id
    ensures Wait(tasks[p := t], q, p, id) == Wait(tasks, q, p, id) - tasks[p].slice + t.slice
    ensures Wait(tasks, q, p, id) >= tasks[p].slice
  {
    AheadNoDuplicates(q, id);
    SlicesChange(tasks, Ahead(q, id), p, t);
    SlicesWithout(tasks, Ahead(q, id), p);
  }

  /** Another task takes over: the one at the head, or one of another class. */
  lemma {:induction false} WaitSwitch(tasks: seq<Task>, q: seq<nat>, curr: int, to: int, id: nat)
    requires id in q && (to !in q || to == q[0])
    ensures Wait(tasks, q, to, id) == SlicesOf(tasks, Ahead(q, id)) <= Wait(tasks, q, curr, id)
  {
  }

  lemma {:induction false} WaitMoved(tasks: seq<Task>, q: seq<nat>, curr: int, id: nat, p: nat, head: bool)
    requires NoDuplicates(q) && p < |tasks| && p in q && p != id && id in q
    ensures id in MovedTo(q, p, head)
    ensures Wait(tasks, MovedTo(q, p, head), curr, id)
         == Wait(tasks, q, curr, id) - Part(tasks, q, curr, id, p) + if head || p == curr then tasks[p].slice else 0
  {
    hide Wait, Part;
    WaitWithout(tasks, q, curr, id, p);
    WithoutMembers(q, p);
    WaitWith(tasks, Without(q, p), curr, id, p, head);
  }

  // ------------------------------------------------------------------
  // Steps of the machine
  // ------------------------------------------------------------------

  ghost predicate WaitsOn(m: State, c: nat, id: nat) {
    c < |m.rqs| && c < |m.curr| && id in m.rqs[c].queue
  }

  ghost function WaitOn(m: State, c: nat, id: nat): nat
    requires WaitsOn(m, c, id)
  {
    Wait(m.tasks, m.rqs[c].queue, m.curr[c], id)
  }

  /** The task is left alone. */
  predicate Spares(op: Op, id: nat) {
    match op
    case Replace(p, _, _) => p != id
    case Requeue(p, _) => p != id
    case _ => true
  }

  /** A tick that is charged to a task of this class on CPU c */
  function Charged(op: Op, c: nat): nat {
    if op.TickOn? && op.c == c then 1 else 0
  }

  /** What a step adds to the wait on CPU c: a task put before the others its slice, a running
      task put on again whatever its slice grew by, and a running task that is not preempted
      when its slice is used up another one. Arrivals at the tail add nothing. */
  function Gain(s: Setup, m: State, op: Op, c: nat): int
    requires c < |m.rqs| && c < |m.curr|
  {
    match op
    case TickOn(d, preempts) =>
      if d == c && !preempts && RunsHere(m, c) && Decremented(m.tasks[m.curr[c]].slice) == 0
      then Quota(m.tasks[m.curr[c]].weight, s.hz) else 0
    case Replace(p, t, head) =>
      if !(t.onRq && t.wrrClass && t.cpu == c) then 0
      else if p == m.curr[c] then
        PutOnTask(s, t).slice - (if p < |m.tasks| && p in m.rqs[c].queue then m.tasks[p].slice else 0)
      else if head then PutOnTask(s, t).slice else 0
    case Requeue(p, head) =>
      if head && p < |m.tasks| && p in m.rqs[c].queue && p != m.curr[c] then m.tasks[p].slice else 0
    case _ => 0
  }

  lemma SoundQueue(s: Setup, m: State, c: nat)
    requires Sound(s, m) && c < s.cpus
    ensures c < |m.rqs| && c < |m.curr| && NoDuplicates(m.rqs[c].queue)
    ensures forall p {:trigger p in m.rqs[c].queue} :: p in m.rqs[c].queue ==>
      p < |m.tasks| && m.tasks[p].cpu == c && InQueue(m.tasks, m.rqs, p) && Weighted(s, m.tasks[p])
  {
    assert RqOk(s, m.tasks, m.rqs[c], c);
  }

  /** The queue of CPU c after a task has been taken off, changed and put on again */
  lemma {:induction false} ReplacedQueue(s: Setup, m: State, p: nat, t: Task, head: bool, c: nat)
    requires Sound(s, m) && p < |m.tasks| && TaskOk(s, t) && c < s.cpus
    ensures c < |m.rqs| == |Replaced(s, m, p, t, head).rqs|
    ensures
      var q1 := Without(m.rqs[c].queue, p);
      Replaced(s, m, p, t, head).rqs[c].queue ==
        if t.onRq && t.wrrClass && t.cpu == c then (if head then [p] + q1 else q1 + [p]) else q1
    ensures Replaced(s, m, p, t, head).tasks == m.tasks[p := if t.onRq then PutOnTask(s, t) else t]
  {
    hide RqOk, Weighted;
    SoundQueue(s, m, c);
    WithoutMembers(m.rqs[c].queue, p);
  }

  lemma {:induction false} ReplaceWaits(s: Setup, m: State, p: nat, t: Task, head: bool, c: nat, id: nat)
    requires Sound(s, m) && p < |m.tasks| && TaskOk(s, t) && c < s.cpus && p != id && WaitsOn(m, c, id)
    ensures WaitsOn(Replaced(s, m, p, t, head), c, id)
    ensures WaitOn(Replaced(s, m, p, t, head), c, id) <= WaitOn(m, c, id) + Gain(s, m, Replace(p, t, head), c)
  {
    hide Sound, Replaced, TaskOk, Wait, Weighted, Weighed;
    SoundQueue(s, m, c);
    ReplacedQueue(s, m, p, t, head, c);
    var m' := Replaced(s, m, p, t, head);
    SameCurr(s, m, p, t, head);
    var q, curr := m.rqs[c].queue, m.curr[c];
    var q1, t' := Without(q, p), if t.onRq then PutOnTask(s, t) else t;
    WaitWithout(m.tasks, q, curr, id, p);
    WithoutMembers(q, p);
    WaitChange(m.tasks, q1, curr, id, p, t');
    if t.onRq && t.wrrClass && t.cpu == c {
      WaitWith(m'.tasks, q1, curr, id, p, head);
    }
  }

  lemma SameCurr(s: Setup, m: State, p: nat, t: Task, head: bool)
    requires p < |m.tasks|
    ensures Replaced(s, m, p, t, head).curr == m.curr
  {
  }

  lemma {:induction false} TickWaits(s: Setup, m: State, c: nat, preempts: bool, id: nat)
    requires Sound(s, m) && c < s.cpus && RunsHere(m, c) && WaitsOn(m, c, id) && m.curr[c] != id
    ensures WaitsOn(Ticked(s, m, c, preempts), c, id)
    ensures WaitOn(Ticked(s, m, c, preempts), c, id) + 1 <= WaitOn(m, c, id) + Gain(s, m, TickOn(c, preempts), c)
  {
    hide Sound, Wait, MovedTo, Quota;
    SoundQueue(s, m, c);
    var p: nat := m.curr[c];
    var q, t := m.rqs[c].queue, TickedTask(s, m.tasks[p]);
    WaitSlice(m.tasks, q, p, id, t);
    if Decremented(m.tasks[p].slice) == 0 {
      var tasks := m.tasks[p := t];
      WaitMoved(tasks, q, p, id, p, false);
      LastSlice(m.tasks, q, p, id, t);
      WithoutMembers(q, p);
      MovedBehind(q, p, id);
      if preempts {
        WaitSwitch(tasks, MovedTo(q, p, false), p, MovedTo(q, p, false)[0], id);
      }
    }
  }

  lemma MovedBehind(q: seq<nat>, p: nat, id: nat)
    requires p in q && id in q && p != id && NoDuplicates(q)
    ensures |MovedTo(q, p, false)| == |q| > 1 && id in MovedTo(q, p, false)
  {
    WithoutLength(q, p);
    WithoutMembers(q, p);
  }

  /** When the running task has used its slice up, the wait left is that for the others. */
  lemma {:induction false} LastSlice(tasks: seq<Task>, q: seq<nat>, p: nat, id: nat, t: Task)
    requires NoDuplicates(q) && p < |tasks| && p in q && p != id && id in q
    ensures
      var q' := MovedTo(q, p, false);
      SlicesOf(tasks[p := t], Ahead(q', id)) == Wait(tasks, q, p, id) - tasks[p].slice
  {
    hide SlicesOf, Ahead;
    WithoutMembers(q, p);
    AheadAppend(Without(q, p), id, p);
    AheadWithout(q, id, p);
    AheadMembers(q, id);
    AheadNoDuplicates(q, id);
    var ahead := Ahead(q, id);
    SlicesWithout(tasks, ahead, p);
    WithoutMembers(ahead, p);
    WithoutNoDuplicates(ahead, p);
    SlicesChange(tasks, Without(ahead, p), p, t);
  }

  /** A tick of another CPU's running task */
  lemma {:induction false} OtherTickWaits(s: Setup, m: State, d: nat, preempts: bool, c: nat, id: nat)
    requires Sound(s, m) && c < s.cpus && d < s.cpus && d != c && RunsHere(m, d) && WaitsOn(m, c, id)
    ensures WaitsOn(Ticked(s, m, d, preempts), c, id)
    ensures WaitOn(Ticked(s, m, d, preempts), c, id) == WaitOn(m, c, id)
  {
    hide Sound, Wait, TickedQueue, TickedTask;
    SoundQueue(s, m, c);
    SoundQueue(s, m, d);
    var p: nat := m.curr[d];
    WaitChange(m.tasks, m.rqs[c].queue, m.curr[c], id, p, TickedTask(s, m.tasks[p]));
  }

  lemma {:induction false} RequeueWaits(s: Setup, m: State, p: nat, head: bool, c: nat, id: nat)
    requires Sound(s, m) && c < s.cpus && p < |m.tasks| && InQueue(m.tasks, m.rqs, p) && p != id && WaitsOn(m, c, id)
    ensures WaitsOn(Requeued(m, p, head), c, id)
    ensures WaitOn(Requeued(m, p, head), c, id) <= WaitOn(m, c, id) + Gain(s, m, Requeue(p, head), c)
  {
    hide Sound, Wait, MovedTo;
    SoundQueue(s, m, c);
    if m.tasks[p].cpu == c {
      WaitMoved(m.tasks, m.rqs[c].queue, m.curr[c], id, p, head);
    } else {
      assert p !in m.rqs[c].queue;
    }
  }

  /** New tasks and masks do not matter. */
  lemma {:induction false} SameWaits(s: Setup, m: State, m': State, c: nat, id: nat)
    requires Sound(s, m) && c < s.cpus && WaitsOn(m, c, id) && m'.rqs == m.rqs && m'.curr == m.curr
    requires |m.tasks| <= |m'.tasks|
    requires forall p {:trigger m.tasks[p]} :: 0 <= p < |m.tasks| ==> m'.tasks[p].slice == m.tasks[p].slice
    ensures WaitsOn(m', c, id) && WaitOn(m', c, id) == WaitOn(m, c, id)
  {
    hide Sound;
    SoundQueue(s, m, c);
    var q := m.rqs[c].queue;
    AheadMembers(q, id);
    SlicesSame(m.tasks, m'.tasks, Ahead(q, id));
  }

  /** No step but a tick of the task itself lets the wait and the ticks charged to others
      together grow by more than its gain. */
  lemma {:induction false} StepWaits(s: Setup, m: State, op: Op, c: nat, id: nat)
    requires Sound(s, m) && Allowed(s, m, op) && c < s.cpus && WaitsOn(m, c, id) && Spares(op, id)
    requires Charged(op, c) == 1 ==> m.curr[c] != id
    ensures WaitsOn(After(s, m, op), c, id)
    ensures WaitOn(After(s, m, op), c, id) + Charged(op, c) <= WaitOn(m, c, id) + Gain(s, m, op, c)
  {
    hide Sound, Wait, Ticked, Replaced, TaskOk;
    match op
    case TickOn(d, preempts) =>
      if d == c { TickWaits(s, m, c, preempts, id); } else { OtherTickWaits(s, m, d, preempts, c, id); }
    case Replace(p, t, head) => ReplaceWaits(s, m, p, t, head, c, id);
    case Requeue(p, head) => RequeueWaits(s, m, p, head, c, id);
    case Affine(p, allowed) => SameWaits(s, m, After(s, m, op), c, id);
    case Fork(t) => SameWaits(s, m, After(s, m, op), c, id);
    case Switch(d, to) =>
      if d == c { WaitSwitch(m.tasks, m.rqs[c].queue, m.curr[c], to, id); }
  }

  // ------------------------------------------------------------------
  // Runs
  // ------------------------------------------------------------------

  ghost function Charges(ops: seq<Op>, c: nat, n: nat): nat
    requires n <= |ops|
  {
    if n == 0 then 0 else Charges(ops, c, n - 1) + Charged(ops[n - 1], c)
  }

  ghost function Gains(s: Setup, run: seq<State>, ops: seq<Op>, c: nat, n: nat): int
    requires IsRun(s, run, ops) && c < s.cpus && n <= |ops|
  {
    if n == 0 then 0 else
      RunKeeps(s, run, ops, n - 1);
      SoundQueue(s, run[n - 1], c);
      Gains(s, run, ops, c, n - 1) + Gain(s, run[n - 1], ops[n - 1], c)
  }

  /** The i-th step is a tick charged to the task on CPU c. */
  ghost predicate Served(run: seq<State>, ops: seq<Op>, c: nat, id: nat, i: nat) {
    i < |ops| && i < |run| && c < |run[i].curr| && Charged(ops[i], c) == 1 && run[i].curr[c] == id
  }

  /** Over every run: while the task is left alone and does not get to run, the ticks its CPU
      spends on others of the class and the wait still left are no more than the wait it
      started with and the gains. */
  lemma {:induction false} WaitBound(s: Setup, run: seq<State>, ops: seq<Op>, c: nat, id: nat, n: nat)
    requires IsRun(s, run, ops) && c < s.cpus && n <= |ops| && WaitsOn(run[0], c, id)
    requires forall i {:trigger ops[i]} :: 0 <= i < n ==> Spares(ops[i], id)
    requires forall i {:trigger Served(run, ops, c, id, i)} :: 0 <= i < n ==> !Served(run, ops, c, id, i)
    ensures WaitsOn(run[n], c, id)
    ensures Charges(ops, c, n) + WaitOn(run[n], c, id) <= WaitOn(run[0], c, id) + Gains(s, run, ops, c, n)
  {
    hide After, Allowed, Wait, Gain, Charged, Spares, Books;
    if n > 0 {
      var i := n - 1;
      WaitBound(s, run, ops, c, id, i);
      RunKeeps(s, run, ops, i);
      assert !Served(run, ops, c, id, i) && Spares(ops[i], id);
      assert Step(s, run[i], ops[i], run[n]);
      StepWaits(s, run[i], ops[i], c, id);
    }
  }

  /** So a task that is left alone gets to run before its CPU has spent more ticks on others
      of the class than that. */
  lemma {:induction false} ServedInTime(s: Setup, run: seq<State>, ops: seq<Op>, c: nat, id: nat) returns (i: nat)
    requires IsRun(s, run, ops) && c < s.cpus && WaitsOn(run[0], c, id)
    requires forall k {:trigger ops[k]} :: 0 <= k < |ops| ==> Spares(ops[k], id)
    requires Charges(ops, c, |ops|) > WaitOn(run[0], c, id) + Gains(s, run, ops, c, |ops|)
    ensures Served(run, ops, c, id, i)
  {
    hide After, Allowed, Wait, Gain, Charged, Spares, IsRun, Served;
    if i0: nat :| i0 < |ops| && Served(run, ops, c, id, i0) {
      i := i0;
    } else {
      WaitBound(s, run, ops, c, id, |ops|);
    }
  }

  // ------------------------------------------------------------------
  // How long that is at most
  // ------------------------------------------------------------------

  lemma {:induction false} Fewer(a: seq<nat>, b: seq<nat>)
    requires NoDuplicates(a) && forall x {:trigger x in a} :: x in a ==> x in b
    requires NoDuplicates(b)
    ensures |a| <= |b|
  {
    if |a| > 0 {
      assert a[0] in a;
      var rest := Without(b, a[0]);
      WithoutMembers(b, a[0]);
      WithoutNoDuplicates(b, a[0]);
      WithoutLength(b, a[0]);
      assert forall x {:trigger x in a[1..]} :: x in a[1..] ==> x in a && x != a[0];
      Fewer(a[1..], rest);
    }
  }

  lemma {:induction false} SlicesWithin(s: Setup, tasks: seq<Task>, q: seq<nat>)
    requires Clock(s.hz)
    requires forall p {:trigger p in q} :: p in q ==> p < |tasks| && Weighted(s, tasks[p])
    ensures SlicesOf(tasks, q) <= |q| * ForegroundSlice(s.hz)
  {
    if |q| > 0 {
      assert q[0] in q;
      assert forall p {:trigger p in q[1..]} :: p in q[1..] ==> p in q;
      SlicesWithin(s, tasks, q[1..]);
      QuotaWeighs(s.hz);
      OneMore(|q|, ForegroundSlice(s.hz));
    }
  }

  /** Everything that counts in the wait, the running task last if it is behind */
  ghost function InFront(q: seq<nat>, curr: int, id: nat): seq<nat> {
    Ahead(q, id) + if 0 <= curr && curr in q && curr != id && curr !in Ahead(q, id) then [curr as nat] else []
  }

  lemma {:induction false} WaitIsInFront(tasks: seq<Task>, q: seq<nat>, curr: int, id: nat)
    requires forall p {:trigger p in q} :: p in q ==> p < |tasks|
    ensures Wait(tasks, q, curr, id) == SlicesOf(tasks, InFront(q, curr, id))
  {
    if RunsBehind(tasks, q, curr, id) {
      SlicesAppended(tasks, Ahead(q, id), curr);
    } else {
      assert InFront(q, curr, id) == Ahead(q, id);
    }
  }

  lemma {:induction false} SlicesAppended(tasks: seq<Task>, q: seq<nat>, p: nat)
    requires p < |tasks|
    ensures SlicesOf(tasks, q + [p]) == SlicesOf(tasks, q) + tasks[p].slice
  {
    if |q| == 0 {
      assert q + [p] == [p] && SlicesOf(tasks, [p][1..]) == 0;
    } else {
      assert (q + [p])[0] == q[0] && (q + [p])[1..] == q[1..] + [p];
      SlicesAppended(tasks, q[1..], p);
    }
  }

  /** The wait is at most a foreground slice for each of the others. */
  lemma {:induction false} WaitWithin(s: Setup, m: State, c: nat, id: nat)
    requires Sound(s, m) && c < s.cpus && WaitsOn(m, c, id)
    ensures WaitOn(m, c, id) <= (|m.rqs[c].queue| - 1) * ForegroundSlice(s.hz)
  {
    hide Wait, SlicesOf, Ahead, Weighted, ForegroundSlice;
    SoundQueue(s, m, c);
    var q, curr := m.rqs[c].queue, m.curr[c];
    WithoutLength(q, id);
    WithoutMembers(q, id);
    WithoutNoDuplicates(q, id);
    AheadMembers(q, id);
    AheadNoDuplicates(q, id);
    var some := InFront(q, curr, id);
    WaitIsInFront(m.tasks, q, curr, id);
    Fewer(some, Without(q, id));
    SlicesWithin(s, m.tasks, some);
    Scaled(|some|, |q| - 1, ForegroundSlice(s.hz));
  }

  lemma Scaled(a: nat, b: nat, f: nat)
    requires a <= b
    ensures a * f <= b * f
  {
  }
}
