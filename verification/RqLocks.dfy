/** The run-queue lock protocol (core.c, sched.h), all its parties interleaved step by step:
    task_rq_lock and __task_rq_lock, wakeups that place a task, migration, double locking
    and balancing. */
module RqLocks {
  import opened Options

  /** A task's pi_lock or a run queue's lock. */
  datatype Lock = Pi(task: nat) | Rq(cpu: nat)

  /** pi_lock before any run queue, run queues by address. */
  function Rank(l: Lock): nat {
    match l
    case Pi(_) => 0
    case Rq(c) => c + 1
  }

  datatype Status = Blocked | Waking | Queued

  /** A task's CPU, its state, and the CPU whose wake_list it is on. */
  datatype Task = Task(cpu: nat, status: Status, listed: Option<nat>)

  /** What task_rq_lock and its callers are about. */
  datatype Job = TaskRqLock | WakeUp | Migrate(src: nat, dest: nat)

  /** Who asked for two run queues. */
  datatype Purpose = Migration(task: nat) | Pull | Balance

  /** Where a thread stands. */
  datatype Pc =
    | Out
    | PiWanted(p: nat, job: Job)
    | PiHeld(p: nat, job: Job)
    | Reread(p: nat)                          // __task_rq_lock goes round again
    | RqWanted(p: nat, r: nat, job: Job)
    | RqHeld(p: nat, r: nat, job: Job)        // not yet compared
    | PiStale(p: nat)                         // task_rq_lock goes round again
    | Locked(p: nat, r: nat, job: Job)        // the lock function has returned r
    | PiLast(p: nat)
    | Woken(p: nat)                           // state is TASK_WAKING
    | Placed(p: nat, r: nat)                  // set_task_cpu done
    | ActWanted(p: nat, r: nat)
    | ActHeld(p: nat, r: nat)                 // about to activate p on r
    | ActDone(p: nat, r: nat)
    | First(who: Purpose, a: nat, b: nat)           // double_rq_lock
    | Second(who: Purpose, a: nat, b: nat)
    | Both(who: Purpose, a: nat, b: nat)
    | Checked(p: nat, a: nat, b: nat)         // __migrate_task past its tests
    | Picked(who: Purpose, a: nat, b: nat, p: nat, x: nat, y: nat)
    | Unlock(who: Purpose, a: nat, b: nat)
    | UnlockSecond(who: Purpose, b: nat)
    | RunWanted(r: nat)
    | RunHeld(r: nat)                         // schedule and everything else under one lock
    | LocalPi(p: nat, r: nat)                 // try_to_wake_up_local
    | LocalRq(p: nat, r: nat)
    | LocalHeld(p: nat, r: nat)
    | LocalDone(p: nat, r: nat)

  function PiOf(who: Purpose): set<Lock> {
    if who.Migration? then {Pi(who.task)} else {}
  }

  function Lower(a: nat, b: nat): nat { if a < b then a else b }
  function Upper(a: nat, b: nat): nat { if a < b then b else a }

  /** The locks a thread holds at each point. */
  function Held(pc: Pc): set<Lock> {
    match pc
    case Out => {}
    case PiWanted(_, _) => {}
    case PiHeld(p, _) => {Pi(p)}
    case Reread(p) => {Pi(p)}
    case RqWanted(p, _, _) => {Pi(p)}
    case RqHeld(p, r, _) => {Pi(p), Rq(r)}
    case PiStale(p) => {Pi(p)}
    case Locked(p, r, _) => {Pi(p), Rq(r)}
    case PiLast(p) => {Pi(p)}
    case Woken(p) => {Pi(p)}
    case Placed(p, _) => {Pi(p)}
    case ActWanted(p, _) => {Pi(p)}
    case ActHeld(p, r) => {Pi(p), Rq(r)}
    case ActDone(p, r) => {Pi(p), Rq(r)}
    case First(who, _, _) => PiOf(who)
    case Second(who, a, b) => PiOf(who) + {Rq(Lower(a, b))}
    case Both(who, a, b) => PiOf(who) + {Rq(a), Rq(b)}
    case Checked(p, a, b) => {Pi(p), Rq(a), Rq(b)}
    case Picked(who, a, b, _, _, _) => PiOf(who) + {Rq(a), Rq(b)}
    case Unlock(who, a, b) => PiOf(who) + {Rq(a), Rq(b)}
    case UnlockSecond(who, b) => PiOf(who) + {Rq(b)}
    case RunWanted(_) => {}
    case RunHeld(r) => {Rq(r)}
    case LocalPi(_, _) => {}
    case LocalRq(p, _) => {Pi(p)}
    case LocalHeld(p, r) => {Pi(p), Rq(r)}
    case LocalDone(p, r) => {Pi(p), Rq(r)}
  }

  /** The lock it spins on, if any. */
  function Want(pc: Pc): Option<Lock> {
    match pc
    case PiWanted(p, _) => Some(Pi(p))
    case RqWanted(_, r, _) => Some(Rq(r))
    case ActWanted(_, r) => Some(Rq(r))
    case First(_, a, b) => Some(Rq(Lower(a, b)))
    case Second(_, a, b) => Some(Rq(Upper(a, b)))
    case RunWanted(r) => Some(Rq(r))
    case LocalPi(p, _) => Some(Pi(p))
    case LocalRq(_, r) => Some(Rq(r))
    case _ => None
  }

  /** allowed is each task's CPU mask. */
  datatype State = State(pcs: seq<Pc>, owner: map<Lock, nat>, tasks: seq<Task>, allowed: seq<set<nat>>)

  /** One step: the next point, a lock taken or dropped, a task changed. */
  datatype Effect = Effect(pc: Pc, take: Option<Lock>, drop: Option<Lock>, change: Option<Change>)
  datatype Change = Change(p: nat, task: Task)

  function Go(pc: Pc): Effect { Effect(pc, None, None, None) }
  function Take(l: Lock, pc: Pc): Effect { Effect(pc, Some(l), None, None) }
  function Drop(l: Lock, pc: Pc): Effect { Effect(pc, None, Some(l), None) }
  function Set(p: nat, task: Task, pc: Pc): Effect { Effect(pc, None, None, Some(Change(p, task))) }

  /** The steps of the lock functions themselves. */
  ghost predicate LockSteps(s: State, pc: Pc, e: Effect)
    requires Indexed(s, pc)
  {
    match pc
    case PiWanted(p, job) => e == Take(Pi(p), PiHeld(p, job))
    case PiHeld(p, job) => job.TaskRqLock? && e == Go(RqWanted(p, s.tasks[p].cpu, job))
    case Reread(p) => e == Go(RqWanted(p, s.tasks[p].cpu, WakeUp))
    case RqWanted(p, r, job) => e == Take(Rq(r), RqHeld(p, r, job))
    case RqHeld(p, r, job) =>
      if r == s.tasks[p].cpu then e == Go(Locked(p, r, job))
      else e == Drop(Rq(r), if job.WakeUp? then Reread(p) else PiStale(p))
    case PiStale(p) => e == Drop(Pi(p), PiWanted(p, TaskRqLock))
    case Locked(p, r, job) => job.TaskRqLock? && e == Drop(Rq(r), PiLast(p))
    case PiLast(p) => e == Drop(Pi(p), Out)
    case First(who, a, b) =>
      e == Take(Rq(Lower(a, b)), if a == b then Both(who, a, b) else Second(who, a, b))
    case Second(who, a, b) => e == Take(Rq(Upper(a, b)), Both(who, a, b))
    case Unlock(who, a, b) =>
      if who.Balance? then e == Drop(Rq(b), RunHeld(a))
      else e == Drop(Rq(a), if a != b then UnlockSecond(who, b) else After(who))
    case UnlockSecond(who, b) => e == Drop(Rq(b), After(who))
    case RunWanted(r) => e == Take(Rq(r), RunHeld(r))
    case LocalPi(p, r) => e == Take(Pi(p), LocalRq(p, r))
    case LocalRq(p, r) => e == Take(Rq(r), LocalHeld(p, r))
    case LocalDone(p, r) => e == Drop(Pi(p), RunHeld(r))
    case _ => false
  }

  function After(who: Purpose): Pc {
    if who.Migration? then PiLast(who.task) else Out
  }

  /** try_to_wake_up from pi_lock on */
  ghost predicate WakeSteps(s: State, pc: Pc, e: Effect)
    requires Indexed(s, pc)
  {
    match pc
    case PiHeld(p, job) =>
      && job.WakeUp?
      && (match s.tasks[p].status
          case Waking => e == Drop(Pi(p), Out)
          case Queued => e == Go(RqWanted(p, s.tasks[p].cpu, WakeUp))
          case Blocked => e == Set(p, s.tasks[p].(status := Waking), Woken(p)))
    case Locked(p, r, job) =>   // ttwu_remote: done if the task is still queued
      job.WakeUp? && e == Drop(Rq(r), if s.tasks[p].status.Queued? then PiLast(p) else PiHeld(p, WakeUp))
    case Woken(p) =>
      exists c: nat :: c in s.allowed[p] && e == Set(p, s.tasks[p].(cpu := c), Placed(p, c))
    case Placed(p, r) =>
      || e == Set(p, s.tasks[p].(listed := Some(r)), PiLast(p))
      || e == Go(ActWanted(p, r))
    case ActWanted(p, r) => e == Take(Rq(r), ActHeld(p, r))
    case ActHeld(p, r) => e == Set(p, s.tasks[p].(status := Queued), ActDone(p, r))
    case ActDone(p, r) => e == Drop(Rq(r), PiLast(p))
    case _ => false
  }

  /** __migrate_task, and the balancers' moves under two locks */
  ghost predicate MoveSteps(s: State, pc: Pc, e: Effect)
    requires Indexed(s, pc)
  {
    match pc
    case PiHeld(p, job) => job.Migrate? && e == Go(First(Migration(p), job.src, job.dest))
    case Both(who, a, b) =>
      if who.Migration? then
        e == Go(if s.tasks[who.task].cpu == a && b in s.allowed[who.task]
                then Checked(who.task, a, b) else Unlock(who, a, b))
      else
        || e == Go(Unlock(who, a, b))
        || exists p: nat, x: nat, y: nat ::
             Pickable(s, p, x, y) && {x, y} == {a, b} && e == Go(Picked(who, a, b, p, x, y))
    case Checked(p, a, b) =>
      if s.tasks[p].status.Queued? then e == Set(p, s.tasks[p].(cpu := b), Unlock(Migration(p), a, b))
      else e == Go(Unlock(Migration(p), a, b))
    case Picked(who, a, b, p, x, y) => e == Set(p, s.tasks[p].(cpu := y), Both(who, a, b))
    case _ => false
  }

  /** A task queued on x that may run on y */
  predicate Pickable(s: State, p: nat, x: nat, y: nat) {
    p < |s.tasks| && p < |s.allowed| && s.tasks[p].status.Queued? && s.tasks[p].cpu == x && y in s.allowed[p]
  }

  /** What is done under one run queue's lock, and where it may lead */
  ghost predicate RunSteps(s: State, pc: Pc, e: Effect)
    requires Indexed(s, pc)
  {
    match pc
    case RunHeld(r) =>
      || e == Drop(Rq(r), Out)
      || (exists p: nat :: p < |s.tasks| && s.tasks[p].status.Queued? && s.tasks[p].cpu == r
            && e == Set(p, s.tasks[p].(status := Blocked), pc))        // schedule takes a sleeper off
      || (exists p: nat :: p < |s.tasks| && s.tasks[p].listed == Some(r)
            && e == Set(p, s.tasks[p].(status := Queued, listed := None), pc))   // sched_ttwu_pending
      || (exists b: nat :: b != r && DoubleLockBalance(s, r, b, e))
      || (exists p: nat :: p < |s.tasks| && s.allowed[p] == {r} && WakeUpLocal(s, p, r, e))
    case LocalHeld(p, r) =>
      if s.tasks[p].status.Blocked? then e == Set(p, s.tasks[p].(status := Queued), LocalDone(p, r))
      else e == Go(LocalDone(p, r))
    case _ => false
  }

  /** Both variants: the fair one always lets go; the unfair one tries first, and lets go only
      if the other queue has the lower address. */
  ghost predicate DoubleLockBalance(s: State, r: nat, b: nat, e: Effect) {
    || e == Drop(Rq(r), First(Balance, r, b))
    || (if Rq(b) !in s.owner then e == Take(Rq(b), Both(Balance, r, b))
        else if b < r then e == Drop(Rq(r), First(Balance, r, b))
        else e == Go(Second(Balance, r, b)))
  }

  ghost predicate WakeUpLocal(s: State, p: nat, r: nat, e: Effect) {
    if Pi(p) !in s.owner then e == Take(Pi(p), LocalHeld(p, r)) else e == Drop(Rq(r), LocalPi(p, r))
  }

  ghost predicate StartSteps(s: State, pc: Pc, e: Effect) {
    pc.Out? && e.take.None? && e.drop.None? && e.change.None? && Indexed(s, e.pc)
    && match e.pc
       case PiWanted(_, _) => true
       case First(who, _, _) => who.Pull?
       case RunWanted(_) => true
       case _ => false
  }

  ghost predicate Does(s: State, pc: Pc, e: Effect)
    requires Indexed(s, pc)
  {
    LockSteps(s, pc, e) || WakeSteps(s, pc, e) || MoveSteps(s, pc, e) || RunSteps(s, pc, e) || StartSteps(s, pc, e)
  }

  /** Task numbers are in range, and double locking that keeps a queue has two of them. */
  predicate Indexed(s: State, pc: Pc) {
    && |s.allowed| == |s.tasks|
    && (match pc
        case PiWanted(p, _) => p < |s.tasks|
        case PiHeld(p, _) => p < |s.tasks|
        case Reread(p) => p < |s.tasks|
        case RqWanted(p, _, job) => p < |s.tasks| && !job.Migrate?
        case RqHeld(p, _, job) => p < |s.tasks| && !job.Migrate?
        case PiStale(p) => p < |s.tasks|
        case Locked(p, _, job) => p < |s.tasks| && !job.Migrate?
        case Woken(p) => p < |s.tasks|
        case Placed(p, _) => p < |s.tasks|
        case ActWanted(p, _) => p < |s.tasks|
        case ActHeld(p, _) => p < |s.tasks|
        case First(who, a, b) => Fits(s, who, a, b)
        case Second(who, a, b) => Fits(s, who, a, b) && a != b
        case Both(who, a, b) => Fits(s, who, a, b)
        case Checked(p, _, _) => p < |s.tasks|
        case Picked(who, a, b, p, x, y) => Fits(s, who, a, b) && !who.Migration? && p < |s.tasks| && {x, y} == {a, b}
        case Unlock(who, a, b) => Fits(s, who, a, b)
        case UnlockSecond(who, _) => !who.Balance?
        case LocalPi(p, r) => p < |s.tasks| && s.allowed[p] == {r}
        case LocalRq(p, r) => p < |s.tasks| && s.allowed[p] == {r}
        case LocalHeld(p, r) => p < |s.tasks| && s.allowed[p] == {r}
        case _ => true)
  }

  predicate Fits(s: State, who: Purpose, a: nat, b: nat) {
    (who.Migration? ==> who.task < |s.tasks|) && (who.Balance? ==> a != b)
  }

  /** A lock can be taken only when free; one a thread does not own cannot be dropped. */
  predicate Possible(s: State, t: nat, e: Effect) {
    && (e.take.Some? ==> e.take.value !in s.owner)
    && (e.drop.Some? ==> e.drop.value in s.owner && s.owner[e.drop.value] == t)
    && (e.change.Some? ==> e.change.value.p < |s.tasks|)
  }

  function Apply(s: State, t: nat, e: Effect): State
    requires t < |s.pcs| && Possible(s, t, e)
  {
    var taken := if e.take.Some? then s.owner[e.take.value := t] else s.owner;
    State(s.pcs[t := e.pc],
          if e.drop.Some? then taken - {e.drop.value} else taken,
          if e.change.Some? then s.tasks[e.change.value.p := e.change.value.task] else s.tasks,
          s.allowed)
  }

  ghost predicate Step(s: State, s': State) {
    exists t: nat, e: Effect :: t < |s.pcs| && Indexed(s, s.pcs[t]) && Does(s, s.pcs[t], e) && Possible(s, t, e)
      && s' == Apply(s, t, e)
  }

  // ------------------------------------------------------------------
  // What every reachable state satisfies
  // ------------------------------------------------------------------

  ghost predicate Owns(s: State, t: nat, l: Lock) {
    l in s.owner && s.owner[l] == t
  }

  /** What a thread may rely on at each point while others run. */
  ghost predicate Claim(s: State, pc: Pc)
    requires Indexed(s, pc)
  {
    match pc
    case Locked(p, r, _) => s.tasks[p].cpu == r
    case Woken(p) => Unplaced(s.tasks[p])
    case Placed(p, r) => Unplaced(s.tasks[p]) && s.tasks[p].cpu == r
    case ActWanted(p, r) => Unplaced(s.tasks[p]) && s.tasks[p].cpu == r
    case ActHeld(p, r) => Unplaced(s.tasks[p]) && s.tasks[p].cpu == r
    case Checked(p, a, b) => s.tasks[p].cpu == a && b in s.allowed[p]
    case Picked(_, _, _, p, x, y) => Pickable(s, p, x, y)
    case _ => true
  }

  predicate Unplaced(k: Task) {
    k.status.Waking? && k.listed.None?
  }

  predicate Sane(k: Task, mask: set<nat>) {
    k.cpu in mask && (k.listed.Some? ==> k.status.Waking? && k.listed.value == k.cpu)
  }

  /** The owner of a lock is the one thread that stands where it is held. */
  ghost predicate Tied(s: State, t: nat)
    requires t < |s.pcs|
  {
    forall l :: l in Held(s.pcs[t]) <==> Owns(s, t, l)
  }

  ghost predicate Inv(s: State) {
    && |s.allowed| == |s.tasks|
    && (forall t {:trigger s.pcs[t]} :: 0 <= t < |s.pcs| ==> Indexed(s, s.pcs[t]) && Claim(s, s.pcs[t]) && Tied(s, t))
    && (forall l {:trigger s.owner[l]} :: l in s.owner ==> s.owner[l] < |s.pcs|)
    && (forall p {:trigger s.tasks[p]} :: 0 <= p < |s.tasks| ==> Sane(s.tasks[p], s.allowed[p]))
  }

  /** Nobody in the kernel yet, no lock taken, no wakeup under way. */
  ghost predicate Init(s: State) {
    && |s.allowed| == |s.tasks| && s.owner == map[]
    && (forall t {:trigger s.pcs[t]} :: 0 <= t < |s.pcs| ==> s.pcs[t] == Out)
    && (forall p {:trigger s.tasks[p]} :: 0 <= p < |s.tasks| ==>
      Sane(s.tasks[p], s.allowed[p]) && !s.tasks[p].status.Waking?)
  }

  lemma InvAt(s: State, t: nat)
    requires Inv(s) && t < |s.pcs|
    ensures |s.allowed| == |s.tasks| && Indexed(s, s.pcs[t]) && Claim(s, s.pcs[t]) && Tied(s, t)
  {
  }

  lemma {:induction false} InitKeeps(s: State)
    requires Init(s)
    ensures Inv(s)
  {
    forall t | 0 <= t < |s.pcs| ensures Indexed(s, s.pcs[t]) && Claim(s, s.pcs[t]) && Tied(s, t) {
      assert s.pcs[t] == Out;
    }
  }

  // ------------------------------------------------------------------
  // Locks
  // ------------------------------------------------------------------

  ghost predicate Follows(pc: Pc, e: Effect) {
    && (e.take.None? || e.drop.None?)
    && (e.take.Some? ==> Held(e.pc) == Held(pc) + {e.take.value} && Want(e.pc) != Some(e.take.value))
    && (e.drop.Some? ==> e.drop.value in Held(pc) && Held(e.pc) == Held(pc) - {e.drop.value})
    && (e.take.None? && e.drop.None? ==> Held(e.pc) == Held(pc))
  }

  lemma LockFollows(s: State, pc: Pc, e: Effect)
    requires Indexed(s, pc) && LockSteps(s, pc, e)
    ensures Follows(pc, e)
  {
  }

  lemma WakeFollows(s: State, pc: Pc, e: Effect)
    requires Indexed(s, pc) && WakeSteps(s, pc, e)
    ensures Follows(pc, e)
  {
  }

  lemma MoveFollows(s: State, pc: Pc, e: Effect)
    requires Indexed(s, pc) && MoveSteps(s, pc, e)
    ensures Follows(pc, e)
  {
  }

  lemma RunFollows(s: State, pc: Pc, e: Effect)
    requires Indexed(s, pc) && RunSteps(s, pc, e)
    ensures Follows(pc, e)
  {
  }

  lemma StartFollows(s: State, pc: Pc, e: Effect)
    requires Indexed(s, pc) && StartSteps(s, pc, e)
    ensures Follows(pc, e)
  {
  }

  /** Each step takes or drops exactly what the next point holds more or less. */
  lemma HeldFollows(s: State, pc: Pc, e: Effect)
    requires Indexed(s, pc) && Does(s, pc, e)
    ensures Follows(pc, e)
  {
    hide LockSteps, WakeSteps, MoveSteps, RunSteps, StartSteps, Follows;
    if LockSteps(s, pc, e) { LockFollows(s, pc, e); }
    else if WakeSteps(s, pc, e) { WakeFollows(s, pc, e); }
    else if MoveSteps(s, pc, e) { MoveFollows(s, pc, e); }
    else if RunSteps(s, pc, e) { RunFollows(s, pc, e); }
    else { StartFollows(s, pc, e); }
  }

  lemma {:induction false} TieKept(s: State, t: nat, e: Effect, u: nat)
    requires t < |s.pcs| && u < |s.pcs| && Possible(s, t, e)
    requires Follows(s.pcs[t], e) && Tied(s, t) && Tied(s, u)
    ensures Tied(Apply(s, t, e), u)
  {
    hide Held;
    var s' := Apply(s, t, e);
    forall l ensures l in Held(s'.pcs[u]) <==> Owns(s', u, l) {
      assert l in Held(s.pcs[u]) <==> Owns(s, u, l);
    }
  }

  // ------------------------------------------------------------------
  // No deadlock
  // ------------------------------------------------------------------

  /** A thread only spins on a lock that ranks above all it holds. */
  lemma {:induction false} WaitsUpwards(s: State, pc: Pc, l: Lock)
    requires Indexed(s, pc) && Want(pc).Some? && l in Held(pc)
    ensures Rank(l) < Rank(Want(pc).value)
  {
  }

  ghost predicate WaitsFor(s: State, t: nat, u: nat) {
    t < |s.pcs| && Want(s.pcs[t]).Some? && Owns(s, u, Want(s.pcs[t]).value)
  }

  ghost predicate WaitChain(s: State, path: seq<nat>) {
    forall i {:trigger path[i]} :: 1 <= i < |path| ==> WaitsFor(s, path[i - 1], path[i])
  }

  lemma {:induction false} RanksClimb(s: State, path: seq<nat>)
    requires Inv(s) && |path| > 0 && WaitChain(s, path)
    requires path[|path| - 1] < |s.pcs| && Want(s.pcs[path[|path| - 1]]).Some?
    ensures path[0] < |s.pcs| && Want(s.pcs[path[0]]).Some?
    ensures Rank(Want(s.pcs[path[0]]).value) <= Rank(Want(s.pcs[path[|path| - 1]]).value)
  {
    hide Held, Indexed, Claim, Want, Rank, Sane;
    var n := |path|;
    if n > 1 {
      var t, u := path[n - 2], path[n - 1];
      assert WaitsFor(s, t, u);
      assert Tied(s, u) && Indexed(s, s.pcs[u]);
      WaitsUpwards(s, s.pcs[u], Want(s.pcs[t]).value);
      RanksClimb(s, path[..n - 1]);
    }
  }

  /** The waits-for graph has no cycle. */
  lemma {:induction false} NoCycle(s: State, path: seq<nat>)
    requires Inv(s) && |path| > 0 && WaitChain(s, path)
    ensures !WaitsFor(s, path[|path| - 1], path[0])
  {
    hide Held, Indexed, Claim, Want, Rank, Sane;
    var t, u := path[|path| - 1], path[0];
    if WaitsFor(s, t, u) {
      RanksClimb(s, path);
      assert Tied(s, u) && Indexed(s, s.pcs[u]);
      WaitsUpwards(s, s.pcs[u], Want(s.pcs[t]).value);
    }
  }

  // ------------------------------------------------------------------
  // Who may move a task
  // ------------------------------------------------------------------

  /** A queued task moves only under both run queues' locks, a waking one only under its
      pi_lock and before it is listed; it is queued and taken off only under its own queue's
      lock. */
  ghost predicate Justified(s: State, t: nat, p: nat, k: Task)
    requires p < |s.tasks| && p < |s.allowed|
  {
    var was := s.tasks[p];
    || (was.status.Queued? && k == was.(cpu := k.cpu) && k.cpu in s.allowed[p] && Owns(s, t, Rq(was.cpu))
      && Owns(s, t, Rq(k.cpu)))
    || (Unplaced(was) && k == was.(cpu := k.cpu) && k.cpu in s.allowed[p] && Owns(s, t, Pi(p)))
    || (Unplaced(was) && k == was.(listed := Some(was.cpu)) && Owns(s, t, Pi(p)))
    || (was.status.Blocked? && k == was.(status := Waking) && Owns(s, t, Pi(p)))
    || (was.status.Queued? && k == was.(status := Blocked) && Owns(s, t, Rq(was.cpu)))
    || (was.status.Waking? && was.listed == Some(was.cpu) && k == was.(status := Queued, listed := None)
      && Owns(s, t, Rq(was.cpu)))
    || ((Unplaced(was) || was.status.Blocked?) && k == was.(status := Queued) && Owns(s, t, Pi(p))
      && Owns(s, t, Rq(was.cpu)))
  }

  lemma {:induction false} WakeJustified(s: State, t: nat, e: Effect)
    requires Inv(s) && t < |s.pcs| && WakeSteps(s, s.pcs[t], e) && e.change.Some?
    ensures e.change.value.p < |s.tasks| && Justified(s, t, e.change.value.p, e.change.value.task)
  {
    assert Indexed(s, s.pcs[t]) && Claim(s, s.pcs[t]) && Tied(s, t);
    var p := e.change.value.p;
    assert Pi(p) in Held(s.pcs[t]);
    assert Sane(s.tasks[p], s.allowed[p]);
  }

  lemma {:induction false} MoveJustified(s: State, t: nat, e: Effect)
    requires Inv(s) && t < |s.pcs| && MoveSteps(s, s.pcs[t], e) && e.change.Some?
    ensures e.change.value.p < |s.tasks| && Justified(s, t, e.change.value.p, e.change.value.task)
  {
    assert Indexed(s, s.pcs[t]) && Claim(s, s.pcs[t]) && Tied(s, t);
    match s.pcs[t]
    case Checked(p, a, b) =>
      assert Rq(a) in Held(s.pcs[t]) && Rq(b) in Held(s.pcs[t]);
    case Picked(who, a, b, p, x, y) =>
      assert x in {a, b} && y in {a, b};
      assert Rq(x) in Held(s.pcs[t]) && Rq(y) in Held(s.pcs[t]);
    case _ =>
  }

  lemma {:induction false} RunJustified(s: State, t: nat, e: Effect)
    requires Inv(s) && t < |s.pcs| && RunSteps(s, s.pcs[t], e) && e.change.Some?
    ensures e.change.value.p < |s.tasks| && Justified(s, t, e.change.value.p, e.change.value.task)
  {
    assert Indexed(s, s.pcs[t]) && Claim(s, s.pcs[t]) && Tied(s, t);
    var p := e.change.value.p;
    assert Sane(s.tasks[p], s.allowed[p]);
    assert Rq(s.pcs[t].r) in Held(s.pcs[t]);
    if s.pcs[t].LocalHeld? {
      assert Pi(p) in Held(s.pcs[t]);
    }
  }

  lemma {:induction false} StepJustified(s: State, t: nat, e: Effect)
    requires Inv(s) && t < |s.pcs| && Indexed(s, s.pcs[t]) && Does(s, s.pcs[t], e) && e.change.Some?
    ensures e.change.value.p < |s.tasks| && Justified(s, t, e.change.value.p, e.change.value.task)
  {
    hide WakeSteps, MoveSteps, RunSteps, Justified, Held, Claim, Inv;
    if WakeSteps(s, s.pcs[t], e) { WakeJustified(s, t, e); }
    else if MoveSteps(s, s.pcs[t], e) { MoveJustified(s, t, e); }
    else if RunSteps(s, s.pcs[t], e) { RunJustified(s, t, e); }
  }

  /** What others rely on survives: the lock they hold is the one the mover would need. */
  lemma {:induction false} ClaimSurvives(s: State, t: nat, e: Effect, u: nat)
    requires |s.allowed| == |s.tasks| && t < |s.pcs| && u < |s.pcs| && t != u && Possible(s, t, e)
    requires Indexed(s, s.pcs[u]) && Claim(s, s.pcs[u]) && Tied(s, u)
    requires e.change.Some? ==> Justified(s, t, e.change.value.p, e.change.value.task)
    ensures Indexed(Apply(s, t, e), s.pcs[u]) && Claim(Apply(s, t, e), s.pcs[u])
  {
    var pc := s.pcs[u];
    if pc.Picked? {
      PickSurvives(s, t, e, u);
    } else {
      match pc
      case Locked(p, r, _) => assert Pi(p) in Held(pc) && Rq(r) in Held(pc);
      case Woken(p) => assert Pi(p) in Held(pc);
      case Placed(p, r) => assert Pi(p) in Held(pc);
      case ActWanted(p, r) => assert Pi(p) in Held(pc);
      case ActHeld(p, r) => assert Pi(p) in Held(pc);
      case Checked(p, a, b) => assert Pi(p) in Held(pc) && Rq(a) in Held(pc);
      case _ =>
    }
  }

  lemma {:induction false} PickSurvives(s: State, t: nat, e: Effect, u: nat)
    requires |s.allowed| == |s.tasks| && t < |s.pcs| && u < |s.pcs| && t != u && Possible(s, t, e)
    requires Indexed(s, s.pcs[u]) && Claim(s, s.pcs[u]) && Tied(s, u) && s.pcs[u].Picked?
    requires e.change.Some? ==> Justified(s, t, e.change.value.p, e.change.value.task)
    ensures Indexed(Apply(s, t, e), s.pcs[u]) && Claim(Apply(s, t, e), s.pcs[u])
  {
    var pc := s.pcs[u];
    assert pc.x in {pc.a, pc.b};
    assert Rq(pc.x) in Held(pc);
  }

  lemma LockClaims(s: State, t: nat, e: Effect)
    requires |s.allowed| == |s.tasks| && t < |s.pcs| && Possible(s, t, e) && Indexed(s, s.pcs[t]) && Claim(s, s.pcs[t])
    requires LockSteps(s, s.pcs[t], e)
    ensures Indexed(Apply(s, t, e), e.pc) && Claim(Apply(s, t, e), e.pc)
  {
  }

  lemma WakeClaims(s: State, t: nat, e: Effect)
    requires |s.allowed| == |s.tasks| && t < |s.pcs| && Possible(s, t, e) && Indexed(s, s.pcs[t]) && Claim(s, s.pcs[t])
    requires forall p {:trigger s.tasks[p]} :: 0 <= p < |s.tasks| ==> Sane(s.tasks[p], s.allowed[p])
    requires WakeSteps(s, s.pcs[t], e)
    ensures Indexed(Apply(s, t, e), e.pc) && Claim(Apply(s, t, e), e.pc)
  {
  }

  lemma MoveClaims(s: State, t: nat, e: Effect)
    requires |s.allowed| == |s.tasks| && t < |s.pcs| && Possible(s, t, e) && Indexed(s, s.pcs[t]) && Claim(s, s.pcs[t])
    requires MoveSteps(s, s.pcs[t], e)
    ensures Indexed(Apply(s, t, e), e.pc) && Claim(Apply(s, t, e), e.pc)
  {
  }

  lemma RunClaims(s: State, t: nat, e: Effect)
    requires |s.allowed| == |s.tasks| && t < |s.pcs| && Possible(s, t, e) && Indexed(s, s.pcs[t]) && Claim(s, s.pcs[t])
    requires RunSteps(s, s.pcs[t], e)
    ensures Indexed(Apply(s, t, e), e.pc) && Claim(Apply(s, t, e), e.pc)
  {
    hide Apply, Possible;
    SameSizes(s, t, e);
  }

  lemma SameSizes(s: State, t: nat, e: Effect)
    requires t < |s.pcs| && Possible(s, t, e)
    ensures Apply(s, t, e).allowed == s.allowed && |Apply(s, t, e).tasks| == |s.tasks|
  {
  }

  lemma StartClaims(s: State, t: nat, e: Effect)
    requires |s.allowed| == |s.tasks| && t < |s.pcs| && Possible(s, t, e) && Indexed(s, s.pcs[t]) && Claim(s, s.pcs[t])
    requires StartSteps(s, s.pcs[t], e)
    ensures Indexed(Apply(s, t, e), e.pc) && Claim(Apply(s, t, e), e.pc)
  {
  }

  lemma {:induction false} OwnClaim(s: State, t: nat, e: Effect)
    requires Inv(s) && t < |s.pcs| && Possible(s, t, e) && Indexed(s, s.pcs[t]) && Does(s, s.pcs[t], e)
    ensures Indexed(Apply(s, t, e), e.pc) && Claim(Apply(s, t, e), e.pc)
  {
    hide LockSteps, WakeSteps, MoveSteps, RunSteps, StartSteps, Claim, Tied, Apply, Possible;
    assert Claim(s, s.pcs[t]);
    if LockSteps(s, s.pcs[t], e) { LockClaims(s, t, e); }
    else if WakeSteps(s, s.pcs[t], e) { WakeClaims(s, t, e); }
    else if MoveSteps(s, s.pcs[t], e) { MoveClaims(s, t, e); }
    else if RunSteps(s, s.pcs[t], e) { RunClaims(s, t, e); }
    else { StartClaims(s, t, e); }
  }

  lemma {:induction false} StaysSane(s: State, t: nat, e: Effect, p: nat)
    requires Inv(s) && t < |s.pcs| && Possible(s, t, e) && p < |s.tasks|
    requires e.change.Some? ==> Justified(s, t, e.change.value.p, e.change.value.task)
    ensures Sane(Apply(s, t, e).tasks[p], s.allowed[p])
  {
    assert Sane(s.tasks[p], s.allowed[p]);
  }

  /** Every step keeps the invariant. */
  lemma {:induction false} StepKeeps(s: State, t: nat, e: Effect)
    requires Inv(s) && t < |s.pcs| && Indexed(s, s.pcs[t]) && Does(s, s.pcs[t], e) && Possible(s, t, e)
    ensures Inv(Apply(s, t, e))
  {
    hide Does, Claim, Held, Indexed, Tied, Justified, Follows, Sane;
    var s' := Apply(s, t, e);
    HeldFollows(s, s.pcs[t], e);
    OwnClaim(s, t, e);
    if e.change.Some? { StepJustified(s, t, e); }
    forall u | 0 <= u < |s.pcs| ensures Indexed(s', s'.pcs[u]) && Claim(s', s'.pcs[u]) && Tied(s', u) {
      InvAt(s, u);
      InvAt(s, t);
      TieKept(s, t, e, u);
      if u != t { ClaimSurvives(s, t, e, u); }
    }
    forall p | 0 <= p < |s'.tasks| ensures Sane(s'.tasks[p], s'.allowed[p]) { StaysSane(s, t, e, p); }
  }

  ghost predicate Run(trace: seq<State>) {
    && |trace| > 0 && Init(trace[0])
    && forall i {:trigger trace[i]} :: 1 <= i < |trace| ==> Step(trace[i - 1], trace[i])
  }

  lemma {:induction false} RunKeeps(trace: seq<State>, i: nat)
    requires Run(trace) && i < |trace|
    ensures Inv(trace[i])
  {
    hide Inv, Init, Does, Possible, Indexed, Apply;
    if i == 0 {
      InitKeeps(trace[0]);
    } else {
      RunKeeps(trace, i - 1);
      assert Step(trace[i - 1], trace[i]);
      var s := trace[i - 1];
      var t: nat, e: Effect :| t < |s.pcs| && Indexed(s, s.pcs[t]) && Does(s, s.pcs[t], e) && Possible(s, t, e)
                               && trace[i] == Apply(s, t, e);
      StepKeeps(s, t, e);
    }
  }

  // ------------------------------------------------------------------
  // What the locks buy
  // ------------------------------------------------------------------

  /** From the moment a lock function has returned a run queue until it is unlocked, that is the
      task's run queue, and both locks are the caller's. */
  lemma {:induction false} LockedRqIsTaskRq(s: State, t: nat)
    requires Inv(s) && t < |s.pcs| && s.pcs[t].Locked?
    ensures
      var pc := s.pcs[t];
      && pc.p < |s.tasks| && s.tasks[pc.p].cpu == pc.r
      && Owns(s, t, Pi(pc.p)) && Owns(s, t, Rq(pc.r))
  {
    assert Tied(s, t) && Claim(s, s.pcs[t]);
    assert Pi(s.pcs[t].p) in Held(s.pcs[t]) && Rq(s.pcs[t].r) in Held(s.pcs[t]);
  }

  lemma {:induction false} LockedInEveryRun(trace: seq<State>, i: nat, t: nat)
    requires Run(trace) && i < |trace| && t < |trace[i].pcs| && trace[i].pcs[t].Locked?
    ensures
      var s, pc := trace[i], trace[i].pcs[t];
      && pc.p < |s.tasks| && s.tasks[pc.p].cpu == pc.r
      && Owns(s, t, Pi(pc.p)) && Owns(s, t, Rq(pc.r))
  {
    hide Run, Inv;
    RunKeeps(trace, i);
    LockedRqIsTaskRq(trace[i], t);
  }

  /** A task changes CPU only under both run queues' locks while it is queued, and only under
      its pi_lock while it is not; it becomes queued only under the lock of its own queue. */
  lemma {:induction false} MoversHoldTheLock(s: State, t: nat, e: Effect, p: nat)
    requires Inv(s) && t < |s.pcs| && Indexed(s, s.pcs[t]) && Does(s, s.pcs[t], e) && Possible(s, t, e)
    requires p < |s.tasks|
    ensures
      var was, now := s.tasks[p], Apply(s, t, e).tasks[p];
      && (was.cpu != now.cpu ==>
            if was.status.Queued? then Owns(s, t, Rq(was.cpu)) && Owns(s, t, Rq(now.cpu)) else Owns(s, t, Pi(p)))
      && (!was.status.Queued? && now.status.Queued? ==> Owns(s, t, Rq(now.cpu)))
      && now.cpu in s.allowed[p]
  {
    hide Does, Claim, Held, Indexed, Tied;
    if e.change.Some? { StepJustified(s, t, e); }
    assert Sane(s.tasks[p], s.allowed[p]);
  }

  // ------------------------------------------------------------------
  // Somebody can always go on
  // ------------------------------------------------------------------

  ghost predicate CanStep(s: State, t: nat) {
    && t < |s.pcs| && Indexed(s, s.pcs[t])
    && exists e :: Does(s, s.pcs[t], e) && Possible(s, t, e)
  }

  /** A step from each point that does not wait. */
  function Onward(s: State, pc: Pc): Effect
    requires Indexed(s, pc)
  {
    match pc
    case PiHeld(p, job) =>
      if job.TaskRqLock? then Go(RqWanted(p, s.tasks[p].cpu, job))
      else if job.Migrate? then Go(First(Migration(p), job.src, job.dest))
      else if s.tasks[p].status.Waking? then Drop(Pi(p), Out)
      else if s.tasks[p].status.Queued? then Go(RqWanted(p, s.tasks[p].cpu, WakeUp))
      else Set(p, s.tasks[p].(status := Waking), Woken(p))
    case Reread(p) => Go(RqWanted(p, s.tasks[p].cpu, WakeUp))
    case RqHeld(p, r, job) =>
      if r == s.tasks[p].cpu then Go(Locked(p, r, job)) else Drop(Rq(r), if job.WakeUp? then Reread(p) else PiStale(p))
    case PiStale(p) => Drop(Pi(p), PiWanted(p, TaskRqLock))
    case Locked(p, r, job) =>
      Drop(Rq(r), if job.TaskRqLock? || s.tasks[p].status.Queued? then PiLast(p) else PiHeld(p, WakeUp))
    case PiLast(p) => Drop(Pi(p), Out)
    case Woken(p) => Set(p, s.tasks[p].(cpu := s.tasks[p].cpu), Placed(p, s.tasks[p].cpu))
    case Placed(p, r) => Go(ActWanted(p, r))
    case ActHeld(p, r) => Set(p, s.tasks[p].(status := Queued), ActDone(p, r))
    case ActDone(p, r) => Drop(Rq(r), PiLast(p))
    case Both(who, a, b) =>
      if who.Migration? && s.tasks[who.task].cpu == a && b in s.allowed[who.task] then Go(Checked(who.task, a, b))
      else Go(Unlock(who, a, b))
    case Checked(p, a, b) =>
      if s.tasks[p].status.Queued? then Set(p, s.tasks[p].(cpu := b), Unlock(Migration(p), a, b))
      else Go(Unlock(Migration(p), a, b))
    case Picked(who, a, b, p, x, y) => Set(p, s.tasks[p].(cpu := y), Both(who, a, b))
    case Unlock(who, a, b) =>
      if who.Balance? then Drop(Rq(b), RunHeld(a)) else Drop(Rq(a), if a != b then UnlockSecond(who, b) else After(who))
    case UnlockSecond(who, b) => Drop(Rq(b), After(who))
    case RunHeld(r) => Drop(Rq(r), Out)
    case LocalHeld(p, r) =>
      if s.tasks[p].status.Blocked? then Set(p, s.tasks[p].(status := Queued), LocalDone(p, r)) else Go(LocalDone(p, r))
    case LocalDone(p, r) => Drop(Pi(p), RunHeld(r))
    case _ => Go(Out)
  }

  lemma {:induction false} OnwardDoes(s: State, t: nat)
    requires Inv(s) && t < |s.pcs| && Indexed(s, s.pcs[t]) && s.pcs[t] != Out && Want(s.pcs[t]).None?
    ensures Does(s, s.pcs[t], Onward(s, s.pcs[t]))
  {
    if s.pcs[t].Woken? {
      var p := s.pcs[t].p;
      assert Sane(s.tasks[p], s.allowed[p]);
      assert s.tasks[p].cpu in s.allowed[p];
    }
  }

  lemma {:induction false} NotWaitingCanStep(s: State, t: nat)
    requires Inv(s) && t < |s.pcs| && s.pcs[t] != Out && Want(s.pcs[t]).None?
    ensures CanStep(s, t)
  {
    hide Does, Claim, Held, Indexed, Onward;
    assert Indexed(s, s.pcs[t]) && Tied(s, t);
    var e := Onward(s, s.pcs[t]);
    OnwardDoes(s, t);
    OnwardPlain(s, s.pcs[t]);
    HeldFollows(s, s.pcs[t], e);
    assert Possible(s, t, e);
  }

  lemma OnwardPlain(s: State, pc: Pc)
    requires Indexed(s, pc)
    ensures Onward(s, pc).take.None?
    ensures Onward(s, pc).change.Some? ==> Onward(s, pc).change.value.p < |s.tasks|
  {
  }

  lemma {:induction false} FreeLockCanBeTaken(s: State, t: nat)
    requires Inv(s) && t < |s.pcs| && Want(s.pcs[t]).Some? && Want(s.pcs[t]).value !in s.owner
    ensures CanStep(s, t)
  {
    hide Claim, Held, MoveSteps, RunSteps, StartSteps;
    assert Indexed(s, s.pcs[t]);
    var pc := s.pcs[t];
    var next := match pc
      case PiWanted(p, job) => PiHeld(p, job)
      case RqWanted(p, r, job) => RqHeld(p, r, job)
      case ActWanted(p, r) => ActHeld(p, r)
      case First(who, a, b) => if a == b then Both(who, a, b) else Second(who, a, b)
      case Second(who, a, b) => Both(who, a, b)
      case RunWanted(r) => RunHeld(r)
      case LocalPi(p, r) => LocalRq(p, r)
      case LocalRq(p, r) => LocalHeld(p, r)
      case _ => Out;
    var e := Take(Want(pc).value, next);
    assert LockSteps(s, pc, e) || WakeSteps(s, pc, e);
    assert Possible(s, t, e);
  }

  /** Among the waiting threads one wants a lock of the highest rank. */
  lemma {:induction false} HighestWaiter(s: State, n: nat, w: nat) returns (t: nat)
    requires w < n <= |s.pcs| && Want(s.pcs[w]).Some?
    ensures t < n && Want(s.pcs[t]).Some?
    ensures forall u {:trigger s.pcs[u]} :: 0 <= u < n && Want(s.pcs[u]).Some? ==>
      Rank(Want(s.pcs[u]).value) <= Rank(Want(s.pcs[t]).value)
    decreases n
  {
    hide Want, Rank;
    var last := n - 1;
    if exists v :: 0 <= v < last && Want(s.pcs[v]).Some? {
      var v: nat :| v < last && Want(s.pcs[v]).Some?;
      t := HighestWaiter(s, last, v);
      if Want(s.pcs[last]).Some? && Rank(Want(s.pcs[last]).value) > Rank(Want(s.pcs[t]).value) {
        t := last;
      }
    } else {
      t := w;
    }
  }

  /** As long as any thread is waiting for a lock, some thread inside the protocol can move. */
  lemma {:induction false} Progress(s: State, w: nat)
    requires Inv(s) && w < |s.pcs| && Want(s.pcs[w]).Some?
    ensures exists t :: 0 <= t < |s.pcs| && s.pcs[t] != Out && CanStep(s, t)
  {
    hide Claim, Held, Indexed, Want, Rank, CanStep, Sane;
    var t := HighestWaiter(s, |s.pcs|, w);
    var l := Want(s.pcs[t]).value;
    if l !in s.owner {
      FreeLockCanBeTaken(s, t);
      OutWantsNothing(s.pcs[t]);
    } else {
      var u := s.owner[l];
      assert Tied(s, u) && Indexed(s, s.pcs[u]);
      assert Owns(s, u, l) && l in Held(s.pcs[u]);
      OutWantsNothing(s.pcs[u]);
      if Want(s.pcs[u]).Some? {
        WaitsUpwards(s, s.pcs[u], l);
        assert false;
      }
      NotWaitingCanStep(s, u);
    }
  }

  lemma OutWantsNothing(pc: Pc)
    ensures pc == Out ==> Want(pc).None? && Held(pc) == {}
  {
  }
}
