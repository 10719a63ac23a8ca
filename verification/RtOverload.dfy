/** Which CPUs have real-time tasks to spare (rt.c, core.c): the per-CPU counts, the overloaded
    flag, and the root domain's mask and counter, which other CPUs read without a lock. Each
    method is the part of an operation that others can see at once: a change of a CPU's flag
    takes two of them, the second being Finish. */
module RtOverload {

  /** A real-time task: where it is queued, if it is, and how many CPUs it may use. */
  datatype Task = Task(cpu: nat, queued: bool, nrCpusAllowed: nat)

  /** Between the two halves of rt_set_overload and rt_clear_overload */
  datatype Phase = Settled | Raising | Dropping | Leaving

  /** The fields of struct rq and its rt_rq */
  datatype RqRt = RqRt(nrTotal: int, nrMigratory: int, overloaded: bool, online: bool, phase: Phase)

  function QueuedOn(tasks: seq<Task>, c: nat): set<nat> {
    set p | 0 <= p < |tasks| && tasks[p].queued && tasks[p].cpu == c
  }

  function MigratoryOn(tasks: seq<Task>, c: nat): set<nat> {
    set p | 0 <= p < |tasks| && tasks[p].queued && tasks[p].cpu == c && tasks[p].nrCpusAllowed > 1
  }

  /** The definition of an overloaded CPU: more than one task, and one that could go elsewhere */
  predicate Overloaded(tasks: seq<Task>, c: nat) {
    |MigratoryOn(tasks, c)| >= 1 && |QueuedOn(tasks, c)| > 1
  }

  /** A queued task that could go elsewhere, and another one that would stay */
  ghost predicate ToSpare(tasks: seq<Task>, c: nat) {
    exists p: nat, q: nat :: p != q && Waits(tasks, p, c) && Waits(tasks, q, c) && tasks[p].nrCpusAllowed > 1
  }

  ghost predicate Waits(tasks: seq<Task>, p: nat, c: nat) {
    p < |tasks| && tasks[p].queued && tasks[p].cpu == c
  }

  lemma {:induction false} OverloadedIff(tasks: seq<Task>, c: nat)
    ensures Overloaded(tasks, c) <==> ToSpare(tasks, c)
  {
    if Overloaded(tasks, c) {
      assert MigratoryOn(tasks, c) != {};
      var p :| p in MigratoryOn(tasks, c);
      var q := Another(QueuedOn(tasks, c), p);
      assert Waits(tasks, p, c) && Waits(tasks, q, c);
    }
    if p: nat, q: nat :| p != q && Waits(tasks, p, c) && Waits(tasks, q, c) && tasks[p].nrCpusAllowed > 1 {
      assert p in MigratoryOn(tasks, c);
      DifferInOne(QueuedOn(tasks, c), QueuedOn(tasks, c) - {q}, q);
      assert p in QueuedOn(tasks, c) - {q};
    }
  }

  lemma {:induction false} Another(s: set<nat>, p: nat) returns (q: nat)
    requires |s| > 1
    ensures q in s && q != p
  {
    DifferInOne(s, s - {p}, p);
    assert s - {p} != {};
    q :| q in s - {p};
  }

  predicate Needs(q: RqRt) {
    q.nrMigratory != 0 && q.nrTotal > 1
  }

  ghost predicate CountsRight(tasks: seq<Task>, q: RqRt, c: nat) {
    q.nrTotal == |QueuedOn(tasks, c)| && q.nrMigratory == |MigratoryOn(tasks, c)|
  }

  ghost predicate PhaseRight(q: RqRt) {
    match q.phase
    case Settled => q.overloaded == Needs(q)
    case Raising => q.online && Needs(q)
    case Dropping => q.online && q.overloaded && !Needs(q)
    case Leaving => q.online && q.overloaded && Needs(q)
  }

  /** Which half of a change the counts call for; an offline CPU changes its flag at once. */
  function Updated(q: RqRt): RqRt {
    if Needs(q) == q.overloaded then q
    else if !q.online then q.(overloaded := Needs(q))
    else q.(phase := if Needs(q) then Raising else Dropping)
  }

  /** One task more or less */
  function Counting(q: RqRt, nrCpusAllowed: nat, n: int): RqRt {
    q.(nrTotal := q.nrTotal + n, nrMigratory := q.nrMigratory + if nrCpusAllowed > 1 then n else 0)
  }

  predicate Shown(q: RqRt) {
    !q.phase.Settled? || (q.online && q.overloaded)
  }

  predicate CountedIn(q: RqRt) {
    q.phase.Settled? && q.online && q.overloaded
  }

  function CountedSet(rqs: seq<RqRt>): set<nat> {
    set c | 0 <= c < |rqs| && CountedIn(rqs[c])
  }

  lemma {:induction false} DifferInOne(a: set<nat>, b: set<nat>, x: nat)
    requires a - {x} == b - {x}
    ensures |b| == |a| - (if x in a then 1 else 0) + (if x in b then 1 else 0)
  {
    assert a == if x in a then (a - {x}) + {x} else a - {x};
    assert b == if x in b then (b - {x}) + {x} else b - {x};
  }

  /** One CPU's record changes: the counted set gains or loses it. */
  lemma {:induction false} CountedChange(rqs: seq<RqRt>, c: nat, q: RqRt)
    requires c < |rqs|
    ensures |CountedSet(rqs[c := q])| ==
      |CountedSet(rqs)| - (if CountedIn(rqs[c]) then 1 else 0) + (if CountedIn(q) then 1 else 0)
  {
    var a, b := CountedSet(rqs), CountedSet(rqs[c := q]);
    assert a - {c} == b - {c};
    DifferInOne(a, b, c);
  }

  /** One task changes: the counts of other CPUs stay, its own gain or lose one. */
  lemma {:induction false} QueuedChange(tasks: seq<Task>, p: nat, t: Task, c: nat)
    requires p < |tasks|
    ensures |QueuedOn(tasks[p := t], c)| == |QueuedOn(tasks, c)|
      - (if tasks[p].queued && tasks[p].cpu == c then 1 else 0) + (if t.queued && t.cpu == c then 1 else 0)
  {
    var a, b := QueuedOn(tasks, c), QueuedOn(tasks[p := t], c);
    assert a - {p} == b - {p};
    DifferInOne(a, b, p);
  }

  lemma {:induction false} MigratoryChange(tasks: seq<Task>, p: nat, t: Task, c: nat)
    requires p < |tasks|
    ensures |MigratoryOn(tasks[p := t], c)| == |MigratoryOn(tasks, c)|
      - (if tasks[p].queued && tasks[p].cpu == c && tasks[p].nrCpusAllowed > 1 then 1 else 0)
      + (if t.queued && t.cpu == c && t.nrCpusAllowed > 1 then 1 else 0)
  {
    var a, b := MigratoryOn(tasks, c), MigratoryOn(tasks[p := t], c);
    assert a - {p} == b - {p};
    DifferInOne(a, b, p);
  }

  class RootDomain {
    var tasks: seq<Task>
    var rqs: seq<RqRt>
    var rtoMask: set<nat>
    var rtoCount: int

    /** In every reachable state the mask shows the online overloaded CPUs and those in
        between, and the counter counts those that are not. */
    ghost predicate Valid()
      reads this
    {
      && (forall c {:trigger rqs[c]} :: 0 <= c < |rqs| ==> CountsRight(tasks, rqs[c], c) && PhaseRight(rqs[c]))
      && (forall c :: c in rtoMask <==> 0 <= c < |rqs| && Shown(rqs[c]))
      && rtoCount == |CountedSet(rqs)|
    }

    constructor (cpus: nat)
      ensures Valid() && tasks == [] && rqs == seq(cpus, c => RqRt(0, 0, false, false, Settled))
    {
      tasks, rtoMask, rtoCount := [], {}, 0;
      rqs := seq(cpus, c => RqRt(0, 0, false, false, Settled));
      new;
      assert CountedSet(rqs) == {};
    }

    /** A new task, on no queue, that may use so many CPUs */
    method AddTask(nrCpusAllowed: nat) returns (p: nat)
      requires Valid()
      modifies `tasks
      ensures Valid() && p == old(|tasks|) && tasks == old(tasks) + [Task(0, false, nrCpusAllowed)]
    {
      p := |tasks|;
      var t := Task(0, false, nrCpusAllowed);
      forall c: nat ensures QueuedOn(tasks + [t], c) == QueuedOn(tasks, c) { QueuedGrow(tasks, t, c); }
      forall c: nat ensures MigratoryOn(tasks + [t], c) == MigratoryOn(tasks, c) { QueuedGrow(tasks, t, c); }
      tasks := tasks + [t];
    }

    static lemma QueuedGrow(tasks: seq<Task>, t: Task, c: nat)
      requires !t.queued
      ensures QueuedOn(tasks + [t], c) == QueuedOn(tasks, c)
      ensures MigratoryOn(tasks + [t], c) == MigratoryOn(tasks, c)
    {
    }

    /** A reader that finds the counter positive finds somebody in the mask, at any time. */
    lemma CountShowsInMask()
      requires Valid()
      ensures rtoCount <= |rtoMask|
      ensures rtoCount > 0 ==> rtoMask != {}
    {
      Within(CountedSet(rqs), rtoMask);
    }

    /** With no change in progress the flags, the mask and the counter all say the same. */
    lemma SummaryAgrees()
      requires Valid() && forall c :: 0 <= c < |rqs| ==> rqs[c].phase.Settled?
      ensures forall c :: 0 <= c < |rqs| ==> (rqs[c].overloaded <==> ToSpare(tasks, c))
      ensures rtoMask == set c | 0 <= c < |rqs| && rqs[c].online && ToSpare(tasks, c)
      ensures rtoCount == |rtoMask|
    {
      hide CountedSet, ToSpare;
      forall c | 0 <= c < |rqs| ensures rqs[c].overloaded <==> ToSpare(tasks, c) {
        OverloadedIff(tasks, c);
        assert CountsRight(tasks, rqs[c], c) && PhaseRight(rqs[c]);
      }
      CountedIsMask();
    }

    lemma CountedIsMask()
      requires Valid() && forall c :: 0 <= c < |rqs| ==> rqs[c].phase.Settled?
      ensures CountedSet(rqs) == rtoMask
    {
    }

    static lemma {:induction false} Within(a: set<nat>, b: set<nat>)
      requires a <= b
      ensures |a| <= |b|
    {
      assert b == a + (b - a);
    }

    /** update_rt_migration, up to what the second half does */
    method UpdateRtMigration(c: nat)
      requires c < |rqs| && rqs[c].phase.Settled?
      requires forall k :: k in rtoMask <==> 0 <= k < |rqs| && Shown(rqs[k])
      requires rtoCount == |CountedSet(rqs)|
      modifies `rqs, `rtoMask, `rtoCount
      ensures |rqs| == old(|rqs|) && PhaseRight(rqs[c]) && rqs == old(rqs)[c := Updated(old(rqs[c]))]
      ensures forall k :: k in rtoMask <==> 0 <= k < |rqs| && Shown(rqs[k])
      ensures rtoCount == |CountedSet(rqs)|
    {
      hide CountedSet;
      var q := rqs[c];
      if q.nrMigratory != 0 && q.nrTotal > 1 {
        if !q.overloaded {
          if q.online {
            rtoMask := rtoMask + {c};
            q := q.(phase := Raising);
          } else {
            q := q.(overloaded := true);
          }
        }
      } else if q.overloaded {
        if q.online {
          rtoCount := rtoCount - 1;
          q := q.(phase := Dropping);
        } else {
          q := q.(overloaded := false);
        }
      }
      CountedChange(rqs, c, q);
      rqs := rqs[c := q];
    }

    /** The second half: the counter follows the mask on the way up, the mask the counter on
        the way down. */
    method Finish(c: nat)
      requires Valid() && c < |rqs|
      modifies `rqs, `rtoMask, `rtoCount
      ensures Valid() && |rqs| == old(|rqs|) && tasks == old(tasks)
      ensures rqs == old(rqs)[c := match old(rqs[c]).phase
        case Settled => old(rqs[c])
        case Raising => old(rqs[c]).(phase := Settled, overloaded := true)
        case Dropping => old(rqs[c]).(phase := Settled, overloaded := false)
        case Leaving => old(rqs[c]).(phase := Settled, online := false)]
    {
      hide CountedSet, QueuedOn, MigratoryOn;
      var q := rqs[c];
      match q.phase {
        case Settled =>
        case Raising =>
          rtoCount := rtoCount + 1;
          q := q.(phase := Settled, overloaded := true);
        case Dropping =>
          rtoMask := rtoMask - {c};
          q := q.(phase := Settled, overloaded := false);
        case Leaving =>
          rtoMask := rtoMask - {c};
          q := q.(phase := Settled, online := false);
      }
      CountedChange(rqs, c, q);
      rqs := rqs[c := q];
    }

    /** inc_rt_migration, when a task is queued */
    method IncRtMigration(p: nat, c: nat)
      requires Valid() && p < |tasks| && !tasks[p].queued && c < |rqs| && rqs[c].phase.Settled?
      modifies this
      ensures Valid() && |rqs| == old(|rqs|) && tasks == old(tasks)[p := old(tasks[p]).(queued := true, cpu := c)]
      ensures rqs == old(rqs)[c := Updated(Counting(old(rqs[c]), old(tasks[p]).nrCpusAllowed, 1))]
    {
      hide CountedSet, QueuedOn, MigratoryOn;
      var t := tasks[p].(queued := true, cpu := c);
      Counts(p, t);
      tasks := tasks[p := t];
      var q := rqs[c].(nrTotal := rqs[c].nrTotal + 1);
      if t.nrCpusAllowed > 1 {
        q := q.(nrMigratory := q.nrMigratory + 1);
      }
      CountedChange(rqs, c, q);
      rqs := rqs[c := q];
      UpdateRtMigration(c);
    }

    method DecRtMigration(p: nat)
      requires Valid() && p < |tasks| && tasks[p].queued && tasks[p].cpu < |rqs| && rqs[tasks[p].cpu].phase.Settled?
      modifies this
      ensures Valid() && |rqs| == old(|rqs|) && tasks == old(tasks)[p := old(tasks[p]).(queued := false)]
      ensures var c := old(tasks[p]).cpu;
              rqs == old(rqs)[c := Updated(Counting(old(rqs)[c], old(tasks[p]).nrCpusAllowed, -1))]
    {
      hide CountedSet, QueuedOn, MigratoryOn;
      var c, t := tasks[p].cpu, tasks[p].(queued := false);
      Counts(p, t);
      var q := rqs[c].(nrTotal := rqs[c].nrTotal - 1);
      if t.nrCpusAllowed > 1 {
        q := q.(nrMigratory := q.nrMigratory - 1);
      }
      tasks := tasks[p := t];
      CountedChange(rqs, c, q);
      rqs := rqs[c := q];
      UpdateRtMigration(c);
    }

    /** set_cpus_allowed_rt and the assignment that follows it; its BUG_ON never fires. */
    method SetCpusAllowedRt(p: nat, weight: nat)
      requires Valid() && p < |tasks| && (tasks[p].queued ==> tasks[p].cpu < |rqs| && rqs[tasks[p].cpu].phase.Settled?)
      modifies this
      ensures Valid() && |rqs| == old(|rqs|) && tasks == old(tasks)[p := old(tasks[p]).(nrCpusAllowed := weight)]
      ensures forall k :: 0 <= k < |rqs| && !(old(tasks[p]).queued && k == old(tasks[p]).cpu) ==> rqs[k] == old(rqs)[k]
    {
      hide CountedSet, QueuedOn, MigratoryOn;
      var t := tasks[p].(nrCpusAllowed := weight);
      Counts(p, t);
      if tasks[p].queued && weight != tasks[p].nrCpusAllowed {
        var c := tasks[p].cpu;
        var q := rqs[c];
        if tasks[p].nrCpusAllowed <= 1 && weight > 1 {
          q := q.(nrMigratory := q.nrMigratory + 1);
        } else if tasks[p].nrCpusAllowed > 1 && weight <= 1 {
          Migratory(p, c);
          assert q.nrMigratory != 0;
          q := q.(nrMigratory := q.nrMigratory - 1);
        }
        CountedChange(rqs, c, q);
        rqs := rqs[c := q];
        UpdateRtMigration(c);
      }
      tasks := tasks[p := t];
    }

    lemma Migratory(p: nat, c: nat)
      requires Valid() && p < |tasks| && c < |rqs| && tasks[p].queued && tasks[p].cpu == c && tasks[p].nrCpusAllowed > 1
      ensures rqs[c].nrMigratory >= 1
    {
      assert CountsRight(tasks, rqs[c], c);
      assert p in MigratoryOn(tasks, c);
    }

    lemma {:induction false} Counts(p: nat, t: Task)
      requires p < |tasks|
      ensures forall c: nat {:trigger QueuedOn(tasks[p := t], c)} ::
        |QueuedOn(tasks[p := t], c)| == |QueuedOn(tasks, c)|
          - (if tasks[p].queued && tasks[p].cpu == c then 1 else 0) + (if t.queued && t.cpu == c then 1 else 0)
      ensures forall c: nat {:trigger MigratoryOn(tasks[p := t], c)} ::
        |MigratoryOn(tasks[p := t], c)| == |MigratoryOn(tasks, c)|
          - (if tasks[p].queued && tasks[p].cpu == c && tasks[p].nrCpusAllowed > 1 then 1 else 0)
          + (if t.queued && t.cpu == c && t.nrCpusAllowed > 1 then 1 else 0)
    {
      forall c: nat { QueuedChange(tasks, p, t, c); }
      forall c: nat { MigratoryChange(tasks, p, t, c); }
    }

    /** set_rq_online with rq_online_rt, up to what Finish does */
    method SetRqOnline(c: nat)
      requires Valid() && c < |rqs| && rqs[c].phase.Settled? && !rqs[c].online
      modifies this
      ensures Valid() && tasks == old(tasks)
      ensures var phase := if old(rqs[c]).overloaded then Raising else Settled;
              rqs == old(rqs)[c := old(rqs[c]).(online := true, phase := phase)]
    {
      hide CountedSet, QueuedOn, MigratoryOn;
      var q := rqs[c].(online := true);
      if q.overloaded {
        rtoMask := rtoMask + {c};
        q := q.(phase := Raising);
      }
      CountedChange(rqs, c, q);
      rqs := rqs[c := q];
    }

    /** rq_offline_rt with set_rq_offline, up to what Finish does */
    method SetRqOffline(c: nat)
      requires Valid() && c < |rqs| && rqs[c].phase.Settled? && rqs[c].online
      modifies this
      ensures Valid() && tasks == old(tasks)
      ensures rqs == old(rqs)[c := if old(rqs[c]).overloaded then old(rqs[c]).(phase := Leaving)
        else old(rqs[c]).(online := false)]
    {
      hide CountedSet, QueuedOn, MigratoryOn;
      var q := rqs[c];
      if q.overloaded {
        rtoCount := rtoCount - 1;
        q := q.(phase := Leaving);
      } else {
        q := q.(online := false);
      }
      CountedChange(rqs, c, q);
      rqs := rqs[c := q];
    }
  }

  /** Two tasks on one of two CPUs, one of which may leave: only then is there something to pull. */
  method OneTooMany() returns (m: RootDomain)
    ensures fresh(m) && m.Valid() && |m.rqs| == 2 && m.rtoMask == {0} && m.rtoCount == 1
  {
    hide CountedSet, QueuedOn, MigratoryOn, Shown;
    m := new RootDomain(2);
    var p := m.AddTask(2);
    var q := m.AddTask(1);
    m.SetRqOnline(0);
    m.Finish(0);
    m.IncRtMigration(p, 0);
    m.Finish(0);
    m.IncRtMigration(q, 0);
    m.Finish(0);
    TwoQueued(m.tasks);
    m.SummaryAgrees();
    assert m.rtoMask == {0};
  }

  lemma TwoQueued(tasks: seq<Task>)
    requires tasks == [Task(0, true, 2), Task(0, true, 1)]
    ensures ToSpare(tasks, 0) && !ToSpare(tasks, 1)
  {
    OverloadedIff(tasks, 0);
    OverloadedIff(tasks, 1);
    assert QueuedOn(tasks, 0) == {0, 1} && MigratoryOn(tasks, 0) == {0} && QueuedOn(tasks, 1) == {};
  }
}
