/** The hierarchy of real-time run queues of one CPU, as values (rt.c).

    Every task group owns a run queue on the CPU; the group is represented on its
    parent's run queue by an entity whose priority is the best priority queued
    below it.  Changing a run queue therefore changes the priority of the entity
    above it, so entities are unlinked from the top down before any queue below
    them changes, and linked again from the bottom up.

    Entities and run queues are numbered; run queue 0 is the root, rq->rt. */
module RtHierarchy {
  import opened Options
  import opened RtPrioArray
  import opened Sequences

  /** The fixed links of struct sched_rt_entity; a task owns no queue. */
  datatype Node = Node(rtRq: nat, myQ: Option<nat>, parent: Option<nat>)

  /** owner[q] is tg->rt_se[cpu] of the group whose queue is q; owner[0] is not used. */
  datatype Tree = Tree(nodes: seq<Node>, owner: seq<nat>)

  /** The changing part of an entity; prio and normalPrio are those of the task. */
  datatype Entity = Entity(prio: nat, normalPrio: nat, onRq: bool)

  datatype State = State(rqs: seq<Rq<nat>>, ents: seq<Entity>)

  ghost predicate TreeOk(t: Tree) {
    && |t.owner| > 0
    && (forall e {:trigger t.nodes[e].rtRq} :: 0 <= e < |t.nodes| ==> t.nodes[e].rtRq < |t.owner|)
    && (forall e {:trigger t.nodes[e].parent} :: 0 <= e < |t.nodes| ==>
          && (t.nodes[e].parent.None? <==> t.nodes[e].rtRq == 0)
          && (t.nodes[e].parent.Some? ==>
                t.nodes[e].parent.value < e && t.nodes[t.nodes[e].parent.value].myQ == Some(t.nodes[e].rtRq)))
    && (forall e {:trigger t.nodes[e].myQ} :: 0 <= e < |t.nodes| && t.nodes[e].myQ.Some? ==>
          0 < t.nodes[e].myQ.value < |t.owner| && t.owner[t.nodes[e].myQ.value] == e)
    && (forall q {:trigger t.owner[q]} :: 0 < q < |t.owner| ==>
          t.owner[q] < |t.nodes| && t.nodes[t.owner[q]].myQ == Some(q))
  }

  ghost predicate Fits(t: Tree, s: State) {
    && TreeOk(t) && |s.rqs| == |t.owner| && |s.ents| == |t.nodes|
    && (forall e :: 0 <= e < |t.nodes| && t.nodes[e].myQ.None? ==> s.ents[e].prio < MAX_RT_PRIO)
  }

  /** rt_se_prio: of a group, the best priority queued on its own run queue. */
  function Prio(t: Tree, s: State, e: nat): nat
    requires e < |t.nodes| && e < |s.ents|
    requires t.nodes[e].myQ.Some? ==> t.nodes[e].myQ.value < |s.rqs|
  {
    if t.nodes[e].myQ.Some? then s.rqs[t.nodes[e].myQ.value].highestPrio else s.ents[e].prio
  }

  /** rt_se_boosted */
  predicate Boosted(t: Tree, s: State, e: nat)
    requires e < |t.nodes| && e < |s.ents|
    requires t.nodes[e].myQ.Some? ==> t.nodes[e].myQ.value < |s.rqs|
  {
    if t.nodes[e].myQ.Some? then s.rqs[t.nodes[e].myQ.value].nrBoosted != 0
    else s.ents[e].prio != s.ents[e].normalPrio
  }

  ghost function Members(t: Tree, s: State, q: nat): set<nat>
    requires Fits(t, s)
  {
    set e | 0 <= e < |t.nodes| && t.nodes[e].rtRq == q && s.ents[e].onRq
  }

  ghost function Prios(t: Tree, s: State, q: nat): map<nat, nat>
    requires Fits(t, s)
  {
    map e | e in Members(t, s, q) :: Prio(t, s, e)
  }

  ghost function BoostedMembers(t: Tree, s: State, q: nat): set<nat>
    requires Fits(t, s)
  {
    set e | e in Members(t, s, q) && Boosted(t, s, e)
  }

  /** Run queue q agrees with the entities that are linked on it. */
  ghost predicate QueueOk(t: Tree, s: State, q: nat)
    requires Fits(t, s) && q < |s.rqs|
  {
    Consistent(s.rqs[q], Prios(t, s, q), BoostedMembers(t, s, q))
  }

  ghost predicate QueuesOk(t: Tree, s: State) {
    Fits(t, s) && forall q :: 0 <= q < |s.rqs| ==> QueueOk(t, s, q)
  }

  /** A group is to be queued exactly when something runnable is queued below it. */
  predicate Eligible(t: Tree, s: State, e: nat)
    requires e < |t.nodes| && t.nodes[e].myQ.Some? && t.nodes[e].myQ.value < |s.rqs|
  {
    var q := s.rqs[t.nodes[e].myQ.value];
    q.nrRunning > 0 && !Throttled(q)
  }

  ghost predicate Linked(t: Tree, s: State, e: nat)
    requires Fits(t, s) && e < |t.nodes|
  {
    t.nodes[e].myQ.Some? ==> (s.ents[e].onRq <==> Eligible(t, s, e))
  }

  /** The invariant of the hierarchy; the entities in except may be out of place. */
  ghost predicate Inv(t: Tree, s: State, except: set<nat>) {
    QueuesOk(t, s) && forall e :: 0 <= e < |t.nodes| && e !in except ==> Linked(t, s, e)
  }

  ghost predicate ParentOff(t: Tree, s: State, e: nat)
    requires Fits(t, s) && e < |t.nodes|
  {
    t.nodes[e].parent.Some? ==> !s.ents[t.nodes[e].parent.value].onRq
  }

  /** An empty root queue with no groups and no tasks is in order. */
  lemma {:induction false} EmptyIsConsistent(t: Tree, s: State)
    requires t == Tree([], [0]) && s == State([EmptyRq()], [])
    ensures Inv(t, s, {})
  {
    assert Members(t, s, 0) == {};
    EmptyQueueOk(t, s, 0);
  }

  // ------------------------------------------------------------------
  // One step: __dequeue_rt_entity and __enqueue_rt_entity
  // ------------------------------------------------------------------

  ghost predicate CanUnlink(t: Tree, s: State, e: nat) {
    QueuesOk(t, s) && e < |t.nodes| && s.ents[e].onRq
  }

  /** A linked entity has a real priority and its queue is not empty. */
  lemma {:induction false} LinkedHasPrio(t: Tree, s: State, e: nat)
    requires CanUnlink(t, s, e)
    ensures Prio(t, s, e) < MAX_RT_PRIO && s.rqs[t.nodes[e].rtRq].nrRunning > 0
    ensures |s.rqs[t.nodes[e].rtRq].queue| == MAX_RT_PRIO && |s.rqs[t.nodes[e].rtRq].bitmap| == MAX_RT_PRIO + 1
  {
    var q := t.nodes[e].rtRq;
    assert QueueOk(t, s, q);
    assert e in Prios(t, s, q) && Prios(t, s, q)[e] == Prio(t, s, e);
    RemoveConsistent(s.rqs[q], Prios(t, s, q), BoostedMembers(t, s, q), e);
  }

  ghost function Unlinked(t: Tree, s: State, e: nat): State
    requires CanUnlink(t, s, e)
  {
    LinkedHasPrio(t, s, e);
    var q := t.nodes[e].rtRq;
    s.(rqs := s.rqs[q := Removed(s.rqs[q], e, Prio(t, s, e), Boosted(t, s, e))],
       ents := s.ents[e := s.ents[e].(onRq := false)])
  }

  /** Changing queue q and its members leaves every other queue consistent, provided the
      entity that owns q is not linked. */
  lemma {:induction false} OtherQueuesOk(t: Tree, s: State, s': State, q: nat, x: nat)
    requires Fits(t, s) && Fits(t, s') && q < |s.rqs| && x < |s.rqs| && x != q
    requires s'.rqs == s.rqs[q := s'.rqs[q]]
    requires forall e :: 0 <= e < |t.nodes| && t.nodes[e].rtRq != q ==> s'.ents[e] == s.ents[e]
    requires forall e :: 0 <= e < |t.nodes| && t.nodes[e].myQ == Some(q) ==> !s.ents[e].onRq
    ensures Prios(t, s', x) == Prios(t, s, x)
    ensures BoostedMembers(t, s', x) == BoostedMembers(t, s, x)
  {
    assert Members(t, s', x) == Members(t, s, x);
    assert Prios(t, s', x) == Prios(t, s, x);
    assert BoostedMembers(t, s', x) == BoostedMembers(t, s, x);
  }

  /** No entity is queued on the run queue it owns. */
  lemma {:induction false} NotOnOwnQueue(t: Tree, e: nat)
    requires TreeOk(t) && e < |t.nodes|
    ensures t.nodes[e].myQ != Some(t.nodes[e].rtRq)
    ensures forall g :: 0 <= g < |t.nodes| && t.nodes[g].myQ == Some(t.nodes[e].rtRq) ==> t.nodes[e].parent == Some(g)
  {
    assert t.nodes[e].parent.None? <==> t.nodes[e].rtRq == 0;
  }

  lemma {:induction false} UnlinkMembers(t: Tree, s: State, e: nat)
    requires CanUnlink(t, s, e)
    ensures Fits(t, Unlinked(t, s, e))
    ensures Prios(t, Unlinked(t, s, e), t.nodes[e].rtRq) == Prios(t, s, t.nodes[e].rtRq) - {e}
    ensures BoostedMembers(t, Unlinked(t, s, e), t.nodes[e].rtRq) == BoostedMembers(t, s, t.nodes[e].rtRq) - {e}
  {
    hide Consistent, Removed;
    var s' := Unlinked(t, s, e);
    var q := t.nodes[e].rtRq;
    assert Members(t, s', q) == Members(t, s, q) - {e};
    forall x | x in Members(t, s, q) ensures t.nodes[x].myQ != Some(q) { NotOnOwnQueue(t, x); }
    assert Prios(t, s', q) == Prios(t, s, q) - {e};
    assert BoostedMembers(t, s', q) == BoostedMembers(t, s, q) - {e};
  }

  /** Unlinking keeps every run queue consistent when nothing above is linked. */
  lemma {:induction false} UnlinkKeepsQueues(t: Tree, s: State, e: nat)
    requires CanUnlink(t, s, e) && ParentOff(t, s, e)
    ensures QueuesOk(t, Unlinked(t, s, e))
  {
    hide Consistent, Removed;
    var s' := Unlinked(t, s, e);
    var q := t.nodes[e].rtRq;
    LinkedHasPrio(t, s, e);
    UnlinkMembers(t, s, e);
    NotOnOwnQueue(t, e);
    assert QueueOk(t, s, q);
    RemoveConsistent(s.rqs[q], Prios(t, s, q), BoostedMembers(t, s, q), e);
    forall x | 0 <= x < |s.rqs| && x != q ensures QueueOk(t, s', x) {
      assert QueueOk(t, s, x);
      OtherQueuesOk(t, s, s', q, x);
    }
  }

  ghost predicate CanLink(t: Tree, s: State, e: nat) {
    QueuesOk(t, s) && e < |t.nodes| && !s.ents[e].onRq && (t.nodes[e].myQ.Some? ==> Eligible(t, s, e))
  }

  /** An entity that is to be linked has a real priority. */
  lemma {:induction false} EligibleHasPrio(t: Tree, s: State, e: nat)
    requires CanLink(t, s, e)
    ensures Prio(t, s, e) < MAX_RT_PRIO
    ensures |s.rqs[t.nodes[e].rtRq].queue| == MAX_RT_PRIO && |s.rqs[t.nodes[e].rtRq].bitmap| == MAX_RT_PRIO + 1
  {
    assert QueueOk(t, s, t.nodes[e].rtRq);
    if t.nodes[e].myQ.Some? {
      var m := t.nodes[e].myQ.value;
      assert QueueOk(t, s, m);
      ConsistentCounts(s.rqs[m], Prios(t, s, m), BoostedMembers(t, s, m));
    }
  }

  lemma {:induction false} LeafMeansRunning(t: Tree, s: State, e: nat)
    requires QueuesOk(t, s) && e < |t.nodes|
    ensures t.nodes[e].rtRq < |s.rqs|
    ensures s.rqs[t.nodes[e].rtRq].onLeafList <==> s.rqs[t.nodes[e].rtRq].nrRunning > 0
  {
    assert QueueOk(t, s, t.nodes[e].rtRq);
  }

  ghost function Joined(t: Tree, s: State, e: nat, head: bool): State
    requires CanLink(t, s, e)
  {
    EligibleHasPrio(t, s, e);
    var q := t.nodes[e].rtRq;
    s.(rqs := s.rqs[q := Inserted(s.rqs[q], e, Prio(t, s, e), Boosted(t, s, e), head)],
       ents := s.ents[e := s.ents[e].(onRq := true)])
  }

  lemma {:induction false} LinkMembers(t: Tree, s: State, e: nat, head: bool)
    requires CanLink(t, s, e)
    ensures Fits(t, Joined(t, s, e, head))
    ensures Prios(t, Joined(t, s, e, head), t.nodes[e].rtRq) == Prios(t, s, t.nodes[e].rtRq)[e := Prio(t, s, e)]
    ensures BoostedMembers(t, Joined(t, s, e, head), t.nodes[e].rtRq)
         == BoostedMembers(t, s, t.nodes[e].rtRq) + if Boosted(t, s, e) then {e} else {}
  {
    hide Consistent, Inserted, Eligible;
    var s' := Joined(t, s, e, head);
    var q := t.nodes[e].rtRq;
    JoinedMembers(t, s, e, head);
    assert Prios(t, s', q) == Prios(t, s, q)[e := Prio(t, s, e)];
    assert BoostedMembers(t, s', q) == BoostedMembers(t, s, q) + if Boosted(t, s, e) then {e} else {};
  }

  lemma {:induction false} JoinedMembers(t: Tree, s: State, e: nat, head: bool)
    requires CanLink(t, s, e)
    ensures
      var s', q := Joined(t, s, e, head), t.nodes[e].rtRq;
      && Fits(t, s') && Members(t, s', q) == Members(t, s, q) + {e}
      && (forall x {:trigger x in Members(t, s', q)} :: x in Members(t, s', q) ==>
            Prio(t, s', x) == Prio(t, s, x) && Boosted(t, s', x) == Boosted(t, s, x))
  {
    hide Consistent, Inserted, Eligible;
    var s', q := Joined(t, s, e, head), t.nodes[e].rtRq;
    forall x | x in Members(t, s', q) ensures t.nodes[x].myQ != Some(q) { NotOnOwnQueue(t, x); }
  }

  lemma {:induction false} LinkKeepsQueues(t: Tree, s: State, e: nat, head: bool)
    requires CanLink(t, s, e) && ParentOff(t, s, e)
    ensures QueuesOk(t, Joined(t, s, e, head))
  {
    hide Consistent, Inserted, Eligible;
    var s' := Joined(t, s, e, head);
    var q := t.nodes[e].rtRq;
    EligibleHasPrio(t, s, e);
    LinkMembers(t, s, e, head);
    NotOnOwnQueue(t, e);
    assert QueueOk(t, s, q);
    assert e !in Prios(t, s, q);
    InsertConsistent(s.rqs[q], Prios(t, s, q), BoostedMembers(t, s, q), e, Prio(t, s, e), Boosted(t, s, e), head);
    assert BoostedMembers(t, s, q) + {} == BoostedMembers(t, s, q);
    assert QueueOk(t, s', q);
    forall x | 0 <= x < |s.rqs| && x != q ensures QueueOk(t, s', x) {
      assert QueueOk(t, s, x);
      OtherQueuesOk(t, s, s', q, x);
    }
  }

  // ------------------------------------------------------------------
  // Whole operations move the entities of one chain of ancestors
  // ------------------------------------------------------------------

  /** An entity and its ancestors, bottom up (for_each_sched_rt_entity). */
  ghost function Chain(t: Tree, e: nat): (c: seq<nat>)
    requires TreeOk(t) && e < |t.nodes|
    ensures |c| > 0 && c[0] == e && e in c
    ensures forall i :: 0 <= i < |c| ==> c[i] < |t.nodes|
    ensures forall i :: 0 <= i < |c| - 1 ==> t.nodes[c[i]].parent == Some(c[i + 1])
    ensures t.nodes[c[|c| - 1]].parent.None?
    ensures forall i, j :: 0 <= i < j < |c| ==> c[j] < c[i]
  {
    if t.nodes[e].parent.None? then [e]
    else
      var up := Chain(t, t.nodes[e].parent.value);
      PutBelow(e, up);
      [e] + up
  }

  lemma PutBelow(e: nat, up: seq<nat>)
    requires |up| > 0 && up[0] < e && forall i, j :: 0 <= i < j < |up| ==> up[j] < up[i]
    ensures var c := [e] + up; forall i, j :: 0 <= i < j < |c| ==> c[j] < c[i]
  {
    assert forall i :: 0 < i < |up| ==> up[i] < up[0];
  }

  /** The queues of a chain are different queues, and the chain owns all of them but the root. */
  lemma {:induction false} ChainQueues(t: Tree, e: nat, i: nat, j: nat)
    requires TreeOk(t) && e < |t.nodes| && i < j < |Chain(t, e)|
    ensures t.nodes[Chain(t, e)[i]].rtRq != t.nodes[Chain(t, e)[j]].rtRq
  {
    var c := Chain(t, e);
    assert t.nodes[c[i]].parent == Some(c[i + 1]);
    if j + 1 < |c| {
      assert t.nodes[c[j]].parent == Some(c[j + 1]) && c[j + 1] < c[i + 1];
    }
  }

  /** The entity that owns a queue of the chain is in the chain, above. */
  lemma {:induction false} ChainOwners(t: Tree, e: nat, i: nat, g: nat)
    requires TreeOk(t) && e < |t.nodes| && i < |Chain(t, e)| && g < |t.nodes|
    requires t.nodes[g].myQ == Some(t.nodes[Chain(t, e)[i]].rtRq)
    ensures i + 1 < |Chain(t, e)| && Chain(t, e)[i + 1] == g
  {
    var c := Chain(t, e);
    NotOnOwnQueue(t, c[i]);
    assert t.nodes[c[i]].parent == Some(g);
  }

  ghost predicate Inside(t: Tree, c: seq<nat>) {
    forall i :: 0 <= i < |c| ==> c[i] < |t.nodes|
  }

  ghost function QueuesOf(t: Tree, c: seq<nat>): set<nat>
    requires Inside(t, c)
  {
    set i | 0 <= i < |c| :: t.nodes[c[i]].rtRq
  }

  /** s differs from s0 only in where the entities of chain c are linked: no priority and no
      throttle flag changed, no other entity was linked, unlinked or moved relative to others. */
  ghost predicate OnlyMoved(t: Tree, s0: State, s: State, c: seq<nat>)
    requires Inside(t, c)
  {
    OnlyLinks(s0.ents, s.ents, c) && OnlyQueues(t, s0.rqs, s.rqs, c)
  }

  ghost predicate OnlyLinks(ents0: seq<Entity>, ents: seq<Entity>, c: seq<nat>) {
    && |ents| == |ents0|
    && (forall e :: 0 <= e < |ents| ==> ents[e] == ents0[e].(onRq := ents[e].onRq))
    && (forall e :: 0 <= e < |ents| && e !in c ==> ents[e].onRq == ents0[e].onRq)
  }

  ghost predicate OnlyQueues(t: Tree, rqs0: seq<Rq<nat>>, rqs: seq<Rq<nat>>, c: seq<nat>)
    requires Inside(t, c)
  {
    && |rqs| == |rqs0|
    && (forall q :: 0 <= q < |rqs| ==> rqs[q].throttled == rqs0[q].throttled)
    && (forall q :: 0 <= q < |rqs| && q !in QueuesOf(t, c) ==> rqs[q] == rqs0[q])
    && (forall i :: 0 <= i < |c| && t.nodes[c[i]].rtRq < |rqs| ==>
          SameOthers(rqs0[t.nodes[c[i]].rtRq], rqs[t.nodes[c[i]].rtRq], c[i]))
  }

  /** The lists of two queues agree but for the place of e. */
  ghost predicate SameOthers(q0: Rq<nat>, q: Rq<nat>, e: nat) {
    && |q0.queue| == |q.queue|
    && forall p :: 0 <= p < |q.queue| ==> Without(q.queue[p], e) == Without(q0.queue[p], e)
  }

  /** A group outside the chain stays linked as it should be. */
  lemma {:induction false} OutsideStaysLinked(t: Tree, s0: State, s: State, e: nat, g: nat)
    requires Fits(t, s0) && Fits(t, s) && e < |t.nodes| && OnlyMoved(t, s0, s, Chain(t, e))
    requires g < |t.nodes| && g !in Chain(t, e) && Linked(t, s0, g)
    ensures Linked(t, s, g)
  {
    if t.nodes[g].myQ.Some? {
      var q := t.nodes[g].myQ.value;
      forall i | 0 <= i < |Chain(t, e)| ensures t.nodes[Chain(t, e)[i]].rtRq != q {
        if t.nodes[Chain(t, e)[i]].rtRq == q { ChainOwners(t, e, i, g); }
      }
      assert q !in QueuesOf(t, Chain(t, e));
    }
  }

  ghost predicate DistinctQueues(t: Tree, c: seq<nat>)
    requires Inside(t, c)
  {
    forall i, j :: 0 <= i < j < |c| ==> t.nodes[c[i]].rtRq != t.nodes[c[j]].rtRq
  }

  lemma {:induction false} MovedNowhere(t: Tree, s: State, except: set<nat>, e: nat)
    requires Inv(t, s, except) && e < |t.nodes|
    ensures OnlyMoved(t, s, s, Chain(t, e))
  {
  }

  /** A step that relinks entity k of the chain on its own queue is such a move. */
  lemma {:induction false} StepOnlyQueues(t: Tree, rqs0: seq<Rq<nat>>, rqs: seq<Rq<nat>>, c: seq<nat>, k: nat,
          r: Rq<nat>)
    requires Inside(t, c) && DistinctQueues(t, c) && k < |c| && t.nodes[c[k]].rtRq < |rqs|
    requires OnlyQueues(t, rqs0, rqs, c)
    requires r.throttled == rqs[t.nodes[c[k]].rtRq].throttled
    requires SameOthers(rqs[t.nodes[c[k]].rtRq], r, c[k])
    ensures OnlyQueues(t, rqs0, rqs[t.nodes[c[k]].rtRq := r], c)
  {
    var x := t.nodes[c[k]].rtRq;
    assert x in QueuesOf(t, c);
    assert SameOthers(rqs0[x], rqs[x], c[k]);
    forall i | 0 <= i < |c| && t.nodes[c[i]].rtRq < |rqs|
      ensures SameOthers(rqs0[t.nodes[c[i]].rtRq], rqs[x := r][t.nodes[c[i]].rtRq], c[i])
    {
      assert i != k ==> t.nodes[c[i]].rtRq != x;
    }
  }

  lemma {:induction false} StepOnlyLinks(ents0: seq<Entity>, ents: seq<Entity>, c: seq<nat>, k: nat, on: bool)
    requires OnlyLinks(ents0, ents, c) && k < |c| && c[k] < |ents|
    ensures OnlyLinks(ents0, ents[c[k] := ents[c[k]].(onRq := on)], c)
  {
  }

  lemma {:induction false} RemovedSameOthers(q: Rq<nat>, e: nat, p: nat, boosted: bool)
    requires p < |q.queue| && |q.queue| < |q.bitmap| && q.nrRunning > 0
    ensures SameOthers(q, Removed(q, e, p, boosted), e)
    ensures Removed(q, e, p, boosted).throttled == q.throttled
  {
    WithoutMembers(q.queue[p], e);
    WithoutMembers(Without(q.queue[p], e), e);
  }

  lemma {:induction false} InsertedSameOthers(q: Rq<nat>, e: nat, p: nat, boosted: bool, head: bool)
    requires p < |q.queue| && |q.queue| < |q.bitmap|
    ensures SameOthers(q, Inserted(q, e, p, boosted, head), e)
    ensures Inserted(q, e, p, boosted, head).throttled == q.throttled
  {
    WithoutConcat([e], q.queue[p], e);
    WithoutConcat(q.queue[p], [e], e);
  }

  // ------------------------------------------------------------------
  // dequeue_rt_stack unlinks the chain top down; the callers relink it bottom up
  // ------------------------------------------------------------------

  /** Everything of the chain from position k up is unlinked. */
  ghost predicate UnlinkedFrom(t: Tree, s0: State, s: State, e: nat, k: nat)
  {
    && Fits(t, s0) && QueuesOk(t, s) && e < |t.nodes|
    && OnlyMoved(t, s0, s, Chain(t, e))
    && forall j :: k <= j < |Chain(t, e)| ==> !s.ents[Chain(t, e)[j]].onRq
  }

  lemma {:induction false} ChainDistinct(t: Tree, e: nat)
    requires TreeOk(t) && e < |t.nodes|
    ensures DistinctQueues(t, Chain(t, e))
  {
    forall i, j | 0 <= i < j < |Chain(t, e)|
      ensures t.nodes[Chain(t, e)[i]].rtRq != t.nodes[Chain(t, e)[j]].rtRq
    {
      ChainQueues(t, e, i, j);
    }
  }

  lemma {:induction false} UnlinkNext(t: Tree, s0: State, s: State, e: nat, k: nat)
    requires UnlinkedFrom(t, s0, s, e, k + 1) && k < |Chain(t, e)|
    ensures ParentOff(t, s, Chain(t, e)[k])
    ensures s.ents[Chain(t, e)[k]].onRq ==>
      CanUnlink(t, s, Chain(t, e)[k]) && UnlinkedFrom(t, s0, Unlinked(t, s, Chain(t, e)[k]), e, k)
    ensures !s.ents[Chain(t, e)[k]].onRq ==> UnlinkedFrom(t, s0, s, e, k)
  {
    hide Removed, SameOthers, QueueOk, OnlyQueues, OnlyLinks, DistinctQueues, Prio, Boosted;
    var c := Chain(t, e);
    var x := c[k];
    assert ParentOff(t, s, x) by {
      if k + 1 < |c| { assert t.nodes[x].parent == Some(c[k + 1]); }
    }
    if s.ents[x].onRq {
      LinkedHasPrio(t, s, x);
      UnlinkKeepsQueues(t, s, x);
      ChainDistinct(t, e);
      RemovedSameOthers(s.rqs[t.nodes[x].rtRq], x, Prio(t, s, x), Boosted(t, s, x));
      StepOnlyQueues(t, s0.rqs, s.rqs, c, k, Unlinked(t, s, x).rqs[t.nodes[x].rtRq]);
      StepOnlyLinks(s0.ents, s.ents, c, k, false);
      assert forall j :: k < j < |c| ==> c[j] != x;
    }
  }

  /** If e is queued, it is at the head, or at the tail, of the list of its priority. */
  ghost predicate AtEnd(t: Tree, s: State, e: nat, head: bool)
    requires Fits(t, s) && e < |t.nodes|
  {
    s.ents[e].onRq ==>
      var q := s.rqs[t.nodes[e].rtRq].queue;
      var p := Prio(t, s, e);
      p < |q| && q[p] == if head then [e] + Without(q[p], e) else Without(q[p], e) + [e]
  }

  /** The chain is linked as it should be below position k and not at all from k up. */
  ghost predicate LinkedTo(t: Tree, s0: State, s: State, e: nat, k: nat, head: bool) {
    && UnlinkedFrom(t, s0, s, e, k)
    && forall j :: 0 <= j < k && j < |Chain(t, e)| ==>
         Linked(t, s, Chain(t, e)[j]) && AtEnd(t, s, Chain(t, e)[j], head)
  }

  lemma UnlinkStart(t: Tree, s: State, e: nat)
    requires QueuesOk(t, s) && e < |t.nodes|
    ensures UnlinkedFrom(t, s, s, e, |Chain(t, e)|)
  {
  }

  lemma LinkStart(t: Tree, s0: State, s: State, e: nat, head: bool)
    requires UnlinkedFrom(t, s0, s, e, 0)
    ensures LinkedTo(t, s0, s, e, 0, head)
  {
  }

  lemma LinkedHere(t: Tree, s0: State, s: State, e: nat, k: nat, head: bool)
    requires LinkedTo(t, s0, s, e, k, head) && k < |Chain(t, e)|
    ensures QueuesOk(t, s) && Fits(t, s) && Chain(t, e)[k] < |t.nodes| && !s.ents[Chain(t, e)[k]].onRq
    ensures t.nodes[Chain(t, e)[k]].myQ.Some? ==> t.nodes[Chain(t, e)[k]].myQ.value < |s.rqs|
  {
  }

  /** A group's place depends only on the queue it owns. */
  lemma {:induction false} LinkedLocally(t: Tree, s: State, s': State, g: nat)
    requires Fits(t, s) && Fits(t, s') && g < |t.nodes| && Linked(t, s, g)
    requires s'.ents[g].onRq == s.ents[g].onRq
    requires t.nodes[g].myQ.Some? ==> s'.rqs[t.nodes[g].myQ.value] == s.rqs[t.nodes[g].myQ.value]
    ensures Linked(t, s', g)
  {
  }

  lemma {:induction false} AtEndLocally(t: Tree, s: State, s': State, e: nat, head: bool)
    requires Fits(t, s) && Fits(t, s') && e < |t.nodes| && AtEnd(t, s, e, head)
    requires s'.ents[e] == s.ents[e] && s'.rqs[t.nodes[e].rtRq] == s.rqs[t.nodes[e].rtRq]
    requires t.nodes[e].myQ.Some? ==> s'.rqs[t.nodes[e].myQ.value] == s.rqs[t.nodes[e].myQ.value]
    ensures AtEnd(t, s', e, head)
  {
  }

  /** A newly linked entity is at the end it was put. */
  lemma {:induction false} JoinedAtEnd(t: Tree, s: State, e: nat, head: bool)
    requires CanLink(t, s, e)
    ensures Fits(t, Joined(t, s, e, head)) && AtEnd(t, Joined(t, s, e, head), e, head)
  {
    hide Eligible;
    var q := t.nodes[e].rtRq;
    EligibleHasPrio(t, s, e);
    NotOnOwnQueue(t, e);
    var list := s.rqs[q].queue[Prio(t, s, e)];
    assert e !in list by {
      assert QueueOk(t, s, q);
      assert e !in Prios(t, s, q);
    }
    PutAtEnd(list, e);
    assert Prio(t, Joined(t, s, e, head), e) == Prio(t, s, e);
  }

  lemma {:induction false} PutAtEnd(list: seq<nat>, e: nat)
    requires e !in list
    ensures Without([e] + list, e) == list == Without(list + [e], e)
  {
    WithoutConcat([e], list, e);
    WithoutConcat(list, [e], e);
    WithoutMembers(list, e);
  }

  lemma {:induction false} LinkMoves(t: Tree, s0: State, s: State, c: seq<nat>, k: nat, head: bool)
    requires Inside(t, c) && DistinctQueues(t, c) && k < |c| && CanLink(t, s, c[k]) && OnlyMoved(t, s0, s, c)
    ensures OnlyMoved(t, s0, Joined(t, s, c[k], head), c)
  {
    hide Inserted, SameOthers, QueueOk, OnlyQueues, OnlyLinks, DistinctQueues, Prio, Boosted, Eligible;
    var x := c[k];
    EligibleHasPrio(t, s, x);
    InsertedSameOthers(s.rqs[t.nodes[x].rtRq], x, Prio(t, s, x), Boosted(t, s, x), head);
    StepOnlyQueues(t, s0.rqs, s.rqs, c, k, Joined(t, s, x, head).rqs[t.nodes[x].rtRq]);
    StepOnlyLinks(s0.ents, s.ents, c, k, true);
  }

  lemma {:induction false} LinkStep(t: Tree, s0: State, s: State, e: nat, k: nat, head: bool)
    requires UnlinkedFrom(t, s0, s, e, k) && k < |Chain(t, e)|
    requires t.nodes[Chain(t, e)[k]].myQ.Some? ==> Eligible(t, s, Chain(t, e)[k])
    ensures CanLink(t, s, Chain(t, e)[k])
    ensures UnlinkedFrom(t, s0, Joined(t, s, Chain(t, e)[k], head), e, k + 1)
  {
    hide Inserted, QueueOk, OnlyMoved, DistinctQueues, Prio, Boosted, Eligible, Chain;
    var c := Chain(t, e);
    var x := c[k];
    assert ParentOff(t, s, x) by {
      if k + 1 < |c| { assert t.nodes[x].parent == Some(c[k + 1]); }
    }
    LinkKeepsQueues(t, s, x, head);
    ChainDistinct(t, e);
    LinkMoves(t, s0, s, c, k, head);
  }

  /** Linking position k leaves the positions below it as they were. */
  lemma {:induction false} LinkNext(t: Tree, s0: State, s: State, e: nat, k: nat, head: bool)
    requires LinkedTo(t, s0, s, e, k, head) && k < |Chain(t, e)|
    requires t.nodes[Chain(t, e)[k]].myQ.Some? ==> Eligible(t, s, Chain(t, e)[k])
    ensures CanLink(t, s, Chain(t, e)[k])
    ensures LinkedTo(t, s0, Joined(t, s, Chain(t, e)[k], head), e, k + 1, head)
  {
    hide Inserted, QueueOk, OnlyMoved, Prio, Boosted, Chain, AtEnd, Linked, Eligible;
    var c := Chain(t, e);
    LinkStep(t, s0, s, e, k, head);
    var s' := Joined(t, s, c[k], head);
    JoinedAtEnd(t, s, c[k], head);
    JoinedLinked(t, s, c[k], head);
    forall j | 0 <= j <= k ensures Linked(t, s', c[j]) && AtEnd(t, s', c[j], head) {
      if j < k {
        StaysBelow(t, s, e, j, k, head);
      }
    }
  }

  lemma {:induction false} JoinedLinked(t: Tree, s: State, e: nat, head: bool)
    requires CanLink(t, s, e) && Fits(t, Joined(t, s, e, head))
    ensures Linked(t, Joined(t, s, e, head), e)
  {
    hide Inserted, QueueOk, Prio, Boosted;
    NotOnOwnQueue(t, e);
  }

  /** What is linked below stays so. */
  lemma {:induction false} StaysBelow(t: Tree, s: State, e: nat, j: nat, k: nat, head: bool)
    requires TreeOk(t) && e < |t.nodes| && j < k < |Chain(t, e)| && CanLink(t, s, Chain(t, e)[k])
    requires Fits(t, Joined(t, s, Chain(t, e)[k], head))
    requires Linked(t, s, Chain(t, e)[j]) && AtEnd(t, s, Chain(t, e)[j], head)
    ensures Linked(t, Joined(t, s, Chain(t, e)[k], head), Chain(t, e)[j])
    ensures AtEnd(t, Joined(t, s, Chain(t, e)[k], head), Chain(t, e)[j], head)
  {
    hide Inserted, QueueOk, Prio, Boosted, Chain, AtEnd, Linked, Eligible;
    var c := Chain(t, e);
    var s' := Joined(t, s, c[k], head);
    assert c[j] != c[k] && t.nodes[c[j]].myQ != Some(t.nodes[c[k]].rtRq);
    ChainQueues(t, e, j, k);
    LinkedLocally(t, s, s', c[j]);
    AtEndLocally(t, s, s', c[j], head);
  }

  /** Skipping position k, because there is nothing to run below it, is right too. */
  lemma {:induction false} SkipNext(t: Tree, s0: State, s: State, e: nat, k: nat, head: bool)
    requires LinkedTo(t, s0, s, e, k, head) && k < |Chain(t, e)|
    requires t.nodes[Chain(t, e)[k]].myQ.Some? ==> !Eligible(t, s, Chain(t, e)[k])
    ensures LinkedTo(t, s0, s, e, k + 1, head)
  {
    hide QueuesOk, OnlyMoved, Chain, AtEnd, Eligible;
    LinkedHere(t, s0, s, e, k, head);
    NotQueued(t, s, Chain(t, e)[k], head);
  }

  lemma NotQueued(t: Tree, s: State, e: nat, head: bool)
    requires Fits(t, s) && e < |t.nodes| && !s.ents[e].onRq
    ensures AtEnd(t, s, e, head)
    ensures (t.nodes[e].myQ.Some? ==> !Eligible(t, s, e)) ==> Linked(t, s, e)
  {
  }

  /** After the whole chain is linked the hierarchy is in order everywhere. */
  lemma {:induction false} ChainLinked(t: Tree, s0: State, s: State, e: nat, head: bool)
    requires Inv(t, s0, {e}) && e < |t.nodes| && LinkedTo(t, s0, s, e, |Chain(t, e)|, head)
    ensures Inv(t, s, {})
    ensures OnlyMoved(t, s0, s, Chain(t, e))
    ensures forall x :: x in Chain(t, e) ==> AtEnd(t, s, x, head)
  {
    forall g | 0 <= g < |t.nodes| ensures Linked(t, s, g) {
      if g in Chain(t, e) {
        var j :| 0 <= j < |Chain(t, e)| && Chain(t, e)[j] == g;
      } else {
        OutsideStaysLinked(t, s0, s, e, g);
      }
    }
  }

  // ------------------------------------------------------------------
  // _pick_next_task_rt
  // ------------------------------------------------------------------

  /** No queue that e or one of its ancestors is queued on is throttled. */
  ghost predicate OpenChain(t: Tree, s: State, e: nat)
    requires Fits(t, s) && e < |t.nodes|
  {
    forall i :: 0 <= i < |Chain(t, e)| ==> !Throttled(s.rqs[t.nodes[Chain(t, e)[i]].rtRq])
  }

  /** A queued task none of whose ancestors' queues is throttled. */
  ghost predicate Runnable(t: Tree, s: State, x: nat)
    requires Fits(t, s) && x < |t.nodes|
  {
    t.nodes[x].myQ.None? && s.ents[x].onRq && OpenChain(t, s, x)
  }

  /** The first entity of the best busy list: it is queued there with the queue's priority. */
  lemma {:induction false} FirstEntity(t: Tree, s: State, q: nat)
    requires Inv(t, s, {}) && q < |s.rqs| && s.rqs[q].nrRunning > 0
    ensures |s.rqs[q].bitmap| == MAX_RT_PRIO + 1 && |s.rqs[q].queue| == MAX_RT_PRIO
    ensures var p := FindFirstBit(s.rqs[q].bitmap, 0);
      && p < MAX_RT_PRIO && p == s.rqs[q].highestPrio && s.rqs[q].queue[p] != []
      && var e := s.rqs[q].queue[p][0];
      && e < |t.nodes| && t.nodes[e].rtRq == q && s.ents[e].onRq && Prio(t, s, e) == p
      && (t.nodes[e].myQ.Some? ==> Eligible(t, s, e))
  {
    hide Linked;
    assert QueueOk(t, s, q);
    ConsistentCounts(s.rqs[q], Prios(t, s, q), BoostedMembers(t, s, q));
    var p := s.rqs[q].highestPrio;
    var e := s.rqs[q].queue[p][0];
    assert e in s.rqs[q].queue[p];
    assert e in Prios(t, s, q) && Prios(t, s, q)[e] == p;
    assert Linked(t, s, e);
    LinkedEligible(t, s, e);
  }

  lemma LinkedEligible(t: Tree, s: State, e: nat)
    requires Fits(t, s) && e < |t.nodes| && Linked(t, s, e)
    ensures t.nodes[e].myQ.Some? ==> (s.ents[e].onRq <==> Eligible(t, s, e))
  {
  }

  /** A linked entity is no better than its queue. */
  lemma {:induction false} QueueBound(t: Tree, s: State, e: nat)
    requires QueuesOk(t, s) && e < |t.nodes| && s.ents[e].onRq
    ensures s.rqs[t.nodes[e].rtRq].highestPrio <= Prio(t, s, e) && s.rqs[t.nodes[e].rtRq].nrRunning > 0
  {
    var q := t.nodes[e].rtRq;
    assert QueueOk(t, s, q);
    assert e in Prios(t, s, q) && Prios(t, s, q)[e] == Prio(t, s, e);
    ConsistentCounts(s.rqs[q], Prios(t, s, q), BoostedMembers(t, s, q));
  }

  /** The root's best priority is at least as good as that of any entity below which no queue is throttled. */
  lemma {:induction false} RootBound(t: Tree, s: State, e: nat)
    requires Inv(t, s, {}) && e < |t.nodes| && s.ents[e].onRq
    requires OpenChain(t, s, e)
    ensures s.rqs[0].highestPrio <= Prio(t, s, e) && s.rqs[0].nrRunning > 0
    decreases e
  {
    hide QueueOk, Throttled, Linked;
    QueueBound(t, s, e);
    assert !Throttled(s.rqs[t.nodes[Chain(t, e)[0]].rtRq]);
    if t.nodes[e].parent.Some? {
      var g := t.nodes[e].parent.value;
      var c := Chain(t, e);
      assert c == [e] + Chain(t, g);
      forall i | 0 <= i < |Chain(t, g)| ensures !Throttled(s.rqs[t.nodes[Chain(t, g)[i]].rtRq]) {
        assert c[i + 1] == Chain(t, g)[i];
      }
      assert Linked(t, s, g);
      LinkedEligible(t, s, g);
      RootBound(t, s, g);
    } else {
      assert t.nodes[e].rtRq == 0;
    }
  }

  lemma {:induction false} RunnableBound(t: Tree, s: State, x: nat)
    requires Inv(t, s, {}) && x < |t.nodes| && Runnable(t, s, x)
    ensures !Throttled(s.rqs[0]) && s.rqs[0].nrRunning > 0 && s.rqs[0].highestPrio <= s.ents[x].prio
  {
    hide QueueOk, Throttled, Linked;
    RootBound(t, s, x);
    var c := Chain(t, x);
    assert t.nodes[c[|c| - 1]].rtRq == 0;
  }

  /** Neither queue q nor any queue above it is throttled. */
  ghost predicate OpenTo(t: Tree, s: State, q: nat) {
    && Fits(t, s) && q < |s.rqs| && !Throttled(s.rqs[q])
    && (q > 0 ==> t.owner[q] < |t.nodes| && OpenChain(t, s, t.owner[q]))
  }

  lemma {:induction false} OpenChainStep(t: Tree, s: State, q: nat, e: nat)
    requires OpenTo(t, s, q) && e < |t.nodes| && t.nodes[e].rtRq == q
    ensures OpenChain(t, s, e)
  {
    hide Throttled;
    assert t.nodes[e].parent.None? <==> q == 0;
    var c := Chain(t, e);
    if q > 0 {
      assert t.nodes[e].parent == Some(t.owner[q]) by {
        assert t.nodes[t.nodes[e].parent.value].myQ == Some(q);
      }
      var up := Chain(t, t.owner[q]);
      assert c == [e] + up;
      forall i | 0 <= i < |c| ensures !Throttled(s.rqs[t.nodes[c[i]].rtRq]) {
        if i > 0 { assert c[i] == up[i - 1]; }
      }
    } else {
      assert c == [e];
    }
  }

  lemma InvFits(t: Tree, s: State)
    requires Inv(t, s, {})
    ensures Fits(t, s) && |s.rqs| > 0
  {
  }

  lemma OpenRoot(t: Tree, s: State)
    requires Inv(t, s, {}) && !Throttled(s.rqs[0])
    ensures OpenTo(t, s, 0)
  {
  }

  /** Measure of the descent: the entities picked have ever higher numbers. */
  ghost function Depth(t: Tree, q: nat): nat {
    if 0 < q < |t.owner| then t.owner[q] + 1 else 0
  }

  ghost predicate OpenBelow(t: Tree, s: State, q: nat, m: nat) {
    m < |s.rqs| && s.rqs[m].nrRunning > 0 && OpenTo(t, s, m) && Depth(t, q) < Depth(t, m) <= |t.nodes|
  }

  /** Descending from an open queue to the entity first in line stays open; a task found there is runnable. */
  lemma {:induction false} OpenStep(t: Tree, s: State, q: nat, e: nat)
    requires Inv(t, s, {}) && OpenTo(t, s, q) && e < |t.nodes| && t.nodes[e].rtRq == q && s.ents[e].onRq
    requires t.nodes[e].myQ.Some? ==> Eligible(t, s, e)
    ensures t.nodes[e].myQ.None? ==> Runnable(t, s, e)
    ensures t.nodes[e].myQ.Some? ==> OpenBelow(t, s, q, t.nodes[e].myQ.value)
  {
    hide QueueOk, Throttled, Linked, OpenChain, Eligible;
    OpenChainStep(t, s, q, e);
    if t.nodes[e].myQ.Some? {
      EligibleOpen(t, s, e);
      assert t.owner[t.nodes[e].myQ.value] == e;
    }
  }

  lemma EligibleOpen(t: Tree, s: State, e: nat)
    requires e < |t.nodes| && t.nodes[e].myQ.Some? && t.nodes[e].myQ.value < |s.rqs| && Eligible(t, s, e)
    ensures s.rqs[t.nodes[e].myQ.value].nrRunning > 0 && !Throttled(s.rqs[t.nodes[e].myQ.value])
  {
  }

  /** Such a move leaves every task but p where it was; the ancestors of p are groups. */
  lemma {:induction false} OnlyTaskMoved(t: Tree, s0: State, s: State, p: nat, e: nat)
    requires Fits(t, s0) && p < |t.nodes| && OnlyMoved(t, s0, s, Chain(t, p)) && e < |t.nodes| == |s0.ents|
    ensures s.ents[e].prio == s0.ents[e].prio && s.ents[e].normalPrio == s0.ents[e].normalPrio
    ensures e != p && t.nodes[e].myQ.None? ==> s.ents[e].onRq == s0.ents[e].onRq
  {
    hide OnlyQueues;
    if e != p && e in Chain(t, p) {
      var i :| 0 <= i < |Chain(t, p)| && Chain(t, p)[i] == e;
      assert t.nodes[Chain(t, p)[i - 1]].parent == Some(e);
    }
  }

  // ------------------------------------------------------------------
  // Changes made while an entity is off its queue
  // ------------------------------------------------------------------

  /** An unlinked task may change its priorities. */
  lemma {:induction false} PrioChangeKeeps(t: Tree, s: State, p: nat, prio: nat, normal: nat)
    requires Inv(t, s, {}) && p < |t.nodes| && t.nodes[p].myQ.None? && !s.ents[p].onRq && prio < MAX_RT_PRIO
    ensures Inv(t, s.(ents := s.ents[p := Entity(prio, normal, false)]), {})
  {
    hide Consistent, Linked;
    var s' := s.(ents := s.ents[p := Entity(prio, normal, false)]);
    forall q | 0 <= q < |s.rqs| ensures QueueOk(t, s', q) {
      assert QueueOk(t, s, q);
      assert Members(t, s', q) == Members(t, s, q);
      assert Prios(t, s', q) == Prios(t, s, q);
      assert BoostedMembers(t, s', q) == BoostedMembers(t, s, q);
    }
    forall e | 0 <= e < |t.nodes| ensures Linked(t, s', e) {
      assert Linked(t, s, e);
      LinkedLocally(t, s, s', e);
    }
  }

  /** The entity whose place a change of q's throttle flag may upset. */
  function OwnerOf(t: Tree, q: nat): set<nat>
    requires q < |t.owner|
  {
    if q == 0 then {} else {t.owner[q]}
  }

  /** Only the throttle flag of queue q is written. */
  function Flagged(s: State, q: nat, flag: bool): State
    requires q < |s.rqs|
  {
    s.(rqs := s.rqs[q := s.rqs[q].(throttled := flag)])
  }

  lemma {:induction false} FlagQueue(t: Tree, s: State, q: nat, flag: bool, x: nat)
    requires Fits(t, s) && q < |s.rqs| && x < |s.rqs| && QueueOk(t, s, x)
    ensures QueueOk(t, Flagged(s, q, flag), x)
  {
    hide FindFirstBit, Placed, ArrayOk;
    var s' := Flagged(s, q, flag);
    assert Members(t, s', x) == Members(t, s, x);
    assert Prios(t, s', x) == Prios(t, s, x);
    assert BoostedMembers(t, s', x) == BoostedMembers(t, s, x);
  }

  /** Setting or clearing a throttle flag can only put the owner of that queue out of place. */
  lemma {:induction false} ThrottleFlag(t: Tree, s: State, q: nat, flag: bool)
    requires q < |s.rqs| && q < |t.owner| && Inv(t, s, OwnerOf(t, q))
    ensures Inv(t, Flagged(s, q, flag), OwnerOf(t, q))
  {
    hide FindFirstBit, Placed, ArrayOk, Linked;
    var s' := Flagged(s, q, flag);
    forall x | 0 <= x < |s.rqs| ensures QueueOk(t, s', x) {
      FlagQueue(t, s, q, flag, x);
    }
    forall e | 0 <= e < |t.nodes| && e !in OwnerOf(t, q) ensures Linked(t, s', e) {
      assert Linked(t, s, e);
      LinkedLocally(t, s, s', e);
    }
  }

  /** Throttling a boosted queue changes nothing else. */
  lemma {:induction false} BoostedStaysLinked(t: Tree, s: State, q: nat)
    requires q < |s.rqs| && q < |t.owner| && Inv(t, s, {}) && s.rqs[q].nrBoosted != 0
    ensures Inv(t, Flagged(s, q, true), {})
  {
    hide Consistent;
    var s' := Flagged(s, q, true);
    ThrottleFlag(t, s, q, true);
    forall e | 0 <= e < |t.nodes| ensures Linked(t, s', e) {
      assert Linked(t, s, e);
    }
  }

  /** A throttle flag set or cleared, followed by a move of the owner's chain: no task is touched. */
  lemma {:induction false} FlagMove(t: Tree, s0: State, s: State, s': State, q: nat, flag: bool)
    requires Inv(t, s0, {}) && q < |s0.rqs| && s == Flagged(s0, q, flag)
    requires (q == 0 ==> s' == s) && (q > 0 ==> OnlyMoved(t, s, s', Chain(t, t.owner[q])))
    ensures |s'.rqs| == |s0.rqs| && |s'.ents| == |s0.ents|
    ensures forall x :: 0 <= x < |s0.rqs| ==> s'.rqs[x].throttled == if x == q then flag else s0.rqs[x].throttled
    ensures forall e :: 0 <= e < |t.nodes| && t.nodes[e].myQ.None? ==> s'.ents[e] == s0.ents[e]
  {
    if q > 0 {
      forall e | 0 <= e < |t.nodes| && t.nodes[e].myQ.None? ensures s'.ents[e] == s0.ents[e] {
        assert t.nodes[t.owner[q]].myQ == Some(q);
        OnlyTaskMoved(t, s, s', t.owner[q], e);
      }
    }
  }

  /** Clearing a throttle flag, as __enable_runtime does, never leaves the owner linked wrongly:
      at worst it is not linked yet. */
  lemma {:induction false} UnthrottleOwner(t: Tree, s: State, q: nat)
    requires 0 < q < |s.rqs| && q < |t.owner| && Inv(t, s, {}) && s.ents[t.owner[q]].onRq
    ensures Eligible(t, Flagged(s, q, false), t.owner[q]) && s.rqs[q].nrRunning > 0
  {
    assert Linked(t, s, t.owner[q]);
  }

  // ------------------------------------------------------------------
  // requeue_task_rt: yield and the round-robin tick
  // ------------------------------------------------------------------

  ghost function MovedToEnd(t: Tree, s: State, e: nat, head: bool): State
    requires CanUnlink(t, s, e)
  {
    LinkedHasPrio(t, s, e);
    var q := t.nodes[e].rtRq;
    s.(rqs := s.rqs[q := Requeued(s.rqs[q], e, Prio(t, s, e), head)])
  }

  /** Moving a queued entity to an end of its list upsets nothing. */
  lemma {:induction false} MoveKeeps(t: Tree, s: State, e: nat, head: bool)
    requires Inv(t, s, {}) && e < |t.nodes| && s.ents[e].onRq
    ensures Inv(t, MovedToEnd(t, s, e, head), {})
  {
    hide Consistent, Requeued, Linked;
    var s' := MovedToEnd(t, s, e, head);
    var q := t.nodes[e].rtRq;
    LinkedHasPrio(t, s, e);
    forall x | 0 <= x < |s.rqs| ensures QueueOk(t, s', x) {
      assert QueueOk(t, s, x);
      SamePrios(t, s, e, head, x);
      if x == q {
        assert e in Prios(t, s, q);
        RequeueConsistent(s.rqs[q], Prios(t, s, q), BoostedMembers(t, s, q), e, head);
      }
    }
    forall g | 0 <= g < |t.nodes| ensures Linked(t, s', g) {
      assert Linked(t, s, g);
      SameLink(t, s, e, head, g);
    }
  }

  lemma {:induction false} SamePrios(t: Tree, s: State, e: nat, head: bool, x: nat)
    requires CanUnlink(t, s, e) && x < |s.rqs|
    ensures Fits(t, MovedToEnd(t, s, e, head))
    ensures Prios(t, MovedToEnd(t, s, e, head), x) == Prios(t, s, x)
    ensures BoostedMembers(t, MovedToEnd(t, s, e, head), x) == BoostedMembers(t, s, x)
  {
    hide Consistent;
    LinkedHasPrio(t, s, e);
    assert Members(t, MovedToEnd(t, s, e, head), x) == Members(t, s, x);
  }

  lemma SameLink(t: Tree, s: State, e: nat, head: bool, g: nat)
    requires CanUnlink(t, s, e) && g < |t.nodes| && Linked(t, s, g)
    ensures Fits(t, MovedToEnd(t, s, e, head)) && Linked(t, MovedToEnd(t, s, e, head), g)
  {
    hide Consistent;
    LinkedHasPrio(t, s, e);
  }

  /** The chain below position k has been moved to the end. */
  ghost predicate RequeuedTo(t: Tree, s0: State, s: State, e: nat, k: nat, head: bool) {
    && Inv(t, s, {}) && e < |t.nodes| && s.ents == s0.ents && OnlyMoved(t, s0, s, Chain(t, e))
    && forall j :: 0 <= j < k && j < |Chain(t, e)| ==> AtEnd(t, s, Chain(t, e)[j], head)
  }

  lemma RequeueStart(t: Tree, s: State, e: nat, head: bool)
    requires Inv(t, s, {}) && e < |t.nodes|
    ensures TreeOk(t) && RequeuedTo(t, s, s, e, 0, head)
  {
    MovedNowhere(t, s, {}, e);
  }

  lemma {:induction false} RequeueNext(t: Tree, s0: State, s: State, e: nat, k: nat, head: bool)
    requires RequeuedTo(t, s0, s, e, k, head) && k < |Chain(t, e)|
    ensures !s.ents[Chain(t, e)[k]].onRq ==> RequeuedTo(t, s0, s, e, k + 1, head)
    ensures s.ents[Chain(t, e)[k]].onRq ==>
      CanUnlink(t, s, Chain(t, e)[k]) && RequeuedTo(t, s0, MovedToEnd(t, s, Chain(t, e)[k], head), e, k + 1, head)
  {
    hide QueueOk, Prio, Boosted, OnlyQueues, OnlyLinks, SameOthers, Requeued, Chain, Linked;
    var c := Chain(t, e);
    var x := c[k];
    if s.ents[x].onRq {
      MoveKeeps(t, s, x, head);
      LinkedHasPrio(t, s, x);
      RequeuedSameOthers(s.rqs[t.nodes[x].rtRq], x, Prio(t, s, x), head);
      ChainDistinct(t, e);
      StepOnlyQueues(t, s0.rqs, s.rqs, c, k, MovedToEnd(t, s, x, head).rqs[t.nodes[x].rtRq]);
      MovedAtEnd(t, s, x, head);
      forall j | 0 <= j < k ensures AtEnd(t, MovedToEnd(t, s, x, head), c[j], head) {
        ChainQueues(t, e, j, k);
        OthersAtEnd(t, s, x, head, c[j]);
      }
    } else {
      NotQueued(t, s, x, head);
    }
  }

  lemma {:induction false} RequeuedSameOthers(q: Rq<nat>, e: nat, p: nat, head: bool)
    requires p < |q.queue|
    ensures SameOthers(q, Requeued(q, e, p, head), e) && Requeued(q, e, p, head).throttled == q.throttled
  {
    var others := Without(q.queue[p], e);
    WithoutConcat([e], others, e);
    WithoutConcat(others, [e], e);
    WithoutMembers(q.queue[p], e);
    WithoutMembers(others, e);
  }

  lemma {:induction false} MovedAtEnd(t: Tree, s: State, e: nat, head: bool)
    requires CanUnlink(t, s, e)
    ensures Fits(t, MovedToEnd(t, s, e, head)) && AtEnd(t, MovedToEnd(t, s, e, head), e, head)
  {
    hide Consistent;
    LinkedHasPrio(t, s, e);
    var list := s.rqs[t.nodes[e].rtRq].queue[Prio(t, s, e)];
    RequeuedSameOthers(s.rqs[t.nodes[e].rtRq], e, Prio(t, s, e), head);
    assert Prio(t, MovedToEnd(t, s, e, head), e) == Prio(t, s, e);
  }

  lemma {:induction false} OthersAtEnd(t: Tree, s: State, e: nat, head: bool, g: nat)
    requires CanUnlink(t, s, e) && g < |t.nodes| && AtEnd(t, s, g, head) && t.nodes[g].rtRq != t.nodes[e].rtRq
    ensures Fits(t, MovedToEnd(t, s, e, head)) && AtEnd(t, MovedToEnd(t, s, e, head), g, head)
  {
    hide Consistent;
    LinkedHasPrio(t, s, e);
    assert Prio(t, MovedToEnd(t, s, e, head), g) == Prio(t, s, g);
  }

  // ------------------------------------------------------------------
  // Growth of the hierarchy: init_tg_rt_entry and new tasks
  // ------------------------------------------------------------------

  /** The entity above queue q. */
  function Above(t: Tree, q: nat): Option<nat>
    requires q < |t.owner|
  {
    if q == 0 then None else Some(t.owner[q])
  }

  function WithGroup(t: Tree, q: nat): Tree
    requires q < |t.owner|
  {
    Tree(t.nodes + [Node(q, Some(|t.owner|), Above(t, q))], t.owner + [|t.nodes|])
  }

  function WithTask(t: Tree, q: nat): Tree
    requires q < |t.owner|
  {
    Tree(t.nodes + [Node(q, None, Above(t, q))], t.owner)
  }

  predicate OwnQueueThere(t: Tree, s: State, e: nat) {
    e < |t.nodes| && e < |s.ents| && (t.nodes[e].myQ.Some? ==> t.nodes[e].myQ.value < |s.rqs|)
  }

  lemma {:induction false} GrownEntity(t: Tree, s: State, t': Tree, s': State, e: nat)
    requires Fits(t, s) && Fits(t', s') && e < |t.nodes|
    requires t.nodes <= t'.nodes && s.rqs <= s'.rqs && s.ents <= s'.ents
    ensures OwnQueueThere(t, s, e) && OwnQueueThere(t', s', e)
    ensures Prio(t', s', e) == Prio(t, s, e) && Boosted(t', s', e) == Boosted(t, s, e)
  {
    assert t'.nodes[e] == t.nodes[e] && s'.ents[e] == s.ents[e];
    assert t.nodes[e].myQ.Some? ==> s'.rqs[t.nodes[e].myQ.value] == s.rqs[t.nodes[e].myQ.value];
  }

  lemma {:induction false} GrownMembers(t: Tree, s: State, t': Tree, s': State, x: nat)
    requires Fits(t, s) && Fits(t', s')
    requires t.nodes <= t'.nodes && |t'.nodes| == |t.nodes| + 1 && s.ents <= s'.ents
    requires !s'.ents[|t.nodes|].onRq
    ensures Members(t', s', x) == Members(t, s, x)
  {
    hide TreeOk;
    forall e: nat ensures e in Members(t', s', x) <==> e in Members(t, s, x) {
      if e < |t.nodes| {
        assert t'.nodes[e] == t.nodes[e] && s'.ents[e] == s.ents[e];
      }
    }
  }

  /** An old queue sees neither the new entity nor a new queue. */
  lemma {:induction false} GrownQueue(t: Tree, s: State, t': Tree, s': State, x: nat)
    requires QueuesOk(t, s) && Fits(t', s') && x < |s.rqs|
    requires t.nodes <= t'.nodes && |t'.nodes| == |t.nodes| + 1 && s.rqs <= s'.rqs && s.ents <= s'.ents
    requires !s'.ents[|t.nodes|].onRq
    ensures QueueOk(t', s', x)
  {
    hide Consistent, Prio, Boosted, TreeOk;
    assert QueueOk(t, s, x);
    forall e | 0 <= e < |t.nodes| ensures OwnQueueThere(t, s, e) && OwnQueueThere(t', s', e)
        && Prio(t', s', e) == Prio(t, s, e) && Boosted(t', s', e) == Boosted(t, s, e)
    {
      GrownEntity(t, s, t', s', e);
    }
    assert Members(t', s', x) == Members(t, s, x) by { GrownMembers(t, s, t', s', x); }
    assert Prios(t', s', x) == Prios(t, s, x);
    assert BoostedMembers(t', s', x) == BoostedMembers(t, s, x);
  }

  lemma {:induction false} EmptyQueueOk(t: Tree, s: State, q: nat)
    requires Fits(t, s) && q < |s.rqs| && s.rqs[q] == EmptyRq() && Members(t, s, q) == {}
    ensures QueueOk(t, s, q)
  {
    var r := s.rqs[q];
    FirstBitIs(r.bitmap, MAX_RT_PRIO);
    assert Consistent(r, map[], {});
    assert Prios(t, s, q) == map[] && BoostedMembers(t, s, q) == {};
  }

  lemma {:induction false} GroupTreeOk(t: Tree, q: nat)
    requires TreeOk(t) && q < |t.owner|
    ensures TreeOk(WithGroup(t, q))
  {
    assert q > 0 ==> t.nodes[t.owner[q]].myQ == Some(q);
    var t' := WithGroup(t, q);
    var n := |t.nodes|;
    assert forall e {:trigger t'.nodes[e]} :: 0 <= e < n ==> t'.nodes[e] == t.nodes[e];
    forall x | 0 < x < |t'.owner| ensures t'.owner[x] < |t'.nodes| && t'.nodes[t'.owner[x]].myQ == Some(x) {
      if x < |t.owner| {
        assert t'.owner[x] == t.owner[x] < n;
      }
    }
  }

  lemma {:induction false} TaskTreeOk(t: Tree, q: nat)
    requires TreeOk(t) && q < |t.owner|
    ensures TreeOk(WithTask(t, q))
  {
    assert q > 0 ==> t.nodes[t.owner[q]].myQ == Some(q);
  }

  /** A new group is empty, so neither it nor its run queue upsets anything. */
  lemma {:induction false} GrowGroup(t: Tree, s: State, q: nat, s': State)
    requires Inv(t, s, {}) && q < |t.owner|
    requires s' == State(s.rqs + [EmptyRq()], s.ents + [Entity(0, 0, false)])
    ensures Inv(WithGroup(t, q), s', {})
  {
    hide Consistent, TreeOk, Linked;
    var t' := WithGroup(t, q);
    GroupTreeOk(t, q);
    forall x | 0 <= x < |s.rqs| ensures QueueOk(t', s', x) {
      GrownQueue(t, s, t', s', x);
    }
    assert Members(t', s', |s.rqs|) == {} by {
      forall e | 0 <= e < |t'.nodes| && t'.nodes[e].rtRq == |s.rqs| ensures false { OldQueueOnly(t, q, e); }
    }
    EmptyQueueOk(t', s', |s.rqs|);
    forall e | 0 <= e < |t'.nodes| ensures Linked(t', s', e) {
      if e < |t.nodes| { GrownLinked(t, s, t', s', e); } else { EmptyNotEligible(t', s', e); }
    }
  }

  lemma {:induction false} OldQueueOnly(t: Tree, q: nat, e: nat)
    requires TreeOk(t) && q < |t.owner| && e < |t.nodes| + 1
    ensures WithGroup(t, q).nodes[e].rtRq < |t.owner|
  {
    assert e < |t.nodes| ==> WithGroup(t, q).nodes[e] == t.nodes[e];
  }

  lemma {:induction false} GrownLinked(t: Tree, s: State, t': Tree, s': State, e: nat)
    requires Fits(t, s) && Fits(t', s') && e < |t.nodes| && Linked(t, s, e)
    requires t.nodes <= t'.nodes && s.rqs <= s'.rqs && s.ents <= s'.ents
    ensures Linked(t', s', e)
  {
    assert t'.nodes[e] == t.nodes[e] && s'.ents[e] == s.ents[e];
    assert t.nodes[e].myQ.Some? ==> s'.rqs[t.nodes[e].myQ.value] == s.rqs[t.nodes[e].myQ.value];
  }

  lemma {:induction false} EmptyNotEligible(t: Tree, s: State, e: nat)
    requires Fits(t, s) && e < |t.nodes| && !s.ents[e].onRq
    requires t.nodes[e].myQ.Some? ==> s.rqs[t.nodes[e].myQ.value].nrRunning == 0
    ensures Linked(t, s, e)
  {
  }

  /** A new task is not queued yet. */
  lemma {:induction false} GrowTask(t: Tree, s: State, q: nat, prio: nat, s': State)
    requires Inv(t, s, {}) && q < |t.owner| && prio < MAX_RT_PRIO
    requires s' == State(s.rqs, s.ents + [Entity(prio, prio, false)])
    ensures Inv(WithTask(t, q), s', {})
  {
    hide Consistent, TreeOk, Linked;
    var t' := WithTask(t, q);
    TaskTreeOk(t, q);
    forall x | 0 <= x < |s.rqs| ensures QueueOk(t', s', x) {
      GrownQueue(t, s, t', s', x);
    }
    forall e | 0 <= e < |t'.nodes| ensures Linked(t', s', e) {
      if e < |t.nodes| { GrownLinked(t, s, t', s', e); } else { EmptyNotEligible(t', s', e); }
    }
  }
}
