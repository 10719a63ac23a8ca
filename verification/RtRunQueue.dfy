/** struct rt_rq, struct sched_rt_entity and the operations of rt.c that update them in
    place, each proved against the values of RtHierarchy. */
module RtRunQueue {
  import opened Options
  import opened RtPrioArray
  import opened RtHierarchy
  import opened RtMeaning
  import opened Sequences

  class RtRq {
    var queue: seq<seq<nat>>
    var bitmap: seq<bool>
    var nrRunning: nat
    var highestPrio: nat
    var nrBoosted: int
    var throttled: bool
    var onLeafList: bool

    ghost function Value(): Rq<nat>
      reads this
    {
      Rq(queue, bitmap, nrRunning, highestPrio, nrBoosted, throttled, onLeafList)
    }

    /** init_rt_rq */
    constructor ()
      ensures Value() == EmptyRq<nat>()
    {
      queue := seq(MAX_RT_PRIO, _ => []);
      bitmap := seq(MAX_RT_PRIO, _ => false) + [true];
      nrRunning, highestPrio, nrBoosted := 0, MAX_RT_PRIO, 0;
      throttled, onLeafList := false, false;
    }

    /** rt_rq_throttled */
    predicate IsThrottled()
      reads this
      ensures IsThrottled() == Throttled(Value())
    {
      throttled && nrBoosted == 0
    }

    /** __dequeue_rt_entity */
    method Unlink(e: nat, p: nat, boosted: bool)
      requires p < |queue| && |queue| < |bitmap| && nrRunning > 0
      modifies this
      ensures Value() == Removed(old(Value()), e, p, boosted)
    {
      queue := queue[p := Without(queue[p], e)];
      if queue[p] == [] {
        bitmap := bitmap[p := false];
      }
      nrRunning := nrRunning - 1;
      DecRtPrio(p);
      if boosted {
        nrBoosted := nrBoosted - 1;
      }
      if nrRunning == 0 {
        onLeafList := false;
      }
    }

    /** dec_rt_prio */
    method DecRtPrio(p: nat)
      modifies this`highestPrio
      ensures highestPrio == if nrRunning == 0 then MAX_RT_PRIO
                             else if p == old(highestPrio) then FindFirstBit(bitmap, 0) else old(highestPrio)
    {
      if nrRunning > 0 {
        if p == highestPrio {
          highestPrio := FindFirstBit(bitmap, 0);
        }
      } else {
        highestPrio := MAX_RT_PRIO;
      }
    }

    /** __enqueue_rt_entity, past its test */
    method Link(e: nat, p: nat, boosted: bool, head: bool)
      requires p < |queue| && |queue| < |bitmap|
      requires onLeafList <==> nrRunning > 0
      modifies this
      ensures Value() == Inserted(old(Value()), e, p, boosted, head)
    {
      if nrRunning == 0 {
        onLeafList := true;
      }
      if head {
        queue := queue[p := [e] + queue[p]];
      } else {
        queue := queue[p := queue[p] + [e]];
      }
      bitmap := bitmap[p := true];
      nrRunning := nrRunning + 1;
      if p < highestPrio {
        highestPrio := p;
      }
      if boosted {
        nrBoosted := nrBoosted + 1;
      }
    }

    /** requeue_rt_entity, past its test */
    method Requeue(e: nat, p: nat, head: bool)
      requires p < |queue|
      modifies this`queue
      ensures Value() == Requeued(old(Value()), e, p, head)
    {
      if head {
        queue := queue[p := [e] + Without(queue[p], e)];
      } else {
        queue := queue[p := Without(queue[p], e) + [e]];
      }
    }
  }

  class RtEntity {
    const rtRq: nat            // the queue this entity is (to be) queued on
    const myQ: Option<nat>     // the queue it owns, if it stands for a group
    const parent: Option<nat>  // the entity that owns rtRq
    var prio: nat              // of a task: its effective priority
    var normalPrio: nat        // of a task: its priority without boosting
    var onRq: bool             // run_list is linked
    var back: Option<nat>      // scratch link of dequeue_rt_stack

    ghost function Shape(): Node {
      Node(rtRq, myQ, parent)
    }

    ghost function Value(): Entity
      reads this
    {
      Entity(prio, normalPrio, onRq)
    }

    constructor (q: nat, own: Option<nat>, up: Option<nat>, p: nat)
      ensures Shape() == Node(q, own, up) && Value() == Entity(p, p, false)
    {
      rtRq, myQ, parent := q, own, up;
      prio, normalPrio, onRq, back := p, p, false, None;
    }
  }

  /** The real-time part of struct rq, with every group's queue and entity on this CPU. */
  class RtCpu {
    var rqs: seq<RtRq>
    var ents: seq<RtEntity>
    var owner: seq<nat>  // tg->rt_se[cpu] by the group's queue

    ghost predicate Distinct()
      reads this
    {
      && (forall i, j :: 0 <= i < j < |rqs| ==> rqs[i] != rqs[j])
      && (forall i, j :: 0 <= i < j < |ents| ==> ents[i] != ents[j])
    }

    ghost function TreeOf(): Tree
      reads this
    {
      Tree(seq(|ents|, i requires 0 <= i < |ents| reads this => ents[i].Shape()), owner)
    }

    ghost function StateOf(): State
      reads this, rqs, ents
    {
      State(seq(|rqs|, i requires 0 <= i < |rqs| reads this, rqs => rqs[i].Value()),
            seq(|ents|, i requires 0 <= i < |ents| reads this, ents => ents[i].Value()))
    }

    ghost predicate Valid()
      reads this, rqs, ents
    {
      Distinct() && Inv(TreeOf(), StateOf(), {})
    }

    constructor ()
      ensures Valid() && fresh(rqs) && |rqs| == 1 && ents == []
      ensures !rqs[0].throttled && rqs[0].nrRunning == 0 && rqs[0].nrBoosted == 0
      ensures TreeOf() == Tree([], [0]) && StateOf() == State([EmptyRq()], [])
    {
      var q := new RtRq();
      rqs, ents, owner := [q], [], [0];
      new;
      EmptyIsConsistent(TreeOf(), StateOf());
    }

    /** alloc_rt_sched_group and init_tg_rt_entry: a new group below the one that owns queue q. */
    method AddGroup(q: nat)
      requires Valid() && q < |rqs|
      modifies this
      ensures Valid() && |rqs| == old(|rqs|) + 1 && |ents| == old(|ents|) + 1
      ensures fresh(rqs[old(|rqs|)]) && fresh(ents[old(|ents|)])
      ensures rqs[..old(|rqs|)] == old(rqs) && ents[..old(|ents|)] == old(ents)
      ensures !rqs[old(|rqs|)].throttled && rqs[old(|rqs|)].nrRunning == 0 && rqs[old(|rqs|)].nrBoosted == 0
      ensures !ents[old(|ents|)].onRq && ents[old(|ents|)].rtRq == q && ents[old(|ents|)].myQ == Some(old(|rqs|))
      ensures TreeOf() == WithGroup(old(TreeOf()), q)
      ensures StateOf() == State(old(StateOf()).rqs + [EmptyRq()], old(StateOf()).ents + [Entity(0, 0, false)])
    {
      hide Inv, TreeOk, Fits;
      ghost var t, s := TreeOf(), StateOf();
      OwnerIn({}, q);
      var g := new RtRq();
      var e := new RtEntity(q, Some(|rqs|), if q == 0 then None else Some(owner[q]), 0);
      rqs, ents, owner := rqs + [g], ents + [e], owner + [|ents|];
      GrowGroup(t, s, q, s.(rqs := s.rqs + [EmptyRq()], ents := s.ents + [Entity(0, 0, false)]));
      assert StateOf() == s.(rqs := s.rqs + [EmptyRq()], ents := s.ents + [Entity(0, 0, false)]);
      assert TreeOf() == WithGroup(t, q);
    }

    /** A new task in the group that owns queue q. */
    method AddTask(q: nat, p: nat)
      requires Valid() && q < |rqs| && p < MAX_RT_PRIO
      modifies this
      ensures Valid() && rqs == old(rqs) && |ents| == old(|ents|) + 1
      ensures fresh(ents[old(|ents|)]) && ents[..old(|ents|)] == old(ents)
      ensures var e := ents[old(|ents|)]; !e.onRq && e.rtRq == q && e.myQ == None && e.prio == e.normalPrio == p
      ensures TreeOf() == WithTask(old(TreeOf()), q)
      ensures StateOf() == State(old(StateOf()).rqs, old(StateOf()).ents + [Entity(p, p, false)])
    {
      hide Inv, TreeOk, Fits;
      ghost var t, s := TreeOf(), StateOf();
      OwnerIn({}, q);
      var e := new RtEntity(q, None, if q == 0 then None else Some(owner[q]), p);
      ents := ents + [e];
      GrowTask(t, s, q, p, s.(ents := s.ents + [Entity(p, p, false)]));
      assert StateOf() == s.(ents := s.ents + [Entity(p, p, false)]);
      assert TreeOf() == WithTask(t, q);
    }

    function PrioOf(e: nat): nat
      requires e < |ents| && (ents[e].myQ.Some? ==> ents[e].myQ.value < |rqs|)
      reads this, rqs, ents
      ensures PrioOf(e) == Prio(TreeOf(), StateOf(), e)
    {
      if ents[e].myQ.Some? then rqs[ents[e].myQ.value].highestPrio else ents[e].prio
    }

    predicate IsBoosted(e: nat)
      requires e < |ents| && (ents[e].myQ.Some? ==> ents[e].myQ.value < |rqs|)
      reads this, rqs, ents
      ensures IsBoosted(e) == Boosted(TreeOf(), StateOf(), e)
    {
      if ents[e].myQ.Some? then rqs[ents[e].myQ.value].nrBoosted != 0 else ents[e].prio != ents[e].normalPrio
    }

    method UnlinkEntity(e: nat)
      requires Distinct() && CanUnlink(TreeOf(), StateOf(), e)
      modifies rqs, ents
      ensures forall x :: x in ents ==> x.back == old(x.back)
      ensures TreeOf() == old(TreeOf())
      ensures StateOf() == Unlinked(TreeOf(), old(StateOf()), e)
    {
      LinkedHasPrio(TreeOf(), StateOf(), e);
      var q := rqs[ents[e].rtRq];
      var prio, boosted := PrioOf(e), IsBoosted(e);
      ents[e].onRq := false;
      q.Unlink(e, prio, boosted);
    }

    /** The test of __enqueue_rt_entity: a throttled or empty group is not linked. */
    predicate HoldsBack(e: nat)
      reads this, rqs, ents
      requires e < |ents| && (ents[e].myQ.Some? ==> ents[e].myQ.value < |rqs|)
      ensures e < |TreeOf().nodes|
      ensures HoldsBack(e) <==> TreeOf().nodes[e].myQ.Some? && !Eligible(TreeOf(), StateOf(), e)
    {
      At(e);
      ents[e].myQ.Some? && (rqs[ents[e].myQ.value].IsThrottled() || rqs[ents[e].myQ.value].nrRunning == 0)
    }

    /** __enqueue_rt_entity past its test */
    method JoinQueue(e: nat, head: bool)
      requires Distinct() && CanLink(TreeOf(), StateOf(), e)
      modifies rqs, ents
      ensures forall x :: x in ents ==> x.back == old(x.back)
      ensures forall i :: 0 <= i < |ents| && i != e ==> OnRq(i) == old(OnRq(i))
      ensures TreeOf() == old(TreeOf()) && OnRq(e) && StateOf() == Joined(TreeOf(), old(StateOf()), e, head)
      ensures old(ParentOff(TreeOf(), StateOf(), e)) ==> QueuesOk(TreeOf(), StateOf())
    {
      hide Eligible, Consistent, QueueOk;
      ghost var t, s := TreeOf(), StateOf();
      if ParentOff(t, s, e) { LinkKeepsQueues(t, s, e, head); }
      EligibleHasPrio(TreeOf(), StateOf(), e);
      At(e);
      LeafFlag(e);
      var q := rqs[ents[e].rtRq];
      var prio, boosted := PrioOf(e), IsBoosted(e);
      ents[e].onRq := true;
      q.Link(e, prio, boosted, head);
    }

    lemma LeafFlag(e: nat)
      requires QueuesOk(TreeOf(), StateOf()) && e < |ents|
      ensures ents[e].rtRq < |rqs|
      ensures rqs[ents[e].rtRq].onLeafList <==> rqs[ents[e].rtRq].nrRunning > 0
    {
      At(e);
      LeafMeansRunning(TreeOf(), StateOf(), e);
      assert StateOf().rqs[ents[e].rtRq] == rqs[ents[e].rtRq].Value();
    }

    /** __enqueue_rt_entity */
    method LinkEntity(e: nat, head: bool)
      requires Distinct() && QueuesOk(TreeOf(), StateOf()) && e < |ents| && !ents[e].onRq
      modifies rqs, ents
      ensures forall x :: x in ents ==> x.back == old(x.back)
      ensures TreeOf() == old(TreeOf())
      ensures forall i :: 0 <= i < |ents| && i != e ==> OnRq(i) == old(OnRq(i))
      ensures ents[e].myQ.None? ==> OnRq(e)
      ensures var t, s := TreeOf(), old(StateOf());
        if t.nodes[e].myQ.Some? && !Eligible(t, s, e) then StateOf() == s
        else CanLink(t, s, e) && StateOf() == Joined(t, s, e, head)
    {
      hide Eligible, QueuesOk, TreeOf, StateOf;
      At(e);
      OwnQueue(e);
      if HoldsBack(e) {
        return;
      }
      CanJoin(e);
      JoinQueue(e, head);
    }

    lemma OwnQueue(e: nat)
      requires QueuesOk(TreeOf(), StateOf()) && e < |ents|
      ensures ents[e].myQ.Some? ==> ents[e].myQ.value < |rqs|
    {
      At(e);
    }

    lemma CanJoin(e: nat)
      requires QueuesOk(TreeOf(), StateOf()) && e < |ents| && !ents[e].onRq
      requires e < |TreeOf().nodes|
      requires TreeOf().nodes[e].myQ.Some? ==>
        TreeOf().nodes[e].myQ.value < |StateOf().rqs| && Eligible(TreeOf(), StateOf(), e)
      ensures CanLink(TreeOf(), StateOf(), e)
    {
      At(e);
    }

    /** The values at one entity are those of its fields. */
    lemma At(e: nat)
      requires e < |ents|
      ensures |TreeOf().nodes| == |StateOf().ents| == |ents| && |StateOf().rqs| == |rqs|
      ensures TreeOf().nodes[e] == ents[e].Shape() && StateOf().ents[e] == ents[e].Value()
      ensures ents[e].myQ.Some? && ents[e].myQ.value < |rqs| ==>
        StateOf().rqs[ents[e].myQ.value] == rqs[ents[e].myQ.value].Value()
    {
    }

    lemma Sizes()
      ensures |TreeOf().nodes| == |StateOf().ents| == |ents| && |StateOf().rqs| == |rqs|
    {
    }

    /** on_rt_rq */
    predicate OnRq(e: nat)
      reads this, ents
    {
      e < |ents| && ents[e].onRq
    }

    /** Every entity of the chain is linked back to the one below it. */
    ghost predicate BackLinks(c: seq<nat>, k: nat)
      reads this, ents
    {
      forall j {:trigger ents[c[j]]} :: 0 <= j < k && j < |c| && c[j] < |ents| ==>
        ents[c[j]].back == if j == 0 then None else Some(c[j - 1])
    }

    /** The first loop of dequeue_rt_stack: from e up, each entity is given a link back down. */
    method LinkBack(e: nat) returns (back: Option<nat>)
      requires Distinct() && TreeOk(TreeOf()) && e < |TreeOf().nodes|
      modifies ents
      ensures TreeOf() == old(TreeOf()) && StateOf() == old(StateOf())
      ensures var c := Chain(TreeOf(), e); back == Some(c[|c| - 1]) && BackLinks(c, |c|)
    {
      hide Chain, TreeOk, Fits, StateOf, TreeOf;
      ghost var t := TreeOf();
      ghost var c := Chain(t, e);
      back := None;
      var se := Some(e);
      ghost var k: nat := 0;
      Sizes();
      while se.Some?
        invariant TreeOf() == t
        invariant forall x :: x in ents ==> x.Value() == old(x.Value())
        invariant k <= |c| && (if k < |c| then se == Some(c[k]) else se == None)
        invariant back == if k == 0 then None else Some(c[k - 1])
        invariant BackLinks(c, k)
        decreases |c| - k
      {
        At(c[k]);
        ents[se.value].back := back;
        back := se;
        se := ents[se.value].parent;
        k := k + 1;
      }
      StateKept();
    }

    twostate lemma StateKept()
      requires unchanged(this) && unchanged(rqs) && forall x :: x in ents ==> x.Value() == old(x.Value())
      ensures StateOf() == old(StateOf())
    {
    }

    /** The second loop of dequeue_rt_stack: back down the chain, unlinking what is linked. */
    method UnlinkDown(e: nat, top: Option<nat>, ghost s0: State)
      requires Distinct() && TreeOk(TreeOf()) && e < |TreeOf().nodes|
      requires var c := Chain(TreeOf(), e);
        top == Some(c[|c| - 1]) && BackLinks(c, |c|) && UnlinkedFrom(TreeOf(), s0, StateOf(), e, |c|)
      modifies rqs, ents
      ensures Distinct() && TreeOf() == old(TreeOf())
      ensures UnlinkedFrom(TreeOf(), s0, StateOf(), e, 0)
    {
      hide QueuesOk, QueueOk, UnlinkedFrom, OnlyMoved, Chain, TreeOk, Fits, CanUnlink, Unlinked, ParentOff, TreeOf,
          StateOf, Distinct;
      ghost var t := TreeOf();
      ghost var c := Chain(t, e);
      ghost var k: nat := |c|;
      var se := top;
      Sizes();
      while se.Some?
        invariant Distinct() && TreeOf() == t && |ents| == |t.nodes|
        invariant k <= |c| && se == if k == 0 then None else Some(c[k - 1])
        invariant BackLinks(c, |c|)
        invariant UnlinkedFrom(t, s0, StateOf(), e, k)
        decreases k
      {
        k := k - 1;
        UnlinkNext(t, s0, StateOf(), e, k);
        At(c[k]);
        assert ents[c[k]].back == if k == 0 then None else Some(c[k - 1]);
        if ents[se.value].onRq {
          UnlinkEntity(se.value);
        }
        se := ents[se.value].back;
      }
    }

    /** dequeue_rt_stack: an upper entity's priority depends on the lower ones, so the chain
        is unlinked from the top down. */
    method DequeueRtStack(e: nat)
      requires Distinct() && QueuesOk(TreeOf(), StateOf()) && e < |ents|
      modifies rqs, ents
      ensures Distinct() && TreeOf() == old(TreeOf())
      ensures UnlinkedFrom(TreeOf(), old(StateOf()), StateOf(), e, 0)
    {
      UnlinkStart(TreeOf(), StateOf(), e);
      ghost var s0 := StateOf();
      var top := LinkBack(e);
      UnlinkDown(e, top, s0);
    }

    /** The loop of enqueue_rt_entity: up the chain, linking what is to be linked. */
    method LinkUp(e: nat, head: bool, ghost s0: State)
      requires Distinct() && TreeOk(TreeOf()) && e < |TreeOf().nodes|
      requires LinkedTo(TreeOf(), s0, StateOf(), e, 0, head)
      modifies rqs, ents
      ensures Distinct() && TreeOf() == old(TreeOf())
      ensures LinkedTo(TreeOf(), s0, StateOf(), e, |Chain(TreeOf(), e)|, head)
      ensures TreeOf().nodes[e].myQ.None? ==> OnRq(e)
    {
      hide QueuesOk, QueueOk, UnlinkedFrom, LinkedTo, OnlyMoved, Chain, TreeOk, Fits, CanLink, Linked, Eligible,
          Joined, TreeOf, StateOf, Distinct;
      ghost var t := TreeOf();
      ghost var c := Chain(t, e);
      ghost var k: nat := 0;
      var se := Some(e);
      Sizes();
      while se.Some?
        invariant Distinct() && TreeOf() == t && |ents| == |t.nodes|
        invariant k <= |c| && (if k < |c| then se == Some(c[k]) else se == None)
        invariant LinkedTo(t, s0, StateOf(), e, k, head)
        invariant k > 0 && t.nodes[e].myQ.None? ==> OnRq(e)
        decreases |c| - k
      {
        ghost var s := StateOf();
        LinkedHere(t, s0, s, e, k, head);
        At(c[k]);
        LinkEntity(se.value, head);
        if t.nodes[c[k]].myQ.Some? && !Eligible(t, s, c[k]) {
          SkipNext(t, s0, s, e, k, head);
        } else {
          LinkNext(t, s0, s, e, k, head);
        }
        se := ents[se.value].parent;
        k := k + 1;
      }
    }

    /** The loop of dequeue_rt_entity: a group that still has something queued below it is linked again. */
    method RelinkUp(e: nat, ghost s0: State)
      requires Distinct() && TreeOk(TreeOf()) && e < |TreeOf().nodes|
      requires LinkedTo(TreeOf(), s0, StateOf(), e, 0, false)
      modifies rqs, ents
      ensures Distinct() && TreeOf() == old(TreeOf())
      ensures LinkedTo(TreeOf(), s0, StateOf(), e, |Chain(TreeOf(), e)|, false)
      ensures TreeOf().nodes[e].myQ.None? ==> !OnRq(e)
    {
      hide QueuesOk, QueueOk, UnlinkedFrom, LinkedTo, OnlyMoved, Chain, TreeOk, Fits, CanLink, Linked, Joined, TreeOf,
          StateOf, Distinct;
      ghost var t := TreeOf();
      ghost var c := Chain(t, e);
      ghost var k: nat := 0;
      var se := Some(e);
      Sizes();
      LinkedHere(t, s0, StateOf(), e, 0, false);
      At(e);
      while se.Some?
        invariant Distinct() && TreeOf() == t && |ents| == |t.nodes|
        invariant k <= |c| && (if k < |c| then se == Some(c[k]) else se == None)
        invariant LinkedTo(t, s0, StateOf(), e, k, false)
        invariant t.nodes[e].myQ.None? ==> !OnRq(e)
        decreases |c| - k
      {
        ghost var s := StateOf();
        LinkedHere(t, s0, s, e, k, false);
        At(c[k]);
        if ents[se.value].myQ.Some? && rqs[ents[se.value].myQ.value].nrRunning > 0 {
          LinkEntity(se.value, false);
        }
        if t.nodes[c[k]].myQ.None? || !Eligible(t, s, c[k]) {
          SkipNext(t, s0, s, e, k, false);
        } else {
          LinkNext(t, s0, s, e, k, false);
        }
        se := ents[se.value].parent;
        k := k + 1;
      }
    }

    /** enqueue_rt_entity */
    method EnqueueRtEntity(e: nat, head: bool)
      requires Distinct() && Inv(TreeOf(), StateOf(), {e}) && e < |ents|
      modifies rqs, ents
      ensures Valid() && TreeOf() == old(TreeOf())
      ensures OnlyMoved(TreeOf(), old(StateOf()), StateOf(), Chain(TreeOf(), e))
      ensures forall x :: x in Chain(TreeOf(), e) ==> AtEnd(TreeOf(), StateOf(), x, head)
      ensures ents[e].myQ.None? ==> ents[e].onRq
    {
      ghost var t, s0 := TreeOf(), StateOf();
      DequeueRtStack(e);
      LinkStart(t, s0, StateOf(), e, head);
      LinkUp(e, head, s0);
      ChainLinked(t, s0, StateOf(), e, head);
    }

    /** dequeue_rt_entity */
    method DequeueRtEntity(e: nat)
      requires Distinct() && Inv(TreeOf(), StateOf(), {e}) && e < |ents|
      modifies rqs, ents
      ensures Valid() && TreeOf() == old(TreeOf())
      ensures OnlyMoved(TreeOf(), old(StateOf()), StateOf(), Chain(TreeOf(), e))
      ensures forall x :: x in Chain(TreeOf(), e) ==> AtEnd(TreeOf(), StateOf(), x, false)
      ensures ents[e].myQ.None? ==> !ents[e].onRq
    {
      ghost var t, s0 := TreeOf(), StateOf();
      DequeueRtStack(e);
      LinkStart(t, s0, StateOf(), e, false);
      RelinkUp(e, s0);
      ChainLinked(t, s0, StateOf(), e, false);
    }

    /** enqueue_task_rt and dequeue_task_rt */
    method EnqueueTask(p: nat, head: bool)
      requires Valid() && p < |ents| && ents[p].myQ.None?
      modifies rqs, ents
      ensures Valid() && TreeOf() == old(TreeOf()) && ents[p].onRq
      ensures OnlyMoved(TreeOf(), old(StateOf()), StateOf(), Chain(TreeOf(), p))
      ensures forall x :: x in Chain(TreeOf(), p) ==> AtEnd(TreeOf(), StateOf(), x, head)
      ensures forall e :: 0 <= e < |ents| ==>
        ents[e].prio == old(ents[e].prio) && ents[e].normalPrio == old(ents[e].normalPrio)
      ensures forall e :: 0 <= e < |ents| && e != p && ents[e].myQ.None? ==> ents[e].onRq == old(ents[e].onRq)
    {
      ghost var t, s0 := TreeOf(), StateOf();
      EnqueueRtEntity(p, head);
      forall e | 0 <= e < |ents|
        ensures ents[e].prio == old(ents[e].prio) && ents[e].normalPrio == old(ents[e].normalPrio)
        ensures e != p && ents[e].myQ.None? ==> ents[e].onRq == old(ents[e].onRq)
      {
        OnlyTaskMoved(t, s0, StateOf(), p, e);
        At(e);
        assert s0.ents[e] == old(ents[e].Value());
      }
    }

    method DequeueTask(p: nat)
      requires Valid() && p < |ents| && ents[p].myQ.None?
      modifies rqs, ents
      ensures Valid() && TreeOf() == old(TreeOf()) && !ents[p].onRq
      ensures OnlyMoved(TreeOf(), old(StateOf()), StateOf(), Chain(TreeOf(), p))
      ensures forall x :: x in Chain(TreeOf(), p) ==> AtEnd(TreeOf(), StateOf(), x, false)
      ensures forall e :: 0 <= e < |ents| ==>
        ents[e].prio == old(ents[e].prio) && ents[e].normalPrio == old(ents[e].normalPrio)
      ensures forall e :: 0 <= e < |ents| && e != p && ents[e].myQ.None? ==> ents[e].onRq == old(ents[e].onRq)
    {
      ghost var t, s0 := TreeOf(), StateOf();
      DequeueRtEntity(p);
      forall e | 0 <= e < |ents|
        ensures ents[e].prio == old(ents[e].prio) && ents[e].normalPrio == old(ents[e].normalPrio)
        ensures e != p && ents[e].myQ.None? ==> ents[e].onRq == old(ents[e].onRq)
      {
        OnlyTaskMoved(t, s0, StateOf(), p, e);
        At(e);
        assert s0.ents[e] == old(ents[e].Value());
      }
    }

    /** __setscheduler on an unlinked task */
    method ChangePrio(p: nat, newPrio: nat, newNormal: nat)
      requires Valid() && p < |ents| && ents[p].myQ.None? && !ents[p].onRq && newPrio < MAX_RT_PRIO
      modifies ents[p]
      ensures Valid() && TreeOf() == old(TreeOf())
      ensures ents[p].Value() == Entity(newPrio, newNormal, false)
    {
      ghost var t, s := TreeOf(), StateOf();
      PrioChangeKeeps(t, s, p, newPrio, newNormal);
      ents[p].prio := newPrio;
      ents[p].normalPrio := newNormal;
      assert TreeOf() == t;
      assert StateOf() == s.(ents := s.ents[p := Entity(newPrio, newNormal, false)]);
    }

    /** A change of a task's priorities while it stays real-time: rt_mutex_setprio and
        __sched_setscheduler take it off its queue first, since a queued entity must not
        change its priority; rt_mutex_setprio puts a lowered task at the head. */
    method SetPrio(p: nat, newPrio: nat, newNormal: nat)
      requires Valid() && p < |ents| && ents[p].myQ.None? && newPrio < MAX_RT_PRIO
      modifies rqs, ents
      ensures Valid() && TreeOf() == old(TreeOf())
      ensures ents[p].Value() == Entity(newPrio, newNormal, old(ents[p].onRq))
      ensures ents[p].onRq ==> AtEnd(TreeOf(), StateOf(), p, old(ents[p].prio) < newPrio)
      ensures forall e :: 0 <= e < |ents| && e != p ==>
        ents[e].prio == old(ents[e].prio) && ents[e].normalPrio == old(ents[e].normalPrio)
      ensures forall e :: 0 <= e < |ents| && e != p && ents[e].myQ.None? ==> ents[e].onRq == old(ents[e].onRq)
    {
      hide Inv, Fits, TreeOk, OnlyMoved, AtEnd;
      var wasOn, oldPrio := ents[p].onRq, ents[p].prio;
      if wasOn {
        DequeueTask(p);
      }
      ChangePrio(p, newPrio, newNormal);
      if wasOn {
        EnqueueTask(p, oldPrio < newPrio);
      }
    }

    method RequeueEntity(e: nat, head: bool)
      requires Distinct() && CanUnlink(TreeOf(), StateOf(), e)
      modifies rqs
      ensures TreeOf() == old(TreeOf()) && StateOf() == MovedToEnd(TreeOf(), old(StateOf()), e, head)
    {
      LinkedHasPrio(TreeOf(), StateOf(), e);
      var q := rqs[ents[e].rtRq];
      q.Requeue(e, PrioOf(e), head);
    }

    /** requeue_task_rt: the task and every group above it go to an end of their lists; nothing
        else changes. */
    method RequeueTask(p: nat, head: bool)
      requires Valid() && p < |ents|
      modifies rqs
      ensures Valid() && TreeOf() == old(TreeOf()) && StateOf().ents == old(StateOf().ents)
      ensures OnlyMoved(TreeOf(), old(StateOf()), StateOf(), Chain(TreeOf(), p))
      ensures forall x :: x in Chain(TreeOf(), p) ==> AtEnd(TreeOf(), StateOf(), x, head)
    {
      hide Inv, QueuesOk, QueueOk, OnlyMoved, Chain, TreeOk, Fits, CanUnlink, TreeOf, StateOf, Distinct, MovedToEnd,
          AtEnd;
      ghost var t, s0 := TreeOf(), StateOf();
      Sizes();
      RequeueStart(t, s0, p, head);
      ghost var c := Chain(t, p);
      ghost var k: nat := 0;
      var se := Some(p);
      while se.Some?
        invariant Distinct() && TreeOf() == t && |ents| == |t.nodes|
        invariant k <= |c| && (if k < |c| then se == Some(c[k]) else se == None)
        invariant RequeuedTo(t, s0, StateOf(), p, k, head)
        decreases |c| - k
      {
        RequeueNext(t, s0, StateOf(), p, k, head);
        At(c[k]);
        if ents[se.value].onRq {
          RequeueEntity(se.value, head);
        }
        se := ents[se.value].parent;
        k := k + 1;
      }
    }

    lemma OwnerIn(except: set<nat>, q: nat)
      requires Inv(TreeOf(), StateOf(), except) && q < |rqs|
      ensures q < |owner| == |rqs| && (q > 0 ==> owner[q] < |ents|)
    {
    }

    /** sched_rt_rq_dequeue */
    method SchedRtRqDequeue(q: nat)
      requires Distinct() && q < |rqs| && q < |owner| && Inv(TreeOf(), StateOf(), OwnerOf(TreeOf(), q))
      requires Throttled(StateOf().rqs[q])
      modifies rqs, ents
      ensures Valid() && TreeOf() == old(TreeOf())
      ensures q > 0 ==> OnlyMoved(TreeOf(), old(StateOf()), StateOf(), Chain(TreeOf(), owner[q]))
      ensures q == 0 ==> StateOf() == old(StateOf())
    {
      if q > 0 {
        At(owner[q]);
        if ents[owner[q]].onRq {
          DequeueRtEntity(owner[q]);
        } else {
          NotQueued(TreeOf(), StateOf(), owner[q], false);
          MovedNowhere(TreeOf(), StateOf(), OwnerOf(TreeOf(), q), owner[q]);
        }
      }
    }

    /** sched_rt_rq_enqueue.  It also repairs a queue whose throttle flag was cleared without
        linking its owner, as __enable_runtime leaves it. */
    method SchedRtRqEnqueue(q: nat)
      requires Distinct() && q < |rqs| && q < |owner| && Inv(TreeOf(), StateOf(), OwnerOf(TreeOf(), q))
      requires !Throttled(StateOf().rqs[q])
      requires q > 0 && OnRq(owner[q]) ==> rqs[q].nrRunning > 0
      modifies rqs, ents
      ensures Valid() && TreeOf() == old(TreeOf())
      ensures q > 0 ==> OnlyMoved(TreeOf(), old(StateOf()), StateOf(), Chain(TreeOf(), owner[q]))
      ensures q == 0 ==> StateOf() == old(StateOf())
    {
      if q > 0 {
        At(owner[q]);
        if rqs[q].nrRunning > 0 && !ents[owner[q]].onRq {
          EnqueueRtEntity(owner[q], false);
        } else {
          MovedNowhere(TreeOf(), StateOf(), OwnerOf(TreeOf(), q), owner[q]);
        }
      }
    }

    /** Only the throttle flag of q is written; the owner of q may be out of place after it. */
    method SetThrottled(q: nat, flag: bool)
      requires Valid() && q < |rqs|
      modifies rqs[q]
      ensures Distinct() && TreeOf() == old(TreeOf()) && q < |owner|
      ensures StateOf() == Flagged(old(StateOf()), q, flag)
      ensures Inv(TreeOf(), StateOf(), OwnerOf(TreeOf(), q))
    {
      ghost var t, s := TreeOf(), StateOf();
      ThrottleFlag(t, s, q, flag);
      rqs[q].throttled := flag;
      assert StateOf() == Flagged(s, q, flag);
    }

    lemma OwnerRuns(q: nat)
      requires Valid() && 0 < q < |rqs|
      ensures q < |owner| && (OnRq(owner[q]) ==> rqs[q].nrRunning > 0)
    {
      hide Consistent;
      At(owner[q]);
      if ents[owner[q]].onRq { UnthrottleOwner(TreeOf(), StateOf(), q); }
      assert StateOf().rqs[q] == rqs[q].Value();
    }

    /** Where the owner of q stands once its flag was written. */
    lemma OwnerQueued(q: nat)
      requires Valid() && 0 < q < |rqs|
      ensures q < |owner|
      ensures rqs[q].throttled ==> (OnRq(owner[q]) <==> HasBoosted(TreeOf(), StateOf(), q))
      ensures !rqs[q].throttled ==> (OnRq(owner[q]) <==> HasTask(TreeOf(), StateOf(), q))
    {
      hide HasTask, HasBoosted;
      assert StateOf().rqs[q] == rqs[q].Value();
      FlaggedOwnerIff(TreeOf(), StateOf(), q);
      At(owner[q]);
    }

    /** sched_rt_runtime_exceeded, once the queue is over its runtime: a boosted queue stays
        linked although its flag is set. */
    method Throttle(q: nat)
      requires Valid() && q < |rqs|
      modifies rqs, ents
      ensures Valid() && TreeOf() == old(TreeOf())
      ensures forall x :: 0 <= x < |rqs| ==> rqs[x].throttled == (x == q || old(rqs[x].throttled))
      ensures q > 0 ==> (OnRq(owner[q]) <==> HasBoosted(TreeOf(), StateOf(), q))
      ensures forall e :: 0 <= e < |ents| && ents[e].myQ.None? ==> ents[e].Value() == old(ents[e].Value())
    {
      hide Inv, TreeOk, OnlyMoved, Distinct, HasBoosted;
      ghost var t, s0 := TreeOf(), StateOf();
      OwnerIn({}, q);
      SetThrottled(q, true);
      ghost var s := StateOf();
      assert s.rqs[q] == rqs[q].Value() && s0.rqs[q].nrBoosted == s.rqs[q].nrBoosted;
      if rqs[q].IsThrottled() {
        SchedRtRqDequeue(q);
      } else {
        BoostedStaysLinked(t, s0, q);
        if q > 0 { MovedNowhere(t, s, {}, owner[q]); }
      }
      assert TreeOf() == t;
      FlagMove(t, s0, s, StateOf(), q, true);
      forall x | 0 <= x < |rqs| ensures rqs[x].throttled == (x == q || old(rqs[x].throttled)) {
        assert StateOf().rqs[x] == rqs[x].Value() && s0.rqs[x] == old(rqs[x].Value());
      }
      if q > 0 { OwnerQueued(q); }
      forall e | 0 <= e < |ents| && ents[e].myQ.None? ensures ents[e].Value() == old(ents[e].Value()) {
        At(e);
        assert s0.ents[e] == old(ents[e].Value());
      }
    }

    /** The period timer releases a queue: do_sched_rt_period_timer. */
    method Unthrottle(q: nat)
      requires Valid() && q < |rqs|
      modifies rqs, ents
      ensures Valid() && TreeOf() == old(TreeOf())
      ensures forall x :: 0 <= x < |rqs| ==> rqs[x].throttled == (x != q && old(rqs[x].throttled))
      ensures q > 0 ==> (OnRq(owner[q]) <==> HasTask(TreeOf(), StateOf(), q))
      ensures forall e :: 0 <= e < |ents| && ents[e].myQ.None? ==> ents[e].Value() == old(ents[e].Value())
    {
      hide Inv, TreeOk, OnlyMoved, Distinct, HasTask;
      ghost var t, s0 := TreeOf(), StateOf();
      OwnerIn({}, q);
      if q > 0 { OwnerRuns(q); }
      SetThrottled(q, false);
      ghost var s := StateOf();
      assert s.rqs[q] == rqs[q].Value();
      SchedRtRqEnqueue(q);
      assert TreeOf() == t;
      FlagMove(t, s0, s, StateOf(), q, false);
      forall x | 0 <= x < |rqs| ensures rqs[x].throttled == (x != q && old(rqs[x].throttled)) {
        assert StateOf().rqs[x] == rqs[x].Value() && s0.rqs[x] == old(rqs[x].Value());
      }
      if q > 0 { OwnerQueued(q); }
      forall e | 0 <= e < |ents| && ents[e].myQ.None? ensures ents[e].Value() == old(ents[e].Value()) {
        At(e);
        assert s0.ents[e] == old(ents[e].Value());
      }
    }

    /** _pick_next_task_rt: down from the root, always to the first entity of the best busy list. */
    method PickNextTask() returns (p: Option<nat>)
      requires Valid()
      ensures p.None? ==> forall x :: 0 <= x < |ents| ==> !Runnable(TreeOf(), StateOf(), x)
      ensures p.Some? ==> p.value < |ents| && Runnable(TreeOf(), StateOf(), p.value)
      ensures p.Some? ==> forall x :: 0 <= x < |ents| && Runnable(TreeOf(), StateOf(), x) ==>
        ents[p.value].prio <= ents[x].prio
      ensures p.Some? ==> FirstInLine(TreeOf(), StateOf(), p.value)
    {
      hide Inv, TreeOk, Throttled, Runnable, FirstInLine;
      ghost var t, s := TreeOf(), StateOf();
      InvFits(t, s);
      Sizes();
      assert s.rqs[0] == rqs[0].Value();
      forall x | 0 <= x < |ents| && Runnable(t, s, x)
        ensures !Throttled(s.rqs[0]) && s.rqs[0].nrRunning > 0 && s.rqs[0].highestPrio <= ents[x].prio
      {
        RunnableBound(t, s, x);
        At(x);
      }
      if rqs[0].nrRunning == 0 || rqs[0].IsThrottled() {
        return None;
      }
      OpenRoot(t, s);
      var q: nat := 0;
      while true
        invariant q < |rqs| && s.rqs[q].nrRunning > 0 && s.rqs[q].highestPrio == s.rqs[0].highestPrio
        invariant OpenTo(t, s, q) && (q > 0 ==> FirstInLine(t, s, t.owner[q]))
        decreases |t.owner| + |t.nodes| - Depth(t, q)
      {
        FirstEntity(t, s, q);
        assert s.rqs[q] == rqs[q].Value();
        var idx := FindFirstBit(rqs[q].bitmap, 0);
        assert idx < MAX_RT_PRIO;  // the BUG_ON of pick_next_rt_entity
        var e := rqs[q].queue[idx][0];
        At(e);
        OpenStep(t, s, q, e);
        NextInLine(t, s, q, e);
        if ents[e].myQ.None? {
          return Some(e);
        }
        q := ents[e].myQ.value;
      }
    }
  }
}
