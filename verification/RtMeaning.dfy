/** What the counts and links of the real-time hierarchy say about the tasks in it: in every state in
    order, the boost counts, the best priorities and the groups that are queued, in terms of the tasks
    queued below alone (rt.c). */
module RtMeaning {
  import opened Options
  import opened RtPrioArray
  import opened RtHierarchy

  /** x is queued, and so is every group above it up to queue q. */
  ghost predicate QueuedBelow(t: Tree, s: State, x: nat, q: nat)
    decreases x
  {
    && x < |t.nodes| && x < |s.ents| && s.ents[x].onRq
    && (t.nodes[x].rtRq == q
        || (t.nodes[x].parent.Some? && t.nodes[x].parent.value < x && QueuedBelow(t, s, t.nodes[x].parent.value, q)))
  }

  ghost predicate TaskBelow(t: Tree, s: State, x: nat, q: nat) {
    x < |t.nodes| && t.nodes[x].myQ.None? && QueuedBelow(t, s, x, q)
  }

  /** A task that runs with another priority than its own */
  ghost predicate BoostedBelow(t: Tree, s: State, x: nat, q: nat) {
    TaskBelow(t, s, x, q) && s.ents[x].prio != s.ents[x].normalPrio
  }

  ghost predicate HasTask(t: Tree, s: State, q: nat) {
    exists x: nat :: TaskBelow(t, s, x, q)
  }

  ghost predicate HasBoosted(t: Tree, s: State, q: nat) {
    exists x: nat :: BoostedBelow(t, s, x, q)
  }

  /** The entities linked on q that are boosted tasks, or groups with some below them */
  ghost function BoostedOn(t: Tree, s: State, q: nat): set<nat>
    requires Fits(t, s)
  {
    set e | 0 <= e < |t.nodes| && t.nodes[e].rtRq == q && s.ents[e].onRq
            && match t.nodes[e].myQ
               case None => s.ents[e].prio != s.ents[e].normalPrio
               case Some(m) => s.rqs[m].nrBoosted != 0
  }

  /** rt_nr_boosted counts them. */
  lemma {:induction false} BoostCount(t: Tree, s: State, q: nat)
    requires QueuesOk(t, s) && q < |s.rqs|
    ensures s.rqs[q].nrBoosted == |BoostedOn(t, s, q)|
  {
    assert QueueOk(t, s, q);
    assert BoostedMembers(t, s, q) == BoostedOn(t, s, q);
  }

  lemma OnMeansBoosted(t: Tree, s: State, q: nat, e: nat)
    requires QueuesOk(t, s) && q < |s.rqs| && e in BoostedOn(t, s, q)
    ensures s.rqs[q].nrBoosted > 0
  {
    BoostCount(t, s, q);
  }

  /** What is boosted below counts above. */
  lemma {:induction false} BoostedUp(t: Tree, s: State, e: nat, q: nat)
    requires QueuesOk(t, s) && q < |s.rqs| && QueuedBelow(t, s, e, q)
    requires e in BoostedOn(t, s, t.nodes[e].rtRq)
    ensures s.rqs[q].nrBoosted > 0
    decreases e
  {
    OnMeansBoosted(t, s, t.nodes[e].rtRq, e);
    if t.nodes[e].rtRq != q {
      var g := t.nodes[e].parent.value;
      assert s.ents[g].onRq && t.nodes[g].myQ == Some(t.nodes[e].rtRq);
      BoostedUp(t, s, g, q);
    }
  }

  /** A chain that ends at a group goes on above it. */
  lemma {:induction false} BelowGroup(t: Tree, s: State, x: nat, m: nat, e: nat)
    requires Fits(t, s) && e < |t.nodes| && t.nodes[e].myQ == Some(m) && s.ents[e].onRq && QueuedBelow(t, s, x, m)
    ensures QueuedBelow(t, s, x, t.nodes[e].rtRq)
    decreases x
  {
    if t.nodes[x].rtRq == m {
      NotOnOwnQueue(t, x);
      assert t.nodes[x].parent == Some(e);
    } else {
      BelowGroup(t, s, t.nodes[x].parent.value, m, e);
    }
  }

  lemma OwnQueueLater(t: Tree, e: nat, m: nat)
    requires TreeOk(t) && e < |t.nodes| && t.nodes[e].myQ == Some(m)
    ensures 0 < m < |t.owner| && t.owner[m] == e
    ensures Depth(t, t.nodes[e].rtRq) < Depth(t, m) <= |t.nodes|
  {
    var q := t.nodes[e].rtRq;
    if q > 0 {
      assert t.nodes[e].parent.Some?;
      assert t.nodes[t.nodes[e].parent.value].myQ == Some(q);
    }
  }

  lemma {:induction false} FindBoosted(t: Tree, s: State, q: nat) returns (x: nat)
    requires QueuesOk(t, s) && q < |s.rqs| && s.rqs[q].nrBoosted != 0
    ensures BoostedBelow(t, s, x, q)
    decreases |t.nodes| + 1 - Depth(t, q)
  {
    BoostCount(t, s, q);
    assert BoostedOn(t, s, q) != {};
    var e :| e in BoostedOn(t, s, q);
    x := e;
    if t.nodes[e].myQ.Some? {
      var m := t.nodes[e].myQ.value;
      OwnQueueLater(t, e, m);
      x := FindBoosted(t, s, m);
      BelowGroup(t, s, x, m, e);
    }
  }

  /** A queue's boost count is not zero exactly if some task queued below it is boosted. */
  lemma {:induction false} BoostedIff(t: Tree, s: State, q: nat)
    requires QueuesOk(t, s) && q < |s.rqs|
    ensures s.rqs[q].nrBoosted != 0 <==> HasBoosted(t, s, q)
  {
    if s.rqs[q].nrBoosted != 0 {
      var x := FindBoosted(t, s, q);
    }
    if x: nat :| BoostedBelow(t, s, x, q) {
      BoostedUp(t, s, x, q);
    }
  }

  lemma {:induction false} RunningUp(t: Tree, s: State, e: nat, q: nat)
    requires QueuesOk(t, s) && q < |s.rqs| && QueuedBelow(t, s, e, q)
    ensures s.rqs[q].nrRunning > 0
    decreases e
  {
    if t.nodes[e].rtRq == q {
      LinkedHasPrio(t, s, e);
    } else {
      RunningUp(t, s, t.nodes[e].parent.value, q);
    }
  }

  /** The best entity of a queue stands for a task below it with that priority. */
  lemma {:induction false} FindBest(t: Tree, s: State, q: nat) returns (x: nat)
    requires Inv(t, s, {}) && q < |s.rqs| && s.rqs[q].nrRunning > 0
    ensures TaskBelow(t, s, x, q) && s.ents[x].prio == s.rqs[q].highestPrio
    decreases |t.nodes| + 1 - Depth(t, q)
  {
    FirstEntity(t, s, q);
    var e := s.rqs[q].queue[FindFirstBit(s.rqs[q].bitmap, 0)][0];
    x := e;
    if t.nodes[e].myQ.Some? {
      var m := t.nodes[e].myQ.value;
      OwnQueueLater(t, e, m);
      x := FindBest(t, s, m);
      BelowGroup(t, s, x, m, e);
    }
  }

  /** A queue has something to run exactly if some task is queued below it. */
  lemma {:induction false} RunningIff(t: Tree, s: State, q: nat)
    requires Inv(t, s, {}) && q < |s.rqs|
    ensures s.rqs[q].nrRunning > 0 <==> HasTask(t, s, q)
  {
    if s.rqs[q].nrRunning > 0 {
      var x := FindBest(t, s, q);
    }
    if x: nat :| TaskBelow(t, s, x, q) {
      RunningUp(t, s, x, q);
    }
  }

  lemma {:induction false} NoneBetter(t: Tree, s: State, e: nat, q: nat)
    requires Inv(t, s, {}) && q < |s.rqs| && QueuedBelow(t, s, e, q)
    ensures s.rqs[q].highestPrio <=
      if t.nodes[e].myQ.None? then s.ents[e].prio else s.rqs[t.nodes[e].myQ.value].highestPrio
    decreases e
  {
    QueueBound(t, s, e);
    if t.nodes[e].rtRq != q {
      NoneBetter(t, s, t.nodes[e].parent.value, q);
    }
  }

  /** highest_prio.curr is the best priority of the tasks queued below, or MAX_RT_PRIO. */
  lemma {:induction false} BestOfTasks(t: Tree, s: State, q: nat)
    requires Inv(t, s, {}) && q < |s.rqs|
    ensures forall x: nat :: TaskBelow(t, s, x, q) ==> s.rqs[q].highestPrio <= s.ents[x].prio
    ensures HasTask(t, s, q) ==> exists x: nat :: TaskBelow(t, s, x, q) && s.rqs[q].highestPrio == s.ents[x].prio
    ensures !HasTask(t, s, q) ==> s.rqs[q].highestPrio == 100
  {
    RunningIff(t, s, q);
    forall x: nat | TaskBelow(t, s, x, q) ensures s.rqs[q].highestPrio <= s.ents[x].prio {
      NoneBetter(t, s, x, q);
    }
    if HasTask(t, s, q) {
      var x := FindBest(t, s, q);
    } else {
      assert QueueOk(t, s, q);
      ConsistentCounts(s.rqs[q], Prios(t, s, q), BoostedMembers(t, s, q));
    }
  }

  /** A group is queued exactly if some task is queued below it and its queue is not throttled, or a
      boosted task is among them. */
  lemma {:induction false} GroupQueuedIff(t: Tree, s: State, e: nat)
    requires Inv(t, s, {}) && e < |t.nodes| && t.nodes[e].myQ.Some?
    ensures
      var m := t.nodes[e].myQ.value;
      s.ents[e].onRq <==> HasTask(t, s, m) && (!s.rqs[m].throttled || HasBoosted(t, s, m))
  {
    hide HasTask, HasBoosted;
    var m := t.nodes[e].myQ.value;
    assert Linked(t, s, e);
    RunningIff(t, s, m);
    BoostedIff(t, s, m);
  }

  /** After a throttle flag was written and the invariant holds again. */
  lemma {:induction false} FlaggedOwnerIff(t: Tree, s: State, q: nat)
    requires Inv(t, s, {}) && 0 < q < |s.rqs|
    ensures t.owner[q] < |s.ents|
    ensures s.rqs[q].throttled ==> (s.ents[t.owner[q]].onRq <==> HasBoosted(t, s, q))
    ensures !s.rqs[q].throttled ==> (s.ents[t.owner[q]].onRq <==> HasTask(t, s, q))
  {
    assert t.nodes[t.owner[q]].myQ == Some(q);
    GroupQueuedIff(t, s, t.owner[q]);
    if x: nat :| BoostedBelow(t, s, x, q) {
      assert TaskBelow(t, s, x, q);
    }
  }

  /** Entity e stands first on the list of its queue's best priority, and so does every group above it
      on the list of its own. */
  ghost predicate FirstInLine(t: Tree, s: State, e: nat)
    decreases e
  {
    && e < |t.nodes| && t.nodes[e].rtRq < |s.rqs|
    && (var r := s.rqs[t.nodes[e].rtRq];
        r.highestPrio < |r.queue| && r.queue[r.highestPrio] != [] && r.queue[r.highestPrio][0] == e)
    && (t.nodes[e].parent.Some? ==> t.nodes[e].parent.value < e && FirstInLine(t, s, t.nodes[e].parent.value))
  }

  lemma {:induction false} NextInLine(t: Tree, s: State, q: nat, e: nat)
    requires Inv(t, s, {}) && q < |s.rqs| && (q > 0 ==> FirstInLine(t, s, t.owner[q]))
    requires s.rqs[q].highestPrio < |s.rqs[q].queue| && s.rqs[q].queue[s.rqs[q].highestPrio] != []
    requires e == s.rqs[q].queue[s.rqs[q].highestPrio][0] && e < |t.nodes| && t.nodes[e].rtRq == q
    ensures FirstInLine(t, s, e)
    ensures t.nodes[e].myQ.Some? ==> t.nodes[e].myQ.value < |t.owner| && t.owner[t.nodes[e].myQ.value] == e
  {
    if t.nodes[e].parent.Some? {
      assert t.nodes[t.nodes[e].parent.value].myQ == Some(q);
    }
  }

  /** The tasks that may be picked are those queued all the way up, unless the root is throttled and
      none is boosted. */
  lemma {:induction false} RunnableIff(t: Tree, s: State, x: nat)
    requires Inv(t, s, {}) && x < |t.nodes|
    ensures Runnable(t, s, x) <==> TaskBelow(t, s, x, 0) && (!s.rqs[0].throttled || HasBoosted(t, s, 0))
  {
    BoostedIff(t, s, 0);
    if s.ents[x].onRq {
      OpenIff(t, s, x);
    }
  }

  lemma {:induction false} OpenIff(t: Tree, s: State, e: nat)
    requires Inv(t, s, {}) && e < |t.nodes| && s.ents[e].onRq
    ensures OpenChain(t, s, e) <==> QueuedBelow(t, s, e, 0) && (!s.rqs[0].throttled || s.rqs[0].nrBoosted != 0)
    decreases e
  {
    hide QueueOk;
    var c := Chain(t, e);
    assert c[0] == e;
    LinkedHasPrio(t, s, e);
    if t.nodes[e].parent.None? {
      assert c == [e] && t.nodes[e].rtRq == 0;
    } else {
      var g := t.nodes[e].parent.value;
      assert Linked(t, s, g) && t.nodes[g].myQ == Some(t.nodes[e].rtRq) && t.nodes[e].rtRq != 0;
      OpenUp(t, s, e, g);
      if s.ents[g].onRq { OpenIff(t, s, g); }
    }
  }

  lemma OpenUp(t: Tree, s: State, e: nat, g: nat)
    requires Fits(t, s) && e < |t.nodes| && t.nodes[e].parent == Some(g) && g < |t.nodes|
    ensures OpenChain(t, s, e) <==> !Throttled(s.rqs[t.nodes[e].rtRq]) && OpenChain(t, s, g)
  {
    var c, up := Chain(t, e), Chain(t, g);
    assert c == [e] + up;
    if OpenChain(t, s, e) {
      assert !Throttled(s.rqs[t.nodes[c[0]].rtRq]);
      forall i | 0 <= i < |up| ensures !Throttled(s.rqs[t.nodes[up[i]].rtRq]) {
        assert c[i + 1] == up[i];
      }
    }
    if !Throttled(s.rqs[t.nodes[e].rtRq]) && OpenChain(t, s, g) {
      forall i | 0 <= i < |c| ensures !Throttled(s.rqs[t.nodes[c[i]].rtRq]) {
        if i > 0 { assert c[i] == up[i - 1]; }
      }
    }
  }
}
