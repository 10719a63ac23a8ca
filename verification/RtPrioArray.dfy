/** One real-time run queue as values (struct rt_prio_array and the counters of
    struct rt_rq): a list per priority, a bitmap of the busy ones, the best busy
    priority and the numbers of queued and of boosted entities. */
module RtPrioArray {
  import opened Sequences

  const MAX_RT_PRIO: nat := 100

  // ------------------------------------------------------------------
  // Priority arrays: a queue per priority, and a bitmap of the busy ones
  // ------------------------------------------------------------------

  /** sched_find_first_bit: the lowest bit set at or after position from. */
  function FindFirstBit(bitmap: seq<bool>, from: nat): (i: nat)
    requires from <= |bitmap|
    ensures from <= i <= |bitmap|
    ensures i < |bitmap| ==> bitmap[i]
    ensures forall j :: from <= j < i ==> !bitmap[j]
    decreases |bitmap| - from
  {
    if from == |bitmap| || bitmap[from] then from else FindFirstBit(bitmap, from + 1)
  }

  lemma FirstBitIs(bitmap: seq<bool>, i: nat)
    requires i < |bitmap| && bitmap[i] && forall j :: 0 <= j < i ==> !bitmap[j]
    ensures FindFirstBit(bitmap, 0) == i
  {
  }

  /** Bit i is set exactly when queue i is busy, and the delimiter bit past the
      last priority is always set. */
  ghost predicate ArrayOk<T>(bitmap: seq<bool>, queue: seq<seq<T>>) {
    && |queue| == MAX_RT_PRIO
    && |bitmap| == MAX_RT_PRIO + 1
    && bitmap[MAX_RT_PRIO]
    && forall i :: 0 <= i < MAX_RT_PRIO ==> (bitmap[i] <==> queue[i] != [])
  }

  /** Each member is on the list of its own priority, once, and nowhere else. */
  ghost predicate Placed<T>(queue: seq<seq<T>>, prio: map<T, nat>) {
    && |queue| == MAX_RT_PRIO
    && (forall e :: e in prio ==> prio[e] < MAX_RT_PRIO && e in queue[prio[e]])
    && (forall i :: 0 <= i < MAX_RT_PRIO ==> forall e :: e in queue[i] ==> e in prio && prio[e] == i)
    && (forall i :: 0 <= i < MAX_RT_PRIO ==> NoDuplicates(queue[i]))
  }

  lemma {:induction false} RemovePlaced<T>(queue: seq<seq<T>>, prio: map<T, nat>, e: T, queue': seq<seq<T>>)
    requires Placed(queue, prio) && e in prio && queue' == queue[prio[e] := Without(queue[prio[e]], e)]
    ensures Placed(queue', prio - {e})
  {
    WithoutNoDuplicates(queue[prio[e]], e);
    WithoutMembers(queue[prio[e]], e);
  }

  lemma {:induction false} InsertPlaced<T>(queue: seq<seq<T>>, prio: map<T, nat>, e: T, p: nat, head: bool,
          queue': seq<seq<T>>)
    requires Placed(queue, prio) && e !in prio && p < MAX_RT_PRIO
    requires queue' == queue[p := if head then [e] + queue[p] else queue[p] + [e]]
    ensures Placed(queue', prio[e := p])
  {
    assert e !in queue[p];
    assert e in queue'[p];
  }

  // ------------------------------------------------------------------
  // struct rt_rq
  // ------------------------------------------------------------------

  datatype Rq<T(==)> = Rq(
    queue: seq<seq<T>>,   // active.queue
    bitmap: seq<bool>,    // active.bitmap, delimiter included
    nrRunning: nat,       // rt_nr_running
    highestPrio: nat,     // highest_prio.curr
    nrBoosted: int,       // rt_nr_boosted
    throttled: bool,      // rt_throttled
    onLeafList: bool)     // linked on rq->leaf_rt_rq_list

  /** init_rt_rq */
  function EmptyRq<T>(): Rq<T> {
    Rq(seq(MAX_RT_PRIO, _ => []), seq(MAX_RT_PRIO, _ => false) + [true], 0, MAX_RT_PRIO, 0, false, false)
  }

  /** rt_rq_throttled: a boosted queue runs even when it is throttled. */
  predicate Throttled<T(==)>(q: Rq<T>) {
    q.throttled && q.nrBoosted == 0
  }

  /** The queue against the priorities of its members and the boosted ones among them. */
  ghost predicate Consistent<T>(q: Rq<T>, prio: map<T, nat>, boosted: set<T>) {
    && ArrayOk(q.bitmap, q.queue) && Placed(q.queue, prio)
    && q.highestPrio == FindFirstBit(q.bitmap, 0)
    && q.nrRunning == |prio.Keys|
    && q.nrBoosted == |boosted| && boosted <= prio.Keys
    && (q.onLeafList <==> q.nrRunning > 0)
  }

  /** __dequeue_rt_entity with dec_rt_tasks: the bit of an emptied list is cleared, and the best
      priority is searched for again whenever an entity of that priority leaves. */
  function Removed<T(==)>(q: Rq<T>, e: T, p: nat, boosted: bool): Rq<T>
    requires p < |q.queue| && |q.queue| < |q.bitmap| && q.nrRunning > 0
  {
    var queue := q.queue[p := Without(q.queue[p], e)];
    var bitmap := if queue[p] == [] then q.bitmap[p := false] else q.bitmap;
    var running := q.nrRunning - 1;
    var highest := if running == 0 then MAX_RT_PRIO
                   else if p == q.highestPrio then FindFirstBit(bitmap, 0) else q.highestPrio;
    q.(queue := queue, bitmap := bitmap, nrRunning := running, highestPrio := highest,
       nrBoosted := if boosted then q.nrBoosted - 1 else q.nrBoosted,
       onLeafList := running > 0 && q.onLeafList)
  }

  /** __enqueue_rt_entity with inc_rt_tasks: the entity joins either end of its list. */
  function Inserted<T(==)>(q: Rq<T>, e: T, p: nat, boosted: bool, head: bool): Rq<T>
    requires p < |q.queue| && |q.queue| < |q.bitmap|
  {
    q.(queue := q.queue[p := if head then [e] + q.queue[p] else q.queue[p] + [e]],
       bitmap := q.bitmap[p := true],
       nrRunning := q.nrRunning + 1,
       highestPrio := if p < q.highestPrio then p else q.highestPrio,
       nrBoosted := if boosted then q.nrBoosted + 1 else q.nrBoosted,
       onLeafList := true)
  }

  /** No entity is queued exactly when no bit but the delimiter is set. */
  lemma {:induction false} EmptyMeansDelimiter<T>(bitmap: seq<bool>, queue: seq<seq<T>>, prio: map<T, nat>)
    requires ArrayOk(bitmap, queue) && Placed(queue, prio)
    ensures prio.Keys == {} <==> FindFirstBit(bitmap, 0) == MAX_RT_PRIO
  {
    var f := FindFirstBit(bitmap, 0);
    if f < MAX_RT_PRIO {
      assert queue[f][0] in queue[f];
    } else {
      assert forall i :: 0 <= i < MAX_RT_PRIO ==> queue[i] == [];
    }
  }

  /** Clearing one bit moves the first bit only if it was the first. */
  lemma {:induction false} ClearBit(bitmap: seq<bool>, p: nat)
    requires p < MAX_RT_PRIO && |bitmap| == MAX_RT_PRIO + 1 && bitmap[MAX_RT_PRIO] && bitmap[p]
    ensures FindFirstBit(bitmap, 0) <= p
    ensures p != FindFirstBit(bitmap, 0) ==> FindFirstBit(bitmap[p := false], 0) == FindFirstBit(bitmap, 0)
  {
    if p != FindFirstBit(bitmap, 0) {
      FirstBitIs(bitmap[p := false], FindFirstBit(bitmap, 0));
    }
  }

  lemma {:induction false} SetBit(bitmap: seq<bool>, p: nat)
    requires p < MAX_RT_PRIO && |bitmap| == MAX_RT_PRIO + 1 && bitmap[MAX_RT_PRIO]
    ensures FindFirstBit(bitmap[p := true], 0) == if p < FindFirstBit(bitmap, 0) then p else FindFirstBit(bitmap, 0)
  {
    FirstBitIs(bitmap[p := true], if p < FindFirstBit(bitmap, 0) then p else FindFirstBit(bitmap, 0));
  }

  lemma {:induction false} RemoveCounted<T>(members: set<T>, boosted: set<T>, e: T)
    requires e in members && boosted <= members
    ensures |members - {e}| == |members| - 1
    ensures |boosted - {e}| == if e in boosted then |boosted| - 1 else |boosted|
    ensures |members| == 1 && e !in boosted ==> boosted == {}
    ensures e in boosted ==> |boosted| > 0
  {
    if |members| == 1 {
      assert members - {e} == {};
      assert members == {e};
    }
    if e !in boosted {
      assert boosted - {e} == boosted;
    }
  }

  /** Removing a member keeps the queue consistent, and none of the four WARN_ONs on the way fires. */
  lemma {:induction false} RemoveConsistent<T>(q: Rq<T>, prio: map<T, nat>, boosted: set<T>, e: T)
    requires Consistent(q, prio, boosted) && e in prio
    ensures q.highestPrio <= prio[e] < MAX_RT_PRIO && q.nrRunning > 0
    ensures q.nrRunning == 1 ==> Removed(q, e, prio[e], e in boosted).nrBoosted == 0
    ensures Consistent(Removed(q, e, prio[e], e in boosted), prio - {e}, boosted - {e})
  {
    RemoveCounted(prio.Keys, boosted, e);
    assert (prio - {e}).Keys == prio.Keys - {e};
    var r := Removed(q, e, prio[e], e in boosted);
    RemovePlaced(q.queue, prio, e, r.queue);
    RemoveArray(q, prio, e, e in boosted);
    EmptyMeansDelimiter(r.bitmap, r.queue, prio - {e});
  }

  lemma {:induction false} RemoveArray<T>(q: Rq<T>, prio: map<T, nat>, e: T, boosted: bool)
    requires ArrayOk(q.bitmap, q.queue) && Placed(q.queue, prio) && e in prio && q.nrRunning > 0
    requires q.highestPrio == FindFirstBit(q.bitmap, 0)
    ensures q.highestPrio <= prio[e] < MAX_RT_PRIO
    ensures var r := Removed(q, e, prio[e], boosted);
      ArrayOk(r.bitmap, r.queue) && (r.nrRunning > 0 ==> r.highestPrio == FindFirstBit(r.bitmap, 0))
  {
    hide Placed, FindFirstBit;
    assert e in q.queue[prio[e]] by { MemberIsQueued(q.queue, prio, e); }
    ClearBit(q.bitmap, prio[e]);
  }

  lemma MemberIsQueued<T>(queue: seq<seq<T>>, prio: map<T, nat>, e: T)
    requires Placed(queue, prio) && e in prio
    ensures prio[e] < |queue| == MAX_RT_PRIO && e in queue[prio[e]]
  {
  }

  lemma {:induction false} InsertConsistent<T>(q: Rq<T>, prio: map<T, nat>, boosted: set<T>, e: T, p: nat,
          boost: bool, head: bool)
    requires Consistent(q, prio, boosted) && e !in prio && p < MAX_RT_PRIO
    ensures Consistent(Inserted(q, e, p, boost, head), prio[e := p], if boost then boosted + {e} else boosted)
  {
    hide FindFirstBit, Placed;
    var r := Inserted(q, e, p, boost, head);
    InsertPlaced(q.queue, prio, e, p, head, r.queue);
    InsertArray(q.bitmap, q.queue, p, r.queue[p]);
    SetBit(q.bitmap, p);
    assert prio[e := p].Keys == prio.Keys + {e};
    if boost {
      assert |boosted + {e}| == |boosted| + 1;
    }
  }

  lemma {:induction false} InsertArray<T>(bitmap: seq<bool>, queue: seq<seq<T>>, p: nat, list: seq<T>)
    requires ArrayOk(bitmap, queue) && p < MAX_RT_PRIO && list != []
    ensures ArrayOk(bitmap[p := true], queue[p := list])
  {
    var bitmap', queue' := bitmap[p := true], queue[p := list];
    forall i | 0 <= i < MAX_RT_PRIO ensures bitmap'[i] <==> queue'[i] != [] {
      assert bitmap[i] <==> queue[i] != [];
    }
  }

  /** requeue_rt_entity: the entity moves to either end of its list. */
  function Requeued<T(==)>(q: Rq<T>, e: T, p: nat, head: bool): Rq<T>
    requires p < |q.queue|
  {
    var others := Without(q.queue[p], e);
    q.(queue := q.queue[p := if head then [e] + others else others + [e]])
  }

  lemma {:induction false} RequeueConsistent<T>(q: Rq<T>, prio: map<T, nat>, boosted: set<T>, e: T, head: bool)
    requires Consistent(q, prio, boosted) && e in prio
    ensures prio[e] < |q.queue| && Consistent(Requeued(q, e, prio[e], head), prio, boosted)
  {
    hide FindFirstBit, Placed;
    MemberIsQueued(q.queue, prio, e);
    var p := prio[e];
    var r := Requeued(q, e, p, head);
    var gone := q.queue[p := Without(q.queue[p], e)];
    RemovePlaced(q.queue, prio, e, gone);
    InsertPlaced(gone, prio - {e}, e, p, head, r.queue);
    assert (prio - {e})[e := p] == prio;
  }

  // ------------------------------------------------------------------
  // What a consistent queue says
  // ------------------------------------------------------------------

  function TotalLength<T>(queue: seq<seq<T>>): nat {
    if queue == [] then 0 else |queue[0]| + TotalLength(queue[1..])
  }

  lemma {:induction false} ElementsOfList<T>(s: seq<T>)
    requires NoDuplicates(s)
    ensures |set x | x in s| == |s|
  {
    if s != [] {
      ElementsOfList(s[1..]);
      assert (set x | x in s) == (set x | x in s[1..]) + {s[0]};
    }
  }

  ghost function MembersFrom<T>(prio: map<T, nat>, k: nat): set<T> {
    set e | e in prio && prio[e] >= k
  }

  lemma {:induction false} MembersSplit<T>(queue: seq<seq<T>>, prio: map<T, nat>, k: nat)
    requires Placed(queue, prio) && k < MAX_RT_PRIO
    ensures |MembersFrom(prio, k)| == |queue[k]| + |MembersFrom(prio, k + 1)|
  {
    var later, list := MembersFrom(prio, k + 1), set x | x in queue[k];
    ElementsOfList(queue[k]);
    assert MembersFrom(prio, k) == later + list;
  }

  lemma {:induction false} MembersCounted<T>(queue: seq<seq<T>>, prio: map<T, nat>, k: nat)
    requires Placed(queue, prio) && k <= MAX_RT_PRIO
    ensures |MembersFrom(prio, k)| == TotalLength(queue[k..])
    decreases MAX_RT_PRIO - k
  {
    if k == MAX_RT_PRIO {
      assert MembersFrom(prio, k) == {};
    } else {
      MembersCounted(queue, prio, k + 1);
      MembersSplit(queue, prio, k);
      assert queue[k..][0] == queue[k] && queue[k..][1..] == queue[k + 1..];
    }
  }

  /** rt_nr_running is the total length of the lists, and highest_prio.curr is the least
      priority of a queued entity, or MAX_RT_PRIO when there is none. */
  lemma {:induction false} ConsistentCounts<T>(q: Rq<T>, prio: map<T, nat>, boosted: set<T>)
    requires Consistent(q, prio, boosted)
    ensures q.nrRunning == TotalLength(q.queue)
    ensures forall e :: e in prio ==> q.highestPrio <= prio[e]
    ensures q.nrRunning == 0 ==> q.highestPrio == MAX_RT_PRIO
    ensures q.nrRunning > 0 ==> q.highestPrio < MAX_RT_PRIO && q.queue[q.highestPrio] != []
  {
    MembersCounted(q.queue, prio, 0);
    assert MembersFrom(prio, 0) == prio.Keys;
    assert q.queue[0..] == q.queue;
    EmptyMeansDelimiter(q.bitmap, q.queue, prio);
    forall e | e in prio ensures q.highestPrio <= prio[e] {
      assert q.bitmap[prio[e]];
    }
  }
}
