/** Building the groups of a scheduling domain (core.c): CPUs with the same representative share
    a group, and the groups are linked into a ring. */
module SchedGroups {
  import opened Options
  import opened Sequences

  /** struct sched_group */
  class SchedGroup {
    var cpus: set<nat>
    var next: SchedGroup?
    var weight: nat

    constructor ()
      ensures cpus == {} && next == null && weight == 0
    {
      cpus, next, weight := {}, null, 0;
    }
  }

  // ------------------------------------------------------------------
  // Which CPUs make a group
  // ------------------------------------------------------------------

  /** cpumask_first: the least CPU of a mask, or n */
  function First(s: set<nat>, n: nat): (r: nat)
    ensures r <= n && (r < n ==> r in s)
    ensures forall c {:trigger c in s} :: c in s && c < n ==> r <= c
  {
    if n == 0 then 0
    else if First(s, n - 1) < n - 1 then First(s, n - 1)
    else if n - 1 in s then n - 1 else n
  }

  /** get_group: a CPU's representative is the first CPU of its child domain, if it has one. */
  function Representative(child: Option<set<nat>>, cpu: nat, n: nat): nat {
    match child
    case Some(span) => First(span, n)
    case None => cpu
  }

  ghost predicate Topology(span: set<nat>, rep: seq<nat>) {
    && (forall c {:trigger c in span} :: c in span ==> c < |rep|)
    && (forall i {:trigger rep[i]} :: 0 <= i < |rep| ==> rep[i] < |rep|)
  }

  function Members(span: set<nat>, rep: seq<nat>, g: nat): set<nat> {
    set j | j in span && j < |rep| && rep[j] == g
  }

  /** The representatives of a span in the order in which its CPUs first name them */
  function Order(span: set<nat>, rep: seq<nat>, i: nat): (r: seq<nat>)
    requires i <= |rep|
  {
    if i == 0 then [] else
      var r := Order(span, rep, i - 1);
      if i - 1 in span && rep[i - 1] !in r then r + [rep[i - 1]] else r
  }

  lemma {:induction false} OrderFacts(span: set<nat>, rep: seq<nat>, i: nat)
    requires i <= |rep|
    ensures NoDuplicates(Order(span, rep, i))
    ensures forall j {:trigger rep[j]} :: 0 <= j < i && j in span ==> rep[j] in Order(span, rep, i)
    ensures forall g {:trigger g in Order(span, rep, i)} :: g in Order(span, rep, i) ==>
      exists j :: 0 <= j < i && j in span && rep[j] == g
  {
    if i > 0 {
      OrderFacts(span, rep, i - 1);
    }
  }

  /** The groups are a partition of the span, none of them empty, and every CPU is in the one
      of its representative. */
  lemma {:induction false} GroupsPartition(span: set<nat>, rep: seq<nat>)
    requires Topology(span, rep)
    ensures var order := Order(span, rep, |rep|);
      && NoDuplicates(order)
      && (forall c :: c in span ==> rep[c] in order && c in Members(span, rep, rep[c]))
      && (forall g :: g in order ==> Members(span, rep, g) != {} && Members(span, rep, g) <= span)
      && (forall g, h :: g in order && h in order && g != h ==> Members(span, rep, g) !! Members(span, rep, h))
  {
    OrderFacts(span, rep, |rep|);
    var order := Order(span, rep, |rep|);
    forall g | g in order ensures Members(span, rep, g) != {} {
      var j :| 0 <= j < |rep| && j in span && rep[j] == g;
      assert j in Members(span, rep, g);
    }
  }

  /** Where the child domains themselves partition the span, the groups are exactly those. */
  lemma {:induction false} GroupsAreChildren(span: set<nat>, child: seq<set<nat>>, rep: seq<nat>, c: nat)
    requires |rep| == |child| && Topology(span, rep) && c in span
    requires forall i {:trigger child[i]} :: 0 <= i < |child| && i in span ==>
      && i in child[i] && child[i] <= span && rep[i] == Representative(Some(child[i]), i, |child|)
      && forall j {:trigger j in child[i]} :: j in child[i] ==> child[j] == child[i]
    ensures Members(span, rep, rep[c]) == child[c]
  {
    assert child[c] <= span && c in child[c];
    var f := First(child[c], |child|);
    forall j ensures j in Members(span, rep, rep[c]) <==> j in child[c] {
      if j in child[c] {
        assert child[j] == child[c];
      }
      if j in Members(span, rep, rep[c]) {
        assert j in child[j];
        assert First(child[j], |child|) == f && f < |child|;
        assert f in child[j] && f in child[c];
        assert child[f] == child[j] && child[f] == child[c];
      }
    }
  }

  // ------------------------------------------------------------------
  // Sizes
  // ------------------------------------------------------------------

  ghost function Sizes(span: set<nat>, rep: seq<nat>, order: seq<nat>): nat {
    if |order| == 0 then 0
    else Sizes(span, rep, order[..|order| - 1]) + |Members(span, rep, order[|order| - 1])|
  }

  /** The CPUs of these groups */
  function Covered(span: set<nat>, rep: seq<nat>, order: seq<nat>): set<nat> {
    set j | j in span && j < |rep| && rep[j] in order
  }

  lemma {:induction false} SizesAddUp(span: set<nat>, rep: seq<nat>, order: seq<nat>)
    requires NoDuplicates(order)
    ensures Sizes(span, rep, order) == |Covered(span, rep, order)|
  {
    if |order| == 0 {
      assert Covered(span, rep, order) == {};
    } else {
      var rest, g := order[..|order| - 1], order[|order| - 1];
      assert order == rest + [g];
      SizesAddUp(span, rep, rest);
      assert g !in rest;
      assert Covered(span, rep, order) == Covered(span, rep, rest) + Members(span, rep, g);
      assert Covered(span, rep, rest) !! Members(span, rep, g);
    }
  }

  /** The groups' sizes add up to the span's. */
  lemma {:induction false} SizesOfSpan(span: set<nat>, rep: seq<nat>)
    requires Topology(span, rep)
    ensures Sizes(span, rep, Order(span, rep, |rep|)) == |span|
  {
    OrderFacts(span, rep, |rep|);
    SizesAddUp(span, rep, Order(span, rep, |rep|));
    assert Covered(span, rep, Order(span, rep, |rep|)) == span;
  }

  // ------------------------------------------------------------------
  // The ring
  // ------------------------------------------------------------------

  ghost predicate Apart(sg: seq<SchedGroup>) {
    forall i, j {:trigger sg[i], sg[j]} :: 0 <= i < j < |sg| ==> sg[i] != sg[j]
  }

  function Following(k: nat, n: nat): nat {
    if k + 1 == n then 0 else k + 1
  }

  ghost predicate Filled(span: set<nat>, rep: seq<nat>, sg: seq<SchedGroup>, order: seq<nat>, k: nat)
    reads sg
    requires k < |order|
  {
    order[k] < |sg| && sg[order[k]].cpus == Members(span, rep, order[k])
  }

  ghost predicate Linked(sg: seq<SchedGroup>, order: seq<nat>, k: nat)
    reads sg
    requires k < |order|
  {
    var l := Following(k, |order|);
    order[k] < |sg| && order[l] < |sg| && sg[order[k]].next == sg[order[l]]
  }

  ghost predicate AllFilled(span: set<nat>, rep: seq<nat>, sg: seq<SchedGroup>, order: seq<nat>)
    reads sg
  {
    forall k {:trigger Filled(span, rep, sg, order, k)} :: 0 <= k < |order| ==> Filled(span, rep, sg, order, k)
  }

  /** The first groups of this order, linked but not yet in a circle */
  ghost predicate Chain(sg: seq<SchedGroup>, order: seq<nat>)
    reads sg
  {
    forall k {:trigger Linked(sg, order, k)} :: 0 <= k < |order| - 1 ==> Linked(sg, order, k)
  }

  /** The groups in this order, each holding its members, linked in a circle */
  ghost predicate Ring(span: set<nat>, rep: seq<nat>, sg: seq<SchedGroup>, order: seq<nat>)
    reads sg
  {
    && AllFilled(span, rep, sg, order)
    && forall k {:trigger Linked(sg, order, k)} :: 0 <= k < |order| ==> Linked(sg, order, k)
  }

  ghost predicate Ends(sg: seq<SchedGroup>, order: seq<nat>, first: SchedGroup?, last: SchedGroup?) {
    if |order| == 0 then first == null && last == null
    else order[0] < |sg| && order[|order| - 1] < |sg| && first == sg[order[0]] && last == sg[order[|order| - 1]]
  }

  ghost predicate InRange(sg: seq<SchedGroup>, order: seq<nat>) {
    NoDuplicates(order) && forall k {:trigger order[k]} :: 0 <= k < |order| ==> order[k] < |sg|
  }

  /** The inner loop: collects the CPUs of one group. */
  method FillGroup(span: set<nat>, rep: seq<nat>, group: nat, sg: SchedGroup, already: set<nat>)
    returns (covered: set<nat>)
    requires Topology(span, rep)
    modifies sg`cpus
    ensures sg.cpus == Members(span, rep, group) && covered == already + Members(span, rep, group)
  {
    covered := already;
    sg.cpus := {};
    for j := 0 to |rep|
      invariant sg.cpus == set k | k in span && k < j && rep[k] == group
      invariant covered == already + sg.cpus
    {
      if j !in span || rep[j] != group {
        continue;
      }
      covered := covered + {j};
      sg.cpus := sg.cpus + {j};
    }
  }

  /** A new group joins the chain. */
  method AppendGroup(span: set<nat>, rep: seq<nat>, sg: seq<SchedGroup>, ghost order: seq<nat>, group: nat,
                     head: SchedGroup?, tail: SchedGroup?, already: set<nat>)
    returns (first: SchedGroup?, last: SchedGroup?, covered: set<nat>)
    requires Topology(span, rep) && Apart(sg) && InRange(sg, order) && group < |sg| && group !in order
    requires AllFilled(span, rep, sg, order) && Chain(sg, order) && Ends(sg, order, head, tail)
    modifies sg
    ensures AllFilled(span, rep, sg, order + [group]) && Chain(sg, order + [group])
      && Ends(sg, order + [group], first, last)
    ensures covered == already + Members(span, rep, group)
    ensures forall i :: 0 <= i < |sg| && i !in order + [group] ==>
      sg[i].cpus == old(sg[i].cpus) && sg[i].next == old(sg[i].next)
  {
    hide Topology, Members;
    covered := FillGroup(span, rep, group, sg[group], already);
    first := if head == null then sg[group] else head;
    if tail != null {
      tail.next := sg[group];
    }
    last := sg[group];
    ghost var longer := order + [group];
    forall k: nat | k < |longer| ensures Filled(span, rep, sg, longer, k) {
      if k < |order| {
        assert old(Filled(span, rep, sg, order, k));
        assert order[k] != group;
      }
    }
    forall k: nat | k < |longer| - 1 ensures Linked(sg, longer, k) {
      if k < |order| - 1 {
        assert old(Linked(sg, order, k));
        assert order[k] != order[|order| - 1];
      }
    }
  }

  /** build_sched_groups: called for the first CPU of the span it builds the ring; for any other
      it only looks up that CPU's group. */
  method BuildSchedGroups(span: set<nat>, rep: seq<nat>, sg: seq<SchedGroup>, cpu: nat) returns (groups: SchedGroup)
    requires Topology(span, rep) && |sg| == |rep| && Apart(sg) && cpu in span
    modifies sg
    ensures groups == sg[rep[cpu]]
    ensures cpu != First(span, |rep|) ==>
      forall i :: 0 <= i < |sg| ==> sg[i].cpus == old(sg[i].cpus) && sg[i].next == old(sg[i].next)
    ensures cpu == First(span, |rep|) ==> Ring(span, rep, sg, Order(span, rep, |rep|))
    ensures forall i :: 0 <= i < |sg| && i !in Order(span, rep, |rep|) ==>
      sg[i].cpus == old(sg[i].cpus) && sg[i].next == old(sg[i].next)
  {
    hide Members, Chain, AllFilled;
    groups := sg[rep[cpu]];
    if cpu != First(span, |rep|) {
      return;
    }
    var first: SchedGroup?, last: SchedGroup? := null, null;
    var covered: set<nat> := {};
    NothingYet(span, rep, sg);
    for i := 0 to |rep|
      invariant covered == Covered(span, rep, Order(span, rep, i))
      invariant AllFilled(span, rep, sg, Order(span, rep, i)) && Chain(sg, Order(span, rep, i))
      invariant Ends(sg, Order(span, rep, i), first, last)
      invariant forall k :: 0 <= k < |sg| && k !in Order(span, rep, i) ==>
        sg[k].cpus == old(sg[k].cpus) && sg[k].next == old(sg[k].next)
    {
      ghost var order := Order(span, rep, i);
      OrderInRange(span, rep, sg, i);
      assert i in covered <==> i in span && rep[i] in order;
      if i !in span || i in covered {
        continue;
      }
      first, last, covered := AppendGroup(span, rep, sg, order, rep[i], first, last, covered);
      CoveredMore(span, rep, order, rep[i]);
    }
    ghost var order := Order(span, rep, |rep|);
    OrderFacts(span, rep, |rep|);
    OrderInRange(span, rep, sg, |rep|);
    assert rep[cpu] in order;
    CloseRing(span, rep, sg, order, first, last);
  }

  method CloseRing(span: set<nat>, rep: seq<nat>, sg: seq<SchedGroup>, ghost order: seq<nat>, first: SchedGroup?,
          last: SchedGroup?)
    requires Apart(sg) && InRange(sg, order) && |order| > 0
    requires AllFilled(span, rep, sg, order) && Chain(sg, order) && Ends(sg, order, first, last)
    modifies sg
    ensures Ring(span, rep, sg, order)
    ensures forall i :: 0 <= i < |sg| ==>
      sg[i].cpus == old(sg[i].cpus) && (i !in order ==> sg[i].next == old(sg[i].next))
  {
    hide Members;
    last.next := first;
    forall k: nat | k < |order| ensures Filled(span, rep, sg, order, k) {
      assert old(Filled(span, rep, sg, order, k));
    }
    forall k: nat | k < |order| ensures Linked(sg, order, k) {
      if k < |order| - 1 {
        assert old(Linked(sg, order, k));
        assert order[k] != order[|order| - 1];
      }
    }
  }

  lemma NothingYet(span: set<nat>, rep: seq<nat>, sg: seq<SchedGroup>)
    ensures AllFilled(span, rep, sg, []) && Chain(sg, []) && Covered(span, rep, []) == {}
  {
  }

  lemma {:induction false} OrderInRange(span: set<nat>, rep: seq<nat>, sg: seq<SchedGroup>, i: nat)
    requires Topology(span, rep) && |sg| == |rep| && i <= |rep|
    ensures InRange(sg, Order(span, rep, i))
  {
    OrderFacts(span, rep, i);
    var order := Order(span, rep, i);
    forall k | 0 <= k < |order| ensures order[k] < |sg| {
      assert order[k] in order;
    }
  }

  lemma CoveredMore(span: set<nat>, rep: seq<nat>, order: seq<nat>, g: nat)
    ensures Covered(span, rep, order + [g]) == Covered(span, rep, order) + Members(span, rep, g)
  {
  }

  ghost predicate Weighed(sg: seq<SchedGroup>, order: seq<nat>, k: nat)
    reads sg
    requires k < |order|
  {
    order[k] < |sg| && sg[order[k]].weight == |sg[order[k]].cpus|
  }

  /** Places of the ring visited in so many steps from here */
  ghost predicate Visited(at: nat, steps: nat, n: nat, k: nat) {
    at <= k < at + steps || k + n < at + steps
  }

  lemma WeighedIs(sg: seq<SchedGroup>, order: seq<nat>, k: nat)
    requires k < |order| && Weighed(sg, order, k)
    ensures order[k] < |sg| && sg[order[k]].weight == |sg[order[k]].cpus|
  {
  }

  /** One round of the loop: the other groups keep their weights. */
  method WeighOne(sg: seq<SchedGroup>, ghost order: seq<nat>, ghost k: nat, g: SchedGroup) returns (next: SchedGroup)
    requires Apart(sg) && InRange(sg, order) && k < |order| && g == sg[order[k]]
    requires forall j {:trigger Linked(sg, order, j)} :: 0 <= j < |order| ==> Linked(sg, order, j)
    modifies g`weight
    ensures Weighed(sg, order, k) && next == sg[order[Following(k, |order|)]]
    ensures forall j {:trigger Weighed(sg, order, j)} :: 0 <= j < |order| && old(Weighed(sg, order, j)) ==>
      Weighed(sg, order, j)
    ensures forall j {:trigger Linked(sg, order, j)} :: 0 <= j < |order| ==> Linked(sg, order, j)
  {
    assert Linked(sg, order, k);
    g.weight := |g.cpus|;
    next := g.next;
    forall j: nat | j < |order| ensures Linked(sg, order, j) {
      assert old(Linked(sg, order, j));
    }
  }

  /** The loop of init_sched_groups_power: from any group of the ring round to itself, every
      group is visited once and given its number of CPUs as weight. */
  method InitGroupWeights(span: set<nat>, rep: seq<nat>, sg: seq<SchedGroup>, ghost order: seq<nat>, ghost at: nat,
          groups: SchedGroup)
    requires Apart(sg) && InRange(sg, order) && at < |order| && groups == sg[order[at]]
    requires Ring(span, rep, sg, order)
    modifies sg
    ensures Ring(span, rep, sg, order)
    ensures forall k :: 0 <= k < |order| ==> sg[order[k]].weight == |Members(span, rep, order[k])|
  {
    hide Members, Weighed, Linked;
    var g := groups;
    ghost var k: nat, steps: nat := at, 0;
    while true
      invariant k < |order| && g == sg[order[k]] && steps < |order|
      invariant k == if at + steps < |order| then at + steps else at + steps - |order|
      invariant forall i :: 0 <= i < |sg| ==> sg[i].cpus == old(sg[i].cpus)
      invariant forall j {:trigger Linked(sg, order, j)} :: 0 <= j < |order| ==> Linked(sg, order, j)
      invariant forall j {:trigger Weighed(sg, order, j)} :: 0 <= j < |order| && Visited(at, steps, |order|, j) ==>
        Weighed(sg, order, j)
      decreases |order| - steps
    {
      g := WeighOne(sg, order, k, g);
      k, steps := Following(k, |order|), steps + 1;
      if g == groups {
        assert k == at && steps == |order|;
        break;
      }
    }
    forall j: nat | j < |order|
      ensures Filled(span, rep, sg, order, j) && sg[order[j]].weight == |Members(span, rep, order[j])|
    {
      assert old(Filled(span, rep, sg, order, j));
      WeighedIs(sg, order, j);
    }
  }
}
