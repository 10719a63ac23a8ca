/** Admission control of real-time bandwidth over the task-group tree (core.c). */
module RtAdmission {
  import opened Arithmetic
  import opened Errors
  import opened TaskGroupWalk

  const ONE: nat := 0x10_0000        // a ratio of 1, in 20-bit fixed point

  datatype Bandwidth = Bandwidth(period: nat, runtime: nat)

  /** to_ratio: the shift is done in 64 bits, the result is an unsigned long. */
  function ToRatio(b: Bandwidth): nat {
    if b.runtime == RUNTIME_INF then ONE
    else if b.period == 0 then 0
    else ((b.runtime * ONE) % U64 / b.period) % ULONG
  }

  predicate Fits(b: Bandwidth) {
    b.period > 0 && (b.runtime <= b.period || b.runtime == RUNTIME_INF)
  }

  /** A runtime within its period has a ratio of at most 1. */
  lemma {:induction false} RatioBound(b: Bandwidth)
    requires Fits(b)
    ensures ToRatio(b) <= ONE
    ensures b.runtime != RUNTIME_INF && b.runtime * ONE < U64 ==> ToRatio(b) == b.runtime * ONE / b.period
  {
    if b.runtime != RUNTIME_INF {
      var x := (b.runtime * ONE) % U64;
      ModBound(b.runtime * ONE, U64);
      MulMonotone(b.runtime, b.period, ONE);
      DivMonotone(x, b.period * ONE, b.period);
      DivUnique(b.period * ONE, b.period, ONE);
      DivBound(x, b.period);
    }
  }

  lemma ModBound(x: nat, m: nat)
    requires m > 0
    ensures x % m <= x && x % m < m
  {
  }

  // ------------------------------------------------------------------
  // What the check is for
  // ------------------------------------------------------------------

  /** The setting of group tg; a group that is not there counts for nothing. */
  function Of(bw: seq<Bandwidth>, tg: nat): Bandwidth {
    if tg < |bw| then bw[tg] else Bandwidth(1, 0)
  }

  ghost function KidsRatio(kids: seq<Tree>, bw: seq<Bandwidth>): nat {
    if kids == [] then 0 else ToRatio(Of(bw, kids[0].id)) + KidsRatio(kids[1..], bw)
  }

  /** One group's part: its runtime fits its period and the global limit, and its children
      together are promised no more than it has. */
  ghost predicate Sound(t: Tree, bw: seq<Bandwidth>, limit: nat) {
    && Fits(Of(bw, t.id)) && ToRatio(Of(bw, t.id)) <= limit
    && KidsRatio(t.kids, bw) <= ToRatio(Of(bw, t.id))
  }

  ghost predicate Admissible(t: Tree, bw: seq<Bandwidth>, limit: nat) {
    Sound(t, bw, limit) && forall i :: 0 <= i < |t.kids| ==> Admissible(t.kids[i], bw, limit)
  }

  /** No group of the set lies below another one of it. */
  ghost predicate Antichain(t: Tree, s: set<nat>) {
    && (t.id in s ==> KidsIds(t.kids) !! s)
    && forall i :: 0 <= i < |t.kids| ==> Antichain(t.kids[i], s)
  }

  /** The ratios of the groups of the set that are in the tree. */
  ghost function Total(t: Tree, s: set<nat>, bw: seq<Bandwidth>): nat {
    (if t.id in s then ToRatio(Of(bw, t.id)) else 0) + KidsTotal(t.kids, s, bw)
  }

  ghost function KidsTotal(kids: seq<Tree>, s: set<nat>, bw: seq<Bandwidth>): nat {
    if kids == [] then 0 else Total(kids[0], s, bw) + KidsTotal(kids[1..], s, bw)
  }

  lemma {:induction false} NoneBelow(kids: seq<Tree>, s: set<nat>, bw: seq<Bandwidth>)
    requires KidsIds(kids) !! s
    ensures KidsTotal(kids, s, bw) == 0
  {
    if kids != [] {
      NoneIn(kids[0], s, bw);
      NoneBelow(kids[1..], s, bw);
    }
  }

  lemma {:induction false} NoneIn(t: Tree, s: set<nat>, bw: seq<Bandwidth>)
    requires Ids(t) !! s
    ensures Total(t, s, bw) == 0
  {
    NoneBelow(t.kids, s, bw);
  }

  /** The local checks bound the whole: any groups of which none is below another are together
      promised no more than their common ancestor, and so no more than the global limit. */
  lemma {:induction false} AntichainBound(t: Tree, s: set<nat>, bw: seq<Bandwidth>, limit: nat)
    requires Admissible(t, bw, limit) && Antichain(t, s)
    ensures Total(t, s, bw) <= ToRatio(Of(bw, t.id)) <= limit
    decreases t, 1
  {
    if t.id in s {
      NoneBelow(t.kids, s, bw);
    } else {
      KidsBound(t.kids, s, bw, limit);
    }
  }

  lemma {:induction false} KidsBound(kids: seq<Tree>, s: set<nat>, bw: seq<Bandwidth>, limit: nat)
    requires forall i :: 0 <= i < |kids| ==> Admissible(kids[i], bw, limit) && Antichain(kids[i], s)
    ensures KidsTotal(kids, s, bw) <= KidsRatio(kids, bw)
    decreases kids, 0
  {
    if kids != [] {
      AntichainBound(kids[0], s, bw, limit);
      KidsBound(kids[1..], s, bw, limit);
    }
  }

  // ------------------------------------------------------------------
  // The same for the shares themselves
  // ------------------------------------------------------------------

  /** The part of a CPU that a setting promises; no limit is the whole. */
  ghost function Share(b: Bandwidth): real
    requires b.period > 0
  {
    if b.runtime == RUNTIME_INF then 1.0 else b.runtime as real / b.period as real
  }

  /** The shift by 20 bits stays within 64. */
  predicate Shiftable(b: Bandwidth) {
    b.runtime == RUNTIME_INF || b.runtime * ONE < U64
  }

  ghost function Times(x: real, y: real): real { x * y }

  lemma TimesOrder(x: real, y: real, p: real)
    requires p > 0.0
    ensures Times(x, p) < Times(y, p) <==> x < y
    ensures Times(y, p) < Times(x, p) <==> y < x
  {
    if x < y {
      assert (y - x) * p > 0.0;
    } else if y < x {
      assert (x - y) * p > 0.0;
    }
  }

  lemma TimesQuotient(x: real, p: real)
    requires p > 0.0
    ensures Times(x / p, p) == x
  {
  }

  lemma TimesInt(a: int, b: int)
    ensures (a * b) as real == Times(a as real, b as real)
  {
  }

  lemma TimesOne(x: real, p: real)
    ensures Times(x * ONE as real, p) == Times(x, p) * ONE as real
  {
  }

  lemma RealQuotient(x: nat, p: nat, q: nat)
    requires p > 0 && q * p <= x < (q + 1) * p
    ensures q as real <= x as real / p as real < q as real + 1.0
  {
    hide Times;
    TimesQuotient(x as real, p as real);
    TimesInt(q, p);
    TimesInt(q + 1, p);
    TimesOrder(x as real / p as real, (q + 1) as real, p as real);
    TimesOrder(x as real / p as real, q as real, p as real);
  }

  lemma RealScale(x: nat, p: nat)
    requires p > 0
    ensures (x * ONE) as real / p as real == x as real / p as real * ONE as real
  {
    hide Times;
    TimesQuotient(x as real, p as real);
    TimesQuotient((x * ONE) as real, p as real);
    TimesOne(x as real / p as real, p as real);
    TimesOrder((x * ONE) as real / p as real, x as real / p as real * ONE as real, p as real);
  }

  /** to_ratio is the share in units of 2^-20, cut off. */
  lemma {:induction false} RatioIsShare(b: Bandwidth)
    requires Fits(b) && Shiftable(b)
    ensures ToRatio(b) as real <= Share(b) * ONE as real < ToRatio(b) as real + 1.0
  {
    RatioBound(b);
    if b.runtime != RUNTIME_INF {
      var x := b.runtime * ONE;
      assert x / b.period * b.period <= x < (x / b.period + 1) * b.period;
      RealQuotient(x, b.period, x / b.period);
      RealScale(b.runtime, b.period);
    }
  }

  ghost function TotalShare(t: Tree, s: set<nat>, bw: seq<Bandwidth>): real
    requires Periods(bw)
  {
    (if t.id in s then Share(Of(bw, t.id)) else 0.0) + KidsShare(t.kids, s, bw)
  }

  ghost function KidsShare(kids: seq<Tree>, s: set<nat>, bw: seq<Bandwidth>): real
    requires Periods(bw)
  {
    if kids == [] then 0.0 else TotalShare(kids[0], s, bw) + KidsShare(kids[1..], s, bw)
  }

  ghost predicate AllShiftable(bw: seq<Bandwidth>) {
    forall i :: 0 <= i < |bw| ==> Shiftable(bw[i])
  }

  /** Every cut-off hides less than one unit. */
  lemma {:induction false} ShareBound(t: Tree, s: set<nat>, bw: seq<Bandwidth>, limit: nat)
    requires Admissible(t, bw, limit) && DistinctIds(t) && Periods(bw) && AllShiftable(bw)
    ensures TotalShare(t, s, bw) * ONE as real <= (Total(t, s, bw) + |s * Ids(t)|) as real
    decreases t, 1
  {
    hide Share, ToRatio;
    KidsShareBound(t.kids, s, bw, limit);
    RatioIsShare(Of(bw, t.id));
    if t.id in s {
      assert s * Ids(t) == (s * KidsIds(t.kids)) + {t.id};
    } else {
      assert s * Ids(t) == s * KidsIds(t.kids);
    }
  }

  lemma {:induction false} KidsShareBound(kids: seq<Tree>, s: set<nat>, bw: seq<Bandwidth>, limit: nat)
    requires forall i :: 0 <= i < |kids| ==> Admissible(kids[i], bw, limit)
    requires DistinctKids(kids) && Periods(bw) && AllShiftable(bw)
    ensures KidsShare(kids, s, bw) * ONE as real <= (KidsTotal(kids, s, bw) + |s * KidsIds(kids)|) as real
    decreases kids, 0
  {
    hide TotalShare, Total, Admissible, Ids, DistinctIds, Shiftable;
    if kids == [] {
      assert s * KidsIds(kids) == {};
    } else {
      ShareBound(kids[0], s, bw, limit);
      KidsShareBound(kids[1..], s, bw, limit);
      Apart(s, Ids(kids[0]), KidsIds(kids[1..]));
    }
  }

  lemma {:induction false} Apart(s: set<nat>, a: set<nat>, b: set<nat>)
    requires a !! b
    ensures |s * (a + b)| == |s * a| + |s * b|
  {
    assert s * (a + b) == (s * a) + (s * b);
  }

  /** So any groups of which none is below another are together promised at most the limit's
      share and a millionth for each. */
  lemma {:induction false} SharesWithin(t: Tree, s: set<nat>, bw: seq<Bandwidth>, limit: Bandwidth)
    requires Fits(limit) && Admissible(t, bw, ToRatio(limit)) && Antichain(t, s) && DistinctIds(t)
    requires Periods(bw) && AllShiftable(bw) && Shiftable(limit)
    ensures TotalShare(t, s, bw) <= Share(limit) + |s * Ids(t)| as real / ONE as real
  {
    hide Share, ToRatio, TotalShare, Total, Admissible, Antichain;
    ShareBound(t, s, bw, ToRatio(limit));
    AntichainBound(t, s, bw, ToRatio(limit));
    RatioIsShare(limit);
    assert TotalShare(t, s, bw) * ONE as real <= Share(limit) * ONE as real + |s * Ids(t)| as real;
  }

  // ------------------------------------------------------------------
  // tg_rt_schedulable, and what the walk makes of it
  // ------------------------------------------------------------------

  /** The sum over the children, in an unsigned long. */
  function WrappedSum(sum: nat, children: seq<nat>, bw: seq<Bandwidth>): nat
    decreases |children|
  {
    if children == [] then sum
    else WrappedSum((sum + ToRatio(Of(bw, children[0]))) % ULONG, children[1..], bw)
  }

  function ChildrenOf(kids: seq<seq<nat>>, tg: nat): seq<nat> {
    if tg < |kids| then kids[tg] else []
  }

  /** root_task_group */
  const ROOT: nat := 0

  /** tg_has_rt_tasks, as it is written: it compares the group with that of the queue embedded in the
      run queue of each real-time task's CPU, and that queue is always the root group's. So it finds
      every real-time task, of whatever group, in the root group. The busy groups are those that
      really have such tasks. */
  predicate TgHasRtTasks(tg: nat, busy: set<nat>) {
    tg == ROOT && busy != {}
  }

  /** tg_rt_schedulable, over the settings as they would be */
  function Schedulable(tg: nat, kids: seq<seq<nat>>, bw: seq<Bandwidth>, busy: set<nat>, enabled: bool,
          limit: nat): int {
    var b := Of(bw, tg);
    if b.runtime > b.period && b.runtime != RUNTIME_INF then EINVAL
    else if enabled && b.runtime == 0 && TgHasRtTasks(tg, busy) then EBUSY
    else if ToRatio(b) > limit then EINVAL
    else if WrappedSum(0, ChildrenOf(kids, tg), bw) > ToRatio(b) then EINVAL
    else 0
  }

  /** The children lists are those of the tree. */
  ghost predicate Listed(t: Tree, kids: seq<seq<nat>>) {
    && t.id < |kids| && kids[t.id] == IdList(t.kids)
    && forall i :: 0 <= i < |t.kids| ==> Listed(t.kids[i], kids)
  }

  ghost function IdList(kids: seq<Tree>): seq<nat> {
    if kids == [] then [] else [kids[0].id] + IdList(kids[1..])
  }

  ghost predicate DistinctIds(t: Tree) {
    t.id !in KidsIds(t.kids) && DistinctKids(t.kids)
  }

  ghost predicate DistinctKids(kids: seq<Tree>) {
    kids == [] || (DistinctIds(kids[0]) && DistinctKids(kids[1..]) && Ids(kids[0]) !! KidsIds(kids[1..]))
  }

  lemma {:induction false} NoWrap(sum: nat, kids: seq<Tree>, bw: seq<Bandwidth>)
    requires sum + KidsRatio(kids, bw) < ULONG
    ensures WrappedSum(sum, IdList(kids), bw) == sum + KidsRatio(kids, bw)
    decreases |kids|
  {
    hide ToRatio, Of;
    if kids != [] {
      assert IdList(kids)[1..] == IdList(kids[1..]);
      var next := sum + ToRatio(Of(bw, kids[0].id));
      InWord(next);
      NoWrap(next, kids[1..], bw);
    }
  }

  lemma InWord(x: nat)
    requires x < ULONG
    ensures x % ULONG == x
  {
  }

  /** Changing one setting adds at most one whole ratio to a sum. */
  lemma {:induction false} ChangeBound(kids: seq<Tree>, bw: seq<Bandwidth>, c: nat, b: Bandwidth)
    requires DistinctKids(kids) && c < |bw| && ToRatio(b) <= ONE
    ensures KidsRatio(kids, bw[c := b]) <= KidsRatio(kids, bw) + if c in KidsIds(kids) then ONE else 0
  {
    if kids != [] {
      ChangeBound(kids[1..], bw, c, b);
      assert kids[0].id in Ids(kids[0]);
    }
  }

  /** Every group of the tree passes. */
  ghost predicate AllPass(t: Tree, kids: seq<seq<nat>>, bw: seq<Bandwidth>, busy: set<nat>, enabled: bool, limit: nat) {
    && Schedulable(t.id, kids, bw, busy, enabled, limit) == 0
    && forall i :: 0 <= i < |t.kids| ==> AllPass(t.kids[i], kids, bw, busy, enabled, limit)
  }

  /** No group of the tree is refused as busy. */
  ghost predicate NoneBusy(t: Tree, bw: seq<Bandwidth>, busy: set<nat>, enabled: bool) {
    && !(enabled && Of(bw, t.id).runtime == 0 && TgHasRtTasks(t.id, busy))
    && forall i :: 0 <= i < |t.kids| ==> NoneBusy(t.kids[i], bw, busy, enabled)
  }

  /** The root group has runtime if there are any real-time tasks and there is a limit. */
  ghost predicate RootFed(bw: seq<Bandwidth>, busy: set<nat>, enabled: bool) {
    enabled && busy != {} ==> Of(bw, ROOT).runtime != 0
  }

  /** That is all the test amounts to. */
  lemma {:induction false} NoneBusyIff(t: Tree, bw: seq<Bandwidth>, busy: set<nat>, enabled: bool)
    ensures NoneBusy(t, bw, busy, enabled) <==> (ROOT in Ids(t) ==> RootFed(bw, busy, enabled))
  {
    hide Of;
    forall i | 0 <= i < |t.kids|
      ensures NoneBusy(t.kids[i], bw, busy, enabled) <==> (ROOT in Ids(t.kids[i]) ==> RootFed(bw, busy, enabled))
      ensures Ids(t.kids[i]) <= Ids(t)
    {
      NoneBusyIff(t.kids[i], bw, busy, enabled);
      KidIds(t.kids, i);
    }
    if ROOT in Ids(t) && ROOT != t.id {
      var i := KidWith(t.kids, ROOT);
    }
  }

  ghost predicate Periods(bw: seq<Bandwidth>) {
    forall i :: 0 <= i < |bw| ==> bw[i].period > 0
  }

  /** Settings that are in order pass, because no sum can wrap. */
  lemma {:induction false} AdmissiblePasses(t: Tree, kids: seq<seq<nat>>, bw: seq<Bandwidth>, busy: set<nat>,
          enabled: bool, limit: nat)
    requires Listed(t, kids) && Admissible(t, bw, limit) && NoneBusy(t, bw, busy, enabled)
    ensures AllPass(t, kids, bw, busy, enabled, limit)
  {
    RatioBound(Of(bw, t.id));
    NoWrap(0, t.kids, bw);
    forall i | 0 <= i < |t.kids| ensures AllPass(t.kids[i], kids, bw, busy, enabled, limit) {
      AdmissiblePasses(t.kids[i], kids, bw, busy, enabled, limit);
    }
  }

  /** Every sum stays in range, because at most one setting differs from those that were in order. */
  ghost predicate SumsFit(t: Tree, bw: seq<Bandwidth>) {
    KidsRatio(t.kids, bw) < ULONG && forall i :: 0 <= i < |t.kids| ==> SumsFit(t.kids[i], bw)
  }

  lemma {:induction false} PassingAdmissible(t: Tree, kids: seq<seq<nat>>, bw: seq<Bandwidth>, busy: set<nat>,
          enabled: bool, limit: nat)
    requires Listed(t, kids) && AllPass(t, kids, bw, busy, enabled, limit) && SumsFit(t, bw) && Periods(bw)
    ensures Admissible(t, bw, limit) && NoneBusy(t, bw, busy, enabled)
  {
    NoWrap(0, t.kids, bw);
    forall i | 0 <= i < |t.kids| ensures Admissible(t.kids[i], bw, limit) && NoneBusy(t.kids[i], bw, busy, enabled) {
      PassingAdmissible(t.kids[i], kids, bw, busy, enabled, limit);
    }
  }

  lemma {:induction false} AdmissibleSums(t: Tree, bw: seq<Bandwidth>, limit: nat)
    requires Admissible(t, bw, limit)
    ensures SumsFit(t, bw)
  {
    RatioBound(Of(bw, t.id));
    forall i | 0 <= i < |t.kids| ensures SumsFit(t.kids[i], bw) { AdmissibleSums(t.kids[i], bw, limit); }
  }

  lemma {:induction false} ChangedSums(t: Tree, bw: seq<Bandwidth>, limit: nat, c: nat, b: Bandwidth)
    requires Admissible(t, bw, limit) && DistinctIds(t) && c < |bw| && ToRatio(b) <= ONE
    ensures SumsFit(t, bw[c := b])
  {
    RatioBound(Of(bw, t.id));
    ChangeBound(t.kids, bw, c, b);
    forall i | 0 <= i < |t.kids| ensures SumsFit(t.kids[i], bw[c := b]) {
      KidDistinct(t.kids, i);
      ChangedSums(t.kids[i], bw, limit, c, b);
    }
  }

  lemma {:induction false} KidDistinct(kids: seq<Tree>, i: nat)
    requires DistinctKids(kids) && i < |kids|
    ensures DistinctIds(kids[i])
  {
    if i > 0 { KidDistinct(kids[1..], i - 1); }
  }

  /** A group that is in the tree is checked. */
  lemma {:induction false} MemberPasses(t: Tree, kids: seq<seq<nat>>, bw: seq<Bandwidth>, busy: set<nat>,
          enabled: bool, limit: nat, c: nat)
    requires AllPass(t, kids, bw, busy, enabled, limit) && c in Ids(t)
    ensures Schedulable(c, kids, bw, busy, enabled, limit) == 0
  {
    if c != t.id {
      var i := KidWith(t.kids, c);
      MemberPasses(t.kids[i], kids, bw, busy, enabled, limit, c);
    }
  }

  lemma {:induction false} KidWith(kids: seq<Tree>, c: nat) returns (i: nat)
    requires c in KidsIds(kids)
    ensures i < |kids| && c in Ids(kids[i])
  {
    if c in Ids(kids[0]) { i := 0; } else {
      var j := KidWith(kids[1..], c);
      i := j + 1;
    }
  }

  /** The check decides exactly, although its sums are machine words: a change of one group's setting
      passes if and only if the new settings are in order and the root group is left with runtime
      should there be any real-time task. */
  lemma {:induction false} ChangeDecided(t: Tree, kids: seq<seq<nat>>, bw: seq<Bandwidth>, c: nat, b: Bandwidth,
                        busy: set<nat>, enabled: bool, limit: nat)
    requires Listed(t, kids) && DistinctIds(t) && Admissible(t, bw, limit) && Periods(bw)
    requires c in Ids(t) && c < |bw| && b.period > 0
    ensures AllPass(t, kids, bw[c := b], busy, enabled, limit)
       <==> Admissible(t, bw[c := b], limit) && (ROOT in Ids(t) ==> RootFed(bw[c := b], busy, enabled))
  {
    NoneBusyIff(t, bw[c := b], busy, enabled);
    if AllPass(t, kids, bw[c := b], busy, enabled, limit) {
      MemberPasses(t, kids, bw[c := b], busy, enabled, limit, c);
      RatioBound(b);
      ChangedSums(t, bw, limit, c, b);
      PassingAdmissible(t, kids, bw[c := b], busy, enabled, limit);
    }
    if Admissible(t, bw[c := b], limit) && NoneBusy(t, bw[c := b], busy, enabled) {
      AdmissiblePasses(t, kids, bw[c := b], busy, enabled, limit);
    }
  }

  /** A change of the global limit passes if and only if every group still fits under it, on the same
      condition. */
  lemma {:induction false} LimitDecided(t: Tree, kids: seq<seq<nat>>, bw: seq<Bandwidth>, busy: set<nat>,
          enabled: bool, before: nat, limit: nat)
    requires Listed(t, kids) && Admissible(t, bw, before) && Periods(bw)
    ensures AllPass(t, kids, bw, busy, enabled, limit)
       <==> Admissible(t, bw, limit) && (ROOT in Ids(t) ==> RootFed(bw, busy, enabled))
  {
    NoneBusyIff(t, bw, busy, enabled);
    AdmissibleSums(t, bw, before);
    if AllPass(t, kids, bw, busy, enabled, limit) { PassingAdmissible(t, kids, bw, busy, enabled, limit); }
    if Admissible(t, bw, limit) && NoneBusy(t, bw, busy, enabled) {
      AdmissiblePasses(t, kids, bw, busy, enabled, limit);
    }
  }

  // ------------------------------------------------------------------
  // The walk over all groups
  // ------------------------------------------------------------------

  function Checker(kids: seq<seq<nat>>, bw: seq<Bandwidth>, busy: set<nat>, enabled: bool, limit: nat): Visitor<()> {
    (tg: nat, u: ()) => ((), Schedulable(tg, kids, bw, busy, enabled, limit))
  }

  /** tg_nop */
  function Nop(): Visitor<()> {
    (tg: nat, u: ()) => ((), 0)
  }

  lemma {:induction false} RunAppend(down: Visitor<()>, up: Visitor<()>, a: seq<Event>, b: seq<Event>)
    ensures Run(down, up, a + b, ()).1 == 0 <==> Run(down, up, a, ()).1 == 0 && Run(down, up, b, ()).1 == 0
  {
    if a == [] {
      assert a + b == b;
    } else {
      assert (a + b)[0] == a[0] && (a + b)[1..] == a[1..] + b;
      assert Visit(down, up, a[0], ()).0 == ();
      RunAppend(down, up, a[1..], b);
    }
  }

  /** The walk returns 0 exactly when every group passes. */
  lemma {:induction false} WalkDecides(t: Tree, kids: seq<seq<nat>>, bw: seq<Bandwidth>, busy: set<nat>,
          enabled: bool, limit: nat)
    ensures Run(Checker(kids, bw, busy, enabled, limit), Nop(), Events(t), ()).1 == 0
       <==> AllPass(t, kids, bw, busy, enabled, limit)
    decreases t, 1
  {
    var down := Checker(kids, bw, busy, enabled, limit);
    KidsDecide(t.kids, kids, bw, busy, enabled, limit);
    RunAppend(down, Nop(), [Down(t.id)], KidsEvents(t.kids) + [Up(t.id)]);
    RunAppend(down, Nop(), KidsEvents(t.kids), [Up(t.id)]);
    assert Events(t) == [Down(t.id)] + (KidsEvents(t.kids) + [Up(t.id)]);
    RunStep(down, Nop(), [Down(t.id)], ());
    RunStep(down, Nop(), [Up(t.id)], ());
  }

  lemma {:induction false} KidsDecide(ts: seq<Tree>, kids: seq<seq<nat>>, bw: seq<Bandwidth>, busy: set<nat>,
          enabled: bool, limit: nat)
    ensures Run(Checker(kids, bw, busy, enabled, limit), Nop(), KidsEvents(ts), ()).1 == 0
       <==> forall i :: 0 <= i < |ts| ==> AllPass(ts[i], kids, bw, busy, enabled, limit)
    decreases ts, 0
  {
    if ts != [] {
      WalkDecides(ts[0], kids, bw, busy, enabled, limit);
      KidsDecide(ts[1..], kids, bw, busy, enabled, limit);
      RunAppend(Checker(kids, bw, busy, enabled, limit), Nop(), Events(ts[0]), KidsEvents(ts[1..]));
      AllPassSplit(ts, kids, bw, busy, enabled, limit);
    }
  }

  lemma {:induction false} AllPassSplit(ts: seq<Tree>, kids: seq<seq<nat>>, bw: seq<Bandwidth>, busy: set<nat>,
          enabled: bool, limit: nat)
    requires ts != []
    ensures (forall i :: 0 <= i < |ts| ==> AllPass(ts[i], kids, bw, busy, enabled, limit))
       <==> AllPass(ts[0], kids, bw, busy, enabled, limit)
            && forall i :: 0 <= i < |ts[1..]| ==> AllPass(ts[1..][i], kids, bw, busy, enabled, limit)
  {
    if forall i :: 0 <= i < |ts| ==> AllPass(ts[i], kids, bw, busy, enabled, limit) {
      forall i | 0 <= i < |ts[1..]| ensures AllPass(ts[1..][i], kids, bw, busy, enabled, limit) {
        assert ts[1..][i] == ts[i + 1];
      }
    } else {
      var i :| 0 <= i < |ts| && !AllPass(ts[i], kids, bw, busy, enabled, limit);
      if i > 0 { assert ts[1..][i - 1] == ts[i]; }
    }
  }

  /** What the walk refuses with: -EBUSY, before anything else, if the root group is to have no runtime
      while there are real-time tasks, and -EINVAL for every other reason. */
  lemma {:induction false} RefusalCode(t: Tree, kids: seq<seq<nat>>, bw: seq<Bandwidth>, busy: set<nat>,
          enabled: bool, limit: nat)
    requires t.id == 0
    ensures
      var ret := Run(Checker(kids, bw, busy, enabled, limit), Nop(), Events(t), ()).1;
      if enabled && busy != {} && Of(bw, 0).runtime == 0 then ret == -16 else ret == 0 || ret == -22
  {
    hide ToRatio;
    if enabled && busy != {} && Of(bw, 0).runtime == 0 {
      assert Events(t)[0] == Down(0);
    } else {
      NeverBusy(kids, bw, busy, enabled, limit, Events(t));
    }
  }

  lemma {:induction false} NeverBusy(kids: seq<seq<nat>>, bw: seq<Bandwidth>, busy: set<nat>, enabled: bool,
          limit: nat, events: seq<Event>)
    requires !(enabled && busy != {} && Of(bw, 0).runtime == 0)
    ensures var ret := Run(Checker(kids, bw, busy, enabled, limit), Nop(), events, ()).1; ret == 0 || ret == -22
  {
    hide ToRatio;
    if events != [] {
      assert Visit(Checker(kids, bw, busy, enabled, limit), Nop(), events[0], ()).0 == ();
      NeverBusy(kids, bw, busy, enabled, limit, events[1..]);
    }
  }

  // ------------------------------------------------------------------
  // A new group
  // ------------------------------------------------------------------

  lemma {:induction false} RatiosSame(kids: seq<Tree>, parent: nat, id: nat, bw: seq<Bandwidth>, bw': seq<Bandwidth>)
    requires bw <= bw' && forall c :: c in KidsIds(kids) ==> c < |bw|
    ensures KidsRatio(WithChildIn(kids, parent, id), bw') == KidsRatio(kids, bw)
  {
    if kids != [] {
      assert kids[0].id in Ids(kids[0]) && Ids(kids[0]) <= KidsIds(kids) && KidsIds(kids[1..]) <= KidsIds(kids);
      RatiosSame(kids[1..], parent, id, bw, bw');
    }
  }

  lemma {:induction false} CreateSound(t: Tree, parent: nat, id: nat, bw: seq<Bandwidth>, b: Bandwidth, limit: nat)
    requires Sound(t, bw, limit) && (forall c :: c in Ids(t) ==> c < |bw|) && id == |bw|
    requires b.period > 0 && b.runtime == 0
    ensures Sound(WithChild(t, parent, id), bw + [b], limit)
  {
    assert t.id in Ids(t) && KidsIds(t.kids) <= Ids(t);
    RatiosSame(t.kids, parent, id, bw, bw + [b]);
    assert ToRatio(b) == 0;
    var rest := WithChildIn(t.kids, parent, id);
    assert [] + rest == rest && ([Node(id, [])] + rest)[1..] == rest;
  }

  /** A group that is created without runtime disturbs nobody. */
  lemma {:induction false} CreateAdmissible(t: Tree, parent: nat, id: nat, bw: seq<Bandwidth>, b: Bandwidth, limit: nat)
    requires Admissible(t, bw, limit) && (forall c :: c in Ids(t) ==> c < |bw|) && id == |bw|
    requires b.period > 0 && b.runtime == 0
    ensures Admissible(WithChild(t, parent, id), bw + [b], limit)
  {
    hide Sound;
    CreateSound(t, parent, id, bw, b, limit);
    var rest := WithChildIn(t.kids, parent, id);
    forall i | 0 <= i < |t.kids| ensures Admissible(rest[i], bw + [b], limit) {
      KidIds(t.kids, i);
      assert KidsIds(t.kids) <= Ids(t);
      CreateAdmissible(t.kids[i], parent, id, bw, b, limit);
    }
    if t.id == parent { LeafAdmissible(id, bw, b, limit); }
  }

  lemma LeafAdmissible(id: nat, bw: seq<Bandwidth>, b: Bandwidth, limit: nat)
    requires id == |bw| && b.period > 0 && b.runtime == 0
    ensures Admissible(Node(id, []), bw + [b], limit)
  {
    assert ToRatio(b) == 0;
  }

  lemma {:induction false} GrownIds(t: Tree, p: nat, id: nat)
    ensures Ids(t) <= Ids(WithChild(t, p, id)) <= Ids(t) + {id}
    decreases t, 1
  {
    GrownKidsIds(t.kids, p, id);
    var r := WithChild(t, p, id);
    var rest := WithChildIn(t.kids, p, id);
    if t.id == p {
      assert r.kids[0] == Node(id, []) && r.kids[1..] == rest;
      assert Ids(Node(id, [])) == {id};
    } else {
      assert r.kids == rest;
    }
  }

  lemma {:induction false} GrownKidsIds(kids: seq<Tree>, p: nat, id: nat)
    ensures KidsIds(kids) <= KidsIds(WithChildIn(kids, p, id)) <= KidsIds(kids) + {id}
    decreases kids, 0
  {
    if kids != [] {
      GrownIds(kids[0], p, id);
      GrownKidsIds(kids[1..], p, id);
    }
  }

  /** The new group is in the tree. */
  lemma {:induction false} NewIdIn(t: Tree, p: nat, id: nat)
    requires p in Ids(t)
    ensures id in Ids(WithChild(t, p, id))
  {
    var rest := WithChildIn(t.kids, p, id);
    if t.id == p {
      var kids := [Node(id, [])] + rest;
      KidIds(kids, 0);
      assert id in Ids(kids[0]);
    } else {
      var i := KidWith(t.kids, p);
      NewIdIn(t.kids[i], p, id);
      KidIds(rest, i);
      assert [] + rest == rest;
    }
  }

  /** A group that is not in the tree gets no child there. */
  lemma {:induction false} NotHere(t: Tree, p: nat, id: nat)
    requires p !in Ids(t)
    ensures WithChild(t, p, id) == t
    decreases t, 1
  {
    NotInKids(t.kids, p, id);
    assert WithChildIn(t.kids, p, id) == t.kids;
  }

  lemma {:induction false} NotInKids(kids: seq<Tree>, p: nat, id: nat)
    requires p !in KidsIds(kids)
    ensures WithChildIn(kids, p, id) == kids
    decreases kids, 0
  {
    if kids != [] {
      NotHere(kids[0], p, id);
      NotInKids(kids[1..], p, id);
    }
  }

  lemma {:induction false} GrownDistinct(t: Tree, p: nat, id: nat)
    requires DistinctIds(t) && id !in Ids(t)
    ensures DistinctIds(WithChild(t, p, id))
    decreases t, 1
  {
    GrownKidsDistinct(t.kids, p, id);
    GrownKidsIds(t.kids, p, id);
    var rest := WithChildIn(t.kids, p, id);
    var r := WithChild(t, p, id);
    if t.id == p {
      NotInKids(t.kids, p, id);
      assert r.kids[0] == Node(id, []) && r.kids[1..] == rest == t.kids;
      assert Ids(Node(id, [])) == {id} && DistinctIds(Node(id, []));
    } else {
      assert r.kids == rest;
    }
  }

  lemma {:induction false} GrownKidsDistinct(kids: seq<Tree>, p: nat, id: nat)
    requires DistinctKids(kids) && id !in KidsIds(kids)
    ensures DistinctKids(WithChildIn(kids, p, id))
    decreases kids, 0
  {
    if kids != [] {
      GrownDistinct(kids[0], p, id);
      GrownKidsDistinct(kids[1..], p, id);
      GrownIds(kids[0], p, id);
      GrownKidsIds(kids[1..], p, id);
      if p in Ids(kids[0]) { NotInKids(kids[1..], p, id); } else { NotHere(kids[0], p, id); }
    }
  }

  lemma {:induction false} SameIdList(kids: seq<Tree>, p: nat, id: nat)
    ensures IdList(WithChildIn(kids, p, id)) == IdList(kids)
  {
    if kids != [] { SameIdList(kids[1..], p, id); }
  }

  lemma {:induction false} GrownListed(t: Tree, kids: seq<seq<nat>>, p: nat)
    requires Listed(t, kids) && p < |kids|
    ensures Listed(WithChild(t, p, |kids|), kids[p := [|kids|] + kids[p]] + [[]])
  {
    var n := |kids|;
    var kids' := kids[p := [n] + kids[p]] + [[]];
    var rest := WithChildIn(t.kids, p, n);
    SameIdList(t.kids, p, n);
    forall i | 0 <= i < |t.kids| ensures Listed(rest[i], kids') {
      GrownListed(t.kids[i], kids, p);
    }
    var leaf := Node(n, []);
    assert Listed(leaf, kids');
    assert ([leaf] + rest)[1..] == rest && [] + rest == rest;
  }
}
