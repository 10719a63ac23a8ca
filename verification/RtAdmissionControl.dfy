/** The settings of every task group and the calls that change them (core.c). */
module RtAdmissionControl {
  import opened Arithmetic
  import opened Errors
  import opened Options
  import opened TaskGroupWalk
  import opened RtAdmission

  const NSEC_PER_USEC: nat := 1000

  /** What a long or an int holds */
  predicate InLong(v: int) {
    -0x8000_0000 <= v < 0x8000_0000
  }

  /** What sched_group_set_rt_runtime makes of its argument */
  function Requested(runtimeUs: int): (r: nat)
    ensures runtimeUs < 0 ==> r == 0xFFFF_FFFF_FFFF_FFFF
    ensures InLong(runtimeUs) && runtimeUs >= 0 ==> r == runtimeUs * 1000
  {
    if runtimeUs < 0 then RUNTIME_INF else runtimeUs * NSEC_PER_USEC % U64
  }

  class AdmissionControl {
    const groups: TaskGroups
    var kids: seq<seq<nat>>       // the children lists, as list_for_each_entry_rcu reads them
    var bw: seq<Bandwidth>        // tg->rt_bandwidth
    var busy: set<nat>            // the groups that have real-time tasks
    var sysctlPeriod: nat         // sysctl_sched_rt_period, in microseconds
    var sysctlRuntime: int        // sysctl_sched_rt_runtime; negative for no limit
    var defPeriod: nat            // def_rt_bandwidth.rt_period
    ghost var root: Tree

    /** global_rt_period and global_rt_runtime */
    function Global(): Bandwidth
      reads this
    {
      Bandwidth(sysctlPeriod * NSEC_PER_USEC,
                if sysctlRuntime < 0 then RUNTIME_INF else sysctlRuntime * NSEC_PER_USEC)
    }

    ghost predicate Tied()
      reads this, groups
    {
      && root.id == 0 && Below(root, groups.LinksOf()) && DistinctIds(root) && Listed(root, kids)
      && |bw| == |kids| == |groups.parent| == |groups.firstChild| == |groups.nextSibling|
      && (forall c :: c in Ids(root) <==> 0 <= c < |bw|)
      && Periods(bw) && defPeriod > 0 && (forall c :: c in busy ==> c < |bw|)
    }

    /** Every set of groups of which none is below another is promised at most the global share. */
    ghost predicate Valid()
      reads this, groups
    {
      Tied() && Fits(Global()) && Admissible(root, bw, ToRatio(Global()))
    }

    /** What the test for busy groups is for: while there is a limit at all, every group with
        real-time tasks has runtime. */
    ghost predicate Fed()
      reads this
    {
      sysctlRuntime >= 0 ==> forall c :: c in busy && c < |bw| ==> bw[c].runtime != 0
    }

    /** sched_init */
    constructor (period: nat, runtime: int)
      requires period > 0 && runtime * NSEC_PER_USEC <= period * NSEC_PER_USEC
      ensures Valid() && fresh(groups) && busy == {} && (InLong(runtime) ==> NoOverflow())
      ensures Fed() && root == Node(0, []) && sysctlPeriod == period && sysctlRuntime == runtime
      ensures |bw| == 1 && bw[0] == Global() && defPeriod == Global().period == period * 1000
      ensures bw[0].runtime == if runtime < 0 then 0xFFFF_FFFF_FFFF_FFFF else runtime * 1000
    {
      groups := new TaskGroups();
      kids := [[]];
      sysctlPeriod, sysctlRuntime := period, runtime;
      var g := Bandwidth(period * NSEC_PER_USEC, if runtime < 0 then RUNTIME_INF else runtime * NSEC_PER_USEC);
      bw := [g];
      busy := {};
      defPeriod := period * NSEC_PER_USEC;
      root := Node(0, []);
      new;
      assert Ids(root) == {0};
    }

    lemma Bound(s: set<nat>)
      requires Valid() && Antichain(root, s)
      ensures Total(root, s, bw) <= ToRatio(Global()) <= ONE
    {
      AntichainBound(root, s, bw, ToRatio(Global()));
      RatioBound(Global());
    }

    /** No shift overflows: a long, as an int, has 32 bits, and a runtime in it fits. */
    ghost predicate NoOverflow()
      reads this
    {
      AllShiftable(bw) && Shiftable(Global())
    }

    /** The same for the shares that runtime and period stand for, to within the cut-offs */
    lemma SharesBound(s: set<nat>)
      requires Valid() && NoOverflow() && Antichain(root, s)
      ensures TotalShare(root, s, bw) <= Share(Global()) + |s * Ids(root)| as real / ONE as real
      ensures Share(Global()) <= 1.0
    {
      SharesWithin(root, s, bw, Global());
      GlobalShare();
    }

    lemma GlobalShare()
      requires Fits(Global())
      ensures Share(Global()) <= 1.0
    {
      var g := Global();
      if g.runtime != RUNTIME_INF {
        TimesQuotient(g.runtime as real, g.period as real);
        TimesOrder(1.0, g.runtime as real / g.period as real, g.period as real);
      }
    }

    /** The settings as they would be; d->tg is NULL when only the global limit changes. */
    function Effective(tg: Option<nat>, b: Bandwidth): seq<Bandwidth>
      requires tg.Some? ==> tg.value < |bw|
      reads this
    {
      if tg.Some? then bw[tg.value := b] else bw
    }

    /** The first verdict of the walk that is not 0, or 0 */
    ghost function FirstVerdict(tg: Option<nat>, b: Bandwidth): int
      requires tg.Some? ==> tg.value < |bw|
      reads this
    {
      Run(Checker(kids, Effective(tg, b), busy, sysctlRuntime >= 0, ToRatio(Global())), Nop(), Events(root), ()).1
    }

    /** __rt_schedulable */
    method RtSchedulable(tg: Option<nat>, b: Bandwidth) returns (ret: int)
      requires Tied() && (tg.Some? ==> tg.value < |bw|)
      ensures ret == 0 <==> AllPass(root, kids, Effective(tg, b), busy, sysctlRuntime >= 0, ToRatio(Global()))
      ensures ret == FirstVerdict(tg, b)
      ensures sysctlRuntime >= 0 && busy != {} && Effective(tg, b)[0].runtime == 0 ==> ret == -16
      ensures !(sysctlRuntime >= 0 && busy != {} && Effective(tg, b)[0].runtime == 0) ==> ret == 0 || ret == -22
    {
      var effective := Effective(tg, b);
      var enabled, limit := sysctlRuntime >= 0, ToRatio(Global());
      var _, verdict := groups.WalkTgTreeFrom(0, Checker(kids, effective, busy, enabled, limit), Nop(), (), root);
      ret := verdict;
      WalkDecides(root, kids, effective, busy, enabled, limit);
      RefusalCode(root, kids, effective, busy, enabled, limit);
    }

    /** tg_set_rt_bandwidth: admitted exactly when the new settings are in order and leave the root
        group runtime should there be any real-time task; a rejected change leaves everything as it
        was. A group that has such tasks itself is starved exactly by a runtime of 0 that passes,
        and for the root group none does. */
    method TgSetRtBandwidth(tg: nat, period: nat, runtime: nat) returns (err: int)
      requires Valid() && tg < |bw| && period > 0
      modifies this
      ensures Valid() && root == old(root) && kids == old(kids) && busy == old(busy)
      ensures sysctlPeriod == old(sysctlPeriod) && sysctlRuntime == old(sysctlRuntime) && defPeriod == old(defPeriod)
      ensures err == 0 <==> Admissible(root, old(bw)[tg := Bandwidth(period, runtime)], ToRatio(Global()))
                            && RootFed(old(bw)[tg := Bandwidth(period, runtime)], busy, sysctlRuntime >= 0)
      ensures bw == if err == 0 then old(bw)[tg := Bandwidth(period, runtime)] else old(bw)
      ensures old(NoOverflow()) && Shiftable(Bandwidth(period, runtime)) ==> NoOverflow()
      ensures err == 0 && old(Fed()) ==> (Fed() <==> sysctlRuntime < 0 || runtime != 0 || tg !in busy)
      ensures err != 0 || tg == ROOT ==> old(Fed()) ==> Fed()
      ensures err == old(FirstVerdict(Some(tg), Bandwidth(period, runtime)))
      ensures
        var starves := sysctlRuntime >= 0 && busy != {} && old(bw)[tg := Bandwidth(period, runtime)][0].runtime == 0;
        if starves then err == -16 else err == 0 || err == -22
    {
      hide Admissible, ToRatio, Below, DistinctIds, Listed;
      var b := Bandwidth(period, runtime);
      err := RtSchedulable(Some(tg), b);
      ChangeDecided(root, kids, bw, tg, b, busy, sysctlRuntime >= 0, ToRatio(Global()));
      if err != 0 {
        return;
      }
      bw := bw[tg := b];
    }

    /** sched_group_set_rt_runtime: a negative value asks for no limit. */
    method SetRtRuntime(tg: nat, runtimeUs: int) returns (err: int)
      requires Valid() && tg < |bw|
      modifies this
      ensures Valid() && root == old(root) && kids == old(kids) && busy == old(busy)
      ensures sysctlPeriod == old(sysctlPeriod) && sysctlRuntime == old(sysctlRuntime) && defPeriod == old(defPeriod)
      ensures var b := Bandwidth(old(bw)[tg].period, Requested(runtimeUs));
              && (err == 0 <==> Admissible(root, old(bw)[tg := b], ToRatio(Global()))
                                && RootFed(old(bw)[tg := b], busy, sysctlRuntime >= 0))
              && bw == (if err == 0 then old(bw)[tg := b] else old(bw))
              && if sysctlRuntime >= 0 && busy != {} && old(bw)[tg := b][0].runtime == 0 then err == -16
                 else err == 0 || err == -22
      ensures old(NoOverflow()) && InLong(runtimeUs) ==> NoOverflow()
      ensures err == 0 && old(Fed()) ==> (Fed() <==> sysctlRuntime < 0 || Requested(runtimeUs) != 0 || tg !in busy)
      ensures err != 0 || tg == ROOT ==> old(Fed()) ==> Fed()
      ensures err == old(FirstVerdict(Some(tg), Bandwidth(bw[tg].period, Requested(runtimeUs))))
      ensures err == 0 && runtimeUs < 0 ==> bw[tg].runtime == 0xFFFF_FFFF_FFFF_FFFF
      ensures err == 0 && InLong(runtimeUs) && runtimeUs >= 0 ==> bw[tg].runtime == runtimeUs * 1000
    {
      hide Admissible, ToRatio, Fits, Below, DistinctIds, Listed, Ids;
      err := TgSetRtBandwidth(tg, bw[tg].period, Requested(runtimeUs));
    }

    /** sched_group_set_rt_period */
    method SetRtPeriod(tg: nat, periodUs: int) returns (err: int)
      requires Valid() && tg < |bw|
      modifies this
      ensures Valid() && root == old(root) && Global() == old(Global()) && busy == old(busy)
      ensures periodUs * NSEC_PER_USEC % U64 == 0 ==> err == EINVAL
      ensures periodUs * NSEC_PER_USEC % U64 != 0 ==>
        var b := Bandwidth(periodUs * 1000 % U64, old(bw)[tg].runtime);
        err == 0 <==> Admissible(root, old(bw)[tg := b], ToRatio(Global()))
                      && RootFed(old(bw)[tg := b], busy, sysctlRuntime >= 0)
      ensures err == 0 || err == -16 || err == -22
      ensures err != 0 ==> bw == old(bw)
      ensures err == 0 ==> bw == old(bw)[tg := Bandwidth(periodUs * NSEC_PER_USEC % U64, old(bw)[tg].runtime)]
      ensures old(NoOverflow()) ==> NoOverflow()
      ensures Fed() <==> old(Fed())
    {
      hide Admissible, ToRatio, Fits, Below, DistinctIds, Listed, Ids;
      var period := periodUs * NSEC_PER_USEC % U64;
      if period == 0 {
        return EINVAL;
      }
      err := TgSetRtBandwidth(tg, period, bw[tg].runtime);
    }

    /** sched_rt_global_constraints, on the values just written */
    method GlobalConstraints() returns (ret: int)
      requires Tied()
      ensures sysctlPeriod == 0 || !Fits(Global()) ==> ret == EINVAL
      ensures sysctlPeriod != 0 && Fits(Global()) ==>
        (ret == 0 <==> AllPass(root, kids, bw, busy, sysctlRuntime >= 0, ToRatio(Global())))
      ensures ret == 0 || ret == -16 || ret == -22
    {
      if sysctlPeriod == 0 {
        return EINVAL;
      }
      var g := Global();
      if g.runtime > g.period && g.runtime != RUNTIME_INF {
        return EINVAL;
      }
      ret := RtSchedulable(None, Bandwidth(0, 0));
    }

    /** sched_rt_handler, for a write: a new limit that not every group fits under is rolled back. */
    method SchedRtHandler(period: nat, runtime: int) returns (ret: int)
      requires Valid()
      modifies this
      ensures Valid() && bw == old(bw) && root == old(root) && kids == old(kids) && busy == old(busy)
      ensures var g := Bandwidth(period * NSEC_PER_USEC, if runtime < 0 then RUNTIME_INF else runtime * NSEC_PER_USEC);
        ret == 0 <==> Fits(g) && Admissible(root, bw, ToRatio(g)) && RootFed(bw, busy, runtime >= 0)
      ensures ret == 0 ==> sysctlPeriod == period && sysctlRuntime == runtime && defPeriod == Global().period
      ensures ret != 0 ==>
        sysctlPeriod == old(sysctlPeriod) && sysctlRuntime == old(sysctlRuntime) && defPeriod == old(defPeriod)
      ensures ret == 0 || ret == -16 || ret == -22
      ensures old(NoOverflow()) && InLong(runtime) ==> NoOverflow()
      ensures ret != 0 ==> (Fed() <==> old(Fed()))
      ensures ret == 0 && old(Fed()) ==>
        (Fed() <==> runtime < 0 || old(sysctlRuntime) >= 0 || forall c :: c in busy ==> bw[c].runtime != 0)
    {
      hide Admissible, AllPass, Below, DistinctIds, Listed, Ids, ToRatio;
      var oldPeriod, oldRuntime := sysctlPeriod, sysctlRuntime;
      ghost var before := ToRatio(Global());
      sysctlPeriod, sysctlRuntime := period, runtime;
      ret := GlobalConstraints();
      LimitDecided(root, kids, bw, busy, sysctlRuntime >= 0, before, ToRatio(Global()));
      if ret != 0 {
        sysctlPeriod := oldPeriod;
        sysctlRuntime := oldRuntime;
      } else {
        defPeriod := Global().period;
      }
    }

    /** sched_rt_can_attach, and then the attachment: a group without runtime takes no real-time
        task; but it may lose its runtime afterwards. */
    method AttachRtTask(tg: nat) returns (err: int)
      requires Valid() && tg < |bw|
      modifies `busy
      ensures Valid() && err == if bw[tg].runtime == 0 then EINVAL else 0
      ensures busy == if err == 0 then old(busy) + {tg} else old(busy)
      ensures old(Fed()) ==> Fed()
    {
      if bw[tg].runtime == 0 {
        return EINVAL;
      }
      busy := busy + {tg};
      return 0;
    }

    /** A task of the group gets a real-time policy. __sched_setscheduler refuses a user's request
        while there is a limit and the group has no runtime; a task that the kernel makes
        real-time, or that is boosted, is not refused. */
    method BecomesRealTime(tg: nat, user: bool) returns (err: int)
      requires Valid() && tg < |bw|
      modifies `busy
      ensures Valid() && err == if user && sysctlRuntime >= 0 && bw[tg].runtime == 0 then EPERM else 0
      ensures busy == if err == 0 then old(busy) + {tg} else old(busy)
      ensures old(Fed()) ==> (Fed() <==> user || sysctlRuntime < 0 || bw[tg].runtime != 0)
    {
      if user && sysctlRuntime >= 0 && bw[tg].runtime == 0 {
        return EPERM;
      }
      busy := busy + {tg};
      return 0;
    }

    /** The last real-time task of the group leaves it, or ceases to be one. */
    method LosesRtTasks(tg: nat)
      requires Valid()
      modifies `busy
      ensures Valid() && busy == old(busy) - {tg}
      ensures old(Fed()) ==> Fed()
    {
      busy := busy - {tg};
    }

    /** sched_create_group: a new group starts with the default period and no runtime. */
    method CreateGroup(parent: nat) returns (id: nat)
      requires Valid() && parent < |bw|
      modifies this, groups
      ensures Valid() && id == |old(bw)| && root == WithChild(old(root), parent, id)
      ensures bw == old(bw) + [Bandwidth(defPeriod, 0)] && busy == old(busy) && defPeriod == old(defPeriod)
      ensures sysctlPeriod == old(sysctlPeriod) && sysctlRuntime == old(sysctlRuntime)
      ensures old(NoOverflow()) ==> NoOverflow()
      ensures old(Fed()) ==> Fed()
    {
      hide Admissible, Below, DistinctIds, Listed, Ids, Fits, ToRatio;
      ghost var limit := ToRatio(Global());
      GrownBelow(root, groups.LinksOf(), parent);
      id := groups.AddChild(parent);
      CreateAdmissible(root, parent, id, bw, Bandwidth(defPeriod, 0), limit);
      GrownDistinct(root, parent, id);
      GrownListed(root, kids, parent);
      GrownIds(root, parent, id);
      NewIdIn(root, parent, id);
      kids := kids[parent := [id] + kids[parent]] + [[]];
      bw := bw + [Bandwidth(defPeriod, 0)];
      root := WithChild(root, parent, id);
    }
  }

  // ------------------------------------------------------------------
  // Runs from the constructor
  // ------------------------------------------------------------------

  /** With the usual setting, a real-time task in the root group, and then no runtime for it */
  method NotWhileBusy() returns (a: AdmissionControl, err: int)
    ensures fresh(a) && a.Valid() && a.Fed() && a.busy == {0} && err == EBUSY
    ensures |a.bw| == 1 && a.bw[0] == Bandwidth(1_000_000_000, 950_000_000)
  {
    hide Admissible, Below, DistinctIds, Listed, ToRatio;
    a := new AdmissionControl(1_000_000, 950_000);
    err := a.AttachRtTask(0);
    BusyRefuses(a.root, a.kids, a.bw, a.busy, ToRatio(a.Global()));
    err := a.SetRtRuntime(0, 0);
  }

  lemma BusyRefuses(t: Tree, kids: seq<seq<nat>>, bw: seq<Bandwidth>, busy: set<nat>, limit: nat)
    requires t.id == 0 && |bw| > 0 && busy != {}
    ensures Run(Checker(kids, bw[0 := Bandwidth(bw[0].period, 0)], busy, true, limit), Nop(), Events(t), ()).1 == EBUSY
  {
    hide ToRatio;
    var bw' := bw[0 := Bandwidth(bw[0].period, 0)];
    assert Schedulable(0, kids, bw', busy, true, limit) == EBUSY;
    assert Events(t)[0] == Down(0);
  }

  const SECOND: nat := 1_000_000_000

  /** A root of 950 ms a second with one group below it */
  function Pair(runtime: nat): seq<Bandwidth> {
    [Bandwidth(SECOND, 950_000_000), Bandwidth(SECOND, runtime)]
  }

  lemma PairFits(runtime: nat)
    requires runtime <= 950_000_000
    ensures Admissible(Node(0, [Node(1, [])]), Pair(runtime), ToRatio(Bandwidth(SECOND, 950_000_000)))
  {
    RatioOf(runtime);
    RatioOf(950_000_000);
    DivMonotone(runtime * ONE, 950_000_000 * ONE, SECOND);
    var bw, leaf := Pair(runtime), Node(1, []);
    var limit := ToRatio(bw[0]);
    assert KidsRatio([], bw) == 0 && [leaf][1..] == [];
    assert KidsRatio([leaf], bw) == ToRatio(bw[1]);
    assert Admissible(leaf, bw, limit);
  }

  lemma RatioOf(runtime: nat)
    requires runtime <= SECOND
    ensures ToRatio(Bandwidth(SECOND, runtime)) == runtime * ONE / SECOND
  {
    RatioBound(Bandwidth(SECOND, runtime));
  }

  lemma FirstChild()
    ensures WithChild(Node(0, []), 0, 1) == Node(0, [Node(1, [])])
  {
    assert WithChildIn([], 0, 1) == [];
  }

  /** The root with a limit of 950 ms a second, and a group below it */
  method TwoGroups() returns (a: AdmissionControl)
    ensures fresh(a) && fresh(a.groups) && a.Valid() && a.Fed() && a.busy == {} && a.root == Node(0, [Node(1, [])])
    ensures a.bw == Pair(0) && a.sysctlPeriod == 1_000_000 && a.sysctlRuntime == 950_000
  {
    hide Admissible, Below, DistinctIds, Listed, ToRatio, WithChild;
    a := new AdmissionControl(1_000_000, 950_000);
    var id := a.CreateGroup(0);
    FirstChild();
    assert a.bw == Pair(0);
  }

  /** The group gets runtime and a real-time task. */
  method GroupWithTask() returns (a: AdmissionControl)
    ensures fresh(a) && a.Valid() && a.Fed() && a.busy == {1} && a.root == Node(0, [Node(1, [])])
    ensures a.bw == Pair(100_000_000) && a.sysctlPeriod == 1_000_000 && a.sysctlRuntime == 950_000
  {
    hide Admissible, Below, DistinctIds, Listed, ToRatio;
    a := TwoGroups();
    PairFits(100_000_000);
    assert a.bw[1 := Bandwidth(SECOND, 100_000_000)] == Pair(100_000_000);
    var err := a.SetRtRuntime(1, 100_000);
    err := a.AttachRtTask(1);
  }

  /** Its runtime is set to 0, and that is accepted. */
  method StarvesGroup() returns (a: AdmissionControl, err: int)
    ensures fresh(a) && a.Valid() && a.busy == {1} && a.bw == Pair(0) && a.sysctlRuntime >= 0 && err == 0 && !a.Fed()
  {
    hide Admissible, Below, DistinctIds, Listed, ToRatio;
    a := GroupWithTask();
    PairFits(0);
    assert a.bw[1 := Bandwidth(SECOND, 0)] == Pair(0);
    err := a.SetRtRuntime(1, 0);
    assert a.bw[1].runtime == 0;
  }

  /** The root group's is to be set to 0, and that is refused because of the other group's task. */
  method RefusesRoot() returns (a: AdmissionControl, err: int)
    ensures fresh(a) && a.Valid() && a.busy == {1} && a.bw == Pair(100_000_000) && err == EBUSY
  {
    hide Admissible, Below, DistinctIds, Listed, ToRatio;
    a := GroupWithTask();
    BusyRefuses(a.root, a.kids, a.bw, a.busy, ToRatio(a.Global()));
    err := a.SetRtRuntime(0, 0);
  }

  /** With the limit switched off a task becomes real-time in a group without runtime; switching the
      limit on again is accepted all the same. */
  method LimitStarves() returns (a: AdmissionControl, ret: int)
    ensures fresh(a) && a.Valid() && a.busy == {1} && a.bw == Pair(0) && a.sysctlRuntime >= 0 && ret == 0 && !a.Fed()
  {
    hide Admissible, Below, DistinctIds, Listed, ToRatio;
    a := TwoGroups();
    PairFits(0);
    PairUnlimited(0);
    ret := a.SchedRtHandler(1_000_000, -1);
    ret := a.BecomesRealTime(1, true);
    ret := a.SchedRtHandler(1_000_000, 950_000);
    assert a.bw[1].runtime == 0;
  }

  lemma PairUnlimited(runtime: nat)
    requires runtime <= 950_000_000
    ensures Admissible(Node(0, [Node(1, [])]), Pair(runtime), ToRatio(Bandwidth(SECOND, RUNTIME_INF)))
  {
    PairFits(runtime);
    RatioBound(Bandwidth(SECOND, 950_000_000));
    RatioBound(Bandwidth(SECOND, runtime));
    var bw, leaf := Pair(runtime), Node(1, []);
    assert Admissible(leaf, bw, ONE);
  }

  /** The root group asks for no limit of its own: it gets that once there is no global limit, and is
      refused while there is one. */
  method AsksForNoLimit() returns (a: AdmissionControl, refused: int, err: int)
    ensures fresh(a) && a.Valid() && refused == -22 && err == 0 && |a.bw| == 1
    ensures a.bw[0] == Bandwidth(1_000_000_000, 0xFFFF_FFFF_FFFF_FFFF)
  {
    hide Admissible, Below, DistinctIds, Listed, ToRatio;
    a := new AdmissionControl(1_000_000, 950_000);
    LoneRoot();
    assert a.bw == [Bandwidth(1_000_000_000, 950_000_000)];
    assert a.bw[0 := Bandwidth(1_000_000_000, RUNTIME_INF)] == [Bandwidth(1_000_000_000, RUNTIME_INF)];
    refused := a.SetRtRuntime(0, -1);
    var ret := a.SchedRtHandler(1_000_000, -1);
    err := a.SetRtRuntime(0, -1);
  }

  lemma LoneRoot()
    ensures
      var none, some := Bandwidth(1_000_000_000, RUNTIME_INF), Bandwidth(1_000_000_000, 950_000_000);
      && Admissible(Node(0, []), [none], ToRatio(none))
      && Admissible(Node(0, []), [some], ToRatio(none))
      && !Admissible(Node(0, []), [none], ToRatio(some))
  {
    RatioOf(950_000_000);
    assert ToRatio(Bandwidth(1_000_000_000, RUNTIME_INF)) == ONE;
  }
}
