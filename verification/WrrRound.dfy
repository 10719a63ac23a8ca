/** Weighted round robin (wrr.c): what the run list of one CPU does under ticks, and the shares
    that come of it. */
module WrrRound {
  import opened Arithmetic

  /** A queued task: what struct sched_wrr_entity says of it. */
  datatype Entity = Entity(id: nat, weight: int, slice: nat)

  type Queue = seq<Entity>

  /** HZ is taken to be a positive multiple of 100, so that no slice is zero. */
  ghost predicate Clock(hz: nat) {
    hz > 0 && hz % 100 == 0
  }

  /** WRR_FG_TIMESLICE and WRR_BG_TIMESLICE */
  function ForegroundSlice(hz: nat): nat { 100 * hz / 1000 }
  function BackgroundSlice(hz: nat): nat { 10 * hz / 1000 }

  const FOREGROUND: int := 10
  const BACKGROUND: int := 1

  function Quota(weight: int, hz: nat): nat {
    if weight == BACKGROUND then BackgroundSlice(hz) else ForegroundSlice(hz)
  }

  lemma {:induction false} QuotaWeighs(hz: nat)
    requires Clock(hz)
    ensures Quota(BACKGROUND, hz) >= 1
    ensures Quota(FOREGROUND, hz) == 10 * Quota(BACKGROUND, hz)
    ensures FOREGROUND == 10 && Quota(10, hz) * 10 == hz && BACKGROUND == 1 && Quota(1, hz) * 100 == hz
  {
    var h := hz / 100;
    assert hz == 100 * h;
    assert ForegroundSlice(hz) == 10 * h && BackgroundSlice(hz) == h;
  }

  function Renewed(e: Entity, hz: nat): Entity {
    e.(slice := Quota(e.weight, hz))
  }

  /** time_slice is an unsigned int */
  function Decremented(slice: nat): nat {
    if slice == 0 then 0xFFFF_FFFF else slice - 1
  }

  /** task_tick_wrr on the task at the head: a used-up slice is renewed and the task goes to
      the tail. */
  function Tick(q: Queue, hz: nat): Queue
    requires |q| > 0
  {
    if Decremented(q[0].slice) > 0 then [q[0].(slice := Decremented(q[0].slice))] + q[1..]
    else q[1..] + [Renewed(q[0], hz)]
  }

  /** Every slice is between one tick and the quota. */
  ghost predicate Good(q: Queue, hz: nat) {
    forall e {:trigger e in q} :: e in q ==> 1 <= e.slice <= Quota(e.weight, hz)
  }

  ghost predicate Distinct(q: Queue) {
    forall i, j {:trigger q[i], q[j]} :: 0 <= i < j < |q| ==> q[i].id != q[j].id
  }

  lemma {:induction false} TickKeepsGood(q: Queue, hz: nat)
    requires |q| > 0 && Good(q, hz)
    ensures |Tick(q, hz)| == |q| && Good(Tick(q, hz), hz)
  {
    assert q[0] in q;
    var r := Tick(q, hz);
    forall e | e in r ensures 1 <= e.slice <= Quota(e.weight, hz) {
      if e in q[1..] {
        assert e in q;
      }
    }
  }

  /** n ticks, the head being the running task at each */
  ghost function Ticks(q: Queue, hz: nat, n: nat): Queue
    requires |q| > 0 && Good(q, hz)
    decreases n
  {
    TickKeepsGood(q, hz);
    if n == 0 then q else Ticks(Tick(q, hz), hz, n - 1)
  }

  /** Who ran in each of them */
  ghost function Ran(q: Queue, hz: nat, n: nat): (r: seq<nat>)
    requires |q| > 0 && Good(q, hz)
    ensures |r| == n
    decreases n
  {
    TickKeepsGood(q, hz);
    if n == 0 then [] else [q[0].id] + Ran(Tick(q, hz), hz, n - 1)
  }

  lemma {:induction false} TicksAdd(q: Queue, hz: nat, m: nat, n: nat)
    requires |q| > 0 && Good(q, hz)
    ensures |Ticks(q, hz, m)| == |q| && Good(Ticks(q, hz, m), hz)
    ensures Ticks(q, hz, m + n) == Ticks(Ticks(q, hz, m), hz, n)
    ensures Ran(q, hz, m + n) == Ran(q, hz, m) + Ran(Ticks(q, hz, m), hz, n)
    decreases m
  {
    hide Tick, Good;
    TickKeepsGood(q, hz);
    if m > 0 {
      TicksAdd(Tick(q, hz), hz, m - 1, n);
      assert (m - 1) + n == m + n - 1;
    }
  }

  ghost function Times(ids: seq<nat>, id: nat): nat {
    multiset(ids)[id]
  }

  // ------------------------------------------------------------------
  // One turn, one round
  // ------------------------------------------------------------------

  ghost function Repeated(id: nat, n: nat): seq<nat> {
    seq(n, _ => id)
  }

  /** The task at the head runs out its slice and goes to the tail with a new one. */
  lemma {:induction false} Turn(q: Queue, hz: nat, n: nat)
    requires |q| > 0 && Good(q, hz) && n == q[0].slice
    ensures Ticks(q, hz, n) == q[1..] + [Renewed(q[0], hz)]
    ensures Ran(q, hz, n) == Repeated(q[0].id, n)
    decreases n
  {
    assert q[0] in q;
    TickKeepsGood(q, hz);
    var r := Tick(q, hz);
    if n > 1 {
      Turn(r, hz, n - 1);
      assert r[1..] == q[1..] && Renewed(r[0], hz) == Renewed(q[0], hz);
    } else {
      assert Ticks(r, hz, 0) == r && Ran(r, hz, 0) == [];
    }
  }

  ghost function Slices(q: Queue): nat {
    if |q| == 0 then 0 else q[0].slice + Slices(q[1..])
  }

  lemma {:induction false} SlicesAppend(q: Queue, r: Queue)
    ensures Slices(q + r) == Slices(q) + Slices(r)
  {
    if |q| == 0 {
      assert q + r == r;
    } else {
      assert (q + r)[0] == q[0] && (q + r)[1..] == q[1..] + r;
      SlicesAppend(q[1..], r);
    }
  }

  ghost function AllRenewed(q: Queue, hz: nat): (r: Queue)
    ensures |r| == |q|
  {
    seq(|q|, i requires 0 <= i < |q| => Renewed(q[i], hz))
  }

  /** Who runs while each of these tasks takes its turn */
  ghost function InTurn(q: Queue): seq<nat> {
    if |q| == 0 then [] else Repeated(q[0].id, q[0].slice) + InTurn(q[1..])
  }

  /** The first k tasks take their turns in order and line up behind the others. */
  lemma {:induction false} Turns(q: Queue, hz: nat, k: nat)
    requires |q| > 0 && Good(q, hz) && k <= |q|
    ensures Ticks(q, hz, Slices(q[..k])) == q[k..] + AllRenewed(q[..k], hz)
    ensures Ran(q, hz, Slices(q[..k])) == InTurn(q[..k])
    decreases k
  {
    hide Tick, Good, Renewed, Ticks, Ran;
    if k == 0 {
      NoTicks(q, hz);
      assert q[..0] == [] && q[0..] + AllRenewed([], hz) == q;
    } else {
      var j := k - 1;
      Turns(q, hz, j);
      var m, e := Slices(q[..j]), q[j];
      var r := Ticks(q, hz, m);
      assert q[..k] == q[..j] + [e];
      SlicesAppend(q[..j], [e]);
      assert Slices([e]) == e.slice + Slices([]);
      TicksAdd(q, hz, m, e.slice);
      assert r[0] == e;
      Turn(r, hz, e.slice);
      assert r[1..] + [Renewed(e, hz)] == q[k..] + AllRenewed(q[..k], hz);
      InTurnAppend(q[..j], e);
    }
  }

  lemma NoTicks(q: Queue, hz: nat)
    requires |q| > 0 && Good(q, hz)
    ensures Ticks(q, hz, 0) == q && Ran(q, hz, 0) == []
  {
  }

  lemma {:induction false} InTurnAppend(q: Queue, e: Entity)
    ensures InTurn(q + [e]) == InTurn(q) + Repeated(e.id, e.slice)
  {
    if |q| == 0 {
      assert q + [e] == [e] && [e][1..] == [];
      assert InTurn([e]) == Repeated(e.id, e.slice) + InTurn([]);
    } else {
      assert (q + [e])[1..] == q[1..] + [e];
      InTurnAppend(q[1..], e);
    }
  }

  lemma {:induction false} TimesRepeated(id: nat, n: nat, other: nat)
    ensures Times(Repeated(id, n), other) == if id == other then n else 0
  {
    if n > 0 {
      assert Repeated(id, n) == Repeated(id, n - 1) + [id];
      TimesRepeated(id, n - 1, other);
    }
  }

  lemma {:induction false} TimesInTurn(q: Queue, i: nat)
    requires Distinct(q) && i < |q|
    ensures Times(InTurn(q), q[i].id) == q[i].slice
  {
    TimesRepeated(q[0].id, q[0].slice, q[i].id);
    if i > 0 {
      TimesInTurn(q[1..], i - 1);
    } else {
      TimesAbsent(q[1..], q[0].id);
    }
  }

  lemma {:induction false} TimesAbsent(q: Queue, id: nat)
    requires forall i {:trigger q[i]} :: 0 <= i < |q| ==> q[i].id != id
    ensures Times(InTurn(q), id) == 0
  {
    if |q| > 0 {
      TimesRepeated(q[0].id, q[0].slice, id);
      TimesAbsent(q[1..], id);
    }
  }

  /** One round: as many ticks as the slices add up to bring everybody back in the same order
      with a full quota, each having run exactly the slice it had. */
  lemma {:induction false} Round(q: Queue, hz: nat)
    requires |q| > 0 && Good(q, hz) && Distinct(q)
    ensures Ticks(q, hz, Slices(q)) == AllRenewed(q, hz)
    ensures forall i {:trigger q[i]} :: 0 <= i < |q| ==> Times(Ran(q, hz, Slices(q)), q[i].id) == q[i].slice
  {
    hide Good, Renewed, Ticks, Ran, InTurn, Times;
    Turns(q, hz, |q|);
    assert q[..|q|] == q && q[|q|..] == [];
    forall i | 0 <= i < |q| ensures Times(Ran(q, hz, Slices(q)), q[i].id) == q[i].slice {
      TimesInTurn(q, i);
    }
  }

  /** All slices are full. */
  ghost predicate Full(q: Queue, hz: nat) {
    forall e {:trigger e in q} :: e in q ==> e.slice == Quota(e.weight, hz) >= 1
  }

  /** After one round from anywhere all slices are full. */
  lemma {:induction false} RoundFills(q: Queue, hz: nat)
    requires Clock(hz) && |q| > 0 && Good(q, hz) && Distinct(q)
    ensures Full(Ticks(q, hz, Slices(q)), hz)
  {
    hide Ticks;
    Round(q, hz);
    QuotaWeighs(hz);
  }

  /** k rounds of full slices change nothing and give every task k quotas. */
  lemma {:induction false} Rounds(q: Queue, hz: nat, k: nat)
    requires |q| > 0 && Good(q, hz) && Full(q, hz) && Distinct(q)
    ensures k * Slices(q) >= 0
    ensures Ticks(q, hz, k * Slices(q)) == q
    ensures forall i {:trigger q[i]} :: 0 <= i < |q| ==>
      Times(Ran(q, hz, k * Slices(q)), q[i].id) == k * Quota(q[i].weight, hz)
    decreases k
  {
    hide Ticks, Ran, Good, Times;
    var m := Slices(q);
    MulNonNegative(k, m);
    if k == 0 {
      NoTicks(q, hz);
      NeverIn();
    } else {
      Rounds(q, hz, k - 1);
      OneMore(k, m);
      TicksAdd(q, hz, (k - 1) * m, m);
      Round(q, hz);
      FullStays(q, hz);
      forall i | 0 <= i < |q| ensures Times(Ran(q, hz, k * m), q[i].id) == k * Quota(q[i].weight, hz) {
        assert q[i] in q;
        TimesAppend(Ran(q, hz, (k - 1) * m), Ran(q, hz, m), q[i].id);
        OneMore(k, Quota(q[i].weight, hz));
      }
    }
  }

  lemma OneMore(k: nat, m: nat)
    ensures k * m == (k - 1) * m + m
  {
  }

  lemma NeverIn()
    ensures forall id: nat {:trigger Times([], id)} :: Times([], id) == 0
  {
  }

  lemma TimesAppend(s: seq<nat>, t: seq<nat>, id: nat)
    ensures Times(s + t, id) == Times(s, id) + Times(t, id)
  {
  }

  lemma {:induction false} FullStays(q: Queue, hz: nat)
    requires Full(q, hz)
    ensures AllRenewed(q, hz) == q
  {
    forall i | 0 <= i < |q| ensures AllRenewed(q, hz)[i] == q[i] {
      assert q[i] in q;
    }
  }

  /** In any number of rounds a foreground task runs exactly ten times as long as a
      background one. */
  lemma {:induction false} SharesByWeight(q: Queue, hz: nat, k: nat, i: nat, j: nat)
    requires Clock(hz) && |q| > 0 && Good(q, hz) && Full(q, hz) && Distinct(q)
    requires i < |q| && j < |q| && q[i].weight == FOREGROUND && q[j].weight == BACKGROUND
    ensures k * Slices(q) >= 0
    ensures var ran := Ran(q, hz, k * Slices(q)); Times(ran, q[i].id) == 10 * Times(ran, q[j].id)
  {
    hide Ticks, Ran, Good, Times, Slices;
    Rounds(q, hz, k);
    QuotaWeighs(hz);
    var b := Quota(BACKGROUND, hz);
    assert k * (10 * b) == 10 * (k * b);
  }
}
