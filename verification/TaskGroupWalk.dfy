/** walk_tg_tree_from (core.c): the traversal of the task-group tree that needs no stack,
    because it finds its way back through the parent and sibling links. */
module TaskGroupWalk {
  import opened Options

  /** A task group with its children in list order. */
  datatype Tree = Node(id: nat, kids: seq<Tree>)

  datatype Event = Down(tg: nat) | Up(tg: nat)

  /** The recursive traversal: a group is entered before its children and left after them. */
  ghost function Events(t: Tree): seq<Event> {
    [Down(t.id)] + KidsEvents(t.kids) + [Up(t.id)]
  }

  ghost function KidsEvents(kids: seq<Tree>): seq<Event> {
    if kids == [] then [] else Events(kids[0]) + KidsEvents(kids[1..])
  }

  /** A visitor: what it makes of its data, and its verdict; any verdict but 0 ends the walk. */
  type Visitor<!S> = (nat, S) -> (S, int)

  function Visit<S>(down: Visitor<S>, up: Visitor<S>, e: Event, data: S): (S, int) {
    match e
    case Down(tg) => down(tg, data)
    case Up(tg) => up(tg, data)
  }

  /** Visiting the events in turn, up to and including the first verdict that is not 0. */
  ghost function Run<S>(down: Visitor<S>, up: Visitor<S>, events: seq<Event>, data: S): (S, int) {
    if events == [] then (data, 0)
    else
      var (next, ret) := Visit(down, up, events[0], data);
      if ret != 0 then (next, ret) else Run(down, up, events[1..], next)
  }

  ghost function Ids(t: Tree): set<nat> {
    {t.id} + KidsIds(t.kids)
  }

  ghost function KidsIds(kids: seq<Tree>): set<nat> {
    if kids == [] then {} else Ids(kids[0]) + KidsIds(kids[1..])
  }

  lemma {:induction false} KidIds(kids: seq<Tree>, i: nat)
    requires i < |kids|
    ensures Ids(kids[i]) <= KidsIds(kids)
  {
    if i > 0 { KidIds(kids[1..], i - 1); }
  }

  function HeadId(kids: seq<Tree>): Option<nat> {
    if kids == [] then None else Some(kids[0].id)
  }

  // ------------------------------------------------------------------
  // Where the walk is: the groups entered and not left, outermost first
  // ------------------------------------------------------------------

  /** Group t, with the walk at or below its child i. */
  datatype Frame = Frame(t: Tree, i: nat)

  ghost predicate Nested(stack: seq<Frame>, root: Tree) {
    && (forall j :: 0 <= j < |stack| ==> stack[j].i < |stack[j].t.kids|)
    && (stack != [] ==> stack[0].t == root)
    && (forall j :: 0 < j < |stack| ==> stack[j].t == stack[j - 1].t.kids[stack[j - 1].i])
  }

  /** The subtree the walk is in. */
  ghost function Current(stack: seq<Frame>, root: Tree): Tree
    requires Nested(stack, root)
  {
    if stack == [] then root else stack[|stack| - 1].t.kids[stack[|stack| - 1].i]
  }

  /** The events that are left once the current subtree is done. */
  ghost function Rest(stack: seq<Frame>): seq<Event> {
    if stack == [] then []
    else
      var f := stack[|stack| - 1];
      (if f.i < |f.t.kids| then KidsEvents(f.t.kids[f.i + 1..]) else []) + [Up(f.t.id)] + Rest(stack[..|stack| - 1])
  }

  /** Every group strictly inside the walk is another group than the root. */
  lemma {:induction false} InsideIds(stack: seq<Frame>, root: Tree)
    requires Nested(stack, root) && stack != []
    ensures Ids(Current(stack, root)) <= KidsIds(root.kids)
  {
    var f := stack[|stack| - 1];
    KidIds(f.t.kids, f.i);
    if |stack| > 1 {
      var outer := stack[..|stack| - 1];
      InsideIds(outer, root);
      assert Current(outer, root) == f.t;
    }
  }

  /** The walk is about to enter the current group. */
  ghost predicate Entering(stack: seq<Frame>, root: Tree, at: nat, todo: seq<Event>) {
    Nested(stack, root) && at == Current(stack, root).id && todo == Events(Current(stack, root)) + Rest(stack)
  }

  /** The walk is back from the current group, in its parent. */
  ghost predicate Returning(stack: seq<Frame>, root: Tree, at: nat, todo: seq<Event>) {
    Nested(stack, root) && stack != [] && at == stack[|stack| - 1].t.id && todo == Rest(stack)
  }

  /** The walk is about to leave the current group. */
  ghost predicate Leaving(stack: seq<Frame>, root: Tree, at: nat, todo: seq<Event>) {
    Nested(stack, root) && at == Current(stack, root).id && todo == [Up(at)] + Rest(stack)
  }

  /** After entering: on to the first child, or straight out again. */
  lemma {:induction false} EnterStep(stack: seq<Frame>, root: Tree, at: nat, todo: seq<Event>)
    requires Entering(stack, root, at, todo)
    ensures todo != [] && todo[0] == Down(at)
    ensures var t := Current(stack, root);
      && (t.kids != [] ==> Entering(stack + [Frame(t, 0)], root, t.kids[0].id, todo[1..]))
      && (t.kids == [] ==> Leaving(stack, root, at, todo[1..]))
  {
    hide KidsEvents, Rest;
    var t := Current(stack, root);
    assert todo[1..] == KidsEvents(t.kids) + [Up(t.id)] + Rest(stack);
    if t.kids != [] {
      var inner := stack + [Frame(t, 0)];
      RestOf(stack, Frame(t, 0));
      KidsTail(t.kids, 0);
      assert t.kids[0..] == t.kids;
      Assoc(Events(t.kids[0]), KidsEvents(t.kids[1..]), [Up(t.id)], Rest(stack));
      assert Nested(inner, root) && Current(inner, root) == t.kids[0];
    } else {
      NoKids();
      assert [] + [Up(t.id)] == [Up(t.id)];
    }
  }

  /** Back from a child: on to its next sibling, or out of the parent. */
  lemma {:induction false} NextStep(stack: seq<Frame>, root: Tree, at: nat, todo: seq<Event>)
    requires Returning(stack, root, at, todo)
    ensures var f := stack[|stack| - 1]; var outer := stack[..|stack| - 1];
      && (f.i + 1 < |f.t.kids| ==> Entering(outer + [Frame(f.t, f.i + 1)], root, f.t.kids[f.i + 1].id, todo))
      && (f.i + 1 >= |f.t.kids| ==> Leaving(outer, root, at, todo))
  {
    hide Nested, Events, KidsEvents, Rest;
    var f, outer := stack[|stack| - 1], stack[..|stack| - 1];
    OuterNested(stack, root);
    RestOf(outer, f);
    assert stack == outer + [f];
    if f.i + 1 < |f.t.kids| {
      var next := outer + [Frame(f.t, f.i + 1)];
      RestOf(outer, Frame(f.t, f.i + 1));
      KidsTail(f.t.kids, f.i + 1);
      Assoc(Events(f.t.kids[f.i + 1]), KidsEvents(f.t.kids[f.i + 2..]), [Up(f.t.id)], Rest(outer));
      assert Current(next, root) == f.t.kids[f.i + 1];
    } else {
      NoKids();
      assert f.t.kids[f.i + 1..] == [];
      assert [] + [Up(f.t.id)] == [Up(f.t.id)];
    }
  }

  lemma Assoc<T>(a: seq<T>, b: seq<T>, c: seq<T>, d: seq<T>)
    ensures (a + b) + c + d == a + (b + c + d)
  {
  }

  lemma NoKids()
    ensures KidsEvents([]) == []
  {
  }

  lemma {:induction false} RestOf(outer: seq<Frame>, f: Frame)
    requires f.i < |f.t.kids|
    ensures Rest(outer + [f]) == KidsEvents(f.t.kids[f.i + 1..]) + [Up(f.t.id)] + Rest(outer)
  {
    assert (outer + [f])[..|outer|] == outer;
  }

  lemma {:induction false} KidsTail(kids: seq<Tree>, i: nat)
    requires i < |kids|
    ensures KidsEvents(kids[i..]) == Events(kids[i]) + KidsEvents(kids[i + 1..])
  {
    assert kids[i..][0] == kids[i] && kids[i..][1..] == kids[i + 1..];
  }

  lemma {:induction false} OuterNested(stack: seq<Frame>, root: Tree)
    requires Nested(stack, root) && stack != []
    ensures var f := stack[|stack| - 1]; var outer := stack[..|stack| - 1];
      && Nested(outer, root) && Current(outer, root) == f.t && f.i < |f.t.kids|
      && (f.i + 1 < |f.t.kids| ==> Nested(outer + [Frame(f.t, f.i + 1)], root))
  {
  }

  /** After leaving: done at the root, otherwise back in the parent. */
  lemma {:induction false} LeaveStep(stack: seq<Frame>, root: Tree, at: nat, todo: seq<Event>)
    requires Leaving(stack, root, at, todo) && root.id !in KidsIds(root.kids)
    ensures todo != [] && todo[0] == Up(at)
    ensures at == root.id <==> stack == []
    ensures stack == [] ==> todo[1..] == []
    ensures stack != [] ==> Returning(stack, root, stack[|stack| - 1].t.id, todo[1..])
  {
    assert todo[1..] == Rest(stack);
    if stack != [] { InsideIds(stack, root); }
  }

  // ------------------------------------------------------------------
  // The links of struct task_group
  // ------------------------------------------------------------------

  /** parent, the head of the children list, and siblings.next (None at the end of the list). */
  datatype Links = Links(parent: seq<Option<nat>>, firstChild: seq<Option<nat>>, nextSibling: seq<Option<nat>>)

  /** The links below t are those of the tree. */
  ghost predicate Below(t: Tree, l: Links) {
    && t.id < |l.firstChild| && l.firstChild[t.id] == HeadId(t.kids)
    && forall i :: 0 <= i < |t.kids| ==>
         && t.kids[i].id < |l.parent| && t.kids[i].id < |l.nextSibling|
         && l.parent[t.kids[i].id] == Some(t.id) && l.nextSibling[t.kids[i].id] == HeadId(t.kids[i + 1..])
         && Below(t.kids[i], l)
  }

  lemma {:induction false} StackBelow(stack: seq<Frame>, root: Tree, l: Links, j: nat)
    requires Nested(stack, root) && Below(root, l) && j < |stack|
    ensures Below(stack[j].t, l) && Below(stack[j].t.kids[stack[j].i], l)
  {
    if j > 0 { StackBelow(stack, root, l, j - 1); }
  }

  lemma {:induction false} CurrentBelow(stack: seq<Frame>, root: Tree, l: Links)
    requires Nested(stack, root) && Below(root, l)
    ensures Below(Current(stack, root), l)
  {
    if stack != [] { StackBelow(stack, root, l, |stack| - 1); }
  }

  lemma BelowHead(t: Tree, l: Links)
    requires Below(t, l)
    ensures t.id < |l.firstChild| && l.firstChild[t.id] == HeadId(t.kids)
  {
  }

  /** The links out of the current group lead where the tree says. */
  lemma {:induction false} LinksOut(stack: seq<Frame>, root: Tree, l: Links)
    requires Nested(stack, root) && Below(root, l) && stack != []
    ensures var f := stack[|stack| - 1]; var id := Current(stack, root).id;
      && id < |l.parent| && id < |l.nextSibling| && l.parent[id] == Some(f.t.id)
      && l.nextSibling[id] == if f.i + 1 < |f.t.kids| then Some(f.t.kids[f.i + 1].id) else None
  {
    StackBelow(stack, root, l, |stack| - 1);
    assert stack[|stack| - 1].t.kids[stack[|stack| - 1].i] == Current(stack, root);
  }

  // ------------------------------------------------------------------
  // A new group
  // ------------------------------------------------------------------

  ghost function WithChild(t: Tree, parent: nat, id: nat): Tree {
    Node(t.id, (if t.id == parent then [Node(id, [])] else []) + WithChildIn(t.kids, parent, id))
  }

  ghost function WithChildIn(kids: seq<Tree>, parent: nat, id: nat): (r: seq<Tree>)
    ensures |r| == |kids|
    ensures forall i :: 0 <= i < |kids| ==> r[i] == WithChild(kids[i], parent, id)
  {
    if kids == [] then [] else [WithChild(kids[0], parent, id)] + WithChildIn(kids[1..], parent, id)
  }

  ghost function Grown(l: Links, p: nat): Links
    requires p < |l.firstChild|
  {
    Links(l.parent + [Some(p)], l.firstChild[p := Some(|l.parent|)] + [None], l.nextSibling + [l.firstChild[p]])
  }

  lemma {:induction false} HeadKept(kids: seq<Tree>, parent: nat, id: nat, i: nat)
    requires i <= |kids|
    ensures HeadId(WithChildIn(kids, parent, id)[i..]) == HeadId(kids[i..])
  {
  }

  /** The children of the grown tree, the new one first. */
  lemma {:induction false} GrownKids(t: Tree, p: nat, id: nat)
    ensures
      var r, rest := WithChild(t, p, id), WithChildIn(t.kids, p, id);
      if t.id == p then r.kids[0..] != [] && r.kids[0] == Node(id, []) && r.kids[1..] == rest else r.kids == rest
  {
  }

  /** An old child keeps its links. */
  lemma {:induction false} GrownKid(t: Tree, l: Links, p: nat, k: nat)
    requires Below(t, l) && (forall c :: c in Ids(t) ==> c < |l.parent|) && k < |t.kids|
    requires p < |l.parent| == |l.firstChild| == |l.nextSibling|
    ensures
      var rest, l' := WithChildIn(t.kids, p, |l.parent|), Grown(l, p);
      && rest[k].id == t.kids[k].id < |l'.parent| && l'.parent[rest[k].id] == Some(t.id)
      && l'.nextSibling[rest[k].id] == HeadId(rest[k + 1..])
  {
    KidIds(t.kids, k);
    assert t.kids[k].id in Ids(t.kids[k]) && KidsIds(t.kids) <= Ids(t);
    HeadKept(t.kids, p, |l.parent|, k + 1);
  }

  /** The links of the tree with the new group in it. */
  lemma {:induction false} GrownBelow(t: Tree, l: Links, p: nat)
    requires Below(t, l) && (forall c :: c in Ids(t) ==> c < |l.parent|)
    requires p < |l.parent| == |l.firstChild| == |l.nextSibling|
    ensures Below(WithChild(t, p, |l.parent|), Grown(l, p))
  {
    hide HeadId, WithChild;
    var n, l' := |l.parent|, Grown(l, p);
    var rest := WithChildIn(t.kids, p, n);
    assert t.id in Ids(t) && KidsIds(t.kids) <= Ids(t);
    forall k | 0 <= k < |t.kids| ensures Below(rest[k], l') {
      KidIds(t.kids, k);
      GrownBelow(t.kids[k], l, p);
    }
    GrownKids(t, p, n);
    forall k | 0 <= k < |t.kids|
      ensures rest[k].id < |l'.parent| && l'.parent[rest[k].id] == Some(t.id)
        && l'.nextSibling[rest[k].id] == HeadId(rest[k + 1..])
    {
      GrownKid(t, l, p, k);
    }
    GrownHead(t, l, p);
    if t.id == p {
      GrownFirst(t, l, WithChild(t, p, n), rest);
    } else {
      GrownElsewhere(t, l', WithChild(t, p, n));
    }
  }

  lemma {:induction false} GrownHead(t: Tree, l: Links, p: nat)
    requires Below(t, l) && p < |l.parent| == |l.firstChild| == |l.nextSibling|
    ensures
      var r, rest := WithChild(t, p, |l.parent|), WithChildIn(t.kids, p, |l.parent|);
      && r.id == t.id < |l.firstChild| && l.firstChild[t.id] == HeadId(rest)
      && Grown(l, p).firstChild[t.id] == HeadId(r.kids)
  {
    HeadKept(t.kids, p, |l.parent|, 0);
    var rest := WithChildIn(t.kids, p, |l.parent|);
    assert rest[0..] == rest && t.kids[0..] == t.kids;
    GrownKids(t, p, |l.parent|);
  }

  /** The group that gets the child: everybody moves one place on. */
  lemma {:induction false} GrownFirst(t: Tree, l: Links, r: Tree, rest: seq<Tree>)
    requires t.id < |l.parent| == |l.firstChild| == |l.nextSibling| && r.id == t.id
    requires |r.kids| == |rest| + 1 && r.kids[0] == Node(|l.parent|, []) && r.kids[1..] == rest
    requires l.firstChild[t.id] == HeadId(rest) && Grown(l, t.id).firstChild[t.id] == HeadId(r.kids)
    requires var l' := Grown(l, t.id); forall k {:trigger rest[k]} :: 0 <= k < |rest| ==>
      && rest[k].id < |l'.parent| && l'.parent[rest[k].id] == Some(t.id)
      && l'.nextSibling[rest[k].id] == HeadId(rest[k + 1..]) && Below(rest[k], l')
    ensures Below(r, Grown(l, t.id))
  {
    hide HeadId;
    var l' := Grown(l, t.id);
    NewLeaf(l, t.id);
    forall i | 0 <= i < |r.kids|
      ensures r.kids[i].id < |l'.parent| && l'.parent[r.kids[i].id] == Some(t.id)
      ensures l'.nextSibling[r.kids[i].id] == HeadId(r.kids[i + 1..]) && Below(r.kids[i], l')
    {
      assert i > 0 ==> r.kids[i] == rest[i - 1] && r.kids[i + 1..] == rest[i..];
    }
  }

  lemma NewLeaf(l: Links, p: nat)
    requires p < |l.parent| == |l.firstChild| == |l.nextSibling|
    ensures Below(Node(|l.parent|, []), Grown(l, p))
  {
  }

  lemma {:induction false} GrownElsewhere(t: Tree, l: Links, r: Tree)
    requires r.id == t.id < |l.firstChild| && l.firstChild[t.id] == HeadId(r.kids) && |l.parent| == |l.nextSibling|
    requires forall k {:trigger r.kids[k]} :: 0 <= k < |r.kids| ==>
      && r.kids[k].id < |l.parent| && l.parent[r.kids[k].id] == Some(t.id)
      && l.nextSibling[r.kids[k].id] == HeadId(r.kids[k + 1..]) && Below(r.kids[k], l)
    ensures Below(r, l)
  {
  }

  class TaskGroups {
    var parent: seq<Option<nat>>
    var firstChild: seq<Option<nat>>
    var nextSibling: seq<Option<nat>>

    ghost function LinksOf(): Links
      reads this
    {
      Links(parent, firstChild, nextSibling)
    }

    /** The root group alone. */
    constructor ()
      ensures LinksOf() == Links([None], [None], [None])
    {
      parent, firstChild, nextSibling := [None], [None], [None];
    }

    /** sched_create_group: list_add_rcu puts the new group, the next free number, first. */
    method AddChild(p: nat) returns (id: nat)
      requires p < |firstChild| == |parent| == |nextSibling|
      modifies this
      ensures id == |old(parent)| && LinksOf() == Grown(old(LinksOf()), p)
    {
      id := |parent|;
      parent := parent + [Some(p)];
      nextSibling := nextSibling + [firstChild[p]];
      firstChild := firstChild[p := Some(id)] + [None];
    }

    /** The walk does what the recursive traversal does, up to and including the first verdict
        that is not 0, and returns that verdict. */
    method WalkTgTreeFrom<S>(from: nat, down: Visitor<S>, up: Visitor<S>, data0: S, ghost root: Tree)
      returns (data: S, ret: int)
      requires root.id == from && Below(root, LinksOf()) && from !in KidsIds(root.kids)
      ensures (data, ret) == Run(down, up, Events(root), data0)
    {
      hide Below, Nested, Rest, Events, KidsEvents, KidsIds, Run;
      data := data0;
      var at: nat, child: Option<nat> := from, None;
      var entering := true;
      ghost var stack: seq<Frame> := [];
      ghost var todo := Events(root);
      StartEntering(root);
      while true
        invariant Run(down, up, Events(root), data0) == Run(down, up, todo, data)
        invariant entering ==> Entering(stack, root, at, todo)
        invariant !entering ==> Returning(stack, root, at, todo) && child == Some(Current(stack, root).id)
        decreases |todo|, if entering then 0 else 1
      {
        if entering {
          ghost var t := Current(stack, root);
          CurrentBelow(stack, root, LinksOf());
          EnterStep(stack, root, at, todo);
          BelowHead(t, LinksOf());
          RunStep(down, up, todo, data);
          var verdict := down(at, data);
          data, ret := verdict.0, verdict.1;
          todo := todo[1..];
          if ret != 0 {
            return;
          }
          child := firstChild[at];
          if child.Some? { stack := stack + [Frame(t, 0)]; }
        } else {
          ghost var f, outer := stack[|stack| - 1], stack[..|stack| - 1];
          LinksOut(stack, root, LinksOf());
          NextStep(stack, root, at, todo);
          child := nextSibling[child.value];
          stack := if child.Some? then outer + [Frame(f.t, f.i + 1)] else outer;
        }
        if child.Some? {
          at, entering := child.value, true;
          continue;
        }
        LeaveStep(stack, root, at, todo);
        if stack != [] { LinksOut(stack, root, LinksOf()); }
        RunStep(down, up, todo, data);
        var verdict := up(at, data);
        data, ret := verdict.0, verdict.1;
        todo := todo[1..];
        if ret != 0 || at == from {
          return;
        }
        child := Some(at);
        if parent[at].None? {
          return;
        }
        at, entering := parent[at].value, false;
      }
    }
  }

  lemma RunStep<S>(down: Visitor<S>, up: Visitor<S>, events: seq<Event>, data: S)
    requires events != []
    ensures var v := Visit(down, up, events[0], data);
      Run(down, up, events, data) == if v.1 != 0 then v else Run(down, up, events[1..], v.0)
    ensures Run(down, up, [], data) == (data, 0)
    ensures events[1..] == [] ==> Run(down, up, events, data) == Visit(down, up, events[0], data)
  {
  }

  lemma StartEntering(root: Tree)
    ensures Entering([], root, root.id, Events(root))
  {
    assert Events(root) + [] == Events(root);
  }
}
