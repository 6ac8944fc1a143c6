/** The two copies of a message: out of the sender's heap into a fragment of
    exactly the computed size, and from there into the receiver's heap.

    What a value means to its receiver is its unfolding into a tree; sharing is
    not part of it.
 */
module Message {
  import opened Heap
  import opened Graph
  import Converge
  import Process

  datatype Tree = Leaf(imm: Immediate) | Node(shape: Obj, kids: seq<Tree>)

  /** An object without its children. */
  function Blank(o: Obj): (r: Obj)
    ensures KindOf(r) == KindOf(o) && |Children(r)| == |Children(o)| && RawSize(r) == RawSize(o) && Size(r) == Size(o)
    ensures Settled(Children(r), map[])
  {
    WithChildren(o, seq(|Children(o)|, _ => Imm(Float(0))))
  }

  /** `v`, followed through `g`, unfolds to the tree `t`. */
  ghost predicate Rep(g: Graph, v: Val, t: Tree)
    decreases t
  {
    match t
    case Leaf(imm) => v == Imm(imm)
    case Node(shape, kids) =>
      && v.Ptr? && v.ref in g && v.kind == KindOf(g[v.ref]) && shape == Blank(g[v.ref])
      && RepAll(g, Children(g[v.ref]), kids)
  }

  ghost predicate RepAll(g: Graph, vs: seq<Val>, ts: seq<Tree>)
    decreases ts
  {
    |vs| == |ts| && forall i :: 0 <= i < |ts| ==> Rep(g, vs[i], ts[i])
  }

  /** A value has at most one unfolding. */
  lemma {:induction false} RepUnique(g: Graph, v: Val, t: Tree, u: Tree)
    requires Rep(g, v, t) && Rep(g, v, u)
    ensures t == u
    decreases t
  {
    if t.Node? {
      forall i | 0 <= i < |t.kids| ensures t.kids[i] == u.kids[i] {
        RepUnique(g, Children(g[v.ref])[i], t.kids[i], u.kids[i]);
      }
    }
  }

  lemma {:induction false} RepExtends(g: Graph, h: Graph, v: Val, t: Tree)
    requires Rep(g, v, t) && forall r :: r in g ==> r in h && h[r] == g[r]
    ensures Rep(h, v, t)
    decreases t
  {
    if t.Node? {
      forall i | 0 <= i < |t.kids| ensures Rep(h, Children(h[v.ref])[i], t.kids[i]) {
        RepExtends(g, h, Children(g[v.ref])[i], t.kids[i]);
      }
    }
  }

  lemma RepAllExtends(g: Graph, h: Graph, vs: seq<Val>, ts: seq<Tree>)
    requires RepAll(g, vs, ts) && forall r :: r in g ==> r in h && h[r] == g[r]
    ensures RepAll(h, vs, ts)
  {
    forall i | 0 <= i < |ts| ensures Rep(h, vs[i], ts[i]) { RepExtends(g, h, vs[i], ts[i]); }
  }

  /** Every immutable, hence acyclic, value has an unfolding. */
  ghost function Unfold(g: Graph, age: map<Ref, nat>, v: Val): (t: Tree)
    requires Converge.Older(g, age) && Closed(g) && (v.Ptr? ==> v.ref in g && v.kind == KindOf(g[v.ref]))
    ensures Rep(g, v, t)
    decreases Converge.Rank(g, age, v)
  {
    if v.Imm? then Leaf(v.imm)
    else
      var kids := Children(g[v.ref]);
      Node(Blank(g[v.ref]), seq(|kids|, i requires 0 <= i < |kids| => Unfold(g, age, kids[i])))
  }

  /** No reference dangles, and tags agree with the objects they point at. */
  ghost predicate Closed(g: Graph) {
    forall r, i :: r in g && 0 <= i < |Children(g[r])| && Children(g[r])[i].Ptr? ==>
      Children(g[r])[i].ref in g && Children(g[r])[i].kind == KindOf(g[Children(g[r])[i].ref])
  }

  // ---- sizes ----

  /** What is added up over a tree: bytes in a fragment, bytes in a heap,
      resource headers, or turns of a copy loop. */
  datatype Measure = InFragment | InHeap | Headers | Turns

  function One(o: Obj, m: Measure): nat {
    match m
    case InFragment => Align8(RawSize(o))
    case InHeap => Size(o)
    case Headers => if o.Resource? then 1 else 0
    case Turns => 2
  }

  function Sum(t: Tree, m: Measure): nat
    decreases t
  {
    match t
    case Leaf(_) => if m == Turns then 1 else 0
    case Node(shape, kids) => One(shape, m) + SumAll(kids, m)
  }

  function SumAll(ts: seq<Tree>, m: Measure): nat
    decreases ts
  {
    if ts == [] then 0 else Sum(ts[0], m) + SumAll(ts[1..], m)
  }

  lemma {:induction false} SumJoin(ts: seq<Tree>, us: seq<Tree>, m: Measure)
    ensures SumAll(ts + us, m) == SumAll(ts, m) + SumAll(us, m)
    decreases |ts|
  {
    if ts == [] {
      assert ts + us == us;
    } else {
      SumJoin(ts[1..], us, m);
      assert (ts + us)[1..] == ts[1..] + us;
    }
  }

  lemma {:induction false} SumReversed(ts: seq<Tree>, m: Measure)
    ensures SumAll(Reversed(ts), m) == SumAll(ts, m)
    decreases |ts|
  {
    if ts != [] {
      SumReversed(ts[1..], m);
      SumJoin(Reversed(ts[1..]), [ts[0]], m);
      assert [ts[0]][1..] == [];
    }
  }

  /** Popping a tree and pushing its children takes one object off the sum. */
  lemma SumPop(ts: seq<Tree>, t: Tree, m: Measure)
    ensures SumAll(ts + [t], m) == SumAll(ts, m) + Sum(t, m)
    ensures t.Node? ==> SumAll(ts + [t], m) == SumAll(ts + Reversed(t.kids), m) + One(t.shape, m)
  {
    SumJoin(ts, [t], m);
    assert [t][1..] == [];
    if t.Node? {
      SumJoin(ts, Reversed(t.kids), m);
      SumReversed(t.kids, m);
    }
  }

  function Backwards(vs: seq<Val>): seq<Val> {
    if vs == [] then [] else Backwards(vs[1..]) + [vs[0]]
  }

  lemma {:induction false} RepBackwards(g: Graph, vs: seq<Val>, ts: seq<Tree>)
    requires RepAll(g, vs, ts)
    ensures RepAll(g, Backwards(vs), Reversed(ts))
    decreases |vs|
  {
    if vs != [] {
      forall i | 0 <= i < |vs[1..]| ensures Rep(g, vs[1..][i], ts[1..][i]) { assert Rep(g, vs[i + 1], ts[i + 1]); }
      RepBackwards(g, vs[1..], ts[1..]);
    }
  }

  lemma RepJoin(g: Graph, vs: seq<Val>, ts: seq<Tree>, ws: seq<Val>, us: seq<Tree>)
    requires RepAll(g, vs, ts) && RepAll(g, ws, us)
    ensures RepAll(g, vs + ws, ts + us)
  {
  }

  lemma RepLast(g: Graph, vs: seq<Val>, v: Val, ts: seq<Tree>, t: Tree)
    requires RepAll(g, vs + [v], ts + [t])
    ensures RepAll(g, vs, ts) && Rep(g, v, t)
  {
    assert (vs + [v])[|vs|] == v && (ts + [t])[|ts|] == t;
    forall i | 0 <= i < |ts| ensures Rep(g, vs[i], ts[i]) { assert (vs + [v])[i] == vs[i] && (ts + [t])[i] == ts[i]; }
  }

  /** The sizing loops: a work stack of values, no recursion.  Shared parts are
      counted once per occurrence, and the result is exactly the sum over the
      unfolding. */
  method Measured(src: Graph, root: Val, m: Measure, ghost t: Tree) returns (total: nat, hasRes: bool)
    requires Rep(src, root, t) && (m == InFragment || m == InHeap)
    ensures total == Sum(t, m) && (hasRes <==> Sum(t, Headers) > 0)
  {
    hide Rep, RepAll, Sum, SumAll, One, Reversed, Backwards;
    var tasks := [root];
    ghost var ts, headers := [t], 0;
    total, hasRes := 0, false;
    VisitStart(src, root, t, m);
    VisitStart(src, root, t, Headers);
    while tasks != []
      invariant |tasks| == |ts| && RepAll(src, tasks, ts)
      invariant total + SumAll(ts, m) == Sum(t, m)
      invariant headers + SumAll(ts, Headers) == Sum(t, Headers) && headers >= 0 && (hasRes <==> headers > 0)
      decreases SumAll(ts, Turns)
    {
      var v, rest := tasks[|tasks| - 1], tasks[..|tasks| - 1];
      ghost var u, us := ts[|ts| - 1], ts[..|ts| - 1];
      assert tasks == rest + [v] && ts == us + [u];
      VisitStep(src, rest, v, us, u, m);
      VisitStep(src, rest, v, us, u, Headers);
      VisitStep(src, rest, v, us, u, Turns);
      if v.Ptr? {
        var o := src[v.ref];
        total := total + One(o, m);
        hasRes := hasRes || o.Resource?;
        headers := headers + One(o, Headers);
        tasks, ts := rest + Backwards(Children(o)), us + Reversed(u.kids);
      } else {
        tasks, ts := rest, us;
      }
    }
    VisitEnd(m);
    VisitEnd(Headers);
  }

  lemma VisitStart(src: Graph, v: Val, t: Tree, m: Measure)
    requires Rep(src, v, t)
    ensures RepAll(src, [v], [t]) && SumAll([t], m) == Sum(t, m)
  {
    assert [t][1..] == [];
  }

  lemma VisitEnd(m: Measure)
    ensures SumAll([], m) == 0
  {
  }

  lemma VisitStep(src: Graph, rest: seq<Val>, v: Val, us: seq<Tree>, u: Tree, m: Measure)
    requires |rest| == |us| && RepAll(src, rest + [v], us + [u])
    ensures v.Imm? ==> RepAll(src, rest, us) && SumAll(us + [u], m) == SumAll(us, m) + if m == Turns then 1 else 0
    ensures v.Ptr? ==>
      && v.ref in src && u.Node? && |Children(src[v.ref])| == |u.kids|
      && |Backwards(Children(src[v.ref]))| == |Reversed(u.kids)|
      && RepAll(src, rest + Backwards(Children(src[v.ref])), us + Reversed(u.kids))
      && SumAll(us + [u], m) == SumAll(us + Reversed(u.kids), m) + One(src[v.ref], m)
      && One(src[v.ref], Turns) == 2 && One(src[v.ref], Headers) == if src[v.ref].Resource? then 1 else 0
  {
    RepLast(src, rest, v, us, u);
    SumPop(us, u, m);
    if v.Ptr? {
      var kids := Children(src[v.ref]);
      RepBackwards(src, kids, u.kids);
      RepJoin(src, rest, us, Backwards(kids), Reversed(u.kids));
    }
  }

  // ---- work stacks ----

  /** A value to visit, or an object whose children are done; a closure in a
      fragment has its place already. */
  datatype Task = Visit(v: Val) | Finish(v: Val, dst: Option<Ref>)

  /** Push values so that the first comes out first. */
  function PushAll(vs: seq<Val>): seq<Task> {
    if vs == [] then [] else PushAll(vs[1..]) + [Visit(vs[0])]
  }

  function Reversed(ts: seq<Tree>): seq<Tree> {
    if ts == [] then [] else Reversed(ts[1..]) + [ts[0]]
  }

  /** With tree `ts[i]` behind task i and trees `rs` behind the results, the
      stacks stand for `goal`. */
  ghost predicate Plan(tasks: seq<Task>, ts: seq<Tree>, rs: seq<Tree>, goal: Tree)
    decreases |tasks|
  {
    && |ts| == |tasks|
    && if tasks == [] then rs == [goal]
       else
         var rest, t := ts[..|ts| - 1], ts[|ts| - 1];
         match tasks[|tasks| - 1]
         case Visit(_) => Plan(tasks[..|tasks| - 1], rest, rs + [t], goal)
         case Finish(_, _) =>
           && t.Node? && |t.kids| <= |rs| && rs[|rs| - |t.kids|..] == t.kids
           && Plan(tasks[..|tasks| - 1], rest, rs[..|rs| - |t.kids|] + [t], goal)
  }

  lemma {:induction false} PlanPush(tasks: seq<Task>, ts: seq<Tree>, vs: seq<Val>, us: seq<Tree>, rs: seq<Tree>,
                                    goal: Tree)
    requires |vs| == |us| && |tasks| == |ts|
    ensures Plan(tasks + PushAll(vs), ts + Reversed(us), rs, goal) == Plan(tasks, ts, rs + us, goal)
    decreases |vs|
  {
    var all, trees := tasks + PushAll(vs), ts + Reversed(us);
    if vs == [] {
      assert all == tasks && trees == ts && rs + us == rs;
    } else {
      PushLength(vs[1..], us[1..]);
      PlanPush(tasks, ts, vs[1..], us[1..], rs + [us[0]], goal);
      assert all[|all| - 1] == Visit(vs[0]) && all[..|all| - 1] == tasks + PushAll(vs[1..]);
      assert trees[|trees| - 1] == us[0] && trees[..|trees| - 1] == ts + Reversed(us[1..]);
      assert rs + [us[0]] + us[1..] == rs + us;
    }
  }

  lemma {:induction false} PushLength(vs: seq<Val>, us: seq<Tree>)
    requires |vs| == |us|
    ensures |PushAll(vs)| == |Reversed(us)| == |vs|
  {
    if vs != [] { PushLength(vs[1..], us[1..]); }
  }

  // ---- what holds between two turns of a copy loop ----

  ghost predicate Carried(src: Graph, tasks: seq<Task>, ts: seq<Tree>) {
    && |tasks| == |ts|
    && forall i :: 0 <= i < |tasks| ==> Rep(src, tasks[i].v, ts[i]) && (tasks[i].Finish? ==> ts[i].Node?)
  }

  /** What the work list will still add up to. */
  function Ahead(tasks: seq<Task>, ts: seq<Tree>, m: Measure): nat
    decreases |tasks|
  {
    if tasks == [] || |ts| != |tasks| then 0
    else Ahead(tasks[..|tasks| - 1], ts[..|ts| - 1], m) + AheadOf(tasks[|tasks| - 1], ts[|ts| - 1], m)
  }

  function AheadOf(task: Task, t: Tree, m: Measure): nat {
    match task
    case Visit(_) => Sum(t, m)
    case Finish(_, dst) =>
      if m == Turns then 1
      else if dst.Some? || t.Leaf? then 0
      else One(t.shape, m)
  }

  /** `done` holds the finished copies; the results unfold in it to `rs`. */
  ghost predicate Going(src: Graph, done: Graph, tasks: seq<Task>, ts: seq<Tree>, results: seq<Val>, rs: seq<Tree>,
                        goal: Tree) {
    && Carried(src, tasks, ts) && Plan(tasks, ts, rs, goal) && RepAll(done, results, rs)
  }

  lemma GoStart(src: Graph, done: Graph, root: Val, t: Tree, m: Measure)
    requires Rep(src, root, t)
    ensures Going(src, done, [Visit(root)], [t], [], [], t) && Ahead([Visit(root)], [t], m) == Sum(t, m)
  {
    hide Sum, Rep;
    assert [] + [Visit(root)] == [Visit(root)] && [] + [t] == [t];
    AheadLast([], Visit(root), [], t, m);
    PlanOne(root, t);
  }

  lemma PlanOne(root: Val, t: Tree)
    ensures Plan([Visit(root)], [t], [], t)
  {
    assert [Visit(root)][..0] == [] && [t][..0] == [] && [] + [t] == [t];
    assert Plan([], [], [t], t);
  }

  lemma GoEnd(src: Graph, done: Graph, results: seq<Val>, rs: seq<Tree>, goal: Tree, m: Measure)
    requires Going(src, done, [], [], results, rs, goal)
    ensures |results| == 1 && Rep(done, results[0], goal) && Ahead([], [], m) == 0
  {
  }

  lemma CarriedLast(src: Graph, tasks: seq<Task>, task: Task, ts: seq<Tree>, t: Tree)
    requires Carried(src, tasks + [task], ts + [t])
    ensures Carried(src, tasks, ts) && Rep(src, task.v, t) && (task.Finish? ==> t.Node?)
  {
    assert (tasks + [task])[|tasks|] == task && (ts + [t])[|ts|] == t;
    forall i | 0 <= i < |tasks| ensures Rep(src, tasks[i].v, ts[i]) && (tasks[i].Finish? ==> ts[i].Node?) {
      assert (tasks + [task])[i] == tasks[i] && (ts + [t])[i] == ts[i];
    }
  }

  lemma AheadLast(tasks: seq<Task>, task: Task, ts: seq<Tree>, t: Tree, m: Measure)
    requires |tasks| == |ts|
    ensures Ahead(tasks + [task], ts + [t], m) == Ahead(tasks, ts, m) + AheadOf(task, t, m)
  {
    assert (tasks + [task])[..|tasks|] == tasks && (ts + [t])[..|ts|] == ts;
  }

  lemma PlanLast(tasks: seq<Task>, task: Task, ts: seq<Tree>, t: Tree, rs: seq<Tree>, goal: Tree)
    requires |tasks| == |ts| && Plan(tasks + [task], ts + [t], rs, goal)
    ensures task.Visit? ==> Plan(tasks, ts, rs + [t], goal)
    ensures task.Finish? ==>
      t.Node? && |t.kids| <= |rs| && rs[|rs| - |t.kids|..] == t.kids
          && Plan(tasks, ts, rs[..|rs| - |t.kids|] + [t], goal)
  {
    assert (tasks + [task])[..|tasks|] == tasks && (ts + [t])[..|ts|] == ts;
  }

  /** An immediate is its own copy. */
  lemma GoImmediate(src: Graph, done: Graph, tasks: seq<Task>, v: Val, ts: seq<Tree>, t: Tree,
                    results: seq<Val>, rs: seq<Tree>, goal: Tree, m: Measure)
    requires |tasks| == |ts| && Going(src, done, tasks + [Visit(v)], ts + [t], results, rs, goal) && v.Imm?
    ensures Going(src, done, tasks, ts, results + [v], rs + [t], goal)
    ensures Ahead(tasks + [Visit(v)], ts + [t], m) == Ahead(tasks, ts, m) + if m == Turns then 1 else 0
  {
    hide Plan, Carried;
    CarriedLast(src, tasks, Visit(v), ts, t);
    PlanLast(tasks, Visit(v), ts, t, rs, goal);
    AheadLast(tasks, Visit(v), ts, t, m);
    RepJoin(done, results, rs, [v], [t]);
  }

  lemma {:induction false} CarriedPush(src: Graph, tasks: seq<Task>, ts: seq<Tree>, vs: seq<Val>, us: seq<Tree>)
    requires Carried(src, tasks, ts) && RepAll(src, vs, us)
    ensures Carried(src, tasks + PushAll(vs), ts + Reversed(us))
    decreases |vs|
  {
    if vs == [] {
      assert tasks + PushAll(vs) == tasks && ts + Reversed(us) == ts;
    } else {
      forall i | 0 <= i < |vs[1..]| ensures Rep(src, vs[1..][i], us[1..][i]) { assert Rep(src, vs[i + 1], us[i + 1]); }
      CarriedPush(src, tasks, ts, vs[1..], us[1..]);
      var front, back := tasks + PushAll(vs[1..]), ts + Reversed(us[1..]);
      assert tasks + PushAll(vs) == front + [Visit(vs[0])] && ts + Reversed(us) == back + [us[0]];
    }
  }

  lemma {:induction false} AheadPush(tasks: seq<Task>, ts: seq<Tree>, vs: seq<Val>, us: seq<Tree>, m: Measure)
    requires |tasks| == |ts| && |vs| == |us|
    ensures Ahead(tasks + PushAll(vs), ts + Reversed(us), m) == Ahead(tasks, ts, m) + SumAll(us, m)
    decreases |vs|
  {
    if vs == [] {
      assert tasks + PushAll(vs) == tasks && ts + Reversed(us) == ts;
    } else {
      PushLength(vs[1..], us[1..]);
      AheadPush(tasks, ts, vs[1..], us[1..], m);
      var front, back := tasks + PushAll(vs[1..]), ts + Reversed(us[1..]);
      assert tasks + PushAll(vs) == front + [Visit(vs[0])] && ts + Reversed(us) == back + [us[0]];
      AheadLast(front, Visit(vs[0]), back, us[0], m);
    }
  }

  /** An object: a finishing task below its children. */
  lemma GoExpand(src: Graph, done: Graph, tasks: seq<Task>, v: Val, dst: Option<Ref>, ts: seq<Tree>, t: Tree,
                 results: seq<Val>, rs: seq<Tree>, goal: Tree, m: Measure)
    requires |tasks| == |ts| && Going(src, done, tasks + [Visit(v)], ts + [t], results, rs, goal) && v.Ptr?
    ensures v.ref in src && t.Node? && t.shape == Blank(src[v.ref]) && v.kind == KindOf(src[v.ref])
    ensures |t.kids| == |Children(src[v.ref])|
    ensures var tasks' := tasks + [Finish(v, dst)] + PushAll(Children(src[v.ref]));
            var ts' := ts + [t] + Reversed(t.kids);
            && |tasks'| == |ts'| && Going(src, done, tasks', ts', results, rs, goal)
            && Ahead(tasks + [Visit(v)], ts + [t], m) == Ahead(tasks', ts', m) + ExpandCost(t.shape, dst, m)
  {
    hide Plan, Carried, Ahead, PushAll, Reversed;
    CarriedLast(src, tasks, Visit(v), ts, t);
    PlanLast(tasks, Visit(v), ts, t, rs, goal);
    var kids := Children(src[v.ref]);
    PlanMark(tasks, v, dst, ts, t, rs, goal);
    PlanPush(tasks + [Finish(v, dst)], ts + [t], kids, t.kids, rs, goal);
    CarriedMark(src, tasks, Finish(v, dst), ts, t);
    CarriedPush(src, tasks + [Finish(v, dst)], ts + [t], kids, t.kids);
    AheadLast(tasks, Visit(v), ts, t, m);
    AheadLast(tasks, Finish(v, dst), ts, t, m);
    AheadPush(tasks + [Finish(v, dst)], ts + [t], kids, t.kids, m);
    PushLength(kids, t.kids);
  }

  function ExpandCost(o: Obj, dst: Option<Ref>, m: Measure): nat {
    if m == Turns then 1 else if dst.Some? then One(o, m) else 0
  }

  lemma CarriedMark(src: Graph, tasks: seq<Task>, task: Task, ts: seq<Tree>, t: Tree)
    requires Carried(src, tasks, ts) && Rep(src, task.v, t) && t.Node?
    ensures Carried(src, tasks + [task], ts + [t])
  {
  }

  lemma PlanMark(tasks: seq<Task>, v: Val, dst: Option<Ref>, ts: seq<Tree>, t: Tree, rs: seq<Tree>, goal: Tree)
    requires |tasks| == |ts| && Plan(tasks, ts, rs + [t], goal) && t.Node?
    ensures Plan(tasks + [Finish(v, dst)], ts + [t], rs + t.kids, goal)
  {
    assert (tasks + [Finish(v, dst)])[..|tasks|] == tasks && (ts + [t])[..|ts|] == ts;
    assert (rs + t.kids)[..|rs|] == rs && (rs + t.kids)[|rs|..] == t.kids;
  }

  /** The children are done: they are the last results, and the finished object
      unfolds to its tree. */
  lemma GoFinish(src: Graph, done: Graph, tasks: seq<Task>, v: Val, dst: Option<Ref>, ts: seq<Tree>, t: Tree,
                 results: seq<Val>, rs: seq<Tree>, goal: Tree, m: Measure, r: Ref)
    requires |tasks| == |ts| && Going(src, done, tasks + [Finish(v, dst)], ts + [t], results, rs, goal) && r !in done
    ensures v.Ptr? && v.ref in src && t.Node? && t.shape == Blank(src[v.ref]) && v.kind == KindOf(src[v.ref])
    ensures var (n, o) := (|Children(src[v.ref])|, src[v.ref]);
            && n <= |results| == |rs|
            && (var (k, kids) := (|results| - n, results[|results| - n..]);
                Going(src, done[r := WithChildren(o, kids)], tasks, ts, results[..k] + [Ptr(v.kind, r)],
                  rs[..k] + [t], goal))
    ensures Ahead(tasks + [Finish(v, dst)], ts + [t], m) == Ahead(tasks, ts, m) + AheadOf(Finish(v, dst), t, m)
  {
    hide Going, Ahead, AheadOf, Blank, WithChildren;
    FinishShape(src, done, tasks, v, dst, ts, t, results, rs, goal);
    GoMade(src, done, tasks, v, dst, ts, t, results, rs, goal, r, |results| - |Children(src[v.ref])|);
    AheadLast(tasks, Finish(v, dst), ts, t, m);
  }

  /** The last results become the children of a new object. */
  lemma GoMade(src: Graph, done: Graph, tasks: seq<Task>, v: Val, dst: Option<Ref>, ts: seq<Tree>, t: Tree,
               results: seq<Val>, rs: seq<Tree>, goal: Tree, r: Ref, k: nat)
    requires |tasks| == |ts| && Going(src, done, tasks + [Finish(v, dst)], ts + [t], results, rs, goal) && r !in done
    requires v.Ptr? && v.ref in src && t.Node? && k + |Children(src[v.ref])| == |results|
    ensures |results| == |rs| && v.kind == KindOf(src[v.ref])
    ensures Going(src, done[r := WithChildren(src[v.ref], results[k..])], tasks, ts, results[..k] + [Ptr(v.kind, r)],
                  rs[..k] + [t], goal)
  {
    hide Plan, Carried, RepAll, WithChildren, Blank;
    CarriedLast(src, tasks, Finish(v, dst), ts, t);
    PlanLast(tasks, Finish(v, dst), ts, t, rs, goal);
    RepCounts(done, results, rs);
    RepShape(src, v, t);
    RepMake(src, done, v, t, results, rs, k, r);
  }

  lemma RepCounts(g: Graph, vs: seq<Val>, ts: seq<Tree>)
    requires RepAll(g, vs, ts)
    ensures |vs| == |ts|
  {
  }

  lemma RepShape(g: Graph, v: Val, t: Tree)
    requires Rep(g, v, t) && t.Node?
    ensures v.Ptr? && v.ref in g && v.kind == KindOf(g[v.ref]) && |Children(g[v.ref])| == |t.kids|
  {
  }

  lemma RepMake(src: Graph, done: Graph, v: Val, t: Tree, results: seq<Val>, rs: seq<Tree>, k: nat, r: Ref)
    requires Rep(src, v, t) && t.Node? && RepAll(done, results, rs) && r !in done
    requires v.ref in src && k <= |rs| == |results| && |rs| - k == |t.kids| == |Children(src[v.ref])|
      && rs[k..] == t.kids
    ensures RepAll(done[r := WithChildren(src[v.ref], results[k..])], results[..k] + [Ptr(v.kind, r)], rs[..k] + [t])
  {
    var o := WithChildren(src[v.ref], results[k..]);
    var after := done[r := o];
    RepAllExtends(done, after, results, rs);
    forall i | 0 <= i < |t.kids| ensures Rep(after, results[k..][i], t.kids[i]) { assert rs[k..][i] == rs[k + i]; }
    BlankSame(src[v.ref], results[k..]);
    assert Rep(after, Ptr(v.kind, r), t);
  }

  lemma BlankSame(o: Obj, kids: seq<Val>)
    requires |kids| == |Children(o)|
    ensures Blank(WithChildren(o, kids)) == Blank(o)
  {
  }

  // ---- fragments ----

  lemma BlankFilled(o: Obj, kids: seq<Val>)
    requires |kids| == |Children(o)|
    ensures WithChildren(Blank(o), kids) == WithChildren(o, kids)
  {
  }

  lemma AlignSum(a: nat, b: nat)
    ensures Align8(Align8(a) + b) == Align8(a) + Align8(b)
  {
  }

  /** Closures that have their place but not yet their captured values. */
  ghost predicate Waiting(src: Graph, data: Graph, done: Graph, tasks: seq<Task>) {
    && (forall r :: r in done ==> r in data && data[r] == done[r])
    && (forall i :: 0 <= i < |tasks| && tasks[i].Finish? && tasks[i].dst.Some? ==>
          && tasks[i].dst.value in data && tasks[i].dst.value !in done
          && tasks[i].v.Ptr? && tasks[i].v.ref in src && data[tasks[i].dst.value] == Blank(src[tasks[i].v.ref]))
    && (forall i, j :: 0 <= i < j < |tasks| && tasks[i].Finish? && tasks[i].dst.Some? && tasks[j].Finish? ==>
          tasks[i].dst != tasks[j].dst)
  }

  lemma {:induction false} PushVisits(vs: seq<Val>)
    ensures forall i :: 0 <= i < |PushAll(vs)| ==> PushAll(vs)[i].Visit?
  {
    if vs != [] { PushVisits(vs[1..]); }
  }

  lemma WaitingRest(src: Graph, data: Graph, done: Graph, tasks: seq<Task>, task: Task)
    requires Waiting(src, data, done, tasks + [task])
    ensures Waiting(src, data, done, tasks)
  {
    forall i | 0 <= i < |tasks| ensures (tasks + [task])[i] == tasks[i] { }
  }

  /** An object placed at a new spot and finished at once. */
  lemma WaitingPlaced(src: Graph, data: Graph, done: Graph, tasks: seq<Task>, r: Ref, o: Obj)
    requires Waiting(src, data, done, tasks) && r !in data
    ensures Waiting(src, data[r := o], done[r := o], tasks)
  {
  }

  /** A closure placed at a new spot, to be finished later. */
  lemma WaitingExpand(src: Graph, data: Graph, done: Graph, tasks: seq<Task>, v: Val, r: Ref, vs: seq<Val>)
    requires Waiting(src, data, done, tasks) && r !in data && v.Ptr? && v.ref in src
    ensures Waiting(src, data[r := Blank(src[v.ref])], done, tasks + [Finish(v, Some(r))] + PushAll(vs))
  {
    PushVisits(vs);
  }

  lemma WaitingMark(src: Graph, data: Graph, done: Graph, tasks: seq<Task>, v: Val, vs: seq<Val>)
    requires Waiting(src, data, done, tasks)
    ensures Waiting(src, data, done, tasks + [Finish(v, None)] + PushAll(vs))
  {
    PushVisits(vs);
  }

  lemma WaitingFill(src: Graph, data: Graph, done: Graph, tasks: seq<Task>, v: Val, r: Ref, kids: seq<Val>)
    requires Waiting(src, data, done, tasks + [Finish(v, Some(r))])
    ensures r in data && r !in done && v.Ptr? && v.ref in src && data[r] == Blank(src[v.ref])
    ensures |kids| == |Children(src[v.ref])| ==>
            Waiting(src, data[r := WithChildren(data[r], kids)], done[r := WithChildren(src[v.ref], kids)], tasks)
  {
    var all := tasks + [Finish(v, Some(r))];
    assert all[|tasks|] == Finish(v, Some(r));
    forall i | 0 <= i < |tasks| ensures all[i] == tasks[i] { }
    if |kids| == |Children(src[v.ref])| { BlankFilled(src[v.ref], kids); }
  }

  /** The ghost side of a copy loop: the finished copies, the trees behind the
      tasks and the trees behind the results. */
  datatype Shadow = Shadow(done: Graph, ts: seq<Tree>, rs: seq<Tree>)

  function Pop(ts: seq<Tree>): (seq<Tree>, Tree)
    requires ts != []
  {
    (ts[..|ts| - 1], ts[|ts| - 1])
  }

  lemma NoChildren(tasks: seq<Task>, ts: seq<Tree>)
    ensures tasks + PushAll([]) == tasks && ts + Reversed([]) == ts
  {
  }

  lemma SameRaw(o: Obj, kids: seq<Val>)
    requires |kids| == |Children(o)|
    ensures RawSize(WithChildren(o, kids)) == RawSize(Blank(o)) == RawSize(o)
  {
  }

  lemma NotDone(src: Graph, data: Graph, done: Graph, tasks: seq<Task>)
    requires Waiting(src, data, done, tasks)
    ensures forall r :: r !in data ==> r !in done
  {
  }

  lemma DoneHeld(src: Graph, data: Graph, done: Graph, tasks: seq<Task>)
    requires Waiting(src, data, done, tasks)
    ensures forall r :: r in done ==> r in data && data[r] == done[r]
  {
  }

  lemma EmptyWaiting(src: Graph, root: Val)
    ensures Waiting(src, map[], map[], [Visit(root)]) && Align8(0) == 0
  {
  }

  lemma FinishShape(src: Graph, done: Graph, tasks: seq<Task>, v: Val, dst: Option<Ref>, ts: seq<Tree>, t: Tree,
                    results: seq<Val>, rs: seq<Tree>, goal: Tree)
    requires |tasks| == |ts| && Going(src, done, tasks + [Finish(v, dst)], ts + [t], results, rs, goal)
    ensures v.Ptr? && v.ref in src && t.Node? && t.shape == Blank(src[v.ref]) && |Children(src[v.ref])| <= |results|
  {
    hide Plan, Carried;
    CarriedLast(src, tasks, Finish(v, dst), ts, t);
    PlanLast(tasks, Finish(v, dst), ts, t, rs, goal);
  }

  /** Objects sit aligned, inside the used bytes, and apart. */
  ghost predicate PackedIn(data: Graph, id: nat, size: nat) {
    && (forall r :: r in data ==> r.buf == id && r.off % 8 == 0 && r.off + RawSize(data[r]) <= size)
    && forall r, q :: r in data && q in data && r != q ==>
         r.off + RawSize(data[r]) <= q.off || q.off + RawSize(data[q]) <= r.off
  }

  lemma RawPositive(o: Obj)
    ensures RawSize(o) > 0
  {
  }

  /** An object at the aligned end. */
  lemma PackedAppend(data: Graph, id: nat, size: nat, at: nat, o: Obj)
    requires PackedIn(data, id, size) && size <= at && at % 8 == 0
    ensures Ref(id, at) !in data && PackedIn(data[Ref(id, at) := o], id, at + RawSize(o))
  {
    hide RawSize;
    RawPositive(o);
    forall q | q in data ensures RawSize(data[q]) > 0 { RawPositive(data[q]); }
  }

  class Fragment {
    const id: nat
    var size: nat
    var data: Graph

    ghost predicate Packed()
      reads this
    {
      PackedIn(data, id, size)
    }

    constructor (id: nat)
      ensures Packed() && size == 0 && data == map[] && this.id == id
    {
      this.id, size, data := id, 0, map[];
    }

    method Place(o: Obj) returns (r: Ref)
      requires Packed()
      modifies this`size, this`data
      ensures Packed() && r !in old(data) && data == old(data)[r := o]
      ensures Align8(size) == Align8(old(size)) + Align8(RawSize(o))
    {
      hide RawSize, Align8, PackedIn;
      RawPositive(o);
      AlignSum(size, RawSize(o));
      PackedAppend(data, id, size, Align8(size), o);
      size := Align8(size);
      r := Ref(id, size);
      size := size + RawSize(o);
      data := data[r := o];
    }

    method Fill(r: Ref, kids: seq<Val>)
      requires Packed() && r in data && |kids| == |Children(data[r])|
      modifies this`data
      ensures Packed() && data == old(data)[r := WithChildren(old(data)[r], kids)]
    {
      data := data[r := WithChildren(data[r], kids)];
    }

    ghost predicate At(src: Graph, tasks: seq<Task>, results: seq<Val>, s: Shadow, goal: Tree)
      reads this
    {
      && Packed() && |tasks| == |s.ts|
      && Going(src, s.done, tasks, s.ts, results, s.rs, goal)
      && Waiting(src, data, s.done, tasks)
      && Align8(size) + Ahead(tasks, s.ts, InFragment) == Sum(goal, InFragment)
    }

    /** Visit a value: immediates pass, leaves are placed, a closure is placed
        before its captured values and a pair after its fields. */
    method VisitTask(src: Graph, v: Val, rest: seq<Task>, results: seq<Val>, ghost s: Shadow, ghost goal: Tree)
      returns (tasks': seq<Task>, results': seq<Val>, ghost s': Shadow)
      requires At(src, rest + [Visit(v)], results, s, goal)
      modifies this`size, this`data
      ensures At(src, tasks', results', s', goal)
      ensures Ahead(tasks', s'.ts, Turns) < Ahead(rest + [Visit(v)], s.ts, Turns)
    {
      hide Packed, Going, Waiting, Ahead, Sum, Align8, RawSize, Blank, PushAll, Reversed;
      ghost var (us, u) := Pop(s.ts);
      assert s.ts == us + [u];
      WaitingRest(src, data, s.done, rest, Visit(v));
      if v.Imm? {
        GoImmediate(src, s.done, rest, v, us, u, results, s.rs, goal, InFragment);
        GoImmediate(src, s.done, rest, v, us, u, results, s.rs, goal, Turns);
        return rest, results + [v], Shadow(s.done, us, s.rs + [u]);
      }
      GoExpand(src, s.done, rest, v, None, us, u, results, s.rs, goal, InFragment);
      GoExpand(src, s.done, rest, v, None, us, u, results, s.rs, goal, Turns);
      var o := src[v.ref];
      match o {
        case Pair(car, cdr) =>
          WaitingMark(src, data, s.done, rest, v, Children(o));
          tasks', results', s' := rest + [Finish(v, None)] + PushAll(Children(o)), results,
                                  Shadow(s.done, us + [u] + Reversed(u.kids), s.rs);
        case Closure(_, _) =>
          ghost var before := data;
          var r := Place(Blank(o));
          GoExpand(src, s.done, rest, v, Some(r), us, u, results, s.rs, goal, InFragment);
          GoExpand(src, s.done, rest, v, Some(r), us, u, results, s.rs, goal, Turns);
          WaitingExpand(src, before, s.done, rest, v, r, Children(o));
          tasks', results', s' := rest + [Finish(v, Some(r))] + PushAll(Children(o)), results,
                                  Shadow(s.done, us + [u] + Reversed(u.kids), s.rs);
        case _ =>
          NoChildren(rest + [Finish(v, None)], us + [u]);
          WaitingMark(src, data, s.done, rest, v, []);
          results', s' := FinishTask(src, v, None, rest, results, s, goal);
          tasks' := rest;
      }
    }

    /** The children are done: place a pair, or fill in a closure. */
    method FinishTask(src: Graph, v: Val, dst: Option<Ref>, rest: seq<Task>, results: seq<Val>, ghost s: Shadow,
                      ghost goal: Tree)
      returns (results': seq<Val>, ghost s': Shadow)
      requires At(src, rest + [Finish(v, dst)], results, s, goal)
      modifies this`size, this`data
      ensures At(src, rest, results', s', goal)
      ensures Ahead(rest, s'.ts, Turns) < Ahead(rest + [Finish(v, dst)], s.ts, Turns)
    {
      if dst.Some? {
        results', s' := FillClosure(src, v, dst.value, rest, results, s, goal);
      } else {
        results', s' := PlacePair(src, v, rest, results, s, goal);
      }
    }

    method FillClosure(src: Graph, v: Val, r: Ref, rest: seq<Task>, results: seq<Val>, ghost s: Shadow,
                       ghost goal: Tree)
      returns (results': seq<Val>, ghost s': Shadow)
      requires At(src, rest + [Finish(v, Some(r))], results, s, goal)
      modifies this`size, this`data
      ensures At(src, rest, results', s', goal)
      ensures Ahead(rest, s'.ts, Turns) < Ahead(rest + [Finish(v, Some(r))], s.ts, Turns)
    {
      hide Packed, Going, Waiting, Ahead, Sum, Align8, RawSize, Blank;
      ghost var (us, u) := Pop(s.ts);
      assert s.ts == us + [u];
      WaitingFill(src, data, s.done, rest, v, r, []);
      GoFinish(src, s.done, rest, v, Some(r), us, u, results, s.rs, goal, InFragment, r);
      GoFinish(src, s.done, rest, v, Some(r), us, u, results, s.rs, goal, Turns, r);
      var k := |results| - |Children(data[r])|;
      WaitingFill(src, data, s.done, rest, v, r, results[k..]);
      Fill(r, results[k..]);
      results' := results[..k] + [Ptr(v.kind, r)];
      s' := Shadow(s.done[r := WithChildren(src[v.ref], results[k..])], us, s.rs[..k] + [u]);
    }

    method PlacePair(src: Graph, v: Val, rest: seq<Task>, results: seq<Val>, ghost s: Shadow, ghost goal: Tree)
      returns (results': seq<Val>, ghost s': Shadow)
      requires At(src, rest + [Finish(v, None)], results, s, goal)
      modifies this`size, this`data
      ensures At(src, rest, results', s', goal)
      ensures Ahead(rest, s'.ts, Turns) < Ahead(rest + [Finish(v, None)], s.ts, Turns)
    {
      hide Packed, Going, Waiting, Ahead, Sum, Align8, RawSize, Blank;
      ghost var (us, u) := Pop(s.ts);
      assert s.ts == us + [u];
      ghost var before := data;
      WaitingRest(src, data, s.done, rest, Finish(v, None));
      NotDone(src, data, s.done, rest);
      FinishShape(src, s.done, rest, v, None, us, u, results, s.rs, goal);
      var k := |results| - |Children(src[v.ref])|;
      SameRaw(src[v.ref], results[k..]);
      var r := Place(WithChildren(src[v.ref], results[k..]));
      GoFinish(src, s.done, rest, v, None, us, u, results, s.rs, goal, InFragment, r);
      GoFinish(src, s.done, rest, v, None, us, u, results, s.rs, goal, Turns, r);
      WaitingPlaced(src, before, s.done, rest, r, WithChildren(src[v.ref], results[k..]));
      results' := results[..k] + [Ptr(v.kind, r)];
      s' := Shadow(s.done[r := WithChildren(src[v.ref], results[k..])], us, s.rs[..k] + [u]);
    }

    /** Copy a value tree into the fragment.  Every object lands inside the
        computed size, the aligned end is exactly that size, and the copy
        unfolds to the same tree without leaving the fragment. */
    method Copy(src: Graph, root: Val, ghost t: Tree) returns (w: Val)
      requires Packed() && size == 0 && data == map[] && Rep(src, root, t)
      modifies this`size, this`data
      ensures Packed() && Rep(data, w, t) && size <= Align8(size) == Sum(t, InFragment)
    {
      hide Packed, Going, Waiting, Ahead, Sum, Align8, Rep;
      var tasks, results := [Visit(root)], [];
      ghost var s := Shadow(map[], [t], []);
      GoStart(src, map[], root, t, InFragment);
      EmptyWaiting(src, root);
      while tasks != []
        invariant At(src, tasks, results, s, t)
        decreases Ahead(tasks, s.ts, Turns)
      {
        var task, rest := tasks[|tasks| - 1], tasks[..|tasks| - 1];
        assert tasks == rest + [task];
        match task {
          case Visit(v) =>
            tasks, results, s := VisitTask(src, v, rest, results, s, t);
          case Finish(v, dst) =>
            results, s := FinishTask(src, v, dst, rest, results, s, t);
            tasks := rest;
        }
      }
      GoEnd(src, s.done, results, s.rs, t, InFragment);
      w := results[0];
      DoneHeld(src, data, s.done, []);
      RepExtends(s.done, data, w, t);
    }
  }

  // ---- receiving ----

  lemma RepSettled(g: Graph, vs: seq<Val>, ts: seq<Tree>)
    requires RepAll(g, vs, ts)
    ensures Settled(vs, g)
  {
    forall i | 0 <= i < |vs| && vs[i].Ptr? ensures vs[i].ref in g { assert Rep(g, vs[i], ts[i]); }
  }

  lemma GoingSettled(src: Graph, done: Graph, tasks: seq<Task>, ts: seq<Tree>, results: seq<Val>, rs: seq<Tree>,
                     goal: Tree)
    requires Going(src, done, tasks, ts, results, rs, goal)
    ensures Settled(results, done)
  {
    RepSettled(done, results, rs);
  }

  lemma SettledTail(vs: seq<Val>, g: Graph, k: nat)
    requires Settled(vs, g) && k <= |vs|
    ensures Settled(vs[k..], g)
  {
  }

  /** Here closures are allocated after their captured values, like pairs. */
  ghost predicate Plain(tasks: seq<Task>) {
    forall i :: 0 <= i < |tasks| && tasks[i].Finish? ==> tasks[i].dst == None
  }

  lemma PlainRest(tasks: seq<Task>, task: Task)
    requires Plain(tasks + [task])
    ensures Plain(tasks) && (task.Finish? ==> task.dst == None)
  {
    assert (tasks + [task])[|tasks|] == task;
    forall i | 0 <= i < |tasks| ensures (tasks + [task])[i] == tasks[i] { }
  }

  lemma PlainExpand(tasks: seq<Task>, v: Val, vs: seq<Val>)
    requires Plain(tasks)
    ensures Plain(tasks + [Finish(v, None)] + PushAll(vs)) && Plain(tasks + [Finish(v, None)])
  {
    PushVisits(vs);
  }

  /** A copy in progress: the gate is closed, the rest of it fits, and what the
      heap held before is still there. */
  ghost predicate Landing(p: Process.Proc, src: Graph, tasks: seq<Task>, results: seq<Val>, s: Shadow, goal: Tree,
                          g: Graph)
    reads p
  {
    && p.Valid() && p.hasMem && p.gcGate != 0 && p.ccall.None? && |tasks| == |s.ts| && Plain(tasks)
    && s.done == p.Objects() && Going(src, s.done, tasks, s.ts, results, s.rs, goal)
    && p.heapPtr + Ahead(tasks, s.ts, InHeap) + Process.SLACK <= p.memSize + 8 * p.Lo()
    && (forall r :: r in g ==> r in s.done && s.done[r] == g[r])
  }

  /** The children are done: allocate the object and fill it in. */
  method LandFinish(p: Process.Proc, src: Graph, v: Val, rest: seq<Task>, results: seq<Val>, stress: bool,
                    ghost s: Shadow, ghost goal: Tree, ghost g: Graph)
    returns (results': seq<Val>, ghost s': Shadow)
    requires Landing(p, src, rest + [Finish(v, None)], results, s, goal, g)
    modifies p`memId, p`memSize, p`heapPtr, p`hasTo, p`toId, p`toCap, p`toSize,
             p`slots, p`store, p`objs, p`released, p`gcTrigger, p`gcPending, p`hasMem
    ensures Landing(p, src, rest, results', s', goal, g)
    ensures Ahead(rest, s'.ts, Turns) < Ahead(rest + [Finish(v, None)], s.ts, Turns)
    ensures p.memId == old(p.memId) && p.memSize == old(p.memSize) && p.Stack() == old(p.Stack())
    ensures p.heapPtr + Ahead(rest, s'.ts, InHeap) == old(p.heapPtr) + Ahead(rest + [Finish(v, None)], s.ts, InHeap)
  {
    hide Process.Proc.Valid, Process.Proc.Stack, Process.Proc.Objects, Ahead, Blank, Going, Size, Settled, RepAll,
         Plain, Sum, WithChildren, Process.Proc.Lo, Reversed, PushAll;
    ghost var (us, u) := Pop(s.ts);
    assert s.ts == us + [u];
    PlainRest(rest, Finish(v, None));
    FinishShape(src, s.done, rest, v, None, us, u, results, s.rs, goal);
    var k := |results| - |Children(src[v.ref])|;
    GoingSettled(src, s.done, rest + [Finish(v, None)], s.ts, results, s.rs, goal);
    SettledTail(results, s.done, k);
    AheadLast(rest, Finish(v, None), us, u, InHeap);
    var r := p.Build(WithChildren(src[v.ref], results[k..]), stress);
    GoFinish(src, s.done, rest, v, None, us, u, results, s.rs, goal, InHeap, r);
    GoFinish(src, s.done, rest, v, None, us, u, results, s.rs, goal, Turns, r);
    results' := results[..k] + [Ptr(v.kind, r)];
    s' := Shadow(s.done[r := WithChildren(src[v.ref], results[k..])], us, s.rs[..k] + [u]);
  }

  /** Visit a value: immediates pass, leaves are allocated, pairs and closures
      wait for their children. */
  method LandVisit(p: Process.Proc, src: Graph, v: Val, rest: seq<Task>, results: seq<Val>, stress: bool,
                   ghost s: Shadow, ghost goal: Tree, ghost g: Graph)
    returns (tasks': seq<Task>, results': seq<Val>, ghost s': Shadow)
    requires Landing(p, src, rest + [Visit(v)], results, s, goal, g)
    modifies p`memId, p`memSize, p`heapPtr, p`hasTo, p`toId, p`toCap, p`toSize,
             p`slots, p`store, p`objs, p`released, p`gcTrigger, p`gcPending, p`hasMem
    ensures Landing(p, src, tasks', results', s', goal, g)
    ensures Ahead(tasks', s'.ts, Turns) < Ahead(rest + [Visit(v)], s.ts, Turns)
    ensures p.memId == old(p.memId) && p.memSize == old(p.memSize) && p.Stack() == old(p.Stack())
    ensures p.heapPtr + Ahead(tasks', s'.ts, InHeap) == old(p.heapPtr) + Ahead(rest + [Visit(v)], s.ts, InHeap)
  {
    hide Process.Proc.Valid, Process.Proc.Stack, Process.Proc.Objects, Ahead, Blank, Going, Size, PushAll, Reversed,
         Plain;
    ghost var (us, u) := Pop(s.ts);
    assert s.ts == us + [u];
    PlainRest(rest, Visit(v));
    if v.Imm? {
      GoImmediate(src, s.done, rest, v, us, u, results, s.rs, goal, InHeap);
      GoImmediate(src, s.done, rest, v, us, u, results, s.rs, goal, Turns);
      return rest, results + [v], Shadow(s.done, us, s.rs + [u]);
    }
    GoExpand(src, s.done, rest, v, None, us, u, results, s.rs, goal, InHeap);
    GoExpand(src, s.done, rest, v, None, us, u, results, s.rs, goal, Turns);
    var o := src[v.ref];
    PlainExpand(rest, v, Children(o));
    if o.Pair? || o.Closure? {
      tasks', results', s' := rest + [Finish(v, None)] + PushAll(Children(o)), results,
                              Shadow(s.done, us + [u] + Reversed(u.kids), s.rs);
    } else {
      NoChildren(rest + [Finish(v, None)], us + [u]);
      tasks' := rest;
      results', s' := LandFinish(p, src, v, rest, results, stress, s, goal, g);
    }
  }

  /** Rebuild a value in a process heap with the gate closed.  It takes exactly
      the bytes that were computed for it, so no allocation can fail. */
  method DeepCopy(p: Process.Proc, src: Graph, root: Val, stress: bool, ghost t: Tree) returns (w: Val)
    requires p.Valid() && p.hasMem && p.ccall.None? && Rep(src, root, t)
    requires p.heapPtr + Sum(t, InHeap) + Process.SLACK <= p.memSize + 8 * p.Lo()
    modifies p`memId, p`memSize, p`heapPtr, p`hasTo, p`toId, p`toCap, p`toSize,
             p`slots, p`store, p`objs, p`released, p`gcTrigger, p`gcPending, p`hasMem, p`gcGate
    ensures p.Valid() && p.hasMem && p.gcGate == old(p.gcGate)
    ensures p.memId == old(p.memId) && p.memSize == old(p.memSize) && p.Stack() == old(p.Stack())
    ensures p.heapPtr == old(p.heapPtr) + Sum(t, InHeap)
    ensures Rep(p.Objects(), w, t)
    ensures forall r :: r in old(p.Objects()) ==> r in p.Objects() && p.Objects()[r] == old(p.Objects())[r]
  {
    hide Process.Proc.Valid, Process.Proc.Stack, Process.Proc.Objects, Ahead, Going, Sum, Rep;
    p.BoundedSpaces();
    p.gcGate := p.gcGate + 1;
    var tasks, results := [Visit(root)], [];
    ghost var s, g := Shadow(p.Objects(), [t], []), p.Objects();
    GoStart(src, p.Objects(), root, t, InHeap);
    while tasks != []
      invariant Landing(p, src, tasks, results, s, t, g)
      invariant p.memId == old(p.memId) && p.memSize == old(p.memSize) && p.Stack() == old(p.Stack())
      invariant p.heapPtr + Ahead(tasks, s.ts, InHeap) == old(p.heapPtr) + Sum(t, InHeap)
      invariant p.gcGate == old(p.gcGate) + 1
      decreases Ahead(tasks, s.ts, Turns)
    {
      var task, rest := tasks[|tasks| - 1], tasks[..|tasks| - 1];
      assert tasks == rest + [task];
      match task {
        case Visit(v) =>
          tasks, results, s := LandVisit(p, src, v, rest, results, stress, s, t, g);
        case Finish(v, _) =>
          PlainRest(rest, task);
          results, s := LandFinish(p, src, v, rest, results, stress, s, t, g);
          tasks := rest;
      }
    }
    GoEnd(src, s.done, results, s.rs, t, InHeap);
    w := results[0];
    p.gcGate := p.gcGate - 1;
  }

  /** recv: make room for the message, then rebuild it.  Fails exactly when the
      cap leaves no room; otherwise the process sees its own graph unchanged
      and the message with the tree it had in the fragment. */
  method Receive(p: Process.Proc, frag: Graph, root: Val, stress: bool, ghost t: Tree)
    returns (ok: bool, w: Val, ghost f: map<Ref, Ref>)
    requires p.Valid() && p.hasMem && p.ccall.None? && Rep(frag, root, t)
    modifies p`memId, p`memSize, p`heapPtr, p`hasTo, p`toId, p`toCap, p`toSize,
             p`slots, p`store, p`objs, p`released, p`gcTrigger, p`gcPending, p`hasMem, p`gcGate
    ensures ok <==>
      || Sum(t, InHeap) + Process.SLACK <= old(p.memSize) - old(p.heapPtr) + 8 * p.Lo()
      || old(p.heapPtr) + Sum(t, InHeap) + Process.HEADROOM - 8 * p.Lo() <= p.cap
    ensures ok ==> p.Valid() && p.gcGate == old(p.gcGate) && Rep(p.Objects(), w, t) && Settled([w], p.Objects())
    ensures ok ==> Iso(old(p.Objects()), old(p.Stack()), p.Objects(), p.Stack(), f)
  {
    hide Process.Proc.Valid, Process.Proc.Stack, Process.Proc.Objects, Sum, Rep, Iso, Settled;
    p.BoundedSpaces();
    var bytes, hasRes := Measured(frag, root, InHeap, t);
    w := root;
    ok, f := p.ReserveHeap(bytes);
    if ok {
      ghost var h, st := p.Objects(), p.Stack();
      w := DeepCopy(p, frag, root, stress, t);
      IsoGrows(old(p.Objects()), old(p.Stack()), h, st, f, p.Objects());
      RepRoot(p.Objects(), w, t);
    }
  }

  lemma RepRoot(g: Graph, v: Val, t: Tree)
    requires Rep(g, v, t)
    ensures Settled([v], g)
  {
    RepSettled(g, [v], [t]);
  }
}
