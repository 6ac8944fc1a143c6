/** The loops behind the ownership protocol: finding every resource header in a
    value, checking a message, rewriting owners and releasing a tree.
 */
module Resource {
  import opened Heap
  import opened Graph
  import opened Message
  import Ownership

  /** Children in the order they go onto the work list. */
  function Pushes(o: Obj): seq<Val> {
    match o
    case Pair(car, cdr) => [cdr, car]
    case Closure(_, free) => free
    case _ => []
  }

  function PushTrees(o: Obj, kids: seq<Tree>): seq<Tree> {
    if o.Pair? && |kids| == 2 then [kids[1], kids[0]] else kids
  }

  /** The headers of a value in the order the work list meets them, once per
      occurrence. */
  ghost function Found(g: Graph, v: Val, t: Tree): seq<Ref>
    decreases t
  {
    match t
    case Leaf(_) => []
    case Node(_, kids) =>
      if v.Imm? || v.ref !in g || |Children(g[v.ref])| != |kids| then []
      else if g[v.ref].Resource? then [v.ref]
      else if g[v.ref].Pair? then Found(g, g[v.ref].car, kids[0]) + Found(g, g[v.ref].cdr, kids[1])
      else FoundAll(g, Children(g[v.ref]), kids)
  }

  /** Last in, first out. */
  ghost function FoundAll(g: Graph, vs: seq<Val>, ts: seq<Tree>): seq<Ref>
    requires |vs| == |ts|
    decreases ts
  {
    if vs == [] then []
    else Found(g, vs[|vs| - 1], ts[|ts| - 1]) + FoundAll(g, vs[..|vs| - 1], ts[..|ts| - 1])
  }

  lemma {:induction false} FoundJoin(g: Graph, vs: seq<Val>, ts: seq<Tree>, ws: seq<Val>, us: seq<Tree>)
    requires |vs| == |ts| && |ws| == |us|
    ensures FoundAll(g, vs + ws, ts + us) == FoundAll(g, ws, us) + FoundAll(g, vs, ts)
    decreases |ws|
  {
    hide Found, FoundAll;
    if ws == [] {
      assert vs + ws == vs && ts + us == ts;
      FoundEnd(g);
    } else {
      var m := |ws| - 1;
      var w, u, x, y := ws[..m], us[..m], ws[m], us[m];
      assert ws == w + [x] && us == u + [y];
      assert vs + ws == vs + w + [x] && ts + us == ts + u + [y];
      FoundJoin(g, vs, ts, w, u);
      FoundLast(g, vs + w, x, ts + u, y);
      FoundLast(g, w, x, u, y);
    }
  }

  /** Popping a value and pushing the children of its object brings up exactly
      its headers next. */
  lemma FoundPush(g: Graph, vs: seq<Val>, v: Val, ts: seq<Tree>, t: Tree)
    requires |vs| == |ts| && RepAll(g, vs + [v], ts + [t])
    ensures v.Imm? ==> RepAll(g, vs, ts) && FoundAll(g, vs + [v], ts + [t]) == FoundAll(g, vs, ts)
    ensures v.Imm? ==> SumAll(ts, Turns) < SumAll(ts + [t], Turns)
    ensures v.Ptr? ==>
      && v.ref in g && t.Node? && |Children(g[v.ref])| == |t.kids|
         && |Pushes(g[v.ref])| == |PushTrees(g[v.ref], t.kids)|
      && RepAll(g, vs + Pushes(g[v.ref]), ts + PushTrees(g[v.ref], t.kids))
      && FoundAll(g, vs + [v], ts + [t])
         == (if g[v.ref].Resource? then [v.ref] else [])
             + FoundAll(g, vs + Pushes(g[v.ref]), ts + PushTrees(g[v.ref], t.kids))
      && SumAll(ts + PushTrees(g[v.ref], t.kids), Turns) < SumAll(ts + [t], Turns)
  {
    hide Found, FoundAll, RepAll, SumAll, Pushes, PushTrees;
    RepLast(g, vs, v, ts, t);
    FoundLast(g, vs, v, ts, t);
    SumPop(ts, t, Turns);
    FoundHere(g, v, t);
    if v.Ptr? {
      var ws, us := Pushes(g[v.ref]), PushTrees(g[v.ref], t.kids);
      SumJoin(ts, us, Turns);
      RepJoin(g, vs, ts, ws, us);
      FoundJoin(g, vs, ts, ws, us);
      assert Found(g, v, t) == (if g[v.ref].Resource? then [v.ref] else []) + FoundAll(g, ws, us);
    }
  }

  lemma FoundLast(g: Graph, vs: seq<Val>, v: Val, ts: seq<Tree>, t: Tree)
    requires |vs| == |ts|
    ensures FoundAll(g, vs + [v], ts + [t]) == Found(g, v, t) + FoundAll(g, vs, ts)
  {
    assert (vs + [v])[..|vs|] == vs && (ts + [t])[..|ts|] == ts;
  }

  /** One object: its own header if it is one, then what its children give. */
  lemma FoundHere(g: Graph, v: Val, t: Tree)
    requires Rep(g, v, t)
    ensures v.Imm? ==> Found(g, v, t) == [] && Sum(t, Turns) == 1
    ensures v.Ptr? ==>
      && v.ref in g && t.Node? && |Children(g[v.ref])| == |t.kids|
         && |Pushes(g[v.ref])| == |PushTrees(g[v.ref], t.kids)|
      && RepAll(g, Pushes(g[v.ref]), PushTrees(g[v.ref], t.kids))
      && Found(g, v, t) == (if g[v.ref].Resource? then [v.ref] else [])
         + FoundAll(g, Pushes(g[v.ref]), PushTrees(g[v.ref], t.kids))
      && SumAll(PushTrees(g[v.ref], t.kids), Turns) < Sum(t, Turns)
  {
    hide FoundAll, SumAll, PushTrees, Pushes;
    if v.Ptr? {
      var o := g[v.ref];
      if o.Pair? {
        PairPushes(o, t.kids);
        assert Rep(g, Children(o)[0], t.kids[0]) && Rep(g, Children(o)[1], t.kids[1]);
        PairSum(t.kids);
        PairFound(g, o.car, o.cdr, t.kids[0], t.kids[1]);
      } else {
        OtherPushes(o, t.kids);
        FoundEnd(g);
      }
    }
  }

  lemma PairPushes(o: Obj, kids: seq<Tree>)
    requires o.Pair? && |kids| == 2
    ensures Pushes(o) == [o.cdr, o.car] && PushTrees(o, kids) == [kids[1], kids[0]]
  {
  }

  lemma OtherPushes(o: Obj, kids: seq<Tree>)
    requires !o.Pair?
    ensures Pushes(o) == Children(o) && PushTrees(o, kids) == kids
  {
  }

  lemma PairFound(g: Graph, car: Val, cdr: Val, t: Tree, u: Tree)
    ensures FoundAll(g, [cdr, car], [u, t]) == Found(g, car, t) + Found(g, cdr, u)
  {
    hide Found;
    assert [cdr, car][..1] == [cdr] && [u, t][..1] == [u] && [cdr][..0] == [] && [u][..0] == [];
    assert FoundAll(g, [cdr], [u]) == Found(g, cdr, u) + [];
  }

  lemma PairSum(kids: seq<Tree>)
    requires |kids| == 2
    ensures SumAll([kids[1], kids[0]], Turns) == SumAll(kids, Turns)
  {
    assert kids == [kids[0]] + [kids[1]] && [kids[1], kids[0]] == [kids[1]] + [kids[0]];
    SumJoin([kids[0]], [kids[1]], Turns);
    SumJoin([kids[1]], [kids[0]], Turns);
  }

  /** Collect every header with a work list instead of recursion. */
  method CollectResources(g: Graph, root: Val, ghost t: Tree) returns (found: seq<Ref>)
    requires Rep(g, root, t)
    ensures found == Found(g, root, t)
  {
    hide Rep, RepAll, Found, FoundAll, SumAll, Pushes, PushTrees;
    var work := [root];
    ghost var ts := [t];
    found := [];
    VisitStart(g, root, t, Turns);
    FoundOne(g, root, t);
    while work != []
      invariant |work| == |ts| && RepAll(g, work, ts)
      invariant found + FoundAll(g, work, ts) == Found(g, root, t)
      decreases SumAll(ts, Turns)
    {
      var v, rest := work[|work| - 1], work[..|work| - 1];
      ghost var u, us := ts[|ts| - 1], ts[..|ts| - 1];
      assert work == rest + [v] && ts == us + [u];
      FoundPush(g, rest, v, us, u);
      if v.Ptr? {
        var o := g[v.ref];
        if o.Resource? { found := found + [v.ref]; }
        work, ts := rest + Pushes(o), us + PushTrees(o, u.kids);
      } else {
        work, ts := rest, us;
      }
    }
    FoundEnd(g);
  }

  lemma FoundOne(g: Graph, v: Val, t: Tree)
    ensures FoundAll(g, [v], [t]) == Found(g, v, t)
  {
    assert [v][..0] == [] && [t][..0] == [];
  }

  lemma FoundEnd(g: Graph)
    ensures FoundAll(g, [], []) == []
  {
  }

  /** Everything found is a header, there are as many as the unfolding has, and
      the sizing pass reports a resource exactly when there is one. */
  lemma {:induction false} FoundHeaders(g: Graph, v: Val, t: Tree)
    requires Rep(g, v, t)
    ensures |Found(g, v, t)| == Sum(t, Headers)
    ensures forall r :: r in Found(g, v, t) ==> r in g && g[r].Resource?
    decreases t
  {
    hide SumAll, FoundAll;
    if t.Node? {
      var o := g[v.ref];
      if o.Pair? {
        assert Rep(g, Children(o)[0], t.kids[0]) && Rep(g, Children(o)[1], t.kids[1]);
        FoundHeaders(g, o.car, t.kids[0]);
        FoundHeaders(g, o.cdr, t.kids[1]);
        TwoHeaders(t.kids);
      } else if o.Closure? {
        FoundHeadersAll(g, Children(o), t.kids);
      } else {
        assert t.kids == [] && Children(o) == [];
        NoHeaders();
        FoundEnd(g);
      }
    }
  }

  lemma TwoHeaders(kids: seq<Tree>)
    requires |kids| == 2
    ensures SumAll(kids, Headers) == Sum(kids[0], Headers) + Sum(kids[1], Headers)
  {
    assert kids == [kids[0]] + [kids[1]] && [] + [kids[0]] == [kids[0]];
    SumPop([kids[0]], kids[1], Headers);
    SumPop([], kids[0], Headers);
  }

  lemma NoHeaders()
    ensures SumAll([], Headers) == 0
  {
  }

  lemma {:induction false} FoundHeadersAll(g: Graph, vs: seq<Val>, ts: seq<Tree>)
    requires RepAll(g, vs, ts)
    ensures |FoundAll(g, vs, ts)| == SumAll(ts, Headers)
    ensures forall r :: r in FoundAll(g, vs, ts) ==> r in g && g[r].Resource?
    decreases ts
  {
    if vs != [] {
      var n := |vs| - 1;
      assert vs == vs[..n] + [vs[n]] && ts == ts[..n] + [ts[n]];
      RepLast(g, vs[..n], vs[n], ts[..n], ts[n]);
      FoundHeaders(g, vs[n], ts[n]);
      FoundHeadersAll(g, vs[..n], ts[..n]);
      SumPop(ts[..n], ts[n], Headers);
    }
  }

  // ---- the check before a send ----

  /** All headers belong to p and no payload occurs twice. */
  ghost predicate Sendable(g: Graph, found: seq<Ref>, p: nat)
    requires forall r :: r in found ==> r in g && g[r].Resource?
  {
    && (forall i :: 0 <= i < |found| ==> g[found[i]].owner == p)
    && (forall i, j :: 0 <= i < j < |found| && g[found[i]].payload.Some? ==> g[found[i]].payload != g[found[j]].payload)
  }

  /** Self sends, foreign or repeated resources and senders without a process
      are refused. */
  method SendCheck(g: Graph, msg: Val, sender: Option<nat>, target: nat, ghost t: Tree) returns (ok: bool)
    requires Rep(g, msg, t)
    ensures forall r :: r in Found(g, msg, t) ==> r in g && g[r].Resource?
    ensures ok <==>
      && Sum(t, Headers) > 0 && sender.Some? && sender.value != target
      && Sendable(g, Found(g, msg, t), sender.value)
  {
    hide Rep, Found, Sum;
    FoundHeaders(g, msg, t);
    var found := CollectResources(g, msg, t);
    if found == [] || sender.None? || target == sender.value { return false; }
    var i := 0;
    while i < |found|
      invariant 0 <= i <= |found|
      invariant forall k :: 0 <= k < i ==> g[found[k]].owner == sender.value
      invariant forall k, m :: 0 <= k < m < i && g[found[k]].payload.Some? ==>
        g[found[k]].payload != g[found[m]].payload
    {
      if g[found[i]].owner != sender.value { return false; }
      var j := 0;
      while j < i
        invariant 0 <= j <= i
        invariant forall k :: 0 <= k < j && g[found[k]].payload.Some? ==> g[found[k]].payload != g[found[i]].payload
      {
        if g[found[j]].payload.Some? && g[found[j]].payload == g[found[i]].payload { return false; }
        j := j + 1;
      }
      i := i + 1;
    }
    return true;
  }

  /** The check is the one the protocol's sends rest on. */
  lemma CheckIsCarriable(g: Graph, found: seq<Ref>, p: nat, s: Ownership.State, hs: seq<nat>)
    requires forall r :: r in found ==> r in g && g[r].Resource?
    requires |hs| == |found| && forall i :: 0 <= i < |hs| ==>
      && hs[i] in s.headers && s.headers[hs[i]].owner == g[found[i]].owner
         && s.headers[hs[i]].res == g[found[i]].payload
    ensures Ownership.Carriable(s, p, hs) <==> Sendable(g, found, p)
  {
    if Ownership.Carriable(s, p, hs) {
      forall i | 0 <= i < |found| ensures g[found[i]].owner == p { assert hs[i] in s.headers; }
      forall i, j | 0 <= i < j < |found| && g[found[i]].payload.Some?
        ensures g[found[i]].payload != g[found[j]].payload {
        assert s.headers[hs[i]].res != s.headers[hs[j]].res;
      }
    }
    if Sendable(g, found, p) {
      forall i, j | 0 <= i < j < |hs| && s.headers[hs[i]].res.Some?
        ensures s.headers[hs[i]].res != s.headers[hs[j]].res {
        assert g[found[i]].payload != g[found[j]].payload;
      }
    }
  }

  // ---- rewriting and releasing ----

  /** The graph with the listed headers given to another owner. */
  function GivenTo(g: Graph, found: seq<Ref>, owner: nat): Graph {
    map r | r in g :: if r in found && g[r].Resource? then g[r].(owner := owner) else g[r]
  }

  /** From g to h only the listed headers changed, and of those only the owner. */
  ghost predicate OnlyOwners(g: Graph, h: Graph, found: seq<Ref>, owner: nat) {
    && h.Keys == g.Keys && (forall r :: r in g && r !in found ==> h[r] == g[r])
    && (forall r :: r in found ==> r in g && g[r].Resource? && h[r] == Resource(owner, g[r].payload))
  }

  lemma GivenExact(g: Graph, found: seq<Ref>, owner: nat)
    requires forall r :: r in found ==> r in g && g[r].Resource?
    ensures OnlyOwners(g, GivenTo(g, found, owner), found, owner)
  {
  }

  /** Every header of the value, and nothing else, changes its owner. */
  method SetOwner(g: Graph, root: Val, owner: nat, ghost t: Tree) returns (h: Graph)
    requires Rep(g, root, t)
    ensures h == GivenTo(g, Found(g, root, t), owner) && OnlyOwners(g, h, Found(g, root, t), owner)
  {
    hide Rep, Found, Sum;
    FoundHeaders(g, root, t);
    var found := CollectResources(g, root, t);
    h := g;
    var i := 0;
    while i < |found|
      invariant 0 <= i <= |found| && h == GivenTo(g, found[..i], owner)
    {
      assert found[i] in found && found[..i + 1] == found[..i] + [found[i]];
      h := h[found[i] := h[found[i]].(owner := owner)];
      i := i + 1;
    }
    assert found[..i] == found;
    GivenExact(g, found, owner);
  }

  /** Rewriting owners keeps kinds, children and sizes, so objects stay where they
      are. */
  lemma GivenFrame(g: Graph, found: seq<Ref>, owner: nat)
    ensures var h := GivenTo(g, found, owner);
            && h.Keys == g.Keys
            && forall r :: r in g ==>
                 && KindOf(h[r]) == KindOf(g[r]) && Children(h[r]) == Children(g[r])
                 && RawSize(h[r]) == RawSize(g[r]) && Size(h[r]) == Size(g[r])
  {
  }

  /** The tree with every header given to another owner. */
  function Given(t: Tree, owner: nat): (r: Tree)
    ensures r.Node? <==> t.Node?
    ensures t.Node? ==> |r.kids| == |t.kids|
    decreases t
  {
    match t
    case Leaf(_) => t
    case Node(shape, kids) =>
      Node(if shape.Resource? then shape.(owner := owner) else shape,
           seq(|kids|, i requires 0 <= i < |kids| => Given(kids[i], owner)))
  }

  lemma {:induction false} FoundAmong(g: Graph, vs: seq<Val>, ts: seq<Tree>, i: nat)
    requires |vs| == |ts| && i < |vs|
    ensures forall r :: r in Found(g, vs[i], ts[i]) ==> r in FoundAll(g, vs, ts)
    decreases |vs|
  {
    hide Found;
    var n := |vs| - 1;
    if i < n {
      FoundAmong(g, vs[..n], ts[..n], i);
      assert vs[..n][i] == vs[i] && ts[..n][i] == ts[i];
    }
  }

  /** What is found in a child is found in the whole. */
  lemma FoundChild(g: Graph, v: Val, t: Tree, i: nat)
    requires Rep(g, v, t) && t.Node? && i < |t.kids|
    ensures v.Ptr? && v.ref in g && i < |Children(g[v.ref])|
    ensures forall r :: r in Found(g, Children(g[v.ref])[i], t.kids[i]) ==> r in Found(g, v, t)
  {
    hide FoundAll;
    if !g[v.ref].Pair? { FoundAmong(g, Children(g[v.ref]), t.kids, i); }
  }

  /** Rewriting at least the headers of a value rewrites its tree. */
  lemma {:induction false} GivenRep(g: Graph, found: seq<Ref>, v: Val, t: Tree, owner: nat)
    requires Rep(g, v, t) && forall r :: r in Found(g, v, t) ==> r in found
    ensures Rep(GivenTo(g, found, owner), v, Given(t, owner))
    decreases t
  {
    if t.Node? {
      var h, kids := GivenTo(g, found, owner), Children(g[v.ref]);
      GivenFrame(g, found, owner);
      forall i | 0 <= i < |t.kids| ensures Rep(h, kids[i], Given(t.kids[i], owner)) {
        FoundChild(g, v, t, i);
        GivenRep(g, found, kids[i], t.kids[i], owner);
      }
      GivenShape(g[v.ref], owner);
    }
  }

  lemma GivenShape(o: Obj, owner: nat)
    ensures o.Resource? ==> Blank(o) == o && Blank(o.(owner := owner)) == o.(owner := owner)
  {
  }

  /** Owners are not part of any size. */
  lemma {:induction false} GivenSum(t: Tree, owner: nat, m: Measure)
    ensures Sum(Given(t, owner), m) == Sum(t, m)
    decreases t
  {
    if t.Node? { GivenSums(t.kids, Given(t, owner).kids, owner, m); }
  }

  lemma {:induction false} GivenSums(ts: seq<Tree>, us: seq<Tree>, owner: nat, m: Measure)
    requires |us| == |ts| && forall i :: 0 <= i < |ts| ==> us[i] == Given(ts[i], owner)
    ensures SumAll(us, m) == SumAll(ts, m)
    decreases ts
  {
    hide Given, Sum;
    if ts != [] {
      GivenSum(ts[0], owner, m);
      GivenSums(ts[1..], us[1..], owner, m);
    }
  }

  /** A tree without headers stays as it is. */
  lemma {:induction false} GivenNone(t: Tree, owner: nat)
    requires Sum(t, Headers) == 0
    ensures Given(t, owner) == t
    decreases t
  {
    if t.Node? {
      forall i | 0 <= i < |t.kids| ensures Given(t.kids[i], owner) == t.kids[i] {
        SumNone(t.kids, i);
        GivenNone(t.kids[i], owner);
      }
    }
  }

  lemma {:induction false} SumNone(ts: seq<Tree>, i: nat)
    requires i < |ts| && SumAll(ts, Headers) == 0
    ensures Sum(ts[i], Headers) == 0
    decreases i
  {
    if i > 0 { SumNone(ts[1..], i - 1); }
  }

  /** Every header of a rewritten tree names the new owner. */
  lemma {:induction false} GivenOwned(g: Graph, v: Val, t: Tree, owner: nat)
    requires Rep(g, v, Given(t, owner))
    ensures forall r :: r in Found(g, v, Given(t, owner)) ==> r in g && g[r].Resource? && g[r].owner == owner
    decreases t
  {
    if t.Node? {
      var u, kids := Given(t, owner), Children(g[v.ref]);
      forall i | 0 <= i < |kids|
        ensures forall r :: r in Found(g, kids[i], u.kids[i]) ==> r in g && g[r].Resource? && g[r].owner == owner
      {
        assert Rep(g, kids[i], u.kids[i]);
        GivenOwned(g, kids[i], t.kids[i], owner);
      }
      if !g[v.ref].Pair? && !g[v.ref].Resource? { OwnedAll(g, kids, u.kids, owner); }
    }
  }

  lemma {:induction false} OwnedAll(g: Graph, vs: seq<Val>, ts: seq<Tree>, owner: nat)
    requires |vs| == |ts|
    requires forall i :: 0 <= i < |vs| ==>
      forall r :: r in Found(g, vs[i], ts[i]) ==> r in g && g[r].Resource? && g[r].owner == owner
    ensures forall r :: r in FoundAll(g, vs, ts) ==> r in g && g[r].Resource? && g[r].owner == owner
    decreases |vs|
  {
    hide Found;
    if vs != [] {
      var n := |vs| - 1;
      assert forall i :: 0 <= i < n ==> vs[..n][i] == vs[i] && ts[..n][i] == ts[i];
      OwnedAll(g, vs[..n], ts[..n], owner);
    }
  }

  // ---- what a hand-over keeps ----

  /** The payloads of a tree in the order in which its headers are found. */
  function Payloads(t: Tree): seq<Option<nat>>
    decreases t
  {
    match t
    case Leaf(_) => []
    case Node(shape, kids) =>
      if shape.Resource? then [shape.payload]
      else if shape.Pair? && |kids| == 2 then Payloads(kids[0]) + Payloads(kids[1])
      else PayloadsAll(kids)
  }

  function PayloadsAll(ts: seq<Tree>): seq<Option<nat>>
    decreases ts
  {
    if ts == [] then [] else Payloads(ts[|ts| - 1]) + PayloadsAll(ts[..|ts| - 1])
  }

  /** The payloads of the listed headers. */
  ghost function PayloadsIn(g: Graph, found: seq<Ref>): seq<Option<nat>>
    requires forall r :: r in found ==> r in g && g[r].Resource?
  {
    seq(|found|, i requires 0 <= i < |found| => assert found[i] in found; g[found[i]].payload)
  }

  lemma PayloadsJoin(g: Graph, a: seq<Ref>, b: seq<Ref>)
    requires forall r :: r in a + b ==> r in g && g[r].Resource?
    ensures (forall r :: r in a ==> r in a + b) && (forall r :: r in b ==> r in a + b)
    ensures PayloadsIn(g, a + b) == PayloadsIn(g, a) + PayloadsIn(g, b)
  {
    assert forall r :: r in a || r in b ==> r in a + b;
  }

  /** The headers found in a value hold the payloads of its tree, place by place. */
  lemma {:induction false} FoundPayloads(g: Graph, v: Val, t: Tree)
    requires Rep(g, v, t)
    ensures forall r :: r in Found(g, v, t) ==> r in g && g[r].Resource?
    ensures PayloadsIn(g, Found(g, v, t)) == Payloads(t)
    decreases t
  {
    FoundHeaders(g, v, t);
    if t.Node? {
      var o := g[v.ref];
      if o.Resource? {
        assert PayloadsIn(g, [v.ref]) == [o.payload];
      } else if o.Pair? {
        assert Rep(g, o.car, t.kids[0]) && Rep(g, o.cdr, t.kids[1]);
        FoundPayloads(g, o.car, t.kids[0]);
        FoundPayloads(g, o.cdr, t.kids[1]);
        PayloadsJoin(g, Found(g, o.car, t.kids[0]), Found(g, o.cdr, t.kids[1]));
      } else {
        FoundPayloadsAll(g, Children(o), t.kids);
      }
    }
  }

  lemma {:induction false} FoundPayloadsAll(g: Graph, vs: seq<Val>, ts: seq<Tree>)
    requires RepAll(g, vs, ts)
    ensures forall r :: r in FoundAll(g, vs, ts) ==> r in g && g[r].Resource?
    ensures PayloadsIn(g, FoundAll(g, vs, ts)) == PayloadsAll(ts)
    decreases ts
  {
    hide Found, Payloads, Rep;
    FoundHeadersAll(g, vs, ts);
    if vs != [] {
      var n := |vs| - 1;
      assert vs == vs[..n] + [vs[n]] && ts == ts[..n] + [ts[n]];
      RepLast(g, vs[..n], vs[n], ts[..n], ts[n]);
      FoundPayloads(g, vs[n], ts[n]);
      FoundPayloadsAll(g, vs[..n], ts[..n]);
      PayloadsJoin(g, Found(g, vs[n], ts[n]), FoundAll(g, vs[..n], ts[..n]));
    }
  }

  /** A hand-over keeps every payload in its place. */
  lemma {:induction false} GivenPayloads(t: Tree, owner: nat)
    ensures Payloads(Given(t, owner)) == Payloads(t)
    decreases t
  {
    if t.Node? {
      var u := Given(t, owner);
      forall i | 0 <= i < |t.kids| ensures Payloads(u.kids[i]) == Payloads(t.kids[i]) {
        GivenPayloads(t.kids[i], owner);
      }
      SamePayloads(u.kids, t.kids);
    }
  }

  lemma {:induction false} SamePayloads(us: seq<Tree>, ts: seq<Tree>)
    requires |us| == |ts| && forall i :: 0 <= i < |ts| ==> Payloads(us[i]) == Payloads(ts[i])
    ensures PayloadsAll(us) == PayloadsAll(ts)
    decreases |ts|
  {
    hide Payloads;
    if ts != [] { SamePayloads(us[..|us| - 1], ts[..|ts| - 1]); }
  }

  /** Two objects alike but for their children and, in a header, the owner. */
  predicate SameButOwner(o: Obj, q: Obj) {
    if o.Resource? && q.Resource? then o.payload == q.payload else SameContents(o, q)
  }

  /** Two values in two heaps that nothing but owners tells apart: the same
      immediates, characters, bytes, entries and payloads in the same places.  The
      tree only bounds the descent. */
  ghost predicate Alike(g: Graph, v: Val, h: Graph, w: Val, t: Tree)
    decreases t
  {
    match t
    case Leaf(_) => v.Imm? && w == v
    case Node(_, kids) =>
      && v.Ptr? && w.Ptr? && v.kind == w.kind && v.ref in g && w.ref in h && SameButOwner(g[v.ref], h[w.ref])
      && |kids| == |Children(g[v.ref])| == |Children(h[w.ref])|
      && forall i :: 0 <= i < |kids| ==> Alike(g, Children(g[v.ref])[i], h, Children(h[w.ref])[i], kids[i])
  }

  /** A value and one that unfolds to its handed-over tree are alike. */
  lemma {:induction false} GivenAlike(g: Graph, v: Val, h: Graph, w: Val, t: Tree, owner: nat)
    requires Rep(g, v, t) && Rep(h, w, Given(t, owner))
    ensures Alike(g, v, h, w, t)
    decreases t
  {
    if t.Node? {
      BlankAlike(g[v.ref], h[w.ref], owner);
      var vs, ws := Children(g[v.ref]), Children(h[w.ref]);
      forall i | 0 <= i < |t.kids| ensures Alike(g, vs[i], h, ws[i], t.kids[i]) {
        assert Rep(h, ws[i], Given(t, owner).kids[i]);
        GivenAlike(g, vs[i], h, ws[i], t.kids[i], owner);
      }
    }
  }

  lemma BlankAlike(o: Obj, q: Obj, owner: nat)
    requires Blank(q) == if Blank(o).Resource? then Blank(o).(owner := owner) else Blank(o)
    ensures SameButOwner(o, q)
  {
    hide WithChildren;
    assert SameContents(o, Blank(o)) && SameContents(q, Blank(q));
  }

  /** Payloads released over the first n finds; a header met again is already
      empty. */
  function Released(g: Graph, found: seq<Ref>, pid: nat, n: nat): seq<nat>
    requires n <= |found| && forall r :: r in found ==> r in g && g[r].Resource?
  {
    if n == 0 then []
    else
      var r := found[n - 1];
      Released(g, found, pid, n - 1) +
      if g[r].owner == pid && g[r].payload.Some? && r !in found[..n - 1] then [g[r].payload.value] else []
  }

  function Emptied(g: Graph, found: seq<Ref>, pid: nat): Graph {
    map r | r in g :: if r in found && g[r].Resource? && g[r].owner == pid then g[r].(payload := None) else g[r]
  }

  method ReleaseTree(g: Graph, root: Val, pid: nat, ghost t: Tree) returns (h: Graph, released: seq<nat>)
    requires Rep(g, root, t)
    ensures forall r :: r in Found(g, root, t) ==> r in g && g[r].Resource?
    ensures h == Emptied(g, Found(g, root, t), pid)
    ensures forall r :: r in g ==>
      h[r] == if r in Found(g, root, t) && g[r].owner == pid then Resource(pid, None) else g[r]
    ensures released == Released(g, Found(g, root, t), pid, |Found(g, root, t)|)
  {
    hide Rep, Found, Sum;
    FoundHeaders(g, root, t);
    var found := CollectResources(g, root, t);
    h, released := g, [];
    var i := 0;
    while i < |found|
      invariant 0 <= i <= |found| && h == Emptied(g, found[..i], pid)
      invariant released == Released(g, found, pid, i)
    {
      var r := found[i];
      assert r in found && found[..i + 1] == found[..i] + [r];
      if h[r].owner == pid && h[r].payload.Some? {
        released := released + [h[r].payload.value];
        h := h[r := h[r].(payload := None)];
      }
      i := i + 1;
    }
    assert found[..i] == found;
  }

  /** Exactly the payloads of p's own headers in the tree are released. */
  lemma {:induction false} ReleasedExact(g: Graph, found: seq<Ref>, pid: nat, n: nat, x: nat)
    requires n <= |found| && forall r :: r in found ==> r in g && g[r].Resource?
    ensures x in Released(g, found, pid, n) <==> exists i :: 0 <= i < n && g[found[i]] == Resource(pid, Some(x))
  {
    if n > 0 {
      ReleasedExact(g, found, pid, n - 1, x);
      var r := found[n - 1];
      if r in found[..n - 1] {
        var i :| 0 <= i < n - 1 && found[..n - 1][i] == r;
        assert found[i] == r;
      }
    }
  }

  /** Nothing is released twice when no two headers share a payload. */
  lemma {:induction false} ReleasedOnce(g: Graph, found: seq<Ref>, pid: nat, n: nat)
    requires n <= |found| && forall r :: r in found ==> r in g && g[r].Resource?
    requires forall r, q :: r in found && q in found && r != q && g[r].payload.Some? ==> g[r].payload != g[q].payload
    ensures forall i, j :: 0 <= i < j < |Released(g, found, pid, n)| ==>
      Released(g, found, pid, n)[i] != Released(g, found, pid, n)[j]
  {
    if n > 0 {
      ReleasedOnce(g, found, pid, n - 1);
      var r, before := found[n - 1], Released(g, found, pid, n - 1);
      if g[r].payload.Some? && r !in found[..n - 1] && g[r].payload.value in before {
        ReleasedExact(g, found, pid, n - 1, g[r].payload.value);
        assert false;
      }
    }
  }
}
