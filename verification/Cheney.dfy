/** The invariant of a copying collection, over values.

    `g` is the graph as it was when the collection started: every object the
    collection may copy.  `order` lists the objects copied so far; object i
    sits in buffer `to` at the sum of the sizes before it, with its first
    `done[i]` children already translated.
 */
module Cheney {
  import opened Heap
  import opened Graph

  function SizeAt(g: Graph, r: Ref): (n: nat)
    ensures n % 8 == 0 && (r in g ==> MIN_OBJECT <= n)
  {
    if r in g then Size(g[r]) else 0
  }

  /** Sum of the sizes of the first n objects. */
  function Off(g: Graph, rs: seq<Ref>, n: nat): nat
    requires n <= |rs|
  {
    if n == 0 then 0 else Off(g, rs, n - 1) + SizeAt(g, rs[n - 1])
  }

  function Total(g: Graph, rs: seq<Ref>): nat { Off(g, rs, |rs|) }

  /** Where object i of a back-to-back list starts. */
  function Place(g: Graph, rs: seq<Ref>, buf: nat, i: nat): Ref
    requires i <= |rs|
  {
    Ref(buf, Off(g, rs, i))
  }

  /** Each listed object sits at its place. */
  ghost predicate InPlace(g: Graph, rs: seq<Ref>, buf: nat, at: seq<Ref>) {
    && |at| == |rs|
    && forall i {:trigger Place(g, rs, buf, i)} :: 0 <= i < |rs| ==> at[i] == Place(g, rs, buf, i)
  }

  ghost predicate Distinct(rs: seq<Ref>) {
    forall i, j :: 0 <= i < j < |rs| ==> rs[i] != rs[j]
  }

  lemma {:induction false} OffPrefix(g: Graph, rs: seq<Ref>, qs: seq<Ref>, n: nat)
    requires n <= |rs| && n <= |qs| && rs[..n] == qs[..n]
    ensures Off(g, rs, n) == Off(g, qs, n)
  {
    if n > 0 {
      assert rs[..n][n - 1] == qs[..n][n - 1];
      assert rs[..n - 1] == rs[..n][..n - 1];
      assert qs[..n - 1] == qs[..n][..n - 1];
      OffPrefix(g, rs, qs, n - 1);
    }
  }

  lemma {:induction false} OffGrows(g: Graph, rs: seq<Ref>, i: nat, n: nat)
    requires i < n <= |rs| && forall x :: 0 <= x < n ==> rs[x] in g
    ensures Off(g, rs, i) + SizeAt(g, rs[i]) <= Off(g, rs, n)
    ensures Off(g, rs, i) + MIN_OBJECT <= Off(g, rs, n)
    decreases n
  {
    hide SizeAt;
    if i < n - 1 { OffGrows(g, rs, i, n - 1); }
  }

  /** A walk that has come up to the total has passed every object. */
  lemma OffEnd(g: Graph, rs: seq<Ref>, n: nat)
    requires n <= |rs| && (forall i :: 0 <= i < |rs| ==> rs[i] in g)
    requires Off(g, rs, n) >= Total(g, rs)
    ensures n == |rs|
  {
    if n < |rs| { OffGrows(g, rs, n, |rs|); }
  }

  lemma ExtendsOff(g: Graph, rs: seq<Ref>, qs: seq<Ref>, n: nat)
    requires n <= |rs| && rs <= qs
    ensures Off(g, rs, n) == Off(g, qs, n)
  {
    assert rs[..n] == qs[..n];
    OffPrefix(g, rs, qs, n);
  }

  lemma {:induction false} OffAligned(g: Graph, rs: seq<Ref>, n: nat)
    requires n <= |rs|
    ensures Off(g, rs, n) % 8 == 0
  {
    hide SizeAt;
    if n > 0 {
      OffAligned(g, rs, n - 1);
      AlignedSum(Off(g, rs, n - 1), SizeAt(g, rs[n - 1]));
    }
  }

  lemma AlignedSum(a: nat, b: nat)
    requires a % 8 == 0 && b % 8 == 0
    ensures (a + b) % 8 == 0
  {
  }

  /** Removing one object from a list lowers the total by its size. */
  lemma {:induction false} TotalRemove(g: Graph, rs: seq<Ref>, i: nat, n: nat)
    requires i < n <= |rs|
    ensures Off(g, rs[..i] + rs[i + 1..], n - 1) + SizeAt(g, rs[i]) == Off(g, rs, n)
    decreases n
  {
    var qs := rs[..i] + rs[i + 1..];
    if i == n - 1 {
      assert qs[..i] == rs[..i];
      OffPrefix(g, qs, rs, i);
    } else {
      TotalRemove(g, rs, i, n - 1);
      assert qs[n - 2] == rs[n - 1];
    }
  }

  /** Distinct objects drawn from a list are together no larger than it: the
      live set fits where the whole heap fitted. */
  lemma {:induction false} SubsetFits(g: Graph, rs: seq<Ref>, all: seq<Ref>)
    requires Distinct(rs) && forall i :: 0 <= i < |rs| ==> rs[i] in all
    ensures Total(g, rs) <= Total(g, all)
    decreases |rs|
  {
    if |rs| > 0 {
      var r := rs[|rs| - 1];
      var i :| 0 <= i < |all| && all[i] == r;
      var rest := all[..i] + all[i + 1..];
      var front := rs[..|rs| - 1];
      forall x | 0 <= x < |front| ensures front[x] in rest {
        assert front[x] == rs[x] && rs[x] in all;
        var y :| 0 <= y < |all| && all[y] == rs[x];
        if y < i { assert rest[y] == rs[x]; } else { assert rest[y - 1] == rs[x]; }
      }
      SubsetFits(g, front, rest);
      TotalRemove(g, all, i, |all|);
      assert rs[..|rs| - 1] == front[..|front|];
      OffPrefix(g, rs, front, |front|);
    }
  }

  // ---- the invariant ----

  ghost predicate Placed(g: Graph, to: nat, f: map<Ref, Ref>, order: seq<Ref>) {
    && Distinct(order)
    && (forall i :: 0 <= i < |order| ==> order[i] in g)
    && (forall r :: r in f <==> r in order)
    && (forall i {:trigger Place(g, order, to, i)} :: 0 <= i < |order| ==> f[order[i]] == Place(g, order, to, i))
  }

  /** Sources: forwarded exactly when copied, untouched otherwise. */
  ghost predicate Marked(g: Graph, to: nat, store: map<Ref, Cell>, f: map<Ref, Ref>) {
    forall r :: r in g ==>
      && r.buf != to && r in store
      && store[r] == if r in f then Forwarded(KindOf(g[r]), f[r]) else Live(g[r])
  }

  function TrUpTo(vs: seq<Val>, f: map<Ref, Ref>, j: nat): (r: seq<Val>)
    ensures |r| == |vs|
    ensures forall i :: 0 <= i < |vs| ==> r[i] == if i < j then Tr(vs[i], f) else vs[i]
  {
    seq(|vs|, i requires 0 <= i < |vs| => if i < j then Tr(vs[i], f) else vs[i])
  }

  function Copy(o: Obj, f: map<Ref, Ref>, j: nat): (r: Obj)
    ensures Size(r) == Size(o) && KindOf(r) == KindOf(o)
    ensures Children(r) == TrUpTo(Children(o), f, j)
  {
    WithChildren(o, TrUpTo(Children(o), f, j))
  }

  lemma CopyNext(o: Obj, f: map<Ref, Ref>, j: nat)
    requires j < |Children(o)|
    ensures WithChildren(Copy(o, f, j), Children(Copy(o, f, j))[j := Tr(Children(o)[j], f)]) == Copy(o, f, j + 1)
  {
    var kids := Children(o);
    assert TrUpTo(kids, f, j)[j := Tr(kids[j], f)] == TrUpTo(kids, f, j + 1);
  }

  /** One copy: its first n children are translated and their targets copied. */
  ghost predicate CopyOk(g: Graph, store: map<Ref, Cell>, f: map<Ref, Ref>, r: Ref, n: nat) {
    && r in g && r in f && f[r] in store
    && n <= |Children(g[r])|
    && store[f[r]] == Live(Copy(g[r], f, n))
    && AllIn(Children(g[r])[..n], g, f)
  }

  ghost predicate CopiesOk(g: Graph, store: map<Ref, Cell>, f: map<Ref, Ref>, order: seq<Ref>, done: seq<nat>) {
    && |done| == |order|
    && forall i :: 0 <= i < |order| ==> CopyOk(g, store, f, order[i], done[i])
  }

  ghost predicate AllReachable(g: Graph, roots: seq<Val>, order: seq<Ref>) {
    forall i :: 0 <= i < |order| ==> Reachable(g, roots, order[i])
  }

  ghost predicate Inv(g: Graph, roots: seq<Val>, to: nat, store: map<Ref, Cell>,
                      f: map<Ref, Ref>, order: seq<Ref>, done: seq<nat>) {
    && Placed(g, to, f, order)
    && Marked(g, to, store, f)
    && CopiesOk(g, store, f, order, done)
    && AllReachable(g, roots, order)
  }

  lemma PlacedInjective(g: Graph, to: nat, f: map<Ref, Ref>, order: seq<Ref>)
    requires Placed(g, to, f, order)
    ensures Injective(f)
    ensures forall r :: r in f ==> f[r].buf == to && f[r].off < Total(g, order)
  {
    forall r | r in f ensures f[r].buf == to && f[r].off < Total(g, order) {
      var i :| 0 <= i < |order| && order[i] == r;
      assert f[r] == Place(g, order, to, i);
      OffGrows(g, order, i, |order|);
    }
    forall a, b | a in f && b in f && f[a] == f[b] ensures a == b {
      var i :| 0 <= i < |order| && order[i] == a;
      var x :| 0 <= x < |order| && order[x] == b;
      assert f[a] == Place(g, order, to, i) && f[b] == Place(g, order, to, x);
      if i < x { OffGrows(g, order, i, x); } else if x < i { OffGrows(g, order, x, i); }
    }
  }

  lemma PlacedAppend(g: Graph, to: nat, f: map<Ref, Ref>, order: seq<Ref>, r: Ref)
    requires Placed(g, to, f, order) && r in g && r !in f
    ensures Placed(g, to, f[r := Ref(to, Total(g, order))], order + [r])
  {
    var order', f' := order + [r], f[r := Ref(to, Total(g, order))];
    forall i {:trigger Place(g, order', to, i)} | 0 <= i < |order'| ensures f'[order'[i]] == Place(g, order', to, i) {
      assert order'[..i] == order[..i];
      if i < |order| { assert f[order[i]] == Place(g, order, to, i); }
      OffPrefix(g, order', order, i);
    }
  }

  /** A scanned prefix does not change when the renaming grows. */
  lemma CopyStable(g: Graph, store: map<Ref, Cell>, f: map<Ref, Ref>, r: Ref, n: nat,
                   store': map<Ref, Cell>, x: Ref, d: Ref)
    requires CopyOk(g, store, f, r, n)
    requires x in g && x !in f
    requires f[r] in store' && store'[f[r]] == store[f[r]]
    ensures CopyOk(g, store', f[x := d], r, n)
  {
    var kids := Children(g[r]);
    forall i | 0 <= i < n ensures Tr(kids[i], f[x := d]) == Tr(kids[i], f) {
      assert kids[..n][i] == kids[i];
    }
    assert TrUpTo(kids, f[x := d], n) == TrUpTo(kids, f, n);
  }

  lemma CopiesAppend(g: Graph, to: nat, store: map<Ref, Cell>, f: map<Ref, Ref>,
                     order: seq<Ref>, done: seq<nat>, store': map<Ref, Cell>, r: Ref, d: Ref)
    requires CopiesOk(g, store, f, order, done)
    requires r in g && r !in f && d != r
    requires forall x :: x in f ==> f[x].buf == to && f[x] != d
    requires r.buf != to && d.buf == to
    requires store' == store[d := Live(g[r])][r := Forwarded(KindOf(g[r]), d)]
    ensures CopiesOk(g, store', f[r := d], order + [r], done + [0])
  {
    var order', done' := order + [r], done + [0];
    forall i | 0 <= i < |order'| ensures CopyOk(g, store', f[r := d], order'[i], done'[i]) {
      if i < |order| {
        assert order'[i] == order[i] && done'[i] == done[i];
        CopyStable(g, store, f, order[i], done[i], store', r, d);
      } else {
        assert TrUpTo(Children(g[r]), f[r := d], 0) == Children(g[r]);
      }
    }
  }

  lemma MarkedAppend(g: Graph, to: nat, store: map<Ref, Cell>, f: map<Ref, Ref>,
                     store': map<Ref, Cell>, r: Ref, d: Ref)
    requires Marked(g, to, store, f)
    requires r in g && d.buf == to
    requires store' == store[d := Live(g[r])][r := Forwarded(KindOf(g[r]), d)]
    ensures Marked(g, to, store', f[r := d])
  {
  }

  lemma ReachableAppend(g: Graph, roots: seq<Val>, order: seq<Ref>, r: Ref)
    requires AllReachable(g, roots, order) && Reachable(g, roots, r)
    ensures AllReachable(g, roots, order + [r])
  {
  }

  /** Copying one more object keeps the invariant. */
  lemma CopyKeeps(g: Graph, roots: seq<Val>, to: nat, store: map<Ref, Cell>,
                  f: map<Ref, Ref>, order: seq<Ref>, done: seq<nat>,
                  store': map<Ref, Cell>, r: Ref, d: Ref)
    requires Inv(g, roots, to, store, f, order, done)
    requires r in g && r !in f && Reachable(g, roots, r)
    requires d == Ref(to, Total(g, order))
    requires store' == store[d := Live(g[r])][r := Forwarded(KindOf(g[r]), d)]
    ensures Inv(g, roots, to, store', f[r := d], order + [r], done + [0])
  {
    PlacedInjective(g, to, f, order);
    PlacedAppend(g, to, f, order, r);
    MarkedAppend(g, to, store, f, store', r, d);
    CopiesAppend(g, to, store, f, order, done, store', r, d);
    ReachableAppend(g, roots, order, r);
  }

  lemma CopiesUpdate(g: Graph, store: map<Ref, Cell>, f: map<Ref, Ref>,
                     order: seq<Ref>, done: seq<nat>, k: nat, store': map<Ref, Cell>)
    requires CopiesOk(g, store, f, order, done) && Injective(f) && Distinct(order)
    requires k < |order| && done[k] < |Children(g[order[k]])|
    requires Into(Children(g[order[k]])[done[k]], g) ==> Children(g[order[k]])[done[k]].ref in f
    requires store' == store[f[order[k]] := Live(Copy(g[order[k]], f, done[k] + 1))]
    ensures CopiesOk(g, store', f, order, done[k := done[k] + 1])
  {
    var done' := done[k := done[k] + 1];
    forall i | 0 <= i < |order| ensures CopyOk(g, store', f, order[i], done'[i]) {
      if i != k {
        assert CopyOk(g, store, f, order[i], done[i]);
        assert order[i] != order[k];
      } else {
        assert CopyOk(g, store, f, order[k], done[k]);
        var kids, n := Children(g[order[k]]), done[k];
        assert kids[..n + 1] == kids[..n] + [kids[n]];
      }
    }
  }

  lemma MarkedUpdate(g: Graph, to: nat, store: map<Ref, Cell>, f: map<Ref, Ref>,
                     store': map<Ref, Cell>, d: Ref, c: Cell)
    requires Marked(g, to, store, f) && d.buf == to && store' == store[d := c]
    ensures Marked(g, to, store', f)
  {
  }

  /** Translating one child of one copy keeps the invariant. */
  lemma ChildScanned(g: Graph, roots: seq<Val>, to: nat, store: map<Ref, Cell>,
                     f: map<Ref, Ref>, order: seq<Ref>, done: seq<nat>, k: nat, store': map<Ref, Cell>)
    requires Inv(g, roots, to, store, f, order, done)
    requires k < |order| && done[k] < |Children(g[order[k]])|
    requires Into(Children(g[order[k]])[done[k]], g) ==> Children(g[order[k]])[done[k]].ref in f
    requires store' == store[f[order[k]] := Live(Copy(g[order[k]], f, done[k] + 1))]
    ensures Inv(g, roots, to, store', f, order, done[k := done[k] + 1])
  {
    PlacedInjective(g, to, f, order);
    CopiesUpdate(g, store, f, order, done, k, store');
    MarkedUpdate(g, to, store, f, store', f[order[k]], Live(Copy(g[order[k]], f, done[k] + 1)));
  }

  // ---- the end of a scan ----

  /** The objects at the given places, as a graph. */
  ghost function Space(store: map<Ref, Cell>, rs: seq<Ref>): Graph {
    map r | r in rs && r in store && store[r].Live? :: store[r].obj
  }

  function Dests(g: Graph, to: nat, order: seq<Ref>): (r: seq<Ref>)
    ensures |r| == |order| && forall i :: 0 <= i < |r| ==> r[i] == Place(g, order, to, i)
  {
    seq(|order|, i requires 0 <= i < |order| => Place(g, order, to, i))
  }

  /** A finished scan has copied exactly the reachable objects, each once, and
      the copies are the whole new space. */
  ghost predicate Collected(g: Graph, roots: seq<Val>, h: Graph, roots': seq<Val>, f: map<Ref, Ref>) {
    && Iso(g, roots, h, roots', f)
    && (forall r :: r in f <==> Reachable(g, roots, r))
    && (forall r :: r in f ==> f[r] in h)
    && (forall d :: d in h ==> exists r :: r in f && f[r] == d)
  }

  ghost predicate AllScanned(g: Graph, order: seq<Ref>, done: seq<nat>) {
    && |done| == |order|
    && forall i :: 0 <= i < |order| ==> order[i] in g && done[i] == |Children(g[order[i]])|
  }

  lemma CopyDone(g: Graph, store: map<Ref, Cell>, f: map<Ref, Ref>, r: Ref)
    requires r in g && CopyOk(g, store, f, r, |Children(g[r])|)
    ensures store[f[r]] == Live(TrObj(g[r], f)) && AllIn(Children(g[r]), g, f)
  {
    var kids := Children(g[r]);
    assert TrUpTo(kids, f, |kids|) == TrSeq(kids, f);
    assert kids[..|kids|] == kids;
  }

  lemma ScanIso(g: Graph, roots: seq<Val>, to: nat, store: map<Ref, Cell>,
                f: map<Ref, Ref>, order: seq<Ref>, done: seq<nat>)
    requires Placed(g, to, f, order) && CopiesOk(g, store, f, order, done)
    requires AllScanned(g, order, done) && AllIn(roots, g, f)
    ensures Iso(g, roots, Space(store, Dests(g, to, order)), TrSeq(roots, f), f)
  {
    var ds := Dests(g, to, order);
    forall r | r in f
      ensures r in g && f[r] in ds && f[r] in store && store[f[r]] == Live(TrObj(g[r], f))
        && AllIn(Children(g[r]), g, f)
    {
      var i :| 0 <= i < |order| && order[i] == r;
      assert ds[i] == f[r];
      CopyDone(g, store, f, r);
    }
    PlacedInjective(g, to, f, order);
  }

  lemma DestsCovered(g: Graph, to: nat, store: map<Ref, Cell>, f: map<Ref, Ref>, order: seq<Ref>)
    requires Placed(g, to, f, order)
    ensures forall d :: d in Space(store, Dests(g, to, order)) ==> exists r :: r in f && f[r] == d
  {
    var ds := Dests(g, to, order);
    forall d | d in Space(store, ds) ensures exists r :: r in f && f[r] == d {
      var i :| 0 <= i < |ds| && ds[i] == d;
      assert f[order[i]] == d;
    }
  }

  lemma ExactlyReachable(g: Graph, roots: seq<Val>, f: map<Ref, Ref>, order: seq<Ref>)
    requires forall r :: r in f <==> r in order
    requires AllReachable(g, roots, order) && AllIn(roots, g, f)
    requires forall r :: r in f && r in g ==> AllIn(Children(g[r]), g, f)
    ensures forall r :: r in f <==> Reachable(g, roots, r)
  {
    ClosedHoldsReachable(g, roots, f);
    forall r | r in f ensures Reachable(g, roots, r) {
      var i :| 0 <= i < |order| && order[i] == r;
    }
  }

  lemma ScanDone(g: Graph, roots: seq<Val>, to: nat, store: map<Ref, Cell>,
                 f: map<Ref, Ref>, order: seq<Ref>, done: seq<nat>)
    requires Inv(g, roots, to, store, f, order, done)
    requires AllScanned(g, order, done) && AllIn(roots, g, f)
    ensures Collected(g, roots, Space(store, Dests(g, to, order)), TrSeq(roots, f), f)
  {
    ScanIso(g, roots, to, store, f, order, done);
    ExactlyReachable(g, roots, f, order);
    DestsCovered(g, to, store, f, order);
  }

  // ---- bundles used by the imperative collector ----

  /** What one collection works on: the source graph, the roots, and a list of
      every source object, which bounds what can be copied. */
  datatype Job = Job(g: Graph, roots: seq<Val>, all: seq<Ref>)

  /** How far a collection has come. */
  datatype Progress = Progress(f: map<Ref, Ref>, order: seq<Ref>, done: seq<nat>)

  ghost predicate Running(c: Job, to: nat, store: map<Ref, Cell>, s: Progress) {
    && (forall r :: r in c.g ==> r in c.all)
    && Inv(c.g, c.roots, to, store, s.f, s.order, s.done)
  }

  /** Progress only ever extends. */
  ghost predicate Extends(s: Progress, t: Progress) {
    && s.order <= t.order && |s.done| <= |t.done|
    && (forall r :: r in s.f ==> r in t.f && t.f[r] == s.f[r])
    && (forall i :: 0 <= i < |t.done| ==> t.done[i] == if i < |s.done| then s.done[i] else 0)
  }

  lemma ExtendsTransitive(s: Progress, t: Progress, u: Progress)
    requires Extends(s, t) && Extends(t, u)
    ensures Extends(s, u)
  {
  }

  /** There is room for one more copy below the bound on all objects. */
  lemma NextFits(g: Graph, all: seq<Ref>, order: seq<Ref>, r: Ref)
    requires forall x :: x in g ==> x in all
    requires Distinct(order) && r in g && r !in order
    requires forall i :: 0 <= i < |order| ==> order[i] in g
    ensures Total(g, order) + Size(g[r]) <= Total(g, all)
  {
    var longer := order + [r];
    assert longer[..|order|] == order[..|order|];
    OffPrefix(g, longer, order, |order|);
    SubsetFits(g, longer, all);
  }

  lemma CountsMatch(c: Job, to: nat, store: map<Ref, Cell>, s: Progress)
    requires Running(c, to, store, s)
    ensures |s.done| == |s.order| && forall i :: 0 <= i < |s.order| ==> s.order[i] in c.g
  {
  }

  lemma SourcesOnly(c: Job, to: nat, store: map<Ref, Cell>, s: Progress)
    requires Running(c, to, store, s)
    ensures forall r :: r in s.f ==> r in c.g
  {
  }

  /** What the collector finds at a source: the copy made before, or the
      untouched original, for which there is room. */
  lemma SourceCell(c: Job, to: nat, store: map<Ref, Cell>, s: Progress, r: Ref)
    requires Running(c, to, store, s) && r in c.g
    ensures r in store && r.buf != to
    ensures store[r].Forwarded? ==> r in s.f && store[r].to == s.f[r]
    ensures store[r].Live? ==> r !in s.f && store[r].obj == c.g[r]
    ensures store[r].Live? ==> Total(c.g, s.order) + Size(c.g[r]) <= Total(c.g, c.all)
  {
    if store[r].Live? { NextFits(c.g, c.all, s.order, r); }
  }

  function Copied(s: Progress, r: Ref, d: Ref): Progress {
    Progress(s.f[r := d], s.order + [r], s.done + [0])
  }

  lemma CopyStep(c: Job, to: nat, store: map<Ref, Cell>, s: Progress, store': map<Ref, Cell>, r: Ref, d: Ref)
    requires Running(c, to, store, s)
    requires r in c.g && r !in s.f && Reachable(c.g, c.roots, r)
    requires d == Ref(to, Total(c.g, s.order))
    requires store' == store[d := Live(c.g[r])][r := Forwarded(KindOf(c.g[r]), d)]
    ensures Running(c, to, store', Copied(s, r, d))
    ensures Extends(s, Copied(s, r, d))
    ensures Total(c.g, Copied(s, r, d).order) == Total(c.g, s.order) + Size(c.g[r])
  {
    CopyKeeps(c.g, c.roots, to, store, s.f, s.order, s.done, store', r, d);
    CopiedExtends(c.g, s, r, d);
  }

  lemma CopiedExtends(g: Graph, s: Progress, r: Ref, d: Ref)
    requires r in g && r !in s.f
    ensures Extends(s, Copied(s, r, d))
    ensures Total(g, Copied(s, r, d).order) == Total(g, s.order) + Size(g[r])
  {
    var longer := s.order + [r];
    assert longer[..|s.order|] == s.order[..|s.order|];
    OffPrefix(g, longer, s.order, |s.order|);
  }

  /** Copy k as the scan meets it. */
  lemma CopyAt(c: Job, to: nat, store: map<Ref, Cell>, s: Progress, k: nat)
    requires Running(c, to, store, s) && k < |s.order|
    ensures |s.done| == |s.order| && s.order[k] in c.g && s.order[k] in s.f
    ensures s.f[s.order[k]] == Ref(to, Off(c.g, s.order, k))
    ensures s.done[k] <= |Children(c.g[s.order[k]])|
    ensures var r := s.order[k]; s.f[r] in store && store[s.f[r]] == Live(Copy(c.g[r], s.f, s.done[k]))
    ensures Off(c.g, s.order, k + 1) == Off(c.g, s.order, k) + Size(c.g[s.order[k]]) <= Total(c.g, c.all)
    ensures Reachable(c.g, c.roots, s.order[k])
  {
    hide Marked;
    hide Reachable;
    assert CopyOk(c.g, store, s.f, s.order[k], s.done[k]);
    assert s.f[s.order[k]] == Place(c.g, s.order, to, k);
    CopyFits(c.g, c.all, s.order, k);
  }

  lemma CopyFits(g: Graph, all: seq<Ref>, order: seq<Ref>, k: nat)
    requires Distinct(order) && (forall i :: 0 <= i < |order| ==> order[i] in g)
    requires (forall r :: r in g ==> r in all) && k < |order|
    ensures Off(g, order, k + 1) == Off(g, order, k) + Size(g[order[k]]) <= Total(g, all)
  {
    SubsetFits(g, order, all);
    if k + 1 < |order| { OffGrows(g, order, k + 1, |order|); }
  }

  lemma ChildReachable(c: Job, r: Ref, j: nat)
    requires WellFormed(c.g, c.roots) && r in c.g && Reachable(c.g, c.roots, r) && j < |Children(c.g[r])|
    ensures Settled([Children(c.g[r])[j]], c.g)
    ensures Into(Children(c.g[r])[j], c.g) ==> Reachable(c.g, c.roots, Children(c.g[r])[j].ref)
  {
    if Into(Children(c.g[r])[j], c.g) { ReachStep(c.g, c.roots, r, j); }
  }

  function Advanced(s: Progress, k: nat): Progress
    requires k < |s.done|
  {
    s.(done := s.done[k := s.done[k] + 1])
  }

  lemma ScanStep(c: Job, to: nat, store: map<Ref, Cell>, s: Progress, k: nat, store': map<Ref, Cell>)
    requires Running(c, to, store, s)
    requires k < |s.order| && k < |s.done| && s.order[k] in c.g && s.order[k] in s.f
    requires s.done[k] < |Children(c.g[s.order[k]])|
    requires Into(Children(c.g[s.order[k]])[s.done[k]], c.g) ==> Children(c.g[s.order[k]])[s.done[k]].ref in s.f
    requires var r, kids := s.order[k], Children(Copy(c.g[s.order[k]], s.f, s.done[k]));
             store' == store[s.f[r] := Live(WithChildren(Copy(c.g[r], s.f, s.done[k]),
                                              kids[s.done[k] := Tr(Children(c.g[r])[s.done[k]], s.f)]))]
    ensures Running(c, to, store', Advanced(s, k))
  {
    hide Placed, Marked, CopiesOk, AllReachable;
    CopyNext(c.g[s.order[k]], s.f, s.done[k]);
    ChildScanned(c.g, c.roots, to, store, s.f, s.order, s.done, k, store');
  }

  lemma RootAt(c: Job, i: nat)
    requires WellFormed(c.g, c.roots) && i < |c.roots|
    ensures Settled([c.roots[i]], c.g)
    ensures Into(c.roots[i], c.g) ==> Reachable(c.g, c.roots, c.roots[i].ref)
  {
    if Into(c.roots[i], c.g) { ReachRoot(c.g, c.roots, i); }
  }

  /** Values already translated stay as they are while a collection goes on. */
  lemma NextTranslated(g: Graph, vs: seq<Val>, f: map<Ref, Ref>, f': map<Ref, Ref>, n: nat)
    requires n < |vs| && AllIn(vs[..n], g, f)
    requires forall r :: r in f ==> r in f' && f'[r] == f[r]
    requires forall r :: r in f' ==> r in g
    requires Into(vs[n], g) ==> vs[n].ref in f'
    ensures TrUpTo(vs, f, n)[n := Tr(vs[n], f')] == TrUpTo(vs, f', n + 1)
    ensures AllIn(vs[..n + 1], g, f')
  {
    forall i | 0 <= i < n ensures Tr(vs[i], f') == Tr(vs[i], f) && (Into(vs[i], g) ==> vs[i].ref in f') {
      assert vs[..n][i] == vs[i];
    }
    forall i | 0 <= i < n + 1 ensures vs[..n + 1][i] == vs[i] { }
  }

  lemma NoneTranslated(g: Graph, vs: seq<Val>, f: map<Ref, Ref>)
    ensures TrUpTo(vs, f, 0) == vs && AllIn(vs[..0], g, f)
  {
  }

  lemma AllTranslated(g: Graph, vs: seq<Val>, f: map<Ref, Ref>)
    requires AllIn(vs[..|vs|], g, f)
    ensures TrUpTo(vs, f, |vs|) == TrSeq(vs, f) && AllIn(vs, g, f)
  {
    assert vs[..|vs|] == vs;
  }

  lemma TrGrows(g: Graph, vs: seq<Val>, f: map<Ref, Ref>, f': map<Ref, Ref>)
    requires AllIn(vs, g, f)
    requires forall r :: r in f ==> r in f' && f'[r] == f[r]
    requires forall r :: r in f' ==> r in g
    ensures TrSeq(vs, f') == TrSeq(vs, f) && AllIn(vs, g, f')
  {
  }

  lemma TrConcat(g: Graph, vs: seq<Val>, ws: seq<Val>, f: map<Ref, Ref>)
    requires AllIn(vs, g, f) && AllIn(ws, g, f)
    ensures TrSeq(vs + ws, f) == TrSeq(vs, f) + TrSeq(ws, f) && AllIn(vs + ws, g, f)
  {
  }

  /** The roots after stack, extra root and scan are done. */
  lemma RootsDone(c: Job, to: nat, store: map<Ref, Cell>, u: Progress, v: Progress, s: Progress,
                  st: seq<Val>, last: seq<Val>)
    requires Running(c, to, store, s) && c.roots == st + last
    requires AllIn(last, c.g, u.f) && AllIn(st, c.g, v.f)
    requires forall r :: r in u.f ==> r in v.f && v.f[r] == u.f[r]
    requires forall r :: r in v.f ==> r in s.f && s.f[r] == v.f[r]
    ensures AllIn(c.roots, c.g, s.f)
    ensures TrSeq(c.roots, s.f) == TrSeq(st, v.f) + TrSeq(last, u.f)
  {
    SourcesOnly(c, to, store, s);
    hide Running;
    TrGrows(c.g, last, u.f, s.f);
    TrGrows(c.g, st, v.f, s.f);
    TrConcat(c.g, st, last, s.f);
  }

  lemma RunStart(c: Job, to: nat, store: map<Ref, Cell>)
    requires forall r :: r in c.g ==> r.buf != to && r in c.all && r in store && store[r] == Live(c.g[r])
    ensures Running(c, to, store, Progress(map[], [], []))
  {
  }

  // ---- what a collection leaves behind ----

  /** Objects laid out back to back from the bottom of a buffer. */
  ghost predicate Laid(store: map<Ref, Cell>, buf: nat, objs: seq<Ref>, top: nat) {
    && (forall i :: 0 <= i < |objs| ==> objs[i] in store && store[objs[i]].Live?)
    && InPlace(Space(store, objs), objs, buf, objs)
    && Total(Space(store, objs), objs) == top
  }

  lemma {:induction false} OffSame(g: Graph, rs: seq<Ref>, h: Graph, qs: seq<Ref>, n: nat)
    requires n <= |rs| && n <= |qs|
    requires forall i :: 0 <= i < n ==> SizeAt(g, rs[i]) == SizeAt(h, qs[i])
    ensures Off(g, rs, n) == Off(h, qs, n)
  {
    if n > 0 { OffSame(g, rs, h, qs, n - 1); }
  }

  /** Objects of a laid-out space lie below its top. */
  lemma LaidBelow(store: map<Ref, Cell>, buf: nat, objs: seq<Ref>, top: nat)
    requires Laid(store, buf, objs, top)
    ensures top % 8 == 0
    ensures forall r :: r in Space(store, objs) <==> r in objs
    ensures forall r :: r in objs ==> r.buf == buf && r.off < top
  {
    var g := Space(store, objs);
    forall r | r in objs ensures r.buf == buf && r.off < top {
      var i :| 0 <= i < |objs| && objs[i] == r;
      assert objs[i] == Place(g, objs, buf, i);
      OffGrows(g, objs, i, |objs|);
    }
    OffAligned(g, objs, |objs|);
  }

  lemma LaidAppend(store: map<Ref, Cell>, buf: nat, objs: seq<Ref>, top: nat, o: Obj)
    requires Laid(store, buf, objs, top)
    ensures Laid(store[Ref(buf, top) := Live(o)], buf, objs + [Ref(buf, top)], top + Size(o))
    ensures Space(store[Ref(buf, top) := Live(o)], objs + [Ref(buf, top)]) == Space(store, objs)[Ref(buf, top) := o]
    ensures Ref(buf, top) !in Space(store, objs)
  {
    LaidBelow(store, buf, objs, top);
    var r := Ref(buf, top);
    var store', objs' := store[r := Live(o)], objs + [r];
    var g, g' := Space(store, objs), Space(store', objs');
    assert g' == g[r := o];
    forall i | 0 <= i <= |objs| ensures Off(g', objs', i) == Off(g, objs, i) {
      OffSame(g', objs', g, objs, i);
    }
    forall i {:trigger Place(g', objs', buf, i)} | 0 <= i < |objs'| ensures objs'[i] == Place(g', objs', buf, i) {
      if i < |objs| { assert objs[i] == Place(g, objs, buf, i); }
    }
  }

  lemma LaidOverwrite(store: map<Ref, Cell>, buf: nat, objs: seq<Ref>, top: nat, r: Ref, o: Obj)
    requires Laid(store, buf, objs, top) && r in objs && Size(o) == Size(store[r].obj)
    ensures Laid(store[r := Live(o)], buf, objs, top)
    ensures Space(store[r := Live(o)], objs) == Space(store, objs)[r := o]
  {
    var store' := store[r := Live(o)];
    var g, g' := Space(store, objs), Space(store', objs);
    assert g' == g[r := o];
    forall i | 0 <= i <= |objs| ensures Off(g', objs, i) == Off(g, objs, i) {
      OffSame(g', objs, g, objs, i);
    }
    forall i {:trigger Place(g', objs, buf, i)} | 0 <= i < |objs| ensures objs[i] == Place(g', objs, buf, i) {
      assert objs[i] == Place(g, objs, buf, i);
    }
  }

  /** A layout only looks at its own cells. */
  lemma LaidFrame(store: map<Ref, Cell>, store': map<Ref, Cell>, buf: nat, objs: seq<Ref>, top: nat)
    requires Laid(store, buf, objs, top)
    requires forall r :: r in objs ==> r in store' && store'[r] == store[r]
    ensures Laid(store', buf, objs, top) && Space(store', objs) == Space(store, objs)
  {
    assert Space(store', objs) == Space(store, objs);
  }

  lemma LaidElsewhere(store: map<Ref, Cell>, buf: nat, objs: seq<Ref>, top: nat, r: Ref, c: Cell)
    requires Laid(store, buf, objs, top) && r.buf != buf
    ensures Laid(store[r := c], buf, objs, top) && Space(store[r := c], objs) == Space(store, objs)
  {
    LaidBelow(store, buf, objs, top);
    LaidFrame(store, store[r := c], buf, objs, top);
  }

  lemma SameSizesLaid(g: Graph, to: nat, store: map<Ref, Cell>, order: seq<Ref>)
    requires forall i :: 0 <= i < |order| ==> order[i] in g
    requires forall i :: 0 <= i < |order| ==> var d := Dests(g, to, order)[i];
               d in store && store[d].Live? && Size(store[d].obj) == Size(g[order[i]])
    ensures Laid(store, to, Dests(g, to, order), Total(g, order))
  {
    var ds := Dests(g, to, order);
    var h := Space(store, ds);
    forall n | 0 <= n <= |ds| ensures Off(g, order, n) == Off(h, ds, n) {
      OffSame(g, order, h, ds, n);
    }
  }

  lemma NewSpaceLaid(g: Graph, to: nat, store: map<Ref, Cell>, f: map<Ref, Ref>,
                     order: seq<Ref>, done: seq<nat>)
    requires Placed(g, to, f, order) && CopiesOk(g, store, f, order, done)
    ensures Laid(store, to, Dests(g, to, order), Total(g, order))
  {
    var ds := Dests(g, to, order);
    forall i | 0 <= i < |ds|
      ensures ds[i] in store && store[ds[i]].Live? && Size(store[ds[i]].obj) == Size(g[order[i]])
    {
      assert ds[i] == f[order[i]];
      assert CopyOk(g, store, f, order[i], done[i]);
    }
    SameSizesLaid(g, to, store, order);
  }

  /** After a collection nothing points into the old space. */
  lemma CollectedWellFormed(g: Graph, roots: seq<Val>, h: Graph, roots': seq<Val>, f: map<Ref, Ref>)
    requires WellFormed(g, roots) && Collected(g, roots, h, roots', f)
    requires forall d :: d in h ==> d.buf != 0
    ensures WellFormed(h, roots')
  {
    hide Reachable;
    forall d | d in h ensures Settled(Children(h[d]), h) {
      var r :| r in f && f[r] == d;
      SettledMoves(g, h, f, Children(g[r]));
    }
    SettledMoves(g, h, f, roots);
  }

  lemma WellFormedPart(g: Graph, roots: seq<Val>, more: seq<Val>)
    requires WellFormed(g, roots + more)
    ensures WellFormed(g, roots)
  {
    forall i | 0 <= i < |roots| ensures (roots + more)[i] == roots[i] { }
  }

  lemma SettledMoves(g: Graph, h: Graph, f: map<Ref, Ref>, vs: seq<Val>)
    requires Settled(vs, g) && AllIn(vs, g, f)
    requires forall r :: r in f ==> f[r] in h
    ensures Settled(TrSeq(vs, f), h)
  {
  }

  /** Everything a finished scan establishes about the new space. */
  lemma Finished(c: Job, to: nat, store: map<Ref, Cell>, s: Progress)
    requires Running(c, to, store, s) && AllScanned(c.g, s.order, s.done) && AllIn(c.roots, c.g, s.f)
    requires WellFormed(c.g, c.roots) && to > 0
    ensures var ds := Dests(c.g, to, s.order);
            && Laid(store, to, ds, Total(c.g, s.order))
            && Collected(c.g, c.roots, Space(store, ds), TrSeq(c.roots, s.f), s.f)
            && WellFormed(Space(store, ds), TrSeq(c.roots, s.f))
            && Total(c.g, s.order) <= Total(c.g, c.all)
  {
    hide Placed, Marked, CopiesOk, AllReachable, AllScanned, AllIn, WellFormed, Collected, Laid, Total, Reachable;
    var ds := Dests(c.g, to, s.order);
    NewSpaceLaid(c.g, to, store, s.f, s.order, s.done);
    ScanDone(c.g, c.roots, to, store, s.f, s.order, s.done);
    SpaceIn(store, to, ds);
    CollectedWellFormed(c.g, c.roots, Space(store, ds), TrSeq(c.roots, s.f), s.f);
    OrderFits(c, to, store, s);
  }

  lemma OrderFits(c: Job, to: nat, store: map<Ref, Cell>, s: Progress)
    requires Running(c, to, store, s)
    ensures Total(c.g, s.order) <= Total(c.g, c.all)
  {
    hide Marked, CopiesOk, AllReachable;
    SubsetFits(c.g, s.order, c.all);
  }

  lemma SpaceIn(store: map<Ref, Cell>, buf: nat, ds: seq<Ref>)
    requires forall i :: 0 <= i < |ds| ==> ds[i].buf == buf
    ensures forall d :: d in Space(store, ds) ==> d.buf == buf
  {
  }

  // ---- the finalizing walk ----

  /** The payloads of the first n objects that were not copied and that
      process `pid` owned. */
  function DeadPayloads(g: Graph, objs: seq<Ref>, f: map<Ref, Ref>, pid: nat, n: nat): seq<nat>
    requires n <= |objs|
  {
    if n == 0 then []
    else
      var r := objs[n - 1];
      DeadPayloads(g, objs, f, pid, n - 1) +
      if r in g && r !in f && g[r].Resource? && g[r].owner == pid && g[r].payload.Some?
      then [g[r].payload.value] else []
  }

  /** One object of a space in which a collection has left forwarding marks:
      a marked object's size can only be read off its copy. */
  ghost predicate Walked(store: map<Ref, Cell>, g: Graph, f: map<Ref, Ref>, r: Ref) {
    && r in g && r in store
    && if r in f then
         && store[r] == Forwarded(KindOf(g[r]), f[r])
         && f[r] in store && f[r].buf != r.buf
         && store[f[r]].Live? && Size(store[f[r]].obj) == Size(g[r])
       else store[r] == Live(g[r])
  }

  /** A space of back-to-back objects, some of them forwarded. */
  ghost predicate Walkable(store: map<Ref, Cell>, g: Graph, f: map<Ref, Ref>, buf: nat, os: seq<Ref>, bytes: nat) {
    && (forall i :: 0 <= i < |os| ==> Walked(store, g, f, os[i]))
    && InPlace(g, os, buf, os)
    && Total(g, os) == bytes
  }

  lemma LaidDistinct(g: Graph, os: seq<Ref>, buf: nat, n: nat)
    requires n < |os| && InPlace(g, os, buf, os) && forall i :: 0 <= i < |os| ==> os[i] in g
    ensures Off(g, os, n + 1) == Off(g, os, n) + Size(g[os[n]]) <= Total(g, os)
    ensures forall i :: 0 <= i < |os| && i != n ==> os[i] != os[n]
  {
    if n + 1 < |os| { OffGrows(g, os, n + 1, |os|); }
    forall i | 0 <= i < |os| && i != n ensures os[i] != os[n] {
      assert os[i] == Place(g, os, buf, i) && os[n] == Place(g, os, buf, n);
      if i < n { OffGrows(g, os, i, n); } else { OffGrows(g, os, n, i); }
    }
  }

  lemma WalkStep(store: map<Ref, Cell>, g: Graph, f: map<Ref, Ref>, buf: nat, os: seq<Ref>, bytes: nat, n: nat)
    requires Walkable(store, g, f, buf, os, bytes) && n < |os|
    ensures Walked(store, g, f, os[n]) && os[n] == Place(g, os, buf, n)
    ensures Off(g, os, n + 1) == Off(g, os, n) + Size(g[os[n]]) <= bytes
    ensures forall i :: 0 <= i < |os| && i != n ==> os[i] != os[n]
  {
    forall i | 0 <= i < |os| ensures os[i] in g { assert Walked(store, g, f, os[i]); }
    LaidDistinct(g, os, buf, n);
    assert os[n] == Place(g, os, buf, n);
  }

  lemma WalkBound(store: map<Ref, Cell>, g: Graph, f: map<Ref, Ref>, buf: nat, os: seq<Ref>, bytes: nat)
    requires Walkable(store, g, f, buf, os, bytes)
    ensures bytes == Off(g, os, |os|) && forall i :: 0 <= i < |os| ==> os[i] in g && os[i] in store
  {
    forall i | 0 <= i < |os| ensures os[i] in g && os[i] in store { assert Walked(store, g, f, os[i]); }
  }

  lemma WalkReady(c: Job, to: nat, store: map<Ref, Cell>, s: Progress, os: seq<Ref>)
    requires Running(c, to, store, s)
    requires forall i :: 0 <= i < |os| ==> os[i] in c.g
    ensures forall i :: 0 <= i < |os| ==> Walked(store, c.g, s.f, os[i])
  {
    hide Reachable;
    forall i | 0 <= i < |os| ensures Walked(store, c.g, s.f, os[i]) {
      if os[i] in s.f {
        var k :| 0 <= k < |s.order| && s.order[k] == os[i];
        assert CopyOk(c.g, store, s.f, s.order[k], s.done[k]);
        assert s.f[os[i]] == Place(c.g, s.order, to, k);
      }
    }
  }

  /** Exactly the unreachable owned resources are released: a payload is in the
      list if and only if some uncopied header of `pid` holds it. */
  lemma {:induction false} DeadPayloadsExact(g: Graph, objs: seq<Ref>, f: map<Ref, Ref>, pid: nat, n: nat, x: nat)
    requires n <= |objs|
    ensures x in DeadPayloads(g, objs, f, pid, n) <==>
            exists i :: 0 <= i < n && objs[i] in g && objs[i] !in f && g[objs[i]] == Resource(pid, Some(x))
  {
    if n > 0 { DeadPayloadsExact(g, objs, f, pid, n - 1, x); }
  }

  /** All that holds when the semispaces change places. */
  lemma SwapReady(c: Job, to: nat, store: map<Ref, Cell>, s: Progress, os: seq<Ref>, buf: nat, bytes: nat,
                  st: seq<Val>, last: seq<Val>)
    requires Running(c, to, store, s) && AllScanned(c.g, s.order, s.done) && AllIn(c.roots, c.g, s.f)
    requires WellFormed(c.g, c.roots) && to > 0 && TrSeq(c.roots, s.f) == st + last
    requires (forall i :: 0 <= i < |os| ==> os[i] in c.g) && InPlace(c.g, os, buf, os) && Total(c.g, os) == bytes
    ensures var ds := Dests(c.g, to, s.order);
            && Laid(store, to, ds, Total(c.g, s.order)) && Total(c.g, s.order) <= Total(c.g, c.all)
            && Collected(c.g, c.roots, Space(store, ds), st + last, s.f) && WellFormed(Space(store, ds), st)
            && Walkable(store, c.g, s.f, buf, os, bytes)
  {
    hide Running, Reachable, WellFormed, AllIn, AllScanned, Laid, Walked, Collected, InPlace, TrSeq, Space, Total,
         Dests;
    Finished(c, to, store, s);
    WalkReady(c, to, store, s, os);
    WellFormedPart(Space(store, Dests(c.g, to, s.order)), st, last);
  }

  // ---- the scan from copy to copy ----

  /** The first k copies are translated, the others untouched, and nothing copied
      before has been lost. */
  ghost predicate ScannedTo(g: Graph, s: Progress, k: nat, f0: map<Ref, Ref>) {
    && k <= |s.order| == |s.done| && (forall i :: 0 <= i < |s.order| ==> s.order[i] in g)
    && (forall i :: 0 <= i < k ==> s.done[i] == |Children(g[s.order[i]])|)
    && (forall i :: k <= i < |s.done| ==> s.done[i] == 0)
    && (forall r :: r in f0 ==> r in s.f && s.f[r] == f0[r])
  }

  lemma ScannedNext(g: Graph, u: Progress, s: Progress, k: nat, f0: map<Ref, Ref>)
    requires ScannedTo(g, u, k, f0) && k < |u.order| && |s.done| == |s.order|
    requires Extends(u.(done := u.done[k := |Children(g[u.order[k]])|]), s)
    requires forall i :: 0 <= i < |s.order| ==> s.order[i] in g
    ensures ScannedTo(g, s, k + 1, f0) && u.order <= s.order
  {
  }

  lemma ScannedStart(g: Graph, s: Progress)
    requires |s.done| == |s.order| && (forall i :: 0 <= i < |s.order| ==> s.order[i] in g)
    requires forall i :: 0 <= i < |s.done| ==> s.done[i] == 0
    ensures ScannedTo(g, s, 0, s.f)
  {
  }

  lemma OffNone(g: Graph, rs: seq<Ref>)
    ensures Off(g, rs, 0) == 0
  {
  }

  lemma AtMost(g: Graph, s: Progress, k: nat, f0: map<Ref, Ref>)
    requires ScannedTo(g, s, k, f0)
    ensures k <= |s.order|
  {
  }

  lemma InRange(g: Graph, s: Progress, k: nat, f0: map<Ref, Ref>, top: nat)
    requires ScannedTo(g, s, k, f0) && Off(g, s.order, k) < top == Total(g, s.order)
    ensures k < |s.order| == |s.done| && s.done[k] == 0
  {
  }

  lemma ScannedEnd(g: Graph, s: Progress, k: nat, f0: map<Ref, Ref>)
    requires ScannedTo(g, s, k, f0) && Off(g, s.order, k) >= Total(g, s.order)
    ensures AllScanned(g, s.order, s.done) && forall r :: r in f0 ==> r in s.f && s.f[r] == f0[r]
  {
    OffEnd(g, s.order, k);
  }

  // ---- how much is live ----

  /** A list of exactly the reachable objects, each once. */
  ghost predicate LiveList(g: Graph, roots: seq<Val>, rs: seq<Ref>) {
    Distinct(rs) && forall r :: r in rs <==> Reachable(g, roots, r)
  }

  /** The reachable objects take n bytes. */
  ghost predicate LiveBytes(g: Graph, roots: seq<Val>, n: nat) {
    exists rs :: LiveList(g, roots, rs) && Total(g, rs) == n
  }

  ghost function Source(f: map<Ref, Ref>, d: Ref): (r: Ref)
    requires exists r :: r in f && f[r] == d
    ensures r in f && f[r] == d
  {
    var r :| r in f && f[r] == d;
    r
  }

  /** A collection leaves exactly the live bytes. */
  lemma LiveIs(store: map<Ref, Cell>, buf: nat, objs: seq<Ref>, top: nat, g: Graph, roots: seq<Val>, roots': seq<Val>,
               f: map<Ref, Ref>)
    requires Laid(store, buf, objs, top) && Collected(g, roots, Space(store, objs), roots', f)
    ensures LiveBytes(g, roots, top)
  {
    hide Reachable, Off, Place, Laid, Space, Iso, InPlace, LiveList;
    var h := Space(store, objs);
    LaidApart(store, buf, objs, top);
    IsoSizes(g, roots, h, roots', f);
    var rs := Sources(objs, f);
    OffSame(g, rs, h, objs, |rs|);
    assert LiveList(g, roots, rs) by { ListsLive(g, roots, f, rs); }
  }

  lemma ListsLive(g: Graph, roots: seq<Val>, f: map<Ref, Ref>, rs: seq<Ref>)
    requires Distinct(rs) && (forall r :: r in rs <==> r in f) && forall r :: r in f <==> Reachable(g, roots, r)
    ensures LiveList(g, roots, rs)
  {
  }

  /** The objects whose copies a list names, in its order. */
  lemma Sources(objs: seq<Ref>, f: map<Ref, Ref>) returns (rs: seq<Ref>)
    requires Distinct(objs) && Injective(f) && (forall d :: d in objs ==> exists r :: r in f && f[r] == d)
    requires forall r :: r in f ==> f[r] in objs
    ensures |rs| == |objs| && Distinct(rs) && (forall r :: r in rs <==> r in f)
    ensures forall i :: 0 <= i < |rs| ==> rs[i] in f && f[rs[i]] == objs[i]
  {
    assert forall i :: 0 <= i < |objs| ==> objs[i] in objs;
    rs := seq(|objs|, i requires 0 <= i < |objs| => Source(f, objs[i]));
    forall r | r in f ensures r in rs {
      var i :| 0 <= i < |objs| && objs[i] == f[r];
      assert rs[i] == r;
    }
  }

  lemma LaidApart(store: map<Ref, Cell>, buf: nat, objs: seq<Ref>, top: nat)
    requires Laid(store, buf, objs, top)
    ensures var h := Space(store, objs);
            Total(h, objs) == top && Distinct(objs) && forall r :: r in h <==> r in objs
  {
    hide Off, Place;
    LaidBelow(store, buf, objs, top);
    forall i, j | 0 <= i < j < |objs| ensures objs[i] != objs[j] { LaidDistinct(Space(store, objs), objs, buf, i); }
  }

  lemma IsoSizes(g: Graph, roots: seq<Val>, h: Graph, roots': seq<Val>, f: map<Ref, Ref>)
    requires Iso(g, roots, h, roots', f)
    ensures Injective(f) && forall r :: r in f ==> f[r] in h && SizeAt(g, r) == SizeAt(h, f[r])
  {
    forall r | r in f ensures f[r] in h && SizeAt(g, r) == SizeAt(h, f[r]) { assert h[f[r]] == TrObj(g[r], f); }
  }
}
