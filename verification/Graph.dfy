/** Object graphs, reachability and isomorphism: the specification that the
    collector and the callback convergence are proved against.

    A graph is a map from references to objects.  References outside the map
    point at storage that is never moved (string constants).
 */
module Graph {
  import opened Heap

  type Graph = map<Ref, Obj>

  /** A value seen through a renaming of references. */
  function Tr(v: Val, f: map<Ref, Ref>): Val {
    if v.Ptr? && v.ref in f then Ptr(v.kind, f[v.ref]) else v
  }

  function TrSeq(vs: seq<Val>, f: map<Ref, Ref>): (r: seq<Val>)
    ensures |r| == |vs| && forall i :: 0 <= i < |vs| ==> r[i] == Tr(vs[i], f)
  {
    seq(|vs|, i requires 0 <= i < |vs| => Tr(vs[i], f))
  }

  function TrObj(o: Obj, f: map<Ref, Ref>): (r: Obj)
    ensures Size(r) == Size(o) && KindOf(r) == KindOf(o)
    ensures Children(r) == TrSeq(Children(o), f)
  {
    WithChildren(o, TrSeq(Children(o), f))
  }

  /** `v` refers into the graph. */
  predicate Into(v: Val, g: Graph) { v.Ptr? && v.ref in g }

  ghost predicate AllIn(vs: seq<Val>, g: Graph, s: map<Ref, Ref>) {
    forall i :: 0 <= i < |vs| && Into(vs[i], g) ==> vs[i].ref in s
  }

  ghost predicate Injective(f: map<Ref, Ref>) {
    forall a, b :: a in f && b in f && f[a] == f[b] ==> a == b
  }

  // ---- reachability ----

  ghost predicate RootRef(g: Graph, roots: seq<Val>, r: Ref) {
    exists i :: 0 <= i < |roots| && Into(roots[i], g) && roots[i].ref == r
  }

  ghost predicate Edge(g: Graph, a: Ref, b: Ref) {
    && a in g
    && exists i :: 0 <= i < |Children(g[a])| && Into(Children(g[a])[i], g) && Children(g[a])[i].ref == b
  }

  ghost predicate IsPath(g: Graph, roots: seq<Val>, p: seq<Ref>) {
    && |p| > 0
    && RootRef(g, roots, p[0])
    && forall i :: 0 <= i < |p| - 1 ==> Edge(g, p[i], p[i + 1])
  }

  ghost predicate Reachable(g: Graph, roots: seq<Val>, r: Ref) {
    exists p :: IsPath(g, roots, p) && p[|p| - 1] == r
  }

  lemma ReachRoot(g: Graph, roots: seq<Val>, i: nat)
    requires i < |roots| && Into(roots[i], g)
    ensures Reachable(g, roots, roots[i].ref)
  {
    assert IsPath(g, roots, [roots[i].ref]);
  }

  lemma ReachStep(g: Graph, roots: seq<Val>, a: Ref, i: nat)
    requires Reachable(g, roots, a) && a in g
    requires i < |Children(g[a])| && Into(Children(g[a])[i], g)
    ensures Reachable(g, roots, Children(g[a])[i].ref)
  {
    var p :| IsPath(g, roots, p) && p[|p| - 1] == a;
    var b := Children(g[a])[i].ref;
    assert Edge(g, a, b);
    assert IsPath(g, roots, p + [b]);
    assert (p + [b])[|p + [b]| - 1] == b;
  }

  /** A set that holds the roots and is closed under edges holds everything
      reachable. */
  lemma {:induction false} PathInClosed(g: Graph, roots: seq<Val>, s: map<Ref, Ref>, p: seq<Ref>)
    requires IsPath(g, roots, p)
    requires AllIn(roots, g, s)
    requires forall r :: r in s && r in g ==> AllIn(Children(g[r]), g, s)
    ensures p[|p| - 1] in s
    decreases |p|
  {
    if |p| > 1 {
      var q := p[..|p| - 1];
      assert IsPath(g, roots, q);
      PathInClosed(g, roots, s, q);
      assert Edge(g, p[|p| - 2], p[|p| - 1]);
    }
  }

  lemma ClosedHoldsReachable(g: Graph, roots: seq<Val>, s: map<Ref, Ref>)
    requires AllIn(roots, g, s)
    requires forall r :: r in s && r in g ==> AllIn(Children(g[r]), g, s)
    ensures forall r :: Reachable(g, roots, r) ==> r in s
  {
    forall r | Reachable(g, roots, r) ensures r in s {
      var p :| IsPath(g, roots, p) && p[|p| - 1] == r;
      PathInClosed(g, roots, s, p);
    }
  }

  // ---- isomorphism ----

  /** References that leave the graph stay put, so they may never be mistaken
      for references into the other graph: they all name buffer 0. */
  ghost predicate Settled(vs: seq<Val>, g: Graph) {
    forall i :: 0 <= i < |vs| && vs[i].Ptr? ==> vs[i].ref in g || vs[i].ref.buf == 0
  }

  ghost predicate WellFormed(g: Graph, roots: seq<Val>) {
    && Settled(roots, g)
    && (forall r :: r in g ==> r.buf != 0)
    && (forall r :: r in g ==> Settled(Children(g[r]), g))
  }

  /** `f` embeds what the roots reach in `g` into `h`: roots and contents
      match, and two references are equal after exactly when they were equal
      before, so sharing is kept. */
  ghost predicate Iso(g: Graph, roots: seq<Val>, h: Graph, roots': seq<Val>, f: map<Ref, Ref>) {
    && roots' == TrSeq(roots, f)
    && AllIn(roots, g, f)
    && Injective(f)
    && forall r :: r in f ==>
         && r in g && f[r] in h
         && h[f[r]] == TrObj(g[r], f)
         && AllIn(Children(g[r]), g, f)
  }

  function Compose(f: map<Ref, Ref>, k: map<Ref, Ref>): map<Ref, Ref> {
    map r | r in f && f[r] in k :: k[f[r]]
  }

  lemma ComposeTr(g: Graph, h: Graph, f: map<Ref, Ref>, k: map<Ref, Ref>, vs: seq<Val>)
    requires AllIn(vs, g, f) && Settled(vs, g)
    requires forall r :: r in f ==> r in g && f[r] in h
    requires forall r :: r in g ==> r.buf != 0
    requires forall r :: r in k ==> r.buf != 0
    requires forall i :: 0 <= i < |vs| && Into(TrSeq(vs, f)[i], h) ==> TrSeq(vs, f)[i].ref in k
    ensures TrSeq(TrSeq(vs, f), k) == TrSeq(vs, Compose(f, k))
    ensures AllIn(vs, g, Compose(f, k))
  {
    forall i | 0 <= i < |vs|
      ensures Tr(Tr(vs[i], f), k) == Tr(vs[i], Compose(f, k))
      ensures Into(vs[i], g) ==> vs[i].ref in Compose(f, k)
    {
      if Into(vs[i], g) {
        assert TrSeq(vs, f)[i] == Tr(vs[i], f);
      }
    }
  }

  /** Two moves in a row are one move. */
  lemma IsoTransitive(g: Graph, r0: seq<Val>, h: Graph, r1: seq<Val>, m: Graph, r2: seq<Val>,
                      f: map<Ref, Ref>, k: map<Ref, Ref>)
    requires WellFormed(g, r0) && WellFormed(h, r1)
    requires Iso(g, r0, h, r1, f) && Iso(h, r1, m, r2, k)
    ensures Iso(g, r0, m, r2, Compose(f, k))
  {
    var c := Compose(f, k);
    ComposeTr(g, h, f, k, r0);
    forall r | r in c
      ensures r in g && c[r] in m && m[c[r]] == TrObj(g[r], c) && AllIn(Children(g[r]), g, c)
    {
      assert TrObj(g[r], f) == h[f[r]];
      ComposeTr(g, h, f, k, Children(g[r]));
      assert TrObj(TrObj(g[r], f), k) == TrObj(g[r], c) by {
        TrObjCompose(g[r], f, k, c);
      }
    }
  }

  lemma TrObjCompose(o: Obj, f: map<Ref, Ref>, k: map<Ref, Ref>, c: map<Ref, Ref>)
    requires TrSeq(TrSeq(Children(o), f), k) == TrSeq(Children(o), c)
    ensures TrObj(TrObj(o, f), k) == TrObj(o, c)
  {
    match o
    case Pair(_, _) =>
      assert Children(o) == [o.car, o.cdr];
      assert TrSeq(Children(o), c)[0] == TrSeq(TrSeq(Children(o), f), k)[0];
      assert TrSeq(Children(o), c)[1] == TrSeq(TrSeq(Children(o), f), k)[1];
    case _ =>
  }

  /** What two images of the same graph have in common. */
  ghost function Between(f1: map<Ref, Ref>, f2: map<Ref, Ref>): (k: map<Ref, Ref>)
    requires Injective(f1)
    ensures forall r :: r in f1 && r in f2 ==> f1[r] in k && k[f1[r]] == f2[r]
    ensures forall d :: d in k ==> exists r :: r in f1 && r in f2 && f1[r] == d
  {
    map r | r in f1 && r in f2 :: f1[r] := f2[r]
  }

  lemma BetweenAt(g: Graph, v: Val, h: Graph, f1: map<Ref, Ref>, f2: map<Ref, Ref>)
    requires Injective(f1) && (Into(v, g) ==> v.ref in f1 && v.ref in f2) && (v.Ptr? ==> v.ref in g || v.ref.buf == 0)
    requires forall r :: r in f1 ==> r in g && f1[r] in h
    requires forall r :: r in f2 ==> r in g
    requires (forall r :: r in g ==> r.buf != 0) && (forall d :: d in h ==> d.buf != 0)
    ensures Tr(Tr(v, f1), Between(f1, f2)) == Tr(v, f2)
    ensures Into(Tr(v, f1), h) ==> Tr(v, f1).ref in Between(f1, f2)
  {
  }

  lemma BetweenTr(g: Graph, vs: seq<Val>, h: Graph, f1: map<Ref, Ref>, f2: map<Ref, Ref>)
    requires Injective(f1) && AllIn(vs, g, f1) && AllIn(vs, g, f2) && Settled(vs, g)
    requires forall r :: r in f1 ==> r in g && f1[r] in h
    requires forall r :: r in f2 ==> r in g
    requires (forall r :: r in g ==> r.buf != 0) && (forall d :: d in h ==> d.buf != 0)
    ensures TrSeq(TrSeq(vs, f1), Between(f1, f2)) == TrSeq(vs, f2)
    ensures AllIn(TrSeq(vs, f1), h, Between(f1, f2))
  {
    hide Between, Tr, Injective;
    var k := Between(f1, f2);
    forall i | 0 <= i < |vs|
      ensures Tr(Tr(vs[i], f1), k) == Tr(vs[i], f2) && (Into(Tr(vs[i], f1), h) ==> Tr(vs[i], f1).ref in k)
    {
      BetweenAt(g, vs[i], h, f1, f2);
    }
  }

  /** Two images of the same graph are isomorphic to each other. */
  lemma IsoAgree(g: Graph, roots: seq<Val>, h1: Graph, r1: seq<Val>, f1: map<Ref, Ref>,
                 h2: Graph, r2: seq<Val>, f2: map<Ref, Ref>)
    requires WellFormed(g, roots) && (forall d :: d in h1 ==> d.buf != 0)
    requires Iso(g, roots, h1, r1, f1) && Iso(g, roots, h2, r2, f2)
    ensures Iso(h1, r1, h2, r2, Between(f1, f2))
  {
    var k := Between(f1, f2);
    BetweenTr(g, roots, h1, f1, f2);
    forall d | d in k
      ensures d in h1 && k[d] in h2 && h2[k[d]] == TrObj(h1[d], k) && AllIn(Children(h1[d]), h1, k)
    {
      var r :| r in f1 && r in f2 && f1[r] == d;
      BetweenTr(g, Children(g[r]), h1, f1, f2);
      TrObjCompose(g[r], f1, k, f2);
    }
  }

  function Identity(g: Graph): map<Ref, Ref> { map r | r in g :: r }

  /** Nothing moved: the identity embeds a graph into any extension of it. */
  lemma IsoIdentity(g: Graph, roots: seq<Val>, h: Graph)
    requires forall r :: r in g ==> r in h && h[r] == g[r]
    ensures Iso(g, roots, h, roots, Identity(g))
  {
    var f := Identity(g);
    forall vs: seq<Val> ensures TrSeq(vs, f) == vs { }
    forall r | r in f ensures TrObj(g[r], f) == g[r] {
      assert TrSeq(Children(g[r]), f) == Children(g[r]);
    }
  }

  /** New objects beside the image do not disturb it. */
  lemma IsoExtend(g: Graph, roots: seq<Val>, h: Graph, roots': seq<Val>, f: map<Ref, Ref>, r: Ref, o: Obj)
    requires Iso(g, roots, h, roots', f) && r !in h
    ensures Iso(g, roots, h[r := o], roots', f)
  {
  }

  lemma IsoGrows(g: Graph, roots: seq<Val>, h: Graph, roots': seq<Val>, f: map<Ref, Ref>, more: Graph)
    requires Iso(g, roots, h, roots', f) && forall r :: r in h ==> r in more && more[r] == h[r]
    ensures Iso(g, roots, more, roots', f)
  {
  }

  lemma IsoRange(g: Graph, roots: seq<Val>, h: Graph, roots': seq<Val>, f: map<Ref, Ref>, r: Ref)
    requires Iso(g, roots, h, roots', f) && r !in h
    ensures forall x :: x in f ==> f[x] != r
  {
  }

  /** Writing an object outside the image does not disturb it either. */
  lemma IsoOverwrite(g: Graph, roots: seq<Val>, h: Graph, roots': seq<Val>, f: map<Ref, Ref>, r: Ref, o: Obj)
    requires Iso(g, roots, h, roots', f) && forall x :: x in f ==> f[x] != r
    ensures Iso(g, roots, h[r := o], roots', f)
  {
  }

  lemma WellFormedOverwrite(g: Graph, roots: seq<Val>, r: Ref, o: Obj)
    requires WellFormed(g, roots) && r in g && Settled(Children(o), g)
    ensures WellFormed(g[r := o], roots)
  {
    var h := g[r := o];
    forall x | x in h ensures Settled(Children(h[x]), h) {
      if x != r { assert Settled(Children(g[x]), g); }
    }
  }

  lemma IsoInjective(g: Graph, roots: seq<Val>, h: Graph, roots': seq<Val>, f: map<Ref, Ref>)
    requires Iso(g, roots, h, roots', f)
    ensures Injective(f)
  {
  }

  lemma IsoRoots(g: Graph, roots: seq<Val>, h: Graph, roots': seq<Val>, f: map<Ref, Ref>)
    requires Iso(g, roots, h, roots', f)
    ensures roots' == TrSeq(roots, f)
  {
  }

  lemma SettledPair(car: Val, cdr: Val, g: Graph)
    requires Settled([car], g) && Settled([cdr], g)
    ensures Settled(Children(Pair(car, cdr)), g)
  {
    assert [car][0] == car && [cdr][0] == cdr;
  }

  lemma WellFormedExtend(g: Graph, roots: seq<Val>, r: Ref, o: Obj)
    requires WellFormed(g, roots) && r.buf != 0 && r !in g && Settled(Children(o), g)
    ensures WellFormed(g[r := o], roots)
  {
    var h := g[r := o];
    forall x | x in h ensures Settled(Children(h[x]), h) {
      if x != r { assert Settled(Children(g[x]), g); }
    }
  }
}
