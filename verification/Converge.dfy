/** Rebuilding a callback's result in the heap, over values.

    `src` holds the chunk objects.  They are immutable, so every reference
    from one chunk object to another goes to an older one; `age` says how old.
    Chunk objects are rebuilt once each, in the order the work stack reaches
    them, and remembered in `f`; everything else passes through.
 */
module Converge {
  import opened Heap
  import opened Graph
  import opened Cheney

  ghost predicate Older(src: Graph, age: map<Ref, nat>) {
    && (forall r :: r in src ==> r in age)
    && forall r, i :: r in src && 0 <= i < |Children(src[r])| && Into(Children(src[r])[i], src) ==>
         age[Children(src[r])[i].ref] < age[r]
  }

  /** Chunk objects as a callback makes them: each refers only to the heap
      `g` and to older ones. */
  ghost predicate Grown(src: Graph, age: map<Ref, nat>, g: Graph, n: nat) {
    && Older(src, age)
    && (forall r :: r in src ==> age[r] < n)
    && (forall r :: r in src ==> Settled(Children(src[r]), g + src))
  }

  lemma GrownAppend(src: Graph, age: map<Ref, nat>, g: Graph, n: nat, r: Ref, o: Obj, src': Graph, age': map<Ref, nat>)
    requires Grown(src, age, g, n) && r !in g && r !in src && r.buf != 0 && Settled(Children(o), g + src)
    requires src' == src[r := o] && age' == age[r := n]
    ensures Grown(src', age', g, n + 1)
  {
  }

  /** The objects rebuilt so far (`order`), where they went, the heap that now
      holds them, and its top. */
  datatype State = State(f: map<Ref, Ref>, order: seq<Ref>, h: Graph, top: nat)

  function Rank(src: Graph, age: map<Ref, nat>, v: Val): nat {
    if Into(v, src) && v.ref in age then age[v.ref] + 1 else 0
  }

  function RankAll(src: Graph, age: map<Ref, nat>, vs: seq<Val>): (n: nat)
    ensures forall i :: 0 <= i < |vs| ==> Rank(src, age, vs[i]) <= n
  {
    if vs == [] then 0
    else
      var n := RankAll(src, age, vs[1..]);
      assert forall i :: 1 <= i < |vs| ==> vs[i] == vs[1..][i - 1];
      if Rank(src, age, vs[0]) > n then Rank(src, age, vs[0]) else n
  }

  lemma {:induction false} RankAllBelow(src: Graph, age: map<Ref, nat>, vs: seq<Val>, n: nat)
    requires forall i :: 0 <= i < |vs| ==> Rank(src, age, vs[i]) <= n
    ensures RankAll(src, age, vs) <= n
  {
    if vs != [] { RankAllBelow(src, age, vs[1..], n); }
  }

  function Rebuild(src: Graph, buf: nat, st: State, r: Ref, kids: seq<Val>): State
    requires r in src && |kids| == |Children(src[r])|
  {
    var d := Ref(buf, st.top);
    State(st.f[r := d], st.order + [r], st.h[d := WithChildren(src[r], kids)], st.top + Size(src[r]))
  }

  /** The recursive meaning of copying one value. */
  ghost function Conv(src: Graph, age: map<Ref, nat>, buf: nat, st: State, v: Val): (State, Val)
    requires Older(src, age)
    decreases Rank(src, age, v), 0
  {
    if !Into(v, src) then (st, v)
    else if v.ref in st.f then (st, Ptr(v.kind, st.f[v.ref]))
    else
      var kids := Children(src[v.ref]);
      RankAllBelow(src, age, kids, age[v.ref]);
      var (st1, ws) := ConvAll(src, age, buf, st, kids);
      if |ws| != |kids| then (st1, v)
      else (Rebuild(src, buf, st1, v.ref, ws), Ptr(v.kind, Ref(buf, st1.top)))
  }

  ghost function ConvAll(src: Graph, age: map<Ref, nat>, buf: nat, st: State, vs: seq<Val>): (r: (State, seq<Val>))
    requires Older(src, age)
    ensures |r.1| == |vs|
    decreases RankAll(src, age, vs), |vs|
  {
    if vs == [] then (st, [])
    else
      var (st1, w) := Conv(src, age, buf, st, vs[0]);
      var (st2, ws) := ConvAll(src, age, buf, st1, vs[1..]);
      (st2, [w] + ws)
  }

  // ---- what a rebuild keeps ----

  ghost predicate Below(h: Graph, buf: nat, top: nat) {
    forall r :: r in h ==> r.buf == buf && r.off < top
  }

  ghost predicate Listed(src: Graph, base: nat, st: State) {
    && Distinct(st.order)
    && (forall i :: 0 <= i < |st.order| ==> st.order[i] in src)
    && (forall r :: r in st.f <==> r in st.order)
    && st.top == base + Total(src, st.order)
  }

  ghost predicate Imaged(src: Graph, buf: nat, base: nat, st: State) {
    && Injective(st.f)
    && forall r :: r in st.f ==>
         && r in src && st.f[r].buf == buf && base <= st.f[r].off < st.top
         && st.f[r] in st.h && st.h[st.f[r]] == TrObj(src[r], st.f)
         && AllIn(Children(src[r]), src, st.f)
  }

  ghost predicate Rebuilt(src: Graph, buf: nat, base: nat, st: State) {
    Listed(src, base, st) && Imaged(src, buf, base, st) && base <= st.top && Below(st.h, buf, st.top)
  }

  ghost predicate Later(st: State, st': State) {
    && (forall r :: r in st.f ==> r in st'.f && st'.f[r] == st.f[r])
    && (forall r :: r in st.h ==> r in st'.h && st'.h[r] == st.h[r])
    && st.top <= st'.top
  }

  /** Everything added was older than `n`. */
  ghost predicate AddsBelow(age: map<Ref, nat>, st: State, st': State, n: nat) {
    forall r :: r in st'.f && r !in st.f ==> r in age && age[r] < n
  }

  lemma ImageStable(src: Graph, f: map<Ref, Ref>, o: Obj, r: Ref, d: Ref)
    requires AllIn(Children(o), src, f) && r in src && r !in f
    ensures TrObj(o, f[r := d]) == TrObj(o, f) && AllIn(Children(o), src, f[r := d])
  {
    assert TrSeq(Children(o), f[r := d]) == TrSeq(Children(o), f);
  }

  lemma OrderAppend(src: Graph, order: seq<Ref>, r: Ref)
    requires r in src
    ensures Total(src, order + [r]) == Total(src, order) + Size(src[r])
  {
    assert (order + [r])[..|order|] == order[..|order|];
    OffPrefix(src, order + [r], order, |order|);
  }

  lemma ListedAppend(src: Graph, base: nat, st: State, st': State, r: Ref, d: Ref)
    requires Listed(src, base, st) && r in src && r !in st.f
    requires st'.f == st.f[r := d] && st'.order == st.order + [r] && st'.top == st.top + Size(src[r])
    ensures Listed(src, base, st')
  {
    OrderAppend(src, st.order, r);
  }

  lemma ImagedAppend(src: Graph, buf: nat, base: nat, st: State, st': State, r: Ref)
    requires Imaged(src, buf, base, st) && Below(st.h, buf, st.top) && base <= st.top < st'.top
    requires r in src && r !in st.f && AllIn(Children(src[r]), src, st.f)
    requires st'.f == st.f[r := Ref(buf, st.top)] && st'.h == st.h[Ref(buf, st.top) := TrObj(src[r], st.f)]
    ensures Imaged(src, buf, base, st') && Below(st'.h, buf, st'.top)
  {
    hide TrObj, AllIn, Injective, Below, Children;
    var d := Ref(buf, st.top);
    BelowAppend(st.h, buf, st.top, TrObj(src[r], st.f), st'.top);
    assert forall x :: x in st.f ==> st.f[x] in st.h && st.f[x] != d && st'.h[st.f[x]] == st.h[st.f[x]];
    assert forall x :: x in st.f ==> st.f[x] != d;
    StillInjective(st.f, r, d);
    forall x | x in st'.f ensures TrObj(src[x], st'.f) == TrObj(src[x], st.f) && AllIn(Children(src[x]), src, st'.f) {
      ImageStable(src, st.f, src[x], r, d);
    }
  }

  lemma BelowAppend(h: Graph, buf: nat, top: nat, o: Obj, top': nat)
    requires Below(h, buf, top) && top < top'
    ensures Below(h[Ref(buf, top) := o], buf, top') && Ref(buf, top) !in h
  {
  }

  lemma StillInjective(f: map<Ref, Ref>, r: Ref, d: Ref)
    requires Injective(f) && r !in f && forall x :: x in f ==> f[x] != d
    ensures Injective(f[r := d])
  {
  }

  /** Rebuilding one object whose children are rebuilt. */
  lemma RebuildKeeps(src: Graph, buf: nat, base: nat, st: State, r: Ref)
    requires Rebuilt(src, buf, base, st)
    requires r in src && r !in st.f && AllIn(Children(src[r]), src, st.f)
    ensures var st' := Rebuild(src, buf, st, r, TrSeq(Children(src[r]), st.f));
            Rebuilt(src, buf, base, st') && Later(st, st')
  {
    hide Listed, Imaged, AllIn;
    var st' := Rebuild(src, buf, st, r, TrSeq(Children(src[r]), st.f));
    ListedAppend(src, base, st, st', r, Ref(buf, st.top));
    ImagedAppend(src, buf, base, st, st', r);
  }

  ghost predicate Kept(src: Graph, age: map<Ref, nat>, buf: nat, base: nat, st: State, st': State, n: nat) {
    && Rebuilt(src, buf, base, st')
    && Later(st, st') && AddsBelow(age, st, st', n)
  }

  lemma KidsOlder(src: Graph, age: map<Ref, nat>, r: Ref)
    requires Older(src, age) && r in src
    ensures r in age && RankAll(src, age, Children(src[r])) <= age[r]
  {
    RankAllBelow(src, age, Children(src[r]), age[r]);
  }

  lemma ImageFront(src: Graph, vs: seq<Val>, f1: map<Ref, Ref>, f2: map<Ref, Ref>)
    requires vs != [] && (Into(vs[0], src) ==> vs[0].ref in f1) && AllIn(vs[1..], src, f2)
    requires forall r :: r in f1 ==> r in f2 && f2[r] == f1[r]
    requires forall r :: r in f2 ==> r in src
    ensures [Tr(vs[0], f1)] + TrSeq(vs[1..], f2) == TrSeq(vs, f2) && AllIn(vs, src, f2)
  {
    forall i | 0 < i < |vs| ensures vs[1..][i - 1] == vs[i] { }
  }

  lemma SourceOnly(src: Graph, buf: nat, base: nat, st: State)
    requires Rebuilt(src, buf, base, st)
    ensures forall r :: r in st.f ==> r in src
  {
  }

  lemma KeptRebuild(src: Graph, age: map<Ref, nat>, buf: nat, base: nat, st: State, st1: State, r: Ref, n: nat)
    requires Kept(src, age, buf, base, st, st1, n) && r in age && n <= age[r]
    requires r in src && r !in st.f && AllIn(Children(src[r]), src, st1.f)
    ensures r !in st1.f
    ensures Kept(src, age, buf, base, st, Rebuild(src, buf, st1, r, TrSeq(Children(src[r]), st1.f)), age[r] + 1)
  {
    hide Rebuilt;
    RebuildKeeps(src, buf, base, st1, r);
  }

  lemma KeptChain(src: Graph, age: map<Ref, nat>, buf: nat, base: nat, st: State, st1: State, st2: State, m: nat,
                  n: nat, k: nat)
    requires Kept(src, age, buf, base, st, st1, m) && Kept(src, age, buf, base, st1, st2, n) && m <= k && n <= k
    ensures Kept(src, age, buf, base, st, st2, k)
  {
    hide Rebuilt;
  }

  lemma NoneIn(src: Graph, f: map<Ref, Ref>)
    ensures AllIn([], src, f)
  {
  }

  /** Copying a value keeps what was rebuilt, and yields its image. */
  lemma {:induction false} ConvKeeps(src: Graph, age: map<Ref, nat>, buf: nat, base: nat, st: State, v: Val)
    requires Older(src, age) && Rebuilt(src, buf, base, st)
    ensures var (st', w) := Conv(src, age, buf, st, v);
            && Kept(src, age, buf, base, st, st', Rank(src, age, v))
            && w == Tr(v, st'.f) && (Into(v, src) ==> v.ref in st'.f)
    decreases Rank(src, age, v), 0
  {
    hide Rebuilt, Older, RankAll;
    SourceOnly(src, buf, base, st);
    if Into(v, src) && v.ref !in st.f {
      var kids := Children(src[v.ref]);
      KidsOlder(src, age, v.ref);
      ConvAllKeeps(src, age, buf, base, st, kids);
      var (st1, ws) := ConvAll(src, age, buf, st, kids);
      KeptRebuild(src, age, buf, base, st, st1, v.ref, RankAll(src, age, kids));
    }
  }

  lemma {:induction false} ConvAllKeeps(src: Graph, age: map<Ref, nat>, buf: nat, base: nat, st: State, vs: seq<Val>)
    requires Older(src, age) && Rebuilt(src, buf, base, st)
    ensures var (st', ws) := ConvAll(src, age, buf, st, vs);
            && Kept(src, age, buf, base, st, st', RankAll(src, age, vs))
            && ws == TrSeq(vs, st'.f) && AllIn(vs, src, st'.f)
    decreases RankAll(src, age, vs), |vs|
  {
    hide Rebuilt, Older, AllIn;
    if vs == [] {
      NoneIn(src, st.f);
    } else {
      ConvKeeps(src, age, buf, base, st, vs[0]);
      var (st1, w) := Conv(src, age, buf, st, vs[0]);
      ConvAllKeeps(src, age, buf, base, st1, vs[1..]);
      var (st2, ws) := ConvAll(src, age, buf, st1, vs[1..]);
      SourceOnly(src, buf, base, st2);
      ImageFront(src, vs, st1.f, st2.f);
      KeptChain(src, age, buf, base, st, st1, st2, Rank(src, age, vs[0]), RankAll(src, age, vs[1..]),
        RankAll(src, age, vs));
    }
  }

  /** A whole fast copy: it stays within the arena total, whatever the result
      shares. */
  lemma CopyBounded(src: Graph, age: map<Ref, nat>, buf: nat, g: Graph, top: nat, v: Val, all: seq<Ref>)
    requires Older(src, age) && Below(g, buf, top) && forall r :: r in src ==> r in all
    ensures var st := State(map[], [], g, top);
            var (st', w) := Conv(src, age, buf, st, v);
            && Rebuilt(src, buf, top, st') && Later(st, st')
            && top <= st'.top <= top + Total(src, all)
            && w == Tr(v, st'.f) && (Into(v, src) ==> v.ref in st'.f)
  {
    hide Older, Imaged, Below;
    var st := State(map[], [], g, top);
    NothingRebuilt(src, buf, g, top);
    ConvKeeps(src, age, buf, top, st, v);
    var st' := Conv(src, age, buf, st, v).0;
    SubsetFits(src, st'.order, all);
  }

  lemma NothingRebuilt(src: Graph, buf: nat, g: Graph, top: nat)
    requires Below(g, buf, top)
    ensures Rebuilt(src, buf, top, State(map[], [], g, top))
  {
  }

  // ---- the work stack ----

  /** A value still to copy, or an object whose children are all copied. */
  datatype Task = Copy(v: Val) | Make(r: Ref, kind: Kind)

  /** Values pushed so that the first is on top. */
  function Pushed(vs: seq<Val>): seq<Task> {
    if vs == [] then [] else Pushed(vs[1..]) + [Copy(vs[0])]
  }

  /** What the work stack still stands for. */
  ghost function Meaning(src: Graph, age: map<Ref, nat>, buf: nat, st: State, tasks: seq<Task>,
                         results: seq<Val>): (State, seq<Val>)
    requires Older(src, age)
    decreases |tasks|
  {
    if tasks == [] then (st, results)
    else
      var rest := tasks[..|tasks| - 1];
      match tasks[|tasks| - 1]
      case Copy(v) =>
        var (st1, w) := Conv(src, age, buf, st, v);
        Meaning(src, age, buf, st1, rest, results + [w])
      case Make(r, kind) =>
        if r !in src || |Children(src[r])| > |results| then (st, results)
        else
          var n := |results| - |Children(src[r])|;
          Meaning(src, age, buf, Rebuild(src, buf, st, r, results[n..]), rest,
            results[..n] + [Ptr(kind, Ref(buf, st.top))])
  }

  lemma {:induction false} PushedMeaning(src: Graph, age: map<Ref, nat>, buf: nat, st: State,
                                         tasks: seq<Task>, vs: seq<Val>, results: seq<Val>)
    requires Older(src, age)
    ensures var (st1, ws) := ConvAll(src, age, buf, st, vs);
            Meaning(src, age, buf, st, tasks + Pushed(vs), results) == Meaning(src, age, buf, st1, tasks, results + ws)
    decreases |vs|
  {
    hide Older;
    if vs == [] {
      assert tasks + Pushed(vs) == tasks && results + [] == results;
    } else {
      var all := tasks + Pushed(vs);
      var (st1, w) := Conv(src, age, buf, st, vs[0]);
      assert all[|all| - 1] == Copy(vs[0]) && all[..|all| - 1] == tasks + Pushed(vs[1..]);
      PushedMeaning(src, age, buf, st1, tasks, vs[1..], results + [w]);
      var (st2, ws) := ConvAll(src, age, buf, st1, vs[1..]);
      assert results + [w] + ws == results + ([w] + ws);
    }
  }

  /** Replacing a value by its children and a marker does not change what the
      work stack stands for. */
  lemma ExpandMeaning(src: Graph, age: map<Ref, nat>, buf: nat, st: State,
                      tasks: seq<Task>, v: Val, results: seq<Val>)
    requires Older(src, age) && Into(v, src) && v.ref !in st.f
    ensures Meaning(src, age, buf, st, tasks + [Copy(v)], results)
         == Meaning(src, age, buf, st, tasks + [Make(v.ref, v.kind)] + Pushed(Children(src[v.ref])), results)
  {
    hide Older;
    var kids := Children(src[v.ref]);
    var marked := tasks + [Make(v.ref, v.kind)];
    PushedMeaning(src, age, buf, st, marked, kids, results);
    var (st1, ws) := ConvAll(src, age, buf, st, kids);
    var all := results + ws;
    assert marked[..|marked| - 1] == tasks && (tasks + [Copy(v)])[..|tasks|] == tasks;
    assert all[|all| - |kids|..] == ws && all[..|all| - |kids|] == results;
  }

  /** How much work a value is at most: the size of its unfolding. */
  ghost function Work(src: Graph, age: map<Ref, nat>, v: Val): nat
    requires Older(src, age)
    decreases Rank(src, age, v), 0
  {
    if !Into(v, src) then 1
    else
      RankAllBelow(src, age, Children(src[v.ref]), age[v.ref]);
      2 + WorkAll(src, age, Children(src[v.ref]))
  }

  ghost function WorkAll(src: Graph, age: map<Ref, nat>, vs: seq<Val>): nat
    requires Older(src, age)
    decreases RankAll(src, age, vs), |vs|
  {
    if vs == [] then 0 else Work(src, age, vs[0]) + WorkAll(src, age, vs[1..])
  }

  ghost function Left(src: Graph, age: map<Ref, nat>, tasks: seq<Task>): nat
    requires Older(src, age)
  {
    if tasks == [] then 0
    else
      Left(src, age, tasks[..|tasks| - 1]) +
      match tasks[|tasks| - 1] case Copy(v) => Work(src, age, v) case Make(_, _) => 1
  }

  lemma {:induction false} LeftPushed(src: Graph, age: map<Ref, nat>, tasks: seq<Task>, vs: seq<Val>)
    requires Older(src, age)
    ensures Left(src, age, tasks + Pushed(vs)) == Left(src, age, tasks) + WorkAll(src, age, vs)
    decreases |vs|
  {
    hide Older;
    if vs == [] {
      assert tasks + Pushed(vs) == tasks;
    } else {
      var all := tasks + Pushed(vs);
      assert all[|all| - 1] == Copy(vs[0]) && all[..|all| - 1] == tasks + Pushed(vs[1..]);
      LeftPushed(src, age, tasks, vs[1..]);
    }
  }

  lemma LeftExpand(src: Graph, age: map<Ref, nat>, tasks: seq<Task>, v: Val)
    requires Older(src, age) && Into(v, src)
    ensures Left(src, age, tasks + [Make(v.ref, v.kind)] + Pushed(Children(src[v.ref])))
          < Left(src, age, tasks + [Copy(v)])
  {
    hide Older;
    var marked := tasks + [Make(v.ref, v.kind)];
    LeftPushed(src, age, marked, Children(src[v.ref]));
    assert marked[..|tasks|] == tasks && (tasks + [Copy(v)])[..|tasks|] == tasks;
  }

  lemma {:induction false} MeaningGrows(src: Graph, age: map<Ref, nat>, buf: nat, st: State,
                                        tasks: seq<Task>, results: seq<Val>)
    requires Older(src, age)
    ensures st.top <= Meaning(src, age, buf, st, tasks, results).0.top
    decreases |tasks|
  {
    hide Older;
    if tasks != [] {
      var rest := tasks[..|tasks| - 1];
      match tasks[|tasks| - 1]
      case Copy(v) =>
        ConvGrows(src, age, buf, st, v);
        var (st1, w) := Conv(src, age, buf, st, v);
        MeaningGrows(src, age, buf, st1, rest, results + [w]);
      case Make(r, kind) =>
        if r in src && |Children(src[r])| <= |results| {
          var n := |results| - |Children(src[r])|;
          MeaningGrows(src, age, buf, Rebuild(src, buf, st, r, results[n..]), rest,
                       results[..n] + [Ptr(kind, Ref(buf, st.top))]);
        }
    }
  }

  lemma {:induction false} ConvGrows(src: Graph, age: map<Ref, nat>, buf: nat, st: State, v: Val)
    requires Older(src, age)
    ensures st.top <= Conv(src, age, buf, st, v).0.top
    decreases Rank(src, age, v), 0
  {
    if Into(v, src) && v.ref !in st.f {
      KidsOlder(src, age, v.ref);
      ConvAllGrows(src, age, buf, st, Children(src[v.ref]));
    }
  }

  lemma {:induction false} ConvAllGrows(src: Graph, age: map<Ref, nat>, buf: nat, st: State, vs: seq<Val>)
    requires Older(src, age)
    ensures st.top <= ConvAll(src, age, buf, st, vs).0.top
    decreases RankAll(src, age, vs), |vs|
  {
    hide Older;
    if vs != [] {
      ConvGrows(src, age, buf, st, vs[0]);
      ConvAllGrows(src, age, buf, Conv(src, age, buf, st, vs[0]).0, vs[1..]);
    }
  }

  /** Every marker finds the results of its children on the result stack. */
  predicate Shaped(src: Graph, tasks: seq<Task>, m: nat)
    decreases |tasks|
  {
    if tasks == [] then m == 1
    else
      match tasks[|tasks| - 1]
      case Copy(_) => Shaped(src, tasks[..|tasks| - 1], m + 1)
      case Make(r, _) =>
        && r in src && |Children(src[r])| <= m
        && Shaped(src, tasks[..|tasks| - 1], m - |Children(src[r])| + 1)
  }

  lemma {:induction false} ShapedPushed(src: Graph, tasks: seq<Task>, vs: seq<Val>, m: nat)
    ensures Shaped(src, tasks + Pushed(vs), m) == Shaped(src, tasks, m + |vs|)
    decreases |vs|
  {
    var all := tasks + Pushed(vs);
    if vs == [] {
      assert all == tasks;
    } else {
      assert all[|all| - 1] == Copy(vs[0]) && all[..|all| - 1] == tasks + Pushed(vs[1..]);
      ShapedPushed(src, tasks, vs[1..], m + 1);
    }
  }

  lemma ShapedExpand(src: Graph, tasks: seq<Task>, v: Val, m: nat)
    requires Into(v, src) && Shaped(src, tasks, m + 1)
    ensures Shaped(src, tasks + [Make(v.ref, v.kind)] + Pushed(Children(src[v.ref])), m)
  {
    var marked := tasks + [Make(v.ref, v.kind)];
    ShapedPushed(src, marked, Children(src[v.ref]), m);
    assert marked[..|marked| - 1] == tasks;
  }

  /** Every value on the work stack refers into the heap or a chunk. */
  ghost predicate TasksSettled(tasks: seq<Task>, g: Graph) {
    forall i :: 0 <= i < |tasks| && tasks[i].Copy? ==> Settled([tasks[i].v], g)
  }

  lemma {:induction false} PushedSettled(vs: seq<Val>, g: Graph)
    requires Settled(vs, g)
    ensures TasksSettled(Pushed(vs), g)
  {
    if vs != [] {
      forall i | 0 <= i < |vs[1..]| ensures vs[1..][i] == vs[i + 1] { }
      PushedSettled(vs[1..], g);
    }
  }

  /** A marker's object is older than the markers below it, and so is
      everything above the marker: no object is ever waiting twice. */
  ghost predicate Nested(src: Graph, age: map<Ref, nat>, tasks: seq<Task>) {
    && (forall i :: 0 <= i < |tasks| && tasks[i].Make? ==> tasks[i].r in src && tasks[i].r in age)
    && forall i, j :: 0 <= i < j < |tasks| && tasks[i].Make? ==> TaskRank(src, age, tasks[j]) <= age[tasks[i].r]
  }

  function TaskRank(src: Graph, age: map<Ref, nat>, t: Task): nat {
    match t
    case Copy(v) => Rank(src, age, v)
    case Make(r, _) => if r in age then age[r] + 1 else 0
  }

  ghost predicate Waiting(tasks: seq<Task>, f: map<Ref, Ref>) {
    forall i :: 0 <= i < |tasks| && tasks[i].Make? ==> tasks[i].r !in f
  }

  lemma {:induction false} PushedCopies(src: Graph, age: map<Ref, nat>, vs: seq<Val>, n: nat)
    requires forall i :: 0 <= i < |vs| ==> Rank(src, age, vs[i]) <= n
    ensures forall i :: 0 <= i < |Pushed(vs)| ==> Pushed(vs)[i].Copy? && TaskRank(src, age, Pushed(vs)[i]) <= n
  {
    if vs != [] { PushedCopies(src, age, vs[1..], n); }
  }

  lemma NestedExpand(src: Graph, age: map<Ref, nat>, tasks: seq<Task>, v: Val, f: map<Ref, Ref>)
    requires Older(src, age) && Into(v, src) && v.ref !in f
    requires Nested(src, age, tasks + [Copy(v)]) && Waiting(tasks, f)
    ensures Nested(src, age, tasks + [Make(v.ref, v.kind)] + Pushed(Children(src[v.ref])))
    ensures Waiting(tasks + [Make(v.ref, v.kind)] + Pushed(Children(src[v.ref])), f)
  {
    var was := tasks + [Copy(v)];
    forall i | 0 <= i < |tasks| ensures was[i] == tasks[i] { }
    assert was[|tasks|] == Copy(v);
    PushedCopies(src, age, Children(src[v.ref]), age[v.ref]);
  }

  /** What holds between two turns of the copy loop: the work stack stands for
      `goal`, and whatever it says can be carried out. */
  ghost predicate Stage(src: Graph, age: map<Ref, nat>, buf: nat, g: Graph, st: State,
                        tasks: seq<Task>, results: seq<Val>, goal: (State, seq<Val>)) {
    && Older(src, age)
    && Meaning(src, age, buf, st, tasks, results) == goal
    && Shaped(src, tasks, |results|)
    && Nested(src, age, tasks) && Waiting(tasks, st.f)
    && Homed(src, g, st, tasks, results)
  }

  /** Nothing in flight points anywhere but into the heap and the chunks. */
  ghost predicate Homed(src: Graph, g: Graph, st: State, tasks: seq<Task>, results: seq<Val>) {
    && (forall r :: r in src ==> Settled(Children(src[r]), g + src))
    && (forall r :: r in g ==> r in st.h)
    && (forall r :: r in st.f ==> st.f[r] in st.h)
    && TasksSettled(tasks, g + src) && Settled(results, st.h)
  }

  lemma StageStart(src: Graph, age: map<Ref, nat>, buf: nat, g: Graph, top: nat, v: Val)
    requires Older(src, age) && Settled([v], g + src)
    requires forall r :: r in src ==> Settled(Children(src[r]), g + src)
    ensures var st := State(map[], [], g, top);
            var (st', w) := Conv(src, age, buf, st, v);
            Stage(src, age, buf, g, st, [Copy(v)], [], (st', [w]))
  {
    hide Older;
    var st := State(map[], [], g, top);
    var (st', w) := Conv(src, age, buf, st, v);
    assert [Copy(v)][..0] == [] && [] + [w] == [w];
    assert Meaning(src, age, buf, st', [], [w]) == (st', [w]) && Shaped(src, [], 1);
  }

  lemma NestedRest(src: Graph, age: map<Ref, nat>, tasks: seq<Task>, t: Task, f: map<Ref, Ref>, d: Ref)
    requires Nested(src, age, tasks + [t]) && Waiting(tasks + [t], f)
    ensures Nested(src, age, tasks) && Waiting(tasks, f)
    ensures t.Make? ==> t.r !in f && t.r in src && Waiting(tasks, f[t.r := d])
  {
    var was := tasks + [t];
    assert was[|tasks|] == t;
    forall i | 0 <= i < |tasks| ensures was[i] == tasks[i] { }
  }

  /** A value that does not lie in a chunk, or was rebuilt before. */
  lemma StagePass(src: Graph, age: map<Ref, nat>, buf: nat, g: Graph, st: State,
                  tasks: seq<Task>, results: seq<Val>, goal: (State, seq<Val>), v: Val, w: Val)
    requires Stage(src, age, buf, g, st, tasks + [Copy(v)], results, goal)
    requires if Into(v, src) then v.ref in st.f && w == Ptr(v.kind, st.f[v.ref]) else w == v
    ensures Stage(src, age, buf, g, st, tasks, results + [w], goal)
    ensures Left(src, age, tasks) < Left(src, age, tasks + [Copy(v)])
  {
    hide Older, Nested, Waiting;
    assert (tasks + [Copy(v)])[..|tasks|] == tasks;
    NestedRest(src, age, tasks, Copy(v), st.f, Ref(buf, st.top));
    HomedRest(src, g, st, tasks, results, v, w);
  }

  lemma HomedRest(src: Graph, g: Graph, st: State, tasks: seq<Task>, results: seq<Val>, v: Val, w: Val)
    requires Homed(src, g, st, tasks + [Copy(v)], results)
    requires if Into(v, src) then v.ref in st.f && w == Ptr(v.kind, st.f[v.ref]) else w == v
    ensures Homed(src, g, st, tasks, results + [w])
  {
    var was := tasks + [Copy(v)];
    assert was[|tasks|] == Copy(v) && [v][0] == v;
    forall i | 0 <= i < |tasks| ensures was[i] == tasks[i] { }
  }

  lemma StageTop(src: Graph, age: map<Ref, nat>, buf: nat, g: Graph, st: State,
                 tasks: seq<Task>, results: seq<Val>, goal: (State, seq<Val>), v: Val)
    requires Stage(src, age, buf, g, st, tasks + [Copy(v)], results, goal)
    ensures Settled([v], g + src) && forall r :: r in g ==> r in st.h
  {
    assert (tasks + [Copy(v)])[|tasks|] == Copy(v);
  }

  lemma StageEnd(src: Graph, age: map<Ref, nat>, buf: nat, g: Graph, st: State, results: seq<Val>,
                 goal: (State, seq<Val>))
    requires Stage(src, age, buf, g, st, [], results, goal)
    ensures goal == (st, results) && |results| == 1
  {
  }

  lemma PushedNone(tasks: seq<Task>)
    ensures tasks + Pushed([]) == tasks
  {
  }

  /** An object with children: push a marker and the children. */
  lemma StageExpand(src: Graph, age: map<Ref, nat>, buf: nat, g: Graph, st: State,
                    tasks: seq<Task>, results: seq<Val>, goal: (State, seq<Val>), v: Val)
    requires Stage(src, age, buf, g, st, tasks + [Copy(v)], results, goal)
    requires Into(v, src) && v.ref !in st.f
    ensures var tasks' := tasks + [Make(v.ref, v.kind)] + Pushed(Children(src[v.ref]));
            Stage(src, age, buf, g, st, tasks', results, goal)
                && Left(src, age, tasks') < Left(src, age, tasks + [Copy(v)])
  {
    hide Older, Nested, Waiting, Homed, Meaning, Left;
    assert (tasks + [Copy(v)])[..|tasks|] == tasks;
    ExpandMeaning(src, age, buf, st, tasks, v, results);
    LeftExpand(src, age, tasks, v);
    ShapedExpand(src, tasks, v, |results|);
    NestedRest(src, age, tasks, Copy(v), st.f, Ref(buf, st.top));
    NestedExpand(src, age, tasks, v, st.f);
    HomedExpand(src, g, st, tasks, results, v);
  }

  lemma HomedExpand(src: Graph, g: Graph, st: State, tasks: seq<Task>, results: seq<Val>, v: Val)
    requires Homed(src, g, st, tasks + [Copy(v)], results) && Into(v, src)
    ensures Homed(src, g, st, tasks + [Make(v.ref, v.kind)] + Pushed(Children(src[v.ref])), results)
  {
    var was := tasks + [Copy(v)];
    forall i | 0 <= i < |tasks| ensures was[i] == tasks[i] { }
    PushedSettled(Children(src[v.ref]), g + src);
  }

  /** Rebuild an object whose children are the last results; this also serves
      an object without children, copied as soon as it is met. */
  lemma StageMake(src: Graph, age: map<Ref, nat>, buf: nat, g: Graph, st: State,
                  tasks: seq<Task>, results: seq<Val>, goal: (State, seq<Val>), r: Ref, kind: Kind)
    requires Stage(src, age, buf, g, st, tasks + [Make(r, kind)], results, goal)
    ensures r in src && r !in st.f && |Children(src[r])| <= |results|
    ensures var n := |results| - |Children(src[r])|;
            && Settled(results[n..], st.h)
            && Stage(src, age, buf, g, Rebuild(src, buf, st, r, results[n..]), tasks,
                     results[..n] + [Ptr(kind, Ref(buf, st.top))], goal)
            && st.top + Size(src[r]) <= goal.0.top
    ensures Left(src, age, tasks) < Left(src, age, tasks + [Make(r, kind)])
  {
    hide Older, Nested, Waiting, Homed, Rebuild;
    assert (tasks + [Make(r, kind)])[..|tasks|] == tasks;
    NestedRest(src, age, tasks, Make(r, kind), st.f, Ref(buf, st.top));
    var n := |results| - |Children(src[r])|;
    var st' := Rebuild(src, buf, st, r, results[n..]);
    RebuildSteps(src, buf, g, st, tasks, results, n, r, kind);
    MeaningGrows(src, age, buf, st', tasks, results[..n] + [Ptr(kind, Ref(buf, st.top))]);
  }

  lemma RebuildSteps(src: Graph, buf: nat, g: Graph, st: State, tasks: seq<Task>, results: seq<Val>, n: nat, r: Ref,
                     kind: Kind)
    requires Homed(src, g, st, tasks + [Make(r, kind)], results)
    requires n <= |results| && r in src && |results| - n == |Children(src[r])|
    ensures Settled(results[n..], st.h)
    ensures var st' := Rebuild(src, buf, st, r, results[n..]);
            && Homed(src, g, st', tasks, results[..n] + [Ptr(kind, Ref(buf, st.top))])
            && st'.f == st.f[r := Ref(buf, st.top)] && st'.top == st.top + Size(src[r])
  {
    var was := tasks + [Make(r, kind)];
    forall i | 0 <= i < |tasks| ensures was[i] == tasks[i] { }
    forall i | 0 <= i < |results[n..]| ensures results[n..][i] == results[i + n] { }
  }

  // ---- the result as an isomorphism ----

  /** The heap stays, the chunk objects move to where they were rebuilt. */
  function Renaming(g: Graph, f: map<Ref, Ref>): map<Ref, Ref> { Identity(g) + f }

  lemma RenamingOn(g: Graph, src: Graph, f: map<Ref, Ref>, vs: seq<Val>)
    requires forall r :: r in f ==> r in src
    requires g.Keys !! src.Keys
    ensures AllIn(vs, src, f) ==> TrSeq(vs, Renaming(g, f)) == TrSeq(vs, f) && AllIn(vs, g + src, Renaming(g, f))
    ensures (forall i :: 0 <= i < |vs| ==> !Into(vs[i], src)) ==>
              TrSeq(vs, Renaming(g, f)) == vs && AllIn(vs, g + src, Renaming(g, f))
  {
  }

  /** Rebuilding the result in the heap gives an isomorphic graph: sharing is
      kept and nothing points into a chunk any more. */
  lemma ConvergeIso(g: Graph, src: Graph, buf: nat, base: nat, st: State, roots: seq<Val>, v: Val)
    requires WellFormed(g, roots) && Below(g, buf, base) && g.Keys !! src.Keys
    requires forall r :: r in src ==> r.buf != 0
    requires Rebuilt(src, buf, base, st) && (Into(v, src) ==> v.ref in st.f)
    requires forall r :: r in g ==> r in st.h && st.h[r] == g[r]
    ensures Iso(g + src, roots + [v], st.h, roots + [Tr(v, st.f)], Renaming(g, st.f))
  {
    hide Rebuilt, WellFormed, Below, AllIn, TrSeq, TrObj, Renaming, Injective;
    var F := Renaming(g, st.f);
    SourceOnly(src, buf, base, st);
    RootsRenamed(g, src, st.f, roots, v);
    RenamingInjective(g, src, buf, base, st);
    forall r | r in F
      ensures r in g + src && F[r] in st.h && st.h[F[r]] == TrObj((g + src)[r], F)
        && AllIn(Children((g + src)[r]), g + src, F)
    {
      RenamedAt(g, src, buf, base, st, roots, r);
    }
  }

  lemma RenamingInjective(g: Graph, src: Graph, buf: nat, base: nat, st: State)
    requires Below(g, buf, base) && Rebuilt(src, buf, base, st)
    ensures Injective(Renaming(g, st.f))
  {
    hide Listed;
  }

  lemma RenamedAt(g: Graph, src: Graph, buf: nat, base: nat, st: State, roots: seq<Val>, r: Ref)
    requires WellFormed(g, roots) && g.Keys !! src.Keys && r in Renaming(g, st.f)
    requires forall x :: x in src ==> x.buf != 0
    requires Rebuilt(src, buf, base, st)
    requires forall x :: x in g ==> x in st.h && st.h[x] == g[x]
    ensures var F := Renaming(g, st.f);
            r in g + src && F[r] in st.h && st.h[F[r]] == TrObj((g + src)[r], F)
                && AllIn(Children((g + src)[r]), g + src, F)
  {
    hide Listed, WellFormed;
    if r in st.f {
      RenamingOn(g, src, st.f, Children(src[r]));
    } else {
      HeapRenamed(g, src, st.f, roots, r);
    }
  }

  lemma HeapRenamed(g: Graph, src: Graph, f: map<Ref, Ref>, roots: seq<Val>, r: Ref)
    requires WellFormed(g, roots) && r in g && g.Keys !! src.Keys
    requires (forall x :: x in src ==> x.buf != 0) && forall x :: x in f ==> x in src
    ensures TrObj(g[r], Renaming(g, f)) == g[r] && AllIn(Children(g[r]), g + src, Renaming(g, f))
  {
    RenamingOn(g, src, f, Children(g[r]));
  }

  lemma RootsRenamed(g: Graph, src: Graph, f: map<Ref, Ref>, roots: seq<Val>, v: Val)
    requires WellFormed(g, roots) && g.Keys !! src.Keys
    requires (forall x :: x in src ==> x.buf != 0) && (forall x :: x in f ==> x in src)
    requires Into(v, src) ==> v.ref in f
    ensures TrSeq(roots + [v], Renaming(g, f)) == roots + [Tr(v, f)]
    ensures AllIn(roots + [v], g + src, Renaming(g, f))
  {
    RenamingOn(g, src, f, roots);
    RenamingOn(g, src, f, [v]);
    TrConcat(g + src, roots, [v], Renaming(g, f));
    assert TrSeq([v], f) == [Tr(v, f)];
  }
}
