/** The hashed name index against the linear scan it replaces: interned symbols
    with a growing table, and C functions with a fixed one.

    Names hash by an arbitrary function.  Capacities are powers of two, so
    masking an index is taking its remainder.
 */
module Symbols {
  import opened Heap

  /** The first position of a name, or -1: what a linear scan returns. */
  function First(names: seq<string>, name: string): (k: int)
    ensures -1 <= k < |names|
    ensures k >= 0 ==> names[k] == name && forall i :: 0 <= i < k ==> names[i] != name
    ensures k < 0 ==> name !in names
  {
    if names == [] then -1
    else
      var k := First(names[..|names| - 1], name);
      if k >= 0 then k else if names[|names| - 1] == name then |names| - 1 else -1
  }

  // ---- probing ----

  function Cell(h: nat, j: nat, cap: nat): (c: nat)
    requires cap > 0
    ensures c < cap
  {
    (h + j) % cap
  }

  /** Walking j = 0, 1, ... from any start visits every cell. */
  lemma Distance(h: nat, c: nat, cap: nat) returns (j: nat)
    requires c < cap
    ensures j < cap && Cell(h, j, cap) == c
  {
    var r := h % cap;
    j := if c >= r then c - r else c + cap - r;
    assert h == h / cap * cap + r;
    if c >= r {
      Offset(h / cap, c, cap);
    } else {
      Offset(h / cap + 1, c, cap);
      assert h + j == (h / cap + 1) * cap + c;
    }
  }

  lemma Offset(q: nat, c: nat, cap: nat)
    requires c < cap
    ensures (q * cap + c) % cap == c
    decreases q
  {
    if q > 0 {
      Offset(q - 1, c, cap);
      var x := (q - 1) * cap + c;
      assert q * cap + c == x + cap;
      NextLap(x, cap);
    }
  }

  lemma NextLap(x: nat, cap: nat)
    requires cap > 0
    ensures (x + cap) % cap == x % cap
  {
    var d := (x + cap) / cap - x / cap;
    assert cap == d * cap + ((x + cap) % cap - x % cap);
    Multiple(d, cap);
  }

  lemma Multiple(d: int, n: nat)
    ensures d >= 2 ==> d * n >= 2 * n
    ensures d <= 0 ==> d * n <= 0
  {
  }

  /** The first d cells of a probe are taken. */
  ghost predicate Taken(slots: seq<int>, h: nat, d: nat) {
    d <= |slots| && forall j :: 0 <= j < d ==> slots[Cell(h, j, |slots|)] >= 0
  }

  /** Name k can be found: its probe meets only taken cells before its own. */
  ghost predicate Held(slots: seq<int>, h: nat, k: int) {
    exists d: nat :: d < |slots| && Taken(slots, h, d) && slots[Cell(h, d, |slots|)] == k
  }

  function Used(slots: seq<int>): nat {
    if slots == [] then 0 else Used(slots[..|slots| - 1]) + if slots[|slots| - 1] >= 0 then 1 else 0
  }

  /** The table indexes the first occurrence of every name, and nothing else. */
  ghost predicate Indexes(slots: seq<int>, names: seq<string>, hash: string -> nat) {
    && (forall i :: 0 <= i < |slots| && slots[i] >= 0 ==>
       slots[i] < |names| && First(names, names[slots[i]]) == slots[i])
    && (forall k :: 0 <= k < |names| && First(names, names[k]) == k ==> Held(slots, hash(names[k]), k))
    && Used(slots) <= |names|
  }

  /** A table that is not full has an empty cell. */
  lemma {:induction false} EmptyCell(slots: seq<int>) returns (c: nat)
    requires Used(slots) < |slots|
    ensures c < |slots| && slots[c] < 0
    decreases |slots|
  {
    c := |slots| - 1;
    if slots[c] >= 0 { c := EmptyCell(slots[..c]); }
  }

  lemma {:induction false} UsedUpdate(slots: seq<int>, c: nat, k: int)
    requires c < |slots| && slots[c] < 0 && k >= 0
    ensures Used(slots[c := k]) == Used(slots) + 1
    decreases |slots|
  {
    var n := |slots| - 1;
    if c < n {
      assert slots[c := k][..n] == slots[..n][c := k];
      UsedUpdate(slots[..n], c, k);
    } else {
      assert slots[c := k][..n] == slots[..n];
    }
  }

  lemma {:induction false} UsedNone(n: nat)
    ensures Used(seq(n, _ => -1)) == 0
  {
    if n > 0 {
      assert seq(n, _ => -1)[..n - 1] == seq(n - 1, _ => -1);
      UsedNone(n - 1);
    }
  }

  /** A probe that has met an empty cell without meeting the name has shown that
      the name is not there. */
  lemma Absent(slots: seq<int>, names: seq<string>, hash: string -> nat, name: string, j: nat)
    requires |slots| > 0 && Indexes(slots, names, hash) && j < |slots|
    requires forall i :: 0 <= i < j ==>
      var e := slots[Cell(hash(name), i, |slots|)]; 0 <= e < |names| && names[e] != name
    requires slots[Cell(hash(name), j, |slots|)] < 0
    ensures First(names, name) == -1
  {
  }

  /** Filling an empty cell with a new entry breaks no probe. */
  lemma HeldStays(slots: seq<int>, h: nat, k: int, c: nat, n: int)
    requires k >= 0 && n >= 0 && Held(slots, h, k) && c < |slots| && slots[c] < 0
    ensures Held(slots[c := n], h, k)
  {
    var d: nat :| d < |slots| && Taken(slots, h, d) && slots[Cell(h, d, |slots|)] == k;
    assert Taken(slots[c := n], h, d);
  }

  /** Filling the first empty cell of a new name's probe indexes it and disturbs
      no other name. */
  lemma Filled(slots: seq<int>, names: seq<string>, hash: string -> nat, name: string, j: nat)
    requires |slots| > 0 && Indexes(slots, names, hash) && j < |slots| && name !in names
    requires Taken(slots, hash(name), j) && slots[Cell(hash(name), j, |slots|)] < 0
    ensures Indexes(slots[Cell(hash(name), j, |slots|) := |names|], names + [name], hash)
  {
    hide Cell, Used;
    var n, h, more := |names|, hash(name), names + [name];
    var c := Cell(h, j, |slots|);
    var after := slots[c := n];
    UsedUpdate(slots, c, n);
    FirstGrows(names, more);
    assert Held(after, h, n) by {
      assert Taken(after, h, j) && after[Cell(h, j, |slots|)] == n;
    }
    forall k | 0 <= k < |more| && First(more, more[k]) == k ensures Held(after, hash(more[k]), k) {
      if k < n {
        assert more[k] == names[k] && names[k] in names;
        HeldStays(slots, hash(names[k]), k, c, n);
      }
    }
    forall i | 0 <= i < |after| && after[i] >= 0 ensures after[i] < |more| && First(more, more[after[i]]) == after[i] {
      if i != c { assert names[slots[i]] in names; }
    }
  }

  lemma FirstGrows(names: seq<string>, more: seq<string>)
    requires names <= more
    ensures forall name :: name in names ==> First(more, name) == First(names, name)
    ensures |more| > |names| && more[|names|] !in names ==> First(more, more[|names|]) == |names|
  {
  }

  /** A name that is already there needs no entry. */
  lemma Repeated(slots: seq<int>, names: seq<string>, hash: string -> nat, name: string)
    requires Indexes(slots, names, hash) && name in names
    ensures Indexes(slots, names + [name], hash)
  {
    FirstGrows(names, names + [name]);
  }

  ghost predicate Unique(names: seq<string>) {
    forall i, j :: 0 <= i < j < |names| ==> names[i] != names[j]
  }

  // ---- the walks over a table ----

  /** Look a name up: the answer of the linear scan, and the walk ends. */
  method Lookup(table: array<int>, names: seq<string>, hash: string -> nat, name: string) returns (k: int)
    requires Indexes(table[..], names, hash) && |names| < table.Length
    ensures k == First(names, name)
  {
    hide Cell, Used, Held;
    ghost var c := EmptyCell(table[..]);
    ghost var limit := Distance(hash(name), c, table.Length);
    var j := 0;
    while true
      invariant 0 <= j <= limit
      invariant forall i :: 0 <= i < j ==>
        var e := table[Cell(hash(name), i, table.Length)]; 0 <= e < |names| && names[e] != name
      decreases limit - j
    {
      var e := table[Cell(hash(name), j, table.Length)];
      if e < 0 {
        Absent(table[..], names, hash, name, j);
        return -1;
      }
      assert table[..][Cell(hash(name), j, table.Length)] == e;
      if names[e] == name { return e; }
      j := j + 1;
    }
  }

  /** Enter a name at the first empty cell; with `keepFirst` a walk that meets
      the same name stops, and the earlier entry stays. */
  method Enter(table: array<int>, ghost names: seq<string>, all: seq<string>, hash: string -> nat, k: nat,
               keepFirst: bool)
    requires Indexes(table[..], names, hash) && |names| < table.Length && (keepFirst || (k < |all| && all[k] !in names))
    requires k == |names| < |all| && all[..k] == names
    modifies table
    ensures Indexes(table[..], all[..k + 1], hash)
  {
    hide Cell, Used, Held;
    var name := all[k];
    assert all[..k + 1] == names + [name];
    ghost var slots := table[..];
    ghost var c := EmptyCell(slots);
    ghost var limit := Distance(hash(name), c, table.Length);
    var j := 0;
    while table[Cell(hash(name), j, table.Length)] >= 0
      invariant 0 <= j <= limit && table[..] == slots
      invariant forall i :: 0 <= i < j ==>
        var e := slots[Cell(hash(name), i, table.Length)]; 0 <= e < |names| && names[e] != name
      decreases limit - j
    {
      var e := table[Cell(hash(name), j, table.Length)];
      assert slots[Cell(hash(name), j, table.Length)] == e;
      assert all[e] == names[e] && names[e] in names;
      if keepFirst && all[e] == name {
        assert names[e] in names;
        Repeated(slots, names, hash, name);
        return;
      }
      j := j + 1;
    }
    Absent(slots, names, hash, name, j);
    Filled(slots, names, hash, name, j);
    ghost var at := Cell(hash(name), j, table.Length);
    table[Cell(hash(name), j, table.Length)] := k;
    assert table[..] == slots[at := k];
  }

  /** A fresh table with every name entered in order. */
  method Rebuild(names: seq<string>, hash: string -> nat, cap: nat) returns (table: array<int>)
    requires |names| < cap && Unique(names)
    ensures fresh(table) && table.Length == cap && Indexes(table[..], names, hash)
  {
    hide Cell, Used, Held;
    table := new int[cap](_ => -1);
    assert table[..] == seq(cap, _ => -1);
    UsedNone(cap);
    var k := 0;
    while k < |names|
      invariant 0 <= k <= |names| && fresh(table) && table.Length == cap && Indexes(table[..], names[..k], hash)
    {
      assert names[k] !in names[..k];
      Enter(table, names[..k], names, hash, k, false);
      k := k + 1;
    }
    assert names[..k] == names;
  }

  predicate PowerOfTwo(n: nat) { n == 1 || (n > 1 && n % 2 == 0 && PowerOfTwo(n / 2)) }

  /** The list after interning a name. */
  function Interned(names: seq<string>, name: string): seq<string> {
    if name in names then names else names + [name]
  }

  /** The list after interning several names in turn. */
  function InternedAll(names: seq<string>, more: seq<string>): seq<string>
    decreases |more|
  {
    if more == [] then names else InternedAll(Interned(names, more[0]), more[1..])
  }

  lemma InternedStep(names: seq<string>, more: seq<string>, i: nat)
    requires i < |more|
    ensures InternedAll(names, more[i..]) == InternedAll(Interned(names, more[i]), more[i + 1..])
  {
    assert more[i..][1..] == more[i + 1..];
  }

  lemma InternedDone(names: seq<string>, more: seq<string>)
    ensures InternedAll(names, more[|more|..]) == names
  {
  }

  lemma FirstIs(names: seq<string>, k: nat)
    requires k < |names| && Unique(names)
    ensures First(names, names[k]) == k
  {
  }

  class SymbolTable {
    const hash: string -> nat
    var names: seq<string>
    var table: array?<int>

    /** The table is an index of the names, at most seven tenths full. */
    ghost predicate Valid()
      reads this, table
    {
      && Unique(names) && (table == null <==> names == [])
      && (table != null ==>
            && 256 <= table.Length && PowerOfTwo(table.Length) && |names| * 10 < table.Length * 7
            && Indexes(table[..], names, hash))
    }

    constructor (h: string -> nat)
      ensures Valid() && names == [] && hash == h
    {
      hash, names, table := h, [], null;
    }

    /** The id of a name: the one a linear scan finds, or the next free one. */
    method Intern(name: string) returns (id: nat)
      requires Valid()
      modifies this, table
      ensures Valid() && names == Interned(old(names), name) && (table == old(table) || fresh(table))
      ensures id == if First(old(names), name) >= 0 then First(old(names), name) else |old(names)|
      ensures id < |names| && names[id] == name
    {
      hide Indexes;
      if table != null {
        var hit := Lookup(table, names, hash, name);
        if hit >= 0 { return hit; }
      }
      assert name !in names;
      id := |names|;
      names := names + [name];
      Add();
    }

    /** Index the name that was appended last; growing rebuilds the table. */
    method Add()
      requires names != [] && Unique(names)
      requires table == null <==> |names| == 1
      requires table != null ==>
        && 256 <= table.Length && PowerOfTwo(table.Length) && (|names| - 1) * 10 < table.Length * 7
        && Indexes(table[..], names[..|names| - 1], hash)
      modifies this`table, table
      ensures Valid() && (table == old(table) || fresh(table))
    {
      hide Indexes;
      var cap := if table == null then 0 else table.Length;
      if |names| * 10 >= cap * 7 {
        if cap == 0 { assert PowerOfTwo(256) by { Pow256(); } }
        table := Rebuild(names, hash, if cap == 0 then 256 else 2 * cap);
      } else {
        Enter(table, names[..|names| - 1], names, hash, |names| - 1, false);
        assert names[..|names| - 1 + 1] == names;
      }
    }

    lemma Pow256()
      ensures PowerOfTwo(256)
    {
      assert PowerOfTwo(2) && PowerOfTwo(4) && PowerOfTwo(8) && PowerOfTwo(16);
      assert PowerOfTwo(32) && PowerOfTwo(64) && PowerOfTwo(128);
    }

    /** The inverse of the scan: it answers with a name exactly if a scan for that
        name finds the id. */
    method SymbolName(id: nat) returns (name: Option<string>)
      requires Valid()
      ensures forall n :: name == Some(n) <==> First(names, n) == id
    {
      if id >= |names| { return None; }
      name := Some(names[id]);
    }

    /** Intern several names in turn. */
    method InternAll(more: seq<string>)
      requires Valid()
      modifies this, table
      ensures Valid() && names == InternedAll(old(names), more) && (table == old(table) || fresh(table))
    {
      hide Valid, InternedAll, Interned;
      var i := 0;
      assert more[0..] == more;
      while i < |more|
        invariant 0 <= i <= |more| && Valid() && (table == old(table) || fresh(table))
        invariant InternedAll(names, more[i..]) == InternedAll(old(names), more)
      {
        InternedStep(names, more, i);
        var id := Intern(more[i]);
        i := i + 1;
      }
      InternedDone(names, more);
    }

    /** Whatever is interned after a name, its id leads back to it, and interning
        it again gives the same id. */
    method NameOfId(name: string, more: seq<string>) returns (id: nat, back: Option<string>, again: nat)
      requires Valid()
      modifies this, table
      ensures Valid() && back == Some(name) && again == id
    {
      hide Indexes, PowerOfTwo, InternedAll;
      id := Intern(name);
      FirstIs(names, id);
      ghost var early := names;
      IdsStable(names, more);
      InternAll(more);
      assert First(names, name) == First(early, name) == id;
      back := SymbolName(id);
      again := Intern(name);
    }
  }

  /** Through every sequence of interns ids are stable, different names have
      different ids, and the name of an id is the name that got it. */
  lemma {:induction false} IdsStable(names: seq<string>, more: seq<string>)
    requires Unique(names)
    ensures var later := InternedAll(names, more);
            && names <= later && Unique(later)
            && (forall name :: name in names ==> First(later, name) == First(names, name))
            && (forall a, b :: a in later && b in later ==> (First(later, a) == First(later, b) <==> a == b))
            && (forall name :: name in later <==> name in names || name in more)
    decreases |more|
  {
    if more != [] {
      IdsStable(Interned(names, more[0]), more[1..]);
      FirstGrows(names, InternedAll(names, more));
    }
  }

  const MAX_CFUNCS: nat := 128
  const CFUNC_CELLS: nat := 512

  class CFunctions {
    const hash: string -> nat
    var names: seq<string>
    var table: array?<int>

    ghost predicate Valid()
      reads this, table
    {
      && |names| <= MAX_CFUNCS && (table == null ==> names == [])
      && (table != null ==> table.Length == CFUNC_CELLS && Indexes(table[..], names, hash))
    }

    constructor (h: string -> nat)
      ensures Valid() && names == [] && hash == h
    {
      hash, names, table := h, [], null;
    }

    /** Register a function; a full registry ignores it, and a repeated name
        leaves the earlier function in place. */
    method Register(name: string)
      requires Valid()
      modifies this, table
      ensures Valid() && (table == old(table) || fresh(table))
      ensures names == if |old(names)| >= MAX_CFUNCS then old(names) else old(names) + [name]
    {
      hide Indexes;
      if |names| >= MAX_CFUNCS { return; }
      if table == null { table := Rebuild([], hash, CFUNC_CELLS); }
      assert (names + [name])[..|names|] == names && (names + [name])[..|names| + 1] == names + [name];
      Enter(table, names, names + [name], hash, |names|, true);
      names := names + [name];
    }

    /** The first function registered under a name. */
    method Find(name: string) returns (k: int)
      requires Valid()
      ensures k == First(names, name)
    {
      hide Indexes;
      if table != null {
        k := Lookup(table, names, hash, name);
      } else {
        k := -1;
      }
    }
  }
}
