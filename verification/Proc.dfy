/** One actor's memory: the block that its heap and stack share, the spare
    semispace, the copying collector and the allocation discipline around it.

    Buffers 1 and 2 are the two semispaces, buffers 3 and up the chunks of a
    C callback, buffer 0 storage that never moves.  Stack slots are addressed
    by the byte offset at which they lie in the block.
 */
module Process {
  import opened Heap
  import opened Graph
  import opened Cheney
  import Converge

  const HEAP0: nat := 512
  const SLACK: nat := 16
  const HEADROOM: nat := 256
  const MIN_TRIGGER: nat := 4096
  const CHUNK0: nat := 256
  const CHUNK_NEXT: nat := 4096

  /** Chunk `i` of a callback arena is buffer 3 + i. */
  datatype Chunk = Chunk(used: nat, cap: nat)

  datatype CallbackArena = CallbackArena(chunks: seq<Chunk>, total: nat, converge: bool, promote: bool)

  /** The objects a callback has made, in order. */
  datatype Made = Made(objs: seq<Ref>, age: map<Ref, nat>)

  /** Byte offset of stack slot i (a negative index) in a block. */
  function SlotAt(size: int, i: int): int { size + 8 * i }

  function Slot(slots: map<int, Val>, size: int, i: int): Val {
    if SlotAt(size, i) in slots then slots[SlotAt(size, i)] else Imm(Nil)
  }

  /** The stack read from its top (slot sp) to its bottom (slot -1). */
  function StackAt(slots: map<int, Val>, size: int, sp: int): (r: seq<Val>)
    requires sp <= 0
    ensures |r| == -sp && forall i :: 0 <= i < -sp ==> r[i] == Slot(slots, size, sp + i)
  {
    seq(-sp, i requires 0 <= i < -sp => Slot(slots, size, sp + i))
  }

  ghost predicate HasSlots(slots: map<int, Val>, size: int, sp: int) {
    forall i :: sp <= i < 0 ==> SlotAt(size, i) in slots
  }

  lemma StackWrite(slots: map<int, Val>, size: int, sp: int, i: int, v: Val)
    requires sp <= i < 0 && HasSlots(slots, size, sp)
    ensures HasSlots(slots[SlotAt(size, i) := v], size, sp)
    ensures StackAt(slots[SlotAt(size, i) := v], size, sp) == StackAt(slots, size, sp)[i - sp := v]
  {
  }

  /** The stack bytes of a block moved so that the block can be larger. */
  function Back(p: int, delta: int): int { p - delta }

  function Shift(slots: map<int, Val>, lo: int, hi: int, delta: int): map<int, Val> {
    map p: int | lo <= p < hi && Back(p, delta) in slots :: slots[Back(p, delta)]
  }

  /** Moving the stack to the high end of another block keeps every slot. */
  lemma ShiftKeepsStack(slots: map<int, Val>, size: int, size': int, sp: int)
    requires sp <= 0 && HasSlots(slots, size, sp)
    ensures var moved := Shift(slots, SlotAt(size', sp), size', size' - size);
            HasSlots(moved, size', sp) && StackAt(moved, size', sp) == StackAt(slots, size, sp)
  {
    hide Shift, SlotAt;
    var moved := Shift(slots, SlotAt(size', sp), size', size' - size);
    forall i | sp <= i < 0 ensures SlotAt(size', i) in moved && moved[SlotAt(size', i)] == slots[SlotAt(size, i)] {
      ShiftedSlot(slots, size, size', sp, i);
    }
  }

  lemma ShiftedSlot(slots: map<int, Val>, size: int, size': int, sp: int, i: int)
    requires sp <= i < 0 && SlotAt(size, i) in slots
    ensures var moved := Shift(slots, SlotAt(size', sp), size', size' - size);
            SlotAt(size', i) in moved && moved[SlotAt(size', i)] == slots[SlotAt(size, i)]
  {
    assert Back(SlotAt(size', i), size' - size) == SlotAt(size, i);
  }

  /** Size of the block a request needs: double until it fits, stop at the cap. */
  method GrowTarget(size: nat, need: int, cap: nat) returns (want: nat)
    requires 0 < size <= cap && size % 8 == 0 && cap % 8 == 0
    ensures size <= want <= cap && want % 8 == 0
    ensures want < need <==> cap < need
    ensures need <= size ==> want == size
    ensures size < want ==> want < 2 * need
  {
    want := size;
    ghost var w := size / 8;
    while want < need && want < cap
      invariant size <= want && want == 8 * w
      invariant size < want ==> want < 2 * need
      invariant need <= size ==> want == size
    {
      want, w := want * 2, w * 2;
    }
    if want > cap { want := cap; }
  }

  lemma StackPush(slots: map<int, Val>, size: int, sp: int, v: Val)
    requires sp <= 0 && HasSlots(slots, size, sp)
    ensures HasSlots(slots[SlotAt(size, sp - 1) := v], size, sp - 1)
    ensures StackAt(slots[SlotAt(size, sp - 1) := v], size, sp - 1) == [v] + StackAt(slots, size, sp)
  {
  }

  lemma StackPop(slots: map<int, Val>, size: int, sp: int)
    requires sp < 0 && HasSlots(slots, size, sp)
    ensures HasSlots(slots, size, sp + 1) && SlotAt(size, sp) in slots
    ensures StackAt(slots, size, sp) == [slots[SlotAt(size, sp)]] + StackAt(slots, size, sp + 1)
  {
  }

  lemma RootsPush(g: Graph, roots: seq<Val>, v: Val)
    ensures WellFormed(g, [v] + roots) <==> WellFormed(g, roots) && Settled([v], g)
  {
    forall i | 0 <= i < |roots| ensures ([v] + roots)[i + 1] == roots[i] { }
    assert ([v] + roots)[0] == [v][0] == v;
  }

  function AsSeq(v: Option<Val>): seq<Val> { if v.Some? then [v.value] else [] }

  lemma LastTranslated(g: Graph, extra: Option<Val>, moved: Option<Val>, f: map<Ref, Ref>)
    requires moved.Some? <==> extra.Some?
    requires extra.Some? ==> moved.value == Tr(extra.value, f) && (Into(extra.value, g) ==> extra.value.ref in f)
    ensures AllIn(AsSeq(extra), g, f) && TrSeq(AsSeq(extra), f) == AsSeq(moved)
  {
  }

  // ---- callback chunks ----

  /** Each chunk object lies in the used part of its chunk, clear of the
      others. */
  ghost predicate ChunksHold(store: map<Ref, Cell>, chunks: seq<Chunk>, os: seq<Ref>) {
    && (forall i :: 0 <= i < |os| ==> HeldAt(store, chunks, os[i]))
    && forall i, j :: 0 <= i < j < |os| && os[i].buf == os[j].buf ==> os[i].off + Size(store[os[i]].obj) <= os[j].off
  }

  ghost predicate HeldAt(store: map<Ref, Cell>, chunks: seq<Chunk>, r: Ref) {
    && r in store && store[r].Live? && 3 <= r.buf < 3 + |chunks|
    && r.off + Size(store[r].obj) <= chunks[r.buf - 3].used
  }

  /** No chunk is filled beyond its capacity. */
  predicate ChunksFit(chunks: seq<Chunk>) { forall i :: 0 <= i < |chunks| ==> chunks[i].used <= chunks[i].cap }

  lemma HeldDistinct(store: map<Ref, Cell>, chunks: seq<Chunk>, os: seq<Ref>)
    requires ChunksHold(store, chunks, os)
    ensures Distinct(os) && forall r :: r in Space(store, os) <==> r in os
    ensures forall r :: r in os ==> HeldAt(store, chunks, r)
  {
    forall i, j | 0 <= i < j < |os| ensures os[i] != os[j] { assert HeldAt(store, chunks, os[i]); }
    forall r | r in os ensures HeldAt(store, chunks, r) { var i :| 0 <= i < |os| && os[i] == r; }
  }

  /** A new object at the end of the last chunk. */
  lemma ChunkAppend(store: map<Ref, Cell>, chunks: seq<Chunk>, chunks': seq<Chunk>, os: seq<Ref>, r: Ref, o: Obj)
    requires ChunksHold(store, chunks, os) && |chunks| <= |chunks'| && 3 <= r.buf < 3 + |chunks'|
    requires forall i :: 0 <= i < |chunks| && i != r.buf - 3 ==> chunks[i].used == chunks'[i].used
    requires r.buf - 3 < |chunks| ==> chunks[r.buf - 3].used == r.off
    requires chunks'[r.buf - 3].used == r.off + Size(o)
    ensures r !in os && ChunksHold(store[r := Live(o)], chunks', os + [r])
  {
    hide Size;
    assert Size(o) > 0;
    HeldDistinct(store, chunks, os);
    var store', os' := store[r := Live(o)], os + [r];
    forall i | 0 <= i < |os| ensures os[i] != r && HeldAt(store', chunks', os[i]) {
      assert HeldAt(store, chunks, os[i]);
      assert Size(store[os[i]].obj) > 0;
    }
  }

  lemma SpaceAppend(store: map<Ref, Cell>, os: seq<Ref>, r: Ref, o: Obj)
    requires r !in os && forall x :: x in os ==> x in store && store[x].Live?
    ensures Space(store[r := Live(o)], os + [r]) == Space(store, os)[r := o]
    ensures Total(Space(store, os)[r := o], os + [r]) == Total(Space(store, os), os) + Size(o)
  {
    hide Size;
    var g := Space(store, os);
    OffSame(g[r := o], os + [r], g, os, |os|);
  }

  /** A callback's objects: they sit in the chunks, refer only to the heap `g`
      and to older ones, and add up to the arena total. */
  ghost predicate Arena(store: map<Ref, Cell>, chunks: seq<Chunk>, m: Made, total: nat, g: Graph) {
    && ChunksHold(store, chunks, m.objs)
    && Total(Space(store, m.objs), m.objs) == total
    && Converge.Grown(Space(store, m.objs), m.age, g, |m.objs|)
  }

  function MadeAlso(m: Made, r: Ref): Made { Made(m.objs + [r], m.age[r := |m.objs|]) }

  lemma ArenaAppend(store: map<Ref, Cell>, chunks: seq<Chunk>, chunks': seq<Chunk>, m: Made, total: nat,
                    g: Graph, r: Ref, o: Obj)
    requires Arena(store, chunks, m, total, g)
    requires |chunks| <= |chunks'| && 3 <= r.buf < 3 + |chunks'|
    requires forall i :: 0 <= i < |chunks| && i != r.buf - 3 ==> chunks[i].used == chunks'[i].used
    requires r.buf - 3 < |chunks| ==> chunks[r.buf - 3].used == r.off
    requires chunks'[r.buf - 3].used == r.off + Size(o)
    requires r !in g && Settled(Children(o), g + Space(store, m.objs))
    ensures Arena(store[r := Live(o)], chunks', MadeAlso(m, r), total + Size(o), g)
    ensures r !in Space(store, m.objs)
    ensures Space(store[r := Live(o)], MadeAlso(m, r).objs) == Space(store, m.objs)[r := o]
  {
    hide ChunksHold, Size, Space, Settled, Converge.Grown, Total;
    var src, os := Space(store, m.objs), m.objs;
    ChunkAppend(store, chunks, chunks', os, r, o);
    HeldDistinct(store, chunks, os);
    SpaceAppend(store, os, r, o);
    Converge.GrownAppend(src, m.age, g, |os|, r, o, src[r := o], m.age[r := |os|]);
  }

  lemma BlankSettled(vs: seq<Val>)
    requires forall i :: 0 <= i < |vs| ==> vs[i].Imm?
    ensures Settled(vs, map[])
  {
  }

  lemma GrowKids(g: Graph, kids: seq<Val>, d: Ref, o: Obj)
    requires Settled(kids, g)
    ensures Settled(kids, g[d := o])
  {
  }

  lemma ArenaFormed(g: Graph, src: Graph, roots: seq<Val>, v: Val, m: Made)
    requires WellFormed(g, roots) && Converge.Grown(src, m.age, g, |m.objs|) && Settled([v], g + src)
    requires (forall r :: r in src ==> r.buf >= 3) && (forall r :: r in g ==> r.buf < 3)
    ensures WellFormed(g + src, roots + [v])
  {
    assert [v][0] == v;
    forall r | r in g ensures Settled(Children(g[r]), g + src) { assert Settled(Children(g[r]), g); }
  }

  lemma ArenaTotals(g: Graph, src: Graph, buf: nat, objs: seq<Ref>, cs: seq<Ref>, top: nat, total: nat)
    requires InPlace(g, objs, buf, objs) && Total(g, objs) == top && Total(src, cs) == total
    requires g.Keys !! src.Keys && (forall r :: r in objs ==> r in g) && (forall r :: r in cs ==> r in src)
    ensures InPlace(g + src, objs, buf, objs) && Total(g + src, objs) == top
    ensures Total(g + src, objs + cs) == top + total
  {
    hide Off;
    var all := g + src;
    forall n | 0 <= n <= |objs| ensures Off(all, objs, n) == Off(g, objs, n) { OffSame(all, objs, g, objs, n); }
    PlacesSame(g, all, buf, objs);
    OffSame(all, cs, src, cs, |cs|);
    TotalConcat(all, objs, cs, |cs|);
  }

  lemma PlacesSame(g: Graph, all: Graph, buf: nat, objs: seq<Ref>)
    requires InPlace(g, objs, buf, objs) && forall n :: 0 <= n <= |objs| ==> Off(all, objs, n) == Off(g, objs, n)
    ensures InPlace(all, objs, buf, objs)
  {
    hide Off;
    forall i {:trigger Place(all, objs, buf, i)} | 0 <= i < |objs| ensures objs[i] == Place(all, objs, buf, i) {
      assert objs[i] == Place(g, objs, buf, i);
    }
  }

  /** Two values popped off a moved stack. */
  lemma TwoOff(st0: seq<Val>, f: map<Ref, Ref>, car: Val, cdr: Val, rest: seq<Val>)
    requires |st0| >= 2 && TrSeq(st0, f) == [cdr] + ([car] + rest)
    ensures cdr == Tr(st0[0], f) && car == Tr(st0[1], f) && rest == TrSeq(st0[1..][1..], f)
  {
    hide Tr;
    var st := TrSeq(st0, f);
    assert st[0] == cdr && st[1] == car && st[2..] == rest;
  }

  lemma PairSize(car: Val, cdr: Val)
    ensures Size(Pair(car, cdr)) == Size(Pair(Imm(Float(0)), Imm(Float(0))))
  {
  }

  /** The last root after a move refers into the new graph. */
  lemma IsoSettled(g: Graph, roots: seq<Val>, v: Val, h: Graph, f: map<Ref, Ref>, roots': seq<Val>, w: Val)
    requires Iso(g, roots + [v], h, roots' + [w], f) && Settled([v], g) && |roots| == |roots'|
    ensures Settled([w], h)
  {
    assert (roots + [v])[|roots|] == v == [v][0];
    assert (roots' + [w])[|roots'|] == w == [w][0];
  }

  /** Appending two lists adds their totals. */
  lemma {:induction false} TotalConcat(g: Graph, rs: seq<Ref>, qs: seq<Ref>, n: nat)
    requires n <= |qs|
    ensures Off(g, rs + qs, |rs| + n) == Total(g, rs) + Off(g, qs, n)
  {
    if n == 0 {
      assert (rs + qs)[..|rs|] == rs[..|rs|];
      OffPrefix(g, rs + qs, rs, |rs|);
    } else {
      TotalConcat(g, rs, qs, n - 1);
    }
  }

  class Proc {
    const pid: nat
    const cap: nat

    var hasMem: bool
    var memId: nat
    var memSize: nat
    var heapPtr: nat
    var sp: int
    var stackFloor: int
    var slots: map<int, Val>
    var store: map<Ref, Cell>

    var hasTo: bool
    var toId: nat
    var toCap: nat
    var toSize: nat

    var gcTrigger: nat
    var gcPending: bool
    var gcGate: nat

    var ccall: Option<CallbackArena>

    var released: seq<nat>

    ghost var objs: seq<Ref>
    ghost var made: Made

    /** A new process: no block yet, nothing on the stack. */
    constructor (id: nat, limit: nat)
      requires limit % 8 == 0 && 4096 <= limit
      ensures Valid() && pid == id && cap == limit && !hasMem && Stack() == [] && Objects() == map[]
      ensures ccall.None? && gcGate == 0 && !gcPending && released == []
    {
      pid, cap := id, limit;
      hasMem, memId, memSize, heapPtr, sp, stackFloor, slots, store := false, 1, 0, 0, 0, 0, map[], map[];
      hasTo, toId, toCap, toSize, gcTrigger, gcPending, gcGate := false, 2, 0, 0, 0, false, 0;
      ccall, released, objs, made := None, [], [], Made([], map[]);
    }

    predicate InFromspace(r: Ref)
      reads this`memId, this`heapPtr
    {
      r.buf == memId && r.off < heapPtr
    }

    predicate InChunk(r: Ref)
      reads this`ccall
    {
      && ccall.Some? && 3 <= r.buf < 3 + |ccall.value.chunks|
      && r.off < ccall.value.chunks[r.buf - 3].used
    }

    predicate Promoting()
      reads this`ccall
    {
      ccall.Some? && ccall.value.promote
    }

    predicate Copyable(r: Ref)
      reads this`memId, this`heapPtr, this`ccall
    {
      InFromspace(r) || (Promoting() && InChunk(r))
    }

    ghost predicate Fits(c: Job)
      reads this`toCap, this`sp
    {
      Total(c.g, c.all) <= toCap + 8 * sp
    }

    ghost predicate Aimed(c: Job)
      reads this`memId, this`heapPtr, this`ccall
    {
      && memId > 0
      && (forall r :: r in c.g ==> Copyable(r))
      && WellFormed(c.g, c.roots)
    }

    // ---- the state ----

    /** The deepest slot the heap must stay below. */
    function Lo(): int
      reads this`sp, this`stackFloor
    {
      if sp < stackFloor then sp else stackFloor
    }

    ghost function Objects(): Graph
      reads this`store, this`objs
    {
      Space(store, objs)
    }

    ghost function Stack(): seq<Val>
      requires sp <= 0
      reads this`slots, this`memSize, this`sp
    {
      StackAt(slots, memSize, sp)
    }

    /** The block never exceeds its cap, and the spare semispace is never
        larger than the block. */
    ghost predicate Bounded()
      reads this`hasMem, this`memId, this`memSize, this`sp, this`stackFloor, this`hasTo, this`toId, this`toCap,
            this`heapPtr
    {
      && cap % 8 == 0 && 4096 <= cap
      && ((memId == 1 && toId == 2) || (memId == 2 && toId == 1))
      && sp <= 0 && stackFloor <= 0
      && memSize % 8 == 0 && memSize <= cap
      && (hasMem <==> 0 < memSize) && (!hasMem ==> heapPtr == 0)
      && (hasTo ==> hasMem && toCap <= memSize)
    }

    /** Objects lie back to back from the bottom of the block, and nothing on
        the stack or in the heap points anywhere else into the semispaces. */
    ghost predicate Sound()
      reads this`hasMem, this`memId, this`memSize, this`sp, this`stackFloor, this`hasTo, this`toId, this`toCap,
            this`heapPtr, this`slots, this`store, this`objs
    {
      && Bounded()
      && Laid(store, memId, objs, heapPtr)
      && HasSlots(slots, memSize, sp)
      && WellFormed(Objects(), Stack())
    }

    /** Heap and stack do not overlap: the heap ends below the deepest slot in
        use or reserved. */
    ghost predicate Valid()
      reads this`hasMem, this`memId, this`memSize, this`sp, this`stackFloor, this`hasTo, this`toId, this`toCap,
            this`heapPtr, this`slots, this`store, this`objs
    {
      Sound() && heapPtr <= memSize + 8 * Lo()
    }

    ghost function Roots(extra: Option<Val>): seq<Val>
      requires sp <= 0
      reads this`slots, this`memSize, this`sp
    {
      Stack() + AsSeq(extra)
    }

    /** A collection's job describes this process: its sources are live, its
        heap is laid out in it, and all of it fits into heap plus `room`. */
    ghost predicate Prepared(c: Job, room: nat)
      reads this
    {
      && Aimed(c)
      && Total(c.g, c.all) <= heapPtr + room
      && (forall r :: r in c.g ==> r.buf != toId && r in c.all && r in store && store[r] == Live(c.g[r]))
      && (forall i :: 0 <= i < |objs| ==> objs[i] in c.g)
      && InPlace(c.g, objs, memId, objs)
      && Total(c.g, objs) == heapPtr
    }

    // ---- the collector ----

    /** Copy one object, or return where it was copied before.  The check that
        the live set stays below the stack cannot fail: no object is copied
        twice. */
    method CopyObj(r: Ref, ghost c: Job, ghost s: Progress) returns (d: Ref, ghost t: Progress)
      requires Running(c, toId, store, s) && toSize == Total(c.g, s.order)
      requires r in c.g && Reachable(c.g, c.roots, r) && Fits(c)
      modifies this`store, this`toSize
      ensures Running(c, toId, store, t) && toSize == Total(c.g, t.order)
      ensures Extends(s, t) && r in t.f && d == t.f[r]
    {
      hide Running, Reachable, Size, Off;
      SourceCell(c, toId, store, s, r);
      match store[r] {
        case Forwarded(_, to) =>
          d, t := to, s;
        case Live(o) =>
          var size := Size(o);
          if toSize + size > toCap + 8 * sp {
            assert false; // the live set does not fit below the stack
          }
          d := Ref(toId, toSize);
          ghost var before := store;
          store := store[d := Live(o)][r := Forwarded(KindOf(o), d)];
          toSize := toSize + size;
          t := Copied(s, r, d);
          CopyStep(c, toId, before, s, store, r, d);
      }
    }

    /** Rewrite one value: only references into a source space move. */
    method CopyVal(v: Val, ghost c: Job, ghost s: Progress) returns (w: Val, ghost t: Progress)
      requires Running(c, toId, store, s) && toSize == Total(c.g, s.order)
      requires Aimed(c) && Fits(c)
      requires Settled([v], c.g) && (Into(v, c.g) ==> Reachable(c.g, c.roots, v.ref))
      modifies this`store, this`toSize
      ensures Running(c, toId, store, t) && toSize == Total(c.g, t.order)
      ensures Extends(s, t) && w == Tr(v, t.f) && (Into(v, c.g) ==> v.ref in t.f)
    {
      w, t := v, s;
      SourcesOnly(c, toId, store, s);
      if v.Ptr? {
        assert [v][0] == v;
        if Copyable(v.ref) {
          var d;
          d, t := CopyObj(v.ref, c, s);
          w := Ptr(v.kind, d);
        }
      }
    }

    /** Translate child j of copy k. */
    method ScanChild(at: Ref, j: nat, ghost k: nat, ghost c: Job, ghost s: Progress) returns (ghost t: Progress)
      requires Running(c, toId, store, s) && toSize == Total(c.g, s.order)
      requires Aimed(c) && Fits(c)
      requires k < |s.order| && s.order[k] in c.g && s.order[k] in s.f && at == s.f[s.order[k]]
      requires k < |s.done| && s.done[k] == j < |Children(c.g[s.order[k]])|
      modifies this`store, this`toSize
      ensures Running(c, toId, store, t) && toSize == Total(c.g, t.order)
      ensures |t.done| >= |s.done| && Extends(s.(done := s.done[k := j + 1]), t)
    {
      hide Running, Reachable, WellFormed, Settled, Copyable, Total;
      CopyAt(c, toId, store, s, k);
      ChildReachable(c, s.order[k], j);
      ghost var u;
      var w;
      w, u := CopyVal(Children(store[at].obj)[j], c, s);
      assert s.order[k] == u.order[k];
      CopyAt(c, toId, store, u, k);
      var o := store[at].obj;
      ghost var before := store;
      store := store[at := Live(WithChildren(o, Children(o)[j := w]))];
      ScanStep(c, toId, before, u, k, store);
      t := Advanced(u, k);
    }

    /** Scan the copies front to back until no unscanned copy is left. */
    method ScanTospace(ghost c: Job, ghost s0: Progress) returns (ghost s: Progress)
      requires Running(c, toId, store, s0) && toSize == Total(c.g, s0.order)
      requires Aimed(c) && Fits(c)
      requires forall i :: 0 <= i < |s0.done| ==> s0.done[i] == 0
      modifies this`store, this`toSize
      ensures Running(c, toId, store, s) && toSize == Total(c.g, s.order)
      ensures AllScanned(c.g, s.order, s.done)
      ensures forall r :: r in s0.f ==> r in s.f && s.f[r] == s0.f[r]
    {
      hide Running, Reachable, WellFormed, Settled, Copyable, Copy, Size, Off, Extends, ScannedTo;
      s := s0;
      var scan := 0;
      ghost var k := 0;
      CountsMatch(c, toId, store, s);
      ScannedStart(c.g, s);
      assert Off(c.g, s.order, 0) == 0 by { OffNone(c.g, s.order); }
      while scan < toSize
        invariant Running(c, toId, store, s) && toSize == Total(c.g, s.order)
        invariant ScannedTo(c.g, s, k, s0.f) && k <= |s.order| && scan == Off(c.g, s.order, k)
        decreases Total(c.g, c.all) - scan
      {
        InRange(c.g, s, k, s0.f, toSize);
        CopyAt(c, toId, store, s, k);
        var at := Ref(toId, scan);
        ghost var u := s;
        s := ScanObject(at, k, c, s);
        ScannedNext(c.g, u, s, k, s0.f);
        ExtendsOff(c.g, u.order, s.order, k + 1);
        scan := scan + Size(store[at].obj);
        k := k + 1;
        AtMost(c.g, s, k, s0.f);
      }
      ScannedEnd(c.g, s, k, s0.f);
    }

    /** Translate every child of copy k. */
    method ScanObject(at: Ref, ghost k: nat, ghost c: Job, ghost s0: Progress) returns (ghost s: Progress)
      requires Running(c, toId, store, s0) && toSize == Total(c.g, s0.order)
      requires Aimed(c) && Fits(c)
      requires k < |s0.order| == |s0.done| && s0.order[k] in c.g && s0.order[k] in s0.f && at == s0.f[s0.order[k]]
      requires s0.done[k] == 0
      modifies this`store, this`toSize
      ensures Running(c, toId, store, s) && toSize == Total(c.g, s.order)
      ensures at in store && store[at].Live? && Size(store[at].obj) == Size(c.g[s0.order[k]])
      ensures |s.done| == |s.order| && Extends(s0.(done := s0.done[k := |Children(c.g[s0.order[k]])|]), s)
      ensures forall i :: 0 <= i < |s.order| ==> s.order[i] in c.g
    {
      hide Running, Reachable, WellFormed, Settled, Copyable, Total;
      s := s0;
      CopyAt(c, toId, store, s, k);
      CountsMatch(c, toId, store, s);
      var n, j := |Children(store[at].obj)|, 0;
      while j < n
        invariant Running(c, toId, store, s) && toSize == Total(c.g, s.order)
        invariant 0 <= j <= n == |Children(c.g[s0.order[k]])|
        invariant |s.done| == |s.order| && Extends(s0.(done := s0.done[k := j]), s)
        invariant forall i :: 0 <= i < |s.order| ==> s.order[i] in c.g
      {
        assert s.order[k] == s0.order[k] && s.done[k] == j;
        s := ScanChild(at, j, k, c, s);
        CountsMatch(c, toId, store, s);
        j := j + 1;
      }
      CopyAt(c, toId, store, s, k);
    }

    /** Translate every stack slot, top to bottom. */
    method ForwardStack(ghost c: Job, ghost s0: Progress) returns (ghost s: Progress)
      requires Running(c, toId, store, s0) && toSize == Total(c.g, s0.order)
      requires Aimed(c) && Fits(c)
      requires sp <= 0 && HasSlots(slots, memSize, sp)
      requires StackAt(slots, memSize, sp) <= c.roots
      requires forall i :: 0 <= i < |s0.done| ==> s0.done[i] == 0
      modifies this`store, this`toSize, this`slots
      ensures Running(c, toId, store, s) && toSize == Total(c.g, s.order)
      ensures Extends(s0, s) && forall i :: 0 <= i < |s.done| ==> s.done[i] == 0
      ensures HasSlots(slots, memSize, sp)
      ensures StackAt(slots, memSize, sp) == TrSeq(old(StackAt(slots, memSize, sp)), s.f)
      ensures AllIn(old(StackAt(slots, memSize, sp)), c.g, s.f)
    {
      hide Running, Reachable, WellFormed, Settled, Copyable, Total, AllIn, Tr;
      s := s0;
      ghost var st := StackAt(slots, memSize, sp);
      NoneTranslated(c.g, st, s.f);
      var i := sp;
      while i < 0
        invariant sp <= i <= 0
        invariant Running(c, toId, store, s) && toSize == Total(c.g, s.order)
        invariant Extends(s0, s)
        invariant HasSlots(slots, memSize, sp)
        invariant StackAt(slots, memSize, sp) == TrUpTo(st, s.f, i - sp)
        invariant AllIn(st[..i - sp], c.g, s.f)
      {
        assert st[i - sp] == c.roots[i - sp];
        RootAt(c, i - sp);
        ghost var u := s;
        var w;
        w, s := CopyVal(slots[SlotAt(memSize, i)], c, s);
        SourcesOnly(c, toId, store, s);
        NextTranslated(c.g, st, u.f, s.f, i - sp);
        ExtendsTransitive(s0, u, s);
        StackWrite(slots, memSize, sp, i, w);
        slots := slots[SlotAt(memSize, i) := w];
        i := i + 1;
      }
      AllTranslated(c.g, st, s.f);
    }

    /** Run a header's destructor and clear it; closing twice is harmless. */
    method Release(r: Ref)
      requires r in store && store[r].Live? && store[r].obj.Resource?
      modifies this`store, this`released
      ensures store == old(store)[r := Live(old(store)[r].obj.(payload := None))]
      ensures Size(store[r].obj) == Size(old(store)[r].obj)
      ensures released == old(released) + if old(store)[r].obj.payload.Some? then [old(store)[r].obj.payload.value]
        else []
    {
      var o := store[r].obj;
      if o.payload.Some? {
        store := store[r := Live(o.(payload := None))];
        released := released + [o.payload.value];
      }
    }

    /** Walk a space linearly and release the resources that `pid` owned and
        nobody copied. The walk visits each object start once and ends exactly
        at the top, although forwarding has overwritten length fields. */
    method ReleaseSpace(buf: nat, bytes: nat, skipForwarded: bool, ghost g: Graph, ghost f: map<Ref, Ref>,
                        ghost os: seq<Ref>)
      returns (end: nat, ghost visited: seq<Ref>)
      requires Walkable(store, g, f, buf, os, bytes)
      requires !skipForwarded ==> f == map[]
      modifies this`store, this`released
      ensures end == bytes && visited == os
      ensures released == old(released) + DeadPayloads(g, os, f, pid, |os|)
      ensures forall r :: r in store <==> r in old(store)
      ensures forall r :: r in store && r.buf != buf ==> store[r] == old(store)[r]
    {
      hide Walkable, Size, SizeAt;
      WalkBound(store, g, f, buf, os, bytes);
      var off := 0;
      ghost var n := 0;
      visited := [];
      while off < bytes
        invariant n <= |os| && off == Off(g, os, n) && visited == os[..n]
        invariant released == old(released) + DeadPayloads(g, os, f, pid, n)
        invariant forall r :: r in store <==> r in old(store)
        invariant forall r :: r in store && r.buf != buf ==> store[r] == old(store)[r]
        invariant forall i :: n <= i < |os| ==> os[i] in store && store[os[i]] == old(store)[os[i]]
        decreases bytes - off
      {
        WalkStep(old(store), g, f, buf, os, bytes, n);
        var r := Ref(buf, off);
        var forwarded := skipForwarded && store[r].Forwarded?;
        if store[r].Live? && store[r].obj.Resource? && !forwarded {
          if store[r].obj.owner == pid { Release(r); }
        }
        var size := if forwarded then Size(store[store[r].to].obj) else Size(store[r].obj);
        off := off + size;
        visited := visited + [r];
        n := n + 1;
      }
      OffEnd(g, os, n);
      end := off;
    }

    /** Copy everything the roots reach into the other semispace. */
    method CopyLive(extra: Option<Val>, ghost c: Job) returns (moved: Option<Val>, ghost s: Progress)
      requires Aimed(c) && Fits(c) && sp <= 0 && HasSlots(slots, memSize, sp)
      requires c.roots == Roots(extra)
      requires forall r :: r in c.g ==> r.buf != toId && r in c.all && r in store && store[r] == Live(c.g[r])
      modifies this`store, this`toSize, this`slots
      ensures Running(c, toId, store, s) && toSize == Total(c.g, s.order)
      ensures AllScanned(c.g, s.order, s.done) && AllIn(c.roots, c.g, s.f)
      ensures HasSlots(slots, memSize, sp) && Roots(moved) == TrSeq(c.roots, s.f)
      ensures moved.Some? <==> extra.Some?
    {
      hide Running, Reachable, WellFormed, Settled, Copyable, Tr, AllIn, AllScanned;
      toSize := 0;
      moved := extra;
      s := Progress(map[], [], []);
      RunStart(c, toId, store);
      if extra.Some? {
        RootAt(c, |c.roots| - 1);
        var w;
        w, s := CopyVal(extra.value, c, s);
        moved := Some(w);
      }
      ghost var st, last, u := Stack(), AsSeq(extra), s;
      LastTranslated(c.g, extra, moved, s.f);
      s := ForwardStack(c, s);
      ghost var v := s;
      s := ScanTospace(c, s);
      RootsDone(c, toId, store, u, v, s, st, last);
    }

    /** Collect into a semispace large enough for everything there is, the
        caller's extra room and the deepest reserved frame. Fails, changing
        nothing, exactly when the cap is too small for that. */
    method Collect(extraRoom: nat, extra: Option<Val>, ghost c: Job)
      returns (ok: bool, moved: Option<Val>, ghost f: map<Ref, Ref>)
      requires Bounded() && HasSlots(slots, memSize, sp)
      requires hasMem ==> Prepared(c, extraRoom) && c.roots == Roots(extra)
      modifies this`memId, this`memSize, this`heapPtr, this`hasTo, this`toId, this`toCap, this`toSize,
               this`slots, this`store, this`objs, this`released, this`gcTrigger
      ensures ok <==> !hasMem || old(heapPtr) + extraRoom - 8 * Lo() <= cap
      ensures !ok || !hasMem ==> unchanged(this)
      ensures ok && hasMem ==> CollectedFrom(c, moved, f, old(memSize), old(heapPtr), extraRoom)
      ensures ok && hasMem ==> released == old(released) + DeadPayloads(c.g, old(objs), f, pid, |old(objs)|)
      ensures ok && hasMem ==> Retriggered()
      ensures moved.Some? <==> extra.Some?
    {
      hide Prepared, DeadPayloads, HasSlots, StackAt, Collected, Laid, WellFormed;
      f, moved := map[], extra;
      if !hasMem { return true, moved, f; }
      var need := heapPtr + extraRoom - 8 * Lo();
      var want := GrowTarget(memSize, need, cap);
      if want < need { return false, moved, f; }
      moved, f := CollectInto(want, extraRoom, extra, c);
      ok := true;
    }

    /** What a successful collection guarantees: the new heap is exactly the
        image of what the roots reached, and the requested room exists. */
    ghost predicate CollectedFrom(c: Job, moved: Option<Val>, f: map<Ref, Ref>, size: nat, top: nat, room: nat)
      reads this
    {
      && Valid() && Collected(c.g, c.roots, Objects(), Roots(moved), f)
      && top + room <= memSize + 8 * Lo()
      && size <= memSize && (top + room - 8 * Lo() <= size ==> memSize == size)
      && heapPtr <= Total(c.g, c.all)
    }

    /** The next collection is due when the heap has doubled, but not below a
        minimum. */
    predicate Retriggered()
      reads this`gcTrigger, this`heapPtr
    {
      gcTrigger >= MIN_TRIGGER && gcTrigger >= 2 * heapPtr && gcTrigger in {MIN_TRIGGER, 2 * heapPtr}
    }

    method CollectInto(want: nat, ghost room: nat, extra: Option<Val>, ghost c: Job)
      returns (moved: Option<Val>, ghost f: map<Ref, Ref>)
      requires Bounded() && HasSlots(slots, memSize, sp) && hasMem
      requires Prepared(c, room) && c.roots == Roots(extra)
      requires memSize <= want <= cap && want % 8 == 0 && heapPtr + room - 8 * Lo() <= want
      requires heapPtr + room - 8 * Lo() <= memSize ==> want == memSize
      modifies this`memId, this`memSize, this`heapPtr, this`hasTo, this`toId, this`toCap, this`toSize,
               this`slots, this`store, this`objs, this`released, this`gcTrigger
      ensures CollectedFrom(c, moved, f, old(memSize), old(heapPtr), room)
      ensures released == old(released) + DeadPayloads(c.g, old(objs), f, pid, |old(objs)|)
      ensures Retriggered() && (moved.Some? <==> extra.Some?)
    {
      hide Valid, Bounded, Prepared, DeadPayloads, HasSlots, StackAt, Collected, Laid, WellFormed, Walkable, Space,
           Total;
      var top := heapPtr;
      ghost var os := objs;
      moved, f := Flip(want, room, extra, c);
      Finalize(top, c.g, f, os);
      gcTrigger := if 2 * heapPtr < MIN_TRIGGER then MIN_TRIGGER else 2 * heapPtr;
    }

    method Flip(want: nat, ghost room: nat, extra: Option<Val>, ghost c: Job)
      returns (moved: Option<Val>, ghost f: map<Ref, Ref>)
      requires Bounded() && HasSlots(slots, memSize, sp) && hasMem
      requires Prepared(c, room) && c.roots == Roots(extra)
      requires memSize <= want <= cap && want % 8 == 0 && heapPtr + room - 8 * Lo() <= want
      modifies this`memId, this`memSize, this`heapPtr, this`hasTo, this`toId, this`toCap, this`toSize,
               this`slots, this`store, this`objs
      ensures Valid() && Collected(c.g, c.roots, Objects(), Roots(moved), f)
      ensures memSize == want && heapPtr <= Total(c.g, c.all)
      ensures Walkable(store, c.g, f, toId, old(objs), old(heapPtr))
      ensures moved.Some? <==> extra.Some?
    {
      hide Running, Reachable, WellFormed, AllIn, AllScanned, Laid, Collected, InPlace, TrSeq, Walkable, Copyable,
           HasSlots, StackAt, SlotAt, Slot, Space, Total, Valid;
      if !hasTo || toCap < want { hasTo, toCap := true, want; }
      ghost var s;
      moved, s := CopyLive(extra, c);
      f := s.f;
      Swap(c, s, moved);
    }

    /** Exchange the semispaces and carry the stack over. */
    method Swap(ghost c: Job, ghost s: Progress, ghost moved: Option<Val>)
      requires hasMem && hasTo && cap % 8 == 0 && 4096 <= cap && sp <= 0 && stackFloor <= 0
      requires (memId == 1 && toId == 2) || (memId == 2 && toId == 1)
      requires memSize % 8 == 0 && 0 < memSize <= toCap <= cap && toCap % 8 == 0
      requires HasSlots(slots, memSize, sp) && Total(c.g, c.all) <= toCap + 8 * Lo()
      requires Running(c, toId, store, s) && AllScanned(c.g, s.order, s.done) && AllIn(c.roots, c.g, s.f)
      requires WellFormed(c.g, c.roots) && toSize == Total(c.g, s.order)
      requires Roots(moved) == TrSeq(c.roots, s.f)
      requires forall i :: 0 <= i < |objs| ==> objs[i] in c.g
      requires InPlace(c.g, objs, memId, objs) && Total(c.g, objs) == heapPtr
      modifies this`memId, this`memSize, this`heapPtr, this`toId, this`toCap, this`toSize, this`slots, this`objs
      ensures Valid() && Collected(c.g, c.roots, Objects(), Roots(moved), s.f)
      ensures memSize == old(toCap) && toCap == old(memSize) && heapPtr <= Total(c.g, c.all)
      ensures Walkable(store, c.g, s.f, toId, old(objs), old(heapPtr))
    {
      hide Running, Reachable, WellFormed, AllIn, AllScanned, Laid, Walkable, Collected, InPlace, TrSeq, HasSlots,
           StackAt, Shift, SlotAt, Space, Total, Dests;
      ghost var st, ds := Stack(), Dests(c.g, toId, s.order);
      SwapReady(c, toId, store, s, objs, memId, heapPtr, st, AsSeq(moved));
      ShiftKeepsStack(slots, memSize, toCap, sp);
      Exchange(ds);
    }

    /** The assignments of the exchange. */
    method Exchange(ghost ds: seq<Ref>)
      modifies this`memId, this`memSize, this`heapPtr, this`toId, this`toCap, this`toSize, this`slots, this`objs
      ensures slots == Shift(old(slots), SlotAt(old(toCap), sp), old(toCap), old(toCap) - old(memSize)) && objs == ds
      ensures memId == old(toId) && memSize == old(toCap) && heapPtr == old(toSize)
      ensures toId == old(memId) && toCap == old(memSize) && toSize == 0
    {
      hide Shift, SlotAt;
      slots := Shift(slots, SlotAt(toCap, sp), toCap, toCap - memSize);
      objs := ds;
      memId, memSize, heapPtr, toId, toCap, toSize := toId, toCap, toSize, memId, memSize, 0;
    }

    /** Release what the old space still owned. */
    method Finalize(top: nat, ghost g: Graph, ghost f: map<Ref, Ref>, ghost os: seq<Ref>)
      requires Valid() && Walkable(store, g, f, toId, os, top)
      modifies this`store, this`released
      ensures Valid() && Objects() == old(Objects())
      ensures released == old(released) + DeadPayloads(g, os, f, pid, |os|)
    {
      hide WellFormed, HasSlots, StackAt, Walkable, DeadPayloads, InPlace;
      LaidBelow(store, memId, objs, heapPtr);
      var end;
      ghost var visited;
      end, visited := ReleaseSpace(toId, top, true, g, f, os);
      LaidFrame(old(store), store, memId, objs, heapPtr);
    }

    // ---- the arena ----

    lemma PlainJob(room: nat)
      requires Sound() && !Promoting()
      ensures Prepared(Job(Objects(), Stack(), objs), room) && Stack() == Roots(None)
    {
      hide WellFormed, StackAt, HasSlots;
      LaidBelow(store, memId, objs, heapPtr);
      assert Roots(None) == Stack() + [] == Stack();
    }

    /** A collection without an extra root: the stack sees the same graph. */
    method GcCollect(room: nat) returns (ok: bool, ghost f: map<Ref, Ref>)
      requires Sound() && !Promoting()
      modifies this`memId, this`memSize, this`heapPtr, this`hasTo, this`toId, this`toCap, this`toSize,
               this`slots, this`store, this`objs, this`released, this`gcTrigger
      ensures ok <==> !hasMem || old(heapPtr) + room - 8 * Lo() <= cap
      ensures !ok || !hasMem ==> unchanged(this)
      ensures ok ==> Sound() && Iso(old(Objects()), old(Stack()), Objects(), Stack(), f)
      ensures ok && hasMem ==> Valid() && old(heapPtr) + room <= memSize + 8 * Lo() && heapPtr <= old(heapPtr)
      ensures ok && hasMem ==> Collected(old(Objects()), old(Stack()), Objects(), Stack(), f)
      ensures ok && hasMem ==> LiveBytes(old(Objects()), old(Stack()), heapPtr)
      ensures ok && old(heapPtr) + room - 8 * Lo() <= old(memSize) ==> memSize == old(memSize)
      ensures ok && hasMem ==> released == old(released) + DeadPayloads(old(Objects()), old(objs), f, pid, |old(objs)|)
      ensures ok && hasMem ==> Retriggered()
    {
      hide Prepared, DeadPayloads, StackAt, Reachable, WellFormed, Iso, InPlace, Space, HasSlots, Laid, LiveBytes;
      ghost var c := Job(Objects(), Stack(), objs);
      PlainJob(room);
      JobTotal();
      IsoIdentity(Objects(), Stack(), Objects());
      var moved;
      ok, moved, f := Collect(room, None, c);
      assert Roots(moved) == Stack() + [] == Stack();
      if !hasMem {
        f := Identity(Objects());
      } else if ok {
        LiveIs(store, memId, objs, heapPtr, c.g, c.roots, Stack(), f);
      }
    }

    lemma JobTotal()
      requires Sound()
      ensures Total(Objects(), objs) == heapPtr
    {
    }

    /** Allocate the idling block on first use. */
    method EnsureHeap()
      requires Valid()
      modifies this`hasMem, this`memSize
      ensures Valid() && hasMem && Stack() == old(Stack())
      ensures memSize == if old(hasMem) then old(memSize) else HEAP0
    {
      hide WellFormed, Laid, Space;
      if !hasMem {
        hasMem, memSize := true, HEAP0;
      }
    }

    /** Relocate the block while it holds no object. Every stack slot keeps
        its value. */
    method ArenaGrow(need: int) returns (ok: bool)
      requires Sound()
      modifies this`memSize, this`slots
      ensures Sound() && Stack() == old(Stack())
      ensures ok <==> hasMem && heapPtr == 0 && old(memSize) < need <= cap
      ensures if ok then need <= memSize else memSize == old(memSize) && slots == old(slots)
    {
      hide WellFormed, Laid, Space, StackAt, HasSlots, Shift, SlotAt;
      if !hasMem || heapPtr > 0 { return false; }
      var want := GrowTarget(memSize, need, cap);
      if want < need || want <= memSize { return false; }
      ShiftKeepsStack(slots, memSize, want, sp);
      slots := Shift(slots, SlotAt(want, sp), want, want - memSize);
      memSize := want;
      ok := true;
    }

    /** Push one value; `ok` is false where the runtime aborts. */
    method Push(v: Val) returns (ok: bool)
      requires Valid() && Settled([v], Objects())
      modifies this`hasMem, this`memSize, this`slots, this`sp
      ensures ok <==>
        || heapPtr <= (if old(hasMem) then old(memSize) else HEAP0) + 8 * (old(sp) - 1)
        || (heapPtr == 0 && 8 * (1 - old(sp)) <= cap)
      ensures ok ==> Valid() && Stack() == [v] + old(Stack()) && sp == old(sp) - 1
    {
      hide WellFormed, Laid, Space, StackAt, HasSlots, SlotAt, Settled;
      EnsureHeap();
      if memSize + 8 * (sp - 1) < heapPtr {
        var grown := ArenaGrow(8 * (1 - sp));
        if !grown { return false; }
      }
      StackPush(slots, memSize, sp, v);
      RootsPush(Objects(), Stack(), v);
      slots := slots[SlotAt(memSize, sp - 1) := v];
      sp := sp - 1;
      ok := true;
    }

    method Pop() returns (v: Val)
      requires Valid() && sp < 0
      modifies this`sp
      ensures Valid() && sp == old(sp) + 1 && old(Stack()) == [v] + Stack() && Settled([v], Objects())
    {
      hide WellFormed, Laid, Space, StackAt, HasSlots, SlotAt, Settled;
      StackPop(slots, memSize, sp);
      v := slots[SlotAt(memSize, sp)];
      sp := sp + 1;
      RootsPush(Objects(), Stack(), v);
    }

    /** Reserve a whole frame down to slot `lo`, collecting if the heap is in
        the way. The gap check after a collection cannot fail. */
    method StackReserve(lo: int) returns (ok: bool, ghost f: map<Ref, Ref>)
      requires Valid() && !Promoting() && lo <= 0
      modifies this`memId, this`memSize, this`heapPtr, this`hasTo, this`toId, this`toCap, this`toSize, this`hasMem,
               this`slots, this`store, this`objs, this`released, this`gcTrigger, this`stackFloor
      ensures ok <==>
        var size := if old(hasMem) then old(memSize) else HEAP0;
        var deep := if lo < old(Lo()) then lo else old(Lo());
        || old(heapPtr) <= size + 8 * lo
        || (old(heapPtr) == 0 && 8 * (1 - lo) <= cap)
        || old(heapPtr) + 8 * (1 - lo) - 8 * deep <= cap
      ensures ok ==>
        && Valid() && heapPtr <= memSize + 8 * lo
        && stackFloor == (if lo < old(stackFloor) then lo else old(stackFloor))
        && Iso(old(Objects()), old(Stack()), Objects(), Stack(), f)
    {
      hide WellFormed, Laid, Space, StackAt, HasSlots, SlotAt, Iso, Collected, DeadPayloads;
      IsoIdentity(Objects(), Stack(), Objects());
      f := Identity(Objects());
      EnsureHeap();
      ok := true;
      if lo < stackFloor { stackFloor := lo; }
      if memSize + 8 * lo < heapPtr {
        ok := ArenaGrow(8 * (1 - lo));
        if !ok {
          ok, f := GcCollect(8 * (1 - lo));
        }
        if ok && memSize + 8 * lo < heapPtr {
          assert false; // the frame fits after a collection
        }
      }
    }

    /** Make room for a rebuild of known size before the gate closes. */
    method ReserveHeap(bytes: nat) returns (ok: bool, ghost f: map<Ref, Ref>)
      requires Valid() && !Promoting()
      modifies this`memId, this`memSize, this`heapPtr, this`hasTo, this`toId, this`toCap, this`toSize,
               this`slots, this`store, this`objs, this`released, this`gcTrigger
      ensures ok <==>
        && hasMem
        && (|| bytes + SLACK <= old(memSize) - old(heapPtr) + 8 * Lo()
            || old(heapPtr) + bytes + HEADROOM - 8 * Lo() <= cap)
      ensures ok ==> Valid() && bytes + SLACK <= memSize - heapPtr + 8 * Lo()
      ensures ok ==> Iso(old(Objects()), old(Stack()), Objects(), Stack(), f)
    {
      hide WellFormed, Laid, Space, StackAt, HasSlots, SlotAt, Iso, Collected, DeadPayloads;
      IsoIdentity(Objects(), Stack(), Objects());
      f := Identity(Objects());
      if memSize - heapPtr + 8 * Lo() >= bytes + SLACK { return true, f; }
      if heapPtr == 0 {
        ok := ArenaGrow(heapPtr - 8 * Lo() + bytes + HEADROOM);
      } else {
        ok, f := GcCollect(bytes + HEADROOM);
      }
    }

    /** Honour a pending request once the gate is open. This collection cannot
        fail, so ignoring its result code is sound. */
    method GcDrain() returns (ghost f: map<Ref, Ref>)
      requires Valid() && !Promoting()
      modifies this`memId, this`memSize, this`heapPtr, this`hasTo, this`toId, this`toCap, this`toSize,
               this`slots, this`store, this`objs, this`released, this`gcTrigger, this`gcPending
      ensures Valid() && hasMem == old(hasMem) && memSize == old(memSize) && heapPtr <= old(heapPtr)
      ensures Iso(old(Objects()), old(Stack()), Objects(), Stack(), f)
      ensures gcGate == 0 && old(gcPending) && hasMem ==>
        LiveBytes(old(Objects()), old(Stack()), heapPtr) && Retriggered()
      ensures gcGate == 0 ==> !gcPending
      ensures gcGate != 0 || !old(gcPending) ==>
        && gcPending == old(gcPending) && gcTrigger == old(gcTrigger)
        && Frozen(old(memId), old(memSize), old(heapPtr), old(store), old(Objects()), old(Stack()))
    {
      hide WellFormed, Laid, Space, StackAt, HasSlots, SlotAt, Iso, Collected, DeadPayloads, LiveBytes;
      IsoIdentity(Objects(), Stack(), Objects());
      f := Identity(Objects());
      if gcGate == 0 && gcPending {
        gcPending := false;
        var ok;
        ok, f := GcCollect(0);
        assert ok;
      }
    }

    /** No collection ran: the block, its objects and the stack stand still. */
    ghost predicate Frozen(id: nat, size: nat, top: nat, cells: map<Ref, Cell>, g: Graph, st: seq<Val>)
      requires sp <= 0
      reads this
    {
      memId == id && memSize == size && heapPtr == top && store == cells && Objects() == g && Stack() == st
    }

    /** A collection is due before the next allocation. */
    predicate Requested(stress: bool)
      reads this`gcPending, this`heapPtr, this`gcTrigger
    {
      stress || gcPending || heapPtr > gcTrigger
    }

    lemma SpValid()
      requires Valid()
      ensures sp <= 0 && WellFormed(Objects(), Stack())
    {
    }

    /** What comes before the fit check: note a request, allocate the block, collect
        if allowed. */
    method Prelude(stress: bool) returns (ghost f: map<Ref, Ref>, ghost top: nat)
      requires Valid() && !Promoting()
      modifies this`memId, this`memSize, this`heapPtr, this`hasTo, this`toId, this`toCap, this`toSize,
               this`slots, this`store, this`objs, this`released, this`gcTrigger, this`gcPending, this`hasMem
      ensures Valid() && hasMem && memSize == (if old(hasMem) then old(memSize) else HEAP0) && heapPtr <= old(heapPtr)
      ensures top == heapPtr && old(Drained(stress, top)) && Iso(old(Objects()), old(Stack()), Objects(), Stack(), f)
      ensures gcGate != 0 && old(hasMem) ==>
        Frozen(old(memId), old(memSize), old(heapPtr), old(store), old(Objects()), old(Stack()))
      ensures if gcGate == 0 then !Requested(false) else gcPending <==> old(Requested(stress))
    {
      hide Sound, WellFormed, Laid, Space, StackAt, HasSlots, SlotAt, Iso, Collected, DeadPayloads, Identity, LiveBytes;
      SpValid();
      if stress { gcPending := true; }
      EnsureHeap();
      SpValid();
      if heapPtr > gcTrigger { gcPending := true; }
      f := GcDrain();
      top := heapPtr;
    }

    /** Where the heap ends once a request has been honoured. */
    ghost predicate Drained(stress: bool, top: nat)
      requires sp <= 0
      reads this`gcPending, this`heapPtr, this`gcTrigger, this`gcGate, this`slots, this`memSize, this`sp, this`store,
            this`objs
    {
      if gcGate == 0 && Requested(stress) then LiveBytes(Objects(), Stack(), top) else top == heapPtr
    }

    /** Find room for `size` more bytes: honour a request, then collect again
        if the object still does not fit.  It fails exactly when what is left above
        `top` is too small and the gate is closed or the cap too low.  With the gate
        closed nothing moves. */
    method MakeRoom(size: nat, stress: bool) returns (ok: bool, ghost f: map<Ref, Ref>, ghost top: nat)
      requires Valid() && !Promoting()
      modifies this`memId, this`memSize, this`heapPtr, this`hasTo, this`toId, this`toCap, this`toSize,
               this`slots, this`store, this`objs, this`released, this`gcTrigger, this`gcPending, this`hasMem
      ensures old(Drained(stress, top)) && top <= old(heapPtr)
      ensures ok <==>
        || top + size + SLACK <= (if old(hasMem) then old(memSize) else HEAP0) + 8 * Lo()
        || (gcGate == 0 && top + size + HEADROOM - 8 * Lo() <= cap)
      ensures ok ==> Iso(old(Objects()), old(Stack()), Objects(), Stack(), f)
      ensures ok ==> Valid() && hasMem && heapPtr + size + SLACK <= memSize + 8 * Lo()
      ensures if gcGate != 0 then gcPending <==> old(Requested(stress)) else ok ==> !Requested(false)
      ensures ok && gcGate != 0 && old(hasMem) ==>
        Frozen(old(memId), old(memSize), old(heapPtr), old(store), old(Objects()), old(Stack()))
    {
      hide Sound, WellFormed, Laid, Space, StackAt, HasSlots, SlotAt, Iso, Collected, DeadPayloads, Identity,
           Compose, LiveBytes;
      SpValid();
      f, top := Prelude(stress);
      SpValid();
      ghost var g, st := Objects(), Stack();
      ok := true;
      if heapPtr + size + SLACK > memSize + 8 * Lo() {
        if gcGate != 0 { return false, f, top; }
        ghost var k;
        ok, k := GcCollect(size + HEADROOM);
        if ok {
          IsoTransitive(old(Objects()), old(Stack()), g, st, Objects(), Stack(), f, k);
          f := Compose(f, k);
        }
      }
    }

    /** Allocate an object at the top of the heap. Its children are still
        immediates: the caller writes them afterwards, from values that the
        stack kept alive. */
    method HeapAlloc(o: Obj, stress: bool) returns (ok: bool, r: Ref, ghost f: map<Ref, Ref>, ghost top: nat)
      requires Valid() && !Promoting() && (ccall.Some? ==> ccall.value.converge) && Settled(Children(o), map[])
      modifies this`memId, this`memSize, this`heapPtr, this`hasTo, this`toId, this`toCap, this`toSize,
               this`slots, this`store, this`objs, this`released, this`gcTrigger, this`gcPending, this`hasMem
      ensures old(Drained(stress, top)) && top <= old(heapPtr)
      ensures ok <==>
        || top + Size(o) + SLACK <= (if old(hasMem) then old(memSize) else HEAP0) + 8 * Lo()
        || (gcGate == 0 && top + Size(o) + HEADROOM - 8 * Lo() <= cap)
      ensures ok ==> Valid() && hasMem && r in Objects() && Objects()[r] == o && r.buf == memId
      ensures ok ==> r.off + Size(o) == heapPtr && heapPtr + SLACK <= memSize + 8 * Lo()
      ensures ok ==> forall x :: x in f ==> f[x] != r
      ensures ok ==> Iso(old(Objects()), old(Stack()), Objects(), Stack(), f)
      ensures ok && gcGate != 0 && old(hasMem) ==>
        Frozen(old(memId), old(memSize), old(heapPtr) + Size(o), old(store)[r := Live(o)], old(Objects())[r := o],
          old(Stack()))
    {
      hide Valid, StackAt, Iso, Space, Settled, Size, Identity, Drained;
      ok, f, top := MakeRoom(Size(o), stress);
      r := Ref(memId, heapPtr);
      if ok {
        ghost var h, st := Objects(), Stack();
        Bump(o);
        IsoExtend(old(Objects()), old(Stack()), h, st, f, r, o);
        IsoRange(old(Objects()), old(Stack()), h, st, f, r);
      }
    }

    method Bump(o: Obj)
      requires Valid() && Settled(Children(o), map[])
      requires heapPtr + Size(o) <= memSize + 8 * Lo()
      modifies this`heapPtr, this`store, this`objs
      ensures Valid() && heapPtr == old(heapPtr) + Size(o)
      ensures Ref(memId, old(heapPtr)) !in old(Objects())
      ensures store == old(store)[Ref(memId, old(heapPtr)) := Live(o)]
      ensures Objects() == old(Objects())[Ref(memId, old(heapPtr)) := o]
    {
      hide WellFormed, Laid, Space, StackAt, HasSlots, SlotAt, Size;
      var r := Ref(memId, heapPtr);
      LaidAppend(store, memId, objs, heapPtr, o);
      WellFormedExtend(Objects(), Stack(), r, o);
      store := store[r := Live(o)];
      objs := objs + [r];
      heapPtr := heapPtr + Size(o);
    }

    /** Write the fields of an object that was just allocated. */
    method Init(r: Ref, o: Obj)
      requires Valid() && r in Objects() && Size(o) == Size(Objects()[r]) && Settled(Children(o), Objects())
      modifies this`store
      ensures Valid() && Objects() == old(Objects())[r := o] && store == old(store)[r := Live(o)]
    {
      hide WellFormed, Laid, StackAt, HasSlots, SlotAt, Size, Settled;
      LaidOverwrite(store, memId, objs, heapPtr, r, o);
      WellFormedOverwrite(Objects(), Stack(), r, o);
      store := store[r := Live(o)];
    }

    /** cons: the accumulator goes on the stack before the allocation, and the
        operands are read back from the stack after it, so a collection in
        between leaves the new pair pointing at the moved operands. */
    method Cons(acc: Val, stress: bool) returns (ok: bool, r: Ref, ghost f: map<Ref, Ref>)
      requires Valid() && ccall.None? && gcGate == 0 && sp < 0 && Settled([acc], Objects())
      modifies this`memId, this`memSize, this`heapPtr, this`hasTo, this`toId, this`toCap, this`toSize,
               this`slots, this`store, this`objs, this`released, this`gcTrigger, this`gcPending, this`hasMem, this`sp
      ensures ok ==> Valid() && sp == old(sp) + 1 && Stack() == TrSeq(old(Stack())[1..], f)
      ensures ok ==> r in Objects() && Objects()[r] == Pair(Tr(old(Stack())[0], f), Tr(acc, f))
      ensures ok ==> Iso(old(Objects()), [acc] + old(Stack()), Objects(), TrSeq([acc] + old(Stack()), f), f)
    {
      hide Valid, Iso, StackAt, Space, Settled, Drained, Lo, Size;
      r, f := Ref(0, 0), map[];
      ghost var g0, st0 := Objects(), [acc] + Stack();
      ok := Push(acc);
      if !ok { return; }
      ghost var top;
      BlankSettled([Imm(Float(0)), Imm(Float(0))]);
      ok, r, f, top := HeapAlloc(Pair(Imm(Float(0)), Imm(Float(0))), stress);
      if !ok { return; }
      ghost var st := Stack();
      IsoRoots(g0, st0, Objects(), st, f);
      var cdr := Pop();
      var car := Pop();
      TwoOff(st0, f, car, cdr, Stack());
      SettledPair(car, cdr, Objects());
      IsoOverwrite(g0, st0, Objects(), st, f, r, Pair(car, cdr));
      PairSize(car, cdr);
      Init(r, Pair(car, cdr));
    }

    // ---- C callbacks ----

    /** The objects the running callback has made. */
    ghost function Chunked(): Graph
      reads this`store, this`made
    {
      Space(store, made.objs)
    }

    /** A callback is running. */
    ghost predicate Window()
      reads this`ccall, this`store, this`objs, this`made
    {
      && ccall.Some? && !ccall.value.promote && !ccall.value.converge
      && ccall.value.chunks != [] && ChunksFit(ccall.value.chunks)
      && Arena(store, ccall.value.chunks, made, ccall.value.total, Objects())
    }

    /** Write a cell outside the semispaces. */
    method WriteChunk(r: Ref, c: Cell)
      requires Valid() && r.buf >= 3
      modifies this`store
      ensures Valid() && store == old(store)[r := c] && Objects() == old(Objects()) && r !in Objects()
    {
      hide WellFormed, HasSlots, StackAt, Laid;
      LaidBelow(store, memId, objs, heapPtr);
      LaidElsewhere(store, memId, objs, heapPtr, r, c);
      store := store[r := c];
    }

    /** Open a callback window. */
    method OpenWindow()
      requires Valid() && ccall.None?
      modifies this`ccall, this`made, this`gcGate
      ensures Valid() && Window() && made.objs == [] && gcGate == old(gcGate) + 1
      ensures ccall.value.chunks == [Chunk(0, CHUNK0)]
    {
      hide Valid;
      gcGate := gcGate + 1;
      ccall := Some(CallbackArena([Chunk(0, CHUNK0)], 0, false, false));
      made := Made([], map[]);
    }

    /** The chunks after allocating `size` bytes: at the end of the last one if they
        fit there, otherwise in a new one that is large enough. */
    predicate Placed(was: seq<Chunk>, now: seq<Chunk>, size: nat, r: Ref)
      requires was != []
    {
      var last, k := was[|was| - 1], |was| - 1;
      if last.used + size <= last.cap then
        r == Ref(3 + k, last.used) && now == was[k := last.(used := last.used + size)]
      else
        && r == Ref(4 + k, 0) && |now| == |was| + 1 && now[..|was|] == was && now[|was|].used == size
        && now[|was|].cap >= size && now[|was|].cap >= CHUNK_NEXT && now[|was|].cap in {size, CHUNK_NEXT}
    }

    /** Allocate in the last chunk, opening a new one when it is full.  Chunks
        never move, so nothing the callback holds becomes invalid. */
    method ChunkAlloc(o: Obj) returns (r: Ref)
      requires Valid() && Window() && Settled(Children(o), Objects() + Chunked())
      modifies this`store, this`ccall, this`made
      ensures Valid() && Window() && Objects() == old(Objects())
      ensures r !in old(Chunked()) && Chunked() == old(Chunked())[r := o]
      ensures ccall.value.total == old(ccall).value.total + Size(o)
      ensures Placed(old(ccall).value.chunks, ccall.value.chunks, Size(o), r)
    {
      hide Valid, Arena, Size, Space, Settled;
      var size, a, chunks := Size(o), ccall.value, ccall.value.chunks;
      if chunks[|chunks| - 1].used + size > chunks[|chunks| - 1].cap {
        chunks := chunks + [Chunk(0, if size > CHUNK_NEXT then size else CHUNK_NEXT)];
      }
      var k := |chunks| - 1;
      r := Ref(3 + k, chunks[k].used);
      chunks := chunks[k := Chunk(chunks[k].used + size, chunks[k].cap)];
      ghost var cells := store;
      WriteChunk(r, Live(o));
      ArenaAppend(cells, a.chunks, chunks, made, a.total, Objects(), r, o);
      ccall := Some(a.(chunks := chunks, total := a.total + size));
      made := MadeAlso(made, r);
    }

    /** The fast copy's state as the process holds it: a chunk object carries a
        forwarding mark exactly when it was rebuilt. */
    ghost predicate Mirrors(src: Graph, st: Converge.State)
      reads this`store, this`objs, this`heapPtr, this`ccall
    {
      && Objects() == st.h && heapPtr == st.top
      && forall r :: r in src ==>
           && InChunk(r) && r in store
           && store[r] == if r in st.f then Forwarded(KindOf(src[r]), st.f[r]) else Live(src[r])
    }

    /** With the gate closed, allocate an object and fill it in: nothing else
        changes. */
    method Build(o: Obj, stress: bool) returns (d: Ref)
      requires Valid() && hasMem && gcGate != 0 && (ccall.Some? ==> ccall.value.converge) && !Promoting()
      requires Settled(Children(o), Objects()) && heapPtr + Size(o) + SLACK <= memSize + 8 * Lo()
      modifies this`memId, this`memSize, this`heapPtr, this`hasTo, this`toId, this`toCap, this`toSize,
               this`slots, this`store, this`objs, this`released, this`gcTrigger, this`gcPending, this`hasMem
      ensures Valid() && hasMem && d == Ref(old(memId), old(heapPtr)) && d !in old(Objects())
      ensures Frozen(old(memId), old(memSize), old(heapPtr) + Size(o), old(store)[d := Live(o)],
        old(Objects())[d := o], old(Stack()))
    {
      hide Valid, StackAt, Iso, Space, Settled, Size;
      var blank := WithChildren(o, seq(|Children(o)|, i => Imm(Float(0))));
      BlankSettled(Children(blank));
      TopFree();
      var ok;
      ghost var f;
      ghost var top;
      ok, d, f, top := HeapAlloc(blank, stress);
      GrowKids(old(Objects()), Children(o), d, blank);
      assert old(store)[d := Live(blank)][d := Live(o)] == old(store)[d := Live(o)];
      assert old(Objects())[d := blank][d := o] == old(Objects())[d := o];
      Init(d, o);
    }

    /** Rebuild one chunk object at the top of the heap and leave a forwarding
        mark. */
    method RebuildObj(r: Ref, kids: seq<Val>, stress: bool, ghost src: Graph, ghost st: Converge.State) returns (d: Ref)
      requires Valid() && hasMem && gcGate != 0 && ccall.Some? && ccall.value.converge && !ccall.value.promote
      requires Mirrors(src, st) && r in src && r !in st.f
      requires |kids| == |Children(src[r])| && Settled(kids, Objects())
      requires heapPtr + Size(src[r]) + SLACK <= memSize + 8 * Lo()
      modifies this`memId, this`memSize, this`heapPtr, this`hasTo, this`toId, this`toCap, this`toSize,
               this`slots, this`store, this`objs, this`released, this`gcTrigger, this`gcPending, this`hasMem
      ensures Valid() && hasMem && memId == old(memId) && memSize == old(memSize) && Stack() == old(Stack())
      ensures d == Ref(memId, old(heapPtr)) && Mirrors(src, Converge.Rebuild(src, memId, st, r, kids))
    {
      hide Valid, StackAt, Space, Settled, Size;
      BoundedSpaces();
      var o := store[r].obj;
      d := Build(WithChildren(o, kids), stress);
      WriteChunk(r, Forwarded(KindOf(o), d));
    }

    lemma TopFree()
      requires Valid()
      ensures Ref(memId, heapPtr) !in Objects()
    {
      LaidBelow(store, memId, objs, heapPtr);
    }

    lemma BoundedSpaces()
      requires Valid()
      ensures 1 <= memId <= 2 && 1 <= toId <= 2 && sp <= 0
    {
    }

    /** A value of the work stack lies in a chunk exactly when it is a source. */
    lemma ChunkIffSource(v: Val, src: Graph, g: Graph, st: Converge.State)
      requires Valid() && Mirrors(src, st) && Settled([v], g + src) && forall r :: r in g ==> r in Objects()
      ensures Into(v, src) <==> v.Ptr? && InChunk(v.ref)
    {
      hide WellFormed, HasSlots, StackAt, Laid;
      LaidBelow(store, memId, objs, heapPtr);
      assert [v][0] == v;
    }

    /** Pop a marker: its children are the last results. */
    method MakeObj(r: Ref, kind: Kind, ghost rest: seq<Converge.Task>, results: seq<Val>, stress: bool,
                   ghost src: Graph, ghost age: map<Ref, nat>, ghost g: Graph, ghost st: Converge.State,
                   ghost goal: (Converge.State, seq<Val>)) returns (ghost st': Converge.State, results': seq<Val>)
      requires Valid() && hasMem && gcGate != 0 && ccall.Some? && ccall.value.converge && !ccall.value.promote
      requires Mirrors(src, st) && goal.0.top + SLACK <= memSize + 8 * Lo()
      requires Converge.Older(src, age)
      requires Converge.Stage(src, age, memId, g, st, rest + [Converge.Make(r, kind)], results, goal)
      modifies this`memId, this`memSize, this`heapPtr, this`hasTo, this`toId, this`toCap, this`toSize,
               this`slots, this`store, this`objs, this`released, this`gcTrigger, this`gcPending, this`hasMem
      ensures Valid() && hasMem && memId == old(memId) && memSize == old(memSize) && Stack() == old(Stack())
      ensures Mirrors(src, st') && Converge.Stage(src, age, memId, g, st', rest, results', goal)
      ensures Converge.Left(src, age, rest) < Converge.Left(src, age, rest + [Converge.Make(r, kind)])
    {
      hide Valid, StackAt, Space, Settled, Size, Converge.Stage, Converge.Left, Converge.Older, Converge.Rebuild;
      Converge.StageMake(src, age, memId, g, st, rest, results, goal, r, kind);
      var n := |results| - |Children(store[r].obj)|;
      var d := RebuildObj(r, results[n..], stress, src, st);
      st' := Converge.Rebuild(src, memId, st, r, results[n..]);
      results' := results[..n] + [Ptr(kind, d)];
    }

    /** Pop a value: pass it on, reuse an earlier copy, copy a leaf, or push a
        marker and the children. */
    method CopyTask(v: Val, rest: seq<Converge.Task>, results: seq<Val>, stress: bool,
                    ghost src: Graph, ghost age: map<Ref, nat>, ghost g: Graph, ghost st: Converge.State,
                    ghost goal: (Converge.State, seq<Val>))
      returns (ghost st': Converge.State, tasks': seq<Converge.Task>, results': seq<Val>)
      requires Valid() && hasMem && gcGate != 0 && ccall.Some? && ccall.value.converge && !ccall.value.promote
      requires Mirrors(src, st) && goal.0.top + SLACK <= memSize + 8 * Lo()
      requires Converge.Older(src, age)
      requires Converge.Stage(src, age, memId, g, st, rest + [Converge.Copy(v)], results, goal)
      modifies this`memId, this`memSize, this`heapPtr, this`hasTo, this`toId, this`toCap, this`toSize,
               this`slots, this`store, this`objs, this`released, this`gcTrigger, this`gcPending, this`hasMem
      ensures Valid() && hasMem && memId == old(memId) && memSize == old(memSize) && Stack() == old(Stack())
      ensures Mirrors(src, st') && Converge.Stage(src, age, memId, g, st', tasks', results', goal)
      ensures Converge.Left(src, age, tasks') < Converge.Left(src, age, rest + [Converge.Copy(v)])
    {
      hide Valid, StackAt, Space, Settled, Size, Converge.Stage, Converge.Left, Converge.Older, Converge.Pushed;
      Converge.StageTop(src, age, memId, g, st, rest, results, goal, v);
      ChunkIffSource(v, src, g, st);
      st', tasks' := st, rest;
      if v.Imm? || !InChunk(v.ref) {
        Converge.StagePass(src, age, memId, g, st, rest, results, goal, v, v);
        results' := results + [v];
      } else if store[v.ref].Forwarded? {
        Converge.StagePass(src, age, memId, g, st, rest, results, goal, v, Ptr(v.kind, store[v.ref].to));
        results' := results + [Ptr(v.kind, store[v.ref].to)];
      } else {
        var o := store[v.ref].obj;
        Converge.StageExpand(src, age, memId, g, st, rest, results, goal, v);
        if o.Pair? || o.Closure? {
          results' := results;
          tasks' := rest + [Converge.Make(v.ref, v.kind)] + Converge.Pushed(Children(o));
        } else {
          Converge.PushedNone(rest + [Converge.Make(v.ref, v.kind)]);
          st', results' := MakeObj(v.ref, v.kind, rest, results, stress, src, age, g, st, goal);
        }
      }
    }

    /** Copy a result out of the chunks with an explicit work stack and result
        stack: this computes exactly the recursive copy, and every allocation
        fits. */
    method ConvergeCopy(root: Val, stress: bool, ghost src: Graph, ghost age: map<Ref, nat>,
                        ghost n: nat) returns (w: Val)
      requires Valid() && hasMem && gcGate != 0 && ccall.Some? && ccall.value.converge && !ccall.value.promote
      requires Converge.Grown(src, age, Objects(), n) && Settled([root], Objects() + src)
      requires Mirrors(src, Converge.State(map[], [], Objects(), heapPtr))
      requires Converge.Conv(src, age, memId, Converge.State(map[], [], Objects(), heapPtr), root).0.top + SLACK
               <= memSize + 8 * Lo()
      modifies this`memId, this`memSize, this`heapPtr, this`hasTo, this`toId, this`toCap, this`toSize,
               this`slots, this`store, this`objs, this`released, this`gcTrigger, this`gcPending, this`hasMem
      ensures Valid() && hasMem && memId == old(memId) && memSize == old(memSize) && Stack() == old(Stack())
      ensures var goal := old(Converge.Conv(src, age, memId, Converge.State(map[], [], Objects(), heapPtr), root));
              Mirrors(src, goal.0) && w == goal.1
    {
      hide Valid, StackAt, Space, Settled, Size, Mirrors, Converge.Stage, Converge.Conv, Converge.Left, Converge.Older;
      BoundedSpaces();
      ghost var g, buf, st := Objects(), memId, Converge.State(map[], [], Objects(), heapPtr);
      ghost var (end, res) := Converge.Conv(src, age, buf, st, root);
      ghost var goal := (end, [res]);
      Converge.StageStart(src, age, buf, g, heapPtr, root);
      var tasks, results := [Converge.Copy(root)], [];
      while tasks != []
        invariant Valid() && hasMem && memId == old(memId) && memSize == old(memSize) && Stack() == old(Stack())
        invariant Mirrors(src, st) && Converge.Stage(src, age, buf, g, st, tasks, results, goal)
        decreases Converge.Left(src, age, tasks)
      {
        var t, rest := tasks[|tasks| - 1], tasks[..|tasks| - 1];
        assert tasks == rest + [t];
        match t {
          case Make(r, kind) =>
            st, results := MakeObj(r, kind, rest, results, stress, src, age, g, st, goal);
            tasks := rest;
          case Copy(v) =>
            st, tasks, results := CopyTask(v, rest, results, stress, src, age, g, st, goal);
        }
      }
      Converge.StageEnd(src, age, buf, g, st, results, goal);
      w := results[0];
    }

    /** A collection that promotes: its sources are the heap and the chunks, and
        together they fit into the heap plus the arena total. */
    lemma ConvergeJob(v: Val)
      requires Sound() && Promoting() && Arena(store, ccall.value.chunks, made, ccall.value.total, Objects())
      requires Settled([v], Objects() + Chunked())
      ensures Prepared(Job(Objects() + Chunked(), Stack() + [v], objs + made.objs), ccall.value.total)
      ensures Total(Objects() + Chunked(), objs + made.objs) == heapPtr + ccall.value.total
    {
      hide WellFormed, StackAt, HasSlots, Settled, ChunksHold, InPlace, Total;
      var g, src, chunks := Objects(), Chunked(), ccall.value.chunks;
      LaidBelow(store, memId, objs, heapPtr);
      HeldDistinct(store, chunks, made.objs);
      ArenaFormed(g, src, Stack(), v, made);
      ArenaTotals(g, src, memId, objs, made.objs, heapPtr, ccall.value.total);
    }

    /** Before a fast copy: the recursive copy stays within heap and arena
        total, and its result is the isomorphic image. */
    lemma FastReady(v: Val)
      requires Valid() && Window() && Settled([v], Objects() + Chunked())
      ensures Converge.Older(Chunked(), made.age)
      ensures var (src, st) := (Chunked(), Converge.State(map[], [], Objects(), heapPtr));
              var (st', w) := Converge.Conv(src, made.age, memId, st, v);
              && Mirrors(src, st)
              && st'.top <= heapPtr + ccall.value.total
              && Converge.Later(st, st')
              && Iso(Objects() + src, Stack() + [v], st'.h, Stack() + [w], Converge.Renaming(Objects(), st'.f))
              && Settled([w], st'.h)
    {
      hide WellFormed, StackAt, HasSlots, Settled, ChunksHold, InPlace, Laid, Total, Converge.Rebuilt, Converge.Conv,
           Iso, Converge.Renaming, Converge.Older;
      var g, src := Objects(), Chunked();
      LaidBelow(store, memId, objs, heapPtr);
      HeldDistinct(store, ccall.value.chunks, made.objs);
      Converge.CopyBounded(src, made.age, memId, g, heapPtr, v, made.objs);
      var st' := Converge.Conv(src, made.age, memId, Converge.State(map[], [], g, heapPtr), v).0;
      Converge.ConvergeIso(g, src, memId, heapPtr, st', Stack(), v);
      IsoSettled(g + src, Stack(), v, st'.h, Converge.Renaming(g, st'.f), Stack(), Tr(v, st'.f));
    }

    /** The fast path: there is room for the whole arena, so the result is
        rebuilt on top of the heap and nothing else moves. */
    method FastConverge(v: Val, stress: bool) returns (w: Val, ghost f: map<Ref, Ref>)
      requires Valid() && hasMem && Window() && Settled([v], Objects() + Chunked())
      requires heapPtr + ccall.value.total + HEADROOM <= memSize + 8 * Lo()
      modifies this`memId, this`memSize, this`heapPtr, this`hasTo, this`toId, this`toCap, this`toSize,
               this`slots, this`store, this`objs, this`released, this`gcTrigger, this`gcPending, this`hasMem,
               this`ccall, this`gcGate
      ensures Valid() && hasMem && memId == old(memId) && memSize == old(memSize) && Stack() == old(Stack())
      ensures old(heapPtr) <= heapPtr <= old(heapPtr) + old(ccall).value.total
      ensures forall r :: r in old(Objects()) ==> r in Objects() && Objects()[r] == old(Objects())[r]
      ensures Iso(old(Objects() + Chunked()), old(Stack()) + [v], Objects(), Stack() + [w], f)
      ensures Settled([w], Objects()) && gcGate == old(gcGate)
    {
      hide Valid, StackAt, Space, Settled, Converge.Conv, Converge.Older, Converge.Renaming, Iso, Arena;
      ghost var src, st := Chunked(), Converge.State(map[], [], Objects(), heapPtr);
      FastReady(v);
      ArenaGrown();
      f := Converge.Renaming(Objects(), Converge.Conv(src, made.age, memId, st, v).0.f);
      gcGate := gcGate + 1;
      ccall := Some(ccall.value.(converge := true));
      w := ConvergeCopy(v, stress, src, made.age, |made.objs|);
      ccall := Some(ccall.value.(converge := false));
      gcGate := gcGate - 1;
    }

    /** Heap and chunks together are a well-formed graph. */
    lemma WindowFormed(v: Val)
      requires Valid() && Window() && Settled([v], Objects() + Chunked())
      ensures WellFormed(Objects() + Chunked(), Stack() + [v])
    {
      hide Settled, StackAt, WellFormed, Converge.Grown;
      InSemispaces();
      HeldDistinct(store, ccall.value.chunks, made.objs);
      ArenaFormed(Objects(), Chunked(), Stack(), v, made);
    }

    lemma InSemispaces()
      requires Valid()
      ensures WellFormed(Objects(), Stack()) && forall r :: r in Objects() ==> r.buf == 1 || r.buf == 2
    {
      hide StackAt, WellFormed;
      LaidBelow(store, memId, objs, heapPtr);
    }

    lemma ArenaGrown()
      requires Window()
      ensures Converge.Grown(Chunked(), made.age, Objects(), |made.objs|)
    {
    }

    /** The slow path: one collection with the chunks as a second source. */
    method SlowConverge(v: Val) returns (ok: bool, w: Val, ghost f: map<Ref, Ref>)
      requires Valid() && hasMem && Window() && Settled([v], Objects() + Chunked())
      modifies this`memId, this`memSize, this`heapPtr, this`hasTo, this`toId, this`toCap, this`toSize,
               this`slots, this`store, this`objs, this`released, this`gcTrigger, this`ccall
      ensures ok <==> old(heapPtr) + old(ccall).value.total - 8 * Lo() <= cap
      ensures ok ==> Valid() && hasMem && heapPtr <= old(heapPtr) + old(ccall).value.total
      ensures ok ==> Iso(old(Objects() + Chunked()), old(Stack()) + [v], Objects(), Stack() + [w], f)
      ensures ok ==> Collected(old(Objects() + Chunked()), old(Stack()) + [v], Objects(), Stack() + [w], f)
      ensures ok ==> Settled([w], Objects())
      ensures ok ==>
        released == old(released) + DeadPayloads(old(Objects() + Chunked()), old(objs), f, pid, |old(objs)|)
    {
      hide Sound, StackAt, Space, Settled, Iso, Arena, Prepared, DeadPayloads, WellFormed, Reachable;
      SoundParts();
      ghost var c, st := Job(Objects() + Chunked(), Stack() + [v], objs + made.objs), Stack();
      ccall := Some(ccall.value.(promote := true));
      ConvergeJob(v);
      var moved;
      ok, moved, f := Collect(ccall.value.total, Some(v), c);
      ccall := Some(ccall.value.(promote := false));
      w := moved.value;
      if ok {
        IsoSettled(c.g, st, v, Objects(), f, Stack(), w);
      }
    }

    lemma SoundParts()
      requires Sound()
      ensures Bounded() && HasSlots(slots, memSize, sp)
    {
    }

    lemma EmptyArena()
      requires Window() && ccall.value.total == 0
      ensures Objects() + Chunked() == Objects()
    {
      hide Converge.Grown;
      HeldDistinct(store, ccall.value.chunks, made.objs);
    }

    /** Leave the callback: move the result into the heap and drop the arena.
        Whichever path is taken, the caller sees the same graph, and nothing
        points into a chunk any more. */
    method CloseWindow(v: Val, stress: bool) returns (ok: bool, w: Val, ghost f: map<Ref, Ref>)
      requires Valid() && hasMem && Window() && Settled([v], Objects() + Chunked())
      modifies this`memId, this`memSize, this`heapPtr, this`hasTo, this`toId, this`toCap, this`toSize,
               this`slots, this`store, this`objs, this`released, this`gcTrigger, this`gcPending, this`hasMem,
               this`ccall, this`gcGate, this`made
      ensures ok <==>
        var total := old(ccall).value.total;
        || total == 0
        || old(heapPtr) + total + HEADROOM <= old(memSize) + 8 * Lo()
        || old(heapPtr) + total - 8 * Lo() <= cap
      ensures ok ==> Valid() && ccall.None? && gcGate == old(gcGate)
      ensures ok ==> heapPtr <= old(heapPtr) + old(ccall).value.total && Settled([w], Objects())
      ensures ok ==> Iso(old(Objects() + Chunked()), old(Stack()) + [v], Objects(), Stack() + [w], f)
    {
      hide Sound, StackAt, Space, Settled, Iso, Collected, DeadPayloads, Arena, Identity;
      SoundParts();
      var a := ccall.value;
      ok, w, f := true, v, Identity(Objects());
      if a.total == 0 {
        EmptyArena();
        IsoIdentity(Objects(), Stack() + [v], Objects());
      } else if memSize + 8 * Lo() - heapPtr >= a.total + HEADROOM {
        w, f := FastConverge(v, stress);
      } else {
        ok, w, f := SlowConverge(v);
      }
      ccall, made := None, Made([], map[]);
    }
  }

  /** The two ways out of a callback agree: of two processes in the same state one
      takes the fast path and the other the slow one, and what they end up with is
      isomorphic, stack and result together. */
  method PathsAgree(p: Proc, q: Proc, v: Val, stress: bool) returns (ok: bool, w: Val, x: Val, ghost k: map<Ref, Ref>)
    requires p != q && p.Valid() && p.hasMem && p.Window() && q.Valid() && q.hasMem && q.Window()
    requires p.Objects() == q.Objects() && p.Chunked() == q.Chunked() && p.Stack() == q.Stack()
    requires Settled([v], p.Objects() + p.Chunked())
    requires p.heapPtr + p.ccall.value.total + HEADROOM <= p.memSize + 8 * p.Lo()
    modifies p`memId, p`memSize, p`heapPtr, p`hasTo, p`toId, p`toCap, p`toSize, p`slots, p`store, p`objs, p`released,
             p`gcTrigger, p`gcPending, p`hasMem, p`ccall, p`gcGate
    modifies q`memId, q`memSize, q`heapPtr, q`hasTo, q`toId, q`toCap, q`toSize, q`slots, q`store, q`objs, q`released,
             q`gcTrigger, q`ccall
    ensures ok <==> old(q.heapPtr) + old(q.ccall).value.total - 8 * q.Lo() <= q.cap
    ensures ok ==> p.Valid() && q.Valid() && Iso(p.Objects(), p.Stack() + [w], q.Objects(), q.Stack() + [x], k)
  {
    hide Proc.Valid, Proc.Window, StackAt, Space, Settled, Iso, WellFormed, Collected, DeadPayloads, Between;
    p.BoundedSpaces();
    q.BoundedSpaces();
    ghost var g, roots := p.Objects() + p.Chunked(), p.Stack() + [v];
    p.WindowFormed(v);
    ghost var f1, f2;
    w, f1 := p.FastConverge(v, stress);
    ok, x, f2 := q.SlowConverge(v);
    k := map[];
    if ok {
      p.InSemispaces();
      IsoInjective(g, roots, p.Objects(), p.Stack() + [w], f1);
      IsoAgree(g, roots, p.Objects(), p.Stack() + [w], f1, q.Objects(), q.Stack() + [x], f2);
      k := Between(f1, f2);
    }
  }
}
