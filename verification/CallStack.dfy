/** The call machine: one flat value stack with explicit continuation slots,
    proved to implement a stack of frames.

    A frame lies on the stack as its function value, its arguments, three
    continuation slots (return pc, caller's base, caller's code base) and then
    its locals and operands.  Slot 0 is the bottom of the stack.
 */
module CallStack {
  import opened Heap
  import opened Graph

  /** The loaded image: argument count and entry offset of every function, in
      emission order. */
  datatype Code = Code(args: seq<nat>, entry: seq<int>)

  ghost predicate Linked(code: Code) {
    && |code.args| == |code.entry|
    && forall i, j :: 0 <= i < j < |code.entry| ==> code.entry[i] < code.entry[j]
  }

  /** `pc` lies in the code of function `fid`. */
  ghost predicate Inside(code: Code, fid: nat, pc: int) {
    && fid < |code.entry| && code.entry[fid] <= pc
    && (fid + 1 < |code.entry| ==> pc < code.entry[fid + 1])
  }

  /** Which function a pc belongs to: a scan of the entry table. */
  method FidOfPc(code: Code, pc: int) returns (fid: int)
    requires Linked(code)
    ensures fid >= 0 ==> Inside(code, fid, pc)
    ensures fid < 0 ==> forall i :: !Inside(code, i, pc)
  {
    var i := 0;
    while i < |code.entry|
      invariant 0 <= i <= |code.entry|
      invariant forall k :: 0 <= k < i ==> !Inside(code, k, pc)
    {
      if pc < code.entry[i] { return -1; }
      if i + 1 >= |code.entry| || pc < code.entry[i + 1] { return i; }
      i := i + 1;
    }
    return -1;
  }

  lemma InsideOne(code: Code, a: nat, b: nat, pc: int)
    requires Linked(code) && Inside(code, a, pc) && Inside(code, b, pc)
    ensures a == b
  {
  }

  /** The function a value calls: a bare id, or a closure's entry. */
  function Callee(heap: Graph, v: Val): Option<nat> {
    if v.Imm? && v.imm.FnId? then Some(v.imm.fid)
    else if v.Ptr? && v.kind == ClosureKind && v.ref in heap && heap[v.ref].Closure? then Some(heap[v.ref].entry)
    else None
  }

  /** The payload of a slot read as an integer; of a slot that holds none the
      bits are arbitrary. */
  function IntOf(v: Val): int { if v.Imm? && v.imm.Int? then v.imm.i else 0 }

  predicate IsInt(v: Val) { v.Imm? && v.imm.Int? }

  function Box(i: int): (v: Val)
    ensures IsInt(v) && IntOf(v) == i
  {
    Imm(Int(i))
  }

  // ---- frames ----

  datatype Frame = Frame(fid: nat, fn: Val, args: seq<Val>, rest: seq<Val>, pc: int, cbase: int)

  function Body(f: Frame, cont: seq<Val>): seq<Val> { [f.fn] + f.args + cont + f.rest }

  function Width(f: Frame): nat { 4 + |f.args| + |f.rest| }

  function Top(fs: seq<Frame>): Frame
    requires fs != []
  {
    fs[|fs| - 1]
  }

  function Lower(fs: seq<Frame>): seq<Frame>
    requires fs != []
  {
    fs[..|fs| - 1]
  }

  /** Depth at which the top frame starts. */
  function Base(fs: seq<Frame>): nat {
    if |fs| <= 1 then 0 else Base(Lower(fs)) + Width(Top(Lower(fs)))
  }

  /** The continuation slots of the top frame; the bottom frame's hold junk. */
  function Cont(fs: seq<Frame>, junk: seq<Val>): seq<Val> {
    if |fs| <= 1 then junk
    else [Box(Top(Lower(fs)).pc), Box(Base(Lower(fs))), Box(Top(Lower(fs)).cbase)]
  }

  /** The stack a list of frames stands for. */
  function Flat(fs: seq<Frame>, junk: seq<Val>): seq<Val> {
    if fs == [] then [] else Flat(Lower(fs), junk) + Body(Top(fs), Cont(fs, junk))
  }

  lemma {:induction false} FlatDepth(fs: seq<Frame>, junk: seq<Val>)
    requires fs != [] && |junk| == 3
    ensures |Flat(Lower(fs), junk)| == Base(fs)
    ensures |Flat(fs, junk)| == Base(fs) + Width(Top(fs))
    decreases |fs|
  {
    if |fs| > 1 { FlatDepth(Lower(fs), junk); }
  }

  /** Each frame runs a known function with the right number of arguments, and
      its function slot says so; only the entry frame may have an empty one. */
  ghost predicate FrameOk(code: Code, heap: Graph, f: Frame, bottom: bool) {
    && f.fid < |code.args| && |f.args| == code.args[f.fid]
    && Inside(code, f.fid, f.pc)
    && (Callee(heap, f.fn) == Some(f.fid) || (bottom && Callee(heap, f.fn) == None))
  }

  ghost predicate FramesOk(code: Code, heap: Graph, fs: seq<Frame>) {
    && fs != []
    && forall i :: 0 <= i < |fs| ==> FrameOk(code, heap, fs[i], i == 0)
  }

  /** The function ids of a call chain, leaf first. */
  function Chain(fs: seq<Frame>): (r: seq<nat>)
    ensures |r| == |fs|
  {
    if fs == [] then [] else [Top(fs).fid] + Chain(Lower(fs))
  }

  // ---- the abstract machine ----

  datatype Config = Config(frames: seq<Frame>, acc: Val)

  datatype Op =
    | Push
    | Load(i: nat)
    | Store(i: nat)
    | Drop(k: nat, result: Val)
    | Jump(off: int)
    | Reserve(k: nat)
    | Call(n: nat, native: Val)
    | TailCall(n: nat, native: Val)
    | Return(k: nat)

  datatype Outcome = Next(c: Config) | Finished(acc: Val) | Fault

  function WithTop(fs: seq<Frame>, f: Frame): seq<Frame>
    requires fs != []
  {
    Lower(fs) + [f]
  }

  /** The function and arguments on top of the operands, with the accumulator
      flushed as the last of them. */
  function Block(c: Config, n: nat): seq<Val>
    requires c.frames != [] && 1 <= n <= |Top(c.frames).rest| + 1
  {
    (Top(c.frames).rest + [c.acc])[|Top(c.frames).rest| + 1 - n..]
  }

  function Fresh(code: Code, fid: nat, block: seq<Val>): Frame
    requires block != [] && fid < |code.entry|
  {
    Frame(fid, block[0], block[1..], [], code.entry[fid], code.entry[fid])
  }

  /** What the compiler guarantees of an instruction's operands. */
  ghost predicate OpOk(code: Code, heap: Graph, c: Config, op: Op)
    requires FramesOk(code, heap, c.frames)
  {
    var t := Top(c.frames);
    match op
    case Push => Inside(code, t.fid, t.pc + 1)
    case Load(i) => (i <= |t.args| || |t.args| + 4 <= i < Width(t)) && Inside(code, t.fid, t.pc + 2)
    case Store(i) => (1 <= i <= |t.args| || |t.args| + 4 <= i < Width(t)) && Inside(code, t.fid, t.pc + 2)
    case Drop(k, _) => k <= |t.rest| && Inside(code, t.fid, t.pc + 1)
    case Jump(off) => Inside(code, t.fid, t.cbase + off)
    case Reserve(_) => Inside(code, t.fid, t.pc + 2)
    case Call(n, _) => CallOk(code, heap, c, n)
    case TailCall(n, _) => CallOk(code, heap, c, n)
    case Return(k) => k == |t.args|
  }

  ghost predicate CallOk(code: Code, heap: Graph, c: Config, n: nat)
    requires c.frames != []
  {
    && 1 <= n <= |Top(c.frames).rest| + 1
    && Inside(code, Top(c.frames).fid, Top(c.frames).pc + 2)
    && (Callee(heap, Block(c, n)[0]).Some? ==> Callee(heap, Block(c, n)[0]).value < |code.args|)
  }

  /** Read slot i of a frame; the continuation slots are not addressable. */
  function SlotOf(f: Frame, i: nat): Val {
    if i == 0 then f.fn
    else if i <= |f.args| then f.args[i - 1]
    else if |f.args| + 4 <= i < Width(f) then f.rest[i - |f.args| - 4]
    else Imm(Nil)
  }

  function StoreSlot(f: Frame, i: nat, v: Val): Frame {
    if 1 <= i <= |f.args| then f.(args := f.args[i - 1 := v])
    else if |f.args| + 4 <= i < Width(f) then f.(rest := f.rest[i - |f.args| - 4 := v])
    else f
  }

  function Nils(k: nat): seq<Val> { seq(k, _ => Imm(Nil)) }

  /** One instruction on frames.  A native function consumes the call block and
      leaves its result in the accumulator, tail position or not. */
  function AbsStep(code: Code, heap: Graph, c: Config, op: Op): Outcome
    requires c.frames != []
  {
    var t := Top(c.frames);
    match op
    case Push => Next(Config(WithTop(c.frames, t.(rest := t.rest + [c.acc], pc := t.pc + 1)), c.acc))
    case Load(i) => Next(Config(WithTop(c.frames, t.(pc := t.pc + 2)), SlotOf(t, i)))
    case Store(i) => Next(Config(WithTop(c.frames, StoreSlot(t, i, c.acc).(pc := t.pc + 2)), c.acc))
    case Drop(k, result) =>
      if k > |t.rest| then Fault
      else Next(Config(WithTop(c.frames, t.(rest := t.rest[..|t.rest| - k], pc := t.pc + 1)), result))
    case Jump(off) => Next(Config(WithTop(c.frames, t.(pc := t.cbase + off)), c.acc))
    case Reserve(k) => Next(Config(WithTop(c.frames, t.(rest := t.rest + Nils(k), pc := t.pc + 2)), c.acc))
    case Call(n, native) => AbsCall(code, heap, c, n, native, false)
    case TailCall(n, native) => AbsCall(code, heap, c, n, native, true)
    case Return(_) =>
      if |c.frames| == 1 then Finished(c.acc) else Next(Config(Lower(c.frames), c.acc))
  }

  function AbsCall(code: Code, heap: Graph, c: Config, n: nat, native: Val, tail: bool): Outcome
    requires c.frames != []
  {
    var t := Top(c.frames);
    if n < 1 || n > |t.rest| + 1 then Fault
    else
      var block := Block(c, n);
      var caller := t.(rest := t.rest[..|t.rest| + 1 - n], pc := t.pc + 2);
      if Callee(heap, block[0]).Some? then
        var fid := Callee(heap, block[0]).value;
        if fid >= |code.args| || fid >= |code.entry| || code.args[fid] != n - 1 then Fault
        else if tail then Next(Config(WithTop(c.frames, Fresh(code, fid, block)), c.acc))
        else Next(Config(WithTop(c.frames, caller) + [Fresh(code, fid, block)], c.acc))
      else if block[0].Imm? && block[0].imm.Native? then Next(Config(WithTop(c.frames, caller), native))
      else Fault
  }

  // ---- tail calls on the flat stack ----

  /** Self call: move function and arguments down; the continuation stays. */
  function TailFast(stack: seq<Val>, base: nat, n: nat): seq<Val>
    requires base + n + 3 <= |stack|
  {
    stack[..base] + stack[|stack| - n..] + stack[base + n..base + n + 3]
  }

  /** Any other call: read the old continuation, move the block down and write
      the continuation behind it. */
  function TailGeneral(stack: seq<Val>, base: nat, n: nat, k: nat): seq<Val>
    requires base + n + 3 <= |stack| && base + k + 4 <= |stack|
  {
    stack[..base] + stack[|stack| - n..] +
    [Box(IntOf(stack[base + k + 1])), Box(IntOf(stack[base + k + 2])), Box(IntOf(stack[base + k + 3]))]
  }

  /** On a self call the two agree exactly when the continuation slots hold
      integers; only the entry frame's do not. */
  lemma FastIsGeneral(stack: seq<Val>, base: nat, n: nat)
    requires 1 <= n && base + n + 3 <= |stack|
    ensures TailFast(stack, base, n) == TailGeneral(stack, base, n, n - 1) <==>
            IsInt(stack[base + n]) && IsInt(stack[base + n + 1]) && IsInt(stack[base + n + 2])
  {
    var fast, general, at := TailFast(stack, base, n), TailGeneral(stack, base, n, n - 1), base + n;
    assert stack[at..at + 3] == [stack[at], stack[at + 1], stack[at + 2]];
    assert fast[at..] == [stack[at], stack[at + 1], stack[at + 2]];
    assert general[at..] == [Box(IntOf(stack[at])), Box(IntOf(stack[at + 1])), Box(IntOf(stack[at + 2]))];
    assert fast == fast[..at] + fast[at..] && general == general[..at] + general[at..] && fast[..at] == general[..at];
    assert fast[at..][0] == stack[at] && fast[at..][1] == stack[at + 1] && fast[at..][2] == stack[at + 2];
  }

  /** The flushed stack, seen as caller part and call block. */
  lemma Flushed(low: seq<Val>, t: Frame, cont: seq<Val>, acc: Val, n: nat)
    requires |cont| == 3 && 1 <= n <= |t.rest| + 1
    ensures var stack := low + Body(t, cont) + [acc];
            && |stack| == |low| + Width(t) + 1
            && stack[|stack| - n..] == (t.rest + [acc])[|t.rest| + 1 - n..]
            && stack[..|stack| - n] == low + Body(t.(rest := t.rest[..|t.rest| + 1 - n], pc := t.pc + 2), cont)
            && stack[..|low|] == low && stack[|low|] == t.fn
            && stack[|low| + |t.args| + 1..|low| + |t.args| + 4] == cont
  {
    hide Body;
    var b, m := Body(t, cont), |t.rest| + 1 - n;
    BodyParts(t, cont, m);
    var head, tail := [t.fn] + t.args + cont, t.rest + [acc];
    assert low + b + [acc] == (low + head) + tail;
    CutTail(low + head, tail, n);
    assert tail[..m] == t.rest[..m];
    assert low + head + t.rest[..m] == low + (head + t.rest[..m]);
    FrontOf(low, head, tail);
    HeadParts(t, cont);
  }

  lemma BodyParts(t: Frame, cont: seq<Val>, m: nat)
    requires |cont| == 3 && m <= |t.rest|
    ensures var head := [t.fn] + t.args + cont;
            && Body(t, cont) == head + t.rest && |head| + |t.rest| == Width(t)
            && Body(t.(rest := t.rest[..m], pc := t.pc + 2), cont) == head + t.rest[..m]
  {
  }

  lemma CutTail(a: seq<Val>, b: seq<Val>, n: nat)
    requires n <= |b|
    ensures (a + b)[|a + b| - n..] == b[|b| - n..] && (a + b)[..|a + b| - n] == a + b[..|b| - n]
  {
  }

  lemma FrontOf(low: seq<Val>, head: seq<Val>, tail: seq<Val>)
    ensures var s := low + head + tail;
            s[..|low|] == low && forall i, j :: 0 <= i <= j <= |head| ==> s[|low| + i..|low| + j] == head[i..j]
    ensures head != [] ==> (low + head + tail)[|low|] == head[0]
  {
    var s := low + head + tail;
    forall i, j | 0 <= i <= j <= |head| ensures s[|low| + i..|low| + j] == head[i..j] {
      assert s[|low|..|low| + |head|] == head;
    }
  }

  lemma HeadParts(t: Frame, cont: seq<Val>)
    requires |cont| == 3
    ensures var head := [t.fn] + t.args + cont; head[0] == t.fn && head[|t.args| + 1..|t.args| + 4] == cont
  {
  }

  lemma {:induction false} BasePositive(fs: seq<Frame>)
    requires fs != []
    ensures Base(fs) == 0 <==> |fs| == 1
  {
  }

  lemma FlatPush(fs: seq<Frame>, f: Frame, junk: seq<Val>)
    requires fs != [] && |junk| == 3
    ensures Lower(fs + [f]) == fs && Top(fs + [f]) == f
    ensures Flat(fs + [f], junk) == Flat(fs, junk) + Body(f, [Box(Top(fs).pc), Box(Base(fs)), Box(Top(fs).cbase)])
    ensures Base(fs + [f]) == |Flat(fs, junk)|
  {
    assert Lower(fs + [f]) == fs;
    FlatDepth(fs + [f], junk);
  }

  /** Replacing the top frame leaves everything below it alone. */
  lemma FlatTop(fs: seq<Frame>, f: Frame, junk: seq<Val>, junk': seq<Val>)
    requires fs != [] && (|fs| > 1 ==> junk' == junk)
    ensures var fs' := WithTop(fs, f);
            && Lower(fs') == Lower(fs) && Top(fs') == f && |fs'| == |fs|
            && Base(fs') == Base(fs) && Cont(fs', junk') == Cont(fs, junk')
            && Flat(fs', junk') == Flat(Lower(fs), junk) + Body(f, Cont(fs', junk'))
  {
    assert Lower(WithTop(fs, f)) == Lower(fs);
  }

  lemma CallFrames(code: Code, heap: Graph, fs: seq<Frame>, caller: Frame, fid: nat, block: seq<Val>, junk: seq<Val>)
    requires FramesOk(code, heap, fs) && FrameOk(code, heap, caller, |fs| == 1) && |junk| == 3 && Linked(code)
    requires fid < |code.args| && block != [] && |block| == code.args[fid] + 1 && Callee(heap, block[0]) == Some(fid)
    ensures var fs' := WithTop(fs, caller) + [Fresh(code, fid, block)];
            var under := Flat(Lower(fs), junk) + Body(caller, Cont(fs, junk));
            && FramesOk(code, heap, fs') && Top(fs') == Fresh(code, fid, block)
            && Flat(fs', junk) == under
               + Body(Fresh(code, fid, block), [Box(caller.pc), Box(Base(fs)), Box(caller.cbase)])
            && Base(fs') == |under|
  {
    hide Flat, Base, Cont;
    FlatTop(fs, caller, junk, junk);
    FlatPush(WithTop(fs, caller), Fresh(code, fid, block), junk);
  }

  /** The flat stack and the registers stand for the frames. */
  ghost predicate Stands(code: Code, heap: Graph, fs: seq<Frame>, junk: seq<Val>, stack: seq<Val>, base: nat,
                         pc: int, cbase: int) {
    && Linked(code) && FramesOk(code, heap, fs) && |junk| == 3
    && stack == Flat(fs, junk) && base == Base(fs)
    && pc == Top(fs).pc && cbase == Top(fs).cbase
  }

  // ---- instructions within a frame, on the flat stack ----

  /** The top frame on the flat stack. */
  lemma TopLayout(code: Code, heap: Graph, fs: seq<Frame>, junk: seq<Val>, stack: seq<Val>, base: nat, pc: int,
                  cbase: int)
    requires Stands(code, heap, fs, junk, stack, base, pc, cbase)
    ensures fs != [] && |Cont(fs, junk)| == 3 && FrameOk(code, heap, Top(fs), |fs| == 1)
    ensures |Flat(Lower(fs), junk)| == base && |stack| == base + Width(Top(fs))
    ensures stack == Flat(Lower(fs), junk) + Body(Top(fs), Cont(fs, junk))
  {
    hide Body;
    FlatDepth(fs, junk);
  }

  /** Another top frame in the same place. */
  lemma TopStands(code: Code, heap: Graph, fs: seq<Frame>, junk: seq<Val>, stack: seq<Val>, base: nat, pc: int,
                  cbase: int,
                  f: Frame, stack': seq<Val>)
    requires Stands(code, heap, fs, junk, stack, base, pc, cbase) && fs != []
    requires FrameOk(code, heap, f, |fs| == 1) && stack' == Flat(Lower(fs), junk) + Body(f, Cont(fs, junk))
    ensures Stands(code, heap, WithTop(fs, f), junk, stack', base, f.pc, f.cbase)
  {
    hide Body, FrameOk, Flat, Base, Cont;
    FlatTop(fs, f, junk, junk);
    FramesTop(code, heap, fs, f);
  }

  /** Slot i of the top frame. */
  lemma SlotAtBase(low: seq<Val>, f: Frame, cont: seq<Val>, i: nat)
    requires |cont| == 3 && (i <= |f.args| || |f.args| + 4 <= i < Width(f))
    ensures |low| + i < |low + Body(f, cont)| && (low + Body(f, cont))[|low| + i] == SlotOf(f, i)
  {
  }

  /** LOAD: the accumulator is what lies at base + i; the stack stays. */
  lemma LoadStands(code: Code, heap: Graph, c: Config, junk: seq<Val>, stack: seq<Val>, base: nat, pc: int,
                   cbase: int, i: nat)
    requires Stands(code, heap, c.frames, junk, stack, base, pc, cbase) && OpOk(code, heap, c, Load(i))
    ensures c.frames != [] && base + i < |stack|
    ensures var r := AbsStep(code, heap, c, Load(i));
            && r.Next? && r.c.acc == stack[base + i]
            && Stands(code, heap, r.c.frames, junk, stack, base, pc + 2, cbase)
  {
    hide Body, Flat, Base, Cont, Inside, Callee;
    TopLayout(code, heap, c.frames, junk, stack, base, pc, cbase);
    var t, low, cont := Top(c.frames), Flat(Lower(c.frames), junk), Cont(c.frames, junk);
    SlotAtBase(low, t, cont, i);
    SameBody(t, t.(pc := pc + 2), cont);
    TopStands(code, heap, c.frames, junk, stack, base, pc, cbase, t.(pc := pc + 2), stack);
  }

  lemma SameBody(f: Frame, f': Frame, cont: seq<Val>)
    requires f.fn == f'.fn && f.args == f'.args && f.rest == f'.rest
    ensures Body(f, cont) == Body(f', cont)
  {
  }

  /** STORE: slot base + i takes the accumulator, every other slot stays. */
  lemma StoreStands(code: Code, heap: Graph, c: Config, junk: seq<Val>, stack: seq<Val>, base: nat, pc: int,
                    cbase: int, i: nat)
    requires Stands(code, heap, c.frames, junk, stack, base, pc, cbase) && OpOk(code, heap, c, Store(i))
    ensures c.frames != [] && base + i < |stack|
    ensures var r := AbsStep(code, heap, c, Store(i));
            && r.Next? && r.c.acc == c.acc
            && Stands(code, heap, r.c.frames, junk, stack[base + i := c.acc], base, pc + 2, cbase)
  {
    hide Body, Flat, Base, Cont, Inside, Callee;
    TopLayout(code, heap, c.frames, junk, stack, base, pc, cbase);
    var t, low, cont := Top(c.frames), Flat(Lower(c.frames), junk), Cont(c.frames, junk);
    SlotAtBase(low, t, cont, i);
    StoreAtBase(low, t, cont, i, c.acc, pc + 2);
    TopStands(code, heap, c.frames, junk, stack, base, pc, cbase, StoreSlot(t, i, c.acc).(pc := pc + 2),
              stack[base + i := c.acc]);
  }

  lemma StoreAtBase(low: seq<Val>, f: Frame, cont: seq<Val>, i: nat, v: Val, pc: int)
    requires |cont| == 3 && (1 <= i <= |f.args| || |f.args| + 4 <= i < Width(f))
    ensures |low| + i < |low + Body(f, cont)|
    ensures (low + Body(f, cont))[|low| + i := v] == low + Body(StoreSlot(f, i, v).(pc := pc), cont)
  {
    var b := Body(f, cont);
    assert (low + b)[|low| + i := v] == low + b[i := v];
    if i <= |f.args| {
      assert b[i := v] == [f.fn] + f.args[i - 1 := v] + cont + f.rest;
    } else {
      assert b[i := v] == [f.fn] + f.args + cont + f.rest[i - |f.args| - 4 := v];
    }
  }

  /** PUSH: the accumulator goes on top. */
  lemma PushStands(code: Code, heap: Graph, c: Config, junk: seq<Val>, stack: seq<Val>, base: nat, pc: int, cbase: int)
    requires Stands(code, heap, c.frames, junk, stack, base, pc, cbase) && OpOk(code, heap, c, Push)
    ensures c.frames != []
    ensures var r := AbsStep(code, heap, c, Push);
            && r.Next? && r.c.acc == c.acc
            && Stands(code, heap, r.c.frames, junk, stack + [c.acc], base, pc + 1, cbase)
  {
    hide Body, Flat, Base, Cont, Inside, Callee;
    TopLayout(code, heap, c.frames, junk, stack, base, pc, cbase);
    var t, low, cont := Top(c.frames), Flat(Lower(c.frames), junk), Cont(c.frames, junk);
    OnTop(low, t, cont, [c.acc], pc + 1);
    TopStands(code, heap, c.frames, junk, stack, base, pc, cbase, t.(rest := t.rest + [c.acc], pc := pc + 1),
              stack + [c.acc]);
  }

  lemma OnTop(low: seq<Val>, f: Frame, cont: seq<Val>, vs: seq<Val>, pc: int)
    ensures low + Body(f, cont) + vs == low + Body(f.(rest := f.rest + vs, pc := pc), cont)
  {
    assert Body(f.(rest := f.rest + vs, pc := pc), cont) == Body(f, cont) + vs;
  }

  /** RESERVE: k nils go on top. */
  lemma ReserveStands(code: Code, heap: Graph, c: Config, junk: seq<Val>, stack: seq<Val>, base: nat, pc: int,
                      cbase: int,
                      k: nat)
    requires Stands(code, heap, c.frames, junk, stack, base, pc, cbase) && OpOk(code, heap, c, Reserve(k))
    ensures c.frames != []
    ensures var r := AbsStep(code, heap, c, Reserve(k));
            && r.Next? && r.c.acc == c.acc
            && Stands(code, heap, r.c.frames, junk, stack + Nils(k), base, pc + 2, cbase)
  {
    hide Body, Flat, Base, Cont, Inside, Callee;
    TopLayout(code, heap, c.frames, junk, stack, base, pc, cbase);
    var t, low, cont := Top(c.frames), Flat(Lower(c.frames), junk), Cont(c.frames, junk);
    OnTop(low, t, cont, Nils(k), pc + 2);
    TopStands(code, heap, c.frames, junk, stack, base, pc, cbase, t.(rest := t.rest + Nils(k), pc := pc + 2),
              stack + Nils(k));
  }

  /** Consuming k operands: they go off the top, the result is in the accumulator. */
  lemma DropStands(code: Code, heap: Graph, c: Config, junk: seq<Val>, stack: seq<Val>, base: nat, pc: int, cbase: int,
                   k: nat, result: Val)
    requires Stands(code, heap, c.frames, junk, stack, base, pc, cbase) && OpOk(code, heap, c, Drop(k, result))
    ensures c.frames != [] && k <= |stack|
    ensures var r := AbsStep(code, heap, c, Drop(k, result));
            && r.Next? && r.c.acc == result
            && Stands(code, heap, r.c.frames, junk, stack[..|stack| - k], base, pc + 1, cbase)
  {
    hide Body, Flat, Base, Cont, Inside, Callee;
    TopLayout(code, heap, c.frames, junk, stack, base, pc, cbase);
    var t, low, cont := Top(c.frames), Flat(Lower(c.frames), junk), Cont(c.frames, junk);
    OffTop(low, t, cont, k, pc + 1);
    TopStands(code, heap, c.frames, junk, stack, base, pc, cbase, t.(rest := t.rest[..|t.rest| - k], pc := pc + 1),
              stack[..|stack| - k]);
  }

  lemma OffTop(low: seq<Val>, f: Frame, cont: seq<Val>, k: nat, pc: int)
    requires k <= |f.rest|
    ensures var s := low + Body(f, cont);
            k <= |s| && s[..|s| - k] == low + Body(f.(rest := f.rest[..|f.rest| - k], pc := pc), cont)
  {
    var head, m := [f.fn] + f.args + cont, |f.rest| - k;
    assert low + Body(f, cont) == (low + head) + f.rest;
    CutTail(low + head, f.rest, k);
    assert low + head + f.rest[..m] == low + (head + f.rest[..m]);
  }

  /** JUMP: only the pc changes, to an offset from the code base. */
  lemma JumpStands(code: Code, heap: Graph, c: Config, junk: seq<Val>, stack: seq<Val>, base: nat, pc: int, cbase: int,
                   off: int)
    requires Stands(code, heap, c.frames, junk, stack, base, pc, cbase) && OpOk(code, heap, c, Jump(off))
    ensures c.frames != []
    ensures var r := AbsStep(code, heap, c, Jump(off));
            && r.Next? && r.c.acc == c.acc
            && Stands(code, heap, r.c.frames, junk, stack, base, cbase + off, cbase)
  {
    hide Body, Flat, Base, Cont, Inside, Callee;
    TopLayout(code, heap, c.frames, junk, stack, base, pc, cbase);
    var t, low, cont := Top(c.frames), Flat(Lower(c.frames), junk), Cont(c.frames, junk);
    SameBody(t, t.(pc := cbase + off), cont);
    TopStands(code, heap, c.frames, junk, stack, base, pc, cbase, t.(pc := cbase + off), stack);
  }

  /** A slot a LOAD may name. */
  predicate Addressable(f: Frame, i: nat) { i <= |f.args| || |f.args| + 4 <= i < Width(f) }

  /** A load after a store gives the stored value, or what the slot held before. */
  lemma StoreThenLoad(code: Code, heap: Graph, c: Config, i: nat, j: nat)
    requires c.frames != [] && Addressable(Top(c.frames), i) && i > 0 && Addressable(Top(c.frames), j)
    ensures var r := AbsStep(code, heap, c, Store(i));
            && r.Next? && r.c.frames != []
            && var q := AbsStep(code, heap, r.c, Load(j));
            q.Next? && q.c.acc == if j == i then c.acc else SlotOf(Top(c.frames), j)
  {
  }

  /** What a call passes the callee finds: slot i holds the i-th value of the call
      block, the function at slot 0, in a plain and in a tail call. */
  lemma ArgumentsArrive(code: Code, heap: Graph, c: Config, n: nat, native: Val, tail: bool, i: nat)
    requires c.frames != [] && 1 <= n <= |Top(c.frames).rest| + 1 && i < n
    requires Callee(heap, Block(c, n)[0]).Some?
    requires var fid := Callee(heap, Block(c, n)[0]).value; fid < |code.args| == |code.entry| && code.args[fid] == n - 1
    ensures var r := AbsStep(code, heap, c, if tail then TailCall(n, native) else Call(n, native));
            && r.Next? && r.c.frames != []
            && var q := AbsStep(code, heap, r.c, Load(i));
            q.Next? && q.c.acc == if i == n - 1 then c.acc else Top(c.frames).rest[|Top(c.frames).rest| + 1 - n + i]
  {
    hide Callee;
    var t, block := Top(c.frames), Block(c, n);
    assert block[i] == (t.rest + [c.acc])[|t.rest| + 1 - n + i];
  }

  lemma BodyCont(low: seq<Val>, f: Frame, cont: seq<Val>)
    requires |cont| == 3
    ensures var stack, at := low + Body(f, cont), |low| + |f.args|;
            && at + 4 <= |stack| && stack[..|low|] == low
            && stack[at + 1] == cont[0] && stack[at + 2] == cont[1] && stack[at + 3] == cont[2]
  {
  }

  lemma FlatSplit(fs: seq<Frame>, junk: seq<Val>)
    requires fs != []
    ensures Flat(fs, junk) == Flat(Lower(fs), junk) + Body(Top(fs), Cont(fs, junk))
  {
  }

  lemma ReturnStands(code: Code, heap: Graph, fs: seq<Frame>, junk: seq<Val>, stack: seq<Val>, base: nat, pc: int,
                     cbase: int)
    requires Stands(code, heap, fs, junk, stack, base, pc, cbase)
    ensures fs != [] && (base == 0 <==> |fs| == 1)
    ensures var k := |Top(fs).args|; |fs| > 1 ==>
              && base + k + 4 <= |stack| && IntOf(stack[base + k + 2]) >= 0
              && Stands(code, heap, Lower(fs), junk, stack[..base],
                        IntOf(stack[base + k + 2]), IntOf(stack[base + k + 1]), IntOf(stack[base + k + 3]))
  {
    hide Inside, Flat, Base, Body;
    FlatDepth(fs, junk);
    BasePositive(fs);
    if |fs| > 1 {
      FlatSplit(fs, junk);
      BodyCont(Flat(Lower(fs), junk), Top(fs), Cont(fs, junk));
    }
  }

  lemma CallStands(code: Code, heap: Graph, c: Config, junk: seq<Val>, stack: seq<Val>, base: nat, pc: int,
                   cbase: int, n: nat, fid: nat)
    requires Stands(code, heap, c.frames, junk, stack, base, pc, cbase) && c.frames != [] && CallOk(code, heap, c, n)
    requires Callee(heap, Block(c, n)[0]) == Some(fid) && code.args[fid] == n - 1
    ensures var t, nb := Top(c.frames), |stack| + 1 - n;
            var caller := t.(rest := t.rest[..|t.rest| + 1 - n], pc := t.pc + 2);
            Stands(code, heap, WithTop(c.frames, caller) + [Fresh(code, fid, Block(c, n))], junk,
                   stack + [c.acc] + [Box(pc + 2), Box(base), Box(cbase)], nb, code.entry[fid], code.entry[fid])
  {
    hide Flat, Base, Cont, Inside, Callee, Body, Box;
    var fs := c.frames;
    var t, low, cont, nb := Top(fs), Flat(Lower(fs), junk), Cont(fs, junk), |stack| + 1 - n;
    var caller := t.(rest := t.rest[..|t.rest| + 1 - n], pc := t.pc + 2);
    ContThree(fs, junk);
    Flushed(low, t, cont, c.acc, n);
    var block, k3 := Block(c, n), [Box(pc + 2), Box(base), Box(cbase)];
    CallFrames(code, heap, fs, caller, fid, block, junk);
    FreshBody(code, fid, block, k3);
    Rejoin(stack + [c.acc], nb, k3);
  }

  /** The argument count the function slot of a frame names. */
  function SlotArgs(code: Code, heap: Graph, v: Val): nat {
    match Callee(heap, v)
    case None => 0
    case Some(fid) => if fid < |code.args| then code.args[fid] else 0
  }

  /** The continuation as the general path rewrites it. */
  function Rewritten(stack: seq<Val>, at: nat): seq<Val>
    requires at + 3 <= |stack|
  {
    [Box(IntOf(stack[at])), Box(IntOf(stack[at + 1])), Box(IntOf(stack[at + 2]))]
  }

  /** Where a tail call finds things on the flushed stack. */
  lemma TailLayout(code: Code, heap: Graph, c: Config, junk: seq<Val>, stack: seq<Val>, base: nat, pc: int,
                   cbase: int, n: nat)
    requires Stands(code, heap, c.frames, junk, stack, base, pc, cbase) && c.frames != [] && CallOk(code, heap, c, n)
    ensures var s, t := stack + [c.acc], Top(c.frames);
            var k := SlotArgs(code, heap, t.fn);
            && base + n + 3 <= |s| && base + |t.args| + 4 <= |s| && base + k + 4 <= |s| && |code.args| == |code.entry|
            && s[base] == t.fn && s[..base] == Flat(Lower(c.frames), junk) && s[|s| - n..] == Block(c, n)
            && s[base + |t.args| + 1..base + |t.args| + 4] == Cont(c.frames, junk)
            && (|c.frames| > 1 ==> k == |t.args| && Rewritten(s, base + k + 1) == Cont(c.frames, junk))
            && (Callee(heap, t.fn).Some? ==> Callee(heap, t.fn) == Some(t.fid) && k == |t.args|)
  {
    hide Flat, Inside, Base;
    var fs := c.frames;
    var t, s := Top(fs), stack + [c.acc];
    DepthOf(fs, junk);
    ContThree(fs, junk);
    Flushed(Flat(Lower(fs), junk), t, Cont(fs, junk), c.acc, n);
    assert FrameOk(code, heap, fs[|fs| - 1], |fs| == 1);
    if |fs| > 1 {
      var at := base + |t.args| + 1;
      assert s[at..at + 3][0] == s[at] && s[at..at + 3][1] == s[at + 1] && s[at..at + 3][2] == s[at + 2];
    }
  }

  lemma DepthOf(fs: seq<Frame>, junk: seq<Val>)
    requires fs != [] && |junk| == 3
    ensures |Flat(Lower(fs), junk)| == Base(fs)
  {
    FlatDepth(fs, junk);
  }

  /** Both forms of a tail call put the new frame where the old one was. */
  lemma TailStands(code: Code, heap: Graph, c: Config, junk: seq<Val>, stack: seq<Val>, base: nat, pc: int, cbase: int,
                   n: nat, fid: nat)
    requires Stands(code, heap, c.frames, junk, stack, base, pc, cbase) && c.frames != [] && CallOk(code, heap, c, n)
    requires Callee(heap, Block(c, n)[0]) == Some(fid) && code.args[fid] == n - 1
    ensures var (s, t) := (stack + [c.acc], Top(c.frames));
            var (k, fs') := (SlotArgs(code, heap, t.fn), WithTop(c.frames, Fresh(code, fid, Block(c, n))));
            && base + n + 3 <= |s| && base + k + 4 <= |s|
            && (Callee(heap, t.fn) == Some(fid) ==>
                  Stands(code, heap, fs', junk, TailFast(s, base, n), base, code.entry[fid], code.entry[fid]))
            && Stands(code, heap, fs', if |c.frames| == 1 then Rewritten(s, base + k + 1) else junk,
                      TailGeneral(s, base, n, k), base, code.entry[fid], code.entry[fid])
  {
    hide Flat, Inside, Base, Callee, Cont, FramesOk, Stands, Fresh;
    TailLayout(code, heap, c, junk, stack, base, pc, cbase, n);
    var fs, s, block := c.frames, stack + [c.acc], Block(c, n);
    var k := SlotArgs(code, heap, Top(fs).fn);
    StandsSome(code, heap, fs, junk, stack, base, pc, cbase);
    ContOne(fs, Rewritten(s, base + k + 1));
    ContOne(fs, junk);
    TailPlaces(code, heap, fs, junk, junk, stack, base, pc, cbase, fid, block, TailFast(s, base, n));
    var junk' := if |fs| == 1 then Rewritten(s, base + k + 1) else junk;
    TailPlaces(code, heap, fs, junk, junk', stack, base, pc, cbase, fid, block, TailGeneral(s, base, n, k));
  }

  lemma TailPlaces(code: Code, heap: Graph, fs: seq<Frame>, junk: seq<Val>, junk': seq<Val>, stack: seq<Val>, base: nat,
                   pc: int, cbase: int, fid: nat, block: seq<Val>, after: seq<Val>)
    requires Stands(code, heap, fs, junk, stack, base, pc, cbase) && fs != []
    requires |junk'| == 3 && (|fs| > 1 ==> junk' == junk)
    requires fid < |code.args| && fid < |code.entry| && block != [] && |block| == code.args[fid] + 1
    requires Callee(heap, block[0]) == Some(fid)
    ensures after == Flat(Lower(fs), junk) + block + Cont(fs, junk') ==>
            Stands(code, heap, WithTop(fs, Fresh(code, fid, block)), junk', after, base, code.entry[fid],
              code.entry[fid])
  {
    hide Flat, Inside, Base, Callee, Cont;
    FreshFits(code, heap, fs, fid, block);
    FlatTop(fs, Fresh(code, fid, block), junk, junk');
    FreshBody(code, fid, block, Cont(fs, junk'));
    Joined(Flat(Lower(fs), junk), block, Cont(fs, junk'));
  }

  lemma FreshFits(code: Code, heap: Graph, fs: seq<Frame>, fid: nat, block: seq<Val>)
    requires Linked(code) && FramesOk(code, heap, fs) && fid < |code.args| && block != []
      && |block| == code.args[fid] + 1
    requires Callee(heap, block[0]) == Some(fid)
    ensures FramesOk(code, heap, WithTop(fs, Fresh(code, fid, block)))
  {
    FramesTop(code, heap, fs, Fresh(code, fid, block));
  }

  lemma ContOne(fs: seq<Frame>, junk: seq<Val>)
    ensures |fs| == 1 ==> Cont(fs, junk) == junk
  {
  }

  lemma Joined(a: seq<Val>, b: seq<Val>, c: seq<Val>)
    ensures a + (b + c) == a + b + c
  {
  }

  lemma ContWritten(s: seq<Val>, base: nat, n: nat, x: Val, y: Val, z: Val)
    requires n <= |s| && base + n + 3 <= |s|
    ensures var copied := s[..base] + s[|s| - n..] + s[base + n..];
            var written := copied[base + n := x][base + n + 1 := y][base + n + 2 := z][..base + n + 3];
            written == s[..base] + s[|s| - n..] + [x, y, z]
  {
  }

  lemma ContKept(s: seq<Val>, base: nat, n: nat)
    requires n <= |s| && base + n + 3 <= |s|
    ensures (s[..base] + s[|s| - n..] + s[base + n..])[..base + n + 3] == TailFast(s, base, n)
  {
  }

  lemma FreshBody(code: Code, fid: nat, block: seq<Val>, cont: seq<Val>)
    requires block != [] && fid < |code.entry|
    ensures Body(Fresh(code, fid, block), cont) == block + cont
  {
    assert block == [block[0]] + block[1..];
  }

  lemma Rejoin(s: seq<Val>, k: nat, more: seq<Val>)
    requires k <= |s|
    ensures s + more == s[..k] + (s[k..] + more)
  {
  }

  lemma NativeStands(code: Code, heap: Graph, c: Config, junk: seq<Val>, stack: seq<Val>, base: nat, pc: int,
                     cbase: int, n: nat)
    requires Stands(code, heap, c.frames, junk, stack, base, pc, cbase) && c.frames != [] && CallOk(code, heap, c, n)
    ensures |code.args| == |code.entry| && n <= |stack| && (stack + [c.acc])[|stack| + 1 - n] == Block(c, n)[0]
    ensures var t := Top(c.frames);
            var caller := t.(rest := t.rest[..|t.rest| + 1 - n], pc := t.pc + 2);
            Stands(code, heap, WithTop(c.frames, caller), junk, (stack + [c.acc])[..|stack| + 1 - n], base, pc + 2,
              cbase)
  {
    hide Flat, Base, Cont, Inside, Callee;
    var fs := c.frames;
    var t, low, cont := Top(fs), Flat(Lower(fs), junk), Cont(fs, junk);
    var caller := t.(rest := t.rest[..|t.rest| + 1 - n], pc := t.pc + 2);
    ContThree(fs, junk);
    Flushed(low, t, cont, c.acc, n);
    FlatTop(fs, caller, junk, junk);
    var flushed := stack + [c.acc];
    assert flushed[|stack| + 1 - n..][0] == flushed[|stack| + 1 - n];
    FramesTop(code, heap, fs, caller);
  }

  lemma FramesTop(code: Code, heap: Graph, fs: seq<Frame>, f: Frame)
    requires FramesOk(code, heap, fs) && FrameOk(code, heap, f, |fs| == 1)
    ensures FramesOk(code, heap, WithTop(fs, f))
  {
  }

  lemma StandsSome(code: Code, heap: Graph, fs: seq<Frame>, junk: seq<Val>, stack: seq<Val>, base: nat, pc: int,
                   cbase: int)
    requires Stands(code, heap, fs, junk, stack, base, pc, cbase)
    ensures fs != [] && pc == Top(fs).pc && cbase == Top(fs).cbase && |code.args| == |code.entry| && |junk| == 3
  {
  }

  lemma StandsFrames(code: Code, heap: Graph, fs: seq<Frame>, junk: seq<Val>, stack: seq<Val>, base: nat, pc: int,
                     cbase: int)
    requires Stands(code, heap, fs, junk, stack, base, pc, cbase)
    ensures FramesOk(code, heap, fs)
  {
  }

  /** The continuation slots of any frame on the stack name its caller. */
  lemma WalkSlots(fs: seq<Frame>, junk: seq<Val>, stack: seq<Val>)
    requires |fs| > 1 && |junk| == 3 && Flat(fs, junk) <= stack
    ensures var at := Base(fs) + |Top(fs).args| + 1;
            && at + 3 <= |stack| && Flat(Lower(fs), junk) <= stack
            && stack[at] == Box(Top(Lower(fs)).pc) && stack[at + 1] == Box(Base(Lower(fs)))
  {
    FlatDepth(fs, junk);
    var at := Base(fs) + |Top(fs).args| + 1;
    assert Flat(fs, junk)[at..at + 3] == Cont(fs, junk);
    assert Flat(fs, junk)[at] == Cont(fs, junk)[0] && Flat(fs, junk)[at + 1] == Cont(fs, junk)[1];
  }

  /** A walk that has listed the callees of `fs` and stands at its top frame. */
  ghost predicate Walking(code: Code, heap: Graph, frames: seq<Frame>, fs: seq<Frame>, junk: seq<Val>, stack: seq<Val>,
                          pc: int, base: int, out: seq<nat>) {
    && Linked(code) && FramesOk(code, heap, frames) && |junk| == 3
    && fs != [] && |out| + |fs| == |frames| && fs == frames[..|fs|]
    && out + Chain(fs) == Chain(frames)
    && pc == Top(fs).pc && base == Base(fs) && Flat(fs, junk) <= stack
  }

  lemma WalkStart(code: Code, heap: Graph, fs: seq<Frame>, junk: seq<Val>, stack: seq<Val>, base: nat, pc: int,
                  cbase: int)
    requires Stands(code, heap, fs, junk, stack, base, pc, cbase)
    ensures Linked(code) && fs != [] && Walking(code, heap, fs, fs, junk, stack, pc, base, [])
  {
    assert [] + Chain(fs) == Chain(fs) && fs[..|fs|] == fs;
  }

  lemma ChainStep(frames: seq<Frame>, fs: seq<Frame>, out: seq<nat>)
    requires fs != [] && out + Chain(fs) == Chain(frames)
    ensures out + [Top(fs).fid] + Chain(Lower(fs)) == Chain(frames)
    ensures out + [Top(fs).fid] == Chain(frames)[..|out| + 1]
  {
    assert out + Chain(fs) == out + [Top(fs).fid] + Chain(Lower(fs));
  }

  lemma WalkStep(code: Code, heap: Graph, frames: seq<Frame>, fs: seq<Frame>, junk: seq<Val>, stack: seq<Val>,
                 pc: int, base: int, out: seq<nat>)
    requires Walking(code, heap, frames, fs, junk, stack, pc, base, out)
    ensures |fs| > 0 && |code.args| == |code.entry| && base >= 0 && (base == 0 <==> |fs| == 1)
    ensures var fid := Top(fs).fid;
            && Inside(code, fid, pc) && out + [fid] == Chain(frames)[..|out| + 1]
            && (|fs| > 1 ==>
                  var at := base + code.args[fid] + 1;
                  && at + 2 <= |stack|
                  && Walking(code, heap, frames, Lower(fs), junk, stack, IntOf(stack[at]), IntOf(stack[at + 1]),
                     out + [fid]))
  {
    hide Flat, Inside, Cont, Base, Chain;
    var fid := Top(fs).fid;
    assert FrameOk(code, heap, frames[|fs| - 1], |fs| == 1);
    ChainStep(frames, fs, out);
    BasePositive(fs);
    if |fs| > 1 { WalkSlots(fs, junk, stack); }
  }

  lemma ContThree(fs: seq<Frame>, junk: seq<Val>)
    requires fs != [] && |junk| == 3
    ensures |Cont(fs, junk)| == 3 && Flat(fs, junk) == Flat(Lower(fs), junk) + Body(Top(fs), Cont(fs, junk))
  {
  }

  // ---- a collection between two instructions ----

  function TrFrame(f: Frame, m: map<Ref, Ref>): Frame {
    f.(fn := Tr(f.fn, m), args := TrSeq(f.args, m), rest := TrSeq(f.rest, m))
  }

  function TrFrames(fs: seq<Frame>, m: map<Ref, Ref>): (r: seq<Frame>)
    ensures |r| == |fs| && forall i :: 0 <= i < |fs| ==> r[i] == TrFrame(fs[i], m)
  {
    seq(|fs|, i requires 0 <= i < |fs| => TrFrame(fs[i], m))
  }

  lemma {:induction false} FramesMove(fs: seq<Frame>, junk: seq<Val>, m: map<Ref, Ref>)
    ensures Base(TrFrames(fs, m)) == Base(fs)
    ensures Flat(TrFrames(fs, m), TrSeq(junk, m)) == TrSeq(Flat(fs, junk), m)
    ensures Chain(TrFrames(fs, m)) == Chain(fs)
    decreases |fs|
  {
    if fs != [] {
      assert Lower(TrFrames(fs, m)) == TrFrames(Lower(fs), m);
      FramesMove(Lower(fs), junk, m);
      ContMoves(fs, junk, m);
      BodyMoves(Top(fs), Cont(fs, junk), m);
      TrJoin(Flat(Lower(fs), junk), Body(Top(fs), Cont(fs, junk)), m);
    }
  }

  lemma ContMoves(fs: seq<Frame>, junk: seq<Val>, m: map<Ref, Ref>)
    requires fs != [] && Lower(TrFrames(fs, m)) == TrFrames(Lower(fs), m)
    requires Base(TrFrames(Lower(fs), m)) == Base(Lower(fs))
    ensures Cont(TrFrames(fs, m), TrSeq(junk, m)) == TrSeq(Cont(fs, junk), m)
  {
  }

  lemma TrJoin(a: seq<Val>, b: seq<Val>, m: map<Ref, Ref>)
    ensures TrSeq(a + b, m) == TrSeq(a, m) + TrSeq(b, m)
  {
  }

  lemma BodyMoves(f: Frame, cont: seq<Val>, m: map<Ref, Ref>)
    ensures Body(TrFrame(f, m), TrSeq(cont, m)) == TrSeq(Body(f, cont), m)
  {
  }

  lemma CalleeMoves(g: Graph, roots: seq<Val>, h: Graph, roots': seq<Val>, m: map<Ref, Ref>, v: Val)
    requires WellFormed(g, roots) && Iso(g, roots, h, roots', m) && v in roots && forall r :: r in h ==> r.buf != 0
    ensures Callee(h, Tr(v, m)) == Callee(g, v)
  {
    var i :| 0 <= i < |roots| && roots[i] == v;
  }

  /** Every value the frames hold. */
  function Vals(fs: seq<Frame>): seq<Val> {
    if fs == [] then [] else Vals(Lower(fs)) + [Top(fs).fn] + Top(fs).args + Top(fs).rest
  }

  lemma {:induction false} FnInVals(fs: seq<Frame>, i: nat)
    requires i < |fs|
    ensures fs[i].fn in Vals(fs)
    decreases |fs|
  {
    if i < |fs| - 1 {
      FnInVals(Lower(fs), i);
    } else {
      assert Vals(fs)[|Vals(Lower(fs))|] == fs[i].fn;
    }
  }

  lemma {:induction false} ValsOnStack(fs: seq<Frame>, junk: seq<Val>, v: Val)
    requires v in Vals(fs)
    ensures v in Flat(fs, junk)
    decreases |fs|
  {
    if v in Vals(Lower(fs)) {
      ValsOnStack(Lower(fs), junk, v);
    } else {
      InBody(Top(fs), Cont(fs, junk), v);
    }
  }

  lemma InBody(f: Frame, cont: seq<Val>, v: Val)
    requires v == f.fn || v in f.args || v in f.rest
    ensures v in Body(f, cont)
  {
  }

  /** Memory changed under the frames: objects were allocated, or moved by `m`, and
      what the frames reach is the same graph. */
  ghost predicate MoveOk(heap: Graph, fs: seq<Frame>, h: Graph, m: map<Ref, Ref>) {
    && WellFormed(heap, Vals(fs)) && Iso(heap, Vals(fs), h, TrSeq(Vals(fs), m), m)
    && forall r :: r in h ==> r.buf != 0
  }

  lemma IsoPart(g: Graph, roots: seq<Val>, h: Graph, m: map<Ref, Ref>, part: seq<Val>)
    requires WellFormed(g, roots) && Iso(g, roots, h, TrSeq(roots, m), m) && forall v :: v in part ==> v in roots
    ensures WellFormed(g, part) && Iso(g, part, h, TrSeq(part, m), m)
  {
    forall i | 0 <= i < |part| && part[i].Ptr?
      ensures (part[i].ref in g || part[i].ref.buf == 0) && (part[i].ref in g ==> part[i].ref in m)
    {
      assert part[i] in part;
      var j :| 0 <= j < |roots| && roots[j] == part[i];
    }
  }

  /** A collection of the process is such a change. */
  lemma CollectionMoves(heap: Graph, fs: seq<Frame>, junk: seq<Val>, h: Graph, m: map<Ref, Ref>)
    requires var stack := Flat(fs, junk); WellFormed(heap, stack) && Iso(heap, stack, h, TrSeq(stack, m), m)
    requires forall r :: r in h ==> r.buf != 0
    ensures MoveOk(heap, fs, h, m)
  {
    hide Flat, Vals, WellFormed, Iso;
    forall v | v in Vals(fs) ensures v in Flat(fs, junk) { ValsOnStack(fs, junk, v); }
    IsoPart(heap, Flat(fs, junk), h, m, Vals(fs));
  }

  /** When memory changes, the machine still stands for the same frames, with the
      values renamed, and the same call chain. */
  lemma CollectionInvisible(code: Code, heap: Graph, fs: seq<Frame>, junk: seq<Val>, stack: seq<Val>, base: nat,
                            pc: int, cbase: int, h: Graph, m: map<Ref, Ref>)
    requires Stands(code, heap, fs, junk, stack, base, pc, cbase) && MoveOk(heap, fs, h, m)
    ensures Stands(code, h, TrFrames(fs, m), TrSeq(junk, m), TrSeq(stack, m), base, pc, cbase)
    ensures Chain(TrFrames(fs, m)) == Chain(fs)
  {
    hide Flat, Base, Chain, Vals, WellFormed, Iso, Callee, Inside;
    FramesMove(fs, junk, m);
    forall i | 0 <= i < |fs| ensures FrameOk(code, h, TrFrames(fs, m)[i], i == 0) {
      FnInVals(fs, i);
      CalleeMoves(heap, Vals(fs), h, TrSeq(Vals(fs), m), m, fs[i].fn);
      assert FrameOk(code, heap, fs[i], i == 0);
    }
  }

  // ---- runs in a changing memory ----

  /** An instruction, or a change of memory with what the accumulator holds after
      it: no collector root is kept in the accumulator. */
  datatype Event = Do(op: Op) | Memory(h: Graph, m: map<Ref, Ref>, acc: Val)

  function Moved(c: Config, m: map<Ref, Ref>, acc: Val): Config { Config(TrFrames(c.frames, m), acc) }

  /** A run of the frame machine, and the memory it ends with. */
  function AbsLife(code: Code, heap: Graph, c: Config, es: seq<Event>): (Outcome, Graph)
    requires c.frames != []
    decreases |es|
  {
    if es == [] then (Next(c), heap)
    else
      match es[0]
      case Memory(h, m, acc) => AbsLife(code, h, Moved(c, m, acc), es[1..])
      case Do(op) =>
        var r := AbsStep(code, heap, c, op);
        if r.Next? && r.c.frames != [] then AbsLife(code, heap, r.c, es[1..]) else (if r.Next? then Fault else r, heap)
  }

  /** Instructions have operands as the compiler makes them, and memory changes only
      as the collector changes it. */
  ghost predicate Legal(code: Code, heap: Graph, c: Config, es: seq<Event>)
    requires c.frames != []
    decreases |es|
  {
    es != [] && FramesOk(code, heap, c.frames) ==>
      match es[0]
      case Memory(h, m, acc) => MoveOk(heap, c.frames, h, m) && Legal(code, h, Moved(c, m, acc), es[1..])
      case Do(op) =>
        && OpOk(code, heap, c, op)
        && match AbsStep(code, heap, c, op)
           case Next(c') => c'.frames != [] ==> Legal(code, heap, c', es[1..])
           case _ => true
  }

  // ---- calls and returns in a run ----

  /** The run never returns below depth d. */
  ghost predicate StaysAbove(code: Code, heap: Graph, c: Config, es: seq<Event>, d: nat)
    decreases |es|
  {
    && d < |c.frames|
    && (es != [] ==>
          match es[0]
          case Memory(h, m, acc) => StaysAbove(code, h, Moved(c, m, acc), es[1..], d)
          case Do(op) =>
            match AbsStep(code, heap, c, op)
            case Next(c') => StaysAbove(code, heap, c', es[1..], d)
            case _ => true)
  }

  /** Frames as the memory changes of a run leave them. */
  function Carried(fs: seq<Frame>, es: seq<Event>): (r: seq<Frame>)
    ensures |r| == |fs|
    decreases |es|
  {
    if es == [] then fs else Carried(if es[0].Memory? then TrFrames(fs, es[0].m) else fs, es[1..])
  }

  lemma {:induction false} CarriedShape(fs: seq<Frame>, es: seq<Event>, junk: seq<Val>)
    requires fs != [] && |junk| == 3
    ensures Base(Carried(fs, es)) == Base(fs) && |Flat(Carried(fs, es), junk)| == |Flat(fs, junk)|
    ensures Chain(Carried(fs, es)) == Chain(fs) && Top(Carried(fs, es)).pc == Top(fs).pc
    ensures Top(Carried(fs, es)).cbase == Top(fs).cbase
    decreases |es|
  {
    hide Flat, Base, Chain;
    if es != [] {
      var gs := if es[0].Memory? then TrFrames(fs, es[0].m) else fs;
      if es[0].Memory? {
        FramesMove(fs, junk, es[0].m);
        FlatDepth(gs, junk);
        FlatDepth(fs, junk);
      }
      CarriedShape(gs, es[1..], junk);
    }
  }

  /** Whatever runs above a depth leaves the frames below it as they were, but for
      the moves of the collector. */
  lemma {:induction false} BelowKept(code: Code, heap: Graph, c: Config, es: seq<Event>, d: nat)
    requires StaysAbove(code, heap, c, es, d) && AbsLife(code, heap, c, es).0.Next?
    ensures var c' := AbsLife(code, heap, c, es).0.c; d < |c'.frames| && c'.frames[..d] == Carried(c.frames[..d], es)
    decreases |es|
  {
    hide AbsStep;
    if es != [] {
      match es[0]
      case Memory(h, m, acc) =>
        BelowKept(code, h, Moved(c, m, acc), es[1..], d);
        assert TrFrames(c.frames, m)[..d] == TrFrames(c.frames[..d], m);
      case Do(op) =>
        BelowKept(code, heap, AbsStep(code, heap, c, op).c, es[1..], d);
        StepBelow(code, heap, c, op, d);
    }
  }

  lemma StepBelow(code: Code, heap: Graph, c: Config, op: Op, d: nat)
    requires c.frames != [] && AbsStep(code, heap, c, op).Next?
    requires d < |c.frames| && d < |AbsStep(code, heap, c, op).c.frames|
    ensures AbsStep(code, heap, c, op).c.frames[..d] == c.frames[..d]
  {
  }

  /** A value that may be called with n - 1 arguments. */
  predicate Callable(code: Code, heap: Graph, v: Val, n: nat) {
    match Callee(heap, v)
    case Some(fid) => fid < |code.args| && code.args[fid] == n - 1
    case None => v.Imm? && v.imm.Native?
  }

  /** A call, whatever the callee does at its own depth or deeper, collections
      included, and the matching return: the caller goes on behind the call with its
      own base, code base and depth, its operands less the call block. */
  lemma CallReturns(code: Code, heap: Graph, c: Config, n: nat, native: Val, es: seq<Event>, k: nat, junk: seq<Val>)
    requires c.frames != [] && |junk| == 3
    requires AbsStep(code, heap, c, Call(n, native)).Next?
    requires var c1 := AbsStep(code, heap, c, Call(n, native)).c;
             && |c1.frames| == |c.frames| + 1
             && StaysAbove(code, heap, c1, es, |c.frames|)
             && var r := AbsLife(code, heap, c1, es).0; r.Next? && |r.c.frames| == |c.frames| + 1
    ensures var (r, h) := AbsLife(code, heap, AbsStep(code, heap, c, Call(n, native)).c, es);
            var t := Top(c.frames);
            && 1 <= n <= |t.rest| + 1
            && var back := Carried(WithTop(c.frames, t.(rest := t.rest[..|t.rest| + 1 - n], pc := t.pc + 2)), es);
            && AbsStep(code, h, r.c, Return(k)) == Next(Config(back, r.c.acc))
            && Base(back) == Base(c.frames) && |Flat(back, junk)| == |Flat(c.frames, junk)| + 1 - n
            && Top(back).pc == t.pc + 2 && Top(back).cbase == t.cbase && Chain(back) == Chain(c.frames)
  {
    hide Flat, Base, Carried, AbsLife, StaysAbove, Chain;
    var c1 := AbsStep(code, heap, c, Call(n, native)).c;
    BelowKept(code, heap, c1, es, |c.frames|);
    var t := Top(c.frames);
    var caller := WithTop(c.frames, t.(rest := t.rest[..|t.rest| + 1 - n], pc := t.pc + 2));
    assert c1.frames[..|c.frames|] == caller;
    CarriedShape(caller, es, junk);
    SameLower(c.frames, Top(caller), junk);
  }

  /** Replacing the top frame keeps the base, and the chain if the function stays. */
  lemma SameLower(fs: seq<Frame>, f: Frame, junk: seq<Val>)
    requires fs != [] && |junk| == 3
    ensures Base(WithTop(fs, f)) == Base(fs)
      && |Flat(WithTop(fs, f), junk)| == |Flat(fs, junk)| + Width(f) - Width(Top(fs))
    ensures f.fid == Top(fs).fid ==> Chain(WithTop(fs, f)) == Chain(fs)
  {
    assert Lower(WithTop(fs, f)) == Lower(fs);
    FlatDepth(WithTop(fs, f), junk);
    FlatDepth(fs, junk);
  }

  /** The top n values copied down to `base`, as far as i of them. */
  function Partly(was: seq<Val>, base: nat, n: nat, i: nat): (r: seq<Val>)
    requires i <= n <= |was| && base + n < |was|
    ensures |r| == |was|
  {
    was[..base] + was[|was| - n..|was| - n + i] + was[base + i..]
  }

  lemma Partly0(was: seq<Val>, base: nat, n: nat)
    requires n <= |was| && base + n < |was|
    ensures Partly(was, base, n, 0) == was
  {
  }

  lemma PartlyNext(was: seq<Val>, base: nat, n: nat, i: nat)
    requires i < n <= |was| && base + n < |was|
    ensures var now, from := Partly(was, base, n, i), |was| - n;
            now[base + i := now[from + i]] == Partly(was, base, n, i + 1)
  {
    var from := |was| - n;
    var low, block, high := was[..base], was[from..from + i], was[base + i..];
    var now := low + block + high;
    assert now[from + i] == high[from - base] == was[from + i];
    assert was[from..from + i + 1] == block + [was[from + i]];
    assert high[1..] == was[base + i + 1..];
    Overwritten(low + block, high, was[from + i]);
    assert low + block + [was[from + i]] == low + (block + [was[from + i]]);
  }

  lemma Overwritten(a: seq<Val>, b: seq<Val>, x: Val)
    requires b != []
    ensures (a + b)[|a| := x] == a + [x] + b[1..]
  {
  }

  lemma PartlyAll(was: seq<Val>, base: nat, n: nat)
    requires n <= |was| && base + n < |was|
    ensures Partly(was, base, n, n) == was[..base] + was[|was| - n..] + was[base + n..]
  {
    assert was[|was| - n..|was| - n + n] == was[|was| - n..];
  }

  // ---- the machine ----

  datatype Status = Running | Ended | Died

  class Machine {
    const code: Code
    var heap: Graph
    var stack: seq<Val>
    var pc: int
    var base: nat
    var cbase: int
    var acc: Val

    ghost var frames: seq<Frame>
    ghost var junk: seq<Val>

    ghost predicate Valid()
      reads this
    {
      Stands(code, heap, frames, junk, stack, base, pc, cbase)
    }

    ghost function Cfg(): Config
      reads this`frames, this`acc
    {
      Config(frames, acc)
    }

    /** The first frame: function value, empty arguments, empty continuation. */
    constructor (image: Code, g: Graph, fid: nat, fn: Val)
      requires Linked(image) && fid < |image.entry|
      requires Callee(g, fn) == Some(fid) || Callee(g, fn) == None
      ensures Valid() && code == image && heap == g
      ensures frames == [Frame(fid, fn, Nils(image.args[fid]), [], image.entry[fid], image.entry[fid])]
      ensures |stack| == 4 + image.args[fid]
    {
      code, heap := image, g;
      base, pc, cbase, acc := 0, image.entry[fid], image.entry[fid], Imm(Nil);
      stack := [fn] + Nils(3 + image.args[fid]);
      var f := Frame(fid, fn, Nils(image.args[fid]), [], image.entry[fid], image.entry[fid]);
      frames, junk := [f], Nils(3);
      new;
      assert Flat(Lower(frames), junk) == [];
      assert stack == Body(f, junk);
    }

    method DoPush()
      requires Valid() && OpOk(code, heap, Cfg(), Push)
      modifies this`stack, this`pc, this`frames
      ensures Valid() && AbsStep(code, heap, old(Cfg()), Push) == Next(Cfg())
      ensures stack == old(stack) + [acc] && pc == old(pc) + 1
    {
      hide Stands, AbsStep, OpOk;
      ghost var c := Cfg();
      PushStands(code, heap, c, junk, stack, base, pc, cbase);
      stack := stack + [acc];
      pc := pc + 1;
      frames := AbsStep(code, heap, c, Push).c.frames;
    }

    method DoReserve(k: nat)
      requires Valid() && OpOk(code, heap, Cfg(), Reserve(k))
      modifies this`stack, this`pc, this`frames
      ensures Valid() && AbsStep(code, heap, old(Cfg()), Reserve(k)) == Next(Cfg())
      ensures stack == old(stack) + Nils(k) && pc == old(pc) + 2
    {
      hide Stands, AbsStep, OpOk;
      ghost var c, before := Cfg(), stack;
      ReserveStands(code, heap, c, junk, stack, base, pc, cbase, k);
      var i := 0;
      while i < k
        invariant 0 <= i <= k && stack == before + Nils(i)
        modifies this`stack
      {
        stack := stack + [Imm(Nil)];
        i := i + 1;
      }
      pc := pc + 2;
      frames := AbsStep(code, heap, c, Reserve(k)).c.frames;
    }

    method DoLoad(i: nat)
      requires Valid() && OpOk(code, heap, Cfg(), Load(i))
      modifies this`acc, this`pc, this`frames
      ensures Valid() && AbsStep(code, heap, old(Cfg()), Load(i)) == Next(Cfg())
      ensures base + i < |stack| && acc == stack[base + i] && pc == old(pc) + 2
    {
      hide Stands, AbsStep, OpOk;
      ghost var c := Cfg();
      LoadStands(code, heap, c, junk, stack, base, pc, cbase, i);
      acc := stack[base + i];
      pc := pc + 2;
      frames := AbsStep(code, heap, c, Load(i)).c.frames;
    }

    method DoStore(i: nat)
      requires Valid() && OpOk(code, heap, Cfg(), Store(i))
      modifies this`stack, this`pc, this`frames
      ensures Valid() && AbsStep(code, heap, old(Cfg()), Store(i)) == Next(Cfg())
      ensures base + i < |old(stack)| && stack == old(stack)[base + i := acc] && pc == old(pc) + 2
    {
      hide Stands, AbsStep, OpOk;
      ghost var c := Cfg();
      StoreStands(code, heap, c, junk, stack, base, pc, cbase, i);
      stack := stack[base + i := acc];
      pc := pc + 2;
      frames := AbsStep(code, heap, c, Store(i)).c.frames;
    }

    method DoDrop(k: nat, result: Val)
      requires Valid() && OpOk(code, heap, Cfg(), Drop(k, result))
      modifies this`stack, this`acc, this`pc, this`frames
      ensures Valid() && AbsStep(code, heap, old(Cfg()), Drop(k, result)) == Next(Cfg())
      ensures k <= |old(stack)| && stack == old(stack)[..|old(stack)| - k] && acc == result && pc == old(pc) + 1
    {
      hide Stands, AbsStep, OpOk;
      ghost var c := Cfg();
      DropStands(code, heap, c, junk, stack, base, pc, cbase, k, result);
      stack := stack[..|stack| - k];
      acc := result;
      pc := pc + 1;
      frames := AbsStep(code, heap, c, Drop(k, result)).c.frames;
    }

    method DoJump(off: int)
      requires Valid() && OpOk(code, heap, Cfg(), Jump(off))
      modifies this`pc, this`frames
      ensures Valid() && AbsStep(code, heap, old(Cfg()), Jump(off)) == Next(Cfg())
      ensures pc == cbase + off
    {
      hide Stands, AbsStep, OpOk;
      ghost var c := Cfg();
      JumpStands(code, heap, c, junk, stack, base, pc, cbase, off);
      pc := cbase + off;
      frames := AbsStep(code, heap, c, Jump(off)).c.frames;
    }

    /** RET: the entry frame ends the process; any other frame is dropped and
        the caller's registers come back from the continuation slots. */
    method DoReturn(k: nat) returns (st: Status)
      requires Valid() && OpOk(code, heap, Cfg(), Return(k))
      modifies this`stack, this`pc, this`base, this`cbase, this`frames
      ensures match AbsStep(code, heap, old(Cfg()), Return(k))
              case Finished(v) => st == Ended && v == acc && Valid() && Cfg() == old(Cfg())
              case Next(c) => st == Running && Valid() && Cfg() == c
              case Fault => false
      ensures st == Ended <==> old(base) == 0
      ensures st == Running ==>
        && old(base) + k + 4 <= |old(stack)| && stack == old(stack)[..old(base)]
        && pc == IntOf(old(stack)[old(base) + k + 1]) && base == IntOf(old(stack)[old(base) + k + 2])
        && cbase == IntOf(old(stack)[old(base) + k + 3])
    {
      hide Stands, FramesOk;
      ReturnStands(code, heap, frames, junk, stack, base, pc, cbase);
      if base == 0 { return Ended; }
      pc := IntOf(stack[base + k + 1]);
      cbase := IntOf(stack[base + k + 3]);
      var callerBase := IntOf(stack[base + k + 2]);
      stack := stack[..base];
      base := callerBase;
      frames := Lower(frames);
      st := Running;
    }

    /** What a call leaves: for a function its continuation on top of the flushed
        stack and the registers at its entry, for a native its result. */
    ghost predicate Called(s: seq<Val>, n: nat, native: Val, pc0: int, base0: nat, cbase0: int)
      requires 1 <= n <= |s|
      reads this
    {
      match Callee(heap, s[|s| - n])
      case Some(fid) =>
        && stack == s + [Box(pc0 + 2), Box(base0), Box(cbase0)] && base == |s| - n
        && fid < |code.entry| && pc == cbase == code.entry[fid] && acc == s[|s| - 1]
      case None =>
        stack == s[..|s| - n] && acc == native && pc == pc0 + 2 && base == base0 && cbase == cbase0
    }

    /** CALL: flush the accumulator, push the continuation, enter the callee. */
    method DoCall(n: nat, native: Val) returns (st: Status)
      requires Valid() && OpOk(code, heap, Cfg(), Call(n, native))
      modifies this`stack, this`pc, this`base, this`cbase, this`acc, this`frames
      ensures match AbsStep(code, heap, old(Cfg()), Call(n, native))
              case Next(c) => st == Running && Valid() && Cfg() == c
              case Fault => st == Died
              case Finished(_) => false
      ensures n <= |old(stack)| + 1 && st != Ended
      ensures st == Running ==> Called(old(stack) + [old(acc)], n, native, old(pc), old(base), old(cbase))
      ensures st == Died <==> !Callable(code, heap, (old(stack) + [old(acc)])[|old(stack)| + 1 - n], n)
    {
      hide Stands, FrameOk, Callee;
      ghost var c := Cfg();
      StandsSome(code, heap, frames, junk, stack, base, pc, cbase);
      NativeStands(code, heap, c, junk, stack, base, pc, cbase, n);
      stack := stack + [acc];
      var fv := stack[|stack| - n];
      match Callee(heap, fv) {
        case None =>
          if fv.Imm? && fv.imm.Native? {
            stack := stack[..|stack| - n];
            acc := native;
            pc := pc + 2;
            frames := AbsStep(code, heap, c, Call(n, native)).c.frames;
            st := Running;
          } else {
            st := Died;
          }
        case Some(fid) =>
          if code.args[fid] != n - 1 { return Died; }
          CallStands(code, heap, c, junk, old(stack), base, pc, cbase, n, fid);
          var nb := |stack| - n;
          stack := stack + [Box(pc + 2), Box(base), Box(cbase)];
          base, pc, cbase := nb, code.entry[fid], code.entry[fid];
          frames := AbsStep(code, heap, c, Call(n, native)).c.frames;
          st := Running;
      }
    }

    /** Move the call block down to the frame's start, slot by slot; the source
        always lies above the target, so nothing is read after being written. */
    method CopyDown(n: nat)
      requires n <= |stack| && base + n < |stack|
      modifies this`stack
      ensures stack == old(stack)[..base] + old(stack)[|old(stack)| - n..] + old(stack)[base + n..]
    {
      hide Partly;
      var from := |stack| - n;
      var i := 0;
      Partly0(stack, base, n);
      while i < n
        invariant 0 <= i <= n && stack == Partly(old(stack), base, n, i)
      {
        PartlyNext(old(stack), base, n, i);
        stack := stack[base + i := stack[from + i]];
        i := i + 1;
      }
      PartlyAll(old(stack), base, n);
    }

    /** What a tail call leaves: the call block at the frame's start and the old
        continuation behind it, or a native's result. */
    ghost predicate TailCalled(s: seq<Val>, n: nat, native: Val, pc0: int, cbase0: int)
      requires 1 <= n <= |s|
      reads this
    {
      match Callee(heap, s[|s| - n])
      case Some(fid) =>
        && base + n + 3 <= |s| && fid < |code.entry| && pc == cbase == code.entry[fid] && acc == s[|s| - 1]
        && var k := SlotArgs(code, heap, s[base]);
        && base + k + 4 <= |s|
        && stack == if Callee(heap, s[base]) == Some(fid) then TailFast(s, base, n) else TailGeneral(s, base, n, k)
      case None => stack == s[..|s| - n] && acc == native && pc == pc0 + 2 && cbase == cbase0
    }

    /** TCALL: the new frame replaces the old one in place.  A self call keeps
        the continuation slots where they are. */
    method DoTailCall(n: nat, native: Val) returns (st: Status)
      requires Valid() && OpOk(code, heap, Cfg(), TailCall(n, native))
      modifies this`stack, this`pc, this`base, this`cbase, this`acc, this`frames, this`junk
      ensures match AbsStep(code, heap, old(Cfg()), TailCall(n, native))
              case Next(c) => st == Running && Valid() && Cfg() == c
              case Fault => st == Died
              case Finished(_) => false
      ensures n <= |old(stack)| + 1 && st != Ended && base == old(base)
      ensures st == Running ==> TailCalled(old(stack) + [old(acc)], n, native, old(pc), old(cbase))
      ensures st == Died <==> !Callable(code, heap, (old(stack) + [old(acc)])[|old(stack)| + 1 - n], n)
    {
      hide Stands, FrameOk, Callee, Flat, Cont, Base, TailFast, TailGeneral, Rewritten;
      ghost var c := Cfg();
      StandsSome(code, heap, frames, junk, stack, base, pc, cbase);
      NativeStands(code, heap, c, junk, stack, base, pc, cbase, n);
      TailLayout(code, heap, c, junk, stack, base, pc, cbase, n);
      stack := stack + [acc];
      var fv := stack[|stack| - n];
      match Callee(heap, fv) {
        case None =>
          if fv.Imm? && fv.imm.Native? {
            stack := stack[..|stack| - n];
            acc := native;
            pc := pc + 2;
            frames := AbsStep(code, heap, c, TailCall(n, native)).c.frames;
            st := Running;
          } else {
            st := Died;
          }
        case Some(fid) =>
          if code.args[fid] != n - 1 { return Died; }
          TailStands(code, heap, c, junk, old(stack), base, pc, cbase, n, fid);
          Replace(fid, n);
          frames := AbsStep(code, heap, c, TailCall(n, native)).c.frames;
          st := Running;
      }
    }

    method Replace(fid: nat, n: nat)
      requires n <= |stack| && base + n + 3 <= |stack| && base + SlotArgs(code, heap, stack[base]) + 4 <= |stack|
      requires fid < |code.entry| && (Callee(heap, stack[base]).Some? ==> Callee(heap, stack[base]).value < |code.args|)
      modifies this`stack, this`pc, this`cbase, this`junk
      ensures pc == cbase == code.entry[fid]
      ensures var k := SlotArgs(code, heap, old(stack)[base]);
              if Callee(heap, old(stack)[base]) == Some(fid)
              then stack == TailFast(old(stack), base, n) && junk == old(junk)
              else && stack == TailGeneral(old(stack), base, n, k)
                   && junk == if |frames| == 1 then Rewritten(old(stack), base + k + 1) else old(junk)
    {
      hide Callee, TailFast, TailGeneral, Rewritten;
      var current := Callee(heap, stack[base]);
      if current == Some(fid) {
        SelfTail(n);
      } else {
        var k := if current.None? then 0 else code.args[current.value];
        if |frames| == 1 { junk := Rewritten(stack, base + k + 1); }
        OtherTail(n, k);
      }
      pc := code.entry[fid];
      cbase := pc;
    }

    method SelfTail(n: nat)
      requires n <= |stack| && base + n + 3 <= |stack|
      modifies this`stack
      ensures stack == TailFast(old(stack), base, n)
    {
      ContKept(stack, base, n);
      CopyDown(n);
      stack := stack[..base + n + 3];
    }

    method OtherTail(n: nat, k: nat)
      requires n <= |stack| && base + n + 3 <= |stack| && base + k + 4 <= |stack|
      modifies this`stack
      ensures stack == TailGeneral(old(stack), base, n, k)
    {
      var oret, obase, ocbase := IntOf(stack[base + k + 1]), IntOf(stack[base + k + 2]), IntOf(stack[base + k + 3]);
      ContWritten(stack, base, n, Box(oret), Box(obase), Box(ocbase));
      CopyDown(n);
      stack := stack[base + n := Box(oret)][base + n + 1 := Box(obase)][base + n + 2 := Box(ocbase)][..base + n + 3];
    }

    method Step(op: Op) returns (st: Status)
      requires Valid() && FramesOk(code, heap, frames) && OpOk(code, heap, Cfg(), op)
      modifies this`stack, this`pc, this`base, this`cbase, this`acc, this`frames, this`junk
      ensures match AbsStep(code, heap, old(Cfg()), op)
              case Next(c) => st == Running && Valid() && Cfg() == c
              case Finished(v) => st == Ended && acc == v
              case Fault => st == Died
    {
      hide Stands, FrameOk, OpOk, AbsStep;
      st := Running;
      match op {
        case Push => DoPush();
        case Load(i) => DoLoad(i);
        case Store(i) => DoStore(i);
        case Drop(k, result) => DoDrop(k, result);
        case Jump(off) => DoJump(off);
        case Reserve(k) => DoReserve(k);
        case Call(n, native) => st := DoCall(n, native);
        case TailCall(n, native) => st := DoTailCall(n, native);
        case Return(k) => st := DoReturn(k);
      }
    }

    /** Memory changes under the machine. */
    method Adopt(h: Graph, m: map<Ref, Ref>, a: Val)
      requires Valid() && MoveOk(heap, frames, h, m)
      modifies this`heap, this`stack, this`acc, this`frames, this`junk
      ensures Valid() && heap == h && Cfg() == Moved(old(Cfg()), m, a) && stack == TrSeq(old(stack), m)
      ensures Chain(frames) == Chain(old(frames))
    {
      hide Stands, MoveOk, Chain;
      CollectionInvisible(code, heap, frames, junk, stack, base, pc, cbase, h, m);
      heap, stack, acc := h, TrSeq(stack, m), a;
      frames, junk := TrFrames(frames, m), TrSeq(junk, m);
    }

    /** Every run of the flat machine is the run of the frame machine, with
        allocations and collections at any point of it. */
    method Run(es: seq<Event>) returns (st: Status)
      requires Valid() && FramesOk(code, heap, frames) && Legal(code, heap, Cfg(), es)
      modifies this`heap, this`stack, this`pc, this`base, this`cbase, this`acc, this`frames, this`junk
      ensures heap == AbsLife(code, old(heap), old(Cfg()), es).1
      ensures match AbsLife(code, old(heap), old(Cfg()), es).0
              case Next(c) => st == Running && Valid() && Cfg() == c
              case Finished(v) => st == Ended && acc == v
              case Fault => st == Died
    {
      hide Stands, FrameOk, OpOk, AbsStep, MoveOk;
      st := Running;
      var i := 0;
      assert es[0..] == es;
      while i < |es|
        invariant 0 <= i <= |es| && st == Running && Valid() && FramesOk(code, heap, frames)
        invariant Legal(code, heap, Cfg(), es[i..])
        invariant AbsLife(code, heap, Cfg(), es[i..]) == AbsLife(code, old(heap), old(Cfg()), es)
      {
        assert es[i..][1..] == es[i + 1..];
        match es[i] {
          case Memory(h, m, a) => Adopt(h, m, a);
          case Do(op) =>
            st := Step(op);
            if st != Running { return; }
        }
        StandsFrames(code, heap, frames, junk, stack, base, pc, cbase);
        i := i + 1;
      }
    }

    /** Walk the continuation slots from the current pc outward. */
    method WalkStack(maxDepth: nat) returns (out: seq<nat>)
      requires Valid()
      ensures out == if maxDepth < |frames| then Chain(frames)[..maxDepth] else Chain(frames)
    {
      hide Walking, Inside;
      out := [];
      var p, b := pc, base;
      ghost var fs := frames;
      WalkStart(code, heap, frames, junk, stack, base, pc, cbase);
      while |out| < maxDepth
        invariant |out| <= maxDepth && |out| + |fs| == |frames| && fs != []
        invariant Walking(code, heap, frames, fs, junk, stack, p, b, out)
        invariant out == Chain(frames)[..|out|]
      {
        WalkStep(code, heap, frames, fs, junk, stack, p, b, out);
        var fid := FidOfPc(code, p);
        if fid < 0 { break; }
        InsideOne(code, fid, Top(fs).fid, p);
        out := out + [fid];
        if b == 0 { break; }
        var nargs := code.args[fid];
        if b + nargs + 3 > |stack| { break; }
        p, b := IntOf(stack[b + nargs + 1]), IntOf(stack[b + nargs + 2]);
        fs := Lower(fs);
      }
    }
  }
}
