/** Tagged values, heap objects and their allocation sizes.

    A value is an immediate or a tagged reference.  Floats are opaque bit
    patterns.  Memory is modelled at object granularity: a reference names a
    buffer and the byte offset at which an object starts in it, and every
    object has the byte size the allocator gives it.
 */
module Heap {

  type Byte = b: int | 0 <= b < 256

  datatype Option<+T> = None | Some(value: T)

  datatype Kind = PairKind | ClosureKind | StringKind | BytesKind | ResourceKind

  datatype Ref = Ref(buf: nat, off: nat)

  datatype Immediate =
    | Float(bits: int)
    | Int(i: int)
    | Nil
    | True
    | False
    | Sym(id: nat)
    | Pid(pid: nat)
    | FnId(fid: nat)
    | Native(cf: nat)

  datatype Val = Imm(imm: Immediate) | Ptr(kind: Kind, ref: Ref)

  datatype Obj =
    | Pair(car: Val, cdr: Val)
    | Closure(entry: nat, free: seq<Val>)
    | Str(chars: seq<Byte>)
    | Bytes(bytes: seq<Byte>)
    | Resource(owner: nat, payload: Option<nat>)

  /** What a collection can find at an object start.  Forwarding keeps the
      header's type and overwrites the fields behind it, so a forwarded cell
      has lost its length and free-count fields. */
  datatype Cell = Live(obj: Obj) | Forwarded(kind: Kind, to: Ref)

  const MIN_OBJECT: nat := 16

  function KindOf(o: Obj): Kind {
    match o
    case Pair(_, _) => PairKind
    case Closure(_, _) => ClosureKind
    case Str(_) => StringKind
    case Bytes(_) => BytesKind
    case Resource(_, _) => ResourceKind
  }

  /** Round up to 8 bytes. */
  function Align8(n: nat): (r: nat)
    ensures n <= r < n + 8 && r % 8 == 0
  {
    (n + 7) / 8 * 8
  }

  /** Allocation size of a request: aligned, and never too small to hold a
      forwarding pointer behind the header. */
  function AllocSize(n: nat): (r: nat)
    ensures n <= r && MIN_OBJECT <= r && r % 8 == 0
    ensures r < n + 8 || r == MIN_OBJECT
  {
    if Align8(n) < MIN_OBJECT then MIN_OBJECT else Align8(n)
  }

  /** Unaligned size of an object: its struct plus the variable-length part. */
  function RawSize(o: Obj): nat {
    match o
    case Pair(_, _) => 24
    case Closure(_, free) => 16 + 8 * |free|
    case Str(chars) => 8 + |chars| + 1
    case Bytes(bytes) => 8 + |bytes|
    case Resource(_, _) => 16
  }

  function Size(o: Obj): (r: nat)
    ensures RawSize(o) <= r && MIN_OBJECT <= r && r % 8 == 0
  {
    AllocSize(RawSize(o))
  }

  /** The values a collector must follow out of an object. */
  function Children(o: Obj): seq<Val> {
    match o
    case Pair(car, cdr) => [car, cdr]
    case Closure(_, free) => free
    case _ => []
  }

  /** Two objects alike but for their children. */
  predicate SameContents(o: Obj, q: Obj) {
    match (o, q)
    case (Pair(_, _), Pair(_, _)) => true
    case (Closure(entry, free), Closure(entry', free')) => entry == entry' && |free| == |free'|
    case (Str(chars), Str(chars')) => chars == chars'
    case (Bytes(bytes), Bytes(bytes')) => bytes == bytes'
    case (Resource(owner, payload), Resource(owner', payload')) => owner == owner' && payload == payload'
    case _ => false
  }

  /** The object with its children replaced. */
  function WithChildren(o: Obj, kids: seq<Val>): (r: Obj)
    requires |kids| == |Children(o)|
    ensures SameContents(o, r)
    ensures Children(r) == kids && KindOf(r) == KindOf(o) && Size(r) == Size(o)
    ensures kids == Children(o) ==> r == o
  {
    match o
    case Pair(_, _) => Pair(kids[0], kids[1])
    case Closure(entry, _) => Closure(entry, kids)
    case _ => o
  }
}
