/** A send and its receive: the message is checked, copied into a fragment, handed
    over to its new owner together with the sender's own headers, and rebuilt in
    the receiver's heap.
 */
module Delivery {
  import opened Heap
  import opened Graph
  import opened Message
  import opened Resource
  import Process

  /** A refused message kills its sender; one to a dead actor is dropped. */
  datatype Fate = Refused | Dropped | Queued

  /** What a message with resources needs to be let through. */
  ghost predicate Admitted(g: Graph, root: Val, sender: Option<nat>, target: nat, t: Tree)
    requires Rep(g, root, t)
  {
    FoundHeaders(g, root, t);
    Sum(t, Headers) == 0 || (sender.Some? && sender.value != target && Sendable(g, Found(g, root, t), sender.value))
  }

  /** A fragment whose headers have a new owner is packed as before. */
  method HandOver(frag: Fragment, root: Val, owner: nat, ghost t: Tree)
    requires frag.Packed() && Rep(frag.data, root, t)
    modifies frag`data
    ensures frag.Packed() && Rep(frag.data, root, Given(t, owner))
    ensures OnlyOwners(old(frag.data), frag.data, Found(old(frag.data), root, t), owner)
  {
    hide Rep, Found, Given, GivenTo;
    ghost var g, found := frag.data, Found(frag.data, root, t);
    GivenFrame(g, found, owner);
    GivenRep(g, found, root, t, owner);
    frag.data := SetOwner(frag.data, root, owner, t);
  }

  /** Send: refuse, drop or queue.  Only a queued message changes owners, in the
      fragment and in the sender's own headers alike. */
  method Send(src: Graph, root: Val, sender: Option<nat>, target: nat, dead: bool, id: nat, ghost t: Tree)
    returns (fate: Fate, need: nat, frag: Fragment, copy: Val, src': Graph)
    requires Rep(src, root, t)
    ensures fate == Refused <==> !Admitted(src, root, sender, target, t)
    ensures fate == Dropped <==> Admitted(src, root, sender, target, t) && dead
    ensures fresh(frag) && need == Sum(t, InFragment)
    ensures fate != Queued ==> src' == src
    ensures fate == Queued ==>
      && frag.Packed() && frag.size <= need == Align8(frag.size) && Rep(frag.data, copy, Given(t, target))
      && src' == GivenTo(src, Found(src, root, t), target) && Rep(src', root, Given(t, target))
      && OnlyOwners(src, src', Found(src, root, t), target) && Alike(src, root, frag.data, copy, t)
  {
    hide Rep, Found, Sum, Given, GivenTo, Sendable, Align8, OnlyOwners, Alike;
    var hasRes;
    need, hasRes := Measured(src, root, InFragment, t);
    frag := new Fragment(id);
    copy, src' := root, src;
    FoundHeaders(src, root, t);
    if hasRes {
      var ok := SendCheck(src, root, sender, target, t);
      if !ok { return Refused, need, frag, copy, src; }
    }
    copy := frag.Copy(src, root, t);
    if dead { return Dropped, need, frag, copy, src; }
    GivenRep(src, Found(src, root, t), root, t, target);
    if hasRes {
      HandOver(frag, copy, target, t);
      src' := SetOwner(src, root, target, t);
    } else {
      GivenNone(t, target);
      NoneFound(src, root, t, target);
      GivenExact(src, Found(src, root, t), target);
    }
    GivenAlike(src, root, frag.data, copy, t, target);
    fate := Queued;
  }

  lemma NoneFound(g: Graph, root: Val, t: Tree, owner: nat)
    requires Rep(g, root, t) && Sum(t, Headers) == 0
    ensures GivenTo(g, Found(g, root, t), owner) == g
  {
    FoundHeaders(g, root, t);
  }

  /** The headers of two lists hold the same payloads, place by place. */
  ghost predicate SamePayloadsFound(g: Graph, found: seq<Ref>, h: Graph, found': seq<Ref>) {
    && |found| == |found'|
    && forall i :: 0 <= i < |found| ==>
         && found[i] in g && g[found[i]].Resource? && found'[i] in h && h[found'[i]].Resource?
         && h[found'[i]].payload == g[found[i]].payload
  }

  lemma PayloadsArrive(g: Graph, v: Val, h: Graph, w: Val, t: Tree, owner: nat)
    requires Rep(g, v, t) && Rep(h, w, Given(t, owner))
    ensures SamePayloadsFound(g, Found(g, v, t), h, Found(h, w, Given(t, owner)))
  {
    hide Rep, Found, Given, Payloads;
    FoundPayloads(g, v, t);
    FoundPayloads(h, w, Given(t, owner));
    GivenPayloads(t, owner);
    var found, found' := Found(g, v, t), Found(h, w, Given(t, owner));
    assert |found| == |PayloadsIn(g, found)| == |PayloadsIn(h, found')| == |found'|;
    forall i | 0 <= i < |found|
      ensures
        && found[i] in g && g[found[i]].Resource? && found'[i] in h && h[found'[i]].Resource?
        && h[found'[i]].payload == g[found[i]].payload
    {
      assert found[i] in found && found'[i] in found' && PayloadsIn(g, found)[i] == PayloadsIn(h, found')[i];
    }
  }

  /** The whole trip.  A queued message arrives exactly when its bytes fit; then
      the receiver sees its own graph unchanged and a value that nothing but owners
      tells from the one sent: the same payloads in the same places, every header
      now the receiver's. */
  method Trip(src: Graph, root: Val, sender: Option<nat>, id: nat, p: Process.Proc, stress: bool, ghost t: Tree)
    returns (fate: Fate, ok: bool, w: Val, src': Graph, ghost f: map<Ref, Ref>)
    requires Rep(src, root, t) && p.Valid() && p.hasMem && p.ccall.None?
    modifies p`memId, p`memSize, p`heapPtr, p`hasTo, p`toId, p`toCap, p`toSize,
             p`slots, p`store, p`objs, p`released, p`gcTrigger, p`gcPending, p`hasMem, p`gcGate
    ensures fate == if Admitted(src, root, sender, p.pid, t) then Queued else Refused
    ensures fate == Refused ==> !ok && src' == src && unchanged(p)
    ensures fate == Queued ==>
      && src' == GivenTo(src, Found(src, root, t), p.pid) && Rep(src', root, Given(t, p.pid))
      && OnlyOwners(src, src', Found(src, root, t), p.pid)
    ensures fate == Queued ==>
      (ok <==> || Sum(t, InHeap) + Process.SLACK <= old(p.memSize) - old(p.heapPtr) + 8 * p.Lo()
               || old(p.heapPtr) + Sum(t, InHeap) + Process.HEADROOM - 8 * p.Lo() <= p.cap)
    ensures ok ==> p.Valid() && Iso(old(p.Objects()), old(p.Stack()), p.Objects(), p.Stack(), f)
    ensures ok ==>
      && Rep(p.Objects(), w, Given(t, p.pid)) && Alike(src, root, p.Objects(), w, t)
      && SamePayloadsFound(src, Found(src, root, t), p.Objects(), Found(p.Objects(), w, Given(t, p.pid)))
      && (forall r :: r in Found(p.Objects(), w, Given(t, p.pid)) ==>
            r in p.Objects() && p.Objects()[r].Resource? && p.Objects()[r].owner == p.pid)
      && (Sum(t, Headers) == 0 ==> Rep(p.Objects(), w, t) && src' == src)
  {
    hide Process.Proc.Valid, Process.Proc.Stack, Process.Proc.Objects, Sum, Rep, Iso, Settled, Align8, Found, Given,
         GivenTo, Admitted, OnlyOwners, Alike, SamePayloadsFound;
    p.BoundedSpaces();
    var need, frag, copy;
    fate, need, frag, copy, src' := Send(src, root, sender, p.pid, false, id, t);
    ok, w, f := false, root, map[];
    if fate == Queued {
      GivenSum(t, p.pid, InHeap);
      ok, w, f := Receive(p, frag.data, copy, stress, Given(t, p.pid));
      if ok {
        GivenOwned(p.Objects(), w, t, p.pid);
        GivenAlike(src, root, p.Objects(), w, t, p.pid);
        PayloadsArrive(src, root, p.Objects(), w, t, p.pid);
      }
      if Sum(t, Headers) == 0 {
        GivenNone(t, p.pid);
        NoneFound(src, root, t, p.pid);
      }
    }
  }
}
