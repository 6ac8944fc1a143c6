/** One actor's mailbox: a singly linked list of fragments with head, tail,
    count and the cursor of a selective receive.

    Every method body is one section under the mailbox lock, so senders may run
    between any two calls.
 */
module Mailbox {
  import opened Heap

  /** A message; `hasRes` says whether it carries a resource. */
  datatype Msg = Msg(id: nat, hasRes: bool)

  class Fragment {
    const msg: Msg
    var next: Fragment?

    constructor (m: Msg)
      ensures msg == m && next == null
    {
      msg, next := m, null;
    }
  }

  /** What fragment i of a list points to. */
  function After(nodes: seq<Fragment>, i: int): Fragment?
    requires 0 <= i < |nodes|
  {
    if i + 1 < |nodes| then nodes[i + 1] else null
  }

  ghost predicate Linked(nodes: seq<Fragment>)
    reads nodes
  {
    && (forall i, j :: 0 <= i < j < |nodes| ==> nodes[i] != nodes[j])
    && (forall i :: 0 <= i < |nodes| ==> nodes[i].next == After(nodes, i))
  }

  /** Relinking the predecessor of fragment k leaves a list without it. */
  lemma Relinked(was: seq<Fragment>, k: int)
    requires 0 < k < |was| && forall i, j :: 0 <= i < j < |was| ==> was[i] != was[j]
    requires forall i :: 0 <= i < |was| ==> was[i].next == After(was, if i == k - 1 then k else i)
    ensures Linked(was[..k] + was[k + 1..])
  {
    var nodes := was[..k] + was[k + 1..];
    forall i | 0 <= i < |nodes| ensures nodes[i].next == After(nodes, i) {
      if i < k - 1 {
        assert was[i].next == After(was, i);
      } else if i >= k {
        assert was[i + 1].next == After(was, i + 1);
      } else {
        assert was[i].next == After(was, k);
      }
    }
    forall i, j | 0 <= i < j < |nodes| ensures nodes[i] != nodes[j] {
      var a, b := if i < k then i else i + 1, if j < k then j else j + 1;
      assert was[a] != was[b];
    }
  }

  lemma TextsWithout(nodes: seq<Fragment>, k: int)
    requires 0 <= k < |nodes|
    ensures Texts(nodes[..k] + nodes[k + 1..]) == Without(Texts(nodes), k)
  {
  }

  lemma HeadText(nodes: seq<Fragment>)
    requires nodes != []
    ensures Texts(nodes)[0] == nodes[0].msg
  {
  }

  lemma TextsAppend(nodes: seq<Fragment>, f: Fragment)
    ensures Texts(nodes + [f]) == Texts(nodes) + [f.msg]
  {
  }

  ghost function Texts(nodes: seq<Fragment>): (s: seq<Msg>)
    ensures |s| == |nodes| && forall i :: 0 <= i < |s| ==> s[i] == nodes[i].msg
  {
    seq(|nodes|, i requires 0 <= i < |nodes| => nodes[i].msg)
  }

  function Without(s: seq<Msg>, k: int): seq<Msg>
    requires 0 <= k < |s|
  {
    s[..k] + s[k + 1..]
  }

  lemma WithoutHead(s: seq<Msg>)
    requires s != []
    ensures Without(s, 0) == s[1..]
  {
  }

  datatype Outcome = Got(m: Msg) | Died | Pending

  /** What senders deliver before a turn of the owner, and between its look at
      a message and its removal. */
  datatype Burst = Burst(before: seq<Msg>, between: seq<Msg>)

  function Joined(bs: seq<Burst>): seq<Msg> {
    if bs == [] then [] else Joined(bs[..|bs| - 1]) + bs[|bs| - 1].before + bs[|bs| - 1].between
  }

  /** Nothing before position n matches or carries a resource. */
  ghost predicate NoStop(s: seq<Msg>, matches: Msg -> bool, n: nat) {
    n <= |s| && forall i :: 0 <= i < n ==> !matches(s[i]) && !s[i].hasRes
  }

  /** The earliest message at which a scan stops. */
  function FirstStop(s: seq<Msg>, matches: Msg -> bool): (k: nat)
    ensures k <= |s| && NoStop(s, matches, k) && (k < |s| ==> matches(s[k]) || s[k].hasRes)
  {
    if s == [] then 0
    else
      var k := FirstStop(s[..|s| - 1], matches);
      if k < |s| - 1 || matches(s[|s| - 1]) || s[|s| - 1].hasRes then k else |s|
  }

  lemma StopsAt(s: seq<Msg>, matches: Msg -> bool, n: nat)
    requires n < |s| && NoStop(s, matches, n) && (matches(s[n]) || s[n].hasRes)
    ensures FirstStop(s, matches) == n
  {
  }

  lemma StopsLate(s: seq<Msg>, matches: Msg -> bool, n: nat)
    requires NoStop(s, matches, n)
    ensures n <= FirstStop(s, matches)
  {
  }

  lemma JoinedNone(s: seq<Msg>, bs: seq<Burst>)
    ensures s + Joined(bs[..0]) == s
  {
  }

  lemma StopStart(s: seq<Msg>, matches: Msg -> bool)
    ensures NoStop(s, matches, 0)
  {
  }

  lemma StopGrows(s: seq<Msg>, matches: Msg -> bool, n: nat, more: seq<Msg>)
    requires NoStop(s, matches, n)
    ensures NoStop(s + more, matches, n)
  {
  }

  lemma JoinedNext(s: seq<Msg>, bs: seq<Burst>, i: nat)
    requires i < |bs|
    ensures s + Joined(bs[..i + 1]) == s + Joined(bs[..i]) + bs[i].before + bs[i].between
  {
    assert bs[..i + 1][..i] == bs[..i];
  }

  // ---- a plain receive in the middle of a scan ----

  /** A scan has looked at the messages before the cursor.  The head is taken and
      `more` arrives: every message not looked at is still at or behind the
      cursor. */
  ghost predicate NoneMissed(s: seq<Msg>, cursor: nat, more: seq<Msg>)
    requires s != []
  {
    forall i {:trigger (s[1..] + more)[i]} :: 0 <= i < |s[1..] + more| && cursor <= i + 1 ==> cursor <= i
  }

  /** Every message stays in sight, whatever arrives later, exactly when the scan
      has not begun.  A scan that had looked at everything loses the next
      arrival. */
  lemma PopKeepsCursor(s: seq<Msg>, cursor: nat)
    requires s != [] && cursor <= |s|
    ensures forall more :: NoneMissed(s, cursor, more) <==> cursor == 0 || (cursor == |s| && more == [])
    ensures (forall more :: NoneMissed(s, cursor, more)) <==> cursor == 0
  {
    forall more ensures NoneMissed(s, cursor, more) <==> cursor == 0 || (cursor == |s| && more == []) {
      var rest := s[1..] + more;
      if cursor > 0 && (cursor < |s| || more != []) { assert rest[cursor - 1] == rest[cursor - 1]; }
    }
    assert NoneMissed(s, cursor, [s[0]]) <==> cursor == 0;
  }

  /** What the scan since the cursor last started over has looked at, which
      message was last, and how many were taken by plain receives since. */
  datatype Scan = Scan(seen: set<Fragment>, last: Fragment?, popped: nat)

  /** Only messages before the cursor were looked at; the last one is as far
      before the cursor as messages were taken since, and holds no resource. */
  ghost predicate Scanned(nodes: seq<Fragment>, peek: nat, scan: Scan) {
    && (forall i :: 0 <= i < |nodes| && nodes[i] in scan.seen ==> i < peek)
    && (scan.last == null <==> peek == 0)
    && (scan.last != null ==> !scan.last.msg.hasRes)
    && (scan.popped < peek ==> peek - 1 - scan.popped < |nodes| && nodes[peek - 1 - scan.popped] == scan.last)
    && (scan.popped >= peek ==> forall i :: 0 <= i < |nodes| ==> nodes[i] != scan.last)
  }

  /** The position a commit removes. */
  function Target(peek: nat): nat { if peek == 0 then 1 else peek - 1 }

  /** The message looked at last is the one a commit removes exactly when no plain
      receive came in between. */
  lemma LastAt(nodes: seq<Fragment>, peek: nat, scan: Scan)
    requires Scanned(nodes, peek, scan) && forall i, j :: 0 <= i < j < |nodes| ==> nodes[i] != nodes[j]
    ensures Target(peek) < |nodes| && nodes[Target(peek)] == scan.last <==> peek > 0 && scan.popped == 0
    ensures peek > 0 && scan.popped == 0 ==> !nodes[peek - 1].msg.hasRes
  {
  }

  /** The scan has looked at exactly the messages before the cursor. */
  ghost predicate Whole(nodes: seq<Fragment>, peek: nat, scan: Scan) {
    && peek <= |nodes|
    && forall i :: 0 <= i < |nodes| ==> (nodes[i] in scan.seen <==> i < peek)
  }

  lemma ScanGrows(nodes: seq<Fragment>, peek: nat, scan: Scan, f: Fragment)
    requires Scanned(nodes, peek, scan) && f !in scan.seen && f != scan.last
    ensures Scanned(nodes + [f], peek, scan)
    ensures Whole(nodes + [f], peek, scan) <==> Whole(nodes, peek, scan)
  {
    var more := nodes + [f];
    assert more[|nodes|] == f && forall i :: 0 <= i < |nodes| ==> more[i] == nodes[i];
  }

  lemma ScanLooks(nodes: seq<Fragment>, peek: nat, scan: Scan)
    requires Scanned(nodes, peek, scan) && peek < |nodes| && !nodes[peek].msg.hasRes
    requires forall i, j :: 0 <= i < j < |nodes| ==> nodes[i] != nodes[j]
    ensures var next := Scan(scan.seen + {nodes[peek]}, nodes[peek], 0);
            Scanned(nodes, peek + 1, next) && (Whole(nodes, peek + 1, next) <==> Whole(nodes, peek, scan))
  {
  }

  /** Taking the head in the middle of a scan breaks it, at the start it does not. */
  lemma ScanPops(nodes: seq<Fragment>, peek: nat, scan: Scan)
    requires Scanned(nodes, peek, scan) && nodes != []
    requires forall i, j :: 0 <= i < j < |nodes| ==> nodes[i] != nodes[j]
    ensures var next := scan.(popped := scan.popped + 1);
            Scanned(nodes[1..], peek, next) && (Whole(nodes[1..], peek, next) <==> peek == 0)
  {
    var rest := nodes[1..];
    assert forall i :: 0 <= i < |rest| ==> rest[i] == nodes[i + 1];
    if 0 < peek <= |rest| { assert rest[peek - 1] == nodes[peek]; }
  }

  // ---- sessions ----

  /** A delivery, or what the owner does: look, take the head, or commit. */
  datatype Op = Send(m: Msg) | Look | Take | Drop

  /** A scan is under way: a look came after the last commit. */
  predicate Scanning(ops: seq<Op>) {
    ops != [] && var op := ops[|ops| - 1]; op.Look? || (!op.Drop? && Scanning(ops[..|ops| - 1]))
  }

  /** No plain receive comes while a scan is under way. */
  predicate Clean(ops: seq<Op>) {
    ops == [] || var rest := ops[..|ops| - 1]; Clean(rest) && !(ops[|ops| - 1].Take? && Scanning(rest))
  }

  lemma SessionStep(ops: seq<Op>, i: nat)
    requires i < |ops|
    ensures Scanning(ops[..i + 1]) <==> ops[i].Look? || (!ops[i].Drop? && Scanning(ops[..i]))
    ensures Clean(ops[..i + 1]) <==> Clean(ops[..i]) && !(ops[i].Take? && Scanning(ops[..i]))
  {
    assert ops[..i + 1][..i] == ops[..i] && ops[..i + 1][i] == ops[i];
  }

  lemma NoSession(ops: seq<Op>)
    ensures !Scanning(ops[..0]) && Clean(ops[..0])
  {
  }

  class Box {
    var head: Fragment?
    var tail: Fragment?
    var count: nat
    var peek: nat
    var waiting: bool

    ghost var nodes: seq<Fragment>
    ghost var scan: Scan
    ghost var repr: set<Fragment>

    /** Head, tail and count describe the same list. */
    ghost predicate Listed()
      reads this`count, this`nodes, this`head, this`tail, this`repr, repr
    {
      && count == |nodes|
      && (forall i :: 0 <= i < |nodes| ==> nodes[i] in repr) && Linked(nodes)
      && head == (if nodes == [] then null else nodes[0])
      && tail == (if nodes == [] then null else nodes[|nodes| - 1])
    }

    /** A waiting actor's cursor is past the last message. */
    ghost predicate Valid()
      reads this, repr
    {
      && Listed() && Scanned(nodes, peek, scan) && scan.seen <= repr && (scan.last != null ==> scan.last in repr)
      && (waiting ==> count <= peek)
    }

    /** No message was passed over: the scan has looked at exactly the messages
        before the cursor. */
    ghost predicate InStep()
      reads this`nodes, this`peek, this`scan
    {
      Whole(nodes, peek, scan)
    }

    ghost predicate Seen(i: int)
      reads this`nodes, this`scan
    {
      0 <= i < |nodes| && nodes[i] in scan.seen
    }

    ghost function Items(): seq<Msg>
      reads this`nodes
    {
      Texts(nodes)
    }

    constructor ()
      ensures Valid() && InStep() && Items() == [] && peek == 0 && !waiting && nodes == [] && repr == {}
      ensures scan == Scan({}, null, 0)
    {
      head, tail, count, peek, waiting, nodes, repr := null, null, 0, 0, false, [], {};
      scan := Scan({}, null, 0);
    }

    lemma Apart()
      requires Listed()
      ensures count == |nodes| && (nodes != [] ==> head == nodes[0] && tail == nodes[|nodes| - 1])
      ensures forall i, j :: 0 <= i < j < |nodes| ==> nodes[i] != nodes[j]
      ensures forall i :: 0 <= i < |nodes| ==> nodes[i] in repr
    {
    }

    /** An actor that waits in step has looked at every message there is. */
    lemma WaitsInStep()
      requires Valid() && InStep() && waiting
      ensures forall i :: 0 <= i < |Items()| ==> Seen(i)
    {
    }

    /** Append a message and wake the owner if it waits. */
    method Deliver(m: Msg) returns (woke: bool)
      requires Valid()
      modifies this, repr
      ensures Valid() && Items() == old(Items()) + [m] && peek == old(peek) && scan == old(scan)
      ensures InStep() <==> old(InStep())
      ensures woke == old(waiting) && !waiting
      ensures nodes[..|old(nodes)|] == old(nodes) && !Seen(|old(nodes)|)
      ensures fresh(repr - old(repr))
    {
      hide Listed, Linked, Scanned, Whole, Texts;
      var f := new Fragment(m);
      Apart();
      ScanGrows(nodes, peek, scan, f);
      TextsAppend(nodes, f);
      Append(f);
      woke := waiting;
      waiting := false;
    }

    method Append(f: Fragment)
      requires Listed() && f !in repr && f.next == null
      modifies this`head, this`tail, this`count, this`nodes, this`repr, repr
      ensures Listed() && nodes == old(nodes) + [f] && repr == old(repr) + {f}
    {
      if tail != null { tail.next := f; } else { head := f; }
      tail := f;
      count := count + 1;
      nodes := nodes + [f];
      repr := repr + {f};
    }

    /** Walk k links from the head. */
    method Walk(k: nat) returns (f: Fragment)
      requires Listed() && k < |nodes|
      ensures f == nodes[k]
    {
      var cur := head;
      var i := 0;
      while i < k
        invariant 0 <= i <= k && cur == nodes[i]
      {
        assert nodes[i].next == After(nodes, i);
        cur := cur.next;
        i := i + 1;
      }
      f := cur;
    }

    /** Look at the message under the cursor.  A message with a resource kills
        the actor; with no message left it waits, keeping the cursor. */
    method Peek() returns (r: Option<Msg>, died: bool)
      requires Valid() && !waiting
      modifies this`peek, this`waiting, this`scan
      ensures Valid() && (InStep() <==> old(InStep()))
      ensures died <==> old(peek) < |Items()| && Items()[old(peek)].hasRes
      ensures died ==> r == None && peek == old(peek) && !waiting && scan == old(scan)
      ensures !died && old(peek) < |Items()| ==>
        && r == Some(Items()[old(peek)]) && peek == old(peek) + 1 && !waiting
        && scan == Scan(old(scan).seen + {nodes[old(peek)]}, nodes[old(peek)], 0)
      ensures old(peek) >= |Items()| ==> r == None && peek == old(peek) && waiting && scan == old(scan)
    {
      hide Listed, Linked, Scanned, Whole;
      Apart();
      if peek < count {
        var f := Walk(peek);
        if f.msg.hasRes { return None, true; }
        ScanLooks(nodes, peek, scan);
        scan := Scan(scan.seen + {f}, f, 0);
        peek := peek + 1;
        return Some(f.msg), false;
      }
      waiting := true;
      return None, false;
    }

    /** Take the head fragment off the list. */
    method Behead()
      requires Listed() && nodes != []
      modifies this`head, this`tail, this`count, this`nodes
      ensures Listed() && nodes == old(nodes)[1..] && Items() == old(Items())[1..]
    {
      assert nodes[0].next == After(nodes, 0);
      head := head.next;
      if head == null { tail := null; }
      ghost var was := nodes;
      nodes := nodes[1..];
      forall i | 0 <= i < |nodes| ensures nodes[i].next == After(nodes, i) {
        assert was[i + 1].next == After(was, i + 1);
      }
      count := count - 1;
    }

    /** Take fragment k > 0 off the list by relinking its predecessor. */
    method Bypass(k: nat)
      requires Listed() && 0 < k < |nodes|
      modifies this`tail, this`count, this`nodes, repr
      ensures Listed() && nodes == old(nodes)[..k] + old(nodes)[k + 1..] && Items() == Without(old(Items()), k)
    {
      hide Texts, Without, Linked;
      Apart();
      TextsWithout(nodes, k);
      var prev, f := Relink(k);
      Unlink(k, prev, f);
    }

    /** Let the predecessor of fragment k point behind it. */
    method Relink(k: nat) returns (prev: Fragment, f: Fragment)
      requires Listed() && 0 < k < |nodes|
      modifies repr
      ensures prev == nodes[k - 1] && f == nodes[k] && Linked(nodes[..k] + nodes[k + 1..])
    {
      prev := Walk(k - 1);
      assert nodes[k - 1].next == After(nodes, k - 1) && nodes[k].next == After(nodes, k);
      assert nodes[k] != nodes[k - 1];
      f := prev.next;
      prev.next := f.next;
      Relinked(nodes, k);
    }

    /** The bookkeeping after fragment k was bypassed. */
    method Unlink(k: nat, prev: Fragment, f: Fragment)
      requires 0 < k < |nodes| == count && prev == nodes[k - 1] && f == nodes[k]
      requires head == nodes[0] && tail == nodes[|nodes| - 1]
      requires forall i :: 0 <= i < |nodes| ==> nodes[i] in repr
      requires forall i, j :: 0 <= i < j < |nodes| ==> nodes[i] != nodes[j]
      requires Linked(nodes[..k] + nodes[k + 1..])
      modifies this`tail, this`count, this`nodes
      ensures Listed() && nodes == old(nodes)[..k] + old(nodes)[k + 1..]
    {
      hide Linked;
      if f == tail { tail := prev; }
      nodes := nodes[..k] + nodes[k + 1..];
      count := count - 1;
    }

    /** Remove the message before the cursor, and start over.  `ok` is false where
        the runtime reads past the end of the list; a commit without a look
        removes the second message. */
    method Commit() returns (ok: bool)
      requires Valid() && !waiting
      modifies this, repr
      ensures ok <==> Target(old(peek)) < |old(nodes)|
      ensures !ok ==> Valid() && unchanged(this)
      ensures ok ==> Valid() && InStep() && peek == 0 && !waiting && Items() == Without(old(Items()), Target(old(peek)))
      ensures ok && old(nodes)[Target(old(peek))] == old(scan).last <==> old(peek) > 0 && old(scan).popped == 0
      ensures old(peek) > 0 && old(scan).popped == 0 ==> ok && !old(Items())[old(peek) - 1].hasRes
      ensures repr == old(repr)
    {
      hide Listed, Linked, Texts, Without;
      var target := Target(peek);
      Apart();
      LastAt(nodes, peek, scan);
      if target >= count { return false; }
      if target == 0 { Behead(); WithoutHead(old(Items())); } else { Bypass(target); }
      Apart();
      peek := 0;
      scan := Scan({}, null, 0);
      ok := true;
    }

    /** recv on a non-empty mailbox: take the head.  The cursor is left alone, so
        a scan that has begun gets out of step. */
    method Pop() returns (m: Msg)
      requires Valid() && nodes != [] && !waiting
      modifies this, repr
      ensures Valid() && old(Items()) == [m] + Items() && peek == old(peek) && !waiting
      ensures scan == old(scan).(popped := old(scan).popped + 1) && nodes == old(nodes)[1..]
      ensures InStep() <==> peek == 0
      ensures repr == old(repr)
    {
      hide Listed, Linked, Scanned, Whole, Texts;
      Apart();
      m := head.msg;
      assert m == Items()[0] by { HeadText(nodes); }
      ScanPops(nodes, peek, scan);
      Behead();
      scan := scan.(popped := scan.popped + 1);
    }

    /** recv on an empty mailbox: wait. */
    method Block() returns (blocked: bool)
      requires Valid() && !waiting
      modifies this`waiting
      ensures Valid() && Items() == old(Items())
      ensures blocked == waiting == (Items() == [])
    {
      blocked := count == 0;
      if blocked { waiting := true; }
    }

    /** A plain receive in the middle of a scan, and what arrives afterwards: a
        message is passed over exactly as `NoneMissed` says. */
    method PopThen(more: seq<Msg>) returns (m: Msg)
      requires Valid() && InStep() && nodes != [] && !waiting
      modifies this, repr
      ensures Valid() && [m] + Items() == old(Items()) + more && peek == old(peek)
      ensures (exists i :: 0 <= i < peek && i < |nodes| && !Seen(i)) <==> !NoneMissed(old(Items()), old(peek), more)
    {
      hide Scanned, Linked, Texts;
      ghost var was, c := nodes, peek;
      m := Pop();
      ghost var rest := nodes;
      DeliverAll(more);
      assert nodes[..|rest|] == rest && scan.seen == old(scan.seen);
      if 0 < c && c - 1 < |nodes| {
        if c - 1 < |rest| { assert nodes[c - 1] == rest[c - 1] == was[c]; }
        assert !Seen(c - 1);
        assert (old(Items())[1..] + more)[c - 1] == (old(Items())[1..] + more)[c - 1];
      } else {
        forall i | 0 <= i < peek && i < |nodes| ensures Seen(i) { assert nodes[i] == rest[i] == was[i + 1]; }
      }
    }

    /** A whole selective receive, with any number of sends before and within each
        turn of the owner.  It takes the earliest message that matches among all that
        have arrived, or dies at an earlier one that carries a resource; it waits only
        when it has looked at every message. */
    method Select(matches: Msg -> bool, arrivals: seq<Burst>) returns (r: Outcome, turns: nat)
      requires Valid() && peek == 0 && !waiting
      modifies this, repr
      ensures Valid() && InStep() && turns <= |arrivals|
      ensures var all := old(Items()) + Joined(arrivals[..turns]);
              match r
              case Got(m) =>
                var k := FirstStop(all, matches);
                k < |all| && all[k] == m && matches(m) && !m.hasRes && Items() == Without(all, k) && peek == 0
              case Died =>
                var k := FirstStop(all, matches);
                k < |all| && all[k].hasRes && Items() == all
              case Pending =>
                && turns == |arrivals| && Items() == all && peek <= FirstStop(all, matches)
                && (waiting ==> peek == FirstStop(all, matches) == |all| && forall i :: 0 <= i < |all| ==> Seen(i))
    {
      hide Valid, InStep, Seen, Texts, FirstStop, Joined, NoStop, Without;
      r := Pending;
      var i := 0;
      ghost var first := Items();
      JoinedNone(first, arrivals);
      StopStart(first, matches);
      StartsInStep();
      while i < |arrivals|
        invariant 0 <= i <= |arrivals| && Valid() && InStep() && r == Pending
        invariant Items() == first + Joined(arrivals[..i])
        invariant peek <= |Items()| && NoStop(Items(), matches, peek)
        invariant waiting ==> peek == |Items()|
        invariant fresh(repr - old(repr))
      {
        StopGrows(Items(), matches, peek, arrivals[i].before);
        DeliverAll(arrivals[i].before);
        JoinedNext(first, arrivals, i);
        if !waiting {
          r := Turn(matches, arrivals[i].between);
          if r != Pending { return r, i + 1; }
        } else {
          StopGrows(Items(), matches, peek, arrivals[i].between);
          DeliverAll(arrivals[i].between);
        }
        i := i + 1;
      }
      assert arrivals[..i] == arrivals;
      turns := i;
      StopsLate(Items(), matches, peek);
      if waiting { WaitsInStep(); }
    }

    /** Any session of deliveries and owner steps, up to a death, a bad commit or an
        owner step while it waits.  Without a plain receive in the middle of a scan
        no message is ever passed over, and a waiting owner has looked at all. */
    method Serve(ops: seq<Op>) returns (done: nat)
      requires Valid() && peek == 0 && !waiting
      modifies this, repr
      ensures Valid() && done <= |ops|
      ensures Clean(ops[..done]) ==> InStep() && (waiting ==> forall i :: 0 <= i < |Items()| ==> Seen(i))
    {
      hide Valid, InStep, Seen, Texts, Scanning, Clean;
      StartsInStep();
      done := 0;
      NoSession(ops);
      while done < |ops|
        invariant 0 <= done <= |ops| && Valid()
        invariant Clean(ops[..done]) ==> InStep() && (!Scanning(ops[..done]) ==> peek == 0)
        invariant fresh(repr - old(repr))
      {
        SessionStep(ops, done);
        if ops[done].Send? {
          var woke := Deliver(ops[done].m);
        } else if waiting {
          break;
        } else {
          var ok := Act(ops[done]);
          if !ok { break; }
        }
        done := done + 1;
      }
      if Clean(ops[..done]) && waiting { WaitsInStep(); }
    }

    /** One step of the owner; `ok` is false when it dies or a commit goes wrong. */
    method Act(op: Op) returns (ok: bool)
      requires Valid() && !waiting && !op.Send?
      modifies this, repr
      ensures Valid() && repr == old(repr)
      ensures !ok || op.Look? ==> (InStep() <==> old(InStep()))
      ensures ok && op.Take? ==> peek == old(peek) && (peek == 0 ==> InStep())
      ensures ok && op.Drop? ==> peek == 0 && InStep()
    {
      hide Listed, Linked, Scanned, Whole, Texts;
      ok := true;
      if op.Look? {
        var m, died := Peek();
        ok := !died;
      } else if op.Drop? {
        ok := Commit();
      } else {
        Apart();
        var blocked := Block();
        if !blocked { var m := Pop(); } else if peek == 0 { StartsInStep(); }
      }
    }

    lemma StartsInStep()
      requires Valid() && peek == 0
      ensures InStep() && peek <= |Items()|
    {
    }

    /** One turn of the owner: look at the next message and decide. */
    method Turn(matches: Msg -> bool, between: seq<Msg>) returns (r: Outcome)
      requires Valid() && InStep() && !waiting && peek <= |Items()| && NoStop(Items(), matches, peek)
      modifies this, repr
      ensures Valid() && InStep() && fresh(repr - old(repr))
      ensures var all := old(Items()) + between;
              match r
              case Got(m) =>
                var k := FirstStop(all, matches);
                k < |all| && all[k] == m && matches(m) && !m.hasRes && Items() == Without(all, k) && peek == 0
              case Died =>
                var k := FirstStop(all, matches);
                k < |all| && all[k].hasRes && Items() == all
              case Pending =>
                Items() == all && peek <= |all| && NoStop(all, matches, peek) && (waiting ==> peek == |all|)
    {
      hide Linked, Scanned, Whole, Texts, FirstStop, Without;
      ghost var at, all := peek, Items() + between;
      var m, died := Peek();
      DeliverAll(between);
      if died {
        StopsAt(all, matches, at);
        return Died;
      }
      if m.Some? && matches(m.value) {
        StopsAt(all, matches, at);
        var ok := Commit();
        return Got(m.value);
      }
      return Pending;
    }

    method DeliverAll(ms: seq<Msg>)
      requires Valid()
      modifies this, repr
      ensures Valid() && Items() == old(Items()) + ms && peek == old(peek) && scan == old(scan)
      ensures InStep() <==> old(InStep())
      ensures waiting ==> old(waiting) && ms == []
      ensures ms == [] ==> waiting == old(waiting)
      ensures nodes[..|old(nodes)|] == old(nodes) && forall i :: |old(nodes)| <= i < |nodes| ==> !Seen(i)
      ensures fresh(repr - old(repr))
    {
      hide Linked, Scanned, Whole, Texts;
      var i := 0;
      while i < |ms|
        invariant 0 <= i <= |ms| && Valid() && Items() == old(Items()) + ms[..i] && peek == old(peek)
          && scan == old(scan)
        invariant InStep() <==> old(InStep())
        invariant waiting ==> old(waiting) && i == 0
        invariant i == 0 ==> waiting == old(waiting)
        invariant |old(nodes)| <= |nodes| && nodes[..|old(nodes)|] == old(nodes)
        invariant forall k :: |old(nodes)| <= k < |nodes| ==> !Seen(k)
        invariant fresh(repr - old(repr))
      {
        ghost var was := nodes;
        forall k | |old(nodes)| <= k < |was| ensures was[k] !in scan.seen { assert !Seen(k); }
        var woke := Deliver(ms[i]);
        assert forall k :: 0 <= k < |was| ==> nodes[k] == nodes[..|was|][k] == was[k];
        assert nodes[..|old(nodes)|] == was[..|old(nodes)|];
        forall k | |old(nodes)| <= k < |nodes| ensures !Seen(k) { assert k < |was| ==> nodes[k] == was[k]; }
        i := i + 1;
      }
    }
  }

  // ---- runs that mix the two kinds of receive ----

  /** Three messages, a look, a plain receive and a look: the second message is
      still there and the scan has gone past it. */
  method LookTakeLook(a: Msg, b: Msg, c: Msg) returns (box: Box, r: Option<Msg>)
    requires !a.hasRes && !c.hasRes
    ensures box.Valid() && box.Items() == [b, c] && r == Some(c) && box.peek == 2 && !box.Seen(0)
  {
    hide Scanned, Whole, Linked, Texts;
    box := new Box();
    box.DeliverAll([a, b, c]);
    box.Apart();
    var x, died := box.Peek();
    var m := box.Pop();
    r, died := box.Peek();
  }

  /** One message, a look and a plain receive; then another message arrives.  The
      next look puts the actor to sleep on a message it has never looked at. */
  method SleepsOnMessage(a: Msg, b: Msg) returns (box: Box, r: Option<Msg>)
    requires !a.hasRes
    ensures box.Valid() && box.Items() == [b] && r == None && box.waiting && !box.Seen(0)
  {
    hide Scanned, Whole, Linked, Texts;
    box := new Box();
    box.DeliverAll([a]);
    var x, died := box.Peek();
    var m := box.Pop();
    box.DeliverAll([b]);
    r, died := box.Peek();
  }

  /** A look, a plain receive and a commit: the commit drops a message that was
      never looked at, even one that carries a resource. */
  method CommitDropsOther(a: Msg, b: Msg) returns (box: Box, ok: bool)
    requires !a.hasRes
    ensures ok && box.Valid() && box.Items() == []
  {
    hide Scanned, Whole, Linked, Texts;
    box := new Box();
    box.DeliverAll([a, b]);
    var x, died := box.Peek();
    var m := box.Pop();
    ok := box.Commit();
  }

  /** With one message the same commit reads past the end of the list. */
  method CommitPastEnd(a: Msg) returns (box: Box, ok: bool)
    requires !a.hasRes
    ensures !ok && box.Valid() && box.Items() == []
  {
    hide Scanned, Whole, Linked, Texts;
    box := new Box();
    box.DeliverAll([a]);
    var x, died := box.Peek();
    var m := box.Pop();
    ok := box.Commit();
  }
}
