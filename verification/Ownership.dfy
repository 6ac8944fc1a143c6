/** The ownership protocol of C resources as a state machine.

    Every holder of a resource has its own header; the payload behind the
    headers is shared.  A header is owned when its owner field names the actor
    that holds it.  One step is one section that no other thread can observe
    half done.
 */
module Ownership {
  import opened Heap

  /** Life of an actor.  A swept one was marked dead without a funeral and
      waits for teardown. */
  datatype Phase = Alive | Marked | Drained | Swept | Gone

  /** A header in its holder's heap, or in message `msg` of its mailbox. */
  datatype Header = Header(holder: nat, msg: Option<nat>, owner: nat, res: Option<nat>)

  /** `runs` counts destructor runs per payload; `next` is above every name in
      use, so it supplies fresh pids, payloads, messages and headers. */
  datatype State = State(procs: map<nat, Phase>, headers: map<nat, Header>, runs: map<nat, nat>, next: nat,
                         stopped: bool)

  datatype Action =
    | Create(p: nat)
    | Close(p: nat, h: nat)
    | Collect(p: nat, live: set<nat>)
    | Send(p: nat, q: nat, hs: seq<nat>)
    | Receive(p: nat, msg: nat)
    | Commit(p: nat, msg: nat)
    | Spawn(p: nat, hs: seq<nat>)
    | DieMark(p: nat)
    | DieDrain(p: nat)
    | DieHeap(p: nat)
    | Sweep(p: nat)
    | Stop
    | Teardown(p: nat)

  predicate Is(s: State, p: nat, ph: Phase) { p in s.procs && s.procs[p] == ph }

  /** Header h lies in the heap of p. */
  predicate InHeap(s: State, h: nat, p: nat) {
    h in s.headers && s.headers[h].holder == p && s.headers[h].msg == None
  }

  predicate InMail(s: State, h: nat, p: nat) {
    h in s.headers && s.headers[h].holder == p && s.headers[h].msg.Some?
  }

  /** What a send or a spawn demands of the resources it carries: all owned by
      the sender, and no payload twice. */
  ghost predicate Carriable(s: State, p: nat, hs: seq<nat>) {
    && (forall i :: 0 <= i < |hs| ==> hs[i] in s.headers && s.headers[hs[i]].owner == p)
    && (forall i, j :: 0 <= i < j < |hs| && s.headers[hs[i]].res.Some? ==> s.headers[hs[i]].res != s.headers[hs[j]].res)
  }

  // ---- releasing ----

  /** The headers of `gone` that make `p` run a destructor on payload x. */
  ghost function Runners(s: State, p: nat, gone: set<nat>, x: nat): set<nat> {
    set h | h in gone && h in s.headers && s.headers[h].owner == p && s.headers[h].res == Some(x)
  }

  /** Run the destructors of the payloads that `p` owns among `gone`. */
  ghost function Run(s: State, p: nat, gone: set<nat>): map<nat, nat> {
    map x | x in s.runs :: s.runs[x] + |Runners(s, p, gone, x)|
  }

  /** Release and drop headers. */
  ghost function Drop(s: State, p: nat, gone: set<nat>): State {
    s.(headers := s.headers - gone, runs := Run(s, p, gone))
  }

  ghost function HeapOf(s: State, p: nat): set<nat> { set h | h in s.headers && InHeap(s, h, p) }

  ghost function MailOf(s: State, p: nat): set<nat> { set h | h in s.headers && InMail(s, h, p) }

  /** The headers of one message in the mailbox of p. */
  ghost function MessageOf(s: State, p: nat, msg: nat): set<nat> {
    set h | h in s.headers && s.headers[h].holder == p && s.headers[h].msg == Some(msg)
  }

  /** What a commit asks of the message it drops.  One that was looked at holds no
      header at all; see `CommitExact` for the converse. */
  ghost predicate NothingOwned(s: State, p: nat, msg: nat) {
    forall h, x :: h in MessageOf(s, p, msg) ==> !Owned(s, h, x)
  }

  /** Drop a message without running a destructor. */
  ghost function Forget(s: State, p: nat, msg: nat): State { s.(headers := s.headers - MessageOf(s, p, msg)) }

  /** Copies of the headers hs, one per occurrence, for the actor c. */
  ghost function Copies(s: State, hs: seq<nat>, c: nat, msg: Option<nat>, owner: nat, at: nat): map<nat, Header>
    requires forall i :: 0 <= i < |hs| ==> hs[i] in s.headers
  {
    map k: nat | at <= k < at + |hs| :: Copy(s, hs, c, msg, owner, at, k)
  }

  function Copy(s: State, hs: seq<nat>, c: nat, msg: Option<nat>, owner: nat, at: nat, k: nat): Header
    requires at <= k < at + |hs| && hs[k - at] in s.headers
  {
    Header(c, msg, owner, s.headers[hs[k - at]].res)
  }

  /** Give the headers hs to actor c: their own owner fields and those of the
      copies change together. */
  ghost function Handover(s: State, hs: seq<nat>, c: nat, msg: Option<nat>, at: nat): map<nat, Header>
    requires forall i :: 0 <= i < |hs| ==> hs[i] in s.headers
  {
    (map h | h in s.headers :: if h in hs then s.headers[h].(owner := c) else s.headers[h])
        + Copies(s, hs, c, msg, c, at)
  }

  // ---- steps ----

  ghost predicate Enabled(s: State, a: Action) {
    match a
    case Create(p) => !s.stopped && Is(s, p, Alive)
    case Close(p, h) => !s.stopped && Is(s, p, Alive) && InHeap(s, h, p)
    case Collect(p, live) => !s.stopped && (Is(s, p, Alive) || Is(s, p, Marked)) && live <= HeapOf(s, p)
    case Send(p, q, hs) => !s.stopped && Is(s, p, Alive) && forall i :: 0 <= i < |hs| ==> InHeap(s, hs[i], p)
    case Receive(p, msg) => !s.stopped && Is(s, p, Alive)
    case Commit(p, msg) => !s.stopped && Is(s, p, Alive) && NothingOwned(s, p, msg)
    case Spawn(p, hs) => !s.stopped && Is(s, p, Alive) && forall i :: 0 <= i < |hs| ==> InHeap(s, hs[i], p)
    case DieMark(p) => !s.stopped && Is(s, p, Alive)
    case DieDrain(p) => !s.stopped && Is(s, p, Marked)
    case DieHeap(p) => !s.stopped && Is(s, p, Drained)
    case Sweep(p) => !s.stopped && Is(s, p, Alive)
    case Stop => !s.stopped && forall p :: p in s.procs ==> s.procs[p] in {Alive, Swept, Gone}
    case Teardown(p) => s.stopped && (Is(s, p, Alive) || Is(s, p, Swept))
  }

  /** Copies made before a forbidden resource was met: they keep the parent as
      owner, so the stillborn child cannot release them. */
  ghost function Partial(s: State, p: nat, hs: seq<nat>): (k: nat)
    requires forall i :: 0 <= i < |hs| ==> hs[i] in s.headers
    ensures k <= |hs| && Carriable(s, p, hs[..k])
    ensures k < |hs| ==> !Carriable(s, p, hs[..k + 1])
  {
    if Carriable(s, p, hs) then
      assert hs[..|hs|] == hs;
      |hs|
    else
      assert hs != [];
      var k := Partial(s, p, hs[..|hs| - 1]);
      assert hs[..|hs| - 1][..k] == hs[..k];
      assert k == |hs| - 1 ==> hs[..k + 1] == hs;
      assert k < |hs| - 1 ==> hs[..|hs| - 1][..k + 1] == hs[..k + 1];
      k
  }

  ghost function Apply(s: State, a: Action): State
    requires Enabled(s, a)
  {
    match a
    case Create(p) =>
      s.(headers := s.headers[s.next := Header(p, None, p, Some(s.next))], runs := s.runs[s.next := 0],
        next := s.next + 1)
    case Close(p, h) =>
      if s.headers[h].owner != p then s
      else s.(headers := s.headers[h := s.headers[h].(res := None)], runs := Run(s, p, {h}))
    case Collect(p, live) => Drop(s, p, HeapOf(s, p) - live)
    case Send(p, q, hs) =>
      if hs == [] || p == q || !Carriable(s, p, hs) || !Is(s, q, Alive) then s
      else s.(headers := Handover(s, hs, q, Some(s.next), s.next + 1), next := s.next + 1 + |hs|)
    case Receive(p, msg) =>
      s.(headers := map h | h in s.headers ::
           if s.headers[h].holder == p && s.headers[h].msg == Some(msg) then s.headers[h].(msg := None)
               else s.headers[h])
    case Commit(p, msg) => Forget(s, p, msg)
    case Spawn(p, hs) =>
      var c := s.next;
      if Carriable(s, p, hs) then
        s.(procs := s.procs[c := Alive], headers := Handover(s, hs, c, None, c + 1), next := c + 1 + |hs|)
      else
        var k := Partial(s, p, hs);
        s.(procs := s.procs[c := Marked], headers := s.headers + Copies(s, hs[..k], c, None, p, c + 1),
           next := c + 1 + k)
    case DieMark(p) => s.(procs := s.procs[p := Marked])
    case DieDrain(p) => Drop(s, p, MailOf(s, p)).(procs := s.procs[p := Drained])
    case DieHeap(p) => Drop(s, p, HeapOf(s, p)).(procs := s.procs[p := Gone])
    case Sweep(p) => s.(procs := s.procs[p := Swept])
    case Stop => s.(stopped := true)
    case Teardown(p) => Drop(s, p, MailOf(s, p) + HeapOf(s, p)).(procs := s.procs[p := Gone])
  }

  // ---- the invariant ----

  predicate Owned(s: State, h: nat, x: nat) {
    h in s.headers && s.headers[h].owner == s.headers[h].holder && s.headers[h].res == Some(x)
  }

  /** Names in use are below `next`. */
  ghost predicate Named(s: State) {
    && (forall p :: p in s.procs ==> p < s.next)
    && (forall x :: x in s.runs ==> x < s.next)
    && (forall h :: h in s.headers ==>
          && h < s.next && s.headers[h].holder in s.procs && s.headers[h].owner in s.procs
          && (s.headers[h].res.Some? ==> s.headers[h].res.value in s.runs))
  }

  /** Dead actors hold nothing. */
  ghost predicate Placed(s: State) {
    && (forall h :: h in s.headers ==> !Is(s, s.headers[h].holder, Gone))
    && (forall h :: h in s.headers && s.headers[h].msg.Some? ==> !Is(s, s.headers[h].holder, Drained))
  }

  /** An owned header refers to a live payload, and no other owned header does. */
  ghost predicate Unique(s: State) {
    && (forall h, x :: Owned(s, h, x) ==> x in s.runs && s.runs[x] == 0)
    && (forall h, k, x :: Owned(s, h, x) && Owned(s, k, x) ==> h == k)
  }

  /** Every payload is live and owned, or its destructor ran once. */
  ghost predicate Accounted(s: State) {
    forall x :: x in s.runs ==> s.runs[x] == 1 || (s.runs[x] == 0 && exists h :: Owned(s, h, x))
  }

  ghost predicate Inv(s: State) { Named(s) && Placed(s) && Unique(s) && Accounted(s) }

  // ---- every step keeps it ----

  lemma CreateKeeps(s: State, p: nat)
    requires Inv(s) && Enabled(s, Create(p))
    ensures Inv(Apply(s, Create(p)))
  {
    var t := Apply(s, Create(p));
    forall h, x | Owned(t, h, x) && h != s.next ensures Owned(s, h, x) { }
    assert Owned(t, s.next, s.next);
    forall x | x in s.runs && s.runs[x] == 0 ensures exists h :: Owned(t, h, x) {
      var h :| Owned(s, h, x);
      assert Owned(t, h, x);
    }
  }

  /** At most one header of an actor's own can run a given destructor. */
  lemma RunnersFew(s: State, p: nat, gone: set<nat>, x: nat)
    requires Unique(s) && forall h :: h in gone && h in s.headers ==> s.headers[h].holder == p
    ensures |Runners(s, p, gone, x)| <= 1
    ensures |Runners(s, p, gone, x)| == 1 <==> exists h :: h in gone && Owned(s, h, x)
  {
    var rs := Runners(s, p, gone, x);
    if h :| h in rs {
      forall k | k in rs ensures k == h { assert Owned(s, h, x) && Owned(s, k, x); }
      assert rs == {h};
      assert Owned(s, h, x);
    } else {
      assert rs == {} && forall h :: h in gone && Owned(s, h, x) ==> h in rs;
    }
  }

  /** Releasing and dropping headers of one actor. */
  lemma DropKeeps(s: State, p: nat, gone: set<nat>, t: State)
    requires Unique(s) && Accounted(s) && Named(s)
    requires forall h :: h in gone && h in s.headers ==> s.headers[h].holder == p
    requires t.headers == s.headers - gone && t.runs == Run(s, p, gone)
    ensures Unique(t) && Accounted(t)
  {
    forall h, x | Owned(t, h, x) ensures Owned(s, h, x) && x in t.runs && t.runs[x] == 0 {
      assert Owned(s, h, x);
      RunnersFew(s, p, gone, x);
    }
    forall x | x in t.runs ensures t.runs[x] == 1 || (t.runs[x] == 0 && exists h :: Owned(t, h, x)) {
      RunnersFew(s, p, gone, x);
      if s.runs[x] == 0 {
        var h :| Owned(s, h, x);
        if h !in gone { assert Owned(t, h, x); }
      }
    }
  }

  lemma CloseKeeps(s: State, p: nat, h: nat)
    requires Inv(s) && Enabled(s, Close(p, h))
    ensures Inv(Apply(s, Close(p, h)))
  {
    var t := Apply(s, Close(p, h));
    if s.headers[h].owner == p {
      forall k: nat, x: nat | Owned(t, k, x) ensures Owned(s, k, x) && x in t.runs && t.runs[x] == 0 {
        assert Owned(s, k, x) && k != h;
        RunnersFew(s, p, {h}, x);
      }
      forall x | x in t.runs ensures t.runs[x] == 1 || (t.runs[x] == 0 && exists k :: Owned(t, k, x)) {
        RunnersFew(s, p, {h}, x);
        if s.runs[x] == 0 {
          var k :| Owned(s, k, x);
          if k != h { assert Owned(t, k, x); }
        }
      }
    }
  }

  lemma DropNamed(s: State, p: nat, gone: set<nat>, t: State)
    requires Named(s) && t.headers == s.headers - gone && t.runs == Run(s, p, gone)
    requires t.procs.Keys == s.procs.Keys && t.next == s.next
    ensures Named(t)
  {
  }

  /** The headers a step drops. */
  ghost function Discarded(s: State, a: Action): set<nat>
    requires a.Collect? || a.DieDrain? || a.DieHeap? || a.Teardown?
  {
    match a
    case Collect(p, live) => HeapOf(s, p) - live
    case DieDrain(p) => MailOf(s, p)
    case DieHeap(p) => HeapOf(s, p)
    case Teardown(p) => MailOf(s, p) + HeapOf(s, p)
  }

  /** The steps that only release and drop. */
  lemma DroppingKeeps(s: State, a: Action)
    requires Inv(s) && Enabled(s, a) && (a.Collect? || a.DieDrain? || a.DieHeap? || a.Teardown?)
    ensures Inv(Apply(s, a))
  {
    hide Unique, Accounted, Named, Run;
    var p, gone, t := a.p, Discarded(s, a), Apply(s, a);
    assert t.headers == s.headers - gone && t.runs == Run(s, p, gone);
    DropKeeps(s, p, gone, t);
    DropNamed(s, p, gone, t);
  }

  /** A commit frees its message without releasing anything: the invariant survives
      if and only if no header in the message owns a live payload. */
  lemma CommitExact(s: State, p: nat, msg: nat)
    requires Inv(s)
    ensures Inv(Forget(s, p, msg)) <==> NothingOwned(s, p, msg)
  {
    var t, gone := Forget(s, p, msg), MessageOf(s, p, msg);
    assert forall h, x :: Owned(t, h, x) <==> Owned(s, h, x) && h !in gone;
    if NothingOwned(s, p, msg) {
      forall x | x in t.runs && t.runs[x] == 0 ensures exists h :: Owned(t, h, x) {
        var h :| Owned(s, h, x);
        assert Owned(t, h, x);
      }
    } else {
      var h, x :| h in gone && Owned(s, h, x);
      assert x in t.runs && t.runs[x] == 0 && !(exists k :: Owned(t, k, x));
    }
  }

  lemma CommitIs(s: State, p: nat, msg: nat)
    requires Enabled(s, Commit(p, msg))
    ensures Apply(s, Commit(p, msg)) == Forget(s, p, msg)
  {
  }

  /** The steps that change no header's owner or payload. */
  lemma QuietKeeps(s: State, a: Action)
    requires Inv(s) && Enabled(s, a) && (a.Receive? || a.DieMark? || a.Sweep? || a.Stop?)
    ensures Inv(Apply(s, a))
  {
    var t := Apply(s, a);
    forall h, x ensures Owned(t, h, x) <==> Owned(s, h, x) { }
    forall x | x in s.runs && s.runs[x] == 0 ensures exists h :: Owned(t, h, x) {
      var h :| Owned(s, h, x);
      assert Owned(t, h, x);
    }
  }

  /** Ownership moves as a whole: the old headers lose it, the copies have it. */
  lemma HandoverOwned(s: State, p: nat, hs: seq<nat>, c: nat, msg: Option<nat>, at: nat, t: State, h: nat, x: nat)
    requires Named(s) && Carriable(s, p, hs) && p != c && at >= s.next
    requires forall i :: 0 <= i < |hs| ==> hs[i] in s.headers && s.headers[hs[i]].holder == p
    requires t.headers == Handover(s, hs, c, msg, at) && t.runs == s.runs
    ensures Owned(t, h, x) <==>
            if at <= h < at + |hs| then s.headers[hs[h - at]].res == Some(x) else h !in hs && Owned(s, h, x)
  {
    if at <= h < at + |hs| {
      assert t.headers[h] == Copy(s, hs, c, msg, c, at, h);
    }
  }

  lemma HandoverKeeps(s: State, p: nat, hs: seq<nat>, c: nat, msg: Option<nat>, at: nat, t: State)
    requires Unique(s) && Accounted(s) && Named(s) && Carriable(s, p, hs) && p != c && at >= s.next
    requires forall i :: 0 <= i < |hs| ==> hs[i] in s.headers && s.headers[hs[i]].holder == p
    requires t.headers == Handover(s, hs, c, msg, at) && t.runs == s.runs
    ensures Unique(t) && Accounted(t)
  {
    hide Handover;
    forall h: nat, x: nat ensures Owned(t, h, x) <==>
            if at <= h < at + |hs| then s.headers[hs[h - at]].res == Some(x) else h !in hs && Owned(s, h, x)
    {
      HandoverOwned(s, p, hs, c, msg, at, t, h, x);
    }
    forall h: nat, x: nat | Owned(t, h, x) ensures x in t.runs && t.runs[x] == 0 {
      if at <= h < at + |hs| { assert Owned(s, hs[h - at], x); }
    }
    forall h: nat, k: nat, x: nat | Owned(t, h, x) && Owned(t, k, x) ensures h == k {
      var h', k' := Before(hs, at, h), Before(hs, at, k);
      assert Owned(s, h', x) && Owned(s, k', x);
      assert h' == k';
    }
    forall x | x in s.runs && s.runs[x] == 0 ensures exists h :: Owned(t, h, x) {
      var h :| Owned(s, h, x);
      if h in hs {
        var i :| 0 <= i < |hs| && hs[i] == h;
        assert Owned(t, at + i, x);
      } else {
        assert Owned(t, h, x);
      }
    }
  }

  /** The header that owned what h owns now. */
  function Before(hs: seq<nat>, at: nat, h: nat): nat { if at <= h < at + |hs| then hs[h - at] else h }

  lemma HandoverNamed(s: State, hs: seq<nat>, c: nat, msg: Option<nat>, at: nat, t: State)
    requires Named(s) && Placed(s) && at >= s.next && t.next == at + |hs| && c < at && t.runs == s.runs
    requires forall i :: 0 <= i < |hs| ==> hs[i] in s.headers
    requires t.headers == Handover(s, hs, c, msg, at)
    requires t.procs == s.procs[c := Alive] && (c in s.procs ==> s.procs[c] == Alive)
    ensures Named(t) && Placed(t)
  {
    forall h | h in t.headers
      ensures h < t.next && t.headers[h].holder in t.procs && t.headers[h].owner in t.procs
      ensures t.headers[h].res.Some? ==> t.headers[h].res.value in t.runs
      ensures !Is(t, t.headers[h].holder, Gone) && (t.headers[h].msg.Some? ==> !Is(t, t.headers[h].holder, Drained))
    {
      if at <= h < at + |hs| { assert t.headers[h] == Copy(s, hs, c, msg, c, at, h); }
    }
  }

  lemma SendKeeps(s: State, p: nat, q: nat, hs: seq<nat>)
    requires Inv(s) && Enabled(s, Send(p, q, hs))
    ensures Inv(Apply(s, Send(p, q, hs)))
  {
    hide Unique, Accounted, Named, Placed, Carriable, Handover;
    var t := Apply(s, Send(p, q, hs));
    if hs != [] && p != q && Carriable(s, p, hs) && Is(s, q, Alive) {
      SendNames(s, p, q);
      assert t.procs == s.procs[q := Alive];
      HandoverKeeps(s, p, hs, q, Some(s.next), s.next + 1, t);
      HandoverNamed(s, hs, q, Some(s.next), s.next + 1, t);
    }
  }

  lemma SendNames(s: State, p: nat, q: nat)
    requires Named(s) && p in s.procs && q in s.procs
    ensures p < s.next && q < s.next && s.next !in s.procs
  {
  }

  lemma SpawnKeeps(s: State, p: nat, hs: seq<nat>)
    requires Inv(s) && Enabled(s, Spawn(p, hs)) && Carriable(s, p, hs)
    ensures Inv(Apply(s, Spawn(p, hs)))
  {
    hide Unique, Accounted, Named, Placed, Carriable, Handover;
    SendNames(s, p, p);
    var t := Apply(s, Spawn(p, hs));
    HandoverKeeps(s, p, hs, s.next, None, s.next + 1, t);
    HandoverNamed(s, hs, s.next, None, s.next + 1, t);
  }

  /** A spawn that fails half way leaves no owned copy behind. */
  lemma FailedSpawnKeeps(s: State, p: nat, hs: seq<nat>)
    requires Inv(s) && Enabled(s, Spawn(p, hs)) && !Carriable(s, p, hs)
    ensures Inv(Apply(s, Spawn(p, hs)))
  {
    hide Unique, Accounted, Named, Placed, Carriable, Copies;
    SendNames(s, p, p);
    PartialKeeps(s, p, hs[..Partial(s, p, hs)], Apply(s, Spawn(p, hs)));
  }

  lemma PartialKeeps(s: State, p: nat, hs: seq<nat>, t: State)
    requires Inv(s) && p in s.procs && p < s.next && forall i :: 0 <= i < |hs| ==> hs[i] in s.headers
    requires t.headers == s.headers + Copies(s, hs, s.next, None, p, s.next + 1) && t.runs == s.runs
    requires t.procs == s.procs[s.next := Marked] && t.next == s.next + 1 + |hs|
    ensures Inv(t)
  {
    var at := s.next + 1;
    forall h | h in t.headers
      ensures if at <= h < at + |hs| then t.headers[h] == Copy(s, hs, s.next, None, p, at, h)
              else h in s.headers && t.headers[h] == s.headers[h]
    {
    }
    forall h: nat, x: nat ensures Owned(t, h, x) <==> Owned(s, h, x) { }
    forall x | x in s.runs && s.runs[x] == 0 ensures exists h :: Owned(t, h, x) {
      var h :| Owned(s, h, x);
      assert Owned(t, h, x);
    }
  }

  /** Every step keeps the invariant. */
  lemma StepKeeps(s: State, a: Action)
    requires Inv(s) && Enabled(s, a)
    ensures Inv(Apply(s, a))
  {
    hide Inv, Apply;
    match a
    case Create(p) => CreateKeeps(s, p);
    case Close(p, h) => CloseKeeps(s, p, h);
    case Send(p, q, hs) => SendKeeps(s, p, q, hs);
    case Spawn(p, hs) => if Carriable(s, p, hs) { SpawnKeeps(s, p, hs); } else { FailedSpawnKeeps(s, p, hs); }
    case Collect(_, _) => DroppingKeeps(s, a);
    case DieDrain(_) => DroppingKeeps(s, a);
    case DieHeap(_) => DroppingKeeps(s, a);
    case Teardown(_) => DroppingKeeps(s, a);
    case Commit(p, msg) =>
      CommitExact(s, p, msg);
      CommitIs(s, p, msg);
    case _ => QuietKeeps(s, a);
  }

  // ---- runs ----

  /** One entry actor, nothing created yet. */
  function Start(): State { State(map[0 := Alive], map[], map[], 1, false) }

  ghost predicate Runs(s: State, acts: seq<Action>, t: State)
    decreases |acts|
  {
    if acts == [] then s == t else Enabled(s, acts[0]) && Runs(Apply(s, acts[0]), acts[1..], t)
  }

  lemma {:induction false} RunKeeps(s: State, acts: seq<Action>, t: State)
    requires Inv(s) && Runs(s, acts, t)
    ensures Inv(t)
    decreases |acts|
  {
    if acts != [] {
      StepKeeps(s, acts[0]);
      RunKeeps(Apply(s, acts[0]), acts[1..], t);
    }
  }

  // ---- what each step does ----

  /** Payload x keeps its count and its owner. */
  ghost predicate Keeps(s: State, t: State, x: nat) {
    && x in s.runs && x in t.runs && t.runs[x] == s.runs[x]
    && forall h :: (Owned(t, h, x) <==> Owned(s, h, x)) && (Owned(s, h, x) ==> t.headers[h] == s.headers[h])
  }

  /** The destructor of x has run and nobody owns it. */
  ghost predicate Freed(t: State, x: nat) { x in t.runs && t.runs[x] == 1 && forall h :: !Owned(t, h, x) }

  /** Nothing but headers and counts changed. */
  ghost predicate SameActors(s: State, t: State) { t.procs == s.procs && t.stopped == s.stopped }

  lemma CreateOwns(s: State, p: nat, x: nat)
    requires Inv(s) && Enabled(s, Create(p))
    ensures var t := Apply(s, Create(p));
            && s.next !in s.runs && t.runs.Keys == s.runs.Keys + {s.next} && t.runs[s.next] == 0
            && Owned(t, s.next, s.next) && InHeap(t, s.next, p) && SameActors(s, t)
            && (x in s.runs ==> Keeps(s, t, x))
  {
  }

  /** Closing a header of one's own runs the destructor and empties the header;
      closing somebody else's does nothing.  No other payload is touched. */
  lemma CloseRuns(s: State, p: nat, h: nat, x: nat)
    requires Inv(s) && Enabled(s, Close(p, h))
    ensures var t := Apply(s, Close(p, h));
            && SameActors(s, t) && (s.headers[h].owner != p ==> t == s)
            && (Owned(s, h, x) ==> Freed(t, x) && t.headers[h].res == None)
            && (x in s.runs && !Owned(s, h, x) ==> Keeps(s, t, x))
  {
    var t := Apply(s, Close(p, h));
    RunnersFew(s, p, {h}, x);
    if s.headers[h].owner == p {
      forall k ensures Owned(t, k, x) <==> k != h && Owned(s, k, x) { }
      if Owned(s, h, x) { assert |Runners(s, p, {h}, x)| == 1; }
    }
  }

  /** The headers a step lets go of: a collection those not reached, a death its mail
      and then its heap, a teardown both. */
  ghost predicate Lost(s: State, a: Action, h: nat) {
    match a
    case Collect(p, live) => InHeap(s, h, p) && h !in live
    case DieDrain(p) => InMail(s, h, p)
    case DieHeap(p) => InHeap(s, h, p)
    case Teardown(p) => h in s.headers && s.headers[h].holder == p
    case _ => false
  }

  /** Of the payloads behind the headers let go of, those owned are released, once;
      every other payload and every other header stays. */
  lemma DroppingRuns(s: State, a: Action, x: nat)
    requires Inv(s) && Enabled(s, a) && (a.Collect? || a.DieDrain? || a.DieHeap? || a.Teardown?) && x in s.runs
    ensures var t := Apply(s, a);
            && t.runs.Keys == s.runs.Keys && (forall h :: h in t.headers <==> h in s.headers && !Lost(s, a, h))
            && (forall h :: h in t.headers ==> t.headers[h] == s.headers[h])
            && (if exists h :: Owned(s, h, x) && Lost(s, a, h) then Freed(t, x) else Keeps(s, t, x))
  {
    hide Named, Accounted, Placed;
    var p, gone, t := a.p, Discarded(s, a), Apply(s, a);
    assert t.headers == s.headers - gone && t.runs == Run(s, p, gone);
    forall h | h in s.headers ensures h in gone <==> Lost(s, a, h) { }
    RunnersFew(s, p, gone, x);
    DroppedOwners(s, gone, t, x);
    if h :| Owned(s, h, x) && Lost(s, a, h) {
      assert h in gone;
    }
  }

  lemma DroppedOwners(s: State, gone: set<nat>, t: State, x: nat)
    requires t.headers == s.headers - gone
    ensures forall h :: Owned(t, h, x) <==> Owned(s, h, x) && h !in gone
  {
  }

  /** A send or spawn that is let through makes each payload it carries the property
      of a new header of the receiver; every other payload stays. */
  lemma HandoverMoves(s: State, p: nat, hs: seq<nat>, c: nat, msg: Option<nat>, at: nat, t: State, x: nat)
    requires Named(s) && Carriable(s, p, hs) && p != c && at >= s.next && x in s.runs
    requires forall i :: 0 <= i < |hs| ==> hs[i] in s.headers && s.headers[hs[i]].holder == p
    requires t.headers == Handover(s, hs, c, msg, at) && t.runs == s.runs
    ensures forall i :: 0 <= i < |hs| && Owned(s, hs[i], x) ==> NowOwnedBy(s, t, x, c, msg)
    ensures (forall i :: 0 <= i < |hs| ==> !Owned(s, hs[i], x)) ==> Keeps(s, t, x)
  {
    hide Named, Handover;
    forall i | 0 <= i < |hs| && Owned(s, hs[i], x) ensures NowOwnedBy(s, t, x, c, msg) {
      HandoverOwned(s, p, hs, c, msg, at, t, at + i, x);
      HandoverAt(s, hs, c, msg, at, t, i);
      assert Owned(t, at + i, x);
    }
    if forall i :: 0 <= i < |hs| ==> !Owned(s, hs[i], x) {
      forall h: nat ensures Owned(t, h, x) <==> Owned(s, h, x) {
        HandoverOwned(s, p, hs, c, msg, at, t, h, x);
        if at <= h < at + |hs| {
          HandoverAt(s, hs, c, msg, at, t, h - at);
          assert !Owned(s, hs[h - at], x);
        }
      }
      forall h | Owned(s, h, x) ensures t.headers[h] == s.headers[h] { HandoverElse(s, hs, c, msg, at, t, h); }
    }
  }

  /** A header of c that was not there before owns x. */
  ghost predicate NowOwnedBy(s: State, t: State, x: nat, c: nat, msg: Option<nat>) {
    exists k :: k !in s.headers && Owned(t, k, x) && t.headers[k].holder == c && t.headers[k].msg == msg
  }

  lemma HandoverAt(s: State, hs: seq<nat>, c: nat, msg: Option<nat>, at: nat, t: State, i: nat)
    requires Named(s) && at >= s.next && i < |hs| && forall i :: 0 <= i < |hs| ==> hs[i] in s.headers
    requires t.headers == Handover(s, hs, c, msg, at)
    ensures at + i !in s.headers && at + i in t.headers
    ensures t.headers[at + i] == Header(c, msg, c, s.headers[hs[i]].res)
  {
    assert t.headers[at + i] == Copy(s, hs, c, msg, c, at, at + i);
  }

  lemma HandoverElse(s: State, hs: seq<nat>, c: nat, msg: Option<nat>, at: nat, t: State, h: nat)
    requires Named(s) && at >= s.next && h in s.headers && h !in hs && forall i :: 0 <= i < |hs| ==> hs[i] in s.headers
    requires t.headers == Handover(s, hs, c, msg, at)
    ensures h in t.headers && t.headers[h] == s.headers[h]
  {
  }

  /** What an admitted send needs. */
  ghost predicate Passes(s: State, p: nat, q: nat, hs: seq<nat>) {
    hs != [] && p != q && Carriable(s, p, hs) && Is(s, q, Alive)
  }

  /** An admitted send: every payload it carries now belongs to a header in the
      mailbox of q, all in one new message; no other payload is touched.  A refused
      one changes nothing. */
  lemma SendMoves(s: State, p: nat, q: nat, hs: seq<nat>, x: nat)
    requires Inv(s) && Enabled(s, Send(p, q, hs)) && x in s.runs
    ensures var t := Apply(s, Send(p, q, hs));
            && SameActors(s, t) && t.runs == s.runs && (!Passes(s, p, q, hs) ==> t == s)
            && (Passes(s, p, q, hs) ==>
                  if exists i :: 0 <= i < |hs| && Owned(s, hs[i], x) then NowOwnedBy(s, t, x, q, Some(s.next))
                  else Keeps(s, t, x))
  {
    hide Unique, Accounted, Named, Placed, Carriable, Handover, Owned, NowOwnedBy, Keeps;
    if Passes(s, p, q, hs) {
      SendNames(s, p, q);
      HandoverMoves(s, p, hs, q, Some(s.next), s.next + 1, Apply(s, Send(p, q, hs)), x);
    }
  }

  /** A spawn with carriable resources makes them the living child's; any other
      leaves a child that is dead, owns nothing and disturbs nobody. */
  lemma SpawnMoves(s: State, p: nat, hs: seq<nat>, x: nat)
    requires Inv(s) && Enabled(s, Spawn(p, hs)) && x in s.runs
    ensures var t := Apply(s, Spawn(p, hs));
            && s.next !in s.procs && t.procs == s.procs[s.next := if Carriable(s, p, hs) then Alive else Marked]
            && t.stopped == s.stopped && t.runs == s.runs
            && (if Carriable(s, p, hs) && exists i :: 0 <= i < |hs| && Owned(s, hs[i], x)
                then NowOwnedBy(s, t, x, s.next, None) else Keeps(s, t, x))
  {
    hide Unique, Accounted, Named, Placed, Carriable, Handover, Owned, NowOwnedBy, Keeps, Copies;
    SendNames(s, p, p);
    var t := Apply(s, Spawn(p, hs));
    if Carriable(s, p, hs) {
      HandoverMoves(s, p, hs, s.next, None, s.next + 1, t, x);
    } else {
      PartialOwns(s, p, hs[..Partial(s, p, hs)], t, x);
    }
  }

  lemma PartialOwns(s: State, p: nat, hs: seq<nat>, t: State, x: nat)
    requires Named(s) && p in s.procs && p < s.next && x in s.runs && forall i :: 0 <= i < |hs| ==> hs[i] in s.headers
    requires t.headers == s.headers + Copies(s, hs, s.next, None, p, s.next + 1) && t.runs == s.runs
    ensures Keeps(s, t, x)
  {
    var at := s.next + 1;
    forall h | h in t.headers
      ensures if at <= h < at + |hs| then t.headers[h] == Copy(s, hs, s.next, None, p, at, h)
              else h in s.headers && t.headers[h] == s.headers[h]
    {
    }
  }

  /** A receive moves the headers of its message to the heap, owners and payloads
      as they are; a commit forgets the message.  No other header is touched. */
  lemma ReceiveTakes(s: State, p: nat, msg: nat, h: nat)
    requires Enabled(s, Receive(p, msg)) && h in s.headers
    ensures var t := Apply(s, Receive(p, msg));
            && SameActors(s, t) && t.runs == s.runs && t.headers.Keys == s.headers.Keys && MessageOf(t, p, msg) == {}
            && (h in MessageOf(s, p, msg) ==>
                  InHeap(t, h, p) && t.headers[h].owner == s.headers[h].owner && t.headers[h].res == s.headers[h].res)
            && (h !in MessageOf(s, p, msg) ==> t.headers[h] == s.headers[h])
  {
  }

  lemma DeathRun(s: State, p: nat)
    requires !s.stopped && Is(s, p, Alive)
    ensures Enabled(s, DieMark(p))
    ensures var a := Apply(s, DieMark(p));
            && Enabled(a, DieDrain(p))
            && var b := Apply(a, DieDrain(p));
            && Enabled(b, DieHeap(p))
            && var t := Apply(b, DieHeap(p));
            && t.procs == s.procs[p := Gone] && Runs(s, [DieMark(p), DieDrain(p), DieHeap(p)], t)
  {
    hide Run, HeapOf, MailOf;
    var a := Apply(s, DieMark(p));
    var b := Apply(a, DieDrain(p));
    var t, acts := Apply(b, DieHeap(p)), [DieMark(p), DieDrain(p), DieHeap(p)];
    assert acts[1..] == [DieDrain(p), DieHeap(p)] && acts[1..][1..] == [DieHeap(p)];
    assert Runs(b, [DieHeap(p)], t);
    assert Runs(a, acts[1..], t);
  }

  lemma MarkIs(s: State, p: nat)
    requires Enabled(s, DieMark(p))
    ensures Apply(s, DieMark(p)) == s.(procs := s.procs[p := Marked])
  {
  }

  lemma KeepsSince(s: State, a: State, t: State, x: nat)
    requires a.headers == s.headers && a.runs == s.runs
    ensures Keeps(a, t, x) <==> Keeps(s, t, x)
  {
    assert forall h :: Owned(a, h, x) <==> Owned(s, h, x);
  }

  /** First the mail goes, then the heap. */
  lemma DeathOwners(s: State, p: nat, b: State, t: State, x: nat)
    requires Unique(s)
    requires forall h :: h in b.headers <==> h in s.headers && !InMail(s, h, p)
    requires forall h :: h in b.headers ==> b.headers[h] == s.headers[h]
    requires if exists h :: Owned(s, h, x) && Lost(s, DieDrain(p), h) then Freed(b, x) else Keeps(s, b, x)
    requires if exists h :: Owned(b, h, x) && Lost(b, DieHeap(p), h) then Freed(t, x) else Keeps(b, t, x)
    ensures if exists h :: Owned(s, h, x) && s.headers[h].holder == p then Freed(t, x) else Keeps(s, t, x)
  {
    if h :| Owned(s, h, x) && s.headers[h].holder == p {
      if InMail(s, h, p) {
        assert Lost(s, DieDrain(p), h) && Freed(b, x);
      } else {
        assert Owned(b, h, x) && Lost(b, DieHeap(p), h);
      }
    }
  }

  /** A death carried to its end: each of its steps can follow the other, and then the
      actor holds nothing, what it owned is released, once, and every other payload
      is as it was. */
  lemma DeathReleases(s: State, p: nat, x: nat) returns (t: State)
    requires Inv(s) && !s.stopped && Is(s, p, Alive) && x in s.runs
    ensures Runs(s, [DieMark(p), DieDrain(p), DieHeap(p)], t)
    ensures t.procs == s.procs[p := Gone] && forall h :: h in t.headers <==> h in s.headers && s.headers[h].holder != p
    ensures if exists h :: Owned(s, h, x) && s.headers[h].holder == p then Freed(t, x) else Keeps(s, t, x)
  {
    hide Named, Placed, Unique, Accounted, Apply, Enabled, Runs, Freed, Keeps;
    DeathRun(s, p);
    MarkIs(s, p);
    var a := Apply(s, DieMark(p));
    StepKeeps(s, DieMark(p));
    var b := Apply(a, DieDrain(p));
    StepKeeps(a, DieDrain(p));
    t := Apply(b, DieHeap(p));
    DroppingRuns(a, DieDrain(p), x);
    DroppingRuns(b, DieHeap(p), x);
    DeathOwners(a, p, b, t, x);
    KeepsSince(s, a, t, x);
  }

  /** A swept actor acts no more but keeps what it holds, for the teardown that a stop
      lets through. */
  lemma SweepWaits(s: State, p: nat, x: nat)
    requires Inv(s) && Enabled(s, Sweep(p)) && Enabled(s, Stop) && x in s.runs
    ensures var t := Apply(s, Sweep(p));
            && !Is(t, p, Alive) && t.procs.Keys == s.procs.Keys && Keeps(s, t, x) && Enabled(t, Stop)
            && Enabled(Apply(t, Stop), Teardown(p)) && Keeps(s, Apply(t, Stop), x)
  {
    hide Inv;
    var t := Apply(s, Sweep(p));
    KeepsSince(s, t, t, x);
    KeepsSince(s, Apply(t, Stop), Apply(t, Stop), x);
  }

  /** In every run: a live payload has exactly one owned header, an owned header
      never refers to a freed payload, and no destructor runs twice. */
  lemma Safe(acts: seq<Action>, t: State)
    requires Runs(Start(), acts, t)
    ensures forall x :: x in t.runs ==> t.runs[x] <= 1
    ensures forall x :: x in t.runs && t.runs[x] == 0 ==>
              exists h :: Owned(t, h, x) && forall k :: Owned(t, k, x) ==> k == h
    ensures forall h, x :: Owned(t, h, x) ==> x in t.runs && t.runs[x] == 0
  {
    RunKeeps(Start(), acts, t);
    forall x | x in t.runs && t.runs[x] == 0
      ensures exists h :: Owned(t, h, x) && forall k :: Owned(t, k, x) ==> k == h
    {
      var h :| Owned(t, h, x);
    }
  }

  ghost predicate AllGone(s: State) { forall p :: p in s.procs ==> s.procs[p] == Gone }

  lemma GoneReleased(t: State)
    requires Inv(t) && AllGone(t)
    ensures forall x :: x in t.runs ==> t.runs[x] == 1
  {
    assert forall h, x :: !Owned(t, h, x);
  }

  /** Once every actor is gone each destructor has run exactly once. */
  lemma NothingLeaks(acts: seq<Action>, t: State)
    requires Runs(Start(), acts, t) && AllGone(t)
    ensures forall x :: x in t.runs ==> t.runs[x] == 1
  {
    RunKeeps(Start(), acts, t);
    GoneReleased(t);
  }

  /** When the workers have stopped no actor is in the middle of its death. */
  ghost predicate Halted(s: State) {
    s.stopped ==> forall p :: p in s.procs ==> s.procs[p] in {Alive, Swept, Gone}
  }

  lemma {:induction false} RunHalts(s: State, acts: seq<Action>, t: State)
    requires Halted(s) && Runs(s, acts, t)
    ensures Halted(t)
    decreases |acts|
  {
    if acts != [] { RunHalts(Apply(s, acts[0]), acts[1..], t); }
  }

  ghost function Remaining(s: State): set<nat> { set p | p in s.procs && s.procs[p] != Gone }

  lemma {:induction false} TearDown(s: State) returns (more: seq<Action>, t: State)
    requires s.stopped && Halted(s)
    ensures Runs(s, more, t) && AllGone(t) && t.runs.Keys == s.runs.Keys
    ensures forall i :: 0 <= i < |more| ==> more[i].Teardown?
    decreases Remaining(s)
  {
    if Remaining(s) == {} {
      assert forall p :: p in s.procs ==> p !in Remaining(s);
      more, t := [], s;
    } else {
      var p :| p in Remaining(s);
      var s' := Apply(s, Teardown(p));
      assert Remaining(s') == Remaining(s) - {p};
      var rest;
      rest, t := TearDown(s');
      more := [Teardown(p)] + rest;
      assert more[1..] == rest;
    }
  }

  /** Teardown gets there: every run that has stopped goes on by tearing down what is
      left, and ends with each destructor run exactly once. */
  lemma TeardownEnds(acts: seq<Action>, s: State) returns (more: seq<Action>, t: State)
    requires Runs(Start(), acts, s) && s.stopped
    ensures Runs(s, more, t) && AllGone(t) && forall i :: 0 <= i < |more| ==> more[i].Teardown?
    ensures forall x :: x in s.runs ==> x in t.runs && t.runs[x] == 1
  {
    hide Inv, Runs;
    RunKeeps(Start(), acts, s) by { StartInv(); }
    RunHalts(Start(), acts, s);
    more, t := TearDown(s);
    RunKeeps(s, more, t);
    GoneReleased(t);
  }

  ghost function MarkedOf(s: State): set<nat> { set p | p in s.procs && s.procs[p] == Marked }

  /** The actors in the middle of their deaths. */
  ghost function DyingOf(s: State): set<nat> { set p | p in s.procs && (s.procs[p] == Marked || s.procs[p] == Drained) }

  /** Deaths that have begun can be carried to their ends. */
  lemma {:induction false} FinishDeaths(s: State) returns (more: seq<Action>, t: State)
    requires !s.stopped
    ensures Runs(s, more, t) && Enabled(t, Stop) && t.runs.Keys == s.runs.Keys
    decreases MarkedOf(s), DyingOf(s)
  {
    if DyingOf(s) == {} {
      forall p | p in s.procs ensures s.procs[p] in {Alive, Swept, Gone} {
        assert p !in DyingOf(s);
      }
      more, t := [], s;
    } else {
      var p :| p in DyingOf(s);
      var a := if s.procs[p] == Marked then DieDrain(p) else DieHeap(p);
      var s' := Apply(s, a);
      assert s.procs[p] == Marked ==> MarkedOf(s') == MarkedOf(s) - {p};
      assert s.procs[p] == Drained ==> MarkedOf(s') == MarkedOf(s) && DyingOf(s') == DyingOf(s) - {p};
      var rest;
      rest, t := FinishDeaths(s');
      more := [a] + rest;
      assert more[1..] == rest;
    }
  }

  lemma {:induction false} RunsJoin(s: State, acts: seq<Action>, m: State, more: seq<Action>, t: State)
    requires Runs(s, acts, m) && Runs(m, more, t)
    ensures Runs(s, acts + more, t)
    decreases |acts|
  {
    if acts == [] {
      assert acts + more == more;
    } else {
      assert (acts + more)[1..] == acts[1..] + more;
      RunsJoin(Apply(s, acts[0]), acts[1..], m, more, t);
    }
  }

  /** No state is a trap: every run can go on, deaths begun carried to their ends, a
      stop, then teardown, until each destructor has run exactly once. */
  lemma CanEnd(acts: seq<Action>, s: State) returns (more: seq<Action>, t: State)
    requires Runs(Start(), acts, s)
    ensures Runs(s, more, t) && AllGone(t) && forall x :: x in s.runs ==> x in t.runs && t.runs[x] == 1
  {
    hide Inv, Runs, Apply;
    if s.stopped {
      more, t := TeardownEnds(acts, s);
    } else {
      var deaths, m := FinishDeaths(s);
      var halted := Apply(m, Stop);
      OneStep(m, Stop);
      RunsJoin(s, deaths, m, [Stop], halted);
      RunsJoin(Start(), acts, s, deaths + [Stop], halted);
      var rest;
      rest, t := TeardownEnds(acts + (deaths + [Stop]), halted);
      RunsJoin(s, deaths + [Stop], halted, rest, t);
      more := deaths + [Stop] + rest;
    }
  }

  lemma OneStep(s: State, a: Action)
    requires Enabled(s, a)
    ensures Runs(s, [a], Apply(s, a))
    ensures a.Stop? ==> Apply(s, a).stopped && Apply(s, a).runs == s.runs
  {
    assert [a][1..] == [];
  }

  lemma StartInv()
    ensures Inv(Start())
  {
  }
}
