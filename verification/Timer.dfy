/** The timer list: sorted by deadline, fired by one thread, with a window
    between taking a timer off the list and putting it back or freeing it.

    Each method of the class is one section under the timer lock; firing is two
    of them with the delivery in between.
 */
module Timer {
  import opened Heap

  datatype Timer = Timer(id: nat, target: nat, interval: nat, deadline: int, cancelRequested: bool)

  ghost predicate Sorted(s: seq<Timer>) {
    forall i, j :: 0 <= i < j < |s| ==> s[i].deadline <= s[j].deadline
  }

  ghost predicate Distinct(s: seq<Timer>) {
    forall i, j :: 0 <= i < j < |s| ==> s[i].id != s[j].id
  }

  /** Insertion behind every timer that is due no later. */
  function Inserted(s: seq<Timer>, t: Timer): seq<Timer> {
    if s == [] || t.deadline < s[0].deadline then [t] + s else [s[0]] + Inserted(s[1..], t)
  }

  /** The place is the last one that keeps the list sorted. */
  lemma {:induction false} InsertedAt(s: seq<Timer>, t: Timer, k: nat)
    requires k <= |s| && (forall i :: 0 <= i < k ==> s[i].deadline <= t.deadline)
      && (k < |s| ==> t.deadline < s[k].deadline)
    ensures Inserted(s, t) == s[..k] + [t] + s[k..]
    decreases |s|
  {
    if k > 0 {
      InsertedAt(s[1..], t, k - 1);
      assert s[..k] == [s[0]] + s[1..][..k - 1] && s[1..][k - 1..] == s[k..];
    }
  }

  lemma {:induction false} InsertedHas(s: seq<Timer>, t: Timer)
    ensures |Inserted(s, t)| == |s| + 1 && forall x :: x in Inserted(s, t) <==> x in s || x == t
  {
    if s != [] && s[0].deadline <= t.deadline {
      InsertedHas(s[1..], t);
      assert s == [s[0]] + s[1..];
    }
  }

  lemma {:induction false} InsertedSorted(s: seq<Timer>, t: Timer)
    requires Sorted(s)
    ensures Sorted(Inserted(s, t))
  {
    if s != [] && s[0].deadline <= t.deadline {
      InsertedSorted(s[1..], t);
      InsertedHas(s[1..], t);
      var rest := Inserted(s[1..], t);
      forall i | 0 <= i < |rest| ensures s[0].deadline <= rest[i].deadline { assert rest[i] in rest; }
      SortedFront(s[0], rest);
    } else if s != [] {
      forall i | 0 <= i < |s| ensures t.deadline <= s[i].deadline { assert s[0].deadline <= s[i].deadline; }
    }
  }

  lemma SortedFront(t: Timer, s: seq<Timer>)
    requires Sorted(s) && forall i :: 0 <= i < |s| ==> t.deadline <= s[i].deadline
    ensures Sorted([t] + s)
  {
  }

  lemma {:induction false} InsertedDistinct(s: seq<Timer>, t: Timer)
    requires Distinct(s) && forall x :: x in s ==> x.id != t.id
    ensures Distinct(Inserted(s, t))
  {
    if s != [] && s[0].deadline <= t.deadline {
      InsertedDistinct(s[1..], t);
      InsertedHas(s[1..], t);
      var rest := Inserted(s[1..], t);
      forall i | 0 <= i < |rest| ensures rest[i].id != s[0].id {
        assert rest[i] in rest;
        if rest[i] != t {
          var j :| 0 <= j < |s[1..]| && s[1..][j] == rest[i];
          assert s[j + 1] == rest[i];
        }
      }
    }
  }

  // ---- due timers ----

  function DueCount(s: seq<Timer>, now: int): nat {
    if s == [] then 0 else (if s[0].deadline <= now then 1 else 0) + DueCount(s[1..], now)
  }

  /** A timer that is not due yet can go anywhere. */
  lemma {:induction false} DueInserted(s: seq<Timer>, t: Timer, now: int)
    ensures DueCount(Inserted(s, t), now) == DueCount(s, now) + if t.deadline <= now then 1 else 0
  {
    if s != [] && s[0].deadline <= t.deadline {
      DueInserted(s[1..], t, now);
      assert ([s[0]] + Inserted(s[1..], t))[1..] == Inserted(s[1..], t);
    } else {
      assert ([t] + s)[1..] == s;
    }
  }

  /** The ids of the due timers, earliest first. */
  function DueIds(s: seq<Timer>, now: int): seq<nat> {
    if s == [] || s[0].deadline > now then [] else [s[0].id] + DueIds(s[1..], now)
  }

  /** The walk stops at the first timer that is not due. */
  lemma {:induction false} DuePrefix(s: seq<Timer>, now: int)
    ensures var ids := DueIds(s, now);
            && |ids| <= |s| && (|ids| < |s| ==> s[|ids|].deadline > now)
            && forall i :: 0 <= i < |ids| ==> ids[i] == s[i].id && s[i].deadline <= now
  {
    if s != [] && s[0].deadline <= now { DuePrefix(s[1..], now); }
  }

  /** On a sorted list these are all due timers, each once. */
  lemma DueIdsExact(s: seq<Timer>, now: int)
    requires Sorted(s) && Distinct(s)
    ensures forall id :: id in DueIds(s, now) <==> exists t :: t in s && t.id == id && t.deadline <= now
    ensures forall i, j :: 0 <= i < j < |DueIds(s, now)| ==> DueIds(s, now)[i] != DueIds(s, now)[j]
  {
    hide DueIds;
    DuePrefix(s, now);
    var ids := DueIds(s, now);
    forall id | id in ids ensures exists t :: t in s && t.id == id && t.deadline <= now {
      var i :| 0 <= i < |ids| && ids[i] == id;
      assert s[i] in s;
    }
    forall t | t in s && t.deadline <= now ensures t.id in ids {
      var i :| 0 <= i < |s| && s[i] == t;
      assert i < |ids|;
      assert ids[i] == t.id;
    }
  }

  /** A timer goes back on the list when it repeats, can still deliver and was
      not cancelled meanwhile. */
  predicate Rearms(t: Timer, dead: bool) { t.interval > 0 && !dead && !t.cancelRequested }

  function Rearmed(t: Timer, now: int): Timer { t.(deadline := now + t.interval) }

  /** The list after firing everything that is due; `dead(k, p)` says whether
      target p is dead at the k-th delivery. */
  function Settled(s: seq<Timer>, now: int, dead: (nat, nat) -> bool, k: nat): seq<Timer>
    decreases DueCount(s, now)
  {
    if s == [] || s[0].deadline > now then s
    else if Rearms(s[0], dead(k, s[0].target)) then
      DueInserted(s[1..], Rearmed(s[0], now), now);
      Settled(Inserted(s[1..], Rearmed(s[0], now)), now, dead, k + 1)
    else Settled(s[1..], now, dead, k + 1)
  }

  /** Nothing due is left. */
  lemma {:induction false} SettledLater(s: seq<Timer>, now: int, dead: (nat, nat) -> bool, k: nat)
    requires Sorted(s)
    ensures Sorted(Settled(s, now, dead, k)) && forall t :: t in Settled(s, now, dead, k) ==> t.deadline > now
    decreases DueCount(s, now)
  {
    if s != [] && s[0].deadline <= now {
      if Rearms(s[0], dead(k, s[0].target)) {
        DueInserted(s[1..], Rearmed(s[0], now), now);
        InsertedSorted(s[1..], Rearmed(s[0], now));
        SettledLater(Inserted(s[1..], Rearmed(s[0], now)), now, dead, k + 1);
      } else {
        SettledLater(s[1..], now, dead, k + 1);
      }
    } else {
      forall t | t in s ensures t.deadline > now {
        var i :| 0 <= i < |s| && s[i] == t;
        assert s[0].deadline <= s[i].deadline;
      }
    }
  }

  /** A repeating timer that goes back does not change what is due. */
  lemma {:induction false} DueIdsInserted(s: seq<Timer>, t: Timer, now: int)
    requires t.deadline > now
    ensures DueIds(Inserted(s, t), now) == DueIds(s, now)
  {
    if s != [] && s[0].deadline <= t.deadline {
      DueIdsInserted(s[1..], t, now);
      assert ([s[0]] + Inserted(s[1..], t))[1..] == Inserted(s[1..], t);
    }
  }

  /** One delivery: the head is reported once and what follows settles alike. */
  lemma FireStep(s: seq<Timer>, now: int, dead: (nat, nat) -> bool, k: nat)
    requires s != [] && s[0].deadline <= now
    ensures var next := if Rearms(s[0], dead(k, s[0].target)) then Inserted(s[1..], Rearmed(s[0], now)) else s[1..];
            && DueIds(s, now) == [s[0].id] + DueIds(next, now)
            && Settled(s, now, dead, k) == Settled(next, now, dead, k + 1)
            && DueCount(next, now) < DueCount(s, now)
  {
    if Rearms(s[0], dead(k, s[0].target)) {
      DueInserted(s[1..], Rearmed(s[0], now), now);
      DueIdsInserted(s[1..], Rearmed(s[0], now), now);
    }
  }

  lemma FireDone(s: seq<Timer>, now: int, dead: (nat, nat) -> bool, k: nat)
    requires s == [] || s[0].deadline > now
    ensures DueIds(s, now) == [] && Settled(s, now, dead, k) == s
  {
  }

  /** What goes back does not come between those still due. */
  lemma {:induction false} InsertedPrefix(s: seq<Timer>, t: Timer, now: int, j: nat)
    requires t.deadline > now && j < |DueIds(s, now)|
    ensures j < |s| && |Inserted(s, t)| == |s| + 1 && Inserted(s, t)[j] == s[j]
    decreases |s|
  {
    DuePrefix(s, now);
    InsertedHas(s, t);
    if j > 0 { InsertedPrefix(s[1..], t, now, j - 1); }
  }

  /** Fired at `now`, t goes back as u: it repeats, was not cancelled, its target
      lives, and it is due again one interval later. */
  predicate Returns(t: Timer, now: int, dead: bool, u: Timer) {
    && t.interval > 0 && !t.cancelRequested && !dead
    && u.id == t.id && u.target == t.target && u.interval == t.interval && !u.cancelRequested
    && u.deadline == now + t.interval
  }

  /** Some due timer of s goes back as u. */
  ghost predicate Back(s: seq<Timer>, now: int, dead: (nat, nat) -> bool, k: nat, u: Timer) {
    exists j :: 0 <= j < |DueIds(s, now)| && j < |s| && Returns(s[j], now, dead(k + j, s[j].target), u)
  }

  /** The list after the head's turn. */
  function Next(s: seq<Timer>, now: int, again: bool): seq<Timer>
    requires s != []
  {
    if again then Inserted(s[1..], Rearmed(s[0], now)) else s[1..]
  }

  lemma NextAt(s: seq<Timer>, now: int, again: bool, j: nat)
    requires s != [] && s[0].deadline <= now && (again ==> s[0].interval > 0)
    ensures |DueIds(Next(s, now, again), now)| == |DueIds(s, now)| - 1
    ensures j < |DueIds(s, now)| - 1 ==>
      j + 1 < |s| && j < |Next(s, now, again)| && Next(s, now, again)[j] == s[j + 1]
  {
    DuePrefix(s, now);
    if again {
      DueIdsInserted(s[1..], Rearmed(s[0], now), now);
      if j < |DueIds(s, now)| - 1 { InsertedPrefix(s[1..], Rearmed(s[0], now), now, j); }
    }
  }

  lemma NextHas(s: seq<Timer>, now: int, dead: bool, u: Timer)
    requires s != [] && s[0].deadline <= now && (u.cancelRequested ==> u !in s)
    ensures u in Next(s, now, Rearms(s[0], dead)) && u.deadline > now <==>
            (u in s && u.deadline > now) || Returns(s[0], now, dead, u)
  {
    InsertedHas(s[1..], Rearmed(s[0], now));
    assert s == [s[0]] + s[1..];
  }

  lemma BackStep(s: seq<Timer>, now: int, dead: (nat, nat) -> bool, k: nat, u: Timer)
    requires s != [] && s[0].deadline <= now
    ensures Back(s, now, dead, k, u) <==>
            || Returns(s[0], now, dead(k, s[0].target), u)
            || Back(Next(s, now, Rearms(s[0], dead(k, s[0].target))), now, dead, k + 1, u)
  {
    hide Returns;
    var again := Rearms(s[0], dead(k, s[0].target));
    var next := Next(s, now, again);
    if Back(s, now, dead, k, u) {
      var j :| 0 <= j < |DueIds(s, now)| && j < |s| && Returns(s[j], now, dead(k + j, s[j].target), u);
      if j > 0 {
        NextAt(s, now, again, j - 1);
        assert Returns(next[j - 1], now, dead(k + 1 + (j - 1), next[j - 1].target), u);
      }
    }
    if Returns(s[0], now, dead(k, s[0].target), u) {
      DuePrefix(s, now);
      assert Returns(s[0], now, dead(k + 0, s[0].target), u);
    }
    if Back(next, now, dead, k + 1, u) {
      var j :| 0 <= j < |DueIds(next, now)| && j < |next| && Returns(next[j], now, dead(k + 1 + j, next[j].target), u);
      NextAt(s, now, again, j);
      assert Returns(s[j + 1], now, dead(k + (j + 1), s[j + 1].target), u);
    }
  }

  /** After firing, the list holds the timers that were not due, and of those that
      were exactly the repeating, uncancelled ones whose target lived at their turn,
      each due one interval from now. */
  lemma {:induction false} SettledHas(s: seq<Timer>, now: int, dead: (nat, nat) -> bool, k: nat, u: Timer)
    requires Sorted(s) && forall t :: t in s ==> !t.cancelRequested
    ensures u in Settled(s, now, dead, k) <==> (u in s && u.deadline > now) || Back(s, now, dead, k, u)
    decreases DueCount(s, now)
  {
    if s != [] && s[0].deadline <= now {
      hide Settled, DueCount, Back, Returns;
      var again := Rearms(s[0], dead(k, s[0].target));
      var next := Next(s, now, again);
      FireStep(s, now, dead, k);
      InsertedSorted(s[1..], Rearmed(s[0], now));
      InsertedHas(s[1..], Rearmed(s[0], now));
      SettledHas(next, now, dead, k + 1, u);
      BackStep(s, now, dead, k, u);
      NextHas(s, now, dead(k, s[0].target), u);
    } else {
      SettledLater(s, now, dead, k);
    }
  }

  /** Position i of a list without its element k, in the whole list. */
  function Skip(i: int, k: int): int { if i < k then i else i + 1 }

  lemma WithoutAt(s: seq<Timer>, k: nat)
    requires k < |s|
    ensures var r := s[..k] + s[k + 1..]; |r| == |s| - 1 && forall i :: 0 <= i < |r| ==> r[i] == s[Skip(i, k)]
  {
  }

  lemma WithoutOne(s: seq<Timer>, k: nat)
    requires k < |s| && Sorted(s) && Distinct(s)
    ensures var r := s[..k] + s[k + 1..];
            Sorted(r) && Distinct(r) && forall t :: t in r <==> t in s && t.id != s[k].id
  {
    var r := s[..k] + s[k + 1..];
    WithoutAt(s, k);
    forall i, j | 0 <= i < j < |r| ensures r[i].deadline <= r[j].deadline && r[i].id != r[j].id {
      assert r[i] == s[Skip(i, k)] && r[j] == s[Skip(j, k)];
    }
    forall t | t in s && t.id != s[k].id ensures t in r {
      var i :| 0 <= i < |s| && s[i] == t;
      var j := if i < k then i else i - 1;
      assert r[j] == s[Skip(j, k)] == t;
    }
    forall t | t in r ensures t in s && t.id != s[k].id {
      var i :| 0 <= i < |r| && r[i] == t;
      assert t == s[Skip(i, k)];
    }
  }

  // ---- the timer state ----

  /** What other threads do while a timer is being delivered. */
  datatype Op = Add(target: nat, at: int, ms: nat, interval: nat) | Stop(id: nat)

  /** One turn's windows: while the timer is delivered, and before the next one
      is taken. */
  datatype Window = Window(during: seq<Op>, after: seq<Op>)

  /** What a firing call has done so far.  It began with the list `l0`, ids up to
      `id0` and the cancelled timers `c0`; `f` is what it has fired. */
  ghost predicate Progress(l0: seq<Timer>, id0: nat, c0: set<nat>, now: int,
                           list: seq<Timer>, nextId: nat, cancelled: set<nat>, f: seq<nat>) {
    && id0 <= nextId && c0 <= cancelled
    && (forall i, j :: 0 <= i < j < |f| ==> f[i] != f[j])
    && (forall i :: 0 <= i < |f| ==> f[i] !in c0)
    && (forall x :: x in list && x.id in f ==> x.deadline > now)
    && (forall x :: x in list ==> x in l0 || x.id > id0 || x.id in f)
    && (forall t :: t in l0 ==> t in list || t.id in f || t.id in cancelled)
    && (forall u :: u in l0 && u.id in f ==> u.deadline <= now && forall t :: t in l0 && t in list ==>
       u.deadline <= t.deadline)
    && InOrder(l0, f)
  }

  /** Of two timers of the list the one with the earlier deadline fires first. */
  ghost predicate InOrder(l0: seq<Timer>, f: seq<nat>) {
    forall t, u, i, j :: t in l0 && u in l0 && 0 <= i < j < |f| && f[i] == u.id && f[j] == t.id ==>
      u.deadline <= t.deadline
  }

  /** The timers of a list are told apart by ids up to `n`. */
  ghost predicate Numbered(s: seq<Timer>, n: nat) {
    Distinct(s) && forall t :: t in s ==> t.id <= n
  }

  lemma SameId(s: seq<Timer>, t: Timer, u: Timer)
    requires Distinct(s) && t in s && u in s && t.id == u.id
    ensures t == u
  {
  }

  lemma ProgressStart(l0: seq<Timer>, id0: nat, c0: set<nat>, now: int)
    ensures Progress(l0, id0, c0, now, l0, id0, c0, [])
  {
  }

  /** Firing the head. */
  lemma ProgressFires(l0: seq<Timer>, id0: nat, c0: set<nat>, now: int, list: seq<Timer>, nextId: nat,
                      cancelled: set<nat>, f: seq<nat>)
    requires Progress(l0, id0, c0, now, list, nextId, cancelled, f) && Numbered(l0, id0)
    requires Sorted(list) && Distinct(list) && list != [] && list[0].deadline <= now && list[0].id !in cancelled
    ensures Progress(l0, id0, c0, now, list[1..], nextId, cancelled, f + [list[0].id])
  {
    hide Sorted, Distinct, InOrder, Numbered;
    var h, rest, g := list[0], list[1..], f + [list[0].id];
    HeadFirst(list);
    HeadKnown(l0, id0, h);
    assert forall x :: x in g <==> x in f || x == h.id;
    OrderFires(l0, f, h);
  }

  /** The head of a sorted list against the others. */
  lemma HeadFirst(list: seq<Timer>)
    requires Sorted(list) && Distinct(list) && list != []
    ensures list[0] in list && forall t :: t in list <==> t == list[0] || t in list[1..]
    ensures forall t :: t in list[1..] ==> t.id != list[0].id && list[0].deadline <= t.deadline
  {
    assert list == [list[0]] + list[1..];
    forall t | t in list[1..] ensures t.id != list[0].id && list[0].deadline <= t.deadline {
      var i :| 0 <= i < |list[1..]| && list[1..][i] == t;
      assert list[i + 1] == t;
    }
  }

  lemma HeadKnown(l0: seq<Timer>, id0: nat, h: Timer)
    requires Numbered(l0, id0)
    ensures (h in l0 || h.id > id0) ==> forall u :: u in l0 && u.id == h.id ==> u == h
  {
    if h in l0 {
      forall u | u in l0 && u.id == h.id ensures u == h { SameId(l0, u, h); }
    }
  }

  lemma OrderFires(l0: seq<Timer>, f: seq<nat>, h: Timer)
    requires InOrder(l0, f) && forall u :: u in l0 && u.id == h.id ==> u == h
    requires h in l0 ==> forall u :: u in l0 && u.id in f ==> u.deadline <= h.deadline
    ensures InOrder(l0, f + [h.id])
  {
    var g := f + [h.id];
    forall t, u, i, j | t in l0 && u in l0 && 0 <= i < j < |g| && g[i] == u.id && g[j] == t.id
      ensures u.deadline <= t.deadline
    {
      assert g[i] == f[i];
      if j < |f| { assert g[j] == f[j]; }
    }
  }

  /** Other threads add and cancel. */
  lemma ProgressAmid(l0: seq<Timer>, id0: nat, c0: set<nat>, now: int, list: seq<Timer>, nextId: nat,
                     cancelled: set<nat>, f: seq<nat>, list': seq<Timer>, nextId': nat, cancelled': set<nat>)
    requires Progress(l0, id0, c0, now, list, nextId, cancelled, f) && Numbered(l0, id0)
    requires nextId <= nextId' && cancelled <= cancelled' && forall i :: 0 <= i < |f| ==> f[i] <= nextId
    requires forall t :: t in list' ==> t in list || t.id > nextId
    requires forall t :: t in list ==> t in list' || t.id in cancelled'
    ensures Progress(l0, id0, c0, now, list', nextId', cancelled', f)
  {
  }

  /** A timer that has fired goes back on the list, with a later deadline. */
  lemma ProgressRearms(l0: seq<Timer>, id0: nat, c0: set<nat>, now: int, list: seq<Timer>, nextId: nat,
                       cancelled: set<nat>, f: seq<nat>, r: Timer)
    requires Progress(l0, id0, c0, now, list, nextId, cancelled, f) && r.id in f && r.deadline > now
    ensures Progress(l0, id0, c0, now, Inserted(list, r), nextId, cancelled, f)
  {
    InsertedHas(list, r);
  }

  /** When nothing due is left, every timer due at the start has fired or was
      cancelled. */
  lemma Outcome(l0: seq<Timer>, id0: nat, c0: set<nat>, now: int, list: seq<Timer>, nextId: nat, cancelled: set<nat>,
                f: seq<nat>)
    requires Progress(l0, id0, c0, now, list, nextId, cancelled, f) && Sorted(list)
      && (list == [] || list[0].deadline > now)
    ensures forall t :: t in l0 && t.deadline <= now ==> t.id in f || t.id in cancelled
    ensures forall i, j :: 0 <= i < j < |f| ==> f[i] != f[j]
    ensures InOrder(l0, f) && c0 <= cancelled && forall i :: 0 <= i < |f| ==> f[i] !in c0
  {
    forall t | t in list ensures t.deadline > now {
      var i :| 0 <= i < |list| && list[i] == t;
    }
  }

  /** Nothing fires that was cancelled in an earlier turn. */
  ghost predicate Barred(f: seq<nat>, stops: seq<set<nat>>, cancelled: set<nat>) {
    && (forall i :: 0 <= i < |stops| ==> stops[i] <= cancelled)
    && (forall i, j :: 0 <= i < j < |f| && i < |stops| ==> f[j] !in stops[i])
  }

  lemma BarredNext(f: seq<nat>, stops: seq<set<nat>>, cancelled: set<nat>, id: nat, more: set<nat>)
    requires Barred(f, stops, cancelled) && |stops| == |f| && id !in cancelled
    ensures Barred(f + [id], stops + [more], cancelled + more)
  {
    forall i, j | 0 <= i < j < |f + [id]| && i < |stops + [more]| ensures (f + [id])[j] !in (stops + [more])[i] {
      assert (stops + [more])[i] == stops[i];
    }
  }

  class Timers {
    var list: seq<Timer>
    var firing: Option<Timer>
    var nextId: nat

    ghost var freed: set<nat>
    ghost var cancelled: set<nat>
    ghost var fired: seq<nat>

    ghost function Ids(): set<nat>
      reads this`list
    {
      set t | t in list :: t.id
    }

    /** Each timer is in exactly one of list, firing slot and freed; a cancelled
        one is freed, or in the firing slot and flagged. */
    ghost predicate Valid()
      reads this
    {
      && Sorted(list) && Distinct(list) && (forall t :: t in list ==> !t.cancelRequested)
      && (forall id :: 1 <= id <= nextId <==> id in Ids() || id in freed || (firing.Some? && firing.value.id == id))
      && Ids() !! freed && (firing.Some? ==> firing.value.id !in Ids() && firing.value.id !in freed)
      && (firing.Some? && firing.value.cancelRequested ==> firing.value.interval > 0)
      && (forall id :: id in cancelled ==>
         id in freed || (firing.Some? && firing.value.id == id && firing.value.cancelRequested))
    }

    constructor ()
      ensures Valid() && list == [] && firing == None && fired == [] && cancelled == {}
    {
      list, firing, nextId, freed, cancelled, fired := [], None, 0, {}, {}, [];
    }

    /** Sorted insert, behind equal deadlines. */
    method Insert(t: Timer)
      requires Sorted(list)
      modifies this`list
      ensures list == Inserted(old(list), t) && Sorted(list)
    {
      var k := 0;
      while k < |list| && list[k].deadline <= t.deadline
        invariant 0 <= k <= |list| && forall i :: 0 <= i < k ==> list[i].deadline <= t.deadline
      {
        k := k + 1;
      }
      InsertedAt(list, t, k);
      InsertedSorted(list, t);
      list := list[..k] + [t] + list[k..];
    }

    method Register(target: nat, now: int, ms: nat, interval: nat) returns (id: nat)
      requires Valid()
      modifies this`list, this`nextId
      ensures Valid() && id == old(nextId) + 1 == nextId && firing == old(firing)
      ensures list == Inserted(old(list), Timer(id, target, interval, now + ms, false))
    {
      nextId := nextId + 1;
      id := nextId;
      var t := Timer(id, target, interval, now + ms, false);
      assert id !in Ids();
      forall x | x in list ensures x.id != id { assert x.id in Ids(); }
      InsertedDistinct(list, t);
      InsertedHas(list, t);
      ghost var before := Ids();
      Insert(t);
      assert Ids() == before + {id};
    }

    /** Take the first timer off the list if it is due. */
    method Begin(now: int) returns (due: bool)
      requires Valid() && firing == None
      modifies this`list, this`firing, this`fired
      ensures Valid() && due == (old(list) != [] && old(list)[0].deadline <= now)
      ensures due ==> firing == Some(old(list)[0]) && list == old(list)[1..] && fired == old(fired) + [old(list)[0].id]
      ensures due ==> old(list)[0].id !in cancelled
      ensures !due ==> unchanged(this)
    {
      if list == [] || list[0].deadline > now { return false; }
      var t := list[0];
      assert t in list && t.id in Ids();
      ghost var before, was := Ids(), list;
      firing := Some(t);
      list := list[1..];
      fired := fired + [t.id];
      assert was == [t] + list;
      forall x | x in list ensures x.id != t.id {
        var i :| 0 <= i < |list| && list[i] == x;
        assert was[i + 1] == x;
      }
      assert before == Ids() + {t.id};
      due := true;
    }

    /** After the delivery: back on the list, or freed. */
    method Finish(now: int, dead: bool)
      requires Valid() && firing.Some?
      modifies this`list, this`firing, this`freed
      ensures Valid() && firing == None
      ensures list == if Rearms(old(firing).value, dead) then Inserted(old(list), Rearmed(old(firing).value, now))
        else old(list)
      ensures freed == if Rearms(old(firing).value, dead) then old(freed) else old(freed) + {old(firing).value.id}
      ensures var t := old(firing).value;
              if t.interval > 0 && !dead && !t.cancelRequested
              then t.(deadline := now + t.interval) in list && t.id !in freed
              else t.id in freed && t.id !in Ids()
    {
      var t := firing.value;
      firing := None;
      if Rearms(t, dead) {
        var u := Rearmed(t, now);
        forall x | x in list ensures x.id != t.id { assert x.id in Ids(); }
        InsertedDistinct(list, u);
        InsertedHas(list, u);
        ghost var before := Ids();
        Insert(u);
        assert Ids() == before + {t.id};
      } else {
        freed := freed + {t.id};
      }
    }

    /** Cancel: a timer on the list is freed, a repeating one in flight is
        flagged; anything else reports failure and changes nothing. */
    method Cancel(id: int) returns (ok: bool)
      requires Valid()
      modifies this`list, this`firing, this`freed, this`cancelled
      ensures Valid() && nextId == old(nextId)
      ensures ok <==>
        && id >= 0
        && (id in old(Ids()) || (old(firing).Some? && old(firing).value.id == id && old(firing).value.interval > 0))
      ensures if ok then cancelled == old(cancelled) + {id} else unchanged(this)
      ensures firing.Some? <==> old(firing).Some?
      ensures firing.Some? ==> firing == old(firing) || firing == Some(old(firing).value.(cancelRequested := true))
      ensures forall t :: t in list <==> t in old(list) && !(ok && t.id == id)
    {
      if id <= 0 { return false; }
      var k := 0;
      while k < |list|
        invariant 0 <= k <= |list| && forall i :: 0 <= i < k ==> list[i].id != id
      {
        if list[k].id == id {
          Remove(k);
          return true;
        }
        k := k + 1;
      }
      assert id !in Ids();
      if firing.Some? && firing.value.id == id && firing.value.interval > 0 {
        firing := Some(firing.value.(cancelRequested := true));
        cancelled := cancelled + {id};
        return true;
      }
      return false;
    }

    method Remove(k: nat)
      requires Valid() && k < |list|
      modifies this`list, this`freed, this`cancelled
      ensures Valid() && cancelled == old(cancelled) + {old(list)[k].id} && old(list)[k].id in old(Ids())
      ensures forall t :: t in list <==> t in old(list) && t.id != old(list)[k].id
    {
      ghost var was, before := list, Ids();
      var id := list[k].id;
      assert list[k] in list && id in Ids();
      list := list[..k] + list[k + 1..];
      WithoutOne(was, k);
      freed := freed + {id};
      cancelled := cancelled + {id};
      assert before == Ids() + {id};
    }

    /** Fire everything that is due, undisturbed: every due timer once, earliest
        first, and nothing due remains. */
    method FireExpired(now: int, dead: (nat, nat) -> bool)
      requires Valid() && firing == None
      modifies this`list, this`firing, this`freed, this`fired
      ensures Valid() && firing == None
      ensures fired == old(fired) + DueIds(old(list), now)
      ensures list == Settled(old(list), now, dead, 0) && forall t :: t in list ==> t.deadline > now
      ensures forall u :: u in list <==> (u in old(list) && u.deadline > now) || Back(old(list), now, dead, 0, u)
    {
      hide Valid, DueIds, Settled, DueCount, Inserted, Rearms, Sorted, Back, Returns;
      IsSorted();
      var k := 0;
      while true
        invariant Valid() && firing == None && k >= 0
        invariant fired + DueIds(list, now) == old(fired) + DueIds(old(list), now)
        invariant Settled(list, now, dead, k) == Settled(old(list), now, dead, 0)
        decreases DueCount(list, now)
      {
        ghost var was := list;
        var due := Begin(now);
        if !due { break; }
        var t := firing.value;
        FireStep(was, now, dead, k);
        Finish(now, dead(k, t.target));
        k := k + 1;
      }
      FireDone(list, now, dead, k);
      SettledLater(old(list), now, dead, 0);
      forall u ensures u in list <==> (u in old(list) && u.deadline > now) || Back(old(list), now, dead, 0, u) {
        SettledHas(old(list), now, dead, 0, u);
      }
    }

    lemma IsSorted()
      requires Valid()
      ensures Sorted(list) && Distinct(list) && forall t :: t in list ==> !t.cancelRequested
    {
    }

    /** What other threads do in one window; `stopped` are the timers cancelled. */
    method Interfere(ops: seq<Op>) returns (ghost stopped: set<nat>)
      requires Valid()
      modifies this`list, this`firing, this`nextId, this`freed, this`cancelled
      ensures Valid() && (firing.Some? <==> old(firing).Some?) && old(nextId) <= nextId
      ensures cancelled == old(cancelled) + stopped && forall id :: id in stopped ==> Stop(id) in ops
      ensures firing.Some? ==> firing.value.(cancelRequested := true) == old(firing).value.(cancelRequested := true)
      ensures forall t :: t in list ==> t in old(list) || t.id > old(nextId)
      ensures forall t :: t in old(list) ==> t in list || t.id in cancelled
      ensures ops == [] ==> list == old(list)
    {
      hide Valid, Sorted, Distinct;
      var i := 0;
      stopped := {};
      while i < |ops|
        invariant 0 <= i <= |ops| && Valid() && (firing.Some? <==> old(firing).Some?) && old(nextId) <= nextId
        invariant cancelled == old(cancelled) + stopped && forall id :: id in stopped ==> Stop(id) in ops
        invariant firing.Some? ==> firing.value.(cancelRequested := true) == old(firing).value.(cancelRequested := true)
        invariant forall t :: t in list ==> t in old(list) || t.id > old(nextId)
        invariant forall t :: t in old(list) ==> t in list || t.id in cancelled
        invariant i == 0 ==> list == old(list)
      {
        match ops[i] {
          case Add(target, at, ms, interval) =>
            InsertedHas(list, Timer(nextId + 1, target, interval, at + ms, false));
            var id := Register(target, at, ms, interval);
          case Stop(id) =>
            var ok := Cancel(id);
            if ok {
              assert ops[i] == Stop(id);
              stopped := stopped + {id};
            }
        }
        i := i + 1;
      }
    }

    /** The rest of a turn: a window, the timer's end, another window. */
    method Turn(now: int, dead: bool, w: Window, ghost l0: seq<Timer>, ghost id0: nat, ghost c0: set<nat>,
                ghost f: seq<nat>)
      returns (ghost stopped: set<nat>)
      requires Valid() && firing.Some? && firing.value.id in f && Numbered(l0, id0)
      requires Progress(l0, id0, c0, now, list, nextId, cancelled, f) && forall i :: 0 <= i < |f| ==> f[i] <= nextId
      modifies this`list, this`firing, this`nextId, this`freed, this`cancelled
      ensures Valid() && firing == None && cancelled == old(cancelled) + stopped
      ensures Progress(l0, id0, c0, now, list, nextId, cancelled, f) && forall i :: 0 <= i < |f| ==> f[i] <= nextId
      ensures w == Window([], []) ==> DueCount(list, now) == DueCount(old(list), now)
    {
      hide Valid, Sorted, Distinct, Progress, Numbered;
      ghost var l1, id1, c1 := list, nextId, cancelled;
      stopped := Interfere(w.during);
      ProgressAmid(l0, id0, c0, now, l1, id1, c1, f, list, nextId, cancelled);
      ghost var u := Rearmed(firing.value, now);
      if u.interval > 0 { ProgressRearms(l0, id0, c0, now, list, nextId, cancelled, f, u); }
      DueInserted(list, u, now);
      Finish(now, dead);
      l1, id1, c1 := list, nextId, cancelled;
      ghost var more := Interfere(w.after);
      ProgressAmid(l0, id0, c0, now, l1, id1, c1, f, list, nextId, cancelled);
      stopped := stopped + more;
    }

    lemma StartFacts(now: int)
      requires Valid()
      ensures Numbered(list, nextId) && Progress(list, nextId, cancelled, now, list, nextId, cancelled, [])
      ensures Barred([], [], cancelled)
    {
      ProgressStart(list, nextId, cancelled, now);
      forall t | t in list ensures t.id <= nextId { assert t.id in Ids(); }
    }

    /** Fire everything that is due while other threads register and cancel in
        each window.  The call still ends with nothing due.  Every timer due at the
        start fires exactly once or was cancelled; those that fire do so in the
        order of their deadlines; none fires that was cancelled before the call or
        in an earlier turn of it. */
    method FireAmid(now: int, dead: (nat, nat) -> bool, windows: seq<Window>) returns (ghost stops: seq<set<nat>>)
      requires Valid() && firing == None
      modifies this`list, this`firing, this`nextId, this`freed, this`cancelled, this`fired
      ensures Valid() && firing == None && old(fired) <= fired && old(cancelled) <= cancelled
      ensures list == [] || list[0].deadline > now
      ensures var f := fired[|old(fired)|..];
              && (forall t :: t in old(list) && t.deadline <= now ==> t.id in f || t.id in cancelled)
              && (forall i, j :: 0 <= i < j < |f| ==> f[i] != f[j])
              && InOrder(old(list), f)
              && (forall i :: 0 <= i < |f| ==> f[i] !in old(cancelled))
              && |stops| == |f| && Barred(f, stops, cancelled)
    {
      hide Valid, Sorted, Distinct, Progress, Barred, InOrder, Numbered;
      ghost var l0, id0, c0, n := list, nextId, cancelled, |fired|;
      ghost var f: seq<nat> := [];
      stops := [];
      StartFacts(now);
      var k := 0;
      while true
        invariant Valid() && firing == None && k >= 0 && fired == old(fired) + f && |stops| == |f|
        invariant Numbered(l0, id0) && Progress(l0, id0, c0, now, list, nextId, cancelled, f)
        invariant forall i :: 0 <= i < |f| ==> f[i] <= nextId
        invariant Barred(f, stops, cancelled)
        decreases if k < |windows| then |windows| - k else 0, DueCount(list, now)
      {
        ghost var was := list;
        IsSorted();
        var due := Begin(now);
        if !due { break; }
        FiringFacts();
        var t := firing.value;
        ProgressFires(l0, id0, c0, now, was, nextId, cancelled, f);
        ghost var g, c := f, cancelled;
        f := f + [t.id];
        var w := if k < |windows| then windows[k] else Window([], []);
        ghost var stopped := Turn(now, dead(k, t.target), w, l0, id0, c0, f);
        BarredNext(g, stops, c, t.id, stopped);
        stops := stops + [stopped];
        k := k + 1;
      }
      assert fired[n..] == f;
      IsSorted();
      Outcome(l0, id0, c0, now, list, nextId, cancelled, f);
    }

    lemma FiringFacts()
      requires Valid() && firing.Some?
      ensures firing.value.id <= nextId && forall t :: t in list ==> t.id != firing.value.id
    {
      forall t | t in list ensures t.id != firing.value.id { assert t.id in Ids(); }
    }
  }
}
