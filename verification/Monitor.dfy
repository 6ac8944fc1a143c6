/** Monitors: a watcher asks to be told once when a target dies.

    The process table lock is explicit, because a death sets the target's state
    without it: the state can change between a monitor's check and its insert.
 */
module Monitor {
  import opened Heap

  /** A death marks the state, clears the table entry, then walks the watchers. */
  datatype Phase = Alive | Marked | Unlisted | Walked

  /** How far a monitor call has come.  `Told` means the target was found dead
      and the notice goes out at once. */
  datatype Stage = Asked | Locked | Found | Missing | Inserted | Told

  datatype Call = Call(watcher: nat, target: nat, stage: Stage)

  datatype Entry = Entry(watcher: nat, ref: nat)

  /** `lock` is the call that holds the table lock; `downs` counts the notices
      delivered per reference. */
  datatype State = State(procs: map<nat, Phase>, watchers: map<nat, seq<Entry>>, calls: map<nat, Call>,
                         downs: map<nat, nat>, lock: Option<nat>)

  datatype Action =
    | Spawn(p: nat)
    | Ask(p: nat, target: nat, ref: nat)
    | Acquire(ref: nat)
    | Check(ref: nat)
    | Insert(ref: nat)
    | Notify(ref: nat)
    | Mark(p: nat)
    | Unlist(p: nat)
    | Walk(p: nat)

  predicate Is(s: State, p: nat, ph: Phase) { p in s.procs && s.procs[p] == ph }

  predicate At(s: State, ref: nat, st: Stage) { ref in s.calls && s.calls[ref].stage == st }

  predicate Enabled(s: State, a: Action) {
    match a
    case Spawn(p) => p !in s.procs
    case Ask(p, _, ref) => Is(s, p, Alive) && ref !in s.calls
    case Acquire(ref) => At(s, ref, Asked) && s.lock == None
    case Check(ref) => At(s, ref, Locked)
    case Insert(ref) => At(s, ref, Found)
    case Notify(ref) => At(s, ref, Missing)
    case Mark(p) => Is(s, p, Alive) && !Calling(s, p)
    case Unlist(p) => Is(s, p, Marked) && s.lock == None
    case Walk(p) => Is(s, p, Unlisted) && s.lock == None
  }

  /** p is inside a monitor call; it dies only between instructions. */
  predicate Calling(s: State, p: nat) {
    exists ref :: ref in s.calls && s.calls[ref].watcher == p && s.calls[ref].stage !in {Inserted, Told}
  }

  function Watching(s: State, p: nat): seq<Entry> { if p in s.watchers then s.watchers[p] else [] }

  function Count(m: map<nat, nat>, r: nat): nat { if r in m then m[r] else 0 }

  /** Notices for reference r that a walk over `es` delivers. */
  function Hits(procs: map<nat, Phase>, es: seq<Entry>, r: nat): nat {
    if es == [] then 0
    else
      var e := es[|es| - 1];
      Hits(procs, es[..|es| - 1], r) + if e.ref == r && e.watcher in procs && procs[e.watcher] == Alive then 1 else 0
  }

  function WithStage(s: State, ref: nat, st: Stage): map<nat, Call>
    requires ref in s.calls
  {
    s.calls[ref := s.calls[ref].(stage := st)]
  }

  function Apply(s: State, a: Action): State
    requires Enabled(s, a)
  {
    match a
    case Spawn(p) => s.(procs := s.procs[p := Alive])
    case Ask(p, target, ref) => s.(calls := s.calls[ref := Call(p, target, Asked)])
    case Acquire(ref) => s.(calls := WithStage(s, ref, Locked), lock := Some(ref))
    case Check(ref) =>
      if Is(s, s.calls[ref].target, Alive) then s.(calls := WithStage(s, ref, Found))
      else s.(calls := WithStage(s, ref, Missing), lock := None)
    case Insert(ref) =>
      var c := s.calls[ref];
      s.(calls := WithStage(s, ref, Inserted), lock := None,
         watchers := s.watchers[c.target := Watching(s, c.target) + [Entry(c.watcher, ref)]])
    case Notify(ref) => s.(calls := WithStage(s, ref, Told), downs := s.downs[ref := Count(s.downs, ref) + 1])
    case Mark(p) => s.(procs := s.procs[p := Marked])
    case Unlist(p) => s.(procs := s.procs[p := Unlisted])
    case Walk(p) =>
      s.(procs := s.procs[p := Walked],
         downs := map r | r in s.calls :: Count(s.downs, r) + Hits(s.procs, Watching(s, p), r))
  }

  // ---- the invariant ----

  ghost predicate Listed(s: State, p: nat, r: nat) {
    exists i :: 0 <= i < |Watching(s, p)| && Watching(s, p)[i].ref == r
  }

  /** Watcher lists hold each finished call once, with its own target. */
  ghost predicate Lists(s: State) {
    && (forall p, i :: 0 <= i < |Watching(s, p)| ==>
          && Watching(s, p)[i].ref in s.calls
          && s.calls[Watching(s, p)[i].ref] == Call(Watching(s, p)[i].watcher, p, Inserted))
    && (forall p, i, j :: 0 <= i < j < |Watching(s, p)| ==> Watching(s, p)[i].ref != Watching(s, p)[j].ref)
    && (forall r :: r in s.calls && s.calls[r].stage == Inserted ==> Listed(s, s.calls[r].target, r))
  }

  /** While a call holds the lock after finding its target alive, the target's
      death cannot have gone past its mark. */
  ghost predicate Guarded(s: State) {
    && (forall r :: r in s.calls && s.calls[r].stage in {Locked, Found} ==> s.lock == Some(r))
    && (forall r :: r in s.calls && s.calls[r].stage == Found ==>
          Is(s, s.calls[r].target, Alive) || Is(s, s.calls[r].target, Marked))
    && (forall r :: r in s.calls && s.calls[r].stage == Inserted ==> s.calls[r].target in s.procs)
    && (forall r :: r in s.calls ==> s.calls[r].watcher in s.procs)
  }

  /** No notice is due yet. */
  predicate Early(s: State, r: nat)
    requires r in s.calls
  {
    match s.calls[r].stage
    case Told => false
    case Inserted => !Is(s, s.calls[r].target, Walked)
    case _ => true
  }

  /** The notices so far: none while early, one when the target was found dead,
      one to a living watcher when the target's watchers were walked. */
  predicate Owed(s: State, r: nat)
    requires r in s.calls
  {
    if Early(s, r) then Count(s.downs, r) == 0
    else if s.calls[r].stage == Told || Is(s, s.calls[r].watcher, Alive) then Count(s.downs, r) == 1
    else Count(s.downs, r) <= 1
  }

  ghost predicate Due(s: State) {
    && (forall r :: r !in s.calls ==> Count(s.downs, r) == 0)
    && (forall r :: r in s.calls ==> Owed(s, r))
  }

  ghost predicate Inv(s: State) { Lists(s) && Guarded(s) && Due(s) }

  // ---- every step keeps it ----

  /** A walk finds each reference at most once, and finds it if it is there. */
  lemma {:induction false} HitsOnce(procs: map<nat, Phase>, es: seq<Entry>, r: nat)
    requires forall i, j :: 0 <= i < j < |es| ==> es[i].ref != es[j].ref
    ensures Hits(procs, es, r) <= 1
    ensures (forall i :: 0 <= i < |es| ==> es[i].ref != r) ==> Hits(procs, es, r) == 0
    ensures forall i :: 0 <= i < |es| && es[i].ref == r ==>
      (Hits(procs, es, r) == 1 <==> es[i].watcher in procs && procs[es[i].watcher] == Alive)
  {
    if es != [] { HitsOnce(procs, es[..|es| - 1], r); }
  }

  /** Lists stay in order while no call is inserted. */
  lemma ListsFrame(s: State, t: State)
    requires Lists(s) && t.watchers == s.watchers
    requires forall r :: r in s.calls && s.calls[r].stage == Inserted ==> r in t.calls && t.calls[r] == s.calls[r]
    requires forall r :: r in t.calls && t.calls[r].stage == Inserted ==> r in s.calls && s.calls[r] == t.calls[r]
    ensures Lists(t)
  {
    forall q ensures Watching(t, q) == Watching(s, q) { }
    forall r | r in t.calls && t.calls[r].stage == Inserted ensures Listed(t, t.calls[r].target, r) {
      assert Listed(s, s.calls[r].target, r);
    }
  }

  lemma ListsInsert(s: State, ref: nat, t: State)
    requires Lists(s) && Enabled(s, Insert(ref)) && t == Apply(s, Insert(ref))
    ensures Lists(t)
  {
    var c := s.calls[ref];
    forall q
      ensures Watching(t, q) == if q == c.target then Watching(s, q) + [Entry(c.watcher, ref)] else Watching(s, q)
    {
    }
    assert Watching(t, c.target)[|Watching(s, c.target)|].ref == ref;
    forall r | r in t.calls && t.calls[r].stage == Inserted ensures Listed(t, t.calls[r].target, r) {
      if r != ref {
        var q := s.calls[r].target;
        var i :| 0 <= i < |Watching(s, q)| && Watching(s, q)[i].ref == r;
        assert Watching(t, q)[i].ref == r;
      }
    }
  }

  lemma ListsKept(s: State, a: Action)
    requires Lists(s) && Enabled(s, a)
    ensures Lists(Apply(s, a))
  {
    hide Lists;
    if a.Insert? { ListsInsert(s, a.ref, Apply(s, a)); } else { ListsFrame(s, Apply(s, a)); }
  }

  lemma GuardedKept(s: State, a: Action)
    requires Guarded(s) && Enabled(s, a)
    ensures Guarded(Apply(s, a))
  {
  }

  /** What a walk over the watchers of p adds for reference r. */
  lemma WalkAdds(s: State, p: nat, r: nat)
    requires Lists(s) && Guarded(s) && r in s.calls
    ensures var n := Hits(s.procs, Watching(s, p), r);
            if s.calls[r].stage == Inserted && s.calls[r].target == p
            then n <= 1 && (n == 1 <==> Is(s, s.calls[r].watcher, Alive))
            else n == 0
  {
    var es := Watching(s, p);
    HitsOnce(s.procs, es, r);
    if s.calls[r].stage == Inserted && s.calls[r].target == p {
      assert Listed(s, p, r);
      var i :| 0 <= i < |es| && es[i].ref == r;
    }
  }

  lemma DueWalk(s: State, p: nat)
    requires Inv(s) && Enabled(s, Walk(p))
    ensures Due(Apply(s, Walk(p)))
  {
    hide Lists, Guarded;
    var t := Apply(s, Walk(p));
    forall r | r in s.calls ensures Owed(t, r) {
      assert Owed(s, r);
      WalkAdds(s, p, r);
    }
  }

  lemma OwedKept(s: State, a: Action, r: nat)
    requires Guarded(s) && Enabled(s, a) && !a.Walk? && r in s.calls && Owed(s, r)
    ensures Owed(Apply(s, a), r)
  {
  }

  lemma DueKept(s: State, a: Action)
    requires Inv(s) && Enabled(s, a) && !a.Walk?
    ensures Due(Apply(s, a))
  {
    hide Lists, Guarded, Owed, Apply;
    var t := Apply(s, a);
    NewCalls(s, a);
    forall r | r in t.calls ensures Owed(t, r) {
      if r in s.calls { OwedKept(s, a, r); }
    }
  }

  /** A call starts with no notice; no step gives one to a call that is not
      there. */
  lemma NewCalls(s: State, a: Action)
    requires Enabled(s, a) && !a.Walk?
    requires forall r :: r !in s.calls ==> Count(s.downs, r) == 0
    ensures forall r :: r in s.calls ==> r in Apply(s, a).calls
    ensures forall r :: r !in Apply(s, a).calls ==> Count(Apply(s, a).downs, r) == 0
    ensures forall r :: r in Apply(s, a).calls && r !in s.calls ==> Owed(Apply(s, a), r)
  {
  }

  lemma StepKeeps(s: State, a: Action)
    requires Inv(s) && Enabled(s, a)
    ensures Inv(Apply(s, a))
  {
    hide Lists, Guarded, Due;
    ListsKept(s, a);
    GuardedKept(s, a);
    if a.Walk? { DueWalk(s, a.p); } else { DueKept(s, a); }
  }

  // ---- runs ----

  function Start(): State { State(map[], map[], map[], map[], None) }

  predicate Runs(s: State, acts: seq<Action>, t: State)
    decreases |acts|
  {
    if acts == [] then s == t else Enabled(s, acts[0]) && Runs(Apply(s, acts[0]), acts[1..], t)
  }

  lemma {:induction false} RunKeeps(s: State, acts: seq<Action>, t: State)
    requires Inv(s) && Runs(s, acts, t)
    ensures Inv(t)
    decreases |acts|
  {
    if acts != [] {
      StepKeeps(s, acts[0]);
      RunKeeps(Apply(s, acts[0]), acts[1..], t);
    }
  }

  /** In every run no reference yields two notices; a watcher that is still
      alive has exactly one as soon as its call is over and the target's death,
      if the call found it alive, has been worked off, and none before. */
  lemma ExactlyOneDown(acts: seq<Action>, t: State, r: nat)
    requires Runs(Start(), acts, t) && r in t.calls
    ensures Count(t.downs, r) <= 1
    ensures Is(t, t.calls[r].watcher, Alive) ==>
      (Count(t.downs, r) == 1 <==> At(t, r, Told) || (At(t, r, Inserted) && Is(t, t.calls[r].target, Walked)))
  {
    RunKeeps(Start(), acts, t);
  }

  // ---- what a call found ----

  /** The call found its target dead, or alive. */
  predicate FoundDead(s: State, r: nat) { At(s, r, Missing) || At(s, r, Told) }

  predicate FoundAlive(s: State, r: nat) { At(s, r, Found) || At(s, r, Inserted) }

  /** A call decides once: when it holds the lock, by the target's state then. */
  lemma Decides(s: State, a: Action, r: nat)
    requires Enabled(s, a) && r in Apply(s, a).calls
    ensures var t := Apply(s, a);
            && (r in s.calls ==> t.calls[r].watcher == s.calls[r].watcher && t.calls[r].target == s.calls[r].target)
            && (FoundDead(s, r) ==> FoundDead(t, r)) && (FoundAlive(s, r) ==> FoundAlive(t, r))
            && ((FoundDead(t, r) || FoundAlive(t, r)) && !FoundDead(s, r) && !FoundAlive(s, r) ==>
                  && a == Check(r) && At(s, r, Locked)
                  && (FoundAlive(t, r) <==> Is(s, s.calls[r].target, Alive)))
  {
    hide Calling, Hits, Watching;
  }

  lemma CallsStay(s: State, a: Action, r: nat)
    requires Enabled(s, a) && r in s.calls
    ensures r in Apply(s, a).calls
  {
    hide Calling, Hits, Watching;
  }

  lemma {:induction false} DecisionStays(s: State, acts: seq<Action>, t: State, r: nat)
    requires Runs(s, acts, t) && r in s.calls
    ensures r in t.calls && t.calls[r].watcher == s.calls[r].watcher && t.calls[r].target == s.calls[r].target
    ensures (FoundDead(s, r) ==> FoundDead(t, r)) && (FoundAlive(s, r) ==> FoundAlive(t, r))
    decreases |acts|
  {
    hide Apply, Enabled;
    if acts != [] {
      CallsStay(s, acts[0], r);
      Decides(s, acts[0], r);
      DecisionStays(Apply(s, acts[0]), acts[1..], t, r);
    }
  }

  /** The step of a run in which a call decided. */
  lemma {:induction false} DecidedWhen(s: State, acts: seq<Action>, t: State, r: nat) returns (i: nat, m: State)
    requires Runs(s, acts, t) && (FoundDead(t, r) || FoundAlive(t, r)) && !FoundDead(s, r) && !FoundAlive(s, r)
    ensures i < |acts| && acts[i] == Check(r) && Runs(s, acts[..i], m) && At(m, r, Locked)
    ensures m.calls[r].target == t.calls[r].target && m.calls[r].watcher == t.calls[r].watcher
    ensures FoundAlive(t, r) <==> Is(m, m.calls[r].target, Alive)
    decreases |acts|
  {
    hide Apply, Enabled;
    var n := Apply(s, acts[0]);
    if FoundDead(n, r) || FoundAlive(n, r) {
      Decides(s, acts[0], r);
      DecisionStays(n, acts[1..], t, r);
      i, m := 0, s;
      assert acts[..0] == [];
    } else {
      i, m := DecidedWhen(n, acts[1..], t, r);
      i := i + 1;
      assert acts[..i][1..] == acts[1..][..i - 1];
    }
  }

  /** In every run a notice at once means that the target was not alive when the call
      held the table lock; a call that found it alive then stands on the target's
      watcher list, with no notice until that list is walked. */
  lemma NoticeJustified(acts: seq<Action>, t: State, r: nat) returns (i: nat, m: State)
    requires Runs(Start(), acts, t) && (At(t, r, Told) || At(t, r, Inserted))
    ensures i < |acts| && acts[i] == Check(r) && Runs(Start(), acts[..i], m) && At(m, r, Locked) && m.lock == Some(r)
    ensures m.calls[r].target == t.calls[r].target && m.calls[r].watcher == t.calls[r].watcher
    ensures At(t, r, Told) <==> !Is(m, m.calls[r].target, Alive)
    ensures At(t, r, Inserted) ==> Listed(t, t.calls[r].target, r)
    ensures At(t, r, Inserted) && !Is(t, t.calls[r].target, Walked) ==> Count(t.downs, r) == 0
  {
    hide Runs;
    StartInv();
    i, m := DecidedWhen(Start(), acts, t, r);
    RunKeeps(Start(), acts, t);
    RunKeeps(Start(), acts[..i], m);
  }

  lemma StartInv()
    ensures Inv(Start())
  {
  }

  // ---- calls and deaths carried to their ends ----

  lemma OneStep(s: State, a: Action, acts: seq<Action>, t: State)
    requires Enabled(s, a) && Runs(Apply(s, a), acts, t)
    ensures Runs(s, [a] + acts, t)
  {
    assert ([a] + acts)[1..] == acts;
  }

  /** The rest of a call that may take the lock. */
  function Rest(s: State, r: nat): seq<Action>
    requires r in s.calls
  {
    [Acquire(r), Check(r), if Is(s, s.calls[r].target, Alive) then Insert(r) else Notify(r)]
  }

  /** A call that may take the lock can be carried to its end: with a living target it
      ends on the watcher list and without a notice, otherwise with one notice. */
  lemma CallEnds(s: State, r: nat) returns (t: State)
    requires Inv(s) && At(s, r, Asked) && s.lock == None
    ensures Inv(t) && Runs(s, Rest(s, r), t) && t.lock == None && t.procs == s.procs
    ensures r in t.calls && t.calls[r].target == s.calls[r].target && t.calls[r].watcher == s.calls[r].watcher
    ensures if Is(s, s.calls[r].target, Alive)
            then At(t, r, Inserted) && Listed(t, s.calls[r].target, r) && Count(t.downs, r) == 0
            else At(t, r, Told) && Count(t.downs, r) == 1
  {
    hide Lists, Guarded, Due, Runs;
    var last := Rest(s, r)[2];
    CallSteps(s, r, last);
    var a := Apply(s, Acquire(r));
    var b := Apply(a, Check(r));
    t := Apply(b, last);
    StepKeeps(s, Acquire(r));
    StepKeeps(a, Check(r));
    StepKeeps(b, last);
    CallDone(t, r);
  }

  lemma CallSteps(s: State, r: nat, last: Action)
    requires At(s, r, Asked) && s.lock == None
    requires last == if Is(s, s.calls[r].target, Alive) then Insert(r) else Notify(r)
    ensures Enabled(s, Acquire(r)) && Enabled(Apply(s, Acquire(r)), Check(r))
    ensures var a := Apply(s, Acquire(r));
            var b := Apply(a, Check(r));
            && Enabled(b, last)
            && var t := Apply(b, last);
            && Runs(s, [Acquire(r), Check(r), last], t) && t.lock == None && t.procs == s.procs
            && At(t, r, if Is(s, s.calls[r].target, Alive) then Inserted else Told)
            && t.calls[r].target == s.calls[r].target && t.calls[r].watcher == s.calls[r].watcher
  {
    hide Calling, Hits, Watching;
    var a := Apply(s, Acquire(r));
    var b := Apply(a, Check(r));
    var t := Apply(b, last);
    assert [last] + [] == [last] && [Check(r)] + [last] == [Check(r), last];
    assert [Acquire(r)] + [Check(r), last] == [Acquire(r), Check(r), last];
    OneStep(b, last, [], t);
    OneStep(a, Check(r), [last], t);
    OneStep(s, Acquire(r), [Check(r), last], t);
  }

  lemma CallDone(t: State, r: nat)
    requires Inv(t) && r in t.calls
    ensures At(t, r, Told) ==> Count(t.downs, r) == 1
    ensures At(t, r, Inserted) ==>
      Listed(t, t.calls[r].target, r) && (!Is(t, t.calls[r].target, Walked) ==> Count(t.downs, r) == 0)
  {
    assert Owed(t, r);
  }

  /** A living actor can ask, about any target and under any new reference. */
  lemma AskStarts(s: State, p: nat, target: nat, r: nat)
    requires Inv(s) && Is(s, p, Alive) && r !in s.calls
    ensures Enabled(s, Ask(p, target, r))
    ensures var t := Apply(s, Ask(p, target, r));
            && Inv(t) && t.calls == s.calls[r := Call(p, target, Asked)]
            && t.lock == s.lock && t.procs == s.procs && Count(t.downs, r) == 0
  {
    StepKeeps(s, Ask(p, target, r));
  }

  /** A death that may take the lock can be carried to its end; then each call on the
      dead actor's list has one notice if its watcher lives on, and none otherwise. */
  lemma DeathTells(s: State, p: nat, r: nat) returns (t: State)
    requires Inv(s) && Is(s, p, Alive) && !Calling(s, p) && s.lock == None
    requires At(s, r, Inserted) && s.calls[r].target == p
    ensures Inv(t) && Runs(s, [Mark(p), Unlist(p), Walk(p)], t) && t.procs == s.procs[p := Walked]
    ensures Count(t.downs, r) == if Is(s, s.calls[r].watcher, Alive) && s.calls[r].watcher != p then 1 else 0
  {
    hide Lists, Guarded, Due, Runs, Calling;
    DeathSteps(s, p);
    var a := Apply(s, Mark(p));
    var b := Apply(a, Unlist(p));
    t := Apply(b, Walk(p));
    StepKeeps(s, Mark(p));
    StepKeeps(a, Unlist(p));
    StepKeeps(b, Walk(p));
    CallDone(b, r);
    WalkAdds(b, p, r);
  }

  lemma DeathSteps(s: State, p: nat)
    requires Is(s, p, Alive) && !Calling(s, p) && s.lock == None
    ensures Enabled(s, Mark(p)) && Enabled(Apply(s, Mark(p)), Unlist(p))
    ensures var b := Apply(Apply(s, Mark(p)), Unlist(p));
            && Enabled(b, Walk(p)) && b == s.(procs := s.procs[p := Unlisted])
            && Apply(b, Walk(p)).procs == s.procs[p := Walked]
            && Runs(s, [Mark(p), Unlist(p), Walk(p)], Apply(b, Walk(p)))
  {
    hide Calling, Hits, Watching;
    var a := Apply(s, Mark(p));
    var b := Apply(a, Unlist(p));
    var t := Apply(b, Walk(p));
    assert [Walk(p)] + [] == [Walk(p)] && [Unlist(p)] + [Walk(p)] == [Unlist(p), Walk(p)];
    assert [Mark(p)] + [Unlist(p), Walk(p)] == [Mark(p), Unlist(p), Walk(p)];
    OneStep(b, Walk(p), [], t);
    OneStep(a, Unlist(p), [Walk(p)], t);
    OneStep(s, Mark(p), [Unlist(p), Walk(p)], t);
  }
}
