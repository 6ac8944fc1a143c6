/** How a pool of workers winds down after the entry process has finished.

    Each access to a shared flag or counter is one step; dequeuing and running a
    slice are reduced to whether they happen.
 */
module Shutdown {

  const DRAIN_QUANTA: nat := 64

  /** Where a worker stands in its loop. */
  datatype Pc = Top | Busy | Slice | Ran | Empty | Stopping | Exited

  /** `drain` counts the slices that ended after the entry process did. */
  datatype State = State(pc: seq<Pc>, entryDone: bool, drain: nat, stop: bool)

  datatype Action =
    | Look(w: nat)
    | Take(w: nat)
    | FindEmpty(w: nat)
    | RunSlice(w: nat, endsEntry: bool)
    | Count(w: nat)
    | Check(w: nat, entryGone: bool)
    | Request(w: nat)

  predicate Enabled(s: State, a: Action) {
    && a.w < |s.pc|
    && match a
       case Look(w) => s.pc[w] == Top
       case Take(w) => s.pc[w] == Busy
       case FindEmpty(w) => s.pc[w] == Busy
       case RunSlice(w, _) => s.pc[w] == Slice
       case Count(w) => s.pc[w] == Ran
       case Check(w, _) => s.pc[w] == Empty
       case Request(w) => s.pc[w] == Stopping
  }

  function Apply(s: State, a: Action): State
    requires Enabled(s, a)
  {
    match a
    case Look(w) => s.(pc := s.pc[w := if s.stop then Exited else Busy])
    case Take(w) => s.(pc := s.pc[w := Slice])
    case FindEmpty(w) => s.(pc := s.pc[w := Empty])
    case RunSlice(w, endsEntry) => s.(pc := s.pc[w := Ran], entryDone := s.entryDone || endsEntry)
    case Count(w) =>
      if !s.entryDone then s.(pc := s.pc[w := Top])
      else s.(drain := s.drain + 1, pc := s.pc[w := if s.drain + 1 >= DRAIN_QUANTA then Stopping else Top])
    case Check(w, entryGone) => s.(pc := s.pc[w := if s.entryDone || entryGone then Stopping else Top])
    case Request(w) => s.(stop := true, pc := s.pc[w := Exited])
  }

  predicate Runs(s: State, acts: seq<Action>, t: State)
    decreases |acts|
  {
    if acts == [] then s == t else Enabled(s, acts[0]) && Runs(Apply(s, acts[0]), acts[1..], t)
  }

  function Start(n: nat): State { State(seq(n, _ => Top), false, 0, false) }

  /** Workers that will not take another slice. */
  function Retired(pc: seq<Pc>): (k: nat)
    ensures k <= |pc|
  {
    if pc == [] then 0
    else Retired(pc[..|pc| - 1]) + if pc[|pc| - 1] == Stopping || pc[|pc| - 1] == Exited then 1 else 0
  }

  lemma {:induction false} RetiredUpdate(pc: seq<Pc>, w: nat, p: Pc)
    requires w < |pc|
    ensures Retired(pc[w := p]) == Retired(pc)
              - (if pc[w] == Stopping || pc[w] == Exited then 1 else 0)
                  + (if p == Stopping || p == Exited then 1 else 0)
    decreases |pc|
  {
    var n := |pc| - 1;
    if w < n {
      assert pc[w := p][..n] == pc[..n][w := p];
      RetiredUpdate(pc[..n], w, p);
    } else {
      assert pc[w := p][..n] == pc[..n];
    }
  }

  /** A worker that counts the last quantum or a later one retires on it. */
  ghost predicate Inv(s: State) { s.drain < DRAIN_QUANTA + Retired(s.pc) }

  lemma StepKeeps(s: State, a: Action)
    requires Inv(s) && Enabled(s, a)
    ensures Inv(Apply(s, a))
  {
    RetiredUpdate(s.pc, a.w, Apply(s, a).pc[a.w]);
  }

  lemma {:induction false} RunKeeps(s: State, acts: seq<Action>, t: State)
    requires Inv(s) && Runs(s, acts, t)
    ensures Inv(t) && |t.pc| == |s.pc|
    decreases |acts|
  {
    if acts != [] {
      StepKeeps(s, acts[0]);
      RunKeeps(Apply(s, acts[0]), acts[1..], t);
    }
  }

  /** With n workers, no run counts more than 64 + n - 1 slices after the entry
      process has finished. */
  lemma BoundedDrain(n: nat, acts: seq<Action>, t: State)
    requires n > 0 && Runs(Start(n), acts, t)
    ensures t.drain <= DRAIN_QUANTA + n - 1
  {
    RunKeeps(Start(n), acts, t);
  }

  // ---- the bound is reached ----

  lemma {:induction false} RunsJoin(s: State, acts: seq<Action>, t: State, more: seq<Action>, u: State)
    requires Runs(s, acts, t) && Runs(t, more, u)
    ensures Runs(s, acts + more, u)
    decreases |acts|
  {
    if acts == [] {
      assert acts + more == more;
    } else {
      assert (acts + more)[0] == acts[0] && (acts + more)[1..] == acts[1..] + more;
      RunsJoin(Apply(s, acts[0]), acts[1..], t, more, u);
    }
  }

  /** The first k of n workers at one point of the loop, the others at another. */
  function Split(n: nat, k: nat, first: Pc, others: Pc): (pc: seq<Pc>)
    ensures |pc| == n && forall w :: 0 <= w < n ==> pc[w] == if w < k then first else others
  {
    seq(n, w => if w < k then first else others)
  }

  lemma {:induction false} Extend(s: State, acts: seq<Action>, t: State, a: Action)
    requires Runs(s, acts, t) && Enabled(t, a)
    ensures Runs(s, acts + [a], Apply(t, a))
  {
    assert [a][1..] == [] && Runs(Apply(t, a), [], Apply(t, a)) && Runs(t, [a], Apply(t, a));
    RunsJoin(s, acts, t, [a], Apply(t, a));
  }

  /** Worker w takes one slice, in which the entry process ends at the latest. */
  lemma OneSlice(s: State, acts: seq<Action>, t: State, w: nat) returns (more: seq<Action>)
    requires Runs(s, acts, t) && w < |t.pc| && t.pc[w] == Top && !t.stop
    ensures Runs(s, more, t.(pc := t.pc[w := Ran], entryDone := true))
  {
    hide Runs;
    var a, b := Apply(t, Look(w)), Apply(Apply(t, Look(w)), Take(w));
    Extend(s, acts, t, Look(w));
    Extend(s, acts + [Look(w)], a, Take(w));
    Extend(s, acts + [Look(w)] + [Take(w)], b, RunSlice(w, true));
    assert Apply(b, RunSlice(w, true)).pc == t.pc[w := Ran];
    more := acts + [Look(w)] + [Take(w)] + [RunSlice(w, true)];
  }

  /** One worker alone uses up k quanta. */
  lemma {:induction false} Alone(n: nat, k: nat) returns (acts: seq<Action>)
    requires n > 0 && k < DRAIN_QUANTA
    ensures Runs(Start(n), acts, State(Split(n, 0, Ran, Top), k > 0, k, false))
  {
    if k == 0 {
      assert Start(n).pc == Split(n, 0, Ran, Top);
      acts := [];
    } else {
      acts := Alone(n, k - 1);
      var s := State(Split(n, 0, Ran, Top), k - 1 > 0, k - 1, false);
      acts := OneSlice(Start(n), acts, s, 0);
      var t := s.(pc := s.pc[0 := Ran], entryDone := true);
      Extend(Start(n), acts, t, Count(0));
      assert Apply(t, Count(0)).pc == Split(n, 0, Ran, Top);
      acts := acts + [Count(0)];
    }
  }

  /** Then k workers each run a slice before any of them counts it. */
  lemma {:induction false} Together(n: nat, k: nat) returns (acts: seq<Action>)
    requires n > 0 && k <= n
    ensures Runs(Start(n), acts, State(Split(n, k, Ran, Top), true, DRAIN_QUANTA - 1, false))
  {
    if k == 0 {
      acts := Alone(n, DRAIN_QUANTA - 1);
    } else {
      acts := Together(n, k - 1);
      var s := State(Split(n, k - 1, Ran, Top), true, DRAIN_QUANTA - 1, false);
      acts := OneSlice(Start(n), acts, s, k - 1);
      assert s.pc[k - 1 := Ran] == Split(n, k, Ran, Top);
    }
  }

  /** Now each of them counts. */
  lemma {:induction false} Counted(n: nat, k: nat) returns (acts: seq<Action>)
    requires n > 0 && k <= n
    ensures Runs(Start(n), acts, State(Split(n, k, Stopping, Ran), true, DRAIN_QUANTA - 1 + k, false))
  {
    if k == 0 {
      acts := Together(n, n);
      assert Split(n, n, Ran, Top) == Split(n, 0, Stopping, Ran);
    } else {
      acts := Counted(n, k - 1);
      var s := State(Split(n, k - 1, Stopping, Ran), true, DRAIN_QUANTA - 1 + k - 1, false);
      Extend(Start(n), acts, s, Count(k - 1));
      assert Apply(s, Count(k - 1)).pc == Split(n, k, Stopping, Ran);
      acts := acts + [Count(k - 1)];
    }
  }

  /** For every number of workers some run reaches the bound, so it is exact. */
  lemma DrainReached(n: nat) returns (acts: seq<Action>, t: State)
    requires n > 0
    ensures Runs(Start(n), acts, t) && t.drain == DRAIN_QUANTA + n - 1
  {
    acts := Counted(n, n);
    t := State(Split(n, n, Stopping, Ran), true, DRAIN_QUANTA - 1 + n, false);
  }

  // ---- the end is reached ----

  /** How far a worker is from its exit, not counting slices that use up a quantum. */
  function Rank(p: Pc): nat {
    match p
    case Top => 5
    case Busy => 4
    case Slice => 3
    case Ran => 2
    case Empty => 2
    case Stopping => 1
    case Exited => 0
  }

  function Ranks(pc: seq<Pc>): (k: nat)
    ensures k <= 5 * |pc|
  {
    if pc == [] then 0 else Ranks(pc[..|pc| - 1]) + Rank(pc[|pc| - 1])
  }

  lemma {:induction false} RanksUpdate(pc: seq<Pc>, w: nat, p: Pc)
    requires w < |pc|
    ensures Ranks(pc[w := p]) == Ranks(pc) - Rank(pc[w]) + Rank(p)
    decreases |pc|
  {
    var n := |pc| - 1;
    if w < n {
      assert pc[w := p][..n] == pc[..n][w := p];
      RanksUpdate(pc[..n], w, p);
    } else {
      assert pc[w := p][..n] == pc[..n];
    }
  }

  /** Steps left at most: four for each quantum, and each worker's way out. */
  function Left(s: State): int { 4 * (DRAIN_QUANTA + |s.pc| - 1 - s.drain) + Ranks(s.pc) }

  /** Once the entry process is done every step of every worker uses some up. */
  lemma StepSinks(s: State, a: Action)
    requires s.entryDone && Enabled(s, a)
    ensures Apply(s, a).entryDone && Left(Apply(s, a)) < Left(s)
  {
    RanksUpdate(s.pc, a.w, Apply(s, a).pc[a.w]);
  }

  lemma {:induction false} RunSinks(s: State, acts: seq<Action>, t: State)
    requires s.entryDone && Runs(s, acts, t)
    ensures Left(t) + |acts| <= Left(s)
    decreases |acts|
  {
    if acts != [] {
      StepSinks(s, acts[0]);
      RunSinks(Apply(s, acts[0]), acts[1..], t);
    }
  }

  /** A worker that has not left has a step. */
  lemma NotStuck(s: State, w: nat) returns (a: Action)
    requires w < |s.pc| && s.pc[w] != Exited
    ensures Enabled(s, a) && a.w == w
  {
    a := match s.pc[w]
         case Top => Look(w)
         case Busy => Take(w)
         case Slice => RunSlice(w, false)
         case Ran => Count(w)
         case Empty => Check(w, false)
         case _ => Request(w);
  }

  /** Workers leave only when a stop was requested, and one is requested only for the
      end of the entry process. */
  ghost predicate Caused(s: State, seenGone: bool) {
    && (Exited in s.pc ==> s.stop)
    && (Stopping in s.pc || s.stop ==> s.entryDone || seenGone)
  }

  /** Some check found the entry process gone. */
  predicate SawGone(acts: seq<Action>) { exists i :: 0 <= i < |acts| && acts[i].Check? && acts[i].entryGone }

  lemma {:induction false} RunCaused(s: State, acts: seq<Action>, t: State, seenGone: bool)
    requires Runs(s, acts, t) && Caused(s, seenGone)
    ensures Caused(t, seenGone || SawGone(acts))
    decreases |acts|
  {
    if acts != [] {
      var a := acts[0];
      var gone := seenGone || (a.Check? && a.entryGone);
      StepCaused(s, a, seenGone);
      RunCaused(Apply(s, a), acts[1..], t, gone);
      if SawGone(acts[1..]) {
        var i :| 0 <= i < |acts[1..]| && acts[1..][i].Check? && acts[1..][i].entryGone;
        assert acts[i + 1] == acts[1..][i];
      }
    }
  }

  lemma StepCaused(s: State, a: Action, seenGone: bool)
    requires Enabled(s, a) && Caused(s, seenGone)
    ensures Caused(Apply(s, a), seenGone || (a.Check? && a.entryGone))
  {
    var t := Apply(s, a);
    forall p | p in t.pc ensures p in s.pc || p == t.pc[a.w] { }
    assert s.pc[a.w] in s.pc;
  }

  /** Nobody leaves early: in every run a worker has left only after a stop, and a
      stop comes only after the entry process ended or was found gone. */
  lemma StopsForCause(n: nat, acts: seq<Action>, t: State)
    requires Runs(Start(n), acts, t)
    ensures Exited in t.pc ==> t.stop
    ensures t.stop ==> t.entryDone || SawGone(acts)
  {
    RunCaused(Start(n), acts, t, false);
  }

  /** Everybody leaves: once the entry process has ended, every schedule comes to an
      end within a fixed number of steps, and when nothing more can happen a stop was
      requested and all workers have left. */
  lemma WindsDown(n: nat, acts: seq<Action>, s: State, more: seq<Action>, t: State)
    requires n > 0 && Runs(Start(n), acts, s) && s.entryDone && Runs(s, more, t)
    ensures |t.pc| == n && |more| <= 4 * (DRAIN_QUANTA + n - 1) + 5 * n
    ensures (forall a :: !Enabled(t, a)) ==> t.stop && forall w :: 0 <= w < n ==> t.pc[w] == Exited
  {
    hide Enabled;
    RunsJoin(Start(n), acts, s, more, t);
    RunKeeps(Start(n), acts, s);
    RunKeeps(s, more, t);
    BoundedDrain(n, acts + more, t);
    RunSinks(s, more, t);
    StopsForCause(n, acts + more, t);
    if forall a :: !Enabled(t, a) {
      forall w | 0 <= w < n ensures t.pc[w] == Exited {
        if t.pc[w] != Exited { var a := NotStuck(t, w); }
      }
      assert t.pc[0] in t.pc;
    }
  }
}
