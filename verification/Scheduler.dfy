/** Who holds a process: the run queue, a worker, or a thread that is waking or
    creating it.

    One step is one access to shared state that the locks make indivisible.
    Waking takes three of them: the state becomes Running, the wait is taken off
    the wait list, the pid goes onto the run queue.  The model lets other
    threads run in between, also where a lock would keep some of them out.
    Thread ids stand for workers, the I/O poller and the host alike.
 */
module Scheduler {
  import opened Heap

  datatype Life = Running | WaitRecv | WaitIo | Dead

  datatype Waking = Waking(pid: nat, registered: bool)

  /** A wait as the poller saw it: the generation it copied, and which of the
      process's waits that was. */
  datatype Seen = Seen(pid: nat, generation: nat, wait: nat)

  /** `waits` counts the waits of each process, `generation` every change of its
      registration. */
  datatype State = State(life: map<nat, Life>, queue: seq<nat>, listed: set<nat>, generation: map<nat, nat>,
                         waits: map<nat, nat>, run: map<nat, nat>, park: map<nat, nat>, wake: map<nat, Waking>,
                         born: map<nat, nat>, seen: set<Seen>)

  datatype Action =
    | Create(t: nat, pid: nat)
    | Publish(t: nat)
    | Abandon(t: nat)
    | Dequeue(t: nat)
    | Yield(t: nat)
    | Die(t: nat)
    | BlockRecv(t: nat)
    | ParkIo(t: nat)
    | Register(t: nat)
    | Deliver(t: nat, pid: nat)
    | Snapshot(pid: nat)
    | PollWake(t: nat, s: Seen)
    | Expire(t: nat, pid: nat)
    | Unlist(t: nat)
    | Enqueue(t: nat)

  /** The thread's hands are free to start or wake a process. */
  predicate Idle(s: State, t: nat) { t !in s.run && t !in s.park }

  predicate Alive(s: State, p: nat, l: Life) { p in s.life && s.life[p] == l }

  predicate Enabled(s: State, a: Action) {
    match a
    case Create(t, pid) => pid !in s.life && t !in s.born
    case Publish(t) => t in s.born
    case Abandon(t) => t in s.born
    case Dequeue(t) => s.queue != [] && Idle(s, t)
    case Yield(t) => t in s.run
    case Die(t) => t in s.run
    case BlockRecv(t) => t in s.run
    case ParkIo(t) => t in s.run && t !in s.park
    case Register(t) => t in s.park
    case Deliver(t, pid) => t !in s.wake
    case Snapshot(pid) => pid in s.listed && Alive(s, pid, WaitIo)
    case PollWake(t, e) => t !in s.wake && e in s.seen
    case Expire(t, pid) => t !in s.wake && pid in s.listed
    case Unlist(t) => t in s.wake && s.wake[t].registered
    case Enqueue(t) => t in s.wake && !s.wake[t].registered
  }

  function Count(m: map<nat, nat>, p: nat): nat { if p in m then m[p] else 0 }

  /** Only the wait list and its generations differ. */
  predicate SamePlaces(s: State, u: State) {
    && u.queue == s.queue && u.run == s.run && u.park == s.park && u.wake == s.wake && u.born == s.born
    && u.life == s.life && u.waits == s.waits && u.seen == s.seen
  }

  /** Put p on the wait list; every change of the registration starts a new
      generation. */
  function Listed(s: State, p: nat): (u: State)
    ensures SamePlaces(s, u)
  {
    if p in s.listed then s
    else s.(listed := s.listed + {p}, generation := s.generation[p := Count(s.generation, p) + 1])
  }

  function Unlisted(s: State, p: nat): (u: State)
    ensures SamePlaces(s, u)
  {
    if p !in s.listed then s
    else s.(listed := s.listed - {p}, generation := s.generation[p := Count(s.generation, p) + 1])
  }

  function Woken(s: State, t: nat, p: nat): State {
    s.(life := s.life[p := Running], wake := s.wake[t := Waking(p, true)])
  }

  function Apply(s: State, a: Action): (u: State)
    requires Enabled(s, a)
    ensures !a.Snapshot? ==> u.seen == s.seen
  {
    match a
    case Create(t, pid) => s.(life := s.life[pid := Running], born := s.born[t := pid])
    case Publish(t) => s.(queue := s.queue + [s.born[t]], born := s.born - {t})
    case Abandon(t) => s.(life := s.life[s.born[t] := Dead], born := s.born - {t})
    case Dequeue(t) =>
      var p := s.queue[0];
      if Alive(s, p, Running) then s.(queue := s.queue[1..], run := s.run[t := p]) else s.(queue := s.queue[1..])
    case Yield(t) => s.(queue := s.queue + [s.run[t]], run := s.run - {t})
    case Die(t) => Unlisted(s.(life := s.life[s.run[t] := Dead], run := s.run - {t}), s.run[t])
    case BlockRecv(t) =>
      var p := s.run[t];
      Listed(s.(life := s.life[p := WaitRecv], run := s.run - {t}, waits := s.waits[p := Count(s.waits, p) + 1]), p)
    case ParkIo(t) =>
      var p := s.run[t];
      s.(life := s.life[p := WaitIo], run := s.run - {t}, park := s.park[t := p],
        waits := s.waits[p := Count(s.waits, p) + 1])
    case Register(t) => Listed(s.(park := s.park - {t}), s.park[t])
    case Deliver(t, pid) => if Alive(s, pid, WaitRecv) then Woken(s, t, pid) else s
    case Snapshot(pid) => s.(seen := s.seen + {Seen(pid, Count(s.generation, pid), Count(s.waits, pid))})
    case PollWake(t, e) =>
      if e.pid in s.listed && Count(s.generation, e.pid) == e.generation && Alive(s, e.pid, WaitIo)
          then Woken(s, t, e.pid) else s
    case Expire(t, pid) =>
      if Alive(s, pid, WaitIo) || Alive(s, pid, WaitRecv) then Woken(s, t, pid) else s
    case Unlist(t) => Unlisted(s.(wake := s.wake[t := Waking(s.wake[t].pid, false)]), s.wake[t].pid)
    case Enqueue(t) => s.(queue := s.queue + [s.wake[t].pid], wake := s.wake - {t})
  }

  // ---- where a process is ----

  datatype Spot = Queued | RunBy(t: nat) | WokenBy(t: nat) | BornBy(t: nat) | ParkedBy(t: nat)

  predicate At(s: State, p: nat, at: Spot) {
    match at
    case Queued => p in s.queue
    case RunBy(t) => t in s.run && s.run[t] == p
    case WokenBy(t) => t in s.wake && s.wake[t].pid == p
    case BornBy(t) => t in s.born && s.born[t] == p
    case ParkedBy(t) => t in s.park && s.park[t] == p
  }

  /** No process in two places, and none twice in the queue. */
  ghost predicate Once(s: State) {
    && (forall p, a, b :: At(s, p, a) && At(s, p, b) ==> a == b)
    && (forall i, j :: 0 <= i < j < |s.queue| ==> s.queue[i] != s.queue[j])
  }

  /** What a place says about a process: held ones run, parked ones are about to
      wait and are not on the wait list yet. */
  ghost predicate Fits(s: State) {
    forall p, a :: At(s, p, a) ==>
      && p in s.life && s.life[p] == (if a.ParkedBy? then WaitIo else Running)
      && (p in s.listed ==> a.WokenBy? && s.wake[a.t].registered)
  }

  /** No process is lost: one that runs is in some place, one that waits is on
      the wait list or about to get there. */
  ghost predicate Kept(s: State) {
    && (forall p :: Alive(s, p, Running) ==> exists a :: At(s, p, a))
    && (forall p :: Alive(s, p, WaitRecv) ==> p in s.listed)
    && (forall p :: Alive(s, p, WaitIo) ==> p in s.listed || exists a :: At(s, p, a))
    && (forall p :: p in s.listed ==> p in s.life && s.life[p] != Dead)
  }

  /** What the poller saw is never newer than the truth, and older once that
      wait has ended. */
  ghost predicate Dated(s: State) {
    forall e :: e in s.seen ==>
      && e.generation <= Count(s.generation, e.pid)
      && (e.generation == Count(s.generation, e.pid) ==> e.pid in s.listed && Count(s.waits, e.pid) == e.wait)
  }

  ghost predicate Inv(s: State) { Once(s) && Fits(s) && Kept(s) && Dated(s) }

  // ---- every step keeps it ----

  /** Only p changed places, and is now at `to` or nowhere. */
  ghost predicate Moved(s: State, t: State, p: nat, to: Option<Spot>) {
    && (forall q, a :: q != p ==> (At(t, q, a) <==> At(s, q, a)))
    && (forall a :: At(t, p, a) <==> to == Some(a))
  }

  /** The spots stay single when one process moves. */
  lemma MovedOnce(s: State, t: State, p: nat, to: Option<Spot>)
    requires Once(s) && Moved(s, t, p, to)
    ensures forall q, a, b :: At(t, q, a) && At(t, q, b) ==> a == b
  {
  }

  lemma QueueAppend(s: State, t: State, p: nat)
    requires Once(s) && !At(s, p, Queued) && t.queue == s.queue + [p]
    ensures forall i, j :: 0 <= i < j < |t.queue| ==> t.queue[i] != t.queue[j]
    ensures forall q :: At(t, q, Queued) <==> At(s, q, Queued) || q == p
  {
    forall q ensures q in t.queue <==> q in s.queue || q == p { }
  }

  lemma CreateKeeps(s: State, t: nat, pid: nat)
    requires Inv(s) && Enabled(s, Create(t, pid))
    ensures Inv(Apply(s, Create(t, pid)))
  {
    var u := Apply(s, Create(t, pid));
    forall a ensures !At(s, pid, a) { }
    forall q: nat, a ensures At(u, q, a) <==> if q == pid then a == BornBy(t) else At(s, q, a) {
      assert q == pid ==> !At(s, q, a);
    }
    assert Moved(s, u, pid, Some(BornBy(t)));
    MovedOnce(s, u, pid, Some(BornBy(t)));
    KeptByMove(s, u, pid, Some(BornBy(t)));
  }

  /** Nobody else is lost when one process moves and keeps or finds a place. */
  lemma KeptByMove(s: State, t: State, p: nat, to: Option<Spot>)
    requires Kept(s) && Moved(s, t, p, to)
    requires forall q :: q != p ==> (q in t.life <==> q in s.life) && (q in s.life ==> t.life[q] == s.life[q])
    requires forall q :: q != p ==> (q in t.listed <==> q in s.listed)
    requires p in t.life && (to.Some? ==> t.life[p] == Running || t.life[p] == WaitIo)
    requires to.None? ==> t.life[p] == Dead || (p in t.listed && t.life[p] != Running)
    requires p in t.listed ==> t.life[p] != Dead
    ensures Kept(t)
  {
    forall q | Alive(t, q, Running) ensures exists a :: At(t, q, a) {
      if q != p {
        assert Alive(s, q, Running);
        var a :| At(s, q, a);
        assert At(t, q, a);
      } else {
        assert At(t, p, to.value);
      }
    }
    forall q | Alive(t, q, WaitIo) && q !in t.listed ensures exists a :: At(t, q, a) {
      if q != p {
        assert Alive(s, q, WaitIo);
        var a :| At(s, q, a);
        assert At(t, q, a);
      } else {
        assert At(t, p, to.value);
      }
    }
    forall q | Alive(t, q, WaitRecv) ensures q in t.listed {
      if q != p { assert Alive(s, q, WaitRecv); }
    }
  }

  /** A step that takes p from its only place to another one, or to none. */
  lemma StepMoves(s: State, u: State, p: nat, from: Spot, to: Option<Spot>)
    requires Inv(s) && At(s, p, from)
    requires forall q: nat, a :: q != p ==> (At(u, q, a) <==> At(s, q, a))
    requires forall a :: a != from ==> (At(u, p, a) <==> At(s, p, a) || to == Some(a))
    requires to != Some(from) && !At(u, p, from)
    requires forall i, j :: 0 <= i < j < |u.queue| ==> u.queue[i] != u.queue[j]
    ensures Moved(s, u, p, to) && Once(u)
  {
    forall a ensures At(u, p, a) <==> to == Some(a) {
      assert At(s, p, a) ==> a == from;
    }
    MovedOnce(s, u, p, to);
  }

  /** What a place says stays true of everybody else. */
  lemma FitsByMove(s: State, u: State, p: nat, to: Option<Spot>)
    requires Fits(s) && Moved(s, u, p, to)
    requires forall q :: q != p && q in s.life ==> q in u.life && u.life[q] == s.life[q]
    requires forall q :: q != p ==> (q in u.listed <==> q in s.listed)
    requires forall t :: t in s.wake && s.wake[t].pid != p ==> t in u.wake && u.wake[t] == s.wake[t]
    requires to.Some? ==>
      && p in u.life && u.life[p] == (if to.value.ParkedBy? then WaitIo else Running)
      && (p in u.listed ==> to.value.WokenBy? && to.value.t in u.wake && u.wake[to.value.t].registered)
    ensures Fits(u)
  {
    forall q, a | At(u, q, a)
      ensures q in u.life && u.life[q] == (if a.ParkedBy? then WaitIo else Running)
      ensures q in u.listed ==> a.WokenBy? && u.wake[a.t].registered
    {
      if q != p { assert At(s, q, a); }
    }
  }

  /** A running process leaves its worker. */
  lemma RunEnds(s: State, t: nat, u: State, a: Action, to: Option<Spot>)
    requires Inv(s) && t in s.run && Enabled(s, a) && u == Apply(s, a)
    requires (a == Yield(t) && to == Some(Queued)) || (a == ParkIo(t) && to == Some(ParkedBy(t)))
          || ((a == Die(t) || a == BlockRecv(t)) && to == None)
    ensures Once(u) && Moved(s, u, s.run[t], to)
  {
    hide Inv, Once, Listed, Unlisted, Moved;
    LeavesRun(s, t, u, to);
  }

  lemma LeavesRun(s: State, t: nat, u: State, to: Option<Spot>)
    requires Inv(s) && t in s.run && u.run == s.run - {t} && u.wake == s.wake && u.born == s.born
    requires to == None || to == Some(Queued) || (to == Some(ParkedBy(t)) && t !in s.park)
    requires u.queue == s.queue + if to == Some(Queued) then [s.run[t]] else []
    requires u.park == if to == Some(ParkedBy(t)) then s.park[t := s.run[t]] else s.park
    ensures Once(u) && Moved(s, u, s.run[t], to)
  {
    hide Fits, Kept, Dated, Moved;
    var p := s.run[t];
    assert At(s, p, RunBy(t));
    assert !At(s, p, Queued);
    if to == Some(Queued) { QueueAppend(s, u, p); }
    forall q: nat, x ensures q != p ==> (At(u, q, x) <==> At(s, q, x)) {
      assert At(s, q, x) ==> x != RunBy(t) || q == p;
    }
    forall x ensures x != RunBy(t) ==> (At(u, p, x) <==> At(s, p, x) || to == Some(x)) { }
    StepMoves(s, u, p, RunBy(t), to);
  }

  /** Dates when nothing about p is dated, or p's generation went up. */
  lemma DatedStep(s: State, u: State, p: nat)
    requires Dated(s) && u.seen == s.seen
    requires forall q :: q != p ==>
      Count(u.generation, q) == Count(s.generation, q) && Count(u.waits, q) == Count(s.waits, q)
          && (q in u.listed <==> q in s.listed)
    requires || Count(u.generation, p) == Count(s.generation, p) + 1
             || (Count(u.generation, p) == Count(s.generation, p) && p !in s.listed && p !in u.listed)
             || (Count(u.generation, p) == Count(s.generation, p) && Count(u.waits, p) == Count(s.waits, p)
                && p in u.listed)
    ensures Dated(u)
  {
  }

  lemma RunStepKeeps(s: State, a: Action)
    requires Inv(s) && Enabled(s, a) && (a.Yield? || a.Die? || a.BlockRecv? || a.ParkIo?)
    ensures Inv(Apply(s, a))
  {
    hide Once, Moved;
    var t, u := a.t, Apply(s, a);
    var p := s.run[t];
    var to := if a.Yield? then Some(Queued) else if a.ParkIo? then Some(ParkedBy(t)) else None;
    RunEnds(s, t, u, a, to);
    assert At(s, p, RunBy(t));
    assert p !in s.listed && forall x :: x in s.wake && s.wake[x].pid == p ==> At(s, p, WokenBy(x));
    FitsByMove(s, u, p, to);
    KeptByMove(s, u, p, to);
    DatedStep(s, u, p);
  }

  /** A process that was created but never queued. */
  lemma BornKeeps(s: State, a: Action)
    requires Inv(s) && Enabled(s, a) && (a.Publish? || a.Abandon?)
    ensures Inv(Apply(s, a))
  {
    var t, u := a.t, Apply(s, a);
    var p := s.born[t];
    var to := if a.Publish? then Some(Queued) else None;
    assert At(s, p, BornBy(t));
    assert !At(s, p, Queued);
    if a.Publish? { QueueAppend(s, u, p); }
    forall q: nat, x ensures q != p ==> (At(u, q, x) <==> At(s, q, x)) {
      assert At(s, q, x) ==> x != BornBy(t) || q == p;
    }
    forall x ensures x != BornBy(t) ==> (At(u, p, x) <==> At(s, p, x) || to == Some(x)) { }
    StepMoves(s, u, p, BornBy(t), to);
    FinishMove(s, u, p, to, BornBy(t));
  }

  lemma FinishMove(s: State, u: State, p: nat, to: Option<Spot>, from: Spot)
    requires Inv(s) && At(s, p, from) && !from.WokenBy? && Once(u) && Moved(s, u, p, to)
    requires forall q :: q != p ==> (q in u.life <==> q in s.life) && (q in s.life ==> u.life[q] == s.life[q])
    requires u.listed == s.listed && u.wake == s.wake && u.generation == s.generation && u.waits == s.waits
      && u.seen == s.seen
    requires p in u.life && (to.Some? ==> u.life[p] == if to.value.ParkedBy? then WaitIo else Running)
    requires to.None? ==> u.life[p] == Dead
    ensures Inv(u)
  {
    hide Once, Moved;
    assert p !in s.listed;
    FitsByMove(s, u, p, to);
    KeptByMove(s, u, p, to);
    DatedStep(s, u, p);
  }

  lemma DequeueKeeps(s: State, t: nat)
    requires Inv(s) && Enabled(s, Dequeue(t))
    ensures Inv(Apply(s, Dequeue(t))) && Alive(s, s.queue[0], Running)
  {
    var u, p := Apply(s, Dequeue(t)), s.queue[0];
    assert At(s, p, Queued);
    forall q ensures q in u.queue <==> q in s.queue && q != p {
      if q in s.queue && q != p {
        var i :| 0 <= i < |s.queue| && s.queue[i] == q;
        assert u.queue[i - 1] == q;
      }
    }
    forall q: nat, x ensures q != p ==> (At(u, q, x) <==> At(s, q, x)) { }
    forall x ensures x != Queued ==> (At(u, p, x) <==> At(s, p, x) || Some(RunBy(t)) == Some(x)) { }
    StepMoves(s, u, p, Queued, Some(RunBy(t)));
    FinishMove(s, u, p, Some(RunBy(t)), Queued);
  }

  lemma RegisterKeeps(s: State, t: nat)
    requires Inv(s) && Enabled(s, Register(t))
    ensures Inv(Apply(s, Register(t)))
  {
    var u, p := Apply(s, Register(t)), s.park[t];
    assert At(s, p, ParkedBy(t));
    forall q: nat, x ensures q != p ==> (At(u, q, x) <==> At(s, q, x)) { }
    forall x ensures x != ParkedBy(t) ==> (At(u, p, x) <==> At(s, p, x)) { }
    StepMoves(s, u, p, ParkedBy(t), None);
    RegisterRest(s, u, p, t);
  }

  lemma RegisterRest(s: State, u: State, p: nat, t: nat)
    requires Inv(s) && At(s, p, ParkedBy(t)) && u == Apply(s, Register(t)) && Once(u) && Moved(s, u, p, None)
    ensures Inv(u)
  {
    hide Once, Moved;
    assert p !in s.listed;
    FitsByMove(s, u, p, None);
    KeptByMove(s, u, p, None);
    DatedStep(s, u, p);
  }

  /** Waking starts from a listed wait that nobody holds. */
  lemma WokenKeeps(s: State, t: nat, p: nat)
    requires Inv(s) && t !in s.wake && p in s.listed && (Alive(s, p, WaitRecv) || Alive(s, p, WaitIo))
    ensures Inv(Woken(s, t, p))
  {
    var u := Woken(s, t, p);
    forall x ensures !At(s, p, x) { }
    forall q: nat, x ensures At(u, q, x) <==> if q == p then x == WokenBy(t) else At(s, q, x) {
      assert q == p ==> !At(s, q, x);
    }
    assert Moved(s, u, p, Some(WokenBy(t)));
    MovedOnce(s, u, p, Some(WokenBy(t)));
    FitsByMove(s, u, p, Some(WokenBy(t)));
    KeptByMove(s, u, p, Some(WokenBy(t)));
    DatedStep(s, u, p);
  }

  lemma UnlistKeeps(s: State, t: nat)
    requires Inv(s) && Enabled(s, Unlist(t))
    ensures Inv(Apply(s, Unlist(t)))
  {
    var u, p := Apply(s, Unlist(t)), s.wake[t].pid;
    assert At(s, p, WokenBy(t));
    forall q: nat, x ensures At(u, q, x) <==> At(s, q, x) { }
    assert Moved(s, u, p, Some(WokenBy(t)));
    FitsByMove(s, u, p, Some(WokenBy(t)));
    KeptByMove(s, u, p, Some(WokenBy(t)));
    DatedStep(s, u, p);
  }

  lemma EnqueueKeeps(s: State, t: nat)
    requires Inv(s) && Enabled(s, Enqueue(t))
    ensures Inv(Apply(s, Enqueue(t)))
  {
    var u, p := Apply(s, Enqueue(t)), s.wake[t].pid;
    assert At(s, p, WokenBy(t));
    assert !At(s, p, Queued);
    QueueAppend(s, u, p);
    forall q: nat, x ensures q != p ==> (At(u, q, x) <==> At(s, q, x)) { }
    forall x ensures x != WokenBy(t) ==> (At(u, p, x) <==> At(s, p, x) || Some(Queued) == Some(x)) { }
    StepMoves(s, u, p, WokenBy(t), Some(Queued));
    assert forall x :: x in s.wake && s.wake[x].pid == p ==> At(s, p, WokenBy(x));
    FitsByMove(s, u, p, Some(Queued));
    KeptByMove(s, u, p, Some(Queued));
  }

  lemma SnapshotKeeps(s: State, pid: nat)
    requires Inv(s) && Enabled(s, Snapshot(pid))
    ensures Inv(Apply(s, Snapshot(pid)))
  {
    var u := Apply(s, Snapshot(pid));
    forall q: nat, x ensures At(u, q, x) <==> At(s, q, x) { }
    forall q: nat, l: Life ensures Alive(u, q, l) <==> Alive(s, q, l) { }
    forall q: nat | Alive(u, q, Running) || (Alive(u, q, WaitIo) && q !in u.listed) ensures exists x :: At(u, q, x) {
      var x :| At(s, q, x);
      assert At(u, q, x);
    }
  }

  lemma StepKeeps(s: State, a: Action)
    requires Inv(s) && Enabled(s, a)
    ensures Inv(Apply(s, a))
  {
    hide Once, Fits, Dated, Listed, Unlisted, Woken;
    match a
    case Create(t, pid) => CreateKeeps(s, t, pid);
    case Publish(_) => BornKeeps(s, a);
    case Abandon(_) => BornKeeps(s, a);
    case Dequeue(t) => DequeueKeeps(s, t);
    case Register(t) => RegisterKeeps(s, t);
    case Deliver(t, pid) => if Alive(s, pid, WaitRecv) { WokenKeeps(s, t, pid); }
    case Snapshot(pid) => SnapshotKeeps(s, pid);
    case PollWake(t, e) => if Apply(s, a) != s { WokenKeeps(s, t, e.pid); }
    case Expire(t, pid) => if Apply(s, a) != s { WokenKeeps(s, t, pid); }
    case Unlist(t) => UnlistKeeps(s, t);
    case Enqueue(t) => EnqueueKeeps(s, t);
    case _ => RunStepKeeps(s, a);
  }

  // ---- runs ----

  function Start(): State { State(map[], [], {}, map[], map[], map[], map[], map[], map[], {}) }

  predicate Runs(s: State, acts: seq<Action>, u: State)
    decreases |acts|
  {
    if acts == [] then s == u else Enabled(s, acts[0]) && Runs(Apply(s, acts[0]), acts[1..], u)
  }

  lemma {:induction false} RunKeeps(s: State, acts: seq<Action>, u: State)
    requires Inv(s) && Runs(s, acts, u)
    ensures Inv(u)
    decreases |acts|
  {
    if acts != [] {
      StepKeeps(s, acts[0]);
      RunKeeps(Apply(s, acts[0]), acts[1..], u);
    }
  }

  // ---- what each step does ----

  /** The process a step is about. */
  function Subject(s: State, a: Action): (p: nat)
    requires Enabled(s, a)
  {
    match a
    case Create(_, pid) => pid
    case Publish(t) => s.born[t]
    case Abandon(t) => s.born[t]
    case Dequeue(_) => s.queue[0]
    case Yield(t) => s.run[t]
    case Die(t) => s.run[t]
    case BlockRecv(t) => s.run[t]
    case ParkIo(t) => s.run[t]
    case Register(t) => s.park[t]
    case Deliver(_, pid) => pid
    case Snapshot(pid) => pid
    case PollWake(_, e) => e.pid
    case Expire(_, pid) => pid
    case Unlist(t) => s.wake[t].pid
    case Enqueue(t) => s.wake[t].pid
  }

  /** The process has this life and is in this one place, or in none. */
  ghost predicate Stays(u: State, p: nat, l: Life, at: Option<Spot>, listed: bool) {
    && Alive(u, p, l) && (forall a :: At(u, p, a) <==> at == Some(a)) && (p in u.listed <==> listed)
  }

  /** A step wakes its process: a message one that waits for messages, a poll result
      one whose I/O wait is the one polled, a timeout either. */
  predicate Wakes(s: State, a: Action)
    requires Enabled(s, a)
  {
    match a
    case Deliver(_, pid) => Alive(s, pid, WaitRecv)
    case PollWake(_, e) => Alive(s, e.pid, WaitIo) && Count(s.generation, e.pid) == e.generation
    case Expire(_, pid) => Alive(s, pid, WaitRecv) || Alive(s, pid, WaitIo)
    case _ => false
  }

  /** Where each step takes its process. */
  ghost predicate Effect(s: State, a: Action, u: State)
    requires Enabled(s, a)
  {
    var p := Subject(s, a);
    match a
    case Create(t, _) => Stays(u, p, Running, Some(BornBy(t)), false)
    case Publish(_) => Stays(u, p, Running, Some(Queued), false) && u.queue == s.queue + [p]
    case Abandon(_) => Stays(u, p, Dead, None, false)
    case Dequeue(t) => Stays(u, p, Running, Some(RunBy(t)), false) && s.queue == [p] + u.queue
    case Yield(_) => Stays(u, p, Running, Some(Queued), false) && u.queue == s.queue + [p]
    case Die(_) => Stays(u, p, Dead, None, false)
    case BlockRecv(_) => Stays(u, p, WaitRecv, None, true)
    case ParkIo(t) => Stays(u, p, WaitIo, Some(ParkedBy(t)), false)
    case Register(_) => Stays(u, p, WaitIo, None, true)
    case Snapshot(_) => Seen(p, Count(s.generation, p), Count(s.waits, p)) in u.seen && SameButSeen(s, u)
    case Unlist(t) => Stays(u, p, Running, Some(WokenBy(t)), false) && !u.wake[t].registered
    case Enqueue(_) => Stays(u, p, Running, Some(Queued), false) && u.queue == s.queue + [p]
    case _ => if Wakes(s, a) then Stays(u, p, Running, Some(WokenBy(a.t)), true) else u == s
  }

  predicate SameButSeen(s: State, u: State) {
    && u.queue == s.queue && u.run == s.run && u.park == s.park && u.wake == s.wake && u.born == s.born
    && u.life == s.life && u.waits == s.waits && u.listed == s.listed && u.generation == s.generation
  }

  /** With the invariant, one place is the only place, and says what the process
      does there. */
  lemma Settles(u: State, p: nat, at: Spot)
    requires Inv(u) && At(u, p, at)
    ensures Stays(u, p, if at.ParkedBy? then WaitIo else Running, Some(at), p in u.listed)
    ensures p in u.listed ==> at.WokenBy? && u.wake[at.t].registered
  {
  }

  /** A waiting process on the wait list, and a dead one, is in no place. */
  lemma Nowhere(u: State, p: nat, l: Life)
    requires Inv(u) && Alive(u, p, l) && l != Running && (l == WaitIo ==> p in u.listed)
    ensures Stays(u, p, l, None, l != Dead)
  {
    assert forall a :: At(u, p, a) ==> u.life[p] == (if a.ParkedBy? then WaitIo else Running);
    assert forall a :: At(u, p, a) ==> (p in u.listed ==> a.WokenBy?);
  }

  /** Steps that leave the process in a place. */
  lemma MoveEffect(s: State, a: Action, at: Spot)
    requires Inv(s) && Enabled(s, a) && Inv(Apply(s, a))
    requires match a
             case Create(t, _) => at == BornBy(t)
             case Publish(_) => at == Queued
             case Dequeue(t) => at == RunBy(t) && Alive(s, s.queue[0], Running)
             case Yield(_) => at == Queued
             case ParkIo(t) => at == ParkedBy(t)
             case Unlist(t) => at == WokenBy(t)
             case Enqueue(_) => at == Queued
             case _ => false
    ensures Effect(s, a, Apply(s, a))
  {
    hide Inv, Stays;
    var u, p := Apply(s, a), Subject(s, a);
    assert At(u, p, at);
    Settles(u, p, at);
  }

  /** Steps that leave it waiting, or dead. */
  lemma LeaveEffect(s: State, a: Action)
    requires Inv(s) && Enabled(s, a) && Inv(Apply(s, a)) && (a.Abandon? || a.Die? || a.BlockRecv? || a.Register?)
    requires a.Register? ==> Alive(s, s.park[a.t], WaitIo)
    ensures Effect(s, a, Apply(s, a))
  {
    hide Inv, Stays;
    var u, p := Apply(s, a), Subject(s, a);
    Nowhere(u, p, if a.BlockRecv? then WaitRecv else if a.Register? then WaitIo else Dead);
  }

  /** Steps that may wake it. */
  lemma WakeEffect(s: State, a: Action)
    requires Inv(s) && Enabled(s, a) && Inv(Apply(s, a)) && (a.Deliver? || a.PollWake? || a.Expire?)
    ensures Effect(s, a, Apply(s, a))
    ensures Wakes(s, a) ==> Subject(s, a) in s.listed && Apply(s, a) == Woken(s, a.t, Subject(s, a))
  {
    hide Stays, Once, Fits;
    var u, p := Apply(s, a), Subject(s, a);
    if Wakes(s, a) {
      assert At(u, p, WokenBy(a.t));
      Settles(u, p, WokenBy(a.t));
    }
  }

  /** Every step takes its process where it should: a message, a poll result of the
      current generation and a timeout make a waiting process Running, in the hands
      of the waker; the waker takes it off the wait list and puts it at the end of
      the queue; a worker takes the head of the queue. */
  lemma StepEffect(s: State, a: Action)
    requires Inv(s) && Enabled(s, a)
    ensures Effect(s, a, Apply(s, a))
  {
    hide Inv, Apply, Effect;
    StepKeeps(s, a);
    match a
    case Create(t, _) => MoveEffect(s, a, BornBy(t));
    case Publish(_) => MoveEffect(s, a, Queued);
    case Dequeue(t) =>
      DequeueKeeps(s, t);
      MoveEffect(s, a, RunBy(t));
    case Yield(_) => MoveEffect(s, a, Queued);
    case ParkIo(t) => MoveEffect(s, a, ParkedBy(t));
    case Unlist(t) => MoveEffect(s, a, WokenBy(t));
    case Enqueue(_) => MoveEffect(s, a, Queued);
    case Register(t) =>
      Parked(s, t);
      LeaveEffect(s, a);
    case Snapshot(_) => SnapshotEffect(s, a);
    case Deliver(_, _) => WakeEffect(s, a);
    case PollWake(_, _) => WakeEffect(s, a);
    case Expire(_, _) => WakeEffect(s, a);
    case _ => LeaveEffect(s, a);
  }

  lemma Parked(s: State, t: nat)
    requires Inv(s) && t in s.park
    ensures Alive(s, s.park[t], WaitIo)
  {
    assert At(s, s.park[t], ParkedBy(t));
  }

  lemma SnapshotEffect(s: State, a: Action)
    requires Enabled(s, a) && a.Snapshot?
    ensures Effect(s, a, Apply(s, a))
  {
  }

  /** Process q has not changed, as far as the place `at` goes. */
  ghost predicate SameAt(s: State, u: State, q: nat, at: Spot) {
    && (At(u, q, at) <==> At(s, q, at)) && (q in u.listed <==> q in s.listed)
    && (forall l :: Alive(u, q, l) <==> Alive(s, q, l))
  }

  lemma BornStays(s: State, a: Action, q: nat, at: Spot)
    requires Enabled(s, a) && q != Subject(s, a) && (a.Create? || a.Publish? || a.Abandon?)
    ensures SameAt(s, Apply(s, a), q, at)
  {
    hide Count;
  }

  lemma DequeueStays(s: State, t: nat, q: nat, at: Spot)
    requires Enabled(s, Dequeue(t)) && q != Subject(s, Dequeue(t))
    ensures SameAt(s, Apply(s, Dequeue(t)), q, at)
  {
    hide Apply;
    TailHas(s.queue, q);
    DequeueIs(s, t);
  }

  lemma DequeueIs(s: State, t: nat)
    requires Enabled(s, Dequeue(t))
    ensures var u := Apply(s, Dequeue(t));
            && t !in s.run && u.queue == s.queue[1..] && (u.run == s.run || u.run == s.run[t := s.queue[0]])
            && u.wake == s.wake && u.born == s.born && u.park == s.park && u.life == s.life && u.listed == s.listed
  {
  }

  lemma TailHas(queue: seq<nat>, q: nat)
    requires queue != [] && q != queue[0]
    ensures q in queue[1..] <==> q in queue
  {
    assert queue == [queue[0]] + queue[1..];
  }

  lemma RunStays(s: State, a: Action, q: nat, at: Spot)
    requires Enabled(s, a) && q != Subject(s, a) && (a.Yield? || a.Die? || a.BlockRecv? || a.ParkIo?)
    ensures SameAt(s, Apply(s, a), q, at)
  {
    hide Count;
  }

  lemma WaitStays(s: State, a: Action, q: nat, at: Spot)
    requires Enabled(s, a) && q != Subject(s, a) && (a.Register? || a.Snapshot? || a.Deliver?)
    ensures SameAt(s, Apply(s, a), q, at)
  {
    hide Count;
  }

  lemma PollStays(s: State, a: Action, q: nat, at: Spot)
    requires Enabled(s, a) && q != Subject(s, a) && (a.PollWake? || a.Expire?)
    ensures SameAt(s, Apply(s, a), q, at)
  {
    hide Apply;
    PollIs(s, a);
  }

  lemma PollIs(s: State, a: Action)
    requires Enabled(s, a) && (a.PollWake? || a.Expire?)
    ensures a.t !in s.wake && (Apply(s, a) == s || Apply(s, a) == Woken(s, a.t, Subject(s, a)))
  {
    hide Count, Woken;
  }

  lemma WakeStays(s: State, a: Action, q: nat, at: Spot)
    requires Enabled(s, a) && q != Subject(s, a) && (a.Unlist? || a.Enqueue?)
    ensures SameAt(s, Apply(s, a), q, at)
  {
    hide Count;
  }

  /** No step touches any other process: its life, its place and its listing stay. */
  lemma OthersStay(s: State, a: Action, q: nat, at: Spot)
    requires Enabled(s, a) && q != Subject(s, a)
    ensures SameAt(s, Apply(s, a), q, at)
  {
    hide SameAt, Apply, Enabled, Subject;
    match a
    case Create(_, _) => BornStays(s, a, q, at);
    case Publish(_) => BornStays(s, a, q, at);
    case Abandon(_) => BornStays(s, a, q, at);
    case Dequeue(t) => DequeueStays(s, t, q, at);
    case Register(_) => WaitStays(s, a, q, at);
    case Snapshot(_) => WaitStays(s, a, q, at);
    case Deliver(_, _) => WaitStays(s, a, q, at);
    case PollWake(_, _) => PollStays(s, a, q, at);
    case Expire(_, _) => PollStays(s, a, q, at);
    case Unlist(_) => WakeStays(s, a, q, at);
    case Enqueue(_) => WakeStays(s, a, q, at);
    case _ => RunStays(s, a, q, at);
  }

  // ---- a sleeper's way back to a worker ----

  lemma OneStep(s: State, a: Action, acts: seq<Action>, u: State)
    requires Enabled(s, a) && Runs(Apply(s, a), acts, u)
    ensures Runs(s, [a] + acts, u)
  {
    assert ([a] + acts)[1..] == acts;
  }

  lemma ThreeSteps(s: State, a: Action, b: Action, c: Action)
    requires Enabled(s, a) && Enabled(Apply(s, a), b) && Enabled(Apply(Apply(s, a), b), c)
    ensures Runs(s, [a, b, c], Apply(Apply(Apply(s, a), b), c))
  {
    hide Enabled, Apply;
    var m := Apply(s, a);
    var n := Apply(m, b);
    var u := Apply(n, c);
    assert [c] + [] == [c] && [b] + [c] == [b, c] && [a] + [b, c] == [a, b, c];
    OneStep(n, c, [], u);
    OneStep(m, b, [c], u);
    OneStep(s, a, [b, c], u);
  }

  /** Once a step wakes a process, the waker's next two steps can follow and leave it
      at the end of the queue, Running and off the wait list. */
  lemma WakeQueues(s: State, a: Action) returns (u: State)
    requires Inv(s) && Enabled(s, a) && Wakes(s, a)
    ensures Inv(u) && Runs(s, [a, Unlist(a.t), Enqueue(a.t)], u)
    ensures u.queue == s.queue + [Subject(s, a)] && Alive(u, Subject(s, a), Running) && Subject(s, a) !in u.listed
    ensures u.run == s.run && u.park == s.park && u.wake == s.wake
  {
    hide Inv, Effect, Runs, Apply, Subject, Woken;
    var t := a.t;
    StepKeeps(s, a);
    WakeEffect(s, a);
    assert t !in s.wake;
    WakerEnds(s, t, Subject(s, a));
    ThreeSteps(s, a, Unlist(t), Enqueue(t));
    var b := Apply(s, a);
    StepKeeps(b, Unlist(t));
    var c := Apply(b, Unlist(t));
    StepKeeps(c, Enqueue(t));
    u := Apply(c, Enqueue(t));
  }

  lemma WakerEnds(s: State, t: nat, p: nat)
    requires t !in s.wake
    ensures Enabled(Woken(s, t, p), Unlist(t)) && Enabled(Apply(Woken(s, t, p), Unlist(t)), Enqueue(t))
    ensures var u := Apply(Apply(Woken(s, t, p), Unlist(t)), Enqueue(t));
            && u.queue == s.queue + [p] && Alive(u, p, Running) && p !in u.listed
            && u.run == s.run && u.park == s.park && u.wake == s.wake
  {
  }

  lemma NoSteps(s: State)
    ensures Runs(s, [], s)
  {
  }

  /** Taking turns: k rounds of running the head and yielding. */
  function Turns(t: nat, k: nat): seq<Action> {
    if k == 0 then [Dequeue(t)] else [Dequeue(t), Yield(t)] + Turns(t, k - 1)
  }

  /** The queue is fair: a free worker that takes turns reaches the k-th process in
      its (k+1)-th turn. */
  lemma {:induction false} RoundRobin(s: State, t: nat, k: nat) returns (u: State)
    requires Inv(s) && Idle(s, t) && k < |s.queue|
    ensures Inv(u) && Runs(s, Turns(t, k), u) && At(u, s.queue[k], RunBy(t))
    decreases k
  {
    hide Inv, Runs;
    DequeueKeeps(s, t);
    var b := Apply(s, Dequeue(t));
    if k == 0 {
      u := b;
      NoSteps(u);
      OneStep(s, Dequeue(t), [], u);
      assert [Dequeue(t)] + [] == [Dequeue(t)];
    } else {
      StepKeeps(b, Yield(t));
      var c := Apply(b, Yield(t));
      assert c.queue == s.queue[1..] + [s.queue[0]] && c.queue[k - 1] == s.queue[k];
      u := RoundRobin(c, t, k - 1);
      OneStep(b, Yield(t), Turns(t, k - 1), u);
      OneStep(s, Dequeue(t), [Yield(t)] + Turns(t, k - 1), u);
      assert [Dequeue(t)] + ([Yield(t)] + Turns(t, k - 1)) == Turns(t, k);
    }
  }

  lemma {:induction false} RunsJoin(s: State, acts: seq<Action>, m: State, more: seq<Action>, u: State)
    requires Runs(s, acts, m) && Runs(m, more, u)
    ensures Runs(s, acts + more, u)
    decreases |acts|
  {
    hide Apply, Enabled;
    if acts == [] {
      assert acts + more == more;
    } else {
      assert (acts + more)[1..] == acts[1..] + more;
      RunsJoin(Apply(s, acts[0]), acts[1..], m, more, u);
    }
  }

  /** A parked process is first put on the wait list. */
  lemma Registers(s: State, p: nat) returns (acts: seq<Action>, u: State)
    requires Inv(s) && Alive(s, p, WaitIo)
    ensures Runs(s, acts, u) && Inv(u) && Alive(u, p, WaitIo) && p in u.listed
    ensures u.queue == s.queue && u.run == s.run && u.wake == s.wake && forall t :: t in u.park ==> t in s.park
  {
    if p in s.listed {
      acts, u := [], s;
    } else {
      var w := ParkedBySome(s, p);
      StepKeeps(s, Register(w));
      acts, u := [Register(w)], Apply(s, Register(w));
      NoSteps(u);
      OneStep(s, Register(w), [], u);
      assert [Register(w)] + [] == acts;
    }
  }

  lemma ParkedBySome(s: State, p: nat) returns (w: nat)
    requires Inv(s) && Alive(s, p, WaitIo) && p !in s.listed
    ensures w in s.park && s.park[w] == p
  {
    var a :| At(s, p, a);
    assert a.ParkedBy?;
    w := a.t;
  }

  /** A listed I/O wait can be polled and then woken. */
  lemma Polled(s: State, p: nat, t: nat) returns (u: State, e: Seen)
    requires Inv(s) && Alive(s, p, WaitIo) && p in s.listed && t !in s.wake
    ensures Runs(s, [Snapshot(p)], u) && Inv(u) && SameButSeen(s, u) && e.pid == p
    ensures Enabled(u, PollWake(t, e)) && Wakes(u, PollWake(t, e))
  {
    hide Inv, Runs;
    StepKeeps(s, Snapshot(p));
    u := Apply(s, Snapshot(p));
    e := Seen(p, Count(s.generation, p), Count(s.waits, p));
    NoSteps(u);
    OneStep(s, Snapshot(p), [], u);
    assert [Snapshot(p)] + [] == [Snapshot(p)];
  }

  /** A waiting process can be brought to the end of the queue by any thread that is
      not waking another one. */
  lemma Rouse(s: State, p: nat, t: nat) returns (acts: seq<Action>, u: State)
    requires Inv(s) && (Alive(s, p, WaitRecv) || Alive(s, p, WaitIo)) && t !in s.wake
    ensures Runs(s, acts, u) && Inv(u) && u.queue == s.queue + [p]
    ensures u.run == s.run && forall w :: w in u.park ==> w in s.park
  {
    hide Inv, Runs, Apply;
    if Alive(s, p, WaitRecv) {
      u := WakeQueues(s, Deliver(t, p));
      acts := [Deliver(t, p), Unlist(t), Enqueue(t)];
    } else {
      var first, m := Registers(s, p);
      var n, e := Polled(m, p, t);
      u := WakeQueues(n, PollWake(t, e));
      var last := [PollWake(t, e), Unlist(t), Enqueue(t)];
      RunsJoin(m, [Snapshot(p)], n, last, u);
      RunsJoin(s, first, m, [Snapshot(p)] + last, u);
      acts := first + ([Snapshot(p)] + last);
    }
  }

  /** Nobody sleeps for good: from every state a waiting process can be woken and then
      reached by any free worker. */
  lemma SleeperRuns(s: State, p: nat, t: nat, w: nat) returns (acts: seq<Action>, u: State)
    requires Inv(s) && (Alive(s, p, WaitRecv) || Alive(s, p, WaitIo)) && t !in s.wake && Idle(s, w)
    ensures Runs(s, acts, u) && Inv(u) && At(u, p, RunBy(w))
  {
    hide Inv, Runs, Alive;
    var first, m := Rouse(s, p, t);
    u := RoundRobin(m, w, |s.queue|);
    RunsJoin(s, first, m, Turns(w, |s.queue|), u);
    acts := first + Turns(w, |s.queue|);
  }

  /** A worker's process runs, is nobody else's, and is in no list. */
  lemma HeldAlone(s: State, t: nat)
    requires Once(s) && Fits(s) && t in s.run
    ensures Alive(s, s.run[t], Running) && s.run[t] !in s.queue && s.run[t] !in s.listed
    ensures forall w :: w in s.run && s.run[w] == s.run[t] ==> w == t
  {
    var p := s.run[t];
    assert At(s, p, RunBy(t));
    assert !At(s, p, Queued);
    forall w | w in s.run && s.run[w] == p ensures w == t { assert At(s, p, RunBy(w)); }
  }

  /** In every run a process that can execute is in exactly one place, no two
      workers hold the same one, and a worker never takes one that may not
      run. */
  lemma OneHolder(acts: seq<Action>, u: State)
    requires Runs(Start(), acts, u)
    ensures forall p :: Alive(u, p, Running) ==> exists a :: At(u, p, a) && forall b :: At(u, p, b) ==> b == a
    ensures forall t :: t in u.run ==>
      && Alive(u, u.run[t], Running) && u.run[t] !in u.queue && u.run[t] !in u.listed
      && forall w :: w in u.run && u.run[w] == u.run[t] ==> w == t
    ensures forall i, j :: 0 <= i < j < |u.queue| ==> u.queue[i] != u.queue[j]
    ensures forall p :: p in u.queue ==> Alive(u, p, Running)
  {
    RunKeeps(Start(), acts, u);
    hide Runs, Dated;
    forall p | Alive(u, p, Running) ensures exists a :: At(u, p, a) && forall b :: At(u, p, b) ==> b == a {
      var a :| At(u, p, a);
    }
    forall t | t in u.run
      ensures Alive(u, u.run[t], Running) && u.run[t] !in u.queue && u.run[t] !in u.listed
      ensures forall w :: w in u.run && u.run[w] == u.run[t] ==> w == t
    {
      HeldAlone(u, t);
    }
    forall p | p in u.queue ensures Alive(u, p, Running) { assert At(u, p, Queued); }
  }

  lemma SeenNow(s: State, a: Action, e: Seen)
    requires Enabled(s, a) && e in Apply(s, a).seen && e !in s.seen
    ensures a == Snapshot(e.pid) && Count(s.waits, e.pid) == e.wait
  {
    hide Listed, Unlisted, Alive, Idle, Count;
  }

  /** What the poller saw it saw in some state of the run. */
  lemma {:induction false} SeenWhen(s: State, acts: seq<Action>, u: State, e: Seen) returns (i: nat, m: State)
    requires Runs(s, acts, u) && e in u.seen && e !in s.seen
    ensures i < |acts| && acts[i] == Snapshot(e.pid) && Runs(s, acts[..i], m) && Enabled(m, acts[i])
    ensures Count(m.waits, e.pid) == e.wait
    decreases |acts|
  {
    hide Apply, Enabled;
    var n := Apply(s, acts[0]);
    if e in n.seen {
      SeenNow(s, acts[0], e);
      i, m := 0, s;
      assert acts[..0] == [];
    } else {
      i, m := SeenWhen(n, acts[1..], u, e);
      i := i + 1;
      assert acts[..i][1..] == acts[1..][..i - 1];
    }
  }

  /** In every run a poll result wakes the very wait it was taken for: the process
      was waiting when the poller looked, has not begun another wait since, and is
      still waiting. */
  lemma NoStaleWake(acts: seq<Action>, s: State, t: nat, e: Seen) returns (i: nat, m: State)
    requires Runs(Start(), acts, s) && Enabled(s, PollWake(t, e)) && Apply(s, PollWake(t, e)) != s
    ensures i < |acts| && acts[i] == Snapshot(e.pid) && Runs(Start(), acts[..i], m) && Alive(m, e.pid, WaitIo)
    ensures Alive(s, e.pid, WaitIo) && e.pid in s.listed && Count(s.waits, e.pid) == Count(m.waits, e.pid)
  {
    hide Once, Fits, Kept, Runs;
    StartInv();
    RunKeeps(Start(), acts, s);
    i, m := SeenWhen(Start(), acts, s, e);
  }

  lemma StartInv()
    ensures Inv(Start())
  {
  }

  /** In every run no process is lost: one that waits can still be found. */
  lemma NoneLost(acts: seq<Action>, u: State)
    requires Runs(Start(), acts, u)
    ensures forall p :: Alive(u, p, WaitRecv) ==> p in u.listed
    ensures forall p :: Alive(u, p, WaitIo) ==> (p in u.listed <==> !(exists t :: At(u, p, ParkedBy(t))))
  {
    RunKeeps(Start(), acts, u);
    forall p | Alive(u, p, WaitIo) ensures p in u.listed <==> !(exists t :: At(u, p, ParkedBy(t))) {
      if p !in u.listed {
        var a :| At(u, p, a);
        assert a.ParkedBy?;
        assert At(u, p, ParkedBy(a.t));
      }
    }
  }
}

/** The run queue: a circular buffer that doubles when it is full. */
module RunQueue {

  /** Cell of the i-th item behind position `head`. */
  function Cell(head: nat, i: nat, n: nat): (c: nat)
    requires n > 0
    ensures c < n
  {
    (head + i) % n
  }

  lemma Multiple(d: int, n: nat)
    ensures d >= 1 ==> d * n >= n
    ensures d <= 0 ==> d * n <= 0
  {
  }

  /** Two items less than one lap apart use different cells. */
  lemma Apart(head: nat, i: nat, j: nat, n: nat)
    requires n > 0 && i < j < i + n
    ensures Cell(head, i, n) != Cell(head, j, n)
  {
    var a, b := head + i, head + j;
    var d := b / n - a / n;
    assert b - a == d * n + (b % n - a % n);
    Multiple(d, n);
  }

  class Queue {
    var buf: array<int>
    var head: nat
    var tail: nat

    ghost var items: seq<int>

    ghost predicate Valid()
      reads this, buf
    {
      && buf.Length > 0 && head <= tail <= head + buf.Length && |items| == tail - head
      && forall i :: 0 <= i < |items| ==> items[i] == buf[Cell(head, i, buf.Length)]
    }

    constructor (cap: nat)
      requires cap > 0
      ensures Valid() && items == [] && fresh(buf)
    {
      buf := new int[cap];
      head, tail, items := 0, 0, [];
    }

    /** Move the items to the front of a buffer twice the size. */
    method Grow()
      requires Valid()
      modifies this
      ensures Valid() && items == old(items) && fresh(buf) && buf.Length == 2 * old(buf.Length)
    {
      hide Cell;
      var count := tail - head;
      var bigger := new int[2 * buf.Length];
      var i := 0;
      while i < count
        invariant 0 <= i <= count
        invariant forall k :: 0 <= k < i ==> bigger[k] == items[k]
        modifies bigger
      {
        bigger[i] := buf[Cell(head, i, buf.Length)];
        i := i + 1;
      }
      buf, head, tail := bigger, 0, count;
      forall k: nat | k < |items| ensures Cell(0, k, buf.Length) == k { FirstLap(k, buf.Length); }
    }

    lemma FirstLap(k: nat, n: nat)
      requires k < n
      ensures Cell(0, k, n) == k
    {
    }

    /** Add at the end, growing first if needed: nothing is overwritten. */
    method Enqueue(pid: int)
      requires Valid()
      modifies this, buf
      ensures Valid() && items == old(items) + [pid]
      ensures buf == old(buf) || fresh(buf)
    {
      hide Cell;
      if tail - head >= buf.Length { Grow(); }
      ghost var n := |items|;
      forall i: nat | i < n ensures Cell(head, i, buf.Length) != Cell(head, n, buf.Length) {
        Apart(head, i, n, buf.Length);
      }
      buf[Cell(head, tail - head, buf.Length)] := pid;
      items := items + [pid];
      tail := tail + 1;
    }

    /** Take the oldest, or -1 when there is none. */
    method TryDequeue() returns (pid: int)
      requires Valid()
      modifies this
      ensures Valid() && buf == old(buf)
      ensures if old(items) == [] then pid == -1 && items == [] else pid == old(items)[0] && items == old(items)[1..]
    {
      hide Cell;
      if tail == head { return -1; }
      pid := buf[Cell(head, 0, buf.Length)];
      ghost var n, second := buf.Length, head + 1;
      forall i: nat | i < |items| - 1 ensures Cell(second, i, n) == Cell(head, i + 1, n) { NextCell(head, i, n); }
      items := items[1..];
      head := head + 1;
    }

    lemma NextCell(head: nat, i: nat, n: nat)
      requires n > 0
      ensures Cell(head + 1, i, n) == Cell(head, i + 1, n)
    {
    }
  }
}
