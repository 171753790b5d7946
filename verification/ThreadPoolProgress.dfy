/**
  Why the thread pool gets its work done: a queue with work in it is never left
  to workers that all sleep, and every step brings the requests in it closer to
  their end.
 */
module ThreadPoolProgress {
  import opened Options
  import opened ThreadPool
  import opened ThreadPoolSafety

  function Sleepers(ws: seq<Worker>): nat
  {
    if ws == [] then 0 else (if ws[0].Waiting? then 1 else 0) + Sleepers(ws[1..])
  }

  lemma {:induction false} SleepersUpdate(ws: seq<Worker>, i: nat, k: Worker)
    requires i < |ws|
    ensures Sleepers(ws[i := k]) == Sleepers(ws) - (if ws[i].Waiting? then 1 else 0) + (if k.Waiting? then 1 else 0)
  {
    if i == 0 {
      assert ws[i := k][1..] == ws[1..];
    } else {
      SleepersUpdate(ws[1..], i - 1, k);
      assert ws[i := k][1..] == ws[1..][i - 1 := k];
    }
  }

  lemma {:induction false} SleepersNone(ws: seq<Worker>)
    ensures Sleepers(ws) == 0 <==> forall i :: 0 <= i < |ws| ==> !ws[i].Waiting?
  {
    if ws != [] {
      SleepersNone(ws[1..]);
      assert forall i :: 1 <= i < |ws| ==> ws[i] == ws[1..][i - 1];
    }
  }

  /** A worker that will look at the queue again without being signalled. */
  predicate Awake(k: Worker)
  {
    k != Exited && k != Waiting(false)
  }

  predicate AllExited(ws: seq<Worker>)
  {
    forall i :: 0 <= i < |ws| ==> ws[i] == Exited
  }

  predicate Attended(ws: seq<Worker>)
  {
    AllExited(ws) || exists i :: 0 <= i < |ws| && Awake(ws[i])
  }

  /** idle_threads counts the sleepers, and work in the queue means that somebody is up. */
  ghost predicate Lively(s: State)
  {
    && |s.workers| >= 1
    && s.idle == Sleepers(s.workers)
    && (s.wq != [] ==> Attended(s.workers))
  }

  lemma InitiallyLively(s: State)
    requires Initial(s)
    ensures Lively(s)
  {
    SleepersNone(s.workers);
  }

  /** A signal leaves somebody awake, or finds everybody gone. */
  lemma SignalAttends(ws: seq<Worker>, j: Option<nat>)
    requires Wakes(ws, j)
    ensures Attended(Signalled(ws, j)) && Sleepers(Signalled(ws, j)) == Sleepers(ws)
  {
    var t := Signalled(ws, j);
    if j.Some? {
      SleepersUpdate(ws, j.value, Waiting(true));
      assert Awake(t[j.value]);
    } else if !AllExited(t) {
      var i :| 0 <= i < |t| && t[i] != Exited;
      assert Awake(t[i]);
    }
  }

  /** Nobody asleep: whoever has not exited is awake, signal or not. */
  lemma NobodyAsleep(ws: seq<Worker>)
    requires Sleepers(ws) == 0
    ensures Attended(ws)
  {
    SleepersNone(ws);
    if !AllExited(ws) {
      var i :| 0 <= i < |ws| && ws[i] != Exited;
      assert Awake(ws[i]);
    }
  }

  lemma LivelyByPost(s: State, a: Action)
    requires Lively(s) && Enabled(s, a) && (a.Post? || a.ExitPost?)
    ensures Lively(Apply(s, a))
  {
    hide Wakes, Attended;
    if s.idle > 0 {
      SignalAttends(s.workers, a.j);
    } else {
      NobodyAsleep(s.workers);
    }
  }

  /** The last to leave passes the signal on. */
  lemma LivelyByLeave(s: State, a: Action)
    requires Lively(s) && Enabled(s, a) && a.Leave?
    ensures Lively(Apply(s, a))
  {
    var mid := Signalled(s.workers, a.j);
    SignalAttends(s.workers, a.j);
    SleepersUpdate(mid, a.i, Exited);
    var ws := mid[a.i := Exited];
    if !AllExited(ws) {
      var k :| 0 <= k < |ws| && ws[k] != Exited;
      if a.j.Some? {
        assert Awake(ws[a.j.value]);
      } else {
        assert Awake(ws[k]);
      }
    }
  }

  lemma LivelyByWorker(s: State, a: Action)
    requires Lively(s) && Enabled(s, a) && OfWorker(a) && !a.Leave?
    ensures Lively(Apply(s, a))
  {
    var t := Apply(s, a);
    SleepersUpdate(s.workers, a.i, t.workers[a.i]);
    assert t.workers == s.workers[a.i := t.workers[a.i]];
    assert t.wq != [] ==> Awake(t.workers[a.i]);
  }

  lemma LivelyKept(s: State, a: Action)
    requires Lively(s) && Enabled(s, a)
    ensures Lively(Apply(s, a))
  {
    if a.Post? || a.ExitPost? {
      LivelyByPost(s, a);
    } else if a.Leave? {
      LivelyByLeave(s, a);
    } else if OfWorker(a) {
      LivelyByWorker(s, a);
    } else if a.CancelDecide? {
      hide Attended;
      assert s.wq == [] ==> Without(s.wq, Item(s.loops[a.l].call.w)) == [];
    } else {
      hide Attended;
    }
  }

  lemma {:induction false} RunLively(states: seq<State>, actions: seq<Action>, n: nat)
    requires IsRun(states, actions) && n < |states|
    ensures Lively(states[n])
  {
    hide Lively, Enabled, Apply;
    if n == 0 {
      InitiallyLively(states[0]);
    } else {
      RunLively(states, actions, n - 1);
      LivelyKept(states[n - 1], actions[n - 1]);
    }
  }

  /** Never is there work in the queue while every worker that is left sleeps unsignalled. */
  lemma NeverAbandoned(states: seq<State>, actions: seq<Action>, n: nat)
    requires IsRun(states, actions) && n < |states| && states[n].wq != []
    ensures AllExited(states[n].workers) || exists i :: 0 <= i < |states[n].workers| && Awake(states[n].workers[i])
  {
    RunLively(states, actions, n);
  }

  /** Steps the pool takes by itself: no new calls from outside, and no spurious wake-ups. */
  predicate Internal(a: Action)
  {
    !a.Submit? && !a.Cancel? && !a.ExitStart? && !a.Spurious?
  }

  ghost predicate Stuck(s: State)
  {
    forall a :: Internal(a) ==> !Enabled(s, a)
  }

  /** A signal always has somebody to wake, or nobody who waits for one. */
  lemma SignalPossible(ws: seq<Worker>) returns (j: Option<nat>)
    ensures Wakes(ws, j)
  {
    if i: nat :| i < |ws| && ws[i] == Waiting(false) {
      j := Some(i);
    } else {
      j := None;
    }
  }

  /** While a loop's lock is held, its holder can take a step. */
  lemma LockMover(s: State, l: nat) returns (a: Action)
    requires Safe(s) && l < |s.loops| && s.loops[l].lock != Nobody
    ensures Internal(a) && Enabled(s, a)
  {
    hide Safe, Enabled;
    NoCircularWait(s, l);
    if s.loops[l].lock.ByWorker? {
      a := Deliver(s.loops[l].lock.i);
    } else if Enabled(s, CancelDecide(l)) {
      a := CancelDecide(l);
    } else if Enabled(s, Move(l)) {
      a := Move(l);
    } else {
      a := DrainMove(l);
    }
  }

  /** While the mutex is held, its holder or the one it waits for can take a step. */
  lemma MutexMover(s: State) returns (a: Action)
    requires Safe(s) && s.mutex != Nobody
    ensures Internal(a) && Enabled(s, a)
  {
    hide HistoryOk, PlaceOk;
    var j := SignalPossible(s.workers);
    var k := if s.idle > 0 then j else None;
    if s.mutex.ByWorker? {
      var i := s.mutex.i;
      assert WorkerOk(s, i);
      if s.wq == [] {
        a := Sleep(i);
      } else if s.wq[0].Item? {
        assert Item(s.wq[0].w) in s.wq;
        a := Take(i);
      } else {
        a := Leave(i, j);
      }
    } else if s.mutex.ByLoop? {
      a := LoopWithMutexMover(s, s.mutex.l, k);
    } else {
      a := ExitPost(k);
    }
  }

  lemma LoopWithMutexMover(s: State, l: nat, k: Option<nat>) returns (a: Action)
    requires Safe(s) && s.mutex == ByLoop(l) && l < |s.loops| && WakesIf(s.idle > 0, s.workers, k)
    ensures Internal(a) && Enabled(s, a)
  {
    hide HistoryOk, PlaceOk, QueueOk, WakesIf;
    assert LoopOk(s, l);
    if s.loops[l].call.PostHold? {
      a := Post(l, k);
    } else if s.loops[l].lock != Nobody {
      a := LockMover(s, l);
    } else {
      a := CancelLockLoop(l);
    }
  }

  /** A worker that neither sleeps nor has left can take a step once the locks are free. */
  lemma WorkerMover(s: State, i: nat) returns (a: Action)
    requires Safe(s) && Lively(s) && i < |s.workers| && s.mutex == Nobody
    requires s.workers[i] != Waiting(false) && s.workers[i] != Exited
    ensures Internal(a) && Enabled(s, a)
  {
    hide HistoryOk, PlaceOk, LoopOk, QueueOk;
    assert WorkerOk(s, i);
    SleepersNone(s.workers);
    match s.workers[i]
    case AtTop => a := Acquire(i);
    case Waiting(_) => a := Wake(i);
    case Holding(_) => a := Run(i);
    case HasRun(w) =>
      if s.loops[s.reqs[w].loop].lock == Nobody {
        a := LockLoop(i);
      } else {
        a := LockMover(s, s.reqs[w].loop);
      }
    case Delivering(_) => a := Deliver(i);
  }

  /** So can a loop with a call to finish or requests to deliver. */
  lemma LoopMover(s: State, l: nat) returns (a: Action)
    requires Safe(s) && l < |s.loops| && s.mutex == Nobody
    requires !(s.loops[l].call == Free && s.loops[l].local == [] && s.loops[l].wq == [])
    ensures Internal(a) && Enabled(s, a)
  {
    hide HistoryOk, PlaceOk, QueueOk, WorkerOk;
    assert LoopOk(s, l);
    if s.loops[l].lock != Nobody {
      a := LockMover(s, l);
    } else {
      match s.loops[l].call
      case PostWait(_) => a := PostLock(l);
      case CancelWait(_) => a := CancelLock(l);
      case MoveWait(_) => a := MoveLock(l);
      case DrainWait => a := DrainLock(l);
      case Free => a := if s.loops[l].local == [] then Drain(l) else Done(l);
    }
  }

  /**
    When the pool has come to rest, every request has been delivered; only if
    all workers have left because of the exit message can some still be queued.
   */
  lemma RestMeansDone(s: State, w: nat)
    requires Safe(s) && Lively(s) && Stuck(s) && w in s.reqs
    ensures s.reqs[w].phase == Delivered || (s.reqs[w].phase == Queued && AllExited(s.workers))
  {
    hide HistoryOk, LoopOk, QueueOk, WorkerOk, Enabled;
    assert PlaceOk(s, w);
    if s.mutex != Nobody {
      var a := MutexMover(s);
    }
    var l := s.reqs[w].loop;
    if !(s.loops[l].call == Free && s.loops[l].local == [] && s.loops[l].wq == []) {
      var a := LoopMover(s, l);
    }
    forall i | 0 <= i < |s.workers| ensures !Awake(s.workers[i]) && !HasRequest(s.workers[i]) {
      if s.workers[i] != Waiting(false) && s.workers[i] != Exited {
        var a := WorkerMover(s, i);
      }
    }
  }

  function WorkerWeight(k: Worker): nat
  {
    match k
    case Exited => 0
    case Waiting(signalled) => if signalled then 12 else 10
    case Checking => 11
    case AtTop => 12
    case Holding(_) => 20
    case HasRun(_) => 19
    case Delivering(_) => 18
  }

  function CallWeight(c: Call): nat
  {
    match c
    case Free => 0
    case PostWait(_) => 14
    case PostHold(_) => 13
    case CancelWait(_) => 10
    case CancelHold(_) => 9
    case CancelBoth(_) => 8
    case MoveWait(_) => 7
    case MoveHold(_) => 6
    case DrainWait => 2
    case DrainHold => 1
  }

  function LoopWeight(l: Loop): nat
  {
    CallWeight(l.call) + 2 * |l.wq| + |l.local| + if l.async then 3 else 0
  }

  function WorkersWeight(ws: seq<Worker>): nat
  {
    if ws == [] then 0 else WorkerWeight(ws[0]) + WorkersWeight(ws[1..])
  }

  function LoopsWeight(ls: seq<Loop>): nat
  {
    if ls == [] then 0 else LoopWeight(ls[0]) + LoopsWeight(ls[1..])
  }

  function ExitWeight(x: Shutdown): nat
  {
    if x == ExitWait then 14 else if x == ExitHold then 13 else 0
  }

  /** How many steps, at most, the pool can still take by itself. */
  function Remaining(s: State): nat
  {
    10 * |s.wq| + WorkersWeight(s.workers) + LoopsWeight(s.loops) + ExitWeight(s.exit)
  }

  lemma {:induction false} WorkersWeightUpdate(ws: seq<Worker>, i: nat, k: Worker)
    requires i < |ws|
    ensures WorkersWeight(ws[i := k]) == WorkersWeight(ws) - WorkerWeight(ws[i]) + WorkerWeight(k)
  {
    hide WorkerWeight;
    if i == 0 {
      assert ws[i := k][1..] == ws[1..];
    } else {
      WorkersWeightUpdate(ws[1..], i - 1, k);
      assert ws[i := k][1..] == ws[1..][i - 1 := k];
    }
  }

  lemma {:induction false} LoopsWeightUpdate(ls: seq<Loop>, i: nat, k: Loop)
    requires i < |ls|
    ensures LoopsWeight(ls[i := k]) == LoopsWeight(ls) - LoopWeight(ls[i]) + LoopWeight(k)
  {
    hide LoopWeight;
    if i == 0 {
      assert ls[i := k][1..] == ls[1..];
    } else {
      LoopsWeightUpdate(ls[1..], i - 1, k);
      assert ls[i := k][1..] == ls[1..][i - 1 := k];
    }
  }

  lemma {:induction false} WithoutShorter<T>(q: seq<T>, x: T)
    ensures |Without(q, x)| <= |q|
  {
    if q != [] && q[0] != x {
      WithoutShorter(q[1..], x);
    }
  }

  lemma SignalWeight(ws: seq<Worker>, j: Option<nat>)
    requires Wakes(ws, j)
    ensures WorkersWeight(Signalled(ws, j)) <= WorkersWeight(ws) + 2
  {
    if j.Some? {
      WorkersWeightUpdate(ws, j.value, Waiting(true));
    }
  }

  lemma WorkerStepCounts(s: State, a: Action)
    requires Enabled(s, a) && Internal(a) && OfWorker(a)
    ensures Remaining(Apply(s, a)) < Remaining(s)
  {
    hide WorkersWeight, LoopsWeight;
    var t := Apply(s, a);
    if a.Leave? {
      SignalWeight(s.workers, a.j);
      WorkersWeightUpdate(Signalled(s.workers, a.j), a.i, Exited);
    } else {
      assert t.workers == s.workers[a.i := t.workers[a.i]];
      WorkersWeightUpdate(s.workers, a.i, t.workers[a.i]);
    }
    if a.LockLoop? || a.Deliver? {
      var l := s.reqs[s.workers[a.i].w].loop;
      LoopsWeightUpdate(s.loops, l, t.loops[l]);
      assert t.loops == s.loops[l := t.loops[l]];
    }
  }

  lemma LoopStepCounts(s: State, a: Action)
    requires Enabled(s, a) && Internal(a) && OfLoop(a)
    ensures Remaining(Apply(s, a)) < Remaining(s)
  {
    hide WorkersWeight, LoopsWeight, Without;
    var t := Apply(s, a);
    LoopsWeightUpdate(s.loops, a.l, t.loops[a.l]);
    assert t.loops == s.loops[a.l := t.loops[a.l]];
    if a.Post? && s.idle > 0 {
      SignalWeight(s.workers, a.j);
    } else if a.CancelDecide? {
      var w := s.loops[a.l].call.w;
      WithoutShorter(s.wq, Item(w));
      WithoutShorter(s.loops[a.l].wq, w);
      WithoutShorter(s.loops[a.l].local, w);
    }
  }

  lemma ExitStepCounts(s: State, a: Action)
    requires Enabled(s, a) && Internal(a) && OfExit(a)
    ensures Remaining(Apply(s, a)) < Remaining(s)
  {
    hide WorkersWeight, LoopsWeight;
    if a.ExitPost? && s.idle > 0 {
      SignalWeight(s.workers, a.j);
    }
  }

  /** Left to itself the pool comes to rest: every such stretch of steps is no longer than Remaining says. */
  lemma {:induction false} ComesToRest(states: seq<State>, actions: seq<Action>)
    requires |states| == |actions| + 1
    requires forall k :: 0 <= k < |actions| ==>
      Internal(actions[k]) && Enabled(states[k], actions[k]) && states[k + 1] == Apply(states[k], actions[k])
    ensures |actions| + Remaining(states[|actions|]) <= Remaining(states[0])
    decreases |actions|
  {
    hide Enabled, Apply, Remaining;
    if actions != [] {
      var n := |actions| - 1;
      ComesToRest(states[..|actions|], actions[..n]);
      var a := actions[n];
      if OfWorker(a) {
        WorkerStepCounts(states[n], a);
      } else if OfExit(a) {
        ExitStepCounts(states[n], a);
      } else {
        LoopStepCounts(states[n], a);
      }
    }
  }
}
