/**
  What every step of the thread pool keeps, and so every run: where each
  request is, who holds which lock, and what has happened to each request.
 */
module ThreadPoolSafety {
  import opened Options
  import opened ThreadPool

  predicate HoldsMutex(c: Call) { c.PostHold? || c.CancelHold? || c.CancelBoth? }
  predicate HoldsLoop(c: Call) { c.CancelBoth? || c.MoveHold? || c.DrainHold? }
  predicate HasRequest(k: Worker) { k.Holding? || k.HasRun? || k.Delivering? }
  predicate InCancel(c: Call) { c.CancelWait? || c.CancelHold? || c.CancelBoth? }
  predicate InPost(c: Call) { c.PostWait? || c.PostHold? }
  predicate InMove(c: Call) { c.MoveWait? || c.MoveHold? }

  predicate NoRepeats<T(==)>(q: seq<T>)
  {
    forall i, j :: 0 <= i < j < |q| ==> q[i] != q[j]
  }

  /** A worker holds the mutex exactly while it looks at the queue, and has at most one request, its own. */
  predicate WorkerOk(s: State, i: nat)
    requires i < |s.workers|
  {
    var k := s.workers[i];
    && (k == Checking <==> s.mutex == ByWorker(i))
    && (HasRequest(k) ==>
          && k.w in s.reqs && s.reqs[k.w].phase == AtWorker(i) && s.reqs[k.w].loop < |s.loops|
          && (k.Delivering? <==> s.loops[s.reqs[k.w].loop].lock == ByWorker(i)))
    && (k == Exited ==> s.wq != [] && s.wq[0] == ExitMessage)
  }

  /** A loop's thread holds the locks its place in the code says, and its queues hold its own requests. */
  predicate LoopOk(s: State, l: nat)
    requires l < |s.loops|
  {
    var loop := s.loops[l];
    && (HoldsMutex(loop.call) <==> s.mutex == ByLoop(l))
    && (HoldsLoop(loop.call) <==> loop.lock == ByLoop(l))
    && loop.lock != ByExit && (loop.lock.ByLoop? ==> loop.lock.l == l)
    && (loop.lock.ByWorker? ==>
          loop.lock.i < |s.workers| && s.workers[loop.lock.i].Delivering? && Carried(s, l, loop.lock.i))
    && (loop.wq != [] ==> loop.async || loop.call.DrainWait? || loop.call.DrainHold?)
    && (loop.call.DrainWait? || loop.call.DrainHold? ==> loop.local == [])
    && NoRepeats(loop.wq) && NoRepeats(loop.local)
    && (forall w :: w in loop.wq ==> w in s.reqs && s.reqs[w].loop == l && s.reqs[w].phase == InLoop)
    && (forall w :: w in loop.local ==> w in s.reqs && s.reqs[w].loop == l && s.reqs[w].phase == InLocal)
    && (InPost(loop.call) ==> loop.call.w in s.reqs && s.reqs[loop.call.w].loop == l && s.reqs[loop.call.w].phase == Posting)
    && (InMove(loop.call) ==> loop.call.w in s.reqs && s.reqs[loop.call.w].loop == l && s.reqs[loop.call.w].phase == Moving)
    && (InCancel(loop.call) ==> loop.call.w in s.reqs && s.reqs[loop.call.w].loop == l && s.reqs[loop.call.w].dones == 0)
  }

  predicate Carried(s: State, l: nat, i: nat)
    requires i < |s.workers|
  {
    HasRequest(s.workers[i]) && s.workers[i].w in s.reqs && s.reqs[s.workers[i].w].loop == l
  }

  /** A request is where its phase says. */
  predicate PlaceOk(s: State, w: nat)
    requires w in s.reqs
  {
    var r := s.reqs[w];
    && r.loop < |s.loops|
    && match r.phase
       case Posting => InPost(s.loops[r.loop].call) && s.loops[r.loop].call.w == w
       case Queued => Item(w) in s.wq
       case AtWorker(i) => i < |s.workers| && HasRequest(s.workers[i]) && s.workers[i].w == w
       case InLoop => w in s.loops[r.loop].wq
       case InLocal => w in s.loops[r.loop].local
       case Moving => InMove(s.loops[r.loop].call) && s.loops[r.loop].call.w == w
       case Delivered => true
  }

  /** The work has run and was not cancelled, or the other way round. */
  predicate Settled(r: Request)
  {
    (r.work == Null && r.ran == 1 && !r.cancelled) || (r.work == Cancelled && r.ran == 0 && r.cancelled)
  }

  /** What has happened to a request so far, by where it is. */
  predicate HistoryOk(s: State, w: nat)
    requires w in s.reqs
  {
    var r := s.reqs[w];
    match r.phase
    case Posting => r.work == Func && r.ran == 0 && r.dones == 0 && !r.cancelled
    case Queued => r.work == Func && r.ran == 0 && r.dones == 0 && !r.cancelled && r.link == Linked
    case AtWorker(i) =>
      && r.work == Func && r.dones == 0 && !r.cancelled && r.link == Self && i < |s.workers|
      && r.ran == if s.workers[i].Holding? then 0 else 1
    case InLoop => Settled(r) && r.dones == 0 && r.link == Linked
    case InLocal => Settled(r) && r.dones == 0 && r.link == Linked
    case Moving =>
      && r.ran == 0 && r.dones == 0 && r.cancelled && r.work != Null && r.loop < |s.loops|
      && (s.loops[r.loop].call.MoveHold? ==> r.work == Cancelled)
    case Delivered =>
      && Settled(r) && r.dones == 1
      && r.status == Some(if r.cancelled then UV_ECANCELED else 0)
  }

  /** The global queue: no entry twice, queued requests only, and after the exit message only late ones. */
  ghost predicate QueueOk(s: State)
  {
    && NoRepeats(s.wq)
    && (forall w :: Item(w) in s.wq ==> w in s.reqs && s.reqs[w].phase == Queued)
    && (s.exit == Posted <==> ExitMessage in s.wq)
    && (forall k, m :: 0 <= k < m < |s.wq| && s.wq[k] == ExitMessage && s.wq[m].Item? && s.wq[m].w in s.reqs ==>
          !s.reqs[s.wq[m].w].early)
    && (s.exit == ExitHold <==> s.mutex == ByExit)
    && (s.mutex.ByWorker? ==> s.mutex.i < |s.workers|)
    && (s.mutex.ByLoop? ==> s.mutex.l < |s.loops|)
  }

  ghost predicate Safe(s: State)
  {
    && QueueOk(s)
    && (forall i :: 0 <= i < |s.workers| ==> WorkerOk(s, i))
    && (forall l :: 0 <= l < |s.loops| ==> LoopOk(s, l))
    && (forall w :: w in s.reqs ==> PlaceOk(s, w) && HistoryOk(s, w))
  }

  lemma InitiallySafe(s: State)
    requires Initial(s)
    ensures Safe(s)
  {
  }

  /** Removing an entry takes out its first occurrence. */
  lemma {:induction false} WithoutSplits<T>(q: seq<T>, x: T) returns (j: nat)
    ensures j <= |q| && x !in q[..j] && (j < |q| ==> q[j] == x)
    ensures Without(q, x) == q[..j] + if j < |q| then q[j + 1..] else []
  {
    if q == [] || q[0] == x {
      j := 0;
    } else {
      var k := WithoutSplits(q[1..], x);
      j := k + 1;
      assert q[..j] == [q[0]] + q[1..][..k];
    }
  }

  /** Of a queue without repeats, it keeps all the others, in order. */
  lemma WithoutKeeps<T>(q: seq<T>, x: T)
    requires NoRepeats(q)
    ensures NoRepeats(Without(q, x))
    ensures forall y :: y in Without(q, x) <==> y in q && y != x
    ensures q != [] && q[0] != x ==> Without(q, x) != [] && Without(q, x)[0] == q[0]
    ensures q == [] ==> Without(q, x) == []
  {
    var j := WithoutSplits(q, x);
    var r := Without(q, x);
    forall y | y in q && y != x ensures y in r {
      var k :| 0 <= k < |q| && q[k] == y;
      assert k != j && r[if k < j then k else k - 1] == y;
    }
  }

  /** Steps that make, queue or begin to cancel a request. */
  predicate Calling(a: Action)
  {
    a.Submit? || a.PostLock? || a.Post? || a.Cancel? || a.CancelLock? || a.CancelLockLoop?
  }

  /** Steps by which a worker waits, wakes or leaves. */
  predicate Resting(a: Action)
  {
    a.Acquire? || a.Sleep? || a.Wake? || a.Spurious? || a.Leave?
  }

  predicate OfLoop(a: Action)
  {
    !OfWorker(a) && !OfExit(a)
  }

  lemma WorkerKeptByWorker(s: State, a: Action, i: nat)
    requires Safe(s) && Enabled(s, a) && i < |s.workers| && OfWorker(a)
    ensures i < |Apply(s, a).workers| && WorkerOk(Apply(s, a), i)
  {
    hide Safe, Enabled, Apply, WorkerOk;
    if Resting(a) {
      WorkerKeptByResting(s, a, i);
    } else if a.Take? {
      WorkerKeptByTake(s, a, i);
    } else {
      WorkerKeptByWork(s, a, i);
    }
  }

  lemma WorkerKeptByResting(s: State, a: Action, i: nat)
    requires Safe(s) && Enabled(s, a) && i < |s.workers| && Resting(a)
    ensures i < |Apply(s, a).workers| && WorkerOk(Apply(s, a), i)
  {
    hide HistoryOk, LoopOk, PlaceOk, NoRepeats;
    assert WorkerOk(s, i) && WorkerOk(s, a.i);
  }

  lemma WorkerKeptByTake(s: State, a: Action, i: nat)
    requires Safe(s) && Enabled(s, a) && i < |s.workers| && a.Take?
    ensures i < |Apply(s, a).workers| && WorkerOk(Apply(s, a), i)
  {
    hide HistoryOk, NoRepeats;
    assert WorkerOk(s, i) && WorkerOk(s, a.i);
    assert PlaceOk(s, s.wq[0].w) && LoopOk(s, s.reqs[s.wq[0].w].loop);
  }

  lemma WorkerKeptByWork(s: State, a: Action, i: nat)
    requires Safe(s) && Enabled(s, a) && i < |s.workers| && (a.Run? || a.LockLoop? || a.Deliver?)
    ensures i < |Apply(s, a).workers| && WorkerOk(Apply(s, a), i)
  {
    hide HistoryOk, LoopOk, PlaceOk, NoRepeats;
    assert WorkerOk(s, i) && WorkerOk(s, a.i);
  }

  /** What a step has to leave alone for a worker not to notice. */
  ghost predicate SameForWorker(s: State, t: State, i: nat)
    requires i < |s.workers|
  {
    && i < |t.workers| && (t.workers[i] == s.workers[i] || (s.workers[i].Waiting? && t.workers[i].Waiting?))
    && (t.mutex == ByWorker(i) <==> s.mutex == ByWorker(i))
    && (s.wq != [] && s.wq[0] == ExitMessage ==> t.wq != [] && t.wq[0] == ExitMessage)
    && (forall w :: w in s.reqs ==> w in t.reqs && t.reqs[w].loop == s.reqs[w].loop)
    && (forall w :: w in s.reqs && s.reqs[w].phase == AtWorker(i) ==> t.reqs[w].phase == AtWorker(i))
    && |t.loops| == |s.loops|
    && (forall l :: 0 <= l < |s.loops| ==> (t.loops[l].lock == ByWorker(i) <==> s.loops[l].lock == ByWorker(i)))
  }

  lemma SameWorkerOk(s: State, t: State, i: nat)
    requires i < |s.workers| && WorkerOk(s, i) && SameForWorker(s, t, i)
    ensures WorkerOk(t, i)
  {
  }

  lemma SafeRequests(s: State)
    requires Safe(s)
    ensures forall w :: w in s.reqs && s.reqs[w].phase.AtWorker? ==> !Cancellable(s.reqs[w])
  {
    forall w | w in s.reqs && s.reqs[w].phase.AtWorker? ensures !Cancellable(s.reqs[w]) {
      assert HistoryOk(s, w);
    }
  }

  lemma WorkerKeptByLoop(s: State, a: Action, i: nat)
    requires Safe(s) && Enabled(s, a) && i < |s.workers| && OfLoop(a)
    ensures SameForWorker(s, Apply(s, a), i)
  {
    hide Safe, Enabled, Apply, SameForWorker;
    if a.CancelDecide? {
      WorkerKeptByDecide(s, a, i);
    } else if Calling(a) {
      WorkerKeptByCall(s, a, i);
    } else {
      WorkerKeptByRest(s, a, i);
    }
  }

  lemma WorkerKeptByCall(s: State, a: Action, i: nat)
    requires Safe(s) && Enabled(s, a) && i < |s.workers| && Calling(a)
    ensures SameForWorker(s, Apply(s, a), i)
  {
    hide Safe, SameForWorker, LoopOk, Apply;
    if a.Post? {
      WorkerKeptByPost(s, a, i);
    } else {
      WorkerKeptByEarlier(s, a, i);
    }
  }

  lemma WorkerKeptByPost(s: State, a: Action, i: nat)
    requires Safe(s) && Enabled(s, a) && i < |s.workers| && a.Post?
    ensures SameForWorker(s, Apply(s, a), i)
  {
    hide PlaceOk, HistoryOk, Without, NoRepeats, WorkerOk, Cancellable, QueueOk;
    assert LoopOk(s, a.l);
  }

  lemma WorkerKeptByEarlier(s: State, a: Action, i: nat)
    requires Safe(s) && Enabled(s, a) && i < |s.workers| && Calling(a) && !a.Post?
    ensures SameForWorker(s, Apply(s, a), i)
  {
    hide PlaceOk, HistoryOk, Without, NoRepeats, WorkerOk, Cancellable, QueueOk, Wakes;
    assert LoopOk(s, a.l);
  }

  lemma WorkerKeptByRest(s: State, a: Action, i: nat)
    requires Safe(s) && Enabled(s, a) && i < |s.workers| && OfLoop(a) && !Calling(a) && !a.CancelDecide?
    ensures SameForWorker(s, Apply(s, a), i)
  {
    hide PlaceOk, HistoryOk, Without, NoRepeats, WorkerOk, Cancellable, QueueOk;
    assert LoopOk(s, a.l);
  }

  lemma WorkerKeptByDecide(s: State, a: Action, i: nat)
    requires Safe(s) && Enabled(s, a) && i < |s.workers| && a.CancelDecide?
    ensures SameForWorker(s, Apply(s, a), i)
  {
    hide PlaceOk, HistoryOk, Without, NoRepeats, WorkerOk, Cancellable, Apply;
    DecideIs(s, a);
    SafeRequests(s);
    assert LoopOk(s, a.l);
    assert NoRepeats(s.wq);
    WithoutKeeps(s.wq, Item(s.loops[a.l].call.w));
  }

  lemma WorkerKeptByExit(s: State, a: Action, i: nat)
    requires Safe(s) && Enabled(s, a) && i < |s.workers| && OfExit(a)
    ensures SameForWorker(s, Apply(s, a), i)
  {
    hide PlaceOk, LoopOk, HistoryOk, WorkerOk;
  }

  predicate OfLoopPhase(p: Phase) { p == InLoop || p == InLocal || p == Posting || p == Moving }

  /** What a step has to leave alone for a loop not to notice. */
  ghost predicate SameForLoop(s: State, t: State, l: nat)
    requires l < |s.loops|
  {
    && l < |t.loops| && t.loops[l] == s.loops[l]
    && (t.mutex == ByLoop(l) <==> s.mutex == ByLoop(l))
    && (forall w :: w in s.reqs ==> w in t.reqs && t.reqs[w].loop == s.reqs[w].loop)
    && (forall w :: w in s.reqs && s.reqs[w].loop == l ==> t.reqs[w].dones == s.reqs[w].dones)
    && (forall w :: w in s.reqs && s.reqs[w].loop == l && OfLoopPhase(s.reqs[w].phase) ==> t.reqs[w].phase == s.reqs[w].phase)
    && |t.workers| == |s.workers|
    && (forall i :: 0 <= i < |s.workers| && s.workers[i].Delivering? && s.loops[l].lock == ByWorker(i) ==> t.workers[i] == s.workers[i])
  }

  lemma SameLoopOk(s: State, t: State, l: nat)
    requires l < |s.loops| && LoopOk(s, l) && SameForLoop(s, t, l)
    ensures LoopOk(t, l)
  {
    hide NoRepeats;
  }

  /** The loop whose lock a worker's step takes or gives back. */
  predicate TouchesLoop(s: State, a: Action, l: nat)
    requires Enabled(s, a)
  {
    (a.LockLoop? || a.Deliver?) && s.reqs[s.workers[a.i].w].loop == l
  }

  lemma LoopUntouchedByWorker(s: State, a: Action, l: nat)
    requires Safe(s) && Enabled(s, a) && l < |s.loops| && OfWorker(a) && !TouchesLoop(s, a, l)
    ensures SameForLoop(s, Apply(s, a), l)
  {
    hide Safe, Enabled, Apply, SameForLoop;
    if Resting(a) {
      LoopUntouchedByResting(s, a, l);
    } else {
      LoopUntouchedByWork(s, a, l);
    }
  }

  lemma LoopUntouchedByResting(s: State, a: Action, l: nat)
    requires Safe(s) && Enabled(s, a) && l < |s.loops| && Resting(a)
    ensures SameForLoop(s, Apply(s, a), l)
  {
    hide PlaceOk, HistoryOk, NoRepeats, Cancellable, QueueOk;
    assert WorkerOk(s, a.i) && LoopOk(s, l);
  }

  lemma LoopUntouchedByWork(s: State, a: Action, l: nat)
    requires Safe(s) && Enabled(s, a) && l < |s.loops| && OfWorker(a) && !Resting(a) && !TouchesLoop(s, a, l)
    ensures SameForLoop(s, Apply(s, a), l)
  {
    hide PlaceOk, HistoryOk, NoRepeats, Cancellable, Wakes;
    assert WorkerOk(s, a.i) && LoopOk(s, l);
  }

  lemma LoopTouchedByWorker(s: State, a: Action, l: nat)
    requires Safe(s) && Enabled(s, a) && l < |s.loops| && OfWorker(a) && TouchesLoop(s, a, l)
    ensures l < |Apply(s, a).loops| && LoopOk(Apply(s, a), l)
  {
    hide LoopOk, Safe, Apply;
    if a.LockLoop? {
      LoopTouchedByLock(s, a, l);
    } else {
      LoopTouchedByDeliver(s, a, l);
    }
  }

  lemma LoopTouchedByLock(s: State, a: Action, l: nat)
    requires Safe(s) && Enabled(s, a) && l < |s.loops| && a.LockLoop? && TouchesLoop(s, a, l)
    ensures l < |Apply(s, a).loops| && LoopOk(Apply(s, a), l)
  {
    hide PlaceOk, HistoryOk, Wakes, NoRepeats;
    assert LoopOk(s, l) && WorkerOk(s, a.i);
  }

  lemma LoopTouchedByDeliver(s: State, a: Action, l: nat)
    requires Safe(s) && Enabled(s, a) && l < |s.loops| && a.Deliver? && TouchesLoop(s, a, l)
    ensures l < |Apply(s, a).loops| && LoopOk(Apply(s, a), l)
  {
    hide PlaceOk, HistoryOk, Wakes;
    assert LoopOk(s, l) && WorkerOk(s, a.i);
    assert HistoryOk(s, s.workers[a.i].w);
  }

  /** Loop `m` and its own requests may change; loop `l` does not notice. */
  ghost predicate OnlyLoop(s: State, t: State, m: nat, l: nat)
    requires l < |s.loops|
  {
    && l != m && |t.loops| == |s.loops| && t.loops[l] == s.loops[l] && |t.workers| == |s.workers|
    && (t.mutex == ByLoop(l) <==> s.mutex == ByLoop(l))
    && (forall i :: 0 <= i < |s.workers| && s.workers[i].Delivering? ==> t.workers[i] == s.workers[i])
    && forall w :: w in s.reqs ==>
         w in t.reqs && (t.reqs[w] == s.reqs[w] || t.reqs[w].loop == s.reqs[w].loop == m)
  }

  lemma OnlyLoopSame(s: State, t: State, m: nat, l: nat)
    requires l < |s.loops| && OnlyLoop(s, t, m, l)
    ensures SameForLoop(s, t, l)
  {
  }

  /** A step of one loop's thread leaves the other loops alone. */
  lemma OtherLoopKept(s: State, a: Action, l: nat)
    requires Safe(s) && Enabled(s, a) && l < |s.loops| && OfLoop(a) && a.l != l
    ensures SameForLoop(s, Apply(s, a), l)
  {
    hide Safe, Apply, SameForLoop, OnlyLoop, LoopOk, Wakes;
    SafeLoop(s, l);
    SafeLoop(s, a.l);
    if a.Post? {
      OtherLoopKeptByPost(s, a, l);
    } else if Calling(a) {
      OtherLoopKeptByCall(s, a, l);
    } else if a.CancelDecide? {
      OtherLoopKeptByDecide(s, a, l);
    } else if a.MoveLock? || a.Move? {
      OtherLoopKeptByMove(s, a, l);
    } else {
      OtherLoopKeptByDrain(s, a, l);
    }
    OnlyLoopSame(s, Apply(s, a), a.l, l);
  }

  lemma OtherLoopKeptByPost(s: State, a: Action, l: nat)
    requires Enabled(s, a) && l < |s.loops| && a.Post? && a.l != l && LoopOk(s, l) && LoopOk(s, a.l)
    ensures OnlyLoop(s, Apply(s, a), a.l, l)
  {
    hide NoRepeats;
  }

  lemma OtherLoopKeptByCall(s: State, a: Action, l: nat)
    requires Enabled(s, a) && l < |s.loops| && Calling(a) && !a.Post? && a.l != l && LoopOk(s, l) && LoopOk(s, a.l)
    ensures OnlyLoop(s, Apply(s, a), a.l, l)
  {
    hide NoRepeats, Wakes;
  }

  lemma OtherLoopKeptByDecide(s: State, a: Action, l: nat)
    requires Enabled(s, a) && l < |s.loops| && a.CancelDecide? && a.l != l && LoopOk(s, l) && LoopOk(s, a.l)
    ensures OnlyLoop(s, Apply(s, a), a.l, l)
  {
    hide NoRepeats, Without, Cancellable, Apply, Wakes;
    DecideIs(s, a);
  }

  lemma OtherLoopKeptByMove(s: State, a: Action, l: nat)
    requires Enabled(s, a) && l < |s.loops| && (a.MoveLock? || a.Move?) && a.l != l && LoopOk(s, l) && LoopOk(s, a.l)
    ensures OnlyLoop(s, Apply(s, a), a.l, l)
  {
    hide NoRepeats, Without, Wakes;
  }

  lemma OtherLoopKeptByDrain(s: State, a: Action, l: nat)
    requires Enabled(s, a) && l < |s.loops| && (a.Drain? || a.DrainLock? || a.DrainMove? || a.Done?)
    requires a.l != l && LoopOk(s, l) && LoopOk(s, a.l)
    ensures OnlyLoop(s, Apply(s, a), a.l, l)
  {
    hide NoRepeats, Without, Wakes;
  }

  lemma OwnLoopKeptSubmit(s: State, a: Action)
    requires Safe(s) && Enabled(s, a) && (a.Submit? || a.PostLock?)
    ensures a.l < |Apply(s, a).loops| && LoopOk(Apply(s, a), a.l)
  {
    hide PlaceOk, HistoryOk, QueueOk, Without, NoRepeats, Wakes;
    assert LoopOk(s, a.l);
  }

  lemma OwnLoopKeptPost(s: State, a: Action)
    requires Safe(s) && Enabled(s, a) && a.Post?
    ensures a.l < |Apply(s, a).loops| && LoopOk(Apply(s, a), a.l)
  {
    hide PlaceOk, HistoryOk, QueueOk, Without, NoRepeats;
    assert LoopOk(s, a.l);
  }

  lemma OwnLoopKeptCancel(s: State, a: Action)
    requires Safe(s) && Enabled(s, a) && (a.Cancel? || a.CancelLock? || a.CancelLockLoop?)
    ensures a.l < |Apply(s, a).loops| && LoopOk(Apply(s, a), a.l)
  {
    hide PlaceOk, HistoryOk, QueueOk, Without, NoRepeats, Wakes;
    assert LoopOk(s, a.l);
  }

  lemma OwnLoopKeptDecide(s: State, a: Action)
    requires Safe(s) && Enabled(s, a) && (a.CancelDecide?)
    ensures a.l < |Apply(s, a).loops| && LoopOk(Apply(s, a), a.l)
  {
    hide PlaceOk, HistoryOk, QueueOk, Without, NoRepeats, Wakes, Apply, Cancellable;
    DecideIs(s, a);
    assert LoopOk(s, a.l);
    WithoutKeeps(s.loops[a.l].wq, s.loops[a.l].call.w);
    WithoutKeeps(s.loops[a.l].local, s.loops[a.l].call.w);
  }

  lemma OwnLoopKeptMoveLock(s: State, a: Action)
    requires Safe(s) && Enabled(s, a) && a.MoveLock?
    ensures a.l < |Apply(s, a).loops| && LoopOk(Apply(s, a), a.l)
  {
    hide PlaceOk, HistoryOk, QueueOk, Without, Wakes, NoRepeats;
    assert LoopOk(s, a.l);
  }

  lemma OwnLoopKeptMove(s: State, a: Action)
    requires Safe(s) && Enabled(s, a) && a.Move?
    ensures a.l < |Apply(s, a).loops| && LoopOk(Apply(s, a), a.l)
  {
    hide PlaceOk, HistoryOk, QueueOk, Without, Wakes;
    assert LoopOk(s, a.l);
  }

  lemma OwnLoopKeptDrain(s: State, a: Action)
    requires Safe(s) && Enabled(s, a) && (a.Drain? || a.DrainLock?)
    ensures a.l < |Apply(s, a).loops| && LoopOk(Apply(s, a), a.l)
  {
    hide PlaceOk, HistoryOk, QueueOk, Without, NoRepeats, Wakes;
    assert LoopOk(s, a.l);
  }

  lemma OwnLoopKeptDrainMove(s: State, a: Action)
    requires Safe(s) && Enabled(s, a) && (a.DrainMove?)
    ensures a.l < |Apply(s, a).loops| && LoopOk(Apply(s, a), a.l)
  {
    hide PlaceOk, HistoryOk, QueueOk, Without, Wakes;
    assert LoopOk(s, a.l);
  }

  lemma OwnLoopKeptDone(s: State, a: Action)
    requires Safe(s) && Enabled(s, a) && (a.Done?)
    ensures a.l < |Apply(s, a).loops| && LoopOk(Apply(s, a), a.l)
  {
    hide PlaceOk, HistoryOk, QueueOk, Without, Wakes;
    assert LoopOk(s, a.l);
  }

  lemma LoopKeptByExit(s: State, a: Action, l: nat)
    requires Safe(s) && Enabled(s, a) && l < |s.loops| && OfExit(a)
    ensures SameForLoop(s, Apply(s, a), l)
  {
    hide PlaceOk, HistoryOk, LoopOk;
  }

  /** Requests are created by Submit, and otherwise only the one a step names changes. */
  lemma PlaceKeptByWorker(s: State, a: Action, w: nat)
    requires Safe(s) && Enabled(s, a) && OfWorker(a) && w in Apply(s, a).reqs
    ensures PlaceOk(Apply(s, a), w)
  {
    hide HistoryOk, LoopOk, NoRepeats;
    assert w in s.reqs && PlaceOk(s, w) && WorkerOk(s, a.i);
  }

  lemma PlaceKeptByExit(s: State, a: Action, w: nat)
    requires Safe(s) && Enabled(s, a) && OfExit(a) && w in Apply(s, a).reqs
    ensures PlaceOk(Apply(s, a), w)
  {
    hide HistoryOk, LoopOk, NoRepeats, WorkerOk;
    assert PlaceOk(s, w);
  }

  lemma PlaceKeptByPost(s: State, a: Action, w: nat)
    requires Safe(s) && Enabled(s, a) && (a.Submit? || a.PostLock? || a.Post?) && w in Apply(s, a).reqs
    ensures PlaceOk(Apply(s, a), w)
  {
    hide Safe, PlaceOk, LoopOk, Apply;
    if a.Post? {
      PlaceKeptByPosting(s, a, w);
    } else {
      PlaceKeptBySubmit(s, a, w);
    }
  }

  lemma PlaceKeptBySubmit(s: State, a: Action, w: nat)
    requires Safe(s) && Enabled(s, a) && (a.Submit? || a.PostLock?) && w in Apply(s, a).reqs
    ensures PlaceOk(Apply(s, a), w)
  {
    hide HistoryOk, NoRepeats, WorkerOk, QueueOk, Wakes;
    assert LoopOk(s, a.l);
    assert w in s.reqs ==> PlaceOk(s, w);
  }

  lemma PlaceKeptByPosting(s: State, a: Action, w: nat)
    requires Safe(s) && Enabled(s, a) && a.Post? && w in Apply(s, a).reqs
    ensures PlaceOk(Apply(s, a), w)
  {
    hide HistoryOk, NoRepeats, WorkerOk, QueueOk;
    assert LoopOk(s, a.l);
    assert w in s.reqs ==> PlaceOk(s, w);
  }

  lemma PlaceKeptByCancel(s: State, a: Action, w: nat)
    requires Safe(s) && Enabled(s, a) && (a.Cancel? || a.CancelLock? || a.CancelLockLoop?) && w in Apply(s, a).reqs
    ensures PlaceOk(Apply(s, a), w)
  {
    hide HistoryOk, NoRepeats, WorkerOk, QueueOk;
    assert LoopOk(s, a.l);
    assert w in s.reqs ==> PlaceOk(s, w);
  }

  lemma PlaceKeptByMove(s: State, a: Action, w: nat)
    requires Safe(s) && Enabled(s, a) && (a.MoveLock? || a.Move?) && w in Apply(s, a).reqs
    ensures PlaceOk(Apply(s, a), w)
  {
    hide HistoryOk, NoRepeats, WorkerOk, QueueOk;
    assert LoopOk(s, a.l);
    assert w in s.reqs ==> PlaceOk(s, w);
  }

  lemma PlaceKeptByDrain(s: State, a: Action, w: nat)
    requires Safe(s) && Enabled(s, a) && (a.Drain? || a.DrainLock?) && w in Apply(s, a).reqs
    ensures PlaceOk(Apply(s, a), w)
  {
    hide HistoryOk, NoRepeats, WorkerOk, QueueOk;
    assert LoopOk(s, a.l);
    assert w in s.reqs ==> PlaceOk(s, w);
  }

  lemma PlaceKeptByDone(s: State, a: Action, w: nat)
    requires Safe(s) && Enabled(s, a) && a.Done? && w in Apply(s, a).reqs
    ensures PlaceOk(Apply(s, a), w)
  {
    hide HistoryOk, NoRepeats, WorkerOk, QueueOk;
    assert LoopOk(s, a.l);
    assert w in s.reqs ==> PlaceOk(s, w);
  }

  /** What CancelDecide makes of the state, one part at a time. */
  lemma DecideIs(s: State, a: Action)
    requires Enabled(s, a) && a.CancelDecide?
    ensures a.l < |s.loops| && s.loops[a.l].call.CancelBoth? && s.loops[a.l].call.w in s.reqs
    ensures var w, t, loop := s.loops[a.l].call.w, Apply(s, a), s.loops[a.l];
      && t.workers == s.workers && t.mutex == Nobody && t.exit == s.exit && t.idle == s.idle
      && if Cancellable(s.reqs[w]) then
           && t.loops == s.loops[a.l := loop.(lock := Nobody, call := MoveWait(w), wq := Without(loop.wq, w), local := Without(loop.local, w))]
           && t.wq == Without(s.wq, Item(w))
           && t.reqs == s.reqs[w := s.reqs[w].(link := Stale, phase := Moving, cancelled := true)]
         else t.loops == s.loops[a.l := loop.(lock := Nobody, call := Free)] && t.wq == s.wq && t.reqs == s.reqs
  {
    hide Cancellable, Without;
  }

  lemma SafeQueue(s: State)
    requires Safe(s)
    ensures NoRepeats(s.wq)
    ensures forall w :: Item(w) in s.wq ==> w in s.reqs && s.reqs[w].phase == Queued
    ensures s.exit == ExitHold <==> s.mutex == ByExit
  {
  }

  lemma PlaceKeptByDecide(s: State, a: Action, w: nat)
    requires Safe(s) && Enabled(s, a) && w in Apply(s, a).reqs && a.CancelDecide?
    ensures PlaceOk(Apply(s, a), w)
  {
    hide HistoryOk, NoRepeats, WorkerOk, Without, Cancellable, Apply, QueueOk;
    DecideIs(s, a);
    assert LoopOk(s, a.l) && PlaceOk(s, w);
    SafeQueue(s);
    var v := s.loops[a.l].call.w;
    if w != v {
      WithoutKeeps(s.wq, Item(v));
      if s.reqs[w].loop == a.l {
        WithoutKeeps(s.loops[a.l].wq, v);
        WithoutKeeps(s.loops[a.l].local, v);
      }
    }
  }

  lemma PlaceKeptByDrainMove(s: State, a: Action, w: nat)
    requires Safe(s) && Enabled(s, a) && w in Apply(s, a).reqs && a.DrainMove?
    ensures PlaceOk(Apply(s, a), w)
  {
    hide HistoryOk, NoRepeats, WorkerOk, QueueOk;
    assert LoopOk(s, a.l) && PlaceOk(s, w);
  }

  lemma HistoryKeptByWorker(s: State, a: Action, w: nat)
    requires Safe(s) && Enabled(s, a) && OfWorker(a) && w in Apply(s, a).reqs
    ensures HistoryOk(Apply(s, a), w)
  {
    hide Safe, Enabled, Apply, HistoryOk;
    if Resting(a) {
      HistoryKeptByResting(s, a, w);
    } else {
      HistoryKeptByWork(s, a, w);
    }
  }

  lemma HistoryKeptByResting(s: State, a: Action, w: nat)
    requires Safe(s) && Enabled(s, a) && Resting(a) && w in Apply(s, a).reqs
    ensures HistoryOk(Apply(s, a), w)
  {
    hide LoopOk, NoRepeats, QueueOk;
    assert w in s.reqs && PlaceOk(s, w) && HistoryOk(s, w) && WorkerOk(s, a.i);
  }

  lemma HistoryKeptByWork(s: State, a: Action, w: nat)
    requires Safe(s) && Enabled(s, a) && OfWorker(a) && !Resting(a) && w in Apply(s, a).reqs
    ensures HistoryOk(Apply(s, a), w)
  {
    hide LoopOk, NoRepeats, Wakes;
    assert w in s.reqs && PlaceOk(s, w) && HistoryOk(s, w) && WorkerOk(s, a.i);
  }

  lemma HistoryKeptByPost(s: State, a: Action, w: nat)
    requires Safe(s) && Enabled(s, a) && (a.Submit? || a.PostLock? || a.Post?) && w in Apply(s, a).reqs
    ensures HistoryOk(Apply(s, a), w)
  {
    hide Without, NoRepeats, QueueOk;
    assert LoopOk(s, a.l);
    assert w in s.reqs ==> PlaceOk(s, w) && HistoryOk(s, w);
  }

  lemma HistoryKeptByCancel(s: State, a: Action, w: nat)
    requires Safe(s) && Enabled(s, a) && (a.Cancel? || a.CancelLock? || a.CancelLockLoop?) && w in Apply(s, a).reqs
    ensures HistoryOk(Apply(s, a), w)
  {
    hide Without, NoRepeats, QueueOk;
    assert LoopOk(s, a.l);
    assert w in s.reqs && PlaceOk(s, w) && HistoryOk(s, w);
  }

  lemma HistoryKeptByDecide(s: State, a: Action, w: nat)
    requires Safe(s) && Enabled(s, a) && a.CancelDecide? && w in Apply(s, a).reqs
    ensures HistoryOk(Apply(s, a), w)
  {
    hide Without, NoRepeats, QueueOk, Apply, WorkerOk;
    DecideIs(s, a);
    assert LoopOk(s, a.l) && PlaceOk(s, w) && HistoryOk(s, w);
  }

  lemma HistoryKeptByMove(s: State, a: Action, w: nat)
    requires Safe(s) && Enabled(s, a) && (a.MoveLock? || a.Move?) && w in Apply(s, a).reqs
    ensures HistoryOk(Apply(s, a), w)
  {
    hide Without, NoRepeats, QueueOk, WorkerOk, Wakes;
    assert LoopOk(s, a.l);
    assert w in s.reqs ==> PlaceOk(s, w) && HistoryOk(s, w);
  }

  lemma HistoryKeptByDrain(s: State, a: Action, w: nat)
    requires Safe(s) && Enabled(s, a) && (a.Drain? || a.DrainLock?) && w in Apply(s, a).reqs
    ensures HistoryOk(Apply(s, a), w)
  {
    hide Without, NoRepeats, QueueOk;
    assert LoopOk(s, a.l);
    assert w in s.reqs && PlaceOk(s, w) && HistoryOk(s, w);
  }

  lemma HistoryKeptByDrainMove(s: State, a: Action, w: nat)
    requires Safe(s) && Enabled(s, a) && (a.DrainMove?) && w in Apply(s, a).reqs
    ensures HistoryOk(Apply(s, a), w)
  {
    hide Without, NoRepeats, QueueOk;
    assert LoopOk(s, a.l);
    assert w in s.reqs && PlaceOk(s, w) && HistoryOk(s, w);
  }

  lemma HistoryKeptByDone(s: State, a: Action, w: nat)
    requires Safe(s) && Enabled(s, a) && (a.Done?) && w in Apply(s, a).reqs
    ensures HistoryOk(Apply(s, a), w)
  {
    hide Without, NoRepeats, QueueOk;
    assert LoopOk(s, a.l);
    assert w in s.reqs && PlaceOk(s, w) && HistoryOk(s, w);
  }

  lemma HistoryKeptByExit(s: State, a: Action, w: nat)
    requires Safe(s) && Enabled(s, a) && OfExit(a) && w in Apply(s, a).reqs
    ensures HistoryOk(Apply(s, a), w)
  {
    hide LoopOk, NoRepeats, QueueOk;
    assert PlaceOk(s, w) && HistoryOk(s, w);
  }

  lemma QueueKeptByWorker(s: State, a: Action)
    requires Safe(s) && Enabled(s, a) && OfWorker(a)
    ensures QueueOk(Apply(s, a))
  {
    hide LoopOk, Wakes, HistoryOk, PlaceOk;
    assert WorkerOk(s, a.i);
  }

  lemma QueueKeptByLoop(s: State, a: Action)
    requires Safe(s) && Enabled(s, a) && OfLoop(a) && !a.CancelDecide?
    ensures QueueOk(Apply(s, a))
  {
    hide Safe, Enabled, Apply, QueueOk;
    if Calling(a) {
      if a.Post? {
        QueueKeptByPost(s, a);
      } else {
        QueueKeptByCall(s, a);
      }
    } else {
      QueueKeptByRest(s, a);
    }
  }

  lemma QueueKeptByPost(s: State, a: Action)
    requires Safe(s) && Enabled(s, a) && a.Post?
    ensures QueueOk(Apply(s, a))
  {
    hide WorkerOk, Wakes, HistoryOk, PlaceOk;
    assert LoopOk(s, a.l);
  }

  lemma QueueKeptByCall(s: State, a: Action)
    requires Safe(s) && Enabled(s, a) && Calling(a) && !a.Post?
    ensures QueueOk(Apply(s, a))
  {
    hide WorkerOk, Wakes, HistoryOk, PlaceOk, NoRepeats;
    assert LoopOk(s, a.l);
  }

  lemma QueueKeptByRest(s: State, a: Action)
    requires Safe(s) && Enabled(s, a) && OfLoop(a) && !Calling(a) && !a.CancelDecide?
    ensures QueueOk(Apply(s, a))
  {
    hide WorkerOk, Wakes, HistoryOk, PlaceOk, NoRepeats;
    assert LoopOk(s, a.l);
  }

  lemma QueueKeptByDecide(s: State, a: Action)
    requires Safe(s) && Enabled(s, a) && a.CancelDecide?
    ensures QueueOk(Apply(s, a))
  {
    hide WorkerOk, Wakes, HistoryOk, PlaceOk, Without, Apply, Cancellable, NoRepeats;
    DecideIs(s, a);
    assert LoopOk(s, a.l);
    var v := Item(s.loops[a.l].call.w);
    WithoutKeeps(s.wq, v);
    var d := OrderKept(s.wq, v);
  }

  /** Where an entry of the shortened queue was before. */
  function Was(k: int, d: nat): int { if k < d then k else k + 1 }

  /** What comes after what does not change when an entry is removed. */
  lemma OrderKept(q: seq<Entry>, x: Entry) returns (d: nat)
    ensures forall k :: 0 <= k < |Without(q, x)| ==> Was(k, d) < |q| && Without(q, x)[k] == q[Was(k, d)]
  {
    hide Without;
    d := WithoutSplits(q, x);
  }

  lemma QueueKeptByExit(s: State, a: Action)
    requires Safe(s) && Enabled(s, a) && OfExit(a)
    ensures QueueOk(Apply(s, a))
  {
    hide WorkerOk, LoopOk, HistoryOk, PlaceOk;
  }

  lemma WorkersKept(s: State, a: Action, i: nat)
    requires Safe(s) && Enabled(s, a) && i < |Apply(s, a).workers|
    ensures WorkerOk(Apply(s, a), i)
  {
    hide Safe, Enabled, WorkerOk, SameForWorker;
    SameNumbers(s, a);
    SafeWorker(s, i);
    if OfWorker(a) {
      WorkerKeptByWorker(s, a, i);
    } else if OfExit(a) {
      WorkerKeptByExit(s, a, i);
      SameWorkerOk(s, Apply(s, a), i);
    } else {
      WorkerKeptByLoop(s, a, i);
      SameWorkerOk(s, Apply(s, a), i);
    }
  }

  lemma SameNumbers(s: State, a: Action)
    requires Enabled(s, a)
    ensures |Apply(s, a).workers| == |s.workers| && |Apply(s, a).loops| == |s.loops|
  {
  }

  lemma SafeWorker(s: State, i: nat)
    requires Safe(s) && i < |s.workers|
    ensures WorkerOk(s, i)
  {
  }

  lemma SafeLoop(s: State, l: nat)
    requires Safe(s) && l < |s.loops|
    ensures LoopOk(s, l)
  {
  }

  lemma LoopsKept(s: State, a: Action, l: nat)
    requires Safe(s) && Enabled(s, a) && l < |Apply(s, a).loops|
    ensures LoopOk(Apply(s, a), l)
  {
    hide Safe, Enabled, LoopOk, SameForLoop;
    SameNumbers(s, a);
    SafeLoop(s, l);
    if OfWorker(a) {
      if TouchesLoop(s, a, l) {
        LoopTouchedByWorker(s, a, l);
      } else {
        LoopUntouchedByWorker(s, a, l);
        SameLoopOk(s, Apply(s, a), l);
      }
    } else if OfExit(a) {
      LoopKeptByExit(s, a, l);
      SameLoopOk(s, Apply(s, a), l);
    } else if a.l != l {
      OtherLoopKept(s, a, l);
      SameLoopOk(s, Apply(s, a), l);
    } else if a.Post? {
      OwnLoopKeptPost(s, a);
    } else if a.Submit? || a.PostLock? {
      OwnLoopKeptSubmit(s, a);
    } else if a.Cancel? || a.CancelLock? || a.CancelLockLoop? {
      OwnLoopKeptCancel(s, a);
    } else if a.CancelDecide? {
      OwnLoopKeptDecide(s, a);
    } else if a.MoveLock? {
      OwnLoopKeptMoveLock(s, a);
    } else if a.Move? {
      OwnLoopKeptMove(s, a);
    } else if a.Drain? || a.DrainLock? {
      OwnLoopKeptDrain(s, a);
    } else if a.DrainMove? {
      OwnLoopKeptDrainMove(s, a);
    } else {
      OwnLoopKeptDone(s, a);
    }
  }

  lemma RequestsKept(s: State, a: Action, w: nat)
    requires Safe(s) && Enabled(s, a) && w in Apply(s, a).reqs
    ensures PlaceOk(Apply(s, a), w) && HistoryOk(Apply(s, a), w)
  {
    hide Safe, Enabled, PlaceOk, HistoryOk, Apply;
    if OfWorker(a) {
      PlaceKeptByWorker(s, a, w);
      HistoryKeptByWorker(s, a, w);
    } else if OfExit(a) {
      PlaceKeptByExit(s, a, w);
      HistoryKeptByExit(s, a, w);
    } else if a.Submit? || a.PostLock? || a.Post? {
      PlaceKeptByPost(s, a, w);
      HistoryKeptByPost(s, a, w);
    } else if a.Cancel? || a.CancelLock? || a.CancelLockLoop? {
      PlaceKeptByCancel(s, a, w);
      HistoryKeptByCancel(s, a, w);
    } else if a.CancelDecide? {
      PlaceKeptByDecide(s, a, w);
      HistoryKeptByDecide(s, a, w);
    } else if a.MoveLock? || a.Move? {
      PlaceKeptByMove(s, a, w);
      HistoryKeptByMove(s, a, w);
    } else if a.Drain? || a.DrainLock? {
      PlaceKeptByDrain(s, a, w);
      HistoryKeptByDrain(s, a, w);
    } else if a.DrainMove? {
      PlaceKeptByDrainMove(s, a, w);
      HistoryKeptByDrainMove(s, a, w);
    } else {
      PlaceKeptByDone(s, a, w);
      HistoryKeptByDone(s, a, w);
    }
  }

  /** No step, of any thread, breaks any of it. */
  lemma SafeKept(s: State, a: Action)
    requires Safe(s) && Enabled(s, a)
    ensures Safe(Apply(s, a))
  {
    var t := Apply(s, a);
    assert QueueOk(t) by {
      hide Safe, QueueOk, Apply, Enabled;
      if OfWorker(a) {
        QueueKeptByWorker(s, a);
      } else if OfExit(a) {
        QueueKeptByExit(s, a);
      } else if a.CancelDecide? {
        QueueKeptByDecide(s, a);
      } else {
        QueueKeptByLoop(s, a);
      }
    }
    hide Safe, QueueOk, Apply, Enabled, WorkerOk, LoopOk, PlaceOk, HistoryOk;
    forall i | 0 <= i < |t.workers| ensures WorkerOk(t, i) {
      WorkersKept(s, a, i);
    }
    forall l | 0 <= l < |t.loops| ensures LoopOk(t, l) {
      LoopsKept(s, a, l);
    }
    forall w | w in t.reqs ensures PlaceOk(t, w) && HistoryOk(t, w) {
      RequestsKept(s, a, w);
    }
    MakeSafe(t);
  }

  lemma MakeSafe(s: State)
    requires QueueOk(s)
    requires forall i :: 0 <= i < |s.workers| ==> WorkerOk(s, i)
    requires forall l :: 0 <= l < |s.loops| ==> LoopOk(s, l)
    requires forall w :: w in s.reqs ==> PlaceOk(s, w) && HistoryOk(s, w)
    ensures Safe(s)
  {
  }

  lemma {:induction false} RunSafe(states: seq<State>, actions: seq<Action>, n: nat)
    requires IsRun(states, actions) && n < |states|
    ensures Safe(states[n])
  {
    hide Safe, Enabled, Apply;
    if n == 0 {
      InitiallySafe(states[0]);
    } else {
      RunSafe(states, actions, n - 1);
      SafeKept(states[n - 1], actions[n - 1]);
    }
  }

  /**
    In every state of every run, whatever the threads did: done has been called
    at most once on each request; no request both ran and was cancelled; and one
    that was delivered got UV_ECANCELED exactly when its work never ran, and
    otherwise had run once.
   */
  lemma DeliveredOnce(states: seq<State>, actions: seq<Action>, n: nat, w: nat)
    requires IsRun(states, actions) && n < |states| && w in states[n].reqs
    ensures var r := states[n].reqs[w];
      && r.dones <= 1 && r.ran <= 1 && !(r.ran == 1 && r.cancelled)
      && (r.dones == 1 ==> r.status == Some(if r.ran == 0 then UV_ECANCELED else 0))
      && (r.dones == 1 ==> (r.cancelled <==> r.ran == 0))
  {
    RunSafe(states, actions, n);
    assert HistoryOk(states[n], w);
  }

  /** Once a worker has exited, nothing posted before the exit message is still queued. */
  lemma ExitAfterEarlier(states: seq<State>, actions: seq<Action>, n: nat, i: nat, w: nat)
    requires IsRun(states, actions) && n < |states|
    requires i < |states[n].workers| && states[n].workers[i] == Exited
    requires w in states[n].reqs && states[n].reqs[w].early
    ensures Item(w) !in states[n].wq && states[n].reqs[w].phase != Queued
  {
    RunSafe(states, actions, n);
    var s := states[n];
    assert WorkerOk(s, i) && PlaceOk(s, w);
  }

  /**
    Whoever holds a loop's lock can take its next step, which gives the lock
    back; and a canceller, who wants it while holding the mutex, waits for a
    worker only.  So no threads wait for each other in a circle.
   */
  lemma NoCircularWait(s: State, l: nat)
    requires Safe(s) && l < |s.loops| && s.loops[l].lock != Nobody
    ensures s.loops[l].lock.ByWorker? ==> Enabled(s, Deliver(s.loops[l].lock.i))
    ensures !s.loops[l].lock.ByWorker? ==>
      Enabled(s, CancelDecide(l)) || Enabled(s, Move(l)) || Enabled(s, DrainMove(l))
    ensures s.loops[l].call.CancelHold? ==> s.loops[l].lock.ByWorker?
  {
    hide QueueOk, HistoryOk, PlaceOk, NoRepeats;
    assert LoopOk(s, l);
    if s.loops[l].lock.ByWorker? {
      assert WorkerOk(s, s.loops[l].lock.i);
    }
  }
}
