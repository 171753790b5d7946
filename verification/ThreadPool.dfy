/**
  The thread pool of libuv (src/threadpool.c) as a protocol: worker threads, any
  number of event loops and the thread that shuts the pool down take turns in
  any order, one step at a time.  Taking a lock is a step of its own; what is
  done while holding it, up to the next lock or release, is another.
 */
module ThreadPool {
  import opened Options

  /** What the work pointer of a request says: the function, NULL, or uv__cancelled. */
  datatype Work = Func | Null | Cancelled

  /** The queue link inside a request: initialised, linked into a queue, or left over from a removal. */
  datatype LinkState = Self | Linked | Stale

  /** Where a request is.  Only the proofs look at this. */
  datatype Phase = Posting | Queued | AtWorker(i: nat) | InLoop | InLocal | Moving | Delivered

  /** A request with its history: how often it ran, how often done was called and with what. */
  datatype Request = Request(loop: nat, work: Work, link: LinkState, phase: Phase,
                             ran: nat, dones: nat, status: Option<int>, cancelled: bool, early: bool)

  const UV_ECANCELED: int := -125

  datatype Entry = Item(w: nat) | ExitMessage

  datatype Worker =
    | AtTop | Checking | Waiting(signalled: bool)
    | Holding(w: nat) | HasRun(w: nat) | Delivering(w: nat)
    | Exited

  datatype Call =
    | Free
    | PostWait(w: nat) | PostHold(w: nat)
    | CancelWait(w: nat) | CancelHold(w: nat) | CancelBoth(w: nat)
    | MoveWait(w: nat) | MoveHold(w: nat)
    | DrainWait | DrainHold

  datatype Owner = Nobody | ByWorker(i: nat) | ByLoop(l: nat) | ByExit

  /** An event loop: its queue of finished requests, its lock, whether its async handle is pending,
      what its thread is doing, and the requests it has taken off the queue to call done on. */
  datatype Loop = Loop(wq: seq<nat>, lock: Owner, async: bool, call: Call, local: seq<nat>)

  datatype Shutdown = Running | ExitWait | ExitHold | Posted

  datatype State = State(wq: seq<Entry>, mutex: Owner, idle: nat, workers: seq<Worker>,
                         loops: seq<Loop>, exit: Shutdown, reqs: map<nat, Request>)

  predicate Initial(s: State)
  {
    && s.wq == [] && s.mutex == Nobody && s.idle == 0 && s.exit == Running && s.reqs == map[]
    && |s.workers| >= 1
    && (forall i :: 0 <= i < |s.workers| ==> s.workers[i] == AtTop)
    && (forall l :: 0 <= l < |s.loops| ==> s.loops[l] == Loop([], Nobody, false, Free, []))
  }

  /** One step.  `j` is the waiter a signal wakes, or none when nobody waits unsignalled. */
  datatype Action =
    | Acquire(i: nat) | Sleep(i: nat) | Wake(i: nat) | Spurious(i: nat)
    | Take(i: nat) | Leave(i: nat, j: Option<nat>)
    | Run(i: nat) | LockLoop(i: nat) | Deliver(i: nat)
    | Submit(l: nat, w: nat) | PostLock(l: nat) | Post(l: nat, j: Option<nat>)
    | Cancel(l: nat, w: nat) | CancelLock(l: nat) | CancelLockLoop(l: nat) | CancelDecide(l: nat)
    | MoveLock(l: nat) | Move(l: nat)
    | Drain(l: nat) | DrainLock(l: nat) | DrainMove(l: nat) | Done(l: nat)
    | ExitStart | ExitLock | ExitPost(j: Option<nat>)

  /** uv_cond_signal wakes one waiter that has not been signalled, if there is one. */
  predicate Wakes(ws: seq<Worker>, j: Option<nat>)
  {
    match j
    case Some(k) => k < |ws| && ws[k] == Waiting(false)
    case None => forall i :: 0 <= i < |ws| ==> ws[i] != Waiting(false)
  }

  function Signalled(ws: seq<Worker>, j: Option<nat>): (r: seq<Worker>)
    requires Wakes(ws, j)
    ensures |r| == |ws|
  {
    if j.Some? then ws[j.value := Waiting(true)] else ws
  }

  /** Only a signal that is sent needs a waiter to be named. */
  predicate WakesIf(sent: bool, ws: seq<Worker>, j: Option<nat>)
  {
    if sent then Wakes(ws, j) else j == None
  }

  function SignalledIf(sent: bool, ws: seq<Worker>, j: Option<nat>): (r: seq<Worker>)
    requires WakesIf(sent, ws, j)
    ensures |r| == |ws|
  {
    if sent then Signalled(ws, j) else ws
  }

  predicate WorkerAt(s: State, i: nat, pc: Worker)
  {
    i < |s.workers| && s.workers[i] == pc
  }

  predicate Enabled(s: State, a: Action)
  {
    match a
    case Acquire(i) => WorkerAt(s, i, AtTop) && s.mutex == Nobody
    case Sleep(i) => WorkerAt(s, i, Checking) && s.wq == []
    case Wake(i) => WorkerAt(s, i, Waiting(true)) && s.mutex == Nobody && s.idle > 0
    case Spurious(i) => WorkerAt(s, i, Waiting(false))
    case Take(i) => WorkerAt(s, i, Checking) && s.wq != [] && s.wq[0].Item? && s.wq[0].w in s.reqs
    case Leave(i, j) => WorkerAt(s, i, Checking) && s.wq != [] && s.wq[0] == ExitMessage && Wakes(s.workers, j)
    case Run(i) => i < |s.workers| && s.workers[i].Holding? && s.workers[i].w in s.reqs
    case LockLoop(i) =>
      && i < |s.workers| && s.workers[i].HasRun? && s.workers[i].w in s.reqs
      && s.reqs[s.workers[i].w].loop < |s.loops| && s.loops[s.reqs[s.workers[i].w].loop].lock == Nobody
    case Deliver(i) =>
      && i < |s.workers| && s.workers[i].Delivering? && s.workers[i].w in s.reqs
      && s.reqs[s.workers[i].w].loop < |s.loops|
    case Submit(l, w) => l < |s.loops| && s.loops[l].call == Free && w !in s.reqs
    case PostLock(l) => l < |s.loops| && s.loops[l].call.PostWait? && s.mutex == Nobody
    case Post(l, j) => l < |s.loops| && s.loops[l].call.PostHold? && s.loops[l].call.w in s.reqs && WakesIf(s.idle > 0, s.workers, j)
    case Cancel(l, w) => l < |s.loops| && s.loops[l].call == Free && w in s.reqs && s.reqs[w].loop == l && s.reqs[w].dones == 0
    case CancelLock(l) => l < |s.loops| && s.loops[l].call.CancelWait? && s.mutex == Nobody
    case CancelLockLoop(l) => l < |s.loops| && s.loops[l].call.CancelHold? && s.loops[l].lock == Nobody
    case CancelDecide(l) => l < |s.loops| && s.loops[l].call.CancelBoth? && s.loops[l].call.w in s.reqs
    case MoveLock(l) => l < |s.loops| && s.loops[l].call.MoveWait? && s.loops[l].call.w in s.reqs && s.loops[l].lock == Nobody
    case Move(l) => l < |s.loops| && s.loops[l].call.MoveHold? && s.loops[l].call.w in s.reqs
    case Drain(l) => l < |s.loops| && s.loops[l].call == Free && s.loops[l].async && s.loops[l].local == []
    case DrainLock(l) => l < |s.loops| && s.loops[l].call == DrainWait && s.loops[l].lock == Nobody
    case DrainMove(l) => l < |s.loops| && s.loops[l].call == DrainHold && forall w :: w in s.loops[l].wq ==> w in s.reqs
    case Done(l) => l < |s.loops| && s.loops[l].call == Free && s.loops[l].local != [] && s.loops[l].local[0] in s.reqs
    case ExitStart => s.exit == Running
    case ExitLock => s.exit == ExitWait && s.mutex == Nobody
    case ExitPost(j) => s.exit == ExitHold && WakesIf(s.idle > 0, s.workers, j)
  }

  function Without<T(==)>(q: seq<T>, x: T): seq<T>
  {
    if q == [] then [] else if q[0] == x then q[1..] else [q[0]] + Without(q[1..], x)
  }

  /** The test of uv__work_cancel: linked into some queue, and with work still to do. */
  predicate Cancellable(r: Request)
  {
    r.link != Self && r.work != Null
  }

  function SetPhases(reqs: map<nat, Request>, ws: seq<nat>, phase: Phase): (r: map<nat, Request>)
    requires forall w :: w in ws ==> w in reqs
  {
    map w | w in reqs :: if w in ws then reqs[w].(phase := phase) else reqs[w]
  }

  function AtLoop(s: State, l: nat, loop: Loop): State
    requires l < |s.loops|
  {
    s.(loops := s.loops[l := loop])
  }

  predicate OfWorker(a: Action)
  {
    a.Acquire? || a.Sleep? || a.Wake? || a.Spurious? || a.Take? || a.Leave? || a.Run? || a.LockLoop? || a.Deliver?
  }

  predicate OfExit(a: Action)
  {
    a.ExitStart? || a.ExitLock? || a.ExitPost?
  }

  /** The steps of worker(). */
  function WorkerStep(s: State, a: Action): State
    requires Enabled(s, a) && OfWorker(a)
  {
    match a
    case Acquire(i) => s.(workers := s.workers[i := Checking], mutex := ByWorker(i))
    case Sleep(i) => s.(workers := s.workers[i := Waiting(false)], idle := s.idle + 1, mutex := Nobody)
    case Wake(i) => s.(workers := s.workers[i := Checking], idle := s.idle - 1, mutex := ByWorker(i))
    case Spurious(i) => s.(workers := s.workers[i := Waiting(true)])
    case Take(i) =>
      var w := s.wq[0].w;
      s.(wq := s.wq[1..], workers := s.workers[i := Holding(w)], mutex := Nobody,
         reqs := s.reqs[w := s.reqs[w].(link := Self, phase := AtWorker(i))])
    case Leave(i, j) => s.(workers := Signalled(s.workers, j)[i := Exited], mutex := Nobody)
    case Run(i) =>
      var w := s.workers[i].w;
      s.(workers := s.workers[i := HasRun(w)], reqs := s.reqs[w := s.reqs[w].(ran := s.reqs[w].ran + 1)])
    case LockLoop(i) =>
      var w := s.workers[i].w;
      var l := s.reqs[w].loop;
      AtLoop(s, l, s.loops[l].(lock := ByWorker(i))).(workers := s.workers[i := Delivering(w)])
    case Deliver(i) =>
      var w := s.workers[i].w;
      var l := s.reqs[w].loop;
      AtLoop(s, l, s.loops[l].(lock := Nobody, async := true, wq := s.loops[l].wq + [w])).(
        workers := s.workers[i := AtTop],
        reqs := s.reqs[w := s.reqs[w].(work := Null, link := Linked, phase := InLoop)])
  }

  /** The steps of uv__work_submit, post, uv__work_cancel and uv__work_done on a loop's thread. */
  function LoopStep(s: State, a: Action): State
    requires Enabled(s, a) && !OfWorker(a) && !OfExit(a)
  {
    match a
    case Submit(l, w) =>
      AtLoop(s, l, s.loops[l].(call := PostWait(w))).(
        reqs := s.reqs[w := Request(l, Func, Stale, Posting, 0, 0, None, false, false)])
    case PostLock(l) => AtLoop(s, l, s.loops[l].(call := PostHold(s.loops[l].call.w))).(mutex := ByLoop(l))
    case Post(l, j) =>
      var w := s.loops[l].call.w;
      AtLoop(s, l, s.loops[l].(call := Free)).(
        wq := s.wq + [Item(w)], mutex := Nobody, workers := SignalledIf(s.idle > 0, s.workers, j),
        reqs := s.reqs[w := s.reqs[w].(link := Linked, phase := Queued, early := s.exit != Posted)])
    case Cancel(l, w) => AtLoop(s, l, s.loops[l].(call := CancelWait(w)))
    case CancelLock(l) => AtLoop(s, l, s.loops[l].(call := CancelHold(s.loops[l].call.w))).(mutex := ByLoop(l))
    case CancelLockLoop(l) => AtLoop(s, l, s.loops[l].(call := CancelBoth(s.loops[l].call.w), lock := ByLoop(l)))
    case CancelDecide(l) =>
      var w := s.loops[l].call.w;
      var loop := s.loops[l].(lock := Nobody);
      if Cancellable(s.reqs[w]) then
        // One of these queues holds the request; the others do not change.
        AtLoop(s, l, loop.(call := MoveWait(w), wq := Without(loop.wq, w), local := Without(loop.local, w))).(
          wq := Without(s.wq, Item(w)), mutex := Nobody,
          reqs := s.reqs[w := s.reqs[w].(link := Stale, phase := Moving, cancelled := true)])
      else AtLoop(s, l, loop.(call := Free)).(mutex := Nobody)
    case MoveLock(l) =>
      var w := s.loops[l].call.w;
      AtLoop(s, l, s.loops[l].(call := MoveHold(w), lock := ByLoop(l))).(
        reqs := s.reqs[w := s.reqs[w].(work := Cancelled)])
    case Move(l) =>
      var w := s.loops[l].call.w;
      AtLoop(s, l, s.loops[l].(call := Free, lock := Nobody, async := true, wq := s.loops[l].wq + [w])).(
        reqs := s.reqs[w := s.reqs[w].(link := Linked, phase := InLoop)])
    case Drain(l) => AtLoop(s, l, s.loops[l].(call := DrainWait, async := false))
    case DrainLock(l) => AtLoop(s, l, s.loops[l].(call := DrainHold, lock := ByLoop(l)))
    case DrainMove(l) =>
      AtLoop(s, l, s.loops[l].(call := Free, lock := Nobody, wq := [], local := s.loops[l].wq)).(
        reqs := SetPhases(s.reqs, s.loops[l].wq, InLocal))
    case Done(l) =>
      var w := s.loops[l].local[0];
      AtLoop(s, l, s.loops[l].(local := s.loops[l].local[1..])).(
        reqs := s.reqs[w := s.reqs[w].(link := Stale, phase := Delivered, dones := s.reqs[w].dones + 1,
                                       status := Some(if s.reqs[w].work == Cancelled then UV_ECANCELED else 0))])
  }

  /** The steps of cleanup() that post the exit message. */
  function ExitStep(s: State, a: Action): State
    requires Enabled(s, a) && OfExit(a)
  {
    match a
    case ExitStart => s.(exit := ExitWait)
    case ExitLock => s.(exit := ExitHold, mutex := ByExit)
    case ExitPost(j) =>
      s.(exit := Posted, mutex := Nobody, wq := s.wq + [ExitMessage], workers := SignalledIf(s.idle > 0, s.workers, j))
  }

  function Apply(s: State, a: Action): State
    requires Enabled(s, a)
  {
    if OfWorker(a) then WorkerStep(s, a) else if OfExit(a) then ExitStep(s, a) else LoopStep(s, a)
  }

  /** A run: each state follows from the one before by a step. */
  predicate IsRun(states: seq<State>, actions: seq<Action>)
  {
    && |states| == |actions| + 1 && Initial(states[0])
    && forall k :: 0 <= k < |actions| ==> Enabled(states[k], actions[k]) && states[k + 1] == Apply(states[k], actions[k])
  }
}
