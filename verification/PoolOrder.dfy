/**
  The order the thread pool keeps: work starts in the order it was posted, and a
  loop calls done in the order its work finished, whatever is cancelled between.
 */
module PoolOrder {
  import opened ThreadPool
  import opened ThreadPoolSafety
  import opened PoolQueues

  predicate Precedes<T(==)>(q: seq<T>, e: T, f: T)
  {
    exists i, j :: 0 <= i < j < |q| && q[i] == e && q[j] == f
  }

  lemma PrecedesLonger<T>(q: seq<T>, r: seq<T>, e: T, f: T)
    requires Precedes(q, e, f)
    ensures Precedes(q + r, e, f)
  {
    var i, j :| 0 <= i < j < |q| && q[i] == e && q[j] == f;
    assert (q + r)[i] == e && (q + r)[j] == f;
  }

  lemma PrecedesLast<T>(q: seq<T>, e: T, f: T)
    requires e in q
    ensures Precedes(q + [f], e, f)
  {
    var i :| 0 <= i < |q| && q[i] == e;
    assert (q + [f])[i] == e && (q + [f])[|q|] == f;
  }

  lemma PrecedesLater<T>(a: seq<T>, x: T, b: seq<T>, e: T, f: T)
    requires Precedes(a + [x] + b, e, f) && x != e && x != f
    ensures Precedes(a + b, e, f)
  {
    var q := a + [x] + b;
    var i, j :| 0 <= i < j < |q| && q[i] == e && q[j] == f;
    assert (a + b)[if i < |a| then i else i - 1] == e && (a + b)[if j < |a| then j else j - 1] == f;
  }

  lemma PrecedesTail<T>(q: seq<T>, e: T, f: T)
    requires Precedes(q, e, f) && NoRepeats(q)
    ensures q[0] != f && (q[0] != e ==> Precedes(q[1..], e, f))
  {
    if q[0] != f && q[0] != e {
      assert q == [] + [q[0]] + q[1..] && q[1..] == [] + q[1..];
      PrecedesLater([], q[0], q[1..], e, f);
    }
  }

  lemma PrecedesWithout<T>(q: seq<T>, x: T, e: T, f: T)
    requires Precedes(q, e, f) && x != e && x != f
    ensures Precedes(Without(q, x), e, f)
  {
    var d := WithoutSplits(q, x);
    if d < |q| {
      assert q == q[..d] + [x] + q[d + 1..];
      PrecedesLater(q[..d], x, q[d + 1..], e, f);
    } else {
      assert q[..d] + [] == q;
    }
  }

  lemma BothIn<T>(q: seq<T>, e: T, f: T)
    requires Precedes(q, e, f)
    ensures e in q && f in q
  {
  }

  /** A request that has been in the global queue and is no longer there. */
  predicate Past(p: Phase) { p != Posting && p != Queued }

  /** `w` waits behind `u`, unless `u` has left the queue or `w` has been cancelled. */
  predicate WaitsBehind(s: State, u: nat, w: nat)
  {
    && u in s.reqs && w in s.reqs
    && (Past(s.reqs[u].phase) || s.reqs[w].cancelled || Precedes(s.wq, Item(u), Item(w)))
  }

  /** The request in the hands of a loop's thread. */
  lemma CallerHas(s: State, l: nat)
    requires Safe(s) && l < |s.loops|
    ensures var c := s.loops[l].call;
      && (InPost(c) ==> c.w in s.reqs && s.reqs[c.w].phase == Posting && s.reqs[c.w].loop == l)
      && (InMove(c) ==> c.w in s.reqs && s.reqs[c.w].phase == Moving && s.reqs[c.w].loop == l)
      && (InCancel(c) ==> c.w in s.reqs && s.reqs[c.w].dones == 0)
  {
    SafeLoop(s, l);
  }

  /** Requests stay, do not come back to the queue, and stay cancelled. */
  predicate Onward(s: State, t: State, v: nat)
    requires v in s.reqs
  {
    && v in t.reqs && t.reqs[v].loop == s.reqs[v].loop
    && (Past(s.reqs[v].phase) ==> Past(t.reqs[v].phase)) && (s.reqs[v].cancelled ==> t.reqs[v].cancelled)
  }

  lemma NoWayBack(s: State, a: Action, v: nat)
    requires Safe(s) && Enabled(s, a) && v in s.reqs
    ensures Onward(s, Apply(s, a), v)
  {
    hide Safe, Apply, Onward, Enabled;
    if OfWorker(a) {
      OnwardByWorker(s, a, v);
    } else if OfExit(a) {
      OnwardByExit(s, a, v);
    } else if Calling(a) {
      OnwardByCall(s, a, v);
    } else {
      OnwardByLoop(s, a, v);
    }
  }

  lemma OnwardByWorker(s: State, a: Action, v: nat)
    requires Enabled(s, a) && OfWorker(a) && v in s.reqs
    ensures Onward(s, Apply(s, a), v)
  {
    hide Wakes;
  }

  lemma OnwardByExit(s: State, a: Action, v: nat)
    requires Enabled(s, a) && OfExit(a) && v in s.reqs
    ensures Onward(s, Apply(s, a), v)
  {
    hide Wakes;
  }

  lemma OnwardByCall(s: State, a: Action, v: nat)
    requires Safe(s) && Enabled(s, a) && Calling(a) && v in s.reqs
    ensures Onward(s, Apply(s, a), v)
  {
    if a.Post? { CallerHas(s, a.l); }
    hide Safe, Wakes, NoRepeats;
  }

  lemma OnwardByLoop(s: State, a: Action, v: nat)
    requires Enabled(s, a) && OfLoop(a) && !Calling(a) && v in s.reqs
    ensures Onward(s, Apply(s, a), v)
  {
    if a.CancelDecide? {
      DecideIs(s, a);
      hide Apply, Without, Cancellable;
    } else {
      hide Without, Cancellable;
    }
  }

  lemma StillBehind(s: State, a: Action, u: nat, w: nat)
    requires Safe(s) && Enabled(s, a) && WaitsBehind(s, u, w)
    ensures WaitsBehind(Apply(s, a), u, w)
  {
    hide Safe, Apply, Enabled, Precedes;
    NoWayBack(s, a, u);
    NoWayBack(s, a, w);
    if !Past(s.reqs[u].phase) && !s.reqs[w].cancelled {
      SafeQueue(s);
      if a.Take? {
        BehindTaken(s, a.i, u, w);
      } else if a.CancelDecide? {
        BehindDecided(s, a, u, w);
      } else {
        var q := NotShortened(s, a);
        PrecedesLonger(s.wq, q, Item(u), Item(w));
      }
    }
  }

  /** Only taking and cancelling take anything out of the global queue. */
  lemma NotShortened(s: State, a: Action) returns (q: seq<Entry>)
    requires Enabled(s, a) && !a.Take? && !a.CancelDecide?
    ensures Apply(s, a).wq == s.wq + q
  {
    if a.Post? {
      hide Wakes;
      q := [Item(s.loops[a.l].call.w)];
    } else if a.ExitPost? {
      hide Wakes;
      q := [ExitMessage];
    } else {
      q := [];
      SameQueue(s, a);
      assert s.wq + [] == s.wq;
    }
  }

  lemma SameQueue(s: State, a: Action)
    requires Enabled(s, a) && !a.Take? && !a.CancelDecide? && !a.Post? && !a.ExitPost?
    ensures Apply(s, a).wq == s.wq
  {
    hide Wakes;
  }

  lemma BehindTaken(s: State, i: nat, u: nat, w: nat)
    requires Enabled(s, Take(i)) && NoRepeats(s.wq) && u in s.reqs && Precedes(s.wq, Item(u), Item(w))
    ensures var t := Apply(s, Take(i)); u in t.reqs && (Past(t.reqs[u].phase) || Precedes(t.wq, Item(u), Item(w)))
  {
    hide Precedes, NoRepeats;
    PrecedesTail(s.wq, Item(u), Item(w));
  }

  lemma BehindDecided(s: State, a: Action, u: nat, w: nat)
    requires Enabled(s, a) && a.CancelDecide? && u in s.reqs && w in s.reqs && Precedes(s.wq, Item(u), Item(w))
    ensures var t := Apply(s, a);
      && u in t.reqs && w in t.reqs
      && (Past(t.reqs[u].phase) || t.reqs[w].cancelled || Precedes(t.wq, Item(u), Item(w)))
  {
    hide Precedes, Without, Apply, Cancellable;
    DecideIs(s, a);
    var x := s.loops[a.l].call.w;
    if x != u && x != w {
      PrecedesWithout(s.wq, Item(x), Item(u), Item(w));
    }
  }

  lemma {:induction false} BehindThroughout(states: seq<State>, actions: seq<Action>, k: nat, n: nat, u: nat, w: nat)
    requires IsRun(states, actions) && k <= n < |states| && Precedes(states[k].wq, Item(u), Item(w))
    ensures WaitsBehind(states[n], u, w)
    decreases n
  {
    hide Safe, Enabled, Apply;
    if n == k {
      RunSafe(states, actions, k);
      QueuedKnown(states[k], u, w);
    } else {
      RunSafe(states, actions, n - 1);
      BehindThroughout(states, actions, k, n - 1, u, w);
      StillBehind(states[n - 1], actions[n - 1], u, w);
    }
  }

  lemma QueuedKnown(s: State, u: nat, w: nat)
    requires Safe(s) && Precedes(s.wq, Item(u), Item(w))
    ensures u in s.reqs && w in s.reqs
  {
    assert QueueOk(s);
    BothIn(s.wq, Item(u), Item(w));
  }

  /** Work starts in the order it was posted: what was queued behind a request does not run before that has left the queue. */
  lemma StartsInOrder(states: seq<State>, actions: seq<Action>, k: nat, n: nat, u: nat, w: nat)
    requires IsRun(states, actions) && k <= n < |states| && Precedes(states[k].wq, Item(u), Item(w))
    ensures u in states[n].reqs && w in states[n].reqs
    ensures states[n].reqs[w].ran > 0 ==> Past(states[n].reqs[u].phase)
  {
    hide Apply, Enabled, IsRun, WorkerOk, LoopOk;
    BehindThroughout(states, actions, k, n, u, w);
    RunSafe(states, actions, n);
    var s := states[n];
    assert QueueOk(s) && HistoryOk(s, w);
    if Precedes(s.wq, Item(u), Item(w)) {
      BothIn(s.wq, Item(u), Item(w));
    }
  }

  /** What a loop has to call done on, in the order it will. */
  function Line(s: State, l: nat): seq<nat>
    requires l < |s.loops|
  {
    s.loops[l].local + s.loops[l].wq
  }

  /** `u` has run and is in the line of loop `l`, where `w` is behind it or on its way to be. */
  predicate InLine(s: State, l: nat, u: nat, w: nat)
  {
    && l < |s.loops| && u in s.reqs && w in s.reqs
    && s.reqs[u].work == Null && u in Line(s, l) && s.reqs[w].loop == l
    && (s.reqs[w].phase == Moving || Precedes(Line(s, l), u, w))
  }

  /** `u` has run, and its done comes before that of `w`. */
  predicate DoneBefore(s: State, l: nat, u: nat, w: nat)
  {
    u in s.reqs && w in s.reqs && (s.reqs[u].phase == Delivered || InLine(s, l, u, w))
  }

  lemma LineFacts(s: State, l: nat)
    requires Safe(s) && l < |s.loops|
    ensures NoRepeats(Line(s, l))
    ensures forall v :: v in Line(s, l) ==> v in s.reqs && s.reqs[v].loop == l && (s.reqs[v].phase == InLoop || s.reqs[v].phase == InLocal)
    ensures s.loops[l].call == DrainHold ==> s.loops[l].local == []
  {
    assert LoopOk(s, l);
    hide Safe;
    var loop := s.loops[l];
    assert forall v :: v in loop.local ==> s.reqs[v].phase == InLocal;
    forall i, j | 0 <= i < j < |Line(s, l)| ensures Line(s, l)[i] != Line(s, l)[j] {
      if i < |loop.local| <= j {
        assert Line(s, l)[i] in loop.local && Line(s, l)[j] in loop.wq;
      }
    }
  }

  lemma DeliveredStays(s: State, a: Action, v: nat)
    requires Safe(s) && Enabled(s, a) && v in s.reqs && s.reqs[v].phase == Delivered
    ensures var t := Apply(s, a); v in t.reqs && t.reqs[v].phase == Delivered
  {
    if OfWorker(a) {
      DeliveredByWorker(s, a, v);
    } else if OfLoop(a) {
      DeliveredByLoop(s, a, v);
    } else {
      hide Safe, Wakes;
    }
  }

  lemma DeliveredByWorker(s: State, a: Action, v: nat)
    requires Safe(s) && Enabled(s, a) && OfWorker(a) && v in s.reqs && s.reqs[v].phase == Delivered
    ensures var t := Apply(s, a); v in t.reqs && t.reqs[v].phase == Delivered
  {
    SafeQueue(s);
    if a.Deliver? { SafeWorker(s, a.i); }
    hide Safe, Wakes, NoRepeats;
    if a.Take? { assert s.wq[0] in s.wq; }
  }

  lemma DeliveredByLoop(s: State, a: Action, v: nat)
    requires Safe(s) && Enabled(s, a) && OfLoop(a) && v in s.reqs && s.reqs[v].phase == Delivered
    ensures var t := Apply(s, a); v in t.reqs && t.reqs[v].phase == Delivered
  {
    if a.CancelDecide? {
      DeliveredDecide(s, a, v);
    } else if a.DrainMove? {
      SafeLoop(s, a.l);
      hide Safe, NoRepeats;
    } else {
      CallerHas(s, a.l);
      hide Safe, Wakes, Without, Cancellable;
    }
  }

  lemma DeliveredDecide(s: State, a: Action, v: nat)
    requires Safe(s) && Enabled(s, a) && a.CancelDecide? && v in s.reqs && s.reqs[v].phase == Delivered
    ensures var t := Apply(s, a); v in t.reqs && t.reqs[v].phase == Delivered
  {
    assert HistoryOk(s, v);
    CallerHas(s, a.l);
    DecideIs(s, a);
    hide Safe, Apply, Without, Cancellable, NoRepeats;
  }

  lemma LineWithout(p: seq<nat>, q: seq<nat>, x: nat, e: nat, f: nat)
    requires Precedes(p + q, e, f) && x != e && x != f
    ensures Precedes(Without(p, x) + Without(q, x), e, f)
  {
    hide Precedes, Without;
    var c := WithoutSplits(p, x);
    var d := WithoutSplits(q, x);
    var p', q' := Without(p, x), Without(q, x);
    if c < |p| {
      assert p + q == p[..c] + [x] + (p[c + 1..] + q) && p' + q == p[..c] + (p[c + 1..] + q);
      PrecedesLater(p[..c], x, p[c + 1..] + q, e, f);
    } else {
      assert p' == p;
    }
    if d < |q| {
      assert p' + q == (p' + q[..d]) + [x] + q[d + 1..] && p' + q' == (p' + q[..d]) + q[d + 1..];
      PrecedesLater(p' + q[..d], x, q[d + 1..], e, f);
    } else {
      assert q' == q;
    }
  }

  lemma LineMembers(s: State, l: nat, u: nat, w: nat)
    requires Safe(s) && InLine(s, l, u, w)
    ensures s.reqs[u].loop == l && (s.reqs[u].phase == InLoop || s.reqs[u].phase == InLocal)
    ensures s.reqs[w].phase != Moving ==> s.reqs[w].phase == InLoop || s.reqs[w].phase == InLocal
    ensures s.reqs[w].phase == Moving ==> w !in Line(s, l)
  {
    hide Safe;
    LineFacts(s, l);
    if s.reqs[w].phase != Moving {
      BothIn(Line(s, l), u, w);
    }
  }

  predicate Moves(a: Action)
  {
    a.Deliver? || a.Move? || a.CancelDecide? || a.DrainMove? || a.Done?
  }

  predicate LineOrMoving(p: Phase) { p == InLoop || p == InLocal || p == Moving }

  /** Nothing about the two requests or the loop's queues has changed. */
  predicate Untouched(s: State, t: State, l: nat, u: nat, w: nat)
  {
    && l < |s.loops| && l < |t.loops| && u in s.reqs && w in s.reqs && u in t.reqs && w in t.reqs
    && t.loops[l].wq == s.loops[l].wq && t.loops[l].local == s.loops[l].local
    && t.reqs[u].work == s.reqs[u].work && t.reqs[w].loop == s.reqs[w].loop && t.reqs[w].phase == s.reqs[w].phase
  }

  lemma UntouchedByWorker(s: State, a: Action, l: nat, u: nat, w: nat)
    requires Safe(s) && Enabled(s, a) && OfWorker(a) && !Moves(a) && l < |s.loops| && u in s.reqs && w in s.reqs
    requires LineOrMoving(s.reqs[w].phase)
    ensures Untouched(s, Apply(s, a), l, u, w)
  {
    assert QueueOk(s);
    hide Safe, Wakes, NoRepeats;
  }

  lemma UntouchedByExit(s: State, a: Action, l: nat, u: nat, w: nat)
    requires Enabled(s, a) && OfExit(a) && l < |s.loops| && u in s.reqs && w in s.reqs
    ensures Untouched(s, Apply(s, a), l, u, w)
  {
    hide Wakes;
  }

  lemma LineLeft(s: State, a: Action, l: nat)
    requires Enabled(s, a) && OfLoop(a) && !Moves(a) && l < |s.loops|
    ensures var t := Apply(s, a); l < |t.loops| && t.loops[l].wq == s.loops[l].wq && t.loops[l].local == s.loops[l].local
  {
    hide Wakes;
  }

  lemma OthersLeft(s: State, a: Action, v: nat)
    requires Enabled(s, a) && OfLoop(a) && !Moves(a) && v in s.reqs
    requires a.Post? || a.MoveLock? ==> s.loops[a.l].call.w != v
    ensures v in Apply(s, a).reqs && Apply(s, a).reqs[v] == s.reqs[v]
  {
    hide Wakes;
  }

  lemma UntouchedByLoop(s: State, a: Action, l: nat, u: nat, w: nat)
    requires Safe(s) && Enabled(s, a) && OfLoop(a) && !Moves(a) && l < |s.loops| && u in s.reqs && w in s.reqs
    requires LineOrMoving(s.reqs[w].phase) && (s.reqs[u].phase == InLoop || s.reqs[u].phase == InLocal)
    ensures Untouched(s, Apply(s, a), l, u, w)
  {
    if !a.Submit? { CallerHas(s, a.l); }
    hide Safe, Apply, Wakes;
    LineLeft(s, a, l);
    OthersLeft(s, a, u);
    if a.MoveLock? {
      MoveLockLeaves(s, a, w);
    } else {
      OthersLeft(s, a, w);
    }
  }

  lemma MoveLockLeaves(s: State, a: Action, v: nat)
    requires Enabled(s, a) && a.MoveLock? && v in s.reqs
    ensures var t := Apply(s, a); v in t.reqs && t.reqs[v].loop == s.reqs[v].loop && t.reqs[v].phase == s.reqs[v].phase
  {
  }

  /** Steps that leave all lines alone. */
  lemma LineSame(s: State, a: Action, l: nat, u: nat, w: nat)
    requires Safe(s) && Enabled(s, a) && InLine(s, l, u, w) && !Moves(a)
    ensures InLine(Apply(s, a), l, u, w)
  {
    hide Safe, Precedes, Enabled, Apply;
    LineMembers(s, l, u, w);
    if OfWorker(a) {
      UntouchedByWorker(s, a, l, u, w);
    } else if OfExit(a) {
      UntouchedByExit(s, a, l, u, w);
    } else {
      UntouchedByLoop(s, a, l, u, w);
    }
  }

  lemma LineDeliver(s: State, i: nat, l: nat, u: nat, w: nat)
    requires Safe(s) && Enabled(s, Deliver(i)) && InLine(s, l, u, w)
    ensures InLine(Apply(s, Deliver(i)), l, u, w)
  {
    hide Safe, Precedes, Apply;
    LineMembers(s, l, u, w);
    SafeWorker(s, i);
    DeliverIs(s, i);
    var x, t := s.workers[i].w, Apply(s, Deliver(i));
    if s.reqs[x].loop == l {
      assert Line(t, l) == Line(s, l) + [x];
      if s.reqs[w].phase != Moving { PrecedesLonger(Line(s, l), [x], u, w); }
    } else {
      assert Line(t, l) == Line(s, l);
    }
  }

  lemma LineMove(s: State, m: nat, l: nat, u: nat, w: nat)
    requires Safe(s) && Enabled(s, Move(m)) && InLine(s, l, u, w)
    ensures InLine(Apply(s, Move(m)), l, u, w)
  {
    hide Safe, Precedes, Apply, NoRepeats;
    LineMembers(s, l, u, w);
    CallerHas(s, m);
    MoveIs(s, m);
    var x, t := s.loops[m].call.w, Apply(s, Move(m));
    if m == l {
      assert Line(t, l) == Line(s, l) + [x];
      if s.reqs[w].phase != Moving {
        PrecedesLonger(Line(s, l), [x], u, w);
      } else if x == w {
        PrecedesLast(Line(s, l), u, w);
      }
    } else {
      assert Line(t, l) == Line(s, l);
    }
  }

  lemma LineDecide(s: State, m: nat, l: nat, u: nat, w: nat)
    requires Safe(s) && Enabled(s, CancelDecide(m)) && InLine(s, l, u, w)
    ensures InLine(Apply(s, CancelDecide(m)), l, u, w)
  {
    hide Safe, Precedes, Without, Apply, NoRepeats;
    SafeLoop(s, l);
    DecideIs(s, CancelDecide(m));
    var x, t := s.loops[m].call.w, Apply(s, CancelDecide(m));
    if !Cancellable(s.reqs[x]) || m != l {
      assert Line(t, l) == Line(s, l);
    } else {
      var p, q := s.loops[l].local, s.loops[l].wq;
      assert Line(t, l) == Without(p, x) + Without(q, x);
      StillIn(p, q, x, u);
      if x != w && s.reqs[w].phase != Moving {
        LineWithout(p, q, x, u, w);
      }
    }
  }

  lemma StillIn(p: seq<nat>, q: seq<nat>, x: nat, u: nat)
    requires u in p + q && u != x && NoRepeats(p) && NoRepeats(q)
    ensures u in Without(p, x) + Without(q, x)
  {
    hide Without;
    if u in p {
      WithoutKeeps(p, x);
    } else {
      WithoutKeeps(q, x);
    }
  }

  lemma DrainKeeps(s: State, m: nat, l: nat)
    requires Enabled(s, DrainMove(m)) && l < |s.loops| && (m == l ==> s.loops[l].local == [])
    ensures var t := Apply(s, DrainMove(m));
      && l < |t.loops| && Line(t, l) == Line(s, l) && t.reqs.Keys == s.reqs.Keys
      && (forall v :: v in s.reqs ==> t.reqs[v].work == s.reqs[v].work && t.reqs[v].loop == s.reqs[v].loop)
      && (forall v :: v in s.reqs && v !in s.loops[m].wq ==> t.reqs[v].phase == s.reqs[v].phase)
  {
  }

  lemma LineDrain(s: State, m: nat, l: nat, u: nat, w: nat)
    requires Safe(s) && Enabled(s, DrainMove(m)) && InLine(s, l, u, w)
    ensures InLine(Apply(s, DrainMove(m)), l, u, w)
  {
    hide Safe, Precedes, NoRepeats, Apply;
    LineMembers(s, l, u, w);
    LineFacts(s, m);
    assert w in s.loops[m].wq ==> w in Line(s, m);
    DrainKeeps(s, m, l);
  }

  /** The loop calls done on the first in its line. */
  lemma LineFirst(s: State, m: nat)
    requires Safe(s) && Enabled(s, Done(m))
    ensures var x := s.loops[m].local[0];
      && s.reqs[x].loop == m && s.reqs[x].phase != Moving && Line(s, m) != [] && Line(s, m)[0] == x
      && Line(Apply(s, Done(m)), m) == Line(s, m)[1..] && NoRepeats(Line(s, m))
  {
    hide Safe, NoRepeats, Apply;
    LineFacts(s, m);
    DoneIs(s, m);
    assert s.loops[m].local[0] in Line(s, m);
  }

  lemma LineDone(s: State, m: nat, l: nat, u: nat, w: nat)
    requires Safe(s) && Enabled(s, Done(m)) && InLine(s, l, u, w)
    ensures var t := Apply(s, Done(m)); InLine(t, l, u, w) || (u in t.reqs && t.reqs[u].phase == Delivered)
  {
    hide Safe, Precedes, NoRepeats, Apply;
    LineMembers(s, l, u, w);
    LineFirst(s, m);
    DoneIs(s, m);
    var x, t := s.loops[m].local[0], Apply(s, Done(m));
    if m != l {
      assert Line(t, l) == Line(s, l);
    } else if u != x {
      hide Line;
      assert Line(s, l) == [x] + Line(s, l)[1..];
      if s.reqs[w].phase != Moving {
        PrecedesTail(Line(s, l), u, w);
      }
    }
  }

  lemma DoneStillBefore(s: State, a: Action, l: nat, u: nat, w: nat)
    requires Safe(s) && Enabled(s, a) && DoneBefore(s, l, u, w)
    ensures DoneBefore(Apply(s, a), l, u, w)
  {
    hide Safe, Enabled, Apply, Precedes;
    NoWayBack(s, a, u);
    NoWayBack(s, a, w);
    SameNumbers(s, a);
    if s.reqs[u].phase == Delivered {
      DeliveredStays(s, a, u);
    } else {
      match a
      case Deliver(i) => LineDeliver(s, i, l, u, w);
      case Move(m) => LineMove(s, m, l, u, w);
      case CancelDecide(m) => LineDecide(s, m, l, u, w);
      case DrainMove(m) => LineDrain(s, m, l, u, w);
      case Done(m) => LineDone(s, m, l, u, w);
      case _ => LineSame(s, a, l, u, w);
    }
  }

  lemma {:induction false} BeforeThroughout(states: seq<State>, actions: seq<Action>, k: nat, n: nat, l: nat, u: nat, w: nat)
    requires IsRun(states, actions) && k <= n < |states| && DoneBefore(states[k], l, u, w)
    ensures DoneBefore(states[n], l, u, w)
    decreases n
  {
    hide Safe, Enabled, Apply, DoneBefore;
    if n > k {
      RunSafe(states, actions, n - 1);
      BeforeThroughout(states, actions, k, n - 1, l, u, w);
      DoneStillBefore(states[n - 1], actions[n - 1], l, u, w);
    }
  }

  /** A loop calls done in the order the work finished: on what came to its queue later not before what had run. */
  lemma DoneInOrder(states: seq<State>, actions: seq<Action>, k: nat, n: nat, l: nat, u: nat, w: nat)
    requires IsRun(states, actions) && k <= n < |states| && l < |states[k].loops|
    requires Precedes(Line(states[k], l), u, w) && u in states[k].reqs && states[k].reqs[u].work == Null
    ensures u in states[n].reqs && w in states[n].reqs
    ensures states[n].reqs[w].dones > 0 ==> states[n].reqs[u].dones == 1
  {
    hide IsRun, Safe, Precedes;
    RunSafe(states, actions, k);
    LineFacts(states[k], l);
    BothIn(Line(states[k], l), u, w);
    BeforeThroughout(states, actions, k, n, l, u, w);
    RunSafe(states, actions, n);
    LastHistory(states[n], l, u, w);
  }

  lemma LastHistory(s: State, l: nat, u: nat, w: nat)
    requires Safe(s) && DoneBefore(s, l, u, w)
    ensures s.reqs[w].dones > 0 ==> s.reqs[u].dones == 1
  {
    hide QueueOk, WorkerOk, PlaceOk, Precedes;
    assert HistoryOk(s, u) && HistoryOk(s, w);
    if s.reqs[u].phase != Delivered {
      LineMembers(s, l, u, w);
    }
  }
}
