/**
  What each step of the thread pool does to its queues: the global one, each
  loop's, and the one uv__work_done works off.  At most one entry comes or goes,
  or one queue moves as a whole.
 */
module PoolQueues {
  import opened Options
  import opened ThreadPool
  import opened ThreadPoolSafety

  /** The queues in order: the global one, then for each loop its own and the one uv__work_done works off. */
  function QueueCount(s: State): nat { 1 + 2 * |s.loops| }
  function ReadyAt(l: nat): nat { 2 * l + 1 }
  function TakenAt(l: nat): nat { 2 * l + 2 }

  function Items(ws: seq<nat>): (q: seq<Entry>)
    ensures |q| == |ws| && forall i :: 0 <= i < |ws| ==> q[i] == Item(ws[i])
  {
    seq(|ws|, i requires 0 <= i < |ws| => Item(ws[i]))
  }

  function QueueAt(s: State, k: nat): seq<Entry>
    requires k < QueueCount(s)
  {
    if k == 0 then s.wq else if k % 2 == 1 then Items(s.loops[k / 2].wq) else Items(s.loops[k / 2 - 1].local)
  }

  /** A request in a queue is linked, and in the phase that queue stands for. */
  lemma QueuedLinked(s: State, k: nat, w: nat)
    requires Safe(s) && k < QueueCount(s) && Item(w) in QueueAt(s, k)
    ensures w in s.reqs && s.reqs[w].link == Linked
    ensures if k == 0 then s.reqs[w].phase == Queued
            else if k % 2 == 1 then s.reqs[w].phase == InLoop && s.reqs[w].loop == k / 2
            else s.reqs[w].phase == InLocal && s.reqs[w].loop == k / 2 - 1
  {
    hide PlaceOk, WorkerOk, NoRepeats;
    if k == 0 {
      assert QueueOk(s);
    } else {
      assert LoopOk(s, if k % 2 == 1 then k / 2 else k / 2 - 1);
    }
    assert HistoryOk(s, w);
  }

  /** Requests other than `e` keep their link states. */
  predicate Calm(s: State, t: State, e: Entry)
  {
    && t.reqs.Keys == s.reqs.Keys
    && forall w :: w in s.reqs && Item(w) != e ==>
         t.reqs[w].link == s.reqs[w].link && (s.reqs[w].phase.Posting? ==> t.reqs[w].phase.Posting?)
  }

  predicate SameQueues(s: State, t: State)
  {
    QueueCount(t) == QueueCount(s) && forall k :: 0 <= k < QueueCount(s) ==> QueueAt(t, k) == QueueAt(s, k)
  }

  predicate Unqueued(s: State, e: Entry)
  {
    forall k :: 0 <= k < QueueCount(s) ==> e !in QueueAt(s, k)
  }

  /** Queue `k` has gained `e` at its end; the others are as they were. */
  predicate Appends(s: State, t: State, k: nat, e: Entry)
  {
    && QueueCount(t) == QueueCount(s) && k < QueueCount(s) && QueueAt(t, k) == QueueAt(s, k) + [e]
    && forall m :: 0 <= m < QueueCount(s) && m != k ==> QueueAt(t, m) == QueueAt(s, m)
  }

  /** Queue `k` has lost `e` from between `a` and `b`. */
  predicate Removes(s: State, t: State, k: nat, a: seq<Entry>, e: Entry, b: seq<Entry>)
  {
    && QueueCount(t) == QueueCount(s) && k < QueueCount(s)
    && QueueAt(s, k) == a + [e] + b && QueueAt(t, k) == a + b
    && forall m :: 0 <= m < QueueCount(s) && m != k ==> QueueAt(t, m) == QueueAt(s, m)
  }

  /** Steps that leave every queue alone. */
  predicate Quiet(a: Action)
  {
    || a.Acquire? || a.Sleep? || a.Wake? || a.Spurious? || a.Leave? || a.Run? || a.LockLoop?
    || a.PostLock? || a.Cancel? || a.CancelLock? || a.CancelLockLoop? || a.MoveLock?
    || a.Drain? || a.DrainLock? || a.ExitStart? || a.ExitLock?
  }

  lemma QuietSame(s: State, a: Action)
    requires Enabled(s, a) && Quiet(a)
    ensures SameQueues(s, Apply(s, a)) && Calm(s, Apply(s, a), ExitMessage)
  {
    hide Enabled, Apply, SameQueues, Calm;
    if OfExit(a) {
      QuietExit(s, a);
    } else if OfWorker(a) {
      QuietWorker(s, a);
    } else {
      QuietLoop(s, a);
    }
  }

  lemma QuietExit(s: State, a: Action)
    requires Enabled(s, a) && Quiet(a) && OfExit(a)
    ensures SameQueues(s, Apply(s, a)) && Calm(s, Apply(s, a), ExitMessage)
  {
    hide Wakes;
  }

  lemma QuietWorker(s: State, a: Action)
    requires Enabled(s, a) && Quiet(a) && OfWorker(a)
    ensures SameQueues(s, Apply(s, a)) && Calm(s, Apply(s, a), ExitMessage)
  {
    hide Wakes, QueueAt;
    SameWhen(s, Apply(s, a));
  }

  lemma QuietLoop(s: State, a: Action)
    requires Enabled(s, a) && Quiet(a) && OfLoop(a)
    ensures SameQueues(s, Apply(s, a)) && Calm(s, Apply(s, a), ExitMessage)
  {
    hide Wakes, QueueAt;
    SameWhen(s, Apply(s, a));
  }

  lemma SameWhen(s: State, t: State)
    requires t.wq == s.wq && |t.loops| == |s.loops|
    requires forall l :: 0 <= l < |s.loops| ==> t.loops[l].wq == s.loops[l].wq && t.loops[l].local == s.loops[l].local
    ensures SameQueues(s, t)
  {
  }

  predicate InQueue(p: Phase) { p == Queued || p == InLoop || p == InLocal }

  /** A request in any other phase is in no queue. */
  lemma NotQueued(s: State, w: nat)
    requires Safe(s) && (w in s.reqs ==> !InQueue(s.reqs[w].phase))
    ensures Unqueued(s, Item(w))
  {
    hide Safe, QueueAt;
    forall k | 0 <= k < QueueCount(s) ensures Item(w) !in QueueAt(s, k) {
      if Item(w) in QueueAt(s, k) { QueuedLinked(s, k, w); }
    }
  }

  /** When only one loop has changed, so have only its two queues, and perhaps the global one. */
  lemma OtherQueues(s: State, t: State, l: nat)
    requires |t.loops| == |s.loops| && l < |s.loops|
    requires forall m :: 0 <= m < |s.loops| && m != l ==> t.loops[m] == s.loops[m]
    ensures QueueAt(s, ReadyAt(l)) == Items(s.loops[l].wq) && QueueAt(t, ReadyAt(l)) == Items(t.loops[l].wq)
    ensures QueueAt(s, TakenAt(l)) == Items(s.loops[l].local) && QueueAt(t, TakenAt(l)) == Items(t.loops[l].local)
    ensures QueueAt(s, 0) == s.wq && QueueAt(t, 0) == t.wq
    ensures forall k :: 0 < k < QueueCount(s) && k != ReadyAt(l) && k != TakenAt(l) ==> QueueAt(t, k) == QueueAt(s, k)
  {
  }

  lemma ItemsAppend(q: seq<nat>, w: nat)
    ensures Items(q + [w]) == Items(q) + [Item(w)]
  {
  }

  lemma DeliverIs(s: State, i: nat)
    requires Enabled(s, Deliver(i))
    ensures var w, t := s.workers[i].w, Apply(s, Deliver(i));
      var l := s.reqs[w].loop;
      && t.wq == s.wq && t.loops == s.loops[l := t.loops[l]]
      && t.loops[l].wq == s.loops[l].wq + [w] && t.loops[l].local == s.loops[l].local
      && t.reqs == s.reqs[w := s.reqs[w].(work := Null, link := Linked, phase := InLoop)]
  {
  }

  lemma MoveIs(s: State, l: nat)
    requires Enabled(s, Move(l))
    ensures var w, t := s.loops[l].call.w, Apply(s, Move(l));
      && t.wq == s.wq && t.loops == s.loops[l := t.loops[l]]
      && t.loops[l].wq == s.loops[l].wq + [w] && t.loops[l].local == s.loops[l].local
      && t.reqs == s.reqs[w := s.reqs[w].(link := Linked, phase := InLoop)]
  {
  }

  lemma DoneIs(s: State, l: nat)
    requires Enabled(s, Done(l))
    ensures var w, t := s.loops[l].local[0], Apply(s, Done(l));
      && t.wq == s.wq && t.loops == s.loops[l := t.loops[l]]
      && t.loops[l].wq == s.loops[l].wq && t.loops[l].local == s.loops[l].local[1..]
      && t.reqs.Keys == s.reqs.Keys && (forall v :: v in s.reqs && v != w ==> t.reqs[v] == s.reqs[v])
      && t.reqs[w].link == Stale && t.reqs[w].phase == Delivered
  {
  }

  lemma DeliverAppends(s: State, i: nat)
    requires Safe(s) && Enabled(s, Deliver(i))
    ensures var w, t := s.workers[i].w, Apply(s, Deliver(i));
      Appends(s, t, ReadyAt(s.reqs[w].loop), Item(w)) && Calm(s, t, Item(w)) && Unqueued(s, Item(w))
  {
    hide Safe, QueueAt, Items, Apply, Without, Wakes;
    var w, t := s.workers[i].w, Apply(s, Deliver(i));
    SafeWorker(s, i);
    DeliverIs(s, i);
    OtherQueues(s, t, s.reqs[w].loop);
    ItemsAppend(s.loops[s.reqs[w].loop].wq, w);
    NotQueued(s, w);
  }

  lemma MoveAppends(s: State, l: nat)
    requires Safe(s) && Enabled(s, Move(l))
    ensures var w, t := s.loops[l].call.w, Apply(s, Move(l));
      Appends(s, t, ReadyAt(l), Item(w)) && Calm(s, t, Item(w)) && Unqueued(s, Item(w))
  {
    hide Safe, QueueAt, Items, Apply, NoRepeats, Without, Wakes;
    var w, t := s.loops[l].call.w, Apply(s, Move(l));
    SafeLoop(s, l);
    MoveIs(s, l);
    OtherQueues(s, t, l);
    ItemsAppend(s.loops[l].wq, w);
    NotQueued(s, w);
  }

  lemma PostAppends(s: State, l: nat, j: Option<nat>)
    requires Safe(s) && Enabled(s, Post(l, j))
    ensures var w, t := s.loops[l].call.w, Apply(s, Post(l, j));
      Appends(s, t, 0, Item(w)) && Calm(s, t, Item(w)) && Unqueued(s, Item(w))
  {
    hide Safe, Wakes, NoRepeats;
    SafeLoop(s, l);
    NotQueued(s, s.loops[l].call.w);
  }

  lemma ExitAppends(s: State, j: Option<nat>)
    requires Safe(s) && Enabled(s, ExitPost(j))
    ensures var t := Apply(s, ExitPost(j));
      Appends(s, t, 0, ExitMessage) && Calm(s, t, ExitMessage) && Unqueued(s, ExitMessage)
  {
    hide WorkerOk, LoopOk, PlaceOk, HistoryOk, Wakes;
    assert ExitMessage !in s.wq;
  }

  lemma TakeRemoves(s: State, i: nat)
    requires Safe(s) && Enabled(s, Take(i))
    ensures var e, t := s.wq[0], Apply(s, Take(i));
      Removes(s, t, 0, [], e, s.wq[1..]) && Calm(s, t, e) && t.reqs[e.w].link == Self && Unqueued(t, e)
  {
    hide Safe, Wakes;
    var e, t := s.wq[0], Apply(s, Take(i));
    assert s.wq == [] + [e] + s.wq[1..] && t.wq == [] + s.wq[1..];
    SafeKept(s, Take(i));
    NotQueued(t, e.w);
  }

  lemma DoneRemoves(s: State, l: nat)
    requires Safe(s) && Enabled(s, Done(l))
    ensures var q, t := s.loops[l].local, Apply(s, Done(l));
      && Removes(s, t, TakenAt(l), [], Item(q[0]), Items(q[1..])) && Calm(s, t, Item(q[0]))
      && t.reqs[q[0]].link == Stale && Unqueued(t, Item(q[0]))
  {
    hide Safe, QueueAt, Items, Apply, Without, Wakes;
    var q, t := s.loops[l].local, Apply(s, Done(l));
    SafeKept(s, Done(l));
    ItemsHead(q);
    DoneIs(s, l);
    OtherQueues(s, t, l);
    NotQueued(t, q[0]);
  }

  lemma ItemsHead(q: seq<nat>)
    requires q != []
    ensures Items(q) == [] + [Item(q[0])] + Items(q[1..]) && Items(q[1..]) == [] + Items(q[1..])
  {
    assert [q[0]] + q[1..] == q;
    ItemsConcat([q[0]], q[1..]);
    assert Items([q[0]]) == [Item(q[0])] == [] + [Item(q[0])];
  }

  lemma ItemsConcat(p: seq<nat>, q: seq<nat>)
    ensures Items(p + q) == Items(p) + Items(q)
  {
  }

  /** QUEUE_MOVE from the loop's queue to the one on the stack. */
  predicate MovesAll(s: State, t: State, k: nat, n: nat)
  {
    && QueueCount(t) == QueueCount(s) && k < QueueCount(s) && n < QueueCount(s) && k != n
    && QueueAt(s, n) == [] && QueueAt(t, n) == QueueAt(s, k) && QueueAt(t, k) == []
    && forall m :: 0 <= m < QueueCount(s) && m != k && m != n ==> QueueAt(t, m) == QueueAt(s, m)
  }

  lemma DrainMoves(s: State, l: nat)
    requires Safe(s) && Enabled(s, DrainMove(l))
    ensures var t := Apply(s, DrainMove(l));
      MovesAll(s, t, ReadyAt(l), TakenAt(l)) && Calm(s, t, ExitMessage)
  {
    hide Safe, QueueAt, Items, Wakes, NoRepeats;
    var t := Apply(s, DrainMove(l));
    SafeLoop(s, l);
    NoItems();
    OtherQueues(s, t, l);
  }

  lemma NoItems()
    ensures Items([]) == []
  {
  }

  /** The queue a request that can be cancelled is in. */
  function HomeOf(r: Request): nat
  {
    if r.phase == Queued then 0 else if r.phase == InLoop then ReadyAt(r.loop) else TakenAt(r.loop)
  }

  /** uv__work_cancel may go ahead exactly when the request is in a queue with work left. */
  lemma CancellableQueued(s: State, l: nat)
    requires Safe(s) && Enabled(s, CancelDecide(l))
    ensures var r := s.reqs[s.loops[l].call.w];
      && !r.phase.Posting? && r.loop == l && (r.link != Self <==> InQueue(r.phase))
  {
    var w := s.loops[l].call.w;
    SafeLoop(s, l);
    assert PlaceOk(s, w) && HistoryOk(s, w);
    hide Safe, NoRepeats;
  }

  lemma WithoutAbsent<T>(q: seq<T>, x: T)
    requires x !in q
    ensures Without(q, x) == q
  {
    var j := WithoutSplits(q, x);
  }

  lemma ItemsWithout(q: seq<nat>, w: nat)
    ensures Items(Without(q, w)) == Without(Items(q), Item(w))
  {
    if q != [] && q[0] != w {
      ItemsWithout(q[1..], w);
      assert Items(q)[1..] == Items(q[1..]);
      assert Items([q[0]] + Without(q[1..], w)) == [Item(q[0])] + Items(Without(q[1..], w));
    } else if q != [] {
      assert Items(q)[1..] == Items(q[1..]);
    }
  }

  lemma AtHome(s: State, w: nat)
    requires Safe(s) && w in s.reqs && InQueue(s.reqs[w].phase)
    ensures HomeOf(s.reqs[w]) < QueueCount(s) && Item(w) in QueueAt(s, HomeOf(s.reqs[w]))
    ensures forall k :: 0 <= k < QueueCount(s) && k != HomeOf(s.reqs[w]) ==> Item(w) !in QueueAt(s, k)
  {
    assert PlaceOk(s, w);
    hide Safe;
    var r := s.reqs[w];
    if r.phase == InLoop {
      ItemIn(s.loops[r.loop].wq, w);
    } else if r.phase == InLocal {
      ItemIn(s.loops[r.loop].local, w);
    }
    forall k | 0 <= k < QueueCount(s) && k != HomeOf(r) ensures Item(w) !in QueueAt(s, k) {
      if Item(w) in QueueAt(s, k) { QueuedLinked(s, k, w); }
    }
  }

  lemma ItemIn(q: seq<nat>, w: nat)
    requires w in q
    ensures Item(w) in Items(q)
  {
    var i :| 0 <= i < |q| && q[i] == w;
    assert Items(q)[i] == Item(w);
  }

  /** Whatever the queue, it loses the request. */
  lemma DecideQueues(s: State, l: nat, k: nat)
    requires Enabled(s, CancelDecide(l)) && Cancellable(s.reqs[s.loops[l].call.w]) && k < QueueCount(s)
    requires k == 0 || k == ReadyAt(l) || k == TakenAt(l) || Item(s.loops[l].call.w) !in QueueAt(s, k)
    ensures QueueCount(Apply(s, CancelDecide(l))) == QueueCount(s)
    ensures QueueAt(Apply(s, CancelDecide(l)), k) == Without(QueueAt(s, k), Item(s.loops[l].call.w))
  {
    hide Cancellable, Without, Apply, QueueAt, Items;
    var w := s.loops[l].call.w;
    DecideIs(s, CancelDecide(l));
    OtherQueues(s, Apply(s, CancelDecide(l)), l);
    ItemsWithout(s.loops[l].wq, w);
    ItemsWithout(s.loops[l].local, w);
    if Item(w) !in QueueAt(s, k) {
      WithoutAbsent(QueueAt(s, k), Item(w));
    }
  }

  lemma DecideNeeds(s: State, l: nat)
    requires Safe(s) && Enabled(s, CancelDecide(l)) && Cancellable(s.reqs[s.loops[l].call.w])
    ensures var w := s.loops[l].call.w;
      var k := HomeOf(s.reqs[w]);
      && k < QueueCount(s) && (k == 0 || k == ReadyAt(l) || k == TakenAt(l)) && Item(w) in QueueAt(s, k)
      && forall m :: 0 <= m < QueueCount(s) && m != k ==> Item(w) !in QueueAt(s, m)
  {
    CancellableQueued(s, l);
    AtHome(s, s.loops[l].call.w);
    hide Safe, QueueAt;
  }

  lemma DecideRemoves(s: State, l: nat) returns (a: seq<Entry>, b: seq<Entry>)
    requires Safe(s) && Enabled(s, CancelDecide(l)) && Cancellable(s.reqs[s.loops[l].call.w])
    ensures var w, t := s.loops[l].call.w, Apply(s, CancelDecide(l));
      && Removes(s, t, HomeOf(s.reqs[w]), a, Item(w), b) && Calm(s, t, Item(w))
      && t.reqs[w].link == Stale && Unqueued(t, Item(w))
  {
    hide Safe, QueueAt, Without, Apply, Cancellable, HomeOf, Wakes;
    var w, t := s.loops[l].call.w, Apply(s, CancelDecide(l));
    var k, e := HomeOf(s.reqs[w]), Item(w);
    SafeKept(s, CancelDecide(l));
    DecideIs(s, CancelDecide(l));
    DecideNeeds(s, l);
    forall m | 0 <= m < QueueCount(s) ensures QueueAt(t, m) == Without(QueueAt(s, m), e) {
      DecideQueues(s, l, m);
    }
    forall m | 0 <= m < QueueCount(s) && m != k ensures QueueAt(t, m) == QueueAt(s, m) {
      WithoutAbsent(QueueAt(s, m), e);
    }
    a, b := Halves(QueueAt(s, k), e);
    NotQueued(t, w);
  }

  lemma Halves<T>(q: seq<T>, x: T) returns (a: seq<T>, b: seq<T>)
    requires x in q
    ensures q == a + [x] + b && Without(q, x) == a + b
  {
    assert q[..|q|] == q;
    var j := WithoutSplits(q, x);
    a, b := q[..j], q[j + 1..];
  }

  /** The request and the loop a step of the source has at hand. */
  predicate AtHand(s: State, a: Action, w: nat, l: nat)
    requires Enabled(s, a)
  {
    match a
    case Deliver(i) => w == s.workers[i].w && l == s.reqs[w].loop
    case Post(m, _) => l == m && w == s.loops[l].call.w
    case CancelDecide(m) => l == m && w == s.loops[l].call.w
    case MoveLock(m) => l == m && w == s.loops[l].call.w
    case Move(m) => l == m && w == s.loops[l].call.w
    case Submit(m, v) => l == m && w == v
    case _ => true
  }
}
