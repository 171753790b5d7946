/**
  The thread pool over its intrusive queues: the global queue, each loop's queue
  and the queue uv__work_done takes off it are rings of links inside requests.
  Each step of the protocol is the ring operations of the source, and what
  QUEUE_EMPTY says of a request's own link is what the protocol says of it.
 */
module PoolRings {
  import opened Options
  import opened ThreadPool
  import opened ThreadPoolSafety
  import opened PoolQueues
  import QueueRing

  type Node = QueueRing.Node

  /** Queues with no head and no member in common. */
  predicate Apart(heads: seq<Node>, lists: seq<seq<Node>>)
  {
    && |heads| == |lists|
    && (forall k, m :: 0 <= k < m < |heads| ==> heads[k] != heads[m])
    && (forall k, m :: 0 <= k < |lists| && 0 <= m < |heads| ==> heads[m] !in lists[k])
    && (forall k, m, x :: 0 <= k < |lists| && 0 <= m < |lists| && k != m && x in lists[k] ==> x !in lists[m])
  }

  ghost function Footprint(heads: seq<Node>, lists: seq<seq<Node>>): (f: set<object>)
    ensures forall h :: h in heads ==> h in f
    ensures forall k, x :: 0 <= k < |lists| && x in lists[k] ==> x in f
  {
    (set h: Node | h in heads :: h as object) + (set k, x: Node | 0 <= k < |lists| && x in lists[k] :: x as object)
  }

  ghost predicate Rings(heads: seq<Node>, lists: seq<seq<Node>>)
    reads Footprint(heads, lists)
  {
    Apart(heads, lists) && forall k :: 0 <= k < |heads| ==> QueueRing.Ring(heads[k], lists[k])
  }

  predicate InNone(q: Node, heads: seq<Node>, lists: seq<seq<Node>>)
  {
    q !in heads && forall k :: 0 <= k < |lists| ==> q !in lists[k]
  }

  twostate predicate SameNode(x: Node)
    reads x
  {
    x.next == old(x.next) && x.prev == old(x.prev)
  }

  /** A ring, given by its head and its members after it, none of whose links has changed. */
  twostate lemma RingKept(all: seq<Node>)
    requires |all| > 0 && old(QueueRing.Ring(all[0], all[1..])) && forall x :: x in all ==> SameNode(x)
    ensures QueueRing.Ring(all[0], all[1..])
  {
    var c := QueueRing.Round(all[0], all[1..]);
    forall i | 0 <= i < |all| ensures QueueRing.Joined(c, i) {
      assert c[i] == all[i] && c[i + 1] == all[if i + 1 < |all| then i + 1 else 0];
      assert c[i] in all && c[i + 1] in all;
      assert SameNode(c[i]) && SameNode(c[i + 1]);
      assert old(QueueRing.Joined(c, i));
    }
  }

  /** QUEUE_INSERT_TAIL on one of the queues. */
  method Insert(heads: seq<Node>, k: nat, q: Node, ghost lists: seq<seq<Node>>)
    requires Rings(heads, lists) && k < |heads| && InNone(q, heads, lists)
    modifies heads[k], q, lists[k]
    ensures Rings(heads, lists[k := lists[k] + [q]])
  {
    assert allocated(Footprint(heads, lists));
    QueueRing.InsertTail(heads[k], q, lists[k]);
    ghost var now := lists[k := lists[k] + [q]];
    forall m | 0 <= m < |heads| && m != k ensures QueueRing.Ring(heads[m], now[m]) {
      assert now[m] == lists[m];
      ghost var all := [heads[m]] + lists[m];
      assert all[1..] == lists[m];
      RingKept(all);
    }
  }

  /** QUEUE_REMOVE of a member of one of the queues. */
  method Remove(q: Node, ghost heads: seq<Node>, ghost k: nat, ghost a: seq<Node>, ghost b: seq<Node>,
                ghost lists: seq<seq<Node>>)
    requires Rings(heads, lists) && k < |heads| && lists[k] == a + [q] + b
    modifies heads[k], a, b
    ensures Rings(heads, lists[k := a + b]) && !QueueRing.IsEmpty(q)
  {
    assert allocated(Footprint(heads, lists));
    QueueRing.Remove(q, heads[k], a, b);
    ghost var now := lists[k := a + b];
    forall m | 0 <= m < |heads| && m != k ensures QueueRing.Ring(heads[m], now[m]) {
      assert now[m] == lists[m];
      ghost var all := [heads[m]] + lists[m];
      assert all[1..] == lists[m];
      RingKept(all);
    }
  }

  /** QUEUE_INIT on a link that is in no queue. */
  method Clear(q: Node, ghost heads: seq<Node>, ghost lists: seq<seq<Node>>)
    requires Rings(heads, lists) && InNone(q, heads, lists)
    modifies q
    ensures Rings(heads, lists) && QueueRing.IsEmpty(q)
  {
    assert allocated(Footprint(heads, lists));
    QueueRing.Init(q);
    assert QueueRing.IsEmpty(q) by { QueueRing.EmptyMeans(q, []); }
    forall m | 0 <= m < |heads| ensures QueueRing.Ring(heads[m], lists[m]) {
      ghost var all := [heads[m]] + lists[m];
      assert all[1..] == lists[m];
      RingKept(all);
    }
  }

  /** QUEUE_MOVE of one of the queues to another's head. */
  method MoveAll(heads: seq<Node>, k: nat, n: nat, ghost lists: seq<seq<Node>>)
    requires Rings(heads, lists) && k < |heads| && n < |heads| && k != n && lists[n] == []
    modifies heads[k], heads[n], lists[k]
    ensures Rings(heads, lists[k := []][n := lists[k]])
  {
    assert allocated(Footprint(heads, lists));
    QueueRing.Move(heads[k], heads[n], lists[k]);
    ghost var now := lists[k := []][n := lists[k]];
    forall m | 0 <= m < |heads| && m != k && m != n ensures QueueRing.Ring(heads[m], now[m]) {
      assert now[m] == lists[m];
      ghost var all := [heads[m]] + lists[m];
      assert all[1..] == lists[m];
      RingKept(all);
    }
  }

  /** Where the entries of a queue are linked. */
  function LinkOf(e: Entry, links: map<nat, Node>, exit: Node): (q: Node)
    ensures if e.Item? && e.w in links then q == links[e.w] else q == exit
  {
    if e.Item? && e.w in links then links[e.w] else exit
  }

  function Nodes(q: seq<Entry>, links: map<nat, Node>, exit: Node): (ns: seq<Node>)
    ensures |ns| == |q| && forall i :: 0 <= i < |q| ==> ns[i] == LinkOf(q[i], links, exit)
    ensures forall x :: x in ns ==> x == exit || x in links.Values
  {
    seq(|q|, i requires 0 <= i < |q| => LinkOf(q[i], links, exit))
  }

  function Lists(s: State, links: map<nat, Node>, exit: Node): (lists: seq<seq<Node>>)
    ensures |lists| == QueueCount(s)
    ensures forall k :: 0 <= k < QueueCount(s) ==> lists[k] == Nodes(QueueAt(s, k), links, exit)
  {
    seq(QueueCount(s), k requires 0 <= k < QueueCount(s) => Nodes(QueueAt(s, k), links, exit))
  }

  predicate Known(q: seq<Entry>, links: map<nat, Node>)
  {
    forall i :: 0 <= i < |q| && q[i].Item? ==> q[i].w in links
  }

  /** No two links are the same, and none is a head or the exit message. */
  predicate LinksApart(links: map<nat, Node>, exit: Node, heads: seq<Node>)
  {
    && (forall w, v :: w in links && v in links && w != v ==> links[w] != links[v])
    && (forall w :: w in links ==> links[w] != exit && links[w] !in heads)
    && exit !in heads
  }

  /** Different entries have different links. */
  lemma LinkInjective(d: Entry, e: Entry, links: map<nat, Node>, exit: Node, heads: seq<Node>)
    requires LinksApart(links, exit, heads) && (d.Item? ==> d.w in links) && (e.Item? ==> e.w in links)
    ensures d != e ==> LinkOf(d, links, exit) != LinkOf(e, links, exit)
    ensures LinkOf(e, links, exit) !in heads
  {
  }

  /** An entry in no queue has its link in no list. */
  lemma LinkInNone(s: State, e: Entry, links: map<nat, Node>, exit: Node, heads: seq<Node>)
    requires LinksApart(links, exit, heads) && (e.Item? ==> e.w in links) && Unqueued(s, e)
    requires forall k :: 0 <= k < QueueCount(s) ==> Known(QueueAt(s, k), links)
    ensures InNone(LinkOf(e, links, exit), heads, Lists(s, links, exit))
  {
    hide QueueAt, LinkOf;
    var q, lists := LinkOf(e, links, exit), Lists(s, links, exit);
    LinkInjective(e, e, links, exit, heads);
    forall k | 0 <= k < |lists| ensures q !in lists[k] {
      if q in lists[k] {
        var i :| 0 <= i < |lists[k]| && lists[k][i] == q;
        LinkInjective(QueueAt(s, k)[i], e, links, exit, heads);
      }
    }
  }

  lemma AllKnown(s: State, links: map<nat, Node>)
    requires Safe(s) && links.Keys == s.reqs.Keys
    ensures forall k :: 0 <= k < QueueCount(s) ==> Known(QueueAt(s, k), links)
  {
    hide Safe, QueueAt;
    forall k, i | 0 <= k < QueueCount(s) && 0 <= i < |QueueAt(s, k)| && QueueAt(s, k)[i].Item?
      ensures QueueAt(s, k)[i].w in links {
      QueuedLinked(s, k, QueueAt(s, k)[i].w);
    }
  }

  lemma NodesConcat(p: seq<Entry>, q: seq<Entry>, links: map<nat, Node>, exit: Node)
    ensures Nodes(p + q, links, exit) == Nodes(p, links, exit) + Nodes(q, links, exit)
  {
  }

  /** What QUEUE_EMPTY says of a request's own link, once it has been queued, is what the protocol says. */
  ghost predicate Told(r: Request, q: Node)
    reads q
  {
    !r.phase.Posting? ==> (r.link == Self <==> QueueRing.IsEmpty(q))
  }

  lemma ToldPosting(r: Request, q: Node)
    requires r.phase.Posting?
    ensures Told(r, q)
  {
  }

  /** A request in a queue has its link in that queue's ring. */
  lemma ToldQueued(s: State, w: nat, links: map<nat, Node>, exit: Node, heads: seq<Node>)
    requires Safe(s) && w in s.reqs && w in links && !Unqueued(s, Item(w))
    requires Rings(heads, Lists(s, links, exit))
    ensures Told(s.reqs[w], links[w])
  {
    hide Safe, QueueAt, Apart;
    var k :| 0 <= k < QueueCount(s) && Item(w) in QueueAt(s, k);
    QueuedLinked(s, k, w);
    var i :| 0 <= i < |QueueAt(s, k)| && QueueAt(s, k)[i] == Item(w);
    var lists := Lists(s, links, exit);
    assert lists[k][i] == links[w];
    RingsCount(heads, lists);
    QueueRing.EmptyMeans(heads[k], lists[k]);
  }

  lemma RingsCount(heads: seq<Node>, lists: seq<seq<Node>>)
    requires Rings(heads, lists)
    ensures |heads| == |lists|
  {
  }

  function NoMembers(n: nat): (lists: seq<seq<Node>>)
    ensures |lists| == n && forall k :: 0 <= k < n ==> lists[k] == []
  {
    seq(n, _ => [])
  }

  /** As many empty queues. */
  method NewQueues(n: nat) returns (heads: seq<Node>)
    ensures |heads| == n && (forall h :: h in heads ==> fresh(h)) && Rings(heads, NoMembers(n))
  {
    heads := [];
    while |heads| < n
      invariant |heads| <= n && (forall h :: h in heads ==> fresh(h))
      invariant forall k, m :: 0 <= k < m < |heads| ==> heads[k] != heads[m]
      invariant forall k :: 0 <= k < |heads| ==> QueueRing.Ring(heads[k], [])
    {
      var h := new QueueRing.Node();
      ghost var was := heads;
      label Before:
      QueueRing.Init(h);
      forall k | 0 <= k < |was| ensures QueueRing.Ring(was[k], []) {
        assert [was[k]][1..] == [];
        RingKept@Before([was[k]]);
      }
      heads := heads + [h];
    }
  }

  /** The pool's memory: heads, links and work pointers; `state` is what they stand for. */
  class Pool {
    const heads: seq<Node>
    const exitMessage: Node
    var links: map<nat, Node>
    var works: map<nat, Work>
    ghost var state: State

    /** init_once, and the loops' own initialisation: `s` is where the protocol starts. */
    constructor (loops: nat, ghost s: State)
      requires Initial(s) && |s.loops| == loops
      ensures Valid() && state == s && fresh(Repr())
    {
      var hs := NewQueues(1 + 2 * loops);
      heads := hs;
      exitMessage := new QueueRing.Node();
      links, works, state := map[], map[], s;
      new;
      InitiallySafe(s);
      assert Lists(s, links, exitMessage) == NoMembers(1 + 2 * loops);
    }

    ghost function Repr(): (r: set<object>)
      reads this`links
      ensures this !in r && exitMessage in r && (forall h :: h in heads ==> h in r)
      ensures forall w :: w in links ==> links[w] in r
      ensures forall q: Node :: q in links.Values ==> q in r
    {
      {exitMessage} + (set h: Node | h in heads :: h as object) + (set w | w in links :: links[w] as object)
    }

    ghost predicate Shows(s: State)
      reads this`links, Repr()
    {
      && |heads| == QueueCount(s) && links.Keys == s.reqs.Keys
      && LinksApart(links, exitMessage, heads)
      && Rings(heads, Lists(s, links, exitMessage))
      && forall w :: w in s.reqs ==> Told(s.reqs[w], links[w])
    }

    ghost predicate WorksShown(s: State)
      reads this`works
    {
      works.Keys == s.reqs.Keys && forall w :: w in s.reqs ==> works[w] == s.reqs[w].work
    }

    ghost predicate Valid()
      reads this, Repr()
    {
      Safe(state) && Shows(state) && WorksShown(state)
    }

    /** QUEUE_EMPTY and QUEUE_HEAD of one of the queues. */
    method Front(k: nat) returns (empty: bool, q: Node)
      requires Valid() && k < QueueCount(state)
      ensures empty <==> QueueAt(state, k) == []
      ensures !empty ==> q == LinkOf(QueueAt(state, k)[0], links, exitMessage)
    {
      ghost var lists := Lists(state, links, exitMessage);
      QueueRing.EmptyMeans(heads[k], lists[k]);
      empty := QueueRing.IsEmpty(heads[k]);
      q := heads[k];
      if !empty {
        q := heads[k].next;
      }
    }

    /** Links in queues are linked, and links in none that were not written to say what they said. */
    twostate lemma TellOthers(new s: State, new t: State, new e: Entry)
      requires links == old(links) && links.Keys == s.reqs.Keys
      requires forall w :: w in s.reqs ==> old(Told(s.reqs[w], links[w]))
      requires Safe(t) && Calm(s, t, e) && Rings(heads, Lists(t, links, exitMessage))
      requires forall w :: w in links && Unqueued(t, Item(w)) && Item(w) != e ==> links[w].next == old(links[w].next)
      ensures forall w :: w in t.reqs && (Item(w) == e ==> !Unqueued(t, e)) ==> Told(t.reqs[w], links[w])
    {
      hide Safe, Unqueued, Rings;
      forall w | w in t.reqs && (Item(w) == e ==> !Unqueued(t, e)) ensures Told(t.reqs[w], links[w]) {
        if Unqueued(t, Item(w)) {
          assert old(Told(s.reqs[w], links[w]));
        } else {
          ToldQueued(t, w, links, exitMessage, heads);
        }
      }
    }

    /** QUEUE_INSERT_TAIL where the protocol goes from `s` to `t` by appending to a queue. */
    method InsertEntry(k: nat, q: Node, ghost e: Entry, ghost s: State, ghost t: State)
      requires Safe(s) && Safe(t) && Shows(s) && k < |heads|
      requires (e.Item? ==> e.w in links) && q == LinkOf(e, links, exitMessage)
      requires Appends(s, t, k, e) && Calm(s, t, e) && Unqueued(s, e)
      modifies Repr()
      ensures Shows(t)
    {
      hide Safe, QueueAt, LinkOf, Known, Unqueued, Appends;
      AppendCount(s, t, k, e);
      AllKnown(s, links);
      LinkInNone(s, e, links, exitMessage, heads);
      AppendLists(s, t, k, e, links, exitMessage);
      LastQueued(s, t, k, e);
      Insert(heads, k, q, Lists(s, links, exitMessage));
      forall w | w in links && Unqueued(t, Item(w)) && Item(w) != e ensures links[w].next == old(links[w].next) {
        AppendSpares(s, t, k, e, w, links, exitMessage, heads);
      }
      TellOthers(s, t, e);
    }

    /** QUEUE_REMOVE, and perhaps QUEUE_INIT, where the protocol takes an entry out of its queue. */
    method RemoveEntry(q: Node, init: bool, ghost k: nat, ghost b: seq<Entry>, ghost e: Entry, ghost c: seq<Entry>,
                       ghost s: State, ghost t: State)
      requires Safe(s) && Safe(t) && Shows(s) && k < |heads| && e.Item? && e.w in links && q == links[e.w]
      requires Removes(s, t, k, b, e, c) && Calm(s, t, e) && Unqueued(t, e)
      requires t.reqs[e.w].link == if init then Self else Stale
      modifies Repr()
      ensures Shows(t)
    {
      hide Safe, QueueAt, LinkOf, Rings, Known;
      ghost var lists := Lists(s, links, exitMessage);
      AllKnown(t, links);
      LinkInNone(t, e, links, exitMessage, heads);
      ghost var before, after := Nodes(b, links, exitMessage), Nodes(c, links, exitMessage);
      NodesAround(b, e, c, links, exitMessage);
      Remove(q, heads, k, before, after, lists);
      assert lists[k := before + after] == Lists(t, links, exitMessage);
      if init {
        Clear(q, heads, Lists(t, links, exitMessage));
      }
      AllKnown(s, links);
      forall w | w in links && Unqueued(t, Item(w)) && Item(w) != e ensures links[w].next == old(links[w].next) {
        UnqueuedBefore(s, t, k, b, e, c, w);
        LinkInNone(s, Item(w), links, exitMessage, heads);
        LinkInjective(Item(w), e, links, exitMessage, heads);
      }
      TellOthers(s, t, e);
    }

    /** QUEUE_MOVE where the protocol moves a whole queue. */
    method MoveEntries(k: nat, n: nat, ghost s: State, ghost t: State)
      requires Safe(s) && Safe(t) && Shows(s) && k < |heads| && n < |heads|
      requires MovesAll(s, t, k, n) && Calm(s, t, ExitMessage)
      modifies Repr()
      ensures Shows(t)
    {
      hide Safe, QueueAt, LinkOf, Rings, Known;
      ghost var lists := Lists(s, links, exitMessage);
      MoveAll(heads, k, n, lists);
      assert lists[k := []][n := lists[k]] == Lists(t, links, exitMessage);
      AllKnown(s, links);
      forall w | w in links && Unqueued(t, Item(w)) ensures links[w].next == old(links[w].next) {
        UnmovedBefore(s, t, k, n, w);
        LinkInNone(s, Item(w), links, exitMessage, heads);
      }
      TellOthers(s, t, ExitMessage);
    }

    /** A step that inserts one entry at the end of one queue. */
    method Append(k: nat, q: Node, ghost e: Entry, ghost a: Action)
      requires Safe(state) && Shows(state) && Enabled(state, a) && k < |heads|
      requires (e.Item? ==> e.w in links) && q == LinkOf(e, links, exitMessage)
      requires Appends(state, Apply(state, a), k, e) && Calm(state, Apply(state, a), e) && Unqueued(state, e)
      modifies this`state, Repr()
      ensures state == Apply(old(state), a) && Safe(state) && Shows(state)
    {
      hide Safe, Enabled, Apply, Shows, Appends, Calm, Unqueued, LinkOf;
      ghost var t := Apply(state, a);
      SafeKept(state, a);
      InsertEntry(k, q, e, state, t);
      state := t;
    }

    /** A step that takes one entry out of its queue, and may mark its link as in none. */
    method TakeOut(q: Node, init: bool, ghost k: nat, ghost b: seq<Entry>, ghost e: Entry, ghost c: seq<Entry>,
                   ghost a: Action)
      requires Safe(state) && Shows(state) && Enabled(state, a) && k < |heads|
      requires e.Item? && e.w in links && q == links[e.w]
      requires var t := Apply(state, a);
        && Removes(state, t, k, b, e, c) && Calm(state, t, e) && Unqueued(t, e)
        && e.w in t.reqs && t.reqs[e.w].link == if init then Self else Stale
      modifies this`state, Repr()
      ensures state == Apply(old(state), a) && Safe(state) && Shows(state)
    {
      hide Safe, Enabled, Apply, Shows, Removes, Calm, Unqueued;
      ghost var t := Apply(state, a);
      SafeKept(state, a);
      RemoveEntry(q, init, k, b, e, c, state, t);
      state := t;
    }

    /** QUEUE_MOVE of a whole queue. */
    method MoveOver(k: nat, n: nat, ghost a: Action)
      requires Safe(state) && Shows(state) && Enabled(state, a) && k < |heads| && n < |heads|
      requires MovesAll(state, Apply(state, a), k, n) && Calm(state, Apply(state, a), ExitMessage)
      modifies this`state, Repr()
      ensures state == Apply(old(state), a) && Safe(state) && Shows(state)
    {
      hide Safe, Enabled, Apply, Shows, MovesAll, Calm;
      ghost var t := Apply(state, a);
      SafeKept(state, a);
      MoveEntries(k, n, state, t);
      state := t;
    }

    /** A step that touches no queue. */
    ghost method Rest(a: Action)
      requires Safe(state) && Shows(state) && Enabled(state, a) && Quiet(a)
      modifies this`state
      ensures state == Apply(old(state), a) && Safe(state) && Shows(state)
    {
      hide Safe, Enabled, Apply, QueueAt;
      var s, t := state, Apply(state, a);
      SafeKept(s, a);
      QuietSame(s, a);
      assert Lists(t, links, exitMessage) == Lists(s, links, exitMessage);
      forall w | w in t.reqs ensures Told(t.reqs[w], links[w]) {
        assert Told(s.reqs[w], links[w]);
      }
      state := t;
    }

    /** worker(): the entry at the front is removed, and its link marked as in no queue. */
    method TakeWork(i: nat)
      requires Valid() && Enabled(state, Take(i))
      modifies this`state, Repr()
      ensures Valid() && state == Apply(old(state), Take(i))
    {
      hide Safe, Shows, QueueAt, Apply;
      FrontEntry(state);
      ShowsSize(state);
      var empty, q := Front(0);
      TakeRemoves(state, i);
      WorksTaken(state, i);
      TakeOut(q, true, 0, [], state.wq[0], state.wq[1..], Take(i));
    }

    /** worker(): the request goes to its loop's queue with its work pointer cleared. */
    method FinishWork(i: nat, w: nat, l: nat)
      requires Valid() && Enabled(state, Deliver(i)) && w == state.workers[i].w && l == state.reqs[w].loop
      modifies this`state, this`works, Repr()
      ensures Valid() && state == Apply(old(state), Deliver(i))
    {
      hide Safe, Shows, QueueAt, Apply;
      DeliverAppends(state, i);
      DeliverIs(state, i);
      ShowsSize(state);
      works := works[w := Null];
      Append(ReadyAt(l), links[w], Item(w), Deliver(i));
    }

    /** post() of a request. */
    method PostWork(l: nat, w: nat, j: Option<nat>)
      requires Valid() && Enabled(state, Post(l, j)) && w == state.loops[l].call.w
      modifies this`state, Repr()
      ensures Valid() && state == Apply(old(state), Post(l, j))
    {
      hide Safe, Shows, QueueAt, Wakes, Apply;
      PostAppends(state, l, j);
      WorksPosted(state, l, j);
      ShowsSize(state);
      Append(0, links[w], Item(w), Post(l, j));
    }

    /** post() of the exit message. */
    method PostExit(j: Option<nat>)
      requires Valid() && Enabled(state, ExitPost(j))
      modifies this`state, Repr()
      ensures Valid() && state == Apply(old(state), ExitPost(j))
    {
      hide Safe, Shows, QueueAt, Wakes, Apply, Enabled;
      ExitAppends(state, j);
      WorksExit(state, j);
      ShowsSize(state);
      Append(0, exitMessage, ExitMessage, ExitPost(j));
    }

    /** uv__work_cancel, with both locks held: the test on the link and the work pointer, and the removal. */
    method CancelWork(l: nat, w: nat) returns (cancelled: bool)
      requires Valid() && Enabled(state, CancelDecide(l)) && w == state.loops[l].call.w
      modifies this`state, Repr()
      ensures Valid() && state == Apply(old(state), CancelDecide(l))
      ensures cancelled <==> Cancellable(old(state).reqs[w])
    {
      hide Safe, Shows, QueueAt, Apply, Without, HomeOf;
      ShowsSize(state);
      ShowsTold(state, w);
      CancellableQueued(state, l);
      WorksDecided(state, l);
      cancelled := !QueueRing.IsEmpty(links[w]) && works[w] != Null;
      if cancelled {
        ghost var b, c := DecideRemoves(state, l);
        TakeOut(links[w], false, HomeOf(state.reqs[w]), b, Item(w), c, CancelDecide(l));
      } else {
        Spare(l);
      }
    }

    /** uv__work_cancel: too late, nothing changes but the locks. */
    ghost method Spare(l: nat)
      requires Safe(state) && Shows(state) && Enabled(state, CancelDecide(l))
      requires !Cancellable(state.reqs[state.loops[l].call.w])
      modifies this`state
      ensures Safe(state) && Shows(state) && state == Apply(old(state), CancelDecide(l))
    {
      hide Safe, Apply, Without, Cancellable;
      var s, t := state, Apply(state, CancelDecide(l));
      DecideIs(s, CancelDecide(l));
      SafeKept(s, CancelDecide(l));
      OtherQueues(s, t, l);
      assert SameQueues(s, t);
      assert Lists(t, links, exitMessage) == Lists(s, links, exitMessage);
      forall v | v in t.reqs ensures Told(t.reqs[v], links[v]) {
        assert Told(s.reqs[v], links[v]);
      }
      state := t;
    }

    /** uv__work_cancel: the work pointer says that the request was cancelled. */
    method MarkCancelled(l: nat, w: nat)
      requires Valid() && Enabled(state, MoveLock(l)) && w == state.loops[l].call.w
      modifies this`state, this`works
      ensures Valid() && state == Apply(old(state), MoveLock(l))
    {
      hide Safe, Shows;
      WorksMarked(state, l);
      ShowsSize(state);
      assert allocated(Repr());
      works := works[w := Cancelled];
      Rest(MoveLock(l));
    }

    /** uv__work_cancel: the request goes to its loop's queue. */
    method MoveCancelled(l: nat, w: nat)
      requires Valid() && Enabled(state, Move(l)) && w == state.loops[l].call.w
      modifies this`state, Repr()
      ensures Valid() && state == Apply(old(state), Move(l))
    {
      hide Safe, Shows, QueueAt, Apply;
      MoveAppends(state, l);
      MoveIs(state, l);
      ShowsSize(state);
      Append(ReadyAt(l), links[w], Item(w), Move(l));
    }

    /** uv__work_done: the loop's queue is taken over as a whole. */
    method DrainLoop(l: nat)
      requires Valid() && Enabled(state, DrainMove(l))
      modifies this`state, Repr()
      ensures Valid() && state == Apply(old(state), DrainMove(l))
    {
      hide Safe, Shows, QueueAt, Apply, Enabled;
      DrainMoves(state, l);
      WorksDrained(state, l);
      ShowsSize(state);
      MoveOver(ReadyAt(l), TakenAt(l), DrainMove(l));
    }

    /** uv__work_done: the next request is taken off, and done is called on it. */
    method FinishDone(l: nat)
      requires Valid() && Enabled(state, Done(l))
      modifies this`state, Repr()
      ensures Valid() && state == Apply(old(state), Done(l))
    {
      hide Safe, Shows, QueueAt, Apply, Enabled, Items;
      LocalFront(state, l);
      ghost var q := state.loops[l].local;
      ShowsSize(state);
      var empty, link := Front(TakenAt(l));
      DoneRemoves(state, l);
      WorksDone(state, l);
      TakeOut(link, false, TakenAt(l), [], Item(q[0]), Items(q[1..]), Done(l));
    }

    /** A request that is in no queue gets a link of its own. */
    method AddLink(l: nat, w: nat, ghost s: State)
      requires Safe(s) && Shows(s) && Enabled(s, Submit(l, w))
      modifies this`links
      ensures w in links && links == old(links)[w := links[w]] && fresh(links[w]) && Shows(Apply(s, Submit(l, w)))
    {
      hide Safe, QueueAt, Apply, Enabled, Lists, Rings, LinksApart, Told;
      assert allocated(Footprint(heads, Lists(s, links, exitMessage)));
      var q := new QueueRing.Node();
      ghost var t := Apply(s, Submit(l, w));
      AllKnown(s, links);
      SubmitIs(s, l, w);
      SubmitLists(s, l, w, links, q, exitMessage);
      NewLinkApart(links, exitMessage, heads, w, q);
      links := links[w := q];
      forall v | v in t.reqs ensures Told(t.reqs[v], links[v]) {
        if v != w {
          assert old(Told(s.reqs[v], links[v]));
        } else {
          ToldPosting(t.reqs[w], q);
        }
      }
    }

    /** uv__work_submit: a request that is in no queue and has not been used before. */
    method SubmitWork(l: nat, w: nat)
      requires Valid() && Enabled(state, Submit(l, w))
      modifies this
      ensures Valid() && state == Apply(old(state), Submit(l, w)) && fresh(Repr() - old(Repr()))
    {
      hide Safe, Shows, Apply, Enabled;
      SafeKept(state, Submit(l, w));
      SubmitIs(state, l, w);
      AddLink(l, w, state);
      assert allocated(Repr());
      works := works[w := Func];
      state := Apply(state, Submit(l, w));
    }

    /** A step that touches neither queue nor work pointer. */
    ghost method Other(a: Action)
      requires Valid() && Enabled(state, a) && Quiet(a) && !a.MoveLock?
      modifies this`state
      ensures Valid() && state == Apply(old(state), a)
    {
      hide Safe, Shows;
      WorksRest(state, a);
      Rest(a);
    }

    /**
      Any step of any thread, with the ring operations of the source: the rings
      go on showing the state, and uv__work_cancel's test decides as the protocol does.
     */
    method Step(a: Action, w: nat, l: nat) returns (cancelled: bool)
      requires Valid() && Enabled(state, a) && AtHand(state, a, w, l)
      modifies this, Repr()
      ensures Valid() && state == Apply(old(state), a) && fresh(Repr() - old(Repr()))
      ensures a.CancelDecide? ==> w in old(state).reqs && (cancelled <==> Cancellable(old(state).reqs[w]))
    {
      hide Valid, Apply, Cancellable;
      cancelled := false;
      match a
      case Take(i) => TakeWork(i);
      case Deliver(i) => FinishWork(i, w, l);
      case Submit(_, _) => SubmitWork(l, w);
      case Post(_, j) => PostWork(l, w, j);
      case ExitPost(j) => PostExit(j);
      case CancelDecide(_) => cancelled := CancelWork(l, w);
      case MoveLock(_) => MarkCancelled(l, w);
      case Move(_) => MoveCancelled(l, w);
      case DrainMove(m) => DrainLoop(m);
      case Done(m) => FinishDone(m);
      case _ => Other(a);
    }

    lemma ShowsTold(s: State, w: nat)
      requires Shows(s) && w in s.reqs
      ensures w in links && Told(s.reqs[w], links[w])
    {
    }

    lemma ShowsSize(s: State)
      requires Shows(s)
      ensures |heads| == QueueCount(s) && links.Keys == s.reqs.Keys
    {
    }
  }

  lemma FrontEntry(s: State)
    ensures QueueAt(s, 0) == s.wq
  {
  }

  lemma LocalFront(s: State, l: nat)
    requires Enabled(s, Done(l))
    ensures l < |s.loops| && s.loops[l].local != [] && s.loops[l].local[0] in s.reqs
    ensures QueueAt(s, TakenAt(l)) == Items(s.loops[l].local)
  {
  }

  predicate SameWorks(s: State, t: State)
  {
    t.reqs.Keys == s.reqs.Keys && forall w :: w in s.reqs ==> t.reqs[w].work == s.reqs[w].work
  }

  lemma WorksTaken(s: State, i: nat)
    requires Enabled(s, Take(i))
    ensures SameWorks(s, Apply(s, Take(i)))
  {
  }

  lemma WorksDone(s: State, l: nat)
    requires Enabled(s, Done(l))
    ensures SameWorks(s, Apply(s, Done(l)))
  {
  }

  lemma WorksDrained(s: State, l: nat)
    requires Enabled(s, DrainMove(l))
    ensures SameWorks(s, Apply(s, DrainMove(l)))
  {
  }

  lemma WorksDecided(s: State, l: nat)
    requires Enabled(s, CancelDecide(l))
    ensures SameWorks(s, Apply(s, CancelDecide(l)))
  {
    hide Cancellable, Without;
  }

  lemma WorksPosted(s: State, l: nat, j: Option<nat>)
    requires Enabled(s, Post(l, j))
    ensures SameWorks(s, Apply(s, Post(l, j)))
  {
    hide Wakes;
  }

  lemma WorksExit(s: State, j: Option<nat>)
    requires Enabled(s, ExitPost(j))
    ensures SameWorks(s, Apply(s, ExitPost(j)))
  {
    hide Wakes;
  }

  lemma WorksMarked(s: State, l: nat)
    requires Enabled(s, MoveLock(l))
    ensures var w, t := s.loops[l].call.w, Apply(s, MoveLock(l));
      w in s.reqs && t.reqs == s.reqs[w := t.reqs[w]] && t.reqs[w].work == Cancelled
  {
  }

  lemma WorksRest(s: State, a: Action)
    requires Enabled(s, a) && Quiet(a) && !a.MoveLock?
    ensures SameWorks(s, Apply(s, a))
  {
    hide Wakes;
  }

  lemma NewLinkApart(links: map<nat, Node>, exit: Node, heads: seq<Node>, w: nat, q: Node)
    requires LinksApart(links, exit, heads) && q != exit && q !in heads && q !in links.Values
    ensures LinksApart(links[w := q], exit, heads)
  {
  }

  lemma SubmitIs(s: State, l: nat, w: nat)
    requires Enabled(s, Submit(l, w))
    ensures var t := Apply(s, Submit(l, w));
      && w !in s.reqs && QueueCount(t) == QueueCount(s)
      && t.reqs == s.reqs[w := t.reqs[w]] && t.reqs[w].phase.Posting? && t.reqs[w].work == Func
  {
  }

  lemma SubmitLists(s: State, l: nat, w: nat, links: map<nat, Node>, q: Node, exit: Node)
    requires Enabled(s, Submit(l, w)) && links.Keys == s.reqs.Keys
    requires forall k :: 0 <= k < QueueCount(s) ==> Known(QueueAt(s, k), links)
    ensures var t := Apply(s, Submit(l, w)); Lists(t, links[w := q], exit) == Lists(s, links, exit)
  {
    var t := Apply(s, Submit(l, w));
    OtherQueues(s, t, l);
    hide QueueAt, Apply;
    forall k | 0 <= k < QueueCount(s)
      ensures Nodes(QueueAt(t, k), links[w := q], exit) == Nodes(QueueAt(s, k), links, exit)
    {
      assert QueueAt(t, k) == QueueAt(s, k);
    }
  }

  lemma NodesAround(b: seq<Entry>, e: Entry, c: seq<Entry>, links: map<nat, Node>, exit: Node)
    ensures Nodes(b + [e] + c, links, exit) == Nodes(b, links, exit) + [LinkOf(e, links, exit)] + Nodes(c, links, exit)
    ensures Nodes(b + c, links, exit) == Nodes(b, links, exit) + Nodes(c, links, exit)
  {
    NodesConcat(b + [e], c, links, exit);
    NodesConcat(b, [e], links, exit);
    NodesConcat(b, c, links, exit);
    assert Nodes([e], links, exit) == [LinkOf(e, links, exit)];
  }

  lemma UnqueuedBefore(s: State, t: State, k: nat, b: seq<Entry>, e: Entry, c: seq<Entry>, w: nat)
    requires Removes(s, t, k, b, e, c) && Unqueued(t, Item(w)) && Item(w) != e
    ensures Unqueued(s, Item(w))
  {
    hide QueueAt;
    forall m | 0 <= m < QueueCount(s) ensures Item(w) !in QueueAt(s, m) {
      assert Item(w) !in QueueAt(t, m);
    }
  }

  lemma UnmovedBefore(s: State, t: State, k: nat, n: nat, w: nat)
    requires MovesAll(s, t, k, n) && Unqueued(t, Item(w))
    ensures Unqueued(s, Item(w))
  {
    hide QueueAt;
    forall m | 0 <= m < QueueCount(s) ensures Item(w) !in QueueAt(s, m) {
      assert Item(w) !in QueueAt(t, m) && Item(w) !in QueueAt(t, n);
    }
  }

  lemma AppendLists(s: State, t: State, k: nat, e: Entry, links: map<nat, Node>, exit: Node)
    requires Appends(s, t, k, e)
    ensures var lists := Lists(s, links, exit);
      lists[k := lists[k] + [LinkOf(e, links, exit)]] == Lists(t, links, exit)
  {
    hide QueueAt, LinkOf;
    NodesConcat(QueueAt(s, k), [e], links, exit);
    assert Nodes([e], links, exit) == [LinkOf(e, links, exit)];
  }

  lemma LastQueued(s: State, t: State, k: nat, e: Entry)
    requires Appends(s, t, k, e)
    ensures !Unqueued(t, e)
  {
    hide QueueAt;
    assert QueueAt(t, k)[|QueueAt(s, k)|] == e;
  }

  lemma AppendCount(s: State, t: State, k: nat, e: Entry)
    requires Appends(s, t, k, e)
    ensures QueueCount(t) == QueueCount(s)
  {
  }

  /** The link of a request still in no queue is none of those an insertion writes to. */
  lemma AppendSpares(s: State, t: State, k: nat, e: Entry, w: nat, links: map<nat, Node>, exit: Node, heads: seq<Node>)
    requires Appends(s, t, k, e) && Unqueued(t, Item(w))
    requires LinksApart(links, exit, heads) && w in links && (e.Item? ==> e.w in links)
    requires forall m :: 0 <= m < QueueCount(s) ==> Known(QueueAt(s, m), links)
    ensures InNone(links[w], heads, Lists(s, links, exit)) && links[w] != LinkOf(e, links, exit)
  {
    hide QueueAt, LinkOf, Known;
    assert QueueAt(t, k)[|QueueAt(s, k)|] == e;
    forall m | 0 <= m < QueueCount(s) ensures Item(w) !in QueueAt(s, m) {
      assert Item(w) !in QueueAt(t, m);
    }
    LinkInNone(s, Item(w), links, exit, heads);
    LinkInjective(Item(w), e, links, exit, heads);
  }
}
