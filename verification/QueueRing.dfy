/**
  The intrusive queues of libuv (src/queue.h): a head and its members in a ring
  of next and prev pointers.  Each operation is proved to change the sequence of
  members as its name says.
 */
module QueueRing {
  class Node {
    var next: Node?
    var prev: Node?

    constructor ()
    {
      next, prev := null, null;
    }
  }

  /** The ring laid out, from the head round to the head. */
  function Round(h: Node, items: seq<Node>): (c: seq<Node>)
    ensures |c| == |items| + 2 && c[0] == h && c[|items| + 1] == h
    ensures forall i :: 1 <= i <= |items| ==> c[i] == items[i - 1]
  {
    [h] + items + [h]
  }

  predicate Distinct(items: seq<Node>)
  {
    forall i, j :: 0 <= i < j < |items| ==> items[i] != items[j]
  }

  /** A stretch of distinct nodes, and what is left without it, are distinct. */
  lemma DistinctParts(a: seq<Node>, m: seq<Node>, b: seq<Node>)
    requires Distinct(a + m + b)
    ensures Distinct(a + b) && Distinct(a) && Distinct(m + b)
  {
    var all, rest, tail := a + m + b, a + b, m + b;
    assert forall i :: 0 <= i < |rest| ==> rest[i] == all[if i < |a| then i else i + |m|];
    assert forall i :: 0 <= i < |a| ==> a[i] == all[i];
    assert forall i :: 0 <= i < |tail| ==> tail[i] == all[|a| + i];
  }

  /** Step `i` of the way round. */
  ghost predicate Joined(c: seq<Node>, i: int)
    requires 0 <= i < |c| - 1
    reads c[i], c[i + 1]
  {
    c[i].next == c[i + 1] && c[i + 1].prev == c[i]
  }

  /** `h` heads the queue of `items`. */
  ghost predicate Ring(h: Node, items: seq<Node>)
    reads h, items
  {
    && h !in items && Distinct(items)
    && forall i :: 0 <= i <= |items| ==> Joined(Round(h, items), i)
  }

  lemma JoinedAt(h: Node, items: seq<Node>, i: int)
    requires Ring(h, items) && 0 <= i <= |items|
    ensures Round(h, items)[i].next == Round(h, items)[i + 1] && Round(h, items)[i + 1].prev == Round(h, items)[i]
  {
    assert Joined(Round(h, items), i);
  }

  /** QUEUE_INIT: the empty queue.  On a member that was taken out, the mark that it is in no queue. */
  method Init(h: Node)
    modifies h
    ensures Ring(h, [])
  {
    h.next := h;
    h.prev := h;
    assert Joined(Round(h, []), 0);
  }

  /** QUEUE_EMPTY */
  function IsEmpty(h: Node): bool
    reads h
  {
    h.next == h
  }

  /** QUEUE_EMPTY answers for a head; on a linked member it says no. */
  lemma EmptyMeans(h: Node, items: seq<Node>)
    requires Ring(h, items)
    ensures IsEmpty(h) <==> items == []
    ensures items != [] ==> h.next == items[0] && h.prev == items[|items| - 1]
    ensures forall q :: q in items ==> !IsEmpty(q)
  {
    JoinedAt(h, items, 0);
    JoinedAt(h, items, |items|);
    forall q | q in items ensures !IsEmpty(q) {
      var i :| 0 <= i < |items| && items[i] == q;
      JoinedAt(h, items, i + 1);
    }
  }

  /** QUEUE_INSERT_TAIL */
  method InsertTail(h: Node, q: Node, ghost items: seq<Node>)
    requires Ring(h, items) && q != h && q !in items
    modifies h, q, items
    ensures Ring(h, items + [q])
  {
    JoinedAt(h, items, |items|);
    ghost var was, now := Round(h, items), Round(h, items + [q]);
    q.next := h;
    q.prev := h.prev;
    q.prev.next := q;
    h.prev := q;
    forall i | 0 <= i <= |items + [q]| ensures Joined(now, i) {
      if i < |items| {
        assert old(Joined(was, i));
      }
    }
  }

  /** QUEUE_REMOVE: the others stay in order; the member keeps its stale links, so it does not look empty. */
  method Remove(q: Node, ghost h: Node, ghost a: seq<Node>, ghost b: seq<Node>)
    requires Ring(h, a + [q] + b)
    modifies h, a, b
    ensures Ring(h, a + b) && !IsEmpty(q)
  {
    ghost var items, k := a + [q] + b, |a|;
    DistinctParts(a, [q], b);
    ghost var was, now := Round(h, items), Round(h, a + b);
    JoinedAt(h, items, k);
    JoinedAt(h, items, k + 1);
    assert was[k + 1] == q;
    assert k > 0 ==> was[k] == a[k - 1];
    assert b != [] ==> was[k + 2] == b[0];
    assert forall i :: 0 <= i <= k ==> now[i] == was[i];
    assert forall i :: k < i <= |a + b| + 1 ==> now[i] == was[i + 1];
    q.prev.next := q.next;
    q.next.prev := q.prev;
    forall i | 0 <= i <= |a + b| ensures Joined(now, i) {
      if i < k {
        assert old(Joined(was, i));
      } else if i > k {
        assert old(Joined(was, i + 1));
      }
    }
  }

  /** QUEUE_SPLIT: from `q` on, the members go over to the head `n`. */
  method Split(h: Node, q: Node, n: Node, ghost a: seq<Node>, ghost b: seq<Node>)
    requires Ring(h, a + b) && b != [] && q == b[0] && n != h && n !in a + b
    modifies h, n, a, b
    ensures Ring(h, a) && Ring(n, b)
  {
    ghost var items, k := a + b, |a|;
    DistinctParts(a, b, []);
    assert a + b + [] == a + b && b + [] == b;
    ghost var was := Round(h, items);
    JoinedAt(h, items, k);
    JoinedAt(h, items, |items|);
    assert was[k + 1] == b[0] && was[|items|] == b[|b| - 1];
    assert k > 0 ==> was[k] == a[k - 1];
    n.prev := h.prev;
    n.prev.next := n;
    n.next := q;
    h.prev := q.prev;
    h.prev.next := h;
    q.prev := n;
    ghost var left, right := Round(h, a), Round(n, b);
    forall i | 0 <= i <= |a| ensures Joined(left, i) {
      if i < |a| {
        assert old(Joined(was, i));
      }
    }
    forall i | 0 <= i <= |b| ensures Joined(right, i) {
      if 0 < i < |b| {
        assert old(Joined(was, k + i));
      }
    }
  }

  /** QUEUE_MOVE: the whole queue goes over to the head `n`. */
  method Move(h: Node, n: Node, ghost items: seq<Node>)
    requires Ring(h, items) && n != h && n !in items
    modifies h, n, items
    ensures Ring(h, []) && Ring(n, items)
  {
    EmptyMeans(h, items);
    if IsEmpty(h) {
      Init(n);
    } else {
      assert [] + items == items;
      Split(h, h.next, n, [], items);
    }
  }
}
