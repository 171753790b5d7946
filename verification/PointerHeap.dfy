/**
  The pointer heap of libuv (src/heap-inl.h): a complete binary tree of nodes
  that carry their own links.  Node number 1 is the root and node number i has
  the children 2i and 2i + 1, so the bits of a number spell the path to it.
 */
module PointerHeap {
  /** A node and what the caller compares it by, which stays fixed while it is queued. */
  class HeapNode<K(!new)> {
    const key: K
    var left: HeapNode?<K>
    var right: HeapNode?<K>
    var parent: HeapNode?<K>

    constructor (key: K)
      ensures this.key == key
    {
      this.key := key;
      left, right, parent := null, null, null;
    }
  }

  /** What a comparison has to be for a minimum to make sense: a strict weak order. */
  ghost predicate StrictWeak<K(!new)>(less: (K, K) -> bool)
  {
    && (forall a, b :: less(a, b) ==> !less(b, a))
    && (forall a, b, c :: !less(a, b) && !less(b, c) ==> !less(a, c))
  }

  predicate Distinct<K(!new)>(nodes: seq<HeapNode<K>>)
  {
    forall i, j :: 0 <= i < j < |nodes| ==> nodes[i] != nodes[j]
  }

  /** Node number `i`, or null when there is none. */
  function Slot<K(!new)>(nodes: seq<HeapNode<K>>, i: int): HeapNode?<K>
  {
    if 1 <= i <= |nodes| then nodes[i - 1] else null
  }

  lemma SlotApart<K(!new)>(nodes: seq<HeapNode<K>>, i: int, j: int)
    requires Distinct(nodes) && 1 <= i <= |nodes| && i != j
    ensures nodes[i - 1] != Slot(nodes, j)
  {
  }

  /** Node number `i` is linked to its children and its parent. */
  ghost predicate Wired<K(!new)>(nodes: seq<HeapNode<K>>, i: int)
    requires 1 <= i <= |nodes|
    reads nodes[i - 1]
  {
    var n := nodes[i - 1];
    n.left == Slot(nodes, 2 * i) && n.right == Slot(nodes, 2 * i + 1) && n.parent == Slot(nodes, i / 2)
  }

  ghost predicate Linked<K(!new)>(nodes: seq<HeapNode<K>>)
    reads nodes
  {
    forall i :: 1 <= i <= |nodes| ==> Wired(nodes, i)
  }

  /** Node number `i` is not less than its parent. */
  predicate InOrder<K(!new)>(nodes: seq<HeapNode<K>>, less: (K, K) -> bool, i: int)
    requires 1 <= i <= |nodes|
  {
    i == 1 || !less(nodes[i - 1].key, nodes[i / 2 - 1].key)
  }

  predicate Ordered<K(!new)>(nodes: seq<HeapNode<K>>, less: (K, K) -> bool)
  {
    forall i :: 1 <= i <= |nodes| ==> InOrder(nodes, less, i)
  }

  function Swapped<K(!new)>(nodes: seq<HeapNode<K>>, i: int, j: int): (r: seq<HeapNode<K>>)
    requires 1 <= i <= |nodes| && 1 <= j <= |nodes|
    ensures |r| == |nodes| && multiset(r) == multiset(nodes)
    ensures r[i - 1] == nodes[j - 1] && r[j - 1] == nodes[i - 1]
    ensures forall k :: 0 <= k < |r| && k != i - 1 && k != j - 1 ==> r[k] == nodes[k]
  {
    nodes[i - 1 := nodes[j - 1]][j - 1 := nodes[i - 1]]
  }

  lemma SwappedDistinct<K(!new)>(nodes: seq<HeapNode<K>>, i: int, j: int)
    requires 1 <= i <= |nodes| && 1 <= j <= |nodes| && Distinct(nodes)
    ensures Distinct(Swapped(nodes, i, j))
    ensures forall x :: x in Swapped(nodes, i, j) <==> x in nodes
  {
    var r := Swapped(nodes, i, j);
    assert forall x :: x in r <==> x in multiset(r);
    assert forall x :: x in nodes <==> x in multiset(nodes);
  }

  /** Where `k` more turns lead from number `i`, the turns being the low bits of `path` first. */
  function Descend(i: nat, path: nat, k: nat): nat
    decreases k
  {
    if k == 0 then i else Descend(2 * i + path % 2, path / 2, k - 1)
  }

  lemma {:induction false} DescendGrows(i: nat, path: nat, k: nat)
    requires i >= 1
    ensures Descend(i, path, k) >= i && (k > 0 ==> Descend(i, path, k) >= 2 * i)
    decreases k
  {
    if k > 0 {
      DescendGrows(2 * i + path % 2, path / 2, k - 1);
    }
  }

  /** The turns from the root to number `target`: its bits below the leading one. */
  method PathTo(target: nat) returns (path: nat, k: nat)
    requires target >= 1
    ensures Descend(1, path, k) == target
  {
    path, k := 0, 0;
    var n := target;
    while n >= 2
      invariant n >= 1 && Descend(n, path, k) == target
    {
      assert n == 2 * (n / 2) + n % 2;
      path, k, n := 2 * path + n % 2, k + 1, n / 2;
    }
  }

  /** A place that holds a node pointer: the heap's own, or a child link. */
  datatype Link<K(!new)> = Top | LeftOf(node: HeapNode<K>) | RightOf(node: HeapNode<K>)

  /** The link that leads to node number `i`. */
  function LinkTo<K(!new)>(nodes: seq<HeapNode<K>>, i: int): Link<K>
    requires 1 <= i <= 2 * |nodes| + 1
  {
    if i == 1 then Top
    else if i % 2 == 0 then LeftOf(nodes[i / 2 - 1])
    else RightOf(nodes[i / 2 - 1])
  }

  /** The links of a parent, a child and their neighbours are those of a tree. */
  ghost predicate Adjacent<K(!new)>(parent: HeapNode<K>, child: HeapNode<K>)
    reads parent, child, parent.parent
  {
    var l, r, u := parent.left, parent.right, parent.parent;
    && child.parent == parent && (l == child || r == child) && l != r
    && child !in [child.left, child.right, u] && parent !in [child.left, child.right, l, r, u]
    && (child.left == null || child.left !in [l, r, u])
    && (child.right == null || child.right !in [l, r, u])
    && (u == null || (u !in [l, r] && u.left != u.right && (parent == u.left || parent == u.right)))
  }

  /** What heap_node_swap does to the two nodes and their neighbours, and to no others. */
  twostate predicate Turned<K(!new)>(parent: HeapNode<K>, child: HeapNode<K>)
    reads parent, child, parent.left, parent.right, child.left, child.right, child.parent
  {
    && parent.left == old(child.left) && parent.right == old(child.right) && parent.parent == child
    && child.left == (if old(parent.left) == child then parent else old(parent.left))
    && child.right == (if old(parent.right) == child then parent else old(parent.right))
    && child.parent == old(parent.parent)
    && Adopted(parent.left, parent) && Adopted(parent.right, parent)
    && (child.left != parent ==> Adopted(child.left, child))
    && (child.right != parent ==> Adopted(child.right, child))
    && var u := child.parent;
       u != null ==>
         && u.parent == old(u.parent)
         && u.left == (if old(u.left) == parent then child else old(u.left))
         && u.right == (if old(u.left) == parent then old(u.right) else child)
  }

  twostate predicate Adopted<K(!new)>(x: HeapNode?<K>, new parent: HeapNode<K>)
    reads x
  {
    x != null ==> x.parent == parent && x.left == old(x.left) && x.right == old(x.right)
  }

  twostate predicate Elsewhere<K(!new)>(was: seq<HeapNode<K>>, parent: HeapNode<K>, child: HeapNode<K>)
    reads was
  {
    forall j :: 1 <= j <= |was| ==> Untouched(was, parent, child, j)
  }

  twostate predicate Untouched<K(!new)>(was: seq<HeapNode<K>>, parent: HeapNode<K>, child: HeapNode<K>, i: int)
    requires 1 <= i <= |was|
    reads was[i - 1]
  {
    var x := was[i - 1];
    (x == parent || x == child || x in [old(parent.left), old(parent.right), old(child.left), old(child.right), old(parent.parent)]) ||
    (x.left == old(x.left) && x.right == old(x.right) && x.parent == old(x.parent))
  }

  twostate lemma RewiredAt<K(!new)>(was: seq<HeapNode<K>>, new c: int, new j: int)
    requires Distinct(was) && 2 <= c <= |was| && 1 <= j <= |was|
    requires old(Linked(was))
    requires Turned(was[c / 2 - 1], was[c - 1])
    requires Untouched(was, was[c / 2 - 1], was[c - 1], j)
    ensures Wired(Swapped(was, c, c / 2), j)
  {
    var p := c / 2;
    var parent, child := was[p - 1], was[c - 1];
    assert old(Wired(was, c)) && old(Wired(was, p)) && old(Wired(was, j));
    if j == p / 2 {
      RewiredAbove(was, c);
    } else if j == c || j == p {
      RewiredPair(was, c, j);
    } else if j / 2 == p {
    } else if j / 2 == c {
    } else {
    }
  }

  twostate lemma RewiredPair<K(!new)>(was: seq<HeapNode<K>>, new c: int, new j: int)
    requires Distinct(was) && 2 <= c <= |was| && (j == c || j == c / 2)
    requires old(Linked(was))
    requires Turned(was[c / 2 - 1], was[c - 1])
    ensures Wired(Swapped(was, c, c / 2), j)
  {
    var p := c / 2;
    assert old(Wired(was, c)) && old(Wired(was, p));
  }

  twostate lemma RewiredAbove<K(!new)>(was: seq<HeapNode<K>>, new c: int)
    requires Distinct(was) && 4 <= c <= |was|
    requires old(Linked(was))
    requires Turned(was[c / 2 - 1], was[c - 1])
    ensures Wired(Swapped(was, c, c / 2), c / 2 / 2)
  {
    var p := c / 2;
    assert old(Wired(was, c)) && old(Wired(was, p)) && old(Wired(was, p / 2));
  }

  twostate lemma Rewired<K(!new)>(was: seq<HeapNode<K>>, new c: int)
    requires Distinct(was) && 2 <= c <= |was|
    requires old(Linked(was))
    requires Turned(was[c / 2 - 1], was[c - 1])
    requires Elsewhere(was, was[c / 2 - 1], was[c - 1])
    ensures Linked(Swapped(was, c, c / 2))
  {
    forall j | 1 <= j <= |was| ensures Wired(Swapped(was, c, c / 2), j) {
      RewiredAt(was, c, j);
    }
  }

  /** What the first half of heap_remove does to the new node and its neighbours. */
  twostate predicate Spliced<K(!new)>(node: HeapNode<K>, new child: HeapNode<K>)
    reads child, node, node.left, node.right, node.parent
  {
    && node.left == old(node.left) && node.right == old(node.right) && node.parent == old(node.parent)
    && child.left == node.left && child.right == node.right && child.parent == node.parent
    && Adopted(node.left, child) && Adopted(node.right, child)
    && var u := node.parent;
       u != null ==>
         && u.parent == old(u.parent)
         && u.left == (if old(u.left) == node then child else old(u.left))
         && u.right == (if old(u.left) == node then old(u.right) else child)
  }

  twostate predicate Spared<K(!new)>(was: seq<HeapNode<K>>, node: HeapNode<K>, new i: int)
    requires 1 <= i <= |was|
    reads node, was[i - 1]
  {
    var x := was[i - 1];
    x in [old(node.left), old(node.right), old(node.parent)] ||
    (x.left == old(x.left) && x.right == old(x.right) && x.parent == old(x.parent))
  }

  twostate predicate AllSpared<K(!new)>(was: seq<HeapNode<K>>, node: HeapNode<K>)
    reads was, node
  {
    forall j :: 1 <= j <= |was| ==> Spared(was, node, j)
  }

  twostate lemma ReplacedAt<K(!new)>(was: seq<HeapNode<K>>, new child: HeapNode<K>, new r: int, new j: int)
    requires Distinct(was) && 1 <= r <= |was| && 1 <= j <= |was|
    requires old(Linked(was)) && child !in was
    requires Spliced(was[r - 1], child) && Spared(was, was[r - 1], j)
    ensures Wired(was[r - 1 := child], j)
  {
    assert old(Wired(was, r)) && old(Wired(was, j));
    if j == r {
    } else if j == r / 2 {
    } else if j / 2 == r {
    } else {
    }
  }

  twostate lemma ReplacedLinks<K(!new)>(was: seq<HeapNode<K>>, new child: HeapNode<K>, new r: int)
    requires Distinct(was) && 1 <= r <= |was|
    requires old(Linked(was)) && child !in was
    requires Spliced(was[r - 1], child)
    requires AllSpared(was, was[r - 1])
    ensures Linked(was[r - 1 := child])
  {
    var nodes := was[r - 1 := child];
    forall j | 1 <= j <= |nodes| ensures Wired(nodes, j) {
      ReplacedAt(was, child, r, j);
    }
  }

  /** Ordered but perhaps for node `j` against its parent; its children do not mind the parent. */
  predicate OrderedBut<K(!new)>(nodes: seq<HeapNode<K>>, less: (K, K) -> bool, j: int)
  {
    && 1 <= j <= |nodes|
    && (forall i :: 1 <= i <= |nodes| && i != j ==> InOrder(nodes, less, i))
    && (forall i :: 1 <= i <= |nodes| ==> Skips(nodes, less, i, j))
  }

  /** Ordered but perhaps for node `j` against its parent and its children. */
  predicate OrderedAround<K(!new)>(nodes: seq<HeapNode<K>>, less: (K, K) -> bool, j: int)
  {
    && 1 <= j <= |nodes|
    && (forall i :: 1 <= i <= |nodes| && i != j && i / 2 != j ==> InOrder(nodes, less, i))
    && (forall i :: 1 <= i <= |nodes| ==> Skips(nodes, less, i, j))
  }

  /** If `i` is a child of `j`, it is not less than the parent of `j`. */
  predicate Skips<K(!new)>(nodes: seq<HeapNode<K>>, less: (K, K) -> bool, i: int, j: int)
    requires 1 <= i <= |nodes| && 1 <= j <= |nodes|
  {
    i / 2 == j && j >= 2 ==> !less(nodes[i - 1].key, nodes[j / 2 - 1].key)
  }

  lemma UpSwap<K(!new)>(nodes: seq<HeapNode<K>>, less: (K, K) -> bool, j: int)
    requires StrictWeak(less) && OrderedBut(nodes, less, j) && j >= 2 && less(nodes[j - 1].key, nodes[j / 2 - 1].key)
    ensures OrderedBut(Swapped(nodes, j, j / 2), less, j / 2)
  {
    var p, r := j / 2, Swapped(nodes, j, j / 2);
    forall i | 1 <= i <= |r| && i != p ensures InOrder(r, less, i) {
      assert InOrder(nodes, less, p) && Skips(nodes, less, i, j);
      assert i != j ==> InOrder(nodes, less, i);
    }
    forall i | 1 <= i <= |r| ensures Skips(r, less, i, p) {
      assert InOrder(nodes, less, p);
      assert i != j ==> InOrder(nodes, less, i);
    }
  }

  lemma UpDone<K(!new)>(nodes: seq<HeapNode<K>>, less: (K, K) -> bool, j: int)
    requires OrderedBut(nodes, less, j) && (j >= 2 ==> !less(nodes[j - 1].key, nodes[j / 2 - 1].key))
    ensures Ordered(nodes, less)
  {
    assert InOrder(nodes, less, j);
  }

  lemma DownSwap<K(!new)>(nodes: seq<HeapNode<K>>, less: (K, K) -> bool, j: int, s: int)
    requires StrictWeak(less) && OrderedAround(nodes, less, j) && s <= |nodes| && (s == 2 * j || s == 2 * j + 1)
    requires less(nodes[s - 1].key, nodes[j - 1].key)
    requires forall i :: 1 <= i <= |nodes| && i / 2 == j ==> !less(nodes[i - 1].key, nodes[s - 1].key)
    ensures OrderedAround(Swapped(nodes, s, j), less, s)
  {
    var r := Swapped(nodes, s, j);
    forall i | 1 <= i <= |r| && i != s && i / 2 != s ensures InOrder(r, less, i) {
      assert Skips(nodes, less, s, j);
      assert i != j && i / 2 != j ==> InOrder(nodes, less, i);
    }
    forall i | 1 <= i <= |r| ensures Skips(r, less, i, s) {
      assert i / 2 == s ==> InOrder(nodes, less, i);
    }
  }

  /** A node put in place of another disturbs only its own neighbourhood. */
  lemma ReplacedAround<K(!new)>(nodes: seq<HeapNode<K>>, less: (K, K) -> bool, r: int, x: HeapNode<K>)
    requires StrictWeak(less) && Ordered(nodes, less) && 1 <= r <= |nodes|
    ensures OrderedAround(nodes[r - 1 := x], less, r)
  {
    var t := nodes[r - 1 := x];
    forall i | 1 <= i <= |t| && i != r && i / 2 != r ensures InOrder(t, less, i) {
      assert InOrder(nodes, less, i);
    }
    forall i | 1 <= i <= |t| ensures Skips(t, less, i, r) {
      assert InOrder(nodes, less, i) && InOrder(nodes, less, r);
    }
  }

  lemma DownDone<K(!new)>(nodes: seq<HeapNode<K>>, less: (K, K) -> bool, j: int, s: int)
    requires OrderedAround(nodes, less, j) && 1 <= s <= |nodes| && nodes[s - 1] == nodes[j - 1]
    requires forall i :: 1 <= i <= |nodes| && i / 2 == j ==> !less(nodes[i - 1].key, nodes[s - 1].key)
    ensures OrderedBut(nodes, less, j)
  {
  }

  lemma ReplacedDistinct<K(!new)>(nodes: seq<HeapNode<K>>, x: HeapNode<K>, r: int)
    requires Distinct(nodes) && 1 <= r <= |nodes| && x !in nodes
    ensures Distinct(nodes[r - 1 := x])
  {
  }

  /** Without its last node a heap is still ordered. */
  lemma InitOrdered<K(!new)>(nodes: seq<HeapNode<K>>, less: (K, K) -> bool)
    requires Ordered(nodes, less) && nodes != []
    ensures Ordered(nodes[..|nodes| - 1], less)
  {
    var t := nodes[..|nodes| - 1];
    forall i | 1 <= i <= |t| ensures InOrder(t, less, i) {
      assert InOrder(nodes, less, i);
    }
  }

  /** The last node in the place of another, or dropped, leaves the rest. */
  lemma Dropped<K(!new)>(nodes: seq<HeapNode<K>>, node: HeapNode<K>, r: int)
    requires Distinct(nodes) && 0 <= r < |nodes| && nodes[r] == node
    ensures var init, last := nodes[..|nodes| - 1], nodes[|nodes| - 1];
      && (r == |nodes| - 1 ==> node !in init && multiset(init) == multiset(nodes) - multiset{node})
      && (r < |nodes| - 1 ==>
            node != last && node !in init[r := last] && multiset(init[r := last]) == multiset(nodes) - multiset{node})
  {
    assert nodes == nodes[..|nodes| - 1] + [nodes[|nodes| - 1]];
  }

  /** A node put last disturbs only itself. */
  lemma AppendedBut<K(!new)>(nodes: seq<HeapNode<K>>, less: (K, K) -> bool, x: HeapNode<K>)
    requires Ordered(nodes, less)
    ensures OrderedBut(nodes + [x], less, |nodes| + 1)
  {
    var t := nodes + [x];
    forall i | 1 <= i <= |nodes| ensures InOrder(t, less, i) {
      assert InOrder(nodes, less, i);
    }
  }

  /** The root is least. */
  lemma {:induction false} RootLeast<K(!new)>(nodes: seq<HeapNode<K>>, less: (K, K) -> bool, i: int)
    requires StrictWeak(less) && Ordered(nodes, less) && 1 <= i <= |nodes|
    ensures !less(nodes[i - 1].key, nodes[0].key)
    decreases i
  {
    if i > 1 {
      assert InOrder(nodes, less, i);
      RootLeast(nodes, less, i / 2);
    }
  }

  /** The node reached from `n` by following links. */
  ghost function Walk<K(!new)>(nodes: seq<HeapNode<K>>, n: HeapNode?<K>, path: nat, k: nat): HeapNode?<K>
    reads nodes
    decreases k
  {
    if k == 0 || n == null || n !in nodes then n
    else Walk(nodes, if path % 2 == 1 then n.right else n.left, path / 2, k - 1)
  }

  /** Following the bits of a number from the root reaches the node of that number. */
  lemma {:induction false} WalkReaches<K(!new)>(nodes: seq<HeapNode<K>>, m: nat, path: nat, k: nat)
    requires Linked(nodes) && m >= 1
    ensures Walk(nodes, Slot(nodes, m), path, k) == Slot(nodes, Descend(m, path, k))
    decreases k
  {
    if k > 0 {
      DescendGrows(m, path, k);
      if m <= |nodes| {
        assert Wired(nodes, m);
        WalkReaches(nodes, 2 * m + path % 2, path / 2, k - 1);
      }
    }
  }

  class Heap<K(!new)> {
    var min: HeapNode?<K>
    var nelts: nat
    /** Node number i is nodes[i - 1]. */
    ghost var nodes: seq<HeapNode<K>>

    /** The tree is complete, its links agree, and it holds each of `nodes` once. */
    ghost predicate Shaped()
      reads this, nodes
    {
      nelts == |nodes| && Distinct(nodes) && min == Slot(nodes, 1) && Linked(nodes)
    }

    ghost predicate Valid(less: (K, K) -> bool)
      reads this, nodes
    {
      Shaped() && Ordered(nodes, less)
    }

    ghost function Members(): set<HeapNode<K>>
      reads this
    {
      set x | x in nodes
    }

    /** heap_init */
    constructor ()
      ensures min == null && nodes == [] && Shaped()
    {
      min, nelts, nodes := null, 0, [];
    }

    /** The first half of heap_node_swap: the two nodes exchange their links. */
    method Exchange(parent: HeapNode<K>, child: HeapNode<K>) returns (sibling: HeapNode?<K>)
      requires Adjacent(parent, child)
      modifies parent, child
      ensures parent.left == old(child.left) && parent.right == old(child.right) && parent.parent == child
      ensures child.left == if old(parent.left) == child then parent else old(parent.left)
      ensures child.right == if old(parent.right) == child then parent else old(parent.right)
      ensures child.parent == old(parent.parent)
      ensures sibling == if old(parent.left) == child then old(parent.right) else old(parent.left)
    {
      var l, r, u := parent.left, parent.right, parent.parent;
      parent.left, parent.right, parent.parent := child.left, child.right, child.parent;
      child.left, child.right, child.parent := l, r, u;
      parent.parent := child;
      if child.left == child {
        child.left := parent;
        sibling := child.right;
      } else {
        child.right := parent;
        sibling := child.left;
      }
    }

    /** The second half: the neighbours learn of it. */
    method Rehang(parent: HeapNode<K>, child: HeapNode<K>, sibling: HeapNode?<K>)
      requires parent != child && sibling !in [parent, child]
      requires parent.left !in [parent, child] && parent.right !in [parent, child] && child.parent !in [parent, child]
      requires sibling == null || (sibling != parent.left && sibling != parent.right && sibling != child.parent)
      requires child.parent != null ==>
        && child.parent !in [parent.left, parent.right]
        && child.parent.left != child.parent.right
        && (parent == child.parent.left || parent == child.parent.right)
      modifies this`min, sibling, parent.left, parent.right, child.parent
      ensures min == if child.parent == null then child else old(min)
      ensures sibling != null ==>
        sibling.parent == child && sibling.left == old(sibling.left) && sibling.right == old(sibling.right)
      ensures forall x :: (x == parent.left || x == parent.right) && x != null ==>
        x.parent == parent && x.left == old(x.left) && x.right == old(x.right)
      ensures var u := child.parent; u != null ==>
        && u.parent == old(u.parent)
        && u.left == (if old(u.left) == parent then child else old(u.left))
        && u.right == (if old(u.left) == parent then old(u.right) else child)
    {
      if sibling != null { sibling.parent := child; }
      if parent.left != null { parent.left.parent := parent; }
      if parent.right != null { parent.right.parent := parent; }
      if child.parent == null {
        min := child;
      } else if child.parent.left == parent {
        child.parent.left := child;
      } else {
        child.parent.right := child;
      }
    }

    method Relink(parent: HeapNode<K>, child: HeapNode<K>)
      requires Adjacent(parent, child)
      modifies this`min, parent, child, child.left, child.right, parent.left, parent.right, parent.parent
      ensures Turned(parent, child)
      ensures min == if child.parent == null then child else old(min)
    {
      var sibling := Exchange(parent, child);
      Rehang(parent, child, sibling);
    }

    /** Tree neighbours, read off the numbering. */
    lemma Neighbours(c: int)
      requires Shaped() && 2 <= c <= |nodes|
      ensures Adjacent(nodes[c / 2 - 1], nodes[c - 1])
    {
      var p := c / 2;
      assert Wired(nodes, c) && Wired(nodes, p);
      if p >= 2 { assert Wired(nodes, p / 2); }
    }

    /** heap_node_swap: the child, node number `c`, changes places with its parent. */
    method Swap(parent: HeapNode<K>, child: HeapNode<K>, ghost c: int)
      requires Shaped() && 2 <= c <= |nodes| && child == nodes[c - 1] && parent == nodes[c / 2 - 1]
      modifies this, Members()
      ensures Shaped() && nelts == old(nelts)
      ensures nodes == Swapped(old(nodes), c, c / 2)
      ensures Members() == old(Members())
    {
      SwappedDistinct(nodes, c, c / 2);
      SwapLinks(parent, child, c);
      nodes := Swapped(nodes, c, c / 2);
    }

    /** The links, as if the two had changed numbers. */
    method SwapLinks(parent: HeapNode<K>, child: HeapNode<K>, ghost c: int)
      requires Shaped() && 2 <= c <= |nodes| && child == nodes[c - 1] && parent == nodes[c / 2 - 1]
      modifies this`min, Members()
      ensures nodes == old(nodes) && Linked(Swapped(nodes, c, c / 2)) && min == Slot(Swapped(nodes, c, c / 2), 1)
    {
      ghost var was, p := nodes, c / 2;
      Neighbours(c);
      assert Wired(was, c) && Wired(was, p);
      if p >= 2 { assert Wired(was, p / 2); }
      Relink(parent, child);
      Rewired(was, c);
    }

    /** What a link leads to. */
    function Target(link: Link<K>): HeapNode?<K>
      reads this, if link.Top? then {} else {link.node}
    {
      match link
      case Top => min
      case LeftOf(n) => n.left
      case RightOf(n) => n.right
    }

    method Store(link: Link<K>, n: HeapNode?<K>)
      modifies if link.Top? then {this as object} else {link.node}
      ensures Target(link) == n
      ensures link.Top? ==> nelts == old(nelts) && nodes == old(nodes)
      ensures link.LeftOf? ==> link.node.right == old(link.node.right) && link.node.parent == old(link.node.parent)
      ensures link.RightOf? ==> link.node.left == old(link.node.left) && link.node.parent == old(link.node.parent)
    {
      match link
      case Top => min := n;
      case LeftOf(p) => p.left := n;
      case RightOf(p) => p.right := n;
    }

    lemma LinkTarget(i: int)
      requires Shaped() && 1 <= i <= 2 * nelts + 1
      ensures Target(LinkTo(nodes, i)) == Slot(nodes, i)
    {
      if i > 1 { assert Wired(nodes, i / 2); }
    }

    /** The walk both operations begin with: from the root to node `target`, present or next to come. */
    method Find(target: nat) returns (parent: Link<K>, child: Link<K>)
      requires Shaped() && 1 <= target <= nelts + 1
      ensures child == LinkTo(nodes, target)
      ensures parent == if target == 1 then Top else LinkTo(nodes, target / 2)
    {
      var path, k := PathTo(target);
      parent, child := Top, Top;
      ghost var m: nat := 1;
      while k > 0
        invariant 1 <= m <= target && Descend(m, path, k) == target
        invariant child == LinkTo(nodes, m)
        invariant parent == if m == 1 then Top else LinkTo(nodes, m / 2)
      {
        DescendGrows(m, path, k);
        LinkTarget(m);
        DescendGrows(2 * m + path % 2, path / 2, k - 1);
        parent := child;
        var n := Target(child);
        child := if path % 2 == 1 then RightOf(n) else LeftOf(n);
        m := 2 * m + path % 2;
        path, k := path / 2, k - 1;
      }
    }

    /** The links of node number `j`. */
    lemma LinksOf(j: int)
      requires Shaped() && 1 <= j <= |nodes|
      ensures nodes[j - 1].parent == Slot(nodes, j / 2)
      ensures nodes[j - 1].left == Slot(nodes, 2 * j) && nodes[j - 1].right == Slot(nodes, 2 * j + 1)
    {
      assert Wired(nodes, j);
    }

    /** The first half of heap_insert: the node becomes the last one. */
    method Place(newnode: HeapNode<K>)
      requires Shaped() && newnode !in nodes
      modifies this, Members(), newnode
      ensures Shaped() && nodes == old(nodes) + [newnode]
    {
      newnode.left, newnode.right, newnode.parent := null, null, null;
      var parent, child := Find(1 + nelts);
      if nelts > 0 { LinkTarget((1 + nelts) / 2); }
      newnode.parent := Target(parent);
      Hang(newnode, child);
    }

    method Hang(newnode: HeapNode<K>, child: Link<K>)
      requires Shaped() && newnode !in nodes && child == LinkTo(nodes, nelts + 1)
      requires newnode.left == null && newnode.right == null && newnode.parent == Slot(nodes, (nelts + 1) / 2)
      modifies this, Members()
      ensures Shaped() && nodes == old(nodes) + [newnode]
    {
      ghost var was, n := nodes, nelts + 1;
      Store(child, newnode);
      nelts := nelts + 1;
      nodes := was + [newnode];
      forall i | 1 <= i <= |nodes| ensures Wired(nodes, i) {
        if i < n { assert old(Wired(was, i)); }
      }
    }

    /** The climb: while the node is less than its parent they change places. */
    method SiftUp(node: HeapNode<K>, less: (K, K) -> bool, ghost at: int)
      requires Shaped() && StrictWeak(less) && OrderedBut(nodes, less, at) && node == nodes[at - 1]
      modifies this, Members()
      ensures Valid(less) && nelts == old(nelts) && multiset(nodes) == multiset(old(nodes))
      ensures Members() == old(Members())
    {
      hide Linked, StrictWeak, InOrder, Skips, Wired;
      ghost var j := at;
      LinksOf(j);
      while node.parent != null && less(node.key, node.parent.key)
        invariant Shaped() && OrderedBut(nodes, less, j) && node == nodes[j - 1] && node.parent == Slot(nodes, j / 2)
        invariant nelts == old(nelts) && multiset(nodes) == multiset(old(nodes))
        invariant Members() == old(Members())
        decreases j
      {
        UpSwap(nodes, less, j);
        Swap(node.parent, node, j);
        j := j / 2;
        LinksOf(j);
      }
      UpDone(nodes, less, j);
    }

    /** heap_insert */
    method Insert(newnode: HeapNode<K>, less: (K, K) -> bool)
      requires Valid(less) && StrictWeak(less) && newnode !in nodes
      modifies this, Members(), newnode
      ensures Valid(less) && multiset(nodes) == multiset(old(nodes)) + multiset{newnode}
    {
      Place(newnode);
      AppendedBut(old(nodes), less, newnode);
      SiftUp(newnode, less, |nodes|);
    }

    /** Takes the last node off: the link to it becomes null. */
    method Unlink() returns (last: HeapNode<K>)
      requires Shaped() && nelts > 0
      modifies this, Members()
      ensures Shaped() && nodes == old(nodes[..|nodes| - 1]) && last == old(nodes[|nodes| - 1]) && last !in nodes
    {
      ghost var was, n := nodes, nelts;
      LinkTarget(nelts);
      var _, max := Find(nelts);
      nelts := nelts - 1;
      last := Target(max);
      Store(max, null);
      nodes := was[..n - 1];
      forall i | 1 <= i <= |nodes| ensures Wired(nodes, i) {
        assert old(Wired(was, i));
      }
    }

    /** `child` takes over the links of `node`, and its children learn of it. */
    method TakeOver(node: HeapNode<K>, child: HeapNode<K>)
      requires node != child && child !in [node.left, node.right, node.parent] && node !in [node.left, node.right, node.parent]
      requires node.parent == null || node.parent !in [node.left, node.right]
      modifies child, node.left, node.right
      ensures child.left == node.left && child.right == node.right && child.parent == node.parent
      ensures Adopted(node.left, child) && Adopted(node.right, child)
    {
      child.left, child.right, child.parent := node.left, node.right, node.parent;
      if child.left != null { child.left.parent := child; }
      if child.right != null { child.right.parent := child; }
    }

    /** The link that led to `node` leads to `child`. */
    method Rehook(node: HeapNode<K>, child: HeapNode<K>)
      requires child != node && node.parent !in [node, child]
      modifies this`min, node.parent
      ensures node.parent == null ==> min == child
      ensures node.parent != null ==>
        && min == old(min) && node.parent.parent == old(node.parent.parent)
        && node.parent.left == (if old(node.parent.left) == node then child else old(node.parent.left))
        && node.parent.right == (if old(node.parent.left) == node then old(node.parent.right) else child)
    {
      if node.parent == null {
        min := child;
      } else if node.parent.left == node {
        node.parent.left := child;
      } else {
        node.parent.right := child;
      }
    }

    /** Puts `child`, which is in no tree, in the place of `node`. */
    method Replace(node: HeapNode<K>, child: HeapNode<K>, ghost r: int)
      requires Shaped() && 1 <= r <= |nodes| && node == nodes[r - 1] && child !in nodes
      modifies this, Members(), child
      ensures Shaped() && nelts == old(nelts) && nodes == old(nodes)[r - 1 := child]
    {
      hide Distinct;
      ghost var was := nodes;
      LinksOf(r);
      if r > 1 { LinksOf(r / 2); }
      forall i | i in [r / 2, 2 * r, 2 * r + 1] ensures Slot(nodes, i) != node && Slot(nodes, i) != child {
        SlotApart(nodes, r, i);
      }
      if r > 1 {
        SlotApart(nodes, r / 2, 2 * r);
        SlotApart(nodes, r / 2, 2 * r + 1);
      }
      TakeOver(node, child);
      Rehook(node, child);
      nodes := was[r - 1 := child];
      assert Spliced(was[r - 1], child);
      ReplacedLinks(was, child, r);
      ReplacedDistinct(was, child, r);
    }

    /** The least of a node and its children, in the order the source compares them. */
    method Smallest(child: HeapNode<K>, less: (K, K) -> bool, ghost j: int) returns (smallest: HeapNode<K>, ghost s: int)
      requires Shaped() && StrictWeak(less) && 1 <= j <= |nodes| && child == nodes[j - 1]
      ensures 1 <= s <= |nodes| && smallest == nodes[s - 1] && (s == j || s == 2 * j || s == 2 * j + 1)
      ensures s != j ==> less(smallest.key, child.key)
      ensures forall i :: 1 <= i <= |nodes| && i / 2 == j ==> !less(nodes[i - 1].key, smallest.key)
    {
      LinksOf(j);
      smallest, s := child, j;
      if child.left != null && less(child.left.key, smallest.key) {
        smallest, s := child.left, 2 * j;
      }
      if child.right != null && less(child.right.key, smallest.key) {
        smallest, s := child.right, 2 * j + 1;
      }
    }

    /** The descent: while a child is less, the least child takes its place. */
    method SiftDown(node: HeapNode<K>, less: (K, K) -> bool, ghost at: int) returns (ghost j: int)
      requires Shaped() && StrictWeak(less) && OrderedAround(nodes, less, at) && node == nodes[at - 1]
      modifies this, Members()
      ensures Shaped() && OrderedBut(nodes, less, j) && node == nodes[j - 1]
      ensures nelts == old(nelts) && multiset(nodes) == multiset(old(nodes)) && Members() == old(Members())
    {
      hide Linked, StrictWeak, InOrder, Skips, Wired;
      j := at;
      while true
        invariant Shaped() && OrderedAround(nodes, less, j) && node == nodes[j - 1]
        invariant nelts == old(nelts) && multiset(nodes) == multiset(old(nodes)) && Members() == old(Members())
        decreases |nodes| - j
      {
        var smallest;
        ghost var s;
        smallest, s := Smallest(node, less, j);
        if smallest == node {
          DownDone(nodes, less, j, s);
          break;
        }
        DownSwap(nodes, less, j, s);
        Swap(node, smallest, s);
        j := s;
      }
    }

    /** The rest of heap_remove: `child` takes the place of `node` and sinks or rises from there. */
    method Fill(node: HeapNode<K>, child: HeapNode<K>, less: (K, K) -> bool, ghost r: int)
      requires Valid(less) && StrictWeak(less) && 1 <= r <= |nodes| && node == nodes[r - 1] && child !in nodes
      modifies this, Members(), child
      ensures Valid(less) && multiset(nodes) == multiset(old(nodes)[r - 1 := child])
    {
      hide Linked, StrictWeak, InOrder, Skips, Wired, OrderedAround, OrderedBut;
      ReplacedAround(nodes, less, r, child);
      Replace(node, child, r);
      ghost var j := SiftDown(child, less, r);
      SiftUp(child, less, j);
    }

    /** heap_remove; on an empty heap it does nothing. */
    method Remove(node: HeapNode?<K>, less: (K, K) -> bool)
      requires Valid(less) && StrictWeak(less) && (nelts > 0 ==> node in nodes)
      modifies this, Members()
      ensures Valid(less)
      ensures old(nelts) == 0 ==> nodes == []
      ensures old(nelts) > 0 ==> node != null && multiset(nodes) == multiset(old(nodes)) - multiset{node}
    {
      hide Linked, StrictWeak, InOrder, Skips, Wired;
      if nelts == 0 {
        return;
      }
      ghost var was := nodes;
      ghost var r :| 0 <= r < nelts && nodes[r] == node;
      InitOrdered(was, less);
      Dropped(was, node, r);
      var child := Unlink();
      // Where the source checks whether `child` was the root, Unlink has cleared the root already.
      assert child != min;
      if child != node {
        Fill(node, child, less, r + 1);
      }
    }

    /** heap_dequeue: removes a least node. */
    method Dequeue(less: (K, K) -> bool)
      requires Valid(less) && StrictWeak(less)
      modifies this, Members()
      ensures Valid(less)
      ensures old(nelts) == 0 ==> nodes == []
      ensures old(nelts) > 0 ==>
        && old(min) != null && multiset(nodes) == multiset(old(nodes)) - multiset{old(min)}
        && (forall x :: x in old(nodes) ==> !less(x.key, old(min).key))
    {
      forall x | x in nodes ensures !less(x.key, nodes[0].key) {
        var i :| 0 <= i < |nodes| && nodes[i] == x;
        RootLeast(nodes, less, i + 1);
      }
      Remove(min, less);
    }
  }
}
