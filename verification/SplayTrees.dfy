/**
  Top-down splay trees (libuv's include/tree.h): the search takes the tree apart
  along its way into a left and a right chain and puts it together around the
  node where it ends.  The left and right cases of the source are told apart by
  a side, as in the red-black trees.
 */
module SplayTrees {
  import opened Sides

  class SplayNode {
    const key: int
    var left: SplayNode?
    var right: SplayNode?

    constructor (key: int)
      ensures this.key == key && left == null && right == null
    {
      this.key := key;
      left, right := null, null;
    }
  }

  datatype Splay = Tip | Fork(left: Splay, n: SplayNode, right: Splay)

  function Branch(t: Splay, s: Side): Splay
    requires t.Fork?
  {
    if s == Left then t.left else t.right
  }

  /** The tree with `near` on side `s`. */
  function Join(s: Side, near: Splay, n: SplayNode, far: Splay): (t: Splay)
    ensures t.Fork? && t.n == n && Branch(t, s) == near && Branch(t, Other(s)) == far
  {
    if s == Left then Fork(near, n, far) else Fork(far, n, near)
  }

  function Head(t: Splay): SplayNode?
  {
    if t.Tip? then null else t.n
  }

  function Members(t: Splay): set<SplayNode>
  {
    if t.Tip? then {} else Members(t.left) + {t.n} + Members(t.right)
  }

  function Row(t: Splay): seq<SplayNode>
  {
    if t.Tip? then [] else Row(t.left) + [t.n] + Row(t.right)
  }

  predicate Once(t: Splay)
  {
    t.Fork? ==>
      && Once(t.left) && Once(t.right)
      && t.n !in Members(t.left) && t.n !in Members(t.right) && Members(t.left) !! Members(t.right)
  }

  function Next(n: SplayNode, s: Side): SplayNode?
    reads n
  {
    if s == Left then n.left else n.right
  }

  method SetNext(n: SplayNode, s: Side, x: SplayNode?)
    modifies n
    ensures Next(n, s) == x && Next(n, Other(s)) == old(Next(n, Other(s)))
  {
    if s == Left {
      n.left := x;
    } else {
      n.right := x;
    }
  }

  ghost predicate Wired(t: Splay)
    reads Members(t)
  {
    t.Fork? ==> t.n.left == Head(t.left) && t.n.right == Head(t.right) && Wired(t.left) && Wired(t.right)
  }

  /**
    A chain of cut-off pieces on side `s`: each node keeps its subtree on the
    other side, and leads on side `s` to the next one; what the last one leads
    to does not matter yet.
   */
  datatype Chain = Nil | Link(up: Chain, n: SplayNode, sub: Splay)

  function ChainMembers(c: Chain): set<SplayNode>
  {
    if c.Nil? then {} else ChainMembers(c.up) + {c.n} + Members(c.sub)
  }

  predicate ChainOnce(c: Chain)
  {
    c.Link? ==>
      && ChainOnce(c.up) && Once(c.sub) && c.n !in Members(c.sub)
      && c.n !in ChainMembers(c.up) && Members(c.sub) !! ChainMembers(c.up)
  }

  ghost predicate ChainWired(c: Chain, s: Side)
    reads ChainMembers(c)
  {
    c.Link? ==>
      && Next(c.n, Other(s)) == Head(c.sub) && Wired(c.sub)
      && (var up := c.up; up.Link? ==> assert up.n in ChainMembers(up); Next(up.n, s) == c.n)
      && ChainWired(c.up, s)
  }

  /** The node a chain starts with. */
  function First(c: Chain): SplayNode
    requires c.Link?
  {
    if c.up.Nil? then c.n else First(c.up)
  }

  /** The chain put together, with `t` at its open end. */
  function Close(c: Chain, s: Side, t: Splay): Splay
  {
    if c.Nil? then t else Close(c.up, s, Join(s, t, c.n, c.sub))
  }

  /** The chain's elements in order; the chain on side Left lies to the right of its open end. */
  function ChainRow(c: Chain, s: Side): seq<SplayNode>
  {
    if c.Nil? then []
    else if s == Left then [c.n] + Row(c.sub) + ChainRow(c.up, s)
    else ChainRow(c.up, s) + Row(c.sub) + [c.n]
  }

  lemma RowOf(t: Splay)
    requires t.Fork?
    ensures Row(t) == Row(t.left) + [t.n] + Row(t.right)
    ensures Row(Tip) == []
  {
  }

  lemma {:induction false} CloseRow(c: Chain, s: Side, t: Splay)
    ensures Row(Close(c, s, t)) == if s == Left then Row(t) + ChainRow(c, s) else ChainRow(c, s) + Row(t)
  {
    if c.Link? {
      CloseRow(c.up, s, Join(s, t, c.n, c.sub));
      RowOf(Join(s, t, c.n, c.sub));
      hide Row;
      if s == Left {
        assert Row(t) + [c.n] + Row(c.sub) + ChainRow(c.up, s) == Row(t) + ([c.n] + Row(c.sub) + ChainRow(c.up, s));
      } else {
        assert ChainRow(c.up, s) + (Row(c.sub) + [c.n] + Row(t)) == ChainRow(c.up, s) + Row(c.sub) + [c.n] + Row(t);
      }
    }
  }

  lemma JoinFacts(s: Side, near: Splay, n: SplayNode, far: Splay)
    ensures var t := Join(s, near, n, far);
      && Members(t) == Members(near) + {n} + Members(far)
      && (Once(t) <==>
            Once(near) && Once(far) && n !in Members(near) && n !in Members(far) && Members(near) !! Members(far))
      && (Wired(t) <==> Next(n, s) == Head(near) && Next(n, Other(s)) == Head(far) && Wired(near) && Wired(far))
  {
  }

  lemma Rejoined(t: Splay, s: Side)
    requires t.Fork?
    ensures t == Join(s, Branch(t, s), t.n, Branch(t, Other(s)))
  {
  }

  /** A chain whose last node leads to `t` is, with it, a linked tree. */
  lemma {:induction false} CloseWired(c: Chain, s: Side, t: Splay)
    requires ChainWired(c, s) && Wired(t) && (c.Link? ==> Next(c.n, s) == Head(t))
    requires ChainOnce(c) && Once(t) && ChainMembers(c) !! Members(t)
    ensures Wired(Close(c, s, t)) && Once(Close(c, s, t)) && Members(Close(c, s, t)) == ChainMembers(c) + Members(t)
    ensures Head(Close(c, s, t)) == if c.Link? then First(c) else Head(t)
    decreases c
  {
    if c.Link? {
      JoinFacts(s, t, c.n, c.sub);
      CloseWired(c.up, s, Join(s, t, c.n, c.sub));
    }
  }

  /** The pieces cut off so far: the chain on side Right makes the left tree, and the other way round. */
  datatype Chains = Chains(left: Chain, right: Chain)

  function Pick(c: Chains, s: Side): Chain
  {
    if s == Left then c.left else c.right
  }

  function Extend(c: Chains, s: Side, n: SplayNode, sub: Splay): Chains
  {
    if s == Left then Chains(Link(c.left, n, sub), c.right) else Chains(c.left, Link(c.right, n, sub))
  }

  /** The last node of a chain, or the box both chains start from. */
  function Last(c: Chain, box: SplayNode): SplayNode
  {
    if c.Nil? then box else c.n
  }

  function Zone(t: Splay, c: Chains): set<SplayNode>
  {
    Members(t) + ChainMembers(c.left) + ChainMembers(c.right)
  }

  predicate Disjoint(t: Splay, c: Chains, box: SplayNode)
  {
    && Once(t) && ChainOnce(c.left) && ChainOnce(c.right)
    && Members(t) !! ChainMembers(c.left) && Members(t) !! ChainMembers(c.right)
    && ChainMembers(c.left) !! ChainMembers(c.right)
    && box !in Zone(t, c)
  }

  /** The box leads to the chain's first node. */
  ghost predicate Hooked(c: Chain, s: Side, box: SplayNode)
    reads box
  {
    c.Link? ==> Next(box, s) == First(c)
  }

  /** Midway through a splay: the tree in hand and the two chains. */
  ghost predicate Cut(root: SplayNode?, t: Splay, c: Chains, box: SplayNode)
    reads Zone(t, c), box
  {
    && Disjoint(t, c, box) && root == Head(t) && Wired(t)
    && ChainWired(c.left, Left) && ChainWired(c.right, Right)
    && Hooked(c.left, Left, box) && Hooked(c.right, Right, box)
  }

  /** All elements in order. */
  function Whole(t: Splay, c: Chains): seq<SplayNode>
  {
    ChainRow(c.right, Right) + Row(t) + ChainRow(c.left, Left)
  }

  /** The tree after its child on side `s` has come up. */
  function Raised(t: Splay, s: Side): Splay
    requires t.Fork? && Branch(t, s).Fork?
  {
    var k := Branch(t, s);
    Join(s, Branch(k, s), k.n, Join(s, Branch(k, Other(s)), t.n, Branch(t, Other(s))))
  }

  lemma RaisedFacts(t: Splay, s: Side)
    requires t.Fork? && Branch(t, s).Fork?
    ensures Members(Raised(t, s)) == Members(t) && Row(Raised(t, s)) == Row(t)
    ensures Once(t) ==> Once(Raised(t, s))
  {
    var k := Branch(t, s);
    var low := Join(s, Branch(k, Other(s)), t.n, Branch(t, Other(s)));
    assert Members(Raised(t, s)) == Members(t) && (Once(t) ==> Once(Raised(t, s))) by {
      hide Members, Once;
      Rejoined(t, s);
      Rejoined(k, s);
      JoinFacts(s, k, t.n, Branch(t, Other(s)));
      JoinFacts(s, Branch(k, s), k.n, Branch(k, Other(s)));
      JoinFacts(s, Branch(k, Other(s)), t.n, Branch(t, Other(s)));
      JoinFacts(s, Branch(k, s), k.n, low);
    }
    if s == Right {
      Regroup(Row(t.left), [t.n], Row(k.left), [k.n], Row(k.right));
    } else {
      Regroup(Row(k.left), [k.n], Row(k.right), [t.n], Row(t.right));
    }
  }

  /** SPLAY_ROTATE_RIGHT and SPLAY_ROTATE_LEFT: the child `tmp` on side `s` comes up. */
  method Raise(root: SplayNode, tmp: SplayNode, s: Side, ghost t: Splay, ghost c: Chains, box: SplayNode)
    requires Cut(root, t, c, box) && t.Fork? && Branch(t, s).Fork? && tmp == Branch(t, s).n
    modifies root, tmp
    ensures Cut(tmp, Raised(t, s), c, box)
    ensures Zone(Raised(t, s), c) == Zone(t, c) && Whole(Raised(t, s), c) == Whole(t, c)
  {
    hide Members, Once, Wired, ChainWired, ChainOnce, ChainMembers, Row;
    ghost var k := Branch(t, s);
    ghost var a, b, d := Branch(k, s), Branch(k, Other(s)), Branch(t, Other(s));
    Rejoined(t, s);
    Rejoined(k, s);
    JoinFacts(s, k, t.n, d);
    JoinFacts(s, a, k.n, b);
    RaisedFacts(t, s);
    assert allocated(Members(a)) && allocated(Members(b)) && allocated(Members(d));
    assert allocated(ChainMembers(c.left)) && allocated(ChainMembers(c.right));
    SetNext(root, s, Next(tmp, Other(s)));
    SetNext(tmp, Other(s), root);
    JoinFacts(s, b, t.n, d);
    JoinFacts(s, a, k.n, Join(s, b, t.n, d));
  }

  /** SPLAY_LINKLEFT and SPLAY_LINKRIGHT: the root and its far side are cut off to the end of a chain. */
  method CutOff(root: SplayNode, last: SplayNode, s: Side, ghost t: Splay, ghost c: Chains, box: SplayNode)
    returns (next: SplayNode?)
    requires Cut(root, t, c, box) && t.Fork? && last == Last(Pick(c, s), box)
    modifies last
    ensures var c' := Extend(c, s, root, Branch(t, Other(s)));
      && Cut(next, Branch(t, s), c', box) && Last(Pick(c', s), box) == root
      && Zone(Branch(t, s), c') == Zone(t, c) && Whole(Branch(t, s), c') == Whole(t, c)
  {
    hide Members, Once, Wired, Row;
    ghost var a, d := Branch(t, s), Branch(t, Other(s));
    Rejoined(t, s);
    JoinFacts(s, a, t.n, d);
    CutRow(t, c, s);
    assert allocated(Members(a)) && allocated(Members(d)) && allocated(ChainMembers(Pick(c, s))) && allocated(ChainMembers(Pick(c, Other(s))));
    ghost var cs, co := Pick(c, s), Pick(c, Other(s));
    assert cs.Link? ==> allocated(Members(cs.sub)) && allocated(ChainMembers(cs.up));
    next := Next(root, s);
    SetNext(last, s, root);
    assert Wired(a) && Wired(d);
    assert ChainWired(co, Other(s));
    assert ChainWired(cs, s);
    assert ChainWired(Link(cs, root, d), s);
    assert Hooked(co, Other(s), box);
    assert Hooked(Link(cs, root, d), s, box);
    assert Disjoint(a, Extend(c, s, root, d), box);
  }

  lemma CutRow(t: Splay, c: Chains, s: Side)
    requires t.Fork?
    ensures Whole(Branch(t, s), Extend(c, s, t.n, Branch(t, Other(s)))) == Whole(t, c)
  {
    if s == Left {
      assert Whole(t, c) == ChainRow(c.right, Right) + Row(t.left) + ([t.n] + Row(t.right) + ChainRow(c.left, Left));
    } else {
      assert Whole(t, c) == (ChainRow(c.right, Right) + Row(t.left) + [t.n]) + Row(t.right) + ChainRow(c.left, Left);
    }
  }

  /** Strictly ascending keys, and rows all below or all above a key. */
  predicate Ascending(row: seq<SplayNode>)
  {
    forall i, j :: 0 <= i < j < |row| ==> row[i].key < row[j].key
  }

  predicate KeysBelow(row: seq<SplayNode>, key: int)
  {
    forall i :: 0 <= i < |row| ==> row[i].key < key
  }

  predicate KeysAbove(row: seq<SplayNode>, key: int)
  {
    forall i :: 0 <= i < |row| ==> key < row[i].key
  }

  lemma AscendingAround(a: seq<SplayNode>, n: SplayNode, b: seq<SplayNode>)
    requires Ascending(a + [n] + b)
    ensures KeysBelow(a, n.key) && KeysAbove(b, n.key)
  {
    var row := a + [n] + b;
    assert row[|a|] == n;
    forall i | 0 <= i < |a| ensures a[i].key < n.key {
      assert row[i] == a[i];
    }
    forall i | 0 <= i < |b| ensures n.key < b[i].key {
      assert row[|a| + 1 + i] == b[i];
    }
  }

  /** The key lies between the two chains. */
  predicate Straddles(c: Chains, key: int)
  {
    KeysBelow(ChainRow(c.right, Right), key) && KeysAbove(ChainRow(c.left, Left), key)
  }

  lemma AboveFrom(n: SplayNode, b: seq<SplayNode>, key: int)
    requires key < n.key && KeysAbove(b, n.key)
    ensures KeysAbove([n] + b, key)
  {
  }

  lemma BelowTo(n: SplayNode, a: seq<SplayNode>, key: int)
    requires n.key < key && KeysBelow(a, n.key)
    ensures KeysBelow(a + [n], key)
  {
  }

  lemma StraddlesCut(t: Splay, c: Chains, s: Side, key: int)
    requires t.Fork? && Ascending(Whole(t, c)) && Straddles(c, key)
    requires if s == Left then key < t.n.key else t.n.key < key
    ensures Straddles(Extend(c, s, t.n, Branch(t, Other(s))), key)
  {
    hide Ascending, KeysBelow, KeysAbove, Row, Whole, ChainRow;
    var a, b := ChainRow(c.right, Right) + Row(t.left), Row(t.right) + ChainRow(c.left, Left);
    WholeRow(t, c);
    AscendingAround(a, t.n, b);
    LongerChain(c.left, t.n, t.right);
    LongerChain(c.right, t.n, t.left);
    if s == Left {
      AboveFrom(t.n, b, key);
    } else {
      BelowTo(t.n, a, key);
    }
  }

  lemma LongerChain(c: Chain, n: SplayNode, sub: Splay)
    ensures ChainRow(Link(c, n, sub), Left) == [n] + (Row(sub) + ChainRow(c, Left))
    ensures ChainRow(Link(c, n, sub), Right) == ChainRow(c, Right) + Row(sub) + [n]
  {
    hide Row;
  }

  /** The search stops at the key, or where the next step would leave the tree. */
  predicate Ended(t: Splay, key: int)
  {
    t.Fork? && (key == t.n.key || (key < t.n.key && t.left.Tip?) || (t.n.key < key && t.right.Tip?))
  }

  lemma EndedBetween(t: Splay, c: Chains, key: int)
    requires Ended(t, key) && Ascending(Whole(t, c)) && Straddles(c, key)
    ensures KeysBelow(ChainRow(c.right, Right) + Row(t.left), key)
    ensures KeysAbove(Row(t.right) + ChainRow(c.left, Left), key)
  {
    var a, b := ChainRow(c.right, Right) + Row(t.left), Row(t.right) + ChainRow(c.left, Left);
    assert Whole(t, c) == a + [t.n] + b;
    AscendingAround(a, t.n, b);
    if key < t.n.key {
      assert a == ChainRow(c.right, Right);
    } else if t.n.key < key {
      assert b == ChainRow(c.left, Left);
    }
  }

  lemma BranchLinks(root: SplayNode, t: Splay, c: Chains, box: SplayNode, s: Side)
    requires Cut(root, t, c, box)
    ensures t.Fork? && t.n == root && Next(root, s) == Head(Branch(t, s))
    ensures root != box && Last(Pick(c, s), box) != root
  {
  }

  function Size(t: Splay): nat
  {
    if t.Tip? then 0 else 1 + Size(t.left) + Size(t.right)
  }

  /** The side of `n` on which the key would be. */
  function Toward(key: int, n: SplayNode): Side
  {
    if key < n.key then Left else Right
  }

  /** The search goes on from the root into its subtree on side `s`. */
  predicate GoesOn(t: Splay, key: int, s: Side)
  {
    t.Fork? && key != t.n.key && s == Toward(key, t.n) && Branch(t, s).Fork?
  }

  function Swapped(t: Splay, s: Side, near: Splay): Splay
    requires t.Fork?
  {
    Join(s, near, t.n, Branch(t, Other(s)))
  }

  /**
    The tree a splay makes: where the search would go twice the same way the
    child comes up first; then what the search makes of the subtree takes its
    place, and its root comes up.
   */
  function Splayed(t: Splay, key: int): (u: Splay)
    requires t.Fork?
    ensures u.Fork?
  {
    var s := Toward(key, t.n);
    if !GoesOn(t, key, s) then t
    else
      var k := Branch(t, s);
      if key == k.n.key || Toward(key, k.n) != s then Raised(Swapped(t, s, Splayed(k, key)), s)
      else if Branch(k, s).Tip? then Raised(t, s)
      else Raised(Swapped(Raised(t, s), s, Splayed(Branch(k, s), key)), s)
  }

  /** The nodes a search for the key meets. */
  function Met(t: Splay, key: int): nat
  {
    if t.Tip? then 0 else if key == t.n.key then 1 else 1 + Met(Branch(t, Toward(key, t.n)), key)
  }

  /** The chains closed around a tree. */
  function Closed(c: Chains, u: Splay): Splay
    requires u.Fork?
  {
    Fork(Close(c.right, Right, u.left), u.n, Close(c.left, Left, u.right))
  }

  /** Cutting off the root and closing it up again is bringing its new child up. */
  lemma ClosedStep(t: Splay, c: Chains, s: Side, u: Splay)
    requires t.Fork? && u.Fork?
    ensures Closed(c, Raised(Swapped(t, s, u), s)) == Closed(Extend(c, s, t.n, Branch(t, Other(s))), u)
  {
  }

  lemma ClosedStart(u: Splay)
    requires u.Fork?
    ensures Closed(Chains(Nil, Nil), u) == u
  {
  }

  /** The next turn of the loop goes on with a smaller splay. */
  lemma SplayedStep(t: Splay, key: int, s: Side)
    requires GoesOn(t, key, s)
    ensures var k := Branch(t, s);
      && (GoesOn(k, key, s) ==>
            Splayed(t, key) == Raised(Swapped(Raised(t, s), s, Splayed(Branch(k, s), key)), s)
            && Met(t, key) == 2 + Met(Branch(k, s), key) && Branch(Raised(t, s), s) == Branch(k, s))
      && (key != k.n.key && Toward(key, k.n) == s && Branch(k, s).Tip? ==>
            Splayed(t, key) == Raised(t, s) && Met(t, key) == 2)
      && (key == k.n.key || Toward(key, k.n) != s ==>
            Splayed(t, key) == Raised(Swapped(t, s, Splayed(k, key)), s) && Met(t, key) == 1 + Met(k, key))
  {
  }

  lemma SplayedEnd(t: Splay, key: int)
    requires Ended(t, key)
    ensures Splayed(t, key) == t && Met(t, key) == 1
  {
  }

  /** The loop of SPLAY: from the whole tree to the node where the search ends and the chains around it. */
  method Dive(root0: SplayNode, key: int, box: SplayNode, ghost t0: Splay)
    returns (root: SplayNode, l: SplayNode, r: SplayNode, ghost t: Splay, ghost c: Chains, ghost turns: nat)
    requires Cut(root0, t0, Chains(Nil, Nil), box) && Ascending(Row(t0))
    modifies Members(t0), box
    ensures Cut(root, t, c, box) && l == Last(c.right, box) && r == Last(c.left, box)
    ensures Ended(t, key) && Straddles(c, key)
    ensures Zone(t, c) == Members(t0) && Whole(t, c) == Row(t0)
    ensures Closed(c, t) == Splayed(t0, key) && turns <= Met(t0, key)
  {
    hide Members, Once, Wired, Row, ChainWired, ChainMembers, ChainOnce, Disjoint, Hooked, Ascending, KeysBelow, KeysAbove;
    hide Splayed, Met, Closed;
    root, t, c, turns := root0, t0, Chains(Nil, Nil), 0;
    l, r := box, box;
    StartOf(t0);
    ClosedStart(Splayed(t0, key));
    while key != root.key
      invariant Cut(root, t, c, box) && t.Fork? && t.n == root
      invariant r == Last(c.left, box) && l == Last(c.right, box)
      invariant Zone(t, c) == Members(t0) && Whole(t, c) == Row(t0) && Straddles(c, key)
      invariant Closed(c, Splayed(t, key)) == Splayed(t0, key) && turns + Met(t, key) <= Met(t0, key)
      decreases Size(t)
    {
      turns := turns + 1;
      var s := if key < root.key then Left else Right;
      BranchLinks(root, t, c, box, s);
      var tmp := Next(root, s);
      if tmp == null {
        break;
      }
      InZone(t, c, s, box);
      RaisedSize(t, s);
      SplayedStep(t, key, s);
      if (if s == Left then key < tmp.key else tmp.key < key) {
        Raise(root, tmp, s, t, c, box);
        root, t := tmp, Raised(t, s);
        BranchLinks(root, t, c, box, s);
        if Next(root, s) == null {
          break;
        }
      }
      InZone(t, c, s, box);
      StraddlesCut(t, c, s, key);
      ClosedStep(t, c, s, Splayed(Branch(t, s), key));
      var next := CutOff(root, if s == Left then r else l, s, t, c, box);
      c, t := Extend(c, s, root, Branch(t, Other(s))), Branch(t, s);
      if s == Left {
        r := root;
      } else {
        l := root;
      }
      root := next;
    }
    SplayedEnd(t, key);
  }

  lemma StartOf(t: Splay)
    ensures Whole(t, Chains(Nil, Nil)) == Row(t) && Zone(t, Chains(Nil, Nil)) == Members(t)
    ensures forall key :: Straddles(Chains(Nil, Nil), key)
  {
    assert [] + Row(t) + [] == Row(t);
  }

  lemma InZone(t: Splay, c: Chains, s: Side, box: SplayNode)
    requires t.Fork?
    ensures t.n in Zone(t, c) && (Branch(t, s).Fork? ==> Branch(t, s).n in Zone(t, c))
    ensures Last(Pick(c, s), box) == box || Last(Pick(c, s), box) in Zone(t, c)
  {
    assert Branch(t, s).Fork? ==> Branch(t, s).n in Members(Branch(t, s));
  }

  lemma RaisedSize(t: Splay, s: Side)
    requires t.Fork?
    ensures Size(Branch(t, s)) < Size(t)
    ensures Branch(t, s).Fork? ==> Size(Branch(Raised(t, s), s)) < Size(t)
  {
  }

  /** Closes one chain: its last node leads to the subtree `x` that was left at its open end. */
  method CloseEnd(last: SplayNode, s: Side, x: SplayNode?, box: SplayNode, ghost k: Chain, ghost t: Splay)
    requires last == Last(k, box) && x == Head(t) && Wired(t) && Once(t)
    requires ChainWired(k, s) && ChainOnce(k) && Hooked(k, s, box) && ChainMembers(k) !! Members(t)
    requires box !in ChainMembers(k) + Members(t)
    modifies last
    ensures Wired(Close(k, s, t)) && Once(Close(k, s, t)) && Members(Close(k, s, t)) == ChainMembers(k) + Members(t)
    ensures Next(box, s) == Head(Close(k, s, t)) && Next(box, Other(s)) == old(Next(box, Other(s)))
  {
    hide Members, Once, Wired;
    assert allocated(Members(t)) && allocated(ChainMembers(k));
    assert k.Link? ==> allocated(Members(k.sub)) && allocated(ChainMembers(k.up));
    SetNext(last, s, x);
    assert k.Link? ==> Wired(k.sub) && ChainWired(k.up, s);
    CloseWired(k, s, t);
  }

  /** SPLAY_ASSEMBLE: the chains become the two subtrees of the root. */
  method Assemble(root: SplayNode, l: SplayNode, r: SplayNode, box: SplayNode, ghost t: Splay, ghost c: Chains)
    returns (ghost u: Splay)
    requires Cut(root, t, c, box) && t.Fork? && l == Last(c.right, box) && r == Last(c.left, box)
    modifies root, l, r
    ensures u == Fork(Close(c.right, Right, t.left), root, Close(c.left, Left, t.right))
    ensures Wired(u) && Once(u) && Members(u) == Zone(t, c) && Row(u) == Whole(t, c)
  {
    hide Members, Once, Wired, Row, ChainWired, ChainOnce;
    ghost var a, b := Close(c.right, Right, t.left), Close(c.left, Left, t.right);
    JoinFacts(Left, t.left, t.n, t.right);
    Rejoined(t, Left);
    Ends(c, box);
    assert allocated(Members(t.left)) && allocated(Members(t.right)) && allocated(ChainMembers(c.left)) && allocated(ChainMembers(c.right));
    CloseEnd(l, Right, root.left, box, c.right, t.left);
    assert allocated(Members(a));
    CloseEnd(r, Left, root.right, box, c.left, t.right);
    assert allocated(Members(b));
    root.left := box.right;
    root.right := box.left;
    u := Fork(a, root, b);
    JoinFacts(Left, a, root, b);
    CloseRow(c.right, Right, t.left);
    CloseRow(c.left, Left, t.right);
    WholeRow(t, c);
    RowOf(u);
  }

  lemma Ends(c: Chains, box: SplayNode)
    ensures Last(c.left, box) == box || Last(c.left, box) in ChainMembers(c.left)
    ensures Last(c.right, box) == box || Last(c.right, box) in ChainMembers(c.right)
  {
  }

  lemma WholeRow(t: Splay, c: Chains)
    requires t.Fork?
    ensures Whole(t, c) == (ChainRow(c.right, Right) + Row(t.left)) + [t.n] + (Row(t.right) + ChainRow(c.left, Left))
  {
  }

  lemma StartCut(root: SplayNode?, t: Splay, box: SplayNode)
    requires root == Head(t) && Wired(t) && Once(t) && box !in Members(t)
    ensures Cut(root, t, Chains(Nil, Nil), box)
  {
  }

  lemma TopIn(t: Splay, c: Chains, box: SplayNode)
    requires t.Fork? && Disjoint(t, c, box)
    ensures t.n in Zone(t, c) && t.n != box
    ensures Last(c.left, box) == box || Last(c.left, box) in Zone(t, c)
    ensures Last(c.right, box) == box || Last(c.right, box) in Zone(t, c)
  {
  }

  lemma TipFacts()
    ensures Members(Tip) == {} && Once(Tip) && Wired(Tip) && Row(Tip) == [] && Ascending(Row(Tip))
  {
  }

  lemma {:induction false} RowMember(t: Splay, n: SplayNode)
    ensures n in Members(t) <==> n in Row(t)
  {
    if t.Fork? {
      RowMember(t.left, n);
      RowMember(t.right, n);
    }
  }

  /** Between a left side below the key and a right side above it, only the root can have it. */
  lemma RootOrNone(t: Splay, key: int)
    requires t.Fork? && KeysBelow(Row(t.left), key) && KeysAbove(Row(t.right), key)
    ensures t.n.key != key ==> forall n :: n in Members(t) ==> n.key != key
  {
    forall n | n in Members(t) && n != t.n ensures n.key != key {
      RowMember(t.left, n);
      RowMember(t.right, n);
    }
  }

  lemma AscendingInsert(a: seq<SplayNode>, n: SplayNode, b: seq<SplayNode>)
    requires Ascending(a + b) && KeysBelow(a, n.key) && KeysAbove(b, n.key)
    ensures Ascending(a + [n] + b)
  {
    var s, t := a + [n] + b, a + b;
    forall i, j | 0 <= i < j < |s| ensures s[i].key < s[j].key {
      assert i != |a| ==> s[i] == t[if i < |a| then i else i - 1];
      assert j != |a| ==> s[j] == t[if j < |a| then j else j - 1];
    }
  }

  /** The row after an insertion at the root. */
  lemma InsertedRow(t: Splay, s: Side, elm: SplayNode)
    requires t.Fork? && Ascending(Row(t))
    requires if s == Left then elm.key < t.n.key else t.n.key < elm.key
    requires KeysBelow(Row(t.left), elm.key) && KeysAbove(Row(t.right), elm.key)
    ensures Ascending(Row(Join(s, Branch(t, s), elm, Join(s, Tip, t.n, Branch(t, Other(s))))))
  {
    hide Ascending, Row, KeysBelow, KeysAbove;
    RowOf(t);
    var a, b := Row(t.left), Row(t.right);
    AscendingAround(a, t.n, b);
    if s == Left {
      var rest := Fork(Tip, t.n, t.right);
      RowOf(rest);
      RowOf(Fork(t.left, elm, rest));
      assert a + [t.n] + b == a + ([t.n] + b);
      assert [] + [t.n] + b == [t.n] + b;
      KeysAboveMore(t.n, b, elm.key);
      AscendingInsert(a, elm, [t.n] + b);
    } else {
      var rest := Fork(t.left, t.n, Tip);
      RowOf(rest);
      RowOf(Fork(rest, elm, t.right));
      assert a + [t.n] + [] == a + [t.n];
      KeysBelowMore(t.n, a, elm.key);
      AscendingInsert(a + [t.n], elm, b);
    }
  }

  lemma KeysAboveMore(n: SplayNode, b: seq<SplayNode>, key: int)
    requires key < n.key && KeysAbove(b, key)
    ensures KeysAbove([n] + b, key)
  {
  }

  lemma KeysBelowMore(n: SplayNode, a: seq<SplayNode>, key: int)
    requires n.key < key && KeysBelow(a, key)
    ensures KeysBelow(a + [n], key)
  {
  }

  /** Without the root, both sides still ascend, and all keys on the left are below the root's. */
  lemma RemovedRow(t: Splay)
    requires t.Fork? && Ascending(Row(t))
    ensures Ascending(Row(t.left)) && Ascending(Row(t.right)) && KeysBelow(Row(t.left), t.n.key)
  {
    RowOf(t);
    hide Row;
    AscendingAround(Row(t.left), t.n, Row(t.right));
    AscendingParts(Row(t.left), t.n, Row(t.right));
  }

  lemma AscendingParts(a: seq<SplayNode>, n: SplayNode, b: seq<SplayNode>)
    requires Ascending(a + [n] + b)
    ensures Ascending(a) && Ascending(b)
  {
    var row := a + [n] + b;
    forall i, j | 0 <= i < j < |a| ensures a[i].key < a[j].key {
      assert row[i] == a[i] && row[j] == a[j];
    }
    forall i, j | 0 <= i < j < |b| ensures b[i].key < b[j].key {
      assert row[|a| + 1 + i] == b[i] && row[|a| + 1 + j] == b[j];
    }
  }

  lemma NoneAbove(t: Splay, key: int)
    requires t.Fork? && KeysAbove(Row(t.right), key) && KeysBelow(Row(t), key)
    ensures t.right.Tip?
  {
    if t.right.Fork? {
      RowMember(t.right, t.right.n);
      RowMember(t, t.right.n);
    }
  }

  lemma RehungRow(u: Splay, t: Splay)
    requires u.Fork? && u.right.Tip? && t.Fork? && Row(u) == Row(t.left) && Ascending(Row(t))
    ensures Ascending(Row(Fork(u.left, u.n, t.right)))
  {
    hide Ascending;
    assert Row(u) == Row(u.left) + [u.n];
    AscendingDrop(Row(t.left), t.n, Row(t.right));
  }

  lemma AscendingDrop(a: seq<SplayNode>, n: SplayNode, b: seq<SplayNode>)
    requires Ascending(a + [n] + b)
    ensures Ascending(a + b)
  {
    var s, t := a + [n] + b, a + b;
    forall i, j | 0 <= i < j < |t| ensures t[i].key < t[j].key {
      assert t[i] == s[if i < |a| then i else i + 1];
      assert t[j] == s[if j < |a| then j else j + 1];
    }
  }

  lemma LoneNode(n: SplayNode)
    requires n.left == n.right == null
    ensures var t := Fork(Tip, n, Tip); Wired(t) && Once(t) && Ascending(Row(t)) && Members(t) == {n}
  {
  }

  lemma HeadMember(t: Splay)
    ensures t.Fork? ==> t.n in Members(t)
  {
  }

  /** What can be asked of a tree. */
  datatype Request = Seek(key: int) | Add(elm: SplayNode) | Drop(key: int)

  /** A new root on top of another, whose subtree on side `s` goes to the new one. */
  function Topped(t: Splay, s: Side, elm: SplayNode): Splay
    requires t.Fork?
  {
    Join(s, Branch(t, s), elm, Swapped(t, s, Tip))
  }

  /** The tree after a request. */
  function After(t: Splay, q: Request): Splay
  {
    match q
    case Seek(key) => if t.Tip? then Tip else Splayed(t, key)
    case Add(elm) =>
      if t.Tip? then Fork(Tip, elm, Tip)
      else
        var u := Splayed(t, elm.key);
        if elm.key == u.n.key then u else Topped(u, Toward(elm.key, u.n), elm)
    case Drop(key) =>
      if t.Tip? then Tip
      else
        var u := Splayed(t, key);
        if key != u.n.key then u
        else if u.left.Tip? then u.right
        else var v := Splayed(u.left, key); Fork(v.left, v.n, u.right)
  }

  /** The nodes its searches meet. */
  function Effort(t: Splay, q: Request): nat
  {
    match q
    case Seek(key) => Met(t, key)
    case Add(elm) => Met(t, elm.key)
    case Drop(key) => Met(t, key) + if t.Fork? && key == Splayed(t, key).n.key then Met(Splayed(t, key).left, key) else 0
  }

  class SplayTree {
    var root: SplayNode?
    ghost var shape: Splay
    /** The turns of the loop so far. */
    ghost var work: nat

    /** The links are those of the shape, no node occurs twice, and keys ascend. */
    ghost predicate Valid()
      reads this, Members(shape)
    {
      root == Head(shape) && Wired(shape) && Once(shape) && Ascending(Row(shape))
    }

    /** SPLAY_INIT */
    constructor ()
      ensures Valid() && shape == Tip && work == 0
    {
      root, shape, work := null, Tip, 0;
    }

    /**
      SPLAY: the same elements in the same order, with everything left of the
      root below the key and everything right of it above; so the root has the
      key if any element has.
     */
    method Splay(key: int)
      requires Valid() && shape.Fork?
      modifies this, Members(shape)
      ensures Valid() && shape.Fork? && Row(shape) == old(Row(shape)) && Members(shape) == old(Members(shape))
      ensures KeysBelow(Row(shape.left), key) && KeysAbove(Row(shape.right), key)
      ensures shape == Splayed(old(shape), key) && work <= old(work) + Met(old(shape), key)
    {
      hide Members, Once, Wired, Row, Ascending, KeysBelow, KeysAbove, Splayed, Met;
      assert allocated(Members(shape));
      var box := new SplayNode(0);
      ghost var t0 := shape;
      StartCut(root, t0, box);
      var top, l, r;
      ghost var t, c, turns;
      top, l, r, t, c, turns := Dive(root, key, box, t0);
      EndedBetween(t, c, key);
      TopIn(t, c, box);
      ghost var u := Assemble(top, l, r, box, t, c);
      CloseRow(c.right, Right, t.left);
      CloseRow(c.left, Left, t.right);
      assert allocated(Members(u));
      root, shape, work := top, u, work + turns;
    }

    /** SPLAY_FIND */
    method Find(key: int) returns (r: SplayNode?)
      requires Valid()
      modifies this, Members(shape)
      ensures Valid() && Row(shape) == old(Row(shape)) && Members(shape) == old(Members(shape))
      ensures r != null ==> r in Members(shape) && r.key == key
      ensures r == null ==> forall n :: n in Members(shape) ==> n.key != key
      ensures shape == After(old(shape), Seek(key)) && work <= old(work) + Effort(old(shape), Seek(key))
    {
      hide Once, Wired, Ascending, Splayed, Met;
      if root == null {
        return null;
      }
      Splay(key);
      RootOrNone(shape, key);
      r := if key == root.key then root else null;
    }

    /** SPLAY_INSERT: adds the node unless its key is there. */
    method Insert(elm: SplayNode) returns (r: SplayNode?)
      requires Valid() && elm !in Members(shape)
      modifies this, Members(shape), elm
      ensures Valid()
      ensures r == null <==> forall n :: n in old(Members(shape)) ==> n.key != elm.key
      ensures r == null ==> Members(shape) == old(Members(shape)) + {elm} && root == elm
      ensures r != null ==> r in Members(shape) && r.key == elm.key && Row(shape) == old(Row(shape))
      ensures shape == After(old(shape), Add(elm)) && work <= old(work) + Effort(old(shape), Add(elm))
    {
      hide Wired, Ascending, Splayed, Met;
      ghost var was := Members(shape);
      if root == null {
        elm.left, elm.right := null, null;
        shape := Fork(Tip, elm, Tip);
        root := elm;
        LoneNode(elm);
        return null;
      }
      Splay(elm.key);
      RootOrNone(shape, elm.key);
      ghost var t := shape;
      if elm.key < root.key {
        InsertAtRoot(elm, root, Left, t);
      } else if root.key < elm.key {
        InsertAtRoot(elm, root, Right, t);
      } else {
        return root;
      }
      root := elm;
      return null;
    }

    /** The new node above the root, the root going to its other side with that side's subtree. */
    method InsertAtRoot(elm: SplayNode, top: SplayNode, s: Side, ghost t: Splay)
      requires Wired(t) && Once(t) && Ascending(Row(t)) && t.Fork? && t.n == top && elm !in Members(t)
      requires if s == Left then elm.key < top.key else top.key < elm.key
      requires KeysBelow(Row(t.left), elm.key) && KeysAbove(Row(t.right), elm.key)
      modifies elm, top, this`shape
      ensures shape.Fork? && shape.n == elm && Wired(shape) && Once(shape) && Ascending(Row(shape))
      ensures Members(shape) == Members(t) + {elm} && shape == Topped(t, s, elm)
    {
      hide Members, Once, Wired, Row, Ascending, KeysBelow, KeysAbove;
      ghost var a, b := Branch(t, s), Branch(t, Other(s));
      Rejoined(t, s);
      JoinFacts(s, a, t.n, b);
      JoinFacts(s, Tip, t.n, b);
      TipFacts();
      ghost var low := Join(s, Tip, top, b);
      assert allocated(Members(a)) && allocated(Members(b));
      SetNext(elm, s, Next(top, s));
      SetNext(elm, Other(s), top);
      SetNext(top, s, null);
      JoinFacts(s, Tip, top, b);
      JoinFacts(s, a, elm, low);
      InsertedRow(t, s, elm);
      shape := Join(s, a, elm, low);
      assert allocated(Members(shape));
    }

    /** The last step of SPLAY_REMOVE: the right subtree of the removed root goes under the new one. */
    method Rehang(tmp: SplayNode?, ghost t: Splay)
      requires Valid() && shape.Fork? && shape.right.Tip? && t.Fork? && tmp == Head(t.right)
      requires Wired(t.right) && Once(t.right) && Members(shape) !! Members(t.right)
      requires Row(shape) == Row(t.left) && Ascending(Row(t))
      modifies this, root
      ensures Valid() && Members(shape) == old(Members(shape)) + Members(t.right)
      ensures shape == Fork(old(shape).left, old(shape).n, t.right) && work == old(work)
    {
      hide Once, Wired, Ascending, Members, Row;
      ghost var a, b, n := shape.left, t.right, shape.n;
      Rejoined(shape, Left);
      JoinFacts(Left, a, n, Tip);
      TipFacts();
      assert allocated(Members(a)) && allocated(Members(b));
      root.right := tmp;
      JoinFacts(Left, a, n, b);
      RehungRow(shape, t);
      shape := Fork(a, n, b);
      assert allocated(Members(shape));
    }

    /** SPLAY_REMOVE: takes out the node with the key, if there is one. */
    method Remove(elm: SplayNode) returns (r: SplayNode?)
      requires Valid()
      modifies this, Members(shape)
      ensures Valid()
      ensures r == null ==> Row(shape) == old(Row(shape)) && forall n :: n in Members(shape) ==> n.key != elm.key
      ensures r != null ==> r == elm && exists n :: n in old(Members(shape)) && n.key == elm.key && Members(shape) == old(Members(shape)) - {n}
      ensures shape == After(old(shape), Drop(elm.key)) && work <= old(work) + Effort(old(shape), Drop(elm.key))
    {
      hide Once, Wired, Ascending, Members, Row, KeysBelow, KeysAbove, Splayed, Met;
      TipFacts();
      if root == null {
        return null;
      }
      Splay(elm.key);
      ghost var t := shape;
      RootOrNone(t, elm.key);
      if elm.key != root.key {
        return null;
      }
      ghost var gone := t.n;
      RemovedRow(t);
      JoinFacts(Left, t.left, t.n, t.right);
      Rejoined(t, Left);
      if root.left == null {
        root, shape := root.right, t.right;
      } else {
        var tmp := root.right;
        root, shape := root.left, t.left;
        assert allocated(Members(t.right));
        Splay(elm.key);
        NoneAbove(shape, elm.key);
        HeadMember(shape);
        Rehang(tmp, t);
      }
      r := elm;
    }
  }
}
