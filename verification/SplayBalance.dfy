/**
  The Balance Theorem that libuv's include/tree.h claims for its splay trees:
  on an initially empty tree, any run of requests with n insertions meets
  O(lg n) nodes a request.  The potential of a tree is the sum of the logarithms
  of the sizes of its subtrees; what a splay meets beyond the logarithm it takes
  out of twice the potential.
 */
module SplayBalance {
  import opened Powers
  import opened Sides
  import opened SplayTrees

  function Rank(t: Splay): nat
  {
    Ilog(Size(t))
  }

  function Potential(t: Splay): nat
  {
    if t.Tip? then 0 else Rank(t) + Potential(t.left) + Potential(t.right)
  }

  lemma {:induction false} IlogAtLeast(v: nat, k: nat)
    requires k >= 1
    ensures Ilog(v) >= k <==> v >= Pow2(k - 1)
    decreases k
  {
    if k > 1 {
      IlogAtLeast(v / 2, k - 1);
    }
  }

  /** Of two disjoint parts one has a smaller logarithm than the whole. */
  lemma OneHalf(a: nat, b: nat, c: nat)
    requires a + b < c
    ensures Ilog(a) < Ilog(c) || Ilog(b) < Ilog(c)
    ensures Ilog(a) <= Ilog(c) && Ilog(b) <= Ilog(c)
  {
    hide Ilog;
    var k := Ilog(c);
    IlogGrows(a, c);
    IlogGrows(b, c);
    IlogBounds(c);
    IlogAtLeast(a, k);
    IlogAtLeast(b, k);
  }

  lemma JoinSize(s: Side, near: Splay, n: SplayNode, far: Splay)
    ensures var t := Join(s, near, n, far);
      && Size(t) == Size(near) + 1 + Size(far)
      && Potential(t) == Ilog(Size(near) + 1 + Size(far)) + Potential(near) + Potential(far)
  {
  }

  /** Size and potential from the two sides. */
  lemma Parts(t: Splay, s: Side)
    requires t.Fork?
    ensures var near, far := Branch(t, s), Branch(t, Other(s));
      && Size(t) == Size(near) + 1 + Size(far)
      && Potential(t) == Ilog(Size(t)) + Potential(near) + Potential(far)
  {
    Rejoined(t, s);
    JoinSize(s, Branch(t, s), t.n, Branch(t, Other(s)));
  }

  /** A root that has come up out of `u`, over a root with `far` on its other side. */
  lemma Uplift(t: Splay, s: Side, u: Splay)
    requires t.Fork? && u.Fork?
    ensures var r, far := Raised(Swapped(t, s, u), s), Branch(t, Other(s));
      var low := Size(Branch(u, Other(s))) + 1 + Size(far);
      && r.Fork? && Branch(r, s) == Branch(u, s) && Size(Branch(r, Other(s))) == low
      && Size(r) == Size(u) + 1 + Size(far) && low <= Size(r)
      && Potential(r) == Potential(u) - Ilog(Size(u)) + Ilog(Size(r)) + Ilog(low) + Potential(far)
  {
    hide Size, Potential, Ilog;
    var far := Branch(t, Other(s));
    var under := Join(s, Branch(u, Other(s)), t.n, far);
    Parts(u, s);
    JoinSize(s, Branch(u, Other(s)), t.n, far);
    JoinSize(s, Branch(u, s), u.n, under);
    assert Raised(Swapped(t, s, u), s) == Join(s, Branch(u, s), u.n, under);
  }

  /** What a splay may meet: seven times the logarithm of the size, and three more. */
  predicate Affordable(t: Splay, key: int)
    requires t.Fork?
  {
    && Size(Splayed(t, key)) == Size(t)
    && Met(t, key) + 2 * Potential(Splayed(t, key)) <= 2 * Potential(t) + 7 * (Rank(t) - 1) + 3
  }

  lemma RankPositive(t: Splay)
    requires t.Fork?
    ensures Rank(t) >= 1 && Size(t) >= 1
  {
    IlogBounds(Size(t));
  }

  /** The search would go on past the child on the same side, but there is nothing. */
  predicate EndsBeyond(t: Splay, key: int, s: Side)
  {
    GoesOn(t, key, s) && var k := Branch(t, s); key != k.n.key && Toward(key, k.n) == s && Branch(k, s).Tip?
  }

  lemma ChildRaised(t: Splay, s: Side)
    requires t.Fork? && Branch(t, s).Fork?
    ensures Raised(Swapped(t, s, Branch(t, s)), s) == Raised(t, s)
  {
    Rejoined(t, s);
  }

  /** The search ends at the root. */
  lemma EndsHere(t: Splay, key: int)
    requires Ended(t, key)
    ensures Affordable(t, key)
  {
    hide Ilog, Size, Potential, Splayed, Met;
    RankPositive(t);
    SplayedEnd(t, key);
  }

  /** The search ends with the child that came up. */
  lemma EndsWithChild(t: Splay, key: int, s: Side)
    requires EndsBeyond(t, key, s)
    ensures Affordable(t, key)
  {
    hide Ilog, Size, Potential, Splayed, Met;
    var k, far := Branch(t, s), Branch(t, Other(s));
    SplayedStep(t, key, s);
    ChildRaised(t, s);
    Parts(t, s);
    Uplift(t, s, k);
    RankPositive(t);
    RankPositive(k);
    IlogGrows(Size(Branch(k, Other(s))) + 1 + Size(far), Size(t));
  }

  /** One root cut off: what the splay of the rest makes of it. */
  lemma OneWay(t: Splay, key: int, s: Side)
    requires GoesOn(t, key, s) && (var k := Branch(t, s); key == k.n.key || Toward(key, k.n) != s)
    ensures var u, v, k, far := Splayed(t, key), Splayed(Branch(t, s), key), Branch(t, s), Branch(t, Other(s));
      var low := Size(Branch(v, Other(s))) + 1 + Size(far);
      && Met(t, key) == 1 + Met(k, key) && Size(u) == Size(v) + 1 + Size(far)
      && Potential(u) == Potential(v) - Ilog(Size(v)) + Ilog(Size(u)) + Ilog(low) + Potential(far)
      && Branch(u, s) == Branch(v, s) && Size(Branch(u, Other(s))) == low
  {
    hide Ilog, Size, Potential, Splayed, Met;
    SplayedStep(t, key, s);
    Uplift(t, s, Splayed(Branch(t, s), key));
  }

  /** Two roots cut off, the child before the root. */
  lemma TwoWays(t: Splay, key: int, s: Side)
    requires GoesOn(t, key, s) && GoesOn(Branch(t, s), key, s)
    ensures var k, far := Branch(t, s), Branch(t, Other(s));
      var w, mid := Branch(k, s), Branch(k, Other(s));
      var r, u, f := Splayed(t, key), Splayed(w, key), Size(mid) + 1 + Size(far);
      var low := Size(Branch(u, Other(s))) + 1 + f;
      && Met(t, key) == 2 + Met(w, key) && Size(r) == Size(u) + 1 + f
      && Potential(r) == Potential(u) - Ilog(Size(u)) + Ilog(Size(r)) + Ilog(low) + Ilog(f) + Potential(mid) + Potential(far)
      && Branch(r, s) == Branch(u, s) && Size(Branch(r, Other(s))) == low
  {
    hide Ilog, Size, Potential, Splayed, Met;
    var k, far := Branch(t, s), Branch(t, Other(s));
    SplayedStep(t, key, s);
    JoinSize(s, Branch(k, Other(s)), t.n, far);
    assert Branch(Raised(t, s), Other(s)) == Join(s, Branch(k, Other(s)), t.n, far);
    Uplift(Raised(t, s), s, Splayed(Branch(k, s), key));
  }

  /** Twice the same way: the child comes up before the root is cut off. */
  lemma SameWay(t: Splay, key: int, s: Side)
    requires GoesOn(t, key, s) && GoesOn(Branch(t, s), key, s) && Affordable(Branch(Branch(t, s), s), key)
    ensures Affordable(t, key)
  {
    hide Ilog, Size, Potential, Splayed, Met, Raised, Swapped;
    var k, far := Branch(t, s), Branch(t, Other(s));
    var w, mid := Branch(k, s), Branch(k, Other(s));
    var u, f := Splayed(w, key), Size(mid) + 1 + Size(far);
    TwoWays(t, key, s);
    Parts(t, s);
    Parts(k, s);
    Parts(u, s);
    OneHalf(Size(w), f, Size(t));
    IlogGrows(Size(w), Size(k));
    IlogGrows(Size(Branch(u, Other(s))) + 1 + f, Size(t));
  }

  /** The splay of a root and its child cut off to different sides, over what is left. */
  lemma BackAgain(t: Splay, key: int, s: Side)
    requires GoesOn(t, key, s)
    requires var k, o := Branch(t, s), Other(s);
      GoesOn(k, key, o) && var v := Branch(k, o); key == v.n.key || Toward(key, v.n) == s
    ensures var k, far, o := Branch(t, s), Branch(t, Other(s)), Other(s);
      var v, near := Branch(k, o), Branch(k, s);
      var r, u := Splayed(t, key), Splayed(v, key);
      var left, right := Size(Branch(u, s)) + 1 + Size(near), Size(Branch(u, o)) + 1 + Size(far);
      && Met(t, key) == 2 + Met(v, key) && Size(r) == Size(u) + 1 + Size(near) + 1 + Size(far)
      && left + right < Size(r)
      && Potential(r) == Potential(u) - Ilog(Size(u)) + Ilog(Size(r)) + Ilog(left) + Ilog(right) + Potential(near) + Potential(far)
  {
    hide Ilog, Size, Potential, Splayed, Met, Raised, Swapped, Join;
    var k, o := Branch(t, s), Other(s);
    OneWay(k, key, o);
    OneWay(t, key, s);
    Parts(Splayed(Branch(k, o), key), o);
  }

  /** There and back: two roots are cut off to different sides. */
  lemma ThereAndBack(t: Splay, key: int, s: Side)
    requires GoesOn(t, key, s)
    requires var k, o := Branch(t, s), Other(s);
      GoesOn(k, key, o) && var v := Branch(k, o);
        (key == v.n.key || Toward(key, v.n) == s) && Affordable(v, key)
    ensures Affordable(t, key)
  {
    hide Ilog, Size, Potential, Splayed, Met, Raised, Swapped, Join;
    var k, far, o := Branch(t, s), Branch(t, Other(s)), Other(s);
    var v, near := Branch(k, o), Branch(k, s);
    var u := Splayed(v, key);
    BackAgain(t, key, s);
    Parts(t, s);
    Parts(k, o);
    Parts(u, o);
    OneHalf(Size(Branch(u, s)) + 1 + Size(near), Size(Branch(u, o)) + 1 + Size(far), Size(t));
    IlogGrows(Size(Branch(u, s)) + 1 + Size(near), Size(k));
    IlogGrows(Size(v), Size(k));
    IlogGrows(Size(k), Size(t));
  }

  /** There, and twice back the same way. */
  lemma ThereAndTwiceBack(t: Splay, key: int, s: Side)
    requires GoesOn(t, key, s)
    requires var k, o := Branch(t, s), Other(s);
      GoesOn(k, key, o) && GoesOn(Branch(k, o), key, o) && Affordable(Branch(Branch(k, o), o), key)
    ensures Affordable(t, key)
  {
    hide Ilog, Size, Potential, Splayed, Met, Raised, Swapped, Join;
    var k, far, o := Branch(t, s), Branch(t, Other(s)), Other(s);
    var v, near := Branch(k, o), Branch(k, s);
    var w, mid := Branch(v, o), Branch(v, s);
    var u := Splayed(w, key);
    TwoWays(k, key, o);
    OneWay(t, key, s);
    Parts(t, s);
    Parts(k, o);
    Parts(v, o);
    Parts(u, o);
    var f := Size(mid) + 1 + Size(near);
    OneHalf(Size(Branch(u, s)) + 1 + f, Size(Branch(u, o)) + 1 + Size(far), Size(t));
    OneHalf(Size(w), f, Size(t));
    IlogGrows(f, Size(k));
    IlogGrows(Size(Branch(u, s)) + 1 + f, Size(k));
    IlogGrows(Size(w), Size(v));
    IlogGrows(Size(v), Size(k));
  }

  /** There, where the search ends. */
  lemma ThereAndEnded(t: Splay, key: int, s: Side)
    requires GoesOn(t, key, s) && Ended(Branch(t, s), key)
    requires key == Branch(t, s).n.key || Toward(key, Branch(t, s).n) != s
    ensures Affordable(t, key)
  {
    hide Ilog, Size, Potential, Splayed, Met, Raised, Swapped;
    var k, far := Branch(t, s), Branch(t, Other(s));
    SplayedEnd(k, key);
    OneWay(t, key, s);
    Parts(t, s);
    Parts(k, s);
    RankPositive(t);
    RankPositive(k);
    IlogGrows(Size(Branch(k, Other(s))) + 1 + Size(far), Size(t));
  }

  /** There, and back to a child with which the search ends. */
  lemma ThereAndChild(t: Splay, key: int, s: Side)
    requires GoesOn(t, key, s) && EndsBeyond(Branch(t, s), key, Other(s))
    ensures Affordable(t, key)
  {
    hide Ilog, Size, Potential, Splayed, Met, Raised, Swapped;
    var k, far, o := Branch(t, s), Branch(t, Other(s)), Other(s);
    var v, near := Branch(k, o), Branch(k, s);
    SplayedStep(k, key, o);
    ChildRaised(k, o);
    Uplift(k, o, v);
    OneWay(t, key, s);
    Parts(t, s);
    Parts(k, o);
    Parts(v, o);
    RankPositive(t);
    RankPositive(v);
    IlogGrows(Size(Branch(v, s)) + 1 + Size(near), Size(k));
    IlogGrows(Size(Branch(v, o)) + 1 + Size(far), Size(t));
  }

  /** The access lemma. */
  lemma {:induction false} Access(t: Splay, key: int)
    requires t.Fork?
    ensures Affordable(t, key)
    decreases t
  {
    hide Affordable, Splayed, Met;
    var s := Toward(key, t.n);
    var o := Other(s);
    var k := Branch(t, s);
    if !GoesOn(t, key, s) {
      EndsHere(t, key);
    } else if EndsBeyond(t, key, s) {
      EndsWithChild(t, key, s);
    } else if GoesOn(k, key, s) {
      Access(Branch(k, s), key);
      SameWay(t, key, s);
    } else if !GoesOn(k, key, o) {
      ThereAndEnded(t, key, s);
    } else if EndsBeyond(k, key, o) {
      ThereAndChild(t, key, s);
    } else if GoesOn(Branch(k, o), key, o) {
      Access(Branch(Branch(k, o), o), key);
      ThereAndTwiceBack(t, key, s);
    } else {
      Access(Branch(k, o), key);
      ThereAndBack(t, key, s);
    }
  }

  function Added(q: Request): nat
  {
    if q.Add? then 1 else 0
  }

  /** What one request may meet, for a tree that does not grow beyond `n`. */
  predicate Cheap(t: Splay, q: Request, n: nat)
  {
    && Size(After(t, q)) <= Size(t) + Added(q)
    && Effort(t, q) + 2 * Potential(After(t, q)) <= 2 * Potential(t) + 14 * Ilog(n)
  }

  lemma SeekCheap(t: Splay, key: int, n: nat)
    requires Size(t) <= n
    ensures Cheap(t, Seek(key), n)
  {
    hide Ilog, Size, Potential, Splayed, Met;
    TipCounts();
    IlogGrows(Size(t), n);
    if t.Fork? {
      Access(t, key);
      RankPositive(t);
    } else {
      MetTip(key);
    }
  }

  lemma TipCounts()
    ensures Size(Tip) == 0 && Potential(Tip) == 0 && Ilog(1) == 1
  {
  }

  lemma MetTip(key: int)
    ensures Met(Tip, key) == 0
  {
  }

  lemma ToppedParts(u: Splay, s: Side, elm: SplayNode)
    requires u.Fork?
    ensures var near, far := Branch(u, s), Branch(u, Other(s));
      && Size(Topped(u, s, elm)) == Size(near) + 1 + (1 + Size(far))
      && Potential(Topped(u, s, elm)) ==
           Ilog(Size(near) + 1 + (1 + Size(far))) + Potential(near) + (Ilog(1 + Size(far)) + Potential(far))
  {
    hide Ilog, Size, Potential;
    TipCounts();
    JoinSize(s, Tip, u.n, Branch(u, Other(s)));
    JoinSize(s, Branch(u, s), elm, Swapped(u, s, Tip));
  }

  lemma ToppedPotential(u: Splay, s: Side, elm: SplayNode)
    requires u.Fork?
    ensures Size(Topped(u, s, elm)) == Size(u) + 1
    ensures Potential(Topped(u, s, elm)) <= Potential(u) + Ilog(Size(u) + 1)
  {
    hide Ilog, Size, Potential, Topped, Branch;
    ToppedParts(u, s, elm);
    Parts(u, s);
    IlogGrows(1 + Size(Branch(u, Other(s))), Size(u));
  }

  lemma AddCheap(t: Splay, elm: SplayNode, n: nat)
    requires Size(t) < n
    ensures Cheap(t, Add(elm), n)
  {
    hide Ilog, Size, Potential, Splayed, Met, Topped;
    TipCounts();
    IlogGrows(1, n);
    if t.Tip? {
      MetTip(elm.key);
      JoinSize(Left, Tip, elm, Tip);
    } else {
      var u := Splayed(t, elm.key);
      Access(t, elm.key);
      RankPositive(t);
      ToppedPotential(u, Toward(elm.key, u.n), elm);
      IlogGrows(Size(t), n);
      IlogGrows(Size(t) + 1, n);
    }
  }

  lemma DropCheap(t: Splay, key: int, n: nat)
    requires Size(t) <= n
    ensures Cheap(t, Drop(key), n)
  {
    hide Ilog, Size, Potential, Splayed, Met;
    TipCounts();
    IlogGrows(Size(t), n);
    if t.Tip? {
      MetTip(key);
    } else {
      var u := Splayed(t, key);
      Access(t, key);
      RankPositive(t);
      Parts(u, Left);
      if key == u.n.key && u.left.Fork? {
        DropBelow(u, key);
      } else if key == u.n.key {
        MetTip(key);
      }
    }
  }

  /** The second splay of a removal, below the root that goes. */
  lemma DropBelow(u: Splay, key: int)
    requires u.Fork? && u.left.Fork?
    ensures var v := Splayed(u.left, key);
      var r := Fork(v.left, v.n, u.right);
      && Size(r) < Size(u)
      && Met(u.left, key) + 2 * Potential(r) <= 2 * Potential(u) + 7 * (Rank(u) - 1) + 3
  {
    hide Ilog, Size, Potential, Splayed, Met;
    var v := Splayed(u.left, key);
    Access(u.left, key);
    Parts(u, Left);
    Parts(v, Left);
    JoinSize(Left, v.left, v.n, u.right);
    IlogGrows(Size(v.left) + 1 + Size(u.right), Size(u));
    IlogGrows(Size(u.left), Size(u));
  }

  lemma RequestCheap(t: Splay, q: Request, n: nat)
    requires Size(t) + Added(q) <= n
    ensures Cheap(t, q, n)
  {
    hide Cheap;
    match q
    case Seek(key) => SeekCheap(t, key, n);
    case Add(elm) => AddCheap(t, elm, n);
    case Drop(key) => DropCheap(t, key, n);
  }

  /** A run of requests: where it ends, what it meets, and how often it inserts. */
  function Run(t: Splay, qs: seq<Request>): Splay
    decreases |qs|
  {
    if qs == [] then t else Run(After(t, qs[0]), qs[1..])
  }

  function TotalEffort(t: Splay, qs: seq<Request>): nat
    decreases |qs|
  {
    if qs == [] then 0 else Effort(t, qs[0]) + TotalEffort(After(t, qs[0]), qs[1..])
  }

  function TotalAdded(qs: seq<Request>): nat
  {
    if qs == [] then 0 else Added(qs[0]) + TotalAdded(qs[1..])
  }

  lemma {:induction false} RunCheap(t: Splay, qs: seq<Request>, n: nat)
    requires Size(t) + TotalAdded(qs) <= n
    ensures TotalEffort(t, qs) + 2 * Potential(Run(t, qs)) <= 2 * Potential(t) + 14 * |qs| * Ilog(n)
    decreases |qs|
  {
    hide Ilog, Size, Potential, Effort, After;
    if qs != [] {
      RequestCheap(t, qs[0], n);
      RunCheap(After(t, qs[0]), qs[1..], n);
      assert 14 * |qs| * Ilog(n) == 14 * Ilog(n) + 14 * |qs[1..]| * Ilog(n);
    }
  }

  /**
    The Balance Theorem: whatever is asked of an initially empty tree, the nodes
    met are at most 14 times the number of requests times the length in bits of
    the number of insertions.
   */
  lemma Balance(qs: seq<Request>)
    ensures TotalEffort(Tip, qs) <= 14 * |qs| * Ilog(TotalAdded(qs))
  {
    hide Ilog, TotalEffort;
    TipCounts();
    RunCheap(Tip, qs, TotalAdded(qs));
  }

  lemma {:induction false} PotentialBound(t: Splay, n: nat)
    requires Size(t) <= n
    ensures Potential(t) <= Size(t) * Ilog(n)
  {
    hide Ilog;
    if t.Fork? {
      PotentialBound(t.left, n);
      PotentialBound(t.right, n);
      IlogGrows(Size(t), n);
      OneMore(Size(t.left), Size(t.right), Ilog(n));
    }
  }

  lemma OneMore(a: nat, b: nat, k: nat)
    ensures (1 + a + b) * k == k + a * k + b * k
  {
  }

  /** From any tree of `n` nodes `m` accesses meet at most 14 m + 2 n times as many nodes as `n` has bits. */
  lemma Accesses(t: Splay, qs: seq<Request>)
    requires TotalAdded(qs) == 0
    ensures TotalEffort(t, qs) <= (14 * |qs| + 2 * Size(t)) * Rank(t)
  {
    hide Ilog, TotalEffort, Size;
    RunCheap(t, qs, Size(t));
    PotentialBound(t, Size(t));
    Summed(|qs|, Size(t), Rank(t));
  }

  lemma Summed(m: nat, n: nat, k: nat)
    ensures (14 * m + 2 * n) * k == 14 * m * k + 2 * (n * k)
  {
  }
}
