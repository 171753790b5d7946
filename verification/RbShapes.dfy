/**
  The shapes of red-black trees (libuv's include/tree.h): a tree of nodes, and
  a tree with one place singled out, as the loops of tree.h see it.  The left
  and right cases of the source are one case here, told apart by a side.
 */
module RbShapes {
  import opened Sides

  /** An element with its RB_ENTRY fields; the comparison orders elements by key. */
  class RbNode {
    const key: int
    var left: RbNode?
    var right: RbNode?
    var parent: RbNode?
    var red: bool

    constructor (key: int)
      ensures this.key == key
    {
      this.key := key;
      left, right, parent, red := null, null, null, false;
    }
  }

  datatype Tree = Leaf | Node(red: bool, left: Tree, n: RbNode, right: Tree)

  function Kid(t: Tree, s: Side): Tree
    requires t.Node?
  {
    if s == Left then t.left else t.right
  }

  /** The tree with `near` on side `s`. */
  function Make(red: bool, s: Side, near: Tree, n: RbNode, far: Tree): (t: Tree)
    ensures t.Node? && t.red == red && t.n == n && Kid(t, s) == near && Kid(t, Other(s)) == far
  {
    if s == Left then Node(red, near, n, far) else Node(red, far, n, near)
  }

  function Top(t: Tree): RbNode?
  {
    if t.Leaf? then null else t.n
  }

  predicate IsRed(t: Tree) { t.Node? && t.red }

  function Elements(t: Tree): set<RbNode>
  {
    if t.Leaf? then {} else Elements(t.left) + {t.n} + Elements(t.right)
  }

  function Inorder(t: Tree): seq<RbNode>
  {
    if t.Leaf? then [] else Inorder(t.left) + [t.n] + Inorder(t.right)
  }

  /** No node occurs twice. */
  predicate Proper(t: Tree)
  {
    t.Node? ==>
      && Proper(t.left) && Proper(t.right)
      && t.n !in Elements(t.left) && t.n !in Elements(t.right) && Elements(t.left) !! Elements(t.right)
  }

  /**
    No red node has a red child, and every way down passes `h` black nodes.
   */
  predicate Balanced(t: Tree, h: nat)
  {
    if t.Leaf? then h == 0
    else if t.red then !IsRed(t.left) && !IsRed(t.right) && Balanced(t.left, h) && Balanced(t.right, h)
    else h > 0 && Balanced(t.left, h - 1) && Balanced(t.right, h - 1)
  }

  /** What surrounds a place in a tree: the place is the child of `n` on side `side`. */
  datatype Path = Root | Frame(up: Path, red: bool, n: RbNode, side: Side, sib: Tree)

  function Above(p: Path): RbNode?
  {
    if p.Root? then null else p.n
  }

  function Joined(p: Path, t: Tree): Tree
    requires p.Frame?
  {
    Make(p.red, p.side, t, p.n, p.sib)
  }

  function Plug(p: Path, t: Tree): Tree
  {
    if p.Root? then t else Plug(p.up, Joined(p, t))
  }

  function Around(p: Path): set<RbNode>
  {
    if p.Root? then {} else Around(p.up) + {p.n} + Elements(p.sib)
  }

  /** The elements before and after the place. */
  function Before(p: Path): seq<RbNode>
  {
    if p.Root? then []
    else if p.side == Left then Before(p.up)
    else Before(p.up) + Inorder(p.sib) + [p.n]
  }

  function After(p: Path): seq<RbNode>
  {
    if p.Root? then []
    else if p.side == Right then After(p.up)
    else [p.n] + Inorder(p.sib) + After(p.up)
  }

  predicate ProperPath(p: Path)
  {
    p.Frame? ==>
      && ProperPath(p.up) && Proper(p.sib)
      && p.n !in Elements(p.sib) && p.n !in Around(p.up) && Elements(p.sib) !! Around(p.up)
  }

  /** The place wants a tree of black height `h`; the root is black, and no red node has a red child. */
  predicate Supports(p: Path, h: nat)
  {
    p.Frame? ==>
      if p.red then !IsRed(p.sib) && p.up.Frame? && !p.up.red && Balanced(p.sib, h) && Supports(p.up, h)
      else Balanced(p.sib, h) && Supports(p.up, h + 1)
  }

  predicate RedAbove(p: Path) { p.Frame? && p.red }

  /** The black height of the whole tree. */
  function WholeHeight(p: Path, h: nat): nat
  {
    if p.Root? then h else WholeHeight(p.up, if p.red then h else h + 1)
  }

  lemma {:induction false} PlugBalanced(p: Path, t: Tree, h: nat)
    requires Balanced(t, h) && Supports(p, h) && !(IsRed(t) && RedAbove(p))
    ensures Balanced(Plug(p, t), WholeHeight(p, h))
    ensures p.Frame? ==> !IsRed(Plug(p, t))
    ensures t.Node? ==> Plug(p, t).Node?
    decreases p
  {
    if p.Frame? {
      PlugBalanced(p.up, Joined(p, t), if p.red then h else h + 1);
    }
  }

  lemma {:induction false} PlugElements(p: Path, t: Tree)
    ensures Elements(Plug(p, t)) == Around(p) + Elements(t)
    decreases p
  {
    if p.Frame? {
      PlugElements(p.up, Joined(p, t));
    }
  }

  lemma {:induction false} InorderElements(t: Tree, n: RbNode)
    ensures n in Inorder(t) <==> n in Elements(t)
  {
    if t.Node? {
      InorderElements(t.left, n);
      InorderElements(t.right, n);
    }
  }

  /** The tree after a rotation to side `s`: the child on the other side comes up. */
  function Rotated(t: Tree, s: Side): Tree
    requires t.Node? && Kid(t, Other(s)).Node?
  {
    var u := Kid(t, Other(s));
    Make(u.red, s, Make(t.red, s, Kid(t, s), t.n, Kid(u, s)), u.n, Kid(u, Other(s)))
  }

  lemma MadeElements(red: bool, s: Side, near: Tree, n: RbNode, far: Tree)
    ensures var t := Make(red, s, near, n, far);
      && Elements(t) == Elements(near) + {n} + Elements(far)
      && (Proper(t) <==>
            Proper(near) && Proper(far) && n !in Elements(near) && n !in Elements(far) && Elements(near) !! Elements(far))
  {
  }

  lemma RotatedElements(t: Tree, s: Side)
    requires t.Node? && Kid(t, Other(s)).Node?
    ensures Elements(Rotated(t, s)) == Elements(t)
    ensures Proper(t) ==> Proper(Rotated(t, s))
  {
    hide Elements, Proper;
    var u := Kid(t, Other(s));
    var low := Make(t.red, s, Kid(t, s), t.n, Kid(u, s));
    MadeElements(t.red, s, Kid(t, s), t.n, u);
    MadeElements(u.red, s, Kid(u, s), u.n, Kid(u, Other(s)));
    MadeElements(t.red, s, Kid(t, s), t.n, Kid(u, s));
    MadeElements(u.red, s, low, u.n, Kid(u, Other(s)));
    assert t == Make(t.red, s, Kid(t, s), t.n, u);
    assert u == Make(u.red, s, Kid(u, s), u.n, Kid(u, Other(s)));
  }

  lemma RotatedOrder(t: Tree, s: Side)
    requires t.Node? && Kid(t, Other(s)).Node?
    ensures Inorder(Rotated(t, s)) == Inorder(t)
  {
    var u := Kid(t, Other(s));
    if s == Left {
      Regroup(Inorder(t.left), [t.n], Inorder(u.left), [u.n], Inorder(u.right));
      assert Inorder(t) == Inorder(t.left) + [t.n] + (Inorder(u.left) + [u.n] + Inorder(u.right));
    } else {
      Regroup(Inorder(u.left), [u.n], Inorder(u.right), [t.n], Inorder(t.right));
      assert Inorder(t) == (Inorder(u.left) + [u.n] + Inorder(u.right)) + [t.n] + Inorder(t.right);
    }
  }

  function Painted(t: Tree, red: bool): Tree
    requires t.Node?
  {
    t.(red := red)
  }

  function WithKid(t: Tree, s: Side, kid: Tree): Tree
    requires t.Node?
  {
    Make(t.red, s, kid, t.n, Kid(t, Other(s)))
  }

  lemma MadeBalanced(red: bool, s: Side, near: Tree, n: RbNode, far: Tree, h: nat)
    ensures Balanced(Make(red, s, near, n, far), h) <==>
      if red then !IsRed(near) && !IsRed(far) && Balanced(near, h) && Balanced(far, h)
      else h > 0 && Balanced(near, h - 1) && Balanced(far, h - 1)
  {
  }

  lemma Remade(t: Tree, s: Side)
    requires t.Node?
    ensures t == Make(t.red, s, Kid(t, s), t.n, Kid(t, Other(s)))
  {
  }

  lemma WithKidOrder(t: Tree, s: Side, kid: Tree)
    requires t.Node? && Inorder(kid) == Inorder(Kid(t, s))
    ensures Inorder(WithKid(t, s, kid)) == Inorder(t)
  {
  }

  lemma PaintedOrder(t: Tree, red: bool)
    requires t.Node?
    ensures Inorder(Painted(t, red)) == Inorder(t)
  {
  }

  /** The elements of the whole tree in order, seen from a place. */
  function Line(p: Path, t: Tree): seq<RbNode>
  {
    Before(p) + Inorder(t) + After(p)
  }

  lemma LineUp(p: Path, t: Tree)
    requires p.Frame?
    ensures Line(p.up, Joined(p, t)) == Line(p, t)
  {
    var b, a := Before(p.up), After(p.up);
    if p.side == Left {
      assert b + (Inorder(t) + [p.n] + Inorder(p.sib)) + a == b + Inorder(t) + ([p.n] + Inorder(p.sib) + a);
    } else {
      assert b + (Inorder(p.sib) + [p.n] + Inorder(t)) + a == (b + Inorder(p.sib) + [p.n]) + Inorder(t) + a;
    }
  }

  lemma {:induction false} PlugOrder(p: Path, t: Tree)
    ensures Inorder(Plug(p, t)) == Line(p, t)
    decreases p
  {
    if p.Frame? {
      PlugOrder(p.up, Joined(p, t));
      LineUp(p, t);
    }
  }

  function Depth(p: Path): nat
  {
    if p.Root? then 0 else 1 + Depth(p.up)
  }

  function Height(t: Tree): nat
  {
    if t.Leaf? then 0 else 1 + if Height(t.left) < Height(t.right) then Height(t.right) else Height(t.left)
  }

  /** Strictly ascending keys: the search order. */
  predicate Sorted(s: seq<RbNode>)
  {
    forall i, j :: 0 <= i < j < |s| ==> s[i].key < s[j].key
  }

  predicate AllBelow(s: seq<RbNode>, key: int)
  {
    forall i :: 0 <= i < |s| ==> s[i].key < key
  }

  predicate AllAbove(s: seq<RbNode>, key: int)
  {
    forall i :: 0 <= i < |s| ==> key < s[i].key
  }

  /** A new element goes in order between what is below it and what is above. */
  lemma SortedInsert(a: seq<RbNode>, n: RbNode, b: seq<RbNode>)
    requires Sorted(a + b) && AllBelow(a, n.key) && AllAbove(b, n.key)
    ensures Sorted(a + [n] + b)
  {
    var s, t := a + [n] + b, a + b;
    forall i, j | 0 <= i < j < |s| ensures s[i].key < s[j].key {
      assert i != |a| ==> s[i] == t[if i < |a| then i else i - 1];
      assert j != |a| ==> s[j] == t[if j < |a| then j else j - 1];
    }
  }

  lemma SortedAround(a: seq<RbNode>, n: RbNode, b: seq<RbNode>)
    requires Sorted(a + [n] + b)
    ensures AllBelow(a, n.key) && AllAbove(b, n.key)
    ensures Sorted(a + b)
  {
    var s, t := a + [n] + b, a + b;
    assert s[|a|] == n;
    forall i | 0 <= i < |b| ensures n.key < b[i].key {
      assert s[|a| + 1 + i] == b[i];
    }
    forall i | 0 <= i < |a| ensures a[i].key < n.key {
      assert s[i] == a[i];
    }
    forall i, j | 0 <= i < j < |t| ensures t[i].key < t[j].key {
      assert t[i] == s[if i < |a| then i else i + 1];
      assert t[j] == s[if j < |a| then j else j + 1];
    }
  }

  /** The number of black nodes on every way down a balanced tree. */
  function BlackHeight(t: Tree): nat
  {
    if t.Leaf? then 0 else BlackHeight(t.left) + if t.red then 0 else 1
  }

  lemma {:induction false} BalancedAt(t: Tree, h: nat)
    requires Balanced(t, h)
    ensures h == BlackHeight(t)
  {
    if t.Node? {
      BalancedAt(t.left, if t.red then h else h - 1);
    }
  }
}
