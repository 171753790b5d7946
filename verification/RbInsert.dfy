/**
  RB_INSERT and RB_INSERT_COLOR: the new red node climbs until no red node has a
  red child, without changing the order of the elements.
 */
module RbInsert {
  import opened Sides
  import opened RbShapes
  import opened RbPointers

  /** Recolouring under a black grandparent moves the excess red up two levels. */
  function Recolored(g: Tree, s: Side): Tree
    requires g.Node? && g.left.Node? && g.right.Node?
  {
    Painted(WithKid(WithKid(g, Other(s), Painted(Kid(g, Other(s)), false)), s, Painted(Kid(g, s), false)), true)
  }

  lemma RecoloredFits(g: Tree, s: Side, sp: Side, h: nat)
    requires g.Node? && !g.red && IsRed(g.left) && IsRed(g.right)
    requires var p := Kid(g, s); Balanced(Kid(p, sp), h) && Balanced(Kid(p, Other(sp)), h)
    requires Balanced(Kid(g, Other(s)), h)
    ensures Balanced(Recolored(g, s), h + 1) && IsRed(Recolored(g, s))
    ensures Inorder(Recolored(g, s)) == Inorder(g)
  {
    hide Balanced;
    var p, u := Kid(g, s), Kid(g, Other(s));
    var p', u' := Painted(p, false), Painted(u, false);
    Remade(p, sp);
    Remade(u, s);
    Remade(p', sp);
    Remade(u', s);
    MadeBalanced(false, sp, Kid(p, sp), p.n, Kid(p, Other(sp)), h + 1);
    MadeBalanced(true, s, Kid(u, s), u.n, Kid(u, Other(s)), h);
    MadeBalanced(false, s, Kid(u, s), u.n, Kid(u, Other(s)), h + 1);
    MadeBalanced(true, s, p', g.n, u', h + 1);
    PaintedOrder(p, false);
    PaintedOrder(u, false);
    WithKidOrder(g, Other(s), u');
    WithKidOrder(WithKid(g, Other(s), u'), s, p');
    PaintedOrder(WithKid(WithKid(g, Other(s), u'), s, p'), true);
  }

  /** With the red pair on the outside, one rotation at the grandparent settles it. */
  function Settled(g: Tree, s: Side): Tree
    requires g.Node? && Kid(g, s).Node?
  {
    Rotated(Painted(WithKid(g, s, Painted(Kid(g, s), false)), true), Other(s))
  }

  lemma SettledFits(g: Tree, s: Side, h: nat)
    requires g.Node? && !g.red && Kid(g, s).Node? && IsRed(Kid(Kid(g, s), s))
    requires var p := Kid(g, s); Balanced(Kid(p, s), h) && Balanced(Kid(p, Other(s)), h) && !IsRed(Kid(p, Other(s)))
    requires !IsRed(Kid(g, Other(s))) && Balanced(Kid(g, Other(s)), h)
    ensures var r, p := Settled(g, s), Kid(g, s);
      && !r.red && r.n == p.n && Kid(r, s) == Kid(p, s)
      && Balanced(r, h + 1) && Balanced(Kid(r, Other(s)), h)
    ensures Inorder(Settled(g, s)) == Inorder(g)
  {
    hide Balanced;
    var p, u := Kid(g, s), Kid(g, Other(s));
    var r := Settled(g, s);
    Remade(r, s);
    MadeBalanced(true, s, Kid(p, Other(s)), g.n, u, h);
    Remade(Kid(r, Other(s)), s);
    MadeBalanced(false, s, Kid(p, s), p.n, Kid(r, Other(s)), h + 1);
    PaintedOrder(p, false);
    WithKidOrder(g, s, Painted(p, false));
    PaintedOrder(WithKid(g, s, Painted(p, false)), true);
    RotatedOrder(Painted(WithKid(g, s, Painted(p, false)), true), Other(s));
  }

  /** The node in focus is red, and the tree is balanced but perhaps for a red parent. */
  ghost predicate Climbing(tree: RbTree, p: Path, t: Tree, h: nat)
    reads tree`root, Around(p), Elements(t)
  {
    tree.Zipped(p, t) && IsRed(t) && Balanced(t, h) && Supports(p, h)
  }

  /** What the links tell about the two nodes above the focus. */
  lemma Family(tree: RbTree, p: Path, t: Tree)
    requires tree.Zipped(p, t) && t.Node?
    ensures t.n.parent == Above(p) && (p.Frame? ==> p.n.red == p.red)
    ensures p.Frame? && p.up.Frame? ==>
      && p.n.parent == p.up.n
      && (p.n == p.up.n.left <==> p.up.side == Left)
      && Child(p.up.n, Other(p.up.side)) == Top(p.up.sib)
      && (p.up.sib.Node? ==> p.up.sib.n.red == p.up.sib.red)
      && Child(p.n, p.side) == t.n && Child(p.n, Other(p.side)) != t.n
  {
    if p.Frame? && p.up.Frame? {
      tree.Up(p, t);
      if p.up.sib.Node? {
        assert p.up.sib.n in Elements(p.up.sib);
      }
      if p.sib.Node? {
        assert p.sib.n in Elements(p.sib);
      }
    }
  }

  /** The grandparent, with what is below it, and the path to it. */
  lemma TwoUp(tree: RbTree, p: Path, t: Tree)
    requires tree.Zipped(p, t) && p.Frame? && p.up.Frame?
    ensures var g := Joined(p.up, Joined(p, t));
      && tree.Zipped(p.up.up, g)
      && Around(p.up.up) + Elements(g) == Around(p) + Elements(t)
      && Line(p.up.up, g) == Line(p, t)
  {
    hide RbTree.Zipped, Elements, Around, Line;
    tree.Up(p, t);
    tree.Up(p.up, Joined(p, t));
    LineUp(p, t);
    LineUp(p.up, Joined(p, t));
  }

  function Everything(p: Path, t: Tree): set<RbNode>
  {
    Around(p) + Elements(t)
  }

  /** A red uncle: recolour and look at the grandparent next. */
  method Recolor(tree: RbTree, parent: RbNode, gparent: RbNode, tmp: RbNode, s: Side, ghost p: Path, ghost t: Tree, ghost h: nat)
    returns (ghost p': Path, ghost t': Tree)
    requires Climbing(tree, p, t, h) && p.Frame? && p.red && p.up.Frame? && IsRed(p.up.sib)
    requires parent == p.n && gparent == p.up.n && tmp == p.up.sib.n && s == p.up.side
    modifies Everything(p, t)
    ensures Climbing(tree, p', t', h + 1) && t'.n == gparent && Depth(p') < Depth(p)
    ensures Everything(p', t') == Everything(p, t) && Line(p', t') == Line(p, t)
  {
    hide RbTree.Zipped, Elements, Around, Balanced, Inorder, Before, After;
    var u := p.up.sib;
    ghost var g := Joined(p.up, Joined(p, t));
    p' := p.up.up;
    TwoUp(tree, p, t);
    assert Supports(p.up, h);
    WithinAll(p, t, p', g, s);
    tree.PaintKid(tmp, false, Other(s), p', g);
    ghost var g1 := WithKid(g, Other(s), Painted(u, false));
    tree.PaintKid(parent, false, s, p', g1);
    ghost var g2 := WithKid(g1, s, Painted(Kid(g, s), false));
    tree.Paint(gparent, true, p', g2);
    t' := Recolored(g, s);
    RecoloredFits(g, s, p.side, h);
  }

  lemma WithinAll(p: Path, t: Tree, g: Path, gt: Tree, s: Side)
    requires gt.Node? && gt.left.Node? && gt.right.Node? && Everything(g, gt) == Everything(p, t)
    ensures {gt.n, gt.left.n, gt.right.n} <= Everything(p, t)
  {
    assert gt.left.n in Elements(gt.left) && gt.right.n in Elements(gt.right);
  }

  /** With the red pair on the inside, a rotation at the parent brings it outside. */
  lemma InnerFits(p: Tree, s: Side, h: nat)
    requires IsRed(p) && IsRed(Kid(p, Other(s))) && !IsRed(Kid(p, s))
    requires Balanced(Kid(p, s), h) && Balanced(Kid(p, Other(s)), h)
    ensures var r := Rotated(p, s);
      && r.n == Kid(p, Other(s)).n && IsRed(Kid(r, s)) && Kid(r, s).n == p.n
      && Balanced(Kid(r, s), h) && Balanced(Kid(r, Other(s)), h) && !IsRed(Kid(r, Other(s)))
    ensures Inorder(Rotated(p, s)) == Inorder(p)
  {
    var t := Kid(p, Other(s));
    Remade(t, s);
    MadeBalanced(true, s, Kid(t, s), t.n, Kid(t, Other(s)), h);
    MadeBalanced(true, s, Kid(p, s), p.n, Kid(t, s), h);
    RotatedOrder(p, s);
  }

  /** The grandparent's subtree, its side `s` holding the red pair on the outside. */
  predicate OuterPair(g: Tree, s: Side, h: nat)
  {
    && g.Node? && !g.red && Kid(g, s).Node? && IsRed(Kid(Kid(g, s), s))
    && (var p := Kid(g, s); Balanced(Kid(p, s), h) && Balanced(Kid(p, Other(s)), h) && !IsRed(Kid(p, Other(s))))
    && !IsRed(Kid(g, Other(s))) && Balanced(Kid(g, Other(s)), h)
  }

  /** The last case: recolour parent and grandparent and rotate at the grandparent. */
  method Settle(tree: RbTree, parent: RbNode, gparent: RbNode, s: Side, ghost p: Path, ghost g: Tree, ghost h: nat)
    returns (ghost p': Path, ghost t': Tree)
    requires tree.Zipped(p, g) && OuterPair(g, s, h) && Supports(p, h + 1)
    requires gparent == g.n && parent == Kid(g, s).n
    modifies tree`root, Everything(p, g)
    ensures t' == Kid(Kid(g, s), s) && p'.Frame? && p'.up == p && !p'.red
    ensures Climbing(tree, p', t', h)
    ensures Everything(p', t') == Everything(p, g) && Line(p', t') == Line(p, g)
  {
    hide RbTree.Zipped, Elements, Around, Balanced, Inorder, Before, After;
    KidWithin(p, g, s);
    tree.PaintKid(parent, false, s, p, g);
    ghost var g1 := WithKid(g, s, Painted(Kid(g, s), false));
    tree.Paint(gparent, true, p, g1);
    ghost var g2 := Painted(g1, true);
    RotatedElements(g2, Other(s));
    var _ := tree.Rotate(gparent, Other(s), p, g2);
    SettledFits(g, s, h);
    ghost var r := Settled(g, s);
    tree.Down(p, r, s);
    p', t' := Frame(p, r.red, r.n, s, Kid(r, Other(s))), Kid(r, s);
    Remade(r, s);
    LineUp(p', t');
  }

  lemma KidWithin(p: Path, g: Tree, s: Side)
    requires g.Node? && Kid(g, s).Node?
    ensures {g.n, Kid(g, s).n} <= Everything(p, g)
  {
    assert Kid(g, s).n in Elements(Kid(g, s));
  }

  /** A black uncle: one or two rotations at most. */
  method Rebalance(tree: RbTree, elm: RbNode, parent: RbNode, gparent: RbNode, s: Side, ghost p: Path, ghost t: Tree, ghost h: nat)
    returns (next: RbNode, ghost p': Path, ghost t': Tree)
    requires Climbing(tree, p, t, h) && p.Frame? && p.red && p.up.Frame? && !IsRed(p.up.sib)
    requires elm == t.n && parent == p.n && gparent == p.up.n && s == p.up.side
    requires Child(parent, Other(s)) == elm <==> p.side != s
    modifies tree`root, Everything(p, t)
    ensures Climbing(tree, p', t', h) && t'.n == next && Depth(p') < Depth(p)
    ensures Everything(p', t') == Everything(p, t) && Line(p', t') == Line(p, t)
  {
    hide RbTree.Zipped, Elements, Around, Inorder, Before, After;
    ghost var pt := Joined(p, t);
    ghost var g := Joined(p.up, pt);
    TwoUp(tree, p, t);
    assert Supports(p.up, h);
    var par := parent;
    next := elm;
    if Child(parent, Other(s)) == elm {
      InnerFits(pt, s, h);
      WithKidOrder(g, s, Rotated(pt, s));
      var _ := tree.RotateKid(parent, s, s, p.up.up, g);
      par, next := elm, parent;
      g := WithKid(g, s, Rotated(pt, s));
    }
    p', t' := Settle(tree, par, gparent, s, p.up.up, g, h);
  }

  /** RB_INSERT_COLOR: `elm`, in focus, is red; all else is balanced. */
  method InsertColor(tree: RbTree, elm0: RbNode, ghost p0: Path, ghost t0: Tree, ghost h0: nat)
    requires Climbing(tree, p0, t0, h0) && t0.n == elm0 && Sorted(Line(p0, t0))
    modifies tree, Everything(p0, t0)
    ensures tree.Valid() && Elements(tree.shape) == Everything(p0, t0) && Inorder(tree.shape) == Line(p0, t0)
  {
    hide RbTree.Zipped, Elements, Around, Balanced, Inorder, Before, After, Supports, Sorted;
    var elm := elm0;
    ghost var p, t, h := p0, t0, h0;
    FamilyOf(tree, p, t);
    while elm.parent != null && elm.parent.red
      invariant Climbing(tree, p, t, h) && t.n == elm
      invariant Everything(p, t) == Everything(p0, t0) && Line(p, t) == Line(p0, t0)
      invariant elm.parent == Above(p) && (p.Frame? ==> p.n.red == p.red)
      decreases Depth(p)
    {
      elm, p, t, h := InsertStep(tree, elm, p, t, h);
      FamilyOf(tree, p, t);
    }
    Blacken(tree, p, t, h);
  }

  lemma FamilyOf(tree: RbTree, p: Path, t: Tree)
    requires exists h: nat :: Climbing(tree, p, t, h)
    ensures t.Node? && t.n.parent == Above(p) && (p.Frame? ==> p.n.red == p.red)
  {
    Family(tree, p, t);
  }

  /** One turn of the loop of RB_INSERT_COLOR. */
  method InsertStep(tree: RbTree, elm: RbNode, ghost p: Path, ghost t: Tree, ghost h: nat)
    returns (next: RbNode, ghost p': Path, ghost t': Tree, ghost h': nat)
    requires Climbing(tree, p, t, h) && t.n == elm && p.Frame? && p.red && elm.parent == p.n
    modifies tree`root, Everything(p, t)
    ensures Climbing(tree, p', t', h') && t'.n == next && Depth(p') < Depth(p)
    ensures Everything(p', t') == Everything(p, t) && Line(p', t') == Line(p, t)
  {
    hide RbTree.Zipped, Elements, Around, Balanced, Inorder, Before, After;
    Family(tree, p, t);
    var parent := elm.parent;
    var gparent := parent.parent;
    var s := if parent == gparent.left then Left else Right;
    var tmp := Child(gparent, Other(s));
    if tmp != null && tmp.red {
      p', t' := Recolor(tree, parent, gparent, tmp, s, p, t, h);
      next, h' := gparent, h + 1;
    } else {
      next, p', t' := Rebalance(tree, elm, parent, gparent, s, p, t, h);
      h' := h;
    }
  }

  /** The last line of RB_INSERT_COLOR makes the root black, which costs no balance. */
  method Blacken(tree: RbTree, ghost p: Path, ghost t: Tree, ghost h: nat)
    requires Climbing(tree, p, t, h) && !RedAbove(p) && Sorted(Line(p, t))
    modifies tree, Everything(p, t)
    ensures tree.Valid() && Elements(tree.shape) == Everything(p, t) && Inorder(tree.shape) == Line(p, t)
  {
    hide RbTree.Zipped, Elements, Around, Inorder, Before, After, Sorted, Line;
    ghost var whole := Plug(p, t);
    tree.ZipUp(p, t);
    PlugOrder(p, t);
    PlugElements(p, t);
    PlugBalanced(p, t, h);
    RootOf(tree, whole);
    tree.Paint(tree.root, false, Root, whole);
    tree.shape := Painted(whole, false);
    PaintedOrder(whole, false);
    BalancedAt(tree.shape, if p.Root? then h + 1 else WholeHeight(p, h));
  }

  lemma RootOf(tree: RbTree, t: Tree)
    requires tree.Zipped(Root, t)
    ensures tree.root == Top(t) && Around(Root) == {} && (t.Node? ==> t.n in Elements(t))
  {
  }

  /** Hangs the new red node where the search ended. */
  method Attach(tree: RbTree, elm: RbNode, parent: RbNode?, comp: int, ghost p: Path)
    requires tree.Zipped(p, Leaf) && elm !in Around(p) && parent == Above(p)
    requires p.Frame? ==> (comp < 0 <==> p.side == Left)
    modifies tree`root, elm, Around(p)
    ensures tree.Zipped(p, Node(true, Leaf, elm, Leaf))
  {
    assert allocated(Around(p));
    AboveIn(p);
    elm.parent, elm.left, elm.right, elm.red := parent, null, null, true;
    assert tree.Hung(p, null);
    if parent != null {
      assert allocated(Elements(p.sib)) && allocated(Around(p.up));
      if comp < 0 {
        parent.left := elm;
      } else {
        parent.right := elm;
      }
    } else {
      tree.root := elm;
    }
    assert tree.Hung(p, elm);
    NewLeaf(elm, parent);
  }

  lemma NewLeaf(elm: RbNode, parent: RbNode?)
    requires elm.parent == parent && elm.left == elm.right == null && elm.red
    ensures var t := Node(true, Leaf, elm, Leaf); Linked(t, parent) && Proper(t) && Elements(t) == {elm}
  {
  }

  lemma AboveIn(p: Path)
    ensures p.Frame? ==> Above(p) in Around(p) && (ProperPath(p) ==> Above(p) !in Around(p.up) && Above(p) !in Elements(p.sib))
  {
  }

  /** What the search knows: the key belongs in the place in focus. */
  predicate Belongs(p: Path, key: int)
  {
    AllBelow(Before(p), key) && AllAbove(After(p), key)
  }

  lemma BelongsBelow(p: Path, t: Tree, s: Side, key: int)
    requires t.Node? && Sorted(Line(p, t)) && Belongs(p, key)
    requires if s == Left then key < t.n.key else t.n.key < key
    ensures var q := Frame(p, t.red, t.n, s, Kid(t, Other(s)));
      && Belongs(q, key) && Line(q, Kid(t, s)) == Line(p, t) && Joined(q, Kid(t, s)) == t
  {
    hide Line, Sorted;
    var q := Frame(p, t.red, t.n, s, Kid(t, Other(s)));
    Remade(t, s);
    LineUp(q, Kid(t, s));
    var a, b := Before(p) + Inorder(t.left), Inorder(t.right) + After(p);
    LineAt(p, t);
    SortedAround(a, t.n, b);
    if s == Left {
      assert After(q) == [t.n] + b;
      AboveMore(t.n, b, key);
    } else {
      assert Before(q) == a + [t.n];
      BelowMore(a, t.n, key);
    }
  }

  lemma LineAt(p: Path, t: Tree)
    requires t.Node?
    ensures Line(p, t) == (Before(p) + Inorder(t.left)) + [t.n] + (Inorder(t.right) + After(p))
  {
  }

  lemma AboveMore(n: RbNode, b: seq<RbNode>, key: int)
    requires key < n.key && AllAbove(b, n.key)
    ensures AllAbove([n] + b, key)
  {
  }

  lemma BelowMore(a: seq<RbNode>, n: RbNode, key: int)
    requires n.key < key && AllBelow(a, n.key)
    ensures AllBelow(a + [n], key)
  {
  }

  /** Nothing in the tree has the key of an empty place. */
  lemma NotThere(p: Path, key: int, n: RbNode)
    requires Belongs(p, key) && n in Around(p)
    ensures n.key != key
  {
    PlugElements(p, Leaf);
    PlugOrder(p, Leaf);
    InorderElements(Plug(p, Leaf), n);
    assert n in Before(p) || n in After(p);
  }

  lemma {:induction false} PlugSupports(p: Path, t: Tree, h: nat, root: nat)
    requires Balanced(Plug(p, t), root) && !IsRed(Plug(p, t))
    requires h == BlackHeight(t)
    ensures Balanced(t, h) && Supports(p, h) && !(IsRed(t) && RedAbove(p))
    decreases p
  {
    if p.Frame? {
      var j := Joined(p, t);
      PlugSupports(p.up, j, BlackHeight(j), root);
      MadeBalanced(p.red, p.side, t, p.n, p.sib, BlackHeight(j));
      BalancedAt(t, if p.red then BlackHeight(j) else BlackHeight(j) - 1);
      assert !p.red ==> BlackHeight(j) == h + 1;
      if p.up.Root? {
        assert j == Plug(p, t);
      }
    } else {
      BalancedAt(t, root);
    }
  }

  /** Where the search loop of RB_INSERT and RB_FIND has got to. */
  ghost predicate Searching(tree: RbTree, key: int, tmp: RbNode?, p: Path, t: Tree)
    reads tree, Around(p), Elements(t)
  {
    && tree.Zipped(p, t) && tmp == Top(t) && Belongs(p, key) && Sorted(Line(p, t))
    && Plug(p, t) == tree.shape && Everything(p, t) == Elements(tree.shape)
  }

  lemma SearchDown(tree: RbTree, key: int, tmp: RbNode, p: Path, t: Tree, s: Side)
    requires Searching(tree, key, tmp, p, t)
    requires if s == Left then key < tmp.key else tmp.key < key
    ensures t.Node? && t.n == tmp && tmp in Elements(tree.shape)
    ensures Searching(tree, key, Child(tmp, s), Frame(p, t.red, tmp, s, Kid(t, Other(s))), Kid(t, s))
  {
    BelongsBelow(p, t, s, key);
    tree.Down(p, t, s);
    LinkedKids(t, Above(p), s);
  }

  lemma SearchStart(tree: RbTree, key: int)
    requires tree.Valid()
    ensures Searching(tree, key, tree.root, Root, tree.shape)
  {
    assert Line(Root, tree.shape) == Inorder(tree.shape);
  }

  /** The search of RB_FIND and RB_INSERT: to the node with the key, or to the place for it. */
  method Search(tree: RbTree, key: int) returns (tmp: RbNode?, parent: RbNode?, comp: int, ghost p: Path, ghost t: Tree)
    requires tree.Valid()
    ensures Searching(tree, key, tmp, p, t) && parent == Above(p)
    ensures p.Frame? && tmp == null ==> (comp < 0 <==> p.side == Left)
    ensures tmp == null || (tmp.key == key && tmp in Elements(tree.shape))
    ensures tmp == null ==> t.Leaf? && forall n :: n in Elements(tree.shape) ==> n.key != key
  {
    hide RbTree.Zipped, Belongs, Sorted, Line, Plug, Everything, Elements, Around;
    p, t := Root, tree.shape;
    tmp, parent, comp := tree.root, null, 0;
    SearchStart(tree, key);
    while tmp != null
      invariant Searching(tree, key, tmp, p, t) && parent == Above(p)
      invariant p.Frame? ==> (comp < 0 <==> p.side == Left)
      decreases t
    {
      var next := tmp;
      comp := key - next.key;
      if comp < 0 {
        SearchDown(tree, key, next, p, t, Left);
        p, t := Frame(p, t.red, next, Left, Kid(t, Right)), Kid(t, Left);
        parent, tmp := next, next.left;
      } else if comp > 0 {
        SearchDown(tree, key, next, p, t, Right);
        p, t := Frame(p, t.red, next, Right, Kid(t, Left)), Kid(t, Right);
        parent, tmp := next, next.right;
      } else {
        TopWithin(p, t);
        return;
      }
    }
    TopWithin(p, t);
    forall n | n in Elements(tree.shape) ensures n.key != key {
      NotThere(p, key, n);
    }
  }

  /** RB_FIND */
  method Find(tree: RbTree, key: int) returns (r: RbNode?)
    requires tree.Valid()
    ensures r != null ==> r in Elements(tree.shape) && r.key == key
    ensures r == null ==> forall n :: n in Elements(tree.shape) ==> n.key != key
  {
    var parent, comp;
    ghost var p, t;
    r, parent, comp, p, t := Search(tree, key);
  }

  lemma TopWithin(p: Path, t: Tree)
    ensures t.Node? ==> t.n in Everything(p, t)
    ensures t.Leaf? ==> Everything(p, t) == Around(p)
  {
  }

  /**
    RB_INSERT: adds the node unless its key is there, in which case the node
    that has it is returned and nothing changes.
   */
  method Insert(tree: RbTree, elm: RbNode) returns (r: RbNode?)
    requires tree.Valid() && elm !in Elements(tree.shape)
    modifies tree, Elements(tree.shape), elm
    ensures tree.Valid()
    ensures r == null <==> forall n :: n in old(Elements(tree.shape)) ==> n.key != elm.key
    ensures r == null ==> Elements(tree.shape) == old(Elements(tree.shape)) + {elm}
    ensures r != null ==> r in Elements(tree.shape) && r.key == elm.key && tree.shape == old(tree.shape)
  {
    hide RbTree.Zipped, Belongs, Sorted, Line, Plug, Everything, Elements, Around, Supports, Balanced, IsRed;
    assert allocated(Elements(tree.shape));
    var tmp, parent, comp;
    ghost var p, t;
    tmp, parent, comp, p, t := Search(tree, elm.key);
    if tmp != null {
      return tmp;
    }
    TopWithin(p, Leaf);
    PlugSupports(p, Leaf, 0, BlackHeight(tree.shape));
    Attach(tree, elm, parent, comp, p);
    InsertedLine(p, elm);
    LeafClimbs(tree, elm, p);
    InsertColor(tree, elm, p, Node(true, Leaf, elm, Leaf), 0);
    r := null;
  }

  lemma LeafClimbs(tree: RbTree, elm: RbNode, p: Path)
    requires tree.Zipped(p, Node(true, Leaf, elm, Leaf)) && Supports(p, 0)
    ensures Climbing(tree, p, Node(true, Leaf, elm, Leaf), 0)
  {
  }

  lemma InsertedLine(p: Path, elm: RbNode)
    requires Belongs(p, elm.key) && Sorted(Line(p, Leaf))
    ensures var t := Node(true, Leaf, elm, Leaf);
      Sorted(Line(p, t)) && Everything(p, t) == Around(p) + {elm}
  {
    assert Line(p, Leaf) == Before(p) + After(p);
    SortedInsert(Before(p), elm, After(p));
    assert Elements(Node(true, Leaf, elm, Leaf)) == {elm};
    assert Line(p, Node(true, Leaf, elm, Leaf)) == Before(p) + [elm] + After(p);
  }
}
