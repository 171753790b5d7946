/**
  RB_NEXT walks a tree in order, and no walk down a tree is longer than
  2 lg (n + 1).
 */
module RbOrder {
  import opened Powers
  import opened Sides
  import opened RbShapes
  import opened RbPointers
  import opened RbInsert
  import opened RbRemove

  /** The links around a node tell which child it is. */
  lemma WhichChild(tree: RbTree, p: Path, t: Tree)
    requires tree.Zipped(p, t) && t.Node?
    ensures t.n.parent == Above(p)
    ensures p.Frame? ==> (t.n == p.n.left <==> p.side == Left) && (t.n == p.n.right <==> p.side == Right)
  {
    if p.Frame? && p.sib.Node? {
      assert p.sib.n in Elements(p.sib) && t.n in Elements(t);
    }
  }

  /** The climb of RB_NEXT: up while the node is a right child, and once more. */
  method Climb(tree: RbTree, start: RbNode, ghost p0: Path, ghost t0: Tree) returns (r: RbNode?)
    requires tree.Zipped(p0, t0) && t0.Node? && t0.n == start
    ensures r == if After(p0) == [] then null else After(p0)[0]
  {
    hide RbTree.Zipped, Elements, Around, Inorder, Before;
    var elm := start;
    ghost var p, t := p0, t0;
    WhichChild(tree, p, t);
    while elm.parent != null && elm == elm.parent.right
      invariant tree.Zipped(p, t) && t.Node? && t.n == elm && After(p) == After(p0)
      invariant elm.parent == Above(p) && (p.Frame? ==> (elm == p.n.right <==> p.side == Right))
      decreases p
    {
      FocusParent(tree, p, t);
      p, t := p.up, Joined(p, t);
      elm := elm.parent;
      WhichChild(tree, p, t);
    }
    r := elm.parent;
  }

  /** RB_NEXT: the element after this one in search order, or null after the last. */
  method Next(tree: RbTree, elm: RbNode) returns (r: RbNode?, ghost i: nat)
    requires tree.Valid() && elm in Elements(tree.shape)
    ensures var line := Inorder(tree.shape);
      i < |line| && line[i] == elm && r == if i + 1 < |line| then line[i + 1] else null
  {
    hide RbTree.Zipped, Elements, Around, Inorder, Before, After, Plug, Line;
    ghost var p, t := Locate(tree, Root, tree.shape, elm);
    WholePlace(tree);
    LeftLink(tree, p, t);
    LineAt(p, t);
    ghost var a, b := Before(p) + Inorder(t.left), Inorder(t.right) + After(p);
    i := |a|;
    assert (a + [elm] + b)[i] == elm && (b != [] ==> (a + [elm] + b)[i + 1] == b[0]);
    if elm.right != null {
      FocusKid(tree, p, t, Right);
      LeastOrder(t.right);
      r := FindLeast(tree, elm.right, Frame(p, t.red, t.n, Right, t.left), t.right);
    } else {
      NoElements(t.right);
      r := Climb(tree, elm, p, t);
    }
  }

  lemma NoElements(t: Tree)
    requires t.Leaf?
    ensures Inorder(t) == []
  {
  }

  /** A balanced tree has many elements for its black height, and few levels. */
  lemma {:induction false} BalancedSize(t: Tree, h: nat)
    requires Balanced(t, h)
    ensures Pow2(h) <= |Inorder(t)| + 1
    ensures Height(t) <= 2 * h + if IsRed(t) then 1 else 0
  {
    if t.Node? {
      var k := if t.red then h else h - 1;
      BalancedSize(t.left, k);
      BalancedSize(t.right, k);
    }
  }

  /** The height of a red-black tree of n elements is at most 2 lg (n + 1). */
  lemma HeightBound(tree: RbTree)
    requires tree.Valid()
    ensures var n := |Inorder(tree.shape)|;
      Pow2(Height(tree.shape)) <= (n + 1) * (n + 1)
  {
    hide RbTree.Zipped, Sorted, Balanced, Pow2;
    var h, n := BlackHeight(tree.shape), |Inorder(tree.shape)|;
    BalancedSize(tree.shape, h);
    Pow2Monotone(Height(tree.shape), 2 * h);
    Pow2Add(h, h);
    MulLe(Pow2(h), Pow2(h), n + 1);
    MulLe(n + 1, Pow2(h), n + 1);
  }
}
