/**
  RB_REMOVE and RB_REMOVE_COLOR: a node is taken out, and where that leaves one
  way down a black node short, the shortage is moved up or settled.
 */
module RbRemove {
  import opened Sides
  import opened RbShapes
  import opened RbPointers
  import opened RbInsert

  /** A tree that can be brought to black height `h + 1` by blackening its root, or has height `h`. */
  predicate Short(t: Tree, h: nat)
  {
    if IsRed(t) then Balanced(Painted(t, false), h + 1) else Balanced(t, h)
  }

  /** The tree in focus is one black node short of what its place wants. */
  ghost predicate Lacking(tree: RbTree, p: Path, t: Tree, h: nat)
    reads tree`root, Around(p), Elements(t)
  {
    tree.Zipped(p, t) && Short(t, h) && Supports(p, h + 1)
  }

  lemma SupportsFrame(p: Path, h: nat)
    requires p.Frame?
    ensures Supports(p, h) <==>
      if p.red then !IsRed(p.sib) && p.up.Frame? && !p.up.red && Balanced(p.sib, h) && Supports(p.up, h)
      else Balanced(p.sib, h) && Supports(p.up, h + 1)
  {
  }

  /** The parent in focus, from its child. */
  lemma FocusParent(tree: RbTree, p: Path, t: Tree)
    requires tree.Zipped(p, t) && p.Frame?
    ensures var g := Joined(p, t);
      && tree.Zipped(p.up, g) && g.Node? && g.n == p.n && g.red == p.red && Kid(g, p.side) == t && Kid(g, Other(p.side)) == p.sib
      && Everything(p.up, g) == Everything(p, t) && Line(p.up, g) == Line(p, t)
  {
    hide RbTree.Zipped, Elements, Around;
    tree.Up(p, t);
    LineUp(p, t);
  }

  /** A child in focus, from its parent. */
  lemma FocusKid(tree: RbTree, p: Path, t: Tree, s: Side)
    requires tree.Zipped(p, t) && t.Node?
    ensures var q := Frame(p, t.red, t.n, s, Kid(t, Other(s)));
      && tree.Zipped(q, Kid(t, s)) && Everything(q, Kid(t, s)) == Everything(p, t) && Line(q, Kid(t, s)) == Line(p, t)
  {
    hide RbTree.Zipped, Elements, Around;
    var q := Frame(p, t.red, t.n, s, Kid(t, Other(s)));
    tree.Down(p, t, s);
    Remade(t, s);
    LineUp(q, Kid(t, s));
  }

  lemma Within(p: Path, t: Tree)
    ensures t.Node? ==> t.n in Everything(p, t)
    ensures t.Node? && t.left.Node? ==> t.left.n in Everything(p, t)
    ensures t.Node? && t.right.Node? ==> t.right.n in Everything(p, t)
  {
    if t.Node? {
      assert t.left.Node? ==> t.left.n in Elements(t.left);
      assert t.right.Node? ==> t.right.n in Elements(t.right);
    }
  }

  lemma WithinKid(p: Path, t: Tree, s1: Side, s2: Side)
    requires t.Node? && Kid(t, s1).Node? && Kid(Kid(t, s1), s2).Node?
    ensures Kid(Kid(t, s1), s2).n in Everything(p, t)
  {
    assert Kid(Kid(t, s1), s2).n in Elements(Kid(Kid(t, s1), s2));
    assert Kid(Kid(t, s1), s2).n in Elements(Kid(t, s1));
  }

  /** A red sibling: recolour and rotate, so that the sibling is black. */
  method RedSibling(tree: RbTree, parent: RbNode, tmp: RbNode, s: Side, ghost p: Path, ghost t: Tree, ghost h: nat)
    returns (ghost p': Path)
    requires Lacking(tree, p, t, h) && p.Frame? && IsRed(p.sib) && parent == p.n && tmp == p.sib.n && s == p.side
    modifies tree`root, Everything(p, t)
    ensures Lacking(tree, p', t, h) && p'.Frame? && p'.n == parent && p'.side == s && p'.red
    ensures Everything(p', t) == Everything(p, t) && Line(p', t) == Line(p, t)
  {
    hide RbTree.Zipped, Elements, Around, Inorder, Before, After, Balanced, Supports, Short;
    ghost var g, u := Joined(p, t), p.sib;
    FocusParent(tree, p, t);
    Within(p.up, g);
    SupportsFrame(p, h + 1);
    Remade(u, s);
    MadeBalanced(true, s, Kid(u, s), u.n, Kid(u, Other(s)), h + 1);
    tree.PaintKid(tmp, false, Other(s), p.up, g);
    ghost var g1 := WithKid(g, Other(s), Painted(u, false));
    tree.Paint(parent, true, p.up, g1);
    ghost var g2 := Painted(g1, true);
    PaintedOrder(u, false);
    WithKidOrder(g, Other(s), Painted(u, false));
    PaintedOrder(g1, true);
    RotatedElements(g2, s);
    RotatedOrder(g2, s);
    var _ := tree.Rotate(parent, s, p.up, g2);
    ghost var r := Rotated(g2, s);
    FocusKid(tree, p.up, r, s);
    ghost var q := Frame(p.up, r.red, r.n, s, Kid(r, Other(s)));
    FocusKid(tree, q, Kid(r, s), s);
    p' := Frame(q, true, parent, s, Kid(u, s));
    SupportsFrame(q, h + 1);
    SupportsFrame(p', h + 1);
  }

  /** A black sibling with black children turns red, and the shortage moves up to the parent. */
  method RecolorSibling(tree: RbTree, parent: RbNode, tmp: RbNode, s: Side, ghost p: Path, ghost t: Tree, ghost h: nat)
    returns (ghost t': Tree, ghost h': nat)
    requires Lacking(tree, p, t, h) && !IsRed(t) && p.Frame? && p.sib.Node? && !p.sib.red
    requires parent == p.n && tmp == p.sib.n && s == p.side
    requires !IsRed(p.sib.left) && !IsRed(p.sib.right)
    modifies Everything(p, t)
    ensures Lacking(tree, p.up, t', h') && t'.Node? && t'.n == parent && t'.red == p.red
    ensures Everything(p.up, t') == Everything(p, t) && Line(p.up, t') == Line(p, t)
  {
    hide RbTree.Zipped, Elements, Around, Inorder, Before, After, Balanced, Supports;
    ghost var g, u := Joined(p, t), p.sib;
    FocusParent(tree, p, t);
    Within(p.up, g);
    SupportsFrame(p, h + 1);
    tree.PaintKid(tmp, true, Other(s), p.up, g);
    t' := WithKid(g, Other(s), Painted(u, true));
    PaintedOrder(u, true);
    WithKidOrder(g, Other(s), Painted(u, true));
    Remade(u, s);
    MadeBalanced(false, s, Kid(u, s), u.n, Kid(u, Other(s)), h + 1);
    Remade(Painted(u, true), s);
    MadeBalanced(true, s, Kid(u, s), u.n, Kid(u, Other(s)), h);
    MadeBalanced(false, s, t, parent, Painted(u, true), h + 1);
    Remade(t', s);
    Remade(Painted(t', false), s);
    h' := if p.red then h else h + 1;
  }

  /** A black sibling whose red child is near: a rotation there makes it the far one. */
  method TurnSibling(tree: RbTree, tmp: RbNode, near: RbNode, s: Side, ghost p: Path, ghost t: Tree, ghost h: nat)
    returns (ghost p': Path)
    requires Lacking(tree, p, t, h) && p.Frame? && p.sib.Node? && !p.sib.red && s == p.side
    requires tmp == p.sib.n && IsRed(Kid(p.sib, s)) && near == Kid(p.sib, s).n && !IsRed(Kid(p.sib, Other(s)))
    modifies tree`root, Everything(p, t)
    ensures Lacking(tree, p', t, h) && p'.Frame? && p'.up == p.up && p'.red == p.red && p'.n == p.n && p'.side == s
    ensures p'.sib.Node? && !p'.sib.red && IsRed(Kid(p'.sib, Other(s)))
    ensures Everything(p', t) == Everything(p, t) && Line(p', t) == Line(p, t)
  {
    hide RbTree.Zipped, Elements, Around, Inorder, Before, After, Balanced, Supports, Short;
    ghost var g, u := Joined(p, t), p.sib;
    FocusParent(tree, p, t);
    FocusKid(tree, p.up, g, Other(s));
    ghost var q := Frame(p.up, g.red, g.n, Other(s), Kid(g, s));
    Within(q, u);
    SupportsFrame(p, h + 1);
    tree.PaintKid(near, false, s, q, u);
    ghost var u1 := WithKid(u, s, Painted(Kid(u, s), false));
    tree.Paint(tmp, true, q, u1);
    ghost var u2 := Painted(u1, true);
    RotatedElements(u2, Other(s));
    var _ := tree.Rotate(tmp, Other(s), q, u2);
    ghost var r := Rotated(u2, Other(s));
    TurnFits(u, s, h);
    FocusParent(tree, q, r);
    ghost var g' := Joined(q, r);
    FocusKid(tree, p.up, g', s);
    p' := p.(sib := r);
    SupportsFrame(p', h + 1);
  }

  lemma TurnFits(u: Tree, s: Side, h: nat)
    requires u.Node? && !u.red && IsRed(Kid(u, s)) && !IsRed(Kid(u, Other(s))) && Balanced(u, h + 1)
    ensures var r := Rotated(Painted(WithKid(u, s, Painted(Kid(u, s), false)), true), Other(s));
      && !r.red && IsRed(Kid(r, Other(s))) && Balanced(r, h + 1) && Inorder(r) == Inorder(u)
  {
    hide Balanced;
    var k := Kid(u, s);
    var u1 := WithKid(u, s, Painted(k, false));
    var r := Rotated(Painted(u1, true), Other(s));
    Remade(u, s);
    MadeBalanced(false, s, k, u.n, Kid(u, Other(s)), h + 1);
    Remade(k, s);
    MadeBalanced(true, s, Kid(k, s), k.n, Kid(k, Other(s)), h);
    MadeBalanced(true, Other(s), Kid(u, Other(s)), u.n, Kid(k, Other(s)), h);
    MadeBalanced(false, Other(s), Kid(r, Other(s)), k.n, Kid(k, s), h + 1);
    PaintedOrder(k, false);
    WithKidOrder(u, s, Painted(k, false));
    PaintedOrder(u1, true);
    RotatedOrder(Painted(u1, true), Other(s));
  }

  /** A far red child: a rotation at the parent supplies the missing black node. */
  function Supplied(g: Tree, s: Side): Tree
    requires g.Node? && Kid(g, Other(s)).Node? && Kid(Kid(g, Other(s)), Other(s)).Node?
  {
    var u := Kid(g, Other(s));
    Rotated(SuppliedColors(g, s), s)
  }

  function SuppliedColors(g: Tree, s: Side): (r: Tree)
    requires g.Node? && Kid(g, Other(s)).Node? && Kid(Kid(g, Other(s)), Other(s)).Node?
    ensures r.Node? && Kid(r, Other(s)).Node?
  {
    var u := Painted(Kid(g, Other(s)), g.red);
    var g1 := Painted(WithKid(g, Other(s), u), false);
    WithKid(g1, Other(s), WithKid(u, Other(s), Painted(Kid(u, Other(s)), false)))
  }

  lemma SuppliedFits(g: Tree, s: Side, h: nat)
    requires g.Node? && Balanced(Kid(g, s), h)
    requires var u := Kid(g, Other(s));
      u.Node? && !u.red && Balanced(u, h + 1) && IsRed(Kid(u, Other(s)))
    ensures var r := Supplied(g, s);
      r.red == g.red && Balanced(r, if g.red then h + 1 else h + 2) && Inorder(r) == Inorder(g)
  {
    hide Balanced;
    var u := Kid(g, Other(s));
    var far := Kid(u, Other(s));
    var r := Supplied(g, s);
    Remade(u, s);
    MadeBalanced(false, s, Kid(u, s), u.n, far, h + 1);
    Remade(far, s);
    MadeBalanced(true, s, Kid(far, s), far.n, Kid(far, Other(s)), h);
    Remade(Painted(far, false), s);
    MadeBalanced(false, s, Kid(far, s), far.n, Kid(far, Other(s)), h + 1);
    MadeBalanced(false, s, Kid(g, s), g.n, Kid(u, s), h + 1);
    MadeBalanced(g.red, s, Kid(r, s), u.n, Painted(far, false), if g.red then h + 1 else h + 2);
    SuppliedOrder(g, s);
  }

  lemma SuppliedOrder(g: Tree, s: Side)
    requires g.Node? && Kid(g, Other(s)).Node? && Kid(Kid(g, Other(s)), Other(s)).Node?
    ensures Inorder(Supplied(g, s)) == Inorder(g)
    ensures Elements(Supplied(g, s)) == Elements(g)
  {
    hide Inorder, Elements;
    var u := Painted(Kid(g, Other(s)), g.red);
    var far := Painted(Kid(u, Other(s)), false);
    var g1 := Painted(WithKid(g, Other(s), u), false);
    PaintedKeeps(Kid(g, Other(s)), g.red);
    WithKidKeeps(g, Other(s), u);
    PaintedKeeps(WithKid(g, Other(s), u), false);
    PaintedKeeps(Kid(u, Other(s)), false);
    WithKidKeeps(u, Other(s), far);
    WithKidKeeps(g1, Other(s), WithKid(u, Other(s), far));
    RotatedOrder(SuppliedColors(g, s), s);
    RotatedElements(SuppliedColors(g, s), s);
  }

  lemma PaintedKeeps(t: Tree, red: bool)
    requires t.Node?
    ensures Inorder(Painted(t, red)) == Inorder(t) && Elements(Painted(t, red)) == Elements(t)
  {
  }

  lemma WithKidKeeps(t: Tree, s: Side, kid: Tree)
    requires t.Node? && Inorder(kid) == Inorder(Kid(t, s)) && Elements(kid) == Elements(Kid(t, s))
    ensures Inorder(WithKid(t, s, kid)) == Inorder(t) && Elements(WithKid(t, s, kid)) == Elements(t)
  {
  }

  method Supply(tree: RbTree, parent: RbNode, tmp: RbNode, far: RbNode, s: Side, ghost p: Path, ghost t: Tree, ghost h: nat)
    returns (ghost r: Tree, ghost h': nat)
    requires Lacking(tree, p, t, h) && !IsRed(t) && p.Frame? && p.sib.Node? && !p.sib.red && IsRed(Kid(p.sib, Other(s)))
    requires parent == p.n && tmp == p.sib.n && far == Kid(p.sib, Other(s)).n && s == p.side
    requires parent.red == p.red
    modifies tree`root, Everything(p, t)
    ensures tree.Zipped(p.up, r) && Balanced(r, h') && Supports(p.up, h') && !(IsRed(r) && RedAbove(p.up))
    ensures r.Node? && (p.up.Root? ==> !r.red)
    ensures Everything(p.up, r) == Everything(p, t) && Line(p.up, r) == Line(p, t)
  {
    hide RbTree.Zipped, Elements, Around, Inorder, Before, After, Balanced, Supports;
    ghost var g, u := Joined(p, t), p.sib;
    FocusParent(tree, p, t);
    Within(p.up, g);
    WithinKid(p.up, g, Other(s), Other(s));
    SupportsFrame(p, h + 1);
    tree.PaintKid(tmp, parent.red, Other(s), p.up, g);
    ghost var g1 := WithKid(g, Other(s), Painted(u, p.red));
    tree.Paint(parent, false, p.up, g1);
    ghost var g2 := Painted(g1, false);
    tree.PaintGrandkid(far, false, Other(s), Other(s), p.up, g2);
    ghost var g3 := SuppliedColors(g, s);
    assert g3 == WithKid(g2, Other(s), WithKid(Kid(g2, Other(s)), Other(s), Painted(Kid(Kid(g2, Other(s)), Other(s)), false)));
    var _ := tree.Rotate(parent, s, p.up, g3);
    r := Supplied(g, s);
    SuppliedFits(g, s, h);
    SuppliedOrder(g, s);
    h' := if p.red then h + 1 else h + 2;
  }

  /** What the links tell about the sibling and its children. */
  lemma SiblingLinks(tree: RbTree, p: Path, t: Tree)
    requires tree.Zipped(p, t) && p.Frame? && p.sib.Node?
    ensures (p.n.left == Top(t) <==> p.side == Left) && p.n.red == p.red && p.n.parent == Above(p.up)
    ensures Child(p.n, Other(p.side)) == p.sib.n && p.sib.n.red == p.sib.red
    ensures p.sib.n.left == Top(p.sib.left) && p.sib.n.right == Top(p.sib.right)
    ensures p.sib.left.Node? ==> p.sib.left.n.red == p.sib.left.red
    ensures p.sib.right.Node? ==> p.sib.right.n.red == p.sib.right.red
  {
    assert p.sib.n in Elements(p.sib);
    assert Linked(p.sib.left, p.sib.n) && Linked(p.sib.right, p.sib.n);
    if t.Node? { assert t.n in Elements(t); }
  }

  lemma TopLinks(tree: RbTree, p: Path, t: Tree)
    requires tree.Zipped(p, t)
    ensures t.Node? ==> t.n.red == t.red && t.n.parent == Above(p)
    ensures p.Root? ==> tree.root == Top(t)
    ensures p.Frame? ==> tree.root != Top(t)
  {
    if p.Frame? {
      RootAround(tree, p, Top(t));
      if t.Node? { assert t.n in Elements(t); }
    }
  }

  lemma {:induction false} RootAround(tree: RbTree, p: Path, hole: RbNode?)
    requires tree.Hung(p, hole) && p.Frame?
    ensures tree.root != null && tree.root in Around(p)
    decreases p
  {
    if p.up.Frame? {
      RootAround(tree, p.up, p.n);
    }
  }

  /** The shortage is made good: the whole tree is balanced again. */
  ghost predicate Mended(tree: RbTree, p: Path, t: Tree, h: nat)
    reads tree`root, Around(p), Elements(t)
  {
    && tree.Zipped(p, t) && Balanced(t, h) && Supports(p, h) && !(IsRed(t) && RedAbove(p))
    && (p.Root? ==> !IsRed(t))
  }

  function Urgency(p: Path, t: Tree): nat
  {
    if IsRed(t) then 0 else Depth(p) + 1
  }

  /** A sibling of a place that lacks a black node is there. */
  lemma SiblingThere(p: Path, h: nat)
    requires p.Frame? && Supports(p, h + 1)
    ensures p.sib.Node?
  {
  }

  lemma BlackSibling(p: Path, h: nat)
    requires p.Frame? && Supports(p, h + 1) && p.red
    ensures p.sib.Node? && !p.sib.red
  {
  }

  /** One turn of the loop of RB_REMOVE_COLOR; `done` where the source breaks out. */
  method RemoveStep(tree: RbTree, parent: RbNode, elm: RbNode?, ghost p0: Path, ghost t0: Tree, ghost h0: nat)
    returns (done: bool, next: RbNode?, up: RbNode?, ghost p: Path, ghost t: Tree, ghost h: nat)
    requires Lacking(tree, p0, t0, h0) && !IsRed(t0) && p0.Frame? && parent == p0.n && elm == Top(t0)
    modifies tree`root, Everything(p0, t0)
    ensures Everything(p, t) == Everything(p0, t0) && Line(p, t) == Line(p0, t0)
    ensures !done ==> Lacking(tree, p, t, h) && next == Top(t) && up == Above(p) && Urgency(p, t) < Urgency(p0, t0)
    ensures done ==> Mended(tree, p, t, h) && next == tree.root
  {
    hide RbTree.Zipped, Elements, Around, Inorder, Before, After, Balanced, Supports, Line, Short;
    p, t, h := p0, t0, h0;
    SiblingThere(p, h);
    SiblingLinks(tree, p, t);
    var s := if parent.left == elm then Left else Right;
    var tmp := Child(parent, Other(s));
    ghost var turned := tmp.red;
    if tmp.red {
      p := RedSibling(tree, parent, tmp, s, p, t, h);
      BlackSibling(p, h);
      SiblingLinks(tree, p, t);
      tmp := Child(parent, Other(s));
    }
    if (tmp.left == null || !tmp.left.red) && (tmp.right == null || !tmp.right.red) {
      ghost var q := p;
      t, h := RecolorSibling(tree, parent, tmp, s, p, t, h);
      p := p.up;
      TopLinks(tree, p, t);
      done, next, up := false, parent, parent.parent;
    } else {
      if Child(tmp, Other(s)) == null || !Child(tmp, Other(s)).red {
        var oleft := Child(tmp, s);
        p := TurnSibling(tree, tmp, oleft, s, p, t, h);
        SiblingLinks(tree, p, t);
        tmp := Child(parent, Other(s));
      }
      t, h := Supply(tree, parent, tmp, Child(tmp, Other(s)), s, p, t, h);
      p := p.up;
      done, next, up := true, tree.root, parent;
    }
  }

  /** RB_REMOVE_COLOR: `elm`, perhaps null, is the root of the tree in focus and `parent` the node above. */
  method RemoveColor(tree: RbTree, parent0: RbNode?, elm0: RbNode?, ghost p0: Path, ghost t0: Tree, ghost h0: nat)
    requires Lacking(tree, p0, t0, h0) && parent0 == Above(p0) && elm0 == Top(t0) && Sorted(Line(p0, t0))
    modifies tree, Everything(p0, t0)
    ensures tree.Valid() && Elements(tree.shape) == Everything(p0, t0) && Inorder(tree.shape) == Line(p0, t0)
  {
    hide RbTree.Zipped, Elements, Around, Inorder, Before, After, Balanced, Supports, Line, Short, Sorted;
    var parent, elm := parent0, elm0;
    ghost var p, t, h := p0, t0, h0;
    var done := false;
    LackingLinks(tree, p, t, h);
    while (elm == null || !elm.red) && elm != tree.root
      invariant Everything(p, t) == Everything(p0, t0) && Line(p, t) == Line(p0, t0)
      invariant !done && Lacking(tree, p, t, h) && elm == Top(t) && parent == Above(p)
      invariant (t.Node? ==> t.n.red == t.red) && (p.Root? <==> tree.root == Top(t))
      decreases Urgency(p, t)
    {
      done, elm, parent, p, t, h := RemoveStep(tree, parent, elm, p, t, h);
      if done {
        break;
      }
      LackingLinks(tree, p, t, h);
    }
    if done {
      BlackRoot(tree, elm, p, t, h);
    } else {
      BlackTop(tree, elm, p, t, h);
    }
  }

  lemma LackingLinks(tree: RbTree, p: Path, t: Tree, h: nat)
    requires Lacking(tree, p, t, h)
    ensures (t.Node? ==> t.n.red == t.red) && (p.Root? <==> tree.root == Top(t))
  {
    TopLinks(tree, p, t);
  }

  /** After the break `elm` is the root, which is black already. */
  method BlackRoot(tree: RbTree, elm: RbNode?, ghost p: Path, ghost t: Tree, ghost h: nat)
    requires Mended(tree, p, t, h) && elm == tree.root && Sorted(Line(p, t))
    modifies tree, Everything(p, t)
    ensures tree.Valid() && Elements(tree.shape) == Everything(p, t) && Inorder(tree.shape) == Line(p, t)
  {
    hide RbTree.Zipped, Elements, Around, Inorder, Before, After, Line, Sorted;
    ghost var whole := Plug(p, t);
    tree.ZipUp(p, t);
    PlugOrder(p, t);
    PlugElements(p, t);
    PlugBalanced(p, t, h);
    RootOf(tree, whole);
    if elm != null {
      tree.Paint(elm, false, Root, whole);
    }
    tree.shape := whole;
    BalancedAt(whole, WholeHeight(p, h));
  }

  /** Without a break `elm` is red and turns black, or the shortage has reached the root. */
  method BlackTop(tree: RbTree, elm: RbNode?, ghost p: Path, ghost t: Tree, ghost h: nat)
    requires Lacking(tree, p, t, h) && elm == Top(t) && Sorted(Line(p, t)) && (IsRed(t) || p.Root?)
    modifies tree, Everything(p, t)
    ensures tree.Valid() && Elements(tree.shape) == Everything(p, t) && Inorder(tree.shape) == Line(p, t)
  {
    hide RbTree.Zipped, Elements, Around, Inorder, Before, After, Sorted;
    Within(p, t);
    ghost var t' := if t.Leaf? then t else Painted(t, false);
    ghost var h' := if IsRed(t) then h + 1 else h;
    if elm != null {
      tree.Paint(elm, false, p, t);
      PaintedOrder(t, false);
    }
    assert !IsRed(t) ==> t' == t;
    assert Balanced(t', h') && Supports(p, h') && !IsRed(t');
    tree.ZipUp(p, t');
    PlugOrder(p, t');
    PlugElements(p, t');
    PlugBalanced(p, t', h');
    ghost var whole := Plug(p, t');
    RootOf(tree, whole);
    tree.shape := whole;
    BalancedAt(tree.shape, WholeHeight(p, h'));
  }

  /** The place of a node of the tree. */
  lemma {:induction false} Locate(tree: RbTree, p: Path, t: Tree, n: RbNode) returns (q: Path, u: Tree)
    requires tree.Zipped(p, t) && n in Elements(t)
    ensures tree.Zipped(q, u) && u.Node? && u.n == n
    ensures Plug(q, u) == Plug(p, t) && Everything(q, u) == Everything(p, t) && Line(q, u) == Line(p, t)
    decreases t
  {
    hide RbTree.Zipped, Around, Line;
    if t.n == n {
      q, u := p, t;
    } else {
      var s := if n in Elements(t.left) then Left else Right;
      FocusKid(tree, p, t, s);
      Remade(t, s);
      q, u := Locate(tree, Frame(p, t.red, t.n, s, Kid(t, Other(s))), Kid(t, s), n);
    }
  }

  /** What is left of a node with at most one child. */
  function Remaining(t: Tree): Tree
    requires t.Node?
  {
    if t.left.Leaf? then t.right else t.left
  }

  /** Takes a node with at most one child out of the chain of links. */
  method Splice(tree: RbTree, elm: RbNode, child: RbNode?, ghost p: Path, ghost t: Tree)
    requires tree.Zipped(p, t) && t.Node? && t.n == elm && (t.left.Leaf? || t.right.Leaf?) && child == Top(Remaining(t))
    modifies tree`root, Everything(p, t) - {elm}
    ensures tree.Zipped(p, Remaining(t))
    ensures elm !in Everything(p, Remaining(t)) && Everything(p, Remaining(t)) == Everything(p, t) - {elm}
  {
    hide RbTree.Hung;
    ghost var k := Remaining(t);
    assert allocated(Elements(k)) && allocated(Around(p));
    tree.AboveAround(p);
    tree.TopElement(k);
    assert Elements(t) == Elements(k) + {elm};
    Adopt(child, elm.parent, k, elm);
    tree.Rehang(elm, child, p);
  }

  /** `m`, which is in no tree, takes over the links and the colour of `elm`. */
  method TakePlace(tree: RbTree, elm: RbNode, m: RbNode, ghost p: Path, ghost t: Tree)
    requires tree.Zipped(p, t) && t.Node? && t.n == elm && m !in Everything(p, t)
    modifies tree`root, Around(p), m
    ensures tree.Hung(p, m) && Linked(t.left, elm) && Linked(t.right, elm)
    ensures m.left == elm.left == Top(t.left) && m.right == elm.right == Top(t.right)
    ensures m.parent == Above(p) && m.red == t.red
  {
    hide RbTree.Hung, Linked, Proper, ProperPath, Elements, Around;
    PartsApart(tree, p, t);
    LinkedKids(t, Above(p), Left);
    assert allocated(Elements(t.left)) && allocated(Elements(t.right)) && allocated(Around(p));
    tree.AboveAround(p);
    m.left, m.right, m.parent, m.red := elm.left, elm.right, elm.parent, elm.red;
    tree.Rehang(elm, m, p);
  }

  /** The node goes out of the tree and `m` into its place. */
  method Substitute(tree: RbTree, elm: RbNode, m: RbNode, ghost p: Path, ghost t: Tree)
    requires tree.Zipped(p, t) && t.Node? && t.n == elm && t.left.Node? && m !in Everything(p, t)
    modifies tree`root, Everything(p, t), m
    ensures tree.Zipped(p, t.(n := m))
  {
    hide RbTree.Hung, Linked, Proper, ProperPath, Elements, Around;
    PartsApart(tree, p, t);
    tree.TopElement(t.left);
    tree.TopElement(t.right);
    TakePlace(tree, elm, m, p, t);
    assert allocated(Elements(t.left)) && allocated(Elements(t.right)) && allocated(Around(p));
    Adopt(elm.left, m, t.left, elm);
    Adopt(elm.right, m, t.right, elm);
    LinkedMade(t.red, Left, t.left, m, t.right, Above(p));
    MadeElements(t.red, Left, t.left, m, t.right);
  }

  lemma PartsApart(tree: RbTree, p: Path, t: Tree)
    requires tree.Zipped(p, t) && t.Node?
    ensures Proper(t.left) && Proper(t.right) && Elements(t.left) !! Elements(t.right)
    ensures t.n !in Elements(t.left) + Elements(t.right) + Around(p)
    ensures Elements(t) == Elements(t.left) + {t.n} + Elements(t.right)
  {
  }

  /** The path from a place to the least node below it, that node's subtree, and what stays without it. */
  function Leftmost(p: Path, t: Tree): Path
    requires t.Node?
    decreases t
  {
    if t.left.Leaf? then p else Leftmost(Frame(p, t.red, t.n, Left, t.right), t.left)
  }

  function Least(t: Tree): (u: Tree)
    requires t.Node?
    ensures u.Node? && u.left.Leaf?
  {
    if t.left.Leaf? then t else Least(t.left)
  }

  function WithoutLeast(t: Tree): Tree
    requires t.Node?
  {
    if t.left.Leaf? then t.right else Node(t.red, WithoutLeast(t.left), t.n, t.right)
  }

  lemma {:induction false} LeastOrder(t: Tree)
    requires t.Node?
    ensures Inorder(t) == [Least(t).n] + Inorder(WithoutLeast(t))
  {
    if t.left.Node? {
      LeastOrder(t.left);
      assert [Least(t).n] + Inorder(WithoutLeast(t.left)) + [t.n] + Inorder(t.right)
          == [Least(t).n] + (Inorder(WithoutLeast(t.left)) + [t.n] + Inorder(t.right));
    }
  }

  /** Above the least node is the place's own parent, or a node of the tree. */
  lemma {:induction false} AboveLeast(p: Path, p': Path, t: Tree)
    requires t.Node?
    ensures t.left.Leaf? ==> Leftmost(p, t) == p
    ensures t.left.Node? ==> Above(Leftmost(p, t)) == Above(Leftmost(p', t)) && Above(Leftmost(p, t)) in Elements(t)
    decreases t
  {
    if t.left.Node? {
      AboveLeast(Frame(p, t.red, t.n, Left, t.right), Frame(p', t.red, t.n, Left, t.right), t.left);
    }
  }

  /** Once the least node is out, the focus can move back up to the place... */
  lemma {:induction false} LeastUp(tree: RbTree, p: Path, t: Tree)
    requires t.Node? && tree.Zipped(Leftmost(p, t), Least(t).right)
    ensures tree.Zipped(p, WithoutLeast(t))
    ensures Everything(p, WithoutLeast(t)) == Everything(Leftmost(p, t), Least(t).right)
    decreases t
  {
    hide RbTree.Zipped, Elements, Around;
    if t.left.Node? {
      var q := Frame(p, t.red, t.n, Left, t.right);
      LeastUp(tree, q, t.left);
      FocusParent(tree, q, WithoutLeast(t.left));
    }
  }

  /** ...and down again. */
  lemma {:induction false} LeastDown(tree: RbTree, p: Path, t: Tree)
    requires t.Node? && tree.Zipped(p, WithoutLeast(t))
    ensures tree.Zipped(Leftmost(p, t), Least(t).right)
    ensures Everything(p, WithoutLeast(t)) == Everything(Leftmost(p, t), Least(t).right)
    ensures Line(p, WithoutLeast(t)) == Line(Leftmost(p, t), Least(t).right)
    decreases t
  {
    hide RbTree.Zipped, Elements, Around, Line;
    if t.left.Node? {
      FocusKid(tree, p, WithoutLeast(t), Left);
      LeastDown(tree, Frame(p, t.red, t.n, Left, t.right), t.left);
    }
  }

  /** Balance around the least node. */
  lemma {:induction false} LeastSupports(p: Path, t: Tree, h: nat)
    requires t.Node? && Balanced(t, h) && Supports(p, h) && !(IsRed(t) && RedAbove(p)) && (IsRed(t) ==> p.Frame?)
    ensures var q, u, k := Leftmost(p, t), Least(t), BlackHeight(Least(t));
      Balanced(u, k) && Supports(q, k) && !(IsRed(u) && RedAbove(q)) && (IsRed(u) ==> q.Frame?)
    decreases t
  {
    if t.left.Leaf? {
      BalancedAt(t, h);
    } else {
      LeastSupports(Frame(p, t.red, t.n, Left, t.right), t.left, if t.red then h else h - 1);
    }
  }

  /** The search for the successor: right once, then left as far as it goes. */
  method FindLeast(tree: RbTree, start: RbNode, ghost p0: Path, ghost t0: Tree) returns (elm: RbNode)
    requires tree.Zipped(p0, t0) && t0.Node? && t0.n == start
    ensures elm == Least(t0).n && tree.Zipped(Leftmost(p0, t0), Least(t0))
    ensures elm in Elements(t0)
    ensures Everything(Leftmost(p0, t0), Least(t0)) == Everything(p0, t0)
  {
    hide RbTree.Zipped, Around;
    elm := start;
    ghost var p, t := p0, t0;
    LeftLink(tree, p, t);
    while elm.left != null
      invariant tree.Zipped(p, t) && t.Node? && t.n == elm && elm.left == Top(t.left)
      invariant Leftmost(p, t) == Leftmost(p0, t0) && Least(t) == Least(t0)
      invariant Everything(p, t) == Everything(p0, t0) && elm in Elements(t0) && Elements(t) <= Elements(t0)
      decreases t
    {
      FocusKid(tree, p, t, Left);
      p, t := Frame(p, t.red, t.n, Left, t.right), t.left;
      elm := elm.left;
      LeftLink(tree, p, t);
    }
  }

  lemma LeftLink(tree: RbTree, p: Path, t: Tree)
    requires tree.Zipped(p, t) && t.Node?
    ensures t.n.left == Top(t.left) && t.n.right == Top(t.right) && t.n.parent == Above(p) && t.n.red == t.red
  {
  }

  /** The shortage left where a node was taken out, if it was black. */
  lemma RemainingShort(t: Tree, h: nat)
    requires t.Node? && Balanced(t, h) && (t.left.Leaf? || t.right.Leaf?)
    ensures t.red ==> Balanced(Remaining(t), h) && !IsRed(Remaining(t))
    ensures !t.red ==> h > 0 && Short(Remaining(t), h - 1)
  {
  }

  /** The end of RB_REMOVE: the focus is where a node of colour `red` was taken out. */
  method Recover(tree: RbTree, red: bool, parent: RbNode?, child: RbNode?, ghost p: Path, ghost u: Tree, ghost h: nat)
    requires u.Node? && u.red == red && (u.left.Leaf? || u.right.Leaf?) && tree.Zipped(p, Remaining(u))
    requires Balanced(u, h) && Supports(p, h) && !(IsRed(u) && RedAbove(p)) && (IsRed(u) ==> p.Frame?)
    requires parent == Above(p) && child == Top(Remaining(u)) && Sorted(Line(p, Remaining(u)))
    modifies tree, Everything(p, Remaining(u))
    ensures tree.Valid()
    ensures Elements(tree.shape) == Everything(p, Remaining(u)) && Inorder(tree.shape) == Line(p, Remaining(u))
  {
    hide RbTree.Zipped, Elements, Around, Inorder, Before, After, Balanced, Supports, Line, Short, Sorted;
    ghost var k := Remaining(u);
    RemainingShort(u, h);
    if !red {
      RemoveColor(tree, parent, child, p, k, h - 1);
    } else {
      ghost var whole := Plug(p, k);
      tree.ZipUp(p, k);
      PlugOrder(p, k);
      PlugElements(p, k);
      PlugBalanced(p, k, h);
      RootOf(tree, whole);
      tree.shape := whole;
      BalancedAt(whole, WholeHeight(p, h));
    }
  }

  /** RB_REMOVE of a node with at most one child. */
  method RemoveSimple(tree: RbTree, elm: RbNode, child: RbNode?, ghost p: Path, ghost t: Tree)
    requires tree.Valid() && tree.Zipped(p, t) && t.Node? && t.n == elm && (t.left.Leaf? || t.right.Leaf?)
    requires child == Top(Remaining(t)) && Plug(p, t) == tree.shape && Sorted(Line(p, t))
    modifies tree, Everything(p, t)
    ensures tree.Valid() && Elements(tree.shape) == Everything(p, t) - {elm}
  {
    hide RbTree.Zipped, Elements, Around, Balanced, Supports, Short, Sorted, Plug;
    ghost var h := BlackHeight(t);
    PlugSupports(p, t, h, BlackHeight(tree.shape));
    RedHasParent(p, t);
    LeftLink(tree, p, t);
    RemainingLine(p, t);
    var parent, color := elm.parent, elm.red;
    Splice(tree, elm, child, p, t);
    Recover(tree, color, parent, child, p, t, h);
  }

  lemma RedHasParent(p: Path, t: Tree)
    requires !IsRed(Plug(p, t))
    ensures IsRed(t) ==> p.Frame?
  {
  }

  lemma RemainingLine(p: Path, t: Tree)
    requires t.Node? && (t.left.Leaf? || t.right.Leaf?) && Sorted(Line(p, t))
    ensures Sorted(Line(p, Remaining(t)))
  {
    LineAt(p, t);
    var a, b := Before(p) + Inorder(t.left), Inorder(t.right) + After(p);
    SortedAround(a, t.n, b);
    if t.left.Leaf? {
      assert a + b == Line(p, t.right);
    } else {
      assert a + b == Line(p, t.left);
    }
  }

  /** RB_REMOVE of a node with two children: its successor goes into its place. */
  method RemoveInner(tree: RbTree, elm: RbNode, ghost p: Path, ghost t: Tree)
    requires tree.Valid() && tree.Zipped(p, t) && t.Node? && t.n == elm && t.left.Node? && t.right.Node?
    requires Plug(p, t) == tree.shape && Sorted(Line(p, t))
    modifies tree, Everything(p, t)
    ensures tree.Valid() && Elements(tree.shape) == Everything(p, t) - {elm}
  {
    hide RbTree.Zipped, Elements, Around, Balanced, Supports, Short, Sorted, Plug, Inorder, Line;
    ghost var b, l, r := Frame(p, t.red, elm, Right, t.left), t.left, t.right;
    ghost var u, w, all := Least(r), WithoutLeast(r), Everything(p, t);
    PlugSupports(p, t, BlackHeight(t), BlackHeight(tree.shape));
    RedHasParent(p, t);
    LeftLink(tree, p, t);
    PartsApart(tree, p, t);
    FocusKid(tree, p, t, Right);
    var next := FindLeast(tree, elm.right, b, r);
    ghost var q := Leftmost(b, r);
    LeftLink(tree, q, u);
    var child, parent, color := next.right, next.parent, next.red;
    Splice(tree, next, child, q, u);
    if parent == elm {
      parent := next;
    }
    LeastUp(tree, b, r);
    FocusParent(tree, b, w);
    ghost var t1 := Node(t.red, l, elm, w);
    PartsApart(tree, p, t1);
    assert Everything(p, t1) == all - {next};
    Substitute(tree, elm, next, p, t1);
    ghost var t2, b' := t1.(n := next), Frame(p, t.red, next, Right, l);
    PartsApart(tree, p, t2);
    assert Everything(p, t2) == all - {elm} by {
      assert Everything(p, t2) == Everything(p, t1) - {elm} + {next};
    }
    FocusKid(tree, p, t2, Right);
    LeastDown(tree, b', r);
    assert Everything(Leftmost(b', r), Remaining(u)) == all - {elm};
    InnerSupports(p, t, next);
    InnerLine(p, t);
    AboveLeast(b, b', r);
    Recover(tree, color, parent, child, Leftmost(b', r), u, BlackHeight(u));
  }

  /** With the successor in the inner node's place, the balance below is what it was. */
  lemma InnerSupports(p: Path, t: Tree, next: RbNode)
    requires t.Node? && t.left.Node? && t.right.Node? && (IsRed(t) ==> p.Frame?)
    requires Balanced(t, BlackHeight(t)) && Supports(p, BlackHeight(t)) && !(IsRed(t) && RedAbove(p))
    ensures var b := Frame(p, t.red, next, Right, t.left);
      var q, u, k := Leftmost(b, t.right), Least(t.right), BlackHeight(Least(t.right));
      Balanced(u, k) && Supports(q, k) && !(IsRed(u) && RedAbove(q)) && (IsRed(u) ==> q.Frame?)
  {
    hide Leftmost, Least;
    var h := BlackHeight(t);
    LeastSupports(Frame(p, t.red, next, Right, t.left), t.right, if t.red then h else h - 1);
  }

  /** The line of elements loses just the inner node. */
  lemma InnerLine(p: Path, t: Tree)
    requires t.Node? && t.right.Node? && Sorted(Line(p, t))
    ensures Sorted(Line(p, Node(t.red, t.left, Least(t.right).n, WithoutLeast(t.right))))
  {
    hide Sorted, Least, WithoutLeast;
    var m, w := Least(t.right).n, WithoutLeast(t.right);
    var a, c := Before(p) + Inorder(t.left), Inorder(w) + After(p);
    LineAt(p, t);
    LineAt(p, Node(t.red, t.left, m, w));
    LeastOrder(t.right);
    assert Inorder(t.right) + After(p) == [m] + c;
    SortedAround(a, t.n, [m] + c);
    assert a + ([m] + c) == a + [m] + c;
  }

  /** RB_REMOVE: the tree loses exactly the given node. */
  method Remove(tree: RbTree, elm: RbNode) returns (r: RbNode)
    requires tree.Valid() && elm in Elements(tree.shape)
    modifies tree, Elements(tree.shape)
    ensures tree.Valid() && r == elm
    ensures Elements(tree.shape) == old(Elements(tree.shape)) - {elm}
  {
    hide RbTree.Zipped, Elements, Around, Balanced, Plug, Inorder, Line;
    ghost var p, t := Locate(tree, Root, tree.shape, elm);
    WholePlace(tree);
    LeftLink(tree, p, t);
    if elm.left == null {
      RemoveSimple(tree, elm, elm.right, p, t);
    } else if elm.right == null {
      RemoveSimple(tree, elm, elm.left, p, t);
    } else {
      RemoveInner(tree, elm, p, t);
    }
    r := elm;
  }

  lemma WholePlace(tree: RbTree)
    ensures Plug(Root, tree.shape) == tree.shape && Everything(Root, tree.shape) == Elements(tree.shape)
    ensures Line(Root, tree.shape) == Inorder(tree.shape)
  {
  }
}
