/**
  Red-black trees as linked nodes: the pointer changes of libuv's tree.h, each
  proved to turn one shape into another.
 */
module RbPointers {
  import opened Sides
  import opened RbShapes

  function Child(n: RbNode, s: Side): RbNode?
    reads n
  {
    if s == Left then n.left else n.right
  }

  method SetChild(n: RbNode, s: Side, x: RbNode?)
    modifies n
    ensures Child(n, s) == x && Child(n, Other(s)) == old(Child(n, Other(s)))
    ensures n.parent == old(n.parent) && n.red == old(n.red)
  {
    if s == Left {
      n.left := x;
    } else {
      n.right := x;
    }
  }

  /** The nodes of `t` carry its links and colours, and the topmost one leads up to `parent`. */
  ghost predicate Linked(t: Tree, parent: RbNode?)
    reads Elements(t)
  {
    t.Node? ==>
      && t.n.red == t.red && t.n.parent == parent
      && t.n.left == Top(t.left) && t.n.right == Top(t.right)
      && Linked(t.left, t.n) && Linked(t.right, t.n)
  }

  lemma LinkedKids(t: Tree, parent: RbNode?, s: Side)
    requires t.Node? && Linked(t, parent)
    ensures t.n.red == t.red && t.n.parent == parent
    ensures Child(t.n, s) == Top(Kid(t, s)) && Child(t.n, Other(s)) == Top(Kid(t, Other(s)))
    ensures Linked(Kid(t, s), t.n) && Linked(Kid(t, Other(s)), t.n)
  {
  }

  lemma LinkedMade(red: bool, s: Side, near: Tree, n: RbNode, far: Tree, parent: RbNode?)
    requires n.red == red && n.parent == parent
    requires Child(n, s) == Top(near) && Child(n, Other(s)) == Top(far)
    requires Linked(near, n) && Linked(far, n)
    ensures Linked(Make(red, s, near, n, far), parent)
  {
  }

  /** Gives a subtree another parent. */
  method Adopt(x: RbNode?, parent: RbNode?, ghost t: Tree, ghost was: RbNode?)
    requires x == Top(t) && Proper(t) && Linked(t, was)
    modifies if x == null then {} else {x}
    ensures Linked(t, parent)
    ensures x != null ==> x.left == old(x.left) && x.right == old(x.right) && x.red == old(x.red)
  {
    if x != null {
      x.parent := parent;
    }
  }

  class RbTree {
    var root: RbNode?
    ghost var shape: Tree

    /** The nodes around a place carry the links that lead to it, `hole` being what is there. */
    ghost predicate Hung(p: Path, hole: RbNode?)
      reads this`root, Around(p)
    {
      if p.Root? then root == hole
      else
        && p.n.red == p.red && p.n.parent == Above(p.up)
        && Child(p.n, p.side) == hole && Child(p.n, Other(p.side)) == Top(p.sib)
        && Linked(p.sib, p.n) && Hung(p.up, p.n)
    }

    /** The whole tree, seen from a place in it. */
    ghost predicate Zipped(p: Path, t: Tree)
      reads this`root, Around(p), Elements(t)
    {
      && Linked(t, Above(p)) && Hung(p, Top(t))
      && Proper(t) && ProperPath(p) && Elements(t) !! Around(p)
    }

    /** Looking from one place up. */
    lemma Up(p: Path, t: Tree)
      requires Zipped(p, t) && p.Frame?
      ensures Zipped(p.up, Joined(p, t))
      ensures Around(p.up) + Elements(Joined(p, t)) == Around(p) + Elements(t)
    {
      MadeElements(p.red, p.side, t, p.n, p.sib);
      LinkedMade(p.red, p.side, t, p.n, p.sib, Above(p.up));
    }

    /** Looking down to a child. */
    lemma Down(p: Path, t: Tree, s: Side)
      requires Zipped(p, t) && t.Node?
      ensures Zipped(Frame(p, t.red, t.n, s, Kid(t, Other(s))), Kid(t, s))
      ensures Around(Frame(p, t.red, t.n, s, Kid(t, Other(s)))) + Elements(Kid(t, s)) == Around(p) + Elements(t)
    {
      MadeElements(t.red, s, Kid(t, s), t.n, Kid(t, Other(s)));
      LinkedKids(t, Above(p), s);
    }

    /** The link that led to `elm` leads to `x`. */
    method Rehang(elm: RbNode, x: RbNode?, ghost p: Path)
      requires ProperPath(p) && Hung(p, elm) && elm !in Around(p) && elm.parent == Above(p)
      modifies this`root, Above(p)
      ensures Hung(p, x)
      ensures shape == old(shape)
    {
      if elm.parent != null {
        if elm == elm.parent.left {
          elm.parent.left := x;
        } else {
          elm.parent.right := x;
        }
      } else {
        root := x;
      }
    }

    lemma TopElement(t: Tree)
      ensures t.Node? ==> t.n in Elements(t)
    {
    }

    /** Five parts of a tree have no node in common. */
    predicate Apart(p: Path, near: Tree, elm: RbNode, mid: Tree, tmp: RbNode, far: Tree)
    {
      && elm != tmp
      && elm !in Elements(near) + Elements(mid) + Elements(far) + Around(p)
      && tmp !in Elements(near) + Elements(mid) + Elements(far) + Around(p)
      && Elements(near) !! Elements(mid) && Elements(near) !! Elements(far) && Elements(mid) !! Elements(far)
      && Around(p) !! Elements(near) + Elements(mid) + Elements(far)
    }

    /** The first half of a rotation: the inner subtree changes parents. */
    method PassOver(elm: RbNode, tmp: RbNode, s: Side, ghost p: Path, ghost near: Tree, ghost mid: Tree, ghost far: Tree)
      requires Apart(p, near, elm, mid, tmp, far) && Proper(mid)
      requires Child(tmp, s) == Top(mid)
      requires Linked(near, elm) && Linked(mid, tmp) && Linked(far, tmp) && Hung(p, elm)
      modifies elm, tmp, Elements(mid)
      ensures Linked(near, elm) && Linked(mid, elm) && Linked(far, tmp) && Hung(p, elm)
      ensures Child(elm, Other(s)) == Top(mid) && Child(elm, s) == old(Child(elm, s))
      ensures Child(tmp, Other(s)) == old(Child(tmp, Other(s)))
      ensures elm.parent == tmp.parent == old(elm.parent) && elm.red == old(elm.red) && tmp.red == old(tmp.red)
    {
      hide Linked, Hung, Proper, Elements, Around;
      TopElement(mid);
      assert allocated(Elements(near)) && allocated(Elements(mid)) && allocated(Elements(far)) && allocated(Around(p));
      SetChild(elm, Other(s), Child(tmp, s));
      Adopt(Child(tmp, s), elm, mid, tmp);
      tmp.parent := elm.parent;
    }

    /** The second half: the two nodes change places. */
    method Trade(elm: RbNode, tmp: RbNode, s: Side, ghost p: Path, ghost near: Tree, ghost mid: Tree, ghost far: Tree)
      requires Apart(p, near, elm, mid, tmp, far) && ProperPath(p)
      requires Linked(near, elm) && Linked(mid, elm) && Linked(far, tmp) && Hung(p, elm)
      requires Child(elm, Other(s)) == Top(mid) && Child(elm, s) == Top(near) && Child(tmp, Other(s)) == Top(far)
      requires elm.parent == tmp.parent == Above(p)
      modifies this`root, elm, tmp, Above(p)
      ensures Hung(p, tmp) && Linked(Make(tmp.red, s, Make(elm.red, s, near, elm, mid), tmp, far), Above(p))
      ensures shape == old(shape) && elm.red == old(elm.red) && tmp.red == old(tmp.red)
    {
      hide Linked, Hung, ProperPath, Elements, Around, Make;
      AboveAround(p);
      assert allocated(Elements(near)) && allocated(Elements(mid)) && allocated(Elements(far)) && allocated(Around(p));
      Rehang(elm, tmp, p);
      SetChild(tmp, s, elm);
      elm.parent := tmp;
      LinkedMade(elm.red, s, near, elm, mid, tmp);
      LinkedMade(tmp.red, s, Make(elm.red, s, near, elm, mid), tmp, far, Above(p));
    }

    lemma AboveAround(p: Path)
      ensures p.Frame? ==> Above(p) in Around(p)
    {
    }

    /** RB_ROTATE_LEFT and RB_ROTATE_RIGHT: `elm` goes down to side `s` and its other child comes up. */
    method Rotate(elm: RbNode, s: Side, ghost p: Path, ghost t: Tree) returns (tmp: RbNode)
      requires Zipped(p, t) && t.Node? && t.n == elm && Kid(t, Other(s)).Node?
      modifies this`root, Around(p), Elements(t)
      ensures tmp == Kid(t, Other(s)).n
      ensures Zipped(p, Rotated(t, s)) && shape == old(shape)
    {
      hide Proper, ProperPath, Linked, Hung, Elements, Around, Apart;
      ghost var u := Kid(t, Other(s));
      ghost var near, mid, far := Kid(t, s), Kid(u, s), Kid(u, Other(s));
      LinkedKids(t, Above(p), s);
      LinkedKids(u, elm, s);
      Pieces(p, t, s);
      RotatedElements(t, s);
      AboveAround(p);
      tmp := Child(elm, Other(s));
      PassOver(elm, tmp, s, p, near, mid, far);
      Trade(elm, tmp, s, p, near, mid, far);
    }

    lemma Pieces(p: Path, t: Tree, s: Side)
      requires Zipped(p, t) && t.Node? && Kid(t, Other(s)).Node?
      ensures var u := Kid(t, Other(s));
        && Apart(p, Kid(t, s), t.n, Kid(u, s), u.n, Kid(u, Other(s))) && Proper(Kid(u, s))
        && Elements(t) == Elements(Kid(t, s)) + {t.n} + Elements(Kid(u, s)) + {u.n} + Elements(Kid(u, Other(s)))
    {
      hide Proper, ProperPath, Linked, Hung, Elements, Around;
      var u := Kid(t, Other(s));
      MadeElements(t.red, s, Kid(t, s), t.n, u);
      MadeElements(u.red, s, Kid(u, s), u.n, Kid(u, Other(s)));
      assert t == Make(t.red, s, Kid(t, s), t.n, u) && u == Make(u.red, s, Kid(u, s), u.n, Kid(u, Other(s)));
    }

    /** Colours the node in focus. */
    method Paint(n: RbNode, red: bool, ghost p: Path, ghost t: Tree)
      requires Zipped(p, t) && t.Node? && t.n == n
      modifies n
      ensures Zipped(p, Painted(t, red))
      ensures Elements(Painted(t, red)) == Elements(t)
    {
      assert allocated(Elements(t.left)) && allocated(Elements(t.right)) && allocated(Around(p));
      n.red := red;
    }

    /** Colours the child of the node in focus on side `s`. */
    method PaintKid(n: RbNode, red: bool, s: Side, ghost p: Path, ghost t: Tree)
      requires Zipped(p, t) && t.Node? && Kid(t, s).Node? && Kid(t, s).n == n
      modifies n
      ensures Zipped(p, WithKid(t, s, Painted(Kid(t, s), red)))
      ensures Elements(WithKid(t, s, Painted(Kid(t, s), red))) == Elements(t)
    {
      hide Zipped, Elements, Around;
      ghost var q := Frame(p, t.red, t.n, s, Kid(t, Other(s)));
      Down(p, t, s);
      Paint(n, red, q, Kid(t, s));
      Up(q, Painted(Kid(t, s), red));
      KidElements(t, s, Painted(Kid(t, s), red));
    }

    lemma KidElements(t: Tree, s: Side, kid: Tree)
      requires t.Node? && Elements(kid) == Elements(Kid(t, s))
      ensures Elements(WithKid(t, s, kid)) == Elements(t)
    {
    }

    /** Rotates at the child of the node in focus on side `s`. */
    method RotateKid(n: RbNode, to: Side, s: Side, ghost p: Path, ghost t: Tree) returns (tmp: RbNode)
      requires Zipped(p, t) && t.Node? && Kid(t, s).Node? && Kid(t, s).n == n && Kid(Kid(t, s), Other(to)).Node?
      modifies this`root, Around(p), Elements(t)
      ensures tmp == Kid(Kid(t, s), Other(to)).n
      ensures Zipped(p, WithKid(t, s, Rotated(Kid(t, s), to)))
      ensures Elements(WithKid(t, s, Rotated(Kid(t, s), to))) == Elements(t)
    {
      hide Zipped, Elements, Around;
      ghost var q := Frame(p, t.red, t.n, s, Kid(t, Other(s)));
      Down(p, t, s);
      RotatedElements(Kid(t, s), to);
      FrameWithin(q, Kid(t, s), p, t);
      tmp := Rotate(n, to, q, Kid(t, s));
      Up(q, Rotated(Kid(t, s), to));
      KidElements(t, s, Rotated(Kid(t, s), to));
    }

    /** Colours a grandchild of the node in focus: the child on side `s2` of the child on side `s1`. */
    method PaintGrandkid(n: RbNode, red: bool, s1: Side, s2: Side, ghost p: Path, ghost t: Tree)
      requires Zipped(p, t) && t.Node? && Kid(t, s1).Node? && Kid(Kid(t, s1), s2).Node? && Kid(Kid(t, s1), s2).n == n
      modifies n
      ensures var k := Kid(t, s1);
        var t' := WithKid(t, s1, WithKid(k, s2, Painted(Kid(k, s2), red)));
        Zipped(p, t') && Elements(t') == Elements(t)
    {
      hide Zipped, Elements, Around;
      ghost var q, k := Frame(p, t.red, t.n, s1, Kid(t, Other(s1))), Kid(t, s1);
      Down(p, t, s1);
      PaintKid(n, red, s2, q, k);
      ghost var k' := WithKid(k, s2, Painted(Kid(k, s2), red));
      Up(q, k');
      KidElements(t, s1, k');
    }

    lemma FrameWithin(q: Path, k: Tree, p: Path, t: Tree)
      requires Around(q) + Elements(k) == Around(p) + Elements(t)
      ensures Around(q) <= Around(p) + Elements(t) && Elements(k) <= Around(p) + Elements(t)
    {
    }

    /** The path grows together with the tree at its end into the whole tree. */
    lemma {:induction false} ZipUp(p: Path, t: Tree)
      requires Zipped(p, t)
      ensures Zipped(Root, Plug(p, t))
      decreases p
    {
      hide Zipped;
      if p.Frame? {
        Up(p, t);
        ZipUp(p.up, Joined(p, t));
      }
    }

    /** A red-black tree: linked, in search order, balanced, and black at the root. */
    ghost predicate Valid()
      reads this, Elements(shape)
    {
      Zipped(Root, shape) && Sorted(Inorder(shape)) && Balanced(shape, BlackHeight(shape)) && !IsRed(shape)
    }

    /** RB_INIT */
    constructor ()
      ensures Valid() && shape == Leaf
    {
      root, shape := null, Leaf;
    }
  }
}
