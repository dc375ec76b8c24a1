/**
 Removal from the red-black tree (src/common/rbtree.c: __rb_erase, __rb_erase_fix, _rb_erase).
 */
module RbErase {
  import opened RbShape
  import opened RbInsert

  // ----- erase fix-up, the short side to the left of parent

  /** Case 1: the sibling is red and is rotated above parent. */
  method RedSiblingLeft(ghost up: Ctx, parent: Node, ghost t: Tree, sibling: Node, ghost a: Tree, ghost b: Tree,
                        root: Root)
    requires RepZip(up, Fork(t, parent, false, Fork(a, sibling, true, b)), parent, root.node) && !IsRed(a)
    modifies root, CtxNodes(up), {parent, sibling}, Nodes(a)
    ensures RepZip(up, Fork(Fork(t, parent, true, a), sibling, false, b), sibling, root.node)
  {
    hide Rep, RepCtx, Nodes, CtxNodes;
    assert allocated(Nodes(t)) && allocated(Nodes(a)) && allocated(Nodes(b)) && allocated(CtxNodes(up));
    OpenFork(Fork(t, parent, false, Fork(a, sibling, true, b)), parent, CtxParent(up));
    OpenFork(Fork(a, sibling, true, b), sibling, parent);
    LiftLeft(up, parent, t, sibling, b, a, sibling.left, sibling, root);
  }

  method RedSiblingRight(ghost up: Ctx, parent: Node, ghost t: Tree, sibling: Node, ghost a: Tree, ghost b: Tree,
                         root: Root)
    requires RepZip(up, Fork(Fork(a, sibling, true, b), parent, false, t), parent, root.node) && !IsRed(b)
    modifies root, CtxNodes(up), {parent, sibling}, Nodes(b)
    ensures RepZip(up, Fork(a, sibling, false, Fork(b, parent, true, t)), sibling, root.node)
  {
    hide Rep, RepCtx, Nodes, CtxNodes;
    assert allocated(Nodes(t)) && allocated(Nodes(a)) && allocated(Nodes(b)) && allocated(CtxNodes(up));
    OpenFork(Fork(Fork(a, sibling, true, b), parent, false, t), parent, CtxParent(up));
    OpenFork(Fork(a, sibling, true, b), sibling, parent);
    LiftRight(up, parent, t, sibling, a, b, sibling.right, sibling, root);
  }

  /** Case 4: link m, at pointer tmp, below parent with its colour kept, and rotate parent down to
      the left; new_ takes its place and colour, parent becomes black. */
  method SinkLeft(ghost up: Ctx, parent: Node, ghost t: Tree, new_: Node, ghost r: Tree, ghost m: Tree,
                  tmp: Node?, ghost q: Node?, root: Root)
    requires RepCtx(up, parent, root.node) && parent.parent == CtxParent(up)
    requires Rep(t, parent.left, parent) && Rep(r, new_.right, new_) && Rep(m, tmp, q)
    requires Apart(Nodes(r), Nodes(m), Nodes(t), CtxNodes(up), new_, parent)
    modifies root, CtxNodes(up), {parent, new_}, Nodes(m)
    ensures RepZip(up, Fork(Fork(t, parent, false, m), new_, old(parent.red), r), new_, root.node)
  {
    hide Rep, RepCtx, Nodes, CtxNodes;
    assert allocated(Nodes(r)) && allocated(Nodes(m)) && allocated(Nodes(t)) && allocated(CtxNodes(up));
    RepRoot(m, tmp, q);
    CtxParentIn(up);
    parent.right := tmp;
    SetParent(m, tmp, q, parent);
    RotateLeft(up, parent, t, new_, r, m, root, false);
  }

  method SinkRight(ghost up: Ctx, parent: Node, ghost t: Tree, new_: Node, ghost l: Tree, ghost m: Tree,
                   tmp: Node?, ghost q: Node?, root: Root)
    requires RepCtx(up, parent, root.node) && parent.parent == CtxParent(up)
    requires Rep(t, parent.right, parent) && Rep(l, new_.left, new_) && Rep(m, tmp, q)
    requires Apart(Nodes(l), Nodes(m), Nodes(t), CtxNodes(up), new_, parent)
    modifies root, CtxNodes(up), {parent, new_}, Nodes(m)
    ensures RepZip(up, Fork(l, new_, old(parent.red), Fork(m, parent, false, t)), new_, root.node)
  {
    hide Rep, RepCtx, Nodes, CtxNodes;
    assert allocated(Nodes(l)) && allocated(Nodes(m)) && allocated(Nodes(t)) && allocated(CtxNodes(up));
    RepRoot(m, tmp, q);
    CtxParentIn(up);
    parent.left := tmp;
    SetParent(m, tmp, q, parent);
    RotateRight(up, parent, t, new_, l, m, root, false);
  }

  /** Case 4: the far nephew is red. */
  method FarLeft(ghost up: Ctx, parent: Node, ghost red: bool, ghost t: Tree, sibling: Node, ghost a: Tree,
                 ghost b: Tree, root: Root)
    requires RepZip(up, Fork(t, parent, red, Fork(a, sibling, false, b)), parent, root.node) && IsRed(b)
    modifies root, CtxNodes(up), {parent, sibling}, Nodes(a), Nodes(b)
    ensures RepZip(up, Fork(Fork(t, parent, false, a), sibling, red, Paint(b, false)), sibling, root.node)
  {
    hide Rep, RepCtx, Nodes, CtxNodes;
    assert allocated(Nodes(t)) && allocated(Nodes(a)) && allocated(Nodes(b)) && allocated(CtxNodes(up));
    OpenFork(Fork(t, parent, red, Fork(a, sibling, false, b)), parent, CtxParent(up));
    OpenFork(Fork(a, sibling, false, b), sibling, parent);
    RepRoot(b, sibling.right, sibling);
    SetParentColor(b, sibling.right, sibling, sibling, false);
    SinkLeft(up, parent, t, sibling, Paint(b, false), a, sibling.left, sibling, root);
  }

  method FarRight(ghost up: Ctx, parent: Node, ghost red: bool, ghost t: Tree, sibling: Node, ghost a: Tree,
                  ghost b: Tree, root: Root)
    requires RepZip(up, Fork(Fork(a, sibling, false, b), parent, red, t), parent, root.node) && IsRed(a)
    modifies root, CtxNodes(up), {parent, sibling}, Nodes(a), Nodes(b)
    ensures RepZip(up, Fork(Paint(a, false), sibling, red, Fork(b, parent, false, t)), sibling, root.node)
  {
    hide Rep, RepCtx, Nodes, CtxNodes;
    assert allocated(Nodes(t)) && allocated(Nodes(a)) && allocated(Nodes(b)) && allocated(CtxNodes(up));
    OpenFork(Fork(Fork(a, sibling, false, b), parent, red, t), parent, CtxParent(up));
    OpenFork(Fork(a, sibling, false, b), sibling, parent);
    RepRoot(a, sibling.left, sibling);
    SetParentColor(a, sibling.left, sibling, sibling, false);
    SinkRight(up, parent, t, sibling, Paint(a, false), b, sibling.right, sibling, root);
  }

  /** Case 3 then 4: only the near nephew, tmp2, is red; it ends up above parent and sibling. */
  method NearLeft(ghost up: Ctx, parent: Node, ghost red: bool, ghost t: Tree, sibling: Node, tmp2: Node,
                  ghost a: Tree, ghost b: Tree, ghost far: Tree, root: Root)
    requires RepZip(up, Fork(t, parent, red, Fork(Fork(a, tmp2, true, b), sibling, false, far)), parent, root.node)
    requires !IsRed(b)
    modifies root, CtxNodes(up), {parent, sibling, tmp2}, Nodes(a), Nodes(b)
    ensures RepZip(up, Fork(Fork(t, parent, false, a), tmp2, red, Fork(b, sibling, false, far)), tmp2, root.node)
  {
    hide Rep, RepCtx, Nodes, CtxNodes;
    ghost var sub := Fork(Fork(a, tmp2, true, b), sibling, false, far);
    assert allocated(Nodes(t)) && allocated(Nodes(sub)) && allocated(Nodes(a)) && allocated(CtxNodes(up));
    OpenFork(Fork(t, parent, red, sub), parent, CtxParent(up));
    NodesOfFork(Fork(a, tmp2, true, b), sibling, false, far);
    NodesOfFork(a, tmp2, true, b);
    NodesOfFork(b, sibling, false, far);
    TurnRight(sibling, far, tmp2, a, b, parent, false);
    SinkLeft(up, parent, t, tmp2, Fork(b, sibling, false, far), a, tmp2.left, tmp2, root);
  }

  method NearRight(ghost up: Ctx, parent: Node, ghost red: bool, ghost t: Tree, sibling: Node, tmp2: Node,
                   ghost a: Tree, ghost b: Tree, ghost far: Tree, root: Root)
    requires RepZip(up, Fork(Fork(far, sibling, false, Fork(a, tmp2, true, b)), parent, red, t), parent, root.node)
    requires !IsRed(a)
    modifies root, CtxNodes(up), {parent, sibling, tmp2}, Nodes(a), Nodes(b)
    ensures RepZip(up, Fork(Fork(far, sibling, false, a), tmp2, red, Fork(b, parent, false, t)), tmp2, root.node)
  {
    hide Rep, RepCtx, Nodes, CtxNodes;
    ghost var sub := Fork(far, sibling, false, Fork(a, tmp2, true, b));
    assert allocated(Nodes(t)) && allocated(Nodes(sub)) && allocated(Nodes(b)) && allocated(CtxNodes(up));
    OpenFork(Fork(sub, parent, red, t), parent, CtxParent(up));
    NodesOfFork(far, sibling, false, Fork(a, tmp2, true, b));
    NodesOfFork(a, tmp2, true, b);
    NodesOfFork(far, sibling, false, a);
    TurnLeft(sibling, far, tmp2, a, b, parent, false);
    SinkRight(up, parent, t, tmp2, Fork(far, sibling, false, a), b, tmp2.right, tmp2, root);
  }

  /** Case 2: the sibling becomes red. */
  method RedSibling(ghost c: Ctx, ghost t: Tree, ghost x: Node?, sibling: Node, root: Root)
    requires RepZip(c, t, x, root.node) && !c.Top? && c.sib.Fork? && sibling == c.sib.n
    modifies sibling`red
    ensures RepZip(c.(sib := Paint(c.sib, true)), t, x, root.node)
    ensures CtxNodes(c.(sib := Paint(c.sib, true))) == CtxNodes(c)
  {
    assert allocated(CtxNodes(c.up)) && allocated(Nodes(t)) && allocated(Nodes(c.sib.l)) && allocated(Nodes(c.sib.r));
    sibling.red := true;
  }

  /** A node becomes black. */
  method SetBlack(ghost up: Ctx, ghost t: Tree, x: Node, root: Root)
    requires RepZip(up, t, x, root.node)
    modifies x`red
    ensures RepZip(up, Paint(t, false), x, root.node) && Nodes(Paint(t, false)) == Nodes(t)
  {
    hide RepCtx;
    assert allocated(CtxNodes(up)) && allocated(Nodes(t));
    RepRoot(t, x, CtxParent(up));
    x.red := false;
  }

  // ----- the fix-up loop

  /** The state of the erase fix-up: t is one black node short of what its context expects. */
  ghost predicate Short(c: Ctx, t: Tree, h: int) {
    !IsRed(t) && Good(t, h) && GoodCtx(c, h + 1)
  }

  /** The black height that the subtree at the node above the hole must have. */
  function HeightAbove(c: Ctx, h: int): (k: int)
    requires !c.Top?
  {
    if c.red then h + 1 else h + 2
  }

  /** The sibling of a short subtree is never empty. */
  lemma SiblingExists(c: Ctx, t: Tree, h: int)
    requires Short(c, t, h) && !c.Top?
    ensures c.sib.Fork? && Good(c.sib, h + 1) && GoodCtx(c.up, HeightAbove(c, h))
    ensures c.red ==> IsBlackCtx(c.up) && !IsRed(c.sib)
    ensures !IsRed(c.sib) ==> Good(c.sib.l, h) && Good(c.sib.r, h)
    ensures IsRed(c.sib) ==> !IsRed(c.sib.l) && !IsRed(c.sib.r) && Good(c.sib.l, h + 1) && Good(c.sib.r, h + 1)
  {
    BlackHeightPositive(t, h);
  }

  /** The subtree at parent after case 4 or cases 3 and 4. */
  ghost function Balanced(c: Ctx, t: Tree): (r: Tree)
    requires !c.Top? && c.sib.Fork?
    ensures r.Fork?
  {
    var s := c.sib;
    if c.InLeft? then
      if IsRed(s.r) then Fork(Fork(t, c.n, false, s.l), s.n, c.red, Paint(s.r, false))
      else if IsRed(s.l) then Fork(Fork(t, c.n, false, s.l.l), s.l.n, c.red, Fork(s.l.r, s.n, false, s.r))
      else Outer(c, t)
    else
      if IsRed(s.l) then Fork(Paint(s.l, false), s.n, c.red, Fork(s.r, c.n, false, t))
      else if IsRed(s.r) then Fork(Fork(s.l, s.n, false, s.r.l), s.r.n, c.red, Fork(s.r.r, c.n, false, t))
      else Outer(c, t)
  }

  lemma BalancedGood(c: Ctx, t: Tree, h: int)
    requires Short(c, t, h) && !c.Top? && c.sib.Fork? && !IsRed(c.sib) && (IsRed(c.sib.l) || IsRed(c.sib.r))
    ensures Good(Balanced(c, t), HeightAbove(c, h)) && GoodCtx(c.up, HeightAbove(c, h))
    ensures IsRed(Balanced(c, t)) ==> IsBlackCtx(c.up)
  {
    SiblingExists(c, t, h);
  }

  lemma BalancedOrder(c: Ctx, t: Tree)
    requires !c.Top? && c.sib.Fork?
    ensures Inorder(Balanced(c, t)) == Inorder(Outer(c, t)) && Nodes(Balanced(c, t)) == Nodes(Outer(c, t))
  {
    hide Inorder, Nodes, Paint;
    var s, p := c.sib, c.n;
    if c.InLeft? {
      if IsRed(s.r) {
        RotationOrder(t, p, s.l, s.n, s.r, false, c.red, c.red, s.red);
        PaintedFork(Fork(t, p, false, s.l), s.n, c.red, s.r);
      } else if IsRed(s.l) {
        DoubleRotationOrder(t, p, s.l.l, s.l.n, s.l.r, s.n, s.r, c.red, s.l.red, s.red, false, c.red, false);
      }
    } else {
      if IsRed(s.l) {
        RotationOrder(s.l, s.n, s.r, p, t, s.red, c.red, c.red, false);
        PaintedFork(s.l, s.n, c.red, Fork(s.r, p, false, t));
      } else if IsRed(s.r) {
        DoubleRotationOrder(s.l, s.n, s.r.l, s.r.n, s.r.r, p, t, s.red, s.r.red, c.red, false, c.red, false);
      }
    }
  }

  lemma PaintedFork(l: Tree, n: Node, red: bool, r: Tree)
    ensures Inorder(Fork(Paint(l, false), n, red, r)) == Inorder(Fork(l, n, red, r))
    ensures Inorder(Fork(l, n, red, Paint(r, false))) == Inorder(Fork(l, n, red, r))
    ensures Nodes(Fork(Paint(l, false), n, red, r)) == Nodes(Fork(l, n, red, r))
    ensures Nodes(Fork(l, n, red, Paint(r, false))) == Nodes(Fork(l, n, red, r))
  {
    PaintOrder(l, false);
    PaintOrder(r, false);
  }

  /** Cases 3 and 4, on either side: some nephew is red. */
  method Rebalance(ghost c: Ctx, ghost t: Tree, ghost x: Node?, parent: Node, sibling: Node, onLeft: bool, root: Root)
    requires RepZip(c, t, x, root.node) && !c.Top? && parent == c.n && onLeft == c.InLeft?
    requires c.sib.Fork? && sibling == c.sib.n && !IsRed(c.sib) && NoRedRed(c.sib)
    requires IsRed(c.sib.l) || IsRed(c.sib.r)
    modifies root, CtxNodes(c), Nodes(t)
    ensures RepZip(c.up, Balanced(c, t), Balanced(c, t).n, root.node)
  {
    hide RepCtx, Rep;
    ghost var s := c.sib;
    ZipUp(c, t, x, root.node);
    OpenFork(Outer(c, t), parent, CtxParent(c.up));
    OpenFork(s, sibling, parent);
    NodesOfFork(s.l, s.n, s.red, s.r);
    RedPointer(s.l, sibling.left, sibling);
    RedPointer(s.r, sibling.right, sibling);
    if onLeft {
      var tmp1 := sibling.right;
      if tmp1 == null || !tmp1.red {
        var tmp2 := sibling.left;
        OpenFork(s.l, tmp2, sibling);
        NearLeft(c.up, parent, c.red, t, sibling, tmp2, s.l.l, s.l.r, s.r, root);
      } else {
        FarLeft(c.up, parent, c.red, t, sibling, s.l, s.r, root);
      }
    } else {
      var tmp1 := sibling.left;
      if tmp1 == null || !tmp1.red {
        var tmp2 := sibling.right;
        OpenFork(s.r, tmp2, sibling);
        NearRight(c.up, parent, c.red, t, sibling, tmp2, s.r.l, s.r.r, s.l, root);
      } else {
        FarRight(c.up, parent, c.red, t, sibling, s.l, s.r, root);
      }
    }
  }

  /** Cases 3 and 4 end the fix-up. */
  method RebalanceStep(ghost c: Ctx, ghost t: Tree, ghost h: int, ghost x: Node?, parent: Node, sibling: Node,
                       onLeft: bool, root: Root)
    requires RepZip(c, t, x, root.node) && Short(c, t, h) && !c.Top? && parent == c.n && onLeft == c.InLeft?
    requires c.sib.Fork? && sibling == c.sib.n && !IsRed(c.sib) && (IsRed(c.sib.l) || IsRed(c.sib.r))
    modifies root, CtxNodes(c), Nodes(t)
    ensures root.Valid() && Inorder(root.tree) == Line(c, t) && Nodes(root.tree) == CtxNodes(c) + Nodes(t)
  {
    hide RepCtx, Rep, GoodCtx, Inorder, Balanced, Nodes, CtxNodes;
    SiblingExists(c, t, h);
    ZipUp(c, t, x, root.node);
    LineUp(c, t);
    BalancedGood(c, t, h);
    BalancedOrder(c, t);
    Rebalance(c, t, x, parent, sibling, onLeft, root);
    KeepTree(c.up, Balanced(c, t), HeightAbove(c, h), Balanced(c, t).n, root);
  }

  /** The context after the sibling has become red. */
  ghost function Reddened(c: Ctx): (r: Ctx)
    requires !c.Top?
  {
    c.(sib := Paint(c.sib, true))
  }

  lemma ReddenedGood(c: Ctx, t: Tree, h: int)
    requires Short(c, t, h) && !c.Top? && !IsRed(c.sib) && c.sib.Fork? && !IsRed(c.sib.l) && !IsRed(c.sib.r)
    ensures var r := Outer(Reddened(c), t);
            && GoodCtx(c.up, HeightAbove(c, h))
            && (c.red ==> Good(Paint(r, false), h + 1))
            && (!c.red ==> Short(c.up, r, h + 1))
  {
    SiblingExists(c, t, h);
    assert Good(Paint(c.sib, true), h);
  }

  lemma ReddenedOrder(c: Ctx, t: Tree)
    requires !c.Top?
    ensures var r := Outer(Reddened(c), t);
            && Line(c.up, r) == Line(c, t) && Line(c.up, Paint(r, false)) == Line(c, t)
            && Nodes(r) == Nodes(Outer(c, t)) && Nodes(Paint(r, false)) == Nodes(Outer(c, t))
  {
    LineUp(c, t);
    PaintOrder(c.sib, true);
    PaintOrder(Outer(Reddened(c), t), false);
  }

  /** Case 2: both nephews are black. With a red parent the fix-up ends; with a black one the
      subtree at parent is now short, unless parent is the root. */
  method Redden(ghost c: Ctx, ghost t: Tree, ghost h: int, ghost x: Node?, parent: Node, sibling: Node, root: Root)
    returns (more: bool)
    requires RepZip(c, t, x, root.node) && Short(c, t, h) && !c.Top? && parent == c.n
    requires c.sib.Fork? && sibling == c.sib.n && !IsRed(c.sib) && !IsRed(c.sib.l) && !IsRed(c.sib.r)
    modifies root, CtxNodes(c), Nodes(t)
    ensures !more ==> root.Valid() && Inorder(root.tree) == Line(c, t) && Nodes(root.tree) == CtxNodes(c) + Nodes(t)
    ensures more ==> !c.red && !c.up.Top? && parent.parent == CtxParent(c.up)
    ensures more ==> RepZip(c.up, Outer(Reddened(c), t), parent, root.node) && Short(c.up, Outer(Reddened(c), t), h + 1)
    ensures more ==> Line(c.up, Outer(Reddened(c), t)) == Line(c, t)
                     && CtxNodes(c.up) + Nodes(Outer(Reddened(c), t)) == CtxNodes(c) + Nodes(t)
  {
    hide RepCtx, Rep, GoodCtx, Inorder, Line, Good, Nodes, CtxNodes;
    ghost var r := Outer(Reddened(c), t);
    SibIn(c);
    ReddenedGood(c, t, h);
    ReddenedOrder(c, t);
    ZipUp(c, t, x, root.node);
    RedSibling(c, t, x, sibling, root);
    ZipUp(Reddened(c), t, x, root.node);
    OpenFork(r, parent, CtxParent(c.up));
    if parent.red {
      SetBlack(c.up, r, parent, root);
      KeepTree(c.up, Paint(r, false), h + 1, parent, root);
      more := false;
    } else {
      more := parent.parent != null;
      if !more {
        TopKeeps(c.up, r, h + 1);
        KeepTree(c.up, r, h + 1, parent, root);
      }
    }
  }

  lemma SibIn(c: Ctx)
    requires !c.Top? && c.sib.Fork?
    ensures c.n in CtxNodes(c) && c.sib.n in CtxNodes(c)
  {
  }

  lemma TopKeeps(c: Ctx, t: Tree, h: int)
    requires c.Top? && Good(t, h)
    ensures GoodCtx(c, h)
  {
  }

  /** What the tests of the loop see: on which side of parent the short subtree is. */
  lemma ShortSide(c: Ctx, t: Tree, h: int, x: Node?, root: Node?)
    requires RepZip(c, t, x, root) && Short(c, t, h) && !c.Top?
    ensures c.InLeft? <==> x != c.n.right
    ensures c.sib.Fork? && c.sib.n == (if c.InLeft? then c.n.right else c.n.left) && c.sib.n.red == c.sib.red
  {
    SiblingExists(c, t, h);
    RepRoot(t, x, c.n);
  }

  /** Case 1: afterwards the same short subtree has a red parent and a black sibling. */
  ghost function Lowered(c: Ctx): (r: Ctx)
    requires !c.Top? && c.sib.Fork?
  {
    if c.InLeft? then InLeft(InLeft(c.up, c.sib.n, false, c.sib.r), c.n, true, c.sib.l)
    else InRight(InRight(c.up, c.sib.n, false, c.sib.l), c.n, true, c.sib.r)
  }

  lemma LoweredGood(c: Ctx, t: Tree, h: int)
    requires Short(c, t, h) && !c.Top? && IsRed(c.sib)
    ensures Short(Lowered(c), t, h) && !IsRed(Lowered(c).sib) && !c.red
  {
    SiblingExists(c, t, h);
  }

  lemma LoweredOrder(c: Ctx, t: Tree)
    requires !c.Top? && c.sib.Fork?
    ensures Line(Lowered(c), t) == Line(c, t) && CtxNodes(Lowered(c)) == CtxNodes(c)
  {
    hide Inorder, Before, After;
    var s, low := c.sib, Lowered(c);
    LineUp(c, t);
    LineUp(low, t);
    LineUp(low.up, Outer(low, t));
    if c.InLeft? {
      RotationOrder(t, c.n, s.l, s.n, s.r, true, false, c.red, s.red);
    } else {
      RotationOrder(s.l, s.n, s.r, c.n, t, s.red, c.red, false, true);
    }
  }

  method LowerParent(ghost c: Ctx, ghost t: Tree, x: Node?, parent: Node, sibling: Node, onLeft: bool, root: Root)
    requires RepZip(c, t, x, root.node) && !c.Top? && !c.red && parent == c.n && onLeft == c.InLeft?
    requires IsRed(c.sib) && sibling == c.sib.n && !IsRed(c.sib.l) && !IsRed(c.sib.r)
    modifies root, CtxNodes(c), Nodes(t)
    ensures RepZip(Lowered(c), t, x, root.node)
  {
    hide RepCtx, Rep;
    ghost var s := c.sib;
    PointerIs(t, x, parent);
    ZipUp(c, t, x, root.node);
    NodesOfFork(s.l, s.n, s.red, s.r);
    if onLeft {
      RedSiblingLeft(c.up, parent, t, sibling, s.l, s.r, root);
      ghost var low := Fork(t, parent, true, s.l);
      ZipDown(c.up, Fork(low, sibling, false, s.r), sibling, root.node);
      OpenFork(Fork(low, sibling, false, s.r), sibling, CtxParent(c.up));
      ZipDown(InLeft(c.up, sibling, false, s.r), low, sibling.left, root.node);
      OpenFork(low, sibling.left, sibling);
      SamePointer(t, x, parent.left, parent);
    } else {
      RedSiblingRight(c.up, parent, t, sibling, s.l, s.r, root);
      ghost var low := Fork(s.r, parent, true, t);
      ZipDown(c.up, Fork(s.l, sibling, false, low), sibling, root.node);
      OpenFork(Fork(s.l, sibling, false, low), sibling, CtxParent(c.up));
      ZipDown(InRight(c.up, sibling, false, s.l), low, sibling.right, root.node);
      OpenFork(low, sibling.right, sibling);
      SamePointer(t, x, parent.right, parent);
    }
  }

  lemma PointerIs(t: Tree, x: Node?, p: Node?)
    requires Rep(t, x, p)
    ensures if t.Leaf? then x == null else x == t.n
  {
  }

  lemma SamePointer(t: Tree, x: Node?, y: Node?, p: Node?)
    requires Rep(t, y, p) && (if t.Leaf? then x == null else x == t.n)
    ensures x == y
  {
  }

  lemma LoweredIs(c: Ctx)
    requires !c.Top? && c.sib.Fork?
    ensures var r := Lowered(c); !r.Top? && r.n == c.n && r.red && r.InLeft? == c.InLeft?
  {
  }

  /** What the tests of the loop see on the children of the sibling. */
  lemma NephewColors(c: Ctx, t: Tree, x: Node?, root: Node?)
    requires RepZip(c, t, x, root) && !c.Top? && c.sib.Fork?
    ensures var s := c.sib.n;
            && (IsRed(c.sib.l) <==> s.left != null && s.left.red)
            && (IsRed(c.sib.r) <==> s.right != null && s.right.red)
  {
    SibRep(c, t, x, root);
    OpenFork(c.sib, c.sib.n, c.n);
    RedPointer(c.sib.l, c.sib.n.left, c.sib.n);
    RedPointer(c.sib.r, c.sib.n.right, c.sib.n);
  }

  lemma SibRep(c: Ctx, t: Tree, x: Node?, root: Node?)
    requires RepZip(c, t, x, root) && !c.Top? && c.sib.Fork?
    ensures Rep(c.sib, c.sib.n, c.n)
  {
  }

  /** __rb_erase_fix: from a subtree that is one black node short to a red-black tree with the same
      nodes in the same order. Every turn of the loop that does not end it moves one level up. */
  method EraseFix(parent0: Node, root: Root, ghost c0: Ctx, ghost t0: Tree, ghost h0: int)
    requires RepZip(c0, t0, null, root.node) && Short(c0, t0, h0) && !c0.Top? && parent0 == c0.n
    modifies root, CtxNodes(c0), Nodes(t0)
    ensures root.Valid() && Inorder(root.tree) == Line(c0, t0) && Nodes(root.tree) == CtxNodes(c0) + Nodes(t0)
  {
    hide RepCtx, Rep, GoodCtx, Inorder, Line, Good, Nodes, CtxNodes, Short, Lowered;
    ghost var c, t, h := c0, t0, h0;
    ghost var all := CtxNodes(c0) + Nodes(t0);
    var node: Node?, parent: Node := null, parent0;
    while true
      invariant RepZip(c, t, node, root.node) && Short(c, t, h) && !c.Top? && parent == c.n
      invariant Line(c, t) == Line(c0, t0) && CtxNodes(c) + Nodes(t) == all
      decreases c
    {
      ghost var c1 := c;
      ShortSide(c, t, h, node, root.node);
      SiblingExists(c, t, h);
      var onLeft := node != parent.right;
      var sibling: Node := if onLeft then parent.right else parent.left;
      if sibling.red {
        LoweredGood(c, t, h);
        LoweredOrder(c, t);
        LowerParent(c, t, node, parent, sibling, onLeft, root);
        LoweredIs(c);
        c1 := Lowered(c);
        ShortSide(c1, t, h, node, root.node);
        SiblingExists(c1, t, h);
        sibling := if onLeft then parent.right else parent.left;
      }
      NephewColors(c1, t, node, root.node);
      var tmp1 := if onLeft then sibling.right else sibling.left;
      var tmp2 := if onLeft then sibling.left else sibling.right;
      if (tmp1 == null || !tmp1.red) && (tmp2 == null || !tmp2.red) {
        var more := Redden(c1, t, h, node, parent, sibling, root);
        if !more {
          return;
        }
        c, t, h := c1.up, Outer(Reddened(c1), t), h + 1;
        node, parent := parent, parent.parent;
      } else {
        RebalanceStep(c1, t, h, node, parent, sibling, onLeft, root);
        return;
      }
    }
  }

  // ----- unlinking a node

  /** A node with at most one child is replaced by that child, which takes its parent and colour. */
  method Splice(ghost c: Ctx, node: Node, ghost r: Tree, child: Node?, root: Root)
    requires RepCtx(c, node, root.node) && node.parent == CtxParent(c) && node !in CtxNodes(c)
    requires Rep(r, child, node) && node !in Nodes(r) && CtxNodes(c) !! Nodes(r)
    modifies root, CtxNodes(c), One(child)
    ensures RepZip(c, Paint(r, node.red), child, root.node) && Nodes(Paint(r, node.red)) == Nodes(r)
  {
    hide Rep, RepCtx, Nodes, CtxNodes;
    assert allocated(CtxNodes(c)) && allocated(Nodes(r));
    RepRoot(r, child, node);
    CtxParentIn(c);
    var parent := node.parent;
    ChangeChild(c, node, child, parent, root);
    if child != null {
      OpenFork(r, child, node);
      child.parent := parent;
      child.red := node.red;
      MakeFork(r.l, child, r.r);
    } else {
      EmptyRep(r, child, node, parent);
    }
    PaintOrder(r, node.red);
  }

  lemma EmptyRep(r: Tree, x: Node?, p: Node?, q: Node?)
    requires Rep(r, x, p) && x == null
    ensures r == Leaf && Rep(r, x, q)
  {
  }

  /** What removing a node with one child, or none, does to the black heights. */
  lemma SpliceGood(c: Ctx, l: Tree, n: Node, red: bool, r: Tree, h: int)
    requires GoodCtx(c, h) && Good(Fork(l, n, red, r), h) && (red ==> IsBlackCtx(c))
    ensures l.Leaf? && r.Fork? ==> !red && Good(Paint(r, false), h)
    ensures r.Leaf? && l.Fork? ==> !red && Good(Paint(l, false), h)
    ensures l.Leaf? && r.Leaf? && red ==> Good(Leaf, h)
    ensures l.Leaf? && r.Leaf? && !red ==> Short(c, Leaf, h - 1)
  {
    var below := if red then h else h - 1;
    assert BlackHeight(l, below) && BlackHeight(r, below);
    if l == Leaf && r.Fork? {
      SubtreesLow(r, below);
    }
    if r == Leaf && l.Fork? {
      SubtreesLow(l, below);
    }
  }

  lemma SubtreesLow(t: Tree, h: int)
    requires Good(t, h) && h == 0 && t.Fork?
    ensures t.red
  {
    if !t.red {
      BlackHeightPositive(t.l, h - 1);
    }
  }

  /** The link from above, the parent and the colour of node go to s. */
  method TakePlace(ghost c: Ctx, node: Node, s: Node, root: Root)
    requires RepCtx(c, node, root.node) && node.parent == CtxParent(c)
    requires node !in CtxNodes(c) && s !in CtxNodes(c) && s != node
    modifies root, One(node.parent)`left, One(node.parent)`right, s`parent, s`red
    ensures RepCtx(c, s, root.node) && s.parent == CtxParent(c) && s.red == node.red
  {
    hide RepCtx, CtxNodes;
    assert allocated(CtxNodes(c));
    CtxParentIn(c);
    ChangeChild(c, node, s, node.parent, root);
    s.parent := node.parent;
    s.red := node.red;
  }

  /** s, which is not in the tree, takes the place, the children, the parent and the colour of node. */
  method Substitute(ghost c: Ctx, node: Node, ghost red: bool, s: Node, ghost l: Tree, ghost r: Tree, root: Root)
    requires RepZip(c, Fork(l, node, red, r), node, root.node)
    requires s !in CtxNodes(c) && s !in Nodes(l) && s !in Nodes(r) && s != node
    modifies root, CtxNodes(c), {s}, Nodes(l), Nodes(r)
    ensures RepZip(c, Fork(l, s, red, r), s, root.node)
  {
    hide Rep, RepCtx, Nodes, CtxNodes;
    assert allocated(CtxNodes(c)) && allocated(Nodes(l)) && allocated(Nodes(r));
    OpenFork(Fork(l, node, red, r), node, CtxParent(c));
    RepRoot(l, node.left, node);
    RepRoot(r, node.right, node);
    CtxParentIn(c);
    s.right := node.right;
    SetParent(r, s.right, node, s);
    s.left := node.left;
    SetParent(l, s.left, node, s);
    TakePlace(c, node, s, root);
    MakeFork(l, s, r);
  }

  /** The successor s is the right child of node: it keeps its right subtree, which becomes black. */
  method SubstituteChild(ghost c: Ctx, node: Node, ghost red: bool, s: Node, ghost l: Tree, ghost sred: bool,
                         ghost r: Tree, root: Root)
    requires RepZip(c, Fork(l, node, red, Fork(Leaf, s, sred, r)), node, root.node)
    modifies root, CtxNodes(c), {s}, Nodes(l), Nodes(r)
    ensures RepZip(c, Fork(l, s, red, Paint(r, false)), s, root.node)
  {
    hide Rep, RepCtx, Nodes, CtxNodes;
    assert allocated(CtxNodes(c)) && allocated(Nodes(l)) && allocated(Nodes(r));
    OpenFork(Fork(l, node, red, Fork(Leaf, s, sred, r)), node, CtxParent(c));
    OpenFork(Fork(Leaf, s, sred, r), s, node);
    RepRoot(l, node.left, node);
    RepRoot(r, s.right, s);
    CtxParentIn(c);
    s.left := node.left;
    SetParent(l, s.left, node, s);
    TakePlace(c, node, s, root);
    SetParentColor(r, s.right, s, s, false);
    MakeFork(l, s, Paint(r, false));
  }

  // ----- the successor

  /** The context d put inside the context c. */
  ghost function Nest(d: Ctx, c: Ctx): (r: Ctx)
    decreases d
  {
    match d
    case Top => c
    case InLeft(up, n, red, sib) => InLeft(Nest(up, c), n, red, sib)
    case InRight(up, n, red, sib) => InRight(Nest(up, c), n, red, sib)
  }

  lemma {:induction false} NestPlug(d: Ctx, c: Ctx, t: Tree)
    ensures Plug(Nest(d, c), t) == Plug(c, Plug(d, t))
    decreases d
  {
    match d
    case Top =>
    case InLeft(up, n, red, sib) => NestPlug(up, c, Fork(t, n, red, sib));
    case InRight(up, n, red, sib) => NestPlug(up, c, Fork(sib, n, red, t));
  }

  lemma {:induction false} NestNodes(d: Ctx, c: Ctx)
    ensures CtxNodes(Nest(d, c)) == CtxNodes(d) + CtxNodes(c)
  {
    match d
    case Top =>
    case InLeft(up, n, red, sib) => NestNodes(up, c);
    case InRight(up, n, red, sib) => NestNodes(up, c);
  }

  /** From the focus inside d to the focus on all of d. */
  lemma {:induction false} Collapse(d: Ctx, c: Ctx, t: Tree, x: Node?, root: Node?) returns (y: Node?)
    requires RepZip(Nest(d, c), t, x, root)
    ensures RepZip(c, Plug(d, t), y, root)
    decreases d
  {
    match d
    case Top => y := x;
    case InLeft(up, n, red, sib) =>
      ZipUp(Nest(d, c), t, x, root);
      y := Collapse(up, c, Fork(t, n, red, sib), n, root);
    case InRight(up, n, red, sib) =>
      ZipUp(Nest(d, c), t, x, root);
      y := Collapse(up, c, Fork(sib, n, red, t), n, root);
  }

  /** From the focus on all of d to the focus inside d. */
  lemma {:induction false} Expand(d: Ctx, c: Ctx, t: Tree, y: Node?, root: Node?) returns (x: Node?)
    requires RepZip(c, Plug(d, t), y, root)
    ensures RepZip(Nest(d, c), t, x, root)
    decreases d
  {
    match d
    case Top => x := y;
    case InLeft(up, n, red, sib) =>
      var z := Expand(up, c, Fork(t, n, red, sib), y, root);
      ZipDown(Nest(up, c), Fork(t, n, red, sib), z, root);
      x := n.left;
    case InRight(up, n, red, sib) =>
      var z := Expand(up, c, Fork(sib, n, red, t), y, root);
      ZipDown(Nest(up, c), Fork(sib, n, red, t), z, root);
      x := n.right;
  }

  /** Whether a context accepts a subtree does not depend on which node is where. */
  lemma {:induction false} NestGood(d: Ctx, c: Ctx, n: Node, s: Node, red: bool, l: Tree, h: int)
    requires GoodCtx(Nest(d, InRight(c, n, red, l)), h)
    ensures GoodCtx(Nest(d, InRight(c, s, red, l)), h)
    decreases d
  {
    match d
    case Top =>
    case InLeft(up, m, r, sib) => NestGood(up, c, n, s, red, l, if r then h else h + 1);
    case InRight(up, m, r, sib) => NestGood(up, c, n, s, red, l, if r then h else h + 1);
  }

  /** The first node of the tree t below the hole of c: walk down the left children. */
  method FindMin(ghost c: Ctx, ghost t: Tree, child: Node, root: Root)
    returns (successor: Node, parent: Node, ghost d: Ctx, ghost sub: Tree)
    requires RepZip(c, t, child, root.node) && child.left != null
    ensures RepZip(Nest(d, c), sub, successor, root.node) && Plug(d, sub) == t
    ensures sub.Fork? && sub.l == Leaf && sub.n == successor && d.InLeft? && d.n == parent && Before(d) == []
  {
    hide Rep, RepCtx;
    RepRoot(t, child, CtxParent(c));
    OpenFork(t, child, CtxParent(c));
    ZipDown(c, t, child, root.node);
    d, sub := InLeft(Top, t.n, t.red, t.r), t.l;
    parent, successor := child, child.left;
    while successor.left != null
      invariant RepZip(Nest(d, c), sub, successor, root.node) && Plug(d, sub) == t
      invariant d.InLeft? && d.n == parent && Before(d) == []
      decreases sub
    {
      RepRoot(sub, successor, parent);
      OpenFork(sub, successor, parent);
      ZipDown(Nest(d, c), sub, successor, root.node);
      RepRoot(sub.l, successor.left, successor);
      d, sub := InLeft(d, sub.n, sub.red, sub.r), sub.l;
      parent, successor := successor, successor.left;
    }
    RepRoot(sub, successor, parent);
    OpenFork(sub, successor, parent);
    RepRoot(sub.l, successor.left, successor);
  }

  /** The left child s of parent, which has no left child itself, is replaced by its right child,
      and that becomes black. */
  method DetachMin(ghost c: Ctx, s: Node, ghost sred: bool, ghost r: Tree, parent: Node, root: Root)
    requires RepZip(c, Fork(Leaf, s, sred, r), s, root.node) && c.InLeft? && parent == c.n
    modifies parent`left, Nodes(r)
    ensures RepZip(c, Paint(r, false), s.right, root.node)
    ensures s !in CtxNodes(c) && s !in Nodes(r) && Nodes(Paint(r, false)) == Nodes(r)
  {
    hide Rep;
    assert allocated(CtxNodes(c.up)) && allocated(Nodes(c.sib)) && allocated(Nodes(r));
    OpenFork(Fork(Leaf, s, sred, r), s, parent);
    RepRoot(r, s.right, s);
    parent.left := s.right;
    SetParentColor(r, s.right, s, parent, false);
    PaintOrder(r, false);
  }

  // ----- the order of the nodes

  lemma RemoveMiddle(a: seq<Node>, l: seq<Node>, n: Node, r: seq<Node>, b: seq<Node>)
    ensures var s, k := a + (l + [n] + r) + b, |a| + |l|;
            s[k] == n && a + (l + r) + b == s[..k] + s[k + 1..]
  {
  }

  /** Removing the node of a subtree from the order. */
  lemma RemovedLine(c: Ctx, l: Tree, n: Node, red: bool, r: Tree, t: Tree)
    requires Inorder(t) == Inorder(l) + Inorder(r)
    ensures var s, k := Line(c, Fork(l, n, red, r)), |Before(c)| + |Inorder(l)|;
            k < |s| && s[k] == n && Line(c, t) == s[..k] + s[k + 1..]
  {
    hide Inorder, Before, After;
    InorderFork(l, n, red, r);
    RemoveMiddle(Before(c), Inorder(l), n, Inorder(r), After(c));
  }

  lemma InorderFork(l: Tree, n: Node, red: bool, r: Tree)
    ensures Inorder(Fork(l, n, red, r)) == Inorder(l) + [n] + Inorder(r)
  {
  }

  /** Replacing a node by its successor and filling the place of the successor removes the node. */
  lemma SuccessorOrder(d: Ctx, l: Tree, n: Node, red: bool, s: Node, sred: bool, r2: Tree, fill: Tree)
    requires Before(d) == [] && Inorder(fill) == Inorder(r2)
    ensures Inorder(Fork(l, s, red, Plug(d, fill))) == Inorder(l) + Inorder(Plug(d, Fork(Leaf, s, sred, r2)))
  {
    PlugInorder(d, fill);
    PlugInorder(d, Fork(Leaf, s, sred, r2));
  }

  // ----- removal

  /** The end of a removal: the place of the removed or moved node s, below parent, now holds its
      former right subtree r2, painted black. */
  method FinishErase(ghost c: Ctx, ghost s: Node, wasRed: bool, ghost r2: Tree, ghost h: int, child2: Node?,
                     parent: Node?, root: Root)
    requires RepZip(c, Paint(r2, false), child2, root.node) && parent == CtxParent(c)
    requires GoodCtx(c, h) && Good(Fork(Leaf, s, wasRed, r2), h) && (wasRed ==> IsBlackCtx(c))
    modifies root, CtxNodes(c), Nodes(r2)
    ensures root.Valid() && Inorder(root.tree) == Line(c, r2) && Nodes(root.tree) == CtxNodes(c) + Nodes(r2)
  {
    hide Rep, RepCtx, GoodCtx, Good, Inorder, Nodes, CtxNodes, Short;
    SpliceGood(c, Leaf, s, wasRed, r2, h);
    PaintOrder(r2, false);
    RepRoot(Paint(r2, false), child2, parent);
    if child2 != null || wasRed {
      KeepTree(c, Paint(r2, false), h, child2, root);
    } else if parent != null {
      EraseFix(parent, root, c, Leaf, h - 1);
    } else {
      EmptyKeeps(c, h);
      KeepTree(c, Leaf, 0, null, root);
    }
  }

  lemma EmptyKeeps(c: Ctx, h: int)
    requires c.Top?
    ensures Good(Leaf, 0) && GoodCtx(c, 0)
  {
  }

  /** _rb_erase of a node with at most one child. */
  method EraseLow(ghost c: Ctx, node: Node, ghost red: bool, ghost l: Tree, ghost r: Tree, ghost h: int, root: Root)
    requires RepZip(c, Fork(l, node, red, r), node, root.node) && (l.Leaf? || r.Leaf?)
    requires GoodCtx(c, h) && Good(Fork(l, node, red, r), h) && (red ==> IsBlackCtx(c))
    modifies root, CtxNodes(c), Nodes(l), Nodes(r)
    ensures root.Valid() && Nodes(root.tree) == CtxNodes(c) + Nodes(l) + Nodes(r)
    ensures Inorder(root.tree) == Line(c, if l.Leaf? then r else l)
  {
    hide Rep, RepCtx, GoodCtx, Good, Inorder, CtxNodes, Short, Line;
    OpenFork(Fork(l, node, red, r), node, CtxParent(c));
    RepRoot(l, node.left, node);
    RepRoot(r, node.right, node);
    SpliceGood(c, l, node, red, r, h);
    var wasRed, parent := node.red, node.parent;
    if node.left == null {
      var child := node.right;
      Splice(c, node, r, child, root);
      FinishErase(c, node, wasRed, r, h, child, parent, root);
    } else {
      var tmp := node.left;
      Splice(c, node, l, tmp, root);
      PaintOrder(l, false);
      PaintLine(c, l);
      KeepTree(c, Paint(l, false), h, tmp, root);
    }
  }

  lemma PaintLine(c: Ctx, t: Tree)
    ensures Line(c, Paint(t, false)) == Line(c, t)
  {
    PaintOrder(t, false);
  }

  /** The tree after node has been replaced by its successor s: the focus is where s was. */
  ghost predicate Moved(c: Ctx, d: Ctx, l: Tree, s: Node, red: bool, r2: Tree, child2: Node?, root: Node?)
    reads CtxNodes(Nest(d, InRight(c, s, red, l))), Nodes(Paint(r2, false))
  {
    RepZip(Nest(d, InRight(c, s, red, l)), Paint(r2, false), child2, root)
  }

  /** Replace node by its successor, which is its right child. */
  method MoveChild(ghost c: Ctx, node: Node, ghost red: bool, ghost l: Tree, s: Node, ghost sred: bool,
                   ghost r2: Tree, root: Root) returns (child2: Node?)
    requires RepZip(c, Fork(l, node, red, Fork(Leaf, s, sred, r2)), node, root.node)
    modifies root, CtxNodes(c), {s}, Nodes(l), Nodes(r2)
    ensures Moved(c, Top, l, s, red, r2, child2, root.node)
  {
    hide Rep, RepCtx, Nodes, CtxNodes;
    SubstituteChild(c, node, red, s, l, sred, r2, root);
    ZipDown(c, Fork(l, s, red, Paint(r2, false)), s, root.node);
    child2 := s.right;
  }

  /** Replace node by its successor s, which lies deeper in its right subtree. */
  method MoveDeep(ghost c: Ctx, node: Node, ghost red: bool, ghost l: Tree, ghost d: Ctx, s: Node, ghost sred: bool,
                  ghost r2: Tree, parent: Node, root: Root) returns (child2: Node?)
    requires RepZip(Nest(d, InRight(c, node, red, l)), Fork(Leaf, s, sred, r2), s, root.node)
    requires d.InLeft? && d.n == parent
    modifies root, CtxNodes(Nest(d, InRight(c, node, red, l))), {s}, Nodes(r2)
    ensures Moved(c, d, l, s, red, r2, child2, root.node)
  {
    hide Rep, RepCtx;
    ghost var c0, fill := InRight(c, node, red, l), Paint(r2, false);
    NestNodes(d, c0);
    PlugNodes(d, fill);
    assert CtxNodes(c0) == CtxNodes(c) + {node} + Nodes(l);
    DetachMin(Nest(d, c0), s, sred, r2, parent, root);
    child2 := s.right;
    PointerIs(fill, child2, parent);
    ghost var y := Collapse(d, c0, fill, child2, root.node);
    ZipUp(c0, Plug(d, fill), y, root.node);
    Substitute(c, node, red, s, l, Plug(d, fill), root);
    ZipDown(c, Fork(l, s, red, Plug(d, fill)), s, root.node);
    ghost var x := Expand(d, InRight(c, s, red, l), fill, s.right, root.node);
    PointerIs(fill, x, CtxParent(Nest(d, InRight(c, s, red, l))));
  }

  /** Black heights at the place of the successor, before and after it takes the place of node. */
  lemma SuccessorGood(c: Ctx, d: Ctx, l: Tree, n: Node, red: bool, s: Node, sred: bool, r2: Tree) returns (h: int)
    requires RedBlack(Plug(c, Fork(l, n, red, Plug(d, Fork(Leaf, s, sred, r2)))))
    ensures var e := Nest(d, InRight(c, s, red, l));
            GoodCtx(e, h) && Good(Fork(Leaf, s, sred, r2), h) && (sred ==> IsBlackCtx(e))
  {
    hide GoodCtx, Good, RedBlack;
    var sub, c0 := Fork(Leaf, s, sred, r2), InRight(c, n, red, l);
    NestPlug(d, c0, sub);
    h := UnplugGood(Nest(d, c0), sub);
    NestGood(d, c, n, s, red, l, h);
    NestBlack(d, c0, InRight(c, s, red, l));
  }

  lemma NestBlack(d: Ctx, a: Ctx, b: Ctx)
    requires IsBlackCtx(a) == IsBlackCtx(b)
    ensures IsBlackCtx(Nest(d, a)) == IsBlackCtx(Nest(d, b))
  {
  }

  lemma {:induction false} NestLine(d: Ctx, c: Ctx, t: Tree)
    ensures Line(Nest(d, c), t) == Line(c, Plug(d, t))
    decreases d
  {
    hide Line;
    match d
    case Top =>
    case InLeft(up, n, red, sib) =>
      LineUp(Nest(d, c), t);
      NestLine(up, c, Fork(t, n, red, sib));
    case InRight(up, n, red, sib) =>
      LineUp(Nest(d, c), t);
      NestLine(up, c, Fork(sib, n, red, t));
  }

  /** The order after node has been replaced by its successor: exactly node is gone. */
  lemma MovedOrder(c: Ctx, d: Ctx, l: Tree, n: Node, red: bool, s: Node, sred: bool, r2: Tree)
    requires Before(d) == []
    ensures var r := Plug(d, Fork(Leaf, s, sred, r2));
            var line, k := Line(c, Fork(l, n, red, r)), |Before(c)| + |Inorder(l)|;
            && k < |line| && line[k] == n
            && Line(Nest(d, InRight(c, s, red, l)), r2) == line[..k] + line[k + 1..]
  {
    hide Inorder, Line;
    NestLine(d, InRight(c, s, red, l), r2);
    LineUp(InRight(c, s, red, l), Plug(d, r2));
    SuccessorOrder(d, l, n, red, s, sred, r2, r2);
    RemovedLine(c, l, n, red, Plug(d, Fork(Leaf, s, sred, r2)), Fork(l, s, red, Plug(d, r2)));
  }

  lemma MovedNodes(c: Ctx, d: Ctx, l: Tree, n: Node, red: bool, s: Node, sred: bool, r2: Tree)
    ensures var r := Plug(d, Fork(Leaf, s, sred, r2));
            CtxNodes(Nest(d, InRight(c, s, red, l))) + Nodes(r2) == CtxNodes(c) + Nodes(l) + Nodes(r)
  {
    NestNodes(d, InRight(c, s, red, l));
    PlugNodes(d, Fork(Leaf, s, sred, r2));
  }

  lemma PlaceNodes(c: Ctx, d: Ctx, l: Tree, n: Node, red: bool, sub: Tree)
    requires sub.Fork?
    ensures CtxNodes(Nest(d, InRight(c, n, red, l))) <= CtxNodes(c) + Nodes(l) + Nodes(Plug(d, sub)) + {n}
    ensures {sub.n} + Nodes(sub.r) <= Nodes(Plug(d, sub))
  {
    NestNodes(d, InRight(c, n, red, l));
    PlugNodes(d, sub);
  }

  /** _rb_erase of a node with two children whose right child is its successor. */
  method EraseAboveChild(ghost c: Ctx, node: Node, ghost red: bool, ghost l: Tree, ghost r: Tree, child: Node,
                         root: Root)
    requires RepZip(c, Fork(l, node, red, r), node, root.node) && RedBlack(Plug(c, Fork(l, node, red, r)))
    requires r.Fork? && child == r.n && r.l == Leaf
    modifies root, CtxNodes(c), Nodes(l), Nodes(r), {node}
    ensures root.Valid() && Nodes(root.tree) == CtxNodes(c) + Nodes(l) + Nodes(r)
    ensures var line, k := Line(c, Fork(l, node, red, r)), |Before(c)| + |Inorder(l)|;
            k < |line| && line[k] == node && Inorder(root.tree) == line[..k] + line[k + 1..]
  {
    hide Rep, RepCtx, GoodCtx, Good, Inorder, CtxNodes, Line, Nodes, RedBlack, Plug;
    OpenFork(Fork(l, node, red, r), node, CtxParent(c));
    OpenFork(r, child, node);
    var wasRed := child.red;
    PlugTop(r);
    ghost var h := SuccessorGood(c, Top, l, node, red, child, r.red, r.r);
    MovedOrder(c, Top, l, node, red, child, r.red, r.r);
    MovedNodes(c, Top, l, node, red, child, r.red, r.r);
    var child2 := MoveChild(c, node, red, l, child, r.red, r.r, root);
    FinishErase(InRight(c, child, red, l), child, wasRed, r.r, h, child2, child, root);
  }

  /** _rb_erase of a node with two children whose successor lies deeper. */
  method EraseAboveDeep(ghost c: Ctx, node: Node, ghost red: bool, ghost l: Tree, ghost r: Tree, child: Node,
                        root: Root)
    requires RepZip(c, Fork(l, node, red, r), node, root.node) && RedBlack(Plug(c, Fork(l, node, red, r)))
    requires child == node.right && child.left != null
    modifies root, CtxNodes(c), Nodes(l), Nodes(r), {node}
    ensures root.Valid() && Nodes(root.tree) == CtxNodes(c) + Nodes(l) + Nodes(r)
    ensures var line, k := Line(c, Fork(l, node, red, r)), |Before(c)| + |Inorder(l)|;
            k < |line| && line[k] == node && Inorder(root.tree) == line[..k] + line[k + 1..]
  {
    hide Rep, RepCtx, GoodCtx, Good, Inorder, CtxNodes, Line, Nodes, RedBlack, Plug;
    ghost var c0 := InRight(c, node, red, l);
    ZipDown(c, Fork(l, node, red, r), node, root.node);
    var s, parent, d, sub := FindMin(c0, r, child, root);
    OpenFork(sub, s, CtxParent(Nest(d, c0)));
    var wasRed := s.red;
    ghost var h := SuccessorGood(c, d, l, node, red, s, sub.red, sub.r);
    MovedOrder(c, d, l, node, red, s, sub.red, sub.r);
    MovedNodes(c, d, l, node, red, s, sub.red, sub.r);
    PlaceNodes(c, d, l, node, red, sub);
    var child2 := MoveDeep(c, node, red, l, d, s, sub.red, sub.r, parent, root);
    FinishErase(Nest(d, InRight(c, s, red, l)), s, wasRed, sub.r, h, child2, parent, root);
  }

  /** _rb_erase of a node with two children. */
  method EraseHigh(ghost c: Ctx, node: Node, ghost red: bool, ghost l: Tree, ghost r: Tree, root: Root)
    requires RepZip(c, Fork(l, node, red, r), node, root.node) && r.Fork? && RedBlack(Plug(c, Fork(l, node, red, r)))
    modifies root, CtxNodes(c), Nodes(l), Nodes(r), {node}
    ensures root.Valid() && Nodes(root.tree) == CtxNodes(c) + Nodes(l) + Nodes(r)
    ensures var line, k := Line(c, Fork(l, node, red, r)), |Before(c)| + |Inorder(l)|;
            k < |line| && line[k] == node && Inorder(root.tree) == line[..k] + line[k + 1..]
  {
    hide Rep, RepCtx, Inorder, CtxNodes, Line, Nodes, RedBlack, Plug;
    OpenFork(Fork(l, node, red, r), node, CtxParent(c));
    OpenFork(r, node.right, node);
    var child: Node := node.right;
    if child.left == null {
      RepRoot(r.l, child.left, child);
      EraseAboveChild(c, node, red, l, r, child, root);
    } else {
      EraseAboveDeep(c, node, red, l, r, child, root);
    }
  }

  lemma PlugTop(t: Tree)
    ensures Plug(Top, t) == t
  {
  }

  /** Where a node of the tree is. */
  lemma {:induction false} Locate(c: Ctx, t: Tree, x: Node?, root: Node?, node: Node) returns (c': Ctx, t': Tree)
    requires RepZip(c, t, x, root) && node in Nodes(t)
    ensures RepZip(c', t', node, root) && t'.Fork? && t'.n == node && Plug(c', t') == Plug(c, t)
    decreases t
  {
    if node == t.n {
      c', t' := c, t;
    } else {
      ZipDown(c, t, x, root);
      if node in Nodes(t.l) {
        c', t' := Locate(InLeft(c, t.n, t.red, t.r), t.l, t.n.left, root, node);
      } else {
        c', t' := Locate(InRight(c, t.n, t.red, t.l), t.r, t.n.right, root, node);
      }
    }
  }

  /** The nodes of a represented zipper other than the one in focus. */
  lemma OtherNodes(c: Ctx, t: Tree, x: Node?, root: Node?)
    requires RepZip(c, t, x, root) && t.Fork?
    ensures CtxNodes(c) + Nodes(t.l) + Nodes(t.r) == Nodes(Plug(c, t)) - {t.n}
  {
    PlugNodes(c, t);
  }

  /** _rb_erase: exactly node is removed from the order, and the tree is a red-black tree again. */
  method Erase(node: Node, root: Root) returns (ghost k: nat)
    requires root.Valid() && node in Nodes(root.tree)
    modifies root, Nodes(root.tree)
    ensures root.Valid() && Nodes(root.tree) == Nodes(old(root.tree)) - {node}
    ensures var s := Inorder(old(root.tree)); k < |s| && s[k] == node && Inorder(root.tree) == s[..k] + s[k + 1..]
  {
    hide Rep, RepCtx, GoodCtx, Good, Inorder, CtxNodes, Line, Nodes, RedBlack, Before, After;
    ghost var whole := root.tree;
    StartZip(whole, root.node);
    ghost var c, t := Locate(Top, whole, root.node, root.node, node);
    OtherNodes(c, t, node, root.node);
    PlugNodes(c, t);
    NodesOfFork(t.l, t.n, t.red, t.r);
    PlugLine(c, t);
    OpenFork(t, node, CtxParent(c));
    RepRoot(t.l, node.left, node);
    RepRoot(t.r, node.right, node);
    k := |Before(c)| + |Inorder(t.l)|;
    if node.left != null && node.right != null {
      EraseHigh(c, node, t.red, t.l, t.r, root);
    } else {
      ghost var h := UnplugGood(c, t);
      LowOrder(t.l, t.r);
      RemovedLine(c, t.l, node, t.red, t.r, if t.l.Leaf? then t.r else t.l);
      EraseLow(c, node, t.red, t.l, t.r, h, root);
    }
  }

  lemma StartZip(t: Tree, x: Node?)
    requires Rep(t, x, null)
    ensures RepZip(Top, t, x, x) && Plug(Top, t) == t
  {
  }

  lemma PlugLine(c: Ctx, t: Tree)
    ensures Inorder(Plug(c, t)) == Line(c, t)
  {
    PlugInorder(c, t);
  }

  lemma LowOrder(l: Tree, r: Tree)
    ensures l.Leaf? || r.Leaf? ==> Inorder(if l.Leaf? then r else l) == Inorder(l) + Inorder(r)
  {
  }

  /** Removing a node keeps every search order. */
  lemma RemovalKeepsOrder(cmp: (Node, Node) -> bool, s: seq<Node>, k: nat)
    requires k < |s| && forall i, j :: 0 <= i < j < |s| ==> cmp(s[i], s[j])
    ensures var r := s[..k] + s[k + 1..]; forall i, j :: 0 <= i < j < |r| ==> cmp(r[i], r[j])
  {
    var r := s[..k] + s[k + 1..];
    forall i, j | 0 <= i < j < |r| ensures cmp(r[i], r[j]) {
      var i', j' := if i < k then i else i + 1, if j < k then j else j + 1;
      assert r[i] == s[i'] && r[j] == s[j'];
    }
  }
}
