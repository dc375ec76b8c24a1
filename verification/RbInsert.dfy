/**
 Pointer surgery shared by insertion and removal, and insertion itself
 (src/common/rbtree.c: __rb_change_child, __rb_rotate_set_parents, __rb_insert_fix, _rb_insert).
 */
module RbInsert {
  import opened RbShape

  /** struct rb_root_. */
  class Root {
    var node: Node?
    ghost var tree: Tree

    /** The memory below this root holds a red-black tree. */
    ghost predicate Valid()
      reads this, Nodes(tree)
    {
      Rep(tree, node, null) && RedBlack(tree)
    }
  }

  ghost function Paint(t: Tree, red: bool): (r: Tree)
  {
    if t.Leaf? then t else t.(red := red)
  }

  ghost function One(x: Node?): (s: set<Node>)
  {
    if x == null then {} else {x}
  }

  lemma RepRoot(t: Tree, x: Node?, p: Node?)
    requires Rep(t, x, p)
    ensures One(x) <= Nodes(t) && (x == null <==> t.Leaf?)
  {
  }

  lemma CtxParentIn(c: Ctx)
    ensures One(CtxParent(c)) <= CtxNodes(c)
  {
  }

  /** Two represented subtrees below a node that links to them. */
  lemma MakeFork(l: Tree, n: Node, r: Tree)
    requires Rep(l, n.left, n) && Rep(r, n.right, n)
    requires n !in Nodes(l) && n !in Nodes(r) && Nodes(l) !! Nodes(r)
    ensures Rep(Fork(l, n, n.red, r), n, n.parent)
    ensures Nodes(Fork(l, n, n.red, r)) == Nodes(l) + {n} + Nodes(r)
  {
  }

  /** if (x) rb_set_parent_color(x, p, color). */
  method SetParentColor(ghost t: Tree, x: Node?, ghost q: Node?, p: Node, red: bool)
    requires Rep(t, x, q)
    modifies One(x)`parent, One(x)`red
    ensures Rep(Paint(t, red), x, p) && Nodes(Paint(t, red)) == Nodes(t)
  {
    if x != null {
      x.parent := p;
      x.red := red;
    }
  }

  /** if (x) rb_set_parent(x, p). */
  method SetParent(ghost t: Tree, x: Node?, ghost q: Node?, p: Node)
    requires Rep(t, x, q)
    modifies One(x)`parent
    ensures Rep(t, x, p)
  {
    if x != null {
      x.parent := p;
    }
  }

  /** __rb_change_child. */
  method ChangeChild(ghost c: Ctx, old_: Node, new_: Node?, parent: Node?, root: Root)
    requires RepCtx(c, old_, root.node) && parent == CtxParent(c) && old_ !in CtxNodes(c)
    modifies root, One(parent)`left, One(parent)`right
    ensures RepCtx(c, new_, root.node)
  {
    if parent != null {
      if parent.left == old_ {
        parent.left := new_;
      } else {
        parent.right := new_;
      }
    } else {
      root.node := new_;
    }
  }

  /** __rb_rotate_set_parents: new_ takes the place of old_, which becomes its child. */
  method RotateSetParents(ghost up: Ctx, old_: Node, new_: Node, root: Root, red: bool)
    requires RepCtx(up, old_, root.node) && old_.parent == CtxParent(up)
    requires old_ !in CtxNodes(up) && new_ !in CtxNodes(up) && old_ != new_
    modifies root, old_`parent, old_`red, new_`parent, new_`red, One(old_.parent)`left, One(old_.parent)`right
    ensures RepCtx(up, new_, root.node)
    ensures new_.parent == CtxParent(up) && new_.red == old(old_.red)
    ensures old_.parent == new_ && old_.red == red
  {
    var parent := old_.parent;
    new_.parent := old_.parent;
    new_.red := old_.red;
    old_.parent := new_;
    old_.red := red;
    ChangeChild(up, old_, new_, parent, root);
  }

  /** Four disjoint sets of nodes and two more nodes. */
  ghost predicate Apart(a: set<Node>, b: set<Node>, c: set<Node>, d: set<Node>, x: Node, y: Node) {
    && a !! b && a !! c && a !! d && b !! c && b !! d && c !! d
    && x !in a && x !in b && x !in c && x !in d
    && y !in a && y !in b && y !in c && y !in d && x != y
  }

  /** Rotation to the right: old_ goes down with m and u as its children, new_ takes its place,
      its parent and its colour. The link from old_ to m has already been made. */
  method RotateRight(ghost up: Ctx, old_: Node, ghost u: Tree, new_: Node, ghost l: Tree, ghost m: Tree,
                     root: Root, red: bool)
    requires RepCtx(up, old_, root.node) && old_.parent == CtxParent(up)
    requires Rep(m, old_.left, old_) && Rep(u, old_.right, old_) && Rep(l, new_.left, new_)
    requires Apart(Nodes(l), Nodes(m), Nodes(u), CtxNodes(up), new_, old_)
    modifies root, One(old_.parent), {old_, new_}
    ensures RepZip(up, Fork(l, new_, old(old_.red), Fork(m, old_, red, u)), new_, root.node)
  {
    hide Rep, RepCtx, Nodes, CtxNodes;
    assert allocated(Nodes(l)) && allocated(Nodes(m)) && allocated(Nodes(u)) && allocated(CtxNodes(up));
    CtxParentIn(up);
    new_.right := old_;
    RotateSetParents(up, old_, new_, root, red);
    MakeFork(m, old_, u);
    MakeFork(l, new_, Fork(m, old_, red, u));
  }

  /** Rotation to the left. */
  method RotateLeft(ghost up: Ctx, old_: Node, ghost u: Tree, new_: Node, ghost r: Tree, ghost m: Tree,
                    root: Root, red: bool)
    requires RepCtx(up, old_, root.node) && old_.parent == CtxParent(up)
    requires Rep(m, old_.right, old_) && Rep(u, old_.left, old_) && Rep(r, new_.right, new_)
    requires Apart(Nodes(r), Nodes(m), Nodes(u), CtxNodes(up), new_, old_)
    modifies root, One(old_.parent), {old_, new_}
    ensures RepZip(up, Fork(Fork(u, old_, red, m), new_, old(old_.red), r), new_, root.node)
  {
    hide Rep, RepCtx, Nodes, CtxNodes;
    assert allocated(Nodes(r)) && allocated(Nodes(m)) && allocated(Nodes(u)) && allocated(CtxNodes(up));
    CtxParentIn(up);
    new_.left := old_;
    RotateSetParents(up, old_, new_, root, red);
    MakeFork(u, old_, m);
    MakeFork(Fork(u, old_, red, m), new_, r);
  }

  /** What a represented tree says about its root and its subtrees. */
  lemma OpenFork(t: Tree, x: Node?, p: Node?)
    requires Rep(t, x, p) && t.Fork?
    ensures x == t.n && t.n.parent == p && t.n.red == t.red
    ensures Rep(t.l, t.n.left, t.n) && Rep(t.r, t.n.right, t.n)
    ensures t.n !in Nodes(t.l) && t.n !in Nodes(t.r) && Nodes(t.l) !! Nodes(t.r)
    ensures Nodes(t) == Nodes(t.l) + {t.n} + Nodes(t.r)
  {
  }

  /** Case 3: link m, at pointer tmp, below gparent, then rotate gparent down to the right. */
  method LiftRight(ghost up: Ctx, gparent: Node, ghost u: Tree, parent: Node, ghost l: Tree, ghost m: Tree,
                   tmp: Node?, ghost q: Node?, root: Root)
    requires RepCtx(up, gparent, root.node) && gparent.parent == CtxParent(up) && !gparent.red
    requires Rep(u, gparent.right, gparent) && Rep(l, parent.left, parent) && Rep(m, tmp, q) && !IsRed(m)
    requires Apart(Nodes(l), Nodes(m), Nodes(u), CtxNodes(up), parent, gparent)
    modifies root, CtxNodes(up), {gparent, parent}, Nodes(m)
    ensures RepZip(up, Fork(l, parent, false, Fork(m, gparent, true, u)), parent, root.node)
  {
    hide Rep, RepCtx, Nodes, CtxNodes;
    assert allocated(Nodes(l)) && allocated(Nodes(m)) && allocated(Nodes(u)) && allocated(CtxNodes(up));
    RepRoot(m, tmp, q);
    CtxParentIn(up);
    gparent.left := tmp;
    SetParentColor(m, tmp, q, gparent, false);
    RotateRight(up, gparent, u, parent, l, m, root, true);
  }

  /** Case 3, mirrored. */
  method LiftLeft(ghost up: Ctx, gparent: Node, ghost u: Tree, parent: Node, ghost r: Tree, ghost m: Tree,
                  tmp: Node?, ghost q: Node?, root: Root)
    requires RepCtx(up, gparent, root.node) && gparent.parent == CtxParent(up) && !gparent.red
    requires Rep(u, gparent.left, gparent) && Rep(r, parent.right, parent) && Rep(m, tmp, q) && !IsRed(m)
    requires Apart(Nodes(r), Nodes(m), Nodes(u), CtxNodes(up), parent, gparent)
    modifies root, CtxNodes(up), {gparent, parent}, Nodes(m)
    ensures RepZip(up, Fork(Fork(u, gparent, true, m), parent, false, r), parent, root.node)
  {
    hide Rep, RepCtx, Nodes, CtxNodes;
    assert allocated(Nodes(r)) && allocated(Nodes(m)) && allocated(Nodes(u)) && allocated(CtxNodes(up));
    RepRoot(m, tmp, q);
    CtxParentIn(up);
    gparent.right := tmp;
    SetParentColor(m, tmp, q, gparent, false);
    RotateLeft(up, gparent, u, parent, r, m, root, true);
  }

  // ----- insertion fix-up, parent to the left of gparent

  /** Case 3: node, with subtree t, is the left child of parent. */
  method InsertOuterLeft(ghost up: Ctx, gparent: Node, ghost u: Tree, parent: Node, ghost s: Tree,
                         ghost t: Tree, root: Root)
    requires RepZip(up, Fork(Fork(t, parent, true, s), gparent, false, u), gparent, root.node) && !IsRed(s)
    modifies root, CtxNodes(up), {gparent, parent}, Nodes(s)
    ensures RepZip(up, Fork(t, parent, false, Fork(s, gparent, true, u)), parent, root.node)
  {
    hide Rep, RepCtx, Nodes, CtxNodes;
    assert allocated(Nodes(t)) && allocated(Nodes(s)) && allocated(Nodes(u)) && allocated(CtxNodes(up));
    OpenFork(Fork(Fork(t, parent, true, s), gparent, false, u), gparent, CtxParent(up));
    OpenFork(Fork(t, parent, true, s), parent, gparent);
    LiftRight(up, gparent, u, parent, t, s, parent.right, parent, root);
  }

  /** Case 2: parent goes down to the left of its right child node. */
  method TurnLeft(parent: Node, ghost l: Tree, node: Node, ghost a: Tree, ghost b: Tree, ghost p: Node?, red: bool)
    requires Rep(Fork(l, parent, red, Fork(a, node, true, b)), parent, p) && !IsRed(a)
    modifies {parent, node}, Nodes(a)
    ensures Rep(Fork(l, parent, red, a), node.left, node) && Rep(b, node.right, node)
    ensures Nodes(Fork(l, parent, red, a)) !! Nodes(b)
    ensures node !in Nodes(Fork(l, parent, red, a)) && node !in Nodes(b)
  {
    hide Rep, Nodes;
    assert allocated(Nodes(l)) && allocated(Nodes(a)) && allocated(Nodes(b));
    OpenFork(Fork(l, parent, red, Fork(a, node, true, b)), parent, p);
    OpenFork(Fork(a, node, true, b), node, parent);
    var tmp := node.left;
    RepRoot(a, tmp, node);
    parent.right := tmp;
    SetParentColor(a, tmp, node, parent, false);
    node.left := parent;
    parent.parent := node;
    parent.red := red;
    MakeFork(l, parent, a);
  }

  /** Case 2, mirrored: parent goes down to the right of its left child node. */
  method TurnRight(parent: Node, ghost r: Tree, node: Node, ghost a: Tree, ghost b: Tree, ghost p: Node?, red: bool)
    requires Rep(Fork(Fork(a, node, true, b), parent, red, r), parent, p) && !IsRed(b)
    modifies {parent, node}, Nodes(b)
    ensures Rep(Fork(b, parent, red, r), node.right, node) && Rep(a, node.left, node)
    ensures Nodes(Fork(b, parent, red, r)) !! Nodes(a)
    ensures node !in Nodes(Fork(b, parent, red, r)) && node !in Nodes(a)
  {
    hide Rep, Nodes;
    assert allocated(Nodes(r)) && allocated(Nodes(a)) && allocated(Nodes(b));
    OpenFork(Fork(Fork(a, node, true, b), parent, red, r), parent, p);
    OpenFork(Fork(a, node, true, b), node, parent);
    var tmp := node.right;
    RepRoot(b, tmp, node);
    parent.left := tmp;
    SetParentColor(b, tmp, node, parent, false);
    node.right := parent;
    parent.parent := node;
    parent.red := red;
    MakeFork(b, parent, r);
  }

  lemma NodesOfFork(l: Tree, n: Node, red: bool, r: Tree)
    ensures Nodes(Fork(l, n, red, r)) == Nodes(l) + {n} + Nodes(r)
  {
  }

  /** Case 2 then 3: node, with children a and b, is the right child of parent. */
  method InsertInnerLeft(ghost up: Ctx, gparent: Node, ghost u: Tree, parent: Node, ghost l: Tree,
                         node: Node, ghost a: Tree, ghost b: Tree, root: Root)
    requires RepZip(up, Fork(Fork(l, parent, true, Fork(a, node, true, b)), gparent, false, u), gparent, root.node)
    requires !IsRed(a) && !IsRed(b)
    modifies root, CtxNodes(up), {gparent, parent, node}, Nodes(a), Nodes(b)
    ensures RepZip(up, Fork(Fork(l, parent, true, a), node, false, Fork(b, gparent, true, u)), node, root.node)
  {
    hide Rep, RepCtx, Nodes, CtxNodes;
    ghost var sub := Fork(l, parent, true, Fork(a, node, true, b));
    assert allocated(Nodes(sub)) && allocated(Nodes(b)) && allocated(Nodes(u)) && allocated(CtxNodes(up));
    OpenFork(Fork(sub, gparent, false, u), gparent, CtxParent(up));
    NodesOfFork(l, parent, true, Fork(a, node, true, b));
    NodesOfFork(a, node, true, b);
    NodesOfFork(l, parent, true, a);
    TurnLeft(parent, l, node, a, b, gparent, true);
    LiftRight(up, gparent, u, node, Fork(l, parent, true, a), b, node.right, node, root);
  }

  // ----- insertion fix-up, parent to the right of gparent

  /** Case 3: node, with subtree t, is the right child of parent. */
  method InsertOuterRight(ghost up: Ctx, gparent: Node, ghost u: Tree, parent: Node, ghost s: Tree,
                          ghost t: Tree, root: Root)
    requires RepZip(up, Fork(u, gparent, false, Fork(s, parent, true, t)), gparent, root.node) && !IsRed(s)
    modifies root, CtxNodes(up), {gparent, parent}, Nodes(s)
    ensures RepZip(up, Fork(Fork(u, gparent, true, s), parent, false, t), parent, root.node)
  {
    hide Rep, RepCtx, Nodes, CtxNodes;
    assert allocated(Nodes(t)) && allocated(Nodes(s)) && allocated(Nodes(u)) && allocated(CtxNodes(up));
    OpenFork(Fork(u, gparent, false, Fork(s, parent, true, t)), gparent, CtxParent(up));
    OpenFork(Fork(s, parent, true, t), parent, gparent);
    LiftLeft(up, gparent, u, parent, t, s, parent.left, parent, root);
  }

  /** Case 2 then 3: node, with children a and b, is the left child of parent. */
  method InsertInnerRight(ghost up: Ctx, gparent: Node, ghost u: Tree, parent: Node, ghost r: Tree,
                          node: Node, ghost a: Tree, ghost b: Tree, root: Root)
    requires RepZip(up, Fork(u, gparent, false, Fork(Fork(a, node, true, b), parent, true, r)), gparent, root.node)
    requires !IsRed(a) && !IsRed(b)
    modifies root, CtxNodes(up), {gparent, parent, node}, Nodes(a), Nodes(b)
    ensures RepZip(up, Fork(Fork(u, gparent, true, a), node, false, Fork(b, parent, true, r)), node, root.node)
  {
    hide Rep, RepCtx, Nodes, CtxNodes;
    ghost var sub := Fork(Fork(a, node, true, b), parent, true, r);
    assert allocated(Nodes(sub)) && allocated(Nodes(a)) && allocated(Nodes(u)) && allocated(CtxNodes(up));
    OpenFork(Fork(u, gparent, false, sub), gparent, CtxParent(up));
    NodesOfFork(Fork(a, node, true, b), parent, true, r);
    NodesOfFork(a, node, true, b);
    NodesOfFork(b, parent, true, r);
    TurnRight(parent, r, node, a, b, gparent, true);
    LiftLeft(up, gparent, u, node, Fork(b, parent, true, r), a, node.left, node, root);
  }

  /** Case 1: both children of gparent are red and become black, gparent becomes red. */
  method Recolor(ghost up: Ctx, gparent: Node, ghost l: Tree, ghost r: Tree, root: Root)
    requires RepZip(up, Fork(l, gparent, false, r), gparent, root.node) && IsRed(l) && IsRed(r)
    modifies {gparent}, {l.n, r.n}
    ensures RepZip(up, Fork(Paint(l, false), gparent, true, Paint(r, false)), gparent, root.node)
  {
    hide Rep, RepCtx, CtxNodes;
    assert allocated(Nodes(l)) && allocated(Nodes(r)) && allocated(CtxNodes(up));
    OpenFork(Fork(l, gparent, false, r), gparent, CtxParent(up));
    RepRoot(l, gparent.left, gparent);
    RepRoot(r, gparent.right, gparent);
    SetParentColor(l, gparent.left, gparent, gparent, false);
    SetParentColor(r, gparent.right, gparent, gparent, false);
    gparent.red := true;
    MakeFork(Paint(l, false), gparent, Paint(r, false));
  }

  // ----- the fix-up loop

  /** Moving the focus to the node above the hole. */
  ghost function Outer(c: Ctx, t: Tree): (r: Tree)
    requires !c.Top?
  {
    if c.InLeft? then Fork(t, c.n, c.red, c.sib) else Fork(c.sib, c.n, c.red, t)
  }

  lemma ZipUp(c: Ctx, t: Tree, x: Node?, root: Node?)
    requires RepZip(c, t, x, root) && !c.Top?
    ensures RepZip(c.up, Outer(c, t), c.n, root)
    ensures CtxNodes(c.up) + Nodes(Outer(c, t)) == CtxNodes(c) + Nodes(t)
  {
  }

  /** Moving the focus to a child. */
  lemma ZipDown(c: Ctx, t: Tree, x: Node?, root: Node?)
    requires RepZip(c, t, x, root) && t.Fork?
    ensures RepZip(InLeft(c, t.n, t.red, t.r), t.l, t.n.left, root)
    ensures RepZip(InRight(c, t.n, t.red, t.l), t.r, t.n.right, root)
  {
  }

  /** The whole sequence of nodes of a zipper. */
  ghost function Line(c: Ctx, t: Tree): (s: seq<Node>)
  {
    Before(c) + Inorder(t) + After(c)
  }

  lemma LineUp(c: Ctx, t: Tree)
    requires !c.Top?
    ensures Line(c.up, Outer(c, t)) == Line(c, t)
  {
  }

  /** Rotations keep the order of the nodes. */
  lemma RotationOrder(a: Tree, x: Node, b: Tree, y: Node, c: Tree, p: bool, q: bool, r: bool, s: bool)
    ensures Inorder(Fork(Fork(a, x, p, b), y, q, c)) == Inorder(Fork(a, x, r, Fork(b, y, s, c)))
    ensures Nodes(Fork(Fork(a, x, p, b), y, q, c)) == Nodes(Fork(a, x, r, Fork(b, y, s, c)))
  {
  }

  lemma DoubleRotationOrder(a: Tree, x: Node, b: Tree, y: Node, c: Tree, z: Node, d: Tree, p: bool, q: bool, r: bool,
                            s: bool, u: bool, v: bool)
    ensures var t := Fork(Fork(a, x, s, b), y, u, Fork(c, z, v, d));
            && Inorder(Fork(Fork(a, x, p, Fork(b, y, q, c)), z, r, d)) == Inorder(t)
            && Inorder(Fork(a, x, p, Fork(Fork(b, y, q, c), z, r, d))) == Inorder(t)
            && Nodes(Fork(Fork(a, x, p, Fork(b, y, q, c)), z, r, d)) == Nodes(t)
            && Nodes(Fork(a, x, p, Fork(Fork(b, y, q, c), z, r, d))) == Nodes(t)
  {
    RotationOrder(a, x, Fork(b, y, q, c), z, d, p, r, p, r);
    RotationOrder(a, x, b, y, Fork(c, z, v, d), s, u, p, u);
    RotationOrder(b, y, c, z, d, q, r, u, v);
  }

  lemma PaintOrder(t: Tree, red: bool)
    ensures Inorder(Paint(t, red)) == Inorder(t) && Nodes(Paint(t, red)) == Nodes(t)
  {
  }

  /** What the fix-up may rely on when the parent is red: a black grandparent exists. */
  lemma RedParent(c: Ctx, h: int)
    requires GoodCtx(c, h) && !c.Top? && c.red
    ensures !IsRed(c.sib) && Good(c.sib, h) && !c.up.Top? && !c.up.red
    ensures Good(c.up.sib, h) && GoodCtx(c.up.up, h + 1)
  {
  }

  /** The subtree at the grandparent. */
  ghost function Grand(c: Ctx, t: Tree): (r: Tree)
    requires !c.Top? && !c.up.Top?
  {
    Outer(c.up, Outer(c, t))
  }

  lemma ZipUpTwice(c: Ctx, t: Tree, x: Node?, root: Node?)
    requires RepZip(c, t, x, root) && !c.Top? && !c.up.Top?
    ensures RepZip(c.up.up, Grand(c, t), c.up.n, root)
    ensures CtxNodes(c.up.up) + Nodes(Grand(c, t)) == CtxNodes(c) + Nodes(t)
    ensures Line(c.up.up, Grand(c, t)) == Line(c, t)
  {
    hide RepZip, Line, Nodes, CtxNodes;
    ZipUp(c, t, x, root);
    ZipUp(c.up, Outer(c, t), c.n, root);
    LineUp(c, t);
    LineUp(c.up, Outer(c, t));
  }

  /** What the tests of the loop see in memory: the side of a node, and the colour of a subtree. */
  lemma Sides(c: Ctx, t: Tree, x: Node?, root: Node?)
    requires RepZip(c, t, x, root) && !c.Top? && x != null
    ensures x.parent == c.n && c.n.parent == CtxParent(c.up) && c.n.red == c.red
    ensures c.InRight? <==> x == c.n.right
    ensures c.InLeft? <==> x == c.n.left
    ensures Rep(c.sib, if c.InLeft? then c.n.right else c.n.left, c.n)
  {
  }

  lemma RedPointer(t: Tree, x: Node?, p: Node?)
    requires Rep(t, x, p)
    ensures IsRed(t) <==> x != null && x.red
  {
  }

  /** The recoloured grandparent is a good red subtree, one level up. */
  lemma RecolorGood(c: Ctx, t: Tree, h: int)
    requires GoodCtx(c, h) && !c.Top? && c.red && IsRed(t) && Good(t, h) && !c.up.Top? && IsRed(c.up.sib)
    ensures var g := Grand(c, t);
            && !g.red && IsRed(g.l) && IsRed(g.r)
            && Good(Fork(Paint(g.l, false), g.n, true, Paint(g.r, false)), h + 1)
            && GoodCtx(c.up.up, h + 1)
  {
    RedParent(c, h);
  }

  /** The subtree that replaces the grandparent when the uncle is black. */
  ghost function Rotated(c: Ctx, t: Tree): (r: Tree)
    requires !c.Top? && !c.up.Top? && t.Fork?
  {
    var g, u := c.up.n, c.up.sib;
    if c.up.InLeft? then
      if c.InLeft? then Fork(t, c.n, false, Fork(c.sib, g, true, u))
      else Fork(Fork(c.sib, c.n, true, t.l), t.n, false, Fork(t.r, g, true, u))
    else
      if c.InRight? then Fork(Fork(u, g, true, c.sib), c.n, false, t)
      else Fork(Fork(u, g, true, t.l), t.n, false, Fork(t.r, c.n, true, c.sib))
  }

  lemma RotatedGood(c: Ctx, t: Tree, h: int)
    requires GoodCtx(c, h) && !c.Top? && c.red && IsRed(t) && Good(t, h) && !c.up.Top? && !IsRed(c.up.sib)
    ensures Good(Rotated(c, t), h + 1) && !IsRed(Rotated(c, t)) && GoodCtx(c.up.up, h + 1)
  {
    RedParent(c, h);
  }

  lemma RotatedOrder(c: Ctx, t: Tree)
    requires !c.Top? && !c.up.Top? && t.Fork?
    ensures Inorder(Rotated(c, t)) == Inorder(Grand(c, t)) && Nodes(Rotated(c, t)) == Nodes(Grand(c, t))
  {
    hide Inorder, Nodes;
    var g, u, p, s := c.up.n, c.up.sib, c.n, c.sib;
    if c.up.InLeft? {
      if c.InLeft? {
        RotationOrder(t, p, s, g, u, c.red, c.up.red, false, true);
      } else {
        DoubleRotationOrder(s, p, t.l, t.n, t.r, g, u, c.red, t.red, c.up.red, true, false, true);
      }
    } else if c.InRight? {
      RotationOrder(u, g, s, p, t, true, false, c.up.red, c.red);
    } else {
      DoubleRotationOrder(u, g, t.l, t.n, t.r, p, s, c.up.red, t.red, c.red, true, false, true);
    }
  }

  /** Cases 2 and 3, on either side: the uncle is black. */
  method RotateInsert(ghost c: Ctx, ghost t: Tree, node: Node, parent: Node, gparent: Node, root: Root)
    requires RepZip(c, t, node, root.node) && IsRed(t) && NoRedRed(t)
    requires !c.Top? && c.red && parent == c.n && !IsRed(c.sib) && !c.up.Top? && !c.up.red && gparent == c.up.n
    modifies root, CtxNodes(c), Nodes(t)
    ensures RepZip(c.up.up, Rotated(c, t), Rotated(c, t).n, root.node)
  {
    hide RepCtx, Rep;
    Sides(c, t, node, root.node);
    ZipUp(c, t, node, root.node);
    Sides(c.up, Outer(c, t), parent, root.node);
    RepRoot(t, node, parent);
    ZipUpTwice(c, t, node, root.node);
    NodesOfFork(t.l, t.n, t.red, t.r);
    OpenFork(t, node, parent);
    if parent != gparent.right {
      if node == parent.right {
        InsertInnerLeft(c.up.up, gparent, c.up.sib, parent, c.sib, node, t.l, t.r, root);
      } else {
        InsertOuterLeft(c.up.up, gparent, c.up.sib, parent, c.sib, t, root);
      }
    } else {
      if node == parent.left {
        InsertInnerRight(c.up.up, gparent, c.up.sib, parent, c.sib, node, t.l, t.r, root);
      } else {
        InsertOuterRight(c.up.up, gparent, c.up.sib, parent, c.sib, t, root);
      }
    }
  }

  /** The pointer to the whole tree. It is not set yet when node is going to be the root. */
  ghost function RootPointer(c: Ctx, node: Node, root: Root): (x: Node?)
    reads root
  {
    if c.Top? then node else root.node
  }

  /** One turn of the loop that recolours: the focus is now the red grandparent. */
  method RecolorStep(ghost c: Ctx, ghost t: Tree, ghost h: int, gparent: Node, root: Root) returns (ghost r: Tree)
    requires IsRed(t) && RepZip(c, t, t.n, root.node) && Good(t, h) && GoodCtx(c, h)
    requires !c.Top? && c.red && !c.up.Top? && gparent == c.up.n && IsRed(c.up.sib)
    modifies CtxNodes(c), Nodes(t)
    ensures RepZip(c.up.up, r, gparent, root.node) && IsRed(r) && r.n == gparent && Good(r, h + 1)
    ensures GoodCtx(c.up.up, h + 1) && Line(c.up.up, r) == Line(c, t)
    ensures CtxNodes(c.up.up) + Nodes(r) == CtxNodes(c) + Nodes(t)
  {
    hide RepCtx, Rep, Line, GoodCtx, Good, Inorder;
    ZipUpTwice(c, t, t.n, root.node);
    RecolorGood(c, t, h);
    ghost var g := Grand(c, t);
    r := Fork(Paint(g.l, false), g.n, true, Paint(g.r, false));
    RecolorOrder(c.up.up, g);
    Recolor(c.up.up, gparent, g.l, g.r, root);
  }

  /** The turn of the loop that rotates ends the fix-up. */
  method RotateStep(ghost c: Ctx, ghost t: Tree, ghost h: int, node: Node, parent: Node, gparent: Node, root: Root)
    requires RepZip(c, t, node, root.node) && IsRed(t) && Good(t, h) && GoodCtx(c, h)
    requires !c.Top? && c.red && parent == c.n && !c.up.Top? && gparent == c.up.n && !IsRed(c.up.sib)
    modifies root, CtxNodes(c), Nodes(t)
    ensures root.Valid() && Inorder(root.tree) == Line(c, t) && Nodes(root.tree) == CtxNodes(c) + Nodes(t)
  {
    hide RepCtx, Rep, Line, GoodCtx, Inorder, Rotated;
    RedParent(c, h);
    ZipUpTwice(c, t, node, root.node);
    RotatedGood(c, t, h);
    RotatedOrder(c, t);
    RotateInsert(c, t, node, parent, gparent, root);
    FinishRotation(c, t, h, root.node);
    root.tree := Plug(c.up.up, Rotated(c, t));
  }

  /** Node is the root: it becomes black and the fix-up ends. */
  method BlackenRoot(ghost t: Tree, ghost h: int, node: Node, root: Root)
    requires RepZip(Top, t, node, node) && IsRed(t) && Good(t, h)
    modifies root, node
    ensures root.Valid() && Inorder(root.tree) == Line(Top, t) && Nodes(root.tree) == CtxNodes(Top) + Nodes(t)
  {
    hide RepCtx, Rep, Good, Nodes, CtxNodes, Inorder;
    assert allocated(Nodes(t));
    OpenFork(t, node, null);
    node.parent := null;
    node.red := false;
    root.node := node;
    MakeFork(t.l, node, t.r);
    root.tree := Paint(t, false);
    PaintOrder(t, false);
    TopLine(t);
    PaintGood(t, h);
  }

  /** Nothing is left to fix: the tree in memory is a red-black tree. */
  ghost method KeepTree(c: Ctx, t: Tree, h: int, x: Node?, root: Root)
    requires RepZip(c, t, x, root.node) && Good(t, h) && GoodCtx(c, h) && (IsRed(t) ==> IsBlackCtx(c))
    modifies root`tree
    ensures root.Valid() && Inorder(root.tree) == Line(c, t) && Nodes(root.tree) == CtxNodes(c) + Nodes(t)
  {
    hide RepCtx, Rep, GoodCtx, Good, Nodes, CtxNodes, Inorder;
    root.tree := Plug(c, t);
    PlugInorder(c, t);
    PlugNodes(c, t);
    PlugRep(c, t, x, root.node);
    PlugGood(c, t, h);
  }

  /** __rb_insert_fix: from a red node whose parent may be red to a red-black tree with the same
      nodes in the same order. Every turn of the loop moves two levels up. */
  method InsertFix(node0: Node, root: Root, ghost c0: Ctx, ghost t0: Tree, ghost h0: int)
    requires RepZip(c0, t0, node0, RootPointer(c0, node0, root))
    requires IsRed(t0) && t0.n == node0 && Good(t0, h0) && GoodCtx(c0, h0)
    modifies root, CtxNodes(c0), Nodes(t0)
    ensures root.Valid() && Inorder(root.tree) == Line(c0, t0) && Nodes(root.tree) == CtxNodes(c0) + Nodes(t0)
  {
    hide RepCtx, Rep, Line, GoodCtx, Good, Nodes, CtxNodes, Inorder;
    ghost var c, t, h := c0, t0, h0;
    ghost var all := CtxNodes(c0) + Nodes(t0);
    var node: Node := node0;
    OpenFork(t, node, CtxParent(c));
    var parent := node.parent;
    while true
      invariant RepZip(c, t, node, RootPointer(c, node, root)) && parent == CtxParent(c)
      invariant IsRed(t) && t.n == node && Good(t, h) && GoodCtx(c, h)
      invariant Line(c, t) == Line(c0, t0) && CtxNodes(c) + Nodes(t) == all
      decreases c
    {
      OpenFork(t, node, CtxParent(c));
      if parent == null {
        BlackenRoot(t, h, node, root);
        return;
      }
      Sides(c, t, node, root.node);
      if !parent.red {
        KeepTree(c, t, h, node, root);
        return;
      }
      RedParent(c, h);
      ZipUp(c, t, node, root.node);
      Sides(c.up, Outer(c, t), parent, root.node);
      var gparent := parent.parent;
      var tmp := if parent != gparent.right then gparent.right else gparent.left;
      RedPointer(c.up.sib, tmp, gparent);
      if tmp != null && tmp.red {
        t := RecolorStep(c, t, h, gparent, root);
        c, h := c.up.up, h + 1;
        node := gparent;
        OpenFork(t, node, CtxParent(c));
        parent := node.parent;
        TopPointer(c, t, node, root.node);
      } else {
        RotateStep(c, t, h, node, parent, gparent, root);
        return;
      }
    }
  }

  lemma TopPointer(c: Ctx, t: Tree, x: Node?, root: Node?)
    requires RepZip(c, t, x, root)
    ensures c.Top? ==> root == x
  {
  }

  lemma TopLine(t: Tree)
    ensures Line(Top, t) == Inorder(t) && CtxNodes(Top) + Nodes(t) == Nodes(t)
  {
  }

  lemma PaintGood(t: Tree, h: int)
    requires IsRed(t) && Good(t, h)
    ensures RedBlack(Paint(t, false))
  {
    assert Good(Paint(t, false), h + 1);
  }

  lemma RecolorOrder(c: Ctx, g: Tree)
    requires g.Fork?
    ensures var t := Fork(Paint(g.l, false), g.n, true, Paint(g.r, false));
            Line(c, t) == Line(c, g) && CtxNodes(c) + Nodes(t) == CtxNodes(c) + Nodes(g)
  {
    PaintOrder(g.l, false);
    PaintOrder(g.r, false);
  }

  lemma FinishRotation(c: Ctx, t: Tree, h: int, root: Node?)
    requires !c.Top? && !c.up.Top? && IsRed(t) && GoodCtx(c.up.up, h + 1)
    requires Good(Rotated(c, t), h + 1) && !IsRed(Rotated(c, t))
    requires Inorder(Rotated(c, t)) == Inorder(Grand(c, t)) && Nodes(Rotated(c, t)) == Nodes(Grand(c, t))
    requires RepZip(c.up.up, Rotated(c, t), Rotated(c, t).n, root)
    ensures var r := Plug(c.up.up, Rotated(c, t));
            && Rep(r, root, null) && RedBlack(r) && Inorder(r) == Line(c.up.up, Grand(c, t))
            && Nodes(r) == CtxNodes(c.up.up) + Nodes(Grand(c, t))
  {
    hide Rep, RepCtx, Good, GoodCtx, Rotated;
    var r := Rotated(c, t);
    PlugInorder(c.up.up, r);
    PlugNodes(c.up.up, r);
    PlugRep(c.up.up, r, r.n, root);
    PlugGood(c.up.up, r, h + 1);
  }
}
