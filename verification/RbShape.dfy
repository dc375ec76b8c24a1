/**
 The shape of the intrusive red-black tree (src/common/rbtree.h, src/common/rbtree.c) as values:
 trees of nodes, and trees with a hole (contexts), so that a fix-up loop that climbs from a node
 to the root is a walk from a hole to the outermost context.
 */
module RbShape {

  /** struct rb_node_: colour and parent share one word in memory and are two fields here. */
  class Node {
    var left: Node?
    var right: Node?
    var parent: Node?
    var red: bool
  }

  datatype Tree = Leaf | Fork(l: Tree, n: Node, red: bool, r: Tree)

  /** A tree with a hole: the hole is the left (InLeft) or right (InRight) child of node n, whose
      other child is sib; up is what surrounds n. */
  datatype Ctx =
    | Top
    | InLeft(up: Ctx, n: Node, red: bool, sib: Tree)
    | InRight(up: Ctx, n: Node, red: bool, sib: Tree)

  ghost function Plug(c: Ctx, t: Tree): (r: Tree)
    decreases c
  {
    match c
    case Top => t
    case InLeft(up, n, red, sib) => Plug(up, Fork(t, n, red, sib))
    case InRight(up, n, red, sib) => Plug(up, Fork(sib, n, red, t))
  }

  ghost function Inorder(t: Tree): (s: seq<Node>)
  {
    match t
    case Leaf => []
    case Fork(l, n, _, r) => Inorder(l) + [n] + Inorder(r)
  }

  /** The nodes that come before the hole, in order. */
  ghost function Before(c: Ctx): (s: seq<Node>)
  {
    match c
    case Top => []
    case InLeft(up, n, _, sib) => Before(up)
    case InRight(up, n, _, sib) => Before(up) + Inorder(sib) + [n]
  }

  /** The nodes that come after the hole, in order. */
  ghost function After(c: Ctx): (s: seq<Node>)
  {
    match c
    case Top => []
    case InLeft(up, n, _, sib) => [n] + Inorder(sib) + After(up)
    case InRight(up, n, _, sib) => After(up)
  }

  lemma {:induction false} PlugInorder(c: Ctx, t: Tree)
    ensures Inorder(Plug(c, t)) == Before(c) + Inorder(t) + After(c)
    decreases c
  {
    match c
    case Top =>
    case InLeft(up, n, red, sib) => PlugInorder(up, Fork(t, n, red, sib));
    case InRight(up, n, red, sib) => PlugInorder(up, Fork(sib, n, red, t));
  }

  // ----- colours and black heights

  predicate IsRed(t: Tree) {
    t.Fork? && t.red
  }

  /** Every path from the root of t to a leaf passes h black nodes. */
  ghost predicate BlackHeight(t: Tree, h: int) {
    match t
    case Leaf => h == 0
    case Fork(l, _, red, r) =>
      var below := if red then h else h - 1;
      BlackHeight(l, below) && BlackHeight(r, below)
  }

  /** No red node has a red child. */
  ghost predicate NoRedRed(t: Tree) {
    match t
    case Leaf => true
    case Fork(l, _, red, r) => NoRedRed(l) && NoRedRed(r) && (red ==> !IsRed(l) && !IsRed(r))
  }

  /** A well-coloured subtree of black height h. */
  ghost predicate Good(t: Tree, h: int) {
    BlackHeight(t, h) && NoRedRed(t)
  }

  /** A red-black tree: well coloured, with a black root. */
  ghost predicate RedBlack(t: Tree) {
    !IsRed(t) && exists h :: Good(t, h)
  }

  /** The context accepts a well-coloured subtree of black height h whose root is black. */
  ghost predicate GoodCtx(c: Ctx, h: int)
    decreases c
  {
    match c
    case Top => true
    case InLeft(up, _, red, sib) =>
      Good(sib, h) && (red ==> !IsRed(sib) && IsBlackCtx(up)) && GoodCtx(up, if red then h else h + 1)
    case InRight(up, _, red, sib) =>
      Good(sib, h) && (red ==> !IsRed(sib) && IsBlackCtx(up)) && GoodCtx(up, if red then h else h + 1)
  }

  /** The node above the hole exists and is black. */
  predicate IsBlackCtx(c: Ctx) {
    !c.Top? && !c.red
  }

  lemma {:induction false} PlugGood(c: Ctx, t: Tree, h: int)
    requires GoodCtx(c, h) && Good(t, h) && (IsRed(t) ==> IsBlackCtx(c))
    ensures RedBlack(Plug(c, t))
    decreases c
  {
    match c
    case Top => assert Good(t, h);
    case InLeft(up, n, red, sib) => PlugGood(up, Fork(t, n, red, sib), if red then h else h + 1);
    case InRight(up, n, red, sib) => PlugGood(up, Fork(sib, n, red, t), if red then h else h + 1);
  }

  /** Any place in a red-black tree splits it into a good context and a good subtree. */
  lemma {:induction false} UnplugGood(c: Ctx, t: Tree) returns (h: int)
    requires RedBlack(Plug(c, t))
    ensures GoodCtx(c, h) && Good(t, h) && (IsRed(t) ==> IsBlackCtx(c))
    decreases c
  {
    match c
    case Top => h :| Good(t, h);
    case InLeft(up, n, red, sib) =>
      h := UnplugGood(up, Fork(t, n, red, sib));
      h := if red then h else h - 1;
    case InRight(up, n, red, sib) =>
      h := UnplugGood(up, Fork(sib, n, red, t));
      h := if red then h else h - 1;
  }

  lemma {:induction false} BlackHeightPositive(t: Tree, h: int)
    requires BlackHeight(t, h)
    ensures h >= 0 && (h > 0 ==> t.Fork?)
  {
    match t
    case Leaf =>
    case Fork(l, _, red, _) => BlackHeightPositive(l, if red then h else h - 1);
  }

  // ----- nodes and links in memory

  ghost function Nodes(t: Tree): (s: set<Node>)
  {
    match t
    case Leaf => {}
    case Fork(l, n, _, r) => Nodes(l) + {n} + Nodes(r)
  }

  ghost function CtxNodes(c: Ctx): (s: set<Node>)
  {
    match c
    case Top => {}
    case InLeft(up, n, _, sib) => CtxNodes(up) + {n} + Nodes(sib)
    case InRight(up, n, _, sib) => CtxNodes(up) + {n} + Nodes(sib)
  }

  function CtxParent(c: Ctx): (p: Node?)
  {
    if c.Top? then null else c.n
  }

  /** Memory holds the tree t at pointer x, below parent p: children, parent pointers and colours
      are as in t, and no node occurs twice. */
  ghost predicate Rep(t: Tree, x: Node?, p: Node?)
    reads Nodes(t)
  {
    match t
    case Leaf => x == null
    case Fork(l, n, red, r) =>
      && x == n && n.parent == p && n.red == red
      && n !in Nodes(l) && n !in Nodes(r) && Nodes(l) !! Nodes(r)
      && Rep(l, n.left, n) && Rep(r, n.right, n)
  }

  /** Memory holds the context c around pointer x, with root as the pointer to the whole tree. */
  ghost predicate RepCtx(c: Ctx, x: Node?, root: Node?)
    reads CtxNodes(c)
  {
    match c
    case Top => root == x
    case InLeft(up, n, red, sib) =>
      && n.left == x && n.parent == CtxParent(up) && n.red == red
      && n !in CtxNodes(up) && n !in Nodes(sib) && CtxNodes(up) !! Nodes(sib)
      && Rep(sib, n.right, n) && RepCtx(up, n, root)
    case InRight(up, n, red, sib) =>
      && n.right == x && n.parent == CtxParent(up) && n.red == red
      && n !in CtxNodes(up) && n !in Nodes(sib) && CtxNodes(up) !! Nodes(sib)
      && Rep(sib, n.left, n) && RepCtx(up, n, root)
  }

  /** Memory holds the tree Plug(c, t), with t at pointer x. */
  ghost predicate RepZip(c: Ctx, t: Tree, x: Node?, root: Node?)
    reads CtxNodes(c), Nodes(t)
  {
    RepCtx(c, x, root) && Rep(t, x, CtxParent(c)) && CtxNodes(c) !! Nodes(t)
  }

  lemma {:induction false} PlugNodes(c: Ctx, t: Tree)
    ensures Nodes(Plug(c, t)) == CtxNodes(c) + Nodes(t)
    decreases c
  {
    match c
    case Top =>
    case InLeft(up, n, red, sib) => PlugNodes(up, Fork(t, n, red, sib));
    case InRight(up, n, red, sib) => PlugNodes(up, Fork(sib, n, red, t));
  }

  /** A represented zipper is a represented tree. */
  lemma {:induction false} PlugRep(c: Ctx, t: Tree, x: Node?, root: Node?)
    requires RepZip(c, t, x, root)
    ensures Rep(Plug(c, t), root, null)
    decreases c
  {
    match c
    case Top =>
    case InLeft(up, n, red, sib) => PlugRep(up, Fork(t, n, red, sib), n, root);
    case InRight(up, n, red, sib) => PlugRep(up, Fork(sib, n, red, t), n, root);
  }

  /** The nodes of a represented tree, in order, are all different and are its nodes. */
  lemma {:induction false} InorderNodes(t: Tree)
    ensures forall x :: x in Inorder(t) ==> x in Nodes(t)
    ensures forall x :: x in Nodes(t) ==> x in Inorder(t)
  {
    if t.Fork? {
      InorderNodes(t.l);
      InorderNodes(t.r);
    }
  }
}
