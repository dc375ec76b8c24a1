/**
 Searching and inserting in the red-black tree under a comparison function
 (src/common/rbtree.c: _rb_insert, _rb_lookup, _rb_first).
 */
module RbSearch {
  import opened RbShape
  import opened RbInsert
  import opened Words

  /** cmp is a strict order on the nodes of s. Nodes of which neither is below the other have the
      same key. */
  ghost predicate StrictOrder(cmp: (Node, Node) -> bool, s: set<Node>) {
    && (forall x :: x in s ==> !cmp(x, x))
    && (forall x, y, z :: x in s && y in s && z in s && cmp(x, y) && cmp(y, z) ==> cmp(x, z))
  }

  ghost predicate Sorted(cmp: (Node, Node) -> bool, s: seq<Node>) {
    forall i, j :: 0 <= i < j < |s| ==> cmp(s[i], s[j])
  }

  predicate SameKey(cmp: (Node, Node) -> bool, x: Node, y: Node) {
    !cmp(x, y) && !cmp(y, x)
  }

  /** Everything in a is below x and x is below everything in b. */
  ghost predicate Between(cmp: (Node, Node) -> bool, a: seq<Node>, x: Node, b: seq<Node>) {
    (forall y :: y in a ==> cmp(y, x)) && (forall y :: y in b ==> cmp(x, y))
  }

  lemma LineDown(c: Ctx, t: Tree)
    requires t.Fork?
    ensures Line(InLeft(c, t.n, t.red, t.r), t.l) == Line(c, t)
    ensures Line(InRight(c, t.n, t.red, t.l), t.r) == Line(c, t)
    ensures Before(InRight(c, t.n, t.red, t.l)) == Before(c) + Inorder(t.l) + [t.n]
    ensures After(InLeft(c, t.n, t.red, t.r)) == [t.n] + Inorder(t.r) + After(c)
  {
    LineUp(InLeft(c, t.n, t.red, t.r), t.l);
    LineUp(InRight(c, t.n, t.red, t.l), t.r);
  }

  /** Going left past n: n and everything to its right is above node. */
  lemma StepLeft(cmp: (Node, Node) -> bool, line: seq<Node>, a: seq<Node>, l: seq<Node>, n: Node, r: seq<Node>,
                 b: seq<Node>, node: Node, s: set<Node>)
    requires StrictOrder(cmp, s) && node in s && (forall x :: x in line ==> x in s)
    requires line == a + (l + [n] + r) + b && Sorted(cmp, line) && Between(cmp, a, node, b) && cmp(node, n)
    ensures Between(cmp, a, node, [n] + r + b)
  {
    var k := |a| + |l|;
    assert line[k] == n;
    forall y | y in r ensures cmp(node, y) {
      var i :| 0 <= i < |r| && r[i] == y;
      assert line[k + 1 + i] == y;
      assert n in line && y in line;
    }
  }

  /** Going right past n: n and everything to its left is below node. */
  lemma StepRight(cmp: (Node, Node) -> bool, line: seq<Node>, a: seq<Node>, l: seq<Node>, n: Node, r: seq<Node>,
                  b: seq<Node>, node: Node, s: set<Node>)
    requires StrictOrder(cmp, s) && node in s && (forall x :: x in line ==> x in s)
    requires line == a + (l + [n] + r) + b && Sorted(cmp, line) && Between(cmp, a, node, b) && cmp(n, node)
    ensures Between(cmp, a + l + [n], node, b)
  {
    var k := |a| + |l|;
    assert line[k] == n;
    forall y | y in l ensures cmp(y, node) {
      var i :| 0 <= i < |l| && l[i] == y;
      assert line[|a| + i] == y;
      assert n in line && y in line;
    }
  }

  /** The number of nodes on the longest path from the root. */
  ghost function Height(t: Tree): (h: nat)
  {
    if t.Leaf? then 0 else 1 + (if Height(t.l) > Height(t.r) then Height(t.l) else Height(t.r))
  }

  ghost function Size(t: Tree): (n: nat)
    ensures n == |Inorder(t)|
  {
    if t.Leaf? then 0 else Size(t.l) + 1 + Size(t.r)
  }

  /** A subtree of black height h has at least 2^h - 1 nodes and is at most 2h (+1 if its root is
      red) levels high. */
  lemma {:induction false} BlackHeightBounds(t: Tree, h: nat)
    requires Good(t, h)
    ensures Pow2(h) <= Size(t) + 1
    ensures Height(t) <= 2 * h + (if IsRed(t) then 1 else 0)
  {
    if t.Fork? {
      BlackHeightPositive(t.l, if t.red then h else h - 1);
      BlackHeightBounds(t.l, if t.red then h else h - 1);
      BlackHeightBounds(t.r, if t.red then h else h - 1);
    }
  }

  /** A red-black tree of n nodes is at most 2 log2(n + 1) levels high. */
  lemma HeightBound(t: Tree) returns (h: nat)
    requires RedBlack(t)
    ensures Height(t) <= 2 * h && Pow2(h) <= |Inorder(t)| + 1
  {
    var k :| Good(t, k);
    BlackHeightPositive(t, k);
    h := k;
    BlackHeightBounds(t, h);
  }

  /** _rb_lookup: the node with the key of node, or null when there is none; it visits at most as
      many nodes as the tree is high. */
  method Lookup(node: Node, root: Root, cmp: (Node, Node) -> bool) returns (nw: Node?, ghost steps: nat)
    requires root.Valid() && StrictOrder(cmp, Nodes(root.tree) + {node}) && Sorted(cmp, Inorder(root.tree))
    ensures nw != null ==> nw in Nodes(root.tree) && SameKey(cmp, node, nw)
    ensures nw == null ==> forall x :: x in Nodes(root.tree) ==> !SameKey(cmp, node, x)
    ensures steps <= Height(root.tree)
  {
    hide RepCtx, Rep, Line, Inorder, Nodes, CtxNodes, StrictOrder, Sorted;
    ghost var c, t := Top, root.tree;
    StartLine(t, root.node);
    nw := root.node;
    steps := 0;
    while nw != null
      invariant RepZip(c, t, nw, root.node)
      invariant Line(c, t) == Inorder(root.tree) && Between(cmp, Before(c), node, After(c))
      invariant steps + Height(t) <= Height(root.tree)
      decreases Height(t)
    {
      steps := steps + 1;
      RepRoot(t, nw, CtxParent(c));
      OpenFork(t, nw, CtxParent(c));
      ZipDown(c, t, nw, root.node);
      LineDown(c, t);
      Visit(cmp, c, t, root.tree, node);
      if cmp(node, nw) {
        c, t := InLeft(c, t.n, t.red, t.r), t.l;
        nw := nw.left;
      } else if cmp(nw, node) {
        c, t := InRight(c, t.n, t.red, t.l), t.r;
        nw := nw.right;
      } else {
        return;
      }
    }
    NotFound(cmp, c, t, nw, root.node, root.tree, node);
  }

  lemma StartLine(t: Tree, x: Node?)
    requires Rep(t, x, null)
    ensures RepZip(Top, t, x, x) && Line(Top, t) == Inorder(t) && Before(Top) == [] == After(Top)
    ensures Plug(Top, t) == t
  {
  }

  /** What a comparison at the root of t says about the rest of the search. */
  lemma Visit(cmp: (Node, Node) -> bool, c: Ctx, t: Tree, whole: Tree, node: Node)
    requires t.Fork? && Line(c, t) == Inorder(whole) && Between(cmp, Before(c), node, After(c))
    requires StrictOrder(cmp, Nodes(whole) + {node}) && Sorted(cmp, Inorder(whole))
    ensures t.n in Nodes(whole)
    ensures cmp(node, t.n) ==> Between(cmp, Before(c), node, [t.n] + Inorder(t.r) + After(c))
    ensures cmp(t.n, node) ==> Between(cmp, Before(c) + Inorder(t.l) + [t.n], node, After(c))
  {
    hide Between, StrictOrder, Sorted, Nodes;
    var line := Inorder(whole);
    InorderNodes(whole);
    assert line[|Before(c)| + |Inorder(t.l)|] == t.n;
    assert t.n in line;
    if cmp(node, t.n) {
      StepLeft(cmp, line, Before(c), Inorder(t.l), t.n, Inorder(t.r), After(c), node, Nodes(whole) + {node});
    }
    if cmp(t.n, node) {
      StepRight(cmp, line, Before(c), Inorder(t.l), t.n, Inorder(t.r), After(c), node, Nodes(whole) + {node});
    }
  }

  lemma NotFound(cmp: (Node, Node) -> bool, c: Ctx, t: Tree, x: Node?, root: Node?, whole: Tree, node: Node)
    requires RepZip(c, t, x, root) && x == null
    requires Line(c, t) == Inorder(whole) && Between(cmp, Before(c), node, After(c))
    ensures t == Leaf && Inorder(whole) == Before(c) + After(c)
    ensures forall x :: x in Nodes(whole) ==> !SameKey(cmp, node, x)
  {
    InorderNodes(whole);
    RepRoot(t, x, CtxParent(c));
  }

  /** _rb_first: the first node in order, or null when the tree is empty. */
  method First(root: Root) returns (n: Node?)
    requires root.Valid()
    ensures n == null <==> Inorder(root.tree) == []
    ensures n != null ==> n == Inorder(root.tree)[0]
  {
    hide RepCtx, Rep;
    n := root.node;
    RepRoot(root.tree, root.node, null);
    if n == null {
      return;
    }
    ghost var t, rest, p := root.tree, [], null;
    while n.left != null
      invariant n != null && Rep(t, n, p) && Inorder(root.tree) == Inorder(t) + rest
      decreases t
    {
      RepRoot(t, n, p);
      OpenFork(t, n, p);
      RepRoot(t.l, n.left, n);
      rest := [t.n] + Inorder(t.r) + rest;
      p := n;
      n := n.left;
      t := t.l;
    }
    RepRoot(t, n, p);
    OpenFork(t, n, p);
    RepRoot(t.l, n.left, n);
  }

  /** The new node: red, without children. */
  ghost function Single(node: Node): (t: Tree)
  {
    Fork(Leaf, node, true, Leaf)
  }

  /** Hang the new node below parent, where the search fell off the tree. */
  method Attach(ghost c: Ctx, parent: Node, node: Node, toLeft: bool, root: Root)
    requires RepZip(c, Leaf, null, root.node) && !c.Top? && parent == c.n && toLeft == c.InLeft?
    requires node !in CtxNodes(c) && node.left == null && node.right == null && node.red
    modifies parent`left, parent`right, node`parent
    ensures RepZip(c, Single(node), node, root.node)
  {
    assert allocated(CtxNodes(c.up)) && allocated(Nodes(c.sib));
    if toLeft {
      parent.left := node;
    } else {
      parent.right := node;
    }
    node.parent := parent;
  }

  /** Where the search fell off a red-black tree, a red node can be hung. */
  lemma LeafPlace(c: Ctx, whole: Tree) returns (h: int)
    requires Plug(c, Leaf) == whole && RedBlack(whole)
    ensures GoodCtx(c, h)
    ensures forall node {:trigger Single(node)} :: Good(Single(node), h)
    ensures CtxNodes(c) == Nodes(whole)
  {
    h := UnplugGood(c, Leaf);
    PlugNodes(c, Leaf);
  }

  lemma SortedInsert(cmp: (Node, Node) -> bool, a: seq<Node>, b: seq<Node>, node: Node)
    requires Sorted(cmp, a + b) && Between(cmp, a, node, b)
    ensures Sorted(cmp, a + [node] + b)
  {
    var s := a + [node] + b;
    forall i, j | 0 <= i < j < |s| ensures cmp(s[i], s[j]) {
      if i < |a| && j > |a| {
        assert (a + b)[i] == s[i] && (a + b)[j - 1] == s[j];
      } else if i < |a| && j < |a| {
        assert (a + b)[i] == s[i] && (a + b)[j] == s[j];
      } else if i > |a| {
        assert (a + b)[i - 1] == s[i] && (a + b)[j - 1] == s[j];
      }
    }
  }

  lemma FellOff(c: Ctx, t: Tree, x: Node?, root: Node?, whole: Tree, node: Node)
    requires RepZip(c, t, x, root) && x == null && Plug(c, t) == whole && node !in Nodes(whole)
    ensures t == Leaf && node !in CtxNodes(c)
  {
    RepRoot(t, x, CtxParent(c));
    PlugNodes(c, t);
  }

  lemma EmptyTree(t: Tree, node: Node, root: Node?)
    requires RepZip(Top, t, null, root)
    requires node.left == null && node.right == null && node.red && node.parent == null
    ensures t == Leaf && RepZip(Top, Single(node), node, node)
  {
    RepRoot(t, null, null);
  }

  lemma SingleNodes(node: Node)
    ensures Nodes(Single(node)) == {node}
  {
  }

  /** The order with the new node at the place of the hole. */
  lemma InsertedLine(cmp: (Node, Node) -> bool, c: Ctx, whole: Tree, node: Node)
    requires Line(c, Leaf) == Inorder(whole) && Sorted(cmp, Inorder(whole))
    requires Between(cmp, Before(c), node, After(c))
    ensures var s, k := Inorder(whole), |Before(c)|;
            && k <= |s| && Line(c, Single(node)) == s[..k] + [node] + s[k..]
            && Sorted(cmp, Line(c, Single(node)))
    ensures forall x :: x in Nodes(whole) ==> !SameKey(cmp, node, x)
  {
    hide Sorted;
    var s, k := Inorder(whole), |Before(c)|;
    InorderNodes(whole);
    assert s == Before(c) + After(c);
    assert Line(c, Single(node)) == Before(c) + [node] + After(c);
    SortedInsert(cmp, Before(c), After(c), node);
  }

  /** _rb_insert. A node with a new key is added to the order at its place and nothing else changes
      in it; a node whose key is there already is refused with -1 and the tree is left alone. */
  method Insert(node: Node, root: Root, cmp: (Node, Node) -> bool) returns (rc: int, ghost k: nat)
    requires root.Valid() && node !in Nodes(root.tree)
    requires StrictOrder(cmp, Nodes(root.tree) + {node}) && Sorted(cmp, Inorder(root.tree))
    modifies root, Nodes(root.tree), node
    ensures root.Valid() && Sorted(cmp, Inorder(root.tree)) && (rc == 0 || rc == -1)
    ensures rc == -1 <==> exists x :: x in Nodes(old(root.tree)) && SameKey(cmp, node, x)
    ensures rc == -1 ==> root.tree == old(root.tree) && unchanged(root)
                         && forall x :: x in Nodes(root.tree) ==> unchanged(x)
    ensures rc == 0 ==> k <= |old(Inorder(root.tree))|
                        && Inorder(root.tree) == old(Inorder(root.tree))[..k] + [node] + old(Inorder(root.tree))[k..]
                        && Nodes(root.tree) == Nodes(old(root.tree)) + {node}
  {
    hide RepCtx, Rep, Line, Inorder, Nodes, CtxNodes, StrictOrder, Sorted, RedBlack;
    ghost var whole := root.tree;
    assert allocated(Nodes(whole));
    var nw, parent: Node? := root.node, null;
    node.left, node.right := null, null;
    node.parent := null;
    node.red := true;
    k := 0;
    ghost var c, t := Top, whole;
    StartLine(t, root.node);
    while nw != null
      invariant parent == CtxParent(c) && root.tree == whole && unchanged(root) && Plug(c, t) == whole
      invariant node.left == null && node.right == null && node.red
      invariant nw != null || c.Top? ==> RepZip(c, t, nw, root.node) && node.parent == null && root.Valid()
                                         && forall x :: x in Nodes(whole) ==> unchanged(x)
      invariant nw == null && !c.Top? ==> RepZip(c, Single(node), node, root.node) && t == Leaf
      invariant Line(c, t) == Inorder(whole) && Between(cmp, Before(c), node, After(c))
      decreases t, nw
    {
      parent := nw;
      RepRoot(t, nw, CtxParent(c));
      OpenFork(t, nw, CtxParent(c));
      ZipDown(c, t, nw, root.node);
      LineDown(c, t);
      Visit(cmp, c, t, whole, node);
      if cmp(node, nw) {
        c, t := InLeft(c, t.n, t.red, t.r), t.l;
        nw := nw.left;
        if nw == null {
          FellOff(c, t, nw, root.node, whole, node);
          Attach(c, parent, node, true, root);
        }
      } else if cmp(nw, node) {
        c, t := InRight(c, t.n, t.red, t.l), t.r;
        nw := nw.right;
        if nw == null {
          FellOff(c, t, nw, root.node, whole, node);
          Attach(c, parent, node, false, root);
        }
      } else {
        rc := -1;
        return;
      }
    }
    if c.Top? { EmptyTree(t, node, root.node); }
    ghost var h := LeafPlace(c, whole);
    k := |Before(c)|;
    InsertedLine(cmp, c, whole, node);
    SingleNodes(node);
    InsertFix(node, root, c, Single(node), h);
    rc := 0;
  }
}
