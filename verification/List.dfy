/**
 Circular doubly linked lists and the queue made of them (src/common/list.c), against sequences of nodes.
 */
module List {
  import opened Basics

  class ListNode {
    var prev: ListNode
    var next: ListNode

    /** init_list_node of a new node. */
    constructor ()
      ensures Circle([this]) && prev == this && next == this
    {
      prev := this;
      next := this;
    }
  }

  /** Neighbours in s are linked to each other. */
  ghost predicate Chain(s: seq<ListNode>)
    reads s
  {
    NoDup(s) && forall i :: 0 <= i < |s| - 1 ==> s[i].next == s[i + 1] && s[i + 1].prev == s[i]
  }

  /** A chain whose last node is linked to the first. */
  ghost predicate Circle(s: seq<ListNode>)
    reads s
  {
    s != [] && Chain(s) && s[|s| - 1].next == s[0] && s[0].prev == s[|s| - 1]
  }

  lemma JoinChains(a: seq<ListNode>, b: seq<ListNode>)
    requires Chain(a) && Chain(b) && Apart(a, b)
    requires a != [] && b != [] ==> a[|a| - 1].next == b[0] && b[0].prev == a[|a| - 1]
    ensures Chain(a + b)
  {
    var c := a + b;
    forall i | 0 <= i < |c| - 1 ensures c[i].next == c[i + 1] && c[i + 1].prev == c[i] {
      if i >= |a| { assert c[i] == b[i - |a|] && c[i + 1] == b[i + 1 - |a|]; }
    }
  }

  ghost predicate Apart(s: seq<ListNode>, t: seq<ListNode>) {
    forall i, j :: 0 <= i < |s| && 0 <= j < |t| ==> s[i] != t[j]
  }

  /** Where a circle begins does not matter. */
  lemma Rotate(s: seq<ListNode>, k: nat)
    requires Circle(s) && k < |s|
    ensures Circle(s[k..] + s[..k])
  {
    var t := s[k..] + s[..k];
    forall i | 0 <= i < |t| - 1 ensures t[i].next == t[i + 1] && t[i + 1].prev == t[i] {
      if i < |s| - k - 1 {
        assert t[i] == s[i + k] && t[i + 1] == s[i + k + 1];
      } else if i == |s| - k - 1 {
        assert t[i] == s[|s| - 1] && t[i + 1] == s[0];
      } else {
        assert t[i] == s[i - (|s| - k)] && t[i + 1] == s[i - (|s| - k) + 1];
      }
    }
    forall i, j | 0 <= i < j < |t| ensures t[i] != t[j] {
      assert t[i] == (if i < |s| - k then s[i + k] else s[i - (|s| - k)]);
      assert t[j] == (if j < |s| - k then s[j + k] else s[j - (|s| - k)]);
    }
  }

  lemma RestApart(s: seq<ListNode>, t: seq<ListNode>)
    requires s != [] && NoDup(s) && Apart(s, t)
    ensures Apart([s[0]], t) && Apart([s[0]] + t, s[1..])
  {
    forall i, j | 0 <= i < |[s[0]] + t| && 0 <= j < |s[1..]| ensures ([s[0]] + t)[i] != s[1..][j] {
      assert s[1..][j] == s[j + 1];
      if i > 0 { assert ([s[0]] + t)[i] == t[i - 1]; }
    }
  }

  /** _merge_list of two lists: the circle of node2 goes in behind node1. */
  method Splice(node1: ListNode, node2: ListNode, ghost s: seq<ListNode>, ghost t: seq<ListNode>)
    requires Circle(s) && s[0] == node1 && Circle(t) && t[0] == node2 && Apart(s, t)
    modifies s, t
    ensures Circle([node1] + t + s[1..])
  {
    ghost var rest := s[1..];
    RestApart(s, t);
    assert s == [node1] + rest && forall i :: 0 <= i < |rest| ==> rest[i] == s[i + 1];
    var node3 := node1.next;
    var node4 := node2.prev;
    assert node3 == (if rest == [] then node1 else rest[0]) && node4 == t[|t| - 1];
    node1.next := node2;
    node2.prev := node1;
    node4.next := node3;
    node3.prev := node4;
    assert Chain(t) && Chain(rest) && Chain([node1]);
    hide Chain, Apart;
    JoinChains([node1], t);
    JoinChains([node1] + t, rest);
  }

  /** _merge_list, where either list may be missing. */
  method Merge(node1: ListNode?, node2: ListNode?, ghost s: seq<ListNode>, ghost t: seq<ListNode>)
    returns (r: ListNode?)
    requires node1 != null ==> Circle(s) && s[0] == node1
    requires node2 != null ==> Circle(t) && t[0] == node2
    requires node1 != null && node2 != null ==> Apart(s, t)
    modifies s, t
    ensures r == if node1 != null then node1 else node2
    ensures node1 != null && node2 != null ==> Circle([node1] + t + s[1..])
    ensures node1 == null && node2 != null ==> Circle(t)
    ensures node1 != null && node2 == null ==> Circle(s)
  {
    if node1 == null { return node2; }
    if node2 == null { return node1; }
    Splice(node1, node2, s, t);
    r := node1;
  }

  /** _insert_into_list: the new node goes in behind list. */
  method Insert(list: ListNode, node: ListNode, ghost s: seq<ListNode>) returns (r: ListNode?)
    requires Circle(s) && s[0] == list && node !in s
    modifies s, node
    ensures Circle([list, node] + s[1..]) && r == list
  {
    node.prev := node;
    node.next := node;
    Splice(list, node, s, [node]);
    r := list;
    assert [list] + [node] == [list, node];
  }

  /** _detach_from_list: node becomes a circle of its own, the rest closes up. */
  method Detach(node: ListNode, ghost rest: seq<ListNode>) returns (r: ListNode?)
    requires Circle([node] + rest)
    modifies node, rest
    ensures Circle([node])
    ensures rest == [] ==> r == null
    ensures rest != [] ==> Circle(rest) && r == rest[|rest| - 1]
  {
    ghost var s := [node] + rest;
    assert forall i :: 0 <= i < |rest| ==> s[i + 1] == rest[i];
    var prev := node.prev;
    assert s[0] == node && (rest != [] ==> node.next == s[1] == rest[0] && prev == s[|s| - 1] == rest[|rest| - 1]);
    assert rest != [] ==> node.next in rest && prev in rest;
    node.prev.next := node.next;
    node.next.prev := node.prev;
    node.prev := node;
    node.next := node;
    r := if prev == node then null else prev;
  }

  // ----- queues

  /** init_list_node. */
  method Renew(node: ListNode, ghost s: seq<ListNode>)
    requires node !in s && (s != [] ==> Circle(s))
    modifies node
    ensures Circle([node]) && (s != [] ==> Circle(s))
  {
    node.prev := node;
    node.next := node;
  }

  /** The item goes in behind the last of items. */
  method PushAfter(ghost items: seq<ListNode>, end: ListNode, item: ListNode)
    requires items != [] && end == items[|items| - 1] && item !in items && Circle(items)
    modifies items, item
    ensures Circle(items + [item])
  {
    hide Circle, Apart;
    ghost var n := |items| - 1;
    ghost var s := items[n..] + items[..n];
    Rotate(items, n);
    assert s[0] == end && forall x :: x in s ==> x in items;
    Renew(item, s);
    NotIn(s, item);
    Splice(end, item, s, [item]);
    PushedCircle(items, item);
  }

  lemma NotIn(s: seq<ListNode>, x: ListNode)
    requires x !in s
    ensures Apart(s, [x])
  {
  }

  lemma PushedCircle(items: seq<ListNode>, item: ListNode)
    requires items != [] && Circle([items[|items| - 1]] + [item] + (items[|items| - 1..] + items[..|items| - 1])[1..])
    ensures Circle(items + [item])
  {
    var n := |items| - 1;
    var t := [items[n]] + [item] + (items[n..] + items[..n])[1..];
    assert t == [items[n], item] + items[..n];
    if n > 0 {
      Rotate(t, 2);
      assert t[2..] + t[..2] == items + [item];
    } else {
      assert t == items + [item];
    }
  }

  /** struct Queue: a circle from begin to end. */
  class Queue {
    var begin: ListNode?
    var end: ListNode?
    var sz: nat
    ghost var items: seq<ListNode>

    ghost predicate Valid()
      reads this, items
    {
      && sz == |items|
      && (sz == 0 ==> begin == null && end == null)
      && (sz > 0 ==> Circle(items) && begin == items[0] && end == items[sz - 1])
    }

    /** queue_init. */
    constructor ()
      ensures Valid() && items == []
    {
      begin, end, sz, items := null, null, 0, [];
    }

    /** queue_push. */
    method Push(item: ListNode)
      requires Valid() && item !in items
      modifies this, items, item
      ensures Valid() && items == old(items) + [item]
    {
      hide Circle, Apart;
      if sz == 0 {
        Renew(item, []);
        begin, end := item, item;
        assert items + [item] == [item];
      } else {
        PushAfter(items, end, item);
        end := item;
      }
      items := items + [item];
      sz := sz + 1;
    }

    /** queue_pop: false where the kernel panics. */
    method Pop() returns (ok: bool)
      requires Valid()
      modifies this, items
      ensures ok <==> old(items) != []
      ensures Valid() && items == if ok then old(items)[1..] else old(items)
    {
      if sz == 0 { return false; }
      if sz == 1 {
        begin, end := null, null;
      } else {
        var t := begin;
        begin := t.next;
        assert items == [t] + items[1..];
        var _ := Detach(t, items[1..]);
      }
      items := items[1..];
      sz := sz - 1;
      ok := true;
    }

    /** queue_front: null where the kernel panics. */
    method Front() returns (r: ListNode?)
      requires Valid()
      ensures if items == [] then r == null else r == items[0]
    {
      r := begin;
    }
  }
}
