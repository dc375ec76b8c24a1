/**
 The pages of physical memory (src/kernel/mem.c): contents, reference counts, and the stack of free ones.
 */
module Frames {
  import opened Basics

  type Frame = nat               // a physical page, by number
  type Contents = seq<nat>       // of a page, as 512 words
  type Memory = map<Frame, Contents>

  const N := 512                 // words of a page, entries of a table
  const PAGE_SIZE := 4096
  const FRAMES := 0x10_0000_0000 // 36 bits

  /** tables are the pages that hold page tables, zero is the shared page of zeros. */
  datatype Pages = Pages(free: seq<Frame>, ref: map<Frame, int>, data: Memory, tables: set<Frame>, zero: Frame)

  predicate Known(m: Pages, f: Frame) { f in m.ref && f in m.data && |m.data[f]| == N && f < FRAMES }

  /** A page that may be mapped. */
  predicate Usable(m: Pages, f: Frame) { Known(m, f) && f !in m.free && f !in m.tables }

  /** A page is free, a table, or neither. */
  ghost predicate PagesOk(m: Pages) {
    && NoDup(m.free) && Usable(m, m.zero) && m.ref.Keys == m.data.Keys
    && (forall f :: f in m.data ==> Known(m, f))
    && (forall f :: f in m.free ==> f in m.data && f !in m.tables)
    && (forall f :: f in m.tables ==> f in m.data)
  }

  /** kalloc_page: a page off the stack, with whatever contents it has. */
  function Taken(m: Pages): (r: Pages)
    requires m.free != []
  {
    m.(free := m.free[1..], ref := m.ref[m.free[0] := 0])
  }

  lemma FreeRest(fr: seq<Frame>)
    requires NoDup(fr) && fr != []
    ensures NoDup(fr[1..]) && fr[0] !in fr[1..] && forall f :: f in fr[1..] ==> f in fr
    ensures forall f :: f in fr && f != fr[0] ==> f in fr[1..]
  {
    assert fr == [fr[0]] + fr[1..];
  }

  lemma TakenShape(m: Pages)
    requires PagesOk(m) && m.free != []
    ensures PagesOk(Taken(m)) && Usable(Taken(m), m.free[0]) && m.free[0] != m.zero
  {
    FreeRest(m.free);
    assert m.free[0] in m.free;
  }

  /** The contents of a page that has been put on the stack fr. */
  function Linked(page: Contents, fr: seq<Frame>): (r: Contents)
    requires |page| == N
  {
    var next: nat := if fr == [] then 0 else fr[0] * PAGE_SIZE;
    page[0 := next]
  }

  /** kfree_page: one reference less; without references the page goes back to the stack, which is linked
      through its first word. */
  function Dropped(m: Pages, f: Frame): (r: Pages)
    requires Known(m, f)
  {
    var n := m.ref[f] - 1;
    if n <= 0 then m.(ref := m.ref[f := n], free := [f] + m.free, data := m.data[f := Linked(m.data[f], m.free)])
    else m.(ref := m.ref[f := n])
  }
}
