/**
 The four-level page table of a process (src/kernel/pt.c, src/aarch64/mmu.h): 512 entries of 64 bits to a
 table, one table to a page, 4 KB pages.
 */
module PageTable {
  import opened Basics
  import opened Frames

  // ----- addresses

  /** VA_PART0 to VA_PART3. */
  function Part(va: nat, level: nat): (i: nat)
    requires level < 4
    ensures i < N
  {
    match level
    case 0 => va / 0x80_0000_0000 % N
    case 1 => va / 0x4000_0000 % N
    case 2 => va / 0x20_0000 % N
    case 3 => va / 0x1000 % N
  }

  /** The masks and shifts of the macros take the same quotients and remainders. */
  lemma MasksAreDigits(va: bv64)
    ensures (va & 0xFF80_0000_0000) >> 39 == va / 0x80_0000_0000 % 512
    ensures (va & 0x7F_C000_0000) >> 30 == va / 0x4000_0000 % 512
    ensures (va & 0x3FE0_0000) >> 21 == va / 0x20_0000 % 512
    ensures (va & 0x1F_F000) >> 12 == va / 0x1000 % 512
    ensures va & !0xFFFF_0000_0000_0FFF == va / 0x1000 % 0x10_0000_0000 * 0x1000
  {
  }

  /** The path of table indices that leads to the last table. */
  function Path(va: nat): (p: seq<nat>)
  {
    [Part(va, 0), Part(va, 1), Part(va, 2)]
  }

  /** Bits 12 to 47 of an address. */
  function PageNumber(va: nat): (n: nat) { va / PAGE_SIZE % FRAMES }

  lemma PartsOfNumber(va: nat)
    ensures PageNumber(va) == ((Part(va, 0) * N + Part(va, 1)) * N + Part(va, 2)) * N + Part(va, 3)
  {
    var n := va / 0x1000;
    assert va / 0x20_0000 == n / 0x200;
    assert va / 0x4000_0000 == n / 0x4_0000;
    assert va / 0x80_0000_0000 == n / 0x800_0000;
    Digits(n);
  }

  /** Four digits of base 512. */
  lemma Digits(n: nat)
    ensures n % FRAMES == ((n / 0x800_0000 % N * N + n / 0x4_0000 % N) * N + n / 0x200 % N) * N + n % N
  {
    var a, b, c := n / 0x200, n / 0x4_0000, n / 0x800_0000;
    assert b == a / 0x200 && c == b / 0x200;
    assert n == a * N + n % N && a == b * N + a % N && b == c * N + b % N && c == c / N * N + c % N;
  }

  /** Two addresses have the same indices on all levels exactly when their page numbers agree. */
  lemma SameParts(va: nat, wa: nat)
    ensures (Path(va) == Path(wa) && Part(va, 3) == Part(wa, 3)) <==> PageNumber(va) == PageNumber(wa)
  {
    hide Part, PageNumber;
    PartsOfNumber(va);
    PartsOfNumber(wa);
    if PageNumber(va) == PageNumber(wa) {
      SameDigits((Part(va, 0) * N + Part(va, 1)) * N + Part(va, 2), Part(va, 3),
                 (Part(wa, 0) * N + Part(wa, 1)) * N + Part(wa, 2), Part(wa, 3));
      SameDigits(Part(va, 0) * N + Part(va, 1), Part(va, 2), Part(wa, 0) * N + Part(wa, 1), Part(wa, 2));
      SameDigits(Part(va, 0), Part(va, 1), Part(wa, 0), Part(wa, 1));
    } else {
      assert Path(va) == Path(wa) ==>
        Part(va, 0) == Path(wa)[0] && Part(va, 1) == Path(wa)[1] && Part(va, 2) == Path(wa)[2];
    }
  }

  lemma SameDigits(a: nat, i: nat, b: nat, j: nat)
    requires i < N && j < N && a * N + i == b * N + j
    ensures a == b && i == j
  {
  }

  // ----- entries

  /** K2P(pt) | PTE_TABLE for the page f. */
  function TableEntry(f: Frame): (e: nat) { f * PAGE_SIZE + 3 }

  /** The page of PTE_ADDRESS. */
  function FrameOf(e: nat): (f: Frame) { e / PAGE_SIZE % FRAMES }

  predicate IsValid(e: nat) { e % 2 == 1 }

  lemma EntryOfTable(f: Frame)
    requires f < FRAMES
    ensures FrameOf(TableEntry(f)) == f && IsValid(TableEntry(f))
  {
    assert TableEntry(f) / PAGE_SIZE == f;
    assert f % FRAMES == f;
    assert TableEntry(f) == 2 * (f * 2048 + 1) + 1;
  }

  // ----- trees of tables

  type Tree = map<seq<nat>, Frame>     // the tables by the path that leads to them

  predicate TableIn(mem: Memory, f: Frame) { f in mem && |mem[f]| == N && f < FRAMES }

  ghost predicate Places(mem: Memory, t: Tree) {
    && (forall p :: p in t ==> |p| <= 3 && TableIn(mem, t[p]))
    && (forall p :: p in t && p != [] ==> p[..|p| - 1] in t && p[|p| - 1] < N)
  }

  /** No table is reached in two ways. */
  ghost predicate Injective(t: Tree) {
    forall p, q :: p in t && q in t && p != q ==> t[p] != t[q]
  }

  /** Entry i of the table at p is valid exactly when there is a table there. */
  ghost predicate EntryOk(mem: Memory, t: Tree, p: seq<nat>, i: nat)
    requires p in t && TableIn(mem, t[p]) && i < N
  {
    var e := mem[t[p]][i];
    && (IsValid(e) <==> p + [i] in t)
    && (p + [i] in t ==> FrameOf(e) == t[p + [i]])
  }

  ghost predicate EntriesOk(mem: Memory, t: Tree) {
    forall p, i :: p in t && |p| < 3 && 0 <= i < N && TableIn(mem, t[p]) ==> EntryOk(mem, t, p, i)
  }

  ghost predicate TreeOk(mem: Memory, t: Tree) {
    Places(mem, t) && Injective(t) && EntriesOk(mem, t)
  }

  /** The leaf entry for va; 0 where there is no table. */
  ghost function Lookup(mem: Memory, t: Tree, va: nat): (e: nat)
  {
    if Path(va) in t && TableIn(mem, t[Path(va)]) then mem[t[Path(va)]][Part(va, 3)] else 0
  }

  function Zeros(): (t: seq<nat>)
    ensures |t| == N && forall i :: 0 <= i < N ==> t[i] == 0
  {
    seq(N, _ => 0)
  }

  /** The table at p gets a new table f at entry i. */
  function Grow(mem: Memory, t: Tree, p: seq<nat>, i: nat, f: Frame): (r: Memory)
    requires p in t && TableIn(mem, t[p]) && i < N
  {
    mem[f := Zeros()][t[p] := mem[t[p]][i := TableEntry(f)]]
  }

  lemma GrowEntries(mem: Memory, t: Tree, p: seq<nat>, i: nat, f: Frame, q: seq<nat>, j: nat)
    requires TreeOk(mem, t) && p in t && |p| < 3 && i < N && p + [i] !in t
    requires f < FRAMES && forall q :: q in t ==> t[q] != f
    requires q in t[p + [i] := f] && |q| < 3 && j < N
    ensures var r, u := Grow(mem, t, p, i, f), t[p + [i] := f]; TableIn(r, u[q]) && EntryOk(r, u, q, j)
  {
    EntryOfTable(f);
    hide TableEntry, FrameOf, IsValid;
    var r, u := Grow(mem, t, p, i, f), t[p + [i] := f];
    assert q + [j] == p + [i] ==> q == p && j == i by {
      assert (q + [j])[..|q|] == q && (p + [i])[..|p|] == p;
      assert (q + [j])[|q|] == j && (p + [i])[|p|] == i;
    }
    if q == p + [i] {
      assert r[f] == Zeros();
      assert q + [j] !in t by { assert q + [j] != [] && (q + [j])[..|q + [j]| - 1] == q; }
      InvalidZero();
    } else {
      assert EntryOk(mem, t, q, j);
    }
  }

  lemma InvalidZero()
    ensures !IsValid(0)
  {
  }

  lemma GrowTree(mem: Memory, t: Tree, p: seq<nat>, i: nat, f: Frame)
    requires TreeOk(mem, t) && p in t && |p| < 3 && i < N && p + [i] !in t
    requires f < FRAMES && forall q :: q in t ==> t[q] != f
    ensures TreeOk(Grow(mem, t, p, i, f), t[p + [i] := f])
  {
    hide EntryOk, EntriesOk, TableEntry;
    var r, u := Grow(mem, t, p, i, f), t[p + [i] := f];
    assert (p + [i])[..|p + [i]| - 1] == p;
    forall q, j | q in u && |q| < 3 && 0 <= j < N && TableIn(r, u[q]) ensures EntryOk(r, u, q, j) {
      GrowEntries(mem, t, p, i, f, q, j);
    }
    EntriesIntro(r, u);
  }

  lemma EntriesIntro(mem: Memory, t: Tree)
    requires forall p, i :: p in t && |p| < 3 && 0 <= i < N && TableIn(mem, t[p]) ==> EntryOk(mem, t, p, i)
    ensures EntriesOk(mem, t)
  {
  }

  /** No translation changes. */
  lemma GrowLookup(mem: Memory, t: Tree, p: seq<nat>, i: nat, f: Frame, va: nat)
    requires Places(mem, t) && Injective(t) && p in t && |p| < 3 && i < N && p + [i] !in t
    requires forall q :: q in t ==> t[q] != f
    ensures Lookup(Grow(mem, t, p, i, f), t[p + [i] := f], va) == Lookup(mem, t, va)
  {
    hide TableEntry, Part;
  }

  /** The slot of va and that of wa are the same exactly when their page numbers agree. */
  lemma SameSlot(t: Tree, va: nat, wa: nat)
    requires Injective(t) && Path(va) in t && Path(wa) in t
    ensures (t[Path(va)], Part(va, 3)) == (t[Path(wa)], Part(wa, 3)) <==> PageNumber(va) == PageNumber(wa)
  {
    hide Path, Part, PageNumber;
    SameParts(va, wa);
  }

  // ----- the page directory

  /** f is no table of t. */
  ghost predicate Unused(t: Tree, f: Frame) { forall p :: p in t ==> t[p] != f }

  /** The tables of t are known as tables, and not counted. */
  ghost predicate TreeIn(m: Pages, t: Tree) {
    forall p :: p in t ==> t[p] in m.tables && t[p] in m.ref && m.ref[t[p]] == 0
  }

  /** struct pgdir, with the physical memory that it uses. */
  class PgDir {
    var pt: Option<Frame>
    var m: Pages
    ghost var tree: Tree
    ghost var done: set<seq<nat>>   // the tables that free_pgdir has freed

    ghost predicate Valid()
      reads this
    {
      && PagesOk(m) && TreeOk(m.data, tree) && TreeIn(m, tree)
      && (pt.Some? ==> [] in tree && tree[[]] == pt.value)
      && (pt.None? ==> tree == map[])
    }

    /** A page directory with the tables t in the memory m. */
    constructor (pt: Option<Frame>, m: Pages, ghost t: Tree)
      requires PagesOk(m) && TreeOk(m.data, t) && TreeIn(m, t)
      requires if pt.Some? then [] in t && t[[]] == pt.value else t == map[]
      ensures Valid() && this.pt == pt && this.m == m && tree == t
    {
      this.pt, this.m, tree, done := pt, m, t, {};
    }

    /** One level of the walk: from the table f at p through its entry i. */
    method Descend(f: Frame, ghost p: seq<nat>, i: nat, alloc: bool) returns (r: Option<Frame>)
      requires Valid() && p in tree && tree[p] == f && |p| < 3 && i < N
      requires alloc ==> p + [i] in tree || m.free != []
      modifies this`m, this`tree
      ensures Valid() && Extends(old(m), old(tree), m, tree) && |m.free| >= old(|m.free|) - 1
      ensures !alloc || p + [i] in old(tree) ==> m == old(m) && tree == old(tree)
      ensures alloc ==> p + [i] in tree
      ensures r == if p + [i] in tree then Some(tree[p + [i]]) else None
    {
      hide TreeOk, PagesOk, TreeIn, Zeros, TableEntry, FrameOf, IsValid, Extends;
      EntryAt(m.data, tree, p, i);
      var e := m.data[f][i];
      ExtendsSame(m, tree);
      if IsValid(e) {
        r := Some(FrameOf(e));
      } else if alloc {
        GrowStep(m, tree, p, i);
        var g := m.free[0];
        m := NewTable(m);
        var table: seq<nat> := m.data[f][i := TableEntry(g)];
        m := m.(data := m.data[f := table]);
        tree := tree[p + [i] := g];
        r := Some(g);
      } else {
        r := None;
      }
    }

    /** A page directory without tables gets its first one. */
    method Root()
      requires Valid() && pt.None? && m.free != []
      modifies this
      ensures Valid() && pt.Some? && Extends(old(m), old(tree), m, tree) && |m.free| == old(|m.free|) - 1
    {
      hide TreeOk, PagesOk, TreeIn, Zeros, Extends;
      RootStep(m);
      var g := m.free[0];
      m := NewTable(m);
      pt := Some(g);
      tree := map[[] := g];
    }

    /** get_pte: the page table becomes no other map from addresses to entries. With alloc the slot of va is
        there afterwards; without, nothing changes and the slot is given if it is there. */
    method GetPte(va: nat, alloc: bool) returns (slot: Option<(Frame, nat)>)
      requires Valid() && (alloc ==> Path(va) in tree || |m.free| >= 4)
      modifies this
      ensures Valid() && Extends(old(m), old(tree), m, tree) && |m.free| >= old(|m.free|) - 4
      ensures alloc ==> Path(va) in tree
      ensures !alloc || Path(va) in old(tree) ==> pt == old(pt) && m == old(m) && tree == old(tree)
      ensures old(pt).Some? ==> pt == old(pt)
      ensures slot == if Path(va) in tree then Some((tree[Path(va)], Part(va, 3))) else None
    {
      hide TreeOk, PagesOk, TreeIn, Part, Extends;
      ExtendsSame(m, tree);
      if pt.None? {
        if !alloc { return None; }
        Root();
      }
      var a, b, c := Part(va, 0), Part(va, 1), Part(va, 2);
      assert [] + [a] == [a] && [a] + [b] == [a, b] && [a, b] + [c] == Path(va);
      PrefixThere(m.data, tree, a, b, c);
      ghost var m0, t0 := m, tree;
      var p1 := Descend(pt.value, [], a, alloc);
      ExtendsTrans(old(m), old(tree), m0, t0, m, tree);
      PrefixThere(m.data, tree, a, b, c);
      if p1.None? { return None; }
      m0, t0 := m, tree;
      var p2 := Descend(p1.value, [a], b, alloc);
      ExtendsTrans(old(m), old(tree), m0, t0, m, tree);
      PrefixThere(m.data, tree, a, b, c);
      if p2.None? { return None; }
      m0, t0 := m, tree;
      var p3 := Descend(p2.value, [a, b], c, alloc);
      ExtendsTrans(old(m), old(tree), m0, t0, m, tree);
      if p3.None? { return None; }
      slot := Some((p3.value, Part(va, 3)));
    }

    // ----- free_pgdir

    /** kfree_page of a page table, which goes back to the stack because it is not counted. */
    method FreeOneTable(ghost m0: Pages, ghost t: Tree, ghost p: seq<nat>, f: Frame)
      requires TreeOk(m0.data, t) && p in t && t[p] == f && p !in done && Freeing(m0, t, m, done)
      modifies this`m, this`done
      ensures Freeing(m0, t, m, done) && done == old(done) + {p}
    {
      hide TreeOk, Freeing;
      TreeParts(m0.data, t);
      NotDone(m0, t, m, done, p);
      FreeOne(m0, t, m, done, p);
      m := Dropped(m, f);
      m := m.(tables := m.tables - {f});
      done := done + {p};
    }

    /** The loops of free_pgdir: the tables below the table f at p, then f itself. */
    method FreeTable(ghost m0: Pages, ghost t: Tree, ghost p: seq<nat>, f: Frame, level: nat)
      requires TreeOk(m0.data, t) && p in t && t[p] == f && level == |p| <= 3
      requires Freeing(m0, t, m, done) && done !! Under(t, p)
      modifies this`m, this`done
      ensures Freeing(m0, t, m, done) && done == old(done) + Under(t, p)
      decreases 3 - level, 1
    {
      hide TreeOk, Freeing, FrameOf, IsValid, Under, Before;
      TreeParts(m0.data, t);
      BeforeAll(m0.data, t, p);
      if level < 3 {
        FreeBelow(m0, t, p, f, level);
      }
      FreeOneTable(m0, t, p, f);
    }

    method FreeBelow(ghost m0: Pages, ghost t: Tree, ghost p: seq<nat>, f: Frame, level: nat)
      requires TreeOk(m0.data, t) && p in t && t[p] == f && level == |p| < 3
      requires Freeing(m0, t, m, done) && done !! Under(t, p)
      modifies this`m, this`done
      ensures Freeing(m0, t, m, done) && done == old(done) + Before(t, p, N)
      decreases 3 - level, 0
    {
      hide TreeOk, Freeing, FrameOf, IsValid, Under, Before;
      TreeParts(m0.data, t);
      BeforeAll(m0.data, t, p);
      var i := 0;
      while i < N
        invariant 0 <= i <= N && Freeing(m0, t, m, done)
        invariant done == old(done) + Before(t, p, i)
      {
        UnderApart(m0.data, t, p, i, old(done));
        BeforeNext(m0.data, t, p, i);
        NotDone(m0, t, m, done, p);
        EntryAt(m0.data, t, p, i);
        var e := m.data[f][i];
        if IsValid(e) {
          FreeTable(m0, t, p + [i], FrameOf(e), level + 1);
        }
        i := i + 1;
      }
    }

    /** free_pgdir, after free_sections: every table of the tree goes back to the stack exactly once, and
        nothing else changes. */
    method FreePgdir()
      requires Valid()
      modifies this
      ensures pt.None? && tree == map[] && Freed(old(m), old(tree), m)
    {
      hide TreeOk, Freeing, Under, PagesOk, TreeIn, Freed;
      FreeingStart(m, tree);
      if pt.None? {
        FreeingEnd(m, tree, m, {});
        return;
      }
      done := {};
      UnderRoot(tree);
      FreeTable(m, tree, [], pt.value, 0);
      FreeingEnd(old(m), tree, m, done);
      pt := None;
      tree := map[];
    }
  }

  // ----- steps of the walk

  /** Page f is one of those taken from the stack between m and m2. */
  predicate TakenBetween(m: Pages, m2: Pages, f: Frame) { f in m.free && f !in m2.free }

  /** The pages taken from the stack have become tables; memory that is neither free nor a table of t is as it
      was. */
  ghost predicate PagesGrow(m: Pages, t: Tree, m2: Pages) {
    && m2.data.Keys == m.data.Keys && m2.zero == m.zero
    && (forall f :: f in m2.free ==> f in m.free)
    && (forall f :: TakenBetween(m, m2, f) ==> f in m2.tables && f in m2.ref && m2.ref[f] == 0)
    && (forall f :: f in m.tables ==> f in m2.tables)
    && (forall f :: f in m2.tables ==> f in m.tables || TakenBetween(m, m2, f))
    && (forall f :: f in m.ref && f !in m.free ==> f in m2.ref && m2.ref[f] == m.ref[f])
    && (forall f :: f in m.data && f !in m.free && Unused(t, f) ==> m2.data[f] == m.data[f])
  }

  /** The tables of t are among those of t2, and the new ones are the pages taken from the stack. */
  ghost predicate TreeGrows(m: Pages, t: Tree, m2: Pages, t2: Tree) {
    && (forall p :: p in t ==> p in t2 && t2[p] == t[p])
    && (forall p :: p in t2 ==> p in t || TakenBetween(m, m2, t2[p]))
    && (forall f :: TakenBetween(m, m2, f) ==> exists p :: p in t2 && t2[p] == f)
  }

  /** The tables m, t have grown to m2, t2: every translation is as it was, so are the tables there were and
      the rest of memory. */
  ghost predicate Extends(m: Pages, t: Tree, m2: Pages, t2: Tree) {
    && (forall va :: Lookup(m2.data, t2, va) == Lookup(m.data, t, va))
    && TreeGrows(m, t, m2, t2) && PagesGrow(m, t, m2)
  }

  lemma ExtendsSame(m: Pages, t: Tree)
    ensures Extends(m, t, m, t)
  {
  }

  lemma PagesGrowTrans(m: Pages, t: Tree, m1: Pages, t1: Tree, m2: Pages)
    requires PagesGrow(m, t, m1) && TreeGrows(m, t, m1, t1) && PagesGrow(m1, t1, m2)
    ensures PagesGrow(m, t, m2)
  {
    forall f | f in m.data && f !in m.free && Unused(t, f) ensures m2.data[f] == m.data[f] {
      assert Unused(t1, f);
    }
    hide Unused, TreeGrows;
  }

  lemma ExtendsTrans(m: Pages, t: Tree, m1: Pages, t1: Tree, m2: Pages, t2: Tree)
    requires Extends(m, t, m1, t1) && Extends(m1, t1, m2, t2)
    ensures Extends(m, t, m2, t2)
  {
    hide Lookup, PagesGrow;
    PagesGrowTrans(m, t, m1, t1, m2);
    TreeGrowsTrans(m, t, m1, t1, m2, t2);
  }

  lemma TreeGrowsTrans(m: Pages, t: Tree, m1: Pages, t1: Tree, m2: Pages, t2: Tree)
    requires TreeGrows(m, t, m1, t1) && TreeGrows(m1, t1, m2, t2) && PagesGrow(m, t, m1) && PagesGrow(m1, t1, m2)
    ensures TreeGrows(m, t, m2, t2)
  {
    forall f | TakenBetween(m, m2, f) ensures exists p :: p in t2 && t2[p] == f {
      if f in m1.free {
        assert TakenBetween(m1, m2, f);
      } else {
        assert TakenBetween(m, m1, f);
        var p :| p in t1 && t1[p] == f;
        assert p in t2;
      }
    }
  }

  lemma PrefixThere(mem: Memory, t: Tree, a: nat, b: nat, c: nat)
    requires TreeOk(mem, t)
    ensures [a, b, c] in t ==> [a, b] in t
    ensures [a, b] in t ==> [a] in t
  {
    hide Injective, EntriesOk;
    assert [a, b, c][..2] == [a, b] && [a, b][..1] == [a];
  }

  /** A page off the stack, cleared, for a table. */
  function NewTable(m: Pages): (r: Pages)
    requires m.free != []
  {
    var f := m.free[0];
    Taken(m).(data := m.data[f := Zeros()], tables := m.tables + {f})
  }

  lemma NewTableOk(m: Pages, t: Tree)
    requires PagesOk(m) && TreeIn(m, t) && m.free != []
    ensures PagesOk(NewTable(m)) && TreeIn(NewTable(m), t) && m.free[0] < FRAMES && Unused(t, m.free[0])
    ensures TakenBetween(m, NewTable(m), m.free[0]) && forall f :: TakenBetween(m, NewTable(m), f) ==> f == m.free[0]
  {
    TakenShape(m);
    FreeRest(m.free);
    assert m.free[0] in m.free;
  }

  /** The table at p of t gets the new table at entry i. */
  function Grown(m: Pages, t: Tree, p: seq<nat>, i: nat): (r: Pages)
    requires m.free != [] && p in t && TableIn(m.data, t[p]) && i < N
  {
    NewTable(m).(data := Grow(m.data, t, p, i, m.free[0]))
  }

  lemma GrownPages(m: Pages, t: Tree, p: seq<nat>, i: nat)
    requires PagesOk(m) && TreeIn(m, t) && m.free != [] && p in t && TableIn(m.data, t[p]) && i < N
    ensures PagesOk(Grown(m, t, p, i)) && TreeIn(Grown(m, t, p, i), t[p + [i] := m.free[0]])
  {
    hide TableEntry, NoDup;
    NewTableOk(m, t);
  }

  lemma GrownGrow(m: Pages, t: Tree, p: seq<nat>, i: nat)
    requires PagesOk(m) && TreeIn(m, t) && m.free != [] && p in t && i < N && TableIn(m.data, t[p])
    ensures PagesGrow(m, t, Grown(m, t, p, i))
  {
    hide TableEntry, NoDup;
    NewTableOk(m, t);
  }

  lemma GrownExtends(m: Pages, t: Tree, p: seq<nat>, i: nat)
    requires PagesOk(m) && Places(m.data, t) && Injective(t) && TreeIn(m, t) && m.free != []
    requires p in t && |p| < 3 && i < N && p + [i] !in t && TableIn(m.data, t[p])
    ensures Extends(m, t, Grown(m, t, p, i), t[p + [i] := m.free[0]])
  {
    hide Lookup, PagesGrow, PagesOk, Places, Injective, Grow, TreeIn;
    NewTableOk(m, t);
    GrownGrow(m, t, p, i);
    var r, u := Grown(m, t, p, i), t[p + [i] := m.free[0]];
    assert u[p + [i]] == m.free[0];
    forall va ensures Lookup(r.data, u, va) == Lookup(m.data, t, va) {
      GrowLookup(m.data, t, p, i, m.free[0], va);
    }
  }

  lemma GrowStep(m: Pages, t: Tree, p: seq<nat>, i: nat)
    requires PagesOk(m) && TreeOk(m.data, t) && TreeIn(m, t) && m.free != []
    requires p in t && |p| < 3 && i < N && p + [i] !in t
    ensures TableIn(m.data, t[p]) && t[p] != m.free[0]
    ensures var r, u := Grown(m, t, p, i), t[p + [i] := m.free[0]];
            PagesOk(r) && TreeOk(r.data, u) && TreeIn(r, u) && Extends(m, t, r, u)
  {
    hide EntriesOk, Injective, PagesOk, TreeIn, Extends, Grow;
    NewTableOk(m, t);
    GrowTree(m.data, t, p, i, m.free[0]);
    GrownPages(m, t, p, i);
    GrownExtends(m, t, p, i);
  }

  lemma RootStep(m: Pages)
    requires PagesOk(m) && m.free != []
    ensures var r, u := NewTable(m), map[[] := m.free[0]];
            PagesOk(r) && TreeOk(r.data, u) && TreeIn(r, u) && Extends(m, map[], r, u)
  {
    hide Path, NoDup;
    var f := m.free[0];
    var t: Tree := map[];
    NewTableOk(m, t);
    var r, u: Tree := NewTable(m), map[[] := f];
    forall i | 0 <= i < N ensures EntryOk(r.data, u, [], i) {
      assert [] + [i] != [];
    }
    forall va ensures Path(va) !in u { PathLong(va); }
  }

  lemma PathLong(va: nat)
    ensures |Path(va)| == 3
  {
  }

  lemma EntryAt(mem: Memory, t: Tree, p: seq<nat>, i: nat)
    requires TreeOk(mem, t) && p in t && |p| < 3 && i < N
    ensures TableIn(mem, t[p]) && EntryOk(mem, t, p, i)
  {
  }

  // ----- freeing

  /** The tables at p and below. */
  ghost function Under(t: Tree, p: seq<nat>): (ps: set<seq<nat>>) {
    set q | q in t && p <= q
  }

  /** Those below p through entries before i. */
  ghost function Before(t: Tree, p: seq<nat>, i: nat): (ps: set<seq<nat>>) {
    set q | q in t && p <= q && |q| > |p| && q[|p|] < i
  }

  lemma {:induction false} PrefixClosed(mem: Memory, t: Tree, p: seq<nat>, q: seq<nat>)
    requires Places(mem, t) && q in t && p <= q
    ensures p in t
    decreases |q|
  {
    if |p| < |q| {
      assert p <= q[..|q| - 1];
      PrefixClosed(mem, t, p, q[..|q| - 1]);
    } else {
      assert p == q[..|p|] == q;
    }
  }

  lemma BeforeNext(mem: Memory, t: Tree, p: seq<nat>, i: nat)
    requires Places(mem, t)
    ensures Before(t, p, i + 1) == Before(t, p, i) + Under(t, p + [i])
    ensures p + [i] !in t ==> Under(t, p + [i]) == {}
    ensures Before(t, p, i) !! Under(t, p + [i])
  {
    hide Places;
    forall q | q in t && p + [i] <= q ensures p + [i] in t && p <= q && |q| > |p| && q[|p|] == i {
      PrefixClosed(mem, t, p + [i], q);
      assert q[..|p| + 1] == p + [i];
      assert q[|p|] == (p + [i])[|p|];
      assert p == (p + [i])[..|p|];
    }
    forall q | q in t && p <= q && |q| > |p| && q[|p|] == i ensures p + [i] <= q {
      assert q[..|p| + 1] == q[..|p|] + [q[|p|]];
    }
  }

  lemma {:induction false} IndexSmall(mem: Memory, t: Tree, q: seq<nat>, k: nat)
    requires Places(mem, t) && q in t && k < |q|
    ensures q[k] < N && |q| <= 3
    decreases |q|
  {
    if k < |q| - 1 {
      IndexSmall(mem, t, q[..|q| - 1], k);
    }
  }

  lemma BeforeAll(mem: Memory, t: Tree, p: seq<nat>)
    requires Places(mem, t) && p in t
    ensures Before(t, p, N) + {p} == Under(t, p) && p !in Before(t, p, N)
    ensures |p| == 3 ==> Under(t, p) == {p}
    ensures Before(t, p, 0) == {}
  {
    hide Places;
    forall q | q in t && p <= q ensures |q| <= 3 && (|q| > |p| ==> q[|p|] < N) && (|q| == |p| ==> q == p) {
      if q != [] { IndexSmall(mem, t, q, if |q| > |p| then |p| else 0); }
      if |q| == |p| { assert q == q[..|p|]; }
    }
  }

  /** Of the tables t in the memory m0 those in done have been freed, and m is what memory is now. */
  ghost predicate Freeing(m0: Pages, t: Tree, m: Pages, done: set<seq<nat>>) {
    && done <= t.Keys && NoDup(m.free) && m.data.Keys == m0.data.Keys && m.ref.Keys == m0.ref.Keys
    && m.zero == m0.zero && (forall f :: f in m.data ==> |m.data[f]| == N)
    && (forall f :: f in m.tables ==> f in m0.tables && forall q :: q in done ==> t[q] != f)
    && (forall f :: f in m0.tables && f !in m.tables ==> exists q :: q in done && t[q] == f)
    && (forall q :: q in t && q !in done ==>
          t[q] in m.data && t[q] in m.ref && m.data[t[q]] == m0.data[t[q]] && m.ref[t[q]] == 0 && t[q] !in m.free)
    && (forall q :: q in done ==> t[q] in m.free)
    && (forall f :: f in m0.free ==> f in m.free)
    && (forall f :: f in m.free ==> f in m0.free || exists q :: q in done && t[q] == f)
    && (forall f :: f in m0.data && f !in m0.free && Unused(t, f) ==> m.data[f] == m0.data[f])
    && (forall f :: f in m0.ref && Unused(t, f) ==> m.ref[f] == m0.ref[f])
  }

  lemma FreeOneTables(m0: Pages, t: Tree, m: Pages, done: set<seq<nat>>, p: seq<nat>)
    requires Freeing(m0, t, m, done) && p in t
    ensures forall f :: f in m0.tables && f !in m.tables - {t[p]} ==> exists q :: q in done + {p} && t[q] == f
  {
    forall f | f in m0.tables && f !in m.tables - {t[p]} ensures exists q :: q in done + {p} && t[q] == f {
      if f == t[p] {
        assert p in done + {p};
      } else {
        var q :| q in done && t[q] == f;
        assert q in done + {p};
      }
    }
  }

  lemma FreeOneStack(m0: Pages, t: Tree, m: Pages, done: set<seq<nat>>, p: seq<nat>)
    requires Freeing(m0, t, m, done) && p in t
    ensures forall f :: f in [t[p]] + m.free ==> f in m0.free || exists q :: q in done + {p} && t[q] == f
  {
    forall f | f in [t[p]] + m.free ensures f in m0.free || exists q :: q in done + {p} && t[q] == f {
      if f == t[p] {
        assert p in done + {p};
      } else if f !in m0.free {
        var q :| q in done && t[q] == f;
        assert q in done + {p};
      }
    }
  }

  lemma FreeOne(m0: Pages, t: Tree, m: Pages, done: set<seq<nat>>, p: seq<nat>)
    requires Freeing(m0, t, m, done) && Injective(t) && p in t && p !in done && Known(m, t[p])
    ensures Freeing(m0, t, Dropped(m, t[p]).(tables := m.tables - {t[p]}), done + {p})
  {
    var r := Dropped(m, t[p]).(tables := m.tables - {t[p]});
    FreeOneTables(m0, t, m, done, p);
    FreeOneStack(m0, t, m, done, p);
    assert r.free == [t[p]] + m.free;
    assert forall f :: f in r.free <==> f == t[p] || f in m.free;
  }

  lemma TreeParts(mem: Memory, t: Tree)
    requires TreeOk(mem, t)
    ensures Places(mem, t) && Injective(t)
  {
  }

  lemma NotDone(m0: Pages, t: Tree, m: Pages, done: set<seq<nat>>, p: seq<nat>)
    requires Freeing(m0, t, m, done) && TreeOk(m0.data, t) && p in t && p !in done
    ensures Known(m, t[p]) && t[p] in m0.data && m.data[t[p]] == m0.data[t[p]]
  {
    hide Injective, EntriesOk;
  }

  lemma UnderApart(mem: Memory, t: Tree, p: seq<nat>, i: nat, done: set<seq<nat>>)
    requires Places(mem, t) && p in t && done !! Under(t, p)
    ensures done !! Under(t, p + [i]) && p !in done && p !in Before(t, p, i)
  {
    hide Places;
    forall q | q in Under(t, p + [i]) ensures q in Under(t, p) {
      assert p == (p + [i])[..|p|] == q[..|p|];
    }
    assert p in Under(t, p);
  }

  lemma UnderRoot(t: Tree)
    ensures Under(t, []) == t.Keys
  {
  }

  /** All tables of t have been given back, and memory is m2 now: pages on the stack are those that were there
      and the tables, each once; everything else in memory is as it was. */
  ghost predicate Freed(m: Pages, t: Tree, m2: Pages) {
    && PagesOk(m2) && m2.data.Keys == m.data.Keys && m2.ref.Keys == m.ref.Keys && m2.zero == m.zero
    && (forall f :: f in m2.tables <==> f in m.tables && Unused(t, f))
    && (forall f :: f in m2.free ==> f in m.free || !Unused(t, f))
    && (forall f :: f in m.free ==> f in m2.free)
    && (forall p :: p in t ==> t[p] in m2.free)
    && (forall f :: f in m.data && f !in m.free && Unused(t, f) ==> m2.data[f] == m.data[f])
    && (forall f :: f in m.ref && Unused(t, f) ==> m2.ref[f] == m.ref[f])
  }

  lemma FreeingStart(m: Pages, t: Tree)
    requires PagesOk(m) && TreeOk(m.data, t) && TreeIn(m, t)
    ensures Freeing(m, t, m, {})
  {
    hide Injective, EntriesOk;
  }

  lemma FreeingEnd(m0: Pages, t: Tree, m: Pages, done: set<seq<nat>>)
    requires Freeing(m0, t, m, done) && done == t.Keys && PagesOk(m0) && TreeIn(m0, t)
    ensures Freed(m0, t, m)
  {
  }
}
