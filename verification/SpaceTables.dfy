/**
 The page tables of all address spaces in one memory, and the map of leaf entries that they are
 (src/kernel/pt.c, src/aarch64/mmu.h).
 */
module SpaceTables {
  import opened Basics
  import opened Frames
  import opened PageTable
  import opened Paging

  // ----- leaf entries

  const USER_DATA := 0x647       // PTE_USER_DATA
  const RO_BIT := 0x80           // PTE_RO

  /** The word that vmmap writes for page f. */
  function LeafEntry(f: Frame, ro: bool): (e: nat) { f * PAGE_SIZE + USER_DATA + if ro then RO_BIT else 0 }

  /** PTE_ADDRESS and PTE_RO of a word. */
  function LeafOf(e: nat): (pte: Pte) { Pte(FrameOf(e), e / RO_BIT % 2 == 1) }

  lemma LeafFrame(f: Frame, low: nat)
    requires f < FRAMES && low < PAGE_SIZE
    ensures FrameOf(f * PAGE_SIZE + low) == f
  {
    assert (f * PAGE_SIZE + low) / PAGE_SIZE == f;
  }

  lemma LeafBits(f: Frame)
    ensures IsValid(f * PAGE_SIZE + USER_DATA) && (f * PAGE_SIZE + USER_DATA) / RO_BIT % 2 == 0
    ensures IsValid(f * PAGE_SIZE + USER_DATA + RO_BIT) && (f * PAGE_SIZE + USER_DATA + RO_BIT) / RO_BIT % 2 == 1
  {
    var a, b := f * PAGE_SIZE + USER_DATA, f * PAGE_SIZE + USER_DATA + RO_BIT;
    assert a == RO_BIT * (2 * (16 * f + 6)) + 71;
    assert b == RO_BIT * (2 * (16 * f + 6) + 1) + 71;
    assert a / RO_BIT == 2 * (16 * f + 6);
    assert b / RO_BIT == 2 * (16 * f + 6) + 1;
  }

  lemma LeafRoundTrip(f: Frame, ro: bool)
    requires f < FRAMES
    ensures IsValid(LeafEntry(f, ro)) && LeafOf(LeafEntry(f, ro)) == Pte(f, ro)
  {
    hide FrameOf, IsValid;
    LeafBits(f);
    LeafFrame(f, USER_DATA);
    LeafFrame(f, USER_DATA + RO_BIT);
  }

  // ----- trees

  type Trees = map<nat, Tree>

  /** No table belongs to two spaces. */
  ghost predicate TreesApart(ts: Trees) {
    forall s, r, p, q :: s in ts && r in ts && s != r && p in ts[s] && q in ts[r] ==> ts[s][p] != ts[r][q]
  }

  /** Every table belongs to a space. */
  ghost predicate TablesOwned(tables: set<Frame>, ts: Trees) {
    forall f :: f in tables ==> exists s, p :: s in ts && p in ts[s] && ts[s][p] == f
  }

  ghost predicate TreesOk(m: Pages, ts: Trees) {
    && (forall s :: s in ts ==> TreeOk(m.data, ts[s]) && TreeIn(m, ts[s]) && [] in ts[s])
    && TreesApart(ts) && TablesOwned(m.tables, ts)
  }

  /** The leaf entry of site k. */
  ghost function Word(mem: Memory, ts: Trees, k: Site): (e: nat)
    requires k.space in ts
  {
    Lookup(mem, ts[k.space], k.page * PAGE_SIZE)
  }

  /** A site that there can be. */
  predicate Proper(ts: Trees, k: Site) { k.space in ts && k.page < FRAMES }

  /** The entry of k is what ptes says: an entry, or zero. */
  ghost predicate WordOk(mem: Memory, ts: Trees, ptes: Ptes, k: Site)
    requires k.space in ts
  {
    var e := Word(mem, ts, k);
    if k in ptes then IsValid(e) && LeafOf(e) == ptes[k] else e == 0
  }

  /** The page tables are the map ptes. */
  ghost predicate Represents(mem: Memory, ts: Trees, ptes: Ptes) {
    && (forall k :: k in ptes ==> Proper(ts, k))
    && (forall k :: Proper(ts, k) ==> WordOk(mem, ts, ptes, k))
  }

  /** What the trees say of one table. */
  lemma TableFacts(m: Pages, ts: Trees, r: nat, p: seq<nat>)
    requires PagesOk(m) && TreesOk(m, ts) && r in ts && p in ts[r]
    ensures var f := ts[r][p];
            && f in m.tables && f in m.data && |m.data[f]| == N && f !in m.free && f in m.ref && m.ref[f] == 0
            && forall s :: s in ts && s != r ==> Unused(ts[s], f)
  {
    hide TreeOk, TablesOwned;
  }

  lemma TreeAt(m: Pages, ts: Trees, r: nat)
    requires TreesOk(m, ts) && r in ts
    ensures TreeOk(m.data, ts[r]) && TreeIn(m, ts[r]) && [] in ts[r]
  {
    hide TreeOk, TreeIn, TreesApart, TablesOwned;
  }

  /** A tree whose tables have not changed. */
  lemma TreeSame(mem: Memory, mem2: Memory, t: Tree)
    requires TreeOk(mem, t) && forall p :: p in t ==> t[p] in mem2 && mem2[t[p]] == mem[t[p]]
    ensures TreeOk(mem2, t) && forall va :: Lookup(mem2, t, va) == Lookup(mem, t, va)
  {
    hide Path, Part;
    assert Places(mem2, t);
    forall p, i | p in t && |p| < 3 && 0 <= i < N && TableIn(mem2, t[p]) ensures EntryOk(mem2, t, p, i) {
      assert EntryOk(mem, t, p, i);
    }
  }

  // ----- changes outside the tables

  /** No table has changed. */
  ghost predicate TablesSame(m: Pages, m2: Pages) {
    && m2.tables == m.tables
    && forall f :: f in m.tables ==>
         f in m.data && f in m2.data && m2.data[f] == m.data[f] && f in m.ref && f in m2.ref && m2.ref[f] == m.ref[f]
  }

  lemma SameTables(m: Pages, m2: Pages)
    requires TablesSame(m, m2)
    ensures m2.tables == m.tables
  {
  }

  lemma TreeKept(m: Pages, m2: Pages, t: Tree)
    requires TablesSame(m, m2) && TreeOk(m.data, t) && TreeIn(m, t)
    ensures TreeOk(m2.data, t) && TreeIn(m2, t) && forall va :: Lookup(m2.data, t, va) == Lookup(m.data, t, va)
  {
    hide TreeOk, Lookup;
    TreeSame(m.data, m2.data, t);
  }

  lemma TreesSame(m: Pages, m2: Pages, ts: Trees, ptes: Ptes)
    requires PagesOk(m) && TreesOk(m, ts) && TablesSame(m, m2) && Represents(m.data, ts, ptes)
    ensures TreesOk(m2, ts) && Represents(m2.data, ts, ptes)
  {
    hide Lookup, TreeOk, TreeIn, TreesApart, TablesOwned, TablesSame, PagesOk, WordOk;
    assert m2.tables == m.tables by { SameTables(m, m2); }
    forall s | s in ts
      ensures TreeOk(m2.data, ts[s]) && TreeIn(m2, ts[s])
      ensures forall va :: Lookup(m2.data, ts[s], va) == Lookup(m.data, ts[s], va)
    {
      TreeKept(m, m2, ts[s]);
    }
    forall k | Proper(ts, k) ensures WordOk(m2.data, ts, ptes, k) {
      SameWord(m.data, m2.data, ts, ts, ptes, ptes, k);
    }
  }

  /** An entry that reads as before. */
  lemma SameWord(mem: Memory, mem2: Memory, ts: Trees, us: Trees, ptes: Ptes, qtes: Ptes, k: Site)
    requires k.space in ts && k.space in us && WordOk(mem, ts, ptes, k)
    requires Lookup(mem2, us[k.space], k.page * PAGE_SIZE) == Lookup(mem, ts[k.space], k.page * PAGE_SIZE)
    requires (k in qtes <==> k in ptes) && (k in ptes ==> qtes[k] == ptes[k])
    ensures WordOk(mem2, us, qtes, k)
  {
    hide Lookup, LeafOf, IsValid;
  }

  // ----- the walk

  lemma OtherTree(m: Pages, ts: Trees, s: nat, m2: Pages, t2: Tree, r: nat)
    requires PagesOk(m) && TreesOk(m, ts) && s in ts && r in ts && r != s && Extends(m, ts[s], m2, t2)
    ensures TreeOk(m2.data, ts[r]) && TreeIn(m2, ts[r])
    ensures forall va :: Lookup(m2.data, ts[r], va) == Lookup(m.data, ts[r], va)
    ensures forall p, q :: p in ts[r] && q in t2 ==> ts[r][p] != t2[q]
  {
    hide Lookup, PagesOk, TreesOk, TreeOk;
    TreeAt(m, ts, r);
    forall p | p in ts[r]
      ensures ts[r][p] in m.data && ts[r][p] in m2.data && m2.data[ts[r][p]] == m.data[ts[r][p]]
      ensures ts[r][p] !in m.free && Unused(ts[s], ts[r][p])
    {
      TableFacts(m, ts, r, p);
    }
    TreeSame(m.data, m2.data, ts[r]);
  }

  lemma ExtendsOwned(m: Pages, ts: Trees, s: nat, m2: Pages, t2: Tree)
    requires TablesOwned(m.tables, ts) && s in ts && Extends(m, ts[s], m2, t2)
    ensures TablesOwned(m2.tables, ts[s := t2])
  {
    hide Lookup;
    var us := ts[s := t2];
    forall f | f in m2.tables ensures exists r, p :: r in us && p in us[r] && us[r][p] == f {
      if f in m.tables {
        var r, p :| r in ts && p in ts[r] && ts[r][p] == f;
        assert r in us && p in us[r] && us[r][p] == f;
      } else {
        var p :| p in t2 && t2[p] == f;
        assert us[s] == t2;
      }
    }
  }

  lemma ExtendsTrees(m: Pages, ts: Trees, s: nat, m2: Pages, t2: Tree)
    requires PagesOk(m) && TreesOk(m, ts) && s in ts && Extends(m, ts[s], m2, t2)
    requires TreeOk(m2.data, t2) && TreeIn(m2, t2)
    ensures TreesOk(m2, ts[s := t2])
  {
    hide TreeOk, TreeIn, PagesOk, TablesOwned;
    var us := ts[s := t2];
    ExtendsOwned(m, ts, s, m2, t2);
    forall r | r in us && r != s
      ensures TreeOk(m2.data, us[r]) && TreeIn(m2, us[r])
      ensures forall p, q :: p in us[r] && q in t2 ==> us[r][p] != t2[q]
    {
      OtherTree(m, ts, s, m2, t2, r);
    }
    assert [] in t2;
  }

  lemma ExtendsRep(m: Pages, ts: Trees, s: nat, m2: Pages, t2: Tree, ptes: Ptes)
    requires PagesOk(m) && TreesOk(m, ts) && s in ts && Extends(m, ts[s], m2, t2) && Represents(m.data, ts, ptes)
    ensures Represents(m2.data, ts[s := t2], ptes)
  {
    hide TreesOk, Lookup, PagesOk, WordOk;
    var us := ts[s := t2];
    forall k | Proper(us, k) ensures WordOk(m2.data, us, ptes, k) {
      if k.space != s { OtherTree(m, ts, s, m2, t2, k.space); }
      SameWord(m.data, m2.data, ts, us, ptes, ptes, k);
    }
  }

  // ----- writing an entry

  /** Memory with e written to the entry of site k. */
  function WithWord(mem: Memory, t: Tree, k: Site, e: nat): (r: Memory)
    requires Path(k.page * PAGE_SIZE) in t && TableIn(mem, t[Path(k.page * PAGE_SIZE)])
  {
    var f := t[Path(k.page * PAGE_SIZE)];
    var table: Contents := mem[f][Part(k.page * PAGE_SIZE, 3) := e];
    mem[f := table]
  }

  lemma PagesDiffer(v: Vpn, w: Vpn)
    requires v < FRAMES && w < FRAMES
    ensures PageNumber(v * PAGE_SIZE) == PageNumber(w * PAGE_SIZE) <==> v == w
  {
    assert v * PAGE_SIZE / PAGE_SIZE == v && w * PAGE_SIZE / PAGE_SIZE == w;
  }

  lemma WithWordTree(mem: Memory, t: Tree, k: Site, e: nat)
    requires TreeOk(mem, t) && Path(k.page * PAGE_SIZE) in t
    ensures TableIn(mem, t[Path(k.page * PAGE_SIZE)]) && TreeOk(WithWord(mem, t, k, e), t)
  {
    PathLong(k.page * PAGE_SIZE);
    hide Path, Part;
    var r := WithWord(mem, t, k, e);
    assert Places(r, t);
    forall p, i | p in t && |p| < 3 && 0 <= i < N && TableIn(r, t[p]) ensures EntryOk(r, t, p, i) {
      assert EntryOk(mem, t, p, i);
    }
  }

  /** The entries of the same space. */
  lemma WithWordLookup(mem: Memory, t: Tree, k: Site, e: nat, v: Vpn)
    requires TreeOk(mem, t) && Path(k.page * PAGE_SIZE) in t && k.page < FRAMES && v < FRAMES
    requires TableIn(mem, t[Path(k.page * PAGE_SIZE)])
    ensures Lookup(WithWord(mem, t, k, e), t, v * PAGE_SIZE) == if v == k.page then e else Lookup(mem, t, v * PAGE_SIZE)
  {
    PagesDiffer(v, k.page);
    hide PageNumber, EntriesOk, Path, Part;
    if Path(v * PAGE_SIZE) in t {
      SameSlot(t, v * PAGE_SIZE, k.page * PAGE_SIZE);
    }
  }

  /** The map after e has been written for k. */
  function Entered(ptes: Ptes, k: Site, e: nat): (r: Ptes) {
    if e == 0 then ptes - {k} else ptes[k := LeafOf(e)]
  }

  /** The trees of other spaces. */
  lemma WithWordOther(m: Pages, ts: Trees, k: Site, e: nat, r: nat)
    requires PagesOk(m) && TreesOk(m, ts) && Proper(ts, k) && Path(k.page * PAGE_SIZE) in ts[k.space]
    requires TableIn(m.data, ts[k.space][Path(k.page * PAGE_SIZE)]) && r in ts && r != k.space
    ensures var mem2 := WithWord(m.data, ts[k.space], k, e);
            TreeOk(mem2, ts[r]) && forall va :: Lookup(mem2, ts[r], va) == Lookup(m.data, ts[r], va)
  {
    hide Lookup, Path, Part, PagesOk, TreesOk, TreeOk;
    var mem2 := WithWord(m.data, ts[k.space], k, e);
    TreeAt(m, ts, r);
    forall p | p in ts[r] ensures ts[r][p] in mem2 && mem2[ts[r][p]] == m.data[ts[r][p]] {
      TableFacts(m, ts, r, p);
    }
    TreeSame(m.data, mem2, ts[r]);
  }

  lemma TreeInSame(m: Pages, m2: Pages, t: Tree)
    requires TreeIn(m, t) && m2.tables == m.tables && m2.ref == m.ref
    ensures TreeIn(m2, t)
  {
  }

  lemma WithWordTrees(m: Pages, ts: Trees, k: Site, e: nat)
    requires PagesOk(m) && TreesOk(m, ts) && Proper(ts, k) && Path(k.page * PAGE_SIZE) in ts[k.space]
    ensures TableIn(m.data, ts[k.space][Path(k.page * PAGE_SIZE)])
    ensures TreesOk(m.(data := WithWord(m.data, ts[k.space], k, e)), ts)
  {
    hide Path, PagesOk, TreeOk, TreeIn, WithWord, TreesApart, TablesOwned;
    WithWordTree(m.data, ts[k.space], k, e);
    var m2 := m.(data := WithWord(m.data, ts[k.space], k, e));
    forall r | r in ts ensures TreeOk(m2.data, ts[r]) && TreeIn(m2, ts[r]) {
      if r != k.space { WithWordOther(m, ts, k, e, r); }
      TreeInSame(m, m2, ts[r]);
    }
  }

  lemma WithWordRep(m: Pages, ts: Trees, k: Site, e: nat, ptes: Ptes)
    requires PagesOk(m) && TreesOk(m, ts) && Proper(ts, k) && Path(k.page * PAGE_SIZE) in ts[k.space]
    requires TableIn(m.data, ts[k.space][Path(k.page * PAGE_SIZE)])
    requires Represents(m.data, ts, ptes) && (e == 0 || IsValid(e))
    ensures Represents(WithWord(m.data, ts[k.space], k, e), ts, Entered(ptes, k, e))
  {
    hide Path, PagesOk, TreesOk, TreeOk, LeafOf, IsValid, WithWord, WordOk;
    var mem2, q := WithWord(m.data, ts[k.space], k, e), Entered(ptes, k, e);
    TreeAt(m, ts, k.space);
    forall j | Proper(ts, j) ensures WordOk(mem2, ts, q, j) {
      if j == k {
        WrittenWord(m.data, ts, k, e, ptes);
      } else {
        if j.space == k.space {
          WithWordLookup(m.data, ts[k.space], k, e, j.page);
        } else {
          WithWordOther(m, ts, k, e, j.space);
        }
        SameWord(m.data, mem2, ts, ts, ptes, q, j);
      }
    }
  }

  lemma WrittenWord(mem: Memory, ts: Trees, k: Site, e: nat, ptes: Ptes)
    requires Proper(ts, k) && TreeOk(mem, ts[k.space]) && Path(k.page * PAGE_SIZE) in ts[k.space]
    requires TableIn(mem, ts[k.space][Path(k.page * PAGE_SIZE)]) && (e == 0 || IsValid(e))
    ensures WordOk(WithWord(mem, ts[k.space], k, e), ts, Entered(ptes, k, e), k)
  {
    hide Lookup, Path, TreeOk, LeafOf, WithWord;
    WithWordLookup(mem, ts[k.space], k, e, k.page);
  }

  // ----- freeing a space

  /** ptes without space s. */
  function Others(ptes: Ptes, s: nat): (r: Ptes) {
    map k | k in ptes && k.space != s :: ptes[k]
  }

  lemma FreedTree(m: Pages, ts: Trees, s: nat, m2: Pages, r: nat)
    requires PagesOk(m) && TreesOk(m, ts) && s in ts && r in ts && r != s && Freed(m, ts[s], m2)
    ensures TreeOk(m2.data, ts[r]) && TreeIn(m2, ts[r])
    ensures forall va :: Lookup(m2.data, ts[r], va) == Lookup(m.data, ts[r], va)
  {
    hide Lookup, PagesOk, TreesOk, TreeOk;
    TreeAt(m, ts, r);
    forall p | p in ts[r]
      ensures var f := ts[r][p];
              f in m2.data && m2.data[f] == m.data[f] && f in m2.tables && f in m2.ref && m2.ref[f] == m.ref[f]
    {
      TableFacts(m, ts, r, p);
    }
    TreeSame(m.data, m2.data, ts[r]);
  }

  lemma FreedOwned(m: Pages, ts: Trees, s: nat, m2: Pages)
    requires TablesOwned(m.tables, ts) && s in ts && Freed(m, ts[s], m2)
    ensures TablesOwned(m2.tables, ts - {s})
  {
    forall f | f in m2.tables ensures exists r, p :: r in ts - {s} && p in (ts - {s})[r] && (ts - {s})[r][p] == f {
      assert Unused(ts[s], f);
      var r, p :| r in ts && p in ts[r] && ts[r][p] == f;
      assert r in ts - {s} && p in (ts - {s})[r] && (ts - {s})[r][p] == f;
    }
  }

  lemma FreedTrees(m: Pages, ts: Trees, s: nat, m2: Pages)
    requires PagesOk(m) && TreesOk(m, ts) && s in ts && Freed(m, ts[s], m2)
    ensures TreesOk(m2, ts - {s})
  {
    hide Lookup, PagesOk, TablesOwned, TreeOk, TreeIn, Freed;
    FreedOwned(m, ts, s, m2);
    forall r | r in ts - {s} ensures TreeOk(m2.data, ts[r]) && TreeIn(m2, ts[r]) {
      FreedTree(m, ts, s, m2, r);
    }
  }

  lemma FreedRep(m: Pages, ts: Trees, s: nat, m2: Pages, ptes: Ptes)
    requires PagesOk(m) && TreesOk(m, ts) && s in ts && Freed(m, ts[s], m2) && Represents(m.data, ts, ptes)
    ensures Represents(m2.data, ts - {s}, Others(ptes, s))
  {
    hide Lookup, PagesOk, TreesOk, Freed, WordOk, TreeOk, TreeIn;
    forall k | Proper(ts - {s}, k) ensures WordOk(m2.data, ts - {s}, Others(ptes, s), k) {
      FreedTree(m, ts, s, m2, k.space);
      SameWord(m.data, m2.data, ts, ts - {s}, ptes, Others(ptes, s), k);
    }
  }

  // ----- a new space

  /** The tree of a space that has its first table only. */
  function RootOnly(f: Frame): (t: Tree) { map[[] := f] }

  lemma NewOther(m: Pages, ts: Trees, r: nat)
    requires PagesOk(m) && TreesOk(m, ts) && r in ts && m.free != []
    ensures TreeOk(NewTable(m).data, ts[r]) && TreeIn(NewTable(m), ts[r]) && Unused(ts[r], m.free[0])
    ensures forall va :: Lookup(NewTable(m).data, ts[r], va) == Lookup(m.data, ts[r], va)
  {
    hide Lookup, PagesOk, TreesOk, TreeOk, Zeros;
    TreeAt(m, ts, r);
    assert m.free[0] in m.free;
    forall p | p in ts[r]
      ensures var f := ts[r][p];
              f in m.data && f in NewTable(m).data && NewTable(m).data[f] == m.data[f] && f != m.free[0]
    {
      TableFacts(m, ts, r, p);
    }
    TreeSame(m.data, NewTable(m).data, ts[r]);
  }

  lemma NewOwned(m: Pages, ts: Trees, s: nat)
    requires TablesOwned(m.tables, ts) && s !in ts && m.free != []
    ensures TablesOwned(NewTable(m).tables, ts[s := RootOnly(m.free[0])])
  {
    var us := ts[s := RootOnly(m.free[0])];
    forall f | f in NewTable(m).tables ensures exists r, p :: r in us && p in us[r] && us[r][p] == f {
      if f in m.tables {
        var r, p :| r in ts && p in ts[r] && ts[r][p] == f;
        assert r in us && p in us[r] && us[r][p] == f;
      } else {
        assert us[s][[]] == f;
      }
    }
  }

  lemma NewTrees(m: Pages, ts: Trees, s: nat)
    requires PagesOk(m) && TreesOk(m, ts) && s !in ts && m.free != []
    ensures TreesOk(NewTable(m), ts[s := RootOnly(m.free[0])])
  {
    hide PagesOk, TreeOk, TreeIn, TablesOwned;
    RootStep(m);
    NewOwned(m, ts, s);
    forall r | r in ts
      ensures TreeOk(NewTable(m).data, ts[r]) && TreeIn(NewTable(m), ts[r]) && Unused(ts[r], m.free[0])
    {
      NewOther(m, ts, r);
    }
  }

  lemma NewRep(m: Pages, ts: Trees, s: nat, ptes: Ptes)
    requires PagesOk(m) && TreesOk(m, ts) && Represents(m.data, ts, ptes) && s !in ts && m.free != []
    ensures Represents(NewTable(m).data, ts[s := RootOnly(m.free[0])], ptes)
  {
    hide PagesOk, TreesOk, TreeOk, TreeIn, WordOk;
    var us := ts[s := RootOnly(m.free[0])];
    forall k | Proper(us, k) ensures WordOk(NewTable(m).data, us, ptes, k) {
      if k.space == s {
        NothingThere(NewTable(m).data, us, ptes, k);
      } else {
        NewOther(m, ts, k.space);
        SameWord(m.data, NewTable(m).data, ts, us, ptes, ptes, k);
      }
    }
  }

  lemma NothingThere(mem: Memory, us: Trees, ptes: Ptes, k: Site)
    requires k.space in us && us[k.space].Keys == {[]} && k !in ptes
    ensures WordOk(mem, us, ptes, k)
  {
    PathLong(k.page * PAGE_SIZE);
    hide Path;
  }
}
