/**
 Reference-counted pages, lazy allocation and copy on write (src/kernel/mem.c, src/kernel/pt.c,
 src/kernel/paging.c), over the map of all leaf entries. That the page tables in memory are such a map is
 shown in module SpaceTables.
 */
module Paging {
  import opened Basics
  import opened Frames
  import opened PageTable

  type Vpn = nat                 // the number of a virtual page

  /** A leaf entry: which address space, which page. */
  datatype Site = Site(space: nat, page: Vpn)

  /** A valid entry: PTE_USER_DATA, with PTE_RO or without. */
  datatype Pte = Pte(frame: Frame, ro: bool)

  type Ptes = map<Site, Pte>

  // ----- reference counts

  /** The entries that map frame f. */
  ghost function Sites(ptes: Ptes, f: Frame): (ks: set<Site>) {
    set k | k in ptes && ptes[k].frame == f
  }

  /** The count of a page in use is the number of entries that map it, one more for the page of zeros. */
  ghost predicate Counted(m: Pages, ptes: Ptes, f: Frame)
    requires f in m.ref
  {
    m.ref[f] == |Sites(ptes, f)| + if f == m.zero then 1 else 0
  }

  ghost predicate RefsOk(m: Pages, ptes: Ptes) {
    && PagesOk(m)
    && (forall f :: f in m.free ==> Sites(ptes, f) == {})
    && (forall f :: f in m.ref && f !in m.free ==> Counted(m, ptes, f))
    && (forall k :: k in ptes ==> Usable(m, ptes[k].frame))
  }

  lemma SitesWithout(ptes: Ptes, k: Site, f: Frame)
    requires k in ptes
    ensures |Sites(ptes - {k}, f)| == |Sites(ptes, f)| - if ptes[k].frame == f then 1 else 0
    ensures Sites(ptes - {k}, f) == Sites(ptes, f) - {k}
  {
    assert Sites(ptes - {k}, f) == Sites(ptes, f) - {k};
  }

  lemma SitesWith(ptes: Ptes, k: Site, e: Pte, f: Frame)
    requires k !in ptes
    ensures |Sites(ptes[k := e], f)| == |Sites(ptes, f)| + if e.frame == f then 1 else 0
    ensures Sites(ptes[k := e], f) == if e.frame == f then Sites(ptes, f) + {k} else Sites(ptes, f)
  {
    assert Sites(ptes[k := e], f) == if e.frame == f then Sites(ptes, f) + {k} else Sites(ptes, f);
  }

  // ----- kalloc_page, kfree_page, vmmap

  lemma TakenOk(m: Pages, ptes: Ptes)
    requires RefsOk(m, ptes) && m.free != []
    ensures RefsOk(Taken(m), ptes) && Usable(Taken(m), m.free[0]) && Sites(ptes, m.free[0]) == {} && m.free[0] != m.zero
  {
    hide Sites;
    var f := m.free[0];
    assert f in m.free;
    FreeRest(m.free);
    TakenShape(m);
    hide PagesOk;
    var r := Taken(m);
    forall g | g in r.ref && g !in r.free ensures Counted(r, ptes, g) {
      if g != f { assert Counted(m, ptes, g); }
    }
  }

  /** A page on the stack is mapped by no entry but k. */
  lemma DroppedFree(m: Pages, ptes: Ptes, k: Site)
    requires RefsOk(m, ptes) && k in ptes && Usable(m, ptes[k].frame)
    ensures var r := Dropped(m, ptes[k].frame);
            PagesOk(r) && forall g :: g in r.free ==> Sites(ptes - {k}, g) == {}
  {
    hide Sites;
    var f := ptes[k].frame;
    var r := Dropped(m, f);
    assert Counted(m, ptes, f);
    SitesWithout(ptes, k, f);
    FewerSites(m, ptes, k);
    assert forall g :: g in r.free ==> g == f || g in m.free;
  }

  lemma DroppedCounts(m: Pages, ptes: Ptes, k: Site, g: Frame)
    requires RefsOk(m, ptes) && k in ptes && Usable(m, ptes[k].frame)
    requires g in m.ref && g !in m.free
    ensures Counted(Dropped(m, ptes[k].frame), ptes - {k}, g)
  {
    hide Sites;
    assert Counted(m, ptes, g);
    SitesWithout(ptes, k, g);
  }

  lemma DroppedSite(m: Pages, ptes: Ptes, k: Site, j: Site)
    requires RefsOk(m, ptes) && k in ptes && Usable(m, ptes[k].frame) && j in ptes && j != k
    ensures var r := Dropped(m, ptes[k].frame);
            Usable(r, ptes[j].frame) && r.data[ptes[j].frame] == m.data[ptes[j].frame]
  {
    var f := ptes[k].frame;
    assert Counted(m, ptes, f) && Usable(m, ptes[j].frame);
    SitesWithout(ptes, k, f);
    assert ptes[j].frame == f ==> j in Sites(ptes, f) - {k};
    hide Sites;
  }

  /** Dropping the reference of the entry k. */
  lemma DroppedOk(m: Pages, ptes: Ptes, k: Site)
    requires RefsOk(m, ptes) && k in ptes && Usable(m, ptes[k].frame)
    ensures RefsOk(Dropped(m, ptes[k].frame), ptes - {k})
    ensures forall j :: j in ptes && j != k ==>
              Known(m, ptes[j].frame) && Known(Dropped(m, ptes[k].frame), ptes[j].frame)
              && Dropped(m, ptes[k].frame).data[ptes[j].frame] == m.data[ptes[j].frame]
  {
    hide Sites, Counted;
    var f := ptes[k].frame;
    var r := Dropped(m, f);
    DroppedFree(m, ptes, k);
    forall g | g in r.ref && g !in r.free ensures Counted(r, ptes - {k}, g) {
      DroppedCounts(m, ptes, k, g);
    }
    forall j | j in ptes && j != k
      ensures Usable(r, ptes[j].frame) && r.data[ptes[j].frame] == m.data[ptes[j].frame]
    {
      DroppedSite(m, ptes, k, j);
    }
  }

  lemma FewerSites(m: Pages, ptes: Ptes, k: Site)
    requires k in ptes
    ensures forall g :: Sites(ptes, g) == {} ==> Sites(ptes - {k}, g) == {}
  {
    forall g | Sites(ptes, g) == {} ensures Sites(ptes - {k}, g) == {} {
      SitesWithout(ptes, k, g);
    }
  }

  /** vmmap into an empty slot. */
  function Mapped(m: Pages, f: Frame): (r: Pages)
    requires f in m.ref
  {
    m.(ref := m.ref[f := m.ref[f] + 1])
  }

  lemma MappedOk(m: Pages, ptes: Ptes, k: Site, e: Pte)
    requires RefsOk(m, ptes) && k !in ptes && Usable(m, e.frame)
    ensures RefsOk(Mapped(m, e.frame), ptes[k := e])
  {
    hide Sites;
    var r, q := Mapped(m, e.frame), ptes[k := e];
    forall g | g in r.ref && g !in r.free ensures Counted(r, q, g) {
      assert Counted(m, ptes, g);
      SitesWith(ptes, k, e, g);
    }
    forall g | g in r.free ensures Sites(q, g) == {} {
      SitesWith(ptes, k, e, g);
    }
  }

  // ----- page tables

  /** get_pte takes pages for tables: counts still equal mappings. */
  lemma TablesGrown(m: Pages, t: Tree, m2: Pages, ptes: Ptes)
    requires RefsOk(m, ptes) && TreeIn(m, t) && PagesGrow(m, t, m2) && PagesOk(m2)
    ensures RefsOk(m2, ptes) && ReadsSame(m, ptes, m2, ptes)
  {
    forall k | k in ptes ensures Usable(m2, ptes[k].frame) && m2.data[ptes[k].frame] == m.data[ptes[k].frame] {
      assert Usable(m, ptes[k].frame) && Unused(t, ptes[k].frame);
    }
    hide Sites;
    forall f | f in m2.ref && f !in m2.free ensures Counted(m2, ptes, f) {
      if f in m.free {
        assert TakenBetween(m, m2, f);
      } else {
        assert Counted(m, ptes, f);
      }
    }
  }

  /** free_pgdir gives the tables back. */
  lemma TablesFreed(m: Pages, t: Tree, m2: Pages, ptes: Ptes)
    requires RefsOk(m, ptes) && TreeIn(m, t) && Freed(m, t, m2)
    ensures RefsOk(m2, ptes) && ReadsSame(m, ptes, m2, ptes)
  {
    forall k | k in ptes ensures Usable(m2, ptes[k].frame) && m2.data[ptes[k].frame] == m.data[ptes[k].frame] {
      assert Usable(m, ptes[k].frame) && Unused(t, ptes[k].frame);
    }
    forall f | f in m2.free ensures Sites(ptes, f) == {} {
      if f !in m.free { TableUnmapped(m, t, ptes, f); }
    }
    hide Sites;
    forall f | f in m2.ref && f !in m2.free ensures Counted(m2, ptes, f) {
      assert Unused(t, f);
      assert Counted(m, ptes, f);
    }
  }

  lemma TableUnmapped(m: Pages, t: Tree, ptes: Ptes, f: Frame)
    requires RefsOk(m, ptes) && TreeIn(m, t) && !Unused(t, f)
    ensures Sites(ptes, f) == {}
  {
    assert forall k :: k in ptes ==> Usable(m, ptes[k].frame);
  }

  /** An entry of a table is written. */
  lemma TableWritten(m: Pages, f: Frame, page: Contents, ptes: Ptes)
    requires RefsOk(m, ptes) && f in m.tables && |page| == N
    ensures RefsOk(m.(data := m.data[f := page]), ptes) && ReadsSame(m, ptes, m.(data := m.data[f := page]), ptes)
  {
    hide Sites;
    var r := m.(data := m.data[f := page]);
    forall g | g in r.ref && g !in r.free ensures Counted(r, ptes, g) {
      assert Counted(m, ptes, g);
    }
  }

  // ----- page faults

  /** A page that is mapped for writing is mapped once, and is not the page of zeros. */
  ghost predicate WritesAlone(m: Pages, ptes: Ptes) {
    && (forall j, k :: j in ptes && k in ptes && j != k && !ptes[j].ro ==> ptes[j].frame != ptes[k].frame)
    && (forall k :: k in ptes && !ptes[k].ro ==> ptes[k].frame != m.zero)
  }

  /** Every address that could be read before reads the same now. */
  ghost predicate ReadsSame(m: Pages, ptes: Ptes, r: Pages, qtes: Ptes) {
    forall j :: j in ptes ==>
      && j in qtes && Known(m, ptes[j].frame) && Known(r, qtes[j].frame)
      && r.data[qtes[j].frame] == m.data[ptes[j].frame]
  }

  ghost predicate MemOk(m: Pages, ptes: Ptes) { RefsOk(m, ptes) && WritesAlone(m, ptes) }

  lemma ReadsKept(m: Pages, ptes: Ptes)
    requires RefsOk(m, ptes)
    ensures ReadsSame(m, ptes, m, ptes)
  {
  }

  lemma NoSites(ptes: Ptes, f: Frame)
    requires Sites(ptes, f) == {}
    ensures forall j :: j in ptes ==> ptes[j].frame != f
  {
    assert forall j :: j in ptes ==> j in Sites(ptes, ptes[j].frame);
  }

  /** A page that nobody maps may be mapped for writing. */
  lemma WritesNew(m: Pages, ptes: Ptes, k: Site, f: Frame)
    requires WritesAlone(m, ptes) && f != m.zero && forall j :: j in ptes ==> ptes[j].frame != f
    ensures WritesAlone(m, ptes[k := Pte(f, false)])
  {
  }

  /** The lazy case of pgfault_handler: a new page in the empty slot k. */
  lemma LazyOk(m: Pages, ptes: Ptes, k: Site)
    requires MemOk(m, ptes) && m.free != [] && k !in ptes
    ensures var f := m.free[0];
            && MemOk(Mapped(Taken(m), f), ptes[k := Pte(f, false)])
            && ReadsSame(m, ptes, Mapped(Taken(m), f), ptes[k := Pte(f, false)])
  {
    hide RefsOk, Sites;
    var f := m.free[0];
    TakenOk(m, ptes);
    MappedOk(Taken(m), ptes, k, Pte(f, false));
    NoSites(ptes, f);
    WritesNew(m, ptes, k, f);
    ReadsKept(m, ptes);
    MemIntro(m, Mapped(Taken(m), f), ptes[k := Pte(f, false)]);
  }

  lemma MemIntro(m: Pages, r: Pages, ptes: Ptes)
    requires RefsOk(r, ptes) && WritesAlone(m, ptes) && r.zero == m.zero
    ensures MemOk(r, ptes)
  {
    hide RefsOk;
  }

  /** Copying page a over page f. */
  function Copied(m: Pages, f: Frame, a: Frame): (r: Pages)
    requires Known(m, f) && Known(m, a)
  {
    m.(data := m.data[f := m.data[a]])
  }

  lemma CopiedOk(m: Pages, ptes: Ptes, f: Frame, a: Frame)
    requires RefsOk(m, ptes) && Known(m, f) && Known(m, a) && Sites(ptes, f) == {}
    ensures RefsOk(Copied(m, f, a), ptes) && ReadsSame(m, ptes, Copied(m, f, a), ptes)
  {
    assert forall j :: j in ptes ==> j in Sites(ptes, ptes[j].frame);
    hide Sites;
    var r := Copied(m, f, a);
    forall g | g in r.ref && g !in r.free ensures Counted(r, ptes, g) {
      assert Counted(m, ptes, g);
    }
  }

  /** The pages after the copy-on-write case for an entry that maps page a. */
  function CowPages(m: Pages, a: Frame): (r: Pages)
    requires m.free != [] && Known(m, m.free[0]) && Known(m, a)
  {
    var f := m.free[0];
    Mapped(Dropped(Copied(Taken(m), f, a), a), f)
  }

  lemma CowFresh(m: Pages, ptes: Ptes, k: Site)
    requires RefsOk(m, ptes) && m.free != [] && k in ptes
    ensures var f, a := m.free[0], ptes[k].frame;
            && Known(m, f) && Known(m, a) && f != a && Sites(ptes, f) == {} && f != m.zero
            && Usable(Taken(m), f) && Usable(Taken(m), a) && RefsOk(Taken(m), ptes)
  {
    TakenOk(m, ptes);
    assert m.free[0] in m.free;
    assert k in Sites(ptes, ptes[k].frame);
    hide Sites, Counted;
  }

  lemma CowRefs(m: Pages, ptes: Ptes, k: Site)
    requires RefsOk(m, ptes) && m.free != [] && k in ptes && Known(m, m.free[0]) && Known(m, ptes[k].frame)
    ensures RefsOk(CowPages(m, ptes[k].frame), ptes[k := Pte(m.free[0], false)])
  {
    hide RefsOk, Sites, Linked;
    var f, a := m.free[0], ptes[k].frame;
    CowFresh(m, ptes, k);
    var c := Copied(Taken(m), f, a);
    CopiedOk(Taken(m), ptes, f, a);
    DroppedOk(c, ptes, k);
    var d := Dropped(c, a);
    MappedOk(d, ptes - {k}, k, Pte(f, false));
    assert (ptes - {k})[k := Pte(f, false)] == ptes[k := Pte(f, false)];
  }

  lemma CowReads(m: Pages, ptes: Ptes, k: Site)
    requires RefsOk(m, ptes) && m.free != [] && k in ptes && Known(m, m.free[0]) && Known(m, ptes[k].frame)
    ensures ReadsSame(m, ptes, CowPages(m, ptes[k].frame), ptes[k := Pte(m.free[0], false)])
    ensures CowPages(m, ptes[k].frame).zero == m.zero
  {
    hide RefsOk, Sites, Linked;
    var f, a := m.free[0], ptes[k].frame;
    CowFresh(m, ptes, k);
    var c := Copied(Taken(m), f, a);
    ReadsKept(m, ptes);
    CopiedOk(Taken(m), ptes, f, a);
    DroppedOk(c, ptes, k);
  }

  /** The copy-on-write case: the entry k gets a copy of its own, and no address reads anything else. */
  lemma CowOk(m: Pages, ptes: Ptes, k: Site)
    requires MemOk(m, ptes) && m.free != [] && k in ptes && Known(m, m.free[0]) && Known(m, ptes[k].frame)
    ensures var r, q := CowPages(m, ptes[k].frame), ptes[k := Pte(m.free[0], false)];
            MemOk(r, q) && ReadsSame(m, ptes, r, q)
  {
    hide Sites, RefsOk, CowPages, WritesAlone, ReadsSame;
    CowFresh(m, ptes, k);
    CowRefs(m, ptes, k);
    CowReads(m, ptes, k);
    NoSites(ptes, m.free[0]);
    WritesNew(m, ptes, k, m.free[0]);
    MemIntro(m, CowPages(m, ptes[k].frame), ptes[k := Pte(m.free[0], false)]);
  }

  /** A write by the user through the entry k. */
  function Written(m: Pages, f: Frame, page: Contents): (r: Pages)
  {
    m.(data := m.data[f := page])
  }

  /** What a user writes is seen through no other entry, and the page of zeros stays as it is. */
  lemma WritesArePrivate(m: Pages, ptes: Ptes, k: Site, page: Contents)
    requires MemOk(m, ptes) && k in ptes && !ptes[k].ro && |page| == N
    ensures var r := Written(m, ptes[k].frame, page);
            && MemOk(r, ptes) && r.data[m.zero] == m.data[m.zero]
            && ReadsSame(m, ptes - {k}, r, ptes - {k})
  {
    var r := Written(m, ptes[k].frame, page);
    forall g | g in r.ref && g !in r.free ensures Counted(r, ptes, g) {
      assert Counted(m, ptes, g);
    }
    hide Counted, Sites;
  }

  /** The page of zeros always has a reference of its own, and a mapped page is never on the stack. */
  lemma NeverFreed(m: Pages, ptes: Ptes, k: Site)
    requires MemOk(m, ptes) && k in ptes
    ensures m.zero !in m.free && m.ref[m.zero] >= 1
    ensures ptes[k].frame !in m.free && m.ref[ptes[k].frame] >= 1
    ensures m.ref[ptes[k].frame] == 1 && ptes[k].frame != m.zero ==> Sites(ptes, ptes[k].frame) == {k}
  {
    var f := ptes[k].frame;
    assert Usable(m, f) && Counted(m, ptes, m.zero) && Counted(m, ptes, f);
    assert k in Sites(ptes, f);
    if |Sites(ptes, f)| == 1 {
      assert |Sites(ptes, f) - {k}| == 0;
    }
  }
}
