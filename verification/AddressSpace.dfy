/**
 The sections of address spaces, and what page faults, sbrk and the end of a process do with the pages and the
 page tables in memory (src/kernel/paging.c, src/kernel/pt.c, src/kernel/mem.c).
 */
module AddressSpace {
  import opened Basics
  import Words
  import opened Frames
  import opened PageTable
  import opened Paging
  import opened SpaceTables
  import opened HeapSize

  /** struct section: addresses from begin up to end. */
  datatype Section = Section(begin: nat, end: nat, heap: bool)

  /** Page v is one of those that free_sections visits for st. */
  predicate PageIn(st: Section, v: Vpn) { st.begin / PAGE_SIZE <= v && v * PAGE_SIZE < st.end }

  predicate Contains(st: Section, addr: nat) { st.begin <= addr < st.end }

  /** Page v is in one of the sections. */
  ghost predicate Somewhere(ss: seq<Section>, v: Vpn) { exists i :: 0 <= i < |ss| && PageIn(ss[i], v) }

  /** No two sections share a page, and all lie in the address space of a process. */
  ghost predicate Disjoint(ss: seq<Section>) {
    && (forall i :: 0 <= i < |ss| ==> ss[i].end <= USER_END)
    && (forall i, j, v :: 0 <= i < j < |ss| && PageIn(ss[i], v) ==> !PageIn(ss[j], v))
  }

  /** The heap is made of whole pages. */
  ghost predicate HeapOk(ss: seq<Section>) {
    && (forall i :: 0 <= i < |ss| && ss[i].heap ==>
          ss[i].begin % PAGE_SIZE == 0 && ss[i].end % PAGE_SIZE == 0 && ss[i].begin <= ss[i].end)
    && exists i :: 0 <= i < |ss| && ss[i].heap
  }

  ghost predicate SpacesOk(ptes: Ptes, sections: map<nat, seq<Section>>) {
    && (forall s :: s in sections ==> Disjoint(sections[s]) && HeapOk(sections[s]))
    && (forall k :: k in ptes ==> k.space in sections && Somewhere(sections[k.space], k.page))
  }

  /** ptes without the pages vs of space s. */
  ghost function Minus(ptes: Ptes, s: nat, vs: set<Vpn>): (r: Ptes) {
    map k | k in ptes && !(k.space == s && k.page in vs) :: ptes[k]
  }

  /** ptes without the pages from a up to b of space s. */
  function Unmapped(ptes: Ptes, s: nat, a: Vpn, b: Vpn): (r: Ptes) {
    map k | k in ptes && !(k.space == s && a <= k.page < b) :: ptes[k]
  }

  lemma AddressPage(ss: seq<Section>, i: nat, addr: nat)
    requires Disjoint(ss) && i < |ss| && Contains(ss[i], addr)
    ensures Somewhere(ss, addr / PAGE_SIZE) && addr / PAGE_SIZE < FRAMES
  {
    assert PageIn(ss[i], addr / PAGE_SIZE);
  }

  lemma FewerWrites(m: Pages, ptes: Ptes, r: Pages, qtes: Ptes)
    requires WritesAlone(m, ptes) && qtes.Keys <= ptes.Keys && (forall k :: k in qtes ==> qtes[k] == ptes[k])
    requires r.zero == m.zero
    ensures WritesAlone(r, qtes)
  {
  }

  /** The page tables of all spaces are in order, and pts are their roots. */
  ghost predicate TablesOk(m: Pages, ts: Trees, pts: map<nat, Frame>) {
    && PagesOk(m) && TreesOk(m, ts)
    && pts.Keys == ts.Keys && forall s :: s in ts ==> [] in ts[s] && ts[s][[]] == pts[s]
  }

  // ----- one step at a time, as values

  lemma WalkKeeps(m: Pages, ts: Trees, pts: map<nat, Frame>, s: nat, m2: Pages, t2: Tree, ptes: Ptes)
    requires TablesOk(m, ts, pts) && s in ts && Extends(m, ts[s], m2, t2) && PagesOk(m2)
    requires TreeOk(m2.data, t2) && TreeIn(m2, t2) && Represents(m.data, ts, ptes) && MemOk(m, ptes)
    ensures TablesOk(m2, ts[s := t2], pts) && Represents(m2.data, ts[s := t2], ptes)
    ensures MemOk(m2, ptes) && ReadsSame(m, ptes, m2, ptes)
  {
    hide PagesOk, TreesOk, TreeOk, TreeIn, Represents, RefsOk, PagesGrow;
    TreeAt(m, ts, s);
    ExtendsTrees(m, ts, s, m2, t2);
    ExtendsRep(m, ts, s, m2, t2, ptes);
    TablesGrown(m, ts[s], m2, ptes);
    ZeroKept(m, ts[s], m2);
    MemIntro(m, m2, ptes);
  }

  lemma ZeroKept(m: Pages, t: Tree, m2: Pages)
    requires PagesGrow(m, t, m2)
    ensures m2.zero == m.zero
  {
  }

  /** A change of pages that are not tables. */
  lemma PagesChange(m: Pages, ts: Trees, pts: map<nat, Frame>, m2: Pages, ptes: Ptes)
    requires TablesOk(m, ts, pts) && Represents(m.data, ts, ptes) && TablesSame(m, m2) && PagesOk(m2)
    ensures TablesOk(m2, ts, pts) && Represents(m2.data, ts, ptes)
  {
    hide PagesOk, TreesOk, Represents, TablesSame;
    TreesSame(m, m2, ts, ptes);
  }

  /** Writing a leaf entry, once the counts are those of the map that comes out. */
  lemma WriteKeeps(m: Pages, ts: Trees, pts: map<nat, Frame>, k: Site, e: nat, ptes: Ptes)
    requires TablesOk(m, ts, pts) && Proper(ts, k) && Path(k.page * PAGE_SIZE) in ts[k.space]
    requires Represents(m.data, ts, ptes) && (e == 0 || IsValid(e)) && MemOk(m, Entered(ptes, k, e))
    ensures TableIn(m.data, ts[k.space][Path(k.page * PAGE_SIZE)])
    ensures var m2 := m.(data := WithWord(m.data, ts[k.space], k, e));
            && TablesOk(m2, ts, pts) && Represents(m2.data, ts, Entered(ptes, k, e)) && MemOk(m2, Entered(ptes, k, e))
            && ReadsSame(m, Entered(ptes, k, e), m2, Entered(ptes, k, e))
  {
    hide TreesOk, Represents, RefsOk, Path, Part, Entered, IsValid, ReadsSame, PagesOk;
    WithWordTrees(m, ts, k, e);
    WithWordRep(m, ts, k, e, ptes);
    var f := ts[k.space][Path(k.page * PAGE_SIZE)];
    var mem2 := WithWord(m.data, ts[k.space], k, e);
    TableFacts(m, ts, k.space, Path(k.page * PAGE_SIZE));
    assert |mem2[f]| == N;
    TableWritten(m, f, mem2[f], Entered(ptes, k, e));
    assert m.data[f := mem2[f]] == mem2;
    WrittenShape(m.(data := mem2), Entered(ptes, k, e));
    MemIntro(m, m.(data := mem2), Entered(ptes, k, e));
  }

  lemma WrittenShape(m: Pages, ptes: Ptes)
    requires RefsOk(m, ptes)
    ensures PagesOk(m)
  {
    hide PagesOk, Counted, Sites;
  }

  lemma MemRefs(m: Pages, ptes: Ptes)
    requires MemOk(m, ptes)
    ensures RefsOk(m, ptes) && PagesOk(m)
  {
    hide PagesOk, Sites, Counted;
  }

  lemma ReadsTrans(m: Pages, p: Ptes, m1: Pages, p1: Ptes, m2: Pages, p2: Ptes)
    requires ReadsSame(m, p, m1, p1) && ReadsSame(m1, p1, m2, p2)
    ensures ReadsSame(m, p, m2, p2)
  {
  }

  /** The entry of a site, as ptes says. */
  lemma EntryAs(m: Pages, ts: Trees, ptes: Ptes, k: Site)
    requires Represents(m.data, ts, ptes) && Proper(ts, k)
    ensures WordOk(m.data, ts, ptes, k)
  {
    hide WordOk;
  }

  /** What is still mapped reads as before. */
  ghost predicate ReadsLike(m: Pages, r: Pages, ptes: Ptes) {
    forall k :: k in ptes ==>
      Known(m, ptes[k].frame) && Known(r, ptes[k].frame) && r.data[ptes[k].frame] == m.data[ptes[k].frame]
  }

  lemma DropSite(m: Pages, ptes: Ptes, k: Site)
    requires MemOk(m, ptes) && k in ptes
    ensures Known(m, ptes[k].frame)
    ensures MemOk(Dropped(m, ptes[k].frame), ptes - {k}) && ReadsLike(m, Dropped(m, ptes[k].frame), ptes - {k})
  {
    MemRefs(m, ptes);
    UsableAt(m, ptes, k);
    hide RefsOk;
    DroppedOk(m, ptes, k);
    FewerWrites(m, ptes, Dropped(m, ptes[k].frame), ptes - {k});
  }

  lemma UsableAt(m: Pages, ptes: Ptes, k: Site)
    requires RefsOk(m, ptes) && k in ptes
    ensures Usable(m, ptes[k].frame)
  {
    hide PagesOk, Sites, Counted;
  }

  /** The pages and the page tables of all spaces are in order: the tables are the map ptes, and counts equal
      mappings. */
  ghost predicate SoundState(m: Pages, ts: Trees, pts: map<nat, Frame>, ptes: Ptes) {
    TablesOk(m, ts, pts) && Represents(m.data, ts, ptes) && MemOk(m, ptes)
  }

  /** The slot of site k. */
  ghost function Slot(ts: Trees, k: Site): (slot: (Frame, nat))
    requires k.space in ts && Path(k.page * PAGE_SIZE) in ts[k.space]
  {
    (ts[k.space][Path(k.page * PAGE_SIZE)], Part(k.page * PAGE_SIZE, 3))
  }

  /** What is in the slot. */
  lemma SlotWord(m: Pages, ts: Trees, pts: map<nat, Frame>, ptes: Ptes, k: Site)
    requires TablesOk(m, ts, pts) && Represents(m.data, ts, ptes) && Proper(ts, k)
    ensures Path(k.page * PAGE_SIZE) in ts[k.space] ==>
              && TableIn(m.data, Slot(ts, k).0) && Slot(ts, k).1 < N
              && var e := m.data[Slot(ts, k).0][Slot(ts, k).1];
              if k in ptes then IsValid(e) && LeafOf(e) == ptes[k] else e == 0
    ensures Path(k.page * PAGE_SIZE) !in ts[k.space] ==> k !in ptes
  {
    hide TreesOk, PagesOk, Path, Part, IsValid, LeafOf;
    EntryAs(m, ts, ptes, k);
    if Path(k.page * PAGE_SIZE) in ts[k.space] {
      TreeAt(m, ts, k.space);
      PlaceAt(m.data, ts[k.space], Path(k.page * PAGE_SIZE));
    }
    InvalidZero();
  }

  lemma PlaceAt(mem: Memory, t: Tree, p: seq<nat>)
    requires TreeOk(mem, t) && p in t
    ensures TableIn(mem, t[p])
  {
    hide Injective, EntriesOk;
  }

  /** A page off the stack, mapped in the empty slot of k. */
  lemma LazyKeeps(m: Pages, ts: Trees, pts: map<nat, Frame>, ptes: Ptes, k: Site)
    requires SoundState(m, ts, pts, ptes) && m.free != [] && Proper(ts, k) && k !in ptes
    requires Path(k.page * PAGE_SIZE) in ts[k.space]
    ensures var f := m.free[0];
            var m1, q := Mapped(Taken(m), f), ptes[k := Pte(f, false)];
            && TableIn(m1.data, Slot(ts, k).0)
            && var m2 := m1.(data := WithWord(m1.data, ts[k.space], k, LeafEntry(f, false)));
            SoundState(m2, ts, pts, q) && ReadsSame(m, ptes, m2, q)
  {
    hide TablesOk, Represents, MemOk, Path, Part, ReadsSame, WithWord, LeafEntry, LeafOf, IsValid, Mapped;
    var f := m.free[0];
    var m1, q := Mapped(Taken(m), f), ptes[k := Pte(f, false)];
    LazyOk(m, ptes, k);
    FreshPage(m, ts, pts);
    PagesChange(m, ts, pts, m1, ptes);
    LeafRoundTrip(f, false);
    InvalidZero();
    WriteKeeps(m1, ts, pts, k, LeafEntry(f, false), ptes);
    ReadsTrans(m, ptes, m1, q, m1.(data := WithWord(m1.data, ts[k.space], k, LeafEntry(f, false))), q);
  }

  /** Mapping a page off the stack touches no table. */
  lemma FreshPage(m: Pages, ts: Trees, pts: map<nat, Frame>)
    requires TablesOk(m, ts, pts) && m.free != []
    ensures m.free[0] < FRAMES && PagesOk(Mapped(Taken(m), m.free[0])) && TablesSame(m, Mapped(Taken(m), m.free[0]))
  {
    hide TreesOk;
    TakenShape(m);
    assert m.free[0] in m.free;
  }

  /** The copy-on-write case, with the entry written. */
  lemma CowKeeps(m: Pages, ts: Trees, pts: map<nat, Frame>, ptes: Ptes, k: Site)
    requires SoundState(m, ts, pts, ptes) && m.free != [] && Proper(ts, k) && k in ptes
    requires Path(k.page * PAGE_SIZE) in ts[k.space] && Known(m, m.free[0]) && Known(m, ptes[k].frame)
    ensures var f := m.free[0];
            var m1, q := CowPages(m, ptes[k].frame), ptes[k := Pte(f, false)];
            && TableIn(m1.data, Slot(ts, k).0)
            && var m2 := m1.(data := WithWord(m1.data, ts[k.space], k, LeafEntry(f, false)));
            SoundState(m2, ts, pts, q) && ReadsSame(m, ptes, m2, q)
  {
    hide TablesOk, Represents, MemOk, Path, Part, ReadsSame, WithWord, LeafEntry, LeafOf, IsValid, CowPages;
    var f := m.free[0];
    var m1, q := CowPages(m, ptes[k].frame), ptes[k := Pte(f, false)];
    CowOk(m, ptes, k);
    MemRefs(m1, q);
    CowTables(m, ts, pts, ptes, k);
    PagesChange(m, ts, pts, m1, ptes);
    LeafRoundTrip(f, false);
    InvalidZero();
    WriteKeeps(m1, ts, pts, k, LeafEntry(f, false), ptes);
    ReadsTrans(m, ptes, m1, q, m1.(data := WithWord(m1.data, ts[k.space], k, LeafEntry(f, false))), q);
  }

  lemma CowTables(m: Pages, ts: Trees, pts: map<nat, Frame>, ptes: Ptes, k: Site)
    requires TablesOk(m, ts, pts) && MemOk(m, ptes) && m.free != [] && k in ptes
    requires Known(m, m.free[0]) && Known(m, ptes[k].frame)
    ensures m.free[0] < FRAMES && TablesSame(m, CowPages(m, ptes[k].frame))
  {
    hide TreesOk, Linked, Sites, Counted, WritesAlone;
    assert m.free[0] in m.free && Usable(m, ptes[k].frame);
  }

  /** The page of k given back and its entry cleared. */
  lemma UnmapKeeps(m: Pages, ts: Trees, pts: map<nat, Frame>, ptes: Ptes, k: Site)
    requires SoundState(m, ts, pts, ptes) && Proper(ts, k) && k in ptes && Path(k.page * PAGE_SIZE) in ts[k.space]
    ensures Known(m, ptes[k].frame)
    ensures var m1 := Dropped(m, ptes[k].frame);
            && TableIn(m1.data, Slot(ts, k).0)
            && var m2 := m1.(data := WithWord(m1.data, ts[k.space], k, 0));
            SoundState(m2, ts, pts, ptes - {k}) && ReadsLike(m, m2, ptes - {k})
  {
    hide TablesOk, Represents, MemOk, Path, Part, WithWord, Dropped, ReadsLike, ReadsSame;
    DropSite(m, ptes, k);
    var m1 := Dropped(m, ptes[k].frame);
    DropTables(m, ts, pts, ptes, k);
    MemRefs(m1, ptes - {k});
    PagesChange(m, ts, pts, m1, ptes);
    WriteKeeps(m1, ts, pts, k, 0, ptes);
    LikeThen(m, m1, m1.(data := WithWord(m1.data, ts[k.space], k, 0)), ptes - {k});
  }

  lemma DropTables(m: Pages, ts: Trees, pts: map<nat, Frame>, ptes: Ptes, k: Site)
    requires TablesOk(m, ts, pts) && MemOk(m, ptes) && k in ptes && Known(m, ptes[k].frame)
    ensures TablesSame(m, Dropped(m, ptes[k].frame))
  {
    hide TreesOk, Linked, Sites, Counted, WritesAlone;
    assert Usable(m, ptes[k].frame);
  }

  lemma LikeThen(m: Pages, m1: Pages, m2: Pages, ptes: Ptes)
    requires ReadsLike(m, m1, ptes) && ReadsSame(m1, ptes, m2, ptes)
    ensures ReadsLike(m, m2, ptes)
  {
  }

  class Vm {
    var m: Pages
    var pts: map<nat, Frame>                 // pgdir->pt of each space
    var sections: map<nat, seq<Section>>
    ghost var trees: Trees
    ghost var ptes: Ptes

    /** Counts equal mappings, and the page tables in memory are the mappings. */
    ghost predicate Sound()
      reads this
    {
      SoundState(m, trees, pts, ptes) && sections.Keys == pts.Keys
    }

    ghost predicate Valid()
      reads this
    {
      Sound() && SpacesOk(ptes, sections)
    }

    // ----- get_pte, vmmap

    /** get_pte in space s. */
    method Walk(s: nat, v: Vpn, alloc: bool) returns (slot: Option<(Frame, nat)>)
      requires TablesOk(m, trees, pts) && s in pts && (alloc ==> Path(v * PAGE_SIZE) in trees[s] || |m.free| >= 4)
      modifies this`m, this`trees
      ensures s in trees && trees == old(trees)[s := trees[s]] && Extends(old(m), old(trees)[s], m, trees[s])
      ensures PagesOk(m) && TreeOk(m.data, trees[s]) && TreeIn(m, trees[s]) && |m.free| >= |old(m).free| - 4
      ensures !alloc || Path(v * PAGE_SIZE) in old(trees)[s] ==> m == old(m) && trees == old(trees)
      ensures alloc ==> Path(v * PAGE_SIZE) in trees[s]
      ensures slot == if Path(v * PAGE_SIZE) in trees[s] then Some(Slot(trees, Site(s, v))) else None
    {
      hide PagesOk, TreesOk, TreeOk, TreeIn, Extends, Path, Part;
      TreeAt(m, trees, s);
      var d := new PgDir(Some(pts[s]), m, trees[s]);
      slot := d.GetPte(v * PAGE_SIZE, alloc);
      m := d.m;
      trees := trees[s := d.tree];
      assert !alloc || Path(v * PAGE_SIZE) in old(trees)[s] ==> trees == old(trees);
    }

    /** get_pte with alloc: nothing that can be read changes. */
    method GetSlot(k: Site) returns (slot: (Frame, nat))
      requires Sound() && Proper(trees, k) && |m.free| >= 4
      modifies this`m, this`trees
      ensures Sound() && ReadsSame(old(m), ptes, m, ptes) && |m.free| >= |old(m).free| - 4
      ensures Proper(trees, k) && Path(k.page * PAGE_SIZE) in trees[k.space] && slot == Slot(trees, k)
      ensures m.zero == old(m).zero && forall f :: Usable(old(m), f) ==> Usable(m, f)
    {
      hide PagesOk, TreesOk, TreeOk, TreeIn, Extends, Path, Part, Represents, MemOk, ReadsSame;
      var r := Walk(k.space, k.page, true);
      WalkKeeps(old(m), old(trees), pts, k.space, m, trees[k.space], ptes);
      UsableAfter(old(m), old(trees)[k.space], m, trees[k.space]);
      slot := r.value;
    }

    /** vmmap into a slot that is there: the word of the entry, and one reference more. */
    method Vmmap(k: Site, f: Frame, ro: bool)
      requires TablesOk(m, trees, pts) && Proper(trees, k) && Path(k.page * PAGE_SIZE) in trees[k.space] && f in m.ref
      modifies this`m, this`trees
      ensures trees == old(trees) && TableIn(old(m).data, Slot(trees, k).0)
      ensures m == Mapped(old(m), f).(data := WithWord(old(m).data, trees[k.space], k, LeafEntry(f, ro)))
    {
      hide PagesOk, TreesOk, TreeOk, TreeIn, Extends, Path, Part, LeafEntry;
      TreeAt(m, trees, k.space);
      PlaceAt(m.data, trees[k.space], Path(k.page * PAGE_SIZE));
      var r := Walk(k.space, k.page, true);
      WriteWord(r.value, k, LeafEntry(f, ro));
      m := m.(ref := m.ref[f := m.ref[f] + 1]);
    }

    /** The store through a pointer to an entry. */
    method WriteWord(slot: (Frame, nat), ghost k: Site, e: nat)
      requires k.space in trees && Path(k.page * PAGE_SIZE) in trees[k.space] && slot == Slot(trees, k)
      requires TableIn(m.data, slot.0)
      modifies this`m
      ensures m == old(m).(data := WithWord(old(m).data, trees[k.space], k, e))
    {
      var table: Contents := m.data[slot.0][slot.1 := e];
      m := m.(data := m.data[slot.0 := table]);
    }

    // ----- page faults

    method Lazy(k: Site)
      requires Proper(trees, k) && Path(k.page * PAGE_SIZE) in trees[k.space] && k !in ptes && m.free != [] && Sound()
      modifies this`m, this`trees, this`ptes
      ensures Sound() && trees == old(trees) && ReadsSame(old(m), old(ptes), m, ptes)
      ensures ptes == old(ptes)[k := Pte(old(m).free[0], false)]
    {
      hide TreesOk, Path, Part, Represents, MemOk, ReadsSame, LeafEntry, WithWord, PagesOk;
      LazyKeeps(m, trees, pts, ptes, k);
      TakenTables(m, trees, pts, ptes);
      var f := m.free[0];
      m := Taken(m);
      Vmmap(k, f, false);
      ptes := ptes[k := Pte(f, false)];
    }

    method Cow(k: Site, a: Frame)
      requires Proper(trees, k) && Path(k.page * PAGE_SIZE) in trees[k.space] && m.free != []
      requires k in ptes && ptes[k].frame == a && Sound()
      modifies this`m, this`trees, this`ptes
      ensures Sound() && trees == old(trees) && ReadsSame(old(m), old(ptes), m, ptes)
      ensures ptes == old(ptes)[k := Pte(old(m).free[0], false)]
    {
      hide TreesOk, Path, Part, Represents, MemOk, ReadsSame, LeafEntry, WithWord, Linked, PagesOk;
      CowKnown(m, ptes, k);
      CowKeeps(m, trees, pts, ptes, k);
      CowBefore(m, trees, pts, ptes, k);
      var f := m.free[0];
      m := Taken(m);
      m := m.(data := m.data[f := m.data[a]]);
      m := Dropped(m, a);
      Vmmap(k, f, false);
      ptes := ptes[k := Pte(f, false)];
    }

    /** The section that contains addr; the number of sections if there is none. */
    method FindSection(ss: seq<Section>, addr: nat) returns (i: nat)
      ensures i <= |ss| && (i < |ss| ==> Contains(ss[i], addr))
      ensures i == |ss| ==> forall j :: 0 <= j < |ss| ==> !Contains(ss[j], addr)
    {
      i := 0;
      while i < |ss| && !Contains(ss[i], addr)
        invariant i <= |ss| && forall j :: 0 <= j < i ==> !Contains(ss[j], addr)
      {
        i := i + 1;
      }
    }

    /** The two cases of pgfault_handler for the entry k. */
    method Resolve(k: Site)
      requires Sound() && Proper(trees, k) && |m.free| >= 5
      modifies this`m, this`trees, this`ptes
      ensures Sound() && ReadsSame(old(m), old(ptes), m, ptes)
      ensures k in ptes && !ptes[k].ro && ptes == old(ptes)[k := ptes[k]]
    {
      hide TreesOk, Path, Part, Represents, MemOk, ReadsSame, IsValid, PagesOk, Slot;
      var slot := GetSlot(k);
      ghost var m1 := m;
      SlotWord(m, trees, pts, ptes, k);
      InvalidZero();
      var e := m.data[slot.0][slot.1];
      if e == 0 {
        Lazy(k);
        ReadsTrans(old(m), old(ptes), m1, old(ptes), m, ptes);
      } else if e / RO_BIT % 2 == 1 {
        Cow(k, FrameOf(e));
        ReadsTrans(old(m), old(ptes), m1, old(ptes), m, ptes);
      }
    }

    /** pgfault_handler at address addr of space s: false where the ASSERT on the section fails. Otherwise the
        page of addr can be written afterwards, and nothing that could be read before reads differently. */
    method PgFault(s: nat, addr: nat) returns (ok: bool)
      requires Valid() && s in sections && |m.free| >= 5
      modifies this`m, this`trees, this`ptes
      ensures Valid()
      ensures ok <==> exists i :: 0 <= i < |sections[s]| && Contains(sections[s][i], addr)
      ensures ReadsSame(old(m), old(ptes), m, ptes)
      ensures !ok ==> m == old(m) && ptes == old(ptes)
      ensures ok ==> var k := Site(s, addr / PAGE_SIZE);
                k in ptes && !ptes[k].ro && ptes == old(ptes)[k := ptes[k]]
    {
      hide TablesOk, Represents, MemOk, ReadsSame, Contains, Disjoint, HeapOk, Somewhere, PageIn;
      var i := FindSection(sections[s], addr);
      if i == |sections[s]| {
        MemRefs(m, ptes);
        ReadsKept(m, ptes);
        return false;
      }
      AddressPage(sections[s], i, addr);
      SameSpaces(m, trees, pts);
      Resolve(Site(s, addr / PAGE_SIZE));
      ok := true;
    }

    /** vmmap into an empty slot, of a page that nobody writes to unless it is mapped only here. */
    method MapPage(k: Site, f: Frame, ro: bool)
      requires Valid() && k.space in sections && Somewhere(sections[k.space], k.page) && k.page < FRAMES
      requires k !in ptes && Usable(m, f) && |m.free| >= 4 && (f == m.zero ==> ro)
      requires forall j :: j in ptes && ptes[j].frame == f ==> ro && ptes[j].ro
      modifies this`m, this`trees, this`ptes
      ensures Valid() && ptes == old(ptes)[k := Pte(f, ro)] && ReadsSame(old(m), old(ptes), m, ptes)
    {
      hide TablesOk, Represents, MemOk, ReadsSame, Disjoint, HeapOk, Somewhere, Path, Part, WithWord, LeafEntry;
      SameSpaces(m, trees, pts);
      var slot := GetSlot(k);
      ghost var m1 := m;
      MapKeeps(m, trees, pts, ptes, k, f, ro);
      Vmmap(k, f, ro);
      ptes := ptes[k := Pte(f, ro)];
      ReadsTrans(old(m), old(ptes), m1, old(ptes), m, ptes);
    }

    // ----- sbrk

    /** kfree_page of the page f of a mapping, and the store that takes its entry away. */
    method UnmapEntry(slot: (Frame, nat), ghost k: Site, f: Frame)
      requires Sound() && Proper(trees, k) && k in ptes && f == ptes[k].frame
      requires Path(k.page * PAGE_SIZE) in trees[k.space] && slot == Slot(trees, k)
      modifies this`m, this`ptes
      ensures Sound() && ptes == old(ptes) - {k} && ReadsLike(old(m), m, ptes)
    {
      hide TablesOk, Represents, MemOk, ReadsLike, Path, Part, WithWord, Dropped, Slot;
      UnmapKeeps(m, trees, pts, ptes, k);
      m := Dropped(m, f);
      WriteWord(slot, k, 0);
      ptes := ptes - {k};
    }

    /** Give back the page of k, if there is one, and clear its entry. */
    method Unmap(k: Site)
      requires k.page < FRAMES && k.space in pts && Sound()
      modifies this`m, this`trees, this`ptes
      ensures Sound() && trees == old(trees) && ptes == old(ptes) - {k} && ReadsLike(old(m), m, ptes)
    {
      hide TablesOk, Represents, MemOk, ReadsLike, Path, Part, WithWord, IsValid, Dropped, LeafOf, Slot;
      SameSpaces(m, trees, pts);
      SlotWord(m, trees, pts, ptes, k);
      InvalidZero();
      var slot := Walk(k.space, k.page, false);
      if slot.Some? && IsValid(m.data[slot.value.0][slot.value.1]) {
        var word := m.data[slot.value.0][slot.value.1];
        LeafFrameOf(word);
        UnmapEntry(slot.value, k, FrameOf(word));
      } else {
        assert ptes == ptes - {k};
        MemRefs(m, ptes);
        LikeRefl(m, ptes);
      }
    }

    /** The loop of sbrk, from the new end of the heap at page e. */
    method UnmapVisited(s: nat, e: Vpn, n: nat)
      requires s in pts && Sound()
      modifies this`m, this`trees, this`ptes
      ensures Sound() && ptes == Minus(old(ptes), s, VisitedPages(e, n)) && ReadsLike(old(m), m, ptes)
    {
      hide SoundState, ReadsLike, Minus, VisitedPages, Visited;
      SoundRefs(m, trees, pts, ptes);
      LikeRefl(m, ptes);
      MinusNone(ptes, s, e);
      var i := 0;
      while i < n
        invariant i <= n && Sound() && ptes == Minus(old(ptes), s, VisitedPages(e, i)) && ReadsLike(old(m), m, ptes)
      {
        ghost var m1, p1 := m, ptes;
        var addr := (e * PAGE_SIZE + Wrap32(i * PAGE_SIZE)) % Words.U64_BOUND;
        MinusNext(old(ptes), s, e, i);
        VisitedIs(e, i);
        Unmap(Site(s, PageNumber(addr)));
        LikeStep(old(m), m1, p1, m, Site(s, PageNumber(addr)));
        i := i + 1;
      }
    }

    /** The loop of sbrk over the sections, up to the first heap section. */
    method FindHeap(ss: seq<Section>) returns (i: nat)
      requires HeapOk(ss)
      ensures IsHeap(ss, i)
    {
      i := 0;
      while i < |ss| && !ss[i].heap
        invariant i <= |ss| && forall j :: 0 <= j < i ==> !ss[j].heap
      {
        i := i + 1;
      }
    }

    /** sbrk, for any 64-bit size, which is a number of pages. None where the ASSERT fails. Counts equal mappings
        whatever happens; up to 2^19 pages can be given up at a time, and exactly those are unmapped then. */
    method Sbrk(s: nat, size: int) returns (r: Option<nat>)
      requires s in sections && -0x8000_0000_0000_0000 <= size < 0x8000_0000_0000_0000
      requires size >= 0 ==> forall i :: IsHeap(sections[s], i) ==> Disjoint(Resized(sections[s], i, size * PAGE_SIZE))
      requires Valid()
      modifies this
      ensures HeapMoved(old(sections), s, size, r, sections)
      ensures (r.None? || size >= 0 ==> m == old(m) && ptes == old(ptes)) && ReadsLike(old(m), m, ptes)
      ensures r.Some? && size < 0 ==> GivenUp(old(ptes), s, size, r.value, ptes)
      ensures Sound() && (size >= -MAX_SHRINK ==> Valid())
    {
      hide SoundState, ReadsLike, Disjoint, HeapOk, SpacesOk, GivenUp, Change, Product, Resized;
      SoundRefs(m, trees, pts, ptes);
      LikeRefl(m, ptes);
      HeapThere(ptes, sections, s);
      var ss := sections[s];
      var i := FindHeap(ss);
      var st := ss[i];
      HeapAt(ss, i);
      SmallProduct(size);
      var product := if size < 0 then Product(-size) else 0;
      if product > st.end - st.begin {
        MovedIntro(sections, s, i, size, None);
        return None;
      }
      MovedIntro(sections, s, i, size, Some(st.end));
      if size >= 0 {
        GrownOk(ptes, sections, s, i, size);
        GrownIs(ss, i, size);
        sections := sections[s := ss[i := st.(end := st.end + size * PAGE_SIZE)]];
      } else {
        Shrink(s, i, size);
      }
      r := Some(st.end);
    }

    /** The heap, section i, gives up -size pages. */
    method Shrink(s: nat, i: nat, size: int)
      requires s in sections && IsHeap(sections[s], i) && size < 0
      requires Product(-size) <= sections[s][i].end - sections[s][i].begin
      requires Valid()
      modifies this
      ensures sections == old(sections)[s := Resized(old(sections)[s], i, Change(size))]
      ensures GivenUp(old(ptes), s, size, old(sections)[s][i].end, ptes) && ReadsLike(old(m), m, ptes)
      ensures Sound() && (size >= -MAX_SHRINK ==> SpacesOk(ptes, sections))
    {
      hide SoundState, ReadsLike, Disjoint, HeapOk, SpacesOk, Minus, VisitedPages, Product, Unmapped;
      var st := sections[s][i];
      HeapThere(ptes, sections, s);
      HeapAt(sections[s], i);
      ShrinkEnd(st, size);
      var end := (st.end + size * PAGE_SIZE) % Words.U64_BOUND;
      if size >= -MAX_SHRINK {
        ShrunkOk(ptes, sections, s, i, size);
      }
      sections := sections[s := sections[s][i := st.(end := end)]];
      UnmapVisited(s, end / PAGE_SIZE, -size);
    }

    // ----- the end of a space

    /** The pages of section i. The entries are not cleared: their tables are freed next. */
    method FreeSection(s: nat, ss: seq<Section>, i: nat)
      requires s in pts && i < |ss| && Disjoint(ss) && TablesOk(m, trees, pts) && Represents(m.data, trees, ptes)
      requires RefsOk(m, Rest(ptes, s, ss, i, ss[i].begin / PAGE_SIZE))
      modifies this`m, this`trees
      ensures trees == old(trees) && TablesOk(m, trees, pts) && Represents(m.data, trees, ptes)
      ensures RefsOk(m, Rest(ptes, s, ss, i + 1, 0)) && m.zero == old(m.zero)
      ensures ReadsLike(old(m), m, Rest(ptes, s, ss, i + 1, 0))
    {
      hide RefsOk, Disjoint, Rest, ReadsLike, TablesOk, Represents;
      var v := ss[i].begin / PAGE_SIZE;
      LikeRefl(m, Rest(ptes, s, ss, i, v));
      while v * PAGE_SIZE < ss[i].end
        invariant v >= ss[i].begin / PAGE_SIZE && RefsOk(m, Rest(ptes, s, ss, i, v)) && m.zero == old(m.zero)
        invariant trees == old(trees) && TablesOk(m, trees, pts) && Represents(m.data, trees, ptes)
        invariant ReadsLike(old(m), m, Rest(ptes, s, ss, i, v))
        decreases ss[i].end - v * PAGE_SIZE
      {
        ghost var m1 := m;
        RestNext(ptes, s, ss, i, v);
        DropEntry(s, v, Rest(ptes, s, ss, i, v));
        LikeStep(old(m), m1, Rest(ptes, s, ss, i, v), m, Site(s, v));
        v := v + 1;
      }
      RestDone(ptes, s, ss, i, v);
    }

    /** One round of free_sections: the page of v, if there is one, loses a reference. */
    method DropEntry(s: nat, v: Vpn, ghost rest: Ptes)
      requires s in pts && v < FRAMES && TablesOk(m, trees, pts) && Represents(m.data, trees, ptes) && RefsOk(m, rest)
      requires Site(s, v) in ptes ==> Site(s, v) in rest && rest[Site(s, v)] == ptes[Site(s, v)]
      requires Site(s, v) !in ptes ==> Site(s, v) !in rest
      modifies this`m, this`trees
      ensures trees == old(trees) && TablesOk(m, trees, pts) && Represents(m.data, trees, ptes)
      ensures RefsOk(m, rest - {Site(s, v)}) && m.zero == old(m.zero) && ReadsLike(old(m), m, rest - {Site(s, v)})
    {
      hide RefsOk, ReadsLike, TablesOk, Represents, Path, Part, IsValid, LeafOf, Dropped, Slot, TablesSame;
      ghost var k := Site(s, v);
      SameSpaces(m, trees, pts);
      SlotWord(m, trees, pts, ptes, k);
      InvalidZero();
      var slot := Walk(s, v, false);
      if slot.Some? && IsValid(m.data[slot.value.0][slot.value.1]) {
        LeafFrameOf(m.data[slot.value.0][slot.value.1]);
        UsableAt(m, rest, k);
        DroppedOk(m, rest, k);
        DroppedLike(m, rest, k);
        DropKeeps(m, trees, pts, ptes, rest, k);
        m := Dropped(m, FrameOf(m.data[slot.value.0][slot.value.1]));
      } else {
        assert rest == rest - {k};
        LikeRefl(m, rest);
      }
    }

    /** free_sections: every page mapped in space s loses exactly one reference. */
    method FreeSections(s: nat)
      requires s in sections && Valid()
      modifies this`m, this`trees
      ensures trees == old(trees) && TablesOk(m, trees, pts) && Represents(m.data, trees, ptes)
      ensures RefsOk(m, Others(ptes, s)) && m.zero == old(m.zero) && ReadsLike(old(m), m, Others(ptes, s))
    {
      hide RefsOk, Disjoint, HeapOk, Somewhere, Rest, ReadsLike, Others, WritesAlone, TablesOk, Represents;
      var ss := sections[s];
      var i := 0;
      RestNone(ptes, s, ss);
      LikeRefl(m, ptes);
      while i < |ss|
        invariant i <= |ss| && RefsOk(m, Rest(ptes, s, ss, i, 0)) && m.zero == old(m.zero)
        invariant trees == old(trees) && TablesOk(m, trees, pts) && Represents(m.data, trees, ptes)
        invariant ReadsLike(old(m), m, Rest(ptes, s, ss, i, 0))
      {
        ghost var m1 := m;
        RestStart(ptes, s, ss, i);
        FreeSection(s, ss, i);
        RestFewer(ptes, s, ss, i);
        LikeFewer(old(m), m1, Rest(ptes, s, ss, i, 0), m, Rest(ptes, s, ss, i + 1, 0));
        i := i + 1;
      }
      RestAll(ptes, sections, s);
    }

    /** free_pgdir: the address space s is gone, with its pages and its page tables, each of which is on the stack
        exactly once; counts still equal mappings, and all other spaces read as before. */
    method FreeSpace(s: nat)
      requires s in sections && Valid()
      modifies this
      ensures Valid() && ptes == Others(old(ptes), s) && sections == old(sections) - {s} && s !in pts
      ensures s in old(trees) && forall p :: p in old(trees)[s] ==> old(trees)[s][p] in m.free
      ensures NoDup(m.free) && ReadsLike(old(m), m, ptes)
    {
      hide MemOk, ReadsLike, SpacesOk, TablesOk, Represents, Freed, Others, RefsOk, NoDup;
      SameSpaces(m, trees, pts);
      FreeSections(s);
      ghost var m1 := m;
      FreeTables(s);
      FreedAll(old(m), m1, trees, pts, s, m, ptes);
      OthersIn(ptes, sections, s);
      hide SoundState;
      ptes, trees := Others(ptes, s), trees - {s};
      pts, sections := pts - {s}, sections - {s};
    }

    /** free_pgdir after free_sections: the tables of space s. */
    method FreeTables(s: nat)
      requires s in trees && s in pts && TablesOk(m, trees, pts)
      modifies this`m
      ensures Freed(old(m), trees[s], m)
    {
      hide PagesOk, TreesOk, TreeOk, TreeIn, Freed;
      TreeAt(m, trees, s);
      var d := new PgDir(Some(pts[s]), m, trees[s]);
      d.FreePgdir();
      m := d.m;
    }

    // ----- the beginning

    /** No address space yet: the only reference is that of the page of zeros to itself. */
    constructor (m: Pages)
      requires RefsOk(m, map[]) && m.tables == {}
      ensures Valid() && this.m == m && sections == map[] && ptes == map[]
    {
      this.m := m;
      pts, sections, trees, ptes := map[], map[], map[], map[];
    }

    /** init_pgdir and init_sections: a root table, and a heap of no pages. */
    method NewSpace(s: nat)
      requires s !in sections && m.free != [] && Valid()
      modifies this
      ensures Valid() && ptes == old(ptes) && ReadsSame(old(m), ptes, m, ptes)
      ensures sections == old(sections)[s := [Section(0, 0, true)]]
    {
      hide SoundState, SpacesOk, ReadsSame, NewTable;
      NewKeeps(m, trees, pts, s, ptes);
      NewSection(ptes, sections, s);
      var f := m.free[0];
      m := NewTable(m);
      pts := pts[s := f];
      trees := trees[s := RootOnly(f)];
      sections := sections[s := [Section(0, 0, true)]];
    }
  }

  lemma SameSpaces(m: Pages, ts: Trees, pts: map<nat, Frame>)
    requires TablesOk(m, ts, pts)
    ensures ts.Keys == pts.Keys
  {
  }

  /** After kalloc_page the tables are as they were. */
  lemma TakenTables(m: Pages, ts: Trees, pts: map<nat, Frame>, ptes: Ptes)
    requires TablesOk(m, ts, pts) && Represents(m.data, ts, ptes) && m.free != []
    ensures TablesOk(Taken(m), ts, pts) && m.free[0] in Taken(m).ref
  {
    hide TreesOk, Represents;
    TakenShape(m);
    assert m.free[0] in m.free;
    TreesSame(m, Taken(m), ts, ptes);
  }

  lemma CowKnown(m: Pages, ptes: Ptes, k: Site)
    requires MemOk(m, ptes) && m.free != [] && k in ptes
    ensures Known(m, m.free[0]) && Known(m, ptes[k].frame) && m.free[0] != ptes[k].frame
  {
    MemRefs(m, ptes);
    hide MemOk;
    CowFresh(m, ptes, k);
  }

  /** The pages of the copy-on-write case before the entry is written. */
  function CowDropped(m: Pages, a: Frame): (r: Pages)
    requires m.free != [] && Known(m, m.free[0]) && Known(m, a)
  {
    Dropped(Copied(Taken(m), m.free[0], a), a)
  }

  lemma CowDroppedOk(m: Pages, ptes: Ptes, k: Site)
    requires RefsOk(m, ptes) && m.free != [] && k in ptes
    requires Known(m, m.free[0]) && Known(m, ptes[k].frame) && m.free[0] != ptes[k].frame
    ensures PagesOk(CowDropped(m, ptes[k].frame)) && m.free[0] in CowDropped(m, ptes[k].frame).ref
  {
    hide RefsOk, Sites, Linked;
    var f, a := m.free[0], ptes[k].frame;
    CowFresh(m, ptes, k);
    CopiedOk(Taken(m), ptes, f, a);
    UsableAt(Copied(Taken(m), f, a), ptes, k);
    DroppedOk(Copied(Taken(m), f, a), ptes, k);
    WrittenShape(CowDropped(m, a), ptes - {k});
  }

  lemma CowDroppedTables(m: Pages, ptes: Ptes, k: Site)
    requires RefsOk(m, ptes) && m.free != [] && k in ptes
    requires Known(m, m.free[0]) && Known(m, ptes[k].frame) && m.free[0] != ptes[k].frame
    ensures TablesSame(m, CowDropped(m, ptes[k].frame))
  {
    hide Linked, Sites, Counted;
    assert m.free[0] in m.free && Usable(m, ptes[k].frame);
  }

  lemma CowBefore(m: Pages, ts: Trees, pts: map<nat, Frame>, ptes: Ptes, k: Site)
    requires SoundState(m, ts, pts, ptes) && m.free != [] && k in ptes
    requires Known(m, m.free[0]) && Known(m, ptes[k].frame) && m.free[0] != ptes[k].frame
    ensures Known(Taken(m), m.free[0]) && Known(Taken(m), ptes[k].frame)
    ensures TablesOk(CowDropped(m, ptes[k].frame), ts, pts) && m.free[0] in CowDropped(m, ptes[k].frame).ref
  {
    hide TreesOk, Represents, MemOk, PagesOk, RefsOk, TablesSame, CowDropped;
    MemRefs(m, ptes);
    CowDroppedOk(m, ptes, k);
    CowDroppedTables(m, ptes, k);
    TreesSame(m, CowDropped(m, ptes[k].frame), ts, ptes);
  }

  // ----- vmmap

  /** A page that may be mapped is not taken for a table. */
  lemma UsableAfter(m: Pages, t: Tree, m2: Pages, t2: Tree)
    requires PagesOk(m2) && Extends(m, t, m2, t2)
    ensures m2.zero == m.zero && forall f :: Usable(m, f) ==> Usable(m2, f)
  {
    hide Lookup, TreeGrows;
  }

  /** Mapping page f in the empty slot of k. */
  lemma MapKeeps(m: Pages, ts: Trees, pts: map<nat, Frame>, ptes: Ptes, k: Site, f: Frame, ro: bool)
    requires SoundState(m, ts, pts, ptes) && Proper(ts, k) && Path(k.page * PAGE_SIZE) in ts[k.space] && k !in ptes
    requires Usable(m, f) && (f == m.zero ==> ro) && forall j :: j in ptes && ptes[j].frame == f ==> ro && ptes[j].ro
    ensures var m1, q := Mapped(m, f), ptes[k := Pte(f, ro)];
            && TableIn(m1.data, Slot(ts, k).0)
            && var m2 := m1.(data := WithWord(m1.data, ts[k.space], k, LeafEntry(f, ro)));
            SoundState(m2, ts, pts, q) && ReadsSame(m, ptes, m2, q)
  {
    hide TablesOk, Represents, Path, Part, ReadsSame, WithWord, LeafEntry, LeafOf, IsValid, RefsOk, PagesOk;
    var m1, q := Mapped(m, f), ptes[k := Pte(f, ro)];
    MappedOk(m, ptes, k, Pte(f, ro));
    MappedReads(m, ptes, k, f, ro);
    WrittenShape(m1, q);
    MappedTables(m, ts, pts, f);
    PagesChange(m, ts, pts, m1, ptes);
    LeafRoundTrip(f, ro);
    InvalidZero();
    WriteKeeps(m1, ts, pts, k, LeafEntry(f, ro), ptes);
    ReadsTrans(m, ptes, m1, q, m1.(data := WithWord(m1.data, ts[k.space], k, LeafEntry(f, ro))), q);
  }

  lemma MappedReads(m: Pages, ptes: Ptes, k: Site, f: Frame, ro: bool)
    requires RefsOk(m, ptes) && k !in ptes && f in m.ref
    ensures ReadsSame(m, ptes, Mapped(m, f), ptes[k := Pte(f, ro)])
  {
    hide PagesOk, Counted, Sites;
  }

  lemma MappedTables(m: Pages, ts: Trees, pts: map<nat, Frame>, f: Frame)
    requires TablesOk(m, ts, pts) && Usable(m, f)
    ensures TablesSame(m, Mapped(m, f))
  {
    hide TreesOk;
  }

  // ----- sbrk

  lemma LeafFrameOf(e: nat)
    ensures LeafOf(e).frame == FrameOf(e)
  {
  }

  lemma SoundRefs(m: Pages, ts: Trees, pts: map<nat, Frame>, ptes: Ptes)
    requires SoundState(m, ts, pts, ptes)
    ensures RefsOk(m, ptes) && ts.Keys == pts.Keys
  {
    hide RefsOk, PagesOk, TreesOk, Represents;
  }

  lemma LikeRefl(m: Pages, ptes: Ptes)
    requires RefsOk(m, ptes)
    ensures ReadsLike(m, m, ptes)
  {
    hide PagesOk, Counted, Sites;
  }

  lemma LikeStep(m: Pages, m1: Pages, ptes: Ptes, m2: Pages, k: Site)
    requires ReadsLike(m, m1, ptes) && ReadsLike(m1, m2, ptes - {k})
    ensures ReadsLike(m, m2, ptes - {k})
  {
  }

  lemma VisitedIs(e: Vpn, i: nat)
    ensures Visited(e * PAGE_SIZE, i) == PageNumber((e * PAGE_SIZE + Wrap32(i * PAGE_SIZE)) % Words.U64_BOUND)
    ensures Visited(e * PAGE_SIZE, i) < FRAMES
  {
  }

  lemma MinusNone(ptes: Ptes, s: nat, e: Vpn)
    ensures Minus(ptes, s, VisitedPages(e, 0)) == ptes
  {
  }

  lemma MinusNext(ptes: Ptes, s: nat, e: Vpn, i: nat)
    ensures Minus(ptes, s, VisitedPages(e, i)) - {Site(s, Visited(e * PAGE_SIZE, i))}
         == Minus(ptes, s, VisitedPages(e, i + 1))
  {
    hide Visited;
    assert VisitedPages(e, i + 1) == VisitedPages(e, i) + {Visited(e * PAGE_SIZE, i)};
  }

  /** Section i is the one that sbrk works on. */
  ghost predicate IsHeap(ss: seq<Section>, i: nat) {
    i < |ss| && ss[i].heap && forall j :: 0 <= j < i ==> !ss[j].heap
  }

  /** The sections after section i has grown or shrunk by so many bytes. */
  ghost function Resized(ss: seq<Section>, i: nat, bytes: int): (r: seq<Section>)
    requires i < |ss|
  {
    var end := ss[i].end + bytes;
    ss[i := ss[i].(end := if end < 0 then 0 else end)]
  }

  /** By how many bytes the end of the heap moves. */
  function Change(size: int): (bytes: int) {
    var given: int := if size >= 0 then 0 else Product(-size);
    if size >= 0 then size * PAGE_SIZE else -given
  }

  /** Where the heap ends after sbrk. */
  function NewEnd(end: nat, size: int): (r: nat) { var e := end + Change(size); if e < 0 then 0 else e }

  /** Of the mappings ptes of space s those of the pages that the loop of sbrk looks up are gone, which are exactly
      the pages given up if there are at most 2^19. */
  ghost predicate GivenUp(ptes: Ptes, s: nat, size: int, end: nat, qtes: Ptes) {
    && size < 0
    && qtes == Minus(ptes, s, VisitedPages(NewEnd(end, size) / PAGE_SIZE, -size))
    && (size >= -MAX_SHRINK ==> qtes == Unmapped(ptes, s, NewEnd(end, size) / PAGE_SIZE, end / PAGE_SIZE))
  }

  /** sbrk succeeds unless the product in its ASSERT is larger than the heap st, and returns the old end. If at most
      2^19 pages are to be given up this means that the heap is large enough. */
  predicate Sbrked(st: Section, size: int, r: Option<nat>) {
    && (if size < 0 && Product(-size) > st.end - st.begin then r == None else r == Some(st.end))
    && (-MAX_SHRINK <= size < 0 ==> (r.None? <==> -size * PAGE_SIZE > st.end - st.begin))
  }

  /** What sbrk returns, and what becomes of the first heap section. */
  ghost predicate HeapMoved(old_: map<nat, seq<Section>>, s: nat, size: int, r: Option<nat>,
                            new_: map<nat, seq<Section>>)
  {
    && s in old_
    && exists i: nat :: IsHeap(old_[s], i) && Sbrked(old_[s][i], size, r)
                   && new_ == if r.None? then old_ else old_[s := Resized(old_[s], i, Change(size))]
  }

  lemma HeapAt(ss: seq<Section>, i: nat)
    requires HeapOk(ss) && Disjoint(ss) && IsHeap(ss, i)
    ensures ss[i].begin % PAGE_SIZE == 0 && ss[i].end % PAGE_SIZE == 0 && ss[i].begin <= ss[i].end <= USER_END
  {
  }

  lemma HeapThere(ptes: Ptes, sections: map<nat, seq<Section>>, s: nat)
    requires SpacesOk(ptes, sections) && s in sections
    ensures HeapOk(sections[s]) && Disjoint(sections[s])
  {
    hide HeapOk, Disjoint;
  }

  lemma MovedIntro(sections: map<nat, seq<Section>>, s: nat, i: nat, size: int, r: Option<nat>)
    requires s in sections && IsHeap(sections[s], i) && Sbrked(sections[s][i], size, r)
    ensures HeapMoved(sections, s, size, r,
                      if r.None? then sections else sections[s := Resized(sections[s], i, Change(size))])
  {
    hide Resized, Sbrked, Change;
  }

  lemma GrownIs(ss: seq<Section>, i: nat, size: nat)
    requires i < |ss|
    ensures Change(size) == size * PAGE_SIZE
    ensures Resized(ss, i, size * PAGE_SIZE) == ss[i := ss[i].(end := ss[i].end + size * PAGE_SIZE)]
  {
  }

  lemma SmallProduct(size: int)
    ensures -MAX_SHRINK <= size < 0 ==> Product(-size) == -size * PAGE_SIZE
  {
    if -MAX_SHRINK <= size < 0 {
      ProductWraps(-size);
    }
  }

  /** The new end of the heap is the start of a page. */
  lemma ShrinkEnd(st: Section, size: int)
    requires size < 0 && Product(-size) <= st.end - st.begin
    requires st.begin <= st.end <= USER_END && st.end % PAGE_SIZE == 0
    ensures (st.end + size * PAGE_SIZE) % Words.U64_BOUND == NewEnd(st.end, size) == st.end - Product(-size)
    ensures NewEnd(st.end, size) % PAGE_SIZE == 0 && st.begin <= NewEnd(st.end, size)
  {
    var p := -size * PAGE_SIZE;
    ProductWraps(-size);
    assert p == p / Words.U64_BOUND * Words.U64_BOUND + Product(-size);
    assert st.end + size * PAGE_SIZE == (st.end - Product(-size)) + (-(p / Words.U64_BOUND)) * Words.U64_BOUND;
    ModPlus(st.end - Product(-size), -(p / Words.U64_BOUND));
    WholePages(st.end, -(-size % 0x10_0000_0000_0000));
  }

  lemma ModPlus(a: nat, q: int)
    requires a < Words.U64_BOUND
    ensures (a + q * Words.U64_BOUND) % Words.U64_BOUND == a
  {
  }

  lemma WholePages(n: nat, size: int)
    requires n % PAGE_SIZE == 0 && n + size * PAGE_SIZE >= 0
    ensures (n + size * PAGE_SIZE) % PAGE_SIZE == 0 && (n + size * PAGE_SIZE) / PAGE_SIZE == n / PAGE_SIZE + size
  {
  }

  lemma ResizedHeap(ss: seq<Section>, i: nat, size: int)
    requires HeapOk(ss) && i < |ss| && ss[i].heap && ss[i].begin <= ss[i].end + size * PAGE_SIZE
    ensures HeapOk(Resized(ss, i, size * PAGE_SIZE))
  {
    WholePages(ss[i].end, size);
    assert Resized(ss, i, size * PAGE_SIZE)[i].heap;
  }

  lemma GrownPages(ss: seq<Section>, i: nat, size: nat, v: Vpn)
    requires i < |ss| && Somewhere(ss, v)
    ensures Somewhere(Resized(ss, i, size * PAGE_SIZE), v)
  {
    var j :| 0 <= j < |ss| && PageIn(ss[j], v);
    assert PageIn(Resized(ss, i, size * PAGE_SIZE)[j], v);
  }

  lemma GrownOk(ptes: Ptes, sections: map<nat, seq<Section>>, s: nat, i: nat, size: nat)
    requires SpacesOk(ptes, sections) && s in sections && IsHeap(sections[s], i)
    requires Disjoint(Resized(sections[s], i, size * PAGE_SIZE))
    ensures SpacesOk(ptes, sections[s := Resized(sections[s], i, size * PAGE_SIZE)])
  {
    hide HeapOk, Disjoint, Somewhere;
    HeapAt(sections[s], i);
    ResizedHeap(sections[s], i, size);
    forall k | k in ptes && k.space == s ensures Somewhere(Resized(sections[s], i, size * PAGE_SIZE), k.page) {
      GrownPages(sections[s], i, size, k.page);
    }
  }

  /** A page that stays mapped is still in a section. */
  lemma ShrunkPages(ss: seq<Section>, i: nat, size: int, v: Vpn)
    requires i < |ss| && Somewhere(ss, v) && ss[i].end % PAGE_SIZE == 0 && 0 <= ss[i].end + size * PAGE_SIZE && size < 0
    requires !(ss[i].end / PAGE_SIZE + size <= v < ss[i].end / PAGE_SIZE)
    ensures Somewhere(Resized(ss, i, size * PAGE_SIZE), v)
  {
    var j :| 0 <= j < |ss| && PageIn(ss[j], v);
    WholePages(ss[i].end, size);
    assert PageIn(Resized(ss, i, size * PAGE_SIZE)[j], v);
  }

  lemma ShrunkDisjoint(ss: seq<Section>, i: nat, size: int)
    requires Disjoint(ss) && i < |ss| && 0 <= ss[i].end + size * PAGE_SIZE && size < 0
    ensures Disjoint(Resized(ss, i, size * PAGE_SIZE))
  {
    var r := Resized(ss, i, size * PAGE_SIZE);
    forall v | PageIn(r[i], v) ensures PageIn(ss[i], v) {
    }
  }

  /** Giving up at most 2^19 pages leaves every page that is mapped in a section. */
  lemma ShrunkOk(ptes: Ptes, sections: map<nat, seq<Section>>, s: nat, i: nat, size: int)
    requires SpacesOk(ptes, sections) && s in sections && IsHeap(sections[s], i) && -MAX_SHRINK <= size < 0
    requires Product(-size) <= sections[s][i].end - sections[s][i].begin
    ensures var e, n := sections[s][i].end, NewEnd(sections[s][i].end, size);
            && Minus(ptes, s, VisitedPages(n / PAGE_SIZE, -size)) == Unmapped(ptes, s, n / PAGE_SIZE, e / PAGE_SIZE)
            && SpacesOk(Unmapped(ptes, s, n / PAGE_SIZE, e / PAGE_SIZE),
                        sections[s := Resized(sections[s], i, Change(size))])
  {
    hide HeapOk, Somewhere, VisitedPages, Disjoint;
    var ss := sections[s];
    HeapAt(ss, i);
    SmallProduct(size);
    ResizedHeap(ss, i, size);
    ShrunkDisjoint(ss, i, size);
    WholePages(ss[i].end, size);
    var e := ss[i].end / PAGE_SIZE;
    ShrinkExact(e + size, -size);
    MinusRange(ptes, s, VisitedPages(e + size, -size), e + size, e);
    var q := Unmapped(ptes, s, e + size, e);
    forall k | k in q && k.space == s ensures Somewhere(Resized(ss, i, size * PAGE_SIZE), k.page) {
      ShrunkPages(ss, i, size, k.page);
    }
  }

  lemma MinusRange(ptes: Ptes, s: nat, vs: set<Vpn>, a: Vpn, b: Vpn)
    requires PagesFrom(vs, a, b)
    ensures Minus(ptes, s, vs) == Unmapped(ptes, s, a, b)
  {
  }

  // ----- free_sections

  /** Page pg is in a section before i, or in section i and before v. */
  ghost predicate Past(ss: seq<Section>, i: nat, v: Vpn, pg: Vpn) {
    || (exists j :: 0 <= j < i && j < |ss| && PageIn(ss[j], pg))
    || (i < |ss| && PageIn(ss[i], pg) && pg < v)
  }

  /** The entries whose references have not been dropped yet. */
  ghost function Rest(ptes: Ptes, s: nat, ss: seq<Section>, i: nat, v: Vpn): (r: Ptes) {
    map k | k in ptes && !(k.space == s && Past(ss, i, v, k.page)) :: ptes[k]
  }

  lemma RestNone(ptes: Ptes, s: nat, ss: seq<Section>)
    ensures Rest(ptes, s, ss, 0, 0) == ptes
  {
  }

  lemma RestStart(ptes: Ptes, s: nat, ss: seq<Section>, i: nat)
    requires i < |ss|
    ensures Rest(ptes, s, ss, i, ss[i].begin / PAGE_SIZE) == Rest(ptes, s, ss, i, 0)
  {
    assert forall pg :: Past(ss, i, ss[i].begin / PAGE_SIZE, pg) <==> Past(ss, i, 0, pg);
  }

  lemma PastNext(ss: seq<Section>, i: nat, v: Vpn, pg: Vpn)
    requires i < |ss| && PageIn(ss[i], v)
    ensures Past(ss, i, v + 1, pg) <==> Past(ss, i, v, pg) || pg == v
  {
  }

  lemma NotPast(ss: seq<Section>, i: nat, v: Vpn)
    requires i < |ss| && PageIn(ss[i], v) && Disjoint(ss)
    ensures !Past(ss, i, v, v)
  {
  }

  lemma RestNext(ptes: Ptes, s: nat, ss: seq<Section>, i: nat, v: Vpn)
    requires i < |ss| && ss[i].begin / PAGE_SIZE <= v && v * PAGE_SIZE < ss[i].end && Disjoint(ss)
    ensures Rest(ptes, s, ss, i, v + 1) == Rest(ptes, s, ss, i, v) - {Site(s, v)}
    ensures Site(s, v) in ptes ==>
              Site(s, v) in Rest(ptes, s, ss, i, v) && Rest(ptes, s, ss, i, v)[Site(s, v)] == ptes[Site(s, v)]
    ensures v < FRAMES
    ensures Site(s, v) !in ptes ==> Rest(ptes, s, ss, i, v + 1) == Rest(ptes, s, ss, i, v)
  {
    forall k | k in ptes ensures Past(ss, i, v + 1, k.page) <==> Past(ss, i, v, k.page) || k.page == v {
      PastNext(ss, i, v, k.page);
    }
    NotPast(ss, i, v);
    hide Past, Disjoint;
  }

  lemma PastDone(ss: seq<Section>, i: nat, v: Vpn, pg: Vpn)
    requires i < |ss| && v * PAGE_SIZE >= ss[i].end
    ensures Past(ss, i + 1, 0, pg) <==> Past(ss, i, v, pg)
  {
  }

  lemma RestDone(ptes: Ptes, s: nat, ss: seq<Section>, i: nat, v: Vpn)
    requires i < |ss| && v * PAGE_SIZE >= ss[i].end
    ensures Rest(ptes, s, ss, i + 1, 0) == Rest(ptes, s, ss, i, v)
  {
    forall k | k in ptes ensures Past(ss, i + 1, 0, k.page) <==> Past(ss, i, v, k.page) {
      PastDone(ss, i, v, k.page);
    }
    hide Past;
  }

  lemma RestFewer(ptes: Ptes, s: nat, ss: seq<Section>, i: nat)
    requires i < |ss|
    ensures Rest(ptes, s, ss, i + 1, 0).Keys <= Rest(ptes, s, ss, i, 0).Keys
    ensures forall k :: k in Rest(ptes, s, ss, i + 1, 0) ==>
              && Rest(ptes, s, ss, i + 1, 0)[k] == ptes[k]
              && k in Rest(ptes, s, ss, i, 0) && Rest(ptes, s, ss, i, 0)[k] == ptes[k]
  {
    assert forall pg :: Past(ss, i, 0, pg) ==> Past(ss, i + 1, 0, pg);
  }

  lemma RestAll(ptes: Ptes, sections: map<nat, seq<Section>>, s: nat)
    requires SpacesOk(ptes, sections) && s in sections
    ensures Rest(ptes, s, sections[s], |sections[s]|, 0) == Others(ptes, s)
  {
    hide Disjoint, HeapOk;
    forall k | k in ptes && k.space == s ensures Past(sections[s], |sections[s]|, 0, k.page) {
      var j :| 0 <= j < |sections[s]| && PageIn(sections[s][j], k.page);
    }
  }

  lemma DroppedLike(m: Pages, ptes: Ptes, k: Site)
    requires RefsOk(m, ptes) && k in ptes && Usable(m, ptes[k].frame)
    ensures ReadsLike(m, Dropped(m, ptes[k].frame), ptes - {k}) && Dropped(m, ptes[k].frame).zero == m.zero
  {
    DroppedOk(m, ptes, k);
    hide RefsOk;
  }

  lemma LikeFewer(m: Pages, m1: Pages, p1: Ptes, m2: Pages, p2: Ptes)
    requires ReadsLike(m, m1, p1) && ReadsLike(m1, m2, p2) && p2.Keys <= p1.Keys
    requires forall k :: k in p2 ==> k in p1 && p2[k] == p1[k]
    ensures ReadsLike(m, m2, p2)
  {
  }

  /** Dropping a reference leaves the tables alone. */
  lemma DropKeeps(m: Pages, ts: Trees, pts: map<nat, Frame>, ptes: Ptes, rest: Ptes, k: Site)
    requires TablesOk(m, ts, pts) && Represents(m.data, ts, ptes) && RefsOk(m, rest)
    requires k in rest && Usable(m, rest[k].frame)
    ensures var m2 := Dropped(m, rest[k].frame); TablesOk(m2, ts, pts) && Represents(m2.data, ts, ptes)
  {
    hide Represents, RefsOk, TreesOk, Linked;
    DroppedOk(m, rest, k);
    WrittenShape(Dropped(m, rest[k].frame), rest - {k});
    PagesChange(m, ts, pts, Dropped(m, rest[k].frame), ptes);
  }

  // ----- the end of a space

  lemma FreedAll(m0: Pages, m: Pages, ts: Trees, pts: map<nat, Frame>, s: nat, m2: Pages, ptes: Ptes)
    requires MemOk(m0, ptes) && TablesOk(m, ts, pts) && Represents(m.data, ts, ptes) && s in ts && Freed(m, ts[s], m2)
    requires RefsOk(m, Others(ptes, s)) && m.zero == m0.zero && ReadsLike(m0, m, Others(ptes, s))
    ensures SoundState(m2, ts - {s}, pts - {s}, Others(ptes, s)) && ReadsLike(m0, m2, Others(ptes, s))
    ensures NoDup(m2.free) && forall p :: p in ts[s] ==> ts[s][p] in m2.free
  {
    hide TreesOk, Represents, RefsOk, ReadsLike, TreeOk, TreeIn, WritesAlone, Others, PagesOk, ReadsSame;
    TreeAt(m, ts, s);
    FreedTrees(m, ts, s, m2);
    FreedRep(m, ts, s, m2, ptes);
    TablesFreed(m, ts[s], m2, Others(ptes, s));
    LikeThen(m0, m, m2, Others(ptes, s));
    OthersFewer(ptes, s);
    FewerWrites(m0, ptes, m2, Others(ptes, s));
    FreedStack(m, ts[s], m2);
  }

  lemma FreedStack(m: Pages, t: Tree, m2: Pages)
    requires Freed(m, t, m2)
    ensures PagesOk(m2) && NoDup(m2.free) && m2.zero == m.zero && forall p :: p in t ==> t[p] in m2.free
  {
  }

  lemma OthersFewer(ptes: Ptes, s: nat)
    ensures Others(ptes, s).Keys <= ptes.Keys && forall k :: k in Others(ptes, s) ==> Others(ptes, s)[k] == ptes[k]
  {
  }

  lemma OthersIn(ptes: Ptes, sections: map<nat, seq<Section>>, s: nat)
    requires SpacesOk(ptes, sections)
    ensures SpacesOk(Others(ptes, s), sections - {s})
  {
    hide Disjoint, HeapOk, Somewhere;
  }

  // ----- the beginning

  lemma NewKeeps(m: Pages, ts: Trees, pts: map<nat, Frame>, s: nat, ptes: Ptes)
    requires SoundState(m, ts, pts, ptes) && s !in pts && m.free != []
    ensures SoundState(NewTable(m), ts[s := RootOnly(m.free[0])], pts[s := m.free[0]], ptes)
    ensures ReadsSame(m, ptes, NewTable(m), ptes)
  {
    hide TreesOk, Represents, RefsOk, PagesOk, TreeOk, TreeIn, ReadsSame, NewTable;
    RootStep(m);
    NewTrees(m, ts, s);
    NewRep(m, ts, s, ptes);
    NoTables(m);
    TablesGrown(m, map[], NewTable(m), ptes);
    ZeroKept(m, map[], NewTable(m));
    MemIntro(m, NewTable(m), ptes);
  }

  lemma NoTables(m: Pages)
    ensures TreeIn(m, map[])
  {
  }

  lemma NewSection(ptes: Ptes, sections: map<nat, seq<Section>>, s: nat)
    requires SpacesOk(ptes, sections) && s !in sections
    ensures SpacesOk(ptes, sections[s := [Section(0, 0, true)]])
  {
    assert [Section(0, 0, true)][0].heap;
    assert Disjoint([Section(0, 0, true)]) && HeapOk([Section(0, 0, true)]);
    hide Disjoint, HeapOk, Somewhere;
  }
}
