/**
 The block allocator of the kernel (src/kernel/mem.c, kalloc and kfree). Memory is counted in granules of
 16 bytes, 256 to a page; a block starts with a header of 8 bytes, and its payload follows.
 */
module Kalloc {
  import opened Basics

  const GRANULE := 16
  const PER_PAGE := 256      // granules in a page, and the number of free lists
  const MAX_SIZE := 4072

  // ----- which sizes are served

  /** A 64-bit value assigned to an int. */
  function ToInt(n: nat): (r: int)
    ensures -0x8000_0000 <= r < 0x8000_0000 && (r - n) % 0x1_0000_0000 == 0
  {
    var m := n % 0x1_0000_0000;
    if m < 0x8000_0000 then m else m - 0x1_0000_0000
  }

  /** number in kalloc: the granules of a block, for a 64-bit size. */
  function Number(size: nat): (n: int)
  {
    var s := (size + 8) % 0x1_0000_0000_0000_0000;
    ToInt(if s % GRANULE == 0 then s / GRANULE else s / GRANULE + 1)
  }

  /** The header that kalloc writes, which kfree takes as the number of a free list. */
  function Header(size: nat): (h: int) {
    if Number(size) == PER_PAGE then PER_PAGE else Number(size) - 1
  }

  /** The free list that the rest of a new page goes to; none if the page is used whole. */
  function RestList(size: nat): (i: Option<int>) {
    if Number(size) == PER_PAGE then None else Some(PER_PAGE - Number(size) - 1)
  }

  predicate ListNumber(i: int) { 0 <= i < PER_PAGE }

  /** kalloc and the kfree of its result use only free lists that exist, and the payload is large enough. */
  predicate Served(size: nat) {
    && ListNumber(Header(size)) && (RestList(size).Some? ==> ListNumber(RestList(size).value))
    && GRANULE * Number(size) - 8 >= size
  }

  lemma NumberSmall(size: nat)
    requires size <= 4088
    ensures 0 < Number(size) <= PER_PAGE && GRANULE * Number(size) - 8 >= size > GRANULE * Number(size) - 8 - GRANULE
  {
  }

  /** Exactly the sizes up to 4072 are served; 4073 to 4088 get a whole page whose header names no list. */
  lemma SizesServed(size: nat)
    requires size < 0x1_0000_0000_0000_0000
    ensures Served(size) <==> size <= MAX_SIZE
    ensures MAX_SIZE < size <= 4088 ==> Number(size) == PER_PAGE && !ListNumber(Header(size))
  {
    hide Number;
    if size <= 4088 {
      NumberSmall(size);
    }
  }

  // ----- blocks

  function PageOf(g: nat): (pg: nat) { g / PER_PAGE }

  /** All blocks, free or live, by their first granule, and the pages that they lie in. */
  datatype Heap = Heap(blocks: map<nat, nat>, live: set<nat>, taken: set<nat>)

  type Blocks = map<nat, nat>

  /** Granule g is in block b. */
  predicate Within(bs: Blocks, b: nat, g: nat) {
    b in bs && b <= g < b + bs[b]
  }

  ghost predicate Covered(bs: Blocks, g: nat) { exists b :: Within(bs, b, g) }

  predicate Apart(b: nat, m: nat, c: nat, n: nat) { b + m <= c || c + n <= b }

  /** A block of n granules at b does not reach into the next page. */
  predicate InPage(b: nat, n: nat) { b % PER_PAGE + n <= PER_PAGE }

  ghost predicate BlocksIn(bs: Blocks, taken: set<nat>) {
    forall b :: b in bs ==> bs[b] > 0 && InPage(b, bs[b]) && PageOf(b) in taken
  }

  ghost predicate AllCovered(bs: Blocks, taken: set<nat>) {
    forall g :: PageOf(g) in taken ==> Covered(bs, g)
  }

  ghost predicate NoOverlap(bs: Blocks) {
    forall b, c :: b in bs && c in bs && b != c ==> Apart(b, bs[b], c, bs[c])
  }

  /** The blocks tile the pages taken: they lie in them, cover them and do not overlap. */
  ghost predicate Tiled(bs: Blocks, taken: set<nat>) {
    BlocksIn(bs, taken) && AllCovered(bs, taken) && NoOverlap(bs)
  }

  lemma SamePage(b: nat, n: nat, g: nat)
    requires InPage(b, n) && b <= g < b + n
    ensures PageOf(g) == PageOf(b) && InPage(g, n - (g - b))
  {
    assert b == b / PER_PAGE * PER_PAGE + b % PER_PAGE;
  }

  lemma WithinOne(bs: Blocks, b: nat, c: nat, g: nat)
    requires NoOverlap(bs) && Within(bs, b, g) && Within(bs, c, g)
    ensures b == c
  {
  }

  /** Every granule of a page taken is in exactly one block, and no other granule is in any. */
  lemma TiledExactly(bs: Blocks, taken: set<nat>, g: nat)
    requires Tiled(bs, taken)
    ensures PageOf(g) in taken ==> exists b :: Within(bs, b, g) && forall c :: Within(bs, c, g) ==> c == b
    ensures PageOf(g) !in taken ==> forall b :: !Within(bs, b, g)
  {
    hide NoOverlap, PageOf, InPage;
    if PageOf(g) in taken {
      assert Covered(bs, g);
      var b :| Within(bs, b, g);
      forall c | Within(bs, c, g) ensures c == b { WithinOne(bs, b, c, g); }
    } else if b :| Within(bs, b, g) {
      SamePage(b, bs[b], g);
    }
  }

  /** A new page is one free block. */
  function TakePage(h: Heap, pg: nat): (r: Heap)
  {
    Heap(h.blocks[pg * PER_PAGE := PER_PAGE], h.live, h.taken + {pg})
  }

  lemma PageApart(c: nat, n: nat, pg: nat)
    requires InPage(c, n) && PageOf(c) != pg
    ensures Apart(c, n, pg * PER_PAGE, PER_PAGE)
  {
    assert c == c / PER_PAGE * PER_PAGE + c % PER_PAGE;
  }

  lemma TakePageCovers(bs: Blocks, taken: set<nat>, pg: nat)
    requires AllCovered(bs, taken) && pg * PER_PAGE !in bs
    ensures AllCovered(bs[pg * PER_PAGE := PER_PAGE], taken + {pg})
  {
    var r := bs[pg * PER_PAGE := PER_PAGE];
    forall g | PageOf(g) in taken + {pg} ensures Covered(r, g) {
      if PageOf(g) == pg {
        assert Within(r, pg * PER_PAGE, g);
      } else {
        assert Covered(bs, g);
        var c :| Within(bs, c, g);
        assert Within(r, c, g);
      }
    }
  }

  lemma TakePageApart(bs: Blocks, taken: set<nat>, pg: nat)
    requires NoOverlap(bs) && BlocksIn(bs, taken) && pg !in taken
    ensures NoOverlap(bs[pg * PER_PAGE := PER_PAGE])
  {
    hide PageOf, InPage, Apart;
    forall c | c in bs ensures Apart(c, bs[c], pg * PER_PAGE, PER_PAGE) && Apart(pg * PER_PAGE, PER_PAGE, c, bs[c]) {
      PageApart(c, bs[c], pg);
      ApartSym(c, bs[c], pg * PER_PAGE, PER_PAGE);
    }
  }

  lemma ApartSym(b: nat, m: nat, c: nat, n: nat)
    requires Apart(b, m, c, n)
    ensures Apart(c, n, b, m)
  {
  }

  lemma PageStart(pg: nat)
    ensures PageOf(pg * PER_PAGE) == pg && InPage(pg * PER_PAGE, PER_PAGE)
  {
  }

  lemma TakePageTiled(h: Heap, pg: nat)
    requires Tiled(h.blocks, h.taken) && pg !in h.taken
    ensures Tiled(TakePage(h, pg).blocks, TakePage(h, pg).taken) && pg * PER_PAGE !in h.blocks
  {
    hide PageOf, InPage, AllCovered, NoOverlap;
    PageStart(pg);
    assert pg * PER_PAGE !in h.blocks;
    TakePageCovers(h.blocks, h.taken, pg);
    TakePageApart(h.blocks, h.taken, pg);
  }

  /** The first n granules of the free block b become a live block, the rest a free one. */
  function Carve(h: Heap, b: nat, n: nat): (r: Heap)
    requires b in h.blocks && 0 < n <= h.blocks[b]
  {
    var len := h.blocks[b];
    if len == n then h.(live := h.live + {b})
    else Heap(Cut(h.blocks, b, n), h.live + {b}, h.taken)
  }

  /** The block b cut after n granules. */
  function Cut(bs: Blocks, b: nat, n: nat): (r: Blocks)
    requires b in bs && n <= bs[b]
  {
    bs[b := n][b + n := bs[b] - n]
  }

  lemma CutCovers(bs: Blocks, b: nat, n: nat, g: nat)
    requires b in bs && 0 < n < bs[b] && Covered(bs, g) && b + n !in bs
    ensures Covered(Cut(bs, b, n), g)
  {
    var c :| Within(bs, c, g);
    assert Within(Cut(bs, b, n), c, g) || Within(Cut(bs, b, n), b + n, g);
  }

  lemma RestFree(bs: Blocks, taken: set<nat>, b: nat, n: nat)
    requires NoOverlap(bs) && BlocksIn(bs, taken) && b in bs && 0 < n < bs[b]
    ensures b + n !in bs
  {
    hide PageOf, InPage;
  }

  lemma CutIn(bs: Blocks, taken: set<nat>, b: nat, n: nat)
    requires BlocksIn(bs, taken) && b in bs && 0 < n < bs[b]
    ensures BlocksIn(Cut(bs, b, n), taken)
  {
    SamePage(b, bs[b], b + n);
    assert InPage(b, n);
    hide PageOf, InPage;
  }

  lemma CutAllCovered(bs: Blocks, taken: set<nat>, b: nat, n: nat)
    requires AllCovered(bs, taken) && b in bs && 0 < n < bs[b] && b + n !in bs
    ensures AllCovered(Cut(bs, b, n), taken)
  {
    hide PageOf, Covered;
    forall g | PageOf(g) in taken ensures Covered(Cut(bs, b, n), g) {
      CutCovers(bs, b, n, g);
    }
  }

  lemma CutApart(bs: Blocks, b: nat, n: nat)
    requires b in bs && 0 < n < bs[b] && NoOverlap(bs)
    ensures NoOverlap(Cut(bs, b, n))
  {
  }

  lemma CarveTiled(h: Heap, b: nat, n: nat)
    requires Tiled(h.blocks, h.taken) && b in h.blocks && 0 < n <= h.blocks[b]
    ensures Tiled(Carve(h, b, n).blocks, Carve(h, b, n).taken)
    ensures n < h.blocks[b] ==> b + n !in h.blocks
  {
    hide BlocksIn, AllCovered, NoOverlap;
    if n < h.blocks[b] {
      RestFree(h.blocks, h.taken, b, n);
      CutIn(h.blocks, h.taken, b, n);
      CutAllCovered(h.blocks, h.taken, b, n);
      CutApart(h.blocks, b, n);
    }
  }

  // ----- free lists

  /** free[i] holds the free blocks of i + 1 granules. */
  ghost predicate ListsOk(free: seq<seq<nat>>, h: Heap) {
    && |free| == PER_PAGE
    && (forall i :: 0 <= i < |free| ==> NoDup(free[i]))
    && (forall i, b :: 0 <= i < |free| && b in free[i] ==> b in h.blocks && b !in h.live && h.blocks[b] == i + 1)
    && (forall b :: b in h.blocks && b !in h.live && 0 < h.blocks[b] <= PER_PAGE ==> b in free[h.blocks[b] - 1])
  }

  /** The free lists after the free block b has been carved. */
  function Relist(free: seq<seq<nat>>, i: nat, n: nat): (r: seq<seq<nat>>)
    requires |free| == PER_PAGE && i < PER_PAGE && free[i] != [] && 0 < n <= i + 1
  {
    var b := free[i][0];
    var popped := free[i := free[i][1..]];
    if n == i + 1 then popped else popped[i - n := [b + n] + popped[i - n]]
  }

  lemma Listed(free: seq<seq<nat>>, h: Heap, i: nat, b: nat)
    requires ListsOk(free, h) && i < PER_PAGE && b in free[i]
    ensures b in h.blocks && h.blocks[b] == i + 1 && b !in h.live
  {
  }

  lemma RelistOk(free: seq<seq<nat>>, h: Heap, i: nat, n: nat)
    requires |free| == PER_PAGE && ListsOk(free, h) && Tiled(h.blocks, h.taken) && h.live <= h.blocks.Keys
    requires i < PER_PAGE && free[i] != [] && 0 < n <= i + 1
    ensures free[i][0] in h.blocks && h.blocks[free[i][0]] == i + 1 && free[i][0] !in h.live
    ensures ListsOk(Relist(free, i, n), Carve(h, free[i][0], n))
  {
    hide Tiled, ListsOk, ListsBut;
    var b := free[i][0];
    Listed(free, h, i, b);
    CarveTiled(h, b, n);
    PopOk(free, h, i);
    if n < i + 1 {
      PushOk(free[i := free[i][1..]], h, b, i - n, n);
    } else {
      UseWhole(free[i := free[i][1..]], h, b);
    }
  }

  lemma UseWhole(free: seq<seq<nat>>, h: Heap, b: nat)
    requires ListsBut(free, h, b)
    ensures ListsOk(free, h.(live := h.live + {b}))
  {
  }

  /** The free lists hold every free block except b. */
  ghost predicate ListsBut(free: seq<seq<nat>>, h: Heap, b: nat) {
    && |free| == PER_PAGE
    && (forall i :: 0 <= i < |free| ==> NoDup(free[i]))
    && (forall i, c :: 0 <= i < |free| && c in free[i] ==>
          c in h.blocks && c !in h.live && h.blocks[c] == i + 1 && c != b)
    && (forall c :: c in h.blocks && c !in h.live && c != b && 0 < h.blocks[c] <= PER_PAGE ==>
          c in free[h.blocks[c] - 1])
  }

  lemma PopOk(free: seq<seq<nat>>, h: Heap, i: nat)
    requires ListsOk(free, h) && i < PER_PAGE && free[i] != []
    ensures ListsBut(free[i := free[i][1..]], h, free[i][0])
  {
    var b, f := free[i][0], free[i := free[i][1..]];
    assert free[i] == [b] + free[i][1..] && b in free[i];
    NoDupRest(free[i]);
    hide NoDup;
    forall j, c | 0 <= j < |f| && c in f[j] ensures c in free[j] && c != b {
      if j != i { assert h.blocks[c] == j + 1; }
    }
    forall c | c in h.blocks && c !in h.live && c != b && 0 < h.blocks[c] <= PER_PAGE ensures c in f[h.blocks[c] - 1] {
      assert c in free[h.blocks[c] - 1];
    }
    forall j | 0 <= j < |f| ensures NoDup(f[j]) {
      assert NoDup(free[j]);
    }
  }

  /** Adding the rest of b, of k + 1 granules, to its list. */
  lemma PushOk(free: seq<seq<nat>>, h: Heap, b: nat, k: nat, n: nat)
    requires ListsBut(free, h, b) && b in h.blocks && 0 < n < h.blocks[b] && h.blocks[b] == n + k + 1
    requires k < PER_PAGE && b + n !in h.blocks && b !in h.live && h.live <= h.blocks.Keys
    ensures ListsOk(free[k := [b + n] + free[k]], Carve(h, b, n))
  {
    var f := free[k := [b + n] + free[k]];
    assert b + n !in free[k];
    assert f[k][0] == b + n;
    assert forall i, c :: 0 <= i < |f| && c in f[i] ==> c in free[i] || (i == k && c == b + n);
    assert forall i, c :: 0 <= i < |f| && c in free[i] ==> c in f[i];
  }

  // ----- the allocator

  /** ptr is a new live block with a payload of at least size bytes at 8 mod 16; the blocks that were live
      before are as they were. */
  ghost predicate Given(h: Heap, r: Heap, ptr: nat, size: nat) {
    && ptr % GRANULE == 8 && var b := (ptr - 8) / GRANULE;
    && b !in h.live && r.live == h.live + {b}
    && b in r.blocks && GRANULE * r.blocks[b] - 8 >= size
    && (forall c :: c in h.live ==> c in h.blocks && c in r.blocks && r.blocks[c] == h.blocks[c])
    && h.taken <= r.taken
  }

  class Allocator {
    var pages: seq<nat>              // the stack of free pages, by page number
    const free: array<seq<nat>>      // the free lists, as stacks of blocks
    var header: map<nat, int>        // the header words in memory
    ghost var heap: Heap

    ghost predicate Valid()
      reads this, free
    {
      && free.Length == PER_PAGE && Tiled(heap.blocks, heap.taken) && ListsOk(free[..], heap)
      && heap.live <= heap.blocks.Keys
      && NoDup(pages) && (forall pg :: pg in pages ==> pg !in heap.taken)
      && (forall b :: b in heap.live ==> b in header && header[b] == heap.blocks[b] - 1)
    }

    /** No page has been taken yet. */
    constructor (pages: seq<nat>)
      requires NoDup(pages)
      ensures Valid() && this.pages == pages && heap == Heap(map[], {}, {}) && fresh(free)
    {
      this.pages := pages;
      free := new seq<nat>[PER_PAGE](_ => []);
      header := map[];
      heap := Heap(map[], {}, {});
      new;
      assert forall i :: 0 <= i < PER_PAGE ==> free[..][i] == [];
    }

    /** The first free list from number - 1 on that is not empty, or PER_PAGE. */
    method FirstFit(number: nat) returns (i: nat)
      requires Valid() && 0 < number < PER_PAGE
      ensures number - 1 <= i <= PER_PAGE
      ensures i < PER_PAGE ==> free[i] != []
      ensures forall j :: number - 1 <= j < i ==> free[j] == []
    {
      i := number - 1;
      while i < PER_PAGE && free[i] == []
        invariant number - 1 <= i <= PER_PAGE
        invariant forall j :: number - 1 <= j < i ==> free[j] == []
      {
        i := i + 1;
      }
    }

    /** Take a block from list i, use n granules of it and put the rest back. */
    method UseFree(i: nat, n: nat) returns (b: nat)
      requires Valid() && i < PER_PAGE && free[i] != [] && 0 < n <= i + 1
      modifies this`header, this`heap, free
      ensures Valid() && b == old(free[i][0])
      ensures b in old(heap.blocks) && b !in old(heap.live) && old(heap.blocks[b]) == i + 1
      ensures heap == Carve(old(heap), b, n)
    {
      hide Tiled, ListsOk, Carve, Relist, NoDup;
      RelistOk(free[..], heap, i, n);
      CarveTiled(heap, free[i][0], n);
      CarveLive(heap, free[i][0], n);
      b := free[i][0];
      RelistFree(i, n);
      heap := Carve(heap, b, n);
      header := header[b := n - 1];
    }

    /** The changes to the free lists. */
    method RelistFree(i: nat, n: nat)
      requires free.Length == PER_PAGE && i < PER_PAGE && free[i] != [] && 0 < n <= i + 1
      modifies free
      ensures free[..] == Relist(old(free[..]), i, n)
    {
      var b := free[i][0];
      free[i] := free[i][1..];
      if n != i + 1 {
        free[i - n] := [b + n] + free[i - n];
      }
    }

    /** Take a page and put it on the last free list. */
    method NewPage()
      requires Valid() && pages != []
      modifies this`pages, this`heap, free
      ensures Valid() && pages == old(pages[1..]) && heap == TakePage(old(heap), old(pages[0]))
      ensures free[PER_PAGE - 1] == [old(pages[0]) * PER_PAGE] + old(free[PER_PAGE - 1])
    {
      hide Tiled, ListsOk, NoDup;
      var pg := pages[0];
      TakePageTiled(heap, pg);
      PageListed(free[..], heap, pg);
      ghost var was := free[..];
      pages := pages[1..];
      heap := TakePage(heap, pg);
      free[PER_PAGE - 1] := [pg * PER_PAGE] + free[PER_PAGE - 1];
      assert free[..] == was[PER_PAGE - 1 := [pg * PER_PAGE] + was[PER_PAGE - 1]];
      NoDupRest(old(pages));
    }

    /** Room for a block of number granules: on a free list or in a new page. */
    ghost predicate Room(number: nat)
      reads this, free
    {
      pages != [] || exists i :: 0 <= number - 1 <= i < free.Length && free[i] != []
    }

    /** A free list that has a block of at least number granules, made from a new page if need be; PER_PAGE if
        there is neither. */
    method Provide(number: nat) returns (i: nat)
      requires 0 < number < PER_PAGE && Valid()
      modifies this`pages, this`heap, free
      ensures Valid() && LiveSame(old(heap), heap)
      ensures i == PER_PAGE <==> !old(Room(number))
      ensures i == PER_PAGE ==> heap == old(heap) && pages == old(pages)
      ensures number - 1 <= i <= PER_PAGE && (i < PER_PAGE ==> free[i] != [])
    {
      hide Tiled, ListsOk, NoDup;
      i := FirstFit(number);
      if i == PER_PAGE && pages != [] {
        TakePageTiled(heap, pages[0]);
        TakePageLive(heap, pages[0]);
        NewPage();
        i := PER_PAGE - 1;
      }
    }

    /** kalloc: a payload of at least size bytes at 8 mod 16, in a block that overlaps no live block. None
        where the kernel would run out of pages. */
    method Kalloc(size: nat) returns (ptr: Option<nat>)
      requires Valid() && size <= MAX_SIZE
      modifies this, free
      ensures Valid()
      ensures ptr.Some? <==> old(Room(Number(size)))
      ensures ptr.None? ==> heap == old(heap) && pages == old(pages)
      ensures ptr.Some? ==> Given(old(heap), heap, ptr.value, size)
    {
      hide Tiled, ListsOk, Carve, NoDup, Number, LiveSame, Given;
      NumberSmall(size);
      var number := Number(size);
      var i := Provide(number);
      if i == PER_PAGE { return None; }
      ghost var mid := heap;
      var b := UseFree(i, number);
      GivenIntro(old(heap), mid, b, number, size);
      ptr := Some(b * GRANULE + 8);
    }

    /** kfree of a live pointer: its block goes back whole to the free list that its header names. */
    method Kfree(ptr: nat)
      requires Valid() && ptr % GRANULE == 8 && (ptr - 8) / GRANULE in heap.live
      modifies this`header, this`heap, free
      ensures Valid() && heap == old(heap).(live := old(heap.live) - {(ptr - 8) / GRANULE})
    {
      hide Tiled, NoDup;
      var b := (ptr - 8) / GRANULE;
      BlockSize(heap.blocks, heap.taken, b);
      var i := header[b];
      FreeListed(free[..], heap, b);
      ghost var was := free[..];
      free[i] := [b] + free[i];
      header := header - {b};
      heap := heap.(live := heap.live - {b});
      assert free[..] == was[i := [b] + was[i]];
    }
  }

  /** The live blocks are as they were. */
  ghost predicate LiveSame(h: Heap, r: Heap) {
    && r.live == h.live && h.taken <= r.taken
    && forall c :: c in h.live ==> c in h.blocks && c in r.blocks && r.blocks[c] == h.blocks[c]
  }

  lemma GivenIntro(h: Heap, mid: Heap, b: nat, number: nat, size: nat)
    requires LiveSame(h, mid) && Tiled(mid.blocks, mid.taken) && mid.live <= mid.blocks.Keys
    requires b in mid.blocks && b !in mid.live && 0 < number <= mid.blocks[b] && GRANULE * number - 8 >= size
    ensures Given(h, Carve(mid, b, number), b * GRANULE + 8, size)
  {
    hide Tiled;
    CarveTiled(mid, b, number);
    CarveLive(mid, b, number);
  }

  lemma NoDupRest(s: seq<nat>)
    requires s != [] && NoDup(s)
    ensures NoDup(s[1..]) && s[0] !in s[1..] && forall x :: x in s[1..] ==> x in s
  {
  }

  lemma CarveLive(h: Heap, b: nat, n: nat)
    requires b in h.blocks && 0 < n <= h.blocks[b] && b !in h.live && h.live <= h.blocks.Keys
    requires n < h.blocks[b] ==> b + n !in h.blocks
    ensures var r := Carve(h, b, n);
            && r.live == h.live + {b} && b in r.blocks && r.blocks[b] == n && r.taken == h.taken
            && forall c :: c in h.live ==> c in r.blocks && r.blocks[c] == h.blocks[c]
  {
  }

  lemma TakePageLive(h: Heap, pg: nat)
    requires pg * PER_PAGE !in h.blocks && h.live <= h.blocks.Keys
    ensures var r := TakePage(h, pg);
            && r.live == h.live && h.taken <= r.taken && r.blocks[pg * PER_PAGE] == PER_PAGE
            && forall c :: c in h.live ==> c in r.blocks && r.blocks[c] == h.blocks[c]
  {
  }

  /** Adding a new page to the last free list. */
  lemma PageListed(free: seq<seq<nat>>, h: Heap, pg: nat)
    requires ListsOk(free, h) && pg * PER_PAGE !in h.blocks && h.live <= h.blocks.Keys
    ensures ListsOk(free[PER_PAGE - 1 := [pg * PER_PAGE] + free[PER_PAGE - 1]], TakePage(h, pg))
  {
    var b := pg * PER_PAGE;
    var f := free[PER_PAGE - 1 := [b] + free[PER_PAGE - 1]];
    assert b !in free[PER_PAGE - 1];
    assert f[PER_PAGE - 1][0] == b;
    assert forall i, c :: 0 <= i < |f| && c in f[i] ==> c in free[i] || (i == PER_PAGE - 1 && c == b);
    assert forall i, c :: 0 <= i < |f| && c in free[i] ==> c in f[i];
  }

  lemma BlockSize(bs: Blocks, taken: set<nat>, b: nat)
    requires Tiled(bs, taken) && b in bs
    ensures 0 < bs[b] <= PER_PAGE
  {
    hide AllCovered, NoOverlap, PageOf;
  }

  /** Putting a block that was live on its free list. */
  lemma FreeListed(free: seq<seq<nat>>, h: Heap, b: nat)
    requires ListsOk(free, h) && b in h.live && b in h.blocks && 0 < h.blocks[b] <= PER_PAGE
    ensures var i := h.blocks[b] - 1; ListsOk(free[i := [b] + free[i]], h.(live := h.live - {b}))
  {
    var i := h.blocks[b] - 1;
    var f := free[i := [b] + free[i]];
    assert b !in free[i];
    assert f[i][0] == b;
    assert forall j, c :: 0 <= j < |f| && c in f[j] ==> c in free[j] || (j == i && c == b);
    assert forall j, c :: 0 <= j < |f| && c in free[j] ==> c in f[j];
  }
}
