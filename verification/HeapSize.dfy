/**
 The arithmetic of sbrk (src/kernel/paging.c): its argument is a 64-bit number of pages, the ASSERT multiplies it
 as an unsigned one, and the loop over the pages that are given up computes addresses with 32-bit products.
 */
module HeapSize {
  import opened Words
  import opened Frames
  import opened PageTable

  /** So many pages can be given up at a time. */
  const MAX_SHRINK := 0x8_0000

  /** The address space of a process. */
  const USER_END := FRAMES * PAGE_SIZE

  const I32_VALUES := 0x1_0000_0000

  /** A 32-bit signed product, as two's complement. */
  function Wrap32(n: int): (r: int) {
    var m := n % I32_VALUES;
    if m < I32_VALUES / 2 then m else m - I32_VALUES
  }

  /** (u64)(-size) * PAGE_SIZE for n = -size. */
  function Product(n: nat): (r: nat) { n * PAGE_SIZE % U64_BOUND }

  lemma ProductWraps(n: nat)
    ensures Product(n) == n % 0x10_0000_0000_0000 * PAGE_SIZE
  {
    var q, r := n / 0x10_0000_0000_0000, n % 0x10_0000_0000_0000;
    assert n * PAGE_SIZE == q * U64_BOUND + r * PAGE_SIZE;
  }

  /** The ASSERT of sbrk says that the heap, of len bytes, is large enough to give up n pages, exactly for the n
      whose product does not wrap round, and for those whose wrapped product is too large for the heap all the
      same. */
  lemma GuardExact(len: nat, n: nat)
    requires len < U64_BOUND
    ensures ((Product(n) <= len) <==> n * PAGE_SIZE <= len) <==>
              n < 0x10_0000_0000_0000 || len < n % 0x10_0000_0000_0000 * PAGE_SIZE
  {
    ProductWraps(n);
  }

  /** 2^52 pages can be given up by any heap. */
  lemma GuardWraps(len: nat)
    ensures Product(0x10_0000_0000_0000) <= len
  {
    ProductWraps(0x10_0000_0000_0000);
  }

  /** The page that round i of the loop looks up, from the new end of the heap. */
  function Visited(end: nat, i: nat): (v: nat) { PageNumber((end + Wrap32(i * PAGE_SIZE)) % U64_BOUND) }

  /** Products wrap round every 2^20 pages. */
  lemma WrapPages(i: nat)
    ensures var w := i % 0x10_0000;
            Wrap32(i * PAGE_SIZE) == (if w < MAX_SHRINK then w else w - 0x10_0000) * PAGE_SIZE
  {
    var q, w := i / 0x10_0000, i % 0x10_0000;
    assert i * PAGE_SIZE == q * I32_VALUES + w * PAGE_SIZE;
  }

  lemma PageOfAddress(e: nat, w: int)
    requires e < FRAMES && -MAX_SHRINK <= w < MAX_SHRINK
    ensures PageNumber((e * PAGE_SIZE + w * PAGE_SIZE) % U64_BOUND) == (e + w) % FRAMES
  {
    var a := (e + w) * PAGE_SIZE;
    if e + w >= 0 {
      assert a % U64_BOUND == a && a / PAGE_SIZE == e + w;
    } else {
      assert a % U64_BOUND == a + U64_BOUND;
      assert (a + U64_BOUND) / PAGE_SIZE == e + w + 0x10_0000_0000_0000;
      assert e + w + 0x10_0000_0000_0000 == (e + w + FRAMES) + 0xFFFF * FRAMES;
    }
  }

  /** The first 2^19 rounds look up the pages in order. */
  lemma VisitedInOrder(e: nat, i: nat)
    requires i < MAX_SHRINK && e + i < FRAMES
    ensures Visited(e * PAGE_SIZE, i) == e + i
  {
    hide PageNumber;
    WrapPages(i);
    PageOfAddress(e, i);
  }

  /** No round ever looks up the next page. */
  lemma NeverVisited(e: nat, i: nat)
    requires e + MAX_SHRINK < FRAMES
    ensures Visited(e * PAGE_SIZE, i) != e + MAX_SHRINK
  {
    hide PageNumber;
    WrapPages(i);
    var w := i % 0x10_0000;
    var k := if w < MAX_SHRINK then w else w - 0x10_0000;
    PageOfAddress(e, k);
    NotThere(e, k);
  }

  lemma NotThere(e: nat, k: int)
    requires e + MAX_SHRINK < FRAMES && -MAX_SHRINK <= k < MAX_SHRINK
    ensures (e + k) % FRAMES != e + MAX_SHRINK
  {
  }

  ghost function VisitedPages(e: nat, n: nat): (vs: set<nat>) {
    set i: nat | i < n :: Visited(e * PAGE_SIZE, i)
  }

  /** The pages from a up to b. */
  ghost predicate PagesFrom(vs: set<nat>, a: nat, b: nat) {
    (forall v :: v in vs ==> a <= v < b) && (forall v :: a <= v < b ==> v in vs)
  }

  /** The loop looks up exactly the n pages that are given up if and only if there are at most 2^19 of them. */
  lemma ShrinkExact(e: nat, n: nat)
    requires e + n <= FRAMES
    ensures PagesFrom(VisitedPages(e, n), e, e + n) <==> n <= MAX_SHRINK
  {
    if n <= MAX_SHRINK {
      hide Visited;
      forall i: nat | i < n ensures Visited(e * PAGE_SIZE, i) == e + i {
        VisitedInOrder(e, i);
      }
      forall v | e <= v < e + n ensures v in VisitedPages(e, n) {
        assert Visited(e * PAGE_SIZE, v - e) == v;
      }
    } else {
      hide Visited;
      forall i: nat | i < n ensures Visited(e * PAGE_SIZE, i) != e + MAX_SHRINK {
        NeverVisited(e, i);
      }
      assert e + MAX_SHRINK !in VisitedPages(e, n);
    }
  }
}
