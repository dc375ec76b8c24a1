/**
 How many disk blocks a write needs, and how many there are: which blocks of a file are missing, and which
 blocks of the disk are free (src/fs/inode.c, src/fs/cache.c).
 */
module FreeBlocks {
  import opened Words
  import opened Bitmap
  import opened InodeEntry
  import opened FileWrite

  /** The free ones among the first n blocks of the disk. */
  ghost function Free(bm: BlockData, n: nat): (bs: set<nat>)
    requires n <= BITS
  {
    set i: nat | i < n && !BitAt(bm, i)
  }

  /** The file blocks of the bytes from off up to end that have no disk block. */
  ghost function Missing(addrs: seq<U32>, off: nat, end: nat): (ks: set<nat>) {
    set k | k in Touched(off, end) && k < |addrs| && addrs[k] == 0
  }

  /** There are as many free blocks as the bytes from off up to end need. */
  ghost predicate Enough(n: nat, bm: BlockData, addrs: seq<U32>, off: nat, end: nat)
    requires n <= BITS
  {
    |Missing(addrs, off, end)| <= |Free(bm, n)|
  }

  /** The bytes from off up to pos have got their blocks, one free block for each that was missing. */
  ghost predicate Spent(n: nat, bm0: BlockData, a0: seq<U32>, bm: BlockData, a: seq<U32>, off: nat, pos: nat)
    requires n <= BITS
  {
    && |a| == |a0| && off <= pos
    && |Free(bm, n)| + |Missing(a0, off, pos)| == |Free(bm0, n)|
    && (forall k :: 0 <= k < |a| && k in Touched(off, pos) ==> a[k] != 0)
    && (forall k :: 0 <= k < |a| && k !in Touched(off, pos) ==> a[k] == a0[k])
  }

  lemma SpentNothing(n: nat, bm: BlockData, a: seq<U32>, off: nat)
    requires n <= BITS
    ensures Spent(n, bm, a, bm, a, off, off)
  {
    TouchedNone(off);
    assert Missing(a, off, off) == {};
  }

  lemma TouchedSplit(off: nat, pos: nat, end: nat)
    requires off <= pos <= end
    ensures Touched(off, end) == Touched(off, pos) + Touched(pos, end)
  {
    forall k | k in Touched(off, end) ensures k in Touched(off, pos) || k in Touched(pos, end) {
    }
  }

  /** What the second part of a range needs after the first has got its blocks. */
  lemma MissingSplit(n: nat, bm0: BlockData, a0: seq<U32>, bm: BlockData, a: seq<U32>, off: nat, pos: nat, end: nat)
    requires n <= BITS && Spent(n, bm0, a0, bm, a, off, pos) && pos <= end
    ensures |Missing(a0, off, end)| == |Missing(a0, off, pos)| + |Missing(a, pos, end)|
  {
    hide Touched, Free;
    TouchedSplit(off, pos, end);
    assert Missing(a0, off, end) == Missing(a0, off, pos) + Missing(a, pos, end);
    assert Missing(a0, off, pos) !! Missing(a, pos, end);
  }

  lemma SpentTrans(n: nat, bm0: BlockData, a0: seq<U32>, bm1: BlockData, a1: seq<U32>, bm2: BlockData, a2: seq<U32>,
                   off: nat, pos: nat, end: nat)
    requires n <= BITS && Spent(n, bm0, a0, bm1, a1, off, pos) && Spent(n, bm1, a1, bm2, a2, pos, end)
    ensures Spent(n, bm0, a0, bm2, a2, off, end)
  {
    hide Touched, Free, Missing;
    TouchedSplit(off, pos, end);
    MissingSplit(n, bm0, a0, bm1, a1, off, pos, end);
  }

  /** Whether there is enough for the whole range shows when its first part has got its blocks. */
  lemma EnoughSplit(n: nat, bm0: BlockData, a0: seq<U32>, bm: BlockData, a: seq<U32>, off: nat, pos: nat, end: nat)
    requires n <= BITS && Spent(n, bm0, a0, bm, a, off, pos) && pos <= end
    ensures Enough(n, bm0, a0, off, end) <==> Enough(n, bm, a, pos, end)
  {
    hide Touched, Free, Missing;
    MissingSplit(n, bm0, a0, bm, a, off, pos, end);
  }

  /** A longer range needs no fewer. */
  lemma EnoughPart(n: nat, bm: BlockData, a: seq<U32>, off: nat, pos: nat, end: nat)
    requires n <= BITS && off <= pos <= end && Enough(n, bm, a, off, end)
    ensures Enough(n, bm, a, off, pos)
  {
    hide Touched, Free;
    TouchedSplit(off, pos, end);
    Smaller(Missing(a, off, pos), Missing(a, off, end));
  }

  /** A range within file block k. */
  lemma OneTouched(off: nat, next: nat)
    requires off < next <= off - off % BLOCK_SIZE + BLOCK_SIZE
    ensures Touched(off, next) == {off / BLOCK_SIZE}
  {
    TouchedNone(off);
    TouchedNext(off, off, next);
  }

  lemma SpentThere(n: nat, bm: BlockData, a: seq<U32>, off: nat, next: nat)
    requires n <= BITS && off < next <= off - off % BLOCK_SIZE + BLOCK_SIZE
    requires off / BLOCK_SIZE < |a| && a[off / BLOCK_SIZE] != 0
    ensures Spent(n, bm, a, bm, a, off, next) && Enough(n, bm, a, off, next)
  {
    hide Touched, Free;
    OneTouched(off, next);
    assert Missing(a, off, next) == {};
  }

  lemma OneMissing(a: seq<U32>, off: nat, next: nat)
    requires off < next <= off - off % BLOCK_SIZE + BLOCK_SIZE && off / BLOCK_SIZE < |a| && a[off / BLOCK_SIZE] == 0
    ensures Missing(a, off, next) == {off / BLOCK_SIZE} && |Missing(a, off, next)| == 1
  {
    hide Touched;
    OneTouched(off, next);
  }

  /** Block b of the disk is taken for the file block of off. */
  lemma SpentOne(n: nat, bm: BlockData, a: seq<U32>, off: nat, next: nat, b: U32)
    requires n <= BITS && off < next <= off - off % BLOCK_SIZE + BLOCK_SIZE
    requires off / BLOCK_SIZE < |a| && a[off / BLOCK_SIZE] == 0 && 0 < b < n && !BitAt(bm, b)
    ensures Spent(n, bm, a, SetBit(bm, b, true), a[off / BLOCK_SIZE := b], off, next) && Enough(n, bm, a, off, next)
  {
    hide Touched, BitAt, SetBit;
    OneTouched(off, next);
    OneMissing(a, off, next);
    var r := SetBit(bm, b, true);
    forall i: nat | i < n ensures BitAt(r, i) <==> i == b || BitAt(bm, i) {
      SetBitReads(bm, b, true, i);
    }
    assert Free(r, n) == Free(bm, n) - {b};
  }

  lemma NotEnough(n: nat, bm: BlockData, a: seq<U32>, off: nat, next: nat)
    requires n <= BITS && off < next <= off - off % BLOCK_SIZE + BLOCK_SIZE
    requires off / BLOCK_SIZE < |a| && a[off / BLOCK_SIZE] == 0
    requires forall i: nat :: i < n ==> BitAt(bm, i)
    ensures !Enough(n, bm, a, off, next)
  {
    hide Touched, BitAt;
    OneMissing(a, off, next);
    assert Free(bm, n) == {};
  }
}
