/**
 The bitmap of used blocks (src/common/bitmap.h): 64-bit cells that overlay one disk block.
 */
module Bitmap {
  import opened Words

  const BITS := BLOCK_SIZE * 8

  /** bitmap_get. */
  predicate BitAt(b: BlockData, i: nat)
    requires i < BITS
  {
    Bit(WordAt(b, i / 64), i % 64)
  }

  lemma CellFits(w: U64, k: nat, v: bool)
    requires k < 64
    ensures PutBit(w, k, v) < U64_BOUND
  {
    Pow2SixtyFour();
    PutBitFits(w, k, v, 64);
  }

  /** bitmap_set for v, bitmap_clear otherwise. */
  function SetBit(b: BlockData, i: nat, v: bool): (r: BlockData)
    requires i < BITS
  {
    CellFits(WordAt(b, i / 64), i % 64, v);
    PutWord(b, i / 64, PutBit(WordAt(b, i / 64), i % 64, v))
  }

  /** Setting or clearing one bit changes that bit and no other. */
  lemma SetBitReads(b: BlockData, i: nat, v: bool, j: nat)
    requires i < BITS && j < BITS
    ensures BitAt(SetBit(b, i, v), j) == if j == i then v else BitAt(b, j)
  {
    var w := WordAt(b, i / 64);
    CellFits(w, i % 64, v);
    hide Bit, PutBit, WordAt, PutWord;
    PutWordReads(b, i / 64, PutBit(w, i % 64, v), j / 64);
    PutBitReads(w, i % 64, v, j % 64);
  }
}
