/**
 Little-endian 64-bit words inside a 512-byte disk block, and the single bits of a word.
 The log header (src/fs/defines.h) and the bitmap cells (src/common/bitmap.h) are both
 arrays of 64-bit words that overlay the bytes of one block.
 */
module Words {

  const BLOCK_SIZE := 512
  const WORDS_PER_BLOCK := 64
  const U64_BOUND := 0x1_0000_0000_0000_0000

  type Byte = x: int | 0 <= x < 256
  type U64 = x: int | 0 <= x < U64_BOUND

  /** The contents of one disk block. */
  type BlockData = s: seq<Byte> | |s| == BLOCK_SIZE witness seq(BLOCK_SIZE, i => 0)

  /** The 64 words that overlay one block. */
  type WordArray = s: seq<U64> | |s| == WORDS_PER_BLOCK witness seq(WORDS_PER_BLOCK, i => 0)

  function Zeros(n: nat): (s: seq<Byte>)
    ensures |s| == n && forall i :: 0 <= i < n ==> s[i] == 0
  {
    seq(n, i => 0)
  }

  function Pow256(k: nat): (p: nat)
    ensures p >= 1
  {
    if k == 0 then 1 else 256 * Pow256(k - 1)
  }

  /** The k little-endian bytes of w. */
  function ToBytes(w: nat, k: nat): (s: seq<Byte>)
    ensures |s| == k
  {
    if k == 0 then [] else [w % 256] + ToBytes(w / 256, k - 1)
  }

  /** The number whose little-endian bytes are s. */
  function FromBytes(s: seq<Byte>): (w: nat)
  {
    if s == [] then 0 else s[0] + 256 * FromBytes(s[1..])
  }

  lemma {:induction false} BytesOfNumber(w: nat, k: nat)
    requires w < Pow256(k)
    ensures FromBytes(ToBytes(w, k)) == w
  {
    if k > 0 {
      BytesOfNumber(w / 256, k - 1);
      assert ToBytes(w, k)[1..] == ToBytes(w / 256, k - 1);
    }
  }

  lemma {:induction false} NumberOfBytes(s: seq<Byte>)
    ensures FromBytes(s) < Pow256(|s|)
    ensures ToBytes(FromBytes(s), |s|) == s
  {
    if s != [] {
      NumberOfBytes(s[1..]);
      assert FromBytes(s) % 256 == s[0] && FromBytes(s) / 256 == FromBytes(s[1..]);
    }
  }

  lemma Pow256Eight()
    ensures Pow256(8) == U64_BOUND
  {
    assert Pow256(4) == 0x1_0000_0000;
    assert Pow256(8) == 256 * (256 * (256 * (256 * Pow256(4))));
  }

  /** The word at index j of the block. */
  function WordAt(b: BlockData, j: nat): (w: U64)
    requires j < WORDS_PER_BLOCK
  {
    NumberOfBytes(b[8 * j..8 * j + 8]);
    Pow256Eight();
    FromBytes(b[8 * j..8 * j + 8])
  }

  /** The block whose word j is w and whose other bytes are those of b. */
  function PutWord(b: BlockData, j: nat, w: U64): (r: BlockData)
    requires j < WORDS_PER_BLOCK
  {
    b[..8 * j] + ToBytes(w, 8) + b[8 * j + 8..]
  }

  lemma PutWordReads(b: BlockData, j: nat, w: U64, k: nat)
    requires j < WORDS_PER_BLOCK && k < WORDS_PER_BLOCK
    ensures WordAt(PutWord(b, j, w), k) == if k == j then w else WordAt(b, k)
  {
    var r := PutWord(b, j, w);
    if k == j {
      assert r[8 * k..8 * k + 8] == ToBytes(w, 8);
      Pow256Eight();
      BytesOfNumber(w, 8);
    } else {
      assert r[8 * k..8 * k + 8] == b[8 * k..8 * k + 8];
    }
  }

  /** The first n words of the block. */
  function DecodeUpTo(b: BlockData, n: nat): (ws: seq<U64>)
    requires n <= WORDS_PER_BLOCK
    ensures |ws| == n
    ensures forall k {:trigger ws[k]} :: 0 <= k < n ==> ws[k] == WordAt(b, k)
  {
    if n == 0 then [] else DecodeUpTo(b, n - 1) + [WordAt(b, n - 1)]
  }

  /** All the words of the block. */
  function Decode(b: BlockData): (ws: WordArray)
  {
    DecodeUpTo(b, |b| / 8)
  }

  /** The block with the first n words of ws in place, zero after them. */
  function EncodeUpTo(ws: WordArray, n: nat): (b: BlockData)
    requires n <= WORDS_PER_BLOCK
  {
    if n == 0 then Zeros(BLOCK_SIZE) else PutWord(EncodeUpTo(ws, n - 1), n - 1, ws[n - 1])
  }

  function Encode(ws: WordArray): (b: BlockData)
  {
    EncodeUpTo(ws, |ws|)
  }

  lemma {:induction false} EncodeUpToReads(ws: WordArray, n: nat, k: nat)
    requires n <= WORDS_PER_BLOCK && k < n
    ensures WordAt(EncodeUpTo(ws, n), k) == ws[k]
  {
    PutWordReads(EncodeUpTo(ws, n - 1), n - 1, ws[n - 1], k);
    if k < n - 1 {
      EncodeUpToReads(ws, n - 1, k);
    }
  }

  /** Writing words to a block and reading the block back gives the same words. */
  lemma DecodeEncode(ws: WordArray)
    ensures Decode(Encode(ws)) == ws
  {
    forall k | 0 <= k < WORDS_PER_BLOCK
      ensures Decode(Encode(ws))[k] == ws[k]
    {
      EncodeUpToReads(ws, WORDS_PER_BLOCK, k);
    }
  }

  // ----- bits of a word

  /** Bit k of w: (w >> k) & 1. */
  predicate Bit(w: nat, k: nat)
  {
    if k == 0 then w % 2 == 1 else Bit(w / 2, k - 1)
  }

  /** w with bit k forced to v: w | (1 << k), or w & ~(1 << k). */
  function PutBit(w: nat, k: nat, v: bool): (r: nat)
  {
    if k == 0 then w - w % 2 + (if v then 1 else 0)
    else 2 * PutBit(w / 2, k - 1, v) + w % 2
  }

  lemma {:induction false} PutBitReads(w: nat, k: nat, v: bool, j: nat)
    ensures Bit(PutBit(w, k, v), j) == if j == k then v else Bit(w, j)
  {
    var r := PutBit(w, k, v);
    if k > 0 {
      assert r / 2 == PutBit(w / 2, k - 1, v) && r % 2 == w % 2;
      if j > 0 {
        PutBitReads(w / 2, k - 1, v, j - 1);
      }
    } else {
      assert r / 2 == w / 2;
    }
  }

  function Pow2(k: nat): (p: nat)
    ensures p >= 1
  {
    if k == 0 then 1 else 2 * Pow2(k - 1)
  }

  lemma HalfFits(w: nat, p: nat)
    requires w < 2 * p
    ensures w / 2 < p && w - w % 2 + 1 < 2 * p
  {
  }

  /** A bit below the width of the word leaves the word inside that width. */
  lemma {:induction false} PutBitFits(w: nat, k: nat, v: bool, n: nat)
    requires w < Pow2(n) && k < n
    ensures PutBit(w, k, v) < Pow2(n)
  {
    var p := Pow2(n - 1);
    assert Pow2(n) == 2 * p;
    HalfFits(w, p);
    if k > 0 {
      PutBitFits(w / 2, k - 1, v, n - 1);
    }
  }

  lemma Pow2SixtyFour()
    ensures Pow2(64) == U64_BOUND
  {
    assert Pow2(8) == 256;
    assert Pow2(16) == 256 * Pow2(8) by { Pow2Split(8, 8); }
    assert Pow2(32) == 65536 * 65536 by { Pow2Split(16, 16); }
    Pow2Split(32, 32);
  }

  lemma {:induction false} Pow2Split(a: nat, b: nat)
    ensures Pow2(a + b) == Pow2(a) * Pow2(b)
  {
    if a > 0 {
      Pow2Split(a - 1, b);
      assert Pow2(a) * Pow2(b) == 2 * (Pow2(a - 1) * Pow2(b));
    }
  }
}
