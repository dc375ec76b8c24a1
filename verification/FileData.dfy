/**
 Contents of files within their direct blocks (src/fs/inode.c, with cache_alloc of src/fs/cache.c). A block
 here is what cache_acquire returns and cache_sync changes; that these two agree is shown in module
 BlockCache (ReadOut and Update).
 */
module FileData {
  import opened Basics
  import opened Words
  import opened Disk
  import opened Bitmap
  import opened InodeEntry
  import opened FreeBlocks

  const DIRECT_BYTES := INODE_NUM_DIRECT * BLOCK_SIZE

  type Inodes = map<nat, Entry>

  // ----- what is where

  /** to_block_no. */
  function InodeBlock(sb: SuperBlock, n: nat): (b: nat) { sb.inodeStart + n / INODE_PER_BLOCK }

  /** The block numbers in an entry: the direct ones, then the indirect block. */
  function Addr(e: Entry, k: nat): (a: nat)
    requires k <= INODE_NUM_DIRECT
  {
    if k < |e.addrs| then e.addrs[k] else e.indirect
  }

  /** a is 0, or a block of the data area that is marked as used. */
  predicate Placed(sb: SuperBlock, bm: BlockData, a: nat) {
    a == 0 || (sb.bitmapStart < a < sb.numBlocks && a < BITS && BitAt(bm, a))
  }

  predicate Layout(sb: SuperBlock, blocks: Image) {
    && sb.bitmapStart < sb.numBlocks == |blocks| && sb.numBlocks <= BITS
    && sb.numInodes / 8 + sb.inodeStart < sb.bitmapStart
  }

  ghost predicate MetaUsed(sb: SuperBlock, bm: BlockData) {
    forall i: nat :: i <= sb.bitmapStart && i < BITS ==> BitAt(bm, i)
  }

  ghost predicate AddrsUsed(sb: SuperBlock, bm: BlockData, inodes: Inodes) {
    forall n, k: nat :: n in inodes && k <= INODE_NUM_DIRECT ==> Placed(sb, bm, Addr(inodes[n], k))
  }

  /** No block belongs to two files, or to one twice. */
  ghost predicate AddrsApart(inodes: Inodes) {
    forall n, m, j: nat, k: nat ::
      n in inodes && m in inodes && k <= INODE_NUM_DIRECT && j <= INODE_NUM_DIRECT && (n != m || k != j) ==>
        Addr(inodes[n], k) == 0 || Addr(inodes[n], k) != Addr(inodes[m], j)
  }

  /** The inodes on disk are those in memory. */
  ghost predicate Stored(sb: SuperBlock, blocks: Image, inodes: Inodes)
    requires Layout(sb, blocks)
  {
    forall n :: n in inodes ==>
      n < sb.numInodes && inodes[n].Valid() && InodeBlock(sb, n) < sb.bitmapStart
      && EntryAt(blocks[InodeBlock(sb, n)], n % INODE_PER_BLOCK) == inodes[n]
  }

  ghost predicate FsOk(sb: SuperBlock, blocks: Image, inodes: Inodes) {
    && Layout(sb, blocks)
    && var bm := blocks[sb.bitmapStart];
    && MetaUsed(sb, bm) && AddrsUsed(sb, bm, inodes) && AddrsApart(inodes) && Stored(sb, blocks, inodes)
  }

  // ----- allocation

  /** The blocks of all files are as they were. */
  ghost predicate DataSame(blocks: Image, inodes: Inodes, r: Image) {
    && |r| == |blocks|
    && forall n, k: nat :: n in inodes && k <= INODE_NUM_DIRECT && 0 < Addr(inodes[n], k) < |r| ==>
         r[Addr(inodes[n], k)] == blocks[Addr(inodes[n], k)]
  }

  /** Block i, marked as used and cleared. */
  function Allocated(sb: SuperBlock, blocks: Image, i: nat): (r: Image)
    requires Layout(sb, blocks) && i < |blocks|
  {
    blocks[sb.bitmapStart := SetBit(blocks[sb.bitmapStart], i, true)][i := Zeros(BLOCK_SIZE)]
  }

  /** A block whose bit is clear belongs to no file. */
  lemma ClearIsFree(sb: SuperBlock, blocks: Image, inodes: Inodes, i: nat)
    requires FsOk(sb, blocks, inodes) && i < |blocks| && !BitAt(blocks[sb.bitmapStart], i)
    ensures i > sb.bitmapStart
    ensures forall n, k: nat :: n in inodes && k <= INODE_NUM_DIRECT ==> Addr(inodes[n], k) != i
  {
    hide BitAt, AddrsApart, Stored;
    forall n, k: nat | n in inodes && k <= INODE_NUM_DIRECT ensures Addr(inodes[n], k) != i {
      assert Placed(sb, blocks[sb.bitmapStart], Addr(inodes[n], k));
    }
  }

  lemma MarkedUsed(sb: SuperBlock, bm: BlockData, inodes: Inodes, i: nat)
    requires MetaUsed(sb, bm) && AddrsUsed(sb, bm, inodes) && i < BITS
    ensures MetaUsed(sb, SetBit(bm, i, true)) && AddrsUsed(sb, SetBit(bm, i, true), inodes)
  {
    hide BitAt, SetBit;
    var r := SetBit(bm, i, true);
    forall j: nat | j < BITS ensures BitAt(bm, j) ==> BitAt(r, j) {
      SetBitReads(bm, i, true, j);
    }
    forall n, k: nat | n in inodes && k <= INODE_NUM_DIRECT ensures Placed(sb, r, Addr(inodes[n], k)) {
      assert Placed(sb, bm, Addr(inodes[n], k));
    }
  }

  lemma AllocatedOk(sb: SuperBlock, blocks: Image, inodes: Inodes, i: nat)
    requires FsOk(sb, blocks, inodes) && i < |blocks| && !BitAt(blocks[sb.bitmapStart], i)
    ensures FsOk(sb, Allocated(sb, blocks, i), inodes) && DataSame(blocks, inodes, Allocated(sb, blocks, i))
    ensures Placed(sb, Allocated(sb, blocks, i)[sb.bitmapStart], i) && i > sb.bitmapStart
  {
    ClearIsFree(sb, blocks, inodes, i);
    hide BitAt, SetBit, AddrsApart;
    var bm := blocks[sb.bitmapStart];
    MarkedUsed(sb, bm, inodes, i);
    SetBitReads(bm, i, true, i);
    hide MetaUsed, AddrsUsed;
    AllocatedData(sb, blocks, inodes, i);
  }

  lemma AllocatedData(sb: SuperBlock, blocks: Image, inodes: Inodes, i: nat)
    requires Layout(sb, blocks) && AddrsUsed(sb, blocks[sb.bitmapStart], inodes) && sb.bitmapStart < i < |blocks|
    requires forall n, k: nat :: n in inodes && k <= INODE_NUM_DIRECT ==> Addr(inodes[n], k) != i
    ensures DataSame(blocks, inodes, Allocated(sb, blocks, i))
  {
    hide BitAt, SetBit;
    forall n, k: nat | n in inodes && k <= INODE_NUM_DIRECT && Addr(inodes[n], k) != 0
      ensures Addr(inodes[n], k) != sb.bitmapStart
    {
      assert Placed(sb, blocks[sb.bitmapStart], Addr(inodes[n], k));
    }
  }

  // ----- inodes to disk

  /** inode_sync of entry e of inode n. */
  function Synced(sb: SuperBlock, blocks: Image, n: nat, e: Entry): (r: Image)
    requires InodeBlock(sb, n) < |blocks| && e.Valid()
  {
    var b := InodeBlock(sb, n);
    blocks[b := PutEntry(blocks[b], n % INODE_PER_BLOCK, e)]
  }

  lemma SyncedStored(sb: SuperBlock, blocks: Image, inodes: Inodes, n: nat, e: Entry)
    requires Layout(sb, blocks) && Stored(sb, blocks, inodes) && n in inodes && e.Valid()
    ensures InodeBlock(sb, n) < sb.bitmapStart && Stored(sb, Synced(sb, blocks, n, e), inodes[n := e])
  {
    hide EntryAt, PutEntry;
    var r := Synced(sb, blocks, n, e);
    forall m | m in inodes[n := e]
      ensures EntryAt(r[InodeBlock(sb, m)], m % INODE_PER_BLOCK) == inodes[n := e][m]
    {
      assert m in inodes;
      if InodeBlock(sb, m) == InodeBlock(sb, n) {
        PutEntryReads(blocks[InodeBlock(sb, n)], n % INODE_PER_BLOCK, e, m % INODE_PER_BLOCK);
      }
    }
  }

  /** The new entry of n reaches the disk, and no other entry and no block of a file changes. */
  lemma SyncedOk(sb: SuperBlock, blocks: Image, inodes: Inodes, n: nat, e: Entry)
    requires FsOk(sb, blocks, inodes) && n in inodes && e.Valid()
    requires AddrsApart(inodes[n := e]) && AddrsUsed(sb, blocks[sb.bitmapStart], inodes[n := e])
    ensures InodeBlock(sb, n) < sb.bitmapStart && FsOk(sb, Synced(sb, blocks, n, e), inodes[n := e])
    ensures DataSame(blocks, inodes[n := e], Synced(sb, blocks, n, e))
  {
    hide BitAt, PutEntry, AddrsApart, MetaUsed, EntryAt;
    SyncedStored(sb, blocks, inodes, n, e);
    hide Stored;
    var q := inodes[n := e];
    forall m, k: nat | m in q && k <= INODE_NUM_DIRECT && Addr(q[m], k) != 0 ensures Addr(q[m], k) > sb.bitmapStart {
      assert Placed(sb, blocks[sb.bitmapStart], Addr(q[m], k));
    }
  }

  /** The entry with disk block a for its file block k. */
  function WithAddr(e: Entry, k: nat, a: U32): (r: Entry)
    requires e.Valid() && k < INODE_NUM_DIRECT
  {
    e.(addrs := e.addrs[k := a])
  }

  lemma WithAddrApart(sb: SuperBlock, bm: BlockData, inodes: Inodes, n: nat, k: nat, a: U32)
    requires AddrsApart(inodes) && AddrsUsed(sb, bm, inodes) && n in inodes && inodes[n].Valid() && k < INODE_NUM_DIRECT
    requires Placed(sb, bm, a) && forall m, j: nat :: m in inodes && j <= INODE_NUM_DIRECT ==> Addr(inodes[m], j) != a
    ensures AddrsApart(inodes[n := WithAddr(inodes[n], k, a)])
    ensures AddrsUsed(sb, bm, inodes[n := WithAddr(inodes[n], k, a)])
  {
    hide BitAt;
    var e := WithAddr(inodes[n], k, a);
    var r := inodes[n := e];
    assert forall m, j: nat :: m in r && j <= INODE_NUM_DIRECT && !(m == n && j == k) ==>
      Addr(r[m], j) == Addr(inodes[m], j);
    assert Addr(r[n], k) == a;
  }

  // ----- contents

  /** Byte i of the file with entry e. */
  function ByteAt(blocks: Image, e: Entry, i: nat): (x: Byte)
  {
    var k := i / BLOCK_SIZE;
    if k < |e.addrs| && e.addrs[k] < |blocks| then blocks[e.addrs[k]][i % BLOCK_SIZE] else 0
  }

  /** Every block of the file is there. */
  ghost predicate Filled(e: Entry) {
    e.numBytes <= DIRECT_BYTES && forall k :: 0 <= k < |e.addrs| && k * BLOCK_SIZE < e.numBytes ==> e.addrs[k] != 0
  }

  /** The bytes of the file with entry e. */
  function Contents(blocks: Image, e: Entry): (c: seq<Byte>)
    ensures |c| == e.numBytes && forall i :: 0 <= i < |c| ==> c[i] == ByteAt(blocks, e, i)
  {
    seq(e.numBytes, i requires 0 <= i < e.numBytes => ByteAt(blocks, e, i))
  }

  /** src in place of the bytes of c from off on, longer than c if need be. */
  function Overwrite(c: seq<Byte>, off: nat, src: seq<Byte>): (r: seq<Byte>)
    requires off <= |c|
  {
    c[..off] + src + if off + |src| < |c| then c[off + |src|..] else []
  }

  /** Between the rounds of inode_write: of src, to be written at off to the file that had the entry e0, the
      part before position pos has been written. */
  ghost predicate Progress(blocks0: Image, e0: Entry, off: nat, src: seq<Byte>, blocks: Image, e: Entry, pos: nat) {
    && e.Valid() && e0.Valid() && off <= pos <= off + |src| <= DIRECT_BYTES
    && e == e0.(addrs := e.addrs, numBytes := e.numBytes)
    && e.numBytes == (if off + |src| > e0.numBytes then off + |src| else e0.numBytes)
    && (forall k :: 0 <= k < INODE_NUM_DIRECT && e0.addrs[k] != 0 ==> e.addrs[k] == e0.addrs[k])
    && (forall k :: 0 <= k < INODE_NUM_DIRECT && (k * BLOCK_SIZE < pos || k * BLOCK_SIZE < e0.numBytes) ==>
          e.addrs[k] != 0)
    && (forall i :: 0 <= i && (i < pos || i < e0.numBytes) ==>
          ByteAt(blocks, e, i) == if off <= i < pos then src[i - off] else ByteAt(blocks0, e0, i))
  }

  /** When all of src has been written. */
  lemma ProgressEnd(blocks0: Image, e0: Entry, off: nat, src: seq<Byte>, blocks: Image, e: Entry)
    requires Progress(blocks0, e0, off, src, blocks, e, off + |src|) && off <= e0.numBytes && Filled(e0)
    ensures Filled(e) && Contents(blocks, e) == Overwrite(Contents(blocks0, e0), off, src)
  {
    hide ByteAt;
    var c, d := Contents(blocks, e), Overwrite(Contents(blocks0, e0), off, src);
    assert |c| == |d|;
    forall i | 0 <= i < |c| ensures c[i] == d[i] {
    }
  }

  /** A file block without a disk block gets a new one. */
  lemma ProgressMap(blocks0: Image, e0: Entry, off: nat, src: seq<Byte>, blocks: Image, inodes: Inodes, n: nat,
                    pos: nat, r: Image, k: nat, a: U32)
    requires n in inodes && Progress(blocks0, e0, off, src, blocks, inodes[n], pos) && pos < off + |src|
    requires DataSame(blocks, inodes, r) && off <= e0.numBytes && Filled(e0)
    requires k == pos / BLOCK_SIZE && k < INODE_NUM_DIRECT && inodes[n].addrs[k] == 0 && a != 0
    ensures Progress(blocks0, e0, off, src, r, WithAddr(inodes[n], k, a), pos)
  {
    var e, f := inodes[n], WithAddr(inodes[n], k, a);
    forall i | 0 <= i && (i < pos || i < e0.numBytes) ensures ByteAt(r, f, i) == ByteAt(blocks, e, i) {
      var j := i / BLOCK_SIZE;
      assert j * BLOCK_SIZE <= i;
      assert e.addrs[j] != 0;
      assert Addr(e, j) == e.addrs[j];
    }
    hide ByteAt;
  }

  /** The block with bytes from at on replaced. */
  function Patch(b: BlockData, at: nat, bytes: seq<Byte>): (r: BlockData)
    requires at + |bytes| <= BLOCK_SIZE
  {
    b[..at] + bytes + b[at + |bytes|..]
  }

  /** The next piece of src goes into the block of file block k. */
  lemma ProgressPatch(blocks0: Image, e0: Entry, off: nat, src: seq<Byte>, blocks: Image, inodes: Inodes, n: nat,
                      pos: nat, next: nat)
    requires n in inodes && Progress(blocks0, e0, off, src, blocks, inodes[n], pos) && AddrsApart(inodes)
    requires pos < next <= off + |src| && next <= pos - pos % BLOCK_SIZE + BLOCK_SIZE
    requires off <= e0.numBytes && Filled(e0)
    requires pos / BLOCK_SIZE < INODE_NUM_DIRECT && 0 < inodes[n].addrs[pos / BLOCK_SIZE] < |blocks|
    ensures var a := inodes[n].addrs[pos / BLOCK_SIZE];
            var b := Patch(blocks[a], pos % BLOCK_SIZE, src[pos - off..next - off]);
            Progress(blocks0, e0, off, src, blocks[a := b], inodes[n], next)
  {
    var e := inodes[n];
    var k := pos / BLOCK_SIZE;
    var a := e.addrs[k];
    var b := Patch(blocks[a], pos % BLOCK_SIZE, src[pos - off..next - off]);
    var r := blocks[a := b];
    forall i | 0 <= i && (i < next || i < e0.numBytes)
      ensures ByteAt(r, e, i) == if pos <= i < next then src[i - off] else ByteAt(blocks, e, i)
    {
      PatchByte(blocks, inodes, n, pos, next, src[pos - off..next - off], i);
    }
    hide ByteAt, Patch, AddrsApart;
  }

  lemma PatchByte(blocks: Image, inodes: Inodes, n: nat, pos: nat, next: nat, bytes: seq<Byte>, i: nat)
    requires n in inodes && inodes[n].Valid() && AddrsApart(inodes)
    requires pos < next <= pos - pos % BLOCK_SIZE + BLOCK_SIZE && |bytes| == next - pos
    requires i / BLOCK_SIZE < INODE_NUM_DIRECT
    requires pos / BLOCK_SIZE < INODE_NUM_DIRECT && 0 < inodes[n].addrs[pos / BLOCK_SIZE] < |blocks|
    ensures var a := inodes[n].addrs[pos / BLOCK_SIZE];
            ByteAt(blocks[a := Patch(blocks[a], pos % BLOCK_SIZE, bytes)], inodes[n], i)
              == if pos <= i < next then bytes[i - pos] else ByteAt(blocks, inodes[n], i)
  {
    var e := inodes[n];
    var k, j := pos / BLOCK_SIZE, i / BLOCK_SIZE;
    assert Addr(e, k) == e.addrs[k] && Addr(e, j) == e.addrs[j];
    if j == k {
      assert i - pos == i % BLOCK_SIZE - pos % BLOCK_SIZE;
    } else {
      assert e.addrs[j] != e.addrs[k];
      assert !(pos <= i < next);
    }
  }

  // ----- the operations

  /** No block is free. */
  ghost predicate Full(sb: SuperBlock, blocks: Image) {
    Layout(sb, blocks) && forall i: nat :: i < |blocks| ==> BitAt(blocks[sb.bitmapStart], i)
  }

  /** There are enough free blocks for what the bytes of the file from off up to end need. */
  ghost predicate Suffices(sb: SuperBlock, blocks: Image, e: Entry, off: nat, end: nat) {
    Layout(sb, blocks) && Enough(sb.numBlocks, blocks[sb.bitmapStart], e.addrs, off, end)
  }

  /** The bytes from off up to pos have got blocks, and no other block has been taken. */
  ghost predicate Provided(sb: SuperBlock, blocks0: Image, e0: Entry, blocks: Image, e: Entry, off: nat, pos: nat) {
    && Layout(sb, blocks0) && Layout(sb, blocks)
    && Spent(sb.numBlocks, blocks0[sb.bitmapStart], e0.addrs, blocks[sb.bitmapStart], e.addrs, off, pos)
  }

  lemma ProvidedTrans(sb: SuperBlock, b0: Image, e0: Entry, b1: Image, e1: Entry, b2: Image, e2: Entry, off: nat,
                      pos: nat, end: nat)
    requires Provided(sb, b0, e0, b1, e1, off, pos) && Provided(sb, b1, e1, b2, e2, pos, end)
    ensures Provided(sb, b0, e0, b2, e2, off, end)
  {
    hide Spent;
    var m := sb.bitmapStart;
    SpentTrans(sb.numBlocks, b0[m], e0.addrs, b1[m], e1.addrs, b2[m], e2.addrs, off, pos, end);
  }

  /** A write that has got as far as pos: whether there is enough shows from there on. */
  lemma SufficesSplit(sb: SuperBlock, b0: Image, e0: Entry, b: Image, e: Entry, off: nat, pos: nat, end: nat)
    requires Provided(sb, b0, e0, b, e, off, pos) && pos <= end
    ensures Suffices(sb, b0, e0, off, end) <==> Suffices(sb, b, e, pos, end)
  {
    hide Spent, Enough;
    var m := sb.bitmapStart;
    EnoughSplit(sb.numBlocks, b0[m], e0.addrs, b[m], e.addrs, off, pos, end);
  }

  lemma SufficesPart(sb: SuperBlock, b: Image, e: Entry, off: nat, pos: nat, end: nat)
    requires off <= pos <= end && Suffices(sb, b, e, off, end)
    ensures Suffices(sb, b, e, off, pos)
  {
    hide Enough;
    EnoughPart(sb.numBlocks, b[sb.bitmapStart], e.addrs, off, pos, end);
  }

  lemma ProvidedNothing(sb: SuperBlock, b: Image, e: Entry, off: nat)
    requires Layout(sb, b)
    ensures Provided(sb, b, e, b, e, off, off)
  {
    SpentNothing(sb.numBlocks, b[sb.bitmapStart], e.addrs, off);
  }

  lemma ProvidedSuffices(sb: SuperBlock, b0: Image, e0: Entry, b: Image, e: Entry, off: nat, pos: nat)
    requires Provided(sb, b0, e0, b, e, off, pos)
    ensures Suffices(sb, b0, e0, off, pos)
  {
    hide Free, Missing;
  }

  /** inode_map has found or made the block a for the bytes from pos up to next. */
  lemma MapProvides(sb: SuperBlock, b0: Image, e0: Entry, b: Image, pos: nat, next: nat, a: U32)
    requires Layout(sb, b0) && Layout(sb, b) && pos < next <= pos - pos % BLOCK_SIZE + BLOCK_SIZE
    requires e0.Valid() && pos / BLOCK_SIZE < INODE_NUM_DIRECT && MapsTo(sb, b0, e0, pos / BLOCK_SIZE, b, a)
    ensures Provided(sb, b0, e0, b, WithAddr(e0, pos / BLOCK_SIZE, a), pos, next)
  {
    hide BitAt, SetBit, Spent, Enough;
    var k, bm := pos / BLOCK_SIZE, b0[sb.bitmapStart];
    if e0.addrs[k] != 0 {
      assert e0.addrs[k := a] == e0.addrs;
      SpentThere(sb.numBlocks, bm, e0.addrs, pos, next);
    } else {
      SpentOne(sb.numBlocks, bm, e0.addrs, pos, next, a);
    }
  }

  lemma MapFails(sb: SuperBlock, b: Image, e: Entry, pos: nat, next: nat)
    requires Full(sb, b) && pos < next <= pos - pos % BLOCK_SIZE + BLOCK_SIZE
    requires e.Valid() && pos / BLOCK_SIZE < INODE_NUM_DIRECT && e.addrs[pos / BLOCK_SIZE] == 0
    ensures !Suffices(sb, b, e, pos, next)
  {
    hide BitAt, Enough;
    NotEnough(sb.numBlocks, b[sb.bitmapStart], e.addrs, pos, next);
  }

  /** What inode_map does to the bitmap: nothing if file block k has the disk block a, or else one clear bit
      is set, that of a. */
  ghost predicate MapsTo(sb: SuperBlock, b0: Image, e0: Entry, k: nat, b: Image, a: nat)
    requires Layout(sb, b0) && Layout(sb, b) && k < |e0.addrs|
  {
    var bm := b0[sb.bitmapStart];
    if e0.addrs[k] != 0 then a == e0.addrs[k] && b == b0
    else 0 < a < sb.numBlocks && !BitAt(bm, a) && b[sb.bitmapStart] == SetBit(bm, a, true)
  }

  datatype WriteResult = Written | AssertFails | NoSpace

  /** Files that are not n are as they were. */
  ghost predicate OthersSame(blocks: Image, inodes: Inodes, r: Image, qnodes: Inodes, n: nat) {
    && qnodes.Keys == inodes.Keys
    && forall m :: m in inodes && m != n ==>
         qnodes[m] == inodes[m] && Contents(r, qnodes[m]) == Contents(blocks, inodes[m])
  }

  class Files {
    const sb: SuperBlock
    var blocks: Image
    var inodes: Inodes       // the entries of the inodes in memory

    ghost predicate Valid()
      reads this
    {
      FsOk(sb, blocks, inodes) && forall n :: n in inodes ==> Filled(inodes[n])
    }

    /** cache_alloc: the first block whose bit is clear, marked and cleared; None where the kernel panics. */
    method Alloc() returns (r: Option<nat>)
      requires Layout(sb, blocks)
      modifies this`blocks
      ensures r.None? ==> blocks == old(blocks) && Full(sb, blocks)
      ensures r.Some? ==> r.value < |old(blocks)| && !BitAt(old(blocks)[sb.bitmapStart], r.value)
                          && blocks == Allocated(sb, old(blocks), r.value)
    {
      hide BitAt, SetBit;
      var i := 0;
      while i < sb.numBlocks
        invariant i <= sb.numBlocks && forall j: nat :: j < i ==> BitAt(blocks[sb.bitmapStart], j)
      {
        if !BitAt(blocks[sb.bitmapStart], i) {
          blocks := blocks[sb.bitmapStart := SetBit(blocks[sb.bitmapStart], i, true)];
          blocks := blocks[i := Zeros(BLOCK_SIZE)];
          return Some(i);
        }
        i := i + 1;
      }
      r := None;
    }

    /** inode_sync for writing. */
    method InodeSync(n: nat)
      requires n in inodes && inodes[n].Valid() && InodeBlock(sb, n) < |blocks|
      modifies this`blocks
      ensures blocks == Synced(sb, old(blocks), n, inodes[n])
    {
      var b := InodeBlock(sb, n);
      blocks := blocks[b := PutEntry(blocks[b], n % INODE_PER_BLOCK, inodes[n])];
    }

    /** inode_map for writing, direct part: the disk block of file block k, which is new if there was none.
        None where the kernel panics. */
    method InodeMap(n: nat, k: nat) returns (r: Option<nat>)
      requires FsOk(sb, blocks, inodes) && n in inodes && inodes[n].Valid() && k < INODE_NUM_DIRECT
      modifies this`blocks, this`inodes
      ensures r.None? ==> Full(sb, blocks) && blocks == old(blocks) && old(inodes)[n].addrs[k] == 0
      ensures r.Some? ==> FsOk(sb, blocks, inodes) && DataSame(old(blocks), old(inodes), blocks)
      ensures r.Some? ==> r.value < 0x1_0000_0000 && 0 < r.value < |blocks|
                          && inodes == old(inodes)[n := WithAddr(old(inodes)[n], k, r.value)]
      ensures r.Some? ==> MapsTo(sb, old(blocks), old(inodes)[n], k, blocks, r.value)
    {
      hide BitAt, FsOk, Synced, DataSame, Allocated, Placed, Full, SetBit;
      LayoutOf(sb, blocks, inodes);
      if inodes[n].addrs[k] == 0 {
        var a := Alloc();
        if a.None? { return None; }
        AllocatedOk(sb, old(blocks), inodes, a.value);
        ClearIsFree(sb, old(blocks), inodes, a.value);
        LayoutOf(sb, blocks, inodes);
        SmallAddr(sb, blocks, inodes, a.value);
        MapOk(sb, blocks, inodes, n, k, a.value);
        ghost var mid := blocks;
        inodes := inodes[n := WithAddr(inodes[n], k, a.value)];
        InodeSync(n);
        DataTrans(old(blocks), old(inodes), mid, blocks, n, k, a.value);
        LayoutOf(sb, blocks, inodes);
        BitmapAfter(sb, old(blocks), old(inodes), n, a.value, inodes[n]);
        return Some(a.value);
      }
      DataRefl(blocks, inodes);
      AddrSmall(sb, blocks, inodes, n, k);
      assert inodes[n].addrs[k := inodes[n].addrs[k]] == inodes[n].addrs;
      assert inodes == inodes[n := WithAddr(inodes[n], k, inodes[n].addrs[k])];
      r := Some(inodes[n].addrs[k]);
    }

    /** One round of the loop of inode_write: the bytes of src from pos up to next. */
    method WritePiece(n: nat, src: seq<Byte>, off: nat, pos: nat, next: nat, ghost blocks0: Image, ghost e0: Entry)
      returns (ok: bool)
      requires FsOk(sb, blocks, inodes) && n in inodes && Progress(blocks0, e0, off, src, blocks, inodes[n], pos)
      requires pos < next <= off + |src| && next <= pos - pos % BLOCK_SIZE + BLOCK_SIZE
      requires off <= e0.numBytes && Filled(e0)
      modifies this`blocks, this`inodes
      ensures ok ==> FsOk(sb, blocks, inodes) && n in inodes && Progress(blocks0, e0, off, src, blocks, inodes[n], next)
      ensures ok ==> Kept(old(blocks), old(inodes), blocks, inodes, n)
      ensures ok ==> Provided(sb, old(blocks), old(inodes)[n], blocks, inodes[n], pos, next)
      ensures !ok ==> Full(sb, blocks) && !Suffices(sb, old(blocks), old(inodes)[n], pos, next)
    {
      hide FsOk, Progress, Kept, Patch, DataSame, BitAt, Filled, Full, SetBit, Spent, Enough;
      ProgressFacts(blocks0, e0, off, src, blocks, inodes[n], pos);
      var k := pos / BLOCK_SIZE;
      var a := InodeMap(n, k);
      if a.None? {
        MapFails(sb, blocks, old(inodes)[n], pos, next);
        return false;
      }
      LayoutOf(sb, old(blocks), old(inodes));
      LayoutOf(sb, blocks, inodes);
      MapProvides(sb, old(blocks), old(inodes)[n], blocks, pos, next, a.value);
      if old(inodes)[n].addrs[k] == 0 {
        ProgressMap(blocks0, e0, off, src, old(blocks), old(inodes), n, pos, blocks, k, a.value);
      } else {
        assert WithAddr(old(inodes)[n], k, a.value) == old(inodes)[n];
      }
      KeptMap(old(blocks), old(inodes), blocks, n, k, a.value);
      ghost var mid := blocks;
      ApartOf(sb, blocks, inodes);
      ProgressPatch(blocks0, e0, off, src, blocks, inodes, n, pos, next);
      var bytes := src[pos - off..next - off];
      PatchOk(sb, blocks, inodes, n, k, Patch(blocks[a.value], pos % BLOCK_SIZE, bytes));
      blocks := blocks[a.value := Patch(blocks[a.value], pos % BLOCK_SIZE, bytes)];
      KeptTrans(old(blocks), old(inodes), mid, inodes, blocks, inodes, n);
      PatchApart(sb, mid, inodes, n, k);
      ok := true;
    }

    /** The loop of inode_write. */
    method WriteAll(n: nat, src: seq<Byte>, off: nat, ghost blocks0: Image, ghost e0: Entry) returns (ok: bool)
      requires FsOk(sb, blocks, inodes) && n in inodes && Progress(blocks0, e0, off, src, blocks, inodes[n], off)
      requires off <= e0.numBytes && Filled(e0)
      modifies this`blocks, this`inodes
      ensures ok ==> FsOk(sb, blocks, inodes) && n in inodes
                     && Progress(blocks0, e0, off, src, blocks, inodes[n], off + |src|)
      ensures ok ==> Kept(old(blocks), old(inodes), blocks, inodes, n)
      ensures ok ==> Provided(sb, old(blocks), old(inodes)[n], blocks, inodes[n], off, off + |src|)
      ensures ok <==> Suffices(sb, old(blocks), old(inodes)[n], off, off + |src|)
      ensures !ok ==> Full(sb, blocks)
    {
      hide FsOk, Progress, Kept, Filled, Full, Provided, Suffices;
      LayoutOf(sb, blocks, inodes);
      KeptRefl(blocks, inodes, n);
      ProvidedNothing(sb, blocks, inodes[n], off);
      var pos := off;
      while pos < off + |src|
        invariant off <= pos <= off + |src| && FsOk(sb, blocks, inodes) && n in inodes
        invariant Progress(blocks0, e0, off, src, blocks, inodes[n], pos)
        invariant Kept(old(blocks), old(inodes), blocks, inodes, n)
        invariant Provided(sb, old(blocks), old(inodes)[n], blocks, inodes[n], off, pos)
      {
        ghost var b1, i1 := blocks, inodes;
        var room := BLOCK_SIZE - pos % BLOCK_SIZE;
        var next := pos + if room < off + |src| - pos then room else off + |src| - pos;
        SufficesSplit(sb, old(blocks), old(inodes)[n], blocks, inodes[n], off, pos, off + |src|);
        ok := WritePiece(n, src, off, pos, next, blocks0, e0);
        if !ok {
          if Suffices(sb, b1, i1[n], pos, off + |src|) { SufficesPart(sb, b1, i1[n], pos, next, off + |src|); }
          return;
        }
        ProvidedTrans(sb, old(blocks), old(inodes)[n], b1, i1[n], blocks, inodes[n], off, pos, next);
        KeptTrans(old(blocks), old(inodes), b1, i1, blocks, inodes, n);
        pos := next;
      }
      ProvidedSuffices(sb, old(blocks), old(inodes)[n], blocks, inodes[n], off, pos);
      ok := true;
    }

    /** inode_write within the direct blocks: exactly the bytes from offset on are replaced by src, the file
        grows if need be, and all other files are as they were. */
    method InodeWrite(n: nat, src: seq<Byte>, offset: nat) returns (r: WriteResult)
      requires Valid() && n in inodes && offset + |src| <= DIRECT_BYTES
      modifies this
      ensures r == AssertFails <==> offset > old(inodes)[n].numBytes
      ensures r == AssertFails ==> blocks == old(blocks) && inodes == old(inodes)
      ensures r == NoSpace ==> Full(sb, blocks)
      ensures r == NoSpace <==> offset <= old(inodes)[n].numBytes
                                && !Suffices(sb, old(blocks), old(inodes)[n], offset, offset + |src|)
      ensures r == Written ==> Valid() && n in inodes && OthersSame(old(blocks), old(inodes), blocks, inodes, n)
      ensures r == Written ==>
                && Contents(blocks, inodes[n]) == Overwrite(Contents(old(blocks), old(inodes)[n]), offset, src)
                && Provided(sb, old(blocks), old(inodes)[n], blocks, inodes[n], offset, offset + |src|)
    {
      hide FsOk, Progress, Kept, Filled, Synced, Full, Provided, Suffices;
      EntriesValid(sb, blocks, inodes);
      if offset > inodes[n].numBytes { return AssertFails; }
      ghost var blocks0, inodes0 := blocks, inodes;
      var end := offset + |src|;
      GrownOk(sb, blocks, inodes, n, offset, src);
      if end > inodes[n].numBytes {
        inodes := inodes[n := inodes[n].(numBytes := end)];
        InodeSync(n);
      }
      ghost var b1, i1 := blocks, inodes;
      GrownProvides(sb, blocks0, inodes0, n, b1, i1[n], offset);
      SufficesSplit(sb, blocks0, inodes0[n], b1, i1[n], offset, offset, end);
      var ok := WriteAll(n, src, offset, blocks0, inodes0[n]);
      if !ok { return NoSpace; }
      ProvidedTrans(sb, blocks0, inodes0[n], b1, i1[n], blocks, inodes[n], offset, offset, end);
      KeptTrans(blocks0, inodes0, b1, i1, blocks, inodes, n);
      ProgressEnd(blocks0, inodes0[n], offset, src, blocks, inodes[n]);
      KeptOthers(sb, blocks0, inodes0, blocks, inodes, n);
      r := Written;
    }

    /** inode_read: the bytes of the file from offset on, as many as there are up to count. None where an
        ASSERT fails: on an offset past the end, and on a count so large that the sum of the two wraps round
        into the file. */
    method InodeRead(n: nat, offset: nat, count: nat) returns (r: Option<seq<Byte>>)
      requires Valid() && n in inodes && offset < U64_BOUND && count < U64_BOUND
      ensures r.None? <==> offset > inodes[n].numBytes || WrapsInto(offset, count, inodes[n].numBytes)
      ensures r.Some? ==> r.value == Contents(blocks, inodes[n])[offset..CutAt(offset + count, inodes[n].numBytes)]
    {
      hide FsOk;
      EntriesValid(sb, blocks, inodes);
      var e := inodes[n];
      var left := count;
      if (left + offset) % U64_BOUND > e.numBytes {
        left := (e.numBytes - offset) % U64_BOUND;
      }
      var end := (offset + left) % U64_BOUND;
      if offset > e.numBytes || end > e.numBytes || offset > end { return None; }
      var dest := ReadBytes(n, offset, end);
      r := Some(dest);
    }

    /** The loop of inode_read. */
    method ReadBytes(n: nat, offset: nat, end: nat) returns (dest: seq<Byte>)
      requires Valid() && n in inodes && inodes[n].Valid() && offset <= end <= inodes[n].numBytes
      ensures dest == Contents(blocks, inodes[n])[offset..end]
    {
      hide FsOk;
      var e := inodes[n];
      var pos := offset;
      dest := [];
      while pos < end
        invariant offset <= pos <= end && dest == Contents(blocks, e)[offset..pos]
      {
        var room := BLOCK_SIZE - pos % BLOCK_SIZE;
        var sz := if end - pos < room then end - pos else room;
        AddrSmall(sb, blocks, inodes, n, pos / BLOCK_SIZE);
        var block := blocks[e.addrs[pos / BLOCK_SIZE]];
        PieceOf(blocks, e, pos, sz);
        dest := dest + block[pos % BLOCK_SIZE..pos % BLOCK_SIZE + sz];
        pos := pos + sz;
      }
    }
  }

  /** The 64-bit sum of offset and count has wrapped round to a place inside the file. */
  predicate WrapsInto(offset: nat, count: nat, numBytes: nat) {
    U64_BOUND <= offset + count <= U64_BOUND + numBytes
  }

  function CutAt(end: nat, numBytes: nat): (r: nat) { if end > numBytes then numBytes else end }

  lemma LayoutOf(sb: SuperBlock, blocks: Image, inodes: Inodes)
    requires FsOk(sb, blocks, inodes)
    ensures Layout(sb, blocks)
  {
  }

  lemma SmallAddr(sb: SuperBlock, blocks: Image, inodes: Inodes, a: nat)
    requires FsOk(sb, blocks, inodes) && a < |blocks|
    ensures a < 0x1_0000_0000
  {
  }

  lemma AddrSmall(sb: SuperBlock, blocks: Image, inodes: Inodes, n: nat, k: nat)
    requires FsOk(sb, blocks, inodes) && n in inodes && inodes[n].Valid() && k < INODE_NUM_DIRECT
    ensures inodes[n].addrs[k] < |blocks|
  {
    hide BitAt;
    assert Placed(sb, blocks[sb.bitmapStart], Addr(inodes[n], k));
  }

  /** Of the bitmap, allocation sets one bit, and inode_sync leaves it alone. */
  lemma BitmapAfter(sb: SuperBlock, blocks: Image, inodes: Inodes, n: nat, i: nat, e: Entry)
    requires FsOk(sb, blocks, inodes) && n in inodes && e.Valid() && sb.bitmapStart < i < |blocks|
    ensures InodeBlock(sb, n) < sb.bitmapStart
    ensures Synced(sb, Allocated(sb, blocks, i), n, e)[sb.bitmapStart] == SetBit(blocks[sb.bitmapStart], i, true)
  {
    hide BitAt, SetBit, PutEntry, EntryAt, MetaUsed, AddrsUsed, AddrsApart;
  }

  /** A block of a file is not the bitmap. */
  lemma PatchApart(sb: SuperBlock, blocks: Image, inodes: Inodes, n: nat, k: nat)
    requires FsOk(sb, blocks, inodes) && n in inodes && inodes[n].Valid() && k < INODE_NUM_DIRECT
    requires inodes[n].addrs[k] != 0
    ensures inodes[n].addrs[k] > sb.bitmapStart
  {
    hide BitAt;
    assert Placed(sb, blocks[sb.bitmapStart], Addr(inodes[n], k));
  }

  /** A new length takes no blocks. */
  lemma GrownProvides(sb: SuperBlock, blocks: Image, inodes: Inodes, n: nat, r: Image, e: Entry, off: nat)
    requires FsOk(sb, blocks, inodes) && n in inodes && e.Valid() && e.addrs == inodes[n].addrs
    requires InodeBlock(sb, n) < |blocks| && (r == blocks || r == Synced(sb, blocks, n, e))
    ensures Provided(sb, blocks, inodes[n], r, e, off, off)
  {
    hide BitAt, PutEntry, EntryAt, MetaUsed, AddrsUsed, AddrsApart, Spent;
    ProvidedNothing(sb, blocks, inodes[n], off);
  }

  lemma DataRefl(blocks: Image, inodes: Inodes)
    ensures DataSame(blocks, inodes, blocks)
  {
  }

  /** The new block a becomes file block k of n. */
  lemma MapOk(sb: SuperBlock, blocks: Image, inodes: Inodes, n: nat, k: nat, a: U32)
    requires FsOk(sb, blocks, inodes) && n in inodes && inodes[n].Valid() && k < INODE_NUM_DIRECT
    requires Layout(sb, blocks) && Placed(sb, blocks[sb.bitmapStart], a)
    requires forall m, j: nat :: m in inodes && j <= INODE_NUM_DIRECT ==> Addr(inodes[m], j) != a
    ensures var e := WithAddr(inodes[n], k, a);
            && InodeBlock(sb, n) < |blocks|
            && FsOk(sb, Synced(sb, blocks, n, e), inodes[n := e])
            && DataSame(blocks, inodes[n := e], Synced(sb, blocks, n, e))
  {
    WithAddrApart(sb, blocks[sb.bitmapStart], inodes, n, k, a);
    hide BitAt, AddrsApart, AddrsUsed, MetaUsed, Stored;
    SyncedOk(sb, blocks, inodes, n, WithAddr(inodes[n], k, a));
  }

  lemma DataTrans(blocks: Image, inodes: Inodes, mid: Image, r: Image, n: nat, k: nat, a: U32)
    requires n in inodes && inodes[n].Valid() && k < INODE_NUM_DIRECT && inodes[n].addrs[k] == 0
    requires DataSame(blocks, inodes, mid) && DataSame(mid, inodes[n := WithAddr(inodes[n], k, a)], r)
    ensures DataSame(blocks, inodes, r)
  {
    var q := inodes[n := WithAddr(inodes[n], k, a)];
    forall m, j: nat | m in inodes && j <= INODE_NUM_DIRECT && 0 < Addr(inodes[m], j) < |r|
      ensures r[Addr(inodes[m], j)] == blocks[Addr(inodes[m], j)]
    {
      assert Addr(q[m], j) == Addr(inodes[m], j);
    }
  }

  // ----- lemmas for the loops

  /** The blocks of all files but n, and their entries, are as they were. */
  ghost predicate Kept(blocks: Image, inodes: Inodes, r: Image, qnodes: Inodes, n: nat) {
    && |r| == |blocks| && qnodes.Keys == inodes.Keys
    && (forall m :: m in inodes && m != n ==> qnodes[m] == inodes[m])
    && forall m, k: nat :: m in inodes && m != n && k <= INODE_NUM_DIRECT && 0 < Addr(inodes[m], k) < |r| ==>
         r[Addr(inodes[m], k)] == blocks[Addr(inodes[m], k)]
  }

  lemma KeptRefl(blocks: Image, inodes: Inodes, n: nat)
    ensures Kept(blocks, inodes, blocks, inodes, n)
  {
  }

  lemma KeptTrans(b: Image, i: Inodes, b1: Image, i1: Inodes, b2: Image, i2: Inodes, n: nat)
    requires Kept(b, i, b1, i1, n) && Kept(b1, i1, b2, i2, n)
    ensures Kept(b, i, b2, i2, n)
  {
    forall m, k: nat | m in i && m != n && k <= INODE_NUM_DIRECT && 0 < Addr(i[m], k) < |b2|
      ensures b2[Addr(i[m], k)] == b[Addr(i[m], k)]
    {
      assert Addr(i1[m], k) == Addr(i[m], k);
    }
  }

  lemma KeptMap(blocks: Image, inodes: Inodes, r: Image, n: nat, k: nat, a: U32)
    requires n in inodes && inodes[n].Valid() && k < INODE_NUM_DIRECT && DataSame(blocks, inodes, r)
    ensures Kept(blocks, inodes, r, inodes[n := WithAddr(inodes[n], k, a)], n)
  {
  }

  lemma KeptOthers(sb: SuperBlock, blocks: Image, inodes: Inodes, r: Image, qnodes: Inodes, n: nat)
    requires FsOk(sb, blocks, inodes) && Kept(blocks, inodes, r, qnodes, n)
    requires forall m :: m in inodes ==> Filled(inodes[m])
    ensures OthersSame(blocks, inodes, r, qnodes, n)
    ensures forall m :: m in qnodes && m != n ==> Filled(qnodes[m])
  {
    EntriesValid(sb, blocks, inodes);
    hide FsOk;
    forall m | m in inodes && m != n ensures Contents(r, inodes[m]) == Contents(blocks, inodes[m]) {
      var e := inodes[m];
      forall i | 0 <= i < e.numBytes ensures ByteAt(r, e, i) == ByteAt(blocks, e, i) {
        assert Addr(e, i / BLOCK_SIZE) == e.addrs[i / BLOCK_SIZE];
      }
    }
  }

  lemma EntriesValid(sb: SuperBlock, blocks: Image, inodes: Inodes)
    requires FsOk(sb, blocks, inodes)
    ensures forall n :: n in inodes ==> inodes[n].Valid() && InodeBlock(sb, n) < |blocks|
  {
    hide BitAt, AddrsApart, AddrsUsed, MetaUsed, EntryAt;
  }

  lemma ProgressFacts(blocks0: Image, e0: Entry, off: nat, src: seq<Byte>, blocks: Image, e: Entry, pos: nat)
    requires Progress(blocks0, e0, off, src, blocks, e, pos) && pos < off + |src|
    ensures e.Valid() && off <= pos && pos / BLOCK_SIZE < INODE_NUM_DIRECT
  {
  }

  lemma ApartOf(sb: SuperBlock, blocks: Image, inodes: Inodes)
    requires FsOk(sb, blocks, inodes)
    ensures AddrsApart(inodes) && forall n :: n in inodes ==> inodes[n].Valid()
  {
    EntriesValid(sb, blocks, inodes);
  }

  /** Changing a block of a file changes no other file and no structure of the file system. */
  lemma PatchOk(sb: SuperBlock, blocks: Image, inodes: Inodes, n: nat, k: nat, data: BlockData)
    requires FsOk(sb, blocks, inodes) && n in inodes && inodes[n].Valid() && k < INODE_NUM_DIRECT
    requires 0 < inodes[n].addrs[k] < |blocks|
    ensures var r := blocks[inodes[n].addrs[k] := data];
            FsOk(sb, r, inodes) && Kept(blocks, inodes, r, inodes, n)
  {
    var a := inodes[n].addrs[k];
    assert Addr(inodes[n], k) == a;
    assert Placed(sb, blocks[sb.bitmapStart], a);
    hide BitAt, EntryAt;
    hide MetaUsed, AddrsUsed;
    forall m, j: nat | m in inodes && m != n && j <= INODE_NUM_DIRECT && Addr(inodes[m], j) != 0
      ensures Addr(inodes[m], j) != a
    {
      assert Addr(inodes[n], k) != Addr(inodes[m], j);
    }
    hide AddrsApart;
  }

  /** The new length is on disk before any byte is written. */
  lemma GrownOk(sb: SuperBlock, blocks: Image, inodes: Inodes, n: nat, off: nat, src: seq<Byte>)
    requires FsOk(sb, blocks, inodes) && n in inodes && inodes[n].Valid() && InodeBlock(sb, n) < |blocks|
    requires off <= inodes[n].numBytes && off + |src| <= DIRECT_BYTES && Filled(inodes[n])
    ensures off + |src| <= inodes[n].numBytes ==>
              Progress(blocks, inodes[n], off, src, blocks, inodes[n], off) && Kept(blocks, inodes, blocks, inodes, n)
    ensures off + |src| > inodes[n].numBytes ==>
              var e := inodes[n].(numBytes := off + |src|);
              && FsOk(sb, Synced(sb, blocks, n, e), inodes[n := e])
              && Progress(blocks, inodes[n], off, src, Synced(sb, blocks, n, e), e, off)
              && Kept(blocks, inodes, Synced(sb, blocks, n, e), inodes[n := e], n)
  {
    if off + |src| > inodes[n].numBytes {
      var e := inodes[n].(numBytes := off + |src|);
      SameAddrs(sb, blocks, inodes, n, e);
      SyncedOk(sb, blocks, inodes, n, e);
      hide FsOk, Synced;
      GrownProgress(blocks, inodes, n, e, Synced(sb, blocks, n, e), off, src);
    }
  }

  lemma SameAddrs(sb: SuperBlock, blocks: Image, inodes: Inodes, n: nat, e: Entry)
    requires FsOk(sb, blocks, inodes) && n in inodes && inodes[n].Valid()
    requires e == inodes[n].(numBytes := e.numBytes)
    ensures AddrsApart(inodes[n := e]) && AddrsUsed(sb, blocks[sb.bitmapStart], inodes[n := e])
  {
    hide BitAt, Stored, MetaUsed;
    var q := inodes[n := e];
    assert forall m, k: nat :: m in q && k <= INODE_NUM_DIRECT ==> Addr(q[m], k) == Addr(inodes[m], k);
  }

  lemma GrownProgress(blocks: Image, inodes: Inodes, n: nat, e: Entry, r: Image, off: nat, src: seq<Byte>)
    requires n in inodes && inodes[n].Valid() && Filled(inodes[n])
    requires off <= inodes[n].numBytes < off + |src| <= DIRECT_BYTES
    requires e == inodes[n].(numBytes := off + |src|) && DataSame(blocks, inodes[n := e], r)
    ensures Progress(blocks, inodes[n], off, src, r, e, off) && Kept(blocks, inodes, r, inodes[n := e], n)
  {
    var q := inodes[n := e];
    assert forall m, k: nat :: m in q && k <= INODE_NUM_DIRECT ==> Addr(q[m], k) == Addr(inodes[m], k);
    forall i | 0 <= i < inodes[n].numBytes ensures ByteAt(r, e, i) == ByteAt(blocks, inodes[n], i) {
      assert Addr(q[n], i / BLOCK_SIZE) == e.addrs[i / BLOCK_SIZE];
      assert e.addrs[i / BLOCK_SIZE] != 0;
    }
  }

  /** Bytes that lie in one block. */
  lemma PieceOf(blocks: Image, e: Entry, pos: nat, sz: nat)
    requires e.Valid() && sz <= BLOCK_SIZE - pos % BLOCK_SIZE && pos + sz <= e.numBytes <= DIRECT_BYTES && sz > 0
    requires e.addrs[pos / BLOCK_SIZE] < |blocks|
    ensures Contents(blocks, e)[pos..pos + sz]
         == blocks[e.addrs[pos / BLOCK_SIZE]][pos % BLOCK_SIZE..pos % BLOCK_SIZE + sz]
  {
    var c := Contents(blocks, e)[pos..pos + sz];
    var d := blocks[e.addrs[pos / BLOCK_SIZE]][pos % BLOCK_SIZE..pos % BLOCK_SIZE + sz];
    forall i | 0 <= i < sz ensures c[i] == d[i] {
      assert (pos + i) / BLOCK_SIZE == pos / BLOCK_SIZE && (pos + i) % BLOCK_SIZE == pos % BLOCK_SIZE + i;
      assert c[i] == Contents(blocks, e)[pos + i];
    }
  }
}
