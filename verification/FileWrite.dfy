/**
 How file_write cuts a write into operations (src/fs/file.c), and which blocks one operation can put into
 the log (src/fs/inode.c, src/fs/cache.c): what matters here is block numbers, not contents.
 */
module FileWrite {
  import opened Words
  import opened InodeEntry
  import opened LogSpace

  const INODE_NUM_INDIRECT := 128
  const INODE_MAX_BYTES := (INODE_NUM_DIRECT + INODE_NUM_INDIRECT) * BLOCK_SIZE
  const MAX_OP_WRITE_N := (OP_MAX_NUM_BLOCKS - 1 - 1 - 2) / 2 * BLOCK_SIZE

  function Min(a: nat, b: nat): (m: nat) { if a < b then a else b }

  /** The file blocks that hold the bytes from off up to end. */
  ghost function Touched(off: nat, end: nat): (ks: set<nat>) {
    set k: nat | k < 1 + end / BLOCK_SIZE && off < end && off / BLOCK_SIZE <= k && k * BLOCK_SIZE < end
  }

  /** The numbers from a up to b. */
  lemma {:induction false} RangeSize(ks: set<nat>, a: nat, b: nat)
    requires forall k :: k in ks ==> a <= k < b
    ensures |ks| <= if b <= a then 0 else b - a
    decreases b
  {
    if b <= a {
      assert ks == {};
    } else {
      RangeSize(ks - {b - 1}, a, b - 1);
      assert ks <= ks - {b - 1} + {b - 1};
    }
  }

  /** A chunk, aligned or not, lies in at most four blocks. */
  lemma FourBlocks(off: nat, end: nat)
    requires off <= end <= off + MAX_OP_WRITE_N
    ensures |Touched(off, end)| <= 4
  {
    RangeSize(Touched(off, end), off / BLOCK_SIZE, off / BLOCK_SIZE + 4);
  }

  /** The disk blocks of the file blocks ks. */
  ghost function Blocks(addrs: seq<nat>, ks: set<nat>): (bs: set<nat>) {
    set k | k in ks && k < |addrs| :: addrs[k]
  }

  lemma {:induction false} BlocksSize(addrs: seq<nat>, ks: set<nat>)
    ensures |Blocks(addrs, ks)| <= |ks|
    decreases ks
  {
    if ks == {} {
      assert Blocks(addrs, ks) == {};
    } else {
      var k :| k in ks;
      BlocksSize(addrs, ks - {k});
      var b := if k < |addrs| then {addrs[k]} else {};
      assert Blocks(addrs, ks) == Blocks(addrs, ks - {k}) + b;
    }
  }

  /** The blocks that one operation may sync: inode, bitmap, indirect block, and the blocks of ks. */
  ghost predicate Allowed(logged: set<nat>, inode: nat, bitmap: nat, indirect: nat, addrs: seq<nat>, ks: set<nat>) {
    0 !in logged && logged <= {inode, bitmap, indirect} + Blocks(addrs, ks)
  }

  lemma SevenBlocks(logged: set<nat>, inode: nat, bitmap: nat, indirect: nat, addrs: seq<nat>, ks: set<nat>)
    requires Allowed(logged, inode, bitmap, indirect, addrs, ks) && |ks| <= 4
    ensures |logged| <= 7
  {
    BlocksSize(addrs, ks);
    var three := {inode, bitmap, indirect};
    assert |three| <= 3;
    Smaller(logged, three + Blocks(addrs, ks));
    assert |three + Blocks(addrs, ks)| <= |three| + |Blocks(addrs, ks)|;
  }

  lemma Smaller(a: set<nat>, b: set<nat>)
    requires a <= b
    ensures |a| <= |b|
  {
    assert b == a + (b - a);
  }

  /** A file block gets a disk block. */
  lemma AllowedMap(logged: set<nat>, inode: nat, bitmap: nat, indirect: nat, addrs: seq<nat>, ks: set<nat>, k: nat,
                   b: nat)
    requires Allowed(logged, inode, bitmap, indirect, addrs, ks) && k in ks && k < |addrs| && addrs[k] == 0
    requires b != 0 && bitmap != 0
    ensures Allowed(logged + {bitmap, b}, inode, bitmap, indirect, addrs[k := b], ks)
  {
    var bs := Blocks(addrs[k := b], ks);
    assert b in bs by { assert addrs[k := b][k] == b; }
    forall x | x in logged && x in Blocks(addrs, ks) ensures x in bs {
      var j :| j in ks && j < |addrs| && addrs[j] == x;
      assert addrs[k := b][j] == x;
    }
  }

  /** A file that is open for writing, and the log reservation of the operation under way. */
  class Transfer {
    const inodeBlock: nat
    const bitmapBlock: nat
    var numBytes: nat
    var addrs: seq<nat>         // disk blocks of the file, direct ones first; 0 where there is none
    var indirect: nat
    var off: nat                // f->off
    var rm: nat                 // ctx->rm
    var header: set<nat>        // the blocks in the log header, whoever put them there
    ghost var logged: set<nat>  // the blocks that the operation has synced

    ghost predicate Valid()
      reads this
    {
      && inodeBlock != 0 && bitmapBlock != 0 && |addrs| == INODE_NUM_DIRECT + INODE_NUM_INDIRECT
      && OP_MAX_NUM_BLOCKS - rm <= |logged| && logged <= header
    }

    ghost predicate Within(ks: set<nat>)
      reads this
    {
      Allowed(logged, inodeBlock, bitmapBlock, indirect, addrs, ks)
    }

    /** cache_sync, as BlockCache.Sync does it, but for the contents; true where the kernel panics. */
    method Sync(b: nat) returns (panicked: bool)
      requires Valid()
      modifies this`rm, this`header, this`logged
      ensures panicked <==> RunsOut(old(rm), old(header), b)
      ensures panicked ==> |old(logged)| >= OP_MAX_NUM_BLOCKS
      ensures !panicked ==> Valid() && logged == old(logged) + {b}
      ensures !panicked ==> header == old(header) + {b} && rm == Remaining(old(rm), old(header), b)
    {
      if b !in header {
        if rm <= 0 { return true; }
        rm := rm - 1;
        header := header + {b};
      }
      assert if b in logged then logged + {b} == logged else |logged + {b}| == |logged| + 1;
      assert b in old(header) ==> old(header) + {b} == old(header);
      logged := logged + {b};
      panicked := false;
    }

    /** cache_alloc: some block, no matter which; the bitmap and the block itself are synced. */
    method Alloc() returns (b: nat)
      requires Valid() && |logged| <= 8
      modifies this`rm, this`header, this`logged
      ensures Valid() && b != 0 && logged == old(logged) + {bitmapBlock, b}
    {
      b := *;
      if b == 0 { b := 1; }
      var p := Sync(bitmapBlock);
      var q := Sync(b);
    }

    /** inode_map of file block k, for an operation that works on the blocks ks. */
    method InodeMap(k: nat, ghost ks: set<nat>)
      requires Valid() && k < |addrs| && k in ks && |ks| <= 4 && Within(ks)
      modifies this`rm, this`header, this`logged, this`addrs, this`indirect
      ensures Valid() && Within(ks) && addrs[k] != 0
      ensures addrs == old(addrs)[k := addrs[k]]
    {
      hide Allowed;
      SevenBlocks(logged, inodeBlock, bitmapBlock, indirect, addrs, ks);
      if k >= INODE_NUM_DIRECT && indirect == 0 {
        var b := Alloc();
        AllowedIndirect(old(logged), inodeBlock, bitmapBlock, addrs, ks, b);
        indirect := b;
        SevenBlocks(logged, inodeBlock, bitmapBlock, indirect, addrs, ks);
      }
      if addrs[k] == 0 {
        ghost var before := logged;
        var b := Alloc();
        AllowedMap(before, inodeBlock, bitmapBlock, indirect, addrs, ks, k, b);
        addrs := addrs[k := b];
        SevenBlocks(logged, inodeBlock, bitmapBlock, indirect, addrs, ks);
        SyncAllowed(logged, inodeBlock, bitmapBlock, indirect, addrs, ks, inodeBlock);
        var p := Sync(inodeBlock);
      }
    }

    /** inode_write of count bytes from offset on: false where an ASSERT fails. At most seven blocks are
        synced, so the reservation of the operation does not run out. */
    method InodeWrite(offset: nat, count: nat) returns (ok: bool)
      requires Valid() && logged == {} && count <= MAX_OP_WRITE_N
      modifies this`rm, this`header, this`logged, this`addrs, this`indirect, this`numBytes
      ensures ok <==> offset <= old(numBytes) && offset + count <= INODE_MAX_BYTES
      ensures ok ==> Valid() && |logged| <= 7
      ensures ok ==> numBytes == if offset + count > old(numBytes) then offset + count else old(numBytes)
      ensures ok ==> forall k :: 0 <= k < |addrs| && k !in Touched(offset, offset + count) ==> addrs[k] == old(addrs)[k]
      ensures ok ==> forall k :: k in Touched(offset, offset + count) ==> k < |addrs| && addrs[k] != 0
    {
      hide Touched, Allowed;
      var end := offset + count;
      if offset > numBytes || end > INODE_MAX_BYTES { return false; }
      ghost var ks := Touched(offset, end);
      FourBlocks(offset, end);
      NoneAllowed(inodeBlock, bitmapBlock, indirect, addrs, ks);
      TouchedNone(offset);
      if end > numBytes {
        numBytes := end;
        var p := Sync(inodeBlock);
      }
      var pos := offset;
      while pos < end
        invariant offset <= pos <= end && Valid() && Within(ks)
        invariant numBytes == if end > old(numBytes) then end else old(numBytes)
        invariant forall k :: 0 <= k < |addrs| && k !in ks ==> addrs[k] == old(addrs)[k]
        invariant forall k :: k in Touched(offset, pos) ==> k < |addrs| && addrs[k] != 0
      {
        var k := pos / BLOCK_SIZE;
        var next := pos + Min(BLOCK_SIZE - pos % BLOCK_SIZE, end - pos);
        TouchedAt(offset, end, pos);
        TouchedNext(offset, pos, next);
        PutBlock(k, ks);
        pos := next;
      }
      SevenBlocks(logged, inodeBlock, bitmapBlock, indirect, addrs, ks);
      ok := true;
    }

    /** One round of the loop of inode_write. */
    method PutBlock(k: nat, ghost ks: set<nat>)
      requires Valid() && k < |addrs| && k in ks && |ks| <= 4 && Within(ks)
      modifies this`rm, this`header, this`logged, this`addrs, this`indirect
      ensures Valid() && Within(ks) && addrs[k] != 0
      ensures addrs == old(addrs)[k := addrs[k]]
    {
      hide Allowed;
      InodeMap(k, ks);
      SevenBlocks(logged, inodeBlock, bitmapBlock, indirect, addrs, ks);
      SyncAllowed(logged, inodeBlock, bitmapBlock, indirect, addrs, ks, addrs[k]);
      var p := Sync(addrs[k]);
    }

    /** file_write of n bytes: as much as fits in the file is written, in operations that each keep within
        their reservation. False where an ASSERT of inode_write fails, when the offset is past the end.
        Sizes and offsets are 64-bit numbers, so a negative n is a large one. */
    method FileWrite(n: int) returns (ok: bool, written: nat)
      requires Valid() && numBytes <= INODE_MAX_BYTES && off < U64_BOUND
      requires -0x8000_0000_0000_0000 <= n < 0x8000_0000_0000_0000
      modifies this
      ensures ok <==> old(off) <= old(numBytes) || n == 0 || old(off) == INODE_MAX_BYTES
      ensures ok ==> written == if old(off) > INODE_MAX_BYTES then 0
                                else Min(if n < 0 then n + U64_BOUND else n, INODE_MAX_BYTES - old(off))
      ensures ok ==> off == old(off) + written
      ensures ok ==> numBytes == if written > 0 && off > old(numBytes) then off else old(numBytes)
    {
      var room := if off <= INODE_MAX_BYTES then INODE_MAX_BYTES - off else U64_BOUND + INODE_MAX_BYTES - off;
      var size := Min(if n < 0 then n + U64_BOUND else n, room);
      written := 0;
      while written < size
        invariant written <= size && Valid() && off == old(off) + written
        invariant written > 0 ==> old(off) <= old(numBytes)
        invariant numBytes == if written > 0 && off > old(numBytes) then off else old(numBytes)
        decreases size - written
      {
        var count := Min(size - written, MAX_OP_WRITE_N);
        BeginOp();
        ok := InodeWrite(off, count);
        if !ok { return; }
        off := off + count;
        written := written + count;
      }
      ok := true;
    }

    /** cache_begin_op; the header may hold any blocks of other operations by now. */
    method BeginOp()
      requires Valid()
      modifies this`rm, this`logged, this`header
      ensures Valid() && logged == {} && rm == OP_MAX_NUM_BLOCKS
    {
      rm := OP_MAX_NUM_BLOCKS;
      logged := {};
      header := *;
    }
  }

  lemma AllowedIndirect(logged: set<nat>, inode: nat, bitmap: nat, addrs: seq<nat>, ks: set<nat>, b: nat)
    requires Allowed(logged, inode, bitmap, 0, addrs, ks) && b != 0 && bitmap != 0
    ensures Allowed(logged + {bitmap, b}, inode, bitmap, b, addrs, ks)
  {
    hide Blocks;
  }

  lemma SyncAllowed(logged: set<nat>, inode: nat, bitmap: nat, indirect: nat, addrs: seq<nat>, ks: set<nat>, b: nat)
    requires Allowed(logged, inode, bitmap, indirect, addrs, ks) && b != 0
    requires b == inode || exists k :: k in ks && k < |addrs| && addrs[k] == b
    ensures Allowed(logged + {b}, inode, bitmap, indirect, addrs, ks)
  {
  }

  lemma TouchedAt(off: nat, end: nat, pos: nat)
    requires off <= pos < end <= INODE_MAX_BYTES
    ensures pos / BLOCK_SIZE in Touched(off, end) && pos / BLOCK_SIZE < INODE_NUM_DIRECT + INODE_NUM_INDIRECT
  {
  }

  lemma TouchedNone(off: nat)
    ensures Touched(off, off) == {}
  {
  }

  lemma TouchedNext(off: nat, pos: nat, next: nat)
    requires off <= pos < next <= pos - pos % BLOCK_SIZE + BLOCK_SIZE
    ensures Touched(off, next) == Touched(off, pos) + {pos / BLOCK_SIZE}
  {
    forall k | k in Touched(off, next) ensures k in Touched(off, pos) || k == pos / BLOCK_SIZE {
    }
    forall k | k in Touched(off, pos) ensures k in Touched(off, next) {
    }
  }

  lemma NoneAllowed(inode: nat, bitmap: nat, indirect: nat, addrs: seq<nat>, ks: set<nat>)
    requires inode != 0
    ensures Allowed({}, inode, bitmap, indirect, addrs, ks) && Allowed({} + {inode}, inode, bitmap, indirect, addrs, ks)
  {
  }
}
