/**
 The disk as the file system sees it: numbered blocks of 512 bytes, written one block at a
 time, with the layout that the super block describes (src/fs/defines.h, src/user/mkfs/main.c).
 */
module Disk {
  import opened Words

  /** Number of block numbers that fit in the log header: 63. */
  const LOG_MAX_SIZE := (BLOCK_SIZE - 8) / 8

  /** The contents of every block of the disk. */
  type Image = seq<BlockData>

  datatype SuperBlock = SuperBlock(
    numBlocks: nat,
    numDataBlocks: nat,
    numInodes: nat,
    numLogBlocks: nat,
    logStart: nat,
    inodeStart: nat,
    bitmapStart: nat
  ) {
    /** Layout: [ MBR | super block | log | inodes | bitmap | data ], the bitmap in one block. */
    ghost predicate Valid() {
      && 2 <= logStart
      && numLogBlocks == LOG_MAX_SIZE
      && inodeStart == logStart + numLogBlocks
      && inodeStart + numInodes / 8 < bitmapStart < numBlocks <= 8 * BLOCK_SIZE
    }

    /** Block b is part of the log area (header or log slot). */
    predicate InLog(b: int) {
      logStart <= b < logStart + numLogBlocks
    }
  }

  const FSSIZE := 1000
  const NINODES := 200

  /** The super block that mkfs writes. */
  function MkfsSuperBlock(): (sb: SuperBlock)
    ensures sb.Valid() && sb.inodeStart == 65 && sb.bitmapStart == 91
  {
    var inodeBlocks := NINODES / (BLOCK_SIZE / 64) + 1;
    var bitmapBlocks := FSSIZE / (BLOCK_SIZE * 8) + 1;
    SuperBlock(FSSIZE, FSSIZE - (2 + LOG_MAX_SIZE + inodeBlocks + bitmapBlocks), NINODES, LOG_MAX_SIZE,
               2, 2 + LOG_MAX_SIZE, 2 + LOG_MAX_SIZE + inodeBlocks)
  }

  /** One device->write call: the unit that a crash cannot split. */
  datatype Write = Write(no: nat, data: BlockData)

  /** The disk after the writes ws, in order. */
  function Apply(d: Image, ws: seq<Write>): (r: Image)
    ensures |r| == |d|
  {
    if ws == [] then d
    else
      var r := Apply(d, ws[..|ws| - 1]);
      var w := ws[|ws| - 1];
      if w.no < |d| then r[w.no := w.data] else r
  }

  /** One more write. */
  lemma ApplySnoc(d: Image, ws: seq<Write>, w: Write)
    requires w.no < |d|
    ensures Apply(d, ws + [w]) == Apply(d, ws)[w.no := w.data]
  {
    assert (ws + [w])[..|ws|] == ws;
  }

  /** The prefixes of a list of writes, one write at a time. */
  lemma ApplyNext(d: Image, ws: seq<Write>, i: nat)
    requires i < |ws| && ws[i].no < |d|
    ensures Apply(d, ws[..i + 1]) == Apply(d, ws[..i])[ws[i].no := ws[i].data]
  {
    assert ws[..i + 1] == ws[..i] + [ws[i]];
    ApplySnoc(d, ws[..i], ws[i]);
  }

  lemma ApplyNone(d: Image, ws: seq<Write>)
    ensures Apply(d, ws[..0]) == d
  {
  }

  lemma {:induction false} ApplyConcat(d: Image, ws: seq<Write>, more: seq<Write>)
    ensures Apply(d, ws + more) == Apply(Apply(d, ws), more)
  {
    if more == [] {
      assert ws + more == ws;
    } else {
      var last := |more| - 1;
      assert (ws + more)[..|ws + more| - 1] == ws + more[..last];
      ApplyConcat(d, ws, more[..last]);
    }
  }

  /** The block device. The ghost log records every write, so that a crash point inside a call
      is a prefix of the writes that the call added. */
  class BlockDevice {
    var blocks: Image
    ghost var log: seq<Write>

    method Read(no: nat) returns (data: BlockData)
      requires no < |blocks|
      ensures data == blocks[no]
    {
      data := blocks[no];
    }

    method WriteBlock(no: nat, data: BlockData)
      requires no < |blocks|
      modifies this
      ensures blocks == old(blocks)[no := data]
      ensures log == old(log) + [Write(no, data)]
    {
      blocks := blocks[no := data];
      log := log + [Write(no, data)];
    }
  }
}
