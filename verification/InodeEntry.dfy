/**
 Inodes on disk (src/fs/defines.h, src/fs/inode.c): entries of 64 bytes, eight to a block.
 */
module InodeEntry {
  import opened Words

  const INODE_NUM_DIRECT := 12
  const INODE_PER_BLOCK := 8
  const ENTRY_SIZE := 64

  type U16 = x: int | 0 <= x < 0x1_0000
  type U32 = x: int | 0 <= x < 0x1_0000_0000

  /** struct dinode. */
  datatype Entry = Entry(kind: U16, major: U16, minor: U16, links: U16, numBytes: U32, addrs: seq<U32>, indirect: U32) {
    predicate Valid() { |addrs| == INODE_NUM_DIRECT }
  }

  /** Numbers of 32 bits, one after the other. */
  function ManyBytes(ws: seq<U32>): (s: seq<Byte>)
    ensures |s| == 4 * |ws|
  {
    if ws == [] then [] else ToBytes(ws[0], 4) + ManyBytes(ws[1..])
  }

  function ManyNumbers(s: seq<Byte>, n: nat): (ws: seq<U32>)
    requires |s| == 4 * n
    ensures |ws| == n
  {
    if n == 0 then []
    else
      NumberOfBytes(s[..4]);
      Pow256Four();
      [FromBytes(s[..4])] + ManyNumbers(s[4..], n - 1)
  }

  lemma Pow256Four()
    ensures Pow256(4) == 0x1_0000_0000 && Pow256(2) == 0x1_0000
  {
  }

  lemma {:induction false} ManyRoundTrip(ws: seq<U32>)
    ensures ManyNumbers(ManyBytes(ws), |ws|) == ws
  {
    if ws != [] {
      var s := ManyBytes(ws);
      assert s[..4] == ToBytes(ws[0], 4) && s[4..] == ManyBytes(ws[1..]);
      Pow256Four();
      BytesOfNumber(ws[0], 4);
      ManyRoundTrip(ws[1..]);
    }
  }

  function Encode(e: Entry): (s: seq<Byte>)
    requires e.Valid()
    ensures |s| == ENTRY_SIZE
  {
    ToBytes(e.kind, 2) + ToBytes(e.major, 2) + ToBytes(e.minor, 2) + ToBytes(e.links, 2)
    + ManyBytes([e.numBytes] + e.addrs + [e.indirect])
  }

  function Number16(s: seq<Byte>): (n: U16)
    requires |s| == 2
  {
    NumberOfBytes(s);
    Pow256Four();
    FromBytes(s)
  }

  function Decode(s: seq<Byte>): (e: Entry)
    requires |s| == ENTRY_SIZE
    ensures e.Valid()
  {
    var ws := ManyNumbers(s[8..], 14);
    Entry(Number16(s[..2]), Number16(s[2..4]), Number16(s[4..6]), Number16(s[6..8]), ws[0], ws[1..13], ws[13])
  }

  lemma Number16Of(n: U16)
    ensures Number16(ToBytes(n, 2)) == n
  {
    Pow256Four();
    BytesOfNumber(n, 2);
  }

  /** An inode written to disk and read back is the same. */
  lemma DecodeEncode(e: Entry)
    requires e.Valid()
    ensures Decode(Encode(e)) == e
  {
    hide ToBytes, FromBytes, ManyBytes, ManyNumbers, Number16;
    var s := Encode(e);
    var ws := [e.numBytes] + e.addrs + [e.indirect];
    assert s[..2] == ToBytes(e.kind, 2) && s[2..4] == ToBytes(e.major, 2) && s[4..6] == ToBytes(e.minor, 2)
      && s[6..8] == ToBytes(e.links, 2) && s[8..] == ManyBytes(ws);
    Number16Of(e.kind);
    Number16Of(e.major);
    Number16Of(e.minor);
    Number16Of(e.links);
    ManyRoundTrip(ws);
    assert ws[1..13] == e.addrs;
  }

  /** get_entry. */
  function EntryAt(b: BlockData, k: nat): (e: Entry)
    requires k < INODE_PER_BLOCK
    ensures e.Valid()
  {
    Decode(b[ENTRY_SIZE * k..ENTRY_SIZE * k + ENTRY_SIZE])
  }

  function PutEntry(b: BlockData, k: nat, e: Entry): (r: BlockData)
    requires k < INODE_PER_BLOCK && e.Valid()
  {
    b[..ENTRY_SIZE * k] + Encode(e) + b[ENTRY_SIZE * k + ENTRY_SIZE..]
  }

  lemma PutEntryReads(b: BlockData, k: nat, e: Entry, j: nat)
    requires k < INODE_PER_BLOCK && j < INODE_PER_BLOCK && e.Valid()
    ensures EntryAt(PutEntry(b, k, e), j) == if j == k then e else EntryAt(b, j)
  {
    hide Encode, Decode;
    var r := PutEntry(b, k, e);
    if j == k {
      assert r[ENTRY_SIZE * j..ENTRY_SIZE * j + ENTRY_SIZE] == Encode(e);
      DecodeEncode(e);
    } else {
      assert r[ENTRY_SIZE * j..ENTRY_SIZE * j + ENTRY_SIZE] == b[ENTRY_SIZE * j..ENTRY_SIZE * j + ENTRY_SIZE];
    }
  }
}
