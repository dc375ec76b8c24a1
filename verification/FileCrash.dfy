/**
 What a file holds after a write of many operations (src/fs/file.c, file_write), and after a crash at any
 point of it: the write in full, or the part of it that a whole number of operations has written.
 */
module FileCrash {
  import opened Basics
  import opened Words
  import opened Disk
  import opened Bitmap
  import opened InodeEntry
  import opened LogRecovery
  import opened FileData
  import FileWrite

  // ----- pieces of a write

  /** How much of src the first i operations write. */
  function Cut(src: seq<Byte>, i: nat): (n: nat)
    ensures n <= |src|
  {
    FileWrite.Min(|src|, i * FileWrite.MAX_OP_WRITE_N)
  }

  /** What operation i writes. */
  function Chunk(src: seq<Byte>, i: nat): (s: seq<Byte>)
  {
    src[Cut(src, i)..Cut(src, i + 1)]
  }

  lemma OverwriteTwice(c: seq<Byte>, off: nat, a: seq<Byte>, b: seq<Byte>)
    requires off <= |c|
    ensures off + |a| <= |Overwrite(c, off, a)|
    ensures Overwrite(Overwrite(c, off, a), off + |a|, b) == Overwrite(c, off, a + b)
  {
  }

  lemma OverwriteNothing(c: seq<Byte>, off: nat)
    requires off <= |c|
    ensures Overwrite(c, off, []) == c
  {
  }

  /** One operation more. */
  lemma ChunkNext(c: seq<Byte>, off: nat, src: seq<Byte>, i: nat)
    requires off <= |c|
    ensures off + Cut(src, i) <= |Overwrite(c, off, src[..Cut(src, i)])|
    ensures Overwrite(Overwrite(c, off, src[..Cut(src, i)]), off + Cut(src, i), Chunk(src, i))
         == Overwrite(c, off, src[..Cut(src, i + 1)])
  {
    OverwriteTwice(c, off, src[..Cut(src, i)], Chunk(src, i));
    assert src[..Cut(src, i)] + Chunk(src, i) == src[..Cut(src, i + 1)];
  }

  // ----- a run of operations

  /** The synced blocks and the inodes in memory at the end of an operation. */
  datatype Snapshot = Snapshot(blocks: Image, inodes: Inodes) {
    ghost predicate Valid(sb: SuperBlock, n: nat) {
      FsOk(sb, blocks, inodes) && n in inodes && Filled(inodes[n])
    }

    function File(n: nat): (c: seq<Byte>)
      requires n in inodes
    {
      Contents(blocks, inodes[n])
    }
  }

  /** An operation by anybody: the next one of the write of src to file n, of which i have been done before
      and j are done now, or another one that leaves the file alone. */
  ghost predicate OpStep(n: nat, off: nat, src: seq<Byte>, s: Snapshot, i: nat, t: Snapshot, j: nat)
    requires n in s.inodes && n in t.inodes
  {
    || (j == i && t.File(n) == s.File(n))
    || (&& j == i + 1 && off + Cut(src, i) <= |s.File(n)|
        && t.File(n) == Overwrite(s.File(n), off + Cut(src, i), Chunk(src, i)))
  }

  ghost predicate Trace(sb: SuperBlock, n: nat, off: nat, src: seq<Byte>, ss: seq<Snapshot>, done: seq<nat>) {
    && |ss| == |done| > 0 && done[0] == 0
    && (forall i :: 0 <= i < |ss| ==> ss[i].Valid(sb, n))
    && off <= |ss[0].File(n)|
    && (forall i :: 0 < i < |ss| ==> OpStep(n, off, src, ss[i - 1], done[i - 1], ss[i], done[i]))
  }

  /** After every operation the file holds what it held before the write, with the part that has been
      written replaced. */
  lemma {:induction false} TracePrefix(sb: SuperBlock, n: nat, off: nat, src: seq<Byte>, ss: seq<Snapshot>,
                                       done: seq<nat>, k: nat)
    requires Trace(sb, n, off, src, ss, done) && k < |ss|
    ensures ss[k].File(n) == Overwrite(ss[0].File(n), off, src[..Cut(src, done[k])])
  {
    hide FsOk, Filled, Contents, Overwrite, Chunk;
    if k == 0 {
      OverwriteNothing(ss[0].File(n), off);
      assert src[..Cut(src, 0)] == [];
    } else {
      TracePrefix(sb, n, off, src, ss, done, k - 1);
      assert OpStep(n, off, src, ss[k - 1], done[k - 1], ss[k], done[k]);
      ChunkNext(ss[0].File(n), off, src, done[k - 1]);
    }
  }

  // ----- commits

  /** The commits cs come after the operations at[0], at[1], ...; each takes the home blocks from what the
      commit before left to what is synced by then, as BlockCache.EndOp does. */
  ghost predicate Committed(sb: SuperBlock, ss: seq<Snapshot>, at: seq<nat>, cs: seq<Commit>) {
    && ValidCommits(sb, cs) && |at| == |cs| + 1 && at[0] == 0
    && (forall j :: 0 <= j < |at| ==> at[j] < |ss|)
    && (forall j :: 0 <= j < |cs| ==>
          Install(HomeBlocks(sb, ss[at[j]].blocks), cs[j].group) == HomeBlocks(sb, ss[at[j + 1]].blocks))
  }

  lemma {:induction false} CommittedView(sb: SuperBlock, ss: seq<Snapshot>, at: seq<nat>, cs: seq<Commit>, m: nat)
    requires Committed(sb, ss, at, cs) && m <= |cs|
    ensures HistoryView(sb, HomeBlocks(sb, ss[0].blocks), cs[..m]) == HomeBlocks(sb, ss[at[m]].blocks)
  {
    hide Install, HomeBlocks;
    if m > 0 {
      CommittedView(sb, ss, at, cs, m - 1);
      assert cs[..m][..m - 1] == cs[..m - 1];
    }
  }

  // ----- the file system on the recovered disk

  /** File n as its inode on disk says. */
  function OnDisk(sb: SuperBlock, e: Image, n: nat): (c: seq<Byte>)
    requires InodeBlock(sb, n) < |e|
  {
    Contents(e, EntryAt(e[InodeBlock(sb, n)], n % INODE_PER_BLOCK))
  }

  lemma HomeAt(sb: SuperBlock, a: Image, e: Image, b: nat)
    requires HomeBlocks(sb, a) == HomeBlocks(sb, e) && |a| == |e| && b < |a| && !sb.InLog(b)
    ensures a[b] == e[b]
  {
    assert HomeBlocks(sb, a)[b] == a[b] && HomeBlocks(sb, e)[b] == e[b];
  }

  /** The file system lies on the home blocks: what they determine is all of it. */
  lemma SameHomes(sb: SuperBlock, a: Image, e: Image, inodes: Inodes)
    requires sb.Valid() && FsOk(sb, a, inodes) && |e| == |a| && HomeBlocks(sb, a) == HomeBlocks(sb, e)
    ensures FsOk(sb, e, inodes)
    ensures forall n :: n in inodes ==> InodeBlock(sb, n) < |e| && OnDisk(sb, e, n) == Contents(a, inodes[n])
  {
    hide BitAt, HomeBlocks, MetaUsed, AddrsUsed, AddrsApart, EntryAt;
    HomeAt(sb, a, e, sb.bitmapStart);
    forall n | n in inodes ensures e[InodeBlock(sb, n)] == a[InodeBlock(sb, n)] {
      HomeAt(sb, a, e, InodeBlock(sb, n));
    }
    forall n | n in inodes ensures OnDisk(sb, e, n) == Contents(a, inodes[n]) {
      SameContents(sb, a, e, inodes, n);
    }
  }

  lemma SameContents(sb: SuperBlock, a: Image, e: Image, inodes: Inodes, n: nat)
    requires sb.Valid() && FsOk(sb, a, inodes) && |e| == |a| && HomeBlocks(sb, a) == HomeBlocks(sb, e) && n in inodes
    ensures Contents(e, inodes[n]) == Contents(a, inodes[n])
  {
    hide BitAt, HomeBlocks, MetaUsed, AddrsApart, EntryAt;
    var f := inodes[n];
    forall i | 0 <= i < f.numBytes ensures ByteAt(e, f, i) == ByteAt(a, f, i) {
      var k := i / BLOCK_SIZE;
      if k < |f.addrs| && f.addrs[k] < |a| {
        assert Placed(sb, a[sb.bitmapStart], Addr(f, k));
        HomeAt(sb, a, e, f.addrs[k]);
      }
    }
  }

  // ----- crashes

  /** e is a disk without a log on which the file system is the snapshot s. */
  ghost predicate Recovered(sb: SuperBlock, e: Image, s: Snapshot) {
    && WellFormed(sb, e) && |LoggedNos(sb, e)| == 0 && FsOk(sb, e, s.inodes)
    && forall n :: n in s.inodes ==> InodeBlock(sb, n) < |e| && OnDisk(sb, e, n) == s.File(n)
  }

  lemma HomesRecovered(sb: SuperBlock, e: Image, s: Snapshot)
    requires WellFormed(sb, e) && |LoggedNos(sb, e)| == 0 && FsOk(sb, s.blocks, s.inodes)
    requires HomeBlocks(sb, e) == HomeBlocks(sb, s.blocks)
    ensures Recovered(sb, e, s)
  {
    hide GoodHeader, HomeBlocks, MetaUsed, AddrsUsed, AddrsApart, Stored, Contents, OnDisk, LoggedNos;
    SameHomes(sb, s.blocks, e, s.inodes);
  }

  /** A complete recovery of e leaves the file system of s. */
  ghost predicate RecoversTo(sb: SuperBlock, e: Image, s: Snapshot) {
    WellFormed(sb, e) && Recovered(sb, Apply(e, RecoveryWrites(sb, e)), s)
  }

  /** The machine stops after k of the writes of the commits cs to the disk d, and the recoveries that follow
      are all cut short: ds is what the disk holds after each. */
  ghost predicate Crashed(sb: SuperBlock, d: Image, cs: seq<Commit>, k: nat, ds: seq<Image>) {
    && ValidCommits(sb, cs) && k <= |HistoryWrites(sb, cs)|
    && InterruptedRecoveries(sb, ds) && ds[0] == Apply(d, HistoryWrites(sb, cs)[..k])
  }

  /** The disk d has an empty log and holds the snapshot s. */
  ghost predicate Starts(sb: SuperBlock, d: Image, s: Snapshot) {
    WellFormed(sb, d) && |LoggedNos(sb, d)| == 0 && HomeBlocks(sb, d) == HomeBlocks(sb, s.blocks)
  }

  /** The first m commits are those that survive: the ones whose header had been written, which takes in all
      that were finished. */
  ghost predicate Survive(sb: SuperBlock, d: Image, cs: seq<Commit>, k: nat, m: nat) {
    && WellFormed(sb, d) && ValidCommits(sb, cs) && k <= |HistoryWrites(sb, cs)|
    && Outcome(sb, d, cs, k, m)
    && forall x :: 0 <= x <= |cs| && |HistoryWrites(sb, cs[..x])| <= k ==> x <= m
  }

  /** The disk after a crash recovers to what was synced at the end of the operation before the last commit
      that survives. */
  lemma CrashedRun(sb: SuperBlock, d: Image, ss: seq<Snapshot>, at: seq<nat>, cs: seq<Commit>, k: nat,
                   ds: seq<Image>)
    returns (m: nat)
    requires Committed(sb, ss, at, cs) && Starts(sb, d, ss[0]) && Crashed(sb, d, cs, k, ds)
    requires forall i :: 0 <= i < |ss| ==> FsOk(sb, ss[i].blocks, ss[i].inodes)
    ensures Survive(sb, d, cs, k, m) && m < |at| && RecoversTo(sb, ds[|ds| - 1], ss[at[m]])
  {
    hide WellFormed, View, HomeBlocks, RecoveryWrites, HistoryWrites, FsOk, LoggedNos, PartialRecovery, HistoryView,
         Recovered;
    m := HistoryThenRecovery(sb, d, cs, k, ds);
    forall x | 0 <= x <= |cs| && |HistoryWrites(sb, cs[..x])| <= k ensures x <= m {
      FinishedCommitSurvives(sb, d, cs, k, m, x);
    }
    var last := ds[|ds| - 1];
    ViewOfEmptyLog(sb, d);
    CommittedView(sb, ss, at, cs, m);
    HomesRecovered(sb, Apply(last, RecoveryWrites(sb, last)), ss[at[m]]);
  }

  /** Crash safety of file_write. The machine stops at any write of any history of commits that the operations
      of a write and of others make, and any number of recoveries are cut short before one completes. Then the
      disk holds a sound file system, and in it the file is what it was before, with the part replaced that a
      whole number of operations has written: those up to the last commit that survives. */
  lemma CrashedWrite(sb: SuperBlock, d: Image, n: nat, off: nat, src: seq<Byte>, ss: seq<Snapshot>, done: seq<nat>,
                     at: seq<nat>, cs: seq<Commit>, k: nat, ds: seq<Image>)
    returns (m: nat)
    requires Trace(sb, n, off, src, ss, done)
    requires Committed(sb, ss, at, cs) && Starts(sb, d, ss[0]) && Crashed(sb, d, cs, k, ds)
    ensures Survive(sb, d, cs, k, m) && m < |at| && RecoversTo(sb, ds[|ds| - 1], ss[at[m]])
    ensures ss[at[m]].File(n) == Overwrite(ss[0].File(n), off, src[..Cut(src, done[at[m]])])
  {
    hide HistoryWrites, FsOk, Filled, Contents, Recovered, Starts, Survive, RecoversTo;
    m := CrashedRun(sb, d, ss, at, cs, k, ds);
    TracePrefix(sb, n, off, src, ss, done, at[m]);
  }

  // ----- the write itself

  /** The first n numbers. */
  function Upto(n: nat): (s: seq<nat>)
    ensures |s| == n && forall i :: 0 <= i < n ==> s[i] == i
  {
    seq(n, i requires 0 <= i < n => i)
  }

  /** One more operation of the write. */
  lemma TraceNext(sb: SuperBlock, n: nat, off: nat, src: seq<Byte>, ss: seq<Snapshot>, t: Snapshot)
    requires Trace(sb, n, off, src, ss, Upto(|ss|)) && t.Valid(sb, n)
    requires OpStep(n, off, src, ss[|ss| - 1], |ss| - 1, t, |ss|)
    ensures Trace(sb, n, off, src, ss + [t], Upto(|ss + [t]|))
  {
    hide FsOk, Filled, Snapshot.File, OpStep;
    var r := ss + [t];
    forall i | 0 < i < |r| ensures OpStep(n, off, src, r[i - 1], Upto(|r|)[i - 1], r[i], Upto(|r|)[i]) {
      if i < |ss| {
        assert OpStep(n, off, src, ss[i - 1], Upto(|ss|)[i - 1], ss[i], Upto(|ss|)[i]);
      }
    }
  }

  /** The next chunk starts within the file. */
  lemma NextFits(sb: SuperBlock, n: nat, off: nat, src: seq<Byte>, ss: seq<Snapshot>)
    requires Trace(sb, n, off, src, ss, Upto(|ss|))
    ensures off + Cut(src, |ss| - 1) <= |ss[|ss| - 1].File(n)|
  {
    hide FsOk, Filled, Contents;
    TracePrefix(sb, n, off, src, ss, Upto(|ss|), |ss| - 1);
  }

  lemma OthersTrans(a: Snapshot, b: Snapshot, c: Snapshot, n: nat)
    requires OthersSame(a.blocks, a.inodes, b.blocks, b.inodes, n)
    requires OthersSame(b.blocks, b.inodes, c.blocks, c.inodes, n)
    ensures OthersSame(a.blocks, a.inodes, c.blocks, c.inodes, n)
  {
    hide Contents;
  }

  /** file_write within the direct blocks: one operation for each chunk. At the end the file holds all of
      src from off on, and the other files are as they were. ss are the states at the ends of the operations
      that were finished, whatever stops the write. */
  method WriteFile(fs: Files, n: nat, src: seq<Byte>, off: nat) returns (r: WriteResult, ghost ss: seq<Snapshot>)
    requires fs.Valid() && n in fs.inodes && off + |src| <= DIRECT_BYTES
    modifies fs
    ensures r == AssertFails <==> src != [] && off > old(fs.inodes)[n].numBytes
    ensures r == NoSpace ==> Full(fs.sb, fs.blocks)
    ensures r == NoSpace <==> off <= old(fs.inodes)[n].numBytes
                              && !Suffices(fs.sb, old(fs.blocks), old(fs.inodes)[n], off, off + |src|)
    ensures ss != [] && ss[0] == Snapshot(old(fs.blocks), old(fs.inodes))
    ensures off <= old(fs.inodes)[n].numBytes ==> Trace(fs.sb, n, off, src, ss, Upto(|ss|))
    ensures r == Written ==> fs.Valid() && ss[|ss| - 1] == Snapshot(fs.blocks, fs.inodes)
    ensures r == Written ==> OthersSame(old(fs.blocks), old(fs.inodes), fs.blocks, fs.inodes, n)
    ensures r == Written && off <= old(fs.inodes)[n].numBytes ==>
              && Cut(src, |ss| - 1) == |src| && n in fs.inodes
              && Contents(fs.blocks, fs.inodes[n]) == Overwrite(Contents(old(fs.blocks), old(fs.inodes)[n]), off, src)
  {
    hide FsOk, Filled, Contents, Overwrite, Full, Provided, Suffices;
    ghost var e0 := fs.inodes[n];
    LayoutOf(fs.sb, fs.blocks, fs.inodes);
    ProvidedNothing(fs.sb, fs.blocks, e0, off);
    ss := [Snapshot(fs.blocks, fs.inodes)];
    var nwrite, pos := 0, off;
    while nwrite < |src|
      invariant ss != [] && nwrite == Cut(src, |ss| - 1) && pos == off + nwrite
      invariant fs.Valid() && n in fs.inodes && ss[|ss| - 1] == Snapshot(fs.blocks, fs.inodes)
      invariant ss[0] == Snapshot(old(fs.blocks), old(fs.inodes))
      invariant off <= old(fs.inodes)[n].numBytes ==> Trace(fs.sb, n, off, src, ss, Upto(|ss|))
      invariant Provided(fs.sb, old(fs.blocks), e0, fs.blocks, fs.inodes[n], off, pos)
      invariant nwrite > 0 ==> off <= old(fs.inodes)[n].numBytes
      invariant OthersSame(old(fs.blocks), old(fs.inodes), fs.blocks, fs.inodes, n)
    {
      var count := FileWrite.Min(|src| - nwrite, FileWrite.MAX_OP_WRITE_N);
      ghost var before := Snapshot(fs.blocks, fs.inodes);
      if off <= old(fs.inodes)[n].numBytes { NextFits(fs.sb, n, off, src, ss); }
      assert src[nwrite..nwrite + count] == Chunk(src, |ss| - 1);
      r := fs.InodeWrite(n, src[nwrite..nwrite + count], pos);
      SufficesSplit(fs.sb, old(fs.blocks), e0, before.blocks, before.inodes[n], off, pos, off + |src|);
      if r != Written {
        if Suffices(fs.sb, before.blocks, before.inodes[n], pos, off + |src|) {
          SufficesPart(fs.sb, before.blocks, before.inodes[n], pos, pos + count, off + |src|);
        }
        return;
      }
      ghost var after := Snapshot(fs.blocks, fs.inodes);
      OthersTrans(ss[0], before, after, n);
      ProvidedTrans(fs.sb, old(fs.blocks), e0, before.blocks, before.inodes[n], fs.blocks, fs.inodes[n], off, pos,
                    pos + count);
      TraceNext(fs.sb, n, off, src, ss, after);
      ss := ss + [after];
      nwrite, pos := nwrite + count, pos + count;
    }
    r := Written;
    ProvidedSuffices(fs.sb, old(fs.blocks), e0, fs.blocks, fs.inodes[n], off, pos);
    if off <= old(fs.inodes)[n].numBytes {
      TracePrefix(fs.sb, n, off, src, ss, Upto(|ss|), |ss| - 1);
      assert src[..|src|] == src;
    }
  }
}
