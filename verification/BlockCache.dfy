/**
 The block cache and its log (src/fs/cache.c): an LRU list of cached blocks with eviction, pinned
 dirty blocks, log space reserved by running operations, group commit and recovery at boot.
 */
module BlockCache {
  import opened Basics
  import opened Words
  import opened Disk
  import opened LogRecovery
  import opened LogSpace

  const EVICTION_THRESHOLD := 20

  /** A cached block. Its sleep lock is held exactly while acquired is true. */
  class Block {
    var blockNo: nat
    var acquired: bool
    var pinned: bool
    var valid: bool
    var data: BlockData

    constructor ()
      ensures blockNo == 0 && !acquired && !pinned && !valid && data == Zeros(BLOCK_SIZE)
    {
      blockNo, acquired, pinned, valid, data := 0, false, false, false, Zeros(BLOCK_SIZE);
    }
  }

  /** A running atomic operation: rm more distinct blocks may be synced by it. */
  class OpContext {
    var rm: nat
  }

  /** Neither held nor dirty blocks may be evicted. */
  predicate IsBusy(blk: Block)
    reads blk
  {
    blk.acquired || blk.pinned
  }

  /** The busy blocks of s, in order. */
  ghost function Busy(s: seq<Block>): (r: seq<Block>)
    reads s
  {
    if s == [] then [] else (if IsBusy(s[0]) then [s[0]] else []) + Busy(s[1..])
  }

  lemma {:induction false} BusyMembers(s: seq<Block>)
    ensures |Busy(s)| <= |s|
    ensures forall x :: x in Busy(s) ==> x in s
    ensures forall x :: x in Busy(s) ==> IsBusy(x)
    ensures forall x :: x in s && IsBusy(x) ==> x in Busy(s)
  {
    if s != [] {
      BusyMembers(s[1..]);
      assert s == [s[0]] + s[1..];
    }
  }

  ghost predicate DistinctNos(s: seq<Block>)
    reads s`blockNo
  {
    forall i, j :: 0 <= i < j < |s| ==> s[i].blockNo != s[j].blockNo
  }

  lemma {:induction false} BusyDistinct(s: seq<Block>)
    requires DistinctNos(s)
    ensures DistinctNos(Busy(s))
  {
    if s != [] {
      BusyDistinct(s[1..]);
      BusyMembers(s[1..]);
      forall x | x in Busy(s[1..]) ensures x.blockNo != s[0].blockNo {
        assert x in s[1..];
        var i :| 0 <= i < |s[1..]| && s[1..][i] == x;
        assert s[i + 1] == x;
      }
    }
  }

  /** Moving one element to the front. */
  lemma FrontMembers(l: seq<Block>, k: nat)
    requires k < |l| && DistinctNos(l)
    ensures var r := [l[k]] + l[..k] + l[k + 1..];
            DistinctNos(r) && (forall x :: x in r ==> x in l) && (forall x :: x in l ==> x in r)
  {
    var r := [l[k]] + l[..k] + l[k + 1..];
    assert l == l[..k] + [l[k]] + l[k + 1..];
  }

  function Sum(s: seq<nat>): (n: nat)
  {
    if s == [] then 0 else s[0] + Sum(s[1..])
  }

  /** What each of the operations may still log. */
  ghost function Rms(s: seq<OpContext>): (r: seq<nat>)
    reads s
    ensures |r| == |s| && forall i :: 0 <= i < |s| ==> r[i] == s[i].rm
  {
    if s == [] then [] else [s[0].rm] + Rms(s[1..])
  }

  lemma {:induction false} SumUpdate(s: seq<nat>, i: nat, v: nat)
    requires i < |s|
    ensures Sum(s[i := v]) == Sum(s) - s[i] + v
  {
    if i > 0 {
      SumUpdate(s[1..], i - 1, v);
      assert s[i := v][1..] == s[1..][i - 1 := v];
    } else {
      assert s[i := v][1..] == s[1..];
    }
  }

  lemma {:induction false} SumRemove(s: seq<nat>, i: nat)
    requires i < |s|
    ensures Sum(s[..i] + s[i + 1..]) == Sum(s) - s[i]
  {
    if i > 0 {
      SumRemove(s[1..], i - 1);
      assert (s[..i] + s[i + 1..])[1..] == s[1..][..i - 1] + s[1..][i..];
    } else {
      assert s[..0] + s[1..] == s[1..];
    }
  }

  lemma {:induction false} SumSnoc(s: seq<nat>, v: nat)
    ensures Sum(s + [v]) == Sum(s) + v
  {
    if s != [] {
      SumSnoc(s[1..], v);
      assert (s + [v])[1..] == s[1..] + [v];
    }
  }

  lemma {:induction false} SumBound(s: seq<nat>, c: nat)
    requires forall i :: 0 <= i < |s| ==> s[i] <= c
    ensures Sum(s) <= |s| * c
  {
    if s != [] {
      SumBound(s[1..], c);
    }
  }

  ghost predicate DistinctOps(s: seq<OpContext>) {
    forall i, j :: 0 <= i < j < |s| ==> s[i] != s[j]
  }

  /** Log space: what is logged plus what running operations may still log stays below 63;
      nothing stays logged when no operation runs. */
  ghost predicate Budget(logged: nat, rms: seq<nat>) {
    && (forall i :: 0 <= i < |rms| ==> rms[i] <= OP_MAX_NUM_BLOCKS)
    && logged + Sum(rms) < LOG_MAX_SIZE
    && (rms == [] ==> logged == 0)
  }

  /** begin_op's test leaves room for a whole operation. */
  lemma BudgetBegin(logged: nat, rms: seq<nat>)
    requires Budget(logged, rms) && logged + (|rms| + 1) * OP_MAX_NUM_BLOCKS < LOG_MAX_SIZE
    ensures Budget(logged, rms + [OP_MAX_NUM_BLOCKS])
  {
    SumBound(rms, OP_MAX_NUM_BLOCKS);
    SumSnoc(rms, OP_MAX_NUM_BLOCKS);
  }

  /** Logging one block out of a reservation. */
  lemma BudgetSpend(logged: nat, rms: seq<nat>, k: nat)
    requires Budget(logged, rms) && k < |rms| && rms[k] > 0
    ensures logged + 1 < LOG_MAX_SIZE && Budget(logged + 1, rms[k := rms[k] - 1])
  {
    SumUpdate(rms, k, rms[k] - 1);
  }

  /** An operation that ends gives its reservation back. */
  lemma BudgetEnd(logged: nat, rms: seq<nat>, k: nat)
    requires Budget(logged, rms) && k < |rms|
    ensures |rms| > 1 ==> Budget(logged, rms[..k] + rms[k + 1..])
    ensures logged < LOG_MAX_SIZE
  {
    SumRemove(rms, k);
  }

  /** ctx->rm--. */
  method Spend(ctx: OpContext, ghost running: seq<OpContext>, ghost k: nat)
    requires k < |running| && running[k] == ctx && ctx.rm > 0
    requires forall i :: 0 <= i < |running| && i != k ==> running[i] != ctx
    modifies ctx
    ensures ctx.rm == old(ctx.rm) - 1
    ensures Rms(running) == old(Rms(running))[k := ctx.rm]
  {
    ctx.rm := ctx.rm - 1;
  }

  /** A cached block is pinned exactly when dirty, and unless somebody holds it its contents are the
      synced ones. The log header block is exempt: write_header goes past the cache. */
  ghost predicate EntryIs(header: nat, blk: Block, dirty: set<nat>, synced: Image)
    reads blk
  {
    && blk.valid
    && blk.blockNo < |synced|
    && (blk.pinned <==> blk.blockNo in dirty)
    && (!blk.acquired && blk.blockNo != header ==> blk.data == synced[blk.blockNo])
  }

  /** The contents of the listed blocks. */
  ghost function Contents(nos: seq<nat>, img: Image): (data: seq<BlockData>)
    requires forall i :: 0 <= i < |nos| ==> nos[i] < |img|
    ensures |data| == |nos|
  {
    seq(|nos|, i requires 0 <= i < |nos| => img[nos[i]])
  }

  class BlockCache {
    const sb: SuperBlock
    const dev: BlockDevice
    var list: seq<Block>          // most recently used first
    var blockNum: nat
    var hdr: WordArray            // in-memory log header: count, then block numbers
    var outstanding: int
    ghost var running: seq<OpContext>
    ghost var dirty: set<nat>     // numbers of the pinned blocks
    ghost var synced: Image       // per block: the contents last synced, else those on disk

    /** The block numbers in the in-memory log header. */
    function Logged(): (nos: seq<nat>)
      reads this`hdr
    {
      if hdr[0] < LOG_MAX_SIZE then hdr[1..1 + hdr[0]] else []
    }

    ghost predicate EntryOk(blk: Block)
      reads this`dirty, this`synced, blk
    {
      EntryIs(sb.logStart, blk, dirty, synced)
    }

    ghost predicate Has(l: seq<Block>, b: nat)
      reads l`blockNo
    {
      exists x :: x in l && x.blockNo == b
    }

    /** One entry per block number, pinned exactly when dirty, and every dirty block is cached. */
    ghost predicate ListOk(l: seq<Block>)
      reads this`dirty, this`synced, l
    {
      && DistinctNos(l)
      && (forall x :: x in l ==> EntryOk(x))
      && (forall b :: b in dirty ==> Has(l, b))
    }

    /** A block that is not dirty has its synced contents on disk (the log header block exempt). */
    ghost predicate DiskOk()
      reads this`dirty, this`synced, dev`blocks
    {
      && sb.Valid() && |synced| == |dev.blocks| == sb.numBlocks
      && (forall b :: 0 <= b < |synced| && b != sb.logStart && b !in dirty ==> synced[b] == dev.blocks[b])
    }

    /** The cache agrees with the disk, and block_num is the length of the list. */
    ghost predicate CacheOk()
      reads this`list, this`blockNum, this`dirty, this`synced, list, dev`blocks
    {
      |list| == blockNum && ListOk(list) && DiskOk()
    }

    ghost predicate OpsOk()
      reads this`hdr, this`outstanding, this`running, running
    {
      && outstanding == |running|
      && DistinctOps(running)
      && Budget(hdr[0], Rms(running))
    }

    ghost predicate LogOk()
      reads this`hdr, this`dirty
    {
      && hdr[0] < LOG_MAX_SIZE
      && Homes(sb, Logged())
      && (forall b :: b in dirty <==> b in Logged())
    }

    ghost predicate Valid()
      reads this, list, dev, running
    {
      && CacheOk() && LogOk() && OpsOk()
      && WellFormed(sb, dev.blocks) && LoggedNos(sb, dev.blocks) == []
    }

    /** Block b is cached and some client holds it. */
    ghost predicate Held(b: nat)
      reads this, list
    {
      exists x :: x in list && x.blockNo == b && x.acquired
    }

    /** init_bcache: start from an empty cache and replay the log that a crash left. The device sees
        exactly the writes of the recovery, any prefix of which leaves a disk that recovers to the same
        file system; at the end that file system is on the home blocks and the header is empty. */
    constructor Init(sblock: SuperBlock, device: BlockDevice)
      requires WellFormed(sblock, device.blocks)
      modifies device
      ensures sb == sblock && dev == device && Valid() && running == []
      ensures forall k :: 0 <= k < |list| ==> fresh(list[k]) && !list[k].acquired
      ensures dev.log == old(device.log) + RecoveryWrites(sb, old(device.blocks))
      ensures AtomicRecovery(old(device.blocks))
      ensures HomeBlocks(sb, dev.blocks) == View(sb, old(device.blocks))
    {
      sb := sblock;
      dev := device;
      list, blockNum, outstanding := [], 0, 0;
      hdr := Decode(device.blocks[sblock.logStart]);
      running, dirty, synced := [], {}, device.blocks;
      new;
      hide View, HomeBlocks, RecoveryWrites, Decode, AtomicRecovery, ListOk;
      EmptyListOk();
      Recover(dev.blocks);
    }

    /** The part of init_bcache that uses the device. */
    method Recover(ghost d: Image)
      requires CacheOk() && WellFormed(sb, d) && hdr == Decode(d[sb.logStart]) && dirty == {} && list == []
      requires running == [] && outstanding == 0 && synced == d == dev.blocks
      modifies this`list, this`blockNum, this`hdr, this`synced, dev
      ensures Valid()
      ensures forall k :: 0 <= k < |list| ==> fresh(list[k]) && !list[k].acquired
      ensures dev.log == old(dev.log) + RecoveryWrites(sb, d)
      ensures AtomicRecovery(d) && HomeBlocks(sb, dev.blocks) == View(sb, d)
    {
      hide ListOk, Apply, View, HomeBlocks, RecoveryWrites, Encode, ClearedHeader, LogOk, Decode, HomeWrites, DiskOk,
           AtomicRecovery;
      ReadHeader(d);
      RecoveryAtomic(d);
      Replay(d);
      hdr := ClearedHeader(hdr);
      WriteHeader();
      EmptyLogOk();
      NoOps();
    }

    lemma ReadHeader(d: Image)
      requires WellFormed(sb, d) && hdr == Decode(d[sb.logStart])
      ensures hdr[0] < LOG_MAX_SIZE && Logged() == LoggedNos(sb, d)
    {
    }

    /** The loop of init_bcache: copy every slot to its home. */
    method Replay(ghost d: Image)
      requires CacheOk() && WellFormed(sb, d) && hdr[0] < LOG_MAX_SIZE && Logged() == LoggedNos(sb, d)
      requires dirty == {} && list == [] && synced == d == dev.blocks
      modifies this`list, this`blockNum, this`synced, dev
      ensures CacheOk()
      ensures forall k :: 0 <= k < |list| ==> fresh(list[k]) && !list[k].acquired
      ensures var ws := HomeWrites(LoggedGroup(sb, d));
              dev.log == old(dev.log) + ws && dev.blocks == Apply(d, ws)
    {
      hide ListOk, DiskOk, Apply, HomeWrites, Listed, GoodHeader;
      ghost var g := LoggedGroup(sb, d);
      ghost var ws := HomeWrites(g);
      var i := 0;
      ApplyNone(d, ws);
      while i < hdr[0]
        invariant 0 <= i <= hdr[0]
        invariant CacheOk() && dirty == {} && |synced| == |d| == |dev.blocks|
        invariant forall k :: 0 <= k < |list| ==> fresh(list[k]) && !list[k].acquired
        invariant forall b :: 0 <= b < |d| && sb.InLog(b) ==> synced[b] == d[b]
        invariant dev.log == old(dev.log) + ws[..i] && dev.blocks == Apply(d, ws[..i])
      {
        ReplayPlaces(d, i);
        CopyBlock(sb.logStart + 1 + i, hdr[1 + i]);
        ApplyNext(d, ws, i);
        i := i + 1;
      }
      assert ws[..i] == ws;
    }

    lemma ReplayPlaces(d: Image, i: nat)
      requires WellFormed(sb, d) && hdr[0] < LOG_MAX_SIZE && Logged() == LoggedNos(sb, d) && i < hdr[0]
      ensures var b, slot := hdr[1 + i], sb.logStart + 1 + i;
              && b < |d| && !sb.InLog(b) && b != sb.logStart && b != slot && slot < |d| && sb.InLog(slot)
              && i < |HomeWrites(LoggedGroup(sb, d))|
              && HomeWrites(LoggedGroup(sb, d))[i] == Write(b, d[slot])
    {
      assert Logged()[i] == LoggedNos(sb, d)[i];
    }

    /** What a crash during recovery can leave: after any k of its writes, the same file system. */
    ghost predicate AtomicRecovery(d: Image)
      requires WellFormed(sb, d)
    {
      forall k :: 0 <= k <= |RecoveryWrites(sb, d)| ==>
        && WellFormed(sb, Apply(d, RecoveryWrites(sb, d)[..k]))
        && View(sb, Apply(d, RecoveryWrites(sb, d)[..k])) == View(sb, d)
    }

    lemma RecoveryAtomic(d: Image)
      requires WellFormed(sb, d)
      ensures AtomicRecovery(d)
      ensures RecoveryWrites(sb, d) == HomeWrites(LoggedGroup(sb, d))
                                       + [Write(sb.logStart, Encode(ClearedHeader(Decode(d[sb.logStart]))))]
      ensures var e := Apply(d, RecoveryWrites(sb, d));
              && e == Apply(d, HomeWrites(LoggedGroup(sb, d)))
                      [sb.logStart := Encode(ClearedHeader(Decode(d[sb.logStart])))]
              && WellFormed(sb, e) && LoggedNos(sb, e) == [] && HomeBlocks(sb, e) == View(sb, d)
    {
      hide View, GoodHeader, HomeBlocks, Decode, Encode, ClearedHeader, HomeWrites;
      forall k | 0 <= k <= |RecoveryWrites(sb, d)|
        ensures WellFormed(sb, Apply(d, RecoveryWrites(sb, d)[..k]))
        ensures View(sb, Apply(d, RecoveryWrites(sb, d)[..k])) == View(sb, d)
      {
        RecoveryIsIdempotent(sb, d, k);
      }
      RecoveryCompletes(sb, d);
      ApplySnoc(d, HomeWrites(LoggedGroup(sb, d)),
                Write(sb.logStart, Encode(ClearedHeader(Decode(d[sb.logStart])))));
    }

    lemma EmptyListOk()
      requires dirty == {}
      ensures ListOk([])
    {
    }

    // ----- changes of the list

    /** Lists with the same members keep what is said of the members. */
    lemma SameMembersOk(l: seq<Block>, r: seq<Block>)
      requires ListOk(l) && DistinctNos(r)
      requires forall x :: x in r ==> x in l
      requires forall x :: x in l && x.pinned ==> x in r
      ensures ListOk(r)
    {
      forall b | b in dirty ensures Has(r, b) {
        assert Has(l, b);
        var x :| x in l && x.blockNo == b;
        assert EntryOk(x);
        assert x in r;
      }
    }

    lemma FrontOk(l: seq<Block>, k: nat)
      requires ListOk(l) && k < |l|
      ensures ListOk([l[k]] + l[..k] + l[k + 1..])
      ensures forall x :: x in [l[k]] + l[..k] + l[k + 1..] ==> x in l
      ensures forall x :: x in l ==> x in [l[k]] + l[..k] + l[k + 1..]
    {
      hide EntryOk, Has;
      var r := [l[k]] + l[..k] + l[k + 1..];
      FrontMembers(l, k);
      SameMembersOk(l, r);
    }

    lemma ConsOk(l: seq<Block>, blk: Block)
      requires ListOk(l) && EntryOk(blk) && !Has(l, blk.blockNo)
      ensures ListOk([blk] + l)
    {
      forall b | b in dirty ensures Has([blk] + l, b) {
        var x :| x in l && x.blockNo == b;
        assert x in [blk] + l;
      }
    }

    /** What eviction leaves is part of the old list, without repetitions, with every busy block. */
    lemma EvictOk(l: seq<Block>, p: nat)
      requires ListOk(l) && p <= |l|
      ensures var r := l[..p] + Busy(l[p..]);
              && ListOk(r)
              && (forall x :: x in r ==> x in l)
              && (forall x :: x in l && IsBusy(x) ==> x in r)
    {
      hide EntryOk, Has;
      var r := l[..p] + Busy(l[p..]);
      BusyMembers(l[p..]);
      BusyDistinct(l[p..]);
      assert l == l[..p] + l[p..];
      assert forall x :: x in r ==> x in l;
      assert forall x :: x in l && IsBusy(x) ==> x in r;
      assert DistinctNos(r) by {
        forall i, j | 0 <= i < j < |r| ensures r[i].blockNo != r[j].blockNo {
          if i < p <= j {
            assert r[j] in l[p..];
          }
        }
      }
      SameMembersOk(l, r);
    }

    /** A block that is not in the list is not dirty, and is in no part of the list either. */
    lemma MissOk(l: seq<Block>, r: seq<Block>, b: nat)
      requires ListOk(l) && !Has(l, b)
      requires forall x :: x in r ==> x in l
      ensures !Has(r, b) && b !in dirty
    {
    }

    lemma BusyNone()
      ensures Busy([]) == []
    {
    }

    /** One entry more, from the end of the list. */
    lemma BusyFrom(all: seq<Block>, i: nat)
      requires i < |all|
      ensures var l := all[..i + 1] + Busy(all[i + 1..]);
              && l[i] == all[i]
              && (IsBusy(all[i]) ==> l == all[..i] + Busy(all[i..]))
              && (!IsBusy(all[i]) ==> l[..i] + l[i + 1..] == all[..i] + Busy(all[i..]))
    {
      assert all[i..][0] == all[i] && all[i..][1..] == all[i + 1..];
    }

    /** manage_block_num: evict from the least recently used end while at or over the threshold. */
    method ManageBlockNum() returns (ghost p: nat)
      requires |list| == blockNum && ListOk(list)
      modifies this`list, this`blockNum
      ensures |list| == blockNum && ListOk(list)
      ensures p <= |old(list)| && list == old(list)[..p] + Busy(old(list)[p..])
      ensures |list| < EVICTION_THRESHOLD || list == old(Busy(list))
      ensures list != old(list) ==> |list| >= EVICTION_THRESHOLD - 1
    {
      hide ListOk, Busy;
      var i := |list|;
      ghost var all := list;
      p := i;
      BusyNone();
      assert all[..i] == all && all[i..] == [];
      while blockNum >= EVICTION_THRESHOLD && i > 0
        invariant 0 <= i <= |all| && p == i
        invariant list == all[..i] + Busy(all[i..])
        invariant blockNum == |list|
        invariant list != all ==> |list| >= EVICTION_THRESHOLD - 1
      {
        i := i - 1;
        p := i;
        BusyFrom(all, i);
        if !list[i].acquired && !list[i].pinned {
          list := list[..i] + list[i + 1..];
          blockNum := blockNum - 1;
        }
      }
      assert i == 0 ==> all[i..] == all && list == Busy(all);
      EvictOk(all, p);
    }

    /** The loop of cache_acquire over the list. */
    method Find(b: nat) returns (k: int)
      ensures -1 <= k < |list|
      ensures k >= 0 ==> list[k].blockNo == b
      ensures k < 0 ==> !Has(list, b)
    {
      k := 0;
      while k < |list|
        invariant 0 <= k <= |list|
        invariant forall i :: 0 <= i < k ==> list[i].blockNo != b
      {
        if list[k].blockNo == b { return; }
        k := k + 1;
      }
      k := -1;
    }

    /** cache_acquire, found in the cache: mark it held and move it to the front. */
    method AcquireHit(k: nat, blk: Block)
      requires CacheOk() && k < |list| && blk == list[k] && !blk.acquired
      modifies this`list, blk`acquired
      ensures CacheOk() && blk.acquired
      ensures list == [blk] + old(list)[..k] + old(list)[k + 1..]
      ensures forall x :: x in list ==> x in old(list)
      ensures forall x :: x in old(list) ==> x in list
    {
      blk.acquired := true;
      FrontOk(list, k);
      list := list[..k] + list[k + 1..];
      list := [blk] + list;
      assert list == [blk] + old(list)[..k] + old(list)[k + 1..];
    }

    /** A fresh block, held by the caller, with the contents of the device. */
    method NewBlock(b: nat) returns (blk: Block)
      requires b < |dev.blocks|
      ensures fresh(blk) && blk.blockNo == b && blk.acquired && !blk.pinned && blk.valid
      ensures blk.data == dev.blocks[b]
    {
      blk := new Block();
      blk.blockNo := b;
      blk.acquired := true;
      blk.valid := true;
      blk.data := dev.Read(b);
    }

    /** cache_acquire, not in the cache: evict, allocate, read from the device. */
    method AcquireMiss(b: nat) returns (blk: Block)
      requires CacheOk() && b < |dev.blocks| && !Has(list, b)
      modifies this`list, this`blockNum
      ensures CacheOk()
      ensures fresh(blk) && blk.blockNo == b && blk.acquired && !blk.pinned && blk.data == dev.blocks[b]
      ensures |list| > 0 && list[0] == blk
      ensures forall x :: x in list && x != blk ==> x in old(list)
      ensures forall x :: x in old(list) && IsBusy(x) ==> x in list
      ensures blockNum <= EVICTION_THRESHOLD || blockNum == |old(Busy(list))| + 1
    {
      hide ListOk, Has;
      ghost var all := list;
      ghost var p := ManageBlockNum();
      EvictOk(all, p);
      MissOk(all, list, b);
      blk := NewBlock(b);
      assert ListOk(list) && !Has(list, b);
      ConsOk(list, blk);
      blockNum := blockNum + 1;
      list := [blk] + list;
    }

    /** cache_acquire. The caller gets the synced contents of the block, cached or not; after a miss
        the cache is within its threshold unless every block in it is busy. */
    method Acquire(b: nat) returns (blk: Block)
      requires CacheOk() && b < |dev.blocks| && !Held(b)
      modifies this`list, this`blockNum, (set x | x in list && x.blockNo == b)`acquired
      ensures CacheOk()
      ensures blk in list && blk.blockNo == b && blk.acquired && (blk in old(list) || fresh(blk))
      ensures b != sb.logStart ==> blk.data == synced[b]
      ensures forall x :: x in list && x != blk ==> x in old(list)
      ensures forall x :: x in old(list) && old(IsBusy(x)) ==> x in list
      ensures forall x :: x in old(list) && x != blk ==> unchanged(x)
      ensures forall c: nat {:trigger Held(c)} :: c != b && Held(c) ==> old(Held(c))
      ensures !old(Has(list, b)) ==> blockNum <= EVICTION_THRESHOLD || blockNum == |old(Busy(list))| + 1
    {
      hide ListOk;
      var k := Find(b);
      if k >= 0 {
        blk := list[k];
        HitData(list, blk);
        OnlyOne(list, blk);
        AcquireHit(k, blk);
      } else {
        MissOk(list, list, b);
        blk := AcquireMiss(b);
      }
    }

    lemma OnlyOne(l: seq<Block>, blk: Block)
      requires ListOk(l) && blk in l
      ensures forall x :: x in l && x.blockNo == blk.blockNo ==> x == blk
    {
    }

    lemma EntryValid(l: seq<Block>, blk: Block)
      requires ListOk(l) && blk in l
      ensures blk.valid && blk.blockNo < |synced| && (blk.pinned <==> blk.blockNo in dirty)
    {
      assert EntryOk(blk);
    }

    lemma HitData(l: seq<Block>, blk: Block)
      requires ListOk(l) && blk in l
      ensures EntryOk(blk)
    {
    }

    /** cache_release, by a client that has synced whatever it changed. */
    method Release(blk: Block)
      requires CacheOk() && blk in list
      requires blk.blockNo != sb.logStart ==> blk.data == synced[blk.blockNo]
      modifies blk`acquired
      ensures CacheOk() && !blk.acquired
    {
      blk.acquired := false;
    }

    // ----- operations and log space

    /** cache_begin_op: one test of the loop condition; false means the caller sleeps and retries. */
    method BeginOp(ctx: OpContext) returns (admitted: bool)
      requires Valid() && ctx !in running
      modifies this`outstanding, this`running, ctx
      ensures Valid()
      ensures admitted <==> hdr[0] + (|old(running)| + 1) * OP_MAX_NUM_BLOCKS < LOG_MAX_SIZE
      ensures running == if admitted then old(running) + [ctx] else old(running)
      ensures ctx.rm == OP_MAX_NUM_BLOCKS
    {
      hide ListOk, DiskOk, WellFormed, LogOk, Budget;
      ctx.rm := OP_MAX_NUM_BLOCKS;
      assert Rms(running) == old(Rms(running));
      admitted := !(LOG_MAX_SIZE <= hdr[0] + (outstanding + 1) * OP_MAX_NUM_BLOCKS);
      if admitted {
        BudgetBegin(hdr[0], Rms(running));
        outstanding := outstanding + 1;
        running := running + [ctx];
        assert Rms(running) == old(Rms(running)) + [OP_MAX_NUM_BLOCKS];
      }
    }

    /** The loop of cache_sync over the log header. */
    method IsLogged(b: nat) returns (exist: bool)
      requires hdr[0] < LOG_MAX_SIZE
      ensures exist <==> b in Logged()
    {
      exist := false;
      var i := 0;
      while i < hdr[0]
        invariant 0 <= i <= hdr[0]
        invariant b !in Logged()[..i]
      {
        if b == hdr[1 + i] {
          assert Logged()[i] == b;
          return true;
        }
        assert Logged()[..i + 1] == Logged()[..i] + [hdr[1 + i]];
        i := i + 1;
      }
      assert Logged()[..i] == Logged();
    }

    /** One more block number in the header. */
    lemma LogSnocOk(before: WordArray, nos: seq<nat>, b: U64)
      requires before[0] == |nos| && |nos| + 1 < LOG_MAX_SIZE && before[1..1 + |nos|] == nos
      requires Homes(sb, nos) && b !in nos && b < sb.numBlocks && !sb.InLog(b)
      ensures var after := before[1 + |nos| := b][0 := |nos| + 1];
              after[1..1 + after[0]] == nos + [b] && Homes(sb, nos + [b])
    {
    }

    /** header.block_no[header.num_blocks++] = b. */
    method AppendNo(b: nat)
      requires LogOk() && b !in Logged() && b < sb.numBlocks && !sb.InLog(b) && sb.Valid()
      modifies this`hdr, this`dirty
      ensures hdr[0] == old(hdr[0]) + 1 && dirty == old(dirty) + {b}
      ensures hdr[0] < LOG_MAX_SIZE ==> LogOk() && Logged() == old(Logged()) + [b]
    {
      hide Homes;
      if hdr[0] + 1 < LOG_MAX_SIZE { LogSnocOk(hdr, Logged(), b); }
      hdr := hdr[1 + hdr[0] := b][0 := hdr[0] + 1];
      dirty := dirty + {b};
    }

    /** cache_sync of a block that is not yet in the log header. */
    method AppendLog(ctx: OpContext, b: nat) returns (panicked: bool)
      requires LogOk() && OpsOk() && ctx in running
      requires b !in Logged() && b < sb.numBlocks && !sb.InLog(b) && sb.Valid()
      modifies this`hdr, this`dirty, ctx
      ensures panicked <==> old(ctx.rm) == 0
      ensures !panicked ==> LogOk() && OpsOk() && Logged() == old(Logged()) + [b]
      ensures !panicked ==> dirty == old(dirty) + {b} && ctx.rm == old(ctx.rm) - 1
    {
      hide LogOk, Budget, Logged, Rms;
      ghost var k :| 0 <= k < |running| && running[k] == ctx;
      ghost var n, rms := hdr[0], Rms(running);
      if ctx.rm > 0 { BudgetSpend(n, rms, k); }
      AppendNo(b);
      if ctx.rm <= 0 || hdr[0] >= LOG_MAX_SIZE {
        return true;
      }
      Spend(ctx, running, k);
      panicked := false;
    }

    /** cache_sync, the part about the log header. */
    method LogBlock(ctx: OpContext, b: nat) returns (panicked: bool)
      requires LogOk() && OpsOk() && ctx in running && b < sb.numBlocks && !sb.InLog(b) && sb.Valid()
      modifies this`hdr, this`dirty, ctx
      ensures panicked <==> RunsOut(old(ctx.rm), old(dirty), b)
      ensures !panicked ==> LogOk() && OpsOk() && dirty == old(dirty) + {b}
      ensures !panicked ==> ctx.rm == Remaining(old(ctx.rm), old(dirty), b)
    {
      hide Homes, OpsOk;
      var exist := IsLogged(b);
      if exist {
        assert dirty == dirty + {b};
        panicked := false;
      } else {
        panicked := AppendLog(ctx, b);
      }
    }

    /** Pinning a block that is in the log header, with its contents as the synced ones. */
    lemma SyncOk(l: seq<Block>, blk: Block, wasDirty: set<nat>, was: Image)
      requires blk in l && DistinctNos(l) && blk.valid && blk.pinned && blk.acquired && blk.blockNo < |was|
      requires forall x :: x in l && x != blk ==> EntryIs(sb.logStart, x, wasDirty, was)
      requires forall b :: b in wasDirty ==> Has(l, b)
      requires dirty == wasDirty + {blk.blockNo} && synced == was[blk.blockNo := blk.data]
      ensures ListOk(l)
    {
      assert Has(l, blk.blockNo);
    }

    /** cache_sync of a held block by a running operation. It stops the machine exactly when the
        block is new to the log and the operation has used up its reservation; the log itself is
        never full. */
    method Sync(ctx: OpContext, blk: Block) returns (panicked: bool)
      requires Valid() && ctx in running
      requires blk in list && blk.acquired && !sb.InLog(blk.blockNo)
      modifies this`hdr, this`dirty, this`synced, blk`pinned, ctx
      ensures panicked <==> RunsOut(old(ctx.rm), old(dirty), blk.blockNo)
      ensures !panicked ==> Valid() && synced == old(synced)[blk.blockNo := blk.data]
      ensures !panicked ==> dirty == old(dirty) + {blk.blockNo}
      ensures !panicked ==> ctx.rm == Remaining(old(ctx.rm), old(dirty), blk.blockNo)
    {
      hide LogOk, WellFormed, OpsOk, EntryIs, Has;
      ghost var wasDirty, was := dirty, synced;
      EntryValid(list, blk);
      blk.pinned := true;
      panicked := LogBlock(ctx, blk.blockNo);
      if !panicked {
        synced := synced[blk.blockNo := blk.data];
        SyncOk(list, blk, wasDirty, was);
      }
    }

    /** How a client reads a block: acquire, look, release. */
    method ReadOut(b: nat) returns (data: BlockData)
      requires Valid() && b < |dev.blocks| && b != sb.logStart && !Held(b)
      modifies this`list, this`blockNum, list`acquired
      ensures Valid() && data == synced[b] && !Held(b)
      ensures forall k :: 0 <= k < |list| ==> list[k] in old(list) || fresh(list[k])
    {
      hide ListOk, DiskOk, LogOk, Budget, WellFormed;
      var blk := Acquire(b);
      data := blk.data;
      Release(blk);
      OnlyOneHeld(list, blk);
    }

    /** How a client changes a block: acquire, write, sync, release. Over any sequence of these two the cache is
        one array of blocks, whatever it evicts. */
    method Update(ctx: OpContext, b: nat, data: BlockData) returns (panicked: bool)
      requires Valid() && ctx in running && b < |dev.blocks| && !sb.InLog(b) && !Held(b)
      modifies this`list, this`blockNum, this`hdr, this`dirty, this`synced, ctx, list`acquired, list`pinned, list`data
      ensures panicked <==> RunsOut(old(ctx.rm), old(dirty), b)
      ensures !panicked ==> Valid() && synced == old(synced)[b := data] && dirty == old(dirty) + {b} && !Held(b)
      ensures forall k :: 0 <= k < |list| ==> list[k] in old(list) || fresh(list[k])
    {
      hide ListOk, DiskOk, LogOk, OpsOk, WellFormed, LoggedNos, Has, IsBusy;
      var blk := Acquire(b);
      Overwrite(blk, data);
      EntryValid(list, blk);
      panicked := Sync(ctx, blk);
      if !panicked {
        Release(blk);
        OnlyOneHeld(list, blk);
      }
    }

    /** The holder of a block changes its bytes. */
    method Overwrite(blk: Block, data: BlockData)
      requires CacheOk() && blk in list && blk.acquired
      modifies blk`data
      ensures CacheOk() && blk.data == data
    {
      blk.data := data;
    }

    lemma OnlyOneHeld(l: seq<Block>, blk: Block)
      requires l == list && ListOk(l) && blk in l && !blk.acquired
      ensures !Held(blk.blockNo)
    {
      OnlyOne(l, blk);
    }

    // ----- commit and recovery

    /** The contents of a held block that is not dirty become the synced ones. */
    lemma OverwriteOk(l: seq<Block>, t: Block, was: Image)
      requires t in l && DistinctNos(l) && t.acquired && t.valid && t.blockNo < |was| && t.blockNo !in dirty
      requires !t.pinned
      requires forall x :: x in l && x != t ==> EntryIs(sb.logStart, x, dirty, was)
      requires forall b :: b in dirty ==> Has(l, b)
      requires synced == was[t.blockNo := t.data]
      ensures ListOk(l)
    {
    }

    /** device_write of a held block that is not part of the log. */
    method WriteThrough(t: Block)
      requires CacheOk() && t in list && t.acquired && t.blockNo !in dirty && t.blockNo != sb.logStart
      modifies this`synced, dev
      ensures CacheOk()
      ensures dev.blocks == old(dev.blocks)[t.blockNo := t.data] && synced == old(synced)[t.blockNo := t.data]
      ensures dev.log == old(dev.log) + [Write(t.blockNo, t.data)]
    {
      hide EntryIs, Has;
      ghost var was := synced;
      EntryValid(list, t);
      dev.WriteBlock(t.blockNo, t.data);
      synced := synced[t.blockNo := t.data];
      OverwriteOk(list, t, was);
    }

    /** copy_block: through the cache, from one block to another, and to the device. */
    method CopyBlock(from: nat, to: nat)
      requires CacheOk() && from != to && from < |dev.blocks| && to < |dev.blocks|
      requires from != sb.logStart && to != sb.logStart && to !in dirty && !Held(from) && !Held(to)
      modifies this`list, this`blockNum, this`synced, dev, list`acquired, list`data
      ensures CacheOk()
      ensures dev.blocks == old(dev.blocks)[to := old(synced)[from]]
      ensures dev.log == old(dev.log) + [Write(to, old(synced)[from])]
      ensures synced == old(synced)[to := old(synced)[from]]
      ensures forall k :: 0 <= k < |list| ==> list[k] in old(list) || fresh(list[k])
      ensures forall x :: x in list && x.acquired ==> x in old(list) && old(x.acquired)
    {
      hide ListOk;
      var f := Acquire(from);
      var t := Acquire(to);
      CopyData(f, t);
      WriteThrough(t);
      Release(f);
      Release(t);
    }

    /** The byte loop of copy_block. */
    method CopyData(f: Block, t: Block)
      requires CacheOk() && t in list && t.acquired && f != t
      modifies t`data
      ensures CacheOk() && t.data == f.data
    {
      hide DiskOk;
      var j := 0;
      while j < BLOCK_SIZE
        invariant 0 <= j <= BLOCK_SIZE
        invariant forall i :: 0 <= i < j ==> t.data[i] == f.data[i]
        invariant CacheOk()
      {
        t.data := t.data[j := f.data[j]];
        j := j + 1;
      }
    }

    /** Nobody holds a block that a commit has to copy: a dirty block or a block of the log area. */
    ghost predicate Quiet()
      reads this`list, this`dirty, list
    {
      forall x :: x in list && x.acquired ==> x.blockNo !in dirty && !sb.InLog(x.blockNo)
    }

    /** Where the i-th logged block and its slot lie. */
    lemma SlotPlaces(i: nat)
      requires CacheOk() && LogOk() && i < hdr[0]
      ensures var b, slot := hdr[1 + i], sb.logStart + 1 + i;
              && b == Logged()[i] && b < |dev.blocks| == |synced| && !sb.InLog(b) && b in dirty
              && sb.logStart < slot < |dev.blocks| && sb.InLog(slot) && slot !in dirty
    {
    }

    lemma LogSmall()
      requires LogOk()
      ensures hdr[0] < LOG_MAX_SIZE && |Logged()| == hdr[0]
    {
    }

    lemma LoggedHomes()
      requires LogOk()
      ensures forall i :: 0 <= i < |Logged()| ==> !sb.InLog(Logged()[i])
    {
    }

    lemma LoggedDistinct()
      requires LogOk()
      ensures hdr[0] < LOG_MAX_SIZE && |Logged()| == hdr[0] && NoDup(Logged())
      ensures forall b :: b in dirty ==> b in Logged()
      ensures forall b :: b in Logged() ==> b in dirty
    {
    }

    lemma HomeWriteAt(nos: seq<nat>, i: nat)
      requires i < |nos| && forall k :: 0 <= k < |nos| ==> nos[k] < |synced|
      ensures HomeWrites(Group(nos, Contents(nos, synced)))[i] == Write(nos[i], synced[nos[i]])
    {
    }

    lemma LoggedInRange()
      requires DiskOk() && LogOk()
      ensures |synced| == |dev.blocks|
      ensures forall i :: 0 <= i < |Logged()| ==> Logged()[i] < |synced| && Logged()[i] != sb.logStart
    {
    }

    lemma NotHeld(b: nat)
      requires Quiet() && (b in dirty || sb.InLog(b))
      ensures !Held(b)
    {
    }

    /** One slot write of the commit. */
    method CopySlot(i: nat)
      requires CacheOk() && LogOk() && Quiet() && i < hdr[0]
      modifies this`list, this`blockNum, this`synced, dev, list`acquired, list`data
      ensures CacheOk() && Quiet()
      ensures forall k :: 0 <= k < |list| ==> list[k] in old(list) || fresh(list[k])
      ensures |synced| == |old(synced)| == |dev.blocks| && hdr[1 + i] < |synced|
      ensures forall b :: 0 <= b < |synced| && !sb.InLog(b) ==> synced[b] == old(synced[b])
      ensures var w := Write(sb.logStart + 1 + i, synced[hdr[1 + i]]);
              w.no < |dev.blocks| && dev.log == old(dev.log) + [w] && dev.blocks == old(dev.blocks)[w.no := w.data]
    {
      hide ListOk, DiskOk, LogOk;
      assert hdr[0] < LOG_MAX_SIZE by { LogSmall(); }
      SlotPlaces(i);
      NotHeld(hdr[1 + i]);
      NotHeld(sb.logStart + 1 + i);
      CopyBlock(hdr[1 + i], sb.logStart + 1 + i);
    }

    /** end_op, first loop: copy every logged block into its slot. */
    method CopySlots()
      requires CacheOk() && LogOk() && Quiet()
      modifies this`list, this`blockNum, this`synced, dev, list`acquired, list`data
      ensures CacheOk() && Quiet()
      ensures forall k :: 0 <= k < |list| ==> list[k] in old(list) || fresh(list[k])
      ensures |synced| == |old(synced)|
      ensures forall b :: 0 <= b < |synced| && !sb.InLog(b) ==> synced[b] == old(synced[b])
      ensures forall i :: 0 <= i < |Logged()| ==> Logged()[i] < |synced|
      ensures var ws := SlotWrites(sb, Contents(Logged(), synced));
              dev.log == old(dev.log) + ws && dev.blocks == Apply(old(dev.blocks), ws)
    {
      hide ListOk, DiskOk, LogOk, Apply;
      LogSmall();
      LoggedInRange();
      ghost var data := Contents(Logged(), synced);
      ghost var ws := SlotWrites(sb, data);
      var i := 0;
      ApplyNone(dev.blocks, ws);
      while i < hdr[0]
        invariant 0 <= i <= hdr[0]
        invariant CacheOk() && Quiet()
        invariant forall k :: 0 <= k < |list| ==> list[k] in old(list) || fresh(list[k])
        invariant |synced| == |old(synced)|
        invariant forall b :: 0 <= b < |synced| && !sb.InLog(b) ==> synced[b] == old(synced[b])
        invariant dev.log == old(dev.log) + ws[..i] && dev.blocks == Apply(old(dev.blocks), ws[..i])
      {
        SlotPlaces(i);
        CopySlot(i);
        assert ws[i] == Write(sb.logStart + 1 + i, data[i]);
        ApplyNext(old(dev.blocks), ws, i);
        i := i + 1;
      }
      assert ws[..i] == ws;
      assert data == Contents(Logged(), synced) by { LoggedHomes(); }
    }

    /** Unpinning a block whose contents have reached its home. */
    lemma UnpinOk(l: seq<Block>, blk: Block, wasDirty: set<nat>)
      requires blk in l && DistinctNos(l) && blk.valid && !blk.pinned && blk.acquired && blk.blockNo < |synced|
      requires forall x :: x in l && x != blk ==> EntryIs(sb.logStart, x, wasDirty, synced)
      requires forall b :: b in wasDirty ==> Has(l, b)
      requires dirty == wasDirty - {blk.blockNo}
      ensures ListOk(l)
    {
    }

    /** device_write of a held dirty block to its home, and unpin. */
    method WriteHome(blk: Block)
      requires CacheOk() && blk in list && blk.acquired && blk.blockNo in dirty && blk.blockNo != sb.logStart
      requires blk.data == synced[blk.blockNo]
      modifies this`dirty, dev, blk`pinned
      ensures CacheOk() && dirty == old(dirty) - {blk.blockNo}
      ensures dev.blocks == old(dev.blocks)[blk.blockNo := synced[blk.blockNo]]
      ensures dev.log == old(dev.log) + [Write(blk.blockNo, synced[blk.blockNo])]
    {
      hide EntryIs, Has;
      ghost var wasDirty := dirty;
      EntryValid(list, blk);
      dev.WriteBlock(blk.blockNo, blk.data);
      blk.pinned := false;
      dirty := dirty - {blk.blockNo};
      UnpinOk(list, blk, wasDirty);
    }

    /** One home write of the commit. */
    method InstallHome(b: nat)
      requires CacheOk() && Quiet() && b in dirty && b != sb.logStart
      requires b < |synced|
      modifies this`list, this`blockNum, this`dirty, dev, list`acquired, list`pinned
      ensures CacheOk() && Quiet() && dirty == old(dirty) - {b} && b < |dev.blocks|
      ensures forall k :: 0 <= k < |list| ==> list[k] in old(list) || fresh(list[k])
      ensures dev.blocks == old(dev.blocks)[b := synced[b]]
      ensures dev.log == old(dev.log) + [Write(b, synced[b])]
    {
      hide ListOk;
      NotHeld(b);
      var blk := Acquire(b);
      WriteHome(blk);
      Release(blk);
    }

    /** end_op, second loop: write every logged block to its home. */
    method InstallHomes()
      requires CacheOk() && LogOk() && Quiet()
      modifies this`list, this`blockNum, this`dirty, dev, list`acquired, list`pinned
      ensures CacheOk() && Quiet() && dirty == {}
      ensures forall k :: 0 <= k < |list| ==> list[k] in old(list) || fresh(list[k])
      ensures forall i :: 0 <= i < |Logged()| ==> Logged()[i] < |synced|
      ensures var ws := HomeWrites(Group(Logged(), Contents(Logged(), synced)));
              dev.log == old(dev.log) + ws && dev.blocks == Apply(old(dev.blocks), ws)
    {
      hide ListOk, DiskOk, Apply, LogOk, HomeWrites;
      LoggedInRange();
      LoggedDistinct();
      ghost var nos := Logged();
      ghost var ws := HomeWrites(Group(nos, Contents(nos, synced)));
      var i := 0;
      ApplyNone(dev.blocks, ws);
      while i < hdr[0]
        invariant 0 <= i <= hdr[0]
        invariant CacheOk() && Quiet()
        invariant forall k :: 0 <= k < |list| ==> list[k] in old(list) || fresh(list[k])
        invariant forall b :: b in dirty ==> b in nos[i..]
        invariant forall b :: b in nos[i..] ==> b in dirty
        invariant |dev.blocks| == |old(dev.blocks)|
        invariant dev.log == old(dev.log) + ws[..i] && dev.blocks == Apply(old(dev.blocks), ws[..i])
      {
        assert hdr[1 + i] == nos[i] && nos[i..] == [nos[i]] + nos[i + 1..];
        InstallHome(hdr[1 + i]);
        HomeWriteAt(nos, i);
        ApplyNext(old(dev.blocks), ws, i);
        i := i + 1;
      }
      assert ws[..i] == ws && nos[i..] == [];
    }

    /** write_header: straight to the device. */
    method WriteHeader()
      requires CacheOk()
      modifies dev
      ensures CacheOk() && sb.logStart < |old(dev.blocks)|
      ensures dev.blocks == old(dev.blocks)[sb.logStart := Encode(hdr)]
      ensures dev.log == old(dev.log) + [Write(sb.logStart, Encode(hdr))]
    {
      hide ListOk;
      dev.WriteBlock(sb.logStart, Encode(hdr));
    }

    /** The group that a commit makes durable: every logged block with its synced contents. */
    ghost function PendingGroup(): (g: Group)
      requires DiskOk() && LogOk()
      reads this`hdr, this`dirty, this`synced, dev`blocks
      ensures g.Valid(sb) && g.ListedBy(hdr)
    {
      LoggedInRange();
      Group(Logged(), Contents(Logged(), synced))
    }

    /** That group takes the home blocks from what is on disk to what is synced. */
    lemma PendingInstalls()
      requires DiskOk() && LogOk()
      ensures Install(HomeBlocks(sb, dev.blocks), PendingGroup()) == HomeBlocks(sb, synced)
    {
      hide Homes;
      LoggedDistinct();
      LoggedInRange();
      var g := PendingGroup();
      var v, w := Install(HomeBlocks(sb, dev.blocks), g), HomeBlocks(sb, synced);
      assert v.Keys == w.Keys;
      forall b | b in v ensures v[b] == w[b] {
        if b in g.nos {
          var i :| 0 <= i < |g.nos| && g.nos[i] == b;
        }
      }
    }

    /** The committing branch of cache_end_op. */
    method Commit(ghost g: Group)
      requires CacheOk() && LogOk() && Quiet() && g == PendingGroup()
      modifies this`list, this`blockNum, this`hdr, this`dirty, this`synced, dev
      modifies list`acquired, list`pinned, list`data
      ensures CacheOk() && LogOk() && Quiet() && dirty == {}
      ensures hdr == old(hdr)[0 := 0]
      ensures forall k :: 0 <= k < |list| ==> list[k] in old(list) || fresh(list[k])
      ensures |synced| == |old(synced)|
      ensures forall b :: 0 <= b < |synced| && !sb.InLog(b) ==> synced[b] == old(synced[b])
      ensures dev.log == old(dev.log) + CommitWrites(sb, g, old(hdr))
      ensures dev.blocks == Apply(old(dev.blocks), CommitWrites(sb, g, old(hdr)))
    {
      hide ListOk, DiskOk, LogOk, Apply, Contents, HomeWrites, SlotWrites;
      ghost var d, nos := dev.blocks, Logged();
      ghost var h, h0 := Write(sb.logStart, Encode(hdr)), Write(sb.logStart, Encode(hdr[0 := 0]));
      LoggedHomes();
      CopySlots();
      ContentsSame(nos, old(synced), synced);
      WriteHeader();
      ApplySnoc(d, SlotWrites(sb, g.data), h);
      InstallHomes();
      ApplyConcat(d, SlotWrites(sb, g.data) + [h], HomeWrites(g));
      hdr := hdr[0 := 0];
      WriteHeader();
      ApplySnoc(d, SlotWrites(sb, g.data) + [h] + HomeWrites(g), h0);
      EmptyLogOk();
    }

    lemma ContentsSame(nos: seq<nat>, a: Image, b: Image)
      requires |a| == |b| && forall i :: 0 <= i < |nos| ==> nos[i] < |a| && a[nos[i]] == b[nos[i]]
      ensures Contents(nos, a) == Contents(nos, b)
    {
    }

    lemma EmptyLogOk()
      requires hdr[0] == 0 && dirty == {}
      ensures LogOk()
    {
    }

    /** What a crash during the writes of a commit can leave: after any k of them, recovery presents
        either everything as before or the whole group installed. */
    ghost predicate AtomicCommit(d: Image, g: Group, ws: seq<Write>)
      requires WellFormed(sb, d) && g.Valid(sb)
    {
      forall k :: 0 <= k <= |ws| ==>
        && WellFormed(sb, Apply(d, ws[..k]))
        && View(sb, Apply(d, ws[..k])) == (if k <= |g.nos| then View(sb, d) else Install(View(sb, d), g))
    }

    lemma CommitAtomic(d: Image, g: Group, words: WordArray)
      requires WellFormed(sb, d) && LoggedNos(sb, d) == [] && g.Valid(sb) && g.ListedBy(words)
      ensures AtomicCommit(d, g, CommitWrites(sb, g, words))
      ensures var e := Apply(d, CommitWrites(sb, g, words));
              WellFormed(sb, e) && LoggedNos(sb, e) == [] && View(sb, e) == Install(View(sb, d), g)
    {
      hide View, WellFormed, Install, CommitWrites;
      forall k | 0 <= k <= 2 * |g.nos| + 2
        ensures WellFormed(sb, Apply(d, CommitWrites(sb, g, words)[..k]))
        ensures View(sb, Apply(d, CommitWrites(sb, g, words)[..k])) ==
                (if k <= |g.nos| then View(sb, d) else Install(View(sb, d), g))
      {
        CommitIsAtomic(sb, d, g, words, k);
      }
      CommitCompletes(sb, d, g, words);
    }

    /** log.outstanding--, and ctx is no longer a running operation. */
    method DropOp(ctx: OpContext) returns (ghost k: nat)
      requires OpsOk() && ctx in running
      modifies this`outstanding, this`running
      ensures k < |old(running)| && old(running)[k] == ctx && outstanding == |running|
      ensures running == old(running)[..k] + old(running)[k + 1..]
      ensures running != [] ==> OpsOk()
    {
      hide Budget, Rms;
      k :| 0 <= k < |running| && running[k] == ctx;
      BudgetEnd(hdr[0], Rms(running), k);
      OpsRemove(running, k);
      outstanding := outstanding - 1;
      running := running[..k] + running[k + 1..];
    }

    lemma OpsRemove(ops: seq<OpContext>, k: nat)
      requires k < |ops| && DistinctOps(ops)
      ensures DistinctOps(ops[..k] + ops[k + 1..])
      ensures Rms(ops[..k] + ops[k + 1..]) == Rms(ops)[..k] + Rms(ops)[k + 1..]
    {
      hide Rms;
      var r, q := ops[..k] + ops[k + 1..], Rms(ops)[..k] + Rms(ops)[k + 1..];
      forall i | 0 <= i < |r| ensures r[i] == ops[if i < k then i else i + 1] && Rms(r)[i] == q[i] {
        assert Rms(r)[i] == r[i].rm;
      }
      assert Rms(r) == q;
    }

    /** cache_end_op. While other operations run it only gives back log space. The last operation
        commits the whole group: the device sees exactly the writes of the commit, whatever prefix of
        them survives a crash is all or nothing, and afterwards everything synced is on disk. */
    method EndOp(ctx: OpContext) returns (ghost k: nat)
      requires Valid() && ctx in running && (|running| == 1 ==> Quiet())
      modifies this`list, this`blockNum, this`hdr, this`dirty, this`synced, this`outstanding, this`running, dev
      modifies list`acquired, list`pinned, list`data
      ensures Valid()
      ensures k < |old(running)| && old(running)[k] == ctx
      ensures running == old(running)[..k] + old(running)[k + 1..]
      ensures |old(running)| > 1 ==>
                && unchanged(dev) && unchanged(this`list) && unchanged(this`hdr) && unchanged(this`dirty)
                && unchanged(this`synced) && forall x :: x in old(list) ==> unchanged(x)
      ensures |old(running)| == 1 ==>
                && dirty == {} && dev.log == old(dev.log) + CommitWrites(sb, old(PendingGroup()), old(hdr))
                && AtomicCommit(old(dev.blocks), old(PendingGroup()), CommitWrites(sb, old(PendingGroup()), old(hdr)))
                && View(sb, dev.blocks) == Install(View(sb, old(dev.blocks)), old(PendingGroup()))
                && Install(HomeBlocks(sb, old(dev.blocks)), old(PendingGroup())) == HomeBlocks(sb, old(synced))
                && |synced| == |old(synced)| == |dev.blocks|
                && forall b :: 0 <= b < |synced| && !sb.InLog(b) ==> synced[b] == old(synced[b]) == dev.blocks[b]
    {
      hide ListOk, WellFormed, Apply, View, CommitWrites, Install, LogOk, Budget, DiskOk, HomeBlocks;
      PendingInstalls();
      k := DropOp(ctx);
      if outstanding > 0 {
        return;
      }
      ghost var g := PendingGroup();
      CommitAtomic(dev.blocks, g, hdr);
      Commit(g);
      NoOps();
      NothingDirty();
    }

    lemma NoOps()
      requires running == [] && outstanding == 0 && hdr[0] == 0
      ensures OpsOk()
    {
    }

    lemma NothingDirty()
      requires DiskOk() && dirty == {}
      ensures |synced| == |dev.blocks|
      ensures forall b :: 0 <= b < |synced| && !sb.InLog(b) ==> synced[b] == dev.blocks[b]
    {
    }
  }
}
