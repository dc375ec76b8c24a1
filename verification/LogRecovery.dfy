/**
 Crash atomicity of the write-ahead log (src/fs/cache.c, cache_end_op and init_bcache), as a
 theory of disk images: what the disk holds if the machine stops after any prefix of the writes
 of a commit, or of any number of interrupted recoveries, and what the next recovery makes of it.
 */
module LogRecovery {
  import opened Basics
  import opened Words
  import opened Disk

  /** Distinct home blocks, none of them inside the log area, few enough to have a slot each. */
  ghost predicate Homes(sb: SuperBlock, nos: seq<nat>) {
    && |nos| < LOG_MAX_SIZE
    && NoDup(nos)
    && forall i :: 0 <= i < |nos| ==> nos[i] < sb.numBlocks && !sb.InLog(nos[i])
  }

  /** The block numbers that a header block lists: its first word says how many follow. */
  function Listed(h: BlockData): (nos: seq<nat>)
  {
    var ws := Decode(h);
    if ws[0] < LOG_MAX_SIZE then ws[1..1 + ws[0]] else []
  }

  ghost predicate GoodHeader(sb: SuperBlock, h: BlockData) {
    Decode(h)[0] < LOG_MAX_SIZE && Homes(sb, Listed(h))
  }

  /** A disk that a crash may leave behind: of the right size, with a readable log header. */
  ghost predicate WellFormed(sb: SuperBlock, d: Image) {
    sb.Valid() && |d| == sb.numBlocks && GoodHeader(sb, d[sb.logStart])
  }

  /** The homes listed by the on-disk header. */
  ghost function LoggedNos(sb: SuperBlock, d: Image): (nos: seq<nat>)
    requires sb.logStart < |d|
  {
    Listed(d[sb.logStart])
  }

  /** The contents of the first n log slots. */
  function Slots(sb: SuperBlock, d: Image, n: nat): (data: seq<BlockData>)
    requires sb.logStart + 1 + n <= |d|
    ensures |data| == n
  {
    d[sb.logStart + 1..sb.logStart + 1 + n]
  }

  // ----- groups of blocks

  /** The distinct blocks that one group commit makes durable, with their new contents. */
  datatype Group = Group(nos: seq<nat>, data: seq<BlockData>) {
    ghost predicate Valid(sb: SuperBlock) {
      |nos| == |data| && Homes(sb, nos)
    }

    /** The words of the header block that lists this group. */
    ghost predicate ListedBy(hdr: WordArray)
      requires |nos| < LOG_MAX_SIZE
    {
      hdr[0] == |nos| && hdr[1..1 + |nos|] == nos
    }

    /** The new contents of b, or other when the group does not hold b. */
    ghost function Lookup(b: nat, other: BlockData): (r: BlockData)
      requires |nos| == |data| && NoDup(nos)
      ensures b !in nos ==> r == other
      ensures forall i :: 0 <= i < |nos| && nos[i] == b ==> r == data[i]
    {
      if i :| 0 <= i < |nos| && nos[i] == b then data[i] else other
    }
  }

  /** The contents v with the blocks of the group replaced. */
  ghost function Install(v: map<nat, BlockData>, g: Group): (r: map<nat, BlockData>)
    requires |g.nos| == |g.data| && NoDup(g.nos)
  {
    map b | b in v :: g.Lookup(b, v[b])
  }

  /** The group that the header and the slots of a disk describe. */
  ghost function LoggedGroup(sb: SuperBlock, d: Image): (g: Group)
    requires WellFormed(sb, d)
    ensures g.Valid(sb)
  {
    assert Homes(sb, LoggedNos(sb, d));
    Group(LoggedNos(sb, d), Slots(sb, d, |LoggedNos(sb, d)|))
  }

  /** The contents of every block outside the log area. */
  ghost function HomeBlocks(sb: SuperBlock, d: Image): (v: map<nat, BlockData>)
  {
    map b: nat | b < |d| && !sb.InLog(b) :: d[b]
  }

  /** The file system that recovery would present: home blocks, with the logged group installed. */
  ghost function View(sb: SuperBlock, d: Image): (v: map<nat, BlockData>)
    requires WellFormed(sb, d)
  {
    Install(HomeBlocks(sb, d), LoggedGroup(sb, d))
  }

  lemma ViewOfEmptyLog(sb: SuperBlock, d: Image)
    requires WellFormed(sb, d) && |LoggedNos(sb, d)| == 0
    ensures View(sb, d) == HomeBlocks(sb, d)
  {
  }

  // ----- the writes of a commit

  /** end_op, first loop: copy the group into the log slots. */
  function SlotWrites(sb: SuperBlock, data: seq<BlockData>): (ws: seq<Write>)
    ensures |ws| == |data|
  {
    seq(|data|, i requires 0 <= i < |data| => Write(sb.logStart + 1 + i, data[i]))
  }

  /** end_op, second loop: write the group to its home blocks. */
  function HomeWrites(g: Group): (ws: seq<Write>)
    requires |g.nos| == |g.data|
    ensures |ws| == |g.data|
  {
    seq(|g.data|, i requires 0 <= i < |g.data| => Write(g.nos[i], g.data[i]))
  }

  /** All the device writes of a commit: slots, header, homes, cleared header. */
  function CommitWrites(sb: SuperBlock, g: Group, hdr: WordArray): (ws: seq<Write>)
    requires |g.nos| == |g.data|
    ensures |ws| == 2 * |g.nos| + 2
  {
    SlotWrites(sb, g.data) + [Write(sb.logStart, Encode(hdr))] + HomeWrites(g)
    + [Write(sb.logStart, Encode(hdr[0 := 0]))]
  }

  /** After j slot writes, the first j slots hold the data and nothing else has changed. */
  lemma {:induction false} SlotsWritten(sb: SuperBlock, d: Image, data: seq<BlockData>, j: nat)
    requires j <= |data| && sb.logStart + 1 + |data| <= |d|
    ensures var e := Apply(d, SlotWrites(sb, data)[..j]);
            && Slots(sb, e, j) == data[..j]
            && forall b :: 0 <= b < |d| && !(sb.logStart < b <= sb.logStart + j) ==> e[b] == d[b]
  {
    var ws := SlotWrites(sb, data);
    if j > 0 {
      SlotsWritten(sb, d, data, j - 1);
      assert ws[..j] == ws[..j - 1] + [ws[j - 1]];
      ApplySnoc(d, ws[..j - 1], ws[j - 1]);
      assert ws[j - 1] == Write(sb.logStart + j, data[j - 1]);
      hide Apply, Slots, SlotWrites;
      SlotsNext(sb, Apply(d, ws[..j - 1]), j, data[j - 1]);
      assert data[..j] == data[..j - 1] + [data[j - 1]];
    } else {
      assert ws[..0] == [];
    }
  }

  lemma SlotsNext(sb: SuperBlock, e: Image, j: nat, data: BlockData)
    requires 0 < j && sb.logStart + j < |e|
    ensures Slots(sb, e[sb.logStart + j := data], j) == Slots(sb, e, j - 1) + [data]
  {
  }

  /** After j home writes, the first j homes hold their new contents, nothing else has changed. */
  lemma {:induction false} HomesWritten(d: Image, g: Group, j: nat)
    requires |g.nos| == |g.data| && j <= |g.data| && NoDup(g.nos)
    requires forall i :: 0 <= i < |g.nos| ==> g.nos[i] < |d|
    ensures var e := Apply(d, HomeWrites(g)[..j]);
            && (forall i :: 0 <= i < j ==> e[g.nos[i]] == g.data[i])
            && forall b :: 0 <= b < |d| && b !in g.nos[..j] ==> e[b] == d[b]
  {
    var ws := HomeWrites(g);
    if j > 0 {
      HomesWritten(d, g, j - 1);
      assert ws[..j] == ws[..j - 1] + [ws[j - 1]];
      ApplySnoc(d, ws[..j - 1], ws[j - 1]);
      assert g.nos[..j] == g.nos[..j - 1] + [g.nos[j - 1]];
    }
  }

  /** Partly installed homes do not change what recovery presents, as long as the log is intact. */
  lemma InstallOverPartial(sb: SuperBlock, d: Image, e: Image, g: Group)
    requires |d| == |e| && |g.nos| == |g.data| && NoDup(g.nos)
    requires forall b :: 0 <= b < |d| && !sb.InLog(b) && b !in g.nos ==> e[b] == d[b]
    ensures Install(HomeBlocks(sb, e), g) == Install(HomeBlocks(sb, d), g)
  {
    var v, w := Install(HomeBlocks(sb, e), g), Install(HomeBlocks(sb, d), g);
    forall b | b in v ensures v[b] == w[b] {
      if b in g.nos {
        var i :| 0 <= i < |g.nos| && g.nos[i] == b;
      }
    }
    assert v.Keys == w.Keys;
  }

  /** Fully installed homes are the home blocks themselves. */
  lemma InstalledHomes(sb: SuperBlock, d: Image, e: Image, g: Group)
    requires |d| == |e| && g.Valid(sb) && sb.numBlocks == |d|
    requires forall b :: 0 <= b < |d| && !sb.InLog(b) && b !in g.nos ==> e[b] == d[b]
    requires forall i :: 0 <= i < |g.nos| ==> e[g.nos[i]] == g.data[i]
    ensures HomeBlocks(sb, e) == Install(HomeBlocks(sb, d), g)
  {
    var v, w := HomeBlocks(sb, e), Install(HomeBlocks(sb, d), g);
    forall b | b in v ensures v[b] == w[b] {
      if b in g.nos {
        var i :| 0 <= i < |g.nos| && g.nos[i] == b;
      }
    }
    assert v.Keys == w.Keys;
  }

  /** The header block decides which blocks count as logged. */
  lemma HeaderRead(sb: SuperBlock, e: Image, hdr: WordArray)
    requires sb.Valid() && |e| == sb.numBlocks && e[sb.logStart] == Encode(hdr)
    requires hdr[0] < LOG_MAX_SIZE && Homes(sb, hdr[1..1 + hdr[0]])
    ensures WellFormed(sb, e) && LoggedNos(sb, e) == hdr[1..1 + hdr[0]]
  {
    DecodeEncode(hdr);
  }

  /** Crash while the slots are being written: the header still lists nothing. */
  lemma CrashBeforeHeader(sb: SuperBlock, d: Image, g: Group, hdr: WordArray, k: nat)
    requires WellFormed(sb, d) && |LoggedNos(sb, d)| == 0
    requires g.Valid(sb) && k <= |g.nos|
    ensures var e := Apply(d, CommitWrites(sb, g, hdr)[..k]);
            WellFormed(sb, e) && View(sb, e) == View(sb, d)
  {
    var e := Apply(d, CommitWrites(sb, g, hdr)[..k]);
    assert CommitWrites(sb, g, hdr)[..k] == SlotWrites(sb, g.data)[..k];
    SlotsWritten(sb, d, g.data, k);
    assert e[sb.logStart] == d[sb.logStart];
    assert HomeBlocks(sb, e) == HomeBlocks(sb, d);
    ViewOfEmptyLog(sb, d);
    ViewOfEmptyLog(sb, e);
  }

  /** The disk once slots and header are written. */
  lemma HeaderWritten(sb: SuperBlock, d: Image, g: Group, hdr: WordArray) returns (e: Image)
    requires WellFormed(sb, d) && g.Valid(sb) && g.ListedBy(hdr)
    ensures e == Apply(d, SlotWrites(sb, g.data) + [Write(sb.logStart, Encode(hdr))])
    ensures |e| == |d| && e[sb.logStart] == Encode(hdr)
    ensures Slots(sb, e, |g.nos|) == g.data
    ensures forall b :: 0 <= b < |d| && !sb.InLog(b) ==> e[b] == d[b]
  {
    var ws := SlotWrites(sb, g.data);
    var n := |g.nos|;
    SlotsWritten(sb, d, g.data, n);
    assert ws[..n] == ws && g.data[..n] == g.data;
    ApplySnoc(d, ws, Write(sb.logStart, Encode(hdr)));
    e := Apply(d, ws + [Write(sb.logStart, Encode(hdr))]);
    assert Slots(sb, e, n) == Slots(sb, Apply(d, ws), n);
  }

  /** The disk after slots, header and the first j homes. */
  lemma HomesAfterHeader(sb: SuperBlock, d: Image, g: Group, hdr: WordArray, j: nat) returns (e: Image)
    requires WellFormed(sb, d) && g.Valid(sb) && g.ListedBy(hdr) && j <= |g.nos|
    ensures e == Apply(d, SlotWrites(sb, g.data) + [Write(sb.logStart, Encode(hdr))] + HomeWrites(g)[..j])
    ensures |e| == |d| && e[sb.logStart] == Encode(hdr)
    ensures Slots(sb, e, |g.nos|) == g.data
    ensures forall b :: 0 <= b < |d| && !sb.InLog(b) && b !in g.nos ==> e[b] == d[b]
    ensures forall i :: 0 <= i < j ==> e[g.nos[i]] == g.data[i]
  {
    hide Apply, Encode, Listed, GoodHeader;
    var f := HeaderWritten(sb, d, g, hdr);
    HomesWritten(f, g, j);
    ApplyConcat(d, SlotWrites(sb, g.data) + [Write(sb.logStart, Encode(hdr))], HomeWrites(g)[..j]);
    e := Apply(f, HomeWrites(g)[..j]);
    forall b | 0 <= b < |d| && (sb.InLog(b) || b !in g.nos) ensures b !in g.nos[..j] && e[b] == f[b] {
      assert b !in g.nos;
    }
    assert Slots(sb, e, |g.nos|) == Slots(sb, f, |g.nos|);
  }

  /** A prefix of three concatenated sequences that reaches into the third. */
  lemma PrefixIntoThird<T>(a: seq<T>, b: seq<T>, c: seq<T>, rest: seq<T>, j: nat)
    requires j <= |c|
    ensures (a + b + c + rest)[..|a| + |b| + j] == a + b + c[..j]
  {
  }

  /** Crash after the header: the whole group is recovered. */
  lemma CrashAfterHeader(sb: SuperBlock, d: Image, g: Group, hdr: WordArray, k: nat)
    requires WellFormed(sb, d) && |LoggedNos(sb, d)| == 0
    requires g.Valid(sb) && g.ListedBy(hdr) && |g.nos| < k < 2 * |g.nos| + 2
    ensures var e := Apply(d, CommitWrites(sb, g, hdr)[..k]);
            WellFormed(sb, e) && View(sb, e) == Install(View(sb, d), g)
  {
    hide Listed, GoodHeader, Install, HomeBlocks, HomeWrites, SlotWrites;
    var j := k - |g.nos| - 1;
    var e := HomesAfterHeader(sb, d, g, hdr, j);
    PrefixIntoThird(SlotWrites(sb, g.data), [Write(sb.logStart, Encode(hdr))], HomeWrites(g),
                    [Write(sb.logStart, Encode(hdr[0 := 0]))], j);
    HeaderRead(sb, e, hdr);
    assert LoggedGroup(sb, e) == g;
    InstallOverPartial(sb, d, e, g);
    ViewOfEmptyLog(sb, d);
  }

  /** A finished commit: the group is in place and the header is empty again. */
  lemma CommitCompletes(sb: SuperBlock, d: Image, g: Group, hdr: WordArray)
    requires WellFormed(sb, d) && |LoggedNos(sb, d)| == 0
    requires g.Valid(sb) && g.ListedBy(hdr)
    ensures var e := Apply(d, CommitWrites(sb, g, hdr));
            && WellFormed(sb, e) && |LoggedNos(sb, e)| == 0
            && View(sb, e) == Install(View(sb, d), g)
  {
    hide Listed, GoodHeader, Install, HomeWrites, SlotWrites;
    var n := |g.nos|;
    var f := HomesAfterHeader(sb, d, g, hdr, n);
    var ws := SlotWrites(sb, g.data) + [Write(sb.logStart, Encode(hdr))] + HomeWrites(g);
    assert HomeWrites(g)[..n] == HomeWrites(g);
    ApplySnoc(d, ws, Write(sb.logStart, Encode(hdr[0 := 0])));
    var e := Apply(d, CommitWrites(sb, g, hdr));
    assert e == f[sb.logStart := Encode(hdr[0 := 0])];
    HeaderRead(sb, e, hdr[0 := 0]);
    InstalledHomes(sb, d, e, g);
    ViewOfEmptyLog(sb, d);
    ViewOfEmptyLog(sb, e);
  }

  /** Crash atomicity of a commit. Whatever prefix of its writes reached the disk, recovery
      presents the old contents of every block (header not yet written) or the new contents
      of the whole group (header written), never a mixture. */
  lemma CommitIsAtomic(sb: SuperBlock, d: Image, g: Group, hdr: WordArray, k: nat)
    requires WellFormed(sb, d) && |LoggedNos(sb, d)| == 0
    requires g.Valid(sb) && g.ListedBy(hdr) && k <= 2 * |g.nos| + 2
    ensures var e := Apply(d, CommitWrites(sb, g, hdr)[..k]);
            && WellFormed(sb, e)
            && View(sb, e) == (if k <= |g.nos| then View(sb, d) else Install(View(sb, d), g))
            && (k == 2 * |g.nos| + 2 ==> |LoggedNos(sb, e)| == 0)
  {
    if k <= |g.nos| {
      CrashBeforeHeader(sb, d, g, hdr, k);
    } else if k < 2 * |g.nos| + 2 {
      CrashAfterHeader(sb, d, g, hdr, k);
    } else {
      assert CommitWrites(sb, g, hdr)[..k] == CommitWrites(sb, g, hdr);
      CommitCompletes(sb, d, g, hdr);
    }
  }

  // ----- why nobody may join a commit under way

  /** The second loop of end_op reads header.num_blocks anew in each round, with the log lock dropped in
      between. If an operation that has changed x and y syncs them during that loop, the loop goes on to
      write x and then y to their homes, though neither is in the log. */
  function LateWrites(sb: SuperBlock, g: Group, hdr: WordArray, late: Group): (ws: seq<Write>)
    requires |g.nos| == |g.data| && |late.nos| == |late.data|
  {
    SlotWrites(sb, g.data) + [Write(sb.logStart, Encode(hdr))] + HomeWrites(g) + HomeWrites(late)
  }

  /** A crash between these two writes leaves half of the operation: recovery presents x changed and y not. */
  lemma LateJoinerIsTorn(sb: SuperBlock, d: Image, g: Group, hdr: WordArray, late: Group)
    requires WellFormed(sb, d) && |LoggedNos(sb, d)| == 0 && g.Valid(sb) && g.ListedBy(hdr)
    requires late.Valid(sb) && |late.nos| == 2 && late.nos[0] !in g.nos && late.nos[1] !in g.nos
    ensures var e := Apply(d, LateWrites(sb, g, hdr, late)[..2 * |g.nos| + 2]);
            && WellFormed(sb, e) && late.nos[0] in View(sb, e) && late.nos[1] in View(sb, e)
            && View(sb, e)[late.nos[0]] == late.data[0] && View(sb, e)[late.nos[1]] == d[late.nos[1]]
  {
    hide Listed, GoodHeader, View;
    var x, y := late.nos[0], late.nos[1];
    var e := LateDisk(sb, d, g, hdr, late);
    HeaderRead(sb, e, hdr);
    assert LoggedGroup(sb, e) == g;
    ViewAt(sb, e, x);
    ViewAt(sb, e, y);
  }

  /** The disk at that crash. */
  lemma LateDisk(sb: SuperBlock, d: Image, g: Group, hdr: WordArray, late: Group) returns (e: Image)
    requires WellFormed(sb, d) && g.Valid(sb) && g.ListedBy(hdr)
    requires late.Valid(sb) && |late.nos| == 2 && late.nos[0] !in g.nos && late.nos[1] !in g.nos
    ensures e == Apply(d, LateWrites(sb, g, hdr, late)[..2 * |g.nos| + 2])
    ensures |e| == |d| && e[sb.logStart] == Encode(hdr) && Slots(sb, e, |g.nos|) == g.data
    ensures e[late.nos[0]] == late.data[0] && e[late.nos[1]] == d[late.nos[1]]
  {
    hide Listed, GoodHeader, Encode, HomeWrites, SlotWrites, Apply, Slots, NoDup, LateWrites;
    var n, w := |g.nos|, Write(late.nos[0], late.data[0]);
    LateApart(sb, d, late);
    var f := HomesAfterHeader(sb, d, g, hdr, n);
    LatePrefix(sb, g, hdr, late);
    ApplySnoc(d, SlotWrites(sb, g.data) + [Write(sb.logStart, Encode(hdr))] + HomeWrites(g)[..n], w);
    e := f[w.no := w.data];
    SlotsApart(sb, f, w.no, w.data, n);
  }

  lemma LatePrefix(sb: SuperBlock, g: Group, hdr: WordArray, late: Group)
    requires |g.nos| == |g.data| && |late.nos| == |late.data| > 0
    ensures LateWrites(sb, g, hdr, late)[..2 * |g.nos| + 2]
         == SlotWrites(sb, g.data) + [Write(sb.logStart, Encode(hdr))] + HomeWrites(g)[..|g.nos|]
            + [Write(late.nos[0], late.data[0])]
  {
    hide Encode;
    assert HomeWrites(late)[0] == Write(late.nos[0], late.data[0]);
    hide HomeWrites, SlotWrites;
    assert HomeWrites(g)[..|g.nos|] == HomeWrites(g);
    FirstOfRest(SlotWrites(sb, g.data) + [Write(sb.logStart, Encode(hdr))] + HomeWrites(g), HomeWrites(late));
  }

  lemma LateApart(sb: SuperBlock, d: Image, late: Group)
    requires late.Valid(sb) && |late.nos| == 2 && sb.Valid() && |d| == sb.numBlocks
    ensures late.nos[0] < |d| && late.nos[1] < |d| && late.nos[0] != late.nos[1]
    ensures !sb.InLog(late.nos[0]) && !sb.InLog(late.nos[1])
  {
  }

  lemma FirstOfRest<T>(a: seq<T>, b: seq<T>)
    requires b != []
    ensures (a + b)[..|a| + 1] == a + [b[0]]
  {
  }

  lemma SlotsApart(sb: SuperBlock, f: Image, b: nat, data: BlockData, n: nat)
    requires sb.Valid() && |f| == sb.numBlocks && b < |f| && !sb.InLog(b) && n < LOG_MAX_SIZE
    ensures Slots(sb, f[b := data], n) == Slots(sb, f, n)
  {
  }

  /** A block that is not in the log reads as it is on disk. */
  lemma ViewAt(sb: SuperBlock, e: Image, b: nat)
    requires WellFormed(sb, e) && b < |e| && !sb.InLog(b) && b !in LoggedNos(sb, e)
    ensures b in View(sb, e) && View(sb, e)[b] == e[b]
  {
    hide GoodHeader, Listed;
  }

  // ----- recovery

  /** The header words that recovery leaves: count zero, and only the first 63 bytes of the block
      numbers cleared (seven whole words and all but the top byte of the eighth). */
  function ClearedHeader(hdr: WordArray): (r: WordArray)
    ensures r[0] == 0
  {
    [0, 0, 0, 0, 0, 0, 0, 0, hdr[8] / 0x100_0000_0000_0000 * 0x100_0000_0000_0000] + hdr[9..]
  }

  /** All the device writes of init_bcache: slots to homes, then the cleared header. */
  ghost function RecoveryWrites(sb: SuperBlock, d: Image): (ws: seq<Write>)
    requires WellFormed(sb, d)
    ensures |ws| == |LoggedNos(sb, d)| + 1
  {
    HomeWrites(LoggedGroup(sb, d)) + [Write(sb.logStart, Encode(ClearedHeader(Decode(d[sb.logStart]))))]
  }

  /** The disk after k homes have been written: the log area and all other blocks are intact. */
  lemma RecoveryPrefix(sb: SuperBlock, d: Image, k: nat) returns (e: Image)
    requires WellFormed(sb, d) && k <= |LoggedNos(sb, d)|
    ensures e == Apply(d, RecoveryWrites(sb, d)[..k]) && |e| == |d|
    ensures forall b :: 0 <= b < |d| && (sb.InLog(b) || b !in LoggedNos(sb, d)) ==> e[b] == d[b]
  {
    var g := LoggedGroup(sb, d);
    e := Apply(d, RecoveryWrites(sb, d)[..k]);
    assert RecoveryWrites(sb, d)[..k] == HomeWrites(g)[..k];
    HomesWritten(d, g, k);
  }

  /** A recovery interrupted before its header write: the log is intact. */
  lemma RecoveryInterrupted(sb: SuperBlock, d: Image, k: nat)
    requires WellFormed(sb, d) && k <= |LoggedNos(sb, d)|
    ensures var e := Apply(d, RecoveryWrites(sb, d)[..k]);
            WellFormed(sb, e) && View(sb, e) == View(sb, d)
  {
    hide Listed, GoodHeader, Install, HomeBlocks, RecoveryWrites;
    var g := LoggedGroup(sb, d);
    var e := RecoveryPrefix(sb, d, k);
    assert e[sb.logStart] == d[sb.logStart];
    assert Slots(sb, e, |g.nos|) == Slots(sb, d, |g.nos|);
    InstallOverPartial(sb, d, e, g);
  }

  /** A recovery that ran to its end: everything is home and the header is empty. */
  lemma RecoveryCompletes(sb: SuperBlock, d: Image)
    requires WellFormed(sb, d)
    ensures var e := Apply(d, RecoveryWrites(sb, d));
            && WellFormed(sb, e) && |LoggedNos(sb, e)| == 0
            && View(sb, e) == View(sb, d) && HomeBlocks(sb, e) == View(sb, d)
  {
    hide Listed, GoodHeader, Install, HomeWrites;
    var g := LoggedGroup(sb, d);
    var n := |g.nos|;
    var cleared := ClearedHeader(Decode(d[sb.logStart]));
    var f := Apply(d, HomeWrites(g));
    var e := Apply(d, RecoveryWrites(sb, d));
    HomesWritten(d, g, n);
    assert HomeWrites(g)[..n] == HomeWrites(g) && g.nos[..n] == g.nos;
    ApplySnoc(d, HomeWrites(g), Write(sb.logStart, Encode(cleared)));
    assert e == f[sb.logStart := Encode(cleared)];
    HeaderRead(sb, e, cleared);
    InstalledHomes(sb, d, e, g);
    ViewOfEmptyLog(sb, e);
  }

  /** A recovery stopped after any k of its writes presents the same file system as before. */
  lemma RecoveryIsIdempotent(sb: SuperBlock, d: Image, k: nat)
    requires WellFormed(sb, d) && k <= |LoggedNos(sb, d)| + 1
    ensures var e := Apply(d, RecoveryWrites(sb, d)[..k]);
            WellFormed(sb, e) && View(sb, e) == View(sb, d)
  {
    if k <= |LoggedNos(sb, d)| {
      RecoveryInterrupted(sb, d, k);
    } else {
      assert RecoveryWrites(sb, d)[..k] == RecoveryWrites(sb, d);
      RecoveryCompletes(sb, d);
    }
  }

  /** ds is what the disk holds after each of a series of recoveries that were all cut short
      (after any number of their writes). */
  ghost predicate InterruptedRecoveries(sb: SuperBlock, ds: seq<Image>) {
    |ds| > 0 && forall i :: 0 < i < |ds| ==> PartialRecovery(sb, ds[i - 1], ds[i])
  }

  /** A recovery of d, if d can be recovered at all, has got as far as e. */
  ghost predicate PartialRecovery(sb: SuperBlock, d: Image, e: Image) {
    WellFormed(sb, d) ==>
      exists k :: 0 <= k <= |LoggedNos(sb, d)| + 1 && e == Apply(d, RecoveryWrites(sb, d)[..k])
  }

  lemma {:induction false} InterruptionsKeepView(sb: SuperBlock, ds: seq<Image>)
    requires InterruptedRecoveries(sb, ds) && WellFormed(sb, ds[0])
    ensures WellFormed(sb, ds[|ds| - 1]) && View(sb, ds[|ds| - 1]) == View(sb, ds[0])
  {
    hide Listed, GoodHeader, RecoveryWrites, View;
    if |ds| > 1 {
      InterruptionsKeepView(sb, ds[..|ds| - 1]);
      var prev, last := ds[|ds| - 2], ds[|ds| - 1];
      assert PartialRecovery(sb, prev, last);
      var k :| 0 <= k <= |LoggedNos(sb, prev)| + 1 && last == Apply(prev, RecoveryWrites(sb, prev)[..k]);
      RecoveryIsIdempotent(sb, prev, k);
    }
  }

  /** Any number of interrupted recoveries, then one that completes: the home blocks hold
      exactly what the first disk would have recovered to, and the header is empty. */
  lemma RepeatedCrashes(sb: SuperBlock, ds: seq<Image>)
    requires InterruptedRecoveries(sb, ds) && WellFormed(sb, ds[0])
    ensures var last := ds[|ds| - 1];
            && WellFormed(sb, last)
            && var e := Apply(last, RecoveryWrites(sb, last));
            WellFormed(sb, e) && |LoggedNos(sb, e)| == 0 && HomeBlocks(sb, e) == View(sb, ds[0])
  {
    InterruptionsKeepView(sb, ds);
    RecoveryCompletes(sb, ds[|ds| - 1]);
  }

  // ----- whole histories

  /** One group with the header words that list it. */
  datatype Commit = Commit(group: Group, hdr: WordArray)

  ghost predicate ValidCommits(sb: SuperBlock, cs: seq<Commit>) {
    forall i :: 0 <= i < |cs| ==> cs[i].group.Valid(sb) && cs[i].group.ListedBy(cs[i].hdr)
  }

  /** Every device write of a history of commits. */
  ghost function HistoryWrites(sb: SuperBlock, cs: seq<Commit>): (ws: seq<Write>)
    requires ValidCommits(sb, cs)
  {
    if cs == [] then []
    else
      var last := cs[|cs| - 1];
      HistoryWrites(sb, cs[..|cs| - 1]) + CommitWrites(sb, last.group, last.hdr)
  }

  /** The file system after the groups of a history, one after another. */
  ghost function HistoryView(sb: SuperBlock, v: map<nat, BlockData>, cs: seq<Commit>): (r: map<nat, BlockData>)
    requires ValidCommits(sb, cs)
  {
    if cs == [] then v
    else Install(HistoryView(sb, v, cs[..|cs| - 1]), cs[|cs| - 1].group)
  }

  /** The outcome of stopping a history after k writes: a disk that recovers to the result of
      the first m commits, which are exactly the commits whose header had been written. */
  ghost predicate Outcome(sb: SuperBlock, d: Image, cs: seq<Commit>, k: nat, m: nat)
    requires WellFormed(sb, d) && ValidCommits(sb, cs) && k <= |HistoryWrites(sb, cs)|
  {
    && m <= |cs|
    && var e := Apply(d, HistoryWrites(sb, cs)[..k]);
    && WellFormed(sb, e)
    && View(sb, e) == HistoryView(sb, View(sb, d), cs[..m])
    && (m < |cs| ==> k <= |HistoryWrites(sb, cs[..m])| + |cs[m].group.nos|)
    && (m > 0 ==> k > |HistoryWrites(sb, cs[..m - 1])| + |cs[m - 1].group.nos|)
  }

  lemma {:induction false} HistoryCompletes(sb: SuperBlock, d: Image, cs: seq<Commit>)
    requires WellFormed(sb, d) && |LoggedNos(sb, d)| == 0 && ValidCommits(sb, cs)
    ensures var e := Apply(d, HistoryWrites(sb, cs));
            && WellFormed(sb, e) && |LoggedNos(sb, e)| == 0
            && View(sb, e) == HistoryView(sb, View(sb, d), cs)
  {
    if cs != [] {
      var front := cs[..|cs| - 1];
      var last := cs[|cs| - 1];
      HistoryCompletes(sb, d, front);
      ApplyConcat(d, HistoryWrites(sb, front), CommitWrites(sb, last.group, last.hdr));
      CommitCompletes(sb, Apply(d, HistoryWrites(sb, front)), last.group, last.hdr);
    }
  }

  /** The crash falls in the last commit of the history. */
  lemma CrashInLast(sb: SuperBlock, d: Image, cs: seq<Commit>, j: nat) returns (m: nat)
    requires WellFormed(sb, d) && |LoggedNos(sb, d)| == 0 && ValidCommits(sb, cs) && cs != []
    requires j <= 2 * |cs[|cs| - 1].group.nos| + 2
    ensures Outcome(sb, d, cs, |HistoryWrites(sb, cs[..|cs| - 1])| + j, m)
  {
    hide View, Listed, GoodHeader, CommitWrites, Install, Apply;
    var front := cs[..|cs| - 1];
    var last := cs[|cs| - 1];
    var before := HistoryWrites(sb, front);
    var tail := CommitWrites(sb, last.group, last.hdr);
    HistoryCompletes(sb, d, front);
    assert (before + tail)[..|before| + j] == before + tail[..j];
    ApplyConcat(d, before, tail[..j]);
    CommitIsAtomic(sb, Apply(d, before), last.group, last.hdr, j);
    assert cs[..|cs|] == cs;
    if j > |last.group.nos| {
      m := |cs|;
    } else {
      m := |front|;
      if m > 0 {
        assert front == front[..m - 1] + [front[m - 1]] && cs[..m - 1] == front[..m - 1];
      }
    }
  }

  /** A crash at any write of any history of commits leaves a disk that recovers to the result of
      some whole number m of the commits: those whose header had been written. */
  lemma {:induction false} HistoryIsAtomic(sb: SuperBlock, d: Image, cs: seq<Commit>, k: nat) returns (m: nat)
    requires WellFormed(sb, d) && |LoggedNos(sb, d)| == 0 && ValidCommits(sb, cs)
    requires k <= |HistoryWrites(sb, cs)|
    ensures Outcome(sb, d, cs, k, m)
  {
    hide View, Listed, GoodHeader, CommitWrites, Install, Apply;
    if cs == [] {
      m := 0;
      HistoryCompletes(sb, d, cs);
      assert HistoryWrites(sb, cs)[..k] == HistoryWrites(sb, cs) && cs[..m] == cs;
    } else {
      var front := cs[..|cs| - 1];
      var before := HistoryWrites(sb, front);
      if k < |before| {
        m := HistoryIsAtomic(sb, d, front, k);
        assert HistoryWrites(sb, cs)[..k] == before[..k];
        assert front[..m] == cs[..m];
        assert m > 0 ==> front[..m - 1] == cs[..m - 1];
        assert m == |front| ==> cs[..m] == front;
      } else {
        m := CrashInLast(sb, d, cs, k - |before|);
      }
    }
  }

  /** Durability of whole groups over whole runs: a history of commits cut anywhere, then any
      number of recoveries cut anywhere, then one complete recovery, leaves on the home blocks
      exactly the result of the commits whose header had been written, and an empty header. */
  lemma HistoryThenRecovery(sb: SuperBlock, d: Image, cs: seq<Commit>, k: nat, ds: seq<Image>) returns (m: nat)
    requires WellFormed(sb, d) && |LoggedNos(sb, d)| == 0
    requires ValidCommits(sb, cs) && k <= |HistoryWrites(sb, cs)|
    requires InterruptedRecoveries(sb, ds) && ds[0] == Apply(d, HistoryWrites(sb, cs)[..k])
    ensures Outcome(sb, d, cs, k, m)
    ensures var last := ds[|ds| - 1];
            && WellFormed(sb, last)
            && var e := Apply(last, RecoveryWrites(sb, last));
            && WellFormed(sb, e) && |LoggedNos(sb, e)| == 0
            && HomeBlocks(sb, e) == HistoryView(sb, View(sb, d), cs[..m])
  {
    m := HistoryIsAtomic(sb, d, cs, k);
    RepeatedCrashes(sb, ds);
  }

  /** A commit all of whose writes had reached the disk is among those that survive. */
  lemma FinishedCommitSurvives(sb: SuperBlock, d: Image, cs: seq<Commit>, k: nat, m: nat, n: nat)
    requires WellFormed(sb, d) && ValidCommits(sb, cs) && k <= |HistoryWrites(sb, cs)| && Outcome(sb, d, cs, k, m)
    requires n <= |cs| && |HistoryWrites(sb, cs[..n])| <= k
    ensures n <= m
  {
    if m < n {
      HistoryGrows(sb, cs, m, n);
    }
  }

  /** The writes of a longer history take in all those of a shorter one. */
  lemma {:induction false} HistoryGrows(sb: SuperBlock, cs: seq<Commit>, m: nat, n: nat)
    requires ValidCommits(sb, cs) && m < n <= |cs|
    ensures |HistoryWrites(sb, cs[..n])| >= |HistoryWrites(sb, cs[..m])| + 2 * |cs[m].group.nos| + 2
  {
    assert cs[..n][..n - 1] == cs[..n - 1];
    if m < n - 1 {
      HistoryGrows(sb, cs, m, n - 1);
    }
  }
}
