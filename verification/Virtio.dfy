/**
 The block device queue (src/driver/virtio_blk.c): the free list of descriptors, the chains of requests in
 flight, and the two rings with their 16-bit indices. Completions come in any order.
 */
module Virtio {
  import opened Basics

  const NQUEUE := 16
  const WRAP := 0x1_0000       // of a 16-bit index

  /** What a descriptor points to; b is the buffer of a request, h its first descriptor. */
  datatype Addr = Nothing | Header(b: nat) | Data(b: nat) | Status(h: nat)

  datatype Desc = Desc(addr: Addr, hasNext: bool, writable: bool, next: nat)

  /** The other two descriptors of a request, its buffer and its direction. */
  datatype Request = Request(d1: nat, d2: nat, b: nat, read: bool)

  type Requests = map<nat, Request>     // by first descriptor

  /** Where a request in flight is: put into the avail ring, fetched by the device, put into the used ring,
      its sleeper woken. */
  datatype Place = Queued | Busy | Used | Woken

  /** submitted and completed are all entries ever put into the two rings. */
  datatype Flight = Flight(
    free: seq<nat>, requests: Requests, place: map<nat, Place>,
    submitted: seq<nat>, taken: nat, completed: seq<nat>, handled: nat)

  // ----- the free list

  /** The chain from free[0] on is free, and ends in a descriptor without a successor. */
  ghost predicate Chained(ds: seq<Desc>, free: seq<nat>) {
    && |ds| == NQUEUE && free != [] && NoDup(free)
    && (forall i :: 0 <= i < |free| ==> free[i] < NQUEUE)
    && (forall i :: 0 <= i < |free| - 1 ==> ds[free[i]].hasNext && ds[free[i]].next == free[i + 1])
    && !ds[free[|free| - 1]].hasNext
  }

  /** The descriptors of the request with first descriptor h. */
  predicate Mine(q: Request, h: nat, d: nat) { d == h || d == q.d1 || d == q.d2 }

  /** What the device finds from h on: header, data, status; it may write the status, and the data of a
      read. */
  predicate WellFormed(ds: seq<Desc>, h: nat, q: Request) {
    && |ds| == NQUEUE && h < NQUEUE && q.d1 < NQUEUE && q.d2 < NQUEUE && h != q.d1 && h != q.d2 && q.d1 != q.d2
    && ds[h] == Desc(Header(q.b), true, false, q.d1)
    && ds[q.d1] == Desc(Data(q.b), true, q.read, q.d2)
    && ds[q.d2] == Desc(Status(h), false, true, 0)
  }

  /** Every descriptor is either free or in exactly one request. */
  ghost predicate Partition(free: seq<nat>, reqs: Requests) {
    && (forall h, d :: h in reqs && Mine(reqs[h], h, d) ==> d !in free)
    && (forall h, k, d :: h in reqs && k in reqs && Mine(reqs[h], h, d) && Mine(reqs[k], k, d) ==> h == k)
    && (forall d: nat :: d < NQUEUE && d !in free ==> exists h :: h in reqs && Mine(reqs[h], h, d))
    && |free| + 3 * |reqs| == NQUEUE
  }

  ghost predicate ListsOk(ds: seq<Desc>, free: seq<nat>, reqs: Requests) {
    && Chained(ds, free) && Partition(free, reqs)
    && forall h :: h in reqs ==> WellFormed(ds, h, reqs[h])
  }

  /** The descriptors after three have been taken for a request. */
  function Submit(ds: seq<Desc>, h: nat, q: Request): (r: seq<Desc>)
    requires |ds| == NQUEUE && h < NQUEUE && q.d1 < NQUEUE && q.d2 < NQUEUE
  {
    ds[h := Desc(Header(q.b), true, false, q.d1)][q.d1 := Desc(Data(q.b), true, q.read, q.d2)]
      [q.d2 := Desc(Status(h), false, true, 0)]
  }

  lemma SubmitOk(ds: seq<Desc>, free: seq<nat>, reqs: Requests, b: nat, read: bool)
    requires ListsOk(ds, free, reqs) && |free| >= 4
    ensures var h := free[0];
            var q := Request(free[1], free[2], b, read);
            && h !in reqs
            && ListsOk(Submit(ds, h, q), free[3..], reqs[h := q])
  {
    var h := free[0];
    var q := Request(free[1], free[2], b, read);
    var r, gfree, greqs := Submit(ds, h, q), free[3..], reqs[h := q];
    assert h in free && q.d1 in free && q.d2 in free;
    assert h !in reqs by { if h in reqs { assert Mine(reqs[h], h, h); } }
    SubmitChained(ds, free, h, q);
    SubmitPartition(free, reqs, h, q);
    forall k | k in greqs ensures WellFormed(r, k, greqs[k]) {
      if k != h {
        assert Mine(reqs[k], k, k) && Mine(reqs[k], k, reqs[k].d1) && Mine(reqs[k], k, reqs[k].d2);
      }
    }
  }

  lemma SubmitChained(ds: seq<Desc>, free: seq<nat>, h: nat, q: Request)
    requires Chained(ds, free) && |free| >= 4 && h == free[0] && q.d1 == free[1] && q.d2 == free[2]
    ensures Chained(Submit(ds, h, q), free[3..])
  {
  }

  lemma SubmitPartition(free: seq<nat>, reqs: Requests, h: nat, q: Request)
    requires Partition(free, reqs) && |free| >= 4 && NoDup(free) && h !in reqs
    requires h == free[0] && q.d1 == free[1] && q.d2 == free[2]
    ensures Partition(free[3..], reqs[h := q])
  {
    var gfree, greqs := free[3..], reqs[h := q];
    assert free == [h, q.d1, q.d2] + free[3..];
    assert free[0] in free && free[1] in free && free[2] in free;
    assert forall d :: Mine(q, h, d) ==> d in free && d !in gfree;
    assert forall d :: d in gfree ==> d in free;
    assert |greqs| == |reqs| + 1;
    forall k, l, d | k in greqs && l in greqs && Mine(greqs[k], k, d) && Mine(greqs[l], l, d)
      ensures k == l
    {
      if k == h || l == h { assert d in free; }
    }
    forall d: nat | d < NQUEUE && d !in gfree ensures exists k :: k in greqs && Mine(greqs[k], k, d) {
      if d in free {
        assert Mine(greqs[h], h, d);
      } else {
        var k :| k in reqs && Mine(reqs[k], k, d);
        assert Mine(greqs[k], k, d);
      }
    }
  }

  /** The descriptors after free_desc(h). */
  function Release(ds: seq<Desc>, head: nat, q: Request): (r: seq<Desc>)
    requires |ds| == NQUEUE && q.d2 < NQUEUE
  {
    ds[q.d2 := ds[q.d2].(hasNext := true, writable := false, next := head)]
  }

  lemma ReleaseOk(ds: seq<Desc>, free: seq<nat>, reqs: Requests, h: nat)
    requires ListsOk(ds, free, reqs) && h in reqs
    ensures var q := reqs[h];
            q.d2 < NQUEUE && ListsOk(Release(ds, free[0], q), [h, q.d1, q.d2] + free, reqs - {h})
  {
    var q := reqs[h];
    var r, gfree, greqs := Release(ds, free[0], q), [h, q.d1, q.d2] + free, reqs - {h};
    assert WellFormed(ds, h, q);
    assert Mine(q, h, h) && Mine(q, h, q.d1) && Mine(q, h, q.d2);
    ReleaseChained(ds, free, h, q);
    ReleasePartition(free, reqs, h);
    forall k | k in greqs ensures WellFormed(r, k, greqs[k]) {
      assert Mine(reqs[k], k, k) && Mine(reqs[k], k, reqs[k].d1) && Mine(reqs[k], k, reqs[k].d2);
    }
  }

  lemma ReleaseChained(ds: seq<Desc>, free: seq<nat>, h: nat, q: Request)
    requires Chained(ds, free) && WellFormed(ds, h, q) && h !in free && q.d1 !in free && q.d2 !in free
    ensures Chained(Release(ds, free[0], q), [h, q.d1, q.d2] + free)
  {
    var l := [h, q.d1, q.d2] + free;
    var r := Release(ds, free[0], q);
    assert forall i :: 0 <= i < |free| ==> free[i] in free && free[i] != q.d2;
    NoDupFront(h, q, free);
    forall i | 0 <= i < |l| - 1 ensures l[i] < NQUEUE && r[l[i]].hasNext && r[l[i]].next == l[i + 1] {
      if i >= 3 {
        assert l[i] == free[i - 3] && l[i + 1] == free[i - 2];
        assert ds[free[i - 3]].hasNext && ds[free[i - 3]].next == free[i - 3 + 1];
      }
    }
    assert l[|l| - 1] == free[|free| - 1];
  }

  lemma NoDupFront(h: nat, q: Request, free: seq<nat>)
    requires NoDup(free) && h !in free && q.d1 !in free && q.d2 !in free && h != q.d1 && h != q.d2 && q.d1 != q.d2
    ensures NoDup([h, q.d1, q.d2] + free)
  {
    var l := [h, q.d1, q.d2] + free;
    assert l[0] == h && l[1] == q.d1 && l[2] == q.d2;
    forall i, j | 0 <= i < j < |l| ensures l[i] != l[j] {
      if j >= 3 { assert l[j] == free[j - 3] && l[j] in free; }
      if i >= 3 { assert l[i] == free[i - 3]; }
    }
  }

  lemma ReleasePartition(free: seq<nat>, reqs: Requests, h: nat)
    requires Partition(free, reqs) && h in reqs
    ensures var q := reqs[h]; Partition([h, q.d1, q.d2] + free, reqs - {h})
  {
    var q := reqs[h];
    var gfree, greqs := [h, q.d1, q.d2] + free, reqs - {h};
    assert forall d :: d in gfree <==> d in free || Mine(q, h, d);
    forall d: nat | d < NQUEUE && d !in gfree ensures exists k :: k in greqs && Mine(greqs[k], k, d) {
      var k :| k in reqs && Mine(reqs[k], k, d);
      assert Mine(greqs[k], k, d);
    }
  }

  // ----- the rings

  /** The position of an entry in a ring. */
  function Slot(n: nat): (i: nat)
    ensures i < NQUEUE
  {
    n % NQUEUE
  }

  /** The entries of log from lo on are still in the ring. */
  ghost predicate Window(ring: seq<nat>, log: seq<nat>, lo: nat) {
    && |ring| == NQUEUE && lo <= |log|
    && forall j :: lo <= j < |log| ==> ring[Slot(j)] == log[j]
  }

  lemma WindowPush(ring: seq<nat>, log: seq<nat>, lo: nat, h: nat)
    requires Window(ring, log, lo) && |log| - lo < NQUEUE
    ensures Window(ring[Slot(|log|) := h], log + [h], lo)
  {
    var r, l := ring[Slot(|log|) := h], log + [h];
    forall j | lo <= j < |l| ensures r[Slot(j)] == l[j] {
      if j < |log| { ModApart(j, |log|); }
    }
  }

  lemma WindowTake(ring: seq<nat>, log: seq<nat>, lo: nat)
    requires Window(ring, log, lo) && lo < |log|
    ensures Window(ring, log, lo + 1) && ring[Slot(lo)] == log[lo]
  {
  }

  lemma ModApart(i: nat, j: nat)
    requires i < j < i + NQUEUE
    ensures Slot(i) != Slot(j)
  {
  }

  /** A 16-bit index. */
  function Low16(n: nat): (i: nat) { n % WRAP }

  lemma ModSlot(k: nat, b: nat)
    requires b < NQUEUE
    ensures (k * NQUEUE + b) % NQUEUE == b
  {
  }

  lemma ModIndex(k: nat, b: nat)
    requires b < WRAP
    ensures (k * WRAP + b) % WRAP == b
  {
  }

  /** 16 divides 65536, so a ring position can be taken from a 16-bit index. */
  lemma SlotWraps(n: nat)
    ensures Slot(Low16(n)) == Slot(n)
  {
    var q, b := n / WRAP, n % WRAP;
    assert n == (q * 4096 + b / NQUEUE) * NQUEUE + b % NQUEUE;
    ModSlot(q * 4096 + b / NQUEUE, b % NQUEUE);
  }

  /** And adding one to a 16-bit index is adding one to the count. */
  lemma IndexWraps(n: nat)
    ensures Slot(Low16(n)) == Slot(n) && Low16(Low16(n) + 1) == Low16(n + 1)
  {
    SlotWraps(n);
    hide Slot;
    var q, b := n / WRAP, n % WRAP;
    assert n == q * WRAP + b;
    if b + 1 == WRAP {
      assert n + 1 == (q + 1) * WRAP + 0;
      ModIndex(q + 1, 0);
    } else {
      assert n + 1 == q * WRAP + (b + 1);
      ModIndex(q, b + 1);
    }
  }

  /** Indices that are less than 65536 apart agree exactly when the counts do. */
  lemma IndicesDiffer(a: nat, b: nat)
    requires a <= b < a + WRAP
    ensures Low16(a) == Low16(b) <==> a == b
  {
    assert a == a / WRAP * WRAP + a % WRAP && b == b / WRAP * WRAP + b % WRAP;
  }

  predicate At(f: Flight, h: nat, p: Place) { h in f.place && f.place[h] == p }

  /** The requests in the avail ring and those in the used ring are the windows of the rings. */
  ghost predicate PlacesOk(f: Flight) {
    && f.place.Keys == f.requests.Keys && f.taken <= |f.submitted| && f.handled <= |f.completed|
    && (forall j :: f.taken <= j < |f.submitted| ==> At(f, f.submitted[j], Queued))
    && (forall j :: f.handled <= j < |f.completed| ==> At(f, f.completed[j], Used))
    && (forall h :: At(f, h, Queued) ==> h in f.submitted[f.taken..])
    && (forall h :: At(f, h, Used) ==> h in f.completed[f.handled..])
    && Distinct(f.submitted, f.taken) && Distinct(f.completed, f.handled)
  }

  /** The entries of a window are not repeated. */
  ghost predicate Distinct(log: seq<nat>, lo: nat) { forall i, j :: lo <= i < j < |log| ==> log[i] != log[j] }

  lemma {:induction false} DistinctFits(s: seq<nat>, a: set<nat>)
    requires NoDup(s) && forall i :: 0 <= i < |s| ==> s[i] in a
    ensures |s| <= |a|
  {
    if s != [] {
      var x := s[|s| - 1];
      DistinctFits(s[..|s| - 1], a - {x});
    }
  }

  /** At most five requests fit: the last descriptor of the free list is never taken. */
  lemma AtMostFive(ds: seq<Desc>, f: Flight)
    requires ListsOk(ds, f.free, f.requests) && PlacesOk(f)
    ensures |f.requests| <= 5 && |f.submitted| - f.taken <= 5 && |f.completed| - f.handled <= 5
    ensures |f.free| >= 4 <==> |f.requests| < 5
    ensures |f.free| == 1 <==> |f.requests| == 5
  {
    hide Partition, WellFormed;
    ListsParts(ds, f.free, f.requests);
    hide ListsOk;
    assert |f.requests| == |f.requests.Keys|;
    DistinctFits(f.submitted[f.taken..], f.requests.Keys);
    DistinctFits(f.completed[f.handled..], f.requests.Keys);
  }

  // ----- what happens to requests

  /** virtio_blk_rw: a new request into the avail ring. */
  function Submitted(f: Flight, b: nat, read: bool): (r: Flight)
    requires |f.free| >= 3
  {
    var h := f.free[0];
    f.(free := f.free[3..], requests := f.requests[h := Request(f.free[1], f.free[2], b, read)],
       place := f.place[h := Queued], submitted := f.submitted + [h])
  }

  /** The device takes the next entry of the avail ring. */
  function Fetched(f: Flight): (r: Flight)
    requires f.taken < |f.submitted|
  {
    f.(place := f.place[f.submitted[f.taken] := Busy], taken := f.taken + 1)
  }

  /** The device puts h into the used ring. */
  function Completed(f: Flight, h: nat): (r: Flight)
  {
    f.(place := f.place[h := Used], completed := f.completed + [h])
  }

  /** The interrupt handler takes the next entry of the used ring. */
  function Handled(f: Flight): (r: Flight)
    requires f.handled < |f.completed|
  {
    f.(place := f.place[f.completed[f.handled] := Woken], handled := f.handled + 1)
  }

  /** virtio_blk_rw, awake again, gives its descriptors back. */
  function Finished(f: Flight, h: nat): (r: Flight)
    requires h in f.requests
  {
    var q := f.requests[h];
    f.(free := [h, q.d1, q.d2] + f.free, requests := f.requests - {h}, place := f.place - {h})
  }

  lemma SubmittedPlaces(f: Flight, b: nat, read: bool)
    requires PlacesOk(f) && |f.free| >= 3 && f.free[0] !in f.requests
    ensures PlacesOk(Submitted(f, b, read))
  {
    var r, h := Submitted(f, b, read), f.free[0];
    assert r.submitted[r.taken..] == f.submitted[f.taken..] + [h];
    forall j | f.taken <= j < |f.submitted| ensures f.submitted[j] != h && At(r, f.submitted[j], Queued) {
      assert At(f, f.submitted[j], Queued);
    }
    forall j | f.handled <= j < |f.completed| ensures At(r, f.completed[j], Used) {
      assert At(f, f.completed[j], Used);
    }
    forall k | k != h && At(r, k, Queued) ensures k in f.submitted[f.taken..] {
      assert At(f, k, Queued);
    }
    forall k | At(r, k, Used) ensures k in f.completed[f.handled..] {
      assert At(f, k, Used);
    }
  }

  lemma FetchedPlaces(f: Flight)
    requires PlacesOk(f) && f.taken < |f.submitted|
    ensures PlacesOk(Fetched(f))
  {
    assert f.submitted[f.taken..] == [f.submitted[f.taken]] + f.submitted[f.taken + 1..];
    forall h | At(Fetched(f), h, Queued) ensures h in f.submitted[f.taken + 1..] {
      assert At(f, h, Queued) && h != f.submitted[f.taken];
    }
    assert forall h :: At(Fetched(f), h, Used) ==> At(f, h, Used);
  }

  lemma CompletedPlaces(f: Flight, h: nat)
    requires PlacesOk(f) && At(f, h, Busy)
    ensures PlacesOk(Completed(f, h))
  {
    var r := Completed(f, h);
    assert r.completed[r.handled..] == f.completed[f.handled..] + [h];
    assert forall k :: k != h && At(r, k, Used) ==> At(f, k, Used);
    assert forall k :: At(r, k, Queued) ==> At(f, k, Queued);
  }

  lemma HandledPlaces(f: Flight)
    requires PlacesOk(f) && f.handled < |f.completed|
    ensures PlacesOk(Handled(f))
  {
    assert f.completed[f.handled..] == [f.completed[f.handled]] + f.completed[f.handled + 1..];
    forall h | At(Handled(f), h, Used) ensures h in f.completed[f.handled + 1..] {
      assert At(f, h, Used) && h != f.completed[f.handled];
    }
    assert forall h :: At(Handled(f), h, Queued) ==> At(f, h, Queued);
  }

  lemma FinishedPlaces(f: Flight, h: nat)
    requires PlacesOk(f) && At(f, h, Woken)
    ensures PlacesOk(Finished(f, h))
  {
    assert forall k, p :: At(Finished(f, h), k, p) ==> At(f, k, p);
  }

  // ----- the queue

  /** The free list that desc_init builds. */
  function AllFree(): (l: seq<nat>)
    ensures |l| == NQUEUE && forall i :: 0 <= i < NQUEUE ==> l[i] == i
  {
    seq(NQUEUE, i requires 0 <= i < NQUEUE => i)
  }

  function NoFlight(): (f: Flight) { Flight(AllFree(), map[], map[], [], 0, [], 0) }

  /** The device works on the requests that it has fetched and not completed. */
  ghost predicate BusyOk(busy: set<nat>, f: Flight) { forall h :: h in busy <==> At(f, h, Busy) }

  lemma BusyFetched(busy: set<nat>, f: Flight)
    requires BusyOk(busy, f) && f.taken < |f.submitted|
    ensures BusyOk(busy + {f.submitted[f.taken]}, Fetched(f))
  {
  }

  lemma BusyCompleted(busy: set<nat>, f: Flight, h: nat)
    requires BusyOk(busy, f)
    ensures BusyOk(busy - {h}, Completed(f, h))
  {
  }

  lemma BusyHandled(busy: set<nat>, f: Flight)
    requires BusyOk(busy, f) && f.handled < |f.completed| && PlacesOk(f)
    ensures BusyOk(busy, Handled(f))
  {
    assert At(f, f.completed[f.handled], Used);
  }

  lemma BusySubmitted(busy: set<nat>, f: Flight, b: nat, read: bool)
    requires BusyOk(busy, f) && |f.free| >= 3 && !At(f, f.free[0], Busy)
    ensures BusyOk(busy, Submitted(f, b, read))
  {
  }

  lemma BusyFinished(busy: set<nat>, f: Flight, h: nat)
    requires BusyOk(busy, f) && h in f.requests && At(f, h, Woken)
    ensures BusyOk(busy, Finished(f, h))
  {
  }

  /** info[h].buf is the buffer of the request until its sleeper is woken. */
  ghost predicate BufsOk(buf: seq<Option<nat>>, f: Flight) {
    && |buf| == NQUEUE
    && forall h :: h in f.requests ==> h < NQUEUE && buf[h] == if At(f, h, Woken) then None else Some(f.requests[h].b)
  }

  datatype Regs = Regs(freeHead: nat, nfree: nat, availIdx: nat, usedIdx: nat, lastUsed: nat, deviceIdx: nat)

  /** The descriptors ds, the rings av and rg, the buffers bf and the registers c agree with f. */
  ghost predicate QueueOk(ds: seq<Desc>, av: seq<nat>, rg: seq<nat>, bf: seq<Option<nat>>, c: Regs, f: Flight) {
    && ListsOk(ds, f.free, f.requests) && f.free != [] && c.freeHead == f.free[0] && c.nfree == |f.free|
    && PlacesOk(f) && BufsOk(bf, f)
    && Window(av, f.submitted, f.taken) && c.availIdx == Low16(|f.submitted|) && c.deviceIdx == Low16(f.taken)
    && Window(rg, f.completed, f.handled) && c.usedIdx == Low16(|f.completed|) && c.lastUsed == Low16(f.handled)
  }

  lemma RwOk(ds: seq<Desc>, av: seq<nat>, rg: seq<nat>, bf: seq<Option<nat>>, c: Regs, f: Flight, b: nat, read: bool)
    requires QueueOk(ds, av, rg, bf, c, f) && |f.free| >= 4 && |ds| == NQUEUE && |av| == NQUEUE && |bf| == NQUEUE
    requires f.free[0] < NQUEUE && f.free[1] < NQUEUE && f.free[2] < NQUEUE
    ensures QueueOk(Submit(ds, f.free[0], Request(f.free[1], f.free[2], b, read)),
                    av[Slot(c.availIdx) := f.free[0]], rg, bf[f.free[0] := Some(b)],
                    c.(freeHead := f.free[3], nfree := c.nfree - 3, availIdx := Low16(c.availIdx + 1)),
                    Submitted(f, b, read))
  {
    hide ListsOk, PlacesOk, Window, Submit, BufsOk, Slot, Low16;
    AtMostFive(ds, f);
    SubmitOk(ds, f.free, f.requests, b, read);
    SubmittedPlaces(f, b, read);
    QueuePush(av, f, f.free[0]);
    BufsSubmitted(bf, f, b, read);
    IndexWraps(|f.submitted|);
  }

  lemma FetchOk(ds: seq<Desc>, av: seq<nat>, rg: seq<nat>, bf: seq<Option<nat>>, c: Regs, f: Flight)
    requires QueueOk(ds, av, rg, bf, c, f) && f.taken < |f.submitted| && |av| == NQUEUE
    ensures QueueOk(ds, av, rg, bf, c.(deviceIdx := Low16(c.deviceIdx + 1)), Fetched(f))
    ensures av[Slot(c.deviceIdx)] == f.submitted[f.taken]
  {
    hide ListsOk, PlacesOk, Window, BufsOk, Slot, Low16;
    WindowTake(av, f.submitted, f.taken);
    FetchedPlaces(f);
    BufsFetched(bf, f);
    IndexWraps(f.taken);
  }

  lemma CompleteOk(ds: seq<Desc>, av: seq<nat>, rg: seq<nat>, bf: seq<Option<nat>>, c: Regs, f: Flight, h: nat)
    requires QueueOk(ds, av, rg, bf, c, f) && At(f, h, Busy) && |rg| == NQUEUE
    ensures QueueOk(ds, av, rg[Slot(c.usedIdx) := h], bf, c.(usedIdx := Low16(c.usedIdx + 1)), Completed(f, h))
  {
    hide ListsOk, PlacesOk, Window, BufsOk, Slot, Low16;
    AtMostFive(ds, f);
    CompletedPlaces(f, h);
    BufsCompleted(bf, f, h);
    UsedPush(rg, f, h);
    IndexWraps(|f.completed|);
  }

  lemma HandleOk(ds: seq<Desc>, av: seq<nat>, rg: seq<nat>, bf: seq<Option<nat>>, c: Regs, f: Flight)
    requires QueueOk(ds, av, rg, bf, c, f) && f.handled < |f.completed| && |rg| == NQUEUE && |bf| == NQUEUE
    ensures var h := f.completed[f.handled];
            && rg[Slot(c.lastUsed)] == h && h in f.requests && h < NQUEUE && bf[h] == Some(f.requests[h].b)
            && QueueOk(ds, av, rg, bf[h := None], c.(lastUsed := Low16(c.lastUsed + 1)), Handled(f))
  {
    hide ListsOk, PlacesOk, Window, BufsOk, Slot, Low16;
    WindowTake(rg, f.completed, f.handled);
    IndexWraps(f.handled);
    HandledPlaces(f);
    UsedEntry(bf, f);
  }

  lemma FinishOk(ds: seq<Desc>, av: seq<nat>, rg: seq<nat>, bf: seq<Option<nat>>, c: Regs, f: Flight, h: nat)
    requires QueueOk(ds, av, rg, bf, c, f) && At(f, h, Woken) && |ds| == NQUEUE
    ensures h in f.requests && WellFormed(ds, h, f.requests[h])
    ensures QueueOk(Release(ds, c.freeHead, f.requests[h]), av, rg, bf, c.(freeHead := h, nfree := c.nfree + 3),
                    Finished(f, h))
  {
    hide PlacesOk, Window, BufsOk, Low16, Partition, Chained;
    WokenRequest(f, h);
    ReleaseOk(ds, f.free, f.requests, h);
    FinishedPlaces(f, h);
    BufsFinished(bf, f, h);
  }

  lemma FirstFree(ds: seq<Desc>, av: seq<nat>, rg: seq<nat>, bf: seq<Option<nat>>, c: Regs, f: Flight)
    requires QueueOk(ds, av, rg, bf, c, f)
    ensures f.free != [] && c.freeHead == f.free[0] && c.nfree == |f.free|
  {
  }

  /** What the loop of the interrupt handler relies on. */
  lemma UsedLeft(ds: seq<Desc>, av: seq<nat>, rg: seq<nat>, bf: seq<Option<nat>>, c: Regs, f: Flight)
    requires QueueOk(ds, av, rg, bf, c, f)
    ensures |f.requests| <= 5 && f.handled <= |f.completed|
    ensures c.lastUsed == c.usedIdx <==> f.handled == |f.completed|
    ensures c.deviceIdx == c.availIdx <==> f.taken == |f.submitted|
    ensures f.taken <= |f.submitted| && forall p :: |f.free| >= 1 ==> !At(f, f.free[0], p)
    ensures Chained(ds, f.free) && (|f.free| == 1 || |f.free| >= 4) && (|f.free| == 1 <==> |f.requests| == 5)
    ensures PlacesOk(f)
  {
    hide Window, BufsOk, Low16, ListsOk, Chained;
    AtMostFive(ds, f);
    IndicesDiffer(f.handled, |f.completed|);
    IndicesDiffer(f.taken, |f.submitted|);
    ListsParts(ds, f.free, f.requests);
    FirstUnused(ds, f);
  }

  lemma FirstUnused(ds: seq<Desc>, f: Flight)
    requires ListsOk(ds, f.free, f.requests) && PlacesOk(f)
    ensures f.free != [] && f.free[0] !in f.requests && f.free[0] !in f.place
  {
    hide WellFormed;
    assert f.free[0] in f.free;
    assert forall h :: h in f.requests ==> Mine(f.requests[h], h, h);
  }

  class Virtq {
    const desc: array<Desc>
    const avail: array<nat>
    const ring: array<nat>              // of used
    const buf: array<Option<nat>>
    var freeHead: nat
    var nfree: nat
    var availIdx: nat
    var usedIdx: nat
    var lastUsed: nat
    var deviceIdx: nat                  // how far the device has read avail
    var busy: set<nat>                  // the requests that the device is working on
    ghost var f: Flight
    ghost var posted: seq<nat>          // the buffers whose semaphores the handler has posted

    ghost predicate Valid()
      reads this, desc, avail, ring, buf
    {
      && desc.Length == NQUEUE && avail.Length == NQUEUE && ring.Length == NQUEUE && buf.Length == NQUEUE
      && avail != ring
      && QueueOk(desc[..], avail[..], ring[..], buf[..],
                 Regs(freeHead, nfree, availIdx, usedIdx, lastUsed, deviceIdx), f)
      && BusyOk(busy, f)
    }

    /** virtq_init with desc_init. */
    constructor ()
      ensures Valid() && f == NoFlight() && posted == []
    {
      desc := new Desc[NQUEUE](_ => Desc(Nothing, false, false, 0));
      avail := new nat[NQUEUE](_ => 0);
      ring := new nat[NQUEUE](_ => 0);
      buf := new Option<nat>[NQUEUE](_ => None);
      freeHead, nfree, availIdx, usedIdx, lastUsed, deviceIdx, busy := 0, NQUEUE, 0, 0, 0, 0, {};
      f := NoFlight();
      posted := [];
      new;
      hide ListsOk;
      var i := 0;
      while i < NQUEUE - 1
        invariant 0 <= i <= NQUEUE - 1
        invariant forall j :: 0 <= j < i ==> desc[j].hasNext && desc[j].next == j + 1
        invariant !desc[NQUEUE - 1].hasNext
        modifies desc
      {
        desc[i] := desc[i].(hasNext := true, writable := false, next := i + 1);
        i := i + 1;
      }
      InitOk(desc[..]);
    }

    /** alloc_desc: None where the kernel panics. */
    method AllocDesc() returns (d: Option<nat>)
      requires desc.Length == NQUEUE && freeHead < NQUEUE
      modifies this`freeHead, this`nfree
      ensures d == if old(nfree) == 0 then None else Some(old(freeHead))
      ensures d.Some? ==> nfree == old(nfree) - 1
      ensures d.Some? ==> freeHead == if desc[d.value].hasNext then desc[d.value].next else old(freeHead)
    {
      if nfree == 0 { return None; }
      d := Some(freeHead);
      if desc[freeHead].hasNext {
        freeHead := desc[freeHead].next;
      }
      nfree := nfree - 1;
    }

    /** The descriptors of a request: None where the kernel panics because the free list is used up. */
    method Fill(b: nat, read: bool) returns (d: Option<(nat, nat, nat)>)
      requires desc.Length == NQUEUE && Chained(desc[..], f.free) && freeHead == f.free[0] && nfree == |f.free|
      requires |f.free| == 1 || |f.free| >= 4
      modifies this`freeHead, this`nfree, desc
      ensures d.None? <==> |f.free| == 1
      ensures d.Some? ==>
                && d.value == (f.free[0], f.free[1], f.free[2]) && freeHead == f.free[3] && nfree == |f.free| - 3
                && desc[..] == Submit(old(desc[..]), f.free[0], Request(f.free[1], f.free[2], b, read))
    {
      ghost var l := f.free;
      var e0 := AllocDesc();
      var d0 := e0.value;
      desc[d0] := Desc(Header(b), true, false, desc[d0].next);
      var e1 := AllocDesc();
      if e1.None? { return None; }
      var d1 := e1.value;
      assert l[0] != l[1] && l[0] != l[2] && l[1] != l[2] && l[2] != l[3];
      desc[d0] := desc[d0].(next := d1);
      desc[d1] := Desc(Data(b), true, read, desc[d1].next);
      var e2 := AllocDesc();
      if e2.None? { return None; }
      var d2 := e2.value;
      desc[d1] := desc[d1].(next := d2);
      desc[d2] := Desc(Status(d0), false, true, 0);
      d := Some((d0, d1, d2));
    }

    ghost function Registers(): (c: Regs)
      reads this
    {
      Regs(freeHead, nfree, availIdx, usedIdx, lastUsed, deviceIdx)
    }

    /** virtio_blk_rw up to the wait: None, a panic, exactly when five requests are in flight. */
    method Rw(b: nat, read: bool) returns (h: Option<nat>)
      requires Valid()
      modifies this, desc, avail, buf
      ensures h.None? <==> old(|f.requests|) == 5
      ensures h.Some? ==> Valid() && posted == old(posted) && |old(f).free| >= 3
                          && h.value == old(f).free[0] && f == Submitted(old(f), b, read)
    {
      hide QueueOk, Submit, Slot, Low16, Chained, Submitted;
      UsedLeft(desc[..], avail[..], ring[..], buf[..], Registers(), f);
      FreeSmall(desc[..], f.free);
      FirstFree(desc[..], avail[..], ring[..], buf[..], Registers(), f);
      if |f.free| >= 4 {
        RwOk(desc[..], avail[..], ring[..], buf[..], Registers(), f, b, read);
      }
      var d := Fill(b, read);
      if d.None? { return None; }
      avail[Slot(availIdx)] := d.value.0;
      availIdx := Low16(availIdx + 1);
      buf[d.value.0] := Some(b);
      assert ring[..] == old(ring[..]);
      assert avail[..] == old(avail[..])[Slot(old(availIdx)) := f.free[0]];
      assert buf[..] == old(buf[..])[f.free[0] := Some(b)];
      BusySubmitted(busy, f, b, read);
      f := Submitted(f, b, read);
      h := Some(d.value.0);
    }

    /** The device takes a request from the avail ring: the next one that was put in. */
    method DeviceFetch() returns (h: nat)
      requires Valid() && f.taken < |f.submitted|
      modifies this`f, this`deviceIdx, this`busy
      ensures Valid() && f == Fetched(old(f)) && h == old(f).submitted[old(f).taken]
    {
      hide QueueOk, Slot, Low16, Fetched;
      FetchOk(desc[..], avail[..], ring[..], buf[..], Registers(), f);
      BusyFetched(busy, f);
      h := avail[Slot(deviceIdx)];
      deviceIdx := Low16(deviceIdx + 1);
      busy := busy + {h};
      f := Fetched(f);
    }

    /** The device completes one of the requests that it has fetched, whichever it likes. */
    method DeviceComplete(h: nat)
      requires Valid() && At(f, h, Busy)
      modifies this`f, this`usedIdx, this`busy, ring
      ensures Valid() && f == Completed(old(f), h)
    {
      hide QueueOk, Slot, Low16, Completed;
      CompleteOk(desc[..], avail[..], ring[..], buf[..], Registers(), f, h);
      ring[Slot(usedIdx)] := h;
      assert ring[..] == old(ring[..])[Slot(usedIdx) := h];
      usedIdx := Low16(usedIdx + 1);
      BusyCompleted(busy, f, h);
      busy := busy - {h};
      f := Completed(f, h);
    }

    /** One round of the loop of virtio_blk_intr. */
    method HandleOne()
      requires Valid() && f.handled < |f.completed|
      modifies this`f, this`lastUsed, this`posted, buf
      ensures Valid() && f == Handled(old(f))
      ensures old(f).completed[old(f).handled] in f.requests
      ensures posted == old(posted) + [f.requests[old(f).completed[old(f).handled]].b]
    {
      hide QueueOk, Slot, Low16;
      HandleOk(desc[..], avail[..], ring[..], buf[..], Registers(), f);
      UsedLeft(desc[..], avail[..], ring[..], buf[..], Registers(), f);
      var d0 := ring[Slot(lastUsed)];
      var b := buf[d0];
      posted := posted + [b.value];
      buf[d0] := None;
      assert buf[..] == old(buf[..])[d0 := None];
      lastUsed := Low16(lastUsed + 1);
      BusyHandled(busy, old(f));
      f := Handled(f);
    }

    /** What the device does while the handler looks elsewhere: any number of requests fetched and completed. */
    method DeviceMoves(ghost g: Flight, ghost bs: seq<nat>)
      requires Valid() && Settling(g, f, bs)
      modifies this`f, this`deviceIdx, this`usedIdx, this`busy, ring
      ensures Valid() && Settling(g, f, bs) && f.handled == old(f).handled && Work(f) == Work(old(f))
    {
      hide QueueOk, Settling;
      while *
        invariant Valid() && Settling(g, f, bs) && f.handled == old(f).handled && Work(f) == Work(old(f))
        decreases |Undone(f)|, |f.submitted| - f.taken
      {
        ghost var f1 := f;
        UsedLeft(desc[..], avail[..], ring[..], buf[..], Registers(), f);
        var fetch: bool := *;
        if fetch && deviceIdx != availIdx {
          var h := DeviceFetch();
          FetchSettles(g, f1, bs);
        } else if busy != {} {
          var h :| h in busy;
          DeviceComplete(h);
          CompleteSettles(g, f1, bs, h);
        } else {
          break;
        }
      }
    }

    /** virtio_blk_intr, with the device at work all the time: every request in the used ring, also of those
        that get there during the loop, has its sleeper woken once, in the order of completion. */
    method Intr()
      requires Valid()
      modifies this`f, this`lastUsed, this`deviceIdx, this`usedIdx, this`busy, this`posted, buf, ring
      ensures Valid() && f.handled == |f.completed| && old(f).handled <= f.handled && old(f).completed <= f.completed
      ensures f.free == old(f).free && f.requests == old(f).requests && f.submitted == old(f).submitted
      ensures posted == old(posted) + Buffers(f, old(f).handled, f.handled)
      ensures forall h :: h in old(f).place ==>
                h in f.place && f.place[h] != Used
                && (f.place[h] == Woken <==> old(f).place[h] == Woken || h in f.completed[old(f).handled..])
    {
      hide QueueOk, Slot, Low16, Settling, PlacesOk, Chained, Buffers, Undone;
      ghost var g := f;
      UsedLeft(desc[..], avail[..], ring[..], buf[..], Registers(), f);
      SettlingStart(f);
      ghost var bs := [];
      DeviceMoves(g, bs);
      UsedLeft(desc[..], avail[..], ring[..], buf[..], Registers(), f);
      while lastUsed != usedIdx
        invariant Valid() && Settling(g, f, bs) && posted == old(posted) + bs && f.handled <= |f.completed|
        invariant lastUsed != usedIdx <==> f.handled != |f.completed|
        decreases Work(f) - f.handled
      {
        ghost var f1 := f;
        UsedLeft(desc[..], avail[..], ring[..], buf[..], Registers(), f);
        HandleOne();
        SettlingNext(g, f1, bs);
        bs := bs + [f1.requests[f1.completed[f1.handled]].b];
        DeviceMoves(g, bs);
        UsedLeft(desc[..], avail[..], ring[..], buf[..], Registers(), f);
      }
      UsedLeft(desc[..], avail[..], ring[..], buf[..], Registers(), f);
      SettlingEnd(g, f, bs);
    }

    /** free_desc: along the chain from n to its end, which is then linked to the free list. */
    method FreeDesc(n: nat, ghost q: Request)
      requires desc.Length == NQUEUE && WellFormed(desc[..], n, q) && nfree > 0
      modifies this`freeHead, this`nfree, desc
      ensures nfree == old(nfree) + 3 && freeHead == n
      ensures desc[..] == Release(old(desc[..]), old(freeHead), q)
    {
      assert desc[n] == desc[..][n] && desc[q.d1] == desc[..][q.d1] && desc[q.d2] == desc[..][q.d2];
      var empty := nfree == 0;
      var k := n;
      nfree := nfree + 1;
      while desc[k].hasNext
        invariant (k == n || k == q.d1 || k == q.d2)
        invariant nfree == old(nfree) + (if k == n then 1 else if k == q.d1 then 2 else 3)
        modifies this`nfree
        decreases if k == n then 2 else if k == q.d1 then 1 else 0
      {
        k := desc[k].next;
        nfree := nfree + 1;
      }
      desc[k] := desc[k].(hasNext := true, writable := false);
      if !empty {
        desc[k] := desc[k].(next := freeHead);
      }
      assert k == q.d2 && desc[..] == old(desc[..])[k := desc[k]];
      freeHead := n;
    }

    /** virtio_blk_rw after the wait. */
    method Finish(h: nat)
      requires Valid() && At(f, h, Woken)
      modifies this`freeHead, this`nfree, this`f, desc
      ensures Valid() && h in old(f).requests && f == Finished(old(f), h)
    {
      hide QueueOk, Release, Chained, Finished;
      FirstFree(desc[..], avail[..], ring[..], buf[..], Registers(), f);
      FinishOk(desc[..], avail[..], ring[..], buf[..], Registers(), f, h);
      BusyFinished(busy, f, h);
      FreeDesc(h, f.requests[h]);
      f := Finished(f, h);
    }
  }

  /** The requests that the device has not completed. */
  ghost function Undone(f: Flight): (hs: set<nat>) {
    set h | h in f.place && (f.place[h] == Queued || f.place[h] == Busy)
  }

  /** All completions there can be before the next submission. */
  ghost function Work(f: Flight): (n: nat) { |Undone(f)| + |f.completed| }

  /** The buffers of the requests that were completed from the lo-th on and before the hi-th, in that order. */
  function Buffers(f: Flight, lo: nat, hi: nat): (bs: seq<nat>)
    decreases hi
  {
    if hi <= lo then [] else Buffers(f, lo, hi - 1) + [BufferOf(f, hi - 1)]
  }

  function BufferOf(f: Flight, j: nat): (b: nat) {
    if j < |f.completed| && f.completed[j] in f.requests then f.requests[f.completed[j]].b else 0
  }

  lemma {:induction false} SameBuffers(f: Flight, r: Flight, lo: nat, hi: nat)
    requires hi <= |f.completed| <= |r.completed| && r.requests == f.requests && f.completed <= r.completed
    ensures Buffers(r, lo, hi) == Buffers(f, lo, hi)
    decreases hi
  {
    if lo < hi {
      SameBuffers(f, r, lo, hi - 1);
      assert r.completed[hi - 1] == f.completed[hi - 1];
    }
  }

  /** While the handler that began with g is at work: bs are the buffers posted so far. */
  ghost predicate Settling(g: Flight, f: Flight, bs: seq<nat>) {
    && g.handled <= f.handled <= |f.completed| && g.completed <= f.completed && f.place.Keys == g.place.Keys
    && f.free == g.free && f.requests == g.requests && f.submitted == g.submitted
    && (forall h :: h in g.place ==>
          (f.place[h] == Woken <==> g.place[h] == Woken || h in f.completed[g.handled..f.handled]))
    && bs == Buffers(f, g.handled, f.handled)
  }

  lemma SettlingStart(f: Flight)
    requires f.handled <= |f.completed|
    ensures Settling(f, f, [])
  {
    assert f.completed[f.handled..f.handled] == [];
  }

  lemma FetchSettles(g: Flight, f: Flight, bs: seq<nat>)
    requires Settling(g, f, bs) && PlacesOk(f) && f.taken < |f.submitted|
    ensures Settling(g, Fetched(f), bs) && Undone(Fetched(f)) == Undone(f)
  {
    assert At(f, f.submitted[f.taken], Queued);
    SameBuffers(f, Fetched(f), g.handled, f.handled);
    hide Buffers;
  }

  lemma CompleteSettles(g: Flight, f: Flight, bs: seq<nat>, h: nat)
    requires Settling(g, f, bs) && At(f, h, Busy)
    ensures Settling(g, Completed(f, h), bs) && |Undone(Completed(f, h))| == |Undone(f)| - 1
  {
    var r := Completed(f, h);
    assert r.completed[g.handled..f.handled] == f.completed[g.handled..f.handled];
    assert Undone(r) == Undone(f) - {h};
    SameBuffers(f, r, g.handled, f.handled);
    hide Buffers;
  }

  lemma SettlingNext(g: Flight, f: Flight, bs: seq<nat>)
    requires Settling(g, f, bs) && f.handled < |f.completed| && PlacesOk(f)
    ensures f.completed[f.handled] in f.requests && Undone(Handled(f)) == Undone(f)
    ensures Settling(g, Handled(f), bs + [f.requests[f.completed[f.handled]].b])
  {
    var r := Handled(f);
    assert r.completed[g.handled..f.handled + 1] == f.completed[g.handled..f.handled] + [f.completed[f.handled]];
    assert At(f, f.completed[f.handled], Used);
    SameBuffers(f, r, g.handled, f.handled);
  }

  lemma SettlingEnd(g: Flight, f: Flight, bs: seq<nat>)
    requires Settling(g, f, bs) && f.handled == |f.completed| && PlacesOk(f)
    ensures g.handled <= f.handled && g.completed <= f.completed && bs == Buffers(f, g.handled, f.handled)
    ensures f.free == g.free && f.requests == g.requests && f.submitted == g.submitted
    ensures forall h :: h in g.place ==>
              h in f.place && f.place[h] != Used
              && (f.place[h] == Woken <==> g.place[h] == Woken || h in f.completed[g.handled..])
  {
    hide Buffers;
    assert f.completed[g.handled..f.handled] == f.completed[g.handled..] && f.completed[f.handled..] == [];
    assert forall h :: h in g.place && f.place[h] == Used ==> At(f, h, Used);
  }

  lemma FreeSmall(ds: seq<Desc>, free: seq<nat>)
    requires Chained(ds, free)
    ensures forall i :: 0 <= i < |free| ==> free[i] < NQUEUE
  {
  }

  lemma InitOk(ds: seq<Desc>)
    requires |ds| == NQUEUE && !ds[NQUEUE - 1].hasNext
    requires forall j :: 0 <= j < NQUEUE - 1 ==> ds[j].hasNext && ds[j].next == j + 1
    ensures ListsOk(ds, AllFree(), map[])
  {
    forall d: nat | d < NQUEUE ensures d in AllFree() {
      assert AllFree()[d] == d;
    }
  }

  lemma ListsParts(ds: seq<Desc>, free: seq<nat>, reqs: Requests)
    requires ListsOk(ds, free, reqs)
    ensures Chained(ds, free) && |free| + 3 * |reqs| == NQUEUE
  {
  }

  lemma QueuePush(ring: seq<nat>, f: Flight, h: nat)
    requires Window(ring, f.submitted, f.taken) && |f.submitted| - f.taken <= 5
    ensures Window(ring[Slot(|f.submitted|) := h], f.submitted + [h], f.taken)
  {
    WindowPush(ring, f.submitted, f.taken, h);
  }

  lemma UsedPush(ring: seq<nat>, f: Flight, h: nat)
    requires Window(ring, f.completed, f.handled) && |f.completed| - f.handled <= 5
    ensures Window(ring[Slot(|f.completed|) := h], f.completed + [h], f.handled)
  {
    WindowPush(ring, f.completed, f.handled, h);
  }

  lemma BufsSubmitted(buf: seq<Option<nat>>, f: Flight, b: nat, read: bool)
    requires BufsOk(buf, f) && |f.free| >= 3 && f.free[0] < NQUEUE && f.free[0] !in f.requests
    ensures BufsOk(buf[f.free[0] := Some(b)], Submitted(f, b, read))
  {
  }

  lemma BufsFetched(buf: seq<Option<nat>>, f: Flight)
    requires BufsOk(buf, f) && PlacesOk(f) && f.taken < |f.submitted|
    ensures BufsOk(buf, Fetched(f))
  {
    assert At(f, f.submitted[f.taken], Queued);
  }

  lemma BufsCompleted(buf: seq<Option<nat>>, f: Flight, h: nat)
    requires BufsOk(buf, f) && At(f, h, Busy)
    ensures BufsOk(buf, Completed(f, h))
  {
  }

  lemma UsedEntry(buf: seq<Option<nat>>, f: Flight)
    requires BufsOk(buf, f) && PlacesOk(f) && f.handled < |f.completed|
    ensures var h := f.completed[f.handled];
            && h in f.requests && h < NQUEUE && buf[h] == Some(f.requests[h].b)
            && BufsOk(buf[h := None], Handled(f))
  {
    assert At(f, f.completed[f.handled], Used);
  }

  lemma WokenRequest(f: Flight, h: nat)
    requires PlacesOk(f) && At(f, h, Woken)
    ensures h in f.requests
  {
  }

  lemma BufsFinished(buf: seq<Option<nat>>, f: Flight, h: nat)
    requires BufsOk(buf, f) && h in f.requests
    ensures BufsOk(buf, Finished(f, h))
  {
  }
}
