/** The split virtqueue of virtio_disk.c (sections 2.6 and 5.2 of VIRTIO 1.1), driver and device
    taking turns in any order. The rings' indices are 16 bits wide; the books count without end. */
module Virtqueue {
  import opened Blocks
  import BufferCache

  const NUM := 8
  const NBUF := BufferCache.NBUF
  const NEXT := 1
  const WRITE := 2
  const WRAP := 0x1_0000

  /** The addresses the driver puts into descriptors. */
  datatype Addr = Null | Header(op: nat) | Data(buf: nat) | Status(info: nat)

  datatype Desc = Desc(addr: Addr, len: nat, flags: nat, next: nat)

  const ZERO := Desc(Null, 0, 0, 0)

  /** A request header: 0 reads and 1 writes the disk. */
  datatype Request = Request(kind: nat, sector: nat)

  datatype Info = Info(buf: int, status: nat)

  /** Everything the driver and the device share or keep: the descriptor table with its free flags,
      the available ring with both sides' indices, the used ring with both sides' indices, the
      driver's requests, the buffers with their `disk` flags, and the disk. */
  datatype Vring = Vring(
    free: seq<bool>, desc: seq<Desc>,
    avail: seq<nat>, availIdx: nat, seen: nat,
    used: seq<nat>, usedIdx: nat, consumedIdx: nat,
    info: seq<Info>, ops: seq<Request>,
    bufs: seq<Block>, busy: seq<bool>, disk: Disk)

  /** The slot of a ring index, and what the rings' 16-bit indices hold of a count. */
  function Slot(k: nat): (i: nat)
    ensures i < NUM
  {
    k % NUM
  }

  function Low16(k: nat): nat { k % WRAP }

  predicate Shape(q: Vring) {
    && |q.free| == NUM && |q.desc| == NUM && |q.avail| == NUM && |q.used| == NUM
    && |q.info| == NUM && |q.ops| == NUM && |q.bufs| == NBUF && |q.busy| == NBUF
  }

  // ---------- the books ----------

  /** How far a request has come; numbers are positions in the rings since the beginning. */
  datatype Stage = Queued(at: nat) | Fetched | Done(at: nat) | Consumed

  /** A request in flight, by its first descriptor: its buffer and block, its other two
      descriptors, and the bytes it moves. */
  datatype Flight = Flight(buf: nat, block: nat, write: bool, mid: nat, last: nat, stage: Stage, bytes: Block)

  /** The requests in flight; which of them uses a descriptor and a buffer, -1 for none; and how
      many requests came how far. */
  datatype Books = Books(flights: map<int, Flight>, user: seq<int>, holder: seq<int>,
                         fetchedHeads: set<int>, consumedHeads: set<int>,
                         submitted: nat, fetched: nat, completed: nat, consumed: nat, finished: nat)

  function CountFree(free: seq<bool>): (n: nat)
    ensures n <= |free|
  {
    if |free| == 0 then 0 else CountFree(free[..|free| - 1]) + if free[|free| - 1] then 1 else 0
  }

  lemma {:induction false} CountChange(free: seq<bool>, i: nat, to: bool)
    requires i < |free|
    ensures CountFree(free[i := to]) == CountFree(free) + (if to then 1 else 0) - (if free[i] then 1 else 0)
  {
    var n := |free| - 1;
    if i < n {
      CountChange(free[..n], i, to);
      assert free[i := to][..n] == free[..n][i := to];
    } else {
      assert free[i := to][..n] == free[..n];
    }
  }

  lemma {:induction false} CountSome(free: seq<bool>)
    ensures CountFree(free) > 0 <==> exists i :: 0 <= i < |free| && free[i]
  {
    if |free| > 0 {
      var n := |free| - 1;
      CountSome(free[..n]);
      if CountFree(free) > 0 && !free[n] {
        var i :| 0 <= i < n && free[..n][i];
        assert free[i];
      }
      if i :| 0 <= i < |free| && free[i] {
        if i < n {
          assert free[..n][i];
        }
      }
    }
  }

  // ---------- the invariant ----------

  /** The three descriptors, the header and the info of a request in flight say what it is, and
      the buffer's `disk` flag is up exactly until its completion is consumed. */
  predicate FlightOk(q: Vring, h: int, f: Flight)
    requires Shape(q)
  {
    && 0 <= h < NUM && f.mid < NUM && f.last < NUM && h != f.mid && h != f.last && f.mid != f.last
    && f.buf < NBUF && f.block < FSSIZE
    && !q.free[h] && !q.free[f.mid] && !q.free[f.last]
    && q.desc[h] == Desc(Header(h), 16, NEXT, f.mid)
    && q.desc[f.mid] == Desc(Data(f.buf), BSIZE, if f.write then NEXT else NEXT + WRITE, f.last)
    && q.desc[f.last] == Desc(Status(h), 1, WRITE, 0)
    && q.ops[h] == Request(if f.write then 1 else 0, f.block * 2)
    && q.info[h] == Info(f.buf, if f.stage.Queued? || f.stage.Fetched? then 0xff else 0)
    && (q.busy[f.buf] <==> !f.stage.Consumed?)
    && (f.write || f.stage.Done? || f.stage.Consumed? ==> q.bufs[f.buf] == f.bytes)
  }

  ghost predicate Flights(q: Vring, g: Books)
    requires Shape(q)
  {
    forall h :: h in g.flights ==> FlightOk(q, h, g.flights[h])
  }

  predicate Uses(h: int, f: Flight, i: nat) { i == h || i == f.mid || i == f.last }

  /** Descriptor i is free, and blank, or used by a request in flight. */
  predicate SlotOk(q: Vring, g: Books, i: nat)
    requires Shape(q) && i < NUM && |g.user| == NUM
  {
    if q.free[i] then q.desc[i] == ZERO && g.user[i] == -1
    else g.user[i] in g.flights && Uses(g.user[i], g.flights[g.user[i]], i)
  }

  /** No other request uses the descriptors and the buffer of request h. */
  predicate Alone(g: Books, h: int)
    requires |g.user| == NUM && |g.holder| == NBUF && h in g.flights
  {
    var f := g.flights[h];
    && 0 <= h < NUM && f.mid < NUM && f.last < NUM && f.buf < NBUF
    && g.user[h] == h && g.user[f.mid] == h && g.user[f.last] == h && g.holder[f.buf] == h
  }

  /** Free descriptors and those of the requests in flight partition the table. */
  ghost predicate Partition(q: Vring, g: Books)
    requires Shape(q)
  {
    && |g.user| == NUM && |g.holder| == NBUF
    && (forall i :: 0 <= i < NUM ==> SlotOk(q, g, i))
    && (forall h :: h in g.flights ==> Alone(g, h))
    && (forall b :: 0 <= b < NBUF && g.holder[b] != -1 ==> g.holder[b] in g.flights && g.flights[g.holder[b]].buf == b)
  }

  /** Descriptors and requests are conserved. */
  ghost predicate Counted(q: Vring, g: Books)
    requires Shape(q)
  {
    && CountFree(q.free) + 3 * |g.flights| == NUM
    && g.finished <= g.consumed <= g.completed <= g.fetched <= g.submitted
    && |g.flights| == g.submitted - g.finished
    && |g.fetchedHeads| == g.fetched - g.completed
    && |g.consumedHeads| == g.consumed - g.finished
    && (forall h :: h in g.fetchedHeads <==> h in g.flights && g.flights[h].stage.Fetched?)
    && (forall h :: h in g.consumedHeads <==> h in g.flights && g.flights[h].stage.Consumed?)
  }

  /** The live part of the available ring holds exactly the queued requests, in order. */
  ghost predicate AvailOk(q: Vring, g: Books)
    requires Shape(q)
  {
    && q.availIdx == Low16(g.submitted) && q.seen == Low16(g.fetched)
    && (forall k :: g.fetched <= k < g.submitted ==> InRing(q.avail, g, k, Queued(k)))
    && (forall h :: h in g.flights && g.flights[h].stage.Queued? ==>
          var k := g.flights[h].stage.at; g.fetched <= k < g.submitted && q.avail[Slot(k)] == h)
  }

  predicate InRing(ring: seq<nat>, g: Books, k: nat, stage: Stage)
    requires |ring| == NUM
  {
    ring[Slot(k)] in g.flights && g.flights[ring[Slot(k)]].stage == stage
  }

  /** The live part of the used ring holds exactly the completions not yet consumed. */
  ghost predicate UsedOk(q: Vring, g: Books)
    requires Shape(q)
  {
    && q.usedIdx == Low16(g.completed) && q.consumedIdx == Low16(g.consumed)
    && (forall k :: g.consumed <= k < g.completed ==> InRing(q.used, g, k, Done(k)))
    && (forall h :: h in g.flights && g.flights[h].stage.Done? ==>
          var k := g.flights[h].stage.at; g.consumed <= k < g.completed && q.used[Slot(k)] == h)
  }

  ghost predicate Inv(q: Vring, g: Books) {
    Shape(q) && Flights(q, g) && Partition(q, g) && Counted(q, g) && AvailOk(q, g) && UsedOk(q, g)
  }

  /** At most two requests are in flight, and a third fits exactly when there are fewer. */
  lemma AtMostTwo(q: Vring, g: Books)
    requires Inv(q, g)
    ensures |g.flights| <= 2 && (CountFree(q.free) >= 3 <==> |g.flights| < 2)
    ensures g.finished <= g.consumed <= g.completed <= g.fetched <= g.submitted <= g.finished + 2
  {
    hide Flights, Partition, AvailOk, UsedOk;
  }

  /** Sixteen bits tell whether a ring is empty, whatever the indices have wrapped to, and select
      the right slot. */
  lemma IndicesSuffice(a: nat, b: nat)
    requires a <= b <= a + 2
    ensures Low16(a) != Low16(b) <==> a < b
    ensures Slot(Low16(a)) == Slot(a) && Low16(a + 1) == Low16(Low16(a) + 1)
  {
    hide Low16, Slot;
    NextIndex(a);
    NextIndex(a + 1);
    SlotOfIndex(a);
  }

  lemma NextIndex(a: nat)
    ensures Low16(a) < WRAP && Low16(a + 1) == Low16(Low16(a) + 1)
    ensures Low16(a + 1) == if Low16(a) + 1 == WRAP then 0 else Low16(a) + 1
  {}

  lemma SlotOfIndex(a: nat)
    ensures Slot(Low16(a)) == Slot(a)
  {}

  // ---------- submitting ----------

  /** The ring once a request on buffer b, with free descriptors h, mid and last, is submitted. */
  function Submitted(q: Vring, h: nat, mid: nat, last: nat, b: nat, block: nat, write: bool): Vring
    requires Shape(q) && h < NUM && mid < NUM && last < NUM && b < NBUF
  {
    q.(free := q.free[h := false][mid := false][last := false],
       desc := q.desc[h := Desc(Header(h), 16, NEXT, mid)]
                     [mid := Desc(Data(b), BSIZE, if write then NEXT else NEXT + WRITE, last)]
                     [last := Desc(Status(h), 1, WRITE, 0)],
       ops := q.ops[h := Request(if write then 1 else 0, block * 2)],
       info := q.info[h := Info(b, 0xff)],
       busy := q.busy[b := true],
       avail := q.avail[Slot(q.availIdx) := h],
       availIdx := Low16(q.availIdx + 1))
  }

  function SubmittedBooks(q: Vring, g: Books, h: nat, mid: nat, last: nat, b: nat, block: nat, write: bool): Books
    requires Shape(q) && h < NUM && mid < NUM && last < NUM && b < NBUF && |g.user| == NUM && |g.holder| == NBUF
  {
    g.(flights := g.flights[h := Flight(b, block, write, mid, last, Queued(g.submitted), q.bufs[b])],
       user := g.user[h := h][mid := h][last := h], holder := g.holder[b := h],
       submitted := g.submitted + 1)
  }

  /** What submitting needs: three different free descriptors, a block of the disk, and a buffer
      that no request uses. */
  ghost predicate CanSubmit(q: Vring, g: Books, h: nat, mid: nat, last: nat, b: nat, block: nat) {
    && Inv(q, g) && h < NUM && mid < NUM && last < NUM && h != mid && h != last && mid != last
    && q.free[h] && q.free[mid] && q.free[last]
    && b < NBUF && block < FSSIZE && g.holder[b] == -1
  }

  lemma SubmitFlights(q: Vring, g: Books, h: nat, mid: nat, last: nat, b: nat, block: nat, write: bool)
    requires CanSubmit(q, g, h, mid, last, b, block)
    ensures h !in g.flights
    ensures Flights(Submitted(q, h, mid, last, b, block, write), SubmittedBooks(q, g, h, mid, last, b, block, write))
  {
    hide Counted, AvailOk, UsedOk, SlotOk;
    var q', g' := Submitted(q, h, mid, last, b, block, write), SubmittedBooks(q, g, h, mid, last, b, block, write);
    forall k | k in g.flights ensures FlightOk(q', k, g.flights[k]) {
      assert FlightOk(q, k, g.flights[k]) && Alone(g, k);
    }
  }

  lemma SubmitPartition(q: Vring, g: Books, h: nat, mid: nat, last: nat, b: nat, block: nat, write: bool)
    requires CanSubmit(q, g, h, mid, last, b, block) && h !in g.flights
    ensures Partition(Submitted(q, h, mid, last, b, block, write), SubmittedBooks(q, g, h, mid, last, b, block, write))
  {
    hide Counted, AvailOk, UsedOk, Flights;
    var q', g' := Submitted(q, h, mid, last, b, block, write), SubmittedBooks(q, g, h, mid, last, b, block, write);
    assert SlotOk(q, g, h) && SlotOk(q, g, mid) && SlotOk(q, g, last);
    forall i | 0 <= i < NUM ensures SlotOk(q', g', i) {
      assert SlotOk(q, g, i);
    }
    forall k | k in g'.flights ensures Alone(g', k) {
      if k != h {
        assert Alone(g, k);
      }
    }
  }

  lemma SubmitCounted(q: Vring, g: Books, h: nat, mid: nat, last: nat, b: nat, block: nat, write: bool)
    requires CanSubmit(q, g, h, mid, last, b, block) && h !in g.flights
    ensures Counted(Submitted(q, h, mid, last, b, block, write), SubmittedBooks(q, g, h, mid, last, b, block, write))
  {
    hide SlotOk, Alone, AvailOk, UsedOk, Flights, CountFree;
    CountChange(q.free, h, false);
    CountChange(q.free[h := false], mid, false);
    CountChange(q.free[h := false][mid := false], last, false);
  }

  lemma SubmitAvail(q: Vring, g: Books, h: nat, mid: nat, last: nat, b: nat, block: nat, write: bool)
    requires CanSubmit(q, g, h, mid, last, b, block) && h !in g.flights
    ensures AvailOk(Submitted(q, h, mid, last, b, block, write), SubmittedBooks(q, g, h, mid, last, b, block, write))
  {
    hide Flights, SlotOk, Alone, UsedOk, Slot, Low16, Counted;
    AtMostTwo(q, g);
    var q', g' := Submitted(q, h, mid, last, b, block, write), SubmittedBooks(q, g, h, mid, last, b, block, write);
    IndicesSuffice(g.submitted, g.submitted);
    assert q'.avail == q.avail[Slot(g.submitted) := h];
    RingGrows(q, g, q'.avail, g', h);
  }

  /** One more entry at the end of the available ring. */
  lemma RingGrows(q: Vring, g: Books, ring: seq<nat>, g': Books, h: nat)
    requires Shape(q) && AvailOk(q, g) && g.fetched <= g.submitted <= g.fetched + 2 && h !in g.flights
    requires ring == q.avail[Slot(g.submitted) := h] && g'.fetched == g.fetched && g'.submitted == g.submitted + 1
    requires h in g'.flights && g'.flights == g.flights[h := g'.flights[h]]
    requires g'.flights[h].stage == Queued(g.submitted)
    ensures forall k :: g'.fetched <= k < g'.submitted ==> InRing(ring, g', k, Queued(k))
    ensures forall k :: k in g'.flights && g'.flights[k].stage.Queued? ==>
              var at := g'.flights[k].stage.at; g'.fetched <= at < g'.submitted && ring[Slot(at)] == k
  {
    hide Slot, Low16;
    forall k | g'.fetched <= k < g'.submitted ensures InRing(ring, g', k, Queued(k)) {
      if k < g.submitted {
        assert InRing(q.avail, g, k, Queued(k));
        OtherSlot(k, g.submitted);
      }
    }
    forall k | k in g.flights && g.flights[k].stage.Queued? ensures ring[Slot(g.flights[k].stage.at)] == k {
      OtherSlot(g.flights[k].stage.at, g.submitted);
    }
  }

  lemma SubmitUsed(q: Vring, g: Books, h: nat, mid: nat, last: nat, b: nat, block: nat, write: bool)
    requires CanSubmit(q, g, h, mid, last, b, block) && h !in g.flights
    ensures UsedOk(Submitted(q, h, mid, last, b, block, write), SubmittedBooks(q, g, h, mid, last, b, block, write))
  {
    hide Flights, SlotOk, Alone, AvailOk, Counted;
    var q', g' := Submitted(q, h, mid, last, b, block, write), SubmittedBooks(q, g, h, mid, last, b, block, write);
    forall k | g'.consumed <= k < g'.completed ensures InRing(q'.used, g', k, Done(k)) {
      assert InRing(q.used, g, k, Done(k));
    }
  }

  lemma OtherSlot(a: nat, b: nat)
    requires a < b < a + NUM
    ensures Slot(a) != Slot(b)
  {}

  /** Submitting keeps the invariant. */
  lemma SubmitKeeps(q: Vring, g: Books, h: nat, mid: nat, last: nat, b: nat, block: nat, write: bool)
    requires CanSubmit(q, g, h, mid, last, b, block)
    ensures Inv(Submitted(q, h, mid, last, b, block, write), SubmittedBooks(q, g, h, mid, last, b, block, write))
  {
    hide Counted, AvailOk, UsedOk, Flights, SlotOk, Alone;
    SubmitFlights(q, g, h, mid, last, b, block, write);
    SubmitPartition(q, g, h, mid, last, b, block, write);
    SubmitCounted(q, g, h, mid, last, b, block, write);
    SubmitAvail(q, g, h, mid, last, b, block, write);
    SubmitUsed(q, g, h, mid, last, b, block, write);
  }

  // ---------- the device ----------

  /** Request h moves on; its descriptors, buffer and block stay. */
  function Moved(g: Books, h: int, stage: Stage): Books
    requires h in g.flights
  {
    g.(flights := g.flights[h := g.flights[h].(stage := stage)])
  }

  lemma MovedPartition(q: Vring, g: Books, q': Vring, g': Books, h: int)
    requires Shape(q) && Shape(q') && Partition(q, g) && q'.free == q.free && q'.desc == q.desc
    requires h in g.flights && g'.user == g.user && g'.holder == g.holder
    requires h in g'.flights && g'.flights == g.flights[h := g'.flights[h]]
    requires var f, f' := g.flights[h], g'.flights[h]; f'.buf == f.buf && f'.mid == f.mid && f'.last == f.last
    ensures Partition(q', g')
  {
    forall i | 0 <= i < NUM ensures SlotOk(q', g', i) {
      assert SlotOk(q, g, i);
    }
    forall k | k in g'.flights ensures Alone(g', k) {
      assert Alone(g, k);
    }
  }

  /** The device takes the next request off the available ring. */
  function Fetch(q: Vring): Vring {
    q.(seen := Low16(q.seen + 1))
  }

  function FetchBooks(g: Books, h: int): Books
    requires h in g.flights
  {
    Moved(g, h, Fetched).(fetchedHeads := g.fetchedHeads + {h}, fetched := g.fetched + 1)
  }

  lemma FetchFinds(q: Vring, g: Books)
    requires Inv(q, g)
    ensures q.seen != q.availIdx <==> g.fetched < g.submitted
    ensures g.fetched < g.submitted ==> InRing(q.avail, g, q.seen, Queued(g.fetched))
  {
    hide Flights, Partition, Slot, Low16, Counted;
    AtMostTwo(q, g);
    IndicesSuffice(g.fetched, g.submitted);
    if g.fetched < g.submitted {
      assert InRing(q.avail, g, g.fetched, Queued(g.fetched));
    }
  }

  lemma FetchRings(q: Vring, g: Books, h: int)
    requires Inv(q, g) && g.fetched < g.submitted && h == q.avail[Slot(q.seen)] && h in g.flights
    requires g.flights[h].stage == Queued(g.fetched)
    ensures AvailOk(Fetch(q), FetchBooks(g, h)) && UsedOk(Fetch(q), FetchBooks(g, h))
  {
    hide Flights, Partition, Slot, Low16, Counted;
    AtMostTwo(q, g);
    var q', g' := Fetch(q), FetchBooks(g, h);
    IndicesSuffice(g.fetched, g.submitted);
    forall k | g'.fetched <= k < g'.submitted ensures InRing(q'.avail, g', k, Queued(k)) {
      assert InRing(q.avail, g, k, Queued(k));
    }
    forall k | g'.consumed <= k < g'.completed ensures InRing(q'.used, g', k, Done(k)) {
      assert InRing(q.used, g, k, Done(k));
    }
  }

  lemma FetchFlights(q: Vring, g: Books, h: int)
    requires Shape(q) && Flights(q, g) && h in g.flights && g.flights[h].stage.Queued?
    ensures Flights(Fetch(q), FetchBooks(g, h))
  {
    var q', g' := Fetch(q), FetchBooks(g, h);
    forall k | k in g'.flights ensures FlightOk(q', k, g'.flights[k]) {
      assert FlightOk(q, k, g.flights[k]);
    }
  }

  lemma FetchCounted(q: Vring, g: Books, h: int)
    requires Shape(q) && Counted(q, g) && h in g.flights && g.flights[h].stage.Queued? && g.fetched < g.submitted
    ensures Counted(Fetch(q), FetchBooks(g, h))
  {
    hide CountFree;
  }

  lemma FetchKeeps(q: Vring, g: Books, h: int)
    requires Inv(q, g) && q.seen != q.availIdx && h == q.avail[Slot(q.seen)]
    ensures h in g.flights && g.flights[h].stage == Queued(g.fetched) && Inv(Fetch(q), FetchBooks(g, h))
  {
    hide AvailOk, UsedOk, Partition, Slot, Low16, Counted, Flights;
    FetchFinds(q, g);
    FetchRings(q, g, h);
    FetchFlights(q, g, h);
    FetchCounted(q, g, h);
    MovedPartition(q, g, Fetch(q), FetchBooks(g, h), h);
  }

  // What the device makes of a descriptor (sections 2.6.5 and 5.2.6 of VIRTIO 1.1): bit 0 of the flags says
  // that another one follows, bit 1 that the device may write into the memory described, and only there.

  predicate Chained(d: Desc) { d.flags % 2 == 1 && d.next < NUM }

  predicate ForDevice(d: Desc) { d.flags / 2 % 2 == 1 }

  /** The first n bytes of a block moved over another. */
  function CopyPart(from: Block, to: Block, n: nat): Block {
    if n <= BSIZE then from[..n] + to[n..] else from
  }

  /** The three descriptors of request h, as the device follows the chain; blank ones where it ends. */
  function Chain(q: Vring, h: nat): (Desc, Desc, Desc)
    requires Shape(q) && h < NUM
  {
    var d0 := q.desc[h];
    var d1 := if Chained(d0) then q.desc[d0.next] else ZERO;
    var d2 := if Chained(d1) then q.desc[d1.next] else ZERO;
    (d0, d1, d2)
  }

  /** A chain that the device carries out: a header of sixteen bytes, a part of a block at the start of one,
      readable for a write to the disk and writable for a read, and a status byte to write into. */
  predicate WellMade(q: Vring, c: (Desc, Desc, Desc))
    requires Shape(q)
  {
    && c.0.addr.Header? && c.0.addr.op < NUM && c.0.len == 16 && !ForDevice(c.0)
    && c.1.addr.Data? && c.1.addr.buf < NBUF && c.1.len <= BSIZE
    && c.2.addr.Status? && c.2.addr.info < NUM && c.2.len == 1 && ForDevice(c.2) && !Chained(c.2)
    && var r := q.ops[c.0.addr.op];
       && r.sector * 512 % BSIZE == 0 && r.sector * 512 / BSIZE < FSSIZE
       && (r.kind == 0 || r.kind == 1) && (ForDevice(c.1) <==> r.kind == 0)
  }

  /** The device carries out request h, following its descriptors: it moves as many bytes as the data
      descriptor has, writes the status, and reports the request in the used ring. A chain that is not well
      made it leaves alone. */
  function Complete(q: Vring, h: nat): Vring
    requires Shape(q) && h < NUM
  {
    var c := Chain(q, h);
    if WellMade(q, c) then
      var b, n, i, r := c.1.addr.buf, c.1.len, c.2.addr.info, q.ops[c.0.addr.op];
      var block := r.sector * 512 / BSIZE;
      q.(disk := if r.kind == 1 then q.disk[block := CopyPart(q.bufs[b], q.disk[block], n)] else q.disk,
         bufs := if r.kind == 0 then q.bufs[b := CopyPart(q.disk[block], q.bufs[b], n)] else q.bufs,
         info := q.info[i := q.info[i].(status := 0)],
         used := q.used[Slot(q.usedIdx) := h], usedIdx := Low16(q.usedIdx + 1))
    else q
  }

  function CompleteBooks(q: Vring, g: Books, h: int): Books
    requires h in g.flights && g.flights[h].block < FSSIZE
  {
    var f := g.flights[h];
    var bytes := if f.write then f.bytes else q.disk[f.block];
    g.(flights := g.flights[h := f.(stage := Done(g.completed), bytes := bytes)],
       fetchedHeads := g.fetchedHeads - {h}, completed := g.completed + 1)
  }

  /** What completing a request does: a write puts the submitted bytes into its block, a read the
      bytes of its block into its buffer. */
  lemma CompleteMeans(q: Vring, g: Books, h: nat)
    requires Inv(q, g) && h in g.flights && g.flights[h].stage.Fetched?
    ensures h < NUM && g.flights[h].block < FSSIZE && g.flights[h].buf < NBUF
    ensures var f := g.flights[h];
            Complete(q, h) ==
            q.(disk := if f.write then q.disk[f.block := f.bytes] else q.disk,
               bufs := if f.write then q.bufs else q.bufs[f.buf := q.disk[f.block]],
               info := q.info[h := Info(f.buf, 0)],
               used := q.used[Slot(q.usedIdx) := h], usedIdx := Low16(q.usedIdx + 1))
  {
    hide Partition, AvailOk, UsedOk, Counted, Slot, Low16;
    assert FlightOk(q, h, g.flights[h]);
    var f := g.flights[h];
    assert Chain(q, h) == (q.desc[h], q.desc[f.mid], q.desc[f.last]);
    AllMoved(q.bufs[f.buf], q.disk[f.block]);
    AllMoved(q.disk[f.block], q.bufs[f.buf]);
  }

  lemma AllMoved(from: Block, to: Block)
    ensures CopyPart(from, to, BSIZE) == from
  {}

  lemma CompleteFlights(q: Vring, g: Books, h: nat)
    requires Inv(q, g) && h in g.flights && g.flights[h].stage.Fetched? && h < NUM && g.flights[h].block < FSSIZE
    ensures Flights(Complete(q, h), CompleteBooks(q, g, h))
  {
    hide AvailOk, UsedOk, Counted, Slot, Low16, Complete, SlotOk;
    CompleteMeans(q, g, h);
    var q', g' := Complete(q, h), CompleteBooks(q, g, h);
    assert FlightOk(q, h, g.flights[h]) && Alone(g, h);
    forall k | k in g'.flights ensures FlightOk(q', k, g'.flights[k]) {
      assert FlightOk(q, k, g.flights[k]) && Alone(g, k);
    }
  }

  lemma CompleteRings(q: Vring, g: Books, h: nat)
    requires Inv(q, g) && h in g.flights && g.flights[h].stage.Fetched? && h < NUM && g.flights[h].block < FSSIZE
    ensures AvailOk(Complete(q, h), CompleteBooks(q, g, h)) && UsedOk(Complete(q, h), CompleteBooks(q, g, h))
  {
    hide Flights, Partition, Slot, Low16, Counted, Complete;
    AtMostTwo(q, g);
    CompleteMeans(q, g, h);
    var q', g' := Complete(q, h), CompleteBooks(q, g, h);
    IndicesSuffice(g.completed, g.completed);
    assert q'.used == q.used[Slot(g.completed) := h];
    forall k | g'.fetched <= k < g'.submitted ensures InRing(q'.avail, g', k, Queued(k)) {
      assert InRing(q.avail, g, k, Queued(k));
    }
    forall k | g'.consumed <= k < g'.completed ensures InRing(q'.used, g', k, Done(k)) {
      if k < g.completed {
        assert InRing(q.used, g, k, Done(k));
        OtherSlot(k, g.completed);
      }
    }
    forall k | k in g.flights && g.flights[k].stage.Done? ensures q'.used[Slot(g.flights[k].stage.at)] == k {
      OtherSlot(g.flights[k].stage.at, g.completed);
    }
  }

  lemma CompleteKeeps(q: Vring, g: Books, h: nat)
    requires Inv(q, g) && h in g.flights && g.flights[h].stage.Fetched?
    ensures h < NUM && g.flights[h].block < FSSIZE && Inv(Complete(q, h), CompleteBooks(q, g, h))
  {
    hide AvailOk, UsedOk, Flights, Partition, Slot, Low16, Complete, Counted;
    CompleteMeans(q, g, h);
    CompleteFlights(q, g, h);
    CompleteRings(q, g, h);
    CompleteCounted(q, g, Complete(q, h), h);
    MovedPartition(q, g, Complete(q, h), CompleteBooks(q, g, h), h);
  }

  lemma CompleteCounted(q: Vring, g: Books, q': Vring, h: nat)
    requires Shape(q) && Shape(q') && Counted(q, g) && q'.free == q.free
    requires h in g.flights && g.flights[h].stage.Fetched? && g.flights[h].block < FSSIZE
    ensures Counted(q', CompleteBooks(q, g, h))
  {
    hide CountFree;
    assert h in g.fetchedHeads;
    SetPositive(g.fetchedHeads, h);
  }

  lemma SetPositive(s: set<int>, x: int)
    requires x in s
    ensures |s| > 0 && |s - {x}| == |s| - 1
  {}

  // ---------- completing ----------

  /** One round of virtio_disk_process_used. */
  function Consume(q: Vring): Vring
    requires Shape(q)
  {
    var id := q.used[Slot(q.consumedIdx)];
    var b := if id < NUM then q.info[id].buf else -1;
    q.(busy := if 0 <= b < NBUF then q.busy[b := false] else q.busy, consumedIdx := Low16(q.consumedIdx + 1))
  }

  function ConsumeBooks(g: Books, h: int): Books
    requires h in g.flights
  {
    Moved(g, h, Consumed).(consumedHeads := g.consumedHeads + {h}, consumed := g.consumed + 1)
  }

  /** The next completion, if there is one, is that of a request that is done, with status 0. */
  lemma ConsumeFinds(q: Vring, g: Books)
    requires Inv(q, g)
    ensures q.consumedIdx != q.usedIdx <==> g.consumed < g.completed
    ensures g.consumed < g.completed ==>
              var h := q.used[Slot(q.consumedIdx)];
              && h in g.flights && g.flights[h].stage == Done(g.consumed) && h < NUM && g.flights[h].buf < NBUF
              && q.info[h] == Info(g.flights[h].buf, 0)
  {
    hide Partition, Slot, Low16, Counted;
    AtMostTwo(q, g);
    IndicesSuffice(g.consumed, g.completed);
    if g.consumed < g.completed {
      assert InRing(q.used, g, g.consumed, Done(g.consumed));
      var h := q.used[Slot(q.consumedIdx)];
      assert FlightOk(q, h, g.flights[h]);
    }
  }

  lemma ConsumeFlights(q: Vring, g: Books, h: int)
    requires Inv(q, g) && g.consumed < g.completed && h == q.used[Slot(q.consumedIdx)] && h in g.flights
    requires g.flights[h].stage == Done(g.consumed)
    ensures Flights(Consume(q), ConsumeBooks(g, h))
  {
    hide AvailOk, UsedOk, Counted, Slot, Low16, SlotOk;
    var q', g' := Consume(q), ConsumeBooks(g, h);
    assert FlightOk(q, h, g.flights[h]) && Alone(g, h);
    forall k | k in g'.flights ensures FlightOk(q', k, g'.flights[k]) {
      assert FlightOk(q, k, g.flights[k]) && Alone(g, k);
    }
  }

  lemma ConsumeRings(q: Vring, g: Books, h: int)
    requires Inv(q, g) && g.consumed < g.completed && h == q.used[Slot(q.consumedIdx)] && h in g.flights
    requires g.flights[h].stage == Done(g.consumed)
    ensures AvailOk(Consume(q), ConsumeBooks(g, h)) && UsedOk(Consume(q), ConsumeBooks(g, h))
  {
    hide Flights, Partition, Slot, Low16, Counted;
    AtMostTwo(q, g);
    var q', g' := Consume(q), ConsumeBooks(g, h);
    IndicesSuffice(g.consumed, g.completed);
    forall k | g'.fetched <= k < g'.submitted ensures InRing(q'.avail, g', k, Queued(k)) {
      assert InRing(q.avail, g, k, Queued(k));
    }
    forall k | g'.consumed <= k < g'.completed ensures InRing(q'.used, g', k, Done(k)) {
      assert InRing(q.used, g, k, Done(k));
    }
  }

  /** Consuming a completion clears the flag of its own buffer and of no other. */
  lemma ConsumeKeeps(q: Vring, g: Books, h: int)
    requires Inv(q, g) && q.consumedIdx != q.usedIdx && h == q.used[Slot(q.consumedIdx)]
    ensures h in g.flights && g.flights[h].stage == Done(g.consumed) && Inv(Consume(q), ConsumeBooks(g, h))
    ensures g.flights[h].buf < NBUF && Consume(q).busy == q.busy[g.flights[h].buf := false]
  {
    hide AvailOk, UsedOk, Flights, Partition, Slot, Low16, Counted;
    ConsumeFinds(q, g);
    ConsumeFlights(q, g, h);
    ConsumeRings(q, g, h);
    ConsumeCounted(q, g, Consume(q), h);
    MovedPartition(q, g, Consume(q), ConsumeBooks(g, h), h);
  }

  lemma ConsumeCounted(q: Vring, g: Books, q': Vring, h: int)
    requires Shape(q) && Shape(q') && Counted(q, g) && q'.free == q.free && g.consumed < g.completed
    requires h in g.flights && g.flights[h].stage.Done?
    ensures Counted(q', ConsumeBooks(g, h))
  {
    hide CountFree;
    assert h !in g.consumedHeads;
  }

  /** The end of virtio_disk_rw: the request is forgotten and its chain freed. */
  function Finish(q: Vring, h: nat, mid: nat, last: nat): Vring
    requires Shape(q) && h < NUM && mid < NUM && last < NUM
  {
    q.(info := q.info[h := q.info[h].(buf := -1)],
       desc := q.desc[h := ZERO][mid := ZERO][last := ZERO],
       free := q.free[h := true][mid := true][last := true])
  }

  function FinishBooks(g: Books, h: int): Books
    requires |g.user| == NUM && |g.holder| == NBUF && h in g.flights && Alone(g, h)
  {
    var f := g.flights[h];
    g.(flights := g.flights - {h}, user := g.user[h := -1][f.mid := -1][f.last := -1], holder := g.holder[f.buf := -1],
       consumedHeads := g.consumedHeads - {h}, finished := g.finished + 1)
  }

  ghost predicate CanFinish(q: Vring, g: Books, h: nat) {
    Inv(q, g) && h in g.flights && g.flights[h].stage.Consumed? && Alone(g, h)
  }

  lemma FinishFlights(q: Vring, g: Books, h: nat)
    requires CanFinish(q, g, h)
    ensures Flights(Finish(q, h, g.flights[h].mid, g.flights[h].last), FinishBooks(g, h))
  {
    hide AvailOk, UsedOk, Counted, SlotOk;
    var q', g' := Finish(q, h, g.flights[h].mid, g.flights[h].last), FinishBooks(g, h);
    forall k | k in g'.flights ensures FlightOk(q', k, g'.flights[k]) {
      assert FlightOk(q, k, g.flights[k]) && Alone(g, k);
    }
  }

  lemma FinishPartition(q: Vring, g: Books, h: nat)
    requires CanFinish(q, g, h)
    ensures Partition(Finish(q, h, g.flights[h].mid, g.flights[h].last), FinishBooks(g, h))
  {
    hide AvailOk, UsedOk, Counted, Flights;
    var q', g' := Finish(q, h, g.flights[h].mid, g.flights[h].last), FinishBooks(g, h);
    forall i | 0 <= i < NUM ensures SlotOk(q', g', i) {
      assert SlotOk(q, g, i);
      if !q.free[i] && g.user[i] != h {
        assert Alone(g, g.user[i]);
      }
    }
    forall k | k in g'.flights ensures Alone(g', k) {
      assert Alone(g, k);
    }
  }

  lemma FinishCounted(q: Vring, g: Books, h: nat)
    requires CanFinish(q, g, h)
    ensures Counted(Finish(q, h, g.flights[h].mid, g.flights[h].last), FinishBooks(g, h))
  {
    hide AvailOk, UsedOk, SlotOk, CountFree, Counted, Flights;
    FinishFree(q, g, h);
    FinishNumbers(q, g, Finish(q, h, g.flights[h].mid, g.flights[h].last), h);
  }

  lemma FinishFree(q: Vring, g: Books, h: nat)
    requires Shape(q) && Flights(q, g) && h in g.flights && h < NUM && g.flights[h].mid < NUM && g.flights[h].last < NUM
    ensures CountFree(Finish(q, h, g.flights[h].mid, g.flights[h].last).free) == CountFree(q.free) + 3
  {
    hide CountFree;
    var f := g.flights[h];
    assert FlightOk(q, h, f);
    CountChange(q.free, h, true);
    CountChange(q.free[h := true], f.mid, true);
    CountChange(q.free[h := true][f.mid := true], f.last, true);
  }

  lemma FinishNumbers(q: Vring, g: Books, q': Vring, h: nat)
    requires Shape(q) && Shape(q') && Counted(q, g) && CountFree(q'.free) == CountFree(q.free) + 3
    requires |g.user| == NUM && |g.holder| == NBUF && h in g.flights && Alone(g, h) && g.flights[h].stage.Consumed?
    ensures Counted(q', FinishBooks(g, h))
  {
    hide CountFree, Alone;
    assert h in g.consumedHeads;
    SetPositive(g.consumedHeads, h);
    MapMinus(g.flights, h);
  }

  lemma MapMinus(m: map<int, Flight>, h: int)
    requires h in m
    ensures |m - {h}| == |m| - 1
  {
    assert m == (m - {h})[h := m[h]];
  }

  lemma FinishRings(q: Vring, g: Books, h: nat)
    requires CanFinish(q, g, h)
    ensures AvailOk(Finish(q, h, g.flights[h].mid, g.flights[h].last), FinishBooks(g, h))
    ensures UsedOk(Finish(q, h, g.flights[h].mid, g.flights[h].last), FinishBooks(g, h))
  {
    hide Flights, SlotOk, Slot, Low16, Counted;
    var q', g' := Finish(q, h, g.flights[h].mid, g.flights[h].last), FinishBooks(g, h);
    forall k | g'.fetched <= k < g'.submitted ensures InRing(q'.avail, g', k, Queued(k)) {
      assert InRing(q.avail, g, k, Queued(k));
    }
    forall k | g'.consumed <= k < g'.completed ensures InRing(q'.used, g', k, Done(k)) {
      assert InRing(q.used, g, k, Done(k));
    }
  }

  lemma FinishKeeps(q: Vring, g: Books, h: nat)
    requires CanFinish(q, g, h)
    ensures Inv(Finish(q, h, g.flights[h].mid, g.flights[h].last), FinishBooks(g, h))
  {
    hide AvailOk, UsedOk, Flights, Counted;
    FinishFlights(q, g, h);
    FinishPartition(q, g, h);
    FinishCounted(q, g, h);
    FinishRings(q, g, h);
  }
}
