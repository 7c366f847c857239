/** virtio_disk.c: the driver's methods on the virtqueue, and the device's moves between them. */
module VirtioDisk {
  import opened Blocks
  import opened Virtqueue

  // ---------- whole runs ----------

  /** A move of the driver (submit, consume one completion, finish) or of the device. */
  datatype Move =
    | Submits(head: nat, mid: nat, last: nat, buf: nat, block: nat, write: bool)
    | Fetches
    | Completes(head: nat)
    | Consumes
    | Finishes(head: nat)

  datatype State = State(q: Vring, g: Books)

  ghost predicate Enabled(s: State, a: Move) {
    match a
    case Submits(h, mid, last, b, block, write) => CanSubmit(s.q, s.g, h, mid, last, b, block)
    case Fetches => s.q.seen != s.q.availIdx
    case Completes(h) => h in s.g.flights && s.g.flights[h].stage.Fetched?
    case Consumes => s.q.consumedIdx != s.q.usedIdx
    case Finishes(h) => h in s.g.flights && s.g.flights[h].stage.Consumed?
  }

  ghost function Moves(s: State, a: Move): (t: State)
    requires Inv(s.q, s.g) && Enabled(s, a)
    ensures Inv(t.q, t.g)
  {
    match a
    case Submits(h, mid, last, b, block, write) =>
      SubmitKeeps(s.q, s.g, h, mid, last, b, block, write);
      State(Submitted(s.q, h, mid, last, b, block, write), SubmittedBooks(s.q, s.g, h, mid, last, b, block, write))
    case Fetches =>
      FetchKeeps(s.q, s.g, s.q.avail[Slot(s.q.seen)]);
      State(Fetch(s.q), FetchBooks(s.g, s.q.avail[Slot(s.q.seen)]))
    case Completes(h) =>
      CompleteKeeps(s.q, s.g, h);
      State(Complete(s.q, h), CompleteBooks(s.q, s.g, h))
    case Consumes =>
      ConsumeKeeps(s.q, s.g, s.q.used[Slot(s.q.consumedIdx)]);
      State(Consume(s.q), ConsumeBooks(s.g, s.q.used[Slot(s.q.consumedIdx)]))
    case Finishes(h) =>
      FinishKeeps(s.q, s.g, h);
      State(Finish(s.q, h, s.g.flights[h].mid, s.g.flights[h].last), FinishBooks(s.g, h))
  }

  /** Moves that are not enabled are skipped. */
  ghost function Run(s: State, moves: seq<Move>): State
    requires Inv(s.q, s.g)
    decreases |moves|
  {
    if |moves| == 0 then s
    else Run(if Enabled(s, moves[0]) then Moves(s, moves[0]) else s, moves[1..])
  }

  /** Safety over every interleaving of driver and device: free descriptors and requests in flight
      partition the table, at most two requests are in flight, and a buffer's flag is down exactly
      when no completion is outstanding for it. */
  lemma {:induction false} RunsAreSafe(s: State, moves: seq<Move>)
    requires Inv(s.q, s.g)
    ensures var t := Run(s, moves);
            Inv(t.q, t.g) && |t.g.flights| <= 2 && CountFree(t.q.free) == NUM - 3 * |t.g.flights|
    decreases |moves|
  {
    hide Inv, Moves;
    if |moves| > 0 {
      RunsAreSafe(if Enabled(s, moves[0]) then Moves(s, moves[0]) else s, moves[1..]);
    } else {
      Bounded(s);
    }
  }

  lemma Bounded(s: State)
    requires Inv(s.q, s.g)
    ensures |s.g.flights| <= 2 && CountFree(s.q.free) == NUM - 3 * |s.g.flights|
  {
    AtMostTwo(s.q, s.g);
  }

  // ---------- one request through a run ----------

  /** Request h, submitted as f0 when its block held d0, on its way: nobody else works on its block. A
      write carries the bytes it was given and, once served, they are in the block; a read finds d0
      there and, once served, carries it. */
  ghost predicate OnItsWay(s: State, h: int, f0: Flight, d0: Block) {
    && h in s.g.flights && f0.block < FSSIZE
    && var f := s.g.flights[h];
       && f.buf == f0.buf && f.block == f0.block && f.write == f0.write && f.mid == f0.mid && f.last == f0.last
       && (forall k :: k in s.g.flights && k != h ==> s.g.flights[k].block != f0.block)
       && (f0.write ==> f.bytes == f0.bytes) && (!f0.write ==> s.q.disk[f0.block] == d0)
       && (f.stage.Done? || f.stage.Consumed? ==> s.q.disk[f0.block] == f.bytes)
  }

  /** The moves of others: they submit requests for other blocks, and do not finish this one. */
  predicate Others(a: Move, h: int, block: nat) {
    match a
    case Submits(_, _, _, _, b, _) => b != block
    case Finishes(k) => k != h
    case _ => true
  }

  lemma StillOnItsWay(s: State, a: Move, h: int, f0: Flight, d0: Block)
    requires Inv(s.q, s.g) && Enabled(s, a) && OnItsWay(s, h, f0, d0) && Others(a, h, f0.block)
    ensures OnItsWay(Moves(s, a), h, f0, d0)
  {
    hide Inv, Moves, OnItsWay;
    match a
    case Submits(k, mid, last, b, block, write) => SubmitOther(s, a, h, f0, d0);
    case Fetches => FetchOther(s, h, f0, d0);
    case Completes(k) => CompleteOther(s, k, h, f0, d0);
    case Consumes => ConsumeOther(s, h, f0, d0);
    case Finishes(k) => FinishOther(s, k, h, f0, d0);
  }

  lemma FetchOther(s: State, h: int, f0: Flight, d0: Block)
    requires Inv(s.q, s.g) && Enabled(s, Fetches) && OnItsWay(s, h, f0, d0)
    ensures OnItsWay(Moves(s, Fetches), h, f0, d0)
  {
    hide Flights, Partition, Counted, AvailOk, UsedOk, Slot, Low16;
    FetchKeeps(s.q, s.g, s.q.avail[Slot(s.q.seen)]);
  }

  lemma FinishOther(s: State, k: nat, h: int, f0: Flight, d0: Block)
    requires Inv(s.q, s.g) && Enabled(s, Finishes(k)) && OnItsWay(s, h, f0, d0) && k != h
    ensures OnItsWay(Moves(s, Finishes(k)), h, f0, d0)
  {
    hide Flights, Partition, Counted, AvailOk, UsedOk;
  }

  lemma SubmitOther(s: State, a: Move, h: int, f0: Flight, d0: Block)
    requires Inv(s.q, s.g) && a.Submits? && Enabled(s, a) && OnItsWay(s, h, f0, d0) && Others(a, h, f0.block)
    ensures OnItsWay(Moves(s, a), h, f0, d0)
  {
    hide Flights, Partition, Counted, AvailOk, UsedOk;
    SubmitFresh(s.q, s.g, a.head, a.mid, a.last, a.buf, a.block);
  }

  lemma CompleteOther(s: State, k: nat, h: int, f0: Flight, d0: Block)
    requires Inv(s.q, s.g) && k in s.g.flights && s.g.flights[k].stage.Fetched? && OnItsWay(s, h, f0, d0)
    ensures OnItsWay(Moves(s, Completes(k)), h, f0, d0)
  {
    hide Flights, Partition, Counted, AvailOk, UsedOk, Complete, Slot, Low16;
    CompleteMeans(s.q, s.g, k);
    CompleteKeeps(s.q, s.g, k);
  }

  lemma ConsumeOther(s: State, h: int, f0: Flight, d0: Block)
    requires Inv(s.q, s.g) && s.q.consumedIdx != s.q.usedIdx && OnItsWay(s, h, f0, d0)
    ensures OnItsWay(Moves(s, Consumes), h, f0, d0)
  {
    hide Flights, Partition, Counted, AvailOk, UsedOk, Slot, Low16;
    ConsumeKeeps(s.q, s.g, s.q.used[Slot(s.q.consumedIdx)]);
  }

  /** virtio_disk_rw as a whole: from the submission on, whatever device and driver do in between, once
      the flag of its buffer is down a write has left the submitted bytes in its block, and a read has
      left the bytes of its block in its buffer. */
  lemma {:induction false} RequestIsServed(s: State, h: int, f0: Flight, d0: Block, moves: seq<Move>)
    requires Inv(s.q, s.g) && OnItsWay(s, h, f0, d0) && forall k :: 0 <= k < |moves| ==> Others(moves[k], h, f0.block)
    ensures var t := Run(s, moves);
            && Inv(t.q, t.g) && OnItsWay(t, h, f0, d0) && f0.buf < NBUF
            && (!t.q.busy[f0.buf] ==>
                  if f0.write then t.q.disk[f0.block] == f0.bytes else t.q.disk[f0.block] == t.q.bufs[f0.buf] == d0)
    decreases |moves|
  {
    hide Inv, Moves, OnItsWay, Others;
    if |moves| > 0 {
      if Enabled(s, moves[0]) {
        StillOnItsWay(s, moves[0], h, f0, d0);
      }
      RequestIsServed(if Enabled(s, moves[0]) then Moves(s, moves[0]) else s, h, f0, d0, moves[1..]);
    } else {
      FlagDown(s, h, f0, d0);
    }
  }

  lemma FlagDown(s: State, h: int, f0: Flight, d0: Block)
    requires Inv(s.q, s.g) && OnItsWay(s, h, f0, d0)
    ensures && f0.buf < NBUF
            && (!s.q.busy[f0.buf] ==>
                  if f0.write then s.q.disk[f0.block] == f0.bytes else s.q.disk[f0.block] == s.q.bufs[f0.buf] == d0)
  {
    hide Partition, Counted, AvailOk, UsedOk;
    assert FlightOk(s.q, h, s.g.flights[h]);
  }

  /** It is on its way when it is submitted for a block that nobody else works on. */
  lemma SubmittedIsOnItsWay(s: State, a: Move)
    requires Inv(s.q, s.g) && a.Submits? && Enabled(s, a)
    requires forall k :: k in s.g.flights ==> s.g.flights[k].block != a.block
    ensures var t := Moves(s, a);
            a.head in t.g.flights && OnItsWay(t, a.head, t.g.flights[a.head], s.q.disk[a.block])
  {
    hide Flights, Partition, Counted, AvailOk, UsedOk;
  }

  // ---------- the driver ----------

  class Driver {
    var q: Vring
    ghost var g: Books

    /** The state that virtio_disk_init leaves. */
    constructor (bufs: seq<Block>, disk: Disk)
      requires |bufs| == NBUF
      ensures Inv(q, g) && g.flights == map[] && q.bufs == bufs && q.disk == disk
    {
      q := Vring(seq(NUM, _ => true), seq(NUM, _ => ZERO), seq(NUM, _ => 0), 0, 0, seq(NUM, _ => 0), 0, 0,
                 seq(NUM, _ => Info(-1, 0)), seq(NUM, _ => Request(0, 0)), bufs, seq(NBUF, _ => false), disk);
      g := Books(map[], seq(NUM, _ => -1), seq(NBUF, _ => -1), {}, {}, 0, 0, 0, 0, 0);
      new;
      AllFree(q.free);
    }

    /** alloc_desc: the first free descriptor, or -1. */
    method AllocDesc() returns (i: int)
      requires Shape(q)
      modifies this`q
      ensures i == -1 ==> q == old(q) && CountFree(q.free) == 0
      ensures i != -1 ==>
        && 0 <= i < NUM && old(q.free)[i] && (forall j :: 0 <= j < i ==> !old(q.free)[j])
        && q == old(q).(free := old(q.free)[i := false]) && CountFree(q.free) == CountFree(old(q.free)) - 1
    {
      for k := 0 to NUM
        invariant q == old(q) && forall j :: 0 <= j < k ==> !q.free[j]
      {
        if q.free[k] {
          CountChange(q.free, k, false);
          q := q.(free := q.free[k := false]);
          return k;
        }
      }
      CountSome(q.free);
      return -1;
    }

    /** free_desc: false stands for its panics. */
    method FreeDesc(i: nat) returns (ok: bool)
      requires Shape(q)
      modifies this`q
      ensures ok <==> i < NUM && !old(q.free)[i]
      ensures ok ==> q == old(q).(desc := old(q.desc)[i := ZERO], free := old(q.free)[i := true])
      ensures !ok ==> q == old(q)
    {
      if i >= NUM || q.free[i] { return false; }
      q := q.(desc := q.desc[i := ZERO]);
      q := q.(free := q.free[i := true]);
      return true;
    }

    /** free_chain, for a chain of three. */
    method FreeChain(h: nat, ghost mid: nat, ghost last: nat) returns (ok: bool)
      requires Shape(q) && h < NUM && mid < NUM && last < NUM && h != mid && h != last && mid != last
      requires !q.free[h] && !q.free[mid] && !q.free[last]
      requires q.desc[h].flags % 2 == 1 && q.desc[h].next == mid && q.desc[mid].flags % 2 == 1
      requires q.desc[mid].next == last
      requires q.desc[last].flags % 2 == 0
      modifies this`q
      ensures ok && q == old(q).(desc := old(q.desc)[h := ZERO][mid := ZERO][last := ZERO],
                                 free := old(q.free)[h := true][mid := true][last := true])
    {
      ghost var d, f, k := q.desc, q.free, 0;
      var i, more := h, true;
      ok := true;
      while more
        invariant 0 <= k <= 3 && (more <==> k < 3)
        invariant more ==> i == (if k == 0 then h else if k == 1 then mid else last)
        invariant q == old(q).(desc := if k == 0 then d else if k == 1 then d[h := ZERO]
            else if k == 2 then d[h := ZERO][mid := ZERO]
                                       else d[h := ZERO][mid := ZERO][last := ZERO],
                               free := if k == 0 then f else if k == 1 then f[h := true]
                                 else if k == 2 then f[h := true][mid := true]
                                       else f[h := true][mid := true][last := true])
        invariant ok
        decreases 3 - k
      {
        var flag, next := q.desc[i].flags, q.desc[i].next;
        ok := FreeDesc(i);
        if flag % 2 == 1 { i := next; } else { more := false; }
        k := k + 1;
      }
    }

    /** The loop of alloc3_desc that gives back what it has got. */
    method GiveBack(idx: seq<nat>, ghost f: seq<bool>)
      requires Shape(q) && |f| == NUM && q.free == Without(f, idx)
      requires forall j :: 0 <= j < |idx| ==> idx[j] < NUM && f[idx[j]] && q.desc[idx[j]] == ZERO
      requires forall j, k :: 0 <= j < k < |idx| ==> idx[j] != idx[k]
      modifies this`q
      ensures q == old(q).(free := f)
    {
      var j := 0;
      while j < |idx|
        invariant j <= |idx| && q == old(q).(free := Without(f, idx[j..]))
      {
        PutBack(f, idx[j..]);
        assert idx[j..][1..] == idx[j + 1..];
        var done := FreeDesc(idx[j]);
        assert q.desc == old(q).desc;
        j := j + 1;
      }
      assert Without(f, idx[j..]) == f;
    }

    /** alloc3_desc: three descriptors if three are free, else everything as it was. */
    method Alloc3() returns (ok: bool, h: nat, mid: nat, last: nat)
      requires Shape(q) && forall i :: 0 <= i < NUM && q.free[i] ==> q.desc[i] == ZERO
      modifies this`q
      ensures ok <==> CountFree(old(q.free)) >= 3
      ensures !ok ==> q == old(q)
      ensures ok ==>
        && h < NUM && mid < NUM && last < NUM && h != mid && h != last && mid != last
        && old(q.free)[h] && old(q.free)[mid] && old(q.free)[last]
        && q == old(q).(free := old(q.free)[h := false][mid := false][last := false])
    {
      hide CountFree;
      h, mid, last := 0, 0, 0;
      ghost var f, d := q.free, q.desc;
      var idx: seq<nat> := [];
      while |idx| < 3
        invariant |idx| <= 3 && (forall j :: 0 <= j < |idx| ==> idx[j] < NUM && f[idx[j]])
        invariant forall j, k :: 0 <= j < k < |idx| ==> idx[j] != idx[k]
        invariant q == old(q).(free := Without(f, idx)) && CountFree(q.free) == CountFree(f) - |idx|
      {
        var i := AllocDesc();
        if i == -1 {
          GiveBack(idx, f);
          return false, 0, 0, 0;
        }
        TakeOne(f, idx, i);
        idx := idx + [i];
      }
      h, mid, last := idx[0], idx[1], idx[2];
      assert idx == [h, mid, last];
      return true, h, mid, last;
    }

    /** virtio_disk_process_used: every completion in the used ring is consumed, once; the flags of
        their buffers go down and nothing else changes; false stands for its panic, which the
        device's statuses never cause. */
    method ProcessUsed() returns (ok: bool)
      requires Inv(q, g)
      modifies this
      ensures ok && Inv(q, g) && g.consumed == g.completed == old(g.completed)
      ensures g.flights == ConsumedAll(old(g.flights)) && g.holder == old(g.holder)
      ensures q == old(q).(busy := q.busy, consumedIdx := q.usedIdx)
      ensures forall h :: h in g.flights ==>
        g.flights[h].buf < NBUF && (q.busy[g.flights[h].buf] <==> !g.flights[h].stage.Consumed?)
      ensures forall b :: 0 <= b < NBUF && g.holder[b] == -1 ==> q.busy[b] == old(q.busy)[b]
    {
      hide Flights, Partition, Counted, AvailOk, UsedOk, Consume, Slot, Low16, FlightOk;
      InvFacts(q, g);
      NothingDrained(q, g);
      while q.consumedIdx != q.usedIdx
        invariant Inv(q, g) && g.completed == old(g.completed) && g.consumed <= g.completed && g.holder == old(g.holder)
        invariant Drained(old(g), g) && q == old(q).(busy := q.busy, consumedIdx := q.consumedIdx)
        invariant |q.busy| == NBUF && |g.holder| == NBUF
        invariant forall b :: 0 <= b < NBUF && g.holder[b] == -1 ==> q.busy[b] == old(q.busy)[b]
        decreases g.completed - g.consumed
      {
        ConsumeFinds(q, g);
        var id := q.used[Slot(q.consumedIdx)];
        if q.info[id].status != 0 { return false; }
        ConsumeKeeps(q, g, id);
        ConsumeChanges(q);
        DrainMore(old(g), q, g, id);
        var b := q.info[id].buf;
        if b >= 0 {
          q := q.(busy := q.busy[b := false]);
        }
        q := q.(consumedIdx := Low16(q.consumedIdx + 1));
        g := ConsumeBooks(g, id);
        InvFacts(q, g);
      }
      ConsumeFinds(q, g);
      AllDrained(old(g), q, g);
      FlagsUp(q, g);
      return true;
    }

    /** virtio_disk_rw up to the notification; false when the descriptors do not suffice, and the
        caller must poll. */
    method Submit(b: nat, block: nat, write: bool) returns (ok: bool, h: nat)
      requires Inv(q, g) && b < NBUF && block < FSSIZE && g.holder[b] == -1
      modifies this
      ensures Inv(q, g) && (ok <==> |old(g.flights)| < 2)
      ensures !ok ==> q == old(q) && g == old(g)
      ensures ok ==> h !in old(g.flights) && h in g.flights && g.flights == old(g.flights)[h := g.flights[h]]
      ensures ok ==> var f := g.flights[h];
                     f.buf == b && f.block == block && f.write == write && f.bytes == old(q.bufs)[b] && f.stage.Queued?
      ensures q.bufs == old(q.bufs) && q.disk == old(q.disk)
    {
      hide Flights, Partition, Counted, AvailOk, UsedOk, Slot, Low16, CountFree;
      AtMostTwo(q, g);
      InvFacts(q, g);
      var mid, last;
      ok, h, mid, last := Alloc3();
      if !ok { return; }
      ghost var q0 := old(q);
      SubmitKeeps(q0, g, h, mid, last, b, block, write);
      SubmitFresh(q0, g, h, mid, last, b, block);
      q := q.(ops := q.ops[h := Request(if write then 1 else 0, block * 2)]);
      q := q.(desc := q.desc[h := Desc(Header(h), 16, NEXT, mid)]);
      q := q.(desc := q.desc[mid := Desc(Data(b), BSIZE, if write then NEXT else NEXT + WRITE, last)]);
      q := q.(info := q.info[h := Info(b, 0xff)]);
      q := q.(desc := q.desc[last := Desc(Status(h), 1, WRITE, 0)]);
      q := q.(busy := q.busy[b := true]);
      q := q.(avail := q.avail[Slot(q.availIdx) := h]);
      q := q.(availIdx := Low16(q.availIdx + 1));
      g := SubmittedBooks(q0, g, h, mid, last, b, block, write);
      assert q == Submitted(q0, h, mid, last, b, block, write);
    }

    /** The end of virtio_disk_rw, once the flag of the buffer is down: the descriptors are free
        again, and the buffer holds the bytes that were moved. */
    method FinishRequest(b: nat, h: nat) returns (ok: bool)
      requires Inv(q, g) && h in g.flights && g.flights[h].buf == b && b < NBUF && !q.busy[b]
      modifies this
      ensures ok && Inv(q, g) && g.flights == old(g.flights) - {h} && g.holder[b] == -1
      ensures q.bufs == old(q.bufs) && q.disk == old(q.disk) && q.bufs[b] == old(g.flights)[h].bytes
      ensures CountFree(q.free) == CountFree(old(q.free)) + 3
    {
      hide Flights, Partition, Counted, AvailOk, UsedOk, Slot, Low16, CountFree, Finish;
      InvFacts(q, g);
      ghost var q0, f := q, g.flights[h];
      FinishKeeps(q, g, h);
      FinishFrees(q, g, h);
      q := q.(info := q.info[h := q.info[h].(buf := -1)]);
      ok := FreeChain(h, f.mid, f.last);
      g := FinishBooks(g, h);
      FinishIs(q0, h, f.mid, f.last);
    }

    // ---------- the device ----------

    /** The device looks at the available ring. */
    method DeviceFetch() returns (found: bool, h: nat)
      requires Inv(q, g)
      modifies this
      ensures Inv(q, g) && (found <==> old(g.fetched < g.submitted))
      ensures found ==> old(h in g.flights && g.flights[h].stage == Queued(g.fetched))
      ensures found ==> h in old(g.flights) && q == Fetch(old(q)) && g == FetchBooks(old(g), h)
      ensures !found ==> q == old(q) && g == old(g)
    {
      hide Flights, Partition, Counted, AvailOk, UsedOk, Slot, Low16;
      FetchFinds(q, g);
      if q.seen == q.availIdx { return false, 0; }
      h := q.avail[Slot(q.seen)];
      FetchKeeps(q, g, h);
      q, g := Fetch(q), FetchBooks(g, h);
      return true, h;
    }

    /** The device serves a request it has fetched. */
    method DeviceComplete(h: nat)
      requires Inv(q, g) && h in g.flights && g.flights[h].stage.Fetched?
      modifies this
      ensures Inv(q, g)
      ensures var f := old(g.flights)[h];
              && f.buf < NBUF && f.block < FSSIZE
              && q.disk == (if f.write then old(q.disk)[f.block := f.bytes] else old(q.disk))
              && q.bufs == (if f.write then old(q.bufs) else old(q.bufs)[f.buf := old(q.disk)[f.block]])
              && g.flights == old(g.flights)[h := f.(stage := Done(old(g.completed)), bytes := q.bufs[f.buf])]
    {
      hide Flights, Partition, Counted, AvailOk, UsedOk, Slot, Low16, Complete;
      CompleteMeans(q, g, h);
      CompleteKeeps(q, g, h);
      InvFacts(q, g);
      q, g := Complete(q, h), CompleteBooks(q, g, h);
    }
  }

  /** The requests once all completions are consumed. */
  function ConsumedAll(flights: map<int, Flight>): map<int, Flight> {
    map h | h in flights :: if flights[h].stage.Done? then flights[h].(stage := Consumed) else flights[h]
  }

  lemma AllFree(free: seq<bool>)
    requires |free| == NUM && forall i :: 0 <= i < NUM ==> free[i]
    ensures CountFree(free) == NUM
  {
    CountAll(free, NUM);
    assert free[..NUM] == free;
  }

  lemma {:induction false} CountAll(free: seq<bool>, n: nat)
    requires n <= |free| && forall i :: 0 <= i < n ==> free[i]
    ensures CountFree(free[..n]) == n
  {
    if n > 0 {
      CountAll(free, n - 1);
      assert free[..n][..n - 1] == free[..n - 1];
    }
  }

  /** The free flags without the descriptors listed. */
  function Without(f: seq<bool>, idx: seq<nat>): (r: seq<bool>)
    ensures |r| == |f|
  {
    seq(|f|, i requires 0 <= i < |f| => f[i] && i !in idx)
  }

  lemma PutBack(f: seq<bool>, s: seq<nat>)
    requires |s| > 0 && s[0] < |f| && f[s[0]] && s[0] !in s[1..]
    ensures !Without(f, s)[s[0]] && Without(f, s)[s[0] := true] == Without(f, s[1..])
  {
    forall x | x in s ensures x == s[0] || x in s[1..] {
      var k :| 0 <= k < |s| && s[k] == x;
      if k > 0 {
        assert s[1..][k - 1] == x;
      }
    }
  }

  lemma TakeOne(f: seq<bool>, idx: seq<nat>, i: nat)
    requires i < |f| && Without(f, idx)[i]
    ensures i !in idx && f[i] && Without(f, idx)[i := false] == Without(f, idx + [i])
  {}

  // ---------- what the invariant says ----------

  lemma InvFacts(q: Vring, g: Books)
    requires Inv(q, g)
    ensures |g.user| == NUM && |g.holder| == NBUF && g.consumed <= g.completed
    ensures forall i :: 0 <= i < NUM && q.free[i] ==> q.desc[i] == ZERO
    ensures forall h :: h in g.flights ==> FlightOk(q, h, g.flights[h]) && Alone(g, h)
  {
    hide AvailOk, UsedOk, FlightOk, Alone;
    forall i | 0 <= i < NUM && q.free[i] ensures q.desc[i] == ZERO {
      assert SlotOk(q, g, i);
    }
  }

  /** The completions consumed since g0. */
  ghost predicate Drained(g0: Books, g: Books) {
    && g.flights.Keys == g0.flights.Keys
    && forall h :: h in g.flights ==>
         g.flights[h] == if g0.flights[h].stage.Done? && g0.flights[h].stage.at < g.consumed
                         then g0.flights[h].(stage := Consumed) else g0.flights[h]
  }

  lemma DrainMore(g0: Books, q: Vring, g: Books, h: int)
    requires Drained(g0, g) && Inv(q, g) && h in g.flights && g.flights[h].stage == Done(g.consumed)
    ensures Drained(g0, ConsumeBooks(g, h))
  {
    hide Flights, Partition, Counted, AvailOk;
    forall k | k in g.flights && g.flights[k].stage == Done(g.consumed) ensures k == h {}
  }

  lemma AllDrained(g0: Books, q: Vring, g: Books)
    requires Drained(g0, g) && Inv(q, g) && g.consumed == g.completed
    ensures g.flights == ConsumedAll(g0.flights)
  {
    hide Flights, Partition, Counted, AvailOk;
    assert forall h :: h in g.flights ==> !g.flights[h].stage.Done?;
    var all := ConsumedAll(g0.flights);
    assert all.Keys == g.flights.Keys;
    forall h | h in all ensures g.flights[h] == all[h] {}
  }

  lemma NothingDrained(q: Vring, g: Books)
    requires Inv(q, g)
    ensures Drained(g, g)
  {
    hide Flights, Partition, Counted, AvailOk;
  }

  lemma FlagsUp(q: Vring, g: Books)
    requires Inv(q, g)
    ensures forall h :: h in g.flights ==>
      g.flights[h].buf < NBUF && (q.busy[g.flights[h].buf] <==> !g.flights[h].stage.Consumed?)
  {
    hide UsedOk, Partition, Counted, AvailOk;
    forall h | h in g.flights
      ensures g.flights[h].buf < NBUF && (q.busy[g.flights[h].buf] <==> !g.flights[h].stage.Consumed?)
    {
      assert FlightOk(q, h, g.flights[h]);
    }
  }

  lemma SubmitFresh(q: Vring, g: Books, h: nat, mid: nat, last: nat, b: nat, block: nat)
    requires CanSubmit(q, g, h, mid, last, b, block)
    ensures h !in g.flights
  {
    SubmitFlights(q, g, h, mid, last, b, block, false);
  }

  lemma FinishFrees(q: Vring, g: Books, h: nat)
    requires CanFinish(q, g, h)
    ensures CountFree(Finish(q, h, g.flights[h].mid, g.flights[h].last).free) == CountFree(q.free) + 3
  {
    hide Partition, AvailOk, UsedOk, Flights, CountFree;
    FinishCounted(q, g, h);
    MapMinus(g.flights, h);
  }

  lemma FinishIs(q: Vring, h: nat, mid: nat, last: nat)
    requires Shape(q) && h < NUM && mid < NUM && last < NUM
    ensures Finish(q, h, mid, last) ==
            q.(info := q.info[h := q.info[h].(buf := -1)],
               desc := q.desc[h := ZERO][mid := ZERO][last := ZERO],
               free := q.free[h := true][mid := true][last := true])
  {}

  lemma ConsumeChanges(q: Vring)
    requires Shape(q)
    ensures var id := q.used[Slot(q.consumedIdx)];
            id < NUM && q.info[id].buf < NBUF ==>
              Consume(q) == q.(busy := if q.info[id].buf >= 0 then q.busy[q.info[id].buf := false] else q.busy,
                               consumedIdx := Low16(q.consumedIdx + 1))
  {}
}
