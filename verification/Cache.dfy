/** The buffer cache: thirty buffers on a circular doubly linked list in order of last use. */
module BufferCache {
  import opened Blocks
  import opened Lists
  import opened Crash

  const NBUF := 30
  /** Index of the list head, which is not a buffer. */
  const HEAD := NBUF
  const ROOTDEV := 1

  datatype Buf = Buf(valid: bool, dev: nat, blockno: nat, refcnt: nat, data: Block)

  // ---------- the LRU list ----------

  /** The list from the head round to the head again. */
  function Round(lru: seq<nat>): seq<nat> {
    [HEAD] + lru + [HEAD]
  }

  /** `lru` lists the thirty buffers, each once; `pos` gives each buffer's place. */
  ghost predicate Ordered(lru: seq<nat>, pos: seq<nat>) {
    && |lru| == NBUF && |pos| == NBUF
    && (forall k :: 0 <= k < NBUF ==> lru[k] < NBUF && pos[lru[k]] == k)
    && (forall i :: 0 <= i < NBUF ==> pos[i] < NBUF && lru[pos[i]] == i)
  }

  /** The next and prev links spell out `lru` in both directions. */
  ghost predicate Linked(next: seq<nat>, prev: seq<nat>, lru: seq<nat>) {
    && |next| == NBUF + 1 && |prev| == NBUF + 1 && |lru| == NBUF
    && (forall k :: 0 <= k < NBUF ==> lru[k] < NBUF)
    && (forall k :: 0 <= k <= NBUF ==> next[Round(lru)[k]] == Round(lru)[k + 1])
    && (forall k :: 0 <= k <= NBUF ==> prev[Round(lru)[k + 1]] == Round(lru)[k])
  }

  function MoveToFront(lru: seq<nat>, k: nat): seq<nat>
    requires k < |lru|
  {
    [lru[k]] + lru[..k] + lru[k + 1..]
  }

  function FrontPositions(pos: seq<nat>, i: nat): seq<nat>
    requires i < |pos|
  {
    seq(|pos|, j requires 0 <= j < |pos| =>
      if j == i then 0 else if pos[j] < pos[i] then pos[j] + 1 else pos[j])
  }

  lemma MoveToFrontOrdered(lru: seq<nat>, pos: seq<nat>, i: nat)
    requires Ordered(lru, pos) && i < NBUF
    ensures |lru| == |pos| == NBUF && pos[i] < NBUF
    ensures Ordered(MoveToFront(lru, pos[i]), FrontPositions(pos, i))
  {
    var r, q := MoveToFront(lru, pos[i]), FrontPositions(pos, i);
    forall k | 0 <= k < NBUF
      ensures r[k] < NBUF && q[r[k]] == k
    {
      if 0 < k <= pos[i] {
        assert r[k] == lru[k - 1];
      } else if k > pos[i] {
        assert r[k] == lru[k];
      }
    }
  }

  /** Unlinking buffer i and splicing it in behind the head, link by link as brelse does. */
  function Unlink(next: seq<nat>, prev: seq<nat>, i: nat): (r: (seq<nat>, seq<nat>))
    requires |next| == |prev| == NBUF + 1 && i < NBUF && next[i] <= NBUF && prev[i] <= NBUF
  {
    (next[prev[i] := next[i]], prev[next[i] := prev[i]])
  }

  function SpliceFront(next: seq<nat>, prev: seq<nat>, i: nat): (r: (seq<nat>, seq<nat>))
    requires |next| == |prev| == NBUF + 1 && i < NBUF && next[HEAD] <= NBUF
  {
    var first := next[HEAD];
    (next[i := first][HEAD := i], prev[i := HEAD][first := i])
  }

  lemma SpliceIsMoveToFront(next: seq<nat>, prev: seq<nat>, lru: seq<nat>, pos: seq<nat>, i: nat)
    requires Ordered(lru, pos) && Linked(next, prev, lru) && i < NBUF
    ensures |next| == |prev| == NBUF + 1 && next[i] <= NBUF && prev[i] <= NBUF
    ensures var (n1, p1) := Unlink(next, prev, i);
            && n1[HEAD] <= NBUF
            && var (n2, p2) := SpliceFront(n1, p1, i);
            Linked(n2, p2, MoveToFront(lru, pos[i]))
  {
    var k := pos[i];
    var cyc := Round(lru);
    assert cyc[k + 1] == i;
    assert next[i] == cyc[k + 2] && prev[i] == cyc[k];
    assert next[HEAD] == next[cyc[0]] == cyc[1];
    var (n1, p1) := Unlink(next, prev, i);
    RoundPlaces(lru, pos);
    assert n1[HEAD] == if k == 0 then cyc[2] else cyc[1];
    forall j | 0 <= j <= NBUF
      ensures SpliceFront(n1, p1, i).0[Round(MoveToFront(lru, k))[j]] == Round(MoveToFront(lru, k))[j + 1]
      ensures SpliceFront(n1, p1, i).1[Round(MoveToFront(lru, k))[j + 1]] == Round(MoveToFront(lru, k))[j]
    {
      SpliceLink(next, prev, lru, pos, i, j);
    }
  }

  /** One link of the spliced list. */
  lemma SpliceLink(next: seq<nat>, prev: seq<nat>, lru: seq<nat>, pos: seq<nat>, i: nat, j: nat)
    requires Ordered(lru, pos) && Linked(next, prev, lru) && i < NBUF && j <= NBUF
    requires next[i] == Round(lru)[pos[i] + 2] && prev[i] == Round(lru)[pos[i]]
    requires next[i] <= NBUF && prev[i] <= NBUF
    requires var n1 := Unlink(next, prev, i).0; n1[HEAD] == if pos[i] == 0 then Round(lru)[2] else Round(lru)[1]
    ensures Unlink(next, prev, i).0[HEAD] <= NBUF
    ensures var (n1, p1) := Unlink(next, prev, i);
            var (n2, p2) := SpliceFront(n1, p1, i);
            var c2 := Round(MoveToFront(lru, pos[i]));
            n2[c2[j]] == c2[j + 1] && p2[c2[j + 1]] == c2[j]
  {
    var k := pos[i];
    var cyc := Round(lru);
    var (n1, p1) := Unlink(next, prev, i);
    RoundPlaces(lru, pos);
    LinkAt(next, prev, lru, k);
    FrontRound(lru, k, j);
    FrontRound(lru, k, j + 1);
    hide Linked, Ordered, Round, MoveToFront;
    if 2 <= j <= k {
      LinkAt(next, prev, lru, j - 1);
    } else if j > k + 1 {
      LinkAt(next, prev, lru, j);
    }
  }

  lemma LinkAt(next: seq<nat>, prev: seq<nat>, lru: seq<nat>, k: nat)
    requires Linked(next, prev, lru) && k <= NBUF
    ensures next[Round(lru)[k]] == Round(lru)[k + 1] && prev[Round(lru)[k + 1]] == Round(lru)[k]
  {}

  /** Where each element of the new round comes from in the old one. */
  lemma FrontRound(lru: seq<nat>, k: nat, j: nat)
    requires |lru| == NBUF && k < NBUF && j <= NBUF + 1
    ensures Round(MoveToFront(lru, k))[j]
            == if j == 0 then HEAD else if j == 1 then lru[k]
               else if j <= k + 1 then Round(lru)[j - 1] else Round(lru)[j]
  {}

  /** Each buffer occurs once in the round, where `pos` says; only the head occurs twice. */
  lemma RoundPlaces(lru: seq<nat>, pos: seq<nat>)
    requires Ordered(lru, pos)
    ensures Round(lru)[0] == Round(lru)[NBUF + 1] == HEAD
    ensures forall a :: 1 <= a <= NBUF ==> Round(lru)[a] < NBUF && pos[Round(lru)[a]] == a - 1
  {
    forall a | 1 <= a <= NBUF
      ensures Round(lru)[a] < NBUF && pos[Round(lru)[a]] == a - 1
    {
      assert Round(lru)[a] == lru[a - 1];
    }
  }

  // ---------- what the cache keeps ----------

  /** Each block of the disk sits in at most one buffer: `slot` is the inverse of the buffers'
      keys. Buffers that never held a block have device 0 and do not count. */
  ghost predicate Keyed(bufs: seq<Buf>, slot: map<nat, nat>) {
    && |bufs| == NBUF
    && (forall i :: 0 <= i < NBUF ==> bufs[i].dev == ROOTDEV || (bufs[i].dev == 0 && bufs[i].refcnt == 0))
    && (forall i :: 0 <= i < NBUF && bufs[i].dev == ROOTDEV ==>
          bufs[i].blockno in slot && slot[bufs[i].blockno] == i)
    && (forall b :: b in slot ==>
          b < FSSIZE && slot[b] < NBUF && bufs[slot[b]].dev == ROOTDEV && bufs[slot[b]].blockno == b)
  }

  /** `view` is the latest contents of every block: what its buffer holds, or else the disk. A
      buffer nobody references is no newer than the disk, so it can be dropped. */
  ghost predicate Coherent(bufs: seq<Buf>, slot: map<nat, nat>, disk: Disk, view: Disk)
    requires Keyed(bufs, slot)
  {
    && (forall b :: 0 <= b < FSSIZE && b !in slot ==> view[b] == disk[b])
    && (forall b :: b in slot ==>
          && (bufs[slot[b]].valid ==> bufs[slot[b]].data == view[b])
          && (!bufs[slot[b]].valid ==> view[b] == disk[b])
          && (bufs[slot[b]].refcnt == 0 ==> view[b] == disk[b]))
  }

  /** A reference count is the number of holders plus one for the log's pin. */
  ghost predicate Counted(bufs: seq<Buf>, slot: map<nat, nat>, held: multiset<nat>, pinned: set<nat>)
    requires Keyed(bufs, slot)
  {
    && (forall b :: b in slot ==> bufs[slot[b]].refcnt == held[b] + if b in pinned then 1 else 0)
    && (forall b :: b in held ==> b in slot)
    && pinned <= slot.Keys
  }

  /** The blocks that may not be evicted. */
  ghost function Busy(held: multiset<nat>, pinned: set<nat>): set<nat> {
    HeldSet(held) + pinned
  }

  ghost function HeldSet(held: multiset<nat>): set<nat> {
    set b | b in held
  }

  lemma {:induction false} BusyBuffers(bufs: seq<Buf>, slot: map<nat, nat>, held: multiset<nat>, pinned: set<nat>,
                                       k: nat)
    requires Keyed(bufs, slot) && Counted(bufs, slot, held, pinned) && k <= NBUF
    requires forall i :: 0 <= i < k ==> bufs[i].refcnt > 0
    ensures var s := set i | 0 <= i < k :: bufs[i].blockno; |s| == k && s <= Busy(held, pinned)
  {
    var s := set i | 0 <= i < k :: bufs[i].blockno;
    if k > 0 {
      BusyBuffers(bufs, slot, held, pinned, k - 1);
      var t := set i | 0 <= i < k - 1 :: bufs[i].blockno;
      var b := bufs[k - 1].blockno;
      assert slot[b] == k - 1;
      assert forall i :: 0 <= i < k - 1 ==> slot[bufs[i].blockno] == i;
      assert s == t + {b};
    }
  }

  /** If fewer than thirty blocks are busy, some buffer is free to be reused. */
  lemma SomeBufferFree(bufs: seq<Buf>, slot: map<nat, nat>, held: multiset<nat>, pinned: set<nat>)
    requires Keyed(bufs, slot) && Counted(bufs, slot, held, pinned)
    requires |Busy(held, pinned)| < NBUF
    ensures exists i :: 0 <= i < NBUF && bufs[i].refcnt == 0
  {
    if forall i :: 0 <= i < NBUF ==> bufs[i].refcnt > 0 {
      BusyBuffers(bufs, slot, held, pinned, NBUF);
      var s := set i | 0 <= i < NBUF :: bufs[i].blockno;
      SubsetSize(s, Busy(held, pinned));
    }
  }

  /** The whole invariant of the buffers, as one name. */
  ghost predicate Sound(bufs: seq<Buf>, slot: map<nat, nat>, disk: Disk, view: Disk, held: multiset<nat>,
                        pinned: set<nat>) {
    Keyed(bufs, slot) && Coherent(bufs, slot, disk, view) && Counted(bufs, slot, held, pinned)
  }

  lemma TakeKeeps(bufs: seq<Buf>, slot: map<nat, nat>, disk: Disk, view: Disk, held: multiset<nat>, pinned: set<nat>,
                  i: nat)
    requires Sound(bufs, slot, disk, view, held, pinned)
    requires i < NBUF && bufs[i].dev == ROOTDEV
    ensures Sound(bufs[i := bufs[i].(refcnt := bufs[i].refcnt + 1)], slot, disk, view,
        held + multiset{bufs[i].blockno}, pinned)
    ensures Busy(held, pinned) <= slot.Keys
  {}

  /** Reusing a free buffer for an uncached block loses nothing: the buffer was clean. */
  lemma EvictKeeps(bufs: seq<Buf>, slot: map<nat, nat>, disk: Disk, view: Disk, held: multiset<nat>, pinned: set<nat>,
                   i: nat, b: nat, slot': map<nat, nat>)
    requires Sound(bufs, slot, disk, view, held, pinned)
    requires i < NBUF && bufs[i].refcnt == 0 && b < FSSIZE && b !in slot
    requires slot' == if bufs[i].dev == ROOTDEV then (slot - {bufs[i].blockno})[b := i] else slot[b := i]
    ensures Sound(bufs[i := Buf(false, ROOTDEV, b, 1, bufs[i].data)], slot', disk, view, held + multiset{b}, pinned)
    ensures forall x :: x in Busy(held, pinned) ==> x in slot' && slot'[x] == slot[x]
  {
    EvictKeyed(bufs, slot, i, b, slot');
    assert b !in held;
  }

  lemma EvictKeyed(bufs: seq<Buf>, slot: map<nat, nat>, i: nat, b: nat, slot': map<nat, nat>)
    requires Keyed(bufs, slot)
    requires i < NBUF && b < FSSIZE && b !in slot
    requires slot' == if bufs[i].dev == ROOTDEV then (slot - {bufs[i].blockno})[b := i] else slot[b := i]
    ensures Keyed(bufs[i := Buf(false, ROOTDEV, b, 1, bufs[i].data)], slot')
  {}

  lemma FillKeeps(bufs: seq<Buf>, slot: map<nat, nat>, disk: Disk, view: Disk, held: multiset<nat>, pinned: set<nat>,
                  i: nat)
    requires Sound(bufs, slot, disk, view, held, pinned)
    requires i < NBUF && bufs[i].dev == ROOTDEV && !bufs[i].valid
    ensures disk[bufs[i].blockno] == view[bufs[i].blockno]
    ensures Sound(bufs[i := bufs[i].(valid := true, data := disk[bufs[i].blockno])], slot, disk, view, held, pinned)
  {
    assert slot[bufs[i].blockno] == i;
  }

  lemma WriteKeeps(bufs: seq<Buf>, slot: map<nat, nat>, disk: Disk, view: Disk, held: multiset<nat>, pinned: set<nat>,
                   i: nat)
    requires Sound(bufs, slot, disk, view, held, pinned)
    requires i < NBUF && bufs[i].dev == ROOTDEV && bufs[i].valid
    ensures bufs[i].data == view[bufs[i].blockno]
    ensures Sound(bufs, slot, disk[bufs[i].blockno := bufs[i].data], view, held, pinned)
  {
    assert slot[bufs[i].blockno] == i;
  }

  lemma StoreKeeps(bufs: seq<Buf>, slot: map<nat, nat>, disk: Disk, view: Disk, held: multiset<nat>, pinned: set<nat>,
                   i: nat, data: Block)
    requires Sound(bufs, slot, disk, view, held, pinned)
    requires i < NBUF && bufs[i].dev == ROOTDEV && bufs[i].valid && bufs[i].blockno in held
    ensures Sound(bufs[i := bufs[i].(data := data)], slot, disk, view[bufs[i].blockno := data], held, pinned)
  {
    assert slot[bufs[i].blockno] == i;
  }

  lemma DropKeeps(bufs: seq<Buf>, slot: map<nat, nat>, disk: Disk, view: Disk, held: multiset<nat>, pinned: set<nat>,
                  i: nat)
    requires Sound(bufs, slot, disk, view, held, pinned)
    requires i < NBUF && bufs[i].dev == ROOTDEV && bufs[i].blockno in held
    requires held[bufs[i].blockno] > 1 || bufs[i].blockno in pinned || view[bufs[i].blockno] == disk[bufs[i].blockno]
    ensures bufs[i].refcnt > 0
    ensures Sound(bufs[i := bufs[i].(refcnt := bufs[i].refcnt - 1)], slot, disk, view,
        held - multiset{bufs[i].blockno}, pinned)
  {
    assert slot[bufs[i].blockno] == i;
  }

  lemma PinKeeps(bufs: seq<Buf>, slot: map<nat, nat>, disk: Disk, view: Disk, held: multiset<nat>, pinned: set<nat>,
                 i: nat)
    requires Sound(bufs, slot, disk, view, held, pinned)
    requires i < NBUF && bufs[i].dev == ROOTDEV && bufs[i].blockno !in pinned
    ensures Sound(bufs[i := bufs[i].(refcnt := bufs[i].refcnt + 1)], slot, disk, view, held, pinned + {bufs[i].blockno})
  {
    assert slot[bufs[i].blockno] == i;
  }

  lemma UnpinKeeps(bufs: seq<Buf>, slot: map<nat, nat>, disk: Disk, view: Disk, held: multiset<nat>, pinned: set<nat>,
                   i: nat)
    requires Sound(bufs, slot, disk, view, held, pinned)
    requires i < NBUF && bufs[i].dev == ROOTDEV && bufs[i].blockno in pinned && bufs[i].blockno in held
    ensures bufs[i].refcnt > 1
    ensures Sound(bufs[i := bufs[i].(refcnt := bufs[i].refcnt - 1)], slot, disk, view, held, pinned - {bufs[i].blockno})
  {
    assert slot[bufs[i].blockno] == i;
  }

  /** The memory of bio.c and the device behind it: `disk` is the block contents as last
      written by a completed request. */
  datatype Buffers = Buffers(bufs: seq<Buf>, next: seq<nat>, prev: seq<nat>, disk: Disk)

  /** What the proof keeps about it: the list order and its inverse, where each block is cached,
      the latest contents of every block, the references handed out by bread and not yet
      released, the pinned blocks, and the disk after each block write so far (the states a
      power failure can leave). */
  datatype Shadow = Shadow(lru: seq<nat>, pos: seq<nat>, slot: map<nat, nat>, view: Disk,
                           held: multiset<nat>, pinned: set<nat>, trace: seq<Disk>)

  /** The invariant, except that buffer `except` may be referenced without having been read. */
  ghost predicate GoodBut(c: Buffers, g: Shadow, except: int) {
    && Ordered(g.lru, g.pos) && Linked(c.next, c.prev, g.lru)
    && Sound(c.bufs, g.slot, c.disk, g.view, g.held, g.pinned)
    && (forall i :: 0 <= i < NBUF && c.bufs[i].refcnt > 0 && i != except ==> c.bufs[i].valid)
  }

  ghost predicate Good(c: Buffers, g: Shadow) {
    GoodBut(c, g, -1)
  }

  /** bget panics exactly when this fails: the block is not cached and all thirty buffers are
      busy. */
  ghost predicate Room(g: Shadow, b: nat) {
    b < FSSIZE && (b in g.slot || |Busy(g.held, g.pinned)| < NBUF)
  }

  /** Buffer i is a reference to block b. */
  ghost predicate Holds(c: Buffers, g: Shadow, i: nat, b: nat) {
    && b in g.held && b in g.slot && g.slot[b] == i
    && i < |c.bufs| == NBUF && b < FSSIZE
    && c.bufs[i].dev == ROOTDEV && c.bufs[i].blockno == b && c.bufs[i].refcnt > 0
  }

  /** Every reference held before is still one. */
  ghost predicate KeepsHolds(c: Buffers, g: Shadow, c': Buffers, g': Shadow) {
    forall i, b :: Holds(c, g, i, b) ==> Holds(c', g', i, b)
  }

  /** Every reference but one to block b is still one. */
  ghost predicate KeepsOthers(c: Buffers, g: Shadow, c': Buffers, g': Shadow, b: nat) {
    forall i, x :: Holds(c, g, i, x) && (x != b || g.held[b] > 1) ==> Holds(c', g', i, x)
  }

  /** A buffer that became free is now the most recently used. */
  ghost predicate Touched(g: Shadow, i: nat, c': Buffers, g': Shadow) {
    && i < |c'.bufs| == |g.lru| == |g.pos| && g.pos[i] < |g.lru|
    && g'.lru == if c'.bufs[i].refcnt == 0 then MoveToFront(g.lru, g.pos[i]) else g.lru
  }

  lemma BusyIsCached(c: Buffers, g: Shadow)
    requires Good(c, g)
    ensures Busy(g.held, g.pinned) <= g.slot.Keys
  {}

  /** Only busy blocks can be newer than the disk. */
  lemma IdleIsClean(c: Buffers, g: Shadow, b: nat)
    requires Good(c, g) && b < FSSIZE && b !in g.held && b !in g.pinned
    ensures g.view[b] == c.disk[b]
  {}

  /** A holder sees the latest contents of its block. */
  lemma HeldIsLatest(c: Buffers, g: Shadow, i: nat, b: nat)
    requires Good(c, g) && Holds(c, g, i, b)
    ensures c.bufs[i].valid && c.bufs[i].data == g.view[b]
  {}

  // ---------- the steps of bget and brelse ----------

  lemma TakeIsGood(c: Buffers, g: Shadow, i: nat, c': Buffers, g': Shadow)
    requires Good(c, g) && i < NBUF && c.bufs[i].dev == ROOTDEV
    requires c' == c.(bufs := c.bufs[i := c.bufs[i].(refcnt := c.bufs[i].refcnt + 1)])
    requires g' == g.(held := g.held + multiset{c.bufs[i].blockno})
    ensures GoodBut(c', g', i) && Holds(c', g', i, c.bufs[i].blockno) && KeepsHolds(c, g, c', g')
  {
    TakeKeeps(c.bufs, g.slot, c.disk, g.view, g.held, g.pinned, i);
    hide Coherent, Counted, Linked, Ordered;
  }

  ghost function Reassigned(slot: map<nat, nat>, victim: Buf, b: nat, i: nat): map<nat, nat> {
    if victim.dev == ROOTDEV then (slot - {victim.blockno})[b := i] else slot[b := i]
  }

  lemma EvictIsGood(c: Buffers, g: Shadow, i: nat, b: nat, c': Buffers, g': Shadow)
    requires Good(c, g) && i < NBUF && c.bufs[i].refcnt == 0 && b < FSSIZE && b !in g.slot
    requires c' == c.(bufs := c.bufs[i := Buf(false, ROOTDEV, b, 1, c.bufs[i].data)])
    requires g' == g.(held := g.held + multiset{b}, slot := Reassigned(g.slot, c.bufs[i], b, i))
    ensures GoodBut(c', g', i) && Holds(c', g', i, b) && KeepsHolds(c, g, c', g')
  {
    EvictKeeps(c.bufs, g.slot, c.disk, g.view, g.held, g.pinned, i, b, g'.slot);
    hide Coherent, Counted, Linked, Ordered;
    forall j, x | Holds(c, g, j, x)
      ensures Holds(c', g', j, x)
    {
      assert x in Busy(g.held, g.pinned);
    }
  }

  /** What a release leaves when other references remain. */
  lemma DropIsGood(c: Buffers, g: Shadow, i: nat, b: nat, c': Buffers, g': Shadow)
    requires Good(c, g) && Holds(c, g, i, b)
    requires g.held[b] > 1 || b in g.pinned || g.view[b] == c.disk[b]
    requires c' == c.(bufs := c.bufs[i := c.bufs[i].(refcnt := c.bufs[i].refcnt - 1)])
    requires g' == g.(held := g.held - multiset{b})
    ensures Good(c', g')
    ensures KeepsOthers(c, g, c', g', b)
  {
    DropKeeps(c.bufs, g.slot, c.disk, g.view, g.held, g.pinned, i);
    assert g.held[b] > 1 ==> c.bufs[i].refcnt > 1;
    hide Coherent, Counted, Linked, Ordered;
  }

  lemma SpliceIsGood(c: Buffers, g: Shadow, i: nat)
    requires Good(c, g) && i < NBUF
    ensures |c.next| == |c.prev| == NBUF + 1 && c.next[i] <= NBUF && c.prev[i] <= NBUF
    ensures |g.lru| == |g.pos| == NBUF && g.pos[i] < NBUF
    ensures var out := Unlink(c.next, c.prev, i);
            && out.0[HEAD] <= NBUF
            && var spliced := SpliceFront(out.0, out.1, i);
            Good(c.(next := spliced.0, prev := spliced.1),
                 g.(lru := MoveToFront(g.lru, g.pos[i]), pos := FrontPositions(g.pos, i)))
  {
    hide Sound;
    MoveToFrontOrdered(g.lru, g.pos, i);
    SpliceIsMoveToFront(c.next, c.prev, g.lru, g.pos, i);
  }

  /** The forward scan of bget: the buffer of a block, or HEAD when it is not cached. */
  method Scan(c: Buffers, ghost g: Shadow, blockno: nat) returns (i: nat)
    requires Good(c, g)
    ensures blockno in g.slot ==>
              i == g.slot[blockno] < NBUF == |c.bufs| && c.bufs[i].dev == ROOTDEV && c.bufs[i].blockno == blockno
    ensures blockno !in g.slot ==> i == HEAD
  {
    hide Coherent, Counted;
    i := c.next[HEAD];
    ghost var k := 0;
    assert Round(g.lru)[0] == HEAD;
    while i != HEAD
      invariant 0 <= k <= NBUF && i == Round(g.lru)[k + 1]
      invariant blockno in g.slot ==> k <= g.pos[g.slot[blockno]]
      decreases NBUF - k
    {
      assert Round(g.lru)[k + 1] == if k < NBUF then g.lru[k] else HEAD;
      if c.bufs[i].dev == ROOTDEV && c.bufs[i].blockno == blockno {
        return;
      }
      assert c.next[Round(g.lru)[k + 1]] == Round(g.lru)[k + 2];
      i := c.next[i];
      k := k + 1;
    }
  }

  lemma FreeBufferExists(c: Buffers, g: Shadow)
    requires Good(c, g) && |Busy(g.held, g.pinned)| < NBUF
    ensures |c.bufs| == NBUF && exists i :: 0 <= i < NBUF && c.bufs[i].refcnt == 0
  {
    SomeBufferFree(c.bufs, g.slot, g.held, g.pinned);
  }

  /** The backward scan of bget: the least recently used buffer nobody references. */
  method Victim(c: Buffers, ghost g: Shadow) returns (i: nat)
    requires Good(c, g) && |Busy(g.held, g.pinned)| < NBUF
    ensures |c.bufs| == |g.pos| == NBUF
    ensures i < NBUF && c.bufs[i].refcnt == 0
    ensures forall j :: 0 <= j < NBUF && g.pos[j] > g.pos[i] ==> c.bufs[j].refcnt > 0
  {
    FreeBufferExists(c, g);
    hide Sound;
    i := LastFree(c.bufs, c.next, c.prev, g.lru, g.pos);
  }

  method LastFree(bufs: seq<Buf>, ghost next: seq<nat>, prev: seq<nat>, ghost lru: seq<nat>, ghost pos: seq<nat>)
    returns (i: nat)
    requires Ordered(lru, pos) && Linked(next, prev, lru) && |bufs| == NBUF
    requires exists f :: 0 <= f < NBUF && bufs[f].refcnt == 0
    ensures i < NBUF && bufs[i].refcnt == 0
    ensures forall j :: 0 <= j < NBUF && pos[j] > pos[i] ==> bufs[j].refcnt > 0
  {
    i := prev[HEAD];
    assert Round(lru)[NBUF + 1] == HEAD;
    ghost var k := NBUF;
    ghost var f :| 0 <= f < NBUF && bufs[f].refcnt == 0;
    while bufs[i].refcnt > 0
      invariant pos[f] < k <= NBUF && i == Round(lru)[k] == lru[k - 1]
      invariant forall j :: 0 <= j < NBUF && k <= pos[j] ==> bufs[j].refcnt > 0
      decreases k
    {
      assert prev[Round(lru)[k]] == Round(lru)[k - 1];
      assert forall j :: 0 <= j < NBUF && pos[j] == k - 1 ==> j == lru[pos[j]] == i;
      i := prev[i];
      k := k - 1;
    }
  }

  lemma MinusTwo(held: multiset<nat>, a: nat, b: nat)
    ensures held - multiset{a} - multiset{b} == held - multiset{a, b}
  {}

  class Cache {
    var c: Buffers
    ghost var g: Shadow

    ghost predicate Valid()
      reads this
    {
      Good(c, g)
    }

    constructor (image: Disk)
      ensures Valid() && c.disk == g.view == image && g.held == multiset{} && g.pinned == {} && g.trace == []
    {
      c := Buffers(seq(NBUF, _ => Buf(false, 0, 0, 0, ZeroBlock())),
                   [NBUF] + seq(NBUF - 1, i requires 0 <= i < NBUF - 1 => i) + [NBUF - 1],
                   seq(NBUF, i requires 0 <= i < NBUF => i + 1) + [0],
                   image);
      g := Shadow(seq(NBUF, i requires 0 <= i < NBUF => NBUF - 1 - i),
                  seq(NBUF, i requires 0 <= i < NBUF => NBUF - 1 - i),
                  map[], image, multiset{}, {}, []);
    }

    /** Finds the buffer of a block, or reuses the least recently used free one for it. */
    method BGet(blockno: nat) returns (i: nat)
      requires Valid() && Room(g, blockno)
      modifies this
      ensures GoodBut(c, g, i) && Holds(c, g, i, blockno) && KeepsHolds(old(c), old(g), c, g)
      ensures c == old(c).(bufs := c.bufs)
      ensures g == old(g).(held := old(g).held + multiset{blockno}, slot := g.slot)
      ensures if blockno in old(g).slot then g.slot == old(g).slot
              else && i < |old(c).bufs| == |g.pos| == NBUF && old(c).bufs[i].refcnt == 0
                   && forall j :: 0 <= j < NBUF && g.pos[j] > g.pos[i] ==> old(c).bufs[j].refcnt > 0
    {
      hide GoodBut;
      i := Scan(c, g, blockno);
      if i != HEAD {
        c := c.(bufs := c.bufs[i := c.bufs[i].(refcnt := c.bufs[i].refcnt + 1)]);
        g := g.(held := g.held + multiset{blockno});
        TakeIsGood(old(c), old(g), i, c, g);
      } else {
        i := Victim(c, g);
        c := c.(bufs := c.bufs[i := Buf(false, ROOTDEV, blockno, 1, c.bufs[i].data)]);
        g := g.(held := g.held + multiset{blockno}, slot := Reassigned(g.slot, old(c).bufs[i], blockno, i));
        EvictIsGood(old(c), old(g), i, blockno, c, g);
      }
    }

    /** Returns a buffer with the latest contents of the block. */
    method BRead(blockno: nat) returns (i: nat)
      requires Valid() && Room(g, blockno)
      modifies this
      ensures Valid() && Holds(c, g, i, blockno) && KeepsHolds(old(c), old(g), c, g)
      ensures c.disk == old(c).disk
      ensures g == old(g).(held := old(g).held + multiset{blockno}, slot := g.slot)
    {
      hide Keyed, Coherent, Counted, Linked, Ordered;
      i := BGet(blockno);
      if !c.bufs[i].valid {
        FillKeeps(c.bufs, g.slot, c.disk, g.view, g.held, g.pinned, i);
        c := c.(bufs := c.bufs[i := c.bufs[i].(valid := true, data := c.disk[c.bufs[i].blockno])]);
      }
    }

    /** What a holder sees in its buffer: the latest contents of the block. */
    method Data(i: nat, ghost b: nat) returns (data: Block)
      requires Valid() && Holds(c, g, i, b)
      ensures data == g.view[b]
    {
      data := c.bufs[i].data;
    }

    /** Writes a buffer to its block: one atomic change of the disk. */
    method BWrite(i: nat, ghost b: nat)
      requires Valid() && Holds(c, g, i, b)
      modifies this
      ensures Valid() && KeepsHolds(old(c), old(g), c, g)
      ensures c.disk == old(c).disk[b := g.view[b]]
      ensures g == old(g).(trace := old(g).trace + [c.disk])
    {
      hide Keyed, Coherent, Counted, Linked, Ordered;
      WriteKeeps(c.bufs, g.slot, c.disk, g.view, g.held, g.pinned, i);
      c := c.(disk := c.disk[c.bufs[i].blockno := c.bufs[i].data]);
      g := g.(trace := g.trace + [c.disk]);
    }

    /** A holder changes the buffer's bytes. */
    method Store(i: nat, ghost b: nat, data: Block)
      requires Valid() && Holds(c, g, i, b)
      modifies this
      ensures Valid() && KeepsHolds(old(c), old(g), c, g)
      ensures c.disk == old(c).disk
      ensures g == old(g).(view := old(g).view[b := data])
    {
      hide Keyed, Coherent, Counted, Linked, Ordered;
      StoreKeeps(c.bufs, g.slot, c.disk, g.view, g.held, g.pinned, i, data);
      c := c.(bufs := c.bufs[i := c.bufs[i].(data := data)]);
      g := g.(view := g.view[b := data]);
    }

    /** Copies one held buffer into another and writes it out. */
    method CopyOut(from: nat, ghost src: nat, to: nat, ghost dst: nat)
      requires Valid() && Holds(c, g, from, src) && Holds(c, g, to, dst)
      modifies this
      ensures Valid() && KeepsHolds(old(c), old(g), c, g)
      ensures c.disk == old(c).disk[dst := old(g).view[src]]
      ensures g == old(g).(view := old(g).view[dst := old(g).view[src]], trace := old(g).trace + [c.disk])
    {
      assert src < FSSIZE && dst < FSSIZE;
      hide Good, Holds;
      var data := Data(from, src);
      Store(to, dst, data);
      BWrite(to, dst);
    }

    /** Gives a reference back; the last one moves the buffer to the front of the list. It may
        only go when the buffer was logged (so it is still pinned) or written: otherwise its
        changes could be lost. */
    method BRelse(i: nat, ghost b: nat)
      requires Valid() && Holds(c, g, i, b)
      requires g.held[b] > 1 || b in g.pinned || g.view[b] == c.disk[b]
      modifies this
      ensures Valid()
      ensures c.disk == old(c).disk
      ensures g == old(g).(held := old(g).held - multiset{b}, lru := g.lru, pos := g.pos)
      ensures KeepsOthers(old(c), old(g), c, g, b) && Touched(old(g), i, c, g)
    {
      hide GoodBut, SpliceFront, MoveToFront, FrontPositions;
      c := c.(bufs := c.bufs[i := c.bufs[i].(refcnt := c.bufs[i].refcnt - 1)]);
      g := g.(held := g.held - multiset{b});
      DropIsGood(old(c), old(g), i, b, c, g);
      SpliceIsGood(c, g, i);
      assert |c.bufs| == NBUF;
      if c.bufs[i].refcnt == 0 {
        var out := Unlink(c.next, c.prev, i);
        var spliced := SpliceFront(out.0, out.1, i);
        c := c.(next := spliced.0, prev := spliced.1);
        g := g.(lru := MoveToFront(g.lru, g.pos[i]), pos := FrontPositions(g.pos, i));
      }
    }

    /** The log takes a reference of its own. */
    method BPin(i: nat, ghost b: nat)
      requires Valid() && Holds(c, g, i, b) && b !in g.pinned
      modifies this
      ensures Valid() && KeepsHolds(old(c), old(g), c, g)
      ensures c.disk == old(c).disk
      ensures g == old(g).(pinned := old(g).pinned + {b})
    {
      hide Keyed, Coherent, Counted, Linked, Ordered;
      PinKeeps(c.bufs, g.slot, c.disk, g.view, g.held, g.pinned, i);
      c := c.(bufs := c.bufs[i := c.bufs[i].(refcnt := c.bufs[i].refcnt + 1)]);
      g := g.(pinned := g.pinned + {b});
    }

    /** The log drops its reference while the caller still holds the buffer. */
    method BUnpin(i: nat, ghost b: nat)
      requires Valid() && Holds(c, g, i, b) && b in g.pinned
      modifies this
      ensures Valid() && KeepsHolds(old(c), old(g), c, g)
      ensures c.disk == old(c).disk
      ensures g == old(g).(pinned := old(g).pinned - {b})
    {
      UnpinKeeps(c.bufs, g.slot, c.disk, g.view, g.held, g.pinned, i);
      hide Keyed, Coherent, Counted, Linked, Ordered;
      c := c.(bufs := c.bufs[i := c.bufs[i].(refcnt := c.bufs[i].refcnt - 1)]);
      g := g.(pinned := g.pinned - {b});
    }
  
    /** Two reads in a row, as the log does for a log block and the block it stands for. */
    method BReadPair(a: nat, b: nat) returns (i: nat, j: nat)
      requires Valid() && Room(g, a) && b < FSSIZE
      requires b in g.pinned || |Busy(g.held + multiset{a}, g.pinned)| < NBUF
      modifies this
      ensures Valid() && Holds(c, g, i, a) && Holds(c, g, j, b)
      ensures c.disk == old(c).disk
      ensures g == old(g).(held := old(g).held + multiset{a, b}, slot := g.slot)
    {
      hide Good, Holds;
      i := BRead(a);
      BusyIsCached(c, g);
      j := BRead(b);
    }

    /** Two releases in a row. */
    method BRelsePair(i: nat, ghost a: nat, j: nat, ghost b: nat)
      requires Valid() && Holds(c, g, i, a) && Holds(c, g, j, b) && a != b
      requires a in g.pinned || g.view[a] == c.disk[a]
      requires b in g.pinned || g.view[b] == c.disk[b]
      modifies this
      ensures Valid()
      ensures c.disk == old(c).disk
      ensures g == old(g).(held := old(g).held - multiset{a, b}, lru := g.lru, pos := g.pos)
    {
      assert a < FSSIZE && b < FSSIZE;
      hide Good, Holds, Touched;
      BRelse(i, a);
      assert Holds(c, g, j, b);
      hide KeepsOthers;
      MinusTwo(old(g).held, a, b);
      BRelse(j, b);
    }
  }
}
