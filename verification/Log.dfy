/** The write-ahead log over the buffer cache: collecting the blocks of a transaction, the
    four-step commit, and recovery. */
module WriteAheadLog {
  import opened Blocks
  import opened Lists
  import opened Crash
  import opened BufferCache

  const LOGSIZE := 30

  /** The disks seen while the writes `ws` are done one by one. */
  ghost function Stages(d: Disk, ws: seq<Write>): (ds: seq<Disk>)
    requires forall i :: 0 <= i < |ws| ==> ws[i].blockno < FSSIZE
    ensures |ds| == |ws|
  {
    seq(|ws|, i requires 0 <= i < |ws| => Apply(d, ws[..i + 1]))
  }

  lemma StagesConcat(d: Disk, xs: seq<Write>, ys: seq<Write>)
    requires forall i :: 0 <= i < |xs| ==> xs[i].blockno < FSSIZE
    requires forall i :: 0 <= i < |ys| ==> ys[i].blockno < FSSIZE
    ensures Stages(d, xs + ys) == Stages(d, xs) + Stages(Apply(d, xs), ys)
  {
    forall i | 0 <= i < |xs| + |ys|
      ensures Stages(d, xs + ys)[i] == (Stages(d, xs) + Stages(Apply(d, xs), ys))[i]
    {
      if i < |xs| {
        assert (xs + ys)[..i + 1] == xs[..i + 1];
      } else {
        assert (xs + ys)[..i + 1] == xs + ys[..i - |xs| + 1];
        ApplyConcat(d, xs, ys[..i - |xs| + 1]);
      }
    }
  }

  lemma StagesOne(d: Disk, w: Write)
    requires w.blockno < FSSIZE
    ensures Apply(d, [w]) == d[w.blockno := w.data]
    ensures Stages(d, [w]) == [d[w.blockno := w.data]]
  {
    assert [w][..0] == [] && [w][..1] == [w];
    assert Apply(d, []) == d;
  }

  /** One more write adds one more stage. */
  lemma StagesSnoc(d: Disk, ws: seq<Write>, i: nat)
    requires forall k :: 0 <= k < |ws| ==> ws[k].blockno < FSSIZE
    requires i < |ws|
    ensures Apply(d, ws[..i + 1]) == Apply(d, ws[..i])[ws[i].blockno := ws[i].data]
    ensures Stages(d, ws[..i + 1]) == Stages(d, ws[..i]) + [Apply(d, ws[..i + 1])]
  {
    var xs := ws[..i + 1];
    assert xs[..i] == ws[..i];
    forall k | 0 <= k < i
      ensures Stages(d, xs)[k] == Stages(d, ws[..i])[k]
    {
      assert xs[..k + 1] == ws[..i][..k + 1];
    }
    assert xs[..i + 1] == xs;
  }

  /** From disk d, the first i of the writes ws were done one by one: `disk` is the result and
      `trace` recorded every stage after `before`. */
  ghost predicate Progress(d: Disk, ws: seq<Write>, i: nat, disk: Disk, before: seq<Disk>, trace: seq<Disk>) {
    && i <= |ws|
    && (forall k :: 0 <= k < |ws| ==> ws[k].blockno < FSSIZE)
    && disk == Apply(d, ws[..i])
    && trace == before + Stages(d, ws[..i])
  }

  lemma ProgressStart(d: Disk, ws: seq<Write>, before: seq<Disk>)
    requires forall k :: 0 <= k < |ws| ==> ws[k].blockno < FSSIZE
    ensures Progress(d, ws, 0, d, before, before)
  {}

  lemma ProgressStep(d: Disk, ws: seq<Write>, i: nat, disk: Disk, before: seq<Disk>, trace: seq<Disk>)
    requires i < |ws| && Progress(d, ws, i, disk, before, trace)
    ensures ws[i].blockno < FSSIZE
    ensures var disk' := disk[ws[i].blockno := ws[i].data]; Progress(d, ws, i + 1, disk', before, trace + [disk'])
  {
    StagesSnoc(d, ws, i);
  }

  /** Two lists of writes, one after the other. */
  lemma ProgressJoin(d: Disk, xs: seq<Write>, mid: Disk, ys: seq<Write>, disk: Disk, t0: seq<Disk>, t1: seq<Disk>,
                     t2: seq<Disk>)
    requires Progress(d, xs, |xs|, mid, t0, t1) && Progress(mid, ys, |ys|, disk, t1, t2)
    ensures Progress(d, xs + ys, |xs + ys|, disk, t0, t2)
  {
    assert xs[..|xs|] == xs && ys[..|ys|] == ys && (xs + ys)[..|xs + ys|] == xs + ys;
    ApplyConcat(d, xs, ys);
    StagesConcat(d, xs, ys);
  }

  ghost function Elements(s: seq<nat>): set<nat> {
    set b | b in s
  }

  lemma {:induction false} SetOfSeq(s: seq<nat>)
    ensures |Elements(s)| <= |s|
  {
    if |s| > 0 {
      var t := s[..|s| - 1];
      SetOfSeq(t);
      assert Elements(s) == Elements(t) + {s[|s| - 1]};
    }
  }

  lemma {:induction false} DistinctSize(s: seq<nat>)
    requires Distinct(s)
    ensures |Elements(s)| == |s|
  {
    if |s| > 0 {
      var t := s[..|s| - 1];
      DistinctSize(t);
      assert Elements(s) == Elements(t) + {s[|s| - 1]};
    }
  }

  lemma HeldSize(held: multiset<nat>)
    requires |held| <= 1
    ensures |HeldSet(held)| <= 1
  {
    if held == multiset{} {
      assert HeldSet(held) == {};
    } else {
      var x :| x in held;
      assert held == multiset{x} + (held - multiset{x});
      assert held - multiset{x} == multiset{};
      assert HeldSet(held) == {x};
    }
  }

  lemma ElementsMember(s: seq<nat>, b: nat)
    ensures b in Elements(s) <==> b in s
  {}

  /** Latest contents, disk, trace and references are unchanged. */
  ghost predicate SameContents(c: Buffers, g: Shadow, c': Buffers, g': Shadow) {
    c'.disk == c.disk && g'.view == g.view && g'.trace == g.trace && g'.held == g.held
  }

  lemma ReadKept(c: Buffers, g: Shadow, c1: Buffers, g1: Shadow, c2: Buffers, g2: Shadow, b: nat)
    requires KeepsHolds(c, g, c1, g1) && KeepsOthers(c1, g1, c2, g2, b)
    requires g1.held == g.held + multiset{b}
    ensures KeepsHolds(c, g, c2, g2)
  {
    forall i, x | Holds(c, g, i, x)
      ensures Holds(c2, g2, i, x)
    {
      assert Holds(c1, g1, i, x);
      assert x == b ==> g1.held[b] > 1;
    }
  }

  lemma KeepsAll(c: Buffers, g: Shadow)
    ensures KeepsHolds(c, g, c, g)
  {}

  lemma NoElements(s: seq<nat>)
    requires |s| == 0
    ensures Elements(s) == {}
  {}

  lemma ElementsTail(bl: seq<nat>, i: nat)
    requires Targets(bl) && i < |bl|
    ensures bl[i] in Elements(bl[i..])
    ensures Elements(bl[i..]) - {bl[i]} == Elements(bl[i + 1..])
  {
    DistinctPairs(bl);
    assert bl[i..] == [bl[i]] + bl[i + 1..];
    assert bl[i] !in bl[i + 1..];
  }

  lemma InstallInRange(bl: seq<nat>, vals: seq<Block>)
    requires Targets(bl) && |bl| == |vals|
    ensures forall k :: 0 <= k < |bl| ==> InstallWrites(bl, vals)[k].blockno < FSSIZE
  {}

  /** log_write's scan for a block that is already logged; n when there is none. */
  method IndexOf(block: seq<nat>, n: nat, b: nat) returns (k: nat)
    requires n <= |block|
    ensures if b in block[..n] then k < n && block[k] == b else k == n
  {
    k := 0;
    while k < n && block[k] != b
      invariant 0 <= k <= n && b !in block[..k]
    {
      k := k + 1;
    }
    assert k < n ==> block[..n][k] == b;
  }

  /** The loads of read_head from the header buffer. */
  method LoadHeader(lh: Block, was: seq<nat>) returns (n: nat, block: seq<nat>)
    requires HeaderCount(lh) <= MAXLOG && |was| == LOGSIZE
    ensures n == HeaderCount(lh) && |block| == LOGSIZE && block[..n] == HeaderBlocks(lh)
  {
    hide GetWord;
    n, block := HeaderCount(lh), was;
    var i := 0;
    while i < n
      invariant 0 <= i <= n == HeaderCount(lh) && |block| == LOGSIZE
      invariant forall k :: 0 <= k < i ==> block[k] == GetWord(lh, k + 1)
    {
      block := block[i := GetWord(lh, i + 1)];
      i := i + 1;
    }
  }

  /** The stores of write_head into the header buffer. */
  method FillHeader(was: Block, block: seq<nat>, n: nat) returns (data: Block)
    requires n <= MAXLOG && n <= |block| && forall i :: 0 <= i < n ==> block[i] < FSSIZE
    ensures data == EncodeHeader(was, block[..n])
  {
    hide SetWord;
    data := SetWord(was, 0, n);
    var i := 0;
    while i < n
      invariant 0 <= i <= n && data == StoreEntries(was, block[..n], i)
    {
      data := SetWord(data, i + 1, block[i]);
      i := i + 1;
    }
  }

  /** Every disk recorded since `before` is well formed and recovers to all of the old data,
      before `point`, or to all of the new, from `point` on; boot block and superblock are those of d
      throughout. */
  ghost predicate Splits(d: Disk, e: Disk, before: seq<Disk>, trace: seq<Disk>, point: nat) {
    && before <= trace && SameFront(d, e)
    && forall t :: |before| <= t < |trace| ==>
         && WellFormed(trace[t]) && SameFront(d, trace[t])
         && SameData(if t < point then d else e, Recover(trace[t]))
  }

  ghost predicate Atomic(d: Disk, e: Disk, before: seq<Disk>, trace: seq<Disk>) {
    exists point: nat :: Splits(d, e, before, trace, point)
  }

  lemma NothingWritten(d: Disk, t: seq<Disk>)
    ensures Atomic(d, d, t, t)
  {
    assert Splits(d, d, t, t, 0);
  }

  /** With no block busy the cache and the disk agree. */
  lemma AllClean(c: Buffers, g: Shadow)
    requires Good(c, g) && g.held == multiset{} && g.pinned == {}
    ensures g.view == c.disk
  {
    forall b | 0 <= b < FSSIZE
      ensures g.view[b] == c.disk[b]
    {
      IdleIsClean(c, g, b);
    }
  }

  lemma EmptyTargets()
    ensures Targets([])
  {}

  /** After write_log the header is as before and the log holds the values. */
  lemma LoggedStage(d: Disk, bl: seq<nat>, vals: seq<Block>, e: Disk, t0: seq<Disk>, t1: seq<Disk>)
    requires Targets(bl) && |bl| == |vals|
    requires Progress(d, LogWrites(vals), |vals|, e, t0, t1)
    ensures e[LOGSTART] == d[LOGSTART]
    ensures forall i :: 0 <= i < |vals| ==> e[LOGSTART + i + 1] == vals[i]
  {
    hide GetWord, SetWord;
    CutBeforeHeader(d, bl, vals, |bl|);
    assert CommitWrites(d[LOGSTART], bl, vals)[..|bl|] == LogWrites(vals)[..|vals|];
  }

  /** From d, log and header were written: `e` is the disk at the commit point. */
  ghost predicate Marked(d: Disk, bl: seq<nat>, vals: seq<Block>, e: Disk, t0: seq<Disk>, t1: seq<Disk>) {
    Targets(bl) && |bl| == |vals| &&
    Progress(d, LogWrites(vals) + [Write(LOGSTART, EncodeHeader(d[LOGSTART], bl))], |vals| + 1, e, t0, t1)
  }

  /** From d, the blocks were installed and the header cleared. */
  ghost predicate Cleared(d: Disk, bl: seq<nat>, vals: seq<Block>, e: Disk, t0: seq<Disk>, t1: seq<Disk>) {
    Targets(bl) && |bl| == |vals| &&
    Progress(d, InstallWrites(bl, vals) + [Write(LOGSTART, EncodeHeader(d[LOGSTART], []))], |vals| + 1, e, t0, t1)
  }

  lemma MarkedNow(d0: Disk, bl: seq<nat>, vals: seq<Block>, d1: Disk, t0: seq<Disk>, t1: seq<Disk>)
    requires Targets(bl) && |bl| == |vals|
    requires Progress(d0, LogWrites(vals), |vals|, d1, t0, t1)
    ensures var d2 := d1[LOGSTART := EncodeHeader(d1[LOGSTART], bl)]; Marked(d0, bl, vals, d2, t0, t1 + [d2])
  {
    hide GetWord, SetWord, Progress, EncodeHeader;
    LoggedStage(d0, bl, vals, d1, t0, t1);
    var h := Write(LOGSTART, EncodeHeader(d0[LOGSTART], bl));
    var d2 := d1[LOGSTART := h.data];
    ProgressOne(d1, h, t1);
    ProgressJoin(d0, LogWrites(vals), d1, [h], d2, t0, t1, t1 + [d2]);
  }

  lemma ClearedNow(d2: Disk, bl: seq<nat>, vals: seq<Block>, d3: Disk, t2: seq<Disk>, t3: seq<Disk>)
    requires Targets(bl) && |bl| == |vals|
    requires Progress(d2, InstallWrites(bl, vals), |vals|, d3, t2, t3)
    ensures var d4 := d3[LOGSTART := EncodeHeader(d3[LOGSTART], [])]; Cleared(d2, bl, vals, d4, t2, t3 + [d4])
  {
    hide GetWord, SetWord, Progress, EncodeHeader;
    HeaderKept(d2, bl, vals, d3, t2, t3);
    var z := Write(LOGSTART, EncodeHeader(d2[LOGSTART], []));
    var d4 := d3[LOGSTART := z.data];
    ProgressOne(d3, z, t3);
    ProgressJoin(d2, InstallWrites(bl, vals), d3, [z], d4, t2, t3, t3 + [d4]);
  }

  /** The two halves put together are the commit's list of writes. */
  lemma CommitProgress(d0: Disk, bl: seq<nat>, vals: seq<Block>, d2: Disk, d4: Disk, t0: seq<Disk>, t2: seq<Disk>,
                       t4: seq<Disk>)
    requires Marked(d0, bl, vals, d2, t0, t2) && Cleared(d2, bl, vals, d4, t2, t4)
    ensures var ws := CommitWrites(d0[LOGSTART], bl, vals); Progress(d0, ws, |ws|, d4, t0, t4)
  {
    hide GetWord, SetWord, EncodeHeader;
    var h := Write(LOGSTART, EncodeHeader(d0[LOGSTART], bl));
    var xs := LogWrites(vals) + [h];
    assert d2[LOGSTART] == h.data by {
      assert xs[..|xs|] == xs;
    }
    var ys := InstallWrites(bl, vals) + [Write(LOGSTART, EncodeHeader(h.data, []))];
    ProgressJoin(d0, xs, d2, ys, d4, t0, t2, t4);
    assert CommitWrites(d0[LOGSTART], bl, vals) == xs + ys;
  }

  lemma ProgressOne(d: Disk, w: Write, t: seq<Disk>)
    requires w.blockno < FSSIZE
    ensures var e := d[w.blockno := w.data]; Progress(d, [w], 1, e, t, t + [e])
  {
    StagesOne(d, w);
    assert [w][..1] == [w];
  }

  lemma HeaderKept(d: Disk, bl: seq<nat>, vals: seq<Block>, e: Disk, t0: seq<Disk>, t1: seq<Disk>)
    requires Targets(bl) && |bl| == |vals| && Progress(d, InstallWrites(bl, vals), |vals|, e, t0, t1)
    ensures e[LOGSTART] == d[LOGSTART]
  {
    InstallKeepsLog(d, bl, vals, |bl|);
  }

  /** Every stage of a commit is crash safe, and at its end the blocks are in place. */
  lemma CommitStages(d: Disk, bl: seq<nat>, vals: seq<Block>, mid: Disk, e: Disk, t0: seq<Disk>, tm: seq<Disk>,
                     t1: seq<Disk>)
    requires Targets(bl) && |bl| == |vals| && Clean(d)
    requires Marked(d, bl, vals, mid, t0, tm) && Cleared(mid, bl, vals, e, tm, t1)
    ensures Clean(e) && Atomic(d, e, t0, t1) && Installed(d, bl, vals, e)
  {
    hide GetWord, SetWord, Recover, Marked, Cleared, Targets;
    var ws := CommitWrites(d[LOGSTART], bl, vals);
    CommitProgress(d, bl, vals, mid, e, t0, tm, t1);
    assert ws[..|ws|] == ws;
    CommitCompletes(d, bl, vals);
    CommitKeepsFront(d, bl, vals, |ws|);
    forall t | |t0| <= t < |t1|
      ensures WellFormed(t1[t]) && SameFront(d, t1[t])
      ensures SameData(if t < |t0| + |bl| then d else e, Recover(t1[t]))
    {
      var k := t - |t0| + 1;
      assert t1[t] == CutCommit(d, bl, vals, k);
      CommitKeepsFront(d, bl, vals, k);
      CommitIsCrashAtomic(d, bl, vals, k);
      if k > |bl| {
        InstalledAgain(d, bl, vals, d, Recover(t1[t]), e);
      }
    }
    assert Splits(d, e, t0, t1, |t0| + |bl|);
  }

  /** Blocks outside the log that were not logged were clean, so installing the logged ones
      makes the disk equal to the latest contents. */
  lemma OnlyLoggedChanged(c: Buffers, g: Shadow, bl: seq<nat>, vals: seq<Block>, e: Disk)
    requires Good(c, g) && g.held == multiset{} && g.pinned == Elements(bl)
    requires Targets(bl) && |bl| == |vals| && Installed(c.disk, bl, vals, e)
    requires forall i :: 0 <= i < |bl| ==> vals[i] == g.view[bl[i]]
    ensures SameData(g.view, e)
  {
    hide Good, Targets;
    forall b | 0 <= b < FSSIZE && !InLog(b)
      ensures g.view[b] == e[b]
    {
      if b in bl {
        var i :| 0 <= i < |bl| && bl[i] == b;
        assert e[bl[i]] == vals[i];
      } else {
        IdleIsClean(c, g, b);
      }
    }
  }

  /** Logging one more block. */
  lemma TargetsGrow(bl: seq<nat>, b: nat)
    requires Targets(bl) && |bl| < MAXLOG && b < FSSIZE && !InLog(b) && !InFront(b) && b !in bl
    ensures Targets(bl + [b]) && Elements(bl + [b]) == Elements(bl) + {b}
  {
    assert (bl + [b])[..|bl|] == bl;
  }

  /** Every disk recorded since `before` recovers to the same data as d, and has its front. */
  ghost predicate Recovering(d: Disk, before: seq<Disk>, trace: seq<Disk>)
    requires WellFormed(d)
  {
    && before <= trace && SameFront(d, Recover(d))
    && forall t :: |before| <= t < |trace| ==>
         WellFormed(trace[t]) && SameFront(d, trace[t]) && SameData(Recover(d), Recover(trace[t]))
  }

  /** Every stage of a recovery recovers to the same data. */
  lemma RecoveryStages(d: Disk, e: Disk, t0: seq<Disk>, t1: seq<Disk>)
    requires WellFormed(d)
    requires var bl := HeaderBlocks(d[LOGSTART]); Cleared(d, bl, LoggedValues(d, |bl|), e, t0, t1)
    ensures e == Recover(d) && Clean(e) && Recovering(d, t0, t1)
  {
    hide GetWord, SetWord;
    var ws := RecoveryWrites(d);
    assert ws[..|ws|] == ws;
    RecoverClears(d);
    RecoveryKeepsFront(d, |ws|);
    forall t | |t0| <= t < |t1|
      ensures WellFormed(t1[t]) && SameFront(d, t1[t]) && SameData(Recover(d), Recover(t1[t]))
    {
      RecoveryIsIdempotent(d, t - |t0| + 1);
      RecoveryKeepsFront(d, t - |t0| + 1);
    }
  }

  /** The log area of the disk holds the latest contents of its blocks. */
  ghost predicate LogClean(disk: Disk, view: Disk) {
    forall b :: 0 <= b < FSSIZE && InLog(b) ==> view[b] == disk[b]
  }

  lemma TargetAt(bl: seq<nat>, i: nat)
    requires Targets(bl) && i < |bl|
    ensures bl[i] < FSSIZE && !InLog(bl[i]) && !InFront(bl[i])
  {}

  class Log {
    const cache: Cache
    var outstanding: nat
    var committing: bool
    var n: nat
    var block: seq<nat>

    ghost function Logged(): seq<nat>
      reads this
      requires n <= |block|
    {
      block[..n]
    }

    /** The log's own fields, and the pins that keep its blocks cached. */
    ghost predicate Pinned()
      reads this, cache
    {
      && cache.Valid()
      && |block| == LOGSIZE && n <= MAXLOG
      && Targets(Logged())
      && cache.g.pinned == Elements(Logged())
    }

    /** The log area of the disk is current, and nobody holds a buffer. */
    ghost predicate Quiet()
      reads this, cache
    {
      Pinned() && cache.g.held == multiset{} && LogClean(cache.c.disk, cache.g.view)
    }

    /** As Quiet, while pins are being dropped. */
    ghost predicate Calm()
      reads this, cache
    {
      && cache.Valid() && cache.g.held == multiset{} && LogClean(cache.c.disk, cache.g.view)
      && |block| == LOGSIZE && n <= MAXLOG && Targets(Logged())
      && |cache.g.pinned| < NBUF
    }

    /** The latest contents of the logged blocks. */
    ghost function Values(): (vals: seq<Block>)
      reads this, cache
      requires |block| == LOGSIZE && n <= MAXLOG && Targets(Logged())
      ensures |vals| == n
      ensures forall i :: 0 <= i < n ==> block[i] < FSSIZE && vals[i] == cache.g.view[block[i]]
    {
      assert forall i :: 0 <= i < n ==> block[i] == Logged()[i];
      var view, bl := cache.g.view, block;
      seq(n, i requires 0 <= i < |bl| && bl[i] < FSSIZE => view[bl[i]])
    }

    /** Between operations: nothing outstanding, nothing logged, the disk current. */
    ghost predicate Idle()
      reads this, cache
    {
      && Quiet() && n == 0 && outstanding == 0 && !committing
      && Clean(cache.c.disk) && cache.g.view == cache.c.disk
    }

    /** Outside of a commit: the header is empty and only the log itself touches its area. */
    ghost predicate Up()
      reads this, cache
    {
      && Pinned() && !committing
      && Clean(cache.c.disk) && LogClean(cache.c.disk, cache.g.view)
      && (forall b :: b in cache.g.held ==> !InLog(b))
    }

    /** Inside the one operation begin_op admits at a time. */
    ghost predicate InOp()
      reads this, cache
    {
      Up() && outstanding == 1
    }

    lemma IdleIsUp()
      requires Idle()
      ensures Up()
    {}

    /** The log counts each pinned block once. */
    lemma CountsPins()
      requires Pinned()
      ensures n == |cache.g.pinned|
    {
      DistinctSize(Logged());
    }

    /** With at most one buffer held and the log not full, bget always finds a buffer. */
    lemma RoomForOneMore()
      requires Pinned() && |cache.g.held| <= 1 && n < MAXLOG
      ensures |Busy(cache.g.held, cache.g.pinned)| < NBUF
    {
      CountsPins();
      HeldSize(cache.g.held);
      assert |Busy(cache.g.held, cache.g.pinned)| <= |HeldSet(cache.g.held)| + |cache.g.pinned|;
    }

    /** log_init: recovery at boot, on an empty cache. Whatever the last power failure left, the
        log is replayed; should the power fail again on the way, the next boot ends up with the
        same data. */
    constructor (c: Cache)
      requires c.Valid() && c.g.held == multiset{} && c.g.pinned == {} && c.g.view == c.c.disk
      requires WellFormed(c.c.disk)
      modifies c
      ensures cache == c && Idle()
      ensures c.c.disk == Recover(old(c.c).disk)
      ensures Recovering(old(c.c).disk, old(c.g).trace, c.g.trace)
    {
      cache, outstanding, committing, n := c, 0, false, 0;
      block := seq(LOGSIZE, _ => 0);
      new;
      RecoverFromLog();
    }

    /** recover_from_log: install what the header names, then clear it. */
    method RecoverFromLog()
      requires cache.Valid() && cache.g.held == multiset{} && cache.g.pinned == {} && cache.g.view == cache.c.disk
      requires WellFormed(cache.c.disk) && |block| == LOGSIZE && outstanding == 0 && !committing
      modifies this`n, this`block, cache
      ensures Idle()
      ensures cache.c.disk == Recover(old(cache.c).disk)
      ensures Recovering(old(cache.c).disk, old(cache.g).trace, cache.g.trace)
    {
      hide Good, Progress, Targets, Elements, GetWord, SetWord, Recover, HeaderBlocks, Recovering, Cleared;
      ghost var d0, t0 := cache.c.disk, cache.g.trace;
      ReadHead();
      ghost var bl := Logged();
      InstallTrans(true);
      ghost var d1, t1 := cache.c.disk, cache.g.trace;
      n := 0;
      EmptyTargets();
      assert Logged() == [];
      WriteHead();
      ClearedNow(d0, bl, LoggedValues(d0, |bl|), d1, t0, t1);
      RecoveryStages(d0, cache.c.disk, t0, cache.g.trace);
      NoElements(Logged());
      AllClean(cache.c, cache.g);
    }

    /** read_head: loads the list of logged blocks from the header block. */
    method ReadHead()
      requires cache.Valid() && cache.g.held == multiset{} && cache.g.pinned == {}
      requires cache.g.view == cache.c.disk && WellFormed(cache.c.disk) && |block| == LOGSIZE
      modifies this`n, this`block, cache
      ensures Calm() && cache.g.pinned == {}
      ensures cache.c.disk == cache.g.view == old(cache.c).disk && cache.g.trace == old(cache.g).trace
      ensures Logged() == HeaderBlocks(cache.c.disk[LOGSTART])
    {
      hide Good, Holds, Touched, GetWord, HeaderBlocks, Targets, Clean, Elements;
      assert Busy(cache.g.held, cache.g.pinned) == {};
      var buf := cache.BRead(LOGSTART);
      var lh := cache.Data(buf, LOGSTART);
      n, block := LoadHeader(lh, block);
      assert Logged() == HeaderBlocks(lh);
      cache.BRelse(buf, LOGSTART);
      assert cache.g.held == multiset{};
    }

    /** One poll of begin_op: it admits the caller only when no other operation is under way, so
        at most one is ever outstanding. */
    method BeginOp() returns (entered: bool)
      requires Pinned() && LogClean(cache.c.disk, cache.g.view) && Clean(cache.c.disk) && cache.g.held == multiset{}
      modifies this`outstanding
      ensures entered <==> !committing && n == 0 && old(outstanding) == 0
      ensures outstanding == if entered then 1 else old(outstanding)
      ensures entered ==> InOp()
    {
      entered := !committing && n + (outstanding + 1) * LOGSIZE <= LOGSIZE;
      if entered {
        outstanding := outstanding + 1;
      }
    }

    /** log_write: remembers a modified buffer's block, once, and pins the buffer. */
    method LogWrite(i: nat, ghost b: nat)
      requires InOp() && Holds(cache.c, cache.g, i, b) && n < MAXLOG && !InLog(b) && !InFront(b)
      modifies this`n, this`block, cache
      ensures InOp() && KeepsHolds(old(cache.c), old(cache.g), cache.c, cache.g)
      ensures cache.c.disk == old(cache.c).disk
      ensures cache.g == old(cache.g).(pinned := old(cache.g).pinned + {b})
      ensures n == if b in old(cache.g).pinned then old(n) else old(n) + 1
    {
      var blockno := cache.c.bufs[i].blockno;
      assert blockno == b < FSSIZE;
      hide Good, Targets, Holds, GetWord, LogClean, Elements, KeepsHolds;
      ElementsMember(Logged(), b);
      var k := IndexOf(block, n, blockno);
      if k == n {
        Append(i, b, blockno);
      } else {
        assert block[k := blockno] == block;
        assert cache.g.pinned + {b} == cache.g.pinned;
        KeepsAll(cache.c, cache.g);
      }
    }

    /** A block logged for the first time. */
    method Append(i: nat, ghost b: nat, blockno: nat)
      requires InOp() && Holds(cache.c, cache.g, i, b) && n < MAXLOG
      requires blockno == b < FSSIZE && !InLog(b) && !InFront(b)
      requires b !in Logged() && b !in cache.g.pinned
      modifies this`n, this`block, cache
      ensures InOp() && KeepsHolds(old(cache.c), old(cache.g), cache.c, cache.g)
      ensures cache.c.disk == old(cache.c).disk
      ensures cache.g == old(cache.g).(pinned := old(cache.g).pinned + {b})
      ensures n == old(n) + 1
    {
      hide Good, Targets, Holds, GetWord, LogClean, Elements, KeepsHolds;
      ghost var was := Logged();
      block := block[n := blockno];
      cache.BPin(i, b);
      n := n + 1;
      assert Logged() == was + [b];
      TargetsGrow(was, b);
    }

    /** end_op: the last operation out commits. The data of a finished operation is on the disk;
        after a failure on the way, recovery finds all of it or none of it. */
    method EndOp()
      requires InOp() && cache.g.held == multiset{}
      modifies this`outstanding, this`committing, this`n, cache
      ensures Idle() && SameData(old(cache.g).view, cache.g.view)
      ensures Atomic(old(cache.c).disk, cache.c.disk, old(cache.g).trace, cache.g.trace)
    {
      hide Good, Atomic, Targets, Elements;
      outstanding := outstanding - 1;
      if outstanding == 0 {
        committing := true;
        Commit();
        committing := false;
      }
    }

    lemma PinsLeaveRoom()
      requires Pinned()
      ensures |cache.g.pinned| < NBUF
    {
      SetOfSeq(Logged());
    }

    /** write_log, one block: copies the i-th logged block into the log. */
    method LogOne(i: nat)
      requires Quiet() && i < n
      modifies cache
      ensures Quiet() && cache.g.pinned == old(cache.g).pinned
      ensures cache.c.disk == old(cache.c).disk[LOGSTART + i + 1 := old(cache.g).view[block[i]]]
      ensures cache.g.view == old(cache.g).view[LOGSTART + i + 1 := old(cache.g).view[block[i]]]
      ensures cache.g.trace == old(cache.g).trace + [cache.c.disk]
    {
      hide Good, Holds, Targets, Elements, Clean, GetWord, SameData;
      PinsLeaveRoom();
      ElementsMember(Logged(), block[i]);
      TargetAt(Logged(), i);
      var log, src := LOGSTART + i + 1, block[i];
      assert src == Logged()[i];
      assert Busy(cache.g.held, cache.g.pinned) == cache.g.pinned;
      var to, from := cache.BReadPair(log, src);
      cache.CopyOut(from, src, to, log);
      cache.BRelsePair(from, src, to, log);
    }

    /** install_trans, one block of a commit: copies the i-th block of the log to its place.
        The block is still pinned, hence cached, and loses its pin. */
    method InstallPinned(i: nat)
      requires Calm() && i < n && block[i] in cache.g.pinned
      modifies cache
      ensures Calm()
      ensures cache.g.pinned == old(cache.g).pinned - {block[i]}
      ensures cache.c.disk == old(cache.c).disk[block[i] := old(cache.g).view[LOGSTART + i + 1]]
      ensures cache.g.view == old(cache.g).view[block[i] := old(cache.g).view[LOGSTART + i + 1]]
      ensures cache.g.trace == old(cache.g).trace + [cache.c.disk]
    {
      hide Good, Holds, Targets;
      TargetAt(Logged(), i);
      var log, dst := LOGSTART + i + 1, block[i];
      assert dst == Logged()[i];
      assert Busy(cache.g.held, cache.g.pinned) == cache.g.pinned;
      hide Busy;
      var lbuf, dbuf := cache.BReadPair(log, dst);
      cache.CopyOut(lbuf, log, dbuf, dst);
      cache.BUnpin(dbuf, dst);
      cache.BRelsePair(lbuf, log, dbuf, dst);
      SubsetSize(cache.g.pinned, old(cache.g).pinned);
    }

    /** install_trans, one block of a recovery, when nothing is pinned. */
    method InstallFresh(i: nat)
      requires Calm() && i < n && cache.g.pinned == {}
      modifies cache
      ensures Calm() && cache.g.pinned == {}
      ensures cache.c.disk == old(cache.c).disk[block[i] := old(cache.g).view[LOGSTART + i + 1]]
      ensures cache.g.view == old(cache.g).view[block[i] := old(cache.g).view[LOGSTART + i + 1]]
      ensures cache.g.trace == old(cache.g).trace + [cache.c.disk]
    {
      hide Good, Holds, Targets;
      TargetAt(Logged(), i);
      var log, dst := LOGSTART + i + 1, block[i];
      assert dst == Logged()[i];
      assert Busy(cache.g.held, cache.g.pinned) == {};
      assert Busy(cache.g.held + multiset{log}, cache.g.pinned) == {log};
      hide Busy;
      var lbuf, dbuf := cache.BReadPair(log, dst);
      cache.CopyOut(lbuf, log, dbuf, dst);
      cache.BRelsePair(lbuf, log, dbuf, dst);
    }

    /** write_log: copies every logged block, latest contents, into the log. */
    method WriteLog()
      requires Quiet()
      modifies cache
      ensures Quiet() && cache.g.pinned == old(cache.g).pinned
      ensures SameData(old(cache.g).view, cache.g.view)
      ensures var ws := LogWrites(old(Values()));
              Progress(old(cache.c).disk, ws, |ws|, cache.c.disk, old(cache.g).trace, cache.g.trace)
    {
      hide Good, Progress, Targets;
      ghost var ws := LogWrites(Values());
      ProgressStart(cache.c.disk, ws, cache.g.trace);
      var tail := 0;
      while tail < n
        invariant 0 <= tail <= n && Quiet() && cache.g.pinned == old(cache.g).pinned
        invariant SameData(old(cache.g).view, cache.g.view)
        invariant Progress(old(cache.c).disk, ws, tail, cache.c.disk, old(cache.g).trace, cache.g.trace)
      {
        TargetAt(Logged(), tail);
        assert block[tail] == Logged()[tail];
        ProgressStep(old(cache.c).disk, ws, tail, cache.c.disk, old(cache.g).trace, cache.g.trace);
        LogOne(tail);
        tail := tail + 1;
      }
    }
  
    /** write_head: stores the in-memory list of logged blocks in the header block. */
    method WriteHead()
      requires Calm()
      modifies cache
      ensures Calm() && cache.g.pinned == old(cache.g).pinned
      ensures var head := EncodeHeader(old(cache.c).disk[LOGSTART], Logged());
              && cache.c.disk == old(cache.c).disk[LOGSTART := head]
              && cache.g.view == old(cache.g).view[LOGSTART := head]
      ensures cache.g.trace == old(cache.g).trace + [cache.c.disk]
    {
      hide Good, Holds, Touched, EncodeHeader;
      assert Busy(cache.g.held, cache.g.pinned) == cache.g.pinned;
      hide Busy;
      assert cache.g.view[LOGSTART] == cache.c.disk[LOGSTART];
      var buf := cache.BRead(LOGSTART);
      var was := cache.Data(buf, LOGSTART);
      var data := FillHeader(was, block, n);
      cache.Store(buf, LOGSTART, data);
      cache.BWrite(buf, LOGSTART);
      cache.BRelse(buf, LOGSTART);
      assert cache.g.held == multiset{};
    }

    /** install_trans: copies every logged block from the log to its place. */
    method InstallTrans(recovering: bool)
      requires Calm()
      requires cache.g.pinned == if recovering then {} else Elements(Logged())
      modifies cache
      ensures Calm() && cache.g.pinned == {}
      ensures forall b :: 0 <= b < FSSIZE && InLog(b) ==> cache.g.view[b] == old(cache.g).view[b]
      ensures var ws := InstallWrites(Logged(), LoggedValues(old(cache.g).view, n));
              Progress(old(cache.c).disk, ws, n, cache.c.disk, old(cache.g).trace, cache.g.trace)
    {
      hide Good, Progress, Targets, Elements;
      ghost var ws := InstallWrites(Logged(), LoggedValues(cache.g.view, n));
      InstallInRange(Logged(), LoggedValues(cache.g.view, n));
      ProgressStart(cache.c.disk, ws, cache.g.trace);
      var tail := 0;
      assert Logged()[0..] == Logged();
      while tail < n
        invariant 0 <= tail <= n && Calm()
        invariant cache.g.pinned == if recovering then {} else Elements(Logged()[tail..])
        invariant forall b :: 0 <= b < FSSIZE && InLog(b) ==> cache.g.view[b] == old(cache.g).view[b]
        invariant Progress(old(cache.c).disk, ws, tail, cache.c.disk, old(cache.g).trace, cache.g.trace)
      {
        TargetAt(Logged(), tail);
        assert block[tail] == Logged()[tail];
        ProgressStep(old(cache.c).disk, ws, tail, cache.c.disk, old(cache.g).trace, cache.g.trace);
        if recovering {
          InstallFresh(tail);
        } else {
          ElementsTail(Logged(), tail);
          InstallPinned(tail);
        }
        tail := tail + 1;
      }
      NoElements(Logged()[n..]);
    }
  
    /** The first half of commit: everything is in the log and the header names it. */
    method LogAndMark()
      requires Quiet()
      modifies cache
      ensures Calm() && cache.g.pinned == Elements(Logged())
      ensures LoggedValues(cache.g.view, n) == old(Values())
      ensures Marked(old(cache.c).disk, Logged(), old(Values()), cache.c.disk, old(cache.g).trace, cache.g.trace)
    {
      hide Good, Progress, Targets, Elements;
      ghost var d0, t0 := cache.c.disk, cache.g.trace;
      ghost var vals := Values();
      PinsLeaveRoom();
      WriteLog();
      ghost var d1, t1 := cache.c.disk, cache.g.trace;
      LoggedStage(d0, Logged(), vals, d1, t0, t1);
      WriteHead();
      MarkedNow(d0, Logged(), vals, d1, t0, t1);
    }

    /** The second half: the logged blocks are in place and the header is empty again. */
    method InstallAndClear()
      requires Calm() && cache.g.pinned == Elements(Logged())
      modifies this`n, cache
      ensures Calm() && cache.g.pinned == {} && n == 0
      ensures Cleared(old(cache.c).disk, old(Logged()), LoggedValues(old(cache.g).view, old(n)),
                      cache.c.disk, old(cache.g).trace, cache.g.trace)
    {
      hide Good, Progress, Targets, Elements;
      ghost var d2, t2, bl, vals := cache.c.disk, cache.g.trace, Logged(), LoggedValues(cache.g.view, n);
      InstallTrans(false);
      ghost var d3, t3 := cache.c.disk, cache.g.trace;
      n := 0;
      EmptyTargets();
      assert Logged() == [];
      WriteHead();
      ClearedNow(d2, bl, vals, d3, t2, t3);
    }

    /** commit: the four-step protocol, skipped when nothing was logged. Afterwards the disk and
        the latest contents agree everywhere, and every disk seen on the way recovers to all of
        the old data or to all of the new. */
    method Commit()
      requires Quiet() && Clean(cache.c.disk)
      modifies this`n, cache
      ensures Quiet() && n == 0 && Clean(cache.c.disk)
      ensures cache.g.view == cache.c.disk && SameData(old(cache.g).view, cache.g.view)
      ensures Atomic(old(cache.c).disk, cache.c.disk, old(cache.g).trace, cache.g.trace)
    {
      hide Good, Marked, Cleared, Targets, Elements, Atomic;
      ghost var d0, t0 := cache.c.disk, cache.g.trace;
      ghost var bl, vals := Logged(), Values();
      if n > 0 {
        LogAndMark();
        ghost var d2, t2 := cache.c.disk, cache.g.trace;
        InstallAndClear();
        CommitStages(d0, bl, vals, d2, cache.c.disk, t0, t2, cache.g.trace);
        OnlyLoggedChanged(old(cache.c), old(cache.g), bl, vals, cache.c.disk);
      } else {
        NothingWritten(d0, t0);
      }
      NoElements(Logged());
      AllClean(cache.c, cache.g);
    }
  
    // ---------- what the file system uses ----------

    /** bread, a look at the bytes, brelse. */
    method ReadBlock(b: nat) returns (data: Block)
      requires Up() && Room(cache.g, b) && !InLog(b)
      modifies cache
      ensures Up() && KeepsHolds(old(cache.c), old(cache.g), cache.c, cache.g)
      ensures data == cache.g.view[b]
      ensures SameContents(old(cache.c), old(cache.g), cache.c, cache.g)
      ensures cache.g.pinned == old(cache.g).pinned
    {
      hide Good, Holds, Touched, Targets, LogClean, Elements, GetWord;
      if b !in cache.g.held && b !in cache.g.pinned {
        IdleIsClean(cache.c, cache.g, b);
      }
      var i := cache.BRead(b);
      data := cache.Data(i, b);
      ghost var c1, g1 := cache.c, cache.g;
      cache.BRelse(i, b);
      assert cache.g.held == old(cache.g).held;
      ReadKept(old(cache.c), old(cache.g), c1, g1, cache.c, cache.g, b);
    }

    /** bread, new bytes, log_write, brelse. */
    method UpdateBlock(b: nat, data: Block)
      requires InOp() && Room(cache.g, b) && !InLog(b) && !InFront(b) && n < MAXLOG
      modifies this`n, this`block, cache
      ensures InOp() && KeepsHolds(old(cache.c), old(cache.g), cache.c, cache.g)
      ensures cache.g.view == old(cache.g).view[b := data]
      ensures cache.g.pinned == old(cache.g).pinned + {b} && cache.g.held == old(cache.g).held
      ensures n == if b in old(cache.g).pinned then old(n) else old(n) + 1
      ensures cache.g.trace == old(cache.g).trace && cache.c.disk == old(cache.c).disk
    {
      hide Good, Holds, Touched, Targets, Elements, GetWord;
      var i := cache.BRead(b);
      cache.Store(i, b, data);
      LogWrite(i, b);
      ghost var c1, g1 := cache.c, cache.g;
      cache.BRelse(i, b);
      assert cache.g.held == old(cache.g).held;
      ReadKept(old(cache.c), old(cache.g), c1, g1, cache.c, cache.g, b);
    }
  }
}
