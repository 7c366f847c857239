/** Coming up: from whatever disk the power failure left, through recovery, to a file system ready
    for the next call; the disk that formatting leaves; and histories from there on. */
module Mount {
  import opened LittleEndian
  import opened Blocks
  import opened Lists
  import opened Crash
  import opened BufferCache
  import opened WriteAheadLog
  import opened Layout
  import opened Files
  import opened Space
  import opened Superblock
  import opened FileSystem
  import opened OpenFile

  /** A disk that boots: its superblock says that there is a file system, and recovery leaves one that is
      in order. */
  ghost predicate Bootable(e: Disk) {
    HasMagic(e) && WellFormed(e) && exists t, o :: InOrder(Recover(e), t, o)
  }

  ghost predicate AllBootable(trace: seq<Disk>) {
    forall k :: 0 <= k < |trace| ==> Bootable(trace[k])
  }

  /** A disk that recovers to the data of a file system in order boots. */
  lemma BootsLike(e: Disk, d: Disk, t: Table, o: map<nat, Place>)
    requires HasMagic(e) && WellFormed(e) && SameData(d, Recover(e)) && InOrder(d, t, o)
    ensures Bootable(e)
  {
    hide FsInv, OnDisk, Recover, WellFormed, SameData;
    LogIsIrrelevant(d, Recover(e), t, o);
    assert InOrder(Recover(e), t, o);
  }

  /** The boot path: an empty cache, log_init with its recovery, and the file system on top. Should
      the power fail during recovery, every disk on the way boots again. */
  method Boot(image: Disk, ghost table: Table, ghost owner: map<nat, Place>) returns (v: Volume)
    requires HasMagic(image) && WellFormed(image) && InOrder(Recover(image), table, owner)
    ensures fresh(v) && fresh(v.log) && fresh(v.log.cache)
    ensures Steady(v) && v.View() == Recover(image) && v.table == table && v.owner == owner
    ensures AllBootable(v.log.cache.g.trace) && Recovering(image, [], v.log.cache.g.trace)
  {
    hide FsInv, OnDisk, Recover, WellFormed, Good, Targets, Elements, SameFront, HasMagic;
    var cache := new Cache(image);
    var log := new Log(cache);
    v := new Volume(log, table, owner);
    SameFrontMagic(image, Recover(image));
    RecoveringBoots(image, table, owner, cache.g.trace);
  }

  lemma RecoveringBoots(image: Disk, table: Table, owner: map<nat, Place>, trace: seq<Disk>)
    requires WellFormed(image) && InOrder(Recover(image), table, owner) && Recovering(image, [], trace)
    requires HasMagic(image)
    ensures AllBootable(trace)
  {
    hide FsInv, OnDisk, Recover, WellFormed, SameData, SameFront, HasMagic;
    forall k | 0 <= k < |trace| ensures Bootable(trace[k]) {
      SameFrontMagic(image, trace[k]);
      BootsLike(trace[k], Recover(image), table, owner);
    }
  }

  /** After a power failure, or the panic of a full disk, anywhere in a file_write: the disk boots to
      a file system in which a whole number of chunks is in the file and every other file is as it
      was. */
  method BootAfterWrite(e: Disk, ghost v0: Disk, ghost t0: Table, ghost j: nat, ghost off: nat,
                        ghost src: seq<Byte>) returns (v: Volume, ghost i: nat)
    requires WholeChunks(e, v0, t0, j, off, src) && HasMagic(v0) && SameFront(v0, e)
    ensures Steady(v) && Boundary(i, |src|) && Reached(v0, t0, v.View(), v.table, j, off, src, i)
  {
    hide FsInv, OnDisk, Recover, WellFormed, Reached, Boundary;
    ghost var t, o, n :| RecoversTo(e, v0, t0, j, off, src, t, o, n);
    SameFrontMagic(v0, e);
    v := Boot(e, t, o);
    i := n;
  }

  // ---------- a formatted disk ----------

  /** A bitmap block with the first n blocks marked too, as the loop of fs_init marks them. */
  function MarkFirst(bits: Block, n: nat): Block
    requires n <= 8 * BSIZE
  {
    if n == 0 then bits
    else
      var before := MarkFirst(bits, n - 1);
      if BitAt(before, n - 1) then before else FlipAt(before, n - 1)
  }

  lemma {:induction false} MarkedBits(bits: Block, n: nat, b: nat)
    requires n <= 8 * BSIZE && b < 8 * BSIZE
    ensures BitAt(MarkFirst(bits, n), b) <==> b < n || BitAt(bits, b)
  {
    hide FlipAt, BitAt;
    if n > 0 {
      MarkedBits(bits, n - 1, b);
      MarkedBits(bits, n - 1, n - 1);
      FlipOneBit(MarkFirst(bits, n - 1), n - 1, b);
    }
  }

  lemma NoBits(b: nat)
    requires b < 8 * BSIZE
    ensures !BitAt(ZeroBlock(), b)
  {
    ZeroBits(b % 8);
  }

  lemma {:induction false} ZeroBits(j: nat)
    ensures !Bit(0, j)
  {
    if j > 0 {
      ZeroBits(j - 1);
    }
  }

  const NOTHING: DInode := InodeFields(0, 0, 0, 0, 0, [0, 0, 0, 0, 0, 0, 0, 0, 0, 0, 0, 0, 0])

  function EmptyTable(): Table { seq<DInode>(NINODES, _ => NOTHING) }

  /** The disk once the superblock is written and the system blocks are marked used: no inode, an empty
      log. The boot block is as it was, and so is the rest of the superblock. */
  function FormattedDisk(boot: Block, super: Block): Disk {
    seq<Block>(FSSIZE, (b: nat) => FormattedBlock(boot, super, b))
  }

  function FormattedBlock(boot: Block, super: Block, b: nat): Block {
    if b == 0 then boot
    else if b == SUPER then StoreFields(super, 8)
    else if b == BMAP then MarkFirst(ZeroBlock(), BMAP + 1)
    else ZeroBlock()
  }

  lemma FormattedHasMagic(boot: Block, super: Block)
    ensures HasMagic(FormattedDisk(boot, super))
  {
    hide Get, StoreFields, MarkFirst;
    FieldsBack(super, 8, 0);
  }

  lemma ZeroInode(slot: nat)
    requires slot < IPB
    ensures InodeAt(ZeroBlock(), slot) == NOTHING
  {
    hide GetWord;
    var ws := WordsAt(ZeroBlock(), 16 * slot, 16);
    forall k | 0 <= k < 16 ensures ws[k] == 0 {
      ZeroWords(16 * slot + k);
    }
    assert ws[3..] == NOTHING.addrs;
  }

  lemma EmptyLog(d: Disk)
    requires d[LOGSTART] == ZeroBlock()
    ensures WellFormed(d) && HeaderBlocks(d[LOGSTART]) == []
  {
    ZeroWords(0);
  }

  /** The file system starts consistent, and so does every boot from it. */
  lemma FormattedIsConsistent(boot: Block, super: Block)
    ensures var d := FormattedDisk(boot, super); FsInv(d, EmptyTable(), map[]) && OnDisk(d, EmptyTable(), {})
  {
    hide BitAt, GetWord, InodeAt, MarkFirst, StoreFields;
    var d := FormattedDisk(boot, super);
    forall b | 0 <= b < FSSIZE ensures Used(d, b) <==> b <= BMAP {
      MarkedBits(ZeroBlock(), BMAP + 1, b);
      NoBits(b);
    }
    forall j | 0 <= j < NINODES ensures GetInode(d, j) == EmptyTable()[j] {
      assert d[InodeBlock(j)] == ZeroBlock();
      ZeroInode(j % IPB);
    }
  }

  /** From formatting to the first call. */
  method FirstBoot(boot: Block, super: Block) returns (v: Volume)
    ensures fresh(v) && fresh(v.log) && fresh(v.log.cache)
    ensures Steady(v) && v.table == EmptyTable() && AllBootable(v.log.cache.g.trace)
    ensures var d := FormattedDisk(boot, super);
            HasMagic(d) && WellFormed(d) && v.View() == Recover(d) && Recovering(d, [], v.log.cache.g.trace)
    ensures forall b :: BMAP < b < FSSIZE ==> b in FreeBlocks(v.View())
  {
    hide FsInv, OnDisk, MarkFirst, Recover, WellFormed, HasMagic, StoreFields;
    ghost var d := FormattedDisk(boot, super);
    EmptyLog(d);
    FormattedHasMagic(boot, super);
    FormattedIsConsistent(boot, super);
    FormattedRecovers(boot, super);
    LogIsIrrelevant(d, Recover(d), EmptyTable(), map[]);
    AllFree(Recover(d), EmptyTable());
    v := Boot(FormattedDisk(boot, super), EmptyTable(), map[]);
  }

  lemma AllFree(d: Disk, t: Table)
    requires FsInv(d, t, map[])
    ensures forall b :: BMAP < b < FSSIZE ==> b in FreeBlocks(d)
  {
    hide BitAt, Owns, Filled, Shaped;
  }

  lemma FormattedRecovers(boot: Block, super: Block)
    ensures var d := FormattedDisk(boot, super); WellFormed(d) && SameData(d, Recover(d))
  {
    hide MarkFirst, StoreFields;
    var d := FormattedDisk(boot, super);
    EmptyLog(d);
    RecoverInstalls(d);
  }

  // ---------- histories ----------

  /** What happens to inodes and files, one transaction each. */
  datatype Op = Create(kind: Half) | Write(inum: nat, off: nat, part: seq<Byte>) | Remove(inum: nat)

  /** The first free inode from j on; NINODES if there is none. */
  function FreeInode(t: Table, j: nat): (r: nat)
    requires j <= NINODES
    ensures j <= r <= NINODES && (r < NINODES ==> t[r].kind == 0) && forall k :: j <= k < r ==> t[k].kind != 0
    decreases NINODES - j
  {
    if j == NINODES || t[j].kind == 0 then j else FreeInode(t, j + 1)
  }

  /** The same files with the same bytes, but for inode j. */
  ghost predicate Others(v0: Disk, t0: Table, v1: Disk, t1: Table, j: int) {
    && (forall i :: 0 <= i < NINODES && i != j ==> t1[i] == t0[i])
    && forall i, x :: 0 <= i < NINODES && i != j && 0 <= x < MAXFILE * BSIZE ==>
         ByteAt(v1, t1[i], x) == ByteAt(v0, t0[i], x)
  }

  /** What an operation does to the files. */
  ghost predicate Done(op: Op, v0: Disk, t0: Table, v1: Disk, t1: Table) {
    match op
    case Create(kind) =>
      var i := FreeInode(t0, 1);
      i < NINODES && t1[i] == Fresh(kind) && Others(v0, t0, v1, t1, i)
    case Write(j, off, part) =>
      && j < NINODES
      && if off > t0[j].size || off + |part| > MAXFILE * BSIZE then t1 == t0 && SameBytes(v0, t0, v1, t1)
         else Spliced(v0, t0, v1, t1, j, off, part)
    case Remove(j) =>
      j < NINODES && t1[j].kind == 0 && NoBlocks(t1[j]) && Others(v0, t0, v1, t1, j)
  }

  /** The operations that the kernel performs: on inodes in use, with chunks that fit the log. */
  predicate Sensible(op: Op, t: Table) {
    match op
    case Create(kind) => kind != 0
    case Write(j, _, part) => j < NINODES && t[j].kind != 0 && |part| <= CHUNK
    case Remove(j) => j < NINODES && t[j].kind != 0
  }

  /** The panics: no free inode, or too few free blocks. */
  predicate NoSpace(op: Op, t: Table) {
    match op
    case Create(_) => FreeInode(t, 1) == NINODES
    case Write(j, off, part) =>
      j < NINODES && Fits(t[j].size, off, |part|) && Free(t) < Needs(t[j].size, off, |part|)
    case Remove(_) => false
  }

  /** The transaction around an operation ends: what it logged is on the disk. */
  method Finish(v: Volume)
    requires v.Ready() && InOrder(v.View(), v.table, v.owner) && HasMagic(v.log.cache.c.disk)
    modifies v.log, v.log.cache
    ensures Steady(v) && SameBytes(old(v.View()), v.table, v.View(), v.table)
    ensures Atomic(old(v.log.cache.c).disk, v.log.cache.c.disk, old(v.log.cache.g).trace, v.log.cache.g.trace)
  {
    hide Good, Targets, Elements, LogClean, FsInv, OnDisk, Snug, SameBytes, Atomic, GetWord;
    ghost var v1 := v.View();
    v.log.EndOp();
    LogIsIrrelevant(v1, v.View(), v.table, v.owner);
    FrontStays(old(v.log.cache.c).disk, v.View(), old(v.log.cache.g).trace, v.log.cache.g.trace);
    SameFrontMagic(old(v.log.cache.c).disk, v.View());
  }

  /** ialloc in its transaction. */
  method CreateInode(v: Volume, kind: Half) returns (halted: bool)
    requires Steady(v) && kind != 0
    modifies v, v.log, v.log.cache
    ensures (halted <==> FreeInode(old(v.table), 1) == NINODES) && (halted ==> v.Unwritten())
    ensures !halted ==> Steady(v) && Done(Create(kind), old(v.View()), old(v.table), v.View(), v.table)
    ensures !halted ==>
      Atomic(old(v.log.cache.c).disk, v.log.cache.c.disk, old(v.log.cache.g).trace, v.log.cache.g.trace)
  {
    hide Good, Targets, Elements, LogClean, FsInv, OnDisk, Snug, SameBytes, Atomic, GetWord, ByteAt, FreeBlocks, Fresh;
    var entered := v.log.BeginOp();
    var i := v.IAlloc(kind);
    if i == -1 { return true; }
    ghost var v1 := v.View();
    Finish(v);
    SameBytesTwice(old(v.View()), old(v.table), v1, v.table, v.View(), v.table);
    OthersSame(old(v.View()), old(v.table), v.View(), v.table, i);
    return false;
  }

  lemma OthersSame(v0: Disk, t0: Table, v1: Disk, t1: Table, j: nat)
    requires SameBytes(v0, t0, v1, t1) && j < NINODES && t1 == t0[j := t1[j]]
    ensures Others(v0, t0, v1, t1, j)
  {
    hide ByteAt;
  }

  lemma OthersThen(v0: Disk, t0: Table, v1: Disk, v2: Disk, t1: Table, j: nat)
    requires SameBytes(v1, t1, v2, t1) && j < NINODES && t1 == t0[j := t1[j]]
    requires forall i, x :: 0 <= i < NINODES && i != j && 0 <= x < MAXFILE * BSIZE ==>
               ByteAt(v1, t1[i], x) == ByteAt(v0, t1[i], x)
    ensures Others(v0, t0, v2, t1, j)
  {
    hide ByteAt;
  }

  /** iput's freeing of an inode in its transaction. */
  method RemoveInode(v: Volume, j: nat)
    requires Steady(v) && j < NINODES
    modifies v, v.log, v.log.cache
    ensures Steady(v) && Done(Remove(j), old(v.View()), old(v.table), v.View(), v.table)
    ensures Atomic(old(v.log.cache.c).disk, v.log.cache.c.disk, old(v.log.cache.g).trace, v.log.cache.g.trace)
  {
    hide Good, Targets, Elements, LogClean, FsInv, OnDisk, Snug, SameBytes, Atomic, GetWord, ByteAt, FreeBlocks;
    var entered := v.log.BeginOp();
    var ip := v.ILock(j);
    v.IFree(ip);
    ghost var v1 := v.View();
    Finish(v);
    OthersThen(old(v.View()), old(v.table), v1, v.View(), v.table, j);
  }

  /** Any one operation; halted is a panic, which leaves the disk alone. */
  method Perform(v: Volume, op: Op) returns (halted: bool)
    requires Steady(v) && Sensible(op, v.table)
    modifies v, v.log, v.log.cache
    ensures (halted <==> NoSpace(op, old(v.table))) && (halted ==> v.Unwritten())
    ensures !halted ==> Steady(v) && Done(op, old(v.View()), old(v.table), v.View(), v.table)
    ensures !halted ==>
      Atomic(old(v.log.cache.c).disk, v.log.cache.c.disk, old(v.log.cache.g).trace, v.log.cache.g.trace)
  {
    hide Good, Targets, Elements, LogClean, FsInv, OnDisk, Snug, SameBytes, Atomic, GetWord, ByteAt, FreeBlocks, Others;
    hide Spliced;
    match op
    case Create(kind) =>
      halted := CreateInode(v, kind);
    case Write(j, off, part) =>
      v.log.IdleIsUp();
      var ip := v.ILock(j);
      var r;
      r, halted := WriteChunk(v, ip, off, part);
    case Remove(j) =>
      RemoveInode(v, j);
      halted := false;
  }

  /** A step of a history: the operation was done, or was not one the kernel performs. */
  ghost predicate Step(op: Op, v0: Disk, t0: Table, v1: Disk, t1: Table) {
    if Sensible(op, t0) then Done(op, v0, t0, v1, t1) else v1 == v0 && t1 == t0
  }

  /** A file system between operations, and who owns its blocks. */
  datatype Snapshot = Snapshot(view: Disk, table: Table, owner: map<nat, Place>)

  /** Every state is in order, and the result of its operation. */
  ghost predicate IsHistory(states: seq<Snapshot>, ops: seq<Op>) {
    && |states| == |ops| + 1
    && (forall k :: 0 <= k < |states| ==> InOrder(states[k].view, states[k].table, states[k].owner))
    && forall k :: 0 <= k < |ops| ==>
         Step(ops[k], states[k].view, states[k].table, states[k + 1].view, states[k + 1].table)
  }

  /** All of a history, from formatting on: every state between operations is in order and the result
      of its operation, and every disk at every moment, also at a panic, boots. */
  method Replay(ops: seq<Op>, boot: Block, super: Block)
    returns (v: Volume, halted: bool, ghost states: seq<Snapshot>)
    ensures 0 < |states| <= |ops| + 1 && IsHistory(states, ops[..|states| - 1])
    ensures states[0].table == EmptyTable()
    ensures AllBootable(v.log.cache.g.trace) && Bootable(v.log.cache.c.disk)
    ensures !halted ==> Steady(v) && |states| == |ops| + 1 && states[|ops|] == Snapshot(v.View(), v.table, v.owner)
    ensures halted ==> && |states| <= |ops| && Sensible(ops[|states| - 1], states[|states| - 1].table)
                       && NoSpace(ops[|states| - 1], states[|states| - 1].table)
  {
    hide Good, Targets, Elements, LogClean, FsInv, OnDisk, Snug, Atomic, Bootable, Done, Clean, SameData, NoSpace;
    hide Sensible;
    v := FirstBoot(boot, super);
    states := [Snapshot(v.View(), v.table, v.owner)];
    SteadyBoots(v);
    var k := 0;
    while k < |ops|
      invariant 0 <= k <= |ops| && fresh(v) && fresh(v.log) && fresh(v.log.cache) && Steady(v)
      invariant AllBootable(v.log.cache.g.trace) && Bootable(v.log.cache.c.disk)
      invariant |states| == k + 1 && states[k] == Snapshot(v.View(), v.table, v.owner) && IsHistory(states, ops[..k])
      invariant states[0].table == EmptyTable()
    {
      ghost var d0, t0, o0, tr := v.View(), v.table, v.owner, v.log.cache.g.trace;
      var sensible := IsSensible(v, ops[k]);
      if sensible {
        halted := Perform(v, ops[k]);
        if halted { return; }
        StepBoots(d0, t0, o0, v.View(), v.table, v.owner, tr, v.log.cache.g.trace);
        SteadyBoots(v);
      }
      HistoryGrows(states, ops, k, Snapshot(v.View(), v.table, v.owner));
      states := states + [Snapshot(v.View(), v.table, v.owner)];
      k := k + 1;
    }
    assert ops[..k] == ops;
    halted := false;
  }

  /** The check of the caller: the inode is in use, or an argument in range. */
  method IsSensible(v: Volume, op: Op) returns (ok: bool)
    requires Steady(v)
    modifies v.log.cache
    ensures ok == Sensible(op, v.table) && Steady(v)
    ensures v.View() == old(v.View()) && v.Unwritten()
  {
    hide Good, Targets, Elements, LogClean, FsInv, OnDisk;
    ok := match op
          case Create(kind) => kind != 0
          case Write(j, _, part) => j < NINODES && |part| <= CHUNK
          case Remove(j) => j < NINODES;
    if ok && !op.Create? {
      v.log.IdleIsUp();
      var ip := v.ILock(op.inum);
      ok := ip.d.kind != 0;
    }
  }

  lemma HistoryGrows(states: seq<Snapshot>, ops: seq<Op>, k: nat, s: Snapshot)
    requires k < |ops| && |states| == k + 1 && IsHistory(states, ops[..k])
    requires Step(ops[k], states[k].view, states[k].table, s.view, s.table) && InOrder(s.view, s.table, s.owner)
    ensures IsHistory(states + [s], ops[..k + 1])
  {
    hide Step, InOrder;
    assert forall i :: 0 <= i < k ==> ops[..k + 1][i] == ops[..k][i];
  }

  lemma SteadyBoots(v: Volume)
    requires Steady(v)
    ensures Bootable(v.log.cache.c.disk)
  {
    hide FsInv, OnDisk, Recover, WellFormed, Good;
    CleanRecovers(v.View());
    BootsLike(v.View(), v.View(), v.table, v.owner);
  }

  lemma StepBoots(d0: Disk, t0: Table, o0: map<nat, Place>, d1: Disk, t1: Table, o1: map<nat, Place>,
                  before: seq<Disk>, trace: seq<Disk>)
    requires InOrder(d0, t0, o0) && InOrder(d1, t1, o1) && Atomic(d0, d1, before, trace) && AllBootable(before)
    requires HasMagic(d0)
    ensures AllBootable(trace)
  {
    hide FsInv, OnDisk, Recover, WellFormed, SameData, Bootable, SameFront, HasMagic;
    var point: nat :| Splits(d0, d1, before, trace, point);
    forall k | 0 <= k < |trace| ensures Bootable(trace[k]) {
      if k >= |before| {
        SameFrontMagic(d0, trace[k]);
      }
      if k < |before| {
        assert before[k] == trace[k];
      } else if k < point {
        BootsLike(trace[k], d0, t0, o0);
      } else {
        BootsLike(trace[k], d1, t1, o1);
      }
    }
  }
}
