/** Whole histories of calls on names and files, with power failures: what the disk holds, names and
    bytes, is what the calls, one after the other, make of the formatted disk, and a power failure at any
    moment leaves what a prefix of them made. */
module NameHistories {
  import opened LittleEndian
  import opened Blocks
  import opened Lists
  import opened Crash
  import opened BufferCache
  import opened WriteAheadLog
  import opened Layout
  import opened Files
  import opened Space
  import opened Superblock
  import opened FileSystem
  import opened OpenFile
  import opened Mount
  import opened DirectoryBytes
  import opened DirectoryBlocks
  import opened LinkRange
  import opened NameEffects
  import opened NamesOnDisk
  import D = Directories
  import L = LinkCounts
  import N = Namespace
  import C = LinkCalls

  // ---------- what a disk holds ----------

  type Held = s: seq<seq<Byte>> | |s| == NINODES witness seq<seq<Byte>>(NINODES, (_: nat) => [])

  /** Names, kinds and link counts, and the bytes of every file. */
  datatype Store = Store(tree: D.Tree, files: Held)

  function StoreOf(v: Disk, t: Table): Store { Store(TreeOf(v, t), DataOf(v, t)) }

  ghost function Now(v: Volume): Store
    reads v, v.log, v.log.cache
  {
    StoreOf(v.View(), v.table)
  }

  /** The inodes that a disk holds. */
  function TableOf(d: Disk): Table {
    seq<DInode>(NINODES, i requires 0 <= i < NINODES => GetInode(d, i))
  }

  /** Whatever was happening to the disk, it boots, and to these names and bytes. */
  ghost predicate ComesUp(e: Disk, s: Store) {
    && Bootable(e) && DirSizes(TableOf(Recover(e)))
    && StoreOf(Recover(e), TableOf(Recover(e))) == s
  }

  lemma OnDiskIsTable(d: Disk, t: Table)
    requires OnDisk(d, t, {})
    ensures t == TableOf(d)
  {
    hide GetInode;
  }

  lemma SameStore(v: Disk, t: Table, v': Disk)
    requires Shaped(t) && SameBytes(v, t, v', t)
    ensures StoreOf(v', t) == StoreOf(v, t)
  {
    hide TreeOf, Kept, SameBytes;
    SameTree(v, t, v');
    KeptData(v, t, v', t, {});
  }

  /** A disk that recovers to the data of a file system in order comes up with what that holds. */
  lemma ComesUpWith(e: Disk, d: Disk, t: Table, o: map<nat, Place>)
    requires HasMagic(e) && WellFormed(e) && SameData(d, Recover(e)) && InOrder(d, t, o) && DirSizes(t)
    ensures ComesUp(e, StoreOf(d, t))
  {
    hide Owns, Mapped, Filled, OnDisk, Snug, Recover, WellFormed, SameData, Bootable, TableOf, StoreOf, DirSizes;
    hide HasMagic;
    BootsLike(e, d, t, o);
    LogIsIrrelevant(d, Recover(e), t, o);
    OnDiskIsTable(Recover(e), t);
    SameStore(d, t, Recover(e));
  }

  /** One transaction: whatever disk it leaves behind comes up with what was there before it, or with what
      is there after it. */
  lemma EitherStore(d0: Disk, t0: Table, o0: map<nat, Place>, d1: Disk, t1: Table, o1: map<nat, Place>,
                    before: seq<Disk>, trace: seq<Disk>, k: nat)
    requires InOrder(d0, t0, o0) && InOrder(d1, t1, o1) && Atomic(d0, d1, before, trace)
    requires |before| <= k < |trace| && DirSizes(t0) && DirSizes(t1) && HasMagic(d0)
    ensures ComesUp(trace[k], StoreOf(d0, t0)) || ComesUp(trace[k], StoreOf(d1, t1))
    ensures SameFront(d0, trace[k])
  {
    hide InOrder, Recover, WellFormed, SameData, ComesUp, StoreOf, DirSizes, SameFront, HasMagic;
    var point: nat :| Splits(d0, d1, before, trace, point);
    SameFrontMagic(d0, trace[k]);
    if k < point {
      ComesUpWith(trace[k], d0, t0, o0);
    } else {
      ComesUpWith(trace[k], d1, t1, o1);
    }
  }

  // ---------- free blocks, by what is stored ----------

  function SizeOf(s: Store, i: nat): nat
    requires i < NINODES
  {
    if s.tree[i].kind == D.Dir then D.ENTRY * |s.tree[i].slots| else |s.files[i]|
  }

  function StoredBlocks(s: Store, n: nat): nat
    requires n <= NINODES
  {
    if n == 0 then 0 else StoredBlocks(s, n - 1) + BlocksFor(SizeOf(s, n - 1))
  }

  /** The blocks free beside what is stored. */
  function FreeBeside(s: Store): int { DATABLOCKS - StoredBlocks(s, NINODES) }

  lemma SizeIs(v: Disk, t: Table, o: map<nat, Place>, i: nat)
    requires FsInv(v, t, o) && DirSizes(t) && i < NINODES
    ensures SizeOf(StoreOf(v, t), i) == t[i].size
  {
    hide Owns, Mapped, Filled, Contents, Slots;
    if t[i].kind == 0 {
      FreeHasNothing(v, t, o, i);
    }
  }

  lemma {:induction false} StoredIsTotal(v: Disk, t: Table, o: map<nat, Place>, n: nat)
    requires FsInv(v, t, o) && DirSizes(t) && n <= NINODES
    ensures StoredBlocks(StoreOf(v, t), n) == TotalBlocks(t, n)
  {
    hide FsInv, DirSizes, StoreOf, SizeOf, BlocksFor;
    if n > 0 {
      StoredIsTotal(v, t, o, n - 1);
      SizeIs(v, t, o, n - 1);
    }
  }

  /** The free blocks of a disk are those beside what it stores. */
  lemma FreeIsBeside(v: Volume)
    requires Settled(v)
    ensures Free(v.table) == FreeBeside(Now(v)) && Free(v.table) >= 0
  {
    hide Owns, Mapped, Filled, OnDisk, Snug, Good, GoodTree, DirSizes, StoreOf, TotalBlocks, StoredBlocks, FreeBlocks;
    StoredIsTotal(v.View(), v.table, v.owner, NINODES);
    FreeIsRest(v.View(), v.table, v.owner);
  }

  // ---------- calls ----------

  datatype Call =
    | MakeCall(path: string, dir: bool, pad: seq<Byte>)
    | LinkCall(from: string, to: string, pad: seq<Byte>)
    | UnlinkCall(path: string, open: bool)
    | WriteCall(inum: nat, off: nat, part: seq<Byte>)
    | CloseCall(inum: nat)

  /** What a call does to names and bytes. */
  function Effect(c: Call, s: Store): Store {
    match c
    case MakeCall(path, dir, _) => s.(tree := CreateTree(s.tree, path, KindIf(dir)))
    case LinkCall(from, to, _) => s.(tree := LinkTree(s.tree, from, to))
    case UnlinkCall(path, open) => Store(UnlinkTree(s.tree, path, open), UnlinkData(s.tree, s.files, path, open))
    case WriteCall(i, off, part) =>
      if i < NINODES && Fits(|s.files[i]|, off, |part|) then s.(files := s.files[i := Splice(s.files[i], off, part)])
      else s
    case CloseCall(i) => if i < NINODES then Store(s.tree[i := D.BLANK], s.files[i := []]) else s
  }

  /** The calls the kernel makes: paths are C strings, what is written is a chunk for a file, and what is
      freed at its last close is an inode without links. */
  predicate Allowed(c: Call, s: Store) {
    match c
    case MakeCall(path, _, pad) => CharsOk(path) && |pad| == 2
    case LinkCall(_, to, pad) => CharsOk(to) && |pad| == 2
    case UnlinkCall(_, _) => true
    case WriteCall(i, _, part) => i < NINODES && s.tree[i].kind == D.File && |part| <= CHUNK
    case CloseCall(i) => 0 < i < NINODES && i != D.ROOTINO && s.tree[i].nlink == 0
  }

  /** The panics. */
  predicate Panics(c: Call, s: Store) {
    match c
    case MakeCall(path, dir, _) => CreateFails(s.tree, path, dir, FreeBeside(s))
    case LinkCall(from, to, _) => LinkFails(s.tree, from, to, FreeBeside(s))
    case UnlinkCall(path, _) => UnlinkFails(s.tree, path)
    case WriteCall(i, off, part) =>
      && i < NINODES && Fits(|s.files[i]|, off, |part|)
      && FreeBeside(s) < Needs(|s.files[i]|, off, |part|)
    case CloseCall(_) => false
  }

  /** A write into a file. */
  method Write(v: Volume, i: nat, off: nat, part: seq<Byte>) returns (halted: bool)
    requires Settled(v) && i < NINODES && Names(v)[i].kind == D.File && |part| <= CHUNK
    modifies v, v.log, v.log.cache
    ensures halted ==> v.Unwritten()
    ensures halted <==> Panics(WriteCall(i, off, part), old(Now(v)))
    ensures !halted ==> Settled(v) && AllOrNothing(v) && Now(v) == Effect(WriteCall(i, off, part), old(Now(v)))
  {
    hide Good, Targets, Elements, LogClean, OnDisk, Snug, Owns, Mapped, Filled, SameBytes, NodeOf, TreeOf, GoodTree;
    hide Atomic, DirSizes, GetWord, Spliced, TotalBlocks, StoredBlocks, DataOf, Splice, Needs;
    ghost var v0, t0 := v.View(), v.table;
    FreeIsBeside(v);
    v.log.IdleIsUp();
    var ip := v.ILock(i);
    IsDir(v, ip);
    FileSize(v0, t0, i);
    var r;
    r, halted := WriteChunk(v, ip, off, part);
    if halted { return; }
    if r == -1 {
      SameStore(v0, t0, v.View());
    } else {
      FileWritten(v0, t0, v.View(), v.table, i, off, part);
    }
  }

  lemma FileSize(v: Disk, t: Table, i: nat)
    requires Shaped(t) && i < NINODES && TreeOf(v, t)[i].kind == D.File
    ensures |DataOf(v, t)[i]| == t[i].size && t[i].kind != 0 && t[i].kind != T_DIR
  {}

  lemma FileWritten(v: Disk, t: Table, v': Disk, t': Table, j: nat, off: nat, part: seq<Byte>)
    requires Spliced(v, t, v', t', j, off, part) && TreeOf(v, t)[j].kind == D.File
    ensures TreeOf(v', t') == TreeOf(v, t) && (DirSizes(t) ==> DirSizes(t'))
    ensures off <= |DataOf(v, t)[j]|
    ensures DataOf(v', t') == DataOf(v, t)[j := Splice(DataOf(v, t)[j], off, part)]
  {
    hide Contents, Splice, Slots;
    SplicedKeeps(v, t, v', t', j, off, part);
    OthersStay(v, t, v', t', j, off, part);
    OneNode(v, t, v', t', j);
    assert NodeOf(v', t'[j]) == NodeOf(v, t[j]);
    KeptData(v, t, v', t', {j});
  }

  /** The last close of a file without a name. */
  method Close(v: Volume, i: nat)
    requires Settled(v) && 0 < i < NINODES && i != D.ROOTINO && Names(v)[i].nlink == 0
    modifies v, v.log, v.log.cache
    ensures Settled(v) && AllOrNothing(v) && Now(v) == Effect(CloseCall(i), old(Now(v)))
    ensures Kept(old(v.View()), old(v.table), v.View(), v.table, {i})
  {
    hide Looking, NodeOf, Kept, TreeOf, GoodTree, N.Safe, Atomic, Steady, DirSizes, DataOf;
    ghost var v0, t0, t := v.View(), v.table, Names(v);
    Begin(v);
    var ip := Lock(v, i);
    Discard(v, ip);
    ReclaimedIsGood(t, i);
    End(v, v0, t0, {i});
    KeptData(v0, t0, v.View(), v.table, {i});
    NoData(v.View(), v.table, i);
    assert Data(v) == DataOf(v0, t0)[i := []];
  }

  /** Any one call: its effect in one transaction, or its panic, exactly when it has one. */
  method Do(v: Volume, c: Call) returns (halted: bool)
    requires Settled(v) && Allowed(c, Now(v))
    modifies v, v.log, v.log.cache
    ensures (halted <==> Panics(c, old(Now(v)))) && (halted ==> v.Unwritten())
    ensures !halted ==> Settled(v) && AllOrNothing(v) && Now(v) == Effect(c, old(Now(v)))
  {
    hide Settled, Kept, TreeOf, DataOf, Atomic, CreateTree, LinkTree, UnlinkTree, CreateFails, LinkFails;
    hide UnlinkFails, CharsOk, CanLink, CanUnlink, CreateInum, Parent, UnlinkData, TotalBlocks, StoredBlocks, Vanishes;
    FreeIsBeside(v);
    halted := false;
    match c
    case MakeCall(path, dir, pad) =>
      var inum;
      inum, halted := NamesOnDisk.Create(v, path, dir, pad);
    case LinkCall(from, to, pad) =>
      var r;
      r, halted := NamesOnDisk.Link(v, from, to, pad);
    case UnlinkCall(path, open) =>
      var r;
      r, halted := NamesOnDisk.Unlink(v, path, open);
    case WriteCall(i, off, part) =>
      halted := Write(v, i, off, part);
    case CloseCall(i) =>
      Close(v, i);
  }

  // ---------- the root ----------

  lemma SomeFree(d: Disk, t: Table, o: map<nat, Place>)
    requires InOrder(d, t, o) && forall b :: BMAP < b < FSSIZE ==> b in FreeBlocks(d)
    ensures Free(t) >= 1
  {
    hide FreeBlocks, Owns, Mapped, Filled, OnDisk, Snug, TotalBlocks;
    FreeIsRest(d, t, o);
    SubsetSize({BMAP + 1}, FreeBlocks(d));
  }

  function Blank(): Store { Store(seq<D.Node>(NINODES, (_: nat) => D.BLANK), seq<seq<Byte>>(NINODES, (_: nat) => [])) }

  /** What fs_init leaves: the root with its dots. */
  function Formatted(): Store { Store(L.FreshTree(), seq<seq<Byte>>(NINODES, (_: nat) => [])) }

  lemma EmptyStore(d: Disk)
    ensures StoreOf(d, EmptyTable()) == Blank() && DirSizes(EmptyTable())
  {}

  lemma RootMade(t: D.Tree)
    requires t == Blank().tree
    ensures C.FirstUnused(t, 1) == 1
    ensures t[1 := D.Node(D.Dir, 2, [D.Dirent(1, "."), D.Dirent(1, "..")])] == L.FreshTree()
  {}

  lemma NoFiles(d: Disk, t: Table)
    requires TreeOf(d, t) == L.FreshTree()
    ensures StoreOf(d, t) == Formatted()
  {
    forall i | 0 <= i < NINODES ensures DataOf(d, t)[i] == [] {
      NoData(d, t, i);
    }
  }

  /** The root directory that fs_init makes on a formatted disk. */
  method MakeRoot(v: Volume, pad: seq<Byte>)
    requires Steady(v) && v.table == EmptyTable() && |pad| == 2
    requires forall b :: BMAP < b < FSSIZE ==> b in FreeBlocks(v.View())
    modifies v, v.log, v.log.cache
    ensures Settled(v) && Now(v) == Formatted() && AllOrNothing(v)
  {
    hide Good, Targets, Elements, LogClean, OnDisk, Snug, Owns, Mapped, Filled, NodeOf, TreeOf, GoodTree, Kept, Atomic;
    hide GetWord, FreeBlocks, C.FirstUnused, L.FreshTree, EmptyTable, TotalBlocks, DataOf, HasMagic;
    SomeFree(v.View(), v.table, v.owner);
    EmptyStore(v.View());
    RootMade(Names(v));
    FreshIsGood();
    var entered := v.log.BeginOp();
    Root(v, pad);
    NothingChanged(v, {});
    End(v, v.View(), v.table, {});
    NoFiles(v.View(), v.table);
  }

  /** What fs_init does within its transaction. */
  method Root(v: Volume, pad: seq<Byte>)
    requires Inside(v) && v.log.n == 0 && |pad| == 2 && Free(v.table) >= 1
    requires Names(v) == Blank().tree
    modifies v, v.log, v.log.cache
    ensures Inside(v) && v.Unwritten() && Names(v) == L.FreshTree()
  {
    hide Looking, NodeOf, TreeOf, Kept, TotalBlocks, C.FirstUnused, L.FreshTree, Fresh;
    RootMade(Names(v));
    var i := NewInode(v, T_DIR);
    var root := Lock(v, i);
    SetLinks(v, root, 2);
    var halted := Dots(v, root, D.ROOTINO, pad);
  }

  // ---------- histories ----------

  /** What the calls, in order, make of a store. */
  function After(s: Store, calls: seq<Call>): Store {
    if |calls| == 0 then s else Effect(calls[|calls| - 1], After(s, calls[..|calls| - 1]))
  }

  ghost predicate Legal(s: Store, calls: seq<Call>) {
    forall k :: 0 <= k < |calls| ==> Allowed(calls[k], After(s, calls[..k]))
  }

  /** The first n calls go well, and the next one, if there is one, panics. */
  ghost predicate GoesTo(s: Store, calls: seq<Call>, n: nat) {
    && n <= |calls| && (n < |calls| ==> Panics(calls[n], After(s, calls[..n])))
    && forall k :: 0 <= k < n ==> !Panics(calls[k], After(s, calls[..k]))
  }

  lemma OneMoreCall(s: Store, calls: seq<Call>, n: nat)
    requires n < |calls|
    ensures After(s, calls[..n + 1]) == Effect(calls[n], After(s, calls[..n]))
  {
    assert calls[..n + 1][..n] == calls[..n];
  }

  /** The disk comes up with what j of the calls made, or with what one more made. */
  ghost predicate UpTo(e: Disk, s: Store, calls: seq<Call>, j: nat) {
    && j <= |calls|
    && (ComesUp(e, After(s, calls[..j])) || (j < |calls| && ComesUp(e, After(s, calls[..j + 1]))))
  }

  /** When j calls were done, marks[j] disks had been seen; those seen from then to the end of the next
      call come up with what was there before that call, or after it. */
  ghost predicate Chronicle(trace: seq<Disk>, marks: seq<nat>, s: Store, calls: seq<Call>) {
    && 0 < |marks| <= |calls| + 1 && marks[|marks| - 1] == |trace|
    && (forall i, j :: 0 <= i <= j < |marks| ==> marks[i] <= marks[j])
    && forall j, k :: 0 <= j < |marks| - 1 && marks[j] <= k < marks[j + 1] ==> UpTo(trace[k], s, calls, j)
  }

  lemma ChronicleStarts(trace: seq<Disk>, s: Store, calls: seq<Call>)
    ensures Chronicle(trace, [|trace|], s, calls)
  {}

  lemma ChronicleGrows(before: seq<Disk>, trace: seq<Disk>, marks: seq<nat>, s: Store, calls: seq<Call>)
    requires Chronicle(before, marks, s, calls) && |marks| <= |calls| && before <= trace
    requires forall k :: |before| <= k < |trace| ==> UpTo(trace[k], s, calls, |marks| - 1)
    ensures Chronicle(trace, marks + [|trace|], s, calls)
  {
    hide UpTo;
    var more := marks + [|trace|];
    forall j, k | 0 <= j < |more| - 1 && more[j] <= k < more[j + 1] ensures UpTo(trace[k], s, calls, j) {
      if j < |marks| - 1 { assert before[k] == trace[k]; }
    }
  }

  /** No disk is left out: each one seen since the beginning comes up with what a prefix of the calls
      made. */
  lemma {:induction false} ChronicleCovers(trace: seq<Disk>, marks: seq<nat>, s: Store, calls: seq<Call>, k: nat,
                                           j: nat) returns (p: nat)
    requires Chronicle(trace, marks, s, calls) && j < |marks| && marks[0] <= k < marks[j]
    ensures p <= j && ComesUp(trace[k], After(s, calls[..p]))
  {
    hide ComesUp, After;
    if j > 0 && marks[j - 1] <= k {
      assert UpTo(trace[k], s, calls, j - 1);
      p := if ComesUp(trace[k], After(s, calls[..j - 1])) then j - 1 else j;
    } else {
      p := ChronicleCovers(trace, marks, s, calls, k, j - 1);
    }
  }

  lemma SettledDisk(v: Volume)
    requires Settled(v)
    ensures v.View() == v.log.cache.c.disk && InOrder(v.View(), v.table, v.owner) && Clean(v.View())
    ensures DirSizes(v.table) && GoodTree(Now(v).tree) && HasMagic(v.View())
  {
    hide FsInv, OnDisk, Snug, Good, Clean, GoodTree, DataOf, HasMagic;
  }

  lemma SettledComesUp(v: Volume)
    requires Settled(v)
    ensures ComesUp(v.log.cache.c.disk, Now(v))
  {
    hide Settled, InOrder, Recover, WellFormed, GoodTree, ComesUp, StoreOf, Crash.SameData, Clean, DirSizes, HasMagic;
    SettledDisk(v);
    CleanRecovers(v.View());
    ComesUpWith(v.View(), v.View(), v.table, v.owner);
  }

  lemma TraceGrows(d0: Disk, d1: Disk, before: seq<Disk>, trace: seq<Disk>)
    requires Atomic(d0, d1, before, trace)
    ensures before <= trace
  {
    hide WellFormed, Crash.SameData, Recover;
  }

  /** The disks seen during one call. */
  lemma CallSeen(v: Volume, d0: Disk, t0: Table, o0: map<nat, Place>, tr: seq<Disk>, marks: seq<nat>, s: Store,
                 calls: seq<Call>)
    requires Settled(v) && InOrder(d0, t0, o0) && DirSizes(t0) && HasMagic(d0)
    requires Atomic(d0, v.log.cache.c.disk, tr, v.log.cache.g.trace)
    requires Chronicle(tr, marks, s, calls) && 0 < |marks| <= |calls|
    requires StoreOf(d0, t0) == After(s, calls[..|marks| - 1]) && Now(v) == After(s, calls[..|marks|])
    ensures tr <= v.log.cache.g.trace && Chronicle(v.log.cache.g.trace, marks + [|v.log.cache.g.trace|], s, calls)
  {
    hide Settled, InOrder, DirSizes, ComesUp, StoreOf, Chronicle, After, Atomic, HasMagic;
    SettledDisk(v);
    TraceGrows(d0, v.View(), tr, v.log.cache.g.trace);
    forall k | |tr| <= k < |v.log.cache.g.trace| ensures UpTo(v.log.cache.g.trace[k], s, calls, |marks| - 1) {
      EitherStore(d0, t0, o0, v.View(), v.table, v.owner, tr, v.log.cache.g.trace, k);
    }
    ChronicleGrows(tr, v.log.cache.g.trace, marks, s, calls);
  }

  /** Every disk from the k-th on has the boot block and the superblock of d. */
  ghost predicate FrontsFrom(d: Disk, trace: seq<Disk>, k: nat) {
    forall i :: k <= i < |trace| ==> SameFront(d, trace[i])
  }

  lemma FrontsNow(d: Disk, trace: seq<Disk>)
    ensures SameFront(d, d) && FrontsFrom(d, trace, |trace|)
  {}

  lemma FrontsGrow(d: Disk, d0: Disk, d1: Disk, before: seq<Disk>, trace: seq<Disk>, k: nat)
    requires SameFront(d, d0) && FrontsFrom(d, before, k) && Atomic(d0, d1, before, trace)
    ensures SameFront(d, d1) && FrontsFrom(d, trace, k)
  {
    hide Atomic;
    FrontStays(d0, d1, before, trace);
    forall i | k <= i < |trace| ensures SameFront(d, trace[i]) {
      if i < |before| { assert before[i] == trace[i]; }
    }
  }

  /** Calls, one after the other, until one panics. What the disk holds then is what they make of what it
      held; and every disk seen on the way, also the one at a panic, comes up with what j of them made, or
      one more while that one runs, and has boot block and superblock as they were. */
  method Calls(v: Volume, calls: seq<Call>) returns (n: nat, halted: bool, ghost marks: seq<nat>)
    requires Settled(v) && Legal(Now(v), calls)
    modifies v, v.log, v.log.cache
    ensures GoesTo(old(Now(v)), calls, n) && (halted <==> n < |calls|) && |marks| == n + 1
    ensures marks[0] == |old(v.log.cache.g).trace| && old(v.log.cache.g).trace <= v.log.cache.g.trace
    ensures Chronicle(v.log.cache.g.trace, marks, old(Now(v)), calls)
    ensures SameFront(old(v.log.cache.c).disk, v.log.cache.c.disk)
    ensures FrontsFrom(old(v.log.cache.c).disk, v.log.cache.g.trace, marks[0])
    ensures ComesUp(v.log.cache.c.disk, After(old(Now(v)), calls[..n]))
    ensures forall j :: 0 <= j <= n ==> GoodTree(After(old(Now(v)), calls[..j]).tree)
    ensures !halted ==> Settled(v) && Now(v) == After(old(Now(v)), calls)
  {
    hide Settled, StoreOf, Atomic, GoodTree, ComesUp, Chronicle, Effect, Allowed, Panics, DirSizes, After, InOrder;
    hide HasMagic, SameFront, FrontsFrom;
    ghost var s := Now(v);
    NoCalls(s, calls);
    n, marks, halted := 0, [|v.log.cache.g.trace|], false;
    ChronicleStarts(v.log.cache.g.trace, s, calls);
    FrontsNow(v.log.cache.c.disk, v.log.cache.g.trace);
    SettledComesUp(v);
    while n < |calls|
      invariant 0 <= n <= |calls| && Settled(v) && Now(v) == After(s, calls[..n])
      invariant forall k :: 0 <= k < n ==> !Panics(calls[k], After(s, calls[..k]))
      invariant ComesUp(v.log.cache.c.disk, After(s, calls[..n]))
      invariant forall j :: 0 <= j < n ==> GoodTree(After(s, calls[..j]).tree)
      invariant |marks| == n + 1 && marks[0] == |old(v.log.cache.g).trace|
      invariant old(v.log.cache.g).trace <= v.log.cache.g.trace
      invariant Chronicle(v.log.cache.g.trace, marks, s, calls)
      invariant SameFront(old(v.log.cache.c).disk, v.log.cache.c.disk)
      invariant FrontsFrom(old(v.log.cache.c).disk, v.log.cache.g.trace, marks[0])
    {
      ghost var d0, t0, o0, tr := v.View(), v.table, v.owner, v.log.cache.g.trace;
      SettledDisk(v);
      OneMoreCall(s, calls, n);
      halted := Do(v, calls[n]);
      if halted { return; }
      CallSeen(v, d0, t0, o0, tr, marks, s, calls);
      FrontsGrow(old(v.log.cache.c).disk, d0, v.log.cache.c.disk, tr, v.log.cache.g.trace, marks[0]);
      SettledComesUp(v);
      marks := marks + [|v.log.cache.g.trace|];
      n := n + 1;
    }
    SettledDisk(v);
    assert calls[..n] == calls;
  }

  // ---------- power failures ----------

  /** Booting after a power failure: what comes up is there, and every disk on the way comes up with it
      too. */
  method Reboot(e: Disk, ghost s: Store) returns (v: Volume)
    requires ComesUp(e, s) && GoodTree(s.tree)
    ensures fresh(v) && fresh(v.log) && fresh(v.log.cache)
    ensures Settled(v) && Now(v) == s
    ensures forall k :: 0 <= k < |v.log.cache.g.trace| ==> ComesUp(v.log.cache.g.trace[k], s)
    ensures SameFront(e, v.log.cache.c.disk) && FrontsFrom(e, v.log.cache.g.trace, 0)
  {
    hide InOrder, Recover, WellFormed, GoodTree, TreeOf, DataOf, TableOf, DirSizes, Crash.SameData, HasMagic, SameFront;
    ghost var t, o :| InOrder(Recover(e), t, o);
    InOrderTable(Recover(e), t, o);
    v := Boot(e, t, o);
    ghost var tr := v.log.cache.g.trace;
    forall k | 0 <= k < |tr| ensures ComesUp(tr[k], s) {
      SameFrontMagic(e, tr[k]);
      ComesUpWith(tr[k], Recover(e), t, o);
    }
  }

  lemma InOrderTable(d: Disk, t: Table, o: map<nat, Place>)
    requires InOrder(d, t, o)
    ensures t == TableOf(d)
  {
    hide FsInv, Snug;
    OnDiskIsTable(d, t);
  }

  /** Between two power failures: the disk it began with, the calls made, and the disks seen, the one at
      the end included. */
  datatype Life = Life(disk: Disk, calls: seq<Call>, seen: seq<Disk>)

  /** Every disk seen comes up with what a prefix of the calls made of what came up before, and has the
      front of the disk it began with. */
  ghost predicate Lived(l: Life) {
    && FrontsFrom(l.disk, l.seen, 0)
    && forall s, k :: ComesUp(l.disk, s) && GoodTree(s.tree) && Legal(s, l.calls) && 0 <= k < |l.seen| ==>
      Survives(l.seen[k], s, l.calls)
  }

  ghost predicate Survives(e: Disk, s: Store, calls: seq<Call>) {
    exists p: nat :: p <= |calls| && ComesUp(e, After(s, calls[..p])) && GoodTree(After(s, calls[..p]).tree)
  }

  /** From a disk that a power failure left to the next one. */
  method Live(e: Disk, ghost s: Store, calls: seq<Call>) returns (v: Volume, n: nat, halted: bool, ghost l: Life)
    requires ComesUp(e, s) && GoodTree(s.tree) && Legal(s, calls)
    ensures GoesTo(s, calls, n) && (halted <==> n < |calls|)
    ensures !halted ==> Settled(v) && Now(v) == After(s, calls)
    ensures l == Life(e, calls, v.log.cache.g.trace + [v.log.cache.c.disk]) && Lived(l)
    ensures ComesUp(v.log.cache.c.disk, After(s, calls[..n]))
  {
    hide Settled, ComesUp, GoodTree, Legal, After, Chronicle, GoesTo, SameFront;
    v := Reboot(e, s);
    ghost var up, d := v.log.cache.g.trace, v.log.cache.c.disk;
    ghost var marks;
    n, halted, marks := Calls(v, calls);
    l := Life(e, calls, v.log.cache.g.trace + [v.log.cache.c.disk]);
    FrontsJoin(e, d, up, v.log.cache.g.trace, v.log.cache.c.disk);
    LifeSeen(l, s, up, marks);
  }

  lemma FrontsJoin(e: Disk, d: Disk, up: seq<Disk>, trace: seq<Disk>, last: Disk)
    requires SameFront(e, d) && FrontsFrom(e, up, 0) && up <= trace && FrontsFrom(d, trace, |up|) && SameFront(d, last)
    ensures FrontsFrom(e, trace + [last], 0)
  {
    forall i | 0 <= i < |trace| + 1 ensures SameFront(e, (trace + [last])[i]) {
      if i < |up| { assert up[i] == trace[i]; }
    }
  }

  lemma LifeSeen(l: Life, s: Store, up: seq<Disk>, marks: seq<nat>)
    requires |l.seen| > 0 && ComesUp(l.disk, s)
    requires var trace := l.seen[..|l.seen| - 1];
             up <= trace && Chronicle(trace, marks, s, l.calls) && marks[0] == |up|
    requires forall k :: 0 <= k < |up| ==> ComesUp(up[k], s)
    requires forall j :: 0 <= j < |marks| ==> GoodTree(After(s, l.calls[..j]).tree)
    requires ComesUp(l.seen[|l.seen| - 1], After(s, l.calls[..|marks| - 1])) && FrontsFrom(l.disk, l.seen, 0)
    ensures Lived(l)
  {
    hide ComesUp, After, GoodTree, Chronicle, Legal, FrontsFrom;
    var trace := l.seen[..|l.seen| - 1];
    ChronicleSize(trace, marks, s, l.calls);
    forall k | 0 <= k < |l.seen| ensures Survives(l.seen[k], s, l.calls) {
      var p := |marks| - 1;
      if k < |up| {
        p := 0;
        assert l.seen[k] == up[k];
        NoCalls(s, l.calls);
      } else if k < |trace| {
        p := ChronicleCovers(trace, marks, s, l.calls, k, |marks| - 1);
        assert trace[k] == l.seen[k];
      }
      assert ComesUp(l.seen[k], After(s, l.calls[..p]));
    }
    forall s' | ComesUp(l.disk, s') ensures s' == s {
      OneStore(l.disk, s, s');
    }
  }

  lemma ChronicleSize(trace: seq<Disk>, marks: seq<nat>, s: Store, calls: seq<Call>)
    requires Chronicle(trace, marks, s, calls)
    ensures 0 < |marks| <= |calls| + 1 && marks[|marks| - 1] == |trace|
  {}

  lemma NoCalls(s: Store, calls: seq<Call>)
    ensures After(s, calls[..0]) == s
  {}

  /** A disk comes up with one thing only. */
  lemma OneStore(e: Disk, s: Store, s': Store)
    requires ComesUp(e, s) && ComesUp(e, s')
    ensures s' == s
  {}

  lemma {:induction false} AfterConcat(s: Store, a: seq<Call>, b: seq<Call>)
    ensures After(s, a + b) == After(After(s, a), b)
    decreases |b|
  {
    hide Effect;
    if |b| == 0 {
      assert a + b == a;
    } else {
      var c := b[..|b| - 1];
      AfterConcat(s, a, c);
      assert (a + b)[..|a + b| - 1] == a + c;
    }
  }

  /** Each life begins with a disk that the one before it has seen. */
  ghost predicate Chain(lives: seq<Life>) {
    forall k :: 0 < k < |lives| ==> lives[k].disk in lives[k - 1].seen
  }

  /** The calls that the lives are left with: a prefix of each one's, in order. */
  ghost predicate Remain(done: seq<Call>, lives: seq<Life>)
    decreases |lives|
  {
    if |lives| == 0 then done == []
    else
      var l := lives[|lives| - 1];
      exists p: nat :: p <= |l.calls| && p <= |done| && done[|done| - p..] == l.calls[..p]
                       && Remain(done[..|done| - p], lives[..|lives| - 1])
  }

  /** Any number of power failures: what comes up after the last is what was there in the beginning and a
      prefix of the calls of each life made of it, the names and link counts are right, and boot block and
      superblock are what they were. */
  lemma {:induction false} ManyLives(s: Store, lives: seq<Life>, e: Disk) returns (done: seq<Call>)
    requires |lives| > 0 && ComesUp(lives[0].disk, s) && GoodTree(s.tree) && Chain(lives)
    requires forall k :: 0 <= k < |lives| ==> Lived(lives[k])
    requires forall k, s' :: 0 <= k < |lives| && ComesUp(lives[k].disk, s') ==> Legal(s', lives[k].calls)
    requires e in lives[|lives| - 1].seen
    ensures Remain(done, lives) && ComesUp(e, After(s, done)) && GoodTree(After(s, done).tree)
    ensures SameFront(lives[0].disk, e)
    decreases |lives|
  {
    hide ComesUp, GoodTree, Legal, Effect;
    var n := |lives| - 1;
    var l, before, first: seq<Call> := lives[n], lives[..n], [];
    if n > 0 {
      first := ManyLives(s, before, l.disk);
    }
    assert ComesUp(l.disk, After(s, first)) && Remain(first, before);
    var k :| 0 <= k < |l.seen| && l.seen[k] == e;
    assert Survives(l.seen[k], After(s, first), l.calls);
    var p: nat :| p <= |l.calls| && ComesUp(e, After(After(s, first), l.calls[..p]))
                  && GoodTree(After(After(s, first), l.calls[..p]).tree);
    AfterConcat(s, first, l.calls[..p]);
    done := first + l.calls[..p];
    assert done[..|done| - p] == first && done[|done| - p..] == l.calls[..p];
  }

  // ---------- from formatting on ----------

  /** The first life, from formatting on: before the first call a disk comes up blank or with the root. */
  method Session(calls: seq<Call>, pad: seq<Byte>, boot: Block, super: Block)
    returns (v: Volume, n: nat, halted: bool, ghost marks: seq<nat>)
    requires Legal(Formatted(), calls) && |pad| == 2
    ensures GoesTo(Formatted(), calls, n) && (halted <==> n < |calls|) && |marks| == n + 1
    ensures Chronicle(v.log.cache.g.trace, marks, Formatted(), calls)
    ensures FrontsFrom(FormattedDisk(boot, super), v.log.cache.g.trace + [v.log.cache.c.disk], 0)
    ensures forall k :: 0 <= k < marks[0] && k < |v.log.cache.g.trace| ==>
      ComesUp(v.log.cache.g.trace[k], Blank()) || ComesUp(v.log.cache.g.trace[k], Formatted())
    ensures ComesUp(v.log.cache.c.disk, After(Formatted(), calls[..n])) && GoodTree(After(Formatted(), calls[..n]).tree)
    ensures !halted ==> Settled(v) && Now(v) == After(Formatted(), calls)
  {
    hide Settled, StoreOf, Atomic, GoodTree, ComesUp, Chronicle, Legal, GoesTo, After, Blank, Formatted;
    hide EmptyTable, AllBootable, DirSizes, InOrder, Recover, WellFormed, FormattedDisk, Crash.SameData, SameFront;
    hide HasMagic, FrontsFrom;
    v := FirstBoot(boot, super);
    ghost var d0, t0, o0, tr := v.View(), v.table, v.owner, v.log.cache.g.trace;
    ghost var first := FormattedDisk(boot, super);
    FirstSeen(v, first);
    MakeRoot(v, pad);
    RootSeen(v, d0, t0, o0, tr);
    FrontsGrow(first, d0, v.log.cache.c.disk, tr, v.log.cache.g.trace, 0);
    ghost var up, d := v.log.cache.g.trace, v.log.cache.c.disk;
    n, halted, marks := Calls(v, calls);
    FrontsJoin(first, d, up, v.log.cache.g.trace, v.log.cache.c.disk);
    assert forall k :: 0 <= k < |up| ==> up[k] == v.log.cache.g.trace[k];
  }

  lemma FirstSeen(v: Volume, first: Disk)
    requires Steady(v) && v.table == EmptyTable() && HasMagic(first)
    requires WellFormed(first) && v.View() == Recover(first) && Recovering(first, [], v.log.cache.g.trace)
    ensures SameFront(first, v.View()) && FrontsFrom(first, v.log.cache.g.trace, 0) && HasMagic(v.View())
    ensures InOrder(v.View(), v.table, v.owner) && DirSizes(v.table) && StoreOf(v.View(), v.table) == Blank()
    ensures v.View() == v.log.cache.c.disk
    ensures forall k :: 0 <= k < |v.log.cache.g.trace| ==> ComesUp(v.log.cache.g.trace[k], Blank())
  {
    hide InOrder, Recover, WellFormed, Crash.SameData, StoreOf, DirSizes, ComesUp, EmptyTable, Blank, SameFront;
    hide Good, Clean, HasMagic;
    EmptyStore(v.View());
    forall k | 0 <= k < |v.log.cache.g.trace| ensures ComesUp(v.log.cache.g.trace[k], Blank()) {
      SameFrontMagic(first, v.log.cache.g.trace[k]);
      ComesUpWith(v.log.cache.g.trace[k], v.View(), v.table, v.owner);
    }
  }

  lemma RootSeen(v: Volume, d0: Disk, t0: Table, o0: map<nat, Place>, tr: seq<Disk>)
    requires Settled(v) && InOrder(d0, t0, o0) && DirSizes(t0) && StoreOf(d0, t0) == Blank() && Now(v) == Formatted()
    requires HasMagic(d0)
    requires Atomic(d0, v.log.cache.c.disk, tr, v.log.cache.g.trace)
    requires forall k :: 0 <= k < |tr| ==> ComesUp(tr[k], Blank())
    ensures forall k :: 0 <= k < |v.log.cache.g.trace| ==>
      ComesUp(v.log.cache.g.trace[k], Blank()) || ComesUp(v.log.cache.g.trace[k], Formatted())
  {
    hide Settled, InOrder, DirSizes, ComesUp, StoreOf, Atomic, Blank, Formatted, HasMagic, SameFront;
    SettledDisk(v);
    TraceGrows(d0, v.View(), tr, v.log.cache.g.trace);
    forall k | 0 <= k < |v.log.cache.g.trace|
      ensures ComesUp(v.log.cache.g.trace[k], Blank()) || ComesUp(v.log.cache.g.trace[k], Formatted())
    {
      if k < |tr| {
        assert tr[k] == v.log.cache.g.trace[k];
      } else {
        EitherStore(d0, t0, o0, v.View(), v.table, v.owner, tr, v.log.cache.g.trace, k);
      }
    }
  }
}
