/** create, link and unlink as transactions on the disk: what each does to the tree of names that the
    blocks hold, and that a power failure leaves the tree before or the tree after. */
module NamesOnDisk {
  import opened LittleEndian
  import opened Blocks
  import opened Lists
  import opened Crash
  import opened BufferCache
  import opened WriteAheadLog
  import opened Layout
  import opened Files
  import opened Space
  import opened Superblock
  import opened FileSystem
  import opened OpenFile
  import opened Mount
  import opened DirectoryBytes
  import opened DirectoryBlocks
  import opened LinkRange
  import opened NameEffects
  import D = Directories
  import L = LinkCounts
  import P = Paths
  import N = Namespace
  import F = FileNames
  import C = LinkCalls

  /** The bytes of the files after unlink. */
  function UnlinkData(t: D.Tree, data: seq<seq<Byte>>, path: string, open: bool): seq<seq<Byte>>
    requires |data| == NINODES
  {
    if Vanishes(t, path, open) then data[Target(t, path) := []] else data
  }

  /** What the files hold, by the latest contents. */
  ghost function Data(v: Volume): seq<seq<Byte>>
    reads v, v.log, v.log.cache
  {
    DataOf(v.View(), v.table)
  }

  // ---------- steps of a call ----------

  /** ilock: a copy of the inode. */
  method Lock(v: Volume, inum: nat) returns (ip: Inode)
    requires Looking(v) && inum < NINODES
    modifies v.log.cache
    ensures Looking(v) && Same(v) && fresh(ip) && ip.inum == inum && v.Loaded(ip)
    ensures ip.d.kind == T_DIR <==> Names(v)[inum].kind == D.Dir
    ensures ip.d.kind == 0 <==> Names(v)[inum].kind == D.Unused
    ensures ip.d.nlink == Names(v)[inum].nlink
  {
    hide NodeOf, Owns, Mapped, Filled, OnDisk, Snug, DirSizes;
    ip := v.ILock(inum);
    KindIs(v.View(), ip.d);
  }

  /** A fresh inode in the tree. */
  lemma FreshNode(v: Disk, t: Table, v': Disk, i: nat, kind: Half)
    requires Shaped(t) && 0 < i < NINODES && SameBytes(v, t, v', t[i := Fresh(kind)])
    requires t[i].kind == 0 && forall j :: 1 <= j < i ==> t[j].kind != 0
    ensures Kept(v, t, v', t[i := Fresh(kind)], {i}) && C.FirstUnused(TreeOf(v, t), 1) == i
    ensures TreeOf(v', t[i := Fresh(kind)]) == TreeOf(v, t)[i := D.Node(KindOf(kind), 0, [])]
    ensures DirSizes(t) ==> DirSizes(t[i := Fresh(kind)])
  {
    hide ByteAt, Contents, Slots;
    var t' := t[i := Fresh(kind)];
    SameBytesKeep(v, t, v', t', {i});
    OneNode(v, t, v', t', i);
    assert NodeOf(v', t'[i]) == D.Node(KindOf(kind), 0, []);
    FirstIs(TreeOf(v, t), 1, i);
  }

  lemma {:induction false} FirstIs(t: D.Tree, j: nat, i: nat)
    requires j <= i <= NINODES && (i < NINODES ==> t[i].kind == D.Unused)
    requires forall k :: j <= k < i ==> t[k].kind != D.Unused
    ensures C.FirstUnused(t, j) == i
    decreases i - j
  {
    if j < i { FirstIs(t, j + 1, i); }
  }

  /** ialloc; 0 stands for the panic without a free inode. */
  method NewInode(v: Volume, kind: Half) returns (i: nat)
    requires Inside(v) && kind != 0 && v.log.n + 1 < MAXLOG
    modifies v, v.log, v.log.cache
    ensures v.Unwritten() && i < NINODES
    ensures C.FirstUnused(old(Names(v)), 1) == if i == 0 then NINODES else i
    ensures i != 0 ==> Inside(v) && v.log.n <= old(v.log.n) + 1
    ensures i != 0 ==> Names(v) == old(Names(v))[i := D.Node(KindOf(kind), 0, [])]
    ensures i != 0 ==> v.table == old(v.table)[i := Fresh(kind)]
    ensures i != 0 ==> Kept(old(v.View()), old(v.table), v.View(), v.table, {i})
    ensures i != 0 ==> Free(v.table) == Free(old(v.table))
  {
    hide NodeOf, Owns, Mapped, Filled, OnDisk, Snug, DirSizes, SameBytes, Fresh, Kept, Good, LogClean, Targets;
    hide TotalBlocks;
    ghost var v0, t0 := v.View(), v.table;
    var r := v.IAlloc(kind);
    if r == -1 {
      NoneFree(v0, t0);
      i := 0;
    } else {
      i := r;
      FreshNode(v0, t0, v.View(), i, kind);
      FreshNeedsNothing(v0, t0, old(v.owner), i, kind);
    }
  }

  lemma FreshNeedsNothing(v: Disk, t: Table, o: map<nat, Place>, i: nat, kind: Half)
    requires FsInv(v, t, o) && i < NINODES && t[i].kind == 0
    ensures Free(t[i := Fresh(kind)]) == Free(t)
  {
    hide Owns, Mapped, Filled, Shaped, TotalBlocks;
    FreeHasNothing(v, t, o, i);
    TotalChanges(t, i, Fresh(kind), NINODES);
  }

  lemma NoneFree(v: Disk, t: Table)
    requires forall j :: 1 <= j < NINODES ==> t[j].kind != 0
    ensures C.FirstUnused(TreeOf(v, t), 1) == NINODES
  {
    FirstIs(TreeOf(v, t), 1, NINODES);
  }

  lemma KeptOn(v: Disk, t: Table, v1: Disk, t1: Table, v2: Disk, t2: Table, js: set<nat>, ks: set<nat>)
    requires Kept(v, t, v1, t1, js) && Kept(v1, t1, v2, t2, ks) && ks <= js
    ensures Kept(v, t, v2, t2, js)
  {
    hide Kept;
    KeptTwice(v, t, v1, t1, v2, t2, js, ks);
    assert js + ks == js;
  }

  // ---------- create ----------

  /** The entries "." and ".." of a new directory. */
  method Dots(v: Volume, ip: Inode, d: nat, pad: seq<Byte>) returns (halted: bool)
    requires Inside(v) && v.Loaded(ip) && ip.d.kind == T_DIR && 0 < ip.inum && d < NINODES && |pad| == 2
    requires Names(v)[ip.inum].slots == [] && v.log.n + 12 < MAXLOG
    modifies v, ip, v.log, v.log.cache
    ensures v.Unwritten() && (halted <==> Free(old(v.table)) < 1)
    ensures !halted ==> Inside(v) && v.Loaded(ip) && OnlyAt(v, ip.inum) && v.log.n <= old(v.log.n) + 10
    ensures !halted ==> Free(v.table) == Free(old(v.table)) - 1
    ensures var i, t := ip.inum, old(Names(v));
            !halted ==> Names(v) == t[i := t[i].(slots := [D.Dirent(i, "."), D.Dirent(d, "..")])]
  {
    hide Looking, NodeOf, TotalBlocks, Kept, D.NoSlot, GoodName, D.EntryCost;
    DotNames();
    C.Dots(ip.inum, d);
    DotCosts(ip.inum);
    ghost var v0, t0 := v.View(), v.table;
    var r;
    r, halted := DirLink(v, ip, ".", ip.inum, pad);
    if halted { return; }
    ghost var v1, t1 := v.View(), v.table;
    r, halted := DirLink(v, ip, "..", d, pad);
    if halted { return; }
    KeptOn(v0, t0, v1, t1, v.View(), v.table, {ip.inum}, {ip.inum});
  }

  lemma DotNames()
    ensures GoodName(".") && GoodName("..")
  {}

  lemma DotCosts(i: nat)
    requires i > 0
    ensures D.NameCost([]) == 1 && D.NameCost([D.Dirent(i, ".")]) == 0
  {
    assert D.FreeSlot([D.Dirent(i, ".")], 0) == 1;
  }

  /** A new inode with one link, in a directory that does not name it yet; a directory has its dots. */
  ghost predicate Made(t: D.Tree, t': D.Tree, d: nat, i: nat, dir: bool) {
    && d < NINODES && 0 < i < NINODES && i != d && i == C.FirstUnused(t, 1)
    && t' == if dir then C.Unnamed(t, d, i, D.Dir, [D.Dirent(i, "."), D.Dirent(d, "..")])
             else C.Unnamed(t, d, i, D.File, [])
  }

  ghost predicate Named(t: D.Tree, t': D.Tree, d: nat, name: string, i: nat, dir: bool) {
    && d < NINODES && 0 < i < NINODES && i != d && i == C.FirstUnused(t, 1)
    && t' == if dir then L.NewDir(t, d, name, i) else L.NewFile(t, d, name, i)
  }

  method MakeNode(v: Volume, dp: Inode, dir: bool, pad: seq<Byte>) returns (i: nat, halted: bool)
    requires Inside(v) && v.Loaded(dp) && dp.d.kind == T_DIR && dp.inum > 0 && |pad| == 2 && v.log.n == 0
    requires dp.d.nlink < 0xffff
    modifies v, dp, v.log, v.log.cache
    ensures v.Unwritten()
    ensures halted <==> C.FirstUnused(old(Names(v)), 1) == NINODES || (dir && Free(old(v.table)) < 1)
    ensures !halted ==> Inside(v) && v.Loaded(dp) && dp.d.kind == T_DIR && v.log.n <= 13
    ensures !halted && !dir && i < NINODES ==> v.table[i].size == 0
    ensures !halted ==> Free(v.table) == Free(old(v.table)) - if dir then 1 else 0
    ensures !halted ==> Kept(old(v.View()), old(v.table), v.View(), v.table, {dp.inum, i})
    ensures !halted ==> Made(old(Names(v)), Names(v), dp.inum, i, dir)
  {
    hide Looking, NodeOf, TotalBlocks, Kept, TreeOf, D.Find, D.FreeSlot, C.FirstUnused;
    ghost var v0, t0, t := v.View(), v.table, Names(v);
    IsDir(v, dp);
    i := NewInode(v, if dir then T_DIR else T_FILE);
    if i == 0 { return 0, true; }
    ghost var js := {dp.inum, i};
    KeptMore(v0, t0, v.View(), v.table, {i}, js);
    ghost var v1, t1 := v.View(), v.table;
    FreeIsNot(t, 1);
    var ip := Lock(v, i);
    SetLinks(v, ip, 1);
    KeptOn(v0, t0, v1, t1, v.View(), v.table, js, {});
    halted := false;
    if dir {
      halted := MakeDots(v, dp, ip, pad, t, v0, t0);
    }
  }

  lemma FreeIsNot(t: D.Tree, d: nat)
    ensures C.FirstUnused(t, 1) < NINODES ==> t[C.FirstUnused(t, 1)].kind == D.Unused
  {}

  /** The part of create that only directories have. */
  method MakeDots(v: Volume, dp: Inode, ip: Inode, pad: seq<Byte>, ghost t: D.Tree, ghost v0: Disk, ghost t0: Table)
    returns (halted: bool)
    requires Inside(v) && v.Loaded(dp) && dp.d.kind == T_DIR && v.Loaded(ip) && ip.d.kind == T_DIR && |pad| == 2
    requires dp.d.nlink < 0xffff && dp.inum != ip.inum && dp != ip && ip.inum > 0 && v.log.n <= 2
    requires Names(v) == t[ip.inum := D.Node(D.Dir, 1, [])] && dp.d.nlink == t[dp.inum].nlink
    requires Kept(v0, t0, v.View(), v.table, {dp.inum, ip.inum})
    modifies v, dp, ip, v.log, v.log.cache
    ensures v.Unwritten() && (halted <==> Free(old(v.table)) < 1)
    ensures !halted ==> Inside(v) && v.Loaded(dp) && dp.d.kind == T_DIR && v.log.n <= 13
    ensures !halted ==> Free(v.table) == Free(old(v.table)) - 1
    ensures !halted ==> Kept(v0, t0, v.View(), v.table, {dp.inum, ip.inum})
    ensures var d, i := dp.inum, ip.inum;
            !halted ==> Names(v) == C.Unnamed(t, d, i, D.Dir, [D.Dirent(i, "."), D.Dirent(d, "..")])
  {
    hide Looking, NodeOf, TotalBlocks, Kept, TreeOf, D.Find, D.FreeSlot;
    ghost var js := {dp.inum, ip.inum};
    ghost var v1, t1 := v.View(), v.table;
    SetLinks(v, dp, (dp.d.nlink + 1) % 0x1_0000);
    KeptOn(v0, t0, v1, t1, v.View(), v.table, js, {});
    v1, t1 := v.View(), v.table;
    halted := Dots(v, ip, dp.inum, pad);
    if halted { return; }
    KeptOn(v0, t0, v1, t1, v.View(), v.table, js, {ip.inum});
  }

  lemma IsDir(v: Volume, dp: Inode)
    requires v.Loaded(dp)
    ensures dp.d.kind == T_DIR <==> Names(v)[dp.inum].kind == D.Dir
    ensures dp.d.nlink == Names(v)[dp.inum].nlink
    ensures dp.d.kind == 0 <==> Names(v)[dp.inum].kind == D.Unused
  {
    KindIs(v.View(), dp.d);
  }

  /** create once the name is known to be new. */
  method CreateNew(v: Volume, dp: Inode, name: string, dir: bool, pad: seq<Byte>) returns (i: nat, halted: bool)
    requires Inside(v) && v.Loaded(dp) && dp.d.kind == T_DIR && dp.inum > 0 && |pad| == 2 && v.log.n == 0
    requires dp.d.nlink < 0xffff && GoodName(name) && D.Find(Names(v)[dp.inum].slots, name, 0) == -1
    modifies v, dp, v.log, v.log.cache
    ensures v.Unwritten()
    ensures halted <==>
      || C.FirstUnused(old(Names(v)), 1) == NINODES
      || D.NoPlace(old(Names(v))[dp.inum].slots, Free(old(v.table)), if dir then 1 else 0)
    ensures !halted ==> Inside(v) && Named(old(Names(v)), Names(v), dp.inum, name, i, dir)
    ensures !halted && !dir && i < NINODES ==> v.table[i].size == 0
    ensures !halted ==> Kept(old(v.View()), old(v.table), v.View(), v.table, {dp.inum, i})
  {
    hide Looking, NodeOf, TotalBlocks, Kept, D.NoSlot, D.NameCost, D.Find, GoodName, TreeOf, C.FirstUnused;
    C.CostsSome(Names(v)[dp.inum].slots);
    Enough(v);
    ghost var v0, t0, t := v.View(), v.table, Names(v);
    i, halted := MakeNode(v, dp, dir, pad);
    if halted { return; }
    ghost var v1, t1 := v.View(), v.table;
    var r;
    r, halted := DirLink(v, dp, name, i, pad);
    if halted { return; }
    KeptOn(v0, t0, v1, t1, v.View(), v.table, {dp.inum, i}, {dp.inum});
  }

  // ---------- transactions ----------

  /** Between calls: everything is on the disk, and the names form a tree with right link counts. */
  ghost predicate Settled(v: Volume)
    reads v, v.log, v.log.cache
  {
    Steady(v) && DirSizes(v.table) && GoodTree(Names(v))
  }

  /** The calls of a transaction reach the disk whole or not at all. */
  twostate predicate AllOrNothing(v: Volume)
    reads v, v.log, v.log.cache
  {
    Atomic(old(v.log.cache.c).disk, v.log.cache.c.disk, old(v.log.cache.g).trace, v.log.cache.g.trace)
  }

  method Begin(v: Volume)
    requires Settled(v)
    modifies v.log
    ensures Inside(v) && v.log.n == 0 && v.View() == old(v.View()) && N.Safe(Names(v)) && v.Unwritten()
    ensures HasMagic(v.log.cache.c.disk)
    ensures forall i :: 0 < i < NINODES ==> v.table[i].nlink < 0xffff
  {
    hide Good, Targets, Elements, FsInv, OnDisk, Snug, DirSizes, NodeOf, TreeOf, L.TreeOk, RootOk, N.Safe, MAXLINKS;
    hide HasMagic;
    var entered := v.log.BeginOp();
    N.TreesAreSafe(Names(v));
    forall i | 0 < i < NINODES ensures v.table[i].nlink < 0xffff {
      LinksFit(v.View(), v.table, v.owner, i);
    }
  }

  method End(v: Volume, ghost v0: Disk, ghost t0: Table, ghost js: set<nat>)
    requires Inside(v) && GoodTree(Names(v)) && Kept(v0, t0, v.View(), v.table, js) && HasMagic(v.log.cache.c.disk)
    modifies v.log, v.log.cache
    ensures Settled(v) && Names(v) == old(Names(v)) && Kept(v0, t0, v.View(), v.table, js) && AllOrNothing(v)
    ensures js == {} ==> Data(v) == DataOf(v0, t0)
  {
    hide Good, Targets, Elements, LogClean, OnDisk, Snug, Owns, Mapped, Filled, SameBytes, NodeOf, TreeOf, GoodTree;
    hide Kept, Atomic, DirSizes, GetWord, HasMagic;
    ghost var v1, t1 := v.View(), v.table;
    Finish(v);
    SameTree(v1, t1, v.View());
    KeptOn(v0, t0, v1, t1, v.View(), v.table, js, {});
    if js == {} { NoFileChanged(v, v0, t0); }
  }

  // ---------- create ----------

  /** When create panics: no inode is free, the directory is at its largest, or there are fewer blocks free
      than the entry and the new directory need. */
  predicate CreateFails(t: D.Tree, path: string, dir: bool, free: int) {
    var d := Parent(t, path);
    && d != 0 && D.Lookup(t[d].slots, Last(path)) == 0
    && (C.FirstUnused(t, 1) == NINODES || D.NoPlace(t[d].slots, free, if dir then 1 else 0))
  }

  function KindIf(dir: bool): D.Kind { if dir then D.Dir else D.File }

  /** The name can be made: all that the new tree needs. */
  lemma NewIsGood(t: D.Tree, t': D.Tree, d: nat, name: string, i: nat, dir: bool)
    requires GoodTree(t) && N.Live(t, d) && t[d].kind == D.Dir && D.Find(t[d].slots, name, 0) == -1
    requires Named(t, t', d, name, i, dir)
    ensures GoodTree(t')
  {
    hide L.TreeOk, RootOk, D.Find, D.Put, N.Live;
    C.DotsFirst(t, d, name);
    FreeIsNot(t, d);
    C.CanNameNew(t, d, name, i);
    if dir { NewDirIsGood(t, d, name, i); } else { NewFileIsGood(t, d, name, i); }
  }

  /** create in its transaction. */
  method Create(v: Volume, path: string, dir: bool, pad: seq<Byte>) returns (inum: nat, halted: bool)
    requires Settled(v) && CharsOk(path) && |pad| == 2
    modifies v, v.log, v.log.cache
    ensures (halted <==> CreateFails(old(Names(v)), path, dir, Free(old(v.table)))) && (halted ==> v.Unwritten())
    ensures !halted ==> Settled(v) && AllOrNothing(v) && inum == CreateInum(old(Names(v)), path, KindIf(dir))
    ensures !halted ==> Names(v) == CreateTree(old(Names(v)), path, KindIf(dir))
    ensures !halted ==> Data(v) == old(Data(v))
    ensures var t := old(Names(v));
            !halted ==> Kept(old(v.View()), old(v.table), v.View(), v.table,
                             if Names(v) == t then {} else {Parent(t, path), inum})
  {
    hide Looking, NodeOf, TotalBlocks, Kept, TreeOf, GoodTree, C.FirstUnused, D.Find, N.Safe, P.Parts, N.Live, GoodName;
    hide D.NameCost, CharsOk, Atomic, F.Resolve, D.NoSlot, Steady, DirSizes, HasMagic, DataOf;
    ghost var v0, t0, t := v.View(), v.table, Names(v);
    Begin(v);
    var d, name := NameX(v, path, true);
    NothingChanged(v, {});
    if d == 0 {
      End(v, v0, t0, {});
      return 0, false;
    }
    C.LiveRange(t, d);
    var dp := Lock(v, d);
    var k, j := DirLookup(v, dp, name);
    if k >= 0 {
      N.LookupIsLive(t, d, name);
      C.LiveRange(t, j);
      var ip := Lock(v, j);
      inum := if !dir && KindOf(ip.d.kind) == D.File then j else 0;
      IsDir(v, ip);
      End(v, v0, t0, {});
      return inum, false;
    }
    inum, halted := CreateNew(v, dp, name, dir, pad);
    if halted { return; }
    NewIsGood(t, Names(v), d, name, inum, dir);
    End(v, v0, t0, {d, inum});
    NewIsNew(t, Names(v), d, name, inum, dir);
    NewHasNoData(v, v0, t0, d, inum);
  }

  lemma NewIsNew(t: D.Tree, t': D.Tree, d: nat, name: string, i: nat, dir: bool)
    requires Named(t, t', d, name, i, dir)
    ensures t[i].kind == D.Unused && t'[i].kind != D.Unused && t'[d].kind == t[d].kind
  {
    hide D.Put;
  }

  /** A new inode has no bytes, and no file has others than before. */
  lemma NewHasNoData(v: Volume, v0: Disk, t0: Table, d: nat, i: nat)
    requires d < NINODES && i < NINODES && Kept(v0, t0, v.View(), v.table, {d, i})
    requires TreeOf(v0, t0)[d].kind == Names(v)[d].kind == D.Dir && TreeOf(v0, t0)[i].kind == D.Unused
    requires Names(v)[i].kind == D.File ==> v.table[i].size == 0
    ensures Data(v) == DataOf(v0, t0)
  {
    hide Kept, TreeOf, DataOf;
    KeptData(v0, t0, v.View(), v.table, {d, i});
    NoData(v0, t0, d);
    NoData(v0, t0, i);
    NoData(v.View(), v.table, d);
    NoData(v.View(), v.table, i);
  }

  // ---------- link ----------

  /** When link panics: the directory is at its largest, or there are fewer blocks free than the entry
      needs. */
  predicate LinkFails(t: D.Tree, from: string, to: string, free: int) {
    CanLink(t, from, to) && D.NoPlace(t[Parent(t, to)].slots, free, 0)
  }

  /** One link counted before its name is made: paths lead where they led. */
  lemma OneMoreIsSafe(t: D.Tree, i: nat, path: string)
    requires N.Safe(t) && N.Live(t, i) && t[i].kind != D.Dir
    ensures var t' := t[i := t[i].(nlink := t[i].nlink + 1)];
            N.Safe(t') && Parent(t', path) == Parent(t, path) && F.Resolve(t', path, true) == F.Resolve(t, path, true)
  {
    hide P.Parts;
    var t' := t[i := t[i].(nlink := t[i].nlink + 1)];
    N.SameWalk(t, t', D.ROOTINO, P.Parts(path));
    forall d, k | 0 < d < NINODES && D.Linked(t'[d], d) && 0 <= k < |t'[d].slots| && t'[d].slots[k].inum != 0
      ensures N.Live(t', t'[d].slots[k].inum)
    {
      assert N.Live(t, t[d].slots[k].inum);
    }
  }

  lemma LinkIsGood(t: D.Tree, d: nat, name: string, i: nat)
    requires GoodTree(t) && N.Live(t, i) && t[i].kind != D.Dir && N.Live(t, d) && t[d].kind == D.Dir
    requires D.Find(t[d].slots, name, 0) == -1
    ensures GoodTree(L.MoreLinks(t, d, name, i))
  {
    hide L.TreeOk, RootOk, D.Find, D.Put, N.Live, L.CanName;
    C.LinkFits(t, d, name, i);
    C.LiveRange(t, i);
    C.LiveRange(t, d);
    MoreLinksIsGood(t, d, name, i);
  }

  /** The new name of an inode that already counts it; -1 if there is no place for it. */
  method NewName(v: Volume, to: string, i: nat, pad: seq<Byte>) returns (r: int, halted: bool)
    requires Inside(v) && v.log.n <= 1 && N.Safe(Names(v)) && CharsOk(to) && |pad| == 2 && 0 < i < NINODES
    requires Names(v)[i].kind != D.Dir
    modifies v, v.log, v.log.cache
    ensures v.Unwritten()
    ensures var t, d := old(Names(v)), Parent(old(Names(v)), to);
            var can := d != 0 && D.Find(t[d].slots, Last(to), 0) == -1;
            && (halted <==> can && D.NoPlace(t[d].slots, Free(old(v.table)), 0))
            && (!halted ==> Inside(v) && v.log.n <= 6 && r == if can then 0 else -1)
            && (!halted && !can ==> Same(v))
            && (!halted && can ==> d != i && N.Live(t, d) && t[d].kind == D.Dir && v.table[i] == old(v.table)[i]
                                   && Names(v) == t[d := L.WithName(t[d], Last(to), i)])
    ensures !halted ==> Kept(old(v.View()), old(v.table), v.View(), v.table, {Parent(old(Names(v)), to)})
  {
    hide Looking, NodeOf, TotalBlocks, Kept, TreeOf, D.Find, N.Safe, P.Parts, N.Live, GoodName, CharsOk, F.Resolve;
    hide D.NoSlot, D.NameCost;
    var d, name := NameX(v, to, true);
    if d == 0 {
      NothingChanged(v, {0});
      return -1, false;
    }
    C.LiveRange(Names(v), d);
    var dp := Lock(v, d);
    r, halted := DirLink(v, dp, name, i, pad);
  }

  /** sys_link in its transaction: counts the link first, and takes it back if the name cannot be made. */
  method Link(v: Volume, from: string, to: string, pad: seq<Byte>) returns (r: int, halted: bool)
    requires Settled(v) && CharsOk(to) && |pad| == 2
    modifies v, v.log, v.log.cache
    ensures (halted <==> LinkFails(old(Names(v)), from, to, Free(old(v.table)))) && (halted ==> v.Unwritten())
    ensures !halted ==> Settled(v) && AllOrNothing(v) && (r == if CanLink(old(Names(v)), from, to) then 0 else -1)
    ensures !halted ==> Names(v) == LinkTree(old(Names(v)), from, to) && Data(v) == old(Data(v))
    ensures var t := old(Names(v));
            !halted ==> Kept(old(v.View()), old(v.table), v.View(), v.table,
                             if CanLink(t, from, to) then {Parent(t, to)} else {})
  {
    hide Looking, NodeOf, TotalBlocks, Kept, TreeOf, GoodTree, D.Find, N.Safe, P.Parts, N.Live, GoodName, D.NameCost;
    hide CharsOk, Atomic, F.Resolve, D.NoPlace, D.Put, Parent, Steady, DirSizes, HasMagic, DataOf;
    ghost var v0, t0, t := v.View(), v.table, Names(v);
    ghost var js := {Parent(t, to)};
    Begin(v);
    NothingChanged(v, {});
    var i, name := NameX(v, from, false);
    if i == 0 {
      End(v, v0, t0, {});
      return -1, false;
    }
    C.LiveRange(t, i);
    var ip := Lock(v, i);
    if ip.d.kind == T_DIR {
      End(v, v0, t0, {});
      return -1, false;
    }
    OneMoreIsSafe(t, i, to);
    SetLinks(v, ip, (ip.d.nlink + 1) % 0x1_0000);
    ghost var v1, t1 := v.View(), v.table;
    r, halted := NewName(v, to, i, pad);
    if halted { return; }
    if r < 0 {
      NothingChanged(v, {});
      SetLinks(v, ip, (ip.d.nlink + 0xffff) % 0x1_0000);
      KeptOn(v0, t0, v1, t1, v.View(), v.table, {}, {});
      assert Names(v) == t;
      End(v, v0, t0, {});
    } else {
      KeptMore(v0, t0, v1, t1, {}, js);
      KeptOn(v0, t0, v1, t1, v.View(), v.table, js, js);
      LiveBefore(t, Parent(t, to), i);
      LinkIsGood(t, Parent(t, to), Last(to), i);
      assert Names(v) == L.MoreLinks(t, Parent(t, to), Last(to), i);
      End(v, v0, t0, js);
      DirHasNoData(v, v0, t0, Parent(t, to));
    }
  }

  lemma NoFileChanged(v: Volume, v0: Disk, t0: Table)
    requires Kept(v0, t0, v.View(), v.table, {})
    ensures Data(v) == DataOf(v0, t0)
  {
    hide Kept, DataOf;
    KeptData(v0, t0, v.View(), v.table, {});
  }

  /** A change of a directory changes no file. */
  lemma DirHasNoData(v: Volume, v0: Disk, t0: Table, d: nat)
    requires d < NINODES && Kept(v0, t0, v.View(), v.table, {d})
    requires TreeOf(v0, t0)[d].kind == Names(v)[d].kind == D.Dir
    ensures Data(v) == DataOf(v0, t0)
  {
    hide Kept, TreeOf, DataOf;
    KeptData(v0, t0, v.View(), v.table, {d});
    NoData(v0, t0, d);
    NoData(v.View(), v.table, d);
  }

  lemma LiveBefore(t: D.Tree, d: nat, i: nat)
    requires d != i < NINODES && N.Live(t[i := t[i].(nlink := t[i].nlink + 1)], d)
    ensures N.Live(t, d)
  {}

  // ---------- unlink ----------

  /** iput's freeing of an inode without links. */
  method Discard(v: Volume, ip: Inode)
    requires Inside(v) && v.Loaded(ip) && ip.d.nlink == 0 && v.log.n + 2 < MAXLOG
    modifies v, ip, v.log, v.log.cache
    ensures Inside(v) && v.Unwritten() && Names(v) == old(Names(v))[ip.inum := D.BLANK]
    ensures Kept(old(v.View()), old(v.table), v.View(), v.table, {ip.inum}) && v.log.n <= old(v.log.n) + 2
  {
    hide Owns, Mapped, Filled, OnDisk, Snug, DirSizes, ByteAt, Good, LogClean, Targets, Elements, FreeBlocks, Disowned;
    ghost var v0, t0 := v.View(), v.table;
    v.IFree(ip);
    FreedNode(v0, t0, v.View(), v.table, ip.inum);
  }

  lemma FreedNode(v: Disk, t: Table, v': Disk, t': Table, i: nat)
    requires Shaped(t) && Shaped(t') && i < NINODES && t' == t[i := t'[i]]
    requires t'[i].kind == 0 && t'[i].nlink == 0
    requires forall j, x :: 0 <= j < NINODES && j != i && 0 <= x < MAXFILE * BSIZE ==>
               ByteAt(v', t'[j], x) == ByteAt(v, t'[j], x)
    ensures Kept(v, t, v', t', {i}) && TreeOf(v', t') == TreeOf(v, t)[i := D.BLANK]
    ensures DirSizes(t) ==> DirSizes(t')
  {
    hide ByteAt, Contents, Slots;
    SameBytesKeep(v, t, v', t', {i});
    OneNode(v, t, v', t', i);
  }

  /** unlink once the name is known to go. */
  method UnlinkAt(v: Volume, dp: Inode, ip: Inode, k: nat, open: bool)
    requires Inside(v) && v.log.n == 0 && v.Loaded(dp) && v.Loaded(ip) && dp != ip && dp.d.kind == T_DIR
    requires dp.d.nlink > 0 && L.CanRemove(Names(v), dp.inum, k) && Names(v)[dp.inum].slots[k].inum == ip.inum
    modifies v, dp, ip, v.log, v.log.cache
    ensures Inside(v) && v.Unwritten()
    ensures var t' := L.Removed(old(Names(v)), dp.inum, k);
            var gone := t'[ip.inum].nlink == 0 && !open;
            && Names(v) == (if gone then t'[ip.inum := D.BLANK] else t')
            && Kept(old(v.View()), old(v.table), v.View(), v.table, if gone then {dp.inum, ip.inum} else {dp.inum})
  {
    hide Looking, NodeOf, FreeBlocks, Kept, TreeOf, L.TreeOk, Decode;
    ghost var v0, t0, t, js := v.View(), v.table, Names(v), {dp.inum};
    L.RemoveFacts(t, dp.inum, k);
    hide L.CanRemove;
    IsDir(v, dp);
    IsDir(v, ip);
    ZeroEntry();
    var halted := WriteEntry(v, dp, k, seq(D.ENTRY, _ => 0));
    ghost var v1, t1 := v.View(), v.table;
    if ip.d.kind == T_DIR {
      SetLinks(v, dp, (dp.d.nlink + 0xffff) % 0x1_0000);
      KeptOn(v0, t0, v1, t1, v.View(), v.table, js, {});
      v1, t1 := v.View(), v.table;
    }
    SetLinks(v, ip, (ip.d.nlink + 0xffff) % 0x1_0000);
    KeptOn(v0, t0, v1, t1, v.View(), v.table, js, {});
    assert Names(v) == L.Removed(t, dp.inum, k);
    if ip.d.nlink == 0 && !open {
      v1, t1 := v.View(), v.table;
      Discard(v, ip);
      KeptTwice(v0, t0, v1, t1, v.View(), v.table, js, {ip.inum});
      assert js + {ip.inum} == {dp.inum, ip.inum};
    }
  }

  lemma UnlinkIsGood(t: D.Tree, path: string, open: bool)
    requires GoodTree(t) && CanUnlink(t, path) && L.CanRemove(t, Parent(t, path), Slot(t, path))
    ensures GoodTree(UnlinkTree(t, path, open))
  {
    hide L.TreeOk, RootOk, Slot, Parent;
    var d, k, i := Parent(t, path), Slot(t, path), Target(t, path);
    RemovedIsGood(t, d, k);
    L.RemoveFacts(t, d, k);
    if L.Removed(t, d, k)[i].nlink == 0 {
      ReclaimedIsGood(L.Removed(t, d, k), i);
    }
  }

  /** The test of sys_unlink: a directory that has entries. */
  method IsFullDir(v: Volume, ip: Inode) returns (full: bool)
    requires Looking(v) && v.Loaded(ip) && (Names(v)[ip.inum].kind == D.Dir ==> |Names(v)[ip.inum].slots| >= 2)
    modifies v, ip, v.log, v.log.cache
    ensures Looking(v) && v.Loaded(ip) && Same(v) && ip.d == old(ip.d)
    ensures full <==> HasEntries(Names(v)[ip.inum])
  {
    hide Looking, NodeOf, TreeOf;
    IsDir(v, ip);
    full := false;
    if ip.d.kind == T_DIR {
      var empty := IsDirEmpty(v, ip);
      full := !empty;
    }
  }

  /** sys_unlink from the inode that it found on. */
  method TakeAway(v: Volume, dp: Inode, i: nat, k: nat, open: bool) returns (r: int, halted: bool)
    requires Inside(v) && v.log.n == 0 && v.Loaded(dp) && dp.d.kind == T_DIR && GoodTree(Names(v))
    requires N.Live(Names(v), dp.inum) && N.Live(Names(v), i) && 0 < i < NINODES
    requires 2 <= k < |Names(v)[dp.inum].slots| && Names(v)[dp.inum].slots[k].inum == i
    modifies v, dp, v.log, v.log.cache
    ensures v.Unwritten() && (halted <==> C.AsShort(old(Names(v))[i].nlink) < 1)
    ensures !halted ==> Inside(v) && r == if HasEntries(old(Names(v))[i]) then -1 else 0
    ensures !halted && r == -1 ==> Same(v)
    ensures !halted && r == 0 ==>
      var t' := L.Removed(old(Names(v)), dp.inum, k);
      var gone := t'[i].nlink == 0 && !open;
      && Names(v) == (if gone then t'[i := D.BLANK] else t') && L.CanRemove(old(Names(v)), dp.inum, k)
      && Kept(old(v.View()), old(v.table), v.View(), v.table, if gone then {dp.inum, i} else {dp.inum})
  {
    hide Looking, NodeOf, Kept, TreeOf, GoodTree, N.Live, HasEntries, L.CanRemove;
    ghost var t := Names(v);
    IsDir(v, dp);
    var ip := Lock(v, i);
    HasLinks(t, dp.inum, k);
    if C.AsShort(ip.d.nlink) < 1 { return -1, true; }
    HasDots(t, i);
    var full := IsFullDir(v, ip);
    if full { return -1, false; }
    CanGo(t, dp.inum, k);
    UnlinkAt(v, dp, ip, k, open);
    return 0, false;
  }

  /** Which inodes unlink touches: the directory, and the inode if it goes. */
  function Touched(t: D.Tree, path: string, open: bool): set<nat> {
    if Vanishes(t, path, open) then {Parent(t, path), Target(t, path)}
    else if CanUnlink(t, path) then {Parent(t, path)} else {}
  }

  /** sys_unlink from slot k of directory d on, which the path leads to. */
  method UnlinkFound(v: Volume, dp: Inode, path: string, k: nat, i: nat, open: bool, ghost v0: Disk, ghost t0: Table)
    returns (r: int, halted: bool)
    requires Inside(v) && v.log.n == 0 && v.Loaded(dp) && dp.d.kind == T_DIR && GoodTree(Names(v))
    requires N.Live(Names(v), dp.inum) && N.Live(Names(v), i) && 0 < i < NINODES && v0 == v.View() && t0 == v.table
    requires Parent(Names(v), path) == dp.inum && Slot(Names(v), path) == k && Target(Names(v), path) == i
    requires HasMagic(v.log.cache.c.disk)
    modifies v, dp, v.log, v.log.cache
    ensures (halted <==> UnlinkFails(old(Names(v)), path)) && (halted ==> v.Unwritten())
    ensures !halted ==> Settled(v) && AllOrNothing(v) && (r == if CanUnlink(old(Names(v)), path) then 0 else -1)
    ensures !halted ==> Names(v) == UnlinkTree(old(Names(v)), path, open)
    ensures !halted ==> Data(v) == UnlinkData(old(Names(v)), DataOf(v0, t0), path, open)
    ensures !halted ==> Kept(v0, t0, v.View(), v.table, Touched(old(Names(v)), path, open))
  {
    hide Looking, NodeOf, Kept, TreeOf, GoodTree, N.Live, Atomic, Steady, DirSizes, HasMagic, DataOf, Parent, Slot;
    ghost var t, d := Names(v), dp.inum;
    IsDir(v, dp);
    NothingChanged(v, {});
    r, halted := TakeAway(v, dp, i, k, open);
    if halted { return; }
    if r == -1 {
      End(v, v0, t0, {});
    } else {
      UnlinkIsGood(t, path, open);
      End(v, v0, t0, if Vanishes(t, path, open) then {d, i} else {d});
      RemovedKinds(t, d, k);
      if Vanishes(t, path, open) {
        OneFileGone(v, v0, t0, d, i);
      } else {
        DirHasNoData(v, v0, t0, d);
      }
    }
  }

  /** sys_unlink in its transaction; `open` if somebody has the file open. */
  method Unlink(v: Volume, path: string, open: bool) returns (r: int, halted: bool)
    requires Settled(v)
    modifies v, v.log, v.log.cache
    ensures (halted <==> UnlinkFails(old(Names(v)), path)) && (halted ==> v.Unwritten())
    ensures !halted ==> Settled(v) && AllOrNothing(v) && (r == if CanUnlink(old(Names(v)), path) then 0 else -1)
    ensures !halted ==> Names(v) == UnlinkTree(old(Names(v)), path, open)
    ensures !halted ==> Data(v) == UnlinkData(old(Names(v)), old(Data(v)), path, open)
    ensures !halted ==>
      Kept(old(v.View()), old(v.table), v.View(), v.table, Touched(old(Names(v)), path, open))
  {
    hide Looking, NodeOf, Kept, TreeOf, GoodTree, D.Find, N.Safe, P.Parts, N.Live, GoodName, D.Lookup;
    hide CharsOk, Atomic, F.Resolve, Steady, DirSizes, HasMagic, DataOf, Parent, Slot, Last;
    ghost var v0, t0, t := v.View(), v.table, Names(v);
    Begin(v);
    NothingChanged(v, {});
    var d, name := NameX(v, path, true);
    SlotIs(t, path);
    if d == 0 {
      End(v, v0, t0, {});
      return -1, false;
    }
    C.LiveRange(t, d);
    FindsDots(t, d, name);
    var dp := Lock(v, d);
    if name == "." || name == ".." {
      End(v, v0, t0, {});
      return -1, false;
    }
    var k, i := DirLookup(v, dp, name);
    LookupAt(t[d].slots, name);
    if k == -1 {
      End(v, v0, t0, {});
      return -1, false;
    }
    N.LookupIsLive(t, d, name);
    C.LiveRange(t, i);
    r, halted := UnlinkFound(v, dp, path, k, i, open, v0, t0);
  }

  /** Where a path ends. */
  lemma SlotIs(t: D.Tree, path: string)
    ensures var d := F.Resolve(t, path, true);
            && (d == 0 ==> Slot(t, path) == -1)
            && (0 < d < NINODES && |P.Parts(path)| > 0 ==>
                  && Parent(t, path) == d
                  && var k := D.Find(t[d].slots, P.Parts(path)[|P.Parts(path)| - 1], 0);
                     Slot(t, path) == if k >= 2 && t[d].slots[k].inum < NINODES then k else -1)
  {
    hide D.Find, P.Parts, F.Resolve;
  }

  lemma LookupAt(slots: seq<D.Dirent>, name: string)
    ensures var k := D.Find(slots, name, 0); D.Lookup(slots, name) == if k == -1 then 0 else slots[k].inum
  {
    hide D.Find;
  }

  lemma RemovedKinds(t: D.Tree, d: nat, k: nat)
    requires L.CanRemove(t, d, k)
    ensures t[d].slots[k].inum != d && L.Removed(t, d, k)[d].kind == D.Dir == t[d].kind
  {
    hide L.TreeOk;
    L.RemoveFacts(t, d, k);
  }

  /** An inode that goes takes its bytes along, and nobody else's. */
  lemma OneFileGone(v: Volume, v0: Disk, t0: Table, d: nat, i: nat)
    requires d < NINODES && i < NINODES && d != i && Kept(v0, t0, v.View(), v.table, {d, i})
    requires TreeOf(v0, t0)[d].kind == Names(v)[d].kind == D.Dir && Names(v)[i] == D.BLANK
    ensures Data(v) == DataOf(v0, t0)[i := []]
  {
    hide Kept, TreeOf, DataOf;
    KeptData(v0, t0, v.View(), v.table, {d, i});
    NoData(v0, t0, d);
    NoData(v.View(), v.table, d);
    NoData(v.View(), v.table, i);
  }

  lemma FindsDots(t: D.Tree, d: nat, name: string)
    requires GoodTree(t) && N.Live(t, d) && t[d].kind == D.Dir
    ensures name == "." ==> D.Find(t[d].slots, name, 0) == 0
    ensures name == ".." ==> D.Find(t[d].slots, name, 0) == 1
    ensures name != "." && name != ".." ==> D.Find(t[d].slots, name, 0) == -1 || D.Find(t[d].slots, name, 0) >= 2
  {
    C.DotsFirst(t, d, name);
  }

  lemma HasLinks(t: D.Tree, d: nat, k: nat)
    requires GoodTree(t) && N.Live(t, d) && t[d].kind == D.Dir && 2 <= k < |t[d].slots| && t[d].slots[k].inum != 0
    ensures t[d].slots[k].inum < NINODES && t[t[d].slots[k].inum].nlink > 0
  {
    L.NamedHasLinks(t, d, k);
  }

  lemma HasDots(t: D.Tree, i: nat)
    requires GoodTree(t) && N.Live(t, i)
    ensures t[i].kind == D.Dir ==> |t[i].slots| >= 2
  {
    if t[i].kind == D.Dir { C.LinkedDir(t, i); }
  }

  lemma CanGo(t: D.Tree, d: nat, k: nat)
    requires GoodTree(t) && N.Live(t, d) && t[d].kind == D.Dir && 2 <= k < |t[d].slots|
    requires 0 < t[d].slots[k].inum < NINODES && !HasEntries(t[t[d].slots[k].inum])
    ensures L.CanRemove(t, d, k) && t[d].slots[k].inum != d && t[d].nlink > 0
  {
    hide L.TreeOk, L.CanRemove, D.Sub;
    C.Removable(t, d, k);
  }
}
