/** The operations on names over the blocks of the disk: dirlookup, dirlink, isdirempty and namex of
    fs.c and sysfile.c, reading and writing entries with readi and writei. */
module DirectoryBlocks {
  import opened LittleEndian
  import opened Blocks
  import opened Lists
  import opened Crash
  import opened BufferCache
  import opened WriteAheadLog
  import opened Layout
  import opened Files
  import opened Space
  import opened FileSystem
  import opened OpenFile
  import opened DirectoryBytes
  import D = Directories
  import L = LinkCounts
  import P = Paths
  import N = Namespace
  import F = FileNames

  /** The tree that the latest contents hold. */
  ghost function Names(v: Volume): D.Tree
    reads v, v.log, v.log.cache
  {
    TreeOf(v.View(), v.table)
  }

  /** No buffer is held, the file system is in order, directories are whole numbers of entries. */
  ghost predicate Looking(v: Volume)
    reads v, v.log, v.log.cache
  {
    && v.log.Up() && v.log.cache.g.held == multiset{} && v.log.n < MAXLOG
    && InOrder(v.View(), v.table, v.owner) && DirSizes(v.table)
  }

  /** As Looking, inside an operation. */
  ghost predicate Inside(v: Volume)
    reads v, v.log, v.log.cache
  {
    Looking(v) && v.log.outstanding == 1
  }

  /** Nothing changed that a later operation could notice. */
  twostate predicate Same(v: Volume)
    reads v, v.log, v.log.cache
  {
    && v.View() == old(v.View()) && v.table == old(v.table) && v.owner == old(v.owner) && v.Unwritten()
    && v.log.cache.g.pinned == old(v.log.cache.g.pinned)
    && v.log.n == old(v.log.n) && v.log.outstanding == old(v.log.outstanding)
  }

  /** readi of one entry: it is there in full, so the panic of a short read never happens. */
  method ReadEntry(v: Volume, dp: Inode, k: nat) returns (e: D.Dirent)
    requires Looking(v) && v.Loaded(dp) && dp.d.kind == T_DIR && D.ENTRY * k < dp.d.size
    modifies v, dp, v.log, v.log.cache
    ensures Looking(v) && v.Loaded(dp) && Same(v) && dp.d == old(dp.d)
    ensures k < |Names(v)[dp.inum].slots| && e == Names(v)[dp.inum].slots[k]
  {
    hide Good, Targets, Elements, LogClean, Owns, Mapped, Filled, OnDisk, Snug, Contents, Decode;
    var data := v.ReadI(dp, D.ENTRY * k, D.ENTRY);
    e := Decode(data);
  }

  /** dirlookup: the slot of the name, -1 for none, and the inode it names. */
  method DirLookup(v: Volume, dp: Inode, name: string) returns (k: int, inum: nat)
    requires Looking(v) && v.Loaded(dp) && dp.d.kind == T_DIR
    modifies v, dp, v.log, v.log.cache
    ensures Looking(v) && v.Loaded(dp) && Same(v) && dp.d == old(dp.d)
    ensures k == D.Find(Names(v)[dp.inum].slots, name, 0) && inum == D.Lookup(Names(v)[dp.inum].slots, name)
  {
    hide Looking, NodeOf;
    ghost var slots := Names(v)[dp.inum].slots;
    SlotCount(v, dp);
    var off := 0;
    while D.ENTRY * off < dp.d.size
      invariant 0 <= off <= |slots| && Looking(v) && v.Loaded(dp) && Same(v) && dp.d == old(dp.d)
      invariant D.Find(slots, name, off) == D.Find(slots, name, 0)
      decreases |slots| - off
    {
      var e := ReadEntry(v, dp, off);
      if e.inum != 0 && e.name == name {
        return off, e.inum;
      }
      off := off + 1;
    }
    return -1, 0;
  }

  lemma SlotCount(v: Volume, dp: Inode)
    requires Looking(v) && v.Loaded(dp) && dp.d.kind == T_DIR
    ensures Names(v)[dp.inum].slots == Slots(Contents(v.View(), dp.d))
    ensures D.ENTRY * |Names(v)[dp.inum].slots| == dp.d.size
  {
    hide Contents, Slots, Owns, Mapped, Filled, OnDisk;
  }

  /** isdirempty: no entry beyond the dots. */
  method IsDirEmpty(v: Volume, ip: Inode) returns (empty: bool)
    requires Looking(v) && v.Loaded(ip) && ip.d.kind == T_DIR && |Names(v)[ip.inum].slots| >= 2
    modifies v, ip, v.log, v.log.cache
    ensures Looking(v) && v.Loaded(ip) && Same(v) && ip.d == old(ip.d)
    ensures empty <==> forall k :: 2 <= k < |Names(v)[ip.inum].slots| ==> Names(v)[ip.inum].slots[k].inum == 0
  {
    hide Looking, NodeOf;
    ghost var slots := Names(v)[ip.inum].slots;
    SlotCount(v, ip);
    var off := 2;
    while D.ENTRY * off < ip.d.size
      invariant 2 <= off <= |slots| && Looking(v) && v.Loaded(ip) && Same(v) && ip.d == old(ip.d)
      invariant forall k :: 2 <= k < off ==> slots[k].inum == 0
      decreases |slots| - off
    {
      var e := ReadEntry(v, ip, off);
      if e.inum != 0 { return false; }
      off := off + 1;
    }
    return true;
  }

  // ---------- entries are written ----------

  /** A directory with an entry in slot k, which may be the one after the last. */
  function Stored(x: D.Node, k: nat, e: D.Dirent): D.Node
    requires k <= |x.slots|
  {
    x.(slots := if k < |x.slots| then x.slots[k := e] else x.slots + [e])
  }

  /** The tree changed at inode j alone, and so did inodes and files. */
  twostate predicate OnlyAt(v: Volume, j: nat)
    reads v, v.log, v.log.cache
  {
    && j < NINODES && v.table == old(v.table)[j := v.table[j]] && v.table[j].nlink == old(v.table)[j].nlink
    && v.table[j].kind == old(v.table)[j].kind && Kept(old(v.View()), old(v.table), v.View(), v.table, {j})
  }

  /** writei of an entry. Short writes and full disks panic, and both only at the end of the directory. */
  method WriteEntry(v: Volume, dp: Inode, k: nat, e: seq<Byte>) returns (halted: bool)
    requires Inside(v) && v.Loaded(dp) && dp.d.kind == T_DIR && v.log.n + 7 < MAXLOG && |e| == D.ENTRY
    requires k <= |Names(v)[dp.inum].slots|
    modifies v, dp, v.log, v.log.cache
    ensures v.Unwritten()
    ensures var n := |old(Names(v))[dp.inum].slots|;
            && (halted <==> k == n && (D.ENTRY * (k + 1) > MAXFILE * BSIZE || Free(old(v.table)) < D.EntryCost(n, k)))
            && (!halted ==> Free(v.table) == Free(old(v.table)) - D.EntryCost(n, k))
    ensures !halted ==> Inside(v) && v.Loaded(dp) && OnlyAt(v, dp.inum)
    ensures !halted ==>
      Names(v) == old(Names(v))[dp.inum := Stored(old(Names(v))[dp.inum], k, Decode(e))]
    ensures !halted ==> v.log.n <= old(v.log.n) + 5
  {
    hide Good, Targets, Elements, LogClean, Owns, Mapped, Filled, OnDisk, Snug, Contents, Decode, FreeBlocks, Spliced;
    hide NodeOf, DirSizes, Kept, Snug, TotalBlocks, BlocksFor;
    SlotCount(v, dp);
    FreeIsRest(v.View(), v.table, v.owner);
    ghost var v0, t0 := v.View(), v.table;
    var r;
    r, halted := v.WriteI(dp, D.ENTRY * k, e);
    if halted || r != D.ENTRY {
      return true;
    }
    OthersStay(v0, t0, v.View(), v.table, dp.inum, D.ENTRY * k, e);
    EntryWritten(v0, t0, v.View(), v.table, dp.inum, k, e);
  }

  lemma OthersStay(v0: Disk, t0: Table, v1: Disk, t1: Table, j: nat, off: nat, src: seq<Byte>)
    requires Spliced(v0, t0, v1, t1, j, off, src)
    ensures t1 == t0[j := t1[j]] && t1[j].kind == t0[j].kind && t1[j].nlink == t0[j].nlink
  {
    hide Contents, Splice;
  }

  /** dirlink: adds the name exactly when it is not there yet. It panics when the directory has no room,
      at its largest or on a full disk. */
  method DirLink(v: Volume, dp: Inode, name: string, inum: nat, pad: seq<Byte>) returns (r: int, halted: bool)
    requires Inside(v) && v.Loaded(dp) && dp.d.kind == T_DIR && v.log.n + 7 < MAXLOG
    requires GoodName(name) && |pad| == 2 && inum < NINODES
    modifies v, dp, v.log, v.log.cache
    ensures v.Unwritten()
    ensures var t, d := old(Names(v)), dp.inum;
            var slots := t[d].slots;
            var found := D.Find(slots, name, 0) >= 0;
            && (halted <==> !found && D.NoPlace(slots, Free(old(v.table)), 0))
            && (!halted ==> Free(v.table) == Free(old(v.table)) - if found then 0 else D.NameCost(slots))
            && (!halted ==> Inside(v) && v.Loaded(dp) && r == if found then -1 else 0)
            && (!halted && found ==> Same(v) && dp.d == old(dp.d))
            && (!halted && !found ==> Names(v) == t[d := L.WithName(t[d], name, inum)])
    ensures !halted ==> OnlyAt(v, dp.inum)
    ensures !halted ==> v.log.n <= old(v.log.n) + 5
  {
    hide Looking, NodeOf, D.EntryCost, TotalBlocks, Decode, Encode, Kept;
    Enough(v);
    var k, other := DirLookup(v, dp, name);
    if k >= 0 {
      NothingChanged(v, {dp.inum});
      assert v.table == v.table[dp.inum := v.table[dp.inum]];
      return -1, false;
    }
    ghost var slots := Names(v)[dp.inum].slots;
    SlotCount(v, dp);
    var off := 0;
    while D.ENTRY * off < dp.d.size
      invariant 0 <= off <= |slots| && Looking(v) && v.Loaded(dp) && Same(v) && dp.d == old(dp.d)
      invariant D.FreeSlot(slots, off) == D.FreeSlot(slots, 0)
      decreases |slots| - off
    {
      var e := ReadEntry(v, dp, off);
      if e.inum == 0 { break; }
      off := off + 1;
    }
    EntryRoundTrip(inum, name, pad);
    InsideIsFree(|slots|, off);
    halted := WriteEntry(v, dp, off, Encode(inum, name, pad));
    return 0, halted;
  }

  lemma Enough(v: Volume)
    requires Looking(v)
    ensures Free(v.table) >= 0
  {
    hide Owns, Mapped, Filled, OnDisk, Snug, FreeBlocks, TotalBlocks, Good;
    FreeIsRest(v.View(), v.table, v.owner);
  }

  /** Writing within the directory needs no block. */
  lemma InsideIsFree(n: nat, k: nat)
    ensures k < n ==> D.EntryCost(n, k) == 0
  {}

  lemma NothingChanged(v: Volume, js: set<nat>)
    requires Looking(v)
    ensures Kept(v.View(), v.table, v.View(), v.table, js)
  {
    hide Contents, Owns, Mapped, Filled, OnDisk;
  }

  /** A new link count, and iupdate. */
  method SetLinks(v: Volume, ip: Inode, n: Half)
    requires Inside(v) && v.Loaded(ip) && v.log.n + 1 < MAXLOG
    modifies v, ip, v.log, v.log.cache
    ensures Inside(v) && v.Loaded(ip) && v.Unwritten() && v.log.n <= old(v.log.n) + 1
    ensures ip.d == old(ip.d).(nlink := n)
    ensures v.table == old(v.table)[ip.inum := ip.d] && v.owner == old(v.owner)
    ensures Names(v) == old(Names(v))[ip.inum := old(Names(v))[ip.inum].(nlink := n)]
    ensures Kept(old(v.View()), old(v.table), v.View(), v.table, {})
    ensures Free(v.table) == Free(old(v.table))
  {
    hide Good, Targets, Elements, LogClean, Owns, Mapped, Filled, OnDisk, Snug, FreeBlocks, NodeOf, SameBytes, SamePtrs;
    hide TotalBlocks, BlocksFor;
    ghost var v0, t0 := v.View(), v.table;
    TotalChanges(t0, ip.inum, ip.d.(nlink := n), NINODES);
    RelinkKeeps(v0, t0, v.owner, ip.inum, n);
    ip.d := ip.d.(nlink := n);
    v.table := v.table[ip.inum := ip.d];
    SnugSame(v0, t0, v0, v.table);
    v.IUpdate(ip, {ip.inum});
    SnugSame(v0, v.table, v.View(), v.table);
    assert {ip.inum} - {ip.inum} == {};
    SameBytesTwice(v0, t0, v0, v.table, v.View(), v.table);
    Relinked(v0, t0, v.View(), ip.inum, n);
  }

  // ---------- paths ----------

  /** The characters of a C string. */
  predicate CharsOk(path: string) { forall i :: 0 <= i < |path| ==> 0 < path[i] as int < 256 }

  lemma {:induction false} SplitChars(p: string, k: nat)
    requires CharsOk(p) && k < |P.Split(p)|
    ensures CharsOk(P.Split(p)[k])
  {
    if |p| > 0 {
      if p[0] == '/' {
        if k > 0 { SplitChars(p[1..], k - 1); }
      } else {
        SplitChars(p[1..], k);
      }
    }
  }

  lemma {:induction false} ProperNames(ss: seq<string>, k: nat)
    requires k < |P.Proper(ss)| && forall i :: 0 <= i < |ss| ==> CharsOk(ss[i])
    ensures GoodName(P.Proper(ss)[k])
  {
    if ss[0] == "" {
      ProperNames(ss[1..], k);
    } else if k > 0 {
      ProperNames(ss[1..], k - 1);
    }
  }

  /** The names along a path fit directory entries. */
  lemma PartsFit(path: string, k: nat)
    requires CharsOk(path) && k < |P.Parts(path)|
    ensures GoodName(P.Parts(path)[k])
  {
    hide P.Split, P.Proper;
    forall i | 0 <= i < |P.Split(path)| ensures CharsOk(P.Split(path)[i]) {
      SplitChars(path, i);
    }
    ProperNames(P.Split(path), k);
  }

  /** namex: what the path stands for in the tree, 0 for nothing. */
  method NameX(v: Volume, path: string, parent: bool) returns (inum: nat, name: string)
    requires Looking(v) && N.Safe(Names(v))
    modifies v, v.log, v.log.cache
    ensures Looking(v) && Same(v) && inum == F.Resolve(Names(v), path, parent)
    ensures inum != 0 ==> N.Live(Names(v), inum)
    ensures inum != 0 && parent ==>
      && Names(v)[inum].kind == D.Dir && |P.Parts(path)| > 0 && name == P.Parts(path)[|P.Parts(path)| - 1]
      && (CharsOk(path) ==> GoodName(name))
  {
    hide Looking, NodeOf, N.Safe, P.Parts, F.Resolve, F.ResolveFrom, CharsOk;
    ghost var t := Names(v);
    F.RootIsLive(t);
    inum := D.ROOTINO;
    var at := 0;
    F.ResolveStart(t, path, parent);
    while true
      invariant 0 <= at <= |path| && Looking(v) && Same(v) && N.Live(t, inum)
      invariant F.Resolve(t, path, parent) == F.ResolveFrom(t, inum, P.Parts(path[at..]), parent)
      invariant P.Parts(path[at..]) != [] ==>
        && |P.Parts(path)| > 0
        && P.Parts(path)[|P.Parts(path)| - 1] == P.Parts(path[at..])[|P.Parts(path[at..])| - 1]
      decreases |path| - at
    {
      ghost var names := P.Parts(path[at..]);
      var next;
      next, name := P.SkipElem(path, at);
      if next == -1 { break; }
      F.ResolveStep(t, inum, names, parent);
      assert names[1..] == P.Parts(path[next..]);
      var kind, j := Step(v, inum, name, parent && next == |path|);
      if kind != D.Dir { return 0, name; }
      if parent && next == |path| {
        if CharsOk(path) { PartsFit(path, |P.Parts(path)| - 1); }
        return;
      }
      if j == 0 { return 0, name; }
      inum, at := j, next;
    }
    F.ResolveEnd(t, inum, parent);
    if parent { inum := 0; }
  }

  /** One round of the loop: ilock, the test for a directory, and the lookup. */
  method Step(v: Volume, inum: nat, name: string, final: bool) returns (kind: D.Kind, j: nat)
    requires Looking(v) && inum < NINODES
    modifies v, v.log, v.log.cache
    ensures Looking(v) && Same(v) && kind == Names(v)[inum].kind
    ensures kind == D.Dir && !final ==> j == D.Lookup(Names(v)[inum].slots, name)
  {
    hide NodeOf, Owns, Mapped, Filled, OnDisk;
    var ip := v.ILock(inum);
    kind, j := KindOf(ip.d.kind), 0;
    KindIs(v.View(), ip.d);
    if kind == D.Dir && !final {
      var k;
      k, j := DirLookup(v, ip, name);
    }
  }

  lemma KindIs(v: Disk, d: DInode)
    ensures NodeOf(v, d).kind == KindOf(d.kind) && (KindOf(d.kind) == D.Dir <==> d.kind == T_DIR)
    ensures NodeOf(v, d).nlink == d.nlink && (KindOf(d.kind) == D.Unused <==> d.kind == 0)
  {}
}
