/** create, link and unlink of sysfile.c as they run: step by step through states that break the
    tree, to an end that keeps it. */
module LinkCalls {
  import opened Directories
  import opened LinkCounts
  import opened Paths
  import opened Namespace
  import opened FileNames

  /** Nobody holds a free inode. */
  ghost predicate CacheLive(t: Tree, c: Cache) {
    forall k :: 0 <= k < NINODE && c[k].ref > 0 ==> InUse(t, c[k].inum)
  }

  predicate InUse(t: Tree, i: nat) { 0 < i < NINODES && t[i].kind != Unused }

  ghost predicate SysOk(t: Tree, c: Cache) {
    TreeOk(t) && CacheOk(c) && CacheLive(t, c)
  }

  /** The references now are those of c0 and these besides. */
  ghost predicate RefsAre(c0: Cache, c: Cache, more: multiset<int>) {
    && CacheOk(c0) && CacheOk(c) && Keeps(c0, c)
    && forall i: nat :: Refs(c, i, NINODE) == Refs(c0, i, NINODE) + more[i]
  }

  lemma RefsNone(c: Cache)
    requires CacheOk(c)
    ensures RefsAre(c, c, multiset{})
  {}

  lemma RefsUp(c0: Cache, c1: Cache, c2: Cache, more: multiset<int>, i: int)
    requires RefsAre(c0, c1, more) && RefsMove(c1, c2, i, -1) && Keeps(c1, c2) && CacheOk(c2)
    ensures RefsAre(c0, c2, if 0 <= i then more + multiset{i} else more)
  {
    hide Refs;
    KeepsMore(c0, c1, c2);
  }

  lemma RefsDown(c0: Cache, c1: Cache, c2: Cache, more: multiset<int>, k: nat, i: nat)
    requires RefsAre(c0, c1, more) && i in more && i < NINODES && Holds(c1, k, i)
    requires CacheOk(c2) && RefsMove(c1, c2, -1, i) && Lowered(c1, c2, k)
    ensures RefsAre(c0, c2, more - multiset{i})
  {
    RefsAlone(c1, k, NINODE);
    if c0[k].ref > 0 {
      RefsAlone(c0, k, NINODE);
    }
    assert more[i] >= 1;
  }

  lemma RefsValid(c0: Cache, c1: Cache, c2: Cache, more: multiset<int>, k: nat)
    requires RefsAre(c0, c1, more) && k < NINODE && c2 == c1[k := c1[k].(valid := true)]
    requires CacheOk(c2) && RefsMove(c1, c2, -1, -1)
    ensures RefsAre(c0, c2, more)
  {
    hide Refs;
  }

  /** iunlockput of an inode that keeps links. */
  method Release(s: Inodes, ghost c0: Cache, ghost more: multiset<int>, k: nat, ghost i: nat)
    requires RefsAre(c0, s.cache, more) && i in more && Live(s.tree, i) && Holds(s.cache, k, i)
    requires CacheLive(s.tree, s.cache)
    modifies s
    ensures s.tree == old(s.tree) && RefsAre(c0, s.cache, more - multiset{i}) && CacheLive(s.tree, s.cache)
    ensures forall l :: 0 <= l < NINODE && l != k ==> s.cache[l] == old(s.cache)[l]
    ensures Lowered(old(s.cache), s.cache, k)
  {
    hide RefsMove, Refs, Keeps;
    ghost var c1 := s.cache;
    s.IPut(k);
    RefsDown(c0, c1, s.cache, more, k, i);
  }

  /** ilock of an inode in use. */
  method Lock(s: Inodes, ghost c0: Cache, ghost more: multiset<int>, k: nat, ghost i: nat)
    requires RefsAre(c0, s.cache, more) && InUse(s.tree, i) && Holds(s.cache, k, i) && CacheLive(s.tree, s.cache)
    modifies s`cache
    ensures RefsAre(c0, s.cache, more) && CacheLive(s.tree, s.cache)
    ensures s.cache == old(s.cache)[k := old(s.cache)[k].(valid := true)]
  {
    hide RefsMove, Refs, Keeps;
    ghost var c1 := s.cache;
    var ok := s.ILock(k);
    RefsValid(c0, c1, s.cache, more, k);
  }

  /** dirlookup, in terms of references. */
  method LookIn(s: Inodes, ghost c0: Cache, ghost more: multiset<int>, dp: nat, name: string, ghost d: nat)
    returns (k: int, off: int, halted: bool)
    requires RefsAre(c0, s.cache, more) && CacheLive(s.tree, s.cache) && Safe(s.tree)
    requires Holds(s.cache, dp, d) && Live(s.tree, d) && s.tree[d].kind == Dir
    modifies s`cache
    ensures off == Find(s.tree[d].slots, name, 0)
    ensures halted ==> !Room(old(s.cache), 1)
    ensures !halted && off == -1 ==> s.cache == old(s.cache)
    ensures !halted && off >= 0 ==> var i := s.tree[d].slots[off].inum;
      && Live(s.tree, i) && Holds(s.cache, k, i) && RefsAre(c0, s.cache,
           more + multiset{i}) && CacheLive(s.tree, s.cache)
      && s.cache == old(s.cache)[k := s.cache[k]] && s.cache[k].ref == old(s.cache)[k].ref + 1 && (k == dp ==> i == d)
  {
    hide RefsMove, Refs, CacheLive, Safe;
    ghost var c1 := s.cache;
    k, off, halted := DirLookup(s, dp, name);
    if !halted && off >= 0 {
      ghost var i := s.tree[d].slots[off].inum;
      StillLive(s.tree, c1, s.cache, i);
      RefsUp(c0, c1, s.cache, more, i);
    }
  }

  // ---------- create ----------

  /** The first free inode from i on; NINODES if there is none. */
  function FirstUnused(t: Tree, i: nat): (r: nat)
    requires i <= NINODES
    ensures i <= r <= NINODES && (r < NINODES ==> t[r].kind == Unused)
    ensures forall j :: i <= j < r ==> t[j].kind != Unused
    decreases NINODES - i
  {
    if i == NINODES || t[i].kind == Unused then i else FirstUnused(t, i + 1)
  }

  /** ialloc: the first free inode, blank but for its kind, with a reference to it. */
  method IAlloc(s: Inodes, kind: Kind) returns (k: int, halted: bool)
    requires CacheOk(s.cache) && CacheLive(s.tree, s.cache) && kind != Unused
    modifies s
    ensures halted ==> FirstUnused(old(s.tree), 1) == NINODES || !Room(old(s.cache), 1)
    ensures !halted ==> var i := FirstUnused(old(s.tree), 1);
      && 0 < i < NINODES && old(s.tree)[i].kind == Unused && s.tree == old(s.tree)[i := Node(kind, 0, [])]
      && Holds(s.cache, k, i) && s.cache[k].valid && s.cache == old(s.cache)[k := s.cache[k]] &&
           old(s.cache)[k].ref == 0
      && CacheOk(s.cache) && RefsMove(old(s.cache), s.cache, i, -1) && Keeps(old(s.cache), s.cache)
  {
    hide Refs, RefsMove;
    var i := 1;
    while i < NINODES
      invariant 1 <= i <= NINODES && FirstUnused(s.tree, i) == FirstUnused(s.tree, 1)
      invariant s.tree == old(s.tree) && s.cache == old(s.cache)
    {
      if s.tree[i].kind == Unused {
        s.tree := s.tree[i := Node(kind, 0, [])];
        k := s.IGet(i);
        if k == -1 {
          FullHasNoRoom(s.cache);
          return -1, true;
        }
        ghost var c1 := s.cache;
        Namespace.RefsStay(s.cache, k, true);
        s.cache := s.cache[k := s.cache[k].(valid := true)];
        StayThen(old(s.cache), c1, s.cache, i);
        return k, false;
      }
      i := i + 1;
    }
    return -1, true;
  }

  lemma StayThen(c0: Cache, c1: Cache, c2: Cache, i: int)
    requires RefsMove(c0, c1, i, -1) && RefsMove(c1, c2, -1, -1)
    ensures RefsMove(c0, c2, i, -1)
  {}

  /** A new inode, linked once, while its directory does not name it yet. */
  function Unnamed(t: Tree, d: nat, i: nat, kind: Kind, slots: seq<Dirent>): Tree
    requires d < NINODES && i < NINODES
  {
    t[d := t[d].(nlink := t[d].nlink + if kind == Dir then 1 else 0)][i := Node(kind, 1, slots)]
  }

  lemma UnnamedIsSafe(t: Tree, d: nat, i: nat, kind: Kind, slots: seq<Dirent>)
    requires Safe(t) && Live(t, d) && t[d].kind == Dir && 0 < i < NINODES && t[i].kind == Unused && kind != Unused
    requires forall e :: e in slots ==> e.inum == i || e.inum == d
    ensures Safe(Unnamed(t, d, i, kind, slots)) && Live(Unnamed(t, d, i, kind, slots), i)
    ensures Live(Unnamed(t, d, i, kind, slots), d)
  {
    var t' := Unnamed(t, d, i, kind, slots);
    forall e, k | 0 < e < NINODES && Linked(t'[e], e) && 0 <= k < |t'[e].slots| && t'[e].slots[k].inum != 0
      ensures Live(t', t'[e].slots[k].inum)
    {
      if e != i {
        assert Live(t, t[e].slots[k].inum);
      } else {
        assert t'[e].slots[k] in slots;
      }
    }
  }

  /** The entries that create writes into the new directory and into its parent. */
  method NameIt(s: Inodes, dp: nat, ip: nat, name: string, kind: Kind, free: int, ghost t: Tree)
    returns (halted: bool)
    requires CacheOk(s.cache) && dp < NINODE && ip < NINODE && kind != Unused
    requires var d, i := s.cache[dp].inum, s.cache[ip].inum;
             && Safe(t) && Live(t, d) && t[d].kind == Dir && 0 < i < NINODES && t[i].kind == Unused
             && Find(t[d].slots, name, 0) == -1 && s.tree == Unnamed(t, d, i, kind, [])
    modifies s
    ensures s.cache == old(s.cache) && (halted <==> NoPlace(t[s.cache[dp].inum].slots, free, DotBlocks(kind)))
    ensures var d, i := s.cache[dp].inum, s.cache[ip].inum;
            !halted ==> s.tree == if kind == Dir then NewDir(t, d, name, i) else NewFile(t, d, name, i)
  {
    hide Safe, Live, NoSlot, NameCost;
    ghost var d, i := s.cache[dp].inum, s.cache[ip].inum;
    LiveRange(t, d);
    CostsSome(t[d].slots);
    UnnamedIsSafe(t, d, i, kind, []);
    var r;
    ghost var slots := [];
    Dots(i, d);
    if kind == Dir {
      r, halted := DirLink(s, ip, ".", s.cache[ip].inum, free);
      if halted { return; }
      assert s.tree == Unnamed(t, d, i, kind, [])[i := Node(kind, 1, [Dirent(i, ".")])];
      assert s.tree == Unnamed(t, d, i, kind, [Dirent(i, ".")]);
      UnnamedIsSafe(t, d, i, kind, [Dirent(i, ".")]);
      r, halted := DirLink(s, ip, "..", s.cache[dp].inum, free - 1);
      slots := [Dirent(i, "."), Dirent(d, "..")];
      assert s.tree == Unnamed(t, d, i, kind, slots);
      UnnamedIsSafe(t, d, i, kind, slots);
    }
    r, halted := DirLink(s, dp, name, s.cache[ip].inum, free - DotBlocks(kind));
  }

  /** The blocks of a new directory. */
  function DotBlocks(kind: Kind): nat { if kind == Dir then 1 else 0 }

  lemma CostsSome(slots: seq<Dirent>)
    ensures NameCost(slots) >= 0
  {}

  lemma Dots(i: nat, d: nat)
    requires i > 0
    ensures Find([], ".", 0) == -1 && Put([], ".", i) == [Dirent(i, ".")]
    ensures Find([Dirent(i, ".")], "..", 0) == -1 && Put([Dirent(i, ".")], "..", d) == [Dirent(i, "."), Dirent(d, "..")]
    ensures !NoSlot([]) && !NoSlot([Dirent(i, ".")]) && NameCost([]) == 1 && NameCost([Dirent(i, ".")]) == 0
  {
    var one := [Dirent(i, ".")];
    assert FreeSlot(one, 0) == 1;
    assert FreeSlot([], 0) == 0;
  }

  lemma LiveRange(t: Tree, d: nat)
    requires Live(t, d)
    ensures 0 < d < NINODES && InUse(t, d)
  {}

  /** namei or nameiparent of an absolute path, in terms of references. */
  method Locate(s: Inodes, path: string, parent: bool, ghost c0: Cache, ghost more: multiset<int>)
    returns (k: int, name: string, halted: bool)
    requires Safe(s.tree) && CacheLive(s.tree, s.cache) && RefsAre(c0, s.cache, more) && Absolute(path)
    modifies s
    ensures s.tree == old(s.tree) && (halted ==> !Room(c0, 2 + |more|))
    ensures !halted ==> var i := Resolve(s.tree, path, parent);
      && CacheLive(s.tree, s.cache) && Keeps(old(s.cache), s.cache) && CacheOk(s.cache)
      && (if i == 0 then k == -1 else Live(s.tree, i) && Holds(s.cache, k, i))
      && (i != 0 && parent ==> s.tree[i].kind == Dir && |Parts(path)| > 0 && name == Parts(path)[|Parts(path)| - 1])
      && RefsAre(c0, s.cache, if i == 0 then more else more + multiset{i})
  {
    hide RefsMove, Refs, CacheOk, Parts, Safe, Resolve, CacheLive;
    ghost var c1 := s.cache;
    k, name, halted := Namex(s, path, parent);
    RoomBeside(c0, c1, more);
    if !halted {
      ghost var i := Resolve(s.tree, path, parent);
      StillLive(s.tree, c1, s.cache, if i == 0 then -1 else i);
      RefsUp(c0, c1, s.cache, more, if i == 0 then -1 else i);
    }
  }

  /** A call that holds `more` leaves room for all but so many. */
  lemma RoomBeside(c0: Cache, c: Cache, more: multiset<int>)
    requires RefsAre(c0, c, more)
    ensures |Referenced(c)| <= |Referenced(c0)| + |more|
  {
    hide Refs, Referenced;
    var inodes := set i: nat | i in more;
    RoomLeft(c0, c, inodes);
    SetInMultiset(inodes, more);
  }

  lemma {:induction false} SetInMultiset(s: set<nat>, m: multiset<int>)
    requires forall i :: i in s ==> i in m
    ensures |s| <= |m|
    decreases s
  {
    if s != {} {
      var x :| x in s;
      SetInMultiset(s - {x}, m - multiset{x});
    }
  }

  lemma StillLive(t: Tree, c1: Cache, c2: Cache, i: int)
    requires CacheOk(c2) && CacheLive(t, c1) && RefsMove(c1, c2, i, -1) && (i >= 0 ==> Live(t, i))
    ensures CacheLive(t, c2)
  {
    forall k | 0 <= k < NINODE && c2[k].ref > 0 ensures InUse(t, c2[k].inum) {
      RefsAlone(c2, k, NINODE);
      if c2[k].inum != i {
        RefsSome(c1, c2[k].inum, NINODE);
      }
    }
  }

  /** What create makes of tree t and references c: */
  ghost predicate Created(t: Tree, c: Cache, t': Tree, c': Cache, path: string, kind: Kind, k: int) {
    var d, n := Resolve(t, path, true), |Parts(path)|;
    if d == 0 || d >= NINODES || n == 0 then k == -1 && t' == t && RefsAre(c, c', multiset{})
    else
      var name := Parts(path)[n - 1];
      var j := Lookup(t[d].slots, name);
      if j != 0 then
        && t' == t && j < NINODES
        && if kind == File && t[j].kind == File then Holds(c', k, j) && RefsAre(c, c', multiset{j})
           else k == -1 && RefsAre(c, c', multiset{})
      else
        var i := FirstUnused(t, 1);
        && 0 < i < NINODES && Holds(c', k, i) && RefsAre(c, c', multiset{i}) && !NoSlot(t[d].slots)
        && t' == if kind == Dir then NewDir(t, d, name, i) else NewFile(t, d, name, i)
  }

  /** create: an existing file for a file, or a new inode under a new name; -1 if the directory is
      not there or the name is taken. */
  method Create(s: Inodes, path: string, kind: Kind, free: int) returns (k: int, halted: bool)
    requires SysOk(s.tree, s.cache) && Absolute(path) && kind != Unused
    modifies s
    ensures !halted ==> SysOk(s.tree, s.cache) && Created(old(s.tree), old(s.cache), s.tree, s.cache, path, kind, k)
    ensures !halted && s.tree != old(s.tree) ==> !FullParent(old(s.tree), path, free, DotBlocks(kind))
    ensures !halted ==> -1 <= k < NINODE && (k >= 0 ==> Live(s.tree, s.cache[k].inum) && s.cache[k].valid)
    ensures halted ==>
      || !Room(old(s.cache), 2) || FirstUnused(old(s.tree), 1) == NINODES
      || FullParent(old(s.tree), path, free, DotBlocks(kind))
  {
    hide RefsMove, Refs, CacheOk, Parts, Safe, Resolve, CacheLive, TreeOk, RefsAre, Keeps, Live, Unique, Referenced;
    hide NoSlot;
    ghost var t, c0 := s.tree, s.cache;
    TreesAreSafe(t);
    RefsNone(c0);
    var dp, name;
    dp, name, halted := Locate(s, path, true, c0, multiset{});
    if halted || dp == -1 { return -1, halted; }
    ghost var d := Resolve(t, path, true);
    LiveRange(t, d);
    assert multiset{} + multiset{d} == multiset{d};
    Lock(s, c0, multiset{d}, dp, d);
    var ip, off;
    RoomBeside(c0, s.cache, multiset{d});
    ip, off, halted := LookIn(s, c0, multiset{d}, dp, name, d);
    if halted { return -1, true; }
    if off >= 0 {
      ghost var j := t[d].slots[off].inum;
      Release(s, c0, multiset{d} + multiset{j}, dp, d);
      assert multiset{d} + multiset{j} - multiset{d} == multiset{j};
      LiveRange(t, j);
      Lock(s, c0, multiset{j}, ip, j);
      RefsOk(c0, s.cache, multiset{j});
      if kind == File && s.tree[s.cache[ip].inum].kind == File { return ip, false; }
      Release(s, c0, multiset{j}, ip, j);
      assert multiset{j} - multiset{j} == multiset{};
      RefsOk(c0, s.cache, multiset{});
      return -1, false;
    }
    k, halted := CreateNew(s, c0, dp, name, kind, free, d);
  }

  /** create once the name is known to be new. */
  method CreateNew(s: Inodes, ghost c0: Cache, dp: nat, name: string, kind: Kind, free: int,
                   ghost d: nat) returns (ip: int, halted: bool)
    requires TreeOk(s.tree) && CacheLive(s.tree, s.cache) && RefsAre(c0, s.cache, multiset{d}) && kind != Unused
    requires Holds(s.cache, dp, d) && Live(s.tree, d) && s.tree[d].kind == Dir && Find(s.tree[d].slots, name, 0) == -1
    modifies s
    ensures !halted ==>
      && SysOk(s.tree, s.cache)
      && var t, i := old(s.tree), FirstUnused(old(s.tree), 1);
         && 0 < i < NINODES && Holds(s.cache, ip, i) && RefsAre(c0, s.cache, multiset{i}) && Live(s.tree, i)
         && s.tree == (if kind == Dir then NewDir(t, d, name, i) else NewFile(t, d, name, i))
         && s.cache[ip].valid && !NoPlace(t[d].slots, free, DotBlocks(kind))
    ensures halted ==>
      || !Room(c0, 2) || FirstUnused(old(s.tree), 1) == NINODES
      || NoPlace(old(s.tree)[d].slots, free, DotBlocks(kind))
  {
    hide RefsMove, Refs, CacheOk, Safe, CacheLive, TreeOk, RefsAre, Keeps, Live, Unique, Referenced, NoSlot;
    ghost var t := s.tree;
    RoomBeside(c0, s.cache, multiset{d});
    LiveRange(t, d);
    TreesAreSafe(t);
    RefsOk(c0, s.cache, multiset{d});
    ghost var c2 := s.cache;
    ip, halted := IAlloc(s, kind);
    if halted { return -1, true; }
    ghost var i := FirstUnused(t, 1);
    RefsUp(c0, c2, s.cache, multiset{d}, i);
    s.tree := s.tree[s.cache[ip].inum := s.tree[s.cache[ip].inum].(nlink := 1)];
    if kind == Dir {
      s.tree := s.tree[s.cache[dp].inum := s.tree[s.cache[dp].inum].(nlink := s.tree[s.cache[dp].inum].nlink + 1)];
    }
    assert s.tree == Unnamed(t, d, i, kind, []);
    halted := NameIt(s, dp, ip, name, kind, free, t);
    if halted { return -1, true; }
    NewIsOk(t, s.tree, c2, s.cache, d, name, i, kind, ip);
    assert multiset{d} + multiset{i} == multiset{d, i};
    Release(s, c0, multiset{d, i}, dp, d);
    assert multiset{d, i} - multiset{d} == multiset{i};
    RefsOk(c0, s.cache, multiset{i});
    return ip, false;
  }

  lemma RefsOk(c0: Cache, c: Cache, more: multiset<int>)
    requires RefsAre(c0, c, more)
    ensures CacheOk(c)
  {}

  lemma NewIsOk(t: Tree, t': Tree, c: Cache, c': Cache, d: nat, name: string, i: nat, kind: Kind, ip: nat)
    requires TreeOk(t) && CacheLive(t, c) && Live(t, d) && t[d].kind == Dir && Find(t[d].slots, name, 0) == -1
    requires 0 < i < NINODES && t[i].kind == Unused && kind != Unused
    requires t' == if kind == Dir then NewDir(t, d, name, i) else NewFile(t, d, name, i)
    requires ip < NINODE && c' == c[ip := c'[ip]] && c'[ip].inum == i
    ensures TreeOk(t') && CacheLive(t', c') && Live(t', d) && Live(t', i)
  {
    hide TreeOk, CacheLive, Find, CanName, Put;
    DotsFirst(t, d, name);
    CanNameNew(t, d, name, i);
    LiveRange(t, d);
    if kind == Dir {
      NewDirKeeps(t, d, name, i);
    } else {
      NewFileKeeps(t, d, name, i);
    }
    NewIsLive(t, t', c, c', d, i, ip);
  }

  lemma CanNameNew(t: Tree, d: nat, name: string, i: nat)
    requires TreeOk(t) && Live(t, d) && t[d].kind == Dir && Find(t[d].slots, name, 0) == -1
    requires name != "." && name != ".." && 0 < i < NINODES && t[i].kind == Unused
    ensures CanName(t, d, name, i) && i != d
  {
    hide DirOk, CountOk, Find;
  }

  lemma NewIsLive(t: Tree, t': Tree, c: Cache, c': Cache, d: nat, i: nat, ip: nat)
    requires CacheLive(t, c) && d < NINODES && i < NINODES && 0 < i && t'[i].kind != Unused && t'[d].kind == t[d].kind
    requires forall j :: 0 <= j < NINODES && j != d && j != i ==> t'[j] == t[j]
    requires ip < NINODE && c' == c[ip := c'[ip]] && c'[ip].inum == i
    ensures CacheLive(t', c')
  {
    forall k | 0 <= k < NINODE && c'[k].ref > 0 ensures InUse(t', c'[k].inum) {
      if k != ip {
        assert InUse(t, c[k].inum);
      }
    }
  }

  // ---------- unlink ----------

  /** The tree after the name in slot k of directory d is gone; the inode too, if that was its last
      link and nobody has it open. */
  function UnlinkedTree(t: Tree, c: Cache, d: nat, k: nat): Tree
    requires d < NINODES && k < |t[d].slots| && t[d].slots[k].inum < NINODES
  {
    var i := t[d].slots[k].inum;
    var t' := Removed(t, d, k);
    if t'[i].nlink == 0 && Refs(c, i, NINODE) == 0 then t'[i := BLANK] else t'
  }

  /** What unlink makes of tree t and references c. */
  ghost predicate Unlinked(t: Tree, c: Cache, t': Tree, c': Cache, path: string, r: int) {
    && RefsAre(c, c', multiset{})
    && var d, n := Resolve(t, path, true), |Parts(path)|;
       var name := if n == 0 then "" else Parts(path)[n - 1];
       var k := if d < NINODES then Find(t[d].slots, name, 0) else -1;
       if d != 0 && k >= 2 && t[d].slots[k].inum < NINODES && !FullDir(t, t[d].slots[k].inum)
       then r == 0 && t' == UnlinkedTree(t, c, d, k)
       else r == -1 && t' == t
  }

  ghost predicate FullDir(t: Tree, i: nat)
    requires i < NINODES
  {
    t[i].kind == Dir && exists k :: 2 <= k < |t[i].slots| && t[i].slots[k].inum != 0
  }

  /** unlink once the name is known to go. */
  method UnlinkAt(s: Inodes, ghost c0: Cache, dp: nat, ip: nat, off: nat, ghost d: nat, ghost i: nat)
    requires TreeOk(s.tree) && CacheLive(s.tree, s.cache) && RefsAre(c0, s.cache, multiset{d, i})
    requires CanRemove(s.tree, d, off) && s.tree[d].slots[off].inum == i && Live(s.tree, d)
    requires Holds(s.cache, dp, d) && Holds(s.cache, ip, i) && dp != ip && s.cache[ip].valid
    modifies s
    ensures SysOk(s.tree, s.cache) && s.tree == UnlinkedTree(old(s.tree), c0, d, off)
    ensures RefsAre(c0, s.cache, multiset{})
  {
    hide RefsMove, Refs, CacheOk, CacheLive, TreeOk, RefsAre, Keeps, Unique;
    ghost var t := s.tree;
    RemoveFacts(t, d, off);
    RemoveKeeps(t, d, off);
    hide CanRemove;
    var slots := s.tree[s.cache[dp].inum].slots[off := EMPTY];
    s.tree := s.tree[s.cache[dp].inum := s.tree[s.cache[dp].inum].(slots := slots)];
    if s.tree[s.cache[ip].inum].kind == Dir {
      s.tree := s.tree[s.cache[dp].inum := s.tree[s.cache[dp].inum].(nlink := s.tree[s.cache[dp].inum].nlink - 1)];
    }
    SameKinds(t, s.tree, s.cache);
    Release(s, c0, multiset{d, i}, dp, d);
    assert multiset{d, i} - multiset{d} == multiset{i};
    ghost var t1 := s.tree;
    s.tree := s.tree[s.cache[ip].inum := s.tree[s.cache[ip].inum].(nlink := s.tree[s.cache[ip].inum].nlink - 1)];
    SameKinds(t1, s.tree, s.cache);
    assert s.tree == Removed(t, d, off);
    LastPut(s, c0, ip, i);
  }

  lemma SameKinds(t: Tree, t': Tree, c: Cache)
    requires CacheLive(t, c) && forall i :: 0 <= i < NINODES ==> t'[i].kind == t[i].kind
    ensures CacheLive(t', c)
  {
    forall k | 0 <= k < NINODE && c[k].ref > 0 ensures InUse(t', c[k].inum) {
      assert InUse(t, c[k].inum);
    }
  }

  /** iput of our own reference, the last of this call. */
  method LastPut(s: Inodes, ghost c0: Cache, k: nat, ghost i: nat)
    requires TreeOk(s.tree) && CacheLive(s.tree, s.cache) && RefsAre(c0, s.cache, multiset{i})
    requires Holds(s.cache, k, i) && s.cache[k].valid && 0 < i < NINODES && i != ROOTINO
    modifies s
    ensures SysOk(s.tree, s.cache) && RefsAre(c0, s.cache, multiset{})
    ensures s.tree == if old(s.tree)[i].nlink == 0 && Refs(c0, i, NINODE) == 0 then old(s.tree)[i := BLANK]
                      else old(s.tree)
  {
    hide RefsMove, Refs, CacheOk, TreeOk, Keeps, RefsAre;
    ghost var c1, t := s.cache, s.tree;
    RefsOk(c0, c1, multiset{i});
    OwnRef(c0, c1, k, i);
    s.IPut(k);
    RefsDown(c0, c1, s.cache, multiset{i}, k, i);
    assert multiset{i} - multiset{i} == multiset{};
    if t[i].nlink == 0 {
      ReclaimKeeps(t, i);
    }
    LiveAfter(t, c1, s.cache, k, i);
  }

  lemma OwnRef(c0: Cache, c1: Cache, k: nat, i: nat)
    requires RefsAre(c0, c1, multiset{i}) && Holds(c1, k, i)
    ensures c1[k].ref == Refs(c0, i, NINODE) + 1
  {
    RefsAlone(c1, k, NINODE);
  }

  lemma LiveAfter(t: Tree, c1: Cache, c2: Cache, k: nat, i: nat)
    requires CacheLive(t, c1) && CacheOk(c1) && Holds(c1, k, i) && Lowered(c1, c2, k) && i < NINODES
    ensures CacheLive(t, c2) && (c2[k].ref == 0 ==> CacheLive(t[i := BLANK], c2))
  {
    forall l | 0 <= l < NINODE && c2[l].ref > 0 ensures InUse(t, c2[l].inum) && (c2[k].ref == 0 ==> c2[l].inum != i) {
      assert InUse(t, c1[l].inum);
    }
  }

  /** A link count as the short that holds it. */
  function AsShort(n: int): (r: int)
    ensures -0x8000 <= r < 0x8000 && (n - r) % 0x1_0000 == 0
  {
    (n + 0x8000) % 0x1_0000 - 0x8000
  }

  /** The name is there, and its inode has more links than a short counts. */
  predicate Overdrawn(t: Tree, path: string) {
    var d, n := Resolve(t, path, true), |Parts(path)|;
    0 < d < NINODES && n > 0 &&
    var k := Find(t[d].slots, Parts(path)[n - 1], 0);
    k >= 2 && t[d].slots[k].inum < NINODES && AsShort(t[t[d].slots[k].inum].nlink) < 1
  }

  /** sys_unlink: the name goes, unless it is a dot, missing, or that of a directory with entries. It panics
      for a count below 1. */
  method Unlink(s: Inodes, path: string) returns (r: int, halted: bool)
    requires SysOk(s.tree, s.cache) && Absolute(path)
    modifies s
    ensures !halted ==> SysOk(s.tree, s.cache) && Unlinked(old(s.tree), old(s.cache), s.tree, s.cache, path, r)
    ensures halted ==> !Room(old(s.cache), 2) || Overdrawn(old(s.tree), path)
    ensures Overdrawn(old(s.tree), path) ==> halted
  {
    hide RefsMove, Refs, CacheOk, Parts, Safe, Resolve, CacheLive, TreeOk, RefsAre, Keeps, Live, Unique, Referenced;
    hide AsShort;
    ghost var t, c0 := s.tree, s.cache;
    TreesAreSafe(t);
    RefsNone(c0);
    var dp, name;
    dp, name, halted := Locate(s, path, true, c0, multiset{});
    if halted { return -1, true; }
    if dp == -1 { return -1, false; }
    ghost var d := Resolve(t, path, true);
    LiveRange(t, d);
    DotsFirst(t, d, name);
    assert multiset{} + multiset{d} == multiset{d};
    Lock(s, c0, multiset{d}, dp, d);
    if name == "." || name == ".." {
      Release(s, c0, multiset{d}, dp, d);
      Balanced(c0, s.cache, d);
      return -1, false;
    }
    var ip, off;
    RoomBeside(c0, s.cache, multiset{d});
    ip, off, halted := LookIn(s, c0, multiset{d}, dp, name, d);
    if halted { return -1, true; }
    if off == -1 {
      Release(s, c0, multiset{d}, dp, d);
      Balanced(c0, s.cache, d);
      return -1, false;
    }
    ghost var i := t[d].slots[off].inum;
    LiveRange(t, i);
    assert multiset{d} + multiset{i} == multiset{d, i};
    Lock(s, c0, multiset{d, i}, ip, i);
    if AsShort(s.tree[s.cache[ip].inum].nlink) < 1 { return -1, true; }
    if s.tree[s.cache[ip].inum].kind == Dir {
      LinkedDir(t, i);
      var empty := IsDirEmpty(s, s.cache[ip].inum);
      if !empty {
        Release(s, c0, multiset{d, i}, ip, i);
        assert multiset{d, i} - multiset{i} == multiset{d};
        Release(s, c0, multiset{d}, dp, d);
        Balanced(c0, s.cache, d);
        return -1, false;
      }
    }
    Removable(t, d, off);
    UnlinkAt(s, c0, dp, ip, off, d, i);
    return 0, false;
  }

  lemma Balanced(c0: Cache, c: Cache, d: int)
    requires RefsAre(c0, c, multiset{d} - multiset{d})
    ensures RefsAre(c0, c, multiset{}) && CacheOk(c)
  {
    assert multiset{d} - multiset{d} == multiset{};
  }

  /** The dots stand in slots 0 and 1, and everything else behind them. */
  lemma DotsFirst(t: Tree, d: nat, name: string)
    requires TreeOk(t) && Live(t, d) && t[d].kind == Dir
    ensures name == "." ==> Find(t[d].slots, name, 0) == 0
    ensures name == ".." ==> Find(t[d].slots, name, 0) == 1
    ensures name != "." && name != ".." ==> Find(t[d].slots, name, 0) == -1 || Find(t[d].slots, name, 0) >= 2
  {
    hide Ord, Sub, CountOk, SlotOk, Unique;
    assert DirOk(t, d);
  }

  lemma LinkedDir(t: Tree, i: nat)
    requires TreeOk(t) && Live(t, i) && t[i].kind == Dir
    ensures |t[i].slots| >= 2
  {
    hide Ord, Sub, CountOk, SlotOk, Unique;
    assert DirOk(t, i);
  }

  lemma Removable(t: Tree, d: nat, k: nat)
    requires TreeOk(t) && Live(t, d) && t[d].kind == Dir && 2 <= k < |t[d].slots| && 0 < t[d].slots[k].inum < NINODES
    requires !FullDir(t, t[d].slots[k].inum)
    ensures CanRemove(t, d, k) && t[d].slots[k].inum != d
  {
    NamedHasLinks(t, d, k);
    hide Ord, Sub, CountOk, SlotOk, Unique, TreeOk;
    assert CanRemove(t, d, k);
    RemoveFacts(t, d, k);
  }

  // ---------- link ----------

  /** What link makes of tree t and references c: one more name for a file, or nothing at all. */
  ghost predicate LinkDone(t: Tree, c: Cache, t': Tree, c': Cache, from: string, to: string, r: int) {
    && RefsAre(c, c', multiset{})
    && var i, d, n := Resolve(t, from, false), Resolve(t, to, true), |Parts(to)|;
       var name := if n == 0 then "" else Parts(to)[n - 1];
       if 0 < i < NINODES && t[i].kind != Dir && 0 < d < NINODES && Find(t[d].slots, name, 0) == -1
       then r == 0 && t' == MoreLinks(t, d, name, i) && !NoSlot(t[d].slots)
       else r == -1 && t' == t
  }

  /** One link more than there are names, until dirlink has run. */
  lemma OneLinkMore(t: Tree, c: Cache, i: nat, path: string)
    requires TreeOk(t) && Live(t, i) && t[i].kind != Dir && CacheLive(t, c)
    ensures var t1 := t[i := t[i].(nlink := t[i].nlink + 1)];
            && Safe(t1) && Live(t1, i) && CacheLive(t1, c) && Resolve(t1, path, true) == Resolve(t, path, true)
  {
    hide TreeOk, CacheLive, Parts;
    TreesAreSafe(t);
    var t1 := t[i := t[i].(nlink := t[i].nlink + 1)];
    SameWalk(t, t1, ROOTINO, Parts(path));
    SameKinds(t, t1, c);
    forall d, k | 0 < d < NINODES && Linked(t1[d], d) && 0 <= k < |t1[d].slots| && t1[d].slots[k].inum != 0
      ensures Live(t1, t1[d].slots[k].inum)
    {
      assert Live(t, t[d].slots[k].inum);
    }
  }

  lemma LinkKeeps(t: Tree, c: Cache, d: nat, name: string, i: nat)
    requires TreeOk(t) && CacheLive(t, c) && Live(t, i) && t[i].kind != Dir && Live(t, d) && t[d].kind == Dir
    requires Find(t[d].slots, name, 0) == -1
    ensures TreeOk(MoreLinks(t, d, name, i)) && CacheLive(MoreLinks(t, d, name, i), c)
    ensures Live(MoreLinks(t, d, name, i), d) && Live(MoreLinks(t, d, name, i), i)
  {
    hide TreeOk, CacheLive, Put, Find, CanName;
    LinkFits(t, d, name, i);
    MoreLinksKeeps(t, d, name, i);
    SameKinds(t, MoreLinks(t, d, name, i), c);
  }

  lemma LinkFits(t: Tree, d: nat, name: string, i: nat)
    requires TreeOk(t) && Live(t, i) && t[i].kind != Dir && Live(t, d) && t[d].kind == Dir
    requires Find(t[d].slots, name, 0) == -1
    ensures CanName(t, d, name, i) && t[i].kind == File && i != d
  {
    hide DirOk, CountOk;
    DotsFirst(t, d, name);
  }

  /** The rollback of sys_link. */
  method Bad(s: Inodes, ghost c0: Cache, ip: nat, ghost i: nat, ghost t: Tree)
    requires TreeOk(t) && Live(t, i) && CacheLive(s.tree, s.cache) && RefsAre(c0, s.cache, multiset{i})
    requires s.tree == t[i := t[i].(nlink := t[i].nlink + 1)] && Holds(s.cache, ip, i)
    modifies s
    ensures s.tree == t && SysOk(s.tree, s.cache) && RefsAre(c0, s.cache, multiset{})
  {
    hide RefsMove, Refs, CacheOk, CacheLive, TreeOk, RefsAre, Keeps;
    Lock(s, c0, multiset{i}, ip, i);
    ghost var t1 := s.tree;
    s.tree := s.tree[s.cache[ip].inum := s.tree[s.cache[ip].inum].(nlink := s.tree[s.cache[ip].inum].nlink - 1)];
    SameKinds(t1, s.tree, s.cache);
    assert s.tree == t;
    Release(s, c0, multiset{i}, ip, i);
    Balanced(c0, s.cache, i);
  }

  /** sys_link: counts the link first, and takes it back if the new name cannot be made. */
  method Link(s: Inodes, from: string, to: string, free: int) returns (r: int, halted: bool)
    requires SysOk(s.tree, s.cache) && Absolute(from) && Absolute(to)
    modifies s
    ensures !halted ==> SysOk(s.tree, s.cache) && LinkDone(old(s.tree), old(s.cache), s.tree, s.cache, from, to, r)
    ensures !halted && s.tree != old(s.tree) ==> !FullParent(old(s.tree), to, free, 0)
    ensures halted ==> !Room(old(s.cache), 3) || FullParent(old(s.tree), to, free, 0)
  {
    hide RefsMove, Refs, CacheOk, Parts, Safe, Resolve, CacheLive, TreeOk, RefsAre, Keeps, Live, Unique, Find, Put;
    hide Referenced, NoSlot;
    ghost var t, c0 := s.tree, s.cache;
    TreesAreSafe(t);
    RefsNone(c0);
    var ip, dp, name;
    ip, name, halted := Locate(s, from, false, c0, multiset{});
    if halted { return -1, true; }
    if ip == -1 { return -1, false; }
    ghost var i := Resolve(t, from, false);
    LiveRange(t, i);
    assert multiset{} + multiset{i} == multiset{i};
    Lock(s, c0, multiset{i}, ip, i);
    if s.tree[s.cache[ip].inum].kind == Dir {
      Release(s, c0, multiset{i}, ip, i);
      Balanced(c0, s.cache, i);
      return -1, false;
    }
    OneLinkMore(t, s.cache, i, to);
    s.tree := s.tree[s.cache[ip].inum := s.tree[s.cache[ip].inum].(nlink := s.tree[s.cache[ip].inum].nlink + 1)];
    ghost var t1, c1 := s.tree, s.cache;
    dp, name, halted := Locate(s, to, true, c0, multiset{i});
    if halted { return -1, true; }
    KeepsOne(c1, s.cache, ip, i);
    if dp == -1 {
      Bad(s, c0, ip, i, t);
      return -1, false;
    }
    ghost var d := Resolve(t, to, true);
    LiveRange(t1, d);
    StillLiveBefore(t, t1, d, i);
    assert multiset{i} + multiset{d} == multiset{i, d};
    Lock(s, c0, multiset{i, d}, dp, d);
    RefsOk(c0, s.cache, multiset{i, d});
    ghost var c2 := s.cache;
    RoomBeside(c0, s.cache, multiset{i, d});
    r, halted := DirLink(s, dp, name, s.cache[ip].inum, free);
    if halted { return -1, true; }
    assert multiset{i, d} - multiset{d} == multiset{i};
    if r < 0 {
      SameRefs(s.tree, c0, c2, s.cache, multiset{i, d});
      KeepsOne(c2, s.cache, dp, d);
      KeepsOne(c2, s.cache, ip, i);
      Release(s, c0, multiset{i, d}, dp, d);
      Bad(s, c0, ip, i, t);
      return -1, false;
    }
    assert s.tree == MoreLinks(t, d, name, i);
    SameKinds(t1, t, s.cache);
    LinkKeeps(t, s.cache, d, name, i);
    Release(s, c0, multiset{i, d}, dp, d);
    Release(s, c0, multiset{i}, ip, i);
    Balanced(c0, s.cache, i);
    return 0, false;
  }

  lemma KeepsOne(c1: Cache, c2: Cache, k: nat, i: nat)
    requires Keeps(c1, c2) && Holds(c1, k, i)
    ensures Holds(c2, k, i)
  {}

  lemma StillLiveBefore(t: Tree, t1: Tree, d: nat, i: nat)
    requires i < NINODES && t1 == t[i := t[i].(nlink := t[i].nlink + 1)] && Live(t1, d) && t1[d].kind == Dir
    requires t[i].kind != Dir
    ensures d != i && Live(t, d) && t[d].kind == Dir
  {}

  lemma SameRefs(t: Tree, c0: Cache, c1: Cache, c2: Cache, more: multiset<int>)
    requires RefsAre(c0, c1, more) && RefsMove(c1, c2, -1, -1) && Keeps(c1, c2) && CacheOk(c2) && CacheLive(t, c1)
    ensures RefsAre(c0, c2, more) && CacheLive(t, c2)
  {
    RefsUp(c0, c1, c2, more, -1);
    StillLive(t, c1, c2, -1);
  }
}
