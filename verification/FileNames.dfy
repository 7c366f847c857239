/** The operations on names: dirlookup, dirlink, isdirempty and namex of fs.c and sysfile.c. */
module FileNames {
  import Blocks
  import Layout
  import opened Directories
  import opened LinkCounts
  import opened Paths
  import opened Namespace

  /** Entry k of the cache is a reference to inode i. */
  predicate Holds(c: Cache, k: int, i: nat) {
    0 <= k < NINODE && c[k].ref > 0 && c[k].inum == i
  }

  /** Every reference that was there is still one, and loaded if it was. */
  ghost predicate Keeps(c: Cache, c': Cache) {
    forall k :: 0 <= k < NINODE && c[k].ref > 0 ==> Holds(c', k, c[k].inum) && (c[k].valid ==> c'[k].valid)
  }

  /** Entry k lost one reference, and otherwise stays as long as it has any. */
  predicate Lowered(c: Cache, c': Cache, k: nat)
    requires k < NINODE
  {
    && c[k].ref > 0 && c' == c[k := c'[k]] && c'[k].inum == c[k].inum && c'[k].ref == c[k].ref - 1
    && (c'[k].ref > 0 ==> c'[k].valid == c[k].valid)
  }

  /** dirlookup in the directory of entry dp: the slot of the name, -1 for none, and a reference to
      what it names; a full cache halts. */
  method DirLookup(s: Inodes, dp: nat, name: string) returns (k: int, off: int, halted: bool)
    requires CacheOk(s.cache) && Safe(s.tree) && dp < NINODE
    requires Live(s.tree, s.cache[dp].inum) && s.tree[s.cache[dp].inum].kind == Dir
    modifies s`cache
    ensures CacheOk(s.cache) && Keeps(old(s.cache), s.cache)
    ensures off == Find(s.tree[old(s.cache)[dp].inum].slots, name, 0)
    ensures halted ==> off >= 0 && s.cache == old(s.cache) && !Room(s.cache, 1)
    ensures !halted && off == -1 ==> k == -1 && s.cache == old(s.cache)
    ensures !halted && off >= 0 ==>
      var i := s.tree[old(s.cache)[dp].inum].slots[off].inum;
      && Live(s.tree, i) && Holds(s.cache, k, i) && RefsMove(old(s.cache), s.cache, i, -1)
      && s.cache == old(s.cache)[k := s.cache[k]] && s.cache[k].ref == old(s.cache)[k].ref + 1
      && (old(s.cache)[k].ref > 0 ==> s.cache[k].valid == old(s.cache)[k].valid)
  {
    hide RefsMove, Refs;
    var slots := s.tree[s.cache[dp].inum].slots;
    off := 0;
    while off < |slots|
      invariant 0 <= off <= |slots| && Find(slots, name, off) == Find(slots, name, 0) && s.cache == old(s.cache)
    {
      if slots[off].inum != 0 && slots[off].name == name {
        k := s.IGet(slots[off].inum);
        if k == -1 { FullHasNoRoom(s.cache); }
        return k, off, k == -1;
      }
      off := off + 1;
    }
    return -1, -1, false;
  }

  /** isdirempty: no entry beyond the dots. */
  method IsDirEmpty(s: Inodes, i: nat) returns (empty: bool)
    requires i < NINODES && |s.tree[i].slots| >= 2
    ensures empty <==> forall k :: 2 <= k < |s.tree[i].slots| ==> s.tree[i].slots[k].inum == 0
  {
    var off := 2;
    while off < |s.tree[i].slots|
      invariant 2 <= off <= |s.tree[i].slots| && forall k :: 2 <= k < off ==> s.tree[i].slots[k].inum == 0
    {
      if s.tree[i].slots[off].inum != 0 { return false; }
      off := off + 1;
    }
    return true;
  }

  /** dirlink: adds the name exactly when it is not there yet. It panics when the directory cannot grow:
      at the largest size, or when writei needs more blocks than the disk has free. */
  method DirLink(s: Inodes, dp: nat, name: string, inum: nat, free: int) returns (r: int, halted: bool)
    requires CacheOk(s.cache) && Safe(s.tree) && dp < NINODE
    requires Live(s.tree, s.cache[dp].inum) && s.tree[s.cache[dp].inum].kind == Dir
    modifies s
    ensures CacheOk(s.cache) && Keeps(old(s.cache), s.cache)
    ensures var d := old(s.cache)[dp].inum;
            var found := Find(old(s.tree)[d].slots, name, 0) >= 0;
            && (halted ==> s.cache == old(s.cache) && s.tree == old(s.tree))
            && (halted && found ==> !Room(s.cache, 1))
            && (!found ==> (halted <==> NoPlace(old(s.tree)[d].slots, free, 0)))
            && (!halted ==> r == if found then -1 else 0)
            && (!halted && found ==> s.tree == old(s.tree) && RefsMove(old(s.cache), s.cache, -1, -1))
            && (!halted && !found ==> s.cache == old(s.cache)
                                      && s.tree == old(s.tree)[d := WithName(old(s.tree)[d], name, inum)])
  {
    hide RefsMove, Refs;
    var d := s.cache[dp].inum;
    var k, off;
    ghost var c0 := s.cache;
    k, off, halted := DirLookup(s, dp, name);
    if halted { return -1, true; }
    if off >= 0 {
      ghost var c1 := s.cache;
      s.IPut(k);
      UpThenDown(c0, c1, s.cache, s.tree[d].slots[off].inum);
      return -1, false;
    }
    var slots := s.tree[d].slots;
    off := 0;
    while off < |slots| && slots[off].inum != 0
      invariant 0 <= off <= |slots| && FreeSlot(slots, off) == FreeSlot(slots, 0)
    {
      off := off + 1;
    }
    if free < EntryCost(|slots|, off) || (off == |slots| && (|slots| + 1) * ENTRY > Layout.MAXFILE * Blocks.BSIZE) {
      return -1, true;
    }
    if off < |slots| { slots := slots[off := Dirent(inum, name)]; } else { slots := slots + [Dirent(inum, name)]; }
    s.tree := s.tree[d := s.tree[d].(slots := slots)];
    return 0, false;
  }

  lemma UpThenDown(c0: Cache, c1: Cache, c2: Cache, i: int)
    requires RefsMove(c0, c1, i, -1) && RefsMove(c1, c2, -1, i)
    ensures RefsMove(c0, c2, -1, -1)
  {}

  lemma RefsStep(c0: Cache, c1: Cache, c2: Cache, c3: Cache, a: int, b: int)
    requires RefsMove(c0, c1, a, -1) && RefsMove(c1, c2, b, -1) && RefsMove(c2, c3, -1, a)
    ensures RefsMove(c0, c3, b, -1)
  {}

  /** Giving back our own reference leaves everybody else's. */
  lemma OthersKeep(c0: Cache, c1: Cache, c2: Cache, k: nat, i: nat)
    requires CacheOk(c0) && CacheOk(c1) && i < NINODES && Keeps(c0, c1) && RefsMove(c0, c1, i, -1) && Holds(c1, k, i)
    requires Lowered(c1, c2, k)
    ensures Keeps(c0, c2)
  {
    RefsAlone(c1, k, NINODE);
    if c0[k].ref > 0 {
      RefsAlone(c0, k, NINODE);
    }
  }

  lemma KeepsMore(c0: Cache, c1: Cache, c2: Cache)
    requires Keeps(c0, c1) && Keeps(c1, c2)
    ensures Keeps(c0, c2)
  {
    forall k | 0 <= k < NINODE && c0[k].ref > 0 ensures Holds(c2, k, c0[k].inum) && (c0[k].valid ==> c2[k].valid) {
      assert Holds(c1, k, c0[k].inum);
    }
  }

  // ---------- paths ----------

  predicate Absolute(path: string) { |path| > 0 && path[0] == '/' }

  /** The inode that namei (or, for the parent, nameiparent) of a path stands for; 0 for none. */
  function Resolve(t: Tree, path: string, parent: bool): nat {
    if parent then ParentOf(t, ROOTINO, Parts(path)) else WalkTo(t, ROOTINO, Parts(path))
  }

  /** From inode i on, with these names left. */
  function ResolveFrom(t: Tree, i: nat, names: seq<string>, parent: bool): nat
    requires i < NINODES
  {
    if parent then ParentOf(t, i, names) else WalkTo(t, i, names)
  }

  /** One round of namex's loop, up to the step to the next inode: either the result is known, 0
      for none, or the inode has an entry for the name. */
  lemma ResolveStep(t: Tree, i: nat, names: seq<string>, parent: bool)
    requires Safe(t) && Live(t, i) && |names| > 0
    ensures t[i].kind != Dir ==> ResolveFrom(t, i, names, parent) == 0
    ensures t[i].kind == Dir && parent && |names| == 1 ==> ResolveFrom(t, i, names, parent) == i
    ensures t[i].kind == Dir && !(parent && |names| == 1) ==>
              var j := Lookup(t[i].slots, names[0]);
              if j == 0 then ResolveFrom(t, i, names, parent) == 0
              else Live(t, j) && ResolveFrom(t, i, names, parent) == ResolveFrom(t, j, names[1..], parent)
  {
    if t[i].kind == Dir {
      LookupIsLive(t, i, names[0]);
    }
  }

  /** The directory that is to get the last name of the path has no place for it. */
  predicate FullParent(t: Tree, path: string, free: int, besides: nat) {
    var d := Resolve(t, path, true);
    0 < d < NINODES && NoPlace(t[d].slots, free, besides)
  }

  /** One round of namex's loop, from the reference k to inode i: on to the inode of the name, or the
      end of the walk, at i itself if it is the directory asked for (`final`), or nowhere. */
  method Descend(s: Inodes, ghost c0: Cache, k: nat, ghost i: nat, name: string, final: bool)
    returns (k2: int, found: bool, halted: bool)
    requires CacheOk(s.cache) && CacheOk(c0) && Safe(s.tree) && Live(s.tree, i) && Holds(s.cache, k, i)
    requires Keeps(c0, s.cache) && RefsMove(c0, s.cache, i, -1)
    modifies s
    ensures CacheOk(s.cache) && s.tree == old(s.tree) && Keeps(c0, s.cache)
    ensures halted ==> !Room(c0, 2)
    ensures !halted ==>
      var j := if s.tree[i].kind == Dir && !final then Lookup(s.tree[i].slots, name) else 0;
      && (found <==> j != 0) && (found ==> Live(s.tree, j) && Holds(s.cache, k2, j) && RefsMove(c0, s.cache, j, -1))
      && (!found && s.tree[i].kind == Dir && final ==> Holds(s.cache, k2, i) && RefsMove(c0, s.cache, i, -1))
      && (!found && !(s.tree[i].kind == Dir && final) ==> k2 == -1 && RefsMove(c0, s.cache, -1, -1))
  {
    hide RefsMove, Refs, CacheOk, Safe, Referenced;
    ghost var c1 := s.cache;
    var ok := s.ILock(k);
    LockedRefs(c0, c1, s.cache, i, k);
    c1 := s.cache;
    if s.tree[s.cache[k].inum].kind != Dir {
      GiveBack(s, c0, k, i);
      return -1, false, false;
    }
    if final { return k, false, false; }
    var off;
    k2, off, halted := DirLookup(s, k, name);
    KeepsMore(c0, c1, s.cache);
    if halted {
      RoomForOneLess(c0, s.cache, i);
      return -1, false, true;
    }
    if off == -1 {
      GiveBack(s, c0, k, i);
      return -1, false, false;
    }
    ghost var c2 := s.cache;
    ghost var j := s.tree[i].slots[off].inum;
    s.IPut(k);
    RefsStep(c0, c1, c2, s.cache, i, j);
    Handover(c0, c1, c2, s.cache, k, i, k2, j);
    return k2, true, false;
  }

  /** namex: the same as splitting the path into names and following them from the root. It changes
      nothing in the tree, gives back every reference but one to the result, and, for a path that
      does not begin with a slash, one to the root that nobody ever gives back. */
  method Namex(s: Inodes, path: string, parent: bool) returns (k: int, name: string, halted: bool)
    requires CacheOk(s.cache) && Safe(s.tree)
    modifies s
    ensures CacheOk(s.cache) && s.tree == old(s.tree) && Keeps(old(s.cache), s.cache)
    ensures halted ==> !Room(old(s.cache), if Absolute(path) then 2 else 3)
    ensures !halted ==> var i := Resolve(s.tree, path, parent);
      && (if i == 0 then k == -1 else Live(s.tree, i) && Holds(s.cache, k, i))
      && (i != 0 && parent ==> s.tree[i].kind == Dir && |Parts(path)| > 0 && name == Parts(path)[|Parts(path)| - 1])
      && (Absolute(path) ==> RefsMove(old(s.cache), s.cache, if i == 0 then -1 else i, -1))
      && (!Absolute(path) ==> exists c :: RefsMove(old(s.cache), c, ROOTINO, -1) && RefsMove(c, s.cache,
           if i == 0 then -1 else i, -1))
  {
    hide RefsMove, Refs, CacheOk, Parts, Safe, Resolve, ResolveFrom, Referenced;
    name := "";
    RootIsLive(s.tree);
    ghost var c0 := s.cache;
    k := s.IGet(ROOTINO);
    if k == -1 {
      KeepsAll(c0);
      FullHasNoRoom(c0);
      return -1, "", true;
    }
    if !Absolute(path) {
      c0 := s.cache;
      s.IDup(k);
    }
    ghost var i: nat := ROOTINO;
    var at := 0;
    ResolveStart(s.tree, path, parent);
    while true
      invariant 0 <= at <= |path| && CacheOk(s.cache) && CacheOk(c0) && s.tree == old(s.tree)
      invariant Live(s.tree, i) && Holds(s.cache, k, i) && Keeps(c0, s.cache) && Keeps(old(s.cache), c0)
      invariant RefsMove(c0, s.cache, i, -1)
      invariant if Absolute(path) then c0 == old(s.cache) else RefsMove(old(s.cache), c0, ROOTINO, -1)
      invariant Resolve(s.tree, path, parent) == ResolveFrom(s.tree, i, Parts(path[at..]), parent)
      invariant Parts(path[at..]) != [] ==>
        |Parts(path)| > 0 && Parts(path)[|Parts(path)| - 1] == Parts(path[at..])[|Parts(path[at..])| - 1]
      decreases |path| - at
    {
      ghost var names := Parts(path[at..]);
      var next;
      next, name := SkipElem(path, at);
      if next == -1 {
        break;
      }
      ResolveStep(s.tree, i, names, parent);
      assert names[1..] == Parts(path[next..]);
      var k2, found;
      k2, found, halted := Descend(s, c0, k, i, name, parent && next == |path|);
      if halted || !found {
        KeepsMore(old(s.cache), c0, s.cache);
        if halted && !Absolute(path) { RoomForOneLess(old(s.cache), c0, ROOTINO); }
        return k2, name, halted;
      }
      i := Lookup(s.tree[i].slots, name);
      k := k2;
      at := next;
    }
    ResolveEnd(s.tree, i, parent);
    if parent {
      GiveBack(s, c0, k, i);
      KeepsMore(old(s.cache), c0, s.cache);
      return -1, name, false;
    }
    KeepsMore(old(s.cache), c0, s.cache);
    return k, name, false;
  }

  /** iunlockput on a live inode: the tree stays. */
  method GiveBack(s: Inodes, ghost c0: Cache, k: nat, ghost i: nat)
    requires CacheOk(s.cache) && CacheOk(c0) && Live(s.tree, i) && Holds(s.cache, k, i)
    requires Keeps(c0, s.cache) && RefsMove(c0, s.cache, i, -1)
    modifies s
    ensures CacheOk(s.cache) && s.tree == old(s.tree) && Keeps(c0, s.cache) && RefsMove(c0, s.cache, -1, -1)
  {
    hide RefsMove, Refs, CacheOk, Keeps;
    ghost var c1 := s.cache;
    s.IPut(k);
    UpThenDown(c0, c1, s.cache, i);
    OthersKeep(c0, c1, s.cache, k, i);
  }

  lemma RootIsLive(t: Tree)
    requires Safe(t)
    ensures Live(t, ROOTINO) && t[ROOTINO].kind == Dir
  {}

  lemma KeepsAll(c: Cache)
    ensures Keeps(c, c)
  {}

  lemma ResolveStart(t: Tree, path: string, parent: bool)
    ensures path[0..] == path && Resolve(t, path, parent) == ResolveFrom(t, ROOTINO, Parts(path[0..]), parent)
  {
    assert path[0..] == path;
  }

  lemma ResolveEnd(t: Tree, i: nat, parent: bool)
    requires i < NINODES
    ensures ResolveFrom(t, i, [], parent) == if parent then 0 else i
  {}

  lemma LockedRefs(c0: Cache, c1: Cache, c2: Cache, i: int, k: nat)
    requires RefsMove(c0, c1, i, -1) && RefsMove(c1, c2, -1, -1) && k < NINODE
    requires Keeps(c0, c1) && c2 == c1[k := c1[k].(valid := true)]
    ensures RefsMove(c0, c2, i, -1) && Keeps(c0, c2)
  {
    hide Refs;
  }

  /** From one inode to the next: the old reference goes, the new one stays. */
  lemma Handover(c0: Cache, c1: Cache, c2: Cache, c3: Cache, k: nat, i: nat, k2: nat, j: nat)
    requires CacheOk(c0) && CacheOk(c1) && i < NINODES && Keeps(c0, c1) && RefsMove(c0, c1, i, -1) && Holds(c1, k, i)
    requires k2 < NINODE && c2 == c1[k2 := c2[k2]] && c2[k2].ref == c1[k2].ref + 1 && Holds(c2, k2, j)
    requires c1[k2].ref > 0 ==> c1[k2].inum == j && c2[k2].valid == c1[k2].valid
    requires Lowered(c2, c3, k)
    ensures Keeps(c0, c3) && Holds(c3, k2, j)
  {
    RefsAlone(c1, k, NINODE);
    if c0[k].ref > 0 {
      RefsAlone(c0, k, NINODE);
    }
    forall l | 0 <= l < NINODE && c0[l].ref > 0 ensures Holds(c3, l, c0[l].inum) && (c0[l].valid ==> c3[l].valid) {
      assert Holds(c1, l, c0[l].inum);
    }
  }
}
