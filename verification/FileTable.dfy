/** Open files: file.c's table, the descriptors of all processes, and the reference counts that tie
    them to each other and to the inode cache. */
module FileTable {
  import opened Directories
  import opened LinkCounts
  import opened Paths
  import opened Namespace
  import opened FileNames
  import opened LinkCalls
  import opened NameEffects

  const NFILE := 100
  const NOFILE := 16
  const FDS := 64 * NOFILE

  /** An entry of the file table: how many descriptors share it, whether it is an inode's, and
      which: the entry of the inode cache, and the inode that stands for. */
  datatype OpenFile = OpenFile(ref: nat, isInode: bool, ip: nat, inum: nat)

  type Files = f: seq<OpenFile> | |f| == NFILE witness seq<OpenFile>(NFILE, (_: nat) => OpenFile(0, false, 0, 0))

  /** The descriptors of process p are slots p * NOFILE to (p + 1) * NOFILE - 1; -1 is unused. */
  type Descriptors = d: seq<int> | |d| == FDS witness seq<int>(FDS, (_: nat) => -1)

  function Pointing(fds: Descriptors, f: int, n: nat): nat
    requires n <= FDS
  {
    if n == 0 then 0 else Pointing(fds, f, n - 1) + if fds[n - 1] == f then 1 else 0
  }

  lemma {:induction false} PointingChange(fds: Descriptors, k: nat, x: int, f: int, n: nat)
    requires k < FDS && n <= FDS
    ensures Pointing(fds[k := x], f, n) == Pointing(fds, f, n) +
            if k < n then (if x == f then 1 else 0) - (if fds[k] == f then 1 else 0) else 0
  {
    if n > 0 {
      PointingChange(fds, k, x, f, n - 1);
    }
  }

  lemma {:induction false} PointingPositive(fds: Descriptors, k: nat, n: nat)
    requires k < n <= FDS
    ensures Pointing(fds, fds[k], n) >= 1
  {
    if k < n - 1 {
      PointingPositive(fds, k, n - 1);
    }
  }

  predicate On(f: OpenFile, i: nat) { f.ref > 0 && f.isInode && f.inum == i }

  /** The open files on inode i among the first n. */
  function Holding(files: Files, i: nat, n: nat): nat
    requires n <= NFILE
  {
    if n == 0 then 0 else Holding(files, i, n - 1) + if On(files[n - 1], i) then 1 else 0
  }

  lemma {:induction false} HoldingChange(files: Files, f: nat, x: OpenFile, i: nat, n: nat)
    requires f < NFILE && n <= NFILE
    ensures Holding(files[f := x], i, n) == Holding(files, i, n) +
            if f < n then (if On(x, i) then 1 else 0) - (if On(files[f], i) then 1 else 0) else 0
  {
    if n > 0 {
      HoldingChange(files, f, x, i, n - 1);
    }
  }

  lemma {:induction false} HoldingPositive(files: Files, f: nat, i: nat, n: nat)
    requires f < n <= NFILE && On(files[f], i)
    ensures Holding(files, i, n) >= 1
  {
    if f < n - 1 {
      HoldingPositive(files, f, i, n - 1);
    }
  }

  /** Every file is referenced by as many descriptors as it counts. */
  ghost predicate FdsOk(files: Files, fds: Descriptors) {
    && (forall k :: 0 <= k < FDS ==> -1 <= fds[k] < NFILE)
    && (forall f :: 0 <= f < NFILE ==> files[f].ref == Pointing(fds, f, FDS))
  }

  /** Every open file holds its inode, and every inode is referenced by as many open files as the
      cache counts, and by what the current call holds. */
  ghost predicate InodesOk(files: Files, c: Cache, more: multiset<int>) {
    && (forall f :: 0 <= f < NFILE && files[f].ref > 0 ==>
          files[f].isInode && Holds(c, files[f].ip, files[f].inum) && c[files[f].ip].valid)
    && (forall i: nat :: Refs(c, i, NINODE) == Holding(files, i, NFILE) + more[i])
  }

  ghost predicate Consistent(files: Files, fds: Descriptors, t: Tree, c: Cache) {
    SysOk(t, c) && FdsOk(files, fds) && InodesOk(files, c, multiset{})
  }

  /** References went, and with them exactly the inodes that lost their last one and have no links. */
  ghost predicate LetGo(t: Tree, c: Cache, t': Tree, c': Cache) {
    && (forall i: nat :: Refs(c', i, NINODE) <= Refs(c, i, NINODE))
    && (forall i :: 0 <= i < NINODES ==> t'[i] == if Reclaims(t, c, c', i) then BLANK else t[i])
  }

  predicate Reclaims(t: Tree, c: Cache, c': Cache, i: nat)
    requires i < NINODES
  {
    i != ROOTINO && t[i].nlink == 0 && Refs(c, i, NINODE) > 0 && Refs(c', i, NINODE) == 0
  }

  lemma LetGoNothing(t: Tree, c: Cache)
    ensures LetGo(t, c, t, c)
  {
    hide Refs;
  }

  lemma LetGoMore(t0: Tree, c0: Cache, t1: Tree, c1: Cache, t2: Tree, c2: Cache)
    requires LetGo(t0, c0, t1, c1) && LetGo(t1, c1, t2, c2)
    ensures LetGo(t0, c0, t2, c2)
  {
    hide Refs;
  }

  /** Files that are open before and after are open on the same inode. */
  ghost predicate SameFiles(files: Files, files': Files) {
    forall g :: 0 <= g < NFILE && files[g].ref > 0 && files'[g].ref > 0 ==>
      files'[g].isInode == files[g].isInode && files'[g].ip == files[g].ip && files'[g].inum == files[g].inum
  }

  // ---------- single changes ----------

  lemma SetFd(files: Files, fds: Descriptors, k: nat, f: nat)
    requires FdsOk(files, fds) && k < FDS && f < NFILE && fds[k] == -1
    ensures FdsOk(files[f := files[f].(ref := files[f].ref + 1)], fds[k := f])
  {
    hide Pointing;
    forall g | 0 <= g < NFILE ensures Pointing(fds[k := f], g, FDS) == Pointing(fds, g, FDS) + if g == f then 1 else 0 {
      PointingChange(fds, k, f, g, FDS);
    }
  }

  lemma ClearFd(files: Files, fds: Descriptors, k: nat)
    requires FdsOk(files, fds) && k < FDS && fds[k] >= 0
    ensures var f := fds[k];
            files[f].ref > 0 && FdsOk(files[f := files[f].(ref := files[f].ref - 1)], fds[k := -1])
  {
    hide Pointing;
    var f := fds[k];
    PointingPositive(fds, k, FDS);
    forall g | 0 <= g < NFILE
      ensures Pointing(fds[k := -1], g, FDS) == Pointing(fds, g, FDS) - if g == f then 1 else 0
    {
      PointingChange(fds, k, -1, g, FDS);
    }
  }

  /** Another descriptor, or one of several less, on an open file changes nothing for the inodes. */
  lemma SameInodes(files: Files, c: Cache, more: multiset<int>, f: nat, ref: nat)
    requires InodesOk(files, c, more) && f < NFILE && files[f].ref > 0 && ref > 0
    ensures InodesOk(files[f := files[f].(ref := ref)], c, more)
  {
    hide Holding, Refs;
    forall i: nat ensures Holding(files[f := files[f].(ref := ref)], i, NFILE) == Holding(files, i, NFILE) {
      HoldingChange(files, f, files[f].(ref := ref), i, NFILE);
    }
  }

  /** A new open file takes over the reference of the call. */
  lemma OpenOne(files: Files, c: Cache, f: nat, k: nat, i: nat)
    requires InodesOk(files, c, multiset{i}) && f < NFILE && files[f].ref == 0 && Holds(c, k, i) && c[k].valid
    ensures InodesOk(files[f := OpenFile(1, true, k, i)], c, multiset{})
  {
    hide Holding, Refs;
    forall j: nat
      ensures Holding(files[f := OpenFile(1, true, k, i)], j, NFILE) ==
              Holding(files, j, NFILE) + if j == i then 1 else 0
    {
      HoldingChange(files, f, OpenFile(1, true, k, i), j, NFILE);
    }
  }

  /** The last descriptor of a file goes: its reference is the call's to give back. */
  lemma CloseOne(files: Files, c: Cache, f: nat)
    requires InodesOk(files, c, multiset{}) && f < NFILE && files[f].ref > 0
    ensures InodesOk(files[f := files[f].(ref := 0, isInode := false)], c, multiset{files[f].inum})
  {
    hide Holding, Refs;
    var i, x := files[f].inum, files[f].(ref := 0, isInode := false);
    forall j: nat ensures Holding(files[f := x], j, NFILE) == Holding(files, j, NFILE) - if j == i then 1 else 0 {
      HoldingChange(files, f, x, j, NFILE);
    }
  }

  /** Giving a reference back leaves the open files theirs. */
  lemma GaveOne(files: Files, c: Cache, c': Cache, k: nat, i: nat)
    requires InodesOk(files, c, multiset{i}) && CacheOk(c) && CacheOk(c') && Holds(c, k, i) && RefsMove(c, c', -1, i)
    requires Lowered(c, c', k)
    ensures InodesOk(files, c', multiset{})
  {
    hide Holding, Refs;
    forall f | 0 <= f < NFILE && files[f].ref > 0
      ensures Holds(c', files[f].ip, files[f].inum) && c'[files[f].ip].valid
    {
      if files[f].ip == k {
        HoldingPositive(files, f, i, NFILE);
        RefsAlone(c, k, NINODE);
      }
    }
  }

  /** A call that ends with the references it began with, and these besides. */
  lemma AfterCall(files: Files, c0: Cache, c: Cache, more: multiset<int>)
    requires InodesOk(files, c0, multiset{}) && RefsAre(c0, c, more)
    ensures InodesOk(files, c, more)
  {
    hide Holding, Refs;
    forall f | 0 <= f < NFILE && files[f].ref > 0 ensures Holds(c, files[f].ip, files[f].inum) && c[files[f].ip].valid {
      assert Holds(c0, files[f].ip, files[f].inum);
    }
  }

  // ---------- the calls ----------

  class System {
    const inodes: Inodes
    var files: Files
    var fds: Descriptors

    /** After boot, on a file system that is in order. */
    constructor (t: Tree)
      requires TreeOk(t)
      ensures Valid() && fresh(inodes) && inodes.tree == t
    {
      inodes := new Inodes(t);
      files, fds := seq(NFILE, _ => OpenFile(0, false, 0, 0)), seq(FDS, _ => -1);
      new;
      NothingOpen(files, fds, inodes.cache);
    }

    /** Between system calls: descriptors, open files and inode references agree. */
    ghost predicate Valid()
      reads this, inodes
    {
      Consistent(files, fds, inodes.tree, inodes.cache)
    }

    /** alloc_file: the first unused entry, with one reference; -1 if there is none. */
    method AllocFile() returns (f: int)
      modifies this`files
      ensures f == -1 ==> files == old(files) && forall g :: 0 <= g < NFILE ==> files[g].ref > 0
      ensures f != -1 ==>
        && 0 <= f < NFILE && old(files)[f].ref == 0 && (forall g :: 0 <= g < f ==> old(files)[g].ref > 0)
        && files == old(files)[f := OpenFile(1, false, 0, 0)]
    {
      for i := 0 to NFILE
        invariant files == old(files) && forall g :: 0 <= g < i ==> files[g].ref > 0
      {
        if files[i].ref == 0 {
          files := files[i := OpenFile(1, false, 0, 0)];
          return i;
        }
      }
      return -1;
    }

    /** fdalloc: the first unused descriptor of process p; -1 if there is none. */
    method FdAlloc(p: nat, f: nat) returns (fd: int)
      requires p * NOFILE + NOFILE <= FDS && f < NFILE
      modifies this`fds
      ensures fd == -1 ==> fds == old(fds) && NoneUnused(fds, p)
      ensures fd != -1 ==>
        && 0 <= fd < NOFILE && old(fds)[p * NOFILE + fd] == -1 && !NoneUnused(old(fds), p)
        && (forall k :: p * NOFILE <= k < p * NOFILE + fd ==> old(fds)[k] != -1)
        && fds == old(fds)[p * NOFILE + fd := f]
    {
      for i := 0 to NOFILE
        invariant fds == old(fds) && forall k :: p * NOFILE <= k < p * NOFILE + i ==> fds[k] != -1
      {
        if fds[p * NOFILE + i] == -1 {
          fds := fds[p * NOFILE + i := f];
          return i;
        }
      }
      return -1;
    }

    /** file_close, after the descriptor is gone: the last reference gives the inode back. */
    method FileClose(f: nat)
      requires f < NFILE && files[f].ref > 0 && SysOk(inodes.tree, inodes.cache)
      requires FdsOk(files[f := files[f].(ref := files[f].ref - 1)], fds) && InodesOk(files, inodes.cache, multiset{})
      modifies this`files, inodes
      ensures Valid()
      ensures files[f].ref == old(files)[f].ref - 1 && SameFiles(old(files), files)
      ensures forall g :: 0 <= g < NFILE && g != f ==> files[g] == old(files)[g]
      ensures LetGo(old(inodes.tree), old(inodes.cache), inodes.tree, inodes.cache)
    {
      hide Pointing, Holding, Refs, SysOk, RefsMove, CacheOk;
      if files[f].ref > 1 {
        SameInodes(files, inodes.cache, multiset{}, f, files[f].ref - 1);
        files := files[f := files[f].(ref := files[f].ref - 1)];
        LetGoNothing(inodes.tree, inodes.cache);
        return;
      }
      CloseOne(files, inodes.cache, f);
      HeldInRange(files, inodes.tree, inodes.cache, f);
      var ff := files[f];
      ghost var before := files[f := files[f].(ref := files[f].ref - 1)];
      files := files[f := ff.(ref := 0, isInode := false)];
      SameFds(before, files, fds);
      if ff.isInode {
        ghost var c1 := inodes.cache;
        PutRef(inodes, ff.ip);
        GaveOne(files, c1, inodes.cache, ff.ip, ff.inum);
      }
    }

    /** sys_close. */
    method Close(p: nat, fd: int) returns (r: int)
      requires Valid() && p * NOFILE + NOFILE <= FDS
      modifies this, inodes
      ensures Valid() && SameFiles(old(files), files) && Shut(old(files), files)
      ensures LetGo(old(inodes.tree), old(inodes.cache), inodes.tree, inodes.cache)
      ensures var k := p * NOFILE + fd;
              if 0 <= fd < NOFILE && old(fds)[k] != -1
              then r == 0 && fds == old(fds)[k := -1]
              else r == -1 && fds == old(fds) && files == old(files)
    {
      hide Pointing, Holding, Refs, SysOk, InodesOk;
      LetGoNothing(inodes.tree, inodes.cache);
      if fd < 0 || fd >= NOFILE || fds[p * NOFILE + fd] == -1 { return -1; }
      var k := p * NOFILE + fd;
      var f := fds[k];
      ClearFd(files, fds, k);
      fds := fds[k := -1];
      FileClose(f);
      return 0;
    }

    /** sys_dup: the new descriptor first, then the count. */
    method Dup(p: nat, fd: int) returns (newfd: int)
      requires Valid() && p * NOFILE + NOFILE <= FDS
      modifies this`files, this`fds
      ensures Valid()
      ensures newfd == -1 <==> !(0 <= fd < NOFILE) || old(fds)[p * NOFILE + fd] == -1 || NoneUnused(old(fds), p)
      ensures newfd == -1 ==> files == old(files) && fds == old(fds)
      ensures newfd != -1 ==> 0 <= fd < NOFILE && 0 <= newfd < NOFILE && old(fds)[p * NOFILE + newfd] == -1
                              && fds == old(fds)[p * NOFILE + newfd := old(fds)[p * NOFILE + fd]]
      ensures forall g :: 0 <= g < NFILE ==> files[g] == old(files)[g].(ref := files[g].ref)
    {
      hide Pointing, Holding, Refs, SysOk, InodesOk;
      if fd < 0 || fd >= NOFILE || fds[p * NOFILE + fd] == -1 { return -1; }
      var k := p * NOFILE + fd;
      var f := fds[k];
      PointsToOpen(files, fds, k);
      ghost var fds0 := fds;
      newfd := FdAlloc(p, f);
      if newfd == -1 { return; }
      SetFd(files, fds0, p * NOFILE + newfd, f);
      SameInodes(files, inodes.cache, multiset{}, f, files[f].ref + 1);
      files := files[f := files[f].(ref := files[f].ref + 1)];
    }

    /** The descriptors that fork gives the child. */
    method Fork(p: nat, np: nat)
      requires Valid() && p * NOFILE + NOFILE <= FDS && np * NOFILE + NOFILE <= FDS && p != np
      requires forall k :: np * NOFILE <= k < np * NOFILE + NOFILE ==> fds[k] == -1
      modifies this`files, this`fds
      ensures Valid()
      ensures forall k :: np * NOFILE <= k < np * NOFILE + NOFILE ==> fds[k] == old(fds)[k - np * NOFILE + p * NOFILE]
      ensures forall k :: 0 <= k < FDS && !(np * NOFILE <= k < np * NOFILE + NOFILE) ==> fds[k] == old(fds)[k]
      ensures forall g :: 0 <= g < NFILE ==> files[g] == old(files)[g].(ref := files[g].ref)
    {
      hide Pointing, Holding, Refs, SysOk, InodesOk;
      for i := 0 to NOFILE
        invariant Valid()
        invariant forall k :: np * NOFILE <= k < np * NOFILE + i ==> fds[k] == old(fds)[k - np * NOFILE + p * NOFILE]
        invariant forall k :: np * NOFILE + i <= k < np * NOFILE + NOFILE ==> fds[k] == -1
        invariant forall g :: 0 <= g < NFILE ==> files[g] == old(files)[g].(ref := files[g].ref)
        invariant forall k :: 0 <= k < FDS && !(np * NOFILE <= k < np * NOFILE + NOFILE) ==> fds[k] == old(fds)[k]
      {
        Elsewhere(p, np, i);
        if fds[p * NOFILE + i] != -1 {
          var f := fds[p * NOFILE + i];
          PointsToOpen(files, fds, p * NOFILE + i);
          SetFd(files, fds, np * NOFILE + i, f);
          SameInodes(files, inodes.cache, multiset{}, f, files[f].ref + 1);
          files := files[f := files[f].(ref := files[f].ref + 1)];
          fds := fds[np * NOFILE + i := f];
        }
      }
    }

    /** The loop of proc_exit over the descriptors. */
    method Exit(p: nat)
      requires Valid() && p * NOFILE + NOFILE <= FDS
      modifies this, inodes
      ensures Valid() && SameFiles(old(files), files)
      ensures LetGo(old(inodes.tree), old(inodes.cache), inodes.tree, inodes.cache)
      ensures forall k :: 0 <= k < FDS ==> fds[k] == if p * NOFILE <= k < p * NOFILE + NOFILE then -1 else old(fds)[k]
    {
      hide Pointing, Holding, Refs, SysOk, InodesOk, FdsOk, LetGo;
      LetGoNothing(inodes.tree, inodes.cache);
      for fd := 0 to NOFILE
        invariant Valid() && SameFiles(old(files), files) && Shut(old(files), files)
        invariant LetGo(old(inodes.tree), old(inodes.cache), inodes.tree, inodes.cache)
        invariant forall k :: 0 <= k < FDS ==> fds[k] == if p * NOFILE <= k < p * NOFILE + fd then -1 else old(fds)[k]
      {
        ghost var t, c := inodes.tree, inodes.cache;
        var r := Close(p, fd);
        LetGoMore(old(inodes.tree), old(inodes.cache), t, c, inodes.tree, inodes.cache);
      }
    }

    /** sys_open after the path walk: a file and a descriptor for the inode of entry k, or nothing. */
    method Attach(p: nat, k: nat, ghost c0: Cache, ghost i: nat) returns (fd: int)
      requires p * NOFILE + NOFILE <= FDS && SysOk(inodes.tree, inodes.cache) && FdsOk(files, fds)
      requires InodesOk(files, c0, multiset{}) && RefsAre(c0, inodes.cache, multiset{i}) && Holds(inodes.cache, k, i)
      requires Live(inodes.tree, i) && inodes.cache[k].valid
      modifies this, inodes
      ensures Valid() && inodes.tree == old(inodes.tree)
      ensures fd == -1 <==> AllOpen(old(files)) || NoneUnused(old(fds), p)
      ensures fd == -1 ==> fds == old(fds)
      ensures forall g :: 0 <= g < NFILE && old(files)[g].ref > 0 ==> files[g] == old(files)[g]
      ensures fd != -1 ==> 0 <= fd < NOFILE && old(fds)[p * NOFILE + fd] == -1
                           && var f := fds[p * NOFILE + fd];
                              && 0 <= f < NFILE && fds == old(fds)[p * NOFILE + fd := f]
                              && old(files)[f].ref == 0 && files == old(files)[f := OpenFile(1, true, k, i)]
    {
      hide Pointing, Holding, Refs, RefsMove, CacheOk, RefsAre, TreeOk, CacheLive, Keeps;
      ghost var files0, fds0 := files, fds;
      AfterCall(files, c0, inodes.cache, multiset{i});
      var f := AllocFile();
      if f == -1 {
        Undo(inodes, c0, k, i, files);
        return -1;
      }
      fd := FdAlloc(p, f);
      if fd == -1 {
        files := files[f := files[f].(ref := 0)];
        SameCounts(files0, files, fds, inodes.cache, multiset{i}, f);
        Undo(inodes, c0, k, i, files);
        return -1;
      }
      SetFd(files0, fds0, p * NOFILE + fd, f);
      OpenOne(files0, inodes.cache, f, k, i);
      files := files[f := OpenFile(1, true, k, inodes.cache[k].inum)];
      assert files == files0[f := OpenFile(1, true, k, i)];
      SameFds(files0[f := files0[f].(ref := files0[f].ref + 1)], files, fds);
    }

    /** sys_open on an absolute path. It fails exactly if there is nothing to open, a directory is
        opened for writing, or files or descriptors have run out; a file it has created stays. */
    method Open(p: nat, path: string, create: bool, readOnly: bool, free: int) returns (fd: int, halted: bool)
      requires Valid() && p * NOFILE + NOFILE <= FDS && Absolute(path)
      modifies this, inodes
      ensures halted ==> !Room(old(inodes.cache), 2) || (create && NoSpace(old(inodes.tree), path, File, free))
      ensures !halted ==> Valid() && inodes.tree == OpenedTree(old(inodes.tree), path, create)
      ensures !halted ==> var i := OpenedInode(old(inodes.tree), path, create);
        && (fd == -1 <==> || i == 0 || (!create && i < NINODES && inodes.tree[i].kind == Dir && !readOnly)
                          || AllOpen(old(files)) || NoneUnused(old(fds), p))
        && (fd == -1 ==> fds == old(fds))
        && (forall g :: 0 <= g < NFILE && old(files)[g].ref > 0 ==> files[g] == old(files)[g])
        && (fd != -1 ==> 0 <= fd < NOFILE && old(fds)[p * NOFILE + fd] == -1
                         && 0 <= fds[p * NOFILE + fd] < NFILE && files[fds[p * NOFILE + fd]].inum == i
                         && fds == old(fds)[p * NOFILE + fd := fds[p * NOFILE + fd]])
    {
      hide Pointing, Holding, Refs, RefsMove, CacheOk, RefsAre, TreeOk, CacheLive, Keeps, InodesOk, FdsOk, Resolve;
      hide Live, Created, Referenced, CreateInum, CreateTree;
      ghost var c0, t := inodes.cache, inodes.tree;
      var k, name;
      if create {
        k, halted := Create(inodes, path, File, free);
        if halted { return -1, true; }
        CreatedOne(t, c0, inodes.tree, inodes.cache, path, File, k);
        if k == -1 {
          NothingHeld(files, fds, inodes.tree, c0, inodes.cache);
          return -1, false;
        }
      } else {
        TreesAreSafe(inodes.tree);
        RefsNone(c0);
        k, name, halted := Locate(inodes, path, false, c0, multiset{});
        if halted { return -1, true; }
        if k == -1 {
          NothingHeld(files, fds, inodes.tree, c0, inodes.cache);
          return -1, false;
        }
        ghost var i := Resolve(inodes.tree, path, false);
        LiveRange(inodes.tree, i);
        assert multiset{} + multiset{i} == multiset{i};
        Lock(inodes, c0, multiset{i}, k, i);
        RefsOk(c0, inodes.cache, multiset{i});
        if inodes.tree[inodes.cache[k].inum].kind == Dir && !readOnly {
          Release(inodes, c0, multiset{i}, k, i);
          Balanced(c0, inodes.cache, i);
          NothingHeld(files, fds, inodes.tree, c0, inodes.cache);
          return -1, false;
        }
      }
      fd := Attach(p, k, c0, inodes.cache[k].inum);
      return fd, false;
    }

    /** sys_mkdir on an absolute path. */
    method Mkdir(path: string, free: int) returns (r: int, halted: bool)
      requires Valid() && Absolute(path)
      modifies inodes
      ensures halted ==> !Room(old(inodes.cache), 2) || NoSpace(old(inodes.tree), path, Dir, free)
      ensures !halted ==>
        && Valid() && inodes.tree == CreateTree(old(inodes.tree), path, Dir)
        && r == if CreateInum(old(inodes.tree), path, Dir) == 0 then -1 else 0
    {
      hide Pointing, Holding, Refs, RefsMove, CacheOk, RefsAre, TreeOk, CacheLive, Keeps, InodesOk, FdsOk, Live;
      hide Created;
      hide Referenced, CreateInum, CreateTree;
      ghost var c0, t := inodes.cache, inodes.tree;
      var k;
      k, halted := Create(inodes, path, Dir, free);
      if halted { return -1, true; }
      CreatedOne(t, c0, inodes.tree, inodes.cache, path, Dir, k);
      if k >= 0 {
        ghost var i := inodes.cache[k].inum;
        Release(inodes, c0, multiset{i}, k, i);
        Balanced(c0, inodes.cache, i);
      }
      NothingHeld(files, fds, inodes.tree, c0, inodes.cache);
      return if k == -1 then -1 else 0, false;
    }

    /** sys_unlink on an absolute path: an open file keeps its inode. */
    method Unlink(path: string) returns (r: int, halted: bool)
      requires Valid() && Absolute(path)
      modifies inodes
      ensures halted ==> !Room(old(inodes.cache), 2) || Overdrawn(old(inodes.tree), path)
      ensures Overdrawn(old(inodes.tree), path) ==> halted
      ensures !halted ==>
        Valid() && Unlinked(old(inodes.tree), old(inodes.cache), inodes.tree, inodes.cache, path, r)
    {
      hide Pointing, Holding, Refs, CacheOk, RefsAre, TreeOk, CacheLive, InodesOk, FdsOk, Referenced, Overdrawn;
      ghost var c0 := inodes.cache;
      r, halted := LinkCalls.Unlink(inodes, path);
      if !halted { NothingHeld(files, fds, inodes.tree, c0, inodes.cache); }
    }

    /** sys_link on absolute paths. */
    method Link(from: string, to: string, free: int) returns (r: int, halted: bool)
      requires Valid() && Absolute(from) && Absolute(to)
      modifies inodes
      ensures halted ==> !Room(old(inodes.cache), 3) || FullParent(old(inodes.tree), to, free, 0)
      ensures !halted ==>
        Valid() && LinkDone(old(inodes.tree), old(inodes.cache), inodes.tree, inodes.cache, from, to, r)
    {
      hide Pointing, Holding, Refs, CacheOk, RefsAre, TreeOk, CacheLive, InodesOk, FdsOk, Referenced;
      ghost var c0 := inodes.cache;
      r, halted := LinkCalls.Link(inodes, from, to, free);
      if !halted { NothingHeld(files, fds, inodes.tree, c0, inodes.cache); }
    }
  }

  // ---------- what the calls are to do ----------

  /** Nothing was opened. */
  predicate Shut(files: Files, files': Files) { forall g :: 0 <= g < NFILE ==> files'[g].ref <= files[g].ref }

  predicate AllOpen(files: Files) { forall f :: 0 <= f < NFILE ==> files[f].ref > 0 }

  predicate NoneUnused(fds: Descriptors, p: nat)
    requires p * NOFILE + NOFILE <= FDS
  {
    forall k :: p * NOFILE <= k < p * NOFILE + NOFILE ==> fds[k] != -1
  }

  /** create has no inode or no place for the new name, with so many blocks free. */
  predicate NoSpace(t: Tree, path: string, kind: Kind, free: int) {
    FirstUnused(t, 1) == NINODES || FullParent(t, path, free, DotBlocks(kind))
  }

  function OpenedInode(t: Tree, path: string, create: bool): (i: nat) {
    if create then CreateInum(t, path, File) else Resolve(t, path, false)
  }

  function OpenedTree(t: Tree, path: string, create: bool): Tree {
    if create then CreateTree(t, path, File) else t
  }

  // ---------- helpers of the calls ----------

  lemma NothingOpen(files: Files, fds: Descriptors, c: Cache)
    requires forall f :: 0 <= f < NFILE ==> files[f].ref == 0
    requires forall k :: 0 <= k < FDS ==> fds[k] == -1
    requires forall k :: 0 <= k < NINODE ==> c[k].ref == 0
    ensures FdsOk(files, fds) && InodesOk(files, c, multiset{})
  {
    forall f | 0 <= f < NFILE ensures Pointing(fds, f, FDS) == 0 {
      NoPointing(fds, f, FDS);
    }
    forall i: nat ensures Refs(c, i, NINODE) == 0 && Holding(files, i, NFILE) == 0 {
      NoRefs(c, i, NINODE);
      NoHolding(files, i, NFILE);
    }
  }

  lemma NoPointing(fds: Descriptors, f: nat, n: nat)
    requires n <= FDS && forall k :: 0 <= k < FDS ==> fds[k] == -1
    ensures Pointing(fds, f, n) == 0
  {}

  lemma NoRefs(c: Cache, i: nat, n: nat)
    requires n <= NINODE && forall k :: 0 <= k < NINODE ==> c[k].ref == 0
    ensures Refs(c, i, n) == 0
  {}

  lemma NoHolding(files: Files, i: nat, n: nat)
    requires n <= NFILE && forall f :: 0 <= f < NFILE ==> files[f].ref == 0
    ensures Holding(files, i, n) == 0
  {}

  lemma HeldInRange(files: Files, t: Tree, c: Cache, f: nat)
    requires SysOk(t, c) && InodesOk(files, c, multiset{}) && f < NFILE && files[f].ref > 0
    ensures files[f].isInode && Holds(c, files[f].ip, files[f].inum) && InUse(t, files[f].inum) && CacheOk(c)
    ensures c[files[f].ip].valid
  {
    hide TreeOk, Refs, Holding;
    var k := files[f].ip;
    assert Holds(c, k, files[f].inum);
    assert InUse(t, c[k].inum);
  }

  lemma SameFds(a: Files, b: Files, fds: Descriptors)
    requires FdsOk(a, fds) && forall f :: 0 <= f < NFILE ==> b[f].ref == a[f].ref
    ensures FdsOk(b, fds)
  {
    hide Pointing;
  }

  lemma PointsToOpen(files: Files, fds: Descriptors, k: nat)
    requires FdsOk(files, fds) && k < FDS && fds[k] != -1
    ensures 0 <= fds[k] < NFILE && files[fds[k]].ref > 0
  {
    PointingPositive(fds, k, FDS);
  }

  lemma Elsewhere(p: nat, np: nat, i: nat)
    requires p != np && i < NOFILE
    ensures !(np * NOFILE <= p * NOFILE + i < np * NOFILE + NOFILE)
  {}

  /** The file that alloc_file gave and file_close took back. */
  lemma SameCounts(a: Files, b: Files, fds: Descriptors, c: Cache, more: multiset<int>, f: nat)
    requires FdsOk(a, fds) && InodesOk(a, c, more) && f < NFILE && a[f].ref == 0
    requires b[f].ref == 0 && forall g :: 0 <= g < NFILE && g != f ==> b[g] == a[g]
    ensures FdsOk(b, fds) && InodesOk(b, c, more)
  {
    hide Holding, Refs, Pointing;
    assert b == a[f := b[f]];
    forall i: nat ensures Holding(b, i, NFILE) == Holding(a, i, NFILE) {
      HoldingChange(a, f, b[f], i, NFILE);
    }
  }

  lemma NothingHeld(files: Files, fds: Descriptors, t: Tree, c0: Cache, c: Cache)
    requires FdsOk(files, fds) && InodesOk(files, c0, multiset{}) && RefsAre(c0, c, multiset{}) && TreeOk(t)
    requires CacheLive(t, c)
    ensures Consistent(files, fds, t, c)
  {
    hide Holding, Refs, Pointing, TreeOk;
    AfterCall(files, c0, c, multiset{});
  }

  lemma CreatedOne(t: Tree, c: Cache, t': Tree, c': Cache, path: string, kind: Kind, k: int)
    requires Created(t, c, t', c', path, kind, k)
    ensures t' == CreateTree(t, path, kind) && (k == -1 <==> CreateInum(t, path, kind) == 0)
    ensures k == -1 ==> RefsAre(c, c', multiset{})
    ensures k != -1 ==> && 0 <= k < NINODE && Holds(c', k, c'[k].inum) && RefsAre(c, c', multiset{c'[k].inum})
                        && c'[k].inum == CreateInum(t, path, kind)
  {
    hide RefsAre, NewDir, NewFile, Resolve, Parts, CreateTree, CreateInum;
    CreatesAlike(t, c, t', c', path, kind, k);
  }

  /** iput, whatever becomes of the inode. */
  method PutRef(s: Inodes, k: nat)
    requires SysOk(s.tree, s.cache) && k < NINODE && s.cache[k].ref > 0 && s.cache[k].valid
    modifies s
    ensures SysOk(s.tree, s.cache) && CacheOk(s.cache) && RefsMove(old(s.cache), s.cache, -1, old(s.cache)[k].inum)
    ensures Lowered(old(s.cache), s.cache, k) && LetGo(old(s.tree), old(s.cache), s.tree, s.cache)
  {
    hide RefsMove, Refs, TreeOk;
    ghost var t, c := s.tree, s.cache;
    assert InUse(t, c[k].inum);
    s.IPut(k);
    if c[k].inum != ROOTINO && t[c[k].inum].nlink == 0 {
      ReclaimKeeps(t, c[k].inum);
    }
    LiveAfter(t, c, s.cache, k, c[k].inum);
    LetGoOne(t, c, s.tree, s.cache, k);
  }

  lemma LetGoOne(t: Tree, c: Cache, t': Tree, c': Cache, k: nat)
    requires CacheOk(c) && k < NINODE && Lowered(c, c', k) && 0 < c[k].inum < NINODES && RefsMove(c, c', -1, c[k].inum)
    requires t' == if c[k].inum != ROOTINO && c[k].ref == 1 && t[c[k].inum].nlink == 0 then t[c[k].inum := BLANK] else t
    ensures LetGo(t, c, t', c')
  {
    RefsAlone(c, k, NINODE);
    hide Refs;
  }

  /** sys_open gives back the inode when it fails. */
  method Undo(s: Inodes, ghost c0: Cache, k: nat, ghost i: nat, ghost files: Files)
    requires SysOk(s.tree, s.cache) && RefsAre(c0, s.cache, multiset{i}) && Holds(s.cache, k, i) && Live(s.tree, i)
    requires InodesOk(files, s.cache, multiset{i})
    modifies s
    ensures s.tree == old(s.tree) && SysOk(s.tree, s.cache) && InodesOk(files, s.cache, multiset{})
  {
    hide RefsMove, Refs, TreeOk, RefsAre, InodesOk;
    ghost var c1 := s.cache;
    PutLive(s, k, i);
    GaveOne(files, c1, s.cache, k, i);
  }

  method PutLive(s: Inodes, k: nat, ghost i: nat)
    requires SysOk(s.tree, s.cache) && Holds(s.cache, k, i) && Live(s.tree, i)
    modifies s
    ensures s.tree == old(s.tree) && SysOk(s.tree, s.cache) && RefsMove(old(s.cache), s.cache, -1, i)
    ensures Lowered(old(s.cache), s.cache, k)
  {
    hide RefsMove, Refs, TreeOk;
    ghost var c := s.cache;
    s.IPut(k);
    LiveAfter(s.tree, c, s.cache, k, i);
  }
}
