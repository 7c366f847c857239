/** The file layer of fs.c over the log and the cache: block allocation, the block map of an
    inode, truncation, reading and writing. */
module FileSystem {
  import opened LittleEndian
  import opened Blocks
  import opened Lists
  import opened Crash
  import opened BufferCache
  import opened WriteAheadLog
  import opened Layout
  import opened Files
  import opened Space

  /** An inode in memory. */
  class Inode {
    const inum: nat
    var d: DInode

    constructor (i: nat, di: DInode)
      ensures inum == i && d == di
    {
      inum, d := i, di;
    }
  }

  /** An inode as ialloc leaves it. */
  function Fresh(kind: Half): DInode { InodeFields(kind, 0, 0, 0, 0, seq(NDIRECT + 1, _ => 0)) }

  const U64 := 0x1_0000_0000_0000_0000

  /** The scan of fs_alloc: the first unused block, or FSSIZE. */
  method FirstFree(bits: Block) returns (b: nat)
    ensures b <= FSSIZE
    ensures b < FSSIZE ==> !BitAt(bits, b)
    ensures forall x :: 0 <= x < b ==> BitAt(bits, x)
  {
    b := 0;
    while b < FSSIZE && BitAt(bits, b)
      invariant 0 <= b <= FSSIZE
      invariant forall x :: 0 <= x < b ==> BitAt(bits, x)
    {
      b := b + 1;
    }
  }

  /** After c pieces a write has reached the start of its block number c. */
  predicate AtBlock(off: nat, tot: nat, c: nat) {
    && (off + tot) / BSIZE == off / BSIZE + c && (c == 0 ==> tot == 0) && (c > 0 ==> (off + tot) % BSIZE == 0)
  }

  lemma FirstPiece(off: nat, n: nat)
    ensures AtBlock(off, 0, 0)
  {}

  lemma NextPiece(off: nat, tot: nat, n: nat, c: nat)
    requires tot < n && AtBlock(off, tot, c)
    ensures var rest := BSIZE - (off + tot) % BSIZE;
            var m := if n - tot < rest then n - tot else rest;
            c + 1 <= Span(off, n) && 0 < m && (tot + m < n ==> AtBlock(off, tot + m, c + 1))
  {}

  lemma SnugStart(v: Disk, t: Table, j: nat, off: nat)
    requires Snug(v, t) && j < NINODES && off <= t[j].size <= MAXFILE * BSIZE
    ensures SnugTo(v, t, j, off)
  {
    assert t[j := Resized(t[j], off)] == t;
  }

  lemma SnugNow(v: Disk, t: Table, j: nat, end: nat)
    requires SnugTo(v, t, j, end)
    ensures Snug(v, t[j := Resized(t[j], end)])
  {}

  lemma GrowsTable(v: Disk, t: Table, v': Disk, t': Table, j: nat)
    requires Grows(v, t, v', t', j)
    ensures t' == t[j := t[j].(addrs := t'[j].addrs)] && j < NINODES
  {}

  /** The blocks free after a write. */
  lemma ResizedTotal(t: Table, t': Table, j: nat, off: nat, n: nat)
    requires j < NINODES && t' == t[j := t'[j]] && t'[j].size == if off + n > t[j].size then off + n else t[j].size
    ensures Free(t') == Free(t) - Needs(t[j].size, off, n)
  {
    hide TotalBlocks, BlocksFor;
    TotalChanges(t, j, t'[j], NINODES);
  }

  /** An inode without blocks is snug, and the others stay so. */
  lemma TruncateSnug(v: Disk, t: Table, v': Disk, j: nat, d: DInode)
    requires Snug(v, t) && j < NINODES && d.addrs == seq(NDIRECT + 1, _ => 0)
    requires forall i, k :: 0 <= i < NINODES && 0 <= k <= INDIRECT ==>
               Ptr(v', t[j := d][i], k) == if i == j then 0 else Ptr(v, t[i], k)
    ensures Snug(v', t[j := d])
  {
    hide Ptr;
    var t' := t[j := d];
    forall i, k | 0 <= i < NINODES && 0 <= k < MAXFILE && Ptr(v', t'[i], k) != 0 ensures k * BSIZE < t'[i].size {
      var p := Ptr(v, t[i], k);
      assert Ptr(v', t'[i], k) == if i == j then 0 else p;
    }
  }

  lemma SliceJoin(s: seq<Byte>, a: nat, b: nat, c: nat)
    requires a <= b <= c <= |s|
    ensures s[a..b] + s[b..c] == s[a..c]
  {}

  lemma FewMore(p: set<nat>, q: set<nat>, a: int, b: int, c: int)
    requires p <= q && forall x :: x in q && x !in p ==> x == a || x == b || x == c
    ensures |q| <= |p| + 3
  {
    var r := q - p;
    assert q == p + r;
    SmallSet(r, a, b, c);
  }

  lemma TwoMore(p: set<nat>, q: set<nat>, a: int, b: int)
    requires p <= q && forall x :: x in q && x !in p ==> x == a || x == b
    ensures |q| <= |p| + 2
  {
    var s: set<int> := {a, b};
    var r: set<int> := q - p;
    assert q == p + (q - p);
    SubsetSize(r, s);
  }

  lemma SmallSet(r: set<nat>, a: int, b: int, c: int)
    requires forall x :: x in r ==> x == a || x == b || x == c
    ensures |r| <= 3
  {
    var s: set<int> := {a, b, c};
    SubsetSize<int>(r, s);
  }

  class Volume {
    const log: Log
    /** Every inode as it is now, in memory or on disk, and who owns each block. */
    ghost var table: Table
    ghost var owner: map<nat, Place>

    constructor (l: Log, ghost t: Table, ghost o: map<nat, Place>)
      ensures log == l && table == t && owner == o
    {
      log, table, owner := l, t, o;
    }

    ghost function View(): Disk
      reads log, log.cache
    {
      log.cache.g.view
    }

    /** Inside an operation with every buffer released. */
    ghost predicate Ready()
      reads log, log.cache
    {
      log.InOp() && log.cache.g.held == multiset{}
    }

    /** The disk is untouched and the log grew by blocks of `extra` at most. */
    twostate predicate LoggedWithin(new extra: set<int>)
      reads log, log.cache
    {
      && log.cache.g.trace == old(log.cache.g.trace) && log.cache.c.disk == old(log.cache.c.disk)
      && old(log.cache.g.pinned) <= log.cache.g.pinned
      && forall b :: b in log.cache.g.pinned && b !in old(log.cache.g.pinned) ==> b in extra
    }

    /** Nothing was written to the disk: a failure now finds what a failure before would have. */
    twostate predicate Unwritten()
      reads log, log.cache
    {
      log.cache.g.trace == old(log.cache.g.trace) && log.cache.c.disk == old(log.cache.c.disk)
    }

    ghost predicate Consistent()
      reads this, log, log.cache
    {
      FsInv(View(), table, owner)
    }

    /** `ip` is the in-memory copy of its inode. */
    ghost predicate Loaded(ip: Inode)
      reads this, ip
    {
      ip.inum < NINODES && ip.d == table[ip.inum]
    }

    /** fs_alloc: takes the first block the bitmap shows free and clears it; negative stands for
        the panic when there is none. */
    method FsAlloc() returns (r: int)
      requires Ready() && log.n + 1 < MAXLOG
      requires forall b :: 0 <= b <= BMAP ==> Used(View(), b)
      modifies log, log.cache
      ensures Unwritten() && (r < 0 ==> FreeBlocks(old(View())) == {})
      ensures r >= 0 ==>
        Ready() && Allocated(old(View()), r, View()) && LoggedWithin({BMAP, r}) && log.n <= old(log.n) + 2
      ensures r >= 0 ==> forall b :: 0 <= b < r ==> Used(old(View()), b)
    {
      hide Good, Targets, Elements, LogClean, KeepsHolds, FlipAt, BitAt, GetWord;
      log.RoomForOneMore();
      var bits := log.ReadBlock(BMAP);
      var b := FirstFree(bits);
      if b == FSSIZE {
        return -1;
      }
      assert Used(old(View()), b) == BitAt(bits, b);
      assert b > BMAP;
      log.RoomForOneMore();
      log.UpdateBlock(BMAP, FlipAt(bits, b));
      log.RoomForOneMore();
      log.UpdateBlock(b, ZeroBlock());
      r := b;
    }

    /** bmap, an empty pointer inside the inode: a direct one, or that of the indirect block. */
    method AllocInInode(ip: Inode, slot: nat) returns (addr: int)
      requires Ready() && Consistent() && Loaded(ip) && log.n + 1 < MAXLOG
      requires slot <= NDIRECT && ip.d.kind != 0 && ip.d.addrs[slot] == 0
      modifies this, ip, log, log.cache
      ensures Unwritten() && (addr < 0 ==> FreeBlocks(old(View())) == {})
      ensures addr >= 0 ==> Ready() && Consistent() && Loaded(ip) && BMAP < addr < FSSIZE
      ensures addr >= 0 ==> LoggedWithin({BMAP, addr}) && log.n <= old(log.n) + 2
      ensures addr >= 0 ==> ip.d == old(ip.d).(addrs := old(ip.d).addrs[slot := addr])
      ensures addr >= 0 ==> Extends(old(View()), old(table), View(), table, ip.inum)
      ensures addr >= 0 ==>
        OnePtr(old(View()), old(table), View(), table, ip.inum, if slot < NDIRECT then slot else INDIRECT, addr)
      ensures addr >= 0 ==> FreeBlocks(View()) == FreeBlocks(old(View())) - {addr}
    {
      hide Good, Targets, Elements, LogClean, FlipAt, BitAt, GetWord, Owns, Filled, ByteAt, SameBytes, SystemSame;
      hide OnePtr, Extends;
      addr := FsAlloc();
      if addr >= 0 {
        var k := if slot < NDIRECT then slot else INDIRECT;
        LinkInInode(old(View()), table, owner, addr, View(), ip.inum, slot);
        ip.d := ip.d.(addrs := ip.d.addrs[slot := addr]);
        owner := owner[addr := (ip.inum, k)];
        table := table[ip.inum := ip.d];
        ExtendsOne(old(View()), old(table), View(), table, ip.inum, k, addr);
      }
    }

    /** bmap, an empty entry of the indirect block. */
    method AllocInBlock(ip: Inode, e: nat) returns (addr: int)
      requires Ready() && Consistent() && Loaded(ip) && log.n + 2 < MAXLOG
      requires e < NINDIRECT && ip.d.kind != 0 && ip.d.addrs[NDIRECT] != 0
      requires Ptr(View(), ip.d, NDIRECT + e) == 0
      modifies this, log, log.cache
      ensures Unwritten() && (addr < 0 ==> FreeBlocks(old(View())) == {})
      ensures addr >= 0 ==> Ready() && Consistent() && Loaded(ip) && BMAP < addr < FSSIZE
      ensures addr >= 0 ==> LoggedWithin({BMAP, addr, ip.d.addrs[NDIRECT]}) && log.n <= old(log.n) + 3
      ensures addr >= 0 ==> Ptr(View(), ip.d, NDIRECT + e) == addr
      ensures addr >= 0 ==> Extends(old(View()), old(table), View(), table, ip.inum)
      ensures addr >= 0 ==> OnePtr(old(View()), old(table), View(), table, ip.inum, NDIRECT + e, addr)
      ensures addr >= 0 ==> FreeBlocks(View()) == FreeBlocks(old(View())) - {addr}
    {
      hide Good, Targets, Elements, LogClean, FlipAt, BitAt, GetWord, SetWord, Owns, Filled, Ptr, ByteAt, KeepsHolds;
      hide SameBytes, SystemSame, Extends, FreeBlocks;
      addr := FsAlloc();
      if addr >= 0 {
        var ind := ip.d.addrs[NDIRECT];
        LinkInBlock(old(View()), table, owner, addr, View(), ip.inum, e);
        IndirectIsData(old(View()), table, owner, ip.inum);
        log.RoomForOneMore();
        var a := log.ReadBlock(ind);
        log.UpdateBlock(ind, SetWord(a, e, addr));
        owner := owner[addr := (ip.inum, NDIRECT + e)];
        assert table[ip.inum].(addrs := table[ip.inum].addrs) == table[ip.inum];
        ExtendsOne(old(View()), table, View(), table, ip.inum, NDIRECT + e, addr);
      }
    }

    /** bmap for a block beyond the direct ones. */
    method BmapIndirect(ip: Inode, e: nat) returns (addr: int)
      requires Ready() && Consistent() && Loaded(ip) && e < NINDIRECT && ip.d.kind != 0 && log.n + 4 < MAXLOG
      requires Ptr(View(), ip.d, NDIRECT + e) == 0
      modifies this, ip, log, log.cache
      ensures Unwritten() && (addr < 0 ==> |FreeBlocks(old(View()))| < if old(ip.d).addrs[NDIRECT] == 0 then 2 else 1)
      ensures addr >= 0 ==> Ready() && Consistent() && Loaded(ip) && BMAP < addr < FSSIZE
      ensures addr >= 0 ==> OnlyPtr(old(View()), old(table), View(), table, ip.inum, NDIRECT + e)
      ensures addr >= 0 ==> LoggedWithin({BMAP, addr, ip.d.addrs[NDIRECT]})
      ensures addr >= 0 ==> Ptr(View(), ip.d, NDIRECT + e) == addr
      ensures addr >= 0 ==> Extends(old(View()), old(table), View(), table, ip.inum)
      ensures addr >= 0 ==> |FreeBlocks(View())| >= |FreeBlocks(old(View()))| - 2
    {
      hide Good, Targets, Elements, LogClean, FlipAt, BitAt, GetWord, SetWord, Owns, Filled, ByteAt, FreeBlocks;
      hide KeepsHolds, SameBytes, SystemSame, Extends, OnlyPtr, SamePtrs;
      ghost var a := 0;
      if ip.d.addrs[NDIRECT] == 0 {
        addr := AllocInInode(ip, NDIRECT);
        if addr < 0 {
          return;
        }
        a := addr;
        RemoveOne(FreeBlocks(old(View())), addr);
      } else {
        ExtendsNot(View(), table, ip.inum);
        NoPtr(View(), table, ip.inum, 0);
      }
      ghost var v1, t1 := View(), table;
      addr := AllocInBlock(ip, e);
      if addr >= 0 {
        TwoPtrs(old(View()), old(table), v1, t1, View(), table, ip.inum, NDIRECT + e, a, addr);
        ExtendsTwice(old(View()), old(table), v1, t1, View(), table, ip.inum);
        RemoveOne(FreeBlocks(v1), addr);
      }
    }
  
    /** Nothing a later operation could notice changed: latest contents, inodes, owners, log. */
    twostate predicate Untouched(ip: Inode)
      reads this, ip, log, log.cache
    {
      && View() == old(View()) && ip.d == old(ip.d) && table == old(table) && owner == old(owner)
      && log.cache.g.pinned == old(log.cache.g.pinned) && log.cache.g.trace == old(log.cache.g.trace)
      && log.cache.c.disk == old(log.cache.c.disk) && log.n == old(log.n) && log.outstanding == old(log.outstanding)
    }

    /** bmap's look at a pointer, 0 when nothing is there. */
    method Locate(ip: Inode, bn: nat) returns (addr: nat)
      requires log.Up() && log.cache.g.held == multiset{} && log.n < MAXLOG && Consistent() && Loaded(ip)
      requires bn < MAXFILE
      modifies log.cache
      ensures log.Up() && log.cache.g.held == multiset{} && Untouched(ip)
      ensures addr == Ptr(View(), ip.d, bn)
    {
      hide Good, Targets, Elements, LogClean, BitAt, GetWord, KeepsHolds, Filled, Mapped, Owns;
      if bn < NDIRECT {
        addr := ip.d.addrs[bn];
      } else if ip.d.addrs[NDIRECT] == 0 {
        addr := 0;
      } else {
        IndirectIsData(View(), table, owner, ip.inum);
        log.RoomForOneMore();
        var a := log.ReadBlock(ip.d.addrs[NDIRECT]);
        addr := GetWord(a, bn - NDIRECT);
      }
    }

    /** bmap: the disk block of file block bn, allocated on demand. A block that is already there
        is found without touching anything, so outside of an operation too. */
    method Bmap(ip: Inode, bn: nat) returns (addr: int)
      requires log.Up() && log.cache.g.held == multiset{} && log.n < MAXLOG
      requires Consistent() && Loaded(ip) && bn < MAXFILE
      requires Ptr(View(), ip.d, bn) != 0 || (log.outstanding == 1 && ip.d.kind != 0 && log.n + 4 < MAXLOG)
      modifies this, ip, log, log.cache
      ensures Unwritten() && (addr < 0 ==> old(Ptr(View(), ip.d, bn)) == 0)
      ensures addr < 0 ==> |FreeBlocks(old(View()))| < if bn >= NDIRECT && old(ip.d).addrs[NDIRECT] == 0 then 2 else 1
      ensures addr >= 0 ==> OnlyPtr(old(View()), old(table), View(), table, ip.inum, bn)
      ensures addr >= 0 ==> log.Up() && log.cache.g.held == multiset{} && log.outstanding == old(log.outstanding)
      ensures addr >= 0 ==> Consistent() && Loaded(ip) && BMAP < addr < FSSIZE && Ptr(View(), ip.d, bn) == addr
      ensures addr >= 0 ==> Extends(old(View()), old(table), View(), table, ip.inum)
      ensures addr >= 0 ==> LoggedWithin({BMAP, addr} + if bn < NDIRECT then {} else {ip.d.addrs[NDIRECT]})
      ensures addr >= 0 && bn >= NDIRECT ==> ip.d.addrs[NDIRECT] != 0
      ensures addr >= 0 ==> |FreeBlocks(View())| >= |FreeBlocks(old(View()))| - 2
      ensures old(Ptr(View(), ip.d, bn)) != 0 ==>
                && View() == old(View()) && ip.d == old(ip.d) && table == old(table) && owner == old(owner)
                && LoggedWithin({})
    {
      hide Good, Targets, Elements, LogClean, BitAt, GetWord, SameBytes, SystemSame, Extends, OnePtr, FreeBlocks;
      hide Filled, Mapped, Owns, OnlyPtr, SamePtrs;
      addr := Locate(ip, bn);
      if addr != 0 {
        ExtendsNot(View(), table, ip.inum);
        NoPtr(View(), table, ip.inum, bn);
        PointerIsData(View(), table, owner, ip.inum, bn);
        IndirectFirst(View(), ip.d, bn);
      } else if bn < NDIRECT {
        addr := AllocInInode(ip, bn);
        RemoveOne(FreeBlocks(old(View())), if addr < 0 then 0 else addr);
        if addr >= 0 {
          OnePtrIsOnly(old(View()), old(table), View(), table, ip.inum, bn, addr);
        }
      } else {
        addr := BmapIndirect(ip, bn - NDIRECT);
        if addr > 0 {
          IndirectFirst(View(), ip.d, bn);
        }
      }
    }

    /** iupdate: stores the in-memory inode in its inode block. */
    method IUpdate(ip: Inode, ghost stale: set<nat>)
      requires Ready() && Consistent() && Loaded(ip) && log.n < MAXLOG && OnDisk(View(), table, stale)
      modifies log, log.cache
      ensures Ready() && Consistent() && OnDisk(View(), table, stale - {ip.inum})
      ensures SameBytes(old(View()), table, View(), table) && SamePtrs(old(View()), table, View(), table)
      ensures FreeBlocks(View()) == FreeBlocks(old(View()))
      ensures LoggedWithin({InodeBlock(ip.inum)}) && log.n <= old(log.n) + 1
    {
      hide Good, Targets, Elements, LogClean, BitAt, GetWord, PutInode, KeepsHolds, SameBytes, SamePtrs, FreeBlocks;
      hide Filled, Mapped, Owns, OnDisk;
      var ib := InodeBlock(ip.inum);
      log.RoomForOneMore();
      var block := log.ReadBlock(ib);
      log.UpdateBlock(ib, PutInode(block, ip.inum % IPB, ip.d));
      InodeStored(old(View()), table, owner, ip.inum, stale, View());
    }
  
    /** One turn of readi's loop: m bytes from one block. */
    method ReadPiece(ip: Inode, off: nat, m: nat) returns (part: seq<Byte>)
      requires log.Up() && log.cache.g.held == multiset{} && log.n < MAXLOG && Consistent() && Loaded(ip)
      requires off % BSIZE + m <= BSIZE && off < ip.d.size && off + m <= ip.d.size
      modifies this, ip, log, log.cache
      ensures log.Up() && log.cache.g.held == multiset{} && Untouched(ip)
      ensures part == Contents(View(), ip.d)[off..off + m]
    {
      hide Good, Targets, Elements, LogClean, KeepsHolds, Extends, FreeBlocks, Mapped, Owns, BitAt, GetWord;
      BelowSize(View(), table, owner, ip.inum, off);
      log.CountsPins();
      var addr := Bmap(ip, off / BSIZE);
      assert log.cache.g.pinned == old(log.cache.g.pinned);
      log.CountsPins();
      log.RoomForOneMore();
      var block := log.ReadBlock(addr);
      log.CountsPins();
      part := block[off % BSIZE..off % BSIZE + m];
      hide Ptr;
      forall i | 0 <= i < m
        ensures part[i] == Contents(View(), ip.d)[off + i]
      {
        assert (off + i) / BSIZE == off / BSIZE && (off + i) % BSIZE == off % BSIZE + i;
      }
    }

    /** readi: the bytes of the file from off on, clipped at its end. It works outside of an
        operation because it never needs a new block. */
    method ReadI(ip: Inode, off: nat, n: nat) returns (data: seq<Byte>)
      requires log.Up() && log.cache.g.held == multiset{} && log.n < MAXLOG && Consistent() && Loaded(ip)
      modifies this, ip, log, log.cache
      ensures log.Up() && log.cache.g.held == multiset{} && Consistent() && Loaded(ip) && Untouched(ip)
      ensures ip.d.size <= MAXFILE * BSIZE
      ensures data == if off > ip.d.size || off + n >= U64 then []
                      else Contents(View(), ip.d)[off..if off + n > ip.d.size then ip.d.size else off + n]
    {
      hide Good, Targets, Elements, LogClean, FsInv, Contents;
      SizeInRange(View(), table, owner, ip.inum);
      data := [];
      if off > ip.d.size || off + n >= U64 {
        return;
      }
      var want := if off + n > ip.d.size then ip.d.size - off else n;
      ghost var all := Contents(View(), ip.d);
      while |data| < want
        invariant log.Up() && log.cache.g.held == multiset{} && Consistent() && Loaded(ip) && Untouched(ip)
        invariant |data| <= want && data == all[off..off + |data|]
      {
        var at := off + |data|;
        var m := BSIZE - at % BSIZE;
        if want - |data| < m {
          m := want - |data|;
        }
        var part := ReadPiece(ip, at, m);
        SliceJoin(all, off, at, at + m);
        data := data + part;
      }
    }
  
    /** One turn of writei's loop: a part that fits into one block. */
    method WritePiece(ip: Inode, off: nat, part: seq<Byte>) returns (addr: int)
      requires Ready() && Consistent() && Loaded(ip) && ip.d.kind != 0 && log.n + 4 < MAXLOG
      requires off % BSIZE + |part| <= BSIZE && off < MAXFILE * BSIZE
      modifies this, ip, log, log.cache
      ensures Unwritten() && (addr < 0 ==> old(Ptr(View(), ip.d, off / BSIZE)) == 0 && off >= old(ip.d).size)
      ensures addr < 0 ==>
        |FreeBlocks(old(View()))| < if off / BSIZE >= NDIRECT && old(ip.d).addrs[NDIRECT] == 0 then 2 else 1
      ensures addr >= 0 ==> OnlyPtr(old(View()), old(table), View(), table, ip.inum, off / BSIZE)
      ensures addr >= 0 ==> Ready() && Consistent() && Loaded(ip)
      ensures addr >= 0 ==> Grows(old(View()), old(table), View(), table, ip.inum)
      ensures addr >= 0 ==> Wrote(old(View()), old(table), View(), table, ip.inum, off, part)
      ensures addr >= 0 ==> Ptr(View(), ip.d, off / BSIZE) != 0
      ensures addr >= 0 ==> LoggedWithin({BMAP, addr} + if off / BSIZE < NDIRECT then {} else {ip.d.addrs[NDIRECT]})
      ensures addr >= 0 && off / BSIZE >= NDIRECT ==> ip.d.addrs[NDIRECT] != 0
      ensures addr >= 0 ==> |FreeBlocks(View())| >= |FreeBlocks(old(View()))| - 2
    {
      hide Good, Targets, Elements, LogClean, BitAt, GetWord, Ptr, Grows, SameBytes, Wrote, FreeBlocks, Filled;
      hide Mapped, Owns, OnlyPtr, SamePtrs;
      log.CountsPins();
      if off < ip.d.size {
        BelowSize(View(), table, owner, ip.inum, off);
      }
      addr := Bmap(ip, off / BSIZE);
      if addr >= 0 {
        log.CountsPins();
        FewMore(old(log.cache.g.pinned), log.cache.g.pinned, BMAP, addr, ip.d.addrs[NDIRECT]);
        ghost var v1, t1 := View(), table;
        FillBlock(ip, addr, off, part);
        OnlyThenSame(old(View()), old(table), v1, t1, View(), ip.inum, off / BSIZE);
        GrowsTwice(old(View()), old(table), v1, t1, View(), table, ip.inum);
        WroteAfterNothing(old(View()), old(table), v1, t1, View(), table, ip.inum, off, part);
      }
    }

    /** The copy into the buffer of a mapped block, and its log_write. */
    method FillBlock(ip: Inode, addr: nat, off: nat, part: seq<Byte>)
      requires Ready() && Consistent() && Loaded(ip) && log.n < MAXLOG
      requires off % BSIZE + |part| <= BSIZE && off < MAXFILE * BSIZE
      requires Ptr(View(), ip.d, off / BSIZE) == addr && BMAP < addr < FSSIZE
      modifies log, log.cache
      ensures Ready() && Consistent() && LoggedWithin({addr})
      ensures Grows(old(View()), table, View(), table, ip.inum)
      ensures Wrote(old(View()), table, View(), table, ip.inum, off, part)
      ensures Ptr(View(), ip.d, off / BSIZE) == addr && FreeBlocks(View()) == FreeBlocks(old(View()))
      ensures SamePtrs(old(View()), table, View(), table)
    {
      hide Good, Targets, Elements, LogClean, KeepsHolds, BitAt, GetWord, Ptr, Grows, SameBytes, Wrote, FreeBlocks;
      hide Filled, Mapped, Owns;
      log.RoomForOneMore();
      var block := log.ReadBlock(addr);
      var o := off % BSIZE;
      log.UpdateBlock(addr, block[..o] + part + block[o + |part|..]);
      DataWriteGrows(old(View()), table, owner, ip.inum, off / BSIZE, o, part, View());
    }
  
    /** writei's loop: block by block until the source is used up, or until the disk is full. */
    method WriteLoop(ip: Inode, off: nat, src: seq<Byte>) returns (halted: bool)
      requires Ready() && Consistent() && Loaded(ip) && ip.d.kind != 0
      requires off + |src| <= MAXFILE * BSIZE && log.n + Span(off, |src|) + 5 < MAXLOG
      requires Snug(View(), table) && off <= ip.d.size
      modifies this, ip, log, log.cache
      ensures Unwritten() && (halted ==> |FreeBlocks(old(View()))| < Needs(old(ip.d).size, off, |src|))
      ensures !halted ==> SnugTo(View(), table, ip.inum, off + |src|)
      ensures !halted ==> Ready() && Consistent() && Loaded(ip)
      ensures !halted ==> Grows(old(View()), old(table), View(), table, ip.inum)
      ensures !halted ==> Wrote(old(View()), old(table), View(), table, ip.inum, off, src)
      ensures !halted ==> Covered(View(), ip.d, off, off + |src|)
      ensures !halted ==> log.n <= old(log.n) + Span(off, |src|) + 2
    {
      hide Good, Targets, Elements, LogClean, BitAt, GetWord, Ptr, Grows, SameBytes, Wrote, FreeBlocks, Filled;
      hide Mapped, Owns, LogsOnly, Span, AtBlock, Covered, Snug, SnugTo, OnlyPtr, Needs;
      SnugStart(View(), table, ip.inum, off);
      FirstPiece(off, |src|);
      var tot := 0;
      ghost var c, data := 0, {};
      log.CountsPins();
      StartWrite(View(), table, owner, ip.inum, off, log.cache.g.pinned);
      while tot < |src|
        invariant 0 <= tot <= |src| && c <= Span(off, |src|)
        invariant Ready() && Consistent() && Loaded(ip) && ip.d.kind != 0 && ip.d.size == old(ip.d).size
        invariant Grows(old(View()), old(table), View(), table, ip.inum)
        invariant Wrote(old(View()), old(table), View(), table, ip.inum, off, src[..tot])
        invariant tot < |src| ==> AtBlock(off, tot, c)
        invariant Covered(View(), ip.d, off, off + tot)
        invariant LogsOnly(old(log.cache.g.pinned), log.cache.g.pinned, data, ip.d) && |data| <= c
        invariant SnugTo(View(), table, ip.inum, off + tot) && table[ip.inum].kind == old(table)[ip.inum].kind
        invariant table == old(table)[ip.inum := old(table)[ip.inum].(addrs := table[ip.inum].addrs)]
        invariant log.cache.g.trace == old(log.cache.g.trace) && log.cache.c.disk == old(log.cache.c.disk)
      {
        var at := off + tot;
        var m := BSIZE - at % BSIZE;
        if |src| - tot < m {
          m := |src| - tot;
        }
        NextPiece(off, tot, |src|, c);
        log.CountsPins();
        LogsFew(old(log.cache.g.pinned), log.cache.g.pinned, data, ip.d);
        ghost var v1, t1, o1, p1, d1 := View(), table, owner, log.cache.g.pinned, ip.d;
        var addr := WritePiece(ip, at, src[tot..tot + m]);
        if addr < 0 {
          StopsShort(old(View()), old(table), old(owner), v1, t1, o1, ip.inum, off, at, off + |src|);
          return true;
        }
        GrowsTable(v1, t1, View(), table, ip.inum);
        SnugStep(v1, t1, View(), table, ip.inum, at, m);
        IndirectStays(v1, t1, View(), table, ip.inum);
        LogsOnlyMore(old(log.cache.g.pinned), p1, log.cache.g.pinned, data, d1, ip.d, addr);
        WroteTwice(old(View()), old(table), v1, t1, View(), table, ip.inum, off, src[..tot], src[tot..tot + m]);
        assert src[..tot] + src[tot..tot + m] == src[..tot + m];
        GrowsTwice(old(View()), old(table), v1, t1, View(), table, ip.inum);
        GrowsMapped(v1, t1, View(), table, ip.inum, off, at, m);
        tot := tot + m;
        c, data := c + 1, data + {addr as nat};
      }
      assert src[..tot] == src;
      log.CountsPins();
      LogsFew(old(log.cache.g.pinned), log.cache.g.pinned, data, ip.d);
      halted := false;
    }
  
    /** writei: a splice of the file's bytes. It refuses offsets beyond the end and files beyond
        the maximum; `halted` stands for the panic when the disk has fewer blocks left than the file
        needs more, so a write inside the file never meets it. */
    method WriteI(ip: Inode, off: nat, src: seq<Byte>) returns (r: int, halted: bool)
      requires Ready() && Consistent() && Loaded(ip) && ip.d.kind != 0 && OnDisk(View(), table, {})
      requires log.n + Span(off, |src|) + 5 < MAXLOG && Snug(View(), table)
      modifies this, ip, log, log.cache
      ensures Unwritten()
      ensures halted <==> Fits(old(ip.d).size, off, |src|) && Free(old(table)) < Needs(old(ip.d).size, off, |src|)
      ensures !halted ==> Ready() && Consistent() && Loaded(ip) && OnDisk(View(), table, {}) && Snug(View(), table)
      ensures !halted ==> log.n <= old(log.n) + Span(off, |src|) + 3
      ensures !halted ==> (r == -1 <==> off > old(ip.d).size || off + |src| >= U64 || off + |src| > MAXFILE * BSIZE)
      ensures !halted && r == -1 ==> Untouched(ip)
      ensures !halted && r != -1 ==> r == |src| && Spliced(old(View()), old(table), View(), table, ip.inum, off, src)
      ensures !halted && r != -1 ==> Free(table) == Free(old(table)) - Needs(old(ip.d).size, off, |src|)
    {
      hide Good, Targets, Elements, LogClean, BitAt, GetWord, Ptr, Grows, SameBytes, SamePtrs, Wrote, FreeBlocks;
      hide Filled, Mapped, Owns, OnDisk, Spliced, GetInode, Covered, Snug, SnugTo, Needs, TotalBlocks;
      r, halted := -1, false;
      FreeIsRest(View(), table, owner);
      if off > ip.d.size || off + |src| >= U64 || off + |src| > MAXFILE * BSIZE {
        return;
      }
      halted := WriteLoop(ip, off, src);
      if !halted {
        ghost var v1, t1 := View(), table;
        IndirectStays(old(View()), old(table), v1, t1, ip.inum);
        GrowsTable(old(View()), old(table), v1, t1, ip.inum);
        GrowsOnDisk(old(View()), old(table), v1, t1, ip.inum, {});
        ResizeKeeps(View(), table, owner, ip.inum, off, off + |src|);
        SnugNow(View(), table, ip.inum, off + |src|);
        if off + |src| > ip.d.size {
          ip.d := ip.d.(size := off + |src|);
        }
        table := table[ip.inum := ip.d];
        ResizeOnDisk(v1, t1, ip.inum, off + |src|);
        ghost var t2 := table;
        IUpdate(ip, {ip.inum});
        assert {ip.inum} - {ip.inum} == {};
        SnugSame(v1, t2, View(), table);
        FreeIsRest(View(), table, owner);
        ResizedTotal(old(table), table, ip.inum, off, |src|);
        SameBytesTwice(v1, t1, v1, t2, View(), table);
        WriteIsSplice(old(View()), old(table), v1, t1, View(), table, ip.inum, off, src);
        r := |src|;
      }
    }
  
    /** fs_free: clears a block's bit; the block must be in use. */
    method FsFree(b: nat)
      requires Ready() && log.n < MAXLOG && BMAP < b < FSSIZE && Used(View(), b)
      modifies log, log.cache
      ensures Ready() && View() == old(View())[BMAP := FlipAt(old(View())[BMAP], b)]
      ensures LoggedWithin({BMAP}) && log.n == if BMAP in old(log.cache.g.pinned) then old(log.n) else old(log.n) + 1
      ensures BMAP in log.cache.g.pinned
    {
      hide Good, Targets, Elements, LogClean, KeepsHolds, FlipAt, BitAt, GetWord;
      log.RoomForOneMore();
      var bits := log.ReadBlock(BMAP);
      log.UpdateBlock(BMAP, FlipAt(bits, b));
    }

    /** Frees what pointer k of the inode points at, if anything. */
    method FreeOne(ip: Inode, k: nat, b: nat, ghost v0: Disk, ghost was: nat)
      requires Ready() && ip.inum < NINODES && FsInv(v0, table, owner) && k <= INDIRECT
      requires b == Ptr(v0, table[ip.inum], k)
      requires log.n + (if BMAP in log.cache.g.pinned then 0 else 1) <= was < MAXLOG && log.n < MAXLOG
      requires Releasing(View(), owner, ip.inum, k)
      requires forall x :: 0 <= x < FSSIZE && x != BMAP ==> View()[x] == v0[x]
      modifies log, log.cache
      ensures Ready() && LoggedWithin({BMAP})
      ensures log.n + (if BMAP in log.cache.g.pinned then 0 else 1) <= was
      ensures Releasing(View(), owner, ip.inum, k + 1)
      ensures forall x :: 0 <= x < FSSIZE && x != BMAP ==> View()[x] == v0[x]
    {
      hide Good, Targets, Elements, LogClean, FlipAt, BitAt, GetWord, Ptr, Owns, Mapped, Filled, Releasing;
      if b != 0 {
        ReleaseOne(v0, table, owner, ip.inum, k, View());
        FsFree(b);
      } else {
        ReleaseNone(v0, table, owner, ip.inum, k, View());
      }
    }
  
    /** itrunc's first loop: the direct blocks. */
    method FreeDirect(ip: Inode, ghost was: nat)
      requires Ready() && Consistent() && Loaded(ip)
      requires log.n + (if BMAP in log.cache.g.pinned then 0 else 1) <= was < MAXLOG && log.n < MAXLOG
      modifies ip, log, log.cache
      ensures Ready() && LoggedWithin({BMAP})
      ensures log.n + (if BMAP in log.cache.g.pinned then 0 else 1) <= was
      ensures Releasing(View(), owner, ip.inum, NDIRECT)
      ensures forall x :: 0 <= x < FSSIZE && x != BMAP ==> View()[x] == old(View())[x]
      ensures ip.d == old(ip.d).(addrs := ip.d.addrs) && ip.d.addrs[NDIRECT] == old(ip.d).addrs[NDIRECT]
      ensures forall k :: 0 <= k < NDIRECT ==> ip.d.addrs[k] == 0
    {
      hide Good, Targets, Elements, LogClean, BitAt, GetWord, Owns, Mapped, Filled, Releasing;
      ReleaseStart(View(), owner, ip.inum);
      var i := 0;
      while i < NDIRECT
        invariant 0 <= i <= NDIRECT && Ready() && LoggedWithin({BMAP})
        invariant log.n + (if BMAP in log.cache.g.pinned then 0 else 1) <= was
        invariant Releasing(View(), owner, ip.inum, i)
        invariant forall x :: 0 <= x < FSSIZE && x != BMAP ==> View()[x] == old(View())[x]
        invariant ip.d == old(ip.d).(addrs := ip.d.addrs)
        invariant forall k :: 0 <= k <= NDIRECT ==> ip.d.addrs[k] == if k < i then 0 else old(ip.d).addrs[k]
      {
        FreeOne(ip, i, ip.d.addrs[i], old(View()), was);
        ip.d := ip.d.(addrs := ip.d.addrs[i := 0]);
        i := i + 1;
      }
    }

    /** itrunc's second loop: the blocks named in the indirect block, then the indirect block. */
    method FreeIndirect(ip: Inode, ghost v0: Disk, ghost was: nat)
      requires Ready() && FsInv(v0, table, owner) && ip.inum < NINODES
      requires ip.d.addrs[NDIRECT] == table[ip.inum].addrs[NDIRECT]
      requires log.n + (if BMAP in log.cache.g.pinned then 0 else 1) <= was < MAXLOG && log.n < MAXLOG
      requires Releasing(View(), owner, ip.inum, NDIRECT)
      requires forall x :: 0 <= x < FSSIZE && x != BMAP ==> View()[x] == v0[x]
      modifies ip, log, log.cache
      ensures Ready() && LoggedWithin({BMAP})
      ensures log.n + (if BMAP in log.cache.g.pinned then 0 else 1) <= was
      ensures Releasing(View(), owner, ip.inum, INDIRECT + 1)
      ensures forall x :: 0 <= x < FSSIZE && x != BMAP ==> View()[x] == v0[x]
      ensures ip.d == old(ip.d).(addrs := old(ip.d).addrs[NDIRECT := 0])
    {
      hide Good, Targets, Elements, LogClean, BitAt, GetWord, Owns, Mapped, Filled, Releasing, KeepsHolds;
      var ind := ip.d.addrs[NDIRECT];
      if ind == 0 {
        ReleaseNoIndirect(v0, table, owner, ip.inum, NDIRECT, View());
        assert old(ip.d).addrs[NDIRECT := 0] == old(ip.d).addrs;
        return;
      }
      IndirectIsData(v0, table, owner, ip.inum);
      log.RoomForOneMore();
      var a := log.ReadBlock(ind);
      var j := 0;
      while j < NINDIRECT
        invariant 0 <= j <= NINDIRECT && Ready() && LoggedWithin({BMAP})
        invariant log.n + (if BMAP in log.cache.g.pinned then 0 else 1) <= was && log.n < MAXLOG
        invariant Releasing(View(), owner, ip.inum, NDIRECT + j)
        invariant forall x :: 0 <= x < FSSIZE && x != BMAP ==> View()[x] == v0[x]
        invariant ip.d == old(ip.d)
      {
        FreeOne(ip, NDIRECT + j, GetWord(a, j), v0, was);
        j := j + 1;
      }
      FreeOne(ip, INDIRECT, ind, v0, was);
      ip.d := ip.d.(addrs := ip.d.addrs[NDIRECT := 0]);
    }

    /** itrunc: frees exactly the blocks the inode owns, and nothing else changes. */
    method ITrunc(ip: Inode, ghost stale: set<nat>)
      requires Ready() && Consistent() && Loaded(ip) && log.n + 1 < MAXLOG && OnDisk(View(), table, stale)
      requires Snug(View(), table)
      modifies this, ip, log, log.cache
      ensures Ready() && Consistent() && Loaded(ip) && OnDisk(View(), table, stale - {ip.inum}) && Snug(View(), table)
      ensures ip.d == old(ip.d).(addrs := seq(NDIRECT + 1, _ => 0), size := 0) && table == old(table)[ip.inum := ip.d]
      ensures owner == Disowned(old(owner), ip.inum)
      ensures FreeBlocks(View()) == FreeBlocks(old(View())) + set b | b in old(owner) && old(owner)[b].0 == ip.inum
      ensures forall i, x :: 0 <= i < NINODES && i != ip.inum && 0 <= x < MAXFILE * BSIZE ==>
                ByteAt(View(), table[i], x) == ByteAt(old(View()), table[i], x)
      ensures LoggedWithin({BMAP, InodeBlock(ip.inum)}) && log.n <= old(log.n) + 2
    {
      hide Good, Targets, Elements, LogClean, BitAt, GetWord, Ptr, ByteAt, Filled, Releasing, GetInode, FreeBlocks;
      hide Disowned, Snug, SamePtrs;
      ghost var v0 := View();
      FreeDirect(ip, log.n + 1);
      FreeIndirect(ip, v0, old(log.n) + 1);
      ghost var v1 := View();
      ip.d := ip.d.(size := 0);
      assert ip.d.addrs == seq(NDIRECT + 1, _ => 0);
      TruncateKeeps(v0, table, owner, v1, ip.inum, ip.d);
      TruncateSnug(v0, table, v1, ip.inum, ip.d);
      ReleasedBlocks(v0, owner, ip.inum, v1);
      table := table[ip.inum := ip.d];
      owner := Disowned(owner, ip.inum);
      TruncatedOnDisk(v0, old(table), v1, ip.inum, ip.d, stale);
      IUpdate(ip, stale + {ip.inum});
      SnugSame(v1, table, View(), table);
      assert stale + {ip.inum} - {ip.inum} == stale - {ip.inum};
    }

    // ---------- inodes ----------

    /** ilock: the in-memory copy of an inode, read from its block. */
    method ILock(inum: nat) returns (ip: Inode)
      requires log.Up() && log.cache.g.held == multiset{} && log.n < MAXLOG && inum < NINODES
      requires OnDisk(View(), table, {})
      modifies log.cache
      ensures fresh(ip) && ip.inum == inum && Loaded(ip)
      ensures log.Up() && log.cache.g.held == multiset{} && View() == old(View()) && Unwritten()
      ensures log.cache.g.pinned == old(log.cache.g.pinned)
    {
      hide Good, Targets, Elements, LogClean, GetWord, KeepsHolds, InodeAt;
      log.RoomForOneMore();
      var block := log.ReadBlock(InodeBlock(inum));
      ip := new Inode(inum, InodeAt(block, inum % IPB));
      assert GetInode(View(), inum) == table[inum];
    }

    /** ialloc's store into a free inode. */
    method Claim(i: nat, block: Block, kind: Half)
      requires Ready() && Consistent() && OnDisk(View(), table, {}) && kind != 0 && log.n < MAXLOG
      requires i < NINODES && block == View()[InodeBlock(i)] && table[i].kind == 0 && Snug(View(), table)
      modifies this, log, log.cache
      ensures Snug(View(), table)
      ensures table == old(table)[i := Fresh(kind)] && owner == old(owner)
      ensures Ready() && Consistent() && OnDisk(View(), table, {}) && SameBytes(old(View()), old(table), View(), table)
      ensures FreeBlocks(View()) == FreeBlocks(old(View()))
      ensures LoggedWithin({InodeBlock(i)}) && log.n <= old(log.n) + 1
    {
      hide Good, Targets, Elements, LogClean, BitAt, GetWord, PutInode, KeepsHolds, SameBytes, SamePtrs, FreeBlocks;
      hide Filled, Mapped, Owns, InodeAt, Shaped, OnDisk, Snug;
      ghost var v1 := View();
      FreeHasNothing(v1, table, owner, i);
      RekindKeeps(v1, table, owner, i, Fresh(kind), {});
      table := table[i := Fresh(kind)];
      log.RoomForOneMore();
      log.UpdateBlock(InodeBlock(i), PutInode(block, i % IPB, Fresh(kind)));
      assert {} + {i} == {i} && {i} - {i} == {};
      InodeStored(v1, table, owner, i, {i}, View());
      SnugSame(v1, old(table), v1, table);
      SnugSame(v1, table, View(), table);
      SameBytesTwice(v1, old(table), v1, table, View(), table);
    }

    /** ialloc: the first free inode from 1 on gets a kind, and nothing else, on disk; -1 stands for
        the panic when there is none. */
    method IAlloc(kind: Half) returns (inum: int)
      requires Ready() && Consistent() && OnDisk(View(), table, {}) && kind != 0 && log.n < MAXLOG
      requires Snug(View(), table)
      modifies this, log, log.cache
      ensures inum != -1 ==> Snug(View(), table)
      ensures inum == -1 ==> forall j :: 1 <= j < NINODES ==> old(table)[j].kind != 0
      ensures inum != -1 ==>
        && 1 <= inum < NINODES && old(table)[inum].kind == 0 && (forall j :: 1 <= j < inum ==> old(table)[j].kind != 0)
        && table == old(table)[inum := Fresh(kind)] && owner == old(owner)
        && Ready() && Consistent() && OnDisk(View(), table, {}) && SameBytes(old(View()), old(table), View(), table)
        && FreeBlocks(View()) == FreeBlocks(old(View()))
        && LoggedWithin({InodeBlock(inum)}) && log.n <= old(log.n) + 1
      ensures Unwritten()
    {
      hide Good, Targets, Elements, LogClean, BitAt, GetWord, PutInode, KeepsHolds, SameBytes, SamePtrs, FreeBlocks;
      hide Filled, Mapped, Owns, InodeAt, Shaped, Fresh, Snug;
      var i := 1;
      while i < NINODES
        invariant 1 <= i <= NINODES && (forall j :: 1 <= j < i ==> table[j].kind != 0)
        invariant Ready() && View() == old(View()) && Unwritten() && log.n == old(log.n)
        invariant table == old(table) && owner == old(owner) && log.cache.g.pinned == old(log.cache.g.pinned)
      {
        log.RoomForOneMore();
        var block := log.ReadBlock(InodeBlock(i));
        log.CountsPins();
        assert GetInode(View(), i) == table[i];
        if InodeAt(block, i % IPB).kind == 0 {
          Claim(i, block, kind);
          return i;
        }
        i := i + 1;
      }
      return -1;
    }

    /** The branch of iput that frees an inode nobody links to or holds: its blocks are free again,
        and so is the inode. */
    method IFree(ip: Inode)
      requires Ready() && Consistent() && Loaded(ip) && OnDisk(View(), table, {}) && log.n + 2 < MAXLOG
      requires Snug(View(), table)
      modifies this, ip, log, log.cache
      ensures Ready() && Consistent() && Loaded(ip) && OnDisk(View(), table, {}) && Snug(View(), table) && Unwritten()
      ensures ip.d == old(ip.d).(kind := 0, size := 0, addrs := seq(NDIRECT + 1, _ => 0))
      ensures table == old(table)[ip.inum := ip.d] && owner == Disowned(old(owner), ip.inum)
      ensures FreeBlocks(View()) == FreeBlocks(old(View())) + set b | b in old(owner) && old(owner)[b].0 == ip.inum
      ensures forall i, x :: 0 <= i < NINODES && i != ip.inum && 0 <= x < MAXFILE * BSIZE ==>
                ByteAt(View(), table[i], x) == ByteAt(old(View()), table[i], x)
      ensures log.n <= old(log.n) + 2
    {
      hide Good, Targets, Elements, LogClean, BitAt, GetWord, Ptr, ByteAt, Filled, Mapped, Owns, Shaped, GetInode;
      hide Disowned, Snug, SamePtrs;
      log.CountsPins();
      ITrunc(ip, {});
      log.CountsPins();
      assert {} - {ip.inum} == {};
      ghost var v1, t1 := View(), table;
      var d := ip.d.(kind := 0);
      RekindKeeps(View(), table, owner, ip.inum, d, {});
      ip.d := d;
      table := table[ip.inum := d];
      SnugSame(v1, t1, v1, table);
      IUpdate(ip, {ip.inum});
      SnugSame(v1, table, View(), table);
      assert {ip.inum} - {ip.inum} == {};
      log.CountsPins();
      TwoMore(old(log.cache.g.pinned), log.cache.g.pinned, BMAP, InodeBlock(ip.inum));
    }
  }
}
