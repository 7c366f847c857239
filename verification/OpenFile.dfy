/** file.c: reading and writing through an open file. A write is cut into chunks, each its own
    transaction; a power failure leaves a whole number of chunks. */
module OpenFile {
  import opened LittleEndian
  import opened Blocks
  import opened Crash
  import opened BufferCache
  import opened WriteAheadLog
  import opened Layout
  import opened Files
  import opened Space
  import opened Superblock
  import opened FileSystem

  /** The most bytes one transaction may write. */
  const CHUNK := (LOGSIZE - 1 - 1 - 2) / 2 * BSIZE

  class File {
    const readable: bool
    const writable: bool
    const append: bool
    const ip: Inode
    var off: nat

    constructor (r: bool, w: bool, a: bool, i: Inode)
      ensures readable == r && writable == w && append == a && ip == i && off == 0
    {
      readable, writable, append, ip, off := r, w, a, i, 0;
    }
  }

  /** A chunk touches at most fourteen data blocks wherever it starts, so with the bitmap, the
      inode and the indirect block it logs at most seventeen, and the log never overflows. */
  lemma ChunkFits(off: nat, n: nat)
    requires n <= CHUNK
    ensures Span(off, n) + 3 <= 17 < MAXLOG
  {}

  /** The bytes that file_write gets into a file of that size before it is refused: all, or the whole
      chunks that the largest file has room for. */
  function Reach(size: nat, off: nat, n: nat): (r: nat)
    requires size <= MAXFILE * BSIZE
    ensures r <= n && (r < n ==> off > size || off + n > 274432)
    ensures r > 0 ==> off <= size && off + r <= 274432
    ensures r < n && off <= size ==> r % 13312 == 0 && 274432 < off + r + 13312
  {
    if off > size then 0 else if off + n <= MAXFILE * BSIZE then n else (MAXFILE * BSIZE - off) / CHUNK * CHUNK
  }

  /** The next chunk of what is left, where it ends, and whether it is refused. */
  lemma NextChunk(size: nat, off: nat, all: nat, i: nat)
    requires i < all && Boundary(i, all) && size <= MAXFILE * BSIZE && i <= Reach(size, off, all)
    ensures var n := if all - i > CHUNK then CHUNK else all - i;
            var now := if off <= size && off + i > size then off + i else size;
            && Boundary(i + n, all)
            && (if Fits(now, off + i, n) then i + n <= Reach(size, off, all) else i == Reach(size, off, all))
  {
    var q := (MAXFILE * BSIZE - off) / CHUNK;
    if off <= size && off + all > MAXFILE * BSIZE {
      assert i / CHUNK <= q;
    }
  }

  lemma NeedsMore(size: nat, off: nat, all: nat, i: nat)
    requires off <= size <= MAXFILE * BSIZE
    ensures i <= Reach(size, off, all) ==> Needs(size, off, i) <= Needs(size, off, Reach(size, off, all))
  {
    var r := Reach(size, off, all);
    if i <= r { NeedsAdd(size, off, i, r - i); }
  }

  // ---------- the log area is nobody's business ----------

  /** The file system does not look at the log's blocks. */
  lemma LogIsIrrelevant(v: Disk, v': Disk, table: Table, owner: map<nat, Place>)
    requires InOrder(v, table, owner) && SameData(v, v')
    ensures InOrder(v', table, owner)
    ensures SameBytes(v, table, v', table) && SamePtrs(v, table, v', table)
  {
    hide GetWord, BitAt, InodeAt;
    forall j, k | 0 <= j < NINODES && 0 <= k <= INDIRECT
      ensures Ptr(v', table[j], k) == Ptr(v, table[j], k)
    {
      assert Ptr(v, table[j], INDIRECT) != 0 ==> BMAP < Ptr(v, table[j], INDIRECT);
    }
    assert SamePtrs(v, table, v', table);
    SamePtrsKeep(v, table, owner, v', table);
    SnugSame(v, table, v', table);
    hide Ptr;
    forall i, x | 0 <= i < NINODES && 0 <= x < MAXFILE * BSIZE
      ensures ByteAt(v', table[i], x) == ByteAt(v, table[i], x)
    {
      var p := Ptr(v, table[i], x / BSIZE);
      assert Ptr(v', table[i], x / BSIZE) == p;
      assert p != 0 ==> p in owner;
    }
  }

  lemma SameBytesContents(v: Disk, v': Disk, table: Table, i: nat)
    requires Shaped(table) && SameBytes(v, table, v', table) && i < NINODES
    ensures Contents(v', table[i]) == Contents(v, table[i])
  {
    hide ByteAt;
  }

  // ---------- splices ----------

  lemma SpliceTwice(s: seq<Byte>, off: nat, a: seq<Byte>, b: seq<Byte>)
    requires off <= |s|
    ensures off + |a| <= |Splice(s, off, a)|
    ensures Splice(Splice(s, off, a), off + |a|, b) == Splice(s, off, a + b)
  {}

  lemma SpliceNothing(s: seq<Byte>, off: nat)
    requires off <= |s|
    ensures Splice(s, off, []) == s
  {}

  lemma SplicedTwice(v0: Disk, t0: Table, v1: Disk, t1: Table, v2: Disk, t2: Table, j: nat, off: nat, a: seq<Byte>,
                     b: seq<Byte>)
    requires Spliced(v0, t0, v1, t1, j, off, a) && Spliced(v1, t1, v2, t2, j, off + |a|, b)
    ensures Spliced(v0, t0, v2, t2, j, off, a + b)
  {
    hide Contents, Splice;
    SpliceTwice(Contents(v0, t0[j]), off, a, b);
  }

  // ---------- crash states ----------

  /** Recovered from disk e, the whole file system is in order, with inodes t and owners o: i bytes of
      src are in file j, and every other file is as it was. */
  ghost predicate RecoversTo(e: Disk, v0: Disk, t0: Table, j: nat, off: nat, src: seq<Byte>,
                             t: Table, o: map<nat, Place>, i: nat) {
    && WellFormed(e) && InOrder(Recover(e), t, o)
    && Boundary(i, |src|) && Reached(v0, t0, Recover(e), t, j, off, src, i)
  }

  /** A power failure leaving disk e loses nothing but a tail of whole chunks. */
  ghost predicate WholeChunks(e: Disk, v0: Disk, t0: Table, j: nat, off: nat, src: seq<Byte>) {
    exists t, o, i :: RecoversTo(e, v0, t0, j, off, src, t, o, i)
  }

  ghost predicate Boundary(i: nat, n: nat) {
    i <= n && (i % CHUNK == 0 || i == n)
  }

  ghost function After(was: seq<Byte>, off: nat, src: seq<Byte>): seq<Byte> {
    if off <= |was| then Splice(was, off, src) else was
  }

  // ---------- one chunk, one transaction ----------

  /** Between operations, with every inode on disk, and the superblock in place. */
  ghost predicate Steady(v: Volume)
    reads v, v.log, v.log.cache
  {
    v.log.Idle() && InOrder(v.View(), v.table, v.owner) && HasMagic(v.View())
  }

  method WriteChunk(v: Volume, ip: Inode, off: nat, part: seq<Byte>) returns (r: int, halted: bool)
    requires Steady(v) && v.Loaded(ip) && ip.d.kind != 0 && |part| <= CHUNK
    modifies v, ip, v.log, v.log.cache
    ensures halted ==> v.Unwritten()
    ensures halted <==> Fits(old(ip.d).size, off, |part|) && Free(old(v.table)) < Needs(old(ip.d).size, off, |part|)
    ensures !halted ==> Steady(v) && v.Loaded(ip) && ip.d.kind == old(ip.d).kind
    ensures !halted ==> (r == -1 <==> off > old(ip.d).size || off + |part| > MAXFILE * BSIZE)
    ensures !halted && r == -1 ==> v.table == old(v.table) && SameBytes(old(v.View()), v.table, v.View(), v.table)
    ensures !halted && r != -1 ==>
      r == |part| && Spliced(old(v.View()), old(v.table), v.View(), v.table, ip.inum, off, part)
    ensures !halted ==>
      Atomic(old(v.log.cache.c).disk, v.log.cache.c.disk, old(v.log.cache.g).trace, v.log.cache.g.trace)
    ensures !halted && r != -1 ==> Free(v.table) == Free(old(v.table)) - Needs(old(ip.d).size, off, |part|)
  {
    hide Good, Targets, Elements, LogClean, FsInv, OnDisk, Spliced, SameBytes, Snug, Atomic, GetWord, Needs;
    hide TotalBlocks, SameFront;
    ChunkFits(off, |part|);
    var entered := v.log.BeginOp();
    r, halted := v.WriteI(ip, off, part);
    if !halted {
      ghost var v1 := v.View();
      v.log.EndOp();
      LogIsIrrelevant(v1, v.View(), v.table, v.owner);
      FrontStays(old(v.View()), v.View(), old(v.log.cache.g).trace, v.log.cache.g.trace);
      SameFrontMagic(old(v.View()), v.View());
      if r == -1 {
      } else {
        SplicedThenSame(old(v.View()), old(v.table), v1, v.View(), v.table, ip.inum, off, part);
      }
    }
  }

  lemma SplicedThenSame(v0: Disk, t0: Table, v1: Disk, v2: Disk, t1: Table, j: nat, off: nat, src: seq<Byte>)
    requires Spliced(v0, t0, v1, t1, j, off, src) && SameBytes(v1, t1, v2, t1)
    ensures Spliced(v0, t0, v2, t1, j, off, src) && t1[j].kind == t0[j].kind
  {
    hide ByteAt, Contents, Splice, SameBytes;
    forall i | 0 <= i < NINODES
      ensures Contents(v2, t1[i]) == Contents(v1, t1[i])
    {
      SameBytesContents(v1, v2, t1, i);
    }
  }

  // ---------- file_read and file_write ----------

  /** A C int passed where an unsigned 64-bit count is expected. */
  function Unsigned(n: int): (r: nat)
    requires -0x8000_0000 <= n < 0x8000_0000
    ensures r < 0x1_0000_0000_0000_0000 && (r - n) % 0x1_0000_0000_0000_0000 == 0
  {
    if n < 0 then n + U64 else n
  }

  /** file_read: the clipped slice at the file's offset, which advances by what was read. It
      returns -1, with nothing read, when the file was not opened for reading. A negative count
      becomes a huge one: at offset 0 it reads the whole file, elsewhere nothing. */
  method FileRead(v: Volume, f: File, n: int) returns (r: int, data: seq<Byte>)
    requires Steady(v) && v.Loaded(f.ip) && -0x8000_0000 <= n < 0x8000_0000
    modifies v, f, f.ip, v.log, v.log.cache
    ensures Steady(v) && v.Loaded(f.ip) && v.Untouched(f.ip)
    ensures f.ip.d.size <= MAXFILE * BSIZE
    ensures !f.readable ==> r == -1 && data == [] && f.off == old(f.off)
    ensures f.readable ==> r == |data| && f.off == old(f.off) + r
    ensures f.readable ==>
              data == if old(f.off) > f.ip.d.size || old(f.off) + Unsigned(n) >= U64 then []
                      else var end := old(f.off) + Unsigned(n);
                           Contents(v.View(), f.ip.d)[old(f.off)..if end > f.ip.d.size then f.ip.d.size else end]
  {
    hide Good, Targets, Elements, LogClean, OnDisk, GetWord, Owns, Mapped, Filled;
    r, data := -1, [];
    if f.readable {
      v.log.IdleIsUp();
      data := v.ReadI(f.ip, f.off, Unsigned(n));
      r := |data|;
      if r > 0 {
        f.off := f.off + r;
      }
    }
  }

  /** How far the chunked loop has come: i bytes of src are in the file. */
  ghost predicate Reached(v0: Disk, t0: Table, v1: Disk, t1: Table, j: nat, off: nat, src: seq<Byte>, i: nat) {
    && i <= |src| && j < NINODES
    && if off <= t0[j].size then Spliced(v0, t0, v1, t1, j, off, src[..i])
       else i == 0 && t1 == t0 && SameBytes(v0, t0, v1, t1)
  }

  lemma ReachedStart(v: Disk, t: Table, j: nat, off: nat, src: seq<Byte>)
    requires Shaped(t) && j < NINODES
    ensures Reached(v, t, v, t, j, off, src, 0)
  {
    hide ByteAt;
    if off <= t[j].size {
      SpliceNothing(Contents(v, t[j]), off);
      assert src[..0] == [];
    }
  }

  lemma ReachedStep(v0: Disk, t0: Table, v1: Disk, t1: Table, v2: Disk, t2: Table, j: nat, off: nat, src: seq<Byte>,
                    i: nat, n: nat)
    requires Reached(v0, t0, v1, t1, j, off, src, i) && i + n <= |src|
    requires Spliced(v1, t1, v2, t2, j, off + i, src[i..i + n])
    ensures off <= t0[j].size && Reached(v0, t0, v2, t2, j, off, src, i + n)
  {
    hide Contents, Splice;
    if off <= t0[j].size {
      SplicedTwice(v0, t0, v1, t1, v2, t2, j, off, src[..i], src[i..i + n]);
      assert src[..i] + src[i..i + n] == src[..i + n];
    }
  }

  lemma ReachedSame(v0: Disk, t0: Table, v1: Disk, v2: Disk, t1: Table, j: nat, off: nat, src: seq<Byte>, i: nat)
    requires Reached(v0, t0, v1, t1, j, off, src, i) && SameBytes(v1, t1, v2, t1)
    ensures Reached(v0, t0, v2, t1, j, off, src, i)
  {
    hide ByteAt, Contents, Splice;
    if off <= t0[j].size {
      SplicedThenSame(v0, t0, v1, v2, t1, j, off, src[..i]);
    }
  }

  lemma ReachedFile(v0: Disk, t0: Table, v1: Disk, t1: Table, j: nat, off: nat, src: seq<Byte>, i: nat)
    requires Reached(v0, t0, v1, t1, j, off, src, i) && Shaped(t0) && Shaped(t1)
    ensures Contents(v1, t1[j]) == After(Contents(v0, t0[j]), off, src[..i])
  {
    hide ByteAt, Splice;
    if off > t0[j].size {
      SameBytesContents(v0, v1, t0, j);
    }
  }

  /** A disk that recovers to the data of a committed one recovers to that file system. */
  lemma RecoversLike(e: Disk, d0: Disk, t0: Table, d: Disk, t: Table, o: map<nat, Place>, j: nat, off: nat,
                     src: seq<Byte>, i: nat)
    requires WellFormed(e) && SameData(d, Recover(e)) && InOrder(d, t, o)
    requires Reached(d0, t0, d, t, j, off, src, i) && Boundary(i, |src|)
    ensures WholeChunks(e, d0, t0, j, off, src)
  {
    hide FsInv, OnDisk, Recover, WellFormed, Reached, SameData;
    LogIsIrrelevant(d, Recover(e), t, o);
    ReachedSame(d0, t0, d, Recover(e), t, j, off, src, i);
    assert RecoversTo(e, d0, t0, j, off, src, t, o, i);
  }

  /** The crash states of one more chunk. */
  lemma ChunkIsWhole(d0: Disk, t0: Table, d1: Disk, t1: Table, o1: map<nat, Place>, d2: Disk, t2: Table,
                     o2: map<nat, Place>, 
                     before: seq<Disk>, trace: seq<Disk>, j: nat, off: nat, src: seq<Byte>, i: nat, k: nat, t: nat)
    requires Atomic(d1, d2, before, trace) && |before| <= t < |trace|
    requires InOrder(d1, t1, o1) && InOrder(d2, t2, o2)
    requires Reached(d0, t0, d1, t1, j, off, src, i) && Reached(d0, t0, d2, t2, j, off, src, k)
    requires Boundary(i, |src|) && Boundary(k, |src|)
    ensures WholeChunks(trace[t], d0, t0, j, off, src) && SameFront(d1, trace[t]) && SameFront(d1, d2)
  {
    hide FsInv, OnDisk, Recover, WellFormed, Reached, SameData, Boundary, WholeChunks;
    var point: nat :| Splits(d1, d2, before, trace, point);
    if t < point {
      RecoversLike(trace[t], d0, t0, d1, t1, o1, j, off, src, i);
    } else {
      RecoversLike(trace[t], d0, t0, d2, t2, o2, j, off, src, k);
    }
  }

  /** All disks recorded since `before`, and the one now, are crash states with whole chunks only, and their
      boot block and superblock are what they were. */
  ghost predicate AllWhole(before: seq<Disk>, trace: seq<Disk>, now: Disk, v0: Disk, t0: Table, j: nat, off: nat,
                           src: seq<Byte>) {
    && before <= trace && WholeChunks(now, v0, t0, j, off, src) && SameFront(v0, now)
    && forall t :: |before| <= t < |trace| ==> WholeChunks(trace[t], v0, t0, j, off, src) && SameFront(v0, trace[t])
  }

  lemma ChunkAllWhole(d0: Disk, t0: Table, d1: Disk, t1: Table, o1: map<nat, Place>, d2: Disk, t2: Table,
                      o2: map<nat, Place>, 
                      first: seq<Disk>, before: seq<Disk>, trace: seq<Disk>, j: nat, off: nat, src: seq<Byte>,
                        i: nat, k: nat)
    requires Atomic(d1, d2, before, trace) && Clean(d2)
    requires AllWhole(first, before, d1, d0, t0, j, off, src)
    requires InOrder(d1, t1, o1) && InOrder(d2, t2, o2)
    requires Reached(d0, t0, d1, t1, j, off, src, i) && Reached(d0, t0, d2, t2, j, off, src, k)
    requires Boundary(i, |src|) && Boundary(k, |src|)
    ensures AllWhole(first, trace, d2, d0, t0, j, off, src)
  {
    hide FsInv, OnDisk, WholeChunks, Reached, Boundary, Recover, WellFormed, Clean;
    CleanIsWhole(d0, t0, d2, t2, o2, j, off, src, k);
    FrontStays(d1, d2, before, trace);
    forall t | |first| <= t < |trace|
      ensures WholeChunks(trace[t], d0, t0, j, off, src) && SameFront(d0, trace[t])
    {
      if t < |before| {
        assert before[t] == trace[t];
      } else {
        ChunkIsWhole(d0, t0, d1, t1, o1, d2, t2, o2, before, trace, j, off, src, i, k, t);
      }
    }
  }

  lemma FrontStays(d: Disk, e: Disk, before: seq<Disk>, trace: seq<Disk>)
    requires Atomic(d, e, before, trace)
    ensures SameFront(d, e) && before <= trace
    ensures forall t :: |before| <= t < |trace| ==> SameFront(d, trace[t])
  {
    hide WellFormed, SameData, Recover, SameFront;
    var point: nat :| Splits(d, e, before, trace, point);
  }

  /** Between transactions the disk itself is such a state. */
  lemma CleanIsWhole(d0: Disk, t0: Table, d: Disk, t: Table, o: map<nat, Place>, j: nat, off: nat, src: seq<Byte>,
                     i: nat)
    requires Clean(d) && InOrder(d, t, o) && Reached(d0, t0, d, t, j, off, src, i)
    requires Boundary(i, |src|)
    ensures WholeChunks(d, d0, t0, j, off, src)
  {
    hide FsInv, OnDisk, Reached, Boundary, WholeChunks;
    CleanRecovers(d);
    RecoversLike(d, d0, t0, d, t, o, j, off, src, i);
  }

  lemma CleanRecovers(d: Disk)
    requires Clean(d)
    ensures WellFormed(d) && SameData(d, Recover(d))
  {
    EmptyHeaderRecovers(d);
  }

  lemma Start(n: nat)
    ensures Boundary(0, n) && Boundary(n, n)
  {}

  lemma WholeStart(trace: seq<Disk>, d: Disk, t: Table, o: map<nat, Place>, j: nat, off: nat, src: seq<Byte>)
    requires Clean(d) && InOrder(d, t, o) && j < NINODES
    ensures AllWhole(trace, trace, d, d, t, j, off, src)
  {
    hide Owns, Mapped, Filled, OnDisk, Reached, WholeChunks;
    ReachedStart(d, t, j, off, src);
    CleanIsWhole(d, t, d, t, o, j, off, src, 0);
  }

  /** One round of file_write's loop, in terms of the whole write that began at d0. */
  method NextWrite(v: Volume, ip: Inode, ghost off: nat, src: seq<Byte>, i: nat, n: nat,
                   ghost d0: Disk, ghost t0: Table, ghost first: seq<Disk>, at: nat) returns (r: int, halted: bool)
    requires Steady(v) && v.Loaded(ip) && ip.d.kind != 0 && Shaped(t0) && i < |src| && Boundary(i, |src|)
    requires n == (if |src| - i > CHUNK then CHUNK else |src| - i) && at == off + i
    requires Reached(d0, t0, v.View(), v.table, ip.inum, off, src, i)
    requires AllWhole(first, v.log.cache.g.trace, v.log.cache.c.disk, d0, t0, ip.inum, off, src)
    requires i <= Reach(t0[ip.inum].size, off, |src|)
    requires Free(v.table) == Free(t0) - if i > 0 then Needs(t0[ip.inum].size, off, i) else 0
    modifies v, ip, v.log, v.log.cache
    ensures AllWhole(first, v.log.cache.g.trace, v.log.cache.c.disk, d0, t0, ip.inum, off, src)
    ensures halted ==> off <= t0[ip.inum].size
    ensures halted ==> Free(t0) < Needs(t0[ip.inum].size, off, Reach(t0[ip.inum].size, off, |src|))
    ensures !halted ==> Steady(v) && v.Loaded(ip) && ip.d.kind != 0 && (r == -1 || r == n)
    ensures !halted ==> var i' := if r == -1 then i else i + n;
      && Boundary(i', |src|) && Reached(d0, t0, v.View(), v.table, ip.inum, off, src, i')
      && i' <= Reach(t0[ip.inum].size, off, |src|) && (r == -1 ==> i == Reach(t0[ip.inum].size, off, |src|))
      && Free(v.table) == Free(t0) - if i' > 0 then Needs(t0[ip.inum].size, off, i') else 0
  {
    hide Good, Targets, Elements, LogClean, Owns, Mapped, Filled, OnDisk, Reached, Spliced, SameBytes, FreeBlocks;
    hide Atomic;
    hide AllWhole, GetWord, Contents, Span, Boundary, Needs, Reach, Snug, TotalBlocks, HasMagic;
    ghost var d1, t1, o1, tr := v.View(), v.table, v.owner, v.log.cache.g.trace;
    ReachedSize(d0, t0, d1, t1, ip.inum, off, src, i);
    NextChunk(t0[ip.inum].size, off, |src|, i);
    if off <= t0[ip.inum].size {
      NeedsAdd(t0[ip.inum].size, off, i, n);
      NeedsMore(t0[ip.inum].size, off, |src|, i + n);
    }
    r, halted := WriteChunk(v, ip, at, src[i..i + n]);
    if halted {
      return;
    }
    if r == -1 {
      ReachedSame(d0, t0, d1, v.View(), t1, ip.inum, off, src, i);
    } else {
      ReachedStep(d0, t0, d1, t1, v.View(), v.table, ip.inum, off, src, i, n);
    }
    ChunkAllWhole(d0, t0, d1, t1, o1, v.View(), v.table, v.owner, first, tr, v.log.cache.g.trace,
                  ip.inum, off, src, i, if r == -1 then i else i + n);
  }

  /** file_write: chunk by chunk, each in a transaction of its own, which together are one
      splice of the whole input at the offset (at the end, in append mode). It returns -1 when
      the file is not writable, when the offset lies beyond the end, or when the maximum size
      stops it after a whole number of chunks. `halted` is the panic of a full disk. At every moment,
      and at that panic too, the disk recovers to a file system in order in which a whole number of
      chunks is written and all other files are as they were. */
  method FileWrite(v: Volume, f: File, src: seq<Byte>) returns (ret: int, halted: bool)
    requires Steady(v) && v.Loaded(f.ip) && f.ip.d.kind != 0
    modifies v, f, f.ip, v.log, v.log.cache
    ensures !f.writable ==> ret == -1 && !halted && v.Untouched(f.ip) && f.off == old(f.off)
    ensures var off, size := if f.append then old(f.ip.d).size else old(f.off), old(f.ip.d).size;
            && size <= MAXFILE * BSIZE
            && var i := Reach(size, off, |src|);
               && (halted <==> f.writable && off <= size && Free(old(v.table)) < Needs(size, off, i))
               && (f.writable && !halted ==>
                     && Steady(v) && v.Loaded(f.ip) && Boundary(i, |src|) && f.off == off + i
                     && ret == (if i == |src| then |src| else -1)
                     && Reached(old(v.View()), old(v.table), v.View(), v.table, f.ip.inum, off, src, i))
    ensures var off := if f.append then old(f.ip.d).size else old(f.off);
            AllWhole(old(v.log.cache.g).trace, v.log.cache.g.trace, v.log.cache.c.disk,
                     old(v.View()), old(v.table), f.ip.inum, off, src)
  {
    hide Good, Targets, Elements, LogClean, Owns, Mapped, Filled, OnDisk, Reached, Spliced, SameBytes, FreeBlocks;
    hide Atomic, AllWhole, GetWord, Contents;
    hide Span, Clean, Boundary, SameData, Reach, Needs, Snug, TotalBlocks, HasMagic;
    ReachedAll(v, f.ip, if f.append then f.ip.d.size else f.off, |src|);
    Start(|src|);
    WholeStart(v.log.cache.g.trace, v.View(), v.table, v.owner, f.ip.inum, if f.append then f.ip.d.size
      else f.off, src);
    ret, halted := -1, false;
    if f.writable {
      if f.append {
        f.off := f.ip.d.size;
      }
      ghost var off := f.off;
      ghost var d0, t0 := v.View(), v.table;
      ReachedStart(d0, t0, f.ip.inum, off, src);
      var i := 0;
      var going := true;
      while going && i < |src|
        invariant 0 <= i <= |src| && Boundary(i, |src|) && f.off == off + i
        invariant Steady(v) && v.Loaded(f.ip) && f.ip.d.kind != 0
        invariant Reached(d0, t0, v.View(), v.table, f.ip.inum, off, src, i)
        invariant AllWhole(old(v.log.cache.g).trace, v.log.cache.g.trace, v.log.cache.c.disk, d0, t0, f.ip.inum,
            off, src)
        invariant i <= Reach(t0[f.ip.inum].size, off, |src|) && (!going ==> i == Reach(t0[f.ip.inum].size, off, |src|))
        invariant Free(v.table) == Free(t0) - if i > 0 then Needs(t0[f.ip.inum].size, off, i) else 0
        decreases going, |src| - i
      {
        var n1 := if |src| - i > CHUNK then CHUNK else |src| - i;
        if f.append {
          AppendStays(d0, t0, v.View(), v.table, f.ip.inum, off, src, i);
          f.off := f.ip.d.size;
        }
        var r;
        r, halted := NextWrite(v, f.ip, off, src, i, n1, d0, t0, old(v.log.cache.g).trace, f.off);
        if halted {
          return;
        }
        if r == -1 {
          going := false;
        } else {
          f.off := f.off + r;
          i := i + r;
        }
      }
      FreeIsRest(v.View(), v.table, v.owner);
      ret := if i == |src| then |src| else -1;
    }
  }

  lemma ReachedAll(v: Volume, ip: Inode, off: nat, n: nat)
    requires Steady(v) && v.Loaded(ip)
    ensures ip.d.size <= MAXFILE * BSIZE && Reach(ip.d.size, off, n) <= n
    ensures Needs(ip.d.size, off, 0) == 0 || off > ip.d.size
    ensures off > ip.d.size ==> Reach(ip.d.size, off, n) == 0
  {
    hide Owns, Mapped, Filled, Good;
  }

  /** The size the file has reached. */
  lemma ReachedSize(v0: Disk, t0: Table, v1: Disk, t1: Table, j: nat, off: nat, src: seq<Byte>, i: nat)
    requires Reached(v0, t0, v1, t1, j, off, src, i) && Shaped(t0) && Shaped(t1)
    ensures t1[j].size == if off <= t0[j].size && off + i > t0[j].size then off + i else t0[j].size
  {
    ReachedFile(v0, t0, v1, t1, j, off, src, i);
  }

  /** In append mode the end of the file is where the write has got to. */
  lemma AppendStays(v0: Disk, t0: Table, v1: Disk, t1: Table, j: nat, off: nat, src: seq<Byte>, i: nat)
    requires Reached(v0, t0, v1, t1, j, off, src, i) && Shaped(t0) && Shaped(t1) && off == t0[j].size
    ensures t1[j].size == off + i
  {
    ReachedSize(v0, t0, v1, t1, j, off, src, i);
  }
}
