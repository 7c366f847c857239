/** Files as trees of blocks: which inode owns which block, what a file contains, and which
    changes of the disk keep that. */
module Files {
  import opened LittleEndian
  import opened Blocks
  import opened Layout

  /** Pointer slots of an inode: 0..11 direct, 12..267 through the indirect block, and the
      indirect block itself. */
  const INDIRECT := MAXFILE

  type Place = (nat, nat)

  /** All inodes, by number. */
  type Table = t: seq<DInode> | |t| == NINODES
    witness seq<DInode>(NINODES, (_: nat) => InodeFields(0, 0, 0, 0, 0, [0, 0, 0, 0, 0, 0, 0, 0, 0, 0, 0, 0, 0]))

  function Ptr(view: Disk, d: DInode, k: nat): nat
    requires k <= INDIRECT
  {
    if k < NDIRECT then d.addrs[k]
    else if k == INDIRECT then d.addrs[NDIRECT]
    else if 0 < d.addrs[NDIRECT] < FSSIZE then GetWord(view[d.addrs[NDIRECT]], k - NDIRECT)
    else 0
  }

  predicate Used(view: Disk, b: nat)
    requires b < FSSIZE
  {
    BitAt(view[BMAP], b)
  }

  ghost predicate Shaped(table: Table) {
    forall j :: 0 <= j < NINODES ==> table[j].size <= MAXFILE * BSIZE
  }

  /** `owner` says, for every block some inode points at, which inode and which pointer. */
  ghost predicate Owns(view: Disk, table: Table, owner: map<nat, Place>)
  {
    && (forall j, k :: 0 <= j < NINODES && 0 <= k <= INDIRECT && Ptr(view, table[j], k) != 0 ==>
          Ptr(view, table[j], k) in owner && owner[Ptr(view, table[j], k)] == (j, k))
    && (forall b :: b in owner ==>
          && BMAP < b < FSSIZE && owner[b].0 < NINODES && owner[b].1 <= INDIRECT
          && Ptr(view, table[owner[b].0], owner[b].1) == b)
  }

  /** The bitmap marks exactly the system blocks and the owned ones. */
  ghost predicate Mapped(view: Disk, owner: map<nat, Place>) {
    forall b :: 0 <= b < FSSIZE ==> (Used(view, b) <==> b <= BMAP || b in owner)
  }

  /** Every block below the size is there, and a free inode has none. */
  ghost predicate Filled(view: Disk, table: Table)
  {
    && (forall j, k :: 0 <= j < NINODES && 0 <= k < MAXFILE && k * BSIZE < table[j].size ==>
         Ptr(view, table[j], k) != 0)
    && (forall j, k :: 0 <= j < NINODES && 0 <= k <= INDIRECT && table[j].kind == 0 ==> Ptr(view, table[j], k) == 0)
  }

  /** The invariant of the file system: blocks are owned once, marked used exactly when owned,
      lie behind the bitmap, and files have no holes. */
  ghost predicate FsInv(view: Disk, table: Table, owner: map<nat, Place>) {
    Shaped(table) && Owns(view, table, owner) && Mapped(view, owner) && Filled(view, table)
  }

  // ---------- contents ----------

  /** Byte x of a file; 0 where no block is mapped. */
  function ByteAt(view: Disk, d: DInode, x: nat): Byte
    requires x < MAXFILE * BSIZE
  {
    var p := Ptr(view, d, x / BSIZE);
    if 0 < p < FSSIZE then view[p][x % BSIZE] else 0
  }

  function Contents(view: Disk, d: DInode): (s: seq<Byte>)
    requires d.size <= MAXFILE * BSIZE
    ensures |s| == d.size
    ensures forall x :: 0 <= x < d.size ==> s[x] == ByteAt(view, d, x)
  {
    Bytes(view, d, d.size)
  }

  function Bytes(view: Disk, d: DInode, n: nat): (s: seq<Byte>)
    requires n <= MAXFILE * BSIZE
    ensures |s| == n
    ensures forall x :: 0 <= x < n ==> s[x] == ByteAt(view, d, x)
  {
    if n == 0 then [] else Bytes(view, d, n - 1) + [ByteAt(view, d, n - 1)]
  }

  /** A write of `src` at `off`: what was there is replaced, what lies beyond is kept. */
  function Splice(s: seq<Byte>, off: nat, src: seq<Byte>): seq<Byte>
    requires off <= |s|
  {
    s[..off] + src + if off + |src| < |s| then s[off + |src|..] else []
  }

  /** What was written is read back, every other byte stays, and the file is as long as it has to be. */
  lemma ReadAfterWrite(s: seq<Byte>, off: nat, src: seq<Byte>)
    requires off <= |s|
    ensures var r := Splice(s, off, src);
            && |r| == (if off + |src| > |s| then off + |src| else |s|) && r[off..off + |src|] == src
            && forall k :: 0 <= k < |s| && !(off <= k < off + |src|) ==> r[k] == s[k]
  {
    var r := Splice(s, off, src);
    assert r[off..off + |src|] == src;
  }

  /** All pointers of all inodes agree. */
  ghost predicate SamePtrs(view: Disk, table: Table, view': Disk, table': Table)
  {
    forall j, k :: 0 <= j < NINODES && 0 <= k <= INDIRECT ==> Ptr(view', table'[j], k) == Ptr(view, table[j], k)
  }

  /** No byte of any file differs. */
  ghost predicate SameBytes(view: Disk, table: Table, view': Disk, table': Table)
  {
    forall i, x :: 0 <= i < NINODES && 0 <= x < MAXFILE * BSIZE ==>
      ByteAt(view', table'[i], x) == ByteAt(view, table[i], x)
  }

  /** The blocks in front of the bitmap, inodes among them, are untouched. */
  ghost predicate SystemSame(view: Disk, view': Disk) {
    forall b :: 0 <= b < BMAP ==> view'[b] == view[b]
  }

  /** The blocks fs_alloc can still hand out. */
  ghost function FreeBlocks(view: Disk): set<nat> {
    set b | 0 <= b < FSSIZE && !Used(view, b)
  }

  /** All pointers agree, except that pointer k of inode j becomes b. */
  ghost predicate OnePtr(view: Disk, table: Table, view': Disk, table': Table, j: nat, k: nat, b: nat)
  {
    forall i, x :: 0 <= i < NINODES && 0 <= x <= INDIRECT ==>
      Ptr(view', table'[i], x) == if i == j && x == k then b else Ptr(view, table[i], x)
  }

  /** Sizes and kinds agree. */
  ghost predicate SameShape(table: Table, table': Table)
  {
    forall j :: 0 <= j < NINODES ==> table'[j].size == table[j].size && table'[j].kind == table[j].kind
  }

  // ---------- changes that move no pointer ----------

  /** A change of a block that is neither the bitmap nor an indirect block moves no pointer. */
  lemma PlainWrite(view: Disk, table: Table, owner: map<nat, Place>, b: nat, data: Block)
    requires FsInv(view, table, owner) && b < FSSIZE && b != BMAP
    requires b in owner ==> owner[b].1 != INDIRECT
    ensures FsInv(view[b := data], table, owner) && SamePtrs(view, table, view[b := data], table)
  {
    hide GetWord, BitAt;
    var view' := view[b := data];
    forall j, k | 0 <= j < NINODES && 0 <= k <= INDIRECT
      ensures Ptr(view', table[j], k) == Ptr(view, table[j], k)
    {
      assert Ptr(view, table[j], INDIRECT) == b ==> b == 0;
    }
    SamePtrsKeep(view, table, owner, view', table);
  }

  /** The invariant speaks of pointers, sizes, kinds and the bitmap only. */
  lemma SamePtrsKeep(view: Disk, table: Table, owner: map<nat, Place>, view': Disk, table': Table)
    requires FsInv(view, table, owner) && Shaped(table') && SameShape(table, table')
    requires SamePtrs(view, table, view', table') && view'[BMAP] == view[BMAP]
    ensures FsInv(view', table', owner)
  {
    hide GetWord, BitAt, Ptr;
    forall b | 0 <= b < FSSIZE
      ensures Used(view', b) <==> b <= BMAP || b in owner
    {
      assert Used(view, b) <==> b <= BMAP || b in owner;
    }
    hide Used, Mapped;
    assert Owns(view', table', owner);
    assert Filled(view', table');
  }

  /** Bytes lo..lo+|part| of file j became `part`; no other byte of any file changed. */
  ghost predicate Wrote(view: Disk, table: Table, view': Disk, table': Table, j: nat, lo: nat, part: seq<Byte>)
  {
    forall i, x :: 0 <= i < NINODES && 0 <= x < MAXFILE * BSIZE ==>
      ByteAt(view', table'[i], x) == if i == j && lo <= x < lo + |part| then part[x - lo] else ByteAt(view, table[i], x)
  }

  /** Filling in bytes o..o+|part| of file block k of inode j changes those bytes of that file
      and no byte of any file besides. */
  lemma DataWriteBytes(view: Disk, table: Table, owner: map<nat, Place>, j: nat, k: nat, o: nat, part: seq<Byte>,
                       view': Disk)
    requires FsInv(view, table, owner) && j < NINODES && k < MAXFILE && o + |part| <= BSIZE
    requires 0 < Ptr(view, table[j], k) < FSSIZE
    requires var b := Ptr(view, table[j], k); view' == view[b := view[b][..o] + part + view[b][o + |part|..]]
    ensures Wrote(view, table, view', table, j, k * BSIZE + o, part)
  {
    var b := Ptr(view, table[j], k);
    assert owner[b] == (j, k);
    PlainWrite(view, table, owner, b, view'[b]);
    assert view' == view[b := view'[b]];
    hide Ptr, BitAt;
    forall i, x | 0 <= i < NINODES && 0 <= x < MAXFILE * BSIZE
      ensures ByteAt(view', table[i], x) ==
              if i == j && k * BSIZE + o <= x < k * BSIZE + o + |part| then part[x - k * BSIZE - o]
              else ByteAt(view, table[i], x)
    {
      var p := Ptr(view, table[i], x / BSIZE);
      assert Ptr(view', table[i], x / BSIZE) == p;
      if p == b {
        assert owner[p] == (i, x / BSIZE);
      }
    }
  }

  // ---------- a new block ----------

  /** The effect of fs_alloc: an unused block is marked used and cleared. */
  ghost predicate Allocated(view: Disk, b: nat, view': Disk) {
    && b < FSSIZE && b != BMAP && !Used(view, b)
    && view' == view[BMAP := FlipAt(view[BMAP], b)][b := ZeroBlock()]
  }

  /** A block that was free belongs to nobody. */
  lemma FreshIsUnowned(view: Disk, table: Table, owner: map<nat, Place>, b: nat)
    requires FsInv(view, table, owner) && b < FSSIZE && !Used(view, b)
    ensures BMAP < b && b !in owner
  {}

  /** Allocation moves no pointer: it changes the bitmap and a block nobody points at. */
  lemma AllocatedPtrs(view: Disk, table: Table, owner: map<nat, Place>, b: nat, view': Disk)
    requires FsInv(view, table, owner) && Allocated(view, b, view')
    ensures SamePtrs(view, table, view', table)
    ensures forall x :: 0 <= x < FSSIZE ==> (Used(view', x) <==> Used(view, x) || x == b)
    ensures forall x :: x in owner ==> view'[x] == view[x]
    ensures FreeBlocks(view') == FreeBlocks(view) - {b} && b in FreeBlocks(view)
  {
    hide GetWord, BitAt, FlipAt;
    FreshIsUnowned(view, table, owner, b);
    forall j, k | 0 <= j < NINODES && 0 <= k <= INDIRECT
      ensures Ptr(view', table[j], k) == Ptr(view, table[j], k)
    {
      assert Ptr(view, table[j], INDIRECT) != 0 ==> Ptr(view, table[j], INDIRECT) in owner;
    }
    forall x | 0 <= x < FSSIZE
      ensures Used(view', x) <==> Used(view, x) || x == b
    {
      FlipOneBit(view[BMAP], b, x);
    }
  }

  /** Hooking a fresh block up at an empty pointer keeps the invariant. */
  lemma LinkKeeps(view: Disk, table: Table, owner: map<nat, Place>, view': Disk, table': Table,
                  j: nat, k: nat, b: nat)
    requires FsInv(view, table, owner) && Shaped(table') && SameShape(table, table')
    requires j < NINODES && k <= INDIRECT && table[j].kind != 0 && Ptr(view, table[j], k) == 0
    requires BMAP < b < FSSIZE && b !in owner
    requires OnePtr(view, table, view', table', j, k, b)
    requires forall x :: 0 <= x < FSSIZE ==> (Used(view', x) <==> Used(view, x) || x == b)
    ensures FsInv(view', table', owner[b := (j, k)])
  {
    hide Ptr, BitAt;
    var owner' := owner[b := (j, k)];
    assert Owns(view', table', owner') by {
      hide Used;
      forall x | x in owner
        ensures owner[x] != (j, k)
      {}
    }
    assert Filled(view', table') by {
      hide Used;
    }
  }

  /** bmap, a direct pointer or the indirect block's own pointer. */
  lemma LinkInInode(view: Disk, table: Table, owner: map<nat, Place>, b: nat, view': Disk, j: nat, slot: nat)
    requires FsInv(view, table, owner) && Allocated(view, b, view')
    requires j < NINODES && slot <= NDIRECT && table[j].kind != 0 && table[j].addrs[slot] == 0
    ensures var k := if slot < NDIRECT then slot else INDIRECT;
            var table' := table[j := table[j].(addrs := table[j].addrs[slot := b])];
            && Shaped(table') && FsInv(view', table', owner[b := (j, k)])
            && OnePtr(view, table, view', table', j, k, b)
            && SameBytes(view, table, view', table') && SystemSame(view, view')
            && FreeBlocks(view') == FreeBlocks(view) - {b}
    ensures BMAP < b && b !in owner && b in FreeBlocks(view)
  {
    hide GetWord, BitAt, FlipAt;
    var k := if slot < NDIRECT then slot else INDIRECT;
    var table' := table[j := table[j].(addrs := table[j].addrs[slot := b])];
    FreshIsUnowned(view, table, owner, b);
    AllocatedPtrs(view, table, owner, b, view');
    forall i, x | 0 <= i < NINODES && 0 <= x <= INDIRECT
      ensures Ptr(view', table'[i], x) == if i == j && x == k then b else Ptr(view, table[i], x)
    {
      assert Ptr(view', table[i], x) == Ptr(view, table[i], x);
      if i == j && slot == NDIRECT && NDIRECT <= x < INDIRECT {
        ZeroWords(x - NDIRECT);
      }
    }
    LinkKeeps(view, table, owner, view', table', j, k, b);
    LinkKeepsBytes(view, table, owner, view', table', j, k, b);
  }

  /** bmap, an entry of the indirect block. */
  lemma LinkInBlock(view: Disk, table: Table, owner: map<nat, Place>, b: nat, view': Disk, j: nat, e: nat)
    requires FsInv(view, table, owner) && Allocated(view, b, view')
    requires j < NINODES && e < NINDIRECT && table[j].kind != 0 && table[j].addrs[NDIRECT] != 0
    requires Ptr(view, table[j], NDIRECT + e) == 0
    ensures table[j].addrs[NDIRECT] < FSSIZE
    ensures var ind := table[j].addrs[NDIRECT];
            var view'' := view'[ind := SetWord(view'[ind], e, b)];
            && FsInv(view'', table, owner[b := (j, NDIRECT + e)])
            && OnePtr(view, table, view'', table, j, NDIRECT + e, b)
            && SameBytes(view, table, view'', table) && SystemSame(view, view'')
            && FreeBlocks(view'') == FreeBlocks(view) - {b}
    ensures BMAP < b && b !in owner && b in FreeBlocks(view)
  {
    hide GetWord, SetWord, BitAt, FlipAt;
    var ind := table[j].addrs[NDIRECT];
    assert Ptr(view, table[j], INDIRECT) == ind;
    assert owner[ind] == (j, INDIRECT);
    FreshIsUnowned(view, table, owner, b);
    AllocatedPtrs(view, table, owner, b, view');
    var view'' := view'[ind := SetWord(view'[ind], e, b)];
    forall i, x | 0 <= i < NINODES && 0 <= x <= INDIRECT
      ensures Ptr(view'', table[i], x) == if i == j && x == NDIRECT + e then b else Ptr(view, table[i], x)
    {
      assert Ptr(view', table[i], x) == Ptr(view, table[i], x);
      if NDIRECT <= x < INDIRECT && Ptr(view, table[i], INDIRECT) == ind {
        assert owner[ind] == (i, INDIRECT);
        GetSetWord(view'[ind], e, b, x - NDIRECT);
      }
    }
    assert FreeBlocks(view'') == FreeBlocks(view');
    LinkKeeps(view, table, owner, view'', table, j, NDIRECT + e, b);
    LinkKeepsBytes(view, table, owner, view'', table, j, NDIRECT + e, b);
  }

  /** A new block is zero and unmapped file bytes read as zero, so allocation changes no byte
      of any file. */
  lemma LinkKeepsBytes(view: Disk, table: Table, owner: map<nat, Place>, view': Disk, table': Table,
                       j: nat, k: nat, b: nat)
    requires FsInv(view, table, owner) && Shaped(table')
    requires j < NINODES && k <= INDIRECT && Ptr(view, table[j], k) == 0 && BMAP < b < FSSIZE && b !in owner
    requires OnePtr(view, table, view', table', j, k, b)
    requires view'[b] == ZeroBlock()
    requires forall x :: x in owner && owner[x].1 != INDIRECT ==> view'[x] == view[x]
    ensures SameBytes(view, table, view', table')
  {
    hide Ptr, BitAt;
    forall i, x | 0 <= i < NINODES && 0 <= x < MAXFILE * BSIZE
      ensures ByteAt(view', table'[i], x) == ByteAt(view, table[i], x)
    {
      var p := Ptr(view, table[i], x / BSIZE);
      assert Ptr(view', table'[i], x / BSIZE) == if i == j && x / BSIZE == k then b else p;
      if p != 0 {
        assert owner[p] == (i, x / BSIZE);
      }
    }
  }

  // ---------- giving blocks back ----------

  /** The bitmap while inode j is being truncated: pointers below k have been freed. */
  ghost predicate Releasing(view: Disk, owner: map<nat, Place>, j: nat, k: nat) {
    forall b :: 0 <= b < FSSIZE ==>
      (Used(view, b) <==> b <= BMAP || (b in owner && !(owner[b].0 == j && owner[b].1 < k)))
  }

  /** The owners once inode j owns nothing. */
  ghost function Disowned(owner: map<nat, Place>, j: nat): (r: map<nat, Place>) {
    map b | b in owner && owner[b].0 != j :: owner[b]
  }

  /** An inode emptied, with all its blocks marked free, leaves a sound file system in which the
      other inodes own what they owned and contain what they contained. */
  lemma TruncateKeeps(view: Disk, table: Table, owner: map<nat, Place>, view': Disk, j: nat, d: DInode)
    requires FsInv(view, table, owner) && j < NINODES
    requires forall b :: 0 <= b < FSSIZE && b != BMAP ==> view'[b] == view[b]
    requires Releasing(view', owner, j, INDIRECT + 1)
    requires d.addrs == seq(NDIRECT + 1, _ => 0) && d.size == 0
    ensures FsInv(view', table[j := d], Disowned(owner, j))
    ensures forall i, x :: 0 <= i < NINODES && i != j && 0 <= x < MAXFILE * BSIZE ==>
              ByteAt(view', table[j := d][i], x) == ByteAt(view, table[i], x)
    ensures forall i, k :: 0 <= i < NINODES && 0 <= k <= INDIRECT ==>
              Ptr(view', table[j := d][i], k) == if i == j then 0 else Ptr(view, table[i], k)
  {
    hide GetWord, BitAt;
    var table' := table[j := d];
    var owner' := Disowned(owner, j);
    forall i, k | 0 <= i < NINODES && 0 <= k <= INDIRECT
      ensures Ptr(view', table'[i], k) == if i == j then 0 else Ptr(view, table[i], k)
    {
      assert Ptr(view, table[i], INDIRECT) != 0 ==> BMAP < Ptr(view, table[i], INDIRECT);
    }
    hide Ptr;
    assert Shaped(table');
    assert Owns(view', table', owner') by {
      hide Used;
    }
    assert Filled(view', table') by {
      hide Used;
    }
    assert Mapped(view', owner');
    forall i, x | 0 <= i < NINODES && i != j && 0 <= x < MAXFILE * BSIZE
      ensures ByteAt(view', table'[i], x) == ByteAt(view, table[i], x)
    {
      var p := Ptr(view, table[i], x / BSIZE);
      assert Ptr(view', table'[i], x / BSIZE) == p;
      assert p != 0 ==> p in owner;
    }
  }

  /** Files have no holes: the block of every byte below the size is there. */
  lemma BelowSize(view: Disk, table: Table, owner: map<nat, Place>, j: nat, x: nat)
    requires FsInv(view, table, owner) && j < NINODES && x < table[j].size
    ensures x < MAXFILE * BSIZE && Ptr(view, table[j], x / BSIZE) != 0
  {
    hide Ptr;
    assert (x / BSIZE) * BSIZE <= x;
  }

  lemma PointerIsData(view: Disk, table: Table, owner: map<nat, Place>, j: nat, k: nat)
    requires FsInv(view, table, owner) && j < NINODES && k <= INDIRECT && Ptr(view, table[j], k) != 0
    ensures BMAP < Ptr(view, table[j], k) < FSSIZE
  {
    hide Ptr;
  }

  lemma IndirectIsData(view: Disk, table: Table, owner: map<nat, Place>, j: nat)
    requires FsInv(view, table, owner) && j < NINODES && table[j].addrs[NDIRECT] != 0
    ensures BMAP < table[j].addrs[NDIRECT] < FSSIZE
  {
    assert Ptr(view, table[j], INDIRECT) == table[j].addrs[NDIRECT];
  }

  lemma IndirectFirst(view: Disk, d: DInode, k: nat)
    requires k < MAXFILE && Ptr(view, d, k) != 0
    ensures k >= NDIRECT ==> d.addrs[NDIRECT] != 0
  {
    hide GetWord;
  }

  // ---------- growing one file ----------

  /** Inode j may have gained blocks; no existing pointer moved, and nothing else of any inode
      changed. */
  ghost predicate Grows(view: Disk, table: Table, view': Disk, table': Table, j: nat) {
    && Shaped(table) && Shaped(table') && j < NINODES
    && table' == table[j := table[j].(addrs := table'[j].addrs)]
    && (forall i, k :: 0 <= i < NINODES && 0 <= k <= INDIRECT && Ptr(view, table[i], k) != 0 ==>
          Ptr(view', table'[i], k) == Ptr(view, table[i], k))
    && SystemSame(view, view')
    && FreeBlocks(view') <= FreeBlocks(view)
  }

  /** As Grows, and no byte of any file changed. */
  ghost predicate Extends(view: Disk, table: Table, view': Disk, table': Table, j: nat) {
    Grows(view, table, view', table', j) && SameBytes(view, table, view', table')
  }

  lemma ExtendsNot(view: Disk, table: Table, j: nat)
    requires Shaped(table) && j < NINODES
    ensures Extends(view, table, view, table, j)
  {
    hide Ptr, ByteAt;
    assert table[j].(addrs := table[j].addrs) == table[j];
  }

  lemma ExtendsOne(view: Disk, table: Table, view': Disk, table': Table, j: nat, k: nat, b: nat)
    requires Shaped(table) && Shaped(table') && j < NINODES && k <= INDIRECT
    requires table' == table[j := table[j].(addrs := table'[j].addrs)]
    requires OnePtr(view, table, view', table', j, k, b) && Ptr(view, table[j], k) == 0
    requires SameBytes(view, table, view', table') && SystemSame(view, view') && FreeBlocks(view') <= FreeBlocks(view)
    ensures Extends(view, table, view', table', j)
  {
    hide Ptr, ByteAt, SameBytes, SystemSame;
  }

  lemma ExtendsTwice(v0: Disk, t0: Table, v1: Disk, t1: Table, v2: Disk, t2: Table, j: nat)
    requires Extends(v0, t0, v1, t1, j) && Extends(v1, t1, v2, t2, j)
    ensures Extends(v0, t0, v2, t2, j)
  {
    hide Ptr, ByteAt;
    assert t2 == t0[j := t0[j].(addrs := t2[j].addrs)];
  }

  lemma RemoveOne(s: set<nat>, a: nat)
    ensures |s - {a}| >= |s| - 1
  {
    if a in s {
      assert s == (s - {a}) + {a};
    } else {
      assert s - {a} == s;
    }
  }

  // ---------- inodes on disk ----------

  /** The inode blocks hold the table, but for the inodes in `stale`. */
  ghost predicate OnDisk(view: Disk, table: Table, stale: set<nat>) {
    forall j :: 0 <= j < NINODES && j !in stale ==> GetInode(view, j) == table[j]
  }

  lemma GrowsOnDisk(view: Disk, table: Table, view': Disk, table': Table, j: nat, stale: set<nat>)
    requires Grows(view, table, view', table', j) && OnDisk(view, table, stale)
    ensures OnDisk(view', table', stale + {j})
  {
    hide Ptr, ByteAt, SameBytes, InodeAt;
  }

  /** Storing inode j in its inode block disturbs no file, no pointer and no other inode. */
  lemma InodeStored(view: Disk, table: Table, owner: map<nat, Place>, j: nat, stale: set<nat>, view': Disk)
    requires FsInv(view, table, owner) && OnDisk(view, table, stale) && j < NINODES
    requires var ib := InodeBlock(j); view' == view[ib := PutInode(view[ib], j % IPB, table[j])]
    ensures FsInv(view', table, owner) && OnDisk(view', table, stale - {j})
    ensures SameBytes(view, table, view', table) && SamePtrs(view, table, view', table)
    ensures FreeBlocks(view') == FreeBlocks(view)
  {
    hide GetWord, BitAt, InodeAt, PutInode;
    var ib := InodeBlock(j);
    PlainWrite(view, table, owner, ib, view'[ib]);
    forall i | 0 <= i < NINODES && i !in stale - {j}
      ensures GetInode(view', i) == table[i]
    {
      if InodeBlock(i) == ib {
        InodeRoundTrip(view[ib], j % IPB, table[j], i % IPB);
      }
    }
    hide Ptr;
    forall i, x | 0 <= i < NINODES && 0 <= x < MAXFILE * BSIZE
      ensures ByteAt(view', table[i], x) == ByteAt(view, table[i], x)
    {
      var p := Ptr(view, table[i], x / BSIZE);
      assert Ptr(view', table[i], x / BSIZE) == p;
      assert p != 0 ==> p in owner;
    }
  }

  // ---------- writing ----------

  lemma GrowsTwice(v0: Disk, t0: Table, v1: Disk, t1: Table, v2: Disk, t2: Table, j: nat)
    requires Grows(v0, t0, v1, t1, j) && Grows(v1, t1, v2, t2, j)
    ensures Grows(v0, t0, v2, t2, j)
  {
    hide Ptr, FreeBlocks;
    assert t2 == t0[j := t0[j].(addrs := t2[j].addrs)];
  }

  /** Bytes put into a block that is already mapped. */
  lemma DataWriteGrows(view: Disk, table: Table, owner: map<nat, Place>, j: nat, k: nat, o: nat, part: seq<Byte>,
                       view': Disk)
    requires FsInv(view, table, owner) && j < NINODES && k < MAXFILE && o + |part| <= BSIZE
    requires BMAP < Ptr(view, table[j], k) < FSSIZE
    requires var b := Ptr(view, table[j], k); view' == view[b := view[b][..o] + part + view[b][o + |part|..]]
    ensures FsInv(view', table, owner) && Grows(view, table, view', table, j)
    ensures Wrote(view, table, view', table, j, k * BSIZE + o, part)
    ensures FreeBlocks(view') == FreeBlocks(view) && SamePtrs(view, table, view', table)
  {
    hide Ptr, BitAt, ByteAt;
    var b := Ptr(view, table[j], k);
    assert owner[b] == (j, k);
    assert view' == view[b := view'[b]];
    PlainWrite(view, table, owner, b, view'[b]);
    DataWriteBytes(view, table, owner, j, k, o, part, view');
    assert table[j].(addrs := table[j].addrs) == table[j];
    assert FreeBlocks(view') == FreeBlocks(view);
  }

  lemma WroteAfterNothing(v0: Disk, t0: Table, v1: Disk, t1: Table, v2: Disk, t2: Table, j: nat, lo: nat,
                          part: seq<Byte>)
    requires SameBytes(v0, t0, v1, t1) && Wrote(v1, t1, v2, t2, j, lo, part)
    ensures Wrote(v0, t0, v2, t2, j, lo, part)
  {
    hide ByteAt;
  }

  /** Two adjacent writes are one longer write. */
  lemma WroteTwice(v0: Disk, t0: Table, v1: Disk, t1: Table, v2: Disk, t2: Table, j: nat, lo: nat, a: seq<Byte>,
                   b: seq<Byte>)
    requires Wrote(v0, t0, v1, t1, j, lo, a) && Wrote(v1, t1, v2, t2, j, lo + |a|, b)
    ensures Wrote(v0, t0, v2, t2, j, lo, a + b)
  {
    hide ByteAt;
  }

  /** The blocks a write of bytes lo..hi has to touch. */
  function Span(lo: nat, n: nat): nat {
    if n == 0 then 0 else (lo + n - 1) / BSIZE - lo / BSIZE + 1
  }

  /** The inode after a write that ended at `end`. */
  function Resized(d: DInode, end: nat): DInode
    requires end <= MAXFILE * BSIZE
  {
    if end > d.size then d.(size := end) else d
  }

  /** Every block of bytes lo to end, if there are any, is there. */
  ghost predicate Covered(view: Disk, d: DInode, lo: nat, end: nat) {
    forall k :: lo / BSIZE <= k < MAXFILE && k * BSIZE < end ==> Ptr(view, d, k) != 0 || lo == end
  }

  /** Once every block of a write starting within the file is mapped, the size may follow. */
  lemma ResizeKeeps(view: Disk, table: Table, owner: map<nat, Place>, j: nat, lo: nat, end: nat)
    requires FsInv(view, table, owner) && j < NINODES && table[j].kind != 0
    requires lo <= table[j].size && lo <= end <= MAXFILE * BSIZE
    requires Covered(view, table[j], lo, end)
    ensures FsInv(view, table[j := Resized(table[j], end)], owner)
    ensures SamePtrs(view, table, view, table[j := Resized(table[j], end)])
    ensures SameBytes(view, table, view, table[j := Resized(table[j], end)])
  {
    hide BitAt, GetWord;
    var table' := table[j := Resized(table[j], end)];
    assert forall k :: 0 <= k <= INDIRECT ==> Ptr(view, table'[j], k) == Ptr(view, table[j], k);
    assert SamePtrs(view, table, view, table');
    hide Ptr;
    assert Owns(view, table', owner);
    forall k | 0 <= k < MAXFILE && k * BSIZE < table'[j].size
      ensures Ptr(view, table'[j], k) != 0
    {
      assert k * BSIZE < table[j].size || lo / BSIZE <= k;
    }
  }

  /** A file whose bytes lo.. were written and whose size followed holds the splice. */
  lemma WroteIsSplice(v0: Disk, t0: Table, v1: Disk, t1: Table, j: nat, lo: nat, src: seq<Byte>)
    requires Shaped(t0) && Shaped(t1) && j < NINODES && lo <= t0[j].size && lo + |src| <= MAXFILE * BSIZE
    requires Wrote(v0, t0, v1, t1, j, lo, src)
    requires t1[j].size == if lo + |src| > t0[j].size then lo + |src| else t0[j].size
    ensures Contents(v1, t1[j]) == Splice(Contents(v0, t0[j]), lo, src)
  {
    hide ByteAt;
    var s, r := Contents(v0, t0[j]), Contents(v1, t1[j]);
    forall x | 0 <= x < |r|
      ensures r[x] == Splice(s, lo, src)[x]
    {
      assert r[x] == ByteAt(v1, t1[j], x);
    }
  }

  /** Files other than j hold what they held. */
  lemma WroteElsewhere(v0: Disk, t0: Table, v1: Disk, t1: Table, j: nat, lo: nat, src: seq<Byte>, i: nat)
    requires Shaped(t0) && Shaped(t1) && i < NINODES && i != j && t1[i].size == t0[i].size
    requires Wrote(v0, t0, v1, t1, j, lo, src)
    ensures Contents(v1, t1[i]) == Contents(v0, t0[i])
  {
    hide ByteAt;
    forall x | 0 <= x < t0[i].size
      ensures Contents(v1, t1[i])[x] == Contents(v0, t0[i])[x]
    {}
  }

  // ---------- what a write logs ----------

  /** Beyond `before`, only the bitmap, the indirect block and the data blocks `data` are logged. */
  ghost predicate LogsOnly(before: set<nat>, now: set<nat>, data: set<nat>, d: DInode) {
    && before <= now
    && forall b :: b in now && b !in before ==> b == BMAP || b in data || (b != 0 && b == d.addrs[NDIRECT])
  }

  lemma LogsFew(before: set<nat>, now: set<nat>, data: set<nat>, d: DInode)
    requires LogsOnly(before, now, data, d)
    ensures |now| <= |before| + |data| + 2
  {
    var more: set<nat> := {BMAP, d.addrs[NDIRECT]};
    assert now <= before + data + more;
    var r := (before + data + more) - now;
    assert before + data + more == now + r;
    assert |now| <= |before + data + more|;
    assert |before + data + more| <= |before + data| + |more|;
  }

  lemma IndirectStays(view: Disk, table: Table, view': Disk, table': Table, j: nat)
    requires Grows(view, table, view', table', j)
    ensures table[j].addrs[NDIRECT] == 0 || table'[j].addrs[NDIRECT] == table[j].addrs[NDIRECT]
    ensures table'[j].kind == table[j].kind && table'[j].size == table[j].size
  {
    hide GetWord, FreeBlocks;
    assert Ptr(view, table[j], INDIRECT) == table[j].addrs[NDIRECT];
  }

  lemma LogsOnlyMore(p0: set<nat>, p1: set<nat>, p2: set<nat>, data: set<nat>, d1: DInode, d2: DInode, b: nat)
    requires LogsOnly(p0, p1, data, d1) && (d1.addrs[NDIRECT] == 0 || d2.addrs[NDIRECT] == d1.addrs[NDIRECT])
    requires p1 <= p2
    requires forall x :: x in p2 && x !in p1 ==> x == BMAP || x == b || (x != 0 && x == d2.addrs[NDIRECT])
    ensures LogsOnly(p0, p2, data + {b}, d2)
  {}

  lemma StartWrite(view: Disk, table: Table, owner: map<nat, Place>, j: nat, lo: nat, pinned: set<nat>)
    requires FsInv(view, table, owner) && j < NINODES
    ensures Grows(view, table, view, table, j) && Wrote(view, table, view, table, j, lo, [])
    ensures LogsOnly(pinned, pinned, {}, table[j]) && Covered(view, table[j], lo, lo)
  {
    hide Ptr, ByteAt;
    assert table[j].(addrs := table[j].addrs) == table[j];
  }

  /** Blocks mapped so far stay mapped, and the piece just written adds its own. */
  lemma GrowsMapped(view: Disk, table: Table, view': Disk, table': Table, j: nat, lo: nat, at: nat, m: nat)
    requires Grows(view, table, view', table', j) && lo <= at < MAXFILE * BSIZE && 0 < m && at % BSIZE + m <= BSIZE
    requires Covered(view, table[j], lo, at) && Ptr(view', table'[j], at / BSIZE) != 0
    ensures Covered(view', table'[j], lo, at + m)
  {
    hide Ptr, FreeBlocks;
    forall k | lo / BSIZE <= k < MAXFILE && k * BSIZE < at + m
      ensures Ptr(view', table'[j], k) != 0
    {
      assert k <= at / BSIZE;
      if k < at / BSIZE {
        assert k * BSIZE < at && at != lo;
      }
    }
  }

  /** Inode j holds the splice, every other inode is as it was, block for block and byte for
      byte. */
  ghost predicate Spliced(v0: Disk, t0: Table, v1: Disk, t1: Table, j: nat, off: nat, src: seq<Byte>) {
    && Shaped(t0) && Shaped(t1) && j < NINODES && off <= t0[j].size
    && Contents(v1, t1[j]) == Splice(Contents(v0, t0[j]), off, src)
    && t1[j] == t0[j].(addrs := t1[j].addrs, size := t1[j].size)
    && forall i :: 0 <= i < NINODES && i != j ==> t1[i] == t0[i] && Contents(v1, t1[i]) == Contents(v0, t0[i])
  }

  lemma WriteIsSplice(v0: Disk, t0: Table, v1: Disk, t1: Table, v2: Disk, t2: Table, j: nat, off: nat, src: seq<Byte>)
    requires Shaped(t0) && Shaped(t2) && j < NINODES && off <= t0[j].size && off + |src| <= MAXFILE * BSIZE
    requires Grows(v0, t0, v1, t1, j) && Wrote(v0, t0, v1, t1, j, off, src)
    requires SameBytes(v1, t1, v2, t2) && t2 == t1[j := Resized(t1[j], off + |src|)]
    ensures Spliced(v0, t0, v2, t2, j, off, src)
  {
    hide ByteAt, Ptr, FreeBlocks, Contents, Splice;
    assert Wrote(v0, t0, v2, t2, j, off, src) by {
      hide Grows;
    }
    WroteIsSplice(v0, t0, v2, t2, j, off, src);
    forall i | 0 <= i < NINODES && i != j
      ensures Contents(v2, t2[i]) == Contents(v0, t0[i])
    {
      WroteElsewhere(v0, t0, v2, t2, j, off, src, i);
    }
  }

  lemma SameBytesTwice(v0: Disk, t0: Table, v1: Disk, t1: Table, v2: Disk, t2: Table)
    requires SameBytes(v0, t0, v1, t1) && SameBytes(v1, t1, v2, t2)
    ensures SameBytes(v0, t0, v2, t2)
  {
    hide ByteAt;
  }

  lemma ResizeOnDisk(view: Disk, table: Table, j: nat, end: nat)
    requires OnDisk(view, table, {} + {j}) && j < NINODES && end <= MAXFILE * BSIZE
    ensures OnDisk(view, table[j := Resized(table[j], end)], {j})
  {
    hide GetInode;
  }

  // ---------- truncation step by step ----------

  lemma ReleaseStart(view: Disk, owner: map<nat, Place>, j: nat)
    requires Mapped(view, owner)
    ensures Releasing(view, owner, j, 0)
  {
    hide BitAt;
  }

  /** An empty pointer needs no release. */
  lemma ReleaseNone(v0: Disk, table: Table, owner: map<nat, Place>, j: nat, k: nat, view: Disk)
    requires FsInv(v0, table, owner) && j < NINODES && k <= INDIRECT && Releasing(view, owner, j, k)
    requires Ptr(v0, table[j], k) == 0
    ensures Releasing(view, owner, j, k + 1)
  {
    hide Ptr, BitAt;
  }

  /** A block about to be freed is marked used, and freeing it releases exactly one pointer. */
  lemma ReleaseOne(v0: Disk, table: Table, owner: map<nat, Place>, j: nat, k: nat, view: Disk)
    requires FsInv(v0, table, owner) && j < NINODES && k <= INDIRECT && Releasing(view, owner, j, k)
    requires Ptr(v0, table[j], k) != 0
    ensures BMAP < Ptr(v0, table[j], k) < FSSIZE && Used(view, Ptr(v0, table[j], k))
    ensures Releasing(view[BMAP := FlipAt(view[BMAP], Ptr(v0, table[j], k))], owner, j, k + 1)
  {
    hide Ptr, BitAt, FlipAt;
    var b := Ptr(v0, table[j], k);
    assert owner[b] == (j, k);
    var view' := view[BMAP := FlipAt(view[BMAP], b)];
    forall x | 0 <= x < FSSIZE
      ensures Used(view', x) <==> x <= BMAP || (x in owner && !(owner[x].0 == j && owner[x].1 < k + 1))
    {
      FlipOneBit(view[BMAP], b, x);
    }
  }

  lemma {:induction false} ReleaseNoIndirect(v0: Disk, table: Table, owner: map<nat, Place>, j: nat, k: nat, view: Disk)
    requires FsInv(v0, table, owner) && j < NINODES && NDIRECT <= k <= INDIRECT + 1 && Releasing(view, owner, j, k)
    requires table[j].addrs[NDIRECT] == 0
    ensures Releasing(view, owner, j, INDIRECT + 1)
    decreases INDIRECT + 1 - k
  {
    hide BitAt, GetWord, Releasing;
    if k <= INDIRECT {
      ReleaseNone(v0, table, owner, j, k, view);
      ReleaseNoIndirect(v0, table, owner, j, k + 1, view);
    }
  }

  /** Conservation: the blocks that became free are exactly the ones the inode owned. */
  lemma ReleasedBlocks(v0: Disk, owner: map<nat, Place>, j: nat, view: Disk)
    requires Mapped(v0, owner) && Releasing(view, owner, j, INDIRECT + 1)
    requires forall b :: b in owner ==> BMAP < b < FSSIZE && owner[b].1 <= INDIRECT
    ensures FreeBlocks(view) == FreeBlocks(v0) + set b | b in owner && owner[b].0 == j
  {
    hide BitAt;
  }

  lemma TruncatedOnDisk(view: Disk, table: Table, view': Disk, j: nat, d: DInode, stale: set<nat>)
    requires OnDisk(view, table, stale) && j < NINODES
    requires forall b :: 0 <= b < FSSIZE && b != BMAP ==> view'[b] == view[b]
    ensures OnDisk(view', table[j := d], stale + {j})
  {
    hide InodeAt;
  }

  // ---------- inodes come and go ----------

  predicate NoBlocks(d: DInode) { d.size == 0 && d.addrs == seq(NDIRECT + 1, _ => 0) }

  /** A free inode has no size and no block. */
  lemma FreeHasNothing(view: Disk, table: Table, owner: map<nat, Place>, j: nat)
    requires FsInv(view, table, owner) && j < NINODES && table[j].kind == 0
    ensures NoBlocks(table[j])
  {
    hide GetWord, BitAt, Owns, Mapped;
    forall k | 0 <= k < NDIRECT + 1 ensures table[j].addrs[k] == 0 {
      assert Ptr(view, table[j], if k < NDIRECT then k else INDIRECT) == 0;
    }
    assert Ptr(view, table[j], 0) == 0;
  }

  /** An inode without blocks may become any other inode without blocks. */
  lemma RekindKeeps(view: Disk, table: Table, owner: map<nat, Place>, j: nat, d: DInode, stale: set<nat>)
    requires FsInv(view, table, owner) && OnDisk(view, table, stale) && j < NINODES && NoBlocks(table[j]) && NoBlocks(d)
    ensures FsInv(view, table[j := d], owner) && OnDisk(view, table[j := d], stale + {j})
    ensures SameBytes(view, table, view, table[j := d]) && SamePtrs(view, table, view, table[j := d])
  {
    hide GetWord, BitAt, GetInode, Mapped;
    var table' := table[j := d];
    forall i, k | 0 <= i < NINODES && 0 <= k <= INDIRECT
      ensures Ptr(view, table'[i], k) == Ptr(view, table[i], k) && (i == j ==> Ptr(view, table[i], k) == 0)
    {}
    hide Ptr;
    assert Owns(view, table', owner);
    assert Filled(view, table');
  }
}
