/** The blocks of the disk, counted: a file has as many as its size asks for, and the bitmap shows the
    rest free. */
module Space {
  import opened LittleEndian
  import opened Blocks
  import opened Lists
  import opened Layout
  import opened Files

  /** No inode has a block beyond its size. */
  ghost predicate Snug(view: Disk, table: Table) {
    && (forall j, k :: 0 <= j < NINODES && 0 <= k < MAXFILE && Ptr(view, table[j], k) != 0 ==>
          k * BSIZE < table[j].size)
    && (forall j :: 0 <= j < NINODES && table[j].addrs[NDIRECT] != 0 ==> table[j].size > NDIRECT * BSIZE)
  }

  /** A disk whose files are in order, with their inodes stored and nothing to spare. */
  ghost predicate InOrder(d: Disk, t: Table, o: map<nat, Place>) {
    FsInv(d, t, o) && OnDisk(d, t, {}) && Snug(d, t)
  }

  /** The blocks of the first n inodes. */
  function TotalBlocks(table: Table, n: nat): nat
    requires n <= NINODES
  {
    if n == 0 then 0 else TotalBlocks(table, n - 1) + BlocksFor(table[n - 1].size)
  }

  /** The blocks behind the bitmap. */
  const DATABLOCKS := FSSIZE - BMAP - 1

  /** How many blocks are free. */
  function Free(table: Table): int { DATABLOCKS - TotalBlocks(table, NINODES) }

  /** A write in two parts needs what the whole needs. */
  lemma NeedsAdd(size: nat, off: nat, i: nat, n: nat)
    requires off <= size
    ensures var now := if off + i > size then off + i else size;
            Needs(size, off, i + n) == Needs(size, off, i) + Needs(now, off + i, n)
    ensures 0 <= Needs(size, off, i) <= Needs(size, off, i + n) && Needs(size, off, 0) == 0
  {}

  /** What writei does not refuse: a start within the file and an end within the largest file. */
  predicate Fits(size: nat, off: nat, n: nat) { off <= size && off + n <= MAXFILE * BSIZE }

  // ---------- pointers come and go ----------

  /** No pointer changes but that of block bn of inode j, and that of its indirect block if bn is
      behind it. */
  ghost predicate OnlyPtr(view: Disk, table: Table, view': Disk, table': Table, j: nat, bn: nat) {
    forall i, k :: 0 <= i < NINODES && 0 <= k <= INDIRECT ==>
      Ptr(view', table'[i], k) == Ptr(view, table[i], k) || (i == j && (k == bn || (k == INDIRECT && bn >= NDIRECT)))
  }

  lemma OnePtrIsOnly(view: Disk, table: Table, view': Disk, table': Table, j: nat, k: nat, b: nat)
    requires k < MAXFILE && OnePtr(view, table, view', table', j, k, b)
    ensures OnlyPtr(view, table, view', table', j, k)
  {
    hide Ptr;
  }

  /** First the indirect block, then one of its entries. */
  lemma TwoPtrs(v: Disk, t: Table, v1: Disk, t1: Table, v2: Disk, t2: Table, j: nat, k: nat, a: nat, b: nat)
    requires NDIRECT <= k < MAXFILE && OnePtr(v1, t1, v2, t2, j, k, b)
    requires OnePtr(v, t, v1, t1, j, INDIRECT, a) || SamePtrs(v, t, v1, t1)
    ensures OnlyPtr(v, t, v2, t2, j, k)
  {
    hide Ptr;
  }

  lemma NoPtr(view: Disk, table: Table, j: nat, bn: nat)
    ensures OnlyPtr(view, table, view, table, j, bn) && SamePtrs(view, table, view, table)
  {
    hide Ptr;
  }

  lemma OnlyThenSame(v: Disk, t: Table, v1: Disk, t1: Table, v2: Disk, j: nat, bn: nat)
    requires OnlyPtr(v, t, v1, t1, j, bn) && SamePtrs(v1, t1, v2, t1)
    ensures OnlyPtr(v, t, v2, t1, j, bn)
  {
    hide Ptr;
  }

  lemma IndirectPtr(view: Disk, d: DInode)
    ensures Ptr(view, d, INDIRECT) == d.addrs[NDIRECT]
  {}

  /** Pointers and sizes are all that matters. */
  lemma SnugSame(v: Disk, t: Table, v': Disk, t': Table)
    requires Snug(v, t) && SamePtrs(v, t, v', t') && forall j :: 0 <= j < NINODES ==> t'[j].size == t[j].size
    ensures Snug(v', t')
  {
    hide GetWord;
    forall j | 0 <= j < NINODES ensures t'[j].addrs[NDIRECT] == t[j].addrs[NDIRECT] {
      assert Ptr(v', t'[j], INDIRECT) == Ptr(v, t[j], INDIRECT);
    }
    hide Ptr;
  }

  /** A size does not move pointers. */
  lemma SizeKeepsPtrs(v: Disk, t: Table, j: nat, end: nat)
    requires j < NINODES && end <= MAXFILE * BSIZE
    ensures SamePtrs(v, t, v, t[j := Resized(t[j], end)])
  {
    hide GetWord;
  }

  /** Snug as if the size were what the write has reached. */
  ghost predicate SnugTo(v: Disk, t: Table, j: nat, end: nat) {
    j < NINODES && end <= MAXFILE * BSIZE && Snug(v, t[j := Resized(t[j], end)])
  }

  /** The next piece of a write keeps it snug. */
  lemma SnugStep(v: Disk, t: Table, v': Disk, t': Table, j: nat, at: nat, m: nat)
    requires SnugTo(v, t, j, at) && OnlyPtr(v, t, v', t', j, at / BSIZE)
    requires 0 < m && at % BSIZE + m <= BSIZE && at + m <= MAXFILE * BSIZE
    requires t' == t[j := t[j].(addrs := t'[j].addrs)]
    ensures SnugTo(v', t', j, at + m)
  {
    var s, s' := t[j := Resized(t[j], at)], t'[j := Resized(t'[j], at + m)];
    SizeKeepsPtrs(v, t, j, at);
    SizeKeepsPtrs(v', t', j, at + m);
    forall i | 0 <= i < NINODES
      ensures Ptr(v, t[i], INDIRECT) == s[i].addrs[NDIRECT] && Ptr(v', t'[i], INDIRECT) == s'[i].addrs[NDIRECT]
    {
      IndirectPtr(v, t[i]);
      IndirectPtr(v', t'[i]);
    }
    hide Ptr;
    forall i, k | 0 <= i < NINODES && 0 <= k < MAXFILE && Ptr(v', s'[i], k) != 0 ensures k * BSIZE < s'[i].size {
      assert Ptr(v', t'[i], k) == Ptr(v', s'[i], k);
      if !(i == j && k == at / BSIZE) {
        assert Ptr(v, t[i], k) == Ptr(v, s[i], k);
      }
    }
  }

  // ---------- a full disk ----------

  /** The write that stops at byte `at` for lack of blocks needs more than there were. */
  lemma StopsShort(v0: Disk, t0: Table, o0: map<nat, Place>, v: Disk, t: Table, o: map<nat, Place>, j: nat, off: nat,
                   at: nat, end: nat)
    requires FsInv(v0, t0, o0) && Snug(v0, t0) && FsInv(v, t, o) && SnugTo(v, t, j, at)
    requires off <= t0[j].size && off <= at < end <= MAXFILE * BSIZE && Covered(v, t[j], off, at)
    requires t == t0[j := t0[j].(addrs := t[j].addrs)] && t[j].kind != 0
    requires Ptr(v, t[j], at / BSIZE) == 0
    requires |FreeBlocks(v)| < if at / BSIZE >= NDIRECT && t[j].addrs[NDIRECT] == 0 then 2 else 1
    ensures |FreeBlocks(v0)| < Needs(t0[j].size, off, end - off)
  {
    hide FreeBlocks, Owns, Mapped, Snug, GetWord, TotalBlocks;
    var s := t[j := Resized(t[j], at)];
    ResizeKeeps(v, t, o, j, off, at);
    FreeIsRest(v, s, o);
    FreeIsRest(v0, t0, o0);
    assert s == t0[j := s[j]];
    TotalChanges(t0, j, s[j], NINODES);
    AtTheEnd(v, s, o, j, at / BSIZE);
    MoreBlocks(at, end);
  }

  /** An unmapped block lies behind the end, and so does a missing indirect block. */
  lemma AtTheEnd(v: Disk, t: Table, o: map<nat, Place>, j: nat, bn: nat)
    requires FsInv(v, t, o) && j < NINODES && bn < MAXFILE && Ptr(v, t[j], bn) == 0
    ensures t[j].size <= bn * BSIZE
    ensures t[j].addrs[NDIRECT] == 0 ==> t[j].size <= NDIRECT * BSIZE
  {
    hide GetWord, Owns, Mapped;
    if t[j].size > NDIRECT * BSIZE {
      assert Ptr(v, t[j], NDIRECT) != 0;
    }
  }

  lemma MoreBlocks(at: nat, end: nat)
    requires at < end && at % BSIZE == 0
    ensures BlocksFor(end) >= BlocksFor(at) + if at == NDIRECT * BSIZE then 2 else 1
  {}

  // ---------- what one inode owns ----------

  ghost function OwnedAt(o: map<nat, Place>, j: nat, m: nat): set<nat> {
    set b | b in o && o[b].0 == j && o[b].1 < m
  }

  ghost function OwnedBelow(o: map<nat, Place>, n: nat): set<nat> {
    set b | b in o && o[b].0 < n
  }

  lemma {:induction false} OwnedData(v: Disk, t: Table, o: map<nat, Place>, j: nat, m: nat)
    requires FsInv(v, t, o) && j < NINODES && m <= MAXFILE && (m > 0 ==> (m - 1) * BSIZE < t[j].size)
    ensures |OwnedAt(o, j, m)| == m
  {
    hide Ptr, BitAt, Mapped;
    if m == 0 {
      assert OwnedAt(o, j, 0) == {};
    } else {
      OwnedData(v, t, o, j, m - 1);
      var b := Ptr(v, t[j], m - 1);
      assert b != 0 && o[b] == (j, m - 1);
      assert OwnedAt(o, j, m) == OwnedAt(o, j, m - 1) + {b};
    }
  }

  /** An inode owns what its size asks for. */
  lemma OwnedIsSize(v: Disk, t: Table, o: map<nat, Place>, j: nat)
    requires FsInv(v, t, o) && Snug(v, t) && j < NINODES
    ensures |OwnedAt(o, j, INDIRECT + 1)| == BlocksFor(t[j].size)
  {
    hide FsInv, Snug, OwnedAt;
    var m := (t[j].size + BSIZE - 1) / BSIZE;
    SizeInRange(v, t, o, j);
    OwnedData(v, t, o, j, m);
    OwnedSplit(v, t, o, j, m);
    var data, all, ind := OwnedAt(o, j, m), OwnedAt(o, j, INDIRECT + 1), t[j].addrs[NDIRECT];
    if t[j].size > NDIRECT * BSIZE {
      IndirectOwned(v, t, o, j, m);
      assert all == data + {ind};
    } else {
      assert all == data;
    }
  }

  lemma SizeInRange(v: Disk, t: Table, o: map<nat, Place>, j: nat)
    requires FsInv(v, t, o) && j < NINODES
    ensures t[j].size <= MAXFILE * BSIZE
  {}

  /** A file with an indirect block owns it apart from its data. */
  lemma IndirectOwned(v: Disk, t: Table, o: map<nat, Place>, j: nat, m: nat)
    requires FsInv(v, t, o) && j < NINODES && t[j].size > NDIRECT * BSIZE && m <= MAXFILE
    ensures t[j].addrs[NDIRECT] in OwnedAt(o, j, INDIRECT + 1) && t[j].addrs[NDIRECT] !in OwnedAt(o, j, m)
  {
    hide GetWord, BitAt, Mapped;
    assert Ptr(v, t[j], NDIRECT) != 0;
    assert Ptr(v, t[j], INDIRECT) == t[j].addrs[NDIRECT] && o[t[j].addrs[NDIRECT]] == (j, INDIRECT);
  }

  lemma OwnedSplit(v: Disk, t: Table, o: map<nat, Place>, j: nat, m: nat)
    requires FsInv(v, t, o) && Snug(v, t) && j < NINODES && m == (t[j].size + BSIZE - 1) / BSIZE
    ensures forall b :: b in OwnedAt(o, j, INDIRECT + 1) ==>
              b in OwnedAt(o, j, m) || (b == t[j].addrs[NDIRECT] && t[j].size > NDIRECT * BSIZE)
    ensures OwnedAt(o, j, m) <= OwnedAt(o, j, INDIRECT + 1)
  {
    hide GetWord, BitAt, Mapped;
    forall b | b in OwnedAt(o, j, INDIRECT + 1)
      ensures b in OwnedAt(o, j, m) || (b == t[j].addrs[NDIRECT] && t[j].size > NDIRECT * BSIZE)
    {
      assert Ptr(v, t[j], o[b].1) == b;
    }
  }

  // ---------- all inodes ----------

  lemma {:induction false} OwnedIsTotal(v: Disk, t: Table, o: map<nat, Place>, n: nat)
    requires FsInv(v, t, o) && Snug(v, t) && n <= NINODES
    ensures |OwnedBelow(o, n)| == TotalBlocks(t, n)
  {
    hide Ptr, BitAt, Mapped, Filled, Snug, BlocksFor;
    if n == 0 {
      assert OwnedBelow(o, 0) == {};
    } else {
      OwnedIsTotal(v, t, o, n - 1);
      OwnedIsSize(v, t, o, n - 1);
      var a, b := OwnedBelow(o, n - 1), OwnedAt(o, n - 1, INDIRECT + 1);
      assert OwnedBelow(o, n) == a + b && a !! b;
    }
  }

  ghost function Range(lo: nat, hi: nat): (s: set<nat>)
    requires lo <= hi
    ensures |s| == hi - lo && forall b :: b in s <==> lo <= b < hi
    decreases hi - lo
  {
    if lo == hi then {} else Range(lo, hi - 1) + {hi - 1}
  }

  /** Conservation: every block behind the bitmap is free or belongs to a file as its size asks. */
  lemma FreeIsRest(v: Disk, t: Table, o: map<nat, Place>)
    requires FsInv(v, t, o) && Snug(v, t)
    ensures |FreeBlocks(v)| == Free(t)
  {
    hide FsInv, Snug, TotalBlocks, FreeBlocks, OwnedBelow;
    OwnedIsTotal(v, t, o, NINODES);
    FreeOrOwned(v, t, o);
    var owned := OwnedBelow(o, NINODES);
    assert Range(BMAP + 1, FSSIZE) == FreeBlocks(v) + owned;
  }

  lemma FreeOrOwned(v: Disk, t: Table, o: map<nat, Place>)
    requires FsInv(v, t, o)
    ensures FreeBlocks(v) !! OwnedBelow(o, NINODES)
    ensures forall b: nat :: b in FreeBlocks(v) || b in OwnedBelow(o, NINODES) <==> BMAP < b < FSSIZE
  {
    hide Ptr, BitAt, Filled, Shaped;
  }

  /** One size changes the total by its own blocks. */
  lemma {:induction false} TotalChanges(t: Table, j: nat, d: DInode, n: nat)
    requires j < NINODES && n <= NINODES
    ensures TotalBlocks(t[j := d], n) ==
            TotalBlocks(t, n) + if j < n then BlocksFor(d.size) - BlocksFor(t[j].size) else 0
  {
    hide BlocksFor;
    if n > 0 { TotalChanges(t, j, d, n - 1); }
  }
}
