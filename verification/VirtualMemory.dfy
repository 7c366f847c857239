/** pmem.c, kvm.c and uvm.c over one physical memory. */
module VirtualMemory {
  import opened LittleEndian
  import opened PageTables
  import opened PhysicalPages

  class Machine {
    /** The first page after the kernel, ALLOC_BEGIN. */
    const begin: nat
    var mem: Memory
    var head: nat
    var allocable: nat
    /** The free list, bottom first, and the owner of every page. */
    ghost var free: seq<nat>
    ghost var owner: Owners

    ghost predicate Listed()
      reads this
    {
      FreeList(mem, owner, begin, head, allocable, free)
    }

    ghost predicate Valid()
      reads this
    {
      Listed() && Trees(mem, owner)
    }

    // ---------- pmem.c ----------

    /** pmem_init: every page from ALLOC_BEGIN to PHYSTOP is free, whatever the memory holds. */
    constructor (start: nat, contents: Memory)
      requires 0 < start <= PAGES
      ensures Valid() && begin == start && allocable == PAGES - start
      ensures forall p :: 0 <= p < PAGES ==> owner[p] == if p < start then Taken else Free(p - start)
    {
      begin, mem, head, allocable := start, contents, 0, 0;
      free, owner := [], seq(PAGES, _ => Taken);
      new;
      assert Trees(mem, owner);
      var p := begin;
      while p < PAGES
        invariant begin <= p <= PAGES && Valid() && allocable == p - begin
        invariant forall q :: 0 <= q < PAGES ==> owner[q] == if begin <= q < p then Free(q - begin) else Taken
      {
        GivenBack(mem, owner, p, SetEntry(mem[p], 0, head), |free|);
        var ok := PmemFree(p * PGSIZE);
        p := p + 1;
      }
    }

    /** pmem_alloc: the page on top of the list; 0 stands for the panic when there is none. */
    method PmemAlloc() returns (p: nat)
      requires Listed()
      modifies this`head, this`allocable, this`free, this`owner
      ensures Listed()
      ensures p == 0 ==> old(allocable) == 0 && unchanged(this)
      ensures p > 0 ==>
        && old(|free|) > 0 && p == old(free)[old(|free|) - 1] && free == old(free)[..old(|free|) - 1]
        && begin <= p < PAGES && old(owner)[p].Free? && owner == old(owner)[p := Taken]
    {
      if allocable == 0 { return 0; }
      Popped(mem, owner, begin, head, free);
      p := head / PGSIZE;
      head := Entry(mem[p], 0);
      allocable := allocable - 1;
      free, owner := free[..|free| - 1], owner[p := Taken];
    }

    /** pmem_free: false stands for its panic. It keeps the list exactly if the page was not on it: a
        second free goes unnoticed, and nothing is a list of free pages afterwards. */
    method PmemFree(a: nat) returns (ok: bool)
      requires Listed()
      modifies this`mem, this`head, this`allocable, this`free, this`owner
      ensures ok <==> a % PGSIZE == 0 && begin * PGSIZE <= a < PAGES * PGSIZE
      ensures !ok ==> unchanged(this)
      ensures ok ==>
        var p := a / PGSIZE;
        && mem == old(mem)[p := SetEntry(old(mem)[p], 0, old(head))] && head == a && allocable == old(allocable) + 1
        && if old(owner)[p].Free? then forall o, f :: !FreeList(mem, o, begin, head, allocable, f)
           else Listed() && free == old(free) + [p] && owner == old(owner)[p := Free(|old(free)|)]
    {
      if a % PGSIZE != 0 || a < begin * PGSIZE || a >= PAGES * PGSIZE { return false; }
      ghost var p0 := a / PGSIZE;
      if owner[p0].Free? {
        ghost var m', n := mem[p0 := SetEntry(mem[p0], 0, head)], allocable + 1;
        forall o, f ensures !FreeList(m', o, begin, a, n, f) {
          FreedTwice(mem, owner, begin, head, free, p0, o, f);
        }
      } else {
        Pushed(mem, owner, begin, head, free, p0);
        free, owner := free + [p0], owner[p0 := Free(|free|)];
      }
      var p := a / PGSIZE;
      mem := mem[p := SetEntry(mem[p], 0, head)];
      head := a;
      allocable := allocable + 1;
      return true;
    }

    // ---------- kvm.c ----------

    /** One level of vm_getpte: from table p through entry i, allocating the lower table if asked. */
    method Descend(p: nat, i: nat, alloc: bool) returns (q: nat)
      requires Valid() && IsTable(owner, p) && owner[p].height > 1 && i < 512
      modifies this
      ensures Valid() && Grown(old(mem), old(owner), mem, owner, old(owner[p].root), 0, 0, 0, 0)
      ensures IsTable(owner, p) && owner[p] == old(owner)[p]
      ensures q == 0 ==> unchanged(this) && !PageTables.Valid(Entry(mem[p], i)) && (alloc ==> allocable == 0)
      ensures q > 0 ==> IsTable(owner, q) && PageTables.Valid(Entry(mem[p], i)) && Target(Entry(mem[p], i)) == q
      ensures q > 0 ==> owner[q] == Node(owner[p].height - 1, owner[p].root, p, owner[p].base * 512 + i)
      ensures !alloc ==> unchanged(this)
    {
      hide Entry, SetEntry;
      assert EntryOk(mem, owner, p, i);
      var e := Entry(mem[p], i);
      if PageTables.Valid(e) {
        q := Target(e);
      } else {
        if !alloc { return 0; }
        q := PmemAlloc();
        if q == 0 { return; }
        NewTable(mem, old(owner), p, i, q);
        LinkFits(q);
        EntrySet(mem[p], i, Link(q), i);
        mem := mem[q := ZeroPage()];
        mem := mem[p := SetEntry(mem[p], i, Link(q))];
        ghost var taken := owner;
        owner := HungOwner(owner, p, i, q);
        ListKept(old(mem), taken, mem, owner, begin, head, allocable, free);
      }
    }
  
    /** vm_getpte: the page of the lowest table for address va, with its entry in slot
        PX(va, 0); 0 for none. */
    method GetPte(root: nat, va: nat, alloc: bool) returns (p: nat)
      requires Valid() && IsRoot(owner, root)
      modifies this
      ensures Valid() && Grown(old(mem), old(owner), mem, owner, root, 0, 0, 0, 0)
      ensures p == 0 ==> (alloc ==> allocable == 0) && (!alloc ==> Lookup(mem, root, Vpn(va)) == 0)
      ensures p > 0 ==>
        && IsTable(owner, p) && owner[p].height == 1 && owner[p].root == root && owner[p].base == Vpn(va) / 512
        && PxOf(va, 0) == Vpn(va) % 512 && Lookup(mem, root, Vpn(va)) == Entry(mem[p], PxOf(va, 0))
      ensures !alloc ==> unchanged(this)
    {
      hide Entry, SetEntry, EntryOk, NodeOk, Trees, Grown;
      ghost var v := Vpn(va);
      RootStart(mem, owner, root, v);
      p := root;
      GrownNone(mem, owner, root);
      var level := 2;
      while level > 0
        invariant 0 <= level <= 2 && Valid() && Grown(old(mem), old(owner), mem, owner, root, 0, 0, 0, 0)
        invariant AtTable(owner, p, root, level + 1, v)
        invariant !alloc ==> unchanged(this) && Walk(mem, root, 3, v) == Walk(mem, p, level + 1, v)
      {
        ghost var m1, o1 := mem, owner;
        var i := PxOf(va, level);
        PxIsDigit(va, level);
        var q := Descend(p, i, alloc);
        GrownMore(old(mem), old(owner), m1, o1, mem, owner, root, 0, 0, 0, 0, 0);
        if q == 0 { return 0; }
        p := q;
        level := level - 1;
      }
      PxIsDigit(va, 0);
      ServesLookup(mem, owner, p, root, v);
    }

    /** vm_getpa: the physical address of the user page of va; 0 for none. */
    method GetPa(root: nat, va: nat) returns (pa: nat)
      requires Valid() && IsRoot(owner, root)
      modifies this
      ensures unchanged(this)
      ensures pa == UserPage(mem, root, va) * PGSIZE
    {
      hide Entry, EntryOk, Trees, Grown;
      if va >= MAXVA { return 0; }
      var p := GetPte(root, va, false);
      if p == 0 { return 0; }
      var e := Entry(mem[p], PxOf(va, 0));
      if !PageTables.Valid(e) || !User(e) { return 0; }
      return Target(e) * PGSIZE;
    }

    /** One round of vm_mappages. */
    method MapOne(root: nat, a: nat, page: nat, flags: nat) returns (ok: bool)
      requires Valid() && IsRoot(owner, root) && flags < 1024 && PageTables.Valid(flags) && page < 0x10_0000_0000_0000
      requires User(flags) ==> Available(owner, begin, page)
      modifies this
      ensures Valid()
      ensures ok ==> Grown(old(mem), old(owner), mem, owner, root, a / PGSIZE, page, 1, flags)
      ensures ok ==> old(Lookup(mem, root, Vpn(a))) == 0
      ensures !ok ==> allocable == 0 || PageTables.Valid(old(Lookup(mem, root, Vpn(a))))
    {
      hide Entry, SetEntry, EntryOk, NodeOk, Trees, Grown, Lookup, Pte;
      var p := GetPte(root, a, true);
      ghost var m1, o1 := mem, owner;
      SameEntry(old(mem), old(owner), mem, owner, root, Vpn(a));
      if p == 0 { return false; }
      var e := Entry(mem[p], PxOf(a, 0));
      if PageTables.Valid(e) { return false; }
      EmptyOrValid(mem, owner, p, PxOf(a, 0));
      StillTaken(old(mem), old(owner), mem, owner, root, page);
      FillGrown(mem, owner, p, root, a / PGSIZE, page, flags);
      mem := mem[p := SetEntry(mem[p], PxOf(a, 0), Pte(page, flags))];
      owner := PageTables.Adopted(owner, p, PxOf(a, 0), Pte(page, flags));
      FlagsOfPte(page, flags);
      ListKept(m1, o1, mem, owner, begin, head, allocable, free);
      GrownFirst(old(mem), old(owner), m1, o1, mem, owner, root, a / PGSIZE, page, flags);
      return true;
    }

    /** vm_mappages: maps exactly the pages of its range, which were all unmapped, and moves no
        other translation of any table; false stands for its panics. */
    method MapPages(root: nat, va: nat, pa: nat, len: nat, perm: nat) returns (ok: bool)
      requires Valid() && IsRoot(owner, root) && perm < 1024
      requires va + len <= 0x1_0000_0000_0000_0000 && pa / PGSIZE + Count(va, len) <= 0x10_0000_0000_0000
      requires User(WithV(perm)) ==>
        forall p :: pa / PGSIZE <= p < pa / PGSIZE + Count(va, len) ==> Available(owner, begin, p)
      modifies this
      ensures Valid()
      ensures ok ==> 0 < Count(va, len) <= VPNS
      ensures ok ==>
        Grown(old(mem), old(owner), mem, owner, root, va / PGSIZE, pa / PGSIZE, Count(va, len), WithV(perm))
      ensures ok ==> EmptyRange(old(mem), root, va / PGSIZE, Count(va, len))
      ensures !ok ==> len == 0 || allocable == 0 || !EmptyRange(old(mem), root, va / PGSIZE, Count(va, len))
    {
      hide Entry, EntryOk, NodeOk, Trees, Grown, Lookup, Pte, FreeList, User, Offset;
      if len == 0 { return false; }
      var a, last, at := RoundDown(va), RoundDown(va + len - 1), pa;
      ghost var k, first, page := 0, va / PGSIZE, pa / PGSIZE;
      GrownNone(mem, owner, root);
      GrownElsewhere(mem, owner, mem, owner, root, first, page, WithV(perm));
      while true
        invariant 0 <= k < Count(va, len) && a == PGSIZE * (first + k) && at == pa + PGSIZE * k
        invariant k <= VPNS && Valid() && IsRoot(owner, root)
        invariant Grown(old(mem), old(owner), mem, owner, root, first, page, k, WithV(perm))
        invariant EmptyRange(old(mem), root, first, k)
        decreases Count(va, len) - k
      {
        ghost var m1, o1 := mem, owner;
        RangeTaken(old(mem), old(owner), mem, owner, root, first, page, k, WithV(perm));
        assert at / PGSIZE == page + k;
        assert User(WithV(perm)) ==> Available(old(owner), begin, page + k);
        ok := MapOne(root, a, at / PGSIZE, WithV(perm));
        RangeSoFar(old(mem), old(owner), m1, o1, root, first, page, k, WithV(perm), Count(va, len));
        if !ok { return; }
        NotAround(old(mem), old(owner), m1, o1, root, first, page, k, WithV(perm));
        GrownMore(old(mem), old(owner), m1, o1, mem, owner, root, first, page, k, 1, WithV(perm));
        EmptyMore(old(mem), root, first, k);
        RootStays(m1, o1, mem, owner, root, first + k, page + k, 1, WithV(perm));
        k := k + 1;
        if a == last { return true; }
        a, at := a + PGSIZE, at + PGSIZE;
      }
    }

    /** One round of vm_unmappages. */
    method UnmapOne(root: nat, a: nat, freeit: bool) returns (ok: bool)
      requires Valid() && IsRoot(owner, root)
      requires freeit && PageTables.Valid(Lookup(mem, root, Vpn(a))) ==> User(Lookup(mem, root, Vpn(a)))
      modifies this
      ensures Valid()
      ensures ok <==> IsLeaf(old(Lookup(mem, root, Vpn(a))))
      ensures ok ==> Shrunk(old(mem), old(owner), mem, owner, root, a / PGSIZE, 1, freeit)
      ensures !freeit ==> free == old(free)
      ensures !ok ==> unchanged(this)
    {
      hide Entry, SetEntry, EntryOk, NodeOk, Trees, Shrunk, Lookup, User, Offset, Flags, Grown, FreeList;
      var p := GetPte(root, a, false);
      if p == 0 { return false; }
      var e := Entry(mem[p], PxOf(a, 0));
      if !PageTables.Valid(e) || Flags(e) == 1 { return false; }
      UserTarget(mem, owner, begin, head, allocable, free, p, PxOf(a, 0));
      ghost var o1 := owner;
      if freeit {
        FreeShrunk(mem, owner, p, root, a / PGSIZE, SetEntry(mem[Target(e)], 0, head), |free|);
        ok := PmemFree(Target(e) * PGSIZE);
      } else {
        ClearShrunk(mem, owner, p, root, a / PGSIZE);
        owner := Dropped(owner, e);
        ListKept(mem, o1, mem, owner, begin, head, allocable, free);
      }
      ghost var m1 := mem;
      mem := mem[p := SetEntry(mem[p], PxOf(a, 0), 0)];
      ListKept(m1, owner, mem, owner, begin, head, allocable, free);
      return true;
    }

    /** vm_unmappages: unmaps exactly the pages that its loop covers, if they are all leaves, and
        moves no other translation; false stands for its panics. What a freed entry leads to must
        be a user page, which this entry owns. */
    method UnmapPages(root: nat, va: Address, len: Address, freeit: bool) returns (ok: bool)
      requires Valid() && IsRoot(owner, root)
      requires freeit ==> UserRange(mem, root, va / PGSIZE, UnmapCount(va, len))
      modifies this
      ensures Valid()
      ensures ok <==> va % PGSIZE == 0 && LeafRange(old(mem), root, va / PGSIZE, UnmapCount(va, len))
      ensures ok ==> Shrunk(old(mem), old(owner), mem, owner, root, va / PGSIZE, UnmapCount(va, len), freeit)
      ensures !freeit ==> free == old(free)
    {
      hide Entry, EntryOk, NodeOk, Trees, Shrunk, Lookup, FreeList, User, IsLeaf, Offset, Int32, RoundUp, UnmapCount;
      hide LeafRange, UserRange;
      if va % PGSIZE != 0 { return false; }
      var rounded := Int32(RoundUp(len));
      var end := (va + rounded) % 0x1_0000_0000_0000_0000;
      ghost var k, first, n := 0, va / PGSIZE, UnmapCount(va, len);
      UnmapEnd(va, len, 0);
      NoLeaves(mem, root, first);
      ShrunkNone(mem, owner, root, first, freeit);
      var a: int := va;
      while a < end
        invariant a == PGSIZE * (first + k) && 0 <= k <= VPNS && k <= n && (a < end <==> k < n)
        invariant Valid() && IsRoot(owner, root) && (!freeit ==> free == old(free))
        invariant Shrunk(old(mem), old(owner), mem, owner, root, first, k, freeit)
        invariant LeafRange(old(mem), root, first, k)
        decreases n - k
      {
        ghost var m1, o1 := mem, owner;
        NextInRange(old(mem), old(owner), mem, owner, root, first, k, n, freeit);
        ok := UnmapOne(root, a, freeit);
        if !ok { return; }
        LeafMore(old(mem), root, first, k);
        ShrunkMore(old(mem), old(owner), m1, o1, mem, owner, root, first, k, freeit);
        RootKept(m1, o1, mem, owner, root, first + k, 1, freeit);
        k := k + 1;
        a := a + PGSIZE;
        UnmapEnd(va, len, k);
      }
      return true;
    }
  }

  /** The conversion to int. */
  function Int32(x: nat): (r: int)
    ensures -0x8000_0000 <= r < 0x8000_0000
  {
    var y := x % 0x1_0000_0000;
    if y < 0x8000_0000 then y else y - 0x1_0000_0000
  }

  /** How many pages the loop of vm_unmappages covers, with the length rounded into an int. */
  function UnmapCount(va: Address, len: Address): nat {
    var end := (va + Int32(RoundUp(len))) % 0x1_0000_0000_0000_0000;
    if end > va then (end - va) / PGSIZE else 0
  }

  lemma UnmapEnd(va: Address, len: Address, k: nat)
    requires va % PGSIZE == 0
    ensures var end := (va + Int32(RoundUp(len))) % 0x1_0000_0000_0000_0000;
            va + PGSIZE * k < end <==> k < UnmapCount(va, len)
  {
    var r := RoundUp(len) % 0x1_0000_0000;
    assert RoundUp(len) % PGSIZE == 0;
    assert r % PGSIZE == 0;
    assert (va + Int32(RoundUp(len))) % PGSIZE == 0;
  }

  lemma NoLeaves(m: Memory, root: nat, first: nat)
    requires root < PAGES
    ensures LeafRange(m, root, first, 0)
  {}

  /** They are the pages of the range exactly as long as the rounded length is below 2 GiB. */
  lemma UnmapCovers(va: Address, len: Address)
    requires va % PGSIZE == 0 && va + RoundUp(len) <= MAXVA
    ensures UnmapCount(va, len) == RoundUp(len) / PGSIZE <==> RoundUp(len) < 0x8000_0000
  {}

  /** From 2 GiB on the call can return without having unmapped anything. */
  lemma UnmapsNothing()
    ensures UnmapCount(0x8000_0000, 0x8000_0000) == 0
  {}

  ghost predicate LeafRange(m: Memory, root: nat, first: nat, n: nat)
    requires root < PAGES
  {
    n <= VPNS && forall v :: 0 <= v < VPNS && Offset(v, first) < n ==> IsLeaf(Lookup(m, root, v))
  }

  ghost predicate UserRange(m: Memory, root: nat, first: nat, n: nat)
    requires root < PAGES
  {
    forall v :: 0 <= v < VPNS && Offset(v, first) < n && PageTables.Valid(Lookup(m, root, v)) ==>
      User(Lookup(m, root, v))
  }

  lemma LeafMore(m: Memory, root: nat, first: nat, n: nat)
    requires root < PAGES && n < VPNS && LeafRange(m, root, first, n) && IsLeaf(Lookup(m, root, (first + n) % VPNS))
    ensures LeafRange(m, root, first, n + 1)
  {
    hide Lookup, Offset, IsLeaf;
    forall v | 0 <= v < VPNS && Offset(v, first) < n + 1 ensures IsLeaf(Lookup(m, root, v)) {
      OffsetIs(v, first, n);
    }
  }

  lemma RootKept(m: Memory, owner: Owners, m': Memory, owner': Owners, root: nat, first: nat, n: nat, freed: bool)
    requires Shrunk(m, owner, m', owner', root, first, n, freed) && IsRoot(owner, root)
    ensures IsRoot(owner', root)
  {
    assert OwnerShrinks(owner[root], owner'[root], root, first, n, freed);
  }

  /** What the next round finds is what was there, unless the range has come around and finds
      its own empty entry. */
  lemma NextInRange(m: Memory, owner: Owners, m': Memory, owner': Owners, root: nat, first: nat, k: nat, n: nat,
                    freed: bool)
    requires Shrunk(m, owner, m', owner', root, first, k, freed) && IsRoot(owner, root) && k < n && k <= VPNS
    ensures var v := (first + k) % VPNS;
            && (k < VPNS ==> Lookup(m', root, v) == Lookup(m, root, v))
            && (k == VPNS ==> !IsLeaf(Lookup(m', root, v)))
            && (LeafRange(m, root, first, n) ==> IsLeaf(Lookup(m', root, v)))
            && (UserRange(m, root, first, n) && PageTables.Valid(Lookup(m', root, v)) ==> User(Lookup(m', root, v)))
  {
    hide Lookup, Offset, User;
    var v := (first + k) % VPNS;
    if k < VPNS {
      OffsetIs(v, first, k);
    }
  }

  /** Mapping a range and unmapping it again leaves every translation as it was. */
  lemma MapUnmapRoundTrip(m0: Memory, o0: Owners, m1: Memory, o1: Owners, m2: Memory, o2: Owners,
                          root: nat, first: nat, page: nat, n: nat, flags: nat, freed: bool)
    requires flags < 1024 && IsRoot(o0, root) && EmptyRange(m0, root, first, n)
    requires Grown(m0, o0, m1, o1, root, first, page, n, flags)
    requires Shrunk(m1, o1, m2, o2, root, first, n, freed)
    ensures SameMaps(m0, o0, m2)
  {
    hide Lookup, Offset, User, Pte;
    forall r, v | IsRoot(o0, r) && 0 <= v < VPNS ensures Lookup(m2, r, v) == Lookup(m0, r, v) {
      RootsStay(o0, o1, root, first, page, n, User(flags), r);
    }
  }

  /** An entry that vm_unmappages accepts: valid, and not a pointer to a lower table. */
  predicate IsLeaf(e: nat) {
    PageTables.Valid(e) && Flags(e) != 1
  }

  /** perm | PTE_V: every permission given is there, no other is, and the entry is valid. */
  function WithV(perm: nat): (f: nat)
    ensures PageTables.Valid(f) && (perm < 1024 ==> f < 1024)
    ensures f / 2 == perm / 2 && f % 2 == 1
  {
    LowBit(perm);
    LowBit(perm + 1);
    if perm % 2 == 1 then perm else perm + 1
  }

  lemma LowBit(e: nat)
    ensures PageTables.Valid(e) <==> e % 2 == 1
  {
    assert e == 1024 * (e / 1024) + e % 1024;
  }

  /** The number of pages that bytes va to va + len - 1 touch. */
  function Count(va: nat, len: nat): nat {
    if len == 0 then 0 else (va + len - 1) / PGSIZE - va / PGSIZE + 1
  }

  /** None of the n page numbers from `first` on is mapped. */
  ghost predicate EmptyRange(m: Memory, root: nat, first: nat, n: nat)
    requires root < PAGES
  {
    n <= VPNS && forall v :: 0 <= v < VPNS && Offset(v, first) < n ==> Lookup(m, root, v) == 0
  }

  lemma EmptyMore(m: Memory, root: nat, first: nat, n: nat)
    requires root < PAGES && n < VPNS && EmptyRange(m, root, first, n) && Lookup(m, root, (first + n) % VPNS) == 0
    ensures EmptyRange(m, root, first, n + 1)
  {
    hide Lookup, Offset;
    forall v | 0 <= v < VPNS && Offset(v, first) < n + 1 ensures Lookup(m, root, v) == 0 {
      OffsetIs(v, first, n);
    }
  }

  lemma RootStays(m: Memory, owner: Owners, m': Memory, owner': Owners, root: nat, first: nat, page: nat, n: nat,
                  flags: nat)
    requires flags < 1024 && Grown(m, owner, m', owner', root, first, page, n, flags) && IsRoot(owner, root)
    ensures IsRoot(owner', root)
  {
    RootsStay(owner, owner', root, first, page, n, User(flags), root);
  }

  lemma RangeTaken(m: Memory, owner: Owners, m': Memory, owner': Owners, root: nat, first: nat, page: nat, n: nat,
                   flags: nat)
    requires flags < 1024 && Grown(m, owner, m', owner', root, first, page, n, flags)
    ensures page + n < PAGES && owner[page + n].Taken? ==> owner'[page + n].Taken?
  {
    if page + n < PAGES {
      assert OwnerGrows(owner[page + n], owner'[page + n], root, first, page, n, User(flags), page + n);
    }
  }

  /** A page found mapped after n rounds was mapped before. */
  lemma RangeSoFar(m: Memory, owner: Owners, m': Memory, owner': Owners, root: nat, first: nat, page: nat, n: nat,
                   flags: nat, count: nat)
    requires flags < 1024 && IsRoot(owner, root) && n < count
    requires Grown(m, owner, m', owner', root, first, page, n, flags)
    ensures PageTables.Valid(Lookup(m', root, (first + n) % VPNS)) ==> !EmptyRange(m, root, first, count)
  {
    hide Lookup, Offset;
    var v := (first + n) % VPNS;
    if n < VPNS {
      OffsetIs(v, first, n);
    }
  }

  /** The physical page behind user address va; 0 for none. */
  function UserPage(m: Memory, root: nat, va: nat): nat
    requires root < PAGES
  {
    if va < MAXVA && User(Lookup(m, root, Vpn(va))) then Target(Lookup(m, root, Vpn(va))) else 0
  }

  lemma SameEntry(m: Memory, owner: Owners, m': Memory, owner': Owners, root: nat, v: nat)
    requires Grown(m, owner, m', owner', root, 0, 0, 0, 0) && IsRoot(owner, root) && v < VPNS
    ensures Lookup(m', root, v) == Lookup(m, root, v)
  {}

  lemma EmptyOrValid(m: Memory, owner: Owners, p: nat, i: nat)
    requires Trees(m, owner) && IsTable(owner, p) && i < 512
    ensures Entry(m[p], i) == 0 || PageTables.Valid(Entry(m[p], i))
  {
    assert EntryOk(m, owner, p, i);
  }

  lemma UserTarget(m: Memory, owner: Owners, begin: nat, head: nat, allocable: nat, free: seq<nat>, p: nat, i: nat)
    requires Trees(m, owner) && FreeList(m, owner, begin, head, allocable, free) && IsTable(owner, p)
    requires owner[p].height == 1 && i < 512
    ensures var e := Entry(m[p], i);
            User(e) ==> 0 < begin <= Target(e) < PAGES && owner[Target(e)] == Node(0, owner[p].root, p,
              owner[p].base * 512 + i)
  {
    assert EntryOk(m, owner, p, i);
  }

  lemma StillTaken(m: Memory, owner: Owners, m': Memory, owner': Owners, root: nat, page: nat)
    requires Grown(m, owner, m', owner', root, 0, 0, 0, 0)
    ensures page < PAGES && owner[page].Taken? ==> owner'[page].Taken?
  {
    if page < PAGES {
      assert OwnerGrows(owner[page], owner'[page], root, 0, 0, 0, false, page);
    }
  }

  /** New lower tables, then one page mapped. */
  lemma GrownFirst(m0: Memory, o0: Owners, m1: Memory, o1: Owners, m2: Memory, o2: Owners,
                   root: nat, first: nat, page: nat, flags: nat)
    requires flags < 1024 && Grown(m0, o0, m1, o1, root, 0, 0, 0, 0)
    requires Grown(m1, o1, m2, o2, root, first, page, 1, flags)
    ensures Grown(m0, o0, m2, o2, root, first, page, 1, flags)
  {
    hide Lookup;
    GrownElsewhere(m0, o0, m1, o1, root, first, page, flags);
    GrownMore(m0, o0, m1, o1, m2, o2, root, first, page, 0, 1, flags);
  }

  /** Nothing mapped is nothing mapped anywhere. */
  lemma GrownElsewhere(m: Memory, owner: Owners, m': Memory, owner': Owners, root: nat, first: nat, page: nat,
                       flags: nat)
    requires flags < 1024 && Grown(m, owner, m', owner', root, 0, 0, 0, 0)
    ensures Grown(m, owner, m', owner', root, first, page, 0, flags)
  {
    hide Lookup, User;
    forall p | 0 <= p < PAGES ensures OwnerGrows(owner[p], owner'[p], root, first, page, 0, User(flags), p) {
      assert OwnerGrows(owner[p], owner'[p], root, 0, 0, 0, User(0), p);
    }
  }

  /** Page p is the table of height h that serves page number v under root. */
  predicate AtTable(owner: Owners, p: nat, root: nat, h: nat, v: nat) {
    0 < p < PAGES && IsTable(owner, p) && owner[p].height == h && owner[p].root == root && owner[p].base == Prefix(v, h)
  }

  lemma RootStart(m: Memory, owner: Owners, root: nat, v: nat)
    requires Trees(m, owner) && owner[0].Taken? && IsRoot(owner, root) && v < VPNS
    ensures AtTable(owner, root, root, 3, v)
  {
    assert NodeOk(m, owner, root);
    RootServesAll(v);
  }

  lemma GrownNone(m: Memory, owner: Owners, root: nat)
    ensures Grown(m, owner, m, owner, root, 0, 0, 0, 0)
  {}

  lemma ServesLookup(m: Memory, owner: Owners, p: nat, root: nat, v: nat)
    requires Trees(m, owner) && AtTable(owner, p, root, 1, v) && v < VPNS
    ensures owner[p].base == v / 512 && root < PAGES && Lookup(m, root, v) == Entry(m[p], v % 512)
  {
    assert Prefix(v, 1) == Prefix(v, 0) / 512;
    WalkPasses(m, owner, p, v);
  }

  // ---------- histories ----------

  /** A successful call on some table. */
  datatype Call = Map(root: nat, first: nat, page: nat, n: nat, flags: nat) | Unmap(root: nat, first: nat,
    n: nat, freed: bool)

  datatype Snapshot = Snapshot(m: Memory, owner: Owners)

  ghost predicate CallDone(s: Snapshot, c: Call, t: Snapshot) {
    match c
    case Map(root, first, page, n, flags) => flags < 1024 && Grown(s.m, s.owner, t.m, t.owner, root, first,
      page, n, flags)
    case Unmap(root, first, n, freed) => Shrunk(s.m, s.owner, t.m, t.owner, root, first, n, freed)
  }

  /** What the calls do to the entry of page number v in a plain map. */
  function FlatEntry(calls: seq<Call>, r: nat, v: nat, e: nat): nat {
    if |calls| == 0 then e
    else
      var before := FlatEntry(calls[..|calls| - 1], r, v, e);
      match calls[|calls| - 1]
      case Map(root, first, page, n, flags) =>
        if r == root && flags < 1024 && Offset(v, first) < n then Pte(page + Offset(v, first), flags) else before
      case Unmap(root, first, n, freed) =>
        if r == root && Offset(v, first) < n then 0 else before
  }

  /** Over any sequence of map and unmap calls on any tables, every table is the plain map. */
  lemma {:induction false} HistoryIsFlat(states: seq<Snapshot>, calls: seq<Call>, r: nat, v: nat)
    requires |states| == |calls| + 1 && IsRoot(states[0].owner, r) && v < VPNS
    requires forall i :: 0 <= i < |calls| ==> CallDone(states[i], calls[i], states[i + 1])
    ensures IsRoot(states[|calls|].owner, r)
    ensures Lookup(states[|calls|].m, r, v) == FlatEntry(calls, r, v, Lookup(states[0].m, r, v))
  {
    hide Lookup, Offset, Pte, User;
    var n := |calls|;
    if n > 0 {
      HistoryIsFlat(states[..n], calls[..n - 1], r, v);
      var s, t := states[n - 1], states[n];
      assert CallDone(s, calls[n - 1], t);
      match calls[n - 1]
      case Map(root, first, page, k, flags) => RootsStay(s.owner, t.owner, root, first, page, k, User(flags), r);
      case Unmap(root, first, k, freed) => assert OwnerShrinks(s.owner[r], t.owner[r], root, first, k, freed);
    }
  }
}
