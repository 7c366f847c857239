/** A user page table through its life: made, grown, copied by a fork, and torn down. What it took
    from the free list goes back to it. */
module ProcessLife {
  import opened LittleEndian
  import opened Lists
  import opened PageTables
  import opened PhysicalPages
  import opened PageTrees
  import opened VirtualMemory
  import opened UserMemory
  import opened ProcessMemory

  const PTE_U := 16

  /** The flags of heap pages. */
  const HEAP := PTE_W + PTE_R + PTE_U

  lemma HeapIsUser()
    ensures User(WithV(HEAP)) && WithV(HEAP) == HEAP + 1
  {}

  lemma HeapEntryIsUser(e: nat)
    requires Flags(e) == WithV(HEAP)
    ensures User(e)
  {
    HeapIsUser();
  }

  /** Page number v of root has a page of its own, blank when it was mapped. */
  ghost predicate Grew(m: Memory, owner: Owners, m': Memory, owner': Owners, root: nat, v: nat, q: nat) {
    && q < PAGES && owner[q].Free? && m'[q] == ZeroPage() && owner'[q].Node? && owner'[q].root == root
    && Kept(m, owner, m', owner', root) && Added(m, owner, m', root, v, Pte(q, WithV(HEAP)))
  }

  lemma GrownIsGrew(m: Memory, owner: Owners, m': Memory, owner': Owners, root: nat, v: nat, q: nat)
    requires Trees(m, owner) && q < PAGES && owner[q].Free? && v < VPNS
    requires Grown(m[q := ZeroPage()], owner[q := Taken], m', owner', root, v, q, 1, WithV(HEAP))
    ensures Grew(m, owner, m', owner', root, v, q)
  {
    HeapIsUser();
    hide Lookup, Trees, Pte, User, Offset, WithV;
    var m1, o1 := m[q := ZeroPage()], owner[q := Taken];
    OtherOwners(m, owner, q, Taken);
    OtherPages(m, m1, o1);
    OneMapped(m1, o1, m', owner', root, v, q, WithV(HEAP));
    forall p | 0 <= p < PAGES
      ensures if owner[p].Free? then FreeOrOf(owner'[p], root)
              else owner'[p] == owner[p] && (!IsTable(owner, p) ==> m'[p] == m[p])
      ensures p == q ==> owner'[p].Node? && owner'[p].root == root && m'[p] == ZeroPage()
    {
      assert OwnerGrows(o1[p], owner'[p], root, v, q, 1, User(WithV(HEAP)), p);
    }
    forall r, u | IsRoot(owner, r) && 0 <= u < VPNS
      ensures Lookup(m', r, u) == if r == root && u == v then Pte(q, WithV(HEAP)) else Lookup(m, r, u)
    {
      assert IsRoot(o1, r);
    }
  }

  /** A user page below the trapframe keeps the table a user table. */
  lemma GrewKeepsUserTable(m: Memory, owner: Owners, m': Memory, owner': Owners, root: nat, v: nat, q: nat)
    requires IsRoot(owner, root) && UserTable(m, root) && Grew(m, owner, m', owner', root, v, q) && v < TRAPFRAME_VPN
    ensures UserTable(m', root) && IsRoot(owner', root)
  {
    HeapIsUser();
    FlagsOfPte(q, WithV(HEAP));
    hide Lookup, User, IsLeaf, Pte, WithV;
    forall u | 0 <= u < VPNS ensures UserTableEntry(u, Lookup(m', root, u)) {
      assert UserTableEntry(u, Lookup(m, root, u));
    }
  }

  /** One round of uvm_heap_grow: a blank page for address va. */
  method GrowOne(s: Machine, root: nat, va: Address) returns (ok: bool, ghost q: nat)
    requires s.Valid() && IsRoot(s.owner, root) && va % PGSIZE == 0 && va < MAXVA
    modifies s
    ensures s.Valid() && (!ok ==> s.allocable == 0 || Lookup(old(s.mem), root, va / PGSIZE) != 0)
    ensures ok ==> Grew(old(s.mem), old(s.owner), s.mem, s.owner, root, va / PGSIZE, q)
    ensures ok ==> Lookup(old(s.mem), root, va / PGSIZE) == 0
  {
    hide Trees, FreeList, Lookup, User, Grown, EmptyRange, Grew, WithV;
    ghost var v := va / PGSIZE;
    q := 0;
    var page := s.PmemAlloc();
    if page == 0 { return false, 0; }
    q := page;
    ghost var taken := s.owner;
    OtherOwners(s.mem, old(s.owner), page, Taken);
    s.mem := s.mem[page := ZeroPage()];
    OtherPages(old(s.mem), s.mem, s.owner);
    SameChild(old(s.mem), s.owner, s.mem, root, v);
    ListKept(old(s.mem), taken, s.mem, s.owner, s.begin, s.head, s.allocable, s.free);
    assert Count(va, PGSIZE) == 1;
    ok := s.MapPages(root, va, page * PGSIZE, PGSIZE, HEAP);
    NotEmpty(old(s.mem), root, v);
    if ok {
      GrownIsGrew(old(s.mem), old(s.owner), s.mem, s.owner, root, v, page);
    }
  }

  /** The n pages from page number `first` on are user pages now; nothing else has moved. */
  ghost predicate Heap(m: Memory, owner: Owners, m': Memory, owner': Owners, root: nat, first: nat, n: nat) {
    && Kept(m, owner, m', owner', root)
    && (forall r, u :: IsRoot(owner, r) && 0 <= u < VPNS && !(r == root && first <= u < first + n) ==>
          Lookup(m', r, u) == Lookup(m, r, u))
    && (root < PAGES ==> forall u :: first <= u < first + n ==> HeapPage(owner, m', root, u))
  }

  predicate HeapPage(owner: Owners, m': Memory, root: nat, u: nat)
    requires root < PAGES
  {
    var e := Lookup(m', root, u);
    Flags(e) == WithV(HEAP) && Target(e) < PAGES && owner[Target(e)].Free? && m'[Target(e)] == ZeroPage()
  }

  lemma HeapMore(m0: Memory, o0: Owners, m1: Memory, o1: Owners, m2: Memory, o2: Owners, root: nat, first: nat,
                 n: nat, q: nat)
    requires IsRoot(o0, root) && IsRoot(o1, root) && first + n < VPNS && Trees(m1, o1)
    requires Heap(m0, o0, m1, o1, root, first, n) && Grew(m1, o1, m2, o2, root, first + n, q)
    ensures Heap(m0, o0, m2, o2, root, first, n + 1)
  {
    HeapIsUser();
    hide Lookup, Pte, User, WithV, Flags, Target, Trees;
    KeptMore(m0, o0, m1, o1, m2, o2, root);
    forall u | first <= u < first + n + 1 ensures HeapPage(o0, m2, root, u) {
      if u < first + n {
        assert HeapPage(o0, m1, root, u);
        HeapPageStays(m1, o1, m2, o2, root, u, o0);
      }
    }
    forall r, u | IsRoot(o0, r) && 0 <= u < VPNS && !(r == root && first <= u < first + n + 1)
      ensures Lookup(m2, r, u) == Lookup(m0, r, u)
    {
      assert IsRoot(o1, r);
    }
  }

  lemma HeapPageStays(m1: Memory, o1: Owners, m2: Memory, o2: Owners, root: nat, u: nat, o0: Owners)
    requires Trees(m1, o1) && IsRoot(o1, root) && u < VPNS && HeapPage(o0, m1, root, u)
    requires Kept(m1, o1, m2, o2, root) && Lookup(m2, root, u) == Lookup(m1, root, u)
    ensures HeapPage(o0, m2, root, u)
  {
    hide Lookup, WithV, User, Trees, Flags;
    HeapEntryIsUser(Lookup(m1, root, u));
    UserEntryHangs(m1, o1, root, u);
  }

  /** uvm_heap_grow: every page from the old top, rounded up, to the new one is a blank user page of its
      own; the new top is the rounded one and the length. False stands for its panics, the one at the
      trapframe, which is mapped, among them. */
  method HeapGrow(s: Machine, root: nat, top: nat, len: nat) returns (ok: bool, newTop: nat)
    requires s.Valid() && IsRoot(s.owner, root) && UserTable(s.mem, root) && RoundUp(top) <= TRAPFRAME
    modifies s
    ensures s.Valid() && newTop == RoundUp(top) + len
    ensures ok ==> IsRoot(s.owner, root) && UserTable(s.mem, root) && newTop <= TRAPFRAME
    ensures ok ==> Heap(old(s.mem), old(s.owner), s.mem, s.owner, root, RoundUp(top) / PGSIZE, RoundUp(len) / PGSIZE)
    ensures !ok ==>
      s.allocable == 0 || exists v: nat :: TopPage(v, top, len) && v < VPNS && Lookup(old(s.mem), root, v) != 0
  {
    hide Trees, FreeList, Lookup, User, Heap, UserTable, Grew, RoundUp;
    FrameRange();
    var start := RoundUp(top);
    newTop := start + len;
    Rounded(top, len);
    ghost var m, owner := s.mem, s.owner;
    ghost var first, n, k := start / PGSIZE, RoundUp(len) / PGSIZE, 0;
    HeapNone(m, owner, root, first);
    var a := start;
    while a < newTop
      invariant a == (first + k) * PGSIZE && 0 <= k <= n && (a < newTop <==> k < n) && first + k <= TRAPFRAME_VPN
      invariant s.Valid() && IsRoot(s.owner, root) && UserTable(s.mem, root)
      invariant Heap(m, owner, s.mem, s.owner, root, first, k)
      decreases n - k
    {
      ghost var m1, o1 := s.mem, s.owner;
      ghost var q;
      HeapBeyond(m, owner, m1, o1, root, first, k);
      FrameIsMapped(m1, root);
      ok, q := GrowOne(s, root, a);
      if !ok {
        assert TopPage(first + k, top, len);
        return false, newTop;
      }
      GrewKeepsUserTable(m1, o1, s.mem, s.owner, root, first + k, q);
      HeapMore(m, owner, m1, o1, s.mem, s.owner, root, first, k, q);
      a, k := a + PGSIZE, k + 1;
    }
    return true, newTop;
  }

  lemma FrameRange()
    ensures TRAPFRAME == TRAPFRAME_VPN * PGSIZE && TRAPFRAME < MAXVA && TRAPFRAME_VPN < VPNS
  {}

  lemma FrameIsMapped(m: Memory, root: nat)
    requires root < PAGES && UserTable(m, root)
    ensures TRAPFRAME_VPN < VPNS && Lookup(m, root, TRAPFRAME_VPN) != 0
  {
    hide Lookup;
    assert UserTableEntry(TRAPFRAME_VPN, Lookup(m, root, TRAPFRAME_VPN));
  }

  predicate TopPage(v: nat, top: nat, len: nat) {
    RoundUp(top) / PGSIZE <= v < RoundUp(top) / PGSIZE + RoundUp(len) / PGSIZE
  }

  lemma Rounded(top: nat, len: nat)
    ensures RoundUp(top) % PGSIZE == 0 && RoundUp(len) % PGSIZE == 0 && len <= RoundUp(len) < len + PGSIZE
  {}

  lemma HeapNone(m: Memory, owner: Owners, root: nat, first: nat)
    ensures Heap(m, owner, m, owner, root, first, 0)
  {
    hide Lookup;
  }

  lemma HeapBeyond(m: Memory, owner: Owners, m': Memory, owner': Owners, root: nat, first: nat, n: nat)
    requires Heap(m, owner, m', owner', root, first, n) && IsRoot(owner, root) && first + n < VPNS
    ensures Lookup(m', root, first + n) == Lookup(m, root, first + n)
  {}

  // ---------- conservation ----------

  ghost function FreePages(owner: Owners): set<int> { set p | 0 <= p < PAGES && owner[p].Free? }

  /** A table whose pages all came from the list since `before`, and nobody else's did. */
  ghost predicate TookOnly(before: Owners, now: Owners, roots: set<nat>) {
    forall p :: 0 <= p < PAGES ==>
      if before[p].Free? then now[p].Free? || (now[p].Node? && now[p].root in roots)
      else now[p] == before[p] && !(now[p].Node? && now[p].root in roots)
  }

  lemma TookNothing(owner: Owners)
    ensures TookOnly(owner, owner, {})
  {}

  /** A new table takes its pages from the list. */
  lemma TookMore(m: Memory, before: Owners, m1: Memory, o1: Owners, m2: Memory, o2: Owners, roots: set<nat>, root: nat)
    requires Trees(m, before) && TookOnly(before, o1, roots) && Kept(m1, o1, m2, o2, root)
    requires root in roots || (root < PAGES && o1[root].Free?)
    ensures TookOnly(before, o2, roots + {root})
  {
    hide Trees;
    forall p | 0 <= p < PAGES
      ensures if before[p].Free? then o2[p].Free? || (o2[p].Node? && o2[p].root in roots + {root})
              else o2[p] == before[p] && !(o2[p].Node? && o2[p].root in roots + {root})
    {
      if !before[p].Free? && before[p].Node? && before[p].root == root {
        RootInRange(m, before, p);
      }
    }
  }

  /** Destroying a table gives back what it took. */
  lemma GaveAll(before: Owners, o1: Owners, o2: Owners, pages: seq<nat>, roots: set<nat>, root: nat)
    requires TookOnly(before, o1, roots) && root in roots && IsTreeList(pages, o1, root)
    requires forall q :: 0 <= q < PAGES ==> if q in pages then o2[q].Free? else o2[q] == o1[q]
    ensures TookOnly(before, o2, roots - {root})
  {
    hide Distinct;
    forall p: nat | p < PAGES
      ensures if before[p].Free? then o2[p].Free? || (o2[p].Node? && o2[p].root in roots - {root})
              else o2[p] == before[p] && !(o2[p].Node? && o2[p].root in roots - {root})
    {
      assert p in pages <==> o1[p].Node? && o1[p].root == root;
    }
  }

  lemma AllBack(before: Owners, now: Owners)
    requires TookOnly(before, now, {})
    ensures FreePages(now) == FreePages(before)
  {}

  /** Two processes through their lives: a table is made and grown, a second one is made and gets a copy
      of its memory, and both are torn down. Whatever the sizes, exactly the pages that were free are
      free again, and no page in use has changed hands. */
  method TwoLives(s: Machine, trampoline: nat, frame1: nat, frame2: nat, len: nat) returns (ok: bool)
    requires s.Valid() && len <= TRAPFRAME
    requires trampoline < 0xf_ffff_ffff_ffff && frame1 < 0xf_ffff_ffff_ffff && frame2 < 0xf_ffff_ffff_ffff
    modifies s
    ensures ok ==> s.Valid() && FreePages(s.owner) == FreePages(old(s.owner)) && TookOnly(old(s.owner), s.owner, {})
    ensures !ok ==> s.allocable == 0
  {
    hide Trees, FreeList, Lookup, User, Kept, UserTable, TookOnly, Heap, Copied, IsTreeList, RoundUp, SameMaps;
    ghost var m0, o0 := s.mem, s.owner;
    TookNothing(o0);
    var parent := PgtblInit(s, trampoline, frame1);
    if parent == 0 { return false; }
    TookMore(m0, o0, m0, o0, s.mem, s.owner, {}, parent);
    assert {} + {parent} == {parent};
    ghost var m1, o1 := s.mem, s.owner;
    var top;
    BelowFrame(len);
    ok, top := HeapGrow(s, parent, 0, len);
    if !ok { return; }
    HeapKept(m1, o1, s.mem, s.owner, parent, len);
    TookMore(m0, o0, m1, o1, s.mem, s.owner, {parent}, parent);
    assert {parent} + {parent} == {parent};
    ok := Second(s, m0, o0, parent, trampoline, frame2, len);
  }

  /** The second life, inside the first, and the end of the first. */
  method Second(s: Machine, ghost m0: Memory, ghost o0: Owners, parent: nat, trampoline: nat, frame: nat, len: nat)
    returns (ok: bool)
    requires s.Valid() && Trees(m0, o0) && TookOnly(o0, s.owner, {parent}) && len <= TRAPFRAME
    requires IsRoot(s.owner, parent) && UserTable(s.mem, parent)
    requires trampoline < 0xf_ffff_ffff_ffff && frame < 0xf_ffff_ffff_ffff
    modifies s
    ensures ok ==> s.Valid() && FreePages(s.owner) == FreePages(o0) && TookOnly(o0, s.owner, {})
    ensures !ok ==> s.allocable == 0 || !Whole(old(s.mem), parent, len)
  {
    hide Trees, FreeList, Lookup, User, Kept, UserTable, TookOnly, Copied, IsTreeList, RoundUp, SameMaps;
    ghost var m1, o1 := s.mem, s.owner;
    BelowFrame(len);
    var child := PgtblInit(s, trampoline, frame);
    if child == 0 { return false; }
    ghost var m2, o2 := s.mem, s.owner;
    TookMore(m0, o0, m1, o1, m2, o2, {parent}, child);
    assert {parent} + {child} == {parent, child};
    KeptRoot(m1, o1, m2, o2, child, parent);
    SameUserTable(m1, o1, m2, parent);
    ok := CopyPgtbl(s, parent, child, len);
    if !ok {
      CopyFails(m1, o1, m2, parent, child, len);
      return;
    }
    CopyKept(m2, o2, s.mem, s.owner, parent, child, RoundUp(len) / PGSIZE);
    TookMore(m0, o0, m2, o2, s.mem, s.owner, {parent, child}, child);
    assert {parent, child} + {child} == {parent, child};
    CopyIsUserTable(m2, o2, s.mem, s.owner, parent, child, RoundUp(len) / PGSIZE);
    ghost var m3, o3, pages := s.mem, s.owner, [];
    ok, pages := DestroyPgtbl(s, child);
    GaveAll(o0, o3, s.owner, pages, {parent, child}, child);
    assert {parent, child} - {child} == {parent};
    OtherTable(m3, o3, s.mem, s.owner, pages, parent, child);
    ghost var o4 := s.owner;
    ok, pages := DestroyPgtbl(s, parent);
    GaveAll(o0, o4, s.owner, pages, {parent}, parent);
    assert {parent} - {parent} == {};
    AllBack(o0, s.owner);
  }

  lemma BelowFrame(len: nat)
    requires len <= TRAPFRAME
    ensures RoundUp(0) == 0 && RoundUp(len) / PGSIZE <= TRAPFRAME_VPN < TRAMPOLINE_VPN < VPNS
  {}

  lemma HeapKept(m: Memory, owner: Owners, m': Memory, owner': Owners, root: nat, len: nat)
    requires root < PAGES && Heap(m, owner, m', owner', root, 0, RoundUp(len) / PGSIZE)
    ensures Kept(m, owner, m', owner', root) && Whole(m', root, len)
  {
    hide Lookup, RoundUp;
    forall v | 0 <= v < RoundUp(len) / PGSIZE ensures Lookup(m', root, v) != 0 {
      assert HeapPage(owner, m', root, v);
      HeapIsUser();
    }
  }

  lemma SameUserTable(m: Memory, owner: Owners, m': Memory, root: nat)
    requires SameMaps(m, owner, m') && IsRoot(owner, root) && UserTable(m, root)
    ensures UserTable(m', root)
  {
    hide Lookup, UserTableEntry;
    forall v | 0 <= v < VPNS ensures UserTableEntry(v, Lookup(m', root, v)) {
      assert UserTableEntry(v, Lookup(m, root, v));
    }
  }

  lemma CopyFails(m1: Memory, o1: Owners, m2: Memory, parent: nat, child: nat, len: nat)
    requires SameMaps(m1, o1, m2) && IsRoot(o1, parent) && child < PAGES && len <= TRAPFRAME
    requires forall v :: 0 <= v < VPNS && v != TRAMPOLINE_VPN && v != TRAPFRAME_VPN ==> Lookup(m2, child, v) == 0
    ensures Whole(m1, parent, len) ==> Copyable(m2, parent, child, RoundUp(len) / PGSIZE)
  {
    BelowFrame(len);
    hide Lookup, RoundUp;
  }

  lemma CopyKept(m: Memory, owner: Owners, m': Memory, owner': Owners, parent: nat, child: nat, n: nat)
    requires parent < PAGES && child < PAGES && Copied(m, owner, m', owner', parent, child, n)
    requires IsRoot(owner, parent) && IsRoot(owner, child)
    ensures Kept(m, owner, m', owner', child) && IsRoot(owner', parent) && IsRoot(owner', child)
  {}

  lemma OtherTable(m: Memory, owner: Owners, m': Memory, owner': Owners, pages: seq<nat>, parent: nat, child: nat)
    requires IsRoot(owner, parent) && parent != child && UserTable(m, parent) && Trees(m, owner)
    requires IsTreeList(pages, owner, child)
    requires forall q :: 0 <= q < PAGES ==> if q in pages then owner'[q].Free? else owner'[q] == owner[q]
    requires forall r, v :: IsRoot(owner, r) && r != child && 0 <= v < VPNS ==> Lookup(m', r, v) == Lookup(m, r, v)
    ensures IsRoot(owner', parent) && UserTable(m', parent)
  {
    hide Lookup, UserTableEntry, Distinct, EntryOk;
    assert NodeOk(m, owner, parent);
    assert parent !in pages;
    forall v | 0 <= v < VPNS ensures UserTableEntry(v, Lookup(m', parent, v)) {
      assert UserTableEntry(v, Lookup(m, parent, v));
    }
  }

  /** Every page below len is mapped. */
  ghost predicate Whole(m: Memory, root: nat, len: nat)
    requires root < PAGES
  {
    forall v :: 0 <= v < RoundUp(len) / PGSIZE ==> Lookup(m, root, v) != 0
  }
}
