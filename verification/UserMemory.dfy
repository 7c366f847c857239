/** uvm.c: tearing user page tables down, copying them, and copying between user and kernel
    memory. */
module UserMemory {
  import opened LittleEndian
  import opened Lists
  import opened PageTables
  import opened PhysicalPages
  import opened PageTrees
  import opened VirtualMemory

  // ---------- destroying ----------

  /** destroy_pgtbl on pages that nobody else holds: gives back the pages of the subtree, each
      once, children first, and nothing else. */
  method DestroySubtree(s: Machine, p: nat, h: nat)
    requires s.Valid() && p < PAGES && h <= 3
    requires Distinct(Subtree(s.mem, p, h)) && AllAvailable(s.owner, s.begin, Subtree(s.mem, p, h))
    modifies s
    ensures s.Valid() && s.free == old(s.free) + old(Subtree(s.mem, p, h))
    ensures GaveBack(old(s.mem), old(s.owner), s.mem, s.owner, old(Subtree(s.mem, p, h)))
    ensures SameMaps(old(s.mem), old(s.owner), s.mem)
    decreases h
  {
    hide Entry, SetEntry, Subtree, Kids, Child, Trees, FreeList, Distinct, GaveBack, SameMaps, AllAvailable, Target;
    ghost var m, owner, all := s.mem, s.owner, Subtree(s.mem, p, h);
    ghost var done := [];
    GaveBackNone(m, owner);
    if h > 0 {
      NoKids(m, p, h);
      var i := 0;
      while i < 512
        invariant 0 <= i <= 512 && s.Valid() && done == Kids(m, p, h, i) && s.free == old(s.free) + done
        invariant GaveBack(m, owner, s.mem, s.owner, done) && SameMaps(m, owner, s.mem)
      {
        NextChild(m, owner, s.mem, s.owner, s.begin, p, h, i);
        ghost var m1, o1 := s.mem, s.owner;
        var q := Target(Entry(s.mem[p], i));
        if q != 0 {
          DestroySubtree(s, q, h - 1);
          GaveBackMore(m, owner, m1, o1, s.mem, s.owner, s.begin, done, Subtree(m1, q, h - 1));
        } else {
          ChildIs(m, q, h);
          assert done + [] == done;
        }
        done := done + Child(m, q, h);
        i := i + 1;
      }
    }
    SubtreeTop(m, owner, s.mem, s.owner, s.begin, p, h, done);
    ghost var m1, o1 := s.mem, s.owner;
    GivenBack(s.mem, s.owner, p, SetEntry(s.mem[p], 0, s.head), |s.free|);
    var ok := s.PmemFree(p * PGSIZE);
    GaveBackOne(m1, o1, s.mem, s.owner, p);
    GaveBackMore(m, owner, m1, o1, s.mem, s.owner, s.begin, done, [p]);
  }

  lemma GaveBackNone(m: Memory, owner: Owners)
    ensures GaveBack(m, owner, m, owner, []) && SameMaps(m, owner, m)
  {}

  lemma GaveBackOne(m: Memory, owner: Owners, m': Memory, owner': Owners, p: nat)
    requires p < PAGES && owner'[p].Free? && owner' == owner[p := owner'[p]] && m' == m[p := m'[p]]
    ensures GaveBack(m, owner, m', owner', [p])
  {}

  /** With everything below given back, the top is all that is left. */
  lemma SubtreeTop(m: Memory, owner: Owners, m': Memory, owner': Owners, begin: nat, p: nat, h: nat, done: seq<nat>)
    requires p < PAGES && Distinct(Subtree(m, p, h)) && AllAvailable(owner, begin, Subtree(m, p, h))
    requires done == (if h == 0 then [] else Kids(m, p, h, ENTRIES)) && GaveBack(m, owner, m', owner', done)
    ensures Subtree(m, p, h) == done + [p] && Available(owner', begin, p) && AllAvailable(owner, begin, done)
  {
    hide Kids, Distinct, Entry;
    assert Subtree(m, p, h) == done + [p];
    DistinctConcat(done, [p]);
    assert Available(owner, begin, p);
  }

  /** The tree of root given up: its pages belong to nobody any more. */
  function Orphaned(owner: Owners, root: nat): Owners {
    seq(PAGES, p requires 0 <= p < PAGES => if owner[p].Node? && owner[p].root == root then Taken else owner[p])
  }

  lemma OrphansKeep(m: Memory, owner: Owners, root: nat)
    requires Trees(m, owner)
    ensures Trees(m, Orphaned(owner, root))
  {
    hide Entry, Target, User, Valid;
    var owner' := Orphaned(owner, root);
    forall p, i | IsTable(owner', p) && 0 <= i < 512 ensures EntryOk(m, owner', p, i) {
      assert EntryOk(m, owner, p, i);
    }
    forall p | 0 <= p < PAGES && owner'[p].Node? ensures NodeOk(m, owner', p) {
      assert NodeOk(m, owner, p);
    }
  }

  const TRAMPOLINE_VPN := TRAMPOLINE / PGSIZE
  const TRAPFRAME_VPN := TRAPFRAME / PGSIZE

  /** A user page table as proc_pgtbl_init makes it and everybody keeps it: trampoline and
      trapframe are mapped for the kernel only, everything else is user pages. */
  ghost predicate UserTable(m: Memory, root: nat)
    requires root < PAGES
  {
    forall v :: 0 <= v < VPNS ==> UserTableEntry(v, Lookup(m, root, v))
  }

  predicate UserTableEntry(v: nat, e: nat) {
    if v == TRAMPOLINE_VPN || v == TRAPFRAME_VPN then IsLeaf(e) && !User(e) else e == 0 || User(e)
  }

  /** Nobody hangs where no user page is mapped. */
  lemma NobodyThere(m: Memory, owner: Owners, q: nat)
    requires Trees(m, owner) && q < PAGES && owner[q].Node? && owner[q].height == 0
    ensures owner[q].base < VPNS && IsRoot(owner, owner[q].root) && User(Lookup(m, owner[q].root, owner[q].base))
    ensures Target(Lookup(m, owner[q].root, owner[q].base)) == q
  {
    hide Entry, User, Target, Valid;
    assert NodeOk(m, owner, q);
    PlaceInRange(m, owner, q);
    RootInRange(m, owner, q);
    var t, v := owner[q].up, owner[q].base;
    assert Prefix(v, 1) == Prefix(v, 0) / 512;
    WalkPasses(m, owner, t, v);
  }

  /** Entry v of root is cleared; nothing else moves. */
  ghost predicate Cleared(m: Memory, owner: Owners, m': Memory, root: nat, v: nat) {
    && (forall r, u :: IsRoot(owner, r) && 0 <= u < VPNS ==>
          Lookup(m', r, u) == if r == root && u == v then 0 else Lookup(m, r, u))
    && (forall q :: 0 <= q < PAGES && !IsTable(owner, q) ==> m'[q] == m[q])
  }

  /** Unmapping a kernel page changes no owner. */
  lemma KernelUnmap(m: Memory, owner: Owners, m': Memory, owner': Owners, root: nat, v: nat)
    requires Trees(m, owner) && IsRoot(owner, root) && v < VPNS && !User(Lookup(m, root, v))
    requires Shrunk(m, owner, m', owner', root, v, 1, false)
    ensures owner' == owner && Cleared(m, owner, m', root, v)
  {
    hide Lookup, User, Offset, Entry, EntryOk, NodeOk;
    forall p | 0 <= p < PAGES ensures owner'[p] == owner[p] {
      assert OwnerShrinks(owner[p], owner'[p], root, v, 1, false);
      if owner[p].Node? && owner[p].height == 0 && owner[p].root == root {
        NobodyThere(m, owner, p);
        OffsetIs(owner[p].base, v, 0);
      }
    }
    forall r, u | IsRoot(owner, r) && 0 <= u < VPNS
      ensures Lookup(m', r, u) == if r == root && u == v then 0 else Lookup(m, r, u)
    {
      OffsetIs(u, v, 0);
    }
  }

  method UnmapKernelPage(s: Machine, root: nat, va: Address) returns (ok: bool)
    requires s.Valid() && IsRoot(s.owner, root) && va % PGSIZE == 0 && va < MAXVA
    requires IsLeaf(Lookup(s.mem, root, va / PGSIZE)) && !User(Lookup(s.mem, root, va / PGSIZE))
    modifies s
    ensures ok && s.Valid() && s.owner == old(s.owner) && s.free == old(s.free)
    ensures Cleared(old(s.mem), s.owner, s.mem, root, va / PGSIZE)
  {
    hide Trees, Lookup, FreeList, User, IsLeaf, Offset, Shrunk, Cleared;
    assert RoundUp(PGSIZE) == PGSIZE && UnmapCount(va, PGSIZE) == 1;
    OnePage(s.mem, root, va / PGSIZE);
    ok := s.UnmapPages(root, va, PGSIZE, false);
    KernelUnmap(old(s.mem), old(s.owner), s.mem, s.owner, root, va / PGSIZE);
  }

  lemma OnePage(m: Memory, root: nat, v: nat)
    requires root < PAGES && v < VPNS && IsLeaf(Lookup(m, root, v))
    ensures LeafRange(m, root, v, 1)
  {
    hide Lookup, Offset, IsLeaf;
    forall u | 0 <= u < VPNS && Offset(u, v) < 1 ensures IsLeaf(Lookup(m, root, u)) {
      OffsetIs(u, v, 0);
    }
  }

  /** With trampoline and trapframe gone, only user pages are left. */
  lemma OnlyUserLeft(m: Memory, owner: Owners, root: nat)
    requires Trees(m, owner) && IsRoot(owner, root)
    requires forall v :: 0 <= v < VPNS ==> Lookup(m, root, v) == 0 || User(Lookup(m, root, v))
    ensures OnlyUser(m, owner, root)
  {
    hide Entry, User, Lookup, EntryOk, NodeOk;
    forall p, i | IsTable(owner, p) && owner[p].height == 1 && owner[p].root == root && 0 <= i < 512
      ensures LeavesUser(m, p, i)
    {
      PlaceInRange(m, owner, p);
      var v := owner[p].base * 512 + i;
      EntryIsLookup(m, owner, p, i);
    }
  }

  lemma EntryIsLookup(m: Memory, owner: Owners, p: nat, i: nat)
    requires Trees(m, owner) && IsTable(owner, p) && owner[p].height == 1 && i < 512
    ensures var v := owner[p].base * 512 + i;
            v < VPNS && IsRoot(owner, owner[p].root) && Lookup(m, owner[p].root, v) == Entry(m[p], i)
  {
    hide Entry, EntryOk;
    var v := owner[p].base * 512 + i;
    PlaceInRange(m, owner, p);
    assert Prefix(v, 1) == Prefix(v, 0) / 512;
    WalkPasses(m, owner, p, v);
  }

  /** uvm_destroy_pgtbl: every table page and every user page of the tree goes back onto the list,
      exactly once; the pages behind trampoline and trapframe, and everything else, stay. */
  method DestroyPgtbl(s: Machine, root: nat) returns (ok: bool, ghost pages: seq<nat>)
    requires s.Valid() && IsRoot(s.owner, root) && UserTable(s.mem, root)
    modifies s
    ensures ok && s.Valid()
    ensures IsTreeList(pages, old(s.owner), root) && s.free == old(s.free) + pages
    ensures forall q :: 0 <= q < PAGES ==>
      if q in pages then s.owner[q].Free? else s.owner[q] == old(s.owner)[q] && (!IsTable(s.owner, q) ==>
        s.mem[q] == old(s.mem)[q])
    ensures forall r, v :: IsRoot(old(s.owner), r) && r != root && 0 <= v < VPNS ==>
      Lookup(s.mem, r, v) == Lookup(old(s.mem), r, v)
  {
    hide Trees, Lookup, FreeList, User, IsLeaf, Offset, Cleared, OnlyUser, GaveBack, SameMaps, IsTreeList, Subtree;
    hide UserTable, AllAvailable;
    ghost var m, owner := s.mem, s.owner;
    KernelEntries(m, root);
    ok := UnmapKernelPage(s, root, TRAMPOLINE);
    ghost var m1 := s.mem;
    FirstGone(m, owner, m1, root);
    ok := UnmapKernelPage(s, root, TRAPFRAME);
    ghost var m2 := s.mem;
    BothGone(m, owner, m1, m2, root);
    OnlyUserLeft(m2, owner, root);
    pages := Subtree(m2, root, 3);
    OrphansReady(m2, owner, s.begin, s.head, s.allocable, s.free, root);
    s.owner := Orphaned(owner, root);
    DestroySubtree(s, root, 3);
    Destroyed(m, owner, m1, m2, s.mem, s.owner, root, pages);
  }

  lemma KernelEntries(m: Memory, root: nat)
    requires root < PAGES && UserTable(m, root)
    ensures IsLeaf(Lookup(m, root, TRAMPOLINE_VPN)) && !User(Lookup(m, root, TRAMPOLINE_VPN))
    ensures IsLeaf(Lookup(m, root, TRAPFRAME_VPN)) && !User(Lookup(m, root, TRAPFRAME_VPN))
  {
    hide Lookup, User, IsLeaf;
    assert UserTableEntry(TRAMPOLINE_VPN, Lookup(m, root, TRAMPOLINE_VPN));
    assert UserTableEntry(TRAPFRAME_VPN, Lookup(m, root, TRAPFRAME_VPN));
  }

  lemma FirstGone(m: Memory, owner: Owners, m1: Memory, root: nat)
    requires IsRoot(owner, root) && Cleared(m, owner, m1, root, TRAMPOLINE_VPN)
    ensures Lookup(m1, root, TRAPFRAME_VPN) == Lookup(m, root, TRAPFRAME_VPN)
  {}

  lemma BothGone(m: Memory, owner: Owners, m1: Memory, m2: Memory, root: nat)
    requires IsRoot(owner, root) && UserTable(m, root)
    requires Cleared(m, owner, m1, root, TRAMPOLINE_VPN) && Cleared(m1, owner, m2, root, TRAPFRAME_VPN)
    ensures forall v :: 0 <= v < VPNS ==> Lookup(m2, root, v) == 0 || User(Lookup(m2, root, v))
  {
    hide Lookup, User, IsLeaf;
    forall v | 0 <= v < VPNS ensures Lookup(m2, root, v) == 0 || User(Lookup(m2, root, v)) {
      assert UserTableEntry(v, Lookup(m, root, v));
    }
  }

  /** The given-up tree is ready for destroy_pgtbl. */
  lemma OrphansReady(m: Memory, owner: Owners, begin: nat, head: nat, allocable: nat, free: seq<nat>, root: nat)
    requires Trees(m, owner) && FreeList(m, owner, begin, head, allocable, free)
    requires IsRoot(owner, root) && OnlyUser(m, owner, root)
    ensures var owner', pages := Orphaned(owner, root), Subtree(m, root, 3);
            && Trees(m, owner') && FreeList(m, owner', begin, head, allocable, free)
            && IsTreeList(pages, owner, root) && Distinct(pages) && AllAvailable(owner', begin, pages)
  {
    hide Trees, OnlyUser, Subtree, Entry, OnList;
    OrphansKeep(m, owner, root);
    TreeListed(m, owner, root);
    ListKept(m, owner, m, Orphaned(owner, root), begin, head, allocable, free);
  }

  lemma Destroyed(m: Memory, owner: Owners, m1: Memory, m2: Memory, m3: Memory, owner3: Owners, root: nat,
                  pages: seq<nat>)
    requires Trees(m, owner) && IsRoot(owner, root) && IsTreeList(pages, owner, root)
    requires Cleared(m, owner, m1, root, TRAMPOLINE_VPN) && Cleared(m1, owner, m2, root, TRAPFRAME_VPN)
    requires GaveBack(m2, Orphaned(owner, root), m3, owner3, pages) && SameMaps(m2, Orphaned(owner, root), m3)
    ensures forall q :: 0 <= q < PAGES ==>
      if q in pages then owner3[q].Free? else owner3[q] == owner[q] && (!IsTable(owner3, q) ==> m3[q] == m[q])
    ensures forall r, v :: IsRoot(owner, r) && r != root && 0 <= v < VPNS ==> Lookup(m3, r, v) == Lookup(m, r, v)
  {
    hide Lookup, Distinct, Entry, EntryOk;
    forall r, v | IsRoot(owner, r) && r != root && 0 <= v < VPNS ensures Lookup(m3, r, v) == Lookup(m, r, v) {
      assert NodeOk(m, owner, r);
      assert IsRoot(Orphaned(owner, root), r);
    }
  }
}
