/** The memory of a process from birth on: proc_pgtbl_init makes an empty user page table,
    uvm_copy_pgtbl gives a child its own copy of its parent's memory. */
module ProcessMemory {
  import opened PageTables
  import opened PhysicalPages
  import opened VirtualMemory
  import opened UserMemory

  /** Pages that were in use are used as before, and data pages hold what they held; pages that were
      free are free, or belong to the tree of root. */
  ghost predicate Kept(m: Memory, owner: Owners, m': Memory, owner': Owners, root: nat) {
    && (forall p :: 0 <= p < PAGES && !owner[p].Free? ==>
          owner'[p] == owner[p] && (!IsTable(owner, p) ==> m'[p] == m[p]))
    && (forall p :: 0 <= p < PAGES && owner[p].Free? ==> FreeOrOf(owner'[p], root))
  }

  predicate FreeOrOf(o: Owner, root: nat) { o.Free? || (o.Node? && o.root == root) }

  lemma KeptMore(m0: Memory, o0: Owners, m1: Memory, o1: Owners, m2: Memory, o2: Owners, root: nat)
    requires Kept(m0, o0, m1, o1, root) && Kept(m1, o1, m2, o2, root)
    ensures Kept(m0, o0, m2, o2, root)
  {}

  // ---------- a new table ----------

  lemma NewRoot(m: Memory, owner: Owners, q: nat)
    requires Trees(m, owner) && q < PAGES && owner[q].Free?
    ensures var m', owner' := m[q := ZeroPage()], owner[q := Node(3, q, 0, 0)];
            && Trees(m', owner') && SameMaps(m, owner, m') && IsRoot(owner', q)
            && forall v :: 0 <= v < VPNS ==> Lookup(m', q, v) == 0
  {
    hide Entry, Lookup, Valid, User, Target;
    var m', owner' := m[q := ZeroPage()], owner[q := Node(3, q, 0, 0)];
    OtherPages(m, m', owner);
    forall p, i | IsTable(owner', p) && 0 <= i < 512 ensures EntryOk(m', owner', p, i) {
      if p == q {
        ZeroEntry(i);
      } else {
        assert EntryOk(m', owner, p, i);
      }
    }
    forall p | 0 <= p < PAGES && owner'[p].Node? ensures NodeOk(m', owner', p) {
      if p != q {
        assert NodeOk(m', owner, p);
      }
    }
    forall v | 0 <= v < VPNS ensures Lookup(m', q, v) == 0 {
      EmptyTable(m', q, v);
    }
  }

  lemma EmptyTable(m: Memory, q: nat, v: nat)
    requires q < PAGES && m[q] == ZeroPage()
    ensures Lookup(m, q, v) == 0
  {
    EmptyBelow(m, q, 3, v);
  }

  const PTE_R := 2
  const PTE_W := 4
  const PTE_X := 8

  /** Page number v of root now has entry e; no other translation moves. */
  ghost predicate Added(m: Memory, owner: Owners, m': Memory, root: nat, v: nat, e: nat) {
    forall r, u :: IsRoot(owner, r) && 0 <= u < VPNS ==>
      Lookup(m', r, u) == if r == root && u == v then e else Lookup(m, r, u)
  }

  /** One page mapped for the kernel: nothing else moves. */
  method MapKernelPage(s: Machine, root: nat, va: Address, page: nat, perm: nat) returns (ok: bool)
    requires s.Valid() && IsRoot(s.owner, root) && va % PGSIZE == 0 && va < MAXVA && page < 0xf_ffff_ffff_ffff
    requires perm < 1024 && !User(WithV(perm))
    modifies s
    ensures s.Valid() && (!ok ==> s.allocable == 0 || Lookup(old(s.mem), root, va / PGSIZE) != 0)
    ensures ok ==> Kept(old(s.mem), old(s.owner), s.mem, s.owner, root)
    ensures ok ==> Added(old(s.mem), old(s.owner), s.mem, root, va / PGSIZE, Pte(page, WithV(perm)))
  {
    hide Trees, FreeList, Lookup, User, Valid, Pte, WithV, EmptyRange, Grown, Kept, Added;
    assert Count(va, PGSIZE) == 1;
    ok := s.MapPages(root, va, page * PGSIZE, PGSIZE, perm);
    if ok {
      OneMapped(old(s.mem), old(s.owner), s.mem, s.owner, root, va / PGSIZE, page, WithV(perm));
    } else {
      NotEmpty(old(s.mem), root, va / PGSIZE);
    }
  }

  lemma OneMapped(m: Memory, owner: Owners, m': Memory, owner': Owners, root: nat, v: nat, page: nat, flags: nat)
    requires flags < 1024 && v < VPNS && Grown(m, owner, m', owner', root, v, page, 1, flags)
    ensures !User(flags) ==> Kept(m, owner, m', owner', root)
    ensures Added(m, owner, m', root, v, Pte(page, flags))
  {
    hide Lookup, Offset, Pte, User;
    forall p | 0 <= p < PAGES && !User(flags)
      ensures if owner[p].Free? then FreeOrOf(owner'[p], root)
              else owner'[p] == owner[p] && (!IsTable(owner, p) ==> m'[p] == m[p])
    {
      assert OwnerGrows(owner[p], owner'[p], root, v, page, 1, User(flags), p);
    }
    forall r, u | IsRoot(owner, r) && 0 <= u < VPNS
      ensures Lookup(m', r, u) == if r == root && u == v then Pte(page, flags) else Lookup(m, r, u)
    {
      OffsetIs(u, v, 0);
    }
  }

  lemma NotEmpty(m: Memory, root: nat, v: nat)
    requires root < PAGES && v < VPNS
    ensures Lookup(m, root, v) == 0 <==> EmptyRange(m, root, v, 1)
  {
    hide Lookup, Offset;
    OffsetIs(v, v, 0);
    forall u | 0 <= u < VPNS && Offset(u, v) < 1 ensures u == v {
      OffsetIs(u, v, 0);
    }
  }

  /** proc_pgtbl_init: a table with trampoline and trapframe, for the kernel only, and nothing
      else; 0 stands for a panic. */
  method PgtblInit(s: Machine, trampoline: nat, trapframe: nat) returns (root: nat)
    requires s.Valid() && trampoline < 0xf_ffff_ffff_ffff && trapframe < 0xf_ffff_ffff_ffff
    modifies s
    ensures s.Valid() && (root == 0 ==> s.allocable == 0)
    ensures root > 0 ==>
      IsRoot(s.owner, root) && old(s.owner)[root].Free? && Kept(old(s.mem), old(s.owner), s.mem, s.owner, root)
    ensures root > 0 ==> UserTable(s.mem, root)
    ensures root > 0 ==> Lookup(s.mem, root, TRAMPOLINE_VPN) == trampoline * 1024 + 11
    ensures root > 0 ==> Lookup(s.mem, root, TRAPFRAME_VPN) == trapframe * 1024 + 7
    ensures root > 0 ==> forall v :: 0 <= v < VPNS && v != TRAMPOLINE_VPN && v != TRAPFRAME_VPN ==>
        Lookup(s.mem, root, v) == 0
    ensures root > 0 ==> SameMaps(old(s.mem), old(s.owner), s.mem)
  {
    hide Trees, FreeList, Lookup, User, Kept, SameMaps, Added, UserTable, Pte;
    root := NewTableRoot(s);
    if root == 0 { return; }
    ghost var m1, o1 := s.mem, s.owner;
    PermsAreKernel();
    var ok := MapKernelPage(s, root, TRAMPOLINE, trampoline, PTE_R + PTE_X);
    if !ok { return 0; }
    ghost var m2, o2 := s.mem, s.owner;
    KeptRoot(m1, o1, m2, o2, root, root);
    AddedElsewhere(m1, o1, m2, root, TRAMPOLINE_VPN, Pte(trampoline, WithV(PTE_R + PTE_X)), TRAPFRAME_VPN);
    ok := MapKernelPage(s, root, TRAPFRAME, trapframe, PTE_R + PTE_W);
    if !ok { return 0; }
    KeptRoot(m2, o2, s.mem, s.owner, root, root);
    KeptMore(m1, o1, m2, o2, s.mem, s.owner, root);
    KeptMore(old(s.mem), old(s.owner), m1, o1, s.mem, s.owner, root);
    InitMaps(old(s.mem), old(s.owner), m1, o1, m2, o2, s.mem, root, trampoline, trapframe);
  }

  lemma InitMaps(m0: Memory, o0: Owners, m1: Memory, o1: Owners, m2: Memory, o2: Owners, m3: Memory, root: nat,
                 trampoline: nat, trapframe: nat)
    requires IsRoot(o1, root) && Kept(m0, o0, m1, o1, root) && Kept(m1, o1, m2, o2, root) && o0[root].Free?
    requires SameMaps(m0, o0, m1) && forall v :: 0 <= v < VPNS ==> Lookup(m1, root, v) == 0
    requires Added(m1, o1, m2, root, TRAMPOLINE_VPN, Pte(trampoline, WithV(PTE_R + PTE_X)))
    requires Added(m2, o2, m3, root, TRAPFRAME_VPN, Pte(trapframe, WithV(PTE_R + PTE_W)))
    ensures UserTable(m3, root) && SameMaps(m0, o0, m3)
    ensures Lookup(m3, root, TRAMPOLINE_VPN) == Pte(trampoline, WithV(PTE_R + PTE_X))
    ensures Lookup(m3, root, TRAPFRAME_VPN) == Pte(trapframe, WithV(PTE_R + PTE_W))
    ensures forall v :: 0 <= v < VPNS && v != TRAMPOLINE_VPN && v != TRAPFRAME_VPN ==> Lookup(m3, root, v) == 0
  {
    hide Lookup, User, Pte, IsLeaf, WithV;
    KernelLeaf(trampoline, trapframe);
    assert IsRoot(o2, root);
    forall v | 0 <= v < VPNS ensures UserTableEntry(v, Lookup(m3, root, v)) {
      assert IsRoot(o2, root);
    }
    forall r, v | IsRoot(o0, r) && 0 <= v < VPNS ensures Lookup(m3, r, v) == Lookup(m0, r, v) {
      assert IsRoot(o1, r) && IsRoot(o2, r);
    }
  }

  lemma KernelLeaf(trampoline: nat, trapframe: nat)
    ensures var e := Pte(trampoline, WithV(PTE_R + PTE_X)); IsLeaf(e) && !User(e)
    ensures var e := Pte(trapframe, WithV(PTE_R + PTE_W)); IsLeaf(e) && !User(e)
  {
    FlagsOfPte(trampoline, WithV(PTE_R + PTE_X));
    FlagsOfPte(trapframe, WithV(PTE_R + PTE_W));
  }

  lemma AddedElsewhere(m: Memory, owner: Owners, m': Memory, root: nat, v: nat, e: nat, u: nat)
    requires Added(m, owner, m', root, v, e) && IsRoot(owner, root) && u < VPNS && u != v
    ensures Lookup(m', root, u) == Lookup(m, root, u)
  {}

  lemma PermsAreKernel()
    ensures !User(WithV(PTE_R + PTE_X)) && !User(WithV(PTE_R + PTE_W))
  {}

  lemma KeptRoot(m: Memory, owner: Owners, m': Memory, owner': Owners, root: nat, r: nat)
    requires Kept(m, owner, m', owner', root) && IsRoot(owner, r)
    ensures IsRoot(owner', r)
  {}

  method NewTableRoot(s: Machine) returns (root: nat)
    requires s.Valid()
    modifies s
    ensures s.Valid() && (root == 0 ==> s.allocable == 0 && unchanged(s))
    ensures root > 0 ==>
      && root < PAGES && old(s.owner)[root].Free? && IsRoot(s.owner, root)
      && Kept(old(s.mem), old(s.owner), s.mem, s.owner, root) && SameMaps(old(s.mem), old(s.owner), s.mem)
      && forall v :: 0 <= v < VPNS ==> Lookup(s.mem, root, v) == 0
  {
    hide Trees, Lookup, SameMaps;
    root := s.PmemAlloc();
    if root == 0 { return; }
    NewRoot(s.mem, old(s.owner), root);
    ghost var taken := s.owner;
    s.mem := s.mem[root := ZeroPage()];
    s.owner := s.owner[root := Node(3, root, 0, 0)];
    assert s.owner == old(s.owner)[root := Node(3, root, 0, 0)];
    ListKept(old(s.mem), taken, s.mem, s.owner, s.begin, s.head, s.allocable, s.free);
  }

  // ---------- the copy of a fork ----------

  /** Page number v of the child: the parent's bytes and the low eight of its flags, on a page that
      was free and now hangs at v in the child's tree. */
  ghost predicate CopiedPage(m0: Memory, o0: Owners, m: Memory, owner: Owners, parent: nat, child: nat, v: nat)
    requires parent < PAGES && child < PAGES
  {
    var e, e' := Lookup(m0, parent, v), Lookup(m, child, v);
    var p, q := Target(e), Target(e');
    && User(e) && User(e') && Flags(e') == Flags(e) % 256
    && p < PAGES && q < PAGES && m[q] == m0[p]
    && o0[q].Free? && owner[q].Node? && owner[q].height == 0 && owner[q].root == child && owner[q].base == v
  }

  /** The first n pages are copied; nothing else has changed. */
  ghost predicate Copied(m0: Memory, o0: Owners, m: Memory, owner: Owners, parent: nat, child: nat, n: nat)
    requires parent < PAGES && child < PAGES
  {
    && Kept(m0, o0, m, owner, child)
    && (forall r, v :: IsRoot(o0, r) && 0 <= v < VPNS && !(r == child && v < n) ==> Lookup(m, r, v) == Lookup(m0, r, v))
    && (forall v :: 0 <= v < n ==> CopiedPage(m0, o0, m, owner, parent, child, v))
  }

  /** What uvm_copy_pgtbl needs not to panic: the parent's pages are all there, the child's are
      not. */
  ghost predicate Copyable(m: Memory, parent: nat, child: nat, n: nat)
    requires parent < PAGES && child < PAGES
  {
    forall v :: 0 <= v < n ==> Lookup(m, parent, v) != 0 && Lookup(m, child, v) == 0
  }

  lemma LowFlags(e: nat)
    requires User(e)
    ensures var f := Flags(e) % 256; User(f) && WithV(f) == f && f < 1024
  {
    LowBits(Flags(e));
  }

  lemma LowBits(f: nat)
    ensures f % 256 % 2 == f % 2 && f % 256 / 16 % 2 == f / 16 % 2 && f % 256 % 1024 == f % 256
  {
    var k, g := f / 256, f % 256;
    EvenShift(g, 128 * k);
    SixteenthOf(k, g);
    EvenShift(g / 16, 8 * k);
  }

  lemma EvenShift(a: nat, b: nat)
    ensures (2 * b + a) % 2 == a % 2
  {}

  lemma SixteenthOf(k: nat, g: nat)
    ensures (256 * k + g) / 16 == 16 * k + g / 16
  {}

  /** One more page: page q is taken from the list, filled, and mapped. */
  lemma CopyOneMore(m0: Memory, o0: Owners, m1: Memory, o1: Owners, q: nat, m3: Memory, o3: Owners, parent: nat,
                    child: nat, v: nat)
    requires Trees(m0, o0) && Trees(m1, o1) && IsRoot(o0, parent) && IsRoot(o0, child) && parent != child && v < VPNS
    requires Copied(m0, o0, m1, o1, parent, child, v) && User(Lookup(m0, parent, v))
    requires var e := Lookup(m0, parent, v);
             && Target(e) < PAGES && o0[Target(e)].Node? && o0[Target(e)].height == 0
             && q < PAGES && o1[q].Free?
             && Grown(m1[q := m1[Target(e)]], o1[q := Taken], m3, o3, child, v, q, 1, Flags(e) % 256)
    ensures Copied(m0, o0, m3, o3, parent, child, v + 1)
  {
    hide Lookup, User, Flags, Trees, Target, Pte, Valid, Offset;
    var e := Lookup(m0, parent, v);
    var p, f := Target(e), Flags(e) % 256;
    var m2, o2 := m1[q := m1[p]], o1[q := Taken];
    LowFlags(e);
    FlagsOfPte(q, f);
    OtherOwners(m1, o1, q, Taken);
    OtherPages(m1, m2, o2);
    OneMapped(m2, o2, m3, o3, child, v, q, f);
    forall t | 0 <= t < PAGES
      ensures t != q && !o1[t].Free? ==> o3[t] == o1[t] && (!IsTable(o1, t) ==> m3[t] == m1[t])
      ensures t == q ==> o3[t].Node? && o3[t].height == 0 && o3[t].root == child && o3[t].base == v && m3[t] == m1[p]
      ensures o1[t].Free? ==> FreeOrOf(o3[t], child)
    {
      assert OwnerGrows(o2[t], o3[t], child, v, q, 1, User(f), t);
    }
    forall r, u | IsRoot(o0, r) && 0 <= u < VPNS
      ensures Lookup(m3, r, u) == if r == child && u == v then Pte(q, f) else Lookup(m1, r, u)
    {
      assert IsRoot(o1, r) && IsRoot(o2, r);
    }
    forall u | 0 <= u < v + 1 ensures CopiedPage(m0, o0, m3, o3, parent, child, u) {
      if u < v {
        assert CopiedPage(m0, o0, m1, o1, parent, child, u);
      }
    }
  }

  lemma CopiedNone(m: Memory, owner: Owners, parent: nat, child: nat)
    requires parent < PAGES && child < PAGES
    ensures Copied(m, owner, m, owner, parent, child, 0)
  {}

  /** What the next round finds in either table is what was there at the start. */
  lemma NextPage(m0: Memory, o0: Owners, m1: Memory, o1: Owners, parent: nat, child: nat, v: nat)
    requires IsRoot(o0, parent) && IsRoot(o0, child) && parent != child && v < VPNS
    requires Copied(m0, o0, m1, o1, parent, child, v)
    ensures Lookup(m1, parent, v) == Lookup(m0, parent, v) && Lookup(m1, child, v) == Lookup(m0, child, v)
    ensures IsRoot(o1, parent) && IsRoot(o1, child)
  {
    hide Lookup;
  }

  lemma UserEntryHangs(m: Memory, owner: Owners, root: nat, v: nat)
    requires Trees(m, owner) && IsRoot(owner, root) && v < VPNS && User(Lookup(m, root, v))
    ensures var p := Target(Lookup(m, root, v));
            p < PAGES && owner[p].Node? && owner[p].height == 0 && owner[p].root == root && owner[p].base == v
  {
    hide Entry, User, Target;
    assert NodeOk(m, owner, root);
    RootServesAll(v);
    WalkFinds(m, owner, root, 3, v);
    assert EntryOk(m, owner, Walk(m, root, 3, v), v % 512);
  }

  lemma StillUserTable(m: Memory, root: nat, v: nat)
    requires root < PAGES && v < TRAPFRAME_VPN && UserTable(m, root)
    ensures Lookup(m, root, v) == 0 || User(Lookup(m, root, v))
  {
    hide Lookup, User, IsLeaf;
    assert UserTableEntry(v, Lookup(m, root, v));
  }

  /** One round of uvm_copy_pgtbl. */
  method CopyOnePage(s: Machine, parent: nat, child: nat, va: Address) returns (ok: bool, ghost q: nat)
    requires s.Valid() && IsRoot(s.owner, parent) && IsRoot(s.owner, child) && va % PGSIZE == 0 && va < MAXVA
    requires var e := Lookup(s.mem, parent, va / PGSIZE); e == 0 || User(e)
    modifies s
    ensures s.Valid()
    ensures var e := Lookup(old(s.mem), parent, va / PGSIZE);
            ok ==> e != 0 && Lookup(old(s.mem), child, va / PGSIZE) == 0 && Target(e) < PAGES
                   && q < PAGES && old(s.owner)[q].Free?
                   && Grown(old(s.mem)[q := old(s.mem)[Target(e)]], old(s.owner)[q := Taken], s.mem, s.owner,
                        child, va / PGSIZE, q, 1, Flags(e) % 256)
    ensures !ok ==>
      s.allocable == 0 || Lookup(old(s.mem), parent, va / PGSIZE) == 0 || Lookup(old(s.mem), child, va / PGSIZE) != 0
  {
    hide Trees, FreeList, Lookup, User, Grown, EmptyRange, Flags, Entry;
    ghost var v := va / PGSIZE;
    q := 0;
    var p := s.GetPte(parent, va, false);
    BelowMax(va);
    if p == 0 { return false, 0; }
    var e := Entry(s.mem[p], PxOf(va, 0));
    if !PageTables.Valid(e) { return false, 0; }
    UserEntryHangs(s.mem, s.owner, parent, v);
    LowFlags(e);
    var page := s.PmemAlloc();
    if page == 0 { return false, 0; }
    q := page;
    ghost var taken := s.owner;
    OtherOwners(s.mem, old(s.owner), page, Taken);
    s.mem := s.mem[page := s.mem[Target(e)]];
    OtherPages(old(s.mem), s.mem, s.owner);
    SameChild(old(s.mem), s.owner, s.mem, child, v);
    ListKept(old(s.mem), taken, s.mem, s.owner, s.begin, s.head, s.allocable, s.free);
    assert Count(va, PGSIZE) == 1;
    ok := s.MapPages(child, va, page * PGSIZE, PGSIZE, Flags(e) % 256);
    NotEmpty(old(s.mem), child, v);
  }

  lemma SameChild(m: Memory, owner: Owners, m': Memory, root: nat, v: nat)
    requires SameMaps(m, owner, m') && IsRoot(owner, root) && v < VPNS
    ensures Lookup(m', root, v) == Lookup(m, root, v)
    ensures EmptyRange(m', root, v, 1) <==> EmptyRange(m, root, v, 1)
  {
    hide Lookup, Offset;
  }

  /** uvm_copy_pgtbl: every page below heap_top gets its own copy, nothing of the parent and of
      anybody else changes; false stands for its panics. */
  method CopyPgtbl(s: Machine, parent: nat, child: nat, heap_top: nat) returns (ok: bool)
    requires s.Valid() && IsRoot(s.owner, parent) && IsRoot(s.owner, child) && parent != child
    requires UserTable(s.mem, parent) && heap_top <= TRAPFRAME
    modifies s
    ensures s.Valid()
    ensures ok ==> Copied(old(s.mem), old(s.owner), s.mem, s.owner, parent, child, RoundUp(heap_top) / PGSIZE)
    ensures ok ==> Copyable(old(s.mem), parent, child, RoundUp(heap_top) / PGSIZE)
    ensures !ok ==> s.allocable == 0 || !Copyable(old(s.mem), parent, child, RoundUp(heap_top) / PGSIZE)
  {
    hide Trees, FreeList, Lookup, User, Grown, Copied, UserTable, Flags;
    ghost var m, owner := s.mem, s.owner;
    ghost var n, v := RoundUp(heap_top) / PGSIZE, 0;
    CopiedNone(m, owner, parent, child);
    var va := 0;
    while va < heap_top
      invariant va == v * PGSIZE && 0 <= v <= n && (va < heap_top <==> v < n)
      invariant s.Valid() && Copied(m, owner, s.mem, s.owner, parent, child, v) && Copyable(m, parent, child, v)
      decreases n - v
    {
      ghost var m1, o1 := s.mem, s.owner;
      NextPage(m, owner, m1, o1, parent, child, v);
      StillUserTable(m, parent, v);
      ghost var q;
      ok, q := CopyOnePage(s, parent, child, va);
      if !ok { return; }
      UserEntryHangs(m, owner, parent, v);
      CopyOneMore(m, owner, m1, o1, q, s.mem, s.owner, parent, child, v);
      va := va + PGSIZE;
      v := v + 1;
    }
    return true;
  }

  /** The child's table is one that uvm_destroy_pgtbl takes apart completely, like its parent's. */
  lemma CopyIsUserTable(m0: Memory, o0: Owners, m: Memory, owner: Owners, parent: nat, child: nat, n: nat)
    requires IsRoot(o0, parent) && IsRoot(o0, child) && parent != child && n <= TRAPFRAME_VPN
    requires UserTable(m0, parent) && UserTable(m0, child) && Copied(m0, o0, m, owner, parent, child, n)
    ensures UserTable(m, parent) && UserTable(m, child)
  {
    hide Lookup, User, IsLeaf;
    forall v | 0 <= v < VPNS ensures UserTableEntry(v, Lookup(m, parent, v)) && UserTableEntry(v, Lookup(m, child, v)) {
      assert UserTableEntry(v, Lookup(m0, parent, v)) && UserTableEntry(v, Lookup(m0, child, v));
      if v < n {
        assert CopiedPage(m0, o0, m, owner, parent, child, v);
      }
    }
  }
}
