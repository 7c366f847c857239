/** The free list of physical pages, stored in the free pages themselves, and what the operations
    on page tables do to owners, free pages and translations. */
module PhysicalPages {
  import opened PageTables

  /** Page number k of the list holds the address of page number k - 1, the bottom one 0. */
  predicate OnList(m: Memory, owner: Owners, begin: nat, free: seq<nat>, k: nat)
    requires k < |free|
  {
    && begin <= free[k] < PAGES && owner[free[k]] == Free(k)
    && Entry(m[free[k]], 0) == if k == 0 then 0 else free[k - 1] * PGSIZE
  }

  /** From `begin` on, the pages whose owner is Free are exactly those of the list; the pages
      below are the kernel's. */
  ghost predicate FreeList(m: Memory, owner: Owners, begin: nat, head: nat, allocable: nat, free: seq<nat>) {
    && 0 < begin <= PAGES
    && allocable == |free|
    && head == (if |free| == 0 then 0 else free[|free| - 1] * PGSIZE)
    && (forall k :: 0 <= k < |free| ==> OnList(m, owner, begin, free, k))
    && (forall p :: 0 <= p < PAGES && owner[p].Free? ==> owner[p].pos < |free| && free[owner[p].pos] == p)
    && (forall p :: 0 <= p < begin ==> owner[p] == Taken)
  }

  /** Changes to other pages do not disturb the list. */
  lemma ListKept(m: Memory, owner: Owners, m': Memory, owner': Owners, begin: nat, head: nat, allocable: nat,
                 free: seq<nat>)
    requires FreeList(m, owner, begin, head, allocable, free)
    requires forall p :: 0 <= p < PAGES && owner[p].Free? ==> owner'[p] == owner[p] && m'[p] == m[p]
    requires forall p :: 0 <= p < PAGES && owner'[p].Free? ==> owner[p].Free?
    requires forall p :: 0 <= p < begin ==> owner'[p] == owner[p]
    ensures FreeList(m', owner', begin, head, allocable, free)
  {
    hide Entry;
    forall k | 0 <= k < |free| ensures OnList(m', owner', begin, free, k) {
      assert OnList(m, owner, begin, free, k);
    }
  }

  lemma Popped(m: Memory, owner: Owners, begin: nat, head: nat, free: seq<nat>)
    requires |free| > 0 && FreeList(m, owner, begin, head, |free|, free)
    ensures var n := |free| - 1; var p := free[n];
            && 0 < p < PAGES && owner[p] == Free(n) && head == p * PGSIZE
            && FreeList(m, owner[p := Taken], begin, Entry(m[p], 0), n, free[..n])
  {
    hide Entry;
    var n := |free| - 1;
    var p := free[n];
    assert OnList(m, owner, begin, free, n);
    var rest, owner' := free[..n], owner[p := Taken];
    forall k | 0 <= k < |rest| ensures OnList(m, owner', begin, rest, k) {
      assert OnList(m, owner, begin, free, k);
    }
    if n > 0 {
      assert OnList(m, owner, begin, free, n - 1);
    }
  }

  lemma Pushed(m: Memory, owner: Owners, begin: nat, head: nat, free: seq<nat>, p: nat)
    requires FreeList(m, owner, begin, head, |free|, free) && begin <= p < PAGES && !owner[p].Free?
    ensures FreeList(m[p := SetEntry(m[p], 0, head)], owner[p := Free(|free|)], begin, p * PGSIZE, |free| + 1,
        free + [p])
  {
    hide Entry, SetEntry;
    var m', owner', free' := m[p := SetEntry(m[p], 0, head)], owner[p := Free(|free|)], free + [p];
    if |free| > 0 {
      assert OnList(m, owner, begin, free, |free| - 1);
    }
    EntrySet(m[p], 0, head, 0);
    forall k | 0 <= k < |free'| ensures OnList(m', owner', begin, free', k) {
      if k < |free| {
        assert OnList(m, owner, begin, free, k);
      }
    }
  }

  /** A page pushed onto the list it is on closes a circle: from the new head the links lead down the
      old list and back to the page, so no list of one more page, each once, can be read off them. */
  lemma FreedTwice(m: Memory, owner: Owners, begin: nat, head: nat, free: seq<nat>, p: nat, o: Owners, f: seq<nat>)
    requires FreeList(m, owner, begin, head, |free|, free) && p < PAGES && owner[p].Free?
    ensures !FreeList(m[p := SetEntry(m[p], 0, head)], o, begin, p * PGSIZE, |free| + 1, f)
  {
    hide Entry, SetEntry;
    var m' := m[p := SetEntry(m[p], 0, head)];
    if FreeList(m', o, begin, p * PGSIZE, |free| + 1, f) {
      var n, k := |free|, owner[p].pos;
      assert OnList(m', o, begin, f, n);
      assert OnList(m, owner, begin, free, n - 1);
      EntrySet(m[p], 0, head, 0);
      NoRepeat(m', o, begin, p * PGSIZE, f, k, n);
      LinksAgree(m, owner, begin, head, free, p, o, f, k);
    }
  }

  lemma NoRepeat(m: Memory, owner: Owners, begin: nat, head: nat, free: seq<nat>, j: nat, k: nat)
    requires FreeList(m, owner, begin, head, |free|, free) && j < |free| && k < |free|
    ensures free[j] == free[k] ==> j == k
  {
    assert OnList(m, owner, begin, free, j) && OnList(m, owner, begin, free, k);
  }

  /** Down to the place of page p, a list read off the links would be the old one. */
  lemma {:induction false} LinksAgree(m: Memory, owner: Owners, begin: nat, head: nat, free: seq<nat>, p: nat,
                                      o: Owners, f: seq<nat>, j: nat)
    requires FreeList(m, owner, begin, head, |free|, free) && p < PAGES && owner[p].Free? && owner[p].pos <= j < |free|
    requires FreeList(m[p := SetEntry(m[p], 0, head)], o, begin, p * PGSIZE, |free| + 1, f)
    ensures f[j] == free[j]
    decreases |free| - j
  {
    hide Entry, SetEntry;
    var m' := m[p := SetEntry(m[p], 0, head)];
    assert OnList(m', o, begin, f, j + 1) && OnList(m, owner, begin, free, j);
    assert OnList(m, owner, begin, free, |free| - 1);
    EntrySet(m[p], 0, head, 0);
    if j + 1 < |free| {
      LinksAgree(m, owner, begin, head, free, p, o, f, j + 1);
      assert OnList(m, owner, begin, free, j + 1);
    }
  }

  // ---------- addresses ----------

  type Address = a: int | 0 <= a < 0x1_0000_0000_0000_0000

  const MAXVA := 0x40_0000_0000
  const TRAMPOLINE := MAXVA - PGSIZE
  const TRAPFRAME := TRAMPOLINE - PGSIZE

  function RoundDown(a: nat): (r: nat)
    ensures r % PGSIZE == 0 && r <= a < r + PGSIZE
  {
    a - a % PGSIZE
  }

  function RoundUp(a: nat): (r: nat)
    ensures r % PGSIZE == 0 && a <= r < a + PGSIZE
  {
    RoundDown(a + PGSIZE - 1)
  }

  /** The page number the hardware and the walk use: the 27 bits above the offset. */
  function Vpn(a: nat): (v: nat)
    ensures v < VPNS
  {
    a / PGSIZE % VPNS
  }

  lemma BelowMax(va: nat)
    requires va < MAXVA
    ensures Vpn(va) == va / PGSIZE
  {}

  /** The PX macro, written with shifts. */
  function PxOf(a: nat, level: nat): nat
    requires level < 3
  {
    if level == 0 then a / 0x1000 % 512
    else if level == 1 then a / 0x20_0000 % 512
    else a / 0x4000_0000 % 512
  }

  lemma ShiftTwice(a: nat)
    ensures a / 0x20_0000 == a / 0x1000 / 512
    ensures a / 0x4000_0000 == a / 0x20_0000 / 512
  {}

  lemma DigitsOfRest(x: nat, y: nat, v: nat)
    requires x == VPNS * y + v && v < VPNS
    ensures x % 512 == v % 512 && x / 512 == 512 * 512 * y + v / 512
    ensures x / 512 % 512 == v / 512 % 512 && x / 512 / 512 == 512 * y + v / 512 / 512
    ensures x / 512 / 512 % 512 == v / 512 / 512 % 512
  {}

  /** The indices cut out of an address are the digits of its page number. */
  lemma PxIsDigit(a: nat, level: nat)
    requires level < 3
    ensures PxOf(a, level) == Px(Vpn(a), level + 1)
  {
    var v, x := Vpn(a), a / PGSIZE;
    ShiftTwice(a);
    DigitsOfRest(x, x / VPNS, v);
    assert Prefix(v, 0) == v;
    assert Prefix(v, 1) == v / 512;
    assert Prefix(v, 2) == v / 512 / 512;
  }

  // ---------- ranges of pages ----------

  /** How far page number v is from `first`, going up and around. */
  function Offset(v: nat, first: nat): (n: nat)
    ensures n < VPNS
  {
    (v - first) % VPNS
  }

  lemma OffsetIs(v: nat, first: nat, n: nat)
    requires v < VPNS && n < VPNS
    ensures Offset(v, first) == n <==> v == (first + n) % VPNS
  {
  }

  // ---------- mapping ----------

  /** Page p was allocated and is in nobody's tree. */
  predicate Available(owner: Owners, begin: nat, p: nat) {
    begin <= p < PAGES && owner[p].Taken?
  }

  /** Page p's owner before and after n pages from `page` on were mapped under `root` from page
      number `first` on: user pages are adopted, free pages may have become lower tables. */
  predicate OwnerGrows(o: Owner, o': Owner, root: nat, first: nat, page: nat, n: nat, user: bool, p: nat) {
    if user && page <= p < page + n then
      o.Taken? && o'.Node? && o'.height == 0 && o'.root == root && o'.base == (first + p - page) % VPNS
    else if o.Free? then o' == o || (o'.Node? && 1 <= o'.height <= 2 && o'.root == root)
    else o' == o
  }

  ghost predicate OwnersGrow(owner: Owners, owner': Owners, root: nat, first: nat, page: nat, n: nat, user: bool) {
    forall p :: 0 <= p < PAGES ==> OwnerGrows(owner[p], owner'[p], root, first, page, n, user, p)
  }

  /** The entry of page number v after the same: the n pages are mapped, nothing else moves. */
  function MappedEntry(e: nat, v: nat, first: nat, page: nat, n: nat, flags: nat): nat
    requires flags < 1024
  {
    if Offset(v, first) < n then Pte(page + Offset(v, first), flags) else e
  }

  ghost predicate MapsGrow(m: Memory, owner: Owners, m': Memory, root: nat, first: nat, page: nat, n: nat, flags: nat)
    requires flags < 1024
  {
    forall r, v :: IsRoot(owner, r) && 0 <= v < VPNS ==>
      Lookup(m', r, v) == if r == root then MappedEntry(Lookup(m, r, v), v, first, page, n, flags) else Lookup(m, r, v)
  }

  /** No page of data changes. */
  ghost predicate SameData(m: Memory, owner: Owners, m': Memory) {
    forall p :: 0 <= p < PAGES && !owner[p].Free? && !IsTable(owner, p) ==> m'[p] == m[p]
  }

  ghost predicate Grown(m: Memory, owner: Owners, m': Memory, owner': Owners, root: nat, first: nat, page: nat,
                        n: nat, flags: nat)
    requires flags < 1024
  {
    && OwnersGrow(owner, owner', root, first, page, n, User(flags))
    && MapsGrow(m, owner, m', root, first, page, n, flags)
    && SameData(m, owner, m')
  }

  lemma RootsStay(owner: Owners, owner': Owners, root: nat, first: nat, page: nat, n: nat, user: bool, r: int)
    requires OwnersGrow(owner, owner', root, first, page, n, user) && IsRoot(owner, r)
    ensures IsRoot(owner', r) && owner'[r] == owner[r]
  {
    assert OwnerGrows(owner[r], owner'[r], root, first, page, n, user, r);
  }

  /** n pages, then one more. */
  lemma GrownMore(m0: Memory, o0: Owners, m1: Memory, o1: Owners, m2: Memory, o2: Owners,
                  root: nat, first: nat, page: nat, n: nat, k: nat, flags: nat)
    requires flags < 1024 && n + k <= VPNS && k <= 1
    requires Grown(m0, o0, m1, o1, root, first, page, n, flags)
    requires Grown(m1, o1, m2, o2, root, first + n, page + n, k, flags)
    ensures Grown(m0, o0, m2, o2, root, first, page, n + k, flags)
  {
    hide Lookup, Pte, Offset, User;
    forall p | 0 <= p < PAGES ensures OwnerGrows(o0[p], o2[p], root, first, page, n + k, User(flags), p) {
      assert OwnerGrows(o0[p], o1[p], root, first, page, n, User(flags), p);
      assert OwnerGrows(o1[p], o2[p], root, first + n, page + n, k, User(flags), p);
    }
    forall r, v | IsRoot(o0, r) && 0 <= v < VPNS
      ensures Lookup(m2, r, v) == if r == root then MappedEntry(Lookup(m0, r, v), v, first, page, n + k, flags)
          else Lookup(m0, r, v)
    {
      RootsStay(o0, o1, root, first, page, n, User(flags), r);
      if k == 1 {
        OffsetIs(v, first, n);
        OffsetIs(v, first + n, 0);
      }
    }
    forall p | 0 <= p < PAGES && !o0[p].Free? && !IsTable(o0, p) ensures m2[p] == m0[p] {
      assert OwnerGrows(o0[p], o1[p], root, first, page, n, User(flags), p);
    }
  }

  /** Taking free page q, clearing it and hanging it into entry i of table p. */
  lemma NewTable(m: Memory, owner: Owners, p: nat, i: nat, q: nat)
    requires Trees(m, owner) && IsTable(owner, p) && owner[p].height > 1 && i < 512
    requires q < PAGES && owner[q].Free? && Entry(m[p], i) == 0
    ensures var m1, o1 := m[q := ZeroPage()], owner[q := Taken];
            && Trees(Hung(m1, p, i, q), HungOwner(o1, p, i, q))
            && Grown(m, owner, Hung(m1, p, i, q), HungOwner(o1, p, i, q), owner[p].root, 0, 0, 0, 0)
  {
    hide Entry, Lookup, SetEntry, NodeOk, EntryOk, User, Offset, Pte;
    var m1, o1 := m[q := ZeroPage()], owner[q := Taken];
    assert owner[p].height <= 3 by { HeightBound(m, owner, p); }
    OtherOwners(m, owner, q, Taken);
    OtherPages(m, m1, o1);
    HungEntries(m1, o1, p, i, q);
    HungNodes(m1, o1, p, i, q);
    HangKeepsMaps(m1, o1, p, i, q);
    forall r, v | IsRoot(owner, r) && 0 <= v < VPNS ensures Lookup(Hung(m1, p, i, q), r, v) == Lookup(m, r, v) {
      assert IsRoot(o1, r);
    }
  }

  lemma HeightBound(m: Memory, owner: Owners, p: nat)
    requires Trees(m, owner) && IsTable(owner, p)
    ensures owner[p].height <= 3 && owner[p].root < PAGES && owner[p].up < PAGES
  {
    hide Entry;
    assert NodeOk(m, owner, p);
    RootInRange(m, owner, p);
  }

  lemma {:induction false} RootInRange(m: Memory, owner: Owners, p: nat)
    requires Trees(m, owner) && p < PAGES && owner[p].Node?
    ensures IsRoot(owner, owner[p].root)
    decreases 3 - owner[p].height
  {
    hide Entry;
    assert NodeOk(m, owner, p);
    if owner[p].height < 3 {
      RootInRange(m, owner, owner[p].up);
    }
  }

  /** A page in nobody's tree goes onto the list: no tree and no map notices. */
  lemma GivenBack(m: Memory, owner: Owners, p: nat, page: Page, k: nat)
    requires Trees(m, owner) && p < PAGES && owner[p].Taken?
    ensures Trees(m[p := page], owner[p := Free(k)]) && SameMaps(m, owner, m[p := page])
  {
    hide EntryOk, NodeOk, Lookup;
    OtherPages(m, m[p := page], owner);
    OtherOwners(m[p := page], owner, p, Free(k));
  }

  lemma FlagsOfPte(page: nat, flags: nat)
    requires flags < 1024 && Valid(flags)
    ensures Valid(Pte(page, flags)) && (User(Pte(page, flags)) <==> User(flags))
    ensures Pte(page, flags) != 0
  {}

  /** Filling the empty entry of page number `first` (modulo the table) maps exactly one page. */
  lemma FillGrown(m: Memory, owner: Owners, p: nat, root: nat, first: nat, page: nat, flags: nat)
    requires Trees(m, owner) && IsTable(owner, p) && owner[p].height == 1 && owner[p].root == root
    requires var v := first % VPNS; owner[p].base == v / 512 && Entry(m[p], v % 512) == 0
    requires flags < 1024 && Valid(flags) && page < 0x10_0000_0000_0000
    requires User(flags) ==> page < PAGES && owner[page].Taken?
    ensures var i, e := first % VPNS % 512, Pte(page, flags);
            && Trees(Stored(m, p, i, e), Adopted(owner, p, i, e))
            && Grown(m, owner, Stored(m, p, i, e), Adopted(owner, p, i, e), root, first, page, 1, flags)
  {
    hide Entry, SetEntry, EntryOk, NodeOk, Trees, Lookup, Valid, User, Offset;
    var v := first % VPNS;
    var i, e := v % 512, Pte(page, flags);
    FlagsOfPte(page, flags);
    assert e < 0x1_0000_0000_0000_0000;
    FillKeeps(m, owner, p, i, e);
    forall r, u | IsRoot(owner, r) && 0 <= u < VPNS
      ensures Lookup(Stored(m, p, i, e), r, u) ==
              if r == root then MappedEntry(Lookup(m, r, u), u, first, page, 1, flags) else Lookup(m, r, u)
    {
      StoreChangesOne(m, owner, p, i, e, r, u);
      OffsetIs(u, first, 0);
    }
  }

  /** A range that still finds an empty entry has not come around. */
  lemma NotAround(m: Memory, owner: Owners, m': Memory, owner': Owners, root: nat, first: nat, page: nat, n: nat,
                  flags: nat)
    requires flags < 1024 && Valid(flags) && IsRoot(owner, root)
    requires Grown(m, owner, m', owner', root, first, page, n, flags)
    requires Lookup(m', root, (first + n) % VPNS) == 0
    ensures n < VPNS && Lookup(m, root, (first + n) % VPNS) == 0
  {
    hide Lookup, Valid, Pte;
    var v := (first + n) % VPNS;
    FlagsOfPte(page + Offset(v, first), flags);
    if n < VPNS {
      OffsetIs(v, first, n);
    }
  }

  // ---------- unmapping ----------

  /** The same after n pages from page number `first` on were unmapped: their user pages are back
      on the list, or back in the caller's hands. */
  predicate OwnerShrinks(o: Owner, o': Owner, root: nat, first: nat, n: nat, freed: bool) {
    if o.Node? && o.height == 0 && o.root == root && Offset(o.base, first) < n then
      if freed then o'.Free? else o'.Taken?
    else o' == o
  }

  ghost predicate OwnersShrink(owner: Owners, owner': Owners, root: nat, first: nat, n: nat, freed: bool) {
    forall p :: 0 <= p < PAGES ==> OwnerShrinks(owner[p], owner'[p], root, first, n, freed)
  }

  ghost predicate MapsShrink(m: Memory, owner: Owners, m': Memory, root: nat, first: nat, n: nat) {
    forall r, v :: IsRoot(owner, r) && 0 <= v < VPNS ==>
      Lookup(m', r, v) == if r == root && Offset(v, first) < n then 0 else Lookup(m, r, v)
  }

  /** Only tables and pages that were given back change. */
  ghost predicate SameKept(m: Memory, owner: Owners, m': Memory, owner': Owners) {
    forall p :: 0 <= p < PAGES && !IsTable(owner, p) && (owner'[p] == owner[p] || owner'[p].Taken?) ==> m'[p] == m[p]
  }

  ghost predicate Shrunk(m: Memory, owner: Owners, m': Memory, owner': Owners, root: nat, first: nat, n: nat,
                         freed: bool) {
    && OwnersShrink(owner, owner', root, first, n, freed)
    && MapsShrink(m, owner, m', root, first, n)
    && SameKept(m, owner, m', owner')
  }

  lemma ShrunkNone(m: Memory, owner: Owners, root: nat, first: nat, freed: bool)
    ensures Shrunk(m, owner, m, owner, root, first, 0, freed)
  {}

  lemma ShrunkMore(m0: Memory, o0: Owners, m1: Memory, o1: Owners, m2: Memory, o2: Owners,
                   root: nat, first: nat, n: nat, freed: bool)
    requires n < VPNS && Trees(m0, o0)
    requires Shrunk(m0, o0, m1, o1, root, first, n, freed)
    requires Shrunk(m1, o1, m2, o2, root, first + n, 1, freed)
    ensures Shrunk(m0, o0, m2, o2, root, first, n + 1, freed)
  {
    hide Lookup, Offset, EntryOk, NodeOk;
    forall p | 0 <= p < PAGES
      ensures OwnerShrinks(o0[p], o2[p], root, first, n + 1, freed)
      ensures !IsTable(o0, p) && (o2[p] == o0[p] || o2[p].Taken?) ==> m2[p] == m0[p]
    {
      assert OwnerShrinks(o0[p], o1[p], root, first, n, freed);
      assert OwnerShrinks(o1[p], o2[p], root, first + n, 1, freed);
      if o0[p].Node? && o0[p].height == 0 {
        PlaceInRange(m0, o0, p);
        OffsetIs(o0[p].base, first, n);
        OffsetIs(o0[p].base, first + n, 0);
      }
    }
    forall r, v | IsRoot(o0, r) && 0 <= v < VPNS
      ensures Lookup(m2, r, v) == if r == root && Offset(v, first) < n + 1 then 0 else Lookup(m0, r, v)
    {
      assert OwnerShrinks(o0[r], o1[r], root, first, n, freed);
      OffsetIs(v, first, n);
      OffsetIs(v, first + n, 0);
    }
  }

  /** 512 to the power 3 - h: the number of places at height h. */
  function Places(h: nat): nat {
    if h >= 3 then 1 else if h == 2 then 512 else if h == 1 then 512 * 512 else VPNS
  }

  lemma {:induction false} PlaceInRange(m: Memory, owner: Owners, p: nat)
    requires Trees(m, owner) && p < PAGES && owner[p].Node?
    ensures owner[p].base < Places(owner[p].height)
    decreases 3 - owner[p].height
  {
    hide Entry;
    assert NodeOk(m, owner, p);
    if owner[p].height < 3 {
      PlaceInRange(m, owner, owner[p].up);
    }
  }

  /** Clearing the entry of page number `first` unmaps exactly one page. */
  lemma ClearShrunk(m: Memory, owner: Owners, p: nat, root: nat, first: nat)
    requires Trees(m, owner) && IsTable(owner, p) && owner[p].height == 1 && owner[p].root == root
    requires owner[p].base == first % VPNS / 512
    ensures var i := first % VPNS % 512;
            var m', owner' := Stored(m, p, i, 0), Dropped(owner, Entry(m[p], i));
            Trees(m', owner') && Shrunk(m, owner, m', owner', root, first, 1, false)
  {
    hide Entry, SetEntry, Lookup, Valid, User, Offset, NodeOk, Target;
    var v := first % VPNS;
    var i := v % 512;
    var e := Entry(m[p], i);
    var m', owner' := Stored(m, p, i, 0), Dropped(owner, e);
    ClearKeeps(m, owner, p, i);
    assert EntryOk(m, owner, p, i);
    forall q | 0 <= q < PAGES
      ensures OwnerShrinks(owner[q], owner'[q], root, first, 1, false)
    {
      if owner[q].Node? && owner[q].height == 0 && owner[q].root == root {
        PlaceInRange(m, owner, q);
        OffsetIs(owner[q].base, first, 0);
        if owner[q].base == v {
          HangsThere(m, owner, p, q, i);
        }
      }
    }
    forall r, u | IsRoot(owner, r) && 0 <= u < VPNS
      ensures Lookup(m', r, u) == if r == root && Offset(u, first) < 1 then 0 else Lookup(m, r, u)
    {
      StoreChangesOne(m, owner, p, i, 0, r, u);
      OffsetIs(u, first, 0);
    }
  }

  /** The user page of a place is the one its entry leads to. */
  lemma HangsThere(m: Memory, owner: Owners, p: nat, q: nat, i: nat)
    requires Trees(m, owner) && IsTable(owner, p) && owner[p].height == 1 && i < 512
    requires q < PAGES && owner[q].Node? && owner[q].height == 0 && owner[q].root == owner[p].root
    requires owner[q].base == owner[p].base * 512 + i
    ensures User(Entry(m[p], i)) && Target(Entry(m[p], i)) == q
  {
    hide Entry, User, Target, Valid;
    assert NodeOk(m, owner, q);
    PlaceIsUnique(m, owner, owner[q].up, p);
  }

  /** The same with the user page given back first. */
  lemma FreeShrunk(m: Memory, owner: Owners, p: nat, root: nat, first: nat, page: Page, k: nat)
    requires Trees(m, owner) && IsTable(owner, p) && owner[p].height == 1 && owner[p].root == root
    requires owner[p].base == first % VPNS / 512 && User(Entry(m[p], first % VPNS % 512))
    ensures var i := first % VPNS % 512;
            var q := Target(Entry(m[p], i));
            && q < PAGES && q != p && owner[q].Node? && owner[q].height == 0
            && var m', owner' := Stored(m[q := page], p, i, 0), owner[q := Free(k)];
               Trees(m', owner') && Shrunk(m, owner, m', owner', root, first, 1, true)
  {
    hide Entry, SetEntry, Lookup, Valid, User, NodeOk, Offset, Target;
    var v := first % VPNS;
    var i := v % 512;
    var e := Entry(m[p], i);
    var q := Target(e);
    assert EntryOk(m, owner, p, i);
    ClearShrunk(m, owner, p, root, first);
    var m1, o1 := Stored(m, p, i, 0), Dropped(owner, e);
    assert owner[q].base == v;
    OffsetIs(v, first, 0);
    GivenBack(m1, o1, q, page, k);
    assert m1[q := page] == Stored(m[q := page], p, i, 0);
    assert o1[q := Free(k)] == owner[q := Free(k)];
    forall t | 0 <= t < PAGES ensures OwnerShrinks(owner[t], owner[q := Free(k)][t], root, first, 1, true) {
      assert OwnerShrinks(owner[t], o1[t], root, first, 1, false);
    }
    forall r, u | IsRoot(owner, r) && 0 <= u < VPNS
      ensures Lookup(m1[q := page], r, u) == if r == root && Offset(u, first) < 1 then 0 else Lookup(m, r, u)
    {
      assert IsRoot(o1, r);
    }
  }
}
