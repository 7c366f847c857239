/** Sv39 page tables inside physical pages, as values: what a three-level tree of pages means and
    which changes of single entries keep it a tree. */
module PageTables {
  import opened LittleEndian

  const PGSIZE := 4096
  const PAGES := 0x88000
  const VPNS := 512 * 512 * 512

  type Page = p: seq<Byte> | |p| == PGSIZE witness seq(PGSIZE, (_: nat) => 0)

  /** Physical memory up to PHYSTOP, indexed by physical page number. */
  type Memory = m: seq<Page> | |m| == PAGES witness seq<Page>(PAGES, (_: nat) => ZeroPage())

  function ZeroPage(): Page { seq(PGSIZE, _ => 0) }

  // ---------- entries ----------

  /** The i-th 64-bit word of a page. */
  function Entry(p: Page, i: nat): nat
    requires i < 512
  {
    Get(p, 8, i)
  }

  function SetEntry(p: Page, i: nat, e: nat): Page
    requires i < 512
  {
    Set(p, 8, i, e)
  }

  lemma EntrySet(p: Page, i: nat, e: nat, j: nat)
    requires i < 512 && j < 512 && e < 0x1_0000_0000_0000_0000
    ensures Entry(SetEntry(p, i, e), j) == if i == j then e else Entry(p, j)
  {
    assert Pow256(8) == 0x1_0000_0000_0000_0000;
    GetSet(p, 8, i, e, j);
  }

  lemma ZeroEntry(i: nat)
    requires i < 512
    ensures Entry(ZeroPage(), i) == 0
  {
    ZeroValue(ZeroPage()[8 * i..8 * i + 8]);
  }

  /** An entry: a physical page and ten flags. */
  function Pte(page: nat, flags: nat): (e: nat)
    requires flags < 1024
    ensures Target(e) == page && Flags(e) == flags
  {
    page * 1024 + flags
  }

  function Target(e: nat): nat { e / 1024 }

  function Flags(e: nat): (f: nat)
    ensures f < 1024
  {
    e % 1024
  }

  predicate Valid(e: nat)
    ensures e == 0 ==> !Valid(e)
  {
    Flags(e) % 2 == 1
  }

  predicate User(e: nat)
    ensures User(e) ==> Valid(e)
  {
    Valid(e) && Flags(e) / 16 % 2 == 1
  }

  /** The entry that leads to table q. */
  function Link(q: nat): (e: nat)
    ensures Valid(e) && Target(e) == q && Flags(e) == 1
  {
    Pte(q, 1)
  }

  // ---------- the tree ----------

  /** b without its n low 9-bit digits. */
  function Prefix(b: nat, n: nat): nat
    decreases n
  {
    if n == 0 then b else Prefix(b, n - 1) / 512
  }

  /** The PX macro: the index that page number v selects in a table of height h. */
  function Px(v: nat, h: nat): (i: nat)
    requires h > 0
    ensures i < 512 && Prefix(v, h - 1) == Prefix(v, h) * 512 + i
  {
    Prefix(v, h - 1) % 512
  }

  /** The page of the lowest table for page number v, from table p of height h; -1 if there is
      none. */
  function Walk(m: Memory, p: nat, h: nat, v: nat): (q: int)
    requires p < PAGES
    ensures -1 <= q < PAGES
    decreases h
  {
    if h <= 1 then p
    else
      var e := Entry(m[p], Px(v, h));
      if Valid(e) && Target(e) < PAGES then Walk(m, Target(e), h - 1, v) else -1
  }

  /** The flat map of a table: the entry of page number v, 0 if there is none. */
  function Lookup(m: Memory, root: nat, v: nat): nat
    requires root < PAGES
  {
    var p := Walk(m, root, 3, v);
    if p < 0 then 0 else Entry(m[p], v % 512)
  }

  // ---------- who owns a page ----------

  /** A page is on the free list; or part of the tree under `root`, a table (of height 3 to 1) or
      a user page (height 0), hanging off page `up`, where `base` holds the digits of the page
      numbers that lead to it; or in somebody else's hands. */
  datatype Owner = Free(pos: nat) | Node(height: nat, root: nat, up: nat, base: nat) | Taken

  type Owners = o: seq<Owner> | |o| == PAGES witness seq<Owner>(PAGES, (_: nat) => Taken)

  predicate IsTable(owner: Owners, p: int) {
    0 <= p < PAGES && owner[p].Node? && owner[p].height > 0
  }

  predicate IsRoot(owner: Owners, p: int) {
    0 <= p < PAGES && owner[p].Node? && owner[p].height == 3
  }

  /** Entry i of table p is zero, or valid; one that leads to a table or a user page leads to a
      page that hangs off exactly this entry. */
  predicate EntryOk(m: Memory, owner: Owners, p: nat, i: nat)
    requires IsTable(owner, p) && i < 512
  {
    var e := Entry(m[p], i);
    var o := owner[p];
    || e == 0
    || (&& Valid(e)
        && (o.height > 1 ==> Flags(e) == 1)
        && (o.height > 1 || User(e) ==>
              Target(e) < PAGES && owner[Target(e)] == Node(o.height - 1, o.root, p, o.base * 512 + i)))
  }

  /** A page of a tree hangs off the entry that its owner says. */
  predicate NodeOk(m: Memory, owner: Owners, p: nat)
    requires p < PAGES && owner[p].Node?
  {
    var o := owner[p];
    if o.height == 3 then o.root == p && o.up == 0 && o.base == 0
    else
      && o.height < 3 && IsTable(owner, o.up)
      && owner[o.up].height == o.height + 1 && owner[o.up].root == o.root && owner[o.up].base == o.base / 512
      && var e := Entry(m[o.up], o.base % 512);
         Valid(e) && Target(e) == p && (o.height == 0 ==> User(e))
  }

  ghost predicate EntriesOk(m: Memory, owner: Owners) {
    forall p, i :: IsTable(owner, p) && 0 <= i < 512 ==> EntryOk(m, owner, p, i)
  }

  ghost predicate NodesOk(m: Memory, owner: Owners) {
    forall p :: 0 <= p < PAGES && owner[p].Node? ==> NodeOk(m, owner, p)
  }

  ghost predicate Trees(m: Memory, owner: Owners) {
    EntriesOk(m, owner) && NodesOk(m, owner)
  }

  // ---------- walks and owners agree ----------

  /** A walk ends at the table that its owner says serves v. */
  lemma {:induction false} WalkFinds(m: Memory, owner: Owners, p: nat, h: nat, v: nat)
    requires Trees(m, owner) && 1 <= h && IsTable(owner, p)
    requires owner[p].height == h && owner[p].base == Prefix(v, h)
    ensures var q := Walk(m, p, h, v);
            q >= 0 ==>
              && IsTable(owner, q) && owner[q].height == 1
              && owner[q].root == owner[p].root && owner[q].base == v / 512
    decreases h
  {
    hide Entry;
    if h > 1 {
      assert EntryOk(m, owner, p, Px(v, h));
      var e := Entry(m[p], Px(v, h));
      if Valid(e) && Target(e) < PAGES {
        WalkFinds(m, owner, Target(e), h - 1, v);
      }
    } else {
      assert Prefix(v, 1) == Prefix(v, 0) / 512;
    }
  }

  /** The walk from the root passes through every table that serves v. */
  lemma {:induction false} WalkPasses(m: Memory, owner: Owners, p: nat, v: nat)
    requires Trees(m, owner) && v < VPNS && IsTable(owner, p) && owner[p].base == Prefix(v, owner[p].height)
    ensures owner[p].height <= 3 && IsRoot(owner, owner[p].root)
    ensures Walk(m, owner[p].root, 3, v) == Walk(m, p, owner[p].height, v)
    decreases 3 - owner[p].height
  {
    hide Entry;
    assert NodeOk(m, owner, p);
    var h := owner[p].height;
    if h < 3 {
      var up := owner[p].up;
      assert owner[up].base == Prefix(v, h + 1);
      WalkPasses(m, owner, up, v);
      assert Px(v, h + 1) == owner[p].base % 512;
    }
  }

  lemma RootServesAll(v: nat)
    requires v < VPNS
    ensures Prefix(v, 3) == 0
  {
    assert Prefix(v, 1) == v / 512;
    assert Prefix(v, 2) == v / 512 / 512;
  }

  /** Two pages of the same place in the same tree are the same page. */
  lemma {:induction false} PlaceIsUnique(m: Memory, owner: Owners, p: nat, q: nat)
    requires Trees(m, owner) && p < PAGES && q < PAGES && owner[p].Node? && owner[q].Node?
    requires owner[p].height == owner[q].height && owner[p].root == owner[q].root && owner[p].base == owner[q].base
    ensures p == q
    decreases 3 - owner[p].height
  {
    hide Entry;
    assert NodeOk(m, owner, p) && NodeOk(m, owner, q);
    if owner[p].height < 3 {
      PlaceIsUnique(m, owner, owner[p].up, owner[q].up);
    }
  }

  // ---------- changes ----------

  /** Every table has the entries it had. */
  ghost predicate SameTables(m: Memory, m': Memory, owner: Owners) {
    forall p :: IsTable(owner, p) ==> m'[p] == m[p]
  }

  /** Every flat map is what it was. */
  ghost predicate SameMaps(m: Memory, owner: Owners, m': Memory) {
    forall r, v :: IsRoot(owner, r) && 0 <= v < VPNS ==> Lookup(m', r, v) == Lookup(m, r, v)
  }

  lemma {:induction false} WalkKept(m: Memory, m': Memory, owner: Owners, p: nat, h: nat, v: nat)
    requires Trees(m, owner) && IsTable(owner, p) && owner[p].height == h
    requires forall q :: IsTable(owner, q) && owner[q].height > 1 ==> m'[q] == m[q]
    ensures Walk(m', p, h, v) == Walk(m, p, h, v)
    decreases h
  {
    hide Entry;
    if h > 1 {
      assert EntryOk(m, owner, p, Px(v, h));
      var e := Entry(m[p], Px(v, h));
      if Valid(e) && Target(e) < PAGES {
        WalkKept(m, m', owner, Target(e), h - 1, v);
      }
    }
  }

  /** Writing pages that are not tables changes no tree and no map. */
  lemma OtherPages(m: Memory, m': Memory, owner: Owners)
    requires Trees(m, owner) && SameTables(m, m', owner)
    ensures Trees(m', owner) && SameMaps(m, owner, m')
  {
    hide Entry;
    forall p, i | IsTable(owner, p) && 0 <= i < 512 ensures EntryOk(m', owner, p, i) {
      assert EntryOk(m, owner, p, i);
    }
    forall p | 0 <= p < PAGES && owner[p].Node? ensures NodeOk(m', owner, p) {
      assert NodeOk(m, owner, p);
    }
    forall r, v | IsRoot(owner, r) && 0 <= v < VPNS ensures Lookup(m', r, v) == Lookup(m, r, v) {
      WalkKept(m, m', owner, r, 3, v);
      RootServesAll(v);
      assert NodeOk(m, owner, r);
      WalkFinds(m, owner, r, 3, v);
    }
  }

  /** A page changes hands between the free list and anybody's: no tree notices. */
  lemma OtherOwners(m: Memory, owner: Owners, p: nat, o: Owner)
    requires Trees(m, owner) && p < PAGES && !owner[p].Node? && !o.Node?
    ensures Trees(m, owner[p := o])
  {
    hide Entry;
    var owner' := owner[p := o];
    forall q, i | IsTable(owner', q) && 0 <= i < 512 ensures EntryOk(m, owner', q, i) {
      assert EntryOk(m, owner, q, i);
    }
    forall q | 0 <= q < PAGES && owner'[q].Node? ensures NodeOk(m, owner', q) {
      assert NodeOk(m, owner, q);
    }
  }

  // ---------- a new lower table ----------

  /** Memory and owners after an empty page q is hung as a table into the empty entry i of p. */
  function Hung(m: Memory, p: nat, i: nat, q: nat): Memory
    requires p < PAGES && i < 512 && q < PAGES
  {
    m[p := SetEntry(m[p], i, Link(q))]
  }

  function HungOwner(owner: Owners, p: nat, i: nat, q: nat): Owners
    requires q < PAGES && IsTable(owner, p)
  {
    owner[q := Node(owner[p].height - 1, owner[p].root, p, owner[p].base * 512 + i)]
  }

  lemma LinkFits(q: nat)
    requires q < PAGES
    ensures Link(q) < 0x1_0000_0000_0000_0000
  {}

  /** The conditions under which a table is hung. */
  ghost predicate CanHang(m: Memory, owner: Owners, p: nat, i: nat, q: nat) {
    && Trees(m, owner) && IsTable(owner, p) && owner[p].height > 1 && i < 512
    && q < PAGES && owner[q].Taken? && m[q] == ZeroPage() && Entry(m[p], i) == 0
  }

  lemma HungEntries(m: Memory, owner: Owners, p: nat, i: nat, q: nat)
    requires CanHang(m, owner, p, i, q)
    ensures EntriesOk(Hung(m, p, i, q), HungOwner(owner, p, i, q))
  {
    hide Entry, SetEntry, Valid, Target;
    LinkFits(q);
    var m', owner' := Hung(m, p, i, q), HungOwner(owner, p, i, q);
    forall t, j | IsTable(owner', t) && 0 <= j < 512 ensures EntryOk(m', owner', t, j) {
      if t == q {
        ZeroEntry(j);
      } else {
        EntrySet(m[p], i, Link(q), j);
        assert EntryOk(m, owner, t, j);
      }
    }
  }

  lemma HungNodes(m: Memory, owner: Owners, p: nat, i: nat, q: nat)
    requires CanHang(m, owner, p, i, q)
    ensures NodesOk(Hung(m, p, i, q), HungOwner(owner, p, i, q))
  {
    hide Entry, SetEntry, Valid, Target, User;
    LinkFits(q);
    var m', owner' := Hung(m, p, i, q), HungOwner(owner, p, i, q);
    assert NodeOk(m, owner, p);
    forall t | 0 <= t < PAGES && owner'[t].Node? ensures NodeOk(m', owner', t) {
      if t == q {
        EntrySet(m[p], i, Link(q), i);
      } else {
        assert NodeOk(m, owner, t);
        EntrySet(m[p], i, Link(q), owner[t].base % 512);
      }
    }
  }

  /** The entry reached from table t, of any height. */
  function Below(m: Memory, t: nat, h: nat, v: nat): nat
    requires t < PAGES
  {
    var p := Walk(m, t, h, v);
    if p < 0 then 0 else Entry(m[p], v % 512)
  }

  lemma {:induction false} EmptyBelow(m: Memory, q: nat, h: nat, v: nat)
    requires q < PAGES && m[q] == ZeroPage()
    ensures Below(m, q, h, v) == 0
  {
    hide Entry;
    if h > 1 {
      ZeroEntry(Px(v, h));
    } else {
      ZeroEntry(v % 512);
    }
  }

  lemma {:induction false} HungBelow(m: Memory, owner: Owners, p: nat, i: nat, q: nat, t: nat, h: nat, v: nat)
    requires CanHang(m, owner, p, i, q) && IsTable(owner, t) && owner[t].height == h
    ensures Below(Hung(m, p, i, q), t, h, v) == Below(m, t, h, v)
    decreases h
  {
    hide Entry, SetEntry;
    LinkFits(q);
    var m' := Hung(m, p, i, q);
    var j := if h > 1 then Px(v, h) else v % 512;
    EntrySet(m[p], i, Link(q), j);
    if h > 1 {
      var e := Entry(m[t], j);
      if t == p && j == i {
        assert Entry(m'[t], j) == Link(q);
        EmptyBelow(m', q, h - 1, v);
      } else {
        assert EntryOk(m, owner, t, j);
        if Valid(e) && Target(e) < PAGES {
          HungBelow(m, owner, p, i, q, Target(e), h - 1, v);
        }
      }
    }
  }

  /** Allocating a lower table changes no translation. */
  lemma HangKeepsMaps(m: Memory, owner: Owners, p: nat, i: nat, q: nat)
    requires CanHang(m, owner, p, i, q)
    ensures SameMaps(m, owner, Hung(m, p, i, q))
  {
    forall r, v | IsRoot(owner, r) && 0 <= v < VPNS ensures Lookup(Hung(m, p, i, q), r, v) == Lookup(m, r, v) {
      HungBelow(m, owner, p, i, q, r, 3, v);
    }
  }

  // ---------- a lowest-level entry ----------

  /** The owners after entry i of lowest table p becomes e: the user page it led to is dropped,
      the one it leads to is adopted. */
  function Dropped(owner: Owners, e: nat): Owners {
    if User(e) && Target(e) < PAGES then owner[Target(e) := Taken] else owner
  }

  function Adopted(owner: Owners, p: nat, i: nat, e: nat): Owners
    requires IsTable(owner, p)
  {
    if User(e) && Target(e) < PAGES then
      owner[Target(e) := Node(0, owner[p].root, p, owner[p].base * 512 + i)]
    else owner
  }

  function Stored(m: Memory, p: nat, i: nat, e: nat): Memory
    requires p < PAGES && i < 512
  {
    m[p := SetEntry(m[p], i, e)]
  }

  /** Writing one lowest-level entry changes exactly one page number of one map. */
  lemma StoreChangesOne(m: Memory, owner: Owners, p: nat, i: nat, e: nat, r: nat, v: nat)
    requires Trees(m, owner) && IsTable(owner, p) && owner[p].height == 1 && i < 512
    requires e < 0x1_0000_0000_0000_0000 && IsRoot(owner, r) && v < VPNS
    ensures Lookup(Stored(m, p, i, e), r, v) ==
            if r == owner[p].root && v == owner[p].base * 512 + i then e else Lookup(m, r, v)
  {
    hide Entry, SetEntry;
    var m' := Stored(m, p, i, e);
    assert NodeOk(m, owner, r);
    RootServesAll(v);
    WalkFinds(m, owner, r, 3, v);
    WalkKept(m, m', owner, r, 3, v);
    EntrySet(m[p], i, e, v % 512);
    if r == owner[p].root && v == owner[p].base * 512 + i {
      assert Prefix(v, 1) == Prefix(v, 0) / 512;
      WalkPasses(m, owner, p, v);
    }
  }

  /** Filling an empty entry. A user page must be nobody's yet. */
  lemma FillKeeps(m: Memory, owner: Owners, p: nat, i: nat, e: nat)
    requires Trees(m, owner) && IsTable(owner, p) && owner[p].height == 1 && i < 512
    requires Entry(m[p], i) == 0 && Valid(e) && e < 0x1_0000_0000_0000_0000
    requires User(e) ==> Target(e) < PAGES && owner[Target(e)].Taken?
    ensures Trees(Stored(m, p, i, e), Adopted(owner, p, i, e))
  {
    hide Entry, SetEntry;
    var m', owner' := Stored(m, p, i, e), Adopted(owner, p, i, e);
    forall t, j | IsTable(owner', t) && 0 <= j < 512 ensures EntryOk(m', owner', t, j) {
      EntrySet(m[p], i, e, j);
      assert EntryOk(m, owner, t, j);
    }
    forall t | 0 <= t < PAGES && owner'[t].Node? ensures NodeOk(m', owner', t) {
      EntrySet(m[p], i, e, owner'[t].base % 512);
      if owner[t].Node? {
        assert NodeOk(m, owner, t);
      }
    }
  }

  /** Clearing an entry. */
  lemma ClearKeeps(m: Memory, owner: Owners, p: nat, i: nat)
    requires Trees(m, owner) && IsTable(owner, p) && owner[p].height == 1 && i < 512
    ensures Trees(Stored(m, p, i, 0), Dropped(owner, Entry(m[p], i)))
  {
    hide Entry, SetEntry;
    var e := Entry(m[p], i);
    var m', owner' := Stored(m, p, i, 0), Dropped(owner, e);
    assert EntryOk(m, owner, p, i);
    forall t, j | IsTable(owner', t) && 0 <= j < 512 ensures EntryOk(m', owner', t, j) {
      EntrySet(m[p], i, 0, j);
      assert EntryOk(m, owner, t, j);
    }
    forall t | 0 <= t < PAGES && owner'[t].Node? ensures NodeOk(m', owner', t) {
      EntrySet(m[p], i, 0, owner[t].base % 512);
      assert NodeOk(m, owner, t);
    }
  }
}
