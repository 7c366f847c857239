/** The inode cache with its reference counts, and walking paths through directories. */
module Namespace {
  import opened Lists
  import opened Directories
  import opened LinkCounts
  import opened Paths

  const NINODE := 100

  /** An entry of the inode cache. */
  datatype Entry = Entry(inum: nat, ref: nat, valid: bool)

  type Cache = c: seq<Entry> | |c| == NINODE witness seq<Entry>(NINODE, (_: nat) => Entry(0, 0, false))

  /** At most one referenced entry per inode. */
  ghost predicate CacheOk(c: Cache) {
    forall k, l :: 0 <= k < NINODE && 0 <= l < NINODE && c[k].ref > 0 && c[l].ref > 0 && c[k].inum == c[l].inum ==>
      k == l
  }

  /** The references to inode i held by the first n entries. */
  function Refs(c: Cache, i: nat, n: nat): nat
    requires n <= NINODE
  {
    if n == 0 then 0 else Refs(c, i, n - 1) + if c[n - 1].inum == i then c[n - 1].ref else 0
  }

  lemma {:induction false} RefsChange(c: Cache, k: nat, e: Entry, i: nat, n: nat)
    requires k < NINODE && n <= NINODE
    ensures Refs(c[k := e], i, n) == Refs(c, i, n) +
            if k < n then (if e.inum == i then e.ref else 0) - (if c[k].inum == i then c[k].ref else 0) else 0
  {
    if n > 0 {
      RefsChange(c, k, e, i, n - 1);
    }
  }

  lemma {:induction false} RefsAlone(c: Cache, k: nat, n: nat)
    requires CacheOk(c) && n <= NINODE && k < NINODE && c[k].ref > 0
    ensures Refs(c, c[k].inum, n) == if k < n then c[k].ref else 0
  {
    if n > 0 {
      RefsAlone(c, k, n - 1);
    }
  }

  lemma {:induction false} RefsSome(c: Cache, i: nat, n: nat)
    requires n <= NINODE && Refs(c, i, n) > 0
    ensures exists k :: 0 <= k < n && c[k].inum == i && c[k].ref > 0
  {
    if !(c[n - 1].inum == i && c[n - 1].ref > 0) {
      RefsSome(c, i, n - 1);
    }
  }

  /** The references change by one of `up` and one of `down`, if these are inodes. */
  ghost predicate RefsMove(c: Cache, c': Cache, up: int, down: int) {
    forall i: nat ::
      Refs(c', i, NINODE) == Refs(c, i, NINODE) + (if i == up then 1 else 0) - (if i == down then 1 else 0)
  }

  /** The inodes that the first n entries refer to. */
  ghost function ReferencedBy(c: Cache, n: nat): set<nat>
    requires n <= NINODE
  {
    set k | 0 <= k < n && c[k].ref > 0 :: c[k].inum
  }

  ghost function Referenced(c: Cache): set<nat> { ReferencedBy(c, NINODE) }

  /** The cache has room for n inodes that nobody refers to yet. */
  ghost predicate Room(c: Cache, n: int) { |Referenced(c)| + n <= NINODE }

  lemma {:induction false} AllInUse(c: Cache, n: nat)
    requires CacheOk(c) && n <= NINODE && forall k :: 0 <= k < NINODE ==> c[k].ref > 0
    ensures |ReferencedBy(c, n)| == n
  {
    if n == 0 {
      assert ReferencedBy(c, 0) == {};
    } else {
      AllInUse(c, n - 1);
      assert c[n - 1].inum !in ReferencedBy(c, n - 1);
      assert ReferencedBy(c, n) == ReferencedBy(c, n - 1) + {c[n - 1].inum};
    }
  }

  /** iget panics only when the cache has no room. */
  lemma FullHasNoRoom(c: Cache)
    requires CacheOk(c) && forall k :: 0 <= k < NINODE ==> c[k].ref > 0
    ensures !Room(c, 1)
  {
    AllInUse(c, NINODE);
  }

  /** Whatever is referenced now, beyond `more`, was referenced before. */
  lemma RoomLeft(c0: Cache, c: Cache, more: set<nat>)
    requires CacheOk(c) && forall i: nat :: Refs(c, i, NINODE) > 0 ==> Refs(c0, i, NINODE) > 0 || i in more
    ensures |Referenced(c)| <= |Referenced(c0)| + |more|
  {
    forall i | i in Referenced(c) ensures i in Referenced(c0) + more {
      var k :| 0 <= k < NINODE && c[k].ref > 0 && c[k].inum == i;
      RefsAlone(c, k, NINODE);
      if i !in more {
        RefsSome(c0, i, NINODE);
      }
    }
    SubsetSize(Referenced(c), Referenced(c0) + more);
  }

  lemma RoomForOneLess(c0: Cache, c: Cache, i: int)
    requires CacheOk(c) && RefsMove(c0, c, i, -1)
    ensures |Referenced(c)| <= |Referenced(c0)| + 1
  {
    hide Referenced, Refs;
    RoomLeft(c0, c, if i >= 0 then {i as nat} else {});
  }

  // ---------- what a path means ----------

  /** An inode that may be walked to. */
  predicate Live(t: Tree, i: nat) {
    0 < i < NINODES && t[i].kind != Unused && (i == ROOTINO || t[i].nlink > 0)
  }

  /** Everything that a reachable directory names is live. */
  ghost predicate Safe(t: Tree) {
    && t[ROOTINO].kind == Dir
    && forall d, k :: 0 < d < NINODES && Linked(t[d], d) && 0 <= k < |t[d].slots| && t[d].slots[k].inum != 0 ==>
         Live(t, t[d].slots[k].inum)
  }

  lemma TreesAreSafe(t: Tree)
    requires TreeOk(t)
    ensures Safe(t)
  {
    hide Ord, Sub, CountOk, Unique, SlotOk, Live, DirOk;
    forall d, k | 0 < d < NINODES && Linked(t[d], d) && 0 <= k < |t[d].slots| && t[d].slots[k].inum != 0
      ensures Live(t, t[d].slots[k].inum)
    {
      NamedIsLive(t, d, k);
    }
  }

  lemma NamedIsLive(t: Tree, d: nat, k: nat)
    requires TreeOk(t) && 0 < d < NINODES && Linked(t[d], d) && k < |t[d].slots| && t[d].slots[k].inum != 0
    ensures Live(t, t[d].slots[k].inum)
  {
    hide Ord, Sub, CountOk, Unique, SlotOk;
    assert DirOk(t, d);
    if k >= 2 {
      NamedHasLinks(t, d, k);
    }
  }

  /** Following names from inode i; 0 where a name is missing or something is not a directory. */
  function WalkTo(t: Tree, i: nat, names: seq<string>): nat
    requires i < NINODES
    decreases |names|
  {
    if |names| == 0 then i
    else if t[i].kind != Dir then 0
    else
      var j := Lookup(t[i].slots, names[0]);
      if 0 < j < NINODES then WalkTo(t, j, names[1..]) else 0
  }

  /** The directory that holds the last of the names. */
  function ParentOf(t: Tree, i: nat, names: seq<string>): nat
    requires i < NINODES
    decreases |names|
  {
    if |names| == 0 || t[i].kind != Dir then 0
    else if |names| == 1 then i
    else
      var j := Lookup(t[i].slots, names[0]);
      if 0 < j < NINODES then ParentOf(t, j, names[1..]) else 0
  }

  /** It is what all but the last name lead to, if that is a directory. */
  lemma {:induction false} ParentIsWalk(t: Tree, i: nat, names: seq<string>)
    requires i < NINODES && t[0].kind == Unused
    ensures ParentOf(t, i, names) ==
            if |names| == 0 then 0
            else var d := WalkTo(t, i, names[..|names| - 1]); if d < NINODES && t[d].kind == Dir then d else 0
    decreases |names|
  {
    if |names| > 1 && t[i].kind == Dir {
      var j := Lookup(t[i].slots, names[0]);
      assert names[..|names| - 1][1..] == names[1..][..|names| - 2];
      if 0 < j < NINODES {
        ParentIsWalk(t, j, names[1..]);
      }
    }
  }

  /** Walking looks at kinds and entries only. */
  lemma {:induction false} SameWalk(t: Tree, t': Tree, i: nat, names: seq<string>)
    requires i < NINODES && forall j :: 0 <= j < NINODES ==> t'[j].kind == t[j].kind && t'[j].slots == t[j].slots
    ensures WalkTo(t', i, names) == WalkTo(t, i, names) && ParentOf(t', i, names) == ParentOf(t, i, names)
    decreases |names|
  {
    if |names| > 0 && t[i].kind == Dir {
      var j := Lookup(t[i].slots, names[0]);
      if 0 < j < NINODES {
        SameWalk(t, t', j, names[1..]);
      }
    }
  }

  lemma LookupIsLive(t: Tree, d: nat, name: string)
    requires Safe(t) && Live(t, d) && t[d].kind == Dir
    ensures var j := Lookup(t[d].slots, name); j != 0 ==> Live(t, j)
  {}

  class Inodes {
    var tree: Tree
    var cache: Cache

    /** An empty cache over a file system. */
    constructor (t: Tree)
      ensures tree == t && CacheOk(cache) && forall k :: 0 <= k < NINODE ==> cache[k].ref == 0
    {
      tree, cache := t, seq(NINODE, _ => Entry(0, 0, false));
    }

    /** iget: the entry of inode i with one more reference; -1 stands for the panic when the cache
        is full. */
    method IGet(i: nat) returns (k: int)
      requires CacheOk(cache) && 0 < i < NINODES
      modifies this`cache
      ensures CacheOk(cache) && -1 <= k < NINODE
      ensures k == -1 ==> cache == old(cache) && (forall l :: 0 <= l < NINODE ==> cache[l].ref > 0)
      ensures k >= 0 ==> cache[k].inum == i && cache[k].ref > 0 && RefsMove(old(cache), cache, i, -1)
      ensures k >= 0 ==> cache == old(cache)[k := cache[k]] && (old(cache)[k].ref > 0 ==> old(cache)[k].inum == i)
      ensures k >= 0 ==> cache[k].ref == old(cache)[k].ref + 1
      ensures k >= 0 && old(cache)[k].ref > 0 ==> cache[k].valid == old(cache)[k].valid
    {
      var empty := -1;
      for l := 0 to NINODE
        invariant cache == old(cache) && -1 <= empty < l
        invariant forall m :: 0 <= m < l ==> !(cache[m].ref > 0 && cache[m].inum == i)
        invariant if empty == -1 then forall m :: 0 <= m < l ==> cache[m].ref > 0 else cache[empty].ref == 0
      {
        if cache[l].ref > 0 && cache[l].inum == i {
          Bumped(cache, l);
          cache := cache[l := cache[l].(ref := cache[l].ref + 1)];
          return l;
        }
        if empty == -1 && cache[l].ref == 0 { empty := l; }
      }
      if empty == -1 { return -1; }
      Claimed(cache, empty, i);
      cache := cache[empty := Entry(i, 1, false)];
      return empty;
    }

    /** idup. */
    method IDup(k: nat)
      requires CacheOk(cache) && k < NINODE && cache[k].ref > 0
      modifies this`cache
      ensures CacheOk(cache) && cache == old(cache)[k := old(cache)[k].(ref := old(cache)[k].ref + 1)]
      ensures RefsMove(old(cache), cache, cache[k].inum, -1)
    {
      Bumped(cache, k);
      cache := cache[k := cache[k].(ref := cache[k].ref + 1)];
    }

    /** ilock: false stands for its panics. */
    method ILock(k: nat) returns (ok: bool)
      requires CacheOk(cache) && k < NINODE && 0 < cache[k].inum < NINODES
      modifies this`cache
      ensures ok ==> cache == old(cache)[k := old(cache)[k].(valid := true)]
      ensures !ok ==> old(cache)[k].ref == 0 || tree[old(cache)[k].inum].kind == Unused
      ensures CacheOk(cache) && RefsMove(old(cache), cache, -1, -1)
    {
      ghost var c := cache;
      RefsStay(cache, k, true);
      if cache[k].ref < 1 { return false; }
      if !cache[k].valid {
        cache := cache[k := cache[k].(valid := true)];
        if tree[cache[k].inum].kind == Unused { return false; }
      }
      assert cache == c[k := c[k].(valid := true)];
      return true;
    }

    /** iput: one reference less; the last one to an inode without links frees the inode. */
    method IPut(k: nat)
      requires CacheOk(cache) && k < NINODE && cache[k].ref > 0 && 0 < cache[k].inum < NINODES
      modifies this
      ensures CacheOk(cache) && RefsMove(old(cache), cache, -1, old(cache)[k].inum)
      ensures cache == old(cache)[k := cache[k]] && cache[k].inum == old(cache)[k].inum
      ensures cache[k].ref == old(cache)[k].ref - 1 && (cache[k].ref > 0 ==> cache[k].valid == old(cache)[k].valid)
      ensures var i := cache[k].inum;
              tree == if i != ROOTINO && old(cache)[k].ref == 1 && old(cache)[k].valid && old(tree)[i].nlink == 0
                      then old(tree)[i := BLANK] else old(tree)
    {
      Dropped(cache, k, true);
      Dropped(cache, k, false);
      ghost var c := cache;
      var i := cache[k].inum;
      if i == ROOTINO && cache[k].ref == 1 {
        cache := cache[k := cache[k].(ref := 0)];
        return;
      }
      if cache[k].ref == 1 && cache[k].valid && tree[i].nlink == 0 {
        tree := tree[i := BLANK];
        cache := cache[k := cache[k].(valid := false)];
      }
      cache := cache[k := cache[k].(ref := cache[k].ref - 1)];
      assert cache == c[k := Entry(i, c[k].ref - 1, c[k].valid)] || cache == c[k := Entry(i, c[k].ref - 1, false)];
    }
  }

  lemma Bumped(c: Cache, k: nat)
    requires CacheOk(c) && k < NINODE && c[k].ref > 0
    ensures var c' := c[k := c[k].(ref := c[k].ref + 1)]; CacheOk(c') && RefsMove(c, c', c[k].inum, -1)
  {
    var c' := c[k := c[k].(ref := c[k].ref + 1)];
    forall i: nat ensures Refs(c', i, NINODE) == Refs(c, i, NINODE) + if i == c[k].inum then 1 else 0 {
      RefsChange(c, k, c'[k], i, NINODE);
    }
  }

  lemma Claimed(c: Cache, k: nat, i: nat)
    requires CacheOk(c) && k < NINODE && c[k].ref == 0
    requires forall m :: 0 <= m < NINODE ==> !(c[m].ref > 0 && c[m].inum == i)
    ensures var c' := c[k := Entry(i, 1, false)]; CacheOk(c') && RefsMove(c, c', i, -1)
  {
    var c' := c[k := Entry(i, 1, false)];
    forall j: nat ensures Refs(c', j, NINODE) == Refs(c, j, NINODE) + if j == i then 1 else 0 {
      RefsChange(c, k, c'[k], j, NINODE);
    }
  }

  lemma RefsStay(c: Cache, k: nat, v: bool)
    requires CacheOk(c) && k < NINODE
    ensures var c' := c[k := c[k].(valid := v)]; CacheOk(c') && RefsMove(c, c', -1, -1) && RefsMove(c, c, -1, -1)
  {
    var c' := c[k := c[k].(valid := v)];
    forall i: nat ensures Refs(c', i, NINODE) == Refs(c, i, NINODE) {
      RefsChange(c, k, c'[k], i, NINODE);
    }
  }

  lemma Dropped(c: Cache, k: nat, v: bool)
    requires CacheOk(c) && k < NINODE && c[k].ref > 0
    ensures var c' := c[k := Entry(c[k].inum, c[k].ref - 1, if v then c[k].valid else false)];
            CacheOk(c') && RefsMove(c, c', -1, c[k].inum)
  {
    var c' := c[k := Entry(c[k].inum, c[k].ref - 1, if v then c[k].valid else false)];
    forall i: nat ensures Refs(c', i, NINODE) == Refs(c, i, NINODE) - if i == c[k].inum then 1 else 0 {
      RefsChange(c, k, c'[k], i, NINODE);
    }
  }
}
