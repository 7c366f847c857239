/** Directories and link counts: what a file-system tree is, and what adding and removing entries
    does to it. */
module Directories {
  import Blocks
  import Layout

  const NINODES := Layout.NINODES
  const ROOTINO := 1
  const DIRSIZ := 14

  datatype Kind = Unused | Dir | File

  /** A directory entry; inode number 0 marks a free slot. */
  datatype Dirent = Dirent(inum: nat, name: string)

  const EMPTY := Dirent(0, "")

  /** An inode: its kind, its link count, and the slots of a directory. */
  datatype Node = Node(kind: Kind, nlink: int, slots: seq<Dirent>)

  const BLANK := Node(Unused, 0, [])

  type Tree = t: seq<Node> | |t| == NINODES witness seq<Node>(NINODES, (_: nat) => BLANK)

  /** A directory that can be reached: the root, or one with links. */
  predicate Linked(x: Node, d: nat) {
    x.kind == Dir && (d == ROOTINO || x.nlink > 0)
  }

  // ---------- a directory as a finite map ----------

  /** The first slot from k on that holds the name; -1 if none does. */
  function Find(slots: seq<Dirent>, name: string, k: nat): (r: int)
    requires k <= |slots|
    ensures r == -1 || k <= r < |slots|
    ensures r >= 0 ==> slots[r].inum != 0 && slots[r].name == name
    ensures forall j :: k <= j < (if r == -1 then |slots| else r) ==> slots[j].inum == 0 || slots[j].name != name
    decreases |slots| - k
  {
    if k == |slots| then -1
    else if slots[k].inum != 0 && slots[k].name == name then k
    else Find(slots, name, k + 1)
  }

  /** Two entries in use with one name. */
  predicate SameName(d: Dirent, e: Dirent) { d.inum != 0 && e.inum != 0 && d.name == e.name }

  /** No name twice. */
  ghost predicate Unique(slots: seq<Dirent>) {
    forall k, l :: 0 <= k < |slots| && 0 <= l < |slots| && SameName(slots[k], slots[l]) ==> k == l
  }

  /** The finite map of a directory: the inode number of a name, 0 for a name that is not there. */
  function Lookup(slots: seq<Dirent>, name: string): nat {
    var k := Find(slots, name, 0);
    if k == -1 then 0 else slots[k].inum
  }

  /** Wherever a name stands, that is what it maps to. */
  lemma StandsFor(slots: seq<Dirent>, k: nat)
    requires Unique(slots) && k < |slots| && slots[k].inum != 0
    ensures Find(slots, slots[k].name, 0) == k && Lookup(slots, slots[k].name) == slots[k].inum
  {}

  /** The first free slot, or the end. */
  function FreeSlot(slots: seq<Dirent>, k: nat): (r: nat)
    requires k <= |slots|
    ensures k <= r <= |slots| && (r < |slots| ==> slots[r].inum == 0)
    ensures forall j :: k <= j < r ==> slots[j].inum != 0
    decreases |slots| - k
  {
    if k == |slots| then k else if slots[k].inum == 0 then k else FreeSlot(slots, k + 1)
  }

  /** The bytes of an entry on disk: an eight-byte inode number and the name, rounded up. */
  const ENTRY := 24

  /** No slot is free, and one more entry would exceed the largest file. */
  predicate NoSlot(slots: seq<Dirent>) {
    FreeSlot(slots, 0) == |slots| && (|slots| + 1) * ENTRY > Layout.MAXFILE * Blocks.BSIZE
  }

  /** The blocks that slot k of a directory of n slots needs when it is written. */
  function EntryCost(n: nat, k: nat): int { Layout.Needs(ENTRY * n, ENTRY * k, ENTRY) }

  /** The blocks that one more name in a directory needs. */
  function NameCost(slots: seq<Dirent>): int { EntryCost(|slots|, FreeSlot(slots, 0)) }

  /** There is no place for one more name, with so many blocks free and some wanted besides. */
  predicate NoPlace(slots: seq<Dirent>, free: int, besides: nat) {
    NoSlot(slots) || free < NameCost(slots) + besides
  }

  /** dirlink's write: into the first free slot, or at the end. */
  function Put(slots: seq<Dirent>, name: string, inum: nat): (r: seq<Dirent>) {
    var k := FreeSlot(slots, 0);
    if k < |slots| then slots[k := Dirent(inum, name)] else slots + [Dirent(inum, name)]
  }

  /** Two directories with the same entry for a name, or none, map it alike. */
  lemma SameLookup(s: seq<Dirent>, r: seq<Dirent>, name: string)
    requires Unique(s) && Unique(r)
    requires forall k :: 0 <= k < |s| && s[k].inum != 0 && s[k].name == name ==> k < |r| && r[k] == s[k]
    requires forall k :: 0 <= k < |r| && r[k].inum != 0 && r[k].name == name ==> k < |s| && s[k] == r[k]
    ensures Lookup(r, name) == Lookup(s, name)
  {
    var k := Find(s, name, 0);
    if k >= 0 {
      StandsFor(r, k);
    }
  }

  /** Adding a new name extends the map by exactly that name. */
  lemma PutIsInsert(slots: seq<Dirent>, name: string, inum: nat, n: string)
    requires Unique(slots) && Find(slots, name, 0) == -1 && inum != 0
    ensures Unique(Put(slots, name, inum))
    ensures Lookup(Put(slots, name, inum), n) == if n == name then inum else Lookup(slots, n)
  {
    hide Find, FreeSlot, Lookup;
    var r, at := Put(slots, name, inum), FreeSlot(slots, 0);
    assert r[at] == Dirent(inum, name);
    assert forall k :: 0 <= k < |r| && k != at ==> k < |slots| && r[k] == slots[k];
    if n == name {
      StandsFor(r, at);
    } else {
      SameLookup(slots, r, n);
    }
  }

  /** Clearing a slot removes exactly its name. */
  lemma ClearIsRemove(slots: seq<Dirent>, k: nat, n: string)
    requires Unique(slots) && k < |slots| && slots[k].inum != 0
    ensures Unique(slots[k := EMPTY])
    ensures Lookup(slots[k := EMPTY], n) == if n == slots[k].name then 0 else Lookup(slots, n)
  {
    var r := slots[k := EMPTY];
    if n == slots[k].name {
      assert Find(r, n, 0) == -1;
    } else {
      SameLookup(slots, r, n);
    }
  }

  // ---------- counting entries ----------

  /** Entries beyond the two dots, among the first n slots, that name inode i. */
  function Entries(slots: seq<Dirent>, i: nat, n: nat): nat
    requires n <= |slots|
  {
    if n <= 2 then 0 else Entries(slots, i, n - 1) + if slots[n - 1].inum == i then 1 else 0
  }

  lemma {:induction false} EntriesPut(slots: seq<Dirent>, i: nat, n: nat, k: nat, e: Dirent)
    requires 2 <= k < |slots| && n <= |slots|
    ensures Entries(slots[k := e], i, n) ==
            Entries(slots, i, n) + if k < n then (if e.inum == i then 1 else 0) - (if slots[k].inum == i then 1
              else 0) else 0
  {
    if n > 2 {
      EntriesPut(slots, i, n - 1, k, e);
    }
  }

  lemma {:induction false} EntriesPrefix(slots: seq<Dirent>, more: seq<Dirent>, i: nat, n: nat)
    requires n <= |slots|
    ensures Entries(slots + more, i, n) == Entries(slots, i, n)
  {
    if n > 2 {
      EntriesPrefix(slots, more, i, n - 1);
    }
  }

  lemma {:induction false} EntriesPositive(slots: seq<Dirent>, i: nat, n: nat, k: nat)
    requires 2 <= k < n <= |slots| && slots[k].inum == i
    ensures Entries(slots, i, n) >= 1
  {
    if k < n - 1 {
      EntriesPositive(slots, i, n - 1, k);
    }
  }

  lemma {:induction false} EntriesZero(slots: seq<Dirent>, i: nat, n: nat)
    requires n <= |slots| && forall k :: 2 <= k < n ==> slots[k].inum != i
    ensures Entries(slots, i, n) == 0
  {
    if n > 2 {
      EntriesZero(slots, i, n - 1);
    }
  }

  /** What directory d contributes to the entries, and to the ".." entries, that name inode i. */
  function Named(x: Node, d: nat, i: nat): nat {
    if Linked(x, d) then Entries(x.slots, i, |x.slots|) else 0
  }

  function Upward(x: Node, d: nat, i: nat): nat {
    if d != ROOTINO && Linked(x, d) && |x.slots| >= 2 && x.slots[1].inum == i then 1 else 0
  }

  function Ord(t: Tree, i: nat, n: nat): nat
    requires n <= NINODES
  {
    if n == 0 then 0 else Ord(t, i, n - 1) + Named(t[n - 1], n - 1, i)
  }

  function Sub(t: Tree, i: nat, n: nat): nat
    requires n <= NINODES
  {
    if n == 0 then 0 else Sub(t, i, n - 1) + Upward(t[n - 1], n - 1, i)
  }

  /** Replacing one inode changes the sums by that inode's share. */
  lemma {:induction false} SumChange(t: Tree, d: nat, x: Node, i: nat, n: nat)
    requires d < NINODES && n <= NINODES
    ensures Ord(t[d := x], i, n) == Ord(t, i, n) + if d < n then Named(x, d, i) - Named(t[d], d, i) else 0
    ensures Sub(t[d := x], i, n) == Sub(t, i, n) + if d < n then Upward(x, d, i) - Upward(t[d], d, i) else 0
  {
    hide Named, Upward;
    if n > 0 {
      SumChange(t, d, x, i, n - 1);
    }
  }

  lemma {:induction false} SumPositive(t: Tree, d: nat, i: nat, n: nat)
    requires d < n <= NINODES
    ensures Ord(t, i, n) >= Named(t[d], d, i) && Sub(t, i, n) >= Upward(t[d], d, i)
  {
    hide Named, Upward;
    if d < n - 1 {
      SumPositive(t, d, i, n - 1);
    }
  }

  lemma {:induction false} SubZero(t: Tree, i: nat, n: nat)
    requires n <= NINODES && forall d :: 0 <= d < n ==> Upward(t[d], d, i) == 0
    ensures Sub(t, i, n) == 0
  {
    hide Upward;
    if n > 0 {
      SubZero(t, i, n - 1);
    }
  }
}
