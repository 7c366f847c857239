/** What every operation on the tree keeps: the dots stand in slots 0 and 1, names are unique,
    directories form a tree, and every inode but the root has as many links as there are entries,
    other than ".", naming it in directories that can be reached. */
module LinkCounts {
  import opened Directories

  /** An entry beyond the dots is free, or names an inode; a directory only in its own parent. */
  predicate SlotOk(t: Tree, d: nat, e: Dirent) {
    e.inum == 0 ||
    (&& e.inum < NINODES && e.inum != ROOTINO && e.name != "." && e.name != ".."
     && (t[e.inum].kind == Dir ==> |t[e.inum].slots| >= 2 && t[e.inum].slots[1].inum == d))
  }

  predicate HasEntry(slots: seq<Dirent>, i: nat) {
    exists k :: 2 <= k < |slots| && slots[k].inum == i
  }

  ghost predicate DirOk(t: Tree, d: nat)
    requires d < NINODES
  {
    var slots := t[d].slots;
    && |slots| >= 2 && slots[0] == Dirent(d, ".") && slots[1].name == ".." && Unique(slots)
    && 0 < slots[1].inum < NINODES && Linked(t[slots[1].inum], slots[1].inum)
    && (if d == ROOTINO then slots[1].inum == ROOTINO else HasEntry(t[slots[1].inum].slots, d))
    && forall k :: 2 <= k < |slots| ==> SlotOk(t, d, slots[k])
  }

  ghost predicate CountOk(t: Tree, i: nat)
    requires i < NINODES
  {
    var ord, sub := Ord(t, i, NINODES), Sub(t, i, NINODES);
    && t[i].nlink == ord + sub
    && (t[i].kind == Unused ==> t[i].nlink == 0)
    && (if t[i].kind == Dir then ord == (if t[i].nlink > 0 then 1 else 0) else sub == 0)
  }

  ghost predicate TreeOk(t: Tree) {
    && t[ROOTINO].kind == Dir && t[0].kind == Unused
    && (forall d :: 0 < d < NINODES && Linked(t[d], d) ==> DirOk(t, d))
    && (forall i :: 0 < i < NINODES && i != ROOTINO ==> CountOk(t, i))
  }

  // ---------- consequences ----------

  /** Whatever a reachable directory names has links. */
  lemma NamedHasLinks(t: Tree, d: nat, k: nat)
    requires TreeOk(t) && 0 < d < NINODES && Linked(t[d], d) && 2 <= k < |t[d].slots| && t[d].slots[k].inum != 0
    ensures var i := t[d].slots[k].inum;
            0 < i < NINODES && i != ROOTINO && t[i].nlink > 0 && t[i].kind != Unused
  {
    var i := t[d].slots[k].inum;
    assert SlotOk(t, d, t[d].slots[k]);
    hide SlotOk;
    EntriesPositive(t[d].slots, i, |t[d].slots|, k);
    SumPositive(t, d, i, NINODES);
    assert CountOk(t, i);
  }

  /** An inode without links is named nowhere. */
  lemma NotNamed(t: Tree, i: nat, d: nat, k: nat)
    requires TreeOk(t) && 0 < i < NINODES && i != ROOTINO && t[i].nlink == 0
    requires 0 < d < NINODES && Linked(t[d], d) && k < |t[d].slots|
    ensures t[d].slots[k].inum != i
  {
    hide Ord, Sub, Linked;
    assert DirOk(t, d);
    if t[d].slots[k].inum == i {
      if k >= 2 {
        NamedHasLinks(t, d, k);
      } else {
        assert Linked(t[i], i);
        LinkedHasLinks(t[i], i);
      }
    }
  }

  lemma LinkedHasLinks(x: Node, i: nat)
    ensures Linked(x, i) && i != ROOTINO ==> x.nlink > 0
  {}

  /** isdirempty is exact: a directory whose slots from 2 on are free has no subdirectory, and its
      one link is its parent's. */
  lemma EmptyHasOneLink(t: Tree, i: nat)
    requires TreeOk(t) && 0 < i < NINODES && i != ROOTINO && Linked(t[i], i)
    requires forall k :: 2 <= k < |t[i].slots| ==> t[i].slots[k].inum == 0
    ensures t[i].nlink == 1 && Sub(t, i, NINODES) == 0
  {
    hide Ord, Sub;
    forall d | 0 <= d < NINODES ensures Upward(t[d], d, i) == 0 {
      if 0 < d && Linked(t[d], d) {
        assert DirOk(t, d);
      }
    }
    SubZero(t, i, NINODES);
    assert CountOk(t, i);
  }

  // ---------- adding entries ----------

  lemma EntriesOfPut(slots: seq<Dirent>, name: string, inum: nat, i: nat)
    requires |slots| >= 2 && slots[0].inum != 0 && slots[1].inum != 0 && i > 0
    ensures var r := Put(slots, name, inum);
            && |r| >= |slots| && r[0] == slots[0] && r[1] == slots[1] && 2 <= FreeSlot(slots, 0) < |r|
            && Entries(r, i, |r|) == Entries(slots, i, |slots|) + if inum == i then 1 else 0
  {
    var k := FreeSlot(slots, 0);
    if k < |slots| {
      EntriesPut(slots, i, |slots|, k, Dirent(inum, name));
    } else {
      EntriesPrefix(slots, [Dirent(inum, name)], i, |slots|);
    }
  }

  /** Two inodes replaced. */
  lemma TwoChanges(t: Tree, d: nat, x: Node, i: nat, y: Node, j: nat)
    requires d < NINODES && i < NINODES && d != i
    ensures Ord(t[d := x][i := y], j, NINODES) ==
            Ord(t, j, NINODES) + Named(x, d, j) - Named(t[d], d, j) + Named(y, i, j) - Named(t[i], i, j)
    ensures Sub(t[d := x][i := y], j, NINODES) ==
            Sub(t, j, NINODES) + Upward(x, d, j) - Upward(t[d], d, j) + Upward(y, i, j) - Upward(t[i], i, j)
  {
    hide Named, Upward, Ord, Sub;
    SumChange(t, d, x, j, NINODES);
    SumChange(t[d := x], i, y, j, NINODES);
  }

  /** A new name for inode i in directory d: create of a file or of a directory, and link. */
  ghost predicate CanName(t: Tree, d: nat, name: string, i: nat) {
    && TreeOk(t) && 0 < d < NINODES && Linked(t[d], d)
    && 0 < i < NINODES && i != ROOTINO && i != d
    && name != "." && name != ".." && Find(t[d].slots, name, 0) == -1
  }

  function WithName(x: Node, name: string, i: nat): Node {
    x.(slots := Put(x.slots, name, i))
  }

  /** create, for a file; i is a free inode. */
  function NewFile(t: Tree, d: nat, name: string, i: nat): Tree
    requires d < NINODES && i < NINODES
  {
    t[d := WithName(t[d], name, i)][i := Node(File, 1, [])]
  }

  /** create, for a directory. */
  function NewDir(t: Tree, d: nat, name: string, i: nat): Tree
    requires d < NINODES && i < NINODES
  {
    t[d := WithName(t[d], name, i).(nlink := t[d].nlink + 1)][i := Node(Dir, 1, [Dirent(i, "."), Dirent(d, "..")])]
  }

  /** link; i is a file. */
  function MoreLinks(t: Tree, d: nat, name: string, i: nat): Tree
    requires d < NINODES && i < NINODES
  {
    t[d := WithName(t[d], name, i)][i := t[i].(nlink := t[i].nlink + 1)]
  }

  /** Directory d got an entry for inode i, which is a file, or was free and is now a file or a
      directory in d; nothing else changed but link counts. */
  ghost predicate NameAdded(t: Tree, t': Tree, d: nat, name: string, i: nat) {
    && CanName(t, d, name, i)
    && t'[d].slots == Put(t[d].slots, name, i) && t'[d].kind == Dir && Linked(t'[d], d)
    && (forall j :: 0 <= j < NINODES && j != d && j != i ==> t'[j] == t[j])
    && (t[i].kind == File || (t[i].kind == Unused && t[i].nlink == 0))
    && (t'[i].kind == File || (t[i].kind == Unused && t'[i].kind == Dir && t'[i].slots == [Dirent(i, "."),
         Dirent(d, "..")] && t'[i].nlink > 0))
  }

  /** Old entries are as good as before. */
  lemma OldSlots(t: Tree, t': Tree, d: nat, name: string, i: nat, e: nat, k: nat)
    requires NameAdded(t, t', d, name, i) && 0 < e < NINODES && Linked(t[e], e) && 2 <= k < |t[e].slots|
    ensures SlotOk(t', e, t[e].slots[k])
  {
    hide Ord, Sub, CountOk, Find, FreeSlot, Unique, Put;
    assert DirOk(t, e);
    assert SlotOk(t, e, t[e].slots[k]);
    if t[i].kind == Unused {
      NotNamed(t, i, e, k);
    }
    if t[e].slots[k].inum == d {
      EntriesOfPut(t[d].slots, name, i, 1);
    }
  }

  /** Parents are still there, and still have their children. */
  lemma OldParents(t: Tree, t': Tree, d: nat, name: string, i: nat, e: nat)
    requires NameAdded(t, t', d, name, i) && 0 < e < NINODES && e != i && Linked(t[e], e)
    ensures DirOk(t, e) && var p := t[e].slots[1].inum;
            Linked(t'[p], p) && (e != ROOTINO ==> HasEntry(t'[p].slots, e))
  {
    hide Ord, Sub, CountOk, Find, FreeSlot, Unique, SlotOk;
    assert DirOk(t, e);
    var p := t[e].slots[1].inum;
    if p != d {
      if t[i].kind == Unused { assert p != i; }
    } else if e != ROOTINO {
      var k :| 2 <= k < |t[d].slots| && t[d].slots[k].inum == e;
      EntriesOfPut(t[d].slots, name, i, 1);
      assert t'[d].slots[k] == t[d].slots[k];
    }
  }

  lemma NameAddedDir(t: Tree, t': Tree, d: nat, name: string, i: nat)
    requires NameAdded(t, t', d, name, i)
    ensures DirOk(t', d)
  {
    hide Ord, Sub, CountOk, Find, FreeSlot, Unique;
    OldParents(t, t', d, name, i, d);
    EntriesOfPut(t[d].slots, name, i, 1);
    PutIsInsert(t[d].slots, name, i, name);
    var r := t'[d].slots;
    forall k | 2 <= k < |r| ensures SlotOk(t', d, r[k]) {
      if k != FreeSlot(t[d].slots, 0) {
        OldSlots(t, t', d, name, i, d, k);
      }
    }
  }

  lemma NameAddedNew(t: Tree, t': Tree, d: nat, name: string, i: nat)
    requires NameAdded(t, t', d, name, i) && t'[i].kind == Dir
    ensures DirOk(t', i)
  {
    hide Ord, Sub, CountOk, Find, FreeSlot, SlotOk;
    assert DirOk(t, d);
    EntriesOfPut(t[d].slots, name, i, 1);
    var k := FreeSlot(t[d].slots, 0);
    assert t'[d].slots[k].inum == i;
  }

  lemma NameAddedDirs(t: Tree, t': Tree, d: nat, name: string, i: nat, e: nat)
    requires NameAdded(t, t', d, name, i) && 0 < e < NINODES && Linked(t'[e], e)
    ensures DirOk(t', e)
  {
    hide Ord, Sub, CountOk, Find, FreeSlot, SlotOk, Unique, Put, TreeOk;
    if e == d {
      NameAddedDir(t, t', d, name, i);
    } else if e == i {
      NameAddedNew(t, t', d, name, i);
    } else {
      OldParents(t, t', d, name, i, e);
      forall k | 2 <= k < |t[e].slots| ensures SlotOk(t', e, t[e].slots[k]) {
        OldSlots(t, t', d, name, i, e, k);
      }
    }
  }

  // ---------- and their counts ----------

  lemma NamedInD(t: Tree, d: nat, name: string, i: nat, nlink: int, j: nat)
    requires CanName(t, d, name, i) && j > 0 && Linked(t[d].(nlink := nlink), d)
    ensures var x := WithName(t[d], name, i).(nlink := nlink);
            Named(x, d, j) == Named(t[d], d, j) + (if i == j then 1 else 0) && Upward(x, d, j) == Upward(t[d], d, j)
  {
    hide Ord, Sub, CountOk, Find, FreeSlot, SlotOk, Unique, Put;
    assert DirOk(t, d);
    EntriesOfPut(t[d].slots, name, i, j);
  }

  /** create of a file keeps the tree. */
  lemma NewFileKeeps(t: Tree, d: nat, name: string, i: nat)
    requires CanName(t, d, name, i) && t[i].kind == Unused
    ensures TreeOk(NewFile(t, d, name, i))
  {
    hide Ord, Sub, Find, FreeSlot, SlotOk, Unique, Put, DirOk;
    var t' := NewFile(t, d, name, i);
    assert CountOk(t, i);
    assert NameAdded(t, t', d, name, i);
    forall e | 0 < e < NINODES && Linked(t'[e], e) ensures DirOk(t', e) {
      NameAddedDirs(t, t', d, name, i, e);
    }
    forall j | 0 < j < NINODES && j != ROOTINO ensures CountOk(t', j) {
      TwoChanges(t, d, WithName(t[d], name, i), i, Node(File, 1, []), j);
      NamedInD(t, d, name, i, t[d].nlink, j);
      assert CountOk(t, j);
    }
  }

  /** create of a directory keeps the tree: the parent's count pays for the new "..". */
  lemma NewDirKeeps(t: Tree, d: nat, name: string, i: nat)
    requires CanName(t, d, name, i) && t[i].kind == Unused
    ensures TreeOk(NewDir(t, d, name, i))
  {
    hide Ord, Sub, Find, FreeSlot, SlotOk, Unique, Put, DirOk;
    var t' := NewDir(t, d, name, i);
    assert CountOk(t, i);
    assert NameAdded(t, t', d, name, i);
    forall e | 0 < e < NINODES && Linked(t'[e], e) ensures DirOk(t', e) {
      NameAddedDirs(t, t', d, name, i, e);
    }
    forall j | 0 < j < NINODES && j != ROOTINO ensures CountOk(t', j) {
      TwoChanges(t, d, t'[d], i, t'[i], j);
      NamedInD(t, d, name, i, t[d].nlink + 1, j);
      assert CountOk(t, j);
      assert Named(t'[i], i, j) == 0;
    }
  }

  /** link keeps the tree. */
  lemma MoreLinksKeeps(t: Tree, d: nat, name: string, i: nat)
    requires CanName(t, d, name, i) && t[i].kind == File
    ensures TreeOk(MoreLinks(t, d, name, i))
  {
    hide Ord, Sub, Find, FreeSlot, SlotOk, Unique, Put, DirOk;
    var t' := MoreLinks(t, d, name, i);
    assert NameAdded(t, t', d, name, i);
    forall e | 0 < e < NINODES && Linked(t'[e], e) ensures DirOk(t', e) {
      NameAddedDirs(t, t', d, name, i, e);
    }
    forall j | 0 < j < NINODES && j != ROOTINO ensures CountOk(t', j) {
      TwoChanges(t, d, t'[d], i, t'[i], j);
      NamedInD(t, d, name, i, t[d].nlink, j);
      assert CountOk(t, j);
    }
  }

  // ---------- removing entries ----------

  /** Slot k of directory d holds a name that unlink may take away. */
  ghost predicate CanRemove(t: Tree, d: nat, k: nat) {
    && TreeOk(t) && 0 < d < NINODES && Linked(t[d], d) && 2 <= k < |t[d].slots|
    && var i := t[d].slots[k].inum;
       && 0 < i < NINODES && i != ROOTINO
       && (t[i].kind == Dir ==> i != d && forall l :: 2 <= l < |t[i].slots| ==> t[i].slots[l].inum == 0)
  }

  function WithoutSlot(x: Node, k: nat): Node
    requires k < |x.slots|
  {
    x.(slots := x.slots[k := EMPTY])
  }

  /** unlink: the slot is cleared, the inode loses a link, and with a directory its parent does. */
  function Removed(t: Tree, d: nat, k: nat): Tree
    requires d < NINODES && k < |t[d].slots| && t[d].slots[k].inum < NINODES
  {
    var i := t[d].slots[k].inum;
    t[d := WithoutSlot(t[d], k).(nlink := t[d].nlink - if t[i].kind == Dir then 1
      else 0)][i := t[i].(nlink := t[i].nlink - 1)]
  }

  /** The inode has what unlink needs: it is not the directory itself, and a directory hangs in d,
      has one link, and leaves d reachable. */
  lemma RemoveFacts(t: Tree, d: nat, k: nat)
    requires CanRemove(t, d, k)
    ensures var i := t[d].slots[k].inum;
            && i != d && t[i].nlink > 0 && t[i].kind != Unused
            && (t[i].kind == Dir ==> |t[i].slots| >= 2 && t[i].slots[1].inum == d)
            && (t[i].kind == Dir ==> t[i].nlink == 1 && Sub(t, i, NINODES) == 0)
            && (t[i].kind == Dir && d != ROOTINO ==> t[d].nlink > 1)
            && Linked(Removed(t, d, k)[d], d)
  {
    hide Ord, Sub, Unique;
    var i := t[d].slots[k].inum;
    NamedHasLinks(t, d, k);
    assert DirOk(t, d);
    assert SlotOk(t, d, t[d].slots[k]);
    if t[i].kind == Dir {
      EmptyHasOneLink(t, i);
      SumPositive(t, i, d, NINODES);
      if d != ROOTINO {
        assert CountOk(t, d);
      }
    }
  }

  lemma RemoveSlots(t: Tree, d: nat, k: nat, e: nat, l: nat)
    requires CanRemove(t, d, k) && 0 < e < NINODES && Linked(t[e], e) && 2 <= l < |t[e].slots|
    ensures SlotOk(Removed(t, d, k), e, t[e].slots[l])
  {
    hide Ord, Sub, Unique, CountOk;
    RemoveFacts(t, d, k);
    assert DirOk(t, e);
    assert SlotOk(t, e, t[e].slots[l]);
  }

  lemma RemoveDirs(t: Tree, d: nat, k: nat, e: nat)
    requires CanRemove(t, d, k) && 0 < e < NINODES && Linked(Removed(t, d, k)[e], e)
    ensures DirOk(Removed(t, d, k), e)
  {
    hide Ord, Sub, Unique, CountOk, SlotOk;
    RemoveFacts(t, d, k);
    var t', i := Removed(t, d, k), t[d].slots[k].inum;
    assert Linked(t[e], e) && DirOk(t, e);
    RemoveParents(t, d, k, e);
    hide TreeOk, CanRemove, HasEntry;
    if e == d {
      ClearIsRemove(t[d].slots, k, "");
    }
    forall l | 2 <= l < |t'[e].slots| ensures SlotOk(t', e, t'[e].slots[l]) {
      if e == d && l == k {
        FreeIsOk(t', e);
      } else {
        RemoveSlots(t, d, k, e, l);
      }
    }
  }

  lemma FreeIsOk(t: Tree, d: nat)
    ensures SlotOk(t, d, EMPTY)
  {}

  lemma RemoveParents(t: Tree, d: nat, k: nat, e: nat)
    requires CanRemove(t, d, k) && 0 < e < NINODES && Linked(t[e], e) && DirOk(t, e)
    requires e == t[d].slots[k].inum ==> t[e].kind != Dir
    ensures var p, t' := t[e].slots[1].inum, Removed(t, d, k);
            Linked(t'[p], p) && (e != ROOTINO ==> HasEntry(t'[p].slots, e))
  {
    hide Ord, Sub, Unique, CountOk, SlotOk, TreeOk;
    RemoveFacts(t, d, k);
    var p, t', i := t[e].slots[1].inum, Removed(t, d, k), t[d].slots[k].inum;
    if e != ROOTINO {
      var l :| 2 <= l < |t[p].slots| && t[p].slots[l].inum == e;
      assert t[i].kind == Dir ==> p != i;
      assert t'[p].slots[l].inum == e;
    }
  }

  lemma RemoveNamed(t: Tree, d: nat, k: nat, j: nat)
    requires CanRemove(t, d, k) && j > 0
    ensures var t', i := Removed(t, d, k), t[d].slots[k].inum;
            && Named(t'[d], d, j) == Named(t[d], d, j) - (if i == j then 1
                 else 0) && Upward(t'[d], d, j) == Upward(t[d], d, j)
            && Named(t[i], i, j) == 0 && Named(t'[i], i, j) == 0 && Upward(t'[i], i, j) == 0
            && Upward(t[i], i, j) == if t[i].kind == Dir && j == d then 1 else 0
  {
    hide Ord, Sub, Unique, CountOk, SlotOk, TreeOk;
    RemoveFacts(t, d, k);
    var i := t[d].slots[k].inum;
    EntriesPut(t[d].slots, j, |t[d].slots|, k, EMPTY);
    if t[i].kind == Dir {
      EntriesZero(t[i].slots, j, |t[i].slots|);
    }
  }

  /** unlink keeps the tree. */
  lemma RemoveKeeps(t: Tree, d: nat, k: nat)
    requires CanRemove(t, d, k)
    ensures TreeOk(Removed(t, d, k))
  {
    hide Ord, Sub, Unique, SlotOk, DirOk, Named, Upward;
    RemoveFacts(t, d, k);
    var t', i := Removed(t, d, k), t[d].slots[k].inum;
    forall e | 0 < e < NINODES && Linked(t'[e], e) ensures DirOk(t', e) {
      RemoveDirs(t, d, k, e);
    }
    forall j | 0 < j < NINODES && j != ROOTINO ensures CountOk(t', j) {
      TwoChanges(t, d, t'[d], i, t'[i], j);
      RemoveNamed(t, d, k, j);
      assert CountOk(t, j);
    }
  }

  /** The last reference to an inode without links goes: the inode is free again. */
  lemma ReclaimKeeps(t: Tree, i: nat)
    requires TreeOk(t) && 0 < i < NINODES && i != ROOTINO && t[i].nlink == 0
    ensures TreeOk(t[i := BLANK])
  {
    hide Ord, Sub, Unique;
    var t' := t[i := BLANK];
    forall e | 0 < e < NINODES && Linked(t'[e], e) ensures DirOk(t', e) {
      assert DirOk(t, e);
      forall l | 2 <= l < |t[e].slots| ensures SlotOk(t', e, t[e].slots[l]) {
        assert SlotOk(t, e, t[e].slots[l]);
      }
    }
    forall j | 0 < j < NINODES && j != ROOTINO ensures CountOk(t', j) {
      SumChange(t, i, BLANK, j, NINODES);
      assert CountOk(t, j) && CountOk(t, i);
    }
  }

  // ---------- the beginning ----------

  /** The tree of a formatted disk: the root, with its dots and the two links fs_init gives it. */
  function FreshTree(): Tree {
    seq(NINODES, i => if i == ROOTINO then Node(Dir, 2, [Dirent(ROOTINO, "."), Dirent(ROOTINO, "..")]) else BLANK)
  }

  lemma {:induction false} FreshSums(i: nat, n: nat)
    requires n <= NINODES
    ensures Ord(FreshTree(), i, n) == 0 && Sub(FreshTree(), i, n) == 0
  {
    if n > 0 {
      FreshSums(i, n - 1);
    }
  }

  /** A formatted disk has a tree that is in order. */
  lemma FreshTreeOk()
    ensures TreeOk(FreshTree())
  {
    hide Ord, Sub;
    forall i | 0 < i < NINODES && i != ROOTINO ensures CountOk(FreshTree(), i) {
      FreshSums(i, NINODES);
    }
  }
}
