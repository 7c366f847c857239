/** How far link counts go: the root counts its subdirectories too, and on a disk of this size no count
    outgrows its sixteen bits. */
module LinkRange {
  import opened LittleEndian
  import opened Blocks
  import opened Lists
  import opened Layout
  import opened Files
  import opened Space
  import opened DirectoryBytes
  import D = Directories
  import L = LinkCounts

  // ---------- the root ----------

  /** The two links of formatting, and one for each subdirectory. */
  ghost predicate RootOk(t: D.Tree) {
    t[D.ROOTINO].nlink == 2 + D.Sub(t, D.ROOTINO, D.NINODES)
  }

  ghost predicate GoodTree(t: D.Tree) { L.TreeOk(t) && RootOk(t) }

  /** A name more: the root's count follows its subdirectories. */
  lemma NameKeepsRoot(t: D.Tree, d: nat, name: string, i: nat, x: D.Node, y: D.Node)
    requires RootOk(t) && d < D.NINODES && i < D.NINODES && L.CanName(t, d, name, i) && t[i].kind != D.Dir
    requires x == L.WithName(t[d], name, i).(nlink := t[d].nlink + if y.kind == D.Dir then 1 else 0)
    requires y.kind == D.Dir ==> |y.slots| == 2 && y.slots[1].inum == d && y.nlink > 0
    ensures RootOk(t[d := x][i := y])
  {
    hide D.Ord, D.Sub, D.Find, D.Put, L.TreeOk;
    L.NamedInD(t, d, name, i, x.nlink, D.ROOTINO);
    L.TwoChanges(t, d, x, i, y, D.ROOTINO);
  }

  lemma NewFileIsGood(t: D.Tree, d: nat, name: string, i: nat)
    requires GoodTree(t) && L.CanName(t, d, name, i) && t[i].kind == D.Unused
    ensures GoodTree(L.NewFile(t, d, name, i))
  {
    hide L.TreeOk, RootOk, D.Find, D.Put;
    L.NewFileKeeps(t, d, name, i);
    NameKeepsRoot(t, d, name, i, L.WithName(t[d], name, i), D.Node(D.File, 1, []));
  }

  lemma NewDirIsGood(t: D.Tree, d: nat, name: string, i: nat)
    requires GoodTree(t) && L.CanName(t, d, name, i) && t[i].kind == D.Unused
    ensures GoodTree(L.NewDir(t, d, name, i))
  {
    hide L.TreeOk, RootOk, D.Find, D.Put;
    L.NewDirKeeps(t, d, name, i);
    NameKeepsRoot(t, d, name, i, L.WithName(t[d], name, i).(nlink := t[d].nlink + 1),
                  D.Node(D.Dir, 1, [D.Dirent(i, "."), D.Dirent(d, "..")]));
  }

  lemma MoreLinksIsGood(t: D.Tree, d: nat, name: string, i: nat)
    requires GoodTree(t) && L.CanName(t, d, name, i) && t[i].kind == D.File
    ensures GoodTree(L.MoreLinks(t, d, name, i))
  {
    hide L.TreeOk, RootOk, D.Find, D.Put;
    L.MoreLinksKeeps(t, d, name, i);
    NameKeepsRoot(t, d, name, i, L.WithName(t[d], name, i), t[i].(nlink := t[i].nlink + 1));
  }

  lemma RemovedIsGood(t: D.Tree, d: nat, k: nat)
    requires GoodTree(t) && L.CanRemove(t, d, k)
    ensures GoodTree(L.Removed(t, d, k))
  {
    hide D.Ord, D.Sub, D.Unique, L.SlotOk, L.DirOk, L.CountOk, D.Named, D.Upward, L.TreeOk;
    L.RemoveFacts(t, d, k);
    L.RemoveKeeps(t, d, k);
    var t', i := L.Removed(t, d, k), t[d].slots[k].inum;
    L.TwoChanges(t, d, t'[d], i, t'[i], D.ROOTINO);
    L.RemoveNamed(t, d, k, D.ROOTINO);
  }

  lemma ReclaimedIsGood(t: D.Tree, i: nat)
    requires GoodTree(t) && 0 < i < D.NINODES && i != D.ROOTINO && t[i].nlink == 0
    ensures GoodTree(t[i := D.BLANK])
  {
    hide D.Ord, D.Sub, L.TreeOk;
    L.ReclaimKeeps(t, i);
    D.SumChange(t, i, D.BLANK, D.ROOTINO, D.NINODES);
  }

  lemma FreshIsGood()
    ensures GoodTree(L.FreshTree())
  {
    hide D.Sub, L.TreeOk;
    L.FreshTreeOk();
    L.FreshSums(D.ROOTINO, D.NINODES);
  }

  // ---------- how many entries fit on the disk ----------

  /** The slots of all directories. */
  ghost function AllSlots(t: D.Tree, n: nat): nat
    requires n <= D.NINODES
  {
    if n == 0 then 0 else AllSlots(t, n - 1) + |t[n - 1].slots|
  }

  lemma SlotsInBlocks(v: Disk, t: Table, o: map<nat, Place>, j: nat)
    requires FsInv(v, t, o) && j < NINODES
    ensures D.ENTRY * |TreeOf(v, t)[j].slots| <= BSIZE * |OwnedAt(o, j, MAXFILE)|
  {
    hide Contents, Slots, Owns, Mapped, Filled;
    var m := (t[j].size + BSIZE - 1) / BSIZE;
    OwnedData(v, t, o, j, m);
    SubsetSize(OwnedAt(o, j, m), OwnedAt(o, j, MAXFILE));
  }

  lemma {:induction false} SlotsFit(v: Disk, t: Table, o: map<nat, Place>, n: nat)
    requires FsInv(v, t, o) && n <= NINODES
    ensures D.ENTRY * AllSlots(TreeOf(v, t), n) <= BSIZE * |OwnedBelow(o, n)|
  {
    hide FsInv, TreeOf;
    if n > 0 {
      SlotsFit(v, t, o, n - 1);
      SlotsInBlocks(v, t, o, n - 1);
      var a, b := OwnedBelow(o, n - 1), OwnedAt(o, n - 1, MAXFILE);
      assert a !! b && a + b <= OwnedBelow(o, n);
      SubsetSize(a + b, OwnedBelow(o, n));
    }
  }

  lemma {:induction false} EntriesAreSlots(slots: seq<D.Dirent>, i: nat, n: nat)
    requires n <= |slots|
    ensures D.Entries(slots, i, n) <= n
  {
    if n > 2 { EntriesAreSlots(slots, i, n - 1); }
  }

  lemma {:induction false} SumsFit(t: D.Tree, i: nat, n: nat)
    requires n <= D.NINODES
    ensures D.Ord(t, i, n) <= AllSlots(t, n) && D.Sub(t, i, n) <= n
  {
    if n > 0 {
      SumsFit(t, i, n - 1);
      EntriesAreSlots(t[n - 1].slots, i, |t[n - 1].slots|);
    }
  }

  /** The blocks behind the bitmap. */
  lemma OwnedFit(v: Disk, t: Table, o: map<nat, Place>)
    requires FsInv(v, t, o)
    ensures |OwnedBelow(o, NINODES)| <= FSSIZE - BMAP - 1
  {
    hide Ptr, BitAt, Mapped, Filled, Shaped;
    SubsetSize(OwnedBelow(o, NINODES), Range(BMAP + 1, FSSIZE));
  }

  /** The most links that entries of 24 bytes in the blocks behind the bitmap, and ".." entries, can make. */
  const MAXLINKS := (FSSIZE - BMAP - 1) * BSIZE / D.ENTRY + NINODES

  /** No link count comes near the end of its sixteen bits. */
  lemma LinksFit(v: Disk, t: Table, o: map<nat, Place>, i: nat)
    requires FsInv(v, t, o) && GoodTree(TreeOf(v, t)) && 0 < i < NINODES
    ensures 0 <= t[i].nlink <= MAXLINKS + 2 < 0xffff
  {
    hide FsInv, D.Ord, D.Sub, L.DirOk;
    var tree := TreeOf(v, t);
    SlotsFit(v, t, o, NINODES);
    OwnedFit(v, t, o);
    SumsFit(tree, i, NINODES);
    assert tree[i].nlink == t[i].nlink;
    if i != D.ROOTINO {
      assert L.CountOk(tree, i);
    }
  }
}
