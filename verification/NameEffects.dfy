/** What create, link and unlink do to a tree of names, as functions of the tree; the calls of module
    LinkCalls and those of module NamesOnDisk both do this. */
module NameEffects {
  import opened Directories
  import opened LinkCounts
  import opened Paths
  import opened Namespace
  import opened FileNames
  import opened LinkCalls

  /** The last name of a path. */
  function Last(path: string): string {
    var names := Parts(path);
    if |names| == 0 then "" else names[|names| - 1]
  }

  /** The directory a path puts its last name in; 0 for none. */
  function Parent(t: Tree, path: string): (d: nat)
    ensures d < NINODES
  {
    var d := Resolve(t, path, true);
    if d < NINODES then d else 0
  }

  function CreateTree(t: Tree, path: string, kind: Kind): Tree {
    var d, i := Parent(t, path), FirstUnused(t, 1);
    if d == 0 || Lookup(t[d].slots, Last(path)) != 0 || i == NINODES then t
    else if kind == Dir then NewDir(t, d, Last(path), i)
    else NewFile(t, d, Last(path), i)
  }

  /** The inode that create returns; 0 for none. */
  function CreateInum(t: Tree, path: string, kind: Kind): nat {
    var d := Parent(t, path);
    if d == 0 then 0
    else
      var j := Lookup(t[d].slots, Last(path));
      if j == 0 then FirstUnused(t, 1)
      else if j < NINODES && kind == File && t[j].kind == File then j
      else 0
  }

  /** Whether link can be done: a file, and a new name in a directory. */
  predicate CanLink(t: Tree, from: string, to: string) {
    var i, d := Resolve(t, from, false), Parent(t, to);
    0 < i < NINODES && t[i].kind != Dir && d != 0 && Find(t[d].slots, Last(to), 0) == -1
  }

  function LinkTree(t: Tree, from: string, to: string): Tree {
    if CanLink(t, from, to) then MoreLinks(t, Parent(t, to), Last(to), Resolve(t, from, false)) else t
  }

  /** The slot of the name a path ends with; -1 for none, and for the dots in slots 0 and 1. */
  function Slot(t: Tree, path: string): (k: int)
    ensures k == -1 || 2 <= k < |t[Parent(t, path)].slots|
  {
    var d := Parent(t, path);
    if d == 0 then -1
    else
      var k := Find(t[d].slots, Last(path), 0);
      if k >= 2 && t[d].slots[k].inum < NINODES then k else -1
  }

  predicate HasEntries(x: Node) { x.kind == Dir && exists k :: 2 <= k < |x.slots| && x.slots[k].inum != 0 }

  /** The inode of that name. */
  function Target(t: Tree, path: string): nat
    requires Slot(t, path) != -1
  {
    t[Parent(t, path)].slots[Slot(t, path)].inum
  }

  predicate CanUnlink(t: Tree, path: string) {
    Slot(t, path) != -1 && Target(t, path) < NINODES && !HasEntries(t[Target(t, path)])
  }

  /** unlink; `open` if somebody has the file open. */
  function UnlinkTree(t: Tree, path: string, open: bool): Tree {
    if !CanUnlink(t, path) then t
    else
      var t' := Removed(t, Parent(t, path), Slot(t, path));
      if Vanishes(t, path, open) then t'[Target(t, path) := BLANK] else t'
  }

  /** Whether the inode goes with its name. */
  predicate Vanishes(t: Tree, path: string, open: bool) {
    && CanUnlink(t, path) && !open
    && Removed(t, Parent(t, path), Slot(t, path))[Target(t, path)].nlink == 0
  }

  /** When unlink panics: the link count, a short, has become negative. */
  predicate UnlinkFails(t: Tree, path: string) {
    Slot(t, path) != -1 && Target(t, path) < NINODES && AsShort(t[Target(t, path)].nlink) < 1
  }

  // ---------- the calls on inodes and references do the same ----------

  lemma CreatesAlike(t: Tree, c: Cache, t': Tree, c': Cache, path: string, kind: Kind, k: int)
    requires Created(t, c, t', c', path, kind, k)
    ensures t' == CreateTree(t, path, kind)
    ensures if k == -1 then CreateInum(t, path, kind) == 0
            else 0 <= k < NINODE && c'[k].ref > 0 && c'[k].inum == CreateInum(t, path, kind)
  {
    hide Parts, RefsAre, Find, Put;
  }

  lemma LinksAlike(t: Tree, c: Cache, t': Tree, c': Cache, from: string, to: string, r: int)
    requires LinkDone(t, c, t', c', from, to, r)
    ensures t' == LinkTree(t, from, to) && (r == 0 <==> CanLink(t, from, to))
  {
    hide Parts, RefsAre, Find, Put, Resolve;
  }

  /** If `open` says whether somebody refers to the inode. */
  lemma UnlinksAlike(t: Tree, c: Cache, t': Tree, c': Cache, path: string, r: int)
    requires Unlinked(t, c, t', c', path, r)
    ensures (r == 0 <==> CanUnlink(t, path))
    ensures r == 0 ==> t' == UnlinkTree(t, path, Refs(c, Target(t, path), NINODE) > 0)
    ensures r != 0 ==> t' == t
  {
    hide Parts, RefsAre, Find, Resolve;
  }

  lemma FailsAlike(t: Tree, path: string)
    ensures Overdrawn(t, path) <==> UnlinkFails(t, path)
  {
    hide Parts, Find, AsShort;
  }
}
