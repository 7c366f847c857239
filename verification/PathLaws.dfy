/** What create, link and unlink mean to whoever follows paths: which path leads where afterwards. */
module PathLaws {
  import opened Directories
  import opened LinkCounts
  import opened Paths
  import opened Namespace
  import opened FileNames
  import opened LinkCalls
  import opened NameEffects
  import FileTable

  // ---------- walks ----------

  /** A walk over some names and then others is one walk after the other. */
  lemma {:induction false} WalkOn(t: Tree, i: nat, names: seq<string>, more: seq<string>)
    requires i < NINODES && t[0].kind == Unused
    ensures WalkTo(t, i, names) < NINODES
    ensures WalkTo(t, i, names + more) == WalkTo(t, WalkTo(t, i, names), more)
    decreases |names|
  {
    if |names| == 0 {
      assert names + more == more;
    } else if t[i].kind == Dir {
      var j := Lookup(t[i].slots, names[0]);
      assert (names + more)[1..] == names[1..] + more;
      if 0 < j < NINODES {
        WalkOn(t, j, names[1..], more);
      }
    }
  }

  /** A path leads where its last name leads in the directory of the rest. */
  lemma LastStep(t: Tree, path: string)
    requires Safe(t) && t[0].kind == Unused && |Parts(path)| > 0
    ensures var d := Parent(t, path);
            && Resolve(t, path, false) == (if d == 0 then 0 else Lookup(t[d].slots, Last(path)))
            && (d != 0 ==> Live(t, d) && t[d].kind == Dir)
  {
    hide Parts, Lookup;
    var names := Parts(path);
    var n := |names| - 1;
    assert names == names[..n] + [names[n]];
    ParentIsWalk(t, ROOTINO, names);
    WalkOn(t, ROOTINO, names[..n], [names[n]]);
    WalkIsLive(t, ROOTINO, names[..n]);
    var d := WalkTo(t, ROOTINO, names[..n]);
    if d != 0 && t[d].kind == Dir {
      LookupIsLive(t, d, names[n]);
    }
  }

  lemma {:induction false} WalkIsLive(t: Tree, i: nat, names: seq<string>)
    requires Safe(t) && Live(t, i)
    ensures WalkTo(t, i, names) == 0 || Live(t, WalkTo(t, i, names))
    decreases |names|
  {
    if |names| > 0 && t[i].kind == Dir {
      LookupIsLive(t, i, names[0]);
      var j := Lookup(t[i].slots, names[0]);
      if 0 < j < NINODES {
        WalkIsLive(t, j, names[1..]);
      }
    }
  }

  /** The walk goes by the entry of that name in directory d, or looks for it there in vain. */
  predicate Takes(t: Tree, i: nat, names: seq<string>, d: nat, name: string)
    requires i < NINODES
    decreases |names|
  {
    && |names| > 0 && t[i].kind == Dir
    && (|| (i == d && names[0] == name)
        || var j := Lookup(t[i].slots, names[0]); 0 < j < NINODES && Takes(t, j, names[1..], d, name))
  }

  /** A path goes by that entry. */
  predicate Via(t: Tree, path: string, d: nat, name: string) {
    Takes(t, ROOTINO, Parts(path), d, name)
  }

  /** The directories that can be walked to map all names alike, but for one in directory d. */
  ghost predicate Alike(t: Tree, t': Tree, d: nat, name: string) {
    forall e :: 0 < e < NINODES && Live(t, e) ==>
      && (t'[e].kind == Dir <==> t[e].kind == Dir)
      && (t[e].kind == Dir ==> AlikeIn(t[e].slots, t'[e].slots, if e == d then {name} else {}))
  }

  ghost predicate AlikeIn(s: seq<Dirent>, s': seq<Dirent>, but: set<string>) {
    forall n :: n !in but ==> Lookup(s', n) == Lookup(s, n)
  }

  /** Walks that do not go by that entry end where they ended. */
  lemma {:induction false} SameWalks(t: Tree, t': Tree, d: nat, name: string, i: nat, names: seq<string>)
    requires Safe(t) && Live(t, i) && Alike(t, t', d, name) && !Takes(t, i, names, d, name)
    ensures WalkTo(t', i, names) == WalkTo(t, i, names)
    decreases |names|
  {
    hide Lookup, Safe, Live;
    Within(t, i);
    if |names| > 0 && t[i].kind == Dir {
      LookupIsLive(t, i, names[0]);
      var j := Lookup(t[i].slots, names[0]);
      if 0 < j < NINODES {
        SameWalks(t, t', d, name, j, names[1..]);
      }
    }
  }

  lemma Within(t: Tree, i: nat)
    requires Live(t, i)
    ensures 0 < i < NINODES
  {}

  /** Walks that go by an entry that is no longer there end nowhere. */
  lemma {:induction false} LostWalks(t: Tree, t': Tree, d: nat, name: string, i: nat, names: seq<string>)
    requires Safe(t) && Live(t, i) && Alike(t, t', d, name) && Takes(t, i, names, d, name)
    requires d < NINODES && Lookup(t'[d].slots, name) == 0
    ensures WalkTo(t', i, names) == 0
    decreases |names|
  {
    hide Lookup, Safe, Live;
    Within(t, i);
    if !(i == d && names[0] == name) {
      LookupIsLive(t, i, names[0]);
      LostWalks(t, t', d, name, Lookup(t[i].slots, names[0]), names[1..]);
    }
  }

  /** A walk by an entry that is missing ends nowhere. */
  lemma {:induction false} MissingWalks(t: Tree, d: nat, name: string, i: nat, names: seq<string>)
    requires i < NINODES && Takes(t, i, names, d, name) && d < NINODES && Lookup(t[d].slots, name) == 0
    ensures WalkTo(t, i, names) == 0
    decreases |names|
  {
    if !(i == d && names[0] == name) {
      MissingWalks(t, d, name, Lookup(t[i].slots, names[0]), names[1..]);
    }
  }

  // ---------- create and link ----------

  /** Directory d got a name for inode i, which was no directory. */
  ghost predicate NameGiven(t: Tree, t': Tree, d: nat, name: string, i: nat) {
    && TreeOk(t) && Live(t, d) && t[d].kind == Dir && Find(t[d].slots, name, 0) == -1
    && 0 < i < NINODES && t[i].kind != Dir && (t[i].kind == Unused || t'[i].kind == t[i].kind)
    && t'[d].kind == Dir && t'[d].slots == Put(t[d].slots, name, i)
    && forall j :: 0 <= j < NINODES && j != d && j != i ==> t'[j] == t[j]
  }

  lemma NamedAlike(t: Tree, t': Tree, d: nat, name: string, i: nat)
    requires NameGiven(t, t', d, name, i)
    ensures Alike(t, t', d, name) && Lookup(t'[d].slots, name) == i
    ensures Safe(t) && t[0].kind == Unused && t'[0].kind == Unused
  {
    hide Find, Put, Lookup, Ord, Sub, CountOk, SlotOk, Unique, Safe;
    TreesAreSafe(t);
    assert DirOk(t, d);
    PutIsInsert(t[d].slots, name, i, name);
    forall n | n !in {name} ensures Lookup(t'[d].slots, n) == Lookup(t[d].slots, n) {
      PutIsInsert(t[d].slots, name, i, n);
    }
  }

  /** The new name leads to the inode; every path that led somewhere, and every path that does not go by
      the new name, leads where it did. */
  lemma NamedLaw(t: Tree, t': Tree, path: string, i: nat, q: string)
    requires |Parts(path)| > 0 && NameGiven(t, t', Parent(t, path), Last(path), i)
    ensures Resolve(t, path, false) == 0 && Resolve(t', path, false) == i
    ensures Resolve(t, q, false) != 0 || !Via(t, q, Parent(t, path), Last(path)) ==>
              Resolve(t', q, false) == Resolve(t, q, false)
  {
    hide NameGiven, Alike, Safe, Lookup, Find, Parts, Parent, Last, ParentOf, WalkTo, Takes;
    var d, name := Parent(t, path), Last(path);
    NamedAlike(t, t', d, name, i);
    NamedFacts(t, t', d, name, i);
    RootIsLive(t);
    LastStep(t, path);
    MissingIsZero(t[d].slots, name);
    NewStep(t, t', path, i);
    if Via(t, q, d, name) {
      MissingWalks(t, d, name, ROOTINO, Parts(q));
    } else {
      SameWalks(t, t', d, name, ROOTINO, Parts(q));
    }
  }

  lemma NamedFacts(t: Tree, t': Tree, d: nat, name: string, i: nat)
    requires NameGiven(t, t', d, name, i)
    ensures 0 < d < NINODES && Find(t[d].slots, name, 0) == -1
  {}

  lemma MissingIsZero(slots: seq<Dirent>, name: string)
    requires Find(slots, name, 0) == -1
    ensures Lookup(slots, name) == 0
  {}

  lemma NewStep(t: Tree, t': Tree, path: string, i: nat)
    requires |Parts(path)| > 0 && NameGiven(t, t', Parent(t, path), Last(path), i)
    ensures Resolve(t', path, false) == i
  {
    hide Alike, Safe, Find, Parts, Takes, TreeOk, Put;
    var names, d := Parts(path), Parent(t, path);
    var n := |names| - 1;
    NamedAlike(t, t', d, names[n], i);
    RootIsLive(t);
    ParentIsWalk(t, ROOTINO, names);
    assert WalkTo(t, ROOTINO, names[..n]) == d;
    MissingIsZero(t[d].slots, names[n]);
    if Takes(t, ROOTINO, names[..n], d, names[n]) {
      MissingWalks(t, d, names[n], ROOTINO, names[..n]);
    }
    SameWalks(t, t', d, names[n], ROOTINO, names[..n]);
    WalkOn(t', ROOTINO, names[..n], [names[n]]);
    assert names == names[..n] + [names[n]];
  }

  /** Whether create makes something: a directory to name it in, no such name yet, and a free inode. */
  predicate Makes(t: Tree, path: string) {
    var d := Parent(t, path);
    d != 0 && Lookup(t[d].slots, Last(path)) == 0 && FirstUnused(t, 1) < NINODES
  }

  /** After create the path leads to the inode it returned, which is of the kind asked for; nothing else that
      a path led to has moved. If the path leads somewhere already, or has no directory to end in, create
      returns the file it leads to, if a file was asked for, or none; NINODES stands for the panic when no
      inode is free. */
  lemma CreateLaw(t: Tree, path: string, kind: Kind, q: string)
    requires TreeOk(t) && kind != Unused
    ensures var t', i := CreateTree(t, path, kind), CreateInum(t, path, kind);
            if Makes(t, path) then
              && 0 < i < NINODES && t[i].kind == Unused && t'[i].kind == kind && Resolve(t, path, false) == 0
              && Resolve(t', path, false) == i
              && (Resolve(t, q, false) != 0 || !Via(t, q, Parent(t, path), Last(path)) ==>
                    Resolve(t', q, false) == Resolve(t, q, false))
            else
              t' == t && var j := Resolve(t, path, false);
              j < NINODES && i == if j == 0 && Parent(t, path) != 0 then NINODES
                                  else if kind == File && t[j].kind == File then j else 0
  {
    hide Find, Parts, Put, TreeOk, Via;
    NoParts(t, path);
    TreeFacts(t);
    WalkOn(t, ROOTINO, Parts(path), []);
    if |Parts(path)| > 0 {
      LastStep(t, path);
    }
    if Makes(t, path) {
      var i := FirstUnused(t, 1);
      assert t[Parent(t, path)].kind == Dir;
      assert NameGiven(t, CreateTree(t, path, kind), Parent(t, path), Last(path), i) by {
        FoundHasInum(t[Parent(t, path)].slots, Last(path));
      }
      NamedLaw(t, CreateTree(t, path, kind), path, i, q);
    }
  }

  lemma NoParts(t: Tree, path: string)
    ensures |Parts(path)| == 0 ==> Parent(t, path) == 0
  {}

  lemma TreeFacts(t: Tree)
    requires TreeOk(t)
    ensures TreeOk(t) && Safe(t) && t[0].kind == Unused
  {
    hide Safe;
    TreesAreSafe(t);
  }

  lemma FoundHasInum(slots: seq<Dirent>, name: string)
    ensures Lookup(slots, name) == 0 <==> Find(slots, name, 0) == -1
  {}

  /** After link both paths lead to the same file, which is the one it was. */
  lemma LinkLaw(t: Tree, from: string, to: string, q: string)
    requires TreeOk(t) && CanLink(t, from, to)
    ensures var t' := LinkTree(t, from, to);
            && Resolve(t', to, false) == Resolve(t', from, false) == Resolve(t, from, false) != 0
            && Resolve(t, to, false) == 0
            && (Resolve(t, q, false) != 0 || !Via(t, q, Parent(t, to), Last(to)) ==>
                  Resolve(t', q, false) == Resolve(t, q, false))
  {
    hide Find, Parts, Put, TreeOk, Via, WalkTo, ParentOf;
    NoParts(t, to);
    TreeFacts(t);
    LastStep(t, to);
    var i := Resolve(t, from, false);
    assert NameGiven(t, LinkTree(t, from, to), Parent(t, to), Last(to), i);
    NamedLaw(t, LinkTree(t, from, to), to, i, q);
    NamedLaw(t, LinkTree(t, from, to), to, i, from);
  }

  /** What open opens is what the path leads to afterwards. */
  lemma OpenLaw(t: Tree, path: string, create: bool)
    requires TreeOk(t)
    ensures var i, t' := FileTable.OpenedInode(t, path, create), FileTable.OpenedTree(t, path, create);
            && (0 < i < NINODES ==> Resolve(t', path, false) == i)
            && (i == 0 ==> var j := Resolve(t', path, false);
                           j == 0 || (create && j < NINODES && t[j].kind != File))
  {
    hide Parts, WalkTo, ParentOf, TreeOk, CreateTree, CreateInum, Via, Makes;
    if create {
      CreateLaw(t, path, File, path);
    }
  }

  // ---------- unlink ----------

  lemma RemovedAlike(t: Tree, d: nat, k: nat)
    requires CanRemove(t, d, k)
    ensures var name := t[d].slots[k].name;
            Alike(t, Removed(t, d, k), d, name) && Lookup(Removed(t, d, k)[d].slots, name) == 0
  {
    hide Find, Lookup, Ord, Sub, CountOk, SlotOk, Unique;
    RemoveFacts(t, d, k);
    assert DirOk(t, d);
    var t', name := Removed(t, d, k), t[d].slots[k].name;
    ClearIsRemove(t[d].slots, k, name);
    forall n | n !in {name} ensures Lookup(t'[d].slots, n) == Lookup(t[d].slots, n) {
      ClearIsRemove(t[d].slots, k, n);
    }
  }

  /** Nobody walks to an inode without links, so its going changes no walk. */
  lemma {:induction false} GoneWalks(t: Tree, i: nat, r: nat, names: seq<string>)
    requires TreeOk(t) && 0 < i < NINODES && i != ROOTINO && t[i].nlink == 0 && Live(t, r)
    ensures WalkTo(t[i := BLANK], r, names) == WalkTo(t, r, names)
    decreases |names|
  {
    hide TreeOk, Safe;
    if |names| > 0 && t[r].kind == Dir {
      TreesAreSafe(t);
      LookupIsLive(t, r, names[0]);
      var j := Lookup(t[r].slots, names[0]);
      if 0 < j < NINODES {
        GoneWalks(t, i, j, names[1..]);
      }
    }
  }

  /** The same without and with the freeing of the inode. */
  lemma UnlinkSame(t: Tree, path: string, open: bool, q: string)
    requires TreeOk(t) && CanUnlink(t, path) && CanRemove(t, Parent(t, path), Slot(t, path))
    ensures Resolve(UnlinkTree(t, path, open), q, false) ==
            Resolve(Removed(t, Parent(t, path), Slot(t, path)), q, false)
  {
    hide Find, Parts, TreeOk, WalkTo, ParentOf, Parent, CanRemove;
    var t1, i := Removed(t, Parent(t, path), Slot(t, path)), Target(t, path);
    if Vanishes(t, path, open) {
      RemoveKeeps(t, Parent(t, path), Slot(t, path));
      RootStays(t, Parent(t, path), Slot(t, path));
      TreesAreSafe(t1);
      RootIsLive(t1);
      GoneWalks(t1, i, ROOTINO, Parts(q));
    }
  }

  lemma RootStays(t: Tree, d: nat, k: nat)
    requires CanRemove(t, d, k)
    ensures 0 < t[d].slots[k].inum < NINODES && t[d].slots[k].inum != ROOTINO
  {}

  lemma SlotName(t: Tree, path: string)
    requires Slot(t, path) != -1
    ensures var d := Parent(t, path);
            0 < d < NINODES && t[d].slots[Slot(t, path)].inum != 0 && t[d].slots[Slot(t, path)].name == Last(path)
  {
    hide Parts, Parent, Last;
  }

  lemma MayGo(t: Tree, d: nat, k: nat)
    requires TreeOk(t) && Live(t, d) && t[d].kind == Dir && 2 <= k < |t[d].slots|
    requires 0 < t[d].slots[k].inum < NINODES && !HasEntries(t[t[d].slots[k].inum])
    ensures CanRemove(t, d, k)
  {
    hide TreeOk, CanRemove;
    Removable(t, d, k);
  }

  /** The path of a name goes by its entry. */
  lemma {:induction false} TakesLast(t: Tree, i: nat, names: seq<string>)
    requires i < NINODES && |names| > 0 && ParentOf(t, i, names) != 0
    ensures Takes(t, i, names, ParentOf(t, i, names), names[|names| - 1])
    decreases |names|
  {
    if |names| > 1 {
      TakesLast(t, Lookup(t[i].slots, names[0]), names[1..]);
    }
  }

  /** After unlink the path leads nowhere, nor does any path by the same entry; every other path leads where
      it did. */
  lemma UnlinkLaw(t: Tree, path: string, open: bool, q: string)
    requires TreeOk(t) && CanUnlink(t, path)
    ensures Resolve(UnlinkTree(t, path, open), path, false) == 0
    ensures Resolve(UnlinkTree(t, path, open), q, false) ==
            if Via(t, q, Parent(t, path), Last(path)) then 0 else Resolve(t, q, false)
  {
    hide Find, Parts, Takes, Slot, WalkTo, ParentOf, CanRemove, HasEntries, Safe, Alike, UnlinkTree, TreeOk;
    var d, k := Parent(t, path), Slot(t, path);
    SlotName(t, path);
    TreeFacts(t);
    RootIsLive(t);
    NoParts(t, path);
    LastStep(t, path);
    MayGo(t, d, k);
    RemovedAlike(t, d, k);
    UnlinkSame(t, path, open, path);
    UnlinkSame(t, path, open, q);
    TakesLast(t, ROOTINO, Parts(path));
    LostWalks(t, Removed(t, d, k), d, Last(path), ROOTINO, Parts(path));
    if Via(t, q, d, Last(path)) {
      LostWalks(t, Removed(t, d, k), d, Last(path), ROOTINO, Parts(q));
    } else {
      SameWalks(t, Removed(t, d, k), d, Last(path), ROOTINO, Parts(q));
    }
  }

  // ---------- when link and unlink do something ----------

  /** A directory with a name besides its dots. */
  ghost predicate Populated(t: Tree, i: nat)
    requires i < NINODES
  {
    t[i].kind == Dir && exists n :: n != "." && n != ".." && Lookup(t[i].slots, n) != 0
  }

  lemma PopulatedIs(t: Tree, i: nat)
    requires TreeOk(t) && Live(t, i)
    ensures Populated(t, i) <==> HasEntries(t[i])
  {
    hide Ord, Sub, CountOk;
    if t[i].kind == Dir {
      assert DirOk(t, i);
      if Populated(t, i) {
        var n :| n != "." && n != ".." && Lookup(t[i].slots, n) != 0;
        var k := Find(t[i].slots, n, 0);
        assert k >= 2;
      }
      if HasEntries(t[i]) {
        var k :| 2 <= k < |t[i].slots| && t[i].slots[k].inum != 0;
        assert SlotOk(t, i, t[i].slots[k]);
        StandsFor(t[i].slots, k);
      }
    }
  }

  /** unlink removes whatever the path leads to, unless its last name is a dot or it is a directory with names. */
  lemma UnlinkIff(t: Tree, path: string)
    requires TreeOk(t)
    ensures var j := Resolve(t, path, false);
            CanUnlink(t, path) <==>
              && |Parts(path)| > 0 && Last(path) != "." && Last(path) != ".."
              && 0 < j < NINODES && !Populated(t, j)
  {
    hide Find, Parts, WalkTo, ParentOf, HasEntries, Safe, TreeOk, Populated;
    TreeFacts(t);
    RootIsLive(t);
    NoParts(t, path);
    if Parent(t, path) != 0 {
      var d := Parent(t, path);
      LastStep(t, path);
      DotsFirst(t, d, Last(path));
      LookupIsLive(t, d, Last(path));
      FoundHasInum(t[d].slots, Last(path));
      if Resolve(t, path, false) != 0 {
        PopulatedIs(t, Resolve(t, path, false));
      }
    } else if |Parts(path)| > 0 {
      LastStep(t, path);
    }
  }

  /** link gives a file one more name exactly if the one path leads to a file, and the other nowhere but has a
      directory to end in. */
  lemma LinkIff(t: Tree, from: string, to: string)
    requires TreeOk(t)
    ensures var i := Resolve(t, from, false);
            CanLink(t, from, to) <==>
              0 < i < NINODES && t[i].kind != Dir && Parent(t, to) != 0 && Resolve(t, to, false) == 0
  {
    hide Find, Parts, WalkTo, ParentOf, Safe, TreeOk;
    TreeFacts(t);
    NoParts(t, to);
    if Parent(t, to) != 0 {
      LastStep(t, to);
      FoundHasInum(t[Parent(t, to)].slots, Last(to));
    }
  }
}
