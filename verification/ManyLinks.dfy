/** How unlink's panic comes about: with 32768 names a file's link count, a short, is negative, and calls
    from formatting on lead there, through three directories that the disk has room for. */
module ManyLinks {
  import opened Directories
  import opened LinkCounts
  import opened LinkRange
  import Layout
  import opened NameEffects
  import opened NamesOnDisk
  import opened NameHistories
  import B = DirectoryBlocks
  import C = LinkCalls
  import F = FileNames
  import N = Namespace
  import Paths

  /** Different names for different numbers. */
  function Numbered(k: nat): string
    requires k < 16384
  {
    [(64 + k / 128) as char, (64 + k % 128) as char]
  }

  lemma NumberedApart(j: nat, k: nat)
    requires j < 16384 && k < 16384 && Numbered(j) == Numbered(k)
    ensures j == k
  {
    assert Numbered(j)[0] as int == 64 + j / 128 && Numbered(j)[1] as int == 64 + j % 128;
    assert Numbered(k)[0] as int == 64 + k / 128 && Numbered(k)[1] as int == 64 + k % 128;
  }

  lemma NumberedFree(k: nat)
    requires k < 16384
    ensures Numbered(k) != "." && Numbered(k) != ".."
  {
    assert Numbered(k)[0] as int >= 64;
  }

  /** Directory d, without numbered names, gets n of them for file i. */
  function AddLinks(t: Tree, d: nat, i: nat, n: nat): Tree
    requires d < NINODES && i < NINODES && n <= 16384
  {
    if n == 0 then t else MoreLinks(AddLinks(t, d, i, n - 1), d, Numbered(n - 1), i)
  }

  ghost predicate CanAdd(t: Tree, d: nat, i: nat) {
    && GoodTree(t) && 0 < d < NINODES && Linked(t[d], d) && 0 < i < NINODES && i != ROOTINO && i != d
    && t[i].kind == File && |t[d].slots| <= 10
    && forall k :: 0 <= k < 16384 ==> Lookup(t[d].slots, Numbered(k)) == 0
  }

  /** So far n names were added. */
  ghost predicate Added(t: Tree, t': Tree, d: nat, i: nat, n: nat) {
    && d < NINODES && i < NINODES && d != i && GoodTree(t')
    && t' == t[d := t[d].(slots := t'[d].slots)][i := t[i].(nlink := t[i].nlink + n)]
    && |t'[d].slots| <= |t[d].slots| + n
    && forall k :: n <= k < 16384 ==> Lookup(t'[d].slots, Numbered(k)) == 0
  }

  lemma {:induction false} LinksAdd(t: Tree, d: nat, i: nat, n: nat)
    requires CanAdd(t, d, i) && n <= 11000
    ensures Added(t, AddLinks(t, d, i, n), d, i, n)
  {
    hide GoodTree, Lookup;
    if n > 0 {
      LinksAdd(t, d, i, n - 1);
      AddOne(t, AddLinks(t, d, i, n - 1), d, i, n - 1);
    }
  }

  lemma AddOne(t: Tree, t1: Tree, d: nat, i: nat, n: nat)
    requires CanAdd(t, d, i) && Added(t, t1, d, i, n) && n < 16384
    ensures Added(t, MoreLinks(t1, d, Numbered(n), i), d, i, n + 1)
  {
    hide GoodTree, Lookup, Find, FreeSlot, Unique, DirOk;
    var name := Numbered(n);
    assert Lookup(t1[d].slots, name) == 0;
    NumberedFree(n);
    NoLookup(t1[d].slots, name);
    CanNameIn(t1, d, name, i);
    MoreLinksIsGood(t1, d, name, i);
    UniqueIn(t1, d);
    var t2 := MoreLinks(t1, d, name, i);
    forall k | n + 1 <= k < 16384 ensures Lookup(t2[d].slots, Numbered(k)) == 0 {
      if Numbered(k) == name { NumberedApart(k, n); }
      PutIsInsert(t1[d].slots, name, i, Numbered(k));
    }
  }

  lemma NoLookup(slots: seq<Dirent>, name: string)
    requires Lookup(slots, name) == 0
    ensures Find(slots, name, 0) == -1
  {}

  lemma UniqueIn(t: Tree, d: nat)
    requires GoodTree(t) && 0 < d < NINODES && Linked(t[d], d)
    ensures Unique(t[d].slots)
  {
    hide CountOk, SlotOk, Unique, Sub;
    assert DirOk(t, d);
  }

  lemma CanNameIn(t: Tree, d: nat, name: string, i: nat)
    requires GoodTree(t) && 0 < d < NINODES && Linked(t[d], d) && 0 < i < NINODES && i != ROOTINO && i != d
    requires name != "." && name != ".." && Find(t[d].slots, name, 0) == -1
    ensures CanName(t, d, name, i)
  {
    hide DirOk, CountOk, Sub;
  }

  // ---------- three directories and a file ----------

  /** The root with directories "a", "b", "c" and a file "f". */
  function Start(): Tree {
    NewFile(NewDir(NewDir(NewDir(FreshTree(), 1, "a", 2), 1, "b", 3), 1, "c", 4), 1, "f", 5)
  }

  const ROOTSLOTS := [Dirent(1, "."), Dirent(1, ".."), Dirent(2, "a"), Dirent(3, "b"), Dirent(4, "c"), Dirent(5, "f")]

  lemma Appends(slots: seq<Dirent>, name: string, inum: nat)
    requires forall k :: 0 <= k < |slots| ==> slots[k].inum != 0
    ensures Put(slots, name, inum) == slots + [Dirent(inum, name)]
  {}

  lemma Absent(slots: seq<Dirent>, name: string)
    requires forall k :: 0 <= k < |slots| ==> slots[k].name != name
    ensures Find(slots, name, 0) == -1 && Lookup(slots, name) == 0
  {}

  /** One more directory in the root. */
  lemma AnotherDir(t: Tree, slots: seq<Dirent>, name: string, i: nat)
    requires GoodTree(t) && t[1].slots == slots && 1 < i < NINODES && t[i].kind == Unused && t[1].nlink > 0
    requires forall k :: 0 <= k < |slots| ==> slots[k].inum != 0 && slots[k].name != name
    requires name != "." && name != ".."
    ensures GoodTree(NewDir(t, 1, name, i)) && GoodTree(NewFile(t, 1, name, i))
    ensures NewDir(t, 1, name, i)[1].slots == slots + [Dirent(i, name)]
    ensures NewFile(t, 1, name, i)[1].slots == slots + [Dirent(i, name)]
  {
    hide CountOk, DirOk, Sub, Find, Put;
    Appends(slots, name, i);
    Absent(slots, name);
    CanNameIn(t, 1, name, i);
    NewDirIsGood(t, 1, name, i);
    NewFileIsGood(t, 1, name, i);
  }

  lemma StartIsGood()
    ensures GoodTree(Start()) && Start()[1].slots == ROOTSLOTS && Start()[1].kind == Dir
    ensures Start()[5] == Node(File, 1, [])
    ensures forall i :: 2 <= i <= 4 ==> Start()[i] == Node(Dir, 1, [Dirent(i, "."), Dirent(1, "..")])
  {
    hide GoodTree, Put;
    var s0 := [Dirent(1, "."), Dirent(1, "..")];
    var s1 := s0 + [Dirent(2, "a")];
    var s2 := s1 + [Dirent(3, "b")];
    var s3 := s2 + [Dirent(4, "c")];
    FreshIsGood();
    var t0 := FreshTree();
    AnotherDir(t0, s0, "a", 2);
    var t1 := NewDir(t0, 1, "a", 2);
    AnotherDir(t1, s1, "b", 3);
    var t2 := NewDir(t1, 1, "b", 3);
    AnotherDir(t2, s2, "c", 4);
    AnotherDir(NewDir(t2, 1, "c", 4), s3, "f", 5);
  }

  /** Names for file 5 in directories 2, 3 and 4, so many in each. */
  function Crowded(n: nat): Tree
    requires n <= 16384
  {
    AddLinks(AddLinks(AddLinks(Start(), 2, 5, n), 3, 5, n), 4, 5, n)
  }

  lemma DotsOnly(t: Tree, d: nat)
    requires GoodTree(t) && 2 <= d <= 4 && t[d] == Node(Dir, 1, [Dirent(d, "."), Dirent(1, "..")]) && t[5].kind == File
    ensures CanAdd(t, d, 5)
  {
    hide GoodTree;
    var slots := t[d].slots;
    forall k | 0 <= k < 16384 ensures Lookup(slots, Numbered(k)) == 0 {
      NumberedFree(k);
      Absent(slots, Numbered(k));
    }
  }

  /** All in order, no directory near its largest size, and 1 + 3n names for the file. */
  lemma CrowdedIsGood(n: nat)
    requires n <= 11000
    ensures GoodTree(Crowded(n)) && Crowded(n)[5].nlink == 1 + 3 * n
    ensures Crowded(n)[1].slots == ROOTSLOTS && Crowded(n)[1].kind == Dir
    ensures forall d :: 1 <= d <= 4 ==> !NoSlot(Crowded(n)[d].slots)
  {
    hide GoodTree, Start, AddLinks, FreeSlot;
    StartIsGood();
    var t0 := Start();
    DotsOnly(t0, 2);
    LinksAdd(t0, 2, 5, n);
    var t1 := AddLinks(t0, 2, 5, n);
    DotsOnly(t1, 3);
    LinksAdd(t1, 3, 5, n);
    var t2 := AddLinks(t1, 3, 5, n);
    DotsOnly(t2, 4);
    LinksAdd(t2, 4, 5, n);
  }

  // ---------- paths ----------

  lemma OnePart(c: char)
    requires c != '/'
    ensures Paths.Parts(['/', c]) == [[c]]
  {
    var p := ['/', c];
    Paths.SlashesSkip(p);
    assert p[1..] == [c] && [c] + "" == [c];
    Paths.WordThenRest([c], "");
    assert Paths.Parts("") == [];
  }

  lemma TwoParts(c: char, x: string)
    requires c != '/' && 0 < |x| < DIRSIZ && Paths.NoSlash(x)
    ensures Paths.Parts(['/', c, '/'] + x) == [[c], x]
  {
    var p := ['/', c, '/'] + x;
    Paths.SlashesSkip(p);
    assert p[1..] == [c] + (['/'] + x);
    Paths.WordThenRest([c], ['/'] + x);
    Paths.SlashesSkip(['/'] + x);
    assert (['/'] + x)[1..] == x && x + "" == x;
    Paths.WordThenRest(x, "");
    assert Paths.Parts("") == [];
  }

  // ---------- runs of calls ----------

  /** The calls are legal, none of them panics, and this is what they make of the store. */
  ghost predicate Runs(s: Store, calls: seq<Call>, s': Store) {
    Legal(s, calls) && GoesTo(s, calls, |calls|) && After(s, calls) == s'
  }

  lemma RunsNone(s: Store)
    ensures Runs(s, [], s)
  {}

  lemma RunsOn(s: Store, calls: seq<Call>, s1: Store, c: Call)
    requires Runs(s, calls, s1) && Allowed(c, s1) && !Panics(c, s1)
    ensures Runs(s, calls + [c], Effect(c, s1))
  {
    hide Allowed, Panics, Effect;
    var more := calls + [c];
    assert more[..|more| - 1] == calls;
    forall k | 0 <= k < |more|
      ensures Allowed(more[k], After(s, more[..k])) && !Panics(more[k], After(s, more[..k]))
    {
      assert more[..k] == calls[..k];
      if k == |calls| { assert calls[..k] == calls; }
    }
  }

  /** A tree with nothing in its files. */
  function Empty(t: Tree): Store { Store(t, Formatted().files) }

  const PAD: seq<int> := [0, 0]

  // ---------- the disk has room ----------

  /** The root with its few names, three directories that are large, and no other. */
  ghost predicate Small(t: Tree) {
    && t[0].kind != Dir && t[1].kind == Dir && |t[1].slots| <= 6
    && (forall i :: 2 <= i < 5 ==> |t[i].slots| <= 10925)
    && (forall i :: 5 <= i < NINODES ==> t[i].kind != Dir)
  }

  const LARGEST := Layout.BlocksFor(ENTRY * 10925)

  lemma SizesOf(t: Tree, i: nat)
    requires Small(t) && i < NINODES
    ensures Layout.BlocksFor(SizeOf(Empty(t), i)) <= if i == 1 then 1 else if 2 <= i < 5 then LARGEST else 0
  {}

  lemma {:induction false} StoredIsSmall(t: Tree, n: nat)
    requires Small(t) && n <= NINODES
    ensures StoredBlocks(Empty(t), n) <= if n < 2 then 0 else if n < 5 then 1 + LARGEST * (n - 2) else 1 + LARGEST * 3
  {
    hide Layout.BlocksFor, SizeOf, Small, Empty;
    if n > 0 {
      StoredIsSmall(t, n - 1);
      SizesOf(t, n - 1);
    }
  }

  /** So there is always room for another name, or another directory. */
  lemma RoomLeft(t: Tree)
    requires Small(t)
    ensures FreeBeside(Empty(t)) >= 3
  {
    hide StoredBlocks, Small;
    StoredIsSmall(t, NINODES);
  }

  lemma NamesAreCheap(slots: seq<Dirent>)
    requires |slots| <= 10925
    ensures NameCost(slots) <= 2 && !NoSlot(slots)
  {}

  // ---------- one call ----------

  /** create of a one-letter name in the root. */
  lemma MakeStep(t: Tree, c: char, i: nat, dir: bool)
    requires Small(t) && c != '/' && 0 < c as int < 256 && 1 < i < NINODES
    requires Find(t[1].slots, [c], 0) == -1 && C.FirstUnused(t, 1) == i
    ensures var call := MakeCall(['/', c], dir, PAD);
            && Allowed(call, Empty(t)) && !Panics(call, Empty(t))
            && Effect(call, Empty(t)) == Empty(if dir then NewDir(t, 1, [c], i) else NewFile(t, 1, [c], i))
  {
    hide Find, FreeSlot, StoredBlocks, Formatted, Paths.Parts;
    OnePart(c);
    RoomLeft(t);
    NamesAreCheap(t[1].slots);
    assert Parent(t, ['/', c]) == 1;
  }

  function PathIn(c: char, k: nat): string
    requires k < 16384
  {
    ['/', c, '/'] + Numbered(k)
  }

  lemma PathInParts(c: char, k: nat)
    requires k < 16384 && c != '/'
    ensures Paths.Parts(PathIn(c, k)) == [[c], Numbered(k)]
    ensures 0 < c as int < 256 ==> B.CharsOk(PathIn(c, k))
  {
    var x := Numbered(k);
    assert x[0] as int == 64 + k / 128 && x[1] as int == 64 + k % 128;
    TwoParts(c, x);
  }

  /** link of "/f" to a numbered name in directory d, which the root knows by a letter. */
  lemma LinkStep(t: Tree, c: char, d: nat, k: nat)
    requires Small(t) && t[1].slots == ROOTSLOTS && t[5].kind == File && 2 <= d <= 4 && t[d].kind == Dir
    requires c != '/' && 0 < c as int < 256 && Lookup(ROOTSLOTS, [c]) == d
    requires k < 16384 && Lookup(t[d].slots, Numbered(k)) == 0
    ensures var call := LinkCall("/f", PathIn(c, k), PAD);
            && Allowed(call, Empty(t)) && !Panics(call, Empty(t))
            && Effect(call, Empty(t)) == Empty(MoreLinks(t, d, Numbered(k), 5))
  {
    hide Lookup, FreeSlot, StoredBlocks, Formatted, Paths.Parts, Numbered, ROOTSLOTS, Small, NoSlot;
    OnePart('f');
    assert "/f" == ['/', 'f'];
    PathInParts(c, k);
    WhereTo(t, c, d, Numbered(k));
    NoLookup(t[d].slots, Numbered(k));
    RoomLeft(t);
    SmallDirs(t, d);
    NamesAreCheap(t[d].slots);
    assert F.Resolve(t, "/f", false) == 5;
    assert Parent(t, PathIn(c, k)) == d;
  }

  lemma SmallDirs(t: Tree, d: nat)
    requires Small(t) && 2 <= d <= 4
    ensures |t[d].slots| <= 10925
  {}

  lemma {:induction false} WhereTo(t: Tree, c: char, d: nat, x: string)
    requires Small(t) && t[1].slots == ROOTSLOTS && 2 <= d <= 4 && t[d].kind == Dir && Lookup(ROOTSLOTS, [c]) == d
    ensures N.WalkTo(t, 1, ["f"]) == 5 && N.ParentOf(t, 1, [[c], x]) == d
  {
    hide Find, ROOTSLOTS;
    FindF();
    var f, names := ["f"], [[c], x];
    assert |f[1..]| == 0 && names[1..] == [x];
  }

  lemma FindF()
    ensures Find(ROOTSLOTS, "f", 0) == 5 && Lookup(ROOTSLOTS, "f") == 5
    ensures Lookup(ROOTSLOTS, "a") == 2 && Lookup(ROOTSLOTS, "b") == 3 && Lookup(ROOTSLOTS, "c") == 4
  {
    FindAt(ROOTSLOTS, 2);
    FindAt(ROOTSLOTS, 3);
    FindAt(ROOTSLOTS, 4);
    FindAt(ROOTSLOTS, 5);
  }

  lemma FindAt(slots: seq<Dirent>, k: nat)
    requires k < |slots| && slots[k].inum != 0 && forall j :: 0 <= j < k ==> slots[j].name != slots[k].name
    ensures Find(slots, slots[k].name, 0) == k && Lookup(slots, slots[k].name) == slots[k].inum
  {
    var r := Find(slots, slots[k].name, 0);
    assert r != -1;
  }

  // ---------- all calls ----------

  function StartCalls(): seq<Call> {
    [MakeCall("/a", true, PAD), MakeCall("/b", true, PAD), MakeCall("/c", true, PAD), MakeCall("/f", false, PAD)]
  }

  /** The first n names for "/f" in a directory. */
  function LinkCallsIn(c: char, n: nat): seq<Call>
    requires n <= 16384
  {
    if n == 0 then [] else LinkCallsIn(c, n - 1) + [LinkCall("/f", PathIn(c, n - 1), PAD)]
  }

  function CrowdCalls(n: nat): seq<Call>
    requires n <= 16384
  {
    StartCalls() + LinkCallsIn('a', n) + LinkCallsIn('b', n) + LinkCallsIn('c', n)
  }

  /** A run of links in one directory, after other calls. */
  lemma {:induction false} LinksRun(s: Store, calls: seq<Call>, t: Tree, c: char, d: nat, n: nat)
    requires Runs(s, calls, Empty(t)) && CanAdd(t, d, 5) && 2 <= d <= 4 && n <= 10923
    requires Small(t) && t[1].slots == ROOTSLOTS && |t[d].slots| == 2
    requires c != '/' && 0 < c as int < 256 && Lookup(ROOTSLOTS, [c]) == d
    ensures Runs(s, calls + LinkCallsIn(c, n), Empty(AddLinks(t, d, 5, n)))
  {
    hide GoodTree, Lookup, Runs, Small, Empty, CanAdd, Effect, Panics, Allowed, ROOTSLOTS, PathIn;
    if n == 0 {
      assert calls + [] == calls;
    } else {
      LinksRun(s, calls, t, c, d, n - 1);
      LinksAdd(t, d, 5, n - 1);
      var t1 := AddLinks(t, d, 5, n - 1);
      StillSmall(t, t1, d, n - 1);
      LinkStep(t1, c, d, n - 1);
      var before, call := calls + LinkCallsIn(c, n - 1), LinkCall("/f", PathIn(c, n - 1), PAD);
      RunsOn(s, before, Empty(t1), call);
      assert before + [call] == calls + LinkCallsIn(c, n);
    }
  }

  lemma StillSmall(t: Tree, t': Tree, d: nat, n: nat)
    requires Small(t) && Added(t, t', d, 5, n) && n <= 10923 && 2 <= d <= 4 && |t[d].slots| == 2 && CanAdd(t, d, 5)
    ensures Small(t') && t'[1].slots == t[1].slots && t'[5].kind == File && t'[d].kind == Dir
    ensures n < 16384 ==> Lookup(t'[d].slots, Numbered(n)) == 0
  {
    hide GoodTree, Lookup;
  }

  /** One more name in the root. */
  lemma StartStep(s: Store, calls: seq<Call>, t: Tree, slots: seq<Dirent>, c: char, i: nat, dir: bool)
    requires Runs(s, calls, Empty(t)) && Small(t) && t[1].slots == slots && 1 < i < 6
    requires forall k :: 0 <= k < |slots| ==> slots[k].name != [c]
    requires forall k :: 1 <= k < i ==> t[k].kind != Unused
    requires t[i].kind == Unused && c != '/' && 0 < c as int < 256
    ensures Runs(s, calls + [MakeCall(['/', c], dir, PAD)],
                 Empty(if dir then NewDir(t, 1, [c], i) else NewFile(t, 1, [c], i)))
  {
    hide Runs, Small, Empty, Effect, Panics, Allowed, Find, C.FirstUnused;
    Absent(slots, [c]);
    FirstIs(t, 1, i);
    MakeStep(t, c, i, dir);
    RunsOn(s, calls, Empty(t), MakeCall(['/', c], dir, PAD));
  }

  lemma FreshSmall()
    ensures Small(FreshTree()) && Empty(FreshTree()) == Formatted()
    ensures FreshTree()[1].slots == [Dirent(1, "."), Dirent(1, "..")] && FreshTree()[1].nlink == 2
  {}

  /** The first four calls. */
  lemma StartRuns()
    ensures Runs(Formatted(), StartCalls(), Empty(Start())) && Small(Start())
  {
    hide Runs, Empty, Put;
    var s0 := [Dirent(1, "."), Dirent(1, "..")];
    var s1 := s0 + [Dirent(2, "a")];
    var s2 := s1 + [Dirent(3, "b")];
    var s3 := s2 + [Dirent(4, "c")];
    Appends(s0, "a", 2);
    Appends(s1, "b", 3);
    Appends(s2, "c", 4);
    Appends(s3, "f", 5);
    FreshSmall();
    var t0 := FreshTree();
    var t1 := NewDir(t0, 1, "a", 2);
    var t2 := NewDir(t1, 1, "b", 3);
    var t3 := NewDir(t2, 1, "c", 4);
    RunsNone(Formatted());
    StartStep(Formatted(), [], t0, s0, 'a', 2, true);
    StartStep(Formatted(), [] + [MakeCall("/a", true, PAD)], t1, s1, 'b', 3, true);
    StartStep(Formatted(), [] + [MakeCall("/a", true, PAD)] + [MakeCall("/b", true, PAD)], t2, s2, 'c', 4, true);
    var three := [] + [MakeCall("/a", true, PAD)] + [MakeCall("/b", true, PAD)] + [MakeCall("/c", true, PAD)];
    StartStep(Formatted(), three, t3, s3, 'f', 5, false);
    assert three + [MakeCall("/f", false, PAD)] == StartCalls();
  }

  /** All of them. */
  lemma CrowdRuns(n: nat)
    requires n <= 10923
    ensures Runs(Formatted(), CrowdCalls(n), Empty(Crowded(n)))
  {
    hide Runs, Empty, Start, AddLinks, GoodTree, Small, CanAdd, Lookup;
    StartRuns();
    StartIsGood();
    FindF();
    var t0 := Start();
    DotsOnly(t0, 2);
    LinksRun(Formatted(), StartCalls(), t0, 'a', 2, n);
    LinksAdd(t0, 2, 5, n);
    var t1 := AddLinks(t0, 2, 5, n);
    StillSmall(t0, t1, 2, n);
    DotsOnly(t1, 3);
    LinksRun(Formatted(), StartCalls() + LinkCallsIn('a', n), t1, 'b', 3, n);
    LinksAdd(t1, 3, 5, n);
    var t2 := AddLinks(t1, 3, 5, n);
    StillSmall(t1, t2, 3, n);
    DotsOnly(t2, 4);
    LinksRun(Formatted(), StartCalls() + LinkCallsIn('a', n) + LinkCallsIn('b', n), t2, 'c', 4, n);
  }

  /** From formatting on, calls that all go well and then an unlink that panics. */
  lemma UnlinkCanPanic()
    ensures var calls := CrowdCalls(10923) + [UnlinkCall("/f", false)];
            Legal(Formatted(), calls) && GoesTo(Formatted(), calls, |calls| - 1)
  {
    hide GoodTree, Crowded, CrowdCalls, Formatted;
    var before := CrowdCalls(10923);
    CrowdRuns(10923);
    CrowdedIsGood(10923);
    UnlinkOfF(Crowded(10923));
    ThenPanics(Formatted(), before, Empty(Crowded(10923)), UnlinkCall("/f", false));
  }

  lemma UnlinkOfF(t: Tree)
    requires t[1].slots == ROOTSLOTS && t[1].kind == Dir && 0x8000 <= t[5].nlink < 0x1_0000
    ensures UnlinkFails(t, "/f")
  {
    hide Paths.Parts;
    OnePart('f');
    assert "/f" == ['/', 'f'];
    FindF();
  }

  lemma ThenPanics(s: Store, calls: seq<Call>, s1: Store, c: Call)
    requires Runs(s, calls, s1) && Allowed(c, s1) && Panics(c, s1)
    ensures Legal(s, calls + [c]) && GoesTo(s, calls + [c], |calls|)
  {
    hide Allowed, Panics, Effect;
    var more := calls + [c];
    forall k | 0 <= k < |more|
      ensures Allowed(more[k], After(s, more[..k])) && (Panics(more[k], After(s, more[..k])) <==> k == |calls|)
    {
      assert more[..k] == calls[..k];
      if k == |calls| { assert calls[..k] == calls; }
    }
  }
}
