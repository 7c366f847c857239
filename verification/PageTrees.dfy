/** The pages of a tree in the order in which destroy_pgtbl gives them back, and why each of them
    comes exactly once. */
module PageTrees {
  import opened Lists
  import opened PageTables
  import opened PhysicalPages

  const ENTRIES: nat := 512

  /** The pages under the first n entries of table p of height h, children before parents. */
  function Kids(m: Memory, p: nat, h: nat, n: nat): seq<nat>
    requires p < PAGES && h > 0 && n <= 512
    decreases h, n
  {
    if n == 0 then []
    else
      var q := Target(Entry(m[p], n - 1));
      Kids(m, p, h, n - 1) + Child(m, q, h)
  }

  /** The pages an entry leads to; a page beyond the memory would be one. */
  function Child(m: Memory, q: nat, h: nat): seq<nat>
    requires h > 0
    decreases h, 0
  {
    if q == 0 then [] else if q < PAGES then Subtree(m, q, h - 1) else [q]
  }

  function Subtree(m: Memory, p: nat, h: nat): seq<nat>
    requires p < PAGES
    decreases h, 513
  {
    (if h == 0 then [] else Kids(m, p, h, ENTRIES)) + [p]
  }

  lemma KidsStep(m: Memory, p: nat, h: nat, n: nat)
    requires p < PAGES && h > 0 && 0 < n <= 512
    ensures var q := Target(Entry(m[p], n - 1));
            Kids(m, p, h, n) == Kids(m, p, h, n - 1) + Child(m, q, h)
  {}

  lemma TopLast(m: Memory, p: nat, h: nat)
    requires p < PAGES
    ensures p in Subtree(m, p, h)
  {}

  /** Every entry of the lowest tables under root is empty or leads to a user page. */
  ghost predicate OnlyUser(m: Memory, owner: Owners, root: nat) {
    forall p, i :: IsTable(owner, p) && owner[p].height == 1 && owner[p].root == root && 0 <= i < 512 ==>
      LeavesUser(m, p, i)
  }

  predicate LeavesUser(m: Memory, p: nat, i: nat)
    requires p < PAGES && i < 512
  {
    Entry(m[p], i) == 0 || User(Entry(m[p], i))
  }

  /** The owner's place lies under (root, h, b). */
  predicate Under(o: Owner, root: nat, h: nat, b: nat) {
    o.Node? && o.root == root && o.height <= h && Prefix(o.base, h - o.height) == b
  }

  /** Entry i of table p leads nowhere, or to the page that hangs there. */
  lemma ChildOf(m: Memory, owner: Owners, p: nat, i: nat)
    requires Trees(m, owner) && owner[0].Taken? && IsTable(owner, p) && i < 512 && OnlyUser(m, owner, owner[p].root)
    ensures var q := Target(Entry(m[p], i));
            if q == 0 then Entry(m[p], i) == 0
            else q < PAGES && owner[q] == Node(owner[p].height - 1, owner[p].root, p, owner[p].base * 512 + i)
  {
    hide Entry;
    assert EntryOk(m, owner, p, i);
    if owner[p].height == 1 {
      assert LeavesUser(m, p, i);
    }
  }

  /** Every page of a subtree lies under its top. */
  lemma {:induction false} SubtreeUnder(m: Memory, owner: Owners, p: nat, h: nat, q: nat)
    requires Trees(m, owner) && owner[0].Taken? && p < PAGES && owner[p].Node? && owner[p].height == h
    requires OnlyUser(m, owner, owner[p].root) && q in Subtree(m, p, h)
    ensures q < PAGES && Under(owner[q], owner[p].root, h, owner[p].base) && (q == p || owner[q].height < h)
    decreases h, 513
  {
    hide Entry, Trees, OnlyUser;
    if q != p {
      KidsUnder(m, owner, p, h, ENTRIES, q);
      PrefixSplit(owner[q].base, h - owner[q].height);
    }
  }

  lemma {:induction false} KidsUnder(m: Memory, owner: Owners, p: nat, h: nat, n: nat, q: nat)
    requires Trees(m, owner) && owner[0].Taken? && IsTable(owner, p) && owner[p].height == h && n <= 512
    requires OnlyUser(m, owner, owner[p].root) && q in Kids(m, p, h, n)
    ensures q < PAGES && owner[q].Node? && owner[q].root == owner[p].root && owner[q].height < h
    ensures owner[p].base * 512 <= Prefix(owner[q].base, h - 1 - owner[q].height) < owner[p].base * 512 + n
    decreases h, n
  {
    hide Entry, Trees, OnlyUser;
    if q in Kids(m, p, h, n - 1) {
      KidsUnder(m, owner, p, h, n - 1, q);
    } else {
      ChildOf(m, owner, p, n - 1);
      SubtreeUnder(m, owner, Target(Entry(m[p], n - 1)), h - 1, q);
    }
  }

  lemma PrefixSplit(b: nat, n: nat)
    requires n > 0
    ensures Prefix(b, n) == Prefix(b, n - 1) / 512
  {}

  /** No page comes twice. */
  lemma {:induction false} SubtreeDistinct(m: Memory, owner: Owners, p: nat, h: nat)
    requires Trees(m, owner) && owner[0].Taken? && p < PAGES && owner[p].Node? && owner[p].height == h
    requires OnlyUser(m, owner, owner[p].root)
    ensures Distinct(Subtree(m, p, h))
    decreases h, 513
  {
    hide Entry, Trees, OnlyUser;
    if h == 0 {
      assert Subtree(m, p, h) == [p];
      assert Distinct([p][..0]);
    } else {
      KidsDistinct(m, owner, p, h, ENTRIES);
      var kids := Kids(m, p, h, ENTRIES);
      if p in kids {
        KidsUnder(m, owner, p, h, ENTRIES, p);
      }
      assert Subtree(m, p, h)[..|kids|] == kids;
    }
  }

  lemma {:induction false} KidsDistinct(m: Memory, owner: Owners, p: nat, h: nat, n: nat)
    requires Trees(m, owner) && owner[0].Taken? && IsTable(owner, p) && owner[p].height == h && n <= 512
    requires OnlyUser(m, owner, owner[p].root)
    ensures Distinct(Kids(m, p, h, n))
    decreases h, n
  {
    hide Entry, Trees, OnlyUser, Kids, Subtree, Target, Distinct, Prefix;
    if n == 0 {
      NoKids(m, p, h);
    } else {
      KidsStep(m, p, h, n);
      KidsDistinct(m, owner, p, h, n - 1);
      ChildOf(m, owner, p, n - 1);
      var q := Target(Entry(m[p], n - 1));
      if q > 0 {
        SubtreeDistinct(m, owner, q, h - 1);
        var before, more := Kids(m, p, h, n - 1), Subtree(m, q, h - 1);
        forall x | x in before ensures x !in more {
          KidsUnder(m, owner, p, h, n - 1, x);
          if x in more {
            SubtreeUnder(m, owner, q, h - 1, x);
          }
        }
        DistinctConcat(before, more);
      } else {
        var before := Kids(m, p, h, n - 1);
        assert before + [] == before;
      }
    }
  }

  lemma NoKids(m: Memory, p: nat, h: nat)
    requires p < PAGES && h > 0
    ensures Kids(m, p, h, 0) == [] && Distinct(Kids(m, p, h, 0))
  {}

  // ---------- every page of the tree is met ----------

  lemma {:induction false} KidsHave(m: Memory, p: nat, h: nat, n: nat, i: nat)
    requires p < PAGES && h > 0 && i < n <= 512 && 0 < Target(Entry(m[p], i)) < PAGES
    ensures forall q :: q in Subtree(m, Target(Entry(m[p], i)), h - 1) ==> q in Kids(m, p, h, n)
    decreases n
  {
    hide Entry;
    if i < n - 1 {
      KidsHave(m, p, h, n - 1, i);
    }
  }

  /** With a table, the subtree holds the pages that hang off it. */
  lemma {:induction false} SubtreeClosed(m: Memory, owner: Owners, p: nat, h: nat, t: nat, i: nat)
    requires Trees(m, owner) && owner[0].Taken? && p < PAGES && owner[p].Node? && owner[p].height == h
    requires OnlyUser(m, owner, owner[p].root) && t in Subtree(m, p, h)
    requires IsTable(owner, t) && i < 512 && 0 < Target(Entry(m[t], i)) < PAGES
    ensures Target(Entry(m[t], i)) in Subtree(m, p, h)
    decreases h, 513
  {
    hide Entry, Trees, OnlyUser, Target;
    if t == p {
      KidsHave(m, p, h, ENTRIES, i);
      assert Target(Entry(m[t], i)) in Subtree(m, Target(Entry(m[t], i)), h - 1);
    } else {
      KidsClosed(m, owner, p, h, ENTRIES, t, i);
    }
  }

  lemma {:induction false} KidsClosed(m: Memory, owner: Owners, p: nat, h: nat, n: nat, t: nat, i: nat)
    requires Trees(m, owner) && owner[0].Taken? && IsTable(owner, p) && owner[p].height == h && n <= 512
    requires OnlyUser(m, owner, owner[p].root) && t in Kids(m, p, h, n)
    requires IsTable(owner, t) && i < 512 && 0 < Target(Entry(m[t], i)) < PAGES
    ensures Target(Entry(m[t], i)) in Kids(m, p, h, n)
    decreases h, n
  {
    hide Entry, Trees, OnlyUser, Target;
    if t in Kids(m, p, h, n - 1) {
      KidsClosed(m, owner, p, h, n - 1, t, i);
    } else {
      ChildOf(m, owner, p, n - 1);
      SubtreeClosed(m, owner, Target(Entry(m[p], n - 1)), h - 1, t, i);
    }
  }

  lemma {:induction false} AllPagesMet(m: Memory, owner: Owners, q: nat)
    requires Trees(m, owner) && owner[0].Taken? && q < PAGES && owner[q].Node?
    requires OnlyUser(m, owner, owner[q].root)
    ensures IsRoot(owner, owner[q].root) && q in Subtree(m, owner[q].root, 3)
    decreases 3 - owner[q].height
  {
    hide Entry, OnlyUser, Kids, Subtree, Target, EntryOk;
    assert NodeOk(m, owner, q);
    RootInRange(m, owner, q);
    var root := owner[q].root;
    TopLast(m, root, 3);
    if owner[q].height < 3 {
      var up := owner[q].up;
      InRange(m, owner, q);
      AllPagesMet(m, owner, up);
      SubtreeClosed(m, owner, root, 3, up, owner[q].base % 512);
    }
  }

  /** Nothing hangs at page 0. */
  lemma InRange(m: Memory, owner: Owners, q: nat)
    requires Trees(m, owner) && owner[0].Taken? && q < PAGES && owner[q].Node? && owner[q].height < 3
    ensures IsTable(owner, owner[q].up) && 0 < Target(Entry(m[owner[q].up], owner[q].base % 512)) < PAGES
    ensures Target(Entry(m[owner[q].up], owner[q].base % 512)) == q
  {
    hide Entry;
    assert NodeOk(m, owner, q);
  }

  /** The list holds every page of the tree of root, and no other, exactly once. */
  ghost predicate IsTreeList(s: seq<nat>, owner: Owners, root: nat) {
    && Distinct(s)
    && forall q: nat :: q in s <==> q < PAGES && owner[q].Node? && owner[q].root == root
  }

  lemma TreeListed(m: Memory, owner: Owners, root: nat)
    requires Trees(m, owner) && owner[0].Taken? && IsRoot(owner, root) && OnlyUser(m, owner, root)
    ensures IsTreeList(Subtree(m, root, 3), owner, root)
  {
    hide Entry, EntryOk, OnlyUser, Kids, Subtree, Target;
    assert NodeOk(m, owner, root);
    hide NodeOk;
    SubtreeDistinct(m, owner, root, 3);
    forall q: nat ensures q in Subtree(m, root, 3) <==> q < PAGES && owner[q].Node? && owner[q].root == root {
      if q in Subtree(m, root, 3) {
        SubtreeUnder(m, owner, root, 3, q);
      } else if q < PAGES && owner[q].Node? && owner[q].root == root {
        AllPagesMet(m, owner, q);
      }
    }
  }

  // ---------- giving them back ----------

  ghost predicate SameOn(m: Memory, m': Memory, s: seq<nat>) {
    forall q :: q in s ==> q < PAGES && m'[q] == m[q]
  }

  /** The list is read off its own pages only. */
  lemma {:induction false} SubtreeSame(m: Memory, m': Memory, p: nat, h: nat)
    requires p < PAGES && SameOn(m, m', Subtree(m, p, h))
    ensures Subtree(m', p, h) == Subtree(m, p, h)
    decreases h, 513
  {
    hide Entry;
    TopLast(m, p, h);
    if h > 0 {
      KidsSame(m, m', p, h, ENTRIES);
    }
  }

  lemma {:induction false} KidsSame(m: Memory, m': Memory, p: nat, h: nat, n: nat)
    requires p < PAGES && m'[p] == m[p] && h > 0 && n <= 512
    requires SameOn(m, m', Kids(m, p, h, n))
    ensures Kids(m', p, h, n) == Kids(m, p, h, n)
    decreases h, n
  {
    hide Entry, Target, Kids, Subtree, Child;
    if n == 0 {
      NoKids(m, p, h);
      NoKids(m', p, h);
    } else {
      var q := Target(Entry(m[p], n - 1));
      KidsStep(m, p, h, n);
      KidsStep(m', p, h, n);
      SameOnParts(m, m', Kids(m, p, h, n - 1), Child(m, q, h));
      KidsSame(m, m', p, h, n - 1);
      ChildIs(m, q, h);
      ChildIs(m', q, h);
      if 0 < q < PAGES {
        SubtreeSame(m, m', q, h - 1);
      }
    }
  }

  lemma SameOnParts(m: Memory, m': Memory, a: seq<nat>, b: seq<nat>)
    requires SameOn(m, m', a + b)
    ensures SameOn(m, m', a) && SameOn(m, m', b)
  {
    forall q | q in a || q in b ensures q < PAGES && m'[q] == m[q] {
      assert q in a + b;
    }
  }

  /** What was in the list is free now; everything else is as it was. */
  ghost predicate GaveBack(m: Memory, owner: Owners, m': Memory, owner': Owners, s: seq<nat>) {
    forall q :: 0 <= q < PAGES ==> if q in s then owner'[q].Free? else owner'[q] == owner[q] && m'[q] == m[q]
  }

  ghost predicate AllAvailable(owner: Owners, begin: nat, s: seq<nat>) {
    forall q :: q in s ==> Available(owner, begin, q)
  }

  lemma GaveBackMore(m0: Memory, o0: Owners, m1: Memory, o1: Owners, m2: Memory, o2: Owners, begin: nat, s: seq<nat>,
                     t: seq<nat>)
    requires GaveBack(m0, o0, m1, o1, s) && GaveBack(m1, o1, m2, o2, t) && AllAvailable(o0, begin, s)
    requires SameMaps(m0, o0, m1) && SameMaps(m1, o1, m2)
    ensures GaveBack(m0, o0, m2, o2, s + t) && SameMaps(m0, o0, m2)
  {
    hide Lookup;
    forall r, v | IsRoot(o0, r) && 0 <= v < VPNS ensures Lookup(m2, r, v) == Lookup(m0, r, v) {
      assert r !in s;
      assert IsRoot(o1, r);
    }
  }

  /** When the first i entries are dealt with, the next one's pages are still untouched. */
  lemma NextChild(m: Memory, owner: Owners, m': Memory, owner': Owners, begin: nat, p: nat, h: nat, i: nat)
    requires p < PAGES && h > 0 && i < 512 && Distinct(Subtree(m, p, h)) && AllAvailable(owner, begin, Subtree(m, p, h))
    requires GaveBack(m, owner, m', owner', Kids(m, p, h, i))
    ensures m'[p] == m[p]
    ensures var q := Target(Entry(m[p], i));
            var s := Child(m, q, h);
            && Kids(m, p, h, i + 1) == Kids(m, p, h, i) + s
            && (q > 0 ==> q < PAGES && Subtree(m', q, h - 1) == s)
            && Distinct(s) && AllAvailable(owner', begin, s) && AllAvailable(owner, begin, Kids(m, p, h, i))
  {
    hide Entry, Target, Kids, Subtree, Child, Distinct;
    var q := Target(Entry(m[p], i));
    var s := Child(m, q, h);
    NextList(m, p, h, i);
    forall x | x in s ensures Available(owner', begin, x) && m'[x] == m[x] {
      assert x in Subtree(m, p, h);
      assert Available(owner, begin, x);
    }
    if q > 0 {
      ChildIs(m, q, h);
      assert q in s;
      SubtreeSame(m, m', q, h - 1);
    }
  }

  lemma ChildIs(m: Memory, q: nat, h: nat)
    requires h > 0
    ensures Child(m, q, h) == if q == 0 then [] else if q < PAGES then Subtree(m, q, h - 1) else [q]
    ensures q > 0 ==> q in Child(m, q, h)
  {}

  /** The list of the next entry follows, apart from what came before and from p. */
  lemma NextList(m: Memory, p: nat, h: nat, i: nat)
    requires p < PAGES && h > 0 && i < 512 && Distinct(Subtree(m, p, h))
    ensures var s := Child(m, Target(Entry(m[p], i)), h);
            && Kids(m, p, h, i + 1) == Kids(m, p, h, i) + s && Distinct(s)
            && p in Subtree(m, p, h) && p !in Kids(m, p, h, i)
            && (forall x :: x in s ==> x !in Kids(m, p, h, i) && x in Subtree(m, p, h))
            && (forall x :: x in Kids(m, p, h, i) ==> x in Subtree(m, p, h))
  {
    hide Entry, Target, Child, Distinct;
    var s := Child(m, Target(Entry(m[p], i)), h);
    KidsStep(m, p, h, i + 1);
    KidsPrefix(m, p, h, i, i + 1);
    KidsPrefix(m, p, h, i + 1, ENTRIES);
    DistinctConcat(Kids(m, p, h, ENTRIES), [p]);
    DistinctConcat(Kids(m, p, h, i), s);
  }

  lemma {:induction false} KidsPrefix(m: Memory, p: nat, h: nat, i: nat, n: nat)
    requires p < PAGES && h > 0 && i <= n <= 512
    ensures forall q :: q in Kids(m, p, h, i) ==> q in Kids(m, p, h, n)
    ensures Distinct(Kids(m, p, h, n)) ==> Distinct(Kids(m, p, h, i))
    decreases n
  {
    hide Entry, Target, Subtree, Distinct;
    if i < n {
      KidsPrefix(m, p, h, i, n - 1);
      KidsStep(m, p, h, n);
      DistinctConcat(Kids(m, p, h, n - 1), Child(m, Target(Entry(m[p], n - 1)), h));
    }
  }
}
