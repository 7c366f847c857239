/** uvm_copyin, uvm_copyout and uvm_copyin_str: page by page, and equal to translating and moving
    every byte by itself. */
module UserCopy {
  import opened LittleEndian
  import opened PageTables
  import opened PhysicalPages
  import opened VirtualMemory
  import opened UserMemory

  /** A user page hangs where its translation says. */
  lemma UserPageHangs(m: Memory, owner: Owners, root: nat, va: nat)
    requires Trees(m, owner) && owner[0].Taken? && IsRoot(owner, root)
    ensures var q := UserPage(m, root, va);
            q > 0 ==>
              && q < PAGES && owner[q].Node? && owner[q].height == 0
              && owner[q].root == root && owner[q].base == va / PGSIZE
  {
    hide Entry, User, Target;
    var v := Vpn(va);
    assert NodeOk(m, owner, root);
    RootServesAll(v);
    WalkFinds(m, owner, root, 3, v);
    var p := Walk(m, root, 3, v);
    if UserPage(m, root, va) > 0 {
      assert Prefix(v, 1) == Prefix(v, 0) / 512;
      assert EntryOk(m, owner, p, v % 512);
      BelowMax(va);
    }
  }

  /** The n bytes from address a on lie in user pages. */
  ghost predicate Mapped(m: Memory, root: nat, a: nat, n: nat)
    requires root < PAGES
  {
    forall x :: a <= x < a + n ==> UserPage(m, root, x) > 0
  }

  /** The byte behind a user address. */
  function UserByte(m: Memory, root: nat, a: nat): Byte
    requires root < PAGES
  {
    var q := UserPage(m, root, a);
    if q < PAGES then m[q][a % PGSIZE] else 0
  }

  /** The bytes are those behind the user addresses from a on. */
  ghost predicate IsUserData(m: Memory, root: nat, a: nat, data: seq<Byte>)
    requires root < PAGES
  {
    Mapped(m, root, a, |data|) && forall x :: a <= x < a + |data| ==> data[x - a] == UserByte(m, root, x)
  }

  lemma SameOffset(a: nat, i: nat)
    requires a % PGSIZE + i < PGSIZE
    ensures (a + i) / PGSIZE == a / PGSIZE && (a + i) % PGSIZE == a % PGSIZE + i
  {}

  lemma RoundsDown(a: nat)
    ensures RoundDown(a) / PGSIZE == a / PGSIZE && (RoundDown(a) < MAXVA <==> a < MAXVA)
  {}

  lemma SamePage(m: Memory, root: nat, a: nat, i: nat)
    requires root < PAGES && a % PGSIZE + i < PGSIZE
    ensures UserPage(m, root, a + i) == UserPage(m, root, RoundDown(a))
    ensures (a + i) % PGSIZE == a % PGSIZE + i
  {
    hide Lookup, User, Target, RoundDown;
    RoundsDown(a);
    RoundsDown(a + i);
    SameOffset(a, i);
    assert a + i < MAXVA <==> a < MAXVA;
  }

  /** A piece of one page continues the data. */
  lemma OnePiece(m: Memory, root: nat, a: nat, data: seq<Byte>, q: nat, n: nat)
    requires root < PAGES && IsUserData(m, root, a, data) && 0 < q < PAGES
    requires var b := a + |data|; q == UserPage(m, root, RoundDown(b)) && b % PGSIZE + n <= PGSIZE
    ensures var b := a + |data|; IsUserData(m, root, a, data + m[q][b % PGSIZE..b % PGSIZE + n])
  {
    hide UserPage;
    var b := a + |data|;
    var more := m[q][b % PGSIZE..b % PGSIZE + n];
    forall x | a <= x < a + |data + more|
      ensures UserPage(m, root, x) > 0 && (data + more)[x - a] == UserByte(m, root, x)
    {
      if x >= b {
        SamePage(m, root, b, x - b);
      } else {
        assert data[x - a] == UserByte(m, root, x);
      }
    }
  }

  /** uvm_copyin: 0 exactly when every byte is in a user page below MAXVA; the bytes moved are
      the bytes behind the addresses, up to the first page that is not the user's. */
  method CopyIn(s: Machine, root: nat, src: nat, len: nat) returns (r: int, data: seq<Byte>)
    requires s.Valid() && IsRoot(s.owner, root)
    modifies s
    ensures unchanged(s)
    ensures r == 0 <==> Mapped(s.mem, root, src, len)
    ensures r == 0 || r == -1
    ensures |data| <= len && (r == 0 ==> |data| == len)
    ensures IsUserData(s.mem, root, src, data)
    ensures r != 0 ==> |data| < len && UserPage(s.mem, root, src + |data|) == 0
  {
    hide Trees, FreeList, Lookup, UserPage, UserByte, IsUserData;
    data := [];
    NoData(s.mem, root, src);
    var left, at := len, src;
    while left > 0
      invariant unchanged(s) && 0 <= left <= len && |data| == len - left
      invariant left > 0 ==> at == src + |data|
      invariant IsUserData(s.mem, root, src, data)
    {
      var va0 := RoundDown(at);
      SamePage(s.mem, root, at, 0);
      if va0 >= MAXVA {
        Beyond(s.mem, root, at);
        return -1, data;
      }
      var pa0 := s.GetPa(root, va0);
      if pa0 == 0 { return -1, data; }
      PageBound(s.mem, s.owner, s.begin, s.head, s.allocable, s.free, root, va0);
      var n := PGSIZE - (at - va0);
      if n > left { n := left; }
      var q := pa0 / PGSIZE;
      OnePiece(s.mem, root, src, data, q, n);
      data := data + s.mem[q][at - va0..at - va0 + n];
      left := left - n;
      at := va0 + PGSIZE;
    }
    DataMapped(s.mem, root, src, data);
    return 0, data;
  }

  lemma NoData(m: Memory, root: nat, a: nat)
    requires root < PAGES
    ensures IsUserData(m, root, a, [])
  {}

  lemma DataMapped(m: Memory, root: nat, a: nat, data: seq<Byte>)
    requires root < PAGES && IsUserData(m, root, a, data)
    ensures Mapped(m, root, a, |data|)
  {}

  lemma Beyond(m: Memory, root: nat, a: nat)
    requires root < PAGES && RoundDown(a) >= MAXVA
    ensures UserPage(m, root, a) == 0
  {}

  lemma PageBound(m: Memory, owner: Owners, begin: nat, head: nat, allocable: nat, free: seq<nat>, root: nat, va: nat)
    requires Trees(m, owner) && FreeList(m, owner, begin, head, allocable, free) && IsRoot(owner, root)
    requires UserPage(m, root, va) > 0
    ensures UserPage(m, root, va) < PAGES
  {
    UserPageHangs(m, owner, root, va);
  }

  // ---------- to user memory ----------

  /** Byte o of a page after the first n bytes of src went to user addresses from dst on. */
  function OutByte(owner: Owner, root: nat, dst: nat, src: seq<Byte>, n: nat, o: nat, was: Byte): Byte
    requires n <= |src|
  {
    if owner.Node? && owner.height == 0 && owner.root == root && dst <= owner.base * PGSIZE + o < dst + n
    then src[owner.base * PGSIZE + o - dst] else was
  }

  /** Exactly the bytes behind those addresses changed, in all of memory. */
  ghost predicate CopiedOut(m: Memory, owner: Owners, m': Memory, root: nat, dst: nat, src: seq<Byte>, n: nat)
    requires n <= |src|
  {
    forall q, o :: 0 <= q < PAGES && 0 <= o < PGSIZE ==> m'[q][o] == OutByte(owner[q], root, dst, src, n, o, m[q][o])
  }

  lemma NothingOut(m: Memory, owner: Owners, root: nat, dst: nat, src: seq<Byte>)
    ensures CopiedOut(m, owner, m, root, dst, src, 0) && SameMaps(m, owner, m)
  {}

  /** Page q with k bytes of src, from n on, written at offset at. */
  function Patched(page: Page, at: nat, src: seq<Byte>, n: nat, k: nat): (r: Page)
    requires at + k <= PGSIZE && n + k <= |src|
    ensures forall o :: 0 <= o < PGSIZE ==> r[o] == if at <= o < at + k then src[n + o - at] else page[o]
  {
    page[..at] + src[n..n + k] + page[at + k..]
  }

  /** The page of address b, and no other page of the tree, holds the bytes from b to the end of
      the page. */
  lemma OneMoreOut(m: Memory, owner: Owners, m1: Memory, root: nat, dst: nat, src: seq<Byte>, n: nat, q: nat, k: nat)
    requires Trees(m1, owner) && n + k <= |src| && CopiedOut(m, owner, m1, root, dst, src, n)
    requires var b := dst + n;
             && q < PAGES && owner[q].Node? && owner[q].height == 0 && owner[q].root == root &&
                  owner[q].base == b / PGSIZE
             && b % PGSIZE + k <= PGSIZE
    ensures var m2 := m1[q := Patched(m1[q], (dst + n) % PGSIZE, src, n, k)];
            CopiedOut(m, owner, m2, root, dst, src, n + k) && Trees(m2, owner) && SameMaps(m1, owner, m2)
  {
    hide Trees, SameMaps, Patched;
    var b := dst + n;
    var m2 := m1[q := Patched(m1[q], b % PGSIZE, src, n, k)];
    OtherPages(m1, m2, owner);
    forall t, o | 0 <= t < PAGES && 0 <= o < PGSIZE
      ensures m2[t][o] == OutByte(owner[t], root, dst, src, n + k, o, m[t][o])
    {
      assert m1[t][o] == OutByte(owner[t], root, dst, src, n, o, m[t][o]);
      if t != q && owner[t].Node? && owner[t].height == 0 && owner[t].root == root {
        if owner[t].base == owner[q].base {
          PlaceIsUnique(m1, owner, t, q);
        }
        Elsewhere(owner[t].base, b, k, o);
      }
    }
  }

  lemma Elsewhere(page: nat, b: nat, k: nat, o: nat)
    requires page != b / PGSIZE && b % PGSIZE + k <= PGSIZE && o < PGSIZE
    ensures !(b <= page * PGSIZE + o < b + k)
  {}

  lemma SameUserPage(m: Memory, owner: Owners, m': Memory, root: nat, va: nat)
    requires SameMaps(m, owner, m') && IsRoot(owner, root)
    ensures UserPage(m', root, va) == UserPage(m, root, va)
  {
    assert Lookup(m', root, Vpn(va)) == Lookup(m, root, Vpn(va));
  }

  lemma SameMapsTwice(m0: Memory, owner: Owners, m1: Memory, m2: Memory)
    requires SameMaps(m0, owner, m1) && SameMaps(m1, owner, m2)
    ensures SameMaps(m0, owner, m2)
  {
    hide Lookup;
  }

  /** The n bytes from a on are mapped once the next k are. */
  lemma MoreMapped(m: Memory, root: nat, a: nat, n: nat, k: nat)
    requires root < PAGES && Mapped(m, root, a, n) && (a + n) % PGSIZE + k <= PGSIZE
    requires UserPage(m, root, RoundDown(a + n)) > 0
    ensures Mapped(m, root, a, n + k)
  {
    hide UserPage, RoundDown;
    forall x | a <= x < a + (n + k) ensures UserPage(m, root, x) > 0 {
      if x >= a + n {
        SamePage(m, root, a + n, x - (a + n));
      }
    }
  }

  /** uvm_copyout: 0 exactly when every byte goes to a user page below MAXVA. The bytes up to the
      first page that is not the user's have gone to the addresses they belong to, and nothing
      else in memory has changed. */
  method CopyOut(s: Machine, root: nat, dst: nat, src: seq<Byte>) returns (r: int, ghost n: nat)
    requires s.Valid() && IsRoot(s.owner, root)
    modifies s
    ensures s.Valid() && s.owner == old(s.owner) && s.free == old(s.free)
    ensures r == 0 <==> Mapped(old(s.mem), root, dst, |src|)
    ensures r == 0 || r == -1
    ensures n <= |src| && (r == 0 ==> n == |src|) && Mapped(old(s.mem), root, dst, n)
    ensures r != 0 ==> n < |src| && UserPage(old(s.mem), root, dst + n) == 0
    ensures CopiedOut(old(s.mem), s.owner, s.mem, root, dst, src, n) && SameMaps(old(s.mem), s.owner, s.mem)
  {
    hide Trees, FreeList, Lookup, UserPage, CopiedOut, SameMaps, Patched;
    ghost var m, owner := s.mem, s.owner;
    n := 0;
    NothingOut(m, owner, root, dst, src);
    var left, at := |src|, dst;
    while left > 0
      invariant 0 <= left <= |src| && n == |src| - left && (left > 0 ==> at == dst + n)
      invariant s.Valid() && s.owner == owner && s.free == old(s.free)
      invariant Mapped(m, root, dst, n) && CopiedOut(m, owner, s.mem, root, dst, src, n) && SameMaps(m, owner, s.mem)
    {
      var va0 := RoundDown(at);
      SamePage(m, root, at, 0);
      SameUserPage(m, owner, s.mem, root, va0);
      if va0 >= MAXVA {
        Beyond(m, root, at);
        return -1, n;
      }
      var pa0 := s.GetPa(root, va0);
      if pa0 == 0 { return -1, n; }
      var k := PGSIZE - (at - va0);
      if k > left { k := left; }
      var q := pa0 / PGSIZE;
      PageHangs(s.mem, owner, s.begin, s.head, s.allocable, s.free, root, va0);
      RoundsDown(at);
      OneMoreOut(m, owner, s.mem, root, dst, src, n, q, k);
      MoreMapped(m, root, dst, n, k);
      ghost var m1 := s.mem;
      s.mem := s.mem[q := Patched(s.mem[q], at - va0, src, |src| - left, k)];
      SameMapsTwice(m, owner, m1, s.mem);
      ListKept(m1, owner, s.mem, owner, s.begin, s.head, s.allocable, s.free);
      left := left - k;
      n := n + k;
      at := va0 + PGSIZE;
    }
    return 0, n;
  }

  lemma PageHangs(m: Memory, owner: Owners, begin: nat, head: nat, allocable: nat, free: seq<nat>, root: nat, va: nat)
    requires Trees(m, owner) && FreeList(m, owner, begin, head, allocable, free) && IsRoot(owner, root)
    requires UserPage(m, root, va) > 0
    ensures var q := UserPage(m, root, va);
            q < PAGES && owner[q].Node? && owner[q].height == 0 && owner[q].root == root && owner[q].base == va / PGSIZE
  {
    UserPageHangs(m, owner, root, va);
  }

  /** What was copied out can be copied in again: byte for byte the same. */
  lemma OutThenIn(m: Memory, owner: Owners, m': Memory, root: nat, dst: nat, src: seq<Byte>)
    requires Trees(m, owner) && owner[0].Taken? && IsRoot(owner, root) && Mapped(m, root, dst, |src|)
    requires CopiedOut(m, owner, m', root, dst, src, |src|) && SameMaps(m, owner, m')
    ensures IsUserData(m', root, dst, src)
  {
    hide Trees, UserPage, SameMaps;
    forall x | dst <= x < dst + |src| ensures UserPage(m', root, x) > 0 && src[x - dst] == UserByte(m', root, x) {
      SameUserPage(m, owner, m', root, x);
      UserPageHangs(m, owner, root, x);
      var q := UserPage(m, root, x);
      assert m'[q][x % PGSIZE] == OutByte(owner[q], root, dst, src, |src|, x % PGSIZE, m[q][x % PGSIZE]);
    }
  }

  // ---------- strings ----------

  predicate NoZero(s: seq<Byte>) { forall i :: 0 <= i < |s| ==> s[i] != 0 }

  /** The inner loop of uvm_copyin_str: n bytes of one page, or up to the first zero and with it. */
  method CopyString(page: Page, p: nat, n: nat) returns (part: seq<Byte>, found: bool)
    requires p + n <= PGSIZE
    ensures |part| <= n && part == page[p..p + |part|]
    ensures if found then |part| > 0 && part[|part| - 1] == 0 && NoZero(part[..|part| - 1])
            else |part| == n && NoZero(part)
  {
    part, found := [], false;
    while |part| < n
      invariant |part| <= n && part == page[p..p + |part|] && NoZero(part) && !found
    {
      var c := page[p + |part|];
      ghost var was := part;
      part := part + [c];
      if c == 0 {
        assert part[..|part| - 1] == was;
        return part, true;
      }
    }
  }

  lemma NoZeroConcat(a: seq<Byte>, b: seq<Byte>)
    requires NoZero(a) && NoZero(b)
    ensures NoZero(a + b)
  {}

  /** uvm_copyin_str: the bytes behind the addresses up to the first zero, which is copied too, or
      to maxlen, or to the first page that is not the user's. */
  method CopyInStr(s: Machine, root: nat, src: nat, maxlen: nat) returns (data: seq<Byte>)
    requires s.Valid() && IsRoot(s.owner, root)
    modifies s
    ensures unchanged(s)
    ensures |data| <= maxlen && IsUserData(s.mem, root, src, data)
    ensures |data| > 0 ==> NoZero(data[..|data| - 1])
    ensures |data| < maxlen && (|data| == 0 || data[|data| - 1] != 0) ==> UserPage(s.mem, root, src + |data|) == 0
  {
    hide Trees, FreeList, Lookup, UserPage, UserByte, IsUserData;
    data := [];
    NoData(s.mem, root, src);
    var at, left := src, maxlen;
    while left > 0
      invariant unchanged(s) && 0 <= left <= maxlen && IsUserData(s.mem, root, src, data)
      invariant |data| == maxlen - left && NoZero(data)
      invariant left > 0 ==> at == src + |data|
    {
      var va0 := RoundDown(at);
      SamePage(s.mem, root, at, 0);
      var pa0 := s.GetPa(root, va0);
      if pa0 == 0 { return; }
      PageBound(s.mem, s.owner, s.begin, s.head, s.allocable, s.free, root, va0);
      var n := PGSIZE - (at - va0);
      if n > left { n := left; }
      var q := pa0 / PGSIZE;
      var part, found := CopyString(s.mem[q], at - va0, n);
      OnePiece(s.mem, root, src, data, q, |part|);
      ghost var was := data;
      data := data + part;
      if found {
        NoZeroConcat(was, part[..|part| - 1]);
        assert data[..|data| - 1] == was + part[..|part| - 1];
        return;
      }
      NoZeroConcat(was, part);
      left := left - n;
      at := va0 + PGSIZE;
    }
  }
}
