/** What the processor makes of the tables (section 4.4, Sv39, of the RISC-V Privileged Architecture, version
    1.10): it walks the same bytes and finds the entries that the kernel's flat map says. */
module Hardware {
  import opened LittleEndian
  import opened PageTables
  import opened PhysicalPages
  import opened VirtualMemory

  datatype Outcome = Fault | Leaf(pte: nat)

  /** The 64-bit word at physical address ppn * 4096 + 8 * i. */
  function Word64(m: Memory, ppn: nat, i: nat): nat
    requires ppn < PAGES && i < 512
  {
    Value(m[ppn][8 * i..8 * i + 8])
  }

  /** Bits of an entry. */
  predicate V(pte: nat) { pte % 2 == 1 }
  predicate R(pte: nat) { pte / 2 % 2 == 1 }
  predicate W(pte: nat) { pte / 4 % 2 == 1 }
  predicate X(pte: nat) { pte / 8 % 2 == 1 }
  predicate U(pte: nat) { pte / 16 % 2 == 1 }

  /** The index that an address selects at a level. */
  function Vpn9(va: nat, level: nat): (i: nat)
    requires level < 3
    ensures i < 512
  {
    (if level == 2 then va / 0x4000_0000 else if level == 1 then va / 0x20_0000 else va / 0x1000) % 512
  }

  /** The walk: from the table in physical page ppn down. Leaves above the lowest level, which the kernel
      never makes, count as faults. */
  function HwWalk(m: Memory, ppn: nat, level: nat, va: nat): Outcome
    requires level < 3
    decreases level
  {
    if ppn >= PAGES then Fault
    else
      var pte := Word64(m, ppn, Vpn9(va, level));
      if !V(pte) then Fault
      else if R(pte) || X(pte) then (if level == 0 then Leaf(pte) else Fault)
      else if level == 0 then Fault
      else HwWalk(m, pte / 1024, level - 1, va)
  }

  /** Whether the processor lets a user read, write or execute at an address, and where that is. */
  predicate UserMayRead(pte: nat) { U(pte) && R(pte) }
  predicate UserMayWrite(pte: nat) { U(pte) && W(pte) }
  predicate UserMayExecute(pte: nat) { U(pte) && X(pte) }

  function PhysicalAddress(pte: nat, va: nat): nat { pte / 1024 * 4096 + va % 4096 }

  lemma WordIsEntry(m: Memory, p: nat, i: nat)
    requires p < PAGES && i < 512
    ensures Word64(m, p, i) == Entry(m[p], i)
  {}

  lemma Bits(e: nat)
    ensures Valid(e) <==> V(e)
    ensures User(e) <==> V(e) && U(e)
    ensures Flags(e) == 1 ==> V(e) && !R(e) && !X(e)
    ensures Target(e) == e / 1024
  {
    LowBits(e / 1024, e % 1024);
  }

  lemma LowBits(k: nat, f: nat)
    requires f < 1024
    ensures (1024 * k + f) % 2 == f % 2 && (1024 * k + f) / 2 % 2 == f / 2 % 2
    ensures (1024 * k + f) / 4 % 2 == f / 4 % 2
    ensures (1024 * k + f) / 8 % 2 == f / 8 % 2 && (1024 * k + f) / 16 % 2 == f / 16 % 2
  {
    assert (1024 * k + f) / 2 == 512 * k + f / 2;
    assert (1024 * k + f) / 4 == 256 * k + f / 4;
    assert (1024 * k + f) / 8 == 128 * k + f / 8;
    assert (1024 * k + f) / 16 == 64 * k + f / 16;
    EvenAdds(512 * k, f);
    EvenAdds(256 * k, f / 2);
    EvenAdds(128 * k, f / 4);
    EvenAdds(64 * k, f / 8);
    EvenAdds(32 * k, f / 16);
  }

  lemma EvenAdds(h: nat, x: nat)
    ensures (2 * h + x) % 2 == x % 2
  {}

  /** A table above the lowest level: an entry leads on, or nowhere. */
  lemma Inner(m: Memory, owner: Owners, p: nat, i: nat)
    requires Trees(m, owner) && IsTable(owner, p) && owner[p].height > 1 && i < 512
    ensures var e := Entry(m[p], i);
            if V(e) then !R(e) && !X(e) && Target(e) < PAGES && IsTable(owner, Target(e))
                         && owner[Target(e)].height == owner[p].height - 1
            else !Valid(e)
  {
    hide Entry, Valid, User, Flags, Target, V, R, X, U;
    var e := Entry(m[p], i);
    assert EntryOk(m, owner, p, i);
    Bits(e);
    Bits(0);
  }

  /** The outcome that an entry of the lowest table stands for. */
  function Outcomes(e: nat): Outcome { if V(e) && (R(e) || X(e)) then Leaf(e) else Fault }

  /** The processor finds what the flat map of the table says, for every address. */
  lemma HardwareAgrees(m: Memory, owner: Owners, root: nat, va: nat)
    requires Trees(m, owner) && IsRoot(owner, root) && va < MAXVA
    ensures HwWalk(m, root, 2, va) == Outcomes(Lookup(m, root, va / 4096))
  {
    hide Trees, Entry, Valid, User, Flags, Target, V, R, X, U, Word64, Px, Vpn9;
    var v := Vpn(va);
    BelowMax(va);
    Indices(va);
    WordIsEntry(m, root, Vpn9(va, 2));
    Inner(m, owner, root, Vpn9(va, 2));
    var e2 := Entry(m[root], Vpn9(va, 2));
    Bits(e2);
    NoEntry();
    if V(e2) {
      var p1 := Target(e2);
      WordIsEntry(m, p1, Vpn9(va, 1));
      Inner(m, owner, p1, Vpn9(va, 1));
      var e1 := Entry(m[p1], Vpn9(va, 1));
      Bits(e1);
      if V(e1) {
        var p0 := Target(e1);
        WordIsEntry(m, p0, Vpn9(va, 0));
        assert Walk(m, root, 3, v) == Walk(m, p1, 2, v) == Walk(m, p0, 1, v) == p0;
      } else {
        assert Walk(m, root, 3, v) == Walk(m, p1, 2, v) == -1;
      }
    } else {
      assert Walk(m, root, 3, v) == -1;
    }
  }

  lemma NoEntry()
    ensures Outcomes(0) == Fault
  {}

  lemma Indices(va: nat)
    requires va < MAXVA
    ensures Vpn9(va, 2) == Px(Vpn(va), 3) && Vpn9(va, 1) == Px(Vpn(va), 2) && Vpn9(va, 0) == Vpn(va) % 512
  {
    hide Px;
    PxIsDigit(va, 2);
    PxIsDigit(va, 1);
    BelowMax(va);
  }

  /** A mapping with these permissions gives a user exactly these. */
  lemma PermissionsGiven(page: nat, perm: nat)
    requires perm < 1024
    ensures var e := Pte(page, WithV(perm));
            && V(e) && (R(e) <==> R(perm)) && (W(e) <==> W(perm)) && (X(e) <==> X(perm)) && (U(e) <==> U(perm))
            && forall va: nat :: PhysicalAddress(e, va) == page * 4096 + va % 4096
  {
    var f := WithV(perm);
    LowBits(page, f);
    Shifted(f, perm);
  }

  lemma Shifted(f: nat, perm: nat)
    requires f / 2 == perm / 2
    ensures f / 4 == perm / 4 && f / 8 == perm / 8 && f / 16 == perm / 16
  {
    assert f / 4 == f / 2 / 2 && f / 8 == f / 2 / 4 && f / 16 == f / 2 / 8;
    assert perm / 4 == perm / 2 / 2 && perm / 8 == perm / 2 / 4 && perm / 16 == perm / 2 / 8;
  }
}
