/** Directories as the bytes of files: entries of 24 bytes, and the tree of names that a disk holds. */
module DirectoryBytes {
  import opened LittleEndian
  import opened Blocks
  import opened Layout
  import opened Files
  import D = Directories

  // ---------- one entry ----------

  /** A name that fits its fourteen bytes with a zero behind it, as skipelem leaves them. */
  predicate GoodName(name: string) {
    |name| < D.DIRSIZ && forall i :: 0 <= i < |name| ==> 0 < name[i] as int < 256
  }

  function CharBytes(name: string): (b: seq<Byte>)
    requires forall i :: 0 <= i < |name| ==> 0 < name[i] as int < 256
    ensures |b| == |name| && forall i :: 0 <= i < |b| ==> b[i] != 0
  {
    if |name| == 0 then [] else [name[0] as int] + CharBytes(name[1..])
  }

  /** strncpy: the characters, and zeros up to fourteen bytes. */
  function NameBytes(name: string): (b: seq<Byte>)
    requires GoodName(name)
    ensures |b| == D.DIRSIZ
  {
    CharBytes(name) + seq(D.DIRSIZ - |name|, _ => 0)
  }

  /** What strncmp sees of a name field: the characters before the first zero. */
  function CString(b: seq<Byte>): string {
    if |b| == 0 || b[0] == 0 then "" else [b[0] as char] + CString(b[1..])
  }

  lemma {:induction false} CharsBack(name: string, rest: seq<Byte>)
    requires forall i :: 0 <= i < |name| ==> 0 < name[i] as int < 256
    requires |rest| > 0 && rest[0] == 0
    ensures CString(CharBytes(name) + rest) == name
  {
    var b := CharBytes(name) + rest;
    if |name| == 0 {
      assert b == rest;
    } else {
      CharsBack(name[1..], rest);
      assert b[1..] == CharBytes(name[1..]) + rest;
      assert b[0] as char == name[0];
    }
  }

  /** An entry in memory: inode number, name, and two bytes that nobody set. */
  function Encode(inum: nat, name: string, pad: seq<Byte>): (b: seq<Byte>)
    requires GoodName(name) && |pad| == 2
    ensures |b| == D.ENTRY
  {
    Digits(inum, 8) + NameBytes(name) + pad
  }

  function Decode(b: seq<Byte>): D.Dirent
    requires |b| == D.ENTRY
  {
    D.Dirent(Value(b[..8]), CString(b[8..22]))
  }

  /** An entry written is the entry read, whatever the unset bytes. */
  lemma EntryRoundTrip(inum: nat, name: string, pad: seq<Byte>)
    requires GoodName(name) && |pad| == 2 && inum < 0x1_0000_0000_0000_0000
    ensures Decode(Encode(inum, name, pad)) == D.Dirent(inum, name)
  {
    var b := Encode(inum, name, pad);
    EightBytes();
    ValueOfDigits(inum, 8);
    assert b[..8] == Digits(inum, 8);
    assert b[8..22] == NameBytes(name);
    var zeros: seq<Byte> := seq(D.DIRSIZ - |name|, _ => 0);
    assert |zeros| > 0 && zeros[0] == 0;
    CharsBack(name, zeros);
  }

  /** The entry that unlink writes: all zero. */
  lemma ZeroEntry()
    ensures Decode(seq(D.ENTRY, _ => 0)) == D.EMPTY
  {
    var b: seq<Byte> := seq(D.ENTRY, _ => 0);
    ZeroValue(b[..8]);
    assert b[8..22][0] == 0;
  }

  // ---------- a directory ----------

  /** Entry k of the bytes of a directory. */
  function EntryAt(s: seq<Byte>, k: nat): D.Dirent
    requires D.ENTRY * k + D.ENTRY <= |s|
  {
    Decode(s[D.ENTRY * k..D.ENTRY * k + D.ENTRY])
  }

  function Slots(s: seq<Byte>): (r: seq<D.Dirent>)
    ensures |r| == |s| / D.ENTRY
  {
    seq(|s| / D.ENTRY, k requires 0 <= k < |s| / D.ENTRY => EntryAt(s, k))
  }

  /** Writing an entry at its offset replaces one slot, or adds one at the end. */
  lemma SpliceSlot(s: seq<Byte>, k: nat, e: seq<Byte>)
    requires |s| % D.ENTRY == 0 && k <= |s| / D.ENTRY && |e| == D.ENTRY
    ensures D.ENTRY * k <= |s| && |Splice(s, D.ENTRY * k, e)| % D.ENTRY == 0
    ensures Slots(Splice(s, D.ENTRY * k, e)) ==
            if k < |s| / D.ENTRY then Slots(s)[k := Decode(e)] else Slots(s) + [Decode(e)]
  {
    hide Decode;
    var n := |s| / D.ENTRY;
    var r := Splice(s, D.ENTRY * k, e);
    assert |s| == D.ENTRY * n;
    assert |r| == if k < n then |s| else |s| + D.ENTRY;
    forall j | 0 <= j < |r| / D.ENTRY
      ensures EntryAt(r, j) == if j == k then Decode(e) else EntryAt(s, j)
    {
      SlotBytes(s, k, e, j);
    }
  }

  lemma SlotBytes(s: seq<Byte>, k: nat, e: seq<Byte>, j: nat)
    requires D.ENTRY * k <= |s| && |e| == D.ENTRY && D.ENTRY * j + D.ENTRY <= |Splice(s, D.ENTRY * k, e)|
    requires j != k ==> D.ENTRY * j + D.ENTRY <= |s|
    ensures var r := Splice(s, D.ENTRY * k, e);
            r[D.ENTRY * j..D.ENTRY * j + D.ENTRY] == if j == k then e else s[D.ENTRY * j..D.ENTRY * j + D.ENTRY]
  {}

  // ---------- the tree of a disk ----------

  const T_DIR := 1
  const T_FILE := 2

  function KindOf(kind: Half): D.Kind {
    if kind == 0 then D.Unused else if kind == T_DIR then D.Dir else D.File
  }

  function NodeOf(v: Disk, d: DInode): D.Node {
    D.Node(KindOf(d.kind), d.nlink, if d.kind == T_DIR && d.size <= MAXFILE * BSIZE then Slots(Contents(v, d)) else [])
  }

  /** The names, kinds and link counts that a disk with these inodes holds. */
  function TreeOf(v: Disk, t: Table): D.Tree {
    seq<D.Node>(NINODES, i requires 0 <= i < NINODES => NodeOf(v, t[i]))
  }

  /** Directories are whole numbers of entries. */
  ghost predicate DirSizes(t: Table) {
    forall i :: 0 <= i < NINODES && t[i].kind == T_DIR ==> t[i].size % D.ENTRY == 0
  }

  /** But for the inodes in js, files hold what they held, and of their inodes only link counts changed. */
  ghost predicate Kept(v: Disk, t: Table, v': Disk, t': Table, js: set<nat>) {
    && Shaped(t) && Shaped(t')
    && forall i :: 0 <= i < NINODES && i !in js ==>
         t'[i] == t[i].(nlink := t'[i].nlink) && Contents(v', t'[i]) == Contents(v, t[i])
  }

  // ---------- the files of a disk ----------

  /** The bytes of a file; none for directories and free inodes. */
  function FileBytes(v: Disk, d: DInode): seq<Byte> {
    if KindOf(d.kind) == D.File && d.size <= MAXFILE * BSIZE then Contents(v, d) else []
  }

  /** What the files of a disk hold. */
  function DataOf(v: Disk, t: Table): (r: seq<seq<Byte>>)
    ensures |r| == NINODES
  {
    seq<seq<Byte>>(NINODES, i requires 0 <= i < NINODES => FileBytes(v, t[i]))
  }

  /** What is kept keeps its bytes; the others in js are told apart by whoever changed them. */
  lemma KeptData(v: Disk, t: Table, v': Disk, t': Table, js: set<nat>)
    requires Kept(v, t, v', t', js)
    ensures forall i :: 0 <= i < NINODES && i !in js ==> DataOf(v', t')[i] == DataOf(v, t)[i]
  {
    hide Contents;
  }

  /** Only files have bytes. */
  lemma NoData(v: Disk, t: Table, i: nat)
    requires i < NINODES && (TreeOf(v, t)[i].kind != D.File || t[i].size == 0)
    ensures DataOf(v, t)[i] == []
  {}

  lemma KeptTwice(v: Disk, t: Table, v1: Disk, t1: Table, v2: Disk, t2: Table, js: set<nat>, ks: set<nat>)
    requires Kept(v, t, v1, t1, js) && Kept(v1, t1, v2, t2, ks)
    ensures Kept(v, t, v2, t2, js + ks)
  {
    hide Contents;
  }

  lemma SplicedKeeps(v: Disk, t: Table, v': Disk, t': Table, j: nat, off: nat, src: seq<Byte>)
    requires Spliced(v, t, v', t', j, off, src)
    ensures Kept(v, t, v', t', {j})
  {
    hide Contents, Splice;
  }

  lemma SameBytesKeep(v: Disk, t: Table, v': Disk, t': Table, js: set<nat>)
    requires Shaped(t) && Shaped(t')
    requires forall i, x :: 0 <= i < NINODES && i !in js && 0 <= x < MAXFILE * BSIZE ==>
               ByteAt(v', t'[i], x) == ByteAt(v, t[i], x)
    requires forall i :: 0 <= i < NINODES && i !in js ==> t'[i] == t[i].(nlink := t'[i].nlink)
    ensures Kept(v, t, v', t', js)
  {
    hide ByteAt;
    forall i | 0 <= i < NINODES && i !in js ensures Contents(v', t'[i]) == Contents(v, t[i]) {}
  }

  /** What is kept keeps its place in the tree. */
  lemma KeptNode(v: Disk, t: Table, v': Disk, t': Table, js: set<nat>, i: nat)
    requires Kept(v, t, v', t', js) && i < NINODES && i !in js
    ensures NodeOf(v', t'[i]) == NodeOf(v, t[i]).(nlink := t'[i].nlink)
  {
    hide Contents, Slots;
  }

  /** One inode changed: one node of the tree did. */
  lemma OneNode(v: Disk, t: Table, v': Disk, t': Table, j: nat)
    requires Kept(v, t, v', t', {j}) && j < NINODES && t' == t[j := t'[j]]
    ensures TreeOf(v', t') == TreeOf(v, t)[j := NodeOf(v', t'[j])]
  {
    hide Kept, NodeOf;
    var r := TreeOf(v, t)[j := NodeOf(v', t'[j])];
    forall i | 0 <= i < NINODES ensures TreeOf(v', t')[i] == r[i] {
      if i != j {
        KeptNode(v, t, v', t', {j}, i);
        SameLinks(v, t[i]);
      }
    }
  }

  lemma SameLinks(v: Disk, d: DInode)
    ensures NodeOf(v, d).(nlink := d.nlink) == NodeOf(v, d)
  {}

  /** The tree depends on inodes and bytes only. */
  lemma SameTree(v: Disk, t: Table, v': Disk)
    requires Shaped(t) && SameBytes(v, t, v', t)
    ensures TreeOf(v', t) == TreeOf(v, t) && Kept(v, t, v', t, {})
  {
    hide ByteAt, Slots;
    forall i | 0 <= i < NINODES ensures Contents(v', t[i]) == Contents(v, t[i]) {}
  }

  /** An entry written into directory j. */
  lemma EntryWritten(v: Disk, t: Table, v': Disk, t': Table, j: nat, k: nat, e: seq<Byte>)
    requires Spliced(v, t, v', t', j, D.ENTRY * k, e) && |e| == D.ENTRY && DirSizes(t) && t[j].kind == T_DIR
    requires t' == t[j := t'[j]]
    ensures DirSizes(t') && Kept(v, t, v', t', {j})
    ensures var s := TreeOf(v, t)[j].slots;
            && k <= |s|
            && TreeOf(v', t') == TreeOf(v, t)[j := TreeOf(v, t)[j].(slots := if k < |s| then s[k := Decode(e)]
                 else s + [Decode(e)])]
  {
    hide Contents, Splice, Slots, Decode;
    SplicedKeeps(v, t, v', t', j, D.ENTRY * k, e);
    SpliceSlot(Contents(v, t[j]), k, e);
    OneNode(v, t, v', t', j);
  }

  // ---------- link counts ----------

  /** Only a link count changed, in memory so far. */
  lemma RelinkKeeps(v: Disk, t: Table, o: map<nat, Place>, j: nat, n: Half)
    requires FsInv(v, t, o) && OnDisk(v, t, {}) && j < NINODES
    ensures var t' := t[j := t[j].(nlink := n)];
            FsInv(v, t', o) && OnDisk(v, t', {j}) && SameBytes(v, t, v, t') && SamePtrs(v, t, v, t')
  {
    hide GetWord, BitAt, GetInode, Mapped;
    var t' := t[j := t[j].(nlink := n)];
    forall i, k | 0 <= i < NINODES && 0 <= k <= INDIRECT ensures Ptr(v, t'[i], k) == Ptr(v, t[i], k) {}
    hide Ptr;
    SamePtrsKeep(v, t, o, v, t');
  }

  /** A new link count is all that changes in the tree. */
  lemma Relinked(v: Disk, t: Table, v': Disk, j: nat, n: Half)
    requires Shaped(t) && j < NINODES && SameBytes(v, t, v', t[j := t[j].(nlink := n)])
    ensures var t' := t[j := t[j].(nlink := n)];
            && Kept(v, t, v', t', {}) && (DirSizes(t) ==> DirSizes(t'))
            && TreeOf(v', t') == TreeOf(v, t)[j := TreeOf(v, t)[j].(nlink := n)]
  {
    hide ByteAt, NodeOf;
    var t' := t[j := t[j].(nlink := n)];
    SameBytesKeep(v, t, v', t', {});
    KeptMore(v, t, v', t', {}, {j});
    OneNode(v, t, v', t', j);
    KeptNode(v, t, v', t', {}, j);
  }

  lemma KeptMore(v: Disk, t: Table, v': Disk, t': Table, js: set<nat>, ks: set<nat>)
    requires Kept(v, t, v', t', js) && js <= ks
    ensures Kept(v, t, v', t', ks)
  {
    hide Contents;
  }
}
