/** The on-disk layout of the file system: inodes packed sixteen to a block, the free-block
    bitmap, and the words of indirect blocks. */
module Layout {
  import opened LittleEndian
  import opened Blocks

  const INODESTART := 32
  const NINODES := 200
  const IPB := 16
  const BMAP := 45
  const NDIRECT := 12
  const NINDIRECT := 256
  const MAXFILE := NDIRECT + NINDIRECT

  /** The blocks of a file of that size, the indirect block among them. */
  function BlocksFor(size: nat): nat {
    (size + BSIZE - 1) / BSIZE + if size > NDIRECT * BSIZE then 1 else 0
  }

  /** The blocks that a write of n bytes at off into a file of that size needs. */
  function Needs(size: nat, off: nat, n: nat): int {
    BlocksFor(if off + n > size then off + n else size) - BlocksFor(size)
  }

  // ---------- runs of words ----------

  function PutWords(b: Block, base: nat, ws: seq<Word>): (r: Block)
    requires base + |ws| <= WORDS
    decreases |ws|
  {
    if |ws| == 0 then b
    else SetWord(PutWords(b, base, ws[..|ws| - 1]), base + |ws| - 1, ws[|ws| - 1])
  }

  lemma {:induction false} GetPutWords(b: Block, base: nat, ws: seq<Word>, j: nat)
    requires base + |ws| <= WORDS && j < WORDS
    ensures GetWord(PutWords(b, base, ws), j) == if base <= j < base + |ws| then ws[j - base] else GetWord(b, j)
    decreases |ws|
  {
    hide GetWord, SetWord;
    if |ws| > 0 {
      var prior := PutWords(b, base, ws[..|ws| - 1]);
      GetPutWords(b, base, ws[..|ws| - 1], j);
      GetSetWord(prior, base + |ws| - 1, ws[|ws| - 1], j);
    }
  }

  function WordsAt(b: Block, base: nat, n: nat): (ws: seq<Word>)
    requires base + n <= WORDS
    ensures |ws| == n && forall k :: 0 <= k < n ==> ws[k] == GetWord(b, base + k)
  {
    if n == 0 then [] else WordsAt(b, base, n - 1) + [GetWord(b, base + n - 1)]
  }

  // ---------- inodes ----------

  type Half = x: int | 0 <= x < 0x1_0000

  datatype InodeFields = InodeFields(kind: Half, major: Half, minor: Half, nlink: Half, size: Word, addrs: seq<Word>)

  type DInode = d: InodeFields | |d.addrs| == NDIRECT + 1
    witness InodeFields(0, 0, 0, 0, 0, [0, 0, 0, 0, 0, 0, 0, 0, 0, 0, 0, 0, 0])

  function InodeBlock(inum: nat): nat { inum / IPB + INODESTART }

  function InodeWords(d: DInode): (ws: seq<Word>)
    ensures |ws| == 16
  {
    [d.kind + 0x1_0000 * d.major, d.minor + 0x1_0000 * d.nlink, d.size] + d.addrs
  }

  function FromWords(ws: seq<Word>): (d: DInode)
    requires |ws| == 16
  {
    InodeFields(ws[0] % 0x1_0000, ws[0] / 0x1_0000, ws[1] % 0x1_0000, ws[1] / 0x1_0000, ws[2], ws[3..])
  }

  function InodeAt(b: Block, slot: nat): (d: DInode)
    requires slot < IPB
  {
    FromWords(WordsAt(b, 16 * slot, 16))
  }

  function PutInode(b: Block, slot: nat, d: DInode): Block
    requires slot < IPB
  {
    PutWords(b, 16 * slot, InodeWords(d))
  }

  lemma FromInodeWords(d: DInode)
    ensures FromWords(InodeWords(d)) == d
  {
    assert InodeWords(d)[3..] == d.addrs;
  }

  /** Storing an inode makes exactly that inode read back and leaves its fifteen neighbours
      alone. */
  lemma InodeRoundTrip(b: Block, slot: nat, d: DInode, other: nat)
    requires slot < IPB && other < IPB
    ensures InodeAt(PutInode(b, slot, d), other) == if other == slot then d else InodeAt(b, other)
  {
    hide GetWord, SetWord, PutWords, InodeWords, FromWords;
    var r := PutInode(b, slot, d);
    forall k | 0 <= k < 16
      ensures WordsAt(r, 16 * other, 16)[k] == if other == slot then InodeWords(d)[k] else WordsAt(b, 16 * other, 16)[k]
    {
      GetPutWords(b, 16 * slot, InodeWords(d), 16 * other + k);
    }
    FromInodeWords(d);
    assert WordsAt(r, 16 * other, 16) == if other == slot then InodeWords(d) else WordsAt(b, 16 * other, 16);
  }

  function GetInode(view: Disk, inum: nat): (d: DInode)
    requires inum < NINODES
  {
    InodeAt(view[InodeBlock(inum)], inum % IPB)
  }

  // ---------- the bitmap ----------

  function Bit(x: nat, j: nat): bool {
    if j == 0 then x % 2 == 1 else Bit(x / 2, j - 1)
  }

  function Flip(x: nat, j: nat): nat {
    if j == 0 then (if x % 2 == 1 then x - 1 else x + 1) else x % 2 + 2 * Flip(x / 2, j - 1)
  }

  function Pow2(n: nat): nat {
    if n == 0 then 1 else 2 * Pow2(n - 1)
  }

  lemma {:induction false} BitFlip(x: nat, j: nat, k: nat)
    ensures Bit(Flip(x, j), k) == if k == j then !Bit(x, j) else Bit(x, k)
  {
    if j > 0 && k > 0 {
      BitFlip(x / 2, j - 1, k - 1);
    }
  }

  lemma {:induction false} FlipRange(x: nat, j: nat, n: nat)
    requires x < Pow2(n) && j < n
    ensures Flip(x, j) < Pow2(n)
  {
    var p := Pow2(n - 1);
    assert Pow2(n) == 2 * p;
    if j > 0 {
      assert x / 2 < p;
      FlipRange(x / 2, j - 1, n - 1);
      var y := Flip(x / 2, j - 1);
      assert Flip(x, j) == x % 2 + 2 * y;
    }
  }

  lemma ByteRange()
    ensures Pow2(8) == 256
  {
    assert Pow2(4) == 16;
    assert Pow2(6) == 4 * Pow2(4);
  }

  function FlipByte(x: Byte, j: nat): (y: Byte)
    requires j < 8
    ensures y == Flip(x, j)
  {
    assert Flip(x, j) < 256 by {
      ByteRange();
      FlipRange(x, j, 8);
    }
    Flip(x, j)
  }

  /** Whether block b is marked used in a bitmap block. */
  function BitAt(bits: Block, b: nat): bool
    requires b < 8 * BSIZE
  {
    Bit(bits[b / 8], b % 8)
  }

  function FlipAt(bits: Block, b: nat): Block
    requires b < 8 * BSIZE
  {
    bits[b / 8 := FlipByte(bits[b / 8], b % 8)]
  }

  /** Changing one bit of the map changes no other. */
  lemma FlipOneBit(bits: Block, b: nat, x: nat)
    requires b < 8 * BSIZE && x < 8 * BSIZE
    ensures BitAt(FlipAt(bits, b), x) == if x == b then !BitAt(bits, b) else BitAt(bits, x)
  {
    if x / 8 == b / 8 {
      BitFlip(bits[b / 8], b % 8, x % 8);
    }
  }
}
