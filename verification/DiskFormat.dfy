/** Where the fields of the disk lie, byte by byte: the log header, inodes, indirect blocks, the bitmap and
    directory entries. */
module DiskFormat {
  import opened LittleEndian
  import opened Blocks
  import opened Crash
  import opened Layout
  import opened DirectoryBytes
  import D = Directories

  /** The 16-bit and the 32-bit number at byte i, least significant byte first. */
  function Two(b: Block, i: nat): int
    requires i + 2 <= BSIZE
  {
    var lo: int, hi: int := b[i], b[i + 1];
    lo + 256 * hi
  }

  function Four(b: Block, i: nat): int
    requires i + 4 <= BSIZE
  {
    Two(b, i) + 65536 * Two(b, i + 2)
  }

  /** A word of a block is its four bytes. */
  lemma WordAt(b: Block, i: nat)
    requires i < WORDS
    ensures GetWord(b, i) == Four(b, 4 * i)
  {
    FourBytes(b[4 * i..4 * i + 4]);
  }

  lemma FourBytes(s: seq<Byte>)
    requires |s| == 4
    ensures var x: int, y: int, z: int, w: int := s[0], s[1], s[2], s[3];
            Value(s) == x + 256 * y + 65536 * (z + 256 * w)
  {
    assert s[1..][1..] == s[2..] && s[2..][1..] == s[3..] && s[3..][1..] == [];
    var w: int := s[3];
    assert Value(s[3..]) == w;
    assert Value(s[2..]) == s[2] + 256 * Value(s[3..]);
    assert Value(s[1..]) == s[1] + 256 * Value(s[2..]);
  }

  /** The log header: a count, then block numbers, four bytes each. */
  lemma HeaderAt(b: Block, k: nat)
    requires HeaderCount(b) <= MAXLOG && k < HeaderCount(b)
    ensures HeaderCount(b) == Four(b, 0) && HeaderBlocks(b)[k] == Four(b, 4 + 4 * k)
  {
    hide GetWord, Four;
    WordAt(b, 0);
    WordAt(b, k + 1);
  }

  /** Inode `slot` of a block: type, major, minor and nlink in two bytes each, size in four, and thirteen
      block numbers, from byte 64 * slot on. */
  lemma InodeBytes(b: Block, slot: nat, k: nat)
    requires slot < IPB && k <= NDIRECT
    ensures var d, i := InodeAt(b, slot), 64 * slot;
            && d.kind == Two(b, i) && d.major == Two(b, i + 2) && d.minor == Two(b, i + 4)
            && d.nlink == Two(b, i + 6) && d.size == Four(b, i + 8) && d.addrs[k] == Four(b, i + 12 + 4 * k)
  {
    hide GetWord, Two;
    WordAt(b, 16 * slot);
    WordAt(b, 16 * slot + 1);
    WordAt(b, 16 * slot + 2);
    WordAt(b, 16 * slot + 3 + k);
    TwoRange(b, 64 * slot);
    TwoRange(b, 64 * slot + 4);
    Halves(Two(b, 64 * slot), Two(b, 64 * slot + 2));
    Halves(Two(b, 64 * slot + 4), Two(b, 64 * slot + 6));
  }

  lemma TwoRange(b: Block, i: nat)
    requires i + 2 <= BSIZE
    ensures 0 <= Two(b, i) < 65536
  {}

  lemma Halves(lo: int, hi: int)
    requires 0 <= lo < 65536
    ensures (lo + 65536 * hi) % 65536 == lo && (lo + 65536 * hi) / 65536 == hi
  {}

  /** Inode i is in block 32 + i / 16, in place i % 16. */
  lemma InodePlace(i: nat)
    requires i < NINODES
    ensures InodeBlock(i) == 32 + i / 16 && IPB == 16
  {}

  /** The value of bit j of a byte. */
  function BitValue(j: nat): (p: nat)
    requires j < 8
    ensures p > 0
  {
    [1, 2, 4, 8, 16, 32, 64, 128][j]
  }

  lemma {:induction false} BitIsDigit(x: nat, j: nat)
    requires j < 8
    ensures Bit(x, j) <==> x / BitValue(j) % 2 == 1
  {
    if j > 0 {
      BitIsDigit(x / 2, j - 1);
      Halved(x, j);
    }
  }

  lemma Halved(x: nat, j: nat)
    requires 0 < j < 8
    ensures x / BitValue(j) == x / 2 / BitValue(j - 1)
  {
    match j
    case 1 => assert x / 2 == x / 2 / 1;
    case 2 => assert x / 4 == x / 2 / 2;
    case 3 => assert x / 8 == x / 2 / 4;
    case 4 => assert x / 16 == x / 2 / 8;
    case 5 => assert x / 32 == x / 2 / 16;
    case 6 => assert x / 64 == x / 2 / 32;
    case 7 => assert x / 128 == x / 2 / 64;
  }

  /** The bit of block b is bit b % 8 of byte b / 8 of the bitmap. */
  lemma BitmapAt(bits: Block, b: nat)
    requires b < 8 * BSIZE
    ensures BitAt(bits, b) <==> bits[b / 8] / BitValue(b % 8) % 2 == 1
  {
    BitIsDigit(bits[b / 8], b % 8);
  }

  /** A directory entry: the inode number in eight bytes, the name from byte 8 on, a zero behind it. */
  lemma EntryBytes(inum: nat, name: string, pad: seq<Byte>, k: nat)
    requires GoodName(name) && |pad| == 2 && inum < 0x1_0000_0000_0000_0000 && k < |name|
    ensures var b := Encode(inum, name, pad);
            Value(b[..8]) == inum && b[8 + k] == name[k] as int && b[8 + |name|] == 0
  {
    var b := Encode(inum, name, pad);
    EightBytes();
    ValueOfDigits(inum, 8);
    assert b[..8] == Digits(inum, 8);
    CharAt(name, k);
    assert b[8 + k] == NameBytes(name)[k] && b[8 + |name|] == NameBytes(name)[|name|];
  }

  lemma {:induction false} CharAt(name: string, k: nat)
    requires (forall i :: 0 <= i < |name| ==> 0 < name[i] as int < 256) && k < |name|
    ensures CharBytes(name)[k] == name[k] as int
  {
    if k > 0 { CharAt(name[1..], k - 1); }
  }
}
