/** The superblock: eight 64-bit fields that fs_init writes into block 1, and by whose first the next boot
    knows that there is a file system. */
module Superblock {
  import opened LittleEndian
  import opened Blocks
  import opened Crash
  import opened Layout

  /** magic, size, nblocks, ninodes, nlog, logstart, inodestart, bmapstart. */
  function Fields(): (fs: seq<nat>)
    ensures |fs| == 8
  {
    [0x10203040, 1000, 1000 - 100, 200, 30, 2, 2 + 30, (2 + 30) + 200 / 16 + 1]
  }

  /** The areas that these fields describe are those of the log, of the inodes and of the bitmap; they
      follow each other behind the superblock, and the data behind them. */
  lemma FieldsDescribe()
    ensures Fields()[1] == FSSIZE && Fields()[3] == NINODES && Fields()[4] == NLOG
    ensures Fields()[5] == LOGSTART == SUPER + 1 && Fields()[6] == INODESTART == LOGSTART + NLOG
    ensures Fields()[7] == BMAP && INODESTART + NINODES / IPB < BMAP < FSSIZE <= 8 * BSIZE
    ensures IPB * 64 == BSIZE && WORDS * 4 == BSIZE && MAXLOG < NLOG
  {}

  /** What is in no two of these areas: the front of the disk, log, inodes, bitmap, data. */
  lemma AreasApart(b: nat, j: nat)
    requires b < FSSIZE && j < NINODES
    ensures InLog(b) ==> !InFront(b) && b < InodeBlock(j) && b < BMAP
    ensures InFront(b) ==> b < InodeBlock(j) && b < BMAP
    ensures SUPER < InodeBlock(j) < BMAP
  {}

  function Field(b: Block, i: nat): nat
    requires i < 8
  {
    Get(b, 8, i)
  }

  /** A block with the first n fields stored. */
  function StoreFields(b: Block, n: nat): (r: Block)
    requires n <= 8
  {
    if n == 0 then b else Set(StoreFields(b, n - 1), 8, n - 1, Fields()[n - 1])
  }

  lemma {:induction false} FieldsBack(b: Block, n: nat, i: nat)
    requires n <= 8 && i < 8
    ensures Field(StoreFields(b, n), i) == if i < n then Fields()[i] else Field(b, i)
  {
    hide Get, Set;
    if n > 0 {
      FieldsBack(b, n - 1, i);
      EightBytes();
      GetSet(StoreFields(b, n - 1), 8, n - 1, Fields()[n - 1], i);
    }
  }

  /** fs_init's test: this disk has a file system. */
  predicate HasMagic(d: Disk) { Field(d[SUPER], 0) == 0x10203040 }

  lemma SameFrontMagic(d: Disk, e: Disk)
    requires SameFront(d, e) && HasMagic(d)
    ensures HasMagic(e)
  {}
}
