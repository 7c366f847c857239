/** Little-endian numbers inside byte sequences: the words of the log header, of indirect
    blocks and of on-disk inodes, and the entries of page tables. */
module LittleEndian {

  type Byte = x: int | 0 <= x < 256

  function Pow256(n: nat): (p: nat)
    ensures p > 0
  {
    if n == 0 then 1 else 256 * Pow256(n - 1)
  }

  /** The number whose bytes are `s`, least significant first. */
  function Value(s: seq<Byte>): (v: nat)
    ensures v < Pow256(|s|)
  {
    if |s| == 0 then 0 else s[0] + 256 * Value(s[1..])
  }

  /** The n low bytes of v, least significant first. */
  function Digits(v: nat, n: nat): (s: seq<Byte>)
    ensures |s| == n
  {
    if n == 0 then [] else [v % 256] + Digits(v / 256, n - 1)
  }

  lemma {:induction false} ValueOfDigits(v: nat, n: nat)
    requires v < Pow256(n)
    ensures Value(Digits(v, n)) == v
  {
    if n > 0 {
      ValueOfDigits(v / 256, n - 1);
      assert Digits(v, n)[1..] == Digits(v / 256, n - 1);
    }
  }

  lemma {:induction false} ZeroValue(s: seq<Byte>)
    requires forall i :: 0 <= i < |s| ==> s[i] == 0
    ensures Value(s) == 0
  {
    if |s| > 0 {
      ZeroValue(s[1..]);
    }
  }

  /** The w-byte number at index i of a table of w-byte numbers. */
  function Get(b: seq<Byte>, w: nat, i: nat): (v: nat)
    requires w * i + w <= |b|
  {
    Value(b[w * i..w * i + w])
  }

  function Set(b: seq<Byte>, w: nat, i: nat, v: nat): (r: seq<Byte>)
    requires w * i + w <= |b|
    ensures |r| == |b|
  {
    b[..w * i] + Digits(v, w) + b[w * i + w..]
  }

  lemma SlotsApart(w: nat, i: nat, j: nat)
    requires i < j
    ensures w * i + w <= w * j
  {
    assert w * j == w * i + w + w * (j - i - 1);
    assert w * (j - i - 1) >= 0;
  }

  /** Storing a number makes exactly that number read back and leaves the others alone. */
  lemma GetSet(b: seq<Byte>, w: nat, i: nat, v: nat, j: nat)
    requires w * i + w <= |b| && w * j + w <= |b| && v < Pow256(w)
    ensures Get(Set(b, w, i, v), w, j) == if i == j then v else Get(b, w, j)
  {
    var r := Set(b, w, i, v);
    if i == j {
      ValueOfDigits(v, w);
      assert r[w * i..w * i + w] == Digits(v, w);
    } else if i < j {
      SlotsApart(w, i, j);
      assert r[w * j..w * j + w] == b[w * j..w * j + w];
    } else {
      SlotsApart(w, j, i);
      assert r[w * j..w * j + w] == b[w * j..w * j + w];
    }
  }
}

/** Disk blocks and disks. */
module Blocks {
  import opened LittleEndian

  const BSIZE := 1024
  /** 32-bit words in a block. */
  const WORDS := 256
  const FSSIZE := 1000

  type Word = x: int | 0 <= x < 0x1_0000_0000

  type Block = b: seq<Byte> | |b| == BSIZE witness seq(BSIZE, _ => 0)

  type Disk = d: seq<Block> | |d| == FSSIZE witness seq<Block>(FSSIZE, (_: nat) => ZeroBlock())

  function ZeroBlock(): (b: Block)
    ensures forall i :: 0 <= i < BSIZE ==> b[i] == 0
  {
    seq(BSIZE, _ => 0)
  }

  lemma WordRange()
    ensures Pow256(4) == 0x1_0000_0000
  {
    assert Pow256(2) == 65536;
    assert Pow256(3) == 256 * Pow256(2);
  }

  lemma EightBytes()
    ensures Pow256(8) == 0x1_0000_0000_0000_0000
  {
    assert Pow256(4) == 0x1_0000_0000 by { WordRange(); }
    assert Pow256(6) == 65536 * Pow256(4);
  }

  function GetWord(b: Block, i: nat): (w: Word)
    requires i < WORDS
  {
    WordRange();
    Get(b, 4, i)
  }

  function SetWord(b: Block, i: nat, w: Word): (r: Block)
    requires i < WORDS
  {
    Set(b, 4, i, w)
  }

  /** Storing a word makes exactly that word read back, and leaves the other 255 alone. */
  lemma GetSetWord(b: Block, i: nat, w: Word, j: nat)
    requires i < WORDS && j < WORDS
    ensures GetWord(SetWord(b, i, w), j) == if i == j then w else GetWord(b, j)
  {
    WordRange();
    GetSet(b, 4, i, w, j);
  }

  lemma ZeroWords(i: nat)
    requires i < WORDS
    ensures GetWord(ZeroBlock(), i) == 0
  {
    ZeroValue(ZeroBlock()[4 * i..4 * i + 4]);
  }
}
