/** Disk blocks and the machine words stored in them.

A block is `BSIZE` bytes.  The log header, the indirect blocks and the on-disk
inodes are arrays of 32-bit little-endian words laid over those bytes; `GetWord`
and `PutWord` are the loads and stores the kernel makes through such a pointer.
*/
module Blocks {
  const BSIZE := 512

  /** Words per block (`BSIZE / sizeof(uint)`). */
  const WPB := 128

  type Byte = x: int | 0 <= x < 0x100

  type Word = x: int | 0 <= x < 0x1_0000_0000

  type Block = b: seq<Byte> | |b| == BSIZE witness seq(BSIZE, i => 0)

  function ZeroBlock(): Block {
    seq(BSIZE, i => 0)
  }

  /** The little-endian value of four bytes. */
  function Word4(b0: Byte, b1: Byte, b2: Byte, b3: Byte): Word {
    var x0: int, x1: int, x2: int, x3: int := b0, b1, b2, b3;
    x0 + 0x100 * x1 + 0x1_0000 * x2 + 0x100_0000 * x3
  }

  function GetWord(b: Block, i: nat): Word
    requires i < WPB
  {
    Word4(b[4 * i], b[4 * i + 1], b[4 * i + 2], b[4 * i + 3])
  }

  function PutWord(b: Block, i: nat, w: Word): (r: Block)
    requires i < WPB
    ensures GetWord(r, i) == w
    ensures forall j :: 0 <= j < WPB && j != i ==> GetWord(r, j) == GetWord(b, j)
  {
    var w1 := w / 0x100;
    var w2 := w1 / 0x100;
    b[..4 * i] + [w % 0x100, w1 % 0x100, w2 % 0x100, w2 / 0x100] + b[4 * i + 4..]
  }

  /** Load n consecutive words from index `at` on. */
  function GetWords(b: Block, at: nat, n: nat): (ws: seq<Word>)
    requires at + n <= WPB
    ensures |ws| == n && forall i :: 0 <= i < n ==> ws[i] == GetWord(b, at + i)
  {
    if n == 0 then [] else GetWords(b, at, n - 1) + [GetWord(b, at + n - 1)]
  }

  /** Store consecutive words from index `at` on. */
  function PutWords(b: Block, at: nat, ws: seq<Word>): (r: Block)
    requires at + |ws| <= WPB
    ensures forall j :: 0 <= j < WPB ==> GetWord(r, j) == if at <= j < at + |ws| then ws[j - at] else GetWord(b, j)
  {
    if ws == [] then b
    else
      var n := |ws| - 1;
      PutWord(PutWords(b, at, ws[..n]), at + n, ws[n])
  }

  /** A zeroed block reads as zero in every word. */
  lemma ZeroBlockWords(i: nat)
    requires i < WPB
    ensures GetWord(ZeroBlock(), i) == 0
  {
  }
}
