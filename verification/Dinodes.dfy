/** On-disk inodes: sixteen words each, eight to a block. */
module Dinodes {
  import opened Blocks

  const NDIRECT := 12

  /** Inodes per block. */
  const IPB := 8

  /** Words per inode. */
  const WPI := 16

  type Half = x: int | 0 <= x < 0x1_0000

  /** The fields an inode has both on disk and in memory. */
  datatype Dinode = Dinode(typ: Half, major: Half, minor: Half, nlink: Half, size: Word, addrs: seq<Word>)

  predicate IsDinode(x: Dinode) {
    |x.addrs| == NDIRECT + 1
  }

  /** The inode as consecutive words. */
  function Words(x: Dinode): (ws: seq<Word>)
    requires IsDinode(x)
    ensures |ws| == WPI
  {
    var t: int, ma: int, mi: int, nl: int := x.typ, x.major, x.minor, x.nlink;
    [t + 0x1_0000 * ma, mi + 0x1_0000 * nl, x.size] + x.addrs
  }

  function FromWords(ws: seq<Word>): (x: Dinode)
    requires |ws| == WPI
    ensures IsDinode(x)
  {
    Dinode(ws[0] % 0x1_0000, ws[0] / 0x1_0000, ws[1] % 0x1_0000, ws[1] / 0x1_0000, ws[2], ws[3..])
  }

  function WriteDinode(b: Block, k: nat, x: Dinode): (r: Block)
    requires k < IPB && IsDinode(x)
  {
    PutWords(b, WPI * k, Words(x))
  }

  function ReadDinode(b: Block, k: nat): (x: Dinode)
    requires k < IPB
    ensures IsDinode(x)
  {
    FromWords(GetWords(b, WPI * k, WPI))
  }

  /** An inode written to its place reads back, and its neighbours in the block are untouched. */
  lemma DinodeRoundTrip(b: Block, k: nat, x: Dinode, j: nat)
    requires k < IPB && IsDinode(x) && j < IPB
    ensures ReadDinode(WriteDinode(b, k, x), j) == if j == k then x else ReadDinode(b, j)
  {
    var ws := GetWords(WriteDinode(b, k, x), WPI * j, WPI);
    if j == k {
      assert forall i :: 0 <= i < WPI ==> ws[i] == Words(x)[i];
      WordsRoundTrip(x);
    } else {
      assert forall i :: 0 <= i < WPI ==> ws[i] == GetWord(b, WPI * j + i);
    }
  }

  lemma WordsRoundTrip(x: Dinode)
    requires IsDinode(x)
    ensures FromWords(Words(x)) == x
  {
    assert Words(x)[3..] == x.addrs;
  }
}
