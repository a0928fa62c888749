/** The image a file system starts from: zeroed blocks, no files, the metadata marked in use. */
module FileImage {
  import opened Blocks
  import opened Bitmap
  import opened Dinodes
  import opened FileModel
  import opened FileWrite

  function NoInode(): (d: Dinode)
    ensures IsDinode(d)
  {
    Dinode(0, 0, 0, 0, 0, seq(NDIRECT + 1, k => 0))
  }

  /** Nothing written yet. */
  function Blank(sb: Super): (fs: FS)
    requires SuperOk(sb)
    ensures Shape(sb, fs)
  {
    FS(seq(sb.size, b => ZeroBlock()), seq(sb.ninodes, i => NoInode()), [])
  }

  /** The first n blocks marked in use, one after the other. */
  function Marked(sb: Super, n: nat): (fs: FS)
    requires SuperOk(sb) && n <= sb.size
    ensures Shape(sb, fs)
  {
    if n == 0 then Blank(sb) else PutInUse(sb, Marked(sb, n - 1), n - 1, true)
  }

  lemma {:induction false} ZeroBit(k: nat)
    ensures !TestBit(0, k)
  {
    if k > 0 {
      ZeroBit(k - 1);
    }
  }

  lemma BlankBits(sb: Super)
    requires SuperOk(sb)
    ensures forall x :: 0 <= x < sb.size ==> !InUse(sb, Blank(sb), x)
  {
    forall x | 0 <= x < sb.size
      ensures !InUse(sb, Blank(sb), x)
    {
      ZeroBit(x % BPB % 8);
    }
  }

  lemma {:induction false} MarkedBits(sb: Super, n: nat)
    requires SuperOk(sb) && n <= sb.size
    ensures forall x :: 0 <= x < sb.size ==> (InUse(sb, Marked(sb, n), x) <==> x < n)
    ensures Marked(sb, n).inodes == Blank(sb).inodes
    ensures forall b :: 0 <= b < sb.bmapstart ==> Marked(sb, n).blocks[b] == ZeroBlock()
  {
    hide InUse, PutBit;
    if n == 0 {
      BlankBits(sb);
    } else {
      MarkedBits(sb, n - 1);
      BitPut(sb, Marked(sb, n - 1), n - 1, true);
    }
  }

  lemma ZeroInode(k: nat)
    requires k < IPB
    ensures ReadDinode(ZeroBlock(), k) == NoInode()
  {
    var ws := GetWords(ZeroBlock(), WPI * k, WPI);
    forall i | 0 <= i < WPI
      ensures ws[i] == 0
    {
      ZeroBlockWords(WPI * k + i);
    }
    assert ws[3..] == NoInode().addrs;
  }

  /** A file system without files satisfies everything the file layer relies on. */
  lemma BlankImageOk(sb: Super)
    requires SuperOk(sb)
    ensures FilesOk(sb, Marked(sb, sb.datastart), map[])
  {
    var fs := Marked(sb, sb.datastart);
    MarkedBits(sb, sb.datastart);
    hide Marked, InUse;
    assert forall i, k :: IsSlot(sb, i, k) ==> Slot(sb, fs, i, k) == 0;
    forall i | 0 <= i < sb.ninodes
      ensures DiskInode(sb, fs, i) == fs.inodes[i]
    {
      ZeroInode(i % IPB);
    }
    assert Owned(sb, fs, map[]);
  }
}
