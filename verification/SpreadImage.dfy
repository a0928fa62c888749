/** Disk images whose free blocks lie far apart.

Part m of such a disk is the 4096 blocks whose bits share block m of the free map.  The metadata
fill part 0, files fill all of the parts behind it except the last block of each, and the disk ends
with the first block of the last part.  So the free blocks are 4095, 8191, ... and the last block,
no two of them in the same part.  The files take the filled blocks in order, 141 each: twelve direct
blocks, the indirect block and its 128 entries.
*/
module SpreadImage {
  import opened Collections
  import opened Blocks
  import opened Bitmap
  import opened Dinodes
  import opened FileModel
  import opened FileContent
  import opened FileWrite
  import opened FileBudget
  import opened FileTight
  import Log

  /** Images of four or five parts. */
  predicate Parts(r: nat) {
    r == 4 || r == 5
  }

  /** Boot block, super block and a log of thirty blocks come before the inodes. */
  function SuperOf(r: nat): (sb: Super)
    requires Parts(r)
    ensures SuperOk(sb)
  {
    Super(BPB * (r - 1) + 1, 100, 32, 4095 - r, 4095)
  }

  /** How many blocks the files fill. */
  function FilledBlocks(r: nat): nat
    requires Parts(r)
  {
    4095 * (r - 2)
  }

  predicate Taken(r: nat, b: int)
    requires Parts(r)
  {
    BPB <= b < BPB * (r - 1) && b % BPB != 4095
  }

  /** The x-th filled block. */
  function Nth(x: nat): nat {
    BPB + x + x / 4095
  }

  function Index(b: nat): (x: int) {
    b - 4095 - b / BPB
  }

  lemma IndexOfNth(r: nat, x: nat)
    requires Parts(r) && x < FilledBlocks(r)
    ensures Taken(r, Nth(x)) && Index(Nth(x)) == x
  {
    var a, c := x / 4095, x % 4095;
    assert Nth(x) == BPB * (a + 1) + c;
  }

  lemma NthOfIndex(r: nat, b: nat)
    requires Parts(r) && Taken(r, b)
    ensures 0 <= Index(b) < FilledBlocks(r) && Nth(Index(b)) == b
  {
    var a, c := b / BPB, b % BPB;
    assert Index(b) == 4095 * (a - 1) + c;
  }

  /** Slot k of inode i; inode 0 is not used. */
  function SlotAt(r: nat, i: nat, k: nat): (b: Word)
    requires Parts(r)
  {
    if i > 0 && NSLOTS * (i - 1) + k < FilledBlocks(r) then Nth(NSLOTS * (i - 1) + k) else 0
  }

  /** Blocks of inode i, its indirect block included. */
  function Count(r: nat, i: nat): (c: nat)
    requires Parts(r)
    ensures c <= NSLOTS
  {
    if i == 0 || NSLOTS * (i - 1) >= FilledBlocks(r) then 0 else Min(FilledBlocks(r) - NSLOTS * (i - 1), NSLOTS)
  }

  /** Every file ends with its last block, except that file t ends with block 11. */
  function SizeAt(r: nat, t: nat, i: nat): (n: Word)
    requires Parts(r)
  {
    if i == t then 12 * BSIZE
    else if Count(r, i) <= NDIRECT then BSIZE * Count(r, i) else BSIZE * (Count(r, i) - 1)
  }

  function InodeAt(r: nat, t: nat, i: nat): (x: Dinode)
    requires Parts(r)
    ensures IsDinode(x)
  {
    Dinode(2, 0, 0, 1, SizeAt(r, t, i), seq(NDIRECT + 1, k requires 0 <= k => SlotAt(r, i, k)))
  }

  // ---------------------------------------------------------------- the blocks

  predicate Used(r: nat, b: int)
    requires Parts(r)
  {
    b < 4095 || Taken(r, b)
  }

  /** Block m of the free map with its first n bits in place. */
  function MapBlock(r: nat, m: nat, n: nat): (b: Block)
    requires Parts(r) && n <= BPB
  {
    if n == 0 then ZeroBlock() else PutBit(MapBlock(r, m, n - 1), n - 1, Used(r, BPB * m + n - 1))
  }

  lemma {:induction false} MapBits(r: nat, m: nat, n: nat)
    requires Parts(r) && n <= BPB
    ensures forall j :: 0 <= j < n ==> (GetBit(MapBlock(r, m, n), j) <==> Used(r, BPB * m + j))
  {
    hide Used, GetBit, PutBit;
    if n > 0 {
      MapBits(r, m, n - 1);
      PutBitBits(MapBlock(r, m, n - 1), n - 1, Used(r, BPB * m + n - 1));
    }
  }

  /** The m-th block of inodes with its first n inodes in place. */
  function InodeBlock(r: nat, t: nat, m: nat, n: nat): (b: Block)
    requires Parts(r) && n <= IPB
  {
    if n == 0 then ZeroBlock() else WriteDinode(InodeBlock(r, t, m, n - 1), n - 1, InodeAt(r, t, IPB * m + n - 1))
  }

  lemma {:induction false} InodesInBlock(r: nat, t: nat, m: nat, n: nat, j: nat)
    requires Parts(r) && j < n <= IPB
    ensures ReadDinode(InodeBlock(r, t, m, n), j) == InodeAt(r, t, IPB * m + j)
  {
    hide ReadDinode, WriteDinode, InodeAt;
    DinodeRoundTrip(InodeBlock(r, t, m, n - 1), n - 1, InodeAt(r, t, IPB * m + n - 1), j);
    if j < n - 1 {
      InodesInBlock(r, t, m, n - 1, j);
    }
  }

  function IndirectBlock(r: nat, i: nat): (b: Block)
    requires Parts(r)
    ensures forall e :: 0 <= e < NINDIRECT ==> GetWord(b, e) == SlotAt(r, i, IND + 1 + e)
  {
    PutWords(ZeroBlock(), 0, seq<Word>(NINDIRECT, e requires 0 <= e => SlotAt(r, i, IND + 1 + e)))
  }

  function BlockAt(r: nat, t: nat, b: nat): Block
    requires Parts(r)
  {
    if 32 <= b < 4095 - r then InodeBlock(r, t, b - 32, IPB)
    else if 4095 - r <= b < 4095 then MapBlock(r, b - (4095 - r), BPB)
    else if Taken(r, b) && Index(b) >= 0 && Index(b) % NSLOTS == IND then IndirectBlock(r, Index(b) / NSLOTS + 1)
    else ZeroBlock()
  }

  function Image(r: nat, t: nat): (fs: FS)
    requires Parts(r)
    ensures Shape(SuperOf(r), fs)
  {
    FS(seq(SuperOf(r).size, b requires 0 <= b => BlockAt(r, t, b)), seq(100, i requires 0 <= i => InodeAt(r, t, i)), [])
  }

  ghost function Owners(r: nat): Owner
    requires Parts(r)
  {
    map b: Word | Taken(r, b) :: (Index(b) / NSLOTS + 1, Index(b) % NSLOTS)
  }

  // ---------------------------------------------------------------- the image is a file system

  lemma ImageSlot(r: nat, t: nat, i: nat, k: nat)
    requires Parts(r) && i < 100 && k < NSLOTS
    ensures Slot(SuperOf(r), Image(r, t), i, k) == SlotAt(r, i, k)
  {
    hide InodeBlock, MapBlock, Index;
    if k > IND && SlotAt(r, i, IND) != 0 {
      var x := NSLOTS * (i - 1) + IND;
      IndexOfNth(r, x);
      assert x / NSLOTS == i - 1 && x % NSLOTS == IND;
    }
  }

  lemma ImageInUse(r: nat, t: nat, b: nat)
    requires Parts(r) && b < SuperOf(r).size
    ensures InUse(SuperOf(r), Image(r, t), b) <==> Used(r, b)
  {
    hide InodeBlock, MapBlock, Taken, GetBit;
    MapBits(r, b / BPB, BPB);
  }

  lemma ImageOwned(r: nat, t: nat)
    requires Parts(r)
    ensures Owned(SuperOf(r), Image(r, t), Owners(r))
  {
    hide Image, Slot, InUse, Nth, Index;
    var sb, fs, o := SuperOf(r), Image(r, t), Owners(r);
    forall i, k | IsSlot(sb, i, k)
      ensures Slot(sb, fs, i, k) == SlotAt(r, i, k)
      ensures SlotAt(r, i, k) != 0 ==> SlotAt(r, i, k) in o && o[SlotAt(r, i, k)] == (i, k)
    {
      ImageSlot(r, t, i, k);
      if SlotAt(r, i, k) != 0 {
        IndexOfNth(r, NSLOTS * (i - 1) + k);
      }
    }
    forall b | b in o
      ensures IsSlot(sb, o[b].0, o[b].1) && SlotAt(r, o[b].0, o[b].1) == b
    {
      NthOfIndex(r, b);
    }
    forall b | 0 <= b < sb.size
      ensures InUse(sb, fs, b) <==> b < sb.datastart || b in o
    {
      ImageInUse(r, t, b);
    }
  }

  lemma ImageWriteThrough(r: nat, t: nat)
    requires Parts(r)
    ensures WriteThrough(SuperOf(r), Image(r, t))
  {
    hide InodeBlock, MapBlock, InodeAt, ReadDinode;
    var sb, fs := SuperOf(r), Image(r, t);
    forall i | 0 <= i < 100
      ensures DiskInode(sb, fs, i) == fs.inodes[i]
    {
      InodesInBlock(r, t, i / IPB, IPB, i % IPB);
    }
  }

  lemma ImageNoHoles(r: nat, t: nat, i: nat)
    requires Parts(r) && i < 100 && (i == t ==> Count(r, i) >= NDIRECT)
    ensures NoHoles(SuperOf(r), Image(r, t), i)
  {
    var sb, fs := SuperOf(r), Image(r, t);
    assert fs.inodes[i].size == SizeAt(r, t, i);
    hide Image, Slot, Nth;
    forall q | 0 <= q < SizeAt(r, t, i)
      ensures q < MAXBYTES && Mapped(sb, fs, i, q)
    {
      var k := DataSlot(q / BSIZE);
      assert k < Count(r, i);
      ImageSlot(r, t, i, k);
      IndexOfNth(r, NSLOTS * (i - 1) + k);
    }
  }

  /** The free blocks of the image. */
  function Gaps(r: nat): (q: seq<Word>)
    requires Parts(r)
    ensures |q| == r
  {
    if r == 4 then [4095, 8191, 12287, 12288] else [4095, 8191, 12287, 16383, 16384]
  }

  lemma ImageGaps(r: nat, t: nat)
    requires Parts(r)
    ensures LowestFree(SuperOf(r), Image(r, t), Gaps(r)) && Apart(Gaps(r))
  {
    hide Image, InUse;
    var sb, fs, q := SuperOf(r), Image(r, t), Gaps(r);
    forall b | 0 <= b < sb.size
      ensures InUse(sb, fs, b) <==> b !in q
    {
      ImageInUse(r, t, b);
    }
  }

  // ---------------------------------------------------------------- the budget is used up, and needed

  /** Inode 59 of the image of four parts has its twelve direct blocks and nothing else: a chunk
      written from inside its last block on logs `MAXOPBLOCKS` blocks. */
  lemma BudgetIsTight(off: Word, src: seq<Byte>)
    requires 11 * BSIZE < off < 12 * BSIZE && |src| == CHUNK
    ensures FilesOk(SuperOf(4), Image(4, 59), Owners(4))
    ensures Writei(SuperOf(4), Image(4, 59), 59, off, src).Wrote?
    ensures |LoggedSince(0, Writei(SuperOf(4), Image(4, 59), 59, off, src).fs.log)| == Log.MAXOPBLOCKS
  {
    hide Owned, WriteThrough, NoHoles, Writei, LoggedSince, LowestFree, Apart, Slot;
    var sb, fs, o := SuperOf(4), Image(4, 59), Owners(4);
    ImageOwned(4, 59);
    ImageWriteThrough(4, 59);
    forall i | 0 <= i < 100
      ensures NoHoles(sb, fs, i)
    {
      ImageNoHoles(4, 59, i);
    }
    ImageGaps(4, 59);
    ImageSlot(4, 59, 59, IND);
    ImageSlot(4, 59, 59, 11);
    TenIsReached(sb, fs, o, 59, off, src, Gaps(4));
  }

  /** Inode 89 of the image of five parts is a hole up to its size, and everything else is in
      order: the same chunk logs one block too many. */
  lemma HolesBreakBudget(off: Word, src: seq<Byte>)
    requires 11 * BSIZE < off < 12 * BSIZE && |src| == CHUNK
    ensures var sb, fs := SuperOf(5), Image(5, 89);
            && Owned(sb, fs, Owners(5)) && WriteThrough(sb, fs)
            && (forall i :: 0 <= i < sb.ninodes ==> (NoHoles(sb, fs, i) <==> i != 89))
    ensures Writei(SuperOf(5), Image(5, 89), 89, off, src).Wrote?
    ensures |LoggedSince(0, Writei(SuperOf(5), Image(5, 89), 89, off, src).fs.log)| == Log.MAXOPBLOCKS + 1
  {
    hide Owned, WriteThrough, NoHoles, Writei, LoggedSince, LowestFree, Apart, Slot;
    var sb, fs, o := SuperOf(5), Image(5, 89), Owners(5);
    ImageOwned(5, 89);
    ImageWriteThrough(5, 89);
    forall i | 0 <= i < 100
      ensures NoHoles(sb, fs, i) <==> i != 89
    {
      if i == 89 {
        HollowInode();
      } else {
        ImageNoHoles(5, 89, i);
      }
    }
    ImageGaps(5, 89);
    ImageSlot(5, 89, 89, IND);
    ImageSlot(5, 89, 89, 11);
    HoleNeedsEleven(sb, fs, o, 89, off, src, Gaps(5));
  }

  lemma HollowInode()
    ensures !NoHoles(SuperOf(5), Image(5, 89), 89)
  {
    var sb, fs := SuperOf(5), Image(5, 89);
    assert fs.inodes[89].size == 12 * BSIZE;
    ImageSlot(5, 89, 89, 0);
    hide Image, Slot;
    assert !Mapped(sb, fs, 89, 0);
  }
}
