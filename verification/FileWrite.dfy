/** `writei`, `readi` and `iupdate`: the byte-sequence view of a file and the
    write-through inode cache. */
module FileWrite {
  import opened Collections
  import opened Blocks
  import opened Dinodes
  import opened FileModel
  import opened FileContent

  // ---------------------------------------------------------------- inodes on disk

  function DiskInode(sb: Super, fs: FS, i: nat): Dinode
    requires Shape(sb, fs) && i < sb.ninodes
  {
    ReadDinode(fs.blocks[IBlock(sb, i)], i % IPB)
  }

  /** Every in-memory inode agrees with its copy on disk. */
  ghost predicate WriteThrough(sb: Super, fs: FS)
    requires Shape(sb, fs)
  {
    forall i :: 0 <= i < sb.ninodes ==> DiskInode(sb, fs, i) == fs.inodes[i]
  }

  function Iupdate(sb: Super, fs: FS, i: nat): (r: FS)
    requires Shape(sb, fs) && i < sb.ninodes
    ensures Shape(sb, r)
  {
    LogWrite(fs, IBlock(sb, i), WriteDinode(fs.blocks[IBlock(sb, i)], i % IPB, fs.inodes[i]))
  }

  /** `iupdate` brings inode i to disk and touches no other inode. */
  lemma IupdateInodes(sb: Super, fs: FS, i: nat)
    requires Shape(sb, fs) && i < sb.ninodes
    ensures forall j :: 0 <= j < sb.ninodes ==>
              DiskInode(sb, Iupdate(sb, fs, i), j) == if j == i then fs.inodes[i] else DiskInode(sb, fs, j)
  {
    hide ReadDinode, WriteDinode;
    forall j | 0 <= j < sb.ninodes
      ensures DiskInode(sb, Iupdate(sb, fs, i), j) == if j == i then fs.inodes[i] else DiskInode(sb, fs, j)
    {
      if IBlock(sb, j) == IBlock(sb, i) {
        DinodeRoundTrip(fs.blocks[IBlock(sb, i)], i % IPB, fs.inodes[i], j % IPB);
        assert j % IPB == i % IPB ==> j == i;
      }
    }
  }

  /** Writing below the free map changes no pointer, no bit and no file byte. */
  lemma MetaWriteHarmless(sb: Super, fs: FS, o: Owner, b: Word, v: Block)
    requires Owned(sb, fs, o) && 0 < b < sb.bmapstart
    ensures Owned(sb, LogWrite(fs, b, v), o)
    ensures forall j, q :: 0 <= j < sb.ninodes && 0 <= q < MAXBYTES ==>
              Mapped(sb, LogWrite(fs, b, v), j, q) == Mapped(sb, fs, j, q) &&
              ByteOf(sb, LogWrite(fs, b, v), j, q) == ByteOf(sb, fs, j, q)
  {
    SlotsKept(sb, fs, b, v);
    StillOwned(sb, fs, o, LogWrite(fs, b, v));
    hide Slot, InUse;
    var e := LogWrite(fs, b, v);
    forall j, q | 0 <= j < sb.ninodes && 0 <= q < MAXBYTES
      ensures Mapped(sb, e, j, q) == Mapped(sb, fs, j, q) && ByteOf(sb, e, j, q) == ByteOf(sb, fs, j, q)
    {
      assert BlockOf(sb, e, j, q) == BlockOf(sb, fs, j, q);
    }
  }

  // ---------------------------------------------------------------- writei

  datatype WriteResult = Refused | Halted | Wrote(fs: FS)

  function SetSize(fs: FS, i: nat, n: Word): FS
    requires i < |fs.inodes|
  {
    fs.(inodes := fs.inodes[i := fs.inodes[i].(size := n)])
  }

  /** The tail of `writei`: grow the file if the write went past its end. */
  function Finish(sb: Super, fs: FS, i: nat, end: Word, n: nat): (r: FS)
    requires Shape(sb, fs) && i < sb.ninodes
    ensures Shape(sb, r)
  {
    if n > 0 && end > fs.inodes[i].size then Iupdate(sb, SetSize(fs, i, end), i) else fs
  }

  /** `writei` on a file that is not a device; the size checks are made in 32-bit arithmetic. */
  function Writei(sb: Super, fs: FS, i: nat, off: Word, src: seq<Byte>): WriteResult
    requires Shape(sb, fs) && i < sb.ninodes && |src| < 0x1_0000_0000
  {
    var end := (off + |src|) % 0x1_0000_0000;
    if off > fs.inodes[i].size || end < off || end > MAXBYTES then Refused
    else match WriteLoop(sb, fs, i, off, src, 0)
         case Panic => Halted
         case Done(e) => Wrote(Finish(sb, e, i, off + |src|, |src|))
  }

  /** The 32-bit checks refuse exactly a write behind the end or past the largest file. */
  lemma WriteiRefuses(sb: Super, fs: FS, i: nat, off: Word, src: seq<Byte>)
    requires Shape(sb, fs) && i < sb.ninodes && |src| < 0x1_0000_0000
    ensures Writei(sb, fs, i, off, src).Refused? <==> off > fs.inodes[i].size || off + |src| > MAXBYTES
  {
    hide WriteLoop, Finish;
  }

  /** What holds of the file layer between operations. */
  ghost predicate FilesOk(sb: Super, fs: FS, o: Owner) {
    && Owned(sb, fs, o)
    && WriteThrough(sb, fs)
    && forall i :: 0 <= i < sb.ninodes ==> NoHoles(sb, fs, i)
  }

  /** Overwrite from position off on, growing the sequence if need be. */
  function Overlay(was: seq<Byte>, off: nat, src: seq<Byte>): seq<Byte>
    requires off <= |was|
  {
    was[..off] + src + if off + |src| <= |was| then was[off + |src|..] else []
  }

  lemma FinishOwned(sb: Super, fs: FS, o: Owner, i: nat, end: Word, n: nat)
    requires Owned(sb, fs, o) && i < sb.ninodes
    ensures var e := Finish(sb, fs, i, end, n);
            && Owned(sb, e, o)
            && (forall j, q :: 0 <= j < sb.ninodes && 0 <= q < MAXBYTES ==>
                  Mapped(sb, e, j, q) == Mapped(sb, fs, j, q) && ByteOf(sb, e, j, q) == ByteOf(sb, fs, j, q))
  {
    if n > 0 && end > fs.inodes[i].size {
      var d := SetSize(fs, i, end);
      SizeHarmless(sb, fs, o, i, end);
      MetaWriteHarmless(sb, d, o, IBlock(sb, i), WriteDinode(d.blocks[IBlock(sb, i)], i % IPB, d.inodes[i]));
    }
  }

  lemma SizeHarmless(sb: Super, fs: FS, o: Owner, i: nat, n: Word)
    requires Owned(sb, fs, o) && i < sb.ninodes
    ensures var d := SetSize(fs, i, n);
            && Owned(sb, d, o)
            && (forall j, q :: 0 <= j < sb.ninodes && 0 <= q < MAXBYTES ==>
                  Mapped(sb, d, j, q) == Mapped(sb, fs, j, q) && ByteOf(sb, d, j, q) == ByteOf(sb, fs, j, q))
  {
    var d := SetSize(fs, i, n);
    assert Shape(sb, d);
    assert forall j, k :: IsSlot(sb, j, k) ==> Slot(sb, d, j, k) == Slot(sb, fs, j, k);
    assert forall x :: 0 <= x < sb.size ==> InUse(sb, d, x) == InUse(sb, fs, x);
    StillOwned(sb, fs, o, d);
    hide Slot, InUse;
    assert forall j, q :: 0 <= j < sb.ninodes && 0 <= q < MAXBYTES ==> BlockOf(sb, d, j, q) == BlockOf(sb, fs, j, q);
  }

  lemma DiskInodesKept(sb: Super, fs: FS, e: FS)
    requires Shape(sb, fs) && Shape(sb, e) && forall b :: 0 <= b < sb.bmapstart ==> e.blocks[b] == fs.blocks[b]
    ensures forall j :: 0 <= j < sb.ninodes ==> DiskInode(sb, e, j) == DiskInode(sb, fs, j)
  {
  }

  /** The inode cache stays write-through: a write that allocates also grows the file. */
  lemma FinishWriteThrough(sb: Super, fs: FS, e: FS, i: nat, off: Word, n: nat)
    requires Shape(sb, fs) && WriteThrough(sb, fs) && MetaKept(sb, fs, e, i) && NoHoles(sb, fs, i)
    requires off <= fs.inodes[i].size && off + n <= MAXBYTES
    requires AllMapped(sb, fs, i, off, off + n) ==> e.inodes == fs.inodes
    ensures WriteThrough(sb, Finish(sb, e, i, off + n, n))
  {
    hide DiskInode, Mapped;
    DiskInodesKept(sb, fs, e);
    if n > 0 && off + n > e.inodes[i].size {
      var d := SetSize(e, i, off + n);
      DiskInodesKept(sb, e, d);
      IupdateInodes(sb, d, i);
    } else {
      assert AllMapped(sb, fs, i, off, off + n);
    }
  }

  lemma WrittenNoHoles(sb: Super, fs: FS, e: FS, i: nat, off: Word, src: seq<Byte>, j: nat)
    requires Written(sb, fs, e, i, off, src) && MetaKept(sb, fs, e, i) && j < sb.ninodes && NoHoles(sb, fs, j)
    requires off <= fs.inodes[i].size
    ensures NoHoles(sb, e, j)
    ensures j == i ==> AllMapped(sb, e, i, 0, off + |src|)
  {
    hide Mapped;
  }

  lemma FinishNoHoles(sb: Super, fs: FS, o: Owner, i: nat, end: Word, n: nat, j: nat)
    requires Owned(sb, fs, o) && i < sb.ninodes && j < sb.ninodes && NoHoles(sb, fs, j)
    requires end <= MAXBYTES && (j == i ==> AllMapped(sb, fs, i, 0, end))
    ensures NoHoles(sb, Finish(sb, fs, i, end, n), j)
  {
    hide Mapped, ByteOf, Iupdate;
    FinishOwned(sb, fs, o, i, end, n);
    FinishInodes(sb, fs, i, end, n);
  }

  lemma FinishInodes(sb: Super, fs: FS, i: nat, end: Word, n: nat)
    requires Shape(sb, fs) && i < sb.ninodes
    ensures var e := Finish(sb, fs, i, end, n);
            && (forall j :: 0 <= j < sb.ninodes && j != i ==> e.inodes[j] == fs.inodes[j])
            && e.inodes[i] == fs.inodes[i].(size := if n > 0 && end > fs.inodes[i].size then end else fs.inodes[i].size)
  {
  }

  /** Growing or overwriting, `writei` keeps everything the file layer relies on. */
  lemma WriteiKeepsFiles(sb: Super, fs: FS, o: Owner, i: nat, off: Word, src: seq<Byte>) returns (p: Owner)
    requires FilesOk(sb, fs, o) && i < sb.ninodes && |src| < 0x1_0000_0000 && Writei(sb, fs, i, off, src).Wrote?
    ensures FilesOk(sb, Writei(sb, fs, i, off, src).fs, p)
  {
    hide WriteLoop, Finish, Owned, NoHoles, WriteThrough, Written, MetaKept;
    OwnedShape(sb, fs, o);
    WriteiRefuses(sb, fs, i, off, src);
    var e := WriteLoop(sb, fs, i, off, src, 0).fs;
    p := WriteLoopEffect(sb, fs, o, i, off, src, 0);
    assert src[0..] == src;
    FinishWriteThrough(sb, fs, e, i, off, |src|);
    FinishOwned(sb, e, p, i, off + |src|, |src|);
    var f := Finish(sb, e, i, off + |src|, |src|);
    forall j | 0 <= j < sb.ninodes
      ensures NoHoles(sb, f, j)
    {
      WrittenNoHoles(sb, fs, e, i, off, src, j);
      FinishNoHoles(sb, e, p, i, off + |src|, |src|, j);
    }
  }

  lemma OwnedShape(sb: Super, fs: FS, o: Owner)
    requires Owned(sb, fs, o)
    ensures Shape(sb, fs)
  {
  }

  /** Byte by byte, `writei` writes src at off and nothing else. */
  lemma WriteiBytes(sb: Super, fs: FS, o: Owner, i: nat, off: Word, src: seq<Byte>)
    requires FilesOk(sb, fs, o) && i < sb.ninodes && |src| < 0x1_0000_0000 && Writei(sb, fs, i, off, src).Wrote?
    ensures off <= fs.inodes[i].size && off + |src| <= MAXBYTES
    ensures var e := Writei(sb, fs, i, off, src).fs;
            && Written(sb, fs, e, i, off, src)
            && (forall j :: 0 <= j < sb.ninodes && j != i ==> e.inodes[j] == fs.inodes[j])
            && e.inodes[i].size == (if off + |src| > fs.inodes[i].size then off + |src| else fs.inodes[i].size)
  {
    hide WriteLoop, Finish, Owned, ByteOf, Mapped, NoHoles, WriteThrough;
    OwnedShape(sb, fs, o);
    WriteiRefuses(sb, fs, i, off, src);
    var d := WriteLoop(sb, fs, i, off, src, 0).fs;
    var p := WriteLoopEffect(sb, fs, o, i, off, src, 0);
    assert src[0..] == src;
    FinishOwned(sb, d, p, i, off + |src|, |src|);
    FinishInodes(sb, d, i, off + |src|, |src|);
    OwnedShape(sb, Finish(sb, d, i, off + |src|, |src|), p);
  }

  lemma ContentKept(sb: Super, fs: FS, e: FS, i: nat, off: nat, src: seq<Byte>, j: nat)
    requires Written(sb, fs, e, i, off, src) && j < sb.ninodes && j != i && NoHoles(sb, fs, j)
    requires e.inodes[j] == fs.inodes[j]
    ensures Content(sb, e, j) == Content(sb, fs, j)
  {
    hide ByteOf, Mapped;
    var a, b := Content(sb, e, j), Content(sb, fs, j);
    assert forall q :: 0 <= q < fs.inodes[j].size ==> a[q] == b[q];
  }

  lemma ContentWritten(sb: Super, fs: FS, e: FS, i: nat, off: nat, src: seq<Byte>)
    requires Written(sb, fs, e, i, off, src) && NoHoles(sb, fs, i) && off <= fs.inodes[i].size
    requires e.inodes[i].size == (if off + |src| > fs.inodes[i].size then off + |src| else fs.inodes[i].size)
    ensures Content(sb, e, i) == Overlay(Content(sb, fs, i), off, src)
  {
    hide ByteOf, Mapped;
    var a, b := Content(sb, e, i), Overlay(Content(sb, fs, i), off, src);
    forall q | 0 <= q < |a|
      ensures a[q] == b[q]
    {
      assert a[q] == ByteOf(sb, e, i, q);
      if q < fs.inodes[i].size {
        assert Content(sb, fs, i)[q] == ByteOf(sb, fs, i, q);
      }
    }
  }

  /** `writei` overwrites the file as a byte sequence and grows it where it runs past the end;
      every other file and inode is untouched. */
  lemma WriteiContent(sb: Super, fs: FS, o: Owner, i: nat, off: Word, src: seq<Byte>)
    requires FilesOk(sb, fs, o) && i < sb.ninodes && |src| < 0x1_0000_0000 && Writei(sb, fs, i, off, src).Wrote?
    ensures var e := Writei(sb, fs, i, off, src).fs;
            && off <= fs.inodes[i].size <= MAXBYTES && off + |src| <= MAXBYTES && Shape(sb, e)
            && e.inodes[i].size == (if off + |src| > fs.inodes[i].size then off + |src| else fs.inodes[i].size)
            && Content(sb, e, i) == Overlay(Content(sb, fs, i), off, src)
            && forall j :: 0 <= j < sb.ninodes && j != i ==>
                 e.inodes[j] == fs.inodes[j] && fs.inodes[j].size <= MAXBYTES && Content(sb, e, j) == Content(sb, fs, j)
  {
    hide Writei, Owned, ByteOf, Mapped, Content;
    WriteiBytes(sb, fs, o, i, off, src);
    var e := Writei(sb, fs, i, off, src).fs;
    assert NoHoles(sb, fs, i);
    ContentWritten(sb, fs, e, i, off, src);
    forall j | 0 <= j < sb.ninodes && j != i
      ensures fs.inodes[j].size <= MAXBYTES && Content(sb, e, j) == Content(sb, fs, j)
    {
      assert NoHoles(sb, fs, j);
      ContentKept(sb, fs, e, i, off, src, j);
    }
  }

  // ---------------------------------------------------------------- readi

  datatype ReadResult = Denied | Stuck | Got(fs: FS, data: seq<Byte>)

  /** The loop of `readi`, which goes through `bmap` as well. */
  function ReadLoop(sb: Super, fs: FS, i: nat, off: nat, n: nat, tot: nat): (r: ReadResult)
    requires Shape(sb, fs) && i < sb.ninodes && off + n <= MAXBYTES && tot <= n
    decreases n - tot
  {
    if tot == n then Got(fs, [])
    else
      var pos, m := off + tot, Turn(off, tot, n);
      var e := Bmap(sb, fs, i, pos / BSIZE);
      if !Mapped(sb, e, i, pos) then Stuck
      else
        var got := e.blocks[BlockOf(sb, e, i, pos)][pos % BSIZE..pos % BSIZE + m];
        match ReadLoop(sb, e, i, off, n, tot + m)
        case Got(f, rest) => Got(f, got + rest)
        case r => r
  }

  /** `readi` on a file that is not a device. */
  function Readi(sb: Super, fs: FS, i: nat, off: Word, n: Word): (r: ReadResult)
    requires Shape(sb, fs) && i < sb.ninodes && fs.inodes[i].size <= MAXBYTES
  {
    var size := fs.inodes[i].size;
    var end := (off + n) % 0x1_0000_0000;
    if off > size || end < off then Denied
    else ReadLoop(sb, fs, i, off, if end > size then size - off else n, 0)
  }

  lemma {:induction false} ReadLoopBytes(sb: Super, fs: FS, o: Owner, i: nat, off: nat, n: nat, tot: nat)
    requires Owned(sb, fs, o) && i < sb.ninodes && off + n <= MAXBYTES && tot <= n
    requires AllMapped(sb, fs, i, off, off + n)
    ensures ReadLoop(sb, fs, i, off, n, tot) == Got(fs, Bytes(sb, fs, i, off + tot, off + n))
    decreases n - tot
  {
    hide Bmap, Owned, Mapped, BlockOf, ByteOf;
    OwnedShape(sb, fs, o);
    if tot < n {
      var pos, m := off + tot, Turn(off, tot, n);
      assert Mapped(sb, fs, i, pos);
      BmapFinds(sb, fs, o, i, pos);
      ReadLoopBytes(sb, fs, o, i, off, n, tot + m);
      BytesSplit(sb, fs, i, pos, pos + m, off + n);
      BlockBytes(sb, fs, i, pos, m);
    }
  }

  /** `bmap` allocates nothing for a block that is there. */
  lemma BmapFinds(sb: Super, fs: FS, o: Owner, i: nat, pos: nat)
    requires Owned(sb, fs, o) && i < sb.ninodes && pos < MAXBYTES && Mapped(sb, fs, i, pos)
    ensures Bmap(sb, fs, i, pos / BSIZE) == fs
  {
    hide Bmap, Slot, SlotsOwn, OwnersPoint, BitsMatch;
    var p := BmapExtends(sb, fs, o, i, pos / BSIZE);
  }

  lemma BlockBytes(sb: Super, fs: FS, i: nat, pos: nat, m: nat)
    requires Shape(sb, fs) && i < sb.ninodes && pos < MAXBYTES && pos % BSIZE + m <= BSIZE && Mapped(sb, fs, i, pos)
    ensures pos + m <= MAXBYTES
    ensures fs.blocks[BlockOf(sb, fs, i, pos)][pos % BSIZE..pos % BSIZE + m] == Bytes(sb, fs, i, pos, pos + m)
  {
    hide Slot;
    var a, b := fs.blocks[BlockOf(sb, fs, i, pos)][pos % BSIZE..pos % BSIZE + m], Bytes(sb, fs, i, pos, pos + m);
    forall k | 0 <= k < m
      ensures a[k] == b[k]
    {
      assert BlockOf(sb, fs, i, pos + k) == BlockOf(sb, fs, i, pos);
    }
  }

  lemma BytesSplit(sb: Super, fs: FS, i: nat, lo: nat, mid: nat, hi: nat)
    requires Shape(sb, fs) && i < sb.ninodes && lo <= mid <= hi <= MAXBYTES
    ensures Bytes(sb, fs, i, lo, hi) == Bytes(sb, fs, i, lo, mid) + Bytes(sb, fs, i, mid, hi)
  {
    hide ByteOf;
    var a, b, c := Bytes(sb, fs, i, lo, hi), Bytes(sb, fs, i, lo, mid), Bytes(sb, fs, i, mid, hi);
    forall k | 0 <= k < |a|
      ensures a[k] == (b + c)[k]
    {
      assert a[k] == ByteOf(sb, fs, i, lo + k);
      if k >= mid - lo {
        assert c[k - (mid - lo)] == ByteOf(sb, fs, i, mid + (k - (mid - lo)));
      }
    }
  }

  /** `readi` returns the requested slice cut at the end of the file, and neither allocates nor
      logs anything; it refuses exactly an offset behind the end or a range that wraps. */
  lemma ReadiContent(sb: Super, fs: FS, o: Owner, i: nat, off: Word, n: Word)
    requires FilesOk(sb, fs, o) && i < sb.ninodes
    ensures Shape(sb, fs) && fs.inodes[i].size <= MAXBYTES
    ensures Readi(sb, fs, i, off, n) ==
            if off > fs.inodes[i].size || off + n >= 0x1_0000_0000 then Denied
            else Got(fs, Content(sb, fs, i)[off..Min(off + n, fs.inodes[i].size)])
  {
    hide ReadLoop, ByteOf, Mapped, SlotsOwn, OwnersPoint, BitsMatch, WriteThrough, Bytes;
    assert NoHoles(sb, fs, i);
    var size := fs.inodes[i].size;
    if off <= size && off + n < 0x1_0000_0000 {
      var k := if off + n > size then size - off else n;
      ReadLoopBytes(sb, fs, o, i, off, k, 0);
      ContentSlice(sb, fs, i, off, off + k);
    }
  }

  lemma ContentSlice(sb: Super, fs: FS, i: nat, lo: nat, hi: nat)
    requires Shape(sb, fs) && i < sb.ninodes && lo <= hi <= fs.inodes[i].size <= MAXBYTES
    ensures Content(sb, fs, i)[lo..hi] == Bytes(sb, fs, i, lo, hi)
  {
    hide ByteOf;
    var a, b := Content(sb, fs, i)[lo..hi], Bytes(sb, fs, i, lo, hi);
    assert forall k :: 0 <= k < hi - lo ==> a[k] == b[k];
  }
}
