/** File contents as byte sequences: `readi` and `writei` on values. */
module FileContent {
  import opened Collections
  import opened Blocks
  import opened FileModel

  const MAXBYTES := MAXFILE * BSIZE

  // ---------------------------------------------------------------- bytes of a file

  function BlockOf(sb: Super, fs: FS, i: nat, q: nat): Word
    requires Shape(sb, fs) && i < sb.ninodes && q < MAXBYTES
  {
    Slot(sb, fs, i, DataSlot(q / BSIZE))
  }

  predicate Mapped(sb: Super, fs: FS, i: nat, q: nat)
    requires Shape(sb, fs) && i < sb.ninodes && q < MAXBYTES
  {
    0 < BlockOf(sb, fs, i, q) < sb.size
  }

  /** Byte q of file i, read through its block pointers. */
  function ByteOf(sb: Super, fs: FS, i: nat, q: nat): Byte
    requires Shape(sb, fs) && i < sb.ninodes && q < MAXBYTES
  {
    if Mapped(sb, fs, i, q) then fs.blocks[BlockOf(sb, fs, i, q)][q % BSIZE] else 0
  }

  /** Every byte below the size has a block. */
  predicate NoHoles(sb: Super, fs: FS, i: nat)
    requires Shape(sb, fs) && i < sb.ninodes
  {
    fs.inodes[i].size <= MAXBYTES && forall q :: 0 <= q < fs.inodes[i].size ==> Mapped(sb, fs, i, q)
  }

  function Bytes(sb: Super, fs: FS, i: nat, lo: nat, hi: nat): (s: seq<Byte>)
    requires Shape(sb, fs) && i < sb.ninodes && lo <= hi <= MAXBYTES
    ensures |s| == hi - lo && forall k :: 0 <= k < hi - lo ==> s[k] == ByteOf(sb, fs, i, lo + k)
  {
    if lo == hi then [] else Bytes(sb, fs, i, lo, hi - 1) + [ByteOf(sb, fs, i, hi - 1)]
  }

  function Content(sb: Super, fs: FS, i: nat): (s: seq<Byte>)
    requires Shape(sb, fs) && i < sb.ninodes && fs.inodes[i].size <= MAXBYTES
  {
    Bytes(sb, fs, i, 0, fs.inodes[i].size)
  }

  // ---------------------------------------------------------------- writei

  /** `memmove` into a block. */
  function Splice(b: Block, at: nat, data: seq<Byte>): Block
    requires at + |data| <= BSIZE
  {
    b[..at] + data + b[at + |data|..]
  }

  datatype Outcome = Done(fs: FS) | Panic

  /** One turn of the loop in `writei`: data goes to file position pos, within one block. */
  function WriteStep(sb: Super, fs: FS, i: nat, pos: nat, data: seq<Byte>): (r: Outcome)
    requires Shape(sb, fs) && i < sb.ninodes && pos < MAXBYTES && pos % BSIZE + |data| <= BSIZE
    ensures r.Done? ==> Shape(sb, r.fs)
  {
    WriteAt(sb, Bmap(sb, fs, i, pos / BSIZE), i, pos, data)
  }

  function WriteAt(sb: Super, fs: FS, i: nat, pos: nat, data: seq<Byte>): (r: Outcome)
    requires Shape(sb, fs) && i < sb.ninodes && pos < MAXBYTES && pos % BSIZE + |data| <= BSIZE
    ensures r.Done? ==> Shape(sb, r.fs)
  {
    if !Mapped(sb, fs, i, pos) then Panic
    else Done(LogWrite(fs, BlockOf(sb, fs, i, pos), Splice(fs.blocks[BlockOf(sb, fs, i, pos)], pos % BSIZE, data)))
  }

  /** Bytes the next turn transfers. */
  function Turn(off: nat, tot: nat, n: nat): (m: nat)
    requires tot < n
    ensures 0 < m && tot + m <= n && (off + tot) % BSIZE + m <= BSIZE
  {
    Min(n - tot, BSIZE - (off + tot) % BSIZE)
  }

  /** The loop of `writei` from the point where tot bytes have been written. */
  function WriteLoop(sb: Super, fs: FS, i: nat, off: nat, src: seq<Byte>, tot: nat): (r: Outcome)
    requires Shape(sb, fs) && i < sb.ninodes && off + |src| <= MAXBYTES && tot <= |src|
    ensures r.Done? ==> Shape(sb, r.fs)
    decreases |src| - tot
  {
    if tot == |src| then Done(fs)
    else
      var m := Turn(off, tot, |src|);
      match WriteStep(sb, fs, i, off + tot, src[tot..tot + m])
      case Panic => Panic
      case Done(e) => WriteLoop(sb, e, i, off, src, tot + m)
  }

  // ---------------------------------------------------------------- one turn

  /** Overwriting a data block changes no pointer and no bit. */
  lemma StoreOwned(sb: Super, fs: FS, o: Owner, i: nat, k: nat, v: Block)
    requires Owned(sb, fs, o) && IsSlot(sb, i, k) && k != IND && Slot(sb, fs, i, k) != 0
    ensures Slot(sb, fs, i, k) < sb.size
    ensures var e := LogWrite(fs, Slot(sb, fs, i, k), v);
            && Owned(sb, e, o)
            && forall j, l :: IsSlot(sb, j, l) ==> Slot(sb, e, j, l) == Slot(sb, fs, j, l)
  {
    var a := Slot(sb, fs, i, k);
    assert o[a] == (i, k);
    SlotsKept(sb, fs, a, v);
    BitsKept(sb, fs, a, v);
    StillOwned(sb, fs, o, LogWrite(fs, a, v));
  }

  lemma StillOwned(sb: Super, fs: FS, o: Owner, e: FS)
    requires Owned(sb, fs, o) && Shape(sb, e)
    requires forall j, l :: IsSlot(sb, j, l) ==> Slot(sb, e, j, l) == Slot(sb, fs, j, l)
    requires forall x :: 0 <= x < sb.size ==> InUse(sb, e, x) == InUse(sb, fs, x)
    ensures Owned(sb, e, o)
  {
    hide Slot, InUse;
    assert SlotsOwn(sb, e, o);
    assert OwnersPoint(sb, e, o);
  }

  /** Extending a state keeps every byte that was mapped. */
  lemma ExtendsBytes(sb: Super, fs: FS, o: Owner, e: FS, p: Owner, i: nat)
    requires Extends(sb, fs, o, e, p, i)
    ensures forall j, q :: 0 <= j < sb.ninodes && 0 <= q < MAXBYTES && Mapped(sb, fs, j, q) ==>
              Mapped(sb, e, j, q) && ByteOf(sb, e, j, q) == ByteOf(sb, fs, j, q)
  {
    hide Slot, InUse;
    forall j, q | 0 <= j < sb.ninodes && 0 <= q < MAXBYTES && Mapped(sb, fs, j, q)
      ensures Mapped(sb, e, j, q) && ByteOf(sb, e, j, q) == ByteOf(sb, fs, j, q)
    {
      ExtendsSlot(sb, fs, o, e, p, i, j, DataSlot(q / BSIZE));
      assert o[BlockOf(sb, fs, j, q)] == (j, DataSlot(q / BSIZE));
    }
  }

  /** Storing into the block at pos changes exactly the bytes [pos, pos + |data|) of file i. */
  lemma WriteAtBytes(sb: Super, fs: FS, o: Owner, i: nat, pos: nat, data: seq<Byte>)
    requires Owned(sb, fs, o) && i < sb.ninodes && pos < MAXBYTES && pos % BSIZE + |data| <= BSIZE
    requires WriteAt(sb, fs, i, pos, data).Done?
    ensures var e := WriteAt(sb, fs, i, pos, data).fs;
            && Owned(sb, e, o) && e.inodes == fs.inodes &&
                 (forall b :: 0 <= b < sb.bmapstart ==> e.blocks[b] == fs.blocks[b])
            && (forall j, q :: 0 <= j < sb.ninodes && 0 <= q < MAXBYTES ==>
                  && Mapped(sb, e, j, q) == Mapped(sb, fs, j, q)
                  && ByteOf(sb, e, j, q) == if j == i && pos <= q < pos + |data| then data[q - pos]
                       else ByteOf(sb, fs, j, q))
  {
    hide InUse, Slot;
    var k := DataSlot(pos / BSIZE);
    var a := BlockOf(sb, fs, i, pos);
    StoreOwned(sb, fs, o, i, k, Splice(fs.blocks[a], pos % BSIZE, data));
    assert o[a] == (i, k);
    var e := WriteAt(sb, fs, i, pos, data).fs;
    forall j, q | 0 <= j < sb.ninodes && 0 <= q < MAXBYTES
      ensures Mapped(sb, e, j, q) == Mapped(sb, fs, j, q)
      ensures ByteOf(sb, e, j, q) == if j == i && pos <= q < pos + |data| then data[q - pos] else ByteOf(sb, fs, j, q)
    {
      assert Mapped(sb, fs, j, q) ==> o[BlockOf(sb, fs, j, q)] == (j, DataSlot(q / BSIZE));
      assert BlockOf(sb, e, j, q) == BlockOf(sb, fs, j, q);
    }
  }

  // ---------------------------------------------------------------- the whole loop

  /** From fs to e, data was written at pos of file i; nothing else anyone can read changed. */
  ghost predicate Written(sb: Super, fs: FS, e: FS, i: nat, pos: nat, data: seq<Byte>) {
    && Shape(sb, fs) && Shape(sb, e) && i < sb.ninodes && pos + |data| <= MAXBYTES
    && (forall j, q :: 0 <= j < sb.ninodes && 0 <= q < MAXBYTES && Mapped(sb, fs, j, q) ==>
          && Mapped(sb, e, j, q)
          && (j != i || q < pos || pos + |data| <= q ==> ByteOf(sb, e, j, q) == ByteOf(sb, fs, j, q)))
    && (forall q :: pos <= q < pos + |data| ==> Mapped(sb, e, i, q) && ByteOf(sb, e, i, q) == data[q - pos])
  }

  /** Only block pointers of inode i changed in memory, and no inode block on disk. */
  ghost predicate MetaKept(sb: Super, fs: FS, e: FS, i: nat) {
    && Shape(sb, fs) && Shape(sb, e) && i < sb.ninodes
    && (forall j :: 0 <= j < sb.ninodes && j != i ==> e.inodes[j] == fs.inodes[j])
    && e.inodes[i] == fs.inodes[i].(addrs := e.inodes[i].addrs)
    && (forall b :: 0 <= b < sb.bmapstart ==> e.blocks[b] == fs.blocks[b])
  }

  predicate AllMapped(sb: Super, fs: FS, i: nat, lo: nat, hi: nat)
    requires Shape(sb, fs) && i < sb.ninodes && hi <= MAXBYTES
  {
    forall q :: lo <= q < hi ==> Mapped(sb, fs, i, q)
  }

  lemma WriteStepEffect(sb: Super, fs: FS, o: Owner, i: nat, pos: nat, data: seq<Byte>) returns (p: Owner)
    requires Owned(sb, fs, o) && i < sb.ninodes && pos + |data| <= MAXBYTES && pos % BSIZE + |data| <= BSIZE
    requires data != []
    requires WriteStep(sb, fs, i, pos, data).Done?
    ensures var e := WriteStep(sb, fs, i, pos, data).fs;
            Owned(sb, e, p) && Written(sb, fs, e, i, pos, data) && MetaKept(sb, fs, e, i) &&
            (Mapped(sb, fs, i, pos) ==> e.inodes == fs.inodes)
  {
    hide Bmap, WriteAt, ByteOf, Slot, SlotsOwn, OwnersPoint, BitsMatch;
    p := BmapExtends(sb, fs, o, i, pos / BSIZE);
    var d := Bmap(sb, fs, i, pos / BSIZE);
    ExtendsBytes(sb, fs, o, d, p, i);
    WriteAtBytes(sb, d, p, i, pos, data);
    WriteAtMapped(sb, d, i, pos, data);
  }

  lemma WriteAtMapped(sb: Super, fs: FS, i: nat, pos: nat, data: seq<Byte>)
    requires Shape(sb, fs) && i < sb.ninodes && pos < MAXBYTES && pos % BSIZE + |data| <= BSIZE
    requires WriteAt(sb, fs, i, pos, data).Done?
    ensures forall q :: pos <= q < pos + |data| ==> Mapped(sb, fs, i, q)
  {
    assert forall q :: pos <= q < pos + |data| ==> BlockOf(sb, fs, i, q) == BlockOf(sb, fs, i, pos);
  }

  lemma WrittenTrans(sb: Super, a: FS, b: FS, c: FS, i: nat, pos: nat, x: seq<Byte>, y: seq<Byte>)
    requires Written(sb, a, b, i, pos, x) && Written(sb, b, c, i, pos + |x|, y)
    ensures Written(sb, a, c, i, pos, x + y)
  {
    hide ByteOf, Mapped;
  }

  lemma {:induction false} WriteLoopEffect(sb: Super, fs: FS, o: Owner, i: nat, off: nat, src: seq<Byte>, tot: nat)
    returns (p: Owner)
    requires Owned(sb, fs, o) && i < sb.ninodes && off + |src| <= MAXBYTES && tot <= |src|
    requires WriteLoop(sb, fs, i, off, src, tot).Done?
    ensures var e := WriteLoop(sb, fs, i, off, src, tot).fs;
            Owned(sb, e, p) && Written(sb, fs, e, i, off + tot, src[tot..]) && MetaKept(sb, fs, e, i) &&
            (AllMapped(sb, fs, i, off + tot, off + |src|) ==> e.inodes == fs.inodes)
    decreases |src| - tot
  {
    hide WriteStep, ByteOf, Mapped, Owned;
    p := o;
    if tot < |src| {
      var m := Turn(off, tot, |src|);
      var x := src[tot..tot + m];
      var q := WriteStepEffect(sb, fs, o, i, off + tot, x);
      var e := WriteStep(sb, fs, i, off + tot, x).fs;
      p := WriteLoopEffect(sb, e, q, i, off, src, tot + m);
      WrittenTrans(sb, fs, e, WriteLoop(sb, fs, i, off, src, tot).fs, i, off + tot, x, src[tot + m..]);
      assert x + src[tot + m..] == src[tot..];
    }
  }

  /** Writing over blocks that exist never panics. */
  lemma {:induction false} WriteLoopMapped(sb: Super, fs: FS, o: Owner, i: nat, off: nat, src: seq<Byte>, tot: nat)
    requires Owned(sb, fs, o) && i < sb.ninodes && off + |src| <= MAXBYTES && tot <= |src|
    requires AllMapped(sb, fs, i, off + tot, off + |src|)
    ensures WriteLoop(sb, fs, i, off, src, tot).Done?
    decreases |src| - tot
  {
    hide Bmap, ByteOf, Slot, SlotsOwn, OwnersPoint, BitsMatch, MetaKept;
    if tot < |src| {
      var m := Turn(off, tot, |src|);
      var x := src[tot..tot + m];
      assert Mapped(sb, fs, i, off + tot);
      var q := BmapExtends(sb, fs, o, i, (off + tot) / BSIZE);
      var p := WriteStepEffect(sb, fs, o, i, off + tot, x);
      WriteLoopMapped(sb, WriteStep(sb, fs, i, off + tot, x).fs, p, i, off, src, tot + m);
    }
  }
}
