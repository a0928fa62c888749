/** The file layer as the kernel runs it: buffers and inodes updated in place.

One object stands for the disk as seen through the cache, the in-memory inodes
and the blocks handed to `log_write`.  Each method is proved against its function
in `FileModel`, `FileContent`, `FileWrite` or `FileTrunc`; the theorems about
contents and ownership are stated there.
*/
module FileSystem {
  import opened Collections
  import opened Blocks
  import opened Bitmap
  import opened Dinodes
  import opened FileModel
  import opened FileContent
  import opened FileWrite
  import opened FileTrunc
  import opened FileBudget
  import Log

  lemma InSameMapBlock(sb: Super, base: nat, bi: nat)
    requires SuperOk(sb) && base % BPB == 0 && bi < BPB && base + bi < sb.size
    ensures (base + bi) % BPB == bi && BBlock(sb, base + bi) == BBlock(sb, base)
  {
  }

  lemma NoEntryWithoutIndirect(sb: Super, fs: FS, i: nat, k: nat)
    requires Shape(sb, fs) && IsSlot(sb, i, k) && k > IND && Slot(sb, fs, i, IND) == 0
    ensures Slot(sb, fs, i, k) == 0
  {
  }

  lemma TruncUnfold(sb: Super, fs: FS, i: nat, n: nat)
    requires Shape(sb, fs) && i < sb.ninodes && n < VISITS && Visit(sb, fs, i, n).Done?
    ensures TruncLoop(sb, fs, i, n) == TruncLoop(sb, Visit(sb, fs, i, n).fs, i, n + 1)
  {
    hide Visit;
  }

  datatype Option<T> = None | Some(value: T)

  lemma AddressInRange(sb: Super, fs: FS, o: Owner, i: nat, k: nat)
    requires Owned(sb, fs, o) && IsSlot(sb, i, k)
    ensures Slot(sb, fs, i, k) < sb.size
  {
    hide InUse, Slot;
  }

  /** From fs to e, exactly data was written at position pos of file i. */
  ghost predicate WroteOnly(sb: Super, fs: FS, e: FS, i: nat, pos: nat, data: seq<Byte>) {
    && Shape(sb, fs) && Shape(sb, e) && i < sb.ninodes
    && pos <= fs.inodes[i].size <= MAXBYTES && e.inodes[i].size <= MAXBYTES
    && Content(sb, e, i) == Overlay(Content(sb, fs, i), pos, data)
    && forall j :: 0 <= j < sb.ninodes && j != i ==>
         e.inodes[j] == fs.inodes[j] && fs.inodes[j].size <= MAXBYTES && Content(sb, e, j) == Content(sb, fs, j)
  }

  lemma WroteNothing(sb: Super, fs: FS, o: Owner, i: nat, pos: nat)
    requires FilesOk(sb, fs, o) && i < sb.ninodes && pos <= fs.inodes[i].size
    ensures pos <= MAXBYTES && WroteOnly(sb, fs, fs, i, pos, [])
  {
    hide Owned, WriteThrough, Content, Mapped;
    OwnedShape(sb, fs, o);
    forall j | 0 <= j < sb.ninodes
      ensures fs.inodes[j].size <= MAXBYTES
    {
      assert NoHoles(sb, fs, j);
    }
    ContentLength(sb, fs, i);
    assert Content(sb, fs, i) == Overlay(Content(sb, fs, i), pos, []);
  }

  /** Writing on where the last write stopped is one longer write. */
  lemma OverlayTwice(was: seq<Byte>, pos: nat, x: seq<Byte>, y: seq<Byte>)
    requires pos <= |was|
    ensures pos + |x| <= |Overlay(was, pos, x)|
    ensures Overlay(Overlay(was, pos, x), pos + |x|, y) == Overlay(was, pos, x + y)
  {
  }

  /** What the next chunk of `filewrite` does to the whole. */
  lemma ChunkOutcome(sb: Super, was: FS, fs: FS, o: Owner, i: nat, pos: nat, src: seq<Byte>, at: nat, n1: nat,
                     off: Word)
    requires at + n1 <= |src| && 0 < n1 <= CHUNK && off == pos + at
    requires WroteOnly(sb, was, fs, i, pos, src[..at]) && FilesOk(sb, fs, o)
    ensures Shape(sb, fs) && i < sb.ninodes
    ensures var r := Writei(sb, fs, i, off, src[at..at + n1]);
            && (r.Refused? <==> off + n1 > MAXBYTES)
            && (r.Wrote? ==> WroteOnly(sb, was, r.fs, i, pos, src[..at + n1]))
  {
    hide Writei, Content, Owned, WriteThrough, NoHoles;
    var x := src[at..at + n1];
    ContentLength(sb, was, i);
    ContentLength(sb, fs, i);
    OverlayTwice(Content(sb, was, i), pos, src[..at], x);
    WriteiRefuses(sb, fs, i, off, x);
    assert src[..at] + x == src[..at + n1];
    if Writei(sb, fs, i, off, x).Wrote? {
      WriteiContent(sb, fs, o, i, off, x);
    }
  }

  /** The states between the chunks of a `filewrite` of src at off: up to the end of src, or to the
      first chunk that `writei` refuses or finds no block for. */
  function WriteChunks(sb: Super, fs: FS, i: nat, off: Word, src: seq<Byte>): (states: seq<FS>)
    requires Shape(sb, fs) && i < sb.ninodes
    ensures states != [] && states[0] == fs
    decreases |src|
  {
    if src == [] then [fs]
    else
      var n := Min(|src|, CHUNK);
      match Writei(sb, fs, i, off, src[..n])
      case Wrote(e) =>
        WriteiRefuses(sb, fs, i, off, src[..n]);
        [fs] + WriteChunks(sb, e, i, off + n, src[n..])
      case _ => [fs]
  }

  function Last(states: seq<FS>): FS
    requires states != []
  {
    states[|states| - 1]
  }

  lemma NoMoreChunks(sb: Super, fs: FS, i: nat, off: Word, src: seq<Byte>)
    requires Shape(sb, fs) && i < sb.ninodes && src == []
    ensures Last(WriteChunks(sb, fs, i, off, src)) == fs
  {
  }

  /** The next chunk leads on, or it is where the states end. */
  lemma ChunkIsNext(sb: Super, fs: FS, i: nat, off: Word, src: seq<Byte>, at: nat, n: nat)
    requires Shape(sb, fs) && i < sb.ninodes && at < |src| && n == Min(|src| - at, CHUNK)
    ensures match Writei(sb, fs, i, off, src[at..at + n])
            case Wrote(e) =>
              && Shape(sb, e) && off + n < 0x1_0000_0000
              && Last(WriteChunks(sb, fs, i, off, src[at..])) == Last(WriteChunks(sb, e, i, off + n, src[at + n..]))
            case _ => Last(WriteChunks(sb, fs, i, off, src[at..])) == fs
  {
    hide WriteLoop, Finish;
    assert src[at..][..n] == src[at..at + n] && src[at..][n..] == src[at + n..];
    WriteiRefuses(sb, fs, i, off, src[at..at + n]);
    if Writei(sb, fs, i, off, src[at..at + n]).Wrote? {
      LastOfRest(sb, fs, i, off, src[at..], Writei(sb, fs, i, off, src[at..at + n]).fs);
    }
  }

  lemma LastOfRest(sb: Super, fs: FS, i: nat, off: Word, src: seq<Byte>, e: FS)
    requires Shape(sb, fs) && i < sb.ninodes && src != [] && Shape(sb, e) && off + Min(|src|, CHUNK) < 0x1_0000_0000
    requires Writei(sb, fs, i, off, src[..Min(|src|, CHUNK)]) == Wrote(e)
    ensures var n := Min(|src|, CHUNK);
            Last(WriteChunks(sb, fs, i, off, src)) == Last(WriteChunks(sb, e, i, off + n, src[n..]))
  {
    hide Writei;
  }

  lemma ContentLength(sb: Super, fs: FS, i: nat)
    requires Shape(sb, fs) && i < sb.ninodes && fs.inodes[i].size <= MAXBYTES
    ensures |Content(sb, fs, i)| == fs.inodes[i].size
  {
  }

  lemma FilesOwned(sb: Super, fs: FS, o: Owner)
    requires FilesOk(sb, fs, o)
    ensures Owned(sb, fs, o)
  {
  }

  lemma LoopEnd(sb: Super, fs: FS, i: nat)
    requires Shape(sb, fs) && i < sb.ninodes
    ensures TruncLoop(sb, fs, i, VISITS) == Done(fs)
  {
  }

  /** While entries are freed, the indirect block keeps its place and its content. */
  lemma IndirectStays(sb: Super, fs: FS, o: Owner, i: nat, e: FS, n: nat)
    requires Owned(sb, fs, o) && i < sb.ninodes && n < MAXFILE && Truncating(sb, fs, o, i, e, n)
    requires e.inodes[i].addrs[IND] != 0
    ensures var ind := e.inodes[i].addrs[IND];
            && ind < sb.size && e.blocks[ind] == fs.blocks[ind]
            && forall j :: 0 <= j < NINDIRECT ==> Slot(sb, e, i, IND + 1 + j) == GetWord(e.blocks[ind], j)
  {
    hide InUse, GetWord;
    IndirectBehindMap(sb, fs, o, i, e, n);
    assert Slot(sb, e, i, IND) == e.inodes[i].addrs[IND];
  }

  /** Without an indirect block there is nothing left to free. */
  lemma {:induction false} SkipEntries(sb: Super, fs: FS, i: nat, n: nat)
    requires Shape(sb, fs) && i < sb.ninodes && NDIRECT <= n <= VISITS && fs.inodes[i].addrs[IND] == 0
    ensures TruncLoop(sb, fs, i, n) == TruncLoop(sb, fs, i, VISITS)
    decreases VISITS - n
  {
    if n < VISITS {
      assert Visit(sb, fs, i, n) == Done(fs);
      TruncUnfold(sb, fs, i, n);
      SkipEntries(sb, fs, i, n + 1);
    }
  }

  class Files {
    const sb: Super
    var blocks: seq<Block>
    var inodes: seq<Dinode>
    ghost var log: seq<Word>
    ghost var ops: seq<set<Word>>  // distinct blocks logged by each finished operation of `filewrite`

    ghost function State(): FS
      reads this
    {
      FS(blocks, inodes, log)
    }

    ghost predicate Valid()
      reads this
    {
      Shape(sb, State())
    }

    constructor (s: Super, image: seq<Block>, table: seq<Dinode>)
      requires Shape(s, FS(image, table, []))
      ensures Valid() && sb == s && State() == FS(image, table, [])
    {
      sb, blocks, inodes, log, ops := s, image, table, [], [];
    }

    /** `log_write` of a buffer with new content. */
    method LogBlock(b: Word, v: Block)
      requires Valid() && b < sb.size
      modifies this`blocks, this`log
      ensures Valid() && State() == old(LogWrite(State(), b, v))
    {
      blocks := blocks[b := v];
      log := log + [b];
    }

    /** The inner loop of `balloc` over one free-map block. */
    method ScanMap(base: nat) returns (bi: nat)
      requires Valid() && base % BPB == 0 && base < sb.size
      ensures bi <= BPB && base + bi <= sb.size
      ensures FreeFrom(sb, State(), base) == FreeFrom(sb, State(), base + bi)
      ensures bi < BPB && base + bi < sb.size ==> !InUse(sb, State(), base + bi)
    {
      hide TestBit;
      var bp := blocks[BBlock(sb, base)];
      bi := 0;
      while bi < BPB && base + bi < sb.size
        invariant 0 <= bi <= BPB && base + bi <= sb.size
        invariant FreeFrom(sb, State(), base) == FreeFrom(sb, State(), base + bi)
      {
        InSameMapBlock(sb, base, bi);
        if !GetBit(bp, bi) {
          return;
        }
        bi := bi + 1;
      }
    }

    /** `balloc`: first free block in disk order, marked and zeroed; false stands for the panic. */
    method AllocBlock() returns (ok: bool, b: Word)
      requires Valid()
      modifies this`blocks, this`log
      ensures Valid() && ok == old(FreeFrom(sb, State(), 0) < sb.size)
      ensures ok ==> b < sb.size && b == old(FreeFrom(sb, State(), 0)) && State() == old(Balloc(sb, State(), b))
      ensures !ok ==> State() == old(State())
    {
      hide GetBit, InUse, PutBit;
      var base := 0;
      while base < sb.size
        invariant base % BPB == 0 && Valid() && State() == old(State())
        invariant FreeFrom(sb, State(), 0) == FreeFrom(sb, State(), if base < sb.size then base else sb.size)
      {
        var bi := ScanMap(base);
        if bi < BPB && base + bi < sb.size {
          InSameMapBlock(sb, base, bi);
          LogBlock(BBlock(sb, base), PutBit(blocks[BBlock(sb, base)], bi, true));
          LogBlock(base + bi, ZeroBlock());
          return true, base + bi;
        }
        base := base + BPB;
      }
      return false, 0;
    }

    /** `bfree`; false stands for the panic on a free block. */
    method FreeBlock(b: Word) returns (ok: bool)
      requires Valid() && b < sb.size
      modifies this`blocks, this`log
      ensures Valid() && ok == old(InUse(sb, State(), b))
      ensures State() == if ok then old(PutInUse(sb, State(), b, false)) else old(State())
    {
      var m := BBlock(sb, b);
      ok := GetBit(blocks[m], b % BPB);
      if ok {
        LogBlock(m, PutBit(blocks[m], b % BPB, false));
      }
    }

    /** Fill an empty pointer held in the inode; 0 stands for the panic of `balloc`. */
    method EnsurePointer(i: nat, k: nat) returns (addr: Word)
      requires Valid() && i < sb.ninodes && k <= IND
      modifies this`blocks, this`inodes, this`log
      ensures Valid() && State() == old(EnsureSlot(sb, State(), i, k)) && addr == Slot(sb, State(), i, k)
    {
      hide FreeFrom, Balloc;
      addr := inodes[i].addrs[k];
      if addr == 0 {
        var ok, b := AllocBlock();
        if ok {
          inodes := inodes[i := inodes[i].(addrs := inodes[i].addrs[k := b])];
          addr := b;
        }
      }
    }

    /** Fill an empty entry of the indirect block `ind`. */
    method EnsureEntry(i: nat, k: nat, ind: Word, ghost o: Owner) returns (addr: Word)
      requires Owned(sb, State(), o) && IsSlot(sb, i, k) && k > IND && ind == Slot(sb, State(), i, IND) != 0
      modifies this`blocks, this`log
      ensures Valid() && State() == old(EnsureSlot(sb, State(), i, k)) && addr == Slot(sb, State(), i, k)
    {
      hide FreeFrom, SlotsOwn, OwnersPoint, BitsMatch, InUse;
      ghost var p := EnsureExtends(sb, State(), o, i, k);
      IndirectInRange(sb, State(), o, i);
      addr := GetWord(blocks[ind], k - IND - 1);
      if addr == 0 {
        var ok, b := AllocBlock();
        if ok {
          LogBlock(ind, PutWord(blocks[ind], k - IND - 1, b));
          addr := b;
        }
      }
    }

    /** `bmap`: the address of block bn of file i, allocating what is missing. */
    method MapBlock(i: nat, bn: nat, ghost o: Owner) returns (addr: Word)
      requires Owned(sb, State(), o) && i < sb.ninodes && bn < MAXFILE
      modifies this`blocks, this`inodes, this`log
      ensures Valid() && State() == old(Bmap(sb, State(), i, bn)) && addr == Slot(sb, State(), i, DataSlot(bn))
    {
      hide EnsureSlot, SlotsOwn, OwnersPoint, BitsMatch, Slot;
      if bn < NDIRECT {
        addr := EnsurePointer(i, bn);
      } else {
        ghost var p := EnsureExtends(sb, State(), o, i, IND);
        var ind := EnsurePointer(i, IND);
        if ind == 0 {
          NoEntryWithoutIndirect(sb, State(), i, bn + 1);
          return 0;
        }
        addr := EnsureEntry(i, bn + 1, ind, p);
      }
    }

    /** `iupdate`. */
    method UpdateInode(i: nat)
      requires Valid() && i < sb.ninodes
      modifies this`blocks, this`log
      ensures Valid() && State() == old(Iupdate(sb, State(), i))
    {
      var b := IBlock(sb, i);
      LogBlock(b, WriteDinode(blocks[b], i % IPB, inodes[i]));
    }

    /** The part of `itrunc` that frees the direct blocks. */
    method TruncDirect(i: nat, ghost o: Owner)
      requires Owned(sb, State(), o) && i < sb.ninodes
      modifies this`blocks, this`inodes, this`log
      ensures Truncating(sb, old(State()), o, i, State(), NDIRECT)
      ensures TruncLoop(sb, State(), i, NDIRECT) == old(TruncLoop(sb, State(), i, 0))
    {
      hide Owned, BitsGone, SlotsGone, TruncLoop, Visit;
      ghost var was := State();
      TruncStart(sb, was, o, i);
      for k := 0 to NDIRECT
        invariant Truncating(sb, was, o, i, State(), k)
        invariant TruncLoop(sb, State(), i, k) == TruncLoop(sb, was, i, 0)
      {
        VisitKeeps(sb, was, o, i, State(), k);
        TruncUnfold(sb, State(), i, k);
        assert VisitOf(k) == k;
        FreePointer(i, k);
      }
    }

    /** `if (ip->addrs[k]) { bfree(...); ip->addrs[k] = 0; }`. */
    method FreePointer(i: nat, k: nat)
      requires Valid() && i < sb.ninodes && k <= IND && Visit(sb, State(), i, VisitOf(k)).Done?
      modifies this`blocks, this`inodes, this`log
      ensures Valid() && State() == old(Visit(sb, State(), i, VisitOf(k)).fs)
    {
      hide InUse, PutInUse;
      var b := inodes[i].addrs[k];
      if b != 0 {
        var ok := FreeBlock(b);
        assert ok;
        inodes := inodes[i := inodes[i].(addrs := inodes[i].addrs[k := 0])];
      }
    }

    /** The loop over the entries of the indirect block, whose content is read once. */
    method TruncEntries(i: nat, ghost o: Owner, ghost was: FS)
      requires Owned(sb, was, o) && i < sb.ninodes && Truncating(sb, was, o, i, State(), NDIRECT)
      requires inodes[i].addrs[IND] != 0
      modifies this`blocks, this`log
      ensures inodes[i].addrs[IND] != 0
      ensures Truncating(sb, was, o, i, State(), MAXFILE)
      ensures TruncLoop(sb, State(), i, MAXFILE) == old(TruncLoop(sb, State(), i, NDIRECT))
    {
      hide Owned, BitsGone, SlotsGone, TruncLoop, Visit, GetWord;
      ghost var fs := State();
      var ind := inodes[i].addrs[IND];
      IndirectStays(sb, was, o, i, State(), NDIRECT);
      var a := blocks[ind];
      for j := 0 to NINDIRECT
        invariant inodes == old(inodes) && Truncating(sb, was, o, i, State(), NDIRECT + j)
        invariant TruncLoop(sb, State(), i, NDIRECT + j) == TruncLoop(sb, fs, i, NDIRECT)
      {
        VisitKeeps(sb, was, o, i, State(), NDIRECT + j);
        TruncUnfold(sb, State(), i, NDIRECT + j);
        IndirectStays(sb, was, o, i, State(), NDIRECT + j);
        FreeEntry(i, j, GetWord(a, j));
      }
    }

    /** `if (a[j]) bfree(a[j])`. */
    method FreeEntry(i: nat, j: nat, b: Word)
      requires Valid() && i < sb.ninodes && j < NINDIRECT && Visit(sb, State(), i, NDIRECT + j).Done?
      requires b == Slot(sb, State(), i, IND + 1 + j)
      modifies this`blocks, this`log
      ensures Valid() && State() == old(Visit(sb, State(), i, NDIRECT + j).fs)
    {
      hide InUse, PutInUse, Slot;
      if b != 0 {
        var ok := FreeBlock(b);
        assert ok;
      }
    }

    /** `itrunc`: never reaches "freeing free block". */
    method TruncInode(i: nat, ghost o: Owner)
      requires FilesOk(sb, State(), o) && i < sb.ninodes
      modifies this`blocks, this`inodes, this`log
      ensures old(Itrunc(sb, State(), i)).Done? && State() == old(Itrunc(sb, State(), i)).fs
      ensures FilesOk(sb, State(), Rest(o, i))
    {
      hide Owned, BitsGone, SlotsGone, TruncLoop, Visit, FilesOk, Iupdate;
      ghost var was := State();
      ItruncFrees(sb, was, o, i);
      FilesOwned(sb, was, o);
      TruncDirect(i, o);
      if inodes[i].addrs[IND] != 0 {
        TruncEntries(i, o, was);
        VisitKeeps(sb, was, o, i, State(), MAXFILE);
        TruncUnfold(sb, State(), i, MAXFILE);
        FreePointer(i, IND);
      } else {
        SkipEntries(sb, State(), i, NDIRECT);
      }
      LoopEnd(sb, State(), i);
      inodes := inodes[i := inodes[i].(size := 0)];
      UpdateInode(i);
    }

    /** `readi` on a file; None stands for the return value -1. */
    method ReadInode(i: nat, off: Word, n: Word, ghost o: Owner) returns (r: Option<seq<Byte>>)
      requires FilesOk(sb, State(), o) && i < sb.ninodes
      modifies this`blocks, this`inodes, this`log
      ensures State() == old(State())
      ensures r.None? <==> off > inodes[i].size || off + n >= 0x1_0000_0000
      ensures r.Some? ==> inodes[i].size <= MAXBYTES && off <= Min(off + n, inodes[i].size)
      ensures r.Some? ==> r.value == Content(sb, State(), i)[off..Min(off + n, inodes[i].size)]
    {
      hide Owned, WriteThrough, Bytes, Mapped;
      FilesOwned(sb, State(), o);
      OwnedShape(sb, State(), o);
      var size := inodes[i].size;
      if off > size || (off + n) % 0x1_0000_0000 < off {
        return None;
      }
      assert NoHoles(sb, State(), i);
      var k := if (off + n) % 0x1_0000_0000 > size then size - off else n;
      var data := ReadBytes(i, off, k, o);
      ContentSlice(sb, State(), i, off, off + k);
      r := Some(data);
    }

    /** The loop of `readi`. */
    method ReadBytes(i: nat, off: nat, n: nat, ghost o: Owner) returns (data: seq<Byte>)
      requires Owned(sb, State(), o) && i < sb.ninodes && off + n <= MAXBYTES && AllMapped(sb, State(), i, off, off + n)
      modifies this`blocks, this`inodes, this`log
      ensures State() == old(State()) && data == Bytes(sb, State(), i, off, off + n)
    {
      hide Owned, Bmap, ByteOf, Slot;
      OwnedShape(sb, State(), o);
      data := [];
      var tot := 0;
      while tot < n
        invariant 0 <= tot <= n && State() == old(State()) && data == Bytes(sb, State(), i, off, off + tot)
      {
        var pos, m := off + tot, Turn(off, tot, n);
        assert Mapped(sb, State(), i, pos);
        BmapFinds(sb, State(), o, i, pos);
        var addr := MapBlock(i, pos / BSIZE, o);
        BlockBytes(sb, State(), i, pos, m);
        BytesSplit(sb, State(), i, off, pos, pos + m);
        data := data + blocks[addr][pos % BSIZE..pos % BSIZE + m];
        tot := tot + m;
      }
    }

    /** One turn of the loop in `writei`; false stands for the panic of `balloc`. */
    method WriteTurn(i: nat, pos: nat, data: seq<Byte>, ghost o: Owner) returns (ok: bool)
      requires Owned(sb, State(), o) && i < sb.ninodes && pos < MAXBYTES && pos % BSIZE + |data| <= BSIZE
      modifies this`blocks, this`inodes, this`log
      ensures ok == old(WriteStep(sb, State(), i, pos, data)).Done?
      ensures ok ==> State() == old(WriteStep(sb, State(), i, pos, data)).fs
      ensures !ok ==> DiskFull(sb, State())
    {
      hide Bmap, Slot, SlotsOwn, OwnersPoint, BitsMatch, DiskFull;
      ghost var fs := State();
      ghost var p := BmapExtends(sb, fs, o, i, pos / BSIZE);
      var addr := MapBlock(i, pos / BSIZE, o);
      AddressInRange(sb, State(), p, i, DataSlot(pos / BSIZE));
      if addr == 0 {
        BmapStuck(sb, fs, o, i, pos / BSIZE);
        return false;
      }
      LogBlock(addr, Splice(blocks[addr], pos % BSIZE, data));
      ok := true;
    }

    /** The loop of `writei`. */
    method WriteBytes(i: nat, off: nat, src: seq<Byte>, ghost o: Owner) returns (ok: bool)
      requires Owned(sb, State(), o) && i < sb.ninodes && off + |src| <= MAXBYTES
      modifies this`blocks, this`inodes, this`log
      ensures ok == old(WriteLoop(sb, State(), i, off, src, 0)).Done?
      ensures ok ==> State() == old(WriteLoop(sb, State(), i, off, src, 0)).fs
      ensures !ok ==> DiskFull(sb, State())
    {
      hide Owned, WriteStep, Written, MetaKept, DiskFull;
      OwnedShape(sb, State(), o);
      ghost var fs, p := State(), o;
      var tot := 0;
      while tot < |src|
        invariant 0 <= tot <= |src| && Owned(sb, State(), p) && Valid()
        invariant WriteLoop(sb, State(), i, off, src, tot) == WriteLoop(sb, fs, i, off, src, 0)
      {
        var m := Turn(off, tot, |src|);
        var x := src[tot..tot + m];
        ghost var step, q := WriteStep(sb, State(), i, off + tot, x), p;
        if step.Done? {
          q := WriteStepEffect(sb, State(), p, i, off + tot, x);
          OwnedShape(sb, step.fs, q);
        }
        ok := WriteTurn(i, off + tot, x, p);
        if !ok {
          return;
        }
        tot, p := tot + m, q;
      }
      ok := true;
    }

    /** `writei` on a file; -1 is its error return, `halted` the panic of `balloc`. */
    method WriteInode(i: nat, off: Word, src: seq<Byte>, ghost o: Owner) returns (r: int, halted: bool)
      requires FilesOk(sb, State(), o) && i < sb.ninodes && |src| < 0x1_0000_0000
      modifies this`blocks, this`inodes, this`log
      ensures match old(Writei(sb, State(), i, off, src))
              case Refused => r == -1 && !halted && State() == old(State())
              case Halted => halted && DiskFull(sb, State())
              case Wrote(e) => r == |src| && !halted && State() == e
    {
      hide Owned, WriteLoop, Iupdate, WriteThrough, NoHoles, DiskFull;
      FilesOwned(sb, State(), o);
      OwnedShape(sb, State(), o);
      var end := (off + |src|) % 0x1_0000_0000;
      if off > inodes[i].size || end < off || end > MAXBYTES {
        return -1, false;
      }
      var ok := WriteBytes(i, off, src, o);
      if !ok {
        return 0, true;
      }
      if |src| > 0 && off + |src| > inodes[i].size {
        inodes := inodes[i := inodes[i].(size := off + |src|)];
        UpdateInode(i);
      }
      return |src|, false;
    }

    /** One `begin_op` .. `end_op` bracket of `filewrite`. */
    method WriteChunk(i: nat, off: Word, src: seq<Byte>, ghost o: Owner) returns (r: int, halted: bool, ghost p: Owner)
      requires FilesOk(sb, State(), o) && i < sb.ninodes && |src| <= CHUNK
      modifies this`blocks, this`inodes, this`log, this`ops
      ensures !halted ==> FilesOk(sb, State(), p) && |ops| == |old(ops)| + 1 && ops[..|old(ops)|] == old(ops)
      ensures !halted ==> |ops[|old(ops)|]| <= Log.MAXOPBLOCKS
      ensures match old(Writei(sb, State(), i, off, src))
              case Refused => r == -1 && !halted && State() == old(State())
              case Halted => halted && DiskFull(sb, State())
              case Wrote(e) => r == |src| && !halted && State() == e
    {
      hide Writei, FilesOk, LoggedSince, DiskFull;
      ghost var fs := State();
      p := o;
      FilesOwned(sb, fs, o);
      OwnedShape(sb, fs, o);
      r, halted := WriteInode(i, off, src, o);
      if Writei(sb, fs, i, off, src).Wrote? {
        p := WriteiKeepsFiles(sb, fs, o, i, off, src);
        ChunkFitsBudget(sb, fs, o, i, off, src);
        ops := ops + [LoggedSince(|fs.log|, log)];
      } else {
        ops := ops + [{}];
      }
    }

    /** `filewrite` on an inode: n bytes in chunks, each within one operation.  It succeeds
        exactly when the whole range fits, and on failure the chunks that fitted are written. */
    method FileWriteAll(i: nat, pos: Word, src: seq<Byte>, ghost o: Owner)
        returns (ret: int, off: Word, halted: bool, ghost done: nat, ghost p: Owner)
      requires FilesOk(sb, State(), o) && i < sb.ninodes && |src| < 0x8000_0000
      modifies this`blocks, this`inodes, this`log, this`ops
      ensures !halted ==> done <= |src| && off == pos + done && ret == (if done == |src| then |src| else -1)
      ensures !halted ==> FilesOk(sb, State(), p)
      ensures !halted && pos <= old(inodes[i].size) ==>
                WroteOnly(sb, old(State()), State(), i, pos, src[..done]) &&
                    (done == |src| <==> pos + |src| <= MAXBYTES)
      ensures !halted && pos > old(inodes[i].size) ==> done == 0 && State() == old(State())
      ensures !halted ==> old(|ops|) <= |ops| && forall k :: old(|ops|) <= k < |ops| ==> |ops[k]| <= Log.MAXOPBLOCKS
      ensures halted ==> DiskFull(sb, State())
      ensures old(Shape(sb, State())) && (!halted ==> State() == Last(WriteChunks(sb, old(State()), i, pos, src)))
    {
      hide FilesOk, Writei, WroteOnly, LoggedSince, DiskFull, WriteChunks;
      ghost var was := State();
      FilesOwned(sb, was, o);
      OwnedShape(sb, was, o);
      ghost var inside := pos <= inodes[i].size;
      if inside {
        WroteNothing(sb, was, o, i, pos);
        assert src[..0] == [];
      }
      var at := 0;
      assert src[0..] == src;
      off, halted, p := pos, false, o;
      while at < |src|
        invariant 0 <= at <= |src| && !halted && off == pos + at
        invariant FilesOk(sb, State(), p) && Shape(sb, State())
        invariant if inside then pos + at <= MAXBYTES && WroteOnly(sb, was, State(), i, pos, src[..at])
                  else at == 0 && State() == was
        invariant old(|ops|) <= |ops| && forall k :: old(|ops|) <= k < |ops| ==> |ops[k]| <= Log.MAXOPBLOCKS
        invariant Last(WriteChunks(sb, was, i, pos, src)) == Last(WriteChunks(sb, State(), i, off, src[at..]))
      {
        var n1 := if |src| - at > CHUNK then CHUNK else |src| - at;
        ghost var fs, q := State(), p;
        if inside {
          ChunkOutcome(sb, was, fs, q, i, pos, src, at, n1, off);
        } else {
          WriteiRefuses(sb, fs, i, off, src[at..at + n1]);
        }
        var r;
        r, halted, p := WriteChunk(i, off, src[at..at + n1], p);
        if halted {
          return 0, off, true, at, p;
        }
        FilesOwned(sb, State(), p);
        OwnedShape(sb, State(), p);
        ChunkIsNext(sb, fs, i, off, src, at, n1);
        if r < 0 {
          return -1, off, false, at, p;
        }
        off := off + r;
        at := at + r;
      }
      assert src[..at] == src;
      NoMoreChunks(sb, State(), i, off, src[at..]);
      return |src|, off, false, at, p;
    }
  }
}
