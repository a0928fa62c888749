/** How many distinct blocks one `filewrite` chunk puts into the log. */
module FileBudget {
  import opened Collections
  import opened Blocks
  import opened Dinodes
  import opened FileModel
  import opened FileContent
  import opened FileWrite
  import Log

  /** `((MAXOPBLOCKS - 1 - 1 - 2) / 2) * 512`, the largest chunk of `filewrite`. */
  const CHUNK := (Log.MAXOPBLOCKS - 1 - 1 - 2) / 2 * 512

  /** The blocks of the log in l behind its first n entries. */
  function LoggedSince(n: nat, l: seq<Word>): (s: set<Word>)
    requires n <= |l|
  {
    set x | x in l[n..]
  }

  lemma LoggedSplit(a: nat, b: nat, l: seq<Word>)
    requires a <= b <= |l|
    ensures LoggedSince(a, l) == LoggedSince(a, l[..b]) + LoggedSince(b, l)
  {
    assert l[a..] == l[..b][a..] + l[b..];
  }

  /** The log only ever grows. */
  predicate LogGrows(fs: FS, e: FS) {
    fs.log <= e.log
  }

  // ---------------------------------------------------------------- what each primitive logs

  lemma AllocLog(sb: Super, fs: FS, o: Owner, i: nat, k: nat, b: Word)
    requires Owned(sb, fs, o) && IsSlot(sb, i, k) && b < sb.size && (k > IND ==> Slot(sb, fs, i, IND) != 0)
    ensures AllocSlot(sb, fs, i, k, b).log ==
            fs.log + [BBlock(sb, b), b] + if k > IND then [Slot(sb, fs, i, IND)] else []
  {
    hide SlotsOwn, BitsMatch, InUse;
    if k > IND {
      var p := Slot(sb, fs, i, IND);
      assert p == fs.inodes[i].addrs[IND];
      IndirectInRange(sb, fs, o, i);
    }
  }

  lemma IndirectInRange(sb: Super, fs: FS, o: Owner, i: nat)
    requires Owned(sb, fs, o) && i < sb.ninodes && Slot(sb, fs, i, IND) != 0
    ensures Slot(sb, fs, i, IND) < sb.size
  {
    hide InUse, BitsMatch, Slot;
    assert Slot(sb, fs, i, IND) in o;
  }

  /** The free-map block of b, or nothing for an empty pointer. */
  function MapOf(sb: Super, b: Word): set<Word>
    requires SuperOk(sb)
  {
    if 0 < b < sb.size then {b, BBlock(sb, b)} else {}
  }

  /** Filling slot k logs at most its block, that block's free-map block and, for an
      entry, the indirect block. */
  lemma EnsureLog(sb: Super, fs: FS, o: Owner, i: nat, k: nat)
    requires Owned(sb, fs, o) && IsSlot(sb, i, k) && (k > IND ==> Slot(sb, fs, i, IND) != 0)
    ensures var e := EnsureSlot(sb, fs, i, k);
            && LogGrows(fs, e)
            && LoggedSince(|fs.log|, e.log) <= MapOf(sb, Slot(sb, e, i, k)) +
                 (if k > IND then {Slot(sb, fs, i, IND)} else {})
            && (Slot(sb, fs, i, k) != 0 ==> e.log == fs.log)
  {
    hide AllocSlot, Slot, InUse, SlotsOwn, OwnersPoint, BitsMatch;
    if Slot(sb, fs, i, k) == 0 && FreeFrom(sb, fs, 0) < sb.size {
      var b := FreeFrom(sb, fs, 0);
      AllocSlotExtends(sb, fs, o, i, k, b);
      AllocLog(sb, fs, o, i, k, b);
    }
  }

  lemma LogTrans(a: FS, b: FS, c: FS)
    requires LogGrows(a, b) && LogGrows(b, c)
    ensures LogGrows(a, c) && LoggedSince(|a.log|, c.log) == LoggedSince(|a.log|, b.log) + LoggedSince(|b.log|, c.log)
  {
    LoggedSplit(|a.log|, |b.log|, c.log);
    assert c.log[..|b.log|] == b.log;
  }

  lemma BmapEntryLog(sb: Super, fs: FS, o: Owner, i: nat, bn: nat)
    requires Owned(sb, fs, o) && i < sb.ninodes && NDIRECT <= bn < MAXFILE
    ensures var e := BmapEntry(sb, fs, i, bn);
            && LogGrows(fs, e)
            && LoggedSince(|fs.log|, e.log) <= MapOf(sb, Slot(sb, e, i, bn + 1)) + MapOf(sb, Slot(sb, fs, i, IND))
            && Slot(sb, e, i, IND) == Slot(sb, fs, i, IND)
  {
    hide EnsureSlot, InUse, Slot, SlotsOwn, OwnersPoint, BitsMatch;
    if Slot(sb, fs, i, IND) != 0 {
      EnsureLog(sb, fs, o, i, bn + 1);
      IndirectInRange(sb, fs, o, i);
      var p := EnsureExtends(sb, fs, o, i, bn + 1);
      ExtendsSlot(sb, fs, o, EnsureSlot(sb, fs, i, bn + 1), p, i, i, IND);
    }
  }

  /** `bmap` logs at most the block it returns, the indirect block and their free-map blocks. */
  lemma BmapLog(sb: Super, fs: FS, o: Owner, i: nat, bn: nat)
    requires Owned(sb, fs, o) && i < sb.ninodes && bn < MAXFILE
    ensures var e := Bmap(sb, fs, i, bn);
            && LogGrows(fs, e)
            && LoggedSince(|fs.log|, e.log) <= MapOf(sb, Slot(sb, e, i, DataSlot(bn))) + MapOf(sb, Slot(sb, e, i, IND))
  {
    hide EnsureSlot, InUse, Slot, SlotsOwn, OwnersPoint, BitsMatch, BmapEntry;
    if bn < NDIRECT {
      EnsureLog(sb, fs, o, i, bn);
    } else {
      EnsureLog(sb, fs, o, i, IND);
      var p := EnsureExtends(sb, fs, o, i, IND);
      var d := EnsureSlot(sb, fs, i, IND);
      BmapEntryLog(sb, d, p, i, bn);
      LogTrans(fs, d, BmapEntry(sb, d, i, bn));
    }
  }

  // ---------------------------------------------------------------- one turn of the loop

  /** An upper bound on what the turn at pos can add besides the indirect block. */
  function TurnCost(sb: Super, fs: FS, i: nat, pos: nat): nat
    requires Shape(sb, fs) && i < sb.ninodes && pos < MAXBYTES
  {
    if Mapped(sb, fs, i, pos) then 1 else 2
  }

  lemma StepLog(sb: Super, fs: FS, o: Owner, i: nat, pos: nat, data: seq<Byte>) returns (t: set<Word>)
    requires Owned(sb, fs, o) && i < sb.ninodes && pos + |data| <= MAXBYTES && pos % BSIZE + |data| <= BSIZE
    requires data != []
    requires WriteStep(sb, fs, i, pos, data).Done?
    ensures var e := WriteStep(sb, fs, i, pos, data).fs;
            && LogGrows(fs, e)
            && LoggedSince(|fs.log|, e.log) <= t + MapOf(sb, Slot(sb, e, i, IND))
            && (Slot(sb, fs, i, IND) != 0 ==> Slot(sb, e, i, IND) == Slot(sb, fs, i, IND))
    ensures |t| <= TurnCost(sb, fs, i, pos)
  {
    hide Bmap, InUse, Slot, SlotsOwn, OwnersPoint, BitsMatch, ByteOf;
    var d := Bmap(sb, fs, i, pos / BSIZE);
    var p := BmapExtends(sb, fs, o, i, pos / BSIZE);
    BmapLog(sb, fs, o, i, pos / BSIZE);
    if Slot(sb, fs, i, IND) != 0 {
      ExtendsSlot(sb, fs, o, d, p, i, i, IND);
    }
    var e := WriteStep(sb, fs, i, pos, data).fs;
    var a := BlockOf(sb, d, i, pos);
    assert e.log == d.log + [a];
    LogTrans(fs, d, e);
    StoreOwned(sb, d, p, i, DataSlot(pos / BSIZE), Splice(d.blocks[a], pos % BSIZE, data));
    assert LoggedSince(|d.log|, e.log) == {a};
    if Mapped(sb, fs, i, pos) {
      t := {a};
      assert LoggedSince(|fs.log|, d.log) == {};
    } else {
      t := MapOf(sb, a);
    }
  }

  // ---------------------------------------------------------------- the loop

  function LoopCost(sb: Super, fs: FS, i: nat, off: nat, n: nat, tot: nat): nat
    requires Shape(sb, fs) && i < sb.ninodes && off + n <= MAXBYTES && tot <= n
    decreases n - tot
  {
    if tot == n then 0
    else TurnCost(sb, fs, i, off + tot) + LoopCost(sb, fs, i, off, n, tot + Turn(off, tot, n))
  }

  lemma {:induction false} CostMono(sb: Super, fs: FS, e: FS, i: nat, off: nat, n: nat, tot: nat)
    requires Shape(sb, fs) && Shape(sb, e) && i < sb.ninodes && off + n <= MAXBYTES && tot <= n
    requires forall q :: 0 <= q < MAXBYTES && Mapped(sb, fs, i, q) ==> Mapped(sb, e, i, q)
    ensures LoopCost(sb, e, i, off, n, tot) <= LoopCost(sb, fs, i, off, n, tot)
    decreases n - tot
  {
    hide Mapped;
    if tot < n {
      CostMono(sb, fs, e, i, off, n, tot + Turn(off, tot, n));
    }
  }

  lemma {:induction false} LoopLog(sb: Super, fs: FS, o: Owner, i: nat, off: nat, src: seq<Byte>, tot: nat)
    returns (t: set<Word>)
    requires Owned(sb, fs, o) && i < sb.ninodes && off + |src| <= MAXBYTES && tot <= |src|
    requires WriteLoop(sb, fs, i, off, src, tot).Done?
    ensures var e := WriteLoop(sb, fs, i, off, src, tot).fs;
            && LogGrows(fs, e)
            && LoggedSince(|fs.log|, e.log) <= t + MapOf(sb, Slot(sb, e, i, IND))
            && (Slot(sb, fs, i, IND) != 0 ==> Slot(sb, e, i, IND) == Slot(sb, fs, i, IND))
    ensures |t| <= LoopCost(sb, fs, i, off, |src|, tot)
    decreases |src| - tot
  {
    hide WriteStep, Slot, Mapped, ByteOf, SlotsOwn, OwnersPoint, BitsMatch, MetaKept;
    if tot == |src| {
      t := {};
      assert LoggedSince(|fs.log|, fs.log) == {};
    } else {
      var m := Turn(off, tot, |src|);
      var x := src[tot..tot + m];
      var p := WriteStepEffect(sb, fs, o, i, off + tot, x);
      var u := StepLog(sb, fs, o, i, off + tot, x);
      var d := WriteStep(sb, fs, i, off + tot, x).fs;
      var v := LoopLog(sb, d, p, i, off, src, tot + m);
      CostMono(sb, fs, d, i, off, |src|, tot + m);
      LogTrans(fs, d, WriteLoop(sb, fs, i, off, src, tot).fs);
      hide LoggedSince, LogGrows, MapOf;
      t := u + v;
      UnionCard(u, v);
    }
  }

  /** From a block boundary on, every turn but the last fills a block. */
  lemma {:induction false} AlignedCost(sb: Super, fs: FS, i: nat, off: nat, n: nat, tot: nat)
    requires Shape(sb, fs) && i < sb.ninodes && off + n <= MAXBYTES && tot <= n && (off + tot) % BSIZE == 0
    ensures LoopCost(sb, fs, i, off, n, tot) <= 2 * ((n - tot + BSIZE - 1) / BSIZE)
    decreases n - tot
  {
    hide Mapped;
    if tot < n {
      var m := Turn(off, tot, n);
      if tot + m < n {
        AlignedCost(sb, fs, i, off, n, tot + m);
      }
    }
  }

  /** The block an unaligned write starts in exists already. */
  lemma UnalignedIsMapped(sb: Super, fs: FS, i: nat, off: nat)
    requires Shape(sb, fs) && i < sb.ninodes && NoHoles(sb, fs, i) && off <= fs.inodes[i].size && off % BSIZE != 0
    ensures off < MAXBYTES && Mapped(sb, fs, i, off)
  {
    hide Slot;
    assert Mapped(sb, fs, i, off - 1);
    assert BlockOf(sb, fs, i, off - 1) == BlockOf(sb, fs, i, off);
  }

  lemma ChunkCost(sb: Super, fs: FS, i: nat, off: nat, n: nat)
    requires Shape(sb, fs) && i < sb.ninodes && NoHoles(sb, fs, i) && off <= fs.inodes[i].size
    requires n <= CHUNK && off + n <= MAXBYTES
    ensures LoopCost(sb, fs, i, off, n, 0) <= 7
  {
    hide Mapped;
    if off % BSIZE == 0 {
      AlignedCost(sb, fs, i, off, n, 0);
    } else if n > 0 {
      UnalignedIsMapped(sb, fs, i, off);
      var m := Turn(off, 0, n);
      if m < n {
        AlignedCost(sb, fs, i, off, n, m);
      }
    }
  }

  /** However the blocks fall on disk, one chunk logs at most `MAXOPBLOCKS` distinct blocks. */
  lemma ChunkFitsBudget(sb: Super, fs: FS, o: Owner, i: nat, off: Word, src: seq<Byte>)
    requires FilesOk(sb, fs, o) && i < sb.ninodes && |src| <= CHUNK && Writei(sb, fs, i, off, src).Wrote?
    ensures LogGrows(fs, Writei(sb, fs, i, off, src).fs)
    ensures |LoggedSince(|fs.log|, Writei(sb, fs, i, off, src).fs.log)| <= Log.MAXOPBLOCKS
  {
    hide WriteLoop, Slot, Mapped, SlotsOwn, OwnersPoint, BitsMatch, WriteThrough, WriteDinode;
    WriteiRefuses(sb, fs, i, off, src);
    var d := WriteLoop(sb, fs, i, off, src, 0).fs;
    var t := LoopLog(sb, fs, o, i, off, src, 0);
    assert NoHoles(sb, fs, i);
    ChunkCost(sb, fs, i, off, |src|);
    var e := Writei(sb, fs, i, off, src).fs;
    FinishLog(sb, d, i, off + |src|, |src|);
    LogTrans(fs, d, e);
    var m := MapOf(sb, Slot(sb, d, i, IND));
    var all := t + m + {IBlock(sb, i)};
    assert LoggedSince(|fs.log|, e.log) <= all;
    CardBound(LoggedSince(|fs.log|, e.log), t, m, IBlock(sb, i));
  }

  lemma FinishLog(sb: Super, fs: FS, i: nat, end: Word, n: nat)
    requires Shape(sb, fs) && i < sb.ninodes
    ensures var e := Finish(sb, fs, i, end, n);
            LogGrows(fs, e) && LoggedSince(|fs.log|, e.log) <= {IBlock(sb, i)}
  {
  }

  lemma CardBound(s: set<Word>, t: set<Word>, m: set<Word>, x: Word)
    requires s <= t + m + {x} && |m| <= 2
    ensures |s| <= |t| + 3
  {
    var all := t + m + {x};
    assert all == s + (all - s);
    assert |all| <= |t| + |m| + 1;
  }
}
