/** The chunk of `filewrite` is as large as it can be: what a write logs when every block it
    needs comes from another part of the free map. */
module FileTight {
  import opened Collections
  import opened Blocks
  import opened Dinodes
  import opened FileModel
  import opened FileContent
  import opened FileWrite
  import opened FileBudget
  import Log

  /** q lists the lowest free blocks in ascending order. */
  ghost predicate LowestFree(sb: Super, fs: FS, q: seq<Word>)
    requires Shape(sb, fs)
  {
    && (forall a, b :: 0 <= a < b < |q| ==> q[a] < q[b])
    && (forall a :: 0 <= a < |q| ==> q[a] < sb.size && !InUse(sb, fs, q[a]))
    && (forall a, x :: 0 <= a < |q| && 0 <= x < q[a] && x !in q ==> InUse(sb, fs, x))
  }

  /** No two of the blocks have their bit in the same block of the free map. */
  ghost predicate Apart(q: seq<Word>) {
    forall a, b :: 0 <= a < b < |q| ==> q[a] / Bitmap.BPB != q[b] / Bitmap.BPB
  }

  /** What a step leaves behind: the free blocks still to come and the pointers of inode i. */
  ghost predicate After(sb: Super, fs: FS, o: Owner, i: nat, q: seq<Word>, slots: seq<Word>) {
    && Owned(sb, fs, o) && i < sb.ninodes && LowestFree(sb, fs, q)
    && |slots| == NSLOTS && forall k :: 0 <= k < NSLOTS ==> Slot(sb, fs, i, k) == slots[k]
  }

  lemma FirstIsNext(sb: Super, fs: FS, q: seq<Word>)
    requires Shape(sb, fs) && LowestFree(sb, fs, q) && q != []
    ensures FreeFrom(sb, fs, 0) == q[0]
  {
    hide InUse;
    assert forall x :: 0 <= x < q[0] ==> x !in q;
  }

  lemma FirstTaken(sb: Super, fs: FS, e: FS, q: seq<Word>)
    requires Shape(sb, fs) && Shape(sb, e) && LowestFree(sb, fs, q) && q != []
    requires forall x :: 0 <= x < sb.size ==> InUse(sb, e, x) == (x == q[0] || InUse(sb, fs, x))
    ensures LowestFree(sb, e, q[1..])
  {
    hide InUse;
    var r := q[1..];
    forall a, x | 0 <= a < |r| && 0 <= x < r[a] && x !in r
      ensures InUse(sb, e, x)
    {
      assert r[a] == q[a + 1];
      assert x in q ==> x == q[0];
    }
  }

  /** Filling an empty slot takes the lowest free block and logs its map block, the block and,
      for an entry, the indirect block. */
  lemma SlotFilled(sb: Super, fs: FS, o: Owner, i: nat, q: seq<Word>, slots: seq<Word>, k: nat)
    requires After(sb, fs, o, i, q, slots) && q != [] && k < NSLOTS && slots[k] == 0 && (k > IND ==> slots[IND] != 0)
    ensures var e := EnsureSlot(sb, fs, i, k);
            && q[0] < sb.size && After(sb, e, o[q[0] := (i, k)], i, q[1..], slots[k := q[0]])
            && e.log == fs.log + [BBlock(sb, q[0]), q[0]] + (if k > IND then [slots[IND]] else [])
            && e.inodes[i].size == fs.inodes[i].size
  {
    hide AllocSlot, Slot, InUse, SlotsOwn, OwnersPoint, BitsMatch;
    FirstIsNext(sb, fs, q);
    AllocSlotEffect(sb, fs, o, i, k, q[0]);
    AllocSlotExtends(sb, fs, o, i, k, q[0]);
    AllocLog(sb, fs, o, i, k, q[0]);
    FirstTaken(sb, fs, AllocSlot(sb, fs, i, k, q[0]), q);
  }

  /** Storing into a block that is there logs that block and moves nothing. */
  lemma Stored(sb: Super, fs: FS, o: Owner, i: nat, q: seq<Word>, slots: seq<Word>, pos: nat, data: seq<Byte>)
    requires After(sb, fs, o, i, q, slots) && pos < MAXBYTES && pos % BSIZE + |data| <= BSIZE
    requires slots[DataSlot(pos / BSIZE)] != 0
    ensures var r := WriteAt(sb, fs, i, pos, data);
            && r.Done? && After(sb, r.fs, o, i, q, slots) && r.fs.inodes == fs.inodes
            && r.fs.log == fs.log + [slots[DataSlot(pos / BSIZE)]]
  {
    hide Slot, InUse, BitsMatch;
    var a := BlockOf(sb, fs, i, pos);
    var v := Splice(fs.blocks[a], pos % BSIZE, data);
    StoreOwned(sb, fs, o, i, DataSlot(pos / BSIZE), v);
    BitsKept(sb, fs, a, v);
  }

  // ---------------------------------------------------------------- the turns of the loop

  lemma MappedTurn(sb: Super, fs: FS, o: Owner, i: nat, q: seq<Word>, slots: seq<Word>, pos: nat, data: seq<Byte>)
    requires After(sb, fs, o, i, q, slots) && pos < MAXBYTES && pos % BSIZE + |data| <= BSIZE
    requires slots[DataSlot(pos / BSIZE)] != 0
    ensures var r := WriteStep(sb, fs, i, pos, data);
            && r.Done? && After(sb, r.fs, o, i, q, slots) && r.fs.inodes[i].size == fs.inodes[i].size
            && r.fs.log == fs.log + [slots[DataSlot(pos / BSIZE)]]
  {
    hide Bmap, WriteAt, Slot, InUse, SlotsOwn, OwnersPoint, BitsMatch;
    var p := BmapExtends(sb, fs, o, i, pos / BSIZE);
    Stored(sb, fs, o, i, q, slots, pos, data);
  }

  lemma DirectTurn(sb: Super, fs: FS, o: Owner, i: nat, q: seq<Word>, slots: seq<Word>, pos: nat, data: seq<Byte>)
    returns (p: Owner)
    requires After(sb, fs, o, i, q, slots) && pos / BSIZE < NDIRECT && pos % BSIZE + |data| <= BSIZE
    requires q != [] && slots[pos / BSIZE] == 0
    ensures var r := WriteStep(sb, fs, i, pos, data);
            && r.Done? && After(sb, r.fs, p, i, q[1..], slots[pos / BSIZE := q[0]])
            && r.fs.inodes[i].size == fs.inodes[i].size
            && q[0] < sb.size && r.fs.log == fs.log + [BBlock(sb, q[0]), q[0], q[0]]
    ensures p.Keys == o.Keys + {q[0]}
  {
    hide EnsureSlot, WriteAt, Slot, InUse, SlotsOwn, OwnersPoint, BitsMatch;
    var k := pos / BSIZE;
    SlotFilled(sb, fs, o, i, q, slots, k);
    p := o[q[0] := (i, k)];
    FreshIsUsed(sb, fs, o, q);
    Stored(sb, EnsureSlot(sb, fs, i, k), p, i, q[1..], slots[k := q[0]], pos, data);
  }

  /** An indirect entry in a file that has its indirect block. */
  lemma EntryTurn(sb: Super, fs: FS, o: Owner, i: nat, q: seq<Word>, slots: seq<Word>, pos: nat, data: seq<Byte>)
    returns (p: Owner)
    requires After(sb, fs, o, i, q, slots) && NDIRECT <= pos / BSIZE < MAXFILE && pos % BSIZE + |data| <= BSIZE
    requires q != [] && slots[IND] != 0 && slots[pos / BSIZE + 1] == 0
    ensures var r := WriteStep(sb, fs, i, pos, data);
            && r.Done? && After(sb, r.fs, p, i, q[1..], slots[pos / BSIZE + 1 := q[0]])
            && r.fs.inodes[i].size == fs.inodes[i].size
            && q[0] < sb.size && r.fs.log == fs.log + [BBlock(sb, q[0]), q[0], slots[IND], q[0]]
    ensures p.Keys == o.Keys + {q[0]}
  {
    hide EnsureSlot, WriteAt, Slot, InUse, SlotsOwn, OwnersPoint, BitsMatch;
    var k := pos / BSIZE + 1;
    var u := EnsureExtends(sb, fs, o, i, IND);
    SlotFilled(sb, fs, o, i, q, slots, k);
    p := o[q[0] := (i, k)];
    FreshIsUsed(sb, fs, o, q);
    Stored(sb, EnsureSlot(sb, fs, i, k), p, i, q[1..], slots[k := q[0]], pos, data);
  }

  /** The first indirect entry of a file, which takes two blocks. */
  lemma FirstEntryTurn(sb: Super, fs: FS, o: Owner, i: nat, q: seq<Word>, slots: seq<Word>, pos: nat, data: seq<Byte>)
    returns (p: Owner)
    requires After(sb, fs, o, i, q, slots) && NDIRECT <= pos / BSIZE < MAXFILE && pos % BSIZE + |data| <= BSIZE
    requires |q| >= 2 && slots[IND] == 0 && slots[pos / BSIZE + 1] == 0
    ensures var r := WriteStep(sb, fs, i, pos, data);
            && r.Done? && After(sb, r.fs, p, i, q[2..], slots[IND := q[0]][pos / BSIZE + 1 := q[1]])
            && r.fs.inodes[i].size == fs.inodes[i].size && q[0] < sb.size && q[1] < sb.size
            && r.fs.log == fs.log + [BBlock(sb, q[0]), q[0], BBlock(sb, q[1]), q[1], q[0], q[1]]
    ensures p.Keys == o.Keys + {q[0], q[1]}
  {
    hide EnsureSlot, WriteAt, Slot, InUse, SlotsOwn, OwnersPoint, BitsMatch;
    var k := pos / BSIZE + 1;
    SlotFilled(sb, fs, o, i, q, slots, IND);
    FreshIsUsed(sb, fs, o, q);
    var d, u := EnsureSlot(sb, fs, i, IND), o[q[0] := (i, IND)];
    SlotFilled(sb, d, u, i, q[1..], slots[IND := q[0]], k);
    assert q[1..][1..] == q[2..];
    p := u[q[1] := (i, k)];
    Stored(sb, EnsureSlot(sb, d, i, k), p, i, q[2..], slots[IND := q[0]][k := q[1]], pos, data);
  }

  /** Block 0 is never free, so a fresh pointer is never empty. */
  lemma FreshIsUsed(sb: Super, fs: FS, o: Owner, q: seq<Word>)
    requires Owned(sb, fs, o) && LowestFree(sb, fs, q)
    ensures forall a :: 0 <= a < |q| ==> sb.datastart <= q[a] && q[a] !in o
  {
    hide InUse, SlotsOwn, OwnersPoint;
  }

  // ---------------------------------------------------------------- the blocks behind a list of free blocks

  function MapsOf(sb: Super, q: seq<Word>): set<Word>
    requires SuperOk(sb)
  {
    set x | x in q && x < sb.size :: BBlock(sb, x)
  }

  /** The blocks and the free-map blocks they have their bits in. */
  function Cover(sb: Super, q: seq<Word>): set<Word>
    requires SuperOk(sb)
  {
    Elements(q) + MapsOf(sb, q)
  }

  lemma CoverSplit(sb: Super, a: seq<Word>, b: seq<Word>)
    requires SuperOk(sb)
    ensures Cover(sb, a + b) == Cover(sb, a) + Cover(sb, b)
  {
    hide Elements;
  }

  /** There are as many free-map blocks as blocks exactly when these lie apart. */
  lemma {:induction false} MapsCard(sb: Super, q: seq<Word>)
    requires SuperOk(sb) && forall a :: 0 <= a < |q| ==> q[a] < sb.size
    ensures |MapsOf(sb, q)| <= |q| && (|MapsOf(sb, q)| == |q| <==> Apart(q))
  {
    hide Apart;
    if q == [] {
      assert MapsOf(sb, q) == {};
      ApartNone();
    } else {
      var r, x := q[..|q| - 1], q[|q| - 1];
      assert q == r + [x];
      MapsCard(sb, r);
      MapsSnoc(sb, r, x);
      ApartSnoc(r, x);
    }
  }

  lemma ApartNone()
    ensures Apart([])
  {
  }

  lemma MapsSnoc(sb: Super, r: seq<Word>, x: Word)
    requires SuperOk(sb) && x < sb.size && forall a :: 0 <= a < |r| ==> r[a] < sb.size
    ensures MapsOf(sb, r + [x]) == MapsOf(sb, r) + {BBlock(sb, x)}
    ensures BBlock(sb, x) !in MapsOf(sb, r) <==> forall a :: 0 <= a < |r| ==> r[a] / Bitmap.BPB != x / Bitmap.BPB
  {
    forall a | 0 <= a < |r|
      ensures BBlock(sb, r[a]) in MapsOf(sb, r)
    {
      assert r[a] in r;
    }
    assert forall y :: y in r + [x] <==> y in r || y == x;
  }

  lemma ApartSnoc(r: seq<Word>, x: Word)
    ensures Apart(r + [x]) <==> Apart(r) && forall a :: 0 <= a < |r| ==> r[a] / Bitmap.BPB != x / Bitmap.BPB
  {
    var q := r + [x];
    assert forall a :: 0 <= a < |r| ==> q[a] == r[a];
    if Apart(q) {
      forall a | 0 <= a < |r|
        ensures r[a] / Bitmap.BPB != x / Bitmap.BPB
      {
        assert q[a] / Bitmap.BPB != q[|r|] / Bitmap.BPB;
      }
      assert forall a, b :: 0 <= a < b < |r| ==> q[a] / Bitmap.BPB != q[b] / Bitmap.BPB;
    }
  }

  lemma CoverCard(sb: Super, q: seq<Word>)
    requires SuperOk(sb) && (forall a, b :: 0 <= a < b < |q| ==> q[a] < q[b])
    requires forall a :: 0 <= a < |q| ==> sb.datastart <= q[a] < sb.size
    ensures |Cover(sb, q)| <= 2 * |q| && (|Cover(sb, q)| == 2 * |q| <==> Apart(q))
    ensures forall x :: x in Cover(sb, q) ==> x in q || sb.bmapstart <= x < sb.datastart
  {
    hide Apart, Elements;
    ElementsCard(q);
    MapsCard(sb, q);
    assert Elements(q) * MapsOf(sb, q) == {};
  }

  // ---------------------------------------------------------------- turns that allocate

  /** Every data block has an owner or is on the list. */
  ghost predicate Complete(sb: Super, o: Owner, q: seq<Word>) {
    forall x: Word :: sb.datastart <= x < sb.size ==> x in o || x in q
  }

  lemma NothingFree(sb: Super, fs: FS, o: Owner)
    requires Owned(sb, fs, o) && Complete(sb, o, [])
    ensures FreeFrom(sb, fs, 0) == sb.size
  {
    hide InUse, SlotsOwn, OwnersPoint;
    assert forall x: Word :: x < sb.size ==> InUse(sb, fs, x);
  }

  lemma TakenComplete(sb: Super, o: Owner, p: Owner, q: seq<Word>, k: nat)
    requires k <= |q| && Complete(sb, o, q) && forall x :: x in o || x in q[..k] ==> x in p
    ensures Complete(sb, p, q[k..])
  {
    assert q == q[..k] + q[k..];
  }

  /** How many blocks a turn in an empty place takes. */
  function Takes(slots: seq<Word>, pos: nat): nat
    requires |slots| == NSLOTS
  {
    if pos / BSIZE >= NDIRECT && slots[IND] == 0 then 2 else 1
  }

  /** If the disk has run out of blocks the turn panics. */
  lemma TurnNeeds(sb: Super, fs: FS, o: Owner, i: nat, q: seq<Word>, slots: seq<Word>, pos: nat, data: seq<Byte>)
    requires After(sb, fs, o, i, q, slots) && Complete(sb, o, q) && pos < MAXBYTES && pos % BSIZE + |data| <= BSIZE
    requires slots[DataSlot(pos / BSIZE)] == 0 && WriteStep(sb, fs, i, pos, data).Done?
    ensures |q| >= Takes(slots, pos)
  {
    hide Slot, InUse, SlotsOwn, OwnersPoint, BitsMatch, AllocSlot;
    if q == [] {
      NothingFree(sb, fs, o);
    } else if |q| == 1 && pos / BSIZE >= NDIRECT && slots[IND] == 0 {
      SlotFilled(sb, fs, o, i, q, slots, IND);
      var d, u := EnsureSlot(sb, fs, i, IND), o[q[0] := (i, IND)];
      TakenComplete(sb, o, u, q, 1);
      NothingFree(sb, d, u);
    }
  }

  lemma SinceAppend(l: seq<Word>, x: seq<Word>, t: set<Word>)
    requires forall y :: y in x <==> y in t
    ensures LoggedSince(|l|, l + x) == t
  {
    assert (l + x)[|l|..] == x;
  }

  lemma CoverOne(sb: Super, q: seq<Word>)
    requires SuperOk(sb) && q != [] && q[0] < sb.size
    ensures Cover(sb, q[..1]) == {BBlock(sb, q[0]), q[0]}
  {
    assert q[..1] == [q[0]];
    assert MapsOf(sb, [q[0]]) == {BBlock(sb, q[0])};
  }

  lemma CoverTwo(sb: Super, q: seq<Word>)
    requires SuperOk(sb) && |q| >= 2 && q[0] < sb.size && q[1] < sb.size
    ensures Cover(sb, q[..2]) == {BBlock(sb, q[0]), q[0], BBlock(sb, q[1]), q[1]}
  {
    assert q[..2] == [q[0], q[1]];
    assert MapsOf(sb, [q[0], q[1]]) == {BBlock(sb, q[0]), BBlock(sb, q[1])};
  }

  /** What one turn in an empty place takes and logs. */
  lemma FreshTurn(sb: Super, fs: FS, o: Owner, i: nat, q: seq<Word>, slots: seq<Word>, pos: nat, data: seq<Byte>)
    returns (p: Owner, after: seq<Word>)
    requires After(sb, fs, o, i, q, slots) && pos < MAXBYTES && pos % BSIZE + |data| <= BSIZE
    requires slots[DataSlot(pos / BSIZE)] == 0 && |q| >= Takes(slots, pos)
    ensures var r, k := WriteStep(sb, fs, i, pos, data), Takes(slots, pos);
            && r.Done? && After(sb, r.fs, p, i, q[k..], after) && r.fs.inodes[i].size == fs.inodes[i].size
            && LogGrows(fs, r.fs)
            && LoggedSince(|fs.log|, r.fs.log) ==
               Cover(sb, q[..k]) + (if pos / BSIZE >= NDIRECT && slots[IND] != 0 then {slots[IND]} else {})
    ensures after[IND] == if pos / BSIZE >= NDIRECT && slots[IND] == 0 then q[0] else slots[IND]
    ensures forall j :: 0 <= j < NSLOTS && j != IND && j != DataSlot(pos / BSIZE) ==> after[j] == slots[j]
    ensures Complete(sb, o, q) ==> Complete(sb, p, q[Takes(slots, pos)..])
  {
    hide WriteStep, Slot, SlotsOwn, OwnersPoint, BitsMatch, LowestFree, Complete, Cover, LoggedSince, Owned;
    var k := Takes(slots, pos);
    if pos / BSIZE < NDIRECT {
      p := DirectTurn(sb, fs, o, i, q, slots, pos, data);
      after := slots[pos / BSIZE := q[0]];
      SinceAppend(fs.log, [BBlock(sb, q[0]), q[0], q[0]], {BBlock(sb, q[0]), q[0]});
      CoverOne(sb, q);
    } else if slots[IND] != 0 {
      p := EntryTurn(sb, fs, o, i, q, slots, pos, data);
      after := slots[pos / BSIZE + 1 := q[0]];
      SinceAppend(fs.log, [BBlock(sb, q[0]), q[0], slots[IND], q[0]], {BBlock(sb, q[0]), q[0], slots[IND]});
      CoverOne(sb, q);
    } else {
      p := FirstEntryTurn(sb, fs, o, i, q, slots, pos, data);
      after := slots[IND := q[0]][pos / BSIZE + 1 := q[1]];
      SinceAppend(fs.log, [BBlock(sb, q[0]), q[0], BBlock(sb, q[1]), q[1], q[0], q[1]],
                  {BBlock(sb, q[0]), q[0], BBlock(sb, q[1]), q[1]});
      CoverTwo(sb, q);
    }
    if Complete(sb, o, q) {
      TakenComplete(sb, o, p, q, k);
    }
  }

  // ---------------------------------------------------------------- a chunk over empty places

  /** Turns of the loop still to come. */
  function Turns(off: nat, n: nat, tot: nat): nat
    requires tot <= n
  {
    if tot == n then 0 else (off + n - 1) / BSIZE - (off + tot) / BSIZE + 1
  }

  lemma NextTurn(off: nat, n: nat, tot: nat)
    requires tot < n
    ensures var m := Turn(off, tot, n);
            && Turns(off, n, tot) == 1 + Turns(off, n, tot + m)
            && (tot + m == n ==> (off + n - 1) / BSIZE == (off + tot) / BSIZE)
            && (tot + m < n ==> (off + tot + m) / BSIZE == (off + tot) / BSIZE + 1)
            && (off + tot) / BSIZE <= (off + n - 1) / BSIZE
  {
  }

  /** The rest of the chunk goes behind the direct blocks. */
  predicate Reaches(off: nat, n: nat, tot: nat) {
    tot < n && (off + n - 1) / BSIZE >= NDIRECT
  }

  /** Blocks the rest of the chunk needs if none of its places has one. */
  function Needs(off: nat, n: nat, tot: nat, slots: seq<Word>): nat
    requires tot <= n && |slots| == NSLOTS
  {
    Turns(off, n, tot) + if Reaches(off, n, tot) && slots[IND] == 0 then 1 else 0
  }

  predicate EmptyPlaces(off: nat, n: nat, tot: nat, slots: seq<Word>)
    requires off + n <= MAXBYTES && |slots| == NSLOTS
  {
    tot < n ==> forall bn :: (off + tot) / BSIZE <= bn <= (off + n - 1) / BSIZE ==> slots[DataSlot(bn)] == 0
  }

  /** What the rest of the chunk logs: the blocks it takes, their free-map blocks, and the indirect
      block if there is one already. */
  function FreshLog(sb: Super, q: seq<Word>, off: nat, n: nat, tot: nat, slots: seq<Word>): set<Word>
    requires SuperOk(sb) && tot <= n && |slots| == NSLOTS && |q| >= Needs(off, n, tot, slots)
  {
    Cover(sb, q[..Needs(off, n, tot, slots)]) + if Reaches(off, n, tot) && slots[IND] != 0 then {slots[IND]} else {}
  }

  lemma TakesNeeds(off: nat, n: nat, tot: nat, slots: seq<Word>, after: seq<Word>)
    requires tot < n && off + n <= MAXBYTES && |slots| == |after| == NSLOTS && EmptyPlaces(off, n, tot, slots)
    requires after[IND] != 0 || ((off + tot) / BSIZE < NDIRECT && slots[IND] == 0)
    requires (off + tot) / BSIZE < NDIRECT || slots[IND] != 0 ==> after[IND] == slots[IND]
    requires forall j :: 0 <= j < NSLOTS && j != IND && j != DataSlot((off + tot) / BSIZE) ==> after[j] == slots[j]
    ensures var m := Turn(off, tot, n);
            && Needs(off, n, tot, slots) == Takes(slots, off + tot) + Needs(off, n, tot + m, after)
            && EmptyPlaces(off, n, tot + m, after) && slots[DataSlot((off + tot) / BSIZE)] == 0
  {
    NextTurn(off, n, tot);
  }

  lemma FreshLogStep(sb: Super, q: seq<Word>, off: nat, n: nat, tot: nat, slots: seq<Word>, after: seq<Word>)
    requires SuperOk(sb) && tot < n && off + n <= MAXBYTES && |slots| == |after| == NSLOTS
    requires EmptyPlaces(off, n, tot, slots)
    requires |q| >= Needs(off, n, tot, slots)
    requires after[IND] == (if (off + tot) / BSIZE >= NDIRECT && slots[IND] == 0 then q[0] else slots[IND])
    requires (off + tot) / BSIZE >= NDIRECT ==> after[IND] != 0
    requires forall j :: 0 <= j < NSLOTS && j != IND && j != DataSlot((off + tot) / BSIZE) ==> after[j] == slots[j]
    ensures var m, k := Turn(off, tot, n), Takes(slots, off + tot);
            && Needs(off, n, tot, slots) == k + Needs(off, n, tot + m, after)
            && FreshLog(sb, q, off, n, tot, slots) ==
               Cover(sb, q[..k]) + (if (off + tot) / BSIZE >= NDIRECT && slots[IND] != 0 then {slots[IND]} else {}) +
               FreshLog(sb, q[k..], off, n, tot + m, after)
  {
    hide Cover;
    TakesNeeds(off, n, tot, slots, after);
    NextTurn(off, n, tot);
    var m, k := Turn(off, tot, n), Takes(slots, off + tot);
    var r := Needs(off, n, tot + m, after);
    CoverSplit(sb, q[..k], q[k..][..r]);
    assert q[..k + r] == q[..k] + q[k..][..r];
    if k == 2 {
      InCover(sb, q[..2], q[0]);
    }
  }

  lemma InCover(sb: Super, q: seq<Word>, x: Word)
    requires SuperOk(sb) && x in q
    ensures x in Cover(sb, q)
  {
  }

  /** A chunk none of whose places has a block gets through if there are enough free blocks, and
      only then, and logs exactly those. */
  lemma {:induction false} FreshLoop(sb: Super, fs: FS, o: Owner, i: nat, q: seq<Word>, slots: seq<Word>, off: nat,
                                     src: seq<Byte>, tot: nat)
    requires After(sb, fs, o, i, q, slots) && off + |src| <= MAXBYTES && tot <= |src|
    requires EmptyPlaces(off, |src|, tot, slots)
    requires |q| >= Needs(off, |src|, tot, slots) || (Complete(sb, o, q) && WriteLoop(sb, fs, i, off, src, tot).Done?)
    ensures |q| >= Needs(off, |src|, tot, slots)
    ensures var r := WriteLoop(sb, fs, i, off, src, tot);
            && r.Done? && LogGrows(fs, r.fs) && r.fs.inodes[i].size == fs.inodes[i].size
            && LoggedSince(|fs.log|, r.fs.log) == FreshLog(sb, q, off, |src|, tot, slots)
    decreases |src| - tot
  {
    hide WriteStep, Slot, SlotsOwn, OwnersPoint, BitsMatch, LowestFree, Complete, Cover, LoggedSince;
    var n := |src|;
    if tot == n {
      NothingSince(fs.log);
      CoverNone(sb, q);
    } else {
      var m := Turn(off, tot, n);
      var x := src[tot..tot + m];
      NextTurn(off, n, tot);
      if Complete(sb, o, q) && WriteLoop(sb, fs, i, off, src, tot).Done? {
        TurnNeeds(sb, fs, o, i, q, slots, off + tot, x);
      }
      FreshIsUsed(sb, fs, o, q);
      var p, after := FreshTurn(sb, fs, o, i, q, slots, off + tot, x);
      var d, k := WriteStep(sb, fs, i, off + tot, x).fs, Takes(slots, off + tot);
      TakesNeeds(off, n, tot, slots, after);
      FreshLoop(sb, d, p, i, q[k..], after, off, src, tot + m);
      FreshLogStep(sb, q, off, n, tot, slots, after);
      LogTrans(fs, d, WriteLoop(sb, fs, i, off, src, tot).fs);
    }
  }

  lemma NothingSince(l: seq<Word>)
    ensures LoggedSince(|l|, l) == {}
  {
  }

  lemma CoverNone(sb: Super, q: seq<Word>)
    requires SuperOk(sb)
    ensures Cover(sb, q[..0]) == {}
  {
  }

  // ---------------------------------------------------------------- the free list

  /** The free blocks from b on, in ascending order. */
  function FreeList(sb: Super, fs: FS, b: nat): (q: seq<Word>)
    requires Shape(sb, fs) && b <= sb.size
    ensures forall x: Word :: x in q <==> b <= x < sb.size && !InUse(sb, fs, x)
    ensures forall a, c :: 0 <= a < c < |q| ==> q[a] < q[c]
    decreases sb.size - b
  {
    if b == sb.size then []
    else if InUse(sb, fs, b) then FreeList(sb, fs, b + 1)
    else
      var r := FreeList(sb, fs, b + 1);
      assert forall a :: 0 <= a < |r| ==> r[a] in r;
      [b] + r
  }

  lemma FreeListIs(sb: Super, fs: FS, o: Owner)
    requires Owned(sb, fs, o)
    ensures LowestFree(sb, fs, FreeList(sb, fs, 0)) && Complete(sb, o, FreeList(sb, fs, 0))
  {
    hide InUse, SlotsOwn, OwnersPoint;
    var q := FreeList(sb, fs, 0);
    assert forall a :: 0 <= a < |q| ==> q[a] in q;
  }

  // ---------------------------------------------------------------- the exact budget of a chunk

  /** Every turn costs two blocks, less if one of the places has a block. */
  lemma {:induction false} CostBound(sb: Super, fs: FS, i: nat, off: nat, n: nat, tot: nat)
    requires Shape(sb, fs) && i < sb.ninodes && off + n <= MAXBYTES && tot <= n
    ensures LoopCost(sb, fs, i, off, n, tot) <= 2 * Turns(off, n, tot)
    ensures (exists x :: off + tot <= x < off + n && Mapped(sb, fs, i, x)) ==>
            LoopCost(sb, fs, i, off, n, tot) < 2 * Turns(off, n, tot)
    decreases n - tot
  {
    if tot < n {
      var m := Turn(off, tot, n);
      NextTurn(off, n, tot);
      CostBound(sb, fs, i, off, n, tot + m);
      if x :| off + tot <= x < off + n && Mapped(sb, fs, i, x) {
        if x < off + tot + m {
          assert x / BSIZE == (off + tot) / BSIZE;
          assert BlockOf(sb, fs, i, x) == BlockOf(sb, fs, i, off + tot);
        }
      }
    }
  }

  predicate NoneMapped(sb: Super, fs: FS, i: nat, lo: nat, hi: nat)
    requires Shape(sb, fs) && i < sb.ninodes && hi <= MAXBYTES
  {
    forall x :: lo <= x < hi ==> !Mapped(sb, fs, i, x)
  }

  lemma SlotBelow(sb: Super, fs: FS, o: Owner, i: nat, k: nat)
    requires Owned(sb, fs, o) && IsSlot(sb, i, k)
    ensures Slot(sb, fs, i, k) < sb.size
  {
    hide InUse, BitsMatch, Slot;
  }

  lemma PlacesEmpty(sb: Super, fs: FS, o: Owner, i: nat, q: seq<Word>, slots: seq<Word>, off: nat, n: nat)
    requires After(sb, fs, o, i, q, slots) && off + n <= MAXBYTES && NoneMapped(sb, fs, i, off, off + n)
    ensures EmptyPlaces(off, n, 0, slots)
  {
    hide SlotsOwn, OwnersPoint, BitsMatch, LowestFree, Slot;
    if n > 0 {
      forall bn | off / BSIZE <= bn <= (off + n - 1) / BSIZE
        ensures slots[DataSlot(bn)] == 0
      {
        var x := if bn * BSIZE < off then off else bn * BSIZE;
        assert x / BSIZE == bn && !Mapped(sb, fs, i, x);
        assert BlockOf(sb, fs, i, x) == slots[DataSlot(bn)];
        SlotBelow(sb, fs, o, i, DataSlot(bn));
      }
    }
  }

  /** The chunk lies over four file blocks, all of them holes, reaches behind the direct blocks of a
      file without indirect block, makes it grow, and the next five free blocks lie apart. */
  ghost predicate Overruns(sb: Super, fs: FS, i: nat, off: nat, n: nat)
    requires Shape(sb, fs) && i < sb.ninodes && off + n <= MAXBYTES
  {
    && Turns(off, n, 0) == 4 && NoneMapped(sb, fs, i, off, off + n)
    && Reaches(off, n, 0) && Slot(sb, fs, i, IND) == 0 && off + n > fs.inodes[i].size
    && |FreeList(sb, fs, 0)| >= 5 && Apart(FreeList(sb, fs, 0)[..5])
  }

  lemma FinishLogs(sb: Super, fs: FS, i: nat, end: Word, n: nat)
    requires Shape(sb, fs) && i < sb.ninodes
    ensures var e := Finish(sb, fs, i, end, n);
            && LogGrows(fs, e)
            && LoggedSince(|fs.log|, e.log) == if n > 0 && end > fs.inodes[i].size then {IBlock(sb, i)} else {}
  {
  }

  /** A chunk with a block in one of its places, or over three file blocks, stays within the budget. */
  lemma MappedFits(sb: Super, fs: FS, o: Owner, i: nat, off: Word, src: seq<Byte>)
    requires Owned(sb, fs, o) && i < sb.ninodes && |src| <= CHUNK && Writei(sb, fs, i, off, src).Wrote?
    requires off + |src| <= MAXBYTES && (!NoneMapped(sb, fs, i, off, off + |src|) || Turns(off, |src|, 0) < 4)
    ensures LogGrows(fs, Writei(sb, fs, i, off, src).fs)
    ensures |LoggedSince(|fs.log|, Writei(sb, fs, i, off, src).fs.log)| <= Log.MAXOPBLOCKS
  {
    hide WriteLoop, Slot, Mapped, SlotsOwn, OwnersPoint, BitsMatch, Finish;
    WriteiRefuses(sb, fs, i, off, src);
    var d := WriteLoop(sb, fs, i, off, src, 0).fs;
    var t := LoopLog(sb, fs, o, i, off, src, 0);
    CostBound(sb, fs, i, off, |src|, 0);
    AtMostFour(off, |src|);
    assert LoopCost(sb, fs, i, off, |src|, 0) <= 7;
    var e := Writei(sb, fs, i, off, src).fs;
    FinishLogs(sb, d, i, off + |src|, |src|);
    LogTrans(fs, d, e);
    CardBound(LoggedSince(|fs.log|, e.log), t, MapOf(sb, Slot(sb, d, i, IND)), IBlock(sb, i));
  }

  lemma SlotsOf(sb: Super, fs: FS, o: Owner, i: nat, q: seq<Word>) returns (slots: seq<Word>)
    requires Owned(sb, fs, o) && i < sb.ninodes && LowestFree(sb, fs, q)
    ensures After(sb, fs, o, i, q, slots)
  {
    hide SlotsOwn, OwnersPoint, BitsMatch, LowestFree;
    slots := seq(NSLOTS, k requires 0 <= k < NSLOTS => Slot(sb, fs, i, k));
  }

  /** What a chunk over holes logs: the blocks it takes with their free-map blocks, an indirect block
      that is there already, and the inode if it grows. */
  lemma HolesLog(sb: Super, fs: FS, o: Owner, i: nat, off: Word, src: seq<Byte>, q: seq<Word>, slots: seq<Word>)
    requires After(sb, fs, o, i, q, slots) && off + |src| <= MAXBYTES && off <= fs.inodes[i].size
    requires EmptyPlaces(off, |src|, 0, slots)
    requires |q| >= Needs(off, |src|, 0, slots) || (Complete(sb, o, q) && Writei(sb, fs, i, off, src).Wrote?)
    ensures |q| >= Needs(off, |src|, 0, slots)
    ensures Writei(sb, fs, i, off, src).Wrote? && LogGrows(fs, Writei(sb, fs, i, off, src).fs)
    ensures LoggedSince(|fs.log|, Writei(sb, fs, i, off, src).fs.log) ==
            FreshLog(sb, q, off, |src|, 0, slots) +
            if |src| > 0 && off + |src| > fs.inodes[i].size then {IBlock(sb, i)} else {}
  {
    hide WriteLoop, Slot, SlotsOwn, OwnersPoint, BitsMatch, LowestFree, Complete, Finish, LoggedSince, Cover;
    FreshLoop(sb, fs, o, i, q, slots, off, src, 0);
    var d := WriteLoop(sb, fs, i, off, src, 0).fs;
    FinishLogs(sb, d, i, off + |src|, |src|);
    LogTrans(fs, d, Writei(sb, fs, i, off, src).fs);
  }

  /** How many blocks that is. */
  lemma HolesCard(sb: Super, fs: FS, o: Owner, i: nat, q: seq<Word>, slots: seq<Word>, off: nat, n: nat)
    requires After(sb, fs, o, i, q, slots) && n <= CHUNK && |q| >= Needs(off, n, 0, slots) && Turns(off, n, 0) == 4
    ensures var b := FreshLog(sb, q, off, n, 0, slots);
            && |b| <= Log.MAXOPBLOCKS && (forall x :: x in b ==> x >= sb.bmapstart)
            && (|b| == Log.MAXOPBLOCKS <==> Reaches(off, n, 0) && slots[IND] == 0 && Apart(q[..5]))
  {
    hide Slot, BitsMatch, Cover, Apart, LowestFree;
    var k := Needs(off, n, 0, slots);
    FreshIsUsed(sb, fs, o, q);
    Ascending(sb, fs, q);
    CoverCard(sb, q[..k]);
    if Reaches(off, n, 0) && slots[IND] != 0 {
      assert slots[IND] == Slot(sb, fs, i, IND) && slots[IND] in o;
      UnionCard(Cover(sb, q[..k]), {slots[IND]});
    }
  }

  lemma Ascending(sb: Super, fs: FS, q: seq<Word>)
    requires Shape(sb, fs) && LowestFree(sb, fs, q)
    ensures (forall a, b :: 0 <= a < b < |q| ==> q[a] < q[b]) && forall a :: 0 <= a < |q| ==> q[a] < sb.size
  {
  }

  lemma AddInode(b: set<Word>, x: Word, grows: bool)
    requires x !in b
    ensures |b + if grows then {x} else {}| == |b| + if grows then 1 else 0
  {
    assert !grows ==> b + {} == b;
  }

  lemma HolesExactly(sb: Super, fs: FS, o: Owner, i: nat, off: Word, src: seq<Byte>)
    requires Owned(sb, fs, o) && i < sb.ninodes && |src| <= CHUNK && Writei(sb, fs, i, off, src).Wrote?
    requires off + |src| <= MAXBYTES && NoneMapped(sb, fs, i, off, off + |src|) && Turns(off, |src|, 0) == 4
    ensures LogGrows(fs, Writei(sb, fs, i, off, src).fs)
    ensures var b := LoggedSince(|fs.log|, Writei(sb, fs, i, off, src).fs.log);
            && |b| <= Log.MAXOPBLOCKS + 1
            && (|b| == Log.MAXOPBLOCKS + 1 <==> Overruns(sb, fs, i, off, |src|))
  {
    hide Writei, Slot, SlotsOwn, OwnersPoint, BitsMatch, LowestFree, Complete, LoggedSince, NoneMapped, Apart;
    WriteiRefuses(sb, fs, i, off, src);
    FreeListIs(sb, fs, o);
    var q := FreeList(sb, fs, 0);
    var slots := SlotsOf(sb, fs, o, i, q);
    PlacesEmpty(sb, fs, o, i, q, slots, off, |src|);
    hide FreeList, FreshLog;
    HolesLog(sb, fs, o, i, off, src, q, slots);
    HolesCard(sb, fs, o, i, q, slots, off, |src|);
    AddInode(FreshLog(sb, q, off, |src|, 0, slots), IBlock(sb, i), off + |src| > fs.inodes[i].size);
  }

  /** Whatever the state of the file, one chunk logs at most `MAXOPBLOCKS + 1` distinct blocks, and
      that many exactly if it overruns. */
  lemma ChunkBudgetExactly(sb: Super, fs: FS, o: Owner, i: nat, off: Word, src: seq<Byte>)
    requires Owned(sb, fs, o) && i < sb.ninodes && |src| <= CHUNK && Writei(sb, fs, i, off, src).Wrote?
    ensures off + |src| <= MAXBYTES && LogGrows(fs, Writei(sb, fs, i, off, src).fs)
    ensures var b := LoggedSince(|fs.log|, Writei(sb, fs, i, off, src).fs.log);
            && |b| <= Log.MAXOPBLOCKS + 1
            && (|b| > Log.MAXOPBLOCKS <==> Overruns(sb, fs, i, off, |src|))
  {
    hide Writei, Owned, NoneMapped, LoggedSince, Apart, FreeList, Slot;
    OwnedShape(sb, fs, o);
    WriteiRefuses(sb, fs, i, off, src);
    if NoneMapped(sb, fs, i, off, off + |src|) && Turns(off, |src|, 0) == 4 {
      HolesExactly(sb, fs, o, i, off, src);
    } else {
      AtMostFour(off, |src|);
      MappedFits(sb, fs, o, i, off, src);
    }
  }

  lemma AtMostFour(off: nat, n: nat)
    requires n <= CHUNK
    ensures Turns(off, n, 0) <= 4
  {
  }

  // ---------------------------------------------------------------- a chunk that starts inside block 11

  /** A chunk that starts inside block 11 and grows the file into its indirect blocks, with the
      lowest free blocks apart. */
  ghost predicate Spread(sb: Super, fs: FS, o: Owner, i: nat, off: Word, src: seq<Byte>, q: seq<Word>) {
    && Owned(sb, fs, o) && i < sb.ninodes && Slot(sb, fs, i, IND) == 0
    && off / BSIZE == 11 && off % BSIZE != 0 && |src| == CHUNK
    && off <= fs.inodes[i].size < off + CHUNK
    && LowestFree(sb, fs, q) && Apart(q)
  }

  lemma NoEntries(sb: Super, fs: FS, o: Owner, i: nat, q: seq<Word>, slots: seq<Word>)
    requires After(sb, fs, o, i, q, slots) && Slot(sb, fs, i, IND) == 0
    ensures forall k :: IND <= k < NSLOTS ==> slots[k] == 0
  {
    hide SlotsOwn, OwnersPoint, BitsMatch, LowestFree;
    forall k | IND <= k < NSLOTS
      ensures slots[k] == 0
    {
      assert Slot(sb, fs, i, k) == 0;
    }
  }

  /** The state after the first turn, in a block that is there, and what the rest logs. */
  lemma RestOfChunk(sb: Super, fs: FS, o: Owner, i: nat, off: Word, src: seq<Byte>, q: seq<Word>, slots: seq<Word>)
    requires Spread(sb, fs, o, i, off, src, q) && |q| == 4 && After(sb, fs, o, i, q, slots) && slots[11] != 0
    ensures Writei(sb, fs, i, off, src).Wrote? && LogGrows(fs, Writei(sb, fs, i, off, src).fs)
    ensures LoggedSince(|fs.log|, Writei(sb, fs, i, off, src).fs.log) == {slots[11]} + Cover(sb, q) + {IBlock(sb, i)}
  {
    hide WriteStep, Slot, SlotsOwn, OwnersPoint, BitsMatch, LowestFree, Finish, LoggedSince, Cover, Apart;
    var m := BSIZE - off % BSIZE;
    assert Turn(off, 0, CHUNK) == m;
    var x := src[0..m];
    MappedTurn(sb, fs, o, i, q, slots, off, x);
    NoEntries(sb, fs, o, i, q, slots);
    var d := WriteStep(sb, fs, i, off, x).fs;
    SinceAppend(fs.log, [slots[11]], {slots[11]});
    FreshLoop(sb, d, o, i, q, slots, off, src, m);
    assert q[..4] == q;
    var e := WriteLoop(sb, d, i, off, src, m).fs;
    assert WriteLoop(sb, fs, i, off, src, 0) == Done(e);
    LogTrans(fs, d, e);
    FinishLogs(sb, e, i, off + CHUNK, CHUNK);
    LogTrans(fs, e, Writei(sb, fs, i, off, src).fs);
  }

  /** With block 11 there and four free blocks apart, such a chunk uses up the whole budget. */
  lemma TenIsReached(sb: Super, fs: FS, o: Owner, i: nat, off: Word, src: seq<Byte>, q: seq<Word>)
    requires Spread(sb, fs, o, i, off, src, q) && |q| == 4 && Slot(sb, fs, i, 11) != 0
    ensures Writei(sb, fs, i, off, src).Wrote? && LogGrows(fs, Writei(sb, fs, i, off, src).fs)
    ensures |LoggedSince(|fs.log|, Writei(sb, fs, i, off, src).fs.log)| == Log.MAXOPBLOCKS
  {
    hide Writei, Slot, BitsMatch, LowestFree, LoggedSince, Cover, Apart;
    var slots := SlotsOf(sb, fs, o, i, q);
    RestOfChunk(sb, fs, o, i, off, src, q, slots);
    FreshIsUsed(sb, fs, o, q);
    Ascending(sb, fs, q);
    CoverCard(sb, q);
    var a, t := slots[11], Cover(sb, q);
    assert a == Slot(sb, fs, i, 11) && a in o;
    assert a !in t && |{a} + t| == 9;
    assert IBlock(sb, i) !in {a} + t;
  }

  /** With a hole there and five free blocks apart, it logs one block more than an operation may. */
  lemma HoleNeedsEleven(sb: Super, fs: FS, o: Owner, i: nat, off: Word, src: seq<Byte>, q: seq<Word>)
    requires Spread(sb, fs, o, i, off, src, q) && |q| == 5 && Slot(sb, fs, i, 11) == 0
    ensures Writei(sb, fs, i, off, src).Wrote? && LogGrows(fs, Writei(sb, fs, i, off, src).fs)
    ensures |LoggedSince(|fs.log|, Writei(sb, fs, i, off, src).fs.log)| == Log.MAXOPBLOCKS + 1
  {
    hide Writei, Slot, SlotsOwn, OwnersPoint, BitsMatch, LowestFree, LoggedSince, Cover, Apart;
    var slots := SlotsOf(sb, fs, o, i, q);
    NoEntries(sb, fs, o, i, q, slots);
    assert slots[11] == 0;
    hide FreshLog;
    HolesLog(sb, fs, o, i, off, src, q, slots);
    HolesCard(sb, fs, o, i, q, slots, off, CHUNK);
    assert q[..5] == q;
    AddInode(FreshLog(sb, q, off, CHUNK, 0, slots), IBlock(sb, i), true);
  }
}
