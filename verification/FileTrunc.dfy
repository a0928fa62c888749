/** `itrunc`: give every block of a file back. */
module FileTrunc {
  import opened Blocks
  import opened Dinodes
  import opened FileModel
  import opened FileContent
  import opened FileWrite

  /** Pointers `itrunc` looks at: direct, then indirect entries, then the indirect block itself. */
  const VISITS := 141

  function VisitSlot(n: nat): (k: nat)
    requires n < VISITS
    ensures k < NSLOTS
  {
    if n < MAXFILE then DataSlot(n) else IND
  }

  /** The place of slot k in that order. */
  function VisitOf(k: nat): (n: nat)
    requires k < NSLOTS
    ensures n < VISITS && VisitSlot(n) == k
  {
    if k < IND then k else if k == IND then MAXFILE else k - 1
  }

  /** Free the block in one slot; a pointer held in the inode is cleared as well. */
  function Visit(sb: Super, fs: FS, i: nat, n: nat): (r: Outcome)
    requires Shape(sb, fs) && i < sb.ninodes && n < VISITS
    ensures r.Done? ==> Shape(sb, r.fs)
  {
    var k := VisitSlot(n);
    var b := Slot(sb, fs, i, k);
    if b == 0 then Done(fs)
    else if b >= sb.size || !InUse(sb, fs, b) then Panic
    else if k > IND then Done(PutInUse(sb, fs, b, false))
    else Done(SetSlot(sb, PutInUse(sb, fs, b, false), i, k, 0))
  }

  function TruncLoop(sb: Super, fs: FS, i: nat, n: nat): (r: Outcome)
    requires Shape(sb, fs) && i < sb.ninodes && n <= VISITS
    ensures r.Done? ==> Shape(sb, r.fs)
    decreases VISITS - n
  {
    if n == VISITS then Done(fs)
    else
      match Visit(sb, fs, i, n)
      case Panic => Panic
      case Done(e) => TruncLoop(sb, e, i, n + 1)
  }

  function Itrunc(sb: Super, fs: FS, i: nat): (r: Outcome)
    requires Shape(sb, fs) && i < sb.ninodes
  {
    match TruncLoop(sb, fs, i, 0)
    case Panic => Panic
    case Done(e) => Done(Emptied(sb, e, i))
  }

  // ---------------------------------------------------------------- half-way

  /** Block b was freed by one of the first n visits. */
  predicate Gone(sb: Super, o: Owner, i: nat, n: nat, b: int) {
    b in o && o[b].0 == i && o[b].1 < NSLOTS && VisitOf(o[b].1) < n
  }

  ghost predicate BitsGone(sb: Super, fs: FS, o: Owner, i: nat, e: FS, n: nat)
    requires Shape(sb, fs) && Shape(sb, e)
  {
    forall b :: 0 <= b < sb.size ==> InUse(sb, e, b) == (InUse(sb, fs, b) && !Gone(sb, o, i, n, b))
  }

  /** Slots not visited yet are as before; visited inode pointers are cleared. */
  ghost predicate SlotsGone(sb: Super, fs: FS, i: nat, e: FS, n: nat)
    requires Shape(sb, fs) && Shape(sb, e)
  {
    && (forall j, k :: IsSlot(sb, j, k) && (j != i || VisitOf(k) >= n) ==> Slot(sb, e, j, k) == Slot(sb, fs, j, k))
    && (i < sb.ninodes ==> forall k :: 0 <= k <= IND && VisitOf(k) < n ==> e.inodes[i].addrs[k] == 0)
  }

  /** Nothing but the free map and the pointers of inode i has changed. */
  ghost predicate OnlyMap(sb: Super, fs: FS, i: nat, e: FS) {
    && MetaKept(sb, fs, e, i)
    && forall b :: sb.datastart <= b < sb.size ==> e.blocks[b] == fs.blocks[b]
  }

  ghost predicate Truncating(sb: Super, fs: FS, o: Owner, i: nat, e: FS, n: nat) {
    OnlyMap(sb, fs, i, e) && BitsGone(sb, fs, o, i, e, n) && SlotsGone(sb, fs, i, e, n)
  }

  lemma FreeEffect(sb: Super, fs: FS, b: nat)
    requires Shape(sb, fs) && b < sb.size
    ensures var e := PutInUse(sb, fs, b, false);
            && e.inodes == fs.inodes
            && (forall x :: 0 <= x < sb.size && !(sb.bmapstart <= x < sb.datastart) ==> e.blocks[x] == fs.blocks[x])
            && (forall x :: 0 <= x < sb.size ==> InUse(sb, e, x) == (x != b && InUse(sb, fs, x)))
  {
    BitPut(sb, fs, b, false);
  }

  /** With the indirect blocks behind the free map, slots only depend on inodes and data blocks. */
  lemma SlotsSame(sb: Super, fs: FS, e: FS)
    requires Shape(sb, fs) && Shape(sb, e) && e.inodes == fs.inodes
    requires forall x :: sb.datastart <= x < sb.size ==> e.blocks[x] == fs.blocks[x]
    requires forall j :: 0 <= j < sb.ninodes && Slot(sb, fs, j, IND) != 0 ==> sb.datastart <= Slot(sb, fs, j, IND)
    ensures forall j, k :: IsSlot(sb, j, k) ==> Slot(sb, e, j, k) == Slot(sb, fs, j, k)
  {
    forall j, k | IsSlot(sb, j, k)
      ensures Slot(sb, e, j, k) == Slot(sb, fs, j, k)
    {
      assert Slot(sb, fs, j, IND) == fs.inodes[j].addrs[IND];
    }
  }

  lemma VisitInjective(n: nat, k: nat)
    requires n < VISITS && k < NSLOTS && VisitOf(k) == n
    ensures k == VisitSlot(n)
  {
  }

  lemma IndirectBehindMap(sb: Super, fs: FS, o: Owner, i: nat, e: FS, n: nat)
    requires Owned(sb, fs, o) && i < sb.ninodes && n < VISITS && Truncating(sb, fs, o, i, e, n)
    ensures forall j :: 0 <= j < sb.ninodes && Slot(sb, e, j, IND) != 0 ==>
              sb.datastart <= Slot(sb, e, j, IND) < sb.size
  {
    hide Slot, InUse;
    forall j | 0 <= j < sb.ninodes && Slot(sb, e, j, IND) != 0
      ensures sb.datastart <= Slot(sb, e, j, IND) < sb.size
    {
      assert VisitOf(IND) >= n;
      assert Slot(sb, e, j, IND) == Slot(sb, fs, j, IND);
      assert Slot(sb, fs, j, IND) in o;
    }
  }

  /** The block of an unvisited slot is still marked in use. */
  lemma NotFreedYet(sb: Super, fs: FS, o: Owner, i: nat, e: FS, n: nat)
    requires Owned(sb, fs, o) && i < sb.ninodes && n < VISITS && Truncating(sb, fs, o, i, e, n)
    ensures var b := Slot(sb, e, i, VisitSlot(n));
            && b == Slot(sb, fs, i, VisitSlot(n))
            && (b != 0 ==> b < sb.size && InUse(sb, e, b) && b in o && o[b] == (i, VisitSlot(n)))
  {
    hide Slot, InUse;
    assert VisitOf(VisitSlot(n)) == n;
  }

  lemma EmptyVisit(sb: Super, fs: FS, o: Owner, i: nat, e: FS, n: nat)
    requires Owned(sb, fs, o) && i < sb.ninodes && n < VISITS && Truncating(sb, fs, o, i, e, n)
    requires Slot(sb, e, i, VisitSlot(n)) == 0
    ensures Truncating(sb, fs, o, i, e, n + 1)
  {
    NotFreedYet(sb, fs, o, i, e, n);
    forall b | 0 <= b < sb.size && b in o
      ensures Gone(sb, o, i, n + 1, b) == Gone(sb, o, i, n, b)
    {
      assert Slot(sb, fs, o[b].0, o[b].1) == b;
      assert VisitOf(o[b].1) == n ==> o[b].1 == VisitSlot(n);
    }
    hide InUse;
    forall k | 0 <= k <= IND && VisitOf(k) < n + 1
      ensures e.inodes[i].addrs[k] == 0
    {
      if VisitOf(k) == n {
        VisitInjective(n, k);
      }
    }
  }

  lemma GoneNext(sb: Super, fs: FS, o: Owner, i: nat, n: nat, b: nat)
    requires Owned(sb, fs, o) && n < VISITS && b in o && o[b] == (i, VisitSlot(n))
    ensures forall x :: 0 <= x < sb.size ==> Gone(sb, o, i, n + 1, x) == (x == b || Gone(sb, o, i, n, x))
  {
    hide InUse, Slot;
    assert VisitOf(VisitSlot(n)) == n;
    forall x | 0 <= x < sb.size
      ensures Gone(sb, o, i, n + 1, x) == (x == b || Gone(sb, o, i, n, x))
    {
      if x in o && o[x].0 == i {
        assert Slot(sb, fs, o[x].0, o[x].1) == x && Slot(sb, fs, o[b].0, o[b].1) == b;
        assert VisitOf(o[x].1) == n ==> o[x].1 == VisitSlot(n);
      }
    }
  }

  lemma ClearPointer(sb: Super, fs: FS, i: nat, k: nat)
    requires Shape(sb, fs) && IsSlot(sb, i, k) && k <= IND
    ensures var e := SetSlot(sb, fs, i, k, 0);
            && e.blocks == fs.blocks
            && (forall j, l :: IsSlot(sb, j, l) && !(j == i && (l == k || (k == IND && l > IND))) ==>
                 Slot(sb, e, j, l) == Slot(sb, fs, j, l))
            && e.inodes[i] == fs.inodes[i].(addrs := fs.inodes[i].addrs[k := 0])
            && (forall j :: 0 <= j < sb.ninodes && j != i ==> e.inodes[j] == fs.inodes[j])
            && (forall x :: 0 <= x < sb.size ==> InUse(sb, e, x) == InUse(sb, fs, x))
  {
  }

  /** What freeing block b of slot k does, before the pointer is cleared. */
  lemma FreeVisit(sb: Super, fs: FS, o: Owner, i: nat, e: FS, n: nat, b: nat)
    requires Owned(sb, fs, o) && i < sb.ninodes && n < VISITS && Truncating(sb, fs, o, i, e, n)
    requires b == Slot(sb, e, i, VisitSlot(n)) && b != 0
    ensures b < sb.size && InUse(sb, e, b)
    ensures var d := PutInUse(sb, e, b, false);
            && OnlyMap(sb, fs, i, d) && BitsGone(sb, fs, o, i, d, n + 1) && SlotsGone(sb, fs, i, d, n)
  {
    hide Slot, InUse, PutInUse, Gone, SlotsOwn, OwnersPoint, BitsMatch;
    NotFreedYet(sb, fs, o, i, e, n);
    GoneNext(sb, fs, o, i, n, b);
    FreeEffect(sb, e, b);
    IndirectBehindMap(sb, fs, o, i, e, n);
    SlotsSame(sb, e, PutInUse(sb, e, b, false));
  }

  lemma FullVisit(sb: Super, fs: FS, o: Owner, i: nat, e: FS, n: nat)
    requires Owned(sb, fs, o) && i < sb.ninodes && n < VISITS && Truncating(sb, fs, o, i, e, n)
    requires Slot(sb, e, i, VisitSlot(n)) != 0
    ensures Visit(sb, e, i, n).Done? && Truncating(sb, fs, o, i, Visit(sb, e, i, n).fs, n + 1)
  {
    hide Slot, InUse, SetSlot, PutInUse, Owned, Gone;
    var k, b := VisitSlot(n), Slot(sb, e, i, VisitSlot(n));
    FreeVisit(sb, fs, o, i, e, n, b);
    if k <= IND {
      ClearPointer(sb, PutInUse(sb, e, b, false), i, k);
    }
  }

  lemma VisitKeeps(sb: Super, fs: FS, o: Owner, i: nat, e: FS, n: nat)
    requires Owned(sb, fs, o) && i < sb.ninodes && n < VISITS && Truncating(sb, fs, o, i, e, n)
    ensures Visit(sb, e, i, n).Done? && Truncating(sb, fs, o, i, Visit(sb, e, i, n).fs, n + 1)
  {
    hide Slot, InUse, Owned, BitsGone, SlotsGone;
    if Slot(sb, e, i, VisitSlot(n)) == 0 {
      EmptyVisit(sb, fs, o, i, e, n);
    } else {
      FullVisit(sb, fs, o, i, e, n);
    }
  }

  // ---------------------------------------------------------------- done

  lemma {:induction false} TruncLoopDone(sb: Super, fs: FS, o: Owner, i: nat, e: FS, n: nat)
    requires Owned(sb, fs, o) && i < sb.ninodes && n <= VISITS && Truncating(sb, fs, o, i, e, n)
    ensures TruncLoop(sb, e, i, n).Done? && Truncating(sb, fs, o, i, TruncLoop(sb, e, i, n).fs, VISITS)
    decreases VISITS - n
  {
    hide Owned, Visit, BitsGone, SlotsGone;
    if n < VISITS {
      VisitKeeps(sb, fs, o, i, e, n);
      TruncLoopDone(sb, fs, o, i, Visit(sb, e, i, n).fs, n + 1);
    }
  }

  /** Ownership without the blocks of inode i. */
  function Rest(o: Owner, i: nat): Owner {
    map b: Word | b in o && o[b].0 != i :: o[b]
  }

  lemma NoSlotLeft(sb: Super, fs: FS, o: Owner, i: nat, e: FS)
    requires Owned(sb, fs, o) && i < sb.ninodes && Truncating(sb, fs, o, i, e, VISITS)
    ensures forall k :: 0 <= k < NSLOTS ==> Slot(sb, e, i, k) == 0
  {
    hide InUse;
    assert e.inodes[i].addrs[IND] == 0;
  }

  lemma TruncOwned(sb: Super, fs: FS, o: Owner, i: nat, e: FS)
    requires Owned(sb, fs, o) && i < sb.ninodes && Truncating(sb, fs, o, i, e, VISITS)
    ensures Owned(sb, e, Rest(o, i))
  {
    NoSlotLeft(sb, fs, o, i, e);
    hide Slot, InUse;
    var p := Rest(o, i);
    assert SlotsOwn(sb, e, p);
    assert OwnersPoint(sb, e, p);
    forall b | 0 <= b < sb.size
      ensures InUse(sb, e, b) <==> b < sb.datastart || b in p
    {
      assert Gone(sb, o, i, VISITS, b) == (b in o && o[b].0 == i);
    }
  }

  lemma TruncBytes(sb: Super, fs: FS, o: Owner, i: nat, e: FS, j: nat)
    requires Owned(sb, fs, o) && i < sb.ninodes && j < sb.ninodes && j != i && Truncating(sb, fs, o, i, e, VISITS)
    ensures forall q :: 0 <= q < MAXBYTES ==>
              Mapped(sb, e, j, q) == Mapped(sb, fs, j, q) && ByteOf(sb, e, j, q) == ByteOf(sb, fs, j, q)
  {
    hide Slot, InUse;
    forall q | 0 <= q < MAXBYTES
      ensures Mapped(sb, e, j, q) == Mapped(sb, fs, j, q) && ByteOf(sb, e, j, q) == ByteOf(sb, fs, j, q)
    {
      assert BlockOf(sb, e, j, q) == BlockOf(sb, fs, j, q);
      assert Mapped(sb, fs, j, q) ==> BlockOf(sb, fs, j, q) in o;
    }
  }

  /** `itrunc` never frees a free block; it clears exactly the bits of the file's blocks and
      leaves an empty file, with every other file as it was. */
  lemma ItruncFrees(sb: Super, fs: FS, o: Owner, i: nat)
    requires FilesOk(sb, fs, o) && i < sb.ninodes
    ensures Shape(sb, fs) && Itrunc(sb, fs, i).Done?
    ensures var e := Itrunc(sb, fs, i).fs;
            && FilesOk(sb, e, Rest(o, i))
            && (forall b :: 0 <= b < sb.size ==> (InUse(sb, e, b) <==> InUse(sb, fs, b) && !(b in o && o[b].0 == i)))
            && e.inodes[i] == fs.inodes[i].(size := 0, addrs := seq(NDIRECT + 1, k => 0))
            && (forall j :: 0 <= j < sb.ninodes && j != i ==>
                  e.inodes[j] == fs.inodes[j] && fs.inodes[j].size <= MAXBYTES &&
                      Content(sb, e, j) == Content(sb, fs, j))
  {
    hide TruncLoop, Owned, WriteThrough, NoHoles, InUse, BitsGone, SlotsGone;
    TruncStart(sb, fs, o, i);
    TruncLoopDone(sb, fs, o, i, fs, 0);
    var d := TruncLoop(sb, fs, i, 0).fs;
    TruncFiles(sb, fs, o, i, d);
  }

  lemma TruncStart(sb: Super, fs: FS, o: Owner, i: nat)
    requires Owned(sb, fs, o) && i < sb.ninodes
    ensures Shape(sb, fs) && Truncating(sb, fs, o, i, fs, 0)
  {
    hide Slot, InUse;
  }

  /** The state after the size is reset and written through. */
  function Emptied(sb: Super, d: FS, i: nat): (e: FS)
    requires Shape(sb, d) && i < sb.ninodes
    ensures Shape(sb, e)
  {
    Iupdate(sb, SetSize(d, i, 0), i)
  }

  lemma EmptiedOwned(sb: Super, d: FS, p: Owner, i: nat)
    requires Owned(sb, d, p) && i < sb.ninodes
    ensures Owned(sb, Emptied(sb, d, i), p)
    ensures forall j, q :: 0 <= j < sb.ninodes && 0 <= q < MAXBYTES ==>
              Mapped(sb, Emptied(sb, d, i), j, q) == Mapped(sb, d, j, q) &&
              ByteOf(sb, Emptied(sb, d, i), j, q) == ByteOf(sb, d, j, q)
  {
    hide Slot, InUse, Mapped, ByteOf, SlotsOwn, OwnersPoint, BitsMatch, WriteDinode;
    var s := SetSize(d, i, 0);
    SizeHarmless(sb, d, p, i, 0);
    MetaWriteHarmless(sb, s, p, IBlock(sb, i), WriteDinode(s.blocks[IBlock(sb, i)], i % IPB, s.inodes[i]));
  }

  lemma TruncBits(sb: Super, fs: FS, o: Owner, i: nat, e: FS)
    requires Owned(sb, fs, o) && Owned(sb, e, Rest(o, i))
    ensures forall b :: 0 <= b < sb.size ==> (InUse(sb, e, b) <==> InUse(sb, fs, b) && !(b in o && o[b].0 == i))
  {
    hide Slot, InUse;
  }

  lemma TruncInodes(sb: Super, fs: FS, o: Owner, i: nat, d: FS)
    requires Owned(sb, fs, o) && WriteThrough(sb, fs) && i < sb.ninodes && Truncating(sb, fs, o, i, d, VISITS)
    ensures var e := Emptied(sb, d, i);
            && WriteThrough(sb, e)
            && e.inodes[i] == fs.inodes[i].(size := 0, addrs := seq(NDIRECT + 1, k => 0))
            && (forall j :: 0 <= j < sb.ninodes && j != i ==> e.inodes[j] == fs.inodes[j])
  {
    NoSlotLeft(sb, fs, o, i, d);
    hide InUse, Owned, DiskInode, BitsGone, SlotsGone;
    assert forall k :: 0 <= k <= IND ==> d.inodes[i].addrs[k] == Slot(sb, d, i, k);
    assert d.inodes[i].addrs == seq(NDIRECT + 1, k => 0);
    DiskInodesKept(sb, fs, SetSize(d, i, 0));
    IupdateInodes(sb, SetSize(d, i, 0), i);
  }

  lemma TruncContent(sb: Super, fs: FS, o: Owner, i: nat, d: FS, j: nat)
    requires FilesOk(sb, fs, o) && i < sb.ninodes && j < sb.ninodes && Truncating(sb, fs, o, i, d, VISITS)
    requires j == i ==> Emptied(sb, d, i).inodes[j].size == 0
    requires j != i ==> Emptied(sb, d, i).inodes[j] == fs.inodes[j]
    ensures NoHoles(sb, Emptied(sb, d, i), j)
    ensures j != i ==> fs.inodes[j].size <= MAXBYTES && Content(sb, Emptied(sb, d, i), j) == Content(sb, fs, j)
  {
    hide InUse, Slot, Mapped, ByteOf, Emptied, BitsGone, SlotsGone, WriteThrough;
    if j != i {
      TruncOwned(sb, fs, o, i, d);
      EmptiedOwned(sb, d, Rest(o, i), i);
      TruncBytes(sb, fs, o, i, d, j);
      assert NoHoles(sb, fs, j);
      var a, b := Content(sb, Emptied(sb, d, i), j), Content(sb, fs, j);
      assert forall q :: 0 <= q < fs.inodes[j].size ==> a[q] == b[q];
    }
  }

  lemma TruncFiles(sb: Super, fs: FS, o: Owner, i: nat, d: FS)
    requires FilesOk(sb, fs, o) && i < sb.ninodes && Truncating(sb, fs, o, i, d, VISITS)
    ensures var e := Emptied(sb, d, i);
            && FilesOk(sb, e, Rest(o, i))
            && (forall b :: 0 <= b < sb.size ==> (InUse(sb, e, b) <==> InUse(sb, fs, b) && !(b in o && o[b].0 == i)))
            && e.inodes[i] == fs.inodes[i].(size := 0, addrs := seq(NDIRECT + 1, k => 0))
            && (forall j :: 0 <= j < sb.ninodes && j != i ==>
                  e.inodes[j] == fs.inodes[j] && fs.inodes[j].size <= MAXBYTES &&
                      Content(sb, e, j) == Content(sb, fs, j))
  {
    hide InUse, Slot, Emptied, BitsGone, SlotsGone, WriteThrough, NoHoles, Content, Owned;
    TruncOwned(sb, fs, o, i, d);
    EmptiedOwned(sb, d, Rest(o, i), i);
    TruncBits(sb, fs, o, i, Emptied(sb, d, i));
    TruncInodes(sb, fs, o, i, d);
    forall j | 0 <= j < sb.ninodes
      ensures NoHoles(sb, Emptied(sb, d, i), j)
      ensures j != i ==> fs.inodes[j].size <= MAXBYTES && Content(sb, Emptied(sb, d, i), j) == Content(sb, fs, j)
    {
      TruncContent(sb, fs, o, i, d, j);
    }
  }
}
