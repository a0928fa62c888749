/** Blocks, the free map and the block pointers of inodes.

`blocks` is what `bread` returns (the disk under the pinned log blocks), `inodes`
the in-memory copies, and `log` lists the blocks passed to `log_write`.  A *slot*
is a place that can hold a block number: slots 0..11 of an inode are its direct
pointers, slot 12 its indirect pointer, slots 13..140 the indirect entries.
*/
module FileModel {
  import opened Blocks
  import opened Bitmap
  import opened Dinodes

  const NINDIRECT := 128

  /** Blocks a file can have. */
  const MAXFILE := 140

  /** The slot of the indirect pointer. */
  const IND := 12

  const NSLOTS := 141

  /** The layout part of the super block; `datastart` is the first block behind the free map. */
  datatype Super = Super(size: nat, ninodes: nat, inodestart: nat, bmapstart: nat, datastart: nat)

  datatype FS = FS(blocks: seq<Block>, inodes: seq<Dinode>, log: seq<Word>)

  predicate SuperOk(sb: Super) {
    && 0 < sb.inodestart && sb.ninodes <= IPB * (sb.bmapstart - sb.inodestart)
    && sb.size <= BPB * (sb.datastart - sb.bmapstart)
    && sb.inodestart <= sb.bmapstart <= sb.datastart <= sb.size <= 0x1_0000_0000
  }

  predicate Shape(sb: Super, fs: FS) {
    && SuperOk(sb) && |fs.blocks| == sb.size && |fs.inodes| == sb.ninodes
    && forall i :: 0 <= i < |fs.inodes| ==> IsDinode(fs.inodes[i])
  }

  /** Block holding inode i. */
  function IBlock(sb: Super, i: nat): (b: Word)
    requires SuperOk(sb) && i < sb.ninodes
    ensures sb.inodestart <= b < sb.bmapstart
  {
    i / IPB + sb.inodestart
  }

  /** Free-map block holding the bit of block b. */
  function BBlock(sb: Super, b: nat): (m: Word)
    requires SuperOk(sb) && b < sb.size
    ensures sb.bmapstart <= m < sb.datastart
  {
    b / BPB + sb.bmapstart
  }

  /** The block is marked in use. */
  predicate InUse(sb: Super, fs: FS, b: nat)
    requires Shape(sb, fs) && b < sb.size
  {
    GetBit(fs.blocks[BBlock(sb, b)], b % BPB)
  }

  predicate IsSlot(sb: Super, i: int, k: int) {
    0 <= i < sb.ninodes && 0 <= k < NSLOTS
  }

  function Slot(sb: Super, fs: FS, i: nat, k: nat): Word
    requires Shape(sb, fs) && IsSlot(sb, i, k)
  {
    var a := fs.inodes[i].addrs;
    if k <= IND then a[k]
    else if a[IND] == 0 || a[IND] >= sb.size then 0
    else GetWord(fs.blocks[a[IND]], k - IND - 1)
  }

  // ---------------------------------------------------------------- ownership

  type Owner = map<Word, (nat, nat)>

  /** Every pointer to a block is the one its owner entry names: no block is referenced twice. */
  ghost predicate SlotsOwn(sb: Super, fs: FS, o: Owner)
    requires Shape(sb, fs)
  {
    forall i, k :: IsSlot(sb, i, k) && Slot(sb, fs, i, k) != 0 ==>
      Slot(sb, fs, i, k) in o && o[Slot(sb, fs, i, k)] == (i, k)
  }

  ghost predicate OwnersPoint(sb: Super, fs: FS, o: Owner)
    requires Shape(sb, fs)
  {
    forall b :: b in o ==>
      && sb.datastart <= b < sb.size
      && IsSlot(sb, o[b].0, o[b].1) && Slot(sb, fs, o[b].0, o[b].1) == b
  }

  /** The free map marks exactly the metadata and the owned blocks. */
  ghost predicate BitsMatch(sb: Super, fs: FS, o: Owner)
    requires Shape(sb, fs)
  {
    forall b :: 0 <= b < sb.size ==> (InUse(sb, fs, b) <==> b < sb.datastart || b in o)
  }

  ghost predicate Owned(sb: Super, fs: FS, o: Owner) {
    Shape(sb, fs) && SlotsOwn(sb, fs, o) && OwnersPoint(sb, fs, o) && BitsMatch(sb, fs, o)
  }

  // ---------------------------------------------------------------- operations

  /** First free block at or behind b, or `size` if there is none. */
  function FreeFrom(sb: Super, fs: FS, b: nat): (r: nat)
    requires Shape(sb, fs) && b <= sb.size
    ensures b <= r <= sb.size
    ensures r < sb.size ==> !InUse(sb, fs, r)
    ensures forall x :: b <= x < r ==> InUse(sb, fs, x)
    decreases sb.size - b
  {
    if b == sb.size || !InUse(sb, fs, b) then b else FreeFrom(sb, fs, b + 1)
  }

  function LogWrite(fs: FS, b: Word, v: Block): FS
    requires b < |fs.blocks|
  {
    fs.(blocks := fs.blocks[b := v], log := fs.log + [b])
  }

  /** Store the bit of block b through its free-map block. */
  function PutInUse(sb: Super, fs: FS, b: nat, v: bool): (r: FS)
    requires Shape(sb, fs) && b < sb.size
    ensures Shape(sb, r)
  {
    var m := BBlock(sb, b);
    LogWrite(fs, m, PutBit(fs.blocks[m], b % BPB, v))
  }

  /** `balloc` once it has found block b free: mark it and zero it. */
  function Balloc(sb: Super, fs: FS, b: Word): (r: FS)
    requires Shape(sb, fs) && b < sb.size
    ensures Shape(sb, r)
  {
    LogWrite(PutInUse(sb, fs, b, true), b, ZeroBlock())
  }

  /** Point slot k of inode i at block b; an indirect entry needs an indirect block. */
  function SetSlot(sb: Super, fs: FS, i: nat, k: nat, b: Word): (r: FS)
    requires Shape(sb, fs) && IsSlot(sb, i, k)
    ensures Shape(sb, r)
  {
    if k <= IND then fs.(inodes := fs.inodes[i := fs.inodes[i].(addrs := fs.inodes[i].addrs[k := b])])
    else if fs.inodes[i].addrs[IND] >= sb.size then fs
    else LogWrite(fs, fs.inodes[i].addrs[IND], PutWord(fs.blocks[fs.inodes[i].addrs[IND]], k - IND - 1, b))
  }

  function AllocSlot(sb: Super, fs: FS, i: nat, k: nat, b: Word): (r: FS)
    requires Shape(sb, fs) && IsSlot(sb, i, k) && b < sb.size
    ensures Shape(sb, r)
  {
    SetSlot(sb, Balloc(sb, fs, b), i, k, b)
  }

  /** Allocate a block for an empty slot; a slot in use is left alone.  With no free block
      left (`balloc` panics) the slot stays empty. */
  function EnsureSlot(sb: Super, fs: FS, i: nat, k: nat): (r: FS)
    requires Shape(sb, fs) && IsSlot(sb, i, k)
    ensures Shape(sb, r)
  {
    if Slot(sb, fs, i, k) != 0 || FreeFrom(sb, fs, 0) == sb.size then fs
    else AllocSlot(sb, fs, i, k, FreeFrom(sb, fs, 0))
  }

  /** The slot of the bn-th data block of a file. */
  function DataSlot(bn: nat): nat
    requires bn < MAXFILE
  {
    if bn < NDIRECT then bn else bn + 1
  }

  // ---------------------------------------------------------------- what the primitives change

  /** Writing a block that is nobody's indirect block changes no slot. */
  lemma SlotsKept(sb: Super, fs: FS, b: Word, v: Block)
    requires Shape(sb, fs) && b < sb.size
    requires forall i :: 0 <= i < sb.ninodes ==> Slot(sb, fs, i, IND) != b || b == 0
    ensures forall i, k :: IsSlot(sb, i, k) ==> Slot(sb, LogWrite(fs, b, v), i, k) == Slot(sb, fs, i, k)
  {
    forall i, k | IsSlot(sb, i, k)
      ensures Slot(sb, LogWrite(fs, b, v), i, k) == Slot(sb, fs, i, k)
    {
      assert Slot(sb, fs, i, IND) == fs.inodes[i].addrs[IND];
    }
  }

  /** Writing a block behind the free map changes no bit. */
  lemma BitsKept(sb: Super, fs: FS, b: Word, v: Block)
    requires Shape(sb, fs) && sb.datastart <= b < sb.size
    ensures forall x :: 0 <= x < sb.size ==> InUse(sb, LogWrite(fs, b, v), x) == InUse(sb, fs, x)
  {
  }

  lemma BitPut(sb: Super, fs: FS, b: nat, v: bool)
    requires Shape(sb, fs) && b < sb.size
    ensures forall x :: 0 <= x < sb.size ==>
              InUse(sb, PutInUse(sb, fs, b, v), x) == if x == b then v else InUse(sb, fs, x)
  {
    PutBitBits(fs.blocks[BBlock(sb, b)], b % BPB, v);
    forall x | 0 <= x < sb.size
      ensures InUse(sb, PutInUse(sb, fs, b, v), x) == if x == b then v else InUse(sb, fs, x)
    {
      assert x / BPB == b / BPB && x % BPB == b % BPB ==> x == b;
    }
  }

  lemma BallocEffect(sb: Super, fs: FS, o: Owner, b: Word)
    requires Owned(sb, fs, o) && b < sb.size && !InUse(sb, fs, b)
    ensures var e := Balloc(sb, fs, b);
            && Shape(sb, e) && sb.datastart <= b && b !in o && e.inodes == fs.inodes && e.blocks[b] == ZeroBlock()
            && (forall i, k :: IsSlot(sb, i, k) ==> Slot(sb, e, i, k) == Slot(sb, fs, i, k))
            && (forall x :: 0 <= x < sb.size ==> InUse(sb, e, x) == (x == b || InUse(sb, fs, x)))
  {
    var d := PutInUse(sb, fs, b, true);
    BitPut(sb, fs, b, true);
    SlotsKept(sb, fs, BBlock(sb, b), PutBit(fs.blocks[BBlock(sb, b)], b % BPB, true));
    BitsKept(sb, d, b, ZeroBlock());
    SlotsKept(sb, d, b, ZeroBlock());
  }

  /** Setting an empty slot to a fresh zeroed block changes that slot only. */
  lemma SetSlotEffect(sb: Super, fs: FS, o: Owner, i: nat, k: nat, b: Word)
    requires Shape(sb, fs) && SlotsOwn(sb, fs, o) && OwnersPoint(sb, fs, o) && IsSlot(sb, i, k)
    requires Slot(sb, fs, i, k) == 0 && (k > IND ==> Slot(sb, fs, i, IND) != 0)
    requires 0 < b < sb.size && fs.blocks[b] == ZeroBlock()
    ensures k > IND ==> Slot(sb, fs, i, IND) < sb.size
    ensures var e := SetSlot(sb, fs, i, k, b);
            && Shape(sb, e)
            && (forall j, l :: IsSlot(sb, j, l) ==>
                 Slot(sb, e, j, l) == if j == i && l == k then b else Slot(sb, fs, j, l))
            && (forall x :: 0 <= x < sb.size ==> InUse(sb, e, x) == InUse(sb, fs, x))
  {
    if k > IND {
      var p := Slot(sb, fs, i, IND);
      assert p == fs.inodes[i].addrs[IND] && p in o && o[p] == (i, IND);
      BitsKept(sb, fs, p, PutWord(fs.blocks[p], k - IND - 1, b));
      var e := SetSlot(sb, fs, i, k, b);
      forall j, l | IsSlot(sb, j, l)
        ensures Slot(sb, e, j, l) == if j == i && l == k then b else Slot(sb, fs, j, l)
      {
        assert Slot(sb, fs, j, IND) == fs.inodes[j].addrs[IND];
      }
    } else {
      SetPointerEffect(sb, fs, i, k, b);
    }
  }

  lemma SetPointerEffect(sb: Super, fs: FS, i: nat, k: nat, b: Word)
    requires Shape(sb, fs) && IsSlot(sb, i, k) && k <= IND && Slot(sb, fs, i, k) == 0
    requires 0 < b < sb.size && fs.blocks[b] == ZeroBlock()
    ensures var e := SetSlot(sb, fs, i, k, b);
            && Shape(sb, e)
            && (forall j, l :: IsSlot(sb, j, l) ==>
                 Slot(sb, e, j, l) == if j == i && l == k then b else Slot(sb, fs, j, l))
            && (forall x :: 0 <= x < sb.size ==> InUse(sb, e, x) == InUse(sb, fs, x))
  {
    var e := SetSlot(sb, fs, i, k, b);
    forall j, l | IsSlot(sb, j, l)
      ensures Slot(sb, e, j, l) == if j == i && l == k then b else Slot(sb, fs, j, l)
    {
      if l > IND {
        ZeroBlockWords(l - IND - 1);
      }
    }
  }

  // ---------------------------------------------------------------- allocation keeps ownership

  /** The later state owns everything the earlier one did, has the same data in it, and differs
      in no inode field but the pointers of inode i. */
  ghost predicate Extends(sb: Super, fs: FS, o: Owner, e: FS, p: Owner, i: nat) {
    && Owned(sb, fs, o) && Owned(sb, e, p) && i < sb.ninodes
    && (forall b :: b in o ==> b in p && p[b] == o[b] && (o[b].1 != IND ==> e.blocks[b] == fs.blocks[b]))
    && (forall j :: 0 <= j < sb.ninodes && j != i ==> e.inodes[j] == fs.inodes[j])
    && e.inodes[i] == fs.inodes[i].(addrs := e.inodes[i].addrs)
    && (forall b :: 0 <= b < sb.bmapstart ==> e.blocks[b] == fs.blocks[b])
  }

  lemma ExtendsTrans(sb: Super, a: FS, o: Owner, b: FS, p: Owner, c: FS, q: Owner, i: nat)
    requires Extends(sb, a, o, b, p, i) && Extends(sb, b, p, c, q, i)
    ensures Extends(sb, a, o, c, q, i)
  {
  }

  /** A slot in use keeps its value. */
  lemma ExtendsSlot(sb: Super, fs: FS, o: Owner, e: FS, p: Owner, i: nat, j: nat, k: nat)
    requires Extends(sb, fs, o, e, p, i) && IsSlot(sb, j, k) && Slot(sb, fs, j, k) != 0
    ensures Slot(sb, e, j, k) == Slot(sb, fs, j, k)
  {
  }

  lemma AllocSlotEffect(sb: Super, fs: FS, o: Owner, i: nat, k: nat, b: Word)
    requires Owned(sb, fs, o) && IsSlot(sb, i, k) && b < sb.size && !InUse(sb, fs, b)
    requires Slot(sb, fs, i, k) == 0 && (k > IND ==> Slot(sb, fs, i, IND) != 0)
    ensures sb.datastart <= b && b !in o
    ensures var e := AllocSlot(sb, fs, i, k, b);
            && Shape(sb, e)
            && (forall j, l :: IsSlot(sb, j, l) ==>
                 Slot(sb, e, j, l) == if j == i && l == k then b else Slot(sb, fs, j, l))
            && (forall x :: 0 <= x < sb.size ==> InUse(sb, e, x) == (x == b || InUse(sb, fs, x)))
  {
    BallocEffect(sb, fs, o, b);
    SetSlotEffect(sb, Balloc(sb, fs, b), o, i, k, b);
  }

  lemma OwnedAfter(sb: Super, fs: FS, o: Owner, e: FS, i: nat, k: nat, b: Word)
    requires Owned(sb, fs, o) && Shape(sb, e) && IsSlot(sb, i, k) && sb.datastart <= b < sb.size && b !in o
    requires Slot(sb, fs, i, k) == 0
    requires forall j, l :: IsSlot(sb, j, l) ==> Slot(sb, e, j, l) == if j == i && l == k then b else Slot(sb, fs, j, l)
    requires forall x :: 0 <= x < sb.size ==> InUse(sb, e, x) == (x == b || InUse(sb, fs, x))
    ensures Owned(sb, e, o[b := (i, k)])
  {
    hide Slot, InUse;
    var p := o[b := (i, k)];
    assert SlotsOwn(sb, e, p);
    assert OwnersPoint(sb, e, p);
    assert BitsMatch(sb, e, p);
  }

  /** The blocks and inode fields an allocation leaves alone. */
  lemma AllocSlotFrame(sb: Super, fs: FS, i: nat, k: nat, b: Word)
    requires Shape(sb, fs) && IsSlot(sb, i, k) && b < sb.size
    ensures var e := AllocSlot(sb, fs, i, k, b);
            && |e.blocks| == |fs.blocks| && |e.inodes| == |fs.inodes|
            && (forall x :: 0 <= x < sb.size && x != b && x != BBlock(sb, b) && (k > IND ==> x != Slot(sb, fs, i, IND))
                  ==> e.blocks[x] == fs.blocks[x])
            && (forall j :: 0 <= j < sb.ninodes && j != i ==> e.inodes[j] == fs.inodes[j])
            && e.inodes[i] == fs.inodes[i].(addrs := e.inodes[i].addrs)
  {
    assert Slot(sb, fs, i, IND) == fs.inodes[i].addrs[IND];
  }

  /** Allocating for an empty slot extends the state by exactly that slot. */
  lemma AllocSlotExtends(sb: Super, fs: FS, o: Owner, i: nat, k: nat, b: Word)
    requires Owned(sb, fs, o) && IsSlot(sb, i, k) && b < sb.size && !InUse(sb, fs, b)
    requires Slot(sb, fs, i, k) == 0 && (k > IND ==> Slot(sb, fs, i, IND) != 0)
    ensures Extends(sb, fs, o, AllocSlot(sb, fs, i, k, b), o[b := (i, k)], i)
    ensures Slot(sb, AllocSlot(sb, fs, i, k, b), i, k) == b != 0
  {
    hide AllocSlot, Slot, InUse;
    AllocSlotEffect(sb, fs, o, i, k, b);
    AllocSlotFrame(sb, fs, i, k, b);
    OwnedAfter(sb, fs, o, AllocSlot(sb, fs, i, k, b), i, k, b);
  }

  lemma EnsureExtends(sb: Super, fs: FS, o: Owner, i: nat, k: nat) returns (p: Owner)
    requires Owned(sb, fs, o) && IsSlot(sb, i, k) && (k > IND ==> Slot(sb, fs, i, IND) != 0)
    ensures Extends(sb, fs, o, EnsureSlot(sb, fs, i, k), p, i)
    ensures Slot(sb, EnsureSlot(sb, fs, i, k), i, k) != 0 <==> Slot(sb, fs, i, k) != 0 || FreeFrom(sb, fs, 0) < sb.size
    ensures Slot(sb, fs, i, k) != 0 ==> EnsureSlot(sb, fs, i, k) == fs
  {
    hide AllocSlot, Slot, InUse;
    p := o;
    if Slot(sb, fs, i, k) == 0 && FreeFrom(sb, fs, 0) < sb.size {
      var b := FreeFrom(sb, fs, 0);
      AllocSlotExtends(sb, fs, o, i, k, b);
      p := o[b := (i, k)];
    }
  }

  // ---------------------------------------------------------------- bmap

  /** The state after `bmap(ip, bn)`. */
  function Bmap(sb: Super, fs: FS, i: nat, bn: nat): (r: FS)
    requires Shape(sb, fs) && i < sb.ninodes && bn < MAXFILE
    ensures Shape(sb, r)
  {
    if bn < NDIRECT then EnsureSlot(sb, fs, i, bn)
    else BmapEntry(sb, EnsureSlot(sb, fs, i, IND), i, bn)
  }

  function BmapEntry(sb: Super, fs: FS, i: nat, bn: nat): (r: FS)
    requires Shape(sb, fs) && i < sb.ninodes && NDIRECT <= bn < MAXFILE
    ensures Shape(sb, r)
  {
    if Slot(sb, fs, i, IND) == 0 then fs else EnsureSlot(sb, fs, i, bn + 1)
  }

  lemma EntryNeedsIndirect(sb: Super, fs: FS, i: nat, k: nat)
    requires Shape(sb, fs) && IsSlot(sb, i, k) && k > IND && Slot(sb, fs, i, k) != 0
    ensures Slot(sb, fs, i, IND) != 0
  {
  }

  lemma BmapEntryExtends(sb: Super, fs: FS, o: Owner, i: nat, bn: nat) returns (p: Owner)
    requires Owned(sb, fs, o) && i < sb.ninodes && NDIRECT <= bn < MAXFILE
    ensures Extends(sb, fs, o, BmapEntry(sb, fs, i, bn), p, i)
    ensures Slot(sb, fs, i, bn + 1) != 0 ==> BmapEntry(sb, fs, i, bn) == fs
  {
    hide EnsureSlot, InUse, Slot;
    p := o;
    if Slot(sb, fs, i, IND) != 0 {
      p := EnsureExtends(sb, fs, o, i, bn + 1);
    }
  }

  /** `bmap` only ever adds pointers to inode i, and a file block that exists is found unchanged. */
  lemma BmapExtends(sb: Super, fs: FS, o: Owner, i: nat, bn: nat) returns (p: Owner)
    requires Owned(sb, fs, o) && i < sb.ninodes && bn < MAXFILE
    ensures Extends(sb, fs, o, Bmap(sb, fs, i, bn), p, i)
    ensures Slot(sb, fs, i, DataSlot(bn)) != 0 ==> Bmap(sb, fs, i, bn) == fs
  {
    hide EnsureSlot, InUse, Slot, BmapEntry, SlotsOwn, OwnersPoint, BitsMatch;
    if bn < NDIRECT {
      p := EnsureExtends(sb, fs, o, i, bn);
    } else {
      var q := EnsureExtends(sb, fs, o, i, IND);
      var d := EnsureSlot(sb, fs, i, IND);
      p := BmapEntryExtends(sb, d, q, i, bn);
      ExtendsTrans(sb, fs, o, d, q, BmapEntry(sb, d, i, bn), p, i);
      if Slot(sb, fs, i, DataSlot(bn)) != 0 {
        EntryNeedsIndirect(sb, fs, i, bn + 1);
      }
    }
  }

  /** `balloc` would panic. */
  ghost predicate DiskFull(sb: Super, fs: FS) { Shape(sb, fs) && FreeFrom(sb, fs, 0) == sb.size }

  /** `bmap` comes back without a block only from a full disk. */
  lemma BmapStuck(sb: Super, fs: FS, o: Owner, i: nat, bn: nat)
    requires Owned(sb, fs, o) && i < sb.ninodes && bn < MAXFILE
    requires Slot(sb, Bmap(sb, fs, i, bn), i, DataSlot(bn)) == 0
    ensures DiskFull(sb, Bmap(sb, fs, i, bn))
  {
    hide Slot, InUse, SlotsOwn, OwnersPoint, BitsMatch, AllocSlot;
    if bn < NDIRECT {
      var p := EnsureExtends(sb, fs, o, i, bn);
    } else {
      var p := EnsureExtends(sb, fs, o, i, IND);
      var d := EnsureSlot(sb, fs, i, IND);
      if Slot(sb, d, i, IND) != 0 {
        var q := EnsureExtends(sb, d, p, i, bn + 1);
      }
    }
  }
}
