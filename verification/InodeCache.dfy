/** The inode cache: reference counts, and freeing an inode with its last reference. */
module InodeCache {
  import opened Dinodes
  import opened FileModel
  import opened FileContent
  import opened FileWrite
  import opened FileTrunc
  import opened FileSystem

  // ---------------------------------------------------------------- freeing an inode

  /** Change fields of an inode other than its size and its pointers. */
  function SetFields(fs: FS, i: nat, x: Dinode): FS
    requires i < |fs.inodes|
  {
    fs.(inodes := fs.inodes[i := x])
  }

  /** The fields that say where the data of a file is. */
  predicate SameData(x: Dinode, y: Dinode) {
    x.size == y.size && x.addrs == y.addrs
  }

  lemma FieldsHarmless(sb: Super, fs: FS, o: Owner, i: nat, x: Dinode)
    requires Owned(sb, fs, o) && i < sb.ninodes && SameData(x, fs.inodes[i])
    ensures var d := SetFields(fs, i, x);
            && Owned(sb, d, o)
            && (forall j, q :: 0 <= j < sb.ninodes && 0 <= q < MAXBYTES ==>
                  Mapped(sb, d, j, q) == Mapped(sb, fs, j, q) && ByteOf(sb, d, j, q) == ByteOf(sb, fs, j, q))
  {
    var d := SetFields(fs, i, x);
    assert Shape(sb, d);
    assert forall j, k :: IsSlot(sb, j, k) ==> Slot(sb, d, j, k) == Slot(sb, fs, j, k);
    assert forall b :: 0 <= b < sb.size ==> InUse(sb, d, b) == InUse(sb, fs, b);
    StillOwned(sb, fs, o, d);
    hide Slot, InUse;
    assert forall j, q :: 0 <= j < sb.ninodes && 0 <= q < MAXBYTES ==> BlockOf(sb, d, j, q) == BlockOf(sb, fs, j, q);
  }

  /** `itrunc`, clear the type, `iupdate`. */
  function FreeInode(sb: Super, fs: FS, i: nat): (e: FS)
    requires Shape(sb, fs) && i < sb.ninodes && Itrunc(sb, fs, i).Done?
    ensures Shape(sb, e)
  {
    var d := Itrunc(sb, fs, i).fs;
    Iupdate(sb, SetFields(d, i, d.inodes[i].(typ := 0)), i)
  }

  /** Storing other fields of an inode keeps everything the file layer relies on and every file. */
  lemma FieldsOnDisk(sb: Super, fs: FS, o: Owner, i: nat, x: Dinode)
    requires FilesOk(sb, fs, o) && i < sb.ninodes && SameData(x, fs.inodes[i])
    ensures var e := Iupdate(sb, SetFields(fs, i, x), i);
            && FilesOk(sb, e, o) && e.inodes == fs.inodes[i := x]
            && (forall b :: 0 <= b < sb.size ==> InUse(sb, e, b) == InUse(sb, fs, b))
            && (forall j :: 0 <= j < sb.ninodes ==>
                 fs.inodes[j].size <= MAXBYTES && Content(sb, e, j) == Content(sb, fs, j))
  {
    hide SlotsOwn, OwnersPoint, BitsMatch, ByteOf, Mapped, WriteDinode, Slot, ReadDinode;
    var d := SetFields(fs, i, x);
    FieldsHarmless(sb, fs, o, i, x);
    var e := Iupdate(sb, d, i);
    MetaWriteHarmless(sb, d, o, IBlock(sb, i), WriteDinode(d.blocks[IBlock(sb, i)], i % IPB, d.inodes[i]));
    IupdateInodes(sb, d, i);
    forall j | 0 <= j < sb.ninodes
      ensures DiskInode(sb, e, j) == e.inodes[j] && NoHoles(sb, e, j)
      ensures fs.inodes[j].size <= MAXBYTES && Content(sb, e, j) == Content(sb, fs, j)
    {
      assert DiskInode(sb, fs, j) == fs.inodes[j] && NoHoles(sb, fs, j);
      var a, b := Content(sb, e, j), Content(sb, fs, j);
      assert forall q :: 0 <= q < fs.inodes[j].size ==> a[q] == b[q];
    }
  }

  /** Freeing an inode gives back exactly its blocks, leaves it empty and without a type, and
      touches no other file. */
  lemma FreedInode(sb: Super, fs: FS, o: Owner, i: nat)
    requires FilesOk(sb, fs, o) && i < sb.ninodes
    ensures Shape(sb, fs) && Itrunc(sb, fs, i).Done?
    ensures var e := FreeInode(sb, fs, i);
            && FilesOk(sb, e, Rest(o, i))
            && (forall b :: 0 <= b < sb.size ==> (InUse(sb, e, b) <==> InUse(sb, fs, b) && !(b in o && o[b].0 == i)))
            && e.inodes[i] == fs.inodes[i].(typ := 0, size := 0, addrs := seq(NDIRECT + 1, k => 0))
            && (forall j :: 0 <= j < sb.ninodes && j != i ==>
                  e.inodes[j] == fs.inodes[j] && fs.inodes[j].size <= MAXBYTES &&
                      Content(sb, e, j) == Content(sb, fs, j))
  {
    hide FilesOk, Itrunc, InUse, Content, Iupdate;
    ItruncFrees(sb, fs, o, i);
    var d := Itrunc(sb, fs, i).fs;
    FilesOwned(sb, d, Rest(o, i));
    OwnedShape(sb, d, Rest(o, i));
    FieldsOnDisk(sb, d, Rest(o, i), i, d.inodes[i].(typ := 0));
    assert d.inodes[i].addrs == seq(NDIRECT + 1, k => 0);
  }

  // ---------------------------------------------------------------- reference counts

  datatype CacheSlot = CacheSlot(ref: nat, inum: nat, valid: bool)

  /** References held on inode x. */
  function Refs(slots: seq<CacheSlot>, x: nat): nat {
    if slots == [] then 0
    else Refs(slots[..|slots| - 1], x) + if slots[|slots| - 1].inum == x then slots[|slots| - 1].ref else 0
  }

  lemma {:induction false} RefsUpdate(slots: seq<CacheSlot>, k: nat, v: CacheSlot, x: nat)
    requires k < |slots|
    ensures Refs(slots[k := v], x) ==
            Refs(slots, x) - (if slots[k].inum == x then slots[k].ref else 0) + (if v.inum == x then v.ref else 0)
  {
    var n := |slots| - 1;
    if k < n {
      assert slots[k := v][..n] == slots[..n][k := v];
      RefsUpdate(slots[..n], k, v, x);
    } else {
      assert slots[k := v][..n] == slots[..n];
    }
  }

  /** An inode in use has one slot. */
  ghost predicate OneSlotEach(slots: seq<CacheSlot>) {
    forall j, k :: 0 <= j < k < |slots| && slots[j].ref > 0 && slots[k].ref > 0 ==> slots[j].inum != slots[k].inum
  }

  lemma {:induction false} NoRefs(slots: seq<CacheSlot>, x: nat)
    requires forall k :: 0 <= k < |slots| && slots[k].ref > 0 ==> slots[k].inum != x
    ensures Refs(slots, x) == 0
  {
    if slots != [] {
      NoRefs(slots[..|slots| - 1], x);
    }
  }

  /** So the slot's count is all the references there are. */
  lemma RefsInSlot(slots: seq<CacheSlot>, k: nat)
    requires OneSlotEach(slots) && k < |slots| && slots[k].ref > 0
    ensures Refs(slots, slots[k].inum) == slots[k].ref
  {
    var v := slots[k].(ref := 0);
    RefsUpdate(slots, k, v, v.inum);
    NoRefs(slots[k := v], v.inum);
  }

  /** From a to b, by d more references on x and none on others. */
  ghost predicate Took(a: seq<CacheSlot>, b: seq<CacheSlot>, x: nat, d: int) {
    |b| == |a| && forall y :: Refs(b, y) == Refs(a, y) + if y == x then d else 0
  }

  lemma TookOne(a: seq<CacheSlot>, k: nat, v: CacheSlot, x: nat, d: int)
    requires k < |a| && v.inum == x && v.ref == d + (if a[k].inum == x then a[k].ref else 0)
    requires a[k].inum != x ==> a[k].ref == 0
    ensures Took(a, a[k := v], x, d)
  {
    forall y
      ensures Refs(a[k := v], y) == Refs(a, y) + if y == x then d else 0
    {
      RefsUpdate(a, k, v, y);
    }
  }

  /** An inode in use has a link or a loaded entry in the cache: nothing is lost. */
  ghost predicate NoOrphans(inodes: seq<Dinode>, slots: seq<CacheSlot>) {
    forall x :: 0 <= x < |inodes| && inodes[x].typ != 0 && inodes[x].nlink == 0 ==> Cached(slots, x)
  }

  ghost predicate Cached(slots: seq<CacheSlot>, x: nat) {
    exists k :: 0 <= k < |slots| && slots[k].ref > 0 && slots[k].inum == x && slots[k].valid
  }

  /** A slot may change as long as it does not lose a loaded entry. */
  lemma StillCached(inodes: seq<Dinode>, slots: seq<CacheSlot>, k: nat, v: CacheSlot)
    requires NoOrphans(inodes, slots) && k < |slots|
    requires slots[k].ref > 0 ==> v.ref > 0 && v.inum == slots[k].inum && (slots[k].valid ==> v.valid)
    ensures NoOrphans(inodes, slots[k := v])
  {
    forall x | 0 <= x < |inodes| && inodes[x].typ != 0 && inodes[x].nlink == 0
      ensures Cached(slots[k := v], x)
    {
      var j :| 0 <= j < |slots| && slots[j].ref > 0 && slots[j].inum == x && slots[j].valid;
      assert slots[k := v][j].ref > 0;
    }
  }

  /** Giving up a reference orphans nothing, since the last one on an unlinked inode frees it. */
  lemma PutOrphansNothing(inodes: seq<Dinode>, after: seq<Dinode>, slots: seq<CacheSlot>, k: nat, v: CacheSlot)
    requires NoOrphans(inodes, slots) && OneSlotEach(slots) && k < |slots| && slots[k].ref > 0
    requires slots[k].inum < |inodes| == |after|
    requires forall j :: 0 <= j < |inodes| && j != slots[k].inum ==> after[j] == inodes[j]
    requires var frees := slots[k].valid && inodes[slots[k].inum].nlink == 0 && slots[k].ref == 1;
             && v == CacheSlot(slots[k].ref - 1, slots[k].inum, slots[k].valid && !frees)
             && (if frees then after[slots[k].inum].typ == 0 else after[slots[k].inum] == inodes[slots[k].inum])
    ensures NoOrphans(after, slots[k := v])
  {
    forall x | 0 <= x < |after| && after[x].typ != 0 && after[x].nlink == 0
      ensures Cached(slots[k := v], x)
    {
      var j :| 0 <= j < |slots| && slots[j].ref > 0 && slots[j].inum == x && slots[j].valid;
      assert j != k ==> slots[k := v][j] == slots[j];
      assert x == slots[k].inum ==> j == k && v.ref > 0 && slots[k := v][j] == v;
    }
  }

  class Icache {
    var slots: seq<CacheSlot>

    /** `iget`: one more reference to inode x; panic is the lack of a free slot. */
    method Iget(x: nat, ghost inodes: seq<Dinode>) returns (k: nat, panic: bool)
      requires OneSlotEach(slots)
      modifies this
      ensures !panic ==>
                OneSlotEach(slots) && k < |slots| && slots[k].inum == x && slots[k].ref > 0 &&
                    Took(old(slots), slots, x, 1)
      ensures !panic ==>
                var was := old(slots)[k];
                && slots == old(slots)[k := CacheSlot(was.ref + 1, x, was.ref > 0 && was.valid)]
                && (was.ref > 0 ==> was.inum == x)
                && (was.ref == 0 ==> forall j :: 0 <= j < k ==> old(slots)[j].ref > 0)
      ensures panic ==> slots == old(slots) && forall j :: 0 <= j < |slots| ==> slots[j].ref > 0 && slots[j].inum != x
      ensures old(NoOrphans(inodes, slots)) ==> NoOrphans(inodes, slots)
    {
      hide Took, NoOrphans;
      var empty := -1;
      k := 0;
      while k < |slots|
        invariant 0 <= k <= |slots| && slots == old(slots) && -1 <= empty < k
        invariant forall j :: 0 <= j < k ==> !(slots[j].ref > 0 && slots[j].inum == x)
        invariant empty >= 0 ==> slots[empty].ref == 0 && forall j :: 0 <= j < empty ==> slots[j].ref > 0
        invariant empty < 0 ==> forall j :: 0 <= j < k ==> slots[j].ref > 0
      {
        if slots[k].ref > 0 && slots[k].inum == x {
          Change(k, slots[k].(ref := slots[k].ref + 1), x, 1, inodes);
          return k, false;
        }
        if empty < 0 && slots[k].ref == 0 {
          empty := k;
        }
        k := k + 1;
      }
      if empty < 0 {
        return 0, true;
      }
      Change(empty, CacheSlot(1, x, false), x, 1, inodes);
      return empty, false;
    }

    /** Store a slot that loses nothing. */
    method Change(k: nat, v: CacheSlot, ghost x: nat, ghost d: int, ghost inodes: seq<Dinode>)
      requires k < |slots| && v.inum == x && v.ref == d + (if slots[k].inum == x then slots[k].ref else 0)
      requires if slots[k].ref > 0 then v.ref > 0 && x == slots[k].inum && (slots[k].valid ==> v.valid) else true
      modifies this
      ensures slots == old(slots)[k := v] && Took(old(slots), slots, x, d)
      ensures old(NoOrphans(inodes, slots)) ==> NoOrphans(inodes, slots)
    {
      hide Took, NoOrphans;
      TookOne(slots, k, v, x, d);
      if NoOrphans(inodes, slots) {
        StillCached(inodes, slots, k, v);
      }
      slots := slots[k := v];
    }

    method Idup(k: nat, ghost inodes: seq<Dinode>)
      requires OneSlotEach(slots) && k < |slots| && slots[k].ref > 0
      modifies this
      ensures OneSlotEach(slots) && slots == old(slots)[k := old(slots)[k].(ref := old(slots)[k].ref + 1)]
      ensures Took(old(slots), slots, slots[k].inum, 1)
      ensures old(NoOrphans(inodes, slots)) ==> NoOrphans(inodes, slots)
    {
      hide Took, NoOrphans;
      Change(k, slots[k].(ref := slots[k].ref + 1), slots[k].inum, 1, inodes);
    }

    /** `ilock` loads the inode if need be; an inode without a type is a panic. */
    method Ilock(f: Files, k: nat) returns (panic: bool)
      requires OneSlotEach(slots) && k < |slots| && slots[k].ref > 0 && slots[k].inum < |f.inodes|
      modifies this
      ensures OneSlotEach(slots) && slots == old(slots)[k := old(slots)[k].(valid := true)]
      ensures Took(old(slots), slots, slots[k].inum, 0)
      ensures panic <==> !old(slots)[k].valid && f.inodes[slots[k].inum].typ == 0
      ensures old(NoOrphans(f.inodes, slots)) ==> NoOrphans(f.inodes, slots)
    {
      hide Took, NoOrphans;
      panic := !slots[k].valid && f.inodes[slots[k].inum].typ == 0;
      Change(k, slots[k].(valid := true), slots[k].inum, 0, f.inodes);
    }

    /** The part of `iput` that frees the inode. */
    method Release(f: Files, x: nat, ghost o: Owner)
      requires FilesOk(f.sb, f.State(), o) && x < f.sb.ninodes
      modifies f`blocks, f`inodes, f`log
      ensures f.Valid() && old(Itrunc(f.sb, f.State(), x)).Done? && f.State() == FreeInode(f.sb, old(f.State()), x)
      ensures |f.inodes| == |old(f.inodes)| && x < |f.inodes| && f.inodes[x].typ == 0
      ensures forall j :: 0 <= j < |f.inodes| && j != x ==> f.inodes[j] == old(f.inodes)[j]
    {
      hide FilesOk, Itrunc, Iupdate, Content, InUse;
      ghost var fs := f.State();
      FreedInode(f.sb, fs, o, x);
      f.TruncInode(x, o);
      FilesOwned(f.sb, f.State(), Rest(o, x));
      OwnedShape(f.sb, f.State(), Rest(o, x));
      f.inodes := f.inodes[x := f.inodes[x].(typ := 0)];
      f.UpdateInode(x);
    }

    /** `iput`: one reference less, and with the last one on an unlinked inode the inode goes too. */
    method Iput(f: Files, k: nat, ghost o: Owner) returns (frees: bool)
      requires FilesOk(f.sb, f.State(), o) && OneSlotEach(slots) && k < |slots|
      requires slots[k].ref > 0 && slots[k].inum < f.sb.ninodes
      modifies this, f`blocks, f`inodes, f`log
      ensures f.Valid() && |f.inodes| == |old(f.inodes)|
      ensures frees <==>
                old(slots[k].valid && slots[k].inum < |f.inodes| && f.inodes[slots[k].inum].nlink == 0 &&
                    slots[k].ref == 1)
      ensures var was := old(slots)[k];
              slots == old(slots)[k := CacheSlot(was.ref - 1, was.inum, was.valid && !frees)]
      ensures OneSlotEach(slots) && Took(old(slots), slots, old(slots)[k].inum, -1)
      ensures !frees ==> f.State() == old(f.State())
      ensures frees ==>
                old(Itrunc(f.sb, f.State(), slots[k].inum)).Done? &&
                    f.State() == FreeInode(f.sb, old(f.State()), old(slots)[k].inum)
      ensures old(NoOrphans(f.inodes, slots)) ==> NoOrphans(f.inodes, slots)
    {
      hide Took, NoOrphans, FilesOk, Itrunc, FreeInode;
      ghost var fs := f.State();
      FilesOwned(f.sb, fs, o);
      OwnedShape(f.sb, fs, o);
      var x := slots[k].inum;
      frees := false;
      if slots[k].valid && f.inodes[x].nlink == 0 {
        var r := slots[k].ref;
        if r == 1 {
          Release(f, x, o);
          frees := true;
        }
      }
      var v := CacheSlot(slots[k].ref - 1, x, slots[k].valid && !frees);
      TookOne(slots, k, v, x, -1);
      if NoOrphans(fs.inodes, slots) {
        PutOrphansNothing(fs.inodes, f.inodes, slots, k, v);
      }
      slots := slots[k := v];
    }
  }
}
