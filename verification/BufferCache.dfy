/** The buffer cache: a fixed set of buffers on a circular list, kept in place.

Each method is one section between lock-free points (`bcache.lock` or a held
buffer lock), so any interleaving of any number of processes is a sequence of
calls.  Every method is proved against its function in `CacheModel`.
*/
module BufferCache {
  import opened Collections
  import opened Blocks
  import opened LruList
  import opened CacheModel
  import opened CacheEffects

  class BCache {
    var bufs: seq<Buf>
    var next: seq<nat>
    var prev: seq<nat>
    var disk: seq<Block>

    ghost var order: seq<nat>
    ghost var latest: seq<Block>
    ghost var stamp: seq<int>
    ghost var clock: int

    ghost function Model(): Cache
      reads this
    {
      Cache(bufs, order, disk, latest, stamp, clock)
    }

    ghost predicate Valid()
      reads this
    {
      CacheInv(Model()) && Linked(next, prev, order, NBUF)
    }

    /** `binit`. */
    constructor (image: seq<Block>)
      ensures Valid() && Model() == Empty(image)
    {
      var nx, pv := ThreadAll();
      bufs := seq(NBUF, i => Buf(0, 0, false, false, 0, false, ZeroBlock()));
      next, prev, disk := nx, pv, image;
      order, latest, stamp, clock := Descending(NBUF), image, seq(NBUF, i => i), NBUF;
      EmptyInv(image);
    }

    /** The loop of `binit`: put the buffers onto the empty list one by one. */
    static method ThreadAll() returns (nx: seq<nat>, pv: seq<nat>)
      ensures Linked(nx, pv, Descending(NBUF), NBUF)
    {
      nx, pv := seq(NBUF + 1, i => NBUF), seq(NBUF + 1, i => NBUF);
      for b := 0 to NBUF
        invariant Linked(nx, pv, Descending(b), NBUF)
      {
        PushFrontLinked(nx, pv, Descending(b), NBUF, b);
        nx := nx[b := nx[NBUF]];
        pv := pv[b := NBUF];
        pv := pv[nx[NBUF] := b];
        nx := nx[NBUF := b];
      }
    }

    /** Find or recycle a buffer and take a reference; -1 stands for the panic. */
    method Bget(dev: nat, blockno: Word) returns (i: int)
      requires Valid() && dev != 0
      modifies this
      ensures Valid() && i == old(Chosen(Model(), dev, blockno)) < NBUF
      ensures i >= 0 ==> Model() == old(Get(Model(), dev, blockno))
      ensures i < 0 ==> Model() == old(Model()) && forall j :: 0 <= j < NBUF ==>
                !Idle(bufs[j]) && !Caches(bufs[j], dev, blockno)
    {
      ghost var c := Model();
      LookupMeans(c, dev, blockno);
      VictimIsOldest(c);
      i := ScanCached(dev, blockno);
      if i >= 0 {
        GetKeepsInv(c, dev, blockno);
        bufs := bufs[i := bufs[i].(refcnt := bufs[i].refcnt + 1)];
        return;
      }
      i := ScanIdle();
      if i >= 0 {
        GetKeepsInv(c, dev, blockno);
        bufs := bufs[i := Buf(dev, blockno, false, false, 1, bufs[i].locked, bufs[i].data)];
      }
    }

    /** The forward scan of `bget`. */
    method ScanCached(dev: nat, blockno: Word) returns (i: int)
      requires ListInv(Model()) && Linked(next, prev, order, NBUF)
      ensures i == Lookup(Model(), dev, blockno)
    {
      var b := next[NBUF];
      ghost var k := 0;
      assert Loop(order, NBUF)[0] == NBUF;
      while b != NBUF
        invariant 0 <= k <= NBUF && b == Loop(order, NBUF)[k + 1]
        invariant LookupFrom(bufs, order, k, dev, blockno) == Lookup(Model(), dev, blockno)
        decreases NBUF - k
      {
        if bufs[b].dev == dev && bufs[b].blockno == blockno {
          return b;
        }
        b := next[b];
        k := k + 1;
      }
      return -1;
    }

    /** The backward scan of `bget`. */
    method ScanIdle() returns (i: int)
      requires ListInv(Model()) && Linked(next, prev, order, NBUF)
      ensures i == Victim(Model())
    {
      var b := prev[NBUF];
      ghost var k := NBUF;
      assert Loop(order, NBUF)[NBUF + 1] == NBUF;
      while b != NBUF
        invariant 0 <= k <= NBUF && b == Loop(order, NBUF)[k]
        invariant VictimBefore(bufs, order, k) == Victim(Model())
        decreases k
      {
        if bufs[b].refcnt == 0 && !bufs[b].dirty {
          return b;
        }
        b := prev[b];
        k := k - 1;
      }
      return -1;
    }

    /** `acquiresleep` on a buffer, at the moment it succeeds. */
    method Lock(i: nat)
      requires Valid() && i < NBUF && !bufs[i].locked && bufs[i].refcnt > 0
      modifies this`bufs
      ensures Valid() && Model() == old(Acquire(Model(), i))
    {
      AcquireKeepsInv(Model(), i);
      bufs := bufs[i := bufs[i].(locked := true)];
    }

    /** The rest of `bread`: `iderw` unless the buffer is already valid. */
    method Load(i: nat)
      requires Valid() && i < NBUF && bufs[i].locked && OnDisk(Model(), bufs[i])
      modifies this`bufs
      ensures Valid() && Model() == old(Fill(Model(), i))
    {
      FillKeepsInv(Model(), i);
      if !bufs[i].valid {
        bufs := bufs[i := bufs[i].(valid := true, data := disk[bufs[i].blockno])];
      }
    }

    /** `bread` of a block that nobody holds; -1 stands for the panic of `bget`. */
    method Bread(blockno: Word, ghost h: set<nat>) returns (i: int)
      requires Valid() && blockno < |disk| && HeldExactly(Model(), h) && NobodyHolds(Model(), h, blockno)
      modifies this
      ensures Valid() && i == old(Chosen(Model(), DISK, blockno)) < NBUF
      ensures i < 0 ==> Model() == old(Model())
      ensures i >= 0 ==> Model() == old(Read(Model(), blockno)) && bufs[i].valid && bufs[i].data == old(latest[blockno])
    {
      ghost var c := Model();
      LookupMeans(c, DISK, blockno);
      i := Bget(DISK, blockno);
      if i >= 0 {
        ReadEffect(c, h, blockno);
        ChosenBuf(c, h, blockno);
        Lock(i);
        Load(i);
      }
    }

    /** The holder stores into the buffer. */
    method Put(i: nat, v: Block)
      requires Valid() && i < NBUF && bufs[i].locked
      modifies this`bufs
      ensures Valid() && Model() == old(Store(Model(), i, v))
    {
      StoreKeepsInv(Model(), i, v);
      bufs := bufs[i := bufs[i].(data := v)];
    }

    /** `bwrite`: set the dirty flag and let `iderw` write the block and clear it. */
    method WriteBack(i: nat)
      requires Valid() && i < NBUF && bufs[i].locked && OnDisk(Model(), bufs[i])
      modifies this`bufs, this`disk, this`latest
      ensures Valid() && Model() == old(Bwrite(Model(), i))
    {
      BwriteKeepsInv(Model(), i);
      var x := bufs[i];
      disk := disk[x.blockno := x.data];
      latest := latest[x.blockno := x.data];
      bufs := bufs[i := x.(valid := true, dirty := false)];
    }

    /** The flag `log_write` sets to keep the buffer in the cache. */
    method MarkDirty(i: nat)
      requires Valid() && i < NBUF && bufs[i].locked && bufs[i].valid
      modifies this`bufs, this`latest
      ensures old(OnDisk(Model(), bufs[i]))
      ensures Valid() && Model() == old(Pin(Model(), i))
    {
      PinKeepsInv(Model(), i);
      latest := latest[bufs[i].blockno := bufs[i].data];
      bufs := bufs[i := bufs[i].(dirty := true)];
    }

    /** Drop a reference; the last one moves the buffer to the front of the list. */
    method Release(i: nat)
      requires Valid() && i < NBUF && bufs[i].locked && Settled(Model(), i)
      modifies this
      ensures old(bufs[i].refcnt > 0 && i in order)
      ensures Valid() && Model() == old(Brelse(Model(), i))
      ensures bufs == old(bufs)[i := old(bufs)[i].(locked := false, refcnt := old(bufs)[i].refcnt - 1)]
      ensures if old(bufs)[i].refcnt > 1 then order == old(order) else ToFront(old(order), order, i)
    {
      hide ToFront;
      BrelseKeepsInv(Model(), i);
      var x := bufs[i].(locked := false, refcnt := bufs[i].refcnt - 1);
      bufs := bufs[i := x];
      if x.refcnt == 0 {
        ghost var k := Position(order, i);
        MoveToFrontLinked(next, prev, order, NBUF, k);
        prev := prev[next[i] := prev[i]];
        next := next[prev[i] := next[i]];
        next := next[i := next[NBUF]];
        prev := prev[i := NBUF];
        prev := prev[next[NBUF] := i];
        next := next[NBUF := i];
        order, stamp, clock := [i] + Without(order, k), stamp[i := clock], clock + 1;
      }
    }
  }
}
