/** The buffer cache on values: what its operations do and what they keep.

`latest` is the content last logged or written for each block of the disk, and
`stamp` the moment at which each buffer was last moved to the front of the list;
no operation reads either.
*/
module CacheModel {
  import opened Collections
  import opened Blocks
  import opened LruList

  const NBUF := 30

  /** The only disk (`iderw` refuses every other device). */
  const DISK := 1

  datatype Buf = Buf(dev: nat, blockno: Word, valid: bool, dirty: bool, refcnt: nat, locked: bool, data: Block)

  datatype Cache = Cache(
    bufs: seq<Buf>,
    order: seq<nat>,
    disk: seq<Block>,
    latest: seq<Block>,
    stamp: seq<int>,
    clock: int)

  // ---------------------------------------------------------------- operations

  predicate Caches(x: Buf, dev: nat, b: Word) {
    x.dev == dev && x.blockno == b
  }

  /** A buffer `bget` may take away from its block. */
  predicate Idle(x: Buf) {
    x.refcnt == 0 && !x.dirty
  }

  predicate OrderOk(bufs: seq<Buf>, order: seq<nat>) {
    forall i :: 0 <= i < |order| ==> order[i] < |bufs|
  }

  /** First buffer from list position k on that caches (dev, b), or -1. */
  function LookupFrom(bufs: seq<Buf>, order: seq<nat>, k: nat, dev: nat, b: Word): (r: int)
    requires OrderOk(bufs, order) && k <= |order|
    ensures -1 <= r < |bufs|
    decreases |order| - k
  {
    if k == |order| then -1
    else if Caches(bufs[order[k]], dev, b) then order[k]
    else LookupFrom(bufs, order, k + 1, dev, b)
  }

  /** Last idle buffer before list position k, or -1. */
  function VictimBefore(bufs: seq<Buf>, order: seq<nat>, k: nat): (r: int)
    requires OrderOk(bufs, order) && k <= |order|
    ensures -1 <= r < |bufs|
  {
    if k == 0 then -1
    else if Idle(bufs[order[k - 1]]) then order[k - 1]
    else VictimBefore(bufs, order, k - 1)
  }

  function Lookup(c: Cache, dev: nat, b: Word): (r: int)
    requires OrderOk(c.bufs, c.order)
    ensures -1 <= r < |c.bufs|
  {
    LookupFrom(c.bufs, c.order, 0, dev, b)
  }

  function Victim(c: Cache): (r: int)
    requires OrderOk(c.bufs, c.order)
    ensures -1 <= r < |c.bufs|
  {
    VictimBefore(c.bufs, c.order, |c.order|)
  }

  /** The buffer `bget` settles on, or -1 where it panics. */
  function Chosen(c: Cache, dev: nat, b: Word): (r: int)
    requires OrderOk(c.bufs, c.order)
    ensures -1 <= r < |c.bufs|
  {
    var i := Lookup(c, dev, b);
    if i >= 0 then i else Victim(c)
  }

  function Get(c: Cache, dev: nat, b: Word): Cache
    requires OrderOk(c.bufs, c.order) && Chosen(c, dev, b) >= 0
  {
    var i := Chosen(c, dev, b);
    var x := c.bufs[i];
    var y := if Lookup(c, dev, b) >= 0 then x.(refcnt := x.refcnt + 1)
             else Buf(dev, b, false, false, 1, x.locked, x.data);
    c.(bufs := c.bufs[i := y])
  }

  function Acquire(c: Cache, i: nat): Cache
    requires i < |c.bufs|
  {
    c.(bufs := c.bufs[i := c.bufs[i].(locked := true)])
  }

  predicate OnDisk(c: Cache, x: Buf) {
    x.dev == DISK && x.blockno < |c.disk|
  }

  /** The rest of `bread`: load the block unless the buffer is valid. */
  function Fill(c: Cache, i: nat): Cache
    requires i < |c.bufs| && OnDisk(c, c.bufs[i])
  {
    var x := c.bufs[i];
    if x.valid then c else c.(bufs := c.bufs[i := x.(valid := true, data := c.disk[x.blockno])])
  }

  function Store(c: Cache, i: nat, v: Block): Cache
    requires i < |c.bufs|
  {
    c.(bufs := c.bufs[i := c.bufs[i].(data := v)])
  }

  function Bwrite(c: Cache, i: nat): Cache
    requires i < |c.bufs| && OnDisk(c, c.bufs[i]) && |c.latest| == |c.disk|
  {
    var x := c.bufs[i];
    c.(bufs := c.bufs[i := x.(valid := true, dirty := false)],
       disk := c.disk[x.blockno := x.data], latest := c.latest[x.blockno := x.data])
  }

  /** What `log_write` does to the buffer. */
  function Pin(c: Cache, i: nat): Cache
    requires i < |c.bufs| && OnDisk(c, c.bufs[i]) && |c.latest| == |c.disk|
  {
    var x := c.bufs[i];
    c.(bufs := c.bufs[i := x.(dirty := true)], latest := c.latest[x.blockno := x.data])
  }

  function Position(order: seq<nat>, i: nat): (k: nat)
    requires i in order
    ensures k < |order| && order[k] == i
  {
    if order[0] == i then 0 else 1 + Position(order[1..], i)
  }

  function Brelse(c: Cache, i: nat): Cache
    requires i < |c.bufs| == |c.stamp| && i in c.order && c.bufs[i].refcnt > 0
  {
    var x := c.bufs[i].(locked := false, refcnt := c.bufs[i].refcnt - 1);
    var d := c.(bufs := c.bufs[i := x]);
    if x.refcnt > 0 then d
    else d.(order := [i] + Without(c.order, Position(c.order, i)), stamp := c.stamp[i := c.clock], clock := c.clock + 1)
  }

  /** Element i comes to the front and the others keep their order. */
  ghost predicate ToFront<T(!new)>(a: seq<T>, b: seq<T>, i: T) {
    exists x, y :: a == x + [i] + y && b == [i] + x + y
  }

  // ---------------------------------------------------------------- invariant

  /** The list is a permutation of the buffers, ordered by the last move to the front. */
  predicate ListInv(c: Cache) {
    && |c.bufs| == |c.stamp| == NBUF
    && Perm(c.order, NBUF)
    && (forall i :: 0 <= i < NBUF ==> c.stamp[i] < c.clock)
    && Ordered(c.order, c.stamp)
  }

  /** No two buffers hold the same block; never-used buffers all carry device 0. */
  predicate Unique(c: Cache) {
    forall i, j :: 0 <= i < j < |c.bufs| && c.bufs[i].dev == c.bufs[j].dev && c.bufs[i].blockno == c.bufs[j].blockno
      ==> c.bufs[i].dev == 0
  }

  predicate DirtyFor(c: Cache, b: int) {
    exists i :: 0 <= i < |c.bufs| && c.bufs[i].dirty && c.bufs[i].blockno == b
  }

  predicate BufOk(c: Cache, x: Buf)
    requires |c.latest| == |c.disk|
  {
    && (x.locked ==> x.refcnt > 0)
    && (x.dirty ==> x.valid)
    && (x.valid ==> OnDisk(c, x))
    && (x.valid && !x.locked ==> x.data == c.latest[x.blockno])
  }

  /** Unlocked valid buffers are up to date, and the disk is wherever no buffer is dirty. */
  ghost predicate Coherent(c: Cache) {
    && |c.latest| == |c.disk|
    && (forall i :: 0 <= i < |c.bufs| ==> BufOk(c, c.bufs[i]))
    && (forall b :: 0 <= b < |c.disk| && !DirtyFor(c, b) ==> c.disk[b] == c.latest[b])
  }

  ghost predicate CacheInv(c: Cache) {
    ListInv(c) && Unique(c) && Coherent(c)
  }

  /** The holder has left the buffer as last logged or written. */
  predicate Settled(c: Cache, i: nat)
    requires i < |c.bufs| && |c.latest| == |c.disk|
  {
    c.bufs[i].valid ==> OnDisk(c, c.bufs[i]) && c.bufs[i].data == c.latest[c.bufs[i].blockno]
  }

  /** The cache `binit` leaves: zeroed buffers, the last one threaded first. */
  function Empty(image: seq<Block>): Cache {
    Cache(seq(NBUF, i => Buf(0, 0, false, false, 0, false, ZeroBlock())), Descending(NBUF), image, image,
          seq(NBUF, i => i), NBUF)
  }

  lemma EmptyInv(image: seq<Block>)
    ensures CacheInv(Empty(image))
  {
    DescendingPerm(NBUF);
  }

  // ---------------------------------------------------------------- choosing a buffer

  lemma {:induction false} LookupFromMeans(bufs: seq<Buf>, order: seq<nat>, k: nat, dev: nat, b: Word)
    requires OrderOk(bufs, order) && k <= |order|
    ensures var r := LookupFrom(bufs, order, k, dev, b);
            && (r >= 0 ==> Caches(bufs[r], dev, b))
            && (r < 0 ==> forall j :: k <= j < |order| ==> !Caches(bufs[order[j]], dev, b))
    decreases |order| - k
  {
    if k < |order| {
      LookupFromMeans(bufs, order, k + 1, dev, b);
    }
  }

  /** The first scan finds a buffer exactly when some buffer caches the block. */
  lemma LookupMeans(c: Cache, dev: nat, b: Word)
    requires ListInv(c)
    ensures var r := Lookup(c, dev, b);
            && (r >= 0 ==> Caches(c.bufs[r], dev, b))
            && (r < 0 ==> forall i :: 0 <= i < NBUF ==> !Caches(c.bufs[i], dev, b))
  {
    LookupFromMeans(c.bufs, c.order, 0, dev, b);
    if Lookup(c, dev, b) < 0 {
      forall i | 0 <= i < NBUF
        ensures !Caches(c.bufs[i], dev, b)
      {
        assert i in c.order;
      }
    }
  }

  /** Position p holds the last idle buffer before position k. */
  predicate LastIdle(bufs: seq<Buf>, order: seq<nat>, k: nat, p: int)
    requires OrderOk(bufs, order) && k <= |order|
  {
    0 <= p < k && Idle(bufs[order[p]]) && forall j :: p < j < k ==> !Idle(bufs[order[j]])
  }

  lemma {:induction false} VictimBeforeMeans(bufs: seq<Buf>, order: seq<nat>, k: nat)
    requires OrderOk(bufs, order) && k <= |order|
    ensures var r := VictimBefore(bufs, order, k);
            && (r < 0 ==> forall j :: 0 <= j < k ==> !Idle(bufs[order[j]]))
            && (r >= 0 ==> exists p :: LastIdle(bufs, order, k, p) && order[p] == r)
  {
    if k > 0 {
      if Idle(bufs[order[k - 1]]) {
        assert LastIdle(bufs, order, k, k - 1);
      } else {
        VictimBeforeMeans(bufs, order, k - 1);
        forall p | LastIdle(bufs, order, k - 1, p)
          ensures LastIdle(bufs, order, k, p)
        {
        }
      }
    }
  }

  /** The second scan takes the idle buffer that was released longest ago,
      and fails exactly when every buffer is referenced or dirty. */
  lemma VictimIsOldest(c: Cache)
    requires ListInv(c)
    ensures var r := Victim(c);
            && (r < 0 ==> forall i :: 0 <= i < NBUF ==> !Idle(c.bufs[i]))
            && (r >= 0 ==> Idle(c.bufs[r]) && forall i :: 0 <= i < NBUF && i != r && Idle(c.bufs[i]) ==>
                 c.stamp[r] < c.stamp[i])
  {
    VictimBeforeMeans(c.bufs, c.order, |c.order|);
    var r := Victim(c);
    forall i | 0 <= i < NBUF && i != r && Idle(c.bufs[i])
      ensures r >= 0 && c.stamp[r] < c.stamp[i]
    {
      assert i in c.order;
      var q :| 0 <= q < NBUF && c.order[q] == i;
      var p :| LastIdle(c.bufs, c.order, NBUF, p) && c.order[p] == r;
      assert q < p;
    }
  }

  // ---------------------------------------------------------------- every operation keeps the invariant

  /** Changing the fields of one buffer leaves the other buffers' claims alone. */
  lemma OthersOk(c: Cache, d: Cache, i: nat)
    requires Coherent(c) && i < |c.bufs| && |d.bufs| == |c.bufs| && |d.disk| == |c.disk| == |d.latest|
    requires forall j :: 0 <= j < |c.bufs| && j != i ==> d.bufs[j] == c.bufs[j]
    requires forall b :: 0 <= b < |c.disk| && d.latest[b] != c.latest[b] ==> b == c.bufs[i].blockno
    requires forall j :: 0 <= j < |c.bufs| && j != i && c.bufs[j].valid ==> c.bufs[j].blockno != c.bufs[i].blockno
    ensures forall j :: 0 <= j < |c.bufs| && j != i ==> BufOk(d, d.bufs[j])
  {
    forall j | 0 <= j < |c.bufs| && j != i
      ensures BufOk(d, d.bufs[j])
    {
      assert BufOk(c, c.bufs[j]);
    }
  }

  /** A step that changes one buffer, but not which block is dirty in it, keeps coherence. */
  lemma OneBufChanged(c: Cache, d: Cache, i: nat)
    requires Coherent(c) && i < |c.bufs| == |d.bufs| && d.disk == c.disk && d.latest == c.latest
    requires forall j :: 0 <= j < |c.bufs| && j != i ==> d.bufs[j] == c.bufs[j]
    requires BufOk(d, d.bufs[i])
    requires d.bufs[i].dirty == c.bufs[i].dirty && (c.bufs[i].dirty ==> d.bufs[i].blockno == c.bufs[i].blockno)
    ensures Coherent(d)
  {
    forall j | 0 <= j < |c.bufs| && j != i
      ensures BufOk(d, d.bufs[j])
    {
      assert BufOk(c, c.bufs[j]);
    }
    forall b | 0 <= b < |c.disk| && !DirtyFor(d, b)
      ensures d.disk[b] == d.latest[b]
    {
      assert !DirtyFor(c, b);
    }
  }

  lemma GetKeepsInv(c: Cache, dev: nat, b: Word)
    requires CacheInv(c) && dev != 0 && Chosen(c, dev, b) >= 0
    ensures CacheInv(Get(c, dev, b))
  {
    LookupMeans(c, dev, b);
    VictimIsOldest(c);
    var i := Chosen(c, dev, b);
    assert BufOk(c, c.bufs[i]);
    OneBufChanged(c, Get(c, dev, b), i);
  }

  lemma AcquireKeepsInv(c: Cache, i: nat)
    requires CacheInv(c) && i < NBUF && !c.bufs[i].locked && c.bufs[i].refcnt > 0
    ensures CacheInv(Acquire(c, i))
  {
    assert BufOk(c, c.bufs[i]);
    OneBufChanged(c, Acquire(c, i), i);
  }

  lemma FillKeepsInv(c: Cache, i: nat)
    requires CacheInv(c) && i < NBUF && c.bufs[i].locked && OnDisk(c, c.bufs[i])
    ensures CacheInv(Fill(c, i))
  {
    assert BufOk(c, c.bufs[i]);
    OneBufChanged(c, Fill(c, i), i);
  }

  lemma StoreKeepsInv(c: Cache, i: nat, v: Block)
    requires CacheInv(c) && i < NBUF && c.bufs[i].locked
    ensures CacheInv(Store(c, i, v))
  {
    assert BufOk(c, c.bufs[i]);
    OneBufChanged(c, Store(c, i, v), i);
  }

  /** Two valid buffers hold different blocks. */
  lemma ValidDiffer(c: Cache, i: nat)
    requires Unique(c) && Coherent(c) && i < |c.bufs| && OnDisk(c, c.bufs[i])
    ensures forall j :: 0 <= j < |c.bufs| && j != i && c.bufs[j].valid ==> c.bufs[j].blockno != c.bufs[i].blockno
  {
    forall j | 0 <= j < |c.bufs| && j != i && c.bufs[j].valid
      ensures c.bufs[j].blockno != c.bufs[i].blockno
    {
      assert BufOk(c, c.bufs[j]);
    }
  }

  lemma BwriteKeepsInv(c: Cache, i: nat)
    requires CacheInv(c) && i < NBUF && c.bufs[i].locked && OnDisk(c, c.bufs[i])
    ensures CacheInv(Bwrite(c, i))
  {
    var d := Bwrite(c, i);
    assert BufOk(c, c.bufs[i]);
    ValidDiffer(c, i);
    OthersOk(c, d, i);
    forall b | 0 <= b < |c.disk| && !DirtyFor(d, b)
      ensures d.disk[b] == d.latest[b]
    {
      assert b != c.bufs[i].blockno ==> !DirtyFor(c, b);
    }
  }

  lemma PinKeepsInv(c: Cache, i: nat)
    requires CacheInv(c) && i < NBUF && c.bufs[i].locked && c.bufs[i].valid
    ensures OnDisk(c, c.bufs[i]) && CacheInv(Pin(c, i))
  {
    assert BufOk(c, c.bufs[i]);
    var d := Pin(c, i);
    ValidDiffer(c, i);
    OthersOk(c, d, i);
    forall b | 0 <= b < |c.disk| && !DirtyFor(d, b)
      ensures d.disk[b] == d.latest[b]
    {
      assert d.bufs[i].dirty && d.bufs[i].blockno == c.bufs[i].blockno;
      assert !DirtyFor(c, b);
    }
  }

  lemma BrelseKeepsList(c: Cache, i: nat)
    requires ListInv(c) && i < NBUF && c.bufs[i].refcnt > 0
    ensures i in c.order && ListInv(Brelse(c, i))
  {
    var k := Position(c.order, i);
    MoveToFrontPerm(c.order, NBUF, k);
    MoveToFrontOrdered(c.order, c.stamp, NBUF, k, c.clock);
  }

  /** The last release brings the buffer to the front, any other leaves the list alone. */
  lemma ReleaseMoves(c: Cache, i: nat)
    requires i < |c.bufs| == |c.stamp| && i in c.order && c.bufs[i].refcnt > 0
    ensures Brelse(c, i).bufs == c.bufs[i := c.bufs[i].(locked := false, refcnt := c.bufs[i].refcnt - 1)]
    ensures if c.bufs[i].refcnt > 1 then Brelse(c, i).order == c.order else ToFront(c.order, Brelse(c, i).order, i)
  {
    var k := Position(c.order, i);
    var x, y := c.order[..k], c.order[k + 1..];
    assert c.order == x + [i] + y;
    assert c.bufs[i].refcnt == 1 ==> Brelse(c, i).order == [i] + x + y;
  }

  lemma BrelseKeepsInv(c: Cache, i: nat)
    requires CacheInv(c) && i < NBUF && c.bufs[i].locked && Settled(c, i)
    ensures c.bufs[i].refcnt > 0 && i in c.order && CacheInv(Brelse(c, i))
    ensures Brelse(c, i).bufs == c.bufs[i := c.bufs[i].(locked := false, refcnt := c.bufs[i].refcnt - 1)]
    ensures if c.bufs[i].refcnt > 1 then Brelse(c, i).order == c.order else ToFront(c.order, Brelse(c, i).order, i)
  {
    hide ToFront;
    assert BufOk(c, c.bufs[i]);
    BrelseKeepsList(c, i);
    OneBufChanged(c, Brelse(c, i), i);
    ReleaseMoves(c, i);
  }

  /** `bread` hands out the content last logged or written, whether cached or not. */
  lemma BreadIsLatest(c: Cache, i: nat)
    requires CacheInv(c) && i < NBUF && !c.bufs[i].locked && OnDisk(c, c.bufs[i])
    ensures var x := Fill(Acquire(c, i), i).bufs[i];
            x.valid && x.locked && x.data == c.latest[x.blockno]
  {
    var x := c.bufs[i];
    assert BufOk(c, x);
    if !x.valid {
      forall j | 0 <= j < |c.bufs| && c.bufs[j].dirty
        ensures c.bufs[j].blockno != x.blockno
      {
        assert BufOk(c, c.bufs[j]);
      }
      assert !DirtyFor(c, x.blockno);
    }
  }
}
