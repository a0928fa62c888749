/** The cache seen from outside: the disk, the pinned blocks and who holds what. */
module CacheEffects {
  import opened Collections
  import opened Blocks
  import opened CacheModel

  /** Exactly the buffers in h are referenced: locked by somebody, or waited for. */
  predicate HeldExactly(c: Cache, h: set<nat>) {
    && (forall i :: i in h ==> i < |c.bufs|)
    && forall i :: 0 <= i < |c.bufs| ==> (c.bufs[i].refcnt > 0 <==> i in h)
  }

  /** The buffers in h are as they were. */
  predicate Undisturbed(c: Cache, d: Cache, h: set<nat>) {
    |d.bufs| == |c.bufs| && forall i :: i in h && i < |c.bufs| ==> d.bufs[i] == c.bufs[i]
  }

  function DirtyIndices(c: Cache): set<nat> {
    set i: nat | i < |c.bufs| && c.bufs[i].dirty
  }

  /** The blocks that may not be evicted. */
  function DirtyBlocks(c: Cache): set<Word> {
    set i: nat | i < |c.bufs| && c.bufs[i].dirty :: c.bufs[i].blockno
  }

  /** The overlay the log relies on. */
  ghost function Pinned(c: Cache): map<Word, Block>
    requires Coherent(c)
  {
    map b: Word | b in DirtyBlocks(c) && b < |c.latest| :: c.latest[b]
  }

  // ---------------------------------------------------------------- room for one more buffer

  lemma {:induction false} ImageCard(c: Cache, d: set<nat>)
    requires Unique(c) && Coherent(c) && forall i :: i in d ==> i < |c.bufs| && c.bufs[i].dirty
    ensures |d| <= |set i: nat | i in d && i < |c.bufs| :: c.bufs[i].blockno|
    decreases |d|
  {
    var img := set i: nat | i in d && i < |c.bufs| :: c.bufs[i].blockno;
    if d != {} {
      var x :| x in d;
      var e := d - {x};
      var rest := set i: nat | i in e && i < |c.bufs| :: c.bufs[i].blockno;
      ImageCard(c, e);
      forall i | i in e
        ensures c.bufs[i].blockno != c.bufs[x].blockno
      {
        assert BufOk(c, c.bufs[i]) && BufOk(c, c.bufs[x]);
      }
      assert img == rest + {c.bufs[x].blockno};
    }
  }

  function Below(n: nat): (s: set<nat>)
    ensures |s| == n && forall i :: i in s <==> 0 <= i < n
  {
    if n == 0 then {} else Below(n - 1) + {n - 1}
  }

  lemma DirtyCard(c: Cache)
    requires Unique(c) && Coherent(c)
    ensures |DirtyIndices(c)| <= |DirtyBlocks(c)|
  {
    ImageCard(c, DirtyIndices(c));
    assert DirtyBlocks(c) == set i: nat | i in DirtyIndices(c) && i < |c.bufs| :: c.bufs[i].blockno;
  }

  /** As long as the pinned blocks and the held buffers leave one over, `bget` succeeds. */
  lemma Room(c: Cache, h: set<nat>, b: Word)
    requires CacheInv(c) && HeldExactly(c, h) && |DirtyBlocks(c)| + |h| < NBUF
    ensures Chosen(c, DISK, b) >= 0
  {
    LookupMeans(c, DISK, b);
    VictimIsOldest(c);
    if Chosen(c, DISK, b) < 0 {
      var all := Below(NBUF);
      DirtyCard(c);
      assert all <= h + DirtyIndices(c);
      SubsetCard(all, h + DirtyIndices(c));
      UnionCard(h, DirtyIndices(c));
    }
  }

  lemma {:induction false} ImageAtMost(c: Cache, d: set<nat>)
    requires forall i :: i in d ==> i < |c.bufs|
    ensures |set i: nat | i in d && i < |c.bufs| :: c.bufs[i].blockno| <= |d|
    decreases |d|
  {
    var img := set i: nat | i in d && i < |c.bufs| :: c.bufs[i].blockno;
    if d != {} {
      var x :| x in d;
      var e := d - {x};
      var rest := set i: nat | i in e && i < |c.bufs| :: c.bufs[i].blockno;
      ImageAtMost(c, e);
      assert img == rest + {c.bufs[x].blockno};
    }
  }

  lemma AllIn(d: set<nat>, n: nat)
    requires (forall i :: i in d ==> i < n) && |d| >= n
    ensures forall i :: 0 <= i < n ==> i in d
  {
    FullSubset(d, Below(n));
  }

  /** `bget` fails exactly when every buffer is dirty or referenced and none has the block. */
  lemma RoomExactly(c: Cache, h: set<nat>, b: Word)
    requires CacheInv(c) && HeldExactly(c, h)
    ensures Chosen(c, DISK, b) < 0 <==>
            |DirtyIndices(c) + h| >= NBUF && forall i :: 0 <= i < NBUF ==> !Caches(c.bufs[i], DISK, b)
  {
    LookupMeans(c, DISK, b);
    VictimIsOldest(c);
    NoneIdle(c, h, |c.bufs|);
  }

  /** No buffer can be taken exactly when the dirty and the referenced ones are all there are. */
  lemma NoneIdle(c: Cache, h: set<nat>, n: nat)
    requires HeldExactly(c, h) && n == |c.bufs|
    ensures |DirtyIndices(c) + h| >= n <==> forall i :: 0 <= i < n ==> !Idle(c.bufs[i])
  {
    var d := DirtyIndices(c) + h;
    if |d| >= n {
      AllIn(d, n);
      forall i | 0 <= i < n
        ensures !Idle(c.bufs[i])
      {
        assert i in d;
      }
    } else if forall i :: 0 <= i < n ==> !Idle(c.bufs[i]) {
      AllTaken(d, n);
    }
  }

  lemma AllTaken(d: set<nat>, n: nat)
    requires forall i :: 0 <= i < n ==> i in d
    ensures |d| >= n
  {
    SubsetCard(Below(n), d);
  }

  /** Dirty buffers and pinned blocks are equally many. */
  lemma DirtyExactly(c: Cache)
    requires Unique(c) && Coherent(c)
    ensures |DirtyIndices(c)| == |DirtyBlocks(c)|
  {
    DirtyCard(c);
    ImageAtMost(c, DirtyIndices(c));
    assert DirtyBlocks(c) == set i: nat | i in DirtyIndices(c) && i < |c.bufs| :: c.bufs[i].blockno;
  }

  /** A pinned block is found in the cache. */
  lemma PinnedIsCached(c: Cache, b: Word)
    requires CacheInv(c) && b in DirtyBlocks(c)
    ensures Lookup(c, DISK, b) >= 0
  {
    LookupMeans(c, DISK, b);
    var i: nat :| i < |c.bufs| && c.bufs[i].dirty && c.bufs[i].blockno == b;
    assert BufOk(c, c.bufs[i]);
  }

  // ---------------------------------------------------------------- bread, bwrite and brelse from outside

  /** `bread` on a block nobody holds. */
  function Read(c: Cache, b: Word): Cache
    requires ListInv(c) && Chosen(c, DISK, b) >= 0 && b < |c.disk|
  {
    LookupMeans(c, DISK, b);
    var i := Chosen(c, DISK, b);
    Fill(Acquire(Get(c, DISK, b), i), i)
  }

  predicate NobodyHolds(c: Cache, h: set<nat>, b: Word) {
    forall i :: i in h && i < |c.bufs| ==> !Caches(c.bufs[i], DISK, b)
  }

  /** Same disk, same latest contents, same pinned blocks. */
  predicate SameOutside(c: Cache, d: Cache) {
    d.disk == c.disk && d.latest == c.latest && DirtyBlocks(d) == DirtyBlocks(c)
  }

  /** Block b was overwritten on disk and is no longer pinned; nothing else changed. */
  predicate Overwritten(c: Cache, d: Cache, b: Word, v: Block) {
    && b < |c.disk| == |c.latest|
    && d.disk == c.disk[b := v] && d.latest == c.latest[b := v] && DirtyBlocks(d) == DirtyBlocks(c) - {b}
  }

  lemma SameDirty(c: Cache, d: Cache, i: nat)
    requires i < |c.bufs| == |d.bufs| && d.bufs == c.bufs[i := d.bufs[i]]
    requires d.bufs[i].dirty == c.bufs[i].dirty && (c.bufs[i].dirty ==> d.bufs[i].blockno == c.bufs[i].blockno)
    ensures DirtyBlocks(d) == DirtyBlocks(c)
  {
    assert forall j :: 0 <= j < |c.bufs| && j != i ==> d.bufs[j] == c.bufs[j];
  }

  lemma ChosenBuf(c: Cache, h: set<nat>, b: Word)
    requires CacheInv(c) && HeldExactly(c, h) && NobodyHolds(c, h, b) && Chosen(c, DISK, b) >= 0
    ensures var i := Chosen(c, DISK, b); i < NBUF && i !in h && !c.bufs[i].locked && c.bufs[i].refcnt == 0
  {
    LookupMeans(c, DISK, b);
    VictimIsOldest(c);
    var i := Chosen(c, DISK, b);
    assert BufOk(c, c.bufs[i]);
  }

  lemma ReadKeepsInv(c: Cache, h: set<nat>, b: Word)
    requires CacheInv(c) && HeldExactly(c, h) && NobodyHolds(c, h, b) && Chosen(c, DISK, b) >= 0 && b < |c.disk|
    ensures CacheInv(Read(c, b)) && Read(c, b).bufs[Chosen(c, DISK, b)].data == c.latest[b]
  {
    ChosenBuf(c, h, b);
    LookupMeans(c, DISK, b);
    GetKeepsInv(c, DISK, b);
    var i := Chosen(c, DISK, b);
    var g := Get(c, DISK, b);
    AcquireKeepsInv(g, i);
    FillKeepsInv(Acquire(g, i), i);
    BreadIsLatest(g, i);
  }

  /** From outside, `bread` only takes a buffer and fills it with the latest content. */
  lemma ReadEffect(c: Cache, h: set<nat>, b: Word)
    requires CacheInv(c) && HeldExactly(c, h) && NobodyHolds(c, h, b) && Chosen(c, DISK, b) >= 0 && b < |c.disk|
    ensures var i, d := Chosen(c, DISK, b), Read(c, b);
            && CacheInv(d) && 0 <= i < NBUF && i !in h && HeldExactly(d, h + {i}) && SameOutside(c, d)
            && d.bufs == c.bufs[i := d.bufs[i]] && Holding(d, i, b)
  {
    ReadKeepsInv(c, h, b);
    ChosenBuf(c, h, b);
    LookupMeans(c, DISK, b);
    VictimIsOldest(c);
    SameDirty(c, Read(c, b), Chosen(c, DISK, b));
  }

  /** Overwrite a held buffer and write it to disk. */
  function Overwrite(c: Cache, i: nat, v: Block): Cache
    requires i < |c.bufs| && OnDisk(c, c.bufs[i]) && |c.latest| == |c.disk|
  {
    Bwrite(Store(c, i, v), i)
  }

  lemma OverwriteEffect(c: Cache, h: set<nat>, i: nat, v: Block)
    requires CacheInv(c) && HeldExactly(c, h) && i < NBUF && OnDisk(c, c.bufs[i]) && c.bufs[i].locked
    ensures var d, b := Overwrite(c, i, v), c.bufs[i].blockno;
            && CacheInv(d) && HeldExactly(d, h)
            && d.disk == c.disk[b := v] && d.latest == c.latest[b := v]
            && DirtyBlocks(d) == DirtyBlocks(c) - {b}
            && d.bufs == c.bufs[i := c.bufs[i].(valid := true, dirty := false, data := v)]
  {
    StoreKeepsInv(c, i, v);
    BwriteKeepsInv(Store(c, i, v), i);
    var d, b := Overwrite(c, i, v), c.bufs[i].blockno;
    ValidDiffer(c, i);
    assert forall j :: 0 <= j < NBUF && j != i ==> d.bufs[j] == c.bufs[j] && (c.bufs[j].dirty ==> BufOk(c, c.bufs[j]));
    assert DirtyBlocks(d) == DirtyBlocks(c) - {b};
  }

  lemma ReleaseEffect(c: Cache, h: set<nat>, i: nat)
    requires CacheInv(c) && HeldExactly(c, h) && i < NBUF && Settled(c, i)
    requires c.bufs[i].locked && c.bufs[i].refcnt == 1
    ensures i in c.order
    ensures var d := Brelse(c, i);
            CacheInv(d) && HeldExactly(d, h - {i}) && SameOutside(c, d) && d.bufs == c.bufs[i := d.bufs[i]]
  {
    BrelseKeepsInv(c, i);
    SameDirty(c, Brelse(c, i), i);
  }

  // ---------------------------------------------------------------- copying one block to another

  /** Buffer i is held by one, caches block b and has its latest content. */
  predicate Holding(c: Cache, i: nat, b: Word) {
    && i < |c.bufs| && b < |c.latest| && c.bufs[i].locked && c.bufs[i].refcnt == 1
    && Caches(c.bufs[i], DISK, b) && c.bufs[i].valid && c.bufs[i].data == c.latest[b]
  }

  /** While others reference the buffers in h, a first block can be read and then a second, if the
      first finds a buffer: nobody has either, and the second is pinned or there is room. */
  predicate SecondFits(c: Cache, h: set<nat>, a: Word, b: Word) {
    && a != b && a < |c.disk| && b < |c.disk| && NobodyHolds(c, h, a) && NobodyHolds(c, h, b)
    && (b in DirtyBlocks(c) || |DirtyBlocks(c)| + |h| + 1 < NBUF)
  }

  lemma SecondIsFound(c: Cache, h: set<nat>, i: nat, a: Word, b: Word)
    requires CacheInv(c) && i !in h && HeldExactly(c, h + {i}) && Holding(c, i, a) && SecondFits(c, h, a, b)
    ensures NobodyHolds(c, h + {i}, b) && Chosen(c, DISK, b) >= 0
  {
    if b in DirtyBlocks(c) {
      PinnedIsCached(c, b);
    } else {
      Room(c, h + {i}, b);
    }
  }

  lemma ReadFirst(c: Cache, h: set<nat>, a: Word, b: Word)
    requires CacheInv(c) && HeldExactly(c, h) && SecondFits(c, h, a, b) && Chosen(c, DISK, a) >= 0
    ensures var i, d := Chosen(c, DISK, a), Read(c, a);
            && CacheInv(d) && i !in h && HeldExactly(d, h + {i}) && Holding(d, i, a) && SameOutside(c, d)
            && Undisturbed(c, d, h) && SecondFits(d, h, a, b)
  {
    ReadEffect(c, h, a);
  }

  lemma ReadSecond(c: Cache, h: set<nat>, i: nat, a: Word, b: Word)
    requires CacheInv(c) && i !in h && HeldExactly(c, h + {i}) && Holding(c, i, a) && SecondFits(c, h, a, b)
    ensures NobodyHolds(c, h + {i}, b) && Chosen(c, DISK, b) >= 0
    ensures var j, d := Chosen(c, DISK, b), Read(c, b);
            && CacheInv(d) && i != j && j !in h && HeldExactly(d, h + {i, j}) && SameOutside(c, d)
            && Holding(d, i, a) && Holding(d, j, b) && Undisturbed(c, d, h)
  {
    SecondIsFound(c, h, i, a, b);
    ReadEffect(c, h + {i}, b);
    assert h + {i} + {Chosen(c, DISK, b)} == h + {i, Chosen(c, DISK, b)};
  }

  /** The last of two held buffers is given up. */
  lemma ReleaseOf(c: Cache, h: set<nat>, i: nat, b: Word)
    requires CacheInv(c) && i !in h && HeldExactly(c, h + {i}) && Holding(c, i, b)
    ensures i in c.order
    ensures var d := Brelse(c, i);
            && CacheInv(d) && HeldExactly(d, h) && SameOutside(c, d) && Undisturbed(c, d, h)
            && d.bufs == c.bufs[i := d.bufs[i]]
  {
    ReleaseEffect(c, h + {i}, i);
    assert h + {i} - {i} == h;
  }

  lemma OverwriteHeld(c: Cache, h: set<nat>, i: nat, b: Word, v: Block)
    requires CacheInv(c) && HeldExactly(c, h) && Holding(c, i, b) && i < NBUF
    ensures OnDisk(c, c.bufs[i])
    ensures var d := Overwrite(c, i, v);
            && CacheInv(d) && HeldExactly(d, h) && Overwritten(c, d, b, v) && Holding(d, i, b)
            && d.bufs == c.bufs[i := d.bufs[i]]
  {
    assert BufOk(c, c.bufs[i]);
    OverwriteEffect(c, h, i, v);
  }

  /** Both buffers held, copy src over dst, write dst, release src and then dst. */
  lemma CopyHeld(c: Cache, h: set<nat>, src: nat, dst: nat, a: Word, b: Word)
    requires CacheInv(c) && src != dst && src !in h && dst !in h && HeldExactly(c, h + {src, dst}) && a != b
    requires Holding(c, src, a) && Holding(c, dst, b)
    ensures src < NBUF && dst < NBUF && OnDisk(c, c.bufs[dst])
    ensures var d := Overwrite(c, dst, c.latest[a]);
            && CacheInv(d) && Holding(d, src, a) && src in d.order
            && var e := Brelse(d, src);
               && CacheInv(e) && Holding(e, dst, b) && dst in e.order
               && var f := Brelse(e, dst);
                  && CacheInv(f) && HeldExactly(f, h) && Overwritten(c, f, b, c.latest[a]) && Undisturbed(c, f, h)
  {
    hide Unique, HeldExactly, Coherent;
    OverwriteHeld(c, h + {src, dst}, dst, b, c.latest[a]);
    var d := Overwrite(c, dst, c.latest[a]);
    assert h + {src, dst} == h + {dst} + {src};
    ReleaseOf(d, h + {dst}, src, a);
    var e := Brelse(d, src);
    ReleaseOf(e, h, dst, b);
  }
}
