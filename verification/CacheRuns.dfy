/** The buffer cache over whole runs: reference counts, locks and the recency order, each told from
    the history of calls alone. */
module CacheRuns {
  import opened Blocks
  import opened LruList
  import opened CacheModel

  /** What processes do to the cache, one call or one part of a call after the other. */
  datatype Op =
    | Take(b: Word)
    | Lock(i: nat)
    | Load(i: nat)
    | Change(i: nat, v: Block)
    | Write(i: nat)
    | Mark(i: nat)
    | Release(i: nat)

  ghost predicate Enabled(c: Cache, a: Op)
    requires CacheInv(c)
  {
    match a
    case Take(b) => Chosen(c, DISK, b) >= 0
    case Lock(i) => i < NBUF && !c.bufs[i].locked && c.bufs[i].refcnt > 0
    case Load(i) => i < NBUF && c.bufs[i].locked && OnDisk(c, c.bufs[i])
    case Change(i, v) => i < NBUF && c.bufs[i].locked
    case Write(i) => i < NBUF && c.bufs[i].locked && OnDisk(c, c.bufs[i])
    case Mark(i) => i < NBUF && c.bufs[i].locked && c.bufs[i].valid && OnDisk(c, c.bufs[i])
    case Release(i) => i < NBUF && c.bufs[i].locked && Settled(c, i) && c.bufs[i].refcnt > 0 && i in c.order
  }

  ghost function Apply(c: Cache, a: Op): Cache
    requires CacheInv(c) && Enabled(c, a)
  {
    match a
    case Take(b) => Get(c, DISK, b)
    case Lock(i) => Acquire(c, i)
    case Load(i) => Fill(c, i)
    case Change(i, v) => Store(c, i, v)
    case Write(i) => Bwrite(c, i)
    case Mark(i) => Pin(c, i)
    case Release(i) => Brelse(c, i)
  }

  lemma ApplyKeeps(c: Cache, a: Op)
    requires CacheInv(c) && Enabled(c, a)
    ensures CacheInv(Apply(c, a))
  {
    hide CacheInv;
    match a
    case Take(b) => GetKeepsInv(c, DISK, b);
    case Lock(i) => AcquireKeepsInv(c, i);
    case Load(i) => FillKeepsInv(c, i);
    case Change(i, v) => StoreKeepsInv(c, i, v);
    case Write(i) => BwriteKeepsInv(c, i);
    case Mark(i) => PinKeepsInv(c, i);
    case Release(i) => BrelseKeepsInv(c, i);
  }

  /** A run from `binit` on. */
  ghost predicate IsRun(cs: seq<Cache>, ops: seq<Op>) {
    && |cs| == |ops| + 1 && (exists image :: cs[0] == Empty(image))
    && forall k :: 0 <= k < |ops| ==> CacheInv(cs[k]) && Enabled(cs[k], ops[k]) && cs[k + 1] == Apply(cs[k], ops[k])
  }

  lemma {:induction false} RunInv(cs: seq<Cache>, ops: seq<Op>, k: nat)
    requires IsRun(cs, ops) && k < |cs|
    ensures CacheInv(cs[k])
  {
    hide CacheInv, Enabled, Apply, Empty;
    if k == 0 {
      var image :| cs[0] == Empty(image);
      EmptyInv(image);
    } else {
      ApplyKeeps(cs[k - 1], ops[k - 1]);
    }
  }

  // ---------------------------------------------------------------- counting calls

  /** The call takes a reference to buffer i. */
  ghost predicate Takes(c: Cache, a: Op, i: nat)
    requires CacheInv(c)
  {
    a.Take? && Chosen(c, DISK, a.b) == i
  }

  /** Calls so far that took buffer i, less those that gave it up. */
  ghost function Holders(cs: seq<Cache>, ops: seq<Op>, k: nat, i: nat): int
    requires IsRun(cs, ops) && k <= |ops|
  {
    if k == 0 then 0
    else
      Holders(cs, ops, k - 1, i) + (if Takes(cs[k - 1], ops[k - 1], i) then 1 else 0)
      - (if ops[k - 1] == Release(i) then 1 else 0)
  }

  lemma CountStep(c: Cache, a: Op, i: nat)
    requires CacheInv(c) && Enabled(c, a) && i < NBUF
    ensures i < |Apply(c, a).bufs|
    ensures Apply(c, a).bufs[i].refcnt ==
            c.bufs[i].refcnt + (if Takes(c, a, i) then 1 else 0) - (if a == Release(i) then 1 else 0)
  {
    if a.Take? {
      LookupMeans(c, DISK, a.b);
      VictimIsOldest(c);
    }
  }

  /** In every run a reference count is the number of calls that hold the buffer. */
  lemma {:induction false} CountsExactly(cs: seq<Cache>, ops: seq<Op>, k: nat, i: nat)
    requires IsRun(cs, ops) && k <= |ops| && i < NBUF
    ensures i < |cs[k].bufs| && cs[k].bufs[i].refcnt == Holders(cs, ops, k, i)
  {
    hide CacheInv, Enabled, Apply;
    if k > 0 {
      CountsExactly(cs, ops, k - 1, i);
      CountStep(cs[k - 1], ops[k - 1], i);
    }
  }

  /** The last call on buffer i's lock was the one that acquired it. */
  predicate Holds(ops: seq<Op>, k: nat, i: nat)
    requires k <= |ops|
  {
    k > 0 && (ops[k - 1] == Lock(i) || (ops[k - 1] != Release(i) && Holds(ops, k - 1, i)))
  }

  lemma LockStep(c: Cache, a: Op, i: nat)
    requires CacheInv(c) && Enabled(c, a) && i < NBUF
    ensures i < |Apply(c, a).bufs|
    ensures Apply(c, a).bufs[i].locked == (a == Lock(i) || (a != Release(i) && c.bufs[i].locked))
  {
  }

  /** In every run a buffer is locked from `acquiresleep` to `brelse`. */
  lemma {:induction false} LockedExactly(cs: seq<Cache>, ops: seq<Op>, k: nat, i: nat)
    requires IsRun(cs, ops) && k <= |ops| && i < NBUF
    ensures i < |cs[k].bufs| && cs[k].bufs[i].locked == Holds(ops, k, i)
  {
    hide CacheInv, Enabled, Apply;
    if k > 0 {
      LockedExactly(cs, ops, k - 1, i);
      LockStep(cs[k - 1], ops[k - 1], i);
    }
  }

  // ---------------------------------------------------------------- recency

  /** Call j gave up the last reference to buffer i. */
  ghost predicate Final(cs: seq<Cache>, ops: seq<Op>, j: nat, i: nat)
    requires IsRun(cs, ops) && j < |ops|
  {
    ops[j] == Release(i) && Holders(cs, ops, j + 1, i) == 0
  }

  /** When buffer i was last given up for good; buffers never used come before, in their order. */
  ghost function LastUse(cs: seq<Cache>, ops: seq<Op>, k: nat, i: nat): int
    requires IsRun(cs, ops) && k <= |ops|
  {
    if k == 0 then i - NBUF
    else if Final(cs, ops, k - 1, i) then k - 1
    else LastUse(cs, ops, k - 1, i)
  }

  lemma {:induction false} UsedBefore(cs: seq<Cache>, ops: seq<Op>, k: nat, i: nat)
    requires IsRun(cs, ops) && k <= |ops| && i < NBUF
    ensures LastUse(cs, ops, k, i) < k
  {
    hide Final, IsRun;
    if k > 0 {
      UsedBefore(cs, ops, k - 1, i);
    }
  }

  /** Only giving up the last reference moves a buffer, and that makes it the most recent. */
  lemma StampStep(c: Cache, a: Op, i: nat)
    requires CacheInv(c) && Enabled(c, a) && i < NBUF
    ensures i < |Apply(c, a).stamp| && i < |Apply(c, a).bufs|
    ensures a == Release(i) && Apply(c, a).bufs[i].refcnt == 0 ==>
              forall j :: 0 <= j < NBUF ==> c.stamp[j] < Apply(c, a).stamp[i]
    ensures !(a == Release(i) && Apply(c, a).bufs[i].refcnt == 0) ==> Apply(c, a).stamp[i] == c.stamp[i]
  {
  }

  ghost predicate StampsAgree(cs: seq<Cache>, ops: seq<Op>, k: nat, i: nat, j: nat)
    requires IsRun(cs, ops) && k <= |ops|
  {
    && i < |cs[k].stamp| && j < |cs[k].stamp|
    && (cs[k].stamp[i] < cs[k].stamp[j] <==> LastUse(cs, ops, k, i) < LastUse(cs, ops, k, j))
  }

  lemma {:induction false} StampsTell(cs: seq<Cache>, ops: seq<Op>, k: nat, i: nat, j: nat)
    requires IsRun(cs, ops) && k <= |ops| && i < NBUF && j < NBUF
    ensures StampsAgree(cs, ops, k, i, j)
  {
    hide CacheInv, Enabled, Apply, Holders, Takes;
    if k > 0 {
      var n := k - 1;
      StampsTell(cs, ops, n, i, j);
      StampStep(cs[n], ops[n], i);
      StampStep(cs[n], ops[n], j);
      CountsExactly(cs, ops, k, i);
      CountsExactly(cs, ops, k, j);
      UsedBefore(cs, ops, n, i);
      UsedBefore(cs, ops, n, j);
    }
  }

  /** In every run the list has the buffers most recently given up first. */
  lemma ListIsRecency(cs: seq<Cache>, ops: seq<Op>, k: nat, x: nat, y: nat)
    requires IsRun(cs, ops) && k <= |ops| && x < y < |cs[k].order|
    ensures Perm(cs[k].order, NBUF)
    ensures LastUse(cs, ops, k, cs[k].order[x]) > LastUse(cs, ops, k, cs[k].order[y])
  {
    hide Enabled, Apply, LastUse;
    RunInv(cs, ops, k);
    StampsTell(cs, ops, k, cs[k].order[y], cs[k].order[x]);
  }

  /** Buffer i can be recycled: nobody holds it and it is not dirty. */
  ghost predicate Recyclable(cs: seq<Cache>, ops: seq<Op>, k: nat, i: nat)
    requires IsRun(cs, ops) && k <= |ops|
  {
    i < |cs[k].bufs| && Holders(cs, ops, k, i) == 0 && !cs[k].bufs[i].dirty
  }

  /** In every run `bget` recycles, of the buffers it can, the one that was given up longest ago. */
  lemma VictimIsLeastRecent(cs: seq<Cache>, ops: seq<Op>, k: nat)
    requires IsRun(cs, ops) && k <= |ops|
    ensures OrderOk(cs[k].bufs, cs[k].order) && |cs[k].bufs| == NBUF
    ensures Victim(cs[k]) < 0 <==> forall i :: 0 <= i < NBUF ==> !Recyclable(cs, ops, k, i)
    ensures var r := Victim(cs[k]);
            r >= 0 ==>
              && Recyclable(cs, ops, k, r)
              && forall i :: 0 <= i < NBUF && i != r && Recyclable(cs, ops, k, i) ==>
                   LastUse(cs, ops, k, r) < LastUse(cs, ops, k, i)
  {
    hide Enabled, Apply, LastUse, Holders, Victim;
    RunInv(cs, ops, k);
    VictimIsOldest(cs[k]);
    forall i | 0 <= i < NBUF
      ensures Recyclable(cs, ops, k, i) <==> Idle(cs[k].bufs[i])
    {
      CountsExactly(cs, ops, k, i);
    }
    var r := Victim(cs[k]);
    if r >= 0 {
      forall i | 0 <= i < NBUF && i != r && Recyclable(cs, ops, k, i)
        ensures LastUse(cs, ops, k, r) < LastUse(cs, ops, k, i)
      {
        StampsTell(cs, ops, k, r, i);
      }
    }
  }

  /** One release: the last one brings the buffer to the front and keeps the others in order, any other
      leaves the list alone; only this buffer changes. */
  lemma ReleaseEffect(c: Cache, i: nat)
    requires CacheInv(c) && Enabled(c, Release(i))
    ensures var d := Apply(c, Release(i));
            && |d.order| == |c.order| == NBUF
            && d.bufs == c.bufs[i := c.bufs[i].(locked := false, refcnt := c.bufs[i].refcnt - 1)]
            && d.disk == c.disk && d.latest == c.latest
            && if c.bufs[i].refcnt > 1 then d.order == c.order else ToFront(c.order, d.order, i)
  {
    hide ToFront;
    ReleaseMoves(c, i);
  }
}
