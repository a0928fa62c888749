/** The log on top of the buffer cache, as the kernel runs it.

`m` is the state of the protocol machine; every method is a sequence of its
steps, so each intermediate disk is one that module `LogRuns` speaks about.
`h` is the set of buffers that other processes, readers for instance, reference
meanwhile; whether the cache runs out of buffers depends on it.
*/
module LogDevice {
  import opened Collections
  import opened Blocks
  import opened Log
  import opened LogMachine
  import opened LogProofs
  import opened CacheModel
  import opened CacheEffects
  import opened BufferCache

  // ---------------------------------------------------------------- block copies through the cache

  /** `bread(a); bread(b)` while others reference the buffers in h; i < 0 is the panic of the first. */
  method ReadPair(cache: BCache, a: Word, b: Word, ghost h: set<nat>) returns (i: int, j: int)
    requires cache.Valid() && HeldExactly(cache.Model(), h) && SecondFits(cache.Model(), h, a, b)
    modifies cache
    ensures cache.Valid() && i == old(Chosen(cache.Model(), DISK, a))
    ensures i < 0 ==> cache.Model() == old(cache.Model())
    ensures i >= 0 ==> j >= 0 && i != j && i !in h && j !in h && HeldExactly(cache.Model(), h + {i, j})
    ensures i >= 0 ==> Holding(cache.Model(), i, a) && Holding(cache.Model(), j, b)
    ensures i >= 0 ==>
              SameOutside(old(cache.Model()), cache.Model()) && Undisturbed(old(cache.Model()), cache.Model(), h)
  {
    hide CacheInv, HeldExactly, SecondFits, Holding, Chosen, Read, LruList.Linked;
    ghost var c := cache.Model();
    FirstReadable(c, h, a, b);
    i := cache.Bread(a, h);
    if i >= 0 {
      ReadFirst(c, h, a, b);
      SecondReadable(cache.Model(), h, a, b);
      ReadSecond(cache.Model(), h, i, a, b);
      j := cache.Bread(b, h + {i});
    } else {
      j := -1;
    }
  }

  lemma FirstReadable(c: Cache, h: set<nat>, a: Word, b: Word)
    requires SecondFits(c, h, a, b)
    ensures a < |c.disk| && NobodyHolds(c, h, a)
  {
  }

  lemma SecondReadable(c: Cache, h: set<nat>, a: Word, b: Word)
    requires SecondFits(c, h, a, b)
    ensures b < |c.disk|
  {
  }

  /** `memmove` from one held buffer to another, `bwrite` the target, release both. */
  method CopyAndRelease(cache: BCache, src: nat, dst: nat, ghost a: Word, ghost b: Word, ghost h: set<nat>)
    requires cache.Valid() && src != dst && src !in h && dst !in h && a != b
    requires HeldExactly(cache.Model(), h + {src, dst})
    requires Holding(cache.Model(), src, a) && Holding(cache.Model(), dst, b)
    modifies cache
    ensures cache.Valid() && HeldExactly(cache.Model(), h) && Undisturbed(old(cache.Model()), cache.Model(), h)
    ensures Overwritten(old(cache.Model()), cache.Model(), b, old(cache.latest[a]))
  {
    hide HeldExactly, LruList.Linked, Unique, ListInv;
    CopyHeld(cache.Model(), h, src, dst, a, b);
    cache.Put(dst, cache.bufs[src].data);
    cache.WriteBack(dst);
    cache.Release(src);
    cache.Release(dst);
  }

  /** Copy block b over block a: the loop body of `write_log`, which reads the target first. */
  method CopyIntoFirst(cache: BCache, a: Word, b: Word, ghost h: set<nat>) returns (ok: bool)
    requires cache.Valid() && HeldExactly(cache.Model(), h) && SecondFits(cache.Model(), h, a, b)
    modifies cache
    ensures cache.Valid() && HeldExactly(cache.Model(), h) && Undisturbed(old(cache.Model()), cache.Model(), h)
    ensures ok <==> old(Chosen(cache.Model(), DISK, a)) >= 0
    ensures !ok ==> cache.Model() == old(cache.Model())
    ensures ok ==> old(b < |cache.latest|) && Overwritten(old(cache.Model()), cache.Model(), a, old(cache.latest[b]))
  {
    hide HeldExactly, LruList.Linked, ListInv, Unique, Chosen;
    var to, from := ReadPair(cache, a, b, h);
    if to < 0 {
      return false;
    }
    assert {to, from} == {from, to};
    CopyAndRelease(cache, from, to, b, a, h);
    return true;
  }

  /** Copy block a over block b: the loop body of `install_trans`, which reads the source first. */
  method CopyIntoSecond(cache: BCache, a: Word, b: Word, ghost h: set<nat>) returns (ok: bool)
    requires cache.Valid() && HeldExactly(cache.Model(), h) && SecondFits(cache.Model(), h, a, b)
    modifies cache
    ensures cache.Valid() && HeldExactly(cache.Model(), h) && Undisturbed(old(cache.Model()), cache.Model(), h)
    ensures ok <==> old(Chosen(cache.Model(), DISK, a)) >= 0
    ensures !ok ==> cache.Model() == old(cache.Model())
    ensures ok ==> old(a < |cache.latest|) && Overwritten(old(cache.Model()), cache.Model(), b, old(cache.latest[a]))
  {
    hide HeldExactly, LruList.Linked, ListInv, Unique, Chosen;
    var lbuf, dbuf := ReadPair(cache, a, b, h);
    if lbuf < 0 {
      return false;
    }
    CopyAndRelease(cache, lbuf, dbuf, a, b, h);
    return true;
  }

  /** `bread(a)` while others reference the buffers in h. */
  method ReadHeld(cache: BCache, a: Word, ghost h: set<nat>) returns (i: int)
    requires cache.Valid() && HeldExactly(cache.Model(), h) && a < |cache.disk| && NobodyHolds(cache.Model(), h, a)
    modifies cache
    ensures cache.Valid() && i == old(Chosen(cache.Model(), DISK, a))
    ensures Undisturbed(old(cache.Model()), cache.Model(), h)
    ensures i < 0 ==> cache.Model() == old(cache.Model())
    ensures i >= 0 ==> i !in h && HeldExactly(cache.Model(), h + {i}) && Holding(cache.Model(), i, a)
    ensures i >= 0 ==> SameOutside(old(cache.Model()), cache.Model())
  {
    hide Chosen, LruList.Linked;
    ghost var c := cache.Model();
    i := cache.Bread(a, h);
    if i >= 0 {
      ReadEffect(c, h, a);
    }
  }

  /** Replace the content of a held buffer, `bwrite`, `brelse`. */
  method WriteAndRelease(cache: BCache, i: nat, ghost a: Word, v: Block, ghost h: set<nat>)
    requires cache.Valid() && i !in h && HeldExactly(cache.Model(), h + {i}) && Holding(cache.Model(), i, a)
    modifies cache
    ensures cache.Valid() && HeldExactly(cache.Model(), h) && Undisturbed(old(cache.Model()), cache.Model(), h)
    ensures Overwritten(old(cache.Model()), cache.Model(), a, v)
  {
    hide HeldExactly, LruList.Linked, Unique;
    OverwriteHeld(cache.Model(), h + {i}, i, a, v);
    cache.Put(i, v);
    cache.WriteBack(i);
    ReleaseOf(cache.Model(), h, i, a);
    cache.Release(i);
  }

  method JustRelease(cache: BCache, i: nat, ghost a: Word, ghost h: set<nat>)
    requires cache.Valid() && i !in h && HeldExactly(cache.Model(), h + {i}) && Holding(cache.Model(), i, a)
    modifies cache
    ensures cache.Valid() && HeldExactly(cache.Model(), h) && Undisturbed(old(cache.Model()), cache.Model(), h)
    ensures SameOutside(old(cache.Model()), cache.Model())
  {
    hide HeldExactly, LruList.Linked, Unique;
    ReleaseOf(cache.Model(), h, i, a);
    cache.Release(i);
  }

  // ---------------------------------------------------------------- the cache as the protocol sees it

  ghost predicate Represents(c: Cache, s: State) {
    Coherent(c) && s.disk == c.disk && s.pinned == Pinned(c)
  }

  lemma PinnedKeys(c: Cache, s: State)
    requires Represents(c, s)
    ensures forall b :: b in s.pinned <==> b in DirtyBlocks(c)
  {
    forall b: Word | b in DirtyBlocks(c)
      ensures b < |c.latest|
    {
      var i: nat :| i < |c.bufs| && c.bufs[i].dirty && c.bufs[i].blockno == b;
      assert BufOk(c, c.bufs[i]);
    }
  }

  /** What a reader gets from the cache is what the protocol calls its view. */
  lemma ViewIsLatest(c: Cache, s: State, b: Word)
    requires Represents(c, s) && b < |c.disk|
    ensures View(s, b) == c.latest[b]
  {
    PinnedKeys(c, s);
    if b !in s.pinned {
      forall i: nat | i < |c.bufs| && c.bufs[i].dirty
        ensures c.bufs[i].blockno != b
      {
        assert c.bufs[i].blockno in DirtyBlocks(c);
      }
      assert !DirtyFor(c, b);
    }
  }

  /** Writing one block through the cache is writing it in the protocol state. */
  lemma RepresentsWrite(c: Cache, s: State, d: Cache, b: Word, v: Block)
    requires Represents(c, s) && Coherent(d) && Overwritten(c, d, b, v)
    ensures Represents(d, s.(disk := s.disk[b := v], pinned := s.pinned - {b}))
  {
    assert Pinned(d) == s.pinned - {b};
  }

  lemma DirtyFewerThanLogged(l: Layout, c: Cache, s: State)
    requires Represents(c, s) && Shape(l, s)
    ensures |DirtyBlocks(c)| <= |s.lh|
  {
    PinnedKeys(c, s);
    SubsetCard(DirtyBlocks(c), Elements(s.lh));
  }

  // ---------------------------------------------------------------- sequences of protocol steps

  /** The state k disk writes of the committer (or of recovery) later. */
  ghost function After(l: Layout, s: State, k: nat): State {
    if k == 0 then s
    else
      var t := After(l, s, k - 1);
      if CanAdvance(l, t) then Advance(l, t) else t
  }

  lemma {:induction false} AfterAdd(l: Layout, s: State, j: nat, k: nat)
    ensures After(l, After(l, s, j), k) == After(l, s, j + k)
  {
    hide CanAdvance, Advance;
    if k > 0 {
      AfterAdd(l, s, j, k - 1);
    }
  }

  /** Every intermediate state of a commit satisfies the protocol invariant. */
  lemma {:induction false} AfterInv(l: Layout, base: Disk, s: State, k: nat)
    requires Inv(l, base, s)
    ensures Inv(l, base, After(l, s, k))
  {
    if k > 0 {
      AfterInv(l, base, s, k - 1);
      var t := After(l, s, k - 1);
      if CanAdvance(l, t) {
        AdvanceKeepsInv(l, base, t);
      }
    }
  }

  // ---------------------------------------------------------------- each block copy is one protocol step

  /** The buffers others reference hold no block of the log and no listed block. */
  predicate Elsewhere(c: Cache, h: set<nat>, l: Layout, lh: seq<Word>) {
    forall i :: i in h && i < |c.bufs| && c.bufs[i].dev == DISK ==>
      !InLog(l, c.bufs[i].blockno) && c.bufs[i].blockno !in lh
  }

  lemma StillElsewhere(c: Cache, d: Cache, h: set<nat>, l: Layout, lh: seq<Word>)
    requires Elsewhere(c, h, l, lh) && Undisturbed(c, d, h)
    ensures Elsewhere(d, h, l, lh)
  {
  }

  lemma WriteLogFits(l: Layout, base: Disk, c: Cache, s: State, h: set<nat>)
    requires Represents(c, s) && Inv(l, base, s) && s.phase.WritingLog? && s.phase.tail < |s.lh|
    requires Elsewhere(c, h, l, s.lh) && l.start + l.size <= 0x1_0000_0000
    ensures l.start + 1 + s.phase.tail < 0x1_0000_0000 && InLog(l, l.start + 1 + s.phase.tail)
    ensures SecondFits(c, h, l.start + 1 + s.phase.tail, s.lh[s.phase.tail])
    ensures s.lh[s.phase.tail] < |c.latest| && c.latest[s.lh[s.phase.tail]] == View(s, s.lh[s.phase.tail])
    ensures Shape(l, s) && CanAdvance(l, s)
  {
    hide Recoverable, HistoryInv, Budget, ViewIsReplay;
    PinnedKeys(c, s);
    ViewIsLatest(c, s, s.lh[s.phase.tail]);
  }

  lemma WriteLogRefines(l: Layout, c: Cache, s: State, d: Cache, a: Word, v: Block)
    requires Represents(c, s) && Shape(l, s) && s.phase.WritingLog? && s.phase.tail < |s.lh|
    requires a == l.start + 1 + s.phase.tail && v == View(s, s.lh[s.phase.tail])
    requires Coherent(d) && Overwritten(c, d, a, v)
    ensures Represents(d, Advance(l, s))
  {
    RepresentsWrite(c, s, d, a, v);
    assert s.pinned - {a} == s.pinned;
  }

  /** Log blocks and the header are never pinned, so the cache agrees with the disk on them. */
  lemma LogBlockIsOnDisk(l: Layout, c: Cache, s: State, a: Word)
    requires Represents(c, s) && Shape(l, s) && InLog(l, a)
    ensures a < |c.disk| && c.latest[a] == s.disk[a] && a !in s.pinned
  {
    ViewIsLatest(c, s, a);
  }

  lemma InstallFits(l: Layout, c: Cache, s: State, h: set<nat>, a: Word)
    requires Represents(c, s) && Shape(l, s) && s.phase.Installing? && s.phase.tail < |s.lh|
    requires InstallInv(l, s, s.phase.tail) && Elsewhere(c, h, l, s.lh)
    requires a == l.start + 1 + s.phase.tail
    requires s.committing || (s.pinned == map[] && |h| + 1 < NBUF)
    ensures SecondFits(c, h, a, s.lh[s.phase.tail]) && a < |c.latest| && c.latest[a] == Logged(l, s.disk, s.phase.tail)
  {
    PinnedKeys(c, s);
    LogBlockIsOnDisk(l, c, s, a);
    if s.pinned == map[] {
      assert DirtyBlocks(c) == {};
    }
  }

  lemma InstallReady(l: Layout, base: Disk, c: Cache, s: State, h: set<nat>, a: int)
    requires Represents(c, s) && Inv(l, base, s) && s.phase.Installing? && s.phase.tail < |s.lh|
    requires a == l.start + 1 + s.phase.tail && l.start + l.size <= 0x1_0000_0000 && Elsewhere(c, h, l, s.lh)
    requires s.committing || (s.pinned == map[] && |h| + 1 < NBUF)
    ensures 0 <= a < |s.disk| && a < 0x1_0000_0000 && InLog(l, a) && Shape(l, s) && CanAdvance(l, s)
    ensures SecondFits(c, h, a, s.lh[s.phase.tail]) && a < |c.latest| && c.latest[a] == Logged(l, s.disk, s.phase.tail)
  {
    hide Recoverable, HistoryInv, Budget, Recover, Represents, Coherent, SecondFits, Distinct, DirtyBlocks, IsHome;
    hide Elsewhere;
    InstallFits(l, c, s, h, a);
  }

  /** While fewer blocks are pinned than others leave buffers, every read finds one. */
  lemma PinnedLeaveRoom(c: Cache, s: State, h: set<nat>, a: Word)
    requires CacheInv(c) && HeldExactly(c, h) && Represents(c, s) && |s.pinned| + |h| < NBUF
    ensures Chosen(c, DISK, a) >= 0
  {
    hide Chosen;
    PinnedKeys(c, s);
    assert DirtyBlocks(c) == s.pinned.Keys;
    Room(c, h, a);
  }

  lemma InstallRefines(l: Layout, c: Cache, s: State, d: Cache, v: Block)
    requires Represents(c, s) && Shape(l, s) && s.phase.Installing? && s.phase.tail < |s.lh|
    requires v == Logged(l, s.disk, s.phase.tail)
    requires Coherent(d) && Overwritten(c, d, s.lh[s.phase.tail], v)
    ensures Represents(d, Advance(l, s))
  {
    RepresentsWrite(c, s, d, s.lh[s.phase.tail], v);
  }

  /** Writing the header is the step after the last block. */
  predicate AtHeader(s: State) {
    (s.phase.WritingLog? || s.phase.Installing?) && s.phase.tail == |s.lh|
  }

  lemma HeadRefines(l: Layout, c: Cache, s: State, d: Cache, a: Word, v: Block)
    requires Represents(c, s) && Shape(l, s) && AtHeader(s) && a == l.start
    requires v == WriteHead(s.disk[a], if s.phase.WritingLog? then s.lh else [])
    requires CacheInv(d) && Overwritten(c, d, a, v)
    ensures Represents(d, Advance(l, s))
  {
    LogBlockIsOnDisk(l, c, s, a);
    RepresentsWrite(c, s, d, a, v);
    assert s.pinned - {a} == s.pinned;
  }

  /** Reading a block and then overwriting it is overwriting it. */
  lemma ReadAndWritten(c: Cache, d: Cache, e: Cache, h: set<nat>, a: Word, v: Block)
    requires SameOutside(c, d) && Undisturbed(c, d, h) && Overwritten(d, e, a, v) && Undisturbed(d, e, h)
    ensures Overwritten(c, e, a, v) && Undisturbed(c, e, h)
  {
  }

  lemma HeaderReady(l: Layout, base: Disk, c: Cache, s: State, h: set<nat>, lh: seq<Word>)
    requires Represents(c, s) && Inv(l, base, s) && Elsewhere(c, h, l, lh) && l.start + l.size <= 0x1_0000_0000
    requires AtHeader(s)
    ensures Shape(l, s) && CanAdvance(l, s) && l.start < 0x1_0000_0000 && l.start < |c.disk| && |c.latest| == |c.disk|
    ensures l.start < |s.disk| && c.latest[l.start] == s.disk[l.start] && NobodyHolds(c, h, l.start)
    ensures |s.lh| <= LOGSIZE
  {
    hide Recoverable, HistoryInv, Budget, ViewIsReplay;
    LogBlockIsOnDisk(l, c, s, l.start);
  }

  lemma PinnedFewerThanLogged(l: Layout, c: Cache, s: State)
    requires Represents(c, s) && Shape(l, s)
    ensures |s.pinned| <= |s.lh|
  {
    DirtyFewerThanLogged(l, c, s);
    PinnedKeys(c, s);
    assert s.pinned.Keys == DirtyBlocks(c);
  }

  /** Installing the whole list and erasing the header is the function `Recover`. */
  lemma {:induction false} AfterInstalls(l: Layout, s: State, k: nat)
    requires Fits(l, s.disk, s.lh) && s.phase == Installing(0) && k <= |s.lh|
    ensures var t := After(l, s, k);
            && t.disk == Install(l, s.disk, s.lh, k) && t.lh == s.lh && t.phase == Installing(k)
            && t.committing == s.committing && t.outstanding == s.outstanding
  {
    if k > 0 {
      AfterInstalls(l, s, k - 1);
      assert Fits(l, After(l, s, k - 1).disk, s.lh);
    }
  }

  /** Rebooting, installing and erasing leaves exactly the recovered disk. */
  lemma RecoveryDone(l: Layout, base: Disk, s: State)
    requires Inv(l, base, s) && s.phase == Installing(0) && !s.committing
    ensures HeaderOk(l, s.disk) && After(l, s, |s.lh| + 1).disk == Recover(l, s.disk)
    ensures var t := After(l, s, |s.lh| + 1);
            t.phase.Erased? && CanAdvance(l, t) && After(l, s, |s.lh| + 2) == Advance(l, t) && !t.committing
  {
    hide Recoverable, HistoryInv, Budget, SameHome, ViewIsReplay, WriteHead, ReadHead;
    AfterInstalls(l, s, |s.lh|);
    var t := After(l, s, |s.lh|);
    InstallAt(l, s.disk, s.lh, |s.lh|);
    assert Fits(l, t.disk, s.lh);
  }

  lemma EndFacts(l: Layout, base: Disk, s: State, op: nat)
    requires Inv(l, base, s) && s.phase.Serving? && op < |s.running|
    ensures !s.committing && s.outstanding == |s.running| >= 1
    ensures s.outstanding == 1 ==> EndOp(s, op).phase == if |s.lh| > 0 then WritingLog(0) else Erased
  {
  }

  lemma ErasedAdvances(l: Layout, base: Disk, s: State)
    requires Inv(l, base, s) && s.phase.Erased?
    ensures CanAdvance(l, s)
  {
  }

  lemma LogInRegion(l: Layout, base: Disk, s: State)
    requires Inv(l, base, s)
    ensures |s.lh| < l.size && |s.lh| <= LOGSIZE
  {
  }

  /** Pinned buffers are none of those that others reference elsewhere. */
  lemma PinnedAndHeld(c: Cache, h: set<nat>, l: Layout, lh: seq<Word>)
    requires Unique(c) && Coherent(c) && Elsewhere(c, h, l, lh) && Distinct(lh)
    requires forall x :: x in lh <==> x in DirtyBlocks(c)
    ensures |DirtyIndices(c) + h| == |lh| + |h|
  {
    DirtyExactly(c);
    ElementsCard(lh);
    assert Elements(lh) == DirtyBlocks(c);
    var d := DirtyIndices(c);
    forall i | i in d
      ensures i !in h
    {
      assert BufOk(c, c.bufs[i]) && c.bufs[i].blockno in DirtyBlocks(c);
    }
    assert d * h == {};
    assert |d + h| == |d| + |h|;
  }

  /** With every buffer pinned by a listed block or referenced elsewhere, none has a block of the log. */
  lemma LogNotCached(c: Cache, h: set<nat>, l: Layout, lh: seq<Word>, b: Word)
    requires |c.bufs| == NBUF && HeldExactly(c, h) && Elsewhere(c, h, l, lh) && |DirtyIndices(c) + h| >= NBUF
    requires (forall x :: x in DirtyBlocks(c) ==> x in lh) && (forall x :: x in lh ==> !InLog(l, x)) && InLog(l, b)
    ensures forall i :: 0 <= i < NBUF ==> !Caches(c.bufs[i], DISK, b)
  {
    NoneIdle(c, h, |c.bufs|);
    forall i | 0 <= i < NBUF
      ensures !Caches(c.bufs[i], DISK, b)
    {
      assert !Idle(c.bufs[i]);
      assert c.bufs[i].dirty ==> c.bufs[i].blockno in DirtyBlocks(c);
    }
  }

  /** In `write_log` a log block finds no buffer exactly when the listed blocks and the buffers that
      others reference are as many as there are buffers. */
  lemma NoBufferLeft(l: Layout, base: Disk, c: Cache, s: State, h: set<nat>, b: Word)
    requires CacheInv(c) && HeldExactly(c, h) && Represents(c, s) && Inv(l, base, s)
    requires s.phase.WritingLog? && Elsewhere(c, h, l, s.lh) && InLog(l, b)
    ensures Chosen(c, DISK, b) < 0 <==> |s.lh| + |h| >= NBUF
  {
    hide Inv, Coherent, HeldExactly, Chosen, DirtyBlocks, Unique, Elsewhere, DirtyIndices;
    ReadyFacts(l, base, s);
    PinnedKeys(c, s);
    PinnedAndHeld(c, h, l, s.lh);
    RoomExactly(c, h, b);
    if |s.lh| + |h| >= NBUF {
      LogNotCached(c, h, l, s.lh, b);
    }
  }

  lemma ReadyFacts(l: Layout, base: Disk, s: State)
    requires Inv(l, base, s) && s.phase.WritingLog?
    ensures Distinct(s.lh) && (forall b :: b in s.pinned <==> b in s.lh)
    ensures |s.lh| < l.size && forall b :: b in s.lh ==> !InLog(l, b)
  {
  }

  lemma PinDirty(c: Cache, i: nat)
    requires i < |c.bufs| && OnDisk(c, c.bufs[i]) && |c.latest| == |c.disk|
    ensures DirtyBlocks(Pin(c, i)) == DirtyBlocks(c) + {c.bufs[i].blockno}
  {
    var d := Pin(c, i);
    assert d.bufs[i].dirty && d.bufs[i].blockno == c.bufs[i].blockno;
    assert forall j :: 0 <= j < |c.bufs| && j != i ==> d.bufs[j] == c.bufs[j];
  }

  /** Marking a buffer dirty is logging its block. */
  lemma PinRefines(c: Cache, s: State, i: nat, op: nat)
    requires Represents(c, s) && CacheInv(c) && i < NBUF && c.bufs[i].valid && c.bufs[i].locked
    ensures OnDisk(c, c.bufs[i]) && |c.latest| == |c.disk|
    ensures op < |s.running| ==> Represents(Pin(c, i), LogWrite(s, op, c.bufs[i].blockno, c.bufs[i].data))
  {
    hide Unique, DirtyFor;
    PinKeepsInv(c, i);
    PinDirty(c, i);
    PinnedKeys(c, s);
    assert Pinned(Pin(c, i)) == s.pinned[c.bufs[i].blockno := c.bufs[i].data];
  }

  class LogDev {
    const cache: BCache
    const layout: Layout
    var lh: seq<Word>
    var outstanding: int
    var committing: bool

    ghost var m: State
    ghost var base: Disk

    /** Disk and cache are those of the protocol state. */
    ghost predicate Synced()
      reads this, cache
    {
      cache.Valid() && Represents(cache.Model(), m) && layout.start + layout.size <= 0x1_0000_0000
    }

    /** So are the fields of the log. */
    ghost predicate Valid()
      reads this, cache
    {
      Synced() && m.lh == lh && m.outstanding == outstanding && m.committing == committing
    }

    /** Others reference exactly the buffers in h, for blocks the log has nothing to do with. */
    ghost predicate Others(h: set<nat>)
      reads this, cache
    {
      HeldExactly(cache.Model(), h) && Elsewhere(cache.Model(), h, layout, lh)
    }

    /** No buffer is referenced by anyone. */
    ghost predicate Quiet()
      reads this, cache
    {
      Others({})
    }

    /** A machine that has just lost power; memory holds nothing yet. */
    constructor (c: BCache, l: Layout)
      requires c.Valid() && c.Model() == Empty(c.disk) && HeaderOk(l, c.disk) && l.start + l.size <= 0x1_0000_0000
      ensures Valid() && Quiet() && cache == c && layout == l && base == Recover(l, c.disk) && Init(l, c.disk, m)
    {
      cache, layout, lh, outstanding, committing := c, l, [], 0, false;
      m := State(c.disk, map[], [], 0, false, Down, [], 0, [], 0);
      base := Recover(l, c.disk);
      new;
      assert DirtyBlocks(c.Model()) == {};
    }

    /** One turn of the loop in `write_log`; not ok is the panic of `bget`. */
    method WriteLogBlock(tail: nat, ghost h: set<nat>) returns (ok: bool)
      requires Valid() && Others(h) && Inv(layout, base, m) && m.phase == WritingLog(tail) && tail < |lh|
      modifies this`m, cache
      ensures Valid() && Others(h) && Undisturbed(old(cache.Model()), cache.Model(), h)
      ensures ok <==> |lh| + |h| < NBUF
      ensures !ok ==> m == old(m) && cache.Model() == old(cache.Model())
      ensures ok ==> CanAdvance(layout, old(m)) && m == Advance(layout, old(m))
    {
      hide Inv, Shape, CanAdvance, SecondFits, ListInv, Unique, LruList.Linked, HeldExactly, Elsewhere, Chosen;
      ghost var c := cache.Model();
      WriteLogFits(layout, base, c, m, h);
      var a: Word := layout.start + 1 + tail;
      NoBufferLeft(layout, base, c, m, h, a);
      ghost var v := View(m, lh[tail]);
      ok := CopyIntoFirst(cache, a, lh[tail], h);
      StillElsewhere(c, cache.Model(), h, layout, lh);
      if ok {
        WriteLogRefines(layout, c, m, cache.Model(), a, v);
        m := Advance(layout, m);
      }
    }

    /** `write_log`: one disk write per listed block, or a panic on the first. */
    method WriteLog(ghost h: set<nat>) returns (ok: bool)
      requires Valid() && Others(h) && Inv(layout, base, m) && m.phase == WritingLog(0) && lh != []
      modifies this`m, cache
      ensures Valid() && Others(h) && Undisturbed(old(cache.Model()), cache.Model(), h)
      ensures ok <==> |lh| + |h| < NBUF
      ensures !ok ==> m == old(m) && cache.Model() == old(cache.Model())
      ensures ok ==> m == After(layout, old(m), |lh|) && m.phase == WritingLog(|lh|)
    {
      hide Inv, CanAdvance, Represents, CacheInv, HeldExactly, Elsewhere, LruList.Linked;
      var tail := 0;
      while tail < |lh|
        invariant 0 <= tail <= |lh| && Valid() && Others(h) && Inv(layout, base, m)
        invariant m == After(layout, old(m), tail) && m.phase == WritingLog(tail)
        invariant Undisturbed(old(cache.Model()), cache.Model(), h)
        invariant if tail == 0 then cache.Model() == old(cache.Model()) else |lh| + |h| < NBUF
      {
        ghost var s := m;
        ok := WriteLogBlock(tail, h);
        if !ok {
          return;
        }
        AdvanceKeepsInv(layout, base, s);
        tail := tail + 1;
      }
      ok := true;
    }

    /** The word stores of `write_head`. */
    method BuildHead(b: Block, list: seq<Word>) returns (r: Block)
      requires |list| <= LOGSIZE
      ensures r == WriteHead(b, list)
    {
      r := PutWord(b, 0, |list|);
      for i := 0 to |list|
        invariant r == PutWords(PutWord(b, 0, |list|), 1, list[..i])
      {
        assert list[..i + 1][..i] == list[..i];
        r := PutWord(r, 1 + i, list[i]);
      }
      assert list[..|list|] == list;
    }

    /** `write_head`: with the in-memory list still set this is the commit point. */
    method WriteHeader(ghost h: set<nat>) returns (ok: bool)
      requires Synced() && Others(h) && Inv(layout, base, m) && AtHeader(m)
      requires lh == if m.phase.WritingLog? then m.lh else []
      modifies this`m, cache
      ensures Synced() && Others(h) && Undisturbed(old(cache.Model()), cache.Model(), h)
      ensures ok <==> old(Finds(layout.start))
      ensures |old(m.pinned)| + |h| < NBUF ==> ok
      ensures !ok ==> m == old(m) && cache.Model() == old(cache.Model())
      ensures ok ==> CanAdvance(layout, old(m)) && m == Advance(layout, old(m))
    {
      hide Inv, Shape, CanAdvance, Represents, CacheInv, LruList.Linked, HeldExactly, Elsewhere, Chosen, Undisturbed;
      ghost var c := cache.Model();
      HeaderReady(layout, base, c, m, h, lh);
      var a: Word := layout.start;
      if |m.pinned| + |h| < NBUF {
        PinnedLeaveRoom(c, m, h, a);
      }
      var i := ReadHeld(cache, a, h);
      if i < 0 {
        return false;
      }
      var v := BuildHead(cache.bufs[i].data, lh);
      ghost var d := cache.Model();
      WriteAndRelease(cache, i, a, v, h);
      ReadAndWritten(c, d, cache.Model(), h, a, v);
      StillElsewhere(c, cache.Model(), h, layout, lh);
      HeadRefines(layout, c, m, cache.Model(), a, v);
      m := Advance(layout, m);
      return true;
    }

    /** One turn of the loop in `install_trans`, for a commit or for recovery. */
    method InstallBlock(tail: nat, ghost h: set<nat>) returns (ok: bool)
      requires Valid() && Others(h) && Inv(layout, base, m) && m.phase == Installing(tail) && tail < |lh|
      requires committing || (m.pinned == map[] && |h| + 1 < NBUF)
      modifies this`m, cache
      ensures Valid() && Others(h) && Undisturbed(old(cache.Model()), cache.Model(), h)
      ensures ok <==> old(Finds(layout.start + 1 + tail))
      ensures |old(m.pinned)| + |h| < NBUF ==> ok
      ensures !ok ==> m == old(m) && cache.Model() == old(cache.Model())
      ensures ok ==> CanAdvance(layout, old(m)) && m == Advance(layout, old(m)) && m.phase == Installing(tail + 1)
      ensures ok && old(m).pinned == map[] ==> m.pinned == map[]
    {
      hide Inv, Shape, CanAdvance, SecondFits, ListInv, Unique, LruList.Linked, HeldExactly, Elsewhere, Chosen;
      ghost var c := cache.Model();
      InstallReady(layout, base, c, m, h, layout.start + 1 + tail);
      var a: Word := layout.start + 1 + tail;
      if |m.pinned| + |h| < NBUF {
        PinnedLeaveRoom(c, m, h, a);
      }
      ghost var v := Logged(layout, m.disk, tail);
      ok := CopyIntoSecond(cache, a, lh[tail], h);
      StillElsewhere(c, cache.Model(), h, layout, lh);
      if ok {
        InstallRefines(layout, c, m, cache.Model(), v);
        m := Advance(layout, m);
      }
    }

    /** `bget` finds a buffer for block a. */
    ghost predicate Finds(a: int)
      requires OrderOk(cache.bufs, cache.order)
      reads cache
    {
      0 <= a < 0x1_0000_0000 && Chosen(cache.Model(), DISK, a) >= 0
    }

    /** There is room for every read of the installation. */
    ghost predicate CanInstall(h: set<nat>)
      reads this
    {
      (committing && |lh| + |h| < NBUF) || (m.pinned == map[] && |h| + 1 < NBUF)
    }

    method InstallTrans(ghost h: set<nat>)
      requires Valid() && Others(h) && Inv(layout, base, m) && m.phase == Installing(0) && CanInstall(h)
      modifies this`m, cache
      ensures Valid() && Others(h) && Undisturbed(old(cache.Model()), cache.Model(), h)
      ensures m == After(layout, old(m), |lh|) && m.phase == Installing(|lh|) && CanInstall(h)
    {
      hide Inv, CanAdvance, Advance, Represents, CacheInv, HeldExactly, Elsewhere, LruList.Linked;
      var tail := 0;
      while tail < |lh|
        invariant 0 <= tail <= |lh| && Valid() && Others(h) && Inv(layout, base, m)
        invariant m == After(layout, old(m), tail) && m.phase == Installing(tail) && CanInstall(h)
        invariant Undisturbed(old(cache.Model()), cache.Model(), h)
      {
        ghost var s := m;
        FewPinned();
        var ok := InstallBlock(tail, h);
        assert ok;
        AdvanceKeepsInv(layout, base, s);
        tail := tail + 1;
      }
    }

    /** The first half of `commit`, up to and including the commit point. */
    method LogAndCommit(ghost h: set<nat>) returns (ok: bool)
      requires Valid() && Others(h) && Inv(layout, base, m) && m.phase == WritingLog(0) && lh != []
      modifies this`m, cache
      ensures Valid() && Others(h) && Undisturbed(old(cache.Model()), cache.Model(), h)
      ensures ok <==> |lh| + |h| < NBUF
      ensures !ok ==> m == old(m) && cache.Model() == old(cache.Model())
      ensures ok ==> m == After(layout, old(m), |lh| + 1) && m.phase == Installing(0)
    {
      hide Inv, CanAdvance, Represents, CacheInv, HeldExactly, Elsewhere, LruList.Linked;
      ok := WriteLog(h);
      if ok {
        AfterInv(layout, base, old(m), |lh|);
        FewPinned();
        var written := WriteHeader(h);
        assert written;
      }
    }

    /** Install the listed blocks and erase the header: the tail of `commit` and of `recover_from_log`. */
    method InstallAndErase(ghost h: set<nat>)
      requires Valid() && Others(h) && Inv(layout, base, m) && m.phase == Installing(0) && CanInstall(h)
      modifies this`m, this`lh, cache
      ensures Valid() && Others(h) && Undisturbed(old(cache.Model()), cache.Model(), h)
      ensures m == After(layout, old(m), |old(lh)| + 1) && m.phase.Erased? && lh == []
    {
      hide Inv, CanAdvance, Represents, CacheInv, HeldExactly, LruList.Linked;
      InstallTrans(h);
      AfterInv(layout, base, old(m), |lh|);
      FewPinned();
      lh := [];
      var written := WriteHeader(h);
      assert written;
    }

    /** `commit` for a non-empty log while others reference the buffers in h: 2n + 2 disk writes, each
        one a protocol step.  It panics, on the first block it reads, exactly when the n listed blocks
        and those buffers are as many as there are buffers. */
    method Commit(ghost h: set<nat>) returns (panic: bool)
      requires Valid() && Others(h) && Inv(layout, base, m) && committing && m.phase == WritingLog(0) && lh != []
      modifies this`m, this`lh, cache
      ensures Valid() && Others(h) && Undisturbed(old(cache.Model()), cache.Model(), h)
      ensures panic <==> |old(lh)| + |h| >= NBUF
      ensures panic ==> m == old(m) && cache.Model() == old(cache.Model())
      ensures !panic ==> m.phase.Erased? && lh == [] && m == After(layout, old(m), 2 * |old(lh)| + 2)
    {
      hide Inv, CanAdvance, Represents, CacheInv, HeldExactly, Elsewhere, LruList.Linked;
      ghost var n := |lh|;
      var ok := LogAndCommit(h);
      if !ok {
        return true;
      }
      AfterInv(layout, base, old(m), n + 1);
      InstallAndErase(h);
      AfterAdd(layout, old(m), n + 1, n + 1);
      return false;
    }

    lemma FewPinned()
      requires Synced() && Inv(layout, base, m)
      ensures |m.pinned| <= |m.lh|
    {
      PinnedFewerThanLogged(layout, cache.Model(), m);
    }

    /** `read_head`: load the list from the header block. */
    method ReadHeader()
      requires Valid() && Quiet() && Inv(layout, base, m) && m.phase.Down?
      modifies this`m, this`lh, cache
      ensures Valid() && Quiet() && HeaderOk(layout, old(m.disk)) && m == Reboot(layout, old(m)) && m.pinned == map[]
      ensures !m.committing
    {
      hide HistoryInv, Budget, ViewIsReplay, ListInv, Unique, LruList.Linked, HeldExactly, SameHome, Chosen;
      ghost var c := cache.Model();
      var a: Word := layout.start;
      FewPinned();
      LogBlockIsOnDisk(layout, c, m, a);
      PinnedLeaveRoom(c, m, {}, a);
      var i := ReadHeld(cache, a, {});
      lh := ParseHead(cache.bufs[i].data);
      JustRelease(cache, i, a, {});
      m := Reboot(layout, m);
    }

    /** The copy loop of `read_head`. */
    method ParseHead(b: Block) returns (list: seq<Word>)
      requires GetWord(b, 0) <= LOGSIZE
      ensures list == ReadHead(b)
    {
      list := [];
      for i := 0 to GetWord(b, 0)
        invariant list == GetWords(b, 1, i)
      {
        list := list + [GetWord(b, 1 + i)];
      }
    }

    /** `recover_from_log`, run before the first operation. */
    method RecoverFromLog()
      requires Valid() && Quiet() && Inv(layout, base, m) && m.phase.Down?
      modifies this`m, this`lh, cache
      ensures Valid() && Quiet() && Inv(layout, base, m) && m.phase.Serving? && lh == []
      ensures HeaderOk(layout, old(cache.disk)) && cache.disk == Recover(layout, old(cache.disk))
      ensures exists k :: m == After(layout, Reboot(layout, old(m)), k)
    {
      hide Inv, CanAdvance, Coherent, CacheInv, HeldExactly, LruList.Linked, HeaderOk;
      RebootKeepsInv(layout, base, m);
      ReadHeader();
      ghost var s, n := m, |lh|;
      InstallAndErase({});
      RecoveryDone(layout, base, s);
      AfterInv(layout, base, s, n + 2);
      m := Advance(layout, m);
      assert m == After(layout, s, n + 2);
    }

    /** One pass of the loop in `begin_op`: reserve space, or report that the caller must sleep. */
    method TryBeginOp() returns (ok: bool)
      requires Valid() && Inv(layout, base, m) && (m.phase.Serving? || committing)
      modifies this`m, this`outstanding
      ensures Valid() && Inv(layout, base, m) && ok == CanBegin(old(m))
      ensures ok <==> !committing && |lh| + (old(outstanding) + 1) * MAXOPBLOCKS <= LOGSIZE
      ensures m == if ok then BeginOp(old(m)) else old(m)
    {
      hide Recoverable, HistoryInv, ViewIsReplay, PhaseInv, ListInv, Unique, Coherent, LruList.Linked;
      ok := !committing && |lh| + (outstanding + 1) * MAXOPBLOCKS <= LOGSIZE;
      if ok {
        BeginKeepsInv(layout, base, m);
        outstanding := outstanding + 1;
        m := BeginOp(m);
      }
    }

    /** `log_write` on a held buffer, on behalf of running operation `op`; false stands for its panics.
        With no operation running it is one of them. */
    method LogWriteBuf(i: nat, ghost op: nat) returns (ok: bool)
      requires Valid() && Inv(layout, base, m) && m.phase.Serving?
      requires i < NBUF && cache.bufs[i].valid && cache.bufs[i].locked && IsHome(layout, m.disk, cache.bufs[i].blockno)
      requires outstanding > 0 ==> op < |m.running| && InBudget(m, op, cache.bufs[i].blockno)
      modifies this`m, this`lh, cache
      ensures Valid() && Inv(layout, base, m) && ok == !LogWritePanics(layout, old(m))
      ensures ok <==> |old(lh)| < LOGSIZE && |old(lh)| < layout.size - 1 && outstanding > 0
      ensures ok ==> op < |old(m).running|
      ensures lh == if ok && cache.bufs[i].blockno !in old(lh) then old(lh) + [cache.bufs[i].blockno] else old(lh)
      ensures m == if ok then LogWrite(old(m), op, old(cache.bufs[i].blockno), old(cache.bufs[i].data)) else old(m)
      ensures old(OnDisk(cache.Model(), cache.bufs[i])) && |old(cache.latest)| == |old(cache.disk)|
      ensures cache.Model() == if ok then Pin(old(cache.Model()), i) else old(cache.Model())
    {
      hide Recoverable, HistoryInv, Budget, ViewIsReplay, PhaseInv, Unique, Coherent, LruList.Linked;
      PinRefines(cache.Model(), m, i, op);
      if |lh| >= LOGSIZE || |lh| >= layout.size - 1 || outstanding < 1 {
        return false;
      }
      var b := cache.bufs[i].blockno;
      LogWriteKeepsInv(layout, base, m, op, b, cache.bufs[i].data);
      m := LogWrite(m, op, b, cache.bufs[i].data);
      lh := AbsorbScan(b);
      cache.MarkDirty(i);
      ok := true;
    }

    /** The absorption loop of `log_write`. */
    method AbsorbScan(b: Word) returns (r: seq<Word>)
      ensures r == Absorb(lh, b)
    {
      var i := 0;
      while i < |lh| && lh[i] != b
        invariant 0 <= i <= |lh| && b !in lh[..i]
      {
        i := i + 1;
      }
      if i == |lh| {
        r := lh + [b];
      } else {
        r := lh[i := b];
      }
    }

    /** `end_op` while others reference the buffers in h.  The last operation of a group commits on
        behalf of all of them; it panics exactly when the listed blocks and those buffers leave none. */
    method EndOperation(ghost op: nat, ghost h: set<nat>) returns (panic: bool)
      requires Valid() && Inv(layout, base, m) && m.phase.Serving? && op < |m.running|
      requires outstanding == 1 ==> Others(h)
      modifies this`m, this`lh, this`outstanding, this`committing, cache
      ensures Valid() && Inv(layout, base, m)
      ensures panic <==> old(outstanding) == 1 && old(lh) != [] && |old(lh)| + |h| >= NBUF
      ensures panic ==> layout.size + |h| > NBUF && m == EndOp(old(m), op) && cache.Model() == old(cache.Model())
      ensures !panic ==> m.phase.Serving? && !committing && exists k :: m == After(layout, EndOp(old(m), op), k)
      ensures old(outstanding) == 1 ==> Others(h) && Undisturbed(old(cache.Model()), cache.Model(), h)
      ensures !panic && old(outstanding) == 1 ==> lh == []
      ensures old(outstanding) > 1 ==> m == EndOp(old(m), op) && lh == old(lh) && cache.Model() == old(cache.Model())
    {
      hide Inv, Coherent, CacheInv, LruList.Linked, HeldExactly, Elsewhere;
      LogInRegion(layout, base, m);
      panic := false;
      EndKeepsInv(layout, base, m, op);
      EndFacts(layout, base, m, op);
      outstanding := outstanding - 1;
      assert !committing;
      m := EndOp(m, op);
      ghost var s := m;
      if outstanding == 0 {
        committing := true;
        panic := FinishGroup(h);
        if panic {
          return;
        }
        ghost var k :| m == After(layout, s, k);
        AfterInv(layout, base, s, k);
      } else {
        assert m == After(layout, s, 0);
      }
    }

    /** What `end_op` does once it has set `committing`. */
    method FinishGroup(ghost h: set<nat>) returns (panic: bool)
      requires Valid() && Others(h) && Inv(layout, base, m) && committing
      requires m.phase == if |lh| > 0 then WritingLog(0) else Erased
      modifies this`m, this`lh, this`committing, cache
      ensures Valid() && Others(h) && Undisturbed(old(cache.Model()), cache.Model(), h)
      ensures panic <==> old(lh) != [] && |old(lh)| + |h| >= NBUF
      ensures panic ==> m == old(m) && cache.Model() == old(cache.Model())
      ensures !panic ==> m.phase.Serving? && lh == [] && !committing && exists k :: m == After(layout, old(m), k)
    {
      hide Inv, Coherent, CacheInv, LruList.Linked, HeldExactly, Elsewhere;
      ghost var k := 0;
      panic := false;
      if |lh| > 0 {
        k := 2 * |lh| + 2;
        panic := Commit(h);
        if panic {
          return;
        }
      }
      AfterInv(layout, base, old(m), k);
      ErasedAdvances(layout, base, m);
      committing := false;
      m := Advance(layout, m);
      assert m == After(layout, old(m), k + 1);
    }
  }
}
