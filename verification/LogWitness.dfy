/** Running the log out of buffers, from power-on: the code of module `LogDevice` driven to the panic
    of `bget`. */
module LogWitness {
  import opened Blocks
  import opened Log
  import opened LogMachine
  import opened LogProofs
  import opened LogRuns
  import opened CacheModel
  import opened CacheEffects
  import opened BufferCache
  import opened LogDevice

  // ---------------------------------------------------------------- reachability of the protocol state

  lemma {:induction false} AfterReachable(l: Layout, d: Disk, s: State, k: nat)
    requires Reachable(l, d, s)
    ensures Reachable(l, d, After(l, s, k))
  {
    hide Reachable, Advance, CanAdvance;
    if k > 0 {
      AfterReachable(l, d, s, k - 1);
      var t := After(l, s, k - 1);
      if CanAdvance(l, t) {
        Extend(l, d, t, Advance(l, t));
      }
    }
  }

  /** The committer and recovery start and end no operation. */
  lemma {:induction false} AfterKeeps(l: Layout, s: State, k: nat)
    ensures var t := After(l, s, k); t.running == s.running && t.outstanding == s.outstanding && |t.disk| == |s.disk|
  {
    hide WriteHead;
    if k > 0 {
      AfterKeeps(l, s, k - 1);
    }
  }

  lemma PowerOn(l: Layout, s: State)
    requires 1 <= l.size && Init(l, FreshDisk(l), s)
    ensures Reachable(l, FreshDisk(l), s) && Reachable(l, FreshDisk(l), Reboot(l, s))
  {
    var d := FreshDisk(l);
    assert IsRun(l, d, [s]) && [s][|[s]| - 1] == s;
    Extend(l, d, s, Reboot(l, s));
  }

  lemma FreshHeader(l: Layout)
    requires 1 <= l.size
    ensures HeaderOk(l, FreshDisk(l))
  {
    ZeroBlockWords(0);
  }

  // ---------------------------------------------------------------- one block through log_write

  lemma SameDisk(c: Cache, s: State)
    requires Represents(c, s)
    ensures c.disk == s.disk
  {
  }

  lemma StillRepresents(c: Cache, d: Cache, s: State)
    requires Represents(c, s) && CacheInv(d) && SameOutside(c, d)
    ensures Represents(d, s)
  {
    assert Pinned(d) == Pinned(c);
  }

  /** Between marking a buffer dirty and giving it up. */
  lemma PinnedHeld(c: Cache, h: set<nat>, i: nat, b: Word)
    requires CacheInv(c) && i !in h && HeldExactly(c, h + {i}) && Holding(c, i, b)
    ensures i < NBUF && OnDisk(c, c.bufs[i]) && |c.latest| == |c.disk|
    ensures var d := Pin(c, i);
            CacheInv(d) && HeldExactly(d, h + {i}) && Holding(d, i, b) && Undisturbed(c, d, h)
  {
    PinKeepsInv(c, i);
  }

  /** `bread`, `log_write`, `brelse`, as every caller of `log_write` does. */
  method LogBlock(dev: LogDev, b: Word, ghost op: nat) returns (ok: bool)
    requires dev.Valid() && dev.Quiet() && Inv(dev.layout, dev.base, dev.m) && dev.m.phase.Serving?
    requires op < |dev.m.running| && IsHome(dev.layout, dev.m.disk, b) && InBudget(dev.m, op, b)
    requires |dev.m.pinned| < NBUF
    modifies dev`m, dev`lh, dev.cache
    ensures dev.Valid() && dev.Quiet() && Inv(dev.layout, dev.base, dev.m)
    ensures ok <==> !LogWritePanics(dev.layout, old(dev.m))
    ensures !ok ==> dev.m == old(dev.m)
    ensures ok ==> exists v :: dev.m == LogWrite(old(dev.m), op, b, v)
  {
    hide Inv, Chosen, CacheInv, Represents, SameOutside, LruList.Linked, HeldExactly, InBudget, LogWritePanics;
    hide LogWrite;
    ghost var c := dev.cache.Model();
    SameDisk(c, dev.m);
    PinnedLeaveRoom(c, dev.m, {}, b);
    var i := ReadHeld(dev.cache, b, {});
    StillRepresents(c, dev.cache.Model(), dev.m);
    PinnedHeld(dev.cache.Model(), {}, i, b);
    ghost var v := dev.cache.bufs[i].data;
    ok := dev.LogWriteBuf(i, op);
    ghost var e := dev.cache.Model();
    JustRelease(dev.cache, i, b, {});
    StillRepresents(e, dev.cache.Model(), dev.m);
    assert ok ==> dev.m == LogWrite(old(dev.m), op, b, v);
  }

  // ---------------------------------------------------------------- from power-on to the panic

  /** The device is a protocol run's last state, with nobody in the cache. */
  ghost predicate Running(dev: LogDev, l: Layout)
    reads dev, dev.cache
  {
    dev.layout == l && dev.Valid() && dev.Quiet() && Inv(l, dev.base, dev.m) && Reachable(l, FreshDisk(l), dev.m)
  }

  method Boot(l: Layout) returns (dev: LogDev)
    requires 1 <= l.size && l.start + l.size + LOGSIZE <= 0x1_0000_0000
    ensures fresh(dev) && fresh(dev.cache) && Running(dev, l)
    ensures dev.m.phase.Serving? && dev.m.running == [] && dev.lh == [] && |dev.m.disk| == l.start + l.size + LOGSIZE
  {
    hide CanAdvance, Advance, After, Recover, Reachable;
    FreshHeader(l);
    var cache := new BCache(FreshDisk(l));
    dev := new LogDev(cache, l);
    PowerOn(l, dev.m);
    ghost var s := dev.m;
    InitInv(l, FreshDisk(l), s);
    dev.RecoverFromLog();
    ghost var k :| dev.m == After(l, Reboot(l, s), k);
    AfterReachable(l, FreshDisk(l), Reboot(l, s), k);
    AfterKeeps(l, Reboot(l, s), k);
  }

  method BeginThree(dev: LogDev, l: Layout)
    requires Running(dev, l) && dev.m.phase.Serving? && dev.m.running == [] && dev.lh == []
    requires |dev.m.disk| == l.start + l.size + LOGSIZE
    modifies dev`m, dev`outstanding
    ensures Running(dev, l) && ThreeLogged(l, dev.m, 0)
  {
    hide Inv, Reachable, Represents, CacheInv, LruList.Linked, HeldExactly, Elsewhere;
    IdleFacts(l, dev.base, dev.m);
    var i := 0;
    while i < 3
      invariant 0 <= i <= 3 && Running(dev, l) && dev.m.phase.Serving? && dev.lh == [] && !dev.m.committing
      invariant |dev.m.disk| == l.start + l.size + LOGSIZE && dev.m.outstanding == i == |dev.m.running|
      invariant forall j :: 0 <= j < i ==> dev.m.running[j].used == 0
    {
      ghost var s := dev.m;
      var ok := dev.TryBeginOp();
      Extend(l, FreshDisk(l), s, dev.m);
      i := i + 1;
    }
  }

  lemma IdleFacts(l: Layout, base: Disk, s: State)
    requires Inv(l, base, s) && s.phase.Serving?
    ensures !s.committing && s.outstanding == |s.running|
  {
  }

  /** The three operations log n different blocks. */
  method LogMany(dev: LogDev, l: Layout, n: nat)
    requires Running(dev, l) && ThreeLogged(l, dev.m, 0) && n <= LOGSIZE && n < l.size
    requires l.start + l.size + LOGSIZE <= 0x1_0000_0000
    modifies dev`m, dev`lh, dev.cache
    ensures Running(dev, l) && ThreeLogged(l, dev.m, n)
  {
    hide Inv, Reachable, Represents, CacheInv, LruList.Linked, HeldExactly, Elsewhere;
    var k := 0;
    while k < n
      invariant 0 <= k <= n && Running(dev, l) && ThreeLogged(l, dev.m, k)
    {
      ghost var s := dev.m;
      NextFits(l, dev.base, s, k);
      dev.FewPinned();
      var ok := LogBlock(dev, l.start + l.size + k, k / MAXOPBLOCKS);
      ghost var v :| dev.m == LogWrite(s, k / MAXOPBLOCKS, l.start + l.size + k, v);
      ghost var t := FillOne(l, s, k, v);
      k := k + 1;
    }
  }

  lemma NextFits(l: Layout, base: Disk, s: State, k: nat)
    requires ThreeLogged(l, s, k) && k + 1 < l.size && k < LOGSIZE && l.start + l.size + LOGSIZE <= 0x1_0000_0000
    ensures k / MAXOPBLOCKS < 3 && IsHome(l, s.disk, l.start + l.size + k)
    ensures InBudget(s, k / MAXOPBLOCKS, l.start + l.size + k) && !LogWritePanics(l, s)
  {
  }

  /** All three operations end, with the buffers in h referenced by others. */
  method EndThree(dev: LogDev, l: Layout, n: nat, ghost h: set<nat>) returns (panic: bool)
    requires dev.layout == l && dev.Valid() && dev.Others(h) && Inv(l, dev.base, dev.m)
    requires Reachable(l, FreshDisk(l), dev.m) && ThreeLogged(l, dev.m, n) && 0 < n && n + |h| >= NBUF
    modifies dev`m, dev`lh, dev`outstanding, dev`committing, dev.cache
    ensures panic && dev.Valid() && dev.Others(h) && Inv(l, dev.base, dev.m) && Reachable(l, FreshDisk(l), dev.m)
    ensures dev.m.phase == WritingLog(0) && |dev.lh| == n && dev.cache.Model() == old(dev.cache.Model())
  {
    hide Inv, Reachable, Represents, CacheInv, LruList.Linked, HeldExactly, Elsewhere, After;
    var i := 3;
    while i > 1
      invariant 1 <= i <= 3 && dev.Valid() && dev.Others(h) && Inv(l, dev.base, dev.m) && dev.m.phase.Serving?
      invariant dev.m.outstanding == i == |dev.m.running| && |dev.lh| == n && Reachable(l, FreshDisk(l), dev.m)
      invariant dev.cache.Model() == old(dev.cache.Model())
    {
      ghost var s := dev.m;
      panic := dev.EndOperation(0, h);
      Extend(l, FreshDisk(l), s, dev.m);
      i := i - 1;
    }
    ghost var s := dev.m;
    panic := dev.EndOperation(0, h);
    Extend(l, FreshDisk(l), s, dev.m);
  }

  /** A process outside any operation, as in `fileread`, reads a block and keeps its buffer a while. */
  method Hold(dev: LogDev, b: Word) returns (i: nat)
    requires dev.Valid() && dev.Quiet() && IsHome(dev.layout, dev.m.disk, b) && b !in dev.lh && |dev.m.pinned| < NBUF
    requires b !in dev.m.pinned
    modifies dev.cache
    ensures dev.Valid() && dev.Others({i}) && i < |dev.cache.bufs| && !dev.cache.bufs[i].dirty
  {
    hide Chosen, LruList.Linked, CacheInv, Represents, HeldExactly, DirtyBlocks;
    ghost var c := dev.cache.Model();
    SameDisk(c, dev.m);
    PinnedLeaveRoom(c, dev.m, {}, b);
    i := ReadHeld(dev.cache, b, {});
    StillRepresents(c, dev.cache.Model(), dev.m);
    assert {} + {i} == {i};
    PinnedKeys(c, dev.m);
    HeldClean(dev.cache.Model(), i, b);
  }

  lemma HeldClean(c: Cache, i: nat, b: Word)
    requires Holding(c, i, b) && b !in DirtyBlocks(c)
    ensures !c.bufs[i].dirty
  {
  }

  lemma Unlisted(l: Layout, base: Disk, s: State, b: Word)
    requires Inv(l, base, s) && b !in s.lh
    ensures b !in s.pinned
  {
  }

  /** From power-on, three operations log n blocks and end, and `commit` finds no buffer: with n = NBUF
      if the log has more than LOGSIZE blocks, and with n = NBUF - 1 on the layout of `mkfs`, which has
      LOGSIZE, if a reader keeps one buffer meanwhile. */
  method RunOutOfBuffers(l: Layout, n: nat, reader: bool) returns (dev: LogDev, panic: bool, ghost h: set<nat>)
    requires l.start + l.size + LOGSIZE <= 0x1_0000_0000 && n < l.size && n == if reader then NBUF - 1 else NBUF
    ensures fresh(dev) && dev.layout == l && dev.Valid() && dev.Others(h) && |h| == if reader then 1 else 0
    ensures forall i :: i in h ==> i < |dev.cache.bufs| && !dev.cache.bufs[i].dirty
    ensures panic && Reachable(l, FreshDisk(l), dev.m) && dev.m.phase == WritingLog(0) && |dev.lh| == n
  {
    hide Inv, Reachable, Represents, CacheInv, LruList.Linked, HeldExactly;
    dev := Boot(l);
    BeginThree(dev, l);
    LogMany(dev, l, n);
    h := {};
    if reader {
      dev.FewPinned();
      Unlisted(l, dev.base, dev.m, l.start + l.size + n);
      var i := Hold(dev, l.start + l.size + n);
      h := {i};
    }
    panic := EndThree(dev, l, n, h);
  }
}
