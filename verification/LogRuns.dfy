/** What the logging protocol guarantees over whole runs, crashes included. */
module LogRuns {
  import opened Collections
  import opened Blocks
  import opened Log
  import opened LogHistory
  import opened LogMachine
  import opened LogProofs

  ghost predicate IsRun(l: Layout, d: Disk, run: seq<State>) {
    && run != []
    && Init(l, d, run[0])
    && forall k :: 0 <= k < |run| - 1 ==> Next(l, run[k], run[k + 1])
  }

  ghost predicate Reachable(l: Layout, d: Disk, s: State) {
    exists run :: IsRun(l, d, run) && run[|run| - 1] == s
  }

  lemma {:induction false} RunInv(l: Layout, d: Disk, run: seq<State>, k: nat)
    requires IsRun(l, d, run) && k < |run|
    ensures HeaderOk(l, d) && Inv(l, Recover(l, d), run[k])
  {
    if k == 0 {
      InitInv(l, d, run[0]);
    } else {
      RunInv(l, d, run, k - 1);
      StepKeepsInv(l, Recover(l, d), run[k - 1], run[k]);
    }
  }

  lemma ReachableInv(l: Layout, d: Disk, s: State)
    requires Reachable(l, d, s)
    ensures HeaderOk(l, d) && Inv(l, Recover(l, d), s)
  {
    var run :| IsRun(l, d, run) && run[|run| - 1] == s;
    RunInv(l, d, run, |run| - 1);
  }

  /** Pulling the plug at any moment and recovering leaves the effect of a prefix
      of the history that splits no operation, and recovering again changes nothing. */
  lemma CrashAtomicity(l: Layout, d: Disk, s: State)
    requires Reachable(l, d, s)
    ensures HeaderOk(l, d) && HeaderOk(l, s.disk) && s.durable <= |s.hist|
    ensures SameHome(l, Replay(Recover(l, d), s.hist[..s.durable]), Recover(l, s.disk))
    ensures Quiescent(s.hist[..s.durable])
    ensures forall i, j :: 0 <= i < s.durable <= j < |s.hist| ==> s.hist[i].id != s.hist[j].id
    ensures HeaderOk(l, Recover(l, s.disk))
    ensures SameHome(l, Recover(l, s.disk), Recover(l, Recover(l, s.disk)))
  {
    ReachableInv(l, d, s);
    AllOrNothing(s.hist, s.durable);
    RecoverIdempotent(l, s.disk);
  }

  /** In every run, a step of the committer or of recovery changes at most one disk block: a block
      inside the log region, or, while installing, the listed home block, which lies outside it;
      and no other step of the system writes to the disk. */
  lemma WritesStayPut(l: Layout, d: Disk, s: State, s': State, b: nat)
    requires Reachable(l, d, s) && Next(l, s, s') && b < |s.disk| && b < |s'.disk| && s'.disk[b] != s.disk[b]
    ensures s.phase.WritingLog? ==> InLog(l, b)
    ensures s.phase.Installing? && s.phase.tail < |s.lh| ==> b == s.lh[s.phase.tail] && !InLog(l, b)
    ensures s.phase.Installing? && s.phase.tail >= |s.lh| ==> b == l.start
    ensures s.phase.WritingLog? || s.phase.Installing?
  {
    ReachableInv(l, d, s);
    assert Fits(l, s.disk, s.lh);
    hide Inv, Recover, Fits;
    assert CanAdvance(l, s) && s' == Advance(l, s);
    AdvanceWrites(l, s, b);
  }

  lemma AdvanceWrites(l: Layout, s: State, b: nat)
    requires Fits(l, s.disk, s.lh) && CanAdvance(l, s) && b < |s.disk| && Advance(l, s).disk[b] != s.disk[b]
    ensures s.phase.WritingLog? ==> InLog(l, b)
    ensures s.phase.Installing? && s.phase.tail < |s.lh| ==> b == s.lh[s.phase.tail] && !InLog(l, b)
    ensures s.phase.Installing? && s.phase.tail >= |s.lh| ==> b == l.start
    ensures s.phase.WritingLog? || s.phase.Installing?
  {
    hide WriteHead;
  }

  /** Once the log serves and nobody is inside an operation, everything is durable
      and already at home. */
  lemma QuietMeansDurable(l: Layout, d: Disk, s: State)
    requires Reachable(l, d, s) && s.phase.Serving? && s.running == []
    ensures s.durable == |s.hist| && s.lh == [] && s.pinned == map[]
    ensures HeaderOk(l, d) && SameHome(l, Replay(Recover(l, d), s.hist), s.disk)
  {
    ReachableInv(l, d, s);
    assert s.pinned == map[];
    NothingPending(l, Recover(l, d), s);
    RecoverEmpty(l, s.disk);
  }

  /** No step forgets a durable event. */
  lemma DurableIsForever(l: Layout, d: Disk, s: State, s': State)
    requires Reachable(l, d, s) && Next(l, s, s')
    ensures s.durable <= s'.durable <= |s'.hist| && s.durable <= |s.hist|
    ensures s'.hist[..s.durable] == s.hist[..s.durable]
  {
    ReachableInv(l, d, s);
    StepExtendsHistory(l, s, s');
  }

  lemma StepExtendsHistory(l: Layout, s: State, s': State)
    requires Next(l, s, s') && s.durable <= |s.hist|
    ensures s.durable <= s'.durable <= |s'.hist|
    ensures s'.hist[..s.durable] == s.hist[..s.durable]
  {
    hide Fits, HeaderOk, WriteHead, ReadHead, Logged, View, Absorb, Without, IsHome;
    assert s'.hist == s.hist || s'.hist == s.hist[..s.durable] || (|s'.hist| > 0 && s'.hist[..|s'.hist| - 1] == s.hist);
  }

  /** Outside recovery every reader sees the whole history, also while a commit is under way. */
  lemma ReadersSeeHistory(l: Layout, d: Disk, s: State)
    requires Reachable(l, d, s) && (s.phase.Serving? || s.committing)
    ensures HeaderOk(l, d) && |s.disk| == |d|
    ensures forall b :: IsHome(l, s.disk, b) ==> View(s, b) == Replay(Recover(l, d), s.hist)[b]
  {
    ReachableInv(l, d, s);
    var base := Recover(l, d);
    if s.phase.Installing? {
      RecoverAt(l, s.disk);
      assert s.hist[..|s.hist|] == s.hist;
      forall b | IsHome(l, s.disk, b)
        ensures View(s, b) == Replay(base, s.hist)[b]
      {
        assert IsHome(l, Replay(base, s.hist), b);
        if b in s.lh {
          var i :| 0 <= i < |s.lh| && s.lh[i] == b;
        }
      }
    }
  }

  /** The `end_op` panic and an operation running into a commit are both unreachable. */
  lemma EndOpNeverPanics(l: Layout, d: Disk, s: State)
    requires Reachable(l, d, s)
    ensures s.committing ==> s.outstanding == 0
    ensures s.running != [] ==> !s.committing && s.outstanding == |s.running| >= 1
    ensures Distinct(s.lh) && |s.lh| + Slack(s.running) <= LOGSIZE
  {
    ReachableInv(l, d, s);
  }

  // ---------------------------------------------------------------- when log_write panics

  /** Logging a block within the operation's share never hits a `log_write` panic. */
  ghost predicate InShareSafe(l: Layout) {
    forall d: Disk, s: State, i: nat, b: Word ::
      Reachable(l, d, s) && InShareCall(l, s, i, b) ==> !LogWritePanics(l, s)
  }

  /** The same for blocks that are not in the log yet. */
  ghost predicate NewBlockSafe(l: Layout) {
    forall d: Disk, s: State, i: nat, b: Word ::
      Reachable(l, d, s) && InShareCall(l, s, i, b) && b !in s.lh ==> !LogWritePanics(l, s)
  }

  /** Running operation i calls `log_write` on home block b and stays within its share. */
  predicate InShareCall(l: Layout, s: State, i: nat, b: Word) {
    s.phase.Serving? && i < |s.running| && IsHome(l, s.disk, b) && InBudget(s, i, b)
  }

  lemma Extend(l: Layout, d: Disk, s: State, s': State)
    requires Reachable(l, d, s) && Next(l, s, s')
    ensures Reachable(l, d, s')
  {
    hide Next, Init;
    var run :| IsRun(l, d, run) && run[|run| - 1] == s;
    var run' := run + [s'];
    assert forall k :: 0 <= k < |run'| - 1 ==> Next(l, run'[k], run'[k + 1]);
    assert IsRun(l, d, run') && run'[|run'| - 1] == s';
  }

  /** With room for the whole header an in-share call panics exactly when the header is full.  Then
      every running operation has used up its share and the block is one already listed. */
  lemma FullHeaderPanics(l: Layout, d: Disk, s: State, i: nat, b: Word)
    requires l.size > LOGSIZE && Reachable(l, d, s) && InShareCall(l, s, i, b)
    ensures LogWritePanics(l, s) <==> |s.lh| == LOGSIZE
    ensures |s.lh| == LOGSIZE ==> b in s.lh && forall j :: 0 <= j < |s.running| ==> s.running[j].used == MAXOPBLOCKS
  {
    ReachableInv(l, d, s);
    forall j | 0 <= j < |s.running| && s.running[j].used < MAXOPBLOCKS
      ensures |s.lh| < LOGSIZE
    {
      RoomForOp(s, j);
    }
  }

  function FreshDisk(l: Layout): Disk {
    seq(l.start + l.size + LOGSIZE, i => ZeroBlock())
  }

  /** Blocks logged by operation j once k blocks have been logged in order. */
  function Share(k: nat, j: nat): nat {
    if k <= MAXOPBLOCKS * j then 0
    else if k >= MAXOPBLOCKS * (j + 1) then MAXOPBLOCKS
    else k - MAXOPBLOCKS * j
  }

  /** Three operations are running and have logged k distinct blocks between them. */
  predicate ThreeLogged(l: Layout, s: State, k: nat) {
    && s.phase.Serving? && !s.committing && s.outstanding == 3 && |s.disk| == l.start + l.size + LOGSIZE
    && |s.running| == 3 && (forall j :: 0 <= j < 3 ==> s.running[j].used == Share(k, j))
    && |s.lh| == k && (forall i :: 0 <= i < k ==> s.lh[i] == l.start + l.size + i)
  }

  lemma Boot(l: Layout) returns (s: State)
    requires 1 <= l.size
    ensures Reachable(l, FreshDisk(l), s)
    ensures s.phase.Serving? && s.running == [] && s.lh == [] && s.outstanding == 0 && !s.committing
    ensures |s.disk| == l.start + l.size + LOGSIZE
  {
    var d := FreshDisk(l);
    ZeroBlockWords(0);
    var s0 := State(d, map[], [], 0, false, Down, [], 0, [], 0);
    assert IsRun(l, d, [s0]);
    assert [s0][|[s0]| - 1] == s0;
    var s1 := Reboot(l, s0);
    Extend(l, d, s0, s1);
    var s2 := Advance(l, s1);
    Extend(l, d, s1, s2);
    s := Advance(l, s2);
    Extend(l, d, s2, s);
  }

  lemma StartThree(l: Layout) returns (s: State)
    requires 1 <= l.size
    ensures Reachable(l, FreshDisk(l), s) && ThreeLogged(l, s, 0)
  {
    var d := FreshDisk(l);
    var s0 := Boot(l);
    var s1 := BeginOp(s0);
    Extend(l, d, s0, s1);
    var s2 := BeginOp(s1);
    Extend(l, d, s1, s2);
    s := BeginOp(s2);
    Extend(l, d, s2, s);
  }

  lemma FillOne(l: Layout, s: State, k: nat, v: Block) returns (t: State)
    requires Reachable(l, FreshDisk(l), s) && ThreeLogged(l, s, k)
    requires k + 1 < l.size && k < LOGSIZE && l.start + l.size + LOGSIZE <= 0x1_0000_0000
    ensures k / MAXOPBLOCKS < 3 && t == LogWrite(s, k / MAXOPBLOCKS, l.start + l.size + k, v)
    ensures Reachable(l, FreshDisk(l), t) && ThreeLogged(l, t, k + 1)
  {
    hide Advance, Crash, Reboot, CanAdvance, HeaderOk, Reachable, FreshDisk;
    var i: nat := k / MAXOPBLOCKS;
    var b: Word := l.start + l.size + k;
    assert b !in s.lh;
    t := LogWrite(s, i, b, v);
    Extend(l, FreshDisk(l), s, t);
  }

  lemma {:induction false} Fill(l: Layout, k: nat) returns (s: State)
    requires k < l.size && k <= LOGSIZE && l.start + l.size + LOGSIZE <= 0x1_0000_0000
    ensures Reachable(l, FreshDisk(l), s) && ThreeLogged(l, s, k)
  {
    if k == 0 {
      s := StartThree(l);
    } else {
      s := Fill(l, k - 1);
      s := FillOne(l, s, k - 1, ZeroBlock());
    }
  }

  /** A run of three operations that fill the header and then log a listed block again. */
  lemma FullHeaderReached(l: Layout) returns (s: State)
    requires l.size > LOGSIZE && l.start + l.size + LOGSIZE <= 0x1_0000_0000
    ensures Reachable(l, FreshDisk(l), s) && |s.running| == 3 && |s.lh| == LOGSIZE
    ensures InShareCall(l, s, 0, s.lh[0]) && LogWritePanics(l, s)
  {
    s := Fill(l, LOGSIZE);
    assert s.lh[0] in s.lh;
  }

  /** And a run that ends all three and so has to commit as many blocks as there are buffers. */
  lemma FullCommitReached(l: Layout) returns (s: State)
    requires l.size > LOGSIZE && l.start + l.size + LOGSIZE <= 0x1_0000_0000
    ensures Reachable(l, FreshDisk(l), s) && s.phase == WritingLog(0) && |s.lh| == LOGSIZE
  {
    var d := FreshDisk(l);
    var s0 := FullHeaderReached(l);
    ReachableInv(l, d, s0);
    var s1 := EndOp(s0, 0);
    Extend(l, d, s0, s1);
    var s2 := EndOp(s1, 0);
    Extend(l, d, s1, s2);
    s := EndOp(s2, 0);
    Extend(l, d, s2, s);
  }

  /** Whatever the size of the log, some run has an in-share call that panics: the guard of
      `log_write` comes before the search for a listed block. */
  lemma InShareNeverSafe(l: Layout)
    requires 1 <= l.size && l.start + l.size + LOGSIZE <= 0x1_0000_0000
    ensures !InShareSafe(l)
  {
    if l.size > LOGSIZE {
      var s := FullHeaderReached(l);
    } else {
      var s := Fill(l, l.size - 1);
      SmallLogPanics(l, s);
    }
  }

  lemma SmallLogPanics(l: Layout, s: State)
    requires 1 <= l.size <= LOGSIZE && l.start + l.size + LOGSIZE <= 0x1_0000_0000 && ThreeLogged(l, s, l.size - 1)
    ensures LogWritePanics(l, s)
    ensures exists i: nat, b: Word :: InShareCall(l, s, i, b) && b !in s.lh
  {
    var i: nat := (l.size - 1) / MAXOPBLOCKS;
    var b: Word := l.start + l.size + (l.size - 1);
    assert s.running[i].used < MAXOPBLOCKS;
    assert InShareCall(l, s, i, b) && b !in s.lh;
  }

  /** For blocks not listed yet the panic is ruled out exactly when the log has one block more
      than the header can list; `mkfs` lays out one block fewer. */
  lemma LogWritePanicsExactly(l: Layout)
    requires 1 <= l.size && l.start + l.size + LOGSIZE <= 0x1_0000_0000
    ensures NewBlockSafe(l) <==> l.size > LOGSIZE
  {
    if l.size > LOGSIZE {
      forall d: Disk, s: State, i: nat, b: Word | Reachable(l, d, s) && InShareCall(l, s, i, b) && b !in s.lh
        ensures !LogWritePanics(l, s)
      {
        FullHeaderPanics(l, d, s, i, b);
      }
    } else {
      var s := Fill(l, l.size - 1);
      SmallLogPanics(l, s);
    }
  }
}
