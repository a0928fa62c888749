/** `log_write` as two steps: the guard, read without the lock, and the locked append.

Calls of other operations may come between the two.  In a log of more than LOGSIZE blocks this is
harmless: all runs are runs of the protocol.  In a smaller one, such as `mkfs` makes, two calls that
pass the guard together list more blocks than the log holds.
*/
module LogRace {
  import opened Collections
  import opened Blocks
  import opened Log
  import opened LogMachine
  import opened LogProofs
  import opened LogRuns

  datatype Option<T> = None | Some(value: T)

  /** `asked[i]` is the block operation i has passed the guard for and not appended yet. */
  datatype Race = Race(s: State, asked: seq<Option<Word>>)

  /** The guard passes for operation i and block b within its share. */
  predicate CanAsk(l: Layout, r: Race, i: nat, b: Word) {
    i < |r.asked| && r.asked[i].None? && InShareCall(l, r.s, i, b) && !LogWritePanics(l, r.s)
  }

  ghost predicate Step(l: Layout, r: Race, t: Race) {
    || (CanBegin(r.s) && t == Race(BeginOp(r.s), r.asked + [None]))
    || (exists i: nat, b: Word :: CanAsk(l, r, i, b) && t == r.(asked := r.asked[i := Some(b)]))
    || (exists i: nat, v: Block :: CanFinish(r, i) && t == Finish(r, i, v))
    || (exists i: nat :: CanLeave(r, i) && t == Race(EndOp(r.s, i), Without(r.asked, i)))
    || (CanAdvance(l, r.s) && t == r.(s := Advance(l, r.s)))
    || (r.s.durable <= |r.s.hist| && t == Race(Crash(r.s), []))
    || (r.s.phase.Down? && HeaderOk(l, r.s.disk) && t == r.(s := Reboot(l, r.s)))
  }

  predicate CanFinish(r: Race, i: nat) {
    r.s.phase.Serving? && i < |r.asked| == |r.s.running| && r.asked[i].Some?
  }

  /** The locked part of `log_write`. */
  function Finish(r: Race, i: nat, v: Block): Race
    requires CanFinish(r, i)
  {
    Race(LogWrite(r.s, i, r.asked[i].value, v), r.asked[i := None])
  }

  /** An operation does not end inside a call. */
  predicate CanLeave(r: Race, i: nat) {
    CanEnd(r.s, i) && i < |r.asked| && r.asked[i].None?
  }

  ghost predicate IsRace(l: Layout, d: Disk, run: seq<Race>) {
    && run != [] && Init(l, d, run[0].s) && run[0].asked == []
    && forall k :: 0 <= k < |run| - 1 ==> Step(l, run[k], run[k + 1])
  }

  ghost predicate Raced(l: Layout, d: Disk, r: Race) {
    exists run :: IsRace(l, d, run) && run[|run| - 1] == r
  }

  // ---------------------------------------------------------------- a large log

  /** What a call has passed the guard for it can still append. */
  ghost predicate AskedOk(l: Layout, r: Race) {
    && |r.asked| == |r.s.running|
    && forall i :: 0 <= i < |r.asked| && r.asked[i].Some? ==> InShareCall(l, r.s, i, r.asked[i].value)
  }

  ghost predicate RaceInv(l: Layout, d: Disk, r: Race) {
    Reachable(l, d, r.s) && AskedOk(l, r)
  }

  lemma RoomToFinish(l: Layout, d: Disk, r: Race, i: nat)
    requires l.size > LOGSIZE && RaceInv(l, d, r) && CanFinish(r, i)
    ensures CanAppend(l, r.s, i, r.asked[i].value)
  {
    hide Reachable;
    ReachableInv(l, d, r.s);
    var b := r.asked[i].value;
    assert InShareCall(l, r.s, i, b);
    if b !in r.s.lh {
      RoomForOp(r.s, i);
    }
  }

  lemma FinishKeeps(l: Layout, d: Disk, r: Race, i: nat, v: Block)
    requires l.size > LOGSIZE && RaceInv(l, d, r) && CanFinish(r, i)
    ensures RaceInv(l, d, Finish(r, i, v))
  {
    RoomToFinish(l, d, r, i);
    hide Reachable, Advance, Crash, Reboot, CanAdvance, HeaderOk;
    Extend(l, d, r.s, Finish(r, i, v).s);
  }

  lemma LeaveKeeps(l: Layout, d: Disk, r: Race, i: nat)
    requires RaceInv(l, d, r) && CanLeave(r, i)
    ensures RaceInv(l, d, Race(EndOp(r.s, i), Without(r.asked, i)))
  {
    hide Reachable, Advance, Crash, Reboot, CanAdvance, HeaderOk;
    ReachableInv(l, d, r.s);
    Extend(l, d, r.s, EndOp(r.s, i));
  }

  lemma QuietAsks(l: Layout, d: Disk, s: State)
    requires Reachable(l, d, s) && !s.phase.Serving?
    ensures s.running == []
  {
    ReachableInv(l, d, s);
  }

  lemma {:induction false} StepKeepsRace(l: Layout, d: Disk, r: Race, t: Race)
    requires l.size > LOGSIZE && RaceInv(l, d, r) && Step(l, r, t)
    ensures RaceInv(l, d, t)
  {
    hide Reachable, HeaderOk, WriteHead, ReadHead;
    if t.s != r.s && !(exists i: nat, v: Block :: CanFinish(r, i) && t == Finish(r, i, v)) {
      assert Next(l, r.s, t.s);
      Extend(l, d, r.s, t.s);
    }
    if i: nat, v: Block :| CanFinish(r, i) && t == Finish(r, i, v) {
      FinishKeeps(l, d, r, i, v);
    } else if i: nat :| CanLeave(r, i) && t == Race(EndOp(r.s, i), Without(r.asked, i)) {
      LeaveKeeps(l, d, r, i);
    } else if CanAdvance(l, r.s) && t == r.(s := Advance(l, r.s)) {
      QuietAsks(l, d, r.s);
    } else if r.s.phase.Down? {
      QuietAsks(l, d, r.s);
    }
  }

  lemma {:induction false} RaceIsRun(l: Layout, d: Disk, run: seq<Race>, k: nat)
    requires l.size > LOGSIZE && IsRace(l, d, run) && k < |run|
    ensures RaceInv(l, d, run[k])
  {
    hide Step, Init;
    if k == 0 {
      StartRace(l, d, run[0]);
    } else {
      RaceIsRun(l, d, run, k - 1);
      StepKeepsRace(l, d, run[k - 1], run[k]);
    }
  }

  lemma OneState(l: Layout, d: Disk, s: State)
    requires Init(l, d, s)
    ensures LogRuns.IsRun(l, d, [s])
  {
  }

  lemma StartRace(l: Layout, d: Disk, r: Race)
    requires Init(l, d, r.s) && r.asked == []
    ensures RaceInv(l, d, r)
  {
    OneState(l, d, r.s);
    assert [r.s][|[r.s]| - 1] == r.s;
  }

  /** With more than LOGSIZE blocks in the log every such run is a run of the protocol, so all that
      module `LogRuns` says holds of it. */
  lemma RaceIsHarmless(l: Layout, d: Disk, r: Race)
    requires l.size > LOGSIZE && Raced(l, d, r)
    ensures Reachable(l, d, r.s) && |r.s.lh| < l.size
  {
    hide Step, Reachable;
    var run :| IsRace(l, d, run) && run[|run| - 1] == r;
    RaceIsRun(l, d, run, |run| - 1);
    ReachableInv(l, d, r.s);
  }

  // ---------------------------------------------------------------- a small log

  lemma ExtendRace(l: Layout, d: Disk, r: Race, t: Race)
    requires Raced(l, d, r) && Step(l, r, t)
    ensures Raced(l, d, t)
  {
    hide Step, Init;
    var run :| IsRace(l, d, run) && run[|run| - 1] == r;
    var run' := run + [t];
    assert forall k :: 0 <= k < |run'| - 1 ==> Step(l, run'[k], run'[k + 1]);
    assert IsRace(l, d, run') && run'[|run'| - 1] == t;
  }

  /** Three operations have taken turns to log k blocks. */
  predicate Rotated(l: Layout, r: Race, k: nat) {
    && r.s.phase.Serving? && !r.s.committing && r.s.outstanding == 3 && |r.s.disk| == l.start + l.size + LOGSIZE
    && |r.s.running| == |r.asked| == 3 && (forall j :: 0 <= j < 3 ==> r.s.running[j].used == (k + 2 - j) / 3)
    && |r.s.lh| == k && (forall i :: 0 <= i < k ==> r.s.lh[i] == l.start + l.size + i)
  }

  lemma BootRace(l: Layout) returns (r: Race)
    requires 1 <= l.size
    ensures Raced(l, FreshDisk(l), r) && Rotated(l, r, 0) && r.asked == [None, None, None]
  {
    var d := FreshDisk(l);
    ZeroBlockWords(0);
    var s0 := State(d, map[], [], 0, false, Down, [], 0, [], 0);
    var r0 := Race(s0, []);
    assert IsRace(l, d, [r0]) && [r0][|[r0]| - 1] == r0;
    var r1 := r0.(s := Reboot(l, s0));
    ExtendRace(l, d, r0, r1);
    var r2 := r1.(s := Advance(l, r1.s));
    ExtendRace(l, d, r1, r2);
    var r3 := r2.(s := Advance(l, r2.s));
    ExtendRace(l, d, r2, r3);
    r := BeginThree(l, r3);
  }

  lemma BeginThree(l: Layout, r0: Race) returns (r: Race)
    requires Raced(l, FreshDisk(l), r0) && r0.s.phase.Serving? && !r0.s.committing && r0.s.outstanding == 0
    requires r0.s.running == [] && r0.s.lh == [] && r0.asked == [] && |r0.s.disk| == l.start + l.size + LOGSIZE
    ensures Raced(l, FreshDisk(l), r) && Rotated(l, r, 0) && r.asked == [None, None, None]
  {
    hide Raced;
    var d := FreshDisk(l);
    var r1 := Race(BeginOp(r0.s), r0.asked + [None]);
    ExtendRace(l, d, r0, r1);
    var r2 := Race(BeginOp(r1.s), r1.asked + [None]);
    ExtendRace(l, d, r1, r2);
    r := Race(BeginOp(r2.s), r2.asked + [None]);
    ExtendRace(l, d, r2, r);
  }

  /** Operation j passes the guard for the next block but one, two or none. */
  lemma Ask(l: Layout, r: Race, k: nat, j: nat, x: nat) returns (t: Race)
    requires Raced(l, FreshDisk(l), r) && Rotated(l, r, k) && j < 3 && r.asked[j].None? && x < LOGSIZE && k <= x
    requires k < l.size - 1 && k < LOGSIZE - 1 && r.s.running[j].used < MAXOPBLOCKS
    requires l.start + l.size + LOGSIZE <= 0x1_0000_0000
    ensures t == r.(asked := r.asked[j := Some(l.start + l.size + x)])
    ensures Raced(l, FreshDisk(l), t) && Rotated(l, t, k)
  {
    hide Raced;
    var b: Word := l.start + l.size + x;
    assert CanAsk(l, r, j, b);
    t := r.(asked := r.asked[j := Some(b)]);
    ExtendRace(l, FreshDisk(l), r, t);
  }

  lemma Append(l: Layout, r: Race, k: nat) returns (t: Race)
    requires Raced(l, FreshDisk(l), r) && Rotated(l, r, k)
    requires l.start + l.size + LOGSIZE <= 0x1_0000_0000 && k < LOGSIZE
    requires r.asked[k % 3] == Some(l.start + l.size + k)
    ensures t.asked == r.asked[k % 3 := None]
    ensures Raced(l, FreshDisk(l), t) && Rotated(l, t, k + 1)
  {
    hide Raced, Rotated;
    Counts(l, r, k);
    assert CanFinish(r, k % 3);
    t := Finish(r, k % 3, ZeroBlock());
    assert Step(l, r, t) by { FinishIsStep(l, r, k % 3, ZeroBlock()); }
    ExtendRace(l, FreshDisk(l), r, t);
    AppendRotates(l, r, k);
  }

  lemma Counts(l: Layout, r: Race, k: nat)
    requires Rotated(l, r, k)
    ensures r.s.phase.Serving? && |r.s.running| == |r.asked| == 3
  {
  }

  lemma FinishIsStep(l: Layout, r: Race, i: nat, v: Block)
    requires CanFinish(r, i)
    ensures Step(l, r, Finish(r, i, v))
  {
    hide Finish;
  }

  lemma AppendRotates(l: Layout, r: Race, k: nat)
    requires Rotated(l, r, k) && l.start + l.size + LOGSIZE <= 0x1_0000_0000 && k < LOGSIZE
    requires r.asked[k % 3] == Some(l.start + l.size + k)
    ensures Rotated(l, Finish(r, k % 3, ZeroBlock()), k + 1)
  {
    var t := Finish(r, k % 3, ZeroBlock());
    assert l.start + l.size + k !in r.s.lh;
    forall j | 0 <= j < 3
      ensures t.s.running[j].used == (k + 1 + 2 - j) / 3
    {
      NextTurn(k, j);
    }
  }

  lemma NextTurn(k: nat, j: nat)
    requires j < 3
    ensures (k + 1 + 2 - j) / 3 == (k + 2 - j) / 3 + if j == k % 3 then 1 else 0
  {
  }

  lemma {:induction false} FillRace(l: Layout, k: nat) returns (r: Race)
    requires k <= l.size - 1 && k <= LOGSIZE - 2 && 1 <= l.size && l.start + l.size + LOGSIZE <= 0x1_0000_0000
    ensures Raced(l, FreshDisk(l), r) && Rotated(l, r, k) && r.asked == [None, None, None]
  {
    hide Raced;
    if k == 0 {
      r := BootRace(l);
    } else {
      var r0 := FillRace(l, k - 1);
      var r1 := Ask(l, r0, k - 1, (k - 1) % 3, k - 1);
      r := Append(l, r1, k - 1);
    }
  }

  /** Two operations pass the guard when one entry is left, and both append. */
  lemma TwoPassTheGuard(l: Layout) returns (r: Race)
    requires 2 <= l.size <= LOGSIZE && l.start + l.size + LOGSIZE <= 0x1_0000_0000
    ensures Raced(l, FreshDisk(l), r) && |r.s.lh| == l.size && !InLog(l, l.start + |r.s.lh|)
  {
    hide Raced;
    var k := l.size - 2;
    var r0 := FillRace(l, k);
    var r1 := Ask(l, r0, k, k % 3, k);
    var r2 := Ask(l, r1, k, (k + 1) % 3, k + 1);
    var r3 := Append(l, r2, k);
    r := Append(l, r3, k + 1);
  }

  /** In all runs the list fits into the log. */
  ghost predicate NeverOverflows(l: Layout) {
    forall d: Disk, r: Race :: Raced(l, d, r) ==> |r.s.lh| < l.size
  }

  /** That is so exactly with more than LOGSIZE blocks in the log. */
  lemma OverflowsExactly(l: Layout)
    requires 2 <= l.size && l.start + l.size + LOGSIZE <= 0x1_0000_0000
    ensures NeverOverflows(l) <==> l.size > LOGSIZE
  {
    hide Raced;
    if l.size > LOGSIZE {
      forall d: Disk, r: Race | Raced(l, d, r)
        ensures |r.s.lh| < l.size
      {
        RaceIsHarmless(l, d, r);
      }
    } else {
      var r := TwoPassTheGuard(l);
    }
  }
}
