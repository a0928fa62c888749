/** Proof that every step of the logging protocol keeps its invariant. */
module LogProofs {
  import opened Collections
  import opened Blocks
  import opened Log
  import opened LogHistory
  import opened LogMachine

  // ---------------------------------------------------------------- reserved log space

  lemma SlackSnoc(ops: seq<Op>, op: Op)
    ensures Slack(ops + [op]) == Slack(ops) + MAXOPBLOCKS - op.used
  {
    assert (ops + [op])[..|ops|] == ops;
  }

  lemma {:induction false} SlackSplit(ops: seq<Op>, i: nat)
    requires i < |ops|
    ensures Slack(ops) == Slack(Without(ops, i)) + MAXOPBLOCKS - ops[i].used
  {
    var n := |ops| - 1;
    if i == n {
      assert Without(ops, i) == ops[..n];
    } else {
      SlackSplit(ops[..n], i);
      assert Without(ops, i) == Without(ops[..n], i) + [ops[n]];
      SlackSnoc(Without(ops[..n], i), ops[n]);
    }
  }

  lemma SlackUpdate(ops: seq<Op>, i: nat, op: Op)
    requires i < |ops|
    ensures Slack(ops[i := op]) == Slack(ops) + ops[i].used - op.used
  {
    SlackSplit(ops, i);
    SlackSplit(ops[i := op], i);
    assert Without(ops, i) == Without(ops[i := op], i);
  }

  lemma {:induction false} SlackBounds(ops: seq<Op>)
    requires forall i :: 0 <= i < |ops| ==> ops[i].used <= MAXOPBLOCKS
    ensures 0 <= Slack(ops) <= |ops| * MAXOPBLOCKS
  {
    if ops != [] {
      SlackBounds(ops[..|ops| - 1]);
    }
  }

  /** An operation with budget left always finds room in the header. */
  lemma RoomForOp(s: State, i: nat)
    requires Budget(s) && i < |s.running| && s.running[i].used < MAXOPBLOCKS
    ensures |s.lh| < LOGSIZE
  {
    SlackSplit(s.running, i);
    SlackBounds(Without(s.running, i));
  }

  // ---------------------------------------------------------------- begin_op

  lemma HistoryGrows(s: State, e: Event)
    requires s.durable <= |s.hist|
    ensures (s.hist + [e])[..s.durable] == s.hist[..s.durable]
  {
  }

  lemma BeginKeepsBudget(s: State)
    requires Budget(s) && CanBegin(s)
    ensures Budget(BeginOp(s))
  {
    SlackBounds(s.running);
    SlackSnoc(s.running, Op(s.nextId, 0));
  }

  lemma BeginKeepsHistory(s: State)
    requires HistoryInv(s)
    ensures HistoryInv(BeginOp(s))
  {
    var e := Begin(s.nextId);
    HistoryGrows(s, e);
    Snoc([], s.hist, e);
    assert !Mentions(s.hist, s.nextId);
    var t := BeginOp(s);
    IdsFresh(s);
    assert forall i :: 0 <= i < |s.running| ==> t.running[i] == s.running[i];
    assert t.running[|s.running|].id == s.nextId;
    assert OpIds(t.running) == OpIds(s.running) + {s.nextId};
  }

  /** Running operations have identifiers that were handed out. */
  lemma IdsFresh(s: State)
    requires HistoryInv(s)
    ensures forall i :: 0 <= i < |s.running| ==> s.running[i].id < s.nextId
  {
    forall i | 0 <= i < |s.running|
      ensures s.running[i].id < s.nextId
    {
      assert s.running[i].id in OpIds(s.running);
      ActiveMentioned(s.hist, s.running[i].id);
    }
  }

  lemma {:induction false} ActiveMentioned(h: History, id: nat)
    requires id in Active(h)
    ensures Mentions(h, id)
  {
    var p := h[..|h| - 1];
    if id in Active(p) {
      ActiveMentioned(p, id);
      var i :| 0 <= i < |p| && p[i].id == id;
      assert h[i].id == id;
    } else {
      assert h[|h| - 1].id == id;
    }
  }

  lemma BeginKeepsInv(l: Layout, base: Disk, s: State)
    requires Inv(l, base, s) && CanBegin(s)
    ensures Inv(l, base, BeginOp(s))
  {
    BeginKeepsBudget(s);
    BeginKeepsHistory(s);
    HistoryGrows(s, Begin(s.nextId));
    Snoc(base, s.hist, Begin(s.nextId));
    var t := BeginOp(s);
    assert t.running != [];
    assert forall b :: IsHome(l, s.disk, b) ==> View(t, b) == View(s, b);
  }

  // ---------------------------------------------------------------- log_write

  lemma LogWriteKeepsBudget(l: Layout, s: State, i: nat, b: Word, v: Block)
    requires Budget(s) && CanAppend(l, s, i, b)
    ensures Budget(LogWrite(s, i, b, v))
  {
    SlackUpdate(s.running, i, LogWrite(s, i, b, v).running[i]);
  }

  lemma LogWriteKeepsHistory(s: State, i: nat, b: Word, v: Block)
    requires HistoryInv(s) && i < |s.running|
    ensures HistoryInv(LogWrite(s, i, b, v))
  {
    var e := Write(s.running[i].id, b, v);
    HistoryGrows(s, e);
    Snoc([], s.hist, e);
    IdsFresh(s);
    var t := LogWrite(s, i, b, v);
    assert forall j :: 0 <= j < |s.running| ==> t.running[j].id == s.running[j].id;
    assert s.running[i].id in OpIds(s.running);
    assert OpIds(t.running) == OpIds(s.running);
  }

  lemma LogWriteKeepsShape(l: Layout, s: State, i: nat, b: Word, v: Block)
    requires Shape(l, s) && CanAppend(l, s, i, b)
    ensures Shape(l, LogWrite(s, i, b, v))
  {
  }

  lemma LogWriteView(l: Layout, base: Disk, s: State, i: nat, b: Word, v: Block)
    requires ViewIsReplay(l, base, s) && CanAppend(l, s, i, b)
    ensures ViewIsReplay(l, base, LogWrite(s, i, b, v))
  {
    Snoc(base, s.hist, Write(s.running[i].id, b, v));
    var t := LogWrite(s, i, b, v);
    assert forall c :: IsHome(l, s.disk, c) ==> View(t, c) == if c == b then v else View(s, c);
  }

  lemma LogWriteKeepsInv(l: Layout, base: Disk, s: State, i: nat, b: Word, v: Block)
    requires Inv(l, base, s) && CanAppend(l, s, i, b)
    ensures Inv(l, base, LogWrite(s, i, b, v))
  {
    LogWriteKeepsShape(l, s, i, b, v);
    LogWriteKeepsBudget(l, s, i, b, v);
    LogWriteKeepsHistory(s, i, b, v);
    LogWriteView(l, base, s, i, b, v);
    HistoryGrows(s, Write(s.running[i].id, b, v));
    var t := LogWrite(s, i, b, v);
    assert t.running != [];
    assert AllPinned(t);
  }

  // ---------------------------------------------------------------- end_op

  lemma EndKeepsBudget(s: State, i: nat)
    requires Budget(s) && i < |s.running|
    ensures Budget(EndOp(s, i))
  {
    SlackSplit(s.running, i);
  }

  lemma OpIdsRemove(ops: seq<Op>, i: nat)
    requires DistinctIds(ops) && i < |ops|
    ensures OpIds(Without(ops, i)) == OpIds(ops) - {ops[i].id}
    ensures DistinctIds(Without(ops, i))
  {
    var r := Without(ops, i);
    forall id | id in OpIds(ops) && id != ops[i].id
      ensures id in OpIds(r)
    {
      var j :| 0 <= j < |ops| && ops[j].id == id;
      assert r[if j < i then j else j - 1].id == id;
    }
  }

  lemma EndHistory(s: State, i: nat)
    requires HistoryInv(s) && i < |s.running|
    ensures var h := s.hist + [End(s.running[i].id)];
            && WellFormed(h)
            && (forall j :: 0 <= j < |h| ==> h[j].id < s.nextId)
            && Active(h) == OpIds(Without(s.running, i))
            && DistinctIds(Without(s.running, i))
  {
    Snoc([], s.hist, End(s.running[i].id));
    IdsFresh(s);
    OpIdsRemove(s.running, i);
    assert s.running[i].id in OpIds(s.running);
  }

  lemma EndKeepsHistory(s: State, i: nat)
    requires HistoryInv(s) && Budget(s) && i < |s.running|
    ensures HistoryInv(EndOp(s, i))
  {
    EndHistory(s, i);
    HistoryGrows(s, End(s.running[i].id));
    var t := EndOp(s, i);
    if t.outstanding == 0 {
      assert t.running == [];
      assert OpIds(t.running) == {};
      assert t.hist[..|t.hist|] == t.hist;
    }
  }

  /** With nothing pinned, the disk already holds the whole history. */
  lemma NothingPending(l: Layout, base: Disk, s: State)
    requires HeaderIs(l, s, []) && ViewIsReplay(l, base, s) && s.pinned == map[]
    ensures SameHome(l, Replay(base, s.hist), Recover(l, s.disk))
  {
    RecoverEmpty(l, s.disk);
    forall b | IsHome(l, s.disk, b)
      ensures Replay(base, s.hist)[b] == Recover(l, s.disk)[b]
    {
      assert View(s, b) == s.disk[b];
    }
  }

  lemma EndView(l: Layout, base: Disk, s: State, i: nat)
    requires ViewIsReplay(l, base, s) && i < |s.running|
    ensures ViewIsReplay(l, base, EndOp(s, i))
    ensures HistoryGrewOnly(s, EndOp(s, i))
  {
    Snoc(base, s.hist, End(s.running[i].id));
    var t := EndOp(s, i);
    assert forall b :: IsHome(l, s.disk, b) ==> View(t, b) == View(s, b);
  }

  predicate HistoryGrewOnly(s: State, t: State) {
    t.disk == s.disk && t.pinned == s.pinned && t.lh == s.lh
  }

  lemma EndRecoverable(l: Layout, base: Disk, s: State, i: nat)
    requires Shape(l, s) && ViewIsReplay(l, base, s) && Recoverable(l, base, s) && HeaderIs(l, s, []) && i < |s.running|
    ensures Recoverable(l, base, EndOp(s, i))
  {
    var t := EndOp(s, i);
    HistoryGrows(s, End(s.running[i].id));
    EndView(l, base, s, i);
    if t.phase.Erased? && |t.lh| == 0 {
      assert t.pinned == map[];
      NothingPending(l, base, t);
      assert t.hist[..|t.hist|] == t.hist;
    }
  }

  lemma EndKeepsInv(l: Layout, base: Disk, s: State, i: nat)
    requires Inv(l, base, s) && CanEnd(s, i)
    ensures Inv(l, base, EndOp(s, i))
  {
    EndKeepsBudget(s, i);
    EndKeepsHistory(s, i);
    EndView(l, base, s, i);
    EndRecoverable(l, base, s, i);
  }

  // ---------------------------------------------------------------- commit and recovery, one write at a time

  /** Writing a data block of an unused log is invisible to recovery. */
  lemma LogDataInvisible(l: Layout, d: Disk, t: nat, v: Block)
    requires HeaderOk(l, d) && ReadHead(d[l.start]) == [] && t + 1 < l.size
    ensures HeaderOk(l, d[l.start + 1 + t := v])
    ensures ReadHead(d[l.start + 1 + t := v][l.start]) == []
    ensures SameHome(l, Recover(l, d), Recover(l, d[l.start + 1 + t := v]))
  {
    RecoverCong(l, d, d[l.start + 1 + t := v]);
  }

  lemma WriteLogViews(l: Layout, base: Disk, s: State)
    requires Shape(l, s) && ViewIsReplay(l, base, s) && s.phase.WritingLog? && s.phase.tail < |s.lh|
    requires LogHolds(l, s, s.phase.tail)
    ensures ViewIsReplay(l, base, Advance(l, s)) && LogHolds(l, Advance(l, s), s.phase.tail + 1)
  {
    var t, u := s.phase.tail, Advance(l, s);
    assert forall b :: IsHome(l, s.disk, b) ==> View(u, b) == View(s, b);
    assert forall i :: 0 <= i < t ==> Logged(l, u.disk, i) == Logged(l, s.disk, i);
  }

  lemma WriteLogKeepsInv(l: Layout, base: Disk, s: State)
    requires Inv(l, base, s) && s.phase.WritingLog? && s.phase.tail < |s.lh|
    ensures Inv(l, base, Advance(l, s))
  {
    var t := s.phase.tail;
    LogDataInvisible(l, s.disk, t, View(s, s.lh[t]));
    WriteLogViews(l, base, s);
  }

  /** The commit point: the header write makes the whole pending history recoverable. */
  lemma CommitPoint(l: Layout, base: Disk, s: State)
    requires Shape(l, s) && s.phase.WritingLog? && s.phase.tail == |s.lh| && PhaseInv(l, base, s)
    ensures var u := Advance(l, s);
            HeaderIs(l, u, s.lh) && SameHome(l, Replay(base, s.hist), Recover(l, u.disk))
  {
    hide Recover, WriteHead, ReadHead, Replay, GetWord;
    var u := Advance(l, s);
    HeadRoundTrip(s.disk[l.start], s.lh);
    assert HeaderIs(l, u, s.lh);
    RecoverAt(l, u.disk);
    forall b | IsHome(l, u.disk, b)
      ensures Replay(base, s.hist)[b] == Recover(l, u.disk)[b]
    {
      assert View(s, b) == Replay(base, s.hist)[b];
      if b in s.lh {
        var i :| 0 <= i < |s.lh| && s.lh[i] == b;
        assert Logged(l, u.disk, i) == Logged(l, s.disk, i) == View(s, b);
      }
    }
  }

  lemma CommitPointHistory(l: Layout, s: State)
    requires HistoryInv(s) && s.running == [] && s.phase.WritingLog? && s.phase.tail == |s.lh| && Fits(l, s.disk, s.lh)
    ensures HistoryInv(Advance(l, s))
  {
    assert s.hist[..|s.hist|] == s.hist;
    assert OpIds(s.running) == {};
  }

  lemma CommitPointPhase(l: Layout, s: State)
    requires Shape(l, s) && s.phase.WritingLog? && s.phase.tail == |s.lh| && AllPinned(s) && LogHolds(l, s, |s.lh|)
    ensures Shape(l, Advance(l, s)) && InstallInv(l, Advance(l, s), 0)
  {
    var u := Advance(l, s);
    forall i | 0 <= i < |s.lh|
      ensures Logged(l, u.disk, i) == s.pinned[s.lh[i]]
    {
      assert Logged(l, s.disk, i) == View(s, s.lh[i]);
    }
  }

  lemma CommitPointKeepsInv(l: Layout, base: Disk, s: State)
    requires Inv(l, base, s) && s.phase.WritingLog? && s.phase.tail == |s.lh|
    ensures Inv(l, base, Advance(l, s))
  {
    CommitPoint(l, base, s);
    CommitPointHistory(l, s);
    CommitPointPhase(l, s);
    assert s.hist[..|s.hist|] == s.hist;
  }

  lemma InstallStepRecover(l: Layout, s: State)
    requires Shape(l, s) && s.phase.Installing? && s.phase.tail < |s.lh| && HeaderIs(l, s, s.lh)
    ensures var u := Advance(l, s);
            HeaderIs(l, u, s.lh) && SameHome(l, Recover(l, s.disk), Recover(l, u.disk))
  {
    RecoverCong(l, s.disk, Advance(l, s).disk);
  }

  lemma InstallStepKeepsInv(l: Layout, base: Disk, s: State)
    requires Inv(l, base, s) && s.phase.Installing? && s.phase.tail < |s.lh|
    ensures Inv(l, base, Advance(l, s))
  {
    InstallStepRecover(l, s);
    InstallStepPhase(l, s);
  }

  lemma InstallStepPhase(l: Layout, s: State)
    requires Shape(l, s) && s.phase.Installing? && s.phase.tail < |s.lh| && InstallInv(l, s, s.phase.tail)
    ensures Shape(l, Advance(l, s)) && InstallInv(l, Advance(l, s), s.phase.tail + 1)
  {
    var t, u := s.phase.tail, Advance(l, s);
    forall i | 0 <= i < |s.lh|
      ensures Logged(l, u.disk, i) == Logged(l, s.disk, i)
    {
      assert s.lh[t] != l.start + 1 + i;
    }
  }

  /** Erasing the header after a complete install changes nothing recovery can see. */
  lemma EraseRecover(l: Layout, s: State)
    requires Shape(l, s) && s.phase == Installing(|s.lh|) && HeaderIs(l, s, s.lh) && InstallInv(l, s, |s.lh|)
    ensures var u := Advance(l, s);
            && HeaderIs(l, u, []) && u.pinned == map[]
            && SameHome(l, Recover(l, s.disk), Recover(l, u.disk))
            && SameHome(l, Recover(l, u.disk), u.disk)
  {
    var u := Advance(l, s);
    HeadRoundTrip(s.disk[l.start], []);
    assert HeaderIs(l, u, []);
    RecoverAt(l, s.disk);
    RecoverEmpty(l, u.disk);
    assert forall b :: b !in s.pinned;
    forall b | IsHome(l, s.disk, b)
      ensures Recover(l, s.disk)[b] == u.disk[b]
    {
      if b in s.lh {
        var i :| 0 <= i < |s.lh| && s.lh[i] == b;
      }
    }
  }

  lemma EraseKeepsInv(l: Layout, base: Disk, s: State)
    requires Inv(l, base, s) && s.phase.Installing? && s.phase.tail == |s.lh|
    ensures Inv(l, base, Advance(l, s))
  {
    var u := Advance(l, s);
    EraseRecover(l, s);
    assert s.hist[..|s.hist|] == s.hist;
    forall b | IsHome(l, u.disk, b)
      ensures View(u, b) == Replay(base, u.hist)[b]
    {
      assert IsHome(l, Recover(l, u.disk), b);
    }
  }

  lemma AdvanceKeepsInv(l: Layout, base: Disk, s: State)
    requires Inv(l, base, s) && CanAdvance(l, s)
    ensures Inv(l, base, Advance(l, s))
  {
    match s.phase
    case WritingLog(t) =>
      if t < |s.lh| { WriteLogKeepsInv(l, base, s); } else { CommitPointKeepsInv(l, base, s); }
    case Installing(t) =>
      if t < |s.lh| { InstallStepKeepsInv(l, base, s); } else { EraseKeepsInv(l, base, s); }
    case Erased =>
      FinishKeepsInv(l, base, s);
  }

  lemma FinishKeepsInv(l: Layout, base: Disk, s: State)
    requires Inv(l, base, s) && s.phase.Erased?
    ensures Inv(l, base, Advance(l, s))
  {
    var u := Advance(l, s);
    assert forall b :: IsHome(l, s.disk, b) ==> View(u, b) == View(s, b);
  }

  // ---------------------------------------------------------------- crash and reboot

  lemma CrashKeepsInv(l: Layout, base: Disk, s: State)
    requires Inv(l, base, s)
    ensures Inv(l, base, Crash(s))
  {
    var u := Crash(s);
    WellFormedPrefix(s.hist, s.durable);
    assert u.hist[..u.durable] == u.hist;
    assert OpIds(u.running) == {};
  }

  lemma RebootKeepsInv(l: Layout, base: Disk, s: State)
    requires Inv(l, base, s) && s.phase.Down?
    ensures Inv(l, base, Reboot(l, s))
  {
  }

  // ---------------------------------------------------------------- all steps

  lemma StepKeepsInv(l: Layout, base: Disk, s: State, s': State)
    requires Inv(l, base, s) && Next(l, s, s')
    ensures Inv(l, base, s')
  {
    if CanBegin(s) && s' == BeginOp(s) {
      BeginKeepsInv(l, base, s);
    } else if i: nat, b: Word, v: Block :| CanAppend(l, s, i, b) && s' == LogWrite(s, i, b, v) {
      LogWriteKeepsInv(l, base, s, i, b, v);
    } else if i: nat :| CanEnd(s, i) && s' == EndOp(s, i) {
      EndKeepsInv(l, base, s, i);
    } else if CanAdvance(l, s) && s' == Advance(l, s) {
      AdvanceKeepsInv(l, base, s);
    } else if s' == Crash(s) {
      CrashKeepsInv(l, base, s);
    } else {
      RebootKeepsInv(l, base, s);
    }
  }

  lemma InitInv(l: Layout, d: Disk, s: State)
    requires Init(l, d, s)
    ensures Inv(l, Recover(l, d), s)
  {
    assert OpIds(s.running) == {};
  }
}
