/** `filewrite` gets through: alone on the system, each of its chunks fits into the log, and there is
    a run of the logging protocol that performs them all. */
module ChunkRuns {
  import opened Collections
  import opened Blocks
  import opened FileModel
  import opened FileWrite
  import opened FileBudget
  import opened FileSystem
  import opened FileTrace
  import opened FileCrash
  import opened Log
  import opened LogHistory
  import LogMachine
  import LogRuns

  type State = LogMachine.State

  /** Serving, with nobody inside an operation. */
  ghost predicate Idle(l: Layout, d: Disk, s: State) {
    LogRuns.Reachable(l, d, s) && s.phase.Serving? && s.running == []
  }

  function StepsLeft(s: State): int {
    match s.phase
    case WritingLog(t) => 2 * |s.lh| + 3 - t
    case Installing(t) => |s.lh| + 2 - t
    case _ => 1
  }

  /** A commit under way comes to its end. */
  lemma {:induction false} CommitEnds(l: Layout, d: Disk, s: State) returns (e: State)
    requires LogRuns.Reachable(l, d, s) && (s.phase.WritingLog? || s.phase.Installing? || s.phase.Erased?)
    ensures Idle(l, d, e) && e.hist == s.hist && e.nextId == s.nextId && |e.disk| == |s.disk|
    decreases StepsLeft(s)
  {
    hide LogRuns.Reachable, WriteHead, HeaderOk;
    LogRuns.ReachableInv(l, d, s);
    assert LogMachine.CanAdvance(l, s);
    e := LogMachine.Advance(l, s);
    LogRuns.Extend(l, d, s, e);
    if !e.phase.Serving? {
      e := CommitEnds(l, d, e);
    }
  }

  function Targets(writes: History, m: nat): set<Word>
    requires m <= |writes| && forall k :: 0 <= k < |writes| ==> writes[k].Write?
  {
    set k | 0 <= k < m :: writes[k].block
  }

  /** After m of its writes an operation that runs alone has listed exactly the blocks written. */
  ghost predicate Midway(l: Layout, d: Disk, s: State, e: State, writes: History, m: nat)
    requires m <= |writes| && AllWrites(s.nextId, writes)
  {
    && LogRuns.Reachable(l, d, e) && e.phase.Serving? && |e.disk| == |s.disk| && e.nextId == s.nextId + 1
    && e.running == [LogMachine.Op(s.nextId, |e.lh|)] && e.outstanding == 1
    && Elements(e.lh) == Targets(writes, m) && e.hist == s.hist + [Begin(s.nextId)] + writes[..m]
  }

  lemma Begins(l: Layout, d: Disk, s: State, writes: History) returns (e: State)
    requires Idle(l, d, s) && AllWrites(s.nextId, writes)
    ensures Midway(l, d, s, e, writes, 0)
  {
    hide LogRuns.Reachable;
    LogRuns.QuietMeansDurable(l, d, s);
    LogRuns.EndOpNeverPanics(l, d, s);
    NotCommitting(l, d, s);
    e := LogMachine.BeginOp(s);
    LogRuns.Extend(l, d, s, e);
  }

  lemma NotCommitting(l: Layout, d: Disk, s: State)
    requires Idle(l, d, s)
    ensures !s.committing && s.outstanding == 0
  {
    LogRuns.ReachableInv(l, d, s);
  }

  /** The next write finds room: the operation has not used up its share unless the block is
      listed already, and the log is never full. */
  lemma WriteFits(l: Layout, d: Disk, s: State, e: State, writes: History, m: nat)
    requires m < |writes| && AllWrites(s.nextId, writes) && Midway(l, d, s, e, writes, m)
    requires |Targets(writes, |writes|)| <= MAXOPBLOCKS && l.size > MAXOPBLOCKS + 1
    requires IsHome(l, s.disk, writes[m].block)
    ensures LogMachine.CanLogWrite(l, e, 0, writes[m].block)
  {
    hide LogRuns.Reachable, LogMachine.Slack, Elements, Targets, Distinct;
    LogRuns.EndOpNeverPanics(l, d, e);
    ElementsCard(e.lh);
    TargetsGrow(writes, m, |writes|);
    var all, b := Targets(writes, |writes|), writes[m].block;
    SubsetCard(Elements(e.lh), all);
    if b !in e.lh {
      SubsetCard(Elements(e.lh) + {b}, all);
    }
  }

  lemma TargetsGrow(writes: History, m: nat, n: nat)
    requires m < n <= |writes| && forall k :: 0 <= k < |writes| ==> writes[k].Write?
    ensures Targets(writes, m + 1) == Targets(writes, m) + {writes[m].block} <= Targets(writes, n)
  {
  }

  lemma WriteIsStep(l: Layout, d: Disk, s: State, b: Word, v: Block)
    requires LogRuns.Reachable(l, d, s) && LogMachine.CanLogWrite(l, s, 0, b)
    ensures LogRuns.Reachable(l, d, LogMachine.LogWrite(s, 0, b, v))
  {
    hide LogRuns.Reachable;
    LogRuns.Extend(l, d, s, LogMachine.LogWrite(s, 0, b, v));
  }

  lemma NextWrite(l: Layout, d: Disk, s: State, f: State, writes: History, m: nat) returns (e: State)
    requires m < |writes| && AllWrites(s.nextId, writes) && Midway(l, d, s, f, writes, m)
    requires LogMachine.CanLogWrite(l, f, 0, writes[m].block)
    ensures Midway(l, d, s, e, writes, m + 1)
  {
    hide LogRuns.Reachable, Elements, Targets, LogMachine.CanLogWrite;
    var b, v := writes[m].block, writes[m].data;
    e := LogMachine.LogWrite(f, 0, b, v);
    WriteIsStep(l, d, f, b, v);
    TargetsGrow(writes, m, m + 1);
    assert writes[..m + 1] == writes[..m] + [Write(s.nextId, b, v)];
    assert Elements(e.lh) == Elements(f.lh) + {b};
  }

  lemma {:induction false} WritesGoOn(l: Layout, d: Disk, s: State, writes: History, m: nat) returns (e: State)
    requires Idle(l, d, s) && AllWrites(s.nextId, writes) && m <= |writes|
    requires |Targets(writes, |writes|)| <= MAXOPBLOCKS && l.size > MAXOPBLOCKS + 1
    requires forall k :: 0 <= k < |writes| ==> IsHome(l, s.disk, writes[k].block)
    ensures Midway(l, d, s, e, writes, m)
  {
    hide LogRuns.Reachable, Elements, Targets, Midway;
    if m == 0 {
      e := Begins(l, d, s, writes);
    } else {
      var f := WritesGoOn(l, d, s, writes, m - 1);
      WriteFits(l, d, s, f, writes, m - 1);
      e := NextWrite(l, d, s, f, writes, m - 1);
    }
  }

  lemma EndIsStep(l: Layout, d: Disk, s: State)
    requires LogRuns.Reachable(l, d, s) && LogMachine.CanEnd(s, 0)
    ensures LogRuns.Reachable(l, d, LogMachine.EndOp(s, 0))
  {
    hide LogRuns.Reachable, LogMachine.EndOp;
    LogRuns.Extend(l, d, s, LogMachine.EndOp(s, 0));
  }

  /** An operation that stays within its share and runs alone gets through and is committed. */
  lemma OpGoesThrough(l: Layout, d: Disk, s: State, writes: History) returns (e: State)
    requires Idle(l, d, s) && AllWrites(s.nextId, writes)
    requires |Targets(writes, |writes|)| <= MAXOPBLOCKS && l.size > MAXOPBLOCKS + 1
    requires forall k :: 0 <= k < |writes| ==> IsHome(l, s.disk, writes[k].block)
    ensures Idle(l, d, e) && e.hist == s.hist + OpEvents(s.nextId, writes)
    ensures e.nextId == s.nextId + 1 && |e.disk| == |s.disk|
  {
    hide LogRuns.Reachable;
    var f := WritesGoOn(l, d, s, writes, |writes|);
    var g := LogMachine.EndOp(f, 0);
    EndIsStep(l, d, f);
    assert writes[..|writes|] == writes;
    assert g.hist == s.hist + OpEvents(s.nextId, writes);
    e := CommitEnds(l, d, g);
  }

  /** The distinct targets of a trace are the blocks the file layer logged. */
  lemma TargetsLogged(sb: Super, fs: FS, e: FS, id: nat, writes: History)
    requires Traces(sb, fs, e, id, writes)
    ensures AllWrites(id, writes) && Targets(writes, |writes|) == LoggedSince(|fs.log|, e.log)
  {
    hide Replay;
    var t := e.log[|fs.log|..];
    assert forall k :: 0 <= k < |writes| ==> t[k] == writes[k].block;
  }

  lemma ChunkFits(sb: Super, c: Chunked, o: Owner, j: nat)
    requires IsFilewrite(sb, c) && j < |c.ids| && c.i < sb.ninodes
    requires FilesOk(sb, c.states[0], o) && c.pos <= c.states[0].inodes[c.i].size
    ensures AllWrites(c.ids[j], c.writes[j]) && |Targets(c.writes[j], |c.writes[j]|)| <= MAXOPBLOCKS
    ensures forall k :: 0 <= k < |c.writes[j]| ==> sb.inodestart <= c.writes[j][k].block < sb.size
  {
    hide FilesOk, WroteOnly, Writei, Replay, LoggedSince, Targets;
    var p := ChunksWrote(sb, c, o, j);
    assert IsChunk(sb, c, j);
    ChunkFitsBudget(sb, c.states[j], p, c.i, c.pos + CHUNK * j, Chunk(c.src, j));
    TargetsLogged(sb, c.states[j], c.states[j + 1], c.ids[j], c.writes[j]);
  }

  /** The chunks get through one after another. */
  lemma {:induction false} ChunksGoThrough(l: Layout, d: Disk, s: State, sb: Super, c: Chunked, o: Owner, k: nat)
    returns (e: State)
    requires Idle(l, d, s) && |s.disk| == sb.size && l.start + l.size <= sb.inodestart && l.size > MAXOPBLOCKS + 1
    requires IsFilewrite(sb, c) && k <= |c.ids| && c.i < sb.ninodes
    requires FilesOk(sb, c.states[0], o) && c.pos <= c.states[0].inodes[c.i].size
    requires forall j :: 0 <= j < |c.ids| ==> c.ids[j] == s.nextId + j
    ensures Idle(l, d, e) && e.hist == s.hist + Script(c.ids, c.writes, k)
    ensures e.nextId == s.nextId + k && |e.disk| == |s.disk|
  {
    hide Idle, FilesOk, IsChunk;
    if k == 0 {
      e := s;
    } else {
      var f := ChunksGoThrough(l, d, s, sb, c, o, k - 1);
      ChunkFits(sb, c, o, k - 1);
      e := OpGoesThrough(l, d, f, c.writes[k - 1]);
      assert e.hist == s.hist + Script(c.ids, c.writes, k);
    }
  }

  /** A `filewrite` that runs alone never hits a panic of the log: there is a run that performs all its
      chunks, and at its end the disk holds, outside the log, exactly the blocks of the state the
      last chunk leaves. */
  lemma FilewriteGoesThrough(l: Layout, d: Disk, s: State, sb: Super, fs: FS, o: Owner, i: nat, pos: Word,
                             src: seq<Byte>) returns (c: Chunked, e: State)
    requires Idle(l, d, s) && |s.disk| == sb.size && l.start + l.size <= sb.inodestart && l.size > MAXOPBLOCKS + 1
    requires FilesOk(sb, fs, o) && i < sb.ninodes && pos <= fs.inodes[i].size
    requires HeaderOk(l, d) && Replay(Recover(l, d), s.hist) == fs.blocks
    ensures IsFilewrite(sb, c) && c.i == i && c.pos == pos && c.src == src
    ensures Shape(sb, fs) && c.states == WriteChunks(sb, fs, i, pos, src)
    ensures Idle(l, d, e) && e.hist == s.hist + Script(c.ids, c.writes, |c.ids|)
    ensures SameHome(l, Last(c.states).blocks, e.disk)
  {
    hide FilesOk, IsChunk, Recover, HeaderOk, LogRuns.Reachable, WriteChunks;
    c := FilewriteIs(sb, fs, o, i, pos, src, s.nextId);
    e := ChunksGoThrough(l, d, s, sb, c, o, |c.ids|);
    LogRuns.QuietMeansDurable(l, d, e);
    ChunksReplay(sb, c, Recover(l, d), s.hist, |c.ids|);
  }
}
