/** Any mix of file-system operations over the log: a crash leaves whole operations.

An operation, between `begin_op` and `end_op`, is a sequence of calls that each keep the file
layer in order: `writei` (which also makes and clears directory entries), `iupdate` with new fields
(as `ialloc`, `link` and `unlink` do) and the freeing part of `iput`.  The calls of several operations
may be interleaved.
*/
module FileTransactions {
  import opened Blocks
  import opened Dinodes
  import opened FileModel
  import opened FileContent
  import opened FileWrite
  import opened FileTrunc
  import opened FileSystem
  import opened FileTrace
  import opened FileCrash
  import opened InodeCache
  import opened Log
  import LogHistory
  import LogMachine
  import LogRuns

  type History = LogHistory.History

  /** A call on inode i. */
  datatype Call =
    | Put(i: nat, off: Word, src: seq<Byte>)
    | Update(i: nat, typ: Half, major: Half, minor: Half, nlink: Half)
    | Free(i: nat)

  predicate IsCall(sb: Super, a: Call) {
    a.i < sb.ninodes && (a.Put? ==> |a.src| < 0x1_0000_0000)
  }

  function NewFields(x: Dinode, a: Call): Dinode
    requires a.Update?
  {
    x.(typ := a.typ, major := a.major, minor := a.minor, nlink := a.nlink)
  }

  /** What the call leaves, unless it is refused or panics. */
  function Perform(sb: Super, fs: FS, a: Call): (r: Option<FS>)
    requires Shape(sb, fs) && IsCall(sb, a)
    ensures r.Some? ==> Shape(sb, r.value)
  {
    match a
    case Put(i, off, src) =>
      (match Writei(sb, fs, i, off, src)
       case Wrote(e) => Some(e)
       case _ => None)
    case Update(i, _, _, _, _) => Some(Iupdate(sb, SetFields(fs, i, NewFields(fs.inodes[i], a)), i))
    case Free(i) => if Itrunc(sb, fs, i).Done? then Some(FreeInode(sb, fs, i)) else None
  }

  /** Every call keeps what the file layer relies on. */
  lemma PerformKeeps(sb: Super, fs: FS, o: Owner, a: Call) returns (p: Owner)
    requires FilesOk(sb, fs, o) && IsCall(sb, a) && Perform(sb, fs, a).Some?
    ensures FilesOk(sb, Perform(sb, fs, a).value, p)
  {
    hide FilesOk, Writei, Iupdate, Itrunc, FreeInode, InUse, Content;
    FilesOwned(sb, fs, o);
    OwnedShape(sb, fs, o);
    match a
    case Put(i, off, src) =>
      p := WriteiKeepsFiles(sb, fs, o, i, off, src);
    case Update(i, _, _, _, _) =>
      p := o;
      FieldsOnDisk(sb, fs, o, i, NewFields(fs.inodes[i], a));
    case Free(i) =>
      p := Rest(o, i);
      FreedInode(sb, fs, o, i);
  }

  /** And changes the disk by log writes only. */
  lemma PerformTraces(sb: Super, fs: FS, o: Owner, a: Call, id: nat) returns (h: History)
    requires FilesOk(sb, fs, o) && IsCall(sb, a) && Perform(sb, fs, a).Some?
    ensures Traces(sb, fs, Perform(sb, fs, a).value, id, h)
  {
    hide FilesOk, Traces, Writei, Iupdate, Itrunc;
    FilesOwned(sb, fs, o);
    match a
    case Put(i, off, src) =>
      h := WriteiTraces(sb, fs, o, i, off, src, id);
    case Update(i, _, _, _, _) =>
      var d := SetFields(fs, i, NewFields(fs.inodes[i], a));
      TracesNothing(sb, fs, d, id);
      h := IupdateTraces(sb, fs, d, i, id, []);
    case Free(i) =>
      h := ItruncTraces(sb, fs, i, id);
      var e := Itrunc(sb, fs, i).fs;
      EmptiedShape(sb, fs, i);
      var d := SetFields(e, i, e.inodes[i].(typ := 0));
      TracesInodes(sb, fs, e, d, id, h);
      h := IupdateTraces(sb, fs, d, i, id, h);
  }

  lemma EmptiedShape(sb: Super, fs: FS, i: nat)
    requires Shape(sb, fs) && i < sb.ninodes && Itrunc(sb, fs, i).Done?
    ensures Shape(sb, Itrunc(sb, fs, i).fs)
  {
    hide TruncLoop, Iupdate;
  }

  // ---------------------------------------------------------------- interleaved operations

  datatype Event = Start(id: nat) | Do(id: nat, call: Call) | Stop(id: nat)

  /** What happens one after the other, the states between, and the history each event adds. */
  datatype Story = Story(events: seq<Event>, states: seq<FS>, parts: seq<History>)

  ghost predicate IsStep(sb: Super, r: Story, j: nat)
    requires j < |r.events| == |r.parts| && |r.states| == |r.events| + 1
  {
    match r.events[j]
    case Start(id) => r.states[j + 1] == r.states[j] && r.parts[j] == [LogHistory.Begin(id)]
    case Stop(id) => r.states[j + 1] == r.states[j] && r.parts[j] == [LogHistory.End(id)]
    case Do(id, a) =>
      && Shape(sb, r.states[j]) && IsCall(sb, a) && Perform(sb, r.states[j], a) == Some(r.states[j + 1])
      && Traces(sb, r.states[j], r.states[j + 1], id, r.parts[j])
  }

  ghost predicate IsStory(sb: Super, r: Story) {
    && |r.events| == |r.parts| && |r.states| == |r.events| + 1
    && forall j :: 0 <= j < |r.events| ==> IsStep(sb, r, j)
  }

  /** The history of the first n events. */
  function Flat(parts: seq<History>, n: nat): History
    requires n <= |parts|
  {
    if n == 0 then [] else Flat(parts, n - 1) + parts[n - 1]
  }

  lemma {:induction false} StoryKeeps(sb: Super, r: Story, o: Owner, k: nat) returns (p: Owner)
    requires IsStory(sb, r) && FilesOk(sb, r.states[0], o) && k <= |r.events|
    ensures FilesOk(sb, r.states[k], p)
  {
    hide FilesOk, Perform, Traces;
    if k == 0 {
      p := o;
    } else {
      p := StoryKeeps(sb, r, o, k - 1);
      assert IsStep(sb, r, k - 1);
      if r.events[k - 1].Do? {
        p := PerformKeeps(sb, r.states[k - 1], p, r.events[k - 1].call);
      }
    }
  }

  lemma {:induction false} StoryReplay(sb: Super, r: Story, base: seq<Block>, h: History, k: nat)
    requires IsStory(sb, r) && k <= |r.events| && LogHistory.Replay(base, h) == r.states[0].blocks
    ensures LogHistory.Replay(base, h + Flat(r.parts, k)) == r.states[k].blocks
  {
    hide Perform;
    if k == 0 {
      assert h + [] == h;
    } else {
      StoryReplay(sb, r, base, h, k - 1);
      assert IsStep(sb, r, k - 1);
      var p := h + Flat(r.parts, k - 1);
      assert h + Flat(r.parts, k) == p + r.parts[k - 1];
      if r.events[k - 1].Do? {
        ReplayConcat(base, p, r.parts[k - 1]);
      } else {
        LogHistory.Snoc(base, p, r.parts[k - 1][0]);
      }
    }
  }

  /** A quiescent history never ends with a write. */
  lemma QuietEnd(h: History)
    requires LogHistory.WellFormed(h) && LogHistory.Quiescent(h) && h != []
    ensures !h[|h| - 1].Write?
  {
  }

  /** So a quiescent point lies between two events. */
  lemma {:induction false} BetweenEvents(sb: Super, r: Story, h: History, n: nat, m: nat) returns (k: nat)
    requires IsStory(sb, r) && n <= |r.events| && m <= |Flat(r.parts, n)|
    requires LogHistory.WellFormed(h + Flat(r.parts, n)[..m]) && LogHistory.Quiescent(h + Flat(r.parts, n)[..m])
    ensures k <= n && Flat(r.parts, n)[..m] == Flat(r.parts, k)
  {
    hide Perform, LogHistory.WellFormed, LogHistory.Quiescent;
    var all := Flat(r.parts, n);
    k := n;
    if n == 0 {
      assert all[..m] == [];
    } else {
      var before, part := Flat(r.parts, n - 1), r.parts[n - 1];
      assert IsStep(sb, r, n - 1);
      if m <= |before| {
        assert all[..m] == before[..m];
        k := BetweenEvents(sb, r, h, n - 1, m);
      } else if m < |all| {
        assert all[m - 1] == part[m - 1 - |before|];
        var p := h + all[..m];
        assert p[|p| - 1] == all[m - 1];
        QuietEnd(p);
      } else {
        assert all[..m] == all;
      }
    }
  }

  /** The first event of part j and those after it, in the history. */
  lemma {:induction false} PartAt(parts: seq<History>, n: nat, j: nat, x: nat)
    requires j < n <= |parts| && x < |parts[j]|
    ensures |Flat(parts, j)| + x < |Flat(parts, n)| && Flat(parts, n)[|Flat(parts, j)| + x] == parts[j][x]
  {
    if j < n - 1 {
      PartAt(parts, n - 1, j, x);
    }
  }

  lemma PartIds(sb: Super, r: Story, j: nat)
    requires IsStory(sb, r) && j < |r.events|
    ensures forall x :: 0 <= x < |r.parts[j]| ==> r.parts[j][x].id == r.events[j].id
  {
    hide Perform;
    assert IsStep(sb, r, j);
  }

  /** Every sequence of events in which no call is refused is such a story. */
  ghost predicate Possible(sb: Super, fs: FS, events: seq<Event>)
    requires Shape(sb, fs)
    decreases |events|
  {
    events == [] ||
    match events[0]
    case Do(id, a) =>
      IsCall(sb, a) && Perform(sb, fs, a).Some? && Possible(sb, Perform(sb, fs, a).value, events[1..])
    case _ => Possible(sb, fs, events[1..])
  }

  lemma {:induction false} StoryExists(sb: Super, fs: FS, o: Owner, events: seq<Event>) returns (r: Story)
    requires FilesOk(sb, fs, o) && Shape(sb, fs) && Possible(sb, fs, events)
    ensures IsStory(sb, r) && r.events == events && r.states[0] == fs
    decreases |events|
  {
    hide FilesOk, Perform, Traces;
    if events == [] {
      r := Story([], [fs], []);
    } else {
      var e, p, part := fs, o, [];
      match events[0] {
        case Start(id) => part := [LogHistory.Begin(id)];
        case Stop(id) => part := [LogHistory.End(id)];
        case Do(id, a) =>
          e := Perform(sb, fs, a).value;
          p := PerformKeeps(sb, fs, o, a);
          part := PerformTraces(sb, fs, o, a, id);
      }
      var d := StoryExists(sb, e, p, events[1..]);
      r := Story(events, [fs] + d.states, [part] + d.parts);
      Prepended(sb, r, d);
    }
  }

  lemma Prepended(sb: Super, r: Story, d: Story)
    requires IsStory(sb, d) && |r.events| == |r.parts| == |d.events| + 1 && |r.states| == |r.events| + 1
    requires r.events[1..] == d.events && r.states[1..] == d.states && r.parts[1..] == d.parts && IsStep(sb, r, 0)
    ensures IsStory(sb, r)
  {
    hide Perform, Traces;
    forall j | 0 <= j < |r.events|
      ensures IsStep(sb, r, j)
    {
      if j > 0 {
        assert IsStep(sb, d, j - 1);
        assert d.events[j - 1] == r.events[j] && d.parts[j - 1] == r.parts[j];
        assert d.states[j - 1] == r.states[j] && d.states[j] == r.states[j + 1];
      }
    }
  }

  // ---------------------------------------------------------------- crashes

  /** While operations run, pull the plug at any moment: what recovery and a new mount find is the file
      system, in good order, as it was after the first k events. */
  lemma CrashLeavesWholeOperations(l: Layout, d: Disk, s: LogMachine.State, sb: Super, r: Story, o: Owner, h: History)
    returns (k: nat, p: Owner)
    requires LogRuns.Reachable(l, d, s) && HeaderOk(l, d) && |d| == sb.size && l.start + l.size <= sb.inodestart
    requires IsStory(sb, r) && FilesOk(sb, r.states[0], o)
    requires h <= s.hist <= h + Flat(r.parts, |r.events|) && |h| <= s.durable
    requires LogHistory.Replay(Recover(l, d), h) == r.states[0].blocks
    ensures HeaderOk(l, s.disk) && SuperOk(sb) && |s.disk| == sb.size && k <= |r.events| && s.durable <= |s.hist|
    ensures s.hist[..s.durable] == h + Flat(r.parts, k) && LogHistory.Quiescent(h + Flat(r.parts, k))
    ensures FilesOk(sb, Mount(sb, Recover(l, s.disk)), p) && SameFiles(sb, r.states[k], Mount(sb, Recover(l, s.disk)))
  {
    hide LogRuns.Reachable, FilesOk, SameFiles, Recover, HeaderOk, Mount, IsStep;
    LogRuns.CrashAtomicity(l, d, s);
    DurableWellFormed(l, d, s);
    var all := Flat(r.parts, |r.events|);
    var m := s.durable - |h|;
    assert s.hist[..s.durable] == h + all[..m];
    k := BetweenEvents(sb, r, h, |r.events|, m);
    StoryReplay(sb, r, Recover(l, d), h, k);
    p := StoryKeeps(sb, r, o, k);
    FoundAfter(l, s.disk, sb, r.states[k], p);
  }

  /** Of an operation all that it did by then is found, or nothing. */
  lemma NoOperationIsSplit(l: Layout, d: Disk, s: LogMachine.State, sb: Super, r: Story, h: History, k: nat, a: nat,
                           b: nat)
    requires LogRuns.Reachable(l, d, s) && IsStory(sb, r) && h <= s.hist <= h + Flat(r.parts, |r.events|)
    requires a < k <= b < |r.events| && s.durable <= |s.hist| && s.hist[..s.durable] == h + Flat(r.parts, k)
    requires r.parts[a] != [] && r.parts[b] != [] && |h| + |Flat(r.parts, b)| < |s.hist|
    ensures r.events[a].id != r.events[b].id
  {
    hide LogRuns.Reachable, IsStep, Flat, Recover, LogHistory.Replay, SameHome, HeaderOk;
    LogRuns.CrashAtomicity(l, d, s);
    var n := |r.events|;
    PartAt(r.parts, n, a, 0);
    PartAt(r.parts, k, a, 0);
    PartAt(r.parts, n, b, 0);
    FlatGrows(r.parts, k, b);
    PartIds(sb, r, a);
    PartIds(sb, r, b);
    var x, y := |h| + |Flat(r.parts, a)|, |h| + |Flat(r.parts, b)|;
    assert s.hist[x] == (h + Flat(r.parts, n))[x] == r.parts[a][0];
    assert s.hist[y] == (h + Flat(r.parts, n))[y] == r.parts[b][0];
  }

  lemma {:induction false} FlatGrows(parts: seq<History>, k: nat, b: nat)
    requires k <= b <= |parts|
    ensures |Flat(parts, k)| <= |Flat(parts, b)|
  {
    if k < b {
      FlatGrows(parts, k, b - 1);
    }
  }

  lemma DurableWellFormed(l: Layout, d: Disk, s: LogMachine.State)
    requires LogRuns.Reachable(l, d, s)
    ensures s.durable <= |s.hist| && LogHistory.WellFormed(s.hist[..s.durable])
  {
    LogRuns.ReachableInv(l, d, s);
    LogHistory.WellFormedPrefix(s.hist, s.durable);
  }
}
