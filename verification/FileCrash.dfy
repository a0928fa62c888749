/** `filewrite` over the log: a crash leaves a whole number of its chunks. */
module FileCrash {
  import opened Collections
  import opened Blocks
  import opened Dinodes
  import opened FileModel
  import opened FileContent
  import opened FileWrite
  import opened FileBudget
  import opened FileSystem
  import opened FileTrace
  import opened Log
  import opened LogHistory
  import LogMachine
  import LogRuns

  // ---------------------------------------------------------------- histories of operations one after another

  function OpEvents(id: nat, writes: History): History {
    [Begin(id)] + writes + [End(id)]
  }

  ghost predicate AllWrites(id: nat, writes: History) {
    forall k :: 0 <= k < |writes| ==> writes[k].Write? && writes[k].id == id
  }

  /** The events of the first n operations. */
  function Script(ids: seq<nat>, writes: seq<History>, n: nat): History
    requires n <= |ids| == |writes|
  {
    if n == 0 then [] else Script(ids, writes, n - 1) + OpEvents(ids[n - 1], writes[n - 1])
  }

  /** Inside an operation that runs alone it is the only one active. */
  lemma {:induction false} OpenActive(h: History, id: nat, writes: History, m: nat)
    requires Quiescent(h) && AllWrites(id, writes) && m <= |writes|
    ensures Active(h + [Begin(id)] + writes[..m]) == {id}
  {
    if m == 0 {
      assert h + [Begin(id)] + writes[..0] == h + [Begin(id)];
      Snoc([], h, Begin(id));
    } else {
      OpenActive(h, id, writes, m - 1);
      var p := h + [Begin(id)] + writes[..m - 1];
      assert h + [Begin(id)] + writes[..m] == p + [writes[m - 1]];
      Snoc([], p, writes[m - 1]);
    }
  }

  lemma OpQuiet(h: History, id: nat, writes: History)
    requires Quiescent(h) && AllWrites(id, writes)
    ensures Quiescent(h + OpEvents(id, writes))
  {
    OpenActive(h, id, writes, |writes|);
    var p := h + [Begin(id)] + writes[..|writes|];
    assert h + OpEvents(id, writes) == p + [End(id)];
    Snoc([], p, End(id));
  }

  /** A quiescent point in an operation that runs alone is its start or its end. */
  lemma OpWhole(h: History, id: nat, writes: History, m: nat)
    requires Quiescent(h) && AllWrites(id, writes) && m <= |writes| + 2
    requires Quiescent(h + OpEvents(id, writes)[..m])
    ensures m == 0 || m == |writes| + 2
  {
    if 0 < m < |writes| + 2 {
      assert h + OpEvents(id, writes)[..m] == h + [Begin(id)] + writes[..m - 1];
      OpenActive(h, id, writes, m - 1);
    }
  }

  lemma {:induction false} ScriptQuiet(h: History, ids: seq<nat>, writes: seq<History>, n: nat)
    requires n <= |ids| == |writes| && Quiescent(h) && forall j :: 0 <= j < n ==> AllWrites(ids[j], writes[j])
    ensures Quiescent(h + Script(ids, writes, n))
  {
    if n == 0 {
      assert h + [] == h;
    } else {
      ScriptQuiet(h, ids, writes, n - 1);
      var p := h + Script(ids, writes, n - 1);
      OpQuiet(p, ids[n - 1], writes[n - 1]);
      assert h + Script(ids, writes, n) == p + OpEvents(ids[n - 1], writes[n - 1]);
    }
  }

  /** A quiescent point among operations that run one after another lies between two of them. */
  lemma {:induction false} WholeOps(h: History, ids: seq<nat>, writes: seq<History>, n: nat, m: nat) returns (k: nat)
    requires n <= |ids| == |writes| && Quiescent(h) && forall j :: 0 <= j < n ==> AllWrites(ids[j], writes[j])
    requires m <= |Script(ids, writes, n)| && Quiescent(h + Script(ids, writes, n)[..m])
    ensures k <= n && Script(ids, writes, n)[..m] == Script(ids, writes, k)
  {
    var all := Script(ids, writes, n);
    k := n;
    if n == 0 {
      assert all[..m] == [];
    } else {
      var before := Script(ids, writes, n - 1);
      var op := OpEvents(ids[n - 1], writes[n - 1]);
      if m <= |before| {
        assert all[..m] == before[..m];
        k := WholeOps(h, ids, writes, n - 1, m);
      } else {
        ScriptQuiet(h, ids, writes, n - 1);
        assert h + all[..m] == h + before + op[..m - |before|];
        OpWhole(h + before, ids[n - 1], writes[n - 1], m - |before|);
        assert all[..m] == all;
      }
    }
  }

  /** Only the writes of an operation change the disk. */
  lemma OpReplay(d: seq<Block>, id: nat, writes: History)
    ensures Replay(d, OpEvents(id, writes)) == Replay(d, writes)
  {
    ReplayConcat(d, [Begin(id)], writes);
    Snoc(d, [], Begin(id));
    assert [] + [Begin(id)] == [Begin(id)];
    Snoc(d, [Begin(id)] + writes, End(id));
  }

  // ---------------------------------------------------------------- one filewrite

  /** Chunk j of the data. */
  function Chunk(src: seq<Byte>, j: nat): (c: seq<Byte>)
    requires CHUNK * j < |src|
    ensures |c| <= CHUNK
  {
    src[CHUNK * j..Min(CHUNK * (j + 1), |src|)]
  }

  /** A `filewrite` of src at pos of inode i, chunk by chunk: the states between its operations,
      their identifiers and what each of them wrote. */
  datatype Chunked = Chunked(i: nat, pos: Word, src: seq<Byte>, states: seq<FS>, ids: seq<nat>, writes: seq<History>)

  ghost predicate IsChunk(sb: Super, c: Chunked, j: nat)
    requires j < |c.ids| == |c.writes| && |c.states| == |c.ids| + 1
  {
    && c.i < sb.ninodes && CHUNK * j < |c.src| && c.pos + CHUNK * j < 0x1_0000_0000 && Shape(sb, c.states[j])
    && Writei(sb, c.states[j], c.i, c.pos + CHUNK * j, Chunk(c.src, j)) == Wrote(c.states[j + 1])
    && Traces(sb, c.states[j], c.states[j + 1], c.ids[j], c.writes[j])
  }

  ghost predicate IsFilewrite(sb: Super, c: Chunked) {
    && |c.ids| == |c.writes| && |c.states| == |c.ids| + 1
    && forall j :: 0 <= j < |c.ids| ==> IsChunk(sb, c, j)
  }

  lemma ChunkShift(src: seq<Byte>, j: nat)
    requires |src| > CHUNK && CHUNK * j < |src| - CHUNK
    ensures CHUNK * (j + 1) < |src| && Chunk(src[CHUNK..], j) == Chunk(src, j + 1)
  {
    var r, a, b := src[CHUNK..], CHUNK * (j + 1), Min(CHUNK * (j + 2), |src|);
    assert a - CHUNK == CHUNK * j && b - CHUNK == Min(CHUNK * (j + 1), |r|);
    assert r[a - CHUNK..b - CHUNK] == src[a..b];
  }

  /** Behind a first chunk, the chunks of the rest are the later chunks of the whole. */
  lemma ChunkOfRest(sb: Super, c: Chunked, d: Chunked, j: nat)
    requires IsFilewrite(sb, d) && j < |d.ids| && |c.ids| == |c.writes| == |d.ids| + 1 && |c.states| == |c.ids| + 1
    requires c.i == d.i && |c.src| > CHUNK && d.src == c.src[CHUNK..] && d.pos == c.pos + CHUNK
    requires c.states[1..] == d.states && c.ids[1..] == d.ids && c.writes[1..] == d.writes
    ensures IsChunk(sb, c, j + 1)
  {
    hide Writei, Traces;
    assert IsChunk(sb, d, j);
    assert d.states[j] == c.states[j + 1] && d.states[j + 1] == c.states[j + 2];
    assert d.ids[j] == c.ids[j + 1] && d.writes[j] == c.writes[j + 1];
    ChunkShift(c.src, j);
  }

  /** Every `filewrite` that starts inside the file is one of these: its states are those between the
      chunks, as far as it gets, and the operations write what `writei` logs. */
  lemma {:induction false} FilewriteIs(sb: Super, fs: FS, o: Owner, i: nat, pos: Word, src: seq<Byte>, first: nat)
    returns (c: Chunked)
    requires FilesOk(sb, fs, o) && i < sb.ninodes
    ensures Shape(sb, fs) && IsFilewrite(sb, c) && c.i == i && c.pos == pos && c.src == src
    ensures c.states == WriteChunks(sb, fs, i, pos, src)
    ensures forall j :: 0 <= j < |c.ids| ==> c.ids[j] == first + j
    decreases |src|
  {
    hide FilesOk, Writei, Traces, Shape;
    FilesOwned(sb, fs, o);
    OwnedShape(sb, fs, o);
    c := Chunked(i, pos, src, [fs], [], []);
    if src != [] {
      var n := Min(|src|, CHUNK);
      if Writei(sb, fs, i, pos, src[..n]).Wrote? {
        var e := Writei(sb, fs, i, pos, src[..n]).fs;
        WriteiRefuses(sb, fs, i, pos, src[..n]);
        var p := WriteiKeepsFiles(sb, fs, o, i, pos, src[..n]);
        var h := WriteiTraces(sb, fs, o, i, pos, src[..n], first);
        var d := FilewriteIs(sb, e, p, i, pos + n, src[n..], first + 1);
        c := Chunked(i, pos, src, [fs] + d.states, [first] + d.ids, [h] + d.writes);
        FirstChunk(sb, c, d, e);
        forall j | 0 <= j < |c.ids|
          ensures IsChunk(sb, c, j)
        {
          if j > 0 {
            NoChunkOfNothing(sb, d);
            ChunkOfRest(sb, c, d, j - 1);
          }
        }
      }
    }
  }

  lemma FirstChunk(sb: Super, c: Chunked, d: Chunked, e: FS)
    requires |c.ids| == |c.writes| == |d.ids| + 1 && |c.states| == |c.ids| + 1 && c.src != [] && c.i < sb.ninodes
    requires c.states[1..] == d.states && d.states != [] && d.states[0] == e && Shape(sb, c.states[0])
    requires Writei(sb, c.states[0], c.i, c.pos, c.src[..Min(|c.src|, CHUNK)]) == Wrote(e)
    requires Traces(sb, c.states[0], e, c.ids[0], c.writes[0])
    ensures IsChunk(sb, c, 0)
  {
    hide Writei, Traces, Shape;
    assert c.states[1] == d.states[0];
    assert Chunk(c.src, 0) == c.src[..Min(|c.src|, CHUNK)];
  }

  lemma NoChunkOfNothing(sb: Super, d: Chunked)
    requires IsFilewrite(sb, d) && d.ids != []
    ensures d.src != []
  {
    hide Writei, Traces, Shape;
    assert IsChunk(sb, d, 0);
  }

  /** The data the first k chunks hold. */
  function Sent(src: seq<Byte>, k: nat): seq<Byte> {
    src[..Min(CHUNK * k, |src|)]
  }

  lemma {:induction false} ChunksWrote(sb: Super, c: Chunked, o: Owner, k: nat) returns (p: Owner)
    requires IsFilewrite(sb, c) && k < |c.states| && c.i < sb.ninodes
    requires FilesOk(sb, c.states[0], o) && c.pos <= c.states[0].inodes[c.i].size
    ensures FilesOk(sb, c.states[k], p) && WroteOnly(sb, c.states[0], c.states[k], c.i, c.pos, Sent(c.src, k))
  {
    hide FilesOk, WroteOnly, Writei, Traces;
    if k == 0 {
      p := o;
      WroteNothing(sb, c.states[0], o, c.i, c.pos);
    } else {
      var q := ChunksWrote(sb, c, o, k - 1);
      assert IsChunk(sb, c, k - 1);
      var at, n := CHUNK * (k - 1), |Chunk(c.src, k - 1)|;
      ChunkOutcome(sb, c.states[0], c.states[k - 1], q, c.i, c.pos, c.src, at, n, c.pos + at);
      p := WriteiKeepsFiles(sb, c.states[k - 1], q, c.i, c.pos + at, Chunk(c.src, k - 1));
    }
  }

  lemma {:induction false} ChunksReplay(sb: Super, c: Chunked, base: seq<Block>, h: History, k: nat)
    requires IsFilewrite(sb, c) && k < |c.states| && Replay(base, h) == c.states[0].blocks
    ensures Replay(base, h + Script(c.ids, c.writes, k)) == c.states[k].blocks
  {
    hide Writei;
    if k == 0 {
      assert h + [] == h;
    } else {
      ChunksReplay(sb, c, base, h, k - 1);
      assert IsChunk(sb, c, k - 1);
      var p, op := h + Script(c.ids, c.writes, k - 1), OpEvents(c.ids[k - 1], c.writes[k - 1]);
      assert h + Script(c.ids, c.writes, k) == p + op;
      ReplayConcat(base, p, op);
      OpReplay(c.states[k - 1].blocks, c.ids[k - 1], c.writes[k - 1]);
    }
  }

  // ---------------------------------------------------------------- what is found after a crash

  /** The file system as read from disk, with the inodes loaded from their blocks. */
  function Mount(sb: Super, blocks: seq<Block>): (fs: FS)
    requires SuperOk(sb) && |blocks| == sb.size
    ensures Shape(sb, fs)
  {
    FS(blocks, seq(sb.ninodes, i requires 0 <= i < sb.ninodes => ReadDinode(blocks[IBlock(sb, i)], i % IPB)), [])
  }

  lemma MountBytes(sb: Super, fs: FS, e: FS, o: Owner, i: nat, q: nat)
    requires Owned(sb, fs, o) && Shape(sb, e) && e.inodes == fs.inodes && i < sb.ninodes && q < MAXBYTES
    requires forall b :: sb.inodestart <= b < sb.size ==> e.blocks[b] == fs.blocks[b]
    requires forall j, k :: IsSlot(sb, j, k) ==> Slot(sb, e, j, k) == Slot(sb, fs, j, k)
    ensures Mapped(sb, e, i, q) == Mapped(sb, fs, i, q) && ByteOf(sb, e, i, q) == ByteOf(sb, fs, i, q)
  {
    hide Slot, InUse, BitsMatch;
    assert BlockOf(sb, e, i, q) == BlockOf(sb, fs, i, q);
    assert BlockOf(sb, fs, i, q) != 0 ==> BlockOf(sb, fs, i, q) in o;
  }

  /** Pointers and bits live behind the first inode block. */
  lemma MountOwned(sb: Super, fs: FS, e: FS, o: Owner)
    requires Owned(sb, fs, o) && Shape(sb, e) && e.inodes == fs.inodes
    requires forall b :: sb.inodestart <= b < sb.size ==> e.blocks[b] == fs.blocks[b]
    ensures Owned(sb, e, o)
    ensures forall j, k :: IsSlot(sb, j, k) ==> Slot(sb, e, j, k) == Slot(sb, fs, j, k)
  {
    forall j, k | IsSlot(sb, j, k)
      ensures Slot(sb, e, j, k) == Slot(sb, fs, j, k)
    {
      assert Slot(sb, fs, j, IND) == fs.inodes[j].addrs[IND];
      assert Slot(sb, fs, j, IND) != 0 ==> Slot(sb, fs, j, IND) in o;
    }
    assert forall x :: 0 <= x < sb.size ==> InUse(sb, e, x) == InUse(sb, fs, x);
    StillOwned(sb, fs, o, e);
  }

  /** Mounting finds the files of any state that agrees with the disk behind the log. */
  lemma MountFinds(sb: Super, fs: FS, o: Owner, blocks: seq<Block>)
    requires FilesOk(sb, fs, o) && |blocks| == sb.size
    requires forall b :: sb.inodestart <= b < sb.size ==> blocks[b] == fs.blocks[b]
    ensures var m := Mount(sb, blocks);
            FilesOk(sb, m, o) && m.inodes == fs.inodes &&
            forall j :: 0 <= j < sb.ninodes ==> fs.inodes[j].size <= MAXBYTES && Content(sb, m, j) == Content(sb, fs, j)
  {
    hide SlotsOwn, OwnersPoint, BitsMatch, Slot, ReadDinode;
    var m := Mount(sb, blocks);
    forall j | 0 <= j < sb.ninodes
      ensures m.inodes[j] == fs.inodes[j] && DiskInode(sb, m, j) == m.inodes[j]
    {
      assert DiskInode(sb, fs, j) == fs.inodes[j];
    }
    MountOwned(sb, fs, m, o);
    forall j | 0 <= j < sb.ninodes
      ensures NoHoles(sb, m, j) && fs.inodes[j].size <= MAXBYTES && Content(sb, m, j) == Content(sb, fs, j)
    {
      assert NoHoles(sb, fs, j);
      SameContent(sb, fs, m, o, j);
    }
  }

  lemma SameContent(sb: Super, fs: FS, e: FS, o: Owner, j: nat)
    requires Owned(sb, fs, o) && Shape(sb, e) && e.inodes == fs.inodes && j < sb.ninodes && NoHoles(sb, fs, j)
    requires forall b :: sb.inodestart <= b < sb.size ==> e.blocks[b] == fs.blocks[b]
    requires forall j, k :: IsSlot(sb, j, k) ==> Slot(sb, e, j, k) == Slot(sb, fs, j, k)
    ensures NoHoles(sb, e, j) && Content(sb, e, j) == Content(sb, fs, j)
  {
    hide Mapped, ByteOf, SlotsOwn, OwnersPoint, BitsMatch, Slot;
    var n := fs.inodes[j].size;
    forall q | 0 <= q < n
      ensures Mapped(sb, e, j, q) && ByteOf(sb, e, j, q) == ByteOf(sb, fs, j, q)
    {
      MountBytes(sb, fs, e, o, j, q);
    }
    var a, b := Content(sb, e, j), Content(sb, fs, j);
    assert forall q :: 0 <= q < n ==> a[q] == b[q];
  }

  /** The same inodes with the same contents. */
  ghost predicate SameFiles(sb: Super, fs: FS, e: FS) {
    && Shape(sb, fs) && Shape(sb, e) && e.inodes == fs.inodes
    && forall j :: 0 <= j < sb.ninodes ==> fs.inodes[j].size <= MAXBYTES && Content(sb, e, j) == Content(sb, fs, j)
  }

  lemma FoundAfter(l: Layout, d: Disk, sb: Super, fs: FS, o: Owner)
    requires HeaderOk(l, d) && |fs.blocks| == sb.size && l.start + l.size <= sb.inodestart
    requires SameHome(l, fs.blocks, Recover(l, d)) && FilesOk(sb, fs, o)
    ensures SuperOk(sb) && |d| == sb.size
    ensures FilesOk(sb, Mount(sb, Recover(l, d)), o) && SameFiles(sb, fs, Mount(sb, Recover(l, d)))
  {
    hide Recover, HeaderOk, Owned, WriteThrough, NoHoles, Content;
    OwnedShape(sb, fs, o);
    assert forall b :: sb.inodestart <= b < sb.size ==> IsHome(l, fs.blocks, b);
    MountFinds(sb, fs, o, Recover(l, d));
  }

  /** While one `filewrite` runs, pull the plug at any moment: what recovery and a new mount find is
      the file system with the first k chunks written and no part of any other. */
  lemma CrashLeavesWholeChunks(l: Layout, d: Disk, s: LogMachine.State, sb: Super, c: Chunked, o: Owner, h: History)
    returns (k: nat, p: Owner)
    requires LogRuns.Reachable(l, d, s) && HeaderOk(l, d) && |d| == sb.size && l.start + l.size <= sb.inodestart
    requires IsFilewrite(sb, c) && c.i < sb.ninodes && FilesOk(sb, c.states[0], o)
    requires c.pos <= c.states[0].inodes[c.i].size
    requires Quiescent(h) && h <= s.hist <= h + Script(c.ids, c.writes, |c.ids|) && |h| <= s.durable
    requires Replay(Recover(l, d), h) == c.states[0].blocks
    ensures HeaderOk(l, s.disk) && SuperOk(sb) && |s.disk| == sb.size && k < |c.states| && s.durable <= |s.hist|
    ensures s.hist[..s.durable] == h + Script(c.ids, c.writes, k)
    ensures FilesOk(sb, Mount(sb, Recover(l, s.disk)), p)
    ensures WroteOnly(sb, c.states[0], Mount(sb, Recover(l, s.disk)), c.i, c.pos, Sent(c.src, k))
  {
    hide LogRuns.Reachable, FilesOk, WroteOnly, Recover, HeaderOk, Mount, IsChunk;
    LogRuns.CrashAtomicity(l, d, s);
    var script := Script(c.ids, c.writes, |c.ids|);
    var m := s.durable - |h|;
    assert s.hist[..s.durable] == h + script[..m];
    ChunksAreWrites(sb, c);
    k := WholeOps(h, c.ids, c.writes, |c.ids|, m);
    ChunksReplay(sb, c, Recover(l, d), h, k);
    p := ChunksWrote(sb, c, o, k);
    FoundAfterCrash(l, s.disk, sb, c.states[0], c.states[k], p, c.i, c.pos, Sent(c.src, k));
  }

  lemma ChunksAreWrites(sb: Super, c: Chunked)
    requires IsFilewrite(sb, c)
    ensures forall j :: 0 <= j < |c.ids| ==> AllWrites(c.ids[j], c.writes[j])
  {
    hide Writei, Replay;
    forall j | 0 <= j < |c.ids|
      ensures AllWrites(c.ids[j], c.writes[j])
    {
      assert IsChunk(sb, c, j);
    }
  }

  lemma FoundAfterCrash(l: Layout, d: Disk, sb: Super, was: FS, fs: FS, o: Owner, i: nat, pos: nat, data: seq<Byte>)
    requires HeaderOk(l, d) && |fs.blocks| == sb.size && l.start + l.size <= sb.inodestart
    requires SameHome(l, fs.blocks, Recover(l, d)) && FilesOk(sb, fs, o) && WroteOnly(sb, was, fs, i, pos, data)
    ensures SuperOk(sb) && |d| == sb.size
    ensures FilesOk(sb, Mount(sb, Recover(l, d)), o) && WroteOnly(sb, was, Mount(sb, Recover(l, d)), i, pos, data)
  {
    hide Recover, HeaderOk, FilesOk, Content;
    FoundAfter(l, d, sb, fs, o);
  }
}
