/** The write-ahead log as a state machine over single disk writes.

Every step is either one critical section under `log.lock` or one `bwrite`, so a
run of the machine is an interleaving of any number of file-system operations
with the committer, and a crash may follow every disk write, those of an
unfinished recovery included.  The buffer cache appears as the overlay `pinned`
of blocks that were logged and not yet installed; module `BufferCache` justifies
that view.
*/
module Log {
  import opened Blocks
  import opened Collections

  /** Blocks any one operation may add to the log. */
  const MAXOPBLOCKS := 10

  /** Capacity of the log header. */
  const LOGSIZE := 30

  type Disk = seq<Block>

  /** The log occupies blocks [start, start + size); its first block is the header. */
  datatype Layout = Layout(start: nat, size: nat)

  predicate InLog(l: Layout, b: int) {
    l.start <= b < l.start + l.size
  }

  predicate IsHome(l: Layout, d: Disk, b: int) {
    0 <= b < |d| && !InLog(l, b)
  }

  /** The i-th data block of the log. */
  function Logged(l: Layout, d: Disk, i: nat): Block
    requires l.start + 1 + i < |d|
  {
    d[l.start + 1 + i]
  }

  /** The log has room for the listed blocks and they all live outside it. */
  predicate Fits(l: Layout, d: Disk, lh: seq<Word>) {
    && l.start + l.size <= |d|
    && |lh| < l.size
    && |lh| <= LOGSIZE
    && Distinct(lh)
    && forall i :: 0 <= i < |lh| ==> IsHome(l, d, lh[i])
  }

  ghost predicate SameHome(l: Layout, d: Disk, e: Disk) {
    |d| == |e| && forall b :: IsHome(l, d, b) ==> d[b] == e[b]
  }

  // ---------------------------------------------------------------- header block

  /** The block list in a header block: a count followed by block numbers. */
  function ReadHead(b: Block): (lh: seq<Word>)
    requires GetWord(b, 0) <= LOGSIZE
  {
    GetWords(b, 1, GetWord(b, 0))
  }

  /** The header block after `write_head`: the words behind the list keep their old values. */
  function WriteHead(b: Block, lh: seq<Word>): (r: Block)
    requires |lh| <= LOGSIZE
  {
    PutWords(PutWord(b, 0, |lh|), 1, lh)
  }

  /** A header written to any block reads back as itself, and the words behind it stay. */
  lemma HeadRoundTrip(b: Block, lh: seq<Word>)
    requires |lh| <= LOGSIZE
    ensures GetWord(WriteHead(b, lh), 0) == |lh|
    ensures ReadHead(WriteHead(b, lh)) == lh
    ensures forall i :: 0 <= i < |lh| ==> GetWord(WriteHead(b, lh), i + 1) == lh[i]
    ensures forall j :: |lh| < j < WPB ==> GetWord(WriteHead(b, lh), j) == GetWord(b, j)
  {
    assert ReadHead(WriteHead(b, lh)) == lh;
  }

  // ---------------------------------------------------------------- recovery

  /** The disk after copying the first k logged blocks to their homes. */
  function Install(l: Layout, d: Disk, lh: seq<Word>, k: nat): (r: Disk)
    requires Fits(l, d, lh) && k <= |lh|
    ensures |r| == |d|
  {
    if k == 0 then d
    else
      var e := Install(l, d, lh, k - 1);
      e[lh[k - 1] := Logged(l, e, k - 1)]
  }

  /** The header on disk is one that recovery can follow. */
  predicate HeaderOk(l: Layout, d: Disk) {
    && 1 <= l.size
    && l.start + l.size <= |d|
    && GetWord(d[l.start], 0) <= LOGSIZE
    && Fits(l, d, ReadHead(d[l.start]))
  }

  /** What a complete, uninterrupted recovery leaves on disk. */
  function Recover(l: Layout, d: Disk): (r: Disk)
    requires HeaderOk(l, d)
    ensures |r| == |d|
  {
    var lh := ReadHead(d[l.start]);
    var e := Install(l, d, lh, |lh|);
    e[l.start := WriteHead(e[l.start], [])]
  }

  lemma {:induction false} InstallAt(l: Layout, d: Disk, lh: seq<Word>, k: nat)
    requires Fits(l, d, lh) && k <= |lh|
    ensures forall i :: 0 <= i < k ==> Install(l, d, lh, k)[lh[i]] == Logged(l, d, i)
    ensures forall b :: 0 <= b < |d| && (forall i :: 0 <= i < k ==> lh[i] != b) ==> Install(l, d, lh, k)[b] == d[b]
  {
    if k > 0 {
      InstallAt(l, d, lh, k - 1);
    }
  }

  /** Recovery replaces exactly the listed blocks by their logged copies and empties the header. */
  lemma RecoverAt(l: Layout, d: Disk)
    requires HeaderOk(l, d)
    ensures var lh := ReadHead(d[l.start]);
            && (forall i :: 0 <= i < |lh| ==> Recover(l, d)[lh[i]] == Logged(l, d, i))
            && (forall b :: IsHome(l, d, b) && b !in lh ==> Recover(l, d)[b] == d[b])
            && (forall b :: InLog(l, b) && b != l.start ==> Recover(l, d)[b] == d[b])
    ensures GetWord(Recover(l, d)[l.start], 0) == 0 && ReadHead(Recover(l, d)[l.start]) == []
  {
    var lh := ReadHead(d[l.start]);
    InstallAt(l, d, lh, |lh|);
    HeadRoundTrip(Install(l, d, lh, |lh|)[l.start], []);
  }

  /** Disks with the same log, and the same homes outside the log's list, recover alike. */
  lemma RecoverCong(l: Layout, d: Disk, e: Disk)
    requires HeaderOk(l, d) && |e| == |d|
    requires e[l.start] == d[l.start]
    requires forall i :: 0 <= i < |ReadHead(d[l.start])| ==> Logged(l, e, i) == Logged(l, d, i)
    requires forall b :: IsHome(l, d, b) && b !in ReadHead(d[l.start]) ==> e[b] == d[b]
    ensures HeaderOk(l, e) && SameHome(l, Recover(l, d), Recover(l, e))
  {
    RecoverAt(l, d);
    RecoverAt(l, e);
    var lh := ReadHead(d[l.start]);
    forall b | IsHome(l, d, b)
      ensures Recover(l, d)[b] == Recover(l, e)[b]
    {
      if b in lh {
        var i :| 0 <= i < |lh| && lh[i] == b;
      }
    }
  }

  /** With an empty header, recovery changes no home block. */
  lemma RecoverEmpty(l: Layout, d: Disk)
    requires HeaderOk(l, d) && ReadHead(d[l.start]) == []
    ensures SameHome(l, d, Recover(l, d))
  {
    RecoverAt(l, d);
  }

  /** Recovering a recovered disk changes no home block. */
  lemma RecoverIdempotent(l: Layout, d: Disk)
    requires HeaderOk(l, d)
    ensures HeaderOk(l, Recover(l, d))
    ensures SameHome(l, Recover(l, d), Recover(l, Recover(l, d)))
  {
    var lh := ReadHead(d[l.start]);
    var e := Install(l, d, lh, |lh|);
    HeadRoundTrip(e[l.start], []);
    RecoverEmpty(l, Recover(l, d));
  }
}
