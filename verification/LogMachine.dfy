/** The logging protocol: operations, group commit, crash and reboot.

`Next` is one atomic step of the whole system and `Inv` the protocol invariant.
Module `LogProofs` shows that every step keeps it, module `LogRuns` what follows
for whole runs.
*/
module LogMachine {
  import opened Collections
  import opened Blocks
  import opened Log
  import opened LogHistory

  /** A running operation and the number of blocks it has added to the log. */
  datatype Op = Op(id: nat, used: nat)

  datatype Phase =
    | Serving                  // operations may run
    | WritingLog(tail: nat)    // copying cached blocks to the log
    | Installing(tail: nat)    // copying log blocks home
    | Erased                   // header cleared, commit or recovery about to return
    | Down                     // crashed, memory lost

  /** `hist` and `durable` record what has happened; no step looks at them. */
  datatype State = State(
    disk: Disk,
    pinned: map<Word, Block>,
    lh: seq<Word>,
    outstanding: int,
    committing: bool,
    phase: Phase,
    running: seq<Op>,
    nextId: nat,
    hist: History,
    durable: nat)

  /** What a reader of block b gets from the cache. */
  function View(s: State, b: int): Block
    requires 0 <= b < |s.disk|
  {
    if b in s.pinned then s.pinned[b] else s.disk[b]
  }

  // ---------------------------------------------------------------- steps

  predicate CanBegin(s: State) {
    s.phase.Serving? && !s.committing && |s.lh| + (s.outstanding + 1) * MAXOPBLOCKS <= LOGSIZE
  }

  function BeginOp(s: State): State {
    s.(outstanding := s.outstanding + 1, running := s.running + [Op(s.nextId, 0)],
       nextId := s.nextId + 1, hist := s.hist + [Begin(s.nextId)])
  }

  /** The two panics of `log_write`. */
  predicate LogWritePanics(l: Layout, s: State) {
    |s.lh| >= LOGSIZE || |s.lh| >= l.size - 1 || s.outstanding < 1
  }

  /** Operation i may log block b without exceeding its share. */
  predicate InBudget(s: State, i: nat, b: Word)
    requires i < |s.running|
  {
    b in s.lh || s.running[i].used < MAXOPBLOCKS
  }

  /** The locked part of `log_write` leaves the list within the header and the log.  It comes after the
      guard, so what the guard asks holds only where no other call came between (`CanLogWrite`). */
  predicate CanAppend(l: Layout, s: State, i: nat, b: Word) {
    && s.phase.Serving? && i < |s.running| && IsHome(l, s.disk, b) && InBudget(s, i, b)
    && (b in s.lh || (|s.lh| < LOGSIZE && |s.lh| < l.size - 1))
  }

  predicate CanLogWrite(l: Layout, s: State, i: nat, b: Word) {
    s.phase.Serving? && i < |s.running| && IsHome(l, s.disk, b) && InBudget(s, i, b) && !LogWritePanics(l, s)
  }

  /** Log absorption: a block already listed is not listed again. */
  function Absorb(lh: seq<Word>, b: Word): seq<Word> {
    if b in lh then lh else lh + [b]
  }

  function LogWrite(s: State, i: nat, b: Word, v: Block): State
    requires i < |s.running|
  {
    var op := s.running[i];
    s.(lh := Absorb(s.lh, b), pinned := s.pinned[b := v],
       running := s.running[i := if b in s.lh then op else op.(used := op.used + 1)],
       hist := s.hist + [Write(op.id, b, v)])
  }

  predicate CanEnd(s: State, i: nat) {
    s.phase.Serving? && i < |s.running|
  }

  function EndOp(s: State, i: nat): State
    requires i < |s.running|
  {
    var t := s.(outstanding := s.outstanding - 1, running := Without(s.running, i),
                hist := s.hist + [End(s.running[i].id)]);
    if t.outstanding != 0 then t
    else if |t.lh| > 0 then t.(committing := true, phase := WritingLog(0))
    else t.(committing := true, phase := Erased, durable := |t.hist|)
  }

  /** The phases in which the committer or recovery has work to do. */
  predicate CanAdvance(l: Layout, s: State) {
    && Fits(l, s.disk, s.lh)
    && match s.phase
       case WritingLog(t) => t <= |s.lh|
       case Installing(t) => t <= |s.lh|
       case Erased => true
       case Serving => false
       case Down => false
  }

  /** One disk write of `commit` or `recover_from_log`, or the return from them. */
  function Advance(l: Layout, s: State): State
    requires CanAdvance(l, s)
  {
    match s.phase
    case WritingLog(t) =>
      if t < |s.lh| then
        s.(disk := s.disk[l.start + 1 + t := View(s, s.lh[t])], phase := WritingLog(t + 1))
      else
        s.(disk := s.disk[l.start := WriteHead(s.disk[l.start], s.lh)], phase := Installing(0), durable := |s.hist|)
    case Installing(t) =>
      if t < |s.lh| then
        s.(disk := s.disk[s.lh[t] := Logged(l, s.disk, t)], pinned := s.pinned - {s.lh[t]}, phase := Installing(t + 1))
      else
        s.(disk := s.disk[l.start := WriteHead(s.disk[l.start], [])], lh := [], phase := Erased)
    case Erased =>
      s.(committing := false, phase := Serving)
  }

  /** Power failure: memory is gone and only what is durable will be remembered. */
  function Crash(s: State): State
    requires s.durable <= |s.hist|
  {
    s.(pinned := map[], lh := [], outstanding := 0, committing := false, phase := Down, running := [],
       hist := s.hist[..s.durable])
  }

  /** `read_head`: recovery loads the header and starts installing. */
  function Reboot(l: Layout, s: State): State
    requires HeaderOk(l, s.disk)
  {
    s.(lh := ReadHead(s.disk[l.start]), phase := Installing(0))
  }

  ghost predicate Next(l: Layout, s: State, s': State) {
    || (CanBegin(s) && s' == BeginOp(s))
    || (exists i: nat, b: Word, v: Block :: CanAppend(l, s, i, b) && s' == LogWrite(s, i, b, v))
    || (exists i: nat :: CanEnd(s, i) && s' == EndOp(s, i))
    || (CanAdvance(l, s) && s' == Advance(l, s))
    || (s.durable <= |s.hist| && s' == Crash(s))
    || (s.phase.Down? && HeaderOk(l, s.disk) && s' == Reboot(l, s))
  }

  /** Power-on with whatever disk an earlier life left behind. */
  ghost predicate Init(l: Layout, d: Disk, s: State) {
    HeaderOk(l, d) && s == State(d, map[], [], 0, false, Down, [], 0, [], 0)
  }

  // ---------------------------------------------------------------- invariant

  /** Log space promised to running operations and not used yet. */
  function Slack(ops: seq<Op>): int {
    if ops == [] then 0 else Slack(ops[..|ops| - 1]) + MAXOPBLOCKS - ops[|ops| - 1].used
  }

  function OpIds(ops: seq<Op>): set<nat> {
    set i | 0 <= i < |ops| :: ops[i].id
  }

  predicate DistinctIds(ops: seq<Op>) {
    forall i, j :: 0 <= i < j < |ops| ==> ops[i].id != ops[j].id
  }

  predicate Shape(l: Layout, s: State) {
    && Fits(l, s.disk, s.lh)
    && (forall b :: b in s.pinned ==> b in s.lh)
    && (s.committing ==> s.phase.WritingLog? || s.phase.Installing? || s.phase.Erased?)
    && (s.phase.WritingLog? ==> s.committing)
    && (!s.phase.Serving? ==> s.running == [])
  }

  predicate Budget(s: State) {
    && s.outstanding == |s.running|
    && (forall i :: 0 <= i < |s.running| ==> s.running[i].used <= MAXOPBLOCKS)
    && |s.lh| + Slack(s.running) <= LOGSIZE
  }

  predicate HistoryInv(s: State) {
    && WellFormed(s.hist)
    && (forall i :: 0 <= i < |s.hist| ==> s.hist[i].id < s.nextId)
    && DistinctIds(s.running)
    && OpIds(s.running) == Active(s.hist)
    && s.durable <= |s.hist|
    && Quiescent(s.hist[..s.durable])
  }

  /** The heart of it: recovering now yields exactly the durable history. */
  ghost predicate Recoverable(l: Layout, base: Disk, s: State) {
    && HeaderOk(l, s.disk)
    && s.durable <= |s.hist|
    && SameHome(l, Replay(base, s.hist[..s.durable]), Recover(l, s.disk))
  }

  ghost predicate ViewIsReplay(l: Layout, base: Disk, s: State) {
    && |s.disk| == |base|
    && forall b :: IsHome(l, s.disk, b) ==> View(s, b) == Replay(base, s.hist)[b]
  }

  predicate HeaderIs(l: Layout, s: State, lh: seq<Word>) {
    && HeaderOk(l, s.disk)
    && ReadHead(s.disk[l.start]) == lh
  }

  predicate AllPinned(s: State) {
    forall i :: 0 <= i < |s.lh| ==> s.lh[i] in s.pinned
  }

  predicate LogHolds(l: Layout, s: State, t: nat)
    requires Fits(l, s.disk, s.lh) && t <= |s.lh|
  {
    forall i :: 0 <= i < t ==> Logged(l, s.disk, i) == View(s, s.lh[i])
  }

  predicate InstallInv(l: Layout, s: State, t: nat)
    requires Fits(l, s.disk, s.lh)
  {
    && t <= |s.lh|
    && LogHoldsPinned(l, s)
    && (forall i :: 0 <= i < t ==> s.lh[i] !in s.pinned && s.disk[s.lh[i]] == Logged(l, s.disk, i))
    && (s.committing ==> forall i :: t <= i < |s.lh| ==> s.lh[i] in s.pinned)
  }

  predicate LogHoldsPinned(l: Layout, s: State)
    requires Fits(l, s.disk, s.lh)
  {
    forall i :: 0 <= i < |s.lh| && s.lh[i] in s.pinned ==> s.pinned[s.lh[i]] == Logged(l, s.disk, i)
  }

  ghost predicate PhaseInv(l: Layout, base: Disk, s: State)
    requires Shape(l, s)
  {
    match s.phase
    case Serving =>
      && HeaderIs(l, s, []) && AllPinned(s) && ViewIsReplay(l, base, s)
      && (s.running == [] ==> s.lh == [] && s.durable == |s.hist|)
    case WritingLog(t) =>
      && HeaderIs(l, s, []) && AllPinned(s) && ViewIsReplay(l, base, s)
      && t <= |s.lh| && LogHolds(l, s, t)
    case Installing(t) =>
      HeaderIs(l, s, s.lh) && s.durable == |s.hist| && InstallInv(l, s, t)
    case Erased =>
      HeaderIs(l, s, []) && s.lh == [] && s.durable == |s.hist| && ViewIsReplay(l, base, s)
    case Down =>
      s.lh == [] && s.durable == |s.hist|
  }

  ghost predicate Inv(l: Layout, base: Disk, s: State) {
    Shape(l, s) && Budget(s) && HistoryInv(s) && Recoverable(l, base, s) && PhaseInv(l, base, s)
  }
}
