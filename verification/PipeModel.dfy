/** The pipe protocol: any number of readers and writers, stepping from one point where
    `p->lock` is free to the next. */
module PipeModel {
  import opened Collections
  import opened Blocks

  const PIPESIZE := 512

  /** A call in progress.  A write has stored the first done bytes of src. */
  datatype Op = Idle | Write(src: seq<Byte>, done: nat, asleep: bool) | Read(want: nat, asleep: bool)

  datatype Agent = Agent(op: Op, killed: bool)

  datatype Pipe = Pipe(
    stored: seq<Byte>,
    taken: nat,
    delivered: seq<Byte>,
    readopen: bool,
    writeopen: bool,
    agents: seq<Agent>)

  predicate Bounded(s: Pipe) { s.taken <= |s.stored| <= s.taken + PIPESIZE }

  function Held(s: Pipe): nat
    requires Bounded(s)
  {
    |s.stored| - s.taken
  }

  function Room(s: Pipe): nat
    requires Bounded(s)
  {
    PIPESIZE - Held(s)
  }

  function Left(op: Op): nat
    requires op.Write? && op.done <= |op.src|
  {
    |op.src| - op.done
  }

  function Awake(op: Op): Op {
    match op
    case Idle => Idle
    case Write(src, done, _) => Write(src, done, false)
    case Read(want, _) => Read(want, false)
  }

  /** `wakeup(&p->nread)` and `wakeup(&p->nwrite)`. */
  function WakeReaders(agents: seq<Agent>): (r: seq<Agent>)
    ensures |r| == |agents|
    ensures forall i :: 0 <= i < |agents| ==>
              r[i] == if agents[i].op.Read? then agents[i].(op := Awake(agents[i].op)) else agents[i]
  {
    seq(|agents|, i requires 0 <= i < |agents| =>
      if agents[i].op.Read? then agents[i].(op := Awake(agents[i].op)) else agents[i])
  }

  function WakeWriters(agents: seq<Agent>): (r: seq<Agent>)
    ensures |r| == |agents|
    ensures forall i :: 0 <= i < |agents| ==>
              r[i] == if agents[i].op.Write? then agents[i].(op := Awake(agents[i].op)) else agents[i]
  {
    seq(|agents|, i requires 0 <= i < |agents| =>
      if agents[i].op.Write? then agents[i].(op := Awake(agents[i].op)) else agents[i])
  }

  function SetOp(agents: seq<Agent>, a: nat, op: Op): seq<Agent>
    requires a < |agents|
  {
    agents[a := agents[a].(op := op)]
  }

  // ---------------------------------------------------------------- steps

  datatype Step =
    | StartWrite(a: nat, src: seq<Byte>)
    | StartRead(a: nat, want: nat)
    | WriteTurn(a: nat)
    | ReadTurn(a: nat)
    | CloseRead
    | CloseWrite
    | Kill(a: nat)

  predicate AwakeWriter(s: Pipe, a: nat) {
    a < |s.agents| && s.agents[a].op.Write? && !s.agents[a].op.asleep && s.agents[a].op.done <= |s.agents[a].op.src|
  }

  predicate AwakeReader(s: Pipe, a: nat) { a < |s.agents| && s.agents[a].op.Read? && !s.agents[a].op.asleep }

  /** An end is closed only when nobody is in a call on it. */
  predicate NoReaders(s: Pipe) { forall i :: 0 <= i < |s.agents| ==> !s.agents[i].op.Read? }

  predicate NoWriters(s: Pipe) { forall i :: 0 <= i < |s.agents| ==> !s.agents[i].op.Write? }

  predicate Enabled(s: Pipe, t: Step) {
    match t
    case StartWrite(a, src) => a < |s.agents| && s.agents[a].op.Idle? && s.writeopen
    case StartRead(a, want) => a < |s.agents| && s.agents[a].op.Idle? && s.readopen
    case WriteTurn(a) => Bounded(s) && AwakeWriter(s, a)
    case ReadTurn(a) => Bounded(s) && AwakeReader(s, a)
    case CloseRead => s.readopen && NoReaders(s)
    case CloseWrite => s.writeopen && NoWriters(s)
    case Kill(a) => a < |s.agents|
  }

  /** `pipewrite` from holding the lock to giving it up: store what fits, then finish, give up
      (without waking anyone) or sleep. */
  function DoWrite(s: Pipe, a: nat): Pipe
    requires Bounded(s) && AwakeWriter(s, a)
  {
    var op := s.agents[a].op;
    var n := Min(Left(op), Room(s));
    var u := s.(stored := s.stored + op.src[op.done..op.done + n]);
    if n == Left(op) then u.(agents := WakeReaders(SetOp(s.agents, a, Idle)))
    else if !s.readopen || s.agents[a].killed then u.(agents := SetOp(s.agents, a, Idle))
    else u.(agents := SetOp(WakeReaders(s.agents), a, Write(op.src, op.done + n, true)))
  }

  /** `piperead` from holding the lock to giving it up. */
  function DoRead(s: Pipe, a: nat): Pipe
    requires Bounded(s) && AwakeReader(s, a)
  {
    if Held(s) == 0 && s.writeopen then
      s.(agents := SetOp(s.agents, a, if s.agents[a].killed then Idle else Read(s.agents[a].op.want, true)))
    else
      var n := Min(s.agents[a].op.want, Held(s));
      s.(taken := s.taken + n, delivered := s.delivered + s.stored[s.taken..s.taken + n],
         agents := WakeWriters(SetOp(s.agents, a, Idle)))
  }

  function DoKill(s: Pipe, a: nat): Pipe
    requires a < |s.agents|
  {
    s.(agents := s.agents[a := Agent(Awake(s.agents[a].op), true)])
  }

  function Apply(s: Pipe, t: Step): Pipe
    requires Enabled(s, t)
  {
    match t
    case StartWrite(a, src) => s.(agents := SetOp(s.agents, a, Write(src, 0, false)))
    case StartRead(a, want) => s.(agents := SetOp(s.agents, a, Read(want, false)))
    case WriteTurn(a) => DoWrite(s, a)
    case ReadTurn(a) => DoRead(s, a)
    case CloseRead => s.(readopen := false, agents := WakeWriters(s.agents))
    case CloseWrite => s.(writeopen := false, agents := WakeReaders(s.agents))
    case Kill(a) => DoKill(s, a)
  }

  // ---------------------------------------------------------------- what always holds

  ghost predicate Inv(s: Pipe) {
    && Bounded(s) && s.delivered == s.stored[..s.taken]
    && (!s.readopen ==> NoReaders(s)) && (!s.writeopen ==> NoWriters(s))
    && forall i :: 0 <= i < |s.agents| && s.agents[i].op.Write? ==>
         s.agents[i].op.done <= |s.agents[i].op.src| && (s.agents[i].op.asleep ==> Room(s) == 0 && s.readopen)
  }

  /** No reader sleeps while there is something to read or nobody left to write. */
  ghost predicate ReadersCalm(s: Pipe) {
    forall i :: 0 <= i < |s.agents| && s.agents[i].op.Read? && s.agents[i].op.asleep ==>
      |s.stored| == s.taken && s.writeopen
  }

  lemma WriteKeeps(s: Pipe, a: nat)
    requires Inv(s) && AwakeWriter(s, a)
    ensures Inv(DoWrite(s, a))
  {
  }

  lemma ReadKeeps(s: Pipe, a: nat)
    requires Inv(s) && AwakeReader(s, a)
    ensures Inv(DoRead(s, a))
  {
    var n := Min(s.agents[a].op.want, Held(s));
    assert s.stored[..s.taken] + s.stored[s.taken..s.taken + n] == s.stored[..s.taken + n];
  }

  lemma StepKeeps(s: Pipe, t: Step)
    requires Inv(s) && Enabled(s, t)
    ensures Inv(Apply(s, t))
  {
    match t
    case WriteTurn(a) => WriteKeeps(s, a);
    case ReadTurn(a) => ReadKeeps(s, a);
    case _ =>
  }

  /** A killed writer that still finds some room, but not enough, leaves without waking a sleeping reader. */
  ghost predicate CutShort(s: Pipe, a: nat)
    requires Bounded(s) && AwakeWriter(s, a)
  {
    && s.agents[a].killed && 0 < Room(s) < Left(s.agents[a].op)
    && exists i :: 0 <= i < |s.agents| && ReaderAsleep(s.agents[i])
  }

  predicate ReaderAsleep(x: Agent) { x.op.Read? && x.op.asleep }

  /** Exactly that turn of a writer makes a reader sleep on a pipe that is not empty. */
  lemma WriteKeepsCalm(s: Pipe, a: nat)
    requires Inv(s) && ReadersCalm(s) && AwakeWriter(s, a)
    ensures ReadersCalm(DoWrite(s, a)) <==> !CutShort(s, a)
  {
    var u := DoWrite(s, a);
    if CutShort(s, a) {
      var i :| 0 <= i < |s.agents| && ReaderAsleep(s.agents[i]);
      assert ReaderAsleep(u.agents[i]);
    } else if s.agents[a].killed && Room(s) < Left(s.agents[a].op) {
      assert forall i :: 0 <= i < |s.agents| && ReaderAsleep(s.agents[i]) ==> Room(s) == 0;
    }
  }

  lemma StepKeepsCalm(s: Pipe, t: Step)
    requires Inv(s) && ReadersCalm(s) && Enabled(s, t)
    ensures ReadersCalm(Apply(s, t)) <==> !(t.WriteTurn? && CutShort(s, t.a))
  {
    match t
    case WriteTurn(a) => WriteKeepsCalm(s, a);
    case _ =>
  }

  // ---------------------------------------------------------------- runs

  ghost predicate Start(s: Pipe) {
    s.stored == [] && s.taken == 0 && s.delivered == [] && s.readopen && s.writeopen &&
    forall i :: 0 <= i < |s.agents| ==> s.agents[i].op.Idle?
  }

  ghost predicate IsRun(ss: seq<Pipe>, ts: seq<Step>) {
    && |ss| == |ts| + 1 && Start(ss[0])
    && forall k :: 0 <= k < |ts| ==> Enabled(ss[k], ts[k]) && ss[k + 1] == Apply(ss[k], ts[k])
  }

  lemma {:induction false} RunInv(ss: seq<Pipe>, ts: seq<Step>, k: nat)
    requires IsRun(ss, ts) && k < |ss|
    ensures Inv(ss[k])
    decreases k
  {
    hide Enabled, Apply;
    if k > 0 {
      RunInv(ss, ts, k - 1);
      StepKeeps(ss[k - 1], ts[k - 1]);
    }
  }

  /** First in, first out: what readers got is what was stored first, at most PIPESIZE bytes behind. */
  lemma FirstInFirstOut(ss: seq<Pipe>, ts: seq<Step>, k: nat)
    requires IsRun(ss, ts) && k < |ss|
    ensures ss[k].delivered <= ss[k].stored && |ss[k].stored| - |ss[k].delivered| <= PIPESIZE
  {
    RunInv(ss, ts, k);
  }

  /** No writer ever sleeps on a pipe with room or without a reading end. */
  lemma WritersNeverMissed(ss: seq<Pipe>, ts: seq<Step>, k: nat, i: nat)
    requires IsRun(ss, ts) && k < |ss| && i < |ss[k].agents| && ss[k].agents[i].op.Write? && ss[k].agents[i].op.asleep
    ensures |ss[k].stored| - ss[k].taken == PIPESIZE && ss[k].readopen
  {
    RunInv(ss, ts, k);
  }

  ghost predicate CutAt(ss: seq<Pipe>, ts: seq<Step>, k: nat)
    requires IsRun(ss, ts) && k < |ts|
  {
    ts[k].WriteTurn? && CutShort(ss[k], ts[k].a)
  }

  lemma {:induction false} CalmUpTo(ss: seq<Pipe>, ts: seq<Step>, n: nat)
    requires IsRun(ss, ts) && n <= |ts| && forall k :: 0 <= k < n ==> !CutAt(ss, ts, k)
    ensures ReadersCalm(ss[n])
    decreases n
  {
    hide Apply;
    if n > 0 {
      CalmUpTo(ss, ts, n - 1);
      RunInv(ss, ts, n - 1);
      assert !CutAt(ss, ts, n - 1);
      StepKeepsCalm(ss[n - 1], ts[n - 1]);
    }
  }

  /** No reader sleeps on a readable or write-closed pipe anywhere in a run, exactly when no killed
      writer is cut short in it. */
  lemma ReadersNeverMissed(ss: seq<Pipe>, ts: seq<Step>)
    requires IsRun(ss, ts)
    ensures (forall k :: 0 <= k < |ss| ==> ReadersCalm(ss[k])) <==> (forall k :: 0 <= k < |ts| ==> !CutAt(ss, ts, k))
  {
    hide Apply;
    if forall k :: 0 <= k < |ts| ==> !CutAt(ss, ts, k) {
      forall k | 0 <= k < |ss|
        ensures ReadersCalm(ss[k])
      {
        CalmUpTo(ss, ts, k);
      }
    } else {
      var k :| 0 <= k < |ts| && CutAt(ss, ts, k);
      RunInv(ss, ts, k);
      if ReadersCalm(ss[k]) {
        StepKeepsCalm(ss[k], ts[k]);
        assert !ReadersCalm(ss[k + 1]);
      }
    }
  }

  /** It does happen: a reader sleeps, and a writer of more than PIPESIZE bytes is killed. */
  lemma KilledWriterStrandsReader(src: seq<Byte>) returns (ss: seq<Pipe>, ts: seq<Step>)
    requires |src| > PIPESIZE
    ensures IsRun(ss, ts) && |ts| > 0 && CutAt(ss, ts, |ts| - 1) && !ReadersCalm(ss[|ss| - 1])
  {
    var s0 := Pipe([], 0, [], true, true, [Agent(Idle, false), Agent(Idle, false)]);
    var s1 := Apply(s0, StartRead(0, 1));
    var s2 := Apply(s1, ReadTurn(0));
    assert ReaderAsleep(s2.agents[0]);
    var s3 := Apply(s2, StartWrite(1, src));
    assert ReaderAsleep(s3.agents[0]);
    var s4 := Apply(s3, Kill(1));
    assert ReaderAsleep(s4.agents[0]);
    var s5 := Apply(s4, WriteTurn(1));
    assert ReaderAsleep(s5.agents[0]) && |s5.stored| == PIPESIZE;
    ss, ts := [s0, s1, s2, s3, s4, s5], [StartRead(0, 1), ReadTurn(0), StartWrite(1, src), Kill(1), WriteTurn(1)];
  }
}
