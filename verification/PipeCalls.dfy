/** Single calls of `pipewrite` and `piperead` in a run, told from the bytes that go in and out. */
module PipeCalls {
  import opened Collections
  import opened Blocks
  import opened PipeModel

  /** Bytes stored by step k. */
  function Stored(ss: seq<Pipe>, k: nat): seq<Byte>
    requires k + 1 < |ss| && |ss[k].stored| <= |ss[k + 1].stored|
  {
    ss[k + 1].stored[|ss[k].stored|..]
  }

  /** Only turns of writers store, at the end, and only turns of readers take. */
  lemma WhoMovesBytes(s: Pipe, t: Step)
    requires Inv(s) && Enabled(s, t)
    ensures s.stored <= Apply(s, t).stored && s.delivered <= Apply(s, t).delivered
    ensures !t.WriteTurn? ==> Apply(s, t).stored == s.stored
    ensures !t.ReadTurn? ==> Apply(s, t).taken == s.taken && Apply(s, t).delivered == s.delivered
  {
  }

  ghost predicate Grows(ss: seq<Pipe>) {
    forall k :: 0 <= k < |ss| - 1 ==> |ss[k].stored| <= |ss[k + 1].stored|
  }

  lemma RunGrows(ss: seq<Pipe>, ts: seq<Step>)
    requires IsRun(ss, ts)
    ensures Grows(ss)
  {
    hide Enabled, Apply, Inv;
    forall k | 0 <= k < |ss| - 1
      ensures |ss[k].stored| <= |ss[k + 1].stored|
    {
      RunInv(ss, ts, k);
      WhoMovesBytes(ss[k], ts[k]);
    }
  }

  /** What agent a stored from step j up to step k. */
  function Sent(ss: seq<Pipe>, ts: seq<Step>, a: nat, j: nat, k: nat): seq<Byte>
    requires |ss| == |ts| + 1 && j <= k <= |ts| && Grows(ss)
    decreases k
  {
    if j == k then []
    else Sent(ss, ts, a, j, k - 1) + if ts[k - 1] == WriteTurn(a) then Stored(ss, k - 1) else []
  }

  /** Agent a is inside a write of src that it began at step j. */
  ghost predicate Writing(ss: seq<Pipe>, ts: seq<Step>, a: nat, src: seq<Byte>, j: nat, k: nat)
    requires IsRun(ss, ts)
  {
    && j < k < |ss| && ts[j] == StartWrite(a, src)
    && forall m :: j < m <= k ==> a < |ss[m].agents| && ss[m].agents[a].op.Write?
  }

  lemma TurnStores(s: Pipe, a: nat)
    requires Inv(s) && AwakeWriter(s, a)
    ensures var op, u := s.agents[a].op, Apply(s, WriteTurn(a));
            && a < |u.agents| && s.stored <= u.stored
            && (u.agents[a].op.Write? ==>
                  && u.agents[a].op.src == op.src && op.done <= u.agents[a].op.done <= |op.src|
                  && u.stored[|s.stored|..] == op.src[op.done..u.agents[a].op.done])
            && (!u.agents[a].op.Write? ==>
                  || u.stored[|s.stored|..] == op.src[op.done..]
                  || (u.stored[|s.stored|..] <= op.src[op.done..] && (!s.readopen || s.agents[a].killed)))
  {
  }

  lemma OthersLeaveOp(s: Pipe, t: Step, a: nat)
    requires Enabled(s, t) && t != WriteTurn(a) && a < |s.agents| && s.agents[a].op.Write?
    ensures a < |Apply(s, t).agents|
    ensures var x, y := s.agents[a].op, Apply(s, t).agents[a].op; y.Write? && y.src == x.src && y.done == x.done
  {
  }

  /** While a write goes on, what it has stored is the beginning of its data, in order. */
  lemma {:induction false} SentSoFar(ss: seq<Pipe>, ts: seq<Step>, a: nat, src: seq<Byte>, j: nat, k: nat)
    requires IsRun(ss, ts) && Writing(ss, ts, a, src, j, k)
    ensures Grows(ss)
    ensures var op := ss[k].agents[a].op; op.src == src && op.done <= |src| && Sent(ss, ts, a, j, k) == src[..op.done]
    decreases k
  {
    hide Enabled, Apply, Inv;
    RunGrows(ss, ts);
    var n := k - 1;
    assert Enabled(ss[n], ts[n]) && ss[k] == Apply(ss[n], ts[n]);
    if j == n {
      BeginsEmpty(ss[j], a, src);
      assert Sent(ss, ts, a, j, j) == [];
    } else {
      SentSoFar(ss, ts, a, src, j, n);
      RunInv(ss, ts, n);
      if ts[n] == WriteTurn(a) {
        WriterAwake(ss[n], a);
        TurnStores(ss[n], a);
        var x, y := ss[n].agents[a].op.done, ss[k].agents[a].op.done;
        assert src[..y] == src[..x] + src[x..y];
      } else {
        OthersLeaveOp(ss[n], ts[n], a);
      }
    }
  }

  lemma BeginsEmpty(s: Pipe, a: nat, src: seq<Byte>)
    requires Enabled(s, StartWrite(a, src))
    ensures var u := Apply(s, StartWrite(a, src)); a < |u.agents| && u.agents[a].op == Write(src, 0, false)
  {
  }

  lemma WriterAwake(s: Pipe, a: nat)
    requires Enabled(s, WriteTurn(a))
    ensures AwakeWriter(s, a)
  {
  }

  /** In every run a write that returns has stored all its data, in order, or, having found the pipe full
      with the reading end closed or the caller killed, a beginning of it. */
  lemma WriteStoresItsData(ss: seq<Pipe>, ts: seq<Step>, a: nat, src: seq<Byte>, j: nat, k: nat)
    requires IsRun(ss, ts) && Writing(ss, ts, a, src, j, k) && k < |ts| && ts[k] == WriteTurn(a)
    requires !(a < |ss[k + 1].agents| && ss[k + 1].agents[a].op.Write?)
    ensures Grows(ss)
    ensures var all := Sent(ss, ts, a, j, k + 1);
            all == src || (all <= src && (!ss[k].readopen || ss[k].agents[a].killed))
  {
    hide Enabled, Apply, Inv;
    RunGrows(ss, ts);
    SentSoFar(ss, ts, a, src, j, k);
    RunInv(ss, ts, k);
    WriterAwake(ss[k], a);
    TurnStores(ss[k], a);
    var x := ss[k].agents[a].op.done;
    assert src == src[..x] + src[x..];
  }

  /** A `kill` marks its target and wakes it, and touches nothing else. */
  lemma KillWakes(s: Pipe, a: nat)
    requires Enabled(s, Kill(a))
    ensures var u := Apply(s, Kill(a));
            && |u.agents| == |s.agents| && u.agents[a].killed
            && (u.agents[a].op.Write? ==> !u.agents[a].op.asleep) && (u.agents[a].op.Read? ==> !u.agents[a].op.asleep)
            && (s.agents[a].op.Write? <==> u.agents[a].op.Write?) && (s.agents[a].op.Read? <==> u.agents[a].op.Read?)
            && u == s.(agents := s.agents[a := u.agents[a]])
  {
  }

  /** A read returns what was there, up to what it asked for, and nothing only when the pipe is empty. */
  lemma ReadTakesOldest(s: Pipe, a: nat)
    requires Inv(s) && AwakeReader(s, a)
    ensures var u, n := Apply(s, ReadTurn(a)), Min(s.agents[a].op.want, |s.stored| - s.taken);
            && u.delivered == s.delivered + s.stored[s.taken..s.taken + n] && u.taken == s.taken + n
            && a < |u.agents|
            && (u.agents[a].op.Read? <==> |s.stored| == s.taken && s.writeopen && !s.agents[a].killed)
            && (u.agents[a].op.Read? ==> u.agents[a].op == Read(s.agents[a].op.want, true))
  {
  }
}
