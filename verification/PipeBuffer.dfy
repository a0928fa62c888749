/** The ring buffer of a pipe, with 32-bit counters that wrap round, in place. */
module PipeBuffer {
  import opened Collections
  import opened Blocks
  import opened PipeModel

  const WORDS := 0x1_0000_0000

  datatype Outcome = Finished | GaveUp | MustSleep

  /** Counters that never differ by more than PIPESIZE compare the same before and after wrapping,
      and index the ring the same. */
  lemma Wrapping(taken: nat, stored: nat)
    requires taken <= stored <= taken + PIPESIZE
    ensures taken % WORDS == stored % WORDS <==> taken == stored
    ensures stored % WORDS == (taken % WORDS + PIPESIZE) % WORDS <==> stored == taken + PIPESIZE
    ensures (stored % WORDS) % PIPESIZE == stored % PIPESIZE && (taken % WORDS) % PIPESIZE == taken % PIPESIZE
    ensures (stored % WORDS + 1) % WORDS == (stored + 1) % WORDS && (taken % WORDS + 1) % WORDS == (taken + 1) % WORDS
  {
    WrapCompare(taken, stored);
    WrapIndex(stored);
    WrapIndex(taken);
  }

  lemma WrapCompare(taken: nat, stored: nat)
    requires taken <= stored <= taken + PIPESIZE
    ensures taken % WORDS == stored % WORDS <==> taken == stored
    ensures stored % WORDS == (taken % WORDS + PIPESIZE) % WORDS <==> stored == taken + PIPESIZE
  {
    var q, r := taken / WORDS, taken % WORDS;
    assert taken == q * WORDS + r;
    var d := stored - taken;
    if r + d < WORDS {
      assert stored == q * WORDS + (r + d);
    } else {
      assert stored == (q + 1) * WORDS + (r + d - WORDS);
    }
  }

  lemma WrapIndex(n: nat)
    ensures (n % WORDS) % PIPESIZE == n % PIPESIZE && (n % WORDS + 1) % WORDS == (n + 1) % WORDS
  {
    var q, r := n / WORDS, n % WORDS;
    assert n == q * WORDS + r;
    assert WORDS == 0x80_0000 * PIPESIZE;
    var k := q * 0x80_0000;
    assert n == k * PIPESIZE + r;
    assert n / PIPESIZE == k + r / PIPESIZE;
  }

  lemma SlotsApart(taken: nat, stored: nat, k: nat)
    requires taken <= k < stored < taken + PIPESIZE
    ensures k % PIPESIZE != stored % PIPESIZE
  {
  }

  /** A turn of a writer in the protocol, from what Ring.Write reports: waking readers does not touch
      the writer itself, and is left out exactly where it gives up. */
  lemma WriteIsTurn(s: Pipe, a: nat, i: nat, o: Outcome)
    requires Bounded(s) && AwakeWriter(s, a) && s.agents[a].op.done <= i <= |s.agents[a].op.src|
    requires var op := s.agents[a].op;
             && i - op.done == Min(|op.src| - op.done, PIPESIZE - (|s.stored| - s.taken))
             && o == if i == |op.src| then Finished else if !s.readopen || s.agents[a].killed then GaveUp else MustSleep
    ensures var op := s.agents[a].op;
            var awake := if o == GaveUp then s.agents else WakeReaders(s.agents);
            DoWrite(s, a) == s.(stored := s.stored + op.src[op.done..i],
                                agents := SetOp(awake, a, if o == MustSleep then Write(op.src, i, true) else Idle))
  {
    assert WakeReaders(SetOp(s.agents, a, Idle)) == SetOp(WakeReaders(s.agents), a, Idle);
  }

  /** A turn of a reader in the protocol, from what Ring.Read reports. */
  lemma ReadIsTurn(s: Pipe, a: nat, taken: nat, o: Outcome)
    requires Bounded(s) && AwakeReader(s, a)
    requires o == if |s.stored| > s.taken || !s.writeopen then Finished
                  else if s.agents[a].killed then GaveUp else MustSleep
    requires taken - s.taken == if o == Finished then Min(s.agents[a].op.want, |s.stored| - s.taken) else 0
    ensures var awake := if o == Finished then WakeWriters(s.agents) else s.agents;
            var after := if o == MustSleep then Read(s.agents[a].op.want, true) else Idle;
            DoRead(s, a) == s.(taken := taken, delivered := s.delivered + s.stored[s.taken..taken],
                               agents := SetOp(awake, a, after))
  {
    assert WakeWriters(SetOp(s.agents, a, Idle)) == SetOp(WakeWriters(s.agents), a, Idle);
    assert o != Finished ==> s.delivered + s.stored[s.taken..taken] == s.delivered;
  }

  class Ring {
    const data: array<Byte>
    var nread: nat
    var nwrite: nat
    var readopen: bool
    var writeopen: bool
    var agents: seq<Agent>
    ghost var stored: seq<Byte>
    ghost var taken: nat
    ghost var delivered: seq<Byte>

    ghost predicate Valid()
      reads this, data
    {
      && data.Length == PIPESIZE && taken <= |stored| <= taken + PIPESIZE
      && nread == taken % WORDS && nwrite == |stored| % WORDS
      && forall k :: taken <= k < |stored| ==> data[k % PIPESIZE] == stored[k]
    }

    /** The pipe of the protocol that the ring stands for. */
    ghost function View(): Pipe
      reads this
    {
      Pipe(stored, taken, delivered, readopen, writeopen, agents)
    }

    /** `pipealloc`, with the processes that will use the pipe. */
    constructor (procs: seq<Agent>)
      ensures Valid() && fresh(data) && View() == Pipe([], 0, [], true, true, procs)
    {
      data := new Byte[PIPESIZE];
      nread, nwrite, readopen, writeopen, agents := 0, 0, true, true, procs;
      stored, taken, delivered := [], 0, [];
    }

    /** `pipewrite` from having the lock to giving it up, having stored done bytes before. */
    method Write(src: seq<Byte>, done: nat, killed: bool) returns (i: nat, o: Outcome)
      requires Valid() && done <= |src|
      modifies this`nwrite, this`stored, data
      ensures Valid() && done <= i <= |src| && stored == old(stored) + src[done..i]
      ensures i - done == Min(|src| - done, PIPESIZE - (|old(stored)| - taken))
      ensures o == if i == |src| then Finished else if !readopen || killed then GaveUp else MustSleep
    {
      i := done;
      assert src[done..i] == [];
      while i < |src|
        invariant done <= i <= |src| && Valid() && stored == old(stored) + src[done..i]
      {
        Wrapping(taken, |stored|);
        if nwrite == (nread + PIPESIZE) % WORDS {
          return i, if !readopen || killed then GaveUp else MustSleep;
        }
        PutByte(src[i]);
        assert src[done..i + 1] == src[done..i] + [src[i]];
        i := i + 1;
      }
      return i, Finished;
    }

    method PutByte(b: Byte)
      requires Valid() && |stored| < taken + PIPESIZE
      modifies this`nwrite, this`stored, data
      ensures Valid() && stored == old(stored) + [b]
    {
      Wrapping(taken, |stored|);
      forall k | taken <= k < |stored|
        ensures k % PIPESIZE != |stored| % PIPESIZE
      {
        SlotsApart(taken, |stored|, k);
      }
      data[nwrite % PIPESIZE] := b;
      nwrite := (nwrite + 1) % WORDS;
      stored := stored + [b];
    }

    /** `piperead` from having the lock to giving it up. */
    method Read(n: nat, killed: bool) returns (out: seq<Byte>, o: Outcome)
      requires Valid()
      modifies this`nread, this`taken
      ensures Valid() && old(taken) <= taken && out == stored[old(taken)..taken]
      ensures o == if |stored| > old(taken) || !writeopen then Finished else if killed then GaveUp else MustSleep
      ensures taken - old(taken) == if o == Finished then Min(n, |stored| - old(taken)) else 0
    {
      Wrapping(taken, |stored|);
      out := [];
      if nread == nwrite && writeopen {
        return out, if killed then GaveUp else MustSleep;
      }
      var i := 0;
      while i < n
        invariant 0 <= i <= n && Valid() && i == taken - old(taken) && out == stored[old(taken)..taken]
        invariant i <= |stored| - old(taken)
      {
        Wrapping(taken, |stored|);
        if nread == nwrite {
          break;
        }
        var b := TakeByte();
        assert stored[old(taken)..taken] == out + [b];
        out := out + [b];
        i := i + 1;
      }
      return out, Finished;
    }

    method TakeByte() returns (b: Byte)
      requires Valid() && taken < |stored|
      modifies this`nread, this`taken
      ensures Valid() && taken == old(taken) + 1 && b == stored[old(taken)]
    {
      Wrapping(taken, |stored|);
      b := data[nread % PIPESIZE];
      nread := (nread + 1) % WORDS;
      taken := taken + 1;
    }

    /** `wakeup(&p->nread)` or `wakeup(&p->nwrite)`: a pass over all processes. */
    method Wakeup(readers: bool)
      modifies this`agents
      ensures agents == if readers then WakeReaders(old(agents)) else WakeWriters(old(agents))
    {
      ghost var was, to := agents, if readers then WakeReaders(agents) else WakeWriters(agents);
      var i := 0;
      while i < |agents|
        invariant 0 <= i <= |agents| == |was|
        invariant forall k :: 0 <= k < |was| ==> agents[k] == if k < i then to[k] else was[k]
      {
        var op := agents[i].op;
        if if readers then op.Read? else op.Write? {
          agents := agents[i := agents[i].(op := Awake(op))];
        }
        i := i + 1;
      }
      assert agents == to;
    }

    /** `pipewrite` called by process a, from having the lock to giving it up or to sleeping. */
    method WriteTurn(a: nat) returns (o: Outcome)
      requires Valid() && AwakeWriter(View(), a)
      modifies this`nwrite, this`stored, this`agents, data
      ensures Valid() && View() == DoWrite(old(View()), a)
      ensures o == MustSleep <==> agents[a].op.Write?
      ensures var op := old(agents[a].op);
              && (o == Finished <==> stored == old(stored) + op.src[op.done..])
              && (o == GaveUp <==>
                    stored != old(stored) + op.src[op.done..] && (!readopen || old(agents[a].killed)))
    {
      ghost var s := View();
      Fits();
      var op := agents[a].op;
      var i;
      i, o := Write(op.src, op.done, agents[a].killed);
      WriteIsTurn(s, a, i, o);
      if o != GaveUp {
        Wakeup(true);
      }
      agents := SetOp(agents, a, if o == MustSleep then PipeModel.Write(op.src, i, true) else Idle);
    }

    /** `piperead` called by process a, from having the lock to giving it up or to sleeping. */
    method ReadTurn(a: nat) returns (out: seq<Byte>, o: Outcome)
      requires Valid() && AwakeReader(View(), a)
      modifies this`nread, this`taken, this`delivered, this`agents
      ensures Valid() && View() == DoRead(old(View()), a) && delivered == old(delivered) + out
      ensures o == MustSleep <==> agents[a].op.Read?
      ensures o == Finished <==> old(|stored| > taken || !writeopen)
      ensures o == GaveUp <==> old(|stored| == taken && writeopen && agents[a].killed)
      ensures o == Finished ==> out == old(stored[taken..taken + Min(agents[a].op.want, |stored| - taken)])
      ensures o != Finished ==> out == []
    {
      ghost var s := View();
      Fits();
      var want := agents[a].op.want;
      out, o := Read(want, agents[a].killed);
      ReadIsTurn(s, a, taken, o);
      if o == Finished {
        Wakeup(false);
      }
      agents := SetOp(agents, a, if o == MustSleep then PipeModel.Read(want, true) else Idle);
      delivered := delivered + out;
    }

    /** `pipeclose`; `last` tells that both ends are closed and the pipe goes back. */
    method Close(writable: bool) returns (last: bool)
      requires Valid() && Enabled(View(), if writable then CloseWrite else CloseRead)
      modifies this`readopen, this`writeopen, this`agents
      ensures Valid() && View() == Apply(old(View()), if writable then CloseWrite else CloseRead)
      ensures last <==> !readopen && !writeopen
    {
      if writable {
        writeopen := false;
        Wakeup(true);
      } else {
        readopen := false;
        Wakeup(false);
      }
      last := !readopen && !writeopen;
    }

    lemma Fits()
      requires Valid()
      ensures Bounded(View())
    {
    }
  }
}
