/** What the steps of the process table do, slot by slot and field by field. */
module ProcSteps {
  import opened ProcModel
  import opened ProcRuns

  /** The slot a step is about, whose record it may rewrite; NONE if it is about more or fewer. */
  function Subject(t: Table, a: Step): int {
    match a
    case Alloc(_, slot) => slot
    case Abort(q) => if q < |t.doing| && t.doing[q].Forking? then t.doing[q].child else NONE
    case Adopt(q) => if q < |t.doing| && t.doing[q].Forking? then t.doing[q].child else NONE
    case Launch(q) => if q < |t.doing| && t.doing[q].Forking? then t.doing[q].child else NONE
    case Exit(q) => q
    case Reap(_, c) => c
    case GiveUp(_) => NONE
    case WaitSleep(q) => q
    case Sleep(q, _) => q
    case Wakeup(_) => NONE
    case Kill(slot) => slot
    case Yield(q) => q
    case Run(_, p, _) => p
  }

  /** The life of a process: which states a step leads from and to, for the slot it is about. */
  lemma LifeCycle(t: Table, a: Step)
    requires Inv(t) && Enabled(t, a) && Subject(t, a) != NONE
    ensures 0 <= Subject(t, a) < |t.procs| && |Apply(t, a).procs| == |t.procs|
    ensures var x, y := t.procs[Subject(t, a)].state, Apply(t, a).procs[Subject(t, a)].state;
            && (a.Alloc? ==> x == Unused && y == Embryo)
            && (a.Abort? ==> x == Embryo && y == Unused)
            && (a.Adopt? ==> x == Embryo && y == Embryo)
            && (a.Launch? ==> x == Embryo && y == Runnable)
            && (a.Exit? ==> x == Running && y == Zombie)
            && (a.Reap? ==> x == Zombie && y == Unused)
            && (a.WaitSleep? || a.Sleep? ==> x == Running && y == Sleeping)
            && (a.Yield? ==> x == Running && y == Runnable)
            && (a.Run? ==> x == Runnable && y == Running)
            && (a.Kill? ==> y == if x == Sleeping then Runnable else x)
  {
    hide CpusOk, ParentsOk, WaitsOk, PidsOk, PidsAccounted, HasZombie, HasChild;
  }

  /** The other fields of that slot. */
  lemma SubjectFields(t: Table, a: Step)
    requires Inv(t) && Enabled(t, a) && Subject(t, a) != NONE
    ensures 0 <= Subject(t, a) < |t.procs| && |Apply(t, a).procs| == |t.procs|
    ensures var x, y := t.procs[Subject(t, a)], Apply(t, a).procs[Subject(t, a)];
            && y.pid == (if a.Alloc? then t.nextpid else if a.Reap? then 0 else x.pid)
            && y.parent == (if a.Adopt? then a.q else if a.Reap? then NONE else x.parent)
            && y.killed == (a.Kill? || (x.killed && !a.Reap?))
            && y.chan == (if a.Sleep? then Other(a.address) else if a.WaitSleep? then OfProc(a.q) else x.chan)
            && y.priority == (if a.Alloc? then 3 else x.priority)
            && y.times == (if a.Alloc? then 0 else x.times + if a.Run? && a.counted then 1 else 0)
            && y.queue == (if a.Alloc? then 0 else x.queue)
  {
    hide CpusOk, WaitsOk, PidsOk, PidsAccounted, HasZombie, HasChild;
  }

  /** Why a step wakes slot p: somebody called `wakeup` on what it sleeps on, or it sleeps in `wait` and a
      child exits, or it is init and is given a child that has exited. */
  ghost predicate Wakes(t: Table, a: Step, p: nat)
    requires p < |t.procs| == |t.doing|
  {
    && t.procs[p].state == Sleeping
    && match a
       case Wakeup(address) => t.procs[p].chan == Other(address)
       case Exit(q) =>
         t.doing[p] == Waiting && q < |t.procs| && (t.procs[q].parent == p || (p == t.init && HasZombie(t.procs, q)))
       case _ => false
  }

  lemma ExitOthers(t: Table, q: nat, p: nat)
    requires Inv(t) && CanExit(t, q) && p < |t.procs| && p != q
    ensures |DoExit(t, q).procs| == |t.procs| == |t.doing|
    ensures DoExit(t, q).procs[p] ==
            t.procs[p].(state := if Wakes(t, Exit(q), p) then Runnable else t.procs[p].state,
                        parent := if t.procs[p].parent == q then t.init else t.procs[p].parent)
  {
    hide CpusOk, PidsOk, PidsAccounted, ForksOk, HasZombie;
  }

  /** All other slots: they may be woken, and the children of a process that exits go to init. */
  lemma OtherSlots(t: Table, a: Step, p: nat)
    requires Inv(t) && Enabled(t, a) && p < |t.procs| && p != Subject(t, a)
    ensures |Apply(t, a).procs| == |t.procs| == |t.doing|
    ensures Apply(t, a).procs[p] ==
            t.procs[p].(state := if Wakes(t, a, p) then Runnable else t.procs[p].state,
                        parent := if a.Exit? && t.procs[p].parent == a.q then t.init else t.procs[p].parent)
  {
    hide DoExit, CpusOk, WaitsOk, PidsOk, PidsAccounted, HasZombie, HasChild;
    if a.Exit? {
      ExitOthers(t, a.q, p);
    }
  }

  /** Processors are taken by `Run` and left by whoever stops running. */
  lemma Processors(t: Table, a: Step, c: nat)
    requires Inv(t) && Enabled(t, a) && c < |t.cpus|
    ensures |Apply(t, a).cpus| == |t.cpus|
    ensures Apply(t, a).cpus[c] ==
            if a.Run? && a.cpu == c then a.p
            else if (a.Exit? || a.WaitSleep? || a.Sleep? || a.Yield?) && t.cpus[c] == a.q then NONE
            else t.cpus[c]
  {
  }

  /** In every run, right after a `kill` of slot p it is marked and not asleep: it is runnable if it slept
      and in the state it was in otherwise, and no other slot has changed. */
  lemma KillWakes(ts: seq<Table>, steps: seq<Step>, k: nat, p: nat)
    requires IsRun(ts, steps) && k < |steps| && steps[k] == Kill(p)
    ensures p < |ts[k].procs| == |ts[k + 1].procs|
    ensures var x, y := ts[k].procs[p], ts[k + 1].procs[p];
            y.killed && y.state != Sleeping && y == x.(killed := true, state := y.state) &&
            (if x.state == Sleeping then y.state == Runnable else y.state == x.state)
    ensures forall o :: 0 <= o < |ts[k].procs| && o != p ==> ts[k + 1].procs[o] == ts[k].procs[o]
  {
    hide Apply, Booted;
    RunInv(ts, steps, k);
    hide Inv;
    LifeCycle(ts[k], steps[k]);
    SubjectFields(ts[k], steps[k]);
    forall o | 0 <= o < |ts[k].procs| && o != p
      ensures ts[k + 1].procs[o] == ts[k].procs[o]
    {
      OtherSlots(ts[k], steps[k], o);
    }
  }
}
