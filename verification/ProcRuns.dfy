/** What holds of the process table in every run from boot. */
module ProcRuns {
  import opened ProcModel
  import opened ProcProofs

  /** The table as `userinit` leaves it: init runnable, everything else zero, all processors idle. */
  ghost predicate Booted(t: Table) {
    && |t.doing| == |t.procs| && t.init < |t.procs| && t.nextpid == 2 && t.reaped == [] && t.dropped == {}
    && t.procs[t.init].state == Runnable && t.procs[t.init].pid == 1 && t.procs[t.init].parent == NONE
    && (forall p :: 0 <= p < |t.procs| && p != t.init ==>
          t.procs[p].state == Unused && t.procs[p].parent == NONE && t.procs[p].pid == 0)
    && (forall p :: 0 <= p < |t.procs| ==> !t.procs[p].killed)
    && (forall p :: 0 <= p < |t.procs| ==> t.doing[p] == Elsewhere)
    && (forall c :: 0 <= c < |t.cpus| ==> t.cpus[c] == NONE)
  }

  function BootTable(n: nat, processors: nat): (t: Table)
    requires n > 0
  {
    var empty := Proc(Unused, 0, NONE, Nothing, false, 0, 0, QUEUE_DEFAULT);
    var procs := seq(n, i => if i == 0 then empty.(state := Runnable, pid := 1) else empty);
    Table(procs, seq(n, i => Elsewhere), seq(processors, i => NONE), 0, 2, [], {})
  }

  lemma BootPossible(n: nat, processors: nat) returns (t: Table)
    requires n > 0
    ensures Booted(t) && |t.procs| == n && |t.cpus| == processors
  {
    t := BootTable(n, processors);
  }

  ghost predicate IsRun(ts: seq<Table>, steps: seq<Step>) {
    && |ts| == |steps| + 1 && Booted(ts[0])
    && forall k :: 0 <= k < |steps| ==> Enabled(ts[k], steps[k]) && ts[k + 1] == Apply(ts[k], steps[k])
  }

  lemma BootedInv(t: Table)
    requires Booted(t)
    ensures Inv(t)
  {
    assert LivePid(t.procs, 1) by {
      assert t.procs[t.init].pid == 1;
    }
  }

  /** Over every run, every state satisfies the invariant. */
  lemma {:induction false} RunInv(ts: seq<Table>, steps: seq<Step>, k: nat)
    requires IsRun(ts, steps) && k < |ts|
    ensures Inv(ts[k])
    decreases k
  {
    hide Inv, Booted, Enabled, Apply;
    if k == 0 {
      BootedInv(ts[0]);
    } else {
      RunInv(ts, steps, k - 1);
      StepKeeps(ts[k - 1], steps[k - 1]);
    }
  }

  /** A RUNNING process is current on exactly one processor, and nothing else is current anywhere. */
  lemma OneProcessorEach(ts: seq<Table>, steps: seq<Step>, k: nat, p: nat)
    requires IsRun(ts, steps) && k < |ts| && p < |ts[k].procs|
    ensures ts[k].procs[p].state == Running <==> exists c :: 0 <= c < |ts[k].cpus| && ts[k].cpus[c] == p
    ensures forall c, d :: 0 <= c < |ts[k].cpus| && 0 <= d < |ts[k].cpus| ==>
              ts[k].cpus[c] == p && ts[k].cpus[d] == p ==> c == d
  {
    hide Enabled, Apply, Booted;
    RunInv(ts, steps, k);
  }

  /** Whoever has a parent has one that is neither unused nor a zombie. */
  lemma ParentsLive(ts: seq<Table>, steps: seq<Step>, k: nat, p: nat)
    requires IsRun(ts, steps) && k < |ts| && p < |ts[k].procs| && ts[k].procs[p].parent != NONE
    ensures 0 <= ts[k].procs[p].parent < |ts[k].procs|
    ensures var s := ts[k].procs[ts[k].procs[p].parent].state; s != Unused && s != Zombie
  {
    hide Enabled, Apply, Booted;
    RunInv(ts, steps, k);
  }

  /** No exit is missed: every zombie has a live parent, and that parent is not asleep in `wait`. */
  lemma ZombiesCanBeReaped(ts: seq<Table>, steps: seq<Step>, k: nat, z: nat)
    requires IsRun(ts, steps) && k < |ts| && z < |ts[k].procs| && ts[k].procs[z].state == Zombie
    ensures var q := ts[k].procs[z].parent;
            && 0 <= q < |ts[k].procs| == |ts[k].doing| && Alive(ts[k].procs[q].state)
            && !(ts[k].procs[q].state == Sleeping && ts[k].doing[q] == Waiting)
  {
    hide Enabled, Apply, Booted;
    RunInv(ts, steps, k);
    var t, q := ts[k], ts[k].procs[z].parent;
    assert z != t.init;
    assert 0 <= q < |t.procs| && HasZombie(t.procs, q);
  }

  lemma StillWaiting(t: Table, a: Step, q: nat)
    requires Enabled(t, a) && q < |t.procs| == |t.doing| && t.procs[q].state == Sleeping && t.doing[q] == Waiting
    ensures q < |Apply(t, a).doing| && Apply(t, a).doing[q] == Waiting
  {
  }

  lemma WaitFallsAsleep(t: Table, q: nat)
    requires CanWaitSleep(t, q)
    ensures var u := Apply(t, WaitSleep(q));
            q < |u.procs| == |u.doing| && u.procs[q].state == Sleeping && u.doing[q] == Waiting
  {
  }

  /** The same told from the steps alone: since q went to sleep in `wait` at step j and until it is awake
      again, it has no child that has exited. */
  lemma {:induction false} NoExitMissed(ts: seq<Table>, steps: seq<Step>, j: nat, k: nat, q: nat)
    requires IsRun(ts, steps) && j < k < |ts| && steps[j] == WaitSleep(q)
    requires forall m :: j < m <= k ==> q < |ts[m].procs| && ts[m].procs[q].state == Sleeping
    ensures q < |ts[k].doing| && ts[k].doing[q] == Waiting && !HasZombie(ts[k].procs, q)
    decreases k
  {
    hide Apply, Booted, HasZombie, CpusOk, ParentsOk, ForksOk, PidsOk, PidsAccounted;
    RunInv(ts, steps, k);
    if j + 1 < k {
      NoExitMissed(ts, steps, j, k - 1, q);
      RunInv(ts, steps, k - 1);
      StillWaiting(ts[k - 1], steps[k - 1], q);
    } else {
      WaitFallsAsleep(ts[j], q);
    }
  }

  lemma PidsDistinct(ts: seq<Table>, steps: seq<Step>, k: nat, p: nat, q: nat)
    requires IsRun(ts, steps) && k < |ts| && p < |ts[k].procs| && q < |ts[k].procs| && p != q
    requires ts[k].procs[p].state != Unused && ts[k].procs[q].state != Unused
    ensures ts[k].procs[p].pid != ts[k].procs[q].pid
  {
    hide Enabled, Apply, Booted;
    RunInv(ts, steps, k);
    assert if p < q then true else q < p;
  }

  lemma {:induction false} ReapedGrows(ts: seq<Table>, steps: seq<Step>, i: nat, j: nat)
    requires IsRun(ts, steps) && i <= j < |ts|
    ensures ts[i].reaped <= ts[j].reaped
    decreases j
  {
    if i < j {
      ReapedGrows(ts, steps, i, j - 1);
      ReapedStep(ts[j - 1], steps[j - 1]);
    }
  }

  lemma ReapedStep(t: Table, a: Step)
    requires Enabled(t, a)
    ensures t.reaped <= Apply(t, a).reaped
    ensures a.Reap? ==>
              a.child < |t.procs| && t.procs[a.child].pid in Apply(t, a).reaped && t.procs[a.child].state == Zombie
  {
  }

  /** No process is reaped twice: any two reaping steps of a run return different pids. */
  lemma ReapedOnce(ts: seq<Table>, steps: seq<Step>, i: nat, j: nat)
    requires IsRun(ts, steps) && i < j < |steps| && steps[i].Reap? && steps[j].Reap?
    ensures steps[i].child < |ts[i].procs| && steps[j].child < |ts[j].procs|
    ensures ts[i].procs[steps[i].child].pid != ts[j].procs[steps[j].child].pid
  {
    ReapedGrows(ts, steps, i + 1, j);
    ReapedStep(ts[i], steps[i]);
    ReapedStep(ts[j], steps[j]);
    hide Enabled, Apply, Booted;
    RunInv(ts, steps, j);
  }

  /** Every pid handed out so far is in the table, was reaped, or belonged to a failed fork, and
      never two of these. */
  lemma EveryPidAccounted(ts: seq<Table>, steps: seq<Step>, k: nat, x: nat)
    requires IsRun(ts, steps) && k < |ts| && 0 < x < ts[k].nextpid
    ensures LivePid(ts[k].procs, x) || x in ts[k].reaped || x in ts[k].dropped
    ensures !(LivePid(ts[k].procs, x) && x in ts[k].reaped) && !(LivePid(ts[k].procs, x) && x in ts[k].dropped)
    ensures !(x in ts[k].reaped && x in ts[k].dropped)
  {
    hide Enabled, Apply, Booted;
    RunInv(ts, steps, k);
  }
}
