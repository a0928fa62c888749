/** Who is marked killed, and how a process can be born so. */
module ProcKills {
  import opened ProcModel
  import opened ProcRuns

  predicate Reaps(a: Step, p: nat) {
    a.Reap? && a.child == p
  }

  /** Only `kill` sets the mark, and only reaping clears it. */
  lemma MarkStep(t: Table, a: Step, p: nat)
    requires Enabled(t, a) && p < |t.procs|
    ensures p < |Apply(t, a).procs|
    ensures Apply(t, a).procs[p].killed == (a == Kill(p) || (t.procs[p].killed && !Reaps(a, p)))
  {
  }

  /** Step j marked slot p, and nobody has reaped it from there up to step k. */
  predicate Marks(steps: seq<Step>, j: nat, k: nat, p: nat) {
    j < k <= |steps| && steps[j] == Kill(p) && forall i :: j < i < k ==> !Reaps(steps[i], p)
  }

  lemma {:induction false} SameSize(ts: seq<Table>, steps: seq<Step>, k: nat)
    requires IsRun(ts, steps) && k < |ts|
    ensures |ts[k].procs| == |ts[0].procs|
  {
    hide Booted;
    if k > 0 {
      SameSize(ts, steps, k - 1);
      StepSize(ts[k - 1], steps[k - 1]);
    }
  }

  lemma StepSize(t: Table, a: Step)
    requires Enabled(t, a)
    ensures |Apply(t, a).procs| == |t.procs|
  {
  }

  /** In every run a slot is marked exactly if a `kill` marked it since it was last reaped. */
  lemma {:induction false} MarkedExactly(ts: seq<Table>, steps: seq<Step>, k: nat, p: nat)
    requires IsRun(ts, steps) && k < |ts| && p < |ts[k].procs|
    ensures ts[k].procs[p].killed <==> exists j :: Marks(steps, j, k, p)
  {
    hide Enabled, Apply;
    if k > 0 {
      var n := k - 1;
      SameSize(ts, steps, k);
      SameSize(ts, steps, n);
      MarkedExactly(ts, steps, n, p);
      MarkStep(ts[n], steps[n], p);
      if j: nat :| Marks(steps, j, n, p) {
        assert !Reaps(steps[n], p) ==> Marks(steps, j, k, p);
      }
      if steps[n] == Kill(p) {
        assert Marks(steps, n, k, p);
      }
      if j: nat :| Marks(steps, j, k, p) {
        assert j < n ==> Marks(steps, j, n, p);
      }
    }
  }

  // ---------------------------------------------------------------- whom kill hits

  /** Pids left in unused slots are 0 or those of failed forks. */
  ghost predicate StaleOk(t: Table) {
    forall p :: 0 <= p < |t.procs| && t.procs[p].state == Unused ==> t.procs[p].pid == 0 || t.procs[p].pid in t.dropped
  }

  lemma StepStale(t: Table, a: Step)
    requires Enabled(t, a) && StaleOk(t)
    ensures StaleOk(Apply(t, a)) && t.dropped <= Apply(t, a).dropped
  {
  }

  lemma {:induction false} RunStale(ts: seq<Table>, steps: seq<Step>, k: nat)
    requires IsRun(ts, steps) && k < |ts|
    ensures StaleOk(ts[k])
  {
    hide Enabled, Apply;
    if k > 0 {
      RunStale(ts, steps, k - 1);
      StepStale(ts[k - 1], steps[k - 1]);
    }
  }

  /** In every run `kill` marks the process with that pid if there is one, and otherwise an unused slot:
      that happens exactly for 0 and for pids of failed forks that are still written somewhere. */
  lemma KillHits(ts: seq<Table>, steps: seq<Step>, k: nat, p: nat)
    requires IsRun(ts, steps) && k < |ts| && CanKill(ts[k], p)
    ensures ts[k].procs[p].state == Unused <==> ts[k].procs[p].pid == 0 || ts[k].procs[p].pid in ts[k].dropped
    ensures ts[k].procs[p].state == Unused <==> !LivePid(ts[k].procs, ts[k].procs[p].pid)
  {
    hide Enabled, Apply, Booted;
    RunInv(ts, steps, k);
    RunStale(ts, steps, k);
  }

  // ---------------------------------------------------------------- born killed

  predicate Young(t: Table, p: nat) {
    p < |t.procs| && (t.procs[p].state == Unused || t.procs[p].state == Embryo)
  }

  /** A slot is unused or an embryo after a step only if it was before, or was reaped. */
  lemma YoungBefore(t: Table, a: Step, p: nat)
    requires ShapeOk(t) && ForksOk(t) && Enabled(t, a) && Young(Apply(t, a), p) && !Reaps(a, p)
    ensures Young(t, p)
  {
  }

  lemma {:induction false} YoungAllAlong(ts: seq<Table>, steps: seq<Step>, j: nat, k: nat, p: nat)
    requires IsRun(ts, steps) && j <= k < |ts| && Young(ts[k], p) && forall i :: j <= i < k ==> !Reaps(steps[i], p)
    ensures Young(ts[j], p)
    decreases k - j
  {
    hide Enabled, Apply, Booted;
    if j < k {
      YoungAllAlong(ts, steps, j + 1, k, p);
      RunInv(ts, steps, j);
      YoungBefore(ts[j], steps[j], p);
    }
  }

  /** An embryo that stays young keeps its pid, or its fork has failed. */
  lemma EmbryoStep(t: Table, a: Step, p: nat)
    requires Enabled(t, a) && p < |t.procs| && t.procs[p].state == Embryo && Young(Apply(t, a), p)
    ensures t.procs[p].pid in Apply(t, a).dropped ||
            (Apply(t, a).procs[p].state == Embryo && Apply(t, a).procs[p].pid == t.procs[p].pid)
  {
  }

  lemma {:induction false} EmbryoEnds(ts: seq<Table>, steps: seq<Step>, j: nat, m: nat, k: nat, p: nat)
    requires IsRun(ts, steps) && j <= m <= k < |ts| && Young(ts[k], p) && forall i :: j <= i < k ==> !Reaps(steps[i], p)
    requires p < |ts[j].procs| && ts[j].procs[p].state == Embryo
    ensures ts[j].procs[p].pid in ts[m].dropped ||
            (p < |ts[m].procs| && ts[m].procs[p].state == Embryo && ts[m].procs[p].pid == ts[j].procs[p].pid)
    decreases m
  {
    hide Enabled, Apply, Booted;
    if j < m {
      EmbryoEnds(ts, steps, j, m - 1, k, p);
      if ts[j].procs[p].pid in ts[m - 1].dropped {
        RunStale(ts, steps, m - 1);
        StepStale(ts[m - 1], steps[m - 1]);
      } else {
        YoungAllAlong(ts, steps, m, k, p);
        EmbryoStep(ts[m - 1], steps[m - 1], p);
      }
    }
  }

  /** A `kill` of 0, or of a pid whose fork has failed by then or fails later, that marked slot p
      before step k and whose mark nobody cleared. */
  predicate Stray(ts: seq<Table>, steps: seq<Step>, j: nat, k: nat, p: nat) {
    && j < k < |ts| && Marks(steps, j, k, p) && j < |ts| && p < |ts[j].procs|
    && (ts[j].procs[p].pid == 0 || ts[j].procs[p].pid in ts[k].dropped)
  }

  lemma {:induction false} DroppedGrows(ts: seq<Table>, steps: seq<Step>, j: nat, k: nat)
    requires IsRun(ts, steps) && j <= k < |ts|
    ensures ts[j].dropped <= ts[k].dropped
    decreases k
  {
    hide Enabled, Apply, Booted;
    if j < k {
      DroppedGrows(ts, steps, j, k - 1);
      RunStale(ts, steps, k - 1);
      StepStale(ts[k - 1], steps[k - 1]);
    }
  }

  lemma MarkOnUnused(ts: seq<Table>, steps: seq<Step>, j: nat, k: nat, p: nat)
    requires IsRun(ts, steps) && k < |ts| && Marks(steps, j, k, p) && p < |ts[k].procs|
    requires ts[k].procs[p].state == Unused
    ensures Stray(ts, steps, j, k, p)
  {
    hide Enabled, Apply, Booted;
    YoungAllAlong(ts, steps, j, k, p);
    if ts[j].procs[p].state == Embryo {
      EmbryoEnds(ts, steps, j, k, k, p);
    } else {
      RunStale(ts, steps, j);
      DroppedGrows(ts, steps, j, k);
    }
  }

  lemma AllocMark(t: Table, a: Step)
    requires Enabled(t, a) && a.Alloc?
    ensures a.slot < |t.procs| && t.procs[a.slot].state == Unused && a.slot < |Apply(t, a).procs|
    ensures Apply(t, a).procs[a.slot].killed == t.procs[a.slot].killed
  {
  }

  /** In every run a child is born killed exactly if its slot carries the mark of a stray `kill`. */
  lemma BornKilledExactly(ts: seq<Table>, steps: seq<Step>, k: nat)
    requires IsRun(ts, steps) && k < |steps| && steps[k].Alloc?
    ensures var p := steps[k].slot;
            && p < |ts[k + 1].procs|
            && (ts[k + 1].procs[p].killed <==> exists j :: Stray(ts, steps, j, k, p))
  {
    hide Enabled, Apply, Booted;
    var p := steps[k].slot;
    AllocMark(ts[k], steps[k]);
    MarkedExactly(ts, steps, k, p);
    if j: nat :| Marks(steps, j, k, p) {
      MarkOnUnused(ts, steps, j, k, p);
    }
  }

  /** So no child is ever born killed in runs where `kill` hits living processes only; but `kill(0)` and
      a fork are enough for one that is. */
  lemma KillZeroThenFork(n: nat, processors: nat) returns (ts: seq<Table>, steps: seq<Step>)
    requires n >= 2 && processors >= 1
    ensures IsRun(ts, steps) && |steps| == 3 && steps[1] == Kill(1) && steps[2] == Alloc(0, 1)
    ensures |ts[1].procs| == |ts[3].procs| == n && ts[1].procs[1].pid == 0 && ts[3].procs[1].killed
  {
    var t0 := BootTable(n, processors);
    var t1 := DoRun(t0, 0, 0, false);
    var t2 := DoKill(t1, 1);
    assert CanKill(t1, 1);
    assert CanAlloc(t2, 0, 1);
    var t3 := DoAlloc(t2, 0, 1);
    ts, steps := [t0, t1, t2, t3], [Run(0, 0, false), Kill(1), Alloc(0, 1)];
  }
}
