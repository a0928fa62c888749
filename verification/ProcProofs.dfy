/** Every step of the process protocol keeps the invariant. */
module ProcProofs {
  import opened ProcModel

  // ---------------------------------------------------------------- what a step may leave alone

  ghost predicate SameSize(t: Table, u: Table) {
    |u.procs| == |t.procs| && |u.doing| == |t.doing| && u.init == t.init
  }

  lemma CpusSame(t: Table, u: Table)
    requires CpusOk(t) && SameSize(t, u) && u.cpus == t.cpus
    requires forall p :: 0 <= p < |t.procs| ==> (u.procs[p].state == Running <==> t.procs[p].state == Running)
    ensures CpusOk(u)
  {
  }

  lemma CpusLeave(t: Table, u: Table, q: int)
    requires CpusOk(t) && SameSize(t, u) && u.cpus == Leave(t.cpus, q) && q != NONE
    requires forall p :: 0 <= p < |t.procs| ==> (u.procs[p].state == Running <==> t.procs[p].state == Running && p != q)
    ensures CpusOk(u)
  {
    forall p | 0 <= p < |u.procs| && u.procs[p].state == Running
      ensures p in u.cpus
    {
      var c :| 0 <= c < |t.cpus| && t.cpus[c] == p;
      assert u.cpus[c] == p;
    }
  }

  /** Same parents and same live processes. */
  ghost predicate SameFamily(t: Table, u: Table) {
    && SameSize(t, u)
    && forall p :: 0 <= p < |t.procs| ==>
         && u.procs[p].parent == t.procs[p].parent && (Alive(u.procs[p].state) <==> Alive(t.procs[p].state))
         && (u.procs[p].state == Unused <==> t.procs[p].state == Unused)
         && (u.procs[p].state == Embryo <==> t.procs[p].state == Embryo)
  }

  lemma FamilyKept(t: Table, u: Table)
    requires ShapeOk(t) && ParentsOk(t) && ForksOk(t) && SameFamily(t, u) && u.nextpid == t.nextpid
    requires forall q :: 0 <= q < |t.procs| ==>
               (u.doing[q].Forking? <==> t.doing[q].Forking?) && (t.doing[q].Forking? ==> u.doing[q] == t.doing[q])
    ensures ShapeOk(u) && ParentsOk(u) && ForksOk(u)
  {
  }

  /** No sleeper is new and no zombie is. */
  lemma WaitsSame(t: Table, u: Table)
    requires |t.doing| == |t.procs| && SameSize(t, u) && WaitsOk(t)
    requires forall p :: 0 <= p < |t.procs| && u.procs[p].state == Sleeping ==>
               || (t.procs[p].state == Sleeping && t.procs[p].chan == u.procs[p].chan && u.doing[p] == t.doing[p])
               || (u.doing[p] != Waiting && !u.procs[p].chan.OfProc?)
    requires forall p :: 0 <= p < |t.procs| && u.procs[p].state == Zombie ==>
               t.procs[p].state == Zombie && t.procs[p].parent == u.procs[p].parent
    ensures WaitsOk(u)
  {
    forall p | 0 <= p < |u.procs| && u.procs[p].state == Sleeping && u.doing[p] == Waiting
      ensures !HasZombie(u.procs, p)
    {
      assert !HasZombie(t.procs, p);
    }
  }

  lemma PidsSame(t: Table, u: Table)
    requires PidsOk(t) && PidsAccounted(t) && SameSize(t, u)
    requires u.nextpid == t.nextpid && u.reaped == t.reaped && u.dropped == t.dropped
    requires forall p :: 0 <= p < |t.procs| ==>
               u.procs[p].pid == t.procs[p].pid && (u.procs[p].state == Unused <==> t.procs[p].state == Unused)
    ensures PidsOk(u) && PidsAccounted(u)
  {
    forall x: nat | LivePid(t.procs, x)
      ensures LivePid(u.procs, x)
    {
      var p :| 0 <= p < |t.procs| && t.procs[p].state != Unused && t.procs[p].pid == x;
      assert u.procs[p].pid == x;
    }
  }

  // ---------------------------------------------------------------- steps that keep the family

  lemma GiveUpKeeps(t: Table, q: nat)
    requires Inv(t) && CanGiveUp(t, q)
    ensures Inv(t.(doing := t.doing[q := Elsewhere]))
  {
    hide ShapeOk, CpusOk, ParentsOk, ForksOk, WaitsOk, PidsOk, PidsAccounted, HasZombie, HasChild;
    var u := t.(doing := t.doing[q := Elsewhere]);
    CpusSame(t, u);
    FamilyKept(t, u);
    WaitsSame(t, u);
    PidsSame(t, u);
  }

  lemma SleepKeeps(t: Table, q: nat, address: int)
    requires Inv(t) && IsRunning(t, q) && t.doing[q] == Elsewhere
    ensures Inv(Stop(t, q, Sleeping, Other(address)))
  {
    hide ShapeOk, CpusOk, ParentsOk, ForksOk, WaitsOk, PidsOk, PidsAccounted;
    var u := Stop(t, q, Sleeping, Other(address));
    CpusLeave(t, u, q);
    FamilyKept(t, u);
    WaitsSame(t, u);
    PidsSame(t, u);
  }

  lemma YieldKeeps(t: Table, q: nat)
    requires Inv(t) && IsRunning(t, q)
    ensures Inv(Stop(t, q, Runnable, t.procs[q].chan))
  {
    hide ShapeOk, CpusOk, ParentsOk, ForksOk, WaitsOk, PidsOk, PidsAccounted;
    var u := Stop(t, q, Runnable, t.procs[q].chan);
    CpusLeave(t, u, q);
    FamilyKept(t, u);
    WaitsSame(t, u);
    PidsSame(t, u);
  }

  lemma WakeupKeeps(t: Table, address: int)
    requires Inv(t)
    ensures Inv(t.(procs := Wake(t.procs, Other(address))))
  {
    hide ShapeOk, CpusOk, ParentsOk, ForksOk, WaitsOk, PidsOk, PidsAccounted;
    var u := t.(procs := Wake(t.procs, Other(address)));
    CpusSame(t, u);
    FamilyKept(t, u);
    WaitsSame(t, u);
    PidsSame(t, u);
  }

  lemma KillKeeps(t: Table, slot: nat)
    requires Inv(t) && CanKill(t, slot)
    ensures Inv(DoKill(t, slot))
    ensures slot < |t.procs|
    ensures var x := t.procs[slot];
            DoKill(t, slot).procs ==
            t.procs[slot := x.(killed := true, state := if x.state == Sleeping then Runnable else x.state)]
  {
    hide ShapeOk, CpusOk, ParentsOk, ForksOk, WaitsOk, PidsOk, PidsAccounted, IsFirst;
    var u := DoKill(t, slot);
    CpusSame(t, u);
    FamilyKept(t, u);
    WaitsSame(t, u);
    PidsSame(t, u);
  }

  lemma CpuTaken(t: Table, u: Table, c: nat, p: nat)
    requires CpusOk(t) && SameSize(t, u) && c < |t.cpus| && t.cpus[c] == NONE && u.cpus == t.cpus[c := p]
    requires p < |t.procs| && t.procs[p].state != Running
    requires forall x :: 0 <= x < |t.procs| ==> (u.procs[x].state == Running <==> t.procs[x].state == Running || x == p)
    ensures CpusOk(u)
  {
    forall x | 0 <= x < |u.procs| && u.procs[x].state == Running
      ensures x in u.cpus
    {
      if x == p {
        assert u.cpus[c] == p;
      } else {
        var d :| 0 <= d < |t.cpus| && t.cpus[d] == x;
        assert u.cpus[d] == x;
      }
    }
  }

  lemma RunKeeps(t: Table, c: nat, p: nat, counted: bool)
    requires Inv(t) && CanRun(t, c, p)
    ensures Inv(DoRun(t, c, p, counted))
  {
    hide ShapeOk, CpusOk, ParentsOk, ForksOk, WaitsOk, PidsOk, PidsAccounted;
    var u := DoRun(t, c, p, counted);
    CpuTaken(t, u, c, p);
    FamilyKept(t, u);
    WaitsSame(t, u);
    PidsSame(t, u);
  }

  lemma WaitSleepWaits(t: Table, q: nat)
    requires |t.doing| == |t.procs| && WaitsOk(t) && CanWaitSleep(t, q)
    ensures WaitsOk(DoWaitSleep(t, q))
  {
    var u := DoWaitSleep(t, q);
    forall p | 0 <= p < |u.procs| && u.procs[p].state == Sleeping && u.doing[p] == Waiting
      ensures u.procs[p].chan == OfProc(p) && !HasZombie(u.procs, p)
    {
      assert !HasZombie(t.procs, p);
    }
  }

  lemma WaitSleepKeeps(t: Table, q: nat)
    requires Inv(t) && CanWaitSleep(t, q)
    ensures Inv(DoWaitSleep(t, q))
    ensures q < |t.procs| && q < |t.doing|
    ensures DoWaitSleep(t, q).procs == t.procs[q := t.procs[q].(state := Sleeping, chan := OfProc(q))]
    ensures DoWaitSleep(t, q).doing == t.doing[q := Waiting] && !HasZombie(DoWaitSleep(t, q).procs, q)
  {
    hide ShapeOk, CpusOk, ParentsOk, ForksOk, WaitsOk, PidsOk, PidsAccounted, HasZombie, HasChild;
    var u := DoWaitSleep(t, q);
    WaitSleepWaits(t, q);
    CpusLeave(t, u, q);
    FamilyKept(t, u);
    PidsSame(t, u);
  }

  // ---------------------------------------------------------------- fork

  lemma AllocKeeps(t: Table, q: nat, slot: nat)
    requires Inv(t) && CanAlloc(t, q, slot)
    ensures Inv(DoAlloc(t, q, slot))
  {
    hide ShapeOk, CpusOk, ParentsOk, ForksOk, WaitsOk, PidsOk, PidsAccounted, IsFirst, CanAlloc;
    var u := DoAlloc(t, q, slot);
    AllocIs(t, q, slot);
    AllocFamily(t, q, slot);
    AllocPids(t, q, slot);
    CpusSame(t, u);
    WaitsSame(t, u);
  }

  lemma AllocIs(t: Table, q: nat, slot: nat)
    requires CanAlloc(t, q, slot)
    ensures slot < |t.procs| && t.procs[slot].state == Unused && IsRunning(t, q) && t.doing[q] == Elsewhere
  {
  }

  lemma AllocFamily(t: Table, q: nat, slot: nat)
    requires ShapeOk(t) && ParentsOk(t) && ForksOk(t) && CanAlloc(t, q, slot)
    ensures var u := DoAlloc(t, q, slot); ShapeOk(u) && ParentsOk(u) && ForksOk(u)
  {
    AllocParents(t, q, slot);
    AllocForks(t, q, slot);
  }

  lemma AllocParents(t: Table, q: nat, slot: nat)
    requires ShapeOk(t) && ParentsOk(t) && ForksOk(t) && CanAlloc(t, q, slot)
    ensures var u := DoAlloc(t, q, slot); ShapeOk(u) && ParentsOk(u)
  {
  }

  lemma AllocForks(t: Table, q: nat, slot: nat)
    requires ShapeOk(t) && ParentsOk(t) && ForksOk(t) && CanAlloc(t, q, slot)
    ensures ForksOk(DoAlloc(t, q, slot))
  {
  }

  lemma AllocPids(t: Table, q: nat, slot: nat)
    requires ShapeOk(t) && PidsOk(t) && PidsAccounted(t) && CanAlloc(t, q, slot)
    ensures var u := DoAlloc(t, q, slot); PidsOk(u) && PidsAccounted(u)
  {
    var u := DoAlloc(t, q, slot);
    forall x: nat | 0 < x < u.nextpid
      ensures LivePid(u.procs, x) || x in u.reaped || x in u.dropped
    {
      if x == t.nextpid {
        assert u.procs[slot].pid == x;
      } else if LivePid(t.procs, x) {
        var p :| 0 <= p < |t.procs| && t.procs[p].state != Unused && t.procs[p].pid == x;
        assert u.procs[p].pid == x;
      }
    }
  }

  lemma AbortKeeps(t: Table, q: nat)
    requires Inv(t) && IsForking(t, q, NONE)
    ensures Inv(DoAbort(t, q))
  {
    hide ShapeOk, CpusOk, ParentsOk, ForksOk, WaitsOk, PidsOk, PidsAccounted;
    var u := DoAbort(t, q);
    AbortFamily(t, q);
    AbortPids(t, q);
    ForkingChild(t, q);
    CpusSame(t, u);
    WaitsSame(t, u);
  }

  lemma ForkingChild(t: Table, q: nat)
    requires ShapeOk(t) && ForksOk(t) && q < |t.procs| && t.doing[q].Forking?
    ensures t.doing[q].child < |t.procs| && t.procs[t.doing[q].child].state == Embryo
  {
  }

  lemma AbortFamily(t: Table, q: nat)
    requires ShapeOk(t) && ParentsOk(t) && ForksOk(t) && IsForking(t, q, NONE)
    ensures var u := DoAbort(t, q); ShapeOk(u) && ParentsOk(u) && ForksOk(u)
  {
    AbortParents(t, q);
    AbortForks(t, q);
  }

  lemma AbortParents(t: Table, q: nat)
    requires ShapeOk(t) && ParentsOk(t) && ForksOk(t) && IsForking(t, q, NONE)
    ensures var u := DoAbort(t, q); ShapeOk(u) && ParentsOk(u)
  {
  }

  lemma AbortForks(t: Table, q: nat)
    requires ShapeOk(t) && ParentsOk(t) && ForksOk(t) && IsForking(t, q, NONE)
    ensures ForksOk(DoAbort(t, q))
  {
  }

  lemma AbortPids(t: Table, q: nat)
    requires ShapeOk(t) && ForksOk(t) && PidsOk(t) && PidsAccounted(t) && IsForking(t, q, NONE)
    ensures var u := DoAbort(t, q); PidsOk(u) && PidsAccounted(u)
  {
    ForkingChild(t, q);
    AbortPidsOk(t, q);
    hide ShapeOk, ForksOk, LivePid, PidsOk;
    StillLive(t, DoAbort(t, q), t.doing[q].child);
  }

  lemma AbortPidsOk(t: Table, q: nat)
    requires PidsOk(t) && IsForking(t, q, NONE) && t.procs[t.doing[q].child].state == Embryo
    ensures PidsOk(DoAbort(t, q))
  {
  }

  /** Everyone but slot c keeps pid and use. */
  lemma StillLive(t: Table, u: Table, c: nat)
    requires |u.procs| == |t.procs| && c < |t.procs|
    requires forall p :: 0 <= p < |t.procs| && p != c ==>
               u.procs[p].pid == t.procs[p].pid && u.procs[p].state == t.procs[p].state
    ensures forall x: nat :: LivePid(t.procs, x) && x != t.procs[c].pid ==> LivePid(u.procs, x)
  {
    forall x: nat | LivePid(t.procs, x) && x != t.procs[c].pid
      ensures LivePid(u.procs, x)
    {
      var p :| 0 <= p < |t.procs| && t.procs[p].state != Unused && t.procs[p].pid == x;
      assert u.procs[p].pid == x;
    }
  }

  lemma AdoptKeeps(t: Table, q: nat)
    requires Inv(t) && IsForking(t, q, NONE)
    ensures Inv(DoAdopt(t, q))
  {
    hide ShapeOk, CpusOk, ParentsOk, ForksOk, WaitsOk, PidsOk, PidsAccounted;
    var u := DoAdopt(t, q);
    AdoptFamily(t, q);
    ForkingChild(t, q);
    CpusSame(t, u);
    WaitsSame(t, u);
    PidsSame(t, u);
  }

  lemma AdoptFamily(t: Table, q: nat)
    requires ShapeOk(t) && ParentsOk(t) && ForksOk(t) && IsForking(t, q, NONE)
    ensures var u := DoAdopt(t, q); ShapeOk(u) && ParentsOk(u) && ForksOk(u)
  {
  }

  lemma LaunchKeeps(t: Table, q: nat)
    requires Inv(t) && IsForking(t, q, q)
    ensures Inv(DoLaunch(t, q))
  {
    hide ShapeOk, CpusOk, ParentsOk, ForksOk, WaitsOk, PidsOk, PidsAccounted;
    var u := DoLaunch(t, q);
    LaunchFamily(t, q);
    ForkingChild(t, q);
    CpusSame(t, u);
    WaitsSame(t, u);
    PidsSame(t, u);
  }

  lemma LaunchFamily(t: Table, q: nat)
    requires ShapeOk(t) && ParentsOk(t) && ForksOk(t) && IsForking(t, q, q)
    ensures var u := DoLaunch(t, q); ShapeOk(u) && ParentsOk(u) && ForksOk(u)
  {
  }

  // ---------------------------------------------------------------- exit and wait

  lemma ReapKeeps(t: Table, q: nat, c: nat)
    requires Inv(t) && CanReap(t, q, c)
    ensures Inv(DoReap(t, q, c))
  {
    hide ShapeOk, CpusOk, ParentsOk, ForksOk, WaitsOk, PidsOk, PidsAccounted, IsFirst, CanReap;
    var u := DoReap(t, q, c);
    ReapIs(t, q, c);
    ReapFamily(t, q, c);
    ReapPids(t, q, c);
    CpusSame(t, u);
    WaitsSame(t, u);
  }

  lemma ReapIs(t: Table, q: nat, c: nat)
    requires CanReap(t, q, c)
    ensures c < |t.procs| && t.procs[c].state == Zombie && t.procs[c].parent == q && CanWait(t, q)
  {
  }

  lemma ReapFamily(t: Table, q: nat, c: nat)
    requires ShapeOk(t) && ParentsOk(t) && ForksOk(t) && CanReap(t, q, c)
    ensures var u := DoReap(t, q, c); ShapeOk(u) && ParentsOk(u) && ForksOk(u)
  {
    ReapParents(t, q, c);
    ReapForks(t, q, c);
  }

  lemma ReapParents(t: Table, q: nat, c: nat)
    requires ShapeOk(t) && ParentsOk(t) && ForksOk(t) && CanReap(t, q, c)
    ensures var u := DoReap(t, q, c); ShapeOk(u) && ParentsOk(u)
  {
  }

  lemma ReapForks(t: Table, q: nat, c: nat)
    requires ShapeOk(t) && ParentsOk(t) && ForksOk(t) && CanReap(t, q, c)
    ensures ForksOk(DoReap(t, q, c))
  {
  }

  lemma ReapPids(t: Table, q: nat, c: nat)
    requires ShapeOk(t) && PidsOk(t) && PidsAccounted(t) && CanReap(t, q, c)
    ensures var u := DoReap(t, q, c); PidsOk(u) && PidsAccounted(u)
  {
    var u := DoReap(t, q, c);
    ReapIs(t, q, c);
    hide ShapeOk, LivePid, CanReap, IsFirst;
    StillLive(t, u, c);
    assert u.reaped[|t.reaped|] == t.procs[c].pid;
  }

  /** What `exit` does to each process. */
  lemma ExitEffect(procs: seq<Proc>, q: nat, init: nat, p: nat)
    requires q < |procs| && p < |procs|
    ensures var r, x, y := ExitProcs(procs, q, init), ExitProcs(procs, q, init)[p], procs[p];
            && y.pid == x.pid && y.chan == x.chan && x.parent == (if y.parent == q then init else y.parent)
            && (p == q ==> x.state == Zombie)
            && (p != q ==> x.state == y.state || (y.state == Sleeping && x.state == Runnable))
            && (p != q && x.state == Sleeping && x.chan == OfProc(p) ==>
                  p != procs[q].parent && (HasZombie(procs, q) ==> p != init))
  {
  }

  lemma ExitKeeps(t: Table, q: nat)
    requires Inv(t) && CanExit(t, q)
    ensures Inv(DoExit(t, q))
  {
    var u := DoExit(t, q);
    hide ExitProcs, Wake, Adopted;
    ExitFamily(t, q);
    ExitWaits(t, q);
    forall p | 0 <= p < |t.procs|
      ensures u.procs[p].pid == t.procs[p].pid && (u.procs[p].state == Unused <==> t.procs[p].state == Unused)
      ensures u.procs[p].state == Running <==> t.procs[p].state == Running && p != q
    {
      ExitEffect(t.procs, q, t.init, p);
    }
    hide ShapeOk, CpusOk, ParentsOk, ForksOk, WaitsOk, PidsOk, PidsAccounted;
    CpusLeave(t, u, q);
    PidsSame(t, u);
  }

  /** u is t after the exit of q, as far as parents and states go. */
  ghost predicate Left(t: Table, u: Table, q: nat) {
    && SameSize(t, u) && u.doing == t.doing && u.nextpid == t.nextpid
    && forall p :: 0 <= p < |t.procs| ==>
         && u.procs[p].parent == (if t.procs[p].parent == q then t.init else t.procs[p].parent)
         && (p == q ==> u.procs[p].state == Zombie)
         && (p != q ==> (Alive(u.procs[p].state) <==> Alive(t.procs[p].state)))
         && (u.procs[p].state == Unused <==> t.procs[p].state == Unused)
         && (u.procs[p].state == Embryo <==> t.procs[p].state == Embryo)
  }

  lemma ExitLeft(t: Table, q: nat)
    requires CanExit(t, q)
    ensures Left(t, DoExit(t, q), q)
  {
    hide ExitProcs;
    var u := DoExit(t, q);
    forall p | 0 <= p < |t.procs|
      ensures u.procs[p].parent == (if t.procs[p].parent == q then t.init else t.procs[p].parent)
      ensures p == q ==> u.procs[p].state == Zombie
      ensures p != q ==> (Alive(u.procs[p].state) <==> Alive(t.procs[p].state))
      ensures u.procs[p].state == Unused <==> t.procs[p].state == Unused
      ensures u.procs[p].state == Embryo <==> t.procs[p].state == Embryo
    {
      ExitEffect(t.procs, q, t.init, p);
    }
  }

  lemma ExitFamily(t: Table, q: nat)
    requires ShapeOk(t) && ParentsOk(t) && ForksOk(t) && CanExit(t, q)
    ensures var u := DoExit(t, q); ShapeOk(u) && ParentsOk(u) && ForksOk(u)
  {
    ExitLeft(t, q);
    LeftParents(t, DoExit(t, q), q);
    LeftForks(t, DoExit(t, q), q);
  }

  lemma LeftParents(t: Table, u: Table, q: nat)
    requires ShapeOk(t) && ParentsOk(t) && Left(t, u, q) && q != t.init
    ensures ShapeOk(u) && ParentsOk(u)
  {
  }

  lemma LeftForks(t: Table, u: Table, q: nat)
    requires ShapeOk(t) && ParentsOk(t) && ForksOk(t) && Left(t, u, q) && q < |t.procs| && t.doing[q] == Elsewhere
    ensures ForksOk(u)
  {
    assert forall p :: 0 <= p < |t.procs| && t.procs[p].state == Embryo ==> t.procs[p].parent != q;
  }

  lemma ExitWaits(t: Table, q: nat)
    requires ShapeOk(t) && ParentsOk(t) && WaitsOk(t) && CanExit(t, q)
    ensures WaitsOk(DoExit(t, q))
  {
    hide ExitProcs;
    var u := DoExit(t, q);
    forall p | 0 <= p < |t.procs| && u.procs[p].state == Sleeping
      ensures u.doing[p] != Waiting ==> !u.procs[p].chan.OfProc?
    {
      ExitEffect(t.procs, q, t.init, p);
    }
    forall p | 0 <= p < |t.procs| && u.procs[p].state == Sleeping && u.doing[p] == Waiting
      ensures u.procs[p].chan == OfProc(p) && !HasZombie(u.procs, p)
    {
      ExitEffect(t.procs, q, t.init, p);
      assert !HasZombie(t.procs, p);
      forall c | 0 <= c < |t.procs| && u.procs[c].parent == p
        ensures u.procs[c].state != Zombie
      {
        ExitEffect(t.procs, q, t.init, c);
      }
    }
  }

  /** Whatever step is taken. */
  lemma StepKeeps(t: Table, a: Step)
    requires Inv(t) && Enabled(t, a)
    ensures Inv(Apply(t, a))
  {
    hide Inv, DoAlloc, DoAbort, DoAdopt, DoLaunch, DoExit, DoReap, DoWaitSleep, DoKill, DoRun, Stop, Wake;
    match a
    case Alloc(q, slot) => AllocKeeps(t, q, slot);
    case Abort(q) => AbortKeeps(t, q);
    case Adopt(q) => AdoptKeeps(t, q);
    case Launch(q) => LaunchKeeps(t, q);
    case Exit(q) => ExitKeeps(t, q);
    case Reap(q, c) => ReapKeeps(t, q, c);
    case GiveUp(q) => GiveUpKeeps(t, q);
    case WaitSleep(q) => WaitSleepKeeps(t, q);
    case Sleep(q, address) => SleepKeeps(t, q, address);
    case Wakeup(address) => WakeupKeeps(t, address);
    case Kill(slot) => KillKeeps(t, slot);
    case Yield(q) => YieldKeeps(t, q);
    case Run(c, p, counted) => RunKeeps(t, c, p, counted);
  }
}
