/** The loops of proc.c over the process table, in place, each a step of the protocol. */
module ProcTable {
  import opened ProcModel
  import opened ProcProofs

  datatype WaitResult = Reaped(pid: nat) | NoChildren | Asleep

  class Ptable {
    const init: nat
    var procs: seq<Proc>
    var cpus: seq<int>
    var nextpid: nat
    ghost var doing: seq<Doing>
    ghost var reaped: seq<nat>
    ghost var dropped: set<nat>

    ghost function View(): Table
      reads this
    {
      Table(procs, doing, cpus, init, nextpid, reaped, dropped)
    }

    /** `allocproc` up to the release of the lock, called by q. */
    method AllocProc(q: nat) returns (slot: int)
      requires Inv(View()) && IsRunning(View(), q) && doing[q] == Elsewhere
      modifies this`procs, this`nextpid, this`doing
      ensures Inv(View())
      ensures slot == NONE ==> View() == old(View()) && forall p :: 0 <= p < |procs| ==> procs[p].state != Unused
      ensures slot != NONE ==> 0 <= slot && CanAlloc(old(View()), q, slot) && View() == DoAlloc(old(View()), q, slot)
    {
      hide Inv, Put;
      ghost var t := View();
      slot := 0;
      while slot < |procs|
        invariant 0 <= slot <= |procs| && View() == t
        invariant forall k :: 0 <= k < slot ==> procs[k].state != Unused
      {
        if procs[slot].state == Unused {
          AllocKeeps(t, q, slot);
          procs := procs[slot := Fresh(procs[slot], nextpid)];
          nextpid := nextpid + 1;
          doing := doing[q := Forking(slot)];
          assert View() == DoAlloc(t, q, slot) by { PutIs(t, slot, Fresh(t.procs[slot], t.nextpid)); }
          return;
        }
        slot := slot + 1;
      }
      return NONE;
    }

    /** `wakeup1`. */
    method Wakeup1(ch: Chan)
      modifies this`procs
      ensures procs == Wake(old(procs), ch)
    {
      var i := 0;
      while i < |procs|
        invariant 0 <= i <= |procs| == |old(procs)|
        invariant forall k :: 0 <= k < i ==> procs[k] == Wake(old(procs), ch)[k]
        invariant forall k :: i <= k < |procs| ==> procs[k] == old(procs)[k]
      {
        if procs[i].state == Sleeping && procs[i].chan == ch {
          procs := procs[i := procs[i].(state := Runnable)];
        }
        i := i + 1;
      }
    }

    /** The loop of `exit`: pass the children of q to init, waking init for each zombie. */
    method PassChildren(q: nat) returns (ghost seen: bool)
      modifies this`procs
      ensures |procs| == |old(procs)|
      ensures forall k :: 0 <= k < |procs| ==> procs[k] == Passed(old(procs)[k], q, init, true, seen)
      ensures seen <==> exists k :: 0 <= k < |procs| && old(procs)[k].parent == q && old(procs)[k].state == Zombie
    {
      ghost var a := procs;
      seen := false;
      var i := 0;
      while i < |procs|
        invariant 0 <= i <= |procs| == |a|
        invariant seen <==> exists k :: 0 <= k < i && a[k].parent == q && a[k].state == Zombie
        invariant forall k :: 0 <= k < |a| ==> procs[k] == Passed(a[k], q, init, k < i, seen)
      {
        if procs[i].parent == q {
          procs := procs[i := procs[i].(parent := init)];
          if procs[i].state == Zombie {
            Wakeup1(OfProc(init));
            seen := true;
          }
        }
        i := i + 1;
      }
    }

    /** The locked part of `exit`. */
    method Exit(q: nat)
      requires Inv(View()) && CanExit(View(), q)
      modifies this`procs, this`cpus
      ensures Inv(View()) && View() == DoExit(old(View()), q)
    {
      hide Inv, ExitProcs, Wake, Passed, Leave;
      ghost var t := View();
      ExitKeeps(t, q);
      Wakeup1(OfProc(procs[q].parent));
      ghost var seen := PassChildren(q);
      ExitPieces(t.procs, procs, q, init, seen);
      procs := procs[q := procs[q].(state := Zombie)];
      cpus := Leave(cpus, q);
    }

    /** One scan of the table by `wait`, and what follows from it. */
    method Wait(q: nat) returns (r: WaitResult, ghost c: nat)
      requires Inv(View()) && CanWait(View(), q)
      modifies this`procs, this`cpus, this`doing, this`reaped
      ensures Inv(View())
      ensures r.Reaped? ==>
                CanReap(old(View()), q, c) && View() == DoReap(old(View()), q, c) && r.pid == old(procs)[c].pid
      ensures r.Reaped? ==>
                && (forall k :: 0 <= k < c && old(procs)[k].parent == q ==> old(procs)[k].state != Zombie)
                && procs == old(procs)[c := old(procs)[c].(state := Unused, pid := 0, parent := NONE, killed := false)]
      ensures r.NoChildren? ==>
                && CanGiveUp(old(View()), q) && View() == old(View()).(doing := doing)
                && doing == old(doing)[q := Elsewhere]
      ensures r.Asleep? ==>
                && CanWaitSleep(old(View()), q) && View() == DoWaitSleep(old(View()), q)
                && procs == old(procs)[q := old(procs)[q].(state := Sleeping, chan := OfProc(q))]
    {
      hide Inv;
      ghost var t := View();
      var havekids, i := false, 0;
      while i < |procs|
        invariant 0 <= i <= |procs| && View() == t
        invariant havekids <==> exists k :: 0 <= k < i && procs[k].parent == q
        invariant forall k :: 0 <= k < i && procs[k].parent == q ==> procs[k].state != Zombie
      {
        if procs[i].parent == q {
          havekids := true;
          if procs[i].state == Zombie {
            var pid := procs[i].pid;
            assert CanReap(t, q, i);
            ReapKeeps(t, q, i);
            procs := procs[i := procs[i].(state := Unused, pid := 0, parent := NONE, killed := false)];
            doing := doing[q := Elsewhere];
            reaped := reaped + [pid];
            assert View() == DoReap(t, q, i);
            return Reaped(pid), i;
          }
        }
        i := i + 1;
      }
      if !havekids || procs[q].killed {
        GiveUpKeeps(t, q);
        doing := doing[q := Elsewhere];
        return NoChildren, 0;
      }
      WaitSleepKeeps(t, q);
      procs := procs[q := procs[q].(state := Sleeping, chan := OfProc(q))];
      cpus := Leave(cpus, q);
      doing := doing[q := Waiting];
      return Asleep, 0;
    }

    /** `kill`: -1 when no slot carries the pid. */
    method Kill(pid: nat) returns (r: int, ghost slot: nat)
      requires Inv(View())
      modifies this`procs
      ensures Inv(View())
      ensures r == -1 ==> View() == old(View()) && forall p :: 0 <= p < |procs| ==> procs[p].pid != pid
      ensures r != -1 ==> r == 0 && slot < |old(procs)| && old(procs)[slot].pid == pid && CanKill(old(View()), slot)
      ensures r != -1 ==>
                && View() == DoKill(old(View()), slot) && (forall k :: 0 <= k < slot ==> procs[k].pid != pid)
                && var was := old(procs)[slot];
                   procs == old(procs)[slot := was.(killed := true,
                                                    state := if was.state == Sleeping then Runnable else was.state)]
    {
      hide Inv;
      ghost var t := View();
      var i := 0;
      while i < |procs|
        invariant 0 <= i <= |procs| && View() == t
        invariant forall k :: 0 <= k < i ==> procs[k].pid != pid
      {
        if procs[i].pid == pid {
          assert CanKill(t, i);
          KillKeeps(t, i);
          procs := procs[i := procs[i].(killed := true)];
          if procs[i].state == Sleeping {
            procs := procs[i := procs[i].(state := Runnable)];
          }
          assert View() == DoKill(t, i);
          return 0, i;
        }
        i := i + 1;
      }
      return -1, 0;
    }
  }

  lemma PutIs(t: Table, q: nat, p: Proc)
    requires q < |t.procs|
    ensures Put(t, q, p) == t.(procs := t.procs[q := p])
  {
  }

  /** A process record in the middle of the adoption loop of `exit`. */
  function Passed(p: Proc, q: int, init: int, done: bool, seen: bool): Proc {
    var w := if seen && p.state == Sleeping && p.chan == OfProc(init) then p.(state := Runnable) else p;
    if done && p.parent == q then w.(parent := init) else w
  }

  lemma ExitPieces(procs: seq<Proc>, r: seq<Proc>, q: nat, init: nat, seen: bool)
    requires q < |procs|
    requires var a := Wake(procs, OfProc(procs[q].parent));
             && |r| == |a| && (forall k :: 0 <= k < |a| ==> r[k] == Passed(a[k], q, init, true, seen))
             && (seen <==> exists k :: 0 <= k < |a| && a[k].parent == q && a[k].state == Zombie)
    ensures ExitProcs(procs, q, init) == r[q := r[q].(state := Zombie)]
  {
    var a := Wake(procs, OfProc(procs[q].parent));
    assert seen <==> HasZombie(procs, q) by {
      if seen {
        var k :| 0 <= k < |a| && a[k].parent == q && a[k].state == Zombie;
        assert procs[k].parent == q && procs[k].state == Zombie;
      } else {
        assert forall k :: 0 <= k < |a| ==>
                 a[k].parent == procs[k].parent && (procs[k].state == Zombie ==> a[k].state == Zombie);
      }
    }
    var b := Adopted(a, q, init);
    var c := if seen then Wake(b, OfProc(init)) else b;
    assert forall k :: 0 <= k < |a| ==> r[k] == c[k];
    assert r == c;
  }
}
