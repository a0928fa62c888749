/** The process table as a state machine over the sections of proc.c that hold `ptable.lock`.
    Slots name processes; -1 stands for a null pointer. */
module ProcModel {
  const NONE := -1

  datatype Status = Unused | Embryo | Sleeping | Runnable | Running | Zombie

  /** Sleep channels: the address of a process, used by `wait`, or any other address. */
  datatype Chan = Nothing | OfProc(slot: int) | Other(address: int)

  const QUEUE_DEFAULT := 0
  const QUEUE_PRIORITY := 1
  const QUEUE_PRIORITY_REVERSE := 2

  datatype Proc = Proc(
    state: Status,
    pid: nat,
    parent: int,
    chan: Chan,
    killed: bool,
    priority: int,
    times: int,
    queue: int)

  /** Where a process is in the kernel, as far as the protocol cares. */
  datatype Doing = Elsewhere | Forking(child: nat) | Waiting

  datatype Table = Table(
    procs: seq<Proc>,
    doing: seq<Doing>,
    cpus: seq<int>,
    init: nat,
    nextpid: nat,
    reaped: seq<nat>,
    dropped: set<nat>)

  // ---------------------------------------------------------------- the pieces of a step

  /** `wakeup1`. */
  function Wake(procs: seq<Proc>, ch: Chan): (r: seq<Proc>)
    ensures |r| == |procs|
    ensures forall p :: 0 <= p < |procs| ==>
              r[p] == if procs[p].state == Sleeping && procs[p].chan == ch then procs[p].(state := Runnable)
                  else procs[p]
  {
    seq(|procs|, p requires 0 <= p < |procs| =>
      if procs[p].state == Sleeping && procs[p].chan == ch then procs[p].(state := Runnable) else procs[p])
  }

  ghost predicate HasZombie(procs: seq<Proc>, q: int) {
    exists p :: 0 <= p < |procs| && procs[p].parent == q && procs[p].state == Zombie
  }

  ghost predicate HasChild(procs: seq<Proc>, q: int) {
    exists p :: 0 <= p < |procs| && procs[p].parent == q
  }

  /** The loop of `exit`: the children of q go to init. */
  function Adopted(procs: seq<Proc>, q: int, init: int): (r: seq<Proc>)
    ensures |r| == |procs|
    ensures forall p :: 0 <= p < |procs| ==>
              r[p] == if procs[p].parent == q then procs[p].(parent := init) else procs[p]
  {
    seq(|procs|, p requires 0 <= p < |procs| => if procs[p].parent == q then procs[p].(parent := init) else procs[p])
  }

  function Leave(cpus: seq<int>, q: int): (r: seq<int>)
    ensures |r| == |cpus| && forall c :: 0 <= c < |cpus| ==> r[c] == if cpus[c] == q then NONE else cpus[c]
  {
    seq(|cpus|, c requires 0 <= c < |cpus| => if cpus[c] == q then NONE else cpus[c])
  }

  predicate IsFirst(procs: seq<Proc>, n: nat, ok: Proc -> bool) {
    n < |procs| && ok(procs[n]) && forall k :: 0 <= k < n ==> !ok(procs[k])
  }

  /** The whole locked part of `exit`: wake the parent, hand the children to init, wake init
      if one of them is a zombie, become a zombie. */
  ghost function ExitProcs(procs: seq<Proc>, q: nat, init: nat): (r: seq<Proc>)
    requires q < |procs|
    ensures |r| == |procs|
  {
    var a := Adopted(Wake(procs, OfProc(procs[q].parent)), q, init);
    var b := if HasZombie(procs, q) then Wake(a, OfProc(init)) else a;
    b[q := b[q].(state := Zombie)]
  }

  // ---------------------------------------------------------------- steps

  datatype Step =
    | Alloc(q: nat, slot: nat)
    | Abort(q: nat)
    | Adopt(q: nat)
    | Launch(q: nat)
    | Exit(q: nat)
    | Reap(q: nat, child: nat)
    | GiveUp(q: nat)
    | WaitSleep(q: nat)
    | Sleep(q: nat, address: int)
    | Wakeup(address: int)
    | Kill(slot: nat)
    | Yield(q: nat)
    | Run(cpu: nat, p: nat, counted: bool)

  predicate IsRunning(t: Table, q: nat) { q < |t.procs| && |t.doing| == |t.procs| && t.procs[q].state == Running }

  function Put(t: Table, q: nat, p: Proc): Table
    requires q < |t.procs|
  {
    t.(procs := t.procs[q := p])
  }

  /** The running process q stops running in state s. */
  function Stop(t: Table, q: nat, s: Status, ch: Chan): Table
    requires q < |t.procs|
  {
    t.(procs := t.procs[q := t.procs[q].(state := s, chan := ch)], cpus := Leave(t.cpus, q))
  }

  /** q is in `fork` and has not yet linked the child to itself. */
  predicate IsForking(t: Table, q: nat, parent: int) {
    IsRunning(t, q) && t.doing[q].Forking? && t.doing[q].child < |t.procs| && t.procs[t.doing[q].child].parent == parent
  }

  /** `allocproc` takes the first unused slot. */
  predicate CanAlloc(t: Table, q: nat, slot: nat) {
    IsRunning(t, q) && t.doing[q] == Elsewhere && IsFirst(t.procs, slot, (p: Proc) => p.state == Unused)
  }

  function Fresh(p: Proc, pid: nat): Proc {
    p.(state := Embryo, pid := pid, priority := 3, times := 0, queue := QUEUE_DEFAULT)
  }

  function DoAlloc(t: Table, q: nat, slot: nat): Table
    requires CanAlloc(t, q, slot)
  {
    Put(t, slot, Fresh(t.procs[slot], t.nextpid)).(doing := t.doing[q := Forking(slot)], nextpid := t.nextpid + 1)
  }

  /** `fork` runs out of memory; the slot keeps its stale pid. */
  function DoAbort(t: Table, q: nat): Table
    requires IsForking(t, q, NONE)
  {
    var c := t.doing[q].child;
    Put(t, c, t.procs[c].(state := Unused)).(doing := t.doing[q := Elsewhere], dropped := t.dropped + {t.procs[c].pid})
  }

  function DoAdopt(t: Table, q: nat): Table
    requires IsForking(t, q, NONE)
  {
    var c := t.doing[q].child;
    Put(t, c, t.procs[c].(parent := q))
  }

  function DoLaunch(t: Table, q: nat): Table
    requires IsForking(t, q, q)
  {
    var c := t.doing[q].child;
    Put(t, c, t.procs[c].(state := Runnable)).(doing := t.doing[q := Elsewhere])
  }

  predicate CanExit(t: Table, q: nat) { IsRunning(t, q) && q != t.init && t.doing[q] == Elsewhere }

  ghost function DoExit(t: Table, q: nat): Table
    requires CanExit(t, q)
  {
    t.(procs := ExitProcs(t.procs, q, t.init), cpus := Leave(t.cpus, q))
  }

  predicate CanWait(t: Table, q: nat) { IsRunning(t, q) && !t.doing[q].Forking? }

  /** `wait` takes the first zombie child. */
  predicate CanReap(t: Table, q: nat, c: nat) {
    CanWait(t, q) && IsFirst(t.procs, c, (p: Proc) => p.parent == q && p.state == Zombie)
  }

  function DoReap(t: Table, q: nat, c: nat): Table
    requires CanReap(t, q, c)
  {
    Put(t, c, t.procs[c].(state := Unused, pid := 0, parent := NONE, killed := false))
      .(doing := t.doing[q := Elsewhere], reaped := t.reaped + [t.procs[c].pid])
  }

  ghost predicate CanGiveUp(t: Table, q: nat) {
    CanWait(t, q) && !HasZombie(t.procs, q) && (!HasChild(t.procs, q) || t.procs[q].killed)
  }

  ghost predicate CanWaitSleep(t: Table, q: nat) {
    CanWait(t, q) && !HasZombie(t.procs, q) && HasChild(t.procs, q) && !t.procs[q].killed
  }

  function DoWaitSleep(t: Table, q: nat): Table
    requires CanWait(t, q)
  {
    Stop(t, q, Sleeping, OfProc(q)).(doing := t.doing[q := Waiting])
  }

  /** `kill` marks the first slot with the pid, whatever its state. */
  predicate CanKill(t: Table, slot: nat) {
    slot < |t.procs| && IsFirst(t.procs, slot, (p: Proc) => p.pid == t.procs[slot].pid)
  }

  function DoKill(t: Table, slot: nat): Table
    requires slot < |t.procs|
  {
    var p := t.procs[slot];
    Put(t, slot, p.(killed := true, state := if p.state == Sleeping then Runnable else p.state))
  }

  /** An idle processor may take any runnable process, whatever the policy. */
  predicate CanRun(t: Table, c: nat, p: nat) {
    c < |t.cpus| && t.cpus[c] == NONE && p < |t.procs| && t.procs[p].state == Runnable
  }

  /** Two of the three policies count how often a process has been run. */
  function DoRun(t: Table, c: nat, p: nat, counted: bool): Table
    requires CanRun(t, c, p)
  {
    var times := t.procs[p].times + if counted then 1 else 0;
    Put(t, p, t.procs[p].(state := Running, times := times)).(cpus := t.cpus[c := p])
  }

  /** May the step be taken in t? */
  ghost predicate Enabled(t: Table, a: Step) {
    match a
    case Alloc(q, slot) => CanAlloc(t, q, slot)
    case Abort(q) => IsForking(t, q, NONE)
    case Adopt(q) => IsForking(t, q, NONE)
    case Launch(q) => IsForking(t, q, q)
    case Exit(q) => CanExit(t, q)
    case Reap(q, c) => CanReap(t, q, c)
    case GiveUp(q) => CanGiveUp(t, q)
    case WaitSleep(q) => CanWaitSleep(t, q)
    case Sleep(q, address) => IsRunning(t, q) && t.doing[q] == Elsewhere
    case Wakeup(address) => true
    case Kill(slot) => CanKill(t, slot)
    case Yield(q) => IsRunning(t, q)
    case Run(c, p, _) => CanRun(t, c, p)
  }

  ghost function Apply(t: Table, a: Step): Table
    requires Enabled(t, a)
  {
    match a
    case Alloc(q, slot) => DoAlloc(t, q, slot)
    case Abort(q) => DoAbort(t, q)
    case Adopt(q) => DoAdopt(t, q)
    case Launch(q) => DoLaunch(t, q)
    case Exit(q) => DoExit(t, q)
    case Reap(q, c) => DoReap(t, q, c)
    case GiveUp(q) => t.(doing := t.doing[q := Elsewhere])
    case WaitSleep(q) => DoWaitSleep(t, q)
    case Sleep(q, address) => Stop(t, q, Sleeping, Other(address))
    case Wakeup(address) => t.(procs := Wake(t.procs, Other(address)))
    case Kill(slot) => DoKill(t, slot)
    case Yield(q) => Stop(t, q, Runnable, t.procs[q].chan)
    case Run(c, p, counted) => DoRun(t, c, p, counted)
  }

  // ---------------------------------------------------------------- invariant

  predicate Alive(s: Status) { s == Sleeping || s == Runnable || s == Running }

  ghost predicate ShapeOk(t: Table) {
    && |t.doing| == |t.procs| && t.nextpid > 0
    && t.init < |t.procs| && Alive(t.procs[t.init].state) && t.procs[t.init].parent == NONE
  }

  /** RUNNING processes and the processors' current processes are the same, one to one. */
  ghost predicate CpusOk(t: Table) {
    && (forall c :: 0 <= c < |t.cpus| && t.cpus[c] != NONE ==>
          0 <= t.cpus[c] < |t.procs| && t.procs[t.cpus[c]].state == Running)
    && (forall c, d :: 0 <= c < d < |t.cpus| && t.cpus[c] != NONE ==> t.cpus[c] != t.cpus[d])
    && (forall p :: 0 <= p < |t.procs| && t.procs[p].state == Running ==> p in t.cpus)
  }

  /** Whoever has a parent has a live one, and every process but init has one. */
  ghost predicate ParentsOk(t: Table) {
    && (forall p :: 0 <= p < |t.procs| && t.procs[p].parent != NONE ==>
          && 0 <= t.procs[p].parent < |t.procs| && t.procs[p].parent != p
          && Alive(t.procs[t.procs[p].parent].state) && t.procs[p].state != Unused)
    && (forall p :: 0 <= p < |t.procs| && p != t.init && t.procs[p].state != Unused && t.procs[p].state != Embryo ==>
          t.procs[p].parent != NONE)
  }

  /** Every embryo is being made by one live process. */
  ghost predicate ForksOk(t: Table)
    requires |t.doing| == |t.procs|
  {
    && (forall q :: 0 <= q < |t.procs| && t.doing[q].Forking? ==>
          && Alive(t.procs[q].state) && t.doing[q].child < |t.procs| && t.procs[t.doing[q].child].state == Embryo
          && (t.procs[t.doing[q].child].parent == NONE || t.procs[t.doing[q].child].parent == q))
    && (forall q, r :: 0 <= q < r < |t.procs| && t.doing[q].Forking? && t.doing[r].Forking? ==>
          t.doing[q].child != t.doing[r].child)
    && (forall p :: 0 <= p < |t.procs| && t.procs[p].state == Embryo && t.procs[p].parent != NONE ==>
          0 <= t.procs[p].parent < |t.procs| && t.doing[t.procs[p].parent] == Forking(p))
  }

  /** Nobody sleeps in `wait` while one of its children is a zombie; whoever does can be woken by its
      own address, and nobody else can. */
  ghost predicate WaitsOk(t: Table)
    requires |t.doing| == |t.procs|
  {
    forall p :: 0 <= p < |t.procs| && t.procs[p].state == Sleeping ==>
      && (t.doing[p] == Waiting ==> t.procs[p].chan == OfProc(p) && !HasZombie(t.procs, p))
      && (t.doing[p] != Waiting ==> !t.procs[p].chan.OfProc?)
  }

  /** Pids in use are distinct, and no pid that was given up comes back. */
  ghost predicate PidsOk(t: Table) {
    && (forall p :: 0 <= p < |t.procs| && t.procs[p].state != Unused ==>
          0 < t.procs[p].pid < t.nextpid && t.procs[p].pid !in t.reaped && t.procs[p].pid !in t.dropped)
    && (forall p, q :: 0 <= p < q < |t.procs| && t.procs[p].state != Unused && t.procs[q].state != Unused ==>
          t.procs[p].pid != t.procs[q].pid)
    && (forall x :: x in t.reaped ==> 0 < x < t.nextpid && x !in t.dropped)
    && (forall x :: x in t.dropped ==> 0 < x < t.nextpid)
    && (forall i, j :: 0 <= i < j < |t.reaped| ==> t.reaped[i] != t.reaped[j])
  }

  ghost predicate LivePid(procs: seq<Proc>, x: nat) {
    exists p :: 0 <= p < |procs| && procs[p].state != Unused && procs[p].pid == x
  }

  /** Every pid ever handed out belongs to a process in the table, or was reaped, or its fork failed. */
  ghost predicate PidsAccounted(t: Table) {
    forall x :: 0 < x < t.nextpid ==> LivePid(t.procs, x) || x in t.reaped || x in t.dropped
  }

  ghost predicate Inv(t: Table) {
    ShapeOk(t) && CpusOk(t) && ParentsOk(t) && ForksOk(t) && WaitsOk(t) && PidsOk(t) && PidsAccounted(t)
  }
}
