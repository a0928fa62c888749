/** `sleep` and `wakeup` lock by lock: any number of producers and consumers of a counter, with
    every acquire, release and assignment a step of its own. */
module SleepWakeup {
  const FREE := -1

  /** Where a thread is.  A consumer tests the counter with the lock held; finding it zero it takes
      the process-table lock, gives up its own, goes to sleep, and after a wakeup starts over.  A
      producer increments with the lock held and then takes the process-table lock to wake everyone,
      still holding its lock or (the places ending in Late) having given it up first. */
  datatype Place =
    | Outside | Testing | FoundNone | TakingTable | GivingUp | Asleep | Woken | Leaving
    | Adding | Added | WakingAll | WokenAll | AddLeaving
    | AddedLate | WakingLate | WokenLate

  datatype System = System(value: nat, lock: int, table: int, threads: seq<Place>)

  predicate HoldsLock(p: Place) {
    p == Testing || p == FoundNone || p == TakingTable || p == Leaving ||
    p == Adding || p == Added || p == WakingAll || p == WokenAll || p == AddLeaving
  }

  predicate HoldsTable(p: Place) {
    p == TakingTable || p == GivingUp || p == WakingAll || p == WokenAll || p == WakingLate || p == WokenLate
  }

  /** The thread has incremented and not yet woken the sleepers. */
  predicate ToWake(p: Place) { p == Added || p == WakingAll || p == AddedLate || p == WakingLate }

  function At(s: System, i: nat, p: Place): System
    requires i < |s.threads|
  {
    s.(threads := s.threads[i := p])
  }

  /** `wakeup1`: every sleeper is awake. */
  function AllAwake(ts: seq<Place>): (r: seq<Place>)
    ensures |r| == |ts| && forall k :: 0 <= k < |ts| ==> r[k] == if ts[k] == Asleep then Woken else ts[k]
  {
    seq(|ts|, k requires 0 <= k < |ts| => if ts[k] == Asleep then Woken else ts[k])
  }

  /** A move of a thread; consume says which call it makes from outside, late whether a producer
      releases its lock before the wakeup. */
  datatype Move = Move(thread: nat, consume: bool, late: bool)

  predicate CanStep(s: System, m: Move) {
    m.thread < |s.threads| &&
    match s.threads[m.thread]
    case Outside => s.lock == FREE
    case Woken => s.lock == FREE
    case FoundNone => s.table == FREE
    case Added => m.late || s.table == FREE
    case AddedLate => s.table == FREE
    case Asleep => false
    case _ => true
  }

  function Step(s: System, m: Move): System
    requires CanStep(s, m)
  {
    var i := m.thread;
    match s.threads[i]
    case Outside => At(s, i, if m.consume then Testing else Adding).(lock := i)
    case Testing => if s.value > 0 then At(s, i, Leaving).(value := s.value - 1) else At(s, i, FoundNone)
    case FoundNone => At(s, i, TakingTable).(table := i)
    case TakingTable => At(s, i, GivingUp).(lock := FREE)
    case GivingUp => At(s, i, Asleep).(table := FREE)
    case Woken => At(s, i, Testing).(lock := i)
    case Leaving => At(s, i, Outside).(lock := FREE)
    case Adding => At(s, i, Added).(value := s.value + 1)
    case Added => if m.late then At(s, i, AddedLate).(lock := FREE) else At(s, i, WakingAll).(table := i)
    case WakingAll => At(s.(threads := AllAwake(s.threads)), i, WokenAll)
    case WokenAll => At(s, i, AddLeaving).(table := FREE)
    case AddLeaving => At(s, i, Outside).(lock := FREE)
    case AddedLate => At(s, i, WakingLate).(table := i)
    case WakingLate => At(s.(threads := AllAwake(s.threads)), i, WokenLate)
    case WokenLate => At(s, i, Outside).(table := FREE)
  }

  // ---------------------------------------------------------------- invariant

  /** Each lock is held by exactly the thread it names. */
  ghost predicate LockOk(s: System) {
    && (s.lock == FREE || 0 <= s.lock < |s.threads|)
    && forall i :: 0 <= i < |s.threads| ==> (HoldsLock(s.threads[i]) <==> s.lock == i)
  }

  ghost predicate TableOk(s: System) {
    && (s.table == FREE || 0 <= s.table < |s.threads|)
    && forall i :: 0 <= i < |s.threads| ==> (HoldsTable(s.threads[i]) <==> s.table == i)
  }

  ghost predicate WakeupPending(s: System) { exists j :: 0 <= j < |s.threads| && ToWake(s.threads[j]) }

  /** Whoever sleeps, or is about to, does so on a zero counter or has a wakeup coming. */
  ghost predicate SleepersOk(s: System) {
    && (forall i :: 0 <= i < |s.threads| && (s.threads[i] == Asleep || s.threads[i] == GivingUp) ==>
          s.value == 0 || WakeupPending(s))
    && (forall i :: 0 <= i < |s.threads| && (s.threads[i] == FoundNone || s.threads[i] == TakingTable) ==> s.value == 0)
  }

  ghost predicate Inv(s: System) { LockOk(s) && TableOk(s) && SleepersOk(s) }

  lemma StepKeepsLock(s: System, m: Move)
    requires LockOk(s) && CanStep(s, m)
    ensures LockOk(Step(s, m))
  {
  }

  lemma StepKeepsTable(s: System, m: Move)
    requires TableOk(s) && CanStep(s, m)
    ensures TableOk(Step(s, m))
  {
  }

  /** Waking everyone under the table lock leaves nobody asleep or about to be. */
  lemma WakeLeavesNone(s: System, m: Move)
    requires TableOk(s) && CanStep(s, m) && (s.threads[m.thread] == WakingAll || s.threads[m.thread] == WakingLate)
    ensures var t := Step(s, m); forall i :: 0 <= i < |t.threads| ==> t.threads[i] != Asleep && t.threads[i] != GivingUp
  {
  }

  lemma StepKeepsSleepers(s: System, m: Move)
    requires Inv(s) && CanStep(s, m)
    ensures SleepersOk(Step(s, m))
  {
    var t, i := Step(s, m), m.thread;
    if s.threads[i] == WakingAll || s.threads[i] == WakingLate {
      WakeLeavesNone(s, m);
    } else {
      if WakeupPending(s) {
        var j :| 0 <= j < |s.threads| && ToWake(s.threads[j]);
        assert ToWake(t.threads[j]);
      }
      if s.threads[i] == Adding {
        assert ToWake(t.threads[i]);
      }
    }
  }

  // ---------------------------------------------------------------- runs

  ghost predicate Start(s: System) {
    s.lock == FREE && s.table == FREE && forall i :: 0 <= i < |s.threads| ==> s.threads[i] == Outside
  }

  ghost predicate IsRun(ss: seq<System>, ms: seq<Move>) {
    && |ss| == |ms| + 1 && Start(ss[0])
    && forall k :: 0 <= k < |ms| ==> CanStep(ss[k], ms[k]) && ss[k + 1] == Step(ss[k], ms[k])
  }

  lemma {:induction false} RunInv(ss: seq<System>, ms: seq<Move>, k: nat)
    requires IsRun(ss, ms) && k < |ss|
    ensures Inv(ss[k])
    decreases k
  {
    hide Step, CanStep;
    if k > 0 {
      RunInv(ss, ms, k - 1);
      StepKeepsLock(ss[k - 1], ms[k - 1]);
      StepKeepsTable(ss[k - 1], ms[k - 1]);
      StepKeepsSleepers(ss[k - 1], ms[k - 1]);
    }
  }

  /** No wakeup is lost: a thread asleep on a counter that is not zero has a wakeup coming. */
  lemma NoLostWakeup(ss: seq<System>, ms: seq<Move>, k: nat, i: nat)
    requires IsRun(ss, ms) && k < |ss| && i < |ss[k].threads| && ss[k].threads[i] == Asleep && ss[k].value > 0
    ensures exists j :: 0 <= j < |ss[k].threads| && ToWake(ss[k].threads[j])
  {
    hide Step, CanStep;
    RunInv(ss, ms, k);
  }

  /** At most one thread is between acquire and release of either lock. */
  lemma MutualExclusion(ss: seq<System>, ms: seq<Move>, k: nat, i: nat, j: nat)
    requires IsRun(ss, ms) && k < |ss| && i < |ss[k].threads| && j < |ss[k].threads| && i != j
    ensures !(HoldsLock(ss[k].threads[i]) && HoldsLock(ss[k].threads[j]))
    ensures !(HoldsTable(ss[k].threads[i]) && HoldsTable(ss[k].threads[j]))
  {
    hide Step, CanStep;
    RunInv(ss, ms, k);
  }

  lemma AllAsleep(s: System, i: nat)
    requires SleepersOk(s) && i < |s.threads| && forall j :: 0 <= j < |s.threads| ==> s.threads[j] == Asleep
    ensures s.value == 0
  {
    assert s.threads[i] == Asleep;
    assert !WakeupPending(s);
  }

  lemma SomeMove(s: System)
    requires Inv(s)
    ensures (exists m :: CanStep(s, m)) || (forall i :: 0 <= i < |s.threads| ==> s.threads[i] == Asleep && s.value == 0)
  {
    if s.table != FREE {
      assert CanStep(s, Move(s.table, true, true));
    } else if s.lock != FREE {
      assert CanStep(s, Move(s.lock, true, true));
    } else if i :| 0 <= i < |s.threads| && s.threads[i] != Asleep {
      assert CanStep(s, Move(i, true, true));
    } else {
      assert forall i :: 0 <= i < |s.threads| ==> s.threads[i] == Asleep;
      if |s.threads| > 0 {
        AllAsleep(s, 0);
      }
    }
  }

  /** No deadlock: some thread can move unless all of them sleep on a zero counter. */
  lemma NoDeadlock(ss: seq<System>, ms: seq<Move>, k: nat)
    requires IsRun(ss, ms) && k < |ss|
    ensures (exists m :: CanStep(ss[k], m)) ||
            (forall i :: 0 <= i < |ss[k].threads| ==> ss[k].threads[i] == Asleep && ss[k].value == 0)
  {
    hide Step, CanStep, Inv;
    RunInv(ss, ms, k);
    SomeMove(ss[k]);
  }

  // ---------------------------------------------------------------- the counter

  /** How often, in the first k moves, the moving thread came to place p from another. */
  ghost function Arrivals(ss: seq<System>, ms: seq<Move>, k: nat, p: Place): nat
    requires IsRun(ss, ms) && k <= |ms|
  {
    if k == 0 then 0
    else
      var i := ms[k - 1].thread;
      Arrivals(ss, ms, k - 1, p) + if ss[k - 1].threads[i] != p && ss[k].threads[i] == p then 1 else 0
  }

  lemma StepCounts(s: System, m: Move)
    requires CanStep(s, m)
    ensures var t, i := Step(s, m), m.thread;
            && |t.threads| == |s.threads|
            && t.value == s.value + (if s.threads[i] != Added && t.threads[i] == Added then 1 else 0)
                 - (if s.threads[i] != Leaving && t.threads[i] == Leaving then 1 else 0)
  {
  }

  /** Every producer that is through has added one to the counter, every consumer that is through has
      taken one off, and nothing else changes it. */
  lemma {:induction false} CounterExact(ss: seq<System>, ms: seq<Move>, k: nat)
    requires IsRun(ss, ms) && k <= |ms|
    ensures ss[k].value == ss[0].value + Arrivals(ss, ms, k, Added) - Arrivals(ss, ms, k, Leaving)
  {
    hide Step;
    if k > 0 {
      CounterExact(ss, ms, k - 1);
      StepCounts(ss[k - 1], ms[k - 1]);
    }
  }
}
