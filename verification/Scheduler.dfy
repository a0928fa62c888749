/** `findPriority` and how long a process can be passed over under the priority policy. */
module Scheduler {
  import opened ProcModel

  /** a comes before b: lower priority value, or the same and run less often. */
  predicate Better(a: Proc, b: Proc) {
    a.priority < b.priority || (a.priority == b.priority && a.times < b.times)
  }

  /** r is the first runnable process that no runnable process is better than. */
  ghost predicate IsBest(procs: seq<Proc>, r: int) {
    && 0 <= r < |procs| && procs[r].state == Runnable
    && forall q :: 0 <= q < |procs| && procs[q].state == Runnable ==>
         !Better(procs[q], procs[r]) && (q < r ==> Better(procs[r], procs[q]))
  }

  /** The queue a mode of `findPriority` looks at; mode 3 looks at every process. */
  predicate Wanted(mode: int, p: Proc) {
    p.state == Runnable &&
    ((mode == 1 && p.queue == QUEUE_PRIORITY) || (mode == 2 && p.queue == QUEUE_PRIORITY_REVERSE) || mode == 3)
  }

  /** a goes before b in this mode: the lower value, but in mode 2 the higher. */
  predicate Outranks(mode: int, a: Proc, b: Proc) {
    if mode == 2 then a.priority > b.priority else a.priority < b.priority
  }

  /** f is the first candidate of the mode that none outranks. */
  ghost predicate IsTop(mode: int, procs: seq<Proc>, f: int) {
    && 0 <= f < |procs| && Wanted(mode, procs[f])
    && forall q :: 0 <= q < |procs| && Wanted(mode, procs[q]) ==>
         !Outranks(mode, procs[q], procs[f]) && (q < f ==> Outranks(mode, procs[f], procs[q]))
  }

  /** q competes with f by how often it has run: any runnable process of that priority behind f. */
  predicate Rivals(procs: seq<Proc>, f: int, q: int) {
    0 <= f <= q < |procs| && procs[q].state == Runnable && procs[q].priority == procs[f].priority
  }

  /** r is the first of the rivals that have run least often. */
  ghost predicate IsPick(procs: seq<Proc>, f: int, r: int) {
    && Rivals(procs, f, r)
    && forall q :: Rivals(procs, f, q) ==>
         procs[r].times <= procs[q].times && (q < r ==> procs[r].times < procs[q].times)
  }

  lemma TopStays(mode: int, procs: seq<Proc>, p: Proc, f: int)
    requires IsTop(mode, procs, f)
    ensures if Wanted(mode, p) && Outranks(mode, p, procs[f]) then IsTop(mode, procs + [p], |procs|)
            else IsTop(mode, procs + [p], f)
  {
    var all := procs + [p];
    assert forall q :: 0 <= q < |procs| ==> all[q] == procs[q];
  }

  lemma FirstTop(mode: int, procs: seq<Proc>, p: Proc)
    requires Wanted(mode, p) && forall q :: 0 <= q < |procs| ==> !Wanted(mode, procs[q])
    ensures IsTop(mode, procs + [p], |procs|) && IsPick(procs + [p], |procs|, |procs|)
  {
  }

  lemma PickStays(procs: seq<Proc>, p: Proc, f: int, r: int)
    requires IsPick(procs, f, r)
    ensures if p.state == Runnable && p.priority == procs[f].priority && p.times < procs[r].times
            then IsPick(procs + [p], f, |procs|) else IsPick(procs + [p], f, r)
  {
    var all := procs + [p];
    assert forall q :: 0 <= q < |procs| ==> all[q] == procs[q];
    assert forall q :: 0 <= q < |procs| ==> (Rivals(all, f, q) <==> Rivals(procs, f, q));
  }

  /** `findPriority`: there is a choice whenever the mode has a candidate.  It is the first among those
      that have run least often of all runnable processes, whatever their queue, that have the priority
      of the first top candidate and come behind it; in mode 3 the first best of all. */
  method FindPriority(procs: seq<Proc>, mode: int) returns (r: int, ghost f: int)
    ensures r == NONE || (0 <= r < |procs| && procs[r].state == Runnable)
    ensures r == NONE <==> forall q :: 0 <= q < |procs| ==> !Wanted(mode, procs[q])
    ensures r != NONE ==> IsTop(mode, procs, f) && IsPick(procs, f, r)
    ensures mode == 3 ==> forall x :: IsBest(procs, x) <==> r == x && r != NONE
  {
    hide IsBest, IsTop, IsPick;
    r, f := NONE, NONE;
    var i := 0;
    while i < |procs|
      invariant 0 <= i <= |procs|
      invariant r == NONE || (0 <= r < i && procs[r].state == Runnable)
      invariant r == NONE <==> forall q :: 0 <= q < i ==> !Wanted(mode, procs[q])
      invariant r != NONE ==> 0 <= f < i && procs[f].priority == procs[r].priority
      invariant r != NONE ==> IsTop(mode, procs[..i], f) && IsPick(procs[..i], f, r)
    {
      var p := procs[i];
      assert procs[..i + 1] == procs[..i] + [p];
      ghost var was := procs[..i];
      if r == NONE {
        if Wanted(mode, p) {
          FirstTop(mode, was, p);
          f := i;
        }
      } else {
        TopStays(mode, was, p, f);
        PickStays(was, p, f, r);
        if Wanted(mode, p) && Outranks(mode, p, procs[f]) {
          f := i;
          NewTop(mode, was, p);
        }
      }
      if p.state == Runnable {
        if mode == 1 && p.queue == QUEUE_PRIORITY {
          if r == NONE {
            r := i;
          }
          if procs[r].priority > p.priority {
            r := i;
          }
        } else if mode == 2 && p.queue == QUEUE_PRIORITY_REVERSE {
          if r == NONE {
            r := i;
          }
          if procs[r].priority < p.priority {
            r := i;
          }
        } else if mode == 3 {
          if r == NONE {
            r := i;
          }
          if procs[r].priority > p.priority {
            r := i;
          }
        }
        if r != NONE && procs[r].priority == p.priority && procs[r].times > p.times {
          r := i;
        }
      }
      i := i + 1;
    }
    assert procs[..i] == procs;
    if mode == 3 {
      BestIsPick(procs, f, r);
    }
  }

  lemma NewTop(mode: int, procs: seq<Proc>, p: Proc)
    requires Wanted(mode, p)
    ensures IsPick(procs + [p], |procs|, |procs|)
  {
  }

  /** In mode 3, where every runnable process is a candidate, the choice is the first best. */
  lemma BestIsPick(procs: seq<Proc>, f: int, r: int)
    requires if r == NONE then forall q :: 0 <= q < |procs| ==> !Wanted(3, procs[q])
             else IsTop(3, procs, f) && IsPick(procs, f, r)
    ensures forall x :: IsBest(procs, x) <==> r == x && r != NONE
  {
    if r == NONE {
      assert forall q :: 0 <= q < |procs| ==> Wanted(3, procs[q]) || procs[q].state != Runnable;
    } else {
      forall q | 0 <= q < |procs| && procs[q].state == Runnable
        ensures !Better(procs[q], procs[r]) && (q < r ==> Better(procs[r], procs[q]))
      {
        assert Wanted(3, procs[q]);
        assert procs[q].priority == procs[f].priority ==> Rivals(procs, f, q);
      }
      assert IsBest(procs, r);
      forall x | IsBest(procs, x)
        ensures x == r
      {
        BestIsUnique(procs, x, r);
      }
    }
  }

  /** Modes 1 and 2 can choose a process of another queue: exactly when one of the same priority behind
      the first top candidate has run less often than every candidate of that priority, or as often as
      the least of them and stands before it. */
  lemma StraysExactly(mode: int, procs: seq<Proc>, f: int, r: int)
    requires IsTop(mode, procs, f) && IsPick(procs, f, r)
    ensures !Wanted(mode, procs[r]) <==>
            exists x :: Rivals(procs, f, x) && !Wanted(mode, procs[x]) &&
              forall q :: Rivals(procs, f, q) && Wanted(mode, procs[q]) ==>
                procs[x].times < procs[q].times || (procs[x].times == procs[q].times && x < q)
  {
  }

  /** A process of the default queue is chosen for the priority queue. */
  lemma StrayChosen(p: Proc)
    requires p.state == Runnable && p.queue == QUEUE_PRIORITY
    ensures var procs := [p, p.(queue := QUEUE_DEFAULT, times := p.times - 1)];
            IsTop(1, procs, 0) && IsPick(procs, 0, 1) && !Wanted(1, procs[1])
  {
    var procs := [p, p.(queue := QUEUE_DEFAULT, times := p.times - 1)];
    assert forall q :: Rivals(procs, 0, q) ==> q == 0 || q == 1;
  }

  lemma BestIsUnique(procs: seq<Proc>, r: int, s: int)
    requires IsBest(procs, r) && IsBest(procs, s)
    ensures r == s
  {
  }

  // ---------------------------------------------------------------- fairness

  /** How often q can still be chosen before p: until it has caught up with p. */
  function Turns(procs: seq<Proc>, p: nat, q: nat): nat
    requires p < |procs| && q < |procs|
  {
    if q == p || procs[q].priority != procs[p].priority then 0
    else
      var d := procs[p].times - procs[q].times + if q < p then 1 else 0;
      if d > 0 then d else 0
  }

  /** The turns of the first n processes. */
  function Ahead(procs: seq<Proc>, p: nat, n: nat): nat
    requires p < |procs| && n <= |procs|
  {
    if n == 0 then 0 else Ahead(procs, p, n - 1) + Turns(procs, p, n - 1)
  }

  /** Process x was chosen; between the choices processes may sleep, wake or exit, but there is no
      fork and no change of priority. */
  ghost predicate Chosen(a: seq<Proc>, b: seq<Proc>, x: nat) {
    && |b| == |a| && IsBest(a, x)
    && forall q :: 0 <= q < |a| ==> b[q].priority == a[q].priority && b[q].times == a[q].times + if q == x then 1 else 0
  }

  /** p is ready and nothing of a better priority is. */
  ghost predicate Ready(procs: seq<Proc>, p: nat) {
    && p < |procs| && procs[p].state == Runnable
    && forall q :: 0 <= q < |procs| && procs[q].state == Runnable ==> procs[q].priority >= procs[p].priority
  }

  lemma {:induction false} AheadAfter(a: seq<Proc>, b: seq<Proc>, p: nat, x: nat, n: nat)
    requires Ready(a, p) && Chosen(a, b, x) && x != p && n <= |a|
    ensures Ahead(b, p, n) == Ahead(a, p, n) - if x < n then 1 else 0
  {
    if n > 0 {
      AheadAfter(a, b, p, x, n - 1);
      assert n - 1 != x ==> Turns(b, p, n - 1) == Turns(a, p, n - 1);
    }
  }

  /** A list of choices, the tables they were made from, and the table after the last. */
  ghost predicate IsHistory(tables: seq<seq<Proc>>, picks: seq<nat>, p: nat) {
    && |tables| == |picks| + 1
    && forall k :: 0 <= k < |picks| ==> Ready(tables[k], p) && Chosen(tables[k], tables[k + 1], picks[k])
  }

  /** While p stays ready, every choice of another process uses up one of its turns. */
  lemma {:induction false} TurnsUsedUp(tables: seq<seq<Proc>>, picks: seq<nat>, p: nat, k: nat)
    requires IsHistory(tables, picks, p) && k <= |picks| && p < |tables[0]| && forall j :: 0 <= j < k ==> picks[j] != p
    ensures |tables[k]| == |tables[0]| && Ahead(tables[k], p, |tables[0]|) == Ahead(tables[0], p, |tables[0]|) - k
  {
    if k > 0 {
      TurnsUsedUp(tables, picks, p, k - 1);
      AheadAfter(tables[k - 1], tables[k], p, picks[k - 1], |tables[0]|);
    }
  }

  /** Bounded waiting: p is passed over at most as often as its peers have turns left. */
  lemma PassedOverAtMost(tables: seq<seq<Proc>>, picks: seq<nat>, p: nat)
    requires IsHistory(tables, picks, p) && p < |tables[0]| && p !in picks
    ensures |picks| <= Ahead(tables[0], p, |tables[0]|)
  {
    TurnsUsedUp(tables, picks, p, |picks|);
  }

  lemma {:induction false} NoTurnsLeft(procs: seq<Proc>, p: nat, n: nat)
    requires p < |procs| && n <= |procs| && forall q :: 0 <= q < n ==> Turns(procs, p, q) == 0
    ensures Ahead(procs, p, n) == 0
  {
    if n > 0 {
      NoTurnsLeft(procs, p, n - 1);
    }
  }

  /** When p is chosen, the peers that are ready have no turns left. */
  lemma ChosenWhenCaughtUp(a: seq<Proc>, b: seq<Proc>, p: nat)
    requires Ready(a, p) && Chosen(a, b, p)
    ensures forall q :: 0 <= q < |a| && a[q].state == Runnable ==> Turns(a, p, q) == 0
  {
  }

  ghost predicate PeersReady(procs: seq<Proc>, p: nat) {
    p < |procs| && forall q :: 0 <= q < |procs| && procs[q].priority == procs[p].priority ==> procs[q].state == Runnable
  }

  /** The bound is exact: if every peer is ready at the choice of p, p was passed over exactly that often. */
  lemma PassedOverExactly(tables: seq<seq<Proc>>, picks: seq<nat>, p: nat)
    requires IsHistory(tables, picks, p) && p < |tables[0]| && |picks| > 0
    requires picks[|picks| - 1] == p && p !in picks[..|picks| - 1]
    requires PeersReady(tables[|picks| - 1], p)
    ensures |picks| - 1 == Ahead(tables[0], p, |tables[0]|)
  {
    var k := |picks| - 1;
    assert forall j :: 0 <= j < k ==> picks[..k][j] == picks[j];
    TurnsUsedUp(tables, picks, p, k);
    ChosenWhenCaughtUp(tables[k], tables[k + 1], p);
    NoTurnsLeft(tables[k], p, |tables[k]|);
  }
}
