/** The circular doubly linked list through the buffers of the cache.

Nodes are buffer indices; the list head is the extra index `n`.  `order` is the
list read from the head along `next`, most recently used first.
*/
module LruList {
  import opened Collections

  type Links = seq<nat>

  /** Elements are distinct nodes below n. */
  predicate NoDup(order: seq<nat>, n: nat) {
    (forall i :: 0 <= i < |order| ==> order[i] < n) && Distinct(order)
  }

  /** Every node is listed exactly once. */
  predicate Perm(order: seq<nat>, n: nat) {
    NoDup(order, n) && |order| == n && forall x :: 0 <= x < n ==> x in order
  }

  function Loop(order: seq<nat>, n: nat): seq<nat> {
    [n] + order + [n]
  }

  /** The pointers realise the list in both directions. */
  predicate Linked(next: Links, prev: Links, order: seq<nat>, n: nat) {
    && |next| == |prev| == n + 1
    && (forall i :: 0 <= i < |order| ==> order[i] < n)
    && var c := Loop(order, n);
       forall i :: 0 <= i <= |order| ==> next[c[i]] == c[i + 1] && prev[c[i + 1]] == c[i]
  }

  /** `b->next->prev = b->prev; b->prev->next = b->next`. */
  function Unlink(next: Links, prev: Links, b: nat): (Links, Links)
    requires b < |next| == |prev| && next[b] < |prev| && prev[b] < |next|
  {
    var prev' := prev[next[b] := prev[b]];
    (next[prev'[b] := next[b]], prev')
  }

  /** Insert b directly behind the head. */
  function PushFront(next: Links, prev: Links, b: nat, n: nat): (Links, Links)
    requires b < n && |next| == |prev| == n + 1 && next[n] <= n
  {
    var next' := next[b := next[n]];
    var prev' := prev[b := n];
    (next'[n := b], prev'[next'[n] := b])
  }

  lemma UnlinkLinked(next: Links, prev: Links, order: seq<nat>, n: nat, k: nat)
    requires Linked(next, prev, order, n) && NoDup(order, n) && k < |order|
    ensures next[order[k]] <= n && prev[order[k]] <= n
    ensures var (next', prev') := Unlink(next, prev, order[k]);
            Linked(next', prev', Without(order, k), n)
  {
    var b, c, w := order[k], Loop(order, n), Without(order, k);
    assert c[k + 1] == b && next[c[k + 1]] == c[k + 2] && prev[c[k + 1]] == c[k];
    var (next', prev') := Unlink(next, prev, b);
    var d := Loop(w, n);
    forall i | 0 <= i <= |w|
      ensures next'[d[i]] == d[i + 1] && prev'[d[i + 1]] == d[i]
    {
      assert d[i] == if i <= k then c[i] else c[i + 1];
      assert d[i + 1] == if i < k then c[i + 1] else c[i + 2];
    }
  }

  lemma PushFrontLinked(next: Links, prev: Links, order: seq<nat>, n: nat, b: nat)
    requires Linked(next, prev, order, n) && NoDup(order, n) && b < n && b !in order
    ensures next[n] <= n
    ensures var (next', prev') := PushFront(next, prev, b, n);
            Linked(next', prev', [b] + order, n)
  {
    var c, d := Loop(order, n), Loop([b] + order, n);
    assert c[0] == n && next[c[0]] == c[1];
    var (next', prev') := PushFront(next, prev, b, n);
    forall i | 0 <= i <= |[b] + order|
      ensures next'[d[i]] == d[i + 1] && prev'[d[i + 1]] == d[i]
    {
      if i >= 2 {
        assert d[i] == c[i - 1] && d[i + 1] == c[i];
      }
    }
  }

  /** Moving a listed node to the front keeps a permutation. */
  lemma MoveToFrontPerm(order: seq<nat>, n: nat, k: nat)
    requires Perm(order, n) && k < |order|
    ensures Perm([order[k]] + Without(order, k), n)
  {
    var b, w := order[k], Without(order, k);
    assert forall i :: 0 <= i < |w| ==> w[i] == if i < k then order[i] else order[i + 1];
    forall x | 0 <= x < n
      ensures x in [b] + w
    {
      assert x in order;
      var i :| 0 <= i < |order| && order[i] == x;
      assert i < k ==> w[i] == x;
      assert i > k ==> w[i - 1] == x;
    }
  }

  /** Taking a node out and pushing it to the front relinks the list in its new order. */
  lemma MoveToFrontLinked(next: Links, prev: Links, order: seq<nat>, n: nat, k: nat)
    requires Linked(next, prev, order, n) && NoDup(order, n) && k < |order|
    ensures next[order[k]] <= n && prev[order[k]] <= n
    ensures var (nx, pv) := Unlink(next, prev, order[k]);
            && |nx| == |pv| == n + 1 && nx[n] <= n
            && var (nx', pv') := PushFront(nx, pv, order[k], n);
               Linked(nx', pv', [order[k]] + Without(order, k), n)
  {
    UnlinkLinked(next, prev, order, n, k);
    var (nx, pv) := Unlink(next, prev, order[k]);
    var w := Without(order, k);
    assert forall p :: 0 <= p < |w| ==> w[p] == order[if p < k then p else p + 1];
    PushFrontLinked(nx, pv, w, n, order[k]);
  }

  /** Larger stamps come first. */
  predicate Ordered(order: seq<nat>, stamp: seq<int>) {
    && (forall i :: 0 <= i < |order| ==> order[i] < |stamp|)
    && (forall i, j :: 0 <= i < j < |order| ==> stamp[order[i]] > stamp[order[j]])
  }

  lemma MoveToFrontOrdered(order: seq<nat>, stamp: seq<int>, n: nat, k: nat, now: int)
    requires NoDup(order, n) && k < |order| && Ordered(order, stamp)
    requires forall i :: 0 <= i < |stamp| ==> stamp[i] < now
    ensures Ordered([order[k]] + Without(order, k), stamp[order[k] := now])
  {
    var b, w := order[k], Without(order, k);
    assert forall p :: 0 <= p < |w| ==> w[p] == order[if p < k then p else p + 1] && w[p] != b;
  }

  function Descending(n: nat): (s: seq<nat>)
    ensures |s| == n && forall p :: 0 <= p < n ==> s[p] == n - 1 - p
  {
    if n == 0 then [] else [n - 1] + Descending(n - 1)
  }

  lemma DescendingPerm(n: nat)
    ensures Perm(Descending(n), n)
  {
    forall x | 0 <= x < n
      ensures x in Descending(n)
    {
      assert Descending(n)[n - 1 - x] == x;
    }
  }
}
