/** The circular, address-ordered free list of `malloc` and `free`, threaded through the
    headers of the free blocks, and its agreement with the tiling. */
module HeapRing {
  import opened HeapModel

  /** Header fields of the whole heap, by address, and the list pointer. */
  datatype Mem = Mem(ptr: map<nat, nat>, size: map<nat, nat>, freep: nat)

  /** The ptr fields lead once round c. */
  ghost predicate Ring(ptr: map<nat, nat>, c: seq<nat>) {
    && |c| > 0
    && (forall k :: 0 <= k < |c| ==> c[k] in ptr)
    && (forall k :: 0 <= k < |c| - 1 ==> ptr[c[k]] == c[k + 1])
    && ptr[c[|c| - 1]] == c[0]
  }

  /** Every block of the allocator has its size in its header; foreign memory is never free. */
  ghost predicate SizesOk(size: map<nat, nat>, t: seq<Tile>) {
    forall x :: x in t ==> if x.foreign then x.used else x.at in size && size[x.at] == x.units
  }

  /** What the list visits: the static header and then every free tile, in address order. */
  function Stops(base: nat, t: seq<Tile>): seq<nat> { [base] + FreeAt(t) }

  ghost predicate HeapInv(base: nat, lo: nat, brk: nat, m: Mem, t: seq<Tile>) {
    && 0 < base < lo && Laid(t, lo) && lo + Total(t) == brk && Coalesced(t)
    && Ring(m.ptr, Stops(base, t)) && m.freep in Stops(base, t)
    && SizesOk(m.size, t) && base in m.size && m.size[base] == 0
  }

  lemma StopsIncreasing(base: nat, lo: nat, t: seq<Tile>)
    requires base < lo && Laid(t, lo)
    ensures Increasing(Stops(base, t))
  {
    FreeAtIncreasing(t, lo);
    Bounds(t, lo);
    var f := FreeAt(t);
    assert forall j :: 0 <= j < |f| ==> f[j] in f;
  }

  // ---------------------------------------------------------------- ring surgery

  lemma RingInsert(ptr: map<nat, nat>, c: seq<nat>, g: nat, b: nat)
    requires Ring(ptr, c) && Increasing(c) && g < |c| && b !in c
    ensures Ring(ptr[b := ptr[c[g]]][c[g] := b], c[..g + 1] + [b] + c[g + 1..])
  {
    var d, q := c[..g + 1] + [b] + c[g + 1..], ptr[b := ptr[c[g]]][c[g] := b];
    forall k | 0 <= k < |c|
      ensures c[k] in q && (k != g ==> q[c[k]] == ptr[c[k]])
    {
      assert c[k] in c;
    }
    forall k | 0 <= k < |d|
      ensures d[k] in q && q[d[k]] == d[if k + 1 < |d| then k + 1 else 0]
    {
      if k <= g {
        assert d[k] == c[k];
      } else if k >= g + 2 {
        assert d[k] == c[k - 1];
      }
    }
  }

  lemma RingDrop(ptr: map<nat, nat>, c: seq<nat>, g: nat)
    requires Ring(ptr, c) && Increasing(c) && g + 1 < |c|
    ensures Ring(ptr[c[g] := ptr[c[g + 1]]], c[..g + 1] + c[g + 2..])
  {
    var d := c[..g + 1] + c[g + 2..];
    assert forall k :: g + 1 <= k < |d| ==> d[k] == c[k + 1];
  }

  lemma RingAside(ptr: map<nat, nat>, c: seq<nat>, b: nat, v: nat)
    requires Ring(ptr, c) && b !in c
    ensures Ring(ptr[b := v], c)
  {
    assert forall k :: 0 <= k < |c| ==> c[k] in c;
  }

  // ---------------------------------------------------------------- the pointer work of free

  /** The two joins of `free`, after the search has settled on p. */
  function Relink(m: Mem, p: nat, b: nat): Mem
    requires p in m.ptr && p in m.size && b in m.size && m.ptr[p] in m.ptr && m.ptr[p] in m.size
  {
    var nx := m.ptr[p];
    var right := b + m.size[b] == nx;
    var ptr := m.ptr[b := if right then m.ptr[nx] else nx];
    var size := m.size[b := if right then m.size[b] + m.size[nx] else m.size[b]];
    if p + size[p] == b then Mem(ptr[p := ptr[b]], size[p := size[p] + size[b]], p)
    else Mem(ptr[p := b], size, p)
  }

  /** Where the search of `free` must stop for a block between a and b. */
  function Gap(base: nat, a: seq<Tile>): nat { Stops(base, a)[|FreeAt(a)|] }

  lemma StopsAround(base: nat, lo: nat, brk: nat, m: Mem, a: seq<Tile>, x: Tile, b: seq<Tile>)
    requires HeapInv(base, lo, brk, m, a + [x] + b) && x.used
    ensures var c, g := Stops(base, a + [x] + b), |FreeAt(a)|;
            && c == Stops(base, a) + FreeAt(b) && g < |c| && c[g] == Gap(base, a) && x.at !in c
            && (forall k :: 0 <= k <= g ==> c[k] < x.at) && (forall k :: g < k < |c| ==> x.at < c[k])
            && c[g] in m.ptr && m.ptr[c[g]] == (if g + 1 < |c| then c[g + 1] else base) && m.ptr[c[g]] in m.ptr
    ensures Laid(a, lo) && x.at == lo + Total(a) && x.units > 0 && Laid(b, x.at + x.units)
  {
    hide Laid, Total, FreeAt, Coalesced, SizesOk;
    SplitLaid(a, x, b, lo);
    SplitFree(a, x, b);
    Bounds(a, lo);
    Bounds(b, x.at + x.units);
    var c, g := Stops(base, a + [x] + b), |FreeAt(a)|;
    assert c == Stops(base, a) + FreeAt(b);
    forall k | 0 <= k < |c|
      ensures if k <= g then c[k] < x.at else x.at < c[k]
    {
      assert 0 < k <= g ==> c[k] in FreeAt(a);
      assert g < k ==> c[k] in FreeAt(b);
    }
  }

  /** The first address test of `free` recognises exactly a free right neighbour. */
  lemma RightTest(base: nat, lo: nat, brk: nat, m: Mem, a: seq<Tile>, x: Tile, b: seq<Tile>)
    requires HeapInv(base, lo, brk, m, a + [x] + b) && x.used && !x.foreign
    ensures var p := Gap(base, a);
            && x.at in m.size && m.size[x.at] == x.units && p in m.ptr && m.ptr[p] in m.size
            && (x.at + x.units == m.ptr[p] <==> StartsFree(b))
            && (StartsFree(b) ==>
                  FreeAt(b) != [] && m.ptr[p] == b[0].at == FreeAt(b)[0] && m.size[m.ptr[p]] == b[0].units)
  {
    hide Laid, Total, FreeAt, Coalesced, Ring;
    StopsAround(base, lo, brk, m, a, x, b);
    NextTouches(b, x.at + x.units);
    Ends(b, x.at + x.units);
    assert x in a + [x] + b;
    assert StartsFree(b) ==> b[0] in a + [x] + b;
    if FreeAt(b) != [] {
      var j := FreeTile(b, 0);
      assert b[j] in a + [x] + b;
      assert Stops(base, a + [x] + b)[|FreeAt(a)| + 1] == FreeAt(b)[0];
    } else {
      assert m.ptr[Gap(base, a)] == base;
    }
  }

  /** The second address test of `free` recognises exactly a free left neighbour. */
  lemma LeftTest(base: nat, lo: nat, brk: nat, m: Mem, a: seq<Tile>, x: Tile, b: seq<Tile>)
    requires HeapInv(base, lo, brk, m, a + [x] + b) && x.used
    ensures var p := Gap(base, a);
            && p in m.size && p < x.at && (p + m.size[p] == x.at <==> EndsFree(a))
            && (EndsFree(a) ==> p == a[|a| - 1].at && m.size[p] == a[|a| - 1].units)
  {
    hide Laid, Total, FreeAt, Coalesced, Ring;
    StopsAround(base, lo, brk, m, a, x, b);
    NoFree(a);
    if FreeAt(a) != [] {
      var i := LastTouches(a, lo);
      assert a[i] in a + [x] + b;
    }
  }

  lemma NoFree(a: seq<Tile>)
    ensures FreeAt(a) == [] ==> !EndsFree(a)
  {
    if a != [] {
      assert a == a[..|a| - 1] + [a[|a| - 1]] + [];
      SplitFree(a[..|a| - 1], a[|a| - 1], []);
    }
  }

  lemma RelinkRing(base: nat, lo: nat, brk: nat, m: Mem, a: seq<Tile>, x: Tile, b: seq<Tile>)
    requires HeapInv(base, lo, brk, m, a + [x] + b) && x.used && !x.foreign
    ensures var p := Gap(base, a);
            && p in m.ptr && p in m.size && x.at in m.size && m.ptr[p] in m.ptr && m.ptr[p] in m.size
            && Ring(Relink(m, p, x.at).ptr, Stops(base, Release(a, x, b)))
            && p in Stops(base, Release(a, x, b))
  {
    StopsIncreasing(base, lo, a + [x] + b);
    hide Laid, Total, FreeAt, Coalesced, Ring, SizesOk, Release, EndsFree, StartsFree, Increasing;
    StopsAround(base, lo, brk, m, a, x, b);
    RightTest(base, lo, brk, m, a, x, b);
    LeftTest(base, lo, brk, m, a, x, b);
    RelinkPtr(m.ptr, Stops(base, a + [x] + b), |FreeAt(a)|, x.at, EndsFree(a), StartsFree(b));
    StopsAfter(base, a, x, b);
  }

  lemma StopsAfter(base: nat, a: seq<Tile>, x: Tile, b: seq<Tile>)
    requires x.used
    ensures var c, g, d := Stops(base, a + [x] + b), |FreeAt(a)|, Stops(base, Release(a, x, b));
            && g < |d| && d[g] == Gap(base, a) && (StartsFree(b) ==> g + 1 < |c|) && g < |c|
            && d == c[..g + 1] + (if EndsFree(a) then [] else [x.at]) + c[if StartsFree(b) then g + 2 else g + 1..]
  {
    hide FreeAt, Release, EndsFree, StartsFree;
    SplitFree(a, x, b);
    ReleaseFree(a, x, b);
    assert FreeAt(a) + [] == FreeAt(a);
    Around(base, FreeAt(a), FreeAt(b), if EndsFree(a) then [] else [x.at], StartsFree(b));
  }

  /** Sequence bookkeeping: what stands before and behind position |f| of [base] + f + h. */
  lemma Around(base: nat, f: seq<nat>, h: seq<nat>, mid: seq<nat>, drop: bool)
    requires drop ==> h != []
    ensures var c, g := [base] + (f + h), |f|;
            && g < |c| && c[g] == ([base] + f)[g] && (drop ==> g + 1 < |c|)
            && [base] + (f + mid + (if drop then h[1..] else h)) ==
               c[..g + 1] + mid + c[if drop then g + 2 else g + 1..]
  {
    var c, g := [base] + (f + h), |f|;
    assert c[..g + 1] == [base] + f;
    assert c[g + 1..] == h;
    assert drop ==> c[g + 2..] == h[1..];
  }

  /** The four ways `free` rewrites the ptr fields, by which neighbours are joined. */
  lemma RelinkPtr(ptr: map<nat, nat>, c: seq<nat>, g: nat, b: nat, left: bool, right: bool)
    requires Ring(ptr, c) && Increasing(c) && g < |c| && b !in c && (right ==> g + 1 < |c|)
    ensures c[g] in ptr && ptr[c[g]] in ptr
    ensures var q := ptr[b := if right then ptr[ptr[c[g]]] else ptr[c[g]]];
            Ring(q[c[g] := if left then q[b] else b],
                 c[..g + 1] + (if left then [] else [b]) + c[if right then g + 2 else g + 1..])
  {
    var nx := ptr[c[g]];
    assert nx == c[if g + 1 < |c| then g + 1 else 0];
    var q := ptr[b := if right then ptr[nx] else nx];
    hide Ring;
    if right && left {
      RelinkBoth(ptr, c, g, b);
    } else if right {
      RelinkRight(ptr, c, g, b);
    } else if left {
      RingAside(ptr, c, b, nx);
      assert c[g] in c;
      assert q[c[g] := nx] == q;
      assert c[..g + 1] + [] + c[g + 1..] == c;
    } else {
      RingInsert(ptr, c, g, b);
    }
  }

  lemma DropNext(ptr: map<nat, nat>, c: seq<nat>, g: nat, b: nat)
    requires Ring(ptr, c) && Increasing(c) && g + 1 < |c| && b !in c
    ensures c[g] in ptr && ptr[c[g]] == c[g + 1] && c[g + 1] in ptr && c[g] != b
    ensures var d := c[..g + 1] + c[g + 2..];
            Ring(ptr[c[g] := ptr[c[g + 1]]], d) && Increasing(d) && b !in d && d[g] == c[g]
  {
    RingDrop(ptr, c, g);
    assert c[g] in c;
  }

  lemma RelinkBoth(ptr: map<nat, nat>, c: seq<nat>, g: nat, b: nat)
    requires Ring(ptr, c) && Increasing(c) && g + 1 < |c| && b !in c
    ensures c[g] in ptr && ptr[c[g]] in ptr
    ensures var v := ptr[ptr[c[g]]]; Ring(ptr[b := v][c[g] := v], c[..g + 1] + [] + c[g + 2..])
  {
    hide Ring, Increasing;
    DropNext(ptr, c, g, b);
    var d, v := c[..g + 1] + c[g + 2..], ptr[c[g + 1]];
    RingAside(ptr[c[g] := v], d, b, v);
    assert ptr[c[g] := v][b := v] == ptr[b := v][c[g] := v];
    assert c[..g + 1] + [] + c[g + 2..] == d;
  }

  lemma RelinkRight(ptr: map<nat, nat>, c: seq<nat>, g: nat, b: nat)
    requires Ring(ptr, c) && Increasing(c) && g + 1 < |c| && b !in c
    ensures c[g] in ptr && ptr[c[g]] in ptr
    ensures Ring(ptr[b := ptr[ptr[c[g]]]][c[g] := b], c[..g + 1] + [b] + c[g + 2..])
  {
    hide Ring, Increasing;
    DropNext(ptr, c, g, b);
    var d, v := c[..g + 1] + c[g + 2..], ptr[c[g + 1]];
    var drop: map<nat, nat> := ptr[c[g] := v];
    RingInsert(drop, d, g, b);
    assert d[..g + 1] + [b] + d[g + 1..] == c[..g + 1] + [b] + c[g + 2..];
    assert drop[b := v][c[g] := b] == ptr[b := v][c[g] := b];
  }

  lemma LastApart(a: seq<Tile>, lo: nat)
    requires Laid(a, lo) && a != []
    ensures forall y :: y in a[..|a| - 1] ==> y in a && y.at < a[|a| - 1].at
  {
    var n := |a| - 1;
    assert a == a[..n] + [a[n]] + [];
    SplitLaid(a[..n], a[n], [], lo);
    Bounds(a[..n], lo);
  }

  lemma RelinkSizes(base: nat, lo: nat, brk: nat, m: Mem, a: seq<Tile>, x: Tile, b: seq<Tile>)
    requires HeapInv(base, lo, brk, m, a + [x] + b) && x.used && !x.foreign
    ensures var p := Gap(base, a);
            && p in m.ptr && p in m.size && x.at in m.size && m.ptr[p] in m.ptr && m.ptr[p] in m.size
            && SizesOk(Relink(m, p, x.at).size, Release(a, x, b))
            && base in Relink(m, p, x.at).size && Relink(m, p, x.at).size[base] == 0
  {
    hide Laid, Total, FreeAt, Coalesced, Ring;
    StopsAround(base, lo, brk, m, a, x, b);
    RightTest(base, lo, brk, m, a, x, b);
    LeftTest(base, lo, brk, m, a, x, b);
    Bounds(a, lo);
    Bounds(b, x.at + x.units);
    var p := Gap(base, a);
    var s, r := Relink(m, p, x.at).size, Release(a, x, b);
    if EndsFree(a) {
      LastApart(a, lo);
    }
    forall y | y in r
      ensures if y.foreign then y.used else y.at in s && s[y.at] == y.units
    {
      if y in a || y in b {
        assert y in a + [x] + b;
      }
    }
  }

  /** `free` restores the whole invariant, with the block given back and its neighbours joined. */
  lemma RelinkKeeps(base: nat, lo: nat, brk: nat, m: Mem, a: seq<Tile>, x: Tile, b: seq<Tile>)
    requires HeapInv(base, lo, brk, m, a + [x] + b) && x.used && !x.foreign
    ensures var p := Gap(base, a);
            && p in m.ptr && p in m.size && x.at in m.size && m.ptr[p] in m.ptr && m.ptr[p] in m.size
            && HeapInv(base, lo, brk, Relink(m, p, x.at), Release(a, x, b))
  {
    hide Laid, Total, FreeAt, Coalesced, Ring, SizesOk, Release, Stops;
    RelinkSizes(base, lo, brk, m, a, x, b);
    RelinkRing(base, lo, brk, m, a, x, b);
    ReleaseLaid(a, x, b, lo);
    ReleaseCoalesced(a, x, b);
  }

  // ---------------------------------------------------------------- the pointer work of malloc

  /** `malloc` takes n units from the free block p that follows prev. */
  function Carve(m: Mem, prev: nat, p: nat, n: nat): Mem
    requires p in m.ptr && p in m.size && n <= m.size[p]
  {
    if m.size[p] == n then Mem(m.ptr[prev := m.ptr[p]], m.size, prev)
    else Mem(m.ptr, m.size[p := m.size[p] - n][p + m.size[p] - n := n], prev)
  }

  lemma StopsTaken(base: nat, a: seq<Tile>, x: Tile, b: seq<Tile>, n: nat)
    requires !x.used && n <= x.units
    ensures var c, g, d := Stops(base, a + [x] + b), |FreeAt(a)|, Stops(base, Take(a, x, b, n));
            && c == Stops(base, a) + [x.at] + FreeAt(b) && g + 1 < |c| && c[g] == Gap(base, a) && c[g + 1] == x.at
            && d == (if x.units == n then c[..g + 1] + c[g + 2..] else c) && g < |d| && d[g] == c[g]
  {
    hide FreeAt, Take;
    SplitFree(a, x, b);
    TakeFree(a, x, b, n);
    var c, g, d := Stops(base, a + [x] + b), |FreeAt(a)|, Stops(base, Take(a, x, b, n));
    assert c == Stops(base, a) + [x.at] + FreeAt(b);
    if x.units == n {
      assert d == Stops(base, a) + FreeAt(b);
    }
  }

  lemma CarveRing(base: nat, lo: nat, brk: nat, m: Mem, a: seq<Tile>, x: Tile, b: seq<Tile>, n: nat)
    requires HeapInv(base, lo, brk, m, a + [x] + b) && !x.used && 0 < n <= x.units
    ensures x.at in m.ptr && x.at in m.size && m.size[x.at] == x.units
    ensures Ring(Carve(m, Gap(base, a), x.at, n).ptr, Stops(base, Take(a, x, b, n)))
    ensures Gap(base, a) in Stops(base, Take(a, x, b, n))
  {
    StopsIncreasing(base, lo, a + [x] + b);
    StopsTaken(base, a, x, b, n);
    hide Laid, Total, Coalesced, Take, Increasing, Stops, Gap;
    assert x in a + [x] + b;
    assert x.at in m.ptr;
    hide Ring, SizesOk;
    if x.units == n {
      RingDrop(m.ptr, Stops(base, a + [x] + b), |FreeAt(a)|);
    }
  }

  lemma CarveSizes(base: nat, lo: nat, brk: nat, m: Mem, a: seq<Tile>, x: Tile, b: seq<Tile>, n: nat)
    requires HeapInv(base, lo, brk, m, a + [x] + b) && !x.used && 0 < n <= x.units
    requires x.at in m.ptr && x.at in m.size && m.size[x.at] == x.units
    ensures var s := Carve(m, Gap(base, a), x.at, n).size;
            SizesOk(s, Take(a, x, b, n)) && base in s && s[base] == 0
  {
    hide Laid, Total, FreeAt, Coalesced, Ring;
    SplitLaid(a, x, b, lo);
    Bounds(a, lo);
    Bounds(b, x.at + x.units);
    var s := Carve(m, Gap(base, a), x.at, n).size;
    forall y | y in Take(a, x, b, n)
      ensures if y.foreign then y.used else y.at in s && s[y.at] == y.units
    {
      if y in a || y in b {
        assert y in a + [x] + b;
      }
    }
  }

  /** `malloc` restores the whole invariant, with n units at the end of x now in use. */
  lemma CarveKeeps(base: nat, lo: nat, brk: nat, m: Mem, a: seq<Tile>, x: Tile, b: seq<Tile>, n: nat)
    requires HeapInv(base, lo, brk, m, a + [x] + b) && !x.used && 0 < n <= x.units
    ensures x.at in m.ptr && x.at in m.size && m.size[x.at] == x.units
    ensures HeapInv(base, lo, brk, Carve(m, Gap(base, a), x.at, n), Take(a, x, b, n))
  {
    hide Laid, Total, FreeAt, Coalesced, Ring, SizesOk, Take, Stops;
    CarveRing(base, lo, brk, m, a, x, b, n);
    CarveSizes(base, lo, brk, m, a, x, b, n);
    TakeLaid(a, x, b, n, lo);
    TakeCoalesced(a, x, b, n);
  }

  // ---------------------------------------------------------------- growing

  /** Memory from `sbrk` enters as one block in use at the old break. */
  lemma GrowKeeps(base: nat, lo: nat, brk: nat, m: Mem, t: seq<Tile>, n: nat)
    requires HeapInv(base, lo, brk, m, t) && n > 0
    ensures HeapInv(base, lo, brk + n, m.(size := m.size[brk := n]), t + [Tile(brk, n, true)])
    ensures Stops(base, t + [Tile(brk, n, true)]) == Stops(base, t)
  {
    hide FreeAt, Ring;
    var x := Tile(brk, n, true);
    assert t + [x] + [] == t + [x];
    Ends([], brk + n);
    SplitLaid(t, x, [], lo);
    SplitFree(t, x, []);
    assert FreeAt(t + [x]) == FreeAt(t);
    hide Laid, Total;
    Bounds(t, lo);
  }

  /** Memory somebody else obtained from `sbrk` is a foreign tile at the old break. */
  lemma ForeignKeeps(base: nat, lo: nat, brk: nat, m: Mem, t: seq<Tile>, n: nat)
    requires HeapInv(base, lo, brk, m, t) && n > 0
    ensures HeapInv(base, lo, brk + n, m, t + [Tile(brk, n, true, true)])
  {
    hide FreeAt, Ring;
    var x := Tile(brk, n, true, true);
    assert t + [x] + [] == t + [x];
    Ends([], brk + n);
    SplitLaid(t, x, [], lo);
    SplitFree(t, x, []);
    assert FreeAt(t + [x]) == FreeAt(t);
    hide Laid, Total;
    Bounds(t, lo);
  }

  /** Before the first `malloc` only others can have obtained memory. */
  ghost predicate AllForeign(lo: nat, brk: nat, t: seq<Tile>) {
    Laid(t, lo) && lo + Total(t) == brk && forall x :: x in t ==> x.foreign && x.used
  }

  lemma {:induction false} ForeignNotFree(t: seq<Tile>)
    requires forall x :: x in t ==> x.used
    ensures FreeAt(t) == []
  {
    if t != [] {
      ForeignNotFree(t[1..]);
    }
  }

  lemma ForeignGrows(lo: nat, brk: nat, t: seq<Tile>, n: nat)
    requires AllForeign(lo, brk, t) && n > 0
    ensures AllForeign(lo, brk + n, t + [Tile(brk, n, true, true)])
  {
    var x := Tile(brk, n, true, true);
    assert t + [x] + [] == t + [x];
    Ends([], brk + n);
    SplitLaid(t, x, [], lo);
  }

  /** The heap right after the first `malloc` has set up the list. */
  lemma FreshHeap(base: nat, lo: nat, brk: nat, m: Mem, t: seq<Tile>)
    requires 0 < base < lo && AllForeign(lo, brk, t)
    requires m.freep == base && base in m.ptr && m.ptr[base] == base && base in m.size && m.size[base] == 0
    ensures HeapInv(base, lo, brk, m, t)
  {
    hide Laid, Total;
    ForeignNotFree(t);
  }
}
