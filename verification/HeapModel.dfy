/** The user heap of `malloc` and `free` as a tiling: the memory obtained from `sbrk` is cut
    into consecutive tiles, each free or in use.  Addresses and sizes are in header units. */
module HeapModel {
  /** A foreign tile is memory that others in the program obtained from `sbrk`; it has no header. */
  datatype Tile = Tile(at: nat, units: nat, used: bool, foreign: bool := false)

  function Total(t: seq<Tile>): nat {
    if t == [] then 0 else t[0].units + Total(t[1..])
  }

  /** The tiles lie end to end from lo on, none of them empty. */
  ghost predicate Laid(t: seq<Tile>, lo: nat) {
    t == [] || (t[0].at == lo && t[0].units > 0 && Laid(t[1..], lo + t[0].units))
  }

  /** No two neighbouring tiles are both free. */
  ghost predicate Coalesced(t: seq<Tile>) {
    forall k :: 0 <= k < |t| - 1 ==> t[k].used || t[k + 1].used
  }

  /** Addresses of the free tiles, in address order. */
  function FreeAt(t: seq<Tile>): seq<nat> {
    if t == [] then [] else (if t[0].used then [] else [t[0].at]) + FreeAt(t[1..])
  }

  /** The blocks in use. */
  function Live(t: seq<Tile>): set<Tile> {
    set x | x in t && x.used
  }

  function LiveUnits(t: seq<Tile>): nat {
    if t == [] then 0 else (if t[0].used then t[0].units else 0) + LiveUnits(t[1..])
  }

  function FreeUnits(t: seq<Tile>): nat {
    if t == [] then 0 else (if t[0].used then 0 else t[0].units) + FreeUnits(t[1..])
  }

  /** Conservation: every unit obtained is free or allocated. */
  lemma {:induction false} Conservation(t: seq<Tile>)
    ensures FreeUnits(t) + LiveUnits(t) == Total(t)
  {
    if t != [] {
      Conservation(t[1..]);
    }
  }

  // ---------------------------------------------------------------- cutting the tiling in two

  lemma {:induction false} LaidConcat(a: seq<Tile>, b: seq<Tile>, lo: nat)
    ensures Total(a + b) == Total(a) + Total(b)
    ensures Laid(a + b, lo) <==> Laid(a, lo) && Laid(b, lo + Total(a))
  {
    if a == [] {
      assert a + b == b;
    } else {
      assert (a + b)[1..] == a[1..] + b;
      LaidConcat(a[1..], b, lo + a[0].units);
    }
  }

  lemma {:induction false} FreeConcat(a: seq<Tile>, b: seq<Tile>)
    ensures FreeAt(a + b) == FreeAt(a) + FreeAt(b)
  {
    if a == [] {
      assert a + b == b;
    } else {
      assert (a + b)[1..] == a[1..] + b;
      FreeConcat(a[1..], b);
    }
  }

  lemma {:induction false} LiveUnitsConcat(a: seq<Tile>, b: seq<Tile>)
    ensures LiveUnits(a + b) == LiveUnits(a) + LiveUnits(b)
  {
    if a == [] {
      assert a + b == b;
    } else {
      assert (a + b)[1..] == a[1..] + b;
      LiveUnitsConcat(a[1..], b);
    }
  }

  lemma SplitLiveUnits(a: seq<Tile>, x: Tile, b: seq<Tile>)
    ensures LiveUnits(a + [x] + b) == LiveUnits(a) + (if x.used then x.units else 0) + LiveUnits(b)
  {
    LiveUnitsConcat(a, [x]);
    LiveUnitsConcat(a + [x], b);
    assert LiveUnits([x]) == if x.used then x.units else 0;
  }

  lemma {:induction false} Bounds(t: seq<Tile>, lo: nat)
    requires Laid(t, lo)
    ensures forall x :: x in FreeAt(t) ==> lo <= x < lo + Total(t)
    ensures forall x :: x in t ==> lo <= x.at && 0 < x.units && x.at + x.units <= lo + Total(t)
  {
    if t != [] {
      Bounds(t[1..], lo + t[0].units);
      assert t == [t[0]] + t[1..];
    }
  }

  ghost predicate Increasing(s: seq<nat>) {
    forall i, j :: 0 <= i < j < |s| ==> s[i] < s[j]
  }

  lemma {:induction false} FreeAtIncreasing(t: seq<Tile>, lo: nat)
    requires Laid(t, lo)
    ensures Increasing(FreeAt(t))
  {
    if t != [] {
      FreeAtIncreasing(t[1..], lo + t[0].units);
      Bounds(t[1..], lo + t[0].units);
      var r := FreeAt(t[1..]);
      assert forall j :: 0 <= j < |r| ==> r[j] in r;
    }
  }

  /** Tiles never overlap. */
  lemma {:induction false} TilesDisjoint(t: seq<Tile>, lo: nat, x: Tile, y: Tile)
    requires Laid(t, lo) && x in t && y in t && x != y
    ensures x.at + x.units <= y.at || y.at + y.units <= x.at
  {
    Bounds(t[1..], lo + t[0].units);
    assert t == [t[0]] + t[1..];
    if x in t[1..] && y in t[1..] {
      TilesDisjoint(t[1..], lo + t[0].units, x, y);
    }
  }

  lemma {:induction false} FreeTile(t: seq<Tile>, k: nat) returns (i: nat)
    requires k < |FreeAt(t)|
    ensures i < |t| && !t[i].used && t[i].at == FreeAt(t)[k] && |FreeAt(t[..i])| == k
  {
    if !t[0].used && k == 0 {
      i := 0;
    } else {
      var j := FreeTile(t[1..], if t[0].used then k else k - 1);
      i := j + 1;
      assert t[..i][1..] == t[1..][..j];
    }
  }

  /** The next free tile touches hi exactly when the very next tile is free. */
  lemma {:induction false} NextTouches(b: seq<Tile>, lo: nat)
    requires Laid(b, lo)
    ensures b != [] && !b[0].used <==> FreeAt(b) != [] && FreeAt(b)[0] == lo
  {
    if b != [] && b[0].used {
      Bounds(b[1..], lo + b[0].units);
      assert FreeAt(b) == FreeAt(b[1..]);
      assert FreeAt(b) != [] ==> FreeAt(b)[0] in FreeAt(b[1..]);
    }
  }

  /** The last free tile of a ends where a ends exactly when it is the last tile of a. */
  lemma {:induction false} LastTouches(a: seq<Tile>, lo: nat) returns (i: nat)
    requires Laid(a, lo) && FreeAt(a) != []
    ensures i < |a| && !a[i].used && a[i].at == FreeAt(a)[|FreeAt(a)| - 1]
    ensures a[i].at + a[i].units == lo + Total(a) <==> !a[|a| - 1].used
    ensures !a[|a| - 1].used ==> i == |a| - 1
  {
    var n := |a| - 1;
    assert a == a[..n] + [a[n]];
    LaidConcat(a[..n], [a[n]], lo);
    FreeConcat(a[..n], [a[n]]);
    assert FreeAt([a[n]]) == if a[n].used then [] else [a[n].at];
    assert Total([a[n]]) == a[n].units;
    if a[n].used {
      var j := LastTouches(a[..n], lo);
      Bounds(a[..n], lo);
      i := j;
      assert a[..n][j] == a[j];
    } else {
      i := n;
      assert Laid([a[n]], lo + Total(a[..n]));
    }
  }

  // ---------------------------------------------------------------- giving a tile back

  predicate EndsFree(a: seq<Tile>) { a != [] && !a[|a| - 1].used }

  predicate StartsFree(b: seq<Tile>) { b != [] && !b[0].used }

  function JoinLeft(a: seq<Tile>, y: Tile, c: seq<Tile>): seq<Tile> {
    if EndsFree(a) then
      var z := a[|a| - 1];
      a[..|a| - 1] + [Tile(z.at, z.units + y.units, false)] + c
    else a + [y] + c
  }

  /** Tile x, between a and b, becomes free and joins its free neighbours. */
  function Release(a: seq<Tile>, x: Tile, b: seq<Tile>): seq<Tile> {
    var y := if StartsFree(b) then Tile(x.at, x.units + b[0].units, false) else x.(used := false);
    JoinLeft(a, y, if StartsFree(b) then b[1..] else b)
  }

  lemma SplitLaid(a: seq<Tile>, x: Tile, b: seq<Tile>, lo: nat)
    ensures Laid(a + [x] + b, lo) <==>
              Laid(a, lo) && x.at == lo + Total(a) && x.units > 0 && Laid(b, lo + Total(a) + x.units)
    ensures Total(a + [x] + b) == Total(a) + x.units + Total(b)
  {
    LaidConcat(a, [x], lo);
    LaidConcat(a + [x], b, lo);
    assert [x][1..] == [];
    assert Total([x]) == x.units;
  }

  lemma SplitFree(a: seq<Tile>, x: Tile, b: seq<Tile>)
    ensures FreeAt(a + [x] + b) == FreeAt(a) + (if x.used then [] else [x.at]) + FreeAt(b)
  {
    FreeConcat(a, [x]);
    FreeConcat(a + [x], b);
    assert FreeAt([x]) == if x.used then [] else [x.at];
  }

  /** What a tile at either end of a tiling contributes. */
  lemma Ends(a: seq<Tile>, lo: nat)
    ensures EndsFree(a) ==> a == a[..|a| - 1] + [a[|a| - 1]] + []
    ensures StartsFree(a) ==> FreeAt(a) == [a[0].at] + FreeAt(a[1..])
    ensures StartsFree(a) && Laid(a, lo) ==>
              Laid(a[1..], lo + a[0].units) && Total(a) == a[0].units + Total(a[1..]) && a[0].at == lo
    ensures FreeAt([]) == [] && Total([]) == 0 && Laid([], lo)
  {
  }

  lemma JoinLeftLaid(a: seq<Tile>, y: Tile, c: seq<Tile>, lo: nat)
    requires Laid(a + [y] + c, lo)
    ensures Laid(JoinLeft(a, y, c), lo) && Total(JoinLeft(a, y, c)) == Total(a + [y] + c)
  {
    hide Laid, Total;
    SplitLaid(a, y, c, lo);
    Ends(a, lo);
    Ends([], lo);
    if EndsFree(a) {
      var n := |a| - 1;
      SplitLaid(a[..n], a[n], [], lo);
      SplitLaid(a[..n], Tile(a[n].at, a[n].units + y.units, false), c, lo);
    }
  }

  lemma JoinLeftFree(a: seq<Tile>, y: Tile, c: seq<Tile>)
    requires !y.used
    ensures FreeAt(JoinLeft(a, y, c)) == FreeAt(a) + (if EndsFree(a) then [] else [y.at]) + FreeAt(c)
  {
    hide FreeAt;
    Ends(a, 0);
    if EndsFree(a) {
      var n := |a| - 1;
      SplitFree(a[..n], a[n], []);
      SplitFree(a[..n], Tile(a[n].at, a[n].units + y.units, false), c);
    } else {
      SplitFree(a, y, c);
    }
  }

  /** Giving back keeps every unit. */
  lemma ReleaseLaid(a: seq<Tile>, x: Tile, b: seq<Tile>, lo: nat)
    requires Laid(a + [x] + b, lo)
    ensures Laid(Release(a, x, b), lo) && Total(Release(a, x, b)) == Total(a + [x] + b)
  {
    hide Laid, Total, JoinLeft;
    SplitLaid(a, x, b, lo);
    var y := if StartsFree(b) then Tile(x.at, x.units + b[0].units, false) else x.(used := false);
    var c := if StartsFree(b) then b[1..] else b;
    Ends(b, x.at + x.units);
    SplitLaid(a, y, c, lo);
    JoinLeftLaid(a, y, c, lo);
  }

  /** Giving back frees exactly x: every other block in use stays where it is. */
  lemma ReleaseLive(a: seq<Tile>, x: Tile, b: seq<Tile>, lo: nat)
    requires Laid(a + [x] + b, lo) && x.used
    ensures Live(Release(a, x, b)) == Live(a + [x] + b) - {x}
  {
    hide Laid, Total;
    SplitLaid(a, x, b, lo);
    Bounds(a, lo);
    Bounds(b, x.at + x.units);
    assert StartsFree(b) ==> b == [b[0]] + b[1..];
    assert EndsFree(a) ==> a == a[..|a| - 1] + [a[|a| - 1]];
  }

  /** Giving back enters x into the free list exactly when no free tile ends where it starts. */
  lemma ReleaseFree(a: seq<Tile>, x: Tile, b: seq<Tile>)
    ensures FreeAt(Release(a, x, b)) == FreeAt(a) + (if EndsFree(a) then [] else [x.at]) +
                                        (if StartsFree(b) then FreeAt(b)[1..] else FreeAt(b))
    ensures StartsFree(b) ==> FreeAt(b) != [] && FreeAt(b)[0] == b[0].at
  {
    hide FreeAt, JoinLeft;
    Ends(b, 0);
    JoinLeftFree(a, if StartsFree(b) then Tile(x.at, x.units + b[0].units, false) else x.(used := false),
                 if StartsFree(b) then b[1..] else b);
  }

  lemma ReleaseUnits(a: seq<Tile>, x: Tile, b: seq<Tile>)
    requires x.used
    ensures LiveUnits(Release(a, x, b)) + x.units == LiveUnits(a + [x] + b)
  {
    SplitLiveUnits(a, x, b);
    assert StartsFree(b) ==> LiveUnits(b) == LiveUnits(b[1..]);
    var y := if StartsFree(b) then Tile(x.at, x.units + b[0].units, false) else x.(used := false);
    var c := if StartsFree(b) then b[1..] else b;
    hide LiveUnits;
    if EndsFree(a) {
      var n := |a| - 1;
      assert a == a[..n] + [a[n]] + [];
      SplitLiveUnits(a[..n], a[n], []);
      SplitLiveUnits(a[..n], Tile(a[n].at, a[n].units + y.units, false), c);
    } else {
      SplitLiveUnits(a, y, c);
    }
  }

  lemma ReleaseCoalesced(a: seq<Tile>, x: Tile, b: seq<Tile>)
    requires Coalesced(a + [x] + b)
    ensures Coalesced(Release(a, x, b))
  {
    var t, r := a + [x] + b, Release(a, x, b);
    var n := |a|;
    var d := if EndsFree(a) then 1 else 0;
    var e := if StartsFree(b) then 1 else 0;
    var u, v := a[..n - d], b[e..];
    assert r == u + [r[n - d]] + v;
    forall k | 0 <= k < |r| - 1
      ensures r[k].used || r[k + 1].used
    {
      if k + 1 < n - d {
        assert r[k] == t[k] && r[k + 1] == t[k + 1];
      } else if k > n - d {
        assert r[k] == v[k - |u| - 1] == t[k + d + e] && r[k + 1] == v[k - |u|] == t[k + 1 + d + e];
      } else if k + 1 == n - d {
        assert r[k] == t[k] && (d == 1 ==> t[k + 1] == a[n - 1]);
      } else {
        assert r[k + 1] == v[0] == t[n + 1 + e] && (e == 1 ==> t[n + 1] == b[0]);
      }
    }
  }

  // ---------------------------------------------------------------- taking units

  /** Take n units from free tile x: all of it, or its tail. */
  function Take(a: seq<Tile>, x: Tile, b: seq<Tile>, n: nat): seq<Tile>
    requires n <= x.units
  {
    if x.units == n then a + [x.(used := true)] + b
    else a + [x.(units := x.units - n), Tile(x.at + x.units - n, n, true)] + b
  }

  lemma TakeLaid(a: seq<Tile>, x: Tile, b: seq<Tile>, n: nat, lo: nat)
    requires Laid(a + [x] + b, lo) && 0 < n <= x.units
    ensures Laid(Take(a, x, b, n), lo) && Total(Take(a, x, b, n)) == Total(a + [x] + b)
  {
    SplitLaid(a, x, b, lo);
    if x.units == n {
      SplitLaid(a, x.(used := true), b, lo);
    } else {
      var y, z := x.(units := x.units - n), Tile(x.at + x.units - n, n, true);
      assert a + [y, z] + b == a + [y] + ([z] + b);
      assert [] + [z] + b == [z] + b;
      SplitLaid([], z, b, x.at + x.units - n);
      SplitLaid(a, y, [z] + b, lo);
    }
  }

  /** Taking adds exactly one block in use, at an address no block in use has. */
  lemma TakeLive(a: seq<Tile>, x: Tile, b: seq<Tile>, n: nat, lo: nat)
    requires Laid(a + [x] + b, lo) && !x.used && !x.foreign && 0 < n <= x.units
    ensures var y := Tile(x.at + x.units - n, n, true);
            y !in Live(a + [x] + b) && Live(Take(a, x, b, n)) == Live(a + [x] + b) + {y}
  {
    hide Laid, Total;
    SplitLaid(a, x, b, lo);
    Bounds(a, lo);
    Bounds(b, x.at + x.units);
  }

  /** Taking drops x from the free list exactly when nothing of it is left. */
  lemma TakeFree(a: seq<Tile>, x: Tile, b: seq<Tile>, n: nat)
    requires !x.used && n <= x.units
    ensures FreeAt(Take(a, x, b, n)) == FreeAt(a) + (if x.units == n then [] else [x.at]) + FreeAt(b)
  {
    if x.units == n {
      SplitFree(a, x.(used := true), b);
    } else {
      var y, z := x.(units := x.units - n), Tile(x.at + x.units - n, n, true);
      assert a + [y, z] + b == a + [y] + ([z] + b);
      assert [] + [z] + b == [z] + b;
      SplitFree([], z, b);
      SplitFree(a, y, [z] + b);
    }
  }

  lemma TakeUnits(a: seq<Tile>, x: Tile, b: seq<Tile>, n: nat)
    requires !x.used && n <= x.units
    ensures LiveUnits(Take(a, x, b, n)) == LiveUnits(a + [x] + b) + n
  {
    SplitLiveUnits(a, x, b);
    hide LiveUnits;
    if x.units == n {
      SplitLiveUnits(a, x.(used := true), b);
    } else {
      var y, z := x.(units := x.units - n), Tile(x.at + x.units - n, n, true);
      assert a + [y, z] + b == (a + [y]) + [z] + b;
      SplitLiveUnits(a + [y], z, b);
      assert a + [y] + [] == a + [y];
      SplitLiveUnits(a, y, []);
      SplitLiveUnits([], z, b);
      LiveUnitsConcat(a, []);
      assert a + [] == a;
    }
  }

  lemma TakeCoalesced(a: seq<Tile>, x: Tile, b: seq<Tile>, n: nat)
    requires Coalesced(a + [x] + b) && !x.used && n <= x.units
    ensures Coalesced(Take(a, x, b, n))
  {
    var t, r := a + [x] + b, Take(a, x, b, n);
    forall k | 0 <= k < |r| - 1
      ensures r[k].used || r[k + 1].used
    {
      if k + 1 < |a| {
        assert r[k] == t[k] && r[k + 1] == t[k + 1];
      } else if k + 1 == |a| {
        assert r[k] == t[k] && t[k + 1] == x;
      } else if k > |a| {
        var d := |r| - |t|;
        assert r[k + 1] == t[k + 1 - d];
        assert k > |a| + d ==> r[k] == t[k - d];
      }
    }
  }
}
