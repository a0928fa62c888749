/** `malloc`, `free` and `morecore` working in place on the headers of the user heap. */
module Heap {
  import opened HeapModel
  import opened HeapRing

  const HEADER := 8
  const MINUNITS := 4096
  const WORDS := 0x1_0000_0000
  /** User memory ends at KERNBASE, so it has this many header units. */
  const TOP := 0x8000_0000 / HEADER

  /** The header units `malloc` asks for, computed in 32-bit arithmetic. */
  function Units(nbytes: nat): nat { (nbytes + HEADER - 1) % WORDS / HEADER + 1 }

  /** The block is large enough for the request exactly when the rounding does not wrap, and then it is
      the smallest such. */
  lemma UnitsSuffice(nbytes: nat)
    requires nbytes < WORDS
    ensures (Units(nbytes) - 1) * HEADER >= nbytes <==> nbytes <= WORDS - HEADER
    ensures nbytes <= WORDS - HEADER ==> (Units(nbytes) - 2) * HEADER < nbytes
    ensures 1 <= Units(nbytes) <= WORDS / HEADER
  {
  }

  /** It does wrap: the largest request is rounded to a header with no byte behind it. */
  lemma LargestRequestWraps()
    ensures Units(0xFFFF_FFFF) == 1 && (Units(0xFFFF_FFFF) - 1) * HEADER == 0 < 0xFFFF_FFFF
  {
  }

  /** The argument `morecore` passes to `sbrk`, as the signed int it arrives as. */
  function SbrkArgument(units: nat): int {
    var n := units * HEADER % WORDS;
    if n < 0x8000_0000 then n else n - WORDS
  }

  /** It asks for the memory the block needs exactly when that is below half the address space. */
  lemma SbrkAsksEnough(units: nat)
    requires 0 < units <= WORDS / HEADER
    ensures SbrkArgument(units) > 0 <==> units < TOP
    ensures SbrkArgument(units) > 0 ==> SbrkArgument(units) == units * HEADER
  {
  }

  /** From half the address space on it asks to shrink, and for all of it to stay as it is. */
  lemma HalfTheSpaceShrinks()
    ensures SbrkArgument(TOP) == -0x8000_0000 && SbrkArgument(WORDS / HEADER) == 0
    ensures forall units :: TOP <= units < WORDS / HEADER ==> SbrkArgument(units) < 0
  {
  }

  /** How far `morecore` grows the heap for n units. */
  function Growth(n: nat): (r: nat)
    ensures r >= n && r >= 4096 && (r == n || r == 4096)
  {
    if n < MINUNITS then MINUNITS else n
  }

  datatype Outcome = NoMemory | Overrun | Block(at: nat)

  /** The search test of `free` at position k of the list holds exactly at the right gap. */
  lemma SearchStops(c: seq<nat>, g: nat, k: nat, bp: nat)
    requires Increasing(c) && g < |c| && k < |c|
    requires (forall j :: 0 <= j <= g ==> c[j] < bp) && (forall j :: g < j < |c| ==> bp < c[j])
    ensures var p, nx := c[k], c[if k + 1 < |c| then k + 1 else 0];
            ((bp > p && bp < nx) || (p >= nx && (bp > p || bp < nx))) <==> k == g
  {
    assert c[0] < bp;
  }

  lemma NextStop(ptr: map<nat, nat>, c: seq<nat>, k: nat)
    requires Ring(ptr, c) && k < |c|
    ensures c[k] in ptr && ptr[c[k]] == c[if k + 1 < |c| then k + 1 else 0]
  {
  }

  /** The list read from just behind the list pointer, which comes last. */
  function FromFreep(c: seq<nat>, f: nat): seq<nat>
    requires f < |c|
  {
    c[f + 1..] + c[..f + 1]
  }

  lemma FromFreepLinks(ptr: map<nat, nat>, c: seq<nat>, f: nat)
    requires Ring(ptr, c) && f < |c|
    ensures var r := FromFreep(c, f);
            && |r| == |c| && r[|r| - 1] == c[f] && c[f] in ptr && ptr[c[f]] == r[0]
            && (forall k :: 0 <= k < |r| ==> r[k] in ptr && r[k] in c)
            && (forall k :: 0 <= k < |r| - 1 ==> ptr[r[k]] == r[k + 1])
            && (forall x :: x in c ==> x in r)
  {
    var r := FromFreep(c, f);
    assert c == c[..f + 1] + c[f + 1..];
    forall k | 0 <= k < |r|
      ensures r[k] in ptr && r[k] in c && (k + 1 < |r| ==> ptr[r[k]] == r[k + 1])
    {
      var j := if k < |c| - f - 1 then f + 1 + k else k - (|c| - f - 1);
      assert r[k] == c[j];
    }
  }

  lemma FromFreepBefore(c: seq<nat>, f: nat, s: nat) returns (k: nat)
    requires f < |c| && s < |c|
    ensures k < |c| && FromFreep(c, f)[s] == c[k]
    ensures k > 0 ==> c[k - 1] == if s == 0 then c[f] else FromFreep(c, f)[s - 1]
  {
    k := if s < |c| - f - 1 then f + 1 + s else s - (|c| - f - 1);
  }

  class Arena {
    const base: nat
    const lo: nat
    var freep: nat
    var ptr: map<nat, nat>
    var size: map<nat, nat>
    var brk: nat
    ghost var tiles: seq<Tile>
    ghost var growths: nat

    function State(): Mem
      reads this
    {
      Mem(ptr, size, freep)
    }

    ghost predicate Valid()
      reads this
    {
      && 0 < base < lo <= brk <= TOP
      && if freep == 0 then AllForeign(lo, brk, tiles) else HeapInv(base, lo, brk, State(), tiles)
    }

    constructor (staticHeader: nat, heapStart: nat)
      requires 0 < staticHeader < heapStart <= TOP
      ensures Valid() && tiles == [] && brk == lo == heapStart && growths == 0
    {
      base, lo, brk := staticHeader, heapStart, heapStart;
      freep, ptr, size := 0, map[], map[];
      tiles, growths := [], 0;
    }

    /** The search loop of `free`. */
    method FindGap(bp: nat, ghost a: seq<Tile>, ghost x: Tile, ghost b: seq<Tile>) returns (p: nat)
      requires HeapInv(base, lo, brk, State(), a + [x] + b) && x.used && bp == x.at
      ensures p == Gap(base, a)
    {
      hide Laid, Total, FreeAt, Coalesced, SizesOk, Gap, Increasing, Stops, Ring;
      StopsAround(base, lo, brk, State(), a, x, b);
      StopsIncreasing(base, lo, a + [x] + b);
      ghost var c, g := Stops(base, a + [x] + b), |FreeAt(a)|;
      ghost var k: nat :| k < |c| && c[k] == freep;
      p := freep;
      NextStop(ptr, c, k);
      SearchStops(c, g, k, bp);
      while !(bp > p && bp < ptr[p])
        invariant k < |c| && p == c[k] && p in ptr && ptr[p] == c[if k + 1 < |c| then k + 1 else 0]
        invariant ((bp > p && bp < ptr[p]) || (p >= ptr[p] && (bp > p || bp < ptr[p]))) <==> k == g
        decreases if k <= g then g - k else |c| - k + g + 1
      {
        if p >= ptr[p] && (bp > p || bp < ptr[p]) {
          break;
        }
        p := ptr[p];
        k := if k + 1 < |c| then k + 1 else 0;
        NextStop(ptr, c, k);
        SearchStops(c, g, k, bp);
      }
    }

    /** `free`: the block goes back, joins its free neighbours, and nothing else in use changes. */
    method Free(ap: nat, ghost x: Tile) returns (ghost i: nat)
      requires Valid() && x in Live(tiles) && !x.foreign && ap == x.at + 1
      modifies this`freep, this`ptr, this`size, this`tiles
      ensures Valid() && freep != 0
      ensures Live(tiles) == old(Live(tiles)) - {x}
      ensures LiveUnits(tiles) == old(LiveUnits(tiles)) - x.units
      ensures i < |old(tiles)| && old(tiles)[i] == x
      ensures tiles == Release(old(tiles)[..i], x, old(tiles)[i + 1..]) && freep == Gap(base, old(tiles)[..i])
    {
      hide Laid, Total, FreeAt, Coalesced, SizesOk, Release, Gap, Stops, HeapInv, Live, LiveUnits, Relink;
      ghost var m := State();
      i := TileIndex(tiles, x);
      ghost var a, b := tiles[..i], tiles[i + 1..];
      assert tiles == a + [x] + b;
      var bp := ap - 1;
      RelinkKeeps(base, lo, brk, m, a, x, b);
      InvLaid(base, lo, brk, m, a + [x] + b);
      var p := FindGap(bp, a, x, b);
      if bp + size[bp] == ptr[p] {
        size := size[bp := size[bp] + size[ptr[p]]];
        ptr := ptr[bp := ptr[ptr[p]]];
      } else {
        ptr := ptr[bp := ptr[p]];
      }
      if p + size[p] == bp {
        size := size[p := size[p] + size[bp]];
        ptr := ptr[p := ptr[bp]];
      } else {
        ptr := ptr[p := bp];
      }
      freep := p;
      tiles := Release(a, x, b);
      RelinkIs(m, p, bp, State());
      InvLaid(base, lo, brk, State(), tiles);
      ReleaseLive(a, x, b, lo);
      ReleaseUnits(a, x, b);
    }

    /** `morecore`: grow by at least MINUNITS and hand the new block to `free`.  The kernel's
        answer is grant; the header lands outside the memory obtained when `sbrk` was not
        asked for a positive amount. */
    method Morecore(n: nat, grant: bool) returns (ok: bool, overrun: bool)
      requires Valid() && freep != 0 && 0 < n <= WORDS / HEADER
      modifies this`freep, this`ptr, this`size, this`brk, this`tiles, this`growths
      ensures overrun <==> n >= TOP
      ensures Valid() && freep != 0 && Live(tiles) == old(Live(tiles)) && LiveUnits(tiles) == old(LiveUnits(tiles))
      ensures !ok ==> tiles == old(tiles) && State() == old(State()) && brk == old(brk) && growths == old(growths)
      ensures ok <==> n < TOP && grant && old(brk) + Growth(n) < TOP
      ensures ok ==> !overrun && growths == old(growths) + 1 && brk == old(brk) + Growth(n) && HasFit(tiles, n)
    {
      hide Laid, Total, FreeAt, Coalesced, SizesOk, Release, Gap, Stops, HeapInv, Live, LiveUnits;
      var nu := Growth(n);
      SbrkAsksEnough(nu);
      if SbrkArgument(nu) <= 0 {
        return false, true;
      }
      if !grant || brk + nu >= TOP {
        return false, false;
      }
      ghost var t, x := tiles, Tile(brk, nu, true);
      GrowKeeps(base, lo, brk, State(), t, nu);
      GrownTiles(base, lo, brk, State(), t, x);
      var hp := brk;
      brk := brk + nu;
      size := size[hp := nu];
      tiles := t + [x];
      growths := growths + 1;
      ghost var i := Free(hp + 1, x);
      GrownFits(t, x, i);
      return true, false;
    }

    /** Somebody else's `sbrk`: n units the allocator knows nothing of appear at the break. */
    method OtherSbrk(n: nat)
      requires Valid() && 0 < n && brk + n < TOP
      modifies this`brk, this`tiles
      ensures Valid() && brk == old(brk) + n && tiles == old(tiles) + [Tile(old(brk), n, true, true)]
      ensures Live(tiles) == old(Live(tiles)) + {Tile(old(brk), n, true, true)}
      ensures LiveUnits(tiles) == old(LiveUnits(tiles)) + n
      ensures forall k :: HasFit(tiles, k) <==> old(HasFit(tiles, k))
    {
      hide Laid, Total, FreeAt, Coalesced, SizesOk, Stops, LiveUnits;
      ghost var t, x := tiles, Tile(brk, n, true, true);
      if freep == 0 {
        ForeignGrows(lo, brk, t, n);
      } else {
        ForeignKeeps(base, lo, brk, State(), t, n);
      }
      assert t + [x] + [] == t + [x];
      SplitLiveUnits(t, x, []);
      NoUnits();
      brk := brk + n;
      tiles := t + [x];
    }

    /** The end of `malloc`: take n units from the free block p that follows prevp. */
    method TakeFrom(prevp: nat, p: nat, n: nat, ghost i: nat) returns (at: nat)
      requires Valid() && freep != 0 && i < |tiles| && !tiles[i].used && tiles[i].at == p && 0 < n <= tiles[i].units
      requires prevp == Gap(base, tiles[..i])
      modifies this`freep, this`ptr, this`size, this`tiles
      ensures Valid() && freep == prevp != 0 && at > 0
      ensures tiles == Take(old(tiles)[..i], old(tiles)[i], old(tiles)[i + 1..], n)
      ensures at - 1 + n == old(tiles)[i].at + old(tiles)[i].units
      ensures var y := Tile(at - 1, n, true);
              y !in old(Live(tiles)) && Live(tiles) == old(Live(tiles)) + {y} &&
                  LiveUnits(tiles) == old(LiveUnits(tiles)) + n
    {
      hide Laid, Total, FreeAt, Coalesced, SizesOk, Take, Gap, Stops, HeapInv, Live, LiveUnits;
      ghost var a, x, b := tiles[..i], tiles[i], tiles[i + 1..];
      assert tiles == a + [x] + b;
      InvLaid(base, lo, brk, State(), a + [x] + b);
      CarveKeeps(base, lo, brk, State(), a, x, b, n);
      TakeLive(a, x, b, n, lo);
      TakeUnits(a, x, b, n);
      tiles := Take(a, x, b, n);
      var q := p;
      if size[p] == n {
        ptr := ptr[prevp := ptr[p]];
      } else {
        size := size[p := size[p] - n];
        q := p + size[p];
        size := size[q := n];
      }
      freep := prevp;
      InvLaid(base, lo, brk, State(), tiles);
      return q + 1;
    }

    /** `malloc`: a block no other block in use overlaps, after at most one growth, which
        happens exactly when no free block is large enough. */
    method Malloc(nbytes: nat, grant: bool) returns (o: Outcome, ghost i: nat)
      requires Valid() && nbytes < WORDS
      modifies this`freep, this`ptr, this`size, this`brk, this`tiles, this`growths
      ensures Valid() && freep != 0 && (o.Overrun? <==> Units(nbytes) >= TOP)
      ensures o.NoMemory? <==>
                var n := Units(nbytes); n < TOP && !old(HasFit(tiles, n)) && !(grant && old(brk) + Growth(n) < TOP)
      ensures o.NoMemory? ==> tiles == old(tiles) && brk == old(brk)
      ensures o.Block? ==> brk == old(brk) + (if old(HasFit(tiles, Units(nbytes))) then 0 else Growth(Units(nbytes)))
      ensures o.Block? ==> o.at > 0
      ensures o.Block? ==> var y := Tile(o.at - 1, Units(nbytes), true);
                y !in old(Live(tiles)) && Live(tiles) == old(Live(tiles)) + {y}
      ensures o.Block? ==> LiveUnits(tiles) == old(LiveUnits(tiles)) + Units(nbytes)
      ensures o.Block? ==> growths == old(growths) + (if old(HasFit(tiles, Units(nbytes))) then 0 else 1)
      ensures o.Block? && old(HasFit(tiles, Units(nbytes))) ==>
                && NextFit(base, old(tiles), old(freep), i, Units(nbytes))
                && tiles == Take(old(tiles)[..i], old(tiles)[i], old(tiles)[i + 1..], Units(nbytes))
                && o.at - 1 + Units(nbytes) == old(tiles)[i].at + old(tiles)[i].units
                && freep == Gap(base, old(tiles)[..i])
    {
      hide Laid, Total, FreeAt, Coalesced, SizesOk, Ring, Gap, Stops, HeapInv, Live, LiveUnits, HasFit, FromFreep, At;
      hide AllSmall, Units, Take, NextFit;
      UnitsSuffice(nbytes);
      var n := Units(nbytes);
      if freep == 0 {
        ptr, size := ptr[base := base], size[base := 0];
        freep := base;
        FreshHeap(base, lo, brk, State(), tiles);
        NothingFits(lo, brk, tiles, n);
      }
      if n >= TOP {
        NoHugeFit(base, lo, brk, State(), tiles, n);
      }
      ghost var grown := false;
      ghost var s: nat := 0;
      ghost var f: nat := StartScan(base, lo, brk, State(), tiles, n);
      var prevp: nat := freep;
      var p: nat := ptr[prevp];
      while true
        invariant Valid() && freep != 0
        invariant f < |Stops(base, tiles)| && s < |Stops(base, tiles)|
        invariant At(Stops(base, tiles), f, s, freep, prevp, p) && AllSmall(size, Stops(base, tiles), f, s, n)
        invariant Live(tiles) == old(Live(tiles)) && LiveUnits(tiles) == old(LiveUnits(tiles))
        invariant grown ==> HasFit(tiles, n) && !old(HasFit(tiles, n)) && growths == old(growths) + 1
        invariant grown ==> grant && brk == old(brk) + Growth(n) < TOP
        invariant !grown ==> tiles == old(tiles) && growths == old(growths) && brk == old(brk)
        invariant !grown && old(freep) != 0 ==> freep == old(freep)
        invariant old(freep) == 0 ==> !old(HasFit(tiles, n))
        invariant HasFit(tiles, n) ==> n < TOP
        decreases if grown then 0 else 1, |Stops(base, tiles)| - s
      {
        ScanInfo(base, lo, brk, State(), tiles, f, s, prevp, p);
        if size[p] >= n {
          i := ScanFound(base, lo, brk, State(), tiles, f, s, prevp, p, n);
          FitHere(tiles, i, n);
          FoundNext(base, lo, brk, State(), tiles, f, s, prevp, p, i, n);
          var at := TakeFrom(prevp, p, n, i);
          return Block(at), i;
        }
        SmallHere(size, Stops(base, tiles), f, s, n, freep, prevp, p);
        if p == freep {
          ScanFailed(base, lo, brk, State(), tiles, f, n);
          var ok, overrun := Morecore(n, grant);
          if overrun {
            return Overrun, 0;
          }
          if !ok {
            return NoMemory, 0;
          }
          p := freep;
          grown, s := true, 0;
          f := StartScan(base, lo, brk, State(), tiles, n);
        } else {
          s := s + 1;
        }
        prevp, p := p, ptr[p];
      }
    }
  }

  /** `malloc` answers the largest request from any free block, with a block of the header alone. */
  method AnswerLargestRequest(h: Arena) returns (at: nat)
    requires h.Valid() && HasFit(h.tiles, 1)
    modifies h
    ensures h.Valid() && at > 0 && Tile(at - 1, 1, true) !in old(Live(h.tiles))
    ensures Live(h.tiles) == old(Live(h.tiles)) + {Tile(at - 1, 1, true)} && h.brk == old(h.brk)
  {
    LargestRequestWraps();
    ghost var i;
    var o;
    o, i := h.Malloc(0xFFFF_FFFF, false);
    at := o.at;
  }

  /** Some free block has at least n units. */
  ghost predicate HasFit(t: seq<Tile>, n: nat) {
    exists x :: x in t && !x.used && x.units >= n
  }

  lemma GrownTiles(base: nat, lo: nat, brk: nat, m: Mem, t: seq<Tile>, x: Tile)
    requires HeapInv(base, lo, brk, m, t) && x.at == brk && x.used
    ensures x !in t && Live(t + [x]) == Live(t) + {x} && x !in Live(t) && LiveUnits(t + [x]) == LiveUnits(t) + x.units
  {
    Bounds(t, lo);
    assert t + [x] + [] == t + [x];
    SplitLiveUnits(t, x, []);
  }

  lemma GrownFits(t: seq<Tile>, x: Tile, i: nat)
    requires x !in t && i <= |t| && (t + [x])[i] == x
    ensures HasFit(Release((t + [x])[..i], x, (t + [x])[i + 1..]), x.units)
  {
    assert i == |t|;
    assert (t + [x])[..i] == t && (t + [x])[i + 1..] == [];
    var r := Release(t, x, []);
    assert r[|r| - 1] in r;
  }

  lemma NoUnits()
    ensures LiveUnits([]) == 0
  {
  }

  lemma NothingFits(lo: nat, brk: nat, t: seq<Tile>, n: nat)
    requires AllForeign(lo, brk, t)
    ensures !HasFit(t, n)
  {
  }

  /** The assignments of `free`, one by one, amount to Relink. */
  lemma RelinkIs(m: Mem, p: nat, b: nat, r: Mem)
    requires p in m.ptr && p in m.size && b in m.size && m.ptr[p] in m.ptr && m.ptr[p] in m.size
    requires var nx := m.ptr[p];
             var ptr := if b + m.size[b] == nx then m.ptr[b := m.ptr[nx]] else m.ptr[b := nx];
             var size := if b + m.size[b] == nx then m.size[b := m.size[b] + m.size[nx]] else m.size;
             r == if p + size[p] == b then Mem(ptr[p := ptr[b]], size[p := size[p] + size[b]], p)
                  else Mem(ptr[p := b], size, p)
    ensures r == Relink(m, p, b)
  {
    assert m.size[b := m.size[b]] == m.size;
  }

  lemma InvLaid(base: nat, lo: nat, brk: nat, m: Mem, t: seq<Tile>)
    requires HeapInv(base, lo, brk, m, t)
    ensures Laid(t, lo) && lo + Total(t) == brk && 0 < base < lo
    ensures m.freep in Stops(base, t) && Ring(m.ptr, Stops(base, t)) && SizesOk(m.size, t) && m.freep != 0
  {
    Bounds(t, lo);
  }

  lemma TileIndex(t: seq<Tile>, x: Tile) returns (i: nat)
    requires x in Live(t)
    ensures i < |t| && t[i] == x && x.used && t == t[..i] + [x] + t[i + 1..]
  {
    i :| i < |t| && t[i] == x;
  }

  // ---------------------------------------------------------------- the scan of malloc

  /** The scan has passed s blocks behind the list pointer c[f] and looks at p, which follows prevp. */
  ghost predicate At(c: seq<nat>, f: nat, s: nat, freep: nat, prevp: nat, p: nat) {
    && f < |c| && s < |c| && c[f] == freep
    && p == FromFreep(c, f)[s] && prevp == if s == 0 then freep else FromFreep(c, f)[s - 1]
  }

  ghost predicate AllSmall(size: map<nat, nat>, c: seq<nat>, f: nat, s: nat, n: nat)
    requires f < |c| && s <= |c|
  {
    forall k :: 0 <= k < s ==> FromFreep(c, f)[k] in size && size[FromFreep(c, f)[k]] < n
  }

  lemma StartScan(base: nat, lo: nat, brk: nat, m: Mem, t: seq<Tile>, n: nat) returns (f: nat)
    requires HeapInv(base, lo, brk, m, t)
    ensures f < |Stops(base, t)| && m.freep in m.ptr && At(Stops(base, t), f, 0, m.freep, m.freep, m.ptr[m.freep])
    ensures AllSmall(m.size, Stops(base, t), f, 0, n)
  {
    hide Laid, Total, Coalesced, SizesOk, Ring, Stops, FromFreep;
    var c := Stops(base, t);
    f :| f < |c| && c[f] == m.freep;
    FromFreepLinks(m.ptr, c, f);
  }

  lemma StopsSized(base: nat, lo: nat, brk: nat, m: Mem, t: seq<Tile>, x: nat)
    requires HeapInv(base, lo, brk, m, t) && x in Stops(base, t)
    ensures x in m.size
  {
    if x != base {
      var k :| 0 <= k < |FreeAt(t)| && FreeAt(t)[k] == x;
      var i := FreeTile(t, k);
      assert t[i] in t;
    }
  }

  lemma ScanInfo(base: nat, lo: nat, brk: nat, m: Mem, t: seq<Tile>, f: nat, s: nat, prevp: nat, p: nat)
    requires HeapInv(base, lo, brk, m, t) && At(Stops(base, t), f, s, m.freep, prevp, p)
    ensures p in m.ptr && p in m.size && (p == m.freep <==> s == |Stops(base, t)| - 1)
    ensures s + 1 < |Stops(base, t)| ==> At(Stops(base, t), f, s + 1, m.freep, p, m.ptr[p])
  {
    StopsIncreasing(base, lo, t);
    hide Laid, Total, Coalesced, SizesOk, Ring, Stops;
    var c := Stops(base, t);
    FromFreepLinks(m.ptr, c, f);
    StopsSized(base, lo, brk, m, t, p);
    hide HeapInv;
    assert s < |c| - f - 1 ==> p == c[f + 1 + s];
    assert s >= |c| - f - 1 ==> p == c[s - (|c| - f - 1)];
  }

  lemma ScanFound(base: nat, lo: nat, brk: nat, m: Mem, t: seq<Tile>, f: nat, s: nat, prevp: nat, p: nat, n: nat)
    returns (i: nat)
    requires HeapInv(base, lo, brk, m, t) && At(Stops(base, t), f, s, m.freep, prevp, p)
    requires p in m.size && m.size[p] >= n > 0
    ensures i < |t| && !t[i].used && t[i].at == p && t[i].units == m.size[p] && prevp == Gap(base, t[..i])
  {
    hide Laid, Total, Coalesced, Ring, FreeAt, FromFreep;
    var c := Stops(base, t);
    var k := FromFreepBefore(c, f, s);
    assert k > 0;
    i := FreeTile(t, k - 1);
    assert t[i] in t;
    assert t == t[..i] + [t[i]] + t[i + 1..];
    SplitFree(t[..i], t[i], t[i + 1..]);
    assert c == Stops(base, t[..i]) + ([t[i].at] + FreeAt(t[i + 1..]));
    assert c[k - 1] == Stops(base, t[..i])[k - 1];
  }

  /** Tile i is the first with n units on the list, starting behind the list pointer. */
  ghost predicate NextFit(base: nat, t: seq<Tile>, freep: nat, i: nat, n: nat) {
    && i < |t| && !t[i].used && t[i].units >= n
    && exists f: nat, s: nat :: f < |Stops(base, t)| && s < |Stops(base, t)| && FirstAt(base, t, freep, f, s, i, n)
  }

  /** The list pointer is stop f, tile i is s stops further on, and every tile passed is too small. */
  ghost predicate FirstAt(base: nat, t: seq<Tile>, freep: nat, f: nat, s: nat, i: nat, n: nat)
    requires f < |Stops(base, t)| && s < |Stops(base, t)| && i < |t|
  {
    && Stops(base, t)[f] == freep && FromFreep(Stops(base, t), f)[s] == t[i].at
    && forall k, x :: 0 <= k < s && x in t && x.at == FromFreep(Stops(base, t), f)[k] ==> x.units < n
  }

  lemma FoundNext(base: nat, lo: nat, brk: nat, m: Mem, t: seq<Tile>, f: nat, s: nat, prevp: nat, p: nat, i: nat,
                  n: nat)
    requires HeapInv(base, lo, brk, m, t) && At(Stops(base, t), f, s, m.freep, prevp, p)
    requires f < |Stops(base, t)| && s < |Stops(base, t)|
    requires AllSmall(m.size, Stops(base, t), f, s, n) && i < |t| && !t[i].used && t[i].at == p && t[i].units >= n
    ensures NextFit(base, t, m.freep, i, n)
  {
    hide Laid, Total, Coalesced, Ring, Stops, FromFreep;
    FromFreepLinks(m.ptr, Stops(base, t), f);
    forall k, x | 0 <= k < s && x in t && x.at == FromFreep(Stops(base, t), f)[k]
      ensures x.units < n
    {
      StopIsFree(base, lo, t, x);
    }
    assert FirstAt(base, t, m.freep, f, s, i, n);
  }

  /** A tile at an address on the list is a free one. */
  lemma StopIsFree(base: nat, lo: nat, t: seq<Tile>, x: Tile)
    requires base < lo && Laid(t, lo) && x in t && x.at in Stops(base, t)
    ensures !x.used
  {
    hide FreeAt;
    Bounds(t, lo);
    var k :| 0 <= k < |FreeAt(t)| && FreeAt(t)[k] == x.at;
    var i := FreeTile(t, k);
    if t[i] != x {
      TilesDisjoint(t, lo, x, t[i]);
    }
  }

  lemma FitHere(t: seq<Tile>, i: nat, n: nat)
    requires i < |t| && !t[i].used && t[i].units >= n
    ensures HasFit(t, n)
  {
    assert t[i] in t;
  }

  lemma SmallHere(size: map<nat, nat>, c: seq<nat>, f: nat, s: nat, n: nat, freep: nat, prevp: nat, p: nat)
    requires At(c, f, s, freep, prevp, p) && AllSmall(size, c, f, s, n) && p in size && size[p] < n
    ensures AllSmall(size, c, f, s + 1, n)
  {
  }

  lemma ScanFailed(base: nat, lo: nat, brk: nat, m: Mem, t: seq<Tile>, f: nat, n: nat)
    requires HeapInv(base, lo, brk, m, t) && f < |Stops(base, t)|
    requires AllSmall(m.size, Stops(base, t), f, |Stops(base, t)|, n)
    ensures !HasFit(t, n)
  {
    hide Laid, Total, Coalesced, FreeAt, FromFreep;
    var c := Stops(base, t);
    FromFreepLinks(m.ptr, c, f);
    forall x | x in t && !x.used
      ensures x.units < n
    {
      FreeListed(t, x);
      assert x.at in c && x.at in FromFreep(c, f);
    }
  }

  lemma {:induction false} FreeListed(t: seq<Tile>, x: Tile)
    requires x in t && !x.used
    ensures x.at in FreeAt(t)
  {
    if t[0] != x {
      assert t == [t[0]] + t[1..];
      FreeListed(t[1..], x);
    }
  }

  /** A block of TOP units cannot be free: user memory is smaller. */
  lemma NoHugeFit(base: nat, lo: nat, brk: nat, m: Mem, t: seq<Tile>, n: nat)
    requires HeapInv(base, lo, brk, m, t) && brk <= TOP <= n
    ensures !HasFit(t, n)
  {
    Bounds(t, lo);
  }

  /** Whatever the calls so far, units free and units in use add up to the units obtained. */
  lemma UnitsConserved(base: nat, lo: nat, brk: nat, m: Mem, t: seq<Tile>)
    requires HeapInv(base, lo, brk, m, t)
    ensures FreeUnits(t) + LiveUnits(t) == brk - lo
  {
    Conservation(t);
  }

  lemma {:induction false} NextTile(t: seq<Tile>, lo: nat, i: nat, y: Tile)
    requires Laid(t, lo) && i < |t| && y in t && y.at == t[i].at + t[i].units
    ensures i + 1 < |t| && t[i + 1] == y
  {
    var b, mid := t[1..], lo + t[0].units;
    assert t == [t[0]] + b;
    Bounds(t, lo);
    Bounds(b, mid);
    if i == 0 {
      assert b == [b[0]] + b[1..];
      Bounds(b[1..], mid + b[0].units);
    } else {
      NextTile(b, mid, i - 1, y);
    }
  }

  /** Free blocks never touch: the list is fully coalesced. */
  lemma FreeApart(base: nat, lo: nat, brk: nat, m: Mem, t: seq<Tile>, x: Tile, y: Tile)
    requires HeapInv(base, lo, brk, m, t) && x in t && y in t && !x.used && !y.used && x.at < y.at
    ensures x.at + x.units < y.at
  {
    TilesDisjoint(t, lo, x, y);
    Bounds(t, lo);
    hide Laid, Ring, SizesOk;
    if x.at + x.units == y.at {
      var i :| 0 <= i < |t| && t[i] == x;
      NextTile(t, lo, i, y);
      assert false;
    }
  }
}
