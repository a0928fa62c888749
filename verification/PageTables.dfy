/** `kalloc`, `walkpgdir`, `mappages` and the operations on whole address spaces, working in
    place on physical memory.  Virtual and physical addresses are in bytes, pages by number. */
module PageTables {
  import opened PageModel
  import opened PageFrames

  class Machine {
    const first: nat
    const kmap: seq<KMap>
    var free: seq<nat>
    var mem: map<nat, Page>
    ghost var own: map<nat, Use>

    function State(): VM
      reads this
    {
      VM(free, mem)
    }

    /** Every page the allocator was given is in exactly one use, and every use is real. */
    ghost predicate Valid()
      reads this
    {
      Inv(State(), own) && KmapOk(kmap) && forall p :: p in own ==> 0 < first <= p < PHYSPAGES
    }

    /** `freerange` from the end of the kernel to the end of physical memory: every page is free. */
    constructor (firstPage: nat, rows: seq<KMap>)
      requires 0 < firstPage <= PHYSPAGES && KmapOk(rows)
      ensures Valid() && first == firstPage && kmap == rows
      ensures forall p :: p in own <==> first <= p < PHYSPAGES
      ensures forall p :: p in own ==> own[p] == Use.Free
    {
      first, kmap := firstPage, rows;
      free, mem, own := [], map[], map[];
      new;
      var p := first;
      while p < PHYSPAGES
        invariant first <= p <= PHYSPAGES && Fresh(State(), own, first, p)
      {
        ghost var vm := State();
        var panic := Kfree(p);
        own := own[p := Use.Free];
        FreshMore(vm, State(), first, p, own);
        p := p + 1;
      }
      FreshInv(State(), own, first, p);
    }

    /** `kalloc`; 0 when there is no free page. */
    method Kalloc() returns (p: nat)
      requires Valid()
      modifies this`free, this`own
      ensures Valid()
      ensures p == 0 ==> old(free) == [] && free == old(free) && own == old(own)
      ensures p != 0 ==>
                p in old(own) && old(own)[p] == Free && own == old(own)[p := Held] && old(free) != [] &&
                    free == old(free)[1..]
    {
      hide Inv;
      if free == [] {
        return 0;
      }
      PopKeeps(State(), own);
      p := free[0];
      free := free[1..];
      own := own[p := Held];
    }

    /** `kfree`, which refuses pages outside the range the allocator manages. */
    method Kfree(p: nat) returns (panic: bool)
      modifies this`free, this`mem
      ensures panic <==> p < first || p >= PHYSPAGES
      ensures !panic ==> free == [p] + old(free) && mem == old(mem)[p := Junk()]
    {
      if p < first || p >= PHYSPAGES {
        return true;
      }
      mem := mem[p := Junk()];
      free := [p] + free;
      return false;
    }

    /** `walkpgdir`: the page table for virtual page a, or 0. */
    method Walkpgdir(d: nat, a: nat, alloc: bool) returns (t: nat)
      requires Valid() && IsDir(own, d) && a < VPAGES
      modifies this`free, this`mem, this`own
      ensures Valid() && IsDir(own, d) && d in mem && Grew(old(own), own, d)
      ensures t == 0 ==>
                State() == old(State()) && own == old(own) && !Present(mem[d][a / ENTRIES]) && (alloc ==> free == [])
      ensures t != 0 ==> Present(mem[d][a / ENTRIES]) && PageOf(mem[d][a / ENTRIES]) == t && t in mem
      ensures t != 0 ==> Flags(mem[d][a / ENTRIES]) == 7
      ensures !alloc || (d in old(mem) && Present(old(mem)[d][a / ENTRIES])) ==>
                State() == old(State()) && own == old(own)
      ensures SameLookups(old(State()), State(), old(own)) && Kept(old(State()), State(), old(own))
      ensures t != 0 ==> Paid(old(State()), State(), d, {a / ENTRIES}, 0)
    {
      hide Inv, Lookup, Paid, Entry, Present, PageOf, Flags;
      ghost var vm, o := State(), own;
      var i := a / ENTRIES;
      DirBacked(vm, o, d);
      Backed(vm, o);
      if Present(mem[d][i]) {
        t := PageOf(mem[d][i]);
        TableBacked(vm, o, d, i);
        PaidPresent(vm, d, i);
        return;
      }
      if !alloc {
        return 0;
      }
      t := MakeTable(d, i);
    }

    /** The part of `walkpgdir` that makes a table: a zeroed page, present, writable and for users. */
    method MakeTable(d: nat, i: nat) returns (t: nat)
      requires Valid() && IsDir(own, d) && i < ENTRIES && (d in mem ==> !Present(mem[d][i]))
      modifies this`free, this`mem, this`own
      ensures Valid() && IsDir(own, d) && d in mem && Grew(old(own), own, d)
      ensures t == 0 <==> old(free) == []
      ensures t == 0 ==> State() == old(State()) && own == old(own)
      ensures t != 0 ==>
                && Present(mem[d][i]) && PageOf(mem[d][i]) == t && Flags(mem[d][i]) == 7 && t in mem
                && Paid(old(State()), State(), d, {i}, 0)
      ensures SameLookups(old(State()), State(), old(own)) && Kept(old(State()), State(), old(own))
    {
      hide Inv, Paid, Entry, Present, PageOf, Flags, Grew, Kept, SameLookups;
      ghost var vm, o := State(), own;
      DirBacked(vm, o, d);
      Unchanged(vm, o, d);
      t := Kalloc();
      if t == 0 {
        return;
      }
      ghost var e := State();
      DirBacked(State(), own, d);
      HeldAside(State(), own, t, Zeros());
      mem := mem[t := Zeros()];
      var w := Entry(t, 7);
      EntryParts(t, 7);
      ghost var f := State();
      TableKeeps(f, own, d, i, t, w);
      Backed(f, own);
      mem := mem[d := mem[d][i := w]];
      own := own[t := Table(d, i)];
      StillDirs(o, t, own);
      TableMade(vm, e, f, State(), o, d, i, t, w);
      assert own == o[t := Table(d, i)];
      PaidTable(vm, State(), d, i, w);
    }

    /** One turn of the loop of `mappages`: map virtual page a to physical page p. */
    method MapPage(d: nat, a: nat, p: nat, perm: nat) returns (ok: bool, remap: bool)
      requires Valid() && IsDir(own, d) && a < VPAGES && perm < 4096
      requires a >= USERPAGES || (p in own && own[p] == Held)
      modifies this`free, this`mem, this`own
      ensures Valid() && IsDir(own, d) && (remap <==> Present(old(At(mem, d, a)))) && (remap ==> !ok)
      ensures !ok ==> State() == old(State()) && own == old(own)
      ensures !ok && !remap ==> free == [] && a / ENTRIES !in Tables(mem, d)
      ensures ok ==> Paid(old(State()), State(), d, {a / ENTRIES}, 0)
      ensures ok ==> At(mem, d, a) == Entry(p, WithP(perm)) && SameOutside(old(State()), State(), old(own), d, a, a + 1)
      ensures ok && a >= USERPAGES ==> Grew(old(own), own, d)
      ensures ok && a < USERPAGES ==>
                p in own && own[p] == User(d, a / ENTRIES, a % ENTRIES) && Grew(old(own), own[p := Held], d)
      ensures Kept(old(State()), State(), old(own))
    {
      hide Inv, Lookup, Entry, Present, PageOf, Paid;
      ghost var vm, o := State(), own;
      EntryNeedsTable(mem, d, a);
      var t := Walkpgdir(d, a, true);
      if t == 0 {
        return false, false;
      }
      ghost var e, n := State(), own;
      EntryParts(p, WithP(perm));
      var w := Entry(p, WithP(perm));
      SameIsSame(vm, e, o, d, a, a);
      StoreAt(e, n, d, a, w);
      WalkKeptHeld(o, n, d, p);
      if Present(mem[t][a % ENTRIES]) {
        return false, true;
      }
      EntryParts(p, perm);
      if a >= USERPAGES {
        MapKernelKeeps(e, n, d, a / ENTRIES, a % ENTRIES, w);
      } else {
        MapUserKeeps(e, n, d, a / ENTRIES, a % ENTRIES, p, w);
        own := own[p := User(d, a / ENTRIES, a % ENTRIES)];
      }
      mem := mem[t := mem[t][a % ENTRIES := w]];
      Chain(vm, e, State(), o, n, d, a, a, a, a + 1);
      PaidOn(vm, e, State(), n, d, t, {a / ENTRIES});
      return true, false;
    }

    /** `mappages`: user pages are mapped one at a time, kernel ranges page by page until memory
        runs out or a page turns out to be mapped already (the remap panic).  The first done pages
        of the range are mapped in order, nothing else changes. */
    method Mappages(d: nat, va: nat, size: nat, pa: nat, perm: nat) returns (r: int, remap: bool, ghost done: nat)
      requires Valid() && IsDir(own, d) && perm < 4096 && pa % PGSIZE == 0 && 0 < size && va + size <= ADDRS
      requires va / PGSIZE >= USERPAGES ||
               (va / PGSIZE == (va + size - 1) / PGSIZE && pa / PGSIZE in own && own[pa / PGSIZE] == Held)
      modifies this`free, this`mem, this`own
      ensures Valid() && IsDir(own, d)
      ensures var a, n := va / PGSIZE, (va + size - 1) / PGSIZE - va / PGSIZE + 1;
              && done <= n && r == (if done == n then 0 else -1)
              && (remap <==> done < n && Present(At(old(mem), d, a + done)))
              && (forall v :: a <= v < a + done ==> !Present(At(old(mem), d, v)))
              && (done == 0 ==> State() == old(State()) && own == old(own))
              && Paid(old(State()), State(), d, Dirs(a, a + done), 0)
              && (done < n && !remap ==> free == [] && (a + done) / ENTRIES !in Tables(mem, d))
              && SameOutside(old(State()), State(), old(own), d, a, a + done)
              && MappedRun(State(), d, a, done, pa / PGSIZE, WithP(perm))
              && (a >= USERPAGES || done == 0 ==> Grew(old(own), own, d))
              && (a < USERPAGES && done > 0 ==>
                    pa / PGSIZE in own && own[pa / PGSIZE] == User(d, a / ENTRIES, a % ENTRIES) &&
                    Grew(old(own), own[pa / PGSIZE := Held], d))
      ensures Kept(old(State()), State(), old(own))
    {
      hide Inv, Lookup, Entry, Present, PageOf, At, Paid, Dirs, Tables, SameOutside, Kept;
      ghost var vm, o := State(), own;
      DirBacked(vm, o, d);
      NothingPaid(vm, d, va / PGSIZE);
      NothingKept(vm, o, d, va / PGSIZE);
      var a, last, p := va / PGSIZE, (va + size - 1) / PGSIZE, pa / PGSIZE;
      ghost var start := a;
      done := 0;
      Backed(vm, o);
      while true
        invariant Valid() && IsDir(own, d) && start <= a <= last < VPAGES && done == a - start
        invariant p == pa / PGSIZE + done
        invariant SameOutside(vm, State(), o, d, start, a)
        invariant MappedRun(State(), d, start, done, pa / PGSIZE, WithP(perm))
        invariant Grew(o, own, d) && Kept(vm, State(), o) && Paid(vm, State(), d, Dirs(start, a), 0)
        invariant start < USERPAGES ==> start == last
        invariant done == 0 ==> own == o && State() == vm
        invariant forall v :: start <= v < a ==> !Present(At(vm.mem, d, v))
        decreases last - a
      {
        ghost var e, n := State(), own;
        WalkKeptHeld(o, n, d, p);
        SameHere(vm, e, o, d, start, a);
        var ok;
        ok, remap := MapPage(d, a, p, perm);
        if !ok {
          return -1, remap, done;
        }
        Chain(vm, e, State(), o, n, d, start, a, a, a + 1);
        RunGrows(e, State(), n, d, start, done, pa / PGSIZE, WithP(perm));
        PaidTwice(vm, e, State(), d, Dirs(start, a), 0, {a / ENTRIES}, 0);
        DirsNext(start, a);
        done := done + 1;
        if a == last {
          break;
        }
        GrewTwice(o, n, own, d);
        a := a + 1;
        p := p + 1;
      }
      return 0, false, done;
    }

    /** One turn of the loop of `deallocuvm` where there is a table t: free the page, clear the entry. */
    method DeallocPage(d: nat, a: nat, t: nat) returns (panic: bool)
      requires Valid() && IsDir(own, d) && a < USERPAGES && d in mem
      requires Present(mem[d][a / ENTRIES]) && PageOf(mem[d][a / ENTRIES]) == t && t in mem
      modifies this`free, this`mem, this`own
      ensures Valid() && !panic && Cleared(old(State()), State(), old(own), own, d, a, a + 1)
    {
      hide Inv, Lookup, Entry, Present, PageOf;
      ghost var vm, o := State(), own;
      EntryParts(0, 0);
      StoreAt(vm, o, d, a, 0);
      Backed(vm, o);
      if !Present(mem[t][a % ENTRIES]) {
        NoneToFree(vm, o, d, a, a + 1);
        return false;
      }
      var p := PageOf(mem[t][a % ENTRIES]);
      UnmapKeeps(vm, o, d, a / ENTRIES, a % ENTRIES);
      Backed(vm, o);
      if p == 0 {
        return true;
      }
      panic := Kfree(p);
      mem := mem[t := mem[t][a % ENTRIES := 0]];
      ghost var e, n := SetWord(vm, t, a % ENTRIES, 0), o[p := Held];
      PushKeeps(e, n, p, Junk());
      assert State() == VM([p] + e.free, e.mem[p := Junk()]);
      own := n[p := Free];
      FreedOne(vm, o, d, a, p);
      SameIsSame(e, State(), n, d, a, a);
      UnmapChain(vm, e, State(), o, n, d, a, p);
    }

    /** `deallocuvm`: exactly the user pages of d between the two sizes go back to the free list. */
    method Deallocuvm(d: nat, oldsz: nat, newsz: nat) returns (r: nat, panic: bool)
      requires Valid() && IsDir(own, d) && oldsz <= KERNBASE
      modifies this`free, this`mem, this`own
      ensures Valid() && !panic && IsDir(own, d)
      ensures newsz >= oldsz ==> r == oldsz && State() == old(State()) && own == old(own)
      ensures newsz < oldsz ==>
                r == newsz && Cleared(old(State()), State(), old(own), own, d, RoundUp(newsz), RoundUp(oldsz))
    {
      hide Inv, Lookup, Entry, Present, PageOf, At, Cleared, Freed;
      ghost var vm, o := State(), own;
      Backed(vm, o);
      if newsz >= oldsz {
        return oldsz, false;
      }
      var a := RoundUp(newsz);
      ghost var lo, hi := a, RoundUp(oldsz);
      ghost var b := a;
      ClearedNothing(vm, o, d, lo);
      while a * PGSIZE < oldsz
        invariant lo <= b <= hi <= USERPAGES && b == (if a < hi then a else hi) && Valid() && IsDir(own, d)
        invariant Cleared(vm, State(), o, own, d, lo, b)
        decreases oldsz - a * PGSIZE
      {
        ghost var e, n := State(), own;
        var t := Walkpgdir(d, a, false);
        if t == 0 {
          a := (a / ENTRIES + 1) * ENTRIES - 1;
          NoTable(e, n, d, b, if a + 1 < hi then a + 1 else hi);
        } else {
          panic := DeallocPage(d, a, t);
        }
        a := a + 1;
        ghost var c := if a < hi then a else hi;
        ClearedMore(vm, e, State(), o, n, own, d, lo, b, c);
        b := c;
      }
      return newsz, false;
    }

    /** `freevm`: every page of the address space goes back, and no other page. */
    method Freevm(d: nat) returns (panic: bool)
      requires Valid() && IsDir(own, d)
      modifies this`free, this`mem, this`own
      ensures Valid() && !panic && own == Gone(old(own), d) && Untouched(old(State()), State(), own)
    {
      hide Inv, Lookup, Entry, Present, PageOf, At, Cleared, Freed, Untouched, TablesGone, Gone, Retired;
      ghost var vm, o := State(), own;
      var r;
      r, panic := Deallocuvm(d, KERNBASE, 0);
      ghost var e, n := State(), own;
      RetireKeeps(e, n, d);
      assert Cleared(vm, e, o, n, d, 0, USERPAGES);
      StartGone(vm, e, o, n, d);
      ClearedUses(vm, e, o, n, d);
      StartUses(vm, o, n, d);
      own := Retired(n, d);
      DirsLeft(o, n, d, 0);
      var i := 0;
      while i < ENTRIES
        invariant 0 <= i <= ENTRIES && Valid() && own == TablesGone(n, d, i)
        invariant d in mem && d in e.mem && mem[d] == e.mem[d] && Untouched(vm, State(), Gone(o, d))
      {
        if Present(mem[d][i]) {
          var p := PageOf(mem[d][i]);
          ghost var f, q := State(), own;
          TableHeld(e, n, d, i, o);
          DirsLeft(o, n, d, i);
          panic := Kfree(p);
          PushKeeps(f, q, p, Junk());
          own := own[p := Free];
          UntouchedMore(vm, f, State(), o, q, d, p);
        } else {
          NoTableHere(e, n, d, i);
        }
        i := i + 1;
      }
      ghost var f, q := State(), own;
      LastGone(n, d, o);
      DirsLeft(o, n, d, ENTRIES);
      panic := Kfree(d);
      PushKeeps(f, q, d, Junk());
      own := own[d := Free];
      UntouchedMore(vm, f, State(), o, q, d, d);
    }

    /** `setupkvm`: a new address space with the kernel's mappings and an empty user half, or
        nothing at all. */
    method Setupkvm() returns (d: nat, panic: bool)
      requires Valid()
      modifies this`free, this`mem, this`own
      ensures Valid() && !panic && Untouched(old(State()), State(), old(own))
      ensures d == 0 ==> own == old(own)
      ensures d != 0 ==> d in old(own) && old(own)[d] == Free && IsDir(own, d) && SpaceGrew(old(own), own, d)
      ensures d != 0 ==> KernelHalf(State(), d, kmap, |kmap|)
      ensures d != 0 <==> |old(free)| >= 1 + |RowTables(kmap, |kmap|)|
      ensures d != 0 ==>
                Tables(mem, d) == RowTables(kmap, |kmap|) && |old(free)| == |free| + 1 + |RowTables(kmap, |kmap|)|
    {
      hide Inv, Lookup, Entry, Present, PageOf, At, Untouched, Gone, KernelHalf, KmapOk, Grew, SpaceGrew;
      hide Paid, Tables, Dirs, RowTables, RowsPaid, MappedRun;
      ghost var vm, o := State(), own;
      d := Kalloc();
      if d == 0 {
        NothingTouched(vm, o);
        return 0, false;
      }
      HeldAside(State(), own, d, Zeros());
      mem := mem[d := Zeros()];
      NewDirKeeps(State(), own, d);
      Backed(vm, o);
      own := own[d := Dir];
      NewSpace(vm, State(), o, own, d, kmap);
      ghost var e0 := State();
      RowsStart(e0, d, kmap);
      var k := 0;
      while k < |kmap|
        invariant 0 <= k <= |kmap| && Valid() && IsDir(own, d) && d > 0
        invariant SpaceGrew(o, own, d) && Untouched(vm, State(), o) && KernelHalf(State(), d, kmap, k)
        invariant RowsPaid(e0, State(), d, kmap, k)
      {
        ghost var e, n := State(), own;
        RowReady(e, d, kmap, k);
        var row := kmap[k];
        var r, remap;
        ghost var done;
        r, remap, done := Mappages(d, row.virt * PGSIZE, row.count * PGSIZE, row.phys * PGSIZE, row.perm);
        SpaceGrewMore(o, n, own, d);
        UntouchedStep(vm, e, State(), o, n, d, row.virt, row.virt + done);
        if r < 0 {
          RowsStuck(e0, e, State(), d, kmap, k, done);
          UndoSpace(vm, o, own, d);
          ghost var f := State();
          panic := Freevm(d);
          UntouchedTwice(vm, f, State(), o);
          return 0, false;
        }
        RowDone(e, State(), n, d, kmap, k);
        RowsNext(e0, e, State(), d, kmap, k);
        k := k + 1;
      }
      RowsNow(e0, State(), d, kmap, |kmap|);
      return d, false;
    }

    /** Get a page, fill it and map it at user page a, as `allocuvm` and `copyuvm` both do.  When
        there is no memory for the table the filled page p is still held; remap is the panic. */
    method FillAndMap(d: nat, a: nat, content: Page, perm: nat) returns (p: nat, r: int, remap: bool)
      requires Valid() && IsDir(own, d) && a < USERPAGES && perm < 4096
      modifies this`free, this`mem, this`own
      ensures Valid() && (p == 0 <==> old(free) == []) && (remap <==> p != 0 && Present(At(old(mem), d, a)))
      ensures !remap ==> IsDir(own, d) && Kept(old(State()), State(), old(own))
      ensures p == 0 ==> State() == old(State()) && own == old(own)
      ensures p != 0 ==> p in old(own) && old(own)[p] == Free
      ensures !remap && p != 0 && r < 0 ==> |old(free)| == 1 && a / ENTRIES !in Tables(old(mem), d)
      ensures !remap && p != 0 && r >= 0 ==> Paid(old(State()), State(), d, {a / ENTRIES}, 1)
      ensures !remap && p != 0 && r < 0 ==>
                own == old(own)[p := Held] && SameOutside(old(State()), State(), old(own), d, a, a)
      ensures !remap && p != 0 && r >= 0 ==>
                AllocGrew(old(own), own, d, a, a + 1) && SameOutside(old(State()), State(), old(own), d, a, a + 1) &&
                Filled(State(), old(own), own, d, a, content, WithP(perm))
    {
      hide Inv, Lookup, Entry, Present, PageOf, Flags, At, Grew, Paid, Tables, Dirs;
      ghost var vm, o := State(), own;
      Backed(vm, o);
      p := Kalloc();
      if p == 0 {
        r, remap := -1, false;
        return;
      }
      HeldAside(State(), own, p, content);
      mem := mem[p := content];
      ghost var e, n := State(), own;
      SameIsSame(vm, e, n, d, a, a);
      assert At(e.mem, d, a) == At(vm.mem, d, a);
      ghost var done;
      r, remap, done := Mappages(d, a * PGSIZE, PGSIZE, p * PGSIZE, perm);
      if remap {
        return;
      }
      EntryParts(p, perm);
      EntryParts(p, WithP(perm));
      FilledUp(vm, e, State(), o, n, own, d, a, p, content, perm, done);
      FilledPaid(vm, e, State(), d, a, p, done);
    }

    /** `allocuvm`: all the pages asked for, zeroed and writable by the user, or none in that range, not
        even those that were there before.  It panics exactly when it comes to a page that is mapped. */
    method Allocuvm(d: nat, oldsz: nat, newsz: nat) returns (r: nat, panic: bool, ghost ok: bool)
      requires Valid() && IsDir(own, d) && oldsz < ADDRS && newsz < ADDRS
      modifies this`free, this`mem, this`own
      ensures Valid()
      ensures newsz >= KERNBASE ==> !panic && r == 0 && State() == old(State()) && own == old(own)
      ensures newsz < KERNBASE && newsz < oldsz ==>
                !panic && r == oldsz && State() == old(State()) && own == old(own)
      ensures oldsz <= newsz < KERNBASE ==>
                var lo, v := RoundUp(oldsz), FirstPresent(old(mem), d, RoundUp(oldsz), RoundUp(newsz));
                (panic <==> v < RoundUp(newsz) && |old(free)| + |old(Tables(mem, d))| >=
                                                  v - lo + 1 + |old(Tables(mem, d)) + Dirs(lo, v)|)
      ensures oldsz <= newsz < KERNBASE && !panic ==>
                var lo, hi, o := RoundUp(oldsz), RoundUp(newsz), old(own);
                && IsDir(own, d) && SameOutside(old(State()), State(), o, d, lo, hi)
                && if ok then r == newsz && AllocGrew(o, own, d, lo, hi) && Kept(old(State()), State(), o) &&
                              forall v :: lo <= v < hi ==> Filled(State(), o, own, d, v, Zeros(), 7)
                   else r == 0 && Grew(Freed(o, d, lo, hi), own, d) &&
                        Kept(old(State()), State(), Freed(o, d, lo, hi)) &&
                        forall v :: lo <= v < hi ==> !Present(At(mem, d, v))
      ensures oldsz <= newsz < KERNBASE && !panic ==>
                (ok <==> |old(free)| + |old(Tables(mem, d))| >=
                         RoundUp(newsz) - RoundUp(oldsz) + |old(Tables(mem, d)) + Dirs(RoundUp(oldsz), RoundUp(newsz))|)
      ensures oldsz <= newsz < KERNBASE ==>
                var lo, hi := RoundUp(oldsz), RoundUp(newsz);
                FirstPresent(old(mem), d, lo, hi) == hi ==> Freed(old(own), d, lo, hi) == old(own)
      ensures oldsz <= newsz < KERNBASE && !panic && ok ==>
                forall v :: RoundUp(oldsz) <= v < RoundUp(newsz) ==> AccessTo(mem, d, v) == Allowed(true, true)
    {
      hide Inv, Lookup, Entry, Present, PageOf, Flags, At, Grew, AllocGrew, Filled, Cleared, SameOutside, Kept;
      hide Freed, Paid, Tables, Dirs, FirstPresent, AccessTo;
      ghost var vm, o := State(), own;
      DirBacked(vm, o, d);
      NothingPaid(vm, d, RoundUp(oldsz));
      NothingKept(vm, o, d, RoundUp(oldsz));
      ok, panic := true, false;
      if newsz >= KERNBASE {
        return 0, false, true;
      }
      if newsz < oldsz {
        return oldsz, false, true;
      }
      var a := RoundUp(oldsz);
      ghost var lo, hi := a, RoundUp(newsz);
      ghost var there := FirstPresent(mem, d, lo, hi);
      if there == hi {
        NoneToFree(vm, o, d, lo, hi);
      }
      while a * PGSIZE < newsz
        invariant lo <= a <= there <= hi <= USERPAGES && Valid() && IsDir(own, d)
        invariant AllocGrew(o, own, d, lo, a) && SameOutside(vm, State(), o, d, lo, a) && Kept(vm, State(), o)
        invariant forall v :: lo <= v < a ==> Filled(State(), o, own, d, v, Zeros(), 7)
        invariant Paid(vm, State(), d, Dirs(lo, a), a - lo)
      {
        ghost var e, n := State(), own;
        SameHere(vm, e, o, d, lo, a);
        PaidAndOne(vm, e, d, lo, a);
        EntryNeedsTable(e.mem, d, a);
        var p, ret, remap := FillAndMap(d, a, Zeros(), PTE_W + PTE_U);
        if remap {
          return 0, true, false;
        }
        if p == 0 || ret < 0 {
          OutOfPages(vm, e, d, lo, a, hi, a - lo);
          if a < there {
            OutOfPages(vm, e, d, lo, a, there, a - lo);
          }
          HeldSoFar(vm, e, State(), o, n, own, d, lo, a, p);
          panic := UndoAlloc(d, oldsz, newsz, p, vm, o, n, a);
          return 0, false, false;
        }
        AllocStep(vm, e, State(), o, n, own, d, lo, a);
        PaidTwice(vm, e, State(), d, Dirs(lo, a), a - lo, {a / ENTRIES}, 1);
        DirsNext(lo, a);
        a := a + 1;
      }
      PaidEnough(vm, State(), d, Dirs(lo, hi), hi - lo);
      UserWritable(State(), o, own, d, lo, hi);
      return newsz, false, true;
    }

    /** `copyuvm`: a child with its own copy of every page of the first sz bytes, same contents,
        same flags, or nothing at all.  It panics exactly when it comes to a page that is not there. */
    method Copyuvm(d: nat, sz: nat) returns (c: nat, panic: bool)
      requires Valid() && IsDir(own, d) && sz <= KERNBASE
      modifies this`free, this`mem, this`own
      ensures Valid()
      ensures var a := FirstAbsent(old(mem), d, RoundUp(sz));
              panic <==> a < RoundUp(sz) && |old(free)| >= CopyNeeds(kmap, a)
      ensures !panic ==> Untouched(old(State()), State(), old(own))
      ensures !panic && c == 0 ==> own == old(own)
      ensures !panic && c != 0 ==> c in old(own) && old(own)[c] == Free && IsDir(own, c) && SpaceGrew(old(own), own, c)
      ensures !panic && c != 0 ==>
                forall v :: 0 <= v < RoundUp(sz) ==> Copied(old(State()), State(), old(own), own, d, c, v)
      ensures !panic && c != 0 ==> forall v :: RoundUp(sz) <= v < USERPAGES ==> At(mem, c, v) == 0
      ensures !panic && c != 0 ==>
                forall v :: 0 <= v < RoundUp(sz) ==> AccessTo(mem, c, v) == AccessTo(old(mem), d, v) != NoAccess
      ensures !panic && c != 0 ==> KernelRows(State(), c, kmap)
      ensures !panic ==> (c != 0 <==> |old(free)| >= CopyNeeds(kmap, RoundUp(sz)))
    {
      hide Inv, Lookup, Entry, Present, PageOf, Flags, At, Untouched, KernelHalf, SpaceGrew, AllocGrew, Filled;
      hide KernelRows, Copied, SameOutside, Kept, KmapOk, FirstAbsent, AccessTo;
      hide Paid, Tables, Dirs, RowTables;
      ghost var vm, o := State(), own;
      ghost var absent := FirstAbsent(mem, d, RoundUp(sz));
      CopyNeedsMore(kmap, absent, RoundUp(sz));
      c, panic := Setupkvm();
      if c == 0 {
        return 0, false;
      }
      ghost var e0 := State();
      DirBacked(e0, own, c);
      NothingPaid(e0, c, 0);
      EmptyUserHalf(State(), c, kmap);
      HalfHasRows(State(), c, kmap);
      var a := 0;
      while a * PGSIZE < sz
        invariant 0 <= a <= RoundUp(sz) && a <= absent && Valid() && IsDir(own, c)
        invariant SpaceGrew(o, own, c) && Untouched(vm, State(), o)
        invariant forall v :: 0 <= v < a ==> Copied(vm, State(), o, own, d, c, v)
        invariant forall v :: a <= v < USERPAGES ==> At(mem, c, v) == 0
        invariant KernelRows(State(), c, kmap)
        invariant Paid(e0, State(), c, Dirs(0, a), a)
      {
        ghost var e, n := State(), own;
        PaidEnough(e0, e, c, Dirs(0, a), a);
        SourceTable(vm, e, o, n, d, c, a);
        EntryNeedsTable(e.mem, d, a);
        var t := Walkpgdir(d, a, false);
        if t == 0 {
          panic := true;
          return;
        }
        var pte := mem[t][a % ENTRIES];
        if !Present(pte) {
          panic := true;
          return;
        }
        Source(vm, e, o, n, d, c, a);
        var p, r, remap := FillAndMap(c, a, mem[PageOf(pte)], Flags(pte));
        if p == 0 || r < 0 {
          OutOfPages(e0, e, c, 0, a, RoundUp(sz), a);
          OutOfPages(e0, e, c, 0, a, absent, a);
          BadCopy(vm, e, State(), o, n, c, a, p);
          panic := UndoCopy(c, p, vm, o, n);
          return 0, false;
        }
        CopyStep(vm, e, State(), o, n, own, d, c, a);
        KernelStays(e, State(), n, c, a, a + 1, kmap);
        PaidTwice(e0, e, State(), c, Dirs(0, a), a, {a / ENTRIES}, 1);
        DirsNext(0, a);
        a := a + 1;
      }
      PaidEnough(e0, State(), c, Dirs(0, a), a);
      SameAccess(vm, State(), o, own, d, c, a);
      return c, false;
    }

    /** The failure exits of `copyuvm`: free the page in hand, if any, and the new address space. */
    method UndoCopy(c: nat, p: nat, ghost vm: VM, ghost o: map<nat, Use>, ghost n: map<nat, Use>) returns (panic: bool)
      requires Valid() && IsDir(own, c) && Untouched(vm, State(), o) && Inv(vm, o)
      requires c in o && o[c] == Free && SpaceGrew(o, n, c) && IsDir(n, c)
      requires if p == 0 then own == n else p in n && n[p] == Free && own == n[p := Held]
      modifies this`free, this`mem, this`own
      ensures Valid() && !panic && own == o && Untouched(vm, State(), o)
    {
      hide Inv, Untouched, SpaceGrew, Gone;
      if p != 0 {
        ghost var f, q := State(), own;
        panic := GiveBack(p);
        UntouchedPush(vm, f, State(), o, n, q, c, p);
        assert own == n;
      }
      UndoSpace(vm, o, n, c);
      ghost var g := State();
      panic := Freevm(c);
      UntouchedTwice(vm, g, State(), o);
    }

    /** The two failure exits of `allocuvm`: undo the pages mapped so far and, if a page p is
        in hand, free it. */
    method UndoAlloc(d: nat, oldsz: nat, newsz: nat, p: nat, ghost vm: VM, ghost o: map<nat, Use>,
                     ghost n: map<nat, Use>, ghost a: nat)
        returns (panic: bool)
      requires Valid() && IsDir(own, d) && oldsz < newsz < KERNBASE && RoundUp(oldsz) <= a <= RoundUp(newsz)
      requires AllocGrew(o, n, d, RoundUp(oldsz), a)
      requires SameOutside(vm, State(), o, d, RoundUp(oldsz), a) && Kept(vm, State(), o)
      requires if p == 0 then own == n else p in n && n[p] == Free && own == n[p := Held]
      modifies this`free, this`mem, this`own
      ensures Valid() && IsDir(own, d) && !panic
      ensures var z := Freed(o, d, RoundUp(oldsz), RoundUp(newsz)); Kept(vm, State(), z) && Grew(z, own, d)
      ensures SameOutside(vm, State(), o, d, RoundUp(oldsz), RoundUp(newsz))
      ensures forall v :: RoundUp(oldsz) <= v < RoundUp(newsz) ==> !Present(At(mem, d, v))
    {
      hide Inv, Lookup, Entry, Present, PageOf, Flags, At, Grew, AllocGrew, Cleared, SameOutside, Kept, Freed;
      ghost var lo, hi := RoundUp(oldsz), RoundUp(newsz);
      ghost var e, q := State(), own;
      UsesUndone(o, n, q, d, lo, a, hi, p);
      var x;
      x, panic := Deallocuvm(d, newsz, oldsz);
      FramesUndone(vm, e, State(), o, q, own, d, lo, a, hi);
      if p != 0 {
        ghost var f, g := State(), own;
        panic := GiveBack(p);
        FramesPushed(vm, f, State(), o, g, d, lo, hi, p);
      }
    }

    /** `kfree` of a page in hand. */
    method GiveBack(p: nat) returns (panic: bool)
      requires Valid() && p in own && own[p] == Held
      modifies this`free, this`mem, this`own
      ensures Valid() && !panic && own == old(own)[p := Free] && mem == old(mem)[p := Junk()]
      ensures SameLookups(old(State()), State(), old(own))
    {
      hide Inv, Lookup;
      ghost var vm, o := State(), own;
      panic := Kfree(p);
      PushKeeps(vm, o, p, Junk());
      own := own[p := Free];
    }
  }
}
