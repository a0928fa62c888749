/** What the operations on page tables change and leave alone: the flat view of the tables, the
    frames of single steps, and how they add up. */
module PageFrames {
  import opened Collections
  import opened PageModel

  const PGSIZE := 4096
  const KERNBASE := 0x8000_0000
  const ADDRS := 0x1_0000_0000
  const USERPAGES := USERDIR * ENTRIES
  const VPAGES := ENTRIES * ENTRIES
  const PHYSPAGES := 0xE00_0000 / PGSIZE

  /** What `kfree` fills a page with. */
  function Junk(): (r: Page)
    ensures forall i :: 0 <= i < ENTRIES ==> r[i] == 0x0101_0101
  {
    seq(ENTRIES, i => 0x0101_0101)
  }

  /** The translation of virtual page v: the flat view of the two-level table. */
  function At(mem: map<nat, Page>, d: nat, v: nat): nat { Lookup(mem, d, v / ENTRIES, v % ENTRIES) }

  /** The number of pages that a bytes need. */
  function RoundUp(a: nat): (n: nat)
    ensures n * PGSIZE >= a && (n > 0 ==> (n - 1) * PGSIZE < a)
  {
    (a + PGSIZE - 1) / PGSIZE
  }

  // ---------------------------------------------------------------- what a process may do

  predicate Bit(w: nat, f: nat)
    requires f > 0
  {
    w / f % 2 == 1
  }

  datatype Access = NoAccess | Allowed(user: bool, write: bool)

  /** What the hardware allows at virtual page v: what directory entry and table entry both allow. */
  function AccessTo(mem: map<nat, Page>, d: nat, v: nat): Access {
    if d in mem && v / ENTRIES < ENTRIES && Bit(mem[d][v / ENTRIES], 1) && Bit(At(mem, d, v), 1) then
      var e, t := mem[d][v / ENTRIES], At(mem, d, v);
      Allowed(Bit(e, 4) && Bit(t, 4), Bit(e, 2) && Bit(t, 2))
    else NoAccess
  }

  /** In every address space the tables alone decide. */
  lemma AccessByTable(vm: VM, own: map<nat, Use>, d: nat, v: nat)
    requires Inv(vm, own) && IsDir(own, d) && v < VPAGES
    ensures AccessTo(vm.mem, d, v) ==
            if Present(At(vm.mem, d, v)) then Allowed(Bit(At(vm.mem, d, v), 4), Bit(At(vm.mem, d, v), 2)) else NoAccess
  {
    EntryNeedsTable(vm.mem, d, v);
    if Present(At(vm.mem, d, v)) {
      var e := vm.mem[d][v / ENTRIES];
      assert Flags(e) == 7;
      LowBits(e);
    }
  }

  /** The three flags are the low bits of the flag part. */
  lemma LowBits(w: nat)
    ensures Bit(w, 1) == (Flags(w) % 2 == 1) && Bit(w, 2) == (Flags(w) / 2 % 2 == 1)
    ensures Bit(w, 4) == (Flags(w) / 4 % 2 == 1)
  {
    var q, r := w / 4096, w % 4096;
    assert w == 4096 * q + r;
    assert w / 2 == 2048 * q + r / 2;
    assert w / 4 == 1024 * q + r / 4;
  }

  /** Same flags, same access. */
  lemma AccessByFlags(vm: VM, o: map<nat, Use>, d: nat, e: VM, n: map<nat, Use>, c: nat, v: nat)
    requires Inv(vm, o) && IsDir(o, d) && Inv(e, n) && IsDir(n, c) && v < VPAGES
    requires Present(At(vm.mem, d, v)) && Present(At(e.mem, c, v)) && Flags(At(e.mem, c, v)) == Flags(At(vm.mem, d, v))
    ensures AccessTo(e.mem, c, v) == AccessTo(vm.mem, d, v) != NoAccess
  {
    AccessByTable(vm, o, d, v);
    AccessByTable(e, n, c, v);
    LowBits(At(vm.mem, d, v));
    LowBits(At(e.mem, c, v));
  }

  /** Flags 7 let the user read and write. */
  lemma AccessOfSeven(vm: VM, o: map<nat, Use>, d: nat, v: nat)
    requires Inv(vm, o) && IsDir(o, d) && v < VPAGES && Present(At(vm.mem, d, v)) && Flags(At(vm.mem, d, v)) == 7
    ensures AccessTo(vm.mem, d, v) == Allowed(true, true)
  {
    AccessByTable(vm, o, d, v);
    LowBits(At(vm.mem, d, v));
  }

  /** One row of the kernel's mapping table, in pages. */
  datatype KMap = KMap(virt: nat, phys: nat, count: nat, perm: nat)

  ghost predicate KmapOk(kmap: seq<KMap>) {
    && (forall k :: 0 <= k < |kmap| ==>
          && kmap[k].virt >= USERPAGES && kmap[k].count > 0 && kmap[k].virt + kmap[k].count <= VPAGES
          && kmap[k].phys + kmap[k].count <= VPAGES && kmap[k].perm < 4096)
    && (forall j, k :: 0 <= j < k < |kmap| ==>
          kmap[j].virt + kmap[j].count <= kmap[k].virt || kmap[k].virt + kmap[k].count <= kmap[j].virt)
  }

  /** Contents of user pages and of pages in hand are untouched. */
  ghost predicate Kept(a: VM, b: VM, own: map<nat, Use>) {
    forall p :: p in own && (own[p].User? || own[p] == Held) ==> p in a.mem && p in b.mem && b.mem[p] == a.mem[p]
  }

  /** From o to n, only free pages have become tables of d. */
  ghost predicate Grew(o: map<nat, Use>, n: map<nat, Use>, d: nat) {
    && n.Keys == o.Keys
    && forall p :: p in o ==> n[p] == o[p] || (o[p] == Free && n[p].Table? && n[p].dir == d)
  }

  /** Translations of all address spaces agree, except for pages lo..hi of d. */
  ghost predicate SameOutside(a: VM, b: VM, own: map<nat, Use>, d: nat, lo: nat, hi: nat) {
    forall x, v :: IsDir(own, x) && 0 <= v < VPAGES && (x != d || v < lo || hi <= v) ==>
        At(b.mem, x, v) == At(a.mem, x, v)
  }

  lemma SameIsSame(a: VM, b: VM, own: map<nat, Use>, d: nat, lo: nat, hi: nat)
    requires SameLookups(a, b, own)
    ensures SameOutside(a, b, own, d, lo, hi)
  {
    forall x, v | IsDir(own, x) && 0 <= v < VPAGES
      ensures At(b.mem, x, v) == At(a.mem, x, v)
    {
    }
  }

  lemma EntryNeedsTable(mem: map<nat, Page>, d: nat, a: nat)
    ensures Present(At(mem, d, a)) ==> d in mem && a / ENTRIES < ENTRIES && Present(mem[d][a / ENTRIES])
  {
  }

  lemma StoreAt(vm: VM, own: map<nat, Use>, d: nat, a: nat, w: nat)
    requires Inv(vm, own) && IsDir(own, d) && a < VPAGES && d in vm.mem && Present(vm.mem[d][a / ENTRIES])
    ensures var t := PageOf(vm.mem[d][a / ENTRIES]);
            && t in own && t in vm.mem && own[t].Table?
            && var e := SetWord(vm, t, a % ENTRIES, w);
               SameOutside(vm, e, own, d, a, a + 1) && At(e.mem, d, a) == w && Kept(vm, e, own) &&
                   vm.mem[t][a % ENTRIES] == At(vm.mem, d, a)
  {
    var i, j := a / ENTRIES, a % ENTRIES;
    StoreChangesOne(vm, own, d, i, j, w);
    hide Present, PageOf, Inv;
    var t := PageOf(vm.mem[d][i]);
    var e := SetWord(vm, t, j, w);
    forall x, v | IsDir(own, x) && 0 <= v < VPAGES && (x != d || v < a || a + 1 <= v)
      ensures At(e.mem, x, v) == At(vm.mem, x, v)
    {
      assert v / ENTRIES == i && v % ENTRIES == j ==> v == a;
    }
    Backed(vm, own);
  }

  lemma Backed(vm: VM, own: map<nat, Use>)
    requires Inv(vm, own)
    ensures forall p :: p in own ==> p in vm.mem && p > 0
  {
  }

  /** The pages lo..hi are free and there are no others. */
  ghost predicate Fresh(vm: VM, own: map<nat, Use>, lo: nat, hi: nat) {
    && (forall p :: p in own <==> lo <= p < hi)
    && (forall p :: p in own ==> own[p] == Use.Free && p in vm.mem)
    && |vm.free| == hi - lo && forall k :: 0 <= k < |vm.free| ==> vm.free[k] == hi - 1 - k
  }

  lemma FreshMore(vm: VM, e: VM, lo: nat, p: nat, own: map<nat, Use>)
    requires lo <= p && p in own && Fresh(vm, own - {p}, lo, p) && own[p] == Use.Free
    requires e.free == [p] + vm.free && e.mem == vm.mem[p := Junk()]
    ensures Fresh(e, own, lo, p + 1)
  {
    forall q
      ensures q in own <==> lo <= q < p + 1
      ensures q in own ==> own[q] == Use.Free && q in e.mem
    {
      assert q != p ==> (q in own <==> q in own - {p});
    }
  }

  lemma FreshInv(vm: VM, own: map<nat, Use>, lo: nat, hi: nat)
    requires Fresh(vm, own, lo, hi) && 0 < lo <= hi
    ensures Inv(vm, own)
  {
    hide Lookup, Present, PageOf;
    forall p | p in own
      ensures p in vm.free
    {
      assert vm.free[hi - 1 - p] == p;
    }
    assert FreeOk(vm, own);
  }

  /** The rows of `kmap`: I/O space, kernel text, kernel data and memory, devices. */
  function KernelMap(dataPage: nat): seq<KMap>
    requires 0x80100 < dataPage < 0x80000 + PHYSPAGES
  {
    [KMap(0x80000, 0, 0x100, PTE_W), KMap(0x80100, 0x100, dataPage - 0x80100, 0),
     KMap(dataPage, dataPage - 0x80000, PHYSPAGES - (dataPage - 0x80000), PTE_W), KMap(0xFE000, 0xFE000, 0x2000, PTE_W)]
  }

  /** The kernel's rows do not overlap and lie in the kernel half, wherever its data starts. */
  lemma KernelMapOk(dataPage: nat)
    requires 0x80100 < dataPage < 0x80000 + PHYSPAGES
    ensures KmapOk(KernelMap(dataPage))
  {
  }

  /** From o to n, only free pages have come into use: as tables of d and for its pages lo..hi. */
  ghost predicate AllocGrew(o: map<nat, Use>, n: map<nat, Use>, d: nat, lo: nat, hi: nat) {
    && n.Keys == o.Keys
    && forall p :: p in o ==>
         || n[p] == o[p]
         || (o[p] == Free && n[p].Table? && n[p].dir == d)
         || (o[p] == Free && n[p].User? && n[p].dir == d && lo <= n[p].pdx * ENTRIES + n[p].ptx < hi)
  }

  /** User page v of d is a page of its own that was free, with these contents and flags. */
  ghost predicate Filled(e: VM, o: map<nat, Use>, n: map<nat, Use>, d: nat, v: nat, content: Page, flags: nat) {
    var w := At(e.mem, d, v);
    var p := PageOf(w);
    && Present(w) && Flags(w) == flags && p in e.mem && e.mem[p] == content
    && p in n && n[p] == User(d, v / ENTRIES, v % ENTRIES) && p in o && o[p] == Free
  }

  lemma FilledUp(vm: VM, e: VM, f: VM, o: map<nat, Use>, n: map<nat, Use>, q: map<nat, Use>, d: nat, a: nat, p: nat,
                 content: Page, perm: nat, done: nat)
    requires perm < 4096 && p in o && o[p] == Free && n == o[p := Held] && e.mem == vm.mem[p := content] && IsDir(o, d)
    requires (forall x :: x in o ==> x in vm.mem) && SameOutside(vm, e, n, d, a, a) && Kept(e, f, n)
    requires a < USERPAGES && done <= 1
    requires SameOutside(e, f, n, d, a, a + done) && MappedRun(f, d, a, done, p, WithP(perm))
    requires done == 1 ==> p in q && q[p] == User(d, a / ENTRIES, a % ENTRIES) && Grew(n, q[p := Held], d)
    ensures Kept(vm, f, o) && SameOutside(vm, f, o, d, a, a + done)
    ensures done == 1 ==> AllocGrew(o, q, d, a, a + 1) && Filled(f, o, q, d, a, content, WithP(perm))
  {
    EntryParts(p, perm);
    EntryParts(p, WithP(perm));
    hide At, Entry, PageOf, Present, Flags;
    assert forall x :: IsDir(o, x) ==> IsDir(n, x);
    if done == 1 {
      assert At(f.mem, d, a) == Entry(p, WithP(perm));
      assert a / ENTRIES * ENTRIES + a % ENTRIES == a;
      assert q[p := Held].Keys == q.Keys == o.Keys;
      assert forall x :: x in o && x != p ==> q[x] == q[p := Held][x];
    }
  }

  lemma NothingKept(vm: VM, o: map<nat, Use>, d: nat, lo: nat)
    requires Inv(vm, o)
    ensures Kept(vm, vm, o) && SameOutside(vm, vm, o, d, lo, lo) && AllocGrew(o, o, d, lo, lo)
  {
    Backed(vm, o);
  }

  lemma SameHere(vm: VM, e: VM, o: map<nat, Use>, d: nat, lo: nat, a: nat)
    requires SameOutside(vm, e, o, d, lo, a) && IsDir(o, d) && a < VPAGES
    ensures At(e.mem, d, a) == At(vm.mem, d, a)
  {
    hide At;
  }

  lemma UsesUndone(o: map<nat, Use>, n: map<nat, Use>, q: map<nat, Use>, d: nat, lo: nat, a: nat, hi: nat, p: nat)
    requires AllocGrew(o, n, d, lo, a) && lo <= a <= hi
    requires if p == 0 then q == n else p in n && n[p] == Free && q == n[p := Held]
    ensures Grew(Freed(o, d, lo, hi), Freed(n, d, lo, hi), d)
    ensures q.Keys == o.Keys && forall x :: x in o ==> q[x] == o[x] || o[x] == Free
    ensures p == 0 ==> Freed(q, d, lo, hi) == Freed(n, d, lo, hi)
    ensures p != 0 ==> p in Freed(q, d, lo, hi) && Freed(q, d, lo, hi)[p] == Held && p in o && o[p] == Free
    ensures p != 0 ==> Freed(q, d, lo, hi)[p := Free] == Freed(n, d, lo, hi)
    ensures forall x :: IsDir(o, x) ==> IsDir(Freed(q, d, lo, hi), x)
  {
    GrewBack(o, n, d, lo, a, hi);
    hide Grew;
    if p != 0 {
      HeldBack(n, d, lo, hi, p);
    }
  }

  lemma GrewBack(o: map<nat, Use>, n: map<nat, Use>, d: nat, lo: nat, a: nat, hi: nat)
    requires AllocGrew(o, n, d, lo, a) && lo <= a <= hi
    ensures Grew(Freed(o, d, lo, hi), Freed(n, d, lo, hi), d)
  {
  }

  lemma HeldBack(n: map<nat, Use>, d: nat, lo: nat, hi: nat, p: nat)
    requires p in n && n[p] == Free
    ensures Freed(n[p := Held], d, lo, hi)[p := Free] == Freed(n, d, lo, hi)
  {
  }

  lemma FramesUndone(vm: VM, e: VM, f: VM, o: map<nat, Use>, n: map<nat, Use>, q: map<nat, Use>, d: nat, lo: nat,
                     a: nat, hi: nat)
    requires SameOutside(vm, e, o, d, lo, a) && Kept(vm, e, o) && lo <= a <= hi
    requires n.Keys == o.Keys && forall p :: p in o ==> n[p] == o[p] || o[p] == Free
    requires Cleared(e, f, n, q, d, lo, hi)
    ensures SameOutside(vm, f, o, d, lo, hi) && Kept(vm, f, Freed(o, d, lo, hi))
    ensures forall v :: lo <= v < hi ==> !Present(At(f.mem, d, v))
    ensures q == Freed(n, d, lo, hi)
  {
    hide At, Present;
    assert forall x :: IsDir(o, x) ==> IsDir(n, x);
    var z := Freed(o, d, lo, hi);
    assert forall p :: p in z && (z[p].User? || z[p] == Held) ==> o[p] == z[p] && q[p] == z[p];
  }

  lemma HeldSoFar(vm: VM, e: VM, f: VM, o: map<nat, Use>, n: map<nat, Use>, q: map<nat, Use>, d: nat, lo: nat, a: nat,
                  p: nat)
    requires SameOutside(vm, e, o, d, lo, a) && Kept(vm, e, o) && AllocGrew(o, n, d, lo, a) && Kept(e, f, n)
    requires if p == 0 then f == e && q == n else SameOutside(e, f, n, d, a, a)
    ensures SameOutside(vm, f, o, d, lo, a) && Kept(vm, f, o)
  {
    hide At;
    assert forall x :: IsDir(o, x) ==> IsDir(n, x);
  }

  lemma FramesPushed(vm: VM, f: VM, g: VM, o: map<nat, Use>, q: map<nat, Use>, d: nat, lo: nat, hi: nat, p: nat)
    requires SameOutside(vm, f, o, d, lo, hi) && Kept(vm, f, Freed(o, d, lo, hi))
    requires SameLookups(f, g, q) && g.mem == f.mem[p := Junk()]
    requires p in o && o[p] == Free && IsDir(q, d) && hi <= VPAGES && forall x :: IsDir(o, x) ==> IsDir(q, x)
    ensures SameOutside(vm, g, o, d, lo, hi) && Kept(vm, g, Freed(o, d, lo, hi))
    ensures forall v :: lo <= v < hi ==> At(g.mem, d, v) == At(f.mem, d, v)
  {
    SameIsSame(f, g, q, d, 0, 0);
    hide At, SameLookups;
  }

  lemma AllocStep(vm: VM, e: VM, f: VM, o: map<nat, Use>, n: map<nat, Use>, q: map<nat, Use>, d: nat, lo: nat, a: nat)
    requires lo <= a < USERPAGES && IsDir(o, d)
    requires AllocGrew(o, n, d, lo, a) && SameOutside(vm, e, o, d, lo, a) && Kept(vm, e, o)
    requires AllocGrew(n, q, d, a, a + 1) && SameOutside(e, f, n, d, a, a + 1) && Kept(e, f, n)
    requires forall v :: lo <= v < a ==> Filled(e, o, n, d, v, Zeros(), 7)
    requires Filled(f, n, q, d, a, Zeros(), 7)
    ensures AllocGrew(o, q, d, lo, a + 1) && SameOutside(vm, f, o, d, lo, a + 1) && Kept(vm, f, o)
    ensures forall v :: lo <= v < a + 1 ==> Filled(f, o, q, d, v, Zeros(), 7)
  {
    hide At, Present, PageOf, Flags;
    assert forall x :: IsDir(o, x) ==> IsDir(n, x);
    forall v | lo <= v < a
      ensures Filled(f, o, q, d, v, Zeros(), 7)
    {
      assert Filled(e, o, n, d, v, Zeros(), 7);
      assert At(f.mem, d, v) == At(e.mem, d, v);
      var p := PageOf(At(e.mem, d, v));
      assert p in n && n[p].User?;
      assert q[p] == n[p] && f.mem[p] == e.mem[p];
    }
  }

  /** Page v of c is a copy of page v of d as it was, with the same flags. */
  ghost predicate Copied(vm: VM, e: VM, o: map<nat, Use>, n: map<nat, Use>, d: nat, c: nat, v: nat) {
    var w := At(vm.mem, d, v);
    PageOf(w) in vm.mem && Filled(e, o, n, c, v, vm.mem[PageOf(w)], Flags(w))
  }

  /** So whatever the parent may do at page v, the child may. */
  lemma SameAccess(vm: VM, e: VM, o: map<nat, Use>, n: map<nat, Use>, d: nat, c: nat, hi: nat)
    requires Inv(vm, o) && IsDir(o, d) && Inv(e, n) && IsDir(n, c) && hi <= USERPAGES
    requires forall v :: 0 <= v < hi ==> Present(At(vm.mem, d, v)) && Copied(vm, e, o, n, d, c, v)
    ensures forall v :: 0 <= v < hi ==> AccessTo(e.mem, c, v) == AccessTo(vm.mem, d, v) != NoAccess
  {
    hide Inv, At, Present, Flags, PageOf, AccessTo;
    forall v | 0 <= v < hi
      ensures AccessTo(e.mem, c, v) == AccessTo(vm.mem, d, v) != NoAccess
    {
      assert Copied(vm, e, o, n, d, c, v);
      AccessByFlags(vm, o, d, e, n, c, v);
    }
  }

  lemma UserWritable(e: VM, o: map<nat, Use>, n: map<nat, Use>, d: nat, lo: nat, hi: nat)
    requires Inv(e, n) && IsDir(n, d) && hi <= USERPAGES
    requires forall v :: lo <= v < hi ==> Filled(e, o, n, d, v, Zeros(), 7)
    ensures forall v :: lo <= v < hi ==> AccessTo(e.mem, d, v) == Allowed(true, true)
  {
    hide Inv, At, Present, Flags, PageOf, AccessTo;
    forall v | lo <= v < hi
      ensures AccessTo(e.mem, d, v) == Allowed(true, true)
    {
      assert Filled(e, o, n, d, v, Zeros(), 7);
      AccessOfSeven(e, n, d, v);
    }
  }

  lemma EmptyUserHalf(e: VM, c: nat, kmap: seq<KMap>)
    requires KernelHalf(e, c, kmap, |kmap|) && KmapOk(kmap)
    ensures forall v :: 0 <= v < USERPAGES ==> At(e.mem, c, v) == 0
  {
    hide At;
    assert forall v :: 0 <= v < USERPAGES ==> !InRows(kmap, |kmap|, v);
  }

  /** The first of n pages of d that is not there, or n. */
  function FirstAbsent(mem: map<nat, Page>, d: nat, n: nat): (v: nat)
    ensures v <= n && (v < n ==> !Present(At(mem, d, v))) && forall u :: 0 <= u < v ==> Present(At(mem, d, u))
  {
    if n == 0 then 0
    else
      var v := FirstAbsent(mem, d, n - 1);
      if v < n - 1 || !Present(At(mem, d, n - 1)) then v else n
  }

  /** The first page of d from lo on that is there, or hi. */
  function FirstPresent(mem: map<nat, Page>, d: nat, lo: nat, hi: nat): (v: nat)
    requires lo <= hi
    ensures lo <= v <= hi && (v < hi ==> Present(At(mem, d, v))) && forall u :: lo <= u < v ==> !Present(At(mem, d, u))
    decreases hi - lo
  {
    if lo == hi || Present(At(mem, d, lo)) then lo else FirstPresent(mem, d, lo + 1, hi)
  }

  /** While the child is made, the parent's tables are as before. */
  lemma SourceTable(vm: VM, e: VM, o: map<nat, Use>, n: map<nat, Use>, d: nat, c: nat, a: nat)
    requires Inv(vm, o) && Inv(e, n) && IsDir(o, d) && a < USERPAGES && Untouched(vm, e, o) && SpaceGrew(o, n, c)
    ensures IsDir(n, d) && d in e.mem && At(e.mem, d, a) == At(vm.mem, d, a)
    ensures Present(e.mem[d][a / ENTRIES]) ==>
            PageOf(e.mem[d][a / ENTRIES]) in e.mem &&
            e.mem[PageOf(e.mem[d][a / ENTRIES])][a % ENTRIES] == At(vm.mem, d, a)
  {
    DirBacked(e, n, d);
    if Present(e.mem[d][a / ENTRIES]) {
      TableBacked(e, n, d, a / ENTRIES);
    }
  }

  /** What `copyuvm` reads for page a of the parent is what was there at the start. */
  lemma Source(vm: VM, e: VM, o: map<nat, Use>, n: map<nat, Use>, d: nat, c: nat, a: nat)
    requires Inv(vm, o) && Inv(e, n) && IsDir(o, d) && a < USERPAGES && Present(At(vm.mem, d, a))
    requires Untouched(vm, e, o) && SpaceGrew(o, n, c) && At(e.mem, c, a) == 0
    ensures IsDir(n, d) && d in e.mem && !Present(At(e.mem, c, a)) && Flags(At(vm.mem, d, a)) < 4096
    ensures Present(e.mem[d][a / ENTRIES]) && PageOf(e.mem[d][a / ENTRIES]) in e.mem
    ensures e.mem[PageOf(e.mem[d][a / ENTRIES])][a % ENTRIES] == At(vm.mem, d, a)
    ensures var p := PageOf(At(vm.mem, d, a)); p in e.mem && p in vm.mem && e.mem[p] == vm.mem[p]
    ensures WithP(Flags(At(vm.mem, d, a))) == Flags(At(vm.mem, d, a))
  {
    var w := At(vm.mem, d, a);
    PresentFlags(w);
    EntryParts(0, 0);
    hide Present, PageOf, Flags;
    assert At(e.mem, d, a) == w;
    assert o[PageOf(w)] == User(d, a / ENTRIES, a % ENTRIES);
    assert IsDir(n, d);
    Backed(e, n);
  }

  lemma PresentFlags(w: nat)
    requires Present(w)
    ensures Flags(w) < 4096 && WithP(Flags(w)) == Flags(w)
  {
  }

  lemma BadCopy(vm: VM, e: VM, f: VM, o: map<nat, Use>, n: map<nat, Use>, c: nat, a: nat, p: nat)
    requires Untouched(vm, e, o) && SpaceGrew(o, n, c) && Kept(e, f, n) && c in o && o[c] == Free
    requires if p == 0 then f == e else SameOutside(e, f, n, c, a, a)
    ensures Untouched(vm, f, o)
  {
    if p != 0 {
      UntouchedStep(vm, e, f, o, n, c, a, a);
    }
  }

  lemma UntouchedPush(vm: VM, f: VM, g: VM, o: map<nat, Use>, n: map<nat, Use>, q: map<nat, Use>, c: nat, p: nat)
    requires Untouched(vm, f, o) && SpaceGrew(o, n, c) && p in n && n[p] == Free && q == n[p := Held]
    requires SameLookups(f, g, q) && g.mem == f.mem[p := Junk()]
    ensures Untouched(vm, g, o)
  {
    SameIsSame(f, g, q, 0, 0, 0);
    hide At, SameLookups;
    assert forall x :: IsDir(o, x) ==> IsDir(q, x);
  }

  lemma CopyStep(vm: VM, e: VM, f: VM, o: map<nat, Use>, n: map<nat, Use>, q: map<nat, Use>, d: nat, c: nat, a: nat)
    requires a < USERPAGES && IsDir(n, c) && c in o && o[c] == Free
    requires SpaceGrew(o, n, c) && Untouched(vm, e, o)
    requires AllocGrew(n, q, c, a, a + 1) && SameOutside(e, f, n, c, a, a + 1) && Kept(e, f, n)
    requires forall v :: 0 <= v < a ==> Copied(vm, e, o, n, d, c, v)
    requires forall v :: a <= v < USERPAGES ==> At(e.mem, c, v) == 0
    requires PageOf(At(vm.mem, d, a)) in vm.mem
    requires Filled(f, n, q, c, a, vm.mem[PageOf(At(vm.mem, d, a))], Flags(At(vm.mem, d, a)))
    ensures SpaceGrew(o, q, c) && Untouched(vm, f, o)
    ensures forall v :: 0 <= v < a + 1 ==> Copied(vm, f, o, q, d, c, v)
    ensures forall v :: a + 1 <= v < USERPAGES ==> At(f.mem, c, v) == 0
  {
    UntouchedStep(vm, e, f, o, n, c, a, a + 1);
    hide At, Present, PageOf, Flags, Untouched;
    forall v | 0 <= v < a + 1
      ensures Copied(vm, f, o, q, d, c, v)
    {
      if v < a {
        assert Copied(vm, e, o, n, d, c, v);
        assert At(f.mem, c, v) == At(e.mem, c, v);
        var p := PageOf(At(e.mem, c, v));
        assert p in n && n[p].User?;
        assert q[p] == n[p] && f.mem[p] == e.mem[p];
      }
    }
  }

  // ---------------------------------------------------------------- what it comes to

  /** Translations of user addresses never share a physical page, within one address space or
      between two, and never reach a free page. */
  lemma NoSharing(vm: VM, own: map<nat, Use>, d: nat, v: nat, e: nat, w: nat)
    requires Inv(vm, own) && IsDir(own, d) && IsDir(own, e) && v < USERPAGES && w < USERPAGES
    requires Present(At(vm.mem, d, v)) && Present(At(vm.mem, e, w))
    ensures PageOf(At(vm.mem, d, v)) == PageOf(At(vm.mem, e, w)) <==> d == e && v == w
    ensures PageOf(At(vm.mem, d, v)) !in vm.free
  {
    hide Present, PageOf, Lookup;
    assert v == v / ENTRIES * ENTRIES + v % ENTRIES && w == w / ENTRIES * ENTRIES + w % ENTRIES;
  }

  /** Every page handed to the allocator is free, in hand, or used by exactly one address space. */
  lemma Partition(vm: VM, own: map<nat, Use>, p: nat)
    requires Inv(vm, own) && p in own
    ensures p in vm.free || own[p] == Held || exists d :: IsDir(own, d) && UsedBy(own[p], p, d)
    ensures p in vm.free ==> own[p] != Held && forall d :: !UsedBy(own[p], p, d)
    ensures forall d, e :: UsedBy(own[p], p, d) && UsedBy(own[p], p, e) ==> d == e
  {
    hide Present, PageOf, Lookup;
    match own[p]
    case Dir => assert UsedBy(own[p], p, p);
    case Table(d, i) => assert UsedBy(own[p], p, d);
    case User(d, i, j) => assert UsedBy(own[p], p, d);
    case _ =>
  }

  /** From o to n, only free pages have come into use, all for d. */
  ghost predicate SpaceGrew(o: map<nat, Use>, n: map<nat, Use>, d: nat) {
    && n.Keys == o.Keys
    && forall p :: p in o ==> n[p] == o[p] || (o[p] == Free && UsedBy(n[p], p, d))
  }

  /** The first k rows of the kernel's table are mapped and nothing else is. */
  ghost predicate KernelHalf(vm: VM, d: nat, kmap: seq<KMap>, k: nat) {
    && k <= |kmap|
    && (forall j :: 0 <= j < k ==> MappedRun(vm, d, kmap[j].virt, kmap[j].count, kmap[j].phys, WithP(kmap[j].perm)))
    && (forall v :: 0 <= v < VPAGES && !InRows(kmap, k, v) ==> At(vm.mem, d, v) == 0)
  }

  /** The kernel half as every address space has it: the rows of the map and nothing else. */
  ghost predicate KernelRows(vm: VM, d: nat, kmap: seq<KMap>) {
    && (forall j :: 0 <= j < |kmap| ==>
          MappedRun(vm, d, kmap[j].virt, kmap[j].count, kmap[j].phys, WithP(kmap[j].perm)))
    && (forall v :: USERPAGES <= v < VPAGES && !InRows(kmap, |kmap|, v) ==> At(vm.mem, d, v) == 0)
  }

  lemma HalfHasRows(vm: VM, d: nat, kmap: seq<KMap>)
    requires KernelHalf(vm, d, kmap, |kmap|)
    ensures KernelRows(vm, d, kmap)
  {
    hide At, MappedRun;
  }

  /** Changes below KERNBASE leave the kernel half alone. */
  lemma KernelStays(e: VM, f: VM, own: map<nat, Use>, d: nat, lo: nat, hi: nat, kmap: seq<KMap>)
    requires KernelRows(e, d, kmap) && KmapOk(kmap)
    requires SameOutside(e, f, own, d, lo, hi) && hi <= USERPAGES && IsDir(own, d)
    ensures KernelRows(f, d, kmap)
  {
    hide At;
    forall j | 0 <= j < |kmap|
      ensures MappedRun(f, d, kmap[j].virt, kmap[j].count, kmap[j].phys, WithP(kmap[j].perm))
    {
      assert MappedRun(e, d, kmap[j].virt, kmap[j].count, kmap[j].phys, WithP(kmap[j].perm));
    }
  }

  predicate InRow(r: KMap, v: nat) { r.virt <= v < r.virt + r.count }

  ghost predicate InRows(kmap: seq<KMap>, k: nat, v: nat)
    requires k <= |kmap|
  {
    exists j :: 0 <= j < k && InRow(kmap[j], v)
  }

  /** What the kernel sees in every address space: all physical memory from KERNBASE on, writable except for
      its own text, the devices at the top where they are, and nothing else; and none of it is the user's. */
  lemma KernelSees(vm: VM, own: map<nat, Use>, d: nat, dataPage: nat, v: nat)
    requires Inv(vm, own) && IsDir(own, d) && 0x80100 < dataPage < 0x80000 + PHYSPAGES && v < VPAGES
    requires KernelRows(vm, d, KernelMap(dataPage))
    ensures 0x80000 <= v < 0x80000 + PHYSPAGES ==>
              && PageOf(At(vm.mem, d, v)) == v - 0x80000
              && AccessTo(vm.mem, d, v) == Allowed(false, !(0x80100 <= v < dataPage))
    ensures 0xFE000 <= v ==> PageOf(At(vm.mem, d, v)) == v && AccessTo(vm.mem, d, v) == Allowed(false, true)
    ensures 0x80000 + PHYSPAGES <= v < 0xFE000 ==> AccessTo(vm.mem, d, v) == NoAccess
  {
    var m := KernelMap(dataPage);
    AccessByTable(vm, own, d, v);
    hide Inv, At, AccessTo, Entry, PageOf, Present, Flags, Bit, WithP;
    EntryParts(0, 0);
    if j :| 0 <= j < |m| && InRow(m[j], v) {
      var p, f := m[j].phys + (v - m[j].virt), WithP(m[j].perm);
      assert MappedRun(vm, d, m[j].virt, m[j].count, m[j].phys, f);
      assert At(vm.mem, d, v) == Entry(p, f);
      RowFlags(p, m[j].perm);
      assert j == 0 || j == 1 || j == 2 || j == 3;
    } else if v >= 0x80000 {
      assert !InRows(m, |m|, v);
      assert !InRow(m[0], v) && !InRow(m[1], v) && !InRow(m[2], v) && !InRow(m[3], v);
    }
  }

  lemma RowFlags(p: nat, perm: nat)
    requires perm == 0 || perm == PTE_W
    ensures var w := Entry(p, WithP(perm)); PageOf(w) == p && Present(w) && !Bit(w, 4) && (Bit(w, 2) <==> perm == PTE_W)
  {
    EntryParts(p, WithP(perm));
    LowBits(Entry(p, WithP(perm)));
  }

  lemma NothingTouched(vm: VM, o: map<nat, Use>)
    requires Inv(vm, o)
    ensures Untouched(vm, vm, o)
  {
    Backed(vm, o);
  }

  lemma NewSpace(vm: VM, e: VM, o: map<nat, Use>, n: map<nat, Use>, d: nat, kmap: seq<KMap>)
    requires Inv(vm, o) && d in o && o[d] == Free && n == o[d := Held][d := Dir] && d in vm.mem
    requires e.mem == vm.mem[d := Zeros()] && SameLookups(vm, e, o[d := Held])
    requires forall i, j :: 0 <= i < ENTRIES && 0 <= j < ENTRIES ==> Lookup(e.mem, d, i, j) == 0
    ensures SpaceGrew(o, n, d) && Untouched(vm, e, o) && KernelHalf(e, d, kmap, 0)
  {
    Backed(vm, o);
    SameIsSame(vm, e, o[d := Held], 0, 0, 0);
    hide Lookup;
    assert forall x :: IsDir(o, x) ==> IsDir(o[d := Held], x);
  }

  lemma RowReady(e: VM, d: nat, kmap: seq<KMap>, k: nat)
    requires KmapOk(kmap) && k < |kmap| && KernelHalf(e, d, kmap, k)
    ensures var r := kmap[k];
            && r.perm < 4096 && r.virt >= USERPAGES && r.count > 0 && r.virt + r.count <= VPAGES
            && forall v :: r.virt <= v < r.virt + r.count ==> !Present(At(e.mem, d, v))
  {
    EntryParts(0, 0);
    hide At, Present;
    var r := kmap[k];
    forall v | r.virt <= v < r.virt + r.count
      ensures At(e.mem, d, v) == 0
    {
      assert !InRows(kmap, k, v);
    }
  }

  lemma RowDone(e: VM, f: VM, own: map<nat, Use>, d: nat, kmap: seq<KMap>, k: nat)
    requires KmapOk(kmap) && k < |kmap| && KernelHalf(e, d, kmap, k) && IsDir(own, d)
    requires var r := kmap[k];
             SameOutside(e, f, own, d, r.virt, r.virt + r.count) &&
                 MappedRun(f, d, r.virt, r.count, r.phys, WithP(r.perm))
    ensures KernelHalf(f, d, kmap, k + 1)
  {
    hide At, Entry;
    var r := kmap[k];
    forall j | 0 <= j < k
      ensures MappedRun(f, d, kmap[j].virt, kmap[j].count, kmap[j].phys, WithP(kmap[j].perm))
    {
    }
    forall v | 0 <= v < VPAGES && !InRows(kmap, k + 1, v)
      ensures At(f.mem, d, v) == 0
    {
      assert !InRow(kmap[k], v);
      assert !InRows(kmap, k, v);
    }
  }

  lemma SpaceGrewMore(o: map<nat, Use>, n: map<nat, Use>, q: map<nat, Use>, d: nat)
    requires SpaceGrew(o, n, d) && Grew(n, q, d)
    ensures SpaceGrew(o, q, d)
  {
  }

  lemma UntouchedStep(vm: VM, e: VM, f: VM, o: map<nat, Use>, n: map<nat, Use>, d: nat, lo: nat, hi: nat)
    requires Untouched(vm, e, o) && SameOutside(e, f, n, d, lo, hi) && Kept(e, f, n) && SpaceGrew(o, n, d)
    requires d in o && o[d] == Free
    ensures Untouched(vm, f, o)
  {
    hide At;
    assert forall x :: IsDir(o, x) ==> IsDir(n, x) && x != d;
  }

  lemma UntouchedTwice(vm: VM, e: VM, f: VM, o: map<nat, Use>)
    requires Untouched(vm, e, o) && Untouched(e, f, o)
    ensures Untouched(vm, f, o)
  {
    hide At;
  }

  /** Giving a new address space up again restores every use. */
  lemma UndoSpace(vm: VM, o: map<nat, Use>, n: map<nat, Use>, d: nat)
    requires Inv(vm, o) && d in o && o[d] == Free && SpaceGrew(o, n, d)
    ensures Gone(n, d) == o
  {
    hide Lookup, Present, PageOf;
    assert forall p :: p in o ==> !UsedBy(o[p], p, d);
  }

  /** The same uses, with every page of d free. */
  function Gone(own: map<nat, Use>, d: nat): map<nat, Use> {
    map p | p in own :: if UsedBy(own[p], p, d) then Free else own[p]
  }

  /** Half-way through `freevm`: the tables below i are free, the rest of d is held. */
  function TablesGone(own: map<nat, Use>, d: nat, i: nat): map<nat, Use> {
    map p | p in own :: if own[p].Table? && own[p].dir == d && own[p].pdx < i then Free
                        else if UsedBy(own[p], p, d) then Held else own[p]
  }

  /** No translation and no contents of the uses in g has changed. */
  ghost predicate Untouched(a: VM, b: VM, g: map<nat, Use>) {
    SameOutside(a, b, g, 0, 0, 0) && Kept(a, b, g)
  }

  lemma StartGone(vm: VM, e: VM, o: map<nat, Use>, n: map<nat, Use>, d: nat)
    requires Inv(vm, o) && IsDir(o, d) && Inv(e, n) && Cleared(vm, e, o, n, d, 0, USERPAGES)
    ensures d in e.mem && Untouched(vm, e, Gone(o, d))
  {
    hide Lookup, Present, PageOf, At, UsesOk, TablesOwned, UsersOwned;
    assert forall p :: p in Gone(o, d) && (Gone(o, d)[p].User? || Gone(o, d)[p] == Held) ==> n[p] == Gone(o, d)[p];
  }

  lemma StartUses(vm: VM, o: map<nat, Use>, n: map<nat, Use>, d: nat)
    requires Inv(vm, o) && IsDir(o, d) && n == Freed(o, d, 0, USERPAGES)
    ensures Retired(n, d) == TablesGone(n, d, 0) && IsDir(n, d) && Gone(n, d) == Gone(o, d)
    ensures forall p :: p in n ==> !(n[p].User? && n[p].dir == d)
    ensures forall p :: p in n && n[p].Table? && n[p].dir == d ==> n[p].pdx < ENTRIES
  {
    hide Lookup, Present, PageOf, TablesOwned, UsersOwned, FreeOk;
    assert forall p :: p in o && o[p].User? && o[p].dir == d ==> o[p].pdx * ENTRIES + o[p].ptx < USERPAGES;
  }

  lemma TableHeld(e: VM, n: map<nat, Use>, d: nat, i: nat, o: map<nat, Use>)
    requires Inv(e, n) && IsDir(n, d) && d in e.mem && i < ENTRIES && Present(e.mem[d][i])
    requires n == Freed(o, d, 0, USERPAGES)
    ensures var p := PageOf(e.mem[d][i]);
            && p in n && p != d && p in o && UsedBy(o[p], p, d)
            && p in TablesGone(n, d, i) && TablesGone(n, d, i)[p] == Held
            && TablesGone(n, d, i)[p := Free] == TablesGone(n, d, i + 1)
  {
    hide Lookup, Present;
    var p := PageOf(e.mem[d][i]);
    assert n[p] == Table(d, i);
    assert forall q :: q in n && n[q] == Table(d, i) ==> q == p;
  }

  lemma DirsLeft(o: map<nat, Use>, n: map<nat, Use>, d: nat, i: nat)
    requires n == Freed(o, d, 0, USERPAGES)
    ensures forall x :: IsDir(Gone(o, d), x) ==> IsDir(TablesGone(n, d, i), x)
    ensures TablesGone(n, d, i).Keys == o.Keys && (IsDir(n, d) ==> d in o && UsedBy(o[d], d, d))
  {
  }

  lemma NoTableHere(e: VM, n: map<nat, Use>, d: nat, i: nat)
    requires Inv(e, n) && d in e.mem && i < ENTRIES && !Present(e.mem[d][i])
    ensures TablesGone(n, d, i) == TablesGone(n, d, i + 1)
  {
    hide Lookup, Present, PageOf;
    assert forall q :: q in n ==> n[q] != Table(d, i);
  }

  lemma LastGone(n: map<nat, Use>, d: nat, o: map<nat, Use>)
    requires IsDir(n, d) && Gone(n, d) == Gone(o, d)
    requires forall p :: p in n && n[p].Table? && n[p].dir == d ==> n[p].pdx < ENTRIES
    requires forall p :: p in n ==> !(n[p].User? && n[p].dir == d)
    ensures d in TablesGone(n, d, ENTRIES) && TablesGone(n, d, ENTRIES)[d] == Held
    ensures TablesGone(n, d, ENTRIES)[d := Free] == Gone(o, d)
  {
    assert TablesGone(n, d, ENTRIES)[d := Free] == Gone(n, d);
  }

  lemma UntouchedMore(vm: VM, f: VM, g: VM, o: map<nat, Use>, q: map<nat, Use>, d: nat, p: nat)
    requires Untouched(vm, f, Gone(o, d)) && SameLookups(f, g, q) && g.mem == f.mem[p := Junk()]
    requires p in o && UsedBy(o[p], p, d) && forall x :: IsDir(Gone(o, d), x) ==> IsDir(q, x)
    ensures Untouched(vm, g, Gone(o, d))
  {
    SameIsSame(f, g, q, 0, 0, 0);
    hide At, SameLookups;
  }

  /** From vm to e, exactly the user mappings lo..hi of d are gone and their pages given back. */
  ghost predicate Cleared(vm: VM, e: VM, o: map<nat, Use>, n: map<nat, Use>, d: nat, lo: nat, hi: nat) {
    && n == Freed(o, d, lo, hi)
    && (forall v :: lo <= v < hi ==> !Present(At(e.mem, d, v)))
    && SameOutside(vm, e, o, d, lo, hi) && Kept(vm, e, n)
  }

  lemma ClearedNothing(vm: VM, o: map<nat, Use>, d: nat, lo: nat)
    requires Inv(vm, o)
    ensures Cleared(vm, vm, o, o, d, lo, lo)
  {
    Backed(vm, o);
    FreedNothing(o, d, lo);
  }

  lemma ClearedUses(vm: VM, e: VM, o: map<nat, Use>, n: map<nat, Use>, d: nat)
    requires Cleared(vm, e, o, n, d, 0, USERPAGES)
    ensures n == Freed(o, d, 0, USERPAGES)
  {
  }

  lemma ClearedMore(vm: VM, e: VM, f: VM, o: map<nat, Use>, n: map<nat, Use>, q: map<nat, Use>, d: nat, lo: nat,
                    mid: nat, hi: nat)
    requires Cleared(vm, e, o, n, d, lo, mid) && Cleared(e, f, n, q, d, mid, hi) && lo <= mid <= hi <= VPAGES
    requires IsDir(n, d)
    ensures Cleared(vm, f, o, q, d, lo, hi) && IsDir(q, d)
  {
    hide At, Present;
    FreedTwice(o, d, lo, mid, hi);
    assert forall v :: lo <= v < mid ==> At(f.mem, d, v) == At(e.mem, d, v);
    assert forall p :: p in q && (q[p].User? || q[p] == Held) ==> n[p] == q[p];
  }

  /** Without a table there is nothing to clear up to the next one. */
  lemma NoTable(vm: VM, own: map<nat, Use>, d: nat, a: nat, b: nat)
    requires Inv(vm, own) && d in vm.mem && a <= b <= USERPAGES && b <= (a / ENTRIES + 1) * ENTRIES
    requires a / ENTRIES < ENTRIES && !Present(vm.mem[d][a / ENTRIES])
    ensures Cleared(vm, vm, own, own, d, a, b)
  {
    Backed(vm, own);
    forall v | a <= v < b
      ensures !Present(At(vm.mem, d, v))
    {
      assert v / ENTRIES == a / ENTRIES;
    }
    NoneToFree(vm, own, d, a, b);
  }

  /** The pages user mappings lo..hi of d refer to, given back. */
  function Freed(own: map<nat, Use>, d: nat, lo: nat, hi: nat): map<nat, Use> {
    map p | p in own :: if own[p].User? && own[p].dir == d && lo <= own[p].pdx * ENTRIES + own[p].ptx < hi then Free
        else own[p]
  }

  lemma FreedNothing(own: map<nat, Use>, d: nat, lo: nat)
    ensures Freed(own, d, lo, lo) == own
  {
  }

  lemma FreedTwice(own: map<nat, Use>, d: nat, lo: nat, mid: nat, hi: nat)
    requires lo <= mid <= hi
    ensures Freed(Freed(own, d, lo, mid), d, mid, hi) == Freed(own, d, lo, hi)
    ensures forall x :: IsDir(Freed(own, d, lo, mid), x) <==> IsDir(own, x)
  {
  }

  /** Where no mapping is present there is no user page. */
  lemma NoneToFree(vm: VM, own: map<nat, Use>, d: nat, lo: nat, hi: nat)
    requires Inv(vm, own) && hi <= USERPAGES && forall v :: lo <= v < hi ==> !Present(At(vm.mem, d, v))
    ensures Freed(own, d, lo, hi) == own
  {
    hide Lookup, Present, PageOf;
    forall p | p in own && own[p].User? && own[p].dir == d
      ensures !(lo <= own[p].pdx * ENTRIES + own[p].ptx < hi)
    {
      var i, j := own[p].pdx, own[p].ptx;
      var v := i * ENTRIES + j;
      assert v / ENTRIES == i && v % ENTRIES == j;
      assert Present(At(vm.mem, d, v));
    }
  }

  lemma FreedOne(vm: VM, own: map<nat, Use>, d: nat, a: nat, p: nat)
    requires Inv(vm, own) && a < USERPAGES && p in own && own[p] == User(d, a / ENTRIES, a % ENTRIES)
    ensures own[p := Held][p := Free] == Freed(own, d, a, a + 1)
  {
    hide Lookup, Present;
    var i, j := a / ENTRIES, a % ENTRIES;
    forall q | q in own && own[q].User? && own[q].dir == d && own[q].pdx * ENTRIES + own[q].ptx == a
      ensures q == p
    {
      assert own[q].ptx < ENTRIES;
      assert own[q].pdx == i && own[q].ptx == j;
    }
    assert p in own && a == i * ENTRIES + j;
  }

  lemma UnmapChain(vm: VM, e: VM, f: VM, o: map<nat, Use>, n: map<nat, Use>, d: nat, a: nat, p: nat)
    requires SameOutside(vm, e, o, d, a, a + 1) && SameOutside(e, f, n, d, a, a) && IsDir(o, d) && a < VPAGES
    requires p in o && o[p].User? && n == o[p := Held] && Kept(vm, e, o) && p in e.mem && f.mem == e.mem[p := Junk()]
    ensures SameOutside(vm, f, o, d, a, a + 1) && At(f.mem, d, a) == At(e.mem, d, a) && Kept(vm, f, n[p := Free])
  {
    hide At;
    assert forall x :: IsDir(o, x) ==> IsDir(n, x);
  }

  /** Pages a, a + 1, ... of d are mapped to consecutive physical pages with the same flags. */
  ghost predicate MappedRun(vm: VM, d: nat, a: nat, n: nat, p: nat, flags: nat) {
    forall v :: a <= v < a + n ==> At(vm.mem, d, v) == Entry(p + (v - a), flags)
  }

  lemma RunGrows(e: VM, f: VM, own: map<nat, Use>, d: nat, a: nat, n: nat, p: nat, flags: nat)
    requires MappedRun(e, d, a, n, p, flags) && SameOutside(e, f, own, d, a + n, a + n + 1) && IsDir(own, d)
    requires At(f.mem, d, a + n) == Entry(p + n, flags) && a + n < VPAGES
    ensures MappedRun(f, d, a, n + 1, p, flags)
  {
    hide At, Entry;
  }

  lemma GrewTwice(o: map<nat, Use>, n: map<nat, Use>, q: map<nat, Use>, d: nat)
    requires Grew(o, n, d) && Grew(n, q, d)
    ensures Grew(o, q, d)
  {
  }

  lemma WalkKeptHeld(o: map<nat, Use>, n: map<nat, Use>, d: nat, p: nat)
    requires Grew(o, n, d)
    ensures p in o && o[p] == Held ==> p in n && n[p] == Held
    ensures forall x :: IsDir(o, x) ==> IsDir(n, x)
  {
  }

  /** Two steps in a row change what either of them changes. */
  lemma Chain(a: VM, b: VM, c: VM, o: map<nat, Use>, n: map<nat, Use>, d: nat, lo: nat, hi: nat, lo2: nat, hi2: nat)
    requires SameOutside(a, b, o, d, lo, hi) && SameOutside(b, c, n, d, lo2, hi2) && Grew(o, n, d)
    requires Kept(a, b, o) && Kept(b, c, n) && lo <= hi && lo2 <= hi2
    ensures Kept(a, c, o)
    ensures lo == hi ==> SameOutside(a, c, o, d, lo2, hi2)
    ensures hi == lo2 ==> SameOutside(a, c, o, d, lo, hi2)
  {
    WalkKeptHeld(o, n, d, 0);
    hide At;
  }

  lemma DirBacked(vm: VM, own: map<nat, Use>, d: nat)
    requires Inv(vm, own) && IsDir(own, d)
    ensures d in vm.mem && d > 0
  {
  }

  lemma TableBacked(vm: VM, own: map<nat, Use>, d: nat, i: nat)
    requires Inv(vm, own) && IsDir(own, d) && d in vm.mem && i < ENTRIES && Present(vm.mem[d][i])
    ensures var t := PageOf(vm.mem[d][i]); t in vm.mem && t > 0 && t in own && own[t] == Table(d, i)
    ensures Flags(vm.mem[d][i]) == 7
  {
  }

  lemma Unchanged(vm: VM, o: map<nat, Use>, d: nat)
    requires Inv(vm, o)
    ensures Grew(o, o, d) && Kept(vm, vm, o) && SameLookups(vm, vm, o)
  {
    Backed(vm, o);
    hide Inv;
  }

  /** Taking a free page as a table changes no other use, no page in use and no translation. */
  lemma TableMade(vm: VM, e: VM, f: VM, g: VM, o: map<nat, Use>, d: nat, i: nat, t: nat, w: nat)
    requires Inv(vm, o) && t in o && o[t] == Free && IsDir(o, d) && d in vm.mem && i < ENTRIES
    requires e.mem == vm.mem && f.mem == vm.mem[t := Zeros()] && g.mem == f.mem[d := f.mem[d][i := w]]
    requires SameLookups(e, f, o[t := Held]) && SameLookups(f, g, o[t := Held])
    ensures Grew(o, o[t := Table(d, i)], d) && Kept(vm, g, o) && SameLookups(vm, g, o)
  {
    Backed(vm, o);
    hide Inv, Lookup;
    var p := o[t := Held];
    forall x, j, k | IsDir(o, x) && 0 <= j < ENTRIES && 0 <= k < ENTRIES
      ensures Lookup(g.mem, x, j, k) == Lookup(vm.mem, x, j, k)
    {
      assert IsDir(p, x);
      assert Lookup(f.mem, x, j, k) == Lookup(e.mem, x, j, k);
    }
  }

  lemma StillDirs(o: map<nat, Use>, t: nat, n: map<nat, Use>)
    requires t in o && o[t] == Free && n.Keys == o.Keys && forall p :: p in o && p != t ==> n[p] == o[p]
    ensures forall x :: IsDir(o, x) ==> IsDir(n, x)
  {
  }

  // ---------------------------------------------------------------- what it costs

  /** The directory entries of d that have a table. */
  ghost function Tables(mem: map<nat, Page>, d: nat): set<nat> {
    set i | 0 <= i < ENTRIES && d in mem && Present(mem[d][i])
  }

  /** The directory entries of virtual pages a up to b. */
  function Dirs(a: nat, b: nat): set<nat> {
    if b <= a then {} else Dirs(a, b - 1) + {(b - 1) / ENTRIES}
  }

  /** From vm to e, d has got tables for exactly the entries in dirs it lacked, and besides one page
      per new table the free list has lost n pages. */
  ghost predicate Paid(vm: VM, e: VM, d: nat, dirs: set<nat>, n: nat) {
    && Tables(e.mem, d) == Tables(vm.mem, d) + dirs
    && |e.free| + |Tables(e.mem, d)| + n == |vm.free| + |Tables(vm.mem, d)|
  }

  lemma PaidTwice(vm: VM, e: VM, f: VM, d: nat, x: set<nat>, m: nat, y: set<nat>, n: nat)
    requires Paid(vm, e, d, x, m) && Paid(e, f, d, y, n)
    ensures Paid(vm, f, d, x + y, m + n)
  {
    hide Tables;
    assert Tables(vm.mem, d) + x + y == Tables(vm.mem, d) + (x + y);
  }

  lemma PaidSame(vm: VM, e: VM, d: nat, n: nat)
    requires d in vm.mem && d in e.mem && e.mem[d] == vm.mem[d] && |e.free| + n == |vm.free|
    ensures Paid(vm, e, d, {}, n)
  {
    assert Tables(e.mem, d) == Tables(vm.mem, d);
  }

  lemma PaidPresent(vm: VM, d: nat, i: nat)
    requires d in vm.mem && i < ENTRIES && Present(vm.mem[d][i])
    ensures Paid(vm, vm, d, {i}, 0)
  {
    assert i in Tables(vm.mem, d);
    assert Tables(vm.mem, d) + {i} == Tables(vm.mem, d);
  }

  lemma PaidTable(vm: VM, e: VM, d: nat, i: nat, w: nat)
    requires d in vm.mem && d in e.mem && i < ENTRIES && !Present(vm.mem[d][i]) && Present(w)
    requires e.mem[d] == vm.mem[d][i := w] && |e.free| + 1 == |vm.free|
    ensures Paid(vm, e, d, {i}, 0)
  {
    hide Present;
    var x, y := Tables(vm.mem, d), Tables(e.mem, d);
    assert i !in x && y == x + {i};
  }

  /** Storing into a table costs nothing. */
  lemma PaidOn(vm: VM, e: VM, f: VM, n: map<nat, Use>, d: nat, t: nat, x: set<nat>)
    requires Paid(vm, e, d, x, 0) && IsDir(n, d) && t in n && n[t].Table? && f.free == e.free
    requires t in e.mem && t in f.mem && d in e.mem && f.mem == e.mem[t := f.mem[t]]
    ensures Paid(vm, f, d, x, 0)
  {
    assert Tables(f.mem, d) == Tables(e.mem, d);
  }

  lemma NothingPaid(vm: VM, d: nat, a: nat)
    requires d in vm.mem
    ensures Paid(vm, vm, d, Dirs(a, a), 0)
  {
    PaidSame(vm, vm, d, 0);
  }

  lemma FilledPaid(vm: VM, e: VM, f: VM, d: nat, a: nat, p: nat, done: nat)
    requires d in vm.mem && p != d && p in e.mem && e.mem == vm.mem[p := e.mem[p]] && |vm.free| == |e.free| + 1
    requires done <= 1 && Paid(e, f, d, Dirs(a, a + done), 0)
    ensures done == 1 ==> Paid(vm, f, d, {a / ENTRIES}, 1)
    ensures Tables(e.mem, d) == Tables(vm.mem, d)
  {
    PaidSame(vm, e, d, 1);
    if done == 1 {
      PaidTwice(vm, e, f, d, {}, 1, Dirs(a, a + 1), 0);
      assert Dirs(a, a) == {};
      assert {} + Dirs(a, a + 1) == {a / ENTRIES};
    }
    assert Tables(e.mem, d) == Tables(vm.mem, d);
  }

  lemma PaidEnough(vm: VM, e: VM, d: nat, x: set<nat>, n: nat)
    requires Paid(vm, e, d, x, n)
    ensures |vm.free| + |Tables(vm.mem, d)| >= n + |Tables(vm.mem, d) + x|
  {
  }

  lemma DirsNext(a: nat, b: nat)
    requires a <= b
    ensures Dirs(a, b + 1) == Dirs(a, b) + {b / ENTRIES}
  {
  }

  lemma {:induction false} DirsMore(a: nat, b: nat, c: nat)
    requires a <= b <= c
    ensures Dirs(a, b) <= Dirs(a, c)
    ensures b < c ==> b / ENTRIES in Dirs(a, c)
  {
    if b < c {
      DirsMore(a, b, c - 1);
    }
  }

  /** Stuck for page b of a run that goes on to c: there were too few pages for the whole run. */
  lemma TooFew(vm: VM, e: VM, d: nat, a: nat, b: nat, c: nat, n: nat, more: nat)
    requires a <= b < c && Paid(vm, e, d, Dirs(a, b), n)
    requires |e.free| < more + (if b / ENTRIES in Tables(e.mem, d) then 0 else 1)
    ensures |vm.free| + |Tables(vm.mem, d)| < n + more + |Tables(vm.mem, d) + Dirs(a, c)|
  {
    hide Tables;
    var x := Tables(vm.mem, d);
    DirsMore(a, b, c);
    var all := x + Dirs(a, c);
    SubsetCard(x + Dirs(a, b), all);
    if b / ENTRIES !in Tables(e.mem, d) {
      var y := x + Dirs(a, b) + {b / ENTRIES};
      assert |y| == |x + Dirs(a, b)| + 1;
      SubsetCard(y, all);
    }
  }

  /** The next user page of a run and its table cannot be paid for. */
  lemma OutOfPages(vm: VM, e: VM, d: nat, a: nat, b: nat, c: nat, n: nat)
    requires a <= b < c && Paid(vm, e, d, Dirs(a, b), n) && n == b - a
    requires e.free == [] || (|e.free| == 1 && b / ENTRIES !in Tables(e.mem, d))
    ensures |vm.free| + |Tables(vm.mem, d)| < c - a + |Tables(vm.mem, d) + Dirs(a, c)|
  {
    hide Tables, Dirs, Paid;
    TooFew(vm, e, d, a, b, c, n, 1);
  }

  /** What the first pages of the range cost, and a page in hand on top. */
  lemma PaidAndOne(vm: VM, e: VM, d: nat, a: nat, b: nat)
    requires a <= b && Paid(vm, e, d, Dirs(a, b), b - a)
    ensures e.free != [] <==> |vm.free| + |Tables(vm.mem, d)| >= b - a + 1 + |Tables(vm.mem, d) + Dirs(a, b)|
  {
    hide Tables, Dirs;
  }

  /** The directory entries the first k rows of the kernel's table need. */
  function RowTables(kmap: seq<KMap>, k: nat): set<nat>
    requires k <= |kmap|
  {
    if k == 0 then {} else RowTables(kmap, k - 1) + Dirs(kmap[k - 1].virt, kmap[k - 1].virt + kmap[k - 1].count)
  }

  lemma {:induction false} RowTablesMore(kmap: seq<KMap>, j: nat, k: nat)
    requires j <= k <= |kmap|
    ensures RowTables(kmap, j) <= RowTables(kmap, k)
  {
    if j < k {
      RowTablesMore(kmap, j, k - 1);
    }
  }

  /** e is the state with the new, empty directory d; then the rows are paid for one after the other. */
  ghost predicate RowsPaid(e: VM, f: VM, d: nat, kmap: seq<KMap>, k: nat) {
    k <= |kmap| && Tables(e.mem, d) == {} && Paid(e, f, d, RowTables(kmap, k), 0)
  }

  lemma RowsStart(e: VM, d: nat, kmap: seq<KMap>)
    requires d in e.mem && e.mem[d] == Zeros()
    ensures RowsPaid(e, e, d, kmap, 0)
  {
    EntryParts(0, 0);
    hide Present;
    assert forall i :: 0 <= i < ENTRIES ==> e.mem[d][i] == 0;
    assert Tables(e.mem, d) == {};
  }

  lemma RowsNext(e: VM, f: VM, g: VM, d: nat, kmap: seq<KMap>, k: nat)
    requires RowsPaid(e, f, d, kmap, k) && k < |kmap|
    requires Paid(f, g, d, Dirs(kmap[k].virt, kmap[k].virt + kmap[k].count), 0)
    ensures RowsPaid(e, g, d, kmap, k + 1)
  {
    hide Tables, Dirs, Paid;
    PaidTwice(e, f, g, d, RowTables(kmap, k), 0, Dirs(kmap[k].virt, kmap[k].virt + kmap[k].count), 0);
  }

  lemma RowsNow(e: VM, f: VM, d: nat, kmap: seq<KMap>, k: nat)
    requires RowsPaid(e, f, d, kmap, k)
    ensures Tables(f.mem, d) == RowTables(kmap, k) && |e.free| == |f.free| + |RowTables(kmap, k)|
  {
    hide Dirs, RowTables;
    assert {} + RowTables(kmap, k) == RowTables(kmap, k);
  }

  lemma RowTablesNext(kmap: seq<KMap>, k: nat)
    requires k < |kmap|
    ensures RowTables(kmap, k + 1) == RowTables(kmap, k) + Dirs(kmap[k].virt, kmap[k].virt + kmap[k].count)
  {
  }

  lemma RowsStuck(e: VM, f: VM, g: VM, d: nat, kmap: seq<KMap>, k: nat, done: nat)
    requires RowsPaid(e, f, d, kmap, k) && k < |kmap| && done < kmap[k].count
    requires Paid(f, g, d, Dirs(kmap[k].virt, kmap[k].virt + done), 0) && g.free == []
    requires (kmap[k].virt + done) / ENTRIES !in Tables(g.mem, d)
    ensures |e.free| < |RowTables(kmap, |kmap|)|
  {
    hide Tables, Dirs, RowTables, Paid, RowsPaid;
    RowsNow(e, f, d, kmap, k);
    var a := kmap[k].virt;
    TooFew(f, g, d, a, a + done, a + kmap[k].count, 0, 0);
    RowTablesNext(kmap, k);
    RowTablesMore(kmap, k + 1, |kmap|);
    SubsetCard(RowTables(kmap, k + 1), RowTables(kmap, |kmap|));
  }

  /** What a copy of n pages needs at least exceeds what a new address space needs. */
  /** Free pages it takes to copy the first n pages of an address space. */
  function CopyNeeds(kmap: seq<KMap>, n: nat): nat {
    1 + n + |RowTables(kmap, |kmap|) + Dirs(0, n)|
  }

  lemma CopyNeedsMore(kmap: seq<KMap>, m: nat, n: nat)
    requires m <= n
    ensures 1 + |RowTables(kmap, |kmap|)| <= CopyNeeds(kmap, m) <= CopyNeeds(kmap, n)
  {
    var r := RowTables(kmap, |kmap|);
    hide RowTables;
    SubsetCard(r, r + Dirs(0, m));
    DirsGrow(m, n);
    SubsetCard(r + Dirs(0, m), r + Dirs(0, n));
  }

  lemma DirsGrow(m: nat, n: nat)
    requires m <= n
    ensures Dirs(0, m) <= Dirs(0, n)
  {
  }
}
