/** Physical pages, the page free list and two-level page tables as values, with the use each
    page is put to.  Pages are named by physical page number and hold 1024 words. */
module PageModel {
  import opened Collections

  const ENTRIES := 1024
  /** Directory entries below this one are the user half. */
  const USERDIR := 512
  const PTE_W := 2
  const PTE_U := 4

  type Page = s: seq<nat> | |s| == ENTRIES witness Zeros()

  function Zeros(): seq<nat> { seq(ENTRIES, i => 0) }

  function Entry(p: nat, flags: nat): nat { p * 4096 + flags }

  function PageOf(w: nat): nat { w / 4096 }

  function Flags(w: nat): nat { w % 4096 }

  predicate Present(w: nat) { w % 2 == 1 }

  /** flags with PTE_P set. */
  function WithP(flags: nat): nat { if flags % 2 == 1 then flags else flags + 1 }

  lemma EntryParts(p: nat, flags: nat)
    requires flags < 4096
    ensures PageOf(Entry(p, flags)) == p && Flags(Entry(p, flags)) == flags
    ensures Present(Entry(p, flags)) <==> flags % 2 == 1
    ensures WithP(flags) < 4096 && WithP(flags) % 2 == 1
    ensures !Present(0)
  {
  }

  /** What a page is for.  Held pages are in the hands of the running kernel code. */
  datatype Use = Free | Held | Dir | Table(dir: nat, pdx: nat) | User(dir: nat, pdx: nat, ptx: nat)

  datatype VM = VM(free: seq<nat>, mem: map<nat, Page>)

  /** The page-table word for (i, j), 0 where there is no table. */
  function Lookup(mem: map<nat, Page>, d: nat, i: nat, j: nat): nat {
    if d in mem && i < ENTRIES && j < ENTRIES && Present(mem[d][i]) && PageOf(mem[d][i]) in mem
    then mem[PageOf(mem[d][i])][j]
    else 0
  }

  predicate IsDir(own: map<nat, Use>, d: nat) { d in own && own[d] == Dir }

  /** The free list holds exactly the free pages, once each. */
  ghost predicate FreeOk(vm: VM, own: map<nat, Use>) {
    && Distinct(vm.free)
    && (forall p :: p in vm.free ==> p in own)
    && (forall p :: p in own ==> (own[p] == Free <==> p in vm.free))
    && (forall p :: p in own ==> p in vm.mem && p > 0)
  }

  /** Every table and user page is referenced from where its use says. */
  ghost predicate UsesOk(vm: VM, own: map<nat, Use>) {
    forall p :: p in own ==>
      match own[p]
      case Table(d, i) => i < ENTRIES && IsDir(own, d) && d in vm.mem && Present(vm.mem[d][i]) &&
          PageOf(vm.mem[d][i]) == p
      case User(d, i, j) =>
        i < USERDIR && j < ENTRIES && IsDir(own, d) && Present(Lookup(vm.mem, d, i, j)) &&
            PageOf(Lookup(vm.mem, d, i, j)) == p
      case _ => true
  }

  /** Every present directory entry refers to its own table and, leaving it to the table to deny
      something, has all of PTE_P, PTE_W and PTE_U set. */
  ghost predicate TablesOwned(vm: VM, own: map<nat, Use>) {
    forall d, i :: IsDir(own, d) && d in vm.mem && 0 <= i < ENTRIES && Present(vm.mem[d][i]) ==>
      && PageOf(vm.mem[d][i]) in own && own[PageOf(vm.mem[d][i])] == Table(d, i)
      && Flags(vm.mem[d][i]) == 7
  }

  /** Every present user mapping refers to its own page. */
  ghost predicate UsersOwned(vm: VM, own: map<nat, Use>) {
    forall d, i, j :: IsDir(own, d) && 0 <= i < USERDIR && 0 <= j < ENTRIES && Present(Lookup(vm.mem, d, i, j)) ==>
      PageOf(Lookup(vm.mem, d, i, j)) in own && own[PageOf(Lookup(vm.mem, d, i, j))] == User(d, i, j)
  }

  ghost predicate Inv(vm: VM, own: map<nat, Use>) {
    FreeOk(vm, own) && UsesOk(vm, own) && TablesOwned(vm, own) && UsersOwned(vm, own)
  }

  /** The translations of every address space are the same. */
  ghost predicate SameLookups(a: VM, b: VM, own: map<nat, Use>) {
    forall d, i, j :: IsDir(own, d) && 0 <= i < ENTRIES && 0 <= j < ENTRIES ==>
      Lookup(b.mem, d, i, j) == Lookup(a.mem, d, i, j)
  }

  // ---------------------------------------------------------------- the allocator

  /** `kalloc`: the first free page is now held. */
  lemma PopKeeps(vm: VM, own: map<nat, Use>)
    requires Inv(vm, own) && vm.free != []
    ensures var p := vm.free[0];
            p in own && own[p] == Free && Inv(vm.(free := vm.free[1..]), own[p := Held])
  {
    var p := vm.free[0];
    PopFree(vm, own);
    hide Lookup, Present, PageOf, Flags, FreeOk;
    var w, o := vm.(free := vm.free[1..]), own[p := Held];
    assert forall q :: q in own && q != p ==> o[q] == own[q];
    assert forall x :: IsDir(o, x) <==> IsDir(own, x);
    assert UsesOk(w, o);
    assert TablesOwned(w, o);
    assert UsersOwned(w, o);
  }

  lemma PopFree(vm: VM, own: map<nat, Use>)
    requires FreeOk(vm, own) && vm.free != []
    ensures var p := vm.free[0];
            p in own && own[p] == Free && FreeOk(vm.(free := vm.free[1..]), own[p := Held])
  {
    var p := vm.free[0];
    assert p in vm.free;
    assert vm.free == [p] + vm.free[1..];
  }

  /** `kfree` of a held page. */
  lemma PushKeeps(vm: VM, own: map<nat, Use>, p: nat, junk: Page)
    requires Inv(vm, own) && p in own && own[p] == Held
    ensures var w := VM([p] + vm.free, vm.mem[p := junk]);
            Inv(w, own[p := Free]) && SameLookups(vm, w, own)
  {
    var w, o := VM([p] + vm.free, vm.mem[p := junk]), own[p := Free];
    HeldAside(vm, own, p, junk);
    assert forall q :: q in own && q != p ==> o[q] == own[q];
    assert forall d :: IsDir(o, d) <==> IsDir(own, d);
  }

  /** What a held page contains matters to no address space. */
  lemma HeldAside(vm: VM, own: map<nat, Use>, p: nat, v: Page)
    requires Inv(vm, own) && p in own && own[p] == Held
    ensures var w := vm.(mem := vm.mem[p := v]);
            SameLookups(vm, w, own) && Inv(w, own)
  {
    var w := vm.(mem := vm.mem[p := v]);
    forall d, i, j | IsDir(own, d) && 0 <= i < ENTRIES && 0 <= j < ENTRIES
      ensures Lookup(w.mem, d, i, j) == Lookup(vm.mem, d, i, j)
    {
      assert d != p;
      if Present(vm.mem[d][i]) {
        assert PageOf(vm.mem[d][i]) != p;
      }
    }
  }

  // ---------------------------------------------------------------- building tables

  function SetWord(vm: VM, p: nat, k: nat, w: nat): VM
    requires p in vm.mem && k < ENTRIES
  {
    vm.(mem := vm.mem[p := vm.mem[p][k := w]])
  }

  /** `walkpgdir` enters a zeroed page as a new table: no translation changes. */
  lemma TableKeeps(vm: VM, own: map<nat, Use>, d: nat, i: nat, p: nat, w: nat)
    requires Inv(vm, own) && IsDir(own, d) && i < ENTRIES && d in vm.mem && !Present(vm.mem[d][i])
    requires p in own && own[p] == Held && vm.mem[p] == Zeros()
    requires Present(w) && PageOf(w) == p && Flags(w) == 7
    ensures var e := SetWord(vm, d, i, w);
            Inv(e, own[p := Table(d, i)]) && SameLookups(vm, e, own)
  {
    var e, o := SetWord(vm, d, i, w), own[p := Table(d, i)];
    TableAside(vm, own, d, i, p, w);
    assert !Present(0);
    hide Present, PageOf, Flags;
    assert forall q :: q in own && q != p ==> o[q] == own[q];
    assert forall x :: IsDir(o, x) <==> IsDir(own, x);
    assert forall x, y :: x != d && x in vm.mem && 0 <= y < ENTRIES ==> e.mem[x][y] == vm.mem[x][y];
    assert forall y :: 0 <= y < ENTRIES && y != i ==> e.mem[d][y] == vm.mem[d][y];
    assert UsersOwned(e, o);
    assert TablesOwned(e, o);
  }

  lemma TableAside(vm: VM, own: map<nat, Use>, d: nat, i: nat, p: nat, w: nat)
    requires Inv(vm, own) && IsDir(own, d) && i < ENTRIES && d in vm.mem && !Present(vm.mem[d][i])
    requires p in own && own[p] == Held && vm.mem[p] == Zeros()
    requires Present(w) && PageOf(w) == p
    ensures SameLookups(vm, SetWord(vm, d, i, w), own)
  {
    var e := SetWord(vm, d, i, w);
    hide Present, PageOf, Flags;
    forall x, y, j | IsDir(own, x) && 0 <= y < ENTRIES && 0 <= j < ENTRIES
      ensures Lookup(e.mem, x, y, j) == Lookup(vm.mem, x, y, j)
    {
      if x == d && y == i {
        assert e.mem[p] == Zeros();
      } else {
        assert e.mem[x][y] == vm.mem[x][y];
        if Present(vm.mem[x][y]) {
          assert PageOf(vm.mem[x][y]) != d;
        }
      }
    }
  }

  /** Storing a page-table word changes that one translation of that one address space. */
  lemma StoreChangesOne(vm: VM, own: map<nat, Use>, d: nat, i: nat, j: nat, w: nat)
    requires Inv(vm, own) && IsDir(own, d) && i < ENTRIES && j < ENTRIES && d in vm.mem && Present(vm.mem[d][i])
    ensures var t := PageOf(vm.mem[d][i]);
            && t in own && t in vm.mem && own[t] == Table(d, i)
            && (forall x, y, k :: IsDir(own, x) && 0 <= y < ENTRIES && 0 <= k < ENTRIES ==>
                  Lookup(SetWord(vm, t, j, w).mem, x, y, k) ==
                  if x == d && y == i && k == j then w else Lookup(vm.mem, x, y, k))
            && (forall x :: IsDir(own, x) ==> x in vm.mem && SetWord(vm, t, j, w).mem[x] == vm.mem[x])
  {
    hide Present, PageOf, Flags;
    var t := PageOf(vm.mem[d][i]);
    var e := SetWord(vm, t, j, w);
    forall x, y, k | IsDir(own, x) && 0 <= y < ENTRIES && 0 <= k < ENTRIES
      ensures Lookup(e.mem, x, y, k) == if x == d && y == i && k == j then w else Lookup(vm.mem, x, y, k)
    {
      assert x != t;
      if Present(vm.mem[x][y]) && (x != d || y != i) {
        assert PageOf(vm.mem[x][y]) != t;
      }
    }
  }

  /** `mappages` maps a held page into the user half. */
  lemma MapUserKeeps(vm: VM, own: map<nat, Use>, d: nat, i: nat, j: nat, p: nat, w: nat)
    requires Inv(vm, own) && IsDir(own, d) && i < USERDIR && j < ENTRIES && d in vm.mem && Present(vm.mem[d][i])
    requires !Present(Lookup(vm.mem, d, i, j)) && p in own && own[p] == Held && Present(w) && PageOf(w) == p
    ensures PageOf(vm.mem[d][i]) in vm.mem && Inv(SetWord(vm, PageOf(vm.mem[d][i]), j, w), own[p := User(d, i, j)])
  {
    var e, o := SetWord(vm, PageOf(vm.mem[d][i]), j, w), own[p := User(d, i, j)];
    StoreChangesOne(vm, own, d, i, j, w);
    hide Present, PageOf, Flags, Lookup;
    assert forall q :: q in own && q != p ==> o[q] == own[q];
    assert forall x :: IsDir(o, x) <==> IsDir(own, x);
    assert UsesOk(e, o);
    assert UsersOwned(e, o);
    assert TablesOwned(e, o);
  }

  /** A mapping in the kernel half owns nothing. */
  lemma MapKernelKeeps(vm: VM, own: map<nat, Use>, d: nat, i: nat, j: nat, w: nat)
    requires Inv(vm, own) && IsDir(own, d) && USERDIR <= i < ENTRIES && j < ENTRIES && d in vm.mem
    requires Present(vm.mem[d][i])
    ensures PageOf(vm.mem[d][i]) in vm.mem && Inv(SetWord(vm, PageOf(vm.mem[d][i]), j, w), own)
  {
    var e := SetWord(vm, PageOf(vm.mem[d][i]), j, w);
    StoreChangesOne(vm, own, d, i, j, w);
    hide Present, PageOf, Flags, Lookup;
    assert UsesOk(e, own);
    assert UsersOwned(e, own);
    assert TablesOwned(e, own);
  }

  /** `deallocuvm` clears a user mapping: its page is held again. */
  lemma UnmapKeeps(vm: VM, own: map<nat, Use>, d: nat, i: nat, j: nat)
    requires Inv(vm, own) && IsDir(own, d) && i < USERDIR && j < ENTRIES && d in vm.mem && Present(vm.mem[d][i])
    requires Present(Lookup(vm.mem, d, i, j))
    ensures var p := PageOf(Lookup(vm.mem, d, i, j));
            && p in own && own[p] == User(d, i, j) && PageOf(vm.mem[d][i]) in vm.mem && p != PageOf(vm.mem[d][i])
            && Inv(SetWord(vm, PageOf(vm.mem[d][i]), j, 0), own[p := Held])
  {
    var p := PageOf(Lookup(vm.mem, d, i, j));
    var e, o := SetWord(vm, PageOf(vm.mem[d][i]), j, 0), own[p := Held];
    assert !Present(0);
    StoreChangesOne(vm, own, d, i, j, 0);
    hide Present, PageOf, Flags, Lookup;
    assert forall q :: q in own && q != p ==> o[q] == own[q];
    assert forall x :: IsDir(o, x) <==> IsDir(own, x);
    assert UsesOk(e, o);
    assert UsersOwned(e, o);
    assert TablesOwned(e, o);
  }

  // ---------------------------------------------------------------- whole directories

  /** A zeroed held page becomes an empty address space. */
  lemma NewDirKeeps(vm: VM, own: map<nat, Use>, d: nat)
    requires Inv(vm, own) && d in own && own[d] == Held && vm.mem[d] == Zeros()
    ensures Inv(vm, own[d := Dir])
    ensures forall i, j :: 0 <= i < ENTRIES && 0 <= j < ENTRIES ==> Lookup(vm.mem, d, i, j) == 0
  {
    var o := own[d := Dir];
    assert !Present(0);
    hide Present, PageOf, Flags;
    assert forall q :: q in own && q != d ==> o[q] == own[q];
    assert forall i :: 0 <= i < ENTRIES ==> vm.mem[d][i] == 0;
    assert UsesOk(vm, o);
    assert UsersOwned(vm, o);
    assert TablesOwned(vm, o);
  }

  /** The pages an address space uses. */
  predicate UsedBy(u: Use, p: nat, d: nat) {
    (u == Dir && p == d) || (u.Table? && u.dir == d) || (u.User? && u.dir == d)
  }

  /** Every page of d, from now on held. */
  function Retired(own: map<nat, Use>, d: nat): map<nat, Use> {
    map p | p in own :: if UsedBy(own[p], p, d) then Held else own[p]
  }

  /** An address space can be given up: nothing else refers to its pages. */
  lemma RetireKeeps(vm: VM, own: map<nat, Use>, d: nat)
    requires Inv(vm, own) && IsDir(own, d)
    ensures Inv(vm, Retired(own, d))
  {
    var o := Retired(own, d);
    hide Present, PageOf, Flags, Lookup;
    assert forall x :: IsDir(o, x) <==> IsDir(own, x) && x != d;
    assert forall p :: p in own ==> (o[p] == Free <==> own[p] == Free);
    assert UsesOk(vm, o);
    assert UsersOwned(vm, o);
    assert TablesOwned(vm, o);
  }
}
