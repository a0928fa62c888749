/** The path walk `namex` and the references it takes. */
module Namex {
  import opened Blocks
  import opened Dinodes
  import opened FileModel
  import opened FileContent
  import opened FileWrite
  import opened FileSystem
  import opened DirModel
  import opened Directory
  import opened Paths
  import opened InodeCache

  // ---------------------------------------------------------------- where a path leads

  /** Directories are well formed and name only inodes in use. */
  ghost predicate TreeOk(sb: Super, fs: FS) {
    && Shape(sb, fs) && ROOTINO < sb.ninodes && fs.inodes[ROOTINO].typ != 0
    && forall i :: 0 <= i < sb.ninodes && fs.inodes[i].typ == T_DIR ==>
         IsDirectory(sb, fs, i) && forall x :: x in NamesOf(sb, fs, i) ==>
           NamesOf(sb, fs, i)[x] < sb.ninodes && fs.inodes[NamesOf(sb, fs, i)[x]].typ != 0
  }

  /** Follow the names one after the other. */
  ghost function Resolve(sb: Super, fs: FS, ip: nat, names: seq<seq<Byte>>): Option<nat>
    requires TreeOk(sb, fs) && ip < sb.ninodes
    decreases |names|
  {
    if names == [] then Some(ip)
    else if fs.inodes[ip].typ != T_DIR || names[0] !in NamesOf(sb, fs, ip) then None
    else Resolve(sb, fs, NamesOf(sb, fs, ip)[names[0]], names[1..])
  }

  /** Follow all names but the last, to a directory. */
  ghost function ResolveParent(sb: Super, fs: FS, ip: nat, names: seq<seq<Byte>>): Option<nat>
    requires TreeOk(sb, fs) && ip < sb.ninodes
  {
    if names == [] then None
    else match Resolve(sb, fs, ip, names[..|names| - 1])
      case Some(d) => if d < sb.ninodes && fs.inodes[d].typ == T_DIR then Some(d) else None
      case None => None
  }

  lemma {:induction false} ResolveInRange(sb: Super, fs: FS, ip: nat, names: seq<seq<Byte>>)
    requires TreeOk(sb, fs) && ip < sb.ninodes
    ensures Resolve(sb, fs, ip, names).Some? ==> Resolve(sb, fs, ip, names).value < sb.ninodes
    decreases |names|
  {
    hide IsDirectory, NamesOf;
    if names != [] && fs.inodes[ip].typ == T_DIR && names[0] in NamesOf(sb, fs, ip) {
      ResolveInRange(sb, fs, NamesOf(sb, fs, ip)[names[0]], names[1..]);
    }
  }

  /** One step of the walk. */
  lemma ParentStep(sb: Super, fs: FS, ip: nat, names: seq<seq<Byte>>)
    requires TreeOk(sb, fs) && ip < sb.ninodes && names != []
    ensures fs.inodes[ip].typ != T_DIR ==> ResolveParent(sb, fs, ip, names) == None
    ensures fs.inodes[ip].typ == T_DIR && |names| == 1 ==> ResolveParent(sb, fs, ip, names) == Some(ip)
    ensures fs.inodes[ip].typ == T_DIR && |names| > 1 ==>
              ResolveParent(sb, fs, ip, names) ==
              if names[0] !in NamesOf(sb, fs, ip) then None
              else ResolveParent(sb, fs, NamesOf(sb, fs, ip)[names[0]], names[1..])
  {
    hide IsDirectory, NamesOf;
    var n := |names| - 1;
    if n > 0 {
      assert names[..n][0] == names[0];
      assert names[..n][1..] == names[1..][..n - 1];
    }
  }

  // ---------------------------------------------------------------- the references of a walk

  /** The inode has a link or somebody holds a reference to it. */
  ghost predicate Alive(fs: FS, slots: seq<CacheSlot>, x: nat) {
    x < |fs.inodes| && (fs.inodes[x].nlink != 0 || Refs(slots, x) > 0)
  }

  /** Whatever a living directory names is alive, and so is the root. */
  ghost predicate LinksOk(sb: Super, fs: FS, slots: seq<CacheSlot>)
    requires TreeOk(sb, fs)
  {
    && Alive(fs, slots, ROOTINO)
    && forall i :: 0 <= i < sb.ninodes && fs.inodes[i].typ == T_DIR && Alive(fs, slots, i) ==>
         forall x :: x in NamesOf(sb, fs, i) ==> Alive(fs, slots, NamesOf(sb, fs, i)[x])
  }

  /** The reference of the walk is never the last one on an unlinked inode. */
  lemma NotTheLast(fs: FS, s0: seq<CacheSlot>, slots: seq<CacheSlot>, k: nat)
    requires OneSlotEach(slots) && k < |slots| && slots[k].ref > 0 && Alive(fs, s0, slots[k].inum)
    requires Refs(slots, slots[k].inum) > Refs(s0, slots[k].inum)
    ensures slots[k].inum < |fs.inodes| && (fs.inodes[slots[k].inum].nlink != 0 || slots[k].ref > 1)
  {
    RefsInSlot(slots, k);
  }

  lemma TookNothing(a: seq<CacheSlot>, b: seq<CacheSlot>, c: seq<CacheSlot>, x: nat)
    requires Took(a, b, x, 1) && Took(b, c, x, -1)
    ensures Took(a, c, 0, 0)
  {
  }

  /** Moving on: the reference on x is given up for one on y. */
  lemma TookOver(a: seq<CacheSlot>, b: seq<CacheSlot>, c: seq<CacheSlot>, d: seq<CacheSlot>, x: nat, y: nat)
    requires Took(a, b, x, 1) && Took(b, c, y, 1) && Took(c, d, x, -1)
    ensures Took(a, d, y, 1)
  {
  }

  /** Give up the one reference the walk holds. */
  method Drop(f: Files, c: Icache, k: nat, ghost s0: seq<CacheSlot>, ghost o: Owner)
    requires FilesOk(f.sb, f.State(), o) && OneSlotEach(c.slots) && k < |c.slots| && c.slots[k].ref > 0
    requires Took(s0, c.slots, c.slots[k].inum, 1) && Alive(f.State(), s0, c.slots[k].inum)
    requires c.slots[k].inum < f.sb.ninodes
    modifies c, f`blocks, f`inodes, f`log
    ensures f.State() == old(f.State()) && OneSlotEach(c.slots) && Took(s0, c.slots, 0, 0)
    ensures old(NoOrphans(f.inodes, c.slots)) ==> NoOrphans(f.inodes, c.slots)
  {
    hide FilesOk, FreeInode;
    ghost var b, x := c.slots, c.slots[k].inum;
    NotTheLast(f.State(), s0, c.slots, k);
    var frees := c.Iput(f, k, o);
    TookNothing(s0, b, c.slots, x);
  }

  /** `dirlink`: a name that is there is refused, with a reference to its inode taken and given up on the
      way; otherwise it is added to the map.  halted is a panic: no free cache slot, or no room. */
  method Dirlink(f: Files, c: Icache, dp: nat, name: seq<Byte>, inum: nat, ghost o: Owner)
      returns (r: int, halted: bool, ghost p: Owner, ghost k: nat)
    requires FilesOk(f.sb, f.State(), o) && IsDirectory(f.sb, f.State(), dp) && IsName(name) && OneSlotEach(c.slots)
    requires Cut(name) in NamesOf(f.sb, f.State(), dp) ==>
               var x := NamesOf(f.sb, f.State(), dp)[Cut(name)]; x < f.sb.ninodes && Alive(f.State(), c.slots, x)
    modifies f`blocks, f`inodes, f`log, c
    ensures Cut(name) in old(NamesOf(f.sb, f.State(), dp)) ==> f.State() == old(f.State()) && p == o
    ensures Cut(name) in old(NamesOf(f.sb, f.State(), dp)) && !halted ==>
              r == -1 && OneSlotEach(c.slots) && Took(old(c.slots), c.slots, 0, 0)
    ensures Cut(name) in old(NamesOf(f.sb, f.State(), dp)) && halted ==>
              forall j :: 0 <= j < |c.slots| ==> c.slots[j].ref > 0
    ensures Cut(name) !in old(NamesOf(f.sb, f.State(), dp)) ==>
              c.slots == old(c.slots) && FirstFree(old(Slots(Content(f.sb, f.State(), dp))), k)
    ensures Cut(name) !in old(NamesOf(f.sb, f.State(), dp)) && !halted ==>
              && r == 0 && FilesOk(f.sb, f.State(), p) && IsDirectory(f.sb, f.State(), dp)
              && NamesOf(f.sb, f.State(), dp) ==
                   (if inum % 0x1_0000 == 0 then old(NamesOf(f.sb, f.State(), dp))
                    else old(NamesOf(f.sb, f.State(), dp))[Cut(name) := inum % 0x1_0000])
              && OthersSame(f.sb, old(f.State()), f.State(), dp)
              && Slots(Content(f.sb, f.State(), dp)) ==
                   PutEntry(old(Slots(Content(f.sb, f.State(), dp))), k, NewEntry(name, inum))
    ensures Cut(name) !in old(NamesOf(f.sb, f.State(), dp)) && halted ==>
              && k == |old(Slots(Content(f.sb, f.State(), dp)))|
              && (DiskFull(f.sb, f.State()) || DIRENT * k + DIRENT > MAXBYTES)
  {
    hide FilesOk, IsDirectory, NamesOf, IsName, Content, Slots, Cut, NewEntry, DiskFull, Took, Alive, FirstFree;
    p, k := o, 0;
    var found, at := DirLookup(f, dp, name, o);
    if found != 0 {
      ghost var s0 := c.slots;
      var i;
      i, halted := c.Iget(found, f.inodes);
      if halted {
        return -1, true, o, 0;
      }
      Drop(f, c, i, s0, o);
      return -1, false, o, 0;
    }
    halted, p, k := AddEntry(f, dp, name, inum, o);
    r := 0;
  }

  /** Take the reference on the next inode and then give up the one on the current. */
  method MoveTo(f: Files, c: Icache, k: nat, inum: nat, ghost s0: seq<CacheSlot>, ghost o: Owner)
    returns (j: nat, panic: bool)
    requires FilesOk(f.sb, f.State(), o) && OneSlotEach(c.slots) && k < |c.slots| && c.slots[k].ref > 0
    requires Took(s0, c.slots, c.slots[k].inum, 1) && Alive(f.State(), s0, c.slots[k].inum)
    requires c.slots[k].inum < f.sb.ninodes
    modifies c, f`blocks, f`inodes, f`log
    ensures f.State() == old(f.State()) && (old(NoOrphans(f.inodes, c.slots)) ==> NoOrphans(f.inodes, c.slots))
    ensures !panic ==>
              OneSlotEach(c.slots) && j < |c.slots| && c.slots[j].ref > 0 && c.slots[j].inum == inum &&
                  Took(s0, c.slots, inum, 1)
    ensures panic ==> forall j :: 0 <= j < |c.slots| ==> c.slots[j].ref > 0
  {
    hide FilesOk, FreeInode, NoOrphans;
    ghost var b, x := c.slots, c.slots[k].inum;
    j, panic := c.Iget(inum, f.inodes);
    if panic {
      return;
    }
    ghost var d := c.slots;
    NotTheLast(f.State(), s0, c.slots, k);
    var frees := c.Iput(f, k, o);
    TookOver(s0, b, d, c.slots, x, inum);
  }

  /** `ilock` moves no reference. */
  lemma TookStill(a: seq<CacheSlot>, b: seq<CacheSlot>, c: seq<CacheSlot>, x: nat)
    requires Took(a, b, x, 1) && Took(b, c, x, 0)
    ensures Took(a, c, x, 1)
  {
  }

  lemma RootInRange(sb: Super, fs: FS)
    requires TreeOk(sb, fs)
    ensures ROOTINO < sb.ninodes && Shape(sb, fs) && fs.inodes[ROOTINO].typ != 0
  {
  }

  lemma StartAlive(path: seq<Byte>, slots: seq<CacheSlot>, cwd: nat, sb: Super, fs: FS)
    requires TreeOk(sb, fs) && LinksOk(sb, fs, slots) && OneSlotEach(slots)
    requires cwd < |slots| && slots[cwd].ref > 0 && slots[cwd].inum < sb.ninodes && fs.inodes[slots[cwd].inum].typ != 0
    ensures var x := if path != [] && path[0] == '/' as int then ROOTINO else slots[cwd].inum;
            x < sb.ninodes && fs.inodes[x].typ != 0 && Alive(fs, slots, x)
  {
    RefsInSlot(slots, cwd);
  }

  lemma NextAlive(sb: Super, fs: FS, slots: seq<CacheSlot>, x: nat, name: seq<Byte>)
    requires TreeOk(sb, fs) && LinksOk(sb, fs, slots) && x < sb.ninodes && fs.inodes[x].typ == T_DIR
    requires Alive(fs, slots, x)
    requires name in NamesOf(sb, fs, x)
    ensures Alive(fs, slots, NamesOf(sb, fs, x)[name])
  {
    hide TreeOk, NamesOf, Alive;
  }

  lemma ShortName(name: seq<Byte>)
    requires |name| <= DIRSIZ
    ensures Cut(name) == name
  {
  }

  lemma EmptyTarget(sb: Super, fs: FS, ip: nat, parent: bool)
    requires TreeOk(sb, fs) && ip < sb.ninodes
    ensures Target(sb, fs, ip, [], parent) == if parent then None else Some(ip)
  {
  }

  /** `namex` starts at the root for a path that begins with a slash, and else at the current directory. */
  method BeginWalk(c: Icache, path: seq<Byte>, cwd: nat, ghost inodes: seq<Dinode>) returns (k: nat, panic: bool)
    requires OneSlotEach(c.slots) && cwd < |c.slots| && c.slots[cwd].ref > 0
    modifies c
    ensures !panic ==> OneSlotEach(c.slots) && k < |c.slots| && c.slots[k].ref > 0
    ensures panic ==> forall j :: 0 <= j < |c.slots| ==> c.slots[j].ref > 0
    ensures !panic ==>
              && c.slots[k].inum == (if path != [] && path[0] == '/' as int then ROOTINO else old(c.slots)[cwd].inum)
              && Took(old(c.slots), c.slots, c.slots[k].inum, 1)
    ensures old(NoOrphans(inodes, c.slots)) ==> NoOrphans(inodes, c.slots)
  {
    hide Took, NoOrphans;
    if path != [] && path[0] == SLASH {
      k, panic := c.Iget(ROOTINO, inodes);
    } else {
      c.Idup(cwd, inodes);
      return cwd, false;
    }
  }

  /** What `namex` is after: the inode of the path, or of the directory above. */
  ghost function Target(sb: Super, fs: FS, ip: nat, names: seq<seq<Byte>>, parent: bool): Option<nat>
    requires TreeOk(sb, fs) && ip < sb.ninodes
  {
    if parent then ResolveParent(sb, fs, ip, names) else Resolve(sb, fs, ip, names)
  }

  lemma TargetStep(sb: Super, fs: FS, ip: nat, names: seq<seq<Byte>>, parent: bool)
    requires TreeOk(sb, fs) && ip < sb.ninodes && names != []
    ensures fs.inodes[ip].typ != T_DIR ==> Target(sb, fs, ip, names, parent) == None
    ensures fs.inodes[ip].typ == T_DIR ==> IsDirectory(sb, fs, ip)
    ensures fs.inodes[ip].typ == T_DIR && parent && |names| == 1 ==> Target(sb, fs, ip, names, parent) == Some(ip)
    ensures fs.inodes[ip].typ == T_DIR && !(parent && |names| == 1) && names[0] !in NamesOf(sb, fs, ip) ==>
              Target(sb, fs, ip, names, parent) == None
    ensures fs.inodes[ip].typ == T_DIR && !(parent && |names| == 1) && names[0] in NamesOf(sb, fs, ip) ==>
              var next := NamesOf(sb, fs, ip)[names[0]];
              next < sb.ninodes && fs.inodes[next].typ != 0 &&
              Target(sb, fs, ip, names, parent) == Target(sb, fs, next, names[1..], parent)
  {
    hide IsDirectory, NamesOf;
    ParentStep(sb, fs, ip, names);
  }

  /** The loop of `namex`, with a reference held on the inode in slot at: it leads where folding the
      directory maps over the components leads, and leaves exactly one more reference than s0 on that
      inode, or none anywhere when it fails. */
  method Walk(f: Files, c: Icache, path: seq<Byte>, parent: bool, at: nat, ghost s0: seq<CacheSlot>, ghost o: Owner)
      returns (r: int, name: seq<Byte>, panic: bool)
    requires FilesOk(f.sb, f.State(), o) && TreeOk(f.sb, f.State()) && IsName(path) && OneSlotEach(c.slots)
    requires at < |c.slots| && c.slots[at].ref > 0 && c.slots[at].inum < f.sb.ninodes
    requires Took(s0, c.slots, c.slots[at].inum, 1) && LinksOk(f.sb, f.State(), s0)
    requires f.inodes[c.slots[at].inum].typ != 0 && Alive(f.State(), s0, c.slots[at].inum)
    modifies f`blocks, f`inodes, f`log, c
    ensures f.State() == old(f.State())
    ensures old(NoOrphans(f.inodes, c.slots)) ==> NoOrphans(f.inodes, c.slots)
    ensures panic ==> forall j :: 0 <= j < |c.slots| ==> c.slots[j].ref > 0
    ensures !panic ==> OneSlotEach(c.slots)
    ensures !panic ==>
              var t := Target(f.sb, f.State(), old(c.slots)[at].inum, Components(path), parent);
              && (r == -1 <==> t == None)
              && (r == -1 ==> Took(s0, c.slots, 0, 0))
              && (r != -1 ==> 0 <= r < |c.slots| && c.slots[r].ref > 0 && t == Some(c.slots[r].inum) &&
                              Took(s0, c.slots, c.slots[r].inum, 1))
    ensures !panic && parent && r != -1 ==> Components(path) != [] && name == Components(path)[|Components(path)| - 1]
  {
    hide FilesOk, TreeOk, IsDirectory, NamesOf, Took, Target, Elements, Components, OneSlotEach, IsName, Names, Slots;
    hide Content, Cut, Alive, LinksOk, NoOrphans;
    ghost var fs, start, all := f.State(), c.slots[at].inum, Components(path);
    RootInRange(f.sb, fs);
    ElementsAreComponents(path, 0);
    assert path[0..] == path;
    var k: nat := at;
    panic := false;
    var i: nat := 0;
    ghost var pre: seq<seq<Byte>> := [];
    while true
      invariant 0 <= i <= |path| && f.State() == fs && !panic && OneSlotEach(c.slots)
      invariant k < |c.slots| && c.slots[k].ref > 0 && c.slots[k].inum < f.sb.ninodes
      invariant Took(s0, c.slots, c.slots[k].inum, 1)
      invariant fs.inodes[c.slots[k].inum].typ != 0 && Alive(fs, s0, c.slots[k].inum)
      invariant old(NoOrphans(f.inodes, c.slots)) ==> NoOrphans(f.inodes, c.slots)
      invariant all == pre + Elements(path, i)
      invariant Target(f.sb, fs, start, all, parent) == Target(f.sb, fs, c.slots[k].inum, Elements(path, i), parent)
      decreases |path| - i
    {
      ghost var x, names := c.slots[k].inum, Elements(path, i);
      var next;
      next, name := Skipelem(path, i);
      if next == -1 {
        break;
      }
      TargetStep(f.sb, fs, x, names, parent);
      ghost var held := c.slots;
      panic := c.Ilock(f, k);
      TookStill(s0, held, c.slots, x);
      if panic {
        return;
      }
      if f.inodes[c.slots[k].inum].typ != T_DIR {
        Drop(f, c, k, s0, o);
        return -1, [], false;
      }
      if parent && next == |path| {
        return k, name, false;
      }
      ShortName(name);
      var inum, off := DirLookup(f, c.slots[k].inum, name, o);
      if inum == 0 {
        Drop(f, c, k, s0, o);
        return -1, [], false;
      }
      NextAlive(f.sb, fs, s0, x, name);
      k, panic := MoveTo(f, c, k, inum, s0, o);
      if panic {
        return -1, [], true;
      }
      pre := pre + [name];
      i := next;
    }
    EmptyTarget(f.sb, fs, c.slots[k].inum, parent);
    if parent {
      Drop(f, c, k, s0, o);
      return -1, [], false;
    }
    return k, [], false;
  }

  /** `namex`: a path that begins with a slash leads where its components lead from the root, every other
      where they lead from the current directory. */
  method Namex(f: Files, c: Icache, path: seq<Byte>, parent: bool, cwd: nat, ghost o: Owner)
      returns (r: int, name: seq<Byte>, panic: bool)
    requires FilesOk(f.sb, f.State(), o) && TreeOk(f.sb, f.State()) && IsName(path) && OneSlotEach(c.slots)
    requires cwd < |c.slots| && c.slots[cwd].ref > 0 && c.slots[cwd].inum < f.sb.ninodes
    requires f.inodes[c.slots[cwd].inum].typ != 0
    requires LinksOk(f.sb, f.State(), c.slots)
    modifies f`blocks, f`inodes, f`log, c
    ensures f.State() == old(f.State())
    ensures old(NoOrphans(f.inodes, c.slots)) ==> NoOrphans(f.inodes, c.slots)
    ensures panic ==> forall j :: 0 <= j < |c.slots| ==> c.slots[j].ref > 0
    ensures !panic ==> OneSlotEach(c.slots)
    ensures !panic ==>
              var start := if path != [] && path[0] == '/' as int then ROOTINO else old(c.slots)[cwd].inum;
              var t := Target(f.sb, f.State(), start, Components(path), parent);
              && (r == -1 <==> t == None)
              && (r == -1 ==> Took(old(c.slots), c.slots, 0, 0))
              && (r != -1 ==> 0 <= r < |c.slots| && c.slots[r].ref > 0 && t == Some(c.slots[r].inum) &&
                              Took(old(c.slots), c.slots, c.slots[r].inum, 1))
    ensures !panic && parent && r != -1 ==> Components(path) != [] && name == Components(path)[|Components(path)| - 1]
  {
    hide FilesOk, TreeOk, Took, Target, Components, OneSlotEach, IsName, Alive, LinksOk, NoOrphans;
    RootInRange(f.sb, f.State());
    StartAlive(path, c.slots, cwd, f.sb, f.State());
    ghost var s0 := c.slots;
    var k: nat;
    k, panic := BeginWalk(c, path, cwd, f.inodes);
    if panic {
      return -1, [], true;
    }
    r, name, panic := Walk(f, c, path, parent, k, s0, o);
  }
}
