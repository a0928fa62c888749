/** `dirlookup`, `dirlink` and the entry `unlink` clears, on top of the file layer. */
module Directory {
  import opened Blocks
  import opened FileModel
  import opened FileContent
  import opened FileWrite
  import opened FileSystem
  import opened DirModel

  const T_DIR := 1

  /** File dp is a directory: whole entries, no name twice. */
  ghost predicate IsDirectory(sb: Super, fs: FS, dp: nat) {
    && Shape(sb, fs) && dp < sb.ninodes && fs.inodes[dp].typ == T_DIR && fs.inodes[dp].size <= MAXBYTES
    && |Content(sb, fs, dp)| % DIRENT == 0 && Unique(Slots(Content(sb, fs, dp)))
  }

  /** The map directory dp stands for. */
  ghost function NamesOf(sb: Super, fs: FS, dp: nat): map<seq<Byte>, nat>
    requires IsDirectory(sb, fs, dp)
  {
    DirMap(Slots(Content(sb, fs, dp)))
  }

  /** `namecmp`, that is `strncmp` with DIRSIZ: zero exactly for the same cut name. */
  method Namecmp(name: seq<Byte>, raw: seq<Byte>) returns (r: int)
    requires IsName(name) && |raw| == DIRSIZ
    ensures r == 0 <==> Cut(name) == UpToNul(raw)
  {
    var n := 0;
    while n < DIRSIZ && n < |name| && name[n] == raw[n]
      invariant 0 <= n <= DIRSIZ && n <= |name| && name[..n] == raw[..n]
    {
      n := n + 1;
    }
    NameTest(name, raw, n);
    if n == DIRSIZ {
      return 0;
    }
    var a: int, b: int := if n < |name| then name[n] else 0, raw[n];
    return a - b;
  }

  lemma NameTest(name: seq<Byte>, raw: seq<Byte>, n: nat)
    requires IsName(name) && |raw| == DIRSIZ && n <= DIRSIZ && n <= |name| && name[..n] == raw[..n]
    requires n == DIRSIZ || n == |name| || name[n] != raw[n]
    ensures Cut(name) == UpToNul(raw) <==> n == DIRSIZ || (n == |name| && raw[n] == 0)
  {
    if n == DIRSIZ || (n == |name| && raw[n] == 0) {
      UpToNulIs(raw, n);
    }
  }

  /** What the scan of `dirlookup` has established up to entry k. */
  ghost predicate NotBefore(es: seq<Entry>, k: nat, x: seq<Byte>) {
    forall j :: 0 <= j < k && j < |es| ==> !Names(es[j], x)
  }

  lemma ScanDone(es: seq<Entry>, x: seq<Byte>)
    requires Unique(es) && NotBefore(es, |es|, x)
    ensures x !in DirMap(es)
  {
    hide Names;
    DirMapNames(es, x);
  }

  /** `dirlookup`: the inode number the map gives for the cut name, 0 for none; off is where the
      entry lies. */
  method DirLookup(f: Files, dp: nat, name: seq<Byte>, ghost o: Owner) returns (inum: nat, off: nat)
    requires FilesOk(f.sb, f.State(), o) && IsDirectory(f.sb, f.State(), dp) && IsName(name)
    modifies f`blocks, f`inodes, f`log
    ensures f.State() == old(f.State())
    ensures inum == 0 <==> Cut(name) !in NamesOf(f.sb, f.State(), dp)
    ensures inum != 0 ==> NamesOf(f.sb, f.State(), dp)[Cut(name)] == inum
    ensures inum != 0 ==>
              off % DIRENT == 0 && off < f.inodes[dp].size &&
                  Names(Slots(Content(f.sb, f.State(), dp))[off / DIRENT], Cut(name))
  {
    hide FilesOk, Content, Unique, UpToNul, Cut;
    ghost var fs := f.State();
    ghost var c := Content(f.sb, fs, dp);
    ghost var es := Slots(c);
    ContentLength(f.sb, fs, dp);
    off := 0;
    while off < f.inodes[dp].size
      invariant f.State() == fs && off % DIRENT == 0 && off <= f.inodes[dp].size
      invariant NotBefore(es, off / DIRENT, Cut(name))
    {
      var data := f.ReadInode(dp, off, DIRENT, o);
      assert data.Some? && |data.value| == DIRENT && data.value == es[off / DIRENT];
      var de: Entry := data.value;
      if Inum(de) != 0 {
        var r := Namecmp(name, de[2..]);
        if r == 0 {
          DirMapValue(es, off / DIRENT);
          return Inum(de), off;
        }
      }
      off := off + DIRENT;
    }
    ScanDone(es, Cut(name));
    return 0, off;
  }

  /** The search of `dirlink` for the first entry not in use, or the end. */
  method FindEmpty(f: Files, dp: nat, ghost o: Owner) returns (off: nat)
    requires FilesOk(f.sb, f.State(), o) && IsDirectory(f.sb, f.State(), dp)
    modifies f`blocks, f`inodes, f`log
    ensures f.State() == old(f.State()) && off % DIRENT == 0 && off <= f.inodes[dp].size
    ensures off < f.inodes[dp].size ==> Inum(Slots(Content(f.sb, f.State(), dp))[off / DIRENT]) == 0
    ensures forall j :: 0 <= j < off / DIRENT ==> Inum(Slots(Content(f.sb, f.State(), dp))[j]) != 0
  {
    hide FilesOk, Content, Unique;
    ghost var fs := f.State();
    ghost var es := Slots(Content(f.sb, fs, dp));
    ContentLength(f.sb, fs, dp);
    off := 0;
    while off < f.inodes[dp].size
      invariant f.State() == fs && off % DIRENT == 0 && off <= f.inodes[dp].size
      invariant forall j :: 0 <= j < off / DIRENT ==> Inum(es[j]) != 0
    {
      var data := f.ReadInode(dp, off, DIRENT, o);
      assert data.Some? && |data.value| == DIRENT && data.value == es[off / DIRENT];
      var de: Entry := data.value;
      if Inum(de) == 0 {
        return;
      }
      off := off + DIRENT;
    }
  }

  lemma WriteiType(sb: Super, fs: FS, o: Owner, i: nat, off: Word, src: seq<Byte>)
    requires FilesOk(sb, fs, o) && i < sb.ninodes && |src| < 0x1_0000_0000 && Writei(sb, fs, i, off, src).Wrote?
    ensures i < |Writei(sb, fs, i, off, src).fs.inodes|
    ensures Writei(sb, fs, i, off, src).fs.inodes[i].typ == fs.inodes[i].typ
  {
    hide WriteLoop, Finish, Owned, NoHoles, WriteThrough, Written;
    OwnedShape(sb, fs, o);
    WriteiRefuses(sb, fs, i, off, src);
    var e := WriteLoop(sb, fs, i, off, src, 0).fs;
    var p := WriteLoopEffect(sb, fs, o, i, off, src, 0);
    FinishInodes(sb, e, i, off + |src|, |src|);
  }

  /** Writing one entry at a whole position: which entries the directory has afterwards, and that
      every other file is untouched. */
  lemma EntryWritten(sb: Super, fs: FS, o: Owner, dp: nat, off: Word, e: Entry) returns (p: Owner)
    requires FilesOk(sb, fs, o) && IsDirectory(sb, fs, dp) && off % DIRENT == 0 && off <= fs.inodes[dp].size
    requires Writei(sb, fs, dp, off, e).Wrote?
    ensures var g := Writei(sb, fs, dp, off, e).fs;
            && FilesOk(sb, g, p) && Shape(sb, g) && g.inodes[dp].typ == T_DIR && g.inodes[dp].size <= MAXBYTES
            && WroteOnly(sb, fs, g, dp, off, e)
            && |Content(sb, g, dp)| % DIRENT == 0
            && var es := Slots(Content(sb, fs, dp));
               Slots(Content(sb, g, dp)) == if off / DIRENT < |es| then es[off / DIRENT := e] else es + [e]
  {
    hide FilesOk, Writei, Content, Slots, Unique;
    WriteiContent(sb, fs, o, dp, off, e);
    WriteiType(sb, fs, o, dp, off, e);
    p := WriteiKeepsFiles(sb, fs, o, dp, off, e);
    ContentLength(sb, fs, dp);
    SlotsOverlay(Content(sb, fs, dp), off / DIRENT, e);
  }

  /** `dirlink` once it has found that the name is not there: the name is added to the map, and no other
      file touched; the inode number is stored in sixteen bits.  halted is a panic, which happens only
      with every entry in use and the disk or the directory full. */
  method AddEntry(f: Files, dp: nat, name: seq<Byte>, inum: nat, ghost o: Owner)
      returns (halted: bool, ghost p: Owner, ghost k: nat)
    requires FilesOk(f.sb, f.State(), o) && IsDirectory(f.sb, f.State(), dp) && IsName(name)
    requires Cut(name) !in NamesOf(f.sb, f.State(), dp)
    modifies f`blocks, f`inodes, f`log
    ensures FirstFree(old(Slots(Content(f.sb, f.State(), dp))), k)
    ensures !halted ==>
              && FilesOk(f.sb, f.State(), p) && IsDirectory(f.sb, f.State(), dp)
              && NamesOf(f.sb, f.State(), dp) ==
                   (if inum % 0x1_0000 == 0 then old(NamesOf(f.sb, f.State(), dp))
                    else old(NamesOf(f.sb, f.State(), dp))[Cut(name) := inum % 0x1_0000])
              && OthersSame(f.sb, old(f.State()), f.State(), dp)
              && Slots(Content(f.sb, f.State(), dp)) ==
                   PutEntry(old(Slots(Content(f.sb, f.State(), dp))), k, NewEntry(name, inum))
    ensures !halted ==>
              && DIRENT * k <= MAXBYTES
              && Writei(f.sb, old(f.State()), dp, DIRENT * k, NewEntry(name, inum)) == Wrote(f.State())
    ensures halted ==>
              && k == |old(Slots(Content(f.sb, f.State(), dp)))|
              && (DiskFull(f.sb, f.State()) || DIRENT * k + DIRENT > MAXBYTES)
  {
    hide FilesOk, Content, Unique, UpToNul, Cut, Writei, Slots, DirMap, NewEntry, WroteOnly, DiskFull;
    ghost var fs := f.State();
    ghost var es := Slots(Content(f.sb, fs, dp));
    ContentLength(f.sb, fs, dp);
    var off := FindEmpty(f, dp, o);
    var de := NewEntry(name, inum);
    NewEntryIs(name, inum);
    if Inum(de) == 0 {
      BlankMap(es, off / DIRENT, de);
    } else {
      LinkMap(es, off / DIRENT, de);
    }
    SlotsCount(Content(f.sb, fs, dp));
    WriteiRefuses(f.sb, fs, dp, off, de);
    if off < f.inodes[dp].size {
      OverwriteSucceeds(f.sb, fs, o, dp, off, de);
    }
    var w, stop := f.WriteInode(dp, off, de, o);
    if stop || w != DIRENT {
      return true, o, off / DIRENT;
    }
    p := EntryWritten(f.sb, fs, o, dp, off, de);
    OthersFrom(f.sb, fs, f.State(), dp, off, de);
    return false, p, off / DIRENT;
  }

  /** Entry k is the first not in use, or behind the last. */
  ghost predicate FirstFree(es: seq<Entry>, k: nat) {
    k <= |es| && (k < |es| ==> Inum(es[k]) == 0) && forall j :: 0 <= j < k ==> Inum(es[j]) != 0
  }

  function PutEntry(es: seq<Entry>, k: nat, e: Entry): seq<Entry> { if k < |es| then es[k := e] else es + [e] }

  lemma SlotsCount(c: seq<Byte>)
    ensures |Slots(c)| == |c| / DIRENT
  {
  }

  /** Every other file and inode is as before. */
  ghost predicate OthersSame(sb: Super, fs: FS, e: FS, i: nat) {
    && Shape(sb, fs) && Shape(sb, e)
    && forall j :: 0 <= j < sb.ninodes && j != i ==>
         e.inodes[j] == fs.inodes[j] && fs.inodes[j].size <= MAXBYTES && Content(sb, e, j) == Content(sb, fs, j)
  }

  lemma OthersFrom(sb: Super, fs: FS, e: FS, i: nat, pos: nat, data: seq<Byte>)
    requires WroteOnly(sb, fs, e, i, pos, data)
    ensures OthersSame(sb, fs, e, i)
  {
  }

  /** Writing inside a file without holes needs no new block. */
  lemma OverwriteSucceeds(sb: Super, fs: FS, o: Owner, i: nat, off: Word, src: seq<Byte>)
    requires FilesOk(sb, fs, o) && i < sb.ninodes && |src| < 0x1_0000_0000
    requires Shape(sb, fs) && off + |src| <= fs.inodes[i].size <= MAXBYTES
    ensures Writei(sb, fs, i, off, src).Wrote?
  {
    hide Mapped, SlotsOwn, OwnersPoint, BitsMatch, WriteThrough, WriteLoop, Finish;
    assert NoHoles(sb, fs, i);
    WriteLoopMapped(sb, fs, o, i, off, src, 0);
  }

  /** How `unlink` clears the entry `dirlookup` found: the name leaves the map. */
  method ClearEntry(f: Files, dp: nat, off: nat, ghost x: seq<Byte>, ghost o: Owner)
    returns (panic: bool, ghost p: Owner)
    requires FilesOk(f.sb, f.State(), o) && IsDirectory(f.sb, f.State(), dp) && off % DIRENT == 0
    requires off < f.inodes[dp].size
    requires off / DIRENT < |Slots(Content(f.sb, f.State(), dp))|
    requires Names(Slots(Content(f.sb, f.State(), dp))[off / DIRENT], x)
    modifies f`blocks, f`inodes, f`log
    ensures !panic && FilesOk(f.sb, f.State(), p) && IsDirectory(f.sb, f.State(), dp)
    ensures OthersSame(f.sb, old(f.State()), f.State(), dp) && f.inodes[dp].size == old(f.inodes[dp].size)
    ensures NamesOf(f.sb, f.State(), dp) == old(NamesOf(f.sb, f.State(), dp)) - {x}
    ensures Writei(f.sb, old(f.State()), dp, off, seq(DIRENT, i => 0)) == Wrote(f.State())
  {
    hide FilesOk, Content, Unique, Writei, Slots, DirMap, WroteOnly, UpToNul;
    ghost var fs := f.State();
    p := o;
    var de: Entry := seq(DIRENT, i => 0);
    UnlinkMap(Slots(Content(f.sb, fs, dp)), off / DIRENT, de);
    ContentLength(f.sb, fs, dp);
    OverwriteSucceeds(f.sb, fs, o, dp, off, de);
    var w, stop := f.WriteInode(dp, off, de, o);
    p := EntryWritten(f.sb, fs, o, dp, off, de);
    OthersFrom(f.sb, fs, f.State(), dp, off, de);
    WriteiContent(f.sb, fs, o, dp, off, de);
    panic := stop || w != DIRENT;
  }
}
