/** Directories: files of 16-byte entries that stand for a finite map from names, cut to DIRSIZ
    bytes, to inode numbers. */
module DirModel {
  import opened Blocks
  import opened FileWrite

  const DIRSIZ := 14
  const DIRENT := 16

  /** A C string without its terminating NUL. */
  predicate IsName(s: seq<Byte>) { forall k :: 0 <= k < |s| ==> s[k] != 0 }

  function Cut(name: seq<Byte>): (r: seq<Byte>)
    ensures r <= name && (|r| == |name| < 14 || |r| == 14) && (IsName(name) ==> IsName(r))
  {
    if |name| <= DIRSIZ then name else name[..DIRSIZ]
  }

  /** The bytes before the first NUL. */
  function UpToNul(s: seq<Byte>): (r: seq<Byte>)
    ensures |r| <= |s| && r == s[..|r|] && IsName(r) && (|r| < |s| ==> s[|r|] == 0)
  {
    if s == [] || s[0] == 0 then [] else [s[0]] + UpToNul(s[1..])
  }

  lemma {:induction false} UpToNulIs(s: seq<Byte>, n: nat)
    requires n <= |s| && IsName(s[..n]) && (n < |s| ==> s[n] == 0)
    ensures UpToNul(s) == s[..n]
  {
    if n > 0 {
      assert s[0] == s[..n][0];
      assert s[1..][..n - 1] == s[..n][1..];
      UpToNulIs(s[1..], n - 1);
    }
  }

  type Entry = e: seq<Byte> | |e| == DIRENT witness seq(DIRENT, i => 0)

  function Inum(e: Entry): nat {
    var lo: int, hi: int := e[0], e[1];
    lo + 256 * hi
  }

  function NameIn(e: Entry): seq<Byte> { UpToNul(e[2..]) }

  /** The entry is in use for name x. */
  predicate Names(e: Entry, x: seq<Byte>) { Inum(e) != 0 && NameIn(e) == x }

  /** What `dirlink` writes: the inode number in two bytes and the name padded with NULs. */
  function NewEntry(name: seq<Byte>, inum: nat): (e: Entry) {
    [inum % 256, inum / 256 % 256] + Cut(name) + seq(DIRSIZ - |Cut(name)|, i => 0)
  }

  lemma NewEntryIs(name: seq<Byte>, inum: nat)
    requires IsName(name)
    ensures Inum(NewEntry(name, inum)) == inum % 0x1_0000 && NameIn(NewEntry(name, inum)) == Cut(name)
  {
    var e, c := NewEntry(name, inum), Cut(name);
    NewInum(name, inum);
    hide Cut, Inum;
    assert e[2..][..|c|] == c;
    UpToNulIs(e[2..], |c|);
  }

  lemma NewInum(name: seq<Byte>, inum: nat)
    ensures Inum(NewEntry(name, inum)) == inum % 0x1_0000
  {
    hide Cut;
    var e := NewEntry(name, inum);
    assert e[0] == inum % 256 && e[1] == inum / 256 % 256;
    assert inum == 0x1_0000 * (inum / 0x1_0000) + 256 * (inum / 256 % 256) + inum % 256;
  }

  // ---------------------------------------------------------------- entries as a map

  function DirMap(es: seq<Entry>): map<seq<Byte>, nat> {
    if es == [] then map[]
    else
      var m, e := DirMap(es[..|es| - 1]), es[|es| - 1];
      if Inum(e) == 0 then m else m[NameIn(e) := Inum(e)]
  }

  /** No two entries in use have the same name. */
  ghost predicate Unique(es: seq<Entry>) {
    forall j, k :: 0 <= j < k < |es| && Inum(es[j]) != 0 && Inum(es[k]) != 0 ==> NameIn(es[j]) != NameIn(es[k])
  }

  ghost predicate HasEntry(es: seq<Entry>, x: seq<Byte>) { exists k :: 0 <= k < |es| && Names(es[k], x) }

  lemma {:induction false} DirMapNames(es: seq<Entry>, x: seq<Byte>)
    ensures x in DirMap(es) <==> HasEntry(es, x)
  {
    hide NameIn, Inum;
    if es != [] {
      var n := |es| - 1;
      var fs := es[..n];
      DirMapNames(fs, x);
      if HasEntry(fs, x) {
        var k :| 0 <= k < |fs| && Names(fs[k], x);
        assert Names(es[k], x);
      }
      if HasEntry(es, x) {
        var k :| 0 <= k < |es| && Names(es[k], x);
        assert k < n ==> Names(fs[k], x);
      }
    }
  }

  lemma {:induction false} DirMapValue(es: seq<Entry>, k: nat)
    requires Unique(es) && k < |es| && Inum(es[k]) != 0
    ensures NameIn(es[k]) in DirMap(es) && DirMap(es)[NameIn(es[k])] == Inum(es[k])
  {
    hide NameIn, Inum;
    var n := |es| - 1;
    if k < n {
      assert Unique(es[..n]);
      DirMapValue(es[..n], k);
    }
  }

  /** The map is exactly what the entries in use say. */
  lemma DirMapIs(es: seq<Entry>)
    requires Unique(es)
    ensures forall x :: x in DirMap(es) <==> HasEntry(es, x)
    ensures forall k :: 0 <= k < |es| && Inum(es[k]) != 0 ==>
              NameIn(es[k]) in DirMap(es) && DirMap(es)[NameIn(es[k])] == Inum(es[k])
  {
    hide NameIn, Inum, DirMap;
    forall x
      ensures x in DirMap(es) <==> HasEntry(es, x)
    {
      DirMapNames(es, x);
    }
    forall k | 0 <= k < |es| && Inum(es[k]) != 0
      ensures NameIn(es[k]) in DirMap(es) && DirMap(es)[NameIn(es[k])] == Inum(es[k])
    {
      DirMapValue(es, k);
    }
  }

  /** Putting an entry where there was none in use adds it to the map. */
  lemma LinkMap(es: seq<Entry>, k: nat, e: Entry)
    requires Unique(es) && k <= |es| && (k < |es| ==> Inum(es[k]) == 0) && Inum(e) != 0 && NameIn(e) !in DirMap(es)
    ensures var fs := if k < |es| then es[k := e] else es + [e];
            Unique(fs) && DirMap(fs) == DirMap(es)[NameIn(e) := Inum(e)]
  {
    var fs := if k < |es| then es[k := e] else es + [e];
    hide NameIn, Inum, DirMap;
    DirMapIs(es);
    forall j | 0 <= j < |es| && Inum(es[j]) != 0
      ensures NameIn(es[j]) != NameIn(e)
    {
      assert Names(es[j], NameIn(es[j]));
    }
    assert Unique(fs);
    DirMapIs(fs);
    LinkSame(es, fs, k, e);
  }

  lemma {:induction false} BlankUpdate(es: seq<Entry>, k: nat, e: Entry)
    requires k < |es| && Inum(es[k]) == 0 && Inum(e) == 0
    ensures DirMap(es[k := e]) == DirMap(es)
  {
    hide NameIn, Inum;
    var n := |es| - 1;
    if k < n {
      assert es[k := e][..n] == es[..n][k := e];
      BlankUpdate(es[..n], k, e);
    } else {
      assert es[k := e][..n] == es[..n];
    }
  }

  /** An entry not in use changes nothing where there was none in use. */
  lemma BlankMap(es: seq<Entry>, k: nat, e: Entry)
    requires Unique(es) && k <= |es| && (k < |es| ==> Inum(es[k]) == 0) && Inum(e) == 0
    ensures var fs := if k < |es| then es[k := e] else es + [e];
            Unique(fs) && DirMap(fs) == DirMap(es)
  {
    hide NameIn, Inum;
    if k < |es| {
      BlankUpdate(es, k, e);
    } else {
      assert (es + [e])[..|es|] == es;
    }
  }

  lemma LinkSame(es: seq<Entry>, fs: seq<Entry>, k: nat, e: Entry)
    requires k <= |es| && (k < |es| ==> Inum(es[k]) == 0) && Inum(e) != 0
    requires fs == (if k < |es| then es[k := e] else es + [e])
    requires (forall x :: x in DirMap(es) <==> HasEntry(es, x)) && (forall x :: x in DirMap(fs) <==> HasEntry(fs, x))
    requires forall j :: 0 <= j < |es| && Inum(es[j]) != 0 ==>
               NameIn(es[j]) in DirMap(es) && DirMap(es)[NameIn(es[j])] == Inum(es[j])
    requires forall j :: 0 <= j < |fs| && Inum(fs[j]) != 0 ==>
               NameIn(fs[j]) in DirMap(fs) && DirMap(fs)[NameIn(fs[j])] == Inum(fs[j])
    requires NameIn(e) !in DirMap(es)
    ensures DirMap(fs) == DirMap(es)[NameIn(e) := Inum(e)]
  {
    hide NameIn, Inum, DirMap, HasEntry;
    var m, n := DirMap(fs), DirMap(es)[NameIn(e) := Inum(e)];
    assert fs[k] == e;
    forall x
      ensures x in m <==> x in n
      ensures x in m && x in n ==> m[x] == n[x]
    {
      LinkNames(es, fs, k, e, x);
      if HasEntry(es, x) {
        var j := EntryOf(es, x);
        assert fs[j] == es[j];
      }
    }
  }

  lemma EntryOf(es: seq<Entry>, x: seq<Byte>) returns (j: nat)
    requires HasEntry(es, x)
    ensures j < |es| && Names(es[j], x)
  {
    j :| j < |es| && Names(es[j], x);
  }

  lemma LinkNames(es: seq<Entry>, fs: seq<Entry>, k: nat, e: Entry, x: seq<Byte>)
    requires k <= |es| && (k < |es| ==> Inum(es[k]) == 0) && Inum(e) != 0
    requires fs == (if k < |es| then es[k := e] else es + [e])
    ensures HasEntry(fs, x) <==> HasEntry(es, x) || x == NameIn(e)
  {
    hide NameIn, Inum;
    assert fs[k] == e;
    if HasEntry(es, x) {
      var j :| 0 <= j < |es| && Names(es[j], x);
      assert fs[j] == es[j];
    }
    if HasEntry(fs, x) {
      var j :| 0 <= j < |fs| && Names(fs[j], x);
      assert j != k ==> es[j] == fs[j];
    }
    if x == NameIn(e) {
      assert Names(fs[k], x);
    }
  }

  /** Clearing the entry of a name takes it out of the map. */
  lemma UnlinkMap(es: seq<Entry>, k: nat, e: Entry)
    requires Unique(es) && k < |es| && Inum(es[k]) != 0 && Inum(e) == 0
    ensures Unique(es[k := e]) && DirMap(es[k := e]) == DirMap(es) - {NameIn(es[k])}
  {
    hide NameIn, Inum, DirMap;
    var fs := es[k := e];
    assert Unique(fs);
    DirMapIs(es);
    DirMapIs(fs);
    var m, n := DirMap(fs), DirMap(es) - {NameIn(es[k])};
    forall x
      ensures x in m <==> x in n
      ensures x in m && x in n ==> m[x] == n[x]
    {
      if HasEntry(es, x) {
        var j :| 0 <= j < |es| && Names(es[j], x);
        assert j != k ==> fs[j] == es[j] && Names(fs[j], x);
      }
      if HasEntry(fs, x) {
        var j :| 0 <= j < |fs| && Names(fs[j], x);
        assert es[j] == fs[j];
      }
    }
  }

  // ---------------------------------------------------------------- entries in a file

  function Slot(c: seq<Byte>, k: nat): Entry
    requires DIRENT * k + DIRENT <= |c|
  {
    c[DIRENT * k..DIRENT * k + DIRENT]
  }

  function Slots(c: seq<Byte>): (es: seq<Entry>)
    ensures |es| == |c| / DIRENT && forall k :: 0 <= k < |es| ==> DIRENT * k + DIRENT <= |c| && es[k] == Slot(c, k)
  {
    seq(|c| / DIRENT, k requires 0 <= k < |c| / DIRENT => Slot(c, k))
  }

  lemma SlotsOverlay(c: seq<Byte>, k: nat, e: Entry)
    requires |c| % DIRENT == 0 && DIRENT * k <= |c|
    ensures var d := Overlay(c, DIRENT * k, e);
            |d| % DIRENT == 0 && Slots(d) == if k < |Slots(c)| then Slots(c)[k := e] else Slots(c) + [e]
  {
    var d := Overlay(c, DIRENT * k, e);
    var es, fs := Slots(c), Slots(d);
    forall j | 0 <= j < |fs|
      ensures fs[j] == if j == k then e else es[j]
    {
      if j == k {
        assert d[DIRENT * k..DIRENT * k + DIRENT] == e;
      } else {
        assert d[DIRENT * j..DIRENT * j + DIRENT] == c[DIRENT * j..DIRENT * j + DIRENT];
      }
    }
  }
}
