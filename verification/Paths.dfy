/** `skipelem`: path names and their components. */
module Paths {
  import opened Blocks
  import opened DirModel

  const SLASH: Byte := 47
  const ROOTINO := 1

  // ---------------------------------------------------------------- components

  /** First position from i on that is not a slash, or the end. */
  function Skip(path: seq<Byte>, i: nat): (j: nat)
    requires i <= |path|
    ensures i <= j <= |path| && (j < |path| ==> path[j] != SLASH) && forall k :: i <= k < j ==> path[k] == SLASH
    decreases |path| - i
  {
    if i < |path| && path[i] == SLASH then Skip(path, i + 1) else i
  }

  /** First slash from i on, or the end. */
  function ElemEnd(path: seq<Byte>, i: nat): (j: nat)
    requires i <= |path|
    ensures i <= j <= |path| && (j < |path| ==> path[j] == SLASH) && forall k :: i <= k < j ==> path[k] != SLASH
    decreases |path| - i
  {
    if i < |path| && path[i] != SLASH then ElemEnd(path, i + 1) else i
  }

  /** What the calls of `skipelem` from position i on deliver. */
  function Elements(path: seq<Byte>, i: nat): seq<seq<Byte>>
    requires i <= |path|
    decreases |path| - i
  {
    var s := Skip(path, i);
    if s == |path| then []
    else
      var e := ElemEnd(path, s);
      [Cut(path[s..e])] + Elements(path, e)
  }

  /** The parts of a path between slashes, empty ones included. */
  function Split(path: seq<Byte>): (r: seq<seq<Byte>>)
    ensures |r| > 0
  {
    if path == [] then [[]]
    else if path[0] == SLASH then [[]] + Split(path[1..])
    else
      var r := Split(path[1..]); [[path[0]] + r[0]] + r[1..]
  }

  /** The parts that are not empty, each cut to DIRSIZ bytes. */
  function CutParts(parts: seq<seq<Byte>>): seq<seq<Byte>> {
    if parts == [] then [] else (if parts[0] == [] then [] else [Cut(parts[0])]) + CutParts(parts[1..])
  }

  function Components(path: seq<Byte>): seq<seq<Byte>> { CutParts(Split(path)) }

  lemma {:induction false} SplitRun(path: seq<Byte>, e: nat)
    requires e <= |path| && (e < |path| ==> path[e] == SLASH) && forall k :: 0 <= k < e ==> path[k] != SLASH
    ensures Split(path)[0] == path[..e]
    ensures Split(path)[1..] == if e == |path| then [] else Split(path[e + 1..])
  {
    if e > 0 {
      SplitRun(path[1..], e - 1);
      assert path[..e] == [path[0]] + path[1..][..e - 1];
      assert e < |path| ==> path[1..][e..] == path[e + 1..];
    }
  }

  /** A part starting at s and ending at e is the first component of what starts at s. */
  lemma FirstPart(path: seq<Byte>, s: nat, e: nat)
    requires s < e <= |path| && (e < |path| ==> path[e] == SLASH) && forall k :: s <= k < e ==> path[k] != SLASH
    ensures Components(path[s..]) == [Cut(path[s..e])] + Components(path[e..])
  {
    hide Cut;
    var rest := path[s..];
    assert forall k :: 0 <= k < e - s ==> rest[k] == path[s + k];
    SplitRun(rest, e - s);
    hide Split;
    var parts := Split(rest);
    assert rest[..e - s] == path[s..e];
    assert CutParts(parts) == [Cut(path[s..e])] + CutParts(parts[1..]);
    LeadingSlash(path, e);
    if e < |path| {
      assert rest[e - s + 1..] == path[e..][1..];
    }
  }

  /** A leading slash, or nothing at all, adds no component. */
  lemma LeadingSlash(path: seq<Byte>, e: nat)
    requires e <= |path| && (e < |path| ==> path[e] == SLASH)
    ensures Components(path[e..]) == if e < |path| then CutParts(Split(path[e..][1..])) else CutParts([])
  {
    var r := path[e..];
    if e < |path| {
      assert Split(r) == [[]] + Split(r[1..]);
      assert ([[]] + Split(r[1..]))[1..] == Split(r[1..]);
    } else {
      assert Split(r) == [[]];
      assert Split(r)[1..] == [];
    }
  }

  /** The walk sees exactly the components, in order. */
  lemma {:induction false} ElementsAreComponents(path: seq<Byte>, i: nat)
    requires i <= |path|
    ensures Elements(path, i) == Components(path[i..])
    decreases |path| - i
  {
    hide Components, Cut;
    var s := Skip(path, i);
    SkipParts(path, i);
    if s == |path| {
      LeadingSlash(path, s);
    } else {
      var e := ElemEnd(path, s);
      FirstPart(path, s, e);
      ElementsAreComponents(path, e);
    }
  }

  lemma {:induction false} SkipParts(path: seq<Byte>, i: nat)
    requires i <= |path|
    ensures Components(path[i..]) == Components(path[Skip(path, i)..])
    decreases |path| - i
  {
    if i < |path| && path[i] == SLASH {
      SkipParts(path, i + 1);
      assert path[i..][1..] == path[i + 1..];
      assert Split(path[i..]) == [[]] + Split(path[i + 1..]);
      assert ([[]] + Split(path[i + 1..]))[1..] == Split(path[i + 1..]);
    }
  }

  lemma CutIs(path: seq<Byte>, s: nat, e: nat, name: seq<Byte>)
    requires s <= e <= |path| && name == if e - s >= DIRSIZ then path[s..s + DIRSIZ] else path[s..e]
    ensures name == Cut(path[s..e]) && |name| <= DIRSIZ && (IsName(path) ==> IsName(name))
  {
  }

  /** `skipelem`: the next element, cut, and where the rest starts; none when only slashes are left. */
  method Skipelem(path: seq<Byte>, i: nat) returns (next: int, name: seq<Byte>)
    requires i <= |path|
    ensures next == -1 <==> Elements(path, i) == []
    ensures next != -1 ==> i < next <= |path| && Elements(path, i) == [name] + Elements(path, next)
    ensures next != -1 ==> (next == |path| <==> Elements(path, next) == [])
    ensures next != -1 ==> |name| <= DIRSIZ && (IsName(path) ==> IsName(name))
  {
    hide Cut, IsName;
    var p := i;
    while p < |path| && path[p] == SLASH
      invariant i <= p <= |path| && Skip(path, p) == Skip(path, i)
    {
      p := p + 1;
    }
    if p == |path| {
      return -1, [];
    }
    var s := p;
    while p < |path| && path[p] != SLASH
      invariant s <= p <= |path| && ElemEnd(path, p) == ElemEnd(path, s)
    {
      p := p + 1;
    }
    var e := p;
    name := if e - s >= DIRSIZ then path[s..s + DIRSIZ] else path[s..e];
    CutIs(path, s, e, name);
    while p < |path| && path[p] == SLASH
      invariant e <= p <= |path| && Skip(path, p) == Skip(path, e)
    {
      p := p + 1;
    }
    return p, name;
  }
}
