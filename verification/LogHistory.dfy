/** Histories of file-system operations and what they mean.

An operation is bracketed by `begin_op` and `end_op`; in between it logs block
writes.  A history is the sequence of these events in the order the log lock
serialised them, and `Replay` is the disk content it stands for.
*/
module LogHistory {
  import opened Blocks
  import opened Log

  datatype Event =
    | Begin(id: nat)
    | Write(id: nat, block: Word, data: Block)
    | End(id: nat)

  type History = seq<Event>

  /** Home contents after every write of the history. */
  function Replay(base: Disk, h: History): (d: Disk)
    ensures |d| == |base|
  {
    if h == [] then base
    else
      var d := Replay(base, h[..|h| - 1]);
      var e := h[|h| - 1];
      if e.Write? && e.block < |d| then d[e.block := e.data] else d
  }

  /** Operations that have begun and not ended. */
  function Active(h: History): set<nat> {
    if h == [] then {}
    else
      var a := Active(h[..|h| - 1]);
      match h[|h| - 1]
      case Begin(id) => a + {id}
      case Write(_, _, _) => a
      case End(id) => a - {id}
  }

  /** No operation is half-way through. */
  predicate Quiescent(h: History) {
    Active(h) == {}
  }

  predicate Mentions(h: History, id: nat) {
    exists i :: 0 <= i < |h| && h[i].id == id
  }

  /** Identifiers are never reused, and only running operations write or end. */
  predicate WellFormed(h: History) {
    h == [] ||
    (var p, e := h[..|h| - 1], h[|h| - 1];
     && WellFormed(p)
     && (if e.Begin? then !Mentions(p, e.id) else e.id in Active(p)))
  }

  lemma Snoc(base: Disk, h: History, e: Event)
    ensures (h + [e])[..|h|] == h
    ensures Active(h + [e]) ==
            match e
            case Begin(id) => Active(h) + {id}
            case Write(_, _, _) => Active(h)
            case End(id) => Active(h) - {id}
    ensures Replay(base, h + [e]) ==
            var d := Replay(base, h); if e.Write? && e.block < |d| then d[e.block := e.data] else d
    ensures WellFormed(h + [e]) <==> WellFormed(h) && if e.Begin? then !Mentions(h, e.id) else e.id in Active(h)
  {
    assert (h + [e])[..|h|] == h;
  }

  lemma {:induction false} WellFormedPrefix(h: History, k: nat)
    requires WellFormed(h) && k <= |h|
    ensures WellFormed(h[..k])
  {
    if k < |h| {
      WellFormedPrefix(h[..|h| - 1], k);
      assert h[..|h| - 1][..k] == h[..k];
    } else {
      assert h[..k] == h;
    }
  }

  /** Nobody running at j was mentioned before a quiescent point k. */
  lemma {:induction false} ActiveAfterQuiescence(h: History, k: nat, j: nat)
    requires WellFormed(h) && k <= j <= |h| && Quiescent(h[..k])
    ensures forall id :: id in Active(h[..j]) ==> !Mentions(h[..k], id)
    decreases j
  {
    if k < j {
      ActiveAfterQuiescence(h, k, j - 1);
      WellFormedPrefix(h, j);
      var p, e := h[..j - 1], h[j - 1];
      assert h[..j] == p + [e];
      Snoc([], p, e);
      assert forall i :: 0 <= i < k ==> h[..k][i] == p[i];
      assert forall id :: Mentions(h[..k], id) ==> Mentions(p, id);
    }
  }

  /** A quiescent prefix contains all of an operation's events or none of them. */
  lemma AllOrNothing(h: History, k: nat)
    requires WellFormed(h) && k <= |h| && Quiescent(h[..k])
    ensures forall i, j :: 0 <= i < k <= j < |h| ==> h[i].id != h[j].id
  {
    forall i, j | 0 <= i < k <= j < |h|
      ensures h[i].id != h[j].id
    {
      ActiveAfterQuiescence(h, k, j);
      WellFormedPrefix(h, j + 1);
      var p, e := h[..j], h[j];
      assert h[..j + 1] == p + [e];
      Snoc([], p, e);
      assert p[i] == h[i] && h[..k][i] == h[i];
    }
  }
}
