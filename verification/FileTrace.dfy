/** The disk writes behind a `writei`: every change of the file layer to the disk is a sequence of
    `log_write` events, whose replay gives the new blocks. */
module FileTrace {
  import opened Blocks
  import opened Dinodes
  import opened FileModel
  import opened FileContent
  import opened FileWrite
  import opened FileTrunc
  import opened LogHistory

  /** Replaying the writes h of operation id over fs gives the blocks and the log of e. */
  ghost predicate Traces(sb: Super, fs: FS, e: FS, id: nat, h: History) {
    && (forall k :: 0 <= k < |h| ==> h[k].Write? && h[k].id == id && sb.inodestart <= h[k].block < sb.size)
    && |fs.blocks| == sb.size && Replay(fs.blocks, h) == e.blocks
    && |e.log| == |fs.log| + |h| && fs.log <= e.log
    && forall k :: 0 <= k < |h| ==> e.log[|fs.log| + k] == h[k].block
  }

  lemma {:induction false} ReplayConcat(d: seq<Block>, a: History, b: History)
    ensures Replay(d, a + b) == Replay(Replay(d, a), b)
  {
    if b == [] {
      assert a + b == a;
    } else {
      var c := b[..|b| - 1];
      assert (a + b)[..|a + b| - 1] == a + c;
      ReplayConcat(d, a, c);
    }
  }

  lemma TracesNothing(sb: Super, fs: FS, e: FS, id: nat)
    requires e.blocks == fs.blocks && e.log == fs.log && |fs.blocks| == sb.size
    ensures Traces(sb, fs, e, id, [])
  {
  }

  lemma TracesWrite(sb: Super, fs: FS, e: FS, id: nat, h: History, b: Word, v: Block)
    requires Traces(sb, fs, e, id, h) && sb.inodestart <= b < sb.size
    ensures Traces(sb, fs, LogWrite(e, b, v), id, h + [Write(id, b, v)])
  {
    Snoc(fs.blocks, h, Write(id, b, v));
  }

  lemma TracesTrans(sb: Super, fs: FS, d: FS, e: FS, id: nat, a: History, b: History)
    requires Traces(sb, fs, d, id, a) && Traces(sb, d, e, id, b)
    ensures Traces(sb, fs, e, id, a + b)
  {
    ReplayConcat(fs.blocks, a, b);
  }

  /** The inodes in memory play no part. */
  lemma TracesInodes(sb: Super, fs: FS, e: FS, f: FS, id: nat, h: History)
    requires Traces(sb, fs, e, id, h) && f.blocks == e.blocks && f.log == e.log
    ensures Traces(sb, fs, f, id, h)
  {
  }

  lemma EnsureTraces(sb: Super, fs: FS, o: Owner, i: nat, k: nat, id: nat) returns (h: History)
    requires Owned(sb, fs, o) && IsSlot(sb, i, k) && (k > IND ==> Slot(sb, fs, i, IND) != 0)
    ensures Traces(sb, fs, EnsureSlot(sb, fs, i, k), id, h)
  {
    hide Traces, GetWord, PutWord;
    h := [];
    TracesNothing(sb, fs, fs, id);
    if Slot(sb, fs, i, k) == 0 && FreeFrom(sb, fs, 0) < sb.size {
      var b := FreeFrom(sb, fs, 0);
      assert sb.datastart <= b;
      var m, ind := BBlock(sb, b), fs.inodes[i].addrs[IND];
      var bits := Bitmap.PutBit(fs.blocks[m], b % Bitmap.BPB, true);
      TracesWrite(sb, fs, fs, id, [], m, bits);
      TracesWrite(sb, fs, LogWrite(fs, m, bits), id, [] + [Write(id, m, bits)], b, ZeroBlock());
      h := [] + [Write(id, m, bits)] + [Write(id, b, ZeroBlock())];
      var d := Balloc(sb, fs, b);
      if k > IND {
        assert Slot(sb, fs, i, IND) == ind && ind in o;
        var v := PutWord(d.blocks[ind], k - IND - 1, b);
        TracesWrite(sb, fs, d, id, h, ind, v);
        h := h + [Write(id, ind, v)];
      } else {
        TracesInodes(sb, fs, d, SetSlot(sb, d, i, k, b), id, h);
      }
    }
  }

  lemma BmapTraces(sb: Super, fs: FS, o: Owner, i: nat, bn: nat, id: nat) returns (h: History)
    requires Owned(sb, fs, o) && i < sb.ninodes && bn < MAXFILE
    ensures Traces(sb, fs, Bmap(sb, fs, i, bn), id, h)
  {
    hide Traces, EnsureSlot, Slot, InUse, SlotsOwn, OwnersPoint, BitsMatch;
    if bn < NDIRECT {
      h := EnsureTraces(sb, fs, o, i, bn, id);
    } else {
      h := EnsureTraces(sb, fs, o, i, IND, id);
      var p := EnsureExtends(sb, fs, o, i, IND);
      var d := EnsureSlot(sb, fs, i, IND);
      if Slot(sb, d, i, IND) != 0 {
        var g := EnsureTraces(sb, d, p, i, bn + 1, id);
        TracesTrans(sb, fs, d, EnsureSlot(sb, d, i, bn + 1), id, h, g);
        h := h + g;
      }
    }
  }

  lemma StepTraces(sb: Super, fs: FS, o: Owner, i: nat, pos: nat, data: seq<Byte>, id: nat) returns (h: History)
    requires Owned(sb, fs, o) && i < sb.ninodes && pos < MAXBYTES && pos % BSIZE + |data| <= BSIZE
    requires WriteStep(sb, fs, i, pos, data).Done?
    ensures Traces(sb, fs, WriteStep(sb, fs, i, pos, data).fs, id, h)
  {
    hide Traces, Bmap, Slot, InUse, BitsMatch;
    var d := Bmap(sb, fs, i, pos / BSIZE);
    h := BmapTraces(sb, fs, o, i, pos / BSIZE, id);
    var p := BmapExtends(sb, fs, o, i, pos / BSIZE);
    var a := BlockOf(sb, d, i, pos);
    assert a in p;
    var v := Splice(d.blocks[a], pos % BSIZE, data);
    TracesWrite(sb, fs, d, id, h, a, v);
    h := h + [Write(id, a, v)];
  }

  lemma {:induction false} LoopTraces(sb: Super, fs: FS, o: Owner, i: nat, off: nat, src: seq<Byte>, tot: nat, id: nat)
    returns (h: History)
    requires Owned(sb, fs, o) && i < sb.ninodes && off + |src| <= MAXBYTES && tot <= |src|
    requires WriteLoop(sb, fs, i, off, src, tot).Done?
    ensures Traces(sb, fs, WriteLoop(sb, fs, i, off, src, tot).fs, id, h)
    decreases |src| - tot
  {
    hide Traces, WriteStep, SlotsOwn, OwnersPoint, BitsMatch, Written, MetaKept, Mapped;
    if tot == |src| {
      h := [];
      TracesNothing(sb, fs, fs, id);
    } else {
      var m := Turn(off, tot, |src|);
      var x := src[tot..tot + m];
      h := StepTraces(sb, fs, o, i, off + tot, x, id);
      var d := WriteStep(sb, fs, i, off + tot, x).fs;
      var p := WriteStepEffect(sb, fs, o, i, off + tot, x);
      var g := LoopTraces(sb, d, p, i, off, src, tot + m, id);
      TracesTrans(sb, fs, d, WriteLoop(sb, fs, i, off, src, tot).fs, id, h, g);
      h := h + g;
    }
  }

  lemma FinishTraces(sb: Super, fs: FS, i: nat, end: Word, n: nat, id: nat) returns (h: History)
    requires Shape(sb, fs) && i < sb.ninodes
    ensures Traces(sb, fs, Finish(sb, fs, i, end, n), id, h)
  {
    hide Traces, WriteDinode;
    h := [];
    TracesNothing(sb, fs, fs, id);
    if n > 0 && end > fs.inodes[i].size {
      var d := SetSize(fs, i, end);
      TracesInodes(sb, fs, fs, d, id, []);
      var b := IBlock(sb, i);
      var v := WriteDinode(d.blocks[b], i % IPB, d.inodes[i]);
      TracesWrite(sb, fs, d, id, [], b, v);
      h := [] + [Write(id, b, v)];
    }
  }

  /** All a `writei` does to the disk goes through `log_write`, to blocks behind the log. */
  lemma WriteiTraces(sb: Super, fs: FS, o: Owner, i: nat, off: Word, src: seq<Byte>, id: nat) returns (h: History)
    requires Owned(sb, fs, o) && i < sb.ninodes && |src| < 0x1_0000_0000 && Writei(sb, fs, i, off, src).Wrote?
    ensures Traces(sb, fs, Writei(sb, fs, i, off, src).fs, id, h)
  {
    hide Traces, WriteLoop, Finish, SlotsOwn, OwnersPoint, BitsMatch;
    WriteiRefuses(sb, fs, i, off, src);
    var d := WriteLoop(sb, fs, i, off, src, 0).fs;
    h := LoopTraces(sb, fs, o, i, off, src, 0, id);
    var g := FinishTraces(sb, d, i, off + |src|, |src|, id);
    TracesTrans(sb, fs, d, Finish(sb, d, i, off + |src|, |src|), id, h, g);
    h := h + g;
  }

  lemma IupdateTraces(sb: Super, fs: FS, e: FS, i: nat, id: nat, h: History) returns (g: History)
    requires Traces(sb, fs, e, id, h) && Shape(sb, e) && i < sb.ninodes
    ensures Traces(sb, fs, Iupdate(sb, e, i), id, g)
  {
    hide Traces, WriteDinode;
    var b := IBlock(sb, i);
    var v := WriteDinode(e.blocks[b], i % IPB, e.inodes[i]);
    TracesWrite(sb, fs, e, id, h, b, v);
    g := h + [Write(id, b, v)];
  }

  lemma VisitTraces(sb: Super, fs: FS, i: nat, n: nat, id: nat) returns (h: History)
    requires Shape(sb, fs) && i < sb.ninodes && n < VISITS && Visit(sb, fs, i, n).Done?
    ensures Traces(sb, fs, Visit(sb, fs, i, n).fs, id, h)
  {
    hide Traces;
    h := [];
    TracesNothing(sb, fs, fs, id);
    var k := VisitSlot(n);
    var b := Slot(sb, fs, i, k);
    if b != 0 {
      var m := BBlock(sb, b);
      var v := Bitmap.PutBit(fs.blocks[m], b % Bitmap.BPB, false);
      TracesWrite(sb, fs, fs, id, [], m, v);
      h := [] + [Write(id, m, v)];
      TracesInodes(sb, fs, LogWrite(fs, m, v), Visit(sb, fs, i, n).fs, id, h);
    }
  }

  lemma {:induction false} TruncLoopTraces(sb: Super, fs: FS, i: nat, n: nat, id: nat) returns (h: History)
    requires Shape(sb, fs) && i < sb.ninodes && n <= VISITS && TruncLoop(sb, fs, i, n).Done?
    ensures Traces(sb, fs, TruncLoop(sb, fs, i, n).fs, id, h)
    decreases VISITS - n
  {
    hide Traces, Visit;
    if n == VISITS {
      h := [];
      TracesNothing(sb, fs, fs, id);
    } else {
      h := VisitTraces(sb, fs, i, n, id);
      var d := Visit(sb, fs, i, n).fs;
      var g := TruncLoopTraces(sb, d, i, n + 1, id);
      TracesTrans(sb, fs, d, TruncLoop(sb, d, i, n + 1).fs, id, h, g);
      h := h + g;
    }
  }

  /** So does an `itrunc`. */
  lemma ItruncTraces(sb: Super, fs: FS, i: nat, id: nat) returns (h: History)
    requires Shape(sb, fs) && i < sb.ninodes && Itrunc(sb, fs, i).Done?
    ensures Traces(sb, fs, Itrunc(sb, fs, i).fs, id, h)
  {
    hide Traces, TruncLoop, Iupdate;
    h := TruncLoopTraces(sb, fs, i, 0, id);
    var d := TruncLoop(sb, fs, i, 0).fs;
    TracesInodes(sb, fs, d, SetSize(d, i, 0), id, h);
    h := IupdateTraces(sb, fs, SetSize(d, i, 0), i, id, h);
  }
}
