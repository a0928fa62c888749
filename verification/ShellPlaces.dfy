/** Where the parts of a parsed command stand in the line: the sides of a pipe or a list on the two
    sides of their separator, arguments in order, and every file behind its operator. */
module ShellPlaces {
  import opened ShellGrammar
  import opened ShellTokens
  import opened ShellReading

  // ---------------------------------------------------------------- places in the text

  ghost predicate Spaces(text: string, i: nat, j: nat) {
    j <= |text| && forall k :: i <= k < j ==> IsSpace(text[k])
  }

  /** The operator stands before the file with only space between them, and not before lo. */
  ghost predicate Names(text: string, lo: nat, op: char, file: Span) {
    exists p :: lo <= p < file.q <= |text| && text[p] == op && Spaces(text, p + 1, file.q)
  }

  /** The command was written between lo and hi. */
  ghost predicate Written(text: string, cmd: Cmd, lo: nat, hi: nat)
    decreases cmd
  {
    && lo <= hi <= |text|
    && match cmd
       case Exec(argv) =>
         && (forall i :: 0 <= i < |argv| ==> lo <= argv[i].q < argv[i].eq <= hi)
         && forall i, j :: 0 <= i < j < |argv| ==> argv[i].eq <= argv[j].q
       case Redir(c, file, write, fd) =>
         && Names(text, lo, if write then '>' else '<', file)
         && file.q < file.eq <= hi && fd == (if write then 1 else 0) && Written(text, c, lo, hi)
       case Pipe(l, r) =>
         exists m :: lo <= m < hi && text[m] == '|' && Written(text, l, lo, m) && Written(text, r, m + 1, hi)
       case List(l, r) =>
         exists m :: lo <= m < hi && text[m] == ';' && Written(text, l, lo, m) && Written(text, r, m + 1, hi)
       case Back(c) => exists m :: lo <= m < hi && text[m] == '&' && Written(text, c, lo, m)
  }

  // ---------------------------------------------------------------- places of tokens

  /** The token is the text at its place. */
  ghost predicate Stands(text: string, t: Token) {
    && t.q < t.eq <= |text|
    && (t.kind != 'a' ==> text[t.eq - 1] == if t.kind == '+' then '>' else t.kind)
    && (t.kind != 'a' && t.kind != '+' ==> t.eq == t.q + 1)
    && (t.kind == '+' ==> t.eq == t.q + 2 && text[t.q] == '>')
    && (t.kind == '>' && t.eq < |text| ==> text[t.eq] != '>')
  }

  ghost predicate Paired(ts: seq<Token>) {
    forall i :: 0 <= i < |ts| && IsRedirOp(ts[i]) ==> i + 1 < |ts| && ts[i + 1].kind == 'a'
  }

  /** Tokens between lo and hi in the order of the text, every operator directly before its file. */
  ghost predicate InOrder(text: string, ts: seq<Token>, lo: nat, hi: nat) {
    && lo <= hi <= |text| && Paired(ts)
    && (forall i :: 0 <= i < |ts| ==> Stands(text, ts[i]) && lo <= ts[i].q && ts[i].eq <= hi)
    && (forall i, j :: 0 <= i < j < |ts| ==> ts[i].eq <= ts[j].q)
    && forall i :: 0 <= i < |ts| && IsRedirOp(ts[i]) ==> i + 1 < |ts| && Spaces(text, ts[i].eq, ts[i + 1].q)
  }

  lemma LeftOf(text: string, ts: seq<Token>, lo: nat, hi: nat, k: nat)
    requires InOrder(text, ts, lo, hi) && k < |ts| && ts[k].kind != 'a' && !IsRedirOp(ts[k])
    ensures InOrder(text, ts[..k], lo, ts[k].q)
  {
    assert Stands(text, ts[k]);
    hide Stands, Spaces;
  }

  lemma RightOf(text: string, ts: seq<Token>, lo: nat, hi: nat, k: nat)
    requires InOrder(text, ts, lo, hi) && k < |ts|
    ensures ts[k].eq <= hi && InOrder(text, ts[k + 1..], ts[k].eq, hi)
  {
    assert Stands(text, ts[k]);
    hide Stands, Spaces;
    var b := ts[k + 1..];
    assert forall i :: 0 <= i < |b| ==> b[i] == ts[k + 1 + i];
  }

  lemma Without(text: string, ts: seq<Token>, lo: nat, hi: nat, k: nat)
    requires InOrder(text, ts, lo, hi) && k + 1 < |ts| && IsRedirOp(ts[k])
    ensures InOrder(text, ts[..k] + ts[k + 2..], lo, hi)
  {
    hide Stands, Spaces;
    var b := ts[..k] + ts[k + 2..];
    assert forall i :: 0 <= i < |b| ==> b[i] == if i < k then ts[i] else ts[i + 2];
    assert k > 0 ==> !IsRedirOp(ts[k - 1]);
  }

  lemma BothWritten(text: string, l: Cmd, r: Cmd, lo: nat, m: nat, hi: nat)
    requires Written(text, l, lo, m) && m < hi && Written(text, r, m + 1, hi)
    ensures text[m] == '|' ==> Written(text, Pipe(l, r), lo, hi)
    ensures text[m] == ';' ==> Written(text, List(l, r), lo, hi)
  {
  }

  lemma BackWritten(text: string, c: Cmd, lo: nat, m: nat, hi: nat)
    requires Written(text, c, lo, m) && m < hi <= |text| && text[m] == '&'
    ensures Written(text, Back(c), lo, hi)
  {
  }

  lemma FileWritten(text: string, c: Cmd, lo: nat, hi: nat, file: Span, write: bool)
    requires Written(text, c, lo, hi) && file.q < file.eq <= hi && Names(text, lo, if write then '>' else '<', file)
    ensures Written(text, Redir(c, file, write, if write then 1 else 0), lo, hi)
  {
  }

  /** The two sides of a separator. */
  lemma Sides(text: string, ts: seq<Token>, lo: nat, hi: nat, k: nat)
    requires InOrder(text, ts, lo, hi) && k < |ts| && (ts[k].kind == ';' || ts[k].kind == '|' || ts[k].kind == '&')
    ensures lo <= ts[k].q < hi <= |text| && text[ts[k].q] == ts[k].kind
    ensures InOrder(text, ts[..k], lo, ts[k].q) && InOrder(text, ts[k + 1..], ts[k].q + 1, hi)
  {
    assert Stands(text, ts[k]) && lo <= ts[k].q && ts[k].eq <= hi;
    hide InOrder;
    LeftOf(text, ts, lo, hi, k);
    RightOf(text, ts, lo, hi, k);
  }

  lemma RedirWritten(text: string, ts: seq<Token>, lo: nat, hi: nat, k: nat)
    requires InOrder(text, ts, lo, hi) && k + 1 < |ts| && IsRedirOp(ts[k])
    ensures InOrder(text, ts[..k] + ts[k + 2..], lo, hi) && ts[k + 1].q < ts[k + 1].eq <= hi
    ensures Names(text, lo, if ts[k].kind != '<' then '>' else '<', SpanOf(ts[k + 1]))
  {
    Without(text, ts, lo, hi, k);
    assert Stands(text, ts[k]) && Stands(text, ts[k + 1]);
    var p := ts[k].eq - 1;
    assert lo <= p < ts[k + 1].q && Spaces(text, p + 1, ts[k + 1].q);
  }

  lemma Inside(text: string, ts: seq<Token>, lo: nat, hi: nat)
    requires InOrder(text, ts, lo, hi) && |ts| >= 2 && ts[|ts| - 1].kind == ')'
    ensures InOrder(text, ts[1..|ts| - 1], lo, hi)
  {
    hide Stands, Spaces;
    var inner := ts[1..|ts| - 1];
    assert forall i :: 0 <= i < |inner| ==> inner[i] == ts[i + 1];
  }

  lemma WordsWritten(text: string, ts: seq<Token>, lo: nat, hi: nat)
    requires InOrder(text, ts, lo, hi)
    ensures Written(text, Exec(Spans(ts)), lo, hi)
  {
    var argv := Spans(ts);
    forall i | 0 <= i < |argv|
      ensures lo <= argv[i].q < argv[i].eq <= hi
    {
      assert Stands(text, ts[i]);
    }
  }

  /** The reading of tokens is written where the tokens stand. */
  lemma {:induction false} ReadingWritten(text: string, ts: seq<Token>, lo: nat, hi: nat)
    requires InOrder(text, ts, lo, hi)
    ensures Written(text, Reading(ts), lo, hi)
    decreases |ts|
  {
    hide InOrder, Names, Written, CutOf;
    match CutOf(ts)
    case Semi(k) =>
      Sides(text, ts, lo, hi, k);
      ReadingWritten(text, ts[..k], lo, ts[k].q);
      ReadingWritten(text, ts[k + 1..], ts[k].q + 1, hi);
      BothWritten(text, Reading(ts[..k]), Reading(ts[k + 1..]), lo, ts[k].q, hi);
    case Amp =>
      var k := |ts| - 1;
      Sides(text, ts, lo, hi, k);
      ReadingWritten(text, ts[..k], lo, ts[k].q);
      BackWritten(text, Reading(ts[..k]), lo, ts[k].q, hi);
    case Bar(k) =>
      Sides(text, ts, lo, hi, k);
      ReadingWritten(text, ts[..k], lo, ts[k].q);
      ReadingWritten(text, ts[k + 1..], ts[k].q + 1, hi);
      BothWritten(text, Reading(ts[..k]), Reading(ts[k + 1..]), lo, ts[k].q, hi);
    case File(k) =>
      RedirWritten(text, ts, lo, hi, k);
      var rest := ts[..k] + ts[k + 2..];
      ReadingWritten(text, rest, lo, hi);
      FileWritten(text, Reading(rest), lo, hi, SpanOf(ts[k + 1]), ts[k].kind != '<');
    case Parens =>
      Inside(text, ts, lo, hi);
      ReadingWritten(text, ts[1..|ts| - 1], lo, hi);
    case Nowhere => WordsWritten(text, ts, lo, hi);
  }

  // ---------------------------------------------------------------- the tokens of a line

  lemma PairedConcat(a: seq<Token>, b: seq<Token>)
    requires Paired(a) && Paired(b)
    ensures Paired(a + b)
  {
    var ts := a + b;
    forall i | 0 <= i < |ts| && IsRedirOp(ts[i])
      ensures i + 1 < |ts| && ts[i + 1].kind == 'a'
    {
      if i < |a| {
        assert IsRedirOp(a[i]);
      } else {
        assert IsRedirOp(b[i - |a|]);
      }
    }
  }

  lemma {:induction false} PairedItems(items: seq<Item>)
    requires GoodItems(items)
    ensures Paired(YieldItems(items))
  {
    if items != [] {
      assert GoodItem(items[0]);
      PairedItems(items[1..]);
      PairedConcat(YieldItem(items[0]), YieldItems(items[1..]));
    }
  }

  lemma {:induction false} PairedExec(d: DExec)
    requires GoodExec(d)
    ensures Paired(YieldExec(d))
    decreases d, 0
  {
    hide Paired;
    match d
    case Simple(items) => PairedItems(items);
    case Block(open, line, close, redirs) =>
      PairedLine(line);
      PairedItems(redirs);
      NoOp(open);
      NoOp(close);
      PairedConcat([open], YieldLine(line));
      PairedConcat([open] + YieldLine(line), [close]);
      PairedConcat([open] + YieldLine(line) + [close], YieldItems(redirs));
  }

  lemma NoOp(t: Token)
    requires !IsRedirOp(t)
    ensures Paired([t])
  {
  }

  lemma {:induction false} PairedPipe(d: DPipe)
    requires GoodPipe(d)
    ensures Paired(YieldPipe(d))
    decreases d, 0
  {
    hide Paired;
    PairedExec(d.exec);
    if d.Piped? {
      PairedPipe(d.rest);
      NoOp(d.bar);
      PairedConcat(YieldExec(d.exec), [d.bar]);
      PairedConcat(YieldExec(d.exec) + [d.bar], YieldPipe(d.rest));
    }
  }

  lemma {:induction false} PairedLine(d: DLine)
    requires GoodLine(d)
    ensures Paired(YieldLine(d))
    decreases d, 0
  {
    PairedPipe(d.pipe);
    assert Paired(d.amps);
    var front := YieldPipe(d.pipe) + d.amps;
    PairedConcat(YieldPipe(d.pipe), d.amps);
    if d.Then? {
      PairedLine(d.rest);
      PairedConcat(front, [d.semi]);
      PairedConcat(front + [d.semi], YieldLine(d.rest));
    }
  }

  lemma {:induction false} SkipsSpaces(text: string, i: nat)
    requires i <= |text|
    ensures Spaces(text, i, SkipSpace(text, i))
    decreases |text| - i
  {
    if i < |text| && IsSpace(text[i]) {
      SkipsSpaces(text, i + 1);
    }
  }

  /** Tokens follow each other in the text with only space between them. */
  lemma {:induction false} TokensFollow(text: string, i: nat, k: nat)
    requires i <= |text| && k < |Tokens(text, i)|
    ensures var ts := Tokens(text, i);
            && Stands(text, ts[k]) && i <= ts[k].q
            && (forall j :: k < j < |ts| ==> ts[k].eq <= ts[j].q)
            && (k + 1 < |ts| ==> Spaces(text, ts[k].eq, ts[k + 1].q))
    decreases |text| - i
  {
    var ts := Tokens(text, i);
    var s := SkipSpace(text, i);
    var e := TokenAt(text, s).eq;
    var more := Tokens(text, e);
    assert ts == [TokenAt(text, s)] + more;
    if k > 0 {
      TokensFollow(text, e, k - 1);
      assert forall j :: k < j < |ts| ==> ts[j] == more[j - 1];
    } else {
      forall j | 0 < j < |ts|
        ensures e <= ts[j].q
      {
        TokensFollow(text, e, j - 1);
      }
      SkipsSpaces(text, e);
    }
  }

  /** The command of a line is written in the line. */
  lemma LineWritten(text: string, d: DLine)
    requires GoodLine(d) && YieldLine(d) == Tokens(text, 0)
    ensures CmdLine(d) == Reading(Tokens(text, 0)) && Written(text, CmdLine(d), 0, |text|)
  {
    hide GoodLine, YieldLine, CmdLine, Tokens, Written, Reading, Stands, Spaces;
    LineReads(d);
    PairedLine(d);
    var ts := Tokens(text, 0);
    forall k | 0 <= k < |ts|
      ensures Stands(text, ts[k]) && ts[k].eq <= |text|
      ensures forall j :: k < j < |ts| ==> ts[k].eq <= ts[j].q
      ensures k + 1 < |ts| ==> Spaces(text, ts[k].eq, ts[k + 1].q)
    {
      TokensFollow(text, 0, k);
      TokensGood(text, 0, k);
    }
    assert InOrder(text, ts, 0, |text|);
    ReadingWritten(text, ts, 0, |text|);
  }
}
