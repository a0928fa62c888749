/** What a command line means, read off its tokens by precedence: ';' binds loosest, then '&', then '|',
    then redirections, then parentheses.  The parser's command is this one. */
module ShellReading {
  import opened ShellGrammar

  // ---------------------------------------------------------------- parentheses

  function Opens(t: Token): int {
    if t.kind == '(' then 1 else if t.kind == ')' then -1 else 0
  }

  /** Parentheses open before token k. */
  function Depth(ts: seq<Token>, k: nat): int
    requires k <= |ts|
  {
    if k == 0 then 0 else Depth(ts, k - 1) + Opens(ts[k - 1])
  }

  /** Token k is of this kind and outside all parentheses. */
  predicate IsTop(ts: seq<Token>, k: nat, kind: char) {
    k < |ts| && ts[k].kind == kind && Depth(ts, k) == 0
  }

  predicate IsTopRedir(ts: seq<Token>, k: nat) {
    k < |ts| && IsRedirOp(ts[k]) && Depth(ts, k) == 0
  }

  /** The first such token from k on, or the end. */
  function FirstTop(ts: seq<Token>, kind: char, k: nat): (r: nat)
    requires k <= |ts|
    ensures k <= r <= |ts| && (r < |ts| ==> IsTop(ts, r, kind)) && forall j :: k <= j < r ==> !IsTop(ts, j, kind)
    decreases |ts| - k
  {
    if k == |ts| || IsTop(ts, k, kind) then k else FirstTop(ts, kind, k + 1)
  }

  /** The last redirection operator outside parentheses before token k, or k if there is none. */
  function LastRedir(ts: seq<Token>, k: nat): (r: nat)
    requires k <= |ts|
    ensures r <= k && (r < k ==> IsTopRedir(ts, r))
    ensures forall j :: (if r < k then r + 1 else 0) <= j < k ==> !IsTopRedir(ts, j)
  {
    if k == 0 then 0
    else if IsTopRedir(ts, k - 1) then k - 1
    else
      var r := LastRedir(ts, k - 1);
      if r == k - 1 then k else r
  }

  // ---------------------------------------------------------------- reading by precedence

  function SpanOf(t: Token): Span {
    Span(t.q, t.eq)
  }

  function Spans(ts: seq<Token>): (s: seq<Span>)
    ensures |s| == |ts| && forall k :: 0 <= k < |ts| ==> s[k] == SpanOf(ts[k])
  {
    seq(|ts|, k requires 0 <= k < |ts| => SpanOf(ts[k]))
  }

  /** Where a list of tokens comes apart. */
  datatype Cut = Semi(k: nat) | Amp | Bar(k: nat) | File(k: nat) | Parens | Nowhere

  function CutOf(ts: seq<Token>): (c: Cut)
    ensures match c
            case Semi(k) => k < |ts| && ts[k].kind == ';'
            case Amp => ts != [] && ts[|ts| - 1].kind == '&'
            case Bar(k) => k < |ts| && ts[k].kind == '|'
            case File(k) => k + 1 < |ts| && IsRedirOp(ts[k])
            case Parens => |ts| >= 2 && ts[0].kind == '(' && ts[|ts| - 1].kind == ')'
            case Nowhere => true
  {
    var n := |ts|;
    var semi, bar, op := FirstTop(ts, ';', 0), FirstTop(ts, '|', 0), LastRedir(ts, n);
    if semi < n then Semi(semi)
    else if n > 0 && ts[n - 1].kind == '&' then Amp
    else if bar < n then Bar(bar)
    else if op + 1 < n then File(op)
    else if n >= 2 && ts[0].kind == '(' && ts[n - 1].kind == ')' then Parens
    else Nowhere
  }

  /** The command a list of tokens stands for. */
  function Reading(ts: seq<Token>): Cmd
    decreases |ts|
  {
    match CutOf(ts)
    case Semi(k) => List(Reading(ts[..k]), Reading(ts[k + 1..]))
    case Amp => Back(Reading(ts[..|ts| - 1]))
    case Bar(k) => Pipe(Reading(ts[..k]), Reading(ts[k + 1..]))
    case File(k) =>
      Redir(Reading(ts[..k] + ts[k + 2..]), SpanOf(ts[k + 1]), ts[k].kind != '<', if ts[k].kind == '<' then 0 else 1)
    case Parens => Reading(ts[1..|ts| - 1])
    case Nowhere => Exec(Spans(ts))
  }

  // ---------------------------------------------------------------- depth in derivations

  lemma {:induction false} DepthLeft(a: seq<Token>, b: seq<Token>, k: nat)
    requires k <= |a|
    ensures Depth(a + b, k) == Depth(a, k)
  {
    if k > 0 {
      DepthLeft(a, b, k - 1);
    }
  }

  lemma {:induction false} DepthRight(a: seq<Token>, b: seq<Token>, k: nat)
    requires k <= |b|
    ensures Depth(a + b, |a| + k) == Depth(a, |a|) + Depth(b, k)
  {
    if k == 0 {
      DepthLeft(a, b, |a|);
    } else {
      DepthRight(a, b, k - 1);
    }
  }

  /** Every parenthesis is closed again. */
  ghost predicate Balanced(ts: seq<Token>) {
    Depth(ts, |ts|) == 0 && forall k :: 0 <= k <= |ts| ==> Depth(ts, k) >= 0
  }

  lemma BalancedConcat(a: seq<Token>, b: seq<Token>)
    requires Balanced(a) && Balanced(b)
    ensures Balanced(a + b)
    ensures forall k, kind :: 0 <= k < |a| ==> (IsTop(a + b, k, kind) <==> IsTop(a, k, kind))
    ensures forall k, kind :: 0 <= k < |b| ==> (IsTop(a + b, |a| + k, kind) <==> IsTop(b, k, kind))
  {
    forall k | 0 <= k <= |a + b|
      ensures Depth(a + b, k) == if k <= |a| then Depth(a, k) else Depth(b, k - |a|)
    {
      if k <= |a| {
        DepthLeft(a, b, k);
      } else {
        DepthRight(a, b, k - |a|);
      }
    }
    assert Depth(a + b, |a|) == Depth(b, 0);
  }

  lemma FlatBalanced(ts: seq<Token>)
    requires forall k :: 0 <= k < |ts| ==> Opens(ts[k]) == 0
    ensures Balanced(ts) && forall k :: 0 <= k <= |ts| ==> Depth(ts, k) == 0
  {
    forall k | 0 <= k <= |ts|
      ensures Depth(ts, k) == 0
    {
      FlatDepth(ts, k);
    }
  }

  lemma {:induction false} FlatDepth(ts: seq<Token>, k: nat)
    requires k <= |ts| && forall j :: 0 <= j < |ts| ==> Opens(ts[j]) == 0
    ensures Depth(ts, k) == 0
  {
    if k > 0 {
      FlatDepth(ts, k - 1);
    }
  }

  /** Inside parentheses nothing is outside them. */
  lemma InParens(open: Token, ts: seq<Token>, close: Token)
    requires open.kind == '(' && close.kind == ')' && Balanced(ts)
    ensures var all := [open] + ts + [close];
            Balanced(all) && forall k :: 0 < k < |all| ==> Depth(all, k) > 0
  {
    var all, most := [open] + ts + [close], [open] + ts;
    forall k | 0 <= k <= |ts|
      ensures Depth(all, 1 + k) == 1 + Depth(ts, k)
    {
      DepthRight([open], ts, k);
      DepthLeft(most, [close], 1 + k);
      assert Depth([open], 1) == Depth([open], 0) + 1;
      assert most + [close] == all;
    }
    forall k | 0 < k < |all|
      ensures Depth(all, k) > 0
    {
      assert Depth(all, 1 + (k - 1)) == 1 + Depth(ts, k - 1);
    }
    assert Depth(all, |all|) == Depth(all, |all| - 1) - 1;
    assert Depth(all, 1 + |ts|) == 1 + Depth(ts, |ts|);
  }

  // ---------------------------------------------------------------- the parser's command is the reading

  /** Nowhere outside parentheses separates commands. */
  ghost predicate Single(ts: seq<Token>) {
    && Balanced(ts)
    && forall k :: 0 <= k < |ts| ==> !IsTop(ts, k, ';') && !IsTop(ts, k, '&') && !IsTop(ts, k, '|')
  }

  predicate IsPlain(t: Token) { t.kind == 'a' || IsRedirOp(t) }

  lemma PlainIsSingle(ts: seq<Token>)
    requires forall k :: 0 <= k < |ts| ==> IsPlain(ts[k])
    ensures Single(ts)
  {
    FlatBalanced(ts);
  }

  lemma SingleConcat(a: seq<Token>, b: seq<Token>)
    requires Single(a) && Single(b)
    ensures Single(a + b)
  {
    BalancedConcat(a, b);
    var ts := a + b;
    forall k | 0 <= k < |ts|
      ensures !IsTop(ts, k, ';') && !IsTop(ts, k, '&') && !IsTop(ts, k, '|')
    {
      if k >= |a| {
        assert IsTop(ts, |a| + (k - |a|), ts[k].kind) <==> IsTop(b, k - |a|, ts[k].kind);
      }
    }
  }

  lemma SingleLast(ts: seq<Token>)
    requires Single(ts) && ts != []
    ensures ts[|ts| - 1].kind != '&'
  {
    if ts[|ts| - 1].kind == '&' {
      assert Depth(ts, |ts|) == Depth(ts, |ts| - 1);
      assert IsTop(ts, |ts| - 1, '&');
    }
  }

  /** The last redirection is the outermost. */
  lemma ReadRedir(a: seq<Token>, op: Token, file: Token, tail: seq<Token>)
    requires Single(a) && IsRedirOp(op) && file.kind == 'a' && forall k :: 0 <= k < |tail| ==> tail[k].kind == 'a'
    ensures Reading(a + [op, file] + tail) == Redirected(Reading(a + tail), op, file)
  {
    var b := [op, file] + tail;
    var ts := a + b;
    assert ts == a + [op, file] + tail;
    PlainIsSingle(b);
    SingleConcat(a, b);
    SingleLast(ts);
    BalancedConcat(a, b);
    DepthRight(a, b, 0);
    assert IsTopRedir(ts, |a|);
    assert LastRedir(ts, |ts|) == |a|;
    assert CutOf(ts) == File(|a|);
    hide CutOf, LastRedir, FirstTop, IsTop, IsTopRedir, Single, Balanced, Depth;
    assert ts[..|a|] == a && ts[|a| + 2..] == tail;
  }

  function ItemWord(i: Item): seq<Token> {
    match i
    case Arg(w) => [w]
    case Into(_, _) => []
  }

  /** The argument tokens. */
  function WordTokens(items: seq<Item>): seq<Token> {
    if items == [] then [] else ItemWord(items[0]) + WordTokens(items[1..])
  }

  lemma {:induction false} YieldLast(items: seq<Item>, i: Item)
    ensures YieldItems(items + [i]) == YieldItems(items) + YieldItem(i)
  {
    var all := items + [i];
    if items == [] {
      assert all == [i] && all[1..] == [];
    } else {
      assert all[0] == items[0] && all[1..] == items[1..] + [i];
      hide YieldItem;
      YieldLast(items[1..], i);
    }
  }

  lemma {:induction false} WordsLast(items: seq<Item>, i: Item)
    ensures WordTokens(items + [i]) == WordTokens(items) + ItemWord(i)
  {
    var all := items + [i];
    if items == [] {
      assert all == [i] && all[1..] == [];
    } else {
      assert all[0] == items[0] && all[1..] == items[1..] + [i];
      hide ItemWord;
      WordsLast(items[1..], i);
    }
  }

  lemma {:induction false} PlainItems(items: seq<Item>)
    requires GoodItems(items)
    ensures forall k :: 0 <= k < |YieldItems(items)| ==> IsPlain(YieldItems(items)[k])
    ensures forall k :: 0 <= k < |WordTokens(items)| ==> WordTokens(items)[k].kind == 'a'
    ensures Spans(WordTokens(items)) == Words(items)
  {
    if items != [] {
      assert GoodItem(items[0]);
      PlainItems(items[1..]);
    }
  }

  lemma ReadInto(head: seq<Token>, front: seq<Item>, op: Token, file: Token, tail: seq<Token>)
    requires Single(head) && GoodItems(front) && forall k :: 0 <= k < |tail| ==> tail[k].kind == 'a'
    requires IsRedirOp(op) && file.kind == 'a'
    ensures Reading(head + (YieldItems(front) + [op, file]) + tail) ==
            Redirected(Reading(head + YieldItems(front) + tail), op, file)
  {
    hide Reading, Single, YieldItems;
    PlainItems(front);
    PlainIsSingle(YieldItems(front));
    SingleConcat(head, YieldItems(front));
    ReadRedir(head + YieldItems(front), op, file, tail);
    assert head + YieldItems(front) + [op, file] + tail == head + (YieldItems(front) + [op, file]) + tail;
  }

  /** Redirections are taken off from the last to the first, whatever words stand between them. */
  lemma {:induction false} ReadItems(head: seq<Token>, items: seq<Item>, tail: seq<Token>)
    requires Single(head) && GoodItems(items) && forall k :: 0 <= k < |tail| ==> tail[k].kind == 'a'
    ensures Reading(head + YieldItems(items) + tail) == Wrap(Reading(head + WordTokens(items) + tail), items)
    decreases |items|
  {
    hide Reading, Single;
    if items != [] {
      var front, i := items[..|items| - 1], items[|items| - 1];
      assert items == front + [i] && GoodItem(i) && GoodItems(front);
      YieldLast(front, i);
      WordsLast(front, i);
      hide YieldItems, WordTokens, GoodItems, Redirected;
      match i {
        case Arg(w) =>
          ReadItems(head, front, [w] + tail);
          assert head + YieldItems(front) + ([w] + tail) == head + YieldItems(items) + tail;
          assert head + WordTokens(front) + ([w] + tail) == head + WordTokens(items) + tail;
        case Into(op, file) =>
          ReadItems(head, front, tail);
          ReadInto(head, front, op, file, tail);
          assert WordTokens(front) == WordTokens(items);
      }
    }
  }

  lemma ReadWords(ts: seq<Token>)
    requires forall k :: 0 <= k < |ts| ==> ts[k].kind == 'a'
    ensures Reading(ts) == Exec(Spans(ts))
  {
  }

  /** Parentheses only group. */
  lemma ReadParens(open: Token, ts: seq<Token>, close: Token)
    requires open.kind == '(' && close.kind == ')' && Balanced(ts)
    ensures Single([open] + ts + [close]) && Reading([open] + ts + [close]) == Reading(ts)
  {
    var all := [open] + ts + [close];
    InParens(open, ts, close);
    assert Depth(all, 0) == 0;
    assert all[1..|all| - 1] == ts;
    assert forall k :: 0 <= k < |all| ==> !IsTopRedir(all, k);
  }

  lemma {:induction false} ExecReads(d: DExec)
    requires GoodExec(d)
    ensures Single(YieldExec(d)) && Reading(YieldExec(d)) == CmdExec(d)
    decreases d, 0
  {
    hide Reading, Single;
    match d
    case Simple(items) =>
      PlainItems(items);
      PlainIsSingle(YieldItems(items));
      PlainIsSingle([]);
      ReadItems([], items, []);
      assert [] + YieldItems(items) + [] == YieldItems(items);
      assert [] + WordTokens(items) + [] == WordTokens(items);
      ReadWords(WordTokens(items));
    case Block(open, line, close, redirs) =>
      LineReads(line);
      var head := [open] + YieldLine(line) + [close];
      ReadParens(open, YieldLine(line), close);
      PlainItems(redirs);
      PlainIsSingle(YieldItems(redirs));
      SingleConcat(head, YieldItems(redirs));
      ReadItems(head, redirs, []);
      assert |WordTokens(redirs)| == |Words(redirs)|;
      assert head + YieldItems(redirs) + [] == YieldExec(d);
      assert head + WordTokens(redirs) + [] == head;
  }

  lemma NoTopConcat(a: seq<Token>, mid: Token, b: seq<Token>, kind: char)
    requires Balanced(a) && Opens(mid) == 0 && mid.kind != kind && Balanced(b)
    requires forall k :: 0 <= k < |a| ==> !IsTop(a, k, kind)
    requires forall k :: 0 <= k < |b| ==> !IsTop(b, k, kind)
    ensures Balanced(a + [mid] + b) && forall k :: 0 <= k < |a + [mid] + b| ==> !IsTop(a + [mid] + b, k, kind)
  {
    var c := a + [mid];
    FlatBalanced([mid]);
    BalancedConcat(a, [mid]);
    BalancedConcat(c, b);
    forall k | 0 <= k < |c + b|
      ensures !IsTop(c + b, k, kind)
    {
      if k >= |c| {
        assert IsTop(c + b, |c| + (k - |c|), kind) <==> IsTop(b, k - |c|, kind);
      }
    }
  }

  /** A token behind balanced ones is outside parentheses, and the first of its kind if they hold none. */
  lemma FirstBehind(a: seq<Token>, mid: Token, b: seq<Token>)
    requires Balanced(a) && forall k :: 0 <= k < |a| ==> !IsTop(a, k, mid.kind)
    ensures IsTop(a + [mid] + b, |a|, mid.kind)
    ensures forall k :: 0 <= k < |a| ==> !IsTop(a + [mid] + b, k, mid.kind)
  {
    var ts := a + ([mid] + b);
    assert ts == a + [mid] + b;
    DepthLeft(a, [mid] + b, |a|);
    forall k | 0 <= k < |a|
      ensures !IsTop(ts, k, mid.kind)
    {
      DepthLeft(a, [mid] + b, k);
      assert !IsTop(a, k, mid.kind);
    }
  }

  /** The first '|' outside parentheses splits a pipeline. */
  lemma BarSplits(ts: seq<Token>, k: nat)
    requires Balanced(ts) && IsTop(ts, k, '|') && forall j :: 0 <= j < k ==> !IsTop(ts, j, '|')
    requires forall j :: 0 <= j < |ts| ==> !IsTop(ts, j, ';') && !IsTop(ts, j, '&')
    ensures Reading(ts) == Pipe(Reading(ts[..k]), Reading(ts[k + 1..]))
  {
    var n := |ts|;
    assert FirstTop(ts, ';', 0) == n;
    assert ts[n - 1].kind != '&' by {
      assert Depth(ts, n) == Depth(ts, n - 1) + Opens(ts[n - 1]);
      assert !IsTop(ts, n - 1, '&');
    }
    assert FirstTop(ts, '|', 0) == k by {
      assert IsTop(ts, k, '|');
    }
    assert CutOf(ts) == Bar(k);
    hide CutOf, LastRedir, FirstTop, IsTop, IsTopRedir, Balanced, Depth;
  }

  lemma ReadPipe(a: seq<Token>, bar: Token, b: seq<Token>)
    requires Single(a) && bar.kind == '|' && Balanced(b)
    requires forall k :: 0 <= k < |b| ==> !IsTop(b, k, ';') && !IsTop(b, k, '&')
    ensures Reading(a + [bar] + b) == Pipe(Reading(a), Reading(b))
  {
    hide Reading;
    var ts := a + [bar] + b;
    NoTopConcat(a, bar, b, ';');
    NoTopConcat(a, bar, b, '&');
    FirstBehind(a, bar, b);
    assert ts[..|a|] == a && ts[|a| + 1..] == b;
    BarSplits(ts, |a|);
  }

  lemma {:induction false} PipeReads(d: DPipe)
    requires GoodPipe(d)
    ensures Balanced(YieldPipe(d)) && Reading(YieldPipe(d)) == CmdPipe(d)
    ensures forall k :: 0 <= k < |YieldPipe(d)| ==> !IsTop(YieldPipe(d), k, ';') && !IsTop(YieldPipe(d), k, '&')
    decreases d, 0
  {
    hide Reading, Balanced, IsTop;
    ExecReads(d.exec);
    assert Single(YieldExec(d.exec));
    if d.Piped? {
      PipeReads(d.rest);
      ReadPipe(YieldExec(d.exec), d.bar, YieldPipe(d.rest));
      NoTopConcat(YieldExec(d.exec), d.bar, YieldPipe(d.rest), ';');
      NoTopConcat(YieldExec(d.exec), d.bar, YieldPipe(d.rest), '&');
    }
  }

  /** Every '&' at the end of a command puts it in the background once. */
  lemma {:induction false} ReadBacks(a: seq<Token>, amps: seq<Token>)
    requires Balanced(a) && AllAmps(amps) && forall k :: 0 <= k < |a| ==> !IsTop(a, k, ';')
    ensures Balanced(a + amps) && forall k :: 0 <= k < |a + amps| ==> !IsTop(a + amps, k, ';')
    ensures Reading(a + amps) == Backs(Reading(a), |amps|)
    decreases |amps|
  {
    hide Balanced, IsTop;
    if amps == [] {
      assert a + amps == a;
    } else {
      var front, amp := amps[..|amps| - 1], amps[|amps| - 1];
      ReadBacks(a, front);
      var b := a + front;
      assert a + amps == b + [amp] + [] && b == (a + amps)[..|a + amps| - 1];
      FlatBalanced([]);
      NoTopConcat(b, amp, [], ';');
      assert FirstTop(a + amps, ';', 0) == |a + amps|;
      assert CutOf(a + amps) == Amp;
      hide CutOf, FirstTop;
    }
  }

  /** The first ';' outside parentheses splits a list. */
  lemma ReadList(a: seq<Token>, semi: Token, b: seq<Token>)
    requires Balanced(a) && semi.kind == ';' && Balanced(b) && forall k :: 0 <= k < |a| ==> !IsTop(a, k, ';')
    ensures Balanced(a + [semi] + b) && Reading(a + [semi] + b) == List(Reading(a), Reading(b))
  {
    var ts := a + [semi] + b;
    FlatBalanced([semi]);
    BalancedConcat(a, [semi]);
    BalancedConcat(a + [semi], b);
    FirstBehind(a, semi, b);
    assert FirstTop(ts, ';', 0) == |a|;
    assert ts[..|a|] == a && ts[|a| + 1..] == b;
  }

  /** The command of a derivation is the reading of its tokens. */
  lemma {:induction false} LineReads(d: DLine)
    requires GoodLine(d)
    ensures Balanced(YieldLine(d)) && Reading(YieldLine(d)) == CmdLine(d)
    decreases d, 0
  {
    hide Reading, Balanced, IsTop;
    PipeReads(d.pipe);
    ReadBacks(YieldPipe(d.pipe), d.amps);
    if d.Then? {
      LineReads(d.rest);
      ReadList(YieldPipe(d.pipe) + d.amps, d.semi, YieldLine(d.rest));
    }
  }
}
