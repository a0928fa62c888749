/** The shell's grammar: derivations, the commands they stand for, and the recursive-descent
    parser over tokens. */
module ShellGrammar {
  const MAXARGS := 10

  /** A token of the given kind at positions q up to eq; 'a' is a word, '+' is >>. */
  datatype Token = Token(kind: char, q: nat, eq: nat)

  datatype Span = Span(q: nat, eq: nat)

  /** Parsed commands, as in the shell; strings are spans of the input buffer. */
  datatype Cmd =
    | Exec(argv: seq<Span>)
    | Redir(cmd: Cmd, file: Span, write: bool, fd: nat)
    | Pipe(left: Cmd, right: Cmd)
    | List(left: Cmd, right: Cmd)
    | Back(cmd: Cmd)

  // ---------------------------------------------------------------- derivations

  datatype Item = Arg(word: Token) | Into(op: Token, file: Token)

  datatype DExec = Simple(items: seq<Item>) | Block(open: Token, line: DLine, close: Token, redirs: seq<Item>)

  datatype DPipe = Last(exec: DExec) | Piped(exec: DExec, bar: Token, rest: DPipe)

  datatype DLine = Stop(pipe: DPipe, amps: seq<Token>) | Then(pipe: DPipe, amps: seq<Token>, semi: Token, rest: DLine)

  predicate IsRedirOp(t: Token) { t.kind == '<' || t.kind == '>' || t.kind == '+' }

  predicate GoodItem(i: Item) {
    match i
    case Arg(w) => w.kind == 'a'
    case Into(op, file) => IsRedirOp(op) && file.kind == 'a'
  }

  predicate GoodItems(items: seq<Item>) { forall k :: 0 <= k < |items| ==> GoodItem(items[k]) }

  function Words(items: seq<Item>): seq<Span> {
    if items == [] then []
    else (match items[0] case Arg(w) => [Span(w.q, w.eq)] case Into(_, _) => []) + Words(items[1..])
  }

  predicate GoodExec(d: DExec) {
    match d
    case Simple(items) => GoodItems(items) && |Words(items)| < MAXARGS
    case Block(open, line, close, redirs) =>
      open.kind == '(' && GoodLine(line) && close.kind == ')' && GoodItems(redirs) && Words(redirs) == []
  }

  predicate GoodPipe(d: DPipe) {
    match d
    case Last(e) => GoodExec(e)
    case Piped(e, bar, rest) => GoodExec(e) && bar.kind == '|' && GoodPipe(rest)
  }

  predicate AllAmps(ts: seq<Token>) { forall k :: 0 <= k < |ts| ==> ts[k].kind == '&' }

  predicate GoodLine(d: DLine) {
    GoodPipe(d.pipe) && AllAmps(d.amps) && (d.Then? ==> d.semi.kind == ';' && GoodLine(d.rest))
  }

  /** The tokens a derivation stands for, in order. */
  function YieldItem(i: Item): seq<Token> {
    match i
    case Arg(w) => [w]
    case Into(op, file) => [op, file]
  }

  function YieldItems(items: seq<Item>): seq<Token> {
    if items == [] then [] else YieldItem(items[0]) + YieldItems(items[1..])
  }

  function YieldExec(d: DExec): seq<Token> {
    match d
    case Simple(items) => YieldItems(items)
    case Block(open, line, close, redirs) => [open] + YieldLine(line) + [close] + YieldItems(redirs)
  }

  function YieldPipe(d: DPipe): seq<Token> {
    match d
    case Last(e) => YieldExec(e)
    case Piped(e, bar, rest) => YieldExec(e) + [bar] + YieldPipe(rest)
  }

  function YieldLine(d: DLine): seq<Token> {
    match d
    case Stop(p, amps) => YieldPipe(p) + amps
    case Then(p, amps, semi, rest) => YieldPipe(p) + amps + [semi] + YieldLine(rest)
  }

  // ---------------------------------------------------------------- the commands derivations stand for

  function Redirected(cmd: Cmd, op: Token, file: Token): Cmd {
    Redir(cmd, Span(file.q, file.eq), op.kind != '<', if op.kind == '<' then 0 else 1)
  }

  /** Redirections are wrapped round the command in the order they are read. */
  function Wrap(cmd: Cmd, items: seq<Item>): Cmd
    decreases |items|
  {
    if items == [] then cmd
    else
      var last := items[|items| - 1];
      var inner := Wrap(cmd, items[..|items| - 1]);
      match last
      case Arg(_) => inner
      case Into(op, file) => Redirected(inner, op, file)
  }

  function CmdExec(d: DExec): Cmd {
    match d
    case Simple(items) => Wrap(Exec(Words(items)), items)
    case Block(_, line, _, redirs) => Wrap(CmdLine(line), redirs)
  }

  function CmdPipe(d: DPipe): Cmd {
    match d
    case Last(e) => CmdExec(e)
    case Piped(e, _, rest) => Pipe(CmdExec(e), CmdPipe(rest))
  }

  function Backs(cmd: Cmd, n: nat): Cmd { if n == 0 then cmd else Back(Backs(cmd, n - 1)) }

  function CmdLine(d: DLine): Cmd {
    match d
    case Stop(p, amps) => Backs(CmdPipe(p), |amps|)
    case Then(p, amps, _, rest) => List(Backs(CmdPipe(p), |amps|), CmdLine(rest))
  }

  // ---------------------------------------------------------------- the parser over tokens

  datatype Parsed<T> = Fail | Done(value: T, rest: seq<Token>)

  predicate At(ts: seq<Token>, kind: char) { ts != [] && ts[0].kind == kind }

  predicate AtRedir(ts: seq<Token>) { ts != [] && IsRedirOp(ts[0]) }

  /** A token the argument loop of `parseexec` stops at. */
  predicate AtEnd(ts: seq<Token>) { ts == [] || At(ts, '|') || At(ts, ')') || At(ts, '&') || At(ts, ';') }

  function Prepend(items: seq<Item>, r: Parsed<seq<Item>>): Parsed<seq<Item>> {
    match r
    case Fail => Fail
    case Done(more, rest) => Done(items + more, rest)
  }

  function PRedirs(ts: seq<Token>): (r: Parsed<seq<Item>>)
    ensures r.Done? ==> |r.rest| <= |ts|
  {
    if !AtRedir(ts) then Done([], ts)
    else if |ts| < 2 || ts[1].kind != 'a' then Fail
    else Prepend([Into(ts[0], ts[1])], PRedirs(ts[2..]))
  }

  /** Redirections and words of a simple command that already has n arguments. */
  function PItems(ts: seq<Token>, n: nat): (r: Parsed<seq<Item>>)
    requires n < MAXARGS
    ensures r.Done? ==> |r.rest| <= |ts|
  {
    if AtRedir(ts) then
      if |ts| < 2 || ts[1].kind != 'a' then Fail
      else Prepend([Into(ts[0], ts[1])], PItems(ts[2..], n))
    else if AtEnd(ts) then Done([], ts)
    else if ts[0].kind != 'a' || n + 1 >= MAXARGS then Fail
    else Prepend([Arg(ts[0])], PItems(ts[1..], n + 1))
  }

  function PExec(ts: seq<Token>): (r: Parsed<DExec>)
    ensures r.Done? ==> |r.rest| <= |ts|
    decreases |ts|, 1
  {
    if At(ts, '(') then PBlock(ts)
    else match PItems(ts, 0)
      case Fail => Fail
      case Done(items, rest) => Done(Simple(items), rest)
  }

  function PBlock(ts: seq<Token>): (r: Parsed<DExec>)
    requires At(ts, '(')
    ensures r.Done? ==> |r.rest| <= |ts|
    decreases |ts|, 0
  {
    match PLine(ts[1..])
    case Fail => Fail
    case Done(line, r) =>
      if !At(r, ')') then Fail
      else match PRedirs(r[1..])
        case Fail => Fail
        case Done(redirs, rest) => Done(Block(ts[0], line, r[0], redirs), rest)
  }

  function PPipe(ts: seq<Token>): (r: Parsed<DPipe>)
    ensures r.Done? ==> |r.rest| <= |ts|
    decreases |ts|, 2
  {
    match PExec(ts)
    case Fail => Fail
    case Done(e, r) =>
      if !At(r, '|') then Done(Last(e), r)
      else match PPipe(r[1..])
        case Fail => Fail
        case Done(p, rest) => Done(Piped(e, r[0], p), rest)
  }

  /** The leading & tokens. */
  function Amps(ts: seq<Token>): (n: nat)
    ensures n <= |ts|
  {
    if At(ts, '&') then 1 + Amps(ts[1..]) else 0
  }

  function PLine(ts: seq<Token>): (r: Parsed<DLine>)
    ensures r.Done? ==> |r.rest| <= |ts|
    decreases |ts|, 3
  {
    match PPipe(ts)
    case Fail => Fail
    case Done(p, r) => PLineRest(p, r[..Amps(r)], r[Amps(r)..])
  }

  /** The end of a line: what follows its & tokens. */
  function PLineRest(p: DPipe, amps: seq<Token>, s: seq<Token>): (r: Parsed<DLine>)
    ensures r.Done? ==> |r.rest| <= |s|
    decreases |s|, 2
  {
    if !At(s, ';') then Done(Stop(p, amps), s)
    else match PLine(s[1..])
      case Fail => Fail
      case Done(line, rest) => Done(Then(p, amps, s[0], line), rest)
  }

  // ---------------------------------------------------------------- soundness

  lemma {:induction false} AmpsAre(ts: seq<Token>)
    ensures AllAmps(ts[..Amps(ts)]) && !At(ts[Amps(ts)..], '&')
  {
    if At(ts, '&') {
      AmpsAre(ts[1..]);
      assert ts[..Amps(ts)] == [ts[0]] + ts[1..][..Amps(ts[1..])];
      assert ts[Amps(ts)..] == ts[1..][Amps(ts[1..])..];
    }
  }

  lemma YieldFirst(i: Item, items: seq<Item>)
    ensures YieldItems([i] + items) == YieldItem(i) + YieldItems(items)
    ensures Words([i] + items) == (match i case Arg(w) => [Span(w.q, w.eq)] case Into(_, _) => []) + Words(items)
    ensures GoodItems([i] + items) <==> GoodItem(i) && GoodItems(items)
  {
    var all := [i] + items;
    assert all[1..] == items;
    assert forall k :: 0 <= k < |items| ==> all[k + 1] == items[k];
    hide GoodItem;
    if GoodItems(all) {
      assert all[0] == i;
    }
  }

  lemma {:induction false} PRedirsSound(ts: seq<Token>)
    requires PRedirs(ts).Done?
    ensures var r := PRedirs(ts);
            ts == YieldItems(r.value) + r.rest && GoodItems(r.value) && Words(r.value) == [] && !AtRedir(r.rest)
  {
    hide GoodItems, YieldItems, Words;
    EmptyItems();
    if AtRedir(ts) {
      PRedirsSound(ts[2..]);
      YieldFirst(Into(ts[0], ts[1]), PRedirs(ts[2..]).value);
      assert ts == [ts[0], ts[1]] + ts[2..];
    }
  }

  lemma EmptyItems()
    ensures YieldItems([]) == [] && Words([]) == [] && GoodItems([])
  {
  }

  /** One turn of the item loop. */
  lemma ItemsStep(ts: seq<Token>, n: nat)
    requires n < MAXARGS
    ensures AtRedir(ts) && (|ts| < 2 || ts[1].kind != 'a') ==> PItems(ts, n) == Fail
    ensures AtRedir(ts) && |ts| >= 2 && ts[1].kind == 'a' ==>
              PItems(ts, n) == Prepend([Into(ts[0], ts[1])], PItems(ts[2..], n))
    ensures !AtRedir(ts) && AtEnd(ts) ==> PItems(ts, n) == Done([], ts)
    ensures !AtRedir(ts) && !AtEnd(ts) && (ts[0].kind != 'a' || n + 1 >= MAXARGS) ==> PItems(ts, n) == Fail
    ensures !AtRedir(ts) && !AtEnd(ts) && ts[0].kind == 'a' && n + 1 < MAXARGS ==>
              PItems(ts, n) == Prepend([Arg(ts[0])], PItems(ts[1..], n + 1))
  {
  }

  lemma {:induction false} PItemsSound(ts: seq<Token>, n: nat)
    requires n < MAXARGS && PItems(ts, n).Done?
    ensures var r := PItems(ts, n);
            ts == YieldItems(r.value) + r.rest && GoodItems(r.value) && n + |Words(r.value)| < MAXARGS && AtEnd(r.rest)
    decreases |ts|
  {
    hide GoodItems, YieldItems, Words, PItems, AtEnd;
    EmptyItems();
    ItemsStep(ts, n);
    if AtRedir(ts) {
      PItemsSound(ts[2..], n);
      YieldFirst(Into(ts[0], ts[1]), PItems(ts[2..], n).value);
      assert ts == [ts[0], ts[1]] + ts[2..];
    } else if !AtEnd(ts) {
      NotEnd(ts);
      PItemsSound(ts[1..], n + 1);
      YieldFirst(Arg(ts[0]), PItems(ts[1..], n + 1).value);
      assert ts == [ts[0]] + ts[1..];
    }
  }

  lemma NotEnd(ts: seq<Token>)
    requires !AtEnd(ts)
    ensures ts != []
  {
  }

  lemma {:induction false} PExecSound(ts: seq<Token>)
    requires PExec(ts).Done?
    ensures ts == YieldExec(PExec(ts).value) + PExec(ts).rest && GoodExec(PExec(ts).value)
    decreases |ts|, 1
  {
    if At(ts, '(') {
      PBlockSound(ts);
    } else {
      PItemsSound(ts, 0);
    }
  }

  lemma {:induction false} PBlockSound(ts: seq<Token>)
    requires At(ts, '(') && PBlock(ts).Done?
    ensures ts == YieldExec(PBlock(ts).value) + PBlock(ts).rest && GoodExec(PBlock(ts).value)
    decreases |ts|, 0
  {
    hide PLine, PRedirs, YieldLine, YieldItems, GoodItems, GoodLine, Words;
    PLineSound(ts[1..]);
    var r := PLine(ts[1..]).rest;
    PRedirsSound(r[1..]);
    assert ts == [ts[0]] + ts[1..] && r == [r[0]] + r[1..];
  }

  lemma {:induction false} PPipeSound(ts: seq<Token>)
    requires PPipe(ts).Done?
    ensures ts == YieldPipe(PPipe(ts).value) + PPipe(ts).rest && GoodPipe(PPipe(ts).value)
    decreases |ts|, 2
  {
    hide PExec, YieldExec, GoodExec;
    PExecSound(ts);
    var r := PExec(ts).rest;
    if At(r, '|') {
      PPipeSound(r[1..]);
      assert r == [r[0]] + r[1..];
    }
  }

  lemma {:induction false} PLineSound(ts: seq<Token>)
    requires PLine(ts).Done?
    ensures ts == YieldLine(PLine(ts).value) + PLine(ts).rest && GoodLine(PLine(ts).value)
    decreases |ts|, 3
  {
    hide PPipe, YieldPipe, GoodPipe, AllAmps, Amps;
    PPipeSound(ts);
    var r := PPipe(ts).rest;
    AmpsAre(r);
    var amps, s := r[..Amps(r)], r[Amps(r)..];
    assert r == amps + s;
    if At(s, ';') {
      PLineSound(s[1..]);
      assert s == [s[0]] + s[1..];
    }
  }

  // ---------------------------------------------------------------- completeness

  lemma {:induction false} PRedirsComplete(items: seq<Item>, rest: seq<Token>)
    requires GoodItems(items) && Words(items) == [] && !AtRedir(rest)
    ensures PRedirs(YieldItems(items) + rest) == Done(items, rest)
  {
    if items == [] {
      assert YieldItems(items) + rest == rest;
    } else {
      assert items == [items[0]] + items[1..];
      YieldFirst(items[0], items[1..]);
      PRedirsComplete(items[1..], rest);
      var ts := YieldItems(items) + rest;
      assert ts == YieldItem(items[0]) + (YieldItems(items[1..]) + rest);
      assert ts[2..] == YieldItems(items[1..]) + rest;
    }
  }

  lemma {:induction false} PItemsComplete(items: seq<Item>, n: nat, rest: seq<Token>)
    requires GoodItems(items) && n + |Words(items)| < MAXARGS && AtEnd(rest)
    ensures PItems(YieldItems(items) + rest, n) == Done(items, rest)
    decreases |items|
  {
    hide PItems, YieldItems, Words;
    EmptyItems();
    var ts := YieldItems(items) + rest;
    ItemsStep(ts, n);
    if items == [] {
      assert ts == rest;
    } else {
      var i, more := items[0], items[1..];
      assert items == [i] + more;
      YieldFirst(i, more);
      var tail := YieldItems(more) + rest;
      assert ts == YieldItem(i) + tail;
      match i
      case Arg(w) =>
        PItemsComplete(more, n + 1, rest);
        assert ts[1..] == tail;
      case Into(op, file) =>
        PItemsComplete(more, n, rest);
        assert ts[2..] == tail;
    }
  }

  /** What may follow a simple command or block, a pipeline, a line. */
  predicate AfterExec(rest: seq<Token>) { AtEnd(rest) }

  predicate AfterPipe(rest: seq<Token>) { rest == [] || At(rest, ')') || At(rest, '&') || At(rest, ';') }

  predicate AfterLine(rest: seq<Token>) { rest == [] || At(rest, ')') }

  lemma {:induction false} PExecComplete(d: DExec, rest: seq<Token>)
    requires GoodExec(d) && AfterExec(rest)
    ensures PExec(YieldExec(d) + rest) == Done(d, rest)
    decreases d, 0
  {
    match d
    case Simple(items) =>
      NoParenFirst(items, rest);
      PItemsComplete(items, 0, rest);
    case Block(open, line, close, redirs) =>
      BlockComplete(d, rest);
  }

  lemma NoParenFirst(items: seq<Item>, rest: seq<Token>)
    requires GoodItems(items) && AtEnd(rest)
    ensures !At(YieldItems(items) + rest, '(')
  {
    if items != [] {
      assert GoodItem(items[0]);
    }
  }

  lemma {:induction false} BlockComplete(d: DExec, rest: seq<Token>)
    requires d.Block? && GoodExec(d) && AfterExec(rest)
    ensures PExec(YieldExec(d) + rest) == Done(d, rest)
    decreases d, 0, 0
  {
    hide PLine, PRedirs, YieldLine, YieldItems, GoodLine, GoodItems, Words;
    var ts := YieldExec(d) + rest;
    var tail := [d.close] + YieldItems(d.redirs) + rest;
    assert ts == [d.open] + (YieldLine(d.line) + tail);
    assert ts[1..] == YieldLine(d.line) + tail;
    PLineComplete(d.line, tail);
    assert tail[1..] == YieldItems(d.redirs) + rest;
    PRedirsComplete(d.redirs, rest);
  }

  lemma EndFollows(rest: seq<Token>)
    ensures AfterPipe(rest) || At(rest, '|') ==> AtEnd(rest)
    ensures AfterPipe(rest) ==> !At(rest, '|')
  {
  }

  lemma {:induction false} PPipeComplete(d: DPipe, rest: seq<Token>)
    requires GoodPipe(d) && AfterPipe(rest)
    ensures PPipe(YieldPipe(d) + rest) == Done(d, rest)
    decreases d, 0
  {
    hide PExec, YieldExec, GoodExec, AtEnd;
    EndFollows(rest);
    match d
    case Last(e) => PExecComplete(e, rest);
    case Piped(e, bar, p) =>
      EndFollows([bar] + YieldPipe(p) + rest);
      var tail := [bar] + YieldPipe(p) + rest;
      assert YieldPipe(d) + rest == YieldExec(e) + tail;
      PExecComplete(e, tail);
      assert tail[1..] == YieldPipe(p) + rest;
      PPipeComplete(p, rest);
  }

  lemma {:induction false} AmpsComplete(amps: seq<Token>, rest: seq<Token>)
    requires AllAmps(amps) && !At(rest, '&')
    ensures Amps(amps + rest) == |amps|
  {
    if amps == [] {
      assert amps + rest == rest;
    } else {
      assert (amps + rest)[1..] == amps[1..] + rest;
      AmpsComplete(amps[1..], rest);
    }
  }

  /** What a line leaves behind its pipeline. */
  function Behind(d: DLine, rest: seq<Token>): seq<Token> {
    if d.Stop? then rest else [d.semi] + YieldLine(d.rest) + rest
  }

  lemma LineYield(d: DLine, rest: seq<Token>)
    ensures YieldLine(d) + rest == YieldPipe(d.pipe) + (d.amps + Behind(d, rest))
    ensures d.Stop? ==> Behind(d, rest) == rest
  {
    hide YieldPipe;
    match d
    case Stop(p, amps) =>
    case Then(p, amps, semi, line) =>
      assert YieldPipe(p) + amps + [semi] + YieldLine(line) + rest ==
             YieldPipe(p) + (amps + ([semi] + YieldLine(line) + rest));
  }

  lemma LineFollows(d: DLine, rest: seq<Token>)
    requires AllAmps(d.amps) && (d.Then? ==> d.semi.kind == ';') && AfterLine(rest)
    ensures var s := Behind(d, rest);
            && AfterPipe(d.amps + s) && !At(s, '&') && (At(s, ';') <==> d.Then?)
            && (d.Then? ==> s[0] == d.semi && s[1..] == YieldLine(d.rest) + rest)
  {
    hide YieldLine;
    var s := Behind(d, rest);
    if d.amps != [] {
      assert (d.amps + s)[0] == d.amps[0];
    } else {
      assert d.amps + s == s;
    }
  }

  /** The parser finds every derivation: there is at most one, and it accepts exactly the grammar. */
  lemma {:induction false} PLineComplete(d: DLine, rest: seq<Token>)
    requires GoodLine(d) && AfterLine(rest)
    ensures PLine(YieldLine(d) + rest) == Done(d, rest)
    decreases d, 0
  {
    hide PPipe, YieldPipe, GoodPipe, Amps, YieldLine, AfterPipe, Behind;
    LineYield(d, rest);
    LineFollows(d, rest);
    var s := Behind(d, rest);
    var r := d.amps + s;
    PPipeComplete(d.pipe, r);
    AmpsComplete(d.amps, s);
    assert r[..|d.amps|] == d.amps && r[|d.amps|..] == s;
    if d.Then? {
      PLineComplete(d.rest, rest);
    }
  }
}
