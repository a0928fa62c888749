/** The shell's recursive-descent parser on the input buffer, against the token parser. */
module Shell {
  import opened ShellGrammar
  import opened ShellTokens

  datatype Parse = Panic | Ok(cmd: Cmd, pos: nat)

  /** r is what the token parser says about the tokens from pos on. */
  ghost predicate Agrees<T>(text: string, pos: nat, r: Parse, p: Parsed<T>, cmd: T -> Cmd)
    requires pos <= |text|
  {
    match p
    case Fail => r.Panic?
    case Done(d, rest) => r.Ok? && pos <= r.pos <= |text| && r.cmd == cmd(d) && Tokens(text, r.pos) == rest
  }

  lemma PrependNone(r: Parsed<seq<Item>>, items: seq<Item>, rest: seq<Token>)
    ensures Prepend([], r) == r && Prepend(items, Done([], rest)) == Done(items, rest)
  {
    assert items + [] == items;
    assert r.Done? ==> [] + r.value == r.value;
  }

  lemma PrependTwice(a: seq<Item>, b: seq<Item>, r: Parsed<seq<Item>>)
    ensures Prepend(a, Prepend(b, r)) == Prepend(a + b, r)
  {
    match r
    case Fail =>
    case Done(more, rest) => assert a + (b + more) == (a + b) + more;
  }

  lemma {:induction false} RedirsThenItems(ts: seq<Token>, n: nat)
    requires n < MAXARGS
    ensures PItems(ts, n) == if PRedirs(ts).Fail? then Fail else Prepend(PRedirs(ts).value, PItems(PRedirs(ts).rest, n))
  {
    if AtRedir(ts) && |ts| >= 2 && ts[1].kind == 'a' {
      RedirsThenItems(ts[2..], n);
      if PRedirs(ts[2..]).Done? {
        PrependTwice([Into(ts[0], ts[1])], PRedirs(ts[2..]).value, PItems(PRedirs(ts[2..]).rest, n));
      }
    } else if !AtRedir(ts) {
      PrependNone(PItems(ts, n), [], ts);
    }
  }

  /** `parseredirs`; ok is false for its panic. */
  method ParseRedirs(text: string, pos: nat) returns (ok: bool, items: seq<Item>, next: nat)
    requires pos <= |text| && '\0' !in text
    ensures !ok <==> PRedirs(Tokens(text, pos)).Fail?
    ensures ok ==> pos <= next <= |text| && PRedirs(Tokens(text, pos)) == Done(items, Tokens(text, next))
    ensures ok ==> !AtRedir(Tokens(text, next))
  {
    hide Tokens;
    PrependNone(PRedirs(Tokens(text, pos)), [], []);
    items, next := [], pos;
    var more;
    more, next := Peek(text, next, "<>");
    while more
      invariant pos <= next <= |text| && (more <==> AtRedir(Tokens(text, next)))
      invariant PRedirs(Tokens(text, pos)) == Prepend(items, PRedirs(Tokens(text, next)))
      decreases |text| - next
    {
      ghost var ts := Tokens(text, next);
      var op, q0, e0, after := Gettoken(text, next);
      var kind, q, eq, n := Gettoken(text, after);
      assert kind != '\0' ==> ts == [Token(op, q0, e0), Token(kind, q, eq)] + Tokens(text, n);
      if kind != 'a' {
        return false, [], next;
      }
      assert ts[2..] == Tokens(text, n);
      var item := Into(Token(op, q0, e0), Token('a', q, eq));
      PrependTwice(items, [item], PRedirs(Tokens(text, n)));
      items := items + [item];
      more, next := Peek(text, n, "<>");
    }
    PrependNone(Fail, items, Tokens(text, next));
    ok := true;
  }

  /** The argument loop of `parseexec`. */
  method ParseItems(text: string, pos: nat) returns (ok: bool, items: seq<Item>, next: nat)
    requires pos <= |text| && '\0' !in text
    ensures !ok <==> PItems(Tokens(text, pos), 0).Fail?
    ensures ok ==> pos <= next <= |text| && PItems(Tokens(text, pos), 0) == Done(items, Tokens(text, next))
  {
    hide Tokens, PItems, PRedirs;
    ghost var ts0 := Tokens(text, pos);
    RedirsThenItems(ts0, 0);
    ok, items, next := ParseRedirs(text, pos);
    if !ok {
      return;
    }
    var argc := 0;
    while true
      invariant pos <= next <= |text| && 0 <= argc < MAXARGS && ok && !AtRedir(Tokens(text, next))
      invariant PItems(ts0, 0) == Prepend(items, PItems(Tokens(text, next), argc))
      decreases |text| - next
    {
      var stop;
      stop, next := Peek(text, next, "|)&;");
      ghost var ts := Tokens(text, next);
      ItemsStep(ts, argc);
      if stop {
        assert items + [] == items;
        return;
      }
      var kind, q, eq, after := Gettoken(text, next);
      if kind == '\0' {
        assert items + [] == items;
        return;
      }
      assert ts[1..] == Tokens(text, after);
      if kind != 'a' || argc + 1 >= MAXARGS {
        return false, [], next;
      }
      argc := argc + 1;
      RedirsThenItems(Tokens(text, after), argc);
      ghost var word := Arg(Token('a', q, eq));
      PrependTwice(items, [word], PItems(Tokens(text, after), argc));
      var more;
      ok, more, next := ParseRedirs(text, after);
      if !ok {
        return;
      }
      PrependTwice(items + [word], more, PItems(Tokens(text, next), argc));
      items := items + [Arg(Token('a', q, eq))] + more;
    }
  }

  method ParseExec(text: string, pos: nat) returns (r: Parse)
    requires pos <= |text| && '\0' !in text
    ensures Agrees(text, pos, r, PExec(Tokens(text, pos)), CmdExec)
    decreases |text| - pos, 1
  {
    hide Tokens, PItems, PBlock;
    var block, at := Peek(text, pos, "(");
    if block {
      r := ParseBlock(text, at);
      return;
    }
    var ok, items, next := ParseItems(text, at);
    if !ok {
      return Panic;
    }
    return Ok(Wrap(Exec(Words(items)), items), next);
  }

  method ParseBlock(text: string, pos: nat) returns (r: Parse)
    requires pos <= |text| && '\0' !in text && At(Tokens(text, pos), '(')
    ensures Agrees(text, pos, r, PBlock(Tokens(text, pos)), CmdExec)
    decreases |text| - pos, 0
  {
    hide Tokens, PLine, PRedirs;
    var kind, q, eq, after := Gettoken(text, pos);
    assert Tokens(text, pos)[1..] == Tokens(text, after);
    var line := ParseLine(text, after);
    if line.Panic? {
      return Panic;
    }
    var close, at := Peek(text, line.pos, ")");
    if !close {
      return Panic;
    }
    ghost var ts := Tokens(text, at);
    kind, q, eq, after := Gettoken(text, at);
    assert ts[1..] == Tokens(text, after);
    var ok, items, next := ParseRedirs(text, after);
    if !ok {
      return Panic;
    }
    return Ok(Wrap(line.cmd, items), next);
  }

  method ParsePipe(text: string, pos: nat) returns (r: Parse)
    requires pos <= |text| && '\0' !in text
    ensures Agrees(text, pos, r, PPipe(Tokens(text, pos)), CmdPipe)
    decreases |text| - pos, 2
  {
    hide Tokens, PExec;
    r := ParseExec(text, pos);
    if r.Panic? {
      return;
    }
    var bar, at := Peek(text, r.pos, "|");
    if !bar {
      return Ok(r.cmd, at);
    }
    ghost var ts := Tokens(text, at);
    var kind, q, eq, after := Gettoken(text, at);
    assert ts[1..] == Tokens(text, after);
    var rest := ParsePipe(text, after);
    if rest.Panic? {
      return Panic;
    }
    return Ok(Pipe(r.cmd, rest.cmd), rest.pos);
  }

  /** The & loop of `parseline`. */
  method ParseAmps(text: string, pos: nat, cmd: Cmd) returns (c: Cmd, next: nat)
    requires pos <= |text| && '\0' !in text
    ensures pos <= next <= |text|
    ensures var ts := Tokens(text, pos); c == Backs(cmd, Amps(ts)) && Tokens(text, next) == ts[Amps(ts)..]
  {
    hide Tokens;
    ghost var ts := Tokens(text, pos);
    ghost var n := 0;
    c, next := cmd, pos;
    var amp;
    amp, next := Peek(text, next, "&");
    while amp
      invariant pos <= next <= |text| && 0 <= n <= |ts| && Tokens(text, next) == ts[n..]
      invariant (amp <==> At(ts[n..], '&')) && n + Amps(ts[n..]) == Amps(ts) && c == Backs(cmd, n)
      decreases |text| - next
    {
      var kind, q, eq, after := Gettoken(text, next);
      assert ts[n..][1..] == ts[n + 1..];
      c := Back(c);
      n := n + 1;
      amp, next := Peek(text, after, "&");
    }
  }

  method ParseLine(text: string, pos: nat) returns (r: Parse)
    requires pos <= |text| && '\0' !in text
    ensures Agrees(text, pos, r, PLine(Tokens(text, pos)), CmdLine)
    decreases |text| - pos, 3
  {
    hide Tokens, PPipe, Amps;
    r := ParsePipe(text, pos);
    if r.Panic? {
      return;
    }
    var c, at := ParseAmps(text, r.pos, r.cmd);
    var semi, next := Peek(text, at, ";");
    if !semi {
      return Ok(c, next);
    }
    ghost var ts := Tokens(text, next);
    var kind, q, eq, after := Gettoken(text, next);
    assert ts[1..] == Tokens(text, after);
    var rest := ParseLine(text, after);
    if rest.Panic? {
      return Panic;
    }
    return Ok(List(c, rest.cmd), rest.pos);
  }
}
