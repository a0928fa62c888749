/** `parsecmd` as a whole: what it accepts, and that the strings of the parsed command survive
    the NULs written into the buffer they lie in. */
module ShellCommand {
  import opened ShellGrammar
  import opened ShellTokens
  import opened ShellReading
  import opened ShellPlaces
  import opened Shell

  // ---------------------------------------------------------------- the strings of a command

  /** Every argv and file string of the command. */
  function Strings(cmd: Cmd): multiset<Span> {
    match cmd
    case Exec(argv) => multiset(argv)
    case Redir(c, file, _, _) => Strings(c) + multiset{file}
    case Pipe(l, r) => Strings(l) + Strings(r)
    case List(l, r) => Strings(l) + Strings(r)
    case Back(c) => Strings(c)
  }

  function WordOf(t: Token): multiset<Span> {
    if t.kind == 'a' then multiset{Span(t.q, t.eq)} else multiset{}
  }

  /** The word tokens. */
  function WordsIn(ts: seq<Token>): multiset<Span> {
    if ts == [] then multiset{} else WordOf(ts[0]) + WordsIn(ts[1..])
  }

  lemma {:induction false} WordsConcat(a: seq<Token>, b: seq<Token>)
    ensures WordsIn(a + b) == WordsIn(a) + WordsIn(b)
  {
    if a == [] {
      assert a + b == b;
    } else {
      assert (a + b)[1..] == a[1..] + b;
      WordsConcat(a[1..], b);
    }
  }

  lemma WordsOne(t: Token)
    ensures WordsIn([t]) == WordOf(t)
  {
    assert [t][1..] == [];
  }

  function Files(items: seq<Item>): multiset<Span>
    decreases |items|
  {
    if items == [] then multiset{}
    else
      var last := items[|items| - 1];
      Files(items[..|items| - 1]) + match last case Arg(_) => multiset{} case Into(_, f) => multiset{Span(f.q, f.eq)}
  }

  lemma {:induction false} WrapStrings(cmd: Cmd, items: seq<Item>)
    ensures Strings(Wrap(cmd, items)) == Strings(cmd) + Files(items)
    decreases |items|
  {
    if items != [] {
      WrapStrings(cmd, items[..|items| - 1]);
    }
  }

  lemma {:induction false} FilesFirst(i: Item, items: seq<Item>)
    ensures Files([i] + items) ==
            (match i case Arg(_) => multiset{} case Into(_, f) => multiset{Span(f.q, f.eq)}) + Files(items)
    decreases |items|
  {
    var all := [i] + items;
    if items == [] {
      assert all[..0] == [];
      assert Files([]) == multiset{};
    } else {
      assert all[..|all| - 1] == [i] + items[..|items| - 1];
      FilesFirst(i, items[..|items| - 1]);
    }
  }

  lemma {:induction false} ItemWords(items: seq<Item>)
    requires GoodItems(items)
    ensures WordsIn(YieldItems(items)) == multiset(Words(items)) + Files(items)
  {
    if items != [] {
      var i, more := items[0], items[1..];
      assert items == [i] + more;
      assert GoodItem(i);
      hide GoodItem, Files, WordsIn, YieldItems, Words;
      ItemWords(more);
      YieldFirst(i, more);
      FilesFirst(i, more);
      WordsConcat(YieldItem(i), YieldItems(more));
      ItemWord(i);
      WordsSplit(if i.Arg? then [Span(i.word.q, i.word.eq)] else [], Words(more));
    }
  }

  lemma WordsSplit(a: seq<Span>, b: seq<Span>)
    ensures multiset(a + b) == multiset(a) + multiset(b)
  {
  }

  lemma ItemWord(i: Item)
    requires GoodItem(i)
    ensures WordsIn(YieldItem(i)) ==
            match i case Arg(w) => multiset{Span(w.q, w.eq)} case Into(_, f) => multiset{Span(f.q, f.eq)}
  {
    match i
    case Arg(w) => WordsOne(w);
    case Into(op, f) =>
      WordsConcat([op], [f]);
      assert [op] + [f] == [op, f];
      WordsOne(op);
      WordsOne(f);
  }

  lemma {:induction false} ExecWords(d: DExec)
    requires GoodExec(d)
    ensures Strings(CmdExec(d)) == WordsIn(YieldExec(d))
    decreases d, 0
  {
    match d
    case Simple(items) =>
      ItemWords(items);
      WrapStrings(Exec(Words(items)), items);
    case Block(open, line, close, redirs) =>
      LineWords(line);
      ItemWords(redirs);
      WrapStrings(CmdLine(line), redirs);
      WordsConcat([open] + YieldLine(line) + [close], YieldItems(redirs));
      WordsConcat([open] + YieldLine(line), [close]);
      WordsConcat([open], YieldLine(line));
      WordsOne(open);
      WordsOne(close);
  }

  lemma {:induction false} PipeWords(d: DPipe)
    requires GoodPipe(d)
    ensures Strings(CmdPipe(d)) == WordsIn(YieldPipe(d))
    decreases d, 0
  {
    ExecWords(d.exec);
    if d.Piped? {
      PipeWords(d.rest);
      WordsConcat(YieldExec(d.exec) + [d.bar], YieldPipe(d.rest));
      WordsConcat(YieldExec(d.exec), [d.bar]);
      WordsOne(d.bar);
    }
  }

  lemma {:induction false} AmpWords(amps: seq<Token>)
    requires AllAmps(amps)
    ensures WordsIn(amps) == multiset{}
  {
    if amps != [] {
      AmpWords(amps[1..]);
    }
  }

  lemma {:induction false} BacksStrings(cmd: Cmd, n: nat)
    ensures Strings(Backs(cmd, n)) == Strings(cmd)
  {
    if n > 0 {
      BacksStrings(cmd, n - 1);
    }
  }

  /** The command has exactly the words of its line, each as often as it was written. */
  lemma {:induction false} LineWords(d: DLine)
    requires GoodLine(d)
    ensures Strings(CmdLine(d)) == WordsIn(YieldLine(d))
    decreases d, 0
  {
    hide GoodPipe, YieldPipe, CmdPipe, WordsIn, AllAmps, Backs;
    PipeWords(d.pipe);
    AmpWords(d.amps);
    BacksStrings(CmdPipe(d.pipe), |d.amps|);
    var front := YieldPipe(d.pipe) + d.amps;
    WordsConcat(YieldPipe(d.pipe), d.amps);
    if d.Then? {
      LineWords(d.rest);
      WordsConcat(front + [d.semi], YieldLine(d.rest));
      WordsConcat(front, [d.semi]);
      WordsOne(d.semi);
    }
  }

  // ---------------------------------------------------------------- reading the strings back

  /** The span is a whole word of the text. */
  ghost predicate IsWord(text: string, s: Span) {
    && s.q < s.eq <= |text| && (forall k :: s.q <= k < s.eq ==> IsWordChar(text[k]))
    && (s.eq < |text| ==> !IsWordChar(text[s.eq]))
  }

  ghost predicate AllWords(text: string, m: multiset<Span>) { forall s :: s in m ==> IsWord(text, s) }

  lemma {:induction false} WordsAreWords(text: string, ts: seq<Token>)
    requires forall k :: 0 <= k < |ts| ==> GoodToken(text, ts[k])
    ensures AllWords(text, WordsIn(ts))
  {
    if ts != [] {
      assert GoodToken(text, ts[0]);
      WordsAreWords(text, ts[1..]);
    }
  }

  lemma TokenWords(text: string)
    ensures AllWords(text, WordsIn(Tokens(text, 0)))
  {
    var ts := Tokens(text, 0);
    forall k | 0 <= k < |ts|
      ensures GoodToken(text, ts[k])
    {
      TokensGood(text, 0, k);
    }
    WordsAreWords(text, ts);
  }

  /** Some string of the command ends at k. */
  ghost predicate EndsAt(m: multiset<Span>, k: nat) { exists s :: s in m && s.eq == k }

  /** The C string at position q of a buffer. */
  function CString(buf: string, q: nat): (r: string)
    requires q <= |buf|
    ensures q + |r| <= |buf| && r == buf[q..q + |r|]
    decreases |buf| - q
  {
    if q == |buf| || buf[q] == '\0' then [] else [buf[q]] + CString(buf, q + 1)
  }

  lemma {:induction false} CStringIs(buf: string, q: nat, e: nat)
    requires q <= e < |buf| && buf[e] == '\0' && forall k :: q <= k < e ==> buf[k] != '\0'
    ensures CString(buf, q) == buf[q..e]
    decreases e - q
  {
    if q < e {
      CStringIs(buf, q + 1, e);
    }
  }

  /** After the NULs are written, every string of the command reads back as its token. */
  lemma ReadsBack(text: string, m: multiset<Span>, buf: string, s: Span)
    requires AllWords(text, m) && '\0' !in text && |buf| > |text| && s in m
    requires forall k :: 0 <= k <= |text| ==> buf[k] == if k == |text| || EndsAt(m, k) then '\0' else text[k]
    ensures s.q <= |buf| && s.eq <= |text| && CString(buf, s.q) == text[s.q..s.eq]
  {
    assert IsWord(text, s);
    assert EndsAt(m, s.eq);
    forall k | s.q <= k < s.eq
      ensures buf[k] == text[k] && buf[k] != '\0'
    {
      assert IsWordChar(text[k]);
      assert text[k] in text;
      forall t | t in m
        ensures t.eq != k
      {
        assert IsWord(text, t);
      }
    }
    CStringIs(buf, s.q, s.eq);
    assert buf[s.q..s.eq] == text[s.q..s.eq];
  }

  // ---------------------------------------------------------------- nulterminate and parsecmd

  method NulArgs(buf: array<char>, argv: seq<Span>)
    requires forall j :: 0 <= j < |argv| ==> argv[j].eq < buf.Length
    modifies buf
    ensures forall k :: 0 <= k < buf.Length ==> buf[k] == if EndsAt(multiset(argv), k) then '\0' else old(buf[k])
  {
    hide EndsAt;
    NoEnds();
    assert argv[..0] == [];
    var i := 0;
    while i < |argv|
      invariant 0 <= i <= |argv|
      invariant forall k :: 0 <= k < buf.Length ==>
                  buf[k] == if EndsAt(multiset(argv[..i]), k) then '\0' else old(buf[k])
    {
      EndsMore(argv, i);
      buf[argv[i].eq] := '\0';
      i := i + 1;
    }
    assert argv[..i] == argv;
  }

  lemma NoEnds()
    ensures forall k: nat :: !EndsAt(multiset{}, k)
  {
  }

  lemma EndsOne(s: Span)
    ensures forall k: nat :: EndsAt(multiset{s}, k) <==> k == s.eq
  {
    assert s in multiset{s};
  }

  /** `nulterminate`: a NUL behind every string of the command, nothing else. */
  method Nulterminate(buf: array<char>, cmd: Cmd)
    requires forall s :: s in Strings(cmd) ==> s.eq < buf.Length
    modifies buf
    ensures forall k :: 0 <= k < buf.Length ==> buf[k] == if EndsAt(Strings(cmd), k) then '\0' else old(buf[k])
    decreases cmd
  {
    hide EndsAt;
    match cmd
    case Exec(argv) =>
      assert forall j :: 0 <= j < |argv| ==> argv[j] in Strings(cmd);
      NulArgs(buf, argv);
    case Redir(c, file, _, _) =>
      assert file in Strings(cmd);
      EndsSum(Strings(c), multiset{file});
      Nulterminate(buf, c);
      buf[file.eq] := '\0';
      EndsOne(file);
    case Pipe(l, r) =>
      EndsSum(Strings(l), Strings(r));
      Nulterminate(buf, l);
      Nulterminate(buf, r);
    case List(l, r) =>
      EndsSum(Strings(l), Strings(r));
      Nulterminate(buf, l);
      Nulterminate(buf, r);
    case Back(c) =>
      Nulterminate(buf, c);
  }

  lemma EndsSum(a: multiset<Span>, b: multiset<Span>)
    ensures forall k :: EndsAt(a + b, k) <==> EndsAt(a, k) || EndsAt(b, k)
  {
    forall k
      ensures EndsAt(a + b, k) <==> EndsAt(a, k) || EndsAt(b, k)
    {
      if EndsAt(a, k) {
        var s :| s in a && s.eq == k;
        assert s in a + b;
      }
      if EndsAt(b, k) {
        var s :| s in b && s.eq == k;
        assert s in a + b;
      }
    }
  }

  lemma EndsMore(argv: seq<Span>, i: nat)
    requires i < |argv|
    ensures forall k :: EndsAt(multiset(argv[..i + 1]), k) <==> EndsAt(multiset(argv[..i]), k) || k == argv[i].eq
  {
    assert argv[..i + 1] == argv[..i] + [argv[i]];
    EndsSum(multiset(argv[..i]), multiset{argv[i]});
    assert multiset(argv[..i + 1]) == multiset(argv[..i]) + multiset{argv[i]};
    assert argv[i] in multiset{argv[i]};
  }

  /** The line has a derivation. */
  ghost predicate Accepted(text: string) {
    exists d :: GoodLine(d) && YieldLine(d) == Tokens(text, 0)
  }

  lemma AcceptedMeans(text: string)
    ensures Accepted(text) <==> PLine(Tokens(text, 0)).Done? && PLine(Tokens(text, 0)).rest == []
    ensures PLine(Tokens(text, 0)).Done? && PLine(Tokens(text, 0)).rest == [] ==>
              var d := PLine(Tokens(text, 0)).value;
              && GoodLine(d) && YieldLine(d) == Tokens(text, 0) && Strings(CmdLine(d)) == WordsIn(Tokens(text, 0))
              && CmdLine(d) == Reading(Tokens(text, 0)) && Written(text, CmdLine(d), 0, |text|)
  {
    hide PLine, GoodLine, YieldLine, Tokens, Strings, CmdLine, WordsIn, Reading, Written;
    var ts := Tokens(text, 0);
    if Accepted(text) {
      var d :| GoodLine(d) && YieldLine(d) == ts;
      PLineComplete(d, []);
      assert YieldLine(d) + [] == ts;
    }
    if PLine(ts).Done? && PLine(ts).rest == [] {
      PLineSound(ts);
      var d := PLine(ts).value;
      assert YieldLine(d) + [] == YieldLine(d);
      LineWords(d);
      LineWritten(text, d);
    }
  }

  /** `strlen`. */
  method Strlen(buf: array<char>) returns (n: nat)
    requires '\0' in buf[..]
    ensures n < buf.Length && buf[n] == '\0' && '\0' !in buf[..n]
  {
    n := 0;
    assert buf[0..] == buf[..];
    while buf[n] != '\0'
      invariant n < buf.Length && '\0' in buf[n..] && '\0' !in buf[..n]
      decreases buf.Length - n
    {
      assert buf[n..] == [buf[n]] + buf[n + 1..];
      assert buf[..n + 1] == buf[..n] + [buf[n]];
      n := n + 1;
    }
  }

  /** `parsecmd`: it succeeds exactly on the lines of the grammar.  The command it returns is the
      line's reading by precedence and has every part where it was written, with exactly the words of the
      line; each of them reads back from the buffer as it was written. */
  method ParseCmd(buf: array<char>) returns (r: Parse, ghost text: string)
    requires '\0' in buf[..]
    modifies buf
    ensures |text| < buf.Length && text == old(buf[..|text|]) && old(buf[|text|]) == '\0' && '\0' !in text
    ensures r.Ok? <==> Accepted(text)
    ensures r.Panic? ==> buf[..] == old(buf[..])
    ensures r.Ok? ==> exists d :: GoodLine(d) && YieldLine(d) == Tokens(text, 0) && r.cmd == CmdLine(d)
    ensures r.Ok? ==> r.cmd == Reading(Tokens(text, 0)) && Written(text, r.cmd, 0, |text|)
    ensures r.Ok? ==> Strings(r.cmd) == WordsIn(Tokens(text, 0))
    ensures r.Ok? ==> forall s :: s in Strings(r.cmd) ==>
              s.q <= s.eq <= |text| && CString(buf[..], s.q) == text[s.q..s.eq]
  {
    hide Reading, Written;
    hide PLine, GoodLine, YieldLine, Tokens, Strings, CmdLine, WordsIn, Accepted, AllWords, EndsAt, CString;
    var n := Strlen(buf);
    var line := buf[..n];
    text := line;
    AcceptedMeans(text);
    r := ParseLine(line, 0);
    if r.Panic? {
      return;
    }
    var found, at := Peek(line, r.pos, "");
    if at != n {
      return Panic, text;
    }
    TokenWords(text);
    WordEnds(text, Strings(r.cmd));
    Nulterminate(buf, r.cmd);
    forall s | s in Strings(r.cmd)
      ensures s.q <= s.eq <= |text| && CString(buf[..], s.q) == text[s.q..s.eq]
    {
      ReadsBack(text, Strings(r.cmd), buf[..], s);
    }
  }

  lemma WordEnds(text: string, m: multiset<Span>)
    requires AllWords(text, m)
    ensures forall s :: s in m ==> s.q <= s.eq <= |text|
  {
  }
}
