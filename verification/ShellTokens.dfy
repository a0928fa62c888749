/** Tokens of a command line: `gettoken` and `peek` on the input buffer, whose end is the
    position of the terminating NUL. */
module ShellTokens {
  import opened ShellGrammar

  predicate IsSpace(c: char) { c == ' ' || c == '\t' || c == '\r' || c == '\n' || c as int == 11 }

  predicate IsSymbol(c: char) { c == '<' || c == '|' || c == '>' || c == '&' || c == ';' || c == '(' || c == ')' }

  predicate IsWordChar(c: char) { !IsSpace(c) && !IsSymbol(c) }

  function SkipSpace(text: string, i: nat): (j: nat)
    requires i <= |text|
    ensures i <= j <= |text| && (j < |text| ==> !IsSpace(text[j]))
    decreases |text| - i
  {
    if i < |text| && IsSpace(text[i]) then SkipSpace(text, i + 1) else i
  }

  function WordEnd(text: string, i: nat): (j: nat)
    requires i <= |text|
    ensures i <= j <= |text| && (j < |text| ==> !IsWordChar(text[j]))
    ensures forall k :: i <= k < j ==> IsWordChar(text[k])
    ensures i < |text| && IsWordChar(text[i]) ==> i < j
    decreases |text| - i
  {
    if i < |text| && IsWordChar(text[i]) then WordEnd(text, i + 1) else i
  }

  function TokenAt(text: string, s: nat): (t: Token)
    requires s < |text| && !IsSpace(text[s])
    ensures t.q == s < t.eq <= |text|
  {
    if text[s] == '>' then
      if s + 1 < |text| && text[s + 1] == '>' then Token('+', s, s + 2) else Token('>', s, s + 1)
    else if IsSymbol(text[s]) then Token(text[s], s, s + 1)
    else Token('a', s, WordEnd(text, s))
  }

  /** The tokens from position i on. */
  function Tokens(text: string, i: nat): seq<Token>
    requires i <= |text|
    decreases |text| - i
  {
    var s := SkipSpace(text, i);
    if s == |text| then [] else [TokenAt(text, s)] + Tokens(text, TokenAt(text, s).eq)
  }

  lemma {:induction false} TokensSkip(text: string, i: nat)
    requires i <= |text|
    ensures Tokens(text, SkipSpace(text, i)) == Tokens(text, i)
    decreases |text| - i
  {
    if i < |text| && IsSpace(text[i]) {
      TokensSkip(text, i + 1);
    }
  }

  /** The token lies in the text; a word has only word characters and is followed by none. */
  ghost predicate GoodToken(text: string, t: Token) {
    && t.q < t.eq <= |text|
    && (t.kind == 'a' ==>
          (forall k :: t.q <= k < t.eq ==> IsWordChar(text[k])) && (t.eq < |text| ==> !IsWordChar(text[t.eq])))
  }

  lemma {:induction false} TokensGood(text: string, i: nat, k: nat)
    requires i <= |text| && k < |Tokens(text, i)|
    ensures GoodToken(text, Tokens(text, i)[k])
    decreases |text| - i
  {
    var s := SkipSpace(text, i);
    if k > 0 {
      TokensGood(text, TokenAt(text, s).eq, k - 1);
    }
  }

  /** Does the token start with one of the characters? */
  predicate StartsWith(t: Token, toks: string) { t.kind != 'a' && (if t.kind == '+' then '>' else t.kind) in toks }

  /** The switch of `gettoken`. */
  method ScanToken(text: string, q: nat) returns (kind: char, s: nat)
    requires q < |text| && !IsSpace(text[q])
    ensures Token(kind, q, s) == TokenAt(text, q) && (kind == '\0' ==> text[q] == '\0')
  {
    s := q;
    if text[s] == '>' {
      kind := '>';
      s := s + 1;
      if s < |text| && text[s] == '>' {
        kind := '+';
        s := s + 1;
      }
    } else if IsSymbol(text[s]) {
      kind := text[s];
      s := s + 1;
    } else {
      kind := 'a';
      while s < |text| && !IsSpace(text[s]) && !IsSymbol(text[s])
        invariant q <= s <= |text| && WordEnd(text, s) == WordEnd(text, q)
      {
        s := s + 1;
      }
    }
  }

  /** `gettoken`; kind '\0' at the end of the text. */
  method Gettoken(text: string, pos: nat) returns (kind: char, q: nat, eq: nat, next: nat)
    requires pos <= |text| && '\0' !in text
    ensures pos <= next <= |text|
    ensures kind == '\0' <==> Tokens(text, pos) == []
    ensures kind != '\0' ==> pos < next && Tokens(text, pos) == [Token(kind, q, eq)] + Tokens(text, next)
  {
    hide TokenAt, IsSpace;
    TokensSkip(text, pos);
    var s := pos;
    while s < |text| && IsSpace(text[s])
      invariant pos <= s <= |text| && SkipSpace(text, s) == SkipSpace(text, pos)
    {
      s := s + 1;
    }
    q := s;
    kind := '\0';
    if s < |text| {
      kind, s := ScanToken(text, s);
    }
    eq := s;
    TokensSkip(text, eq);
    while s < |text| && IsSpace(text[s])
      invariant eq <= s <= |text| && SkipSpace(text, s) == SkipSpace(text, eq)
    {
      s := s + 1;
    }
    next := s;
  }

  /** `peek`: skips space and tests the next character. */
  method Peek(text: string, pos: nat, toks: string) returns (found: bool, next: nat)
    requires pos <= |text| && forall k :: 0 <= k < |toks| ==> IsSymbol(toks[k])
    ensures pos <= next <= |text| && Tokens(text, next) == Tokens(text, pos)
    ensures found <==> Tokens(text, pos) != [] && StartsWith(Tokens(text, pos)[0], toks)
    ensures next == |text| <==> Tokens(text, pos) == []
  {
    TokensSkip(text, pos);
    next := pos;
    while next < |text| && IsSpace(text[next])
      invariant pos <= next <= |text| && SkipSpace(text, next) == SkipSpace(text, pos)
    {
      next := next + 1;
    }
    found := next < |text| && text[next] in toks;
  }
}
