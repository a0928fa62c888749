/** The matcher of grep against the language its patterns stand for.  Patterns and texts are
    strings without their terminating NUL. */
module Grep {
  /** One unit of a pattern: a character, or any number of a character; '.' is any character. */
  datatype Item = One(c: char) | Star(c: char)

  datatype Pattern = Pattern(items: seq<Item>, toEnd: bool)

  predicate Fits(c: char, x: char) { c == '.' || c == x }

  ghost predicate AllFit(c: char, w: string) { forall k :: 0 <= k < |w| ==> Fits(c, w[k]) }

  /** The pattern written as re: c* first, then a final $, then single characters. */
  function Parse(re: string): Pattern {
    if re == [] then Pattern([], false)
    else if |re| >= 2 && re[1] == '*' then
      var p := Parse(re[2..]); Pattern([Star(re[0])] + p.items, p.toEnd)
    else if re == "$" then Pattern([], true)
    else
      var p := Parse(re[1..]); Pattern([One(re[0])] + p.items, p.toEnd)
  }

  /** w is a word of the first item followed by a word of the others. */
  ghost predicate Word(items: seq<Item>, w: string) {
    if items == [] then w == []
    else match items[0]
      case One(c) => w != [] && Fits(c, w[0]) && Word(items[1..], w[1..])
      case Star(c) => exists k :: 0 <= k <= |w| && AllFit(c, w[..k]) && Word(items[1..], w[k..])
  }

  /** Some prefix of text is a word of p, all of it when p ends in $. */
  ghost predicate Prefix(p: Pattern, text: string) {
    exists n :: 0 <= n <= |text| && Word(p.items, text[..n]) && (p.toEnd ==> n == |text|)
  }

  /** Some substring of text is a word of re, at the start after ^ and up to the end before $. */
  ghost predicate Matches(re: string, text: string) {
    if re != [] && re[0] == '^' then Prefix(Parse(re[1..]), text)
    else exists i :: 0 <= i <= |text| && Prefix(Parse(re), text[i..])
  }

  // ---------------------------------------------------------------- the equations of the matcher

  lemma EmptyMatches(text: string)
    ensures Prefix(Parse(""), text)
  {
    assert Word([], text[..0]);
  }

  lemma DollarMatches(text: string)
    ensures Prefix(Parse("$"), text) <==> text == []
  {
    if text == [] {
      assert Word([], text[..0]);
    }
  }

  lemma OneMatches(re: string, text: string)
    requires re != [] && !(|re| >= 2 && re[1] == '*') && re != "$"
    ensures Prefix(Parse(re), text) <==> text != [] && Fits(re[0], text[0]) && Prefix(Parse(re[1..]), text[1..])
  {
    var p, q := Parse(re), Parse(re[1..]);
    assert p.items[0] == One(re[0]) && p.items[1..] == q.items;
    hide Parse;
    if Prefix(p, text) {
      OneThere(re[0], p, q, text);
    }
    if text != [] && Fits(re[0], text[0]) && Prefix(q, text[1..]) {
      OneBack(re[0], p, q, text);
    }
  }

  lemma OneThere(c: char, p: Pattern, q: Pattern, text: string)
    requires p.items != [] && p.items[0] == One(c) && p.items[1..] == q.items && p.toEnd == q.toEnd && Prefix(p, text)
    ensures text != [] && Fits(c, text[0]) && Prefix(q, text[1..])
  {
    hide Fits;
    var n :| 0 <= n <= |text| && Word(p.items, text[..n]) && (p.toEnd ==> n == |text|);
    assert text[..n][1..] == text[1..][..n - 1];
    assert Word(q.items, text[1..][..n - 1]);
  }

  lemma OneBack(c: char, p: Pattern, q: Pattern, text: string)
    requires p.items != [] && p.items[0] == One(c) && p.items[1..] == q.items && p.toEnd == q.toEnd
    requires text != [] && Fits(c, text[0]) && Prefix(q, text[1..])
    ensures Prefix(p, text)
  {
    hide Fits;
    var n :| 0 <= n <= |text[1..]| && Word(q.items, text[1..][..n]) && (q.toEnd ==> n == |text[1..]|);
    assert text[..n + 1][1..] == text[1..][..n];
    assert Word(p.items, text[..n + 1]);
  }

  /** c* and then p, at the start of text. */
  ghost predicate StarPrefix(c: char, p: Pattern, text: string) {
    exists k :: 0 <= k <= |text| && AllFit(c, text[..k]) && Prefix(p, text[k..])
  }

  lemma StarMatches(re: string, text: string)
    requires |re| >= 2 && re[1] == '*'
    ensures Prefix(Parse(re), text) <==> StarPrefix(re[0], Parse(re[2..]), text)
  {
    var p, q := Parse(re), Parse(re[2..]);
    assert p.items[0] == Star(re[0]) && p.items[1..] == q.items;
    hide Parse;
    if Prefix(p, text) {
      StarThere(re[0], p, q, text);
    }
    if StarPrefix(re[0], q, text) {
      StarBack(re[0], p, q, text);
    }
  }

  lemma StarThere(c: char, p: Pattern, q: Pattern, text: string)
    requires p.items != [] && p.items[0] == Star(c) && p.items[1..] == q.items && p.toEnd == q.toEnd && Prefix(p, text)
    ensures StarPrefix(c, q, text)
  {
    hide AllFit;
    var n :| 0 <= n <= |text| && Word(p.items, text[..n]) && (p.toEnd ==> n == |text|);
    var w := text[..n];
    var k :| 0 <= k <= |w| && AllFit(c, w[..k]) && Word(q.items, w[k..]);
    assert w[..k] == text[..k] && w[k..] == text[k..][..n - k];
    hide Word;
    assert Prefix(q, text[k..]);
  }

  lemma StarBack(c: char, p: Pattern, q: Pattern, text: string)
    requires p.items != [] && p.items[0] == Star(c) && p.items[1..] == q.items && p.toEnd == q.toEnd
    requires StarPrefix(c, q, text)
    ensures Prefix(p, text)
  {
    hide AllFit;
    var k :| 0 <= k <= |text| && AllFit(c, text[..k]) && Prefix(q, text[k..]);
    var n :| 0 <= n <= |text[k..]| && Word(q.items, text[k..][..n]) && (q.toEnd ==> n == |text[k..]|);
    var w := text[..k + n];
    assert w[..k] == text[..k] && w[k..] == text[k..][..n];
    assert Word(p.items, w);
  }

  // ---------------------------------------------------------------- the matcher

  method MatchHere(re: string, text: string) returns (r: bool)
    ensures r <==> Prefix(Parse(re), text)
    decreases |re|, 0
  {
    if re == [] {
      EmptyMatches(text);
      return true;
    }
    if |re| >= 2 && re[1] == '*' {
      StarMatches(re, text);
      r := MatchStar(re[0], re[2..], text);
      return;
    }
    if re == "$" {
      DollarMatches(text);
      return text == [];
    }
    OneMatches(re, text);
    if text != [] && (re[0] == '.' || re[0] == text[0]) {
      r := MatchHere(re[1..], text[1..]);
      return;
    }
    return false;
  }

  method MatchStar(c: char, re: string, text: string) returns (r: bool)
    ensures r <==> StarPrefix(c, Parse(re), text)
    decreases |re|, 1
  {
    var i := 0;
    assert text[0..] == text;
    while true
      invariant 0 <= i <= |text| && AllFit(c, text[..i])
      invariant forall k :: 0 <= k < i ==> !Prefix(Parse(re), text[k..])
      decreases |text| - i
    {
      var here := MatchHere(re, text[i..]);
      if here {
        return true;
      }
      if i == |text| || !(text[i] == c || c == '.') {
        NoFurther(c, Parse(re), text, i);
        return false;
      }
      i := i + 1;
    }
  }

  lemma NoFurther(c: char, p: Pattern, text: string, i: nat)
    requires i <= |text| && (i == |text| || !Fits(c, text[i]))
    requires forall k :: 0 <= k <= i ==> !Prefix(p, text[k..])
    ensures !StarPrefix(c, p, text)
  {
    forall k | i < k <= |text|
      ensures !AllFit(c, text[..k])
    {
      assert text[..k][i] == text[i];
    }
  }

  method Match(re: string, text: string) returns (r: bool)
    ensures r <==> Matches(re, text)
  {
    if re != [] && re[0] == '^' {
      r := MatchHere(re[1..], text);
      return;
    }
    var i := 0;
    while true
      invariant 0 <= i <= |text|
      invariant forall k :: 0 <= k < i ==> !Prefix(Parse(re), text[k..])
      decreases |text| - i
    {
      var here := MatchHere(re, text[i..]);
      if here {
        return true;
      }
      if i == |text| {
        return false;
      }
      i := i + 1;
    }
  }
}
