/**
 grep.c's matcher against the language of its patterns.  A C string is the
 sequence of its characters before the NUL.
 */
module Grep {
  type Text = string

  // ---- The language of a pattern -----------------------------------------------------

  /** One character, a starred character, or the end of the line. */
  datatype Item = One(c: char) | Star(c: char) | Eol

  /** A pattern (after any leading ^) as a list of items. */
  function Items(re: Text): seq<Item> {
    if re == "" then []
    else if |re| > 1 && re[1] == '*' then [Star(re[0])] + Items(re[2..])
    else if re == "$" then [Eol]
    else [One(re[0])] + Items(re[1..])
  }

  predicate CharOk(c: char, x: char) {
    c == '.' || c == x
  }

  ghost predicate AllOk(c: char, s: Text) {
    forall i: nat :: i < |s| ==> CharOk(c, s[i])
  }

  /** s is in the language of the items; `last` says that s ends where the line does. */
  ghost predicate InLang(items: seq<Item>, s: Text, last: bool) {
    if items == [] then s == ""
    else match items[0]
      case One(c) => s != "" && CharOk(c, s[0]) && InLang(items[1..], s[1..], last)
      case Star(c) => exists i: nat :: i <= |s| && AllOk(c, s[..i]) && InLang(items[1..], s[i..], last)
      case Eol => s == "" && last
  }

  /** Some prefix of text is in the language. */
  ghost predicate PrefixIn(items: seq<Item>, text: Text) {
    exists n: nat :: PrefixWitness(items, text, n)
  }

  ghost predicate PrefixWitness(items: seq<Item>, text: Text, n: nat) {
    n <= |text| && InLang(items, text[..n], n == |text|)
  }

  /** Some substring text[i..j] is in the language. */
  ghost predicate SubstringIn(items: seq<Item>, text: Text) {
    exists i: nat, j: nat :: i <= j <= |text| && InLang(items, text[i..j], j == |text|)
  }

  // ---- Prefixes of the parts ------------------------------------------------------------

  lemma EmptyPrefix(text: Text)
    ensures PrefixIn([], text)
  {
    assert PrefixWitness([], text, 0);
  }

  lemma OnePrefix(c: char, rest: seq<Item>, text: Text)
    ensures PrefixIn([One(c)] + rest, text) <==> text != "" && CharOk(c, text[0]) && PrefixIn(rest, text[1..])
  {
    var items := [One(c)] + rest;
    assert items[1..] == rest;
    if PrefixIn(items, text) {
      var n: nat :| PrefixWitness(items, text, n);
      assert text[..n][1..] == text[1..][..n - 1];
      assert PrefixWitness(rest, text[1..], n - 1);
    }
    if text != "" && CharOk(c, text[0]) && PrefixIn(rest, text[1..]) {
      var n: nat :| PrefixWitness(rest, text[1..], n);
      assert text[..n + 1][1..] == text[1..][..n];
      assert PrefixWitness(items, text, n + 1);
    }
  }

  lemma EolPrefix(text: Text)
    ensures PrefixIn([Eol], text) <==> text == ""
  {
    if text == "" {
      assert PrefixWitness([Eol], text, 0);
    }
  }

  /** The starred character takes some i characters, and the rest matches after them. */
  ghost predicate StarSplit(c: char, rest: seq<Item>, text: Text, i: nat) {
    i <= |text| && AllOk(c, text[..i]) && PrefixIn(rest, text[i..])
  }

  lemma StarPrefix(c: char, rest: seq<Item>, text: Text)
    ensures PrefixIn([Star(c)] + rest, text) <==> exists i: nat :: StarSplit(c, rest, text, i)
  {
    var items := [Star(c)] + rest;
    assert items[1..] == rest;
    if PrefixIn(items, text) {
      var n: nat :| PrefixWitness(items, text, n);
      var s := text[..n];
      var i: nat :| i <= |s| && AllOk(c, s[..i]) && InLang(rest, s[i..], n == |text|);
      assert s[..i] == text[..i] && s[i..] == text[i..][..n - i];
      assert PrefixWitness(rest, text[i..], n - i);
      assert StarSplit(c, rest, text, i);
    }
    if i: nat :| StarSplit(c, rest, text, i) {
      var m: nat :| PrefixWitness(rest, text[i..], m);
      var s := text[..i + m];
      assert s[..i] == text[..i] && s[i..] == text[i..][..m];
      assert InLang(items, s, i + m == |text|);
      assert PrefixWitness(items, text, i + m);
    }
  }

  // ---- The matcher -------------------------------------------------------------------------

  /** Is a prefix of text in re's language? */
  method MatchHere(re: Text, text: Text) returns (r: bool)
    ensures r <==> PrefixIn(Items(re), text)
    decreases |re|, 0
  {
    if re == "" {
      EmptyPrefix(text);
      return true;
    }
    if |re| > 1 && re[1] == '*' {
      assert Items(re) == [Star(re[0])] + Items(re[2..]);
      StarPrefix(re[0], Items(re[2..]), text);
      r := MatchStar(re[0], re[2..], text);
      return;
    }
    if re[0] == '$' && |re| == 1 {
      assert re == "$";
      EolPrefix(text);
      return text == "";
    }
    OnePrefix(re[0], Items(re[1..]), text);
    if text != "" && (re[0] == '.' || re[0] == text[0]) {
      r := MatchHere(re[1..], text[1..]);
      return;
    }
    r := false;
  }

  /** c*re at the beginning of text: try re after zero, one, two, ... characters c. */
  method MatchStar(c: char, re: Text, text: Text) returns (r: bool)
    ensures r <==> exists i: nat :: StarSplit(c, Items(re), text, i)
    decreases |re|, 1
  {
    var i := 0;
    while true
      invariant 0 <= i <= |text|
      invariant AllOk(c, text[..i])
      invariant forall k: nat :: k < i ==> !StarSplit(c, Items(re), text, k)
      decreases |text| - i
    {
      r := MatchHere(re, text[i..]);
      assert r <==> StarSplit(c, Items(re), text, i);
      if r {
        return;
      }
      if i == |text| || !(text[i] == c || c == '.') {
        NoLongerSplit(c, Items(re), text, i);
        return;
      }
      i := i + 1;
    }
  }

  lemma NoLongerSplit(c: char, rest: seq<Item>, text: Text, i: nat)
    requires i <= |text| && (i == |text| || !CharOk(c, text[i]))
    ensures forall k: nat :: k > i ==> !StarSplit(c, rest, text, k)
  {
    forall k: nat | k > i
      ensures !StarSplit(c, rest, text, k)
    {
      if k <= |text| {
        assert text[..k][i] == text[i];
      }
    }
  }

  /**
   match: under a leading ^, a prefix of the text is in the language of the rest
   of the pattern; otherwise some substring is in the language of the pattern.
   */
  method Match(re: Text, text: Text) returns (r: bool)
    ensures |re| > 0 && re[0] == '^' ==> (r <==> PrefixIn(Items(re[1..]), text))
    ensures !(|re| > 0 && re[0] == '^') ==> (r <==> SubstringIn(Items(re), text))
  {
    if |re| > 0 && re[0] == '^' {
      r := MatchHere(re[1..], text);
      return;
    }
    var i := 0;
    while true
      invariant 0 <= i <= |text|
      invariant forall k: nat :: k < i ==> !PrefixIn(Items(re), text[k..])
      decreases |text| - i
    {
      r := MatchHere(re, text[i..]);
      if r || i == |text| {
        break;
      }
      i := i + 1;
    }
    SubstringIsPrefixOfSuffix(Items(re), text);
    if r {
      assert i <= |text| && PrefixIn(Items(re), text[i..]);
    }
  }

  lemma SubstringIsPrefixOfSuffix(items: seq<Item>, text: Text)
    ensures SubstringIn(items, text) <==> exists k: nat :: k <= |text| && PrefixIn(items, text[k..])
  {
    if SubstringIn(items, text) {
      var i: nat, j: nat :| i <= j <= |text| && InLang(items, text[i..j], j == |text|);
      assert text[i..][..j - i] == text[i..j];
      assert PrefixWitness(items, text[i..], j - i);
    }
    if k: nat :| k <= |text| && PrefixIn(items, text[k..]) {
      var n: nat :| PrefixWitness(items, text[k..], n);
      assert text[k..][..n] == text[k..k + n];
      assert k <= k + n <= |text| && InLang(items, text[k..k + n], k + n == |text|);
    }
  }
}
