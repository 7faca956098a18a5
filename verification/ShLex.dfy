/**
 sh.c's scanner: gettoken and peek over the command line. A position is an index into the line; the
 NUL at es is the end of the sequence.
 */
module ShLex {
  const WHITESPACE := " \t\r\n\U{0b}"
  const SYMBOLS := "<|>&;()"

  /** The end of a C string: no line or word contains it. */
  const NUL: char := '\0'

  datatype Kind = Eof | Sym(c: char) | Append | Word

  /** gettoken's result: the returned kind, the token's text q..eq, and the new *ps. */
  datatype Token = Token(kind: Kind, q: nat, eq: nat, next: nat)

  predicate White(c: char) {
    c in WHITESPACE
  }

  predicate Symbol(c: char) {
    c in SYMBOLS
  }

  predicate WordChar(c: char) {
    !White(c) && !Symbol(c)
  }

  /** The first position from i on that is not white space. */
  function Skip(s: string, i: nat): (j: nat)
    requires i <= |s|
    ensures i <= j <= |s| && (j < |s| ==> !White(s[j])) && forall k :: i <= k < j ==> White(s[k])
    decreases |s| - i
  {
    if i < |s| && White(s[i]) then Skip(s, i + 1) else i
  }

  /** The end of the word at i. */
  function WordEnd(s: string, i: nat): (j: nat)
    requires i <= |s|
    ensures i <= j <= |s| && (j < |s| ==> !WordChar(s[j])) && forall k :: i <= k < j ==> WordChar(s[k])
    decreases |s| - i
  {
    if i < |s| && WordChar(s[i]) then WordEnd(s, i + 1) else i
  }

  function GetToken(s: string, i: nat): (t: Token)
    requires i <= |s|
    ensures i <= t.q <= t.eq <= t.next <= |s|
    ensures t.kind != Eof ==> i < t.next
    ensures t.kind == Eof <==> t.q == |s|
  {
    var q := Skip(s, i);
    if q == |s| then Token(Eof, q, q, q)
    else if s[q] == '>' && q + 1 < |s| && s[q + 1] == '>' then Token(Append, q, q + 2, Skip(s, q + 2))
    else if Symbol(s[q]) then Token(Sym(s[q]), q, q + 1, Skip(s, q + 1))
    else Token(Word, q, WordEnd(s, q), Skip(s, WordEnd(s, q)))
  }

  /** peek's answer; it also moves *ps over white space. */
  predicate Peek(s: string, i: nat, toks: string)
    requires i <= |s|
  {
    Skip(s, i) < |s| && s[Skip(s, i)] in toks
  }

  /** A span is a whole word of the line: word characters, with none before the end missing. */
  predicate IsWord(s: string, q: nat, eq: nat) {
    && q < eq <= |s| && (forall k :: q <= k < eq ==> WordChar(s[k])) && (eq < |s| ==> !WordChar(s[eq]))
  }

  lemma WordTokenIsWord(s: string, i: nat)
    requires i <= |s| && GetToken(s, i).kind == Word
    ensures IsWord(s, GetToken(s, i).q, GetToken(s, i).eq)
  {
  }

  method SkipWhite(s: string, i: nat) returns (j: nat)
    requires i <= |s|
    ensures j == Skip(s, i)
  {
    j := i;
    while j < |s| && White(s[j])
      invariant i <= j <= |s| && Skip(s, j) == Skip(s, i)
    {
      j := j + 1;
    }
  }

  /** gettoken. */
  method Gettoken(s: string, ps: nat) returns (ret: Kind, q: nat, eq: nat, next: nat)
    requires ps <= |s|
    ensures Token(ret, q, eq, next) == GetToken(s, ps)
  {
    var p := SkipWhite(s, ps);
    q := p;
    if p < |s| {
      SymbolsAre(s[p]);
    }
    hide WordEnd, Skip, White, Symbol;
    if p == |s| {
      ret := Eof;
    } else {
      match s[p] {
        case '|' => ret := Sym('|'); p := p + 1;
        case '(' => ret := Sym('('); p := p + 1;
        case ')' => ret := Sym(')'); p := p + 1;
        case ';' => ret := Sym(';'); p := p + 1;
        case '&' => ret := Sym('&'); p := p + 1;
        case '<' => ret := Sym('<'); p := p + 1;
        case '>' =>
          ret := Sym('>');
          p := p + 1;
          if p < |s| && s[p] == '>' {
            ret := Append;
            p := p + 1;
          }
        case _ =>
          ret := Word;
          p := ScanWord(s, p);
      }
    }
    eq := p;
    next := SkipWhite(s, p);
  }

  lemma SymbolsAre(c: char)
    ensures Symbol(c) <==> c == '<' || c == '|' || c == '>' || c == '&' || c == ';' || c == '(' || c == ')'
  {
  }

  /** gettoken's loop over a word. */
  method ScanWord(s: string, q: nat) returns (p: nat)
    requires q <= |s|
    ensures p == WordEnd(s, q)
  {
    p := q;
    while p < |s| && !White(s[p]) && !Symbol(s[p])
      invariant q <= p <= |s| && WordEnd(s, p) == WordEnd(s, q)
    {
      p := p + 1;
    }
  }

  /** peek. */
  method PeekAt(s: string, ps: nat, toks: string) returns (next: nat, found: bool)
    requires ps <= |s|
    ensures next == Skip(s, ps) && found == Peek(s, ps, toks)
  {
    next := SkipWhite(s, ps);
    found := next < |s| && s[next] in toks;
  }
}
