/**
 The shell's grammar, told apart from the parser: which token sequences spell which commands. parsecmd accepts
 exactly the lines that spell a command, and yields that command; so lines with the same tokens, however spaced,
 mean the same, and redirections may stand anywhere among the arguments.
 */
module ShGrammar {
  import opened ShLex
  import opened ShParse
  import opened ShPrint

  // ---- Tokens of a line --------------------------------------------------------------------------------------

  /** A token without its place: a symbol or `>>`, or a word with its text. */
  datatype Lexeme = Mark(kind: Kind) | Name(w: string)

  function LexemeAt(s: string, i: nat): Lexeme
    requires i <= |s|
  {
    var t := GetToken(s, i);
    if t.kind == Word then Name(s[t.q..t.eq]) else Mark(t.kind)
  }

  /** The tokens of the line from position i on. */
  function Lexemes(s: string, i: nat): seq<Lexeme>
    requires i <= |s|
    decreases |s| - i
  {
    if GetToken(s, i).kind == Eof then [] else [LexemeAt(s, i)] + Lexemes(s, GetToken(s, i).next)
  }

  /** The first character of the token, if it is a symbol. */
  predicate Starts(l: seq<Lexeme>, chars: string) {
    l != [] && l[0].Mark? && ((l[0].kind.Sym? && l[0].kind.c in chars) || (l[0].kind == Append && '>' in chars))
  }

  lemma SkipKeepsLexemes(s: string, i: nat)
    requires i <= |s|
    ensures Lexemes(s, Skip(s, i)) == Lexemes(s, i)
  {
    var j := Skip(s, i);
    assert Skip(s, j) == j;
    assert GetToken(s, j) == GetToken(s, i);
  }

  lemma PeekIsStarts(s: string, i: nat, chars: string)
    requires i <= |s| && forall k :: 0 <= k < |chars| ==> Symbol(chars[k])
    ensures Peek(s, i, chars) <==> Starts(Lexemes(s, i), chars)
  {
    var j := Skip(s, i);
    if j < |s| && s[j] in chars {
      assert Symbol(s[j]);
    }
  }

  /** Taking a token off the line. */
  lemma TakeLexeme(s: string, i: nat)
    requires i <= |s| && Lexemes(s, i) != []
    ensures GetToken(s, i).kind != Eof && Lexemes(s, i)[0] == LexemeAt(s, i)
    ensures Lexemes(s, GetToken(s, i).next) == Lexemes(s, i)[1..]
    ensures GetToken(s, i).kind == Word <==> Lexemes(s, i)[0].Name?
    ensures Lexemes(s, i)[0].Mark? ==> Lexemes(s, i)[0].kind == GetToken(s, i).kind
    ensures Lexemes(s, i)[0].Name? ==>
              Lexemes(s, i)[0].w == Slice(s, Span(GetToken(s, i).q, GetToken(s, i).eq))
  {
    assert Lexemes(s, i) == [LexemeAt(s, i)] + Lexemes(s, GetToken(s, i).next);
  }

  lemma NoLexemes(s: string, i: nat)
    requires i <= |s|
    ensures Lexemes(s, i) == [] <==> GetToken(s, i).kind == Eof
    ensures Lexemes(s, i) == [] <==> Skip(s, i) == |s|
  {
  }

  // ---- Spellings ----------------------------------------------------------------------------------------------

  /** An argument, or a redirection with its operator. */
  datatype Item = Arg(w: string) | To(op: Kind, file: string)

  /** How a command is written: words and redirections in any order, parentheses, and the operators. */
  datatype Spelling =
    | Simple(items: seq<Item>)
    | Block(line: Spelling, redirs: seq<Item>)
    | Piped(left: Spelling, right: Spelling)
    | Backed(cmd: Spelling)
    | Listed(left: Spelling, right: Spelling)

  predicate Operator(k: Kind) {
    k == Sym('<') || k == Sym('>') || k == Append
  }

  predicate ItemOk(i: Item) {
    i.To? ==> Operator(i.op)
  }

  predicate ItemsOk(l: seq<Item>) {
    forall k: nat :: k < |l| ==> ItemOk(l[k])
  }

  predicate AllRedirs(l: seq<Item>) {
    forall k: nat :: k < |l| ==> l[k].To? && ItemOk(l[k])
  }

  function Args(l: seq<Item>): seq<string> {
    if l == [] then [] else (if l[0].Arg? then [l[0].w] else []) + Args(l[1..])
  }

  /** `<` reads; `>` and `>>` write. */
  function Redirections(l: seq<Item>): seq<Redirection<string>> {
    if l == [] then []
    else
      (if l[0].Arg? then [] else [Redirection(l[0].file, if l[0].op == Sym('<') then RIn else RWrite)])
      + Redirections(l[1..])
  }

  function Level(sp: Spelling): nat {
    match sp
    case Simple(_) => 0
    case Block(_, _) => 0
    case Piped(_, _) => 1
    case Backed(_) => 2
    case Listed(_, _) => 3
  }

  /** Pipes bind more tightly than `&`, and that more tightly than `;`; only blocks take lists inside. */
  predicate Grammatical(sp: Spelling) {
    match sp
    case Simple(items) => ItemsOk(items) && |Args(items)| < MAXARGS
    case Block(l, rs) => Grammatical(l) && AllRedirs(rs)
    case Piped(l, r) => Grammatical(l) && Grammatical(r) && Level(l) == 0 && Level(r) <= 1
    case Backed(c) => Grammatical(c) && Level(c) <= 2
    case Listed(l, r) => Grammatical(l) && Grammatical(r) && Level(l) <= 2
  }

  function ItemLexemes(l: seq<Item>): seq<Lexeme> {
    if l == [] then []
    else (if l[0].Arg? then [Name(l[0].w)] else [Mark(l[0].op), Name(l[0].file)]) + ItemLexemes(l[1..])
  }

  /** The tokens of a spelling. */
  function Written(sp: Spelling): seq<Lexeme> {
    match sp
    case Simple(items) => ItemLexemes(items)
    case Block(l, rs) => [Mark(Sym('('))] + Written(l) + [Mark(Sym(')'))] + ItemLexemes(rs)
    case Piped(l, r) => Written(l) + [Mark(Sym('|'))] + Written(r)
    case Backed(c) => Written(c) + [Mark(Sym('&'))]
    case Listed(l, r) => Written(l) + [Mark(Sym(';'))] + Written(r)
  }

  /** The command that is spelled. */
  function Meaning(sp: Spelling): Command {
    match sp
    case Simple(items) => Wrap(Exec(Args(items)), Redirections(items))
    case Block(l, rs) => Wrap(Meaning(l), Redirections(rs))
    case Piped(l, r) => Pipe(Meaning(l), Meaning(r))
    case Backed(c) => Back(Meaning(c))
    case Listed(l, r) => List(Meaning(l), Meaning(r))
  }

  // ---- Every parse is of a spelling -------------------------------------------------------------------------------

  /** From position i up to the parse's end the line has these tokens. */
  ghost predicate Consumed(s: string, i: nat, next: nat, l: seq<Lexeme>) {
    i <= |s| && next <= |s| && Lexemes(s, i) == l + Lexemes(s, next)
  }

  lemma {:induction false} ArgsAppend(l: seq<Item>, m: seq<Item>)
    ensures Args(l + m) == Args(l) + Args(m)
  {
    if l == [] {
      assert l + m == m;
    } else {
      assert (l + m)[1..] == l[1..] + m;
      ArgsAppend(l[1..], m);
    }
  }

  lemma {:induction false} RedirectionsAppend(l: seq<Item>, m: seq<Item>)
    ensures Redirections(l + m) == Redirections(l) + Redirections(m)
  {
    if l == [] {
      assert l + m == m;
    } else {
      assert (l + m)[1..] == l[1..] + m;
      RedirectionsAppend(l[1..], m);
    }
  }

  lemma {:induction false} ItemLexemesAppend(l: seq<Item>, m: seq<Item>)
    ensures ItemLexemes(l + m) == ItemLexemes(l) + ItemLexemes(m)
  {
    if l == [] {
      assert l + m == m;
    } else {
      assert (l + m)[1..] == l[1..] + m;
      ItemLexemesAppend(l[1..], m);
    }
  }

  lemma ItemsAppend(l: seq<Item>, m: seq<Item>)
    ensures Args(l + m) == Args(l) + Args(m) && Redirections(l + m) == Redirections(l) + Redirections(m)
    ensures ItemLexemes(l + m) == ItemLexemes(l) + ItemLexemes(m)
  {
    ArgsAppend(l, m);
    RedirectionsAppend(l, m);
    ItemLexemesAppend(l, m);
  }

  lemma RedirsHaveNoArgs(l: seq<Item>)
    requires AllRedirs(l)
    ensures Args(l) == [] && ItemsOk(l)
  {
  }

  /** An operator and the word after it. */
  lemma RedirTaken(s: string, i: nat)
    requires i <= |s| && Peek(s, i, "<>") && GetToken(s, GetToken(s, i).next).kind == Word
    ensures var op := GetToken(s, i);
            var file := GetToken(s, op.next);
            && Operator(op.kind)
            && Lexemes(s, i) == [Mark(op.kind), Name(Slice(s, Span(file.q, file.eq)))] + Lexemes(s, file.next)
  {
    PeekIsStarts(s, i, "<>");
    TakeLexeme(s, i);
    TakeLexeme(s, GetToken(s, i).next);
  }

  lemma AddRedir(s: string, acc: seq<Redirection<Span>>, op: Kind, sp: Span, more: seq<Item>, rest: seq<Lexeme>)
    requires Operator(op)
    ensures var r := Redirection(sp, if op == Sym('<') then RIn else RWrite);
            var l := [To(op, Slice(s, sp))] + more;
            && Files(s, acc + [r]) + Redirections(more) == Files(s, acc) + Redirections(l)
            && ItemLexemes(l) + rest == [Mark(op), Name(Slice(s, sp))] + (ItemLexemes(more) + rest)
            && (AllRedirs(more) ==> AllRedirs(l))
  {
    var r := Redirection(sp, if op == Sym('<') then RIn else RWrite);
    var l := [To(op, Slice(s, sp))] + more;
    assert l[1..] == more;
    assert Files(s, acc + [r]) == Files(s, acc) + [Redirection(Slice(s, sp), r.mode)];
  }

  lemma {:induction false} RedirsFrom(s: string, i: nat, acc: seq<Redirection<Span>>) returns (l: seq<Item>)
    requires i <= |s| && ParseRedirs(s, i, acc).ROk?
    ensures AllRedirs(l) && Consumed(s, i, ParseRedirs(s, i, acc).next, ItemLexemes(l))
    ensures Files(s, ParseRedirs(s, i, acc).rs) == Files(s, acc) + Redirections(l)
    decreases |s| - i
  {
    hide Peek, GetToken, Lexemes, Files, Slice, AllRedirs, ItemLexemes, Redirections;
    if Peek(s, i, "<>") {
      var op := GetToken(s, i);
      var file := GetToken(s, op.next);
      RedirTaken(s, i);
      var sp := Span(file.q, file.eq);
      var r := Redirection(sp, if op.kind == Sym('<') then RIn else RWrite);
      PeekMoves(s, i);
      var more := RedirsFrom(s, file.next, acc + [r]);
      AddRedir(s, acc, op.kind, sp, more, Lexemes(s, ParseRedirs(s, i, acc).next));
      l := [To(op.kind, Slice(s, sp))] + more;
    } else {
      l := [];
      SkipKeepsLexemes(s, i);
      NoItems(Files(s, acc), Lexemes(s, i));
    }
  }

  lemma PeekMoves(s: string, i: nat)
    requires i <= |s| && Peek(s, i, "<>")
    ensures i < GetToken(s, i).next
  {
  }

  lemma NoItems(files: seq<Redirection<string>>, rest: seq<Lexeme>)
    ensures AllRedirs([]) && files + Redirections([]) == files && ItemLexemes([]) + rest == rest && Args([]) == []
  {
  }

  lemma JoinRedirs(redirs: seq<Item>, more: seq<Item>, rest: seq<Lexeme>)
    requires AllRedirs(redirs) && ItemsOk(more)
    ensures var l := redirs + more;
      && ItemsOk(l) && Args(l) == Args(more) && Redirections(l) == Redirections(redirs) + Redirections(more)
      && ItemLexemes(l) + rest == ItemLexemes(redirs) + (ItemLexemes(more) + rest)
  {
    hide ItemsOk, AllRedirs, Args, Redirections, ItemLexemes;
    ItemsAppend(redirs, more);
    RedirsHaveNoArgs(redirs);
    BothOk(redirs, more);
  }

  lemma BothOk(a: seq<Item>, b: seq<Item>)
    requires ItemsOk(a) && ItemsOk(b)
    ensures ItemsOk(a + b)
  {
    forall k: nat | k < |a + b|
      ensures ItemOk((a + b)[k])
    {
      assert (a + b)[k] == if k < |a| then a[k] else b[k - |a|];
    }
  }

  lemma WordFirst(w: string, tail: seq<Item>, rest: seq<Lexeme>)
    ensures var l := [Arg(w)] + tail;
      && Args(l) == [w] + Args(tail) && Redirections(l) == Redirections(tail)
      && ItemLexemes(l) + rest == [Name(w)] + (ItemLexemes(tail) + rest)
      && (ItemsOk(tail) ==> ItemsOk(l))
  {
    assert ([Arg(w)] + tail)[1..] == tail;
  }

  /** A word, redirections and what comes after them, put together. */
  lemma JoinItems(w: string, redirs: seq<Item>, more: seq<Item>, rest: seq<Lexeme>)
    requires AllRedirs(redirs) && ItemsOk(more)
    ensures var l := [Arg(w)] + redirs + more;
      && ItemsOk(l) && Args(l) == [w] + Args(more) && Redirections(l) == Redirections(redirs) + Redirections(more)
      && ItemLexemes(l) + rest == [Name(w)] + (ItemLexemes(redirs) + (ItemLexemes(more) + rest))
  {
    var l, tail := [Arg(w)] + redirs + more, redirs + more;
    assert l == [Arg(w)] + tail;
    hide ItemsOk, AllRedirs, Args, Redirections, ItemLexemes;
    JoinRedirs(redirs, more, rest);
    WordFirst(w, tail, rest);
  }

  lemma WordTaken(s: string, i: nat)
    requires i <= |s| && GetToken(s, i).kind == Word
    ensures var t := GetToken(s, i);
            Lexemes(s, i) == [Name(Slice(s, Span(t.q, t.eq)))] + Lexemes(s, t.next)
  {
    TakeLexeme(s, i);
  }

  /** The arguments read so far and those still to come. */
  lemma MoreWords(s: string, argv: seq<Span>, sp: Span, args: seq<string>)
    ensures Words(s, argv + [sp]) + args == Words(s, argv) + ([Slice(s, sp)] + args)
  {
    assert Words(s, argv + [sp]) == Words(s, argv) + [Slice(s, sp)];
  }

  lemma {:induction false} ArgsFrom(s: string, i: nat, argv: seq<Span>, acc: seq<Redirection<Span>>)
    returns (l: seq<Item>)
    requires i <= |s| && |argv| < MAXARGS && ParseArgs(s, i, argv, acc).Ok?
    ensures ItemsOk(l) && |argv| + |Args(l)| < MAXARGS
    ensures Consumed(s, i, ParseArgs(s, i, argv, acc).next, ItemLexemes(l))
    ensures Text(s, ParseArgs(s, i, argv, acc).tree)
              == Wrap(Exec(Words(s, argv) + Args(l)), Files(s, acc) + Redirections(l))
    decreases |s| - i
  {
    hide Peek, GetToken, Lexemes, Files, Words, Slice, AllRedirs, ItemsOk, ItemLexemes, Redirections, Args, Text, Wrap;
    var tok := GetToken(s, i);
    if Peek(s, i, "|)&;") || tok.kind == Eof {
      l := [];
      ArgsStop(s, i, argv, acc);
    } else {
      var sp := Span(tok.q, tok.eq);
      var w := Slice(s, sp);
      var more := argv + [sp];
      WordTaken(s, i);
      var redirs := RedirsFrom(s, tok.next, acc);
      var r := ParseRedirs(s, tok.next, acc);
      var l2 := ArgsFrom(s, r.next, more, r.rs);
      l := [Arg(w)] + redirs + l2;
      JoinItems(w, redirs, l2, Lexemes(s, ParseArgs(s, i, argv, acc).next));
      MoreWords(s, argv, sp, Args(l2));
      assert Files(s, r.rs) + Redirections(l2) == Files(s, acc) + Redirections(l);
    }
  }

  lemma ArgsStop(s: string, i: nat, argv: seq<Span>, acc: seq<Redirection<Span>>)
    requires i <= |s| && (Peek(s, i, "|)&;") || GetToken(s, i).kind == Eof)
    ensures ParseArgs(s, i, argv, acc).Ok?
    ensures ItemsOk([]) && Args([]) == [] && Consumed(s, i, ParseArgs(s, i, argv, acc).next, ItemLexemes([]))
    ensures Text(s, ParseArgs(s, i, argv, acc).tree)
              == Wrap(Exec(Words(s, argv) + Args([])), Files(s, acc) + Redirections([]))
  {
    hide Peek, Words, Files, Wrap, Text;
    WrapText(s, Exec(argv), acc);
    assert Text(s, Exec(argv)) == Exec(Words(s, argv)) by { ExecText(s, argv); }
    assert Words(s, argv) + [] == Words(s, argv) && Files(s, acc) + [] == Files(s, acc);
    SkipKeepsLexemes(s, i);
    assert ItemLexemes([]) + Lexemes(s, i) == Lexemes(s, i);
  }

  lemma ExecText(s: string, argv: seq<Span>)
    ensures Text(s, Exec(argv)) == Exec(Words(s, argv))
  {
  }

  /** The parser has read the spelling from position i on. */
  ghost predicate HasRead(s: string, i: nat, r: Parsed, sp: Spelling) {
    r.Ok? && Grammatical(sp) && Text(s, r.tree) == Meaning(sp) && Consumed(s, i, r.next, Written(sp))
  }

  lemma SimpleFrom(s: string, i: nat) returns (sp: Spelling)
    requires i <= |s| && !Peek(s, i, "(") && ParseExec(s, i).Ok?
    ensures HasRead(s, i, ParseExec(s, i), sp) && Level(sp) == 0
  {
    hide Peek, GetToken, Lexemes, Files, Words, Slice, AllRedirs, ItemsOk, ItemLexemes, Redirections, Args, Text, Wrap,
        ParseArgs, ParseRedirs;
    NoFiles(s);
    var redirs := RedirsFrom(s, i, []);
    var r := ParseRedirs(s, i, []);
    var more := ArgsFrom(s, r.next, [], r.rs);
    sp := Simple(redirs + more);
    JoinRedirs(redirs, more, Lexemes(s, ParseExec(s, i).next));
    assert [] + Redirections(redirs) + Redirections(more) == Redirections(redirs) + Redirections(more);
    assert [] + Args(more) == Args(more);
  }

  lemma MarkTaken(s: string, i: nat, c: char)
    requires i <= |s| && Symbol(c) && c != '>' && Peek(s, i, [c])
    ensures Lexemes(s, i) == [Mark(Sym(c))] + Lexemes(s, GetToken(s, i).next) && i < GetToken(s, i).next
  {
    PeekIsStarts(s, i, [c]);
    TakeLexeme(s, i);
  }

  lemma {:induction false} ExecFrom(s: string, i: nat) returns (sp: Spelling)
    requires i <= |s| && ParseExec(s, i).Ok?
    ensures HasRead(s, i, ParseExec(s, i), sp) && Level(sp) == 0
    decreases |s| - i, 1
  {
    if Peek(s, i, "(") {
      hide Peek, GetToken, Lexemes, Text, Wrap, ParseLine, ParseRedirs, Written, Meaning, Grammatical;
      MarkTaken(s, i, '(');
      var inner := ParseLine(s, GetToken(s, i).next);
      var l := LineFrom(s, GetToken(s, i).next);
      MarkTaken(s, inner.next, ')');
      var k := GetToken(s, inner.next).next;
      var redirs := RedirsFrom(s, k, []);
      sp := BlockFrom(s, i, l, redirs);
    } else {
      hide Peek, ParseExec;
      sp := SimpleFrom(s, i);
    }
  }

  lemma BlockFrom(s: string, i: nat, l: Spelling, redirs: seq<Item>) returns (sp: Spelling)
    requires i <= |s| && Peek(s, i, "(") && ParseExec(s, i).Ok?
    requires var j := GetToken(s, i).next;
             && Lexemes(s, i) == [Mark(Sym('('))] + Lexemes(s, j) && HasRead(s, j, ParseLine(s, j), l)
             && Lexemes(s, ParseLine(s, j).next)
                  == [Mark(Sym(')'))] + Lexemes(s, GetToken(s, ParseLine(s, j).next).next)
             && AllRedirs(redirs)
             && var k := GetToken(s, ParseLine(s, j).next).next;
                && ParseRedirs(s, k, []).ROk? && Consumed(s, k, ParseRedirs(s, k, []).next, ItemLexemes(redirs))
                && Files(s, ParseRedirs(s, k, []).rs) == Files(s, []) + Redirections(redirs)
    ensures HasRead(s, i, ParseExec(s, i), sp) && Level(sp) == 0
  {
    hide Peek, GetToken, Lexemes, Text, Wrap, ParseLine, ParseRedirs, ItemLexemes, Redirections, AllRedirs, Files;
    var j := GetToken(s, i).next;
    var k := GetToken(s, ParseLine(s, j).next).next;
    var r := ParseRedirs(s, k, []);
    sp := Block(l, redirs);
    NoFiles(s);
    WrapText(s, ParseLine(s, j).tree, r.rs);
    assert [] + Redirections(redirs) == Redirections(redirs);
    assert Written(sp) + Lexemes(s, r.next)
        == [Mark(Sym('('))] + (Written(l) + ([Mark(Sym(')'))] + (ItemLexemes(redirs) + Lexemes(s, r.next))));
  }

  lemma {:induction false} PipeFrom(s: string, i: nat) returns (sp: Spelling)
    requires i <= |s| && ParsePipe(s, i).Ok?
    ensures HasRead(s, i, ParsePipe(s, i), sp) && Level(sp) <= 1
    decreases |s| - i, 2
  {
    hide Peek, GetToken, Lexemes, Text, ParseExec, Written, Meaning, Grammatical;
    var left := ParseExec(s, i);
    var l := ExecFrom(s, i);
    if Peek(s, left.next, "|") {
      MarkTaken(s, left.next, '|');
      var k := GetToken(s, left.next).next;
      var r := PipeFrom(s, k);
      sp := Piped(l, r);
      Joined(l, '|', r, Lexemes(s, ParsePipe(s, i).next));
      PipedMeans(s, l, r, left.tree, ParsePipe(s, k).tree);
    } else {
      sp := l;
      SkipKeepsLexemes(s, left.next);
    }
  }

  lemma Joined(l: Spelling, c: char, r: Spelling, rest: seq<Lexeme>)
    ensures (Written(l) + [Mark(Sym(c))] + Written(r)) + rest
         == Written(l) + ([Mark(Sym(c))] + (Written(r) + rest))
  {
  }

  lemma PipedMeans(s: string, l: Spelling, r: Spelling, a: Tree, b: Tree)
    requires Grammatical(l) && Grammatical(r) && Text(s, a) == Meaning(l) && Text(s, b) == Meaning(r)
    ensures Text(s, Pipe(a, b)) == Meaning(Piped(l, r)) && Text(s, List(a, b)) == Meaning(Listed(l, r))
    ensures Written(Piped(l, r)) == Written(l) + [Mark(Sym('|'))] + Written(r)
    ensures Written(Listed(l, r)) == Written(l) + [Mark(Sym(';'))] + Written(r)
    ensures Level(l) == 0 && Level(r) <= 1 ==> Grammatical(Piped(l, r))
    ensures Level(l) <= 2 ==> Grammatical(Listed(l, r))
  {
  }

  lemma BackedMeans(s: string, tree: Tree, sp: Spelling, rest: seq<Lexeme>)
    requires Grammatical(sp) && Level(sp) <= 2 && Text(s, tree) == Meaning(sp)
    ensures Grammatical(Backed(sp)) && Level(Backed(sp)) <= 2 && Text(s, Back(tree)) == Meaning(Backed(sp))
    ensures Written(Backed(sp)) + rest == Written(sp) + ([Mark(Sym('&'))] + rest)
  {
  }

  lemma {:induction false} BacksFrom(s: string, i: nat, tree: Tree, sp0: Spelling) returns (sp: Spelling)
    requires i <= |s| && Grammatical(sp0) && Level(sp0) <= 2 && Text(s, tree) == Meaning(sp0)
    ensures Grammatical(sp) && Level(sp) <= 2 && Text(s, ParseBacks(s, i, tree).tree) == Meaning(sp)
    ensures Written(sp0) + Lexemes(s, i) == Written(sp) + Lexemes(s, ParseBacks(s, i, tree).next)
    decreases |s| - i
  {
    hide Peek, GetToken, Lexemes, Text, Grammatical, Meaning, Written;
    if Peek(s, i, "&") {
      MarkTaken(s, i, '&');
      var k := GetToken(s, i).next;
      BackedMeans(s, tree, sp0, Lexemes(s, k));
      sp := BacksFrom(s, k, Back(tree), Backed(sp0));
    } else {
      sp := sp0;
      SkipKeepsLexemes(s, i);
    }
  }

  lemma {:induction false} LineFrom(s: string, i: nat) returns (sp: Spelling)
    requires i <= |s| && ParseLine(s, i).Ok?
    ensures HasRead(s, i, ParseLine(s, i), sp)
    decreases |s| - i, 3
  {
    hide Peek, GetToken, Lexemes, Text, ParsePipe, ParseBacks, Written, Meaning, Grammatical;
    var first := ParsePipe(s, i);
    var f := PipeFrom(s, i);
    var left := ParseBacks(s, first.next, first.tree);
    var l := BacksFrom(s, first.next, first.tree, f);
    if Peek(s, left.next, ";") {
      MarkTaken(s, left.next, ';');
      var k := GetToken(s, left.next).next;
      var r := LineFrom(s, k);
      sp := Listed(l, r);
      Joined(l, ';', r, Lexemes(s, ParseLine(s, i).next));
      PipedMeans(s, l, r, left.tree, ParseLine(s, k).tree);
    } else {
      sp := l;
      SkipKeepsLexemes(s, left.next);
    }
  }

  // ---- Every spelling is parsed --------------------------------------------------------------------------------

  /** The line's tokens end, or go on with one of the symbols. */
  predicate Ends(rest: seq<Lexeme>, chars: string) {
    rest == [] || Starts(rest, chars)
  }

  /** The parse yields the command and leaves the rest. */
  ghost predicate Yields(s: string, r: Parsed, c: Command, rest: seq<Lexeme>) {
    r.Ok? && r.next <= |s| && Text(s, r.tree) == c && Lexemes(s, r.next) == rest
  }

  /** A name among the tokens is read as a word. */
  lemma WordGiven(s: string, i: nat, w: string, rest: seq<Lexeme>)
    requires i <= |s| && Lexemes(s, i) == [Name(w)] + rest
    ensures var t := GetToken(s, i);
            t.kind == Word && Slice(s, Span(t.q, t.eq)) == w && Lexemes(s, t.next) == rest && i < t.next
  {
    TakeLexeme(s, i);
  }

  /** An operator and a name among the tokens are read as such. */
  lemma RedirGiven(s: string, i: nat, op: Kind, file: string, rest: seq<Lexeme>)
    requires i <= |s| && Operator(op) && Lexemes(s, i) == [Mark(op), Name(file)] + rest
    ensures Peek(s, i, "<>") && GetToken(s, i).kind == op && i < GetToken(s, i).next
    ensures var t := GetToken(s, GetToken(s, i).next);
            t.kind == Word && Slice(s, Span(t.q, t.eq)) == file && Lexemes(s, t.next) == rest
  {
    hide GetToken, Lexemes, Peek, Slice;
    PeekIsStarts(s, i, "<>");
    TakeLexeme(s, i);
    var j := GetToken(s, i).next;
    assert Lexemes(s, j) == [Name(file)] + rest;
    WordGiven(s, j, file, rest);
  }

  lemma FirstRedir(items: seq<Item>, rest: seq<Lexeme>)
    requires AllRedirs(items) && items != []
    ensures var more := items[1..];
      && AllRedirs(more) && items[0].To? && Operator(items[0].op) && items == [items[0]] + more
      && ItemLexemes(items) + rest == [Mark(items[0].op), Name(items[0].file)] + (ItemLexemes(more) + rest)
  {
    assert ItemOk(items[0]);
  }

  lemma {:induction false} RedirsRead(s: string, i: nat, items: seq<Item>, rest: seq<Lexeme>,
      acc: seq<Redirection<Span>>)
    requires i <= |s| && AllRedirs(items) && Lexemes(s, i) == ItemLexemes(items) + rest && !Starts(rest, "<>")
    ensures var r := ParseRedirs(s, i, acc);
      && r.ROk? && Lexemes(s, r.next) == rest && Files(s, r.rs) == Files(s, acc) + Redirections(items)
    decreases |items|
  {
    hide Peek, GetToken, Lexemes, Files, Slice, AllRedirs, ItemLexemes, Redirections, Starts;
    NoItems(Files(s, acc), rest);
    if items == [] {
      PeekIsStarts(s, i, "<>");
      SkipKeepsLexemes(s, i);
    } else {
      var one, more := items[0], items[1..];
      FirstRedir(items, rest);
      RedirGiven(s, i, one.op, one.file, ItemLexemes(more) + rest);
      var t := GetToken(s, GetToken(s, i).next);
      var sp := Span(t.q, t.eq);
      var r := Redirection(sp, if one.op == Sym('<') then RIn else RWrite);
      RedirsRead(s, t.next, more, rest, acc + [r]);
      AddRedir(s, acc, one.op, sp, more, rest);
    }
  }

  /** How many redirections stand before the first argument. */
  function Lead(items: seq<Item>): (n: nat)
    ensures n <= |items| && (n < |items| ==> items[n].Arg?) && forall k: nat :: k < n ==> items[k].To?
  {
    if items == [] || items[0].Arg? then 0 else 1 + Lead(items[1..])
  }

  /** The tokens from the first argument on, or those after the command, begin no redirection and no block. */
  lemma LeadSplits(items: seq<Item>, rest: seq<Lexeme>)
    requires ItemsOk(items) && Ends(rest, "|)&;")
    ensures var n := Lead(items);
      && AllRedirs(items[..n]) && ItemsOk(items[n..]) && items == items[..n] + items[n..]
      && !Starts(ItemLexemes(items[n..]) + rest, "<>") && !Starts(ItemLexemes(items) + rest, "(")
      && ItemLexemes(items) + rest == ItemLexemes(items[..n]) + (ItemLexemes(items[n..]) + rest)
      && Args(items) == Args(items[n..]) && Redirections(items) == Redirections(items[..n]) + Redirections(items[n..])
  {
    var n := Lead(items);
    var lead, tail := items[..n], items[n..];
    LeadOk(items);
    NoBlockFirst(items, rest);
    NoRedirFirst(tail, rest);
    hide ItemsOk, AllRedirs, ItemLexemes, Args, Redirections, Starts, Lead, Ends;
    JoinRedirs(lead, tail, rest);
  }

  lemma LeadOk(items: seq<Item>)
    requires ItemsOk(items)
    ensures var n := Lead(items);
            AllRedirs(items[..n]) && ItemsOk(items[n..]) && items == items[..n] + items[n..]
            && (items[n..] != [] ==> items[n..][0].Arg?)
  {
    var n := Lead(items);
    hide Lead, ItemOk;
    PartsOk(items, n);
  }

  lemma PartsOk(items: seq<Item>, n: nat)
    requires ItemsOk(items) && n <= |items| && forall k: nat :: k < n ==> items[k].To?
    ensures AllRedirs(items[..n]) && ItemsOk(items[n..])
  {
    hide ItemOk;
    forall k: nat | k < n
      ensures items[..n][k].To? && ItemOk(items[..n][k])
    {
      assert items[..n][k] == items[k];
    }
    forall k: nat | k < |items| - n
      ensures ItemOk(items[n..][k])
    {
      assert items[n..][k] == items[n + k];
    }
  }

  lemma NoBlockFirst(items: seq<Item>, rest: seq<Lexeme>)
    requires ItemsOk(items) && Ends(rest, "|)&;")
    ensures !Starts(ItemLexemes(items) + rest, "(")
  {
    if items != [] {
      assert ItemOk(items[0]);
    }
  }

  lemma NoRedirFirst(items: seq<Item>, rest: seq<Lexeme>)
    requires (items != [] ==> items[0].Arg?) && Ends(rest, "|)&;")
    ensures !Starts(ItemLexemes(items) + rest, "<>")
    ensures items != [] ==> !Starts(ItemLexemes(items) + rest, "|)&;")
  {
  }

  lemma FirstWord(items: seq<Item>, rest: seq<Lexeme>)
    requires ItemsOk(items) && items != [] && items[0].Arg?
    ensures ItemsOk(items[1..]) && Args(items) == [items[0].w] + Args(items[1..])
    ensures Redirections(items) == Redirections(items[1..])
    ensures ItemLexemes(items) + rest == [Name(items[0].w)] + (ItemLexemes(items[1..]) + rest)
  {
  }

  lemma {:induction false} ArgsRead(s: string, i: nat, items: seq<Item>, rest: seq<Lexeme>, argv: seq<Span>,
      acc: seq<Redirection<Span>>)
    requires i <= |s| && ItemsOk(items) && (items != [] ==> items[0].Arg?) && Ends(rest, "|)&;")
    requires Lexemes(s, i) == ItemLexemes(items) + rest && |argv| + |Args(items)| < MAXARGS
    ensures Yields(s, ParseArgs(s, i, argv, acc),
                Wrap(Exec(Words(s, argv) + Args(items)), Files(s, acc) + Redirections(items)), rest)
    decreases |items|
  {
    hide Peek, GetToken, Lexemes, Files, Words, Slice, AllRedirs, ItemsOk, ItemLexemes, Redirections, Args, Text, Wrap,
        Starts, Lead, Yields;
    PeekIsStarts(s, i, "|)&;");
    if items == [] {
      ArgsStopAt(s, i, rest, argv, acc);
    } else {
      NoRedirFirst(items, rest);
      FirstWord(items, rest);
      var w, after := items[0].w, items[1..];
      WordGiven(s, i, w, ItemLexemes(after) + rest);
      var t := GetToken(s, i);
      var n := Lead(after);
      LeadSplits(after, rest);
      RedirsRead(s, t.next, after[..n], ItemLexemes(after[n..]) + rest, acc);
      var r := ParseRedirs(s, t.next, acc);
      var more := argv + [Span(t.q, t.eq)];
      assert |more| < MAXARGS;
      ArgsRead(s, r.next, after[n..], rest, more, r.rs);
      MoreWords(s, argv, Span(t.q, t.eq), Args(after));
      assert Files(s, r.rs) + Redirections(after[n..]) == Files(s, acc) + Redirections(items);
    }
  }

  lemma ArgsStopAt(s: string, i: nat, rest: seq<Lexeme>, argv: seq<Span>, acc: seq<Redirection<Span>>)
    requires i <= |s| && Lexemes(s, i) == ItemLexemes([]) + rest && Ends(rest, "|)&;")
    ensures Yields(s, ParseArgs(s, i, argv, acc),
                Wrap(Exec(Words(s, argv) + Args([])), Files(s, acc) + Redirections([])), rest)
  {
    hide Peek, Words, Files, Wrap, Text, GetToken, Lexemes;
    PeekIsStarts(s, i, "|)&;");
    NoLexemes(s, i);
    assert Lexemes(s, i) == rest;
    ArgsStop(s, i, argv, acc);
    assert ItemLexemes([]) + Lexemes(s, ParseArgs(s, i, argv, acc).next)
        == Lexemes(s, ParseArgs(s, i, argv, acc).next);
  }

  lemma SimpleRead(s: string, i: nat, items: seq<Item>, rest: seq<Lexeme>)
    requires i <= |s| && Grammatical(Simple(items)) && Lexemes(s, i) == ItemLexemes(items) + rest
             && Ends(rest, "|)&;")
    ensures Yields(s, ParseExec(s, i), Meaning(Simple(items)), rest)
  {
    hide Peek, GetToken, Lexemes, Files, Words, Slice, AllRedirs, ItemsOk, ItemLexemes, Redirections, Args, Text, Wrap,
        Starts, Lead, Yields, ParseArgs, ParseRedirs, Ends;
    PeekIsStarts(s, i, "(");
    LeadSplits(items, rest);
    LeadOk(items);
    NoFiles(s);
    var n := Lead(items);
    RedirsRead(s, i, items[..n], ItemLexemes(items[n..]) + rest, []);
    var r := ParseRedirs(s, i, []);
    ArgsRead(s, r.next, items[n..], rest, [], r.rs);
    assert [] + Args(items[n..]) == Args(items) && [] + Redirections(items[..n]) == Redirections(items[..n]);
  }

  /** A symbol among the tokens is found by peek, and taken. */
  lemma MarkGiven(s: string, i: nat, c: char, rest: seq<Lexeme>)
    requires i <= |s| && Symbol(c) && Lexemes(s, i) == [Mark(Sym(c))] + rest
    ensures Peek(s, i, [c]) && i < GetToken(s, i).next && Lexemes(s, GetToken(s, i).next) == rest
  {
    PeekIsStarts(s, i, [c]);
    TakeLexeme(s, i);
  }

  lemma {:induction false} ExecRead(s: string, i: nat, sp: Spelling, rest: seq<Lexeme>)
    requires i <= |s| && Grammatical(sp) && Level(sp) == 0 && Lexemes(s, i) == Written(sp) + rest
             && Ends(rest, "|)&;")
    ensures Yields(s, ParseExec(s, i), Meaning(sp), rest)
    decreases sp, 0
  {
    hide Peek, GetToken, Lexemes, Yields, Ends, ItemLexemes, AllRedirs, Wrap, Redirections, Args, ParseExec;
    if sp.Simple? {
      SimpleRead(s, i, sp.items, rest);
    } else {
      var inside := [Mark(Sym(')'))] + (ItemLexemes(sp.redirs) + rest);
      assert Written(sp) + rest == [Mark(Sym('('))] + (Written(sp.line) + inside);
      MarkGiven(s, i, '(', Written(sp.line) + inside);
      var j := GetToken(s, i).next;
      ParenEnds(ItemLexemes(sp.redirs) + rest);
      LineRead(s, j, sp.line, inside);
      BlockGiven(s, i, sp.line, sp.redirs, rest);
    }
  }

  lemma ParenEnds(rest: seq<Lexeme>)
    ensures Ends([Mark(Sym(')'))] + rest, ")")
  {
  }

  lemma BlockGiven(s: string, i: nat, l: Spelling, redirs: seq<Item>, rest: seq<Lexeme>)
    requires i <= |s| && Peek(s, i, "(") && AllRedirs(redirs) && Ends(rest, "|)&;")
    requires Yields(s, ParseLine(s, GetToken(s, i).next), Meaning(l),
                 [Mark(Sym(')'))] + (ItemLexemes(redirs) + rest))
    ensures Yields(s, ParseExec(s, i), Meaning(Block(l, redirs)), rest)
  {
    hide Peek, GetToken, Lexemes, ItemLexemes, AllRedirs, Wrap, Redirections, Args, Text, ParseLine, ParseRedirs, Files;
    var inner := ParseLine(s, GetToken(s, i).next);
    MarkGiven(s, inner.next, ')', ItemLexemes(redirs) + rest);
    var k := GetToken(s, inner.next).next;
    EndsNoRedir(rest);
    RedirsRead(s, k, redirs, rest, []);
    NoFiles(s);
    var r := ParseRedirs(s, k, []);
    assert [] + Redirections(redirs) == Redirections(redirs);
    WrapText(s, inner.tree, r.rs);
  }

  lemma EndsNoRedir(rest: seq<Lexeme>)
    requires Ends(rest, "|)&;")
    ensures !Starts(rest, "<>")
  {
  }

  /** What ends a longer piece ends a shorter one, and is not what would go on with it. */
  lemma EndsMore(rest: seq<Lexeme>)
    ensures Ends(rest, ")&;") ==> Ends(rest, "|)&;") && !Starts(rest, "|")
    ensures Ends(rest, ")") ==> Ends(rest, ")&;") && !Starts(rest, "&") && !Starts(rest, ";")
    ensures Ends([Mark(Sym('|'))] + rest, "|)&;")
    ensures Ends([Mark(Sym('&'))] + rest, ")&;")
    ensures Ends([Mark(Sym(';'))] + rest, ")&;") && !Starts([Mark(Sym(';'))] + rest, "&")
  {
  }

  lemma {:induction false} PipeRead(s: string, i: nat, sp: Spelling, rest: seq<Lexeme>)
    requires i <= |s| && Grammatical(sp) && Level(sp) <= 1 && Lexemes(s, i) == Written(sp) + rest && Ends(rest, ")&;")
    ensures Yields(s, ParsePipe(s, i), Meaning(sp), rest)
    decreases sp, 1
  {
    hide Peek, GetToken, Lexemes, Ends, Starts, ParseExec, Text;
    EndsMore(rest);
    var left := ParseExec(s, i);
    if sp.Piped? {
      var after := [Mark(Sym('|'))] + (Written(sp.right) + rest);
      assert Written(sp) + rest == Written(sp.left) + after;
      EndsMore(Written(sp.right) + rest);
      ExecRead(s, i, sp.left, after);
      MarkGiven(s, left.next, '|', Written(sp.right) + rest);
      var k := GetToken(s, left.next).next;
      PipeRead(s, k, sp.right, rest);
      PipeText(s, left.tree, ParsePipe(s, k).tree);
    } else {
      ExecRead(s, i, sp, rest);
      PeekIsStarts(s, left.next, "|");
      SkipKeepsLexemes(s, left.next);
    }
  }

  lemma PipeText(s: string, a: Tree, b: Tree)
    ensures Text(s, Pipe(a, b)) == Pipe(Text(s, a), Text(s, b)) && Text(s, List(a, b)) == List(Text(s, a), Text(s, b))
    ensures Text(s, Back(a)) == Back(Text(s, a))
  {
  }

  /** Up to the last `&` of a spelling, parseline's loop has read it. */
  lemma {:induction false} ItemRead(s: string, i: nat, sp: Spelling, rest: seq<Lexeme>) returns (t: Tree, k: nat)
    requires i <= |s| && Grammatical(sp) && Level(sp) <= 2 && Lexemes(s, i) == Written(sp) + rest && Ends(rest, ")&;")
    ensures k <= |s| && Lexemes(s, k) == rest && Text(s, t) == Meaning(sp) && ParsePipe(s, i).Ok?
    ensures ParseBacks(s, ParsePipe(s, i).next, ParsePipe(s, i).tree) == ParseBacks(s, k, t)
    decreases sp, 2
  {
    hide Peek, GetToken, Lexemes, Ends, Starts, ParsePipe, Text;
    if sp.Backed? {
      var after := [Mark(Sym('&'))] + rest;
      assert Written(sp) + rest == Written(sp.cmd) + after;
      EndsMore(rest);
      var d, j := ItemRead(s, i, sp.cmd, after);
      MarkGiven(s, j, '&', rest);
      t, k := Back(d), GetToken(s, j).next;
      PipeText(s, d, d);
    } else {
      PipeRead(s, i, sp, rest);
      t, k := ParsePipe(s, i).tree, ParsePipe(s, i).next;
    }
  }

  lemma {:induction false} LineRead(s: string, i: nat, sp: Spelling, rest: seq<Lexeme>)
    requires i <= |s| && Grammatical(sp) && Lexemes(s, i) == Written(sp) + rest && Ends(rest, ")")
    ensures Yields(s, ParseLine(s, i), Meaning(sp), rest)
    decreases sp, 3
  {
    hide Peek, GetToken, Lexemes, Ends, Starts, ParsePipe, Text;
    EndsMore(rest);
    if sp.Listed? {
      var after := [Mark(Sym(';'))] + (Written(sp.right) + rest);
      assert Written(sp) + rest == Written(sp.left) + after;
      EndsMore(Written(sp.right) + rest);
      var t, k := ItemRead(s, i, sp.left, after);
      PeekIsStarts(s, k, "&");
      SkipKeepsLexemes(s, k);
      var m := Skip(s, k);
      MarkGiven(s, m, ';', Written(sp.right) + rest);
      var n := GetToken(s, m).next;
      LineRead(s, n, sp.right, rest);
      PipeText(s, t, ParseLine(s, n).tree);
    } else {
      var t, k := ItemRead(s, i, sp, rest);
      PeekIsStarts(s, k, "&");
      SkipKeepsLexemes(s, k);
      PeekIsStarts(s, Skip(s, k), ";");
      SkipKeepsLexemes(s, Skip(s, k));
    }
  }

  // ---- parsecmd and the grammar --------------------------------------------------------------------------------

  /** The line's tokens are those of the spelling. */
  ghost predicate Spells(s: string, sp: Spelling) {
    Grammatical(sp) && Lexemes(s, 0) == Written(sp)
  }

  /** parsecmd accepts exactly the lines that spell a command by the grammar. */
  lemma AcceptsExactlySpellings(s: string)
    ensures ParseCmd(s).Ok? <==> exists sp :: Spells(s, sp)
  {
    if ParseCmd(s).Ok? {
      hide Lexemes, Written, Grammatical;
      var sp := LineFrom(s, 0);
      NoLexemes(s, ParseLine(s, 0).next);
      assert Written(sp) + [] == Written(sp);
      assert Spells(s, sp);
    }
    if sp :| Spells(s, sp) {
      YieldsWhatIsSpelled(s, sp);
    }
  }

  /** ... and yields the command that is spelled: the grammar is unambiguous. */
  lemma YieldsWhatIsSpelled(s: string, sp: Spelling)
    requires Spells(s, sp)
    ensures ParseCmd(s).Ok? && Text(s, ParseCmd(s).tree) == Meaning(sp)
  {
    hide Lexemes, Written, Grammatical, ParseLine, Meaning;
    assert Written(sp) + [] == Written(sp);
    LineRead(s, 0, sp, []);
    NoLexemes(s, ParseLine(s, 0).next);
  }

  // ---- Respelling ----------------------------------------------------------------------------------------------

  /**
   Two spellings differ only in where redirections stand among the arguments, and in `>` or `>>`: piece by piece
   the arguments are the same, and the redirections, in their order, are the same.
   */
  predicate Alike(a: Spelling, b: Spelling) {
    match a
    case Simple(l) => b.Simple? && Args(l) == Args(b.items) && Redirections(l) == Redirections(b.items)
    case Block(l, rs) => b.Block? && Alike(l, b.line) && Redirections(rs) == Redirections(b.redirs)
    case Piped(l, r) => b.Piped? && Alike(l, b.left) && Alike(r, b.right)
    case Backed(c) => b.Backed? && Alike(c, b.cmd)
    case Listed(l, r) => b.Listed? && Alike(l, b.left) && Alike(r, b.right)
  }

  lemma {:induction false} AlikeMeansTheSame(a: Spelling, b: Spelling)
    requires Alike(a, b)
    ensures Meaning(a) == Meaning(b)
  {
    match a
    case Simple(_) =>
    case Block(l, _) => AlikeMeansTheSame(l, b.line);
    case Piped(l, r) => AlikeMeansTheSame(l, b.left); AlikeMeansTheSame(r, b.right);
    case Backed(c) => AlikeMeansTheSame(c, b.cmd);
    case Listed(l, r) => AlikeMeansTheSame(l, b.left); AlikeMeansTheSame(r, b.right);
  }

  /** Moving an argument before or after a redirection, and writing `>>` for `>`, are such differences. */
  lemma MovedAndDoubled(before: seq<Item>, w: string, op: Kind, op2: Kind, file: string, after: seq<Item>)
    requires (op == Sym('<') <==> op2 == Sym('<'))
    ensures Alike(Simple(before + [Arg(w), To(op, file)] + after), Simple(before + [To(op2, file), Arg(w)] + after))
  {
    var a, b := [Arg(w), To(op, file)], [To(op2, file), Arg(w)];
    ItemsAppend(before + a, after);
    ItemsAppend(before, a);
    ItemsAppend(before + b, after);
    ItemsAppend(before, b);
    assert a == [Arg(w)] + [To(op, file)] && b == [To(op2, file)] + [Arg(w)];
    ItemsAppend([Arg(w)], [To(op, file)]);
    ItemsAppend([To(op2, file)], [Arg(w)]);
    OneItem(Arg(w));
    OneItem(To(op, file));
    OneItem(To(op2, file));
    hide Args, Redirections;
    assert Args(a) == Args(b) && Redirections(a) == Redirections(b);
  }

  lemma OneItem(i: Item)
    ensures Args([i]) == (if i.Arg? then [i.w] else [])
    ensures Redirections([i]) ==
              if i.Arg? then [] else [Redirection(i.file, if i.op == Sym('<') then RIn else RWrite)]
  {
    assert [i][1..] == [];
  }

  /** White space between the tokens decides nothing. */
  lemma SameTokensMeanTheSame(s: string, t: string)
    requires Lexemes(s, 0) == Lexemes(t, 0)
    ensures ParseCmd(s).Ok? <==> ParseCmd(t).Ok?
    ensures ParseCmd(s).Ok? ==> Text(s, ParseCmd(s).tree) == Text(t, ParseCmd(t).tree)
  {
    AcceptsExactlySpellings(s);
    AcceptsExactlySpellings(t);
    if sp :| Spells(s, sp) {
      assert Spells(t, sp);
      YieldsWhatIsSpelled(s, sp);
      YieldsWhatIsSpelled(t, sp);
    }
    if sp :| Spells(t, sp) {
      assert Spells(s, sp);
    }
  }

  // ---- Tokens and white space ------------------------------------------------------------------------------------

  function TextOf(l: Lexeme): string {
    match l
    case Name(w) => w
    case Mark(k) => if k == Append then ">>" else if k.Sym? then [k.c] else ""
  }

  predicate LexemeOk(l: Lexeme) {
    match l
    case Name(w) => w != "" && forall k :: 0 <= k < |w| ==> WordChar(w[k])
    case Mark(k) => k == Append || (k.Sym? && Symbol(k.c))
  }

  /** Without white space between them the two would be read as one token, or cut elsewhere. */
  predicate NeedsGap(a: Lexeme, b: Lexeme) {
    (a.Name? && b.Name?) || (a == Mark(Sym('>')) && b.Mark? && (b.kind == Append || b.kind == Sym('>')))
  }

  predicate AllWhite(g: string) {
    forall k :: 0 <= k < |g| ==> White(g[k])
  }

  /** The tokens with a gap before each, and one at the end. */
  function Spaced(l: seq<Lexeme>, gaps: seq<string>): string
    requires |gaps| == |l| + 1
  {
    if l == [] then gaps[0] else gaps[0] + TextOf(l[0]) + Spaced(l[1..], gaps[1..])
  }

  /** The gaps are white space, and there is some where it is needed. */
  predicate GapsOk(l: seq<Lexeme>, gaps: seq<string>) {
    && |gaps| == |l| + 1 && AllWhite(gaps[0])
    && (l != [] ==> LexemeOk(l[0]) && GapsOk(l[1..], gaps[1..]))
    && (|l| > 1 && NeedsGap(l[0], l[1]) ==> gaps[1] != "")
  }

  // ---- gettoken takes white space for nothing else ---------------------------------------------------------------

  /** The line holds p at position i. */
  lemma SkipGap(s: string, i: nat, g: string)
    requires Occurs(s, i, g) && AllWhite(g) && i + |g| <= |s|
    ensures Skip(s, i) == Skip(s, i + |g|)
    decreases |g|
  {
    if g != "" {
      CharAt(s, i, g);
      assert White(s[i]);
      OccursParts(s, i, [g[0]], g[1..]);
      assert [g[0]] + g[1..] == g;
      SkipGap(s, i + 1, g[1..]);
    }
  }

  lemma LexemesAfterGap(s: string, i: nat, g: string)
    requires Occurs(s, i, g) && AllWhite(g)
    ensures i + |g| <= |s| && Lexemes(s, i) == Lexemes(s, i + |g|)
  {
    hide Lexemes;
    SkipGap(s, i, g);
    SkipKeepsLexemes(s, i);
    SkipKeepsLexemes(s, i + |g|);
  }

  /** After the token at i, the next character is not part of it. */
  predicate Cut(s: string, i: nat, l: Lexeme) {
    var j := i + |TextOf(l)|;
    j < |s| ==> !(l.Name? && WordChar(s[j])) && !(l == Mark(Sym('>')) && s[j] == '>')
  }

  /** The token at i is l and ends where its text does. */
  predicate TokenIs(s: string, i: nat, l: Lexeme)
    requires i <= |s|
  {
    var t := GetToken(s, i);
    var j := i + |TextOf(l)|;
    && j <= |s| && t.kind != Eof && t.next == Skip(s, j)
    && LexemeAt(s, i) == l
  }

  lemma NameIsToken(s: string, i: nat, w: string)
    requires LexemeOk(Name(w)) && Occurs(s, i, w) && Cut(s, i, Name(w))
    ensures i + |w| <= |s| && TokenIs(s, i, Name(w))
  {
    var j := i + |w|;
    CharAt(s, i, w);
    forall k | i <= k < j
      ensures WordChar(s[k])
    {
      assert s[k] == s[i..j][k - i];
    }
    WordEndsAt(s, i, j);
    assert Skip(s, i) == i;
    hide WordEnd, Skip;
    assert GetToken(s, i) == Token(Word, i, j, Skip(s, j));
  }

  lemma MarkIsToken(s: string, i: nat, l: Lexeme)
    requires l.Mark? && LexemeOk(l) && Occurs(s, i, TextOf(l)) && Cut(s, i, l)
    ensures i + |TextOf(l)| <= |s| && TokenIs(s, i, l)
  {
    var p := TextOf(l);
    CharAt(s, i, p);
    assert Skip(s, i) == i;
    hide Skip, WordEnd;
    if l.kind == Append {
      TwoMarks(s, i);
      hide Occurs, Cut, LexemeOk;
      assert GetToken(s, i) == Token(Append, i, i + 2, Skip(s, i + 2));
    } else {
      assert p == [l.kind.c] && s[i] == l.kind.c;
      hide Occurs, LexemeOk;
      assert GetToken(s, i) == Token(l.kind, i, i + 1, Skip(s, i + 1));
    }
  }

  lemma TwoMarks(s: string, i: nat)
    requires Occurs(s, i, ">>")
    ensures i + 2 <= |s| && s[i] == s[i + 1] == '>'
  {
    assert ">>" == ">" + ">";
    OccursParts(s, i, ">", ">");
    CharAt(s, i, ">");
    CharAt(s, i + 1, ">");
  }

  /** A token's text is read as that token. */
  lemma TextIsLexeme(s: string, i: nat, l: Lexeme)
    requires LexemeOk(l) && Occurs(s, i, TextOf(l)) && Cut(s, i, l)
    ensures i + |TextOf(l)| <= |s| && Lexemes(s, i) == [l] + Lexemes(s, i + |TextOf(l)|)
  {
    hide Lexemes, TokenIs, Cut, Occurs, GetToken, Skip;
    match l {
      case Name(w) => NameIsToken(s, i, w);
      case Mark(_) => MarkIsToken(s, i, l);
    }
    LexemesHead(s, i, l);
  }

  lemma LexemesHead(s: string, i: nat, l: Lexeme)
    requires i <= |s| && TokenIs(s, i, l)
    ensures i + |TextOf(l)| <= |s| && Lexemes(s, i) == [l] + Lexemes(s, i + |TextOf(l)|)
  {
    hide GetToken, Skip, TextOf, LexemeAt;
    SkipKeepsLexemes(s, i + |TextOf(l)|);
  }

  lemma WordEndsAt(s: string, i: nat, j: nat)
    requires i <= j <= |s| && (forall k :: i <= k < j ==> WordChar(s[k])) && (j < |s| ==> !WordChar(s[j]))
    ensures WordEnd(s, i) == j
    decreases j - i
  {
    if i < j {
      WordEndsAt(s, i + 1, j);
    }
  }

  /** Tokens written out with white space between them, where it is needed, are read back as those tokens. */
  lemma {:induction false} SpacedIsRead(s: string, i: nat, l: seq<Lexeme>, gaps: seq<string>)
    requires GapsOk(l, gaps) && i <= |s| && s[i..] == Spaced(l, gaps)
    ensures Lexemes(s, i) == l
    decreases |l|
  {
    hide Lexemes, Cut, LexemeOk, AllWhite, NeedsGap, TextOf;
    var g := gaps[0];
    var j := i + |g|;
    if l == [] {
      assert Occurs(s, i, g);
      LexemesAfterGap(s, i, g);
      NothingLeft(s, j);
    } else {
      var p, tail := TextOf(l[0]), Spaced(l[1..], gaps[1..]);
      assert s[i..] == g + (p + tail);
      Front(s, i, g, p + tail);
      LexemesAfterGap(s, i, g);
      Front(s, j, p, tail);
      CutByNext(s, j, l, gaps);
      TextIsLexeme(s, j, l[0]);
      SpacedIsRead(s, j + |p|, l[1..], gaps[1..]);
    }
  }

  lemma NothingLeft(s: string, i: nat)
    requires i == |s|
    ensures Lexemes(s, i) == []
  {
  }

  lemma Front(s: string, i: nat, p: string, tail: string)
    requires i <= |s| && s[i..] == p + tail
    ensures Occurs(s, i, p) && i + |p| <= |s| && s[i + |p|..] == tail
  {
    assert s[i..i + |p|] == s[i..][..|p|];
    assert s[i + |p|..] == s[i..][|p|..];
  }

  /** What comes after a token in a spaced line is not part of it. */
  lemma CutByNext(s: string, j: nat, l: seq<Lexeme>, gaps: seq<string>)
    requires l != [] && GapsOk(l, gaps) && j + |TextOf(l[0])| <= |s|
    requires s[j + |TextOf(l[0])|..] == Spaced(l[1..], gaps[1..])
    ensures Cut(s, j, l[0])
  {
    var k := j + |TextOf(l[0])|;
    if k < |s| {
      assert s[k] == s[k..][0];
      var g := gaps[1..][0];
      assert GapsOk(l[1..], gaps[1..]);
      if g != "" {
        assert White(g[0]) && s[k] == g[0];
      } else {
        var next := l[1..][0];
        assert LexemeOk(next) && TextOf(next) != "" && s[k] == TextOf(next)[0];
        assert next == l[1];
      }
    }
  }

  lemma TokenText(s: string, i: nat)
    requires i <= |s| && GetToken(s, i).kind != Eof
    ensures var t, l := GetToken(s, i), LexemeAt(s, i);
      && i <= t.q < t.eq <= |s| && t.q == Skip(s, i) && t.next == Skip(s, t.eq)
      && LexemeOk(l) && s[t.q..t.eq] == TextOf(l)
  {
    SymbolsAre(s[Skip(s, i)]);
  }

  lemma TokenParts(s: string, i: nat)
    requires i <= |s| && GetToken(s, i).kind != Eof
    ensures var t, l := GetToken(s, i), LexemeAt(s, i);
      && i < t.eq <= |s| && Lexemes(s, i) == [l] + Lexemes(s, t.eq) && AllWhite(s[i..Skip(s, i)])
      && s[i..] == s[i..Skip(s, i)] + TextOf(l) + s[t.eq..]
  {
    hide Lexemes, LexemeAt, GetToken, LexemeOk, TextOf, AllWhite, Skip;
    TokenText(s, i);
    var t := GetToken(s, i);
    SkipKeepsLexemes(s, t.eq);
    Unfolded(s, i);
    SkippedIsWhite(s, i);
    assert s[i..] == s[i..t.q] + s[t.q..t.eq] + s[t.eq..];
  }

  lemma Unfolded(s: string, i: nat)
    requires i <= |s| && GetToken(s, i).kind != Eof
    ensures Lexemes(s, i) == [LexemeAt(s, i)] + Lexemes(s, GetToken(s, i).next)
  {
  }

  lemma GapWhereNeeded(s: string, i: nat)
    requires i <= |s| && GetToken(s, i).kind != Eof
    ensures var j := GetToken(s, i).eq;
      j <= |s| && (Lexemes(s, j) != [] && NeedsGap(LexemeAt(s, i), Lexemes(s, j)[0]) ==> j < Skip(s, j))
  {
    hide Lexemes;
    var j := GetToken(s, i).eq;
    if Lexemes(s, j) != [] && Skip(s, j) == j {
      NoLexemes(s, j);
      Unfolded(s, j);
      NextIsCut(s, i);
    }
  }

  lemma NextIsCut(s: string, i: nat)
    requires i <= |s| && GetToken(s, i).kind != Eof && Skip(s, GetToken(s, i).eq) == GetToken(s, i).eq < |s|
    ensures !NeedsGap(LexemeAt(s, i), LexemeAt(s, GetToken(s, i).eq))
  {
    var t := GetToken(s, i);
    if t.kind == Word {
      WordIsWhole(s, i);
      hide GetToken, Skip;
      SymbolIsNoWord(s, t.eq);
    } else {
      GreaterIsWhole(s, i);
      hide GetToken, Skip;
      if t.kind == Sym('>') {
        NotGreater(s, t.eq);
      }
    }
  }

  lemma WordIsWhole(s: string, i: nat)
    requires i <= |s| && GetToken(s, i).kind == Word
    ensures GetToken(s, i).eq < |s| ==> !WordChar(s[GetToken(s, i).eq])
  {
  }

  lemma GreaterIsWhole(s: string, i: nat)
    requires i <= |s|
    ensures GetToken(s, i).kind == Sym('>') && GetToken(s, i).eq < |s| ==> s[GetToken(s, i).eq] != '>'
  {
  }

  lemma NotGreater(s: string, i: nat)
    requires i < |s| && Skip(s, i) == i && s[i] != '>'
    ensures GetToken(s, i).kind != Sym('>') && GetToken(s, i).kind != Append
  {
  }

  lemma SymbolIsNoWord(s: string, i: nat)
    requires i < |s| && Skip(s, i) == i && !WordChar(s[i])
    ensures GetToken(s, i).kind != Word
  {
  }

  /** Every line is its tokens, written out with white space where it is needed and nothing but white space between. */
  lemma {:induction false} EveryLineIsSpaced(s: string, i: nat) returns (gaps: seq<string>)
    requires i <= |s|
    ensures GapsOk(Lexemes(s, i), gaps) && s[i..] == Spaced(Lexemes(s, i), gaps) && gaps[0] == s[i..Skip(s, i)]
    decreases |s| - i
  {
    hide Lexemes, GetToken, LexemeAt, NeedsGap, TextOf, LexemeOk, AllWhite;
    var t := GetToken(s, i);
    var g := s[i..Skip(s, i)];
    NoLexemes(s, i);
    SkippedIsWhite(s, i);
    if t.kind == Eof {
      gaps := [g];
    } else {
      TokenText(s, i);
      TokenParts(s, i);
      GapWhereNeeded(s, i);
      var more := EveryLineIsSpaced(s, t.eq);
      gaps := [g] + more;
      Prepend(LexemeAt(s, i), Lexemes(s, t.eq), g, more);
    }
  }

  lemma SkippedIsWhite(s: string, i: nat)
    requires i <= |s|
    ensures AllWhite(s[i..Skip(s, i)])
  {
  }

  lemma Prepend(l: Lexeme, ls: seq<Lexeme>, g: string, gaps: seq<string>)
    requires GapsOk(ls, gaps) && AllWhite(g) && LexemeOk(l) && (ls != [] && NeedsGap(l, ls[0]) ==> gaps[0] != "")
    ensures GapsOk([l] + ls, [g] + gaps) && Spaced([l] + ls, [g] + gaps) == g + TextOf(l) + Spaced(ls, gaps)
  {
    assert ([l] + ls)[1..] == ls && ([g] + gaps)[1..] == gaps;
  }

  /** A line's tokens are what is left of it without the white space, and any way to space them gives that. */
  lemma LexemesAreTheTokens(s: string, l: seq<Lexeme>)
    ensures Lexemes(s, 0) == l <==> exists gaps :: GapsOk(l, gaps) && s == Spaced(l, gaps)
  {
    if Lexemes(s, 0) == l {
      var gaps := EveryLineIsSpaced(s, 0);
      assert s[0..] == s;
      assert GapsOk(l, gaps) && s == Spaced(l, gaps);
    }
    if gaps :| GapsOk(l, gaps) && s == Spaced(l, gaps) {
      assert s[0..] == s;
      SpacedIsRead(s, 0, l, gaps);
    }
  }

  /**
   Respelling a command, with other white space, with `>>` for `>`, and with the redirections of a simple command
   before, between or after its arguments, leaves what parsecmd makes of it the same.
   */
  lemma RespelledMeansTheSame(a: Spelling, gaps: seq<string>, b: Spelling, gaps2: seq<string>)
    requires Grammatical(a) && Grammatical(b) && Alike(a, b)
    requires GapsOk(Written(a), gaps) && GapsOk(Written(b), gaps2)
    ensures var s, t := Spaced(Written(a), gaps), Spaced(Written(b), gaps2);
            ParseCmd(s).Ok? && ParseCmd(t).Ok? && Text(s, ParseCmd(s).tree) == Text(t, ParseCmd(t).tree)
  {
    var s, t := Spaced(Written(a), gaps), Spaced(Written(b), gaps2);
    LexemesAreTheTokens(s, Written(a));
    LexemesAreTheTokens(t, Written(b));
    hide Lexemes, Written, Grammatical, Alike, GapsOk, Spaced, ParseCmd;
    YieldsWhatIsSpelled(s, a);
    YieldsWhatIsSpelled(t, b);
    AlikeMeansTheSame(a, b);
  }
}
