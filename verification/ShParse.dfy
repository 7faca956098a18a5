/**
 sh.c's recursive-descent parser as functions of the line and a position.
 */
module ShParse {
  import opened ShLex

  const MAXARGS := 10

  /** Redirections: `<` is RIn; `>` and `>>` open alike, RWrite. */
  datatype Mode = RIn | RWrite

  /** struct cmd, with words of type W: spans of the line in the parser, strings in the meaning. */
  datatype Cmd<W> =
    | Exec(argv: seq<W>)
    | Redir(cmd: Cmd<W>, file: W, mode: Mode)
    | Pipe(left: Cmd<W>, right: Cmd<W>)
    | List(left: Cmd<W>, right: Cmd<W>)
    | Back(cmd: Cmd<W>)

  datatype Span = Span(q: nat, eq: nat)
  datatype Redirection<W> = Redirection(file: W, mode: Mode)

  type Tree = Cmd<Span>

  /** The panics. */
  datatype Panic = Syntax | MissingFile | MissingParen | TooManyArgs | Leftovers

  datatype Parsed = Ok(tree: Tree, next: nat) | Fail(why: Panic)
  datatype Redirs = ROk(rs: seq<Redirection<Span>>, next: nat) | RFail(why: Panic)

  /** cmd inside the redirections rs, the last one outermost. */
  function Wrap<W>(cmd: Cmd<W>, rs: seq<Redirection<W>>): Cmd<W> {
    if rs == [] then cmd else Redir(Wrap(cmd, rs[..|rs| - 1]), rs[|rs| - 1].file, rs[|rs| - 1].mode)
  }

  function ParseRedirs(s: string, i: nat, rs: seq<Redirection<Span>>): (r: Redirs)
    requires i <= |s|
    ensures r.ROk? ==> i <= r.next <= |s|
    decreases |s| - i
  {
    if Peek(s, i, "<>") then
      var op := GetToken(s, i);
      var file := GetToken(s, op.next);
      if file.kind != Word then RFail(MissingFile)
      else ParseRedirs(s, file.next, rs + [Redirection(Span(file.q, file.eq),
          if op.kind == Sym('<') then RIn else RWrite)])
    else ROk(rs, Skip(s, i))
  }

  /** parseexec's loop over the arguments. */
  function ParseArgs(s: string, i: nat, argv: seq<Span>, rs: seq<Redirection<Span>>): (r: Parsed)
    requires i <= |s|
    ensures r.Ok? ==> i <= r.next <= |s|
    decreases |s| - i
  {
    if Peek(s, i, "|)&;") then Ok(Wrap(Exec(argv), rs), Skip(s, i))
    else
      var tok := GetToken(s, i);
      if tok.kind == Eof then Ok(Wrap(Exec(argv), rs), tok.next)
      else if tok.kind != Word then Fail(Syntax)
      else
        var more := argv + [Span(tok.q, tok.eq)];
        if |more| >= MAXARGS then Fail(TooManyArgs)
        else
          var r := ParseRedirs(s, tok.next, rs);
          if r.RFail? then Fail(r.why) else ParseArgs(s, r.next, more, r.rs)
  }

  function ParseExec(s: string, i: nat): (r: Parsed)
    requires i <= |s|
    ensures r.Ok? ==> i <= r.next <= |s|
    decreases |s| - i, 1
  {
    if Peek(s, i, "(") then ParseBlock(s, i)
    else
      var r := ParseRedirs(s, i, []);
      if r.RFail? then Fail(r.why) else ParseArgs(s, r.next, [], r.rs)
  }

  function ParseBlock(s: string, i: nat): (r: Parsed)
    requires i <= |s| && Peek(s, i, "(")
    ensures r.Ok? ==> i <= r.next <= |s|
    decreases |s| - i, 0
  {
    var inner := ParseLine(s, GetToken(s, i).next);
    if inner.Fail? then inner
    else if !Peek(s, inner.next, ")") then Fail(MissingParen)
    else
      var r := ParseRedirs(s, GetToken(s, inner.next).next, []);
      if r.RFail? then Fail(r.why) else Ok(Wrap(inner.tree, r.rs), r.next)
  }

  function ParsePipe(s: string, i: nat): (r: Parsed)
    requires i <= |s|
    ensures r.Ok? ==> i <= r.next <= |s|
    decreases |s| - i, 2
  {
    var left := ParseExec(s, i);
    if left.Fail? || !Peek(s, left.next, "|") then Skipped(s, left)
    else
      var right := ParsePipe(s, GetToken(s, left.next).next);
      if right.Fail? then right else Ok(Pipe(left.tree, right.tree), right.next)
  }

  /** A failing peek has moved over the white space. */
  function Skipped(s: string, r: Parsed): Parsed {
    if r.Ok? && r.next <= |s| then r.(next := Skip(s, r.next)) else r
  }

  /** parseline's loop over `&`. */
  function ParseBacks(s: string, i: nat, tree: Tree): (r: Parsed)
    requires i <= |s|
    ensures r.Ok? && i <= r.next <= |s|
    decreases |s| - i
  {
    if Peek(s, i, "&") then ParseBacks(s, GetToken(s, i).next, Back(tree)) else Ok(tree, Skip(s, i))
  }

  function ParseLine(s: string, i: nat): (r: Parsed)
    requires i <= |s|
    ensures r.Ok? ==> i <= r.next <= |s|
    decreases |s| - i, 3
  {
    var first := ParsePipe(s, i);
    if first.Fail? then first
    else
      var left := ParseBacks(s, first.next, first.tree);
      if !Peek(s, left.next, ";") then Skipped(s, left)
      else
        var right := ParseLine(s, GetToken(s, left.next).next);
        if right.Fail? then right else Ok(List(left.tree, right.tree), right.next)
  }

  /** parsecmd, before nulterminate. */
  function ParseCmd(s: string): (r: Parsed) {
    var line := ParseLine(s, 0);
    if line.Ok? && Skip(s, line.next) != |s| then Fail(Leftovers) else line
  }

  // ---- The words of a tree -------------------------------------------------------------------------------

  ghost predicate SpansAre(s: string, l: seq<Span>) {
    forall k: nat :: k < |l| ==> IsWord(s, l[k].q, l[k].eq)
  }

  ghost predicate FilesAre(s: string, rs: seq<Redirection<Span>>) {
    forall k: nat :: k < |rs| ==> IsWord(s, rs[k].file.q, rs[k].file.eq) && OpensAs(s, rs[k].file.q, rs[k].mode)
  }

  /** Before position q, but for white space, the line has `<` if the mode is to read and `>` if it is to write. */
  ghost predicate OpensAs(s: string, q: nat, mode: Mode) {
    exists k: nat :: k < q <= |s| && s[k] == (if mode == RIn then '<' else '>') && forall j :: k < j < q ==> White(s[j])
  }

  /** The operator decides the mode. */
  lemma OperatorIsMode(s: string, q: nat, mode: Mode, k: nat)
    requires OpensAs(s, q, mode) && k < q <= |s| && !White(s[k]) && forall j :: k < j < q ==> White(s[j])
    ensures (s[k] == '<' <==> mode == RIn) && (s[k] == '>' <==> mode == RWrite)
  {
    var o: nat :| o < q && s[o] == (if mode == RIn then '<' else '>') && forall j :: o < j < q ==> White(s[j]);
    assert !White(s[o]);
    assert o == k;
  }

  /**
   Every span of the tree is a whole word of the line, every redirection has its operator before its file, and
   no command has too many words.
   */
  ghost predicate Spelled(s: string, t: Tree) {
    match t
    case Exec(argv) => |argv| < MAXARGS && SpansAre(s, argv)
    case Redir(c, f, mode) => IsWord(s, f.q, f.eq) && OpensAs(s, f.q, mode) && Spelled(s, c)
    case Pipe(l, r) => Spelled(s, l) && Spelled(s, r)
    case List(l, r) => Spelled(s, l) && Spelled(s, r)
    case Back(c) => Spelled(s, c)
  }

  lemma {:induction false} WrapSpelled(s: string, t: Tree, rs: seq<Redirection<Span>>)
    requires Spelled(s, t) && FilesAre(s, rs)
    ensures Spelled(s, Wrap(t, rs))
  {
    if rs != [] {
      WrapSpelled(s, t, rs[..|rs| - 1]);
    }
  }

  /** The file that follows an operator has it before it, but for white space. */
  lemma OperatorBefore(s: string, i: nat)
    requires i <= |s| && Peek(s, i, "<>")
    ensures OpensAs(s, GetToken(s, GetToken(s, i).next).q, if GetToken(s, i).kind == Sym('<') then RIn else RWrite)
  {
    var op := GetToken(s, i);
    var file := GetToken(s, op.next);
    var k := op.eq - 1;
    assert s[k] == if op.kind == Sym('<') then '<' else '>';
    assert file.q == op.next == Skip(s, op.eq);
    assert k < file.q;
  }

  lemma {:induction false} RedirsSpelled(s: string, i: nat, rs: seq<Redirection<Span>>)
    requires i <= |s| && FilesAre(s, rs) && ParseRedirs(s, i, rs).ROk?
    ensures FilesAre(s, ParseRedirs(s, i, rs).rs)
    decreases |s| - i
  {
    if Peek(s, i, "<>") {
      var op := GetToken(s, i);
      var file := GetToken(s, op.next);
      WordTokenIsWord(s, op.next);
      OperatorBefore(s, i);
      RedirsSpelled(s, file.next, rs + [Redirection(Span(file.q, file.eq),
          if op.kind == Sym('<') then RIn else RWrite)]);
    }
  }

  lemma {:induction false} ArgsSpelled(s: string, i: nat, argv: seq<Span>, rs: seq<Redirection<Span>>)
    requires i <= |s| && |argv| < MAXARGS && SpansAre(s, argv) && FilesAre(s, rs) && ParseArgs(s, i, argv, rs).Ok?
    ensures Spelled(s, ParseArgs(s, i, argv, rs).tree)
    decreases |s| - i
  {
    var tok := GetToken(s, i);
    if Peek(s, i, "|)&;") || tok.kind == Eof {
      WrapSpelled(s, Exec(argv), rs);
    } else {
      WordTokenIsWord(s, i);
      RedirsSpelled(s, tok.next, rs);
      var r := ParseRedirs(s, tok.next, rs);
      ArgsSpelled(s, r.next, argv + [Span(tok.q, tok.eq)], r.rs);
    }
  }

  lemma {:induction false} ExecSpelled(s: string, i: nat)
    requires i <= |s| && ParseExec(s, i).Ok?
    ensures Spelled(s, ParseExec(s, i).tree)
    decreases |s| - i, 0
  {
    if Peek(s, i, "(") {
      var inner := ParseLine(s, GetToken(s, i).next);
      LineSpelled(s, GetToken(s, i).next);
      RedirsSpelled(s, GetToken(s, inner.next).next, []);
      WrapSpelled(s, inner.tree, ParseRedirs(s, GetToken(s, inner.next).next, []).rs);
    } else {
      var r := ParseRedirs(s, i, []);
      RedirsSpelled(s, i, []);
      ArgsSpelled(s, r.next, [], r.rs);
    }
  }

  lemma {:induction false} PipeSpelled(s: string, i: nat)
    requires i <= |s| && ParsePipe(s, i).Ok?
    ensures Spelled(s, ParsePipe(s, i).tree)
    decreases |s| - i, 1
  {
    ExecSpelled(s, i);
    var left := ParseExec(s, i);
    if Peek(s, left.next, "|") {
      PipeSpelled(s, GetToken(s, left.next).next);
    }
  }

  lemma {:induction false} BacksSpelled(s: string, i: nat, t: Tree)
    requires i <= |s| && Spelled(s, t)
    ensures Spelled(s, ParseBacks(s, i, t).tree)
    decreases |s| - i
  {
    if Peek(s, i, "&") {
      BacksSpelled(s, GetToken(s, i).next, Back(t));
    }
  }

  /** Whatever the line, a parsed tree is made of whole words of it. */
  lemma {:induction false} LineSpelled(s: string, i: nat)
    requires i <= |s| && ParseLine(s, i).Ok?
    ensures Spelled(s, ParseLine(s, i).tree)
    decreases |s| - i, 2
  {
    PipeSpelled(s, i);
    var first := ParsePipe(s, i);
    BacksSpelled(s, first.next, first.tree);
    var left := ParseBacks(s, first.next, first.tree);
    if Peek(s, left.next, ";") {
      LineSpelled(s, GetToken(s, left.next).next);
    }
  }
}
