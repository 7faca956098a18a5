/**
 sh.c's parser as it runs: the loops of parseredirs, parseexec and parseline, the mutual recursion,
 and nulterminate's stores into the line.
 */
module Sh {
  import opened ShLex
  import opened ShParse
  import opened ShPrint

  method Parseredirs(s: string, ps: nat, rs0: seq<Redirection<Span>>) returns (r: Redirs)
    requires ps <= |s|
    ensures r == ParseRedirs(s, ps, rs0)
  {
    hide Peek, GetToken;
    var rs := rs0;
    var p, more := PeekAt(s, ps, "<>");
    ghost var at := ps;
    while more
      invariant at <= p <= |s| && p == Skip(s, at) && more == Peek(s, at, "<>")
      invariant ParseRedirs(s, at, rs) == ParseRedirs(s, ps, rs0)
      decreases |s| - at
    {
      SkipFirst(s, at);
      var tok, _, _, p2 := Gettoken(s, p);
      var kind, q, eq, p3 := Gettoken(s, p2);
      if kind != Word {
        return RFail(MissingFile);
      }
      match tok {
        case Sym(c) => rs := rs + [Redirection(Span(q, eq), if c == '<' then RIn else RWrite)];
        case _ => rs := rs + [Redirection(Span(q, eq), RWrite)];
      }
      at := p3;
      p, more := PeekAt(s, p3, "<>");
    }
    return ROk(rs, p);
  }

  /** peek's move over white space changes nothing for what comes next. */
  lemma SkipFirst(s: string, i: nat)
    requires i <= |s|
    ensures GetToken(s, Skip(s, i)) == GetToken(s, i)
    ensures forall toks :: Peek(s, Skip(s, i), toks) == Peek(s, i, toks)
    ensures Skip(s, Skip(s, i)) == Skip(s, i)
    ensures forall toks :: Peek(s, i, toks) ==> i < GetToken(s, i).next
  {
  }

  method Parseexec(s: string, ps: nat) returns (r: Parsed)
    requires ps <= |s|
    ensures r == ParseExec(s, ps)
    decreases |s| - ps, 1
  {
    hide Peek, GetToken, ParseRedirs, ParseBlock, Wrap;
    var p, block := PeekAt(s, ps, "(");
    if block {
      r := Parseblock(s, ps);
      return;
    }
    var argv: seq<Span> := [];
    var redirs := Parseredirs(s, ps, []);
    if redirs.RFail? {
      return Fail(redirs.why);
    }
    var rs := redirs.rs;
    ghost var at := redirs.next;
    var stop;
    p, stop := PeekAt(s, redirs.next, "|)&;");
    while !stop
      invariant at <= p <= |s| && p == Skip(s, at) && stop == Peek(s, at, "|)&;") && |argv| < MAXARGS
      invariant ParseArgs(s, at, argv, rs) == ParseExec(s, ps)
      decreases |s| - at
    {
      SkipFirst(s, at);
      var tok, q, eq, p2 := Gettoken(s, p);
      if tok == Eof {
        return Ok(Wrap(Exec(argv), rs), p2);
      }
      if tok != Word {
        return Fail(Syntax);
      }
      var more := argv + [Span(q, eq)];
      if |more| >= MAXARGS {
        return Fail(TooManyArgs);
      }
      redirs := Parseredirs(s, p2, rs);
      if redirs.RFail? {
        return Fail(redirs.why);
      }
      NextArgument(s, at, argv, rs);
      argv, rs := more, redirs.rs;
      at := redirs.next;
      p, stop := PeekAt(s, redirs.next, "|)&;");
    }
    return Ok(Wrap(Exec(argv), rs), p);
  }

  lemma NextArgument(s: string, at: nat, argv: seq<Span>, rs: seq<Redirection<Span>>)
    requires at <= |s| && !Peek(s, at, "|)&;") && GetToken(s, at).kind == Word && |argv| + 1 < MAXARGS
    requires ParseRedirs(s, GetToken(s, at).next, rs).ROk?
    ensures var t := GetToken(s, at);
            var r := ParseRedirs(s, t.next, rs);
            && at < r.next && ParseArgs(s, at, argv, rs) == ParseArgs(s, r.next, argv + [Span(t.q, t.eq)], r.rs)
  {
  }

  method Parseblock(s: string, ps: nat) returns (r: Parsed)
    requires ps <= |s| && Peek(s, ps, "(")
    ensures r == ParseBlock(s, ps)
    decreases |s| - ps, 0
  {
    hide Peek, ParseRedirs, ParseLine, Wrap;
    SkipFirst(s, ps);
    var _, _, _, p := Gettoken(s, ps);
    r := Parseline(s, p);
    if r.Fail? {
      return;
    }
    var p2, closed := PeekAt(s, r.next, ")");
    if !closed {
      return Fail(MissingParen);
    }
    SkipFirst(s, r.next);
    var _, _, _, p3 := Gettoken(s, p2);
    var redirs := Parseredirs(s, p3, []);
    if redirs.RFail? {
      return Fail(redirs.why);
    }
    return Ok(Wrap(r.tree, redirs.rs), redirs.next);
  }

  method Parsepipe(s: string, ps: nat) returns (r: Parsed)
    requires ps <= |s|
    ensures r == ParsePipe(s, ps)
    decreases |s| - ps, 2
  {
    hide Peek, ParseExec;
    r := Parseexec(s, ps);
    if r.Fail? {
      return;
    }
    var p, more := PeekAt(s, r.next, "|");
    if more {
      SkipFirst(s, r.next);
      var _, _, _, p2 := Gettoken(s, p);
      var right := Parsepipe(s, p2);
      return if right.Fail? then right else Ok(Pipe(r.tree, right.tree), right.next);
    }
    return Ok(r.tree, p);
  }

  method Parseline(s: string, ps: nat) returns (r: Parsed)
    requires ps <= |s|
    ensures r == ParseLine(s, ps)
    decreases |s| - ps, 3
  {
    hide Peek, GetToken, ParsePipe;
    r := Parsepipe(s, ps);
    if r.Fail? {
      return;
    }
    var cmd, p := r.tree, r.next;
    var more;
    ghost var at := r.next;
    p, more := PeekAt(s, p, "&");
    while more
      invariant ps <= at <= p <= |s| && p == Skip(s, at) && more == Peek(s, at, "&")
      invariant ParseBacks(s, at, cmd) == ParseBacks(s, r.next, r.tree)
      decreases |s| - at
    {
      SkipFirst(s, at);
      var _, _, _, p2 := Gettoken(s, p);
      cmd := Back(cmd);
      at := p2;
      p, more := PeekAt(s, p2, "&");
    }
    var p3;
    SkipFirst(s, at);
    p3, more := PeekAt(s, p, ";");
    if more {
      SkipFirst(s, p);
      var _, _, _, p4 := Gettoken(s, p3);
      var right := Parseline(s, p4);
      return if right.Fail? then right else Ok(List(cmd, right.tree), right.next);
    }
    return Ok(cmd, p3);
  }

  // ---- nulterminate --------------------------------------------------------------------------------------------

  /** The positions that nulterminate clears. */
  function Ends(t: Tree): set<nat> {
    match t
    case Exec(argv) => set k: nat | k < |argv| :: argv[k].eq
    case Redir(c, f, _) => Ends(c) + {f.eq}
    case Pipe(l, r) => Ends(l) + Ends(r)
    case List(l, r) => Ends(l) + Ends(r)
    case Back(c) => Ends(c)
  }

  /** nulterminate: the line's characters at the ends of words become NUL, and no others change. */
  method Nulterminate(cmd: Tree, line: array<char>)
    requires forall e <- Ends(cmd) :: e < line.Length
    modifies line
    ensures forall k: nat :: k < line.Length ==> line[k] == if k in Ends(cmd) then NUL else old(line[k])
    decreases cmd
  {
    match cmd {
      case Exec(argv) =>
        var i := 0;
        while i < |argv|
          invariant i <= |argv|
          invariant forall k: nat :: k < line.Length ==> line[k] == if EndBefore(argv, i, k) then NUL else old(line[k])
        {
          assert argv[i].eq in Ends(cmd);
          line[argv[i].eq] := NUL;
          i := i + 1;
        }
      case Redir(c, f, _) =>
        assert f.eq in Ends(cmd) && forall e <- Ends(c) :: e in Ends(cmd);
        Nulterminate(c, line);
        line[f.eq] := NUL;
      case Pipe(l, r) =>
        assert forall e <- Ends(l) + Ends(r) :: e in Ends(cmd);
        Nulterminate(l, line);
        Nulterminate(r, line);
      case List(l, r) =>
        assert forall e <- Ends(l) + Ends(r) :: e in Ends(cmd);
        Nulterminate(l, line);
        Nulterminate(r, line);
      case Back(c) =>
        assert forall e <- Ends(c) :: e in Ends(cmd);
        Nulterminate(c, line);
    }
  }

  predicate EndBefore(argv: seq<Span>, i: nat, k: nat)
    requires i <= |argv|
  {
    exists j: nat :: j < i && argv[j].eq == k
  }

  /** sp is an argument or a file name of the tree. */
  predicate HasWord(t: Tree, sp: Span) {
    match t
    case Exec(argv) => sp in argv
    case Redir(c, f, _) => sp == f || HasWord(c, sp)
    case Pipe(l, r) => HasWord(l, sp) || HasWord(r, sp)
    case List(l, r) => HasWord(l, sp) || HasWord(r, sp)
    case Back(c) => HasWord(c, sp)
  }

  /** The C string at q. */
  function CString(b: seq<char>, q: nat): string
    decreases |b| - q
  {
    if q < |b| && b[q] != NUL then [b[q]] + CString(b, q + 1) else ""
  }

  lemma {:induction false} EndsAreDelimiters(s: string, t: Tree, e: nat)
    requires Spelled(s, t) && e in Ends(t)
    ensures e <= |s| && (e < |s| ==> !WordChar(s[e]))
  {
    match t
    case Exec(argv) =>
      var k: nat :| k < |argv| && argv[k].eq == e;
      assert IsWord(s, argv[k].q, argv[k].eq);
    case Redir(c, f, _) => if e in Ends(c) { EndsAreDelimiters(s, c, e); }
    case Pipe(l, r) => if e in Ends(l) { EndsAreDelimiters(s, l, e); } else { EndsAreDelimiters(s, r, e); }
    case List(l, r) => if e in Ends(l) { EndsAreDelimiters(s, l, e); } else { EndsAreDelimiters(s, r, e); }
    case Back(c) => EndsAreDelimiters(s, c, e);
  }

  lemma {:induction false} WordsAreSpelled(s: string, t: Tree, sp: Span)
    requires Spelled(s, t) && HasWord(t, sp)
    ensures IsWord(s, sp.q, sp.eq) && sp.eq in Ends(t)
  {
    match t
    case Exec(argv) =>
      var k: nat :| k < |argv| && argv[k] == sp;
      assert IsWord(s, argv[k].q, argv[k].eq);
    case Redir(c, f, _) => if sp != f { WordsAreSpelled(s, c, sp); }
    case Pipe(l, r) => if HasWord(l, sp) { WordsAreSpelled(s, l, sp); } else { WordsAreSpelled(s, r, sp); }
    case List(l, r) => if HasWord(l, sp) { WordsAreSpelled(s, l, sp); } else { WordsAreSpelled(s, r, sp); }
    case Back(c) => WordsAreSpelled(s, c, sp);
  }

  lemma {:induction false} CStringIs(b: seq<char>, q: nat, eq: nat)
    requires q <= eq < |b| && b[eq] == NUL && forall k :: q <= k < eq ==> b[k] != NUL
    ensures CString(b, q) == b[q..eq]
    decreases eq - q
  {
    if q < eq {
      CStringIs(b, q + 1, eq);
      assert b[q..eq] == [b[q]] + b[q + 1..eq];
    }
  }

  /**
   After nulterminate, every argument and file name of a parsed tree is, as a C string, exactly its
   token: the stores cut every word off at its end and none of them falls inside a word.
   */
  lemma WordsAreTerminated(s: string, t: Tree, line: seq<char>, sp: Span)
    requires Spelled(s, t) && NUL !in s && HasWord(t, sp) && |line| == |s| + 1
    requires forall k: nat :: k < |line| ==> line[k] == if k in Ends(t) then NUL else (s + [NUL])[k]
    ensures CString(line, sp.q) == Slice(s, sp)
  {
    WordsAreSpelled(s, t, sp);
    forall k | sp.q <= k < sp.eq
      ensures line[k] == s[k] && line[k] != NUL
    {
      if k in Ends(t) {
        EndsAreDelimiters(s, t, k);
      }
      assert s[k] in s;
    }
    CStringIs(line, sp.q, sp.eq);
    assert line[sp.q..sp.eq] == s[sp.q..sp.eq];
  }

  /** parsecmd: the tree, and the line with its words terminated. */
  method Parsecmd(line: array<char>, s: string) returns (r: Parsed)
    requires line[..] == s + [NUL] && NUL !in s
    modifies line
    ensures r == ParseCmd(s)
    ensures r.Ok? ==> Spelled(s, r.tree) && forall sp :: HasWord(r.tree, sp) ==> CString(line[..], sp.q) == Slice(s, sp)
    ensures r.Fail? ==> line[..] == old(line[..])
  {
    hide ParseLine;
    r := Parseline(s, 0);
    if r.Fail? {
      return;
    }
    var p, _ := PeekAt(s, r.next, "");
    if p != |s| {
      return Fail(Leftovers);
    }
    LineSpelled(s, 0);
    var tree := r.tree;
    forall e | e in Ends(tree)
      ensures e < line.Length
    {
      EndsAreDelimiters(s, tree, e);
    }
    ghost var was := line[..];
    Nulterminate(tree, line);
    forall sp | HasWord(tree, sp)
      ensures CString(line[..], sp.q) == Slice(s, sp)
    {
      WordsAreTerminated(s, tree, line[..], sp);
    }
  }
}
