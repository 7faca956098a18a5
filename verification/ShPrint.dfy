/**
 Printing command trees, and the round trip: parsecmd reads every printed tree back.
 */
module ShPrint {
  import opened ShLex
  import opened ShParse

  type Command = Cmd<string>

  // ---- What a tree of spans means ------------------------------------------------------------------------

  function Slice(s: string, sp: Span): string {
    if sp.q <= sp.eq <= |s| then s[sp.q..sp.eq] else ""
  }

  function Words(s: string, l: seq<Span>): seq<string> {
    seq(|l|, k requires 0 <= k < |l| => Slice(s, l[k]))
  }

  function Files(s: string, rs: seq<Redirection<Span>>): seq<Redirection<string>> {
    seq(|rs|, k requires 0 <= k < |rs| => Redirection(Slice(s, rs[k].file), rs[k].mode))
  }

  /** The command that a tree of spans stands for. */
  function Text(s: string, t: Tree): Command {
    match t
    case Exec(argv) => Exec(Words(s, argv))
    case Redir(c, f, m) => Redir(Text(s, c), Slice(s, f), m)
    case Pipe(l, r) => Pipe(Text(s, l), Text(s, r))
    case List(l, r) => List(Text(s, l), Text(s, r))
    case Back(c) => Back(Text(s, c))
  }

  predicate LegalWord(w: string) {
    w != "" && NUL !in w && forall k :: 0 <= k < |w| ==> WordChar(w[k])
  }

  predicate LegalWords(l: seq<string>) {
    forall k: nat :: k < |l| ==> LegalWord(l[k])
  }

  /** Commands one can type: legal words, fewer than MAXARGS of them in a row. */
  predicate Legal(c: Command) {
    match c
    case Exec(argv) => |argv| < MAXARGS && LegalWords(argv)
    case Redir(d, f, _) => LegalWord(f) && Legal(d)
    case Pipe(l, r) => Legal(l) && Legal(r)
    case List(l, r) => Legal(l) && Legal(r)
    case Back(d) => Legal(d)
  }

  // ---- Printing --------------------------------------------------------------------------------------------

  function PrintWords(l: seq<string>): string {
    if l == [] then "" else l[0] + " " + PrintWords(l[1..])
  }

  function PrintRedir(r: Redirection<string>): string {
    (if r.mode == RIn then "<" else ">") + r.file + " "
  }

  function PrintRedirs(rs: seq<Redirection<string>>): string {
    if rs == [] then "" else PrintRedir(rs[0]) + PrintRedirs(rs[1..])
  }

  /** The redirections around a command, innermost first, and what they are around. */
  function Around(c: Command): seq<Redirection<string>> {
    match c
    case Redir(d, f, m) => Around(d) + [Redirection(f, m)]
    case _ => []
  }

  function Core(c: Command): (d: Command)
    ensures !d.Redir? && (c.Redir? ==> d < c) && (!c.Redir? ==> d == c)
  {
    match c
    case Redir(d, _, _) => Core(d)
    case _ => c
  }

  /** The four grammatical levels; a command of a higher level is put in parentheses. */
  function PrintExec(c: Command): string
    decreases c, if c.Exec? || c.Redir? then 0 else 4
  {
    var core := Core(c);
    (if core.Exec? then PrintWords(core.argv) else "(" + PrintLine(core) + ")") + PrintRedirs(Around(c))
  }

  function PrintPipe(c: Command): string
    decreases c, if c.Pipe? then 0 else 5
  {
    match c
    case Pipe(l, r) => PrintExec(l) + "|" + PrintPipe(r)
    case _ => PrintExec(c)
  }

  function PrintItem(c: Command): string
    decreases c, if c.Pipe? then 1 else if c.Back? then 0 else 6
  {
    match c
    case Back(d) => PrintItem(d) + "&"
    case _ => PrintPipe(c)
  }

  function PrintLine(c: Command): string
    decreases c, if c.List? then 0 else if c.Back? || c.Pipe? then 3 else 7
  {
    match c
    case List(l, r) => PrintItem(l) + ";" + PrintLine(r)
    case _ => PrintItem(c)
  }

  // ---- Pieces of a line -----------------------------------------------------------------------------------

  predicate Occurs(s: string, i: nat, p: string) {
    i + |p| <= |s| && s[i..i + |p|] == p
  }

  lemma OccursParts(s: string, i: nat, a: string, b: string)
    requires Occurs(s, i, a + b)
    ensures Occurs(s, i, a) && Occurs(s, i + |a|, b) && i + |a| + |b| <= |s| && |a + b| == |a| + |b|
  {
    assert s[i..i + |a|] == (a + b)[..|a|] == a;
    assert s[i + |a|..i + |a| + |b|] == (a + b)[|a|..] == b;
  }

  lemma OccursInside(s: string, i: nat, p: string)
    requires Occurs(s, i, p)
    ensures i + |p| <= |s|
  {
  }

  /** Position i holds a character that is not white space, or the end of the line. */
  predicate Solid(s: string, i: nat) {
    i == |s| || (i < |s| && !White(s[i]))
  }

  /** The line ends at i, or goes on with one of the characters. */
  predicate Stops(s: string, i: nat, chars: string) {
    i == |s| || (i < |s| && s[i] in chars)
  }

  lemma CharAt(s: string, i: nat, p: string)
    requires Occurs(s, i, p) && p != ""
    ensures i < |s| && s[i] == p[0]
  {
    assert s[i..i + |p|][0] == p[0];
  }

  lemma SymbolsAreSolid(s: string, i: nat, chars: string)
    requires Stops(s, i, chars) && forall k :: 0 <= k < |chars| ==> !White(chars[k])
    ensures Solid(s, i) && Skip(s, i) == i
  {
  }

  lemma SolidStays(s: string, i: nat)
    requires Solid(s, i)
    ensures Skip(s, i) == i
  {
  }

  /** A printed word is scanned as that word, up to the next piece. */
  lemma WordScanned(s: string, i: nat, w: string)
    requires LegalWord(w) && Occurs(s, i, w + " ") && Solid(s, i + |w| + 1)
    ensures GetToken(s, i) == Token(Word, i, i + |w|, i + |w| + 1)
    ensures Slice(s, Span(i, i + |w|)) == w
  {
    OccursParts(s, i, w, " ");
    CharAt(s, i, w);
    CharAt(s, i + |w|, " ");
    forall k | i <= k < i + |w|
      ensures WordChar(s[k])
    {
      assert s[k] == s[i..i + |w|][k - i];
    }
    var e := WordEnd(s, i);
    assert e == i + |w|;
    assert Skip(s, i + |w|) == Skip(s, i + |w| + 1);
  }

  lemma SymbolScanned(s: string, i: nat, c: char)
    requires Symbol(c) && c != '>' && Occurs(s, i, [c]) && Solid(s, i + 1)
    ensures GetToken(s, i) == Token(Sym(c), i, i + 1, i + 1)
  {
    CharAt(s, i, [c]);
  }

  // ---- Redirections and arguments --------------------------------------------------------------------------

  predicate LegalFiles(rs: seq<Redirection<string>>) {
    forall k: nat :: k < |rs| ==> LegalWord(rs[k].file)
  }

  lemma NoRedirs(s: string, i: nat, rs: seq<Redirection<Span>>)
    requires Solid(s, i) && (i < |s| ==> s[i] != '<' && s[i] != '>')
    ensures ParseRedirs(s, i, rs) == ROk(rs, i)
  {
  }

  /** One printed redirection is scanned as such. */
  lemma RedirScanned(s: string, i: nat, r: Redirection<string>)
    requires LegalWord(r.file) && Occurs(s, i, PrintRedir(r)) && Solid(s, i + |PrintRedir(r)|)
    ensures Peek(s, i, "<>")
    ensures GetToken(s, i).next == i + 1 && (GetToken(s, i).kind == Sym('<') <==> r.mode == RIn)
    ensures GetToken(s, i + 1) == Token(Word, i + 1, i + 1 + |r.file|, i + |PrintRedir(r)|)
    ensures Slice(s, Span(i + 1, i + 1 + |r.file|)) == r.file
  {
    hide Occurs, LegalWord, GetToken, Peek, Slice, Solid;
    var op := if r.mode == RIn then "<" else ">";
    assert PrintRedir(r) == op + (r.file + " ");
    OccursParts(s, i, op, r.file + " ");
    WordScanned(s, i + 1, r.file);
    OccursParts(s, i + 1, r.file, " ");
    OperatorScanned(s, i, if r.mode == RIn then '<' else '>', r.file);
  }

  lemma OperatorScanned(s: string, i: nat, op: char, file: string)
    requires (op == '<' || op == '>') && LegalWord(file) && Occurs(s, i, [op]) && Occurs(s, i + 1, file)
    ensures i <= |s| && Peek(s, i, "<>") && GetToken(s, i).next == i + 1 && GetToken(s, i).kind == Sym(op)
  {
    CharAt(s, i, [op]);
    CharAt(s, i + 1, file);
    assert WordChar(file[0]);
    SolidStays(s, i);
    SolidStays(s, i + 1);
  }

  lemma RedirsHead(rs: seq<Redirection<string>>)
    ensures rs == [] <==> PrintRedirs(rs) == ""
    ensures rs != [] ==> PrintRedirs(rs)[0] in "<>"
  {
  }

  lemma RedirsSolid(s: string, i: nat, rs: seq<Redirection<string>>)
    requires Occurs(s, i, PrintRedirs(rs)) && Solid(s, i + |PrintRedirs(rs)|)
    ensures Solid(s, i)
  {
    RedirsHead(rs);
    if rs != [] {
      CharAt(s, i, PrintRedirs(rs));
    }
  }

  lemma RedirLength(s: string, i: nat, r: Redirection<string>)
    requires Occurs(s, i, PrintRedir(r))
    ensures |PrintRedir(r)| == |r.file| + 2 && i + |PrintRedir(r)| <= |s|
  {
  }

  /** Reading redirections goes on after the first one. */
  lemma RedirsStep(s: string, i: nat, r: Redirection<string>, acc: seq<Redirection<Span>>)
    requires LegalWord(r.file) && Occurs(s, i, PrintRedir(r)) && Solid(s, i + |PrintRedir(r)|)
    ensures i + |PrintRedir(r)| <= |s| && |PrintRedir(r)| > 0
    ensures var one := Redirection(Span(i + 1, i + 1 + |r.file|), r.mode);
            && ParseRedirs(s, i, acc) == ParseRedirs(s, i + |PrintRedir(r)|, acc + [one])
            && Files(s, acc + [one]) == Files(s, acc) + [r]
  {
    hide GetToken, Peek, Occurs, LegalWord, Slice, Solid, PrintRedir;
    RedirLength(s, i, r);
    RedirScanned(s, i, r);
    var one := Redirection(Span(i + 1, i + 1 + |r.file|), r.mode);
    assert Files(s, acc + [one]) == Files(s, acc) + [r];
  }

  lemma {:induction false} RedirsBack(s: string, i: nat, rs: seq<Redirection<string>>, acc: seq<Redirection<Span>>)
    requires LegalFiles(rs) && Occurs(s, i, PrintRedirs(rs))
    requires var j := i + |PrintRedirs(rs)|;
             Solid(s, j) && (j < |s| ==> s[j] != '<' && s[j] != '>')
    ensures i <= |s| && ParseRedirs(s, i, acc).ROk? && ParseRedirs(s, i, acc).next == i + |PrintRedirs(rs)|
    ensures Files(s, ParseRedirs(s, i, acc).rs) == Files(s, acc) + rs
    decreases |rs|
  {
    hide ParseRedirs, Solid, Occurs, LegalWord, Files, PrintRedir;
    if rs == [] {
      OccursInside(s, i, "");
      NoRedirs(s, i, acc);
      assert Files(s, acc) + rs == Files(s, acc);
    } else {
      var r, rest := rs[0], rs[1..];
      OccursParts(s, i, PrintRedir(r), PrintRedirs(rest));
      var i2 := i + |PrintRedir(r)|;
      RedirsSolid(s, i2, rest);
      RedirsStep(s, i, r, acc);
      var one := Redirection(Span(i + 1, i + 1 + |r.file|), r.mode);
      assert LegalFiles(rest);
      RedirsBack(s, i2, rest, acc + [one]);
      assert rs == [r] + rest;
      assert Files(s, acc) + [r] + rest == Files(s, acc) + rs;
    }
  }

  lemma {:induction false} WrapText(s: string, t: Tree, rs: seq<Redirection<Span>>)
    ensures Text(s, Wrap(t, rs)) == Wrap(Text(s, t), Files(s, rs))
  {
    if rs != [] {
      WrapText(s, t, rs[..|rs| - 1]);
      assert Files(s, rs)[..|rs| - 1] == Files(s, rs[..|rs| - 1]);
    }
  }

  lemma {:induction false} WrapAround(c: Command)
    ensures c == Wrap(Core(c), Around(c))
  {
    if c.Redir? {
      WrapAround(c.cmd);
      var a := Around(c.cmd);
      assert (a + [Redirection(c.file, c.mode)])[..|a|] == a;
    }
  }

  lemma {:induction false} LegalParts(c: Command)
    requires Legal(c)
    ensures Legal(Core(c)) && LegalFiles(Around(c))
  {
    if c.Redir? {
      LegalParts(c.cmd);
    }
  }

  lemma WordsHead(l: seq<string>)
    requires LegalWords(l)
    ensures l == [] <==> PrintWords(l) == ""
    ensures l != [] ==> WordChar(PrintWords(l)[0])
  {
    if l != [] {
      assert LegalWord(l[0]);
    }
  }

  /** What follows the words of a simple command: its redirections, and then the end of the command. */
  lemma {:induction false} ArgsBack(s: string, i: nat, args: seq<string>, rs: seq<Redirection<string>>,
          argv: seq<Span>, acc: seq<Redirection<Span>>)
    requires LegalWords(args) && LegalFiles(rs) && |argv| + |args| < MAXARGS && (args == [] ==> rs == [])
    requires Occurs(s, i, PrintWords(args) + PrintRedirs(rs))
             && Stops(s, i + |PrintWords(args)| + |PrintRedirs(rs)|, "|)&;")
    ensures i <= |s| && ParseArgs(s, i, argv, acc).Ok?
            && ParseArgs(s, i, argv, acc).next == i + |PrintWords(args)| + |PrintRedirs(rs)|
    ensures Text(s, ParseArgs(s, i, argv, acc).tree) == Wrap(Exec(Words(s, argv) + args), Files(s, acc) + rs)
    decreases |args|
  {
    hide ParseRedirs, Solid, Occurs, LegalWord, Peek, GetToken, Text, Wrap, PrintRedir;
    if args == [] {
      ArgsEnd(s, i, argv, acc);
      assert Words(s, argv) + args == Words(s, argv) && Files(s, acc) + rs == Files(s, acc);
    } else {
      var w, rest := args[0], args[1..];
      var i2 := i + |w| + 1;
      ArgBack(s, i, args, rs);
      var more := argv + [Span(i, i + |w|)];
      assert Words(s, more) == Words(s, argv) + [w];
      assert Words(s, more) + rest == Words(s, argv) + args;
      if rest == [] {
        RedirsBack(s, i2, rs, acc);
        var r := ParseRedirs(s, i2, acc);
        ArgsEnd(s, r.next, more, r.rs);
        assert Words(s, more) + rest == Words(s, more);
      } else {
        NoRedirs(s, i2, acc);
        assert LegalWords(rest);
        ArgsBack(s, i2, rest, rs, more, acc);
      }
    }
  }

  /** The end of a simple command. */
  lemma ArgsEnd(s: string, i: nat, argv: seq<Span>, acc: seq<Redirection<Span>>)
    requires Stops(s, i, "|)&;")
    ensures ParseArgs(s, i, argv, acc) == Ok(Wrap(Exec(argv), acc), i)
    ensures Text(s, Wrap(Exec(argv), acc)) == Wrap(Exec(Words(s, argv)), Files(s, acc))
  {
    SymbolsAreSolid(s, i, "|)&;");
    WrapText(s, Exec(argv), acc);
  }

  /** The first of the words is scanned, and what comes after it is in place. */
  lemma ArgBack(s: string, i: nat, args: seq<string>, rs: seq<Redirection<string>>)
    requires LegalWords(args) && LegalFiles(rs) && args != []
    requires Occurs(s, i, PrintWords(args) + PrintRedirs(rs))
             && Stops(s, i + |PrintWords(args)| + |PrintRedirs(rs)|, "|)&;")
    ensures var w := args[0];
            var i2 := i + |w| + 1;
            && i2 <= |s| && GetToken(s, i) == Token(Word, i, i + |w|, i2) && Slice(s, Span(i, i + |w|)) == w
               && !Peek(s, i, "|)&;")
            && Occurs(s, i2, PrintWords(args[1..]) + PrintRedirs(rs)) && Solid(s, i2)
            && |PrintWords(args)| == |w| + 1 + |PrintWords(args[1..])|
            && (args[1..] != [] ==> i2 < |s| && s[i2] != '<' && s[i2] != '>')
            && (args[1..] == [] ==> Occurs(s, i2, PrintRedirs(rs)) && PrintWords(args[1..]) == "")
            && Solid(s, i2 + |PrintWords(args[1..])| + |PrintRedirs(rs)|)
  {
    hide PrintWords, PrintRedirs, GetToken, Peek, Occurs, LegalWord, Slice, Solid;
    var w, rest := args[0], args[1..];
    var i2 := i + |w| + 1;
    var tail := PrintWords(rest) + PrintRedirs(rs);
    FirstWordFirst(args, rs);
    assert LegalWord(w) && LegalWords(rest);
    WordsHead(rest);
    OccursParts(s, i, w + " ", tail);
    SymbolsAreSolid(s, i2 + |tail|, "|)&;");
    WordsThenRedirs(s, i2, rest, rs);
    WordScanned(s, i, w);
    WordIsNoStop(s, i, w);
  }

  lemma FirstWordFirst(args: seq<string>, rs: seq<Redirection<string>>)
    requires args != []
    ensures PrintWords(args) + PrintRedirs(rs) == (args[0] + " ") + (PrintWords(args[1..]) + PrintRedirs(rs))
    ensures |PrintWords(args)| == |args[0]| + 1 + |PrintWords(args[1..])|
  {
    var w := args[0] + " ";
    assert PrintWords(args) == w + PrintWords(args[1..]);
    hide PrintWords, PrintRedirs;
  }

  /** What comes after a word: another word, or the redirections, or the end of the command. */
  lemma WordsThenRedirs(s: string, i: nat, rest: seq<string>, rs: seq<Redirection<string>>)
    requires LegalWords(rest) && Occurs(s, i, PrintWords(rest) + PrintRedirs(rs))
             && Solid(s, i + |PrintWords(rest)| + |PrintRedirs(rs)|)
    ensures Solid(s, i) && (rest != [] ==> i < |s| && s[i] != '<' && s[i] != '>')
    ensures rest == [] ==> Occurs(s, i, PrintRedirs(rs))
  {
    hide PrintWords, PrintRedirs, Occurs;
    var tail := PrintWords(rest) + PrintRedirs(rs);
    WordsHead(rest);
    if rest != [] {
      CharAt(s, i, tail);
      assert s[i] == PrintWords(rest)[0];
    } else {
      assert tail == PrintRedirs(rs);
      RedirsSolid(s, i, rs);
    }
  }

  lemma WordIsNoStop(s: string, i: nat, w: string)
    requires LegalWord(w) && Occurs(s, i, w + " ")
    ensures i <= |s| && !Peek(s, i, "|)&;") && !Peek(s, i, "<>") && !Peek(s, i, "(")
  {
    CharAt(s, i, w + " ");
    assert WordChar(w[0]);
    assert (w + " ")[0] == w[0];
    SolidStays(s, i);
  }

  // ---- Printed pieces start with something solid --------------------------------------------------------

  predicate Headed(p: string) {
    p == "" || !White(p[0])
  }

  lemma PieceSolid(s: string, i: nat, p: string)
    requires Occurs(s, i, p) && Headed(p) && Solid(s, i + |p|)
    ensures Solid(s, i)
  {
    if p != "" {
      CharAt(s, i, p);
    }
  }

  lemma {:induction false} ExecHead(c: Command)
    requires Legal(c)
    ensures Headed(PrintExec(c))
    decreases c, if c.Exec? || c.Redir? then 0 else 4
  {
    LegalParts(c);
    RedirsHead(Around(c));
    if Core(c).Exec? {
      WordsHead(Core(c).argv);
    }
  }

  lemma {:induction false} PipeHead(c: Command)
    requires Legal(c)
    ensures Headed(PrintPipe(c))
  {
    ExecHead(if c.Pipe? then c.left else c);
  }

  lemma {:induction false} ItemHead(c: Command)
    requires Legal(c)
    ensures Headed(PrintItem(c))
  {
    if c.Back? {
      ItemHead(c.cmd);
    } else {
      PipeHead(c);
    }
  }

  lemma {:induction false} LineHead(c: Command)
    requires Legal(c)
    ensures Headed(PrintLine(c))
  {
    ItemHead(if c.List? then c.left else c);
  }

  // ---- The round trip ---------------------------------------------------------------------------------------

  /** The parser has read c, up to position j. */
  predicate Reads(s: string, r: Parsed, c: Command, j: nat) {
    r.Ok? && r.next == j && Text(s, r.tree) == c
  }

  lemma StopsMore(s: string, i: nat, few: string, many: string)
    requires Stops(s, i, few) && forall k :: 0 <= k < |few| ==> few[k] in many
    ensures Stops(s, i, many)
  {
  }

  /** At a stop character, peek finds it and nothing else. */
  lemma PeekAtStop(s: string, i: nat, chars: string, toks: string)
    requires Stops(s, i, chars) && forall k :: 0 <= k < |chars| ==> !White(chars[k])
    ensures i <= |s| && Skip(s, i) == i && (Peek(s, i, toks) <==> i < |s| && s[i] in toks)
  {
  }

  lemma SymbolStops(s: string, i: nat, c: char, chars: string)
    requires Occurs(s, i, [c]) && c in chars
    ensures Stops(s, i, chars) && i + 1 <= |s| && s[i] == c
  {
    CharAt(s, i, [c]);
  }

  /** A simple command is read by parseexec outside parentheses. */
  lemma SimpleBack(s: string, i: nat, args: seq<string>, rs: seq<Redirection<string>>)
    requires LegalWords(args) && |args| < MAXARGS && LegalFiles(rs)
    requires Occurs(s, i, PrintWords(args) + PrintRedirs(rs))
             && Stops(s, i + |PrintWords(args)| + |PrintRedirs(rs)|, "|)&;")
    ensures i <= |s| && Reads(s, ParseExec(s, i), Wrap(Exec(args), rs), i + |PrintWords(args)| + |PrintRedirs(rs)|)
  {
    hide Occurs, Text, Wrap, ParseRedirs, ParseArgs, LegalWord, Stops, Solid, Peek, GetToken, PrintRedir;
    var j := i + |PrintWords(args)| + |PrintRedirs(rs)|;
    OccursInside(s, i, PrintWords(args) + PrintRedirs(rs));
    NotABlock(s, i, args, rs);
    NoFiles(s);
    if args == [] {
      assert PrintWords(args) + PrintRedirs(rs) == PrintRedirs(rs);
      StopIsNoRedir(s, j);
      RedirsBack(s, i, rs, []);
      var r := ParseRedirs(s, i, []);
      EmptyPieces(s, j);
      ArgsBack(s, j, [], [], [], r.rs);
      assert Files(s, []) + rs == rs && Files(s, r.rs) + [] == rs && Words(s, []) + args == args;
    } else {
      NoRedirs(s, i, []);
      ArgsBack(s, i, args, rs, [], []);
      assert Files(s, []) + rs == rs && Words(s, []) + args == args;
    }
  }

  lemma NoFiles(s: string)
    ensures Files(s, []) == [] && Words(s, []) == []
  {
  }

  lemma EmptyPieces(s: string, j: nat)
    requires j <= |s|
    ensures Occurs(s, j, PrintWords([]) + PrintRedirs([])) && |PrintWords([])| == |PrintRedirs([])| == 0
  {
  }

  lemma StopIsNoRedir(s: string, j: nat)
    requires Stops(s, j, "|)&;")
    ensures Solid(s, j) && (j < |s| ==> s[j] != '<' && s[j] != '>')
  {
  }

  lemma NotABlock(s: string, i: nat, args: seq<string>, rs: seq<Redirection<string>>)
    requires LegalWords(args) && Occurs(s, i, PrintWords(args) + PrintRedirs(rs))
    requires Stops(s, i + |PrintWords(args)| + |PrintRedirs(rs)|, "|)&;")
    ensures i <= |s| && !Peek(s, i, "(")
    ensures args != [] ==> Solid(s, i) && i < |s| && s[i] != '<' && s[i] != '>'
  {
    hide PrintWords, PrintRedirs, Occurs;
    var p := PrintWords(args) + PrintRedirs(rs);
    OccursInside(s, i, p);
    WordsHead(args);
    RedirsHead(rs);
    if p != "" {
      CharAt(s, i, p);
      assert p[0] == if args != [] then PrintWords(args)[0] else PrintRedirs(rs)[0];
      SolidStays(s, i);
    } else {
      SymbolsAreSolid(s, i, "|)&;");
    }
  }

  /** A parenthesised command with redirections is read by parseblock, given that its inside is. */
  lemma BlockBack(s: string, i: nat, core: Command, rs: seq<Redirection<string>>)
    requires LegalFiles(rs) && Occurs(s, i, "(" + PrintLine(core) + ")" + PrintRedirs(rs))
    requires Stops(s, i + |PrintLine(core)| + 2 + |PrintRedirs(rs)|, "|)&;") && Headed(PrintLine(core))
    requires i + 1 <= |s| && Reads(s, ParseLine(s, i + 1), core, i + 1 + |PrintLine(core)|)
    ensures Reads(s, ParseExec(s, i), Wrap(core, rs), i + |PrintLine(core)| + 2 + |PrintRedirs(rs)|)
  {
    hide Occurs, Text, Wrap, ParseRedirs, ParseLine, ParseExec, LegalWord, Solid, Peek, GetToken, PrintRedir,
        PrintLine, Stops, Headed;
    var p := PrintLine(core);
    var k := i + 1 + |p|;
    BlockParts(s, i, p, PrintRedirs(rs));
    StopIsNoRedir(s, k + 1 + |PrintRedirs(rs)|);
    RedirsSolid(s, k + 1, rs);
    SymbolStops(s, k, ')', ")");
    SymbolsAreSolid(s, k, ")");
    PieceSolid(s, i + 1, p);
    SymbolStops(s, i, '(', "(");
    PeekAtStop(s, i, "(", "(");
    PeekAtStop(s, k, ")", ")");
    SymbolScanned(s, i, '(');
    SymbolScanned(s, k, ')');
    RedirsBack(s, k + 1, rs, []);
    NoFiles(s);
    var r := ParseRedirs(s, k + 1, []);
    assert Files(s, []) + rs == rs;
    WrapText(s, ParseLine(s, i + 1).tree, r.rs);
    BlockRead(s, i, k);
  }

  lemma BlockRead(s: string, i: nat, k: nat)
    requires i + 1 <= |s| && k + 1 <= |s| && Peek(s, i, "(") && GetToken(s, i).next == i + 1
    requires ParseLine(s, i + 1).Ok? && ParseLine(s, i + 1).next == k && Peek(s, k, ")") && GetToken(s, k).next == k + 1
    requires ParseRedirs(s, k + 1, []).ROk?
    ensures var r := ParseRedirs(s, k + 1, []);
            ParseExec(s, i) == Ok(Wrap(ParseLine(s, i + 1).tree, r.rs), r.next)
  {
    hide Peek, GetToken, ParseLine, ParseRedirs, Wrap;
    assert ParseExec(s, i) == ParseBlock(s, i);
  }

  lemma BlockParts(s: string, i: nat, p: string, q: string)
    requires Occurs(s, i, "(" + p + ")" + q)
    ensures Occurs(s, i, "(") && Occurs(s, i + 1, p) && Occurs(s, i + 1 + |p|, ")") && Occurs(s, i + 2 + |p|, q)
  {
    OccursParts(s, i, "(" + p + ")", q);
    OccursParts(s, i, "(" + p, ")");
    OccursParts(s, i, "(", p);
  }

  lemma {:induction false} ExecBack(s: string, i: nat, c: Command)
    requires Legal(c) && Occurs(s, i, PrintExec(c)) && Stops(s, i + |PrintExec(c)|, "|)&;")
    ensures i <= |s| && Reads(s, ParseExec(s, i), c, i + |PrintExec(c)|)
    decreases c, if c.Exec? || c.Redir? then 0 else 4
  {
    hide Occurs, Text, ParseExec, ParseLine, LegalWord, Stops, Headed, Reads;
    var core, rs := Core(c), Around(c);
    LegalParts(c);
    WrapAround(c);
    OccursInside(s, i, PrintExec(c));
    if core.Exec? {
      assert PrintExec(c) == PrintWords(core.argv) + PrintRedirs(rs);
      SimpleBack(s, i, core.argv, rs);
    } else {
      LineHead(core);
      assert PrintExec(c) == "(" + PrintLine(core) + ")" + PrintRedirs(rs);
      BlockParts(s, i, PrintLine(core), PrintRedirs(rs));
      var k := i + 1 + |PrintLine(core)|;
      SymbolStops(s, k, ')', ")");
      LineBack(s, i + 1, core);
      BlockBack(s, i, core, rs);
    }
  }

  lemma PipeGoesOn(s: string, i: nat, k: nat)
    requires i <= |s| && k + 1 <= |s| && ParseExec(s, i).Ok? && ParseExec(s, i).next == k
    requires Peek(s, k, "|") && GetToken(s, k).next == k + 1 && ParsePipe(s, k + 1).Ok?
    ensures ParsePipe(s, i) == Ok(Pipe(ParseExec(s, i).tree, ParsePipe(s, k + 1).tree), ParsePipe(s, k + 1).next)
  {
    hide Peek, GetToken, ParseExec;
  }

  lemma PipeEnds(s: string, i: nat, k: nat)
    requires i <= |s| && k <= |s| && ParseExec(s, i).Ok? && ParseExec(s, i).next == k && !Peek(s, k, "|")
             && Skip(s, k) == k
    ensures ParsePipe(s, i) == Ok(ParseExec(s, i).tree, k)
  {
    hide Peek, GetToken, ParseExec;
  }

  lemma {:induction false} PipeBack(s: string, i: nat, c: Command)
    requires Legal(c) && Occurs(s, i, PrintPipe(c)) && Stops(s, i + |PrintPipe(c)|, ")&;")
    ensures i <= |s| && Reads(s, ParsePipe(s, i), c, i + |PrintPipe(c)|)
    decreases c, if c.Pipe? then 0 else 5
  {
    hide Occurs, ParseExec, ParsePipe, Headed, PrintExec, Legal, Peek, GetToken, Solid, Stops;
    PipeUnfolded(c);
    var j := i + |PrintPipe(c)|;
    StopsMore(s, j, ")&;", "|)&;");
    if c.Pipe? {
      OccursParts(s, i, PrintExec(c.left) + "|", PrintPipe(c.right));
      OccursParts(s, i, PrintExec(c.left), "|");
      var k := i + |PrintExec(c.left)|;
      SymbolStops(s, k, '|', "|)&;");
      PeekAtStop(s, k, "|)&;", "|");
      ExecBack(s, i, c.left);
      PipeHead(c.right);
      SymbolsAreSolid(s, j, ")&;");
      PieceSolid(s, k + 1, PrintPipe(c.right));
      SymbolScanned(s, k, '|');
      PipeBack(s, k + 1, c.right);
      PipeGoesOn(s, i, k);
    } else {
      ExecBack(s, i, c);
      PeekAtStop(s, j, ")&;", "|");
      NotAmong(s, j, ")&;", '|');
      PipeEnds(s, i, j);
    }
  }

  lemma PipeUnfolded(c: Command)
    ensures PrintPipe(c) == if c.Pipe? then PrintExec(c.left) + "|" + PrintPipe(c.right) else PrintExec(c)
    ensures Legal(c) && c.Pipe? ==> Legal(c.left) && Legal(c.right)
  {
  }

  lemma NotAmong(s: string, j: nat, chars: string, c: char)
    requires Stops(s, j, chars) && c !in chars
    ensures j < |s| ==> s[j] != c
  {
  }

  /** Up to the last `&` of an item, parseline's loop is at the item. */
  lemma {:induction false} ItemBack(s: string, i: nat, c: Command) returns (t: Tree)
    requires Legal(c) && Occurs(s, i, PrintItem(c)) && Stops(s, i + |PrintItem(c)|, ")&;")
    ensures i + |PrintItem(c)| <= |s| && ParsePipe(s, i).Ok? && Text(s, t) == c
    ensures ParseBacks(s, ParsePipe(s, i).next, ParsePipe(s, i).tree) == ParseBacks(s, i + |PrintItem(c)|, t)
    decreases c, if c.Pipe? then 1 else if c.Back? then 0 else 6
  {
    hide Occurs, ParsePipe, Headed, PrintPipe, Peek, GetToken, Solid, Stops;
    var j := i + |PrintItem(c)|;
    OccursInside(s, i, PrintItem(c));
    if c.Back? {
      OccursParts(s, i, PrintItem(c.cmd), "&");
      SymbolStops(s, j - 1, '&', ")&;");
      var d := ItemBack(s, i, c.cmd);
      PeekAtStop(s, j - 1, ")&;", "&");
      SymbolsAreSolid(s, j, ")&;");
      SymbolScanned(s, j - 1, '&');
      t := Back(d);
    } else {
      PipeBack(s, i, c);
      t := ParsePipe(s, i).tree;
    }
  }

  lemma LineGoesOn(s: string, i: nat, t: Tree, k: nat)
    requires i <= |s| && k + 1 <= |s| && ParsePipe(s, i).Ok?
             && ParseBacks(s, ParsePipe(s, i).next, ParsePipe(s, i).tree) == ParseBacks(s, k, t)
    requires !Peek(s, k, "&") && Peek(s, k, ";") && Skip(s, k) == k && GetToken(s, k).next == k + 1
             && ParseLine(s, k + 1).Ok?
    ensures ParseLine(s, i) == Ok(List(t, ParseLine(s, k + 1).tree), ParseLine(s, k + 1).next)
  {
    hide Peek, GetToken, ParsePipe;
    assert ParseBacks(s, k, t) == Ok(t, k);
  }

  lemma LineEnds(s: string, i: nat, t: Tree, k: nat)
    requires i <= |s| && k <= |s| && ParsePipe(s, i).Ok?
             && ParseBacks(s, ParsePipe(s, i).next, ParsePipe(s, i).tree) == ParseBacks(s, k, t)
    requires !Peek(s, k, "&") && !Peek(s, k, ";") && Skip(s, k) == k
    ensures ParseLine(s, i) == Ok(t, k)
  {
    hide Peek, GetToken, ParsePipe;
    assert ParseBacks(s, k, t) == Ok(t, k);
  }

  lemma {:induction false} LineBack(s: string, i: nat, c: Command)
    requires Legal(c) && Occurs(s, i, PrintLine(c)) && Stops(s, i + |PrintLine(c)|, ")")
    ensures i <= |s| && Reads(s, ParseLine(s, i), c, i + |PrintLine(c)|)
    decreases c, if c.List? then 0 else if c.Back? || c.Pipe? then 3 else 7
  {
    hide Occurs, ParsePipe, ParseLine, ParseBacks, Headed, PrintItem, Legal, Peek, GetToken, Solid, Stops;
    LineUnfolded(c);
    var j := i + |PrintLine(c)|;
    StopsMore(s, j, ")", ")&;");
    OccursInside(s, i, PrintLine(c));
    if c.List? {
      OccursParts(s, i, PrintItem(c.left) + ";", PrintLine(c.right));
      OccursParts(s, i, PrintItem(c.left), ";");
      var k := i + |PrintItem(c.left)|;
      SymbolStops(s, k, ';', ")&;");
      PeekAtStop(s, k, ")&;", ";");
      PeekAtStop(s, k, ")&;", "&");
      var t := ItemBack(s, i, c.left);
      LineHead(c.right);
      SymbolsAreSolid(s, j, ")");
      PieceSolid(s, k + 1, PrintLine(c.right));
      SymbolScanned(s, k, ';');
      LineBack(s, k + 1, c.right);
      LineGoesOn(s, i, t, k);
    } else {
      var t := ItemBack(s, i, c);
      PeekAtStop(s, j, ")", "&");
      PeekAtStop(s, j, ")", ";");
      NotAmong(s, j, ")", '&');
      NotAmong(s, j, ")", ';');
      LineEnds(s, i, t, j);
    }
  }

  lemma LineUnfolded(c: Command)
    ensures PrintLine(c) == if c.List? then PrintItem(c.left) + ";" + PrintLine(c.right) else PrintItem(c)
    ensures Legal(c) && c.List? ==> Legal(c.left) && Legal(c.right)
  {
  }

  // ---- Printed lines are C strings -------------------------------------------------------------------------

  lemma {:induction false} WordsHaveNoNul(l: seq<string>)
    requires LegalWords(l)
    ensures NUL !in PrintWords(l)
  {
    if l != [] {
      assert LegalWord(l[0]) && forall k: nat :: k < |l[1..]| ==> l[1..][k] == l[k + 1];
      WordsHaveNoNul(l[1..]);
    }
  }

  lemma {:induction false} RedirsHaveNoNul(rs: seq<Redirection<string>>)
    requires LegalFiles(rs)
    ensures NUL !in PrintRedirs(rs)
  {
    if rs != [] {
      assert LegalWord(rs[0].file) && forall k: nat :: k < |rs[1..]| ==> rs[1..][k] == rs[k + 1];
      RedirsHaveNoNul(rs[1..]);
    }
  }

  lemma {:induction false} ExecHasNoNul(c: Command)
    requires Legal(c)
    ensures NUL !in PrintExec(c)
    decreases c, if c.Exec? || c.Redir? then 0 else 4
  {
    LegalParts(c);
    RedirsHaveNoNul(Around(c));
    if Core(c).Exec? {
      WordsHaveNoNul(Core(c).argv);
    } else {
      LineHasNoNul(Core(c));
    }
  }

  lemma {:induction false} PipeHasNoNul(c: Command)
    requires Legal(c)
    ensures NUL !in PrintPipe(c)
    decreases c, if c.Pipe? then 0 else 5
  {
    if c.Pipe? {
      ExecHasNoNul(c.left);
      PipeHasNoNul(c.right);
    } else {
      ExecHasNoNul(c);
    }
  }

  lemma {:induction false} ItemHasNoNul(c: Command)
    requires Legal(c)
    ensures NUL !in PrintItem(c)
    decreases c, if c.Pipe? then 1 else if c.Back? then 0 else 6
  {
    if c.Back? {
      ItemHasNoNul(c.cmd);
    } else {
      PipeHasNoNul(c);
    }
  }

  lemma {:induction false} LineHasNoNul(c: Command)
    requires Legal(c)
    ensures NUL !in PrintLine(c)
    decreases c, if c.List? then 0 else if c.Back? || c.Pipe? then 3 else 7
  {
    if c.List? {
      ItemHasNoNul(c.left);
      LineHasNoNul(c.right);
    } else {
      ItemHasNoNul(c);
    }
  }

  /** parsecmd inverts printing: every command one can type, printed, parses back to itself. */
  lemma ParseInvertsPrint(c: Command)
    requires Legal(c)
    ensures NUL !in PrintLine(c)
    ensures ParseCmd(PrintLine(c)).Ok? && Text(PrintLine(c), ParseCmd(PrintLine(c)).tree) == c
  {
    LineHasNoNul(c);
    var s := PrintLine(c);
    assert Occurs(s, 0, s);
    LineBack(s, 0, c);
    assert Skip(s, |s|) == |s|;
  }

  // ---- The parser yields nothing else ------------------------------------------------------------------------

  lemma {:induction false} SpelledIsLegal(s: string, t: Tree)
    requires Spelled(s, t) && NUL !in s
    ensures Legal(Text(s, t))
  {
    match t
    case Exec(argv) =>
      forall k: nat | k < |argv|
        ensures LegalWord(Words(s, argv)[k])
      {
        assert IsWord(s, argv[k].q, argv[k].eq);
      }
    case Redir(c, f, _) => SpelledIsLegal(s, c);
    case Pipe(l, r) => SpelledIsLegal(s, l); SpelledIsLegal(s, r);
    case List(l, r) => SpelledIsLegal(s, l); SpelledIsLegal(s, r);
    case Back(c) => SpelledIsLegal(s, c);
  }

  /** Every line that parses is a spelling of its command: printed afresh, it parses to the same command. */
  lemma PrintKeepsMeaning(s: string)
    requires NUL !in s && ParseCmd(s).Ok?
    ensures var c := Text(s, ParseCmd(s).tree);
            Legal(c) && ParseCmd(PrintLine(c)).Ok? && Text(PrintLine(c), ParseCmd(PrintLine(c)).tree) == c
  {
    LineSpelled(s, 0);
    SpelledIsLegal(s, ParseCmd(s).tree);
    ParseInvertsPrint(Text(s, ParseCmd(s).tree));
  }
}
