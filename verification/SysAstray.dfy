/**
 A run of one process that ends in a panic: its directory is unlinked, then the directory above it, and
 then ".." leads to an inode that is free.
 */
module SysAstray {
  import opened Bytes
  import opened Options
  import opened FsPath
  import opened FsLinks
  import opened SysRefs
  import opened Sysfile
  import opened SysCalls
  import opened SysPaths
  import opened SysLinks

  const A: Elem := [97]
  const B: Elem := [98]
  const PATHAB: seq<Byte> := [97, SLASH, 98]
  const ABSA: seq<Byte> := [SLASH, 97]
  const ABSAB: seq<Byte> := [SLASH, 97, SLASH, 98]

  // ---- The trees of the run ---------------------------------------------------------------------------------

  function Dir(i: nat, up: nat, nlink: int): Node {
    Node(TDir, nlink, map[DOT := i][DOTDOT := up])
  }

  function With(n: Node, name: Elem, i: nat): Node {
    n.(entries := n.entries[name := i])
  }

  /** The root alone, as mkfs makes it. */
  function T0(): Tree {
    map[1 := Dir(1, 1, 1)]
  }

  /** After mkdir a. */
  function T1(): Tree {
    map[1 := With(Dir(1, 1, 2), A, 2)][2 := Dir(2, 1, 1)]
  }

  /** After mkdir a/b. */
  function T2(): Tree {
    map[1 := With(Dir(1, 1, 2), A, 2)][2 := With(Dir(2, 1, 2), B, 3)][3 := Dir(3, 2, 1)]
  }

  /** After unlink /a/b, with a/b the working directory. */
  function T3(): Tree {
    map[1 := With(Dir(1, 1, 2), A, 2)][2 := Dir(2, 1, 1)][3 := Dir(3, 2, 0)]
  }

  /** After unlink /a. */
  function T4(): Tree {
    map[1 := Dir(1, 1, 1)][3 := Dir(3, 2, 0)]
  }

  /** All was well until /a was unlinked. */
  lemma WellUntilThen()
    ensures Healthy(T0()) && !Sound(T4()) && MayUnlink(T3(), 1, A) && LeavesAstray(T3(), 1, A, T4())
  {
    assert Names(T0(), 1) == {} && Subs(T0(), 1) == {};
    assert IsEntry(T4(), 3, DOTDOT) && !SoundAt(T4(), 3, DOTDOT);
    SecondUnlink();
    assert Up(T4(), 3) == Some(2);
  }

  lemma SoundFirst()
    ensures Sound(T0()) && Sound(T1())
  {
  }

  lemma SoundSecond()
    ensures Sound(T2())
  {
  }

  lemma SoundThird()
    ensures Sound(T3())
  {
  }

  lemma Erased(n: Node, name: Elem, i: nat)
    requires name !in n.entries
    ensures With(n, name, i).entries - {name} == n.entries
  {
  }

  /** What has links, or is there, has stayed. */
  lemma NothingGone(t: Tree, u: Tree)
    requires Shrunk(t, u) && forall i <- t :: t[i].nlink != 0 || i in u
    ensures u == t
  {
  }

  // ---- The paths of the run ---------------------------------------------------------------------------------

  lemma OnChar(c: Byte, p: seq<Byte>)
    requires c != SLASH
    ensures Pieces([c] + p) == [[c] + Pieces(p)[0]] + Pieces(p)[1..]
  {
    assert ([c] + p)[1..] == p;
  }

  lemma OnSlash(p: seq<Byte>)
    ensures Pieces([SLASH] + p) == [[]] + Pieces(p)
  {
    assert ([SLASH] + p)[1..] == p;
  }

  lemma OnPiece(e: Elem, l: seq<Elem>)
    requires 0 < |e| < DIRSIZ
    ensures FsPath.Kept([e] + l) == [e] + FsPath.Kept(l) && FsPath.Kept([[]] + l) == FsPath.Kept(l)
  {
    assert ([e] + l)[1..] == l;
    var none: seq<Elem> := [[]];
    assert (none + l)[1..] == l;
  }

  lemma UpElements()
    ensures Elements(DOTDOT) == [DOTDOT]
  {
    OnChar(46, []);
    OnChar(46, [46]);
    assert [46] + [46] == DOTDOT;
    assert [46] + [] == [46];
    assert Pieces([46]) == [[46]] && Pieces(DOTDOT) == [DOTDOT];
    OnPiece(DOTDOT, []);
    assert [DOTDOT] + [] == [DOTDOT];
  }

  lemma PathPieces()
    ensures Pieces(A) == [A] && Pieces(ABSA) == [[], A] && Pieces(PATHAB) == [A, B] && Pieces(ABSAB) == [[], A, B]
  {
    OnChar(97, []);
    assert [97] + [] == A && Pieces(A) == [A];
    OnSlash(A);
    assert [SLASH] + A == ABSA && Pieces(ABSA) == [[], A];
    OnChar(98, []);
    assert [98] + [] == B && Pieces(B) == [B];
    OnSlash(B);
    OnChar(97, [SLASH] + B);
    assert [97] + ([SLASH] + B) == PATHAB;
    OnSlash(PATHAB);
    assert [SLASH] + PATHAB == ABSAB;
  }

  lemma PathElements()
    ensures Elements(A) == [A] && Elements(ABSA) == [A] && Elements(PATHAB) == [A, B] && Elements(ABSAB) == [A, B]
  {
    PathPieces();
    OnPiece(B, []);
    OnPiece(A, [B]);
    OnPiece(A, [A, B]);
    OnPiece(A, []);
    OnPiece(A, [A]);
    assert [A] + [] == [A] && [B] + [] == [B] && [A] + [B] == [A, B];
    var none: seq<Elem> := [[]];
    assert none + [A] == [[], A] && none + [A, B] == [[], A, B];
  }

  /** Walking to the second of two elements, or to the directory it is in. */
  lemma TwoSteps(t: Tree, i: nat)
    requires IsDir(t, i) && A in t[i].entries && IsDir(t, t[i].entries[A])
    ensures WalkParent(t, i, [A, B]) == Some(t[i].entries[A])
    ensures B in t[t[i].entries[A]].entries ==> Walk(t, i, [A, B]) == Some(t[t[i].entries[A]].entries[B])
  {
    var d := t[i].entries[A];
    WalkOne(t, i, [A, B]);
    assert [A, B][1..] == [B];
    WalkOne(t, d, [B]);
    assert [B][1..] == [];
    if B in t[d].entries {
      WalkNone(t, t[d].entries[B]);
    }
  }

  lemma OneStep(t: Tree, i: nat, e: Elem)
    requires IsDir(t, i)
    ensures WalkParent(t, i, [e]) == Some(i)
    ensures e in t[i].entries ==> Walk(t, i, [e]) == Some(t[i].entries[e])
  {
    WalkOne(t, i, [e]);
    assert [e][1..] == [];
    if e in t[i].entries {
      WalkNone(t, t[i].entries[e]);
    }
  }

  // ---- The calls --------------------------------------------------------------------------------------------

  /** The process is the only one, and between calls. */
  ghost predicate Ready(s: Sys, t: Tree, here: nat)
    reads s
  {
    s.Idle() && s.Alone() && s.Locks() == {} && 0 <= s.cwd < NINODE && |s.icache| == NINODE && s.tree == t
    && s.Here() == here
  }

  lemma Lowest(t: Tree, d: nat, name: Elem, inum: nat, n: nat, u: Tree)
    requires CreateResult(t, d, name, TDir, inum, u) && name !in t[d].entries
    requires n !in t && forall k: nat :: 1 <= k < n ==> k in t && t[k].nlink != 0
    ensures n >= 1 ==> inum == n && Shrunk(Created(t, d, name, n, TDir), u)
  {
  }

  /** mkdir of a name that is not there. */
  method Mkdir(s: Sys, path: seq<Byte>, t: Tree, d: nat, n: nat)
    requires Ready(s, t, 1) && Sound(t) && 1 <= n < 200 && n !in t && IsDir(t, d)
    requires forall k: nat :: 1 <= k < n ==> k in t && t[k].nlink != 0
    requires Resolved(t, Start(path, 1), path, true) == Some(d) && LastElement(path) !in t[d].entries
    requires forall i <- t :: t[i].nlink >= 1
    modifies s`icache, s`mine, s`tree, s`myLocks
    ensures Ready(s, Created(t, d, LastElement(path), n, TDir), 1)
  {
    hide KeepersOk, FilesCounted, InodesCounted, CacheOk, LocksOk, HereOk, Sound, Resolved, LastElement, Created,
        CreateResult, Shrunk, Sys.Inv, Links, Healthy;
    s.AloneIsRoom();
    var end, r := SysMknod(s, path, TDir, 200);
    assert end == Returns;
    assert r == 0;
    ghost var inum :| CreateResult(t, d, LastElement(path), TDir, inum, s.tree);
    Lowest(t, d, LastElement(path), inum, n, s.tree);
    AllLinked(t, d, LastElement(path), n);
    NothingGone(Created(t, d, LastElement(path), n, TDir), s.tree);
    s.HereIs();
  }

  lemma AllLinked(t: Tree, d: nat, name: Elem, n: nat)
    requires forall i <- t :: t[i].nlink >= 1
    ensures forall i <- Created(t, d, name, n, TDir) :: Created(t, d, name, n, TDir)[i].nlink != 0
  {
  }

  lemma FirstMkdir()
    ensures Resolved(T0(), 1, A, true) == Some(1) && LastElement(A) == A && !Absolute(A) && Sound(T0())
    ensures Created(T0(), 1, A, 2, TDir) == T1()
  {
    PathElements();
    OneStep(T0(), 1, A);
    SoundFirst();
  }

  lemma SecondMkdir()
    ensures Resolved(T1(), 1, PATHAB, true) == Some(2) && LastElement(PATHAB) == B && !Absolute(PATHAB) && Sound(T1())
    ensures Created(T1(), 2, B, 3, TDir) == T2()
  {
    PathElements();
    TwoSteps(T1(), 1);
    SoundFirst();
  }

  lemma Chdir()
    ensures Resolved(T2(), 1, PATHAB, false) == Some(3) && IsDir(T2(), 3) && !Absolute(PATHAB) && Sound(T2())
    ensures forall i <- T2() :: T2()[i].nlink != 0
  {
    PathElements();
    TwoSteps(T2(), 1);
    SoundSecond();
  }

  lemma FirstUnlink()
    ensures Resolved(T2(), 1, ABSAB, true) == Some(2) && LastElement(ABSAB) == B && Absolute(ABSAB) && Sound(T2())
    ensures MayUnlink(T2(), 2, B) && Unlinked(T2(), 2, B) == T3() && !SelfNamed(T2(), Some(2), B)
    ensures forall i <- T3() :: T3()[i].nlink != 0 || i == 3
  {
    PathElements();
    TwoSteps(T2(), 1);
    SoundSecond();
    Erased(Dir(2, 1, 2), B, 3);
    assert Unlinked(T2(), 2, B) == T2()[2 := Dir(2, 1, 1)][3 := Dir(3, 2, 0)];
  }

  lemma SecondUnlink()
    ensures Resolved(T3(), 1, ABSA, true) == Some(1) && LastElement(ABSA) == A && Absolute(ABSA) && Sound(T3())
    ensures MayUnlink(T3(), 1, A) && Target(T3(), 1, A) == 2 && !SelfNamed(T3(), Some(1), A)
    ensures T3()[2].nlink == 1 && Unlinked(T3(), 1, A) == T4()[2 := Dir(2, 1, 0)]
    ensures 2 !in T4() && forall i <- T4() :: T4()[i].nlink != 0 || i == 3
  {
    PathElements();
    OneStep(T3(), 1, A);
    SoundThird();
    Erased(Dir(1, 1, 2), A, 2);
    assert Unlinked(T3(), 1, A) == T3()[1 := Dir(1, 1, 1)][2 := Dir(2, 1, 0)];
  }

  lemma OpenUp()
    ensures Resolved(T4(), 3, DOTDOT, false) == Some(2) && !Absolute(DOTDOT) && 2 !in T4()
  {
    UpElements();
    OneStep(T4(), 3, DOTDOT);
  }

  lemma BeginsWith()
    ensures ROOTINO in T0() && (forall i <- T0() :: T0()[i].nlink >= 1) && IsDir(T0(), 1) && A !in T0()[1].entries
    ensures (forall i <- T1() :: T1()[i].nlink >= 1) && IsDir(T1(), 2) && B !in T1()[2].entries
    ensures T0().Keys == {1} && T1().Keys == {1, 2}
  {
  }

  /** `mkdir a; mkdir a/b; chdir a/b`, from a root alone. */
  method Begin() returns (s: Sys)
    ensures fresh(s) && Ready(s, T2(), 3)
  {
    BeginsWith();
    FirstMkdir();
    SecondMkdir();
    hide T0, T1, T2, Created;
    hide KeepersOk, FilesCounted, InodesCounted, CacheOk, LocksOk, HereOk, Sound, Sys.Inv, Links, Healthy, Resolved,
        LastElement, Shrunk;
    s := Boot(T0());
    NothingGone(T0(), s.tree);
    Mkdir(s, A, T0(), 1, 2);
    Mkdir(s, PATHAB, T1(), 2, 3);
    EnterAB(s);
  }

  method EnterAB(s: Sys)
    requires Ready(s, T2(), 1)
    modifies s`icache, s`mine, s`tree, s`myLocks, s`cwd, s`named
    ensures Ready(s, T2(), 3)
  {
    Chdir();
    hide T2;
    hide KeepersOk, FilesCounted, InodesCounted, CacheOk, LocksOk, HereOk, Sound, Sys.Inv, Links, Healthy, Resolved,
        Shrunk;
    s.AloneIsRoom();
    var end, r := SysChdir(s, PATHAB);
    assert end == Returns && r == 0;
    NothingGone(T2(), s.tree);
  }

  /** `unlink /a/b` keeps the inode, for it is the working directory. */
  method UnlinkHere(s: Sys)
    requires Ready(s, T2(), 3)
    modifies s`icache, s`mine, s`tree, s`myLocks
    ensures Ready(s, T3(), 3)
  {
    FirstUnlink();
    hide T2, T3, Unlinked, MayUnlink;
    hide KeepersOk, FilesCounted, InodesCounted, CacheOk, LocksOk, HereOk, Sound, Sys.Inv, Links, Healthy, Resolved,
        LastElement, Shrunk, TargetGoes, LeavesAstray;
    s.AloneIsRoom();
    var end, r := SysUnlink(s, ABSAB);
    assert end == Returns && r == 0;
    s.HereIs();
    NothingGone(T3(), s.tree);
  }

  /** `unlink /a` frees the inode above it. */
  method UnlinkAbove(s: Sys)
    requires Ready(s, T3(), 3)
    modifies s`icache, s`mine, s`tree, s`myLocks
    ensures Ready(s, T4(), 3)
  {
    SecondUnlink();
    hide T3, T4, Unlinked, MayUnlink;
    hide KeepersOk, FilesCounted, InodesCounted, CacheOk, LocksOk, HereOk, Sound, Sys.Inv, Links, Healthy, Resolved,
        LastElement, Shrunk, LeavesAstray, Sys.Kept;
    s.AloneIsRoom();
    OnlyHere(s, T3(), 3);
    var end, r := SysUnlink(s, ABSA);
    assert end == Returns && r == 0;
    s.HereIs();
    assert 2 !in s.tree;
    OneGone(T4(), 2, Dir(2, 1, 0), s.tree);
  }

  lemma OneGone(t: Tree, i: nat, n: Node, u: Tree)
    requires i !in t && Shrunk(t[i := n], u) && i !in u && forall j <- t :: t[j].nlink != 0 || j in u
    ensures u == t
  {
  }

  lemma OnlyHere(s: Sys, t: Tree, here: nat)
    requires Ready(s, t, here)
    ensures s.Kept() == {here}
  {
    s.HereIs();
    assert s.named[s.cwd] in s.Kept();
  }

  /** One process alone, an empty root to begin with, slots and inodes in plenty: `open("..")` panics. */
  method DotDotPanics() returns (end: End)
    ensures end == Panics
  {
    var s := Begin();
    UnlinkHere(s);
    UnlinkAbove(s);
    OpenUp();
    hide T4, Resolved;
    hide KeepersOk, FilesCounted, InodesCounted, CacheOk, LocksOk, HereOk, Sound, Sys.Inv, Links, Healthy, Shrunk,
        Opens, Opened, OpenOn;
    var fd;
    end, fd := SysOpen(s, DOTDOT, Flags(false, false, false, false), 200);
  }
}
