/**
 Path names of fs.c: skipelem, and the walk that namex makes, over directories seen as maps.
 */
module FsPath {
  import opened Bytes
  import opened Options

  const SLASH: Byte := 47

  /** A path element: the C string in a name buffer, at most DIRSIZ bytes. */
  type Elem = seq<Byte>

  datatype Skip = NoElem | Found(rest: seq<Byte>, name: Elem)

  // ---- Splitting, by definition --------------------------------------------------------------------------

  /** The pieces between slashes, empty ones included. */
  function Pieces(p: seq<Byte>): (r: seq<seq<Byte>>)
    ensures |r| >= 1
  {
    if p == [] then [[]]
    else if p[0] == SLASH then [[]] + Pieces(p[1..])
    else var r := Pieces(p[1..]); [[p[0]] + r[0]] + r[1..]
  }

  function Truncated(s: seq<Byte>): Elem {
    if |s| >= DIRSIZ then s[..DIRSIZ] else s
  }

  /** The non-empty pieces, each cut to DIRSIZ bytes. */
  function Kept(pieces: seq<seq<Byte>>): seq<Elem> {
    if pieces == [] then []
    else (if pieces[0] == [] then [] else [Truncated(pieces[0])]) + Kept(pieces[1..])
  }

  function Elements(p: seq<Byte>): seq<Elem> {
    Kept(Pieces(p))
  }

  // ---- skipelem --------------------------------------------------------------------------------------------

  function SkipSlashes(p: seq<Byte>): (r: seq<Byte>)
    ensures r == [] || r[0] != SLASH
    ensures |r| <= |p|
  {
    if p != [] && p[0] == SLASH then SkipSlashes(p[1..]) else p
  }

  function ElemLen(p: seq<Byte>): (n: nat)
    ensures n <= |p| && (n < |p| ==> p[n] == SLASH) && SLASH !in p[..n]
  {
    if p != [] && p[0] != SLASH then
      assert p[..1 + ElemLen(p[1..])] == [p[0]] + p[1..][..ElemLen(p[1..])];
      1 + ElemLen(p[1..])
    else 0
  }

  function SkipElem(p: seq<Byte>): (r: Skip)
    ensures r.Found? ==> |r.rest| < |p|
  {
    var s := SkipSlashes(p);
    if s == [] then NoElem
    else Found(SkipSlashes(s[ElemLen(s)..]), Truncated(s[..ElemLen(s)]))
  }

  method Skipelem(path0: seq<Byte>) returns (r: Skip)
    ensures r == SkipElem(path0)
  {
    var path := path0;
    while path != [] && path[0] == SLASH
      invariant SkipSlashes(path) == SkipSlashes(path0)
      decreases |path|
    {
      path := path[1..];
    }
    if path == [] {
      return NoElem;
    }
    var s := path;
    var len := 0;
    while path != [] && path[0] != SLASH
      invariant len <= |s| && path == s[len..] && len + ElemLen(path) == ElemLen(s)
      decreases |path|
    {
      path := path[1..];
      len := len + 1;
    }
    var name := if len >= DIRSIZ then s[..DIRSIZ] else s[..len];
    assert s[..len][..if len >= DIRSIZ then DIRSIZ else len] == name;
    ghost var after := path;
    while path != [] && path[0] == SLASH
      invariant SkipSlashes(path) == SkipSlashes(after)
      decreases |path|
    {
      path := path[1..];
    }
    return Found(path, name);
  }

  lemma {:induction false} SlashesAddNothing(p: seq<Byte>)
    ensures Elements(SkipSlashes(p)) == Elements(p)
  {
    if p != [] && p[0] == SLASH {
      SlashesAddNothing(p[1..]);
      assert Pieces(p)[1..] == Pieces(p[1..]);
    }
  }

  /** The first piece of a path that starts with an element, and the pieces of the rest. */
  lemma {:induction false} FirstPiece(p: seq<Byte>)
    ensures Pieces(p)[0] == p[..ElemLen(p)]
    ensures Kept(Pieces(p)[1..]) == Elements(p[ElemLen(p)..])
  {
    var n := ElemLen(p);
    if p == [] {
    } else if p[0] == SLASH {
      assert p[n..] == p;
    } else {
      FirstPiece(p[1..]);
      assert p[..n] == [p[0]] + p[1..][..n - 1];
      assert p[n..] == p[1..][n - 1..];
    }
  }

  /** skipelem takes the first element and leaves the others. */
  lemma SkipelemIsHead(p: seq<Byte>)
    ensures SkipElem(p) == NoElem <==> Elements(p) == []
    ensures SkipElem(p).Found? ==> Elements(p) == [SkipElem(p).name] + Elements(SkipElem(p).rest)
    ensures SkipElem(p).Found? ==> (SkipElem(p).rest == [] <==> |Elements(p)| == 1)
  {
    var s := SkipSlashes(p);
    SlashesAddNothing(p);
    if s != [] {
      FirstPiece(s);
      SlashesAddNothing(s[ElemLen(s)..]);
      var rest := SkipSlashes(s[ElemLen(s)..]);
      if rest != [] {
        FirstPiece(rest);
      }
    }
  }

  // ---- Directories as maps, and the walk -----------------------------------------------------------------

  datatype Type = TDir | TFile | TDev

  /** An allocated inode; entries is empty unless it is a directory. */
  datatype Node = Node(typ: Type, nlink: int, entries: map<Elem, nat>)

  /** Free inodes, whose type field is 0, are not in the map. */
  type Tree = map<nat, Node>

  predicate IsDir(t: Tree, i: nat) {
    i in t && t[i].typ == TDir
  }

  /** Looking the elements up one after the other. */
  function Walk(t: Tree, i: nat, elems: seq<Elem>): Option<nat>
    decreases |elems|
  {
    if elems == [] then Some(i)
    else if !IsDir(t, i) || elems[0] !in t[i].entries then None
    else Walk(t, t[i].entries[elems[0]], elems[1..])
  }

  /** The directory of the last element. */
  function WalkParent(t: Tree, i: nat, elems: seq<Elem>): Option<nat> {
    if elems == [] then None
    else
      var r := Walk(t, i, elems[..|elems| - 1]);
      if r.Some? && IsDir(t, r.value) then r else None
  }

  lemma {:induction false} ParentStep(t: Tree, i: nat, elems: seq<Elem>)
    requires |elems| > 1
    ensures WalkParent(t, i, elems) ==
            if IsDir(t, i) && elems[0] in t[i].entries then WalkParent(t, t[i].entries[elems[0]], elems[1..]) else None
  {
    var init := elems[..|elems| - 1];
    assert init[0] == elems[0] && init[1..] == elems[1..][..|elems| - 2];
  }

  /** Inodes without links may be gone; all others are there, and unchanged. */
  ghost predicate Shrunk(t: Tree, u: Tree) {
    && (forall i <- u :: i in t && u[i] == t[i])
    && forall i <- t :: i !in u ==> t[i].nlink == 0
  }

  lemma ShrunkSelf(t: Tree)
    ensures Shrunk(t, t)
  {
  }

  const ROOTINO := 1

  /** A name other than "." and "..". */
  predicate Proper(name: Elem) {
    name != DOT && name != DOTDOT
  }

  /**
   The root is there, and every entry names an inode that is there and counts a link. The "." of a
   directory without links is all right.
   */
  ghost predicate Sound(t: Tree) {
    ROOTINO in t && t[ROOTINO].nlink >= 1 && forall d, name :: IsEntry(t, d, name) ==> SoundAt(t, d, name)
  }

  predicate IsEntry(t: Tree, d: nat, name: Elem) {
    d in t && name in t[d].entries
  }

  predicate SoundAt(t: Tree, d: nat, name: Elem)
    requires IsEntry(t, d, name)
  {
    var i := t[d].entries[name];
    i in t && (t[i].nlink >= 1 || (name == DOT && i == d))
  }

  lemma SoundShrunk(t: Tree, u: Tree)
    requires Sound(t) && Shrunk(t, u)
    ensures Sound(u)
  {
    forall d, name | IsEntry(u, d, name)
      ensures SoundAt(u, d, name)
    {
      assert IsEntry(t, d, name) && SoundAt(t, d, name);
    }
  }
}
