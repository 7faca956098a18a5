/**
 What the system calls do to the tree of inodes, and the link counts that it has to keep: every name but
 "." and every subdirectory's ".." is a link.
 */
module FsLinks {
  import opened Bytes
  import opened Options
  import opened Counting
  import opened FsPath

  // ---- What the calls do ------------------------------------------------------------------------------------

  /** A name entered into a directory. */
  function Entered(t: Tree, d: nat, name: Elem, inum: nat): Tree {
    if d in t then t[d := t[d].(entries := t[d].entries[name := inum])] else t
  }

  function FirstEntries(typ: Type, inum: nat, d: nat): map<Elem, nat> {
    if typ == TDir then map[DOT := inum][DOTDOT := d] else map[]
  }

  /** What create makes of the tree: the new inode, its first entries, and its name in directory d. */
  function Created(t: Tree, d: nat, name: Elem, inum: nat, typ: Type): Tree {
    var u := t[inum := Node(typ, 1, FirstEntries(typ, inum, d))];
    if d in u then
      u[d := Node(u[d].typ, u[d].nlink + (if typ == TDir then 1 else 0), u[d].entries[name := inum])]
    else u
  }

  /** One link more, or less, counted at inode i. */
  function Relinked(t: Tree, i: nat, d: int): Tree {
    if i in t then t[i := t[i].(nlink := t[i].nlink + d)] else t
  }

  /** isdirempty: no entries but "." and "..". */
  predicate Bare(n: Node) {
    n.entries.Keys <= {DOT, DOTDOT}
  }

  /** The tree after unlinking the name from directory d. */
  function Unlinked(t: Tree, d: nat, name: Elem): Tree {
    if IsDir(t, d) && name in t[d].entries then
      var i := t[d].entries[name];
      var n := t[d].nlink - (if IsDir(t, i) then 1 else 0);
      var u := t[d := Node(TDir, n, t[d].entries - {name})];
      if i in u then u[i := u[i].(nlink := u[i].nlink - 1)] else u
    else t
  }

  predicate MayUnlink(t: Tree, d: nat, name: Elem) {
    && IsDir(t, d) && Proper(name) && name in t[d].entries && t[d].entries[name] in t
    && (IsDir(t, t[d].entries[name]) ==> Bare(t[t[d].entries[name]]))
  }

  /** The inode under a name that may be unlinked. */
  function Target(t: Tree, d: nat, name: Elem): nat
    requires MayUnlink(t, d, name)
  {
    t[d].entries[name]
  }

  // ---- Link counts ------------------------------------------------------------------------------------------

  /** The entries that name inode i, "." and ".." aside. */
  ghost function Names(t: Tree, i: nat): set<(nat, Elem)> {
    set d <- t, n <- t[d].entries | Proper(n) && t[d].entries[n] == i :: (d, n)
  }

  /** The names that inode i has for directories. */
  ghost function Subs(t: Tree, i: nat): set<Elem> {
    if i in t then set n <- t[i].entries | Proper(n) && IsDir(t, t[i].entries[n]) else {}
  }

  /** A directory has "." and "..", any other inode has no entries. */
  predicate Dotted(t: Tree, i: nat)
    requires i in t
  {
    if t[i].typ == TDir then DOT in t[i].entries && DOTDOT in t[i].entries && t[i].entries[DOT] == i
    else t[i].entries == map[]
  }

  /** The inode that ".." leads to. */
  function Up(t: Tree, i: nat): Option<nat> {
    if i in t && DOTDOT in t[i].entries then Some(t[i].entries[DOTDOT]) else None
  }

  predicate IsName(t: Tree, d: nat, n: Elem) {
    IsEntry(t, d, n) && Proper(n)
  }

  /** A name leads to an inode on disk, and from a directory so named ".." leads back. */
  predicate NamedOk(t: Tree, d: nat, n: Elem)
    requires IsName(t, d, n)
  {
    var i := t[d].entries[n];
    i in t && (IsDir(t, i) ==> Up(t, i) == Some(d))
  }

  /** The inode counts at least the links it has. */
  ghost predicate Covered(t: Tree, i: nat)
    requires i in t
  {
    t[i].nlink >= |Names(t, i)| + |Subs(t, i)| + (if i == ROOTINO then 1 else 0)
  }

  ghost predicate Shaped(t: Tree) {
    && IsDir(t, ROOTINO) && (forall i: nat {:trigger Dotted(t, i)} :: i in t ==> Dotted(t, i))
    && forall d, n {:trigger NamedOk(t, d, n)} :: IsName(t, d, n) ==> NamedOk(t, d, n)
  }

  /** What every system call keeps. */
  ghost predicate Links(t: Tree) {
    Shaped(t) && forall i: nat {:trigger Covered(t, i)} :: i in t ==> Covered(t, i)
  }

  lemma HasName(t: Tree, d: nat, n: Elem)
    requires Links(t) && IsName(t, d, n)
    ensures var i := t[d].entries[n];
            && i in t && (d, n) in Names(t, i) && t[i].nlink >= 1
            && (IsDir(t, i) ==> n in Subs(t, d) && t[d].nlink >= 1 && Up(t, i) == Some(d))
  {
    var i := t[d].entries[n];
    assert NamedOk(t, d, n) && Covered(t, d) && Covered(t, i);
    SubsetSize({(d, n)}, Names(t, i));
    if IsDir(t, i) {
      SubsetSize({n}, Subs(t, d));
    }
  }

  // ---- Where a tree with the right counts may still be unsound ----------------------------------------------

  /** A directory whose ".." leads to an inode that is free or has no links. */
  predicate Stray(t: Tree, c: nat) {
    IsDir(t, c) && Up(t, c).Some? && !(Up(t, c).value in t && t[Up(t, c).value].nlink >= 1)
  }

  /** Only directories that no name leads to can be astray, and only they make the tree unsound. */
  lemma SoundMeans(t: Tree)
    requires Links(t)
    ensures Sound(t) <==> !exists c :: Stray(t, c)
    ensures forall c :: Stray(t, c) ==> Names(t, c) == {}
  {
    hide Links;
    forall c | Stray(t, c)
      ensures Names(t, c) == {}
    {
      if p :| p in Names(t, c) {
        HasName(t, p.0, p.1);
      }
    }
    if c :| Stray(t, c) {
      assert IsEntry(t, c, DOTDOT) && !SoundAt(t, c, DOTDOT);
    } else {
      RootCounted(t);
      forall d, n | IsEntry(t, d, n)
        ensures SoundAt(t, d, n)
      {
        NoStray(t, d, n);
      }
    }
  }

  lemma RootCounted(t: Tree)
    requires Links(t)
    ensures ROOTINO in t && t[ROOTINO].nlink >= 1
  {
    assert Covered(t, ROOTINO);
  }

  lemma NoStray(t: Tree, d: nat, n: Elem)
    requires Links(t) && IsEntry(t, d, n) && !Stray(t, d)
    ensures SoundAt(t, d, n)
  {
    assert Dotted(t, d);
    if Proper(n) {
      HasName(t, d, n);
    }
  }

  // ---- Inodes without links that go -------------------------------------------------------------------------

  lemma LinksShrunk(t: Tree, u: Tree)
    requires Links(t) && Shrunk(t, u)
    ensures Links(u)
  {
    RootCounted(t);
    forall i: nat | i in u
      ensures Dotted(u, i) && Covered(u, i)
    {
      assert Dotted(t, i) && Covered(t, i);
      SubsetSize(Names(u, i), Names(t, i));
      SubsetSize(Subs(u, i), Subs(t, i));
    }
    forall d, n | IsName(u, d, n)
      ensures NamedOk(u, d, n)
    {
      HasName(t, d, n);
    }
  }

  // ---- create ---------------------------------------------------------------------------------------------------

  /** Where create puts a new inode. */
  ghost predicate MayCreate(t: Tree, d: nat, name: Elem, inum: nat) {
    Links(t) && IsDir(t, d) && name !in t[d].entries && inum != d && (inum in t ==> t[inum].nlink == 0)
  }

  lemma CreatedNames(t: Tree, d: nat, name: Elem, inum: nat, typ: Type, i: nat)
    requires MayCreate(t, d, name, inum)
    ensures Names(Created(t, d, name, inum, typ), i) <= if i == inum then {(d, name)} else Names(t, i)
  {
    hide Links, Subs;
    var u := Created(t, d, name, inum, typ);
    forall p | p in Names(u, i)
      ensures p in if i == inum then {(d, name)} else Names(t, i)
    {
      if p != (d, name) && p.0 != inum {
        assert u[p.0].entries[p.1] == t[p.0].entries[p.1];
        HasName(t, p.0, p.1);
      }
    }
  }

  lemma CreatedSubs(t: Tree, d: nat, name: Elem, inum: nat, typ: Type, i: nat)
    requires MayCreate(t, d, name, inum) && i in Created(t, d, name, inum, typ)
    ensures Subs(Created(t, d, name, inum, typ), i) <=
            (if i == inum then {} else Subs(t, i)) + (if i == d && typ == TDir then {name} else {})
  {
    hide Links, Names;
    var u := Created(t, d, name, inum, typ);
    forall n | n in Subs(u, i)
      ensures i != inum && (n in Subs(t, i) || (i == d && typ == TDir && n == name))
    {
      if i != inum && !(i == d && n == name) {
        HasName(t, i, n);
      }
    }
  }

  lemma CreatedCovers(t: Tree, d: nat, name: Elem, inum: nat, typ: Type, i: nat)
    requires MayCreate(t, d, name, inum) && i in Created(t, d, name, inum, typ)
    ensures Covered(Created(t, d, name, inum, typ), i)
  {
    var u := Created(t, d, name, inum, typ);
    CreatedNames(t, d, name, inum, typ, i);
    CreatedSubs(t, d, name, inum, typ, i);
    RootCounted(t);
    if i == inum {
      SubsetSize(Names(u, i), {(d, name)});
    } else {
      assert Covered(t, i);
      SubsetSize(Names(u, i), Names(t, i));
      SubsetSize(Subs(u, i), Subs(t, i) + (if i == d && typ == TDir then {name} else {}));
    }
  }

  lemma CreatedNamed(t: Tree, d: nat, name: Elem, inum: nat, typ: Type, e: nat, n: Elem)
    requires MayCreate(t, d, name, inum) && IsName(Created(t, d, name, inum, typ), e, n)
    ensures NamedOk(Created(t, d, name, inum, typ), e, n)
  {
    hide Links, Names, Subs;
    if e != inum && !(e == d && n == name) {
      HasName(t, e, n);
    }
  }

  lemma CreatedDotted(t: Tree, d: nat, name: Elem, inum: nat, typ: Type, i: nat)
    requires MayCreate(t, d, name, inum) && i in Created(t, d, name, inum, typ)
    ensures Dotted(Created(t, d, name, inum, typ), i)
  {
    if i != inum {
      assert Dotted(t, i);
    }
  }

  lemma LinksCreated(t: Tree, d: nat, name: Elem, inum: nat, typ: Type)
    requires MayCreate(t, d, name, inum)
    ensures Links(Created(t, d, name, inum, typ))
  {
    var u := Created(t, d, name, inum, typ);
    RootCounted(t);
    assert IsDir(u, ROOTINO);
    hide Created, Dotted, Covered, NamedOk, IsName;
    forall i: nat | i in u
      ensures Dotted(u, i) && Covered(u, i)
    {
      CreatedDotted(t, d, name, inum, typ, i);
      CreatedCovers(t, d, name, inum, typ, i);
    }
    forall e, n | IsName(u, e, n)
      ensures NamedOk(u, e, n)
    {
      CreatedNamed(t, d, name, inum, typ, e, n);
    }
  }

  lemma SoundCreated(t: Tree, d: nat, name: Elem, inum: nat, typ: Type)
    requires MayCreate(t, d, name, inum) && Sound(t)
    ensures Sound(Created(t, d, name, inum, typ))
  {
    var u := Created(t, d, name, inum, typ);
    assert Covered(t, d);
    forall e, n | IsEntry(u, e, n)
      ensures SoundAt(u, e, n)
    {
      if e != inum && !(e == d && n == name) {
        assert IsEntry(t, e, n) && SoundAt(t, e, n);
      }
    }
  }

  // ---- link -----------------------------------------------------------------------------------------------------

  ghost predicate MayLink(t: Tree, i: nat, d: nat, name: Elem) {
    Links(t) && i in t && t[i].typ != TDir && IsDir(t, d) && name !in t[d].entries
  }

  lemma EnteredNames(t: Tree, i: nat, d: nat, name: Elem, j: nat)
    requires MayLink(t, i, d, name)
    ensures Names(Entered(Relinked(t, i, 1), d, name, i), j) <= Names(t, j) + (if j == i then {(d, name)} else {})
  {
    hide Links, Subs;
  }

  lemma EnteredSubs(t: Tree, i: nat, d: nat, name: Elem, j: nat)
    requires MayLink(t, i, d, name)
    ensures Subs(Entered(Relinked(t, i, 1), d, name, i), j) <= Subs(t, j)
  {
    hide Links, Names;
  }

  lemma EnteredCovers(t: Tree, i: nat, d: nat, name: Elem, j: nat)
    requires MayLink(t, i, d, name) && j in t
    ensures var u := Entered(Relinked(t, i, 1), d, name, i); j in u && Dotted(u, j) && Covered(u, j)
  {
    var u := Entered(Relinked(t, i, 1), d, name, i);
    assert Dotted(t, j) && Covered(t, j);
    hide Names, Subs, Links;
    EnteredNames(t, i, d, name, j);
    SubsetSize(Names(u, j), Names(t, j) + (if j == i then {(d, name)} else {}));
    EnteredSubs(t, i, d, name, j);
    SubsetSize(Subs(u, j), Subs(t, j));
  }

  lemma EnteredNamed(t: Tree, i: nat, d: nat, name: Elem, e: nat, n: Elem)
    requires MayLink(t, i, d, name) && IsName(Entered(Relinked(t, i, 1), d, name, i), e, n)
    ensures NamedOk(Entered(Relinked(t, i, 1), d, name, i), e, n)
  {
    hide Links, Names, Subs;
    if !(e == d && n == name) {
      HasName(t, e, n);
    }
  }

  lemma LinksEntered(t: Tree, i: nat, d: nat, name: Elem)
    requires MayLink(t, i, d, name)
    ensures Links(Entered(Relinked(t, i, 1), d, name, i))
  {
    var u := Entered(Relinked(t, i, 1), d, name, i);
    assert IsDir(u, ROOTINO) && u.Keys == t.Keys;
    hide Entered, Relinked, NamedOk, IsName, Dotted, Covered;
    forall j: nat | j in u
      ensures Dotted(u, j) && Covered(u, j)
    {
      EnteredCovers(t, i, d, name, j);
    }
    forall e, n | IsName(u, e, n)
      ensures NamedOk(u, e, n)
    {
      EnteredNamed(t, i, d, name, e, n);
    }
  }

  lemma SoundEntered(t: Tree, i: nat, d: nat, name: Elem)
    requires MayLink(t, i, d, name) && Sound(t)
    ensures Sound(Entered(Relinked(t, i, 1), d, name, i))
  {
    var u := Entered(Relinked(t, i, 1), d, name, i);
    assert Covered(t, i);
    forall e, n | IsEntry(u, e, n)
      ensures SoundAt(u, e, n)
    {
      if !(e == d && n == name) {
        assert IsEntry(t, e, n) && SoundAt(t, e, n);
      }
    }
  }

  // ---- unlink ---------------------------------------------------------------------------------------------------

  lemma NotItself(t: Tree, d: nat, name: Elem)
    requires MayUnlink(t, d, name)
    ensures t[d].entries[name] != d
  {
    assert name !in {DOT, DOTDOT};
  }

  lemma UnlinkedNames(t: Tree, d: nat, name: Elem, j: nat)
    requires MayUnlink(t, d, name)
    ensures Names(Unlinked(t, d, name), j) <=
            Names(t, j) - (if j == t[d].entries[name] then {(d, name)} else {})
  {
    NotItself(t, d, name);
  }

  lemma UnlinkedSubs(t: Tree, d: nat, name: Elem, j: nat)
    requires MayUnlink(t, d, name)
    ensures Subs(Unlinked(t, d, name), j) <= Subs(t, j) - (if j == d then {name} else {})
  {
    NotItself(t, d, name);
  }

  lemma UnlinkedNode(t: Tree, d: nat, name: Elem, j: nat)
    requires MayUnlink(t, d, name) && j in t && Dotted(t, j)
    ensures var u, i := Unlinked(t, d, name), t[d].entries[name];
            && j in u && Dotted(u, j) && i != d
            && u[j].nlink == t[j].nlink - (if j == i || (j == d && IsDir(t, i)) then 1 else 0)
            && (IsDir(u, j) <==> IsDir(t, j))
  {
    NotItself(t, d, name);
  }

  lemma UnlinkedCovers(t: Tree, d: nat, name: Elem, j: nat)
    requires Links(t) && MayUnlink(t, d, name) && j in t
    ensures j in Unlinked(t, d, name) && Dotted(Unlinked(t, d, name), j) && Covered(Unlinked(t, d, name), j)
  {
    HasName(t, d, name);
    assert Dotted(t, j) && Covered(t, j);
    var u, i := Unlinked(t, d, name), t[d].entries[name];
    UnlinkedNode(t, d, name, j);
    hide Names, Subs, Links, Unlinked, MayUnlink;
    var was, subs := if j == i then {(d, name)} else {}, if j == d then {name} else {};
    UnlinkedNames(t, d, name, j);
    SubsetSize(Names(u, j), Names(t, j) - was);
    UnlinkedSubs(t, d, name, j);
    SubsetSize(Subs(u, j), Subs(t, j) - subs);
  }

  lemma UnlinkedNamed(t: Tree, d: nat, name: Elem, e: nat, n: Elem)
    requires Links(t) && MayUnlink(t, d, name) && IsName(Unlinked(t, d, name), e, n)
    ensures NamedOk(Unlinked(t, d, name), e, n)
  {
    hide Links, Names, Subs;
    HasName(t, e, n);
  }

  lemma UnlinkedKeys(t: Tree, d: nat, name: Elem)
    requires Links(t) && MayUnlink(t, d, name)
    ensures IsDir(Unlinked(t, d, name), ROOTINO) && Unlinked(t, d, name).Keys == t.Keys
  {
    hide Covered, NamedOk, Dotted;
  }

  lemma AllNamed(t: Tree, d: nat, name: Elem)
    requires Links(t) && MayUnlink(t, d, name)
    ensures var u := Unlinked(t, d, name);
            forall e, n {:trigger NamedOk(u, e, n)} :: IsName(u, e, n) ==> NamedOk(u, e, n)
  {
    var u := Unlinked(t, d, name);
    hide Links, Shaped, Unlinked, MayUnlink, NamedOk, IsName, IsEntry, Dotted, Covered, Names, Subs, Proper;
    forall e, n | IsName(u, e, n)
      ensures NamedOk(u, e, n)
    {
      UnlinkedNamed(t, d, name, e, n);
    }
  }

  lemma AllCovered(t: Tree, d: nat, name: Elem)
    requires Links(t) && MayUnlink(t, d, name)
    ensures var u := Unlinked(t, d, name);
            forall j: nat {:trigger Covered(u, j)} {:trigger Dotted(u, j)} :: j in u ==> Dotted(u, j) && Covered(u, j)
  {
    UnlinkedKeys(t, d, name);
    var u := Unlinked(t, d, name);
    hide Links, Shaped, Unlinked, MayUnlink, NamedOk, IsName, IsEntry, Dotted, Covered, Names, Subs, Proper;
    forall j: nat | j in u
      ensures Dotted(u, j) && Covered(u, j)
    {
      UnlinkedCovers(t, d, name, j);
    }
  }

  lemma LinksUnlinked(t: Tree, d: nat, name: Elem)
    requires Links(t) && MayUnlink(t, d, name)
    ensures Links(Unlinked(t, d, name))
  {
    UnlinkedKeys(t, d, name);
    AllNamed(t, d, name);
    AllCovered(t, d, name);
    hide Unlinked, NamedOk, IsName, Dotted, Covered, MayUnlink;
  }

  /** Inode p loses its last link when the name is unlinked. */
  predicate LosesLast(t: Tree, d: nat, name: Elem, p: nat)
    requires MayUnlink(t, d, name)
  {
    var i := t[d].entries[name];
    p in t && t[p].nlink == 1 && (p == i || (p == d && IsDir(t, i)))
  }

  /** A directory that is still there has ".." leading to an inode that has lost its last link. */
  ghost predicate LeavesAstray(t: Tree, d: nat, name: Elem, u: Tree)
    requires MayUnlink(t, d, name)
  {
    exists c :: c in u && Up(u, c).Some? && LosesLast(t, d, name, Up(u, c).value)
  }

  lemma SoundUnlinked(t: Tree, d: nat, name: Elem, u: Tree)
    requires Links(t) && Sound(t) && MayUnlink(t, d, name) && Shrunk(Unlinked(t, d, name), u)
    ensures Sound(u) <==> !LeavesAstray(t, d, name, u)
  {
    NotItself(t, d, name);
    LinksUnlinked(t, d, name);
    LinksShrunk(Unlinked(t, d, name), u);
    SoundMeans(u);
    hide Links, Sound;
    forall c | Stray(u, c)
      ensures LosesLast(t, d, name, Up(u, c).value)
    {
      StrayLost(t, d, name, u, c);
    }
    forall c | c in u && Up(u, c).Some? && LosesLast(t, d, name, Up(u, c).value)
      ensures Stray(u, c)
    {
      LostStray(t, d, name, u, c);
    }
  }

  lemma StrayLost(t: Tree, d: nat, name: Elem, u: Tree, c: nat)
    requires Sound(t) && MayUnlink(t, d, name) && Shrunk(Unlinked(t, d, name), u) && Stray(u, c)
    ensures LosesLast(t, d, name, Up(u, c).value)
  {
    NotItself(t, d, name);
    assert IsEntry(t, c, DOTDOT) && SoundAt(t, c, DOTDOT);
  }

  lemma LostStray(t: Tree, d: nat, name: Elem, u: Tree, c: nat)
    requires Links(t) && MayUnlink(t, d, name) && Shrunk(Unlinked(t, d, name), u)
    requires c in u && Up(u, c).Some? && LosesLast(t, d, name, Up(u, c).value)
    ensures Stray(u, c)
  {
    NotItself(t, d, name);
    assert Dotted(t, c);
  }

  /** What every system call but unlink keeps: the link counts, and that every entry leads somewhere. */
  ghost predicate Healthy(t: Tree) {
    Links(t) && Sound(t)
  }

  lemma HealthyShrunk(t: Tree, u: Tree)
    requires Shrunk(t, u)
    ensures Links(t) ==> Links(u)
    ensures Healthy(t) ==> Healthy(u)
  {
    if Links(t) {
      LinksShrunk(t, u);
    }
    if Sound(t) {
      SoundShrunk(t, u);
    }
  }

  lemma HealthyCreated(t: Tree, d: nat, name: Elem, inum: nat, typ: Type)
    requires IsDir(t, d) && name !in t[d].entries && inum != d && (inum in t ==> t[inum].nlink == 0)
    ensures Links(t) ==> Links(Created(t, d, name, inum, typ))
    ensures Healthy(t) ==> Healthy(Created(t, d, name, inum, typ))
  {
    if Links(t) {
      LinksCreated(t, d, name, inum, typ);
    }
    if Healthy(t) {
      SoundCreated(t, d, name, inum, typ);
    }
  }

  lemma HealthyEntered(t: Tree, i: nat, d: nat, name: Elem)
    requires i in t && t[i].typ != TDir && IsDir(t, d) && name !in t[d].entries
    ensures Links(t) ==> Links(Entered(Relinked(t, i, 1), d, name, i))
    ensures Healthy(t) ==> Healthy(Entered(Relinked(t, i, 1), d, name, i))
  {
    if Links(t) {
      LinksEntered(t, i, d, name);
    }
    if Healthy(t) {
      SoundEntered(t, i, d, name);
    }
  }

  lemma HealthyUnlinked(t: Tree, d: nat, name: Elem, u: Tree)
    requires MayUnlink(t, d, name) && Shrunk(Unlinked(t, d, name), u)
    ensures Links(t) ==> Links(u)
    ensures Healthy(t) ==> (Healthy(u) <==> !LeavesAstray(t, d, name, u))
  {
    if Links(t) {
      LinksUnlinked(t, d, name);
      LinksShrunk(Unlinked(t, d, name), u);
    }
    if Healthy(t) {
      SoundUnlinked(t, d, name, u);
    }
  }

  // ---- What mkfs builds ---------------------------------------------------------------------------------------

  /**
   mkfs counts one link for each inode, whatever it has. With one name for each inode but the root that is
   enough exactly when no directory has a subdirectory.
   */
  lemma MkfsLinks(t: Tree)
    requires Shaped(t)
    requires forall i: nat :: i in t ==> t[i].nlink == 1 && |Names(t, i)| == if i == ROOTINO then 0 else 1
    ensures Links(t) <==> forall i: nat :: i in t ==> Subs(t, i) == {}
  {
    forall i: nat | i in t
      ensures Covered(t, i) <==> Subs(t, i) == {}
    {
    }
  }

  /** A root with one directory in it, as mkfs counts. */
  function Nested(): Tree {
    map[1 := Node(TDir, 1, map[DOT := 1][DOTDOT := 1][[97] := 2])][2 := Node(TDir, 1, map[DOT := 2][DOTDOT := 1])]
  }

  lemma NestedMiscounts()
    ensures Shaped(Nested()) && !Links(Nested())
    ensures forall i: nat :: i in Nested() ==>
              Nested()[i].nlink == 1 && |Names(Nested(), i)| == if i == ROOTINO then 0 else 1
  {
    assert Names(Nested(), 1) == {} && Names(Nested(), 2) == {(1, [97])};
    assert Subs(Nested(), 1) == {[97]};
    assert !Covered(Nested(), 1);
  }
}
