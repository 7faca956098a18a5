/**
 The system calls of sysfile.c that take path names: create, open, link, unlink, mkdir, mknod, chdir.
 A call that returns has let go of every lock and of every reference that it has not stored.
 */
module SysPaths {
  import opened Bytes
  import opened Options
  import opened FsPath
  import opened FsLinks
  import opened SysRefs
  import opened Sysfile
  import opened SysCalls

  /** The flags of open; other says whether any further bit is set. */
  datatype Flags = Flags(create: bool, wronly: bool, rdwr: bool, other: bool) {
    predicate ReadOnly() {
      !create && !wronly && !rdwr && !other
    }
  }

  lemma ShrunkUpdate(t: Tree, u: Tree, i: nat, n: Node)
    requires Shrunk(t, u)
    ensures Shrunk(t[i := n], u[i := n])
  {
  }

  lemma ShrunkMore(t: Tree, u: Tree, v: Tree)
    requires Shrunk(t, u) && Shrunk(u, v)
    ensures Shrunk(t, v)
  {
  }

  /** Writing an inode that is there, or a free one, disturbs no cached inode. */
  lemma CacheKept(icache: seq<Cached>, tree: Tree, i: nat, n: Node)
    requires CacheOk(icache, tree)
    ensures CacheOk(icache, tree[i := n])
  {
  }

  /** iupdate: the locked inode's fields go to disk. */
  method SetNode(s: Sys, i: nat, n: Node)
    requires s.Inv()
    modifies s`tree
    ensures s.Inv() && s.tree == old(s.tree)[i := n]
    ensures s.Locks() == old(s.Locks())
  {
    hide KeepersOk, FilesCounted, InodesCounted, CacheOk, LocksOk, Theirs, Spare, Sound;
    CacheKept(s.icache, s.tree, i, n);
    s.tree := s.tree[i := n];
  }

  /** dirlink: a name that is there already is refused. */
  method Dirlink(s: Sys, dp: int, name: Elem, inum: nat) returns (end: End, r: int)
    requires s.Inv() && dp in s.myLocks && 0 <= dp < NINODE && |s.icache| == NINODE && IsDir(s.tree, s.icache[dp].inum)
    modifies s`icache, s`mine, s`tree
    ensures end != Waits
    ensures end == Returns ==>
              s.Inv() && |s.icache| == NINODE && s.mine == old(s.mine) && s.icache[dp].inum == old(s.icache)[dp].inum
    ensures end == Returns ==> SlotsKept(old(s.icache), s.icache, old(s.mine))
    ensures end == Returns ==> r == if name in old(s.tree)[old(s.icache)[dp].inum].entries then -1 else 0
    ensures end == Returns && r == -1 ==> Shrunk(old(s.tree), s.tree) && old(s.icache)[dp].inum in s.tree
    ensures end == Returns && r == 0 ==>
              s.tree == Entered(old(s.tree), old(s.icache)[dp].inum, name, inum) && s.icache == old(s.icache)
    ensures s.Locks() == old(s.Locks())
    ensures end == Panics ==> name in old(s.tree)[old(s.icache)[dp].inum].entries && s.Crowded(|old(s.mine)|)
  {
    hide KeepersOk, FilesCounted, InodesCounted, CacheOk, LocksOk, Theirs, Spare, Sound, Sys.Inv;
    var ip;
    s.Sizes();
    end, ip := Dirlookup(s, dp, name);
    if end != Returns {
      return end, -1;
    }
    s.Sizes();
    if ip != -1 {
      SwapHeld(old(s.mine), ip, ip);
      s.Locked(dp);
      end := s.Iput(ip);
      s.Sizes();
      s.Locked(dp);
      return end, -1;
    }
    SetNode(s, s.icache[dp].inum, Entered(s.tree, s.icache[dp].inum, name, inum)[s.icache[dp].inum]);
    return Returns, 0;
  }

  // ---- create ---------------------------------------------------------------------------------------------------

  /** A locked directory, the only thing the call holds. */
  ghost predicate HoldsDir(s: Sys, dp: int)
    reads s
  {
    s.Inv() && 0 <= dp < NINODE && |s.icache| == NINODE && s.myLocks == {dp} && s.mine == multiset{dp}
    && IsDir(s.tree, s.icache[dp].inum)
  }

  /** nameiparent and the lock on what it finds. */
  method LockParent(s: Sys, path: seq<Byte>) returns (end: End, dp: int, name: Elem)
    requires s.Idle() && 0 <= s.cwd < NINODE && |s.icache| == NINODE
    modifies s`icache, s`mine, s`tree, s`myLocks
    ensures end == Returns ==> Shrunk(old(s.tree), s.tree) && |s.icache| == NINODE
    ensures end == Returns && dp == -1 ==>
              s.Idle() && Resolved(old(s.tree), Start(path, old(s.Here())), path, true) == None
    ensures end == Returns && dp != -1 ==>
              HoldsDir(s, dp) && s.mineF == multiset{} && Elements(path) != []
              && name == Elements(path)[|Elements(path)| - 1]
    ensures end == Returns && dp != -1 ==>
              Resolved(old(s.tree), Start(path, old(s.Here())), path, true) == Some(s.icache[dp].inum)
    ensures s.Locks() == old(s.Locks()) && (end == Waits ==> s.Locks() != {})
    ensures end == Panics ==> s.Crowded(1) || !Sound(old(s.tree))
  {
    hide KeepersOk, FilesCounted, InodesCounted, CacheOk, LocksOk, Theirs, Spare, Sound, Sys.Inv, Elements, WalkParent;
    end, dp, name := Namex(s, path, true);
    if end != Returns || dp == -1 {
      return;
    }
    ParentIsDir(old(s.tree), Start(path, old(s.Here())), path);
    SwapHeld(multiset{}, dp, dp);
    end := s.Ilock(dp);
    if end == Returns {
      s.Sizes();
    }
  }

  lemma ParentIsDir(t: Tree, start: nat, path: seq<Byte>)
    ensures Resolved(t, start, path, true).Some? ==> IsDir(t, Resolved(t, start, path, true).value)
  {
  }

  /** No inode number is left. */
  predicate NoneFree(t: Tree, ninodes: nat) {
    forall k: nat :: 1 <= k < ninodes ==> k in t
  }

  predicate LowestFree(t: Tree, ninodes: nat, i: nat) {
    1 <= i < ninodes && i !in t && forall k: nat :: 1 <= k < i ==> k in t
  }

  /** ialloc: the first free inode. */
  method Ialloc(s: Sys, typ: Type, ninodes: nat) returns (end: End, ip: int)
    requires s.Inv() && |s.icache| == NINODE
    modifies s`icache, s`mine, s`tree
    ensures end != Waits && s.Locks() == old(s.Locks())
    ensures end == Panics <==>
              NoneFree(old(s.tree), ninodes)
              || exists i: nat :: LowestFree(old(s.tree), ninodes, i) && NoSlot(old(s.icache), i)
    ensures end == Panics ==> NoneFree(old(s.tree), ninodes) || s.Crowded(|old(s.mine)|)
    ensures end == Returns ==>
              s.Inv() && |s.icache| == NINODE && 0 <= ip < NINODE && s.mine == old(s.mine) + multiset{ip}
    ensures end == Returns ==>
              s.icache[ip].inum !in old(s.tree) && s.tree == old(s.tree)[s.icache[ip].inum := Node(typ, 0, map[])]
    ensures end == Returns ==> s.icache[ip].ref > 0 && OtherSlotsKept(old(s.icache), s.icache, ip)
    ensures end == Returns ==>
              1 <= s.icache[ip].inum < ninodes && forall k: nat :: 1 <= k < s.icache[ip].inum ==> k in old(s.tree)
    ensures end == Returns ==> SlotsKept(old(s.icache), s.icache, old(s.mine))
  {
    hide KeepersOk, FilesCounted, InodesCounted, CacheOk, LocksOk, Theirs, Spare, Sound, Sys.Inv;
    var inum := 1;
    while inum < ninodes
      invariant s.Inv() && s.tree == old(s.tree) && s.mine == old(s.mine) && s.icache == old(s.icache)
      invariant 1 <= inum && forall k: nat :: 1 <= k < inum ==> k in s.tree
    {
      if inum !in s.tree {
        assert LowestFree(s.tree, ninodes, inum);
        SetNode(s, inum, Node(typ, 0, map[]));
        end, ip := s.Iget(inum);
        if end == Returns {
          s.Sizes();
        }
        return;
      }
      inum := inum + 1;
    }
    return Panics, -1;
  }

  lemma CreatedShrunk(t: Tree, u: Tree, d: nat, name: Elem, inum: nat, typ: Type)
    requires Shrunk(t, u) && d in u
    ensures Shrunk(Created(t, d, name, inum, typ), Created(u, d, name, inum, typ))
  {
  }

  /** The directory and the new inode, both locked. */
  ghost predicate HoldsBoth(s: Sys, dp: int, ip: int)
    reads s
  {
    && s.Inv() && 0 <= dp < NINODE && 0 <= ip < NINODE && |s.icache| == NINODE && s.myLocks == {dp, ip}
       && s.mine == multiset{dp, ip}
    && s.icache[dp].inum != s.icache[ip].inum && s.icache[dp].inum in s.tree && s.icache[ip].inum in s.tree
  }

  /** ialloc, ilock and the first iupdate. */
  method NewInode(s: Sys, dp: int, typ: Type, ninodes: nat) returns (end: End, ip: int)
    requires HoldsDir(s, dp)
    modifies s`icache, s`mine, s`tree, s`myLocks
    ensures end == Returns ==>
              HoldsBoth(s, dp, ip) && s.icache[dp].inum == old(s.icache)[dp].inum && s.icache[ip].inum !in old(s.tree)
    ensures end == Returns ==>
              s.tree == old(s.tree)[s.icache[ip].inum := Node(typ, 1, map[])] && Unused(old(s.tree), s.icache[ip].inum)
    ensures s.Locks() == old(s.Locks()) && (end == Waits ==> s.Locks() != {})
    ensures end == Panics ==> s.Crowded(1) || NoneFree(old(s.tree), ninodes)
  {
    hide KeepersOk, FilesCounted, InodesCounted, CacheOk, LocksOk, Theirs, Spare, Sound, Sys.Inv;
    s.Locked(dp);
    end, ip := Ialloc(s, typ, ninodes);
    if end != Returns {
      return;
    }
    assert ip != dp;
    end := s.Ilock(ip);
    if end != Returns {
      return;
    }
    s.Sizes();
    var inum := s.icache[ip].inum;
    SetNode(s, inum, s.tree[inum].(nlink := 1));
  }

  /** "." and "..", and the link that ".." is. */
  method Dots(s: Sys, dp: int, ip: int) returns (end: End)
    requires HoldsBoth(s, dp, ip) && s.tree[s.icache[ip].inum] == Node(TDir, 1, map[])
    modifies s`icache, s`mine, s`tree
    ensures end == Returns && s.Locks() == old(s.Locks())
    ensures HoldsBoth(s, dp, ip) && s.icache[dp].inum == old(s.icache)[dp].inum
            && s.icache[ip].inum == old(s.icache)[ip].inum
    ensures s.tree == WithDots(old(s.tree), old(s.icache)[dp].inum, old(s.icache)[ip].inum)
  {
    hide KeepersOk, FilesCounted, InodesCounted, CacheOk, LocksOk, Theirs, Spare, Sound, Sys.Inv;
    var d, inum := s.icache[dp].inum, s.icache[ip].inum;
    SetNode(s, d, s.tree[d].(nlink := s.tree[d].nlink + 1));
    var r;
    end, r := Dirlink(s, ip, DOT, inum);
    if end != Returns || r < 0 {
      return Panics;
    }
    end, r := Dirlink(s, ip, DOTDOT, d);
    if end != Returns || r < 0 {
      return Panics;
    }
  }

  function WithDots(t: Tree, d: nat, inum: nat): Tree {
    if d in t && inum in t && d != inum then
      t[d := t[d].(nlink := t[d].nlink + 1)][inum := t[inum].(entries := t[inum].entries[DOT := inum][DOTDOT := d])]
    else t
  }

  /** inum is the lowest number that is free, up to inodes without links that may have gone by then. */
  ghost predicate Unused(t: Tree, inum: nat) {
    1 <= inum && (inum in t ==> t[inum].nlink == 0) && forall k: nat :: 1 <= k < inum ==> k in t
  }

  lemma UnusedShrunk(t: Tree, u: Tree, inum: nat)
    requires Shrunk(t, u) && Unused(u, inum)
    ensures Unused(t, inum)
  {
  }

  /** create when the name is new: the locked inode is returned, the directory is let go. */
  method Fresh(s: Sys, dp: int, name: Elem, typ: Type, ninodes: nat) returns (end: End, ip: int)
    requires HoldsDir(s, dp) && name !in s.tree[s.icache[dp].inum].entries
    modifies s`icache, s`mine, s`tree, s`myLocks
    ensures end == Returns ==>
              s.Inv() && |s.icache| == NINODE && 0 <= ip < NINODE && s.myLocks == {ip} && s.mine == multiset{ip}
    ensures end == Returns ==> s.icache[ip].inum !in old(s.tree) && Unused(old(s.tree), s.icache[ip].inum)
    ensures end == Returns ==>
              Shrunk(Created(old(s.tree), old(s.icache)[dp].inum, name, s.icache[ip].inum, typ), s.tree)
    ensures s.Locks() == old(s.Locks()) && (end == Waits ==> s.Locks() != {})
    ensures end == Panics ==> s.Crowded(1) || NoneFree(old(s.tree), ninodes)
  {
    hide KeepersOk, FilesCounted, InodesCounted, CacheOk, LocksOk, Theirs, Spare, Sound, Sys.Inv, Shrunk, WithDots,
        Created;
    ghost var t0, d := s.tree, s.icache[dp].inum;
    end, ip := NewInode(s, dp, typ, ninodes);
    if end != Returns {
      return;
    }
    ghost var t1, inum := s.tree, s.icache[ip].inum;
    CreatedInSteps(t0, d, name, inum, typ);
    if typ == TDir {
      end := Dots(s, dp, ip);
      if end != Returns {
        return;
      }
    }
    var r;
    end, r := Dirlink(s, dp, name, s.icache[ip].inum);
    if end != Returns || r < 0 {
      return Panics, -1;
    }
    end := LetGo(s, dp, ip);
  }

  lemma CreatedInSteps(t0: Tree, d: nat, name: Elem, inum: nat, typ: Type)
    requires IsDir(t0, d) && inum !in t0 && name !in t0[d].entries
    ensures var t1 := t0[inum := Node(typ, 1, map[])];
            var t2 := if typ == TDir then WithDots(t1, d, inum) else t1;
            && IsDir(t2, d) && name !in t2[d].entries && Entered(t2, d, name, inum) == Created(t0, d, name, inum, typ)
            && t1[inum] == Node(typ, 1, map[])
  {
    var t1 := t0[inum := Node(typ, 1, map[])];
    var t2 := if typ == TDir then WithDots(t1, d, inum) else t1;
    assert Entered(t2, d, name, inum) == Created(t0, d, name, inum, typ);
  }

  /** iunlockput of one of two locked inodes. */
  method LetGo(s: Sys, dp: int, ip: int) returns (end: End)
    requires HoldsBoth(s, dp, ip)
    modifies s`icache, s`mine, s`tree, s`myLocks
    ensures end == Returns && s.Inv() && |s.icache| == NINODE && s.myLocks == {ip} && s.mine == multiset{ip}
    ensures Shrunk(old(s.tree), s.tree) && s.icache[ip].inum == old(s.icache)[ip].inum && dp != ip
    ensures s.icache[ip].inum in s.tree
    ensures s.Locks() == old(s.Locks())
  {
    hide KeepersOk, FilesCounted, InodesCounted, CacheOk, LocksOk, Theirs, Spare, Sound, Sys.Inv;
    end := s.Iunlockput(dp);
    s.Sizes();
    assert s.mine == multiset{ip};
    assert s.myLocks == {ip};
  }

  function LastElement(path: seq<Byte>): Elem {
    if Elements(path) == [] then [] else Elements(path)[|Elements(path)| - 1]
  }

  /** Inode inum is what create should return, and tree what it should leave, up to inodes let go for good. */
  ghost predicate CreateResult(t0: Tree, d: nat, name: Elem, typ: Type, inum: nat, tree: Tree) {
    && IsDir(t0, d)
    && if name in t0[d].entries
       then inum == t0[d].entries[name] && typ == TFile && inum in t0 && t0[inum].typ == TFile && Shrunk(t0, tree)
       else inum != d && Unused(t0, inum) && Shrunk(Created(t0, d, name, inum, typ), tree)
  }

  ghost predicate CreateFails(t0: Tree, r: Option<nat>, name: Elem, typ: Type) {
    r.Some? ==> IsDir(t0, r.value) && name in t0[r.value].entries &&
                !(typ == TFile && t0[r.value].entries[name] in t0 && t0[t0[r.value].entries[name]].typ == TFile)
  }

  /** create. */
  method Create(s: Sys, path: seq<Byte>, typ: Type, ninodes: nat) returns (end: End, ip: int)
    requires s.Idle() && 0 <= s.cwd < NINODE && |s.icache| == NINODE
    modifies s`icache, s`mine, s`tree, s`myLocks
    ensures end == Returns ==> |s.icache| == NINODE && -1 <= ip < NINODE
    ensures end == Returns && ip == -1 ==> s.Idle() && Shrunk(old(s.tree), s.tree)
    ensures end == Returns && ip == -1 ==>
              CreateFails(old(s.tree), Resolved(old(s.tree), Start(path, old(s.Here())), path, true),
                  LastElement(path), typ)
    ensures end == Returns && ip != -1 ==>
              s.Inv() && s.myLocks == {ip} && s.mine == multiset{ip} && s.mineF == multiset{}
    ensures end == Returns && ip != -1 ==> Resolved(old(s.tree), Start(path, old(s.Here())), path, true).Some?
    ensures end == Returns && ip != -1 ==>
              CreateResult(old(s.tree), Resolved(old(s.tree), Start(path, old(s.Here())), path, true).value,
                  LastElement(path), typ, s.icache[ip].inum, s.tree)
    ensures s.Locks() == old(s.Locks()) && (end == Waits ==> s.Locks() != {})
    ensures end == Panics ==> s.Crowded(1) || !Sound(old(s.tree)) || NoneFree(old(s.tree), ninodes)
  {
    hide KeepersOk, FilesCounted, InodesCounted, CacheOk, LocksOk, Theirs, Spare, Sound, Sys.Inv, Created, Resolved,
        Elements;
    hide CreateResult, CreateFails, Shrunk;
    ghost var t0 := s.tree;
    var dp, name;
    end, dp, name := LockParent(s, path);
    ip := -1;
    if end != Returns || dp == -1 {
      NothingFound(t0, LastElement(path), typ);
      return;
    }
    ghost var t1, d := s.tree, s.icache[dp].inum;
    NoneFreeShrunk(t0, t1, ninodes);
    end, ip := CreateIn(s, dp, name, typ, ninodes);
    if end == Returns && ip == -1 {
      FailsShrunk(t0, t1, d, name, typ);
      ShrunkMore(t0, t1, s.tree);
    } else if end == Returns {
      ResultOfShrunk(t0, t1, d, name, typ, s.icache[ip].inum, s.tree);
    }
  }

  /** create in the locked directory. */
  method CreateIn(s: Sys, dp: int, name: Elem, typ: Type, ninodes: nat) returns (end: End, ip: int)
    requires HoldsDir(s, dp) && s.mineF == multiset{}
    modifies s`icache, s`mine, s`tree, s`myLocks
    ensures end == Returns ==> |s.icache| == NINODE && -1 <= ip < NINODE
    ensures end == Returns && ip == -1 ==> s.Idle() && Shrunk(old(s.tree), s.tree)
    ensures end == Returns && ip == -1 ==>
              var d := old(s.icache)[dp].inum;
              CreateFails(old(s.tree), Some(d), name, typ) && name in old(s.tree)[d].entries
              && old(s.tree)[d].entries[name] in old(s.tree)
    ensures end == Returns && ip != -1 ==>
              s.Inv() && s.myLocks == {ip} && s.mine == multiset{ip} && s.mineF == multiset{}
    ensures end == Returns && ip != -1 ==>
              CreateResult(old(s.tree), old(s.icache)[dp].inum, name, typ, s.icache[ip].inum, s.tree)
    ensures s.Locks() == old(s.Locks()) && (end == Waits ==> s.Locks() != {})
    ensures end == Panics ==> s.Crowded(1) || !Sound(old(s.tree)) || NoneFree(old(s.tree), ninodes)
  {
    hide KeepersOk, FilesCounted, InodesCounted, CacheOk, LocksOk, Theirs, Spare, Sound, Sys.Inv, Created, Shrunk,
        NoneFree,
        SlotsKept;
    ghost var t0, d := s.tree, s.icache[dp].inum;
    ShrunkSelf(t0);
    end, ip := Dirlookup(s, dp, name);
    if end != Returns {
      return;
    }
    if ip != -1 {
      SoundEntry(t0, t0, d, name);
      end, ip := Existing(s, dp, ip, typ);
    } else {
      end, ip := Fresh(s, dp, name, typ, ninodes);
    }
  }

  lemma NothingFound(t: Tree, name: Elem, typ: Type)
    ensures CreateFails(t, None, name, typ)
  {
  }

  lemma NoneFreeShrunk(t: Tree, u: Tree, ninodes: nat)
    requires Shrunk(t, u)
    ensures NoneFree(u, ninodes) ==> NoneFree(t, ninodes)
    ensures Sound(t) ==> Sound(u)
  {
    if Sound(t) {
      SoundShrunk(t, u);
    }
  }

  lemma FailsShrunk(t: Tree, u: Tree, d: nat, name: Elem, typ: Type)
    requires Shrunk(t, u) && IsDir(u, d) && name in u[d].entries && u[d].entries[name] in u
    requires CreateFails(u, Some(d), name, typ)
    ensures CreateFails(t, Some(d), name, typ)
  {
  }

  lemma ResultOfShrunk(t: Tree, u: Tree, d: nat, name: Elem, typ: Type, inum: nat, v: Tree)
    requires Shrunk(t, u) && CreateResult(u, d, name, typ, inum, v)
    ensures CreateResult(t, d, name, typ, inum, v)
  {
    if name in u[d].entries {
      ShrunkMore(t, u, v);
    } else {
      CreatedShrunk(t, u, d, name, inum, typ);
      UnusedShrunk(t, u, inum);
      ShrunkMore(Created(t, d, name, inum, typ), Created(u, d, name, inum, typ), v);
    }
    hide Created;
  }

  /** What an entry of a sound tree names. */
  lemma SoundEntry(t: Tree, u: Tree, d: nat, name: Elem)
    requires Shrunk(t, u) && IsEntry(u, d, name)
    ensures Sound(t) ==> SoundAt(u, d, name)
  {
    if Sound(t) {
      SoundShrunk(t, u);
    }
  }

  /** iunlockput of the one inode that the call holds. */
  method LetGoLast(s: Sys, ip: int) returns (end: End)
    requires s.Inv() && |s.icache| == NINODE && s.myLocks == {ip} && s.mine == multiset{ip}
    modifies s`icache, s`mine, s`tree, s`myLocks
    ensures end == Returns && s.Inv() && |s.icache| == NINODE && s.mine == multiset{} && s.myLocks == {}
            && Shrunk(old(s.tree), s.tree)
    ensures 0 <= ip < |old(s.icache)| && s.tree == TreeAfterPut(old(s.tree), old(s.icache)[ip])
    ensures s.Locks() == old(s.Locks()) && s.Here() == old(s.Here())
  {
    hide KeepersOk, FilesCounted, InodesCounted, CacheOk, LocksOk, Theirs, Spare, Sound, Sys.Inv;
    end := s.Iunlockput(ip);
    s.Sizes();
    assert s.mine == multiset{};
  }

  /** iunlockput of the directory, with a reference to an inode kept. */
  method LetGoDir(s: Sys, dp: int, ip: int) returns (end: End)
    requires s.Inv() && |s.icache| == NINODE && s.myLocks == {dp} && s.mine == multiset{dp} + multiset{ip}
             && 0 <= ip < NINODE
    modifies s`icache, s`mine, s`tree, s`myLocks
    ensures end == Returns && s.Inv() && |s.icache| == NINODE && s.mine == multiset{ip} && s.myLocks == {}
            && Shrunk(old(s.tree), s.tree)
    ensures s.icache[ip].inum == old(s.icache)[ip].inum
    ensures s.icache[ip].inum == old(s.icache)[dp].inum ==> s.tree == old(s.tree)
    ensures s.Locks() == old(s.Locks())
    ensures old(s.icache)[ip].valid ==> s.icache[ip].valid
  {
    hide KeepersOk, FilesCounted, InodesCounted, CacheOk, LocksOk, Theirs, Spare, Sound, Sys.Inv;
    SwapHeld(multiset{}, dp, ip);
    s.Locked(dp);
    if s.icache[ip].inum == s.icache[dp].inum {
      s.SameSlot(dp, ip);
    }
    end := s.Iunlockput(dp);
    s.Sizes();
    assert s.mine == multiset{ip};
  }

  /** ilock of the one inode that the call holds. */
  method LockOnly(s: Sys, ip: int) returns (end: End)
    requires s.Inv() && |s.icache| == NINODE && s.myLocks == {} && s.mine == multiset{ip} && 0 <= ip < NINODE
    modifies s`icache, s`myLocks
    ensures end == Returns ==>
              s.Inv() && |s.icache| == NINODE && s.myLocks == {ip} && s.icache[ip].inum == old(s.icache)[ip].inum
              && s.icache[ip].inum in s.tree
    ensures end == Returns ==> s.Here() == old(s.Here())
    ensures s.Locks() == old(s.Locks()) && (end == Waits ==> s.Locks() != {})
    ensures end == Panics ==> old(s.icache)[ip].inum !in s.tree && !old(s.icache)[ip].valid
    ensures end == Returns ==> s.icache[ip].valid
  {
    hide KeepersOk, FilesCounted, InodesCounted, CacheOk, LocksOk, Theirs, Spare, Sound, Sys.Inv;
    end := s.Ilock(ip);
    if end == Returns {
      s.Sizes();
    }
  }

  /** create when the name is there: only a file asked for as a file is returned. */
  method Existing(s: Sys, dp: int, ip0: int, typ: Type) returns (end: End, ip: int)
    requires s.Inv() && |s.icache| == NINODE && s.myLocks == {dp} && s.mine == multiset{dp} + multiset{ip0}
             && 0 <= ip0 < NINODE && s.mineF == multiset{}
    modifies s`icache, s`mine, s`tree, s`myLocks
    ensures end == Returns ==> |s.icache| == NINODE && (ip == -1 || ip == ip0) && Shrunk(old(s.tree), s.tree)
    ensures end == Returns ==> old(s.icache)[ip0].inum in old(s.tree)
    ensures end == Returns ==> (ip != -1 <==> typ == TFile && old(s.tree)[old(s.icache)[ip0].inum].typ == TFile)
    ensures end == Returns && ip == -1 ==> s.Idle()
    ensures end == Returns && ip != -1 ==>
              s.Inv() && s.myLocks == {ip} && s.mine == multiset{ip} && s.icache[ip].inum == old(s.icache)[ip].inum
    ensures s.Locks() == old(s.Locks()) && (end == Waits ==> s.Locks() != {})
    ensures end == Panics ==>
              var inum := old(s.icache)[ip0].inum;
              !(inum in old(s.tree) && (old(s.tree)[inum].nlink >= 1 || inum == old(s.icache)[dp].inum))
  {
    hide KeepersOk, FilesCounted, InodesCounted, CacheOk, LocksOk, Theirs, Spare, Sound, Sys.Inv, Shrunk;
    ghost var t0, inum := s.tree, s.icache[ip0].inum;
    end := LetGoDir(s, dp, ip0);
    ghost var t1 := s.tree;
    ShrunkSelf(t0);
    ShrunkStill(t0, t0, t1, inum);
    NotGone(t0, t1, inum);
    end := LockOnly(s, ip0);
    if end != Returns {
      return end, -1;
    }
    StillThere(t0, t1, inum);
    if typ == TFile && s.tree[s.icache[ip0].inum].typ == TFile {
      return Returns, ip0;
    }
    end := LetGoLast(s, ip0);
    ShrunkMore(t0, t1, s.tree);
    return end, -1;
  }

  lemma NotGone(t: Tree, u: Tree, i: nat)
    requires Shrunk(t, u)
    ensures i in t && t[i].nlink != 0 ==> i in u
  {
  }

  lemma StillThere(t: Tree, u: Tree, i: nat)
    requires Shrunk(t, u) && i in u
    ensures i in t && t[i] == u[i]
  {
  }

  /** sys_mkdir and sys_mknod: the inode made is let go at once. */
  method SysMknod(s: Sys, path: seq<Byte>, typ: Type, ninodes: nat) returns (end: End, r: int)
    requires s.Idle() && 0 <= s.cwd < NINODE && |s.icache| == NINODE
    modifies s`icache, s`mine, s`tree, s`myLocks
    ensures end == Returns ==> s.Idle() && (r == 0 || r == -1)
    ensures end == Returns && r == -1 ==>
              Shrunk(old(s.tree), s.tree)
              && CreateFails(old(s.tree), Resolved(old(s.tree), Start(path, old(s.Here())), path, true),
                  LastElement(path), typ)
    ensures end == Returns && r == 0 ==> Resolved(old(s.tree), Start(path, old(s.Here())), path, true).Some?
    ensures end == Returns && r == 0 ==>
              exists inum ::
                CreateResult(old(s.tree), Resolved(old(s.tree), Start(path, old(s.Here())), path, true).value,
                    LastElement(path), typ, inum, s.tree)
    ensures end == Returns && Links(old(s.tree)) ==> Links(s.tree)
    ensures end == Returns && Healthy(old(s.tree)) ==> Healthy(s.tree)
    ensures end == Returns ==> s.Here() == old(s.Here())
    ensures s.Locks() == old(s.Locks()) && (end == Waits ==> s.Locks() != {})
    ensures end == Panics ==> s.Crowded(1) || !Sound(old(s.tree)) || NoneFree(old(s.tree), ninodes)
  {
    hide KeepersOk, FilesCounted, InodesCounted, CacheOk, LocksOk, Theirs, Spare, Sound, Sys.Inv, Created, Resolved,
        LastElement,
        CreateFails, Shrunk, Links, Healthy;
    s.HereIs();
    var ip;
    end, ip := Create(s, path, typ, ninodes);
    r := -1;
    if end != Returns || ip == -1 {
      if end == Returns {
        HealthyShrunk(old(s.tree), s.tree);
        s.HereIs();
      }
      return;
    }
    ghost var t1, inum := s.tree, s.icache[ip].inum;
    SwapHeld(multiset{}, ip, ip);
    end := s.Iunlockput(ip);
    assert s.mine == multiset{};
    assert s.myLocks == {};
    ResultShrunk(old(s.tree), Resolved(old(s.tree), Start(path, old(s.Here())), path, true).value, LastElement(path),
        typ, inum, t1, s.tree);
    HealthyResult(old(s.tree), Resolved(old(s.tree), Start(path, old(s.Here())), path, true).value, LastElement(path),
        typ, inum, s.tree);
    s.HereIs();
    r := 0;
  }

  lemma HealthyResult(t: Tree, d: nat, name: Elem, typ: Type, inum: nat, u: Tree)
    requires CreateResult(t, d, name, typ, inum, u)
    ensures Links(t) ==> Links(u)
    ensures Healthy(t) ==> Healthy(u)
  {
    hide Links, Healthy, Created, Shrunk;
    if name in t[d].entries {
      HealthyShrunk(t, u);
    } else {
      HealthyCreated(t, d, name, inum, typ);
      HealthyShrunk(Created(t, d, name, inum, typ), u);
    }
  }

  lemma ResultShrunk(t0: Tree, d: nat, name: Elem, typ: Type, inum: nat, t1: Tree, t2: Tree)
    requires CreateResult(t0, d, name, typ, inum, t1) && Shrunk(t1, t2)
    ensures CreateResult(t0, d, name, typ, inum, t2)
  {
    hide Created;
  }

  // ---- open ---------------------------------------------------------------------------------------------------------

  /** The locked inode that open is about, or nothing. */
  method OpenInode(s: Sys, path: seq<Byte>, fl: Flags, ninodes: nat) returns (end: End, ip: int)
    requires s.Idle() && 0 <= s.cwd < NINODE && |s.icache| == NINODE
    modifies s`icache, s`mine, s`tree, s`myLocks
    ensures end == Returns ==> |s.icache| == NINODE && -1 <= ip < NINODE
    ensures end == Returns && ip == -1 ==> s.Idle() && Shrunk(old(s.tree), s.tree)
    ensures end == Returns ==> (ip != -1 <==> Opens(old(s.tree), Start(path, old(s.Here())), path, fl))
    ensures end == Returns && !fl.create ==> OnDisk(old(s.tree), Start(path, old(s.Here())), path)
    ensures end == Returns && ip != -1 ==>
              s.Inv() && s.myLocks == {ip} && s.mine == multiset{ip} && s.mineF == multiset{}
    ensures end == Returns && ip != -1 ==>
              Opened(old(s.tree), Start(path, old(s.Here())), path, fl, s.icache[ip].inum, s.tree)
    ensures s.Locks() == old(s.Locks()) && (end == Waits ==> s.Locks() != {})
    ensures end == Panics ==> s.Crowded(1) || !Sound(old(s.tree)) || (fl.create && NoneFree(old(s.tree), ninodes))
  {
    hide KeepersOk, FilesCounted, InodesCounted, CacheOk, LocksOk, Theirs, Spare, Sound, Sys.Inv, Created, Resolved,
        LastElement,
        CreateFails, CreateResult, Shrunk;
    if fl.create {
      ghost var t0 := s.tree;
      ghost var r := Resolved(t0, Start(path, s.Here()), path, true);
      end, ip := Create(s, path, TFile, ninodes);
      if end == Returns && ip != -1 {
        MadeIsNoFailure(t0, r, LastElement(path), TFile, s.icache[ip].inum, s.tree);
      }
    } else {
      end, ip := OpenThere(s, path, fl);
    }
  }

  /** open without O_CREATE: namei, the lock, and no directory for writing. */
  method OpenThere(s: Sys, path: seq<Byte>, fl: Flags) returns (end: End, ip: int)
    requires s.Idle() && 0 <= s.cwd < NINODE && |s.icache| == NINODE
    modifies s`icache, s`mine, s`tree, s`myLocks
    ensures end == Returns ==> |s.icache| == NINODE && -1 <= ip < NINODE && Shrunk(old(s.tree), s.tree)
    ensures end == Returns && ip == -1 ==> s.Idle()
    ensures end == Returns ==>
              var r := Resolved(old(s.tree), Start(path, old(s.Here())), path, false);
              && (ip != -1 <==>
                   r.Some? && r.value in old(s.tree) && (old(s.tree)[r.value].typ == TDir ==> fl.ReadOnly()))
              && (ip != -1 ==> r == Some(s.icache[ip].inum)) && (r.Some? ==> r.value in old(s.tree))
    ensures end == Returns && ip != -1 ==>
              s.Inv() && s.myLocks == {ip} && s.mine == multiset{ip} && s.mineF == multiset{}
    ensures s.Locks() == old(s.Locks()) && (end == Waits ==> s.Locks() != {})
    ensures end == Panics ==> s.Crowded(1) || !Sound(old(s.tree))
  {
    hide KeepersOk, FilesCounted, InodesCounted, CacheOk, LocksOk, Theirs, Spare, Sound, Sys.Inv, Resolved, Shrunk;
    ghost var t0 := s.tree;
    var name;
    end, ip, name := Namex(s, path, false);
    if end != Returns || ip == -1 {
      return;
    }
    SwapHeld(multiset{}, ip, ip);
    end := s.Ilock(ip);
    if end != Returns {
      return;
    }
    s.Sizes();
    assert s.mine == multiset{ip};
    ghost var t1 := s.tree;
    StillThere(t0, t1, s.icache[ip].inum);
    if s.tree[s.icache[ip].inum].typ == TDir && !fl.ReadOnly() {
      end := s.Iunlockput(ip);
      s.Sizes();
      assert s.mine == multiset{};
      ShrunkMore(t0, t1, s.tree);
      ip := -1;
    }
  }

  lemma MadeIsNoFailure(t: Tree, r: Option<nat>, name: Elem, typ: Type, inum: nat, u: Tree)
    requires r.Some? && CreateResult(t, r.value, name, typ, inum, u)
    ensures !CreateFails(t, r, name, typ)
  {
  }

  /** The path does not lead to a free inode: with such a path open does not return. */
  ghost predicate OnDisk(t: Tree, start: nat, path: seq<Byte>) {
    Resolved(t, start, path, false).Some? ==> Resolved(t, start, path, false).value in t
  }

  /** open finds or makes an inode that may be opened with the flags. */
  ghost predicate Opens(t: Tree, start: nat, path: seq<Byte>, fl: Flags) {
    if fl.create then !CreateFails(t, Resolved(t, start, path, true), LastElement(path), TFile)
    else
      var r := Resolved(t, start, path, false);
      r.Some? && r.value in t && (t[r.value].typ == TDir ==> fl.ReadOnly())
  }

  /** The inode opened, and what opening has made of the tree. */
  ghost predicate Opened(t: Tree, start: nat, path: seq<Byte>, fl: Flags, inum: nat, u: Tree) {
    if fl.create then
      var d := Resolved(t, start, path, true);
      d.Some? && CreateResult(t, d.value, LastElement(path), TFile, inum, u)
    else Resolved(t, start, path, false) == Some(inum) && Shrunk(t, u)
  }

  lemma OpenedShrunk(t: Tree, start: nat, path: seq<Byte>, fl: Flags, inum: nat, u: Tree, v: Tree)
    requires Opened(t, start, path, fl, inum, u) && Shrunk(u, v)
    ensures Opened(t, start, path, fl, inum, v)
  {
    hide Created, Resolved, LastElement;
  }

  /** sys_open: the inode's reference passes to the new file, the file's to the descriptor; or all is undone. */
  method SysOpen(s: Sys, path: seq<Byte>, fl: Flags, ninodes: nat) returns (end: End, fd: int)
    requires s.Idle() && 0 <= s.cwd < NINODE && |s.icache| == NINODE
    modifies s
    ensures end == Returns ==>
              s.Idle() && s.cwd == old(s.cwd) && s.othersF == old(s.othersF) && s.others == old(s.others)
    ensures end == Returns ==>
              (fd != -1 <==>
                Opens(old(s.tree), Start(path, old(s.Here())), path, fl) && RoomToOpen(old(s.files), old(s.ofile)))
    ensures end == Returns && !fl.create ==> OnDisk(old(s.tree), Start(path, old(s.Here())), path)
    ensures end == Returns && !Opens(old(s.tree), Start(path, old(s.Here())), path, fl) ==> Shrunk(old(s.tree), s.tree)
    ensures end == Returns && Opens(old(s.tree), Start(path, old(s.Here())), path, fl) ==>
              exists inum :: Opened(old(s.tree), Start(path, old(s.Here())), path, fl, inum, s.tree)
    ensures end == Returns && fd == -1 ==> s.ofile == old(s.ofile)
    ensures end == Returns && fd != -1 ==>
              0 <= fd < |old(s.ofile)| && old(s.ofile)[fd] == -1 && |s.ofile| == |old(s.ofile)|
    ensures end == Returns && fd != -1 ==> forall k :: 0 <= k < fd ==> old(s.ofile)[k] != -1
    ensures end == Returns && fd != -1 ==> s.ofile == old(s.ofile)[fd := s.ofile[fd]] && OpenOn(s, s.ofile[fd], fl)
    ensures end == Returns && fd != -1 ==>
              Opened(old(s.tree), Start(path, old(s.Here())), path, fl, s.icache[s.files[s.ofile[fd]].ip].inum, s.tree)
    ensures end == Returns && Links(old(s.tree)) ==> Links(s.tree)
    ensures end == Returns && Healthy(old(s.tree)) ==> Healthy(s.tree)
    ensures end == Returns ==> s.Here() == old(s.Here())
    ensures end == Returns ==> NamesStay(old(Held(s.files)), s.cwd, s.others, old(s.named), s.named)
    ensures end == Waits ==> old(s.Locks()) != {}
    ensures end == Panics ==> old(s.Crowded(1)) || !Sound(old(s.tree)) || (fl.create && NoneFree(old(s.tree), ninodes))
  {
    hide KeepersOk, FilesCounted, InodesCounted, CacheOk, LocksOk, Theirs, Spare, Sound, Opens, Opened, RoomToOpen,
        OnDisk, Shrunk, Descriptors, Held, Links, Healthy;
    s.Sizes();
    s.HereIs();
    s.NamesHold();
    hide Sys.Inv;
    fd := -1;
    ghost var t0, start := s.tree, Start(path, s.Here());
    var ip;
    end, ip := OpenInode(s, path, fl, ninodes);
    if end != Returns {
      return;
    }
    s.HereIs();
    if ip == -1 {
      HealthyShrunk(t0, s.tree);
      return;
    }
    ghost var t1, inum := s.tree, s.icache[ip].inum;
    end, fd := OpenFile(s, ip, fl);
    OpenedShrunk(t0, start, path, fl, inum, t1, s.tree);
    HealthyOpened(t0, start, path, fl, inum, s.tree);
  }

  lemma HealthyOpened(t: Tree, start: nat, path: seq<Byte>, fl: Flags, inum: nat, u: Tree)
    requires Opened(t, start, path, fl, inum, u)
    ensures Links(t) ==> Links(u)
    ensures Healthy(t) ==> Healthy(u)
  {
    hide Links, Healthy, CreateResult, Shrunk, Resolved, LastElement;
    if fl.create {
      HealthyResult(t, Resolved(t, start, path, true).value, LastElement(path), TFile, inum, u);
    } else {
      HealthyShrunk(t, u);
    }
  }

  /** Whatever was held is still the inode that it was. */
  ghost predicate NamesStay(held: multiset<int>, cwd: int, others: multiset<int>, named: map<int, nat>,
          named2: map<int, nat>) {
    forall k: nat :: k < NINODE && Keeper(held, cwd, others, k) ==>
      k in named && k in named2 && named2[k] == named[k]
  }

  /** A file and a descriptor are free. */
  ghost predicate RoomToOpen(files: seq<File>, ofile: seq<int>) {
    -1 in ofile && exists k: nat :: k < |files| && files[k].ref == 0
  }

  /** filealloc and fdalloc for a locked inode; on success both references move on. */
  method OpenFile(s: Sys, ip: int, fl: Flags) returns (end: End, fd: int)
    requires s.Inv() && |s.icache| == NINODE && |s.ofile| == NOFILE && s.myLocks == {ip} && s.mine == multiset{ip}
             && s.mineF == multiset{} && 0 <= ip < NINODE
    modifies s
    ensures end == Returns && s.Idle() && s.cwd == old(s.cwd) && s.othersF == old(s.othersF)
            && s.others == old(s.others)
    ensures (fd != -1 <==> RoomToOpen(old(s.files), old(s.ofile))) && Shrunk(old(s.tree), s.tree)
    ensures s.Here() == old(s.Here()) && NamesStay(old(Held(s.files)), s.cwd, s.others, old(s.named), s.named)
    ensures fd == -1 ==> s.ofile == old(s.ofile)
    ensures fd != -1 ==>
              0 <= fd < NOFILE && old(s.ofile)[fd] == -1 && |s.ofile| == NOFILE
              && s.ofile == old(s.ofile)[fd := s.ofile[fd]]
    ensures fd != -1 ==> forall k :: 0 <= k < fd ==> old(s.ofile)[k] != -1
    ensures fd != -1 ==>
              OpenOn(s, s.ofile[fd], fl) && s.files[s.ofile[fd]].ip == ip && s.tree == old(s.tree)
              && s.icache[ip].inum == old(s.icache)[ip].inum
  {
    hide KeepersOk, FilesCounted, InodesCounted, CacheOk, LocksOk, Theirs, Spare, Sound, Descriptors, Held, Sys.Inv,
        Shrunk;
    fd := -1;
    s.Sizes();
    s.HereIs();
    s.NamesHold();
    ShrunkSelf(s.tree);
    var f;
    f, fd := TakeFile(s);
    if f == -1 || fd == -1 {
      GiveUp(s, f, ip);
      return Returns, fd;
    }
    Publish(s, f, ip, fl);
    end := Returns;
  }

  /** filealloc, and fdalloc for the file. */
  method TakeFile(s: Sys) returns (f: int, fd: int)
    requires s.Inv() && |s.files| == NFILE && |s.ofile| == NOFILE && s.mineF == multiset{}
    modifies s`files, s`ofile, s`mineF
    ensures s.Inv() && -1 <= f < NFILE && |s.files| == NFILE && |s.ofile| == NOFILE
    ensures f == -1 ==> fd == -1 && s.mineF == multiset{} && s.ofile == old(s.ofile)
    ensures f != -1 ==> s.files[f].kind == FdNone && s.files[f].ref == 1 && 0 <= f < |old(s.files)|
    ensures f != -1 && fd == -1 ==> s.mineF == multiset{f} && s.ofile == old(s.ofile)
    ensures fd != -1 ==>
              0 <= fd < NOFILE && old(s.ofile)[fd] == -1 && s.ofile == old(s.ofile)[fd := f] && s.mineF == multiset{}
    ensures fd != -1 ==> forall k :: 0 <= k < fd ==> old(s.ofile)[k] != -1
    ensures fd != -1 <==> RoomToOpen(old(s.files), old(s.ofile))
    ensures Held(s.files) == Held(old(s.files))
  {
    hide KeepersOk, FilesCounted, InodesCounted, CacheOk, LocksOk, Theirs, Spare, Descriptors, Held, Sys.Inv;
    fd := -1;
    f := s.Filealloc();
    if f != -1 {
      s.Sizes();
      HeldAlike(old(s.files), f);
      assert s.mineF == multiset{} + multiset{f};
      fd := Install(s, f, multiset{});
    }
  }

  lemma HeldAlike(files: seq<File>, f: nat)
    requires f < |files|
    ensures Held(files[f := files[f].(ref := 1)]) == Held(files)
  {
    HeldSame(files, f, files[f].(ref := 1));
  }

  /** sys_open without a descriptor: the file, if there is one, and the inode are let go. */
  method GiveUp(s: Sys, f: int, ip: int)
    requires s.Inv() && |s.icache| == NINODE && s.myLocks == {ip} && s.mine == multiset{ip} && 0 <= ip < NINODE
    requires -1 <= f < NFILE && |s.files| == NFILE && s.mineF == if f == -1 then multiset{} else multiset{f}
    requires f != -1 ==> s.files[f].kind == FdNone
    modifies s
    ensures s.Idle() && s.cwd == old(s.cwd) && s.othersF == old(s.othersF) && s.others == old(s.others)
    ensures s.ofile == old(s.ofile) && s.named == old(s.named) && Shrunk(old(s.tree), s.tree)
    ensures s.Here() == old(s.Here())
  {
    hide KeepersOk, FilesCounted, InodesCounted, CacheOk, LocksOk, Theirs, Spare, Sound, Descriptors, Held, Sys.Inv,
        Shrunk;
    s.HereIs();
    ShrunkSelf(s.tree);
    if f != -1 {
      assert s.mineF == multiset{} + multiset{f};
      CloseOne(s, f, multiset{});
      s.Sizes();
    }
    var end := LetGoLast(s, ip);
    s.HereIs();
  }

  /** The last lines of sys_open: the file gets the inode. */
  method Publish(s: Sys, f: int, ip: int, fl: Flags)
    requires s.Inv() && |s.icache| == NINODE && s.myLocks == {ip} && s.mine == multiset{ip} && 0 <= ip < NINODE
    requires 0 <= f < NFILE && |s.files| == NFILE && s.files[f].kind == FdNone && s.files[f].ref == 1
    modifies s`icache, s`myLocks, s`files, s`mine, s`named
    ensures s.Inv() && s.myLocks == {} && s.mine == multiset{} && OpenOn(s, f, fl) && s.files[f].ip == ip
            && |s.icache| == NINODE
    ensures s.icache[ip].inum == old(s.icache)[ip].inum && s.Here() == old(s.Here())
    ensures |old(s.icache)| == NINODE && s.named == old(s.named)[ip := old(s.icache)[ip].inum]
  {
    hide KeepersOk, FilesCounted, InodesCounted, CacheOk, LocksOk, Theirs, Spare, Sound, Descriptors, Held, Sys.Inv;
    s.Sizes();
    s.Iunlock(ip);
    s.Sizes();
    SetFile(s, f, File(1, FdInode, ip, !fl.wronly, fl.wronly || fl.rdwr));
    assert s.mine == multiset{};
  }

  predicate OpenOn(s: Sys, f: int, fl: Flags)
    reads s
  {
    0 <= f < |s.files| && s.files[f].ref == 1 && s.files[f].kind == FdInode && 0 <= s.files[f].ip < |s.icache|
    && s.files[f].readable == !fl.wronly && s.files[f].writable == (fl.wronly || fl.rdwr)
  }
}
