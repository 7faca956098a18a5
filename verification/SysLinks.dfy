/**
 sys_link, sys_unlink and sys_chdir of sysfile.c, and what fork and exit do to the references.
 */
module SysLinks {
  import opened Bytes
  import opened Options
  import opened Counting
  import opened FsPath
  import opened FsLinks
  import opened SysRefs
  import opened Sysfile
  import opened SysCalls
  import opened SysPaths

  // ---- chdir ---------------------------------------------------------------------------------------------------

  /** The working directory changes hands: the old one's reference is the call's, the new one's is not. */
  lemma CwdSwap(icache: seq<Cached>, held: multiset<int>, cwd: int, ip: int, myLocks: set<int>, others: multiset<int>)
    requires InodesCounted(icache, held, cwd, others, multiset{ip}) && LocksOk(icache, myLocks, others, multiset{ip})
             && myLocks == {}
    requires 0 <= ip < NINODE && 0 <= cwd
    ensures InodesCounted(icache, held, ip, others, multiset{cwd}) && LocksOk(icache, myLocks, others, multiset{cwd})
  {
  }

  /** sys_chdir. The new directory is stored before the old one's iput here, after it in the source. */
  method SysChdir(s: Sys, path: seq<Byte>) returns (end: End, r: int)
    requires s.Idle() && 0 <= s.cwd < NINODE && |s.icache| == NINODE
    modifies s`icache, s`mine, s`tree, s`myLocks, s`cwd, s`named
    ensures end == Returns ==>
              s.Idle() && |s.icache| == NINODE && 0 <= s.cwd < NINODE && Shrunk(old(s.tree), s.tree)
              && (r == 0 || r == -1)
    ensures end == Returns && r == -1 ==> s.cwd == old(s.cwd)
    ensures end == Returns ==> var found := Resolved(old(s.tree), Start(path, old(s.Here())), path, false);
                               && (r == 0 <==> found.Some? && IsDir(old(s.tree), found.value))
                               && (r == 0 ==> found == Some(s.Here()))
    ensures end == Returns && Links(old(s.tree)) ==> Links(s.tree)
    ensures end == Returns && Healthy(old(s.tree)) ==> Healthy(s.tree)
    ensures s.Locks() == old(s.Locks()) && (end == Waits ==> s.Locks() != {})
    ensures end == Panics ==> old(s.Crowded(1)) || !Sound(old(s.tree))
  {
    hide KeepersOk, FilesCounted, InodesCounted, CacheOk, LocksOk, Theirs, Spare, Sound, Sys.Inv, Resolved, Shrunk,
        Links, Healthy;
    r := -1;
    ghost var t0 := s.tree;
    var ip, name;
    end, ip, name := Namex(s, path, false);
    if end != Returns {
      return;
    }
    HealthyShrunk(t0, s.tree);
    if ip == -1 {
      return;
    }
    ghost var t1, inum := s.tree, s.icache[ip].inum;
    assert s.mine == multiset{ip};
    end := LockOnly(s, ip);
    if end != Returns {
      return;
    }
    StillThere(t0, t1, inum);
    if s.tree[s.icache[ip].inum].typ != TDir {
      end := LetGoLast(s, ip);
      HealthyShrunk(t1, s.tree);
      ShrunkMore(t0, t1, s.tree);
      return;
    }
    s.Iunlock(ip);
    s.Sizes();
    end := SwapCwd(s, ip);
    HealthyShrunk(t1, s.tree);
    ShrunkMore(t0, t1, s.tree);
    r := 0;
  }

  /** `iput(proc->cwd); proc->cwd = ip`. */
  method SwapCwd(s: Sys, ip: int) returns (end: End)
    requires s.Inv() && |s.icache| == NINODE && s.myLocks == {} && s.mine == multiset{ip} && 0 <= ip < NINODE
             && 0 <= s.cwd < NINODE
    requires s.icache[ip].inum in s.tree
    modifies s`icache, s`mine, s`tree, s`cwd, s`named
    ensures end == Returns && s.Inv() && |s.icache| == NINODE && s.mine == multiset{} && s.cwd == ip
            && Shrunk(old(s.tree), s.tree)
    ensures s.icache[ip].inum == old(s.icache)[ip].inum
    ensures s.Locks() == old(s.Locks())
  {
    hide KeepersOk, FilesCounted, InodesCounted, CacheOk, LocksOk, Theirs, Spare, Sound, Held;
    CwdSwap(s.icache, Held(s.files), s.cwd, ip, s.myLocks, s.others);
    NewKeeper(s.icache, Held(s.files), Held(s.files), s.cwd, ip, s.others, s.named, ip);
    s.named := s.named[ip := s.icache[ip].inum];
    var was := s.cwd;
    s.cwd := ip;
    s.mine := multiset{was};
    end := s.Iput(was);
    s.Sizes();
    assert s.mine == multiset{};
  }

  // ---- the first process ----------------------------------------------------------------------------------------

  const ROOTPATH: seq<Byte> := [SLASH]

  lemma CwdTaken(icache: seq<Cached>, held: multiset<int>, ip: int, myLocks: set<int>, others: multiset<int>)
    requires InodesCounted(icache, held, -1, others, multiset{ip}) && LocksOk(icache, myLocks, others, multiset{ip})
    requires 0 <= ip < NINODE && myLocks == {}
    ensures InodesCounted(icache, held, ip, others, multiset{}) && LocksOk(icache, myLocks, others, multiset{})
  {
  }

  /** userinit's `p->cwd = namei("/")`: from here on a process has a working directory. */
  method Userinit(s: Sys) returns (end: End)
    requires s.Idle() && s.cwd == -1 && |s.icache| == NINODE && ROOTINO in s.tree
    modifies s`icache, s`mine, s`tree, s`myLocks, s`cwd, s`named
    ensures s.Locks() == old(s.Locks()) && end != Waits
    ensures end == Panics ==> old(s.Crowded(1))
    ensures end == Returns ==>
              s.Idle() && |s.icache| == NINODE && 0 <= s.cwd < NINODE && s.Here() == ROOTINO
              && Shrunk(old(s.tree), s.tree)
  {
    hide KeepersOk, FilesCounted, InodesCounted, CacheOk, LocksOk, Theirs, Spare, Sound, Shrunk, Held;
    var ip, name;
    NoElementsInRoot();
    end, ip, name := Namex(s, ROOTPATH, false);
    if end == Returns {
      assert s.mine == multiset{} + multiset{ip};
      assert s.mine == multiset{ip};
      CwdTaken(s.icache, Held(s.files), ip, s.myLocks, s.others);
      NewKeeper(s.icache, Held(s.files), Held(s.files), -1, ip, s.others, s.named, ip);
      s.named := s.named[ip := s.icache[ip].inum];
      s.cwd := ip;
      s.mine := multiset{};
    }
  }

  lemma NoElementsInRoot()
    ensures Elements(ROOTPATH) == []
  {
    SkipelemIsHead(ROOTPATH);
  }

  /** From an empty table to the first process. */
  method Boot(tree: Tree) returns (s: Sys)
    requires ROOTINO in tree
    ensures fresh(s) && s.Idle() && |s.icache| == NINODE && 0 <= s.cwd < NINODE && s.Here() == ROOTINO
            && s.Locks() == {} && Shrunk(tree, s.tree)
    ensures s.Alone() && forall fd: nat :: fd < |s.ofile| ==> s.ofile[fd] == -1
  {
    s := new Sys(tree);
    s.Sizes();
    AllSpare(s);
    var end := Userinit(s);
  }

  lemma AllSpare(s: Sys)
    requires s.Inv() && s.cwd == -1 && forall k: nat :: k < |s.icache| ==> s.icache[k].ref == 0
    ensures !s.Crowded(1)
  {
    var spare := Spare(Held(s.files), s.cwd, s.others);
    assert 0 in spare && 1 in spare;
    SubsetSize({0, 1}, spare);
  }

  // ---- link -------------------------------------------------------------------------------------------------------

  predicate Linkable(t: Tree, r: Option<nat>) {
    r.Some? && r.value in t && t[r.value].typ != TDir
  }

  predicate MayEnter(t: Tree, r: Option<nat>, name: Elem) {
    r.Some? && IsDir(t, r.value) && name !in t[r.value].entries
  }

  /**
   sys_link. The link is counted before the new name is looked up, in t1, and uncounted again when the
   name cannot be entered.
   */
  method SysLink(s: Sys, path: seq<Byte>, new_: seq<Byte>) returns (end: End, r: int, ghost t1: Tree)
    requires s.Idle() && 0 <= s.cwd < NINODE && |s.icache| == NINODE
    modifies s`icache, s`mine, s`tree, s`myLocks
    ensures end == Returns ==> s.Idle() && (r == 0 || r == -1)
    ensures end == Returns ==> var found := Resolved(old(s.tree), Start(path, old(s.Here())), path, false);
                               var dir := Resolved(t1, Start(new_, old(s.Here())), new_, true);
                               && (r == 0 <==> Linkable(old(s.tree), found) && MayEnter(t1, dir, LastElement(new_)))
                               && (Linkable(old(s.tree), found) ==> Shrunk(Relinked(old(s.tree), found.value, 1), t1))
                               && Shrunk(if r == 0 then Entered(t1, dir.value, LastElement(new_), found.value)
                                         else old(s.tree), s.tree)
    ensures end == Returns && Links(old(s.tree)) ==> Links(s.tree)
    ensures end == Returns && Healthy(old(s.tree)) ==> Healthy(s.tree)
    ensures end == Returns ==> s.Here() == old(s.Here())
    ensures s.Locks() == old(s.Locks()) && (end == Waits ==> s.Locks() != {})
    ensures end == Panics ==> s.Crowded(2) || !Sound(old(s.tree))
  {
    hide KeepersOk, FilesCounted, InodesCounted, CacheOk, LocksOk, Sound, Sys.Inv, Resolved, Shrunk, Relinked, Entered,
        Elements, Links, Healthy, LastElement;
    s.HereIs();
    ghost var t0, here := s.tree, s.Here();
    end, r, t1 := LinkCall(s, path, new_);
    if end == Returns {
      s.HereIs();
      if r == 0 {
        HealthyLinked(t0, Resolved(t0, Start(path, here), path, false).value, t1,
            Resolved(t1, Start(new_, here), new_, true).value, LastElement(new_), s.tree);
      } else {
        HealthyShrunk(t0, s.tree);
      }
    }
  }

  lemma HealthyLinked(t: Tree, i: nat, t1: Tree, d: nat, name: Elem, u: Tree)
    requires i in t && t[i].typ != TDir && Shrunk(Relinked(t, i, 1), t1)
    requires IsDir(t1, d) && name !in t1[d].entries && Shrunk(Entered(t1, d, name, i), u)
    ensures Links(t) ==> Links(u)
    ensures Healthy(t) ==> Healthy(u)
  {
    hide Links, Healthy;
    assert IsDir(t, d) && t[d] == t1[d];
    HealthyEntered(t, i, d, name);
    EnteredShrunk(Relinked(t, i, 1), t1, d, name, i, u);
    HealthyShrunk(Entered(Relinked(t, i, 1), d, name, i), u);
  }

  /** sys_link, without what it keeps of the whole tree. */
  method LinkCall(s: Sys, path: seq<Byte>, new_: seq<Byte>) returns (end: End, r: int, ghost t1: Tree)
    requires s.Idle() && 0 <= s.cwd < NINODE && |s.icache| == NINODE
    modifies s`icache, s`mine, s`tree, s`myLocks
    ensures end == Returns ==> s.Idle() && (r == 0 || r == -1)
    ensures end == Returns ==> var found := Resolved(old(s.tree), Start(path, old(s.Here())), path, false);
                               var dir := Resolved(t1, Start(new_, old(s.Here())), new_, true);
                               && (r == 0 <==> Linkable(old(s.tree), found) && MayEnter(t1, dir, LastElement(new_)))
                               && (Linkable(old(s.tree), found) ==> Shrunk(Relinked(old(s.tree), found.value, 1), t1))
                               && Shrunk(if r == 0 then Entered(t1, dir.value, LastElement(new_), found.value)
                                         else old(s.tree), s.tree)
    ensures s.Locks() == old(s.Locks()) && (end == Waits ==> s.Locks() != {})
    ensures end == Panics ==> s.Crowded(2) || !Sound(old(s.tree))
  {
    hide KeepersOk, FilesCounted, InodesCounted, CacheOk, LocksOk, Theirs, Spare, Sound, Sys.Inv, Resolved, Shrunk,
        Relinked,
        Entered, Elements, Uncounted, SlotsKept;
    r, t1 := -1, map[];
    ghost var t0 := s.tree;
    var ip, name;
    end, ip, name := Namex(s, path, false);
    if end != Returns || ip == -1 {
      return;
    }
    ghost var ta, i := s.tree, s.icache[ip].inum;
    assert s.mine == multiset{ip};
    end := LockOnly(s, ip);
    if end != Returns {
      return;
    }
    StillThere(t0, ta, i);
    if s.tree[s.icache[ip].inum].typ == TDir {
      end := LetGoLast(s, ip);
      ShrunkMore(t0, ta, s.tree);
      return;
    }
    CountLink(s, ip, 1);
    RelinkedShrunk(t0, ta, i, 1);
    SoundRelinked(t0, ta, i);
    t1 := s.tree;
    end, r := EnterLink(s, ip, i, new_);
    if end == Returns && r == -1 {
      UndoneLink(t0, t1, i, s.tree);
    }
  }

  /** `ip->nlink++` or `--`, iupdate and iunlock. */
  method CountLink(s: Sys, ip: int, d: int)
    requires s.Inv() && |s.icache| == NINODE && s.myLocks == {ip} && s.mine == multiset{ip} && 0 <= ip < NINODE
             && s.icache[ip].inum in s.tree
    modifies s`icache, s`tree, s`myLocks
    ensures s.Inv() && |s.icache| == NINODE && s.myLocks == {}
            && s.tree == Relinked(old(s.tree), old(s.icache)[ip].inum, d)
    ensures s.icache[ip].inum == old(s.icache)[ip].inum && s.Here() == old(s.Here())
    ensures s.Locks() == old(s.Locks())
    ensures s.icache[ip].valid
  {
    hide KeepersOk, FilesCounted, InodesCounted, CacheOk, LocksOk, Theirs, Spare, Sound, Sys.Inv;
    s.Locked(ip);
    SetNode(s, s.icache[ip].inum, s.tree[s.icache[ip].inum].(nlink := s.tree[s.icache[ip].inum].nlink + d));
    s.Iunlock(ip);
    s.Sizes();
  }

  lemma RelinkedShrunk(t: Tree, u: Tree, i: nat, d: int)
    requires Shrunk(t, u) && i in u
    ensures Shrunk(Relinked(t, i, d), Relinked(u, i, d))
  {
  }

  lemma SoundRelinked(t: Tree, u: Tree, i: nat)
    requires Shrunk(t, u)
    ensures Sound(t) ==> Sound(Relinked(u, i, 1))
  {
    if Sound(t) {
      SoundShrunk(t, u);
      var v := Relinked(u, i, 1);
      forall d, name | IsEntry(v, d, name)
        ensures SoundAt(v, d, name)
      {
        assert IsEntry(u, d, name) && SoundAt(u, d, name);
      }
    }
  }

  /** The tree after the count was taken back: nothing has changed but what is gone for good. */
  lemma UndoneLink(t0: Tree, t1: Tree, i: nat, u: Tree)
    requires Shrunk(Relinked(t0, i, 1), t1) && i in t0 && Uncounted(t1, i, u)
    ensures Shrunk(t0, u)
  {
    hide Shrunk, Relinked;
    var v :| Shrunk(t1, v) && i in v && Shrunk(Relinked(v, i, -1), u);
    ShrunkMore(Relinked(t0, i, 1), t1, v);
    RelinkedShrunk(Relinked(t0, i, 1), v, i, -1);
    RelinkedBack(t0, i);
    ShrunkMore(t0, Relinked(v, i, -1), u);
  }

  lemma RelinkedBack(t: Tree, i: nat)
    ensures Relinked(Relinked(t, i, 1), i, -1) == t
  {
  }

  lemma InumsHold(c: seq<Cached>, c2: seq<Cached>, ip: int)
    requires SlotsKept(c, c2, multiset{ip}) && 0 <= ip < |c|
    ensures c2[ip].inum == c[ip].inum && (c[ip].valid ==> c2[ip].valid)
  {
  }

  /** sys_link from nameiparent on. */
  method EnterLink(s: Sys, ip: int, ghost i: nat, path: seq<Byte>) returns (end: End, r: int)
    requires s.Inv() && |s.icache| == NINODE && s.myLocks == {} && s.mine == multiset{ip} && 0 <= ip < NINODE
             && s.icache[ip].inum == i && 0 <= s.cwd < NINODE
    requires s.icache[ip].valid
    modifies s`icache, s`mine, s`tree, s`myLocks
    ensures end == Returns ==> s.Inv() && s.mine == multiset{} && s.myLocks == {} && (r == 0 || r == -1)
    ensures end == Returns ==> var dir := Resolved(old(s.tree), Start(path, old(s.Here())), path, true);
                               && (r == 0 <==> MayEnter(old(s.tree), dir, LastElement(path)))
                               && (r == 0 ==> Shrunk(Entered(old(s.tree), dir.value, LastElement(path), i), s.tree))
    ensures end == Returns && r == -1 ==> Uncounted(old(s.tree), i, s.tree)
    ensures s.Locks() == old(s.Locks()) && (end == Waits ==> s.Locks() != {})
    ensures end == Panics ==> s.Crowded(2) || !Sound(old(s.tree))
  {
    hide KeepersOk, FilesCounted, InodesCounted, CacheOk, LocksOk, Theirs, Spare, Sound, Sys.Inv, Resolved, Shrunk,
        Relinked,
        Entered, Elements, Uncounted, SlotsKept;
    r := -1;
    ghost var t1 := s.tree;
    var dp, name;
    end, dp, name := Namex(s, path, true);
    if end != Returns {
      return;
    }
    ghost var t2 := s.tree;
    if dp == -1 {
      InumsHold(old(s.icache), s.icache, ip);
      end := Bad(s, ip);
      if end == Returns {
        UncountedMore(t1, t2, i, s.tree);
      }
      return;
    }
    InumsHold(old(s.icache), s.icache, ip);
    ParentIsDir(t1, Start(path, old(s.Here())), path);
    end := LockSecondDir(s, dp, ip);
    if end != Returns {
      return;
    }
    StillThere(t1, t2, s.icache[dp].inum);
    end, r := LinkIn(s, dp, ip, name);
    if end == Returns {
      if r == -1 {
        UncountedMore(t1, t2, i, s.tree);
      } else {
        EnteredShrunk(t1, t2, Resolved(t1, Start(path, old(s.Here())), path, true).value, name, i, s.tree);
      }
    }
  }

  /** A second reference, to a directory, is locked. */
  method LockSecondDir(s: Sys, dp: int, ip: int) returns (end: End)
    requires s.Inv() && |s.icache| == NINODE && s.myLocks == {} && s.mine == multiset{ip} + multiset{dp}
             && 0 <= dp < NINODE && 0 <= ip < NINODE
    modifies s`icache, s`myLocks
    ensures end == Returns ==>
              s.Inv() && |s.icache| == NINODE && s.myLocks == {dp} && s.mine == multiset{dp} + multiset{ip}
              && s.icache[dp].inum in s.tree
    ensures end == Returns ==>
              s.icache[dp].inum == old(s.icache)[dp].inum && s.icache[ip].inum == old(s.icache)[ip].inum
    ensures s.Locks() == old(s.Locks()) && (end == Waits ==> s.Locks() != {})
    ensures end == Panics ==> old(s.icache)[dp].inum !in s.tree
    ensures end == Returns && old(s.icache)[ip].valid ==> s.icache[ip].valid
  {
    hide KeepersOk, FilesCounted, InodesCounted, CacheOk, LocksOk, Theirs, Spare, Sound, Sys.Inv;
    end := s.Ilock(dp);
    if end == Returns {
      s.Sizes();
    }
  }

  /** dirlink, and then both inodes are let go; or the directory is, and the link uncounted. */
  method LinkIn(s: Sys, dp: int, ip: int, name: Elem) returns (end: End, r: int)
    requires s.Inv() && |s.icache| == NINODE && s.myLocks == {dp} && s.mine == multiset{dp} + multiset{ip}
             && 0 <= dp < NINODE && 0 <= ip < NINODE
    requires IsDir(s.tree, s.icache[dp].inum) && s.icache[ip].valid
    modifies s`icache, s`mine, s`tree, s`myLocks
    ensures end == Returns ==> s.Inv() && s.mine == multiset{} && s.myLocks == {}
    ensures end == Returns ==> r == if name in old(s.tree)[old(s.icache)[dp].inum].entries then -1 else 0
    ensures end == Returns && r == 0 ==>
              Shrunk(Entered(old(s.tree), old(s.icache)[dp].inum, name, old(s.icache)[ip].inum), s.tree)
    ensures end == Returns && r == -1 ==> Uncounted(old(s.tree), old(s.icache)[ip].inum, s.tree)
    ensures s.Locks() == old(s.Locks()) && (end == Waits ==> s.Locks() != {})
    ensures end == Panics ==> s.Crowded(2)
  {
    hide KeepersOk, FilesCounted, InodesCounted, CacheOk, LocksOk, HereOk, Theirs, Spare, Sound, Sys.Inv, Shrunk,
        Entered,
        Relinked, Uncounted, SlotsKept;
    ghost var t0, i := s.tree, s.icache[ip].inum;
    s.CwdInUse();
    end, r := Dirlink(s, dp, name, s.icache[ip].inum);
    if end != Returns {
      return;
    }
    ghost var t1 := s.tree;
    InumsHold2(old(s.icache), s.icache, dp, ip);
    end := LetGoDir(s, dp, ip);
    ghost var t2 := s.tree;
    ShrunkSelf(t2);
    assert s.mine == multiset{} + multiset{ip};
    if r < 0 {
      ShrunkMore(t0, t1, t2);
      end := Bad(s, ip);
      if end == Returns {
        UncountedMore(t0, t2, i, s.tree);
      }
      return;
    }
    SwapHeld(multiset{}, ip, ip);
    end := Drop(s, ip, t2, multiset{});
    ShrunkMore(t1, t2, s.tree);
  }

  lemma InumsHold2(c: seq<Cached>, c2: seq<Cached>, dp: int, ip: int)
    requires SlotsKept(c, c2, multiset{dp} + multiset{ip}) && 0 <= ip < |c|
    ensures c2[ip].inum == c[ip].inum && (c[ip].valid ==> c2[ip].valid)
  {
    assert ip in multiset{dp} + multiset{ip};
  }

  /** Some inodes have gone, inode i has lost a link, and then more have gone. */
  ghost predicate Uncounted(t: Tree, i: nat, u: Tree) {
    i in t && exists v :: Shrunk(t, v) && i in v && Shrunk(Relinked(v, i, -1), u)
  }

  lemma UncountedMore(t: Tree, u: Tree, i: nat, w: Tree)
    requires Shrunk(t, u) && Uncounted(u, i, w)
    ensures Uncounted(t, i, w)
  {
    var v :| Shrunk(u, v) && i in v && Shrunk(Relinked(v, i, -1), w);
    ShrunkMore(t, u, v);
  }

  /** sys_link's bad: the count goes back. */
  method Bad(s: Sys, ip: int) returns (end: End)
    requires s.Inv() && |s.icache| == NINODE && s.myLocks == {} && s.mine == multiset{ip} && 0 <= ip < NINODE
             && s.icache[ip].valid
    modifies s`icache, s`mine, s`tree, s`myLocks
    ensures end == Returns ==>
              s.Inv() && s.mine == multiset{} && s.myLocks == {}
              && Uncounted(old(s.tree), old(s.icache)[ip].inum, s.tree)
    ensures s.Locks() == old(s.Locks()) && (end == Waits ==> s.Locks() != {})
    ensures end != Panics
  {
    hide KeepersOk, FilesCounted, InodesCounted, CacheOk, LocksOk, Theirs, Spare, Sound, Sys.Inv, Shrunk;
    ghost var t0, i := s.tree, s.icache[ip].inum;
    end := LockOnly(s, ip);
    if end != Returns {
      return;
    }
    SetNode(s, s.icache[ip].inum, s.tree[s.icache[ip].inum].(nlink := s.tree[s.icache[ip].inum].nlink - 1));
    ghost var t1 := s.tree;
    end := LetGoLast(s, ip);
    ShrunkSelf(t0);
    assert Shrunk(t0, t0) && i in t0 && Shrunk(Relinked(t0, i, -1), s.tree);
  }

  lemma EnteredShrunk(t: Tree, u: Tree, d: nat, name: Elem, i: nat, w: Tree)
    requires Shrunk(t, u) && d in u && Shrunk(Entered(u, d, name, i), w)
    ensures Shrunk(Entered(t, d, name, i), w)
  {
    ShrunkUpdate(t, u, d, u[d].(entries := u[d].entries[name := i]));
    ShrunkMore(Entered(t, d, name, i), Entered(u, d, name, i), w);
  }

  // ---- unlink ---------------------------------------------------------------------------------------------------

  /** A directory that has itself under a name other than "." and "..". */
  predicate SelfNamed(t: Tree, d: Option<nat>, name: Elem) {
    d.Some? && IsDir(t, d.value) && Proper(name) && name in t[d.value].entries && t[d.value].entries[name] == d.value
  }

  /** sys_unlink. */
  method SysUnlink(s: Sys, path: seq<Byte>) returns (end: End, r: int)
    requires s.Idle() && 0 <= s.cwd < NINODE && |s.icache| == NINODE
    modifies s`icache, s`mine, s`tree, s`myLocks
    ensures end == Returns ==> s.Idle() && (r == 0 || r == -1)
    ensures end == Returns ==> var found := Resolved(old(s.tree), Start(path, old(s.Here())), path, true);
                               && (r == 0 <==> found.Some? && MayUnlink(old(s.tree), found.value, LastElement(path)))
                               && Shrunk(if r == 0 then Unlinked(old(s.tree), found.value, LastElement(path))
                                         else old(s.tree), s.tree)
    ensures end == Returns && r == 0 ==>
              var d := Resolved(old(s.tree), Start(path, old(s.Here())), path, true).value;
              && TargetGoes(old(s.tree), d, LastElement(path), s.Kept(), s.tree)
              && (Healthy(old(s.tree)) ==>
                   (Healthy(s.tree) <==> !LeavesAstray(old(s.tree), d, LastElement(path), s.tree)))
    ensures end == Returns && Links(old(s.tree)) ==> Links(s.tree)
    ensures end == Returns && r == -1 && Healthy(old(s.tree)) ==> Healthy(s.tree)
    ensures end == Returns ==> s.Here() == old(s.Here())
    ensures s.Locks() == old(s.Locks())
    ensures end == Waits ==>
              s.Locks() != {}
              || SelfNamed(old(s.tree), Resolved(old(s.tree), Start(path, old(s.Here())), path, true),
                  LastElement(path))
    ensures SelfNamed(old(s.tree), Resolved(old(s.tree), Start(path, old(s.Here())), path, true), LastElement(path)) ==>
              end == Waits || end == Panics
    ensures end == Panics ==> s.Crowded(1) || !Sound(old(s.tree))
  {
    hide KeepersOk, FilesCounted, InodesCounted, CacheOk, LocksOk, Theirs, Spare, Sound, Sys.Inv, Resolved, Elements,
        Unlinked, Shrunk, Links, Healthy, LeavesAstray;
    s.HereIs();
    r := -1;
    ghost var t0 := s.tree;
    var dp, name;
    end, dp, name := LockParent(s, path);
    if end != Returns {
      return;
    }
    if dp == -1 {
      s.HereIs();
      HealthyShrunk(t0, s.tree);
      return;
    }
    ghost var t1, d := s.tree, s.icache[dp].inum;
    StillThere(t0, t1, d);
    NoneFreeShrunk(t0, t1, 0);
    end, r := UnlinkFrom(s, dp, name);
    if end == Returns {
      s.HereIs();
      UnlinkedShrunk(t0, t1, d, name);
      ShrunkMore(if r == 0 then Unlinked(t0, d, name) else t0, if r == 0 then Unlinked(t1, d, name) else t1, s.tree);
      if r == 0 {
        GoesShrunk(t0, t1, d, name, s.Kept(), s.tree);
        HealthyUnlinked(t0, d, name, s.tree);
      } else {
        HealthyShrunk(t0, s.tree);
      }
    }
  }

  /** The inode unlinked goes exactly with its last link, and when nobody has it open or is in it. */
  ghost predicate TargetGoes(t: Tree, d: nat, name: Elem, kept: set<nat>, u: Tree) {
    MayUnlink(t, d, name) &&
    var i := Target(t, d, name);
    i !in u <==> t[i].nlink == 1 && i !in kept
  }

  lemma GoesShrunk(t: Tree, t1: Tree, d: nat, name: Elem, kept: set<nat>, u: Tree)
    requires Shrunk(t, t1) && TargetGoes(t1, d, name, kept, u)
    ensures TargetGoes(t, d, name, kept, u)
  {
  }

  /** sys_unlink in the locked directory. */
  method UnlinkFrom(s: Sys, dp: int, name: Elem) returns (end: End, r: int)
    requires HoldsDir(s, dp)
    modifies s`icache, s`mine, s`tree, s`myLocks
    ensures end == Returns ==> s.Inv() && s.mine == multiset{} && s.myLocks == {} && (r == 0 || r == -1)
    ensures end == Returns ==> var d := old(s.icache)[dp].inum;
                               && (r == 0 <==> MayUnlink(old(s.tree), d, name)) && NamesAnInode(old(s.tree), d, name)
                               && Shrunk(if r == 0 then Unlinked(old(s.tree), d, name) else old(s.tree), s.tree)
                               && (r == 0 ==> TargetGoes(old(s.tree), d, name, s.Kept(), s.tree))
    ensures s.Locks() == old(s.Locks())
    ensures end == Waits ==> s.Locks() != {} || SelfNamed(old(s.tree), Some(old(s.icache)[dp].inum), name)
    ensures SelfNamed(old(s.tree), Some(old(s.icache)[dp].inum), name) ==> end == Waits
    ensures end == Panics ==> s.Crowded(1) || !Sound(old(s.tree))
  {
    hide KeepersOk, FilesCounted, InodesCounted, CacheOk, LocksOk, HereOk, Theirs, Spare, Sound, Sys.Inv, Unlinked,
        Shrunk,
        SlotsKept, Bare;
    r := -1;
    ghost var t0, d := s.tree, s.icache[dp].inum;
    ShrunkSelf(t0);
    if !Proper(name) {
      end := LetGoLast(s, dp);
      return;
    }
    var ip;
    s.InUse(dp);
    end, ip := Dirlookup(s, dp, name);
    if end != Returns {
      return;
    }
    if ip == -1 {
      end := LetGoLast(s, dp);
      return;
    }
    if SelfNamed(t0, Some(d), name) {
      s.OneSlot(dp, ip);
    }
    SoundEntry(t0, t0, d, name);
    end, r := UnlinkIn(s, dp, ip, name);
  }

  /** A failure that returns has not met an entry for a free inode. */
  predicate NamesAnInode(t: Tree, d: nat, name: Elem) {
    IsDir(t, d) && (name in t[d].entries && Proper(name) ==> t[d].entries[name] in t)
  }

  /** sys_unlink from the lock on the inode found. */
  method UnlinkIn(s: Sys, dp: int, ip: int, name: Elem) returns (end: End, r: int)
    requires s.Inv() && |s.icache| == NINODE && s.myLocks == {dp} && s.mine == multiset{dp} + multiset{ip}
             && 0 <= dp < NINODE && 0 <= ip < NINODE
    requires IsDir(s.tree, s.icache[dp].inum) && name in s.tree[s.icache[dp].inum].entries && Proper(name)
             && s.icache[ip].inum == s.tree[s.icache[dp].inum].entries[name]
    modifies s`icache, s`mine, s`tree, s`myLocks
    ensures end == Returns ==>
              s.Inv() && s.mine == multiset{} && s.myLocks == {} && (r == 0 || r == -1)
              && old(s.icache)[ip].inum in old(s.tree)
    ensures end == Returns ==>
              (r == 0 <==> (IsDir(old(s.tree), old(s.icache)[ip].inum) ==> Bare(old(s.tree)[old(s.icache)[ip].inum])))
    ensures end == Returns ==>
              Shrunk(if r == 0 then Unlinked(old(s.tree), old(s.icache)[dp].inum, name) else old(s.tree), s.tree)
    ensures end == Returns && r == 0 ==>
              TargetGoes(old(s.tree), old(s.icache)[dp].inum, name, s.Kept(), s.tree)
    ensures s.Locks() == old(s.Locks()) && (end == Waits ==> s.Locks() != {} || ip == dp) && (ip == dp ==> end == Waits)
    ensures end == Panics ==> !(old(s.icache)[ip].inum in old(s.tree) && old(s.tree)[old(s.icache)[ip].inum].nlink >= 1)
  {
    hide KeepersOk, FilesCounted, InodesCounted, CacheOk, LocksOk, Theirs, Spare, Sound, Sys.Inv, Shrunk, Bare,
        TargetGoes, Unlinked;
    ghost var t0, d, inum := s.tree, s.icache[dp].inum, s.icache[ip].inum;
    r := -1;
    end := LockSecond(s, dp, ip);
    if end != Returns {
      return;
    }
    var n := s.tree[s.icache[ip].inum];
    if n.nlink < 1 {
      return Panics, -1;
    }
    if n.typ == TDir && !Bare(n) {
      end := LetGoTwo(s, ip, dp);
      return;
    }
    EraseName(s, dp, ip, name);
    return Returns, 0;
  }

  /** The entry is erased, the links counted down, and both inodes let go. */
  method EraseName(s: Sys, dp: int, ip: int, name: Elem)
    requires HoldsBoth(s, dp, ip) && dp != ip && MayUnlink(s.tree, s.icache[dp].inum, name)
    requires s.icache[ip].inum == Target(s.tree, s.icache[dp].inum, name)
    modifies s`icache, s`mine, s`tree, s`myLocks
    ensures s.Inv() && s.mine == multiset{} && s.myLocks == {} && s.Locks() == old(s.Locks())
    ensures Shrunk(Unlinked(old(s.tree), old(s.icache)[dp].inum, name), s.tree)
    ensures TargetGoes(old(s.tree), old(s.icache)[dp].inum, name, s.Kept(), s.tree)
  {
    hide KeepersOk, FilesCounted, InodesCounted, CacheOk, LocksOk, Theirs, Spare, Sound, Sys.Inv, Shrunk, Bare;
    ghost var t0, d, inum := s.tree, s.icache[dp].inum, s.icache[ip].inum;
    var n, m := s.tree[s.icache[ip].inum], s.tree[s.icache[dp].inum];
    SetNode(s, s.icache[dp].inum, Node(m.typ, m.nlink - (if n.typ == TDir then 1 else 0), m.entries - {name}));
    ghost var t1 := s.tree;
    var end := LetGo(s, dp, ip);
    ghost var t2 := s.tree;
    StillThere(t1, t2, inum);
    CountDown(s, ip);
    ErasedInSteps(t0, d, name, inum, t1, t2, s.tree);
  }

  lemma ErasedInSteps(t: Tree, d: nat, name: Elem, i: nat, t1: Tree, t2: Tree, u: Tree)
    requires MayUnlink(t, d, name) && i == Target(t, d, name) && i != d
    requires t1 == t[d := Node(TDir, t[d].nlink - (if t[i].typ == TDir then 1 else 0), t[d].entries - {name})]
    requires Shrunk(t1, t2) && i in t2 && Shrunk(Relinked(t2, i, -1), u)
    ensures Shrunk(Unlinked(t, d, name), u)
  {
    ShrunkUpdate(t1, t2, i, t1[i].(nlink := t1[i].nlink - 1));
    assert Unlinked(t, d, name) == t1[i := t1[i].(nlink := t1[i].nlink - 1)];
    ShrunkMore(Unlinked(t, d, name), Relinked(t2, i, -1), u);
  }

  /** `ip->nlink--`, iupdate and iunlockput of the one inode that the call holds. */
  method CountDown(s: Sys, ip: int)
    requires s.Inv() && |s.icache| == NINODE && s.myLocks == {ip} && s.mine == multiset{ip} && 0 <= ip < NINODE
             && s.icache[ip].inum in s.tree
    modifies s`icache, s`mine, s`tree, s`myLocks
    ensures s.Inv() && s.mine == multiset{} && s.myLocks == {} && s.Locks() == old(s.Locks())
    ensures Shrunk(Relinked(old(s.tree), old(s.icache)[ip].inum, -1), s.tree)
    ensures old(s.icache)[ip].inum !in s.tree <==>
              old(s.tree)[old(s.icache)[ip].inum].nlink == 1 && old(s.icache)[ip].inum !in s.Kept()
  {
    hide KeepersOk, FilesCounted, InodesCounted, CacheOk, LocksOk, Theirs, Spare, Sound, Sys.Inv, Shrunk, Sys.Kept;
    SetNode(s, s.icache[ip].inum, s.tree[s.icache[ip].inum].(nlink := s.tree[s.icache[ip].inum].nlink - 1));
    s.OnlyMine(ip);
    s.Locked(ip);
    var end := LetGoLast(s, ip);
  }

  /** ilock of a second inode while the directory is locked. */
  method LockSecond(s: Sys, dp: int, ip: int) returns (end: End)
    requires s.Inv() && |s.icache| == NINODE && s.myLocks == {dp} && s.mine == multiset{dp} + multiset{ip}
             && 0 <= dp < NINODE && 0 <= ip < NINODE
    modifies s`icache, s`myLocks
    ensures end == Returns ==>
              HoldsBoth(s, dp, ip) && dp != ip && s.icache[dp].inum == old(s.icache)[dp].inum
              && s.icache[ip].inum == old(s.icache)[ip].inum
    ensures s.Locks() == old(s.Locks()) && (end == Waits ==> s.Locks() != {} || ip == dp) && (ip == dp ==> end == Waits)
    ensures end == Panics ==> old(s.icache)[ip].inum !in s.tree
  {
    hide KeepersOk, FilesCounted, InodesCounted, CacheOk, LocksOk, Theirs, Spare, Sound, Sys.Inv;
    s.Locked(dp);
    end := s.Ilock(ip);
    if end == Returns {
      s.Sizes();
      s.Locked(dp);
      s.Locked(ip);
      s.TwoInums(dp, ip);
      assert s.mine == multiset{dp, ip};
      assert s.myLocks == {dp, ip};
    }
  }

  /** iunlockput of both. */
  method LetGoTwo(s: Sys, ip: int, dp: int) returns (end: End)
    requires HoldsBoth(s, dp, ip) && dp != ip
    modifies s`icache, s`mine, s`tree, s`myLocks
    ensures end == Returns && s.Inv() && s.mine == multiset{} && s.myLocks == {} && Shrunk(old(s.tree), s.tree)
    ensures s.Locks() == old(s.Locks())
  {
    hide KeepersOk, FilesCounted, InodesCounted, CacheOk, LocksOk, Theirs, Spare, Sound, Sys.Inv, Shrunk;
    ghost var t0 := s.tree;
    assert {ip, dp} == {dp, ip} && multiset{ip, dp} == multiset{dp, ip};
    end := LetGo(s, ip, dp);
    ghost var t1 := s.tree;
    end := LetGoLast(s, dp);
    ShrunkMore(t0, t1, s.tree);
  }

  lemma UnlinkedShrunk(t: Tree, u: Tree, d: nat, name: Elem)
    requires Shrunk(t, u) && NamesAnInode(u, d, name)
    ensures MayUnlink(t, d, name) <==> MayUnlink(u, d, name)
    ensures MayUnlink(u, d, name) ==> Shrunk(Unlinked(t, d, name), Unlinked(u, d, name))
  {
  }

  // ---- fork and exit ------------------------------------------------------------------------------------------------

  /** The descriptors of ofile below fd that are in use. */
  function Copied(ofile: seq<int>, fd: nat): multiset<int>
    requires fd <= |ofile|
  {
    if fd == 0 then multiset{}
    else Copied(ofile, fd - 1) + (if ofile[fd - 1] != -1 then multiset{ofile[fd - 1]} else multiset{})
  }

  lemma OthersMore(files: seq<File>, ofile: seq<int>, othersF: multiset<int>, mineF: multiset<int>, f: int)
    requires FilesCounted(files, ofile, othersF, mineF + multiset{f})
    ensures FilesCounted(files, ofile, othersF + multiset{f}, mineF)
  {
    hide Descriptors;
  }

  lemma OthersMoreInode(icache: seq<Cached>, held: multiset<int>, cwd: int, others: multiset<int>, mine: multiset<int>,
          myLocks: set<int>, i: int)
    requires InodesCounted(icache, held, cwd, others, mine + multiset{i})
             && LocksOk(icache, myLocks, others, mine + multiset{i}) && myLocks == {}
    ensures InodesCounted(icache, held, cwd, others + multiset{i}, mine)
            && LocksOk(icache, myLocks, others + multiset{i}, mine)
  {
  }

  /** `np->ofile[fd] = filedup(proc->ofile[fd])`. */
  method Share(s: Sys, fd: nat)
    requires s.Idle() && |s.ofile| == NOFILE && fd < NOFILE && s.ofile[fd] != -1
    modifies s`files, s`mineF, s`othersF
    ensures s.Idle() && s.othersF == old(s.othersF) + multiset{s.ofile[fd]}
  {
    hide KeepersOk, FilesCounted, InodesCounted, CacheOk, LocksOk, Theirs, Spare, Sound, Held, Descriptors;
    var f := s.ofile[fd];
    InRange(s.files, s.ofile, s.othersF, s.mineF, fd);
    Removed(s.files, s.ofile, s.othersF, s.mineF, fd);
    s.Filedup(f);
    assert s.mineF == multiset{} + multiset{f};
    OthersMore(s.files, s.ofile, s.othersF, multiset{}, f);
    s.othersF := s.othersF + multiset{f};
    s.mineF := multiset{};
  }

  /** fork: the child, one of the others, holds every open file and the working directory once more. */
  method Fork(s: Sys)
    requires s.Idle() && 0 <= s.cwd < NINODE
    modifies s`files, s`icache, s`mineF, s`mine, s`othersF, s`others
    ensures s.Idle() && |s.ofile| == NOFILE
    ensures s.othersF == old(s.othersF) + Copied(s.ofile, NOFILE) && s.others == old(s.others) + multiset{s.cwd}
  {
    hide KeepersOk, FilesCounted, InodesCounted, CacheOk, LocksOk, Theirs, Spare, Sound, Held, Descriptors;
    s.Sizes();
    var fd := 0;
    while fd < NOFILE
      invariant 0 <= fd <= NOFILE && s.Idle() && |s.ofile| == NOFILE
      invariant s.othersF == old(s.othersF) + Copied(s.ofile, fd) && s.others == old(s.others)
                && s.icache == old(s.icache)
    {
      if s.ofile[fd] != -1 {
        Share(s, fd);
      }
      fd := fd + 1;
    }
    ShareCwd(s);
  }

  /** `np->cwd = idup(proc->cwd)`. */
  method ShareCwd(s: Sys)
    requires s.Idle() && 0 <= s.cwd < NINODE
    modifies s`icache, s`mine, s`others
    ensures s.Idle() && s.others == old(s.others) + multiset{s.cwd}
  {
    hide KeepersOk, FilesCounted, InodesCounted, CacheOk, LocksOk, Theirs, Spare, Sound, Held, Descriptors;
    s.CwdInUse();
    s.Idup(s.cwd);
    assert s.mine == multiset{} + multiset{s.cwd};
    OthersMoreInode(s.icache, Held(s.files), s.cwd, s.others, multiset{}, s.myLocks, s.cwd);
    FewerKeepers(s.icache, Held(s.files), Held(s.files), s.cwd, s.cwd, s.others, s.others + multiset{s.cwd}, s.named);
    s.others := s.others + multiset{s.cwd};
    s.mine := multiset{};
  }

  lemma CwdLeft(icache: seq<Cached>, held: multiset<int>, cwd: int, others: multiset<int>, mine: multiset<int>,
          myLocks: set<int>)
    requires InodesCounted(icache, held, cwd, others, mine) && LocksOk(icache, myLocks, others, mine) && 0 <= cwd
    ensures InodesCounted(icache, held, -1, others, mine + multiset{cwd})
            && LocksOk(icache, myLocks, others, mine + multiset{cwd})
  {
  }

  /** exit's cleaning up: nothing is held any more. */
  method Exit(s: Sys)
    requires s.Idle() && 0 <= s.cwd < NINODE
    modifies s
    ensures s.Idle() && s.cwd == -1 && |s.ofile| == NOFILE && forall fd: nat :: fd < NOFILE ==> s.ofile[fd] == -1
    ensures s.othersF == old(s.othersF) && s.others == old(s.others) && Shrunk(old(s.tree), s.tree)
    ensures Links(old(s.tree)) ==> Links(s.tree)
    ensures Healthy(old(s.tree)) ==> Healthy(s.tree)
  {
    hide KeepersOk, FilesCounted, InodesCounted, CacheOk, LocksOk, Theirs, Spare, Sound, Held, Descriptors, Shrunk,
        Links, Healthy;
    s.Sizes();
    ghost var t0 := s.tree;
    ShrunkSelf(t0);
    var fd := 0;
    while fd < NOFILE
      invariant 0 <= fd <= NOFILE && s.Idle() && |s.ofile| == NOFILE && s.cwd == old(s.cwd) && Shrunk(t0, s.tree)
      invariant forall k: nat :: k < fd ==> s.ofile[k] == -1
      invariant s.othersF == old(s.othersF) && s.others == old(s.others)
    {
      if s.ofile[fd] != -1 {
        InRange(s.files, s.ofile, s.othersF, s.mineF, fd);
        ghost var t := s.tree;
        CloseFd(s, fd);
        ShrunkMore(t0, t, s.tree);
      }
      fd := fd + 1;
    }
    CwdLeft(s.icache, Held(s.files), s.cwd, s.others, s.mine, s.myLocks);
    FewerKeepers(s.icache, Held(s.files), Held(s.files), s.cwd, -1, s.others, s.others, s.named);
    var was := s.cwd;
    s.cwd := -1;
    s.mine := s.mine + multiset{was};
    assert s.mine == multiset{was};
    ghost var t := s.tree;
    var end := s.Iput(was);
    ShrunkMore(t0, t, s.tree);
    HealthyShrunk(t0, s.tree);
    assert s.mine == multiset{};
  }
}
