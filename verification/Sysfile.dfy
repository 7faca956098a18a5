/**
 namex and the system calls of sysfile.c: what each path through them leaves of references and locks,
 and what it does to the directories.
 */
module Sysfile {
  import opened Bytes
  import opened Options
  import opened FsPath
  import opened SysRefs

  predicate Absolute(path: seq<Byte>) {
    path != [] && path[0] == SLASH
  }

  /** Where a path starts. */
  function Start(path: seq<Byte>, cwd: nat): nat {
    if Absolute(path) then ROOTINO else cwd
  }

  /** dirlookup of a name in a locked directory, as a reference to the inode found. */
  method Dirlookup(s: Sys, dp: int, name: Elem) returns (end: End, ip: int)
    requires s.Inv() && dp in s.myLocks && 0 <= dp < NINODE && |s.icache| == NINODE && IsDir(s.tree, s.icache[dp].inum)
    modifies s`icache, s`mine
    ensures end != Waits
            && (end == Returns ==> s.Here() == old(s.Here()) && SlotsKept(old(s.icache), s.icache, old(s.mine)))
    ensures s.Locks() == old(s.Locks())
    ensures end == Panics ==> name in s.tree[old(s.icache)[dp].inum].entries && s.Crowded(|old(s.mine)|)
    ensures end == Panics ==>
              forall k: nat :: k < NINODE ==> old(s.icache)[k].inum != s.tree[old(s.icache)[dp].inum].entries[name]
    ensures end == Returns ==>
              s.Inv() && -1 <= ip < NINODE && |s.icache| == NINODE && s.icache[dp].inum == old(s.icache)[dp].inum
    ensures end == Returns ==> (ip != -1 <==> name in s.tree[s.icache[dp].inum].entries)
    ensures end == Returns && ip == -1 ==> s.mine == old(s.mine) && s.icache == old(s.icache)
    ensures end == Returns && ip != -1 ==>
              s.mine == old(s.mine) + multiset{ip} && s.icache[ip].inum == s.tree[s.icache[dp].inum].entries[name]
  {
    hide KeepersOk, FilesCounted, InodesCounted, CacheOk, LocksOk, HereOk, Theirs, Spare, NoSlot;
    if name in s.tree[s.icache[dp].inum].entries {
      s.InUse(dp);
      var inum := s.tree[s.icache[dp].inum].entries[name];
      end, ip := s.Iget(inum);
      NoSlotMeans(old(s.icache), inum);
    } else {
      return Returns, -1;
    }
  }

  lemma NoSlotMeans(icache: seq<Cached>, inum: nat)
    ensures NoSlot(icache, inum) ==> forall k: nat :: k < |icache| ==> icache[k].inum != inum
  {
  }

  /** The start of namex's turn: the inode is locked if it is a directory, and let go if it is not. */
  method LockDir(s: Sys, ip: int) returns (end: End, dir: bool)
    requires s.Inv() && 0 <= ip < NINODE && |s.icache| == NINODE && s.mine[ip] >= 1
    modifies s`icache, s`mine, s`tree, s`myLocks
    ensures end == Returns ==>
              s.Inv() && |s.icache| == NINODE && s.icache[ip].inum == old(s.icache)[ip].inum
              && Shrunk(old(s.tree), s.tree)
    ensures end == Returns ==> s.Here() == old(s.Here()) && SlotsKept(old(s.icache), s.icache, s.mine)
    ensures end == Returns ==>
              old(s.icache)[ip].inum in old(s.tree) && (dir <==> IsDir(old(s.tree), old(s.icache)[ip].inum))
    ensures end == Returns && dir ==>
              s.tree == old(s.tree) && s.mine == old(s.mine) && s.myLocks == old(s.myLocks) + {ip}
              && ip !in old(s.myLocks)
    ensures end == Returns && !dir ==> s.mine == old(s.mine) - multiset{ip} && s.myLocks == old(s.myLocks)
    ensures s.Locks() == old(s.Locks())
    ensures end == Waits ==> ip in s.Locks() || ip in old(s.myLocks)
    ensures end == Panics ==> old(s.icache)[ip].inum !in old(s.tree)
  {
    hide KeepersOk, FilesCounted, InodesCounted, CacheOk, LocksOk, HereOk, Theirs, Spare;
    end := s.Ilock(ip);
    if end != Returns {
      return end, false;
    }
    dir := s.tree[s.icache[ip].inum].typ == TDir;
    if !dir {
      end := s.Iunlockput(ip);
      s.Sizes();
    }
  }

  /** The rest of namex's turn: from the locked directory to the inode that it has under the name. */
  method Descend(s: Sys, ip: int, name: Elem) returns (end: End, next: int)
    requires s.Inv() && ip in s.myLocks && 0 <= ip < NINODE && |s.icache| == NINODE && IsDir(s.tree, s.icache[ip].inum)
    modifies s`icache, s`mine, s`tree, s`myLocks
    ensures end == Returns ==> s.Inv() && |s.icache| == NINODE && -1 <= next < NINODE && Shrunk(old(s.tree), s.tree)
    ensures end == Returns ==>
              s.myLocks == old(s.myLocks) - {ip} && s.Here() == old(s.Here())
              && SlotsKept(old(s.icache), s.icache, old(s.mine) - multiset{ip})
    ensures end == Returns ==>
              s.mine == if next == -1 then old(s.mine) - multiset{ip} else old(s.mine) + multiset{next} - multiset{ip}
    ensures end == Returns ==> (next != -1 <==> name in old(s.tree)[old(s.icache)[ip].inum].entries)
    ensures end == Returns && next != -1 ==> s.icache[next].inum == old(s.tree)[old(s.icache)[ip].inum].entries[name]
    ensures end == Returns && next != -1 && s.icache[next].inum == old(s.icache)[ip].inum ==>
              s.icache[next].inum in s.tree
    ensures s.Locks() == old(s.Locks())
    ensures end != Waits && (end == Panics ==> s.Crowded(|old(s.mine)|))
  {
    hide KeepersOk, FilesCounted, InodesCounted, CacheOk, LocksOk, HereOk, Theirs, Spare, Sys.Inv, Shrunk, Sys.Locks;
    s.Locked(ip);
    end, next := Dirlookup(s, ip, name);
    if end != Returns {
      return;
    }
    FoundItself(s, ip, next, old(s.mine));
    end := s.Iunlockput(ip);
    s.Sizes();
  }

  lemma FoundItself(s: Sys, ip: int, next: int, m: multiset<int>)
    requires s.Inv() && 0 <= ip < NINODE && |s.icache| == NINODE && -1 <= next < NINODE && ip in m
    requires s.mine == if next == -1 then m else m + multiset{next}
    ensures next != -1 && s.icache[next].inum == s.icache[ip].inum ==> next == ip && s.icache[ip].ref >= 2
  {
    hide Sys.Inv;
    if next != -1 && s.icache[next].inum == s.icache[ip].inum {
      s.SameSlot(next, ip);
    }
  }

  /** What is left to resolve from inode cur and the rest of the path, and what it means for the whole. */
  ghost predicate Resolving(t0: Tree, start: nat, path0: seq<Byte>, parent: bool, cur: nat, path: seq<Byte>) {
    && Resolved(t0, start, path0, parent) == Resolved(t0, cur, path, parent)
    && (parent && Elements(path0) != [] ==>
         Elements(path) != [] && Elements(path)[|Elements(path)| - 1] == Elements(path0)[|Elements(path0)| - 1])
  }

  /** A turn of the walk on values. */
  lemma Resolve(t0: Tree, start: nat, path0: seq<Byte>, parent: bool, cur: nat, path: seq<Byte>)
    requires Resolving(t0, start, path0, parent, cur, path)
    ensures SkipElem(path).NoElem? ==> Resolved(t0, start, path0, parent) == if parent then None else Some(cur)
    ensures SkipElem(path).Found? ==>
              ResolveTurn(t0, start, path0, parent, cur, SkipElem(path).name, SkipElem(path).rest)
  {
    SkipelemIsHead(path);
    var e := SkipElem(path);
    if e.Found? {
      WalkOne(t0, cur, Elements(path));
      assert Elements(path)[1..] == Elements(e.rest);
    } else {
      WalkNone(t0, cur);
    }
  }

  ghost predicate ResolveTurn(t0: Tree, start: nat, path0: seq<Byte>, parent: bool, cur: nat, name: Elem,
          rest: seq<Byte>) {
    var stop := parent && rest == [];
    var r := Found1(t0, cur, name, stop);
    && (r.None? || stop ==> Resolved(t0, start, path0, parent) == r)
    && (r.Some? && stop && Elements(path0) != [] ==> name == Elements(path0)[|Elements(path0)| - 1])
    && (r.Some? && !stop ==> Resolving(t0, start, path0, parent, r.value, rest))
  }

  lemma NoElements(path: seq<Byte>, parent: bool, t0: Tree, start: nat)
    ensures SkipElem(path).Found? ==> Elements(path) != []
    ensures Resolving(t0, start, path, parent, start, path)
  {
    SkipelemIsHead(path);
  }

  /** Trees only shrink; a directory still there is the same directory. */
  lemma ShrunkStill(t0: Tree, t1: Tree, t2: Tree, cur: nat)
    requires Shrunk(t0, t1) && Shrunk(t1, t2)
    ensures Shrunk(t0, t2)
    ensures cur in t1 ==> cur in t0 && t0[cur] == t1[cur] && (IsDir(t0, cur) <==> IsDir(t1, cur))
  {
  }

  /** In a sound tree what an entry names stays, whatever else goes. */
  lemma StillLinked(t0: Tree, t1: Tree, t2: Tree, cur: nat, name: Elem)
    requires Shrunk(t0, t1) && Shrunk(t1, t2)
    ensures Sound(t0) && cur in t1 && name in t1[cur].entries ==>
              t1[cur].entries[name] in t2 || t1[cur].entries[name] == cur
  {
    if Sound(t0) && cur in t1 && name in t1[cur].entries {
      assert IsEntry(t0, cur, name) && SoundAt(t0, cur, name);
    }
  }

  /** What one turn finds: the parent itself when it is to stop there, else what the name leads to. */
  function Found1(t: Tree, cur: nat, name: Elem, stop: bool): Option<nat> {
    if !IsDir(t, cur) then None
    else if stop then Some(cur)
    else if name in t[cur].entries then Some(t[cur].entries[name])
    else None
  }

  /** One turn of namex's loop: the reference to ip becomes one to the next inode, or none. */
  method Turn(s: Sys, ip: int, name: Elem, stop: bool, ghost t0: Tree, ghost m0: multiset<int>)
    returns (end: End, next: int)
    requires s.Inv() && 0 <= ip < NINODE && |s.icache| == NINODE && s.myLocks == {} && s.mine == m0 + multiset{ip}
             && Shrunk(t0, s.tree)
    modifies s`icache, s`mine, s`tree, s`myLocks
    ensures end == Returns ==>
              s.Inv() && |s.icache| == NINODE && -1 <= next < NINODE && s.myLocks == {} && Shrunk(t0, s.tree)
    ensures end == Returns ==>
              s.Here() == old(s.Here()) && SlotsKept(old(s.icache), s.icache, m0)
              && s.mine == if next == -1 then m0 else m0 + multiset{next}
    ensures end == Returns ==>
              (if next == -1 then None else Some(s.icache[next].inum)) == Found1(t0, old(s.icache)[ip].inum, name, stop)
    ensures end == Returns && next != -1 && Sound(t0) ==> s.icache[next].inum in s.tree
    ensures s.Locks() == old(s.Locks()) && (end == Waits ==> s.Locks() != {})
    ensures end == Panics ==> s.Crowded(|m0| + 1) || old(s.icache)[ip].inum !in old(s.tree)
  {
    hide KeepersOk, FilesCounted, InodesCounted, CacheOk, LocksOk, Sys.Inv, Shrunk, SlotsKept, Sys.Locks, Sys.Crowded,
        Sound;
    ghost var t1, cur := s.tree, s.icache[ip].inum;
    SwapHeld(m0, ip, ip);
    var dir;
    end, dir := LockDir(s, ip);
    if end != Returns {
      return end, -1;
    }
    ShrunkStill(t0, t1, s.tree, cur);
    ghost var c1 := s.icache;
    if !dir {
      return end, -1;
    }
    InumsOfFewer(old(s.icache), c1, m0, ip);
    if stop {
      UnlockOnly(s, ip, m0);
      InumsStay(old(s.icache), c1, s.icache, m0);
      return Returns, ip;
    }
    end, next := TurnDown(s, ip, name, t0, m0);
    if end == Returns {
      InumsStay(old(s.icache), c1, s.icache, m0);
    }
  }

  method UnlockOnly(s: Sys, ip: int, ghost m0: multiset<int>)
    requires s.Inv() && 0 <= ip < NINODE && |s.icache| == NINODE && s.myLocks == {ip}
    modifies s`icache, s`myLocks
    ensures s.Inv() && |s.icache| == NINODE && s.myLocks == {} && s.Here() == old(s.Here())
            && s.Locks() == old(s.Locks())
    ensures s.icache[ip].inum == old(s.icache)[ip].inum && SlotsKept(old(s.icache), s.icache, m0)
    ensures s.icache[ip].inum in s.tree
  {
    hide KeepersOk, FilesCounted, InodesCounted, CacheOk, LocksOk, Theirs;
    s.Locked(ip);
    s.Iunlock(ip);
    InumsAll(old(s.icache), s.icache, m0);
  }

  /** The turn of namex that goes on to the inode under the name. */
  method TurnDown(s: Sys, ip: int, name: Elem, ghost t0: Tree, ghost m0: multiset<int>) returns (end: End, next: int)
    requires s.Inv() && 0 <= ip < NINODE && |s.icache| == NINODE && s.myLocks == {ip} && s.mine == m0 + multiset{ip}
             && Shrunk(t0, s.tree) && IsDir(s.tree, s.icache[ip].inum)
    modifies s`icache, s`mine, s`tree, s`myLocks
    ensures end == Returns ==>
              s.Inv() && |s.icache| == NINODE && -1 <= next < NINODE && s.myLocks == {} && Shrunk(t0, s.tree)
    ensures end == Returns ==>
              s.Here() == old(s.Here()) && SlotsKept(old(s.icache), s.icache, m0)
              && s.mine == if next == -1 then m0 else m0 + multiset{next}
    ensures end == Returns ==>
              (if next == -1 then None else Some(s.icache[next].inum)) ==
              Found1(t0, old(s.icache)[ip].inum, name, false)
    ensures end == Returns && next != -1 && Sound(t0) ==> s.icache[next].inum in s.tree
    ensures s.Locks() == old(s.Locks()) && end != Waits
    ensures end == Panics ==> s.Crowded(|m0| + 1)
  {
    hide KeepersOk, FilesCounted, InodesCounted, CacheOk, LocksOk, Sys.Inv, Shrunk, SlotsKept, Sys.Locks, Sys.Crowded,
        Sound;
    ghost var t1, cur := s.tree, s.icache[ip].inum;
    ShrunkSelf(t1);
    ShrunkStill(t0, t1, t1, cur);
    end, next := Descend(s, ip, name);
    if end == Returns {
      StillLinked(t0, t1, s.tree, cur, name);
      ShrunkStill(t0, t1, s.tree, cur);
      SwapHeld(m0, ip, next);
    }
  }

  /** namex: a walk over the path's elements, with the directory of the moment locked. */
  method Namex(s: Sys, path0: seq<Byte>, parent: bool) returns (end: End, ip: int, name: Elem)
    requires s.Inv() && (Absolute(path0) || 0 <= s.cwd < NINODE) && |s.icache| == NINODE && s.myLocks == {}
    modifies s`icache, s`mine, s`tree, s`myLocks
    ensures s.Locks() == old(s.Locks()) && (end == Waits ==> Elements(path0) != [] && s.Locks() != {})
    ensures Elements(path0) == [] && !parent ==> s.tree == old(s.tree)
    ensures end == Panics ==> s.Crowded(|old(s.mine)| + 1) || (Elements(path0) != [] && !Sound(old(s.tree)))
    ensures end == Returns ==>
              s.Inv() && s.myLocks == {} && Shrunk(old(s.tree), s.tree) && -1 <= ip < NINODE && |s.icache| == NINODE
    ensures end == Returns ==> s.Here() == old(s.Here()) && SlotsKept(old(s.icache), s.icache, old(s.mine))
    ensures end == Returns ==> s.mine == if ip == -1 then old(s.mine) else old(s.mine) + multiset{ip}
    ensures end == Returns && ip != -1 && Sound(old(s.tree)) ==> s.icache[ip].inum in s.tree
    ensures end == Returns ==>
              (if ip == -1 then None else Some(s.icache[ip].inum)) ==
              Resolved(old(s.tree), Start(path0, old(s.Here())), path0, parent)
    ensures end == Returns && ip != -1 && parent ==>
              Elements(path0) != [] && name == Elements(path0)[|Elements(path0)| - 1]
  {
    hide KeepersOk, FilesCounted, InodesCounted, CacheOk, LocksOk, Resolved, Resolving, SkipElem, Sys.Inv, Shrunk,
        Elements,
        Found1, SlotsKept;
    hide Sys.Locks, Spare, Sound;
    end, ip := FirstInode(s, path0);
    name := [];
    if end != Returns {
      return;
    }
    ghost var t0, start, m0 := s.tree, s.icache[ip].inum, old(s.mine);
    ShrunkSelf(t0);
    var path := path0;
    NoElements(path0, parent, t0, start);
    var e := Skipelem(path);
    while e.Found?
      invariant s.Inv() && s.myLocks == {} && Shrunk(t0, s.tree) && 0 <= ip < NINODE && |s.icache| == NINODE
      invariant s.Here() == old(s.Here()) && SlotsKept(old(s.icache), s.icache, m0) && s.mine == m0 + multiset{ip}
                && e == SkipElem(path) && (e.Found? ==> Elements(path0) != [])
      invariant Resolving(t0, start, path0, parent, s.icache[ip].inum, path)
      invariant end == Returns && s.Locks() == old(s.Locks()) && (Sound(t0) ==> s.icache[ip].inum in s.tree)
      invariant Elements(path0) == [] ==> s.tree == old(s.tree)
      decreases |path|
    {
      name := e.name;
      Resolve(t0, start, path0, parent, s.icache[ip].inum, path);
      ghost var c := s.icache;
      end, ip := Turn(s, ip, name, parent && e.rest == [], t0, m0);
      if end == Returns {
        InumsStay(old(s.icache), c, s.icache, m0);
      }
      if end != Returns || ip == -1 || (parent && e.rest == []) {
        return;
      }
      path := e.rest;
      e := Skipelem(path);
    }
    Resolve(t0, start, path0, parent, s.icache[ip].inum, path);
    if parent {
      ghost var c := s.icache;
      end := Drop(s, ip, t0, m0);
      InumsStay(old(s.icache), c, s.icache, m0);
      ip := -1;
    }
  }

  /** The inode where a path starts. */
  method FirstInode(s: Sys, path: seq<Byte>) returns (end: End, ip: int)
    requires s.Inv() && (Absolute(path) || 0 <= s.cwd < NINODE) && |s.icache| == NINODE
    modifies s`icache, s`mine
    ensures s.Locks() == old(s.Locks()) && end != Waits
    ensures end == Panics ==> s.Crowded(|old(s.mine)|) && Absolute(path) && NoSlot(old(s.icache), ROOTINO)
    ensures end == Returns ==>
              s.Inv() && |s.icache| == NINODE && 0 <= ip < NINODE && s.mine == old(s.mine) + multiset{ip}
    ensures end == Returns && Sound(s.tree) ==> s.icache[ip].inum in s.tree
    ensures end == Returns ==>
              s.icache[ip].inum == Start(path, old(s.Here())) && s.Here() == old(s.Here())
              && SlotsKept(old(s.icache), s.icache, old(s.mine))
  {
    hide KeepersOk, FilesCounted, InodesCounted, CacheOk, LocksOk, Theirs, Spare, NoSlot;
    if Absolute(path) {
      end, ip := s.Iget(ROOTINO);
      if end == Returns {
        s.Sizes();
      }
    } else {
      ip := s.cwd;
      s.InUse(ip);
      s.Idup(ip);
      end := Returns;
    }
  }

  /** iput of the call's own, unlocked inode. */
  method Drop(s: Sys, ip: int, ghost t0: Tree, ghost m0: multiset<int>) returns (end: End)
    requires s.Inv() && 0 <= ip < NINODE && |s.icache| == NINODE && ip !in s.myLocks && s.mine == m0 + multiset{ip}
             && Shrunk(t0, s.tree)
    modifies s`icache, s`mine, s`tree
    ensures end == Returns && s.Inv() && |s.icache| == NINODE && s.mine == m0 && Shrunk(t0, s.tree)
            && s.Here() == old(s.Here()) && SlotsKept(old(s.icache), s.icache, m0)
    ensures s.Locks() == old(s.Locks())
  {
    hide KeepersOk, FilesCounted, InodesCounted, CacheOk, LocksOk, Sys.Inv, Shrunk;
    SwapHeld(m0, ip, ip);
    ghost var t1 := s.tree;
    end := s.Iput(ip);
    ShrunkStill(t0, t1, s.tree, 0);
    s.Sizes();
  }

  lemma InumsAll(c: seq<Cached>, c2: seq<Cached>, m: multiset<int>)
    requires |c2| == |c| && forall k: nat :: k < |c| ==> c2[k].inum == c[k].inum && c2[k].valid == c[k].valid
    ensures SlotsKept(c, c2, m)
  {
  }

  lemma WalkOne(t: Tree, i: nat, elems: seq<Elem>)
    requires elems != []
    ensures Walk(t, i, elems) ==
            if IsDir(t, i) && elems[0] in t[i].entries then Walk(t, t[i].entries[elems[0]], elems[1..]) else None
    ensures |elems| == 1 ==> WalkParent(t, i, elems) == if IsDir(t, i) then Some(i) else None
    ensures |elems| > 1 ==>
              WalkParent(t, i, elems) ==
              if IsDir(t, i) && elems[0] in t[i].entries then WalkParent(t, t[i].entries[elems[0]], elems[1..])
              else None
  {
    if |elems| > 1 {
      ParentStep(t, i, elems);
    }
  }

  lemma WalkNone(t: Tree, i: nat)
    ensures Walk(t, i, []) == Some(i) && WalkParent(t, i, []) == None
  {
  }

  /** A reference taken and the one before it dropped. */
  lemma SwapHeld(m: multiset<int>, a: int, b: int)
    ensures m + multiset{a} + multiset{b} - multiset{a} == m + multiset{b}
    ensures m + multiset{a} - multiset{a} == m
  {
  }

  /** What namei and nameiparent should find. */
  function Resolved(t: Tree, start: nat, path: seq<Byte>, parent: bool): Option<nat> {
    if parent then WalkParent(t, start, Elements(path)) else Walk(t, start, Elements(path))
  }
}
