/**
 The system calls of sysfile.c on descriptors and working directories, and fork's and exit's share.
 Every one of them starts and ends with the call holding no reference and no lock.
 */
module SysCalls {
  import opened Bytes
  import opened FsPath
  import opened FsLinks
  import opened SysRefs
  import opened Sysfile

  // ---- Descriptors as holders ----------------------------------------------------------------------------

  lemma DescriptorsUpdate(ofile: seq<int>, fd: nat, f: int)
    requires fd < |ofile|
    ensures Descriptors(ofile[fd := f]) == Descriptors(ofile) - multiset{ofile[fd]} + multiset{f}
    ensures Descriptors(ofile)[ofile[fd]] >= 1
  {
    assert ofile[fd] in ofile;
  }

  /** A reference of the call is stored in the descriptor table. */
  lemma Installed(files: seq<File>, ofile: seq<int>, othersF: multiset<int>, mineF: multiset<int>, fd: nat, f: nat)
    requires FilesCounted(files, ofile, othersF, mineF) && fd < NOFILE && ofile[fd] == -1 && f < NFILE && mineF[f] >= 1
    ensures FilesCounted(files, ofile[fd := f], othersF, mineF - multiset{f})
  {
    DescriptorsUpdate(ofile, fd, f);
    hide Descriptors;
  }

  /** A descriptor is cleared: its reference is the call's. */
  lemma Removed(files: seq<File>, ofile: seq<int>, othersF: multiset<int>, mineF: multiset<int>, fd: nat)
    requires FilesCounted(files, ofile, othersF, mineF) && fd < NOFILE && ofile[fd] >= 0
    ensures FilesCounted(files, ofile[fd := -1], othersF, mineF + multiset{ofile[fd]}) && ofile[fd] < NFILE
            && files[ofile[fd]].ref >= 1
  {
    DescriptorsUpdate(ofile, fd, -1);
    hide Descriptors;
  }

  /** The file of an open file is set: the call's inode reference is now the file's. */
  lemma FileSet(files: seq<File>, ofile: seq<int>, othersF: multiset<int>, mineF: multiset<int>, f: nat, x: File,
    icache: seq<Cached>, cwd: int, myLocks: set<int>, others: multiset<int>, mine: multiset<int>)
    requires FilesCounted(files, ofile, othersF, mineF) && InodesCounted(icache, Held(files), cwd, others, mine)
             && LocksOk(icache, myLocks, others, mine)
    requires f < NFILE && files[f].kind == FdNone && files[f].ref > 0 && x.ref == files[f].ref
    requires x.kind == FdInode ==> 0 <= x.ip < NINODE && mine[x.ip] >= 1 && x.ip !in myLocks
    ensures FilesCounted(files[f := x], ofile, othersF, mineF)
    ensures var m := if x.kind == FdInode then mine - multiset{x.ip} else mine;
            InodesCounted(icache, Held(files[f := x]), cwd, others, m) && LocksOk(icache, myLocks, others, m)
  {
    FilesSet(files, ofile, othersF, mineF, f, x);
    HeldUpdate(files, f, x);
    HeldSet(icache, Held(files), Held(files[f := x]), cwd, others, mine, IpOf(x));
    LocksSet(icache, myLocks, others, mine, IpOf(x));
    hide Held, Descriptors, FilesCounted, InodesCounted, LocksOk;
  }

  /** A reference of the call becomes one of an open file. */
  lemma HeldSet(icache: seq<Cached>, held: multiset<int>, held2: multiset<int>, cwd: int, others: multiset<int>,
          mine: multiset<int>, i: int)
    requires InodesCounted(icache, held, cwd, others, mine) && i >= -1 && -1 in held
    requires held2 == held - multiset{-1} + multiset{i} && (i >= 0 ==> mine[i] >= 1)
    ensures InodesCounted(icache, held2, cwd, others, if i >= 0 then mine - multiset{i} else mine)
  {
  }

  lemma LocksSet(icache: seq<Cached>, myLocks: set<int>, others: multiset<int>, mine: multiset<int>, i: int)
    requires LocksOk(icache, myLocks, others, mine) && i !in myLocks
    ensures LocksOk(icache, myLocks, others, if i >= 0 then mine - multiset{i} else mine)
  {
  }

  lemma FilesSet(files: seq<File>, ofile: seq<int>, othersF: multiset<int>, mineF: multiset<int>, f: nat, x: File)
    requires FilesCounted(files, ofile, othersF, mineF) && f < NFILE && files[f].ref > 0 && x.ref == files[f].ref
    requires x.kind == FdInode ==> 0 <= x.ip < NINODE
    ensures FilesCounted(files[f := x], ofile, othersF, mineF)
  {
    hide Descriptors;
  }

  /** fdalloc: the lowest free descriptor. */
  method Fdalloc(s: Sys, f: int) returns (fd: int)
    requires |s.ofile| == NOFILE && f >= 0
    modifies s`ofile
    ensures -1 <= fd < NOFILE && (fd == -1 <==> -1 !in old(s.ofile))
    ensures fd == -1 ==> s.ofile == old(s.ofile)
    ensures fd != -1 ==>
              old(s.ofile)[fd] == -1 && (forall k :: 0 <= k < fd ==> old(s.ofile)[k] != -1)
              && s.ofile == old(s.ofile)[fd := f]
  {
    fd := 0;
    while fd < NOFILE
      invariant 0 <= fd <= NOFILE && s.ofile == old(s.ofile)
      invariant forall k :: 0 <= k < fd ==> s.ofile[k] != -1
    {
      if s.ofile[fd] == -1 {
        s.ofile := s.ofile[fd := f];
        return;
      }
      fd := fd + 1;
    }
    fd := -1;
  }

  predicate Argfd(ofile: seq<int>, fd: int) {
    0 <= fd < |ofile| && ofile[fd] != -1
  }

  method SysDup(s: Sys, fd0: int) returns (fd: int)
    requires s.Idle()
    modifies s`ofile, s`files, s`mineF
    ensures s.Idle()
    ensures fd == -1 <==> !Argfd(old(s.ofile), fd0) || -1 !in old(s.ofile)
    ensures fd == -1 ==> s.ofile == old(s.ofile) && s.files == old(s.files)
    ensures fd != -1 ==> 0 <= fd < NOFILE && old(s.ofile)[fd] == -1 && s.ofile == old(s.ofile)[fd := old(s.ofile)[fd0]]
    ensures fd != -1 ==> forall k :: 0 <= k < fd ==> old(s.ofile)[k] != -1
  {
    hide KeepersOk, FilesCounted, InodesCounted, CacheOk, LocksOk, Descriptors, Held;
    s.Sizes();
    if !(0 <= fd0 < NOFILE) || s.ofile[fd0] == -1 {
      return -1;
    }
    var f := s.ofile[fd0];
    InRange(s.files, s.ofile, s.othersF, s.mineF, fd0);
    ghost var was := s.ofile;
    fd := Fdalloc(s, f);
    if fd < 0 {
      return -1;
    }
    // filedup(f): the descriptor already stored holds the new reference
    FileUp(s.files, was, s.othersF, s.mineF, f);
    Once(s.mineF, f);
    Installed(s.files[f := s.files[f].(ref := s.files[f].ref + 1)], was, s.othersF, s.mineF + multiset{f}, fd, f);
    s.files := s.files[f := s.files[f].(ref := s.files[f].ref + 1)];
  }

  lemma Once(m: multiset<int>, f: int)
    ensures (m + multiset{f})[f] >= 1 && m + multiset{f} - multiset{f} == m
  {
  }

  lemma InRange(files: seq<File>, ofile: seq<int>, othersF: multiset<int>, mineF: multiset<int>, fd: nat)
    requires FilesCounted(files, ofile, othersF, mineF) && fd < NOFILE
    ensures -1 <= ofile[fd] < NFILE
  {
  }

  /** The inodes on disk when the descriptor has been closed. */
  function TreeAfterFd(tree: Tree, files: seq<File>, icache: seq<Cached>, f: int): Tree {
    if 0 <= f < |files| then TreeAfterClose(tree, files[f], icache) else tree
  }

  method SysClose(s: Sys, fd: int) returns (r: int)
    requires s.Idle()
    modifies s
    ensures s.Idle() && s.cwd == old(s.cwd) && s.othersF == old(s.othersF) && s.others == old(s.others)
    ensures s.named == old(s.named)
    ensures r == if Argfd(old(s.ofile), fd) then 0 else -1
    ensures s.ofile == if r == 0 then old(s.ofile)[fd := -1] else old(s.ofile)
    ensures s.tree ==
            if r == 0 then TreeAfterFd(old(s.tree), old(s.files), old(s.icache), old(s.ofile)[fd]) else old(s.tree)
    ensures Shrunk(old(s.tree), s.tree)
    ensures Links(old(s.tree)) ==> Links(s.tree)
    ensures Healthy(old(s.tree)) ==> Healthy(s.tree)
  {
    hide KeepersOk, FilesCounted, InodesCounted, CacheOk, LocksOk, Descriptors, Held, Shrunk, TreeAfterFd, Links,
        Healthy;
    s.Sizes();
    ShrunkSelf(s.tree);
    if !(0 <= fd < NOFILE) || s.ofile[fd] == -1 {
      return -1;
    }
    InRange(s.files, s.ofile, s.othersF, s.mineF, fd);
    CloseFd(s, fd);
    HealthyShrunk(old(s.tree), s.tree);
    return 0;
  }

  /** A descriptor cleared and its file closed. */
  method CloseFd(s: Sys, fd: nat)
    requires s.Idle() && |s.ofile| == NOFILE && fd < NOFILE && s.ofile[fd] >= 0
    modifies s
    ensures s.Idle() && |s.ofile| == NOFILE && s.ofile == old(s.ofile)[fd := -1]
    ensures s.cwd == old(s.cwd) && s.othersF == old(s.othersF) && s.others == old(s.others) && s.named == old(s.named)
    ensures s.tree == TreeAfterFd(old(s.tree), old(s.files), old(s.icache), old(s.ofile)[fd])
            && Shrunk(old(s.tree), s.tree)
  {
    hide KeepersOk, FilesCounted, InodesCounted, CacheOk, LocksOk, Descriptors, Held, Shrunk, TreeAfterClose;
    s.Sizes();
    var f := s.ofile[fd];
    Removed(s.files, s.ofile, s.othersF, s.mineF, fd);
    Once(multiset{}, f);
    s.ofile := s.ofile[fd := -1];
    s.mineF := s.mineF + multiset{f};
    assert s.mineF == multiset{} + multiset{f};
    var end := s.Fileclose(f);
  }

  // ---- Steps that several calls share ---------------------------------------------------------------------------

  /** fdalloc for a file that the call holds: on success the descriptor holds it instead. */
  method Install(s: Sys, f: int, ghost rest: multiset<int>) returns (fd: int)
    requires s.Inv() && |s.ofile| == NOFILE && 0 <= f < NFILE && s.mineF == rest + multiset{f}
    modifies s`ofile, s`mineF
    ensures s.Inv() && |s.ofile| == NOFILE && -1 <= fd < NOFILE && (fd == -1 <==> -1 !in old(s.ofile))
    ensures fd == -1 ==> s.ofile == old(s.ofile) && s.mineF == old(s.mineF)
    ensures fd != -1 ==>
              old(s.ofile)[fd] == -1 && (forall k :: 0 <= k < fd ==> old(s.ofile)[k] != -1)
              && s.ofile == old(s.ofile)[fd := f] && s.mineF == rest
  {
    hide KeepersOk, FilesCounted, InodesCounted, CacheOk, LocksOk, Descriptors, Held;
    ghost var was := s.ofile;
    fd := Fdalloc(s, f);
    if fd != -1 {
      Once(rest, f);
      Installed(s.files, was, s.othersF, s.mineF, fd, f);
      s.mineF := rest;
    }
  }

  /** `proc->ofile[fd] = 0` for a descriptor just stored. */
  method TakeBack(s: Sys, fd: int, f: int)
    requires s.Inv() && |s.ofile| == NOFILE && 0 <= fd < NOFILE && s.ofile[fd] == f && f >= 0
    modifies s`ofile, s`mineF
    ensures s.Inv() && s.ofile == old(s.ofile)[fd := -1] && s.mineF == old(s.mineF) + multiset{f}
  {
    hide KeepersOk, FilesCounted, InodesCounted, CacheOk, LocksOk, Descriptors, Held;
    Removed(s.files, s.ofile, s.othersF, s.mineF, fd);
    s.ofile := s.ofile[fd := -1];
    s.mineF := s.mineF + multiset{f};
  }

  method CloseOne(s: Sys, f: int, ghost rest: multiset<int>)
    requires s.Inv() && 0 <= f < NFILE && s.mineF == rest + multiset{f}
    modifies s
    ensures s.Inv() && s.mineF == rest && s.mine == old(s.mine) && s.myLocks == old(s.myLocks)
            && s.named == old(s.named)
    ensures s.ofile == old(s.ofile) && s.cwd == old(s.cwd) && s.othersF == old(s.othersF) && s.others == old(s.others)
    ensures forall k: nat :: k < NFILE && k != f ==> s.files[k] == old(s.files)[k]
    ensures s.tree == TreeAfterClose(old(s.tree), old(s.files)[f], old(s.icache)) && Shrunk(old(s.tree), s.tree)
  {
    hide KeepersOk, FilesCounted, InodesCounted, CacheOk, LocksOk, Descriptors, Held, Sys.Inv, Shrunk, TreeAfterClose;
    Once(rest, f);
    var end := s.Fileclose(f);
  }

  lemma KeepersSet(files: seq<File>, f: nat, x: File, icache: seq<Cached>, cwd: int, others: multiset<int>,
          named: map<int, nat>)
    requires KeepersOk(icache, Held(files), cwd, others, named) && f < |files| && files[f].kind == FdNone
    requires x.kind == FdInode ==> 0 <= x.ip < |icache|
    ensures KeepersOk(icache, Held(files[f := x]), cwd, others,
                if x.kind == FdInode then named[x.ip := icache[x.ip].inum] else named)
  {
    HeldUpdate(files, f, x);
    hide Held, KeepersOk;
    if x.kind == FdInode {
      NewKeeper(icache, Held(files), Held(files[f := x]), cwd, cwd, others, named, x.ip);
    } else {
      FewerKeepers(icache, Held(files), Held(files[f := x]), cwd, cwd, others, others, named);
    }
  }

  /** A new open file gets its kind: it has held nothing so far. */
  method SetFile(s: Sys, f: int, x: File)
    requires s.Inv() && |s.files| == NFILE && 0 <= f < NFILE && s.files[f].kind == FdNone && s.files[f].ref == x.ref
             && x.ref > 0
    requires x.kind == FdInode ==> 0 <= x.ip < NINODE && s.mine[x.ip] >= 1 && x.ip !in s.myLocks
    modifies s`files, s`mine, s`named
    ensures s.Inv() && s.files == old(s.files)[f := x]
    ensures s.mine == if x.kind == FdInode then old(s.mine) - multiset{x.ip} else old(s.mine)
    ensures x.kind != FdInode ==> s.named == old(s.named)
    ensures x.kind == FdInode ==> x.ip < |s.icache| && s.named == old(s.named)[x.ip := s.icache[x.ip].inum]
  {
    hide KeepersOk, FilesCounted, InodesCounted, CacheOk, LocksOk, Descriptors, Held;
    FileSet(s.files, s.ofile, s.othersF, s.mineF, f, x, s.icache, s.cwd, s.myLocks, s.others, s.mine);
    s.Sizes();
    KeepersSet(s.files, f, x, s.icache, s.cwd, s.others, s.named);
    if x.kind == FdInode {
      s.named := s.named[x.ip := s.icache[x.ip].inum];
    }
    s.files := s.files[f := x];
    s.mine := if x.kind == FdInode then s.mine - multiset{x.ip} else s.mine;
  }

  /** sys_pipe; page says whether kalloc has a page for the pipe. */
  method SysPipe(s: Sys, page: bool) returns (fd0: int, fd1: int)
    requires s.Idle()
    modifies s
    ensures s.Idle() && s.cwd == old(s.cwd) && s.othersF == old(s.othersF) && s.others == old(s.others)
            && s.tree == old(s.tree) && s.named == old(s.named)
    ensures fd0 == -1 <==> fd1 == -1
    ensures fd0 != -1 <==> page && TwoFiles(old(s.files)) && TwoDescriptors(old(s.ofile))
    ensures fd0 == -1 ==> s.ofile == old(s.ofile)
    ensures fd0 != -1 ==>
              0 <= fd0 < fd1 < NOFILE && |old(s.ofile)| == NOFILE && old(s.ofile)[fd0] == old(s.ofile)[fd1] == -1
    ensures fd0 != -1 ==>
              |s.ofile| == NOFILE && s.ofile == old(s.ofile)[fd0 := s.ofile[fd0]][fd1 := s.ofile[fd1]]
              && PipeEnds(s.files, s.ofile[fd0], s.ofile[fd1])
  {
    hide KeepersOk, FilesCounted, InodesCounted, CacheOk, LocksOk, Descriptors, Held;
    s.Sizes();
    hide Sys.Inv;
    var f, g := Pipealloc(s, page);
    if f == -1 {
      return -1, -1;
    }
    fd0 := Install(s, f, multiset{g});
    fd1 := -1;
    if fd0 != -1 {
      fd1 := Install(s, g, multiset{});
      if fd1 == -1 {
        TakeBack(s, fd0, f);
        fd0 := -1;
      }
    }
    if fd0 == -1 {
      assert s.mineF == multiset{g} + multiset{f};
      CloseOne(s, f, multiset{g});
      CloseOne(s, g, multiset{});
      assert s.ofile == old(s.ofile);
    }
  }

  /** Two files are free. */
  ghost predicate TwoFiles(files: seq<File>) {
    exists f: nat, g: nat :: f < g < |files| && files[f].ref == 0 && files[g].ref == 0
  }

  predicate NoFileFree(files: seq<File>) {
    forall k: nat :: k < |files| ==> files[k].ref != 0
  }

  /** filealloc twice gives two files exactly when two are free. */
  lemma TwoTaken(files: seq<File>, f: int, g: int)
    requires -1 <= f < |files| && -1 <= g < |files|
    requires f == -1 ==> g == -1 && NoFileFree(files)
    requires f != -1 ==> files[f].ref == 0 && forall k: nat :: k < f ==> files[k].ref != 0
    requires f != -1 && g == -1 ==> NoFileFree(files[f := files[f].(ref := 1)])
    requires f != -1 && g != -1 ==> files[f := files[f].(ref := 1)][g].ref == 0
    ensures TwoFiles(files) <==> f != -1 && g != -1
    ensures f != -1 && g != -1 ==> f < g
  {
    if f != -1 {
      var taken := files[f := files[f].(ref := 1)];
      assert forall k: nat :: k < |files| && k != f ==> taken[k] == files[k];
    }
  }

  /** Two descriptors are free. */
  ghost predicate TwoDescriptors(ofile: seq<int>) {
    exists a: nat, b: nat :: a < b < |ofile| && ofile[a] == -1 && ofile[b] == -1
  }

  predicate PipeEnds(files: seq<File>, f: int, g: int) {
    0 <= f < |files| && 0 <= g < |files| && f != g && files[f].kind == FdPipe && files[g].kind == FdPipe
    && files[f].readable && !files[f].writable && files[g].writable && !files[g].readable
  }

  /** pipealloc's bad: the files taken are closed again. */
  method NoPipe(s: Sys, f: int, g: int)
    requires s.Inv() && |s.files| == NFILE && -1 <= f < NFILE && -1 <= g < NFILE && (f != g || f == g == -1)
    requires s.mineF == (if g != -1 then multiset{g} else multiset{}) + (if f != -1 then multiset{f} else multiset{})
    requires (f != -1 ==> s.files[f].kind == FdNone) && (g != -1 ==> s.files[g].kind == FdNone)
    modifies s
    ensures s.Inv() && s.mineF == multiset{} && s.mine == old(s.mine) && s.myLocks == old(s.myLocks)
            && s.tree == old(s.tree) && s.named == old(s.named)
    ensures s.ofile == old(s.ofile) && s.cwd == old(s.cwd) && s.othersF == old(s.othersF) && s.others == old(s.others)
  {
    hide KeepersOk, FilesCounted, InodesCounted, CacheOk, LocksOk, Descriptors, Held, Sys.Inv;
    if f != -1 {
      CloseOne(s, f, if g != -1 then multiset{g} else multiset{});
    }
    if g != -1 {
      CloseOne(s, g, multiset{});
    }
  }

  /** pipealloc: both ends, or nothing. */
  method Pipealloc(s: Sys, page: bool) returns (f: int, g: int)
    requires s.Idle() && |s.files| == NFILE
    modifies s
    ensures s.Inv() && s.ofile == old(s.ofile) && s.cwd == old(s.cwd) && s.othersF == old(s.othersF)
            && s.others == old(s.others)
    ensures s.mine == multiset{} && s.myLocks == {} && s.tree == old(s.tree) && s.named == old(s.named)
    ensures f == -1 ==> s.mineF == multiset{}
    ensures f != -1 <==> page && TwoFiles(old(s.files))
    ensures f != -1 ==> 0 <= f < g < NFILE && s.mineF == multiset{g} + multiset{f} && PipeEnds(s.files, f, g)
  {
    hide KeepersOk, FilesCounted, InodesCounted, CacheOk, LocksOk, Descriptors, Held, Sys.Inv;
    hide TwoFiles;
    f := s.Filealloc();
    g := -1;
    if f != -1 {
      g := s.Filealloc();
    }
    TwoTaken(old(s.files), f, g);
    if f == -1 || g == -1 || !page {
      NoPipe(s, f, g);
      return -1, -1;
    }
    SetFile(s, f, File(1, FdPipe, -1, true, false));
    SetFile(s, g, File(1, FdPipe, -1, false, true));
  }
}
