/**
 The open-file table, the inode cache and the descriptors of one process, with everything that holds a
 reference: filealloc, filedup, fileclose, iget, idup, ilock, iunlock, iput.
 */
module SysRefs {
  import opened Counting
  import opened FsPath

  const NFILE := 100
  const NINODE := 50
  const NOFILE := 16

  /** How a call ends: it returns, the kernel panics, or it waits for an inode lock somebody else has. */
  datatype End = Returns | Panics | Waits

  datatype Kind = FdNone | FdPipe | FdInode

  datatype File = File(ref: int, kind: Kind, ip: int, readable: bool, writable: bool)
  datatype Cached = Cached(ref: int, inum: nat, valid: bool, busy: bool)

  function IpOf(f: File): int {
    if f.kind == FdInode then f.ip else -1
  }

  /** The inodes that the open files hold. */
  function Ips(files: seq<File>): (r: seq<int>)
    ensures |r| == |files|
  {
    seq(|files|, k requires 0 <= k < |files| => IpOf(files[k]))
  }

  /** How often each inode is held by an open file. */
  function Held(files: seq<File>): multiset<int> {
    multiset(Ips(files))
  }

  /** How often each file is in the descriptor table. */
  function Descriptors(ofile: seq<int>): multiset<int> {
    multiset(ofile)
  }

  lemma HeldUpdate(files: seq<File>, f: nat, x: File)
    requires f < |files|
    ensures Held(files[f := x]) == Held(files) - multiset{IpOf(files[f])} + multiset{IpOf(x)}
    ensures IpOf(files[f]) in Held(files)
  {
    var a := Ips(files);
    assert Ips(files[f := x]) == a[f := IpOf(x)];
    assert a[f] in a;
  }

  lemma HeldSame(files: seq<File>, f: nat, x: File)
    requires f < |files| && IpOf(x) == IpOf(files[f])
    ensures Held(files[f := x]) == Held(files)
  {
    var a := Ips(files);
    assert Ips(files[f := x]) == a;
  }

  // ---- What the counts mean -----------------------------------------------------------------------------------

  /** Each file's ref is the number of descriptors, and of calls, that hold it. */
  ghost predicate FilesCounted(files: seq<File>, ofile: seq<int>, othersF: multiset<int>, mineF: multiset<int>) {
    && |files| == NFILE && |ofile| == NOFILE
    && (forall k: nat :: k < NOFILE ==> -1 <= ofile[k] < NFILE)
    && (forall f: nat :: f < NFILE ==> files[f].ref == Descriptors(ofile)[f] + othersF[f] + mineF[f])
    && (forall f: nat :: f < NFILE && files[f].ref == 0 ==> files[f].kind == FdNone)
    && forall f: nat :: f < NFILE && files[f].kind == FdInode ==> 0 <= files[f].ip < NINODE
  }

  /** Each inode's ref is the number of open files, working directories and calls that hold it. */
  ghost predicate InodesCounted(icache: seq<Cached>, held: multiset<int>, cwd: int, others: multiset<int>,
          mine: multiset<int>) {
    && |icache| == NINODE && -1 <= cwd < NINODE
    && forall i: nat :: i < NINODE ==> icache[i].ref == held[i] + (if cwd == i then 1 else 0) + others[i] + mine[i]
  }

  /** No inode is cached twice; what has been read in is on disk. */
  ghost predicate CacheOk(icache: seq<Cached>, tree: Tree) {
    && |icache| == NINODE
    && (forall i: nat, j: nat :: i < j < NINODE && icache[i].ref > 0 && icache[j].ref > 0 ==>
         icache[i].inum != icache[j].inum)
    && forall i: nat :: i < NINODE && icache[i].ref > 0 && icache[i].valid ==> icache[i].inum in tree
  }

  /** Whoever has an inode locked holds a reference to it. */
  ghost predicate LocksOk(icache: seq<Cached>, myLocks: set<int>, others: multiset<int>, mine: multiset<int>) {
    && |icache| == NINODE
    && (forall i <- myLocks :: 0 <= i < NINODE && icache[i].busy && icache[i].valid && mine[i] >= 1)
    && forall i: nat :: i < NINODE && icache[i].busy ==> i in myLocks || others[i] >= 1
  }

  /** The working directory is on disk. */
  ghost predicate HereOk(icache: seq<Cached>, cwd: int, tree: Tree) {
    0 <= cwd < |icache| ==> icache[cwd].inum in tree
  }

  /** An open file, a working directory or another call holds the slot. */
  predicate Keeper(held: multiset<int>, cwd: int, others: multiset<int>, k: int) {
    held[k] > 0 || cwd == k || others[k] > 0
  }

  /** Slots so held are for the inodes that they were when they were taken. */
  ghost predicate KeepersOk(icache: seq<Cached>, held: multiset<int>, cwd: int, others: multiset<int>,
          named: map<int, nat>) {
    forall k: nat :: k < |icache| && Keeper(held, cwd, others, k) ==> k in named && icache[k].inum == named[k]
  }

  lemma SlotSet(icache: seq<Cached>, held: multiset<int>, cwd: int, others: multiset<int>, named: map<int, nat>,
          c: Cached, i: nat)
    requires KeepersOk(icache, held, cwd, others, named) && i < |icache|
    requires c.inum == icache[i].inum || !Keeper(held, cwd, others, i)
    ensures KeepersOk(icache[i := c], held, cwd, others, named)
  {
  }

  lemma UnusedIsNotKept(icache: seq<Cached>, held: multiset<int>, cwd: int, others: multiset<int>,
          mine: multiset<int>, i: nat)
    requires InodesCounted(icache, held, cwd, others, mine) && i < NINODE && icache[i].ref == 0
    ensures !Keeper(held, cwd, others, i)
  {
  }

  lemma FewerKeepers(icache: seq<Cached>, held: multiset<int>, held2: multiset<int>, cwd: int, cwd2: int,
          others: multiset<int>, others2: multiset<int>, named: map<int, nat>)
    requires KeepersOk(icache, held, cwd, others, named)
    requires forall k: nat :: Keeper(held2, cwd2, others2, k) ==> Keeper(held, cwd, others, k)
    ensures KeepersOk(icache, held2, cwd2, others2, named)
  {
  }

  /** One more slot is kept. */
  lemma NewKeeper(icache: seq<Cached>, held: multiset<int>, held2: multiset<int>, cwd: int, cwd2: int,
          others: multiset<int>, named: map<int, nat>, i: nat)
    requires KeepersOk(icache, held, cwd, others, named) && i < |icache|
    requires forall k: nat :: Keeper(held2, cwd2, others, k) ==> k == i || Keeper(held, cwd, others, k)
    ensures KeepersOk(icache, held2, cwd2, others, named[i := icache[i].inum])
  {
  }

  /** The slots that nobody uses, but for the call under way. */
  ghost function Spare(held: multiset<int>, cwd: int, others: multiset<int>): set<nat> {
    set i: nat | i < NINODE && held[i] == 0 && cwd != i && others[i] == 0
  }

  /** With every slot in use, all that nobody else uses are the call's. */
  lemma FullIsCrowded(icache: seq<Cached>, held: multiset<int>, cwd: int, others: multiset<int>, mine: multiset<int>)
    requires InodesCounted(icache, held, cwd, others, mine) && forall k: nat :: k < NINODE ==> icache[k].ref != 0
    ensures |Spare(held, cwd, others)| <= |mine| && forall k: nat :: k < NINODE ==> icache[k].ref > 0
  {
    SupportSize(Spare(held, cwd, others), mine);
  }

  /** The cache has neither the inode nor an unused slot. */
  predicate NoSlot(icache: seq<Cached>, inum: nat) {
    forall k: nat :: k < |icache| ==> icache[k].ref != 0 && icache[k].inum != inum
  }

  /** The inodes locked by others. */
  ghost function Theirs(icache: seq<Cached>, myLocks: set<int>): set<nat> {
    set i: nat | i < |icache| && icache[i].busy && i !in myLocks
  }

  lemma TheirsKept(icache: seq<Cached>, myLocks: set<int>, c: Cached, i: nat)
    requires i < |icache|
    ensures c.busy == icache[i].busy ==> Theirs(icache[i := c], myLocks) == Theirs(icache, myLocks)
    ensures c.busy && !icache[i].busy ==> Theirs(icache[i := c], myLocks + {i}) == Theirs(icache, myLocks)
    ensures !c.busy && i in myLocks ==> Theirs(icache[i := c], myLocks - {i}) == Theirs(icache, myLocks)
  {
  }

  ghost predicate OtherSlotsKept(c: seq<Cached>, c2: seq<Cached>, ip: int) {
    |c2| == |c| && forall k: nat :: k < |c| && k != ip ==> c2[k] == c[k]
  }

  /** The slots that m holds still cache the same inodes, and what they had read in. */
  ghost predicate SlotsKept(c: seq<Cached>, c2: seq<Cached>, m: multiset<int>) {
    |c2| == |c| && forall k: nat :: k < |c| && k in m ==> c2[k].inum == c[k].inum && (c[k].valid ==> c2[k].valid)
  }

  lemma OneSlotChanged(icache: seq<Cached>, c: Cached, i: nat, m: multiset<int>)
    requires i < |icache| && c.inum == icache[i].inum && (c.valid == icache[i].valid || i !in m)
    ensures OtherSlotsKept(icache, icache[i := c], i) && SlotsKept(icache, icache[i := c], m)
  {
  }

  lemma InumsStay(c: seq<Cached>, c2: seq<Cached>, c3: seq<Cached>, m: multiset<int>)
    requires SlotsKept(c, c2, m) && SlotsKept(c2, c3, m)
    ensures SlotsKept(c, c3, m)
  {
  }

  lemma InumsOfFewer(c: seq<Cached>, c2: seq<Cached>, m: multiset<int>, i: int)
    requires SlotsKept(c, c2, m + multiset{i})
    ensures SlotsKept(c, c2, m)
  {
  }

  // ---- One reference more, one reference less -----------------------------------------------------------------

  lemma FileUp(files: seq<File>, ofile: seq<int>, othersF: multiset<int>, mineF: multiset<int>, f: nat)
    requires FilesCounted(files, ofile, othersF, mineF) && f < NFILE
    ensures var g := files[f := files[f].(ref := files[f].ref + 1)];
            FilesCounted(g, ofile, othersF, mineF + multiset{f}) && Held(g) == Held(files)
  {
    HeldSame(files, f, files[f].(ref := files[f].ref + 1));
    hide Held, Descriptors;
  }

  lemma FileDown(files: seq<File>, ofile: seq<int>, othersF: multiset<int>, mineF: multiset<int>, f: nat)
    requires FilesCounted(files, ofile, othersF, mineF) && f < NFILE && mineF[f] >= 1 && files[f].ref > 1
    ensures var g := files[f := files[f].(ref := files[f].ref - 1)];
            FilesCounted(g, ofile, othersF, mineF - multiset{f}) && Held(g) == Held(files)
  {
    HeldSame(files, f, files[f].(ref := files[f].ref - 1));
    hide Held, Descriptors;
  }

  lemma FileGone(files: seq<File>, ofile: seq<int>, othersF: multiset<int>, mineF: multiset<int>, f: nat)
    requires FilesCounted(files, ofile, othersF, mineF) && f < NFILE && mineF[f] >= 1 && files[f].ref <= 1
    ensures var g := files[f := files[f].(ref := 0, kind := FdNone)];
            && FilesCounted(g, ofile, othersF, mineF - multiset{f})
            && IpOf(files[f]) in Held(files) && Held(g) == Held(files) - multiset{IpOf(files[f])} + multiset{-1}
    ensures files[f].kind == FdInode ==> 0 <= files[f].ip < NINODE
  {
    HeldUpdate(files, f, files[f].(ref := 0, kind := FdNone));
    hide Held, Descriptors;
  }

  lemma InodeUp(icache: seq<Cached>, held: multiset<int>, cwd: int, others: multiset<int>, mine: multiset<int>,
          c: Cached, i: nat)
    requires InodesCounted(icache, held, cwd, others, mine) && i < NINODE && c.ref == icache[i].ref + 1
    ensures InodesCounted(icache[i := c], held, cwd, others, mine + multiset{i})
  {
  }

  lemma InodeDown(icache: seq<Cached>, held: multiset<int>, cwd: int, others: multiset<int>, mine: multiset<int>,
          c: Cached, i: nat)
    requires InodesCounted(icache, held, cwd, others, mine) && i < NINODE && c.ref == icache[i].ref - 1 && mine[i] >= 1
    ensures icache[i].ref >= 1 && InodesCounted(icache[i := c], held, cwd, others, mine - multiset{i})
  {
  }

  /** The reference of a closed file passes to the call. */
  lemma InodeHanded(icache: seq<Cached>, held: multiset<int>, held2: multiset<int>, cwd: int, others: multiset<int>,
          mine: multiset<int>, i: int)
    requires InodesCounted(icache, held, cwd, others, mine) && i in held && held2 == held - multiset{i} + multiset{-1}
    ensures 0 <= i ==> InodesCounted(icache, held2, cwd, others, mine + multiset{i})
    ensures i < 0 ==> InodesCounted(icache, held2, cwd, others, mine)
  {
  }

  function Handed(f: File, mine: multiset<int>): multiset<int> {
    if f.kind == FdInode then mine + multiset{f.ip} else mine
  }

  /** The last close of a file: its inode's reference passes to the call. */
  lemma HandedOver(files: seq<File>, ofile: seq<int>, othersF: multiset<int>, mineF: multiset<int>, f: nat,
    icache: seq<Cached>, cwd: int, myLocks: set<int>, others: multiset<int>, mine: multiset<int>)
    requires FilesCounted(files, ofile, othersF, mineF) && f < NFILE && mineF[f] >= 1 && files[f].ref <= 1
    requires InodesCounted(icache, Held(files), cwd, others, mine) && LocksOk(icache, myLocks, others, mine)
    ensures var g := files[f := files[f].(ref := 0, kind := FdNone)];
            && FilesCounted(g, ofile, othersF, mineF - multiset{f})
            && InodesCounted(icache, Held(g), cwd, others, Handed(files[f], mine))
               && LocksOk(icache, myLocks, others, Handed(files[f], mine))
    ensures files[f].kind == FdInode ==>
              var ip := files[f].ip;
              0 <= ip < NINODE && Handed(files[f], mine)[ip] >= 1 && (ip in myLocks ==> Handed(files[f], mine)[ip] >= 2)
              && Handed(files[f], mine) - multiset{ip} == mine
    ensures files[f].kind != FdInode ==> Handed(files[f], mine) == mine
  {
    hide KeepersOk, FilesCounted, InodesCounted, LocksOk, Held, Descriptors;
    FilesLength(files, ofile, othersF, mineF);
    FileGone(files, ofile, othersF, mineF, f);
    var g := files[f := files[f].(ref := 0, kind := FdNone)];
    InodeHanded(icache, Held(files), Held(g), cwd, others, mine, IpOf(files[f]));
    LocksMore(icache, myLocks, others, mine, files[f].ip);
    MineHas(icache, myLocks, others, mine, files[f].ip);
    assert mine + multiset{files[f].ip} - multiset{files[f].ip} == mine;
  }

  lemma GoneIsNoKeeper(files: seq<File>, ofile: seq<int>, othersF: multiset<int>, mineF: multiset<int>, f: nat,
          icache: seq<Cached>, cwd: int, others: multiset<int>, named: map<int, nat>)
    requires FilesCounted(files, ofile, othersF, mineF) && f < NFILE && mineF[f] >= 1 && files[f].ref <= 1
    requires KeepersOk(icache, Held(files), cwd, others, named)
    ensures KeepersOk(icache, Held(files[f := files[f].(ref := 0, kind := FdNone)]), cwd, others, named)
  {
    FilesLength(files, ofile, othersF, mineF);
    FileGone(files, ofile, othersF, mineF, f);
    hide Held, FilesCounted, KeepersOk;
    FewerKeepers(icache, Held(files), Held(files[f := files[f].(ref := 0, kind := FdNone)]), cwd, cwd, others, others,
        named);
  }

  /** The slot's last reference is to an inode without links. */
  predicate LastOfUnlinked(c: Cached, tree: Tree) {
    c.ref == 1 && c.valid && c.inum in tree && tree[c.inum].nlink == 0
  }

  /** The inodes on disk when a reference to the slot's inode has been dropped. */
  function TreeAfterPut(tree: Tree, c: Cached): Tree {
    if LastOfUnlinked(c, tree) then tree - {c.inum} else tree
  }

  /** The inodes on disk when a reference to the file has been dropped. */
  function TreeAfterClose(tree: Tree, f: File, icache: seq<Cached>): Tree {
    if f.ref == 1 && f.kind == FdInode && 0 <= f.ip < |icache| then TreeAfterPut(tree, icache[f.ip]) else tree
  }

  lemma PutShrinks(tree: Tree, c: Cached)
    ensures Shrunk(tree, TreeAfterPut(tree, c))
  {
  }

  lemma LocksUp(icache: seq<Cached>, myLocks: set<int>, others: multiset<int>, mine: multiset<int>, c: Cached, i: nat)
    requires LocksOk(icache, myLocks, others, mine) && i < NINODE && c.busy == icache[i].busy
             && (i in myLocks ==> c.valid)
    ensures LocksOk(icache[i := c], myLocks, others, mine + multiset{i})
  {
  }

  lemma LocksDown(icache: seq<Cached>, myLocks: set<int>, others: multiset<int>, mine: multiset<int>, c: Cached, i: nat)
    requires LocksOk(icache, myLocks, others, mine) && i < NINODE && c.busy == icache[i].busy
             && (i in myLocks ==> mine[i] >= 2 && c.valid)
    ensures LocksOk(icache[i := c], myLocks, others, mine - multiset{i})
  {
  }

  lemma LocksMore(icache: seq<Cached>, myLocks: set<int>, others: multiset<int>, mine: multiset<int>, i: int)
    requires LocksOk(icache, myLocks, others, mine)
    ensures LocksOk(icache, myLocks, others, mine + multiset{i})
  {
  }

  /** The last reference to an inode is the call's own, and so nobody has it locked. */
  lemma LastIsMine(icache: seq<Cached>, held: multiset<int>, cwd: int, myLocks: set<int>, others: multiset<int>,
          mine: multiset<int>, i: nat)
    requires InodesCounted(icache, held, cwd, others, mine) && LocksOk(icache, myLocks, others, mine)
    requires i < NINODE && icache[i].ref == 1 && mine[i] >= 1 && (i in myLocks ==> mine[i] >= 2)
    ensures !icache[i].busy
  {
  }

  class Sys {
    var files: seq<File>       // ftable.file
    var icache: seq<Cached>    // icache.inode
    var ofile: seq<int>        // proc->ofile, -1 for 0
    var cwd: int               // proc->cwd, -1 for 0
    var tree: Tree             // the inodes on disk

    ghost var mineF: multiset<int>     // file references of the call under way
    ghost var mine: multiset<int>      // its inode references
    ghost var myLocks: set<int>        // the inodes it has locked
    ghost var othersF: multiset<int>   // descriptors of other processes, and their calls
    ghost var others: multiset<int>    // other processes' working directories, and their calls
    ghost var named: map<int, nat>     // the inodes of the slots that all these hold

    ghost predicate Inv()
      reads this
    {
      && FilesCounted(files, ofile, othersF, mineF) && InodesCounted(icache, Held(files), cwd, others, mine)
      && CacheOk(icache, tree) && LocksOk(icache, myLocks, others, mine) && HereOk(icache, cwd, tree)
      && KeepersOk(icache, Held(files), cwd, others, named)
    }

    /** The inodes that an open file, a working directory or another call holds. */
    ghost function Kept(): set<nat>
      reads this`files, this`cwd, this`others, this`named
    {
      set k: int | 0 <= k < NINODE && Keeper(Held(files), cwd, others, k) && k in named :: named[k]
    }

    /** The working directory is the inode it was when it was set. */
    lemma HereIs()
      requires Inv()
      ensures |icache| == NINODE && (0 <= cwd < NINODE ==> cwd in named && Here() == named[cwd] && Here() in tree)
    {
      hide FilesCounted, CacheOk, LocksOk, Held;
    }

    lemma NamesHold()
      requires Inv()
      ensures |icache| == NINODE
      ensures forall k: nat :: k < NINODE && Keeper(Held(files), cwd, others, k) ==>
                k in named && icache[k].inum == named[k]
    {
      hide FilesCounted, CacheOk, LocksOk, HereOk, Held;
    }

    /** The call has the only reference exactly if nobody keeps the inode. */
    lemma OnlyMine(ip: int)
      requires Inv() && 0 <= ip < NINODE && mine == multiset{ip}
      ensures |icache| == NINODE && (icache[ip].ref == 1 <==> icache[ip].inum !in Kept())
    {
      hide FilesCounted, LocksOk, HereOk, Held;
      if icache[ip].inum in Kept() {
        var k: int :| 0 <= k < NINODE && Keeper(Held(files), cwd, others, k) && k in named
                      && named[k] == icache[ip].inum;
        SlotsDiffer(icache, tree, k, ip);
      }
      assert Keeper(Held(files), cwd, others, ip) ==> named[ip] in Kept();
    }

    /** The inodes that somebody else has locked. */
    ghost function Locks(): set<nat>
      reads this
    {
      Theirs(icache, myLocks)
    }

    /** At most n slots of the inode cache are left to the call under way. */
    ghost predicate Crowded(n: nat)
      reads this`files, this`cwd, this`others
    {
      |Spare(Held(files), cwd, others)| <= n
    }

    /** No file is open on an inode, and no other process is there. */
    ghost predicate Alone()
      reads this`files, this`others
    {
      others == multiset{} && forall k: nat :: Held(files)[k] == 0
    }

    lemma AloneIsRoom()
      requires Alone()
      ensures !Crowded(2) && !Crowded(1)
    {
      var spare := Spare(Held(files), cwd, others);
      SubsetSize({0, 1, 2, 3} - {cwd}, spare);
    }

    /** The call under way holds nothing. */
    ghost predicate Idle()
      reads this
    {
      Inv() && mineF == multiset{} && mine == multiset{} && myLocks == {}
    }

    /** The inode of the working directory. */
    function Here(): nat
      reads this
    {
      if 0 <= cwd < |icache| then icache[cwd].inum else 0
    }

    /** A working directory is in use, so its slot keeps its inode. */
    lemma CwdInUse()
      requires Inv()
      ensures |icache| == NINODE && (0 <= cwd < NINODE ==> icache[cwd].ref >= 1)
      ensures forall k: nat :: k < NINODE && k in mine ==> icache[k].ref >= 1
    {
      hide KeepersOk, FilesCounted, CacheOk, Held;
    }

    lemma InUse(ip: int)
      requires Inv() && 0 <= ip < NINODE && (mine[ip] >= 1 || ip == cwd || ip in myLocks)
      ensures |icache| == NINODE && icache[ip].ref >= 1 && (ip in myLocks ==> mine[ip] >= 1)
    {
      hide KeepersOk, FilesCounted, CacheOk, Held;
    }

    /** A locked inode is in use, read in, and on disk. */
    lemma Locked(ip: int)
      requires Inv() && ip in myLocks
      ensures |icache| == NINODE && 0 <= ip < NINODE && mine[ip] >= 1 && icache[ip].ref > 0 && icache[ip].valid
              && icache[ip].inum in tree
    {
      hide KeepersOk, FilesCounted, Held;
    }

    lemma TwoInums(a: int, b: int)
      requires Inv() && 0 <= a < NINODE && 0 <= b < NINODE && a != b && |icache| == NINODE && icache[a].ref > 0
               && icache[b].ref > 0
      ensures icache[a].inum != icache[b].inum
    {
      hide KeepersOk, FilesCounted, InodesCounted, LocksOk, Held;
    }

    /** Two references of the call to one inode are to one slot, and neither is the last. */
    lemma SameSlot(a: int, b: int)
      requires Inv() && 0 <= a < NINODE && 0 <= b < NINODE && |icache| == NINODE && icache[a].inum == icache[b].inum
      requires a in mine && b in mine && (a == b ==> mine[a] >= 2)
      ensures a == b && icache[a].ref >= 2
    {
      hide FilesCounted, LocksOk, HereOk, Held;
      SlotsDiffer(icache, tree, a, b);
    }

    lemma OneSlot(a: int, b: int)
      requires Inv() && 0 <= a < NINODE && 0 <= b < NINODE && |icache| == NINODE && icache[a].inum == icache[b].inum
      requires a in mine && b in mine
      ensures a == b
    {
      hide FilesCounted, LocksOk, HereOk, Held;
      SlotsDiffer(icache, tree, a, b);
    }

    lemma Sizes()
      requires Inv()
      ensures |icache| == NINODE && |files| == NFILE && |ofile| == NOFILE
      ensures forall ip <- myLocks :: 0 <= ip < NINODE && mine[ip] >= 1
    {
      hide Held, Descriptors;
    }

    /** At boot nothing is open and nothing is cached. */
    constructor (tree: Tree)
      ensures Idle() && this.tree == tree && cwd == -1 && Locks() == {} && forall k: nat :: k < |icache| ==>
                icache[k].ref == 0
      ensures Alone() && forall fd: nat :: fd < |ofile| ==> ofile[fd] == -1
    {
      files := seq(NFILE, _ => File(0, FdNone, -1, false, false));
      icache := seq(NINODE, _ => Cached(0, 0, false, false));
      ofile := seq(NOFILE, _ => -1);
      cwd := -1;
      this.tree := tree;
      named := map[];
      mineF, mine, myLocks, othersF, others := multiset{}, multiset{}, {}, multiset{}, multiset{};
      new;
      AllFree(files, ofile);
    }

    // ---- file.c ---------------------------------------------------------------------------------------------

    method Filealloc() returns (f: int)
      requires Inv()
      modifies this`files, this`mineF
      ensures Inv() && -1 <= f < NFILE
      ensures f == -1 <==> forall k: nat :: k < NFILE ==> old(files)[k].ref != 0
      ensures f == -1 ==> files == old(files) && mineF == old(mineF)
      ensures f != -1 ==> mineF == old(mineF) + multiset{f} && files == old(files)[f := old(files)[f].(ref := 1)]
      ensures f != -1 ==>
                old(files)[f].ref == 0 && files[f].kind == FdNone && mineF[f] == 1 && forall k: nat :: k < f ==>
                  old(files)[k].ref != 0
    {
      hide KeepersOk, FilesCounted, InodesCounted, CacheOk, LocksOk, Held;
      FilesLength(files, ofile, othersF, mineF);
      f := 0;
      while f < NFILE
        invariant 0 <= f <= NFILE && files == old(files) && mineF == old(mineF)
        invariant forall k: nat :: k < f ==> files[k].ref != 0
      {
        if files[f].ref == 0 {
          FileUp(files, ofile, othersF, mineF, f);
          FreeFile(files, ofile, othersF, mineF, f);
          files := files[f := files[f].(ref := 1)];
          mineF := mineF + multiset{f};
          return;
        }
        f := f + 1;
      }
      f := -1;
    }

    /** filedup: the new reference is the call's until it is stored. */
    method Filedup(f: int)
      requires Inv() && 0 <= f < NFILE && files[f].ref >= 1
      modifies this`files, this`mineF
      ensures Inv() && mineF == old(mineF) + multiset{f}
      ensures files == old(files)[f := old(files)[f].(ref := old(files)[f].ref + 1)]
    {
      hide KeepersOk, FilesCounted, InodesCounted, CacheOk, LocksOk, Held;
      FilesLength(files, ofile, othersF, mineF);
      FileUp(files, ofile, othersF, mineF, f);
      files := files[f := files[f].(ref := files[f].ref + 1)];
      mineF := mineF + multiset{f};
    }

    /** fileclose drops one reference of the call; the last one lets the inode go. */
    method Fileclose(f: int) returns (end: End)
      requires Inv() && 0 <= f < NFILE && mineF[f] >= 1
      modifies this
      ensures end == Returns && Inv() && mineF == old(mineF) - multiset{f} && mine == old(mine)
              && myLocks == old(myLocks) && named == old(named)
      ensures ofile == old(ofile) && cwd == old(cwd) && othersF == old(othersF) && others == old(others)
      ensures forall k: nat :: k < NFILE && k != f ==> files[k] == old(files)[k]
      ensures tree == TreeAfterClose(old(tree), old(files)[f], old(icache)) && Shrunk(old(tree), tree)
              && Locks() == old(Locks())
    {
      hide KeepersOk, FilesCounted, InodesCounted, CacheOk, LocksOk, Held, TreeAfterPut, Shrunk, Theirs, SlotsKept,
          OtherSlotsKept;
      HeldFile(files, ofile, othersF, mineF, f);
      CacheLength(icache, tree);
      ShrunkSelf(tree);
      hide Inv, Locks;
      var ff := files[f];
      if ff.ref - 1 > 0 {
        OneHolderLess(f);
        return Returns;
      }
      LastClosed(f);
      if ff.kind == FdInode {
        end := Iput(ff.ip);
      } else {
        end := Returns;
      }
    }

    /** Somebody else still holds the file. */
    method OneHolderLess(f: int)
      requires Inv() && |files| == NFILE && 0 <= f < NFILE && mineF[f] >= 1 && files[f].ref > 1
      modifies this`files, this`mineF
      ensures Inv() && mineF == old(mineF) - multiset{f} && Locks() == old(Locks())
              && files == old(files)[f := old(files)[f].(ref := old(files)[f].ref - 1)]
    {
      hide KeepersOk, FilesCounted, InodesCounted, CacheOk, LocksOk, Held;
      FileDown(files, ofile, othersF, mineF, f);
      files := files[f := files[f].(ref := files[f].ref - 1)];
      mineF := mineF - multiset{f};
    }

    /** The file is forgotten; what it held is the call's for a moment. */
    method LastClosed(f: int)
      requires Inv() && |files| == NFILE && 0 <= f < NFILE && mineF[f] >= 1 && files[f].ref <= 1
      modifies this`files, this`mineF, this`mine
      ensures Inv() && mineF == old(mineF) - multiset{f} && Locks() == old(Locks())
              && files == old(files)[f := old(files)[f].(ref := 0, kind := FdNone)]
      ensures old(files)[f].kind != FdInode ==> mine == old(mine)
      ensures old(files)[f].kind == FdInode ==>
                var ip := old(files)[f].ip;
                0 <= ip < NINODE && mine[ip] >= 1 && (ip in myLocks ==> mine[ip] >= 2)
                && mine - multiset{ip} == old(mine)
    {
      hide KeepersOk, FilesCounted, InodesCounted, CacheOk, LocksOk, Held, Descriptors, IpOf, Handed;
      hide Theirs;
      HandedOver(files, ofile, othersF, mineF, f, icache, cwd, myLocks, others, mine);
      GoneIsNoKeeper(files, ofile, othersF, mineF, f, icache, cwd, others, named);
      ghost var m, mf := Handed(files[f], mine), mineF - multiset{f};
      files := files[f := files[f].(ref := 0, kind := FdNone)];
      mine := m;
      mineF := mf;
    }

    // ---- The inode cache ----------------------------------------------------------------------------------------

    method Iget(inum: nat) returns (end: End, ip: int)
      requires Inv()
      modifies this`icache, this`mine
      ensures end != Waits
      ensures end == Panics <==> NoSlot(old(icache), inum)
      ensures end == Panics ==> mine == old(mine) && icache == old(icache) && Crowded(|mine|)
      ensures Locks() == old(Locks())
      ensures end == Returns ==>
                Inv() && 0 <= ip < NINODE && mine == old(mine) + multiset{ip} && icache[ip].inum == inum
                && icache[ip].ref > 0
      ensures end == Returns ==>
                OtherSlotsKept(old(icache), icache, ip)
                && (old(icache)[ip].ref > 0 ==> icache[ip] == old(icache)[ip].(ref := old(icache)[ip].ref + 1))
      ensures end == Returns ==>
                icache[ip].busy == old(icache)[ip].busy && Here() == old(Here())
                && SlotsKept(old(icache), icache, old(mine))
    {
      hide KeepersOk, FilesCounted, InodesCounted, CacheOk, LocksOk, Held, Spare, Theirs;
      CwdInUse();
      var empty;
      ip, empty := FindSlot(inum);
      if ip != -1 {
        OneMore(icache, Held(files), cwd, myLocks, others, mine, tree, icache[ip].(ref := icache[ip].ref + 1), ip);
        TheirsKept(icache, myLocks, icache[ip].(ref := icache[ip].ref + 1), ip);
        SlotSet(icache, Held(files), cwd, others, named, icache[ip].(ref := icache[ip].ref + 1), ip);
        icache := icache[ip := icache[ip].(ref := icache[ip].ref + 1)];
      } else {
        if empty == -1 {
          FullIsCrowded(icache, Held(files), cwd, others, mine);
          return Panics, -1;
        }
        NotBusyFree(icache, Held(files), cwd, myLocks, others, mine, empty);
        OneMore(icache, Held(files), cwd, myLocks, others, mine, tree, Cached(1, inum, false, false), empty);
        TheirsKept(icache, myLocks, Cached(1, inum, false, false), empty);
        UnusedIsNotKept(icache, Held(files), cwd, others, mine, empty);
        SlotSet(icache, Held(files), cwd, others, named, Cached(1, inum, false, false), empty);
        icache := icache[empty := Cached(1, inum, false, false)];
        ip := empty;
      }
      mine := mine + multiset{ip};
      end := Returns;
    }

    /** iget's scan: the slot of the inode, or else the first unused one. */
    method FindSlot(inum: nat) returns (ip: int, empty: int)
      requires |icache| == NINODE
      ensures -1 <= ip < NINODE && -1 <= empty < NINODE
      ensures ip != -1 ==> icache[ip].ref > 0 && icache[ip].inum == inum
      ensures ip == -1 ==> forall k: nat :: k < NINODE ==> !(icache[k].ref > 0 && icache[k].inum == inum)
      ensures ip == -1 && empty != -1 ==> icache[empty].ref == 0
      ensures ip == -1 && empty == -1 ==> forall k: nat :: k < NINODE ==> icache[k].ref != 0
    {
      empty := -1;
      ip := 0;
      while ip < NINODE
        invariant 0 <= ip <= NINODE
        invariant forall k: nat :: k < ip ==> !(icache[k].ref > 0 && icache[k].inum == inum)
        invariant -1 <= empty < ip && (empty != -1 ==> icache[empty].ref == 0)
        invariant empty == -1 ==> forall k: nat :: k < ip ==> icache[k].ref != 0
      {
        if icache[ip].ref > 0 && icache[ip].inum == inum {
          return;
        }
        if empty == -1 && icache[ip].ref == 0 {
          empty := ip;
        }
        ip := ip + 1;
      }
      ip := -1;
    }

    method Idup(ip: int)
      requires Inv() && 0 <= ip < NINODE && icache[ip].ref >= 1
      modifies this`icache, this`mine
      ensures Inv() && mine == old(mine) + multiset{ip} && Locks() == old(Locks())
      ensures icache == old(icache)[ip := old(icache)[ip].(ref := old(icache)[ip].ref + 1)]
    {
      hide KeepersOk, FilesCounted, InodesCounted, CacheOk, LocksOk, Held, Theirs;
      CacheLength(icache, tree);
      TheirsKept(icache, myLocks, icache[ip].(ref := icache[ip].ref + 1), ip);
      OneMore(icache, Held(files), cwd, myLocks, others, mine, tree, icache[ip].(ref := icache[ip].ref + 1), ip);
      SlotSet(icache, Held(files), cwd, others, named, icache[ip].(ref := icache[ip].ref + 1), ip);
      icache := icache[ip := icache[ip].(ref := icache[ip].ref + 1)];
      mine := mine + multiset{ip};
    }

    method Ilock(ip: int) returns (end: End)
      requires Inv() && 0 <= ip < NINODE && mine[ip] >= 1
      modifies this`icache, this`myLocks
      ensures end == Waits <==> old(icache)[ip].busy
      ensures Locks() == old(Locks()) && (end == Waits ==> ip in Locks() || ip in myLocks)
      ensures end != Returns ==> icache == old(icache) && myLocks == old(myLocks)
      ensures end == Panics <==> !old(icache)[ip].busy && !old(icache)[ip].valid && old(icache)[ip].inum !in tree
      ensures end == Returns ==> Inv() && myLocks == old(myLocks) + {ip} && ip !in old(myLocks)
      ensures end == Returns ==>
                icache == old(icache)[ip := old(icache)[ip].(busy := true, valid := true)] && icache[ip].inum in tree
    {
      hide KeepersOk, FilesCounted, InodesCounted, Held;
      if icache[ip].busy {
        return Waits;
      }
      if !icache[ip].valid && icache[ip].inum !in tree {
        return Panics;
      }
      TheirsKept(icache, myLocks, icache[ip].(busy := true, valid := true), ip);
      LockTaken(icache, Held(files), cwd, myLocks, others, mine, tree, ip);
      SlotSet(icache, Held(files), cwd, others, named, icache[ip].(busy := true, valid := true), ip);
      hide Theirs, LocksOk, CacheOk;
      icache := icache[ip := icache[ip].(busy := true, valid := true)];
      myLocks := myLocks + {ip};
      return Returns;
    }

    method Iunlock(ip: int)
      requires Inv() && ip in myLocks
      modifies this`icache, this`myLocks
      ensures Inv() && myLocks == old(myLocks) - {ip} && 0 <= ip < NINODE && Locks() == old(Locks())
      ensures icache == old(icache)[ip := old(icache)[ip].(busy := false)]
    {
      hide KeepersOk, FilesCounted, InodesCounted, CacheOk, LocksOk, Held, Theirs;
      LockGiven(icache, Held(files), cwd, myLocks, others, mine, tree, ip);
      TheirsKept(icache, myLocks, icache[ip].(busy := false), ip);
      SlotSet(icache, Held(files), cwd, others, named, icache[ip].(busy := false), ip);
      icache := icache[ip := icache[ip].(busy := false)];
      myLocks := myLocks - {ip};
    }

    /** iput; the panic "iput busy" is out of reach, for a lock comes with a reference. */
    method Iput(ip: int) returns (end: End)
      requires Inv() && 0 <= ip < NINODE && mine[ip] >= 1 && (ip in myLocks ==> mine[ip] >= 2)
      modifies this`icache, this`mine, this`tree
      ensures end == Returns && Inv() && mine == old(mine) - multiset{ip} && Shrunk(old(tree), tree)
              && Locks() == old(Locks())
      ensures OtherSlotsKept(old(icache), icache, ip) && icache[ip].ref == old(icache)[ip].ref - 1
              && icache[ip].inum == old(icache)[ip].inum
      ensures icache[ip].busy == old(icache)[ip].busy && Here() == old(Here())
      ensures tree == TreeAfterPut(old(tree), old(icache)[ip])
      ensures SlotsKept(old(icache), icache, mine)
    {
      hide KeepersOk, FilesCounted, InodesCounted, CacheOk, LocksOk, Held, Theirs, Shrunk, OtherSlotsKept, SlotsKept;
      CacheLength(icache, tree);
      PutShrinks(tree, icache[ip]);
      ghost var c := icache[ip].(ref := icache[ip].ref - 1);
      LockedInUse(icache, Held(files), cwd, myLocks, others, mine, ip);
      OneLess(icache, Held(files), cwd, myLocks, others, mine, tree, c, ip);
      CacheAt(icache, tree, ip);
      if icache[ip].ref == 1 && icache[ip].valid && tree[icache[ip].inum].nlink == 0 {
        LastIsMine(icache, Held(files), cwd, myLocks, others, mine, ip);
        if icache[ip].busy {
          return Panics;
        }
        OneLess(icache, Held(files), cwd, myLocks, others, mine, tree, c.(valid := false, busy := false), ip);
        InodeGone(icache, tree, c.(valid := false, busy := false), ip);
        HereStays(icache, Held(files), cwd, others, mine, tree, ip);
        StillMine(icache, Held(files), cwd, others, mine, ip);
        c := c.(valid := false, busy := false);
        tree := tree - {icache[ip].inum};
        icache := icache[ip := icache[ip].(valid := false, busy := false)];
      }
      icache := icache[ip := icache[ip].(ref := icache[ip].ref - 1)];
      assert icache == old(icache)[ip := c];
      TheirsKept(old(icache), myLocks, c, ip);
      SlotSet(old(icache), Held(files), cwd, others, named, c, ip);
      mine := mine - multiset{ip};
      OneSlotChanged(old(icache), c, ip, mine);
      return Returns;
    }

    method Iunlockput(ip: int) returns (end: End)
      requires Inv() && ip in myLocks
      modifies this`icache, this`mine, this`tree, this`myLocks
      ensures end == Returns && Inv() && 0 <= ip < NINODE && mine == old(mine) - multiset{ip}
              && myLocks == old(myLocks) - {ip}
      ensures Shrunk(old(tree), tree) && Here() == old(Here()) && Locks() == old(Locks())
      ensures OtherSlotsKept(old(icache), icache, ip) && icache[ip].ref == old(icache)[ip].ref - 1
              && icache[ip].inum == old(icache)[ip].inum
      ensures tree == TreeAfterPut(old(tree), old(icache)[ip])
      ensures SlotsKept(old(icache), icache, mine)
    {
      hide KeepersOk, FilesCounted, InodesCounted, CacheOk, LocksOk, HereOk, Held, Theirs, Shrunk;
      Locked(ip);
      Iunlock(ip);
      end := Iput(ip);
    }
  }

  // ---- Single facts -----------------------------------------------------------------------------------------------

  lemma FilesLength(files: seq<File>, ofile: seq<int>, othersF: multiset<int>, mineF: multiset<int>)
    requires FilesCounted(files, ofile, othersF, mineF)
    ensures |files| == NFILE && |ofile| == NOFILE
  {
  }

  lemma OnlyMinusOne(l: seq<int>)
    requires forall k: nat :: k < |l| ==> l[k] == -1
    ensures forall x: nat :: multiset(l)[x] == 0
  {
    assert forall x: nat :: x !in l;
  }

  lemma AllFree(files: seq<File>, ofile: seq<int>)
    requires |files| == NFILE && |ofile| == NOFILE
    requires forall f: nat :: f < NFILE ==> files[f] == File(0, FdNone, -1, false, false)
    requires forall k: nat :: k < NOFILE ==> ofile[k] == -1
    ensures FilesCounted(files, ofile, multiset{}, multiset{})
    ensures forall i: nat :: Held(files)[i] == 0
  {
    OnlyMinusOne(ofile);
    OnlyMinusOne(Ips(files));
  }

  lemma SlotsDiffer(icache: seq<Cached>, tree: Tree, i: nat, j: nat)
    requires CacheOk(icache, tree) && i < NINODE && j < NINODE && icache[i].ref > 0 && icache[j].ref > 0
    ensures i != j ==> icache[i].inum != icache[j].inum
  {
  }

  lemma CacheLength(icache: seq<Cached>, tree: Tree)
    requires CacheOk(icache, tree)
    ensures |icache| == NINODE
  {
  }

  lemma CacheAt(icache: seq<Cached>, tree: Tree, i: nat)
    requires CacheOk(icache, tree) && i < NINODE
    ensures icache[i].ref > 0 && icache[i].valid ==> icache[i].inum in tree
  {
  }

  lemma FreeFile(files: seq<File>, ofile: seq<int>, othersF: multiset<int>, mineF: multiset<int>, f: nat)
    requires FilesCounted(files, ofile, othersF, mineF) && f < NFILE && files[f].ref == 0
    ensures files[f].kind == FdNone && mineF[f] == 0
  {
  }

  lemma HeldFile(files: seq<File>, ofile: seq<int>, othersF: multiset<int>, mineF: multiset<int>, f: nat)
    requires FilesCounted(files, ofile, othersF, mineF) && f < NFILE && mineF[f] >= 1
    ensures |files| == NFILE && files[f].ref >= 1
  {
  }

  lemma MineHas(icache: seq<Cached>, myLocks: set<int>, others: multiset<int>, mine: multiset<int>, i: int)
    requires LocksOk(icache, myLocks, others, mine)
    ensures (mine + multiset{i})[i] >= 1 && (i in myLocks ==> (mine + multiset{i})[i] >= 2)
  {
  }

  lemma NotBusyFree(icache: seq<Cached>, held: multiset<int>, cwd: int, myLocks: set<int>, others: multiset<int>,
          mine: multiset<int>, i: nat)
    requires InodesCounted(icache, held, cwd, others, mine) && LocksOk(icache, myLocks, others, mine) && i < NINODE
             && icache[i].ref == 0
    ensures !icache[i].busy
  {
  }

  lemma OneMore(icache: seq<Cached>, held: multiset<int>, cwd: int, myLocks: set<int>, others: multiset<int>,
          mine: multiset<int>, tree: Tree, c: Cached, i: nat)
    requires InodesCounted(icache, held, cwd, others, mine) && LocksOk(icache, myLocks, others, mine)
             && CacheOk(icache, tree) && i < NINODE
    requires c.ref == icache[i].ref + 1 && c.busy == icache[i].busy
    requires (icache[i].ref > 0 && c.inum == icache[i].inum && c.valid == icache[i].valid) ||
             (icache[i].ref == 0 && !c.valid && forall k: nat :: k < NINODE ==>
               !(icache[k].ref > 0 && icache[k].inum == c.inum))
    ensures InodesCounted(icache[i := c], held, cwd, others, mine + multiset{i})
            && LocksOk(icache[i := c], myLocks, others, mine + multiset{i})
    ensures CacheOk(icache[i := c], tree)
  {
    InodeUp(icache, held, cwd, others, mine, c, i);
    LockedInUse(icache, held, cwd, myLocks, others, mine, i);
    LocksUp(icache, myLocks, others, mine, c, i);
    hide InodesCounted, LocksOk;
  }

  lemma OneLess(icache: seq<Cached>, held: multiset<int>, cwd: int, myLocks: set<int>, others: multiset<int>,
          mine: multiset<int>, tree: Tree, c: Cached, i: nat)
    requires InodesCounted(icache, held, cwd, others, mine) && LocksOk(icache, myLocks, others, mine)
             && CacheOk(icache, tree) && i < NINODE
    requires c.ref == icache[i].ref - 1 && c.busy == icache[i].busy && c.inum == icache[i].inum
             && (c.valid ==> icache[i].valid)
    requires mine[i] >= 1 && (i in myLocks ==> mine[i] >= 2 && c.valid)
    ensures InodesCounted(icache[i := c], held, cwd, others, mine - multiset{i})
            && LocksOk(icache[i := c], myLocks, others, mine - multiset{i})
    ensures CacheOk(icache[i := c], tree)
  {
    InodeDown(icache, held, cwd, others, mine, c, i);
    LocksDown(icache, myLocks, others, mine, c, i);
    hide InodesCounted, LocksOk;
  }

  lemma LockTaken(icache: seq<Cached>, held: multiset<int>, cwd: int, myLocks: set<int>, others: multiset<int>,
          mine: multiset<int>, tree: Tree, i: nat)
    requires InodesCounted(icache, held, cwd, others, mine) && LocksOk(icache, myLocks, others, mine)
             && CacheOk(icache, tree)
    requires i < NINODE && mine[i] >= 1 && !icache[i].busy && (icache[i].valid || icache[i].inum in tree)
    ensures var c := icache[i := icache[i].(busy := true, valid := true)];
            InodesCounted(c, held, cwd, others, mine) && LocksOk(c, myLocks + {i}, others, mine) && CacheOk(c, tree)
            && icache[i].inum in tree && i !in myLocks
  {
    var c := icache[i := icache[i].(busy := true, valid := true)];
    assert icache[i].ref > 0 && icache[i].inum in tree;
    assert forall k: nat :: k < NINODE ==> c[k].inum == icache[k].inum && c[k].ref == icache[k].ref;
  }

  lemma LockGiven(icache: seq<Cached>, held: multiset<int>, cwd: int, myLocks: set<int>, others: multiset<int>,
          mine: multiset<int>, tree: Tree, i: int)
    requires InodesCounted(icache, held, cwd, others, mine) && LocksOk(icache, myLocks, others, mine)
             && CacheOk(icache, tree) && i in myLocks
    ensures |icache| == NINODE && 0 <= i < NINODE
    ensures var c := icache[i := icache[i].(busy := false)];
            InodesCounted(c, held, cwd, others, mine) && LocksOk(c, myLocks - {i}, others, mine) && CacheOk(c, tree)
  {
    var c := icache[i := icache[i].(busy := false)];
    assert forall k: nat :: k < NINODE ==>
             c[k].inum == icache[k].inum && c[k].ref == icache[k].ref && c[k].valid == icache[k].valid;
  }

  lemma LockedInUse(icache: seq<Cached>, held: multiset<int>, cwd: int, myLocks: set<int>, others: multiset<int>,
          mine: multiset<int>, i: nat)
    requires InodesCounted(icache, held, cwd, others, mine) && LocksOk(icache, myLocks, others, mine) && i < NINODE
    ensures i in myLocks ==> icache[i].ref > 0 && icache[i].valid && icache[i].busy
  {
  }

  lemma StillMine(icache: seq<Cached>, held: multiset<int>, cwd: int, others: multiset<int>, mine: multiset<int>,
          i: nat)
    requires InodesCounted(icache, held, cwd, others, mine) && i < NINODE && icache[i].ref <= 1
    ensures i !in mine - multiset{i}
  {
  }

  /** The working directory is not the inode that the call is the last to hold. */
  lemma HereStays(icache: seq<Cached>, held: multiset<int>, cwd: int, others: multiset<int>, mine: multiset<int>,
          tree: Tree, i: nat)
    requires InodesCounted(icache, held, cwd, others, mine) && CacheOk(icache, tree) && HereOk(icache, cwd, tree)
    requires i < NINODE && mine[i] >= 1 && icache[i].ref == 1
    ensures HereOk(icache, cwd, tree - {icache[i].inum})
  {
  }

  /** Freeing the inode of a slot that has just lost its last reference. */
  lemma InodeGone(icache: seq<Cached>, tree: Tree, c: Cached, i: nat)
    requires CacheOk(icache, tree) && i < NINODE && c.ref == 0 && c.inum == icache[i].inum && icache[i].ref > 0
    ensures CacheOk(icache[i := c], tree - {c.inum})
  {
  }
}
