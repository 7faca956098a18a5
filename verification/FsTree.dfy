/**
 The disk as the tree of inodes that the system calls work on: what dirlookup, dirlink, unlink's write and
 itrunc do to the bytes is looking up, entering, unlinking and removing there.
 */
module FsTree {
  import opened Bytes
  import opened FsLayout
  import opened FsInv
  import opened FsSpace
  import opened FsTrunc
  import opened FsFile
  import opened FsDir
  import P = FsPath
  import L = FsLinks

  function TypeOf(typ: int): P.Type {
    if typ == T_DIR then P.TDir else if typ == T_DEV then P.TDev else P.TFile
  }

  ghost function NodeOf(d: Disk, di: Dinode): P.Node {
    P.Node(TypeOf(di.typ), di.nlink,
      if di.typ == T_DIR && di.size <= 71680 then Entries(Contents(d, di)) else map[])
  }

  /** The allocated inodes, directories as the maps that their bytes are. */
  ghost function TreeOf(d: Disk, ino: seq<Dinode>): P.Tree {
    map i: nat | i < |ino| && ino[i].typ != 0 :: NodeOf(d, ino[i])
  }

  /** A directory's bytes are whole entries with distinct names. */
  ghost predicate DirOk(d: Disk, di: Dinode) {
    FileOk(d, di) && di.size <= 71680 && di.size % 16 == 0 && UniqueNames(Contents(d, di))
  }

  /** An inode that an operation on another one has left alone is the same node. */
  lemma NodeKept(d: Disk, ino: seq<Dinode>, e: Disk, ino': seq<Dinode>, i: nat, j: nat)
    requires OthersKept(d, ino, e, ino', i) && FilesOk(d, ino) && j < |ino| && j != i
    ensures |ino'| == |ino| && ino'[j] == ino[j] && NodeOf(e, ino[j]) == NodeOf(d, ino[j])
  {
    hide FileOk, Contents;
    assert FileKept(d, e, ino[j]);
  }

  lemma TreeAt(d: Disk, ino: seq<Dinode>, i: nat)
    requires i < |ino|
    ensures ino[i].typ != 0 ==> i in TreeOf(d, ino) && TreeOf(d, ino)[i] == NodeOf(d, ino[i])
    ensures ino[i].typ == 0 ==> i !in TreeOf(d, ino)
  {
  }

  /** An operation on one inode changes that node alone. */
  lemma OneNode(d: Disk, ino: seq<Dinode>, e: Disk, ino': seq<Dinode>, i: nat)
    requires OthersKept(d, ino, e, ino', i) && FilesOk(d, ino) && i < |ino|
    ensures |ino'| == |ino|
    ensures ino'[i].typ != 0 ==> TreeOf(e, ino') == TreeOf(d, ino)[i := NodeOf(e, ino'[i])]
    ensures ino'[i].typ == 0 ==> TreeOf(e, ino') == TreeOf(d, ino) - {i}
  {
    SameLength(d, ino, e, ino', i);
    hide NodeOf, FilesOk, OthersKept;
    var t, u := TreeOf(d, ino), TreeOf(e, ino');
    forall j: nat | j < |ino| && j != i
      ensures |ino'| == |ino| && ino'[j] == ino[j] && NodeOf(e, ino[j]) == NodeOf(d, ino[j])
    {
      NodeKept(d, ino, e, ino', i, j);
    }
  }

  lemma SameLength(d: Disk, ino: seq<Dinode>, e: Disk, ino': seq<Dinode>, i: nat)
    requires OthersKept(d, ino, e, ino', i)
    ensures |ino'| == |ino|
  {
  }

  /** Writing an inode's type and links. */
  lemma Updated(d: Disk, ino: seq<Dinode>, i: nat, di: Dinode)
    requires i < |ino| && di.typ == ino[i].typ != 0 && di.size == ino[i].size && di.addrs == ino[i].addrs
    ensures i in TreeOf(d, ino)
    ensures TreeOf(d, ino[i := di]) == TreeOf(d, ino)[i := TreeOf(d, ino)[i].(nlink := di.nlink)]
  {
    SameContents(d, ino[i], di);
  }

  lemma SameContents(d: Disk, di: Dinode, di': Dinode)
    requires di'.size == di.size && di'.addrs == di.addrs && di'.typ == di.typ
    ensures NodeOf(d, di') == NodeOf(d, di).(nlink := di'.nlink)
    ensures FileOk(d, di) ==> FileOk(d, di')
  {
    assert forall k: nat :: k < 141 ==> Slot(d, di', k) == Slot(d, di, k);
    if di.size <= 71680 {
      assert forall p: nat :: p < 71680 ==> ByteOf(d, di', p) == ByteOf(d, di, p);
      assert Contents(d, di') == Contents(d, di);
    }
  }

  // ---- The operations ---------------------------------------------------------------------------------------

  /** A directory in memory and on disk, on a disk of well-formed files. */
  ghost predicate HasDir(fs: FileSystem, dp: Inode)
    reads fs, dp
  {
    fs.sb.Valid() && fs.Synced(dp) && dp.typ == T_DIR && DirOk(fs.disk, dp.Val()) && FilesOk(fs.disk, fs.dinodes)
  }

  ghost function Tree(fs: FileSystem): P.Tree
    reads fs
  {
    TreeOf(fs.disk, fs.dinodes)
  }

  /** dirlookup is looking the name up in the directory's entries. */
  method Find(fs: FileSystem, dp: Inode, name: Name) returns (r: LookupResult)
    requires HasDir(fs, dp)
    modifies fs`disk, fs`own, dp`addrs
    ensures fs.disk == old(fs.disk) && fs.own == old(fs.own) && dp.addrs == old(dp.addrs)
    ensures r.Searched? && dp.inum in Tree(fs)
    ensures r.f.Found? <==> CStr(name) in Tree(fs)[dp.inum].entries
    ensures r.f.Found? ==> r.f.inum == Tree(fs)[dp.inum].entries[CStr(name)]
  {
    hide FileOk, FilesOk, Inv, Contents, Padded, FindFrom, EntriesFrom, UniqueNames;
    r := Dirlookup(fs, dp, name);
    LookupIsMap(Contents(fs.disk, dp.Val()), name);
    TreeAt(fs.disk, fs.dinodes, dp.inum);
  }

  /** dirlink enters the name. */
  method Enter(fs: FileSystem, dp: Inode, name: Name, inum: nat) returns (r: LinkResult)
    requires HasDir(fs, dp) && 0 < inum < 65536
    modifies fs, dp
    ensures r.Exists? <==> dp.inum in old(Tree(fs)) && CStr(name) in old(Tree(fs))[dp.inum].entries
    ensures r.Linked? ==> HasDir(fs, dp) && Tree(fs) == L.Entered(old(Tree(fs)), dp.inum, CStr(name), inum)
    ensures r.Exists? ==> HasDir(fs, dp) && Tree(fs) == old(Tree(fs))
  {
    hide FileOk, FilesOk, Inv, Contents, FindFrom, EntriesFrom, UniqueNames, OthersKept, Blocks, Linking, LinkedIn,
        Super.Meta, L.Entered, FirstFree;
    ghost var d0, ino0, c := fs.disk, fs.dinodes, Contents(fs.disk, dp.Val());
    ExistsMeans(c, name, fs.FreeCount());
    TreeAt(d0, ino0, dp.inum);
    hide LinkOutcome, Lookup;
    hide TreeOf, NodeOf;
    r := Dirlink(fs, dp, name, inum);
    if r.Linked? {
      FileOkSize(fs.disk, dp.Val());
      SameLength(d0, ino0, fs.disk, fs.dinodes, dp.inum);
      LinkedTree(d0, ino0, fs.disk, fs.dinodes, dp.inum, name, inum);
    }
  }

  lemma ExistsMeans(c: seq<Byte>, name: Name, free: int)
    requires |c| % 16 == 0
    ensures LinkOutcome(c, name, free).Exists? <==> CStr(name) in Entries(c)
  {
    LookupIsMap(c, name);
  }

  lemma LinkedTree(d: Disk, ino: seq<Dinode>, e: Disk, ino': seq<Dinode>, i: nat, name: Name, inum: nat)
    requires OthersKept(d, ino, e, ino', i) && FilesOk(d, ino) && i < |ino| == |ino'| && 0 < inum < 65536
    requires ino[i].typ == ino'[i].typ == T_DIR && ino[i].nlink == ino'[i].nlink
    requires ino[i].size <= 71680 && ino'[i].size <= 71680 && UniqueNames(Contents(d, ino[i]))
    requires LinkedIn(Contents(d, ino[i]), Contents(e, ino'[i]), name, inum)
    ensures UniqueNames(Contents(e, ino'[i]))
    ensures TreeOf(e, ino') == L.Entered(TreeOf(d, ino), i, CStr(name), inum)
  {
    hide FilesOk, OthersKept, EntriesFrom, Contents, UniqueNames, FindFrom, LinkedIn;
    LinkedMap(Contents(d, ino[i]), Contents(e, ino'[i]), name, inum);
    TreeAt(d, ino, i);
    OneNode(d, ino, e, ino', i);
    hide TreeOf;
  }

  lemma LinkedMap(c: seq<Byte>, e: seq<Byte>, name: Name, inum: nat)
    requires LinkedIn(c, e, name, inum) && UniqueNames(c) && 0 < inum < 65536
    ensures UniqueNames(e) && Entries(e) == Entries(c)[CStr(name) := inum]
  {
    LinkedInMap(c, e, name, inum);
  }

  /** unlink's write erases the name. */
  method Erase(fs: FileSystem, dp: Inode, name: Name, off: nat)
    requires HasDir(fs, dp)
    requires var f := Lookup(Contents(fs.disk, dp.Val()), name); f.Found? && f.off == off
    modifies fs, dp
    ensures HasDir(fs, dp) && |fs.dinodes| == |old(fs.dinodes)| && dp.inum in old(Tree(fs))
    ensures forall j: nat :: j < |fs.dinodes| && j != dp.inum ==> fs.dinodes[j] == old(fs.dinodes[j])
    ensures var n := old(Tree(fs))[dp.inum];
            Tree(fs) == old(Tree(fs))[dp.inum := n.(entries := n.entries - {CStr(name)})]
  {
    hide FileOk, FilesOk, Inv, Contents, FindFrom, EntriesFrom, UniqueNames, OthersKept, UnlinkedFrom, Super.Meta;
    ghost var d0, ino0, c := fs.disk, fs.dinodes, Contents(fs.disk, dp.Val());
    TreeAt(d0, ino0, dp.inum);
    var r := ClearEntry(fs, dp, name, off);
    Erased(c, Contents(fs.disk, dp.Val()), name);
    OthersAreSame(d0, ino0, fs.disk, fs.dinodes, dp.inum);
    OneNode(d0, ino0, fs.disk, fs.dinodes, dp.inum);
  }

  lemma Erased(c: seq<Byte>, e: seq<Byte>, name: Name)
    requires UnlinkedFrom(c, e, name) && UniqueNames(c)
    ensures UniqueNames(e) && Entries(e) == Entries(c) - {CStr(name)}
  {
    UnlinkedFromMap(c, e, name);
  }

  lemma OthersAreSame(d: Disk, ino: seq<Dinode>, e: Disk, ino': seq<Dinode>, i: nat)
    requires OthersKept(d, ino, e, ino', i)
    ensures |ino'| == |ino| && forall j: nat :: j < |ino| && j != i ==> ino'[j] == ino[j]
  {
  }

  /** `ip->nlink--; iupdate(ip)`. */
  method CountDown(fs: FileSystem, ip: Inode)
    requires fs.sb.Valid() && fs.Synced(ip) && ip.typ != 0 && FilesOk(fs.disk, fs.dinodes)
    modifies fs`dinodes, ip`nlink
    ensures fs.Synced(ip) && FilesOk(fs.disk, fs.dinodes) && ip.inum in old(Tree(fs))
    ensures fs.dinodes == old(fs.dinodes)[ip.inum := ip.Val()] && ip.nlink == old(ip.nlink) - 1
    ensures Tree(fs) == L.Relinked(old(Tree(fs)), ip.inum, -1)
  {
    hide Inv, FileOk, Contents, Super.Meta;
    ghost var ino0 := fs.dinodes;
    SameContents(fs.disk, ip.Val(), ip.Val().(nlink := ip.nlink - 1));
    Updated(fs.disk, ino0, ip.inum, ip.Val().(nlink := ip.nlink - 1));
    OnlyAddrsMatter(fs.sb, fs.disk, ino0, fs.own, ip.inum, ip.Val().(nlink := ip.nlink - 1));
    ip.nlink := ip.nlink - 1;
    fs.Iupdate(ip);
  }

  /** sys_unlink's writes, for an entry that leads to ip. */
  method Unlink(fs: FileSystem, dp: Inode, ip: Inode, name: Name, off: nat)
    requires HasDir(fs, dp) && fs.Synced(ip) && ip.typ != 0 && ip.inum != dp.inum && ip != dp
    requires var f := Lookup(Contents(fs.disk, dp.Val()), name); f.Found? && f.off == off && f.inum == ip.inum
    modifies fs, dp, ip
    ensures fs.Synced(dp) && fs.Synced(ip) && FilesOk(fs.disk, fs.dinodes)
    ensures Tree(fs) == L.Unlinked(old(Tree(fs)), dp.inum, CStr(name))
  {
    hide Inv, FileOk, FilesOk, Contents, FindFrom, EntriesFrom, UniqueNames, Super.Meta;
    ghost var t := Tree(fs);
    UnlinkFacts(fs.disk, fs.dinodes, dp, ip, name);
    hide DirOk, NodeOf, TreeOf, Lookup, L.Relinked, L.Unlinked;
    UnlinkedInSteps(t, dp.inum, CStr(name), ip.inum);
    Erase(fs, dp, name, off);
    if ip.typ == T_DIR {
      CountDown(fs, dp);
    }
    CountDown(fs, ip);
  }

  lemma UnlinkedInSteps(t: P.Tree, d: nat, name: P.Elem, i: nat)
    requires P.IsDir(t, d) && name in t[d].entries && t[d].entries[name] == i && i in t && i != d
    ensures var u := t[d := t[d].(entries := t[d].entries - {name})];
            L.Unlinked(t, d, name) == L.Relinked(if P.IsDir(t, i) then L.Relinked(u, d, -1) else u, i, -1)
  {
  }

  lemma UnlinkFacts(d: Disk, ino: seq<Dinode>, dp: Inode, ip: Inode, name: Name)
    requires dp.inum < |ino| && ino[dp.inum] == dp.Val() && dp.typ == T_DIR && dp.size <= 71680
    requires ip.inum < |ino| && ino[ip.inum] == ip.Val() && ip.typ != 0 && ip.inum != dp.inum
    requires Lookup(Contents(d, dp.Val()), name).Found? && Lookup(Contents(d, dp.Val()), name).inum == ip.inum
    ensures var t := TreeOf(d, ino);
            && P.IsDir(t, dp.inum) && ip.inum in t && (P.IsDir(t, ip.inum) <==> ip.typ == T_DIR)
            && CStr(name) in t[dp.inum].entries && t[dp.inum].entries[CStr(name)] == ip.inum
  {
    hide FindFrom, EntriesFrom, Contents;
    LookupIsMap(Contents(d, dp.Val()), name);
    TreeAt(d, ino, dp.inum);
    TreeAt(d, ino, ip.inum);
  }

  /** What iput does to an inode without links: itrunc, and then the type is 0. */
  method Remove(fs: FileSystem, ip: Inode)
    requires fs.sb.Valid() && fs.Synced(ip) && FilesOk(fs.disk, fs.dinodes)
    modifies fs, ip
    ensures fs.Synced(ip) && FilesOk(fs.disk, fs.dinodes)
    ensures Tree(fs) == old(Tree(fs)) - {ip.inum}
  {
    hide Inv, FileOk, Contents, NodeOf, OthersKept, Blocks, OthersSteady, Super.Meta;
    ghost var d0, ino0 := fs.disk, fs.dinodes;
    var ok := fs.Itrunc(ip);
    ghost var ino1 := fs.dinodes;
    OthersAreSame(d0, ino0, fs.disk, ino1, ip.inum);
    OnlyAddrsMatter(fs.sb, fs.disk, ino1, fs.own, ip.inum, ip.Val().(typ := 0));
    ip.typ := 0;
    fs.Iupdate(ip);
    TypeCleared(d0, ino0, fs.disk, ino1, ip.inum);
    EmptyIsOk(fs.disk, ino1[ip.inum], ip.Val());
  }

  lemma TypeCleared(d: Disk, ino: seq<Dinode>, e: Disk, ino': seq<Dinode>, i: nat)
    requires OthersKept(d, ino, e, ino', i) && FilesOk(d, ino) && i < |ino| == |ino'|
    ensures TreeOf(e, ino'[i := ino'[i].(typ := 0)]) == TreeOf(d, ino) - {i}
  {
    hide FilesOk, NodeOf;
    OneNode(d, ino, e, ino'[i := ino'[i].(typ := 0)], i);
  }

  lemma EmptyIsOk(d: Disk, di: Dinode, di': Dinode)
    requires FileOk(d, di) && di'.size == di.size && di'.addrs == di.addrs
    ensures FileOk(d, di')
  {
    assert forall k: nat :: k < 141 ==> Slot(d, di', k) == Slot(d, di, k);
    assert forall p: nat :: p < 71680 ==> ByteOf(d, di', p) == ByteOf(d, di, p);
  }
}
