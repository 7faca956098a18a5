/**
 tools/mkfs.c: the image builder.  Blocks are handed out in order from
 `freeblock` and the bitmap is written once, at the end; all along the disk
 would be consistent if the blocks below `freeblock` were already marked.
 */
module FsMkfs {
  import opened Bytes
  import opened FsLayout
  import opened FsInv
  import opened FsSpace
  import opened FsTrunc
  import opened FsFile

  /** The disk with the bitmap bits of blocks 0..n-1 set. */
  function MarkUpTo(sb: Super, d: Disk, n: nat): (e: Disk)
    requires sb.Valid() && |d| == sb.size && n <= sb.size
    ensures |e| == |d|
    ensures forall c: nat :: sb.Meta() <= c < sb.size ==> e[c] == d[c]
  {
    if n == 0 then d else
      BitBlockIsMeta(sb, n - 1);
      PutBitmap(sb, MarkUpTo(sb, d, n - 1), n - 1, true)
  }

  lemma {:induction false} MarkedBits(sb: Super, d: Disk, n: nat)
    requires sb.Valid() && |d| == sb.size && n <= sb.size
    ensures forall c: nat :: c < sb.size ==> sb.BitBlock(c) < |d|
    ensures forall c: nat :: c < sb.size ==> (Bit(sb, MarkUpTo(sb, d, n), c) <==> c < n || Bit(sb, d, c))
  {
    forall c: nat | c < sb.size
      ensures sb.BitBlock(c) < |d|
    {
      BitBlockIsMeta(sb, c);
    }
    if n > 0 {
      MarkedBits(sb, d, n - 1);
      PutBitmapGet(sb, MarkUpTo(sb, d, n - 1), n - 1, true);
    }
  }

  lemma {:induction false} MarkThenWrite(sb: Super, d: Disk, n: nat, c: nat, x: Block)
    requires sb.Valid() && |d| == sb.size && n <= sb.size && sb.Meta() <= c < sb.size
    ensures MarkUpTo(sb, d[c := x], n) == MarkUpTo(sb, d, n)[c := x]
  {
    if n > 0 {
      MarkThenWrite(sb, d, n - 1, c, x);
      BitBlockIsMeta(sb, n - 1);
    }
  }

  lemma {:induction false} MarkKeepsSuper(sb: Super, d: Disk, n: nat)
    requires sb.Valid() && |d| == sb.size && n <= sb.size
    ensures |d| > 1 && MarkUpTo(sb, d, n)[1] == d[1]
  {
    if n > 0 {
      BitBlockIsMeta(sb, n - 1);
      MarkKeepsSuper(sb, d, n - 1);
    }
  }

  function BlankInode(): Dinode {
    Dinode(0, 0, 0, seq(13, k => 0))
  }

  lemma EmptyDisk(sb: Super, d: Disk, ino: seq<Dinode>)
    requires sb.Valid() && |d| == sb.size
    requires d[1] == sb.Bytes() && forall b: nat :: b < sb.size && b != 1 ==> d[b] == ZeroBlock()
    requires forall i: nat, k: nat :: i < |ino| && k <= 12 ==> ino[i].addrs[k] == 0
    ensures Inv(sb, MarkUpTo(sb, d, sb.Meta()), ino, map[])
  {
    MarkedBits(sb, d, sb.Meta());
    var e := MarkUpTo(sb, d, sb.Meta());
    forall c: nat | c < sb.size
      ensures !Bit(sb, d, c)
    {
      BitBlockIsMeta(sb, c);
      ZeroHasNoBits(c % 8);
    }
    assert Shape(sb, e, ino, map[]);
    MarkKeepsSuper(sb, d, sb.Meta());
    ReadsbBack(sb, d);
  }

  class Image {
    const sb: Super
    var disk: Disk
    var dinodes: seq<Dinode>
    var freeblock: nat
    var usedblocks: nat
    var freeinode: nat
    ghost var own: Owner

    /** The disk as it will be once the bitmap of the used blocks is written. */
    ghost function Final(): Disk
      requires sb.Valid() && |disk| == sb.size && freeblock <= sb.size
      reads this
    {
      MarkUpTo(sb, disk, freeblock)
    }

    /** The (first) bitmap sector has not been written yet. */
    ghost predicate BitmapBlank()
      requires sb.Valid() && |disk| == sb.size
      reads this
    {
      sb.ninodes / 8 + 3 < sb.Meta() && disk[sb.ninodes / 8 + 3] == ZeroBlock()
    }

    ghost predicate Valid()
      reads this
    {
      && sb.Valid() && |disk| == sb.size && freeblock <= sb.size && usedblocks == freeblock && sb.Meta() <= freeblock
      && BitmapBlank()
      && Inv(sb, Final(), dinodes, own)
      && (forall b: nat :: b in own <==> sb.Meta() <= b < freeblock)
      && (forall i: nat :: freeinode <= i < |dinodes| ==> dinodes[i] == BlankInode())
    }

    /** mkfs(): all sectors zero, then the superblock. */
    constructor (sb: Super)
      requires sb.Valid()
      ensures Valid() && this.sb == sb && freeblock == sb.Meta() && freeinode == 1 && own == map[]
      ensures |dinodes| == sb.ninodes && FilesOk(Final(), dinodes) && Readsb(Final()) == sb
      ensures forall i: nat :: i < |dinodes| ==> FileOk(Final(), dinodes[i]) && Contents(Final(), dinodes[i]) == []
    {
      this.sb := sb;
      disk := seq(sb.size, b => ZeroBlock())[1 := sb.Bytes()];
      dinodes := seq(sb.ninodes, i => BlankInode());
      freeinode := 1;
      freeblock := sb.Meta();
      usedblocks := sb.Meta();
      own := map[];
      new;
      EmptyDisk(sb, disk, dinodes);
    }

    ghost predicate Holds(inum: nat, din: Dinode)
      reads this
    {
      && sb.Valid() && |disk| == sb.size && freeblock <= sb.size && usedblocks == freeblock && sb.Meta() <= freeblock
      && BitmapBlank()
      && inum < |dinodes|
      && Inv(sb, Final(), dinodes[inum := din], own)
      && (forall b: nat :: b in own <==> sb.Meta() <= b < freeblock)
    }

    /**
     ialloc: the next inode number, with an empty inode of the given type.  ok is false when the numbers
     have run out, which the program does not check.
     */
    method Ialloc(typ: int) returns (ok: bool, inum: nat)
      requires Valid()
      modifies `dinodes, `freeinode
      ensures inum == old(freeinode) && freeinode == inum + 1
      ensures ok <==> inum < |old(dinodes)|
      ensures ok ==>
        && Valid() && |dinodes| == |old(dinodes)| && dinodes[inum].typ == typ && dinodes[inum].nlink == 1
        && FileOk(Final(), dinodes[inum]) && Contents(Final(), dinodes[inum]) == []
        && (forall j: nat :: j < |dinodes| && j != inum ==> dinodes[j] == old(dinodes[j]))
        && (old(FilesOk(Final(), dinodes)) ==> FilesOk(Final(), dinodes))
    {
      inum := freeinode;
      freeinode := freeinode + 1;
      if inum >= |dinodes| {
        return false, inum;
      }
      ok := true;
      var din := Dinode(typ, 1, 0, seq(13, k => 0));
      assert din.addrs == dinodes[inum].addrs;
      OnlyAddrsMatter(sb, Final(), dinodes, own, inum, din);
      dinodes := dinodes[inum := din];
    }

    /** The first half of iappend's loop: the block of file block fbn, from `freeblock` if new. */
    method MapBlock(inum: nat, din: Dinode, fbn: nat) returns (ok: bool, out: Dinode, x: nat)
      requires Holds(inum, din) && fbn < 140
      modifies `disk, `freeblock, `usedblocks, `own
      ensures ok <==> old(Need(Final(), din, fbn)) <= sb.size - old(freeblock)
      ensures ok ==>
        && Holds(inum, out) && BlockMapped(old(Final()), din, Final(), out, fbn)
        && Steady(old(Final()), dinodes[inum := din], Final(), dinodes[inum := out])
        && x == Slot(Final(), out, SlotOf(fbn)) && x < |disk|
        && freeblock == old(freeblock) + old(Need(Final(), din, fbn))
        && out == din.(addrs := out.addrs)
      ensures SameOthers(old(own), own, inum)
    {
      hide Inv, Steady;
      ghost var d0, ino0 := Final(), dinodes[inum := din];
      SteadyRefl(d0, ino0);
      out, x := din, 0;
      if fbn < 12 {
        if out.addrs[fbn] == 0 {
          ok, out, x := FillAddr(inum, out, fbn);
          if !ok {
            return;
          }
          assert Slot(Final(), out, 12) == Slot(d0, din, 12);
        }
        x := out.addrs[fbn];
        InvSlot(sb, Final(), dinodes[inum := out], own, inum, fbn);
      } else {
        ok, out, x := MapIndirect(inum, din, fbn);
        return;
      }
      ok := true;
    }

    method MapIndirect(inum: nat, din: Dinode, fbn: nat) returns (ok: bool, out: Dinode, x: nat)
      requires Holds(inum, din) && 12 <= fbn < 140
      modifies `disk, `freeblock, `usedblocks, `own
      ensures ok <==> old(Need(Final(), din, fbn)) <= sb.size - old(freeblock)
      ensures ok ==>
        && Holds(inum, out) && BlockMapped(old(Final()), din, Final(), out, fbn)
        && Steady(old(Final()), dinodes[inum := din], Final(), dinodes[inum := out])
        && x == Slot(Final(), out, SlotOf(fbn)) && x < |disk|
        && freeblock == old(freeblock) + old(Need(Final(), din, fbn))
        && out == din.(addrs := out.addrs)
      ensures SameOthers(old(own), own, inum)
    {
      hide Inv, Steady, GetWord, PutWord, MarkUpTo;
      ghost var d0, ino0 := Final(), dinodes[inum := din];
      SteadyRefl(d0, ino0);
      out, x := din, 0;
      assert din.addrs[12] == 0 ==> Slot(d0, din, fbn + 1) == 0;
      if out.addrs[12] == 0 {
        ok, out, x := FillAddr(inum, out, 12);
        if !ok {
          return;
        }
        assert Slot(Final(), out, fbn + 1) == Slot(d0, din, fbn + 1);
      }
      ghost var d1, ino1 := Final(), dinodes[inum := out];
      ok, x := FillEntry(inum, out, fbn - 12);
      if ok {
        SteadyTrans(d0, ino0, d1, ino1, Final(), dinodes[inum := out]);
      }
    }

    /** `din.addrs[k] = xint(freeblock++)`; past the image's end the next rsect exits. */
    method FillAddr(inum: nat, din: Dinode, k: nat) returns (ok: bool, out: Dinode, x: nat)
      requires Holds(inum, din) && k <= 12 && din.addrs[k] == 0
      modifies `freeblock, `usedblocks, `own
      ensures ok <==> old(freeblock) < sb.size
      ensures ok ==>
        && Holds(inum, out) && freeblock == old(freeblock) + 1
        && x == out.addrs[k] == old(freeblock)
        && out == din.(addrs := din.addrs[k := x])
        && Steady(old(Final()), dinodes[inum := din], Final(), dinodes[inum := out])
        && (forall q: nat :: q < 141 && q != k ==> Slot(Final(), out, q) == Slot(old(Final()), din, q))
      ensures SameOthers(old(own), own, inum)
    {
      hide Inv, Steady, Slot, Shape;
      x := freeblock;
      out := din.(addrs := din.addrs[k := x]);
      freeblock := freeblock + 1;
      usedblocks := usedblocks + 1;
      if x >= |disk| {
        return false, out, x;
      }
      ghost var ino := dinodes[inum := din];
      TakeNext(sb, disk, ino, own, x);
      TakeDirect(sb, MarkUpTo(sb, disk, x), ino, own, x, inum, k);
      own := own[x := (inum, k)];
      assert ino[inum := out] == dinodes[inum := out];
      ok := true;
    }

    method FillEntry(inum: nat, din: Dinode, j: nat) returns (ok: bool, x: nat)
      requires Holds(inum, din) && j < 128 && din.addrs[12] != 0
      modifies `disk, `freeblock, `usedblocks, `own
      ensures old(Slot(Final(), din, j + 13)) != 0 ==> ok
      ensures old(Slot(Final(), din, j + 13)) == 0 ==> (ok <==> old(freeblock) < sb.size)
      ensures ok ==>
        && Holds(inum, din)
        && freeblock == old(freeblock) + (if old(Slot(Final(), din, j + 13)) == 0 then 1 else 0)
        && x == Slot(Final(), din, j + 13) && x != 0 && x < |disk|
        && Steady(old(Final()), dinodes[inum := din], Final(), dinodes[inum := din])
        && (forall q: nat :: q < 141 && q != j + 13 ==> Slot(Final(), din, q) == Slot(old(Final()), din, q))
      ensures SameOthers(old(own), own, inum)
    {
      hide Inv, Steady, Slot, MarkUpTo, Super.Meta, GetWord;
      ghost var ino := dinodes[inum := din];
      SteadyRefl(Final(), ino);
      SlotTwelve(Final(), din);
      InvSlot(sb, Final(), ino, own, inum, 12);
      InvSlot(sb, Final(), ino, own, inum, j + 13);
      var ind := din.addrs[12];
      var indirect := disk[ind];
      EntrySlot(Final(), din, j);
      assert Final()[ind] == indirect;
      x := GetWord(indirect, j);
      if x != 0 {
        ok := true;
      } else {
        assert old(Slot(Final(), din, j + 13)) == 0;
        ok, x := NewEntry(inum, din, j);
      }
    }

    /** `indirect[j] = xint(freeblock++)`. */
    method NewEntry(inum: nat, din: Dinode, j: nat) returns (ok: bool, x: nat)
      requires Holds(inum, din) && j < 128 && din.addrs[12] != 0 && Slot(Final(), din, j + 13) == 0
      modifies `disk, `freeblock, `usedblocks, `own
      ensures x == old(freeblock)
      ensures ok <==> x < sb.size
      ensures ok ==>
        && Holds(inum, din) && freeblock == old(freeblock) + 1
        && x == Slot(Final(), din, j + 13)
        && Steady(old(Final()), dinodes[inum := din], Final(), dinodes[inum := din])
        && (forall q: nat :: q < 141 && q != j + 13 ==> Slot(Final(), din, q) == Slot(old(Final()), din, q))
      ensures SameOthers(old(own), own, inum)
    {
      hide Inv, Steady, Slot, MarkUpTo, Super.Meta;
      x := freeblock;
      freeblock := freeblock + 1;
      usedblocks := usedblocks + 1;
      if x >= |disk| {
        return false, x;
      }
      TakeNextEntry(sb, disk, dinodes[inum := din], own, x, inum, j + 13);
      var ind := din.addrs[12];
      disk := disk[ind := PutWord(disk[ind], j, x)];
      own := own[x := (inum, j + 13)];
      ok := true;
    }

    /**
     Append p to inode inum.  ok is false when the program aborts: an assert
     that the file fits its block map, or a read past the image's last sector.
     */
    method Iappend(inum: nat, p: seq<Byte>) returns (ok: bool)
      requires Valid() && inum < |dinodes| && inum < freeinode && FileOk(Final(), dinodes[inum])
      modifies `disk, `dinodes, `freeblock, `usedblocks, `own
      ensures ok <==>
        && old(dinodes[inum].size) + |p| <= 71680
        && Blocks(old(dinodes[inum].size) + |p|) - Blocks(old(dinodes[inum].size)) <= sb.size - old(freeblock)
      ensures ok ==>
        && Valid() && |dinodes| == |old(dinodes)| && old(dinodes[inum].size) <= 71680
        && FileOk(Final(), dinodes[inum])
        && Contents(Final(), dinodes[inum]) == old(Contents(Final(), dinodes[inum])) + p
        && OthersSteady(inum, old(Final()), old(dinodes), Final(), dinodes)
        && (forall j: nat :: j < |dinodes| && j != inum ==> dinodes[j] == old(dinodes[j]))
        && dinodes[inum].typ == old(dinodes[inum].typ) && dinodes[inum].nlink == old(dinodes[inum].nlink)
        && freeblock == old(freeblock) + Blocks(dinodes[inum].size) - Blocks(old(dinodes[inum].size))
      ensures ok ==> SameOthers(old(own), own, inum) && OthersKept(old(Final()), old(dinodes), Final(), dinodes, inum)
      ensures ok && old(FilesOk(Final(), dinodes)) ==> FilesOk(Final(), dinodes)
    {
      OthersSelf(own, inum);
      hide Inv, FileOk, Written, OthersSteady, Steady, Blocks, Contents, MarkUpTo, HoleFree, Super.Meta, BlockMapped,
          Need;
      hide SameOthers, OthersKept, Untouched, FilesOk;
      ghost var own0 := own;
      var din := dinodes[inum];
      ghost var d0, ino0 := Final(), dinodes;
      FileOkSize(d0, din);
      WrittenStart(d0, din, din.size);
      OthersRefl(inum, d0, ino0);
      assert dinodes[inum := din] == dinodes;
      var off, n := din.size, 0;
      assert p[..0] == [];
      while n < |p|
        invariant 0 <= n <= |p| && off == ino0[inum].size + n && off <= 71680
        invariant dinodes == ino0 && Holds(inum, din) && din == ino0[inum].(addrs := din.addrs)
        invariant Written(d0, ino0[inum], Final(), din, ino0[inum].size, p[..n])
        invariant OthersSteady(inum, d0, ino0, Final(), dinodes[inum := din]) && SameOthers(own0, own, inum)
        invariant freeblock == old(freeblock) + Blocks(off) - Blocks(ino0[inum].size)
      {
        var fbn := off / 512;
        if fbn >= 140 {
          return false;
        }
        var n1 := Min(|p| - n, (fbn + 1) * 512 - off);
        BlocksMonotone(off + n1, ino0[inum].size + |p|);
        ghost var d1, din1, own1 := Final(), din, own;
        ok, din := AppendChunk(inum, din, fbn, off - 512 * fbn, p[n..n + n1], d0, ino0[inum], p[..n]);
        if !ok {
          return;
        }
        OthersTrans(inum, d0, ino0, d1, dinodes[inum := din1], Final(), dinodes[inum := din]);
        SameOthersTrans(own0, own1, own, inum);
        assert p[..n] + p[n..n + n1] == p[..n + n1];
        n := n + n1;
        off := off + n1;
      }
      assert p[..n] == p;
      WrittenEnd(d0, ino0[inum], Final(), din, ino0[inum].size, p);
      SpliceAtEnd(Contents(d0, ino0[inum]), p);
      OnlyAddrsMatter(sb, Final(), dinodes[inum := din], own, inum, din.(size := off));
      assert dinodes[inum := din][inum := din.(size := off)] == dinodes[inum := din.(size := off)];
      SteadyOthers(inum, Final(), dinodes[inum := din], Final(), dinodes[inum := din.(size := off)]);
      OthersTrans(inum, d0, ino0, Final(), dinodes[inum := din], Final(), dinodes[inum := din.(size := off)]);
      din := din.(size := off);
      dinodes := dinodes[inum := din];
      KeptOthers(sb, d0, ino0, own0, Final(), dinodes, own, inum);
      FilesStayOk(d0, ino0, Final(), dinodes, inum);
      ok := true;
    }

    /** One turn of iappend's loop. */
    method AppendChunk(inum: nat, din: Dinode, fbn: nat, o: nat, t: seq<Byte>, ghost d0: Disk, ghost di0: Dinode,
            ghost s: seq<Byte>)
      returns (ok: bool, out: Dinode)
      requires Holds(inum, din) && fbn < 140 && |t| > 0 && o + |t| <= 512
      requires di0.size + |s| == 512 * fbn + o
      requires Written(d0, di0, Final(), din, di0.size, s)
      modifies `disk, `freeblock, `usedblocks, `own
      ensures ok <==> Blocks(di0.size + |s| + |t|) - Blocks(di0.size + |s|) <= sb.size - old(freeblock)
      ensures ok ==>
        && Holds(inum, out) && out == din.(addrs := out.addrs)
        && Written(d0, di0, Final(), out, di0.size, s + t)
        && OthersSteady(inum, old(Final()), dinodes[inum := din], Final(), dinodes[inum := out])
        && freeblock == old(freeblock) + Blocks(di0.size + |s| + |t|) - Blocks(di0.size + |s|)
      ensures SameOthers(old(own), own, inum)
    {
      hide Inv, Written, OthersSteady, Steady, Blocks, MarkUpTo, HoleFree, Super.Meta, BlockMapped, Need;
      ghost var d1, ino1 := Final(), dinodes[inum := din];
      WrittenHoleFree(d0, di0, d1, din, di0.size, s);
      NeedIsBlocks(d1, din, di0.size + |s|, fbn, di0.size + |s|, di0.size + |s| + |t|);
      var x;
      ok, out, x := MapBlock(inum, din, fbn);
      if !ok {
        return;
      }
      ghost var d2, ino2 := Final(), dinodes[inum := out];
      SteadyOthers(inum, d1, ino1, d2, ino2);
      WriteStep(sb, d0, di0, d1, din, di0.size, s, d2, ino2, own, inum, fbn, o, t);
      InvOwner(sb, d2, ino2, own, x);
      MarkThenWrite(sb, disk, freeblock, x, PutBytes(disk[x], o, t));
      disk := disk[x := PutBytes(disk[x], o, t)];
      OthersTrans(inum, d1, ino1, d2, ino2, Final(), ino2);
    }

    /**
     balloc(usedblocks): one bitmap sector with the bits of all used blocks.
     ok is false when its assert used < 512*8 aborts.
     */
    method Balloc() returns (ok: bool)
      requires Valid()
      modifies `disk
      ensures ok <==> usedblocks < 4096
      ensures ok ==> disk == old(Final()) && Inv(sb, disk, dinodes, own)
    {
      hide Inv, Super.Meta;
      if usedblocks >= 4096 {
        return false;
      }
      ghost var d0 := disk;
      var bb := sb.ninodes / 8 + 3;
      var buf := ZeroBlock();
      var i := 0;
      assert d0[bb := buf] == d0;
      while i < usedblocks
        invariant 0 <= i <= usedblocks && disk == d0
        invariant d0[bb := buf] == MarkUpTo(sb, d0, i)
      {
        FirstBitBlock(sb, i);
        buf := PutBlockBit(buf, i / 8, i % 8, true);
        i := i + 1;
      }
      disk := disk[bb := buf];
      ok := true;
    }
  }

  /** The kernel reads from a finished image exactly what mkfs appended. */
  /** Up to 4096 bits are in the first bitmap block. */
  lemma FirstBitBlock(sb: Super, i: nat)
    requires sb.Valid() && i < 4096 && i < sb.size
    ensures sb.BitBlock(i) == sb.ninodes / 8 + 3 < sb.Meta() && i % 4096 == i && i % 4096 / 8 == i / 8
  {
    BitBlockIsMeta(sb, i);
  }

  method BootAndRead(img: Image, inum: nat) returns (ok: bool, data: seq<Byte>)
    requires img.Valid() && inum < |img.dinodes| && FileOk(img.Final(), img.dinodes[inum])
    requires img.dinodes[inum].typ != T_DEV
    modifies img
    ensures ok <==> old(img.usedblocks) < 4096
    ensures ok ==> old(img.dinodes[inum].size) <= 71680 && data == old(Contents(img.Final(), img.dinodes[inum]))
  {
    hide Inv, FileOk, Contents, MarkUpTo, Super.Meta, HoleFree;
    FileOkSize(img.Final(), img.dinodes[inum]);
    ok := img.Balloc();
    if !ok {
      return false, [];
    }
    var fs := new FileSystem.Mount(img.disk, img.dinodes, img.sb, img.own);
    var ip := new Inode(inum, img.dinodes[inum]);
    data := ReadAll(fs, ip);
  }

  function Growth(size: nat, n: nat): int {
    Blocks(size + n) - Blocks(size)
  }

  lemma GrowthIsPositive(size: nat, n: nat)
    ensures Growth(size, n) >= 0
  {
  }

  /** Block numbers up to used are given out: appends of p bytes at size a and q at size b leave used2 given out. */
  predicate AppendsFit(blocks: nat, used: nat, a: nat, b: nat, p: nat, q: nat, used2: int) {
    a + p <= 71680 && b + q <= 71680 && used2 == used + Growth(a, p) + Growth(b, q) && used2 <= blocks
  }

  /** A write of n bytes at off finds the offset within the file and its blocks among free. */
  predicate WriteFits(free: int, size: nat, off: nat, n: nat) {
    off <= size && off + n <= UINT_MAX && Blocks(Max(size, Min(off + n, 71680))) - Blocks(size) <= free
  }

  /**
   Two files over the life of an image: mkfs appends to both, the kernel mounts the image and writes to
   one.  The other one reads back as mkfs left it, the one written reads back spliced.
   */
  method TwoFiles(img: Image, a: nat, b: nat, p: seq<Byte>, q: seq<Byte>, src: seq<Byte>, off: nat)
    returns (ok: bool, n: nat, x: seq<Byte>, y: seq<Byte>)
    requires img.Valid() && FilesOk(img.Final(), img.dinodes) && off <= UINT_MAX && |src| <= UINT_MAX
    requires a != b && a < |img.dinodes| && a < img.freeinode && b < |img.dinodes| && b < img.freeinode
    requires img.dinodes[a].typ != T_DEV && img.dinodes[b].typ != T_DEV
    modifies img
    ensures old(img.dinodes[a].size) <= 71680 && old(img.dinodes[b].size) <= 71680
    ensures var na, nb := old(img.dinodes[a].size), old(img.dinodes[b].size);
            var used := old(img.freeblock) + Growth(na, |p|) + Growth(nb, |q|);
            ok <==> AppendsFit(img.sb.size, old(img.freeblock), na, nb, |p|, |q|, used) && used < 4096
                    && WriteFits(img.sb.size - used, nb + |q|, off, |src|)
    ensures ok ==> x == old(Contents(img.Final(), img.dinodes[a])) + p
    ensures ok ==>
              var c := old(Contents(img.Final(), img.dinodes[b])) + q;
              off <= |c| && n == Min(off + |src|, 71680) - off <= |src| && y == Splice(c, off, src[..n])
  {
    n, x, y := 0, [], [];
    FileOkSize(img.Final(), img.dinodes[a]);
    FileOkSize(img.Final(), img.dinodes[b]);
    hide Inv, FileOk, Contents, MarkUpTo, Super.Meta, HoleFree;
    ok := AppendBoth(img, a, b, p, q);
    if !ok {
      return;
    }
    ok := img.Balloc();
    if !ok {
      return;
    }
    FreeAbove(img.sb, img.own, img.freeblock);
    hide FilesOk, Image.Valid;
    ok, n, x, y := WriteAndRead(img.disk, img.dinodes, img.sb, img.own, a, b, src, off);
  }

  method AppendBoth(img: Image, a: nat, b: nat, p: seq<Byte>, q: seq<Byte>) returns (ok: bool)
    requires img.Valid() && FilesOk(img.Final(), img.dinodes)
    requires a != b && a < |img.dinodes| && a < img.freeinode && b < |img.dinodes| && b < img.freeinode
    requires img.dinodes[a].typ != T_DEV && img.dinodes[b].typ != T_DEV
    requires img.dinodes[a].size <= 71680 && img.dinodes[b].size <= 71680
    modifies img
    ensures ok ==>
      && img.Valid() && FilesOk(img.Final(), img.dinodes) && |img.dinodes| == |old(img.dinodes)|
      && img.dinodes[a].typ == old(img.dinodes[a].typ) && img.dinodes[b].typ == old(img.dinodes[b].typ)
      && img.dinodes[a].size <= 71680 && img.dinodes[b].size == old(img.dinodes[b].size) + |q| <= 71680
      && Contents(img.Final(), img.dinodes[a]) == old(Contents(img.Final(), img.dinodes[a])) + p
      && Contents(img.Final(), img.dinodes[b]) == old(Contents(img.Final(), img.dinodes[b])) + q
    ensures var na, nb := old(img.dinodes[a].size), old(img.dinodes[b].size);
            var used := old(img.freeblock) + Growth(na, |p|) + Growth(nb, |q|);
            && (ok <==> AppendsFit(img.sb.size, old(img.freeblock), na, nb, |p|, |q|, used))
            && (ok ==> img.freeblock == used)
  {
    hide Inv, FileOk, Contents, MarkUpTo, Super.Meta, HoleFree, Blocks, SameOthers, OthersSteady;
    GrowthIsPositive(img.dinodes[a].size, |p|);
    GrowthIsPositive(img.dinodes[b].size, |q|);
    ok := img.Iappend(a, p);
    if !ok {
      return;
    }
    FileOkSize(img.Final(), img.dinodes[a]);
    ok := img.Iappend(b, q);
    if ok {
      FileOkSize(img.Final(), img.dinodes[b]);
    }
  }

  /** The kernel writes to file b and reads both files. */
  method WriteAndRead(disk: Disk, dinodes: seq<Dinode>, ghost sb: Super, ghost own: Owner, a: nat, b: nat,
          src: seq<Byte>, off: nat)
    returns (ok: bool, n: nat, x: seq<Byte>, y: seq<Byte>)
    requires Inv(sb, disk, dinodes, own) && FilesOk(disk, dinodes) && off <= UINT_MAX && |src| <= UINT_MAX
    requires a != b && a < |dinodes| && b < |dinodes| && dinodes[a].typ != T_DEV && dinodes[b].typ != T_DEV
    ensures dinodes[a].size <= 71680 && dinodes[b].size <= 71680
    ensures ok <==> WriteFits(Free(sb, own), dinodes[b].size, off, |src|)
    ensures ok ==> x == Contents(disk, dinodes[a])
    ensures ok ==>
              var c := Contents(disk, dinodes[b]);
              off <= |c| && n == Min(off + |src|, 71680) - off <= |src| && y == Splice(c, off, src[..n])
  {
    n, x, y := 0, [], [];
    FileOkSize(disk, dinodes[a]);
    FileOkSize(disk, dinodes[b]);
    FreeNonNegative(sb, disk, dinodes, own);
    hide Inv, FileOk, Contents, Super.Meta, Super.Valid, HoleFree, Blocks, SameOthers, OthersSteady;
    var fs := new FileSystem.Mount(disk, dinodes, sb, own);
    var ib := new Inode(b, dinodes[b]);
    var r := fs.Writei(ib, src, off, |src|);
    if !r.Count? {
      return false, 0, [], [];
    }
    ok, n := true, r.n;
    StillWhole(disk, dinodes, fs.disk, fs.dinodes, a, b);
    hide FilesOk, OthersKept;
    x, y := ReadBoth(fs, a, ib);
  }

  method ReadBoth(fs: FileSystem, a: nat, ib: Inode) returns (x: seq<Byte>, y: seq<Byte>)
    requires fs.sb.Valid() && fs.Synced(ib) && ib.typ != T_DEV && FileOk(fs.disk, ib.Val()) && a < |fs.dinodes|
    requires fs.dinodes[a].typ != T_DEV && FileOk(fs.disk, fs.dinodes[a]) && fs.dinodes[a].size <= 71680
    modifies fs`disk, fs`own, ib`addrs
    ensures ib.addrs == old(ib.addrs) && ib.size <= 71680
    ensures x == old(Contents(fs.disk, fs.dinodes[a])) && y == Contents(old(fs.disk), ib.Val())
  {
    hide Inv, FileOk, Contents, Super.Meta, Super.Valid, HoleFree;
    FileOkSize(fs.disk, ib.Val());
    var ia := new Inode(a, fs.dinodes[a]);
    x := ReadAll(fs, ia);
    y := ReadAll(fs, ib);
  }

  /** A file that was not written to. */
  lemma StillWhole(d: Disk, ino: seq<Dinode>, e: Disk, ino': seq<Dinode>, a: nat, b: nat)
    requires FilesOk(d, ino) && OthersKept(d, ino, e, ino', b) && a != b && a < |ino| && ino[a].typ != T_DEV
    ensures |ino'| == |ino| && ino'[a] == ino[a] && FileOk(d, ino[a]) && FileOk(e, ino[a]) && ino[a].size <= 71680
    ensures Contents(e, ino[a]) == Contents(d, ino[a])
  {
    FileOkSize(d, ino[a]);
    hide FileOk, Contents;
    assert FileKept(d, e, ino[a]);
  }

  method ReadAll(fs: FileSystem, ip: Inode) returns (data: seq<Byte>)
    requires fs.sb.Valid() && fs.Synced(ip) && ip.typ != T_DEV && FileOk(fs.disk, ip.Val()) && ip.size <= 71680
    modifies fs`disk, fs`own, ip`addrs
    ensures fs.disk == old(fs.disk) && fs.own == old(fs.own) && ip.addrs == old(ip.addrs)
    ensures data == Contents(fs.disk, ip.Val())
  {
    hide Inv, FileOk, Contents, Super.Meta, HoleFree;
    ghost var c := Contents(fs.disk, ip.Val());
    var r;
    r, data := fs.Readi(ip, 0, ip.size);
    assert c[0..|c|] == c;
  }

  lemma SpliceAtEnd(c: seq<Byte>, p: seq<Byte>)
    ensures Splice(c, |c|, p) == c + p
  {
  }

  lemma TakeNext(sb: Super, d: Disk, ino: seq<Dinode>, own: Owner, n: nat)
    requires sb.Valid() && |d| == sb.size && n < sb.size
    ensures sb.BitBlock(n) < |d|
    ensures MarkUpTo(sb, d, n + 1) == PutBitmap(sb, MarkUpTo(sb, d, n), n, true)
  {
    BitBlockIsMeta(sb, n);
  }

  /** Block n stored in the indirect block, seen on the disk with its final bitmap. */
  lemma TakeNextEntry(sb: Super, d: Disk, ino: seq<Dinode>, own: Owner, n: nat, i: nat, k: nat)
    requires sb.Valid() && |d| == sb.size && sb.Meta() <= n < sb.size
    requires Inv(sb, MarkUpTo(sb, d, n), ino, own) && n !in own
    requires i < |ino| && 12 < k < 141 && ino[i].addrs[12] != 0 && Slot(MarkUpTo(sb, d, n), ino[i], k) == 0
    ensures sb.Meta() <= ino[i].addrs[12] < |d|
    ensures var ind := ino[i].addrs[12];
            var f := MarkUpTo(sb, d[ind := PutWord(d[ind], k - 13, n)], n + 1);
      && Inv(sb, f, ino, own[n := (i, k)])
      && Steady(MarkUpTo(sb, d, n), ino, f, ino)
      && Slot(f, ino[i], k) == n
      && (forall q: nat :: q < 141 && q != k ==> Slot(f, ino[i], q) == Slot(MarkUpTo(sb, d, n), ino[i], q))
  {
    hide Inv, Steady, Slot, Super.Meta, Super.BitBlock, MarkUpTo, PutBitmap, PutWord, Super.Valid;
    var m := MarkUpTo(sb, d, n);
    InvSlot(sb, m, ino, own, i, 12);
    assert Slot(m, ino[i], 12) == ino[i].addrs[12] by { SlotTwelve(m, ino[i]); }
    TakeNext(sb, d, ino, own, n);
    TakeEntry(sb, m, ino, own, n, i, k);
    var ind := ino[i].addrs[12];
    MarkThenWrite(sb, d, n + 1, ind, PutWord(d[ind], k - 13, n));
  }

  // ---- add_dir's size rounding ------------------------------------------------------

  /** `off = ((off/BSIZE) + 1) * BSIZE`. */
  function RoundedSize(size: nat): nat {
    (size / 512 + 1) * 512
  }

  lemma SizeNoMatter(d: Disk, di: Dinode, size: nat)
    ensures var r := di.(size := size);
            && (forall k: nat :: k < 141 ==> Slot(d, r, k) == Slot(d, di, k))
            && forall p: nat :: p < 71680 ==> ByteOf(d, r, p) == ByteOf(d, di, p)
  {
  }

  /** Rounding a directory's size up leaves a hole exactly when the size was a multiple of BSIZE. */
  lemma RoundingLeavesHole(d: Disk, di: Dinode)
    requires FileOk(d, di) && RoundedSize(di.size) <= 71680
    ensures FileOk(d, di.(size := RoundedSize(di.size))) <==> di.size % 512 != 0
  {
    var bn := di.size / 512;
    var r := di.(size := RoundedSize(di.size));
    SizeNoMatter(d, di, r.size);
    hide Slot, ByteOf, RoundedSize;
    RoundedBlocks(di.size, bn);
    if di.size % 512 == 0 {
      assert Slot(d, r, SlotOf(bn)) == 0 && 512 * bn < r.size;
    } else {
      forall c: nat | c < 140
        ensures Slot(d, r, SlotOf(c)) != 0 <==> 512 * c < r.size
      {
        RoundedBlocks(di.size, c);
      }
    }
  }

  /** Which blocks the rounded size takes in. */
  lemma RoundedBlocks(size: nat, c: nat)
    ensures size < RoundedSize(size) && (512 * c < RoundedSize(size) <==> c <= size / 512)
    ensures 512 * c < size <==> c < size / 512 || (c == size / 512 && size % 512 != 0)
    ensures 6144 < RoundedSize(size) <==> 6144 <= size
  {
  }

  /** add_dir's last lines: the directory's size is rounded up. */
  method FixSize(img: Image, inum: nat)
    requires img.Valid() && inum < |img.dinodes| && inum < img.freeinode && FileOk(img.Final(), img.dinodes[inum])
    requires RoundedSize(img.dinodes[inum].size) <= 71680
    modifies img`dinodes
    ensures var din := old(img.dinodes[inum]);
            img.Valid() && img.dinodes == old(img.dinodes)[inum := din.(size := RoundedSize(din.size))]
    ensures FileOk(img.Final(), img.dinodes[inum]) <==> old(img.dinodes[inum]).size % 512 != 0
  {
    hide FileOk, MarkUpTo, Super.Meta, Inv;
    RoundingLeavesHole(img.Final(), img.dinodes[inum]);
    var din := img.dinodes[inum];
    OnlyAddrsMatter(img.sb, img.Final(), img.dinodes, img.own, inum, din.(size := RoundedSize(din.size)));
    img.dinodes := img.dinodes[inum := din.(size := RoundedSize(din.size))];
  }

  /** A directory whose entries fill a block exactly: the rounding gives it a block that it does not have. */
  method FullDirectory(sb: Super, entries: seq<Byte>) returns (img: Image, inum: nat)
    requires sb.Valid() && sb.ninodes > 1 && sb.Meta() < sb.size && |entries| == 512
    ensures fresh(img) && img.Valid() && inum < |img.dinodes| && img.dinodes[inum].size == 1024
    ensures !FileOk(img.Final(), img.dinodes[inum])
  {
    hide FileOk, MarkUpTo, Super.Meta, Inv, Contents;
    img := new Image(sb);
    var ok;
    ok, inum := img.Ialloc(T_DIR);
    ok := img.Iappend(inum, entries);
    FixSize(img, inum);
  }
}
