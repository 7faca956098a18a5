/**
 fs.c's block and inode-content layers, updating a disk in place: balloc,
 bfree, bmap, itrunc, readi and writei.  A buffer obtained with bread, changed
 and given to bwrite is one update of `disk`; the buffer cache that justifies
 this is the subject of module BufTheorems.
 */
module FsFile {
  import opened Bytes
  import opened FsLayout
  import opened FsInv
  import opened FsSpace
  import opened FsTrunc

  const T_DIR: int := 1
  const T_DEV: int := 3

  /** balloc: a block number, or the panic "balloc: out of blocks". */
  datatype Alloc = Block(b: nat) | OutOfBlocks

  /**
   bmap: a mapped block; the panic "bmap: out of range"; or no block below
   sb.size was free, where the source panics or goes on with a block number
   past the file system.
   */
  datatype MapResult = Mapped(b: nat) | OutOfRange | NoSpace

  /** readi and writei: a byte count, -1, a device's own handler, or no space. */
  datatype IoResult = Count(n: nat) | Fail | Device | DiskFull

  /** The in-memory inode (struct inode). */
  class Inode {
    const inum: nat
    var typ: int
    var nlink: int
    var size: nat
    var addrs: Addrs

    constructor (inum: nat, di: Dinode)
      ensures this.inum == inum && Val() == di
    {
      this.inum := inum;
      typ, nlink, size, addrs := di.typ, di.nlink, di.size, di.addrs;
    }

    function Val(): Dinode
      reads this
    {
      Dinode(typ, nlink, size, addrs)
    }
  }

  /** Bit bi of the bitmap block that starts at block number b. */
  lemma BitPosition(b: nat, bi: nat)
    requires b % 4096 == 0 && bi < 4096
    ensures (b + bi) / 4096 == b / 4096 && (b + bi) % 4096 == bi && (b + bi) % 8 == bi % 8
  {
    var q := b / 4096;
    assert b == 4096 * q;
    assert b + bi == 8 * (512 * q) + bi;
  }

  lemma EntrySlot(d: Disk, di: Dinode, j: nat)
    requires j < 128 && 0 < di.addrs[12] < |d|
    ensures Slot(d, di, j + 13) == GetWord(d[di.addrs[12]], j)
  {
  }

  lemma SlotTwelve(d: Disk, di: Dinode)
    ensures Slot(d, di, 12) == di.addrs[12]
  {
  }

  lemma SameSlots(d: Disk, ino: seq<Dinode>, i: nat, k: nat)
    requires i < |ino|
    ensures OneSlot(d, ino, i, k, d, ino[i])
  {
  }

  lemma NeedParts(d: Disk, di: Dinode, bn: nat)
    requires 12 <= bn < 140
    ensures Need(d, di, bn) == (if di.addrs[12] == 0 then 1 else 0) + (if Slot(d, di, bn + 1) == 0 then 1 else 0)
    ensures di.addrs[12] == 0 ==> Slot(d, di, bn + 1) == 0
  {
  }

  /** Every file of the disk is hole-free; devices have no contents. */
  ghost predicate FilesOk(d: Disk, ino: seq<Dinode>) {
    forall j: nat :: j < |ino| && ino[j].typ != T_DEV ==> FileOk(d, ino[j])
  }

  lemma FilesStayOk(d: Disk, ino: seq<Dinode>, e: Disk, ino': seq<Dinode>, i: nat)
    requires OthersKept(d, ino, e, ino', i) && i < |ino| && FileOk(e, ino'[i])
    ensures FilesOk(d, ino) ==> FilesOk(e, ino')
  {
    hide FileOk;
  }

  function Min(a: nat, b: nat): nat { if a < b then a else b }

  class FileSystem {
    const sb: Super
    var disk: Disk
    var dinodes: seq<Dinode>
    ghost var own: Owner

    /** The kernel's view of a disk image; its geometry is the one readsb finds there, now and after every operation. */
    constructor Mount(disk: Disk, dinodes: seq<Dinode>, ghost sb0: Super, ghost own: Owner)
      requires Inv(sb0, disk, dinodes, own)
      ensures sb == sb0 && Inv(sb, this.disk, this.dinodes, this.own)
      ensures this.disk == disk && this.dinodes == dinodes && this.own == own
    {
      this.sb, this.disk, this.dinodes, this.own := Readsb(disk), disk, dinodes, own;
    }

    /** All inodes, ip's in-memory copy standing for its disk copy. */
    ghost function View(ip: Inode): seq<Dinode>
      reads this, ip
      requires ip.inum < |dinodes|
    {
      dinodes[ip.inum := ip.Val()]
    }

    ghost predicate Consistent(ip: Inode)
      reads this, ip
    {
      ip.inum < |dinodes| && Inv(sb, disk, View(ip), own)
    }

    /** Between calls the in-memory copy and the disk's inode agree. */
    ghost predicate Synced(ip: Inode)
      reads this, ip
    {
      ip.inum < |dinodes| && dinodes[ip.inum] == ip.Val() && Inv(sb, disk, dinodes, own)
    }

    ghost function FreeCount(): int
      reads this
      requires sb.Valid()
    {
      Free(sb, own)
    }

    /** No block below n is free. */
    ghost predicate TakenBelow(n: nat)
      requires |disk| == sb.size && sb.Meta() <= sb.size
      reads this
    {
      forall c: nat :: c < n ==> sb.BitBlock(c) < sb.Meta() && Bit(sb, disk, c)
    }

    method Balloc() returns (r: Alloc)
      requires sb.Valid() && |disk| == sb.size
      modifies `disk
      ensures match r
        case Block(b) =>
          && sb.BitBlock(b) < sb.Meta() && !old(Bit(sb, disk, b))
          && (forall c: nat :: c < b ==> sb.BitBlock(c) < sb.Meta() && old(Bit(sb, disk, c)))
          && disk == PutBitmap(sb, old(disk), b, true)
        case OutOfBlocks =>
          && disk == old(disk)
          && (forall c: nat :: c < sb.size ==> sb.BitBlock(c) < sb.Meta() && Bit(sb, disk, c))
    {
      hide PutBitmap, BitSet;
      var b := 0;
      while b < sb.size
        invariant b % 4096 == 0 && disk == old(disk) && TakenBelow(b)
        decreases sb.size - b
      {
        BitBlockIsMeta(sb, b);
        var bi := 0;
        while bi < 4096
          invariant 0 <= bi <= 4096 && disk == old(disk)
          invariant TakenBelow(b + bi)
        {
          BitPosition(b, bi);
          var bp := disk[sb.BitBlock(b)];
          if !BitSet(bp[bi / 8], bi % 8) {
            disk := PutBitmap(sb, disk, b + bi, true);
            return Block(b + bi);
          }
          assert Bit(sb, disk, b + bi);
          bi := bi + 1;
        }
        b := b + 4096;
      }
      r := OutOfBlocks;
    }

    /** ok is false exactly for the panic "freeing free block". */
    method Bfree(b: nat) returns (ok: bool)
      requires b < |disk| && sb.BitBlock(b) < |disk|
      modifies `disk
      ensures ok == Bit(sb, old(disk)[b := ZeroBlock()], b)
      ensures ok ==> disk == Freed(sb, old(disk), b)
      ensures !ok ==> disk == old(disk)[b := ZeroBlock()]
    {
      disk := disk[b := ZeroBlock()];
      ok := Bit(sb, disk, b);
      if ok {
        disk := PutBitmap(sb, disk, b, false);
      }
    }

    /** With a free block below sb.size, balloc returns the lowest one; without, none below sb.size. */
    method TakeBlock(ghost ino: seq<Dinode>) returns (r: Alloc)
      requires Inv(sb, disk, ino, own)
      modifies `disk
      ensures r.Block? && r.b < sb.size <==> FreeCount() > 0
      ensures r.Block? && r.b < sb.size ==>
        && sb.Meta() <= r.b && r.b !in own && sb.BitBlock(r.b) < |old(disk)|
        && disk == PutBitmap(sb, old(disk), r.b, true)
    {
      FreeBlockExists(sb, disk, ino, own);
      r := Balloc();
      assert r.Block? && r.b < sb.size ==> r.b !in own && sb.Meta() <= r.b;
    }

    /** The disk block of file block bn, allocating it (and the indirect block) if need be. */
    method Bmap(ip: Inode, bn: nat) returns (r: MapResult)
      requires sb.Valid() && Consistent(ip)
      modifies `disk, `own, ip`addrs
      ensures r.OutOfRange? <==> bn >= 140
      ensures bn < 140 ==> (r.Mapped? <==> old(Need(disk, ip.Val(), bn)) <= old(FreeCount()))
      ensures r.Mapped? ==>
        && Consistent(ip) && Steady(old(disk), old(View(ip)), disk, View(ip))
        && r.b != 0 && r.b == Slot(disk, ip.Val(), SlotOf(bn))
        && FreeCount() == old(FreeCount()) - old(Need(disk, ip.Val(), bn))
        && (forall q: nat :: q < 141 && q != 12 && q != SlotOf(bn) ==>
             Slot(disk, ip.Val(), q) == old(Slot(disk, ip.Val(), q)))
        && (ip.addrs[12] != 0 <==> old(ip.addrs[12]) != 0 || 12 <= bn)
        && (old(Need(disk, ip.Val(), bn)) == 0 ==> disk == old(disk) && ip.addrs == old(ip.addrs) && own == old(own))
      ensures SameOthers(old(own), own, ip.inum)
    {
      hide Inv, Steady;
      FreeNonNegative(sb, disk, View(ip), own);
      if bn < 12 {
        r := BmapDirect(ip, bn);
        assert r.Mapped? ==> Slot(disk, ip.Val(), 12) == old(Slot(disk, ip.Val(), 12));
      } else if bn < 140 {
        r := BmapIndirect(ip, bn);
      } else {
        r := OutOfRange;
      }
    }

    /** File blocks past the direct ones: the indirect block first, then its entry. */
    method BmapIndirect(ip: Inode, bn: nat) returns (r: MapResult)
      requires sb.Valid() && Consistent(ip) && 12 <= bn < 140
      modifies `disk, `own, ip`addrs
      ensures r.Mapped? || r.NoSpace?
      ensures r.Mapped? <==> old(Need(disk, ip.Val(), bn)) <= old(FreeCount())
      ensures r.Mapped? ==>
        && Consistent(ip) && Steady(old(disk), old(View(ip)), disk, View(ip))
        && r.b != 0 && r.b == Slot(disk, ip.Val(), bn + 1)
        && FreeCount() == old(FreeCount()) - old(Need(disk, ip.Val(), bn))
        && (forall q: nat :: q < 141 && q != 12 && q != bn + 1 ==>
             Slot(disk, ip.Val(), q) == old(Slot(disk, ip.Val(), q)))
        && ip.addrs[12] != 0
        && (old(Need(disk, ip.Val(), bn)) == 0 ==> disk == old(disk) && ip.addrs == old(ip.addrs) && own == old(own))
      ensures SameOthers(old(own), own, ip.inum)
    {
      NeedParts(disk, ip.Val(), bn);
      hide Inv, Steady, SameOthers, Need, Slot;
      ghost var d0, ino0, own0 := disk, View(ip), own;
      FreeNonNegative(sb, d0, ino0, own);
      var m := BmapDirect(ip, 12);
      if m.NoSpace? {
        return NoSpace;
      }
      assert Slot(disk, ip.Val(), bn + 1) == old(Slot(disk, ip.Val(), bn + 1));
      r := BmapSecond(ip, bn, d0, ino0, own0);
    }

    /** The second half: the entry, seen from before the indirect block was taken. */
    method BmapSecond(ip: Inode, bn: nat, ghost d0: Disk, ghost ino0: seq<Dinode>, ghost own0: Owner)
      returns (r: MapResult)
      requires sb.Valid() && Consistent(ip) && 12 <= bn < 140 && ip.addrs[12] != 0
      requires Steady(d0, ino0, disk, View(ip)) && SameOthers(own0, own, ip.inum)
      modifies `disk, `own
      ensures r.Mapped? || r.NoSpace?
      ensures r.Mapped? <==> old(Slot(disk, ip.Val(), bn + 1)) != 0 || old(FreeCount()) > 0
      ensures SameOthers(own0, own, ip.inum)
      ensures r.Mapped? ==>
        && Consistent(ip) && Steady(d0, ino0, disk, View(ip))
        && r.b != 0 && r.b == Slot(disk, ip.Val(), bn + 1)
        && FreeCount() == old(FreeCount()) - (if old(Slot(disk, ip.Val(), bn + 1)) == 0 then 1 else 0)
        && (forall q: nat :: q < 141 && q != bn + 1 ==> Slot(disk, ip.Val(), q) == old(Slot(disk, ip.Val(), q)))
        && (old(Slot(disk, ip.Val(), bn + 1)) != 0 ==> disk == old(disk) && own == old(own))
    {
      hide Inv, Steady, SameOthers, Slot;
      ghost var d1, ino1, own1 := disk, View(ip), own;
      r := BmapEntry(ip, bn - 12);
      SameOthersTrans(own0, own1, own, ip.inum);
      if r.Mapped? {
        SteadyTrans(d0, ino0, d1, ino1, disk, View(ip));
      }
    }

    /** `if((addr = ip->addrs[k]) == 0) ip->addrs[k] = addr = balloc(ip->dev)`. */
    method BmapDirect(ip: Inode, k: nat) returns (r: MapResult)
      requires sb.Valid() && Consistent(ip) && k <= 12
      modifies `disk, `own, ip`addrs
      ensures r.Mapped? || r.NoSpace?
      ensures r.Mapped? <==> old(ip.addrs[k]) != 0 || old(FreeCount()) > 0
      ensures r.Mapped? ==>
        && Consistent(ip) && Steady(old(disk), old(View(ip)), disk, View(ip))
        && r.b != 0 && r.b == ip.addrs[k]
        && FreeCount() == old(FreeCount()) - (if old(ip.addrs[k]) == 0 then 1 else 0)
        && (forall q: nat :: q < 141 && q != k ==> Slot(disk, ip.Val(), q) == old(Slot(disk, ip.Val(), q)))
        && (old(ip.addrs[k]) != 0 ==> disk == old(disk) && ip.addrs == old(ip.addrs) && own == old(own))
      ensures SameOthers(old(own), own, ip.inum)
    {
      hide Inv, Steady;
      ghost var ino := View(ip);
      SteadyRefl(disk, ino);
      if ip.addrs[k] != 0 {
        return Mapped(ip.addrs[k]);
      }
      var a := TakeBlock(ino);
      if a.OutOfBlocks? || a.b >= sb.size {
        return NoSpace;
      }
      TakeDirect(sb, old(disk), ino, own, a.b, ip.inum, k);
      ip.addrs := ip.addrs[k := a.b];
      own := own[a.b := (ip.inum, k)];
      assert ino[ip.inum := ip.Val()] == View(ip);
      r := Mapped(a.b);
    }

    /** Entry j of the indirect block, which is mapped. */
    method BmapEntry(ip: Inode, j: nat) returns (r: MapResult)
      requires sb.Valid() && Consistent(ip) && j < 128 && ip.addrs[12] != 0
      modifies `disk, `own
      ensures r.Mapped? || r.NoSpace?
      ensures r.Mapped? <==> old(Slot(disk, ip.Val(), j + 13)) != 0 || old(FreeCount()) > 0
      ensures r.Mapped? ==>
        && Consistent(ip) && Steady(old(disk), View(ip), disk, View(ip))
        && r.b != 0 && r.b == Slot(disk, ip.Val(), j + 13)
        && FreeCount() == old(FreeCount()) - (if old(Slot(disk, ip.Val(), j + 13)) == 0 then 1 else 0)
        && OneSlot(old(disk), View(ip), ip.inum, j + 13, disk, ip.Val())
        && (old(Slot(disk, ip.Val(), j + 13)) != 0 ==> disk == old(disk) && own == old(own))
      ensures SameOthers(old(own), own, ip.inum)
    {
      hide Inv, Steady, OneSlot, Slot, GetWord;
      SteadyRefl(disk, View(ip));
      InvSlot(sb, disk, View(ip), own, ip.inum, 12);
      SlotTwelve(disk, ip.Val());
      EntrySlot(disk, ip.Val(), j);
      var addr := GetWord(disk[ip.addrs[12]], j);
      SameSlots(disk, View(ip), ip.inum, j + 13);
      if addr != 0 {
        return Mapped(addr);
      }
      r := NewEntry(ip, j);
    }

    /** `a[bn] = addr = balloc(ip->dev)` for an entry that is 0. */
    method NewEntry(ip: Inode, j: nat) returns (r: MapResult)
      requires sb.Valid() && Consistent(ip) && j < 128 && ip.addrs[12] != 0 && ip.addrs[12] < |disk|
               && Slot(disk, ip.Val(), j + 13) == 0
      modifies `disk, `own
      ensures r.Mapped? || r.NoSpace?
      ensures r.Mapped? <==> old(FreeCount()) > 0
      ensures r.Mapped? ==>
        && Consistent(ip) && Steady(old(disk), View(ip), disk, View(ip))
        && r.b != 0 && r.b == Slot(disk, ip.Val(), j + 13) && FreeCount() == old(FreeCount()) - 1
        && OneSlot(old(disk), View(ip), ip.inum, j + 13, disk, ip.Val())
      ensures SameOthers(old(own), own, ip.inum)
    {
      hide Inv, Steady, OneSlot, Slot, PutBitmap, GetWord;
      ghost var ino := View(ip);
      SlotTwelve(disk, ip.Val());
      InvSlot(sb, disk, ino, own, ip.inum, 12);
      var ind := ip.addrs[12];
      var bp := disk[ind];
      var a := TakeBlock(ino);
      if a.OutOfBlocks? || a.b >= sb.size {
        return NoSpace;
      }
      TakeEntry(sb, old(disk), ino, own, a.b, ip.inum, j + 13);
      disk := disk[ind := PutWord(bp, j, a.b)];
      own := own[a.b := (ip.inum, j + 13)];
      r := Mapped(a.b);
    }

    /** Copy the in-memory inode to the disk. */
    method Iupdate(ip: Inode)
      requires ip.inum < |dinodes|
      modifies `dinodes
      ensures dinodes == old(dinodes)[ip.inum := ip.Val()]
    {
      dinodes := dinodes[ip.inum := ip.Val()];
    }

    /**
     Write n bytes of src at off.  The free-space condition is exact; on
     success the file is its old contents spliced, every other file keeps its
     bytes, and disk and in-memory inode agree although only a growing write
     calls iupdate.
     */
    method Writei(ip: Inode, src: seq<Byte>, off: nat, n: nat) returns (r: IoResult)
      requires sb.Valid() && Synced(ip) && n <= |src| && off <= UINT_MAX && n <= UINT_MAX
      requires ip.typ != T_DEV ==> FileOk(disk, ip.Val())
      modifies this, ip
      ensures r.Device? <==> old(ip.typ) == T_DEV
      ensures r.Fail? <==> old(ip.typ) != T_DEV && (off > old(ip.size) || off + n > UINT_MAX)
      ensures r.DiskFull? <==>
        && old(ip.typ) != T_DEV && off <= old(ip.size) && off + n <= UINT_MAX
        && Blocks(Max(old(ip.size), Min(off + n, 71680))) - Blocks(old(ip.size)) > old(FreeCount())
      ensures r.Count? ==>
        && off <= old(ip.size) <= 71680
        && r.n == Min(off + n, 71680) - off
        && Synced(ip) && FileOk(disk, ip.Val())
        && Contents(disk, ip.Val()) == Splice(old(Contents(disk, ip.Val())), off, src[..r.n])
        && OthersSteady(ip.inum, old(disk), old(dinodes), disk, dinodes)
        && (forall j: nat :: j < |dinodes| && j != ip.inum ==> dinodes[j] == old(dinodes[j]))
        && FreeCount() == old(FreeCount()) - (Blocks(ip.size) - Blocks(old(ip.size)))
        && ip.typ == old(ip.typ) && ip.nlink == old(ip.nlink)
      ensures r.Fail? || r.Device? ==>
                disk == old(disk) && dinodes == old(dinodes) && own == old(own) && ip.Val() == old(ip.Val())
      ensures r.Count? ==> SameOthers(old(own), own, ip.inum)
      ensures r.Count? ==> OthersKept(old(disk), old(dinodes), disk, dinodes, ip.inum)
      ensures r.Count? && old(FilesOk(disk, dinodes)) ==> FilesOk(disk, dinodes)
    {
      hide Inv, FileOk, Written, OthersSteady, Steady, HoleFree, Blocks, OthersKept, Untouched, Contents, SameOthers,
          FilesOk;
      if ip.typ == T_DEV {
        return Device;
      }
      if off > ip.size || (off + n) % (UINT_MAX + 1) < off {
        return Fail;
      }
      FileOkSize(disk, ip.Val());
      var m := if off + n > 71680 then 71680 - off else n;
      assert dinodes == View(ip);
      ghost var d0, di0, ino0, own0 := disk, ip.Val(), dinodes, own;
      var ok := WriteBlocks(ip, src, off, m);
      if !ok {
        return DiskFull;
      }
      WrittenEnd(d0, di0, disk, ip.Val(), off, src[..m]);
      if m > 0 && off + m > ip.size {
        ghost var ino1 := View(ip);
        ip.size := off + m;
        OnlyAddrsMatter(sb, disk, ino1, own, ip.inum, ip.Val());
        assert ino1[ip.inum := ip.Val()] == View(ip);
        SteadyOthers(ip.inum, disk, ino1, disk, View(ip));
        OthersTrans(ip.inum, d0, ino0, disk, ino1, disk, View(ip));
        Iupdate(ip);
      }
      KeptOthers(sb, d0, ino0, own0, disk, dinodes, own, ip.inum);
      FilesStayOk(d0, ino0, disk, dinodes, ip.inum);
      r := Count(m);
    }

    /** From (d0, ino0, own0) on, s has been written to ip at off and nothing else has changed. */
    ghost predicate Wrote(ip: Inode, off: nat, s: seq<Byte>, d0: Disk, di0: Dinode, ino0: seq<Dinode>, own0: Owner)
      reads this, ip
    {
      && Consistent(ip) && ip.size == di0.size
      && Written(d0, di0, disk, ip.Val(), off, s)
      && OthersSteady(ip.inum, d0, ino0, disk, View(ip)) && SameOthers(own0, own, ip.inum)
      && (off + |s| <= ip.size ==> ip.addrs == di0.addrs)
    }

    lemma WroteStart(ip: Inode, off: nat)
      requires Consistent(ip) && FileOk(disk, ip.Val()) && off <= ip.size
      ensures Wrote(ip, off, [], disk, ip.Val(), View(ip), own)
    {
      WrittenStart(disk, ip.Val(), off);
      OthersRefl(ip.inum, disk, View(ip));
    }

    /** The loop of writei: m bytes of src, block by block. */
    method WriteBlocks(ip: Inode, src: seq<Byte>, off: nat, m: nat) returns (ok: bool)
      requires sb.Valid() && Consistent(ip) && m <= |src| && off <= ip.size && off + m <= 71680
      requires FileOk(disk, ip.Val())
      modifies `disk, `own, ip`addrs
      ensures ok <==> Blocks(Max(ip.size, off + m)) - Blocks(ip.size) <= old(FreeCount())
      ensures ok ==>
        && Wrote(ip, off, src[..m], old(disk), old(ip.Val()), old(View(ip)), old(own))
        && FreeCount() == old(FreeCount()) - (Blocks(Max(ip.size, off + m)) - Blocks(ip.size))
    {
      hide Inv, FileOk, Wrote, Blocks;
      ghost var d0, di0, ino0, own0 := disk, ip.Val(), View(ip), own;
      WroteStart(ip, off);
      var tot := 0;
      assert src[..0] == [];
      while tot < m
        invariant 0 <= tot <= m
        invariant Consistent(ip) && ip.size == di0.size
        invariant Wrote(ip, off, src[..tot], d0, di0, ino0, own0)
        invariant FreeCount() == old(FreeCount()) - (Blocks(Max(ip.size, off + tot)) - Blocks(ip.size))
      {
        var bn, o := (off + tot) / 512, (off + tot) % 512;
        var k := Min(m - tot, 512 - o);
        BlocksMonotone(Max(ip.size, off + tot + k), Max(ip.size, off + m));
        ok := WriteMore(ip, bn, o, src[tot..tot + k], d0, di0, ino0, own0, off, src[..tot]);
        if !ok {
          return;
        }
        assert src[..tot] + src[tot..tot + k] == src[..tot + k];
        tot := tot + k;
      }
      FreeNonNegative(sb, disk, View(ip), own);
      ok := true;
    }

    /** One turn of writei's loop, seen from the start of the loop. */
    method WriteMore(ip: Inode, bn: nat, o: nat, t: seq<Byte>, ghost d0: Disk, ghost di0: Dinode,
            ghost ino0: seq<Dinode>, ghost own0: Owner, ghost off: nat, ghost s: seq<Byte>)
      returns (ok: bool)
      requires sb.Valid() && Consistent(ip) && bn < 140 && |t| > 0 && o + |t| <= 512
      requires off + |s| == 512 * bn + o && off <= di0.size && ip.size == di0.size
      requires Wrote(ip, off, s, d0, di0, ino0, own0)
      modifies `disk, `own, ip`addrs
      ensures ok <==> Blocks(Max(ip.size, off + |s| + |t|)) - Blocks(Max(ip.size, off + |s|)) <= old(FreeCount())
      ensures ok ==>
        && Consistent(ip) && Wrote(ip, off, s + t, d0, di0, ino0, own0)
        && FreeCount() == old(FreeCount()) - (Blocks(Max(ip.size, off + |s| + |t|)) - Blocks(Max(ip.size, off + |s|)))
    {
      hide Inv, Written, OthersSteady, Steady, Blocks, SameOthers;
      ghost var d1, ino1, own1 := disk, View(ip), own;
      ok := WriteChunk(ip, bn, o, t, d0, di0, off, s);
      if ok {
        SameOthersTrans(own0, own1, own, ip.inum);
        OthersTrans(ip.inum, d0, ino0, d1, ino1, disk, View(ip));
      }
    }

    /** One turn of writei's loop: t goes to offset o of file block bn. */
    method WriteChunk(ip: Inode, bn: nat, o: nat, t: seq<Byte>, ghost d0: Disk, ghost di0: Dinode, ghost off: nat,
            ghost s: seq<Byte>)
      returns (ok: bool)
      requires sb.Valid() && Consistent(ip) && bn < 140 && |t| > 0 && o + |t| <= 512
      requires off + |s| == 512 * bn + o && off <= di0.size && ip.size == di0.size
      requires Written(d0, di0, disk, ip.Val(), off, s)
      modifies `disk, `own, ip`addrs
      ensures ok <==> Blocks(Max(ip.size, off + |s| + |t|)) - Blocks(Max(ip.size, off + |s|)) <= old(FreeCount())
      ensures ok ==>
        && Consistent(ip)
        && Written(d0, di0, disk, ip.Val(), off, s + t)
        && OthersSteady(ip.inum, old(disk), old(View(ip)), disk, View(ip))
        && FreeCount() == old(FreeCount()) - (Blocks(Max(ip.size, off + |s| + |t|)) - Blocks(Max(ip.size, off + |s|)))
        && (off + |s| + |t| <= ip.size ==> ip.addrs == old(ip.addrs))
      ensures SameOthers(old(own), own, ip.inum)
    {
      hide Inv, Written, OthersSteady, Steady, HoleFree, Blocks, SameOthers, Need, Slot, SameBytes;
      WrittenHoleFree(d0, di0, disk, ip.Val(), off, s);
      NeedIsBlocks(disk, ip.Val(), Max(ip.size, off + |s|), bn, off + |s|, off + |s| + |t|);
      ghost var d1, di1, ino1 := disk, ip.Val(), View(ip);
      var a := Bmap(ip, bn);
      if !a.Mapped? {
        return false;
      }
      ghost var d2, ino2 := disk, View(ip);
      MappedThenWritten(sb, d0, di0, d1, ino1, off, s, d2, ino2, own, ip.inum, bn, o, t);
      disk := disk[a.b := PutBytes(disk[a.b], o, t)];
      ok := true;
    }

    /** Read n bytes at off: the file's own bytes, clipped to its end; nothing changes. */
    method Readi(ip: Inode, off: nat, n: nat) returns (r: IoResult, dst: seq<Byte>)
      requires sb.Valid() && Synced(ip) && off <= UINT_MAX && n <= UINT_MAX
      requires ip.typ != T_DEV ==> FileOk(disk, ip.Val())
      modifies `disk, `own, ip`addrs
      ensures disk == old(disk) && own == old(own) && ip.addrs == old(ip.addrs)
      ensures r.Device? <==> ip.typ == T_DEV
      ensures r.Fail? <==> ip.typ != T_DEV && (off > ip.size || off + n > UINT_MAX)
      ensures !r.DiskFull?
      ensures r.Count? ==>
        && off <= ip.size <= 71680
        && r.n == Min(off + n, ip.size) - off
        && dst == Contents(disk, ip.Val())[off..off + r.n]
      ensures !r.Count? ==> dst == []
    {
      hide Inv, FileOk, Steady, HoleFree, Contents, Need, Slot;
      dst := [];
      if ip.typ == T_DEV {
        return Device, [];
      }
      if off > ip.size || (off + n) % (UINT_MAX + 1) < off {
        return Fail, [];
      }
      FileOkSize(disk, ip.Val());
      FreeNonNegative(sb, disk, dinodes, own);
      assert dinodes == View(ip);
      var m := if off + n > ip.size then ip.size - off else n;
      dst := ReadBlocks(ip, off, m);
      r := Count(m);
    }

    /** The loop of readi: m bytes from off, block by block. */
    method ReadBlocks(ip: Inode, off: nat, m: nat) returns (dst: seq<Byte>)
      requires sb.Valid() && Synced(ip) && FileOk(disk, ip.Val()) && off + m <= ip.size <= 71680
      modifies `disk, `own, ip`addrs
      ensures disk == old(disk) && own == old(own) && ip.addrs == old(ip.addrs)
      ensures dst == Contents(disk, ip.Val())[off..off + m]
    {
      hide Inv, FileOk, Contents, ByteOf, Super.Meta, Super.Valid, Synced;
      ghost var d, di, c := disk, ip.Val(), Contents(disk, ip.Val());
      dst := [];
      var tot := 0;
      while tot < m
        invariant 0 <= tot <= m
        invariant Synced(ip) && disk == d && ip.Val() == di && own == old(own)
        invariant dst == c[off..off + tot]
      {
        var t := ReadPiece(ip, off + tot, m - tot);
        dst := dst + t;
        SliceCat(c, off, off + tot, off + tot + |t|);
        assert dst == c[off..off + tot + |t|];
        tot := tot + |t|;
      }
    }

    /** One turn of readi's loop: min(left, BSIZE - pos%BSIZE) bytes of the block that holds pos. */
    method ReadPiece(ip: Inode, pos: nat, left: nat) returns (t: seq<Byte>)
      requires sb.Valid() && Synced(ip) && FileOk(disk, ip.Val())
      requires left > 0 && pos + left <= ip.size <= 71680
      modifies `disk, `own, ip`addrs
      ensures disk == old(disk) && own == old(own) && ip.addrs == old(ip.addrs)
      ensures Synced(ip) && 0 < |t| <= left && t == Contents(disk, ip.Val())[pos..pos + |t|]
    {
      hide Inv, FileOk, Contents, Steady, Need, Super.Meta;
      FreeNonNegative(sb, disk, dinodes, own);
      assert dinodes == View(ip);
      var bn, o := pos / 512, pos % 512;
      DivMod512(pos);
      var k := Min(left, 512 - o);
      ReadChunk(sb, disk, dinodes, own, ip.inum, bn, o, k);
      var a := Bmap(ip, bn);
      t := disk[a.b][o..o + k];
    }

    /**
     Discard the file: the panic "freeing free block" cannot happen, exactly
     ip's blocks become free, and nobody else's bytes change.
     */
    method Itrunc(ip: Inode) returns (ok: bool)
      requires sb.Valid() && Synced(ip)
      modifies this, ip
      ensures ok
      ensures Synced(ip) && ip.size == 0 && FileOk(disk, ip.Val())
      ensures own == Others(old(own), ip.inum)
      ensures OthersSteady(ip.inum, old(disk), old(dinodes), disk, dinodes)
      ensures |dinodes| == |old(dinodes)| && forall j: nat :: j < |dinodes| && j != ip.inum ==>
                dinodes[j] == old(dinodes[j])
      ensures ip.typ == old(ip.typ) && ip.nlink == old(ip.nlink)
      ensures old(FileOk(disk, ip.Val())) ==> FreeCount() == old(FreeCount()) + Blocks(old(ip.size))
      ensures OthersKept(old(disk), old(dinodes), disk, dinodes, ip.inum)
      ensures old(FilesOk(disk, dinodes)) ==> FilesOk(disk, dinodes)
    {
      hide Inv, OthersSteady, FileOk, Steady, Blocks, OthersKept, Untouched, FilesOk;
      ghost var d0, ino0, own0 := disk, View(ip), own;
      assert ino0 == dinodes;
      if FileOk(disk, ip.Val()) {
        BlocksOwned(sb, d0, ino0, own0, ip.inum);
      }
      ok := TruncDirect(ip);
      ghost var d1, ino1 := disk, View(ip);
      ghost var own1 := own;
      if ok && ip.addrs[12] != 0 {
        ok := TruncIndirect(ip);
        ReleaseTrans(own0, own1, own, ip.inum);
        OthersTrans(ip.inum, d0, ino0, d1, ino1, disk, View(ip));
      }
      AllReleased(sb, disk, View(ip), own0, own, ip.inum);
      ghost var ino2 := View(ip);
      ip.size := 0;
      OnlyAddrsMatter(sb, disk, ino2, own, ip.inum, ip.Val());
      assert ino2[ip.inum := ip.Val()] == View(ip);
      SteadyOthers(ip.inum, disk, ino2, disk, View(ip));
      OthersTrans(ip.inum, d0, ino0, disk, ino2, disk, View(ip));
      Iupdate(ip);
      OthersTwice(own0, ip.inum);
      KeptOthers(sb, d0, ino0, own0, disk, dinodes, own, ip.inum);
      FilesStayOk(d0, ino0, disk, dinodes, ip.inum);
    }

    method TruncDirect(ip: Inode) returns (ok: bool)
      requires sb.Valid() && Consistent(ip)
      modifies `disk, `own, ip`addrs
      ensures ok && Consistent(ip)
      ensures forall k: nat :: k < 12 ==> ip.addrs[k] == 0
      ensures ip.addrs[12] == old(ip.addrs[12])
      ensures OthersSteady(ip.inum, old(disk), old(View(ip)), disk, View(ip))
      ensures OnlyReleased(old(own), own, ip.inum)
    {
      hide Inv, OthersSteady;
      ghost var d0, ino0, own0 := disk, View(ip), own;
      OthersRefl(ip.inum, d0, ino0);
      var i := 0;
      while i < 12
        invariant 0 <= i <= 12
        invariant Consistent(ip)
        invariant forall k: nat :: k < i ==> ip.addrs[k] == 0
        invariant ip.addrs[12] == old(ip.addrs[12])
        invariant OthersSteady(ip.inum, d0, ino0, disk, View(ip))
        invariant OnlyReleased(own0, own, ip.inum)
      {
        if ip.addrs[i] != 0 {
          ghost var d1, ino1, b := disk, View(ip), ip.addrs[i];
          DirectStep(sb, d1, ino1, own, ip.inum, i);
          ok := Bfree(ip.addrs[i]);
          ip.addrs := ip.addrs[i := 0];
          ReleaseOne(own0, own, ip.inum, b);
          own := own - {b};
          assert ino1[ip.inum := ip.Val()] == View(ip);
          OthersTrans(ip.inum, d0, ino0, d1, ino1, disk, View(ip));
        }
        i := i + 1;
      }
      ok := true;
    }

    method TruncIndirect(ip: Inode) returns (ok: bool)
      requires sb.Valid() && Consistent(ip) && ip.addrs[12] != 0
      modifies `disk, `own, ip`addrs
      ensures ok && Consistent(ip)
      ensures ip.addrs == old(ip.addrs)[12 := 0]
      ensures OthersSteady(ip.inum, old(disk), old(View(ip)), disk, View(ip))
      ensures OnlyReleased(old(own), own, ip.inum)
    {
      hide Inv, OthersSteady;
      ghost var d0, ino := disk, View(ip);
      InvSlot(sb, disk, ino, own, ip.inum, 12);
      var ind := ip.addrs[12];
      var bp := disk[ind];
      ghost var x := bp;
      assert disk[ind := x] == disk;
      OthersRefl(ip.inum, d0, ino);
      var j := 0;
      while j < 128
        invariant 0 <= j <= 128
        invariant ip.addrs == old(ip.addrs)
        invariant ind < |disk| && disk[ind] == bp && ClearedTo(bp, x, j)
        invariant Inv(sb, disk[ind := x], ino, own)
        invariant OthersSteady(ip.inum, d0, ino, disk[ind := x], ino)
        invariant OnlyReleased(old(own), own, ip.inum)
      {
        var b := GetWord(bp, j);
        if b != 0 {
          ghost var v := disk[ind := x];
          EntryStep(sb, disk, x, ino, own, ip.inum, j);
          ok := Bfree(b);
          ReleaseOne(old(own), own, ip.inum, b);
          own := own - {b};
          x := PutWord(x, j, 0);
          OthersTrans(ip.inum, d0, ino, v, ino, disk[ind := x], ino);
        } else {
          EntrySkip(bp, x, j);
        }
        j := j + 1;
      }
      ghost var v := disk[ind := x];
      IndirectStep(sb, disk, x, ino, own, ip.inum);
      ok := Bfree(ind);
      ip.addrs := ip.addrs[12 := 0];
      ReleaseOne(old(own), own, ip.inum, ind);
      own := own - {ind};
      assert ip.Val() == ino[ip.inum].(addrs := ino[ip.inum].addrs[12 := 0]);
      assert ino[ip.inum := ip.Val()] == View(ip);
      OthersTrans(ip.inum, d0, ino, v, ino, disk, View(ip));
    }
  }
}
