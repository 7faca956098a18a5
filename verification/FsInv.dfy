/**
 The whole-disk invariant of fs.c: who owns which block, what the bitmap says,
 and that free blocks are all zero.  The lemmas say what allocating, writing
 and freeing one block do to it.
 */
module FsInv {
  import opened Bytes
  import opened FsLayout

  type Addrs = a: seq<nat> | |a| == 13 witness seq(13, i => 0)

  /** struct dinode / the data fields of struct inode. */
  datatype Dinode = Dinode(typ: int, nlink: int, size: nat, addrs: Addrs)

  /** Block number -> (inode number, slot) for every block held by an inode. */
  type Owner = map<nat, (nat, nat)>

  /** Slot k of an inode's block map: addrs[k], or entry k - 13 of the indirect block. */
  function Slot(d: Disk, di: Dinode, k: nat): (b: nat)
    requires k < 141
  {
    if k <= 12 then di.addrs[k]
    else if di.addrs[12] == 0 || di.addrs[12] >= |d| then 0
    else GetWord(d[di.addrs[12]], k - 13)
  }

  /** The slot that maps file block bn. */
  function SlotOf(bn: nat): (k: nat)
    ensures k != 12
  {
    if bn < 12 then bn else bn + 1
  }

  /** A nonzero slot owns its block. */
  ghost predicate SlotOwns(d: Disk, ino: seq<Dinode>, own: Owner, i: nat, k: nat)
    requires i < |ino| && k < 141
  {
    var b := Slot(d, ino[i], k);
    b != 0 ==> b in own && own[b] == (i, k)
  }

  /** An owned block is a data block, and its owning slot names it. */
  ghost predicate OwnedBySlot(sb: Super, d: Disk, ino: seq<Dinode>, own: Owner, b: nat)
    requires b in own
  {
    var (i, k) := own[b];
    && sb.Meta() <= b && b < sb.size && i < |ino| && k < 141
    && Slot(d, ino[i], k) == b
  }

  /** Nonzero slots and owned blocks are in one-to-one correspondence. */
  ghost predicate Shape(sb: Super, d: Disk, ino: seq<Dinode>, own: Owner) {
    && |d| == sb.size
    && (forall i: nat, k: nat :: i < |ino| && k < 141 ==> SlotOwns(d, ino, own, i, k))
    && (forall b :: b in own ==> OwnedBySlot(sb, d, ino, own, b))
  }

  /** The bitmap marks exactly the metadata blocks and the owned blocks. */
  ghost predicate Marked(sb: Super, d: Disk, own: Owner)
    requires |d| == sb.size && sb.Valid()
  {
    forall b: nat :: b < sb.size ==> sb.BitBlock(b) < |d| && (Bit(sb, d, b) <==> b < sb.Meta() || b in own)
  }

  /** Every free data block is all zero. */
  ghost predicate FreeZero(sb: Super, d: Disk, own: Owner)
    requires |d| == sb.size
  {
    forall b: nat :: sb.Meta() <= b < sb.size && b !in own ==> d[b] == ZeroBlock()
  }

  /** The kernel finds its geometry in block 1. */
  ghost predicate SuperAt(sb: Super, d: Disk) {
    |d| > 1 && Readsb(d) == sb
  }

  lemma SuperKept(sb: Super, d: Disk, e: Disk)
    requires SuperAt(sb, d) && |e| == |d| && e[1] == d[1]
    ensures SuperAt(sb, e)
  {
  }

  ghost predicate Inv(sb: Super, d: Disk, ino: seq<Dinode>, own: Owner) {
    sb.Valid() && Shape(sb, d, ino, own) && Marked(sb, d, own) && FreeZero(sb, d, own) && SuperAt(sb, d)
  }

  /** Byte p of the file, holes and everything past the end reading as zero. */
  function ByteOf(d: Disk, di: Dinode, p: nat): (x: Byte)
    requires p < 71680
  {
    var b := Slot(d, di, SlotOf(p / 512));
    if b == 0 || b >= |d| then 0 else d[b][p % 512]
  }

  /** Two disks give one inode the same bytes. */
  ghost predicate SameBytes(d: Disk, di: Dinode, e: Disk, ei: Dinode) {
    forall p: nat :: p < 71680 ==> ByteOf(e, ei, p) == ByteOf(d, di, p)
  }

  /** Every inode of the disk keeps its bytes. */
  ghost predicate Steady(d: Disk, ino: seq<Dinode>, e: Disk, ino': seq<Dinode>) {
    |ino| == |ino'| && forall j: nat :: j < |ino| ==> SameBytes(d, ino[j], e, ino'[j])
  }

  lemma SteadyRefl(d: Disk, ino: seq<Dinode>)
    ensures Steady(d, ino, d, ino)
  {
  }

  lemma SteadyTrans(d: Disk, ino: seq<Dinode>, e: Disk, ino': seq<Dinode>, f: Disk, ino'': seq<Dinode>)
    requires Steady(d, ino, e, ino') && Steady(e, ino', f, ino'')
    ensures Steady(d, ino, f, ino'')
  {
    forall j: nat | j < |ino|
      ensures SameBytes(d, ino[j], f, ino''[j])
    {
      assert SameBytes(d, ino[j], e, ino'[j]) && SameBytes(e, ino'[j], f, ino''[j]);
    }
  }

  lemma OthersRefl(i: nat, d: Disk, ino: seq<Dinode>)
    ensures OthersSteady(i, d, ino, d, ino)
  {
  }

  lemma SteadyOthers(i: nat, d: Disk, ino: seq<Dinode>, e: Disk, ino': seq<Dinode>)
    requires Steady(d, ino, e, ino') && i < |ino|
    ensures OthersSteady(i, d, ino, e, ino') && SameBytes(d, ino[i], e, ino'[i])
  {
  }

  /** Every inode but i keeps its bytes. */
  ghost predicate OthersSteady(i: nat, d: Disk, ino: seq<Dinode>, e: Disk, ino': seq<Dinode>) {
    |ino| == |ino'| && forall j: nat :: j < |ino| && j != i ==> SameBytes(d, ino[j], e, ino'[j])
  }

  lemma OthersTrans(i: nat, d: Disk, ino: seq<Dinode>, e: Disk, ino': seq<Dinode>, f: Disk, ino'': seq<Dinode>)
    requires OthersSteady(i, d, ino, e, ino') && OthersSteady(i, e, ino', f, ino'')
    ensures OthersSteady(i, d, ino, f, ino'')
  {
    forall j: nat | j < |ino| && j != i
      ensures SameBytes(d, ino[j], f, ino''[j])
    {
      assert SameBytes(d, ino[j], e, ino'[j]) && SameBytes(e, ino'[j], f, ino''[j]);
    }
  }

  // ---- Frames -----------------------------------------------------------------

  lemma SlotFrame(d: Disk, e: Disk, di: Dinode)
    requires |d| == |e|
    requires di.addrs[12] == 0 || di.addrs[12] >= |d| || d[di.addrs[12]] == e[di.addrs[12]]
    ensures forall k: nat :: k < 141 ==> Slot(e, di, k) == Slot(d, di, k)
  {
  }

  /** If slots and the blocks they name are unchanged, so are the bytes. */
  lemma BytesFrame(d: Disk, di: Dinode, e: Disk, ei: Dinode)
    requires |d| == |e|
    requires forall k: nat :: k < 141 && k != 12 ==>
      Slot(e, ei, k) == Slot(d, di, k) && (0 < Slot(d, di, k) < |d| ==> e[Slot(d, di, k)] == d[Slot(d, di, k)])
    ensures SameBytes(d, di, e, ei)
  {
    forall p: nat | p < 71680
      ensures ByteOf(e, ei, p) == ByteOf(d, di, p)
    {
      var k := SlotOf(p / 512);
      assert Slot(e, ei, k) == Slot(d, di, k);
    }
  }

  lemma BitBlockIsMeta(sb: Super, b: nat)
    requires b < sb.size
    ensures sb.BitBlock(b) < sb.Meta()
  {
    assert b / 4096 <= sb.size / 4096;
  }

  lemma SlotRange(sb: Super, d: Disk, ino: seq<Dinode>, own: Owner, i: nat, k: nat)
    requires Shape(sb, d, ino, own) && i < |ino| && k < 141
    ensures var b := Slot(d, ino[i], k);
      b != 0 ==> b in own && own[b] == (i, k) && sb.Meta() <= b && b < |d|
  {
    assert SlotOwns(d, ino, own, i, k);
    var b := Slot(d, ino[i], k);
    assert b in own ==> OwnedBySlot(sb, d, ino, own, b);
  }

  /** What a slot of a consistent disk can hold. */
  lemma InvSlot(sb: Super, d: Disk, ino: seq<Dinode>, own: Owner, i: nat, k: nat)
    requires Inv(sb, d, ino, own) && i < |ino| && k < 141
    ensures |d| == sb.size && sb.Valid()
    ensures var b := Slot(d, ino[i], k);
      b != 0 ==> b in own && own[b] == (i, k) && sb.Meta() <= b && b < |d|
  {
    SlotRange(sb, d, ino, own, i, k);
  }

  /** The owning slot of an owned block. */
  lemma OwnerRange(sb: Super, d: Disk, ino: seq<Dinode>, own: Owner, b: nat)
    requires Shape(sb, d, ino, own) && b in own
    ensures var (i, k) := own[b];
      sb.Meta() <= b && b < |d| && i < |ino| && k < 141 && Slot(d, ino[i], k) == b
  {
    assert OwnedBySlot(sb, d, ino, own, b);
  }

  lemma InvOwner(sb: Super, d: Disk, ino: seq<Dinode>, own: Owner, b: nat)
    requires Inv(sb, d, ino, own) && b in own
    ensures var (i, k) := own[b];
      sb.Meta() <= b && b < |d| && i < |ino| && k < 141 && Slot(d, ino[i], k) == b
  {
    OwnerRange(sb, d, ino, own, b);
  }

  /**
   What the invariant says without mentioning owners: the bitmap marks exactly
   the metadata blocks and the blocks some slot holds, no block is in two slots,
   and every unmarked block is zero.
   */
  lemma InvMeans(sb: Super, d: Disk, ino: seq<Dinode>, own: Owner)
    requires Inv(sb, d, ino, own)
    ensures forall b: nat :: b < sb.size ==> sb.BitBlock(b) < |d|
    ensures forall b: nat :: b < sb.size ==>
              (Bit(sb, d, b) <==>
                (b < sb.Meta() || exists i: nat, k: nat :: i < |ino| && k < 141 && Slot(d, ino[i], k) == b))
    ensures forall i: nat, k: nat, j: nat, q: nat ::
              i < |ino| && k < 141 && j < |ino| && q < 141 && Slot(d, ino[i], k) == Slot(d, ino[j], q) != 0 ==>
                i == j && k == q
    ensures forall i: nat, k: nat :: i < |ino| && k < 141 && Slot(d, ino[i], k) != 0 ==>
              sb.Meta() <= Slot(d, ino[i], k) < sb.size
    ensures forall b: nat :: b < sb.size && sb.BitBlock(b) < |d| && !Bit(sb, d, b) ==> b < |d| && d[b] == ZeroBlock()
  {
    forall i: nat, k: nat | i < |ino| && k < 141 && Slot(d, ino[i], k) != 0
      ensures Slot(d, ino[i], k) in own && own[Slot(d, ino[i], k)] == (i, k)
      ensures sb.Meta() <= Slot(d, ino[i], k) < sb.size
    {
      SlotRange(sb, d, ino, own, i, k);
    }
    forall b: nat | b < sb.size
      ensures sb.BitBlock(b) < |d|
      ensures Bit(sb, d, b) <==>
                (b < sb.Meta() || exists i: nat, k: nat :: i < |ino| && k < 141 && Slot(d, ino[i], k) == b)
    {
      if b in own {
        OwnerRange(sb, d, ino, own, b);
        assert Slot(d, ino[own[b].0], own[b].1) == b;
      }
    }
  }

  /** Changing a block that is nobody's indirect block changes no slot. */
  lemma SlotsKept(sb: Super, d: Disk, e: Disk, ino: seq<Dinode>, own: Owner, j: nat)
    requires Shape(sb, d, ino, own) && |e| == |d| && j < |ino|
    requires forall b :: b in own && own[b] == (j, 12) ==> b < |d| && e[b] == d[b]
    ensures forall k: nat :: k < 141 ==> Slot(e, ino[j], k) == Slot(d, ino[j], k)
  {
    SlotRange(sb, d, ino, own, j, 12);
    SlotFrame(d, e, ino[j]);
  }

  /** An inode none of whose blocks changed has the same slots and bytes. */
  lemma InodeKept(sb: Super, d: Disk, e: Disk, ino: seq<Dinode>, own: Owner, j: nat)
    requires Shape(sb, d, ino, own) && |e| == |d| && j < |ino|
    requires forall b :: b in own && own[b].0 == j ==> b < |d| && e[b] == d[b]
    ensures forall k: nat :: k < 141 ==> Slot(e, ino[j], k) == Slot(d, ino[j], k)
    ensures SameBytes(d, ino[j], e, ino[j])
  {
    SlotsKept(sb, d, e, ino, own, j);
    forall k: nat | k < 141 && k != 12
      ensures 0 < Slot(d, ino[j], k) < |d| ==> e[Slot(d, ino[j], k)] == d[Slot(d, ino[j], k)]
    {
      SlotRange(sb, d, ino, own, j, k);
    }
    BytesFrame(d, ino[j], e, ino[j]);
  }

  lemma ShapeKept(sb: Super, d: Disk, e: Disk, ino: seq<Dinode>, own: Owner)
    requires Shape(sb, d, ino, own) && |e| == |d|
    requires forall i: nat, k: nat :: i < |ino| && k < 141 ==> Slot(e, ino[i], k) == Slot(d, ino[i], k)
    ensures Shape(sb, e, ino, own)
  {
    forall i: nat, k: nat | i < |ino| && k < 141
      ensures SlotOwns(e, ino, own, i, k)
    {
      SlotRange(sb, d, ino, own, i, k);
    }
    forall b | b in own
      ensures OwnedBySlot(sb, e, ino, own, b)
    {
      OwnerRange(sb, d, ino, own, b);
      assert Slot(e, ino[own[b].0], own[b].1) == b;
    }
  }

  lemma BitsKept(sb: Super, d: Disk, e: Disk)
    requires |d| == |e| == sb.size && sb.Valid()
    requires forall b: nat :: b < sb.Meta() ==> e[b] == d[b]
    ensures forall b: nat :: b < sb.size ==> sb.BitBlock(b) < |d| && (Bit(sb, e, b) <==> Bit(sb, d, b))
  {
    forall b: nat | b < sb.size
      ensures sb.BitBlock(b) < |d| && (Bit(sb, e, b) <==> Bit(sb, d, b))
    {
      BitBlockIsMeta(sb, b);
    }
  }

  // ---- Writing a data block ------------------------------------------------------

  lemma WriteBlock(sb: Super, d: Disk, ino: seq<Dinode>, own: Owner, b: nat, x: Block)
    requires Inv(sb, d, ino, own) && b in own && own[b].1 != 12
    ensures b < |d| && Inv(sb, d[b := x], ino, own)
    ensures forall i: nat, k: nat :: i < |ino| && k < 141 ==> Slot(d[b := x], ino[i], k) == Slot(d, ino[i], k)
    ensures forall i: nat :: i < |ino| && i != own[b].0 ==> SameBytes(d, ino[i], d[b := x], ino[i])
  {
    hide SuperAt;
    OwnerRange(sb, d, ino, own, b);
    var e := d[b := x];
    SuperKept(sb, d, e);
    forall i: nat | i < |ino|
      ensures forall k: nat :: k < 141 ==> Slot(e, ino[i], k) == Slot(d, ino[i], k)
      ensures i != own[b].0 ==> SameBytes(d, ino[i], e, ino[i])
    {
      forall c | c in own && (own[c] == (i, 12) || (own[c].0 == i && i != own[b].0))
        ensures c < |d| && e[c] == d[c]
      {
        OwnerRange(sb, d, ino, own, c);
      }
      SlotsKept(sb, d, e, ino, own, i);
      if i != own[b].0 {
        InodeKept(sb, d, e, ino, own, i);
      }
    }
    ShapeKept(sb, d, e, ino, own);
    BitsKept(sb, d, e);
  }

  // ---- Changing one slot -----------------------------------------------------------

  /** From (d, ino) to (e, ino[i := di]) only slot (i, k) may differ. */
  ghost predicate OneSlot(d: Disk, ino: seq<Dinode>, i: nat, k: nat, e: Disk, di: Dinode)
    requires i < |ino|
  {
    && (forall j: nat, q: nat :: j < |ino| && j != i && q < 141 ==> Slot(e, ino[j], q) == Slot(d, ino[j], q))
    && (forall q: nat :: q < 141 && q != k ==> Slot(e, di, q) == Slot(d, ino[i], q))
  }

  /** Filling an empty slot with a free block. */
  lemma ShapeTake(sb: Super, d: Disk, ino: seq<Dinode>, own: Owner, b: nat, i: nat, k: nat, e: Disk, di: Dinode)
    requires Shape(sb, d, ino, own) && |e| == |d| && i < |ino| && k < 141
    requires sb.Meta() <= b < sb.size && b !in own
    requires OneSlot(d, ino, i, k, e, di)
    requires Slot(d, ino[i], k) == 0 && Slot(e, di, k) == b
    ensures Shape(sb, e, ino[i := di], own[b := (i, k)])
  {
    var ino', own' := ino[i := di], own[b := (i, k)];
    forall j: nat, q: nat | j < |ino'| && q < 141
      ensures SlotOwns(e, ino', own', j, q)
    {
      SlotRange(sb, d, ino, own, j, q);
      assert (j, q) == (i, k) || Slot(e, ino'[j], q) == Slot(d, ino[j], q);
    }
    forall c | c in own'
      ensures OwnedBySlot(sb, e, ino', own', c)
    {
      if c != b {
        OwnerRange(sb, d, ino, own, c);
        var (j, q) := own[c];
        assert Slot(e, ino'[j], q) == Slot(d, ino[j], q);
      }
    }
  }

  /** Emptying the slot that owns block b. */
  lemma ShapeDrop(sb: Super, d: Disk, ino: seq<Dinode>, own: Owner, b: nat, i: nat, k: nat, e: Disk, di: Dinode)
    requires Shape(sb, d, ino, own) && |e| == |d| && i < |ino| && k < 141
    requires b in own && own[b] == (i, k)
    requires OneSlot(d, ino, i, k, e, di)
    requires Slot(e, di, k) == 0
    ensures Shape(sb, e, ino[i := di], own - {b})
  {
    var ino', own' := ino[i := di], own - {b};
    forall j: nat, q: nat | j < |ino'| && q < 141
      ensures SlotOwns(e, ino', own', j, q)
    {
      SlotRange(sb, d, ino, own, j, q);
      assert (j, q) == (i, k) || Slot(e, ino'[j], q) == Slot(d, ino[j], q);
    }
    forall c | c in own'
      ensures OwnedBySlot(sb, e, ino', own', c)
    {
      OwnerRange(sb, d, ino, own, c);
      OwnerRange(sb, d, ino, own, b);
      var (j, q) := own[c];
      assert Slot(e, ino'[j], q) == Slot(d, ino[j], q);
    }
  }

  // ---- Taking a block ---------------------------------------------------------------

  lemma ZeroBlockWord(j: nat)
    requires j < 128
    ensures GetWord(ZeroBlock(), j) == 0
  {
  }

  lemma TakenBits(sb: Super, d: Disk, own: Owner, b: nat, s: (nat, nat))
    requires sb.Valid() && |d| == sb.size && sb.Meta() <= b < sb.size && sb.BitBlock(b) < sb.Meta()
    requires Marked(sb, d, own) && FreeZero(sb, d, own)
    ensures Marked(sb, PutBitmap(sb, d, b, true), own[b := s])
    ensures FreeZero(sb, PutBitmap(sb, d, b, true), own[b := s])
  {
    PutBitmapGet(sb, d, b, true);
    var e := PutBitmap(sb, d, b, true);
    forall c: nat | c < sb.size
      ensures sb.BitBlock(c) < |e| && (Bit(sb, e, c) <==> c < sb.Meta() || c in own[b := s])
    {
      BitBlockIsMeta(sb, c);
    }
  }

  /** Setting the bitmap bit of a free block moves no slot and no byte. */
  lemma MarkKeepsAll(sb: Super, d: Disk, ino: seq<Dinode>, own: Owner, b: nat, on: bool)
    requires sb.Valid() && Shape(sb, d, ino, own) && b < sb.size
    ensures sb.BitBlock(b) < |d|
    ensures forall j: nat :: j < |ino| ==> SameBytes(d, ino[j], PutBitmap(sb, d, b, on), ino[j])
    ensures forall j: nat, q: nat :: j < |ino| && q < 141 ==>
              Slot(PutBitmap(sb, d, b, on), ino[j], q) == Slot(d, ino[j], q)
    ensures forall c: nat :: sb.Meta() <= c < sb.size ==> PutBitmap(sb, d, b, on)[c] == d[c]
  {
    BitBlockIsMeta(sb, b);
    var e := PutBitmap(sb, d, b, on);
    forall j: nat | j < |ino|
      ensures forall q: nat :: q < 141 ==> Slot(e, ino[j], q) == Slot(d, ino[j], q)
      ensures SameBytes(d, ino[j], e, ino[j])
    {
      forall c | c in own
        ensures c < |d| && e[c] == d[c]
      {
        OwnerRange(sb, d, ino, own, c);
      }
      InodeKept(sb, d, e, ino, own, j);
    }
  }

  /** balloc's block b stored in addrs[k]: k is a direct slot or the indirect pointer. */
  lemma TakeDirect(sb: Super, d: Disk, ino: seq<Dinode>, own: Owner, b: nat, i: nat, k: nat)
    requires Inv(sb, d, ino, own) && sb.Meta() <= b < sb.size && b !in own
    requires i < |ino| && k <= 12 && ino[i].addrs[k] == 0
    ensures sb.BitBlock(b) < |d|
    ensures var e := PutBitmap(sb, d, b, true);
            var di := ino[i].(addrs := ino[i].addrs[k := b]);
      && Inv(sb, e, ino[i := di], own[b := (i, k)])
      && Steady(d, ino, e, ino[i := di])
      && OneSlot(d, ino, i, k, e, di) && Slot(e, di, k) == b
  {
    hide SuperAt;
    MarkKeepsAll(sb, d, ino, own, b, true);
    var e := PutBitmap(sb, d, b, true);
    var di := ino[i].(addrs := ino[i].addrs[k := b]);
    assert e[b] == ZeroBlock();
    SuperKept(sb, d, e);
    forall q: nat | q < 141 && q != k
      ensures Slot(e, di, q) == Slot(d, ino[i], q)
    {
      assert Slot(e, ino[i], q) == Slot(d, ino[i], q);
      if k == 12 && q > 12 {
        ZeroBlockWord(q - 13);
      }
    }
    ShapeTake(sb, d, ino, own, b, i, k, e, di);
    BitBlockIsMeta(sb, b);
    TakenBits(sb, d, own, b, (i, k));
    forall q: nat | q < 141 && q != 12 && 0 < Slot(d, ino[i], q) < |d|
      ensures e[Slot(d, ino[i], q)] == d[Slot(d, ino[i], q)]
    {
      SlotRange(sb, d, ino, own, i, q);
    }
    FreshBytes(d, ino[i], e, di, k);
  }

  /** A slot that goes from empty to a zero block changes no byte of the file. */
  lemma FreshBytes(d: Disk, di: Dinode, e: Disk, ei: Dinode, k: nat)
    requires k < 141 && Slot(d, di, k) == 0 && 0 < Slot(e, ei, k) < |e| == |d|
    requires k != 12 ==> e[Slot(e, ei, k)] == ZeroBlock()
    requires forall q: nat :: q < 141 && q != k ==> Slot(e, ei, q) == Slot(d, di, q)
    requires forall q: nat :: q < 141 && q != 12 && 0 < Slot(d, di, q) < |d| ==> e[Slot(d, di, q)] == d[Slot(d, di, q)]
    ensures SameBytes(d, di, e, ei)
  {
    forall p: nat | p < 71680
      ensures ByteOf(e, ei, p) == ByteOf(d, di, p)
    {
      var q := SlotOf(p / 512);
      assert q == k || Slot(e, ei, q) == Slot(d, di, q);
    }
  }

  /** Rewriting one word of the indirect block changes exactly that slot. */
  lemma PutEntry(d: Disk, e: Disk, di: Dinode, k: nat, v: nat)
    requires 12 < k < 141 && v <= UINT_MAX && |e| == |d| && 0 < di.addrs[12] < |d|
    requires e[di.addrs[12]] == PutWord(d[di.addrs[12]], k - 13, v)
    ensures Slot(e, di, k) == v
    ensures forall q: nat :: q < 141 && q != k ==> Slot(e, di, q) == Slot(d, di, q)
  {
    var x := PutWord(d[di.addrs[12]], k - 13, v);
    forall q: nat | q < 141 && q != k
      ensures Slot(e, di, q) == Slot(d, di, q)
    {
      if q > 12 {
        assert GetWord(x, q - 13) == GetWord(d[di.addrs[12]], q - 13);
      }
    }
  }

  lemma TakenBitsThenWrite(sb: Super, d: Disk, own: Owner, b: nat, s: (nat, nat), c: nat, x: Block)
    requires sb.Valid() && |d| == sb.size && sb.Meta() <= b < sb.size && sb.BitBlock(b) < sb.Meta()
    requires Marked(sb, d, own) && FreeZero(sb, d, own)
    requires c in own && sb.Meta() <= c < sb.size
    ensures Marked(sb, PutBitmap(sb, d, b, true)[c := x], own[b := s])
    ensures FreeZero(sb, PutBitmap(sb, d, b, true)[c := x], own[b := s])
    ensures |d| > 1 && PutBitmap(sb, d, b, true)[c := x][1] == d[1]
  {
    TakenBits(sb, d, own, b, s);
    BitsKept(sb, PutBitmap(sb, d, b, true), PutBitmap(sb, d, b, true)[c := x]);
  }

  /** balloc's block b stored in entry k - 13 of the indirect block. */
  lemma TakeEntry(sb: Super, d: Disk, ino: seq<Dinode>, own: Owner, b: nat, i: nat, k: nat)
    requires Inv(sb, d, ino, own) && sb.Meta() <= b < sb.size && b !in own
    requires i < |ino| && 12 < k < 141 && ino[i].addrs[12] != 0 && Slot(d, ino[i], k) == 0
    ensures sb.BitBlock(b) < |d| && ino[i].addrs[12] < |d|
    ensures var ind := ino[i].addrs[12];
            var e := PutBitmap(sb, d, b, true)[ind := PutWord(d[ind], k - 13, b)];
      && Inv(sb, e, ino, own[b := (i, k)])
      && Steady(d, ino, e, ino)
      && OneSlot(d, ino, i, k, e, ino[i]) && Slot(e, ino[i], k) == b
  {
    hide SuperAt;
    BitBlockIsMeta(sb, b);
    SlotRange(sb, d, ino, own, i, 12);
    var ind := ino[i].addrs[12];
    var x := PutWord(d[ind], k - 13, b);
    var e := PutBitmap(sb, d, b, true)[ind := x];
    TakenBitsThenWrite(sb, d, own, b, (i, k), ind, x);
    SuperKept(sb, d, e);
    TakeEntryShape(sb, d, ino, own, b, i, k, e);
  }

  lemma TakeEntryShape(sb: Super, d: Disk, ino: seq<Dinode>, own: Owner, b: nat, i: nat, k: nat, e: Disk)
    requires Inv(sb, d, ino, own) && sb.Meta() <= b < sb.size && b !in own && |e| == |d|
    requires i < |ino| && 12 < k < 141 && 0 < ino[i].addrs[12] < |d| && Slot(d, ino[i], k) == 0
    requires forall c: nat :: sb.Meta() <= c < |d| && c != ino[i].addrs[12] ==> e[c] == d[c]
    requires e[ino[i].addrs[12]] == PutWord(d[ino[i].addrs[12]], k - 13, b)
    ensures Shape(sb, e, ino, own[b := (i, k)])
    ensures Steady(d, ino, e, ino)
    ensures OneSlot(d, ino, i, k, e, ino[i]) && Slot(e, ino[i], k) == b
  {
    hide SuperAt;
    SlotRange(sb, d, ino, own, i, 12);
    forall j: nat | j < |ino| && j != i
      ensures forall q: nat :: q < 141 ==> Slot(e, ino[j], q) == Slot(d, ino[j], q)
      ensures SameBytes(d, ino[j], e, ino[j])
    {
      forall c | c in own && own[c].0 == j
        ensures c < |d| && e[c] == d[c]
      {
        OwnerRange(sb, d, ino, own, c);
      }
      InodeKept(sb, d, e, ino, own, j);
    }
    PutEntry(d, e, ino[i], k, b);
    assert ino[i := ino[i]] == ino;
    ShapeTake(sb, d, ino, own, b, i, k, e, ino[i]);
    TakeEntryBytes(sb, d, ino, own, b, i, k, e);
  }

  lemma TakeEntryBytes(sb: Super, d: Disk, ino: seq<Dinode>, own: Owner, b: nat, i: nat, k: nat, e: Disk)
    requires Inv(sb, d, ino, own) && sb.Meta() <= b < sb.size && b !in own && |e| == |d|
    requires i < |ino| && 12 < k < 141 && 0 < ino[i].addrs[12] < |d| && Slot(d, ino[i], k) == 0
    requires forall c: nat :: sb.Meta() <= c < |d| && c != ino[i].addrs[12] ==> e[c] == d[c]
    requires OneSlot(d, ino, i, k, e, ino[i]) && Slot(e, ino[i], k) == b
    ensures SameBytes(d, ino[i], e, ino[i])
  {
    SlotRange(sb, d, ino, own, i, 12);
    forall q: nat | q < 141 && q != 12 && 0 < Slot(d, ino[i], q) < |d|
      ensures e[Slot(d, ino[i], q)] == d[Slot(d, ino[i], q)]
    {
      SlotRange(sb, d, ino, own, i, q);
    }
    FreshBytes(d, ino[i], e, ino[i], k);
  }

  // ---- Giving a block back --------------------------------------------------------

  /** The disk after bfree(b): block zeroed first, then its bit cleared. */
  function Freed(sb: Super, d: Disk, b: nat): (e: Disk)
    requires b < |d| && sb.BitBlock(b) < |d|
    ensures |e| == |d|
  {
    PutBitmap(sb, d[b := ZeroBlock()], b, false)
  }

  lemma FreedBits(sb: Super, d: Disk, own: Owner, b: nat)
    requires sb.Valid() && |d| == sb.size && sb.Meta() <= b < sb.size && sb.BitBlock(b) < sb.Meta()
    requires Marked(sb, d, own) && FreeZero(sb, d, own)
    ensures Marked(sb, Freed(sb, d, b), own - {b})
    ensures FreeZero(sb, Freed(sb, d, b), own - {b})
  {
    var z := d[b := ZeroBlock()];
    BitsKept(sb, d, z);
    PutBitmapGet(sb, z, b, false);
    var e := Freed(sb, d, b);
    forall c: nat | c < sb.size
      ensures sb.BitBlock(c) < |e| && (Bit(sb, e, c) <==> c < sb.Meta() || c in own - {b})
    {
      BitBlockIsMeta(sb, c);
    }
  }

  /** Inodes other than the owner of b see nothing of bfree(b). */
  lemma FreedOthers(sb: Super, d: Disk, ino: seq<Dinode>, own: Owner, b: nat, i: nat, e: Disk)
    requires Inv(sb, d, ino, own) && b in own && own[b].0 == i
    requires |e| == |d|
    requires forall c: nat :: c in own && own[c].0 != i ==> c < |d| && e[c] == d[c]
    ensures forall j: nat, q: nat :: j < |ino| && j != i && q < 141 ==> Slot(e, ino[j], q) == Slot(d, ino[j], q)
    ensures forall j: nat :: j < |ino| && j != i ==> SameBytes(d, ino[j], e, ino[j])
  {
    forall j: nat | j < |ino| && j != i
      ensures forall q: nat :: q < 141 ==> Slot(e, ino[j], q) == Slot(d, ino[j], q)
      ensures SameBytes(d, ino[j], e, ino[j])
    {
      InodeKept(sb, d, e, ino, own, j);
    }
  }

  /** bfree of a direct block (k < 12), or of an indirect block all of whose entries are zero (k == 12). */
  lemma FreeDirect(sb: Super, d: Disk, ino: seq<Dinode>, own: Owner, i: nat, k: nat)
    requires Inv(sb, d, ino, own) && i < |ino| && k <= 12 && ino[i].addrs[k] != 0
    requires k == 12 ==> forall q: nat :: 12 < q < 141 ==> Slot(d, ino[i], q) == 0
    ensures var b := ino[i].addrs[k];
            b < |d| && b in own && own[b] == (i, k) && sb.BitBlock(b) < |d| && Bit(sb, d, b)
    ensures var b := ino[i].addrs[k];
            var e := Freed(sb, d, b);
            var di := ino[i].(addrs := ino[i].addrs[k := 0]);
      && Inv(sb, e, ino[i := di], own - {b})
      && OthersSteady(i, d, ino, e, ino[i := di])
      && OneSlot(d, ino, i, k, e, di)
  {
    hide SuperAt;
    SlotRange(sb, d, ino, own, i, k);
    var b := ino[i].addrs[k];
    BitBlockIsMeta(sb, b);
    var e := Freed(sb, d, b);
    SuperKept(sb, d, e);
    assert forall c: nat :: sb.Meta() <= c < |d| && c != b ==> e[c] == d[c];
    FreeDirectShape(sb, d, ino, own, i, k, b, e);
    FreedBits(sb, d, own, b);
  }

  lemma FreeDirectShape(sb: Super, d: Disk, ino: seq<Dinode>, own: Owner, i: nat, k: nat, b: nat, e: Disk)
    requires Inv(sb, d, ino, own) && i < |ino| && k <= 12 && |e| == |d|
    requires b != 0 && b == ino[i].addrs[k] && b in own && own[b] == (i, k)
    requires k == 12 ==> forall q: nat :: 12 < q < 141 ==> Slot(d, ino[i], q) == 0
    requires forall c: nat :: sb.Meta() <= c < |d| && c != b ==> e[c] == d[c]
    ensures var di := ino[i].(addrs := ino[i].addrs[k := 0]);
      && Shape(sb, e, ino[i := di], own - {b})
      && OthersSteady(i, d, ino, e, ino[i := di])
      && OneSlot(d, ino, i, k, e, di)
  {
    hide SuperAt, Marked, FreeZero;
    var di := ino[i].(addrs := ino[i].addrs[k := 0]);
    forall c: nat | c in own && own[c].0 != i
      ensures c < |d| && e[c] == d[c]
    {
      OwnerRange(sb, d, ino, own, c);
    }
    FreedOthers(sb, d, ino, own, b, i, e);
    SlotRange(sb, d, ino, own, i, 12);
    ShapeDrop(sb, d, ino, own, b, i, k, e, di);
  }

  lemma FreedBitsThenWrite(sb: Super, d: Disk, own: Owner, b: nat, c: nat, x: Block)
    requires sb.Valid() && |d| == sb.size && sb.Meta() <= b < sb.size && sb.BitBlock(b) < sb.Meta()
    requires Marked(sb, d, own) && FreeZero(sb, d, own)
    requires c in own && c != b && sb.Meta() <= c < sb.size
    ensures Marked(sb, Freed(sb, d, b)[c := x], own - {b})
    ensures FreeZero(sb, Freed(sb, d, b)[c := x], own - {b})
    ensures |d| > 1 && Freed(sb, d, b)[c := x][1] == d[1]
  {
    FreedBits(sb, d, own, b);
    BitsKept(sb, Freed(sb, d, b), Freed(sb, d, b)[c := x]);
  }

  /** bfree of the block in entry k - 13, with the entry then counted as empty. */
  lemma FreeEntry(sb: Super, d: Disk, ino: seq<Dinode>, own: Owner, i: nat, k: nat)
    requires Inv(sb, d, ino, own) && i < |ino| && 12 < k < 141 && Slot(d, ino[i], k) != 0
    ensures var b := Slot(d, ino[i], k);
            b < |d| && b in own && own[b] == (i, k) && sb.BitBlock(b) < |d| && Bit(sb, d, b)
    ensures var b, ind := Slot(d, ino[i], k), ino[i].addrs[12];
            ind < |d| && ind != b && ind >= sb.Meta()
    ensures var b, ind := Slot(d, ino[i], k), ino[i].addrs[12];
            var e := Freed(sb, d, b)[ind := PutWord(d[ind], k - 13, 0)];
      && Inv(sb, e, ino, own - {b})
      && OthersSteady(i, d, ino, e, ino)
      && OneSlot(d, ino, i, k, e, ino[i]) && Slot(e, ino[i], k) == 0
  {
    hide SuperAt;
    SlotRange(sb, d, ino, own, i, k);
    SlotRange(sb, d, ino, own, i, 12);
    var b, ind := Slot(d, ino[i], k), ino[i].addrs[12];
    BitBlockIsMeta(sb, b);
    var x := PutWord(d[ind], k - 13, 0);
    var e := Freed(sb, d, b)[ind := x];
    FreedBitsThenWrite(sb, d, own, b, ind, x);
    SuperKept(sb, d, e);
    FreeEntryShape(sb, d, ino, own, i, k, b, e);
  }

  lemma FreeEntryShape(sb: Super, d: Disk, ino: seq<Dinode>, own: Owner, i: nat, k: nat, b: nat, e: Disk)
    requires Inv(sb, d, ino, own) && i < |ino| && 12 < k < 141 && |e| == |d|
    requires b != 0 && b == Slot(d, ino[i], k) && b in own && own[b] == (i, k) && 0 < ino[i].addrs[12] < |d|
    requires forall c: nat :: sb.Meta() <= c < |d| && c != b && c != ino[i].addrs[12] ==> e[c] == d[c]
    requires e[ino[i].addrs[12]] == PutWord(d[ino[i].addrs[12]], k - 13, 0)
    ensures Shape(sb, e, ino, own - {b})
    ensures OthersSteady(i, d, ino, e, ino)
    ensures OneSlot(d, ino, i, k, e, ino[i]) && Slot(e, ino[i], k) == 0
  {
    hide SuperAt;
    SlotRange(sb, d, ino, own, i, 12);
    var ind := ino[i].addrs[12];
    forall c: nat | c in own && own[c].0 != i
      ensures c < |d| && e[c] == d[c]
    {
      OwnerRange(sb, d, ino, own, c);
    }
    FreedOthers(sb, d, ino, own, b, i, e);
    PutEntry(d, e, ino[i], k, 0);
    assert ino[i := ino[i]] == ino;
    ShapeDrop(sb, d, ino, own, b, i, k, e, ino[i]);
  }

  // ---- Fields that are no slots ----------------------------------------------------

  /** An inode's type, link count and size do not matter to block ownership. */
  lemma OnlyAddrsMatter(sb: Super, d: Disk, ino: seq<Dinode>, own: Owner, i: nat, di: Dinode)
    requires Inv(sb, d, ino, own) && i < |ino| && di.addrs == ino[i].addrs
    ensures Inv(sb, d, ino[i := di], own)
    ensures Steady(d, ino, d, ino[i := di])
  {
    var ino' := ino[i := di];
    assert forall k: nat :: k < 141 ==> Slot(d, di, k) == Slot(d, ino[i], k);
    forall j: nat, k: nat | j < |ino'| && k < 141
      ensures SlotOwns(d, ino', own, j, k)
    {
      assert SlotOwns(d, ino, own, j, k);
    }
    forall b | b in own
      ensures OwnedBySlot(sb, d, ino', own, b)
    {
      OwnerRange(sb, d, ino, own, b);
      assert Slot(d, ino'[own[b].0], own[b].1) == b;
    }
  }
}
