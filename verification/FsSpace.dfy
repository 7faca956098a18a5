/**
 Counting free blocks, and what a hole-free file looks like on disk.
 */
module FsSpace {
  import opened Bytes
  import opened Counting
  import opened FsLayout
  import opened FsInv

  // ---- Free space -----------------------------------------------------------

  /** Data blocks nobody owns. */
  ghost function Free(sb: Super, own: Owner): int
    requires sb.Valid()
  {
    sb.size - sb.Meta() - |own|
  }

  /** There is a free block below sb.size exactly when the free count is positive. */
  lemma FreeBlockExists(sb: Super, d: Disk, ino: seq<Dinode>, own: Owner)
    requires sb.Valid() && Shape(sb, d, ino, own)
    ensures Free(sb, own) >= 0
    ensures Free(sb, own) > 0 <==> exists b: nat :: sb.Meta() <= b < sb.size && b !in own
  {
    var r := Range(sb.Meta(), sb.size);
    forall b | b in own.Keys
      ensures b in r
    {
      OwnerRange(sb, d, ino, own, b);
    }
    SubsetSize(own.Keys, r);
    assert |own.Keys| == |own|;
    if forall b: nat :: sb.Meta() <= b < sb.size ==> b in own.Keys {
      assert own.Keys == r;
    } else {
      assert own.Keys != r;
    }
  }

  lemma FreeNonNegative(sb: Super, d: Disk, ino: seq<Dinode>, own: Owner)
    requires Inv(sb, d, ino, own)
    ensures sb.Valid() && Free(sb, own) >= 0
  {
    FreeBlockExists(sb, d, ino, own);
  }

  /** When the blocks below used are taken, those from there on are free. */
  lemma FreeAbove(sb: Super, own: Owner, used: nat)
    requires sb.Valid() && sb.Meta() <= used <= sb.size
    requires forall b: nat :: b in own <==> sb.Meta() <= b < used
    ensures Free(sb, own) == sb.size - used
  {
    assert own.Keys == Range(sb.Meta(), used);
  }

  // ---- Hole-free files -----------------------------------------------------------

  /** Exactly the file blocks that start below len are mapped. */
  ghost predicate HoleFree(d: Disk, di: Dinode, len: nat) {
    && (forall bn: nat :: bn < 140 ==> (Slot(d, di, SlotOf(bn)) != 0 <==> 512 * bn < len))
    && (di.addrs[12] != 0 <==> 6144 < len)
  }

  /** Every byte from len on reads as zero. */
  ghost predicate TailZero(d: Disk, di: Dinode, len: nat) {
    forall p: nat :: len <= p < 71680 ==> ByteOf(d, di, p) == 0
  }

  ghost predicate FileOk(d: Disk, di: Dinode) {
    di.size <= 71680 && HoleFree(d, di, di.size) && TailZero(d, di, di.size)
  }

  /** The file as a byte sequence. */
  ghost function Contents(d: Disk, di: Dinode): (s: seq<Byte>)
    requires di.size <= 71680
    ensures |s| == di.size
    ensures forall p: nat :: p < di.size ==> s[p] == ByteOf(d, di, p)
  {
    seq(di.size, p requires 0 <= p < di.size => ByteOf(d, di, p))
  }

  /** Blocks a hole-free file of len bytes holds, its indirect block included. */
  function Blocks(len: nat): (n: nat) {
    (len + 511) / 512 + (if 6144 < len then 1 else 0)
  }

  /** Blocks bmap(bn) has to allocate. */
  function Need(d: Disk, di: Dinode, bn: nat): (n: nat)
    requires bn < 140
  {
    if Slot(d, di, SlotOf(bn)) != 0 then 0
    else if 12 <= bn && di.addrs[12] == 0 then 2 else 1
  }

  lemma BlocksMonotone(a: nat, b: nat)
    requires a <= b
    ensures Blocks(a) <= Blocks(b)
  {
    assert (a + 511) / 512 <= (b + 511) / 512;
  }

  /** Growing from len to upto within block bn needs exactly bmap(bn)'s allocations. */
  lemma NeedIsBlocks(d: Disk, di: Dinode, len: nat, bn: nat, off: nat, upto: nat)
    requires HoleFree(d, di, len) && bn < 140 && 512 * bn <= off <= len && off < upto <= 512 * bn + 512
    ensures Need(d, di, bn) == Blocks(Max(len, upto)) - Blocks(len)
  {
    if 512 * bn < len {
      if upto > len {
        assert (len + 511) / 512 == bn + 1;
        assert (upto + 511) / 512 == bn + 1;
        assert 6144 < upto <==> 12 <= bn;
        assert 6144 < len <==> 12 <= bn;
      }
    } else {
      assert len == 512 * bn && (len + 511) / 512 == bn;
      assert (upto + 511) / 512 == bn + 1;
    }
  }

  // ---- One chunk of writei --------------------------------------------------------

  lemma SliceCat(c: seq<Byte>, x: nat, y: nat, z: nat)
    requires x <= y <= z <= |c|
    ensures c[x..y] + c[y..z] == c[x..z]
  {
  }

  lemma DivMod512(p: nat)
    ensures p == 512 * (p / 512) + p % 512
  {
  }

  /** `memmove(bp->data + o, src, m)` on one block. */
  function PutBytes(x: Block, o: nat, s: seq<Byte>): (y: Block)
    requires o + |s| <= 512
    ensures forall q: nat :: q < 512 ==> y[q] == if o <= q < o + |s| then s[q - o] else x[q]
  {
    x[..o] + s + x[o + |s|..]
  }

  lemma Div512(p: nat, bn: nat)
    ensures p / 512 == bn <==> 512 * bn <= p < 512 * bn + 512
    ensures p / 512 == bn ==> p % 512 == p - 512 * bn
  {
  }

  /** Writing s at offset o of file block bn changes exactly those bytes of the file. */
  lemma ChunkWrite(sb: Super, d: Disk, ino: seq<Dinode>, own: Owner, i: nat, bn: nat, o: nat, s: seq<Byte>)
    requires Inv(sb, d, ino, own) && i < |ino|
    requires |s| > 0 && o + |s| <= 512 && bn < 140
    requires Slot(d, ino[i], SlotOf(bn)) != 0
    ensures var b := Slot(d, ino[i], SlotOf(bn)); b < |d| && b in own && own[b].1 != 12 && own[b].0 == i
    ensures var b := Slot(d, ino[i], SlotOf(bn));
            var e := d[b := PutBytes(d[b], o, s)];
      && Inv(sb, e, ino, own)
      && OthersSteady(i, d, ino, e, ino)
      && (forall q: nat :: q < 141 ==> Slot(e, ino[i], q) == Slot(d, ino[i], q))
      && (forall p: nat :: p < 71680 ==>
            ByteOf(e, ino[i], p) ==
            if 512 * bn + o <= p < 512 * bn + o + |s| then s[p - (512 * bn + o)] else ByteOf(d, ino[i], p))
  {
    hide SuperAt;
    var k := SlotOf(bn);
    SlotRange(sb, d, ino, own, i, k);
    var b := Slot(d, ino[i], k);
    var y := PutBytes(d[b], o, s);
    WriteBlock(sb, d, ino, own, b, y);
    var e := d[b := y];
    forall p: nat | p < 71680
      ensures ByteOf(e, ino[i], p) ==
              if 512 * bn + o <= p < 512 * bn + o + |s| then s[p - (512 * bn + o)] else ByteOf(d, ino[i], p)
    {
      var q := SlotOf(p / 512);
      SlotRange(sb, d, ino, own, i, q);
      assert Slot(e, ino[i], q) == Slot(d, ino[i], q);
      Div512(p, bn);
      if p / 512 != bn {
        assert Slot(d, ino[i], q) != b;
      }
    }
  }

  // ---- The writei loop ------------------------------------------------------------

  function Max(a: nat, b: nat): nat { if a < b then b else a }

  /** Overwrite s from off on with t, growing it if t runs past the end. */
  function Splice(s: seq<Byte>, off: nat, t: seq<Byte>): (r: seq<Byte>)
    requires off <= |s|
    ensures |r| == Max(|s|, off + |t|)
    ensures forall p: nat :: p < |r| ==> r[p] == if off <= p < off + |t| then t[p - off] else s[p]
  {
    s[..off] + t + (if off + |t| < |s| then s[off + |t|..] else [])
  }

  /** The first |s| bytes from off are written: file i went from (d0, di0) to (d, di). */
  ghost predicate Written(d0: Disk, di0: Dinode, d: Disk, di: Dinode, off: nat, s: seq<Byte>) {
    && off + |s| <= 71680
    && HoleFree(d, di, Max(di0.size, off + |s|))
    && forall p: nat :: p < 71680 ==>
         ByteOf(d, di, p) == if off <= p < off + |s| then s[p - off] else ByteOf(d0, di0, p)
  }

  /** What bmap(bn) leaves of a file's block map. */
  ghost predicate BlockMapped(d: Disk, di: Dinode, e: Disk, ei: Dinode, bn: nat)
    requires bn < 140
  {
    && Slot(e, ei, SlotOf(bn)) != 0
    && (forall q: nat :: q < 141 && q != 12 && q != SlotOf(bn) ==> Slot(e, ei, q) == Slot(d, di, q))
    && (ei.addrs[12] != 0 <==> di.addrs[12] != 0 || 12 <= bn)
  }

  /** After bmap and one chunk of memmove the file has that much more written. */
  lemma WriteStep(sb: Super, d0: Disk, di0: Dinode, d: Disk, di: Dinode, off: nat, s: seq<Byte>,
                  d1: Disk, ino1: seq<Dinode>, own1: Owner, i: nat, bn: nat, o: nat, t: seq<Byte>)
    requires Written(d0, di0, d, di, off, s) && off <= di0.size
    requires |t| > 0 && bn < 140 && off + |s| == 512 * bn + o && o + |t| <= 512
    requires Inv(sb, d1, ino1, own1) && i < |ino1| && SameBytes(d, di, d1, ino1[i])
    requires BlockMapped(d, di, d1, ino1[i], bn)
    ensures var b := Slot(d1, ino1[i], SlotOf(bn)); b < |d1| && b in own1
    ensures var b := Slot(d1, ino1[i], SlotOf(bn));
            var e := d1[b := PutBytes(d1[b], o, t)];
      && Inv(sb, e, ino1, own1)
      && OthersSteady(i, d1, ino1, e, ino1)
      && Written(d0, di0, e, ino1[i], off, s + t)
  {
    hide Inv, OthersSteady;
    var cur := off + |s|;
    ChunkWrite(sb, d1, ino1, own1, i, bn, o, t);
    var b := Slot(d1, ino1[i], SlotOf(bn));
    var e := d1[b := PutBytes(d1[b], o, t)];
    forall p: nat | p < 71680
      ensures ByteOf(e, ino1[i], p) == if off <= p < cur + |t| then (s + t)[p - off] else ByteOf(d0, di0, p)
    {
      assert ByteOf(d1, ino1[i], p) == ByteOf(d, di, p);
    }
    HoleFreeStep(d, di, Max(di0.size, cur), bn, cur, cur + |t|, e, ino1[i]);
  }

  lemma HoleFreeStep(d: Disk, di: Dinode, len: nat, bn: nat, cur: nat, upto: nat, e: Disk, ei: Dinode)
    requires HoleFree(d, di, len) && bn < 140 && 512 * bn <= cur <= len && cur < upto <= 512 * bn + 512
    requires BlockMapped(d, di, e, ei, bn)
    ensures HoleFree(e, ei, Max(len, upto))
  {
    forall c: nat | c < 140
      ensures Slot(e, ei, SlotOf(c)) != 0 <==> 512 * c < Max(len, upto)
    {
      hide Slot;
      if c != bn {
        assert SlotOf(c) != SlotOf(bn) && SlotOf(c) != 12;
        assert Slot(e, ei, SlotOf(c)) == Slot(d, di, SlotOf(c));
      }
    }
    hide Slot;
  }

  lemma FileOkSize(d: Disk, di: Dinode)
    requires FileOk(d, di)
    ensures di.size <= 71680 && HoleFree(d, di, di.size)
  {
  }

  lemma WrittenHoleFree(d0: Disk, di0: Dinode, d: Disk, di: Dinode, off: nat, s: seq<Byte>)
    requires Written(d0, di0, d, di, off, s)
    ensures HoleFree(d, di, Max(di0.size, off + |s|))
  {
  }

  lemma WrittenStart(d: Disk, di: Dinode, off: nat)
    requires FileOk(d, di) && off <= di.size
    ensures Written(d, di, d, di, off, [])
  {
  }

  /** When everything is written, the file is its old contents spliced. */
  lemma WrittenEnd(d0: Disk, di0: Dinode, d: Disk, di: Dinode, off: nat, s: seq<Byte>)
    requires FileOk(d0, di0) && off <= di0.size && Written(d0, di0, d, di, off, s)
    ensures var di' := di.(size := Max(di0.size, off + |s|));
      FileOk(d, di') && Contents(d, di') == Splice(Contents(d0, di0), off, s)
  {
    var di' := di.(size := Max(di0.size, off + |s|));
    assert forall k: nat :: k < 141 ==> Slot(d, di', k) == Slot(d, di, k);
    assert forall p: nat :: p < 71680 ==> ByteOf(d, di', p) == ByteOf(d, di, p);
    assert di'.size <= 71680;
    var c := Contents(d, di');
    var z := Splice(Contents(d0, di0), off, s);
    assert |c| == |z|;
    forall p: nat | p < |c|
      ensures c[p] == z[p]
    {
      assert c[p] == ByteOf(d, di, p);
      if p >= di0.size && !(off <= p < off + |s|) {
        assert false;
      }
    }
  }

  /** The same, seen from before bmap. */
  lemma MappedThenWritten(sb: Super, d0: Disk, di0: Dinode, d: Disk, ino: seq<Dinode>, off: nat, s: seq<Byte>,
                          d1: Disk, ino1: seq<Dinode>, own1: Owner, i: nat, bn: nat, o: nat, t: seq<Byte>)
    requires i < |ino| && Written(d0, di0, d, ino[i], off, s) && off <= di0.size
    requires |t| > 0 && bn < 140 && off + |s| == 512 * bn + o && o + |t| <= 512
    requires Inv(sb, d1, ino1, own1) && Steady(d, ino, d1, ino1) && i < |ino1|
    requires BlockMapped(d, ino[i], d1, ino1[i], bn)
    ensures var b := Slot(d1, ino1[i], SlotOf(bn));
            && b < |d1|
            && var e := d1[b := PutBytes(d1[b], o, t)];
               Inv(sb, e, ino1, own1) && OthersSteady(i, d, ino, e, ino1) && Written(d0, di0, e, ino1[i], off, s + t)
  {
    SteadyOthers(i, d, ino, d1, ino1);
    hide Inv, Written, OthersSteady, Steady, SameBytes, Slot, BlockMapped;
    WriteStep(sb, d0, di0, d, ino[i], off, s, d1, ino1, own1, i, bn, o, t);
    var b := Slot(d1, ino1[i], SlotOf(bn));
    OthersTrans(i, d, ino, d1, ino1, d1[b := PutBytes(d1[b], o, t)], ino1);
  }

  lemma BlockOfFile(sb: Super, d: Disk, ino: seq<Dinode>, own: Owner, i: nat, bn: nat)
    requires Inv(sb, d, ino, own) && i < |ino| && FileOk(d, ino[i]) && 512 * bn < ino[i].size
    ensures bn < 140 && Need(d, ino[i], bn) == 0 && ino[i].size <= 71680 && 0 != Slot(d, ino[i], SlotOf(bn)) < |d|
  {
    hide SuperAt;
    SlotRange(sb, d, ino, own, i, SlotOf(bn));
  }

  lemma ByteOfBlock(d: Disk, di: Dinode, bn: nat, q: nat)
    requires bn < 140 && q < 512 && 0 != Slot(d, di, SlotOf(bn)) < |d|
    ensures ByteOf(d, di, 512 * bn + q) == d[Slot(d, di, SlotOf(bn))][q]
  {
    Div512(512 * bn + q, bn);
  }

  /** A file block that starts below the end is mapped, and its bytes are the file's. */
  lemma ReadChunk(sb: Super, d: Disk, ino: seq<Dinode>, own: Owner, i: nat, bn: nat, o: nat, k: nat)
    requires Inv(sb, d, ino, own) && i < |ino| && FileOk(d, ino[i])
    requires o + k <= 512 && k > 0 && 512 * bn + o + k <= ino[i].size
    ensures bn < 140 && Need(d, ino[i], bn) == 0 && ino[i].size <= 71680
    ensures var b := Slot(d, ino[i], SlotOf(bn));
      b < |d| && d[b][o..o + k] == Contents(d, ino[i])[512 * bn + o..512 * bn + o + k]
  {
    hide Inv, FileOk, ByteOf;
    assert 512 * bn < ino[i].size;
    BlockOfFile(sb, d, ino, own, i, bn);
    var b := Slot(d, ino[i], SlotOf(bn));
    var c := Contents(d, ino[i]);
    var x, y := d[b][o..o + k], c[512 * bn + o..512 * bn + o + k];
    forall q: nat | q < k
      ensures x[q] == y[q]
    {
      ByteOfBlock(d, ino[i], bn, o + q);
      assert x[q] == d[b][o + q] && y[q] == c[512 * bn + o + q] == ByteOf(d, ino[i], 512 * bn + o + q);
    }
  }
}
