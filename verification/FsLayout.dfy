/**
 The on-disk layout shared by the kernel's fs.c and by mkfs.c (fs.h):
 superblock geometry, bitmap bits, indirect blocks, and the block map of an
 inode.  Everything here is a function of a disk value.  A block has BSIZE = 512
 bytes; an inode has NDIRECT = 12 direct addresses and an indirect block of
 NINDIRECT = 128 more, so MAXFILE = 140 blocks in 141 slots; a bitmap block has
 BPB = 4096 bits and an inode block IPB = 8 inodes.
 */
module FsLayout {
  import opened Bytes

  type Block = b: seq<Byte> | |b| == 512 witness seq(512, i => 0)
  type Disk = seq<Block>

  function ZeroBlock(): (b: Block)
    ensures forall p: nat :: p < 512 ==> b[p] == 0
  {
    seq(512, i => 0)
  }

  // ---- Words of an indirect block ------------------------------------------

  function GetWord(b: Block, j: nat): (v: nat)
    requires j < 128
    ensures v <= UINT_MAX
  {
    Word(b[4 * j], b[4 * j + 1], b[4 * j + 2], b[4 * j + 3])
  }

  function PutWord(b: Block, j: nat, v: nat): (c: Block)
    requires j < 128 && v <= UINT_MAX
    ensures GetWord(c, j) == v
    ensures forall i: nat :: i < 128 && i != j ==> GetWord(c, i) == GetWord(b, i)
    ensures forall p: nat :: p < 512 && !(4 * j <= p < 4 * j + 4) ==> c[p] == b[p]
  {
    var w := WordBytes(v);
    b[4 * j := w[0]][4 * j + 1 := w[1]][4 * j + 2 := w[2]][4 * j + 3 := w[3]]
  }

  // ---- Geometry -------------------------------------------------------------

  /** The superblock: number of blocks and of inodes. */
  datatype Super = Super(size: nat, ninodes: nat) {
    /** First block past superblock, inodes and bitmap (mkfs's usedblocks). */
    function Meta(): (m: nat)
      ensures m > 3
    {
      ninodes / 8 + 3 + (size / 4096 + 1)
    }

    /** BBLOCK(b): the block holding the bitmap bit of b. */
    function BitBlock(b: nat): nat {
      b / 4096 + ninodes / 8 + 3
    }

    predicate Valid() {
      0 < ninodes <= UINT_MAX && Meta() <= size <= 0x7FFF_FFFF
    }

    /** Block 1 as mkfs lays it down: size, number of data blocks, number of inodes. */
    function Bytes(): Block
      requires Valid()
    {
      PutWord(PutWord(PutWord(ZeroBlock(), 0, size), 1, size - Meta()), 2, ninodes)
    }
  }

  /** readsb: the superblock as the kernel finds it in block 1. */
  function Readsb(d: Disk): Super
    requires |d| > 1
  {
    Super(GetWord(d[1], 0), GetWord(d[1], 2))
  }

  lemma ReadsbBack(sb: Super, d: Disk)
    requires sb.Valid() && |d| > 1 && d[1] == sb.Bytes()
    ensures Readsb(d) == sb
  {
    var x := PutWord(ZeroBlock(), 0, sb.size);
    var y := PutWord(x, 1, sb.size - sb.Meta());
    assert GetWord(y, 0) == GetWord(x, 0);
    assert GetWord(sb.Bytes(), 0) == GetWord(y, 0);
  }

  predicate Bit(sb: Super, d: Disk, b: nat)
    requires sb.BitBlock(b) < |d|
  {
    BitSet(d[sb.BitBlock(b)][b % 4096 / 8], b % 8)
  }

  /** The bitmap update `bp->data[bi/8] |= m` or `&= ~m` for block b. */
  function PutBitmap(sb: Super, d: Disk, b: nat, on: bool): (e: Disk)
    requires sb.BitBlock(b) < |d|
    ensures |e| == |d|
    ensures forall c: nat :: c < |d| && c != sb.BitBlock(b) ==> e[c] == d[c]
  {
    d[sb.BitBlock(b) := PutBlockBit(d[sb.BitBlock(b)], b % 4096 / 8, b % 8, on)]
  }

  function PutBlockBit(x: Block, i: nat, k: nat, on: bool): Block
    requires i < 512 && k < 8
  {
    x[i := PutByteBit(x[i], k, on)]
  }

  lemma PutBitmapGet(sb: Super, d: Disk, b: nat, on: bool)
    requires sb.BitBlock(b) < |d|
    ensures forall c: nat :: sb.BitBlock(c) < |d| ==>
      (Bit(sb, PutBitmap(sb, d, b, on), c) <==> if c == b then on else Bit(sb, d, c))
  {
    var e := PutBitmap(sb, d, b, on);
    forall c: nat | sb.BitBlock(c) < |d|
      ensures Bit(sb, e, c) <==> if c == b then on else Bit(sb, d, c)
    {
      if sb.BitBlock(c) == sb.BitBlock(b) && c % 4096 / 8 == b % 4096 / 8 {
        BitIndex(b, c);
      }
    }
  }

  lemma BitIndex(b: nat, c: nat)
    requires b / 4096 == c / 4096 && b % 4096 / 8 == c % 4096 / 8
    ensures b == c <==> b % 8 == c % 8
  {
    BitParts(b);
    BitParts(c);
  }

  lemma BitParts(b: nat)
    ensures b == 4096 * (b / 4096) + 8 * (b % 4096 / 8) + b % 8
  {
    var q, r := b / 4096, b % 4096;
    assert b == 4096 * q + r;
    assert b == 8 * (512 * q) + r;
    assert b % 8 == r % 8;
  }
}
