/**
 Facts behind itrunc: while the entries of the indirect block are freed one
 after another, the disk is consistent as if the entries already passed were
 zero; freeing the indirect block itself makes that true.
 */
module FsTrunc {
  import opened Bytes
  import opened FsLayout
  import opened FsInv
  import opened FsSpace

  /** Block x with its first j words zero. */
  ghost predicate ClearedTo(x: Block, y: Block, j: nat) {
    forall q: nat :: q < 128 ==> GetWord(y, q) == if q < j then 0 else GetWord(x, q)
  }

  /** Only blocks of inode i were given back. */
  ghost predicate OnlyReleased(own0: Owner, own: Owner, i: nat) {
    && (forall b :: b in own ==> b in own0 && own[b] == own0[b])
    && (forall b :: b in own0 && own0[b].0 != i ==> b in own)
  }

  lemma ReleaseTrans(own0: Owner, own1: Owner, own2: Owner, i: nat)
    requires OnlyReleased(own0, own1, i) && OnlyReleased(own1, own2, i)
    ensures OnlyReleased(own0, own2, i)
  {
  }

  lemma ReleaseOne(own0: Owner, own: Owner, i: nat, b: nat)
    requires OnlyReleased(own0, own, i) && b in own && own[b].0 == i
    ensures OnlyReleased(own0, own - {b}, i)
  {
  }

  /** The blocks held by inodes other than i. */
  ghost function Others(own: Owner, i: nat): (r: Owner)
    ensures forall b: nat :: b in r <==> b in own && own[b].0 != i
    ensures forall b: nat :: b in r ==> r[b] == own[b]
  {
    map b | b in own && own[b].0 != i :: own[b]
  }

  /** Inodes other than i hold the same blocks as before. */
  ghost predicate SameOthers(own0: Owner, own: Owner, i: nat) {
    Others(own, i) == Others(own0, i)
  }

  lemma OthersSelf(own: Owner, i: nat)
    ensures SameOthers(own, own, i)
  {
  }

  lemma SameOthersTrans(own0: Owner, own1: Owner, own2: Owner, i: nat)
    requires SameOthers(own0, own1, i) && SameOthers(own1, own2, i)
    ensures SameOthers(own0, own2, i)
  {
  }

  lemma OthersTwice(own: Owner, i: nat)
    ensures SameOthers(own, Others(own, i), i)
  {
  }

  /** Every inode but i is as it was: same fields, same blocks, same bytes. */
  ghost predicate Untouched(d: Disk, ino: seq<Dinode>, e: Disk, ino': seq<Dinode>, i: nat) {
    && |ino'| == |ino|
    && forall j: nat :: j < |ino| && j != i ==>
         && ino'[j] == ino[j] && SameBytes(d, ino[j], e, ino[j])
         && forall k: nat :: k < 141 ==> Slot(e, ino[j], k) == Slot(d, ino[j], k)
  }

  /** Every file that was hole-free still is, with the same contents; only inode i may differ. */
  ghost predicate OthersKept(d: Disk, ino: seq<Dinode>, e: Disk, ino': seq<Dinode>, i: nat) {
    |ino'| == |ino| && forall j: nat :: j < |ino| && j != i ==> ino'[j] == ino[j] && FileKept(d, e, ino[j])
  }

  /** The file, if hole-free, is the same on the other disk. */
  ghost predicate FileKept(d: Disk, e: Disk, di: Dinode) {
    FileOk(d, di) ==> FileOk(e, di) && Contents(e, di) == Contents(d, di)
  }

  lemma SameHolder(sb: Super, d: Disk, ino: seq<Dinode>, own: Owner, e: Disk, ino': seq<Dinode>, own': Owner,
                   i: nat, j: nat, k: nat)
    requires Inv(sb, d, ino, own) && Inv(sb, e, ino', own') && SameOthers(own, own', i)
    requires |ino'| == |ino| && j < |ino| && j != i && ino'[j] == ino[j] && k < 141
    ensures Slot(e, ino[j], k) == Slot(d, ino[j], k)
  {
    hide Inv, Slot;
    InvSlot(sb, d, ino, own, j, k);
    InvSlot(sb, e, ino', own', j, k);
    var a, b := Slot(d, ino[j], k), Slot(e, ino[j], k);
    if a != 0 {
      assert a in Others(own, i);
      InvOwner(sb, e, ino', own', a);
    } else if b != 0 {
      assert b in Others(own', i);
      InvOwner(sb, d, ino, own, b);
    }
  }

  lemma SameFile(d: Disk, e: Disk, di: Dinode)
    requires SameBytes(d, di, e, di) && forall k: nat :: k < 141 ==> Slot(e, di, k) == Slot(d, di, k)
    ensures FileKept(d, e, di)
  {
    hide ByteOf;
  }

  /** Inodes that keep their blocks and their bytes keep everything. */
  lemma KeptOthers(sb: Super, d: Disk, ino: seq<Dinode>, own: Owner, e: Disk, ino': seq<Dinode>, own': Owner, i: nat)
    requires Inv(sb, d, ino, own) && Inv(sb, e, ino', own') && SameOthers(own, own', i)
    requires OthersSteady(i, d, ino, e, ino') && forall j: nat :: j < |ino| && j != i ==> ino'[j] == ino[j]
    ensures Untouched(d, ino, e, ino', i) && OthersKept(d, ino, e, ino', i)
  {
    hide Inv, SameBytes, FileKept, Slot, SameOthers;
    forall j: nat | j < |ino| && j != i
      ensures forall k: nat :: k < 141 ==> Slot(e, ino[j], k) == Slot(d, ino[j], k)
      ensures FileKept(d, e, ino[j])
    {
      forall k: nat | k < 141
        ensures Slot(e, ino[j], k) == Slot(d, ino[j], k)
      {
        SameHolder(sb, d, ino, own, e, ino', own', i, j, k);
      }
      SameFile(d, e, ino[j]);
    }
  }

  /** What remains when inode i maps nothing: exactly everybody else's blocks. */
  lemma AllReleased(sb: Super, d: Disk, ino: seq<Dinode>, own0: Owner, own: Owner, i: nat)
    requires Inv(sb, d, ino, own) && i < |ino| && OnlyReleased(own0, own, i)
    requires forall k: nat :: k <= 12 ==> ino[i].addrs[k] == 0
    ensures own == Others(own0, i)
    ensures FileOk(d, ino[i].(size := 0))
  {
    hide SuperAt;
    forall b | b in own
      ensures own[b].0 != i
    {
      OwnerRange(sb, d, ino, own, b);
    }
  }

  // ---- Counting what a hole-free file holds --------------------------------------

  ghost function FirstBlocks(d: Disk, di: Dinode, n: nat): set<nat>
    requires n <= 140
  {
    if n == 0 then {} else FirstBlocks(d, di, n - 1) + {Slot(d, di, SlotOf(n - 1))}
  }

  lemma {:induction false} FirstBlocksCount(sb: Super, d: Disk, ino: seq<Dinode>, own: Owner, i: nat, n: nat)
    requires Inv(sb, d, ino, own) && i < |ino| && n <= 140
    requires forall bn: nat :: bn < n ==> Slot(d, ino[i], SlotOf(bn)) != 0
    ensures |FirstBlocks(d, ino[i], n)| == n
    ensures forall b: nat :: b in FirstBlocks(d, ino[i], n) <==>
      b in own && own[b].0 == i && own[b].1 != 12 && own[b].1 < SlotOf(n)
  {
    hide Inv;
    if n > 0 {
      FirstBlocksCount(sb, d, ino, own, i, n - 1);
      InvSlot(sb, d, ino, own, i, SlotOf(n - 1));
      forall b: nat | b in own && own[b].0 == i && own[b].1 == SlotOf(n - 1)
        ensures b == Slot(d, ino[i], SlotOf(n - 1))
      {
        InvOwner(sb, d, ino, own, b);
      }
    }
  }

  /** The data blocks of a hole-free file. */
  lemma DataCount(sb: Super, d: Disk, ino: seq<Dinode>, own: Owner, i: nat) returns (data: set<nat>)
    requires Inv(sb, d, ino, own) && i < |ino| && FileOk(d, ino[i])
    ensures |data| == (ino[i].size + 511) / 512
    ensures forall b: nat :: b in data <==> b in own && own[b].0 == i && own[b].1 != 12
  {
    hide SuperAt;
    var di := ino[i];
    var n := (di.size + 511) / 512;
    MappedCount(d, di);
    hide Inv, FileOk, FirstBlocks;
    data := FirstBlocks(d, di, n);
    FirstBlocksCount(sb, d, ino, own, i, n);
    forall b: nat | b in own && own[b].0 == i && own[b].1 != 12
      ensures own[b].1 < SlotOf(n)
    {
      InvOwner(sb, d, ino, own, b);
      var bn := FileBlockOf(own[b].1, n);
      assert Slot(d, di, SlotOf(bn)) != 0;
    }
  }

  /** All blocks of a hole-free file. */
  lemma MineCount(sb: Super, d: Disk, ino: seq<Dinode>, own: Owner, i: nat) returns (mine: set<nat>)
    requires Inv(sb, d, ino, own) && i < |ino| && FileOk(d, ino[i])
    ensures |mine| == Blocks(ino[i].size)
    ensures forall b: nat :: b in mine <==> b in own && own[b].0 == i
  {
    hide SuperAt;
    var di := ino[i];
    MappedCount(d, di);
    assert Slot(d, di, 12) == di.addrs[12];
    var data := DataCount(sb, d, ino, own, i);
    hide Inv, FileOk, Slot;
    InvSlot(sb, d, ino, own, i, 12);
    mine := if di.addrs[12] != 0 then data + {di.addrs[12]} else data;
    forall b: nat | b in own && own[b] == (i, 12)
      ensures b == di.addrs[12] && b != 0
    {
      InvOwner(sb, d, ino, own, b);
    }
  }

  lemma FileBlockOf(k: nat, n: nat) returns (bn: nat)
    requires k < 141 && k != 12
    ensures bn < 140 && SlotOf(bn) == k && (bn < n <==> k < SlotOf(n))
  {
    bn := if k < 12 then k else k - 1;
  }

  lemma MappedCount(d: Disk, di: Dinode)
    requires FileOk(d, di)
    ensures var n := (di.size + 511) / 512;
      && n <= 140 && (di.addrs[12] != 0 <==> 6144 < di.size)
      && (forall bn: nat :: bn < 140 ==> (bn < n <==> Slot(d, di, SlotOf(bn)) != 0))
  {
    var n := (di.size + 511) / 512;
    forall bn: nat | bn < 140
      ensures bn < n <==> Slot(d, di, SlotOf(bn)) != 0
    {
      assert bn < n <==> 512 * bn < di.size;
    }
  }

  /** A hole-free file of di.size bytes owns exactly Blocks(di.size) blocks. */
  lemma BlocksOwned(sb: Super, d: Disk, ino: seq<Dinode>, own: Owner, i: nat)
    requires Inv(sb, d, ino, own) && i < |ino| && FileOk(d, ino[i])
    ensures |own| == |Others(own, i)| + Blocks(ino[i].size)
  {
    var mine := MineCount(sb, d, ino, own, i);
    hide Inv, FileOk, Blocks, Others;
    SplitCount(own, Others(own, i), mine);
  }

  lemma SplitCount(own: Owner, rest: Owner, mine: set<nat>)
    requires forall b: nat :: b in own <==> b in rest || b in mine
    requires forall b: nat :: b in rest ==> b !in mine
    ensures |own| == |rest| + |mine|
  {
    assert own.Keys == rest.Keys + mine;
    assert rest.Keys !! mine;
    assert |own.Keys| == |own| && |rest.Keys| == |rest|;
  }

  lemma FreedElsewhere(sb: Super, d: Disk, b: nat, c: nat, x: Block)
    requires sb.Valid() && |d| == sb.size && b < |d| && c < |d| && b != c && sb.Meta() <= c
    ensures sb.BitBlock(b) < |d|
    ensures Freed(sb, d[c := x], b) == Freed(sb, d, b)[c := x]
    ensures Bit(sb, d[c := x], b) == Bit(sb, d, b)
  {
    BitBlockIsMeta(sb, b);
    assert d[c := x][b := ZeroBlock()] == d[b := ZeroBlock()][c := x];
    var e := d[b := ZeroBlock()];
    assert sb.BitBlock(b) != c;
    assert Freed(sb, d[c := x], b) == Freed(sb, d, b)[c := x];
  }

  lemma FreedSelf(sb: Super, d: Disk, b: nat, x: Block)
    requires sb.Valid() && |d| == sb.size && b < |d| && sb.Meta() <= b
    ensures sb.BitBlock(b) < |d|
    ensures Freed(sb, d[b := x], b) == Freed(sb, d, b)
    ensures Bit(sb, d[b := x], b) == Bit(sb, d, b)
  {
    BitBlockIsMeta(sb, b);
    assert d[b := x][b := ZeroBlock()] == d[b := ZeroBlock()];
  }

  lemma FreedLeaves(sb: Super, d: Disk, b: nat, c: nat)
    requires sb.Valid() && |d| == sb.size && b < |d| && c < |d| && b != c && sb.Meta() <= c
    ensures sb.BitBlock(b) < |d|
    ensures Freed(sb, d, b)[c] == d[c]
  {
    BitBlockIsMeta(sb, b);
  }

  lemma EntryDisk(sb: Super, d: Disk, b: nat, c: nat, x: Block, y: Block)
    requires sb.Valid() && |d| == sb.size && b < |d| && c < |d| && b != c && sb.Meta() <= b && sb.Meta() <= c
    ensures sb.BitBlock(b) < |d|
    ensures Freed(sb, d, b)[c] == d[c]
    ensures Freed(sb, d[c := x], b)[c := y] == Freed(sb, d, b)[c := y]
    ensures Bit(sb, d[b := ZeroBlock()], b) == Bit(sb, d[c := x], b)
  {
    FreedElsewhere(sb, d, b, c, x);
    FreedSelf(sb, d, b, ZeroBlock());
    FreedLeaves(sb, d, b, c);
    assert Freed(sb, d[c := x], b)[c := y] == Freed(sb, d, b)[c := y];
  }

  /** One entry of the indirect block freed: the virtual disk stays consistent. */
  lemma EntryStep(sb: Super, d: Disk, x: Block, ino: seq<Dinode>, own: Owner, i: nat, j: nat)
    requires i < |ino| && j < 128 && ino[i].addrs[12] != 0
    requires var ind := ino[i].addrs[12];
      && ind < |d| && ClearedTo(d[ind], x, j) && GetWord(d[ind], j) != 0
      && Inv(sb, d[ind := x], ino, own)
    ensures var b, ind := GetWord(d[ino[i].addrs[12]], j), ino[i].addrs[12];
      && b < |d| && b in own && own[b] == (i, j + 13) && b != ind && sb.BitBlock(b) < |d|
      && Bit(sb, d[b := ZeroBlock()], b)
      && Freed(sb, d, b)[ind] == d[ind]
    ensures var b, ind := GetWord(d[ino[i].addrs[12]], j), ino[i].addrs[12];
            var y := PutWord(x, j, 0);
      && ClearedTo(d[ind], y, j + 1)
      && Inv(sb, Freed(sb, d, b)[ind := y], ino, own - {b})
      && OthersSteady(i, d[ind := x], ino, Freed(sb, d, b)[ind := y], ino)
  {
    var ind := ino[i].addrs[12];
    var v := d[ind := x];
    var b := GetWord(d[ind], j);
    var y := PutWord(x, j, 0);
    InvSlot(sb, v, ino, own, i, 12);
    assert Slot(v, ino[i], j + 13) == GetWord(x, j) == b;
    hide Inv, OthersSteady, Slot, OneSlot, Freed, Bit;
    FreeEntry(sb, v, ino, own, i, j + 13);
    BitBlockIsMeta(sb, b);
    EntryDisk(sb, d, b, ind, x, y);
  }

  lemma EntrySkip(x: Block, y: Block, j: nat)
    requires j < 128 && ClearedTo(x, y, j) && GetWord(x, j) == 0
    ensures ClearedTo(x, y, j + 1)
  {
  }

  /** All entries passed: freeing the indirect block leaves the real disk consistent. */
  lemma IndirectStep(sb: Super, d: Disk, x: Block, ino: seq<Dinode>, own: Owner, i: nat)
    requires i < |ino| && ino[i].addrs[12] != 0
    requires var ind := ino[i].addrs[12];
      ind < |d| && ClearedTo(d[ind], x, 128) && Inv(sb, d[ind := x], ino, own)
    ensures var ind := ino[i].addrs[12];
      && ind in own && own[ind] == (i, 12) && sb.BitBlock(ind) < |d|
      && Bit(sb, d[ind := ZeroBlock()], ind)
    ensures var ind := ino[i].addrs[12];
            var di := ino[i].(addrs := ino[i].addrs[12 := 0]);
      && Inv(sb, Freed(sb, d, ind), ino[i := di], own - {ind})
      && OthersSteady(i, d[ind := x], ino, Freed(sb, d, ind), ino[i := di])
  {
    var ind := ino[i].addrs[12];
    var v := d[ind := x];
    InvSlot(sb, v, ino, own, i, 12);
    forall q: nat | 12 < q < 141
      ensures Slot(v, ino[i], q) == 0
    {
      assert GetWord(x, q - 13) == 0;
    }
    FreeDirect(sb, v, ino, own, i, 12);
    FreedSelf(sb, d, ind, x);
    FreedSelf(sb, d, ind, ZeroBlock());
  }

  lemma DirectStep(sb: Super, d: Disk, ino: seq<Dinode>, own: Owner, i: nat, k: nat)
    requires Inv(sb, d, ino, own) && i < |ino| && k < 12 && ino[i].addrs[k] != 0
    ensures var b := ino[i].addrs[k];
      && b < |d| && b in own && own[b] == (i, k) && sb.BitBlock(b) < |d|
      && Bit(sb, d[b := ZeroBlock()], b)
    ensures var b := ino[i].addrs[k];
            var di := ino[i].(addrs := ino[i].addrs[k := 0]);
      && Inv(sb, Freed(sb, d, b), ino[i := di], own - {b})
      && OthersSteady(i, d, ino, Freed(sb, d, b), ino[i := di])
  {
    FreeDirect(sb, d, ino, own, i, k);
    FreedSelf(sb, d, ino[i].addrs[k], ZeroBlock());
  }
}
