/**
 mem.c: Mem_Init, Mem_Alloc with its three policies, Mem_Free and coalesce.
 */
module MemRegion {
  import opened Counting
  import opened MemTiles
  import opened MemLists
  import opened MemCoalesce

  const PAGE := 4096
  const INT_MAX := 0x7FFF_FFFF

  datatype Policy = BestFit | WorstFit | FirstFit

  /** A fit function's result; Fault: it has read through a NULL list head. */
  datatype Fit = Found(a: int) | NoFit | Fault

  /** Mem_Alloc's result; Overrun: the rounded size is negative and the split writes outside the chunk. */
  datatype Outcome = Payload(ptr: int) | NoSpace | Fault | Overrun

  /** C's remainder, which has the sign of the dividend. */
  function Rem(a: int, b: nat): int
    requires b > 0
  {
    if a >= 0 then a % b else -((-a) % b)
  }

  /** The int that 32-bit arithmetic gives for a sum or difference of two ints. */
  function Wrap(x: int): int {
    if x > INT_MAX then x - 0x1_0000_0000 else if x < -INT_MAX - 1 then x + 0x1_0000_0000 else x
  }

  /** The test before a split: more than a header would remain, as the machine computes it. */
  predicate Splits(size: int, req: int) {
    Wrap(Wrap(size - req) - HDR) > 0
  }

  /** The test is right unless what would remain exceeds int: then the chunk is not split. */
  lemma SplitsMeans(size: int, req: int)
    requires 0 <= size <= INT_MAX && -INT_MAX - 1 <= req <= size
    ensures Splits(size, req) <==> 0 < size - req - HDR <= INT_MAX
    ensures Splits(size, req) ==> Wrap(Wrap(size - req) - HDR) == size - req - HDR
    ensures req >= 0 ==> (Splits(size, req) <==> HDR < size - req)
  {
  }

  /** requestSize. */
  function Rounded(size: int): int {
    if Rem(size, 8) != 0 then Wrap(size + (8 - Rem(size, 8))) else size
  }

  /** Rounding is right for the sizes one asks for, and this is all: other arguments give a negative chunk. */
  lemma RoundedMeans(size: int)
    requires -INT_MAX - 1 <= size <= INT_MAX
    ensures Rounded(size) % 8 == 0
    ensures 0 <= size <= INT_MAX - 7 ==> size <= Rounded(size) < size + 8
    ensures Rounded(size) >= 0 <==> -16 < size <= INT_MAX - 7 && size != -8
  {
  }

  // ---- Chunks in memory --------------------------------------------------------------------------------

  function SplitTiles(tiles: seq<Tile>, k: nat, req: int): seq<Tile>
    requires k < |tiles|
  {
    var t := tiles[k];
    tiles[..k] + [Tile(t.addr, req, t.free), Tile(t.addr + HDR + req, t.size - req - HDR, true)] + tiles[k + 1..]
  }

  /** Mem_Alloc on the chunks: chunk k split when more than a header would remain, and taken. */
  function Carved(tiles: seq<Tile>, k: nat, req: int): seq<Tile>
    requires k < |tiles|
  {
    if Splits(tiles[k].size, req) then SplitTiles(tiles, k, req)[k := Tile(tiles[k].addr, req, false)]
    else tiles[k := tiles[k].(free := false)]
  }

  lemma SplitIsTiling(tiles: seq<Tile>, begin: int, end: int, k: nat, req: int)
    requires Tiling(tiles, begin, end) && k < |tiles| && 0 <= req && tiles[k].size - req - HDR > 0
    ensures Tiling(SplitTiles(tiles, k, req), begin, end)
  {
    var r := SplitTiles(tiles, k, req);
    assert forall i: nat :: i < k ==> r[i] == tiles[i];
    assert forall i: nat :: k + 1 < i < |r| ==> r[i] == tiles[i - 1];
  }

  /** Every allocation leaves a tiling of aligned chunks without free neighbours. */
  lemma CarvedIsTiling(tiles: seq<Tile>, begin: int, end: int, k: nat, req: int)
    requires Tiling(tiles, begin, end) && Aligned(tiles) && NoAdjacentFree(tiles)
    requires k < |tiles| && tiles[k].free && -INT_MAX - 1 <= req <= tiles[k].size <= INT_MAX && req % 8 == 0
    requires req >= 0 || !Splits(tiles[k].size, req)
    ensures Tiling(Carved(tiles, k, req), begin, end) && Aligned(Carved(tiles, k, req))
            && NoAdjacentFree(Carved(tiles, k, req))
  {
    var r := Carved(tiles, k, req);
    assert forall i: nat :: i < k ==> r[i] == tiles[i];
    if Splits(tiles[k].size, req) {
      SplitsMeans(tiles[k].size, req);
      SplitIsTiling(tiles, begin, end, k, req);
      assert forall i: nat :: k + 1 < i < |r| ==> r[i] == tiles[i - 1];
      RoomAligned(tiles[k].addr, tiles[k].size, req);
    }
  }

  /**
   A negative rounded request keeps the tiling exactly when it does not split the chunk: when no more
   than a header would remain, or so much that the difference wraps.
   */
  lemma CarvedTilesExactly(tiles: seq<Tile>, begin: int, end: int, k: nat, req: int)
    requires Tiling(tiles, begin, end) && Aligned(tiles) && NoAdjacentFree(tiles)
    requires k < |tiles| && tiles[k].free && -INT_MAX - 1 <= req <= tiles[k].size <= INT_MAX && req % 8 == 0
    ensures Tiling(Carved(tiles, k, req), begin, end) <==>
              req >= 0 || tiles[k].size - req - HDR <= 0 || tiles[k].size - req - HDR > INT_MAX
  {
    SplitsMeans(tiles[k].size, req);
    if req >= 0 || !Splits(tiles[k].size, req) {
      CarvedIsTiling(tiles, begin, end, k, req);
    } else {
      assert Carved(tiles, k, req)[k].size == req;
    }
  }

  lemma RoomAligned(a: int, size: int, req: int)
    requires a % 8 == 0 && size % 8 == 0 && req % 8 == 0
    ensures (a + HDR + req) % 8 == 0 && (size - req - HDR) % 8 == 0
  {
  }

  lemma CarvedTakes(tiles: seq<Tile>, begin: int, end: int, k: nat, req: int)
    requires Tiling(tiles, begin, end) && k < |tiles| && tiles[k].free && 0 <= req <= tiles[k].size <= INT_MAX
    ensures var t := Carved(tiles, k, req)[k];
            t.addr == tiles[k].addr && t.size >= req && !t.free && End(t) <= End(tiles[k])
    ensures forall u: Tile :: !u.free ==> (u in Carved(tiles, k, req) <==> u in tiles || u == Carved(tiles, k, req)[k])
  {
    var r := Carved(tiles, k, req);
    SplitsMeans(tiles[k].size, req);
    if Splits(tiles[k].size, req) {
      assert r == tiles[..k] + [r[k], r[k + 1]] + tiles[k + 1..];
      assert tiles == tiles[..k] + [tiles[k]] + tiles[k + 1..];
    } else {
      assert r == tiles[..k] + [r[k]] + tiles[k + 1..];
      assert tiles == tiles[..k] + [tiles[k]] + tiles[k + 1..];
    }
  }

  lemma SplitAddrs(tiles: seq<Tile>, begin: int, end: int, k: nat, req: int)
    requires Tiling(tiles, begin, end) && k < |tiles| && 0 <= req && tiles[k].size - req - HDR > 0
    ensures forall i: nat :: i < |tiles| ==> tiles[i].addr != tiles[k].addr + HDR + req
    ensures forall a, free :: IsTile(SplitTiles(tiles, k, req), a, free) <==>
              IsTile(tiles, a, free) || (free && a == tiles[k].addr + HDR + req)
  {
    var r := SplitTiles(tiles, k, req);
    forall i: nat | i < |tiles|
      ensures tiles[i].addr != tiles[k].addr + HDR + req
    {
      if i < k {
        Ordered(tiles, begin, end, i, k);
        Ordered(tiles, begin, end, i, i);
      } else if i > k {
        Ordered(tiles, begin, end, k, i);
      }
    }
    assert forall i: nat :: i < k ==> r[i] == tiles[i];
    assert forall i: nat :: k + 1 < i < |r| ==> r[i] == tiles[i - 1];
    forall a, free
      ensures IsTile(r, a, free) <==> IsTile(tiles, a, free) || (free && a == tiles[k].addr + HDR + req)
    {
      if i: nat :| TileAt(tiles, i, a, free) {
        assert TileAt(r, if i <= k then i else i + 1, a, free);
      }
      if free && a == tiles[k].addr + HDR + req {
        assert TileAt(r, k + 1, a, free);
      }
      if i: nat :| TileAt(r, i, a, free) {
        assert i != k + 1 ==> TileAt(tiles, if i <= k then i else i - 1, a, free);
      }
    }
  }

  lemma ClaimAddrs(tiles: seq<Tile>, begin: int, end: int, k: nat, free: bool)
    requires Tiling(tiles, begin, end) && k < |tiles|
    ensures forall a, f :: IsTile(tiles[k := tiles[k].(free := free)], a, f) <==>
              if a == tiles[k].addr then f == free else IsTile(tiles, a, f)
  {
    DistinctAddrs(tiles, begin, end);
    var r := tiles[k := tiles[k].(free := free)];
    forall a, f
      ensures IsTile(r, a, f) <==> if a == tiles[k].addr then f == free else IsTile(tiles, a, f)
    {
      assert a == tiles[k].addr && f == free ==> TileAt(r, k, a, f);
      if i: nat :| TileAt(tiles, i, a, f) {
        assert i != k ==> TileAt(r, i, a, f);
      }
      if i: nat :| TileAt(r, i, a, f) {
        assert i != k ==> TileAt(tiles, i, a, f);
      }
    }
  }

  lemma HeldHere(tiles: seq<Tile>, l: seq<int>, free: bool, k: nat)
    requires Holds(tiles, l, free) && k < |tiles| && tiles[k].free == free
    ensures tiles[k].addr in l
  {
    assert TileAt(tiles, k, tiles[k].addr, free);
  }

  /** The two lists share no header. */
  lemma ListsApart(tiles: seq<Tile>, fl: seq<int>, ml: seq<int>, begin: int, end: int)
    requires Tiling(tiles, begin, end) && Holds(tiles, fl, true) && Holds(tiles, ml, false)
    ensures forall a <- fl :: a !in ml
  {
    forall a <- fl
      ensures a !in ml
    {
      OneKind(tiles, begin, end, a);
    }
  }

  /** Headers, chunks and both lists agree. */
  ghost predicate Agree(h: Memory, tiles: seq<Tile>, fl: seq<int>, ml: seq<int>, begin: int, end: int) {
    && 0 < begin && Tiling(tiles, begin, end) && Match(h, tiles)
    && Holds(tiles, fl, true) && Chain(h, fl) && Holds(tiles, ml, false) && Chain(h, ml)
  }

  /** The header of the rest of chunk k. */
  function RestHeader(h: Memory, chunk: int, req: int): Memory
    requires chunk in h
  {
    h[chunk + HDR + req := Header(h[chunk].size - req - HDR, true, 0, 0)]
  }

  lemma RestHeaderApart(h: Memory, tiles: seq<Tile>, fl: seq<int>, ml: seq<int>, begin: int, end: int, k: nat, req: int)
    requires Agree(h, tiles, fl, ml, begin, end) && k < |tiles| && tiles[k].free && 0 <= req
             && tiles[k].size - req - HDR > 0
    ensures var chunk := tiles[k].addr;
            var rest := chunk + HDR + req;
            && MatchAt(h, tiles, k) && rest != chunk && rest > 0 && rest !in fl && rest !in ml
            && chunk in h && Chain(RestHeader(h, chunk, req), fl) && Chain(RestHeader(h, chunk, req), ml)
            && forall i: nat :: i < |tiles| ==> MatchAt(RestHeader(h, chunk, req), tiles, i)
  {
    assert MatchAt(h, tiles, k);
    var chunk := tiles[k].addr;
    var h1 := RestHeader(h, chunk, req);
    Before(tiles, begin, end, k);
    SplitAddrs(tiles, begin, end, k, req);
    OtherChain(h, h1, fl);
    OtherChain(h, h1, ml);
    forall i: nat | i < |tiles|
      ensures MatchAt(h1, tiles, i)
    {
      assert MatchAt(h, tiles, i);
    }
  }

  lemma SplitAgrees(h: Memory, tiles: seq<Tile>, fl: seq<int>, ml: seq<int>, begin: int, end: int, k: nat, req: int)
    requires Agree(h, tiles, fl, ml, begin, end) && k < |tiles| && tiles[k].free && 0 <= req
             && tiles[k].size - req - HDR > 0
    ensures var chunk := tiles[k].addr;
            var rest := chunk + HDR + req;
            && chunk in h && var h2 := Pushed(RestHeader(h, chunk, req), rest, Nth(fl, 0));
               && chunk in h2
                  && Agree(h2[chunk := h2[chunk].(size := req)], SplitTiles(tiles, k, req), [rest] + fl, ml, begin, end)
  {
    var chunk := tiles[k].addr;
    var rest := chunk + HDR + req;
    RestHeaderApart(h, tiles, fl, ml, begin, end, k, req);
    SplitAddrs(tiles, begin, end, k, req);
    SplitIsTiling(tiles, begin, end, k, req);
    ListsApart(tiles, fl, ml, begin, end);
    DistinctAddrs(tiles, begin, end);
    var h1 := RestHeader(h, chunk, req);
    var h2 := Pushed(h1, rest, Nth(fl, 0));
    var h3 := h2[chunk := h2[chunk].(size := req)];
    hide IsTile, Tiling;
    PushedChain(h1, fl, rest);
    forall a <- ml
      ensures a in h1 ==> a in h2 && h2[a] == h1[a]
    {
      if a in h1 {
        PushedOthers(h1, fl, rest, a);
      }
    }
    OtherChain(h1, h2, ml);
    OtherChain(h2, h3, [rest] + fl);
    OtherChain(h2, h3, ml);
    SplitMatches(h1, h2, h3, tiles, k, req);
  }

  lemma SplitMatches(h1: Memory, h2: Memory, h3: Memory, tiles: seq<Tile>, k: nat, req: int)
    requires k < |tiles| && tiles[k].free && SameSizes(h1, h2)
    requires forall i: nat :: i < |tiles| ==> MatchAt(h1, tiles, i) && (i != k ==> tiles[i].addr != tiles[k].addr)
    requires forall i: nat :: i < |tiles| ==> tiles[i].addr != tiles[k].addr + HDR + req
    requires var rest := tiles[k].addr + HDR + req;
             rest in h1 && h1[rest].size == tiles[k].size - req - HDR && h1[rest].free
    requires tiles[k].addr in h2 && h3 == h2[tiles[k].addr := h2[tiles[k].addr].(size := req)]
    ensures Match(h3, SplitTiles(tiles, k, req))
  {
    var r := SplitTiles(tiles, k, req);
    assert forall i: nat :: i < k ==> r[i] == tiles[i];
    assert forall i: nat :: k + 1 < i < |r| ==> r[i] == tiles[i - 1];
    forall i: nat | i < |r|
      ensures MatchAt(h3, r, i)
    {
      if i <= k {
        assert MatchAt(h1, tiles, i);
      } else if i > k + 1 {
        assert MatchAt(h1, tiles, i - 1);
      }
    }
  }

  lemma MarkMatches(h: Memory, h2: Memory, tiles: seq<Tile>, begin: int, end: int, k: nat, free: bool)
    requires Tiling(tiles, begin, end) && Match(h, tiles) && SameSizes(h, h2) && k < |tiles|
    ensures tiles[k].addr in h2
            && Match(h2[tiles[k].addr := h2[tiles[k].addr].(free := free)], tiles[k := tiles[k].(free := free)])
  {
    DistinctAddrs(tiles, begin, end);
    assert MatchAt(h, tiles, k);
    var h3 := h2[tiles[k].addr := h2[tiles[k].addr].(free := free)];
    var r := tiles[k := tiles[k].(free := free)];
    forall i: nat | i < |r|
      ensures MatchAt(h3, r, i)
    {
      assert MatchAt(h, tiles, i);
    }
  }

  lemma MarkIsTiling(tiles: seq<Tile>, begin: int, end: int, k: nat, free: bool)
    requires Tiling(tiles, begin, end) && k < |tiles|
    ensures Tiling(tiles[k := tiles[k].(free := free)], begin, end)
  {
  }

  lemma IndexOf(l: seq<int>, a: int) returns (i: nat)
    requires a in l
    ensures i < |l| && l[i] == a
  {
    i :| i < |l| && l[i] == a;
  }

  /** Mem_Alloc's second half: chunk k leaves the free list and heads the allocated one. */
  lemma ClaimAgrees(h: Memory, tiles: seq<Tile>, fl: seq<int>, ml: seq<int>, begin: int, end: int, k: nat, i: nat)
    requires Agree(h, tiles, fl, ml, begin, end) && k < |tiles| && tiles[k].free && i < |fl| && fl[i] == tiles[k].addr
    ensures fl[i] in h && fl[i] in Unlinked(h, fl[i])
    ensures var x := fl[i];
            var h2 := Pushed(Unlinked(h, x), x, Nth(ml, 0));
            && x in h2
            && Agree(h2[x := h2[x].(free := false)], tiles[k := tiles[k].(free := false)], Without(fl, i), [x] + ml,
                begin, end)
  {
    var x := fl[i];
    ListsApart(tiles, fl, ml, begin, end);
    ClaimAddrs(tiles, begin, end, k, false);
    MarkIsTiling(tiles, begin, end, k, false);
    HeldHere(tiles, fl, true, k);
    hide IsTile, Tiling;
    UnlinkedChain(h, fl, i);
    var h1 := Unlinked(h, x);
    forall a <- ml
      ensures a in h ==> a in h1 && h1[a] == h[a]
    {
      if a in h {
        UnlinkedOthers(h, fl, i, a);
      }
    }
    OtherChain(h, h1, ml);
    PushedChain(h1, ml, x);
    var h2 := Pushed(h1, x, Nth(ml, 0));
    forall a <- Without(fl, i)
      ensures a in h1 ==> a in h2 && h2[a] == h1[a]
    {
      if a in h1 {
        PushedOthers(h1, ml, x, a);
      }
    }
    OtherChain(h1, h2, Without(fl, i));
    var h3 := h2[x := h2[x].(free := false)];
    OtherChain(h2, h3, Without(fl, i));
    OtherChain(h2, h3, [x] + ml);
    MarkMatches(h, h2, tiles, begin, end, k, false);
  }

  /** Mem_Free's first half: chunk k leaves the allocated list and is marked free. */
  lemma ReleaseAgrees(h: Memory, tiles: seq<Tile>, ml: seq<int>, begin: int, end: int, k: nat, i: nat)
    requires Tiling(tiles, begin, end) && Match(h, tiles) && Holds(tiles, ml, false) && Chain(h, ml)
    requires k < |tiles| && !tiles[k].free && i < |ml| && ml[i] == tiles[k].addr
    ensures ml[i] in h && ml[i] in Unlinked(h, ml[i])
    ensures var x := ml[i];
            var h2 := Unlinked(h, x)[x := Unlinked(h, x)[x].(free := true)];
            var r := tiles[k := tiles[k].(free := true)];
            Tiling(r, begin, end) && Match(h2, r) && Holds(r, Without(ml, i), false) && Chain(h2, Without(ml, i))
  {
    var x := ml[i];
    ClaimAddrs(tiles, begin, end, k, true);
    MarkIsTiling(tiles, begin, end, k, true);
    hide IsTile, Tiling;
    UnlinkedChain(h, ml, i);
    var h1 := Unlinked(h, x);
    OtherChain(h1, h1[x := h1[x].(free := true)], Without(ml, i));
    MarkMatches(h, h1, tiles, begin, end, k, true);
  }

  lemma OneChunk(h: Memory, a: int, total: int)
    requires a > 0 && a % PAGE == 0 && total % PAGE == 0 && total >= PAGE && a in h
             && h[a] == Header(total - HDR, true, 0, 0)
    ensures var tiles := [Tile(a, total - HDR, true)];
            && Tiling(tiles, a, a + total) && Aligned(tiles) && NoAdjacentFree(tiles) && Match(h, tiles)
            && Holds(tiles, [a], true) && Chain(h, [a]) && Holds(tiles, [], false) && Chain(h, [])
  {
    var tiles := [Tile(a, total - HDR, true)];
    assert TileAt(tiles, 0, a, true) && LinkAt(h, [a], 0) && MatchAt(h, tiles, 0);
    MultipleOfPage(a);
    MultipleOfPage(total);
  }

  lemma MultipleOfPage(n: int)
    requires n % PAGE == 0
    ensures n % 8 == 0
  {
  }

  class Region {
    var hdr: Memory
    var freeList: int
    var memList: int
    var begin: int
    var totalSize: int
    var initialized: bool
    ghost var tiles: seq<Tile>
    ghost var fl: seq<int>
    ghost var ml: seq<int>

    ghost predicate Shape()
      reads this
    {
      && Agree(hdr, tiles, fl, ml, begin, begin + totalSize)
      && freeList == Nth(fl, 0) && memList == Nth(ml, 0)
    }

    ghost predicate Valid()
      reads this
    {
      if initialized then Shape() && Aligned(tiles) && NoAdjacentFree(tiles) && totalSize <= INT_MAX
      else hdr == map[] && memList == 0 && fl == [] && ml == [] && tiles == []
    }

    constructor ()
      ensures Valid() && !initialized
    {
      hdr := map[];
      freeList, memList, begin, totalSize, initialized := 0, 0, 0, 0, false;
      tiles, fl, ml := [], [], [];
    }

    /**
     Mem_Init with mmap's answer, 0 for MAP_FAILED; the size is rounded up to whole pages. A size in the
     last page below INT_MAX is rounded to a negative one, and the region is no region then.
     */
    method MemInit(sizeOfRegion: int, mapped: int) returns (r: int)
      requires Valid() && mapped >= 0 && mapped % PAGE == 0 && -INT_MAX - 1 <= sizeOfRegion <= INT_MAX
      modifies this
      ensures r == if old(initialized) || sizeOfRegion <= 0 || mapped == 0 then -1 else 0
      ensures r == -1 ==>
                Valid() && initialized == old(initialized) && tiles == old(tiles) && fl == old(fl) && ml == old(ml)
      ensures r == 0 ==> initialized && begin == mapped && (totalSize < 0 <==> sizeOfRegion > INT_MAX + 1 - PAGE)
      ensures r == 0 && totalSize >= 0 ==>
                Valid() && tiles == [Tile(mapped, totalSize - HDR, true)] && fl == [mapped] && ml == []
      ensures r == 0 && totalSize >= 0 ==> totalSize % PAGE == 0 && sizeOfRegion <= totalSize < sizeOfRegion + PAGE
    {
      if initialized || sizeOfRegion <= 0 {
        return -1;
      }
      if mapped == 0 {
        freeList := -1;
        return -1;
      }
      hide Tiling, Aligned, NoAdjacentFree, Match, Holds, Chain;
      var requestSize := sizeOfRegion;
      if sizeOfRegion % PAGE != 0 {
        requestSize := Wrap(requestSize + (PAGE - sizeOfRegion % PAGE));
      }
      freeList := mapped;
      hdr := hdr[freeList := Header(Wrap(requestSize - HDR), true, 0, 0)];
      initialized := true;
      totalSize := requestSize;
      begin := freeList;
      tiles, fl, ml := [Tile(mapped, requestSize - HDR, true)], [mapped], [];
      if requestSize >= 0 {
        OneChunk(hdr, mapped, requestSize);
      }
      return 0;
    }

    // ---- The three policies ----------------------------------------------------------------------------

    ghost predicate FitsAt(i: nat, size: int)
      reads this
    {
      i < |fl| && fl[i] in hdr && hdr[fl[i]].size >= size
    }

    ghost predicate NoneFits(size: int)
      reads this
    {
      forall j: nat :: !FitsAt(j, size)
    }

    ghost predicate ListOk()
      reads this
    {
      Chain(hdr, fl) && freeList == Nth(fl, 0) && 0 !in fl && Distinct(fl)
    }

    /** The first fitting chunk of the free list. */
    method Firstfit(size: int) returns (r: Fit, ghost i: nat)
      requires ListOk()
      ensures r != Fit.Fault
      ensures r == NoFit ==> NoneFits(size)
      ensures r.Found? ==> FitsAt(i, size) && r.a == fl[i] && forall j: nat :: j < i ==> !FitsAt(j, size)
    {
      var freeTmp := freeList;
      i := 0;
      while freeTmp != 0
        invariant i <= |fl| && freeTmp == Nth(fl, i)
        invariant forall j: nat :: j < i ==> !FitsAt(j, size)
        decreases |fl| - i
      {
        assert LinkAt(hdr, fl, i);
        if hdr[freeTmp].size >= size {
          return Found(freeTmp), i;
        }
        freeTmp := hdr[freeTmp].next;
        i := i + 1;
      }
      NullIsEnd(i);
      return NoFit, i;
    }

    lemma NullIsEnd(i: nat)
      requires ListOk() && i <= |fl| && Nth(fl, i) == 0
      ensures i == |fl|
    {
      assert forall k: nat :: k < |fl| ==> fl[k] in fl;
    }

    /** A smallest fitting chunk; on an empty list the code reads through NULL. */
    method Bestfit(size: int) returns (r: Fit, ghost b: nat)
      requires ListOk()
      ensures r == Fit.Fault <==> fl == []
      ensures r == NoFit ==> NoneFits(size)
      ensures r.Found? ==>
                FitsAt(b, size) && r.a == fl[b] && forall j: nat :: FitsAt(j, size) ==>
                  hdr[fl[j]].size >= hdr[fl[b]].size
    {
      var freeTmp := freeList;
      var bestTmp := freeList;
      var first := true;
      ghost var i: nat := 0;
      b := 0;
      while freeTmp != 0
        invariant i <= |fl| && freeTmp == Nth(fl, i)
        invariant bestTmp == Nth(fl, b) && (fl != [] ==> b < |fl|)
        invariant first ==> b == 0 && forall j: nat :: j < i ==> !FitsAt(j, size)
        invariant !first ==> b < i && FitsAt(b, size)
        invariant !first ==> forall j: nat :: j < i && FitsAt(j, size) ==> hdr[fl[j]].size >= hdr[fl[b]].size
        decreases |fl| - i
      {
        assert LinkAt(hdr, fl, i) && LinkAt(hdr, fl, b);
        if first && hdr[freeTmp].size >= size {
          bestTmp, b := freeTmp, i;
          first := false;
        }
        if hdr[freeTmp].size >= size && hdr[freeTmp].size < hdr[bestTmp].size {
          bestTmp, b := freeTmp, i;
        }
        freeTmp := hdr[freeTmp].next;
        i := i + 1;
      }
      NullIsEnd(i);
      if bestTmp == freeList {
        if bestTmp == 0 {
          NullIsEnd(0);
          return Fit.Fault, b;
        }
        assert LinkAt(hdr, fl, b) && LinkAt(hdr, fl, 0);
        if hdr[bestTmp].size < size {
          return NoFit, b;
        }
      }
      return Found(bestTmp), b;
    }

    /** A largest fitting chunk; on an empty list the code reads through NULL. */
    method Worstfit(size: int) returns (r: Fit, ghost b: nat)
      requires ListOk()
      ensures r == Fit.Fault <==> fl == []
      ensures r == NoFit ==> NoneFits(size)
      ensures r.Found? ==>
                FitsAt(b, size) && r.a == fl[b] && forall j: nat :: FitsAt(j, size) ==>
                  hdr[fl[j]].size <= hdr[fl[b]].size
    {
      var worstTmp := freeList;
      var freeTmp := freeList;
      var first := true;
      ghost var i: nat := 0;
      b := 0;
      while freeTmp != 0
        invariant i <= |fl| && freeTmp == Nth(fl, i)
        invariant worstTmp == Nth(fl, b) && (fl != [] ==> b < |fl|)
        invariant first ==> b == 0 && forall j: nat :: j < i ==> !FitsAt(j, size)
        invariant !first ==> b < i && FitsAt(b, size)
        invariant !first ==> forall j: nat :: j < i && FitsAt(j, size) ==> hdr[fl[j]].size <= hdr[fl[b]].size
        decreases |fl| - i
      {
        assert LinkAt(hdr, fl, i) && LinkAt(hdr, fl, b);
        if first && hdr[freeTmp].size >= size {
          worstTmp, b := freeTmp, i;
          first := false;
        }
        if hdr[freeTmp].size >= size && hdr[freeTmp].size > hdr[worstTmp].size {
          worstTmp, b := freeTmp, i;
        }
        freeTmp := hdr[freeTmp].next;
        i := i + 1;
      }
      NullIsEnd(i);
      if worstTmp == freeList {
        if worstTmp == 0 {
          NullIsEnd(0);
          return Fit.Fault, b;
        }
        assert LinkAt(hdr, fl, b) && LinkAt(hdr, fl, 0);
        if hdr[worstTmp].size < size {
          return NoFit, b;
        }
      }
      return Found(worstTmp), b;
    }

    // ---- Mem_Alloc ---------------------------------------------------------------------------------------

    /** x becomes the first header of the list that starts at first. */
    method LinkFirst(x: int, first: int)
      requires x in hdr
      modifies this`hdr
      ensures hdr == Pushed(old(hdr), x, first)
    {
      hdr := SetNext(hdr, x, first);
      if first != 0 {
        hdr := SetPrev(hdr, first, x);
      }
      hdr := SetPrev(hdr, x, 0);
    }

    /** x's neighbours are joined. */
    method UnlinkNode(x: int)
      requires x in hdr
      modifies this`hdr
      ensures hdr == Unlinked(old(hdr), x)
    {
      var n, p := hdr[x].next, hdr[x].prev;
      if n != 0 {
        hdr := SetPrev(hdr, n, p);
      }
      if p != 0 {
        hdr := SetNext(hdr, p, n);
      }
    }

    /** The chunk is cut: what follows the request is a new chunk at the head of the free list. */
    method SplitChunk(chunk: int, req: int, ghost k: nat)
      requires Shape() && TileAt(tiles, k, chunk, true) && 0 <= req && tiles[k].size - req - HDR > 0
      modifies this`hdr, this`freeList, this`tiles, this`fl
      ensures Shape() && tiles == SplitTiles(old(tiles), k, req) && fl == [chunk + HDR + req] + old(fl)
    {
      hide Agree, Tiling, Match, Holds, Chain, Pushed;
      SplitAgrees(hdr, tiles, fl, ml, begin, begin + totalSize, k, req);
      var newFree := chunk + req + HDR;
      hdr := RestHeader(hdr, chunk, req);
      LinkFirst(newFree, freeList);
      freeList := newFree;
      hdr := hdr[chunk := hdr[chunk].(size := req)];
      tiles, fl := SplitTiles(tiles, k, req), [newFree] + fl;
    }

    /** The chunk moves from the free list to the head of the allocated list. */
    method Claim(chunk: int, ghost k: nat, ghost i: nat)
      requires Shape() && TileAt(tiles, k, chunk, true) && i < |fl| && fl[i] == chunk
      modifies this`hdr, this`freeList, this`memList, this`tiles, this`fl, this`ml
      ensures Shape() && tiles == old(tiles)[k := old(tiles)[k].(free := false)] && ml == [chunk] + old(ml)
      ensures fl == Without(old(fl), i)
    {
      ClaimAgrees(hdr, tiles, fl, ml, begin, begin + totalSize, k, i);
      UnlinkedChain(hdr, fl, i);
      NeighbourLinks(hdr, fl, i);
      HeadIsFirst(fl, i);
      hide Agree, Tiling, Match, Holds, Chain, Pushed, Unlinked, Distinct, IsTile;
      UnlinkNode(chunk);
      UnlinkedKeepsOwnLinks(old(hdr), fl, i);
      if chunk == freeList {
        freeList := hdr[chunk].next;
      }
      LinkFirst(chunk, memList);
      memList := chunk;
      hdr := hdr[chunk := hdr[chunk].(free := false)];
      tiles, ml := tiles[k := tiles[k].(free := false)], [chunk] + ml;
      fl := Without(fl, i);
    }

    /** The header at the list's position i, and the chunk it heads. */
    lemma ChunkAt(i: nat) returns (k: nat)
      requires Shape() && i < |fl|
      ensures fl[i] in hdr && TileAt(tiles, k, fl[i], true) && hdr[fl[i]].size == tiles[k].size
    {
      assert fl[i] in fl;
      k :| TileAt(tiles, k, fl[i], true);
      assert MatchAt(hdr, tiles, k);
    }

    lemma FitsMeans(size: int)
      requires Shape()
      ensures NoneFits(size) <==> !SomeFits(tiles, size)
    {
      forall j: nat | FitsAt(j, size)
        ensures SomeFits(tiles, size)
      {
        var k := ChunkAt(j);
        assert FreeFit(tiles, k, size);
      }
      if k: nat :| FreeFit(tiles, k, size) {
        HeldHere(tiles, fl, true, k);
        var j := IndexOf(fl, tiles[k].addr);
        assert MatchAt(hdr, tiles, k);
        assert FitsAt(j, size);
      }
    }

    /** What the fit functions say of the list, said of the chunks. */
    lemma ChoiceMeans(i: nat, size: int, policy: Policy) returns (k: nat)
      requires Shape() && FitsAt(i, size)
      requires policy == FirstFit ==> forall j: nat :: j < i ==> !FitsAt(j, size)
      requires policy == BestFit ==> forall j: nat :: FitsAt(j, size) ==> hdr[fl[j]].size >= hdr[fl[i]].size
      requires policy == WorstFit ==> forall j: nat :: FitsAt(j, size) ==> hdr[fl[j]].size <= hdr[fl[i]].size
      ensures TileAt(tiles, k, fl[i], true) && hdr[fl[i]].size == tiles[k].size && Chosen(tiles, fl, k, i, size, policy)
    {
      k := ChunkAt(i);
      assert FreeFit(tiles, k, size);
      forall c: nat | FreeFit(tiles, c, size)
        ensures exists j: nat :: FitsAt(j, size) && fl[j] == tiles[c].addr && hdr[fl[j]].size == tiles[c].size
      {
        HeldHere(tiles, fl, true, c);
        var j := IndexOf(fl, tiles[c].addr);
        assert MatchAt(hdr, tiles, c);
        assert FitsAt(j, size);
      }
    }

    /** The switch of Mem_Alloc. */
    method Choose(size: int, policy: Policy) returns (f: Fit, ghost k: nat, ghost i: nat)
      requires Shape()
      ensures f == Fit.Fault <==> fl == [] && policy != FirstFit
      ensures f == NoFit <==> f != Fit.Fault && !SomeFits(tiles, size)
      ensures f.Found? ==> TileAt(tiles, k, f.a, true) && f.a in hdr && hdr[f.a].size == tiles[k].size
      ensures f.Found? ==> Chosen(tiles, fl, k, i, size, policy)
    {
      FitsMeans(size);
      hide Agree, Chosen, SomeFits, NoneFits;
      k := 0;
      match policy {
        case BestFit => f, i := Bestfit(size);
        case WorstFit => f, i := Worstfit(size);
        case FirstFit => f, i := Firstfit(size);
      }
      if f.Found? {
        k := ChoiceMeans(i, size, policy);
        ChosenFits(tiles, fl, k, i, size, policy);
      }
    }

    /**
     Mem_Alloc: a free chunk chosen by the policy is taken, cut to the rounded request when more than a
     header would remain. Fault and Overrun are the two ways in which the code leaves its region.
     */
    method MemAlloc(size: int, policy: Policy) returns (r: Outcome, ghost k: nat, ghost i: nat)
      requires Valid() && initialized && -INT_MAX - 1 <= size <= INT_MAX
      modifies this
      ensures r == Outcome.Fault <==> old(fl) == [] && policy != FirstFit
      ensures r == NoSpace <==> r != Outcome.Fault && !SomeFits(old(tiles), Rounded(size))
      ensures r == Overrun || r.Payload? ==>
                k < |old(tiles)| && Chosen(old(tiles), old(fl), k, i, Rounded(size), policy)
      ensures r == Overrun <==>
                !r.Fault? && !r.NoSpace? && Rounded(size) < 0 && 0 < old(tiles)[k].size - Rounded(size) - HDR <= INT_MAX
      ensures Valid() && initialized && begin == old(begin) && totalSize == old(totalSize)
      ensures !r.Payload? ==> tiles == old(tiles) && fl == old(fl) && ml == old(ml)
      ensures r.Payload? ==> r.ptr == old(tiles)[k].addr + HDR && r.ptr % 8 == 0
      ensures r.Payload? ==> tiles == Carved(old(tiles), k, Rounded(size)) && ml == [r.ptr - HDR] + old(ml)
      ensures r.Payload? ==> fl == FreeListAfter(old(fl), i, old(tiles)[k].size, Rounded(size))
    {
      hide Agree, Aligned, NoAdjacentFree, Chosen, SomeFits;
      RoundedMeans(size);
      var requestSize := Rounded(size);
      var f;
      f, k, i := Choose(requestSize, policy);
      if f == NoFit {
        return NoSpace, k, i;
      }
      if f == Fit.Fault {
        return Outcome.Fault, k, i;
      }
      ChosenFits(tiles, fl, k, i, requestSize, policy);
      SizeFits(k);
      SplitsMeans(tiles[k].size, requestSize);
      r := Cut(f.a, requestSize, k, i, policy);
    }

    lemma SizeFits(k: nat)
      requires Valid() && initialized && k < |tiles|
      ensures 0 <= tiles[k].size <= INT_MAX
    {
      Ordered(tiles, begin, begin + totalSize, k, k);
    }

    /** The rest of Mem_Alloc, with the chunk chosen. */
    method Cut(chunk: int, req: int, ghost k: nat, ghost i: nat, ghost policy: Policy) returns (r: Outcome)
      requires Valid() && initialized && TileAt(tiles, k, chunk, true) && chunk in hdr
               && hdr[chunk].size == tiles[k].size
      requires req % 8 == 0 && -INT_MAX - 1 <= req <= tiles[k].size && i < |fl| && fl[i] == chunk
      modifies this
      ensures Valid() && initialized && begin == old(begin) && totalSize == old(totalSize)
      ensures r == if req < 0 && Splits(old(tiles)[k].size, req) then Overrun else Payload(chunk + HDR)
      ensures r == Overrun ==> tiles == old(tiles) && fl == old(fl) && ml == old(ml)
      ensures r.Payload? ==> r.ptr % 8 == 0 && tiles == Carved(old(tiles), k, req) && ml == [chunk] + old(ml)
      ensures r.Payload? ==> fl == FreeListAfter(old(fl), i, old(tiles)[k].size, req)
    {
      SizeFits(k);
      SplitsMeans(tiles[k].size, req);
      if req >= 0 || !Splits(tiles[k].size, req) {
        CarvedIsTiling(tiles, begin, begin + totalSize, k, req);
      }
      hide Agree, Aligned, NoAdjacentFree, Tiling;
      ghost var was := tiles;
      if Wrap(Wrap(hdr[chunk].size - req) - HDR) > 0 {
        if req < 0 {
          return Overrun;
        }
        SplitChunk(chunk, req, k);
        RestFirst(old(fl), i, chunk + HDR + req);
        Claim(chunk, k, i + 1);
      } else {
        Claim(chunk, k, i);
      }
      return Payload(chunk + HDR);
    }

    // ---- Mem_Free ----------------------------------------------------------------------------------------

    /** coalesce: one walk over the region, from header to header. */
    method Coalesce()
      requires 0 < begin && Tiling(tiles, begin, begin + totalSize) && Match(hdr, tiles) && Holds(tiles, ml, false)
               && Chain(hdr, ml)
      requires memList == Nth(ml, 0) && exists a :: IsTile(tiles, a, true)
      modifies this`hdr, this`freeList, this`tiles, this`fl
      ensures Shape() && tiles == Merged(old(tiles)) && fl == FreeAddrs(tiles)
    {
      hide Tiling, Match, Holds, Chain, IsTile, Merged, FreeAddrs;
      ghost var end := begin + totalSize;
      WalkingStarts(hdr, tiles, ml, begin, end, freeList);
      WalkAt(tiles, begin, end, 0);
      var curr, prev, currSize, immediate := begin, 0, 0, false;
      ghost var k := 0;
      while currSize < totalSize
        invariant tiles == old(tiles) && k <= |tiles| && currSize == curr - begin
                  && (k < |tiles| <==> currSize < totalSize)
        invariant k < |tiles| ==> curr == tiles[k].addr
        invariant Walking(hdr, tiles, ml, begin, end, k, freeList, prev)
        invariant immediate <==> k > 0 && tiles[k - 1].free
        decreases |tiles| - k
      {
        Current(hdr, tiles, ml, begin, end, k, freeList, prev);
        ghost var h, size := hdr, tiles[k].size;
        if hdr[curr].free {
          if prev == 0 {
            TurnFirstFree(hdr, tiles, ml, begin, end, k, freeList);
            freeList := curr;
            hdr := SetPrev(hdr, curr, 0);
            hdr := SetNext(hdr, curr, 0);
            prev := curr;
          } else if !immediate {
            TurnNextRun(hdr, tiles, ml, begin, end, k, freeList, prev);
            hdr := SetNext(hdr, prev, curr);
            hdr := SetPrev(hdr, curr, prev);
            prev := curr;
          } else {
            TurnSwallow(hdr, tiles, ml, begin, end, k, freeList, prev);
            hdr := hdr[prev := hdr[prev].(size := hdr[prev].size + hdr[curr].size + HDR)];
            hdr := hdr[curr := hdr[curr].(free := true)];
          }
          immediate := true;
        } else {
          TurnAllocated(hdr, tiles, ml, begin, end, k, freeList, prev);
          immediate := false;
        }
        currSize := currSize + hdr[curr].size + HDR;
        curr := curr + HDR + hdr[curr].size;
        k := k + 1;
        WalkAt(tiles, begin, end, k);
      }
      WalkEnds(hdr, tiles, ml, begin, end, freeList, prev);
      if prev != 0 {
        hdr := SetNext(hdr, prev, 0);
      }
      tiles := Merged(tiles);
      fl := FreeAddrs(tiles);
    }

    /** Mem_Free: the chunk of a payload in use is freed and merged; any other pointer is refused. */
    method MemFree(ptr: int) returns (r: int, ghost k: nat)
      requires Valid() && initialized
      modifies this
      ensures Valid() && initialized && begin == old(begin) && totalSize == old(totalSize)
      ensures r == if ptr != 0 && IsTile(old(tiles), ptr - HDR, false) then 0 else -1
      ensures r == -1 ==> tiles == old(tiles) && fl == old(fl) && ml == old(ml)
      ensures r == 0 ==>
                TileAt(old(tiles), k, ptr - HDR, false)
                && tiles == Merged(old(tiles)[k := old(tiles)[k].(free := true)])
      ensures r == 0 ==> fl == FreeAddrs(tiles)
    {
      hide Tiling, Match, Chain, Aligned, NoAdjacentFree, IsTile, Merged, FreeAddrs, Distinct;
      r, k := -1, 0;
      if ptr == 0 {
        return;
      }
      var memTmp;
      ghost var i;
      memTmp, i := FindPayload(ptr);
      if memTmp == 0 {
        return;
      }
      k := PayloadChunk(i);
      FreedThenMerged(hdr, tiles, ml, begin, begin + totalSize, k, i);
      NeighbourLinks(hdr, ml, i);
      HeadIsFirst(ml, i);
      UnlinkedKeepsOwnLinks(hdr, ml, i);
      UnlinkNode(memTmp);
      if memList == memTmp {
        memList := hdr[memTmp].next;
      }
      hdr := hdr[memTmp := hdr[memTmp].(free := true)];
      tiles, ml := tiles[k := tiles[k].(free := true)], Without(ml, i);
      Coalesce();
      r := 0;
    }

    /** Mem_Free's search of the allocated list. */
    method FindPayload(ptr: int) returns (memTmp: int, ghost i: nat)
      requires Shape()
      ensures memTmp == 0 <==> !IsTile(tiles, ptr - HDR, false)
      ensures memTmp != 0 ==> i < |ml| && memTmp == ml[i] == ptr - HDR
    {
      hide Tiling, Match, IsTile;
      memTmp := memList;
      i := 0;
      while memTmp != 0 && memTmp + HDR != ptr
        invariant i <= |ml| && memTmp == Nth(ml, i)
        invariant forall j: nat :: j < i ==> ml[j] != ptr - HDR
        decreases |ml| - i
      {
        assert LinkAt(hdr, ml, i);
        memTmp := hdr[memTmp].next;
        i := i + 1;
      }
      assert forall j: nat :: j < |ml| ==> ml[j] in ml;
    }

    lemma PayloadChunk(i: nat) returns (k: nat)
      requires Shape() && i < |ml|
      ensures TileAt(tiles, k, ml[i], false)
    {
      assert ml[i] in ml;
      k :| TileAt(tiles, k, ml[i], false);
    }
  }

  // ---- The ways out of the region --------------------------------------------------------------------------

  /** After one allocation of everything, best fit and worst fit read through a null list head. */
  method NullHeadIsRead(mapped: int, policy: Policy) returns (m: Region, r: Outcome)
    requires mapped > 0 && mapped % PAGE == 0 && policy != FirstFit
    ensures r == Outcome.Fault && fresh(m) && m.Valid()
  {
    m := new Region();
    var ok := m.MemInit(PAGE, mapped);
    ghost var k, i;
    r, k, i := m.MemAlloc(PAGE - HDR, FirstFit);
    assert FreeFit([Tile(mapped, PAGE - HDR, true)], 0, PAGE - HDR);
    assert m.fl == [];
    r, k, i := m.MemAlloc(8, policy);
  }

  /** A request for -16 bytes cuts a chunk inside its own header; one for -2^31 takes the whole chunk. */
  method NegativeRequests(mapped: int) returns (m: Region, r: Outcome, r2: Outcome)
    requires mapped > 0 && mapped % PAGE == 0
    ensures r == Overrun && r2 == Payload(mapped + HDR) && fresh(m) && m.Valid()
  {
    m := new Region();
    var ok := m.MemInit(PAGE, mapped);
    ghost var k, i;
    assert FreeFit(m.tiles, 0, -16) && FreeFit(m.tiles, 0, -INT_MAX - 1);
    r, k, i := m.MemAlloc(-16, FirstFit);
    r2, k, i := m.MemAlloc(-INT_MAX - 1, FirstFit);
  }

  predicate FreeFit(tiles: seq<Tile>, k: nat, size: int) {
    k < |tiles| && tiles[k].free && tiles[k].size >= size
  }

  ghost predicate SomeFits(tiles: seq<Tile>, size: int) {
    exists k: nat :: FreeFit(tiles, k, size)
  }

  /**
   The policies: the smallest fitting chunk, the largest one, or the first one in the order of the free
   list, at whose position i chunk k is.
   */
  ghost predicate Chosen(tiles: seq<Tile>, fl: seq<int>, k: nat, i: nat, size: int, policy: Policy) {
    && FreeFit(tiles, k, size) && i < |fl| && fl[i] == tiles[k].addr
    && match policy
       case BestFit => forall c: nat :: FreeFit(tiles, c, size) ==> tiles[k].size <= tiles[c].size
       case WorstFit => forall c: nat :: FreeFit(tiles, c, size) ==> tiles[c].size <= tiles[k].size
       case FirstFit => forall c: nat :: FreeFit(tiles, c, size) ==> tiles[c].addr !in fl[..i]
  }

  lemma ChosenFits(tiles: seq<Tile>, fl: seq<int>, k: nat, i: nat, size: int, policy: Policy)
    requires Chosen(tiles, fl, k, i, size, policy)
    ensures FreeFit(tiles, k, size) && SomeFits(tiles, size) && i < |fl| && fl[i] == tiles[k].addr
  {
  }

  /** The free list after an allocation: the chunk at position i is gone, the rest of it heads the list. */
  function FreeListAfter(fl: seq<int>, i: nat, size: int, req: int): seq<int>
    requires i < |fl|
  {
    (if Splits(size, req) then [fl[i] + HDR + req] else []) + Without(fl, i)
  }

  lemma RestFirst(fl: seq<int>, i: nat, rest: int)
    requires i < |fl|
    ensures Without([rest] + fl, i + 1) == [rest] + Without(fl, i)
  {
  }

  lemma HeadIsFirst(l: seq<int>, i: nat)
    requires Distinct(l) && 0 !in l && i < |l|
    ensures l[i] == Nth(l, 0) <==> i == 0
    ensures i > 0 ==> Nth(Without(l, i), 0) == Nth(l, 0)
    ensures i == 0 ==> Nth(Without(l, i), 0) == Nth(l, 1)
  {
  }

  lemma UnlinkedKeepsOwnLinks(h: Memory, l: seq<int>, i: nat)
    requires Chain(h, l) && Distinct(l) && 0 !in l && i < |l|
    ensures l[i] in h && l[i] in Unlinked(h, l[i]) && Unlinked(h, l[i])[l[i]] == h[l[i]]
  {
    NeighbourLinks(h, l, i);
  }

  /** Where the walk stands after k chunks. */
  lemma WalkAt(tiles: seq<Tile>, begin: int, end: int, k: nat)
    requires Tiling(tiles, begin, end) && k <= |tiles|
    ensures k < |tiles| ==> begin <= tiles[k].addr < end && (k == 0 ==> tiles[k].addr == begin)
    ensures k > 0 ==> End(tiles[k - 1]) == if k < |tiles| then tiles[k].addr else end
    ensures |tiles| > 0
  {
    if k < |tiles| {
      Ordered(tiles, begin, end, k, k);
    }
  }

  /** Freeing a chunk of a valid region and merging keeps it valid. */
  lemma FreedThenMerged(h: Memory, tiles: seq<Tile>, ml: seq<int>, begin: int, end: int, k: nat, i: nat)
    requires Tiling(tiles, begin, end) && Aligned(tiles) && Match(h, tiles) && Holds(tiles, ml, false) && Chain(h, ml)
    requires k < |tiles| && !tiles[k].free && i < |ml| && ml[i] == tiles[k].addr
    ensures ml[i] in h && ml[i] in Unlinked(h, ml[i])
    ensures var x := ml[i];
            var h2 := Unlinked(h, x)[x := Unlinked(h, x)[x].(free := true)];
            var r := tiles[k := tiles[k].(free := true)];
            && Tiling(r, begin, end) && Match(h2, r) && Holds(r, Without(ml, i), false) && Chain(h2, Without(ml, i))
            && IsTile(r, x, true) && Aligned(Merged(r)) && NoAdjacentFree(Merged(r))
  {
    var r := tiles[k := tiles[k].(free := true)];
    ReleaseAgrees(h, tiles, ml, begin, end, k, i);
    assert TileAt(r, k, ml[i], true);
    MergedTiles(r, begin, end);
    MergedAligned(r);
  }
}
