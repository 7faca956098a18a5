/**
 coalesce's walk over memory: what holds between two turns.
 */
module MemCoalesce {
  import opened Counting
  import opened MemTiles
  import opened MemLists

  predicate MatchAt(h: Memory, tiles: seq<Tile>, i: nat) {
    i < |tiles| && tiles[i].addr in h && h[tiles[i].addr].size == tiles[i].size
    && h[tiles[i].addr].free == tiles[i].free
  }

  ghost predicate Match(h: Memory, tiles: seq<Tile>) {
    forall i: nat :: i < |tiles| ==> MatchAt(h, tiles, i)
  }

  /** l holds exactly the headers of the free, or of the allocated, chunks. */
  ghost predicate Holds(tiles: seq<Tile>, l: seq<int>, free: bool) {
    Distinct(l) && 0 !in l && forall a :: a in l <==> IsTile(tiles, a, free)
  }

  /** The free chunks in address order. */
  function FreeAddrs(tiles: seq<Tile>): seq<int> {
    if tiles == [] then []
    else FreeAddrs(tiles[..|tiles| - 1]) + (if tiles[|tiles| - 1].free then [tiles[|tiles| - 1].addr] else [])
  }

  predicate OpenAt(h: Memory, l: seq<int>, i: nat) {
    i < |l| && l[i] != 0 && l[i] in h && h[l[i]].prev == Nth(l, i - 1) && (i + 1 < |l| ==> h[l[i]].next == l[i + 1])
  }

  /** A list linked but for its last next field. */
  ghost predicate OpenChain(h: Memory, l: seq<int>) {
    forall i: nat :: i < |l| ==> OpenAt(h, l, i)
  }

  lemma FreeAddrsSnoc(out: seq<Tile>, t: Tile)
    ensures FreeAddrs(out + [t]) == FreeAddrs(out) + (if t.free then [t.addr] else [])
  {
    assert (out + [t])[..|out|] == out;
  }

  lemma FreeAddrsGrown(out: seq<Tile>, size: int)
    requires |out| > 0
    ensures FreeAddrs(out[|out| - 1 := out[|out| - 1].(size := size)]) == FreeAddrs(out)
  {
    var g := out[|out| - 1 := out[|out| - 1].(size := size)];
    assert g[..|out| - 1] == out[..|out| - 1];
  }

  /** One chunk more at the end of the tiling. */
  lemma TilesSnoc(init: seq<Tile>, t: Tile, a: int)
    ensures IsTile(init + [t], a, true) <==> IsTile(init, a, true) || (t.free && a == t.addr)
  {
    var tiles := init + [t];
    if i: nat :| TileAt(tiles, i, a, true) {
      if i < |init| {
        assert TileAt(init, i, a, true);
      }
    }
    if i: nat :| TileAt(init, i, a, true) {
      assert TileAt(tiles, i, a, true);
    }
    if t.free && a == t.addr {
      assert TileAt(tiles, |init|, a, true);
    }
  }

  /** l holds the addresses of the free chunks, all of them from begin up to end. */
  ghost predicate ListsFree(tiles: seq<Tile>, l: seq<int>, begin: int, end: int) {
    && Distinct(l) && (forall i: nat :: i < |l| ==> begin <= l[i] < end)
    && forall a :: a in l <==> IsTile(tiles, a, true)
  }

  lemma ListsFreeSnoc(init: seq<Tile>, t: Tile, l: seq<int>, begin: int, end: int)
    requires ListsFree(init, l, begin, t.addr) && begin <= t.addr < end
    ensures ListsFree(init + [t], l + (if t.free then [t.addr] else []), begin, end)
  {
    var m := l + (if t.free then [t.addr] else []);
    assert Distinct(m) && forall i: nat :: i < |m| ==> begin <= m[i] < end;
    hide IsTile, Distinct;
    forall a
      ensures a in m <==> IsTile(init + [t], a, true)
    {
      TilesSnoc(init, t, a);
    }
  }

  lemma TilingInit(tiles: seq<Tile>, begin: int, end: int)
    requires Tiling(tiles, begin, end) && |tiles| > 1
    ensures Tiling(tiles[..|tiles| - 1], begin, tiles[|tiles| - 1].addr)
  {
    assert End(tiles[|tiles| - 2]) == tiles[|tiles| - 1].addr;
  }

  lemma {:induction false} FreeListed(tiles: seq<Tile>, begin: int, end: int)
    requires Tiling(tiles, begin, end)
    ensures ListsFree(tiles, FreeAddrs(tiles), begin, end)
    decreases |tiles|
  {
    var n := |tiles| - 1;
    var init, t := tiles[..n], tiles[n];
    assert tiles == init + [t];
    FreeAddrsSnoc(init, t);
    Before(tiles, begin, end, n);
    if n > 0 {
      TilingInit(tiles, begin, end);
      hide Tiling, ListsFree;
      FreeListed(init, begin, t.addr);
    } else {
      assert FreeAddrs(init) == [];
    }
    ListsFreeSnoc(init, t, FreeAddrs(init), begin, end);
  }

  lemma FreeAddrsMeans(tiles: seq<Tile>, begin: int, end: int)
    requires Tiling(tiles, begin, end)
    ensures Distinct(FreeAddrs(tiles))
    ensures forall i: nat :: i < |FreeAddrs(tiles)| ==> begin <= FreeAddrs(tiles)[i] < end
    ensures forall a :: a in FreeAddrs(tiles) <==> IsTile(tiles, a, true)
  {
    FreeListed(tiles, begin, end);
  }

  lemma FreeAddrsLast(out: seq<Tile>)
    requires |out| > 0 && out[|out| - 1].free
    ensures |FreeAddrs(out)| > 0 && FreeAddrs(out)[|FreeAddrs(out)| - 1] == out[|out| - 1].addr
  {
  }

  lemma OtherOpen(h: Memory, h2: Memory, l: seq<int>)
    requires OpenChain(h, l) && forall a <- l :: a in h ==>
               a in h2 && h2[a].next == h[a].next && h2[a].prev == h[a].prev
    ensures OpenChain(h2, l)
  {
    forall i: nat | i < |l|
      ensures OpenAt(h2, l, i)
    {
      assert OpenAt(h, l, i) && l[i] in l;
    }
  }

  lemma OpenOne(h: Memory, a: int)
    requires a != 0 && a in h && h[a].prev == 0
    ensures OpenChain(h, [a])
  {
  }

  lemma OpenAppend(h: Memory, l: seq<int>, a: int)
    requires OpenChain(h, l) && |l| > 0 && Distinct(l + [a]) && a != 0 && a in h
    ensures var p := l[|l| - 1];
            p in h && OpenChain(SetPrev(SetNext(h, p, a), a, p), l + [a])
  {
    var p, r := l[|l| - 1], l + [a];
    assert OpenAt(h, l, |l| - 1);
    var h2 := SetPrev(SetNext(h, p, a), a, p);
    forall i: nat | i < |r|
      ensures OpenAt(h2, r, i)
    {
      if i < |l| {
        assert OpenAt(h, l, i);
        assert r[i] == l[i] && r[i] != r[|l|];
        assert i + 1 < |l| ==> r[i] != r[|l| - 1];
      }
    }
  }

  lemma OpenClosed(h: Memory, l: seq<int>)
    requires OpenChain(h, l) && |l| > 0 && Distinct(l)
    ensures l[|l| - 1] in h && Chain(SetNext(h, l[|l| - 1], 0), l)
  {
    var p := l[|l| - 1];
    assert OpenAt(h, l, |l| - 1);
    forall i: nat | i < |l|
      ensures LinkAt(SetNext(h, p, 0), l, i)
    {
      assert OpenAt(h, l, i);
    }
  }

  /** The chunks as they stand: those already walked over, merged, and then the others. */
  function Standing(tiles: seq<Tile>, k: nat): seq<Tile>
    requires k <= |tiles|
  {
    Merged(tiles[..k]) + tiles[k..]
  }

  lemma StandingIsTiling(tiles: seq<Tile>, begin: int, end: int, k: nat)
    requires Tiling(tiles, begin, end) && k <= |tiles|
    ensures Tiling(Standing(tiles, k), begin, end)
    ensures k > 0 ==>
              Tiling(Merged(tiles[..k]), begin, if k < |tiles| then tiles[k].addr else end)
              && NoAdjacentFree(Merged(tiles[..k]))
    ensures k > 0 ==> Merged(tiles[..k])[|Merged(tiles[..k])| - 1].free == tiles[k - 1].free
  {
    if k > 0 {
      var init := tiles[..k];
      assert k < |tiles| ==> End(init[k - 1]) == tiles[k].addr;
      MergedTiles(init, begin, if k < |tiles| then tiles[k].addr else end);
    }
  }

  /** A turn that does not merge leaves the chunks standing as they are. */
  lemma StandingStays(tiles: seq<Tile>, k: nat)
    requires k < |tiles|
    requires var out := Merged(tiles[..k]);
             !(|out| > 0 && out[|out| - 1].free && tiles[k].free)
    ensures Merged(tiles[..k + 1]) == Merged(tiles[..k]) + [tiles[k]] && Standing(tiles, k + 1) == Standing(tiles, k)
    ensures FreeAddrs(Merged(tiles[..k + 1])) ==
            FreeAddrs(Merged(tiles[..k])) + (if tiles[k].free then [tiles[k].addr] else [])
  {
    MergedStep(tiles, k);
    FreeAddrsSnoc(Merged(tiles[..k]), tiles[k]);
    assert tiles[k..] == [tiles[k]] + tiles[k + 1..];
  }

  /** A turn that merges: the last chunk grows over the current one. */
  lemma StandingMerges(h: Memory, h2: Memory, tiles: seq<Tile>, begin: int, end: int, k: nat)
    requires Tiling(tiles, begin, end) && 0 < k < |tiles| && tiles[k - 1].free && tiles[k].free
             && Match(h, Standing(tiles, k))
    requires var out := Merged(tiles[..k]);
             var p, c := out[|out| - 1].addr, tiles[k].addr;
             && p in h && c in h && p in h2 && h2[p].free == h[p].free && h2[p].size == h[p].size + h[c].size + HDR
             && forall a <- h :: a != p ==> a in h2 && h2[a].size == h[a].size && (h2[a].free == h[a].free || a == c)
    ensures Match(h2, Standing(tiles, k + 1))
    ensures FreeAddrs(Merged(tiles[..k + 1])) == FreeAddrs(Merged(tiles[..k]))
  {
    var out, m := Merged(tiles[..k]), Standing(tiles, k);
    var n := |out| - 1;
    StandingIsTiling(tiles, begin, end, k);
    MergedStep(tiles, k);
    DistinctAddrs(m, begin, end);
    assert m[n] == out[n] && m[n + 1] == tiles[k];
    assert MatchAt(h, m, n) && MatchAt(h, m, n + 1);
    var g := Standing(tiles, k + 1);
    FreeAddrsGrown(out, out[n].size + tiles[k].size + HDR);
    assert |g| == |m| - 1;
    assert forall i: nat :: i < n ==> g[i] == m[i];
    assert g[n] == out[n].(size := out[n].size + tiles[k].size + HDR);
    assert forall i: nat :: n < i < |g| ==> g[i] == m[i + 1];
    forall i: nat | i < |g|
      ensures MatchAt(h2, g, i)
    {
      if i < n {
        assert MatchAt(h, m, i);
      } else if i > n {
        assert MatchAt(h, m, i + 1);
      }
    }
  }

  function Last(l: seq<int>): int {
    if l == [] then 0 else l[|l| - 1]
  }

  function Chunks(tiles: seq<Tile>, k: nat): seq<int>
    requires k <= |tiles|
  {
    FreeAddrs(Merged(tiles[..k]))
  }

  /** Between turns: k chunks are behind, their free runs are linked, prev is the last of them. */
  ghost predicate Walking(h: Memory, tiles: seq<Tile>, ml: seq<int>, begin: int, end: int, k: nat, freeList: int,
          prev: int) {
    && 0 < begin && k <= |tiles| && Tiling(tiles, begin, end)
    && Match(h, Standing(tiles, k)) && Holds(tiles, ml, false) && Chain(h, ml)
    && OpenChain(h, Chunks(tiles, k)) && prev == Last(Chunks(tiles, k))
    && (Chunks(tiles, k) != [] ==> freeList == Chunks(tiles, k)[0])
    && forall a <- Chunks(tiles, k) :: IsTile(tiles, a, true)
  }

  lemma WalkingStarts(h: Memory, tiles: seq<Tile>, ml: seq<int>, begin: int, end: int, freeList: int)
    requires 0 < begin && Tiling(tiles, begin, end) && Match(h, tiles) && Holds(tiles, ml, false) && Chain(h, ml)
    ensures Walking(h, tiles, ml, begin, end, 0, freeList, 0)
  {
    assert Standing(tiles, 0) == tiles;
  }

  /** The chunk under the walk, as memory shows it. */
  lemma Current(h: Memory, tiles: seq<Tile>, ml: seq<int>, begin: int, end: int, k: nat, freeList: int, prev: int)
    requires Walking(h, tiles, ml, begin, end, k, freeList, prev) && k < |tiles|
    ensures var c := tiles[k].addr;
            c in h && h[c].size == tiles[k].size && h[c].free == tiles[k].free && c > 0 && c !in Chunks(tiles, k)
    ensures tiles[k].free ==> tiles[k].addr !in ml && IsTile(tiles, tiles[k].addr, true)
    ensures prev !in ml && (prev != 0 ==> prev in h && prev in Chunks(tiles, k) && prev != tiles[k].addr)
    ensures prev == 0 <==> Chunks(tiles, k) == []
    ensures forall i: nat :: MatchAt(h, Standing(tiles, k), i) && i != |Merged(tiles[..k])| ==>
              Standing(tiles, k)[i].addr != tiles[k].addr
  {
    var c, out := tiles[k].addr, Merged(tiles[..k]);
    StandingIsTiling(tiles, begin, end, k);
    assert Standing(tiles, k)[|out|] == tiles[k];
    assert MatchAt(h, Standing(tiles, k), |out|);
    DistinctAddrs(Standing(tiles, k), begin, end);
    Before(tiles, begin, end, k);
    if k > 0 {
      FreeAddrsMeans(out, begin, c);
    }
    if tiles[k].free {
      assert TileAt(tiles, k, c, true);
      OneKind(tiles, begin, end, c);
    }
    var fo := Chunks(tiles, k);
    if fo != [] {
      assert OpenAt(h, fo, |fo| - 1) && prev in fo;
      OneKind(tiles, begin, end, prev);
    }
  }

  lemma LinksOnly(h: Memory, h2: Memory, tiles: seq<Tile>)
    requires Match(h, tiles) && SameSizes(h, h2)
    ensures Match(h2, tiles)
  {
    forall i: nat | i < |tiles|
      ensures MatchAt(h2, tiles, i)
    {
      assert MatchAt(h, tiles, i);
    }
  }

  lemma TurnAllocated(h: Memory, tiles: seq<Tile>, ml: seq<int>, begin: int, end: int, k: nat, freeList: int, prev: int)
    requires Walking(h, tiles, ml, begin, end, k, freeList, prev) && k < |tiles| && !tiles[k].free
    ensures Walking(h, tiles, ml, begin, end, k + 1, freeList, prev)
  {
    StandingStays(tiles, k);
    hide Merged, FreeAddrs, Standing, Tiling, Match, Holds, Chain, OpenChain;
    assert Chunks(tiles, k + 1) == Chunks(tiles, k);
  }

  lemma TurnFirstFree(h: Memory, tiles: seq<Tile>, ml: seq<int>, begin: int, end: int, k: nat, freeList: int)
    requires Walking(h, tiles, ml, begin, end, k, freeList, 0) && k < |tiles| && tiles[k].free
    ensures var c := tiles[k].addr;
            Walking(SetNext(SetPrev(h, c, 0), c, 0), tiles, ml, begin, end, k + 1, c, c)
  {
    Current(h, tiles, ml, begin, end, k, freeList, 0);
    var c := tiles[k].addr;
    var h2 := SetNext(SetPrev(h, c, 0), c, 0);
    NoRunYet(tiles, k);
    StandingStays(tiles, k);
    LinksOnly(h, h2, Standing(tiles, k));
    OtherChain(h, h2, ml);
    OpenOne(h2, c);
  }

  lemma NoRunYet(tiles: seq<Tile>, k: nat)
    requires k < |tiles| && Chunks(tiles, k) == []
    ensures var out := Merged(tiles[..k]);
            !(|out| > 0 && out[|out| - 1].free)
  {
    var out := Merged(tiles[..k]);
    if |out| > 0 && out[|out| - 1].free {
      FreeAddrsLast(out);
    }
  }

  lemma TurnNextRun(h: Memory, tiles: seq<Tile>, ml: seq<int>, begin: int, end: int, k: nat, freeList: int, prev: int)
    requires Walking(h, tiles, ml, begin, end, k, freeList, prev) && 0 < k < |tiles| && tiles[k].free
             && !tiles[k - 1].free && prev != 0
    ensures var c := tiles[k].addr;
            Walking(SetPrev(SetNext(h, prev, c), c, prev), tiles, ml, begin, end, k + 1, freeList, c)
  {
    Current(h, tiles, ml, begin, end, k, freeList, prev);
    StandingIsTiling(tiles, begin, end, k);
    var c, out := tiles[k].addr, Merged(tiles[..k]);
    var h2 := SetPrev(SetNext(h, prev, c), c, prev);
    StandingStays(tiles, k);
    FreeAddrsMeans(out, begin, c);
    hide Merged, FreeAddrs, Standing, Tiling, Match, Holds, Chain, OpenChain, IsTile;
    LinkOn(h, Standing(tiles, k), Chunks(tiles, k), ml, c);
  }

  /** The stores of one turn: c put behind the last free run. */
  lemma LinkOn(h: Memory, tiles: seq<Tile>, l: seq<int>, ml: seq<int>, c: int)
    requires Match(h, tiles) && Chain(h, ml) && OpenChain(h, l) && l != [] && Distinct(l)
    requires c in h && c != 0 && c !in l && c !in ml && Last(l) !in ml
    ensures Last(l) in h
    ensures var h2 := SetPrev(SetNext(h, Last(l), c), c, Last(l));
            Match(h2, tiles) && Chain(h2, ml) && OpenChain(h2, l + [c])
  {
    var h2 := SetPrev(SetNext(h, Last(l), c), c, Last(l));
    DistinctSnoc(l, c);
    OpenAppend(h, l, c);
    LinksOnly(h, h2, tiles);
    OtherChain(h, h2, ml);
  }

  /** The store after the walk: the last free run ends the list. */
  lemma CloseList(h: Memory, tiles: seq<Tile>, l: seq<int>, ml: seq<int>)
    requires Match(h, tiles) && Chain(h, ml) && OpenChain(h, l) && l != [] && Distinct(l) && Last(l) !in ml
    ensures Last(l) in h && Last(l) != 0 && 0 !in l
    ensures Match(SetNext(h, Last(l), 0), tiles) && Chain(SetNext(h, Last(l), 0), ml)
            && Chain(SetNext(h, Last(l), 0), l)
  {
    var h2 := SetNext(h, Last(l), 0);
    OpenClosed(h, l);
    LinksOnly(h, h2, tiles);
    OtherChain(h, h2, ml);
    assert OpenAt(h, l, |l| - 1);
    forall i: nat | i < |l|
      ensures l[i] != 0
    {
      assert OpenAt(h, l, i);
    }
  }

  lemma DistinctSnoc(l: seq<int>, a: int)
    requires Distinct(l) && a !in l
    ensures Distinct(l + [a])
  {
  }

  lemma TurnSwallow(h: Memory, tiles: seq<Tile>, ml: seq<int>, begin: int, end: int, k: nat, freeList: int, prev: int)
    requires Walking(h, tiles, ml, begin, end, k, freeList, prev) && 0 < k < |tiles| && tiles[k].free
             && tiles[k - 1].free
    ensures prev in h && tiles[k].addr in h && prev != tiles[k].addr
    ensures var c := tiles[k].addr;
            var h1 := h[prev := h[prev].(size := h[prev].size + h[c].size + HDR)];
            Walking(h1[c := h1[c].(free := true)], tiles, ml, begin, end, k + 1, freeList, prev)
  {
    Current(h, tiles, ml, begin, end, k, freeList, prev);
    StandingIsTiling(tiles, begin, end, k);
    FreeAddrsLast(Merged(tiles[..k]));
    var c := tiles[k].addr;
    var h1 := h[prev := h[prev].(size := h[prev].size + h[c].size + HDR)];
    var h2 := h1[c := h1[c].(free := true)];
    StandingMerges(h, h2, tiles, begin, end, k);
    OtherChain(h, h2, ml);
    OtherOpen(h, h2, Chunks(tiles, k));
  }

  /** After the last turn and the closing of the list. */
  lemma WalkEnds(h: Memory, tiles: seq<Tile>, ml: seq<int>, begin: int, end: int, freeList: int, prev: int)
    requires Walking(h, tiles, ml, begin, end, |tiles|, freeList, prev) && exists a :: IsTile(tiles, a, true)
    ensures var m, h2 := Merged(tiles), SetNext(h, prev, 0);
            && prev in h && prev != 0 && Tiling(m, begin, end) && Match(h2, m) && Holds(m, FreeAddrs(m), true)
            && Chain(h2, FreeAddrs(m)) && Holds(m, ml, false) && Chain(h2, ml) && freeList == Nth(FreeAddrs(m), 0)
  {
    var m, h2 := Merged(tiles), SetNext(h, prev, 0);
    assert tiles[..|tiles|] == tiles && Standing(tiles, |tiles|) == m;
    assert Chunks(tiles, |tiles|) == FreeAddrs(m);
    SomeRunIsFree(tiles, begin, end);
    hide Merged, FreeAddrs, Standing, Tiling, Match, Chain, OpenChain, IsTile;
    MergedTiles(tiles, begin, end);
    LastIsMember(FreeAddrs(m));
    OneKind(tiles, begin, end, prev);
    hide Holds;
    HoldsNothingFree(tiles, ml, prev);
    FreeAddrsDistinct(m, begin, end);
    CloseList(h, m, FreeAddrs(m), ml);
    MergedHolds(tiles, ml, begin, end);
  }

  lemma HoldsNothingFree(tiles: seq<Tile>, ml: seq<int>, a: int)
    requires Holds(tiles, ml, false) && !IsTile(tiles, a, false)
    ensures a !in ml
  {
  }

  lemma FreeAddrsDistinct(m: seq<Tile>, begin: int, end: int)
    requires Tiling(m, begin, end)
    ensures Distinct(FreeAddrs(m))
  {
    FreeAddrsMeans(m, begin, end);
  }

  lemma MergedHolds(tiles: seq<Tile>, ml: seq<int>, begin: int, end: int)
    requires 0 < begin && Tiling(tiles, begin, end) && Holds(tiles, ml, false)
    ensures Holds(Merged(tiles), FreeAddrs(Merged(tiles)), true) && Holds(Merged(tiles), ml, false)
  {
    MergedTiles(tiles, begin, end);
    FreeAddrsMeans(Merged(tiles), begin, end);
    AllocatedStay(tiles, begin, end);
  }

  lemma LastIsMember(l: seq<int>)
    requires l != []
    ensures Last(l) in l
  {
  }

  lemma AllocatedStay(tiles: seq<Tile>, begin: int, end: int)
    requires Tiling(tiles, begin, end)
    ensures forall a :: IsTile(Merged(tiles), a, false) <==> IsTile(tiles, a, false)
  {
    var m := Merged(tiles);
    MergedKeeps(tiles, begin, end);
    forall a
      ensures IsTile(m, a, false) <==> IsTile(tiles, a, false)
    {
      if i: nat :| TileAt(m, i, a, false) {
        assert m[i] in tiles;
        var j: nat :| j < |tiles| && tiles[j] == m[i];
        assert TileAt(tiles, j, a, false);
      }
      if i: nat :| TileAt(tiles, i, a, false) {
        assert tiles[i] in m;
        var j: nat :| j < |m| && m[j] == tiles[i];
        assert TileAt(m, j, a, false);
      }
    }
  }

  lemma SomeRunIsFree(tiles: seq<Tile>, begin: int, end: int)
    requires Tiling(tiles, begin, end) && exists a :: IsTile(tiles, a, true)
    ensures FreeAddrs(Merged(tiles)) != []
  {
    var a :| IsTile(tiles, a, true);
    var i: nat :| TileAt(tiles, i, a, true);
    var m := Merged(tiles);
    MergedTiles(tiles, begin, end);
    MergedKeeps(tiles, begin, end);
    Ordered(tiles, begin, end, i, i);
    hide Merged, FreeAddrs, Tiling;
    assert FreeAt(tiles, i, a);
    assert FreeByte(m, a);
    var j: nat :| FreeAt(m, j, a);
    FreeAddrsMeans(m, begin, end);
    assert TileAt(m, j, m[j].addr, true);
    assert m[j].addr in FreeAddrs(m);
  }
}
