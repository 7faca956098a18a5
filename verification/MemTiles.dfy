/**
 mem.c's region as a value: the chunks in address order, each a 24-byte header and a payload.
 */
module MemTiles {
  const HDR := 24

  datatype Tile = Tile(addr: int, size: int, free: bool)

  function End(t: Tile): int {
    t.addr + HDR + t.size
  }

  /** The chunks tile begin..end: each starts where the one before it ends. */
  ghost predicate Tiling(tiles: seq<Tile>, begin: int, end: int) {
    && |tiles| >= 1 && tiles[0].addr == begin && End(tiles[|tiles| - 1]) == end
    && (forall i: nat :: i < |tiles| ==> tiles[i].size >= 0)
    && forall i: nat :: i + 1 < |tiles| ==> End(tiles[i]) == tiles[i + 1].addr
  }

  ghost predicate Aligned(tiles: seq<Tile>) {
    forall i: nat :: i < |tiles| ==> tiles[i].addr % 8 == 0 && tiles[i].size % 8 == 0
  }

  ghost predicate NoAdjacentFree(tiles: seq<Tile>) {
    forall i: nat :: i + 1 < |tiles| ==> !(tiles[i].free && tiles[i + 1].free)
  }

  predicate TileAt(tiles: seq<Tile>, i: nat, a: int, free: bool) {
    i < |tiles| && tiles[i].addr == a && tiles[i].free == free
  }

  /** a is the header of a free, or of an allocated, chunk. */
  ghost predicate IsTile(tiles: seq<Tile>, a: int, free: bool) {
    exists i: nat :: TileAt(tiles, i, a, free)
  }

  function Total(tiles: seq<Tile>): int {
    if tiles == [] then 0 else Total(tiles[..|tiles| - 1]) + tiles[|tiles| - 1].size + HDR
  }

  /** Sizes and headers add up to the size of the region. */
  lemma {:induction false} TotalOfTiling(tiles: seq<Tile>, begin: int, end: int)
    requires Tiling(tiles, begin, end)
    ensures Total(tiles) == end - begin
    decreases |tiles|
  {
    if |tiles| > 1 {
      var init := tiles[..|tiles| - 1];
      assert End(init[|init| - 1]) == tiles[|tiles| - 1].addr;
      TotalOfTiling(init, begin, tiles[|tiles| - 1].addr);
    } else {
      assert tiles[..0] == [];
    }
  }

  lemma {:induction false} Ordered(tiles: seq<Tile>, begin: int, end: int, i: nat, j: nat)
    requires Tiling(tiles, begin, end) && i <= j < |tiles|
    ensures begin <= tiles[i].addr && End(tiles[i]) <= end
    ensures i < j ==> End(tiles[i]) <= tiles[j].addr
    ensures i == j ==> tiles[i].addr < End(tiles[i])
    decreases j - i, i + |tiles| - j
  {
    if i < j {
      Ordered(tiles, begin, end, i, j - 1);
    } else if i == 0 && j + 1 == |tiles| {
    } else {
      Before(tiles, begin, end, i);
      After(tiles, begin, end, i);
    }
  }

  lemma {:induction false} Before(tiles: seq<Tile>, begin: int, end: int, i: nat)
    requires Tiling(tiles, begin, end) && i < |tiles|
    ensures begin <= tiles[i].addr
  {
    if i > 0 {
      Before(tiles, begin, end, i - 1);
      assert End(tiles[i - 1]) == tiles[i].addr;
    }
  }

  lemma {:induction false} After(tiles: seq<Tile>, begin: int, end: int, i: nat)
    requires Tiling(tiles, begin, end) && i < |tiles|
    ensures End(tiles[i]) <= end
    decreases |tiles| - i
  {
    if i + 1 < |tiles| {
      After(tiles, begin, end, i + 1);
      assert End(tiles[i]) == tiles[i + 1].addr;
    }
  }

  lemma DistinctAddrs(tiles: seq<Tile>, begin: int, end: int)
    requires Tiling(tiles, begin, end)
    ensures forall i: nat, j: nat :: i < j < |tiles| ==> tiles[i].addr < tiles[j].addr
  {
    forall i: nat, j: nat | i < j < |tiles|
      ensures tiles[i].addr < tiles[j].addr
    {
      Ordered(tiles, begin, end, i, j);
      Ordered(tiles, begin, end, i, i);
    }
  }

  lemma OneKind(tiles: seq<Tile>, begin: int, end: int, a: int)
    requires Tiling(tiles, begin, end) && IsTile(tiles, a, true)
    ensures !IsTile(tiles, a, false)
  {
    DistinctAddrs(tiles, begin, end);
    var i: nat :| TileAt(tiles, i, a, true);
    forall j: nat
      ensures !TileAt(tiles, j, a, false)
    {
      assert j < |tiles| && tiles[j].addr == a ==> j == i;
    }
  }

  // ---- coalesce ---------------------------------------------------------------------------------------

  /** One turn of coalesce's walk: a free chunk right after a free one is swallowed. */
  function Absorb(out: seq<Tile>, t: Tile): (r: seq<Tile>)
    ensures |r| >= 1
  {
    var n := |out|;
    if n > 0 && out[n - 1].free && t.free then out[n - 1 := out[n - 1].(size := out[n - 1].size + t.size + HDR)]
    else out + [t]
  }

  function Merged(tiles: seq<Tile>): (r: seq<Tile>)
    ensures tiles != [] ==> r != []
  {
    if tiles == [] then [] else Absorb(Merged(tiles[..|tiles| - 1]), tiles[|tiles| - 1])
  }

  lemma MergedStep(tiles: seq<Tile>, k: nat)
    requires k < |tiles|
    ensures Merged(tiles[..k + 1]) == Absorb(Merged(tiles[..k]), tiles[k])
  {
    assert tiles[..k + 1][..k] == tiles[..k];
  }

  lemma AbsorbTiles(out: seq<Tile>, t: Tile, begin: int)
    requires out == [] || Tiling(out, begin, t.addr)
    requires out == [] ==> t.addr == begin
    requires t.size >= 0 && NoAdjacentFree(out)
    ensures Tiling(Absorb(out, t), begin, End(t)) && NoAdjacentFree(Absorb(out, t))
    ensures Absorb(out, t)[|Absorb(out, t)| - 1].free == t.free
  {
  }

  lemma AbsorbAligned(out: seq<Tile>, t: Tile)
    requires Aligned(out) && t.addr % 8 == 0 && t.size % 8 == 0
    ensures Aligned(Absorb(out, t))
  {
  }

  /** coalesce's result tiles the region, with no two free neighbours. */
  lemma {:induction false} MergedTiles(tiles: seq<Tile>, begin: int, end: int)
    requires Tiling(tiles, begin, end)
    ensures Tiling(Merged(tiles), begin, end) && NoAdjacentFree(Merged(tiles))
    ensures Merged(tiles)[|Merged(tiles)| - 1].free == tiles[|tiles| - 1].free
    decreases |tiles|
  {
    var n := |tiles| - 1;
    var init := tiles[..n];
    if n > 0 {
      assert End(init[n - 1]) == tiles[n].addr;
      MergedTiles(init, begin, tiles[n].addr);
    }
    AbsorbTiles(Merged(init), tiles[n], begin);
  }

  lemma {:induction false} MergedAligned(tiles: seq<Tile>)
    requires Aligned(tiles)
    ensures Aligned(Merged(tiles))
  {
    if tiles != [] {
      var n := |tiles| - 1;
      MergedAligned(tiles[..n]);
      AbsorbAligned(Merged(tiles[..n]), tiles[n]);
    }
  }

  predicate FreeAt(tiles: seq<Tile>, i: nat, x: int) {
    i < |tiles| && tiles[i].free && tiles[i].addr <= x < End(tiles[i])
  }

  /** Byte x, of a header or of a payload, lies in a free chunk. */
  ghost predicate FreeByte(tiles: seq<Tile>, x: int) {
    exists i: nat :: FreeAt(tiles, i, x)
  }

  lemma AbsorbKeeps(out: seq<Tile>, t: Tile, begin: int)
    requires out == [] || Tiling(out, begin, t.addr)
    requires t.size >= 0
    ensures forall u: Tile :: !u.free ==> (u in Absorb(out, t) <==> u in out || u == t)
    ensures forall x :: FreeByte(Absorb(out, t), x) <==> FreeByte(out, x) || (t.free && t.addr <= x < End(t))
  {
    var r := Absorb(out, t);
    var n := |out|;
    if n > 0 && out[n - 1].free && t.free {
      assert End(out[n - 1]) == t.addr;
      forall u: Tile | !u.free
        ensures u in r <==> u in out || u == t
      {
        if u in out {
          var i :| 0 <= i < n && out[i] == u;
          assert r[i] == u;
        }
        if u in r {
          var i :| 0 <= i < n && r[i] == u;
          assert out[i] == u;
        }
      }
      forall x
        ensures FreeByte(r, x) <==> FreeByte(out, x) || t.addr <= x < End(t)
      {
        assert FreeAt(r, n - 1, x) <==> FreeAt(out, n - 1, x) || t.addr <= x < End(t);
        assert forall i: nat :: i < n - 1 ==> (FreeAt(r, i, x) <==> FreeAt(out, i, x));
      }
    } else {
      forall x
        ensures FreeByte(r, x) <==> FreeByte(out, x) || (t.free && t.addr <= x < End(t))
      {
        assert FreeAt(r, n, x) <==> t.free && t.addr <= x < End(t);
        assert forall i: nat :: i < n ==> (FreeAt(r, i, x) <==> FreeAt(out, i, x));
      }
    }
  }

  /** coalesce leaves the allocated chunks as they were and gains or loses no byte of free space. */
  lemma {:induction false} MergedKeeps(tiles: seq<Tile>, begin: int, end: int)
    requires Tiling(tiles, begin, end)
    ensures forall u: Tile :: !u.free ==> (u in Merged(tiles) <==> u in tiles)
    ensures forall x :: FreeByte(Merged(tiles), x) <==> FreeByte(tiles, x)
    decreases |tiles|
  {
    var n := |tiles| - 1;
    var init := tiles[..n];
    var t := tiles[n];
    if n > 0 {
      assert End(init[n - 1]) == t.addr;
      MergedKeeps(init, begin, t.addr);
      MergedTiles(init, begin, t.addr);
    }
    AbsorbKeeps(Merged(init), t, begin);
    FreeBytesSnoc(init, t);
    assert tiles == init + [t];
    hide FreeByte, Tiling, Absorb;
  }

  lemma FreeBytesSnoc(init: seq<Tile>, t: Tile)
    ensures forall x :: FreeByte(init + [t], x) <==> FreeByte(init, x) || (t.free && t.addr <= x < End(t))
  {
    var tiles, n := init + [t], |init|;
    forall x
      ensures FreeByte(tiles, x) <==> FreeByte(init, x) || (t.free && t.addr <= x < End(t))
    {
      assert FreeAt(tiles, n, x) <==> t.free && t.addr <= x < End(t);
      assert forall i: nat :: i < n ==> (FreeAt(tiles, i, x) <==> FreeAt(init, i, x));
    }
  }

  /** Freeing everything restores the single chunk of Mem_Init. */
  lemma AllFreeIsOneChunk(tiles: seq<Tile>, begin: int, end: int)
    requires Tiling(tiles, begin, end) && forall i: nat :: i < |tiles| ==> tiles[i].free
    ensures Merged(tiles) == [Tile(begin, end - begin - HDR, true)]
  {
    var m := Merged(tiles);
    MergedTiles(tiles, begin, end);
    MergedKeeps(tiles, begin, end);
    forall i: nat | i < |m|
      ensures m[i].free
    {
      assert m[i] in m;
    }
    OneRun(m);
  }

  lemma OneRun(m: seq<Tile>)
    requires NoAdjacentFree(m) && forall i: nat :: i < |m| ==> m[i].free
    ensures |m| <= 1
  {
    if |m| > 1 {
      TwoFreeNeighbours(m);
    }
  }

  lemma TwoFreeNeighbours(m: seq<Tile>)
    requires |m| > 1 && m[0].free && m[1].free
    ensures !NoAdjacentFree(m)
  {
  }

  // ---- The maximal runs are unique ---------------------------------------------------------------------

  ghost predicate SameUse(u: seq<Tile>, v: seq<Tile>) {
    && (forall t: Tile :: !t.free ==> (t in u <==> t in v))
    && forall x :: FreeByte(u, x) <==> FreeByte(v, x)
  }

  /** The byte at the start of a chunk tells whether the chunk is free. */
  lemma StartTells(u: seq<Tile>, begin: int, end: int, i: nat)
    requires Tiling(u, begin, end) && i < |u|
    ensures FreeByte(u, u[i].addr) <==> u[i].free
  {
    Ordered(u, begin, end, i, i);
    if u[i].free {
      assert FreeAt(u, i, u[i].addr);
    }
    forall j: nat | j < |u| && j != i
      ensures !FreeAt(u, j, u[i].addr)
    {
      if j < i {
        Ordered(u, begin, end, j, i);
      } else {
        Ordered(u, begin, end, i, j);
        Ordered(u, begin, end, i, i);
      }
    }
  }

  lemma FreeEndsAlike(u: seq<Tile>, v: seq<Tile>, begin: int, end: int, i: nat)
    requires Tiling(u, begin, end) && Tiling(v, begin, end) && NoAdjacentFree(v) && SameUse(u, v)
    requires i < |u| && i < |v| && u[i].addr == v[i].addr && u[i].free && v[i].free
    ensures End(u[i]) <= End(v[i])
  {
    if i + 1 < |v| {
      StartTells(v, begin, end, i + 1);
      Ordered(v, begin, end, i, i);
      assert !FreeAt(u, i, v[i + 1].addr);
    } else {
      Ordered(u, begin, end, i, i);
    }
  }

  lemma SameChunk(u: seq<Tile>, v: seq<Tile>, begin: int, end: int, i: nat)
    requires Tiling(u, begin, end) && Tiling(v, begin, end) && NoAdjacentFree(u) && NoAdjacentFree(v)
    requires SameUse(u, v) && SameUse(v, u) && i < |u| && i < |v| && u[i].addr == v[i].addr
    ensures u[i] == v[i]
  {
    StartTells(u, begin, end, i);
    StartTells(v, begin, end, i);
    if u[i].free {
      FreeEndsAlike(u, v, begin, end, i);
      FreeEndsAlike(v, u, begin, end, i);
    } else {
      assert u[i] in v;
      var j: nat :| j < |v| && v[j] == u[i];
      DistinctAddrs(v, begin, end);
    }
  }

  /** A tiling without free neighbours is determined by its allocated chunks and its free bytes. */
  lemma {:induction false} RunsAreUnique(u: seq<Tile>, v: seq<Tile>, begin: int, end: int, i: nat)
    requires Tiling(u, begin, end) && Tiling(v, begin, end) && NoAdjacentFree(u) && NoAdjacentFree(v)
    requires SameUse(u, v) && SameUse(v, u) && i < |u| && i < |v| && u[..i] == v[..i] && u[i].addr == v[i].addr
    ensures u == v
    decreases |u| - i
  {
    SameChunk(u, v, begin, end, i);
    assert u[..i + 1] == u[..i] + [u[i]] && v[..i + 1] == v[..i] + [v[i]];
    if i + 1 < |u| && i + 1 < |v| {
      RunsAreUnique(u, v, begin, end, i + 1);
    } else {
      if i + 1 < |u| {
        Ordered(u, begin, end, i, i + 1);
        Ordered(u, begin, end, i + 1, i + 1);
      } else if i + 1 < |v| {
        Ordered(v, begin, end, i, i + 1);
        Ordered(v, begin, end, i + 1, i + 1);
      }
      assert u == u[..i + 1] && v == v[..i + 1];
    }
  }

  /** coalesce yields the maximal free runs: any tiling of the same use without free neighbours is its result. */
  lemma MergedIsTheMaximalRuns(tiles: seq<Tile>, v: seq<Tile>, begin: int, end: int)
    requires Tiling(tiles, begin, end) && Tiling(v, begin, end) && NoAdjacentFree(v) && SameUse(tiles, v)
    ensures Merged(tiles) == v
  {
    MergedTiles(tiles, begin, end);
    MergedKeeps(tiles, begin, end);
    RunsAreUnique(Merged(tiles), v, begin, end, 0);
  }
}
