/**
 The free list of K&R's malloc as a value: the blocks in address order, each a maximal run of free
 units. A unit is one 8-byte Header; addresses are byte addresses.
 */
module FreeList {
  const UNIT := 8

  datatype Block = Block(addr: int, size: int)

  function End(b: Block): int {
    b.addr + UNIT * b.size
  }

  predicate In(b: Block, x: int) {
    b.addr <= x < End(b)
  }

  predicate Apart(b: Block, c: Block) {
    End(b) <= c.addr || End(c) <= b.addr
  }

  /** x lies in a free block. */
  ghost predicate Covers(fl: seq<Block>, x: int) {
    exists i: nat :: i < |fl| && In(fl[i], x)
  }

  /** Address order with a gap after every block: disjoint, and no two blocks adjacent. */
  ghost predicate Gapped(fl: seq<Block>) {
    forall i: nat, j: nat :: i < j < |fl| ==> End(fl[i]) < fl[j].addr
  }

  /** The list starts at base, whose block is empty; everything else lies above base's header. */
  ghost predicate Wf(fl: seq<Block>, base: int) {
    && |fl| >= 1 && fl[0] == Block(base, 0) && Gapped(fl)
    && forall i: nat :: 1 <= i < |fl| ==> fl[i].size >= 1 && base + UNIT <= fl[i].addr
  }

  /** k is the place for b: after every block below it and before every block above it. */
  ghost predicate Place(fl: seq<Block>, k: nat, b: Block) {
    && k < |fl| && End(fl[k]) <= b.addr && fl[k].addr < b.addr
    && (k + 1 < |fl| ==> End(b) <= fl[k + 1].addr)
  }

  predicate JoinsNext(fl: seq<Block>, k: nat, b: Block) {
    k + 1 < |fl| && End(b) == fl[k + 1].addr
  }

  predicate JoinsPrevious(fl: seq<Block>, k: nat, b: Block) {
    k < |fl| && End(fl[k]) == b.addr
  }

  /** b merged with the neighbours it touches. */
  function MergedBlock(fl: seq<Block>, k: nat, b: Block): Block
    requires k < |fl|
  {
    var upper := if JoinsNext(fl, k, b) then b.size + fl[k + 1].size else b.size;
    if JoinsPrevious(fl, k, b) then Block(fl[k].addr, fl[k].size + upper) else Block(b.addr, upper)
  }

  /** The neighbours merged with b are the blocks Lo..Hi. */
  function Lo(fl: seq<Block>, k: nat, b: Block): (lo: nat)
    ensures k <= lo <= k + 1
  {
    if JoinsPrevious(fl, k, b) then k else k + 1
  }

  function Hi(fl: seq<Block>, k: nat, b: Block): (hi: nat)
    ensures k + 1 <= hi && (k < |fl| ==> hi <= |fl|)
  {
    if JoinsNext(fl, k, b) then k + 2 else k + 1
  }

  /** b put after block k, or in place of the neighbours it is merged with. */
  function Inserted(fl: seq<Block>, k: nat, b: Block): seq<Block>
    requires k < |fl|
  {
    fl[..Lo(fl, k, b)] + [MergedBlock(fl, k, b)] + fl[Hi(fl, k, b)..]
  }

  // ---- Space and order of a list with blocks lo..hi replaced by one -------------------------------

  lemma CoversConcat(a: seq<Block>, b: seq<Block>)
    ensures forall x :: Covers(a + b, x) <==> Covers(a, x) || Covers(b, x)
  {
    forall x
      ensures Covers(a + b, x) <==> Covers(a, x) || Covers(b, x)
    {
      if i: nat :| i < |a| && In(a[i], x) {
        assert In((a + b)[i], x);
      }
      if i: nat :| i < |b| && In(b[i], x) {
        assert In((a + b)[|a| + i], x);
      }
    }
  }

  lemma CoversFew(s: seq<Block>)
    requires |s| <= 2
    ensures forall x :: Covers(s, x) <==> (|s| > 0 && In(s[0], x)) || (|s| > 1 && In(s[1], x))
  {
  }

  lemma SpaceOfParts(fl: seq<Block>, lo: nat, hi: nat, mid: seq<Block>)
    requires lo <= hi <= |fl|
    ensures forall x :: Covers(fl, x) <==> Covers(fl[..lo], x) || Covers(fl[lo..hi], x) || Covers(fl[hi..], x)
    ensures forall x :: Covers(fl[..lo] + mid + fl[hi..], x) <==>
              Covers(fl[..lo], x) || Covers(mid, x) || Covers(fl[hi..], x)
  {
    hide Covers;
    CoversConcat(fl[..lo] + mid, fl[hi..]);
    CoversConcat(fl[..lo], mid);
    assert fl == fl[..lo] + fl[lo..hi] + fl[hi..];
    CoversConcat(fl[..lo] + fl[lo..hi], fl[hi..]);
    CoversConcat(fl[..lo], fl[lo..hi]);
  }

  /** Blocks lo..hi of a list give way to one block that fits between the others. */
  lemma OrderOfReplaced(fl: seq<Block>, base: int, lo: nat, hi: nat, c: Block)
    requires Wf(fl, base) && 1 <= lo <= hi <= |fl|
    requires c.size >= 1 && base + UNIT <= c.addr && End(fl[lo - 1]) < c.addr
    requires hi < |fl| ==> End(c) < fl[hi].addr
    ensures Wf(fl[..lo] + [c] + fl[hi..], base)
  {
    var g := fl[..lo] + [c] + fl[hi..];
    forall i: nat, j: nat | i < j < |g|
      ensures End(g[i]) < g[j].addr
    {
      if j < lo {
        Ordered(fl, base, i, j);
      } else if i < lo {
        Ordered(fl, base, i, lo - 1);
        if j > lo {
          Ordered(fl, base, hi, j - lo - 1 + hi);
        }
      } else if i == lo {
        Ordered(fl, base, hi, j - lo - 1 + hi);
      } else {
        Ordered(fl, base, i - lo - 1 + hi, j - lo - 1 + hi);
      }
    }
  }

  lemma Ordered(fl: seq<Block>, base: int, i: nat, j: nat)
    requires Wf(fl, base) && i <= j < |fl|
    ensures fl[i].addr <= End(fl[i]) && fl[i].addr <= fl[j].addr && End(fl[i]) <= End(fl[j])
    ensures i < j ==> End(fl[i]) < fl[j].addr
  {
  }

  lemma OrderOfRemoved(fl: seq<Block>, base: int, k: nat)
    requires Wf(fl, base) && 1 <= k < |fl|
    ensures Wf(fl[..k] + fl[k + 1..], base)
  {
    var g := fl[..k] + fl[k + 1..];
    assert forall i: nat :: i < |g| ==> g[i] == if i < k then fl[i] else fl[i + 1];
  }

  // ---- free's insertion and malloc's removals -------------------------------------------------------

  /** free's result is again a list of maximal runs, and its space is the old space and the block. */
  lemma InsertedIsFreeList(fl: seq<Block>, base: int, k: nat, b: Block)
    requires Wf(fl, base) && Place(fl, k, b) && b.size >= 1 && base + UNIT <= b.addr
    ensures Wf(Inserted(fl, k, b), base)
    ensures forall x :: Covers(Inserted(fl, k, b), x) <==> Covers(fl, x) || In(b, x)
  {
    var lo, hi, c := Lo(fl, k, b), Hi(fl, k, b), MergedBlock(fl, k, b);
    MergedBlockFits(fl, base, k, b);
    hide Covers, Wf, Gapped, Place;
    OrderOfReplaced(fl, base, lo, hi, c);
    SpaceOfParts(fl, lo, hi, [c]);
    CoversFew([c]);
    CoversFew(fl[lo..hi]);
  }

  lemma MergedBlockFits(fl: seq<Block>, base: int, k: nat, b: Block)
    requires Wf(fl, base) && Place(fl, k, b) && b.size >= 1 && base + UNIT <= b.addr
    ensures var c := MergedBlock(fl, k, b);
            c.size >= 1 && base + UNIT <= c.addr
    ensures JoinsPrevious(fl, k, b) ==> k >= 1 && End(fl[k - 1]) < MergedBlock(fl, k, b).addr
    ensures !JoinsPrevious(fl, k, b) ==> End(fl[k]) < b.addr
    ensures var hi := Hi(fl, k, b);
            hi < |fl| ==> End(MergedBlock(fl, k, b)) < fl[hi].addr
  {
    if JoinsNext(fl, k, b) && k + 2 < |fl| {
      assert End(fl[k + 1]) < fl[k + 2].addr;
    }
  }

  /** malloc's exact fit: block k goes. */
  lemma Without(fl: seq<Block>, base: int, k: nat)
    requires Wf(fl, base) && 1 <= k < |fl|
    ensures Wf(fl[..k] + fl[k + 1..], base)
    ensures forall x :: Covers(fl, x) <==> Covers(fl[..k] + fl[k + 1..], x) || In(fl[k], x)
  {
    assert fl[..k] + fl[k + 1..] == fl[..k] + [] + fl[k + 1..];
    OrderOfRemoved(fl, base, k);
    hide Covers;
    SpaceOfParts(fl, k, k + 1, []);
    CoversFew(fl[k..k + 1]);
    CoversFew([]);
  }

  function Tail(b: Block, n: int): Block {
    Block(b.addr + UNIT * (b.size - n), n)
  }

  /** malloc's split: the tail of block k goes. */
  lemma TailTaken(fl: seq<Block>, base: int, k: nat, n: int)
    requires Wf(fl, base) && 1 <= k < |fl| && 1 <= n < fl[k].size
    ensures Wf(fl[k := Block(fl[k].addr, fl[k].size - n)], base)
    ensures forall x :: Covers(fl, x) <==>
              Covers(fl[k := Block(fl[k].addr, fl[k].size - n)], x) || In(Tail(fl[k], n), x)
  {
    var c := Block(fl[k].addr, fl[k].size - n);
    assert fl[k := c] == fl[..k] + [c] + fl[k + 1..];
    OrderOfReplaced(fl, base, k, k + 1, c);
    hide Covers;
    SpaceOfParts(fl, k, k + 1, [c]);
    CoversFew(fl[k..k + 1]);
    CoversFew([c]);
  }

  // ---- The list is determined by its space -----------------------------------------------------------

  /** The start of a run is covered and the unit byte before it is not. */
  lemma RunBorders(fl: seq<Block>, base: int, i: nat)
    requires Wf(fl, base) && 1 <= i < |fl|
    ensures Covers(fl, fl[i].addr) && !Covers(fl, fl[i].addr - 1)
    ensures Covers(fl, End(fl[i]) - 1) && !Covers(fl, End(fl[i]))
  {
    assert In(fl[i], fl[i].addr) && In(fl[i], End(fl[i]) - 1);
    forall j: nat | j < |fl|
      ensures !In(fl[j], fl[i].addr - 1) && !In(fl[j], End(fl[i]))
    {
      if j < i {
        assert End(fl[j]) < fl[i].addr;
      } else if i < j {
        assert End(fl[i]) < fl[j].addr;
      }
    }
  }

  ghost predicate SameSpace(f: seq<Block>, g: seq<Block>) {
    forall x :: Covers(f, x) <==> Covers(g, x)
  }

  /** Equal space, equal first i blocks: the next block of f starts where g's does. */
  lemma NextStartsAlike(f: seq<Block>, g: seq<Block>, base: int, i: nat)
    requires Wf(f, base) && Wf(g, base) && SameSpace(f, g) && 1 <= i < |f| && i <= |g| && f[..i] == g[..i]
    ensures i < |g| && g[i].addr <= f[i].addr
  {
    var a := f[i].addr;
    RunBorders(f, base, i);
    assert Covers(g, a);
    var j: nat :| j < |g| && In(g[j], a);
    BelowIsOver(f, g, i);
    if j > i {
      assert End(g[i]) < g[j].addr;
    }
  }

  lemma BelowIsOver(f: seq<Block>, g: seq<Block>, i: nat)
    requires Gapped(f) && i < |f| && i <= |g| && f[..i] == g[..i]
    ensures forall j: nat :: j < i ==> !In(g[j], f[i].addr)
  {
    forall j: nat | j < i
      ensures !In(g[j], f[i].addr)
    {
      assert g[j] == g[..i][j] == f[j];
      assert End(f[j]) < f[i].addr;
    }
  }

  lemma NextEndsAlike(f: seq<Block>, g: seq<Block>, base: int, i: nat)
    requires Wf(f, base) && Wf(g, base) && SameSpace(f, g) && 1 <= i < |f| && i < |g| && f[i].addr == g[i].addr
    ensures End(f[i]) <= End(g[i])
  {
    RunBorders(g, base, i);
    assert !Covers(f, End(g[i]));
    assert !In(f[i], End(g[i]));
  }

  /** A free list is the list of maximal runs of its space: the same space gives the same list. */
  lemma {:induction false} SpaceDetermines(f: seq<Block>, g: seq<Block>, base: int, i: nat)
    requires Wf(f, base) && Wf(g, base) && SameSpace(f, g) && 1 <= i <= |f| && i <= |g| && f[..i] == g[..i]
    ensures f == g
    decreases |f| - i
  {
    hide Wf, Covers, SameSpace;
    FirstBlocks(f, g, base);
    if i < |f| {
      Mirror(f, g);
      NextStartsAlike(f, g, base, i);
      NextStartsAlike(g, f, base, i);
      NextEndsAlike(f, g, base, i);
      NextEndsAlike(g, f, base, i);
      assert f[i] == g[i];
      assert f[..i + 1] == f[..i] + [f[i]] && g[..i + 1] == g[..i] + [g[i]];
      SpaceDetermines(f, g, base, i + 1);
    } else if i < |g| {
      Mirror(f, g);
      NextStartsAlike(g, f, base, i);
    } else {
      assert f == f[..i] && g == g[..i];
    }
  }

  lemma Mirror(f: seq<Block>, g: seq<Block>)
    requires SameSpace(f, g)
    ensures SameSpace(g, f)
  {
  }

  lemma FirstBlocks(f: seq<Block>, g: seq<Block>, base: int)
    requires Wf(f, base) && Wf(g, base)
    ensures f[..1] == g[..1]
  {
  }
}
