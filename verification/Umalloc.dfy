/**
 umalloc.c: malloc, free and morecore over headers linked through memory. Headers sit at byte
 addresses; the free ones form a cycle through base.
 */
module Umalloc {
  import opened FreeList

  const UINT := 0x1_0000_0000
  const USERTOP := 0xA_0000
  const INT_LIMIT := 0x8000_0000

  datatype Header = Header(ptr: int, size: int)

  /** OutOfRange: sbrk's argument has overflowed its int, and the code goes on without memory. */
  datatype Result = Got(ap: int) | NoMemory | OutOfRange

  /** nunits: header included, computed in 32 bits. */
  function Units(nbytes: int): int {
    (nbytes + UNIT - 1) % UINT / UNIT + 1
  }

  /** The block is large enough exactly when the rounding does not wrap; otherwise it has no payload at all. */
  lemma UnitsSuffice(nbytes: int)
    requires 0 <= nbytes < UINT
    ensures 1 <= Units(nbytes)
    ensures UNIT * (Units(nbytes) - 1) >= nbytes <==> nbytes <= UINT - UNIT
    ensures nbytes > UINT - UNIT ==> Units(nbytes) == 1
    ensures nbytes <= UINT - UNIT ==> UNIT * (Units(nbytes) - 2) < nbytes
  {
  }

  function More(nunits: int): int {
    if nunits < 4096 then 4096 else nunits
  }

  function Next(i: nat, n: nat): nat {
    if i + 1 >= n then 0 else i + 1
  }

  /** Steps along the cycle from i to k. */
  function Distance(i: nat, k: nat, n: nat): int {
    if i <= k then k - i else n - i + k
  }

  predicate LinkedAt(mem: map<int, Header>, fl: seq<Block>, i: nat) {
    i < |fl| && fl[i].addr in mem && mem[fl[i].addr] == Header(fl[Next(i, |fl|)].addr, fl[i].size)
  }

  /** ptr and size of every free header, base included: one cycle in address order. */
  ghost predicate Linked(mem: map<int, Header>, fl: seq<Block>) {
    forall i: nat :: i < |fl| ==> LinkedAt(mem, fl, i)
  }

  /** The blocks in the callers' hands: inside the heap, apart from each other and from the free ones. */
  ghost predicate Held(mem: map<int, Header>, live: map<int, int>, base: int, brk: int) {
    && (forall a <- live :: live[a] >= 1 && base + UNIT <= a && a + UNIT * live[a] <= brk)
    && (forall a <- live :: a in mem && mem[a].size == live[a])
    && forall a <- live, b <- live :: a != b ==> Apart(Block(a, live[a]), Block(b, live[b]))
  }

  ghost predicate Clear(fl: seq<Block>, b: Block) {
    forall i: nat :: i < |fl| ==> Apart(fl[i], b)
  }

  ghost predicate AllClear(fl: seq<Block>, live: map<int, int>) {
    forall a <- live :: Clear(fl, Block(a, live[a]))
  }

  ghost predicate Within(fl: seq<Block>, brk: int) {
    forall i: nat :: i < |fl| ==> End(fl[i]) <= brk
  }

  predicate At(fl: seq<Block>, i: nat, a: int) {
    i < |fl| && fl[i].addr == a
  }

  predicate Fits(fl: seq<Block>, n: int, i: nat) {
    i < |fl| && fl[i].size >= n
  }

  ghost predicate SomeFits(fl: seq<Block>, n: int) {
    exists i: nat :: Fits(fl, n, i)
  }

  // ---- free: the search and the relinking -------------------------------------------------------------

  /** The address order has exactly one place for a block apart from all others. */
  lemma {:induction false} PlaceExists(fl: seq<Block>, base: int, b: Block, n: nat) returns (k: nat)
    requires Wf(fl, base) && Clear(fl, b) && b.size >= 1 && base + UNIT <= b.addr && 1 <= n <= |fl|
    requires n < |fl| ==> End(b) <= fl[n].addr
    ensures Place(fl, k, b)
  {
    k := n - 1;
    if End(fl[k]) > b.addr {
      assert Apart(fl[k], b);
      k := PlaceExists(fl, base, b, n - 1);
    }
  }

  /** The two tests of free's loop, at p with successor q. */
  predicate Stops(p: int, q: int, bp: int) {
    (bp > p && bp < q) || (p >= q && (bp > p || bp < q))
  }

  /** The loop stops at the place and nowhere else. */
  lemma StopsAtPlace(fl: seq<Block>, base: int, k: nat, b: Block, i: nat)
    requires Wf(fl, base) && Place(fl, k, b) && b.size >= 1 && base + UNIT <= b.addr && i < |fl|
    ensures Stops(fl[i].addr, fl[Next(i, |fl|)].addr, b.addr) <==> i == k
  {
    OrderedAddrs(fl, base);
    if i < k {
      assert fl[i + 1].addr <= fl[k].addr;
    } else if k < i {
      assert End(b) <= fl[k + 1].addr <= fl[i].addr;
    }
  }

  lemma OrderedAddrs(fl: seq<Block>, base: int)
    requires Wf(fl, base)
    ensures forall i: nat, j: nat :: i < j < |fl| ==> fl[i].addr < fl[j].addr
  {
    forall i: nat, j: nat | i < j < |fl|
      ensures fl[i].addr < fl[j].addr
    {
      assert End(fl[i]) < fl[j].addr;
    }
  }

  /** The header that follows the block put at place k. */
  function Follower(fl: seq<Block>, k: nat, b: Block): int
    requires |fl| > 0
  {
    var hi := Hi(fl, k, b);
    if hi < |fl| then fl[hi].addr else fl[0].addr
  }

  /** Links after free's assignments: block k, or b itself, is the merged block's header. */
  ghost predicate Relinked(was: map<int, Header>, mem: map<int, Header>, fl: seq<Block>, k: nat, b: Block) {
    && k < |fl|
    && (forall a <- was :: a != b.addr && a != fl[k].addr ==> a in mem && mem[a] == was[a])
    && var c := MergedBlock(fl, k, b);
       && fl[k].addr in mem && c.addr in mem && mem[c.addr] == Header(Follower(fl, k, b), c.size)
       && (!JoinsPrevious(fl, k, b) ==> mem[fl[k].addr] == Header(b.addr, fl[k].size))
  }

  lemma UntouchedLink(was: map<int, Header>, mem: map<int, Header>, fl: seq<Block>, base: int, k: nat, b: Block, i: nat)
    requires Wf(fl, base) && Linked(was, fl) && Clear(fl, b) && b.size >= 1 && base + UNIT <= b.addr
    requires Relinked(was, mem, fl, k, b) && i < |fl| && i != k
    ensures fl[i].addr in mem && mem[fl[i].addr] == Header(fl[Next(i, |fl|)].addr, fl[i].size)
  {
    assert LinkedAt(was, fl, i);
    OrderedAddrs(fl, base);
    NotThere(fl, base, b, i);
  }

  /** A cycle with blocks lo..hi replaced by one is linked if the new block and the one before it are. */
  lemma LinkedParts(mem: map<int, Header>, fl: seq<Block>, lo: nat, hi: nat, c: Block)
    requires 1 <= lo <= hi <= |fl|
    requires forall i: nat :: i < |fl| && (i < lo - 1 || i >= hi) ==> LinkedAt(mem, fl, i)
    requires fl[lo - 1].addr in mem && mem[fl[lo - 1].addr] == Header(c.addr, fl[lo - 1].size)
    requires c.addr in mem && mem[c.addr] == Header(if hi < |fl| then fl[hi].addr else fl[0].addr, c.size)
    ensures Linked(mem, fl[..lo] + [c] + fl[hi..])
  {
    var r := fl[..lo] + [c] + fl[hi..];
    assert |r| == lo + 1 + |fl| - hi;
    assert forall i: nat :: i < lo ==> r[i] == fl[i];
    assert r[lo] == c;
    assert forall i: nat :: lo < i < |r| ==> r[i] == fl[i - lo - 1 + hi];
    forall i: nat | i < |r|
      ensures LinkedAt(mem, r, i)
    {
      if i + 1 < lo {
        assert LinkedAt(mem, fl, i);
      } else if i > lo {
        assert LinkedAt(mem, fl, i - lo - 1 + hi);
      }
    }
  }

  lemma RelinkedIsLinked(was: map<int, Header>, mem: map<int, Header>, fl: seq<Block>, base: int, k: nat, b: Block)
    requires Wf(fl, base) && Linked(was, fl) && b.size >= 1 && base + UNIT <= b.addr
    requires Clear(fl, b) && Relinked(was, mem, fl, k, b)
    ensures Linked(mem, Inserted(fl, k, b))
  {
    var lo := Lo(fl, k, b);
    FirstIsBase(fl, base);
    forall i: nat | i < |fl| && i != k
      ensures LinkedAt(mem, fl, i)
    {
      UntouchedLink(was, mem, fl, base, k, b, i);
    }
    hide Wf, Linked, Clear;
    if lo == k {
      assert LinkedAt(mem, fl, k - 1);
    }
    LinkedParts(mem, fl, lo, Hi(fl, k, b), MergedBlock(fl, k, b));
  }

  lemma FirstIsBase(fl: seq<Block>, base: int)
    requires Wf(fl, base)
    ensures |fl| > 0 && fl[0] == Block(base, 0)
  {
  }

  lemma NotThere(fl: seq<Block>, base: int, b: Block, i: nat)
    requires Wf(fl, base) && Clear(fl, b) && b.size >= 1 && base + UNIT <= b.addr && i < |fl|
    ensures fl[i].addr != b.addr
  {
    assert Apart(fl[i], b);
  }

  class Heap {
    const base: int
    var freep: int
    var mem: map<int, Header>
    var brk: int
    ghost var fl: seq<Block>
    ghost var live: map<int, int>

    ghost predicate Valid()
      reads this
    {
      && 0 < base && base + UNIT <= brk <= USERTOP
      && (freep == 0 ==> fl == [] && live == map[])
      && (freep != 0 ==> Wf(fl, base) && Linked(mem, fl) && exists i: nat :: At(fl, i, freep))
      && Within(fl, brk) && Held(mem, live, base, brk) && AllClear(fl, live)
    }

    /** A process image whose break is brk; the static header is inside it. */
    constructor (base: int, brk: int)
      requires 0 < base && base + UNIT <= brk <= USERTOP
      ensures Valid() && fl == [] && live == map[] && this.brk == brk
    {
      this.base := base;
      this.brk := brk;
      freep := 0;
      mem := map[];
      fl := [];
      live := map[];
    }

    /** free's for loop. */
    method FindPlace(bp: int, ghost b: Block) returns (p: int, ghost k: nat)
      requires freep != 0 && Wf(fl, base) && Linked(mem, fl) && exists i: nat :: At(fl, i, freep)
      requires b.addr == bp && b.size >= 1 && base + UNIT <= bp && Clear(fl, b)
      ensures Place(fl, k, b) && At(fl, k, p)
      ensures p in mem && (if p >= mem[p].ptr then bp > p || bp < mem[p].ptr else p < bp < mem[p].ptr)
    {
      hide Wf, Place, Clear;
      ghost var place := PlaceAnywhere(fl, base, b);
      p := freep;
      ghost var i: nat :| At(fl, i, freep);
      assert LinkedAt(mem, fl, i);
      while !(bp > p && bp < mem[p].ptr)
        invariant At(fl, i, p) && LinkedAt(mem, fl, i)
        decreases Distance(i, place, |fl|)
      {
        StopsAtPlace(fl, base, place, b, i);
        if p >= mem[p].ptr && (bp > p || bp < mem[p].ptr) {
          return p, i;
        }
        p := mem[p].ptr;
        i := Next(i, |fl|);
        assert LinkedAt(mem, fl, i);
      }
      StopsAtPlace(fl, base, place, b, i);
      return p, i;
    }

    /** free's two conditional relinkings. */
    method Relink(p: int, bp: int, ghost k: nat, ghost b: Block)
      requires Wf(fl, base) && Linked(mem, fl) && Place(fl, k, b) && b.size >= 1 && base + UNIT <= bp && Clear(fl, b)
      requires At(fl, k, p) && b.addr == bp && bp in mem && mem[bp].size == b.size
      modifies this`mem
      ensures Linked(mem, Inserted(fl, k, b))
      ensures forall a <- old(mem) :: a != bp && a != p ==> a in mem && mem[a] == old(mem)[a]
    {
      hide Wf, Linked, Place, Clear, Inserted;
      ghost var was := mem;
      Neighbours(mem, fl, base, k, b);
      var q := mem[p].ptr;
      if bp + UNIT * mem[bp].size == q {
        mem := mem[bp := Header(mem[q].ptr, mem[bp].size + mem[q].size)];
      } else {
        mem := mem[bp := Header(q, mem[bp].size)];
      }
      if p + UNIT * mem[p].size == bp {
        mem := mem[p := Header(mem[bp].ptr, mem[p].size + mem[bp].size)];
      } else {
        mem := mem[p := Header(bp, mem[p].size)];
      }
      assert Relinked(was, mem, fl, k, b);
      RelinkedIsLinked(was, mem, fl, base, k, b);
    }

    /** free: the block's space joins the free space; nothing else changes hands. */
    method Free(ap: int)
      requires Valid() && ap - UNIT in live
      modifies this
      ensures Valid() && brk == old(brk) && live == old(live) - {ap - UNIT} && freep != 0
      ensures forall x :: Covers(fl, x) <==> old(Covers(fl, x)) || In(Block(ap - UNIT, old(live)[ap - UNIT]), x)
      ensures forall n :: old(SomeFits(fl, n)) ==> SomeFits(fl, n)
      ensures SomeFits(fl, old(live)[ap - UNIT])
    {
      hide Wf, Linked, Place, Clear, Inserted, Covers, SomeFits, Within, AllClear;
      var bp := ap - UNIT;
      ghost var b := Block(bp, live[bp]);
      ghost var was := mem;
      HeldIsClear(fl, live, bp);
      var p;
      ghost var k;
      p, k := FindPlace(bp, b);
      Relink(p, bp, k, b);
      InsertedIsFreeList(fl, base, k, b);
      InsertedStaysInside(fl, base, k, b, brk, live);
      InsertedKeepsRoom(fl, base, k, b);
      AddressAboveBase(fl, base, k);
      HeldElsewhere(was, mem, live, base, brk, fl, k, bp);
      fl := Inserted(fl, k, b);
      live := live - {bp};
      freep := p;
    }

    /** sbrk called by the program itself, refused past the top; the next piece need not touch the last one. */
    method Grow(n: int)
      requires Valid() && n >= 0
      modifies this`brk
      ensures Valid() && brk == if old(brk) + n <= USERTOP then old(brk) + n else old(brk)
    {
      if brk + n <= USERTOP {
        brk := brk + n;
      }
    }

    lemma Formed()
      requires Valid() && freep != 0
      ensures Wf(fl, base)
    {
    }

    /** morecore; grant says whether the kernel has the pages. */
    method Morecore(nunits: int, grant: bool) returns (r: Result)
      requires Valid() && freep != 0 && nunits >= 1
      modifies this
      ensures Valid() && freep != 0 && live == old(live)
      ensures r == (if UNIT * More(nunits) >= INT_LIMIT then OutOfRange
                    else if grant && old(brk) + UNIT * More(nunits) <= USERTOP then Got(freep) else NoMemory)
      ensures !r.Got? ==> fl == old(fl) && brk == old(brk) && freep == old(freep)
      ensures r.Got? ==> brk == old(brk) + UNIT * More(nunits) && SomeFits(fl, nunits)
      ensures forall x :: Covers(fl, x) <==> old(Covers(fl, x)) || old(brk) <= x < brk
    {
      hide Wf, Linked, Covers, Within, AllClear, SomeFits;
      var nu := More(nunits);
      if UNIT * nu >= INT_LIMIT {
        return OutOfRange;
      }
      if !grant || brk + UNIT * nu > USERTOP {
        return NoMemory;
      }
      var hp := brk;
      ghost var was := live;
      NewPiece(mem, fl, live, base, brk, nu);
      brk := brk + UNIT * nu;
      mem := mem[hp := Header(0, nu)];
      live := live[hp := nu];
      Free(hp + UNIT);
      LargerFits(fl, nu, nunits);
      assert live == was;
      return Got(freep);
    }

    /** malloc's exact fit: block i leaves the list. */
    method TakeWhole(prevp: int, p: int, nunits: int, ghost i: nat) returns (ap: int)
      requires Valid() && freep != 0 && nunits >= 1 && 1 <= i < |fl| && At(fl, i, p) && At(fl, i - 1, prevp)
               && fl[i].size == nunits
      modifies this
      ensures Valid() && freep == prevp && brk == old(brk)
      ensures ap - UNIT !in old(live) && live == old(live)[ap - UNIT := nunits]
      ensures forall x :: old(Covers(fl, x)) <==> Covers(fl, x) || In(Block(ap - UNIT, nunits), x)
    {
      Unlinked(mem, fl, base, i);
      OrderedAddrs(fl, base);
      ghost var t := Tail(fl[i], nunits);
      TailIsFree(mem, fl, live, base, brk, i, nunits);
      AddressAboveBase(fl, base, i - 1);
      Without(fl, base, i);
      WithoutStaysClear(fl, base, brk, live, i);
      hide Wf, Linked, Covers, Within, AllClear, Held;
      ghost var m := mem;
      mem := mem[prevp := mem[prevp].(ptr := mem[p].ptr)];
      OtherHeadersKept(m, mem, live, base, brk, fl, i - 1, t);
      fl := fl[..i] + fl[i + 1..];
      freep := prevp;
      live := live[p := nunits];
      ap := p + UNIT;
    }

    /** malloc's split: the tail of block i is handed out. */
    method TakeTail(prevp: int, p: int, nunits: int, ghost i: nat) returns (ap: int)
      requires Valid() && freep != 0 && 1 <= i < |fl| && At(fl, i, p) && At(fl, i - 1, prevp)
               && 1 <= nunits < fl[i].size
      modifies this
      ensures Valid() && freep == prevp && brk == old(brk)
      ensures ap - UNIT !in old(live) && live == old(live)[ap - UNIT := nunits]
      ensures forall x :: old(Covers(fl, x)) <==> Covers(fl, x) || In(Block(ap - UNIT, nunits), x)
    {
      hide Wf, Covers, Within, AllClear, Held, Linked;
      LinkAt(mem, fl, i);
      ghost var t := Tail(fl[i], nunits);
      TailIsFree(mem, fl, live, base, brk, i, nunits);
      AddressAboveBase(fl, base, i - 1);
      TailTaken(fl, base, i, nunits);
      ShrunkStaysClear(fl, base, brk, live, i, nunits);
      ghost var m := mem;
      mem := mem[p := mem[p].(size := mem[p].size - nunits)];
      var q := p + UNIT * mem[p].size;
      mem := mem[q := Header(if q in mem then mem[q].ptr else 0, nunits)];
      assert q == t.addr && q > p;
      Shrunk(m, mem, fl, base, i, nunits);
      OtherHeadersKept(m, mem, live, base, brk, fl, i, t);
      fl := fl[i := Block(fl[i].addr, fl[i].size - nunits)];
      freep := prevp;
      live := live[q := nunits];
      ap := q + UNIT;
    }

    /** malloc's first call: base becomes the only member of the cycle. */
    method StartList()
      requires Valid() && freep == 0
      modifies this`mem, this`freep, this`fl
      ensures Valid() && freep == base && fl == [Block(base, 0)]
    {
      mem := mem[base := Header(base, 0)];
      freep := base;
      fl := [Block(base, 0)];
      assert At(fl, 0, freep) && LinkedAt(mem, fl, 0);
    }

    method Take(prevp: int, p: int, nunits: int, ghost i: nat) returns (ap: int)
      requires Valid() && freep != 0 && nunits >= 1 && At(fl, i, p) && At(fl, Previous(i, |fl|), prevp)
               && Fits(fl, nunits, i)
      modifies this
      ensures Valid() && freep == prevp && brk == old(brk)
      ensures ap - UNIT !in old(live) && live == old(live)[ap - UNIT := nunits]
      ensures forall x :: old(Covers(fl, x)) <==> Covers(fl, x) || In(Block(ap - UNIT, nunits), x)
    {
      LinkAt(mem, fl, i);
      FirstIsBase(fl, base);
      hide Valid, Covers;
      if mem[p].size == nunits {
        ap := TakeWhole(prevp, p, nunits, i);
      } else {
        ap := TakeTail(prevp, p, nunits, i);
      }
    }

    /** Where malloc's loop stands: p is block i, prevp the block before it, and block f is freep. */
    ghost predicate Cursor(p: int, prevp: int, f: nat, i: nat)
      reads this
    {
      && freep != 0 && At(fl, f, freep) && At(fl, i, p) && At(fl, Previous(i, |fl|), prevp)
      && f < |fl| && LinkedAt(mem, fl, i) && fl[i].size == mem[p].size && mem[p].ptr == fl[Next(i, |fl|)].addr
    }

    /** The loop's step to the next block, from p at block i with freep at block f. */
    lemma NextCursor(p: int, f: nat, i: nat)
      requires Valid() && freep != 0 && At(fl, f, freep) && At(fl, i, p)
      ensures p in mem && Cursor(mem[p].ptr, p, f, Next(i, |fl|))
    {
      LinkAt(mem, fl, i);
      LinkAt(mem, fl, Next(i, |fl|));
    }

    /** malloc's loop over the cycle, from freep's successor back to freep, and once more after morecore. */
    method Search(nunits: int, grant: bool) returns (r: Result)
      requires Valid() && freep != 0 && nunits >= 1
      modifies this
      ensures Valid()
      ensures r.Got? ==> r.ap - UNIT !in old(live) && live == old(live)[r.ap - UNIT := nunits]
      ensures r.Got? ==> forall x :: Covers(fl, x) || In(Block(r.ap - UNIT, nunits), x) <==>
                old(Covers(fl, x)) || old(brk) <= x < brk
      ensures !r.Got? ==> live == old(live) && fl == old(fl)
      ensures r == MallocOutcome(old(SomeFits(fl, nunits)), nunits, grant, old(brk), r)
      ensures brk == old(brk) + (if r.Got? && !old(SomeFits(fl, nunits)) then UNIT * More(nunits) else 0)
    {
      hide Wf, Covers, SomeFits, Searched, Between;
      ghost var start := fl;
      ghost var f: nat :| At(fl, f, freep);
      NextCursor(freep, f, f);
      SearchStarts(fl, nunits, f);
      ghost var i, grown := Next(f, |fl|), false;
      var prevp := freep;
      var p := mem[prevp].ptr;
      hide Valid;
      while true
        invariant Valid() && Cursor(p, prevp, f, i)
        invariant live == old(live) && Searched(fl, nunits, f, i)
        invariant !grown ==> fl == start && brk == old(brk)
        invariant grown ==> SomeFits(fl, nunits) && !SomeFits(start, nunits)
        invariant grown ==> Granted(nunits, grant, old(brk)) && brk == old(brk) + UNIT * More(nunits)
        invariant forall x :: Covers(fl, x) <==> Covers(start, x) || old(brk) <= x < brk
        decreases if grown then 0 else 1, Distance(i, f, |fl|)
      {
        if mem[p].size >= nunits {
          FitsMeans(fl, nunits, i);
          var ap := Take(prevp, p, nunits, i);
          return Got(ap);
        }
        if p == freep {
          OneIndex(i, f);
          WholeCycleSearched(fl, nunits, f);
          r := Morecore(nunits, grant);
          if !r.Got? {
            return r;
          }
          p := freep;
          grown := true;
          f := FreepIndex();
          i := f;
          SearchStarts(fl, nunits, f);
        } else {
          SearchedOne(fl, nunits, f, i);
        }
        NextCursor(p, f, i);
        prevp := p;
        p := mem[p].ptr;
        i := Next(i, |fl|);
      }
    }

    lemma FreepIndex() returns (f: nat)
      requires Valid() && freep != 0
      ensures At(fl, f, freep)
    {
      f :| At(fl, f, freep);
    }

    lemma OneIndex(i: nat, f: nat)
      requires Valid() && freep != 0 && At(fl, i, freep) && At(fl, f, freep)
      ensures i == f
    {
      OrderedAddrs(fl, base);
    }

    /**
     malloc. A block is handed out whose header was nobody's and whose units were free before, or have
     just come from the kernel; without one, no free block was large enough and the kernel gave nothing.
     The kernel is asked at most once, and only when no free block is large enough.
     */
    method Malloc(nbytes: int, grant: bool) returns (r: Result)
      requires Valid() && 0 <= nbytes < UINT
      modifies this
      ensures Valid()
      ensures r.Got? ==> r.ap - UNIT !in old(live) && live == old(live)[r.ap - UNIT := Units(nbytes)]
      ensures r.Got? ==> forall x :: Covers(fl, x) || In(Block(r.ap - UNIT, Units(nbytes)), x) <==>
                old(Covers(fl, x)) || old(brk) <= x < brk
      ensures !r.Got? ==> live == old(live) && forall x :: Covers(fl, x) <==> old(Covers(fl, x))
      ensures r == MallocOutcome(old(SomeFits(fl, Units(nbytes))), Units(nbytes), grant, old(brk), r)
      ensures brk == old(brk) + (if r.Got? && !old(SomeFits(fl, Units(nbytes))) then UNIT * More(Units(nbytes)) else 0)
    {
      hide Wf, Linked, Covers, Within, AllClear, Held, SomeFits, Units;
      UnitsSuffice(nbytes);
      var nunits := Units(nbytes);
      NothingInTheStart(base);
      NothingInTheEmpty();
      if freep == 0 {
        StartList();
      }
      hide Valid;
      r := Search(nunits, grant);
    }
  }

  predicate Granted(nunits: int, grant: bool, brk: int) {
    UNIT * More(nunits) < INT_LIMIT && grant && brk + UNIT * More(nunits) <= USERTOP
  }

  /** Which of its outcomes malloc has; the address is malloc's own choice. */
  function MallocOutcome(fits: bool, nunits: int, grant: bool, brk: int, r: Result): Result {
    if fits || Granted(nunits, grant, brk) then Got(if r.Got? then r.ap else 0)
    else if UNIT * More(nunits) >= INT_LIMIT then OutOfRange
    else NoMemory
  }

  function Previous(i: nat, n: nat): nat {
    if i > 0 then i - 1 else if n > 0 then n - 1 else 0
  }

  /** j lies on the cycle after f and before i. */
  predicate Between(f: nat, j: nat, i: nat) {
    if f < i then f < j < i else j > f || j < i
  }

  /** The blocks that malloc's loop has passed do not fit. */
  ghost predicate Searched(fl: seq<Block>, n: int, f: nat, i: nat) {
    forall j: nat :: j < |fl| && Between(f, j, i) ==> !Fits(fl, n, j)
  }

  lemma SearchStarts(fl: seq<Block>, n: int, f: nat)
    requires f < |fl|
    ensures Searched(fl, n, f, Next(f, |fl|))
  {
  }

  lemma SearchedOne(fl: seq<Block>, n: int, f: nat, i: nat)
    requires f < |fl| && i < |fl| && i != f && Searched(fl, n, f, i) && !Fits(fl, n, i)
    ensures Searched(fl, n, f, Next(i, |fl|))
  {
  }

  lemma WholeCycleSearched(fl: seq<Block>, n: int, f: nat)
    requires f < |fl| && Searched(fl, n, f, f) && !Fits(fl, n, f)
    ensures !SomeFits(fl, n)
  {
  }

  lemma FitsMeans(fl: seq<Block>, n: int, i: nat)
    requires Fits(fl, n, i)
    ensures SomeFits(fl, n)
  {
  }

  lemma NothingInTheStart(base: int)
    ensures forall x :: !Covers([Block(base, 0)], x)
    ensures forall n :: n >= 1 ==> !SomeFits([Block(base, 0)], n)
  {
  }

  lemma NothingInTheEmpty()
    ensures forall x :: !Covers([], x)
    ensures forall n :: !SomeFits([], n)
  {
  }

  lemma NewPiece(mem: map<int, Header>, fl: seq<Block>, live: map<int, int>, base: int, brk: int, nu: int)
    requires Within(fl, brk) && Held(mem, live, base, brk) && AllClear(fl, live) && nu >= 1 && base + UNIT <= brk
    requires |fl| > 0 ==> Wf(fl, base) && Linked(mem, fl)
    ensures brk !in live && Within(fl, brk + UNIT * nu)
            && Held(mem[brk := Header(0, nu)], live[brk := nu], base, brk + UNIT * nu)
    ensures AllClear(fl, live[brk := nu])
    ensures |fl| > 0 ==> Linked(mem[brk := Header(0, nu)], fl)
  {
    if |fl| > 0 {
      var m := mem[brk := Header(0, nu)];
      forall i: nat | i < |fl|
        ensures LinkedAt(m, fl, i)
      {
        assert LinkedAt(mem, fl, i);
        assert End(fl[i]) <= brk;
      }
    }
  }

  lemma LargerFits(fl: seq<Block>, n: int, m: int)
    requires SomeFits(fl, n) && m <= n
    ensures SomeFits(fl, m)
  {
    var i: nat :| Fits(fl, n, i);
    assert Fits(fl, m, i);
  }

  /** The tail of a free block is nobody's. */
  lemma TailIsFree(mem: map<int, Header>, fl: seq<Block>, live: map<int, int>, base: int, brk: int, i: nat, n: int)
    requires Wf(fl, base) && Held(mem, live, base, brk) && AllClear(fl, live) && Within(fl, brk)
    requires 1 <= i < |fl| && 1 <= n <= fl[i].size
    ensures var t := Tail(fl[i], n);
            && t.addr !in live && base + UNIT <= t.addr && End(t) <= brk
            && forall a <- live :: Apart(t, Block(a, live[a]))
  {
    var t := Tail(fl[i], n);
    forall a <- live
      ensures Apart(t, Block(a, live[a])) && a != t.addr
    {
      HeldIsClear(fl, live, a);
      assert Apart(fl[i], Block(a, live[a]));
    }
  }

  lemma LinkAt(mem: map<int, Header>, fl: seq<Block>, i: nat)
    requires Linked(mem, fl) && i < |fl|
    ensures LinkedAt(mem, fl, i)
  {
  }

  lemma Unlinked(mem: map<int, Header>, fl: seq<Block>, base: int, i: nat)
    requires Wf(fl, base) && Linked(mem, fl) && 1 <= i < |fl|
    ensures fl[i - 1].addr in mem && fl[i].addr in mem && mem[fl[i].addr].size == fl[i].size
    ensures var p := fl[i - 1].addr;
            Linked(mem[p := mem[p].(ptr := mem[fl[i].addr].ptr)], fl[..i] + fl[i + 1..])
  {
    assert LinkedAt(mem, fl, i) && LinkedAt(mem, fl, i - 1);
    OrderedAddrs(fl, base);
    var p := fl[i - 1].addr;
    var m := mem[p := mem[p].(ptr := mem[fl[i].addr].ptr)];
    forall j: nat | j < |fl| && j != i && j != i - 1
      ensures LinkedAt(m, fl, j)
    {
      assert LinkedAt(mem, fl, j);
    }
    hide Wf, Linked;
    LinkedWithout(m, fl, i);
  }

  lemma LinkedWithout(mem: map<int, Header>, fl: seq<Block>, i: nat)
    requires 1 <= i < |fl|
    requires forall j: nat :: j < |fl| && j != i && j != i - 1 ==> LinkedAt(mem, fl, j)
    requires fl[i - 1].addr in mem && mem[fl[i - 1].addr] == Header(fl[Next(i, |fl|)].addr, fl[i - 1].size)
    ensures Linked(mem, fl[..i] + fl[i + 1..])
  {
    var r := fl[..i] + fl[i + 1..];
    assert |r| == |fl| - 1;
    assert forall j: nat :: j < i ==> r[j] == fl[j];
    assert forall j: nat :: i <= j < |r| ==> r[j] == fl[j + 1];
    forall j: nat | j < |r|
      ensures LinkedAt(mem, r, j)
    {
      if j + 1 < i {
        assert LinkedAt(mem, fl, j);
      } else if j >= i {
        assert LinkedAt(mem, fl, j + 1);
      }
    }
  }

  lemma Shrunk(mem: map<int, Header>, m: map<int, Header>, fl: seq<Block>, base: int, i: nat, n: int)
    requires Wf(fl, base) && Linked(mem, fl) && 1 <= i < |fl| && 1 <= n < fl[i].size
    requires fl[i].addr in mem && fl[i].addr in m && m[fl[i].addr] == mem[fl[i].addr].(size := fl[i].size - n)
    requires forall a <- mem :: a != fl[i].addr && a != Tail(fl[i], n).addr ==> a in m && m[a] == mem[a]
    ensures Linked(m, fl[i := Block(fl[i].addr, fl[i].size - n)])
  {
    var r := fl[i := Block(fl[i].addr, fl[i].size - n)];
    OrderedAddrs(fl, base);
    forall j: nat | j < |r|
      ensures LinkedAt(m, r, j)
    {
      assert LinkedAt(mem, fl, j);
      if j < i {
        assert End(fl[j]) < fl[i].addr;
      } else if i < j {
        assert End(fl[i]) < fl[j].addr;
      }
    }
  }

  lemma WithoutStaysClear(fl: seq<Block>, base: int, brk: int, live: map<int, int>, i: nat)
    requires Wf(fl, base) && Within(fl, brk) && AllClear(fl, live) && 1 <= i < |fl| && fl[i].addr !in live
    ensures Within(fl[..i] + fl[i + 1..], brk) && AllClear(fl[..i] + fl[i + 1..], live[fl[i].addr := fl[i].size])
    ensures At(fl[..i] + fl[i + 1..], i - 1, fl[i - 1].addr)
  {
    var r := fl[..i] + fl[i + 1..];
    assert forall j: nat :: j < |r| ==> r[j] == if j < i then fl[j] else fl[j + 1];
  }

  lemma ShrunkStaysClear(fl: seq<Block>, base: int, brk: int, live: map<int, int>, i: nat, n: int)
    requires Wf(fl, base) && Within(fl, brk) && AllClear(fl, live) && 1 <= i < |fl| && 1 <= n < fl[i].size
    requires Tail(fl[i], n).addr !in live
    ensures var r := fl[i := Block(fl[i].addr, fl[i].size - n)];
            && Within(r, brk) && AllClear(r, live[Tail(fl[i], n).addr := n]) && At(r, i - 1, fl[i - 1].addr)
  {
    var r := fl[i := Block(fl[i].addr, fl[i].size - n)];
    forall j: nat | j < |r|
      ensures End(r[j]) <= brk && Apart(r[j], Tail(fl[i], n))
    {
      if j < i {
        assert End(fl[j]) < fl[i].addr;
      } else if i < j {
        assert End(fl[i]) < fl[j].addr;
      }
    }
  }

  /** Writing the header of free block j and of the block t taken touches no held block. */
  lemma OtherHeadersKept(was: map<int, Header>, mem: map<int, Header>, live: map<int, int>, base: int, brk: int,
          fl: seq<Block>, j: nat, t: Block)
    requires Held(was, live, base, brk) && AllClear(fl, live) && Wf(fl, base) && j < |fl|
    requires forall a <- was :: a != t.addr && a != fl[j].addr ==> a in mem && mem[a] == was[a]
    requires t.addr !in live && t.size >= 1 && base + UNIT <= t.addr && End(t) <= brk && t.addr in mem
             && mem[t.addr].size == t.size
    requires forall a <- live :: Apart(t, Block(a, live[a]))
    ensures Held(mem, live[t.addr := t.size], base, brk)
  {
    forall a <- live
      ensures a != fl[j].addr
    {
      HeldIsClear(fl, live, a);
      assert Apart(fl[j], Block(a, live[a]));
    }
  }

  lemma AddressAboveBase(fl: seq<Block>, base: int, i: nat)
    requires Wf(fl, base) && i < |fl|
    ensures fl[i].addr >= base
  {
  }

  lemma HeldIsClear(fl: seq<Block>, live: map<int, int>, a: int)
    requires AllClear(fl, live) && a in live
    ensures Clear(fl, Block(a, live[a]))
  {
  }

  /** No header of a held block is written by free. */
  lemma HeldElsewhere(was: map<int, Header>, mem: map<int, Header>, live: map<int, int>, base: int, brk: int,
          fl: seq<Block>, k: nat, bp: int)
    requires Held(was, live, base, brk) && AllClear(fl, live) && Wf(fl, base) && k < |fl|
    requires forall a <- was :: a != bp && a != fl[k].addr ==> a in mem && mem[a] == was[a]
    ensures Held(mem, live - {bp}, base, brk)
  {
    forall a <- live
      ensures a != fl[k].addr
    {
      HeldIsClear(fl, live, a);
      assert Apart(fl[k], Block(a, live[a]));
    }
  }

  /** What free reads around the place: the successor and its own successor, none of them the block itself. */
  lemma Neighbours(mem: map<int, Header>, fl: seq<Block>, base: int, k: nat, b: Block)
    requires Wf(fl, base) && Linked(mem, fl) && Place(fl, k, b) && b.size >= 1 && base + UNIT <= b.addr && Clear(fl, b)
    ensures fl[k].addr in mem && fl[k].addr < b.addr && mem[fl[k].addr].size == fl[k].size
    ensures var q := mem[fl[k].addr].ptr;
            && q == fl[Next(k, |fl|)].addr && q in mem && q != b.addr && (JoinsNext(fl, k, b) <==> End(b) == q)
            && (JoinsNext(fl, k, b) ==> mem[q] == Header(Follower(fl, k, b), fl[k + 1].size) && q != fl[k].addr)
            && (!JoinsNext(fl, k, b) ==> q == Follower(fl, k, b))
  {
    assert LinkedAt(mem, fl, k);
    assert LinkedAt(mem, fl, Next(k, |fl|));
    NotThere(fl, base, b, Next(k, |fl|));
    OrderedAddrs(fl, base);
  }

  lemma PlaceAnywhere(fl: seq<Block>, base: int, b: Block) returns (k: nat)
    requires Wf(fl, base) && Clear(fl, b) && b.size >= 1 && base + UNIT <= b.addr
    ensures Place(fl, k, b)
  {
    k := PlaceExists(fl, base, b, |fl|);
  }

  lemma InsertedAt(fl: seq<Block>, k: nat, b: Block, i: nat)
    requires k < |fl| && i < |Inserted(fl, k, b)|
    ensures var r := Inserted(fl, k, b)[i];
            var lo, hi := Lo(fl, k, b), Hi(fl, k, b);
            r == if i < lo then fl[i] else if i == lo then MergedBlock(fl, k, b) else fl[i - lo - 1 + hi]
  {
  }

  /** Whatever lies apart from the parts lies apart from the merged block. */
  lemma MergedApart(fl: seq<Block>, k: nat, b: Block, c: Block)
    requires k < |fl| && c.size >= 1 && Clear(fl, c) && Apart(b, c) && b.size >= 1
    ensures Apart(MergedBlock(fl, k, b), c)
  {
    assert Apart(fl[k], c);
    assert k + 1 < |fl| ==> Apart(fl[k + 1], c);
  }

  lemma InsertedClear(fl: seq<Block>, k: nat, b: Block, c: Block)
    requires k < |fl| && c.size >= 1 && Clear(fl, c) && Apart(b, c) && b.size >= 1
    ensures Clear(Inserted(fl, k, b), c)
  {
    MergedApart(fl, k, b, c);
    hide Apart, Inserted, MergedBlock, Lo, Hi;
    forall i: nat | i < |Inserted(fl, k, b)|
      ensures Apart(Inserted(fl, k, b)[i], c)
    {
      InsertedAt(fl, k, b, i);
    }
  }

  lemma InsertedStaysInside(fl: seq<Block>, base: int, k: nat, b: Block, brk: int, live: map<int, int>)
    requires Wf(fl, base) && Place(fl, k, b) && b.size >= 1 && Within(fl, brk) && End(b) <= brk
    requires b.addr in live && live[b.addr] == b.size && AllClear(fl, live)
    requires forall a <- live :: live[a] >= 1 && base + UNIT <= a
    requires forall a <- live, c <- live :: a != c ==> Apart(Block(a, live[a]), Block(c, live[c]))
    ensures Within(Inserted(fl, k, b), brk) && AllClear(Inserted(fl, k, b), live - {b.addr})
    ensures At(Inserted(fl, k, b), k, fl[k].addr)
  {
    hide Clear, Wf;
    forall i: nat | i < |Inserted(fl, k, b)|
      ensures End(Inserted(fl, k, b)[i]) <= brk
    {
      InsertedAt(fl, k, b, i);
    }
    forall a | a in live && a != b.addr
      ensures Clear(Inserted(fl, k, b), Block(a, live[a]))
    {
      InsertedClear(fl, k, b, Block(a, live[a]));
    }
  }

  lemma InsertedKeepsRoom(fl: seq<Block>, base: int, k: nat, b: Block)
    requires Wf(fl, base) && k < |fl| && b.size >= 0
    ensures forall n :: SomeFits(fl, n) ==> SomeFits(Inserted(fl, k, b), n)
    ensures SomeFits(Inserted(fl, k, b), b.size)
  {
    var lo, hi, c := Lo(fl, k, b), Hi(fl, k, b), MergedBlock(fl, k, b);
    assert c.size >= b.size && forall i: nat :: lo <= i < hi ==> c.size >= fl[i].size;
    RoomOfParts(fl, lo, hi, c, b.size);
  }

  lemma RoomOfParts(fl: seq<Block>, lo: nat, hi: nat, c: Block, m: int)
    requires lo <= hi <= |fl| && c.size >= m && forall i: nat :: lo <= i < hi ==> c.size >= fl[i].size
    ensures forall n :: SomeFits(fl, n) ==> SomeFits(fl[..lo] + [c] + fl[hi..], n)
    ensures SomeFits(fl[..lo] + [c] + fl[hi..], m)
  {
    var r := fl[..lo] + [c] + fl[hi..];
    assert r[lo] == c && Fits(r, m, lo);
    forall n | SomeFits(fl, n)
      ensures SomeFits(r, n)
    {
      var i: nat :| Fits(fl, n, i);
      if i < lo {
        assert Fits(r, n, i);
      } else if i < hi {
        assert Fits(r, n, lo);
      } else {
        assert r[i - hi + lo + 1] == fl[i];
        assert Fits(r, n, i - hi + lo + 1);
      }
    }
  }

  // ---- malloc and free together -------------------------------------------------------------------------

  /** The free list as malloc finds it: before the first call there is only base. */
  ghost function Start(h: Heap): seq<Block>
    reads h
  {
    if h.freep == 0 then [Block(h.base, 0)] else h.fl
  }

  lemma StartIsWf(h: Heap)
    requires h.Valid()
    ensures Wf(Start(h), h.base) && Within(Start(h), h.brk)
    ensures forall x :: Covers(Start(h), x) <==> Covers(h.fl, x)
  {
    NothingInTheStart(h.base);
    NothingInTheEmpty();
  }

  /** Lists with the same space are the same list. */
  lemma SameSpace(before: seq<Block>, after: seq<Block>, base: int)
    requires Wf(before, base) && Wf(after, base)
    requires forall x :: Covers(after, x) <==> Covers(before, x)
    ensures after == before
  {
    FirstBlocks(after, before, base);
    hide Wf, Covers;
    FirstIsBase(after, base);
    FirstIsBase(before, base);
    SpaceDetermines(after, before, base, 1);
  }

  lemma PieceIsClear(fl: seq<Block>, brk: int, n: int)
    requires Within(fl, brk) && n >= 0
    ensures Clear(fl, Block(brk, n))
  {
  }

  /** A list with the space of fl and of a piece at the break is fl with the piece inserted. */
  lemma GrownSpace(fl: seq<Block>, after: seq<Block>, base: int, brk: int, n: int) returns (k: nat)
    requires Wf(fl, base) && Wf(after, base) && Within(fl, brk) && base + UNIT <= brk && n >= 1
    requires forall x :: Covers(after, x) <==> Covers(fl, x) || In(Block(brk, n), x)
    ensures Place(fl, k, Block(brk, n)) && after == Inserted(fl, k, Block(brk, n))
  {
    var piece := Block(brk, n);
    PieceIsClear(fl, brk, n);
    k := PlaceAnywhere(fl, base, piece);
    hide Clear, Within, Covers, Inserted;
    InsertedIsFreeList(fl, base, k, piece);
    SameSpace(Inserted(fl, k, piece), after, base);
  }

  /**
   free undoes malloc, also when the program moves the break itself in between: the free list is the one
   before malloc, or that one with the new piece of the heap inserted when nothing fitted, whatever was
   split and merged.
   */
  method FreeUndoesMalloc(h: Heap, nbytes: int, grant: bool, more: int) returns (r: Result, ghost k: nat)
    requires h.Valid() && 0 <= nbytes < UINT && more >= 0
    modifies h
    ensures h.Valid() && h.live == old(h.live)
    ensures r == MallocOutcome(old(SomeFits(h.fl, Units(nbytes))), Units(nbytes), grant, old(h.brk), r)
    ensures r.Got? && old(SomeFits(h.fl, Units(nbytes))) ==> h.fl == old(h.fl)
    ensures r.Got? && !old(SomeFits(h.fl, Units(nbytes))) ==>
              var piece := Block(old(h.brk), More(Units(nbytes)));
              Place(old(Start(h)), k, piece) && h.fl == Inserted(old(Start(h)), k, piece)
    ensures !r.Got? ==> h.brk == old(h.brk) && forall x :: Covers(h.fl, x) <==> old(Covers(h.fl, x))
  {
    hide Wf, Covers, Within, SomeFits, Units, Inserted, Place, More, MallocOutcome;
    k := 0;
    UnitsSuffice(nbytes);
    ghost var start, brk, n := Start(h), h.brk, Units(nbytes);
    ghost var fits := SomeFits(h.fl, n);
    StartIsWf(h);
    EmptyFitsNothing(h, n);
    hide Heap.Valid, Start;
    r := TakeAndGive(h, nbytes, grant, more);
    if r.Got? && fits {
      SameSpace(start, h.fl, h.base);
    } else if r.Got? {
      k := GrownSpace(start, h.fl, h.base, brk, More(n));
    }
  }

  /** malloc, free, and the program's own sbrk between them: what they do to the free space. */
  method TakeAndGive(h: Heap, nbytes: int, grant: bool, more: int) returns (r: Result)
    requires h.Valid() && 0 <= nbytes < UINT && more >= 0
    modifies h
    ensures h.Valid() && h.live == old(h.live)
    ensures r == MallocOutcome(old(SomeFits(h.fl, Units(nbytes))), Units(nbytes), grant, old(h.brk), r)
    ensures r.Got? ==> Wf(h.fl, h.base)
    ensures r.Got? && old(SomeFits(h.fl, Units(nbytes))) ==> forall x :: Covers(h.fl, x) <==> old(Covers(h.fl, x))
    ensures r.Got? && !old(SomeFits(h.fl, Units(nbytes))) ==>
              && More(Units(nbytes)) >= 1
              && forall x ::
                   Covers(h.fl, x) <==> old(Covers(h.fl, x)) || In(Block(old(h.brk), More(Units(nbytes))), x)
    ensures !r.Got? ==> h.brk == old(h.brk) && forall x :: Covers(h.fl, x) <==> old(Covers(h.fl, x))
  {
    hide Wf, Covers, SomeFits, Units, Heap.Valid, MallocOutcome, In;
    PieceAtBreak(h.brk, More(Units(nbytes)));
    r := h.Malloc(nbytes, grant);
    if r.Got? {
      h.Grow(more);
      h.Free(r.ap);
      h.Formed();
    }
  }

  lemma PieceAtBreak(brk: int, n: int)
    ensures forall x :: In(Block(brk, n), x) <==> brk <= x < brk + UNIT * n
  {
  }

  lemma EmptyFitsNothing(h: Heap, n: int)
    requires h.Valid() && n >= 1
    ensures h.base + UNIT <= h.brk && (h.freep == 0 ==> !SomeFits(h.fl, n))
  {
    NothingInTheEmpty();
  }

  /** A request so large that its rounding wraps gets a block of the header alone. */
  method RoundingWraps(base: int, brk: int) returns (h: Heap, r: Result)
    requires 0 < base && base + UNIT <= brk && brk + UNIT * 4096 <= USERTOP
    ensures fresh(h) && h.Valid() && r.Got? && r.ap - UNIT in h.live && h.live[r.ap - UNIT] == 1
  {
    h := new Heap(base, brk);
    NothingInTheEmpty();
    UnitsSuffice(UINT - 1);
    r := h.Malloc(UINT - 1, true);
  }

  /** A request of two gigabytes overflows sbrk's int. */
  method SbrkOverflows(base: int, brk: int) returns (h: Heap, r: Result)
    requires 0 < base && base + UNIT <= brk <= USERTOP
    ensures fresh(h) && r == OutOfRange
  {
    h := new Heap(base, brk);
    NothingInTheEmpty();
    assert Units(INT_LIMIT) == INT_LIMIT / UNIT + 1;
    r := h.Malloc(INT_LIMIT, true);
  }
}
