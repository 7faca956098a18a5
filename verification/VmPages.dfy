/**
 Physical pages, page tables and who owns them: the state of kalloc.c and vm.c as values. Addresses are
 page numbers; page 0 doubles as the NULL pointer.
 */
module VmPages {
  import opened Counting

  const ENTRIES := 1024
  const VPAGES := 0x10_0000
  const USERPAGES := 0xA0
  const IOEND := 0x100
  const PHYSPAGES := 0x1000
  const DEVICES := 0xF_E000
  const PGSIZE := 4096

  /** A page table entry: not present, or present with its frame and permissions. */
  datatype Pte = Absent | To(frame: int, w: bool, u: bool)

  /** What a page is used as: a free page holding the link of the free list, a table, or user data. */
  datatype Page = Run(next: int) | Table(e: seq<Pte>) | Data(b: seq<int>)

  type Frames = map<int, Page>

  /** What an owned page is to its address space. */
  datatype Role = Dir | Tab(i: nat) | User(v: nat)

  type Owned = map<int, Role>

  // ---- The free list ------------------------------------------------------------------------------------

  predicate LinkOk(mem: Frames, fl: seq<int>, k: nat) {
    k < |fl| && fl[k] in mem && mem[fl[k]] == Run(if k + 1 < |fl| then fl[k + 1] else 0)
  }

  /** kmem.freelist is the head of fl, linked through the pages themselves. */
  ghost predicate FreeList(mem: Frames, head: int, fl: seq<int>, low: int) {
    && head == (if fl == [] then 0 else fl[0]) && Distinct(fl)
    && (forall p <- fl :: 0 < low <= p < PHYSPAGES)
    && forall k: nat :: k < |fl| ==> LinkOk(mem, fl, k)
  }

  // ---- Page tables -----------------------------------------------------------------------------------------

  predicate IsTable(mem: Frames, p: int) {
    p in mem && mem[p].Table? && |mem[p].e| == ENTRIES
  }

  function Pdx(v: nat): (i: nat) {
    v / ENTRIES
  }

  function Ptx(v: nat): (j: nat)
    ensures j < ENTRIES
  {
    v % ENTRIES
  }

  lemma IndexFacts(v: nat)
    requires v < VPAGES
    ensures Pdx(v) < ENTRIES && v == ENTRIES * Pdx(v) + Ptx(v)
    ensures v < ENTRIES ==> Pdx(v) == 0 && Ptx(v) == v
  {
  }

  /** Entry v of the address space with directory d. */
  function Lookup(mem: Frames, d: int, v: nat): Pte {
    if Pdx(v) < ENTRIES && IsTable(mem, d) && mem[d].e[Pdx(v)].To? && IsTable(mem, mem[d].e[Pdx(v)].frame)
    then mem[mem[d].e[Pdx(v)].frame].e[Ptx(v)]
    else Absent
  }

  /** Directory and tables: every present directory entry leads to a table of its own, and to each table leads one. */
  ghost predicate Tree(mem: Frames, d: int, own: Owned, low: int) {
    && d in own && own[d] == Dir && IsTable(mem, d)
    && (forall p <- own :: 0 < low <= p < PHYSPAGES && p in mem)
    && (forall p <- own :: own[p].Dir? ==> p == d)
    && (forall p <- own :: own[p].Tab? ==>
         IsTable(mem, p) && own[p].i < ENTRIES && mem[d].e[own[p].i] == To(p, true, true))
    && (forall i: nat :: i < ENTRIES && mem[d].e[i].To? ==>
         mem[d].e[i].frame in own && own[mem[d].e[i].frame] == Tab(i))
  }

  /** The user half: each present entry maps a data page of its own, and each such page is mapped once. */
  ghost predicate UserPart(mem: Frames, d: int, own: Owned) {
    && (forall p <- own :: own[p].User? ==>
         p in mem && mem[p].Data? && own[p].v < USERPAGES && Lookup(mem, d, own[p].v) == To(p, true, true))
    && (forall v: nat :: v < USERPAGES && Lookup(mem, d, v).To? ==>
         Lookup(mem, d, v).frame in own && own[Lookup(mem, d, v).frame] == User(v))
  }

  /** kmap: the entry that every address space has for v above the user half. */
  function KernelEntry(v: nat, data: nat): Pte {
    if USERPAGES <= v < IOEND then To(v, true, false)
    else if IOEND <= v < data then To(v, false, false)
    else if data <= v < PHYSPAGES then To(v, true, false)
    else if DEVICES <= v < VPAGES then To(v, true, false)
    else Absent
  }

  /** The kernel's mappings below page `upto` are in place, and nothing else above the user half. */
  ghost predicate KernelPart(mem: Frames, d: int, data: nat, upto: nat) {
    forall v: nat :: USERPAGES <= v < VPAGES ==> Lookup(mem, d, v) == if v < upto then KernelEntry(v, data) else Absent
  }

  /** A whole address space, as setupkvm makes it and the others keep it. */
  ghost predicate Space(mem: Frames, d: int, own: Owned, low: int, data: nat) {
    Tree(mem, d, own, low) && UserPart(mem, d, own) && KernelPart(mem, d, data, VPAGES)
  }

  /**
   What a program and the kernel may do with an address: the program reaches the user half alone; above it every
   page of memory and of the devices is mapped to itself, and only the kernel's text, from 1 MB up to its data,
   cannot be written.
   */
  ghost predicate Protected(mem: Frames, d: int, data: nat) {
    forall v: nat :: v < VPAGES ==>
      var x := Lookup(mem, d, v);
      if v < 0xA0 then x.To? ==> x.u && x.w
      else
        && (x.To? <==> v < 0x1000 || v >= 0xF_E000)
        && (x.To? ==> x.frame == v && !x.u && (x.w <==> v < 0x100 || v >= data))
  }

  lemma SpaceIsProtected(mem: Frames, d: int, own: Owned, low: int, data: nat)
    requires Space(mem, d, own, low, data) && IOEND < data < PHYSPAGES
    ensures Protected(mem, d, data)
  {
    hide Lookup;
  }

  ghost predicate Apart(own: Owned, fl: seq<int>) {
    forall p <- own :: p !in fl
  }

  // ---- The two stores of walkpgdir and its callers --------------------------------------------------------------

  /** Storing an entry changes that translation and no other. */
  lemma SetEntry(mem: Frames, d: int, own: Owned, low: int, v: nat, x: Pte)
    requires Tree(mem, d, own, low) && v < VPAGES && mem[d].e[Pdx(v)].To? && Pdx(v) < ENTRIES
    ensures var t := mem[d].e[Pdx(v)].frame;
            && IsTable(mem, t) && t in own && own[t] == Tab(Pdx(v))
            && var m := mem[t := Table(mem[t].e[Ptx(v) := x])];
               && Tree(m, d, own, low)
               && forall w: nat :: w < VPAGES ==> Lookup(m, d, w) == if w == v then x else Lookup(mem, d, w)
  {
    var t := mem[d].e[Pdx(v)].frame;
    var m := mem[t := Table(mem[t].e[Ptx(v) := x])];
    assert m[d] == mem[d];
    forall w: nat | w < VPAGES
      ensures Lookup(m, d, w) == if w == v then x else Lookup(mem, d, w)
    {
      IndexFacts(v);
      IndexFacts(w);
    }
  }

  function ZeroTable(): seq<Pte> {
    seq(ENTRIES, _ => Absent)
  }

  /** A new table, all entries clear, changes no translation. */
  lemma AddTable(mem: Frames, d: int, own: Owned, low: int, i: nat, t: int)
    requires Tree(mem, d, own, low) && i < ENTRIES && mem[d].e[i].Absent? && t !in own && 0 < low <= t < PHYSPAGES
    ensures var m := mem[t := Table(ZeroTable())][d := Table(mem[d].e[i := To(t, true, true)])];
            && Tree(m, d, own[t := Tab(i)], low)
            && forall w: nat :: w < VPAGES ==> Lookup(m, d, w) == Lookup(mem, d, w)
  {
    var m := mem[t := Table(ZeroTable())][d := Table(mem[d].e[i := To(t, true, true)])];
    forall w: nat | w < VPAGES
      ensures Lookup(m, d, w) == Lookup(mem, d, w)
    {
      IndexFacts(w);
      if Pdx(w) == i {
        assert ZeroTable()[Ptx(w)] == Absent;
      }
    }
  }

  // ---- Frames that a store leaves alone ------------------------------------------------------------------------

  /** The pages of an address space are not touched. */
  ghost predicate SamePages(mem: Frames, m: Frames, own: Owned) {
    forall p <- own :: p in mem ==> p in m && m[p] == mem[p]
  }

  lemma SameTree(mem: Frames, m: Frames, d: int, own: Owned, low: int)
    requires Tree(mem, d, own, low) && SamePages(mem, m, own)
    ensures Tree(m, d, own, low) && forall w: nat :: Lookup(m, d, w) == Lookup(mem, d, w)
  {
    forall w: nat
      ensures Lookup(m, d, w) == Lookup(mem, d, w)
    {
      if Pdx(w) < ENTRIES && mem[d].e[Pdx(w)].To? {
        assert mem[d].e[Pdx(w)].frame in own;
      }
    }
  }

  lemma SameSpace(mem: Frames, m: Frames, d: int, own: Owned, low: int, data: nat)
    requires Space(mem, d, own, low, data) && SamePages(mem, m, own)
    ensures Space(m, d, own, low, data)
  {
    SameTree(mem, m, d, own, low);
  }

  lemma SameFreeList(mem: Frames, m: Frames, head: int, fl: seq<int>, low: int)
    requires FreeList(mem, head, fl, low) && forall p <- fl :: p in mem ==> p in m && m[p] == mem[p]
    ensures FreeList(m, head, fl, low)
  {
    forall k: nat | k < |fl|
      ensures LinkOk(m, fl, k)
    {
      assert LinkOk(mem, fl, k) && fl[k] in fl;
    }
  }

  lemma Popped(mem: Frames, head: int, fl: seq<int>, low: int)
    requires FreeList(mem, head, fl, low)
    ensures head == 0 <==> fl == []
    ensures fl != [] ==>
              head in mem && head == fl[0] && mem[head].Run? && FreeList(mem, mem[head].next, fl[1..], low)
              && head !in fl[1..]
    ensures fl != [] ==> forall p :: p in fl <==> p in fl[1..] || p == head
  {
    if fl != [] {
      assert fl[0] in fl;
      assert LinkOk(mem, fl, 0);
      var r := fl[1..];
      assert fl == [fl[0]] + r;
      forall k: nat | k < |r|
        ensures LinkOk(mem, r, k)
      {
        assert LinkOk(mem, fl, k + 1);
      }
      forall i: nat, j: nat | i < j < |r|
        ensures r[i] != r[j]
      {
        assert fl[i + 1] != fl[j + 1];
      }
      forall p <- r
        ensures p in fl && p != fl[0]
      {
        var k: nat :| k < |r| && r[k] == p;
        assert fl[k + 1] == p && fl[0] != fl[k + 1];
      }
      if |fl| > 1 {
        assert r[0] == fl[1];
      } else {
        assert r == [];
      }
    }
  }

  lemma PushedFree(mem: Frames, head: int, fl: seq<int>, low: int, p: int)
    requires FreeList(mem, head, fl, low) && p !in fl && 0 < low <= p < PHYSPAGES
    ensures FreeList(mem[p := Run(head)], p, [p] + fl, low)
  {
    var m, r := mem[p := Run(head)], [p] + fl;
    forall k: nat | k < |r|
      ensures LinkOk(m, r, k)
    {
      if k > 0 {
        assert LinkOk(mem, fl, k - 1) && fl[k - 1] in fl;
      }
    }
  }
}
