/**
 kalloc.c and vm.c: the page pool, and address spaces built from it.
 */
module Vm {
  import opened Counting
  import opened VmPages

  /** Nothing outside the address space and the free pages has changed. */
  ghost predicate Kept(mem: Frames, m: Frames, own: Owned, fl: seq<int>) {
    forall p <- mem :: p !in own && p !in fl ==> p in m && m[p] == mem[p]
  }

  /** The user pages of the address space hold what they held. */
  ghost predicate UserKept(mem: Frames, m: Frames, own: Owned) {
    forall p <- own :: own[p].User? && p in mem ==> p in m && m[p] == mem[p]
  }

  /** own has grown to own2 by tables only. */
  ghost predicate TablesAdded(own: Owned, own2: Owned) {
    && (forall p <- own :: p in own2 && own2[p] == own[p])
    && forall p <- own2 :: p !in own ==> own2[p].Tab?
  }

  /** No page is gained or lost between the free list and the address space. */
  ghost predicate Conserved(fl: seq<int>, own: Owned, fl2: seq<int>, own2: Owned) {
    forall p :: p in fl2 || p in own2 <==> p in fl || p in own
  }

  ghost predicate SameLookups(mem: Frames, m: Frames, d: int) {
    forall w: nat :: w < VPAGES ==> Lookup(m, d, w) == Lookup(mem, d, w)
  }

  class Vm {
    const low: int
    const data: nat
    var mem: Frames
    var freelist: int
    ghost var fl: seq<int>

    ghost predicate Pool()
      reads this
    {
      0 < low < PHYSPAGES && IOEND < data < PHYSPAGES && FreeList(mem, freelist, fl, low)
    }

    /** kinit: every page from the end of the kernel to PHYSTOP is freed. */
    constructor (low: int, data: nat)
      requires 0 < low < PHYSPAGES && IOEND < data < PHYSPAGES
      ensures Pool() && this.low == low && this.data == data && forall p :: p in fl <==> low <= p < PHYSPAGES
    {
      this.low, this.data := low, data;
      mem := map[];
      freelist := 0;
      fl := [];
      new;
      var p := low;
      while p < PHYSPAGES
        invariant low <= p <= PHYSPAGES && Pool() && this.low == low && this.data == data
        invariant forall q :: q in fl <==> low <= q < p
      {
        Kfree(p);
        p := p + 1;
      }
    }

    method Kfree(p: int)
      requires Pool() && low <= p < PHYSPAGES && p !in fl
      modifies this
      ensures Pool() && fl == [p] + old(fl) && mem == old(mem)[p := Run(old(freelist))]
    {
      PushedFree(mem, freelist, fl, low, p);
      mem := mem[p := Run(freelist)];
      freelist := p;
      fl := [p] + fl;
    }

    method Kalloc() returns (p: int)
      requires Pool()
      modifies this
      ensures Pool() && mem == old(mem) && (p == 0 <==> old(fl) == [])
      ensures p == 0 ==> fl == old(fl)
      ensures p != 0 ==> p == old(fl)[0] && fl == old(fl)[1..] && p !in fl && low <= p < PHYSPAGES
      ensures p != 0 ==> forall q :: q in old(fl) <==> q in fl || q == p
    {
      Popped(mem, freelist, fl, low);
      p := freelist;
      if p != 0 {
        assert p in fl;
        freelist := mem[p].next;
        fl := fl[1..];
      }
    }

    /** walkpgdir: the table with the entry for v, made when asked for and when there is a page for it. */
    method Walkpgdir(d: int, v: nat, create: bool, ghost own: Owned) returns (t: int, ghost own2: Owned)
      requires Pool() && Tree(mem, d, own, low) && Apart(own, fl) && v < VPAGES
      modifies this
      ensures Pool() && Tree(mem, d, own2, low) && Apart(own2, fl)
      ensures t != 0 ==> Pdx(v) < ENTRIES && mem[d].e[Pdx(v)] == To(t, true, true)
      ensures t == 0 ==> NoTable(mem, d, v) && (!create || old(fl) == [])
      ensures t == 0 || old(mem)[d].e[Pdx(v)].To? ==> own2 == own && mem == old(mem) && fl == old(fl)
      ensures SameLookups(old(mem), mem, d) && TablesAdded(own, own2) && Conserved(old(fl), own, fl, own2)
      ensures TabsWithin(own, own2, Pdx(v), Pdx(v))
      ensures Kept(old(mem), mem, own, old(fl)) && UserKept(old(mem), mem, own)
    {
      IndexFacts(v);
      own2 := own;
      if mem[d].e[Pdx(v)].To? {
        return mem[d].e[Pdx(v)].frame, own;
      }
      if !create {
        return 0, own;
      }
      t := Kalloc();
      if t == 0 {
        return 0, own;
      }
      ghost var m := mem;
      AddTable(mem, d, own, low, Pdx(v), t);
      mem := mem[t := Table(ZeroTable())];
      mem := mem[d := Table(mem[d].e[Pdx(v) := To(t, true, true)])];
      own2 := own[t := Tab(Pdx(v))];
      assert d in own && t !in own;
      SameFreeList(m, mem, freelist, fl, low);
    }

    /** The store `*pte = ...` into an entry whose table exists. */
    method SetPte(d: int, v: nat, x: Pte, t: int, ghost own: Owned)
      requires Pool() && Tree(mem, d, own, low) && Apart(own, fl) && v < VPAGES
      requires Pdx(v) < ENTRIES && mem[d].e[Pdx(v)] == To(t, true, true)
      modifies this`mem
      ensures Pool() && Tree(mem, d, own, low)
      ensures forall w: nat :: w < VPAGES ==> Lookup(mem, d, w) == if w == v then x else old(Lookup(mem, d, w))
      ensures Kept(old(mem), mem, own, fl) && UserKept(old(mem), mem, own)
      ensures t in own && own[t].Tab? && forall p <- old(mem) :: p != t ==> p in mem && mem[p] == old(mem)[p]
      ensures t in old(mem) && mem[t] == Table(old(mem)[t].e[Ptx(v) := x])
    {
      SetEntry(mem, d, own, low, v, x);
      ghost var m := mem;
      mem := mem[t := Table(mem[t].e[Ptx(v) := x])];
      SameFreeList(m, mem, freelist, fl, low);
    }

    /** Between two turns of mappages: the pages from first up to a are mapped, with the tables they need. */
    ghost predicate Mapping(d: int, first: nat, n: nat, a: nat, pa: int, w: bool, u: bool, m0: Frames, own0: Owned,
            fl0: seq<int>, own: Owned)
      reads this
    {
      && n >= 1 && Pool() && Tree(mem, d, own, low) && Apart(own, fl) && Mapped(m0, mem, d, first, a, pa, w, u)
      && TablesAdded(own0, own) && Conserved(fl0, own0, fl, own)
      && TabsWithin(own0, own, Pdx(first), Pdx(first + n - 1))
      && Kept(m0, mem, own0, fl0) && UserKept(m0, mem, own0)
      && (a == first ==> mem == m0 && own == own0 && fl == fl0)
    }

    /** One turn of mappages. */
    method MapNext(d: int, first: nat, n: nat, a: nat, pa: int, w: bool, u: bool, ghost m0: Frames, ghost own0: Owned,
            ghost fl0: seq<int>, ghost own: Owned)
      returns (ok: bool, ghost own2: Owned)
      requires first <= a < first + n <= VPAGES && Mapping(d, first, n, a, pa, w, u, m0, own0, fl0, own)
      requires forall x: nat :: first <= x < first + n ==> Lookup(m0, d, x).Absent?
      modifies this
      ensures ok ==> Mapping(d, first, n, a + 1, pa, w, u, m0, own0, fl0, own2)
      ensures !ok ==> Mapping(d, first, n, a, pa, w, u, m0, own0, fl0, own2) && fl == [] && NoTable(mem, d, a)
      ensures a == first && HasTable(m0, d, first) ==>
                ok && own2 == own0 && fl == fl0 && OneStore(m0, mem, d, first, own0)
    {
      hide Tree, FreeList, Lookup, Mapped, Kept, UserKept, TablesAdded, Conserved, OneStore, TabsWithin, NoTable, Apart,
          Pdx;
      var t;
      ghost var m1, fl1 := mem, fl;
      StillUnmapped(m0, mem, d, first, a, pa, w, u);
      t, own2 := Walkpgdir(d, a, true, own);
      StillMapped(m0, m1, mem, d, first, a, pa, w, u);
      PdxMonotone(first, a, first + n - 1);
      MoreTabs(own0, own, own2, Pdx(first), Pdx(first + n - 1), Pdx(a));
      if t == 0 {
        WalkedOnly(m0, m1, mem, own0, own, own2, fl0, fl1, fl);
        return false, own2;
      }
      ghost var m2 := mem;
      SetPte(d, a, To(pa + (a - first), w, u), t, own2);
      OneMore(m0, m2, mem, d, first, a, pa, w, u);
      if a == first && HasTable(m0, d, first) {
        StoredOnce(m2, mem, d, first, own0, t);
      }
      Grown(m0, m1, m2, mem, own0, own, own2, fl0, fl1, fl);
      ok := true;
    }

    /** mappages: n pages from `first` on are mapped to the frames from pa on. */
    method Mappages(d: int, first: nat, n: nat, pa: int, w: bool, u: bool, ghost own: Owned)
      returns (ok: bool, ghost own2: Owned, ghost upto: nat)
      requires Pool() && Tree(mem, d, own, low) && Apart(own, fl) && n >= 1 && first + n <= VPAGES
      requires forall x: nat :: first <= x < first + n ==> Lookup(mem, d, x).Absent?
      modifies this
      ensures Pool() && Tree(mem, d, own2, low) && Apart(own2, fl)
      ensures first <= upto <= first + n && (ok <==> upto == first + n)
              && Mapped(old(mem), mem, d, first, upto, pa, w, u)
      ensures n == 1 && HasTable(old(mem), d, first) ==>
                ok && own2 == own && fl == old(fl) && OneStore(old(mem), mem, d, first, own)
      ensures TablesAdded(own, own2) && Conserved(old(fl), own, fl, own2)
              && TabsWithin(own, own2, Pdx(first), Pdx(first + n - 1))
      ensures !ok ==> fl == [] && NoTable(mem, d, upto)
      ensures Kept(old(mem), mem, own, old(fl)) && UserKept(old(mem), mem, own)
    {
      NoTabsYet(own, Pdx(first), Pdx(first + n - 1));
      hide Tree, FreeList, Lookup, Mapped, Kept, UserKept, TablesAdded, Conserved, OneStore, TabsWithin, NoTable, Apart,
          HasTable, Pdx;
      var a := first;
      own2 := own;
      NothingYet(mem, d, first, pa, w, u, own, fl);
      ghost var m0, fl0 := mem, fl;
      while true
        invariant first <= a < first + n
        invariant Mapping(d, first, n, a, pa, w, u, m0, own, fl0, own2)
        decreases first + n - a
      {
        ok, own2 := MapNext(d, first, n, a, pa, w, u, m0, own, fl0, own2);
        if !ok {
          return false, own2, a;
        }
        if a + 1 == first + n {
          break;
        }
        a := a + 1;
      }
      return true, own2, first + n;
    }

    /** setupkvm's first lines: the cleared directory. */
    method NewDirectory() returns (d: int, ghost own: Owned)
      requires Pool()
      modifies this
      ensures Pool() && Apart(own, fl) && Conserved(old(fl), map[], fl, own) && Kept(old(mem), mem, map[], old(fl))
      ensures d == 0 ==> old(fl) == [] && fl == [] && own == map[]
      ensures d != 0 ==> old(fl) != [] && Tree(mem, d, own, low) && KernelPart(mem, d, data, Upto(data, 0))
      ensures d != 0 ==> NoUser(mem, d, own) && KernelTabs(own)
    {
      hide FreeList, Lookup, Tree, KernelPart, NoUser, ZeroTable, Kmap, Upto;
      own := map[];
      d := Kalloc();
      if d == 0 {
        return;
      }
      ghost var m := mem;
      mem := mem[d := Table(ZeroTable())];
      SameFreeList(m, mem, freelist, fl, low);
      own := map[d := Dir];
      EmptyDirectory(mem, d, low, data);
    }

    /**
     setupkvm: a new address space with the kernel's mappings and no user page. It takes thirteen pages,
     the directory and twelve tables; when the pool has fewer it returns 0, and all of them, own, are lost.
     */
    method Setupkvm() returns (d: int, ghost own: Owned)
      requires Pool()
      modifies this
      ensures Pool() && Apart(own, fl) && Conserved(old(fl), map[], fl, own)
      ensures d != 0 <==> |old(fl)| >= KVMPAGES
      ensures |fl| == if d != 0 then |old(fl)| - KVMPAGES else 0
      ensures d != 0 ==> Space(mem, d, own, low, data) && UserPages(mem, d, 0) && Protected(mem, d, data)
      ensures forall p <- own :: !own[p].User?
      ensures Kept(old(mem), mem, map[], old(fl))
    {
      hide FreeList, Lookup;
      d, own := NewDirectory();
      if d == 0 {
        return;
      }
      var k := 0;
      while k < |Kmap(data)|
        invariant 0 <= k <= |Kmap(data)|
        invariant Pool() && Tree(mem, d, own, low) && Apart(own, fl) && Conserved(old(fl), map[], fl, own)
        invariant KernelPart(mem, d, data, Upto(data, k)) && NoUser(mem, d, own)
        invariant Kept(old(mem), mem, map[], old(fl)) && d != 0 && KernelTabs(own)
      {
        hide Tree, FreeList, Lookup, Mapped, TabsWithin, Kept, KernelPart, NoUser, Conserved, KernelTabs;
        var r := Kmap(data)[k];
        ghost var own1, m1, fl1 := own, mem, fl;
        var ok;
        ghost var upto;
        FreeAbove(mem, d, data, k);
        ok, own, upto := Mappages(d, r.p, r.e - r.p, r.p, r.w, false, own);
        GrownAgain(old(mem), m1, mem, own1, own, old(fl), fl1, fl);
        KmapTabs(data, k, r.p);
        KmapTabs(data, k, r.e - 1);
        PdxMonotone(r.p, r.e - 1, r.e - 1);
        KernelTabsStep(own1, own, Pdx(r.p), Pdx(r.e - 1));
        StillNoUser(m1, mem, d, own1, own, r.p, upto, r.p, r.w);
        if !ok {
          TooFewTables(mem, d, own, low, data, k, upto);
          PagesCount(old(mem), old(freelist), old(fl), mem, freelist, fl, own, low);
          return 0, own;
        }
        KernelStep(m1, mem, d, data, k);
        k := k + 1;
      }
      NoUserIsUserPart(mem, d, own);
      SpaceIsProtected(mem, d, own, low, data);
      AllKernelTables(mem, d, own, low, data);
      PagesCount(old(mem), old(freelist), old(fl), mem, freelist, fl, own, low);
    }

    /** One turn of deallocuvm: the page goes to the pool, its entry is cleared. */
    method FreeUserPage(d: int, v: nat, ghost own: Owned) returns (ghost own2: Owned)
      requires Pool() && Space(mem, d, own, low, data) && Apart(own, fl) && v < USERPAGES
      modifies this
      ensures Pool() && Space(mem, d, own2, low, data) && Apart(own2, fl) && Conserved(old(fl), own, fl, own2)
      ensures Without(own, own2, v, v + 1) && Unmapped(old(mem), mem, d, v, v + 1)
      ensures Kept(old(mem), mem, own, old(fl)) && UserKept(old(mem), mem, own2)
    {
      hide FreeList, Lookup;
      own2 := own;
      var t;
      ghost var own1;
      EntryOf(mem, d, own, low, data, v);
      t, own1 := Walkpgdir(d, v, false, own);
      if mem[t].e[Ptx(v)].To? {
        var pa := mem[t].e[Ptx(v)].frame;
        ghost var m := mem;
        Kfree(pa);
        PageGone(m, mem, d, own, low, data, v, pa);
        own2 := own - {pa};
        ghost var m1 := mem;
        SetPte(d, v, Absent, t, own2);
        UserRemoved(m, m1, mem, d, own, low, data, v, pa);
        PageReturned(m, m1, mem, own, own2, old(fl), fl, pa, d, t, v);
      }
    }

    /** deallocuvm: the mapped pages from newsz up to oldsz go back to the pool. */
    method Deallocuvm(d: int, oldsz: int, newsz: int, ghost own: Owned) returns (r: int, ghost own2: Owned)
      requires Pool() && Space(mem, d, own, low, data) && Apart(own, fl) && 0 <= newsz && oldsz <= USERPAGES * PGSIZE
      modifies this
      ensures r == if newsz >= oldsz then oldsz else newsz
      ensures Pool() && Space(mem, d, own2, low, data) && Apart(own2, fl) && Conserved(old(fl), own, fl, own2)
      ensures newsz >= oldsz ==> own2 == own && mem == old(mem) && fl == old(fl)
      ensures newsz < oldsz ==>
                Without(own, own2, Up(newsz), Up(oldsz)) && Unmapped(old(mem), mem, d, Up(newsz), Up(oldsz))
      ensures Kept(old(mem), mem, own, old(fl)) && UserKept(old(mem), mem, own2)
    {
      hide FreeList, Space, Lookup;
      own2 := own;
      if newsz >= oldsz {
        return oldsz, own;
      }
      UpFacts(oldsz);
      UpFacts(newsz);
      var a := Up(newsz);
      while a * PGSIZE < oldsz
        invariant Up(newsz) <= a && (a < Up(oldsz) || a == Up(oldsz) || a == Up(newsz))
                  && (a * PGSIZE < oldsz <==> a < Up(oldsz))
        invariant Pool() && Space(mem, d, own2, low, data) && Apart(own2, fl) && Conserved(old(fl), own, fl, own2)
        invariant Without(own, own2, Up(newsz), a) && Unmapped(old(mem), mem, d, Up(newsz), a)
        invariant Kept(old(mem), mem, own, old(fl)) && UserKept(old(mem), mem, own2)
        decreases Up(oldsz) - a
      {
        ghost var own1, m1, fl1 := own2, mem, fl;
        own2 := FreeUserPage(d, a, own1);
        Shrinking(old(mem), m1, mem, own, own1, own2, old(fl), fl1, fl, d, Up(newsz), a);
        a := a + 1;
        UpStep(oldsz, a);
      }
      r := newsz;
    }

    /** mappages for one user page whose table exists: it cannot fail, and there is nothing to remap. */
    method MapUserPage(d: int, v: nat, p: int, ghost own: Owned) returns (ok: bool, ghost own2: Owned)
      requires Pool() && Space(mem, d, own, low, data) && Apart(own, fl) && v < USERPAGES && Lookup(mem, d, v).Absent?
      requires p !in own && p !in fl && low <= p < PHYSPAGES && p in mem && mem[p].Data?
      modifies this
      ensures ok && own2 == own[p := User(v)] && fl == old(fl)
      ensures Pool() && Space(mem, d, own2, low, data)
      ensures MappedMore(old(mem), mem, d, v, p) && Kept(old(mem), mem, own, fl) && UserKept(old(mem), mem, own)
              && mem[p] == old(mem)[p]
    {
      hide FreeList, Lookup;
      ghost var own1, upto, m := own, 0, mem;
      EntryOf(mem, d, own, low, data, v);
      ok, own1, upto := Mappages(d, v, 1, p, true, true, own);
      UserAdded(m, mem, d, own, low, data, v, p);
      own2 := own[p := User(v)];
    }

    /**
     allocuvm: the user half grows from oldsz to newsz by zero pages. It succeeds exactly when the pool
     has the pages; when it has not, every page taken is given back and every translation is as before.
     */
    method Allocuvm(d: int, oldsz: int, newsz: int, ghost own: Owned) returns (r: int, ghost own2: Owned)
      requires Pool() && Space(mem, d, own, low, data) && Apart(own, fl)
      requires 0 <= oldsz <= USERPAGES * PGSIZE && 0 <= newsz && UserPages(mem, d, Up(oldsz))
      modifies this
      ensures Pool() && Space(mem, d, own2, low, data) && Apart(own2, fl) && Conserved(old(fl), own, fl, own2)
      ensures r == if newsz > USERPAGES * PGSIZE then 0 else if newsz < oldsz then oldsz
                   else if |old(fl)| >= Up(newsz) - Up(oldsz) then newsz else 0
      ensures UserKept(old(mem), mem, own) && Kept(old(mem), mem, own, old(fl))
      ensures GrowsTo(newsz, oldsz, |old(fl)|) ==>
                Longer(old(mem), mem, d, Up(oldsz), Up(newsz)) && Added(own, own2, Up(oldsz), Up(newsz))
      ensures !GrowsTo(newsz, oldsz, |old(fl)|) ==> SameOwned(own, own2) && SameLookups(old(mem), mem, d)
    {
      hide FreeList, Space, Lookup;
      own2 := own;
      if newsz > USERPAGES * PGSIZE {
        return 0, own;
      }
      if newsz < oldsz {
        return oldsz, own;
      }
      UpFacts(oldsz);
      UpFacts(newsz);
      UserBelow(mem, d, own, low, data, Up(oldsz));
      var a := Up(oldsz);
      NothingAdded(mem, d, own, a);
      while a * PGSIZE < newsz
        invariant Up(oldsz) <= a <= Up(newsz)
        invariant Pool() && Space(mem, d, own2, low, data) && Apart(own2, fl) && Conserved(old(fl), own, fl, own2)
        invariant UserKept(old(mem), mem, own) && Kept(old(mem), mem, own, old(fl))
        invariant Longer(old(mem), mem, d, Up(oldsz), a) && Added(own, own2, Up(oldsz), a)
        invariant |fl| == |old(fl)| - (a - Up(oldsz))
        decreases Up(newsz) - a
      {
        UpStep(newsz, a);
        ghost var own1, m1, fl1 := own2, mem, fl;
        var page := Kalloc();
        if page == 0 {
          ghost var m := mem;
          var undone;
          undone, own2 := Deallocuvm(d, newsz, oldsz, own1);
          Undone(old(mem), m, mem, own, own1, own2, old(fl), fl1, fl, d, Up(oldsz), a, Up(newsz));
          return 0, own2;
        }
        mem := mem[page := Data(Zeros())];
        NewPage(m1, mem, d, own1, low, data, freelist, fl, fl1, page, Zeros());
        LongerFree(old(mem), m1, mem, d, Up(oldsz), a, own1, low, data);
        ghost var m2 := mem;
        var ok;
        ok, own2 := MapUserPage(d, a, page, own1);
        Lengthened(old(mem), m1, m2, mem, own, own1, own2, old(fl), fl1, fl, d, Up(oldsz), a, page, low, data);
        a := a + 1;
        UpStep(newsz, a);
      }
      UpStep(newsz, a);
      r := newsz;
    }

    /** freevm: every page of the address space, and no other, goes to the pool, once. */
    method Freevm(d: int, ghost own: Owned)
      requires Pool() && Space(mem, d, own, low, data) && Apart(own, fl)
      modifies this
      ensures Pool() && forall p :: p in fl <==> p in old(fl) || p in own
      ensures Kept(old(mem), mem, own, old(fl))
    {
      hide FreeList, Space, Lookup;
      var gone;
      ghost var own2;
      gone, own2 := Deallocuvm(d, USERPAGES * PGSIZE, 0, own);
      UpFacts(0);
      UpFacts(USERPAGES * PGSIZE);
      OnlyTables(mem, d, own, own2, low, data);
      ghost var m1, fl1 := mem, fl;
      DirectoryOf(mem, d, own2, low, data);
      ghost var dir := mem[d];
      var i := 0;
      while i < ENTRIES
        invariant 0 <= i <= ENTRIES && Pool() && d in mem && mem[d] == dir && d !in fl
        invariant forall p :: p in fl <==> p in fl1 || (p in own2 && own2[p].Tab? && own2[p].i < i)
        invariant forall p <- m1 :: p !in own2 ==> p in mem && mem[p] == m1[p]
      {
        if mem[d].e[i].To? {
          TableOf(m1, d, own2, low, data, i);
          Kfree(mem[d].e[i].frame);
        }
        NextTable(m1, d, own2, low, data, i);
        i := i + 1;
      }
      Kfree(d);
      AllReturned(old(mem), m1, mem, own, own2, old(fl), fl1, fl, d);
    }

    /**
     copyuvm: a second address space with the same user contents on pages of its own. When the pool runs
     out, what was built is given back; only setupkvm's own failure loses pages, none of them a copy.
     */
    method Copyuvm(d: int, sz: int, ghost own: Owned) returns (c: int, ghost cown: Owned, ghost lost: Owned)
      requires Pool() && Space(mem, d, own, low, data) && Apart(own, fl)
      requires 0 <= sz <= USERPAGES * PGSIZE && UserPages(mem, d, Up(sz))
      modifies this
      ensures Pool() && Space(mem, d, own, low, data) && Apart(own, fl) && SamePages(old(mem), mem, own)
      ensures c != 0 <==> |old(fl)| >= KVMPAGES + Up(sz)
      ensures c != 0 ==>
                Space(mem, c, cown, low, data) && Apart(cown, fl) && (forall p <- cown :: p !in own)
                && Conserved(old(fl), map[], fl, cown)
      ensures c != 0 ==> UserPages(mem, c, Up(sz)) && Copied(old(mem), mem, d, c, Up(sz))
      ensures c == 0 ==> Conserved(old(fl), map[], fl, lost) && forall p <- lost :: !lost[p].User?
    {
      hide FreeList, Space, Lookup;
      lost, cown := map[], map[];
      c, cown := Setupkvm();
      ParentKept(old(mem), mem, d, own, low, data, old(fl), fl, cown);
      if c == 0 {
        lost := cown;
        return;
      }
      UpFacts(sz);
      NothingCopied(old(mem), mem, d, c);
      var i := 0;
      while i * PGSIZE < sz
        invariant 0 <= i <= Up(sz)
        invariant Pool() && Space(mem, d, own, low, data) && Space(mem, c, cown, low, data) && Apart(own, fl)
                  && Apart(cown, fl)
        invariant SamePages(old(mem), mem, own) && (forall p <- cown :: p !in own)
                  && Conserved(old(fl), map[], fl, cown)
        invariant UserPages(mem, c, i) && Copied(old(mem), mem, d, c, i)
        invariant |fl| == |old(fl)| - KVMPAGES - i && c != 0
        decreases Up(sz) - i
      {
        UpStep(sz, i);
        var t;
        ghost var own1;
        EntryOf(mem, d, own, low, data, i);
        SpaceIsTree(mem, d, own, low, data);
        t, own1 := Walkpgdir(d, i, false, own);
        ParentEntry(old(mem), mem, d, own, low, data, Up(sz), i);
        var pa := mem[t].e[Ptx(i)].frame;
        ghost var m1, fl1 := mem, fl;
        var page := Kalloc();
        if page == 0 {
          Freevm(c, cown);
          ParentAfterFree(old(mem), m1, mem, d, own, low, data, cown, old(fl), fl1, fl);
          return 0, map[], map[];
        }
        mem := mem[page := mem[pa]];
        NewPage(m1, mem, c, cown, low, data, freelist, fl, fl1, page, mem[pa].b);
        ParentUntouched(old(mem), m1, mem, d, own, low, data, fl1, page);
        NextFree(m1, mem, c, i);
        ghost var m2, cown1 := mem, cown;
        var ok;
        ok, cown := MapUserPage(c, i, page, cown1);
        OneCopied(old(mem), m1, m2, mem, d, c, own, cown1, cown, old(fl), fl1, fl, i, page, low, data);
        i := i + 1;
        UpStep(sz, i);
      }
      UpStep(sz, i);
    }
  }

  // ---- freevm -------------------------------------------------------------------------------------------------

  lemma OnlyTables(mem: Frames, d: int, own: Owned, own2: Owned, low: int, data: nat)
    requires Space(mem, d, own2, low, data) && Without(own, own2, 0, USERPAGES)
    ensures forall p <- own2 :: !own2[p].User? && (own2[p].Dir? ==> p == d) && (own2[p].Tab? ==> own2[p].i < ENTRIES)
  {
    hide Lookup;
  }

  lemma DirectoryOf(mem: Frames, d: int, own: Owned, low: int, data: nat)
    requires Space(mem, d, own, low, data)
    ensures d in mem && IsTable(mem, d) && d in own && own[d] == Dir && low <= d < PHYSPAGES
  {
    hide Lookup;
  }

  lemma TableOf(mem: Frames, d: int, own: Owned, low: int, data: nat, i: nat)
    requires Space(mem, d, own, low, data) && i < ENTRIES && mem[d].e[i].To?
    ensures var p := mem[d].e[i].frame;
            p in own && own[p] == Tab(i) && p != d && low <= p < PHYSPAGES
  {
    hide Lookup;
  }

  /** The table of entry i is the only page with that role. */
  lemma NextTable(mem: Frames, d: int, own: Owned, low: int, data: nat, i: nat)
    requires Space(mem, d, own, low, data) && i < ENTRIES
    ensures forall p <- own :: own[p] == Tab(i) <==> mem[d].e[i].To? && p == mem[d].e[i].frame
  {
    hide Lookup;
  }

  lemma AllReturned(m0: Frames, m1: Frames, m2: Frames, own: Owned, own2: Owned, fl0: seq<int>, fl1: seq<int>,
          fl2: seq<int>, d: int)
    requires Conserved(fl0, own, fl1, own2) && Kept(m0, m1, own, fl0) && d in own2 && own2[d] == Dir
    requires forall p <- own2 :: !own2[p].User? && (own2[p].Dir? ==> p == d) && (own2[p].Tab? ==> own2[p].i < ENTRIES)
    requires forall p <- own2 :: p in own
    requires forall p :: p in fl2 <==> p in fl1 || (p in own2 && own2[p].Tab? && own2[p].i < ENTRIES) || p == d
    requires forall p <- m1 :: p !in own2 ==> p in m2 && m2[p] == m1[p]
    ensures forall p :: p in fl2 <==> p in fl0 || p in own
    ensures Kept(m0, m2, own, fl0)
  {
  }

  // ---- copyuvm --------------------------------------------------------------------------------------------------

  /** The first n user pages hold the same bytes, on different frames. */
  ghost predicate Copied(mem: Frames, m: Frames, d: int, c: int, n: nat) {
    forall x: nat :: x < n && x < USERPAGES ==> CopiedAt(mem, m, d, c, x)
  }

  predicate CopiedAt(mem: Frames, m: Frames, d: int, c: int, x: nat) {
    && Lookup(mem, d, x).To? && Lookup(m, c, x).To?
    && Lookup(mem, d, x).frame in mem && Lookup(m, c, x).frame in m
    && m[Lookup(m, c, x).frame] == mem[Lookup(mem, d, x).frame] && Lookup(m, c, x).frame != Lookup(mem, d, x).frame
  }

  lemma SpaceIsTree(mem: Frames, d: int, own: Owned, low: int, data: nat)
    requires Space(mem, d, own, low, data)
    ensures Tree(mem, d, own, low) && forall p <- own :: p in mem
  {
    hide Lookup;
  }

  lemma NothingCopied(mem: Frames, m: Frames, d: int, c: int)
    ensures Copied(mem, m, d, c, 0)
  {
  }

  lemma ParentKept(mem: Frames, m: Frames, d: int, own: Owned, low: int, data: nat, fl: seq<int>, fl2: seq<int>,
          cown: Owned)
    requires Space(mem, d, own, low, data) && Apart(own, fl) && Kept(mem, m, map[], fl)
             && Conserved(fl, map[], fl2, cown)
    ensures Space(m, d, own, low, data) && Apart(own, fl2) && SamePages(mem, m, own) && forall p <- cown :: p !in own
  {
    SameSpace(mem, m, d, own, low, data);
  }

  /** The parent's entry for page i is present: neither of copyuvm's panics is reached. */
  lemma ParentEntry(mem: Frames, m: Frames, d: int, own: Owned, low: int, data: nat, n: nat, i: nat)
    requires Space(mem, d, own, low, data) && SamePages(mem, m, own) && UserPages(mem, d, n) && i < n <= USERPAGES
    requires HasTable(m, d, i)
    ensures Lookup(m, d, i) == Lookup(mem, d, i) && Lookup(m, d, i).To?
    ensures Lookup(m, d, i).frame in own && Lookup(m, d, i).frame in m && m[Lookup(m, d, i).frame].Data?
    ensures Lookup(mem, d, i).frame in mem && m[Lookup(m, d, i).frame] == mem[Lookup(m, d, i).frame]
  {
    SameTree(mem, m, d, own, low);
    hide Lookup;
  }

  lemma ParentAfterFree(m0: Frames, m1: Frames, m2: Frames, d: int, own: Owned, low: int, data: nat, cown: Owned,
          fl0: seq<int>, fl1: seq<int>, fl2: seq<int>)
    requires Space(m1, d, own, low, data) && SamePages(m0, m1, own) && Apart(own, fl1)
             && (forall p <- cown :: p !in own)
    requires Kept(m1, m2, cown, fl1) && (forall p :: p in fl2 <==> p in fl1 || p in cown)
             && Conserved(fl0, map[], fl1, cown)
    requires forall p <- own :: p in m1
    ensures Space(m2, d, own, low, data) && SamePages(m0, m2, own) && Apart(own, fl2)
            && Conserved(fl0, map[], fl2, map[])
  {
    assert SamePages(m1, m2, own);
    SameSpace(m1, m2, d, own, low, data);
  }

  lemma ParentUntouched(m0: Frames, m1: Frames, m2: Frames, d: int, own: Owned, low: int, data: nat, fl1: seq<int>,
          p: int)
    requires Space(m1, d, own, low, data) && SamePages(m0, m1, own) && Apart(own, fl1) && p in fl1
    requires forall q <- m1 :: q != p ==> q in m2 && m2[q] == m1[q]
    ensures Space(m2, d, own, low, data) && SamePages(m0, m2, own)
  {
    assert SamePages(m1, m2, own);
    SameSpace(m1, m2, d, own, low, data);
  }

  lemma NextFree(m1: Frames, m2: Frames, c: int, i: nat)
    requires UserPages(m1, c, i) && SameLookups(m1, m2, c) && i < USERPAGES
    ensures Lookup(m2, c, i).Absent?
  {
    hide Lookup;
  }

  lemma OneCopied(m0: Frames, m1: Frames, m2: Frames, m3: Frames, d: int, c: int, own: Owned, cown1: Owned, cown: Owned,
    fl0: seq<int>, fl1: seq<int>, fl2: seq<int>, i: nat, p: int, low: int, data: nat)
    requires Space(m1, c, cown1, low, data) && UserPages(m1, c, i) && Copied(m0, m1, d, c, i) && i < USERPAGES
    requires Space(m2, d, own, low, data) && SamePages(m0, m2, own) && Apart(own, fl1)
             && (forall q <- cown1 :: q !in own) && Conserved(fl0, map[], fl1, cown1)
    requires Lookup(m0, d, i).To? && Lookup(m0, d, i).frame in own && Lookup(m0, d, i).frame in m0
    requires SameLookups(m1, m2, c) && SamePages(m1, m2, cown1) && p in m2 && m2[p] == m0[Lookup(m0, d, i).frame]
             && p !in cown1 && p in fl1 && p !in fl2
    requires forall q :: q in fl1 <==> q in fl2 || q == p
    requires cown == cown1[p := User(i)] && MappedMore(m2, m3, c, i, p) && Kept(m2, m3, cown1, fl2)
             && UserKept(m2, m3, cown1) && p in m3 && m3[p] == m2[p]
    requires Apart(cown1, fl1)
    ensures Space(m3, d, own, low, data) && SamePages(m0, m3, own) && Apart(own, fl2) && Apart(cown, fl2)
    ensures (forall q <- cown :: q !in own) && Conserved(fl0, map[], fl2, cown)
    ensures UserPages(m3, c, i + 1) && Copied(m0, m3, d, c, i + 1)
  {
    assert SamePages(m2, m3, own);
    SameSpace(m2, m3, d, own, low, data);
    hide Lookup, Tree, KernelPart;
    forall x: nat | x < i + 1 && x < USERPAGES
      ensures CopiedAt(m0, m3, d, c, x)
    {
      if x < i {
        assert CopiedAt(m0, m1, d, c, x);
        assert Lookup(m1, c, x).frame in cown1 && cown1[Lookup(m1, c, x).frame] == User(x);
        assert Lookup(m3, c, x) == Lookup(m2, c, x) == Lookup(m1, c, x);
      } else {
        assert Lookup(m3, c, x) == To(p, true, true);
      }
    }
  }

  function Zeros(): seq<int> {
    seq(PGSIZE, _ => 0)
  }

  predicate GrowsTo(newsz: int, oldsz: int, pages: nat)
    requires 0 <= oldsz && 0 <= newsz
  {
    oldsz <= newsz <= USERPAGES * PGSIZE && pages >= Up(newsz) - Up(oldsz)
  }

  ghost predicate MappedMore(mem: Frames, m: Frames, d: int, v: nat, p: int) {
    forall x: nat :: x < VPAGES ==> Lookup(m, d, x) == if x == v then To(p, true, true) else Lookup(mem, d, x)
  }

  /** The contents of user page v. */
  predicate Holds(mem: Frames, d: int, v: nat, b: seq<int>) {
    Lookup(mem, d, v).To? && Lookup(mem, d, v).frame in mem && mem[Lookup(mem, d, v).frame] == Data(b)
  }

  /** Pages from..to are new zero pages, the others are translated as before. */
  ghost predicate Longer(mem: Frames, m: Frames, d: int, from: nat, to: nat) {
    && (forall x: nat :: from <= x < to ==> Holds(m, d, x, Zeros()))
    && forall x: nat :: x < VPAGES && !(from <= x < to) ==> Lookup(m, d, x) == Lookup(mem, d, x)
  }

  ghost predicate SameOwned(own: Owned, own2: Owned) {
    (forall p <- own2 :: p in own) && forall p <- own :: p in own2 && own2[p] == own[p]
  }

  /** own2 is own and user pages from..to. */
  ghost predicate Added(own: Owned, own2: Owned, from: nat, to: nat) {
    && (forall p <- own :: p in own2 && own2[p] == own[p])
    && forall p <- own2 :: p !in own ==> own2[p].User? && from <= own2[p].v < to
  }

  lemma NothingAdded(mem: Frames, d: int, own: Owned, a: nat)
    ensures Longer(mem, mem, d, a, a) && Added(own, own, a, a)
  {
  }

  lemma UserAdded(mem: Frames, m: Frames, d: int, own: Owned, low: int, data: nat, v: nat, p: int)
    requires Space(mem, d, own, low, data) && v < USERPAGES && Lookup(mem, d, v).Absent? && p !in own
    requires p in mem && mem[p].Data? && 0 < low <= p < PHYSPAGES
    requires Tree(m, d, own, low) && Mapped(mem, m, d, v, v + 1, p, true, true) && OneStore(mem, m, d, v, own)
    ensures Space(m, d, own[p := User(v)], low, data) && MappedMore(mem, m, d, v, p)
    ensures Kept(mem, m, own, []) && UserKept(mem, m, own) && m[p] == mem[p]
  {
    hide Lookup;
    var own2 := own[p := User(v)];
    assert Tree(m, d, own2, low);
    assert forall x: nat :: x < VPAGES ==> Lookup(m, d, x) == if x == v then To(p, true, true) else Lookup(mem, d, x);
  }

  /** A page fresh from the pool, filled, belongs to nobody. */
  lemma NewPage(mem: Frames, m: Frames, d: int, own: Owned, low: int, data: nat, head: int, fl: seq<int>,
          fl1: seq<int>, p: int, b: seq<int>)
    requires Space(mem, d, own, low, data) && Apart(own, fl1) && p in fl1 && p !in fl && m == mem[p := Data(b)]
    requires FreeList(mem, head, fl, low)
    ensures p !in own && Space(m, d, own, low, data) && FreeList(m, head, fl, low) && SamePages(mem, m, own)
            && SameLookups(mem, m, d)
  {
    SameSpace(mem, m, d, own, low, data);
    SameTree(mem, m, d, own, low);
    SameFreeList(mem, m, head, fl, low);
  }

  lemma LongerFree(mem: Frames, m1: Frames, m2: Frames, d: int, from: nat, a: nat, own: Owned, low: int, data: nat)
    requires UserPages(mem, d, from) && Longer(mem, m1, d, from, a) && SameLookups(m1, m2, d) && from <= a < USERPAGES
    ensures Lookup(m2, d, a).Absent?
  {
    hide Lookup;
  }

  /** A turn of allocuvm that finds a page. */
  lemma Lengthened(m0: Frames, m1: Frames, m2: Frames, m3: Frames, own: Owned, own1: Owned, own2: Owned, fl0: seq<int>,
          fl1: seq<int>, fl2: seq<int>,
    d: int, from: nat, a: nat, p: int, low: int, data: nat)
    requires Longer(m0, m1, d, from, a) && Added(own, own1, from, a) && from <= a < USERPAGES
    requires Conserved(fl0, own, fl1, own1) && Kept(m0, m1, own, fl0) && UserKept(m0, m1, own) && Apart(own1, fl1)
    requires Space(m1, d, own1, low, data)
    requires forall q :: q in fl1 <==> q in fl2 || q == p
    requires p !in own1 && p !in fl2 && m2 == m1[p := Data(Zeros())] && SameLookups(m1, m2, d)
    requires own2 == own1[p := User(a)] && MappedMore(m2, m3, d, a, p) && Kept(m2, m3, own1, fl2)
             && UserKept(m2, m3, own1) && p in m3 && m3[p] == m2[p]
    ensures Longer(m0, m3, d, from, a + 1) && Added(own, own2, from, a + 1)
    ensures Conserved(fl0, own, fl2, own2) && Kept(m0, m3, own, fl0) && UserKept(m0, m3, own) && Apart(own2, fl2)
  {
    hide Lookup, Tree, KernelPart, Zeros;
    forall x: nat | from <= x < a
      ensures Holds(m3, d, x, Zeros())
    {
      assert Holds(m1, d, x, Zeros());
      assert Lookup(m1, d, x).frame in own1 && own1[Lookup(m1, d, x).frame] == User(x);
      assert Lookup(m3, d, x) == Lookup(m2, d, x);
    }
    assert Lookup(m3, d, a) == To(p, true, true);
  }

  /** allocuvm's failure: what was added is gone again. */
  lemma Undone(m0: Frames, m1: Frames, m2: Frames, own: Owned, own1: Owned, own2: Owned, fl0: seq<int>, fl1: seq<int>,
          fl2: seq<int>,
    d: int, from: nat, a: nat, to: nat)
    requires Longer(m0, m1, d, from, a) && Added(own, own1, from, a) && from <= a <= to <= USERPAGES
             && UserPages(m0, d, from)
    requires Conserved(fl0, own, fl1, own1) && Kept(m0, m1, own, fl0) && UserKept(m0, m1, own)
    requires (from < to ==> Without(own1, own2, from, to) && Unmapped(m1, m2, d, from, to)) && from < to
    requires Conserved(fl1, own1, fl2, own2) && Kept(m1, m2, own1, fl1) && UserKept(m1, m2, own2)
    requires forall p <- own :: own[p].User? ==> own[p].v < from
    ensures SameOwned(own, own2) && SameLookups(m0, m2, d) && Conserved(fl0, own, fl2, own2) && Kept(m0, m2, own, fl0)
            && UserKept(m0, m2, own)
  {
    hide Lookup;
    forall x: nat | x < VPAGES
      ensures Lookup(m2, d, x) == Lookup(m0, d, x)
    {
      if from <= x < to {
        assert x < USERPAGES;
      }
    }
    assert forall p <- own :: own[p].User? && p in m0 ==> p in m1 && m1[p] == m0[p] && own1[p].User?;
  }

  lemma UserBelow(mem: Frames, d: int, own: Owned, low: int, data: nat, n: nat)
    requires Space(mem, d, own, low, data) && UserPages(mem, d, n)
    ensures forall p <- own :: own[p].User? ==> own[p].v < n
  {
    hide Lookup;
  }

  /** PGROUNDUP, in pages. */
  function Up(sz: int): (n: nat)
    requires 0 <= sz
  {
    (sz + PGSIZE - 1) / PGSIZE
  }

  lemma UpFacts(sz: int)
    requires 0 <= sz
    ensures (sz <= USERPAGES * PGSIZE ==> Up(sz) <= USERPAGES) && forall a: nat :: a * PGSIZE < sz <==> a < Up(sz)
    ensures forall b: int :: sz <= b ==> Up(sz) <= Up(b)
  {
  }

  lemma UpStep(sz: int, a: nat)
    requires 0 <= sz
    ensures a * PGSIZE < sz <==> a < Up(sz)
  {
  }

  /** own2 is own without the user pages from..to. */
  ghost predicate Without(own: Owned, own2: Owned, from: nat, to: nat) {
    && (forall p <- own2 :: p in own && own2[p] == own[p])
    && forall p <- own :: p in own2 <==> !(own[p].User? && from <= own[p].v < to)
  }

  ghost predicate Unmapped(mem: Frames, m: Frames, d: int, from: nat, to: nat) {
    forall x: nat :: x < VPAGES ==> Lookup(m, d, x) == if from <= x < to then Absent else Lookup(mem, d, x)
  }

  /** The first table serves the whole user half. */
  lemma EntryOf(mem: Frames, d: int, own: Owned, low: int, data: nat, v: nat)
    requires Space(mem, d, own, low, data) && v < USERPAGES
    ensures HasTable(mem, d, v)
    ensures var t := mem[d].e[Pdx(v)].frame;
            IsTable(mem, t) && t in own && own[t] == Tab(Pdx(v)) && Lookup(mem, d, v) == mem[t].e[Ptx(v)]
  {
    IndexFacts(v);
    IndexFacts(USERPAGES);
    assert Lookup(mem, d, USERPAGES) == KernelEntry(USERPAGES, data);
  }

  /** The user page v of the space, on its way out: still in the table, no longer owned. */
  lemma PageGone(mem: Frames, m: Frames, d: int, own: Owned, low: int, data: nat, v: nat, p: int)
    requires Space(mem, d, own, low, data) && v < USERPAGES && Lookup(mem, d, v).To? && Lookup(mem, d, v).frame == p
    requires p in m && forall q <- mem :: q != p ==> q in m && m[q] == mem[q]
    ensures p in own && own[p] == User(v) && Tree(m, d, own - {p}, low)
    ensures forall w: nat :: Lookup(m, d, w) == Lookup(mem, d, w)
  {
    SameTree(mem, m, d, own - {p}, low);
  }

  lemma UserRemoved(mem: Frames, m1: Frames, m: Frames, d: int, own: Owned, low: int, data: nat, v: nat, p: int)
    requires Space(mem, d, own, low, data) && v < USERPAGES && p in own && own[p] == User(v)
    requires Tree(m, d, own - {p}, low) && forall w: nat :: Lookup(m1, d, w) == Lookup(mem, d, w)
    requires forall q <- mem :: q != p ==> q in m1 && m1[q] == mem[q]
    requires forall w: nat :: w < VPAGES ==> Lookup(m, d, w) == if w == v then Absent else Lookup(m1, d, w)
    requires UserKept(m1, m, own - {p})
    ensures Space(m, d, own - {p}, low, data) && Unmapped(mem, m, d, v, v + 1) && Without(own, own - {p}, v, v + 1)
  {
    hide Lookup, Tree;
    forall q <- own | own[q] == User(v)
      ensures q == p
    {
      assert Lookup(mem, d, own[q].v) == To(q, true, true);
      assert Lookup(mem, d, own[p].v) == To(p, true, true);
    }
  }

  lemma PageReturned(mem: Frames, m1: Frames, m: Frames, own: Owned, own2: Owned, fl: seq<int>, fl2: seq<int>, p: int,
          d: int, t: int, v: nat)
    requires p in own && own2 == own - {p} && fl2 == [p] + fl && p !in fl && Apart(own, fl) && t in own && own[t].Tab?
    requires forall q <- mem :: q != p ==> q in m1 && m1[q] == mem[q]
    requires forall q <- m1 :: q != t ==> q in m && m[q] == m1[q]
    ensures Conserved(fl, own, fl2, own2) && Apart(own2, fl2) && Kept(mem, m, own, fl) && UserKept(mem, m, own2)
  {
  }

  lemma Shrinking(m0: Frames, m1: Frames, m2: Frames, own: Owned, own1: Owned, own2: Owned, fl0: seq<int>,
          fl1: seq<int>, fl2: seq<int>, d: int, from: nat, a: nat)
    requires from <= a && Without(own, own1, from, a) && Without(own1, own2, a, a + 1)
    requires Unmapped(m0, m1, d, from, a) && Unmapped(m1, m2, d, a, a + 1)
    requires Conserved(fl0, own, fl1, own1) && Conserved(fl1, own1, fl2, own2)
    requires Kept(m0, m1, own, fl0) && Kept(m1, m2, own1, fl1) && UserKept(m0, m1, own1) && UserKept(m1, m2, own2)
    ensures Without(own, own2, from, a + 1) && Unmapped(m0, m2, d, from, a + 1)
    ensures Conserved(fl0, own, fl2, own2) && Kept(m0, m2, own, fl0) && UserKept(m0, m2, own2)
  {
  }

  // ---- Counting setupkvm's pages ---------------------------------------------------------------------------------

  /** The directory, four tables for the low 16 MB and eight for the devices. */
  const KVMPAGES := 13

  predicate KernelTab(i: nat) {
    i < 4 || 1016 <= i < 1024
  }

  ghost predicate KernelTabs(own: Owned) {
    forall p <- own :: own[p].Tab? ==> KernelTab(own[p].i)
  }

  /** The new tables are for directory entries lo..hi. */
  ghost predicate TabsWithin(own: Owned, own2: Owned, lo: nat, hi: nat) {
    forall p <- own2 :: p !in own ==> own2[p].Tab? && lo <= own2[p].i <= hi
  }

  predicate NoTable(mem: Frames, d: int, v: nat) {
    IsTable(mem, d) && Pdx(v) < ENTRIES && mem[d].e[Pdx(v)].Absent?
  }

  lemma NoTabsYet(own: Owned, lo: nat, hi: nat)
    ensures TabsWithin(own, own, lo, hi)
  {
  }

  lemma MoreTabs(own: Owned, own1: Owned, own2: Owned, lo: nat, hi: nat, i: nat)
    requires TabsWithin(own, own1, lo, hi) && TabsWithin(own1, own2, i, i) && lo <= i <= hi && TablesAdded(own1, own2)
    ensures TabsWithin(own, own2, lo, hi)
  {
  }

  lemma PdxMonotone(a: nat, b: nat, c: nat)
    requires a <= b <= c
    ensures Pdx(a) <= Pdx(b) <= Pdx(c)
  {
  }

  /** The directory entries that serve the k-th kernel range. */
  lemma KmapTabs(data: nat, k: nat, v: nat)
    requires k < |Kmap(data)| && IOEND < data < PHYSPAGES && Kmap(data)[k].p <= v < Kmap(data)[k].e
    ensures KernelTab(Pdx(v)) && (if k < 3 then Pdx(v) < 4 else 1016 <= Pdx(v) < 1024)
  {
    hide Pdx;
    KmapRange(data, k, v);
    PdxOfRanges(v);
  }

  lemma KmapRange(data: nat, k: nat, v: nat)
    requires k < |Kmap(data)| && IOEND < data < PHYSPAGES && Kmap(data)[k].p <= v < Kmap(data)[k].e
    ensures if k < 3 then v < PHYSPAGES else DEVICES <= v < VPAGES
  {
  }

  lemma PdxOfRanges(v: nat)
    ensures v < PHYSPAGES ==> Pdx(v) < 4
    ensures DEVICES <= v < VPAGES ==> 1016 <= Pdx(v) < 1024
  {
  }

  lemma KernelTabsStep(own: Owned, own2: Owned, lo: nat, hi: nat)
    requires KernelTabs(own) && TablesAdded(own, own2) && TabsWithin(own, own2, lo, hi)
    requires hi < 4 || 1016 <= lo <= hi < 1024
    ensures KernelTabs(own2)
  {
  }

  /** The directory entries in use. */
  ghost function Tabs(mem: Frames, d: int): set<nat>
    requires IsTable(mem, d)
  {
    set i: nat | i < ENTRIES && mem[d].e[i].To?
  }

  /** An address space without user pages owns its directory and a table for each entry. */
  lemma TreeSize(mem: Frames, d: int, own: Owned, low: int)
    requires Tree(mem, d, own, low) && forall p <- own :: !own[p].User?
    ensures IsTable(mem, d) && |own| == 1 + |Tabs(mem, d)|
  {
    var m := map p | p in own && own[p].Tab? :: own[p].i;
    assert Injective(m);
    ImageSize(m.Keys, m);
    assert Image(m.Keys, m) == Tabs(mem, d) by {
      forall i | i in Tabs(mem, d)
        ensures i in Image(m.Keys, m)
      {
        assert mem[d].e[i].frame in m.Keys && m[mem[d].e[i].frame] == i;
      }
    }
    forall p | p in own.Keys
      ensures p in m.Keys + {d}
    {
      assert own[p].Tab? || p == d;
    }
    assert own.Keys == m.Keys + {d};
    assert |own| == |own.Keys|;
  }

  ghost function KernelTabSet(): (s: set<nat>)
    ensures |s| == 12 && forall i: nat :: i in s <==> KernelTab(i)
  {
    UnionSize(Counting.Range(0, 4), Counting.Range(1016, 1024));
    Counting.Range(0, 4) + Counting.Range(1016, 1024)
  }

  lemma TabsAreKernel(mem: Frames, d: int, own: Owned, low: int)
    requires Tree(mem, d, own, low) && KernelTabs(own)
    ensures IsTable(mem, d) && Tabs(mem, d) <= KernelTabSet()
  {
  }

  lemma TooFewTables(mem: Frames, d: int, own: Owned, low: int, data: nat, k: nat, v: nat)
    requires Tree(mem, d, own, low) && KernelTabs(own) && (forall p <- own :: !own[p].User?) && IOEND < data < PHYSPAGES
    requires k < |Kmap(data)| && Kmap(data)[k].p <= v < Kmap(data)[k].e && NoTable(mem, d, v)
    ensures |own| < KVMPAGES
  {
    TreeSize(mem, d, own, low);
    TabsAreKernel(mem, d, own, low);
    KmapTabs(data, k, v);
    hide Pdx, Kmap, Tree, KernelTabs;
    assert Pdx(v) in KernelTabSet() && Pdx(v) !in Tabs(mem, d);
    SubsetSize(Tabs(mem, d), KernelTabSet());
  }

  lemma AllKernelTables(mem: Frames, d: int, own: Owned, low: int, data: nat)
    requires Tree(mem, d, own, low) && KernelTabs(own) && (forall p <- own :: !own[p].User?) && IOEND < data < PHYSPAGES
    requires KernelPart(mem, d, data, VPAGES)
    ensures |own| == KVMPAGES
  {
    TreeSize(mem, d, own, low);
    TabsAreKernel(mem, d, own, low);
    KernelIsTabs(mem, d, own, low, data);
    hide Tree, KernelPart, KernelTab, KernelTabs, Lookup, Pdx, Tabs, KernelTabSet;
    SubsetSize(Tabs(mem, d), KernelTabSet());
    SubsetSize(KernelTabSet(), Tabs(mem, d));
  }

  lemma KernelIsTabs(mem: Frames, d: int, own: Owned, low: int, data: nat)
    requires Tree(mem, d, own, low) && KernelPart(mem, d, data, VPAGES) && IOEND < data < PHYSPAGES
    ensures IsTable(mem, d) && KernelTabSet() <= Tabs(mem, d)
  {
    hide KernelPart, KernelTab, Lookup, Pdx;
    forall i | i in KernelTabSet()
      ensures i in Tabs(mem, d)
    {
      KernelTable(mem, d, own, low, data, i);
    }
  }

  lemma KernelTable(mem: Frames, d: int, own: Owned, low: int, data: nat, i: nat)
    requires Tree(mem, d, own, low) && KernelPart(mem, d, data, VPAGES) && KernelTab(i) && IOEND < data < PHYSPAGES
    ensures IsTable(mem, d) && i < ENTRIES && mem[d].e[i].To?
  {
    var v := KernelPage(data, i);
    hide Tree, Pdx, KernelEntry;
    assert Lookup(mem, d, v) == KernelEntry(v, data);
  }

  /** A page that the kernel maps through directory entry i. */
  lemma KernelPage(data: nat, i: nat) returns (v: nat)
    requires KernelTab(i) && IOEND < data < PHYSPAGES
    ensures USERPAGES <= v < VPAGES && Pdx(v) == i && KernelEntry(v, data).To?
  {
    v := if i == 0 then USERPAGES else ENTRIES * i;
  }

  /** What a new address space owns has left the pool. */
  lemma PagesCount(mem: Frames, head: int, fl: seq<int>, m: Frames, head2: int, fl2: seq<int>, own: Owned, low: int)
    requires FreeList(mem, head, fl, low) && FreeList(m, head2, fl2, low) && Conserved(fl, map[], fl2, own)
             && Apart(own, fl2)
    ensures |fl| == |fl2| + |own|
  {
    DistinctSize(fl);
    DistinctSize(fl2);
    hide FreeList, Distinct;
    var a, b := set p | p in fl, set p | p in fl2;
    assert forall p :: p in a <==> p in fl;
    assert forall p :: p in b <==> p in fl2;
    assert a == b + own.Keys;
    assert b !! own.Keys;
    assert |own| == |own.Keys|;
  }

  datatype Range = Range(p: nat, e: nat, w: bool)

  /** kmap: I/O space, kernel text, kernel data and memory, devices. */
  function Kmap(data: nat): seq<Range> {
    [Range(USERPAGES, IOEND, true), Range(IOEND, data, false), Range(data, PHYSPAGES, true),
        Range(DEVICES, VPAGES, true)]
  }

  /** Where the k-th mapping starts. */
  function Upto(data: nat, k: nat): nat {
    if k < |Kmap(data)| then Kmap(data)[k].p else VPAGES
  }

  ghost predicate NoUser(mem: Frames, d: int, own: Owned) {
    && (forall p <- own :: !own[p].User?)
    && forall v: nat :: v < USERPAGES ==> Lookup(mem, d, v).Absent?
  }

  /** Exactly the first n pages of the user half are mapped. */
  ghost predicate UserPages(mem: Frames, d: int, n: nat) {
    forall v: nat :: v < USERPAGES ==> (Lookup(mem, d, v).To? <==> v < n)
  }

  lemma EmptyDirectory(mem: Frames, d: int, low: int, data: nat)
    requires d in mem && mem[d] == Table(ZeroTable()) && 0 < low <= d < PHYSPAGES
    ensures Tree(mem, d, map[d := Dir], low) && KernelPart(mem, d, data, Upto(data, 0)) && NoUser(mem, d, map[d := Dir])
  {
    forall v: nat | v < VPAGES
      ensures Lookup(mem, d, v) == Absent
    {
      IndexFacts(v);
      assert ZeroTable()[Pdx(v)] == Absent;
    }
  }

  lemma FreeAbove(mem: Frames, d: int, data: nat, k: nat)
    requires KernelPart(mem, d, data, Upto(data, k)) && k < |Kmap(data)| && IOEND < data < PHYSPAGES
    ensures forall x: nat :: Kmap(data)[k].p <= x < Kmap(data)[k].e ==> Lookup(mem, d, x).Absent?
  {
  }

  lemma KernelStep(mem: Frames, m: Frames, d: int, data: nat, k: nat)
    requires KernelPart(mem, d, data, Upto(data, k)) && k < |Kmap(data)| && IOEND < data < PHYSPAGES
    requires var r := Kmap(data)[k];
             Mapped(mem, m, d, r.p, r.e, r.p, r.w, false)
    ensures KernelPart(m, d, data, Upto(data, k + 1))
  {
    hide Lookup;
  }

  lemma StillNoUser(mem: Frames, m: Frames, d: int, own: Owned, own2: Owned, from: nat, to: nat, pa: int, w: bool)
    requires NoUser(mem, d, own) && TablesAdded(own, own2) && Mapped(mem, m, d, from, to, pa, w, false)
             && USERPAGES <= from
    ensures NoUser(m, d, own2)
  {
    hide Lookup;
  }

  lemma NoUserIsUserPart(mem: Frames, d: int, own: Owned)
    requires NoUser(mem, d, own)
    ensures UserPart(mem, d, own) && UserPages(mem, d, 0)
  {
    hide Lookup;
  }

  lemma GrownAgain(m0: Frames, m1: Frames, m2: Frames, own1: Owned, own2: Owned, fl0: seq<int>, fl1: seq<int>,
          fl2: seq<int>)
    requires Conserved(fl0, map[], fl1, own1) && Conserved(fl1, own1, fl2, own2)
    requires Kept(m0, m1, map[], fl0) && Kept(m1, m2, own1, fl1)
    ensures Conserved(fl0, map[], fl2, own2) && Kept(m0, m2, map[], fl0)
  {
  }

  predicate HasTable(mem: Frames, d: int, v: nat) {
    IsTable(mem, d) && Pdx(v) < ENTRIES && mem[d].e[Pdx(v)].To?
  }

  /** Only the table of v's entry has been written. */
  ghost predicate OneStore(mem: Frames, m: Frames, d: int, v: nat, own: Owned) {
    && HasTable(mem, d, v)
    && var t := mem[d].e[Pdx(v)].frame;
       && t in own && own[t].Tab? && forall p <- mem :: p != t ==> p in m && m[p] == mem[p]
  }

  ghost predicate Mapped(mem: Frames, m: Frames, d: int, from: nat, to: nat, pa: int, w: bool, u: bool) {
    forall x: nat :: x < VPAGES ==>
      Lookup(m, d, x) == if from <= x < to then To(pa + (x - from), w, u) else Lookup(mem, d, x)
  }

  lemma NothingYet(mem: Frames, d: int, first: nat, pa: int, w: bool, u: bool, own: Owned, fl: seq<int>)
    ensures Mapped(mem, mem, d, first, first, pa, w, u) && TablesAdded(own, own) && Conserved(fl, own, fl, own)
    ensures Kept(mem, mem, own, fl) && UserKept(mem, mem, own)
  {
  }

  lemma StillUnmapped(mem: Frames, m: Frames, d: int, first: nat, a: nat, pa: int, w: bool, u: bool)
    requires Mapped(mem, m, d, first, a, pa, w, u) && first <= a < VPAGES
    ensures Lookup(m, d, a) == Lookup(mem, d, a)
  {
  }

  lemma StoredOnce(mem: Frames, m: Frames, d: int, v: nat, own: Owned, t: int)
    requires HasTable(mem, d, v) && mem[d].e[Pdx(v)].frame == t && t in own && own[t].Tab?
    requires forall p <- mem :: p != t ==> p in m && m[p] == mem[p]
    ensures OneStore(mem, m, d, v, own)
  {
  }

  lemma WalkedOnly(m0: Frames, m1: Frames, m2: Frames, own: Owned, own1: Owned, own2: Owned, fl0: seq<int>,
          fl1: seq<int>, fl2: seq<int>)
    requires TablesAdded(own, own1) && TablesAdded(own1, own2) && Conserved(fl0, own, fl1, own1)
             && Conserved(fl1, own1, fl2, own2)
    requires Kept(m0, m1, own, fl0) && Kept(m1, m2, own1, fl1) && UserKept(m0, m1, own) && UserKept(m1, m2, own1)
    ensures TablesAdded(own, own2) && Conserved(fl0, own, fl2, own2) && Kept(m0, m2, own, fl0) && UserKept(m0, m2, own)
  {
  }

  lemma StillMapped(mem: Frames, m1: Frames, m2: Frames, d: int, from: nat, to: nat, pa: int, w: bool, u: bool)
    requires Mapped(mem, m1, d, from, to, pa, w, u) && SameLookups(m1, m2, d)
    ensures Mapped(mem, m2, d, from, to, pa, w, u)
  {
  }

  lemma OneMore(mem: Frames, m1: Frames, m2: Frames, d: int, from: nat, a: nat, pa: int, w: bool, u: bool)
    requires Mapped(mem, m1, d, from, a, pa, w, u) && from <= a < VPAGES
    requires forall x: nat :: x < VPAGES ==>
               Lookup(m2, d, x) == if x == a then To(pa + (a - from), w, u) else Lookup(m1, d, x)
    ensures Mapped(mem, m2, d, from, a + 1, pa, w, u)
  {
  }

  /** A step of walkpgdir and a store, after steps of the same kind. */
  lemma Grown(m0: Frames, m1: Frames, m2: Frames, m3: Frames, own: Owned, own1: Owned, own2: Owned, fl0: seq<int>,
          fl1: seq<int>, fl2: seq<int>)
    requires TablesAdded(own, own1) && TablesAdded(own1, own2) && Conserved(fl0, own, fl1, own1)
             && Conserved(fl1, own1, fl2, own2)
    requires Kept(m0, m1, own, fl0) && Kept(m1, m2, own1, fl1) && Kept(m2, m3, own2, fl2)
    requires UserKept(m0, m1, own) && UserKept(m1, m2, own1) && UserKept(m2, m3, own2)
    ensures TablesAdded(own, own2) && Conserved(fl0, own, fl2, own2) && Kept(m0, m3, own, fl0) && UserKept(m0, m3, own)
  {
  }
}
