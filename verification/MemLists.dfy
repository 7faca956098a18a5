/**
 mem.c's free and allocated lists: headers doubly linked through memory, NULL as 0.
 */
module MemLists {
  import opened Counting
  import opened MemTiles

  /** struct node. */
  datatype Header = Header(size: int, free: bool, next: int, prev: int)

  type Memory = map<int, Header>

  function Nth(l: seq<int>, i: int): int {
    if 0 <= i < |l| then l[i] else 0
  }

  predicate LinkAt(h: Memory, l: seq<int>, i: nat) {
    i < |l| && l[i] != 0 && l[i] in h && h[l[i]].next == Nth(l, i + 1) && h[l[i]].prev == Nth(l, i - 1)
  }

  /** The headers of l, in that order, are one NULL-terminated list, linked both ways. */
  ghost predicate Chain(h: Memory, l: seq<int>) {
    forall i: nat :: i < |l| ==> LinkAt(h, l, i)
  }

  function Without(l: seq<int>, i: nat): seq<int>
    requires i < |l|
  {
    l[..i] + l[i + 1..]
  }

  /** h2 differs from h only in links. */
  ghost predicate SameSizes(h: Memory, h2: Memory) {
    forall a <- h :: a in h2 && h2[a].size == h[a].size && h2[a].free == h[a].free
  }

  function SetNext(h: Memory, a: int, v: int): Memory {
    if a in h then h[a := h[a].(next := v)] else h
  }

  function SetPrev(h: Memory, a: int, v: int): Memory {
    if a in h then h[a := h[a].(prev := v)] else h
  }

  /** The neighbours of x joined to each other, x's own links left as they are. */
  function Unlinked(h: Memory, x: int): Memory
    requires x in h
  {
    var n, p := h[x].next, h[x].prev;
    var h1 := if n != 0 then SetPrev(h, n, p) else h;
    if p != 0 then SetNext(h1, p, n) else h1
  }

  /** x put before the first header, if there is one. */
  function Pushed(h: Memory, x: int, first: int): Memory
    requires x in h
  {
    var h1 := SetNext(h, x, first);
    var h2 := if first != 0 then SetPrev(h1, first, x) else h1;
    SetPrev(h2, x, 0)
  }

  lemma UnlinkedChain(h: Memory, l: seq<int>, i: nat)
    requires Chain(h, l) && Distinct(l) && i < |l| && 0 !in l
    ensures l[i] in h && Chain(Unlinked(h, l[i]), Without(l, i)) && SameSizes(h, Unlinked(h, l[i]))
    ensures Distinct(Without(l, i)) && forall a :: a in Without(l, i) <==> a in l && a != l[i]
  {
    assert LinkAt(h, l, i);
    var r := Without(l, i);
    var h2 := Unlinked(h, l[i]);
    assert forall j: nat :: j < i ==> r[j] == l[j];
    assert forall j: nat :: i <= j < |r| ==> r[j] == l[j + 1];
    NeighbourLinks(h, l, i);
    forall j: nat | j < |r|
      ensures LinkAt(h2, r, j)
    {
      if j < i {
        LinkBefore(h, l, i, j);
      } else {
        LinkAfter(h, l, i, j + 1);
      }
    }
  }

  lemma NeighbourLinks(h: Memory, l: seq<int>, i: nat)
    requires Chain(h, l) && i < |l| && 0 !in l
    ensures l[i] in h && h[l[i]].next == Nth(l, i + 1) && h[l[i]].prev == Nth(l, i - 1)
    ensures i + 1 < |l| ==> l[i + 1] in h && l[i + 1] != 0
    ensures i > 0 ==> l[i - 1] in h && l[i - 1] != 0
  {
    assert LinkAt(h, l, i);
    assert i + 1 < |l| ==> LinkAt(h, l, i + 1);
    assert i > 0 ==> LinkAt(h, l, i - 1);
  }

  lemma LinkBefore(h: Memory, l: seq<int>, i: nat, j: nat)
    requires Chain(h, l) && Distinct(l) && j < i < |l| && 0 !in l
    ensures l[i] in h && l[j] in Unlinked(h, l[i])
    ensures var u := Unlinked(h, l[i])[l[j]];
            u.next == (if j + 1 == i then Nth(l, i + 1) else l[j + 1]) && u.prev == Nth(l, j - 1) && l[j] != 0
  {
    NeighbourLinks(h, l, i);
    NeighbourLinks(h, l, j);
  }

  lemma LinkAfter(h: Memory, l: seq<int>, i: nat, j: nat)
    requires Chain(h, l) && Distinct(l) && i < j < |l| && 0 !in l
    ensures l[i] in h && l[j] in Unlinked(h, l[i])
    ensures var u := Unlinked(h, l[i])[l[j]];
            u.next == Nth(l, j + 1) && u.prev == (if j - 1 == i then Nth(l, i - 1) else l[j - 1]) && l[j] != 0
  {
    NeighbourLinks(h, l, i);
    NeighbourLinks(h, l, j);
  }

  lemma PushedChain(h: Memory, l: seq<int>, x: int)
    requires Chain(h, l) && Distinct(l) && 0 !in l && x in h && x !in l && x != 0
    ensures Chain(Pushed(h, x, Nth(l, 0)), [x] + l) && SameSizes(h, Pushed(h, x, Nth(l, 0)))
    ensures Distinct([x] + l) && 0 !in [x] + l
  {
    var r, h2 := [x] + l, Pushed(h, x, Nth(l, 0));
    forall j: nat | j < |r|
      ensures LinkAt(h2, r, j)
    {
      if j > 0 {
        NeighbourLinks(h, l, j - 1);
      }
    }
  }

  /** A list none of whose headers is written keeps its links. */
  lemma OtherChain(h: Memory, h2: Memory, l: seq<int>)
    requires Chain(h, l) && forall a <- l :: a in h ==> a in h2 && h2[a].next == h[a].next && h2[a].prev == h[a].prev
    ensures Chain(h2, l)
  {
    forall j: nat | j < |l|
      ensures LinkAt(h2, l, j)
    {
      assert LinkAt(h, l, j) && l[j] in l;
    }
  }

  lemma UnlinkedOthers(h: Memory, l: seq<int>, i: nat, a: int)
    requires Chain(h, l) && i < |l| && 0 !in l && a in h && a !in l
    ensures l[i] in h && a in Unlinked(h, l[i]) && Unlinked(h, l[i])[a] == h[a]
    ensures Unlinked(h, l[i])[l[i]] == h[l[i]] || !Distinct(l)
  {
    NeighbourLinks(h, l, i);
  }

  lemma PushedOthers(h: Memory, l: seq<int>, x: int, a: int)
    requires Chain(h, l) && x in h && a in h && a !in l && a != x
    ensures a in Pushed(h, x, Nth(l, 0)) && Pushed(h, x, Nth(l, 0))[a] == h[a]
  {
  }
}
