/**
 The linked structures behind the protocol: bcache's doubly linked list with
 its sentinel head, and ide.c's singly linked request queue.  Buffers are named
 by index; the list's head is index n.
 */
module BufList {
  import opened BufProto
  import opened Options

  /** What one pass of bget finds. */
  datatype Pass = Take(b: nat) | SleepOn(b: nat) | NoBuffer

  /** The i-th node of the ring of a list: node 0 and node |order| + 1 are the head. */
  function Node(order: seq<nat>, head: nat, i: nat): nat {
    if 0 < i <= |order| then order[i - 1] else head
  }

  /** The link between nodes i and i + 1, in both directions. */
  ghost predicate Linked(next: seq<nat>, prev: seq<nat>, order: seq<nat>, head: nat, i: nat)
    requires Indices(order, head) && |next| == head + 1 && |prev| == head + 1
  {
    next[Node(order, head, i)] == Node(order, head, i + 1) && prev[Node(order, head, i + 1)] == Node(order, head, i)
  }

  /** next and prev link the head and `order` into one ring, both ways round. */
  ghost predicate IsRing(next: seq<nat>, prev: seq<nat>, order: seq<nat>, head: nat) {
    && Indices(order, head) && |next| == head + 1 && |prev| == head + 1
    && (forall i: nat, j: nat :: i < j < |order| ==> order[i] != order[j])
    && (forall i: nat :: i <= |order| ==> Linked(next, prev, order, head, i))
  }

  lemma RingPush(next: seq<nat>, prev: seq<nat>, order: seq<nat>, head: nat, b: nat)
    requires IsRing(next, prev, order, head) && b < head && b !in order
    ensures next[head] < head + 1
    ensures IsRing(next[b := next[head]][head := b], prev[b := head][next[head] := b], [b] + order, head)
  {
    assert Linked(next, prev, order, head, 0);
    var next', prev', order' := next[b := next[head]][head := b], prev[b := head][next[head] := b], [b] + order;
    forall i: nat | i <= |order'|
      ensures Linked(next', prev', order', head, i)
    {
      if i > 1 {
        assert Linked(next, prev, order, head, i - 1);
        assert Node(order', head, i) == order[i - 2];
        assert order[i - 2] in order;
        if i <= |order| { assert order[i - 1] != order[0]; }
      }
    }
  }

  lemma RingUnlink(next: seq<nat>, prev: seq<nat>, order: seq<nat>, head: nat, i: nat)
    requires IsRing(next, prev, order, head) && i < |order|
    ensures next[order[i]] < head + 1 && prev[order[i]] < head + 1
    ensures var b := order[i];
      IsRing(next[prev[b] := next[b]], prev[next[b] := prev[b]], order[..i] + order[i + 1..], head)
  {
    var b := order[i];
    assert Linked(next, prev, order, head, i) && Linked(next, prev, order, head, i + 1);
    var next', prev', order' := next[prev[b] := next[b]], prev[next[b] := prev[b]], order[..i] + order[i + 1..];
    forall k: nat | k <= |order'|
      ensures Linked(next', prev', order', head, k)
    {
      var q := if k <= i then k else k + 1;
      assert Node(order', head, k) == Node(order, head, q);
      assert Linked(next, prev, order, head, q);
      if k < i {
        assert Node(order', head, k + 1) == Node(order, head, k + 1);
      } else {
        assert Node(order', head, k + 1) == Node(order, head, k + 2);
      }
    }
  }

  class Bcache {
    const n: nat
    var next: array<nat>
    var prev: array<nat>
    var bufs: array<Buf>
    ghost var order: seq<nat>

    ghost predicate Arrays()
      reads this
    {
      && next.Length == n + 1 && prev.Length == n + 1 && bufs.Length == n && next != prev
    }

    ghost predicate Ring()
      reads this, next, prev
    {
      Arrays() && IsRing(next[..], prev[..], order, n)
    }

    /** All buffers are on the list. */
    ghost predicate Valid()
      reads this, next, prev
    {
      Ring() && |order| == n
    }

    constructor (n: nat, blank: Buf)
      ensures this.n == n && Arrays() && fresh(next) && fresh(prev) && fresh(bufs)
      ensures forall b: nat :: b < n ==> bufs[b] == blank
    {
      this.n := n;
      next := new nat[n + 1](_ => 0);
      prev := new nat[n + 1](_ => 0);
      bufs := new Buf[n](_ => blank);
    }

    /** `b->next = head.next; b->prev = &head; head.next->prev = b; head.next = b`. */
    method PushFront(b: nat)
      requires Ring() && b < n && b !in order
      modifies this`order, next, prev
      ensures Ring() && order == [b] + old(order)
    {
      RingPush(next[..], prev[..], order, n, b);
      next[b] := next[n];
      prev[b] := n;
      prev[next[n]] := b;
      next[n] := b;
      assert next[..] == old(next[..])[b := old(next[n])][n := b];
      assert prev[..] == old(prev[..])[b := n][old(next[n]) := b];
      order := [b] + order;
    }

    /** `b->next->prev = b->prev; b->prev->next = b->next`. */
    method Unlink(b: nat, ghost i: nat)
      requires Ring() && i < |order| && order[i] == b
      modifies this`order, next, prev
      ensures Ring() && order == old(order)[..i] + old(order)[i + 1..] && b !in order
    {
      RingUnlink(next[..], prev[..], order, n, i);
      prev[next[b]] := prev[b];
      next[prev[b]] := next[b];
      assert Linked(old(next[..]), old(prev[..]), order, n, i + 1);
      assert prev[..] == old(prev[..])[old(next[b]) := old(prev[b])];
      assert next[..] == old(next[..])[old(prev[b]) := old(next[b])];
      order := order[..i] + order[i + 1..];
    }

    /** binit: every buffer pushed in turn, with dev -1. */
    method Binit()
      requires Arrays() && forall b: nat :: b < n ==>
                 !bufs[b].busy && !bufs[b].valid && !bufs[b].dirty && bufs[b].owner.None?
      modifies this`order, next, prev, bufs
      ensures Valid() && forall i: nat :: i < n ==> order[i] == n - 1 - i
      ensures forall b: nat :: b < n ==> bufs[b] == Buf(false, false, false, Key(-1, 0), old(bufs[b]).data, None)
    {
      prev[n] := n;
      next[n] := n;
      order := [];
      assert Linked(next[..], prev[..], order, n, 0);
      var b := 0;
      while b < n
        invariant b <= n && Ring() && |order| == b
        invariant forall i: nat :: i < b ==> order[i] == b - 1 - i
        invariant forall c: nat :: c < n ==>
          bufs[c] == if c < b then Buf(false, false, false, Key(-1, 0), old(bufs[c]).data, None) else old(bufs[c])
      {
        PushFront(b);
        bufs[b] := bufs[b].(key := Key(-1, 0));
        b := b + 1;
      }
    }

    /** One pass of bget for process p: forward for the key, then backward for a free buffer. */
    method Bget(k: Key, p: nat) returns (r: Pass)
      requires Valid()
      modifies bufs
      ensures var i := old(FindKey(bufs[..], order, k, 0));
        var f := old(FindFree(bufs[..], order, n));
        if i < n then
          if old(bufs[order[i]].busy) then r == SleepOn(order[i]) && bufs[..] == old(bufs[..])
          else
            r == Take(order[i])
            && bufs[..] == old(bufs[..])[order[i] := old(bufs[order[i]]).(busy := true, owner := Some(p))]
        else if f >= 0 then
          r == Take(order[f])
          && bufs[..] == old(bufs[..])[order[f] := Buf(true, false, false, k, old(bufs[order[f]]).data, Some(p))]
        else r == NoBuffer && bufs[..] == old(bufs[..])
    {
      var b := next[n];
      ghost var i := 0;
      assert Linked(next[..], prev[..], order, n, 0);
      while b != n
        invariant i <= n && b == Node(order, n, i + 1)
        invariant FindKey(bufs[..], order, k, 0) == FindKey(bufs[..], order, k, i)
        decreases n - i
      {
        if bufs[b].key == k {
          if !bufs[b].busy {
            bufs[b] := bufs[b].(busy := true, owner := Some(p));
            return Take(b);
          }
          return SleepOn(b);
        }
        assert Linked(next[..], prev[..], order, n, i + 1);
        b := next[b];
        i := i + 1;
      }
      assert i == n;
      ghost var j: nat := n;
      assert Linked(next[..], prev[..], order, n, n);
      b := prev[n];
      while b != n
        invariant 0 <= j <= n && b == Node(order, n, j)
        invariant FindFree(bufs[..], order, n) == FindFree(bufs[..], order, j)
        decreases j
      {
        if !bufs[b].busy {
          bufs[b] := Buf(true, false, false, k, bufs[b].data, Some(p));
          return Take(b);
        }
        assert Linked(next[..], prev[..], order, n, j - 1);
        b := prev[b];
        j := j - 1;
      }
      r := NoBuffer;
    }

    /** brelse: move b to the front of the list and clear B_BUSY. */
    method Brelse(b: nat)
      requires Valid() && b < n && b in order
      modifies this`order, next, prev, bufs
      ensures Valid() && order == ToFront(old(order), IndexOf(old(order), b))
      ensures bufs[..] == old(bufs[..])[b := old(bufs[b]).(busy := false, owner := None)]
    {
      ghost var was, i := order, IndexOf(order, b);
      Unlink(b, i);
      PushFront(b);
      bufs[b] := bufs[b].(busy := false, owner := None);
      assert order == ToFront(was, i);
    }
  }

  class IdeQueue {
    const n: nat
    var idequeue: int              // -1 stands for the null pointer
    var qnext: array<int>
    ghost var queue: seq<nat>

    ghost function Link(i: nat): int
      reads this
    {
      if i < |queue| then queue[i] else -1
    }

    ghost predicate Valid()
      reads this, qnext
    {
      && qnext.Length == n && Indices(queue, n)
      && (forall i: nat, j: nat :: i < j < |queue| ==> queue[i] != queue[j])
      && idequeue == Link(0)
      && (forall i: nat :: i < |queue| ==> qnext[queue[i]] == Link(i + 1))
    }

    constructor (n: nat)
      ensures Valid() && this.n == n && queue == [] && fresh(qnext)
    {
      this.n := n;
      idequeue := -1;
      qnext := new int[n](_ => -1);
      queue := [];
    }

    /** iderw's append: walk to the null link and store b there; start is idestart's condition. */
    method Append(b: nat) returns (start: bool)
      requires Valid() && b < n && b !in queue
      modifies this`idequeue, this`queue, qnext
      ensures Valid() && queue == old(queue) + [b]
      ensures start <==> old(queue) == []
    {
      qnext[b] := -1;
      if idequeue == -1 {
        idequeue := b;
      } else {
        var pp := idequeue;
        ghost var i := 0;
        while qnext[pp] != -1
          invariant i < |queue| && pp == queue[i]
          invariant qnext.Length == n && Indices(queue, n) && qnext[b] == -1
          invariant forall i: nat :: i < |queue| ==> qnext[queue[i]] == Link(i + 1)
          decreases |queue| - i
        {
          pp := qnext[pp];
          i := i + 1;
        }
        qnext[pp] := b;
      }
      Appended(b);
      queue := queue + [b];
      start := idequeue == b;
    }

    lemma Appended(b: nat)
      requires b !in queue
      ensures forall i: nat :: i < |queue| ==> queue[i] != b
    {
    }

    /** ideintr's `idequeue = b->qnext`. */
    method Pop() returns (b: int)
      requires Valid()
      modifies this`idequeue, this`queue
      ensures Valid()
      ensures b == -1 <==> old(queue) == []
      ensures old(queue) != [] ==> b == old(queue)[0] && queue == old(queue)[1..]
      ensures old(queue) == [] ==> queue == []
    {
      b := idequeue;
      if b != -1 {
        idequeue := qnext[b];
        queue := queue[1..];
      }
    }
  }
}
