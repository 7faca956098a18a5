/**
 server.c's request queue: a 1-based binary min-heap in connPool[1..size].
 */
module ServerHeap {
  /** struct data. */
  datatype Conn = Conn(priority: int, connfd: int, buff: string)

  // ---- Heaps as sequences -------------------------------------------------------------

  /** Parent i / 2 of every position 2..n-1 is not larger. */
  ghost predicate Heap(h: seq<Conn>, n: nat) {
    n <= |h| && forall i: nat :: 2 <= i < n ==> h[i / 2].priority <= h[i].priority
  }

  /** A heap but for the pair (at / 2, at): the element at `at` may be too small. */
  ghost predicate HeapButUp(h: seq<Conn>, n: nat, at: nat) {
    && 1 <= at < n <= |h|
    && (forall i: nat :: 2 <= i < n && i != at ==> h[i / 2].priority <= h[i].priority)
    && (forall i: nat :: 2 <= i < n && i / 2 == at && at >= 2 ==> h[at / 2].priority <= h[i].priority)
  }

  /** A heap but for the pairs (at, 2at) and (at, 2at + 1): the element at `at` may be too large. */
  ghost predicate HeapButDown(h: seq<Conn>, n: nat, at: nat) {
    && 1 <= at && n <= |h|
    && (forall i: nat :: 2 <= i < n && i / 2 != at ==> h[i / 2].priority <= h[i].priority)
    && (forall i: nat :: 2 <= i < n && i / 2 == at && at >= 2 ==> h[at / 2].priority <= h[i].priority)
  }

  function Swapped(h: seq<Conn>, i: nat, j: nat): (r: seq<Conn>)
    requires i < |h| && j < |h|
    ensures |r| == |h|
  {
    h[i := h[j]][j := h[i]]
  }

  lemma SwapKeepsElements(h: seq<Conn>, n: nat, i: nat, j: nat)
    requires 1 <= i < n <= |h| && 1 <= j < n
    ensures multiset(Swapped(h, i, j)[1..n]) == multiset(h[1..n])
  {
    var a := h[1..n];
    assert Swapped(h, i, j)[1..n] == a[i - 1 := a[j - 1]][j - 1 := a[i - 1]];
  }

  lemma SiftUpSwap(h: seq<Conn>, n: nat, at: nat)
    requires HeapButUp(h, n, at) && at >= 2 && h[at].priority < h[at / 2].priority
    ensures HeapButUp(Swapped(h, at, at / 2), n, at / 2)
  {
    var p := at / 2;
    var r := Swapped(h, at, p);
    forall i: nat | 2 <= i < n && i != p
      ensures r[i / 2].priority <= r[i].priority
    {
      if i == at {
      } else if i / 2 == at {
        assert h[p].priority <= h[i].priority;
      } else if i / 2 == p {
        assert h[p].priority <= h[i].priority;
      }
    }
    forall i: nat | 2 <= i < n && i / 2 == p && p >= 2
      ensures r[p / 2].priority <= r[i].priority
    {
      assert h[p / 2].priority <= h[p].priority;
      if i != at {
        assert h[p].priority <= h[i].priority;
      }
    }
  }

  lemma LastIsLoose(was: seq<Conn>, h: seq<Conn>, n: nat)
    requires 1 <= n < |was| && Heap(was, n) && |h| == |was| && h == was[n := h[n]]
    ensures HeapButUp(h, n + 1, n)
  {
  }

  lemma RiseDone(h: seq<Conn>, n: nat, at: nat)
    requires HeapButUp(h, n, at) && (at >= 2 ==> h[at / 2].priority <= h[at].priority)
    ensures Heap(h, n)
  {
  }

  lemma SiftDownSwap(h: seq<Conn>, n: nat, at: nat, c: nat)
    requires HeapButDown(h, n, at) && 2 * at < n && (c == 2 * at || c == 2 * at + 1) && c < n
    requires h[c].priority <= h[at].priority
    requires h[c].priority <= h[2 * at].priority && (2 * at + 1 < n ==> h[c].priority <= h[2 * at + 1].priority)
    ensures HeapButDown(Swapped(h, at, c), n, c)
  {
    var r := Swapped(h, at, c);
    assert c / 2 == at;
    forall i: nat | 2 <= i < n && i / 2 != c
      ensures r[i / 2].priority <= r[i].priority
    {
      if i == c {
      } else if i / 2 == at {
        assert i == 2 * at || i == 2 * at + 1;
      } else if i == at {
        assert h[at / 2].priority <= h[c].priority;
      }
    }
    forall i: nat | 2 <= i < n && i / 2 == c && c >= 2
      ensures r[c / 2].priority <= r[i].priority
    {
      assert h[c].priority <= h[i].priority;
    }
  }

  lemma SiftDone(h: seq<Conn>, n: nat, at: nat)
    requires HeapButDown(h, n, at)
    requires 2 * at < n ==> h[at].priority <= h[2 * at].priority
    requires 2 * at + 1 < n ==> h[at].priority <= h[2 * at + 1].priority
    ensures Heap(h, n)
  {
    forall i: nat | 2 <= i < n
      ensures h[i / 2].priority <= h[i].priority
    {
      if i / 2 == at {
        assert i == 2 * at || i == 2 * at + 1;
      }
    }
  }

  /** The root of a heap is a minimum. */
  lemma {:induction false} RootIsLeast(h: seq<Conn>, n: nat, i: nat)
    requires Heap(h, n) && 1 <= i < n
    ensures h[1].priority <= h[i].priority
    decreases i
  {
    if i > 1 {
      RootIsLeast(h, n, i / 2);
    }
  }

  // ---- The queue ---------------------------------------------------------------------------

  class Queue {
    var size: nat
    var bufSz: nat
    var connPool: array<Conn>

    /** The waiting requests, in heap order. */
    ghost function Contents(): seq<Conn>
      reads this, connPool
      requires 1 <= size <= connPool.Length
    {
      connPool[1..size]
    }

    ghost predicate Valid()
      reads this, connPool
    {
      1 <= size <= bufSz == connPool.Length && Heap(connPool[..], size)
    }

    /** initQueue. */
    constructor (buffers: nat)
      ensures Valid() && Contents() == [] && bufSz == buffers + 1 && fresh(connPool)
    {
      size := 1;
      bufSz := buffers + 1;
      connPool := new Conn[buffers + 1](_ => Conn(-1, -1, ""));
    }

    /** enqueue; the caller has made sure that the queue is not full. */
    method Enqueue(d: Conn)
      requires Valid() && size < bufSz
      modifies this`size, connPool
      ensures Valid() && size == old(size) + 1
      ensures multiset(Contents()) == multiset(old(Contents())) + multiset{d}
    {
      hide Heap, HeapButUp;
      ghost var was := connPool[..];
      connPool[size] := d;
      var index := size;
      size := size + 1;
      LastIsLoose(was, connPool[..], index);
      assert connPool[..][1..size] == was[1..size - 1] + [d];
      SiftUp(index, multiset(was[1..size - 1]) + multiset{d});
      assert was[1..size - 1] == old(Contents());
    }

    /** enqueue's loop: the new element rises to its place. */
    method SiftUp(last: nat, ghost m: multiset<Conn>)
      requires 1 <= last < size <= bufSz == connPool.Length
      requires HeapButUp(connPool[..], size, last) && multiset(connPool[..][1..size]) == m
      modifies connPool
      ensures Valid() && multiset(Contents()) == m
    {
      hide Heap, HeapButUp;
      var index := last;
      while index / 2 != 0
        invariant 1 <= index < size <= bufSz == connPool.Length
        invariant HeapButUp(connPool[..], size, index)
        invariant multiset(connPool[..][1..size]) == m
      {
        if connPool[index].priority < connPool[index / 2].priority {
          SwapWithParent(index, m);
        } else {
          break;
        }
        index := index / 2;
      }
      RiseDone(connPool[..], size, index);
      assert connPool[..][1..size] == connPool[1..size];
    }

    method SwapWithParent(index: nat, ghost m: multiset<Conn>)
      requires 2 <= index < size <= bufSz == connPool.Length && multiset(connPool[..][1..size]) == m
      requires HeapButUp(connPool[..], size, index) && connPool[index].priority < connPool[index / 2].priority
      modifies connPool
      ensures HeapButUp(connPool[..], size, index / 2) && multiset(connPool[..][1..size]) == m
    {
      hide Heap, HeapButUp;
      ghost var h := connPool[..];
      SiftUpSwap(h, size, index);
      SwapKeepsElements(h, size, index, index / 2);
      connPool[index], connPool[index / 2] := connPool[index / 2], connPool[index];
      assert connPool[..] == Swapped(h, index, index / 2);
    }

    /** dequeue; the caller has made sure that the queue is not empty. */
    method Dequeue() returns (ret: Conn)
      requires Valid() && size > 1
      modifies this`size, connPool
      ensures Valid() && size == old(size) - 1
      ensures ret in old(Contents())
      ensures forall x :: x in old(Contents()) ==> ret.priority <= x.priority
      ensures multiset(Contents()) == multiset(old(Contents())) - multiset{ret}
    {
      hide Heap, HeapButDown;
      ghost var was := connPool[..];
      MinimumAtRoot(was, size);
      ret := connPool[1];
      size := size - 1;
      connPool[1] := connPool[size];
      LastToRoot(was, connPool[..], size);
      SiftDown(multiset(was[1..size + 1]) - multiset{ret});
    }

    /** dequeue's loop: the element at the root sinks to its place. */
    method SiftDown(ghost m: multiset<Conn>)
      requires 1 <= size < bufSz == connPool.Length
      requires HeapButDown(connPool[..], size, 1) && multiset(connPool[..][1..size]) == m
      modifies connPool
      ensures Valid() && multiset(Contents()) == m
    {
      hide Heap, HeapButDown, Swapped;
      var index := 1;
      while index * 2 < size
        invariant 1 <= index
        invariant HeapButDown(connPool[..], size, index)
        invariant multiset(connPool[..][1..size]) == m
        decreases size - index
      {
        if index * 2 + 1 < size
        && (connPool[index].priority > connPool[2 * index].priority
           || connPool[index].priority > connPool[2 * index + 1].priority) {
          var minIndex :=
            if connPool[index * 2].priority <= connPool[index * 2 + 1].priority then index * 2 else index * 2 + 1;
          SwapWithChild(index, minIndex, m);
          index := minIndex;
        } else if index * 2 + 1 >= size && connPool[index].priority > connPool[2 * index].priority {
          SwapWithChild(index, 2 * index, m);
          index := index * 2;
        } else {
          break;
        }
      }
      SiftDone(connPool[..], size, index);
      assert connPool[..][1..size] == connPool[1..size];
    }

    method SwapWithChild(index: nat, c: nat, ghost m: multiset<Conn>)
      requires 1 <= size < bufSz == connPool.Length && multiset(connPool[..][1..size]) == m
      requires 1 <= index && HeapButDown(connPool[..], size, index) && 2 * index < size
               && (c == 2 * index || c == 2 * index + 1) && c < size
      requires connPool[c].priority <= connPool[index].priority
      requires connPool[c].priority <= connPool[2 * index].priority
      requires 2 * index + 1 < size ==> connPool[c].priority <= connPool[2 * index + 1].priority
      modifies connPool
      ensures HeapButDown(connPool[..], size, c) && multiset(connPool[..][1..size]) == m
    {
      hide Heap, HeapButDown;
      ghost var h := connPool[..];
      SiftDownSwap(h, size, index, c);
      SwapKeepsElements(h, size, index, c);
      connPool[index], connPool[c] := connPool[c], connPool[index];
      assert connPool[..] == Swapped(h, index, c);
    }
  }

  lemma MinimumAtRoot(h: seq<Conn>, n: nat)
    requires Heap(h, n) && n > 1
    ensures h[1] in h[1..n]
    ensures forall x :: x in h[1..n] ==> h[1].priority <= x.priority
  {
    assert h[1..n][0] == h[1];
    forall i: nat | 1 <= i < n
      ensures h[1].priority <= h[i].priority
    {
      RootIsLeast(h, n, i);
    }
  }

  /** dequeue's first move: the last element replaces the root. */
  lemma LastToRoot(was: seq<Conn>, h: seq<Conn>, n: nat)
    requires 1 <= n < |was| && Heap(was, n + 1) && h == was[1 := was[n]]
    ensures HeapButDown(h, n, 1)
    ensures multiset(h[1..n]) == multiset(was[1..n + 1]) - multiset{was[1]}
  {
    assert was[1..n + 1] == [was[1]] + was[2..n + 1];
    if n > 1 {
      assert was[2..n + 1] == was[2..n] + [was[n]];
      assert h[1..n] == [was[n]] + was[2..n];
    } else {
      assert h[1..n] == [];
    }
  }

  // ---- FIFO policy ------------------------------------------------------------------------------

  ghost predicate Increasing(s: seq<Conn>) {
    forall i: nat, j: nat :: i < j < |s| ==> s[i].priority < s[j].priority
  }

  ghost predicate Below(s: seq<Conn>, bound: int) {
    forall i: nat :: i < |s| ==> s[i].priority < bound
  }

  /** The master under the FIFO policy: each request's priority is the next value of the counter. */
  class FifoServer {
    const q: Queue
    var count: int
    ghost var fifo: seq<Conn>    // the plain FIFO queue being refined

    ghost predicate Valid()
      reads this, q, q.connPool
    {
      && q.Valid() && multiset(q.Contents()) == multiset(fifo)
      && Increasing(fifo) && Below(fifo, count)
    }

    constructor (buffers: nat)
      ensures Valid() && fifo == [] && fresh(q) && fresh(q.connPool) && q.bufSz == buffers + 1
    {
      q := new Queue(buffers);
      count := 0;
      fifo := [];
    }

    /** The counter is an int: past INT_MAX the order is lost. */
    method Put(connfd: int, buff: string)
      requires Valid() && q.size < q.bufSz && count < 0x7FFF_FFFF
      modifies this, q`size, q.connPool
      ensures Valid() && fifo == old(fifo) + [Conn(old(count), connfd, buff)] && count == old(count) + 1
    {
      var d := Conn(count, connfd, buff);
      IncreasingMore(fifo, d);
      hide Heap, Increasing, Below, Queue.Valid, Queue.Contents;
      count := count + 1;
      q.Enqueue(d);
      fifo := fifo + [d];
    }

    /** The request served is the oldest one. */
    method Get() returns (d: Conn)
      requires Valid() && q.size > 1
      modifies this`fifo, q`size, q.connPool
      ensures Valid() && old(fifo) != [] && d == old(fifo)[0] && fifo == old(fifo)[1..]
    {
      hide Heap, Increasing, Below;
      ghost var c := q.Contents();
      hide Queue.Valid, Queue.Contents;
      d := q.Dequeue();
      OldestServed(c, fifo, d, count);
      fifo := fifo[1..];
    }
  }

  lemma IncreasingMore(fifo: seq<Conn>, d: Conn)
    requires Increasing(fifo) && Below(fifo, d.priority)
    ensures Increasing(fifo + [d]) && Below(fifo + [d], d.priority + 1)
            && multiset(fifo + [d]) == multiset(fifo) + multiset{d}
  {
  }

  lemma RestIncreasing(fifo: seq<Conn>, bound: int)
    requires fifo != [] && Increasing(fifo) && Below(fifo, bound)
    ensures Increasing(fifo[1..]) && Below(fifo[1..], bound)
            && multiset(fifo[1..]) == multiset(fifo) - multiset{fifo[0]}
  {
    assert fifo == [fifo[0]] + fifo[1..];
  }

  lemma OldestServed(c: seq<Conn>, fifo: seq<Conn>, d: Conn, bound: int)
    requires multiset(c) == multiset(fifo) && Increasing(fifo) && Below(fifo, bound)
    requires d in c && forall x :: x in c ==> d.priority <= x.priority
    ensures fifo != [] && d == fifo[0] && Increasing(fifo[1..]) && Below(fifo[1..], bound)
    ensures multiset(c) - multiset{d} == multiset(fifo[1..])
  {
    hide Increasing, Below;
    OldestIsLeast(c, fifo, d);
    RestIncreasing(fifo, bound);
  }

  lemma OldestIsLeast(c: seq<Conn>, fifo: seq<Conn>, d: Conn)
    requires multiset(c) == multiset(fifo) && Increasing(fifo)
    requires d in c && forall x :: x in c ==> d.priority <= x.priority
    ensures fifo != [] && d == fifo[0]
  {
    assert d in multiset(c);
    assert d in multiset(fifo);
    assert d in fifo;
    assert fifo[0] in multiset(fifo);
    assert fifo[0] in c;
    var k: nat :| k < |fifo| && fifo[k] == d;
  }
}
