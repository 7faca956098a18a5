/**
 Sizes of finite sets, maps and sequences without repetitions.
 */
module Counting {
  lemma SubsetSize<T>(a: set<T>, b: set<T>)
    requires a <= b
    ensures |a| <= |b|
    ensures |a| == |b| ==> a == b
  {
    assert b == a + (b - a);
    assert |b| == |a| + |b - a|;
  }

  lemma UnionSize<T>(a: set<T>, b: set<T>)
    requires a !! b
    ensures |a + b| == |a| + |b|
  {
  }

  /** The numbers lo..hi-1. */
  ghost function Range(lo: nat, hi: nat): (s: set<nat>)
    requires lo <= hi
    ensures |s| == hi - lo
    ensures forall b: nat :: b in s <==> lo <= b < hi
    decreases hi
  {
    if lo == hi then {} else Range(lo, hi - 1) + {hi - 1}
  }

  /** A set of elements of a multiset is no larger than it. */
  lemma {:induction false} SupportSize(s: set<nat>, m: multiset<int>)
    requires forall i <- s :: i in m
    ensures |s| <= |m|
  {
    if s != {} {
      var i :| i in s;
      SupportSize(s - {i}, m - multiset{i});
    }
  }

  lemma Member<T>(s: set<T>) returns (p: T)
    requires s != {}
    ensures p in s
  {
    p :| p in s;
  }

  ghost predicate Injective(m: map<int, nat>) {
    forall p <- m, q <- m :: p != q ==> m[p] != m[q]
  }

  ghost function Image(s: set<int>, m: map<int, nat>): set<nat>
    requires s <= m.Keys
  {
    set p | p in s :: m[p]
  }

  lemma {:induction false} ImageSize(s: set<int>, m: map<int, nat>)
    requires s <= m.Keys && Injective(m)
    ensures |Image(s, m)| == |s|
  {
    if s != {} {
      var p := Member(s);
      ImageSize(s - {p}, m);
      assert Image(s, m) == Image(s - {p}, m) + {m[p]};
      assert m[p] !in Image(s - {p}, m);
    }
  }

  ghost predicate Distinct(l: seq<int>) {
    forall i: nat, j: nat :: i < j < |l| ==> l[i] != l[j]
  }

  lemma {:induction false} DistinctSize(l: seq<int>)
    requires Distinct(l)
    ensures |set p | p in l| == |l|
  {
    if l != [] {
      var n := |l| - 1;
      DistinctSize(l[..n]);
      assert l == l[..n] + [l[n]];
      assert l[n] !in l[..n];
      assert (set p | p in l) == (set p | p in l[..n]) + {l[n]};
    }
  }
}
