// Sequences of dimensions, sums and products over them, and what a
// reordering of the dimensions leaves unchanged.
module Permutations {

  function Sum(s: seq<int>): (v: int) {
    if |s| == 0 then 0 else Sum(s[..|s| - 1]) + s[|s| - 1]
  }

  function Product(s: seq<int>): (v: int) {
    if |s| == 0 then 1 else Product(s[..|s| - 1]) * s[|s| - 1]
  }

  function Range(n: nat): (r: seq<int>) {
    seq(n, i => i)
  }

  // The entries of s picked out by the dimension list dims.
  function Gather(s: seq<int>, dims: seq<int>): (r: seq<int>)
    requires forall k :: 0 <= k < |dims| ==> 0 <= dims[k] < |s|
  {
    seq(|dims|, k requires 0 <= k < |dims| => s[dims[k]])
  }

  ghost predicate IsPermutation(p: seq<int>, n: nat) {
    multiset(p) == multiset(Range(n))
  }

  function Without(s: seq<int>, j: int): (r: seq<int>)
    requires 0 <= j < |s|
  {
    s[..j] + s[j + 1..]
  }

  lemma {:induction false} SumWithout(s: seq<int>, j: int)
    requires 0 <= j < |s|
    ensures Sum(s) == Sum(Without(s, j)) + s[j]
  {
    var n := |s| - 1;
    if j == n {
      assert Without(s, j) == s[..n];
    } else {
      SumWithout(s[..n], j);
      assert Without(s, j)[..n - 1] == Without(s[..n], j);
    }
  }

  lemma {:induction false} ProductWithout(s: seq<int>, j: int)
    requires 0 <= j < |s|
    ensures Product(s) == Product(Without(s, j)) * s[j]
  {
    var n := |s| - 1;
    if j == n {
      assert Without(s, j) == s[..n];
    } else {
      ProductWithout(s[..n], j);
      assert Without(s, j)[..n - 1] == Without(s[..n], j);
      var x, y, z := Product(Without(s[..n], j)), s[j], s[n];
      assert x * y * z == x * z * y;
    }
  }

  lemma MultisetWithout(s: seq<int>, j: int)
    requires 0 <= j < |s|
    ensures multiset(Without(s, j)) == multiset(s) - multiset{s[j]}
  {
    assert s == s[..j] + [s[j]] + s[j + 1..];
  }

  lemma FindIn(s: seq<int>, t: seq<int>) returns (j: int)
    requires |s| > 0 && multiset(s) == multiset(t)
    ensures 0 <= j < |t| && t[j] == s[|s| - 1]
    ensures multiset(s[..|s| - 1]) == multiset(Without(t, j))
  {
    assert s == s[..|s| - 1] + [s[|s| - 1]];
    assert s[|s| - 1] in multiset(t);
    j :| 0 <= j < |t| && t[j] == s[|s| - 1];
    MultisetWithout(t, j);
  }

  // Sums and products depend only on which entries occur, not on their order.
  lemma {:induction false} SumProductReorder(s: seq<int>, t: seq<int>)
    requires multiset(s) == multiset(t)
    ensures Sum(s) == Sum(t) && Product(s) == Product(t)
  {
    assert |s| == |multiset(s)| == |multiset(t)| == |t|;
    if |s| > 0 {
      var j := FindIn(s, t);
      SumProductReorder(s[..|s| - 1], Without(t, j));
      SumWithout(t, j);
      ProductWithout(t, j);
    }
  }

  lemma MultisetAddBack(a: multiset<int>, b: multiset<int>, x: int)
    requires x in a && x in b && a - multiset{x} == b - multiset{x}
    ensures a == b
  {
    assert a == a - multiset{x} + multiset{x};
    assert b == b - multiset{x} + multiset{x};
  }

  lemma GatherWithout(s: seq<int>, q: seq<int>, j: int)
    requires forall k :: 0 <= k < |q| ==> 0 <= q[k] < |s|
    requires 0 <= j < |q|
    ensures multiset(Gather(s, Without(q, j))) == multiset(Gather(s, q)) - multiset{s[q[j]]}
    ensures s[q[j]] in multiset(Gather(s, q))
  {
    assert Gather(s, q)[j] == s[q[j]];
    assert Gather(s, Without(q, j)) == Without(Gather(s, q), j);
    MultisetWithout(Gather(s, q), j);
  }

  lemma {:induction false} GatherReorder(s: seq<int>, p: seq<int>, q: seq<int>)
    requires multiset(p) == multiset(q)
    requires forall k :: 0 <= k < |p| ==> 0 <= p[k] < |s|
    requires forall k :: 0 <= k < |q| ==> 0 <= q[k] < |s|
    ensures multiset(Gather(s, p)) == multiset(Gather(s, q))
  {
    assert |p| == |multiset(p)| == |multiset(q)| == |q|;
    if |p| > 0 {
      var n := |p| - 1;
      var j := FindIn(p, q);
      GatherReorder(s, p[..n], Without(q, j));
      assert p[..n] == Without(p, n);
      GatherWithout(s, p, n);
      GatherWithout(s, q, j);
      MultisetAddBack(multiset(Gather(s, p)), multiset(Gather(s, q)), s[q[j]]);
    }
  }

  lemma {:induction false} RangeCounts(n: nat, x: int)
    ensures multiset(Range(n))[x] == if 0 <= x < n then 1 else 0
  {
    if n > 0 {
      RangeCounts(n - 1, x);
      assert Range(n) == Range(n - 1) + [n - 1];
    }
  }

  // A permutation of 0..n-1 lists every dimension exactly once.
  lemma PermutationFacts(p: seq<int>, n: nat)
    requires IsPermutation(p, n)
    ensures |p| == n
    ensures forall k :: 0 <= k < n ==> 0 <= p[k] < n
    ensures forall d :: 0 <= d < n ==> d in p
    ensures forall i, j :: 0 <= i < j < n ==> p[i] != p[j]
  {
    assert |p| == |multiset(p)| == |multiset(Range(n))| == n;
    forall k | 0 <= k < n ensures 0 <= p[k] < n {
      assert p[k] in multiset(p);
      RangeCounts(n, p[k]);
    }
    forall d | 0 <= d < n ensures d in p {
      RangeCounts(n, d);
      assert d in multiset(p);
    }
    forall i, j | 0 <= i < j < n ensures p[i] != p[j] {
      RangeCounts(n, p[j]);
      assert p == p[..j] + p[j..];
      assert p[..j][i] in p[..j] && p[j..][0] in p[j..];
      assert multiset(p)[p[j]] == multiset(p[..j])[p[j]] + multiset(p[j..])[p[j]];
    }
  }

  // Reordering all dimensions keeps the sum and the product.
  lemma GatherAll(s: seq<int>, p: seq<int>)
    requires IsPermutation(p, |s|)
    requires forall k :: 0 <= k < |p| ==> 0 <= p[k] < |s|
    ensures |p| == |s|
    ensures Sum(Gather(s, p)) == Sum(s) && Product(Gather(s, p)) == Product(s)
  {
    PermutationFacts(p, |s|);
    GatherReorder(s, p, Range(|s|));
    assert Gather(s, Range(|s|)) == s;
    SumProductReorder(Gather(s, p), s);
  }
}
