// The map from an index in a box of sizes to the offset it addresses through
// a list of strides, and when that map is a bijection onto [0, numel).
module MixedRadix {
  import opened Permutations

  // Sum of idx[k] * strides[k].
  function Offset(idx: seq<int>, strides: seq<int>): (v: int)
    requires |idx| == |strides|
  {
    var n := |idx| - 1;
    if n < 0 then 0 else Offset(idx[..n], strides[..n]) + idx[n] * strides[n]
  }

  ghost predicate InBox(idx: seq<int>, sizes: seq<int>) {
    |idx| == |sizes| && forall k :: 0 <= k < |idx| ==> 0 <= idx[k] < sizes[k]
  }

  ghost predicate InRange(sizes: seq<int>, strides: seq<int>)
    requires |sizes| == |strides|
  {
    forall idx :: InBox(idx, sizes) ==> 0 <= Offset(idx, strides) < Product(sizes)
  }

  ghost predicate Injective(sizes: seq<int>, strides: seq<int>)
    requires |sizes| == |strides|
  {
    forall i, j :: InBox(i, sizes) && InBox(j, sizes) && Offset(i, strides) == Offset(j, strides) ==> i == j
  }

  // Some index addresses v.
  ghost predicate Hits(sizes: seq<int>, strides: seq<int>, v: int)
    requires |sizes| == |strides|
  {
    exists idx :: InBox(idx, sizes) && Offset(idx, strides) == v
  }

  ghost predicate Surjective(sizes: seq<int>, strides: seq<int>)
    requires |sizes| == |strides|
  {
    forall v :: 0 <= v < Product(sizes) ==> Hits(sizes, strides, v)
  }

  // index -> offset is a bijection from the index box onto [0, numel).
  ghost predicate Bijective(sizes: seq<int>, strides: seq<int>)
    requires |sizes| == |strides|
  {
    InRange(sizes, strides) && Injective(sizes, strides) && Surjective(sizes, strides)
  }

  ghost predicate Positive(sizes: seq<int>) {
    forall k :: 0 <= k < |sizes| ==> sizes[k] >= 1
  }

  // Fastest dimension first: every stride that matters is the product of the sizes before it.
  ghost predicate Dense(sizes: seq<int>, strides: seq<int>)
    requires |sizes| == |strides|
  {
    forall k :: 0 <= k < |sizes| ==> sizes[k] == 1 || strides[k] == Product(sizes[..k])
  }

  // Dimensions of size 2 or more come first, with ascending strides.
  ghost predicate Ascending(sizes: seq<int>, strides: seq<int>)
    requires |sizes| == |strides|
  {
    forall j, k :: 0 <= j < k < |sizes| && sizes[k] >= 2 ==> sizes[j] >= 2 && strides[j] <= strides[k]
  }

  lemma {:induction false} ProductPositive(sizes: seq<int>)
    requires Positive(sizes)
    ensures Product(sizes) >= 1
  {
    if |sizes| > 0 {
      ProductPositive(sizes[..|sizes| - 1]);
    }
  }

  lemma {:induction false} ProductGrows(sizes: seq<int>, k: nat)
    requires Positive(sizes) && k <= |sizes|
    ensures 1 <= Product(sizes[..k]) <= Product(sizes)
  {
    ProductPositive(sizes[..k]);
    if k == |sizes| {
      assert sizes[..k] == sizes;
    } else {
      var n := |sizes| - 1;
      ProductGrows(sizes[..n], k);
      assert sizes[..n][..k] == sizes[..k];
    }
  }

  lemma MulOrder(x: int, y: int, p: int)
    requires p >= 1
    ensures x >= y ==> x * p >= y * p
    ensures x > y ==> x * p >= y * p + p
  {
    var z := x - y;
    assert z * p == x * p - y * p;
    if z >= 1 {
      assert z * p >= p;
    }
  }

  // Every number below p * m has a last digit q and a rest r, and only one such pair.
  lemma SplitNumber(v: int, p: int, m: int) returns (r: int, q: int)
    requires 0 <= v < p * m && p >= 1
    ensures 0 <= r < p && 0 <= q < m && v == r + q * p
  {
    r, q := v % p, v / p;
    MulOrder(q, m, p);
  }

  lemma JoinNumber(r: int, q: int, p: int, m: int)
    requires 0 <= r < p && 0 <= q < m
    ensures 0 <= r + q * p < p * m
  {
    MulOrder(m, q, p);
    MulOrder(q, 0, p);
  }

  lemma UniqueSplit(r1: int, q1: int, r2: int, q2: int, p: int)
    requires 0 <= r1 < p && 0 <= r2 < p && r1 + q1 * p == r2 + q2 * p
    ensures r1 == r2 && q1 == q2
  {
    MulOrder(q1, q2, p);
    MulOrder(q2, q1, p);
  }

  lemma DensePrefix(sizes: seq<int>, strides: seq<int>, n: nat)
    requires |sizes| == |strides| && Dense(sizes, strides) && n <= |sizes|
    ensures Dense(sizes[..n], strides[..n])
  {
    assert forall k :: 0 <= k < n ==> sizes[..n][..k] == sizes[..k];
  }

  // The last term of an offset; in a dimension of size 1 the stride is irrelevant.
  lemma OffsetLast(idx: seq<int>, sizes: seq<int>, strides: seq<int>, n: nat)
    requires |idx| == |sizes| == |strides| == n + 1 && Dense(sizes, strides)
    requires 0 <= idx[n] < sizes[n]
    ensures Offset(idx, strides) == Offset(idx[..n], strides[..n]) + idx[n] * Product(sizes[..n])
  {
    var p, i, t := Product(sizes[..n]), idx[n], strides[n];
    if sizes[n] == 1 {
      assert i == 0;
    } else {
      assert t == p;
    }
    assert i * t == i * p;
  }

  // The index a dense layout places at offset v.
  lemma {:induction false} Decode(v: int, sizes: seq<int>, strides: seq<int>) returns (idx: seq<int>)
    requires |sizes| == |strides| && Positive(sizes) && Dense(sizes, strides)
    requires 0 <= v < Product(sizes)
    ensures InBox(idx, sizes) && Offset(idx, strides) == v
    decreases |sizes|
  {
    if |sizes| == 0 {
      idx := [];
    } else {
      var n := |sizes| - 1;
      DensePrefix(sizes, strides, n);
      ProductPositive(sizes[..n]);
      var r, q := SplitNumber(v, Product(sizes[..n]), sizes[n]);
      var front := Decode(r, sizes[..n], strides[..n]);
      idx := front + [q];
      OffsetLast(idx, sizes, strides, n);
      assert idx[..n] == front;
    }
  }

  lemma {:induction false} OffsetInRange(idx: seq<int>, sizes: seq<int>, strides: seq<int>)
    requires |sizes| == |strides| && Positive(sizes) && Dense(sizes, strides)
    requires InBox(idx, sizes)
    ensures 0 <= Offset(idx, strides) < Product(sizes)
    decreases |sizes|
  {
    if |sizes| > 0 {
      var n := |sizes| - 1;
      DensePrefix(sizes, strides, n);
      OffsetInRange(idx[..n], sizes[..n], strides[..n]);
      OffsetLast(idx, sizes, strides, n);
      JoinNumber(Offset(idx[..n], strides[..n]), idx[n], Product(sizes[..n]), sizes[n]);
    }
  }

  lemma SameLast(i: seq<int>, j: seq<int>, sizes: seq<int>, strides: seq<int>, n: nat)
    requires |sizes| == |strides| == n + 1 && Positive(sizes) && Dense(sizes, strides)
    requires InBox(i, sizes) && InBox(j, sizes) && Offset(i, strides) == Offset(j, strides)
    ensures Offset(i[..n], strides[..n]) == Offset(j[..n], strides[..n]) && i[n] == j[n]
  {
    DensePrefix(sizes, strides, n);
    OffsetInRange(i[..n], sizes[..n], strides[..n]);
    OffsetInRange(j[..n], sizes[..n], strides[..n]);
    OffsetLast(i, sizes, strides, n);
    OffsetLast(j, sizes, strides, n);
    var r1, r2 := Offset(i[..n], strides[..n]), Offset(j[..n], strides[..n]);
    UniqueSplit(r1, i[n], r2, j[n], Product(sizes[..n]));
  }

  lemma {:induction false} OffsetInjective(i: seq<int>, j: seq<int>, sizes: seq<int>, strides: seq<int>)
    requires |sizes| == |strides| && Positive(sizes) && Dense(sizes, strides)
    requires InBox(i, sizes) && InBox(j, sizes) && Offset(i, strides) == Offset(j, strides)
    ensures i == j
    decreases |sizes|
  {
    if |sizes| > 0 {
      var n := |sizes| - 1;
      SameLast(i, j, sizes, strides, n);
      DensePrefix(sizes, strides, n);
      OffsetInjective(i[..n], j[..n], sizes[..n], strides[..n]);
      assert i == i[..n] + [i[n]] && j == j[..n] + [j[n]];
    }
  }

  lemma DenseIsBijective(sizes: seq<int>, strides: seq<int>)
    requires |sizes| == |strides| && Positive(sizes) && Dense(sizes, strides)
    ensures Bijective(sizes, strides)
  {
    forall idx | InBox(idx, sizes)
      ensures 0 <= Offset(idx, strides) < Product(sizes)
    {
      OffsetInRange(idx, sizes, strides);
    }
    forall i, j | InBox(i, sizes) && InBox(j, sizes) && Offset(i, strides) == Offset(j, strides)
      ensures i == j
    {
      OffsetInjective(i, j, sizes, strides);
    }
    forall v | 0 <= v < Product(sizes)
      ensures Hits(sizes, strides, v)
    {
      var idx := Decode(v, sizes, strides);
    }
  }

  // ----- the converse: a bijective layout in ascending order is dense -----

  function Zeros(n: nat): (z: seq<int>) {
    seq(n, _ => 0)
  }

  lemma {:induction false} OffsetPadded(idx: seq<int>, strides: seq<int>, k: nat)
    requires |idx| == |strides| && k <= |idx|
    requires forall j :: k <= j < |idx| ==> idx[j] == 0
    ensures Offset(idx, strides) == Offset(idx[..k], strides[..k])
  {
    var n := |idx| - 1;
    if k == |idx| {
      assert idx[..k] == idx && strides[..k] == strides;
    } else {
      OffsetPadded(idx[..n], strides[..n], k);
      assert idx[..n][..k] == idx[..k] && strides[..n][..k] == strides[..k];
    }
  }

  lemma OffsetOfUnit(n: nat, k: nat, strides: seq<int>)
    requires k < n == |strides|
    ensures Offset(Zeros(n)[k := 1], strides) == strides[k]
  {
    var u := Zeros(n)[k := 1];
    OffsetPadded(u, strides, k + 1);
    OffsetPadded(u[..k], strides[..k], 0);
    assert u[..k + 1][..k] == u[..k] && strides[..k + 1][..k] == strides[..k];
  }

  lemma {:induction false} OffsetAtLeast(idx: seq<int>, sizes: seq<int>, strides: seq<int>, k: nat)
    requires |sizes| == |strides| && InBox(idx, sizes) && k < |idx| && idx[k] >= 1
    requires forall j :: 0 <= j < |sizes| && sizes[j] >= 2 ==> strides[j] >= 0
    ensures Offset(idx, strides) >= strides[k]
  {
    var n := |idx| - 1;
    assert idx[n] * strides[n] >= 0;
    if k < n {
      OffsetAtLeast(idx[..n], sizes[..n], strides[..n], k);
    } else {
      OffsetNonNegative(idx[..n], sizes[..n], strides[..n]);
      assert idx[n] * strides[n] >= strides[n] by {
        assert (idx[n] - 1) * strides[n] >= 0;
      }
    }
  }

  lemma {:induction false} OffsetNonNegative(idx: seq<int>, sizes: seq<int>, strides: seq<int>)
    requires |sizes| == |strides| && InBox(idx, sizes)
    requires forall j :: 0 <= j < |sizes| && sizes[j] >= 2 ==> strides[j] >= 0
    ensures Offset(idx, strides) >= 0
  {
    var n := |idx| - 1;
    if n >= 0 {
      OffsetNonNegative(idx[..n], sizes[..n], strides[..n]);
      assert idx[n] * strides[n] >= 0;
    }
  }

  lemma StridesNonNegative(sizes: seq<int>, strides: seq<int>)
    requires |sizes| == |strides| && Positive(sizes) && InRange(sizes, strides)
    ensures forall j :: 0 <= j < |sizes| && sizes[j] >= 2 ==> strides[j] >= 0
  {
    forall j | 0 <= j < |sizes| && sizes[j] >= 2 ensures strides[j] >= 0 {
      assert InBox(Zeros(|sizes|)[j := 1], sizes);
      OffsetOfUnit(|sizes|, j, strides);
    }
  }

  // An offset beyond the dense prefix needs a nonzero coordinate outside that prefix.
  lemma ReachesBeyond(idx: seq<int>, sizes: seq<int>, strides: seq<int>, k: nat) returns (j: nat)
    requires |sizes| == |strides| && Positive(sizes) && InBox(idx, sizes)
    requires k <= |sizes| && Dense(sizes[..k], strides[..k])
    requires Offset(idx, strides) >= Product(sizes[..k])
    ensures k <= j < |idx| && idx[j] >= 1
  {
    j := k;
    while j < |idx| && idx[j] == 0
      invariant k <= j <= |idx|
      invariant forall i :: k <= i < j ==> idx[i] == 0
    {
      j := j + 1;
    }
    OffsetInRange(idx[..k], sizes[..k], strides[..k]);
    if j == |idx| {
      OffsetPadded(idx, strides, k);
      assert false;
    }
  }

  lemma PrefixProductSmaller(sizes: seq<int>, k: nat)
    requires Positive(sizes) && k < |sizes| && sizes[k] >= 2
    ensures 1 <= Product(sizes[..k]) < Product(sizes)
  {
    ProductGrows(sizes, k + 1);
    ProductPositive(sizes[..k]);
    assert sizes[..k + 1][..k] == sizes[..k];
    MulOrder(sizes[k], 1, Product(sizes[..k]));
  }

  // The k-th stride cannot exceed the product of the sizes before it: that product must be hit.
  lemma StrideNotTooBig(sizes: seq<int>, strides: seq<int>, k: nat)
    requires |sizes| == |strides| && Positive(sizes) && Bijective(sizes, strides) && Ascending(sizes, strides)
    requires k < |sizes| && sizes[k] >= 2 && Dense(sizes[..k], strides[..k])
    ensures strides[k] <= Product(sizes[..k])
  {
    var p := Product(sizes[..k]);
    PrefixProductSmaller(sizes, k);
    assert Hits(sizes, strides, p);
    var idx :| InBox(idx, sizes) && Offset(idx, strides) == p;
    var j := ReachesBeyond(idx, sizes, strides, k);
    StridesNonNegative(sizes, strides);
    OffsetAtLeast(idx, sizes, strides, j);
    assert sizes[j] >= 2;
  }

  // Nor can it be smaller: a smaller value already is the offset of earlier dimensions.
  lemma StrideNotTooSmall(sizes: seq<int>, strides: seq<int>, k: nat)
    requires |sizes| == |strides| && Positive(sizes) && InRange(sizes, strides) && Injective(sizes, strides)
    requires k < |sizes| && sizes[k] >= 2 && Dense(sizes[..k], strides[..k])
    ensures strides[k] >= Product(sizes[..k])
  {
    StridesNonNegative(sizes, strides);
    var unit := Zeros(|sizes|)[k := 1];
    OffsetOfUnit(|sizes|, k, strides);
    assert InBox(unit, sizes) && unit[k] == 1;
    if strides[k] < Product(sizes[..k]) {
      var d := Decode(strides[k], sizes[..k], strides[..k]);
      var padded := d + Zeros(|sizes| - k);
      assert padded[..k] == d && padded[k] == 0;
      OffsetPadded(padded, strides, k);
      assert InBox(padded, sizes);
    }
  }

  lemma {:induction false} BijectiveIsDense(sizes: seq<int>, strides: seq<int>, k: nat)
    requires |sizes| == |strides| && Positive(sizes) && Bijective(sizes, strides) && Ascending(sizes, strides)
    requires k <= |sizes|
    ensures Dense(sizes[..k], strides[..k])
  {
    if k > 0 {
      var j := k - 1;
      BijectiveIsDense(sizes, strides, j);
      if sizes[j] >= 2 {
        StrideNotTooBig(sizes, strides, j);
        StrideNotTooSmall(sizes, strides, j);
      }
      forall i | 0 <= i < k && sizes[i] != 1 ensures strides[i] == Product(sizes[..k][..i]) {
        assert sizes[..k][..i] == sizes[..i];
        if i < j {
          assert sizes[..j][..i] == sizes[..i] && sizes[..j][i] == sizes[i] && strides[..j][i] == strides[i];
        }
      }
    }
  }

  lemma DenseIffBijective(sizes: seq<int>, strides: seq<int>)
    requires |sizes| == |strides| && Positive(sizes) && Ascending(sizes, strides)
    ensures Dense(sizes, strides) <==> Bijective(sizes, strides)
  {
    assert sizes[..|sizes|] == sizes && strides[..|strides|] == strides;
    if Dense(sizes, strides) {
      DenseIsBijective(sizes, strides);
    } else if Bijective(sizes, strides) {
      BijectiveIsDense(sizes, strides, |sizes|);
    }
  }

  // ----- neither the offset nor bijectivity depends on how dimensions are listed -----

  function Terms(idx: seq<int>, strides: seq<int>): (s: seq<int>)
    requires |idx| == |strides|
  {
    seq(|idx|, k requires 0 <= k < |idx| => idx[k] * strides[k])
  }

  lemma {:induction false} OffsetIsSum(idx: seq<int>, strides: seq<int>)
    requires |idx| == |strides|
    ensures Offset(idx, strides) == Sum(Terms(idx, strides))
  {
    var n := |idx| - 1;
    if n >= 0 {
      OffsetIsSum(idx[..n], strides[..n]);
      assert Terms(idx, strides)[..n] == Terms(idx[..n], strides[..n]);
    }
  }

  lemma OffsetReorder(idx: seq<int>, strides: seq<int>, p: seq<int>)
    requires |idx| == |strides| && IsPermutation(p, |idx|)
    requires forall k :: 0 <= k < |p| ==> 0 <= p[k] < |idx|
    ensures Offset(Gather(idx, p), Gather(strides, p)) == Offset(idx, strides)
  {
    OffsetIsSum(idx, strides);
    OffsetIsSum(Gather(idx, p), Gather(strides, p));
    assert Terms(Gather(idx, p), Gather(strides, p)) == Gather(Terms(idx, strides), p);
    GatherAll(Terms(idx, strides), p);
  }

  // The position at which a permutation lists dimension d.
  ghost function Position(p: seq<int>, d: int): (k: int)
    requires d in p
    ensures 0 <= k < |p| && p[k] == d
  {
    var k :| 0 <= k < |p| && p[k] == d;
    k
  }

  // Undo Gather: put entry k back at dimension p[k].
  lemma Scatter(g: seq<int>, p: seq<int>) returns (idx: seq<int>)
    requires IsPermutation(p, |g|)
    requires forall k :: 0 <= k < |p| ==> 0 <= p[k] < |g|
    ensures |idx| == |g| && Gather(idx, p) == g
  {
    PermutationFacts(p, |g|);
    idx := seq(|g|, d requires 0 <= d < |g| => g[Position(p, d)]);
  }

  lemma GatherInBox(idx: seq<int>, sizes: seq<int>, p: seq<int>)
    requires |idx| == |sizes| && IsPermutation(p, |sizes|)
    requires forall k :: 0 <= k < |p| ==> 0 <= p[k] < |sizes|
    ensures InBox(Gather(idx, p), Gather(sizes, p)) <==> InBox(idx, sizes)
  {
    PermutationFacts(p, |sizes|);
    var g, a := Gather(idx, p), Gather(sizes, p);
    if InBox(g, a) {
      forall d | 0 <= d < |sizes| ensures 0 <= idx[d] < sizes[d] {
        var k := Position(p, d);
        assert 0 <= g[k] < a[k];
      }
    }
  }

  lemma GatherInjective(i: seq<int>, j: seq<int>, p: seq<int>)
    requires |i| == |j| && IsPermutation(p, |i|)
    requires forall k :: 0 <= k < |p| ==> 0 <= p[k] < |i|
    requires Gather(i, p) == Gather(j, p)
    ensures i == j
  {
    PermutationFacts(p, |i|);
    forall d | 0 <= d < |i| ensures i[d] == j[d] {
      var k := Position(p, d);
      assert Gather(i, p)[k] == Gather(j, p)[k];
    }
  }

  lemma BijectiveUngather(sizes: seq<int>, strides: seq<int>, p: seq<int>)
    requires |sizes| == |strides| && IsPermutation(p, |sizes|)
    requires forall k :: 0 <= k < |p| ==> 0 <= p[k] < |sizes|
    requires |p| == |sizes| && Bijective(Gather(sizes, p), Gather(strides, p))
    ensures Bijective(sizes, strides)
  {
    var a, t := Gather(sizes, p), Gather(strides, p);
    GatherAll(sizes, p);
    forall idx | InBox(idx, sizes)
      ensures InBox(Gather(idx, p), a) && Offset(Gather(idx, p), t) == Offset(idx, strides)
    {
      GatherInBox(idx, sizes, p);
      OffsetReorder(idx, strides, p);
    }
    forall i, j | InBox(i, sizes) && InBox(j, sizes) && Offset(i, strides) == Offset(j, strides)
      ensures i == j
    {
      assert InBox(Gather(i, p), a) && InBox(Gather(j, p), a);
      GatherInjective(i, j, p);
    }
    forall v | 0 <= v < Product(sizes)
      ensures Hits(sizes, strides, v)
    {
      assert Hits(a, t, v);
      var g :| InBox(g, a) && Offset(g, t) == v;
      var idx := Scatter(g, p);
      GatherInBox(idx, sizes, p);
      OffsetReorder(idx, strides, p);
    }
  }

  lemma BijectiveGather(sizes: seq<int>, strides: seq<int>, p: seq<int>)
    requires |sizes| == |strides| && IsPermutation(p, |sizes|)
    requires forall k :: 0 <= k < |p| ==> 0 <= p[k] < |sizes|
    requires |p| == |sizes| && Bijective(sizes, strides)
    ensures Bijective(Gather(sizes, p), Gather(strides, p))
  {
    var a, t := Gather(sizes, p), Gather(strides, p);
    GatherAll(sizes, p);
    forall g | InBox(g, a)
      ensures exists idx :: InBox(idx, sizes) && Gather(idx, p) == g && Offset(g, t) == Offset(idx, strides)
    {
      var idx := Scatter(g, p);
      GatherInBox(idx, sizes, p);
      OffsetReorder(idx, strides, p);
    }
    forall i, j | InBox(i, a) && InBox(j, a) && Offset(i, t) == Offset(j, t)
      ensures i == j
    {
      var x :| InBox(x, sizes) && Gather(x, p) == i && Offset(i, t) == Offset(x, strides);
      var y :| InBox(y, sizes) && Gather(y, p) == j && Offset(j, t) == Offset(y, strides);
      assert x == y;
    }
    forall v | 0 <= v < Product(a)
      ensures Hits(a, t, v)
    {
      assert Hits(sizes, strides, v);
      var idx :| InBox(idx, sizes) && Offset(idx, strides) == v;
      GatherInBox(idx, sizes, p);
      OffsetReorder(idx, strides, p);
      assert InBox(Gather(idx, p), a);
    }
  }

  lemma BijectiveReorder(sizes: seq<int>, strides: seq<int>, p: seq<int>)
    requires |sizes| == |strides| && IsPermutation(p, |sizes|)
    requires forall k :: 0 <= k < |p| ==> 0 <= p[k] < |sizes|
    ensures |p| == |sizes|
    ensures Bijective(sizes, strides) <==> Bijective(Gather(sizes, p), Gather(strides, p))
  {
    PermutationFacts(p, |sizes|);
    if Bijective(Gather(sizes, p), Gather(strides, p)) {
      BijectiveUngather(sizes, strides, p);
    }
    if Bijective(sizes, strides) {
      BijectiveGather(sizes, strides, p);
    }
  }
}
