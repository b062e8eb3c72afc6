// The layout tests of c10/core/Contiguity.h, each proved against what it
// means for the map from an index to its offset.
module Contiguity {
  import opened Permutations
  import opened MixedRadix

  // Orders list dimensions from the fastest varying one to the slowest.
  const CHANNELS_LAST_2D: seq<int> := [1, 3, 2, 0]
  const CHANNELS_LAST_3D: seq<int> := [1, 4, 3, 2, 0]

  function RowMajor(n: nat): (order: seq<int>) {
    seq(n, k => n - 1 - k)
  }

  predicate IsOrder(order: seq<int>, n: nat) {
    |order| == n && forall k :: 0 <= k < n ==> 0 <= order[k] < n
  }

  // Every stride is 1 times the sizes of the dimensions that vary faster.
  ghost predicate DenseInOrder(sizes: seq<int>, strides: seq<int>, order: seq<int>)
    requires |sizes| == |strides| && IsOrder(order, |sizes|)
  {
    Dense(Gather(sizes, order), Gather(strides, order))
  }

  ghost predicate IsContiguous(sizes: seq<int>, strides: seq<int>, numel: int)
    requires |sizes| == |strides|
  {
    numel == 0 || DenseInOrder(sizes, strides, RowMajor(|sizes|))
  }

  ghost predicate IsChannelsLastContiguous2d(sizes: seq<int>, strides: seq<int>)
    requires |sizes| == |strides|
  {
    |sizes| == 4 && DenseInOrder(sizes, strides, CHANNELS_LAST_2D)
  }

  ghost predicate IsChannelsLastContiguous3d(sizes: seq<int>, strides: seq<int>)
    requires |sizes| == |strides|
  {
    |sizes| == 5 && DenseInOrder(sizes, strides, CHANNELS_LAST_3D)
  }

  // Dimensions of size 0 and 1 do not take part in the density test.
  function AtLeastOne(sizes: seq<int>): (r: seq<int>) {
    seq(|sizes|, k requires 0 <= k < |sizes| => if sizes[k] < 1 then 1 else sizes[k])
  }

  ghost predicate IsNonOverlappingAndDense(sizes: seq<int>, strides: seq<int>)
    requires |sizes| == |strides|
  {
    Bijective(AtLeastOne(sizes), strides)
  }

  // One round of the loops below: the expected stride takes in one more size.
  lemma ExtendProduct(s: seq<int>, k: nat, expected: int, size: int)
    requires k < |s| && expected == Product(s[..k]) && size == s[k]
    ensures Product(s[..k + 1]) == expected * size
    ensures size == 1 ==> Product(s[..k + 1]) == expected
  {
    assert s[..k + 1][..k] == s[..k];
  }

  // The dimensions before k pass the test.
  ghost predicate DenseUpTo(sizes: seq<int>, strides: seq<int>, k: nat)
    requires k <= |sizes| == |strides|
  {
    forall j :: 0 <= j < k ==> sizes[j] == 1 || strides[j] == Product(sizes[..j])
  }

  lemma DenseStep(sizes: seq<int>, strides: seq<int>, k: nat, expected: int)
    requires |sizes| == |strides| && k < |sizes| && expected == Product(sizes[..k])
    ensures DenseUpTo(sizes, strides, k + 1) <==>
            DenseUpTo(sizes, strides, k) && (sizes[k] == 1 || strides[k] == expected)
    ensures Product(sizes[..k + 1]) == expected * sizes[k]
  {
    ExtendProduct(sizes, k, expected, sizes[k]);
  }

  method ComputeContiguous(sizes: seq<int>, strides: seq<int>, numel: int) returns (r: bool)
    requires |sizes| == |strides|
    ensures r <==> IsContiguous(sizes, strides, numel)
  {
    if numel == 0 {
      return true;
    }
    ghost var order := RowMajor(|sizes|);
    ghost var a, t := Gather(sizes, order), Gather(strides, order);
    var expected := 1;
    var d := |sizes| - 1;
    ghost var k := 0;
    while d >= 0
      invariant -1 <= d < |sizes| && k == |sizes| - 1 - d
      invariant expected == Product(a[..k])
      invariant DenseUpTo(a, t, k)
    {
      assert order[k] == d;
      assert a[k] == sizes[d] && t[k] == strides[d];
      ExtendProduct(a, k, expected, sizes[d]);
      if sizes[d] != 1 {
        if strides[d] != expected {
          return false;
        }
        expected := expected * sizes[d];
      }
      d, k := d - 1, k + 1;
    }
    return true;
  }

  method ComputeChannelsLastContiguous2d(sizes: seq<int>, strides: seq<int>) returns (r: bool)
    requires |sizes| == |strides|
    ensures r <==> IsChannelsLastContiguous2d(sizes, strides)
  {
    if |sizes| != 4 {
      return false;
    }
    r := MatchesOrder(sizes, strides, CHANNELS_LAST_2D);
  }

  method ComputeChannelsLastContiguous3d(sizes: seq<int>, strides: seq<int>) returns (r: bool)
    requires |sizes| == |strides|
    ensures r <==> IsChannelsLastContiguous3d(sizes, strides)
  {
    if |sizes| != 5 {
      return false;
    }
    r := MatchesOrder(sizes, strides, CHANNELS_LAST_3D);
  }

  // The loop that both channels-last tests run over their constant order.
  method MatchesOrder(sizes: seq<int>, strides: seq<int>, order: seq<int>) returns (r: bool)
    requires |sizes| == |strides| && IsOrder(order, |sizes|)
    ensures r <==> DenseInOrder(sizes, strides, order)
  {
    ghost var a, t := Gather(sizes, order), Gather(strides, order);
    var expected := 1;
    for k := 0 to |order|
      invariant expected == Product(a[..k])
      invariant DenseUpTo(a, t, k)
    {
      var d := order[k];
      assert a[k] == sizes[d] && t[k] == strides[d];
      ExtendProduct(a, k, expected, sizes[d]);
      if sizes[d] != 1 {
        if strides[d] != expected {
          return false;
        }
        expected := expected * sizes[d];
      }
    }
    return true;
  }

  // ----- the density test sorts the dimensions first -----

  // The comparator handed to std::sort: ascending strides, sizes 0 and 1 last.
  predicate Before(sizes: seq<int>, strides: seq<int>, a: int, b: int)
    requires |sizes| == |strides| && 0 <= a < |sizes| && 0 <= b < |sizes|
  {
    if sizes[a] < 2 then false else if sizes[b] < 2 then true else strides[a] < strides[b]
  }

  predicate InBounds(perm: seq<int>, n: nat) {
    forall k :: 0 <= k < |perm| ==> 0 <= perm[k] < n
  }

  predicate SortedBefore(sizes: seq<int>, strides: seq<int>, perm: seq<int>)
    requires |sizes| == |strides| && InBounds(perm, |sizes|)
  {
    forall i, j :: 0 <= i < j < |perm| ==> !Before(sizes, strides, perm[j], perm[i])
  }

  function Insert(sizes: seq<int>, strides: seq<int>, s: seq<int>, x: int): (r: seq<int>)
    requires |sizes| == |strides| && InBounds(s, |sizes|) && 0 <= x < |sizes|
    ensures InBounds(r, |sizes|) && multiset(r) == multiset(s) + multiset{x}
  {
    if s == [] then [x]
    else if Before(sizes, strides, x, s[0]) then [x] + s
    else
      assert s == [s[0]] + s[1..];
      [s[0]] + Insert(sizes, strides, s[1..], x)
  }

  lemma {:induction false} InsertSorted(sizes: seq<int>, strides: seq<int>, s: seq<int>, x: int)
    requires |sizes| == |strides| && InBounds(s, |sizes|) && 0 <= x < |sizes|
    requires SortedBefore(sizes, strides, s)
    ensures SortedBefore(sizes, strides, Insert(sizes, strides, s, x))
  {
    var r := Insert(sizes, strides, s, x);
    if s != [] && !Before(sizes, strides, x, s[0]) {
      var rest := Insert(sizes, strides, s[1..], x);
      InsertSorted(sizes, strides, s[1..], x);
      forall j | 0 <= j < |rest| ensures !Before(sizes, strides, rest[j], s[0]) {
        assert rest[j] in multiset(s[1..]) + multiset{x};
        if rest[j] != x {
          assert rest[j] in s[1..];
        }
      }
    }
  }

  // Stands for std::sort: callers rely only on a sorted permutation coming back.
  method StdSort(perm: array<int>, sizes: seq<int>, strides: seq<int>)
    requires |sizes| == |strides| && InBounds(perm[..], |sizes|)
    modifies perm
    ensures multiset(perm[..]) == multiset(old(perm[..])) && InBounds(perm[..], |sizes|)
    ensures SortedBefore(sizes, strides, perm[..])
  {
    var s := [];
    for i := 0 to perm.Length
      invariant perm[..] == old(perm[..])
      invariant InBounds(s, |sizes|) && SortedBefore(sizes, strides, s)
      invariant multiset(s) == multiset(perm[..i])
    {
      InsertSorted(sizes, strides, s, perm[i]);
      s := Insert(sizes, strides, s, perm[i]);
      assert perm[..i + 1] == perm[..i] + [perm[i]];
    }
    assert perm[..perm.Length] == perm[..];
    assert |s| == |multiset(s)| == |multiset(perm[..])| == perm.Length;
    forall i | 0 <= i < perm.Length {
      perm[i] := s[i];
    }
    assert perm[..] == s;
  }

  // Sorted dimensions, clamped to size 1, are in ascending order.
  lemma SortedIsAscending(sizes: seq<int>, strides: seq<int>, perm: seq<int>)
    requires |sizes| == |strides| && InBounds(perm, |sizes|) && SortedBefore(sizes, strides, perm)
    ensures Ascending(Gather(AtLeastOne(sizes), perm), Gather(strides, perm))
  {
    var c, t := Gather(AtLeastOne(sizes), perm), Gather(strides, perm);
    forall j, k | 0 <= j < k < |c| && c[k] >= 2 ensures c[j] >= 2 && t[j] <= t[k] {
      assert !Before(sizes, strides, perm[k], perm[j]);
    }
  }

  // Whichever sorted permutation is used, testing it decides bijectivity.
  lemma SortedTestDecides(sizes: seq<int>, strides: seq<int>, perm: seq<int>)
    requires |sizes| == |strides| && IsPermutation(perm, |sizes|)
    requires InBounds(perm, |sizes|) && SortedBefore(sizes, strides, perm)
    ensures |perm| == |sizes|
    ensures Dense(Gather(AtLeastOne(sizes), perm), Gather(strides, perm)) <==> IsNonOverlappingAndDense(sizes, strides)
  {
    SortedIsAscending(sizes, strides, perm);
    DenseIffBijective(Gather(AtLeastOne(sizes), perm), Gather(strides, perm));
    BijectiveReorder(AtLeastOne(sizes), strides, perm);
  }

  method ComputeNonOverlappingAndDense(sizes: seq<int>, strides: seq<int>) returns (r: bool)
    requires |sizes| == |strides|
    ensures r <==> IsNonOverlappingAndDense(sizes, strides)
  {
    var dim := |sizes|;
    if dim == 1 {
      r := sizes[0] < 2 || strides[0] == 1;
      OneDimension(sizes, strides);
      return;
    }
    var perm := new int[dim];
    for i := 0 to dim
      invariant forall k :: 0 <= k < i ==> perm[k] == k
    {
      perm[i] := i;
    }
    assert perm[..] == Range(dim);
    StdSort(perm, sizes, strides);
    r := TestSorted(perm, sizes, strides);
  }

  // The loop after the sort: each stride must be the product of the sizes already seen.
  method TestSorted(perm: array<int>, sizes: seq<int>, strides: seq<int>) returns (r: bool)
    requires |sizes| == |strides| && IsPermutation(perm[..], |sizes|)
    requires InBounds(perm[..], |sizes|) && SortedBefore(sizes, strides, perm[..])
    ensures r <==> IsNonOverlappingAndDense(sizes, strides)
  {
    ghost var p := perm[..];
    SortedTestDecides(sizes, strides, p);
    SortedIsAscending(sizes, strides, p);
    ghost var c, t := Gather(AtLeastOne(sizes), p), Gather(strides, p);
    var requireStride := 1;
    for i := 0 to perm.Length
      invariant requireStride == Product(c[..i])
      invariant forall j :: 0 <= j < i ==> c[j] >= 2 && t[j] == Product(c[..j])
    {
      var size := sizes[perm[i]];
      if size < 2 {
        assert forall j :: i < j < |c| ==> c[j] < 2;
        return true;
      }
      assert t[i] == strides[perm[i]] && c[i] == size;
      ExtendProduct(c, i, requireStride, size);
      if strides[perm[i]] != requireStride {
        return false;
      }
      requireStride := requireStride * size;
    }
    return true;
  }

  lemma OneDimension(sizes: seq<int>, strides: seq<int>)
    requires |sizes| == |strides| == 1
    ensures IsNonOverlappingAndDense(sizes, strides) <==> sizes[0] < 2 || strides[0] == 1
  {
    var c := AtLeastOne(sizes);
    DenseIffBijective(c, strides);
    assert Product(c[..0]) == 1;
  }

  // ----- ranks -----

  // Position of an index in memory order, fastest coordinate first (Horner's scheme).
  function Rank(idx: seq<int>, sizes: seq<int>): (v: int)
    requires |idx| == |sizes|
  {
    if |idx| == 0 then 0 else idx[0] + sizes[0] * Rank(idx[1..], sizes[1..])
  }

  // The usual row-major rank: last coordinate fastest.
  function RowMajorRank(idx: seq<int>, sizes: seq<int>): (v: int)
    requires |idx| == |sizes|
  {
    var n := |idx| - 1;
    if n < 0 then 0 else RowMajorRank(idx[..n], sizes[..n]) * sizes[n] + idx[n]
  }

  lemma {:induction false} RowMajorRankIsRank(idx: seq<int>, sizes: seq<int>)
    requires |idx| == |sizes|
    ensures Rank(Gather(idx, RowMajor(|idx|)), Gather(sizes, RowMajor(|idx|))) == RowMajorRank(idx, sizes)
    decreases |idx|
  {
    var n := |idx| - 1;
    if n >= 0 {
      RowMajorRankIsRank(idx[..n], sizes[..n]);
      assert Gather(idx, RowMajor(|idx|))[1..] == Gather(idx[..n], RowMajor(n));
      assert Gather(sizes, RowMajor(|idx|))[1..] == Gather(sizes[..n], RowMajor(n));
    }
  }

  lemma {:induction false} ProductFirst(s: seq<int>)
    requires |s| > 0
    ensures Product(s) == s[0] * Product(s[1..])
  {
    var n := |s| - 1;
    if n > 0 {
      ProductFirst(s[..n]);
      assert s[..n][1..] == s[1..][..n - 1];
      var x, y, z := s[0], Product(s[1..n]), s[n];
      assert s[1..n] == s[..n][1..];
      assert x * y * z == x * (y * z);
    }
  }

  lemma Distribute(x: int, y: int, z: int, p: int)
    ensures x * (y + z * p) == x * y + z * (x * p)
  {
    assert x * (z * p) == z * (x * p);
  }

  lemma {:induction false} RankLast(idx: seq<int>, sizes: seq<int>, n: nat)
    requires |idx| == |sizes| == n + 1
    ensures Rank(idx, sizes) == Rank(idx[..n], sizes[..n]) + idx[n] * Product(sizes[..n])
    decreases n
  {
    if n > 0 {
      RankLast(idx[1..], sizes[1..], n - 1);
      assert idx[1..][..n - 1] == idx[..n][1..] && sizes[1..][..n - 1] == sizes[..n][1..];
      ProductFirst(sizes[..n]);
      Distribute(sizes[0], Rank(idx[..n][1..], sizes[..n][1..]), idx[n], Product(sizes[..n][1..]));
    }
  }

  lemma {:induction false} DenseOffsetIsRank(idx: seq<int>, sizes: seq<int>, strides: seq<int>)
    requires |sizes| == |strides| && Dense(sizes, strides) && InBox(idx, sizes)
    ensures Offset(idx, strides) == Rank(idx, sizes)
    decreases |sizes|
  {
    if |sizes| > 0 {
      var n := |sizes| - 1;
      DensePrefix(sizes, strides, n);
      DenseOffsetIsRank(idx[..n], sizes[..n], strides[..n]);
      OffsetLast(idx, sizes, strides, n);
      RankLast(idx, sizes, n);
    }
  }

  lemma {:induction false} RankPadded(idx: seq<int>, sizes: seq<int>, k: nat)
    requires |idx| == |sizes| && k <= |idx|
    requires forall j :: k <= j < |idx| ==> idx[j] == 0
    ensures Rank(idx, sizes) == Rank(idx[..k], sizes[..k])
    decreases |idx|
  {
    var n := |idx| - 1;
    if k == |idx| {
      assert idx[..k] == idx && sizes[..k] == sizes;
    } else {
      RankPadded(idx[..n], sizes[..n], k);
      RankLast(idx, sizes, n);
      assert idx[..n][..k] == idx[..k] && sizes[..n][..k] == sizes[..k];
    }
  }

  lemma RankOfUnit(sizes: seq<int>, k: nat)
    requires k < |sizes|
    ensures Rank(Zeros(|sizes|)[k := 1], sizes) == Product(sizes[..k])
  {
    var u := Zeros(|sizes|)[k := 1];
    RankPadded(u, sizes, k + 1);
    RankLast(u[..k + 1], sizes[..k + 1], k);
    assert u[..k + 1][..k] == u[..k] && sizes[..k + 1][..k] == sizes[..k];
    RankPadded(u[..k], sizes[..k], 0);
  }

  ghost predicate OffsetIsRank(sizes: seq<int>, strides: seq<int>)
    requires |sizes| == |strides|
  {
    forall idx :: InBox(idx, sizes) ==> Offset(idx, strides) == Rank(idx, sizes)
  }

  lemma DenseIffRank(sizes: seq<int>, strides: seq<int>)
    requires |sizes| == |strides| && Positive(sizes)
    ensures Dense(sizes, strides) <==> OffsetIsRank(sizes, strides)
  {
    if Dense(sizes, strides) {
      forall idx | InBox(idx, sizes) ensures Offset(idx, strides) == Rank(idx, sizes) {
        DenseOffsetIsRank(idx, sizes, strides);
      }
    }
    if OffsetIsRank(sizes, strides) {
      forall k | 0 <= k < |sizes| && sizes[k] != 1 ensures strides[k] == Product(sizes[..k]) {
        var u := Zeros(|sizes|)[k := 1];
        assert InBox(u, sizes);
        OffsetOfUnit(|sizes|, k, strides);
        RankOfUnit(sizes, k);
      }
    }
  }

  // The same along any order of the dimensions.
  ghost predicate OffsetIsRankInOrder(sizes: seq<int>, strides: seq<int>, order: seq<int>)
    requires |sizes| == |strides| && IsOrder(order, |sizes|)
  {
    forall idx :: InBox(idx, sizes) ==> Offset(idx, strides) == Rank(Gather(idx, order), Gather(sizes, order))
  }

  lemma DenseInOrderIffRank(sizes: seq<int>, strides: seq<int>, order: seq<int>)
    requires |sizes| == |strides| && IsOrder(order, |sizes|) && IsPermutation(order, |sizes|)
    requires Positive(sizes)
    ensures DenseInOrder(sizes, strides, order) <==> OffsetIsRankInOrder(sizes, strides, order)
  {
    var a, t := Gather(sizes, order), Gather(strides, order);
    DenseIffRank(a, t);
    forall idx | InBox(idx, sizes)
      ensures InBox(Gather(idx, order), a) && Offset(Gather(idx, order), t) == Offset(idx, strides)
    {
      GatherInBox(idx, sizes, order);
      OffsetReorder(idx, strides, order);
    }
    if OffsetIsRankInOrder(sizes, strides, order) {
      forall g | InBox(g, a) ensures Offset(g, t) == Rank(g, a) {
        var idx := Scatter(g, order);
        GatherInBox(idx, sizes, order);
      }
    }
  }

  lemma ChannelsLast2dIsPermutation()
    ensures IsPermutation(CHANNELS_LAST_2D, 4)
  {
    assert Range(4) == [0, 1, 2, 3];
  }

  lemma ChannelsLast3dIsPermutation()
    ensures IsPermutation(CHANNELS_LAST_3D, 5)
  {
    assert Range(5) == [0, 1, 2, 3, 4];
  }

  lemma {:induction false} RowMajorIsPermutation(n: nat)
    ensures IsPermutation(RowMajor(n), n)
  {
    if n > 0 {
      RowMajorIsPermutation(n - 1);
      assert RowMajor(n) == [n - 1] + RowMajor(n - 1);
      assert Range(n) == Range(n - 1) + [n - 1];
    }
  }

  // A tensor without empty dimensions is contiguous exactly when every
  // element sits at its row-major rank.
  lemma ContiguousIffRowMajor(sizes: seq<int>, strides: seq<int>)
    requires |sizes| == |strides| && Positive(sizes)
    ensures IsContiguous(sizes, strides, Product(sizes)) <==>
            forall idx :: InBox(idx, sizes) ==> Offset(idx, strides) == RowMajorRank(idx, sizes)
  {
    ProductPositive(sizes);
    var order := RowMajor(|sizes|);
    RowMajorIsPermutation(|sizes|);
    DenseInOrderIffRank(sizes, strides, order);
    forall idx | InBox(idx, sizes)
      ensures Rank(Gather(idx, order), Gather(sizes, order)) == RowMajorRank(idx, sizes)
    {
      RowMajorRankIsRank(idx, sizes);
    }
  }

  // Channels-last: batch slowest, then height, then width, channels fastest.
  function ChannelsLastRank2d(idx: seq<int>, sizes: seq<int>): (v: int)
    requires |idx| == |sizes| == 4
  {
    ((idx[0] * sizes[2] + idx[2]) * sizes[3] + idx[3]) * sizes[1] + idx[1]
  }

  // Batch, depth, height, width, channels.
  function ChannelsLastRank3d(idx: seq<int>, sizes: seq<int>): (v: int)
    requires |idx| == |sizes| == 5
  {
    (((idx[0] * sizes[2] + idx[2]) * sizes[3] + idx[3]) * sizes[4] + idx[4]) * sizes[1] + idx[1]
  }

  lemma ChannelsLast2dIffRank(sizes: seq<int>, strides: seq<int>)
    requires |sizes| == |strides| == 4 && Positive(sizes)
    ensures IsChannelsLastContiguous2d(sizes, strides) <==>
            forall idx :: InBox(idx, sizes) ==> Offset(idx, strides) == ChannelsLastRank2d(idx, sizes)
  {
    ChannelsLast2dIsPermutation();
    DenseInOrderIffRank(sizes, strides, CHANNELS_LAST_2D);
    forall idx | InBox(idx, sizes)
      ensures Rank(Gather(idx, CHANNELS_LAST_2D), Gather(sizes, CHANNELS_LAST_2D)) == ChannelsLastRank2d(idx, sizes)
    {
      RankInOrder2d(idx, sizes);
    }
  }

  lemma RankInOrder2d(idx: seq<int>, sizes: seq<int>)
    requires |idx| == |sizes| == 4
    ensures Rank(Gather(idx, CHANNELS_LAST_2D), Gather(sizes, CHANNELS_LAST_2D)) == ChannelsLastRank2d(idx, sizes)
  {
    Rank4(Gather(idx, CHANNELS_LAST_2D), Gather(sizes, CHANNELS_LAST_2D));
  }

  lemma Rank4(g: seq<int>, a: seq<int>)
    requires |g| == |a| == 4
    ensures Rank(g, a) == ((g[3] * a[2] + g[2]) * a[1] + g[1]) * a[0] + g[0]
  {
    assert g[1..][1..] == g[2..] && a[1..][1..] == a[2..];
    assert g[2..][1..] == g[3..] && a[2..][1..] == a[3..];
    assert Rank(g[3..][1..], a[3..][1..]) == 0;
    var r3, r2, r1 := Rank(g[3..], a[3..]), Rank(g[2..], a[2..]), Rank(g[1..], a[1..]);
    assert r3 == g[3];
    assert r2 == g[2] + a[2] * r3;
    assert r1 == g[1] + a[1] * r2;
  }

  lemma ChannelsLast3dIffRank(sizes: seq<int>, strides: seq<int>)
    requires |sizes| == |strides| == 5 && Positive(sizes)
    ensures IsChannelsLastContiguous3d(sizes, strides) <==>
            forall idx :: InBox(idx, sizes) ==> Offset(idx, strides) == ChannelsLastRank3d(idx, sizes)
  {
    ChannelsLast3dIsPermutation();
    DenseInOrderIffRank(sizes, strides, CHANNELS_LAST_3D);
    forall idx | InBox(idx, sizes)
      ensures Rank(Gather(idx, CHANNELS_LAST_3D), Gather(sizes, CHANNELS_LAST_3D)) == ChannelsLastRank3d(idx, sizes)
    {
      RankInOrder3d(idx, sizes);
    }
  }

  lemma RankInOrder3d(idx: seq<int>, sizes: seq<int>)
    requires |idx| == |sizes| == 5
    ensures Rank(Gather(idx, CHANNELS_LAST_3D), Gather(sizes, CHANNELS_LAST_3D)) == ChannelsLastRank3d(idx, sizes)
  {
    var g, a := Gather(idx, CHANNELS_LAST_3D), Gather(sizes, CHANNELS_LAST_3D);
    Rank4(g[1..], a[1..]);
  }

  // ----- how the tests relate -----

  lemma DenseInOrderImpliesDenseTest(sizes: seq<int>, strides: seq<int>, order: seq<int>)
    requires |sizes| == |strides| && IsOrder(order, |sizes|) && IsPermutation(order, |sizes|)
    requires Positive(sizes) && DenseInOrder(sizes, strides, order)
    ensures IsNonOverlappingAndDense(sizes, strides)
  {
    DenseIsBijective(Gather(sizes, order), Gather(strides, order));
    BijectiveReorder(sizes, strides, order);
    assert AtLeastOne(sizes) == sizes;
  }

  // Without empty dimensions each contiguity flag implies the density test.
  lemma ContiguousImpliesDense(sizes: seq<int>, strides: seq<int>)
    requires |sizes| == |strides| && Positive(sizes)
    requires IsContiguous(sizes, strides, Product(sizes))
    ensures IsNonOverlappingAndDense(sizes, strides)
  {
    ProductPositive(sizes);
    RowMajorIsPermutation(|sizes|);
    DenseInOrderImpliesDenseTest(sizes, strides, RowMajor(|sizes|));
  }

  lemma ChannelsLastImpliesDense(sizes: seq<int>, strides: seq<int>)
    requires |sizes| == |strides| && Positive(sizes)
    requires IsChannelsLastContiguous2d(sizes, strides) || IsChannelsLastContiguous3d(sizes, strides)
    ensures IsNonOverlappingAndDense(sizes, strides)
  {
    if |sizes| == 4 {
      ChannelsLast2dIsPermutation();
      DenseInOrderImpliesDenseTest(sizes, strides, CHANNELS_LAST_2D);
    } else {
      ChannelsLast3dIsPermutation();
      DenseInOrderImpliesDenseTest(sizes, strides, CHANNELS_LAST_3D);
    }
  }
}
