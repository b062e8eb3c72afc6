// DataLoader of gotorch.go: shuffled index order and the partition of an epoch into batches.
module DataLoader {
  import opened Permutations
  import opened MixedRadix

  // The batches of an epoch one after the other.
  function Concat(batches: seq<seq<int>>): (r: seq<int>) {
    if batches == [] then [] else Concat(batches[..|batches| - 1]) + batches[|batches| - 1]
  }

  // All batches are full, except possibly the last, which is not empty.
  ghost predicate FullBatches(batches: seq<seq<int>>, batchSize: nat) {
    forall k :: 0 <= k < |batches| ==>
      if k < |batches| - 1 then |batches[k]| == batchSize else 1 <= |batches[k]| <= batchSize
  }

  function BatchCount(n: nat, batchSize: nat): (v: nat)
    requires batchSize >= 1
  {
    (n + batchSize - 1) / batchSize
  }

  ghost predicate AllFull(batches: seq<seq<int>>, batchSize: nat) {
    forall k :: 0 <= k < |batches| ==> |batches[k]| == batchSize
  }

  lemma AnotherBatch(batches: seq<seq<int>>, batch: seq<int>, batchSize: nat)
    requires AllFull(batches, batchSize) && 1 <= |batch| <= batchSize
    ensures FullBatches(batches + [batch], batchSize)
    ensures |batch| == batchSize ==> AllFull(batches + [batch], batchSize)
    ensures Concat(batches + [batch]) == Concat(batches) + batch
  {
    assert (batches + [batch])[..|batches|] == batches;
  }

  class DataLoader {
    // dataset.Len(); the data set itself only hands out items by index.
    const length: nat
    const batchSize: nat
    const shuffle: bool
    var indices: array<int>
    var pos: nat

    ghost predicate Valid()
      reads this, indices
    {
      batchSize >= 1 && IsPermutation(indices[..], length) && pos <= indices.Length == length
    }

    constructor (length: nat, batchSize: nat, shuffle: bool)
      requires batchSize >= 1
      ensures Valid() && fresh(indices) && pos == 0
      ensures this.length == length && this.batchSize == batchSize && this.shuffle == shuffle
    {
      this.length, this.batchSize, this.shuffle := length, batchSize, shuffle;
      indices := new int[0];
      pos := 0;
      new;
      Reset();
    }

    // Every index of the data set, each once, in a new order when shuffling.
    method Reset()
      requires batchSize >= 1
      modifies this
      ensures Valid() && fresh(indices) && pos == 0
      ensures indices[..] == if shuffle then Shuffled(Range(length), length - 1) else Range(length)
    {
      var n := length;
      indices := new int[n];
      for i := 0 to n
        invariant indices.Length == n && fresh(indices)
        invariant forall k :: 0 <= k < i ==> indices[k] == k
      {
        indices[i] := i;
      }
      assert indices[..] == Range(n);
      if shuffle {
        Shuffle(indices);
        ShuffledSameItems(Range(n), indices.Length - 1);
      }
      pos := 0;
      PermutationFacts(indices[..], n);
    }

    function HasNext(): (b: bool)
      reads this
    {
      pos < indices.Length
    }

    function Len(): (n: nat)
      requires batchSize >= 1
    {
      BatchCount(length, batchSize)
    }

    // The indices fetched for one batch, in the order of the epoch.
    method Next() returns (batch: seq<int>)
      requires Valid()
      modifies `pos
      ensures Valid() && old(pos) <= pos && batch == indices[old(pos)..pos]
      ensures |batch| == if indices.Length - old(pos) < batchSize then indices.Length - old(pos) else batchSize
    {
      var end := pos + batchSize;
      if end > indices.Length {
        end := indices.Length;
      }
      batch := indices[pos..end];
      pos := end;
    }

    // A whole epoch: the index order, cut into Len() batches, all full but possibly the last.
    method Epoch() returns (batches: seq<seq<int>>)
      requires Valid()
      modifies this
      ensures Valid() && !HasNext() && fresh(indices)
      ensures Concat(batches) == indices[..] && IsPermutation(Concat(batches), length)
      ensures |batches| == Len()
      ensures FullBatches(batches, batchSize)
    {
      Reset();
      batches := [];
      ghost var order := indices[..];
      while HasNext()
        invariant Valid() && fresh(indices) && indices[..] == order
        invariant Progress(batches, order, pos, batchSize)
        decreases indices.Length - pos
      {
        ghost var before := pos;
        var batch := Next();
        assert batch == order[before..pos];
        StepOfEpoch(batches, order, before, pos, batchSize);
        batches := batches + [batch];
      }
      EndOfEpoch(batches, order, pos, batchSize);
    }
  }

  // The batches handed out while the epoch is at pos.
  ghost predicate Progress(batches: seq<seq<int>>, order: seq<int>, pos: nat, batchSize: nat) {
    && batchSize >= 1 && pos <= |order| && Concat(batches) == order[..pos]
    && FullBatches(batches, batchSize)
    && (pos < |order| ==> pos == |batches| * batchSize && AllFull(batches, batchSize))
    && (pos == |order| ==> |batches| == BatchCount(|order|, batchSize))
  }

  lemma StepOfEpoch(batches: seq<seq<int>>, order: seq<int>, before: nat, after: nat, batchSize: nat)
    requires batchSize >= 1 && Progress(batches, order, before, batchSize) && before < |order|
    requires after == if |order| - before < batchSize then |order| else before + batchSize
    ensures Progress(batches + [order[before..after]], order, after, batchSize)
  {
    AnotherBatch(batches, order[before..after], batchSize);
    NextPosition(|order|, batchSize, |batches|, before, after);
  }

  lemma EndOfEpoch(batches: seq<seq<int>>, order: seq<int>, pos: nat, batchSize: nat)
    requires Progress(batches, order, pos, batchSize) && pos == |order|
    ensures Concat(batches) == order && FullBatches(batches, batchSize) && |batches| == BatchCount(|order|, batchSize)
  {
    assert order[..|order|] == order;
  }

  // k full batches and a non-empty rest that fits one batch make k + 1 batches.
  lemma CountBatches(n: nat, b: nat, k: nat)
    requires b >= 1 && k * b < n <= k * b + b
    ensures BatchCount(n, b) == k + 1
  {
    var q := (n + b - 1) / b;
    assert q * b <= n + b - 1 < q * b + b;
    MulOrder(k, q, b);
    MulOrder(q, k + 2, b);
    assert (k + 2) * b == k * b + b + b;
  }

  // The position after one more batch.
  lemma NextPosition(n: nat, b: nat, k: nat, before: nat, after: nat)
    requires b >= 1 && before == k * b < n
    requires after == if n - before < b then n else before + b
    ensures after < n ==> after == (k + 1) * b
    ensures after >= n ==> BatchCount(n, b) == k + 1
  {
    assert (k + 1) * b == k * b + b;
    if after >= n {
      CountBatches(n, b, k);
    }
  }

  // ----- the shuffle -----

  function Swapped(s: seq<int>, i: nat, j: nat): (r: seq<int>)
    requires i < |s| && j < |s|
    ensures |r| == |s|
  {
    s[i := s[j]][j := s[i]]
  }

  // From position i down, each entry changes places with one at or below it.
  function Shuffled(s: seq<int>, i: int): (r: seq<int>)
    requires i < |s|
    ensures |r| == |s|
    decreases i
  {
    if i <= 0 then s else Shuffled(Swapped(s, i, (i * 6700417) % (i + 1)), i - 1)
  }

  lemma {:induction false} ShuffledSameItems(s: seq<int>, i: int)
    requires i < |s|
    ensures multiset(Shuffled(s, i)) == multiset(s)
    ensures forall k :: i < k < |s| && k >= 0 ==> Shuffled(s, i)[k] == s[k]
    decreases i
  {
    if i > 0 {
      var j := (i * 6700417) % (i + 1);
      ShuffledSameItems(Swapped(s, i, j), i - 1);
      SwapKeepsItems(s, i, j);
    }
  }

  lemma SwapKeepsItems(s: seq<int>, i: int, j: int)
    requires 0 <= i < |s| && 0 <= j < |s|
    ensures multiset(Swapped(s, i, j)) == multiset(s)
  {
  }

  // Position i receives the entry at position i * 6700417 mod (i + 1), whose place its own entry takes; then
  // the positions below are shuffled the same way. Positions above i keep their entries.
  lemma {:induction false} ShuffledEntries(s: seq<int>, i: nat)
    requires 0 < i < |s|
    ensures var j := (i * 6700417) % (i + 1);
            && Shuffled(s, i)[i] == s[j]
            && Shuffled(s, i)[..i] == Shuffled(if j < i then s[..i][j := s[i]] else s[..i], i - 1)
            && Shuffled(s, i)[i + 1..] == s[i + 1..]
  {
    var j := (i * 6700417) % (i + 1);
    var t := Swapped(s, i, j);
    ShuffledPrefix(t, i, i - 1);
    assert t[..i] == if j < i then s[..i][j := s[i]] else s[..i];
    ShuffledSameItems(t, i - 1);
  }

  // Shuffling the first positions does not look at the others.
  lemma {:induction false} ShuffledPrefix(s: seq<int>, n: nat, i: int)
    requires i < n <= |s|
    ensures Shuffled(s, i)[..n] == Shuffled(s[..n], i)
    decreases i
  {
    if i > 0 {
      var j := (i * 6700417) % (i + 1);
      assert Swapped(s, i, j)[..n] == Swapped(s[..n], i, j);
      ShuffledPrefix(Swapped(s, i, j), n, i - 1);
    }
  }

  method Shuffle(a: array<int>)
    modifies a
    ensures a[..] == Shuffled(old(a[..]), a.Length - 1)
  {
    var i := a.Length - 1;
    while i > 0
      invariant i < a.Length
      invariant Shuffled(a[..], i) == Shuffled(old(a[..]), a.Length - 1)
    {
      var j := (i * 6700417) % (i + 1);
      ghost var before := a[..];
      a[i], a[j] := a[j], a[i];
      assert a[..] == Swapped(before, i, j);
      i := i - 1;
    }
  }
}
