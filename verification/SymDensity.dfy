// The density test of c10/core/Contiguity.h run on symbolic integers. Every
// comparison, also those the sort makes, is a guard; the answer is right for every
// valuation that agrees with the guards that were actually asked.
module SymDensity {
  import opened Permutations
  import opened Contiguity
  import opened Symbolic

  method BeforeGuarded(g: Guards, sizes: seq<SymInt>, strides: seq<SymInt>, a: int, b: int)
    returns (r: bool, ghost asked: set<BoolExpr>)
    requires |sizes| == |strides| && 0 <= a < |sizes| && 0 <= b < |sizes|
    ensures forall env :: g.Consistent(asked, env) ==> r == Before(EvalAll(sizes, env), EvalAll(strides, env), a, b)
    ensures forall env :: g.AnswersBy(env) ==> r == Before(EvalAll(sizes, env), EvalAll(strides, env), a, b)
  {
    var smallA, smallB := sizes[a].SymLt(Plain(2)), sizes[b].SymLt(Plain(2));
    var less := strides[a].SymLt(strides[b]);
    if g.GuardBool(smallA) {
      return false, g.Asks(smallA);
    }
    asked := g.Asks(smallA) + g.Asks(smallB);
    forall env | g.Consistent(asked, env)
      ensures g.Consistent(g.Asks(smallA), env) && g.Consistent(g.Asks(smallB), env)
    {
    }
    if g.GuardBool(smallB) {
      return true, asked;
    }
    ghost var before := asked;
    asked := before + g.Asks(less);
    forall env | g.Consistent(asked, env) ensures g.Consistent(before, env) && g.Consistent(g.Asks(less), env) {
    }
    r := g.GuardBool(less);
  }

  // x belongs at position i of the sorted list s.
  predicate Fits(sizes: seq<int>, strides: seq<int>, s: seq<int>, x: int, i: nat)
    requires |sizes| == |strides| && InBounds(s, |sizes|) && 0 <= x < |sizes| && i <= |s|
  {
    && (forall j :: 0 <= j < i ==> !Before(sizes, strides, x, s[j]))
    && (i < |s| ==> Before(sizes, strides, x, s[i]))
  }

  function InsertAt(s: seq<int>, x: int, i: nat): (r: seq<int>)
    requires i <= |s|
    ensures multiset(r) == multiset(s) + multiset{x}
  {
    assert s == s[..i] + s[i..];
    s[..i] + [x] + s[i..]
  }

  lemma InsertAtSorted(sizes: seq<int>, strides: seq<int>, s: seq<int>, x: int, i: nat)
    requires |sizes| == |strides| && InBounds(s, |sizes|) && 0 <= x < |sizes| && i <= |s|
    requires SortedBefore(sizes, strides, s) && Fits(sizes, strides, s, x, i)
    ensures InBounds(InsertAt(s, x, i), |sizes|) && SortedBefore(sizes, strides, InsertAt(s, x, i))
  {
    var r := InsertAt(s, x, i);
    forall j | i < j < |r| ensures r[j] == s[j - 1] && !Before(sizes, strides, r[j], x) {
      assert i < j - 1 ==> !Before(sizes, strides, s[j - 1], s[i]);
    }
  }

  method FindPlaceGuarded(g: Guards, sizes: seq<SymInt>, strides: seq<SymInt>, s: seq<int>, x: int)
    returns (i: nat, ghost asked: set<BoolExpr>)
    requires |sizes| == |strides| && InBounds(s, |sizes|) && 0 <= x < |sizes|
    ensures i <= |s|
    ensures forall env :: g.Consistent(asked, env) ==> Fits(EvalAll(sizes, env), EvalAll(strides, env), s, x, i)
  {
    asked := {};
    for k := 0 to |s|
      invariant forall env :: g.Consistent(asked, env) ==>
                  forall j :: 0 <= j < k ==> !Before(EvalAll(sizes, env), EvalAll(strides, env), x, s[j])
    {
      ghost var before := asked;
      var found, more := BeforeGuarded(g, sizes, strides, x, s[k]);
      asked := before + more;
      forall env | g.Consistent(asked, env) ensures g.Consistent(before, env) && g.Consistent(more, env) {
      }
      if found {
        return k, asked;
      }
    }
    i := |s|;
  }

  method InsertGuarded(g: Guards, sizes: seq<SymInt>, strides: seq<SymInt>, s: seq<int>, x: int)
    returns (r: seq<int>, ghost asked: set<BoolExpr>)
    requires |sizes| == |strides| && InBounds(s, |sizes|) && 0 <= x < |sizes|
    ensures multiset(r) == multiset(s) + multiset{x} && InBounds(r, |sizes|)
    ensures forall env :: g.Consistent(asked, env) && SortedBefore(EvalAll(sizes, env), EvalAll(strides, env), s) ==>
              SortedBefore(EvalAll(sizes, env), EvalAll(strides, env), r)
  {
    var i;
    i, asked := FindPlaceGuarded(g, sizes, strides, s, x);
    r := InsertAt(s, x, i);
    assert InBounds(r, |sizes|);
    forall env | g.Consistent(asked, env) && SortedBefore(EvalAll(sizes, env), EvalAll(strides, env), s)
      ensures SortedBefore(EvalAll(sizes, env), EvalAll(strides, env), r)
    {
      InsertAtSorted(EvalAll(sizes, env), EvalAll(strides, env), s, x, i);
    }
  }

  // Stands for std::sort with the guarding comparator.
  method StdSortGuarded(g: Guards, sizes: seq<SymInt>, strides: seq<SymInt>)
    returns (perm: seq<int>, ghost asked: set<BoolExpr>)
    requires |sizes| == |strides|
    ensures IsPermutation(perm, |sizes|) && InBounds(perm, |sizes|)
    ensures forall env :: g.Consistent(asked, env) ==> SortedBefore(EvalAll(sizes, env), EvalAll(strides, env), perm)
  {
    perm, asked := [], {};
    for i := 0 to |sizes|
      invariant IsPermutation(perm, i) && InBounds(perm, |sizes|)
      invariant forall env :: g.Consistent(asked, env) ==> SortedBefore(EvalAll(sizes, env), EvalAll(strides, env), perm)
    {
      ghost var before := asked;
      ghost var more;
      perm, more := InsertGuarded(g, sizes, strides, perm, i);
      asked := before + more;
      forall env | g.Consistent(asked, env) ensures g.Consistent(before, env) && g.Consistent(more, env) {
      }
      assert Range(i + 1) == Range(i) + [i];
    }
  }

  // Before round i every dimension had size 2 or more and the required stride.
  ghost predicate TestedUpTo(c: seq<int>, t: seq<int>, i: nat, requireStride: int)
    requires |c| == |t| && i <= |c|
  {
    requireStride == Product(c[..i]) && forall j :: 0 <= j < i ==> c[j] >= 2 && t[j] == Product(c[..j])
  }

  // What one round establishes, on the sizes and strides of one valuation.
  lemma TestRound(sizes: seq<int>, strides: seq<int>, perm: seq<int>, i: nat, requireStride: int)
    requires |sizes| == |strides| && IsPermutation(perm, |sizes|) && InBounds(perm, |sizes|)
    requires SortedBefore(sizes, strides, perm) && i < |perm|
    requires TestedUpTo(Gather(AtLeastOne(sizes), perm), Gather(strides, perm), i, requireStride)
    ensures sizes[perm[i]] < 2 ==> IsNonOverlappingAndDense(sizes, strides)
    ensures sizes[perm[i]] >= 2 && strides[perm[i]] != requireStride ==> !IsNonOverlappingAndDense(sizes, strides)
    ensures sizes[perm[i]] >= 2 && strides[perm[i]] == requireStride ==>
              TestedUpTo(Gather(AtLeastOne(sizes), perm), Gather(strides, perm), i + 1, requireStride * sizes[perm[i]])
  {
    var c, t := Gather(AtLeastOne(sizes), perm), Gather(strides, perm);
    SortedTestDecides(sizes, strides, perm);
    SortedIsAscending(sizes, strides, perm);
    if sizes[perm[i]] < 2 {
      assert c[i] == 1;
      assert forall j :: i < j < |c| ==> c[j] < 2;
    } else {
      assert c[i] == sizes[perm[i]] && t[i] == strides[perm[i]];
      ExtendProduct(c, i, requireStride, sizes[perm[i]]);
    }
  }

  method ComputeNonOverlappingAndDenseGuarded(g: Guards, sizes: seq<SymInt>, strides: seq<SymInt>)
    returns (r: bool, ghost asked: set<BoolExpr>)
    requires |sizes| == |strides|
    ensures forall env :: g.Consistent(asked, env) ==>
              (r <==> IsNonOverlappingAndDense(EvalAll(sizes, env), EvalAll(strides, env)))
    ensures forall env :: g.AnswersBy(env) ==>
              (r <==> IsNonOverlappingAndDense(EvalAll(sizes, env), EvalAll(strides, env)))
  {
    var dim := |sizes|;
    if dim == 1 {
      r, asked := OneDimensionGuarded(g, sizes, strides);
      return;
    }
    var perm;
    perm, asked := StdSortGuarded(g, sizes, strides);
    PermutationFacts(perm, dim);
    var requireStride := Plain(1);
    for i := 0 to dim
      invariant forall env :: g.Consistent(asked, env) ==>
                  && SortedBefore(EvalAll(sizes, env), EvalAll(strides, env), perm)
                  && TestedUpTo(Gather(AtLeastOne(EvalAll(sizes, env)), perm), Gather(EvalAll(strides, env), perm), i,
                                requireStride.Eval(env))
    {
      var size, stride := sizes[perm[i]], strides[perm[i]];
      var small, differs := size.SymLt(Plain(2)), stride.SymNe(requireStride);
      ghost var before := asked;
      asked := before + g.Asks(small) + (if g.GuardBool(small) then {} else g.Asks(differs));
      forall env | g.Consistent(asked, env)
        ensures g.Consistent(before, env) && g.Consistent(g.Asks(small), env)
        ensures !g.GuardBool(small) ==> g.Consistent(g.Asks(differs), env)
        ensures SortedBefore(EvalAll(sizes, env), EvalAll(strides, env), perm)
      {
      }
      forall env | g.Consistent(asked, env)
        ensures g.GuardBool(small) ==> IsNonOverlappingAndDense(EvalAll(sizes, env), EvalAll(strides, env))
        ensures !g.GuardBool(small) && g.GuardBool(differs) ==>
                  !IsNonOverlappingAndDense(EvalAll(sizes, env), EvalAll(strides, env))
        ensures !g.GuardBool(small) && !g.GuardBool(differs) ==>
                  TestedUpTo(Gather(AtLeastOne(EvalAll(sizes, env)), perm), Gather(EvalAll(strides, env), perm), i + 1,
                             requireStride.Mul(size).Eval(env))
      {
        TestRound(EvalAll(sizes, env), EvalAll(strides, env), perm, i, requireStride.Eval(env));
      }
      if g.GuardBool(small) {
        return true, asked;
      }
      if g.GuardBool(differs) {
        return false, asked;
      }
      requireStride := requireStride.Mul(size);
    }
    forall env | g.Consistent(asked, env)
      ensures IsNonOverlappingAndDense(EvalAll(sizes, env), EvalAll(strides, env))
    {
      SortedTestDecides(EvalAll(sizes, env), EvalAll(strides, env), perm);
    }
    return true, asked;
  }

  method OneDimensionGuarded(g: Guards, sizes: seq<SymInt>, strides: seq<SymInt>)
    returns (r: bool, ghost asked: set<BoolExpr>)
    requires |sizes| == |strides| == 1
    ensures forall env :: g.Consistent(asked, env) ==>
              (r <==> IsNonOverlappingAndDense(EvalAll(sizes, env), EvalAll(strides, env)))
    ensures forall env :: g.AnswersBy(env) ==>
              (r <==> IsNonOverlappingAndDense(EvalAll(sizes, env), EvalAll(strides, env)))
  {
    var small, unit := sizes[0].SymLt(Plain(2)), strides[0].SymEq(Plain(1));
    asked := g.Asks(small) + (if g.GuardBool(small) then {} else g.Asks(unit));
    r := g.GuardBool(small) || g.GuardBool(unit);
    forall env | g.Consistent(asked, env)
      ensures r <==> IsNonOverlappingAndDense(EvalAll(sizes, env), EvalAll(strides, env))
    {
      assert g.Consistent(g.Asks(small), env);
      assert !g.GuardBool(small) ==> g.Consistent(g.Asks(unit), env);
      OneDimension(EvalAll(sizes, env), EvalAll(strides, env));
    }
  }
}
