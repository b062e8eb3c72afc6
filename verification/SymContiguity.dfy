// The symbolic twins in c10/core/Contiguity.h: whatever the guards answer, the
// returned SymBool means what the concrete test computes.
module SymContiguity {
  import opened Permutations
  import opened MixedRadix
  import opened Contiguity
  import opened Symbolic

  // What the callers guarantee: sizes are never negative and numel is their product.
  ghost predicate WellShaped(g: Guards, sizes: seq<SymInt>, numel: SymInt) {
    forall env :: g.allowed(env) ==> ShapedIn(sizes, numel, env)
  }

  ghost predicate ShapedIn(sizes: seq<SymInt>, numel: SymInt, env: Valuation) {
    && numel.Eval(env) == Product(EvalAll(sizes, env))
    && forall k :: 0 <= k < |sizes| ==> EvalAll(sizes, env)[k] >= 0
  }

  // After k dimensions (fastest first) every tested stride matched and both expected
  // strides are the product of the sizes so far.
  ghost predicate Matched(sizes: seq<SymInt>, strides: seq<SymInt>, order: seq<int>, k: nat,
                          expected: SymInt, expectedMax: SymInt, env: Valuation)
    requires |sizes| == |strides| && IsOrder(order, |sizes|) && k <= |order|
  {
    var a, t := Gather(EvalAll(sizes, env), order), Gather(EvalAll(strides, env), order);
    && DenseUpTo(a, t, k)
    && expected.Eval(env) == Product(a[..k])
    && expectedMax.Eval(env) == Product(a[..k])
  }

  lemma {:induction false} NonzeroProduct(s: seq<int>)
    requires Product(s) != 0 && forall k :: 0 <= k < |s| ==> s[k] >= 0
    ensures Positive(s)
  {
    if |s| > 0 {
      var n := |s| - 1;
      NonzeroProduct(s[..n]);
      assert forall k :: 0 <= k < n ==> s[k] == s[..n][k];
    }
  }

  lemma MatchedStep(sizes: seq<SymInt>, strides: seq<SymInt>, order: seq<int>, k: nat,
                    expected: SymInt, expectedMax: SymInt, env: Valuation)
    requires |sizes| == |strides| && IsOrder(order, |sizes|) && k < |order|
    requires Matched(sizes, strides, order, k, expected, expectedMax, env)
    requires Positive(EvalAll(sizes, env))
    requires var size, stride := sizes[order[k]].Eval(env), strides[order[k]].Eval(env);
             size == 1 || stride == expected.Eval(env) || stride == expectedMax.Eval(env)
    ensures var size := sizes[order[k]];
            Matched(sizes, strides, order, k + 1, expected.Mul(size), expectedMax.Mul(size.AtLeast(Plain(1))), env)
    ensures sizes[order[k]].Eval(env) == 1 ==> Matched(sizes, strides, order, k + 1, expected, expectedMax, env)
  {
    var a, t := Gather(EvalAll(sizes, env), order), Gather(EvalAll(strides, env), order);
    DenseStep(a, t, k, expected.Eval(env));
    assert a[k] == EvalAll(sizes, env)[order[k]] == sizes[order[k]].Eval(env);
    assert sizes[order[k]].AtLeast(Plain(1)).Eval(env) == a[k];
  }

  // The strides that make_contiguous_strides_for and restriding write: last 1, then products with max(1, size).
  ghost predicate WrittenAsProducts(sizes: seq<SymInt>, strides: seq<SymInt>) {
    && |sizes| == |strides|
    && (|strides| > 0 ==> strides[|strides| - 1] == Plain(1))
    && forall i :: 0 <= i < |strides| - 1 ==> strides[i] == strides[i + 1].Mul(sizes[i + 1].AtLeast(Plain(1)))
  }

  // No guard decides that some dimension has size 1.
  ghost predicate NoSizeKnownOne(g: Guards, sizes: seq<SymInt>)
    requires g.Sound()
  {
    forall d :: 0 <= d < |sizes| ==> !g.GuardOrFalse(sizes[d].SymEq(Plain(1)))
  }

  // Where no oracle is needed: numel, sizes and strides are plain integers, and the callers' promise holds.
  ghost predicate PlainShape(sizes: seq<SymInt>, strides: seq<SymInt>, numel: SymInt) {
    AllPlain(sizes) && AllPlain(strides) && numel.Plain? && ShapedIn(sizes, numel, ZERO)
  }

  lemma SameIsNotRefuted(g: Guards, x: SymInt)
    requires g.Sound() && g.KnowsSelf()
    ensures !g.GuardOrTrue(x.SymNe(x))
  {
    assert x.SymNe(x).Eval(ZERO) == false;
  }

  // On plain integers the expected strides are plain, and the tests so far decided exactly.
  ghost predicate PlainSoFar(sizes: seq<SymInt>, strides: seq<SymInt>, order: seq<int>, k: nat,
                             expected: SymInt, expectedMax: SymInt)
    requires |sizes| == |strides| && IsOrder(order, |sizes|) && k <= |order|
  {
    expected.Plain? && expectedMax.Plain? && Matched(sizes, strides, order, k, expected, expectedMax, ZERO)
  }

  // A refused plain dimension refuses the layout ...
  lemma PlainRefused(sizes: seq<SymInt>, strides: seq<SymInt>, order: seq<int>, k: nat, expected: SymInt, expectedMax: SymInt)
    requires |sizes| == |strides| && IsOrder(order, |sizes|) && k < |order|
    requires Matched(sizes, strides, order, k, expected, expectedMax, ZERO)
    requires sizes[order[k]].Eval(ZERO) != 1 && strides[order[k]].Eval(ZERO) != expected.Eval(ZERO)
    ensures !DenseInOrder(EvalAll(sizes, ZERO), EvalAll(strides, ZERO), order)
  {
    var a, t := Gather(EvalAll(sizes, ZERO), order), Gather(EvalAll(strides, ZERO), order);
    assert a[k] == sizes[order[k]].Eval(ZERO) && t[k] == strides[order[k]].Eval(ZERO);
    DenseStep(a, t, k, expected.Eval(ZERO));
  }

  // ... and an accepted one goes on.
  lemma PlainAccepted(sizes: seq<SymInt>, strides: seq<SymInt>, order: seq<int>, k: nat, expected: SymInt, expectedMax: SymInt)
    requires |sizes| == |strides| && IsOrder(order, |sizes|) && k < |order|
    requires AllPlain(sizes) && Positive(EvalAll(sizes, ZERO))
    requires PlainSoFar(sizes, strides, order, k, expected, expectedMax)
    requires var size, stride := sizes[order[k]].Eval(ZERO), strides[order[k]].Eval(ZERO);
             size == 1 || stride == expected.Eval(ZERO) || stride == expectedMax.Eval(ZERO)
    ensures var size := sizes[order[k]];
            PlainSoFar(sizes, strides, order, k + 1, expected.Mul(size), expectedMax.Mul(size.AtLeast(Plain(1))))
    ensures sizes[order[k]].Eval(ZERO) == 1 ==> PlainSoFar(sizes, strides, order, k + 1, expected, expectedMax)
  {
    MatchedStep(sizes, strides, order, k, expected, expectedMax, ZERO);
  }

  // Whether the fast path passes over dimension d, or refuses it.
  predicate Skips(g: Guards, size: SymInt)
    requires g.Sound()
  {
    g.GuardOrFalse(size.SymEq(Plain(1)))
  }

  predicate Refuses(g: Guards, stride: SymInt, expected: SymInt, expectedMax: SymInt)
    requires g.Sound()
  {
    g.GuardOrTrue(stride.SymNe(expected)) && g.GuardOrTrue(stride.SymNe(expectedMax))
  }

  // On plain integers these are the comparisons themselves.
  lemma PlainEqual(g: Guards, x: SymInt, y: SymInt)
    requires g.Sound() && x.Plain? && y.Plain?
    ensures g.GuardOrFalse(x.SymEq(y)) <==> x.value == y.value
  {
    var q := x.SymEq(y);
    assert q.Decided?;
    assert q.Eval(ZERO) <==> x.Eval(ZERO) == y.Eval(ZERO);
  }

  lemma PlainDiffer(g: Guards, x: SymInt, y: SymInt)
    requires g.Sound() && x.Plain? && y.Plain?
    ensures g.GuardOrTrue(x.SymNe(y)) <==> x.value != y.value
  {
    var q := x.SymNe(y);
    assert q.Decided?;
    assert q.Eval(ZERO) <==> x.Eval(ZERO) != y.Eval(ZERO);
  }

  // One round of the fast path for the valuations it has to answer for.
  lemma FastRound(g: Guards, sizes: seq<SymInt>, strides: seq<SymInt>, numel: SymInt, order: seq<int>, k: nat,
                  expected: SymInt, expectedMax: SymInt, env: Valuation)
    requires |sizes| == |strides| && IsOrder(order, |sizes|) && k < |order| && g.Sound() && WellShaped(g, sizes, numel)
    requires g.allowed(env) && numel.Eval(env) != 0 && Matched(sizes, strides, order, k, expected, expectedMax, env)
    requires Skips(g, sizes[order[k]]) || !Refuses(g, strides[order[k]], expected, expectedMax)
    ensures if Skips(g, sizes[order[k]]) then Matched(sizes, strides, order, k + 1, expected, expectedMax, env)
            else Matched(sizes, strides, order, k + 1, expected.Mul(sizes[order[k]]),
                         expectedMax.Mul(sizes[order[k]].AtLeast(Plain(1))), env)
  {
    assert ShapedIn(sizes, numel, env);
    NonzeroProduct(EvalAll(sizes, env));
    MatchedStep(sizes, strides, order, k, expected, expectedMax, env);
  }

  // The same on plain integers, where a refusal is right as well.
  lemma PlainRound(g: Guards, sizes: seq<SymInt>, strides: seq<SymInt>, numel: SymInt, order: seq<int>, k: nat,
                   expected: SymInt, expectedMax: SymInt)
    requires |sizes| == |strides| && IsOrder(order, |sizes|) && k < |order| && g.Sound()
    requires PlainShape(sizes, strides, numel) && numel.value != 0
    requires PlainSoFar(sizes, strides, order, k, expected, expectedMax)
    ensures if Skips(g, sizes[order[k]]) then PlainSoFar(sizes, strides, order, k + 1, expected, expectedMax)
            else if Refuses(g, strides[order[k]], expected, expectedMax)
              then !DenseInOrder(EvalAll(sizes, ZERO), EvalAll(strides, ZERO), order)
            else PlainSoFar(sizes, strides, order, k + 1, expected.Mul(sizes[order[k]]),
                            expectedMax.Mul(sizes[order[k]].AtLeast(Plain(1))))
  {
    NonzeroProduct(EvalAll(sizes, ZERO));
    PlainEqual(g, sizes[order[k]], Plain(1));
    PlainDiffer(g, strides[order[k]], expected);
    PlainDiffer(g, strides[order[k]], expectedMax);
    if !Skips(g, sizes[order[k]]) && Refuses(g, strides[order[k]], expected, expectedMax) {
      PlainRefused(sizes, strides, order, k, expected, expectedMax);
    } else {
      PlainAccepted(sizes, strides, order, k, expected, expectedMax);
    }
  }

  // On written strides the second expected stride is the stride itself.
  ghost predicate WrittenSoFar(g: Guards, sizes: seq<SymInt>, strides: seq<SymInt>, d: int, expectedMax: SymInt)
    requires g.Sound() && d < |strides|
  {
    WrittenAsProducts(sizes, strides) && NoSizeKnownOne(g, sizes) && d >= 0 ==> strides[d] == expectedMax
  }

  // The fast path: true means contiguous under every allowed valuation. It decides plain integers, and it
  // succeeds on written strides even when nothing is known about the sizes.
  method ContiguousOrFalse(g: Guards, sizes: seq<SymInt>, strides: seq<SymInt>, numel: SymInt) returns (r: bool)
    requires |sizes| == |strides| && g.Sound() && WellShaped(g, sizes, numel)
    ensures r ==> forall env :: g.allowed(env) ==>
                    IsContiguous(EvalAll(sizes, env), EvalAll(strides, env), numel.Eval(env))
    ensures PlainShape(sizes, strides, numel) ==>
              (r <==> IsContiguous(EvalAll(sizes, ZERO), EvalAll(strides, ZERO), numel.value))
    ensures WrittenAsProducts(sizes, strides) && g.KnowsSelf() && NoSizeKnownOne(g, sizes) ==> r
  {
    if g.GuardOrFalse(numel.SymEq(Plain(0))) {
      return true;
    }
    if numel.Plain? {
      PlainEqual(g, numel, Plain(0));
    }
    ghost var order, plain := RowMajor(|sizes|), PlainShape(sizes, strides, numel);
    var expected, expectedMax := Plain(1), Plain(1);
    var d := |sizes| - 1;
    ghost var k := 0;
    while d >= 0
      invariant -1 <= d < |sizes| && k == |sizes| - 1 - d
      invariant forall env :: g.allowed(env) && numel.Eval(env) != 0 ==>
                  Matched(sizes, strides, order, k, expected, expectedMax, env)
      invariant plain ==> PlainSoFar(sizes, strides, order, k, expected, expectedMax)
      invariant WrittenSoFar(g, sizes, strides, d, expectedMax)
    {
      assert order[k] == d;
      if plain {
        PlainRound(g, sizes, strides, numel, order, k, expected, expectedMax);
      }
      var skip := g.GuardOrFalse(sizes[d].SymEq(Plain(1)));
      if !skip {
        if g.KnowsSelf() {
          SameIsNotRefuted(g, expectedMax);
        }
        if g.GuardOrTrue(strides[d].SymNe(expected)) && g.GuardOrTrue(strides[d].SymNe(expectedMax)) {
          return false;
        }
      }
      forall env | g.allowed(env) && numel.Eval(env) != 0
        ensures if skip then Matched(sizes, strides, order, k + 1, expected, expectedMax, env)
                else Matched(sizes, strides, order, k + 1, expected.Mul(sizes[d]),
                             expectedMax.Mul(sizes[d].AtLeast(Plain(1))), env)
      {
        FastRound(g, sizes, strides, numel, order, k, expected, expectedMax, env);
      }
      if !skip {
        expectedMax := expectedMax.Mul(sizes[d].AtLeast(Plain(1)));
        expected := expected.Mul(sizes[d]);
      }
      d, k := d - 1, k + 1;
    }
    return true;
  }

  // The slow path: one expression that says every dimension has size 1 or the expected stride.
  method OrderCondition(sizes: seq<SymInt>, strides: seq<SymInt>, order: seq<int>) returns (cond: SymBool)
    requires |sizes| == |strides| && IsOrder(order, |sizes|)
    ensures forall env :: cond.Eval(env) <==> DenseInOrder(EvalAll(sizes, env), EvalAll(strides, env), order)
  {
    cond := Decided(true);
    var expected := Plain(1);
    for k := 0 to |order|
      invariant forall env :: ConditionSoFar(sizes, strides, order, k, cond, expected, env)
    {
      var size, stride := sizes[order[k]], strides[order[k]];
      var cond', expected' := cond.SymAnd(size.SymEq(Plain(1)).SymOr(stride.SymEq(expected))), expected.Mul(size);
      ghost var next := k + 1;
      forall env ensures ConditionSoFar(sizes, strides, order, next, cond', expected', env) {
        assert ConditionSoFar(sizes, strides, order, k, cond, expected, env);
        DenseStep(Gather(EvalAll(sizes, env), order), Gather(EvalAll(strides, env), order), k, expected.Eval(env));
      }
      cond, expected := cond', expected';
    }
    forall env ensures cond.Eval(env) <==> DenseInOrder(EvalAll(sizes, env), EvalAll(strides, env), order) {
      assert ConditionSoFar(sizes, strides, order, |order|, cond, expected, env);
    }
  }

  ghost predicate ConditionSoFar(sizes: seq<SymInt>, strides: seq<SymInt>, order: seq<int>, k: nat,
                                 cond: SymBool, expected: SymInt, env: Valuation)
    requires |sizes| == |strides| && IsOrder(order, |sizes|) && k <= |order|
  {
    var a, t := Gather(EvalAll(sizes, env), order), Gather(EvalAll(strides, env), order);
    (cond.Eval(env) <==> DenseUpTo(a, t, k)) && expected.Eval(env) == Product(a[..k])
  }

  method ComputeContiguousSym(g: Guards, sizes: seq<SymInt>, strides: seq<SymInt>, numel: SymInt)
    returns (r: SymBool)
    requires |sizes| == |strides| && g.Sound() && WellShaped(g, sizes, numel)
    ensures forall env :: g.allowed(env) ==>
              (r.Eval(env) <==> IsContiguous(EvalAll(sizes, env), EvalAll(strides, env), numel.Eval(env)))
    ensures WrittenAsProducts(sizes, strides) && g.KnowsSelf() && NoSizeKnownOne(g, sizes) ==> r == Decided(true)
  {
    var known := ContiguousOrFalse(g, sizes, strides, numel);
    if known {
      return Decided(true);
    }
    var isEmpty := numel.SymEq(Plain(0));
    var cond := OrderCondition(sizes, strides, RowMajor(|sizes|));
    r := cond.SymOr(isEmpty);
  }

  // The same on plain integers, where a refusal is right as well.
  lemma PlainOrderRound(g: Guards, sizes: seq<SymInt>, strides: seq<SymInt>, order: seq<int>, k: nat, expected: SymInt)
    requires |sizes| == |strides| && IsOrder(order, |sizes|) && k < |order| && g.Sound()
    requires AllPlain(sizes) && AllPlain(strides) && expected.Plain?
    requires ConditionSoFar(sizes, strides, order, k, Decided(true), expected, ZERO)
    ensures var size, stride := sizes[order[k]], strides[order[k]];
            if Skips(g, size) then ConditionSoFar(sizes, strides, order, k + 1, Decided(true), expected, ZERO)
            else if g.GuardOrTrue(stride.SymNe(expected))
              then !DenseInOrder(EvalAll(sizes, ZERO), EvalAll(strides, ZERO), order)
            else ConditionSoFar(sizes, strides, order, k + 1, Decided(true), expected.Mul(size), ZERO)
  {
    PlainEqual(g, sizes[order[k]], Plain(1));
    PlainDiffer(g, strides[order[k]], expected);
    DenseStep(Gather(EvalAll(sizes, ZERO), order), Gather(EvalAll(strides, ZERO), order), k, expected.Eval(ZERO));
  }

  // Every stride is, in all allowed valuations, the product of the sizes of faster dimensions.
  ghost predicate WrittenInOrder(g: Guards, sizes: seq<SymInt>, strides: seq<SymInt>, order: seq<int>)
    requires |sizes| == |strides| && IsOrder(order, |sizes|)
  {
    forall env :: g.allowed(env) ==>
      forall k :: 0 <= k < |order| ==>
        EvalAll(strides, env)[order[k]] == Product(Gather(EvalAll(sizes, env), order)[..k])
  }

  // Two symbolic integers that agree in all allowed valuations.
  lemma AgreeingAreNotRefuted(g: Guards, x: SymInt, y: SymInt)
    requires g.Sound() && g.KnowsIdentities()
    requires forall env :: g.allowed(env) ==> x.Eval(env) == y.Eval(env)
    ensures !g.GuardOrTrue(x.SymNe(y))
  {
    var env :| g.allowed(env);
    assert !x.SymNe(y).Eval(env);
    var a, b := x.Wrap(), y.Wrap();
    assert forall env :: g.allowed(env) ==> a.Eval(env) == b.Eval(env);
  }

  // The fast path of the channels-last tests, which knows one expected stride only. It decides plain
  // integers, and succeeds on written strides when the guards see through products.
  method MatchesOrderOrFalse(g: Guards, sizes: seq<SymInt>, strides: seq<SymInt>, order: seq<int>) returns (r: bool)
    requires |sizes| == |strides| && IsOrder(order, |sizes|) && g.Sound()
    ensures r ==> forall env :: g.allowed(env) ==> DenseInOrder(EvalAll(sizes, env), EvalAll(strides, env), order)
    ensures AllPlain(sizes) && AllPlain(strides) ==>
              (r <==> DenseInOrder(EvalAll(sizes, ZERO), EvalAll(strides, ZERO), order))
    ensures WrittenInOrder(g, sizes, strides, order) && g.KnowsIdentities() ==> r
  {
    var expected := Plain(1);
    ghost var plain := AllPlain(sizes) && AllPlain(strides);
    for k := 0 to |order|
      invariant forall env :: g.allowed(env) ==> ConditionSoFar(sizes, strides, order, k, Decided(true), expected, env)
      invariant plain ==> expected.Plain? && ConditionSoFar(sizes, strides, order, k, Decided(true), expected, ZERO)
    {
      var size, stride := sizes[order[k]], strides[order[k]];
      if plain {
        PlainOrderRound(g, sizes, strides, order, k, expected);
      }
      if WrittenInOrder(g, sizes, strides, order) && g.KnowsIdentities() {
        WrittenAgrees(g, sizes, strides, order, k, expected);
      }
      var skip := g.GuardOrFalse(size.SymEq(Plain(1)));
      if !skip && g.GuardOrTrue(stride.SymNe(expected)) {
        return false;
      }
      var expected' := if skip then expected else expected.Mul(size);
      forall env | g.allowed(env) ensures ConditionSoFar(sizes, strides, order, k + 1, Decided(true), expected', env) {
        DenseStep(Gather(EvalAll(sizes, env), order), Gather(EvalAll(strides, env), order), k, expected.Eval(env));
      }
      expected := expected';
    }
    return true;
  }

  lemma WrittenAgrees(g: Guards, sizes: seq<SymInt>, strides: seq<SymInt>, order: seq<int>, k: nat, expected: SymInt)
    requires |sizes| == |strides| && IsOrder(order, |sizes|) && k < |order| && g.Sound()
    requires WrittenInOrder(g, sizes, strides, order) && g.KnowsIdentities()
    requires forall env :: g.allowed(env) ==> ConditionSoFar(sizes, strides, order, k, Decided(true), expected, env)
    ensures !g.GuardOrTrue(strides[order[k]].SymNe(expected))
  {
    forall env | g.allowed(env) ensures strides[order[k]].Eval(env) == expected.Eval(env) {
      assert ConditionSoFar(sizes, strides, order, k, Decided(true), expected, env);
      assert EvalAll(strides, env)[order[k]] == Product(Gather(EvalAll(sizes, env), order)[..k]);
    }
    AgreeingAreNotRefuted(g, strides[order[k]], expected);
  }

  method ComputeChannelsLastSym(g: Guards, sizes: seq<SymInt>, strides: seq<SymInt>, order: seq<int>) returns (r: SymBool)
    requires |sizes| == |strides| && IsOrder(order, |sizes|) && g.Sound()
    ensures forall env :: g.allowed(env) ==>
              (r.Eval(env) <==> DenseInOrder(EvalAll(sizes, env), EvalAll(strides, env), order))
    ensures WrittenInOrder(g, sizes, strides, order) && g.KnowsIdentities() ==> r == Decided(true)
  {
    var known := MatchesOrderOrFalse(g, sizes, strides, order);
    if known {
      return Decided(true);
    }
    r := OrderCondition(sizes, strides, order);
  }

  method ComputeChannelsLastContiguous2dSym(g: Guards, sizes: seq<SymInt>, strides: seq<SymInt>) returns (r: SymBool)
    requires |sizes| == |strides| && g.Sound()
    ensures forall env :: g.allowed(env) ==>
              (r.Eval(env) <==> IsChannelsLastContiguous2d(EvalAll(sizes, env), EvalAll(strides, env)))
    ensures |sizes| != 4 ==> r == Decided(false)
    ensures |sizes| == 4 && WrittenInOrder(g, sizes, strides, CHANNELS_LAST_2D) && g.KnowsIdentities() ==> r == Decided(true)
  {
    if |sizes| != 4 {
      return Decided(false);
    }
    r := ComputeChannelsLastSym(g, sizes, strides, CHANNELS_LAST_2D);
  }

  method ComputeChannelsLastContiguous3dSym(g: Guards, sizes: seq<SymInt>, strides: seq<SymInt>) returns (r: SymBool)
    requires |sizes| == |strides| && g.Sound()
    ensures forall env :: g.allowed(env) ==>
              (r.Eval(env) <==> IsChannelsLastContiguous3d(EvalAll(sizes, env), EvalAll(strides, env)))
    ensures |sizes| != 5 ==> r == Decided(false)
    ensures |sizes| == 5 && WrittenInOrder(g, sizes, strides, CHANNELS_LAST_3D) && g.KnowsIdentities() ==> r == Decided(true)
  {
    if |sizes| != 5 {
      return Decided(false);
    }
    r := ComputeChannelsLastSym(g, sizes, strides, CHANNELS_LAST_3D);
  }

  // ----- the concrete templates run on symbolic integers: every comparison is a guard -----

  // The contiguity test asks size == 1, the channels-last tests ask size != 1.
  method IsOneGuarded(g: Guards, size: SymInt, negated: bool) returns (one: bool, ghost asked: set<BoolExpr>)
    ensures asked == g.Asks(if negated then size.SymNe(Plain(1)) else size.SymEq(Plain(1)))
    ensures forall env :: g.Consistent(asked, env) ==> (one <==> size.Eval(env) == 1)
    ensures forall env :: g.AnswersBy(env) ==> (one <==> size.Eval(env) == 1)
  {
    var question := if negated then size.SymNe(Plain(1)) else size.SymEq(Plain(1));
    asked := g.Asks(question);
    one := g.GuardBool(question) != negated;
    assert forall env :: g.AnswersBy(env) ==> g.Consistent(asked, env);
  }

  method MatchesOrderGuarded(g: Guards, sizes: seq<SymInt>, strides: seq<SymInt>, order: seq<int>, negated: bool)
    returns (r: bool, ghost asked: set<BoolExpr>)
    requires |sizes| == |strides| && IsOrder(order, |sizes|)
    ensures forall env :: g.Consistent(asked, env) ==>
              (r <==> DenseInOrder(EvalAll(sizes, env), EvalAll(strides, env), order))
    ensures forall env :: g.AnswersBy(env) ==>
              (r <==> DenseInOrder(EvalAll(sizes, env), EvalAll(strides, env), order))
  {
    asked := {};
    var expected := Plain(1);
    for k := 0 to |order|
      invariant forall env :: g.Consistent(asked, env) ==>
                  ConditionSoFar(sizes, strides, order, k, Decided(true), expected, env)
    {
      var size, stride := sizes[order[k]], strides[order[k]];
      var differs := stride.SymNe(expected);
      ghost var before := asked;
      var skip, first := IsOneGuarded(g, size, negated);
      asked := asked + first;
      if !skip {
        asked := asked + g.Asks(differs);
      }
      var expected' := if skip then expected else expected.Mul(size);
      forall env | g.Consistent(asked, env)
        ensures !skip && g.GuardBool(differs) ==>
                  !DenseInOrder(EvalAll(sizes, env), EvalAll(strides, env), order)
        ensures skip || !g.GuardBool(differs) ==>
                  ConditionSoFar(sizes, strides, order, k + 1, Decided(true), expected', env)
      {
        assert g.Consistent(before, env) && g.Consistent(first, env);
        assert !skip ==> g.Consistent(g.Asks(differs), env);
        var a, t := Gather(EvalAll(sizes, env), order), Gather(EvalAll(strides, env), order);
        DenseStep(a, t, k, expected.Eval(env));
        assert DenseInOrder(EvalAll(sizes, env), EvalAll(strides, env), order) ==> DenseUpTo(a, t, k + 1);
      }
      if !skip && g.GuardBool(differs) {
        return false, asked;
      }
      expected := expected';
    }
    return true, asked;
  }

  method ComputeContiguousGuarded(g: Guards, sizes: seq<SymInt>, strides: seq<SymInt>, numel: SymInt)
    returns (r: bool, ghost asked: set<BoolExpr>)
    requires |sizes| == |strides|
    ensures forall env :: g.Consistent(asked, env) ==>
              (r <==> IsContiguous(EvalAll(sizes, env), EvalAll(strides, env), numel.Eval(env)))
    ensures forall env :: g.AnswersBy(env) ==>
              (r <==> IsContiguous(EvalAll(sizes, env), EvalAll(strides, env), numel.Eval(env)))
  {
    var isEmpty := numel.SymEq(Plain(0));
    if g.GuardBool(isEmpty) {
      return true, g.Asks(isEmpty);
    }
    r, asked := MatchesOrderGuarded(g, sizes, strides, RowMajor(|sizes|), false);
    ghost var later := asked;
    asked := g.Asks(isEmpty) + later;
    assert forall env :: g.Consistent(asked, env) ==> g.Consistent(g.Asks(isEmpty), env) && g.Consistent(later, env);
  }
}
