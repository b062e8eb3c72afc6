// Channels-last strides (c10/core/MemoryFormat.h): how they are written, how
// they are recognised, and when the two agree.
module MemoryFormat {
  import opened Permutations
  import opened MixedRadix
  import opened Contiguity
  import opened Symbolic
  import opened Wrappers

  // Every stride, also that of a size-1 dimension, is the product of the sizes of faster dimensions.
  ghost predicate StridesInOrder(sizes: seq<int>, strides: seq<int>, order: seq<int>)
    requires |sizes| == |strides| && IsOrder(order, |sizes|)
  {
    forall k :: 0 <= k < |order| ==> strides[order[k]] == Product(Gather(sizes, order)[..k])
  }

  method GetChannelsLastStrides2d(sizes: seq<SymInt>) returns (strides: Option<seq<SymInt>>)
    ensures strides.Some? <==> |sizes| == 4 || |sizes| == 3
    ensures strides.Some? ==> |strides.value| == |sizes|
    ensures |sizes| == 4 ==>
              forall env :: StridesInOrder(EvalAll(sizes, env), EvalAll(strides.value, env), CHANNELS_LAST_2D)
    ensures |sizes| == 3 ==>
              forall env :: StridesInOrder(EvalAll(sizes, env), EvalAll(strides.value, env), [0, 2, 1])
  {
    var s := seq(|sizes|, _ => Plain(0));
    match |sizes| {
      case 4 =>
        s := s[1 := Plain(1)];
        s := s[3 := sizes[1]];
        s := s[2 := s[3].Mul(sizes[3])];
        s := s[0 := s[2].Mul(sizes[2])];
        forall env ensures StridesInOrder(EvalAll(sizes, env), EvalAll(s, env), CHANNELS_LAST_2D) {
          Products(Gather(EvalAll(sizes, env), CHANNELS_LAST_2D));
        }
        return Some(s);
      case 3 =>
        s := s[0 := Plain(1)];
        s := s[2 := sizes[0]];
        s := s[1 := s[2].Mul(sizes[2])];
        forall env ensures StridesInOrder(EvalAll(sizes, env), EvalAll(s, env), [0, 2, 1]) {
          Products(Gather(EvalAll(sizes, env), [0, 2, 1]));
        }
        return Some(s);
      case _ =>
        return None;
    }
  }

  method GetChannelsLastStrides3d(sizes: seq<SymInt>) returns (strides: Option<seq<SymInt>>)
    ensures strides.Some? <==> |sizes| == 5 || |sizes| == 4
    ensures strides.Some? ==> |strides.value| == |sizes|
    ensures |sizes| == 5 ==>
              forall env :: StridesInOrder(EvalAll(sizes, env), EvalAll(strides.value, env), CHANNELS_LAST_3D)
    ensures |sizes| == 4 ==>
              forall env :: StridesInOrder(EvalAll(sizes, env), EvalAll(strides.value, env), [0, 3, 2, 1])
  {
    var s := seq(|sizes|, _ => Plain(0));
    match |sizes| {
      case 5 =>
        s := s[1 := Plain(1)];
        s := s[4 := sizes[1]];
        s := s[3 := s[4].Mul(sizes[4])];
        s := s[2 := s[3].Mul(sizes[3])];
        s := s[0 := s[2].Mul(sizes[2])];
        forall env ensures StridesInOrder(EvalAll(sizes, env), EvalAll(s, env), CHANNELS_LAST_3D) {
          Products(Gather(EvalAll(sizes, env), CHANNELS_LAST_3D));
        }
        return Some(s);
      case 4 =>
        s := s[0 := Plain(1)];
        s := s[3 := sizes[0]];
        s := s[2 := s[3].Mul(sizes[3])];
        s := s[1 := s[2].Mul(sizes[2])];
        forall env ensures StridesInOrder(EvalAll(sizes, env), EvalAll(s, env), [0, 3, 2, 1]) {
          Products(Gather(EvalAll(sizes, env), [0, 3, 2, 1]));
        }
        return Some(s);
      case _ =>
        return None;
    }
  }

  // Products of the first entries, written out.
  lemma Products(a: seq<int>)
    requires 3 <= |a| <= 5
    ensures Product(a[..0]) == 1
    ensures Product(a[..1]) == a[0]
    ensures Product(a[..2]) == a[0] * a[1]
    ensures |a| >= 4 ==> Product(a[..3]) == a[0] * a[1] * a[2]
    ensures |a| >= 5 ==> Product(a[..4]) == a[0] * a[1] * a[2] * a[3]
  {
    assert a[..1][..0] == a[..0] && a[..2][..1] == a[..1];
    if |a| >= 4 {
      assert a[..3][..2] == a[..2];
    }
    if |a| >= 5 {
      assert a[..4][..3] == a[..3];
    }
  }

  // ----- recognising channels-last strides -----

  // The smallest stride a slower dimension may have after dimension d.
  function Span(sizes: seq<int>, strides: seq<int>, d: int): (v: int)
    requires |sizes| == |strides| && 0 <= d < |sizes|
  {
    if sizes[d] > 1 then strides[d] * sizes[d] else strides[d]
  }

  // No empty dimension, each stride at least the span of the next faster dimension, a positive
  // channel stride, and a batch dimension that does not start at the channel stride again.
  ghost predicate LooksChannelsLast(sizes: seq<int>, strides: seq<int>, order: seq<int>)
    requires |sizes| == |strides| && IsOrder(order, |sizes|) && |order| >= 2
  {
    && strides[order[0]] > 0
    && (forall k :: 0 <= k < |order| ==> sizes[order[k]] != 0)
    && (forall k :: 0 < k < |order| ==> strides[order[k]] >= Span(sizes, strides, order[k - 1]))
    && Span(sizes, strides, order[|order| - 2]) != strides[order[0]]
  }

  ghost predicate IsChannelsLastStrides2d(sizes: seq<int>, strides: seq<int>)
    requires |sizes| == |strides|
  {
    |sizes| == 4 && LooksChannelsLast(sizes, strides, CHANNELS_LAST_2D)
  }

  ghost predicate IsChannelsLastStrides3d(sizes: seq<int>, strides: seq<int>)
    requires |sizes| == |strides|
  {
    |sizes| == 5 && LooksChannelsLast(sizes, strides, CHANNELS_LAST_3D)
  }

  // The conditions of LooksChannelsLast that the loop has checked before round k.
  ghost predicate LooksUpTo(sizes: seq<int>, strides: seq<int>, order: seq<int>, k: nat, min: int)
    requires |sizes| == |strides| && IsOrder(order, |sizes|) && |order| >= 2 && k <= |order|
  {
    && strides[order[0]] != 0
    && (forall j :: 0 <= j < k ==> sizes[order[j]] != 0)
    && (forall j :: 0 < j < k ==> strides[order[j]] >= Span(sizes, strides, order[j - 1]))
    && (k > 0 ==> strides[order[0]] >= 0 && min == Span(sizes, strides, order[k - 1]))
    && (k == 0 ==> min == 0)
    && (k == |order| ==> Span(sizes, strides, order[k - 2]) != strides[order[0]])
  }

  // One round of the loop of is_channels_last_strides_2d_s4 and _3d_s5, for dimension d.
  method CheckDimension(g: Guards, sizes: seq<SymInt>, strides: seq<SymInt>, d: nat, min: SymInt)
    returns (ok: bool, min': SymInt, ghost asked: set<BoolExpr>)
    requires |sizes| == |strides| >= 2 && d < |sizes|
    ensures forall env :: g.Consistent(asked, env) ==>
              (ok <==> && sizes[d].Eval(env) != 0
                       && strides[d].Eval(env) >= min.Eval(env)
                       && (d == 0 ==> min.Eval(env) != strides[1].Eval(env)))
    ensures forall env :: g.Consistent(asked, env) && ok ==>
              min'.Eval(env) == Span(EvalAll(sizes, env), EvalAll(strides, env), d)
  {
    var empty, tooSmall := sizes[d].SymEq(Plain(0)), strides[d].SymLt(min);
    var ambiguous, big := min.SymEq(strides[1]), sizes[d].SymGt(Plain(1));
    min' := min;
    if g.GuardBool(empty) {
      return false, min', g.Asks(empty);
    }
    if g.GuardBool(tooSmall) {
      return false, min', g.Asks(tooSmall);
    }
    if d == 0 && g.GuardBool(ambiguous) {
      return false, min', g.Asks(ambiguous);
    }
    min' := strides[d];
    if g.GuardBool(big) {
      min' := min'.Mul(sizes[d]);
    }
    ok := true;
    asked := g.Asks(empty) + g.Asks(tooSmall) + g.Asks(big) + (if d == 0 then g.Asks(ambiguous) else {});
    forall env | g.Consistent(asked, env)
      ensures g.Consistent(g.Asks(empty), env) && g.Consistent(g.Asks(tooSmall), env) && g.Consistent(g.Asks(big), env)
      ensures d == 0 ==> g.Consistent(g.Asks(ambiguous), env)
    {
    }
  }

  lemma LooksStep(sizes: seq<int>, strides: seq<int>, order: seq<int>, k: nat, min: int, ok: bool, min': int)
    requires |sizes| == |strides| && IsOrder(order, |sizes|) && |order| >= 2 && k < |order|
    requires order[0] == 1 && order[|order| - 1] == 0 && forall j :: 0 <= j < |order| - 1 ==> order[j] != 0
    requires LooksUpTo(sizes, strides, order, k, min)
    requires var d := order[k];
             ok <==> sizes[d] != 0 && strides[d] >= min && (d == 0 ==> min != strides[1])
    requires ok ==> min' == Span(sizes, strides, order[k])
    ensures if ok then LooksUpTo(sizes, strides, order, k + 1, min') else !LooksChannelsLast(sizes, strides, order)
  {
  }

  // Dimension 1 is fastest, dimension 0 slowest.
  method LooksChannelsLastGuarded(g: Guards, sizes: seq<SymInt>, strides: seq<SymInt>, order: seq<int>)
    returns (r: bool, ghost asked: set<BoolExpr>)
    requires |sizes| == |strides| && IsOrder(order, |sizes|) && |order| >= 2
    requires order[0] == 1 && order[|order| - 1] == 0 && forall k :: 0 <= k < |order| - 1 ==> order[k] != 0
    ensures forall env :: g.Consistent(asked, env) ==>
              (r <==> LooksChannelsLast(EvalAll(sizes, env), EvalAll(strides, env), order))
    ensures forall env :: g.AnswersBy(env) ==>
              (r <==> LooksChannelsLast(EvalAll(sizes, env), EvalAll(strides, env), order))
  {
    var min := Plain(0);
    var noStride := strides[1].SymEq(Plain(0));
    asked := g.Asks(noStride);
    if g.GuardBool(noStride) {
      return false, asked;
    }
    for k := 0 to |order|
      invariant forall env :: g.Consistent(asked, env) ==>
                  LooksUpTo(EvalAll(sizes, env), EvalAll(strides, env), order, k, min.Eval(env))
    {
      ghost var before := asked;
      var ok, min', more := CheckDimension(g, sizes, strides, order[k], min);
      asked := before + more;
      forall env | g.Consistent(asked, env)
        ensures var s, t := EvalAll(sizes, env), EvalAll(strides, env);
                if ok then LooksUpTo(s, t, order, k + 1, min'.Eval(env)) else !LooksChannelsLast(s, t, order)
      {
        assert g.Consistent(before, env) && g.Consistent(more, env);
        LooksStep(EvalAll(sizes, env), EvalAll(strides, env), order, k, min.Eval(env), ok, min'.Eval(env));
      }
      if !ok {
        return false, asked;
      }
      min := min';
    }
    return true, asked;
  }

  method IsChannelsLastStrides2dGuarded(g: Guards, sizes: seq<SymInt>, strides: seq<SymInt>)
    returns (r: bool, ghost asked: set<BoolExpr>)
    requires |sizes| == |strides|
    ensures forall env :: g.Consistent(asked, env) ==>
              (r <==> IsChannelsLastStrides2d(EvalAll(sizes, env), EvalAll(strides, env)))
    ensures forall env :: g.AnswersBy(env) ==>
              (r <==> IsChannelsLastStrides2d(EvalAll(sizes, env), EvalAll(strides, env)))
  {
    if |sizes| != 4 {
      return false, {};
    }
    r, asked := LooksChannelsLastGuarded(g, sizes, strides, CHANNELS_LAST_2D);
  }

  method IsChannelsLastStrides3dGuarded(g: Guards, sizes: seq<SymInt>, strides: seq<SymInt>)
    returns (r: bool, ghost asked: set<BoolExpr>)
    requires |sizes| == |strides|
    ensures forall env :: g.Consistent(asked, env) ==>
              (r <==> IsChannelsLastStrides3d(EvalAll(sizes, env), EvalAll(strides, env)))
    ensures forall env :: g.AnswersBy(env) ==>
              (r <==> IsChannelsLastStrides3d(EvalAll(sizes, env), EvalAll(strides, env)))
  {
    if |sizes| != 5 {
      return false, {};
    }
    r, asked := LooksChannelsLastGuarded(g, sizes, strides, CHANNELS_LAST_3D);
  }

  // ----- writing and recognising agree exactly on non-degenerate shapes -----

  lemma WrittenStridesAreDense(sizes: seq<int>, strides: seq<int>, order: seq<int>)
    requires |sizes| == |strides| && IsOrder(order, |sizes|) && StridesInOrder(sizes, strides, order)
    ensures DenseInOrder(sizes, strides, order)
  {
  }

  // With written strides the span of a dimension is the stride of the next one.
  lemma WrittenSpan(sizes: seq<int>, strides: seq<int>, order: seq<int>, k: nat)
    requires |sizes| == |strides| && IsOrder(order, |sizes|) && StridesInOrder(sizes, strides, order)
    requires k < |order| && sizes[order[k]] >= 1
    ensures Span(sizes, strides, order[k]) == Product(Gather(sizes, order)[..k + 1])
  {
    var a, d := Gather(sizes, order), order[k];
    ExtendProduct(a, k, strides[d], sizes[d]);
  }

  // Without empty dimensions only the ambiguous case is refused: one element per slowest index.
  lemma WrittenStridesLookNonEmpty(sizes: seq<int>, strides: seq<int>, order: seq<int>)
    requires |sizes| == |strides| && IsOrder(order, |sizes|) && |order| >= 3
    requires Positive(sizes) && StridesInOrder(sizes, strides, order)
    ensures LooksChannelsLast(sizes, strides, order) <==> Product(Gather(sizes, order)[..|order| - 1]) > 1
  {
    var a, n := Gather(sizes, order), |order|;
    assert a[..0] == [];
    forall k | 0 <= k < n ensures Span(sizes, strides, order[k]) == Product(a[..k + 1]) {
      WrittenSpan(sizes, strides, order, k);
    }
    assert n - 2 + 1 == n - 1;
    ProductPositive(a[..n - 1]);
    assert strides[order[0]] == Product(a[..0]) == 1;
  }

  lemma EmptyNeverLooks(sizes: seq<int>, strides: seq<int>, order: seq<int>)
    requires |sizes| == |strides| && IsOrder(order, |sizes|) && |order| >= 2 && IsPermutation(order, |sizes|)
    requires exists d :: 0 <= d < |sizes| && sizes[d] == 0
    ensures !LooksChannelsLast(sizes, strides, order)
  {
    PermutationFacts(order, |sizes|);
    var d :| 0 <= d < |sizes| && sizes[d] == 0;
    assert sizes[order[Position(order, d)]] == 0;
  }

  // The test accepts written strides exactly when no dimension is empty and the
  // dimensions other than the slowest hold more than one element.
  lemma WrittenStridesLook(sizes: seq<int>, strides: seq<int>, order: seq<int>)
    requires |sizes| == |strides| && IsOrder(order, |sizes|) && |order| >= 3
    requires forall k :: 0 <= k < |sizes| ==> sizes[k] >= 0
    requires IsPermutation(order, |sizes|) && StridesInOrder(sizes, strides, order)
    ensures LooksChannelsLast(sizes, strides, order) <==>
            Positive(sizes) && Product(Gather(sizes, order)[..|order| - 1]) > 1
  {
    if Positive(sizes) {
      WrittenStridesLookNonEmpty(sizes, strides, order);
    } else {
      EmptyNeverLooks(sizes, strides, order);
    }
  }
}
