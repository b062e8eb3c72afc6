// The derived layout flags of a tensor and what each of them means.
module ShapeFlags {
  import opened Permutations
  import opened MixedRadix
  import opened Contiguity
  import opened Symbolic
  import opened MemoryFormat

  datatype Flag =
    | ContiguousFlag
    | ChannelsLastContiguousFlag
    | ChannelsLast3dContiguousFlag
    | ChannelsLastFlag
    | ChannelsLast3dFlag
    | DenseFlag

  datatype Shape = Shape(sizes: seq<SymInt>, strides: seq<SymInt>, stridesValid: bool) {
    predicate WellFormed() {
      stridesValid ==> |sizes| == |strides|
    }
  }

  // The defining computation of a flag on concrete sizes s and strides t.
  ghost predicate Meaning(f: Flag, s: seq<int>, t: seq<int>)
    requires |s| == |t|
  {
    match f
    case ContiguousFlag => IsContiguous(s, t, Product(s))
    case ChannelsLastContiguousFlag => IsChannelsLastContiguous2d(s, t)
    case ChannelsLast3dContiguousFlag => IsChannelsLastContiguous3d(s, t)
    case ChannelsLastFlag => IsChannelsLastStrides2d(s, t)
    case ChannelsLast3dFlag => IsChannelsLastStrides3d(s, t)
    case DenseFlag =>
      || IsContiguous(s, t, Product(s))
      || IsChannelsLastContiguous2d(s, t)
      || IsChannelsLastContiguous3d(s, t)
      || IsNonOverlappingAndDense(s, t)
  }

  ghost predicate MeansIn(shape: Shape, f: Flag, v: SymBool, env: Valuation)
    requires shape.WellFormed()
  {
    v.Eval(env) <==> shape.stridesValid && Meaning(f, EvalAll(shape.sizes, env), EvalAll(shape.strides, env))
  }

  ghost predicate Live(g: Guards, asked: set<BoolExpr>, env: Valuation) {
    g.allowed(env) && g.Consistent(asked, env)
  }

  // v is the value of flag f under every valuation the guards still admit.
  ghost predicate Right(g: Guards, asked: set<BoolExpr>, shape: Shape, f: Flag, v: SymBool)
    requires shape.WellFormed()
  {
    forall env :: Live(g, asked, env) ==> MeansIn(shape, f, v, env)
  }

  ghost predicate NumelRight(g: Guards, shape: Shape, n: SymInt) {
    forall env :: g.allowed(env) ==> n.Eval(env) == Product(EvalAll(shape.sizes, env))
  }

  ghost predicate NonNegative(g: Guards, shape: Shape) {
    forall env :: g.allowed(env) ==> forall k :: 0 <= k < |shape.sizes| ==> EvalAll(shape.sizes, env)[k] >= 0
  }

  // ----- what an initialiser does with the flags it reads -----

  // The flags that the initialiser of f reads, in order.
  function Inputs(f: Flag, rank: nat): (flags: seq<Flag>) {
    match f
    case ContiguousFlag => []
    case ChannelsLastContiguousFlag => []
    case ChannelsLast3dContiguousFlag => if rank == 5 then [ChannelsLastContiguousFlag] else []
    case ChannelsLastFlag => if rank == 5 then [ChannelsLast3dContiguousFlag] else []
    case ChannelsLast3dFlag => if rank == 5 then [ChannelsLastFlag] else []
    case DenseFlag =>
      if rank == 5 then [ContiguousFlag, ChannelsLastContiguousFlag, ChannelsLast3dContiguousFlag]
      else if rank == 4 then [ContiguousFlag, ChannelsLastContiguousFlag]
      else [ContiguousFlag]
  }

  // The answer when an input is known to hold.
  function ShortCut(f: Flag): (v: SymBool) {
    Decided(f == DenseFlag)
  }

  function OrAll(got: seq<SymBool>): (v: SymBool)
    requires got != []
  {
    var n := |got| - 1;
    if n == 0 then got[0] else OrAll(got[..n]).SymOr(got[n])
  }

  // The expression over the values read and the initialiser's own computation.
  function Combine(f: Flag, got: seq<SymBool>, leaf: SymBool): (v: SymBool) {
    if got == [] then leaf
    else if f == DenseFlag then OrAll(got).SymOr(leaf)
    else got[0].SymNot().SymAnd(leaf)
  }

  // ----- the short-circuiting density flag against the plain density test -----

  lemma GlueOnNonEmpty(s: seq<int>, t: seq<int>)
    requires |s| == |t| && Positive(s)
    ensures Meaning(DenseFlag, s, t) <==> IsNonOverlappingAndDense(s, t)
  {
    if IsContiguous(s, t, Product(s)) {
      ContiguousImpliesDense(s, t);
    }
    if IsChannelsLastContiguous2d(s, t) || IsChannelsLastContiguous3d(s, t) {
      ChannelsLastImpliesDense(s, t);
    }
  }

  lemma {:induction false} EmptyProduct(s: seq<int>, k: nat)
    requires k < |s| && s[k] == 0
    ensures Product(s) == 0
  {
    var n := |s| - 1;
    if k < n {
      EmptyProduct(s[..n], k);
    }
  }

  lemma AllSmallIsDense(s: seq<int>, t: seq<int>)
    requires |s| == |t| && forall k :: 0 <= k < |s| ==> s[k] < 2
    ensures IsNonOverlappingAndDense(s, t)
  {
    DenseIsBijective(AtLeastOne(s), t);
  }

  lemma BroadcastIsNotDense(s: seq<int>, j: nat)
    requires j < |s| && s[j] >= 2
    ensures !IsNonOverlappingAndDense(s, Zeros(|s|))
  {
    var n := |s|;
    var unit := Zeros(n)[j := 1];
    OffsetOfUnit(n, j, Zeros(n));
    OffsetPadded(Zeros(n), Zeros(n), 0);
    assert InBox(unit, AtLeastOne(s)) && InBox(Zeros(n), AtLeastOne(s));
    assert unit[j] == 1 && Zeros(n)[j] == 0;
  }

  // For which sizes do the short circuits never change the answer of the density test?
  // Exactly when no dimension is empty, or no dimension is larger than 1.
  lemma GlueExactly(s: seq<int>)
    requires forall k :: 0 <= k < |s| ==> s[k] >= 0
    ensures (forall t :: |t| == |s| ==> (Meaning(DenseFlag, s, t) <==> IsNonOverlappingAndDense(s, t))) <==>
            (Positive(s) || forall k :: 0 <= k < |s| ==> s[k] < 2)
  {
    if Positive(s) {
      forall t | |t| == |s| ensures Meaning(DenseFlag, s, t) <==> IsNonOverlappingAndDense(s, t) {
        GlueOnNonEmpty(s, t);
      }
    } else if forall k :: 0 <= k < |s| ==> s[k] < 2 {
      forall t | |t| == |s| ensures Meaning(DenseFlag, s, t) && IsNonOverlappingAndDense(s, t) {
        AllSmallIsDense(s, t);
      }
    } else {
      var k :| 0 <= k < |s| && s[k] < 1;
      EmptyProduct(s, k);
      var j :| 0 <= j < |s| && s[j] >= 2;
      BroadcastIsNotDense(s, j);
      assert Meaning(DenseFlag, s, Zeros(|s|));
    }
  }

  // ----- strides written for a memory format -----

  datatype Format = ContiguousFormat | ChannelsLastFormat | ChannelsLast3dFormat | Preserve

  // Row-major strides that treat empty dimensions as size 1.
  ghost predicate WrittenRowMajor(s: seq<int>, t: seq<int>)
    requires |s| == |t|
  {
    StridesInOrder(AtLeastOne(s), t, RowMajor(|s|))
  }

  ghost predicate Written(format: Format, s: seq<int>, t: seq<int>)
    requires |s| == |t|
  {
    match format
    case ContiguousFormat => WrittenRowMajor(s, t)
    case ChannelsLastFormat => |s| == 4 && StridesInOrder(s, t, CHANNELS_LAST_2D)
    case ChannelsLast3dFormat => |s| == 5 && StridesInOrder(s, t, CHANNELS_LAST_3D)
    case Preserve => false
  }

  // The flags that restriding sets to true without computing them.
  function AssumedFlags(format: Format): (flags: set<Flag>) {
    match format
    case ContiguousFormat => {ContiguousFlag, DenseFlag}
    case ChannelsLastFormat => {ChannelsLastContiguousFlag, ChannelsLastFlag, DenseFlag}
    case ChannelsLast3dFormat => {ChannelsLast3dContiguousFlag, ChannelsLast3dFlag, DenseFlag}
    case Preserve => {}
  }

  // No empty dimension and more than one element per batch entry.
  ghost predicate NonDegenerate(s: seq<int>) {
    |s| > 0 && Positive(s) && Product(s[1..]) > 1
  }

  lemma WrittenRowMajorIsContiguous(s: seq<int>, t: seq<int>)
    requires |s| == |t| && WrittenRowMajor(s, t)
    requires forall k :: 0 <= k < |s| ==> s[k] >= 0
    ensures IsContiguous(s, t, Product(s))
  {
    if Product(s) != 0 {
      forall k | 0 <= k < |s| ensures s[k] >= 1 {
        if s[k] == 0 {
          EmptyProduct(s, k);
        }
      }
      assert AtLeastOne(s) == s;
      WrittenStridesAreDense(s, t, RowMajor(|s|));
    }
  }

  // Each contiguity and density flag that restriding assumes is what would be computed.
  lemma AssumedContiguityIsRight(format: Format, f: Flag, s: seq<int>, t: seq<int>)
    requires |s| == |t| && Written(format, s, t)
    requires forall k :: 0 <= k < |s| ==> s[k] >= 0
    requires f in AssumedFlags(format) && f != ChannelsLastFlag && f != ChannelsLast3dFlag
    ensures Meaning(f, s, t)
  {
    match format
    case ContiguousFormat => WrittenRowMajorIsContiguous(s, t);
    case ChannelsLastFormat => WrittenStridesAreDense(s, t, CHANNELS_LAST_2D);
    case ChannelsLast3dFormat => WrittenStridesAreDense(s, t, CHANNELS_LAST_3D);
  }

  // An order that ends in dimension 0 lists the others in front of it.
  lemma OthersFirst(order: seq<int>, n: nat)
    requires IsPermutation(order, n + 1) && |order| == n + 1 && order[n] == 0
    ensures multiset(order[..n]) == multiset(Range(n + 1)[1..])
  {
    MultisetWithout(order, n);
    MultisetWithout(Range(n + 1), 0);
    assert order[..n] == Without(order, n) && Range(n + 1)[1..] == Without(Range(n + 1), 0);
  }

  // All dimensions but the slowest, in any order, hold the elements of one batch entry.
  lemma NonBatchProduct(s: seq<int>, order: seq<int>, n: nat)
    requires |s| == n + 1 && IsOrder(order, n + 1) && IsPermutation(order, n + 1) && order[n] == 0
    ensures Product(Gather(s, order)[..n]) == Product(s[1..])
  {
    var p, q := order[..n], Range(n + 1)[1..];
    OthersFirst(order, n);
    GatherReorder(s, p, q);
    assert Gather(s, order)[..n] == Gather(s, p);
    assert Gather(s, q) == s[1..];
    SumProductReorder(Gather(s, p), Gather(s, q));
  }

  // The assumed is_channels_last flags agree with the stride test exactly on
  // non-degenerate shapes.
  lemma AssumedChannelsLastExactly(s: seq<int>, t: seq<int>)
    requires |s| == |t| && forall k :: 0 <= k < |s| ==> s[k] >= 0
    requires Written(ChannelsLastFormat, s, t)
    ensures Meaning(ChannelsLastFlag, s, t) <==> NonDegenerate(s)
  {
    ChannelsLast2dIsPermutation();
    WrittenStridesLook(s, t, CHANNELS_LAST_2D);
    NonBatchProduct(s, CHANNELS_LAST_2D, 3);
  }

  lemma AssumedChannelsLast3dExactly(s: seq<int>, t: seq<int>)
    requires |s| == |t| && forall k :: 0 <= k < |s| ==> s[k] >= 0
    requires Written(ChannelsLast3dFormat, s, t)
    ensures Meaning(ChannelsLast3dFlag, s, t) <==> NonDegenerate(s)
  {
    ChannelsLast3dIsPermutation();
    WrittenStridesLook(s, t, CHANNELS_LAST_3D);
    NonBatchProduct(s, CHANNELS_LAST_3D, 4);
  }

  // ----- which flags restriding assumes -----

  // The flag holds on every non-degenerate shape with strides written for the format.
  ghost predicate AlwaysMeant(format: Format, f: Flag) {
    forall s, t :: |s| == |t| && NonDegenerate(s) && Written(format, s, t) ==> Meaning(f, s, t)
  }

  lemma AssumedAreMeant(format: Format, f: Flag)
    requires f in AssumedFlags(format)
    ensures AlwaysMeant(format, f)
  {
    forall s, t | |s| == |t| && NonDegenerate(s) && Written(format, s, t) ensures Meaning(f, s, t) {
      if f == ChannelsLastFlag {
        AssumedChannelsLastExactly(s, t);
      } else if f == ChannelsLast3dFlag {
        AssumedChannelsLast3dExactly(s, t);
      } else {
        AssumedContiguityIsRight(format, f, s, t);
      }
    }
  }

  lemma IsNonDegenerate(s: seq<int>)
    requires |s| >= 2 && Positive(s) && s[1] >= 2
    ensures NonDegenerate(s)
  {
    PrefixProductSmaller(s[1..], 0);
  }

  lemma NotContiguous(s: seq<int>, t: seq<int>, n: nat)
    requires |s| == |t| == n + 2 && Positive(s) && s[n + 1] == 1 && s[n] != 1 && t[n] != 1
    ensures !IsContiguous(s, t, Product(s))
  {
    ProductPositive(s);
    var a, b := Gather(s, RowMajor(n + 2)), Gather(t, RowMajor(n + 2));
    assert a[1] == s[n] && b[1] == t[n] && a[0] == 1;
    assert a[..1][..0] == [] && Product(a[..1]) == a[0];
  }

  // For each format a shape on which none of the other flags holds.
  lemma OthersFailContiguous(f: Flag)
    requires f !in AssumedFlags(ContiguousFormat)
    ensures !AlwaysMeant(ContiguousFormat, f)
  {
    var s, t := [1, 2], [2, 1];
    var a := Gather(s, RowMajor(2));
    assert AtLeastOne(s) == s && a == [2, 1];
    assert a[..1][..0] == [] && Product(a[..0]) == 1 && Product(a[..1]) == 2;
    IsNonDegenerate(s);
    assert Written(ContiguousFormat, s, t);
    assert !Meaning(f, s, t);
  }

  lemma OthersFailChannelsLast(f: Flag)
    requires f !in AssumedFlags(ChannelsLastFormat)
    ensures !AlwaysMeant(ChannelsLastFormat, f)
  {
    var s, t := [1, 2, 2, 1], [4, 1, 2, 2];
    var a := Gather(s, CHANNELS_LAST_2D);
    assert a == [2, 1, 2, 1];
    Products(a);
    assert Written(ChannelsLastFormat, s, t);
    IsNonDegenerate(s);
    NotContiguous(s, t, 2);
    assert !Meaning(f, s, t);
  }

  lemma OthersFailChannelsLast3d(f: Flag)
    requires f !in AssumedFlags(ChannelsLast3dFormat)
    ensures !AlwaysMeant(ChannelsLast3dFormat, f)
  {
    var s, t := [1, 2, 1, 2, 1], [4, 1, 4, 2, 2];
    var a := Gather(s, CHANNELS_LAST_3D);
    assert a == [2, 1, 2, 1, 1];
    Products(a);
    assert Written(ChannelsLast3dFormat, s, t);
    IsNonDegenerate(s);
    NotContiguous(s, t, 3);
    assert !Meaning(f, s, t);
  }

  // Restriding assumes exactly the flags that hold whenever the shape is not degenerate.
  lemma AssumedExactlyTheMeant(format: Format, f: Flag)
    requires format != Preserve
    ensures f in AssumedFlags(format) <==> AlwaysMeant(format, f)
  {
    if f in AssumedFlags(format) {
      AssumedAreMeant(format, f);
    } else {
      match format
      case ContiguousFormat => OthersFailContiguous(f);
      case ChannelsLastFormat => OthersFailChannelsLast(f);
      case ChannelsLast3dFormat => OthersFailChannelsLast3d(f);
    }
  }
}
