// SymbolicShapeMeta (c10/core/SymbolicShapeMeta.h and .cpp): a lazy cache of
// numel and the layout flags, filled on first access.
module ShapeMeta {
  import opened Permutations
  import opened Contiguity
  import opened Symbolic
  import opened Wrappers
  import opened SymContiguity
  import opened SymDensity
  import opened MemoryFormat
  import opened ShapeFlags

  // How far a flag's initialiser may reach: it only asks for flags of lower level.
  function Level(f: Flag): (n: nat) {
    match f
    case ContiguousFlag => 0
    case ChannelsLastContiguousFlag => 0
    case ChannelsLast3dContiguousFlag => 1
    case ChannelsLastFlag => 2
    case ChannelsLast3dFlag => 3
    case DenseFlag => 2
  }

  // The published part of the metadata: exactly the fields whose available_ bit is set.
  datatype Published = Published(shape: Shape, numel: Option<SymInt>, flags: map<Flag, SymBool>) {

    // set_*: the first value published for a flag stays.
    function Publish(f: Flag, v: SymBool): (p: Published) {
      if f in flags then this else this.(flags := flags[f := v])
    }

    function PublishNumel(n: SymInt): (p: Published) {
      if numel.Some? then this else this.(numel := Some(n))
    }

    function Refreshed(shape': Shape): (p: Published) {
      Published(shape', None, map[])
    }

    // Strides rewritten for a format: numel survives, the assumed flags are true, the rest is unknown.
    function Restrided(strides': seq<SymInt>, format: Format): (p: Published) {
      Published(shape.(strides := strides'), numel, map f | f in AssumedFlags(format) :: Decided(true))
    }
  }

  // The channels-last flags that may have been assumed instead of computed for this rank.
  predicate MayBeAssumed(f: Flag, rank: nat) {
    (f == ChannelsLastFlag && rank == 4) || (f == ChannelsLast3dFlag && rank == 5)
  }

  // Flags that were assumed are right on non-degenerate shapes.
  ghost predicate AssumedRight(g: Guards, asked: set<BoolExpr>, shape: Shape, f: Flag, v: SymBool)
    requires shape.WellFormed()
  {
    forall env :: Live(g, asked, env) && NonDegenerate(EvalAll(shape.sizes, env)) ==> MeansIn(shape, f, v, env)
  }

  // Every published field equals its defining computation on the current sizes and strides.
  ghost predicate Coherent(g: Guards, asked: set<BoolExpr>, assumed: set<Flag>, p: Published) {
    && p.shape.WellFormed()
    && NonNegative(g, p.shape)
    && (p.numel.Some? ==> NumelRight(g, p.shape, p.numel.value))
    && (forall f :: f in p.flags && f !in assumed ==> Right(g, asked, p.shape, f, p.flags[f]))
    && (forall f :: f in assumed ==>
          f in p.flags && MayBeAssumed(f, |p.shape.sizes|) && AssumedRight(g, asked, p.shape, f, p.flags[f]))
  }

  // v answers the plain density test.
  ghost predicate AnswersDensity(v: SymBool, s: seq<SymInt>, t: seq<SymInt>, env: Valuation)
    requires |s| == |t|
  {
    v.Eval(env) <==> IsNonOverlappingAndDense(EvalAll(s, env), EvalAll(t, env))
  }

  ghost predicate DenseNodeSound(g: Guards, node: (seq<SymInt>, seq<SymInt>) -> SymBool) {
    forall s, t, env :: |s| == |t| && g.allowed(env) ==> AnswersDensity(node(s, t), s, t, env)
  }

  lemma RightLater(g: Guards, asked: set<BoolExpr>, later: set<BoolExpr>, shape: Shape, f: Flag, v: SymBool)
    requires shape.WellFormed() && asked <= later && Right(g, asked, shape, f, v)
    ensures Right(g, later, shape, f, v)
  {
    forall env | Live(g, later, env) ensures MeansIn(shape, f, v, env) {
      assert Live(g, asked, env);
    }
  }

  // A contiguity flag known to hold settles the density flag.
  lemma ShortCircuit(g: Guards, asked: set<BoolExpr>, shape: Shape, f: Flag, v: SymBool)
    requires shape.WellFormed() && Right(g, asked, shape, f, v)
    requires f in {ContiguousFlag, ChannelsLastContiguousFlag, ChannelsLast3dContiguousFlag}
    requires forall env :: g.allowed(env) ==> v.Eval(env)
    ensures Right(g, asked, shape, DenseFlag, Decided(true))
  {
    forall env | Live(g, asked, env) ensures MeansIn(shape, DenseFlag, Decided(true), env) {
      assert MeansIn(shape, f, v, env);
    }
  }

  lemma GlueRight(g: Guards, asked: set<BoolExpr>, shape: Shape, c: SymBool, cl: SymBool, c3: SymBool, d: SymBool)
    requires shape.WellFormed()
    requires Right(g, asked, shape, ContiguousFlag, c)
    requires Right(g, asked, shape, ChannelsLastContiguousFlag, cl)
    requires Right(g, asked, shape, ChannelsLast3dContiguousFlag, c3)
    requires forall env :: Live(g, asked, env) ==>
               if shape.stridesValid then AnswersDensity(d, shape.sizes, shape.strides, env) else !d.Eval(env)
    ensures forall r: SymBool :: (forall env :: r.Eval(env) <==> c.Eval(env) || cl.Eval(env) || c3.Eval(env) || d.Eval(env)) ==>
              Right(g, asked, shape, DenseFlag, r)
  {
    forall r: SymBool | forall env :: r.Eval(env) <==> c.Eval(env) || cl.Eval(env) || c3.Eval(env) || d.Eval(env)
      ensures Right(g, asked, shape, DenseFlag, r)
    {
      forall env | Live(g, asked, env) ensures MeansIn(shape, DenseFlag, r, env) {
        assert MeansIn(shape, ContiguousFlag, c, env) && MeansIn(shape, ChannelsLastContiguousFlag, cl, env);
        assert MeansIn(shape, ChannelsLast3dContiguousFlag, c3, env);
      }
    }
  }

  // On rank 5 a flag for the other channels-last variant rules this one out.
  predicate Excludes(f0: Flag, f: Flag) {
    || (f0 == ChannelsLastContiguousFlag && f == ChannelsLast3dContiguousFlag)
    || (f0 == ChannelsLast3dContiguousFlag && f == ChannelsLastFlag)
    || (f0 == ChannelsLastFlag && f == ChannelsLast3dFlag)
  }

  lemma ExcludedFlag(g: Guards, asked: set<BoolExpr>, shape: Shape, f0: Flag, v0: SymBool, f: Flag)
    requires shape.WellFormed() && |shape.sizes| == 5 && Excludes(f0, f) && Right(g, asked, shape, f0, v0)
    requires forall env :: g.allowed(env) ==> v0.Eval(env)
    ensures Right(g, asked, shape, f, Decided(false))
  {
    forall env | Live(g, asked, env) ensures MeansIn(shape, f, Decided(false), env) {
      assert MeansIn(shape, f0, v0, env);
    }
  }

  lemma AndNotExcluded(g: Guards, asked: set<BoolExpr>, shape: Shape, f0: Flag, v0: SymBool, f: Flag, v: SymBool, r: SymBool)
    requires shape.WellFormed() && |shape.sizes| == 5 && Excludes(f0, f)
    requires Right(g, asked, shape, f0, v0) && Right(g, asked, shape, f, v)
    requires forall env :: r.Eval(env) <==> !v0.Eval(env) && v.Eval(env)
    ensures Right(g, asked, shape, f, r)
  {
    forall env | Live(g, asked, env) ensures MeansIn(shape, f, r, env) {
      assert MeansIn(shape, f0, v0, env) && MeansIn(shape, f, v, env);
    }
  }

  // ----- the values an initialiser reads and computes -----

  // What the initialiser's own computation promises: the plain density test for the density
  // flag, the flag itself for all others.
  ghost predicate LeafRight(g: Guards, asked: set<BoolExpr>, shape: Shape, f: Flag, leaf: SymBool)
    requires shape.WellFormed()
  {
    if f == DenseFlag then
      forall env :: Live(g, asked, env) ==>
        if shape.stridesValid then AnswersDensity(leaf, shape.sizes, shape.strides, env) else !leaf.Eval(env)
    else Right(g, asked, shape, f, leaf)
  }

  // The values read so far are those of the initialiser's inputs.
  ghost predicate ReadsRight(g: Guards, asked: set<BoolExpr>, shape: Shape, f: Flag, got: seq<SymBool>)
    requires shape.WellFormed()
  {
    var inputs := Inputs(f, |shape.sizes|);
    |got| <= |inputs| && forall i :: 0 <= i < |got| ==> Right(g, asked, shape, inputs[i], got[i])
  }

  lemma ShortCutRight(g: Guards, asked: set<BoolExpr>, shape: Shape, f: Flag, i: nat, v: SymBool)
    requires g.Sound() && shape.WellFormed() && i < |Inputs(f, |shape.sizes|)|
    requires Right(g, asked, shape, Inputs(f, |shape.sizes|)[i], v) && g.GuardOrFalse(v)
    ensures Right(g, asked, shape, f, ShortCut(f))
  {
    var h := Inputs(f, |shape.sizes|)[i];
    if f == DenseFlag {
      ShortCircuit(g, asked, shape, h, v);
    } else {
      ExcludedFlag(g, asked, shape, h, v, f);
    }
  }

  lemma CombineRight(g: Guards, asked: set<BoolExpr>, shape: Shape, f: Flag, got: seq<SymBool>, leaf: SymBool)
    requires shape.WellFormed() && |got| == |Inputs(f, |shape.sizes|)|
    requires ReadsRight(g, asked, shape, f, got) && LeafRight(g, asked, shape, f, leaf)
    ensures Right(g, asked, shape, f, Combine(f, got, leaf))
  {
    var inputs, r := Inputs(f, |shape.sizes|), Combine(f, got, leaf);
    if f == DenseFlag {
      DenseRight(g, asked, shape, got, leaf);
    } else if inputs != [] {
      assert Right(g, asked, shape, inputs[0], got[0]);
      AndNotExcluded(g, asked, shape, inputs[0], got[0], f, leaf, r);
    }
  }

  // Contiguity flag number i; one that is not read belongs to another rank and is false.
  function Nth(got: seq<SymBool>, i: nat): (v: SymBool) {
    if i < |got| then got[i] else Decided(false)
  }

  lemma ContiguityReadsRight(g: Guards, asked: set<BoolExpr>, shape: Shape, got: seq<SymBool>)
    requires shape.WellFormed() && |got| == |Inputs(DenseFlag, |shape.sizes|)|
    requires ReadsRight(g, asked, shape, DenseFlag, got)
    ensures Right(g, asked, shape, ContiguousFlag, Nth(got, 0))
    ensures Right(g, asked, shape, ChannelsLastContiguousFlag, Nth(got, 1))
    ensures Right(g, asked, shape, ChannelsLast3dContiguousFlag, Nth(got, 2))
  {
    var inputs := Inputs(DenseFlag, |shape.sizes|);
    assert forall i :: 0 <= i < |got| ==> Right(g, asked, shape, inputs[i], got[i]);
  }

  lemma ThreeReads(g: Guards, asked: set<BoolExpr>, shape: Shape, c: SymBool, cl: SymBool, c3: SymBool)
    requires shape.WellFormed() && |shape.sizes| == 5
    requires Right(g, asked, shape, ContiguousFlag, c)
    requires Right(g, asked, shape, ChannelsLastContiguousFlag, cl)
    requires Right(g, asked, shape, ChannelsLast3dContiguousFlag, c3)
    ensures ReadsRight(g, asked, shape, DenseFlag, [c, cl, c3])
  {
  }

  lemma OrAllEval(got: seq<SymBool>)
    requires 1 <= |got| <= 3
    ensures forall env :: OrAll(got).Eval(env) <==> Nth(got, 0).Eval(env) || Nth(got, 1).Eval(env) || Nth(got, 2).Eval(env)
  {
    if |got| == 3 {
      assert got[..2][..1] == got[..1] && got[..2][1] == got[1];
    }
  }

  lemma DenseRight(g: Guards, asked: set<BoolExpr>, shape: Shape, got: seq<SymBool>, leaf: SymBool)
    requires shape.WellFormed() && |got| == |Inputs(DenseFlag, |shape.sizes|)|
    requires ReadsRight(g, asked, shape, DenseFlag, got) && LeafRight(g, asked, shape, DenseFlag, leaf)
    ensures Right(g, asked, shape, DenseFlag, Combine(DenseFlag, got, leaf))
  {
    ContiguityReadsRight(g, asked, shape, got);
    OrAllEval(got);
    GlueRight(g, asked, shape, Nth(got, 0), Nth(got, 1), Nth(got, 2), leaf);
  }

  lemma RightReadsLater(g: Guards, asked: set<BoolExpr>, later: set<BoolExpr>, shape: Shape, f: Flag, got: seq<SymBool>)
    requires shape.WellFormed() && asked <= later && ReadsRight(g, asked, shape, f, got)
    ensures ReadsRight(g, later, shape, f, got)
  {
    var inputs := Inputs(f, |shape.sizes|);
    forall i | 0 <= i < |got| ensures Right(g, later, shape, inputs[i], got[i]) {
      RightLater(g, asked, later, shape, inputs[i], got[i]);
    }
  }

  class SymbolicShapeMeta {
    const guards: Guards
    // What a symbolic node answers when it is asked for density.
    const denseNode: (seq<SymInt>, seq<SymInt>) -> SymBool

    var sizes: seq<SymInt>
    var strides: seq<SymInt>
    var stridesValid: bool

    var numelAvailable: bool
    var available: set<Flag>
    var numel: SymInt
    var cache: map<Flag, SymBool>

    // Every expression guard_bool has been asked, and the flags assumed since the last refresh.
    ghost var asked: set<BoolExpr>
    ghost var assumed: set<Flag>

    function CurrentShape(): (shape: Shape)
      reads this
    {
      Shape(sizes, strides, stridesValid)
    }

    function Abs(): (p: Published)
      requires available <= cache.Keys
      reads this
    {
      Published(CurrentShape(), if numelAvailable then Some(numel) else None, map f | f in available :: cache[f])
    }

    ghost predicate Valid()
      reads this
    {
      && guards.Sound()
      && DenseNodeSound(guards, denseNode)
      && available <= cache.Keys
      && Coherent(guards, asked, assumed, Abs())
    }

    // Accessors only fill in what was missing.
    twostate predicate OnlyFillsIn()
      reads this
    {
      && CurrentShape() == old(CurrentShape())
      && (old(numelAvailable) ==> numelAvailable && numel == old(numel))
      && old(available) <= available
      && old(asked) <= asked
      && assumed == old(assumed)
      && (forall f :: f in old(available) && f in old(cache) ==> f in cache && cache[f] == old(cache[f]))
    }

    // Flag number i of the list has been published with value number i.
    ghost predicate ArePublished(flags: seq<Flag>, values: seq<SymBool>)
      reads this
    {
      |flags| == |values| &&
      forall i :: 0 <= i < |flags| ==> flags[i] in available && flags[i] in cache && cache[flags[i]] == values[i]
    }

    // r is the short cut of flag f, or its expression over the flags it depends on, as published.
    ghost predicate FollowsGlue(f: Flag, r: SymBool)
      reads this
    {
      || r == ShortCut(f)
      || exists got, leaf :: ArePublished(Inputs(f, |sizes|), got) && r == Combine(f, got, leaf)
    }

    lemma FollowsBy(f: Flag, got: seq<SymBool>, leaf: SymBool, r: SymBool)
      requires ArePublished(Inputs(f, |sizes|), got) && r == Combine(f, got, leaf)
      ensures FollowsGlue(f, r)
    {
    }

    // The default metadata: one dimension of size 0, nothing available.
    constructor (g: Guards, node: (seq<SymInt>, seq<SymInt>) -> SymBool)
      requires g.Sound() && DenseNodeSound(g, node)
      ensures Valid() && Abs() == Published(Shape([Plain(0)], [Plain(1)], true), None, map[])
      ensures guards == g && denseNode == node
    {
      guards, denseNode := g, node;
      sizes, strides, stridesValid := [Plain(0)], [Plain(1)], true;
      numelAvailable, numel := false, Plain(1);
      available, cache := {}, map[];
      asked, assumed := {}, {};
    }

    constructor Copy(other: SymbolicShapeMeta)
      requires other.Valid()
      ensures Valid() && Abs() == other.Abs() && guards == other.guards
      ensures asked == other.asked && assumed == other.assumed
    {
      guards, denseNode := other.guards, other.denseNode;
      sizes, strides, stridesValid := other.sizes, other.strides, other.stridesValid;
      numelAvailable, numel := other.numelAvailable, other.numel;
      available, cache := other.available, other.cache;
      asked, assumed := other.asked, other.assumed;
    }

    method SetNumel(val: SymInt)
      requires Valid() && NumelRight(guards, CurrentShape(), val)
      modifies `numel, `numelAvailable
      ensures Valid() && OnlyFillsIn() && Abs() == old(Abs()).PublishNumel(val) && numelAvailable
    {
      if numelAvailable {
        return;
      }
      numel := val;
      numelAvailable := true;
    }

    method SetFlag(f: Flag, val: SymBool)
      requires Valid() && Right(guards, asked, CurrentShape(), f, val)
      modifies `cache, `available
      ensures Valid() && OnlyFillsIn() && Abs() == old(Abs()).Publish(f, val) && f in available
    {
      if f in available {
        return;
      }
      assert f !in assumed;
      cache := cache[f := val];
      available := available + {f};
      assert Abs() == old(Abs()).Publish(f, val);
    }

    method InitNumel()
      requires Valid()
      modifies `numel, `numelAvailable
      ensures Valid() && OnlyFillsIn() && numelAvailable
      ensures Abs().flags == old(Abs()).flags
    {
      var n := Plain(1);
      for k := 0 to |sizes|
        invariant Valid() && OnlyFillsIn()
        invariant forall env :: n.Eval(env) == Product(EvalAll(sizes, env)[..k])
      {
        var n' := n.Mul(sizes[k]);
        ghost var next := k + 1;
        forall env ensures n'.Eval(env) == Product(EvalAll(sizes, env)[..next]) {
          ExtendProduct(EvalAll(sizes, env), k, n.Eval(env), sizes[k].Eval(env));
        }
        n := n';
      }
      assert forall env :: EvalAll(sizes, env)[..|sizes|] == EvalAll(sizes, env);
      SetNumel(n);
    }

    method GetNumel() returns (n: SymInt)
      requires Valid()
      modifies `numel, `numelAvailable
      ensures Valid() && OnlyFillsIn() && numelAvailable && n == numel
      ensures Abs().flags == old(Abs()).flags
    {
      if !numelAvailable {
        InitNumel();
      }
      n := numel;
    }

    // Lazy accessor of a flag.
    method Get(f: Flag) returns (v: SymBool)
      requires Valid()
      modifies this
      ensures Valid() && OnlyFillsIn() && f in available && v == cache[f]
      ensures MayBeAssumed(f, |sizes|) || Right(guards, asked, CurrentShape(), f, v)
      decreases Level(f), 3
    {
      if f !in available {
        Init(f);
      }
      v := cache[f];
    }

    // Some initialisers run the one they depend on before they read its flag.
    method InitAndGet(f: Flag) returns (v: SymBool)
      requires Valid()
      modifies this
      ensures Valid() && OnlyFillsIn() && f in available && v == cache[f]
      ensures MayBeAssumed(f, |sizes|) || Right(guards, asked, CurrentShape(), f, v)
      decreases Level(f), 4
    {
      Init(f);
      v := Get(f);
    }

    // init_*: compute, then publish unless someone was faster.
    method Init(f: Flag)
      requires Valid()
      modifies this
      ensures Valid() && OnlyFillsIn() && f in available
      decreases Level(f), 2
    {
      var v := Decided(false);
      match f {
        case ContiguousFlag =>
          v := ComputeContiguous();
        case ChannelsLastContiguousFlag =>
          if |sizes| == 4 || |sizes| == 5 {
            v := ComputeChannelsLastContiguous2d();
          }
        case ChannelsLast3dContiguousFlag =>
          if |sizes| == 5 {
            v := ComputeChannelsLastContiguous3dDim5();
          }
        case ChannelsLastFlag =>
          if |sizes| == 5 {
            v := ComputeChannelsLast2dDim5();
          } else if |sizes| == 4 {
            v := ComputeStridesLikeChannelsLast2d();
          }
        case ChannelsLast3dFlag =>
          if |sizes| == 5 {
            v := ComputeChannelsLast3dDim5();
          }
        case DenseFlag =>
          match |sizes| {
            case 5 => v := ComputeIsNonOverlappingAndDenseDim5();
            case 4 => v := ComputeIsNonOverlappingAndDenseDim4();
            case _ => v := ComputeIsNonOverlappingAndDenseAnyDim();
          }
      }
      SetFlag(f, v);
    }

    method ComputeContiguous() returns (r: SymBool)
      requires Valid()
      modifies this
      ensures Valid() && OnlyFillsIn() && Right(guards, asked, CurrentShape(), ContiguousFlag, r)
      ensures old(numelAvailable) || !stridesValid ==> Abs() == old(Abs())
      ensures guards.AllHinted(sizes, strides) ==> r.Decided?
      ensures !guards.AllHinted(sizes, strides) ==> asked == old(asked)
      decreases 0, 1
    {
      if !stridesValid {
        return Decided(false);
      }
      var n := GetNumel();
      var result := ComputeContiguousSym(guards, sizes, strides, n);
      var m := result.MaybeAsBool();
      if m.Some? {
        return Decided(m.value);
      }
      if guards.AllHinted(sizes, strides) {
        var b, more := ComputeContiguousGuarded(guards, sizes, strides, n);
        Ask(more);
        return Decided(b);
      }
      return result;
    }

    // guard_bool answers become part of what a valuation must agree with.
    ghost method Ask(more: set<BoolExpr>)
      requires Valid()
      modifies `asked
      ensures Valid() && asked == old(asked) + more
      ensures forall env :: guards.Consistent(asked, env) ==>
                guards.Consistent(old(asked), env) && guards.Consistent(more, env)
    {
      asked := asked + more;
      assert forall env :: guards.Consistent(asked, env) ==>
          guards.Consistent(old(asked), env) && guards.Consistent(more, env);
    }

    method ComputeChannelsLastContiguous2d() returns (r: SymBool)
      requires Valid()
      modifies `asked
      ensures Valid() && OnlyFillsIn() && Right(guards, asked, CurrentShape(), ChannelsLastContiguousFlag, r)
      ensures guards.AllHinted(sizes, strides) ==> r.Decided?
      ensures !guards.AllHinted(sizes, strides) ==> asked == old(asked)
      decreases 0, 1
    {
      if !stridesValid {
        return Decided(false);
      }
      var result := ComputeChannelsLastContiguous2dSym(guards, sizes, strides);
      var m := result.MaybeAsBool();
      if m.Some? {
        return Decided(m.value);
      }
      if guards.AllHinted(sizes, strides) && |sizes| == 4 {
        var b, more := MatchesOrderGuarded(guards, sizes, strides, CHANNELS_LAST_2D, true);
        Ask(more);
        return Decided(b);
      }
      return result;
    }

    method ComputeChannelsLastContiguous3d() returns (r: SymBool)
      requires Valid()
      modifies `asked
      ensures Valid() && OnlyFillsIn() && Right(guards, asked, CurrentShape(), ChannelsLast3dContiguousFlag, r)
      ensures guards.AllHinted(sizes, strides) ==> r.Decided?
      ensures !guards.AllHinted(sizes, strides) ==> asked == old(asked)
      decreases 0, 1
    {
      if !stridesValid {
        return Decided(false);
      }
      var result := ComputeChannelsLastContiguous3dSym(guards, sizes, strides);
      var m := result.MaybeAsBool();
      if m.Some? {
        return Decided(m.value);
      }
      if guards.AllHinted(sizes, strides) && |sizes| == 5 {
        var b, more := MatchesOrderGuarded(guards, sizes, strides, CHANNELS_LAST_3D, true);
        Ask(more);
        return Decided(b);
      }
      return result;
    }

    method ComputeStridesLikeChannelsLast2d() returns (r: SymBool)
      requires Valid()
      modifies `asked
      ensures Valid() && OnlyFillsIn() && Right(guards, asked, CurrentShape(), ChannelsLastFlag, r)
      decreases 0, 1
    {
      if !stridesValid {
        return Decided(false);
      }
      var b, more := IsChannelsLastStrides2dGuarded(guards, sizes, strides);
      Ask(more);
      r := Decided(b);
    }

    method ComputeStridesLikeChannelsLast3d() returns (r: SymBool)
      requires Valid()
      modifies `asked
      ensures Valid() && OnlyFillsIn() && Right(guards, asked, CurrentShape(), ChannelsLast3dFlag, r)
      decreases 0, 1
    {
      if !stridesValid {
        return Decided(false);
      }
      var b, more := IsChannelsLastStrides3dGuarded(guards, sizes, strides);
      Ask(more);
      r := Decided(b);
    }

    // The plain density test, by a symbolic node when some size or stride has no hint.
    method ComputeNonOverlappingAndDense() returns (r: SymBool)
      requires Valid()
      modifies `asked
      ensures Valid() && OnlyFillsIn()
      ensures forall env :: Live(guards, asked, env) ==>
                if stridesValid then AnswersDensity(r, sizes, strides, env) else !r.Eval(env)
      ensures guards.AllHinted(sizes, strides) ==> r.Decided?
      ensures !guards.AllHinted(sizes, strides) ==> asked == old(asked)
      decreases 0, 1
    {
      if !stridesValid {
        return Decided(false);
      }
      if !guards.AllHinted(sizes, strides) {
        return denseNode(sizes, strides);
      }
      var b, more := ComputeNonOverlappingAndDenseGuarded(guards, sizes, strides);
      Ask(more);
      r := Decided(b);
    }

    method ComputeChannelsLastContiguous3dDim5() returns (r: SymBool)
      requires Valid() && |sizes| == 5
      modifies this
      ensures Valid() && OnlyFillsIn() && Right(guards, asked, CurrentShape(), ChannelsLast3dContiguousFlag, r)
      ensures FollowsGlue(ChannelsLast3dContiguousFlag, r)
      decreases 1, 1
    {
      var cl := InitAndGet(ChannelsLastContiguousFlag);
      if guards.GuardOrFalse(cl) {
        ExcludedFlag(guards, asked, CurrentShape(), ChannelsLastContiguousFlag, cl, ChannelsLast3dContiguousFlag);
        return Decided(false);
      }
      ghost var asked0 := asked;
      var c3 := ComputeChannelsLastContiguous3d();
      r := cl.SymNot().SymAnd(c3);
      RightLater(guards, asked0, asked, CurrentShape(), ChannelsLastContiguousFlag, cl);
      AndNotExcluded(guards, asked, CurrentShape(), ChannelsLastContiguousFlag, cl, ChannelsLast3dContiguousFlag, c3, r);
      FollowsBy(ChannelsLast3dContiguousFlag, [cl], c3, r);
    }

    method ComputeChannelsLast2dDim5() returns (r: SymBool)
      requires Valid() && |sizes| == 5
      modifies this
      ensures Valid() && OnlyFillsIn() && Right(guards, asked, CurrentShape(), ChannelsLastFlag, r)
      ensures FollowsGlue(ChannelsLastFlag, r)
      decreases 2, 1
    {
      var c3 := InitAndGet(ChannelsLast3dContiguousFlag);
      if guards.GuardOrFalse(c3) {
        ExcludedFlag(guards, asked, CurrentShape(), ChannelsLast3dContiguousFlag, c3, ChannelsLastFlag);
        return Decided(false);
      }
      ghost var asked0 := asked;
      var like := ComputeStridesLikeChannelsLast2d();
      r := c3.SymNot().SymAnd(like);
      RightLater(guards, asked0, asked, CurrentShape(), ChannelsLast3dContiguousFlag, c3);
      AndNotExcluded(guards, asked, CurrentShape(), ChannelsLast3dContiguousFlag, c3, ChannelsLastFlag, like, r);
      FollowsBy(ChannelsLastFlag, [c3], like, r);
    }

    method ComputeChannelsLast3dDim5() returns (r: SymBool)
      requires Valid() && |sizes| == 5
      modifies this
      ensures Valid() && OnlyFillsIn() && Right(guards, asked, CurrentShape(), ChannelsLast3dFlag, r)
      ensures FollowsGlue(ChannelsLast3dFlag, r)
      decreases 3, 1
    {
      var cl := Get(ChannelsLastFlag);
      if guards.GuardOrFalse(cl) {
        ExcludedFlag(guards, asked, CurrentShape(), ChannelsLastFlag, cl, ChannelsLast3dFlag);
        return Decided(false);
      }
      ghost var asked0 := asked;
      var like := ComputeStridesLikeChannelsLast3d();
      r := cl.SymNot().SymAnd(like);
      RightLater(guards, asked0, asked, CurrentShape(), ChannelsLastFlag, cl);
      AndNotExcluded(guards, asked, CurrentShape(), ChannelsLastFlag, cl, ChannelsLast3dFlag, like, r);
      FollowsBy(ChannelsLast3dFlag, [cl], like, r);
    }

    // The disjunction of contiguity flags already read with the plain density test.
    method OrWithDensity(got: seq<SymBool>) returns (r: SymBool)
      requires Valid() && ArePublished(Inputs(DenseFlag, |sizes|), got)
      requires ReadsRight(guards, asked, CurrentShape(), DenseFlag, got)
      modifies `asked
      ensures Valid() && OnlyFillsIn() && Right(guards, asked, CurrentShape(), DenseFlag, r)
      ensures FollowsGlue(DenseFlag, r)
    {
      ghost var asked0 := asked;
      var d := ComputeNonOverlappingAndDense();
      r := OrAll(got).SymOr(d);
      RightReadsLater(guards, asked0, asked, CurrentShape(), DenseFlag, got);
      DenseRight(guards, asked, CurrentShape(), got, d);
      FollowsBy(DenseFlag, got, d, r);
    }

    method ComputeIsNonOverlappingAndDenseDim4() returns (r: SymBool)
      requires Valid() && |sizes| == 4
      modifies this
      ensures Valid() && OnlyFillsIn() && Right(guards, asked, CurrentShape(), DenseFlag, r)
      ensures FollowsGlue(DenseFlag, r)
      decreases 2, 1
    {
      var c := InitAndGet(ContiguousFlag);
      if guards.GuardOrFalse(c) {
        ShortCircuit(guards, asked, CurrentShape(), ContiguousFlag, c);
        return Decided(true);
      }
      ghost var asked0 := asked;
      var cl := InitAndGet(ChannelsLastContiguousFlag);
      if guards.GuardOrFalse(cl) {
        ShortCircuit(guards, asked, CurrentShape(), ChannelsLastContiguousFlag, cl);
        return Decided(true);
      }
      RightLater(guards, asked0, asked, CurrentShape(), ContiguousFlag, c);
      r := OrWithDensity([c, cl]);
    }

    method ComputeIsNonOverlappingAndDenseDim5() returns (r: SymBool)
      requires Valid() && |sizes| == 5
      modifies this
      ensures Valid() && OnlyFillsIn() && Right(guards, asked, CurrentShape(), DenseFlag, r)
      ensures FollowsGlue(DenseFlag, r)
      decreases 2, 1
    {
      var c := Get(ContiguousFlag);
      if guards.GuardOrFalse(c) {
        ShortCircuit(guards, asked, CurrentShape(), ContiguousFlag, c);
        return Decided(true);
      }
      ghost var asked0 := asked;
      var cl := Get(ChannelsLastContiguousFlag);
      if guards.GuardOrFalse(cl) {
        ShortCircuit(guards, asked, CurrentShape(), ChannelsLastContiguousFlag, cl);
        return Decided(true);
      }
      ghost var asked1 := asked;
      var c3 := Get(ChannelsLast3dContiguousFlag);
      if guards.GuardOrFalse(c3) {
        ShortCircuit(guards, asked, CurrentShape(), ChannelsLast3dContiguousFlag, c3);
        return Decided(true);
      }
      RightLater(guards, asked0, asked, CurrentShape(), ContiguousFlag, c);
      RightLater(guards, asked1, asked, CurrentShape(), ChannelsLastContiguousFlag, cl);
      ThreeReads(guards, asked, CurrentShape(), c, cl, c3);
      r := OrWithDensity([c, cl, c3]);
    }

    method ComputeIsNonOverlappingAndDenseAnyDim() returns (r: SymBool)
      requires Valid() && |sizes| != 4 && |sizes| != 5
      modifies this
      ensures Valid() && OnlyFillsIn() && Right(guards, asked, CurrentShape(), DenseFlag, r)
      ensures FollowsGlue(DenseFlag, r)
      decreases 2, 1
    {
      var c := Get(ContiguousFlag);
      if guards.GuardOrFalse(c) {
        ShortCircuit(guards, asked, CurrentShape(), ContiguousFlag, c);
        return Decided(true);
      }
      r := OrWithDensity([c]);
    }

    // ----- non-const operations -----

    method RefreshNumel()
      requires Valid()
      modifies this
      ensures Valid() && Abs() == old(Abs()).(numel := None)
      ensures asked == old(asked) && assumed == old(assumed)
    {
      numelAvailable := false;
      numel := Plain(1);
    }

    method RefreshContiguous()
      requires Valid()
      modifies this
      ensures Valid() && Abs() == old(Abs()).(flags := map[]) && assumed == {} && available == {}
      ensures asked == old(asked)
    {
      available := {};
      cache := map[
        ContiguousFlag := Decided(false),
        ChannelsLastContiguousFlag := Decided(false),
        ChannelsLast3dContiguousFlag := Decided(false),
        ChannelsLastFlag := Decided(false),
        ChannelsLast3dFlag := Decided(false),
        DenseFlag := Decided(false)];
      assumed := {};
    }

    // assume_*: overwrite the flag without computing it.
    method Assume(f: Flag)
      modifies `cache, `available
      ensures cache == old(cache)[f := Decided(true)] && available == old(available) + {f}
    {
      cache := cache[f := Decided(true)];
      available := available + {f};
    }
  }
}
