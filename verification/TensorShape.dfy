// The parts of c10/core/TensorImpl.cpp that change a symbolic shape: setting
// sizes and strides, and rewriting the strides for a memory format.
module TensorShape {
  import opened Permutations
  import opened Contiguity
  import opened Symbolic
  import opened SymContiguity
  import opened Wrappers
  import opened MemoryFormat
  import opened ShapeFlags
  import opened ShapeMeta

  datatype Status = Ok | WrongRank | UnsupportedFormat | ChangeNotAllowed

  // The loop for the contiguous format: last stride 1, then each stride from the one after it.
  method RowMajorStrides(sizes: seq<SymInt>) returns (strides: seq<SymInt>)
    ensures |strides| == |sizes|
    ensures forall env :: WrittenRowMajor(EvalAll(sizes, env), EvalAll(strides, env))
    ensures WrittenAsProducts(sizes, strides)
  {
    var dim := |sizes|;
    strides := seq(dim, _ => Plain(0));
    if dim > 0 {
      strides := strides[dim - 1 := Plain(1)];
      var i := dim - 2;
      while i >= 0
        invariant -1 <= i < dim - 1 && |strides| == dim
        invariant forall env :: WrittenFrom(EvalAll(sizes, env), EvalAll(strides, env), i + 1)
        invariant strides[dim - 1] == Plain(1)
        invariant forall j :: i < j < dim - 1 ==> strides[j] == strides[j + 1].Mul(sizes[j + 1].AtLeast(Plain(1)))
      {
        var strides' := strides[i := strides[i + 1].Mul(sizes[i + 1].AtLeast(Plain(1)))];
        ghost var from := i;
        forall env ensures WrittenFrom(EvalAll(sizes, env), EvalAll(strides', env), from) {
          assert WrittenFrom(EvalAll(sizes, env), EvalAll(strides, env), i + 1);
          WriteOne(EvalAll(sizes, env), EvalAll(strides, env), EvalAll(strides', env), i);
        }
        strides := strides';
        i := i - 1;
      }
    }
    forall env ensures WrittenRowMajor(EvalAll(sizes, env), EvalAll(strides, env)) {
      assert WrittenFrom(EvalAll(sizes, env), EvalAll(strides, env), 0);
    }
  }

  // The strides of dimensions from..|s|-1 are written.
  ghost predicate WrittenFrom(s: seq<int>, t: seq<int>, from: nat)
    requires |s| == |t| && from <= |s|
  {
    var order := RowMajor(|s|);
    forall k :: 0 <= k < |s| - from ==> t[order[k]] == Product(Gather(AtLeastOne(s), order)[..k])
  }

  lemma WriteOne(s: seq<int>, t: seq<int>, t': seq<int>, i: nat)
    requires |s| == |t| == |t'| && i + 1 < |s| && WrittenFrom(s, t, i + 1)
    requires t' == t[i := t[i + 1] * AtLeastOne(s)[i + 1]]
    ensures WrittenFrom(s, t', i)
  {
    var order := RowMajor(|s|);
    var a, k := Gather(AtLeastOne(s), order), |s| - 2 - i;
    assert order[k] == i + 1 && order[k + 1] == i;
    ExtendProduct(a, k, t[i + 1], AtLeastOne(s)[i + 1]);
    forall j | 0 <= j < |s| - i ensures t'[order[j]] == Product(a[..j]) {
      if j <= k {
        assert t'[order[j]] == t[order[j]];
      } else {
        assert j == k + 1;
      }
    }
  }

  // Every assumed flag is right exactly when the tensor has strides at all and, for the
  // is_channels_last flags, the shape is not degenerate.
  lemma AssumedFlagsExactly(format: Format, f: Flag, shape: Shape, env: Valuation)
    requires |shape.sizes| == |shape.strides| && f in AssumedFlags(format)
    requires Written(format, EvalAll(shape.sizes, env), EvalAll(shape.strides, env))
    requires forall k :: 0 <= k < |shape.sizes| ==> EvalAll(shape.sizes, env)[k] >= 0
    ensures MeansIn(shape, f, Decided(true), env) <==>
            && shape.stridesValid
            && (f in {ChannelsLastFlag, ChannelsLast3dFlag} ==> NonDegenerate(EvalAll(shape.sizes, env)))
  {
    var s, t := EvalAll(shape.sizes, env), EvalAll(shape.strides, env);
    if f == ChannelsLastFlag {
      AssumedChannelsLastExactly(s, t);
    } else if f == ChannelsLast3dFlag {
      AssumedChannelsLast3dExactly(s, t);
    } else {
      AssumedContiguityIsRight(format, f, s, t);
    }
  }

  // A restrided shape with valid strides keeps the cache coherent.
  lemma RestridedCoherent(g: Guards, asked: set<BoolExpr>, p: Published, strides': seq<SymInt>, format: Format)
    requires p.shape.WellFormed() && p.shape.stridesValid && NonNegative(g, p.shape)
    requires p.numel.Some? ==> NumelRight(g, p.shape, p.numel.value)
    requires |strides'| == |p.shape.sizes|
    requires forall env :: Written(format, EvalAll(p.shape.sizes, env), EvalAll(strides', env))
    ensures Coherent(g, asked, AssumedFlags(format) * {ChannelsLastFlag, ChannelsLast3dFlag}, p.Restrided(strides', format))
  {
    var q := p.Restrided(strides', format);
    forall f, env | f in AssumedFlags(format) && Live(g, asked, env)
      ensures MeansIn(q.shape, f, Decided(true), env) <==>
              (f in {ChannelsLastFlag, ChannelsLast3dFlag} ==> NonDegenerate(EvalAll(q.shape.sizes, env)))
    {
      assert q.shape.sizes == p.shape.sizes;
      AssumedFlagsExactly(format, f, q.shape, env);
    }
    var env0: Valuation := _ => 0;
    assert Written(format, EvalAll(p.shape.sizes, env0), EvalAll(strides', env0));
  }

  // Exactly these flags are available, and all of them are true.
  ghost predicate KnownTrue(meta: SymbolicShapeMeta, flags: set<Flag>)
    reads meta
  {
    meta.available == flags && forall f :: f in flags ==> f in meta.cache && meta.cache[f] == Decided(true)
  }

  // The channels-last formats have a fixed rank each.
  function FormatStatus(format: Format, rank: nat): (r: Status) {
    match format
    case ContiguousFormat => Ok
    case ChannelsLastFormat => if rank == 4 then Ok else WrongRank
    case ChannelsLast3dFormat => if rank == 5 then Ok else WrongRank
    case Preserve => UnsupportedFormat
  }

  // empty_tensor_restride_symint.
  method EmptyTensorRestride(meta: SymbolicShapeMeta, format: Format) returns (r: Status)
    requires meta.Valid()
    modifies meta
    ensures r == FormatStatus(format, |old(meta.sizes)|)
    ensures meta.available <= meta.cache.Keys
    ensures meta.asked == old(meta.asked)
    ensures r != Ok ==> meta.Valid() && meta.Abs() == old(meta.Abs()) && meta.assumed == old(meta.assumed)
    ensures r == Ok ==> meta.assumed == AssumedFlags(format) * {ChannelsLastFlag, ChannelsLast3dFlag}
    ensures r == Ok ==> |meta.strides| == |meta.sizes| && meta.Abs() == old(meta.Abs()).Restrided(meta.strides, format)
    ensures r == Ok ==> forall env :: Written(format, EvalAll(meta.sizes, env), EvalAll(meta.strides, env))
    ensures r == Ok && format == ContiguousFormat ==>
              WrittenAsProducts(meta.sizes, meta.strides) && KnownTrue(meta, {ContiguousFlag, DenseFlag})
    ensures r == Ok && format == ChannelsLastFormat ==>
              KnownTrue(meta, {ChannelsLastContiguousFlag, ChannelsLastFlag, DenseFlag})
    ensures r == Ok && format == ChannelsLast3dFormat ==>
              KnownTrue(meta, {ChannelsLast3dContiguousFlag, ChannelsLast3dFlag, DenseFlag})
    ensures meta.sizes == old(meta.sizes) && meta.Abs().numel == old(meta.Abs()).numel
    ensures r == Ok && meta.stridesValid ==> meta.Valid()
  {
    var strides;
    match format {
      case ContiguousFormat =>
        strides := RowMajorStrides(meta.sizes);
      case ChannelsLastFormat =>
        if |meta.sizes| != 4 {
          return WrongRank;
        }
        var s := GetChannelsLastStrides2d(meta.sizes);
        strides := s.value;
      case ChannelsLast3dFormat =>
        if |meta.sizes| != 5 {
          return WrongRank;
        }
        var s := GetChannelsLastStrides3d(meta.sizes);
        strides := s.value;
      case Preserve =>
        return UnsupportedFormat;
    }
    assert forall env :: Written(format, EvalAll(meta.sizes, env), EvalAll(strides, env));
    if meta.stridesValid {
      RestridedCoherent(meta.guards, meta.asked, meta.Abs(), strides, format);
    }
    Overwrite(meta, strides, format);
    r := Ok;
  }

  // The flags known to hold for a format.
  method AssumeAll(meta: SymbolicShapeMeta, format: Format)
    requires meta.available == {}
    modifies meta`cache, meta`available
    ensures meta.available == AssumedFlags(format)
    ensures forall f :: f in AssumedFlags(format) ==> f in meta.cache && meta.cache[f] == Decided(true)
  {
    match format {
      case ContiguousFormat =>
        meta.Assume(ContiguousFlag);
        meta.Assume(DenseFlag);
      case ChannelsLastFormat =>
        meta.Assume(ChannelsLastContiguousFlag);
        meta.Assume(ChannelsLastFlag);
        meta.Assume(DenseFlag);
      case ChannelsLast3dFormat =>
        meta.Assume(ChannelsLast3dContiguousFlag);
        meta.Assume(ChannelsLast3dFlag);
        meta.Assume(DenseFlag);
      case Preserve =>
    }
  }

  // The new strides, a refresh, and the flags known to hold.
  method Overwrite(meta: SymbolicShapeMeta, strides: seq<SymInt>, format: Format)
    requires meta.Valid() && |strides| == |meta.sizes|
    modifies meta
    ensures meta.available <= meta.cache.Keys && meta.strides == strides
    ensures meta.stridesValid == old(meta.stridesValid) && meta.asked == old(meta.asked)
    ensures meta.assumed == AssumedFlags(format) * {ChannelsLastFlag, ChannelsLast3dFlag}
    ensures meta.Abs() == old(meta.Abs()).Restrided(strides, format)
    ensures KnownTrue(meta, AssumedFlags(format))
  {
    meta.RefreshContiguous();
    meta.strides := strides;
    AssumeAll(meta, format);
    meta.assumed := AssumedFlags(format) * {ChannelsLastFlag, ChannelsLast3dFlag};
  }

  // set_sizes_and_strides on symbolic sizes.
  method SetSizesAndStrides(meta: SymbolicShapeMeta, sizes: seq<SymInt>, strides: seq<SymInt>, allowChange: bool)
    returns (r: Status)
    requires meta.Valid()
    requires Shape(sizes, strides, meta.stridesValid).WellFormed()
    requires NonNegative(meta.guards, Shape(sizes, strides, meta.stridesValid))
    modifies meta
    ensures meta.Valid() && meta.asked == old(meta.asked)
    ensures meta.assumed == if allowChange then {} else old(meta.assumed)
    ensures r == if allowChange then Ok else ChangeNotAllowed
    ensures meta.Abs() == if allowChange then old(meta.Abs()).Refreshed(Shape(sizes, strides, old(meta.stridesValid)))
                          else old(meta.Abs())
  {
    if !allowChange {
      return ChangeNotAllowed;
    }
    meta.RefreshNumel();
    meta.RefreshContiguous();
    meta.sizes, meta.strides := sizes, strides;
    r := Ok;
  }

  // generic_set_sizes_contiguous on symbolic sizes.
  method GenericSetSizesContiguous(meta: SymbolicShapeMeta, sizes: seq<SymInt>, allowChange: bool) returns (r: Status)
    requires meta.Valid()
    requires NonNegative(meta.guards, Shape(sizes, sizes, true))
    modifies meta
    ensures meta.stridesValid == old(meta.stridesValid) && (meta.stridesValid ==> meta.Valid())
    ensures r == if allowChange then Ok else ChangeNotAllowed
    ensures !allowChange ==> meta.Valid() && meta.Abs() == old(meta.Abs())
    ensures meta.available <= meta.cache.Keys
    ensures allowChange ==> meta.sizes == sizes && |meta.strides| == |sizes|
    ensures allowChange ==> meta.Abs() == Published(Shape(sizes, meta.strides, meta.stridesValid), None,
                                                    map[ContiguousFlag := Decided(true), DenseFlag := Decided(true)])
    ensures allowChange ==> forall env :: WrittenRowMajor(EvalAll(sizes, env), EvalAll(meta.strides, env))
  {
    if !allowChange {
      return ChangeNotAllowed;
    }
    meta.RefreshNumel();
    meta.RefreshContiguous();
    // The old strides are dropped here; restriding writes every one of them.
    meta.sizes, meta.strides := sizes, seq(|sizes|, _ => Plain(0));
    r := EmptyTensorRestride(meta, ContiguousFormat);
    assert forall env :: Written(ContiguousFormat, EvalAll(sizes, env), EvalAll(meta.strides, env)) ==>
        WrittenRowMajor(EvalAll(sizes, env), EvalAll(meta.strides, env));
  }
}
