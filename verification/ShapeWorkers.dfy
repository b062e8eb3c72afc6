// Threads at work on a SymbolicShapeMeta object: every step a scheduler can let them take is
// carried out by the methods of the class and proved to be a step of ShapeRuns.
module ShapeWorkers {
  import opened Symbolic
  import opened Wrappers
  import opened ShapeFlags
  import opened ShapeMeta
  import opened TensorShape
  import opened ShapeRuns

  // The initialiser's own computation.
  method ComputeLeaf(meta: SymbolicShapeMeta, f: Flag) returns (leaf: SymBool)
    requires meta.Valid()
    requires f == ContiguousFlag && meta.stridesValid ==> meta.numelAvailable
    modifies meta
    ensures meta.Valid() && meta.OnlyFillsIn() && meta.Abs() == old(meta.Abs())
    ensures LeafRight(meta.guards, meta.asked, meta.CurrentShape(), f, leaf)
  {
    var rank := |meta.sizes|;
    leaf := Decided(false);
    match f {
      case ContiguousFlag =>
        leaf := meta.ComputeContiguous();
      case ChannelsLastContiguousFlag =>
        if rank == 4 || rank == 5 {
          leaf := meta.ComputeChannelsLastContiguous2d();
        }
      case ChannelsLast3dContiguousFlag =>
        if rank == 5 {
          leaf := meta.ComputeChannelsLastContiguous3d();
        }
      case ChannelsLastFlag =>
        if rank == 4 || rank == 5 {
          leaf := meta.ComputeStridesLikeChannelsLast2d();
        }
      case ChannelsLast3dFlag =>
        if rank == 5 {
          leaf := meta.ComputeStridesLikeChannelsLast3d();
        }
      case DenseFlag =>
        leaf := meta.ComputeNonOverlappingAndDense();
    }
  }

  // A metadata object and the initialisers its threads are running.
  class SharedMeta {
    const meta: SymbolicShapeMeta
    var jobs: seq<Job>

    ghost function Abs(): (o: Obj)
      requires meta.available <= meta.cache.Keys
      reads this, meta
    {
      Obj(meta.Abs(), meta.assumed, meta.asked, jobs)
    }

    ghost predicate Valid()
      reads this, meta
    {
      meta.Valid() && ObjInv(meta.guards, Abs())
    }

    constructor (m: SymbolicShapeMeta)
      requires m.Valid()
      ensures Valid() && meta == m && jobs == []
    {
      meta, jobs := m, [];
    }

    // An initialiser is called.
    method Start(f: Flag)
      requires Valid()
      modifies `jobs
      ensures Valid() && Abs() == NextObj(meta.guards, old(Abs()), Begin(f))
    {
      ObjStepKeepsInv(meta.guards, Abs(), Begin(f));
      jobs := jobs + [Working(f, 0, [])];
    }

    // Job k reads its next input.
    method ReadNext(k: nat)
      requires Valid() && CanRead(Abs(), k)
      modifies `jobs
      ensures Valid() && Abs() == NextObj(meta.guards, old(Abs()), Read(k))
    {
      ReadKeepsInv(meta.guards, Abs(), k);
      var job := jobs[k];
      var inputs := Inputs(job.f, |meta.sizes|);
      if job.guarded < |inputs| {
        var v := meta.cache[inputs[job.guarded]];
        job := if meta.guards.GuardOrFalse(v) then Ready(job.f, ShortCut(job.f)) else job.(guarded := job.guarded + 1);
      } else {
        job := job.(got := job.got + [meta.cache[inputs[|job.got|]]]);
      }
      jobs := jobs[k := job];
    }

    // Job k computes its own part and combines it with what it read.
    method Compute(k: nat) returns (leaf: SymBool)
      requires Valid() && CanCompute(Abs(), k)
      modifies this, meta
      ensures Valid() && Enabled(meta.guards, old(Abs()), Leaf(k, leaf, meta.asked))
      ensures Abs() == NextObj(meta.guards, old(Abs()), Leaf(k, leaf, meta.asked))
    {
      ghost var o := Abs();
      leaf := ComputeLeaf(meta, jobs[k].f);
      assert o.asked + meta.asked == meta.asked;
      LeafKeepsInv(meta.guards, o, k, leaf, meta.asked);
      jobs := jobs[k := Ready(jobs[k].f, Combine(jobs[k].f, jobs[k].got, leaf))];
    }

    // Job k publishes its value, unless another one was faster.
    method Publish(k: nat)
      requires Valid() && k < |jobs| && jobs[k].Ready?
      modifies this, meta
      ensures Valid() && Abs() == NextObj(meta.guards, old(Abs()), Commit(k))
    {
      ghost var o := Abs();
      CommitKeepsInv(meta.guards, o, k);
      assert JobRight(meta.guards, o, o.jobs[k]);
      meta.SetFlag(jobs[k].f, jobs[k].v);
      jobs := jobs[..k] + jobs[k + 1..];
    }

    // The numel accessor.
    method Numel() returns (n: SymInt)
      requires Valid()
      modifies this, meta
      ensures Valid() && Enabled(meta.guards, old(Abs()), CommitNumel(n))
      ensures Abs() == NextObj(meta.guards, old(Abs()), CommitNumel(n))
    {
      ghost var o := Abs();
      n := meta.GetNumel();
      assert NumelRight(meta.guards, meta.Abs().shape, meta.Abs().numel.value);
      ObjStepKeepsInv(meta.guards, o, CommitNumel(n));
      assert Abs() == NextObj(meta.guards, o, CommitNumel(n));
    }

    method Copy() returns (other: SharedMeta)
      requires Valid()
      ensures Valid() && other.Valid() && fresh(other) && fresh(other.meta) && other.meta.guards == meta.guards
      ensures other.Abs() == CopyOf(Abs())
    {
      var m := new SymbolicShapeMeta.Copy(meta);
      other := new SharedMeta(m);
    }

    // New sizes and strides, while no initialiser is in flight.
    method Resize(sizes: seq<SymInt>, strides: seq<SymInt>)
      requires Valid() && Enabled(meta.guards, Abs(), SetShape(Shape(sizes, strides, meta.stridesValid)))
      modifies this, meta
      ensures Valid()
      ensures Abs() == NextObj(meta.guards, old(Abs()), SetShape(Shape(sizes, strides, old(meta.stridesValid))))
    {
      var status := SetSizesAndStrides(meta, sizes, strides, true);
    }

    // Strides for a memory format, likewise; an error changes nothing.
    method Reformat(format: Format) returns (r: Status)
      requires Valid() && jobs == [] && meta.stridesValid
      modifies this, meta
      ensures Valid() && r == FormatStatus(format, |old(meta.sizes)|)
      ensures r != Ok ==> Abs() == old(Abs())
      ensures r == Ok ==> Enabled(meta.guards, old(Abs()), Restride(meta.strides, format))
      ensures r == Ok ==> Abs() == NextObj(meta.guards, old(Abs()), Restride(meta.strides, format))
    {
      r := EmptyTensorRestride(meta, format);
    }

    // Job k goes on as far as one step takes it. Without its input, or numel, it lets the
    // accessor's own initialiser go first.
    method Advance(k: nat) returns (ghost step: Option<Step>)
      requires Valid()
      modifies this, meta
      ensures Valid() && Took(meta.guards, old(Abs()), step, Abs())
      ensures Abs().meta.shape == old(Abs()).meta.shape
    {
      step := None;
      if k >= |jobs| {
        return;
      }
      if jobs[k].Ready? {
        Publish(k);
        step := Some(Commit(k));
        return;
      }
      var inputs, job := Inputs(jobs[k].f, |meta.sizes|), jobs[k];
      var next := if job.guarded < |inputs| then job.guarded else |job.got|;
      if next < |inputs| {
        if inputs[next] in meta.available {
          ReadNext(k);
          step := Some(Read(k));
        }
      } else if job.f == ContiguousFlag && meta.stridesValid && !meta.numelAvailable {
        var n := Numel();
        step := Some(CommitNumel(n));
      } else {
        var leaf := Compute(k);
        step := Some(Leaf(k, leaf, meta.asked));
      }
    }

    method Perform(move: Move) returns (ghost step: Option<Step>)
      requires Valid() && Acceptable(meta.guards, meta.stridesValid, move)
      modifies this, meta
      ensures Valid() && Took(meta.guards, old(Abs()), step, Abs()) && meta.stridesValid == old(meta.stridesValid)
    {
      step := None;
      ghost var valid := meta.stridesValid;
      match move {
        case Call(f) =>
          Start(f);
          step := Some(Begin(f));
        case Go(k) =>
          step := Advance(k);
        case NewShape(sizes, strides) =>
          if jobs == [] {
            Resize(sizes, strides);
            step := Some(SetShape(Shape(sizes, strides, valid)));
          }
        case NewFormat(format) =>
          if jobs == [] && meta.stridesValid {
            var r := Reformat(format);
            step := if r == Ok then Some(Restride(meta.strides, format)) else None;
          }
      }
    }

    // Whatever the scheduler does is a run of the machine, and leaves every published flag right.
    method Execute(moves: seq<Move>) returns (ghost os: seq<Obj>, ghost steps: seq<Step>)
      requires Valid() && forall m :: m in moves ==> Acceptable(meta.guards, meta.stridesValid, m)
      modifies this, meta
      ensures Valid() && IsObjRun(meta.guards, os, steps) && os[0] == old(Abs()) && os[|steps|] == Abs()
      ensures forall f :: f in meta.available ==>
                f in meta.cache &&
                if MayBeAssumed(f, |meta.sizes|)
                  then AssumedRight(meta.guards, meta.asked, meta.CurrentShape(), f, meta.cache[f])
                  else Right(meta.guards, meta.asked, meta.CurrentShape(), f, meta.cache[f])
    {
      os, steps := [Abs()], [];
      for n := 0 to |moves|
        invariant Valid() && meta.stridesValid == old(meta.stridesValid)
        invariant IsObjRun(meta.guards, os, steps) && os[0] == old(Abs()) && os[|steps|] == Abs()
      {
        ghost var step := Perform(moves[n]);
        if step.Some? {
          os, steps := os + [Abs()], steps + [step.value];
        }
      }
      assert forall f :: f in meta.available ==> f in meta.Abs().flags;
    }
  }

  datatype Move =
    | Call(f: Flag)
    | Go(k: nat)
    | NewShape(sizes: seq<SymInt>, strides: seq<SymInt>)
    | NewFormat(format: Format)

  // What the callers of the shape-changing operations guarantee.
  ghost predicate Acceptable(g: Guards, stridesValid: bool, move: Move) {
    move.NewShape? ==>
      var shape := Shape(move.sizes, move.strides, stridesValid);
      shape.WellFormed() && NonNegative(g, shape)
  }

  // One step of the machine, or none.
  ghost predicate Took(g: Guards, o: Obj, step: Option<Step>, o': Obj) {
    match step
    case None => o' == o
    case Some(s) => IsObjStep(g, o, s, o')
  }
}
