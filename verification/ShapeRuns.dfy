// Runs of the lazy shape cache with interleaved initialisers. An initialiser is a job that
// reads the flags it depends on one at a time, whenever they are published, takes its
// short circuit or computes the rest, and publishes later; other threads publish in between.
// Copies may be taken at any moment; sizes and strides change only while no job is in
// flight, as they are no const operations.
module ShapeRuns {
  import opened Symbolic
  import opened ShapeFlags
  import opened ShapeMeta
  import opened TensorShape

  // ----- the machine -----

  // An initialiser first asks a guard about each input, then reads the inputs again for its
  // expression; a finished one holds the value it is about to publish.
  datatype Job = Working(f: Flag, guarded: nat, got: seq<SymBool>) | Ready(f: Flag, v: SymBool)

  // One metadata object and the initialisers in flight on it.
  datatype Obj = Obj(meta: Published, assumed: set<Flag>, asked: set<BoolExpr>, jobs: seq<Job>) {
    function Rank(): (r: nat) {
      |meta.shape.sizes|
    }

    function WithJob(k: nat, job: Job): (r: Obj)
      requires k < |jobs|
    {
      this.(jobs := jobs[k := job])
    }
  }

  type World = seq<Obj>

  datatype Step =
    | Begin(f: Flag)
    | Read(k: nat)
    | Leaf(k: nat, leaf: SymBool, more: set<BoolExpr>)
    | Commit(k: nat)
    | CommitNumel(n: SymInt)
    | Copy
    | SetShape(shape: Shape)
    | Restride(strides: seq<SymInt>, format: Format)

  // The input job k reads next. An accessor that finds the flag missing first runs the flag's
  // own initialiser, which is another job; so the read happens once the flag is published.
  predicate CanRead(o: Obj, k: nat) {
    && k < |o.jobs| && o.jobs[k].Working?
    && NextInput(o, k) < |Inputs(o.jobs[k].f, o.Rank())|
    && Inputs(o.jobs[k].f, o.Rank())[NextInput(o, k)] in o.meta.flags
  }

  function NextInput(o: Obj, k: nat): (i: nat)
    requires k < |o.jobs| && o.jobs[k].Working?
  {
    var n := |Inputs(o.jobs[k].f, o.Rank())|;
    if o.jobs[k].guarded < n then o.jobs[k].guarded else |o.jobs[k].got|
  }

  // All inputs are read. The contiguity test also reads numel.
  predicate CanCompute(o: Obj, k: nat) {
    && k < |o.jobs| && o.jobs[k].Working?
    && NextInput(o, k) >= |Inputs(o.jobs[k].f, o.Rank())|
    && (o.jobs[k].f == ContiguousFlag && o.meta.shape.stridesValid ==> o.meta.numel.Some?)
  }

  ghost predicate Enabled(g: Guards, o: Obj, step: Step)
    requires o.meta.shape.WellFormed()
  {
    match step
    case Begin(f) => true
    case Read(k) => CanRead(o, k)
    case Leaf(k, leaf, more) => CanCompute(o, k) && LeafRight(g, o.asked + more, o.meta.shape, o.jobs[k].f, leaf)
    case Commit(k) => k < |o.jobs| && o.jobs[k].Ready?
    case CommitNumel(n) => NumelRight(g, o.meta.shape, n)
    case Copy => true
    case SetShape(shape) => o.jobs == [] && shape.WellFormed() && NonNegative(g, shape)
    case Restride(strides, format) =>
      && o.jobs == [] && o.meta.shape.stridesValid && |strides| == |o.meta.shape.sizes|
      && forall env :: Written(format, EvalAll(o.meta.shape.sizes, env), EvalAll(strides, env))
  }

  // Reading an input: first for its guard, then for its value.
  function ReadInput(g: Guards, o: Obj, k: nat): (r: Obj)
    requires g.Sound() && CanRead(o, k)
  {
    var job := o.jobs[k];
    var inputs := Inputs(job.f, o.Rank());
    var v := o.meta.flags[inputs[NextInput(o, k)]];
    if job.guarded < |inputs| then
      o.WithJob(k, if g.GuardOrFalse(v) then Ready(job.f, ShortCut(job.f)) else job.(guarded := job.guarded + 1))
    else o.WithJob(k, job.(got := job.got + [v]))
  }

  // The object after a step on it.
  function NextObj(g: Guards, o: Obj, step: Step): (r: Obj)
    requires g.Sound() && o.meta.shape.WellFormed() && Enabled(g, o, step)
  {
    match step
    case Begin(f) => o.(jobs := o.jobs + [Working(f, 0, [])])
    case Read(k) => ReadInput(g, o, k)
    case Leaf(k, leaf, more) =>
      var job := o.jobs[k];
      o.WithJob(k, Ready(job.f, Combine(job.f, job.got, leaf))).(asked := o.asked + more)
    case Commit(k) =>
      o.(meta := o.meta.Publish(o.jobs[k].f, o.jobs[k].v), jobs := o.jobs[..k] + o.jobs[k + 1..])
    case CommitNumel(n) => o.(meta := o.meta.PublishNumel(n))
    case Copy => o
    case SetShape(shape) => o.(meta := o.meta.Refreshed(shape), assumed := {})
    case Restride(strides, format) =>
      o.(meta := o.meta.Restrided(strides, format),
         assumed := AssumedFlags(format) * {ChannelsLastFlag, ChannelsLast3dFlag})
  }

  // A copy takes over what is published, and none of the jobs.
  function CopyOf(o: Obj): (r: Obj) {
    o.(jobs := [])
  }

  function Next(g: Guards, w: World, i: nat, step: Step): (r: World)
    requires g.Sound() && i < |w| && w[i].meta.shape.WellFormed() && Enabled(g, w[i], step)
  {
    if step.Copy? then w + [CopyOf(w[i])] else w[i := NextObj(g, w[i], step)]
  }

  // ----- the invariant -----

  ghost predicate JobRight(g: Guards, o: Obj, job: Job)
    requires o.meta.shape.WellFormed()
  {
    match job
    case Working(f, guarded, got) =>
      && ReadsRight(g, o.asked, o.meta.shape, f, got)
      && guarded <= |Inputs(f, o.Rank())| && (guarded < |Inputs(f, o.Rank())| ==> got == [])
    case Ready(f, v) => Right(g, o.asked, o.meta.shape, f, v)
  }

  ghost predicate ObjInv(g: Guards, o: Obj) {
    Coherent(g, o.asked, o.assumed, o.meta) && forall k :: 0 <= k < |o.jobs| ==> JobRight(g, o, o.jobs[k])
  }

  ghost predicate Inv(g: Guards, w: World) {
    g.Sound() && forall i :: 0 <= i < |w| ==> ObjInv(g, w[i])
  }

  // No initialiser reads a flag that may have been assumed, so what it reads is right.
  lemma InputIsRight(g: Guards, o: Obj, f: Flag, i: nat)
    requires ObjInv(g, o) && i < |Inputs(f, o.Rank())| && Inputs(f, o.Rank())[i] in o.meta.flags
    ensures Right(g, o.asked, o.meta.shape, Inputs(f, o.Rank())[i], o.meta.flags[Inputs(f, o.Rank())[i]])
  {
    assert !MayBeAssumed(Inputs(f, o.Rank())[i], o.Rank());
  }

  lemma ReadKeepsInv(g: Guards, o: Obj, k: nat)
    requires g.Sound() && ObjInv(g, o) && CanRead(o, k)
    ensures ObjInv(g, ReadInput(g, o, k))
  {
    var job := o.jobs[k];
    var inputs := Inputs(job.f, o.Rank());
    assert JobRight(g, o, job);
    InputIsRight(g, o, job.f, NextInput(o, k));
    var v := o.meta.flags[inputs[NextInput(o, k)]];
    if g.GuardOrFalse(v) {
      ShortCutRight(g, o.asked, o.meta.shape, job.f, NextInput(o, k), v);
    }
    var o' := ReadInput(g, o, k);
    forall j | 0 <= j < |o'.jobs| ensures JobRight(g, o', o'.jobs[j]) {
      assert JobRight(g, o, o.jobs[j]);
    }
  }

  // More guards asked only narrow the valuations down.
  lemma AskingKeepsInv(g: Guards, o: Obj, more: set<BoolExpr>)
    requires ObjInv(g, o)
    ensures ObjInv(g, o.(asked := o.asked + more))
  {
    var o' := o.(asked := o.asked + more);
    forall env | Live(g, o'.asked, env) ensures Live(g, o.asked, env) {
    }
    forall j | 0 <= j < |o.jobs| ensures JobRight(g, o', o.jobs[j]) {
      assert JobRight(g, o, o.jobs[j]);
      match o.jobs[j]
      case Working(f, _, got) => RightReadsLater(g, o.asked, o'.asked, o.meta.shape, f, got);
      case Ready(f, v) => RightLater(g, o.asked, o'.asked, o.meta.shape, f, v);
    }
  }

  lemma LeafKeepsInv(g: Guards, o: Obj, k: nat, leaf: SymBool, more: set<BoolExpr>)
    requires g.Sound() && ObjInv(g, o) && Enabled(g, o, Leaf(k, leaf, more))
    ensures ObjInv(g, NextObj(g, o, Leaf(k, leaf, more)))
  {
    var o1, o' := o.(asked := o.asked + more), NextObj(g, o, Leaf(k, leaf, more));
    AskingKeepsInv(g, o, more);
    assert JobRight(g, o1, o1.jobs[k]);
    CombineRight(g, o1.asked, o.meta.shape, o.jobs[k].f, o.jobs[k].got, leaf);
    forall j | 0 <= j < |o'.jobs| ensures JobRight(g, o', o'.jobs[j]) {
      assert JobRight(g, o1, o1.jobs[j]);
    }
  }

  lemma CommitKeepsInv(g: Guards, o: Obj, k: nat)
    requires g.Sound() && ObjInv(g, o) && Enabled(g, o, Commit(k))
    ensures ObjInv(g, NextObj(g, o, Commit(k)))
  {
    var o' := NextObj(g, o, Commit(k));
    assert JobRight(g, o, o.jobs[k]);
    forall j | 0 <= j < |o'.jobs| ensures JobRight(g, o', o'.jobs[j]) {
      assert JobRight(g, o, o.jobs[if j < k then j else j + 1]);
    }
  }

  lemma ObjStepKeepsInv(g: Guards, o: Obj, step: Step)
    requires g.Sound() && ObjInv(g, o) && Enabled(g, o, step)
    ensures ObjInv(g, NextObj(g, o, step))
  {
    match step
    case Begin(f) =>
      forall j | 0 <= j < |o.jobs| ensures JobRight(g, NextObj(g, o, step), o.jobs[j]) {
        assert JobRight(g, o, o.jobs[j]);
      }
    case Read(k) => ReadKeepsInv(g, o, k);
    case Leaf(k, leaf, more) => LeafKeepsInv(g, o, k, leaf, more);
    case Commit(k) => CommitKeepsInv(g, o, k);
    case CommitNumel(n) =>
      forall j | 0 <= j < |o.jobs| ensures JobRight(g, NextObj(g, o, step), o.jobs[j]) {
        assert JobRight(g, o, o.jobs[j]);
      }
    case Copy =>
    case SetShape(shape) =>
    case Restride(strides, format) => RestridedCoherent(g, o.asked, o.meta, strides, format);
  }

  lemma StepKeepsInv(g: Guards, w: World, i: nat, step: Step)
    requires Inv(g, w) && i < |w| && Enabled(g, w[i], step)
    ensures Inv(g, Next(g, w, i, step))
  {
    ObjStepKeepsInv(g, w[i], step);
  }

  // ----- runs -----

  datatype Event = Event(i: nat, step: Step)

  ghost predicate IsStep(g: Guards, w: World, e: Event, w': World) {
    && g.Sound() && e.i < |w| && w[e.i].meta.shape.WellFormed() && Enabled(g, w[e.i], e.step)
    && w' == Next(g, w, e.i, e.step)
  }

  ghost predicate IsRun(g: Guards, ws: seq<World>, events: seq<Event>) {
    |ws| == |events| + 1 && forall k :: 0 <= k < |events| ==> IsStep(g, ws[k], events[k], ws[k + 1])
  }

  // In every state of every run each published flag of each object is its defining computation on
  // the object's sizes and strides (assumed is_channels_last flags: on non-degenerate shapes).
  lemma {:induction false} RunKeepsInv(g: Guards, ws: seq<World>, events: seq<Event>, k: nat)
    requires IsRun(g, ws, events) && Inv(g, ws[0]) && k < |ws|
    ensures Inv(g, ws[k])
  {
    if k > 0 {
      RunKeepsInv(g, ws, events, k - 1);
      assert IsStep(g, ws[k - 1], events[k - 1], ws[k]);
      StepKeepsInv(g, ws[k - 1], events[k - 1].i, events[k - 1].step);
    }
  }

  predicate Refreshes(e: Event, i: nat) {
    e.i == i && (e.step.SetShape? || e.step.Restride?)
  }

  // Everything published in o is published in o', on the same shape.
  ghost predicate Extends(o: Published, o': Published) {
    && o'.shape == o.shape
    && (o.numel.Some? ==> o'.numel == o.numel)
    && forall f :: f in o.flags ==> f in o'.flags && o'.flags[f] == o.flags[f]
  }

  // Between two refreshes of an object its published fields never change, whatever is computed,
  // committed or copied.
  lemma {:induction false} PublishedIsStable(g: Guards, ws: seq<World>, events: seq<Event>, i: nat, j: nat, k: nat)
    requires IsRun(g, ws, events) && j <= k < |ws| && i < |ws[j]|
    requires forall n :: j <= n < k ==> !Refreshes(events[n], i)
    ensures i < |ws[k]| && Extends(ws[j][i].meta, ws[k][i].meta)
    decreases k
  {
    if j < k {
      PublishedIsStable(g, ws, events, i, j, k - 1);
      assert IsStep(g, ws[k - 1], events[k - 1], ws[k]);
    }
  }

  // ----- a single object -----

  ghost predicate IsObjStep(g: Guards, o: Obj, step: Step, o': Obj) {
    g.Sound() && o.meta.shape.WellFormed() && Enabled(g, o, step) && o' == NextObj(g, o, step)
  }

  ghost predicate IsObjRun(g: Guards, os: seq<Obj>, steps: seq<Step>) {
    |os| == |steps| + 1 && forall k :: 0 <= k < |steps| ==> IsObjStep(g, os[k], steps[k], os[k + 1])
  }

  // ----- no initialisers wait for each other in a circle -----

  predicate CanMove(o: Obj, k: nat) {
    k < |o.jobs| && (o.jobs[k].Ready? || CanRead(o, k) || CanCompute(o, k))
  }

  // Job k waits for flag h.
  predicate WaitsFor(o: Obj, k: nat, h: Flag) {
    && k < |o.jobs| && o.jobs[k].Working?
    && NextInput(o, k) < |Inputs(o.jobs[k].f, o.Rank())|
    && Inputs(o.jobs[k].f, o.Rank())[NextInput(o, k)] == h
    && h !in o.meta.flags
  }

  predicate InFlight(o: Obj, h: Flag) {
    exists j :: 0 <= j < |o.jobs| && o.jobs[j].f == h
  }

  // An accessor that finds its flag missing has the flag's initialiser running, and numel is there.
  ghost predicate AccessorsInitialise(o: Obj) {
    o.meta.numel.Some? && forall k: nat, h :: WaitsFor(o, k, h) ==> InFlight(o, h)
  }

  // Whichever initialiser one looks at, it or one it waits for can go on: inputs have lower level.
  lemma {:induction false} SomeJobCanMove(o: Obj, k: nat) returns (m: nat)
    requires AccessorsInitialise(o) && k < |o.jobs|
    ensures CanMove(o, m) && Level(o.jobs[m].f) <= Level(o.jobs[k].f)
    decreases Level(o.jobs[k].f)
  {
    m := k;
    if !CanMove(o, k) {
      var h := Inputs(o.jobs[k].f, o.Rank())[NextInput(o, k)];
      assert WaitsFor(o, k, h);
      var j :| 0 <= j < |o.jobs| && o.jobs[j].f == h;
      m := SomeJobCanMove(o, j);
    }
  }
}
