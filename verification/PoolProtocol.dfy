// The lock and condition-variable protocol of c10/core/thread_pool.cpp as
// steps between two lock acquisitions. Tasks are numbered in the order in
// which they are submitted.
module PoolProtocol {

  datatype Worker =
    | Starting            // has not taken the lock yet
    | Asleep              // blocked in condition_.wait
    | Woken               // notified or woken spuriously; will take the lock and look again
    | Running(task: nat)  // runs a task without the lock
    | Exited

  datatype Waiter =
    | Outside             // not in waitWorkComplete
    | Blocked             // blocked in completed_.wait
    | Notified            // will take the lock and look again

  datatype State = State(
    queue: seq<nat>,
    running: bool,
    complete: bool,
    available: int,
    total: nat,
    workers: seq<Worker>,
    waiters: seq<Waiter>,
    submitted: nat,
    started: nat,
    finished: seq<nat>)

  function Initial(total: nat, clients: nat): (s': State) {
    State([], true, true, total, total, seq(total, _ => Starting), seq(clients, _ => Outside), 0, 0, [])
  }

  // ----- the critical sections -----

  // notify_one on condition_: pick is a sleeping worker, if there is one.
  function WakeWorker(s: State, pick: nat): (s': State) {
    if pick < |s.workers| && s.workers[pick] == Asleep then s.(workers := s.workers[pick := Woken]) else s
  }

  // notify_one on completed_.
  function WakeWaiter(s: State, pick: nat): (s': State) {
    if pick < |s.waiters| && s.waiters[pick] == Blocked then s.(waiters := s.waiters[pick := Notified]) else s
  }

  // run and runTaskWithID.
  function Submit(s: State, pick: nat): (s': State) {
    WakeWorker(s.(queue := s.queue + [s.submitted], complete := false, submitted := s.submitted + 1), pick)
  }

  // A worker at the loop head or behind the wait, holding the lock.
  function Continue(s: State, i: nat): (s': State)
    requires i < |s.workers|
  {
    if !s.running then s.(workers := s.workers[i := Exited])
    else if s.queue == [] then s.(workers := s.workers[i := Asleep])
    else s.(queue := s.queue[1..], available := s.available - 1, started := s.started + 1,
            workers := s.workers[i := Running(s.queue[0])])
  }

  // A worker back from its task, holding the lock again.
  function Finish(s: State, i: nat, pick: nat): (s': State)
    requires i < |s.workers| && s.workers[i].Running?
  {
    var s' := s.(available := s.available + 1, finished := s.finished + [s.workers[i].task],
                 workers := s.workers[i := Woken]);
    if s'.queue == [] && s'.available == s'.total then WakeWaiter(s'.(complete := true), pick) else s'
  }

  predicate CanTurn(s: State, i: nat) {
    i < |s.workers| && s.workers[i] != Asleep && s.workers[i] != Exited
  }

  // What worker i does from taking the lock to giving it up again.
  function Turn(s: State, i: nat, pick: nat): (s': State)
    requires CanTurn(s, i)
  {
    if s.workers[i].Running? then Continue(Finish(s, i, pick), i) else Continue(s, i)
  }

  // The destructor clears running_ and wakes everyone.
  function Shutdown(s: State): (s': State) {
    s.(running := false,
       workers := seq(|s.workers|, i requires 0 <= i < |s.workers| => if s.workers[i] == Asleep then Woken else s.workers[i]))
  }

  // waitWorkComplete: return when complete_ holds, else block.
  function Wait(s: State, c: nat): (s': State)
    requires c < |s.waiters|
  {
    s.(waiters := s.waiters[c := if s.complete then Outside else Blocked])
  }

  datatype Step =
    | DoSubmit(pick: nat)
    | DoTurn(i: nat, pick: nat)
    | DoSpurious(i: nat)
    | DoShutdown
    | DoWait(c: nat)
    | DoSpuriousWaiter(c: nat)

  // A notification is not lost while somebody sleeps on the condition.
  predicate PickOk(s: State, pick: nat) {
    Asleep in s.workers ==> pick < |s.workers| && s.workers[pick] == Asleep
  }

  predicate WaiterPickOk(s: State, pick: nat) {
    Blocked in s.waiters ==> pick < |s.waiters| && s.waiters[pick] == Blocked
  }

  predicate Enabled(s: State, step: Step) {
    match step
    case DoSubmit(pick) => PickOk(s, pick)
    case DoTurn(i, pick) => CanTurn(s, i) && WaiterPickOk(s, pick)
    case DoSpurious(i) => i < |s.workers| && s.workers[i] == Asleep
    case DoShutdown => true
    case DoWait(c) => c < |s.waiters| && s.waiters[c] != Blocked
    case DoSpuriousWaiter(c) => c < |s.waiters| && s.waiters[c] == Blocked
  }

  function Next(s: State, step: Step): (s': State)
    requires Enabled(s, step)
  {
    match step
    case DoSubmit(pick) => Submit(s, pick)
    case DoTurn(i, pick) => Turn(s, i, pick)
    case DoSpurious(i) => s.(workers := s.workers[i := Woken])
    case DoShutdown => Shutdown(s)
    case DoWait(c) => Wait(s, c)
    case DoSpuriousWaiter(c) => s.(waiters := s.waiters[c := Notified])
  }

  ghost predicate IsRun(ss: seq<State>, steps: seq<Step>) {
    && |ss| == |steps| + 1
    && forall k :: 0 <= k < |steps| ==> Enabled(ss[k], steps[k]) && ss[k + 1] == Next(ss[k], steps[k])
  }

  // ----- accounting -----

  function Numbers(from: nat, to: nat): (r: seq<nat>)
    requires from <= to
  {
    seq(to - from, k requires 0 <= k < to - from => from + k)
  }

  // How many workers run a task.
  function Busy(workers: seq<Worker>): (n: nat) {
    if workers == [] then 0 else (if workers[0].Running? then 1 else 0) + Busy(workers[1..])
  }

  lemma {:induction false} BusyUpdate(workers: seq<Worker>, i: nat, w: Worker)
    requires i < |workers|
    ensures Busy(workers[i := w]) == Busy(workers) - (if workers[i].Running? then 1 else 0) + (if w.Running? then 1 else 0)
  {
    if i > 0 {
      BusyUpdate(workers[1..], i - 1, w);
      assert workers[i := w][1..] == workers[1..][i - 1 := w];
    } else {
      assert workers[0 := w][1..] == workers[1..];
    }
  }

  lemma {:induction false} BusyNone(workers: seq<Worker>)
    ensures Busy(workers) == 0 <==> forall i :: 0 <= i < |workers| ==> !workers[i].Running?
  {
    if workers != [] {
      BusyNone(workers[1..]);
      assert forall i :: 1 <= i < |workers| ==> workers[i] == workers[1..][i - 1];
    }
  }

  // How many workers are in state w.
  function InState(workers: seq<Worker>, w: Worker): (n: nat) {
    multiset(workers)[w]
  }

  lemma StateUpdate(workers: seq<Worker>, i: nat, w: Worker, x: Worker)
    requires i < |workers|
    ensures InState(workers[i := w], x) ==
            InState(workers, x) - (if workers[i] == x then 1 else 0) + (if w == x then 1 else 0)
  {
    assert workers == workers[..i] + [workers[i]] + workers[i + 1..];
    assert workers[i := w] == workers[..i] + [w] + workers[i + 1..];
  }

  // In how many places a started task is: being run, or finished.
  function Places(s: State, t: nat): (n: nat) {
    multiset(s.finished)[t] + InState(s.workers, Running(t))
  }

  // Every submitted task is queued, running or finished, in exactly one place and
  // exactly once; tasks start in the order of submission.
  ghost predicate Conserved(s: State) {
    && s.started <= s.submitted
    && s.queue == Numbers(s.started, s.submitted)
    && (forall t: nat :: Places(s, t) == if t < s.started then 1 else 0)
    && |s.workers| == s.total
    && s.available + Busy(s.workers) == s.total
  }

  // Every submitted task has finished, and only once.
  ghost predicate AllFinishedOnce(s: State) {
    forall t: nat :: multiset(s.finished)[t] == if t < s.submitted then 1 else 0
  }

  ghost predicate CompleteExact(s: State) {
    s.complete <==> s.queue == [] && s.available == s.total
  }

  // While the pool runs, nobody sleeps or every queued task has a woken worker coming for it.
  ghost predicate NoLostWakeup(s: State) {
    if s.running then
      && Exited !in s.workers
      && (Asleep !in s.workers || |s.queue| <= InState(s.workers, Woken))
    else
      Asleep !in s.workers
  }

  ghost predicate Inv(s: State) {
    Conserved(s) && CompleteExact(s) && NoLostWakeup(s)
  }

  lemma InitialInv(total: nat, clients: nat)
    ensures Inv(Initial(total, clients))
  {
    BusyNone(Initial(total, clients).workers);
  }

  // Only the running task t moves when worker i goes to a state without a task, and back.
  lemma ConservedUpdate(s: State, i: nat, w: Worker, s': State)
    requires i < |s.workers| && s'.workers == s.workers[i := w]
    ensures forall t: nat :: InState(s'.workers, Running(t)) ==
              InState(s.workers, Running(t)) - (if s.workers[i] == Running(t) then 1 else 0) + (if w == Running(t) then 1 else 0)
    ensures InState(s'.workers, Woken) ==
              InState(s.workers, Woken) - (if s.workers[i] == Woken then 1 else 0) + (if w == Woken then 1 else 0)
    ensures Busy(s'.workers) == Busy(s.workers) - (if s.workers[i].Running? then 1 else 0) + (if w.Running? then 1 else 0)
  {
    BusyUpdate(s.workers, i, w);
    StateUpdate(s.workers, i, w, Woken);
    forall t: nat
      ensures InState(s'.workers, Running(t)) ==
              InState(s.workers, Running(t)) - (if s.workers[i] == Running(t) then 1 else 0) + (if w == Running(t) then 1 else 0)
    {
      StateUpdate(s.workers, i, w, Running(t));
    }
  }

  lemma NumbersExtend(from: nat, to: nat)
    requires from <= to
    ensures Numbers(from, to + 1) == Numbers(from, to) + [to]
    ensures from < to ==> Numbers(from, to)[0] == from && Numbers(from, to)[1..] == Numbers(from + 1, to)
  {
  }

  lemma SubmitInv(s: State, pick: nat)
    requires Inv(s) && PickOk(s, pick)
    ensures Inv(Submit(s, pick))
  {
    NumbersExtend(s.started, s.submitted);
    var s' := Submit(s, pick);
    if pick < |s.workers| && s.workers[pick] == Asleep {
      ConservedUpdate(s, pick, Woken, s');
    }
    forall t: nat ensures Places(s', t) == Places(s, t) {
    }
  }

  lemma ContinueInv(s: State, i: nat)
    requires Inv(s) && i < |s.workers| && (s.workers[i] == Starting || s.workers[i] == Woken)
    ensures Inv(Continue(s, i))
  {
    var s' := Continue(s, i);
    ConservedUpdate(s, i, s'.workers[i], s');
    NumbersExtend(s.started, s.submitted);
    forall t: nat ensures Places(s', t) == if t < s'.started then 1 else 0 {
      assert Places(s, t) == if t < s.started then 1 else 0;
    }
  }

  lemma FinishInv(s: State, i: nat, pick: nat)
    requires Inv(s) && i < |s.workers| && s.workers[i].Running?
    ensures Inv(Finish(s, i, pick)) && Finish(s, i, pick).workers == s.workers[i := Woken]
  {
    var s' := Finish(s, i, pick);
    ConservedUpdate(s, i, Woken, s');
    forall t: nat ensures Places(s', t) == Places(s, t) {
      assert multiset(s'.finished) == multiset(s.finished) + multiset{s.workers[i].task};
    }
  }

  lemma {:induction false} ShutdownSame(a: seq<Worker>, b: seq<Worker>, t: nat)
    requires |a| == |b| && forall i :: 0 <= i < |a| ==> b[i] == if a[i] == Asleep then Woken else a[i]
    ensures Busy(a) == Busy(b) && InState(a, Running(t)) == InState(b, Running(t))
  {
    if a != [] {
      ShutdownSame(a[1..], b[1..], t);
      assert a == [a[0]] + a[1..] && b == [b[0]] + b[1..];
    }
  }

  lemma ShutdownInv(s: State)
    requires Inv(s)
    ensures Inv(Shutdown(s))
  {
    var s' := Shutdown(s);
    ShutdownSame(s.workers, s'.workers, 0);
    forall t: nat ensures Places(s', t) == Places(s, t) {
      ShutdownSame(s.workers, s'.workers, t);
    }
  }

  lemma PlacesUnchanged(s: State, s': State)
    requires s'.finished == s.finished && s'.workers == s.workers
    ensures forall t: nat :: Places(s', t) == Places(s, t)
  {
  }

  lemma StepKeepsInv(s: State, step: Step)
    requires Inv(s) && Enabled(s, step)
    ensures Inv(Next(s, step))
  {
    match step
    case DoSubmit(pick) => SubmitInv(s, pick);
    case DoTurn(i, pick) =>
      if s.workers[i].Running? {
        FinishInv(s, i, pick);
        ContinueInv(Finish(s, i, pick), i);
      } else {
        ContinueInv(s, i);
      }
    case DoSpurious(i) =>
      ConservedUpdate(s, i, Woken, Next(s, step));
      forall t: nat ensures Places(Next(s, step), t) == Places(s, t) {
      }
    case DoShutdown => ShutdownInv(s);
    case DoWait(c) => PlacesUnchanged(s, Next(s, step));
    case DoSpuriousWaiter(c) => PlacesUnchanged(s, Next(s, step));
  }

  // All of it holds in every state of every run, whatever the scheduler does.
  lemma {:induction false} RunKeepsInv(ss: seq<State>, steps: seq<Step>, k: nat)
    requires IsRun(ss, steps) && Inv(ss[0]) && k < |ss|
    ensures Inv(ss[k])
  {
    if k > 0 {
      RunKeepsInv(ss, steps, k - 1);
      StepKeepsInv(ss[k - 1], steps[k - 1]);
    }
  }

  // When waitWorkComplete returns, every task submitted so far has finished, once.
  lemma WaitReturnsWhenDone(s: State, c: nat)
    requires Inv(s) && Enabled(s, DoWait(c)) && Wait(s, c).waiters[c] == Outside
    ensures AllFinishedOnce(s)
  {
    BusyNone(s.workers);
    assert |s.queue| == s.submitted - s.started;
    forall t: nat ensures multiset(s.finished)[t] == if t < s.submitted then 1 else 0 {
      assert Running(t) !in s.workers;
      assert Places(s, t) == if t < s.started then 1 else 0;
    }
  }

  // ----- progress -----

  function Active(workers: seq<Worker>): (n: nat) {
    if workers == [] then 0
    else (if workers[0] == Asleep || workers[0] == Exited then 0 else 1) + Active(workers[1..])
  }

  lemma {:induction false} ActiveUpdate(workers: seq<Worker>, i: nat, w: Worker)
    requires i < |workers|
    ensures Active(workers[i := w]) == Active(workers)
              - (if workers[i] == Asleep || workers[i] == Exited then 0 else 1)
              + (if w == Asleep || w == Exited then 0 else 1)
  {
    if i > 0 {
      ActiveUpdate(workers[1..], i - 1, w);
      assert workers[i := w][1..] == workers[1..][i - 1 := w];
    } else {
      assert workers[0 := w][1..] == workers[1..];
    }
  }

  // How many turns the workers can still take on their own.
  function Measure(s: State): (n: nat) {
    if s.running then 2 * |s.queue| + Active(s.workers) else Active(s.workers)
  }

  lemma TurnDecreases(s: State, i: nat, pick: nat)
    requires CanTurn(s, i)
    ensures Measure(Turn(s, i, pick)) < Measure(s)
    ensures !s.running ==>
              var s' := Turn(s, i, pick);
              s'.workers[i] == Exited && s'.queue == s.queue && s'.started == s.started && !s'.running
  {
    var s1 := if s.workers[i].Running? then Finish(s, i, pick) else s;
    if s.workers[i].Running? {
      ActiveUpdate(s.workers, i, Woken);
    }
    ActiveUpdate(s1.workers, i, Turn(s, i, pick).workers[i]);
  }

  ghost predicate OnlyTurns(steps: seq<Step>) {
    forall k :: 0 <= k < |steps| ==> steps[k].DoTurn?
  }

  // Left alone, the workers take at most Measure many turns ...
  lemma {:induction false} TurnsAreBounded(ss: seq<State>, steps: seq<Step>)
    requires IsRun(ss, steps) && OnlyTurns(steps)
    ensures |steps| + Measure(ss[|steps|]) <= Measure(ss[0])
  {
    var n := |steps| - 1;
    if n >= 0 {
      TurnsAreBounded(ss[..n + 1], steps[..n]);
      TurnDecreases(ss[n], steps[n].i, steps[n].pick);
    }
  }

  // ... and when none is left, a running pool has finished all its work, and a pool
  // that was shut down has no thread left.
  lemma QuietMeansDone(s: State)
    requires Inv(s) && s.total >= 1 && forall i :: !CanTurn(s, i)
    ensures s.running ==> s.complete && AllFinishedOnce(s)
    ensures !s.running ==> forall i :: 0 <= i < |s.workers| ==> s.workers[i] == Exited
  {
    forall i | 0 <= i < |s.workers| ensures s.workers[i] == Asleep || s.workers[i] == Exited {
      assert !CanTurn(s, i);
    }
    BusyNone(s.workers);
    assert Woken !in s.workers;
    if s.running {
      assert s.workers[0] == Asleep;
      assert |s.queue| == s.submitted - s.started;
      forall t: nat ensures multiset(s.finished)[t] == if t < s.submitted then 1 else 0 {
        assert Running(t) !in s.workers;
        assert Places(s, t) == if t < s.started then 1 else 0;
      }
    }
  }

  // After the destructor cleared running_, no task starts any more: whatever was queued stays queued.
  lemma {:induction false} ShutdownStartsNothing(ss: seq<State>, steps: seq<Step>, k: nat)
    requires IsRun(ss, steps) && !ss[0].running && k < |ss|
    ensures !ss[k].running && ss[k].started == ss[0].started
    ensures ss[0].queue <= ss[k].queue
  {
    if k > 0 {
      ShutdownStartsNothing(ss, steps, k - 1);
      if steps[k - 1].DoTurn? {
        TurnDecreases(ss[k - 1], steps[k - 1].i, steps[k - 1].pick);
      }
    }
  }

  // ----- what a step leaves alone -----

  // A step moves its own thread and, by notify_one, at most one thread asleep or blocked; only shutting
  // down wakes all sleepers, and it moves nobody else.
  lemma StepMovesFew(s: State, step: Step)
    requires Enabled(s, step)
    ensures var s' := Next(s, step);
            && |s'.workers| == |s.workers| && |s'.waiters| == |s.waiters| && s'.total == s.total
            && (s'.running <==> s.running && !step.DoShutdown?)
            && (forall j :: 0 <= j < |s.workers| ==>
                  s'.workers[j] == s.workers[j]
                  || (s.workers[j] == Asleep && s'.workers[j] == Woken
                      && (step.DoShutdown? || (step.DoSubmit? && j == step.pick) || (step.DoSpurious? && j == step.i)))
                  || (step.DoTurn? && j == step.i))
            && (forall c :: 0 <= c < |s.waiters| ==>
                  s'.waiters[c] == s.waiters[c]
                  || (s.waiters[c] == Blocked && s'.waiters[c] == Notified
                      && ((step.DoTurn? && c == step.pick) || (step.DoSpuriousWaiter? && c == step.c)))
                  || (step.DoWait? && c == step.c))
  {
  }

  // ----- waiters: completion is signalled with notify_one -----

  // Nobody stays blocked once the work is complete.
  predicate NoStrandedWaiter(s: State) {
    s.complete ==> Blocked !in s.waiters
  }

  // Every reachable state of a pool with this many threads and clients is free of stranded waiters.
  ghost predicate NeverStranded(total: nat, clients: nat) {
    forall ss, steps :: IsRun(ss, steps) && ss[0] == Initial(total, clients) ==> NoStrandedWaiter(ss[|steps|])
  }

  lemma SingleWaiterStep(s: State, step: Step)
    requires |s.waiters| <= 1 && NoStrandedWaiter(s) && Enabled(s, step)
    ensures |Next(s, step).waiters| == |s.waiters| && NoStrandedWaiter(Next(s, step))
  {
  }

  lemma {:induction false} SingleWaiterRun(ss: seq<State>, steps: seq<Step>, k: nat)
    requires IsRun(ss, steps) && k < |ss| && |ss[0].waiters| <= 1 && NoStrandedWaiter(ss[0])
    ensures |ss[k].waiters| == |ss[0].waiters| && NoStrandedWaiter(ss[k])
  {
    if k > 0 {
      SingleWaiterRun(ss, steps, k - 1);
      SingleWaiterStep(ss[k - 1], steps[k - 1]);
    }
  }

  // Two clients wait, one task runs and finishes: only one of the clients is woken.
  lemma TwoWaitersStrand(total: nat, clients: nat) returns (ss: seq<State>, steps: seq<Step>)
    requires total >= 1 && clients >= 2
    ensures IsRun(ss, steps) && ss[0] == Initial(total, clients) && !NoStrandedWaiter(ss[|steps|])
  {
    steps := [DoSubmit(0), DoWait(0), DoWait(1), DoTurn(0, 0), DoTurn(0, 0)];
    var s0 := Initial(total, clients);
    var s1 := Next(s0, steps[0]);
    var s2 := Next(s1, steps[1]);
    var s3 := Next(s2, steps[2]);
    assert s3.workers[0] == Starting;
    var s4 := Next(s3, steps[3]);
    assert s4.waiters[0] == Blocked && s4.waiters[1] == Blocked && s4.workers[0] == Running(0);
    var s5 := Next(s4, steps[4]);
    assert s5.waiters[1] == Blocked;
    ss := [s0, s1, s2, s3, s4, s5];
  }

  // With at least one thread, no waiter is ever stranded exactly when at most one client waits.
  lemma StrandingExactly(total: nat, clients: nat)
    requires total >= 1
    ensures NeverStranded(total, clients) <==> clients <= 1
  {
    if clients <= 1 {
      forall ss, steps | IsRun(ss, steps) && ss[0] == Initial(total, clients)
        ensures NoStrandedWaiter(ss[|steps|])
      {
        SingleWaiterRun(ss, steps, |steps|);
      }
    } else {
      var ss, steps := TwoWaitersStrand(total, clients);
    }
  }
}
