// ThreadPool of c10/core/thread_pool.h and .cpp: each method is one critical
// section under mutex_, proved to be the protocol step of the same name. The ghost
// fields record where every thread is and which task numbers have come and gone.
module ThreadPool {
  import opened PoolProtocol

  // What a worker does when it gives the lock up again.
  datatype Outcome = RunTask(task: nat) | Sleep | Exit

  class ThreadPool {
    var tasks: seq<nat>
    var running: bool
    var complete: bool
    var available: int
    const total: nat

    ghost var workers: seq<Worker>
    ghost var waiters: seq<Waiter>
    ghost var submitted: nat
    ghost var started: nat
    ghost var finished: seq<nat>

    ghost function Abs(): (s': State)
      reads this
    {
      State(tasks, running, complete, available, total, workers, waiters, submitted, started, finished)
    }

    ghost predicate Valid()
      reads this
    {
      Inv(Abs())
    }

    // A negative pool size asks for the default number of threads.
    constructor (poolSize: int, defaultThreads: nat, ghost clients: nat)
      ensures Valid()
      ensures Abs() == Initial(if poolSize < 0 then defaultThreads else poolSize, clients)
    {
      var threads := if poolSize < 0 then defaultThreads else poolSize;
      tasks, running, complete := [], true, true;
      available, total := threads, threads;
      workers, waiters := seq(threads, _ => Starting), seq(clients, _ => Outside);
      submitted, started, finished := 0, 0, [];
      new;
      InitialInv(threads, clients);
    }

    method NumAvailable() returns (n: int)
      requires Valid()
      ensures n == total - Busy(workers)
    {
      n := available;
    }

    // Tasks go by the number of their submission.
    method Run(task: nat, ghost pick: nat) returns (ok: bool)
      requires Valid() && task == submitted && PickOk(Abs(), pick)
      modifies this
      ensures Valid()
      ensures ok <==> total > 0
      ensures Abs() == if ok then Submit(old(Abs()), pick) else old(Abs())
    {
      if total == 0 {
        return false;
      }
      RunTaskWithID(task, pick);
      ok := true;
    }

    method RunTaskWithID(task: nat, ghost pick: nat)
      requires Valid() && task == submitted && PickOk(Abs(), pick)
      modifies this
      ensures Valid() && Abs() == Submit(old(Abs()), pick)
    {
      ghost var s := Abs();
      tasks := tasks + [task];
      complete := false;
      submitted := submitted + 1;
      workers := WakeWorker(Abs(), pick).workers;
      StepKeepsInv(s, DoSubmit(pick));
    }

    // One round of main_loop between taking and releasing the lock. A worker that comes
    // back from a task first reports it; then the loop head and the wait decide.
    method MainLoopTurn(i: nat, fromTask: bool, ghost pick: nat) returns (outcome: Outcome)
      requires Valid() && Enabled(Abs(), DoTurn(i, pick)) && fromTask == workers[i].Running?
      modifies this
      ensures Valid() && Abs() == Turn(old(Abs()), i, pick)
      ensures workers[i] == match outcome case RunTask(t) => Running(t) case Sleep => Asleep case Exit => Exited
      ensures outcome.RunTask? ==> old(running) && outcome.task == old(started)
    {
      if fromTask {
        ReportFinished(i, pick);
      }
      outcome := TakeTask(i);
    }

    // The loop head and the wait of main_loop.
    method TakeTask(i: nat) returns (outcome: Outcome)
      requires Valid() && i < |workers| && (workers[i] == Starting || workers[i] == Woken)
      modifies this
      ensures Valid() && Abs() == Continue(old(Abs()), i)
      ensures workers[i] == match outcome case RunTask(t) => Running(t) case Sleep => Asleep case Exit => Exited
      ensures outcome.RunTask? ==> old(running) && outcome.task == old(started)
    {
      ContinueInv(Abs(), i);
      if !running {
        workers := workers[i := Exited];
        outcome := Exit;
      } else if tasks == [] {
        workers := workers[i := Asleep];
        outcome := Sleep;
      } else {
        outcome := RunTask(tasks[0]);
        tasks := tasks[1..];
        available := available - 1;
        started, workers := started + 1, workers[i := Running(outcome.task)];
      }
    }

    method ReportFinished(i: nat, ghost pick: nat)
      requires Valid() && i < |workers| && workers[i].Running?
      modifies this
      ensures Valid() && Abs() == Finish(old(Abs()), i, pick)
    {
      ghost var s := Abs();
      finished, workers := finished + [workers[i].task], workers[i := Woken];
      available := available + 1;
      if tasks == [] && available == total {
        complete := true;
        waiters := WakeWaiter(Abs(), pick).waiters;
      }
      FinishInv(s, i, pick);
    }

    // waitWorkComplete from taking the lock to returning or blocking.
    method WaitWorkComplete(c: nat) returns (done: bool)
      requires Valid() && Enabled(Abs(), DoWait(c))
      modifies this
      ensures Valid() && Abs() == Wait(old(Abs()), c)
      ensures done ==> AllFinishedOnce(Abs())
      ensures !done ==> waiters[c] == Blocked && (tasks != [] || Busy(workers) > 0)
    {
      ghost var s := Abs();
      StepKeepsInv(s, DoWait(c));
      if complete {
        WaitReturnsWhenDone(s, c);
      }
      done := complete;
      waiters := waiters[c := if complete then Outside else Blocked];
    }

    // The critical section of the destructor.
    method Shut()
      requires Valid()
      modifies this
      ensures Valid() && Abs() == Shutdown(old(Abs()))
    {
      ghost var s := Abs();
      running := false;
      workers := Shutdown(Abs()).workers;
      StepKeepsInv(s, DoShutdown);
    }
  }
}
