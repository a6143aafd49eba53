/**
 Progress of the dispatch queue.  Every action but a new call and a spurious wake-up uses up a finite
 budget, and the states in which no thread can act are exactly three.
 */
module DispatchProgress {
  import opened DispatchModel
  import opened DispatchInvariant
  import opened Sums

  // ---- The budget ----

  function CallCost(c: Call): nat {
    match c.pc
    case CTest => 16
    case CLock => 15
    case CPush => 14
    case CUnlock => 5
    case CNotify => 4
    case CDone => 0
    case CDropped => 0
  }

  /** Actions left to the worker, not counting those that a queued message or a wake-up pays for. */
  function WorkerCost(worker: WorkerPc, exit: bool): nat {
    if exit then
      match worker
      case WDone => 0
      case WExiting => 1
      case WLoopTest => 2
      case WRelock => 3
      case WStart => 3
      case WCheck => 3
      case WPredicate => 4
      case WInCallback => 4
      case WWoken => 5
      case WDeliver(_) => 5
      case WAsleep => 6
      case WUnlock(_) => 6
      case WCommit => 7
      case WPop => 7
    else
      match worker
      case WAsleep => 0
      case WCommit => 1
      case WPredicate => 2
      case WLoopTest => 3
      case WWoken => 3
      case WStart => 4
      case WRelock => 4
      case WInCallback => 5
      case WDeliver(_) => 6
      case WUnlock(_) => 7
      case WPop => 0
      case WCheck => 1
      case WExiting => 1
      case WDone => 0
  }

  function DestructorCost(dtor: DestructorPc): nat {
    match dtor
    case DIdle => 16
    case DExitLock => 15
    case DSetExit => 14
    case DExitUnlock => 6
    case DNotifyAll => 5
    case DJoin => 4
    case DCountLock => 3
    case DCount => 2
    case DCountUnlock => 1
    case DDone => 0
  }

  function Budget(s: State): nat {
    Sum(s.calls, CallCost) + 8 * |s.queue| + WorkerCost(s.worker, s.exit) + DestructorCost(s.dtor)
  }

  /** What an action may add to the budget: 17 for a new call, 4 for a spurious wake-up. */
  function Allowance(a: Action): nat {
    if a.Begin? then 17 else if a.Spurious? then 4 else 0
  }

  lemma CallSpends(s: State, i: nat)
    requires CallEnabled(s, i)
    ensures Budget(CallStep(s, i)) + 1 <= Budget(s)
  {
    var t := CallStep(s, i);
    SumUpdate(s.calls, i, t.calls[i], CallCost);
    assert t.calls == s.calls[i := t.calls[i]];
  }

  lemma WorkerSpends(s: State)
    requires ChannelInv(s) && ExitInv(s) && WorkerEnabled(s)
    ensures Budget(WorkerStep(s)) + 1 <= Budget(s)
  {
  }

  lemma StepSpends(s: State, a: Action)
    requires Inv(s) && Enabled(s, a)
    ensures Budget(Step(s, a)) + 1 <= Budget(s) + Allowance(a)
  {
    match a
    case Begin(inCallback) => SumAppend(s.calls, Call(CTest, inCallback), CallCost);
    case CallAct(i) => CallSpends(s, i);
    case WorkerAct => WorkerSpends(s);
    case Spurious =>
    case Destroy =>
    case DestructorAct =>
  }

  /** No schedule keeps the threads busy for ever: a run of n actions spends n from the budget it starts
      with, the new calls and the spurious wake-ups being the only income. */
  lemma {:induction false} RunsAreBounded(s: State, run: seq<Action>)
    requires Inv(s) && CanRun(s, run)
    ensures |run| + Budget(RunFrom(s, run)) <= Budget(s) + Sum(run, Allowance)
    decreases run
  {
    if run != [] {
      StepSpends(s, run[0]);
      StepKeeps(s, run[0]);
      RunsAreBounded(Step(s, run[0]), run[1..]);
    }
  }

  /** Once the exit flag is stored the worker has at most seven actions left, and no action of any other
      thread gives it more. */
  lemma WorkerWindsDown(s: State, a: Action)
    requires Reachable(s) && s.exit && Enabled(s, a)
    ensures Step(s, a).exit
    ensures WorkerCost(s.worker, true) <= 7
    ensures WorkerCost(Step(s, a).worker, true) <= WorkerCost(s.worker, true)
    ensures a.WorkerAct? ==> WorkerCost(Step(s, a).worker, true) < WorkerCost(s.worker, true)
    ensures WorkerCost(s.worker, true) == 0 <==> s.worker.WDone?
  {
    ReachableInv(s);
  }

  // ---- When nothing can move ----

  /** No thread can take an action of its own accord. */
  ghost predicate Stuck(s: State) {
    && (forall i :: 0 <= i < |s.calls| ==> !CallEnabled(s, i))
    && !WorkerEnabled(s)
    && !DestructorEnabled(s)
  }

  ghost predicate AllReturned(s: State) {
    forall i :: 0 <= i < |s.calls| ==> s.calls[i].pc.Returned()
  }

  /** In use, with nothing to do. */
  ghost predicate Quiet(s: State) {
    AllReturned(s) && s.owner.Free? && s.worker.WAsleep? && s.dtor.DIdle?
  }

  /** The destructor waits for a worker that nobody will wake. */
  ghost predicate Hung(s: State) {
    AllReturned(s) && s.owner.Free? && s.worker.WAsleep? && s.dtor.DJoin?
  }

  ghost predicate Destroyed(s: State) {
    AllReturned(s) && s.owner.Free? && s.worker.WDone? && s.dtor.DDone?
  }

  lemma StuckMutexIsFree(s: State)
    requires Inv(s) && Stuck(s)
    ensures s.owner.Free? && AllReturned(s)
  {
    if s.owner.HeldByCall? {
      assert CallEnabled(s, s.owner.call);
    }
    forall i | 0 <= i < |s.calls| ensures s.calls[i].pc.Returned() {
      assert !CallEnabled(s, i);
    }
  }

  /** There is no deadlock but one: a reachable state is stuck exactly when it is at rest with everything
      delivered, finished, or hung in the destructor. */
  lemma StuckExactly(s: State)
    requires Reachable(s)
    ensures Stuck(s) <==> Quiet(s) || Hung(s) || Destroyed(s)
    ensures Quiet(s) || Hung(s) ==> s.queue == [] && s.delivered == s.pushed
    ensures Quiet(s) ==> forall i: nat :: i < |s.calls| ==> i in s.delivered
    ensures s.variant.ExitUnderMutex? ==> !Hung(s)
  {
    ReachableInv(s);
    if Stuck(s) {
      StuckMutexIsFree(s);
    }
    if Quiet(s) {
      forall i: nat | i < |s.calls| ensures i in s.delivered {
        assert s.calls[i].pc.Returned() && !s.calls[i].pc.CDropped?;
        assert s.calls[i].pc.HasPushed();
      }
    }
  }

  /** Destruction comes to an end.  From the moment the destructor has been called, a schedule without
      new calls and spurious wake-ups has at most Budget(s) actions, and when it can be extended no further the
      queue is destroyed or hung; with the flag stored under the mutex it is destroyed. */
  lemma DestructionEnds(s: State, run: seq<Action>)
    requires Reachable(s) && !s.dtor.DIdle? && CanRun(s, run)
    requires forall a :: a in run ==> !a.Begin? && !a.Spurious?
    ensures |run| <= Budget(s)
    ensures Stuck(RunFrom(s, run)) ==> Destroyed(RunFrom(s, run)) || Hung(RunFrom(s, run))
    ensures Stuck(RunFrom(s, run)) && s.variant.ExitUnderMutex? ==> Destroyed(RunFrom(s, run))
  {
    ReachableInv(s);
    RunsAreBounded(s, run);
    NoIncome(run);
    ReachableOn(s, run);
    StuckExactly(RunFrom(s, run));
    DestructorOnlyAdvances(s, run);
  }

  /** In use, every message gets delivered.  As long as the destructor is not called, a schedule without new
      calls and spurious wake-ups has at most Budget(s) actions, and when it can be extended no further
      every call has returned and its message has been handed to the user, in push order. */
  lemma EveryMessageIsDelivered(s: State, run: seq<Action>)
    requires Reachable(s) && s.dtor.DIdle? && CanRun(s, run)
    requires forall a :: a in run ==> !a.Begin? && !a.Spurious? && !a.Destroy?
    ensures |run| <= Budget(s)
    ensures var t := RunFrom(s, run);
            Stuck(t) ==> t.delivered == t.pushed && |t.calls| == |s.calls| &&
                         forall i: nat :: i < |s.calls| ==> i in t.delivered
  {
    ReachableInv(s);
    RunsAreBounded(s, run);
    NoIncome(run);
    ReachableOn(s, run);
    StuckExactly(RunFrom(s, run));
    UntouchedDestructor(s, run);
  }

  lemma {:induction false} UntouchedDestructor(s: State, run: seq<Action>)
    requires CanRun(s, run) && s.dtor.DIdle?
    requires forall a :: a in run ==> !a.Begin? && !a.Destroy?
    ensures RunFrom(s, run).dtor.DIdle? && |RunFrom(s, run).calls| == |s.calls|
    decreases run
  {
    if run != [] {
      assert run[0] in run;
      UntouchedDestructor(Step(s, run[0]), run[1..]);
    }
  }

  lemma {:induction false} NoIncome(run: seq<Action>)
    requires forall a :: a in run ==> !a.Begin? && !a.Spurious?
    ensures Sum(run, Allowance) == 0
  {
    if run != [] {
      assert run[0] in run;
      NoIncome(run[1..]);
    }
  }

  lemma {:induction false} DestructorOnlyAdvances(s: State, run: seq<Action>)
    requires CanRun(s, run) && !s.dtor.DIdle?
    ensures !RunFrom(s, run).dtor.DIdle? && RunFrom(s, run).variant == s.variant
    decreases run
  {
    if run != [] {
      DestructorOnlyAdvances(Step(s, run[0]), run[1..]);
    }
  }
}
