/**
 The dispatch queue as a system of interleaved threads: any number of OnMqttMessage calls, the one
 dispatcher thread and the destructor, sharing a mutex, a condition variable, a queue and an atomic
 exit flag.  One action is one access to shared memory.

 The message handed over by call number i is named i: it arrives as a unique pointer, so no two calls
 hold the same message.
 */
module DispatchModel {

  /** AsWritten is the program.  ExitUnderMutex is the program with the exit flag stored while holding
      the mutex; it is carried along to say what that change would buy. */
  datatype Variant = AsWritten | ExitUnderMutex

  datatype Owner = Free | HeldByCall(call: nat) | HeldByWorker | HeldByDestructor

  /** Where a call of OnMqttMessage stands: the action it takes next, or how it returned. */
  datatype CallPc = CTest | CLock | CPush | CUnlock | CNotify | CDone | CDropped {
    predicate Returned() { CDone? || CDropped? }
    predicate Holds() { CPush? || CUnlock? }
    predicate HasPushed() { CUnlock? || CNotify? || CDone? }
    predicate NotifyPending() { CUnlock? || CNotify? }
  }

  /** A call; inCallback says that the user's message callback made it, on the dispatcher thread. */
  datatype Call = Call(pc: CallPc, inCallback: bool)

  /** Where the dispatcher thread stands.  WCommit lies between a false predicate and falling asleep. */
  datatype WorkerPc =
    | WStart | WLoopTest | WPredicate | WCommit | WAsleep | WWoken | WCheck | WPop
    | WUnlock(msg: nat) | WDeliver(msg: nat) | WInCallback | WRelock | WExiting | WDone
  {
    predicate Holds() {
      WLoopTest? || WPredicate? || WCommit? || WCheck? || WPop? || WUnlock? || WExiting?
    }

    /** The message taken from the queue and not yet handed to the user. */
    function InFlight(): seq<nat> {
      if WUnlock? || WDeliver? then [msg] else []
    }
  }

  datatype DestructorPc =
    | DIdle | DExitLock | DSetExit | DExitUnlock | DNotifyAll | DJoin | DCountLock | DCount | DCountUnlock | DDone
  {
    predicate ExitStored() {
      DExitUnlock? || DNotifyAll? || DJoin? || DCountLock? || DCount? || DCountUnlock? || DDone?
    }
    predicate NotifiedAll() { DJoin? || DCountLock? || DCount? || DCountUnlock? || DDone? }
    predicate Joined() { DCountLock? || DCount? || DCountUnlock? || DDone? }
    predicate Counted() { DCountUnlock? || DDone? }
    predicate Holds(variant: Variant) {
      DExitUnlock? || DCount? || DCountUnlock? || (DSetExit? && variant.ExitUnderMutex?)
    }
  }

  datatype State = State(
    variant: Variant,
    owner: Owner,
    queue: seq<nat>,
    exit: bool,
    calls: seq<Call>,
    worker: WorkerPc,
    dtor: DestructorPc,
    num: nat,              // the destructor's count of lost messages
    pushed: seq<nat>,      // history: every push, in order
    delivered: seq<nat>)   // history: every user callback, in order

  /** Begin: a thread calls OnMqttMessage.  Spurious: the condition variable wakes for no reason.
      Destroy: the destructor is called.  The other three are a thread taking its next action. */
  datatype Action = Begin(inCallback: bool) | CallAct(call: nat) | WorkerAct | Spurious | Destroy | DestructorAct

  function Init(variant: Variant): State {
    State(variant, Free, [], false, [], WStart, DIdle, 0, [], [])
  }

  function Woken(worker: WorkerPc): WorkerPc {
    if worker.WAsleep? then WWoken else worker
  }

  function MoveCall(s: State, i: nat, pc: CallPc): State
    requires i < |s.calls|
  {
    s.(calls := s.calls[i := s.calls[i].(pc := pc)])
  }

  /** The user's callback returns only after the calls it made have returned. */
  predicate CallbackCanReturn(s: State) {
    forall i :: 0 <= i < |s.calls| && s.calls[i].inCallback ==> s.calls[i].pc.Returned()
  }

  // ---- OnMqttMessage ----

  predicate CallEnabled(s: State, i: nat) {
    i < |s.calls| && !s.calls[i].pc.Returned() && (s.calls[i].pc.CLock? ==> s.owner.Free?)
  }

  function CallStep(s: State, i: nat): State
    requires CallEnabled(s, i)
  {
    match s.calls[i].pc
    case CTest => MoveCall(s, i, if s.exit then CDropped else CLock)
    case CLock => MoveCall(s, i, CPush).(owner := HeldByCall(i))
    case CPush => MoveCall(s, i, CUnlock).(queue := s.queue + [i], pushed := s.pushed + [i])
    case CUnlock => MoveCall(s, i, CNotify).(owner := Free)
    case CNotify => MoveCall(s, i, CDone).(worker := Woken(s.worker))
    case CDone => s
    case CDropped => s
  }

  // ---- messageDispatcherWorker ----

  predicate WorkerEnabled(s: State) {
    match s.worker
    case WStart => s.owner.Free?
    case WWoken => s.owner.Free?
    case WRelock => s.owner.Free?
    case WPop => s.queue != []
    case WInCallback => CallbackCanReturn(s)
    case WAsleep => false
    case WDone => false
    case _ => true
  }

  function WorkerStep(s: State): State
    requires WorkerEnabled(s)
  {
    match s.worker
    case WStart => s.(owner := HeldByWorker, worker := WLoopTest)
    case WLoopTest => s.(worker := if s.exit then WExiting else WPredicate)
    case WPredicate => s.(worker := if s.queue != [] || s.exit then WCheck else WCommit)
    case WCommit => s.(owner := Free, worker := WAsleep)
    case WAsleep => s
    case WWoken => s.(owner := HeldByWorker, worker := WPredicate)
    case WCheck => s.(worker := if !s.exit && s.queue != [] then WPop else WLoopTest)
    case WPop => s.(worker := WUnlock(s.queue[0]), queue := s.queue[1..])
    case WUnlock(m) => s.(owner := Free, worker := WDeliver(m))
    case WDeliver(m) => s.(worker := WInCallback, delivered := s.delivered + [m])
    case WInCallback => s.(worker := WRelock)
    case WRelock => s.(owner := HeldByWorker, worker := WLoopTest)
    case WExiting => s.(owner := Free, worker := WDone)
    case WDone => s
  }

  // ---- ~DispatchQueue ----

  predicate DestructorEnabled(s: State) {
    match s.dtor
    case DIdle => false
    case DExitLock => s.owner.Free?
    case DJoin => s.worker.WDone?
    case DCountLock => s.owner.Free?
    case DDone => false
    case _ => true
  }

  function DestructorStep(s: State): State
    requires DestructorEnabled(s)
  {
    match s.dtor
    case DIdle => s
    case DExitLock => s.(owner := HeldByDestructor, dtor := DSetExit)
    case DSetExit =>
      s.(exit := true, dtor := if s.variant.AsWritten? then DNotifyAll else DExitUnlock)
    case DExitUnlock => s.(owner := Free, dtor := DNotifyAll)
    case DNotifyAll => s.(worker := Woken(s.worker), dtor := DJoin)
    case DJoin => s.(dtor := DCountLock)
    case DCountLock => s.(owner := HeldByDestructor, dtor := DCount)
    case DCount => s.(num := |s.queue|, dtor := DCountUnlock)
    case DCountUnlock => s.(owner := Free, dtor := DDone)
    case DDone => s
  }

  // ---- Actions and runs ----

  predicate Enabled(s: State, a: Action) {
    match a
    case Begin(inCallback) => inCallback ==> s.worker.WInCallback?
    case CallAct(i) => CallEnabled(s, i)
    case WorkerAct => WorkerEnabled(s)
    case Spurious => s.worker.WAsleep?
    case Destroy => s.dtor.DIdle?
    case DestructorAct => DestructorEnabled(s)
  }

  function Step(s: State, a: Action): State
    requires Enabled(s, a)
  {
    match a
    case Begin(inCallback) => s.(calls := s.calls + [Call(CTest, inCallback)])
    case CallAct(i) => CallStep(s, i)
    case WorkerAct => WorkerStep(s)
    case Spurious => s.(worker := WWoken)
    case Destroy => s.(dtor := if s.variant.AsWritten? then DSetExit else DExitLock)
    case DestructorAct => DestructorStep(s)
  }

  predicate CanRun(s: State, run: seq<Action>)
    decreases run
  {
    run == [] || (Enabled(s, run[0]) && CanRun(Step(s, run[0]), run[1..]))
  }

  function RunFrom(s: State, run: seq<Action>): State
    requires CanRun(s, run)
    decreases run
  {
    if run == [] then s else RunFrom(Step(s, run[0]), run[1..])
  }

  ghost predicate Reachable(s: State) {
    exists variant, run :: CanRun(Init(variant), run) && RunFrom(Init(variant), run) == s
  }

  lemma {:induction false} RunAppend(s: State, first: seq<Action>, second: seq<Action>)
    requires CanRun(s, first) && CanRun(RunFrom(s, first), second)
    ensures CanRun(s, first + second)
    ensures RunFrom(s, first + second) == RunFrom(RunFrom(s, first), second)
    decreases first
  {
    if first == [] {
      assert first + second == second;
    } else {
      assert (first + second)[1..] == first[1..] + second;
      RunAppend(Step(s, first[0]), first[1..], second);
    }
  }

  lemma RunOne(s: State, a: Action, rest: seq<Action>)
    requires Enabled(s, a) && CanRun(Step(s, a), rest)
    ensures CanRun(s, [a] + rest) && RunFrom(s, [a] + rest) == RunFrom(Step(s, a), rest)
  {
    assert ([a] + rest)[1..] == rest;
  }

  lemma ReachableOn(s: State, run: seq<Action>)
    requires Reachable(s) && CanRun(s, run)
    ensures Reachable(RunFrom(s, run))
  {
    var variant, before :| CanRun(Init(variant), before) && RunFrom(Init(variant), before) == s;
    RunAppend(Init(variant), before, run);
  }
}
