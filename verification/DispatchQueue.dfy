/**
 The dispatch queue object.  Its fields are updated in place, one shared-memory access at a time, by the
 threads inside OnMqttMessage, messageDispatcherWorker and the destructor; every update is proved to be
 the action of the interleaving model, so what holds of all runs there holds of this object.
 */
module DispatchQueues {
  import opened DispatchModel
  import opened DispatchInvariant
  import opened DispatchChannel

  class DispatchQueue {
    var messageDispatcherMutex: Owner
    var messageDispatcherQueue: seq<nat>
    var messageDispatcherExit: bool
    var calls: seq<Call>
    var worker: WorkerPc
    var destructor: DestructorPc
    var num: nat
    ghost var pushed: seq<nat>
    ghost var delivered: seq<nat>

    ghost function View(): State
      reads this
    {
      State(AsWritten, messageDispatcherMutex, messageDispatcherQueue, messageDispatcherExit, calls, worker,
            destructor, num, pushed, delivered)
    }

    /** The object after construction, the dispatcher thread about to lock the mutex. */
    constructor ()
      ensures View() == Init(AsWritten)
    {
      messageDispatcherMutex := Free;
      messageDispatcherQueue := [];
      messageDispatcherExit := false;
      calls := [];
      worker := WStart;
      destructor := DIdle;
      num := 0;
      pushed, delivered := [], [];
    }

    /** notify_one and notify_all: the dispatcher thread is the only one that ever waits. */
    method Notify()
      modifies this`worker
      ensures worker == Woken(old(worker))
    {
      if worker.WAsleep? {
        worker := WWoken;
      }
    }

    /** A thread enters OnMqttMessage with a message of its own. */
    method Enter(inCallback: bool) returns (call: nat)
      requires Enabled(View(), Begin(inCallback))
      modifies this`calls
      ensures call == |old(calls)| && View() == Step(old(View()), Begin(inCallback))
    {
      call := |calls|;
      calls := calls + [Call(CTest, inCallback)];
    }

    /** The next action of a thread inside OnMqttMessage. */
    method OnMqttMessage(call: nat)
      requires CallEnabled(View(), call)
      modifies this
      ensures View() == Step(old(View()), CallAct(call))
    {
      var pc := calls[call].pc;
      match pc {
        case CTest =>
          if messageDispatcherExit {
            pc := CDropped;
          } else {
            pc := CLock;
          }
        case CLock =>
          messageDispatcherMutex := HeldByCall(call);
          pc := CPush;
        case CPush =>
          messageDispatcherQueue := messageDispatcherQueue + [call];
          pushed := pushed + [call];
          pc := CUnlock;
        case CUnlock =>
          messageDispatcherMutex := Free;
          pc := CNotify;
        case CNotify =>
          Notify();
          pc := CDone;
        case CDone =>
        case CDropped =>
      }
      calls := calls[call := calls[call].(pc := pc)];
    }

    /** The next action of the dispatcher thread. */
    method MessageDispatcherWorker()
      requires WorkerEnabled(View())
      modifies this
      ensures View() == Step(old(View()), WorkerAct)
    {
      match worker {
        case WStart =>
          messageDispatcherMutex := HeldByWorker;
          worker := WLoopTest;
        case WLoopTest =>
          worker := if messageDispatcherExit then WExiting else WPredicate;
        case WPredicate =>
          if |messageDispatcherQueue| != 0 || messageDispatcherExit {
            worker := WCheck;
          } else {
            worker := WCommit;
          }
        case WCommit =>
          messageDispatcherMutex := Free;
          worker := WAsleep;
        case WAsleep =>
        case WWoken =>
          messageDispatcherMutex := HeldByWorker;
          worker := WPredicate;
        case WCheck =>
          if !messageDispatcherExit && |messageDispatcherQueue| != 0 {
            worker := WPop;
          } else {
            worker := WLoopTest;
          }
        case WPop =>
          var msg := messageDispatcherQueue[0];
          messageDispatcherQueue := messageDispatcherQueue[1..];
          worker := WUnlock(msg);
        case WUnlock(msg) =>
          messageDispatcherMutex := Free;
          worker := WDeliver(msg);
        case WDeliver(msg) =>
          delivered := delivered + [msg];
          worker := WInCallback;
        case WInCallback =>
          worker := WRelock;
        case WRelock =>
          messageDispatcherMutex := HeldByWorker;
          worker := WLoopTest;
        case WExiting =>
          messageDispatcherMutex := Free;
          worker := WDone;
        case WDone =>
      }
    }

    method SpuriousWakeUp()
      requires Enabled(View(), Spurious)
      modifies this`worker
      ensures View() == Step(old(View()), Spurious)
    {
      worker := WWoken;
    }

    method Destroy()
      requires Enabled(View(), DispatchModel.Destroy)
      modifies this`destructor
      ensures View() == Step(old(View()), DispatchModel.Destroy)
    {
      destructor := DSetExit;
    }

    /** The next action of the destructor; the thread it joins is always joinable. */
    method Destructor()
      requires Inv(View()) && DestructorEnabled(View())
      modifies this
      ensures View() == Step(old(View()), DestructorAct)
    {
      match destructor {
        case DIdle =>
        case DExitLock => assert false;
        case DSetExit =>
          messageDispatcherExit := true;
          destructor := DNotifyAll;
        case DExitUnlock => assert false;
        case DNotifyAll =>
          Notify();
          destructor := DJoin;
        case DJoin =>
          destructor := DCountLock;
        case DCountLock =>
          messageDispatcherMutex := HeldByDestructor;
          destructor := DCount;
        case DCount =>
          num := |messageDispatcherQueue|;
          destructor := DCountUnlock;
        case DCountUnlock =>
          messageDispatcherMutex := Free;
          destructor := DDone;
        case DDone =>
      }
    }

    /** Any schedule the threads can follow leaves the object as the model says, with the messages
        accounted for. */
    method Follow(schedule: seq<Action>)
      requires Inv(View()) && CanRun(View(), schedule)
      modifies this
      ensures View() == RunFrom(old(View()), schedule)
      ensures Inv(View())
      ensures old(delivered) <= delivered <= pushed && old(pushed) <= pushed
    {
      var done := 0;
      ghost var start := View();
      while done < |schedule|
        invariant 0 <= done <= |schedule|
        invariant Inv(View()) && CanRun(View(), schedule[done..])
        invariant RunFrom(View(), schedule[done..]) == RunFrom(start, schedule)
      {
        ghost var rest := schedule[done..];
        StepKeeps(View(), schedule[done]);
        match schedule[done] {
          case Begin(inCallback) => var _ := Enter(inCallback);
          case CallAct(call) => OnMqttMessage(call);
          case WorkerAct => MessageDispatcherWorker();
          case Spurious => SpuriousWakeUp();
          case Destroy => Destroy();
          case DestructorAct => Destructor();
        }
        done := done + 1;
        assert rest[1..] == schedule[done..];
      }
      HistoriesGrow(start, schedule);
    }
  }
}
