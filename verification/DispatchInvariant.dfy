/**
 What every interleaving of the dispatch queue keeps: mutual exclusion, the FIFO accounting of messages,
 no lost wake-up for messages, and the bookkeeping of shutdown.
 */
module DispatchInvariant {
  import opened DispatchModel
  import opened Sums

  /** Each thread is inside its critical section exactly while it owns the mutex. */
  ghost predicate MutexInv(s: State) {
    && (forall i :: 0 <= i < |s.calls| ==> (s.calls[i].pc.Holds() <==> s.owner == HeldByCall(i)))
    && (s.owner.HeldByCall? ==> s.owner.call < |s.calls|)
    && (s.worker.Holds() <==> s.owner == HeldByWorker)
    && (s.dtor.Holds(s.variant) <==> s.owner == HeldByDestructor)
  }

  /** Nothing is lost, repeated or reordered between push and callback. */
  ghost predicate ChannelInv(s: State) {
    && s.pushed == s.delivered + s.worker.InFlight() + s.queue
    && (s.worker.WPop? ==> s.queue != [])
    && (s.worker.WCheck? ==> s.queue != [] || s.exit)
    && (s.worker.WCommit? ==> s.queue == [])
  }

  ghost predicate CallsInv(s: State) {
    && NoDuplicates(s.pushed)
    && (forall i :: i in s.pushed ==> i < |s.calls|)
    && (forall i :: 0 <= i < |s.calls| ==> (s.calls[i].pc.HasPushed() <==> i in s.pushed))
    && (forall i :: 0 <= i < |s.calls| && s.calls[i].pc.CDropped? ==> s.exit)
  }

  ghost predicate NotifyPending(s: State) {
    exists i :: 0 <= i < |s.calls| && s.calls[i].pc.NotifyPending()
  }

  /** A sleeping worker with work to do is about to be notified. */
  ghost predicate WakeInv(s: State) {
    s.worker.WAsleep? && s.queue != [] ==> NotifyPending(s)
  }

  ghost predicate ExitInv(s: State) {
    && (s.exit <==> s.dtor.ExitStored())
    && (s.worker.WExiting? || s.worker.WDone? ==> s.exit)
    && (s.dtor.Joined() ==> s.worker.WDone?)
    && (s.dtor.DExitLock? || s.dtor.DExitUnlock? ==> s.variant.ExitUnderMutex?)
    && (s.variant.ExitUnderMutex? && s.exit ==> !s.worker.WCommit?)
    && (s.variant.ExitUnderMutex? && s.exit && s.worker.WAsleep? ==> !s.dtor.NotifiedAll())
  }

  ghost predicate Inv(s: State) {
    MutexInv(s) && ChannelInv(s) && CallsInv(s) && WakeInv(s) && ExitInv(s)
  }

  // ---- Every action keeps the invariant ----

  lemma BeginKeeps(s: State, inCallback: bool)
    requires Inv(s) && Enabled(s, Begin(inCallback))
    ensures Inv(Step(s, Begin(inCallback)))
  {
    var t := Step(s, Begin(inCallback));
    forall i | 0 <= i < |t.calls| ensures i < |s.calls| ==> t.calls[i] == s.calls[i] {
    }
    if NotifyPending(s) {
      var i :| 0 <= i < |s.calls| && s.calls[i].pc.NotifyPending();
      assert t.calls[i].pc.NotifyPending();
    }
  }

  lemma CallKeepsMutex(s: State, i: nat)
    requires MutexInv(s) && CallEnabled(s, i)
    ensures MutexInv(CallStep(s, i))
  {
  }

  lemma CallKeepsChannel(s: State, i: nat)
    requires MutexInv(s) && ChannelInv(s) && CallEnabled(s, i)
    ensures ChannelInv(CallStep(s, i))
  {
    if s.calls[i].pc.CPush? {
      assert s.owner == HeldByCall(i);
    }
  }

  lemma CallKeepsCalls(s: State, i: nat)
    requires CallsInv(s) && CallEnabled(s, i)
    ensures CallsInv(CallStep(s, i))
  {
  }

  lemma CallKeepsExit(s: State, i: nat)
    requires ExitInv(s) && CallEnabled(s, i)
    ensures ExitInv(CallStep(s, i))
  {
  }

  lemma CallKeepsWake(s: State, i: nat)
    requires WakeInv(s) && CallEnabled(s, i)
    ensures WakeInv(CallStep(s, i))
  {
    var t := CallStep(s, i);
    if s.worker.WAsleep? && s.queue != [] {
      var j :| 0 <= j < |s.calls| && s.calls[j].pc.NotifyPending();
      assert t.calls[j].pc.NotifyPending() || t.worker.WWoken?;
    }
    assert s.calls[i].pc.CPush? ==> t.calls[i].pc.NotifyPending();
  }

  lemma CallKeeps(s: State, i: nat)
    requires Inv(s) && CallEnabled(s, i)
    ensures Inv(CallStep(s, i))
  {
    CallKeepsMutex(s, i);
    CallKeepsChannel(s, i);
    CallKeepsCalls(s, i);
    CallKeepsExit(s, i);
    CallKeepsWake(s, i);
  }

  lemma WorkerKeepsMutex(s: State)
    requires MutexInv(s) && WorkerEnabled(s)
    ensures MutexInv(WorkerStep(s))
  {
  }

  lemma WorkerKeepsMessages(s: State)
    requires ChannelInv(s) && CallsInv(s) && WakeInv(s) && ExitInv(s) && WorkerEnabled(s)
    ensures ChannelInv(WorkerStep(s)) && WakeInv(WorkerStep(s))
  {
  }

  lemma WorkerKeepsExit(s: State)
    requires ExitInv(s) && WorkerEnabled(s)
    ensures ExitInv(WorkerStep(s))
  {
  }

  lemma WorkerKeeps(s: State)
    requires Inv(s) && WorkerEnabled(s)
    ensures Inv(WorkerStep(s))
  {
    WorkerKeepsMutex(s);
    WorkerKeepsMessages(s);
    WorkerKeepsExit(s);
  }

  lemma SpuriousKeeps(s: State)
    requires Inv(s) && Enabled(s, Spurious)
    ensures Inv(Step(s, Spurious))
  {
  }

  lemma DestroyKeeps(s: State)
    requires Inv(s) && Enabled(s, Destroy)
    ensures Inv(Step(s, Destroy))
  {
  }

  lemma DestructorKeeps(s: State)
    requires Inv(s) && DestructorEnabled(s)
    ensures Inv(DestructorStep(s))
  {
  }

  lemma StepKeeps(s: State, a: Action)
    requires Inv(s) && Enabled(s, a)
    ensures Inv(Step(s, a))
  {
    match a
    case Begin(inCallback) => BeginKeeps(s, inCallback);
    case CallAct(i) => CallKeeps(s, i);
    case WorkerAct => WorkerKeeps(s);
    case Spurious => SpuriousKeeps(s);
    case Destroy => DestroyKeeps(s);
    case DestructorAct => DestructorKeeps(s);
  }

  lemma {:induction false} RunKeeps(s: State, run: seq<Action>)
    requires Inv(s) && CanRun(s, run)
    ensures Inv(RunFrom(s, run))
    decreases run
  {
    if run != [] {
      StepKeeps(s, run[0]);
      RunKeeps(Step(s, run[0]), run[1..]);
    }
  }

  lemma ReachableInv(s: State)
    requires Reachable(s)
    ensures Inv(s)
  {
    var variant, run :| CanRun(Init(variant), run) && RunFrom(Init(variant), run) == s;
    RunKeeps(Init(variant), run);
  }

  // ---- Callbacks and the calls made inside them ----

  /** Only while the user's callback runs is a call made inside one under way. */
  ghost predicate CallbackInv(s: State) {
    forall i :: 0 <= i < |s.calls| && s.calls[i].inCallback && !s.calls[i].pc.Returned() ==> s.worker.WInCallback?
  }

  lemma StepKeepsCallback(s: State, a: Action)
    requires CallbackInv(s) && Enabled(s, a)
    ensures CallbackInv(Step(s, a))
  {
    if a.CallAct? {
      assert forall i :: 0 <= i < |s.calls| && i != a.call ==> Step(s, a).calls[i] == s.calls[i];
    }
  }

  lemma {:induction false} RunKeepsCallback(s: State, run: seq<Action>)
    requires CallbackInv(s) && CanRun(s, run)
    ensures CallbackInv(RunFrom(s, run))
    decreases run
  {
    if run != [] {
      StepKeepsCallback(s, run[0]);
      RunKeepsCallback(Step(s, run[0]), run[1..]);
    }
  }

  /** A call of OnMqttMessage made by the user's callback returns before the callback does: wherever the
      dispatcher thread stands outside the callback, every such call has returned. */
  lemma CallbackEndsWithItsCalls(s: State)
    requires Reachable(s)
    ensures forall i :: 0 <= i < |s.calls| && s.calls[i].inCallback && !s.calls[i].pc.Returned() ==>
              s.worker.WInCallback?
  {
    var variant, run :| CanRun(Init(variant), run) && RunFrom(Init(variant), run) == s;
    RunKeepsCallback(Init(variant), run);
  }
}
