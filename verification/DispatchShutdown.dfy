/**
 Shutdown of the dispatch queue: what the destructor's count means, how many callbacks still start, and
 exactly when the destructor can hang.
 */
module DispatchShutdown {
  import opened DispatchModel
  import opened DispatchInvariant
  import opened DispatchProgress
  import opened DispatchChannel
  import opened Sums

  // ---- The count ----

  /** The calls that have seen the exit flag unset and have not pushed. */
  function Racing(s: State): set<nat> {
    set i: nat | i < |s.calls| && (s.calls[i].pc.CLock? || s.calls[i].pc.CPush?)
  }

  /** The racing calls without those that have pushed by now. */
  function StillRacing(racing: set<nat>, pushed: seq<nat>): set<nat> {
    set i | i in racing && i !in pushed
  }

  function PushedNow(s: State, a: Action): seq<nat> {
    if a.CallAct? && CallEnabled(s, a.call) && s.calls[a.call].pc.CPush? then [a.call] else []
  }

  lemma StepAfterExit(s: State, a: Action)
    requires s.exit && Enabled(s, a)
    ensures Step(s, a).exit
    ensures Racing(Step(s, a)) <= Racing(s)
    ensures Step(s, a).pushed == s.pushed + PushedNow(s, a)
    ensures forall i :: i in PushedNow(s, a) ==> i in Racing(s)
  {
    var t := Step(s, a);
    if a.CallAct? {
      assert forall i: nat :: i < |t.calls| && i != a.call ==> t.calls[i] == s.calls[i];
    } else {
      assert forall i: nat :: i < |s.calls| ==> t.calls[i] == s.calls[i];
    }
  }

  /** After the exit flag is stored only racing calls push. */
  lemma {:induction false} OnlyRacersPush(s: State, run: seq<Action>)
    requires Inv(s) && s.exit && CanRun(s, run)
    ensures s.pushed <= RunFrom(s, run).pushed
    ensures forall k :: |s.pushed| <= k < |RunFrom(s, run).pushed| ==> RunFrom(s, run).pushed[k] in Racing(s)
    decreases run
  {
    if run != [] {
      var t := Step(s, run[0]);
      StepAfterExit(s, run[0]);
      StepKeeps(s, run[0]);
      OnlyRacersPush(t, run[1..]);
    }
  }

  /** Once counted, the count and the delivered messages stay as they are. */
  lemma {:induction false} CountedStays(s: State, run: seq<Action>)
    requires Inv(s) && s.dtor.Counted() && CanRun(s, run)
    ensures RunFrom(s, run).num == s.num && RunFrom(s, run).delivered == s.delivered
    decreases run
  {
    if run != [] {
      StepKeeps(s, run[0]);
      CountedStays(Step(s, run[0]), run[1..]);
    }
  }

  /** In a run that stores the exit flag in state e, counts in state c and goes on to any state t: the
      count is what had been pushed and not delivered in c; nothing is delivered after it; and the
      messages pushed after it all belong to calls that were racing in e and had not pushed in c, one
      message each, never delivered. */
  lemma ShutdownAccounting(e: State, during: seq<Action>, c: State, after: seq<Action>, t: State)
    requires Reachable(e) && e.dtor.DSetExit?
    requires CanRun(Step(e, DestructorAct), during) && RunFrom(Step(e, DestructorAct), during) == c
    requires c.dtor.DCount?
    requires CanRun(Step(c, DestructorAct), after) && RunFrom(Step(c, DestructorAct), after) == t
    ensures t.num == |c.pushed| - |c.delivered|
    ensures t.delivered == c.delivered <= c.pushed <= t.pushed
    ensures forall k :: |c.pushed| <= k < |t.pushed| ==>
              t.pushed[k] in Racing(e) && t.pushed[k] !in c.pushed && t.pushed[k] !in t.delivered
    ensures |t.pushed| - |c.pushed| <= |StillRacing(Racing(e), c.pushed)|
  {
    ReachableInv(e);
    DestructorKeeps(e);
    var e' := Step(e, DestructorAct);
    assert Racing(e') == Racing(e);
    RunKeeps(e', during);
    OnlyRacersPush(e', during);
    DestructorKeeps(c);
    var c' := Step(c, DestructorAct);
    RunKeeps(c', after);
    CountedStays(c', after);
    HistoriesGrow(c', after);
    RunAppend(e', during, [DestructorAct] + after) by {
      assert ([DestructorAct] + after)[1..] == after;
    }
    assert ([DestructorAct] + after)[1..] == after;
    OnlyRacersPush(e', during + ([DestructorAct] + after));
    assert forall k :: |c.pushed| <= k < |t.pushed| ==> t.pushed[k] in Racing(e);
    LatePushes(c.pushed, t.pushed, Racing(e));
    assert forall k :: 0 <= k < |c.delivered| ==> c.delivered[k] == c.pushed[k];
  }

  lemma LatePushes(early: seq<nat>, all: seq<nat>, racing: set<nat>)
    requires NoDuplicates(all) && early <= all
    requires forall k :: |early| <= k < |all| ==> all[k] in racing
    ensures forall k :: |early| <= k < |all| ==> all[k] !in early
    ensures |all| - |early| <= |StillRacing(racing, early)|
  {
    var late := all[|early|..];
    assert forall k :: 0 <= k < |early| ==> early[k] == all[k];
    assert forall k :: 0 <= k < |late| ==> late[k] == all[|early| + k];
    DistinctFit(late, StillRacing(racing, early));
  }

  // ---- Callbacks after exit ----

  /** The worker has passed its last look at the exit flag before the next user callback. */
  function CallbackDue(worker: WorkerPc): nat {
    if worker.WPop? || worker.WUnlock? || worker.WDeliver? then 1 else 0
  }

  lemma {:induction false} CallbacksDueStay(s: State, run: seq<Action>)
    requires Inv(s) && s.exit && CanRun(s, run)
    ensures |RunFrom(s, run).delivered| + CallbackDue(RunFrom(s, run).worker) == |s.delivered| + CallbackDue(s.worker)
    decreases run
  {
    if run != [] {
      StepKeeps(s, run[0]);
      CallbacksDueStay(Step(s, run[0]), run[1..]);
    }
  }

  /** From the store of the exit flag in state e on, at most one user callback starts; whether it does is
      decided by where the worker stands in e, and by the time the worker has ended it has started. */
  lemma AtMostOneMoreCallback(e: State, run: seq<Action>)
    requires Reachable(e) && e.dtor.DSetExit? && CanRun(Step(e, DestructorAct), run)
    ensures var t := RunFrom(Step(e, DestructorAct), run);
            && |t.delivered| <= |e.delivered| + CallbackDue(e.worker) <= |e.delivered| + 1
            && (t.worker.WDone? ==> |t.delivered| == |e.delivered| + CallbackDue(e.worker))
  {
    ReachableInv(e);
    DestructorKeeps(e);
    CallbacksDueStay(Step(e, DestructorAct), run);
  }

  // ---- When the destructor hangs ----

  /** The worker sleeps although the exit flag is stored and notify_all is over. */
  ghost predicate MissedExit(s: State) {
    s.worker.WAsleep? && s.exit && s.dtor.NotifiedAll()
  }

  lemma {:induction false} NoMissWithoutCommit(s: State, run: seq<Action>)
    requires s.exit && !s.worker.WCommit? && !MissedExit(s) && CanRun(s, run)
    ensures !MissedExit(RunFrom(s, run))
    decreases run
  {
    if run != [] {
      NoMissWithoutCommit(Step(s, run[0]), run[1..]);
    }
  }

  /** The run in which notify_all finds the worker still on its way to sleep. */
  lemma NotifyThenSleep(s: State) returns (run: seq<Action>)
    requires s.worker.WCommit? && s.dtor.DNotifyAll?
    ensures run == [DestructorAct, WorkerAct]
    ensures CanRun(s, run) && RunFrom(s, run) == s.(owner := Free, worker := WAsleep, dtor := DJoin)
  {
    var s1 := Step(s, DestructorAct);
    RunOne(s1, WorkerAct, []);
    RunOne(s, DestructorAct, [WorkerAct] + []);
    run := [DestructorAct] + ([WorkerAct] + []);
  }

  /** When notify_all is about to be called, the worker can still miss the exit exactly when it stands
      between a false predicate and sleeping. */
  lemma MissedExitIff(s: State)
    requires Reachable(s) && s.dtor.DNotifyAll?
    ensures (exists run :: CanRun(s, run) && MissedExit(RunFrom(s, run))) <==> s.worker.WCommit?
  {
    ReachableInv(s);
    if s.worker.WCommit? {
      var run := NotifyThenSleep(s);
      assert MissedExit(RunFrom(s, run));
    } else {
      forall run | CanRun(s, run) ensures !MissedExit(RunFrom(s, run)) {
        NoMissWithoutCommit(s, run);
      }
    }
  }

  /** A run of the program as written that ends hung, with no message and no call involved. */
  lemma HangExists() returns (run: seq<Action>)
    ensures CanRun(Init(AsWritten), run) && Hung(RunFrom(Init(AsWritten), run))
  {
    var s0 := Init(AsWritten);
    var s1 := s0.(owner := HeldByWorker, worker := WLoopTest);
    var s2 := s1.(worker := WPredicate);
    var s3 := s2.(worker := WCommit);
    var s4 := s3.(dtor := DSetExit);
    var s5 := s4.(exit := true, dtor := DNotifyAll);
    run := NotifyThenSleep(s5);
    RunOne(s4, DestructorAct, run);
    run := [DestructorAct] + run;
    RunOne(s3, Destroy, run);
    run := [Destroy] + run;
    RunOne(s2, WorkerAct, run);
    run := [WorkerAct] + run;
    RunOne(s1, WorkerAct, run);
    run := [WorkerAct] + run;
    RunOne(s0, WorkerAct, run);
    run := [WorkerAct] + run;
  }

  // A call that is past the exit test but not yet holding the mutex rescues the worker.

  /** Call i will notify while the worker sleeps, or the worker no longer needs it. */
  ghost predicate Rescued(s: State, i: nat) {
    && s.exit && i < |s.calls|
    && (s.worker.WCommit? ==> s.calls[i].pc.CLock?)
    && (s.worker.WAsleep? ==> !s.calls[i].pc.Returned())
    && !s.calls[i].pc.CTest?
  }

  lemma RescuedStep(s: State, i: nat, a: Action)
    requires MutexInv(s) && Rescued(s, i) && Enabled(s, a)
    ensures Rescued(Step(s, a), i)
  {
    match a
    case CallAct(j) => assert j != i ==> Step(s, a).calls[i] == s.calls[i];
    case WorkerAct =>
    case _ =>
  }

  lemma {:induction false} RescuedStays(s: State, i: nat, run: seq<Action>)
    requires Inv(s) && Rescued(s, i) && CanRun(s, run)
    ensures Rescued(RunFrom(s, run), i)
    decreases run
  {
    if run != [] {
      StepKeeps(s, run[0]);
      RescuedStep(s, i, run[0]);
      RescuedStays(Step(s, run[0]), i, run[1..]);
    }
  }

  /** The calls still on their way, while the worker holds the mutex and the flag is stored. */
  function Unfinished(c: Call): nat {
    if c.pc.Returned() then 0 else 1
  }

  /** Lets every call that needs no mutex return. */
  lemma {:induction false} LetCallsReturn(s: State) returns (run: seq<Action>)
    requires Inv(s) && s.exit && s.worker.WCommit?
    requires forall i :: 0 <= i < |s.calls| ==> !s.calls[i].pc.CLock?
    ensures CanRun(s, run)
    ensures RunFrom(s, run).worker == s.worker && RunFrom(s, run).dtor == s.dtor && RunFrom(s, run).exit
    ensures AllReturned(RunFrom(s, run)) && Inv(RunFrom(s, run))
    decreases Sum(s.calls, Unfinished)
  {
    if AllReturned(s) {
      run := [];
    } else {
      var i :| 0 <= i < |s.calls| && !s.calls[i].pc.Returned();
      assert s.owner == HeldByWorker;
      var t := Step(s, CallAct(i));
      CallKeeps(s, i);
      SumUpdate(s.calls, i, t.calls[i], Unfinished);
      assert t.calls == s.calls[i := t.calls[i]];
      var rest := LetCallsReturn(t);
      run := [CallAct(i)] + rest;
      assert run[1..] == rest;
    }
  }

  /** When notify_all is about to be called, the destructor can hang exactly when the worker is about to
      sleep and no call is waiting for the mutex with the exit test behind it: such a call would notify
      the sleeping worker. */
  lemma HangPossibleIff(s: State)
    requires Reachable(s) && s.dtor.DNotifyAll?
    ensures (exists run :: CanRun(s, run) && Hung(RunFrom(s, run))) <==>
            s.worker.WCommit? && forall i :: 0 <= i < |s.calls| ==> !s.calls[i].pc.CLock?
  {
    ReachableInv(s);
    if s.worker.WCommit? && forall i :: 0 <= i < |s.calls| ==> !s.calls[i].pc.CLock? {
      var first := LetCallsReturn(s);
      var t := RunFrom(s, first);
      var last := NotifyThenSleep(t);
      RunAppend(s, first, last);
      assert Hung(RunFrom(s, first + last));
    } else {
      forall run | CanRun(s, run) ensures !Hung(RunFrom(s, run)) {
        if s.worker.WCommit? {
          var i :| 0 <= i < |s.calls| && s.calls[i].pc.CLock?;
          RescuedStays(s, i, run);
        } else {
          NoMissWithoutCommit(s, run);
          RunKeeps(s, run);
        }
      }
    }
  }

  // The same seen from the call of the destructor.

  /** Nothing but calls, worker and destructor moving on. */
  ghost predicate Undisturbed(run: seq<Action>) {
    forall a :: a in run ==> !a.Begin? && !a.Spurious?
  }

  /** Nothing to do, whether or not the destructor has been called. */
  ghost predicate AtRest(s: State) {
    AllReturned(s) && s.worker.WAsleep?
  }

  /** Before the exit flag is stored, a queue not at rest can move on without coming to rest, unless the
      worker is about to sleep with every call returned. */
  lemma KeepBusy(s: State) returns (a: Action)
    requires Inv(s) && s.dtor.DSetExit? && s.variant.AsWritten?
    requires !AtRest(s) && !(s.worker.WCommit? && AllReturned(s))
    ensures Enabled(s, a) && (a.CallAct? || a.WorkerAct?) && !AtRest(Step(s, a))
  {
    if AllReturned(s) {
      a := WorkerAct;
    } else {
      var i :| 0 <= i < |s.calls| && !s.calls[i].pc.Returned();
      if CallEnabled(s, i) {
        a := CallAct(i);
        var t := Step(s, a);
        assert t.calls[i].pc.Returned() ==> t.worker == Woken(s.worker);
      } else {
        OwnerNeverBlocks(s);
        a := OwnerAct(s.owner);
        assert Step(s, a).calls[i] == s.calls[i];
      }
    }
  }

  /** Steers a queue that is not at rest, its destructor just called, to where the worker is about to sleep
      and every call has returned. */
  lemma {:induction false} ReachCommit(s: State) returns (run: seq<Action>)
    requires Inv(s) && s.dtor.DSetExit? && s.variant.AsWritten? && !AtRest(s)
    ensures Undisturbed(run) && CanRun(s, run)
    ensures var t := RunFrom(s, run); t.dtor.DSetExit? && t.variant.AsWritten? && t.worker.WCommit? && AllReturned(t)
    decreases Budget(s)
  {
    if s.worker.WCommit? && AllReturned(s) {
      run := [];
    } else {
      var a := KeepBusy(s);
      StepSpends(s, a);
      StepKeeps(s, a);
      var rest := ReachCommit(Step(s, a));
      RunOne(s, a, rest);
      run := [a] + rest;
    }
  }

  /** The flag is stored and everybody notified while the worker is about to sleep. */
  lemma StoreIntoHang(s: State) returns (run: seq<Action>)
    requires s.dtor.DSetExit? && s.variant.AsWritten? && s.worker.WCommit? && AllReturned(s)
    ensures Undisturbed(run) && CanRun(s, run) && Hung(RunFrom(s, run))
  {
    var s1 := Step(s, DestructorAct);
    var rest := NotifyThenSleep(s1);
    RunOne(s, DestructorAct, rest);
    run := [DestructorAct] + rest;
  }

  /** All calls have returned, and the worker sleeps with notify_all ahead or cannot miss the exit any more. */
  ghost predicate Settled(s: State) {
    && AllReturned(s)
    && if s.worker.WAsleep? then
         s.dtor.DIdle? || s.dtor.DSetExit? || (s.dtor.DNotifyAll? && s.exit)
       else s.exit && !s.worker.WCommit?
  }

  lemma {:induction false} SettledNeverHangs(s: State, run: seq<Action>)
    requires s.variant.AsWritten? && Settled(s) && CanRun(s, run) && Undisturbed(run)
    ensures !Hung(RunFrom(s, run))
    decreases run
  {
    if run != [] {
      assert run[0] in run;
      SettledNeverHangs(Step(s, run[0]), run[1..]);
    }
  }

  /** What a caller can check: without new calls and spurious wake-ups, a destructor called in state s can
      hang exactly when the queue is not at rest in s.  It is safe to destroy a queue whose worker sleeps and
      whose calls have all returned, at once or later, and no other. */
  lemma DestructorCanHangIff(s: State)
    requires Reachable(s) && s.dtor.DIdle? && s.variant.AsWritten?
    ensures var t := Step(s, Destroy);
            (exists run :: Undisturbed(run) && CanRun(t, run) && Hung(RunFrom(t, run))) <==> !Quiet(s)
    ensures Quiet(s) ==> forall run :: Undisturbed(run) && CanRun(s, run) ==> !Hung(RunFrom(s, run))
  {
    ReachableInv(s);
    var t := Step(s, Destroy);
    if !Quiet(s) {
      DestroyKeeps(s);
      var first := ReachCommit(t);
      var last := StoreIntoHang(RunFrom(t, first));
      RunAppend(t, first, last);
      assert Undisturbed(first + last) && Hung(RunFrom(t, first + last));
    } else {
      forall run | Undisturbed(run) && CanRun(t, run) ensures !Hung(RunFrom(t, run)) {
        SettledNeverHangs(t, run);
      }
      forall run | Undisturbed(run) && CanRun(s, run) ensures !Hung(RunFrom(s, run)) {
        SettledNeverHangs(s, run);
      }
    }
  }

  /** One spurious wake-up takes even that away: a destructor called in any state can then hang. */
  lemma SpuriousWakeUpBringsHang(s: State)
    requires Reachable(s) && s.dtor.DIdle? && s.variant.AsWritten?
    ensures exists run: seq<Action> ::
              && (forall a :: a in run ==> !a.Begin?)
              && CanRun(Step(s, Destroy), run) && Hung(RunFrom(Step(s, Destroy), run))
  {
    ReachableInv(s);
    var t := Step(s, Destroy);
    if Quiet(s) {
      DestroyKeeps(s);
      SpuriousKeeps(t);
      var woken := Step(t, Spurious);
      var first := ReachCommit(woken);
      var last := StoreIntoHang(RunFrom(woken, first));
      RunAppend(woken, first, last);
      RunOne(t, Spurious, first + last);
      assert forall a :: a in [Spurious] + (first + last) ==> !a.Begin?;
    } else {
      DestructorCanHangIff(s);
    }
  }

  /** With the flag stored while holding the mutex, a sleeping worker always has its notify_all still to
      come once the flag is stored, and no run hangs. */
  lemma StoringUnderMutexNeverHangs(s: State)
    requires Reachable(s) && s.variant.ExitUnderMutex?
    ensures s.worker.WAsleep? && s.exit ==> s.dtor.DExitUnlock? || s.dtor.DNotifyAll?
    ensures !MissedExit(s) && !Hung(s)
  {
    ReachableInv(s);
  }
}
