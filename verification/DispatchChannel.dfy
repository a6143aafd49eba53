/**
 The interleaved dispatch queue is an atomic first-in first-out channel: each message goes through
 once, in push order, and a call that returned before another began is served first.
 */
module DispatchChannel {
  import opened DispatchModel
  import opened DispatchInvariant
  import opened Sums

  // ---- Accounting ----

  lemma ExactlyOnceInOrder(s: State)
    requires Reachable(s)
    ensures s.pushed == s.delivered + s.worker.InFlight() + s.queue
    ensures NoDuplicates(s.pushed) && NoDuplicates(s.delivered)
    ensures s.delivered <= s.pushed
    ensures forall i: nat :: i in s.pushed <==> i < |s.calls| && s.calls[i].pc.HasPushed()
  {
    ReachableInv(s);
    assert forall k :: 0 <= k < |s.delivered| ==> s.delivered[k] == s.pushed[k];
  }

  // ---- Refinement ----

  /** The specification: a channel that sends and receives in one indivisible step each. */
  datatype Channel = Channel(sent: seq<nat>, received: nat) {
    function Send(i: nat): Channel {
      Channel(sent + [i], received)
    }

    predicate CanReceive(i: nat) {
      received < |sent| && sent[received] == i
    }

    function Receive(): Channel {
      Channel(sent, received + 1)
    }
  }

  function Abstract(s: State): Channel {
    Channel(s.pushed, |s.delivered|)
  }

  /** Call i's push is the send, the start of the user callback is the receive of the next unreceived
      message, and every other action of every thread leaves the channel alone. */
  lemma StepRefinesChannel(s: State, a: Action)
    requires Reachable(s) && Enabled(s, a)
    ensures |s.delivered| <= |s.pushed|
    ensures s.delivered == Abstract(s).sent[..Abstract(s).received]
    ensures a.CallAct? && s.calls[a.call].pc.CPush? ==>
              a.call !in s.pushed && Abstract(Step(s, a)) == Abstract(s).Send(a.call)
    ensures a.WorkerAct? && s.worker.WDeliver? ==>
              Abstract(s).CanReceive(s.worker.msg) && Abstract(Step(s, a)) == Abstract(s).Receive()
    ensures !(a.CallAct? && s.calls[a.call].pc.CPush?) && !(a.WorkerAct? && s.worker.WDeliver?) ==>
              Abstract(Step(s, a)) == Abstract(s)
  {
    ReachableInv(s);
  }

  // ---- Order between calls ----

  ghost predicate Before(xs: seq<nat>, i: nat, j: nat) {
    exists p, q :: 0 <= p < q < |xs| && xs[p] == i && xs[q] == j
  }

  lemma {:induction false} HistoriesGrow(s: State, run: seq<Action>)
    requires CanRun(s, run)
    ensures s.pushed <= RunFrom(s, run).pushed && s.delivered <= RunFrom(s, run).delivered
    decreases run
  {
    if run != [] {
      HistoriesGrow(Step(s, run[0]), run[1..]);
    }
  }

  /** A call that has returned after pushing is served before any call that begins later, whichever
      threads make them: in particular one thread's messages stay in that thread's order. */
  lemma EarlierCallFirst(s: State, i: nat, run: seq<Action>, j: nat)
    requires Reachable(s) && i < |s.calls| && s.calls[i].pc.CDone?
    requires CanRun(s, run) && |s.calls| <= j
    ensures j in RunFrom(s, run).delivered ==> Before(RunFrom(s, run).delivered, i, j)
  {
    var t := RunFrom(s, run);
    ReachableOn(s, run);
    ReachableInv(s);
    ReachableInv(t);
    HistoriesGrow(s, run);
    if j in t.delivered {
      var p :| 0 <= p < |s.pushed| && s.pushed[p] == i;
      var q :| 0 <= q < |t.delivered| && t.delivered[q] == j;
      assert t.pushed[p] == i && t.pushed[q] == j;
      assert j !in s.pushed;
      assert q >= |s.pushed|;
      assert t.delivered[p] == i;
    }
  }

  // ---- Wake-ups ----

  /** While the worker sleeps on a non-empty queue, some call has pushed and not yet notified. */
  lemma NoLostWakeUp(s: State)
    requires Reachable(s) && s.worker.WAsleep? && s.queue != []
    ensures exists i :: 0 <= i < |s.calls| && s.calls[i].pc.NotifyPending()
  {
    ReachableInv(s);
  }

  // ---- Critical sections ----

  /** The action of the thread that owns the mutex. */
  function OwnerAct(owner: Owner): Action
    requires !owner.Free?
  {
    match owner
    case HeldByCall(i) => CallAct(i)
    case HeldByWorker => WorkerAct
    case HeldByDestructor => DestructorAct
    case Free => WorkerAct
  }

  /** How many actions the owner still takes, at most, before the mutex is free. */
  function CriticalLeft(s: State): nat {
    match s.owner
    case Free => 0
    case HeldByCall(i) => if i < |s.calls| && s.calls[i].pc.CPush? then 2 else 1
    case HeldByDestructor => if s.dtor.DSetExit? || s.dtor.DCount? then 2 else 1
    case HeldByWorker =>
      match s.worker
      case WLoopTest => if s.exit then 2 else 5
      case WPredicate => 4
      case WCheck => 3
      case WPop => 2
      case _ => 1
  }

  lemma OwnerNeverBlocks(s: State)
    requires Inv(s) && !s.owner.Free?
    ensures Enabled(s, OwnerAct(s.owner))
    ensures var t := Step(s, OwnerAct(s.owner));
            t.owner.Free? || (t.owner == s.owner && CriticalLeft(t) < CriticalLeft(s))
  {
  }

  lemma OthersDoNotProlong(s: State, a: Action)
    requires Inv(s) && !s.owner.Free? && Enabled(s, a) && a != OwnerAct(s.owner)
    ensures Step(s, a).owner == s.owner && CriticalLeft(Step(s, a)) <= CriticalLeft(s)
  {
  }

  function Occurrences(run: seq<Action>, a: Action): nat {
    if run == [] then 0 else (if run[0] == a then 1 else 0) + Occurrences(run[1..], a)
  }

  /** Whatever the other threads do in between, the mutex is released by the time its owner has taken
      five actions; and the owner is never the worker while it sleeps or runs the user's callback.  So a
      callback that itself calls OnMqttMessage waits only for bounded critical sections of others. */
  lemma CriticalSectionsAreBounded(s: State, run: seq<Action>)
    requires Reachable(s) && !s.owner.Free? && CanRun(s, run)
    requires Occurrences(run, OwnerAct(s.owner)) >= 5
    ensures exists k :: 0 <= k <= |run| && CanRun(s, run[..k]) && RunFrom(s, run[..k]).owner.Free?
    ensures s.worker.WAsleep? || s.worker.WDeliver? || s.worker.WInCallback? ==> s.owner != HeldByWorker
  {
    ReachableInv(s);
    ReleasedWithin(s, run);
  }

  lemma {:induction false} ReleasedWithin(s: State, run: seq<Action>)
    requires Inv(s) && !s.owner.Free? && CanRun(s, run)
    requires Occurrences(run, OwnerAct(s.owner)) >= CriticalLeft(s)
    ensures exists k :: 0 <= k <= |run| && CanRun(s, run[..k]) && RunFrom(s, run[..k]).owner.Free?
    decreases run
  {
    OwnerNeverBlocks(s);
    if run != [] {
      var t := Step(s, run[0]);
      StepKeeps(s, run[0]);
      assert [run[0]][1..] == [];
      if t.owner.Free? {
        assert run[..1] == [run[0]];
        assert CanRun(t, []) && RunFrom(t, []) == t;
        assert CanRun(s, run[..1]) && RunFrom(s, run[..1]).owner.Free?;
      } else {
        if run[0] != OwnerAct(s.owner) {
          OthersDoNotProlong(s, run[0]);
        }
        ReleasedWithin(t, run[1..]);
        var k :| 0 <= k <= |run[1..]| && CanRun(t, run[1..][..k]) && RunFrom(t, run[1..][..k]).owner.Free?;
        assert run[..k + 1][1..] == run[1..][..k];
        assert CanRun(s, run[..k + 1]) && RunFrom(s, run[..k + 1]).owner.Free?;
      }
    }
  }
}
