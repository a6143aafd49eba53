/**
 The Mosquitto library is initialised by the first client and cleaned up by the last: a counter shared by
 all constructors and destructors, changed under a mutex.  Any number of clients are constructed and
 destroyed in any interleaving; a constructor may throw while initialising the library or later, and a
 client whose constructor threw is never destroyed.
 */
module LibraryLifecycle {
  import opened Options
  import opened Sums

  const WRAP: nat := 0x1_0000_0000

  /** Where the constructor or destructor of a client stands. */
  datatype ClientPc =
    | CtorLock | CtorCount | CtorInit | CtorUnlock | CtorFailed | CtorBody | Live | Aborted
    | DtorLock | DtorCount | DtorCleanup | DtorUnlock | Destroyed
  {
    predicate Holds() {
      CtorCount? || CtorInit? || CtorUnlock? || CtorFailed? || DtorCount? || DtorCleanup? || DtorUnlock?
    }

    /** Uses the library: past the locked part of the constructor and not past that of the destructor. */
    predicate InUse() {
      CtorBody? || Live? || DtorLock? || DtorCount?
    }
  }

  datatype Event = InitOk | InitFailed | Cleanup

  datatype State = State(
    libMutex: Option<nat>,
    counter: nat,
    clients: seq<ClientPc>,
    events: seq<Event>)     // history: what the library was asked to do

  /** Construct: a constructor is entered.  Destroy: the destructor of a live client is.  Act: client i
      takes its next action; ok says whether a library call or the rest of the constructor succeeds. */
  datatype Action = Construct | Destroy(client: nat) | Act(client: nat, ok: bool)

  function Init(): State {
    State(None, 0, [], [])
  }

  function FetchAdd(counter: nat): nat {
    (counter + 1) % WRAP
  }

  function FetchSub(counter: nat): nat {
    if counter == 0 then WRAP - 1 else counter - 1
  }

  function Move(s: State, i: nat, pc: ClientPc): State
    requires i < |s.clients|
  {
    s.(clients := s.clients[i := pc])
  }

  predicate Enabled(s: State, a: Action) {
    match a
    case Construct => true
    case Destroy(i) => i < |s.clients| && s.clients[i].Live?
    case Act(i, _) =>
      && i < |s.clients|
      && !s.clients[i].Live? && !s.clients[i].Aborted? && !s.clients[i].Destroyed?
      && (s.clients[i].CtorLock? || s.clients[i].DtorLock? ==> s.libMutex.None?)
  }

  function ActStep(s: State, i: nat, ok: bool): State
    requires Enabled(s, Act(i, ok))
  {
    match s.clients[i]
    case CtorLock => Move(s, i, CtorCount).(libMutex := Some(i))
    case CtorCount => Move(s, i, if s.counter == 0 then CtorInit else CtorUnlock).(counter := FetchAdd(s.counter))
    case CtorInit =>
      if ok then Move(s, i, CtorUnlock).(events := s.events + [InitOk])
      else Move(s, i, CtorFailed).(events := s.events + [InitFailed])
    case CtorUnlock => Move(s, i, CtorBody).(libMutex := None)
    case CtorFailed => Move(s, i, Aborted).(libMutex := None)
    case CtorBody => Move(s, i, if ok then Live else Aborted)
    case DtorLock => Move(s, i, DtorCount).(libMutex := Some(i))
    case DtorCount => Move(s, i, if s.counter == 1 then DtorCleanup else DtorUnlock).(counter := FetchSub(s.counter))
    case DtorCleanup => Move(s, i, DtorUnlock).(events := s.events + [Cleanup])
    case DtorUnlock => Move(s, i, Destroyed).(libMutex := None)
    case _ => s
  }

  function Step(s: State, a: Action): State
    requires Enabled(s, a)
  {
    match a
    case Construct => s.(clients := s.clients + [CtorLock])
    case Destroy(i) => Move(s, i, DtorLock)
    case Act(i, ok) => ActStep(s, i, ok)
  }

  predicate CanRun(s: State, run: seq<Action>)
    decreases run
  {
    run == [] || (Enabled(s, run[0]) && CanRun(Step(s, run[0]), run[1..]))
  }

  function RunFrom(s: State, run: seq<Action>): State
    requires CanRun(s, run)
    decreases run
  {
    if run == [] then s else RunFrom(Step(s, run[0]), run[1..])
  }

  // ---- The counter ----

  /** Clients that have been added to the counter and not taken off it, the aborted ones included. */
  function Counted(pc: ClientPc): nat {
    if pc.CtorLock? || pc.CtorCount? || pc.DtorCleanup? || pc.DtorUnlock? || pc.Destroyed? then 0 else 1
  }

  function Users(s: State): nat {
    Sum(s.clients, Counted)
  }

  ghost predicate MutexInv(s: State) {
    && (forall i :: 0 <= i < |s.clients| ==> (s.clients[i].Holds() <==> s.libMutex == Some(i)))
    && (s.libMutex.Some? ==> s.libMutex.value < |s.clients|)
  }

  ghost predicate CounterInv(s: State) {
    MutexInv(s) && s.counter == Users(s) % WRAP
  }

  lemma StepKeepsMutex(s: State, a: Action)
    requires MutexInv(s) && Enabled(s, a)
    ensures MutexInv(Step(s, a))
  {
  }

  /** How an action changes the number of counted clients. */
  lemma StepUsers(s: State, a: Action)
    requires Enabled(s, a)
    ensures a.Construct? ==> Users(Step(s, a)) == Users(s)
    ensures !a.Construct? ==> Users(Step(s, a)) + Counted(s.clients[a.client]) ==
                              Users(s) + Counted(Step(s, a).clients[a.client])
  {
    var t := Step(s, a);
    if a.Construct? {
      SumAppend(s.clients, CtorLock, Counted);
    } else {
      SumUpdate(s.clients, a.client, t.clients[a.client], Counted);
      assert t.clients == s.clients[a.client := t.clients[a.client]];
    }
  }

  lemma Modular(n: nat)
    ensures FetchAdd(n % WRAP) == (n + 1) % WRAP
    ensures n > 0 ==> FetchSub(n % WRAP) == (n - 1) % WRAP
  {
  }

  lemma StepKeepsCounter(s: State, a: Action)
    requires CounterInv(s) && Enabled(s, a)
    ensures CounterInv(Step(s, a))
  {
    StepKeepsMutex(s, a);
    StepUsers(s, a);
    Modular(Users(s));
    if a.Act? {
      SumBounds(s.clients, a.client, Counted);
      match s.clients[a.client]
      case CtorCount => assert Users(Step(s, a)) == Users(s) + 1;
      case DtorCount => assert Users(Step(s, a)) == Users(s) - 1;
      case _ =>
    }
  }

  // ---- Initialisation and cleanup ----

  datatype Phase = Down | Up | Broken | Wrong

  /** Where a history leaves the library; anything but alternating initialisations and cleanups, with at
      most one failed initialisation at the very end, is wrong. */
  function PhaseOf(events: seq<Event>): Phase {
    if events == [] then Down
    else
      var before := PhaseOf(events[..|events| - 1]);
      match events[|events| - 1]
      case InitOk => if before.Down? then Up else Wrong
      case InitFailed => if before.Down? then Broken else Wrong
      case Cleanup => if before.Up? then Down else Wrong
  }

  lemma PhaseAppend(events: seq<Event>, e: Event)
    ensures PhaseOf(events + [e]) ==
            match e
            case InitOk => if PhaseOf(events).Down? then Up else Wrong
            case InitFailed => if PhaseOf(events).Down? then Broken else Wrong
            case Cleanup => if PhaseOf(events).Up? then Down else Wrong
  {
    assert (events + [e])[..|events|] == events;
  }

  ghost predicate OwnerAt(s: State, pc: ClientPc) {
    s.libMutex.Some? && s.libMutex.value < |s.clients| && s.clients[s.libMutex.value] == pc
  }

  ghost predicate SomeAborted(s: State) {
    exists i :: 0 <= i < |s.clients| && (s.clients[i].CtorFailed? || s.clients[i].Aborted?)
  }

  /** Holds up to the first initialisation of a library that is up: a client comes to initialise when it is
      the only one counted, or when 2^32 others have brought the counter round to zero. */
  ghost predicate PhaseInv(s: State) {
    if OwnerAt(s, CtorInit) then
      || (Users(s) == 1 && PhaseOf(s.events).Down?)
      || (Users(s) == WRAP + 1 && (PhaseOf(s.events).Up? || (PhaseOf(s.events).Broken? && SomeAborted(s))))
    else if OwnerAt(s, DtorCleanup) then Users(s) == 0 && PhaseOf(s.events).Up?
    else
      match PhaseOf(s.events)
      case Down => Users(s) == 0
      case Up => 0 < Users(s) <= WRAP
      case Broken => 0 < Users(s) <= WRAP && SomeAborted(s)
      case Wrong => false
  }

  ghost predicate Inv(s: State) {
    CounterInv(s) && PhaseInv(s)
  }

  lemma OthersStay(s: State, a: Action, i: nat)
    requires Enabled(s, a) && i < |s.clients| && (a.Construct? || a.client != i)
    ensures i < |Step(s, a).clients| && Step(s, a).clients[i] == s.clients[i]
  {
  }

  lemma AbortedStays(s: State, a: Action)
    requires Enabled(s, a) && SomeAborted(s)
    ensures SomeAborted(Step(s, a))
  {
    var i :| 0 <= i < |s.clients| && (s.clients[i].CtorFailed? || s.clients[i].Aborted?);
    var t := Step(s, a);
    if a.Construct? || a.client != i {
      OthersStay(s, a, i);
      assert t.clients[i].CtorFailed? || t.clients[i].Aborted?;
    } else {
      assert a.Act? && s.clients[i].CtorFailed?;
      assert t.clients[i].Aborted?;
    }
  }

  lemma AbortedIsCounted(s: State)
    requires SomeAborted(s)
    ensures Users(s) > 0
  {
    var i :| 0 <= i < |s.clients| && (s.clients[i].CtorFailed? || s.clients[i].Aborted?);
    SumBounds(s.clients, i, Counted);
  }

  /** The library is initialised, or that fails. */
  lemma InitKeepsPhase(s: State, i: nat, ok: bool)
    requires Inv(s) && Enabled(s, Act(i, ok)) && s.clients[i].CtorInit?
    ensures if Users(s) > WRAP then PhaseOf(ActStep(s, i, ok).events).Wrong? else PhaseInv(ActStep(s, i, ok))
  {
    var t := ActStep(s, i, ok);
    StepUsers(s, Act(i, ok));
    PhaseAppend(s.events, if ok then InitOk else InitFailed);
    assert t.clients[i] == if ok then CtorUnlock else CtorFailed;
  }

  /** The counter goes up or down. */
  lemma CountKeepsPhase(s: State, i: nat, ok: bool)
    requires Inv(s) && Enabled(s, Act(i, ok))
    requires s.clients[i].CtorCount? || s.clients[i].DtorCount?
    ensures PhaseInv(ActStep(s, i, ok))
  {
    var t := ActStep(s, i, ok);
    StepUsers(s, Act(i, ok));
    SumBounds(s.clients, i, Counted);
    if SomeAborted(s) {
      AbortedStays(s, Act(i, ok));
      AbortedIsCounted(t);
    }
  }

  /** The library is cleaned up, or the mutex is released. */
  lemma LeaveKeepsPhase(s: State, i: nat, ok: bool)
    requires Inv(s) && Enabled(s, Act(i, ok)) && s.clients[i].Holds()
    requires !s.clients[i].CtorInit? && !s.clients[i].CtorCount? && !s.clients[i].DtorCount?
    ensures PhaseInv(ActStep(s, i, ok))
  {
    StepUsers(s, Act(i, ok));
    PhaseAppend(s.events, Cleanup);
    if SomeAborted(s) {
      AbortedStays(s, Act(i, ok));
    }
  }

  /** A client outside its critical section moves, or a new one appears. */
  lemma OtherKeepsPhase(s: State, a: Action)
    requires Inv(s) && Enabled(s, a) && (a.Act? ==> !s.clients[a.client].Holds())
    ensures PhaseInv(Step(s, a))
  {
    var t := Step(s, a);
    StepUsers(s, a);
    if SomeAborted(s) {
      AbortedStays(s, a);
    }
    assert t.events == s.events && Users(t) == Users(s);
  }

  /** A client comes to initialise the library while 2^32 others are counted. */
  ghost predicate InitialisesAgain(s: State, a: Action) {
    a.Act? && a.client < |s.clients| && s.clients[a.client].CtorInit? && Users(s) > WRAP
  }

  lemma StepKeeps(s: State, a: Action)
    requires Inv(s) && Enabled(s, a)
    ensures if InitialisesAgain(s, a) then PhaseOf(Step(s, a).events).Wrong? else Inv(Step(s, a))
  {
    StepKeepsCounter(s, a);
    if a.Act? && s.clients[a.client].Holds() {
      var pc := s.clients[a.client];
      if pc.CtorInit? {
        InitKeepsPhase(s, a.client, a.ok);
      } else if pc.CtorCount? || pc.DtorCount? {
        CountKeepsPhase(s, a.client, a.ok);
      } else {
        LeaveKeepsPhase(s, a.client, a.ok);
      }
    } else {
      OtherKeepsPhase(s, a);
    }
  }

  /** Somewhere along the run a client initialises the library while 2^32 others are counted. */
  ghost predicate Overfills(s: State, run: seq<Action>)
    requires CanRun(s, run)
    decreases run
  {
    run != [] && (InitialisesAgain(s, run[0]) || Overfills(Step(s, run[0]), run[1..]))
  }

  lemma {:induction false} RunKeepsCounter(s: State, run: seq<Action>)
    requires CounterInv(s) && CanRun(s, run)
    ensures CounterInv(RunFrom(s, run))
    decreases run
  {
    if run != [] {
      StepKeepsCounter(s, run[0]);
      RunKeepsCounter(Step(s, run[0]), run[1..]);
    }
  }

  lemma StepKeepsWrong(s: State, a: Action)
    requires Enabled(s, a) && PhaseOf(s.events).Wrong?
    ensures PhaseOf(Step(s, a).events).Wrong?
  {
    PhaseAppend(s.events, InitOk);
    PhaseAppend(s.events, InitFailed);
    PhaseAppend(s.events, Cleanup);
  }

  lemma {:induction false} WrongStays(s: State, run: seq<Action>)
    requires PhaseOf(s.events).Wrong? && CanRun(s, run)
    ensures PhaseOf(RunFrom(s, run).events).Wrong?
    decreases run
  {
    if run != [] {
      StepKeepsWrong(s, run[0]);
      WrongStays(Step(s, run[0]), run[1..]);
    }
  }

  lemma {:induction false} RunKeeps(s: State, run: seq<Action>)
    requires Inv(s) && CanRun(s, run)
    ensures if Overfills(s, run) then PhaseOf(RunFrom(s, run).events).Wrong? else Inv(RunFrom(s, run))
    decreases run
  {
    if run != [] {
      StepKeeps(s, run[0]);
      if InitialisesAgain(s, run[0]) {
        WrongStays(Step(s, run[0]), run[1..]);
      } else {
        RunKeeps(Step(s, run[0]), run[1..]);
      }
    }
  }

  // ---- Main results ----

  /** In every run the counter is the number of counted clients, modulo 2^32: those being constructed past
      the increment, live, being destroyed before the decrement, or aborted. */
  lemma CounterCountsClients(run: seq<Action>)
    requires CanRun(Init(), run)
    ensures RunFrom(Init(), run).counter == Users(RunFrom(Init(), run)) % 0x1_0000_0000
  {
    RunKeepsCounter(Init(), run);
  }

  /** Initialisations and cleanups strictly alternate, no initialisation following a failed one, exactly in
      the runs in which no client initialises while 2^32 others are counted.  In those, a cleanup finds every
      client destroyed or being destroyed past the decrement, or not yet counted; and a client that uses the
      library finds it initialised exactly when no initialisation has failed. */
  lemma LibraryFollowsClients(run: seq<Action>)
    requires CanRun(Init(), run)
    ensures PhaseOf(RunFrom(Init(), run).events) != Wrong <==> !Overfills(Init(), run)
    ensures var s := RunFrom(Init(), run);
            !Overfills(Init(), run) ==>
              && (OwnerAt(s, DtorCleanup) ==>
                    !SomeAborted(s) && forall i :: 0 <= i < |s.clients| ==> !s.clients[i].InUse())
              && ((exists i :: 0 <= i < |s.clients| && s.clients[i].InUse()) ==>
                    (PhaseOf(s.events).Up? <==> InitFailed !in s.events))
  {
    var s := RunFrom(Init(), run);
    RunKeeps(Init(), run);
    if !Overfills(Init(), run) {
      if OwnerAt(s, DtorCleanup) {
        NothingCounted(s);
      }
      FailuresBreak(s.events);
      if i :| 0 <= i < |s.clients| && s.clients[i].InUse() {
        SumBounds(s.clients, i, Counted);
        if OwnerAt(s, CtorInit) {
          TwoCounted(s, i, s.libMutex.value);
        }
      }
    }
  }

  lemma NothingCounted(s: State)
    requires Users(s) == 0
    ensures !SomeAborted(s) && forall i :: 0 <= i < |s.clients| ==> !s.clients[i].InUse()
  {
    forall i | 0 <= i < |s.clients| ensures Counted(s.clients[i]) == 0 {
      SumBounds(s.clients, i, Counted);
    }
  }

  lemma TwoCounted(s: State, i: nat, j: nat)
    requires i < |s.clients| && j < |s.clients| && i != j
    requires Counted(s.clients[i]) == 1 && Counted(s.clients[j]) == 1
    ensures Users(s) >= 2
  {
    SumUpdate(s.clients, i, CtorLock, Counted);
    SumBounds(s.clients[i := CtorLock], j, Counted);
  }

  lemma {:induction false} FailuresBreak(events: seq<Event>)
    requires PhaseOf(events) != Wrong
    ensures PhaseOf(events).Broken? <==> InitFailed in events
  {
    if events != [] {
      FailuresBreak(events[..|events| - 1]);
      assert events == events[..|events| - 1] + [events[|events| - 1]];
    }
  }

  /** When no constructor or destructor is under way, the library is up exactly while some client is live
      or some constructor has thrown, no initialisation has failed, and the counter has not overflowed into
      a second initialisation: an aborted client keeps the library up for ever. */
  lemma AtRestUpIff(run: seq<Action>)
    requires CanRun(Init(), run)
    requires forall pc :: pc in RunFrom(Init(), run).clients ==> pc.Live? || pc.Aborted? || pc.Destroyed?
    ensures var s := RunFrom(Init(), run);
            PhaseOf(s.events).Up? <==>
            && InitFailed !in s.events && !Overfills(Init(), run)
            && exists i :: 0 <= i < |s.clients| && (s.clients[i].Live? || s.clients[i].Aborted?)
  {
    var s := RunFrom(Init(), run);
    RunKeeps(Init(), run);
    if !Overfills(Init(), run) {
      FailuresBreak(s.events);
      forall i | 0 <= i < |s.clients| ensures s.clients[i] in s.clients {
      }
      if i :| 0 <= i < |s.clients| && (s.clients[i].Live? || s.clients[i].Aborted?) {
        SumBounds(s.clients, i, Counted);
      } else {
        AllZero(s.clients);
      }
    }
  }

  lemma {:induction false} AllZero(pcs: seq<ClientPc>)
    requires forall i :: 0 <= i < |pcs| ==> Counted(pcs[i]) == 0
    ensures Sum(pcs, Counted) == 0
  {
    if pcs != [] {
      AllZero(pcs[1..]);
    }
  }

  // ---- What becomes of a client ----

  /** Its constructor is done and has not thrown: it is there, being destroyed or gone. */
  predicate Constructed(pc: ClientPc) {
    pc.Live? || pc.DtorLock? || pc.DtorCount? || pc.DtorCleanup? || pc.DtorUnlock? || pc.Destroyed?
  }

  /** Its constructor has thrown or is about to. */
  predicate Thrown(pc: ClientPc) {
    pc.CtorFailed? || pc.Aborted?
  }

  lemma {:induction false} FateStays(s: State, i: nat, run: seq<Action>)
    requires i < |s.clients| && CanRun(s, run)
    ensures i < |RunFrom(s, run).clients|
    ensures Constructed(s.clients[i]) ==> Constructed(RunFrom(s, run).clients[i])
    ensures Thrown(s.clients[i]) ==> Thrown(RunFrom(s, run).clients[i])
    ensures s.clients[i].Aborted? ==> RunFrom(s, run).clients[i].Aborted?
    decreases run
  {
    if run != [] {
      if run[0].Construct? || run[0].client != i {
        OthersStay(s, run[0], i);
      }
      FateStays(Step(s, run[0]), i, run[1..]);
    }
  }

  /** The rest of the constructor decides: if it throws, the client is aborted and stays so in every
      continuation, never to be destroyed; if not, the client is live, can be destroyed, and is never taken
      for aborted. */
  lemma ConstructorDecides(s: State, i: nat, ok: bool, run: seq<Action>)
    requires Enabled(s, Act(i, ok)) && s.clients[i].CtorBody?
    requires CanRun(ActStep(s, i, ok), run)
    ensures ok <==> Enabled(ActStep(s, i, ok), Destroy(i))
    ensures var t := RunFrom(ActStep(s, i, ok), run);
            && i < |t.clients|
            && (if ok then Constructed(t.clients[i]) else t.clients[i].Aborted? && !Enabled(t, Destroy(i)))
  {
    FateStays(ActStep(s, i, ok), i, run);
  }

  /** A failed initialisation decides too: the constructor throws, the client is never destroyed. */
  lemma FailedInitAborts(s: State, i: nat, run: seq<Action>)
    requires Enabled(s, Act(i, false)) && s.clients[i].CtorInit?
    requires CanRun(ActStep(s, i, false), run)
    ensures var t := RunFrom(ActStep(s, i, false), run);
            i < |t.clients| && (t.clients[i].CtorFailed? || t.clients[i].Aborted?) && !Enabled(t, Destroy(i))
  {
    FateStays(ActStep(s, i, false), i, run);
  }

  /** Once the rest of some constructor has thrown, the library is up in every later state, at rest or not,
      unless an initialisation has failed or the counter has overflowed into a second one. */
  lemma ThrowKeepsLibraryUp(before: seq<Action>, i: nat, after: seq<Action>)
    requires CanRun(Init(), before)
    requires i < |RunFrom(Init(), before).clients| && RunFrom(Init(), before).clients[i].CtorBody?
    requires CanRun(ActStep(RunFrom(Init(), before), i, false), after)
    ensures CanRun(Init(), before + ([Act(i, false)] + after))
    ensures var run := before + ([Act(i, false)] + after);
            !Overfills(Init(), run) && InitFailed !in RunFrom(Init(), run).events ==>
              PhaseOf(RunFrom(Init(), run).events).Up?
  {
    var s := RunFrom(Init(), before);
    var tail := [Act(i, false)] + after;
    assert tail[1..] == after;
    RunAppend(Init(), before, tail);
    var t := RunFrom(Init(), before + tail);
    ConstructorDecides(s, i, false, after);
    RunKeeps(Init(), before + tail);
    SumBounds(t.clients, i, Counted);
    if !Overfills(Init(), before + tail) && InitFailed !in t.events {
      FailuresBreak(t.events);
      if OwnerAt(t, CtorInit) {
        TwoCounted(t, i, t.libMutex.value);
      }
    }
  }

  /** An initialisation that fails leaves the counter at one, so the next client goes to work on a library
      that was never initialised. */
  lemma FailedInitIsNotRetried() returns (run: seq<Action>)
    ensures CanRun(Init(), run)
    ensures var s := RunFrom(Init(), run);
            |s.clients| == 2 && s.clients[0].Aborted? && s.clients[1].InUse() && s.events == [InitFailed]
  {
    var s0 := Init();
    var s1 := State(None, 0, [CtorLock], []);
    var s2 := State(Some(0), 0, [CtorCount], []);
    var s3 := State(Some(0), 1, [CtorInit], []);
    var s4 := State(Some(0), 1, [CtorFailed], [InitFailed]);
    var s5 := State(None, 1, [Aborted], [InitFailed]);
    var s6 := State(None, 1, [Aborted, CtorLock], [InitFailed]);
    var s7 := State(Some(1), 1, [Aborted, CtorCount], [InitFailed]);
    var s8 := State(Some(1), 2, [Aborted, CtorUnlock], [InitFailed]);
    var s9 := State(None, 2, [Aborted, CtorBody], [InitFailed]);
    run := RunOne(s8, Act(1, true), s9, []);
    run := RunOne(s7, Act(1, true), s8, run);
    run := RunOne(s6, Act(1, true), s7, run);
    run := RunOne(s5, Construct, s6, run);
    run := RunOne(s4, Act(0, true), s5, run);
    run := RunOne(s3, Act(0, false), s4, run);
    run := RunOne(s2, Act(0, true), s3, run);
    run := RunOne(s1, Act(0, true), s2, run);
    run := RunOne(s0, Construct, s1, run);
  }

  lemma RunOne(s: State, a: Action, t: State, rest: seq<Action>) returns (run: seq<Action>)
    requires Enabled(s, a) && Step(s, a) == t && CanRun(t, rest)
    ensures CanRun(s, run) && RunFrom(s, run) == RunFrom(t, rest)
  {
    run := [a] + rest;
    assert run[1..] == rest;
  }

  lemma {:induction false} RunAppend(s: State, first: seq<Action>, second: seq<Action>)
    requires CanRun(s, first) && CanRun(RunFrom(s, first), second)
    ensures CanRun(s, first + second)
    ensures RunFrom(s, first + second) == RunFrom(RunFrom(s, first), second)
    decreases first
  {
    if first == [] {
      assert first + second == second;
    } else {
      assert (first + second)[1..] == first[1..] + second;
      RunAppend(Step(s, first[0]), first[1..], second);
    }
  }

  // 2^32 live clients bring the counter round to zero.

  /** n live clients and one more on its way. */
  function Joining(mutex: Option<nat>, counter: nat, n: nat, pc: ClientPc, events: seq<Event>): State {
    State(mutex, counter, seq(n, _ => Live) + [pc], events)
  }

  function Crowd(n: nat): State {
    State(None, n % WRAP, seq(n, _ => Live), if n == 0 then [] else [InitOk])
  }

  lemma Joins(mutex: Option<nat>, counter: nat, n: nat, pc: ClientPc, events: seq<Event>, next: ClientPc)
    ensures Move(Joining(mutex, counter, n, pc, events), n, next) == Joining(mutex, counter, n, next, events)
  {
  }

  lemma OneMoreLive(n: nat)
    ensures seq(n, _ => Live) + [Live] == seq(n + 1, _ => Live)
  {
  }

  /** A client is constructed beside n live ones, up to the increment. */
  lemma Counts(n: nat, rest: seq<Action>) returns (run: seq<Action>)
    requires var next := if n % WRAP == 0 then CtorInit else CtorUnlock;
             CanRun(Joining(Some(n), (n + 1) % WRAP, n, next, Crowd(n).events), rest)
    ensures var next := if n % WRAP == 0 then CtorInit else CtorUnlock;
            CanRun(Crowd(n), run) &&
            RunFrom(Crowd(n), run) == RunFrom(Joining(Some(n), (n + 1) % WRAP, n, next, Crowd(n).events), rest)
  {
    var events := Crowd(n).events;
    var next := if n % WRAP == 0 then CtorInit else CtorUnlock;
    var s1 := Joining(None, n % WRAP, n, CtorLock, events);
    var s2 := Joining(Some(n), n % WRAP, n, CtorCount, events);
    var s3 := Joining(Some(n), (n + 1) % WRAP, n, next, events);
    Modular(n);
    Joins(None, n % WRAP, n, CtorLock, events, CtorCount);
    Joins(Some(n), n % WRAP, n, CtorCount, events, next);
    run := RunOne(s2, Act(n, true), s3, rest);
    run := RunOne(s1, Act(n, true), s2, run);
    run := RunOne(Crowd(n), Construct, s1, run);
  }

  /** It goes on until it is live. */
  lemma BecomesLive(n: nat) returns (run: seq<Action>)
    ensures var s := Joining(Some(n), (n + 1) % WRAP, n, CtorUnlock, [InitOk]);
            CanRun(s, run) && RunFrom(s, run) == Crowd(n + 1)
  {
    var s1 := Joining(Some(n), (n + 1) % WRAP, n, CtorUnlock, [InitOk]);
    var s2 := Joining(None, (n + 1) % WRAP, n, CtorBody, [InitOk]);
    Joins(Some(n), (n + 1) % WRAP, n, CtorUnlock, [InitOk], CtorBody);
    Joins(None, (n + 1) % WRAP, n, CtorBody, [InitOk], Live);
    OneMoreLive(n);
    run := RunOne(s2, Act(n, true), Crowd(n + 1), []);
    run := RunOne(s1, Act(n, true), s2, run);
  }

  /** The client that comes to initialise does so. */
  lemma Initialises(n: nat, rest: seq<Action>) returns (run: seq<Action>)
    requires CanRun(Joining(Some(n), (n + 1) % WRAP, n, CtorUnlock, Crowd(n).events + [InitOk]), rest)
    ensures var s := Joining(Some(n), (n + 1) % WRAP, n, CtorInit, Crowd(n).events);
            CanRun(s, run) &&
            RunFrom(s, run) ==
            RunFrom(Joining(Some(n), (n + 1) % WRAP, n, CtorUnlock, Crowd(n).events + [InitOk]), rest)
  {
    Joins(Some(n), (n + 1) % WRAP, n, CtorInit, Crowd(n).events, CtorUnlock);
    run := RunOne(Joining(Some(n), (n + 1) % WRAP, n, CtorInit, Crowd(n).events), Act(n, true),
                  Joining(Some(n), (n + 1) % WRAP, n, CtorUnlock, Crowd(n).events + [InitOk]), rest);
  }

  lemma OneMore(n: nat) returns (run: seq<Action>)
    requires n < WRAP
    ensures CanRun(Crowd(n), run) && RunFrom(Crowd(n), run) == Crowd(n + 1)
  {
    run := BecomesLive(n);
    if n == 0 {
      assert Crowd(0).events + [InitOk] == [InitOk];
      run := Initialises(0, run);
    }
    run := Counts(n, run);
  }

  lemma {:induction false} CrowdGathers(n: nat) returns (run: seq<Action>)
    requires n <= WRAP
    ensures CanRun(Init(), run) && RunFrom(Init(), run) == Crowd(n)
  {
    if n == 0 {
      run := [];
    } else {
      var before := CrowdGathers(n - 1);
      var joining := OneMore(n - 1);
      RunAppend(Init(), before, joining);
      run := before + joining;
    }
  }

  /** The next constructor initialises the library a second time, under 2^32 live clients. */
  lemma OverfillingInitialisesTwice() returns (run: seq<Action>)
    ensures CanRun(Init(), run) && Overfills(Init(), run)
    ensures var s := RunFrom(Init(), run);
            && s.events == [InitOk, InitOk] && |s.clients| == 0x1_0000_0001
            && forall i :: 0 <= i < 0x1_0000_0000 ==> s.clients[i].Live?
  {
    var before := CrowdGathers(WRAP);
    var last := Initialises(WRAP, []);
    last := Counts(WRAP, last);
    RunAppend(Init(), before, last);
    run := before + last;
    PhaseAppend([], InitOk);
    PhaseAppend([InitOk], InitOk);
    assert [] + [InitOk] == [InitOk] && [InitOk] + [InitOk] == [InitOk, InitOk];
    LibraryFollowsClients(run);
  }

  /** The static state the clients share, updated in place by their constructors and destructors. */
  class SharedLibrary {
    var libMutex: Option<nat>
    var counter: nat
    var clients: seq<ClientPc>
    ghost var events: seq<Event>

    ghost function View(): State
      reads this
    {
      State(libMutex, counter, clients, events)
    }

    constructor ()
      ensures View() == Init()
    {
      libMutex, counter, clients := None, 0, [];
      events := [];
    }

    method EnterConstructor() returns (client: nat)
      modifies this`clients
      ensures client == |old(clients)| && View() == Step(old(View()), Construct)
    {
      client := |clients|;
      clients := clients + [CtorLock];
    }

    method EnterDestructor(client: nat)
      requires Enabled(View(), Destroy(client))
      modifies this`clients
      ensures View() == Step(old(View()), Destroy(client))
    {
      clients := clients[client := DtorLock];
    }

    /** The next action of a constructor or destructor; ok is what the library call, or the part of the
        constructor that concerns its own instance, reports. */
    method Act(client: nat, ok: bool)
      requires Enabled(View(), Action.Act(client, ok))
      modifies this
      ensures View() == Step(old(View()), Action.Act(client, ok))
    {
      var pc := clients[client];
      match pc {
        case CtorLock =>
          libMutex := Some(client);
          pc := CtorCount;
        case CtorCount =>
          pc := if counter == 0 then CtorInit else CtorUnlock;
          counter := FetchAdd(counter);
        case CtorInit =>
          if ok {
            events := events + [InitOk];
            pc := CtorUnlock;
          } else {
            events := events + [InitFailed];
            pc := CtorFailed;
          }
        case CtorUnlock =>
          libMutex := None;
          pc := CtorBody;
        case CtorFailed =>
          libMutex := None;
          pc := Aborted;
        case CtorBody =>
          pc := if ok then Live else Aborted;
        case DtorLock =>
          libMutex := Some(client);
          pc := DtorCount;
        case DtorCount =>
          pc := if counter == 1 then DtorCleanup else DtorUnlock;
          counter := FetchSub(counter);
        case DtorCleanup =>
          events := events + [Cleanup];
          pc := DtorUnlock;
        case DtorUnlock =>
          libMutex := None;
          pc := Destroyed;
        case _ =>
      }
      clients := clients[client := pc];
    }

    /** Any schedule the clients can follow leaves the object as the model says: the counter is the number of
        counted clients modulo 2^32, and initialisations and cleanups alternate unless a client initialises
        while 2^32 others are counted. */
    method Follow(schedule: seq<Action>)
      requires Inv(View()) && CanRun(View(), schedule)
      modifies this
      ensures View() == RunFrom(old(View()), schedule)
      ensures counter == Users(View()) % 0x1_0000_0000
      ensures !Overfills(old(View()), schedule) ==> Inv(View())
    {
      var done := 0;
      ghost var start := View();
      while done < |schedule|
        invariant 0 <= done <= |schedule|
        invariant CanRun(View(), schedule[done..])
        invariant RunFrom(View(), schedule[done..]) == RunFrom(start, schedule)
      {
        ghost var rest := schedule[done..];
        match schedule[done] {
          case Construct => var _ := EnterConstructor();
          case Destroy(client) => EnterDestructor(client);
          case Act(client, ok) => Act(client, ok);
        }
        done := done + 1;
        assert rest[1..] == schedule[done..];
      }
      RunKeepsCounter(start, schedule);
      RunKeeps(start, schedule);
    }
  }
}
