/**
 PahoClient::ConnectAsync waits on a promise of its own, but tells the library only of one static context,
 shared by all calls of all clients, in which each call installs its promise.  The callbacks of every
 connection attempt settle whatever promise is installed when they fire.
 */
module PahoConnect {
  import opened Options
  import opened MqttLibrary
  import opened PahoClients

  /** A call of ConnectAsync, on client pThis; promise is the value set, if any. */
  datatype Call = Call(pThis: nat, promise: Option<PahoRc>, returned: bool)

  /** Install: a call is entered and installs its promise, its number being the number of calls before.
      Callback: a callback of the attempt of a call fires with a code.  Return: a call finds its promise
      set and returns. */
  datatype Event = Install(pThis: nat) | Callback(call: nat, code: PahoRc) | Return(call: nat)

  /** pContext is the call whose promise is installed, pThis the client stored in the context. */
  datatype State = State(pContext: Option<nat>, pThis: Option<nat>, calls: seq<Call>)

  function Init(): State {
    State(None, None, [])
  }

  predicate Enabled(s: State, e: Event) {
    match e
    case Install(_) => true
    case Callback(call, _) => call < |s.calls| && s.pContext.Some? && s.pContext.value < |s.calls|
    case Return(call) => call < |s.calls| && !s.calls[call].returned && s.calls[call].promise.Some?
  }

  /** Setting a promise that is set already raises an error that the callback swallows. */
  function Settle(promise: Option<PahoRc>, code: PahoRc): Option<PahoRc> {
    if promise.None? then Some(code) else promise
  }

  function Step(s: State, e: Event): State
    requires Enabled(s, e)
  {
    match e
    case Install(pThis) =>
      // The static context is constructed by the first call only.
      s.(pContext := Some(|s.calls|), pThis := if s.pThis.None? then Some(pThis) else s.pThis,
         calls := s.calls + [Call(pThis, None, false)])
    case Callback(_, code) =>
      var installed := s.pContext.value;
      s.(calls := s.calls[installed := s.calls[installed].(promise := Settle(s.calls[installed].promise, code))])
    case Return(call) => s.(calls := s.calls[call := s.calls[call].(returned := true)])
  }

  ghost predicate CanRun(run: seq<Event>)
    decreases |run|, 0
  {
    run == [] || (CanRun(run[..|run| - 1]) && Enabled(After(run[..|run| - 1]), run[|run| - 1]))
  }

  ghost function After(run: seq<Event>): State
    requires CanRun(run)
    decreases |run|, 1
  {
    if run == [] then Init() else Step(After(run[..|run| - 1]), run[|run| - 1])
  }

  /** The value ConnectAsync returns. */
  function Result(call: Call): ReasonCode
    requires call.promise.Some?
  {
    PahoRcToReasonCode(call.promise.value)
  }

  // ---- What the history says, without contexts and promises ----

  /** The number of calls entered in a history. */
  function Entered(run: seq<Event>): nat {
    if run == [] then 0 else Entered(run[..|run| - 1]) + if run[|run| - 1].Install? then 1 else 0
  }

  /** The position of the first callback, of whatever call, that fires while a call is the last one entered. */
  function Settler(run: seq<Event>, call: nat): (at: Option<nat>)
    ensures at.Some? ==> at.value < |run| && run[at.value].Callback?
  {
    if run == [] then None
    else
      var before := run[..|run| - 1];
      var found := Settler(before, call);
      if found.None? && run[|run| - 1].Callback? && Entered(before) == call + 1 then Some(|run| - 1) else found
  }

  /** The first code any callback reports while a call is the last one entered. */
  function FirstWhileLast(run: seq<Event>, call: nat): Option<PahoRc> {
    var at := Settler(run, call);
    if at.None? then None else Some(run[at.value].code)
  }

  /** The first code a callback of a call's own attempt reports. */
  function FirstOwn(run: seq<Event>, call: nat): Option<PahoRc> {
    if run == [] then None
    else
      var before := run[..|run| - 1];
      var e := run[|run| - 1];
      if FirstOwn(before, call).None? && e.Callback? && e.call == call then Some(e.code)
      else FirstOwn(before, call)
  }

  /** The client of the first call. */
  function FirstClient(run: seq<Event>): Option<nat> {
    if run == [] then None
    else
      var before := FirstClient(run[..|run| - 1]);
      if before.None? && run[|run| - 1].Install? then Some(run[|run| - 1].pThis) else before
  }

  lemma FirstWhileLastStep(run: seq<Event>, call: nat)
    requires run != []
    ensures FirstWhileLast(run, call) ==
            var before, e := run[..|run| - 1], run[|run| - 1];
            if FirstWhileLast(before, call).None? && e.Callback? && Entered(before) == call + 1 then Some(e.code)
            else FirstWhileLast(before, call)
  {
  }

  // ---- What a promise holds ----

  /** In every run, overlapping or not, a call's promise holds the first code that any callback reports
      while that call is the last one entered; and the context names the client of the very first call. */
  lemma {:induction false} PromiseHoldsFirstWhileLast(run: seq<Event>)
    requires CanRun(run)
    ensures var s := After(run);
            && |s.calls| == Entered(run)
            && s.pContext == (if Entered(run) == 0 then None else Some(Entered(run) - 1))
            && s.pThis == FirstClient(run)
            && (Entered(run) == 0 <==> FirstClient(run).None?)
            && (forall c :: 0 <= c < |s.calls| ==> s.calls[c].promise == FirstWhileLast(run, c))
            && (forall c: nat :: Entered(run) <= c ==> FirstWhileLast(run, c).None?)
  {
    if run != [] {
      PromiseHoldsFirstWhileLast(run[..|run| - 1]);
      forall c: nat {
        FirstWhileLastStep(run, c);
      }
    }
  }

  lemma {:induction false} ReturnedIsSet(run: seq<Event>)
    requires CanRun(run)
    ensures forall c ::
              0 <= c < |After(run).calls| && After(run).calls[c].returned ==> After(run).calls[c].promise.Some?
  {
    if run != [] {
      ReturnedIsSet(run[..|run| - 1]);
    }
  }

  // ---- Whose code a call returns ----

  ghost predicate HasReturned(run: seq<Event>, call: nat) {
    CanRun(run) && call < |After(run).calls| && After(run).calls[call].returned
  }

  /** The value a call returned is the mapped first code of its own attempt. */
  ghost predicate ReturnsOwn(run: seq<Event>, call: nat)
    requires HasReturned(run, call)
  {
    && FirstOwn(run, call).Some? && After(run).calls[call].promise.Some?
    && Result(After(run).calls[call]) == PahoRcToReasonCode(FirstOwn(run, call).value)
  }

  lemma ReturnedHasSettler(run: seq<Event>, call: nat)
    requires HasReturned(run, call)
    ensures Settler(run, call).Some?
    ensures After(run).calls[call].promise == FirstWhileLast(run, call)
  {
    ReturnedIsSet(run);
    PromiseHoldsFirstWhileLast(run);
  }

  /** While no callback has found the call last entered, no callback of its own has fired before the next
      call was entered; so if the first one to find it so is its own, that is its first. */
  lemma {:induction false} OwnSettlerIsFirstOwn(run: seq<Event>, call: nat)
    requires CanRun(run)
    ensures Settler(run, call).None? && Entered(run) <= call + 1 ==> FirstOwn(run, call).None?
    ensures Settler(run, call).Some? && run[Settler(run, call).value].call == call ==>
              FirstOwn(run, call) == FirstWhileLast(run, call)
  {
    if run != [] {
      var before := run[..|run| - 1];
      OwnSettlerIsFirstOwn(before, call);
      PromiseHoldsFirstWhileLast(before);
    }
  }

  /** In every run and for every call that has returned, whatever the other calls and their callbacks do:
      the value returned is the mapped first code of the call's own attempt exactly when the first callback
      fired while the call was last entered is its own, or happens to report what maps to the same value. */
  lemma ConnectReturnsOwnFirstCode(run: seq<Event>, call: nat)
    requires HasReturned(run, call)
    ensures Settler(run, call).Some?
    ensures var settler := run[Settler(run, call).value];
            After(run).calls[call].promise == FirstOwn(run, call) <==>
            settler.call == call || FirstOwn(run, call) == Some(settler.code)
    ensures var settler := run[Settler(run, call).value];
            ReturnsOwn(run, call) <==>
            settler.call == call ||
            (FirstOwn(run, call).Some? &&
             PahoRcToReasonCode(FirstOwn(run, call).value) == PahoRcToReasonCode(settler.code))
  {
    ReturnedHasSettler(run, call);
    OwnSettlerIsFirstOwn(run, call);
  }

  // The same for all codes at once.

  /** The history with other codes reported: the callback at position i reports codes(i). */
  function Recode(run: seq<Event>, codes: nat -> PahoRc): seq<Event> {
    seq(|run|, i requires 0 <= i < |run| => if run[i].Callback? then run[i].(code := codes(i)) else run[i])
  }

  lemma {:induction false} RecodeKeepsSettler(run: seq<Event>, codes: nat -> PahoRc, call: nat)
    ensures Settler(Recode(run, codes), call) == Settler(run, call)
    ensures Entered(Recode(run, codes)) == Entered(run)
  {
    if run != [] {
      var n := |run| - 1;
      RecodeKeepsSettler(run[..n], codes, call);
      assert Recode(run, codes)[..n] == Recode(run[..n], codes);
    }
  }

  /** Two states that differ in codes only. */
  ghost predicate AlikeButCodes(s: State, t: State) {
    && s.pContext == t.pContext && |s.calls| == |t.calls|
    && forall c :: 0 <= c < |s.calls| ==>
         s.calls[c].returned == t.calls[c].returned && (s.calls[c].promise.Some? <==> t.calls[c].promise.Some?)
  }

  lemma StepKeepsAlike(s: State, t: State, e: Event, f: Event)
    requires AlikeButCodes(s, t) && Enabled(s, e)
    requires e == f || (e.Callback? && f.Callback? && e.call == f.call)
    ensures Enabled(t, f) && AlikeButCodes(Step(s, e), Step(t, f))
  {
  }

  lemma {:induction false} RecodeKeepsState(run: seq<Event>, codes: nat -> PahoRc)
    requires CanRun(run)
    ensures CanRun(Recode(run, codes)) && AlikeButCodes(After(run), After(Recode(run, codes)))
  {
    if run != [] {
      var n := |run| - 1;
      RecodeKeepsState(run[..n], codes);
      assert Recode(run, codes)[..n] == Recode(run[..n], codes);
      StepKeepsAlike(After(run[..n]), After(Recode(run[..n], codes)), run[n], Recode(run, codes)[n]);
    }
  }

  /** Who has returned and who settles which promise does not depend on the codes. */
  lemma RecodeKeeps(run: seq<Event>, codes: nat -> PahoRc, call: nat)
    requires HasReturned(run, call)
    ensures HasReturned(Recode(run, codes), call)
    ensures Settler(Recode(run, codes), call) == Settler(run, call)
  {
    RecodeKeepsState(run, codes);
    RecodeKeepsSettler(run, codes, call);
  }

  /** When only the callback at one position reports another code than success, a call's own first code is
      success unless that callback is its own. */
  lemma {:induction false} OddCodeIsForeign(run: seq<Event>, codes: nat -> PahoRc, at: nat, call: nat)
    requires forall i: nat :: i != at ==> codes(i) == MQTTASYNC_SUCCESS
    requires at < |run| && run[at].Callback? ==> run[at].call != call
    ensures FirstOwn(Recode(run, codes), call).Some? ==>
              FirstOwn(Recode(run, codes), call).value == MQTTASYNC_SUCCESS
  {
    if run != [] {
      var n := |run| - 1;
      OddCodeIsForeign(run[..n], codes, at, call);
      assert Recode(run, codes)[..n] == Recode(run[..n], codes);
    }
  }

  /** A call that has returned is sure to have returned its own first code, that is, would have done so
      whatever codes the callbacks had reported, exactly when the first callback fired while it was last
      entered is its own. */
  lemma OwnCodeForSureIff(run: seq<Event>, call: nat)
    requires HasReturned(run, call)
    ensures Settler(run, call).Some?
    ensures forall codes :: HasReturned(Recode(run, codes), call)
    ensures (forall codes :: ReturnsOwn(Recode(run, codes), call)) <==> run[Settler(run, call).value].call == call
  {
    ReturnedHasSettler(run, call);
    var at := Settler(run, call).value;
    forall codes ensures HasReturned(Recode(run, codes), call) {
      RecodeKeeps(run, codes, call);
    }
    forall codes | run[at].call == call ensures ReturnsOwn(Recode(run, codes), call) {
      RecodeKeeps(run, codes, call);
      ConnectReturnsOwnFirstCode(Recode(run, codes), call);
    }
    if run[at].call != call {
      var codes := (i: nat) => if i == at then MQTTASYNC_DISCONNECTED else MQTTASYNC_SUCCESS;
      RecodeKeeps(run, codes, call);
      OddCodeIsForeign(run, codes, at, call);
      ConnectReturnsOwnFirstCode(Recode(run, codes), call);
      assert !ReturnsOwn(Recode(run, codes), call);
    }
  }

  /** Calls follow one another, and a callback fires only after its call is entered and before it returns. */
  ghost predicate Sequential(run: seq<Event>)
    requires CanRun(run)
  {
    run == [] ||
    (&& Sequential(run[..|run| - 1])
     && var s := After(run[..|run| - 1]);
        match run[|run| - 1]
        case Install(_) => forall c :: 0 <= c < |s.calls| ==> s.calls[c].returned
        case Callback(call, _) => call < |s.calls| && !s.calls[call].returned
        case Return(_) => true)
  }

  lemma {:induction false} SequentialSettlersAreOwn(run: seq<Event>, call: nat)
    requires CanRun(run) && Sequential(run)
    ensures forall c :: 0 <= c < |After(run).calls| - 1 ==> After(run).calls[c].returned
    ensures Settler(run, call).Some? ==> run[Settler(run, call).value].call == call
  {
    if run != [] {
      var before := run[..|run| - 1];
      SequentialSettlersAreOwn(before, call);
      PromiseHoldsFirstWhileLast(before);
    }
  }

  /** The promise of the source: calls one after the other, callbacks before the return. */
  lemma SequentialConnects(run: seq<Event>, call: nat)
    requires CanRun(run) && Sequential(run)
    requires call < |After(run).calls| && After(run).calls[call].returned
    ensures FirstOwn(run, call).Some? && After(run).calls[call].promise.Some?
    ensures Result(After(run).calls[call]) == PahoRcToReasonCode(FirstOwn(run, call).value)
  {
    SequentialSettlersAreOwn(run, call);
    ConnectReturnsOwnFirstCode(run, call);
  }

  // ---- Whether a call returns ----

  /** A call that another one overtakes before any callback has fired never returns, whatever fires
      afterwards, its own callbacks included. */
  lemma {:induction false} OvertakenCallNeverReturns(run: seq<Event>, call: nat, later: seq<Event>)
    requires CanRun(run) && CanRun(run + later)
    requires call + 1 < Entered(run) && FirstWhileLast(run, call).None?
    ensures call + 1 < Entered(run + later) && FirstWhileLast(run + later, call).None?
    ensures call < |After(run + later).calls| && !After(run + later).calls[call].returned
    decreases |later|
  {
    PromiseHoldsFirstWhileLast(run + later);
    ReturnedIsSet(run + later);
    if later == [] {
      assert run + later == run;
    } else {
      var n := |later| - 1;
      assert (run + later)[..|run + later| - 1] == run + later[..n];
      OvertakenCallNeverReturns(run, call, later[..n]);
    }
  }

  /** A call that has been entered can still return, or has returned, exactly when it is the last one
      entered or some callback has found it so. */
  lemma CanReturnIff(run: seq<Event>, call: nat)
    requires CanRun(run) && call < Entered(run)
    ensures (exists later :: HasReturned(run + later, call)) <==>
            call + 1 == Entered(run) || FirstWhileLast(run, call).Some?
  {
    PromiseHoldsFirstWhileLast(run);
    if call + 1 == Entered(run) || FirstWhileLast(run, call).Some? {
      var later := LetReturn(run, call);
      assert HasReturned(run + later, call);
    } else {
      forall later | CanRun(run + later) ensures !HasReturned(run + later, call) {
        OvertakenCallNeverReturns(run, call, later);
      }
    }
  }

  lemma LetReturn(run: seq<Event>, call: nat) returns (later: seq<Event>)
    requires CanRun(run) && call < Entered(run)
    requires call + 1 == Entered(run) || FirstWhileLast(run, call).Some?
    ensures HasReturned(run + later, call)
  {
    PromiseHoldsFirstWhileLast(run);
    if After(run).calls[call].returned {
      later := [];
      assert run + later == run;
    } else {
      var settled := run;
      later := [];
      if After(run).calls[call].promise.None? {
        later := [Callback(call, MQTTASYNC_SUCCESS)];
        Snoc(run, Callback(call, MQTTASYNC_SUCCESS), call);
        settled := run + later;
      } else {
        assert run + later == run;
      }
      Snoc(settled, Return(call), call);
      assert run + (later + [Return(call)]) == settled + [Return(call)];
      later := later + [Return(call)];
    }
  }

  lemma Snoc(run: seq<Event>, e: Event, call: nat)
    ensures CanRun(run + [e]) <==> CanRun(run) && Enabled(After(run), e)
    ensures CanRun(run + [e]) ==> After(run + [e]) == Step(After(run), e)
    ensures FirstOwn(run + [e], call) ==
            if FirstOwn(run, call).None? && e.Callback? && e.call == call then Some(e.code) else FirstOwn(run, call)
  {
    assert (run + [e])[..|run|] == run;
  }

  /** A callback of one call that fires once the next call is entered settles the wrong promise: here the
      second call reports the first one's failure although its own attempt succeeds. */
  lemma LateCallbackMisleads(client: nat, code: int)
    ensures var run := [Install(client), Callback(0, OtherPahoRc(code)), Return(0), Install(client),
                        Callback(0, OtherPahoRc(code)), Callback(1, MQTTASYNC_SUCCESS), Return(1)];
            && CanRun(run) && After(run).calls[1].returned
            && FirstOwn(run, 1) == Some(MQTTASYNC_SUCCESS)
            && Result(After(run).calls[1]) == ERROR_GENERAL
  {
    var late := Callback(0, OtherPahoRc(code));
    var good := Callback(1, MQTTASYNC_SUCCESS);
    var r1 := [Install(client)];
    var r2 := r1 + [late];
    var r3 := r2 + [Return(0)];
    var r4 := r3 + [Install(client)];
    var r5 := r4 + [late];
    var r6 := r5 + [good];
    var r7 := r6 + [Return(1)];
    Snoc([], Install(client), 1);
    Snoc(r1, late, 1);
    Snoc(r2, Return(0), 1);
    Snoc(r3, Install(client), 1);
    Snoc(r4, late, 1);
    Snoc(r5, good, 1);
    Snoc(r6, Return(1), 1);
    assert [] + r1 == r1;
    var bad := Some(OtherPahoRc(code));
    assert CanRun([]) && CanRun(r1) && After(r1) == State(Some(0), Some(client), [Call(client, None, false)]);
    assert CanRun(r2) && After(r2) == State(Some(0), Some(client), [Call(client, bad, false)]);
    assert CanRun(r3) && After(r3) == State(Some(0), Some(client), [Call(client, bad, true)]);
    assert CanRun(r4) && After(r4).calls == [Call(client, bad, true), Call(client, None, false)];
    assert CanRun(r5) && After(r5).calls == [Call(client, bad, true), Call(client, bad, false)];
    assert CanRun(r6) && After(r6) == After(r5);
    assert CanRun(r7) && After(r7).calls == [Call(client, bad, true), Call(client, bad, true)];
    assert r7 == [Install(client), late, Return(0), Install(client), late, good, Return(1)];
  }

  /** The static context and the promises of the calls, updated in place, with the history they stem from. */
  class ConnectContext {
    var pContext: Option<nat>
    var pThis: Option<nat>
    var calls: seq<Call>
    ghost var history: seq<Event>

    ghost function View(): State
      reads this
    {
      State(pContext, pThis, calls)
    }

    ghost predicate Valid()
      reads this
    {
      CanRun(history) && View() == After(history)
    }

    constructor ()
      ensures Valid() && history == []
    {
      pContext, pThis, calls := None, None, [];
      history := [];
    }

    /** ConnectAsync up to handing the context to the library. */
    method EnterConnect(client: nat) returns (call: nat)
      requires Valid()
      modifies this
      ensures Valid() && history == old(history) + [Install(client)]
      ensures call == Entered(old(history))
      ensures pContext == Some(call) && pThis == FirstClient(history)
    {
      PromiseHoldsFirstWhileLast(history);
      Snoc(history, Install(client), 0);
      call := |calls|;
      if pThis.None? {
        pThis := Some(client);
      }
      calls := calls + [Call(client, None, false)];
      pContext := Some(call);
      history := history + [Install(client)];
      PromiseHoldsFirstWhileLast(history);
    }

    /** onSuccess5 and onFailure5. */
    method OnResult(call: nat, code: PahoRc)
      requires Valid() && Enabled(View(), Callback(call, code))
      modifies this`calls, this`history
      ensures Valid() && history == old(history) + [Callback(call, code)]
    {
      Snoc(history, Callback(call, code), call);
      var installed := pContext.value;
      if calls[installed].promise.None? {
        calls := calls[installed := calls[installed].(promise := Some(code))];
      }
      history := history + [Callback(call, code)];
    }

    /** ConnectAsync from the moment its promise is set: what it returns is the mapped first code reported
        while it was last entered, so that of its own attempt if the callback that reported it is. */
    method LeaveConnect(call: nat) returns (rc: ReasonCode)
      requires Valid() && Enabled(View(), Return(call))
      modifies this`calls, this`history
      ensures Valid() && history == old(history) + [Return(call)]
      ensures Settler(history, call).Some?
      ensures rc == PahoRcToReasonCode(history[Settler(history, call).value].code)
      ensures history[Settler(history, call).value].call == call ==>
                FirstOwn(history, call).Some? && rc == PahoRcToReasonCode(FirstOwn(history, call).value)
    {
      Snoc(history, Return(call), call);
      rc := PahoRcToReasonCode(calls[call].promise.value);
      calls := calls[call := calls[call].(returned := true)];
      history := history + [Return(call)];
      ReturnedHasSettler(history, call);
      OwnSettlerIsFirstOwn(history, call);
    }

    method Take(e: Event)
      requires Valid() && Enabled(View(), e)
      modifies this
      ensures Valid() && history == old(history) + [e]
    {
      match e {
        case Install(client) => var _ := EnterConnect(client);
        case Callback(call, code) => OnResult(call, code);
        case Return(call) => var _ := LeaveConnect(call);
      }
    }

    /** Any schedule of calls and callbacks leaves each promise with the first code reported while its call
        was last entered. */
    method Follow(schedule: seq<Event>)
      requires Valid() && CanRun(history + schedule)
      modifies this
      ensures Valid() && history == old(history) + schedule
      ensures |calls| == Entered(history)
      ensures forall c :: 0 <= c < |calls| ==> calls[c].promise == FirstWhileLast(history, c)
    {
      var done := 0;
      ghost var start := history;
      while done < |schedule|
        invariant 0 <= done <= |schedule|
        invariant Valid() && history == start + schedule[..done]
      {
        PrefixRuns(start, schedule, done);
        Snoc(history, schedule[done], 0);
        Take(schedule[done]);
        assert start + schedule[..done + 1] == start + schedule[..done] + [schedule[done]];
        done := done + 1;
      }
      assert schedule[..|schedule|] == schedule;
      PromiseHoldsFirstWhileLast(history);
    }
  }

  lemma {:induction false} PrefixRuns(start: seq<Event>, schedule: seq<Event>, done: nat)
    requires CanRun(start + schedule) && done < |schedule|
    ensures CanRun(start + schedule[..done] + [schedule[done]])
    decreases |schedule|
  {
    var n := |schedule| - 1;
    assert (start + schedule)[..|start + schedule| - 1] == start + schedule[..n];
    if done < n {
      PrefixRuns(start, schedule[..n], done);
      assert schedule[..n][..done] == schedule[..done];
    } else {
      assert start + schedule[..done] + [schedule[done]] == start + schedule;
    }
  }
}
