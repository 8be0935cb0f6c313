/**
 Running a command with a timeout: the caller's select loop, the goroutine that waits for the process
 and the goroutines that copy its output, as one state machine over all their interleavings.

 A caller whose timer has expired acts within a given lag, which stands for the scheduler's delays.
 */
module CommandTimeout {
  import opened Wrappers

  datatype Signal = Interrupt | Kill

  datatype Exit = Clean | Bad   // what cmd.Wait returns: nil or an error

  datatype Error = NoError | ExitError | TimeoutError | KillFailed

  // `read` tells whether the output buffer was read to make the output.
  datatype Return = Return(output: string, read: bool, error: Error, at: int)

  datatype Caller =
    | Selecting(since: int)      // in the select loop, with a timer started at `since`
    | Draining(since: int)       // the process was killed; waiting for its output to drain
    | Returned(result: Return)

  datatype State = State(
    now: int,
    caller: Caller,
    interruptSent: bool,
    exited: bool,
    writers: nat,                // output copiers still running
    buffer: string,
    waited: Option<Exit>,        // set once cmd.Wait has returned
    done: Option<Exit>,          // the channel
    signals: seq<Signal>)

  datatype Call = Call(start: int, timeout: nat, grace: nat, lag: nat, copiers: nat)

  datatype Action =
    | Advance(dt: nat)
    | Write(data: string)
    | CloseWriter
    | ProcessExits
    | WaitReturns(exit: Exit)
    | TimerFires(signalOk: bool)
    | ReceiveDone
    | DrainTimerFires

  function First(call: Call): State
  {
    State(call.start, Selecting(call.start), false, false, call.copiers, "", None, None, [])
  }

  predicate IsSpace(c: char)
  {
    c in " \t\n\r" || c == '\U{000B}' || c == '\U{000C}' || c == '\U{0085}' || c == '\U{00A0}'
  }

  function TrimSpace(s: string): string
  {
    if s != "" && IsSpace(s[0]) then TrimSpace(s[1..])
    else if s != "" && IsSpace(s[|s| - 1]) then TrimSpace(s[..|s| - 1])
    else s
  }

  // The text between the first and the last character that is not white space.
  ghost predicate IsTrimmed(s: string, t: string)
  {
    exists i, j :: IsMiddle(s, t, i, j)
  }

  ghost predicate IsMiddle(s: string, t: string, i: int, j: int)
  {
    && 0 <= i <= j <= |s| && t == s[i..j]
    && (forall k :: 0 <= k < i || j <= k < |s| ==> IsSpace(s[k]))
    && (i < j ==> !IsSpace(s[i]) && !IsSpace(s[j - 1]))
  }

  lemma {:induction false} TrimSpaceTrims(s: string)
    ensures IsTrimmed(s, TrimSpace(s))
    decreases |s|
  {
    hide IsSpace;
    if s != "" && IsSpace(s[0]) {
      TrimSpaceTrims(s[1..]);
      var i, j :| IsMiddle(s[1..], TrimSpace(s), i, j);
      assert s[1..][i..j] == s[i + 1..j + 1];
      assert forall k :: 1 <= k < |s| ==> s[k] == s[1..][k - 1];
      assert IsMiddle(s, TrimSpace(s), i + 1, j + 1);
    } else if s != "" && IsSpace(s[|s| - 1]) {
      TrimSpaceTrims(s[..|s| - 1]);
      var i, j :| IsMiddle(s[..|s| - 1], TrimSpace(s), i, j);
      assert s[..|s| - 1][i..j] == s[i..j];
      assert IsMiddle(s, TrimSpace(s), i, j);
    } else {
      assert s[0..|s|] == s;
      assert IsMiddle(s, s, 0, |s|);
    }
  }

  // When the caller's current timer expires.
  function Deadline(call: Call, caller: Caller): int
    requires !caller.Returned?
  {
    if caller.Selecting? then caller.since + call.timeout else caller.since + call.grace
  }

  predicate Enabled(call: Call, s: State, a: Action)
  {
    match a
    case Advance(dt) => s.caller.Returned? || s.now + dt <= Deadline(call, s.caller) + call.lag
    case Write(_) => s.writers > 0
    case CloseWriter => s.writers > 0
    case ProcessExits => !s.exited
    case WaitReturns(_) => s.exited && s.writers == 0 && s.waited.None?
    case TimerFires(_) => s.caller.Selecting? && s.now >= Deadline(call, s.caller)
    case ReceiveDone => !s.caller.Returned? && s.done.Some?
    case DrainTimerFires => s.caller.Draining? && s.now >= Deadline(call, s.caller)
  }

  function FinishWith(s: State, output: string, read: bool, error: Error): State
  {
    s.(caller := Returned(Return(output, read, error, s.now)))
  }

  function OnTimer(s: State, signalOk: bool): State
  {
    if s.interruptSent then
      var s' := s.(signals := s.signals + [Kill]);
      if signalOk then s'.(caller := Draining(s.now)) else FinishWith(s', "", false, KillFailed)
    else
      // a failed interrupt is only logged; the kill comes with the next timer
      s.(signals := s.signals + [Interrupt], interruptSent := true, caller := Selecting(s.now))
  }

  function OnDone(s: State): State
    requires s.done.Some?
  {
    var s', output := s.(done := None), TrimSpace(s.buffer);
    if s.caller.Draining? then FinishWith(s', output, true, TimeoutError)
    else if s.done.value.Bad? then FinishWith(s', output, true, ExitError)
    else FinishWith(s', output, true, if s.interruptSent then TimeoutError else NoError)
  }

  function Do(call: Call, s: State, a: Action): State
    requires Enabled(call, s, a)
  {
    match a
    case Advance(dt) => s.(now := s.now + dt)
    case Write(data) => s.(buffer := s.buffer + data)
    case CloseWriter => s.(writers := s.writers - 1)
    case ProcessExits => s.(exited := true)
    case WaitReturns(exit) => s.(waited := Some(exit), done := Some(exit))
    case TimerFires(signalOk) => OnTimer(s, signalOk)
    case ReceiveDone => OnDone(s)
    case DrainTimerFires => FinishWith(s, "", false, TimeoutError)
  }

  // A run: a sequence of actions, each enabled where it happens. None if some action is not.
  function Run(call: Call, actions: seq<Action>): Option<State>
  {
    if actions == [] then Some(First(call))
    else
      var last, before := actions[|actions| - 1], Run(call, actions[..|actions| - 1]);
      if before.Some? && Enabled(call, before.value, last) then Some(Do(call, before.value, last)) else None
  }

  // ----- What holds in every state of every run -----

  // When the caller has returned at the latest: two timeouts and the grace period, each with its lag.
  function Latest(call: Call): int
  {
    call.start + 2 * call.timeout + call.grace + 3 * call.lag
  }

  ghost predicate Phases(call: Call, s: State)
  {
    && call.start <= s.now
    && (Interrupt in s.signals ==> s.now >= call.start + call.timeout)
    && (Kill in s.signals ==> s.now >= call.start + 2 * call.timeout)
    && match s.caller
       case Selecting(since) =>
         && s.signals == (if s.interruptSent then [Interrupt] else [])
         && (if s.interruptSent then 0 <= since - (call.start + call.timeout) <= call.lag else since == call.start)
         && s.now <= since + call.timeout + call.lag
       case Draining(since) =>
         && s.interruptSent && s.signals == [Interrupt, Kill]
         && 0 <= since - (call.start + 2 * call.timeout) <= 2 * call.lag
         && s.now <= since + call.grace + call.lag
       case Returned(r) =>
         && s.signals in {[], [Interrupt], [Interrupt, Kill]}
         && (s.signals == [] <==> !s.interruptSent)
         && r.at <= s.now && r.at <= Latest(call)
         && (r.error == TimeoutError ==> r.at >= call.start + call.timeout)
         && (r.error == KillFailed ==> r.at >= call.start + 2 * call.timeout)
  }

  ghost predicate Joined(s: State)
  {
    && (s.waited.Some? ==> s.exited && s.writers == 0)
    && (s.done.Some? ==> s.done == s.waited)
  }

  ghost predicate Reported(s: State)
  {
    s.caller.Returned? ==>
      var r := s.caller.result;
      && (r.read ==> s.waited.Some? && r.output == TrimSpace(s.buffer))
      && (r.error == KillFailed ==> !r.read)
      && (!r.read ==> r.output == "" && s.signals == [Interrupt, Kill] && r.error in {TimeoutError, KillFailed})
      && (r.error == NoError <==> r.read && s.signals == [] && s.waited == Some(Clean))
      && (r.error == ExitError <==> r.read && s.signals != [Interrupt, Kill] && s.waited == Some(Bad))
  }

  ghost predicate Inv(call: Call, s: State)
  {
    Phases(call, s) && Joined(s) && Reported(s)
  }

  lemma TimerKeepsInv(call: Call, s: State, signalOk: bool)
    requires Inv(call, s) && Enabled(call, s, TimerFires(signalOk))
    ensures Inv(call, OnTimer(s, signalOk))
  {
    hide TrimSpace, Joined;
    assert [] + [Interrupt] == [Interrupt] && [Interrupt] + [Kill] == [Interrupt, Kill];
    assert Joined(OnTimer(s, signalOk)) by { TimerKeepsJoined(s, signalOk); }
  }

  lemma TimerKeepsJoined(s: State, signalOk: bool)
    requires Joined(s)
    ensures Joined(OnTimer(s, signalOk))
  {
  }

  lemma DoneKeepsInv(call: Call, s: State)
    requires Inv(call, s) && Enabled(call, s, ReceiveDone)
    ensures Inv(call, OnDone(s))
  {
    hide TrimSpace;
  }

  lemma StepKeepsInv(call: Call, s: State, a: Action)
    requires Inv(call, s) && Enabled(call, s, a)
    ensures Inv(call, Do(call, s, a))
  {
    hide TrimSpace, OnTimer, OnDone;
    if a.TimerFires? {
      TimerKeepsInv(call, s, a.signalOk);
    } else if a.ReceiveDone? {
      DoneKeepsInv(call, s);
    }
  }

  lemma {:induction false} RunKeepsInv(call: Call, actions: seq<Action>)
    ensures Run(call, actions).Some? ==> Inv(call, Run(call, actions).value)
  {
    hide Do, Inv, Enabled;
    if actions == [] {
      FirstInv(call);
    } else {
      var before := Run(call, actions[..|actions| - 1]);
      RunKeepsInv(call, actions[..|actions| - 1]);
      if before.Some? && Enabled(call, before.value, actions[|actions| - 1]) {
        StepKeepsInv(call, before.value, actions[|actions| - 1]);
      }
    }
  }

  lemma FirstInv(call: Call)
    ensures Inv(call, First(call))
  {
  }

  // ----- What has happened, read off the actions -----

  // All that the copiers wrote, in order.
  function Written(actions: seq<Action>): string
  {
    if actions == [] then ""
    else
      var last := actions[|actions| - 1];
      Written(actions[..|actions| - 1]) + if last.Write? then last.data else ""
  }

  // How the signals went, in order: one for each timer that fired.
  function Fired(actions: seq<Action>): seq<bool>
  {
    if actions == [] then []
    else
      var last := actions[|actions| - 1];
      Fired(actions[..|actions| - 1]) + if last.TimerFires? then [last.signalOk] else []
  }

  ghost predicate ProcessReflects(call: Call, actions: seq<Action>, s: State)
  {
    && s.buffer == Written(actions)
    && s.writers + multiset(actions)[CloseWriter] == call.copiers
    && (s.exited <==> ProcessExits in actions)
    && (forall exit :: s.waited == Some(exit) <==> WaitReturns(exit) in actions)
  }

  ghost predicate SignalsReflect(actions: seq<Action>, s: State)
  {
    var fired := Fired(actions);
    && |s.signals| == |fired|
    && (|fired| == 2 ==> (fired[1] <==> !(s.caller.Returned? && s.caller.result.error == KillFailed)))
  }

  lemma ProcessNext(call: Call, init: seq<Action>, last: Action, s: State)
    requires Inv(call, s) && Enabled(call, s, last) && ProcessReflects(call, init, s)
    ensures ProcessReflects(call, init + [last], Do(call, s, last))
  {
    hide Do, Written, Inv, Enabled;
    ProcessStep(call, s, last);
    WrittenNext(init, last);
    var actions := init + [last];
    assert multiset(actions) == multiset(init) + multiset{last};
    WaitNext(init, last, s.waited, Do(call, s, last).waited);
  }

  lemma WaitNext(init: seq<Action>, last: Action, waited: Option<Exit>, waited': Option<Exit>)
    requires forall exit :: waited == Some(exit) <==> WaitReturns(exit) in init
    requires if last.WaitReturns? then waited == None && waited' == Some(last.exit) else waited' == waited
    ensures forall exit :: waited' == Some(exit) <==> WaitReturns(exit) in init + [last]
  {
  }

  lemma WrittenNext(init: seq<Action>, last: Action)
    ensures Written(init + [last]) == Written(init) + if last.Write? then last.data else ""
  {
    assert (init + [last])[..|init|] == init;
  }

  // What a step does to the process's side; only WaitReturns needs that it has not happened yet.
  lemma ProcessStep(call: Call, s: State, a: Action)
    requires Enabled(call, s, a)
    ensures var s' := Do(call, s, a);
            && s'.buffer == s.buffer + (if a.Write? then a.data else "")
            && s'.writers == s.writers - (if a.CloseWriter? then 1 else 0)
            && (s'.exited <==> s.exited || a.ProcessExits?)
            && (if a.WaitReturns? then s.waited == None && s'.waited == Some(a.exit) else s'.waited == s.waited)
  {
    hide TrimSpace;
    assert s.buffer + "" == s.buffer;
  }

  lemma SignalsNext(call: Call, init: seq<Action>, last: Action, s: State)
    requires Inv(call, s) && Enabled(call, s, last) && SignalsReflect(init, s)
    ensures SignalsReflect(init + [last], Do(call, s, last))
  {
    hide TrimSpace, Joined;
    var actions := init + [last];
    assert actions[..|actions| - 1] == init;
  }

  lemma {:induction false} RunReflects(call: Call, actions: seq<Action>)
    requires Run(call, actions).Some?
    ensures ProcessReflects(call, actions, Run(call, actions).value)
    ensures SignalsReflect(actions, Run(call, actions).value)
  {
    hide Inv, Enabled, Do;
    if actions != [] {
      hide ProcessReflects, SignalsReflect;
      var init, last := actions[..|actions| - 1], actions[|actions| - 1];
      RunReflects(call, init);
      RunKeepsInv(call, init);
      ProcessNext(call, init, last, Run(call, init).value);
      SignalsNext(call, init, last, Run(call, init).value);
      assert init + [last] == actions;
    }
  }

  // ----- The guarantees -----

  // The buffer is read only once every writer is done, and what was read is the whole output: all that was
  // ever written, without the white space around it. No interleaving appends to it afterwards.
  lemma OutputReadAfterJoin(call: Call, actions: seq<Action>)
    requires Run(call, actions).Some?
    ensures var s := Run(call, actions).value;
            s.caller.Returned? && s.caller.result.read ==>
              && s.writers == 0 && s.exited && s.caller.result.output == TrimSpace(s.buffer)
              && multiset(actions)[CloseWriter] == call.copiers && ProcessExits in actions
              && IsTrimmed(Written(actions), s.caller.result.output)
  {
    hide TrimSpace, IsTrimmed, Run, Written;
    RunKeepsInv(call, actions);
    RunReflects(call, actions);
    TrimSpaceTrims(Written(actions));
  }

  // Every error says what happened: none, a clean exit with no timer fired; an exit error, a bad exit not
  // killed for; a failed kill, the second signal failed; and otherwise a timer has fired.
  lemma ErrorsMean(call: Call, actions: seq<Action>)
    requires Run(call, actions).Some? && Run(call, actions).value.caller.Returned?
    ensures var r, fired := Run(call, actions).value.caller.result, Fired(actions);
            && |fired| <= 2
            && (r.error == NoError <==> r.read && fired == [] && WaitReturns(Clean) in actions)
            && (r.error == ExitError <==> r.read && |fired| < 2 && WaitReturns(Bad) in actions)
            && (r.error == KillFailed <==> |fired| == 2 && !fired[1])
            && (r.error == TimeoutError ==> fired != [])
            && (!r.read ==> |fired| == 2 && r.output == "")
  {
    hide Run, Fired, TrimSpace, Written;
    RunKeepsInv(call, actions);
    RunReflects(call, actions);
    var s := Run(call, actions).value;
    assert s.waited.Some? ==> s.waited.value.Clean? || s.waited.value.Bad?;
  }

  // At most one interrupt and after it at most one kill, each no sooner than its timeout; no error
  // exactly when a clean exit was received with no signal sent; a timeout reported no sooner than the
  // timeout; returned within two timeouts and the grace period, each with its lag.
  lemma CallIsBounded(call: Call, actions: seq<Action>)
    requires Run(call, actions).Some?
    ensures var s := Run(call, actions).value;
            && s.signals <= [Interrupt, Kill]
            && (Interrupt in s.signals ==> s.now - call.start >= call.timeout)
            && (Kill in s.signals ==> s.now - call.start >= 2 * call.timeout)
            && (s.now > Latest(call) ==> s.caller.Returned?)
            && (s.caller.Returned? ==>
                  && s.caller.result.at <= Latest(call)
                  && (s.caller.result.error == TimeoutError ==> s.caller.result.at - call.start >= call.timeout)
                  && (s.caller.result.error == NoError <==>
                        s.caller.result.read && s.signals == [] && s.waited == Some(Clean)))
  {
    RunKeepsInv(call, actions);
  }

  // The caller is never stuck: until it returns, either time can pass or it can act on its timer.
  lemma CallerCanMove(call: Call, actions: seq<Action>)
    requires Run(call, actions).Some? && !Run(call, actions).value.caller.Returned?
    ensures var s := Run(call, actions).value;
            || Enabled(call, s, Advance(1))
            || Enabled(call, s, TimerFires(true))
            || Enabled(call, s, DrainTimerFires)
  {
    RunKeepsInv(call, actions);
  }

  // Once the caller has returned nothing changes its result.
  lemma ResultIsFinal(call: Call, s: State, a: Action)
    requires s.caller.Returned? && Enabled(call, s, a)
    ensures Do(call, s, a).caller == s.caller && Do(call, s, a).signals == s.signals
  {
  }
}
