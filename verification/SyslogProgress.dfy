/** What the worker of the syslog provider gets done: a turn whose write succeeds delivers the next accepted
    message, a turn whose write fails keeps it for the next turn, and a closed provider is left. */
module SyslogProgress {
  import opened Wrappers
  import opened SyslogFormat
  import opened SyslogSender
  import opened SyslogProvider

  predicate AreCalls(es: seq<Event>) {
    forall i :: 0 <= i < |es| ==> es[i].Send? || es[i].Close?
  }

  /** Callers add to the queue and may close the provider; they touch nothing else. */
  predicate OnlyCalled(s: State, t: State) {
    && t.phase == s.phase && t.conn == s.conn && t.written == s.written && t.closed == s.closed
    && s.queue <= t.queue && s.accepted <= t.accepted
  }

  lemma {:induction false} CallsOnlyCall(s: State, es: seq<Event>)
    requires AreCalls(es)
    ensures OnlyCalled(s, RunFrom(s, es))
  {
    if es != [] { CallsOnlyCall(s, es[..|es| - 1]); }
  }

  lemma CallsAreCalls(p: Sender, c: Callers)
    ensures AreCalls(Calls(p, c))
  {
  }

  lemma CallersOnlyCall(p: Sender, s: State, c: Callers)
    ensures OnlyCalled(s, RunFrom(s, Calls(p, c)))
  {
    CallsAreCalls(p, c);
    CallsOnlyCall(s, Calls(p, c));
  }

  /** The dial, if one is needed, and the write of this attempt succeed. */
  predicate Works(a: Attempt) {
    a.dials && a.failsAfter.None?
  }

  /** The write of this attempt fails, or the dial that it needs. */
  predicate Breaks(s: State, message: string, a: Attempt) {
    (s.conn.None? && !a.dials) || (a.failsAfter.Some? && a.failsAfter.value <= |message|)
  }

  // ----- One attempt

  /** The attempt up to its write: callers, a dial if there is no connection, and callers again. */
  lemma AttemptDials(p: Sender, s: State, a: Attempt) returns (t: State)
    requires s.phase.Writing? && (s.conn.Some? || a.dials)
    ensures t.phase == s.phase && t.conn.Some? && t.written == s.written && s.accepted <= t.accepted
    ensures RunFrom(s, AttemptEvents(p, s, a)) == RunFrom(t, [WriteEvent(s.phase.message, a)])
  {
    hide RunFrom, Calls, WriteEvent;
    var first, second, write := Calls(p, a.beforeDial), Calls(p, a.beforeWrite), [WriteEvent(s.phase.message, a)];
    CallersOnlyCall(p, s, a.beforeDial);
    var s1 := RunFrom(s, first);
    var dial := if s.conn.Some? then [] else [Dial(true)];
    NoStep(s1);
    if s.conn.None? { OneStep(s1, Dial(true)); }
    var s2 := RunFrom(s1, dial);
    CallersOnlyCall(p, s2, a.beforeWrite);
    t := RunFrom(s2, second);
    assert AttemptEvents(p, s, a) == first + (dial + (second + write));
    RunFromConcat(s, first, dial + (second + write));
    RunFromConcat(s1, dial, second + write);
    RunFromConcat(s2, second, write);
  }

  lemma AttemptDelivers(p: Sender, s: State, a: Attempt)
    requires s.phase.Writing? && Works(a)
    ensures var t := RunFrom(s, AttemptEvents(p, s, a));
            t.phase == Idle && t.written == s.written + [s.phase.message] && s.accepted <= t.accepted
  {
    hide RunFrom, AttemptEvents;
    var t := AttemptDials(p, s, a);
    OneStep(t, WriteOk);
  }

  lemma AttemptBreaks(p: Sender, s: State, a: Attempt)
    requires s.phase.Writing? && Breaks(s, s.phase.message, a)
    ensures var t := RunFrom(s, AttemptEvents(p, s, a));
            && t.phase == Waiting(s.phase.message) && t.conn.None? && t.written == s.written && s.accepted <= t.accepted
  {
    hide RunFrom, Calls;
    if s.conn.None? && !a.dials {
      CallersOnlyCall(p, s, a.beforeDial);
      var s1 := RunFrom(s, Calls(p, a.beforeDial));
      OneStep(s1, Dial(false));
      RunFromConcat(s, Calls(p, a.beforeDial), [Dial(false)]);
    } else {
      var t := AttemptDials(p, s, a);
      OneStep(t, WriteFails(a.failsAfter.value));
    }
  }

  // ----- One turn

  /** The turn reaches the worker after its callers, and `select` does not make it leave. */
  predicate GoesOn(p: Sender, s: State, t: Turn) {
    Waits(s) && !(RunFrom(s, Calls(p, t.callers)).done && t.picksDone)
  }

  /** The message the worker works on in this turn: the one it is retrying, or the first one queued. */
  function Current(p: Sender, s: State, t: Turn): Option<string> {
    if s.phase.Waiting? then Some(s.phase.message)
    else
      var queue := RunFrom(s, Calls(p, t.callers)).queue;
      if queue == [] then None else Some(queue[0])
  }

  /** The worker turns to its message: a step to the state in which it is being written. */
  lemma TurnTakes(p: Sender, s: State, t: Turn) returns (w: State)
    requires GoesOn(p, s, t) && Current(p, s, t).Some?
    ensures w.phase == Writing(Current(p, s, t).value) && w.conn == s.conn && w.written == s.written
    ensures s.accepted <= w.accepted
    ensures AfterTurn(p, s, t) == RunFrom(w, AttemptEvents(p, w, t.attempt))
  {
    hide RunFrom, Calls, AttemptEvents;
    CallersOnlyCall(p, s, t.callers);
    var called := RunFrom(s, Calls(p, t.callers));
    var e := if s.phase.Waiting? then Retry else Take;
    OneStep(called, e);
    w := Next(called, e);
    RunFromConcat(called, [e], AttemptEvents(p, w, t.attempt));
  }

  /** A turn whose dial and write succeed writes exactly the message the worker works on, and is done with it. */
  lemma TurnDelivers(p: Sender, s: State, t: Turn)
    requires GoesOn(p, s, t) && Current(p, s, t).Some? && Works(t.attempt)
    ensures var r := AfterTurn(p, s, t);
            r.phase == Idle && r.written == s.written + [Current(p, s, t).value] && s.accepted <= r.accepted
  {
    hide AfterTurn, RunFrom, AttemptEvents, GoesOn, Current;
    var w := TurnTakes(p, s, t);
    AttemptDelivers(p, w, t.attempt);
  }

  /** A turn whose dial or write fails writes nothing and leaves the worker waiting with the same message. */
  lemma TurnBreaks(p: Sender, s: State, t: Turn)
    requires GoesOn(p, s, t) && Current(p, s, t).Some? && Breaks(s, Current(p, s, t).value, t.attempt)
    ensures var r := AfterTurn(p, s, t);
            && r.phase == Waiting(Current(p, s, t).value) && r.conn.None? && r.written == s.written
            && s.accepted <= r.accepted
  {
    hide AfterTurn, RunFrom, AttemptEvents, GoesOn, Current;
    var w := TurnTakes(p, s, t);
    AttemptBreaks(p, w, t.attempt);
  }

  /** A turn with nothing to do changes nothing but what callers do. */
  lemma TurnRests(p: Sender, s: State, t: Turn)
    requires GoesOn(p, s, t) && Current(p, s, t).None?
    ensures AfterTurn(p, s, t) == RunFrom(s, Calls(p, t.callers)) && OnlyCalled(s, AfterTurn(p, s, t))
  {
    hide RunFrom, Calls;
    CallersOnlyCall(p, s, t.callers);
    NoStep(RunFrom(s, Calls(p, t.callers)));
  }

  /** A worker that finds the provider closed leaves: the connection is closed, and the message in hand is left. */
  lemma TurnLeaves(p: Sender, s: State, t: Turn)
    requires Waits(s) && RunFrom(s, Calls(p, t.callers)).done && t.picksDone
    ensures var r := AfterTurn(p, s, t); r.phase == Gone(InFlight(s.phase)) && r.conn.None? && r.written == s.written
  {
    hide RunFrom, Calls;
    CallersOnlyCall(p, s, t.callers);
    OneStep(RunFrom(s, Calls(p, t.callers)), Exit);
  }

  // ----- Many turns

  /** Turns in which every write succeeds and the worker does not leave, whatever callers do. */
  predicate AllWork(turns: seq<Turn>) {
    forall i :: 0 <= i < |turns| ==> Works(turns[i].attempt) && !turns[i].picksDone
  }

  lemma TurnMakesProgress(p: Sender, s: State, t: Turn)
    requires Conserves(s) && Waits(s) && Works(t.attempt) && !t.picksDone
    ensures var r := AfterTurn(p, s, t);
            && Conserves(r) && Waits(r) && s.accepted <= r.accepted
            && (|s.written| < |s.accepted| ==> |r.written| == |s.written| + 1)
            && (|s.written| == |s.accepted| ==> |r.written| >= |s.written|)
  {
    hide AfterTurn, RunFrom, Works, Conserves;
    CallersOnlyCall(p, s, t.callers);
    TurnConserves(p, s, t);
    if Current(p, s, t).Some? { TurnDelivers(p, s, t); } else { TurnRests(p, s, t); NothingUnwritten(s); }
  }

  lemma NothingUnwritten(s: State)
    requires Conserves(s) && s.phase.Idle? && s.queue == []
    ensures |s.written| == |s.accepted|
  {
  }

  lemma TurnConserves(p: Sender, s: State, t: Turn)
    requires Conserves(s)
    ensures Conserves(AfterTurn(p, s, t))
  {
    hide Conserves, RunFrom, Calls, WorkerEvents;
    var called := RunFrom(s, Calls(p, t.callers));
    RunConserves(s, Calls(p, t.callers));
    if Waits(s) && Waits(called) { RunConserves(called, WorkerEvents(p, called, t)); }
  }

  lemma {:induction false} TurnsMakeProgress(p: Sender, s: State, turns: seq<Turn>)
    requires Conserves(s) && Waits(s) && AllWork(turns)
    ensures var r := Work(p, s, turns);
            && Conserves(r) && Waits(r) && s.accepted <= r.accepted
            && (|r.written| >= |s.accepted| || |r.written| >= |s.written| + |turns|)
  {
    hide AfterTurn, Conserves, Works;
    if turns != [] {
      TurnsMakeProgress(p, s, turns[..|turns| - 1]);
      var before := Work(p, s, turns[..|turns| - 1]);
      TurnMakesProgress(p, before, turns[|turns| - 1]);
      WrittenIsAccepted(before);
    }
  }

  lemma WrittenIsAccepted(s: State)
    requires Conserves(s)
    ensures s.written <= s.accepted
  {
  }

  /** As many turns that work as there are messages not yet written get all of those written, in the order in which
      they were accepted, whatever callers send meanwhile. */
  lemma WorkingTurnsDrain(p: Sender, s: State, turns: seq<Turn>)
    requires Conserves(s) && Waits(s) && AllWork(turns) && |turns| >= |InFlight(s.phase)| + |s.queue|
    ensures s.accepted <= Work(p, s, turns).written
  {
    hide Work, AllWork;
    TurnsMakeProgress(p, s, turns);
    WrittenIsAccepted(Work(p, s, turns));
  }

  // ----- Without callers

  predicate NoCallers(t: Turn) {
    && t.callers == Callers([], false)
    && t.attempt.beforeDial == Callers([], false) && t.attempt.beforeWrite == Callers([], false)
  }

  lemma {:induction false} NothingSentNothingAccepted(s: State, es: seq<Event>)
    requires forall i :: 0 <= i < |es| ==> !es[i].Send?
    ensures RunFrom(s, es).accepted == s.accepted
  {
    if es != [] { NothingSentNothingAccepted(s, es[..|es| - 1]); }
  }

  lemma QuietTurnAcceptsNothing(p: Sender, s: State, t: Turn)
    requires NoCallers(t)
    ensures AfterTurn(p, s, t).accepted == s.accepted
  {
    hide RunFrom;
    var called := RunFrom(s, Calls(p, t.callers));
    NothingSentNothingAccepted(s, Calls(p, t.callers));
    if Waits(s) && Waits(called) { NothingSentNothingAccepted(called, WorkerEvents(p, called, t)); }
  }

  lemma {:induction false} QuietTurnsAcceptNothing(p: Sender, s: State, turns: seq<Turn>)
    requires forall i :: 0 <= i < |turns| ==> NoCallers(turns[i])
    ensures Work(p, s, turns).accepted == s.accepted
  {
    hide AfterTurn, NoCallers;
    if turns != [] {
      QuietTurnsAcceptNothing(p, s, turns[..|turns| - 1]);
      QuietTurnAcceptsNothing(p, Work(p, s, turns[..|turns| - 1]), turns[|turns| - 1]);
    }
  }

  /** Left alone for as many turns that work as there are messages in flight and queued, the worker has written
      everything that was accepted. */
  lemma QuietTurnsDrain(p: Sender, s: State, turns: seq<Turn>)
    requires Conserves(s) && Waits(s) && AllWork(turns) && |turns| >= |InFlight(s.phase)| + |s.queue|
    requires forall i :: 0 <= i < |turns| ==> NoCallers(turns[i])
    ensures Work(p, s, turns).written == Work(p, s, turns).accepted == s.accepted
  {
    hide Work, AllWork, NoCallers;
    WorkingTurnsDrain(p, s, turns);
    QuietTurnsAcceptNothing(p, s, turns);
    TurnsMakeProgress(p, s, turns);
    WrittenIsAccepted(Work(p, s, turns));
  }
}
