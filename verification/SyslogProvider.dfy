/** The provider object of audit/syslog.go, every method of which makes steps of the sender's machine. */
module SyslogProvider {
  import opened Wrappers
  import opened SyslogFormat
  import opened SyslogSender

  /** What other goroutines do with the provider between two steps of the worker. */
  datatype Callers = Callers(sends: seq<AuditEvent>, close: bool)

  /** What happens during one write: whether dialing works, if it is needed, after how many bytes the write
      fails, if it does, and what callers do before each of the two. */
  datatype Attempt = Attempt(beforeDial: Callers, dials: bool, beforeWrite: Callers, failsAfter: Option<nat>)

  /** One wait of the worker: what callers do meanwhile, whether a closed `done` channel is the one `select`
      picks, and how the next write goes. */
  datatype Turn = Turn(callers: Callers, picksDone: bool, attempt: Attempt)

  predicate Fails(message: string, a: Attempt) {
    a.failsAfter.Some? && a.failsAfter.value <= |message|
  }

  /** A provider on TCP or TLS with a single-line host name. */
  predicate IsStream(p: Sender) {
    IsAccepted(p.settings) && p.settings.network != "udp" && IsSingleLine(p.hostname)
  }

  predicate SingleLineTimes(c: Callers) {
    forall j :: 0 <= j < |c.sends| ==> IsSingleLine(c.sends[j].time)
  }

  predicate TurnHasLines(t: Turn) {
    SingleLineTimes(t.callers) && SingleLineTimes(t.attempt.beforeDial) && SingleLineTimes(t.attempt.beforeWrite)
  }

  /** A stream provider whose events have single-line times. */
  predicate SendsLines(p: Sender, turns: seq<Turn>) {
    IsStream(p) && forall i :: 0 <= i < |turns| ==> TurnHasLines(turns[i])
  }

  // ----- The worker's turns as steps of the machine

  function Calls(p: Sender, c: Callers): seq<Event> {
    seq(|c.sends|, i requires 0 <= i < |c.sends| => Event.Send(FormatMessage(p, c.sends[i])))
    + if c.close then [Event.Close] else []
  }

  /** The steps of one attempt at the message being written. */
  function AttemptEvents(p: Sender, s: State, a: Attempt): seq<Event>
    requires s.phase.Writing?
  {
    var write := Calls(p, a.beforeWrite) + [WriteEvent(s.phase.message, a)];
    Calls(p, a.beforeDial)
    + if s.conn.Some? then write else if a.dials then [Dial(true)] + write else [Dial(false)]
  }

  function WriteEvent(message: string, a: Attempt): Event {
    if Fails(message, a) then WriteFails(a.failsAfter.value) else WriteOk
  }

  predicate Waits(s: State) {
    s.phase.Idle? || s.phase.Waiting?
  }

  /** What the worker does once `select` lets it go on. */
  function WorkerEvents(p: Sender, s: State, t: Turn): seq<Event>
    requires Waits(s)
  {
    if s.done && t.picksDone then [Exit]
    else if s.phase.Waiting? then [Retry] + AttemptEvents(p, Next(s, Retry), t.attempt)
    else if s.queue != [] then [Take] + AttemptEvents(p, Next(s, Take), t.attempt)
    else []
  }

  function AfterTurn(p: Sender, s: State, t: Turn): State {
    var called := RunFrom(s, Calls(p, t.callers));
    if Waits(s) && Waits(called) then RunFrom(called, WorkerEvents(p, called, t)) else s
  }

  function Work(p: Sender, s: State, turns: seq<Turn>): State {
    if turns == [] then s else AfterTurn(p, Work(p, s, turns[..|turns| - 1]), turns[|turns| - 1])
  }

  lemma WorkOneMore(p: Sender, s: State, turns: seq<Turn>, i: nat)
    requires i < |turns|
    ensures Work(p, s, turns[..i + 1]) == AfterTurn(p, Work(p, s, turns[..i]), turns[i])
  {
    assert turns[..i + 1][..i] == turns[..i];
  }

  lemma NoWork(p: Sender, s: State)
    ensures Work(p, s, []) == s
  {
  }

  /** A worker that has left takes no further turn. */
  lemma {:induction false} WorkEnds(p: Sender, s: State, turns: seq<Turn>, n: nat)
    requires n <= |turns| && Work(p, s, turns[..n]).phase.Gone?
    ensures Work(p, s, turns) == Work(p, s, turns[..n])
    decreases |turns|
  {
    if n == |turns| {
      assert turns[..n] == turns;
    } else {
      var rest := turns[..|turns| - 1];
      assert rest[..n] == turns[..n];
      WorkEnds(p, s, rest, n);
    }
  }

  // ----- Runs between states

  predicate AllSendFramed(es: seq<Event>) {
    forall i :: 0 <= i < |es| ==> SendsFramed(es[i])
  }

  /** Some run leads from `s` to `t`; if `framed`, one that sends only framed messages. */
  ghost predicate Reaches(s: State, t: State, framed: bool) {
    exists es :: RunFrom(s, es) == t && (framed ==> AllSendFramed(es))
  }

  lemma ReachesSelf(s: State, framed: bool)
    ensures Reaches(s, s, framed)
  {
    NoStep(s);
    assert AllSendFramed([]);
  }

  lemma ReachesOn(s: State, t: State, u: State, framed: bool)
    requires Reaches(s, t, framed) && Reaches(t, u, framed)
    ensures Reaches(s, u, framed)
  {
    hide RunFrom, SendsFramed;
    var es :| RunFrom(s, es) == t && (framed ==> AllSendFramed(es));
    var more :| RunFrom(t, more) == u && (framed ==> AllSendFramed(more));
    RunFromConcat(s, es, more);
    assert framed ==> AllSendFramed(es + more);
  }

  /** What a provider reaches from its start, it reaches safely: nothing is lost or reordered, and lines come
      in order with only adjacent repeats. */
  lemma ReachedIsSafe(t: State, framed: bool)
    requires Reaches(START, t, framed)
    ensures Conserves(t)
    ensures framed ==> Inv(t)
  {
    hide RunFrom, SendsFramed, Conserves, Inv;
    var es :| RunFrom(START, es) == t && (framed ==> AllSendFramed(es));
    RunConserves(START, es) by { assert Conserves(START) by { StartConserves(); } }
    if framed { RunKeepsInv(es); }
  }

  lemma StartConserves()
    ensures Conserves(START)
  {
  }

  lemma {:induction false} RunReaches(s: State, es: seq<Event>, framed: bool)
    requires framed ==> AllSendFramed(es)
    ensures Reaches(s, RunFrom(s, es), framed)
  {
  }

  lemma CallsAreFramed(p: Sender, c: Callers)
    requires IsStream(p) && SingleLineTimes(c)
    ensures AllSendFramed(Calls(p, c))
  {
    hide IsAccepted, IsFramed, FormatMessage;
    forall i | 0 <= i < |c.sends| ensures SendsFramed(Calls(p, c)[i]) { FormattedSendIsFramed(p, c.sends[i]); }
  }

  lemma FramedConcat(a: seq<Event>, b: seq<Event>)
    requires AllSendFramed(a) && AllSendFramed(b)
    ensures AllSendFramed(a + b)
  {
    hide SendsFramed;
  }

  lemma AttemptIsFramed(p: Sender, s: State, a: Attempt)
    requires s.phase.Writing? && IsStream(p) && SingleLineTimes(a.beforeDial) && SingleLineTimes(a.beforeWrite)
    ensures AllSendFramed(AttemptEvents(p, s, a))
  {
    hide AllSendFramed, Calls, IsStream, SingleLineTimes;
    var first, second, write := Calls(p, a.beforeDial), Calls(p, a.beforeWrite), [WriteEvent(s.phase.message, a)];
    CallsAreFramed(p, a.beforeDial);
    CallsAreFramed(p, a.beforeWrite);
    OneIsFramed(write[0]);
    OneIsFramed(Dial(a.dials));
    FramedConcat(second, write);
    FramedConcat([Dial(a.dials)], second + write);
    FramedConcat(first, second + write);
    FramedConcat(first, [Dial(a.dials)] + (second + write));
    FramedConcat(first, [Dial(a.dials)]);
  }

  lemma OneIsFramed(e: Event)
    requires !e.Send?
    ensures AllSendFramed([e])
  {
  }

  lemma WorkerIsFramed(p: Sender, s: State, t: Turn)
    requires Waits(s) && IsStream(p) && TurnHasLines(t)
    ensures AllSendFramed(WorkerEvents(p, s, t))
  {
    hide AllSendFramed, AttemptEvents, IsStream, SingleLineTimes;
    OneIsFramed(Exit);
    OneIsFramed(Retry);
    OneIsFramed(Take);
    if s.done && t.picksDone {
    } else if s.phase.Waiting? {
      AttemptIsFramed(p, Next(s, Retry), t.attempt);
      FramedConcat([Retry], AttemptEvents(p, Next(s, Retry), t.attempt));
    } else if s.queue != [] {
      AttemptIsFramed(p, Next(s, Take), t.attempt);
      FramedConcat([Take], AttemptEvents(p, Next(s, Take), t.attempt));
    } else {
      NothingIsFramed();
    }
  }

  lemma NothingIsFramed()
    ensures AllSendFramed([])
  {
  }

  lemma TurnReaches(p: Sender, s: State, t: Turn, framed: bool)
    requires framed ==> IsStream(p) && TurnHasLines(t)
    ensures Reaches(s, AfterTurn(p, s, t), framed)
  {
    hide Reaches, RunFrom, Calls, WorkerEvents, AllSendFramed, IsStream, SingleLineTimes;
    var called := RunFrom(s, Calls(p, t.callers));
    ReachesSelf(s, framed);
    if Waits(s) && Waits(called) {
      if framed {
        CallsAreFramed(p, t.callers);
        WorkerIsFramed(p, called, t);
      }
      RunReaches(s, Calls(p, t.callers), framed);
      RunReaches(called, WorkerEvents(p, called, t), framed);
      ReachesOn(s, called, AfterTurn(p, s, t), framed);
    }
  }

  /** Whatever callers and network do, the worker makes a run of the machine, and the run sends only framed
      messages if the provider is on a stream and host name and times are single lines. */
  lemma {:induction false} WorkReaches(p: Sender, s: State, turns: seq<Turn>)
    ensures Reaches(s, Work(p, s, turns), SendsLines(p, turns))
  {
    hide Reaches, AfterTurn, IsStream, TurnHasLines;
    if turns == [] {
      ReachesSelf(s, SendsLines(p, turns));
    } else {
      var rest, t := turns[..|turns| - 1], turns[|turns| - 1];
      var framed := SendsLines(p, turns);
      WorkReaches(p, s, rest);
      ReachesWeaker(s, Work(p, s, rest), SendsLines(p, rest), framed);
      TurnReaches(p, Work(p, s, rest), t, framed);
      ReachesOn(s, Work(p, s, rest), Work(p, s, turns), framed);
    }
  }

  lemma ReachesWeaker(s: State, t: State, strong: bool, weak: bool)
    requires Reaches(s, t, strong) && (weak ==> strong)
    ensures Reaches(s, t, weak)
  {
  }

  /** Nothing a worker does from the start loses or reorders a message, and its lines come in order with only
      adjacent repeats. */
  lemma WorkIsSafe(p: Sender, turns: seq<Turn>)
    ensures Conserves(Work(p, START, turns))
    ensures SendsLines(p, turns) ==> Inv(Work(p, START, turns))
  {
    hide Work, Conserves, Inv, Reaches;
    WorkReaches(p, START, turns);
    ReachedIsSafe(Work(p, START, turns), SendsLines(p, turns));
  }

  class Provider {
    const sender: Sender
    var queue: seq<string>
    var conn: Option<string>
    var done: bool
    ghost var phase: Phase
    ghost var accepted: seq<string>
    ghost var written: seq<string>
    ghost var closed: seq<string>

    ghost function Now(): State
      reads this
    {
      State(queue, conn, done, phase, accepted, written, closed)
    }

    constructor (sender: Sender)
      ensures Now() == START && this.sender == sender
    {
      this.sender := sender;
      queue, conn, done := [], None, false;
      phase, accepted, written, closed := Idle, [], [], [];
    }

    /** Refused exactly when the queue is full. */
    method Send(e: AuditEvent) returns (ok: bool)
      modifies this
      ensures Now() == Next(old(Now()), Event.Send(FormatMessage(sender, e)))
      ensures ok ==> queue == old(queue) + [FormatMessage(sender, e)]
      ensures ok <==> accepted == old(accepted) + [FormatMessage(sender, e)]
      ensures ok <==> |old(queue)| < 10000
      ensures !ok ==> Now() == old(Now())
    {
      var message := FormatMessage(sender, e);
      ok := |queue| < QUEUE_SIZE;
      if ok {
        queue := queue + [message];
        accepted := accepted + [message];
      }
    }

    method Close()
      modifies this
      ensures Now() == Next(old(Now()), Event.Close) && done
    {
      done := true;
    }

    method CloseConn()
      modifies this
      ensures Now() == SyslogSender.CloseConn(old(Now()))
      ensures conn.None? && closed == old(closed) + if old(conn).Some? then [old(conn).value] else []
    {
      if conn.Some? {
        closed := closed + [conn.value];
        conn := None;
      }
    }

    /** One attempt at a message: written and idle again, or disconnected and waiting. */
    method Write(message: string, a: Attempt) returns (ok: bool)
      requires phase == Writing(message)
      modifies this
      ensures Now() == RunFrom(old(Now()), AttemptEvents(sender, old(Now()), a))
      ensures ok <==> (old(conn).Some? || a.dials) && !Fails(message, a)
      ensures phase == if ok then Idle else Waiting(message)
      ensures written == if ok then old(written) + [message] else old(written)
      ensures ok ==> conn == Some((if old(conn).Some? then old(conn).value else "") + message) && closed == old(closed)
      ensures !ok ==> conn.None?
      ensures !ok && (old(conn).Some? || a.dials) ==>
                var sent := message[..a.failsAfter.value];
                closed == old(closed) + [(if old(conn).Some? then old(conn).value else "") + sent]
      ensures !ok && old(conn).None? && !a.dials ==> closed == old(closed)
    {
      hide RunFrom, Calls;
      ghost var s := Now();
      ghost var first := Calls(sender, a.beforeDial);
      Meanwhile(a.beforeDial);
      ghost var es := first;
      if conn.None? {
        OneStep(Now(), Dial(a.dials));
        RunFromConcat(s, first, [Dial(a.dials)]);
        if !a.dials {
          phase := Waiting(message);
          return false;
        }
        conn := Some("");
        es := first + [Dial(true)];
      }
      ghost var dialed := Now();
      ghost var second, write := Calls(sender, a.beforeWrite), WriteEvent(message, a);
      Meanwhile(a.beforeWrite);
      RunFromConcat(s, es, second);
      OneStep(Now(), write);
      RunFromConcat(s, es + second, [write]);
      assert AttemptEvents(sender, s, a) == es + second + [write];
      if Fails(message, a) {
        conn := Some(conn.value + message[..a.failsAfter.value]);
        phase := Waiting(message);
        CloseConn();
        ok := false;
      } else {
        conn := Some(conn.value + message);
        written := written + [message];
        phase := Idle;
        ok := true;
      }
    }

    /** What callers do between two steps of the worker. */
    method Meanwhile(c: Callers)
      modifies this
      ensures Now() == RunFrom(old(Now()), Calls(sender, c))
      ensures phase == old(phase) && conn == old(conn) && written == old(written) && closed == old(closed)
    {
      hide FormatMessage;
      ghost var s, calls := Now(), Calls(sender, c);
      NoStep(s);
      for i := 0 to |c.sends|
        invariant Now() == RunFrom(s, calls[..i])
        invariant phase == old(phase) && conn == old(conn) && written == old(written) && closed == old(closed)
      {
        assert calls[..i + 1][..i] == calls[..i];
        var _ := Send(c.sends[i]);
      }
      assert calls == calls[..|c.sends|] + if c.close then [Event.Close] else [];
      if c.close {
        assert calls[..|calls| - 1] == calls[..|c.sends|];
        Close();
      } else {
        assert calls == calls[..|c.sends|];
      }
    }

    /** The worker's return: the connection is closed. */
    method Leave()
      requires done && Waits(Now())
      modifies this
      ensures Now() == RunFrom(old(Now()), [Exit])
      ensures phase == Gone(InFlight(old(phase))) && conn.None?
    {
      OneStep(Now(), Exit);
      phase := Gone(InFlight(phase));
      CloseConn();
    }

    /** Taking the first message off the queue and attempting it. */
    method TakeAndWrite(a: Attempt) returns (message: string, ok: bool)
      requires phase == Idle && queue != []
      modifies this
      ensures Now() == RunFrom(old(Now()), [Take] + AttemptEvents(sender, Next(old(Now()), Take), a))
      ensures message == old(queue)[0] && phase == if ok then Idle else Waiting(message)
    {
      hide RunFrom;
      ghost var s := Now();
      OneStep(s, Take);
      RunFromConcat(s, [Take], AttemptEvents(sender, Next(s, Take), a));
      message := queue[0];
      queue, phase := queue[1..], Writing(message);
      ok := Write(message, a);
    }

    method RetryWrite(message: string, a: Attempt) returns (ok: bool)
      requires phase == Waiting(message)
      modifies this
      ensures Now() == RunFrom(old(Now()), [Retry] + AttemptEvents(sender, Next(old(Now()), Retry), a))
      ensures phase == if ok then Idle else Waiting(message)
    {
      hide RunFrom;
      ghost var s := Now();
      OneStep(s, Retry);
      RunFromConcat(s, [Retry], AttemptEvents(sender, Next(s, Retry), a));
      phase := Writing(message);
      ok := Write(message, a);
    }

    /** The worker, as far as the given turns take it. */
    method Run(turns: seq<Turn>)
      requires phase == Idle
      modifies this
      ensures Now() == Work(sender, old(Now()), turns)
    {
      hide RunFrom, Calls, AttemptEvents, Next, Enabled, Work;
      ghost var s := Now();
      var i := 0;
      assert turns[..0] == [];
      NoWork(sender, s);
      while i < |turns|
        invariant 0 <= i <= |turns| && phase == Idle
        invariant Now() == Work(sender, s, turns[..i])
      {
        WorkOneMore(sender, s, turns, i);
        Meanwhile(turns[i].callers);
        if done && turns[i].picksDone {
          Leave();
          WorkEnds(sender, s, turns, i + 1);
          return;
        }
        if queue == [] {
          NoStep(Now());
        } else {
          var message, ok := TakeAndWrite(turns[i].attempt);
          while !ok && i + 1 < |turns|
            invariant 0 <= i < |turns| && phase == if ok then Idle else Waiting(message)
            invariant Now() == Work(sender, s, turns[..i + 1])
            decreases |turns| - i
          {
            i := i + 1;
            WorkOneMore(sender, s, turns, i);
            Meanwhile(turns[i].callers);
            if done && turns[i].picksDone {
              Leave();
              WorkEnds(sender, s, turns, i + 1);
              return;
            }
            ok := RetryWrite(message, turns[i].attempt);
          }
          if !ok {
            assert turns[..i + 1] == turns;
            return;
          }
        }
        i := i + 1;
      }
      assert turns[..i] == turns;
    }
  }
}
