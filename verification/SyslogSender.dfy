/** The syslog sender: audit/syslog.go (`Send`, `Close`, `run`, `write`, `closeConn`).

    Callers put messages on a bounded queue; one worker takes them off, and writes each again, on a new
    connection, until a write succeeds or the provider is closed.
  */
module SyslogSender {
  import opened Wrappers
  import opened Text
  import opened SyslogFormat

  const QUEUE_SIZE := 10000

  /** Where the worker is: waiting on the queue, writing a message, waiting to retry it, or gone. */
  datatype Phase = Idle | Writing(message: string) | Waiting(message: string) | Gone(left: seq<string>)

  /** `accepted`, `written` and `closed` are history: the messages `Send` took, those whose write succeeded,
      and the bytes put on each connection closed so far.  `conn` holds the bytes put on the open one. */
  datatype State = State(queue: seq<string>, conn: Option<string>, done: bool, phase: Phase,
                         accepted: seq<string>, written: seq<string>, closed: seq<string>)

  const START := State([], None, false, Idle, [], [], [])

  /** A write that fails may have put any number of the message's bytes on the connection. */
  datatype Event =
    | Send(message: string)
    | Close
    | Take
    | Dial(ok: bool)
    | WriteOk
    | WriteFails(count: nat)
    | Retry
    | Exit

  predicate Enabled(s: State, e: Event) {
    match e
    case Send(_) => true
    case Close => true
    case Take => s.phase.Idle? && s.queue != []
    case Dial(_) => s.phase.Writing? && s.conn.None?
    case WriteOk => s.phase.Writing? && s.conn.Some?
    case WriteFails(n) => s.phase.Writing? && s.conn.Some? && n <= |s.phase.message|
    case Retry => s.phase.Waiting?
    case Exit => s.done && (s.phase.Idle? || s.phase.Waiting?)
  }

  /** The message the worker has taken and not finished with. */
  function InFlight(p: Phase): seq<string> {
    match p
    case Idle => []
    case Writing(m) => [m]
    case Waiting(m) => [m]
    case Gone(left) => left
  }

  function CloseConn(s: State): State {
    if s.conn.Some? then s.(conn := None, closed := s.closed + [s.conn.value]) else s
  }

  function Next(s: State, e: Event): State
    requires Enabled(s, e)
  {
    match e
    case Send(m) =>
      if |s.queue| < QUEUE_SIZE then s.(queue := s.queue + [m], accepted := s.accepted + [m]) else s
    case Close => s.(done := true)
    case Take => s.(queue := s.queue[1..], phase := Writing(s.queue[0]))
    case Dial(ok) => if ok then s.(conn := Some("")) else s.(phase := Waiting(s.phase.message))
    case WriteOk =>
      s.(conn := Some(s.conn.value + s.phase.message), written := s.written + [s.phase.message], phase := Idle)
    case WriteFails(n) =>
      CloseConn(s.(conn := Some(s.conn.value + s.phase.message[..n]), phase := Waiting(s.phase.message)))
    case Retry => s.(phase := Writing(s.phase.message))
    case Exit => CloseConn(s.(phase := Gone(InFlight(s.phase))))
  }

  /** An event that cannot happen where it stands changes nothing, so every sequence of events is a run. */
  function RunFrom(s: State, es: seq<Event>): State {
    if es == [] then s
    else
      var before := RunFrom(s, es[..|es| - 1]);
      var e := es[|es| - 1];
      if Enabled(before, e) then Next(before, e) else before
  }

  function Run(es: seq<Event>): State {
    RunFrom(START, es)
  }

  lemma {:induction false} RunFromConcat(s: State, es: seq<Event>, more: seq<Event>)
    ensures RunFrom(s, es + more) == RunFrom(RunFrom(s, es), more)
  {
    hide Enabled, Next;
    if more == [] {
      assert es + more == es;
    } else {
      var n := |more| - 1;
      RunFromConcat(s, es, more[..n]);
      assert (es + more)[..|es + more| - 1] == es + more[..n];
    }
  }

  // ----- Conservation

  predicate Conserves(s: State) {
    && s.accepted == s.written + InFlight(s.phase) + s.queue
    && |InFlight(s.phase)| <= 1
    && |s.queue| <= QUEUE_SIZE
  }

  lemma NextConserves(s: State, e: Event)
    requires Conserves(s) && Enabled(s, e)
    ensures Conserves(Next(s, e))
  {
  }

  lemma {:induction false} RunConserves(s: State, es: seq<Event>)
    requires Conserves(s)
    ensures Conserves(RunFrom(s, es))
  {
    hide Conserves, Enabled, Next;
    if es != [] {
      RunConserves(s, es[..|es| - 1]);
      var before, e := RunFrom(s, es[..|es| - 1]), es[|es| - 1];
      if Enabled(before, e) { NextConserves(before, e); }
    }
  }

  /** In every reachable state the accepted messages are the written ones, then the one in flight, then the
      queued ones, in order, and the queue is within its bound. */
  lemma NothingIsLostOrReordered(es: seq<Event>)
    ensures var s := Run(es);
            && s.accepted == s.written + InFlight(s.phase) + s.queue
            && |InFlight(s.phase)| <= 1
            && |s.queue| <= 10000
  {
    RunConserves(START, es);
  }

  // ----- What a receiver sees

  /** The complete LF-terminated lines of a stream; bytes after the last LF are no line. */
  function Lines(stream: string): seq<string>
    decreases |stream|
  {
    var p := Cut(stream, '\n');
    if p.found then [p.before + "\n"] + Lines(p.after) else []
  }

  /** The lines over all connections, in the order the connections were made. */
  function LinesOf(streams: seq<string>): seq<string> {
    if streams == [] then [] else LinesOf(streams[..|streams| - 1]) + Lines(streams[|streams| - 1])
  }

  function Streams(s: State): seq<string> {
    s.closed + if s.conn.Some? then [s.conn.value] else []
  }

  function Received(s: State): seq<string> {
    LinesOf(Streams(s))
  }

  /** The stream is at the start of a line. */
  predicate AtLineStart(stream: string) {
    stream == "" || stream[|stream| - 1] == '\n'
  }

  lemma CutAtLineStart(a: string)
    requires a != "" && AtLineStart(a)
    ensures Cut(a, '\n').found && AtLineStart(Cut(a, '\n').after)
  {
    hide Cut;
    var p := Cut(a, '\n');
    assert a[|a| - 1] in a;
    if p.after != "" { assert a[|a| - 1] == p.after[|p.after| - 1]; }
  }

  lemma {:induction false} LinesConcat(a: string, b: string)
    requires AtLineStart(a)
    ensures Lines(a + b) == Lines(a) + Lines(b)
    decreases |a|
  {
    hide Cut, AtLineStart;
    if a == "" {
      assert a + b == b;
      CutNone(a, '\n');
    } else {
      var p := Cut(a, '\n');
      CutAtLineStart(a);
      assert a + b == p.before + "\n" + (p.after + b);
      CutAt(p.before, '\n', p.after + b);
      LinesConcat(p.after, b);
    }
  }

  /** A framed message is one line; a proper prefix of it is none. */
  lemma LinesOfPrefix(m: string, n: nat)
    requires IsFramed(m) && n <= |m|
    ensures Lines(m[..n]) == if n == |m| then [m] else []
  {
    var text := m[..|m| - 1];
    if n == |m| {
      assert m[..n] == m == text + "\n" + "";
      CutAt(text, '\n', "");
    } else {
      assert forall i :: 0 <= i < n ==> m[i] == text[i];
      CutNone(m[..n], '\n');
    }
  }

  /** Writing to the open connection. */
  lemma WriteAddsLines(closed: seq<string>, stream: string, m: string, n: nat)
    requires AtLineStart(stream) && IsFramed(m) && n <= |m|
    ensures LinesOf(closed + [stream + m[..n]]) == LinesOf(closed + [stream]) + if n == |m| then [m] else []
  {
    hide Lines;
    LinesConcat(stream, m[..n]);
    LinesOfPrefix(m, n);
    assert (closed + [stream])[..|closed|] == closed == (closed + [stream + m[..n]])[..|closed|];
  }

  lemma DialAddsNoLine(closed: seq<string>)
    ensures LinesOf(closed + [""]) == LinesOf(closed)
  {
    assert (closed + [""])[..|closed|] == closed;
    CutNone("", '\n');
  }

  /** `got` is `sent` with some of its items repeated in place: line `i` is item `at[i]`, and the items are
      met in order, none left out. */
  predicate Repeats(got: seq<string>, sent: seq<string>, at: seq<nat>) {
    && |at| == |got|
    && (forall i :: 0 <= i < |at| ==> at[i] < |sent| && got[i] == sent[at[i]])
    && (forall i :: 0 <= i < |at| - 1 ==> at[i + 1] == at[i] || at[i + 1] == at[i] + 1)
    && (if at == [] then sent == [] else at[0] == 0 && at[|at| - 1] == |sent| - 1)
  }

  ghost predicate IsRepeated(got: seq<string>, sent: seq<string>) {
    exists at :: Repeats(got, sent, at)
  }

  lemma RepeatNext(got: seq<string>, sent: seq<string>, m: string)
    requires IsRepeated(got, sent)
    ensures IsRepeated(got + [m], sent + [m])
  {
    var at :| Repeats(got, sent, at);
    var next: seq<nat> := [|sent|];
    assert Repeats(got + [m], sent + [m], at + next);
  }

  lemma RepeatAgain(got: seq<string>, sent: seq<string>, m: string)
    requires IsRepeated(got, sent + [m])
    ensures IsRepeated(got + [m], sent + [m])
  {
    var at :| Repeats(got, sent + [m], at);
    var again: seq<nat> := [|sent|];
    assert Repeats(got + [m], sent + [m], at + again);
  }

  /** The messages seen so far are the written ones, or those and the one in flight. */
  ghost predicate Sees(got: seq<string>, s: State) {
    || IsRepeated(got, s.written)
    || (InFlight(s.phase) != [] && IsRepeated(got, s.written + InFlight(s.phase)))
  }

  predicate AllFramed(ms: seq<string>) {
    forall i :: 0 <= i < |ms| ==> IsFramed(ms[i])
  }

  ghost predicate Inv(s: State) {
    && Conserves(s)
    && AllFramed(s.accepted)
    && (s.conn.Some? ==> AtLineStart(s.conn.value))
    && Sees(Received(s), s)
  }

  predicate SendsFramed(e: Event) {
    e.Send? ==> IsFramed(e.message)
  }

  lemma InFlightIsFramed(s: State)
    requires Conserves(s) && AllFramed(s.accepted)
    ensures AllFramed(InFlight(s.phase))
  {
    hide IsFramed;
    forall i | 0 <= i < |InFlight(s.phase)| ensures IsFramed(InFlight(s.phase)[i]) {
      assert s.accepted[|s.written| + i] == InFlight(s.phase)[i];
    }
  }

  /** One more line of the message in flight keeps what is seen in step, whether it is the first or not. */
  lemma SeesOnce(got: seq<string>, s: State, m: string)
    requires Sees(got, s) && InFlight(s.phase) == [m]
    ensures IsRepeated(got + [m], s.written + [m])
  {
    hide Repeats;
    if IsRepeated(got, s.written) {
      RepeatNext(got, s.written, m);
    } else {
      RepeatAgain(got, s.written, m);
    }
  }

  lemma CloseConnReceives(s: State)
    ensures Received(CloseConn(s)) == Received(s)
  {
    assert Streams(CloseConn(s)) == Streams(s);
  }

  lemma WriteOkKeepsInv(s: State)
    requires Inv(s) && Enabled(s, WriteOk)
    ensures Inv(Next(s, WriteOk))
  {
    hide IsRepeated, IsFramed, LinesOf;
    var m, t := s.phase.message, Next(s, WriteOk);
    NextConserves(s, WriteOk);
    InFlightIsFramed(s);
    assert InFlight(s.phase)[0] == m;
    assert m[..|m|] == m;
    WriteAddsLines(s.closed, s.conn.value, m, |m|);
    SeesOnce(Received(s), s, m);
    assert AtLineStart(t.conn.value) by { FramedEndsLine(s.conn.value, m); }
  }

  lemma FramedEndsLine(stream: string, m: string)
    requires IsFramed(m)
    ensures AtLineStart(stream + m)
  {
  }

  lemma WriteFailsKeepsInv(s: State, n: nat)
    requires Inv(s) && Enabled(s, WriteFails(n))
    ensures Inv(Next(s, WriteFails(n)))
  {
    hide IsRepeated, IsFramed, LinesOf, AtLineStart;
    var m, t := s.phase.message, Next(s, WriteFails(n));
    NextConserves(s, WriteFails(n));
    InFlightIsFramed(s);
    assert InFlight(s.phase)[0] == m;
    WriteAddsLines(s.closed, s.conn.value, m, n);
    CloseConnReceives(s.(conn := Some(s.conn.value + m[..n]), phase := Waiting(m)));
    assert Received(t) == Received(s) + if n == |m| then [m] else [];
    if n == |m| {
      SeesOnce(Received(s), s, m);
    } else {
      assert Received(t) == Received(s);
    }
  }

  lemma NextKeepsInv(s: State, e: Event)
    requires Inv(s) && Enabled(s, e) && SendsFramed(e)
    ensures Inv(Next(s, e))
  {
    hide IsRepeated, IsFramed, LinesOf;
    var t := Next(s, e);
    NextConserves(s, e);
    match e
    case WriteOk => WriteOkKeepsInv(s);
    case WriteFails(n) => WriteFailsKeepsInv(s, n);
    case Dial(ok) =>
      DialAddsNoLine(s.closed);
      assert s.closed + [] == s.closed;
    case Exit => CloseConnReceives(s.(phase := Gone(InFlight(s.phase))));
    case _ =>
  }

  lemma {:induction false} RunKeepsInv(es: seq<Event>)
    requires forall i :: 0 <= i < |es| ==> SendsFramed(es[i])
    ensures Inv(Run(es))
  {
    hide Enabled, Next, SendsFramed;
    if es == [] {
      assert Repeats([], [], []);
      assert IsRepeated([], []);
      assert Received(START) == [];
    } else {
      RunKeepsInv(es[..|es| - 1]);
      var before, e := Run(es[..|es| - 1]), es[|es| - 1];
      if Enabled(before, e) { NextKeepsInv(before, e); }
    }
  }

  /** At least once and in order: with framed messages, the complete lines over all connections are a prefix
      of the accepted messages with only adjacent repeats, and the prefix holds every message written and at
      most the one in flight besides. */
  lemma LinesAreAcceptedInOrder(es: seq<Event>) returns (n: nat, at: seq<nat>)
    requires forall i :: 0 <= i < |es| ==> SendsFramed(es[i])
    ensures var s := Run(es);
            && n <= |s.accepted| && |s.written| <= n <= |s.written| + |InFlight(s.phase)|
            && Repeats(Received(s), s.accepted[..n], at)
  {
    hide Run, Repeats;
    RunKeepsInv(es);
    var s := Run(es);
    n := |s.written| + if IsRepeated(Received(s), s.written) then 0 else 1;
    assert s.accepted[..|s.written|] == s.written;
    assert InFlight(s.phase) != [] ==> s.accepted[..|s.written| + 1] == s.written + InFlight(s.phase);
    at :| Repeats(Received(s), s.accepted[..n], at);
  }

  /** Every message the provider formats for TCP or TLS is framed, if host name and time are single lines. */
  lemma FormattedSendIsFramed(p: Sender, e: AuditEvent)
    requires IsAccepted(p.settings) && p.settings.network != "udp"
    requires IsSingleLine(p.hostname) && IsSingleLine(e.time)
    ensures SendsFramed(Send(FormatMessage(p, e)))
  {
    StreamMessageIsFramedExactly(p, e);
  }

  // ----- No reachable state is stuck

  /** From wherever a worker that has not left is, a server that answers gets every accepted message written,
      in order. */
  lemma {:induction false} WorkerCanDrain(s: State) returns (es: seq<Event>)
    requires Conserves(s) && !s.phase.Gone?
    ensures RunFrom(s, es).written == s.accepted == RunFrom(s, es).accepted
    ensures forall i :: 0 <= i < |es| ==> !es[i].Send? && !es[i].Close?
    decreases |s.queue|, |InFlight(s.phase)|
  {
    hide Enabled, Next, RunFrom, Delivered;
    if s.phase.Idle? && s.queue == [] {
      es := [];
      NoStep(s);
    } else if s.phase.Idle? {
      var t := Taken(s);
      var rest := WorkerCanDrain(Delivered(t));
      DeliveryRuns(t);
      RunFromConcat(s, [Take], Delivery(t));
      RunFromConcat(s, [Take] + Delivery(t), rest);
      es := [Take] + Delivery(t) + rest;
    } else {
      var rest := WorkerCanDrain(Delivered(s));
      DeliveryRuns(s);
      RunFromConcat(s, Delivery(s), rest);
      es := Delivery(s) + rest;
    }
  }

  /** Idle, with a message waiting: the worker takes it. */
  lemma Taken(s: State) returns (t: State)
    requires Conserves(s) && s.phase.Idle? && s.queue != []
    ensures t == RunFrom(s, [Take]) && Conserves(t) && t.phase.Writing?
    ensures t.accepted == s.accepted && |t.queue| < |s.queue|
  {
    t := Next(s, Take);
    assert [Take][..0] == [];
    assert RunFrom(s, []) == s;
    NextConserves(s, Take);
  }

  /** The steps that deliver the message in flight. */
  function Delivery(s: State): seq<Event> {
    (if s.phase.Waiting? then [Retry] else []) + (if s.conn.None? then [Dial(true)] else []) + [WriteOk]
  }

  function Delivered(s: State): (t: State)
    requires Conserves(s) && (s.phase.Writing? || s.phase.Waiting?)
    ensures Conserves(t) && t.phase.Idle? && t.queue == s.queue && t.accepted == s.accepted
  {
    var m := s.phase.message;
    s.(conn := Some((if s.conn.Some? then s.conn.value else "") + m), written := s.written + [m], phase := Idle)
  }

  lemma OneStep(s: State, e: Event)
    requires Enabled(s, e)
    ensures RunFrom(s, [e]) == Next(s, e)
  {
    hide Enabled, Next;
    assert [e][..0] == [];
    assert RunFrom(s, []) == s;
  }

  lemma DeliveryRuns(s: State)
    requires Conserves(s) && (s.phase.Writing? || s.phase.Waiting?)
    ensures RunFrom(s, Delivery(s)) == Delivered(s)
  {
    hide RunFrom;
    var retry := if s.phase.Waiting? then [Retry] else [];
    var dial := if s.conn.None? then [Dial(true)] else [];
    var s1 := if s.phase.Waiting? then Next(s, Retry) else s;
    var s2 := if s1.conn.None? then Next(s1, Dial(true)) else s1;
    NoStep(s);
    NoStep(s1);
    if s.phase.Waiting? { OneStep(s, Retry); }
    if s1.conn.None? { OneStep(s1, Dial(true)); }
    OneStep(s2, WriteOk);
    RunFromConcat(s, retry, dial);
    RunFromConcat(s, retry + dial, [WriteOk]);
  }

  lemma NoStep(s: State)
    ensures RunFrom(s, []) == s
  {
  }

  /** Every run whose worker is still there goes on, without help from a caller, to a state in which all
      accepted messages are written. */
  lemma NoMessageIsStuck(es: seq<Event>) returns (more: seq<Event>)
    requires !Run(es).phase.Gone?
    ensures Run(es + more).written == Run(es + more).accepted == Run(es).accepted
    ensures forall i :: 0 <= i < |more| ==> !more[i].Send? && !more[i].Close?
  {
    RunConserves(START, es);
    more := WorkerCanDrain(Run(es));
    RunFromConcat(START, es, more);
  }
}
