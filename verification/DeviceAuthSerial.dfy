/** The device authorization grant at request grain: a request begins only when no other one is in
    progress, so each request is one step.  Such runs are runs of the machine, and more is true of
    them than of arbitrary interleavings. */
module DeviceAuthSerial {
  import opened Wrappers
  import opened DeviceAuthStore
  import opened DeviceAuthMachine
  import opened DeviceAuthInvariant
  import opened DeviceAuthHistory
  import opened DeviceAuthTheorems

  predicate SerialEnabled(s: Sys, l: Label) {
    Enabled(s, l) && (l.Enter? ==> s.procs == map[])
  }

  ghost predicate SerialFollows(s: Sys, t: Sys) {
    exists l :: SerialEnabled(s, l) && t == Next(s, l)
  }

  ghost predicate IsSerialRun(run: seq<Sys>) {
    && |run| > 0
    && run[0] == INITIAL
    && forall i :: 0 <= i < |run| - 1 ==> SerialFollows(run[i], run[i + 1])
  }

  lemma SerialRunIsARun(run: seq<Sys>)
    requires IsSerialRun(run)
    ensures IsRun(run)
  {
    forall i | 0 <= i < |run| - 1 ensures Follows(run[i], run[i + 1]) {
      assert SerialFollows(run[i], run[i + 1]);
    }
  }

  /** A run extended by one step. */
  lemma ExtendSerialRun(run: seq<Sys>, l: Label) returns (longer: seq<Sys>)
    requires |run| > 0 && IsSerialRun(run) && SerialEnabled(run[|run| - 1], l)
    ensures IsSerialRun(longer) && longer == run + [Next(run[|run| - 1], l)]
  {
    longer := run + [Next(run[|run| - 1], l)];
    forall i | 0 <= i < |longer| - 1 ensures SerialFollows(longer[i], longer[i + 1]) {
      if i < |run| - 1 { assert SerialFollows(run[i], run[i + 1]); }
    }
  }

  /** A flow that was cancelled before anybody approved it: nothing in the map leads to it. */
  predicate Unreachable(s: Sys, d: string) {
    && d in s.flows && s.flows[d].phase.Offered?
    && d !in s.store
    && (forall key :: key in s.store ==> s.store[key].userName != d)
    && (forall r :: r in s.procs ==> !WorksOn(s.procs[r], d))
  }

  /** A flow whose browser completion happened. */
  predicate Closed(s: Sys, d: string) {
    && d in s.flows && s.flows[d].phase.Granted?
    && d !in s.store
    && (forall r :: r in s.procs ==> !WorksOn(s.procs[r], d))
  }

  /** The request has the flow of `d` in hand. */
  predicate WorksOn(p: Proc, d: string) {
    match p
    case Probing(a, _) => a.deviceCode == d
    case PuttingDevice(a, _) => a.deviceCode == d
    case PuttingUser(a, _) => a.deviceCode == d
    case LoadingDevice(key, _, _, _) => key == d
    case PuttingApproval(key, _, _) => key == d
    case CancelDroppingUser(_, key) => key == d
    case CancelDroppingDevice(_, key) => key == d
    case Claiming(t, _, _) => t.deviceCode == d
    case Minting(t, _, _) => t.deviceCode == d
    case Restoring(t, _, _) => t.deviceCode == d
    case CompleteDropping(k, _) => k.deviceCode == d
    case _ => false
  }

  /** What the one request in progress may rely on because nothing interferes with it. */
  predicate AloneOk(s: Sys, p: Proc) {
    match p
    case Probing(a, _) => a.deviceCode !in s.store
    case PuttingDevice(a, u) => a.deviceCode !in s.store && u !in s.store
    case PuttingUser(_, u) => u !in s.store
    case Claiming(t, loaded, _) => t.deviceCode in s.store ==> s.store[t.deviceCode] == loaded
    case Minting(_, _, c) => c.status == Approved
    case Restoring(_, c, _) => c.status == Approved
    case CancelDroppingUser(u, d) => d in s.flows && s.flows[d].phase.Offered?
    case CancelDroppingDevice(u, d) =>
      && d in s.flows && s.flows[d].phase.Offered?
      && forall key :: key in s.store ==> s.store[key].userName != d
    case _ => true
  }

  ghost predicate Alone(s: Sys) {
    && (forall r1, r2 :: r1 in s.procs && r2 in s.procs ==> r1 == r2)
    && (forall r :: r in s.procs ==> AloneOk(s, s.procs[r]))
    && (forall d :: Of(s.log, Cancels, d) != [] ==> Unreachable(s, d))
    && (forall d :: Of(s.log, Completions, d) != [] ==> Closed(s, d) && |Of(s.log, Completions, d)| == 1)
    && (forall d :: d in s.flows ==> s.flows[d].tokens <= 1)
  }

  // ----- Preservation

  /** What a step of a request that does not work on `d` can do to the map and to the flow of `d`. */
  predicate LeavesAlone(s: Sys, t: Sys, d: string) {
    && d in s.flows && d in t.flows && t.flows[d] == s.flows[d]
    && (d !in s.store ==> d !in t.store)
    && ((forall key :: key in s.store ==> s.store[key].userName != d)
        ==> (forall key :: key in t.store ==> t.store[key].userName != d))
  }

  /** The request reaches the flow of `d` through the map. */
  predicate Finds(s: Sys, p: Proc, d: string) {
    match p
    case Consuming(u, _, _, _) => u in s.store && s.store[u].userName == d
    case CancelLoading(u, _) => u in s.store && s.store[u].userName == d
    case TokenLoading(t) => t.deviceCode == d && d in s.store
    case CompleteLoading(k) => k.deviceCode == d && d in s.store
    case _ => false
  }

  lemma StartLeavesAlone(s: Sys, r: nat, d: string)
    requires Inv(s) && r in s.procs && d in s.flows && !WorksOn(s.procs[r], d)
    requires s.procs[r].Probing? || s.procs[r].PuttingDevice? || s.procs[r].PuttingUser?
    ensures var t := StepStart(s, r, s.procs[r]);
            LeavesAlone(s, t, d) && (r in t.procs ==> !WorksOn(t.procs[r], d))
  {
    hide Inv;
    ProcFact(s, r);
    FlowFact(s, d);
  }

  lemma ApproveLeavesAlone(s: Sys, r: nat, d: string)
    requires Inv(s) && r in s.procs && d in s.flows && !WorksOn(s.procs[r], d) && !Finds(s, s.procs[r], d)
    requires s.procs[r].Consuming? || s.procs[r].LoadingDevice? || s.procs[r].PuttingApproval?
    ensures var t := StepApprove(s, r, s.procs[r]);
            LeavesAlone(s, t, d) && (r in t.procs ==> !WorksOn(t.procs[r], d))
  {
    hide Inv;
    ProcFact(s, r);
    FlowFact(s, d);
  }

  lemma TokenLeavesAlone(s: Sys, r: nat, d: string)
    requires Inv(s) && r in s.procs && d in s.flows && !WorksOn(s.procs[r], d) && !Finds(s, s.procs[r], d)
    requires IsTokenProc(s.procs[r])
    ensures var t := StepToken(s, r, s.procs[r]);
            LeavesAlone(s, t, d) && (r in t.procs ==> !WorksOn(t.procs[r], d))
  {
    hide Inv, Admits, IsLoadedCopy, IsDeviceEntry, IsOffered, IsOpening;
    ProcFact(s, r);
    FlowFact(s, d);
    if s.procs[r].Restoring? { RestoredUser(s, r); }
  }

  lemma RestoredUser(s: Sys, r: nat)
    requires Inv(s) && r in s.procs && s.procs[r].Restoring?
    ensures IsUserId(s.procs[r].claimed.userName)
  {
    hide Inv;
    ProcFact(s, r);
    FlowFact(s, s.procs[r].exchange.deviceCode);
  }

  lemma OtherLeavesAlone(s: Sys, r: nat, d: string)
    requires r in s.procs && d in s.flows && !WorksOn(s.procs[r], d) && !Finds(s, s.procs[r], d)
    requires var p := s.procs[r];
             || p.CancelLoading? || p.CancelDroppingUser? || p.CancelDroppingDevice?
             || p.CompleteLoading? || p.CompleteDropping? || p.Dropping?
    ensures var t := Advance(s, r);
            LeavesAlone(s, t, d) && (r in t.procs ==> !WorksOn(t.procs[r], d))
  {
  }

  lemma StepLeavesAlone(s: Sys, r: nat, d: string)
    requires Inv(s) && r in s.procs && d in s.flows && !WorksOn(s.procs[r], d) && !Finds(s, s.procs[r], d)
    ensures var t := Advance(s, r);
            LeavesAlone(s, t, d) && (r in t.procs ==> !WorksOn(t.procs[r], d))
  {
    hide Inv, StepStart, StepApprove, StepToken, StepCancel, StepComplete, LeavesAlone, WorksOn, Finds;
    var p := s.procs[r];
    if p.Probing? || p.PuttingDevice? || p.PuttingUser? { StartLeavesAlone(s, r, d); }
    else if p.Consuming? || p.LoadingDevice? || p.PuttingApproval? { ApproveLeavesAlone(s, r, d); }
    else if IsTokenProc(p) { TokenLeavesAlone(s, r, d); }
    else { OtherLeavesAlone(s, r, d); }
  }

  /** The events of one kind that a step adds. */
  function EventsOf(p: Proc, kind: Kind, d: string): seq<Event> {
    match p
    case CancelDroppingDevice(u, key) => if kind == Cancels && key == d then [Cancelled(key, u)] else []
    case CompleteDropping(k, c) =>
      if kind == Completions && k.deviceCode == d then [Completed(d, c.userName, ResponseType(k), k.scope)] else []
    case _ => []
  }

  lemma StepLogs(s: Sys, r: nat) returns (e: Option<Event>)
    requires r in s.procs
    ensures Advance(s, r).log == s.log + (if e.Some? then [e.value] else [])
    ensures e.Some? && e.value.Cancelled? <==> s.procs[r].CancelDroppingDevice?
    ensures e.Some? && e.value.Completed? <==> s.procs[r].CompleteDropping?
    ensures s.procs[r].CancelDroppingDevice? ==> e.value == Cancelled(s.procs[r].key, s.procs[r].userCode)
    ensures s.procs[r].CompleteDropping? ==>
              var CompleteDropping(k, c) := s.procs[r];
              e.value == Completed(k.deviceCode, c.userName, ResponseType(k), k.scope)
  {
    hide StepToken, StepApprove;
    var p := s.procs[r];
    e := None;
    if p.PuttingUser? { e := Some(Started(p.start, p.userCode)); }
    else if p.CancelDroppingDevice? { e := Some(Cancelled(p.key, p.userCode)); }
    else if p.CompleteDropping? {
      var k := p.complete;
      e := Some(Completed(k.deviceCode, p.loaded.userName, ResponseType(k), k.scope));
    }
    else if p.Consuming? || p.LoadingDevice? || p.PuttingApproval? { e := ApproveLogs(s, r); }
    else if IsTokenProc(p) { e := TokenLogs(s, r); }
  }

  lemma ApproveLogs(s: Sys, r: nat) returns (e: Option<Event>)
    requires r in s.procs && (s.procs[r].Consuming? || s.procs[r].LoadingDevice? || s.procs[r].PuttingApproval?)
    ensures StepApprove(s, r, s.procs[r]).log == s.log + (if e.Some? then [e.value] else [])
    ensures e.Some? ==> !e.value.Cancelled? && !e.value.Completed?
  {
    var p := s.procs[r];
    e := if p.PuttingApproval? then Some(ApprovedBy(p.key, p.userCode, p.cache.userName)) else None;
  }

  lemma TokenLogs(s: Sys, r: nat) returns (e: Option<Event>)
    requires r in s.procs && IsTokenProc(s.procs[r])
    ensures StepToken(s, r, s.procs[r]).log == s.log + (if e.Some? then [e.value] else [])
    ensures e.Some? ==> !e.value.Cancelled? && !e.value.Completed?
  {
    var t := StepToken(s, r, s.procs[r]);
    e := if t.log == s.log then None else Some(t.log[|s.log|]);
  }

  lemma StepEvents(s: Sys, r: nat, kind: Kind, d: string)
    requires r in s.procs && (kind == Cancels || kind == Completions)
    ensures Of(Advance(s, r).log, kind, d) == Of(s.log, kind, d) + EventsOf(s.procs[r], kind, d)
  {
    hide Advance, Of;
    var e := StepLogs(s, r);
    if e.Some? { OfAppend(s.log, e.value, kind, d); } else { assert Advance(s, r).log == s.log; }
  }

  /** The only request in progress. */
  ghost predicate OnlyOne(s: Sys, r: nat) {
    r in s.procs && forall r' :: r' in s.procs ==> r' == r
  }

  lemma StepStaysAlone(s: Sys, r: nat, r': nat)
    requires OnlyOne(s, r) && r' in Advance(s, r).procs
    ensures r' == r
  {
    hide Advance;
    if r' != r { OthersKeepTheirPlace(s, r, r'); }
  }

  lemma CancelledStaysUnreachable(s: Sys, r: nat, d: string)
    requires Inv(s) && OnlyOne(s, r) && AloneOk(s, s.procs[r])
    requires Of(s.log, Cancels, d) != [] ==> Unreachable(s, d)
    requires Of(Advance(s, r).log, Cancels, d) != []
    ensures Unreachable(Advance(s, r), d)
  {
    StepEvents(s, r, Cancels, d);
    hide Inv, Advance, Of;
    if Unreachable(s, d) {
      StepLeavesAlone(s, r, d);
      forall r' | r' in Advance(s, r).procs ensures !WorksOn(Advance(s, r).procs[r'], d) { StepStaysAlone(s, r, r'); }
    } else {
      CancelEffect(s, r);
    }
  }

  lemma CancelEffect(s: Sys, r: nat)
    requires OnlyOne(s, r) && s.procs[r].CancelDroppingDevice? && AloneOk(s, s.procs[r])
    ensures Unreachable(Advance(s, r), s.procs[r].key)
  {
  }

  lemma ClosedLogsNothing(s: Sys, r: nat, d: string)
    requires r in s.procs
    ensures Closed(s, d) ==> EventsOf(s.procs[r], Completions, d) == []
    ensures EventsOf(s.procs[r], Completions, d) != [] ==>
              && s.procs[r].CompleteDropping? && s.procs[r].complete.deviceCode == d
              && |EventsOf(s.procs[r], Completions, d)| == 1
  {
  }

  lemma ClosedIsNotFound(s: Sys, r: nat, d: string)
    requires Inv(s) && Closed(s, d) && r in s.procs
    ensures !Finds(s, s.procs[r], d)
  {
    hide Inv, WorksOn;
    var p := s.procs[r];
    if (p.Consuming? || p.CancelLoading?) && p.userCode in s.store && s.store[p.userCode].userName == d {
      LinkedOnce(s, p.userCode);
    }
  }

  lemma CompletedStaysClosed(s: Sys, r: nat, d: string)
    requires Inv(s) && OnlyOne(s, r)
    requires Of(s.log, Completions, d) != [] ==> Closed(s, d) && |Of(s.log, Completions, d)| == 1
    requires Of(Advance(s, r).log, Completions, d) != []
    ensures Closed(Advance(s, r), d) && |Of(Advance(s, r).log, Completions, d)| == 1
  {
    StepEvents(s, r, Completions, d);
    ClosedLogsNothing(s, r, d);
    hide Inv, Advance, Of, WorksOn, Finds, EventsOf;
    if Closed(s, d) {
      ClosedIsNotFound(s, r, d);
      StepLeavesAlone(s, r, d);
      forall r' | r' in Advance(s, r).procs ensures !WorksOn(Advance(s, r).procs[r'], d) { StepStaysAlone(s, r, r'); }
    } else {
      CompleteEffect(s, r);
    }
  }

  lemma CompleteEffect(s: Sys, r: nat)
    requires Inv(s) && OnlyOne(s, r) && s.procs[r].CompleteDropping?
    ensures Closed(Advance(s, r), s.procs[r].complete.deviceCode)
  {
    hide Inv;
    ProcFact(s, r);
  }

  lemma TokenIsAloneOk(s: Sys, r: nat)
    requires Inv(s) && OnlyOne(s, r) && AloneOk(s, s.procs[r]) && IsTokenProc(s.procs[r])
    requires r in StepToken(s, r, s.procs[r]).procs
    ensures var t := StepToken(s, r, s.procs[r]); AloneOk(t, t.procs[r])
  {
    hide Inv, IsOpening, IsOffered, FlowOk;
    var d := s.procs[r].exchange.deviceCode;
    ProcFact(s, r);
    if d in s.store { EntryFact(s, d); }
  }

  lemma CancelIsAloneOk(s: Sys, r: nat)
    requires Inv(s) && OnlyOne(s, r) && AloneOk(s, s.procs[r])
    requires s.procs[r].CancelLoading? || s.procs[r].CancelDroppingUser?
    requires r in StepCancel(s, r, s.procs[r]).procs
    ensures var t := StepCancel(s, r, s.procs[r]); AloneOk(t, t.procs[r])
  {
    hide Inv;
    var p := s.procs[r];
    ProcFact(s, r);
    if p.CancelDroppingUser? {
      CancelDropsLink(s, r);
    } else {
      EntryFact(s, p.userCode);
      if s.store[p.userCode].userName in s.flows { LinkedOnce(s, p.userCode); }
    }
  }

  lemma StartIsAloneOk(s: Sys, r: nat)
    requires Inv(s) && OnlyOne(s, r) && AloneOk(s, s.procs[r])
    requires s.procs[r].Probing? || s.procs[r].PuttingDevice? || s.procs[r].PuttingUser?
    requires r in StepStart(s, r, s.procs[r]).procs
    ensures var t := StepStart(s, r, s.procs[r]); AloneOk(t, t.procs[r])
  {
    hide Inv;
    ProcFact(s, r);
  }

  lemma StepIsAloneOk(s: Sys, r: nat)
    requires Inv(s) && OnlyOne(s, r) && AloneOk(s, s.procs[r]) && r in Advance(s, r).procs
    ensures AloneOk(Advance(s, r), Advance(s, r).procs[r])
  {
    hide Inv, StepToken, StepStart, StepApprove, StepCancel;
    var p := s.procs[r];
    if p.Probing? || p.PuttingDevice? || p.PuttingUser? { StartIsAloneOk(s, r); }
    else if p.Consuming? || p.LoadingDevice? || p.PuttingApproval? { ApprovalIsAloneOk(s, r); }
    else if p.CancelLoading? || p.CancelDroppingUser? { CancelIsAloneOk(s, r); }
    else if p.CancelDroppingDevice? { CancelEnds(s, r); }
    else if IsTokenProc(p) { TokenIsAloneOk(s, r); }
  }

  lemma ApprovalIsAloneOk(s: Sys, r: nat)
    requires r in s.procs && (s.procs[r].Consuming? || s.procs[r].LoadingDevice? || s.procs[r].PuttingApproval?)
    ensures var t := StepApprove(s, r, s.procs[r]); r in t.procs ==> AloneOk(t, t.procs[r])
  {
  }

  lemma CancelEnds(s: Sys, r: nat)
    requires r in s.procs && s.procs[r].CancelDroppingDevice?
    ensures r !in StepCancel(s, r, s.procs[r]).procs
  {
  }

  lemma CancelDropsLink(s: Sys, r: nat)
    requires Inv(s) && r in s.procs && s.procs[r].CancelDroppingUser?
    requires ProcOk(s.flows, r, s.procs[r])
    ensures forall key :: key in s.store && key != s.procs[r].userCode ==> s.store[key].userName != s.procs[r].key
  {
    hide Inv;
    var CancelDroppingUser(u, d) := s.procs[r];
    forall key | key in s.store && key != u ensures s.store[key].userName != d {
      if s.store[key].userName == d { LinkedOnce(s, key); }
    }
  }

  lemma StepIssuesAtMostOne(s: Sys, r: nat, d: string)
    requires Inv(s) && OnlyOne(s, r) && AloneOk(s, s.procs[r])
    requires d in s.flows && s.flows[d].tokens <= 1
    ensures d in Advance(s, r).flows && Advance(s, r).flows[d].tokens <= 1
  {
    hide Inv, Advance;
    var change := StepChangesFlow(s, r, d);
    ProcFact(s, r);
  }

  lemma StepFlows(s: Sys, r: nat)
    requires r in s.procs
    ensures Advance(s, r).flows.Keys == s.flows.Keys
  {
    var p := s.procs[r];
    if p.Probing? || p.PuttingDevice? || p.PuttingUser? {
    } else if p.Consuming? || p.LoadingDevice? || p.PuttingApproval? {
    } else if IsTokenProc(p) {
    }
  }

  lemma RunKeepsAlone(s: Sys, r: nat)
    requires Inv(s) && Alone(s) && r in s.procs
    ensures Alone(Advance(s, r))
  {
    hide Inv, Advance, Of, AloneOk, Unreachable, Closed;
    var t := Advance(s, r);
    assert OnlyOne(s, r);
    StepFlows(s, r);
    forall r' | r' in t.procs ensures r' == r { StepStaysAlone(s, r, r'); }
    if r in t.procs { StepIsAloneOk(s, r); }
    forall d | Of(t.log, Cancels, d) != [] ensures Unreachable(t, d) { CancelledStaysUnreachable(s, r, d); }
    forall d | Of(t.log, Completions, d) != [] ensures Closed(t, d) && |Of(t.log, Completions, d)| == 1 {
      CompletedStaysClosed(s, r, d);
    }
    forall d | d in t.flows ensures t.flows[d].tokens <= 1 { StepIssuesAtMostOne(s, r, d); }
  }

  lemma EvictKeepsAlone(s: Sys, key: string)
    requires Alone(s)
    ensures Alone(s.Drop(key))
  {
    hide Of;
  }

  lemma EnterKeepsAlone(s: Sys, r: nat, q: Request)
    requires Inv(s) && Alone(s) && History(s) && CanBegin(s, r, q) && s.procs == map[]
    ensures Alone(Begin(s, r, q))
  {
    hide Inv, Of, FlowHistory, Ordered, ProcHistory, AloneOk;
    var t := Begin(s, r, q);
    assert AloneOk(t, FirstProc(q)) by {
      if q.Start? { NewCodeIsNotStored(s, q.start.deviceCode); }
      FirstIsAloneOk(t, q);
    }
    forall d | Of(t.log, Cancels, d) != [] ensures Unreachable(t, d) { assert Unreachable(s, d); }
    forall d | Of(t.log, Completions, d) != [] ensures Closed(t, d) { assert Closed(s, d); }
  }

  lemma NewCodeIsNotStored(s: Sys, d: string)
    requires Inv(s) && IsDeviceCode(d) && d !in s.flows
    ensures d !in s.store
  {
    hide Inv;
    if d in s.store { EntryFact(s, d); }
  }

  lemma FirstIsAloneOk(s: Sys, q: Request)
    requires q.Start? ==> q.start.deviceCode !in s.store
    ensures AloneOk(s, FirstProc(q))
  {
  }

  lemma SerialNextKeepsAlone(s: Sys, l: Label)
    requires Inv(s) && History(s) && Alone(s) && SerialEnabled(s, l)
    ensures Alone(Next(s, l))
  {
    hide Inv, History, Alone;
    match l
    case Enter(r, q) => EnterKeepsAlone(s, r, q);
    case Run(r) => RunKeepsAlone(s, r);
    case Evict(key) => EvictKeepsAlone(s, key);
  }

  lemma {:induction false} SerialRunIsSafe(run: seq<Sys>, n: nat)
    requires IsSerialRun(run) && n < |run|
    ensures Inv(run[n]) && History(run[n]) && Alone(run[n])
  {
    SerialRunIsARun(run);
    RunIsSafe(run, n);
    if n > 0 {
      SerialRunIsSafe(run, n - 1);
      assert SerialFollows(run[n - 1], run[n - 1 + 1]);
      hide Inv, History, Alone;
      var l :| SerialEnabled(run[n - 1], l) && run[n] == Next(run[n - 1], l);
      SerialNextKeepsAlone(run[n - 1], l);
    }
  }

  // ----- What holds at request grain

  lemma AloneFact(s: Sys, r: nat)
    requires Alone(s) && r in s.procs
    ensures AloneOk(s, s.procs[r])
  {
    hide Of, AloneOk, Unreachable, Closed;
  }

  /** A start overwrites no entry: the user code it found free is still free when it stores. */
  lemma StartOverwritesNothing(run: seq<Sys>, n: nat, r: nat)
    requires IsSerialRun(run) && n < |run| && r in run[n].procs
    requires run[n].procs[r].PuttingDevice? || run[n].procs[r].PuttingUser?
    ensures run[n].procs[r].userCode !in run[n].store
    ensures var t := Advance(run[n], r);
            forall key :: key in run[n].store ==> key in t.store && t.store[key] == run[n].store[key]
  {
    hide IsSerialRun, Inv, History, Alone;
    SerialRunIsSafe(run, n);
    AloneFact(run[n], r);
  }

  /** Each device code yields at most one token. */
  lemma OneTokenPerDeviceCode(run: seq<Sys>, n: nat, d: string)
    requires IsSerialRun(run) && n < |run|
    ensures |Of(run[n].log, Tokens, d)| <= 1
  {
    hide IsSerialRun, Inv, History, Of;
    SerialRunIsSafe(run, n);
    var s := run[n];
    if d in s.flows { FlowHistoryFact(s, d); } else { NoFlowNoEvents(s, Tokens, d); }
  }

  /** A browser completion happens at most once for a device code.  Before it the flow was started,
      then approved by the same user, then exchanged for a token; unless the response type is login
      its scopes are among the original ones, when there were any. */
  lemma CompletionComesLast(run: seq<Sys>, n: nat, k: nat) returns (started: nat, approved: nat, issued: nat)
    requires IsSerialRun(run) && n < |run| && k < |run[n].log| && run[n].log[k].Completed?
    ensures var log := run[n].log;
            var Completed(d, user, responseType, scope) := log[k];
            && Of(log, Completions, d) == [log[k]]
            && started < approved < issued < k
            && log[started].Started? && log[started].start.deviceCode == d
            && log[approved] == ApprovedBy(d, log[started].userCode, user)
            && log[issued].Issued? && log[issued].deviceCode == d && log[issued].user == user
            && (responseType != "login" && log[started].start.scope != "" ==>
                  ScopeWithin(scope, log[started].start.scope))
  {
    hide IsRun, IsSerialRun, Inv, Alone, ScopeWithin, Of, Justified;
    var log := run[n].log;
    var Completed(d, user, responseType, scope) := log[k];
    SerialRunIsARun(run);
    CompletedOnce(run, n, k);
    HistoryOf(run, n, k);
    CompletionNeeds(log[..k], log[k]);
    issued := IndexOf(log, k, Tokens, d, Of(log[..k], Tokens, d)[0]);
    HistoryOf(run, n, issued);
    TokenNeeds(log[..issued], log[issued]);
    started, approved := FlowOrigin(run, n, issued, d, log[issued].user);
    var i, j := FlowOrigin(run, n, k, d, user);
    assert [log[i]] == [log[started]] && [log[j]] == [log[approved]];
  }

  lemma CompletedOnce(run: seq<Sys>, n: nat, k: nat)
    requires IsSerialRun(run) && n < |run| && k < |run[n].log| && run[n].log[k].Completed?
    ensures Of(run[n].log, Completions, run[n].log[k].deviceCode) == [run[n].log[k]]
  {
    hide IsSerialRun, Inv, History, Of;
    SerialRunIsSafe(run, n);
    OfContains(run[n].log, k);
  }

  lemma CompletionNeeds(past: seq<Event>, e: Event)
    requires e.Completed? && Justified(past, e)
    ensures Of(past, Tokens, e.deviceCode) != [] && ApprovedWith(past, e.deviceCode) == Some(e.user)
    ensures StartedWith(past, e.deviceCode).Some?
    ensures var a := StartedWith(past, e.deviceCode).value.start;
            e.responseType != "login" && a.scope != "" ==> ScopeWithin(e.scope, a.scope)
  {
  }

  lemma TokenNeeds(past: seq<Event>, e: Event)
    requires e.Issued? && Justified(past, e)
    ensures ApprovedWith(past, e.deviceCode) == Some(e.user) && StartedWith(past, e.deviceCode).Some?
  {
  }

  lemma CancelledIsUnreachable(s: Sys, d: string)
    requires Alone(s) && Of(s.log, Cancels, d) != []
    ensures Unreachable(s, d)
  {
    hide Of, Unreachable, Closed, AloneOk;
  }

  lemma NotCompletedUnlessGranted(s: Sys, d: string)
    requires Alone(s) && Unreachable(s, d)
    ensures Of(s.log, Completions, d) == []
  {
    hide Of, AloneOk;
  }

  /** A cancelled flow is never approved, exchanged or completed. */
  lemma CancelledFlowStops(run: seq<Sys>, n: nat, d: string)
    requires IsSerialRun(run) && n < |run| && Of(run[n].log, Cancels, d) != []
    ensures var log := run[n].log;
            Of(log, Approvals, d) == [] && Of(log, Tokens, d) == [] && Of(log, Completions, d) == []
  {
    hide IsSerialRun, Inv, History, Alone, Of;
    SerialRunIsSafe(run, n);
    var s := run[n];
    CancelledIsUnreachable(s, d);
    FlowFact(s, d);
    FlowHistoryFact(s, d);
    NotCompletedUnlessGranted(s, d);
  }
}
