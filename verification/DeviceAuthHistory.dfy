/** The history of a run: which events happened to a device code, in which order, and why each of
    them was allowed to happen. */
module DeviceAuthHistory {
  import opened Wrappers
  import opened DeviceAuthStore
  import opened DeviceAuthMachine
  import opened DeviceAuthInvariant

  datatype Kind = Starts | Approvals | Admissions | Claims | Tokens | Marks | GiveBacks | Cancels | Completions

  function KindOf(e: Event): Kind {
    match e
    case Started(_, _) => Starts
    case ApprovedBy(_, _, _) => Approvals
    case Admitted(_, _) => Admissions
    case Claimed(_, _, _, _) => Claims
    case Issued(_, _, _, _, _, _, _) => Tokens
    case Marked(_, _) => Marks
    case GaveBack(_, _, _) => GiveBacks
    case Cancelled(_, _) => Cancels
    case Completed(_, _, _, _) => Completions
  }

  function DeviceOf(e: Event): string {
    if e.Started? then e.start.deviceCode else e.deviceCode
  }

  /** The events of one kind about one device code, in order. */
  function Of(log: seq<Event>, kind: Kind, d: string): seq<Event> {
    if log == [] then []
    else
      var e := log[|log| - 1];
      Of(log[..|log| - 1], kind, d) + (if KindOf(e) == kind && DeviceOf(e) == d then [e] else [])
  }

  lemma OfAppend(log: seq<Event>, e: Event, kind: Kind, d: string)
    ensures Of(log + [e], kind, d) == Of(log, kind, d) + (if KindOf(e) == kind && DeviceOf(e) == d then [e] else [])
  {
    assert (log + [e])[..|log|] == log;
  }

  function Last(events: seq<Event>): Option<Event> {
    if events == [] then None else Some(events[|events| - 1])
  }

  /** The latest claim of `d` was made by request `r`, which took the entry `c`. */
  predicate LastClaimIs(log: seq<Event>, d: string, r: nat, c: Cache) {
    match Last(Of(log, Claims, d))
    case Some(Claimed(r', _, c', _)) => r' == r && c' == c
    case _ => false
  }

  /** The latest claim of `d` was made by request `r`, which took an entry with this status. */
  predicate LastClaimHas(log: seq<Event>, d: string, r: nat, status: Status) {
    match Last(Of(log, Claims, d))
    case Some(Claimed(r', _, c, _)) => r' == r && c.status == status
    case _ => false
  }

  /** Why an event may follow a history: the safety statement of the protocol, event by event. */
  predicate Justified(past: seq<Event>, e: Event) {
    match e
    case Started(a, u) =>
      IsDeviceCode(a.deviceCode) && IsUserCode(u) && Of(past, Starts, a.deviceCode) == []
    case ApprovedBy(d, u, user) =>
      && IsUserCode(u) && IsUserId(user)
      && StartedWith(past, d).Some? && StartedWith(past, d).value.userCode == u
      && Of(past, Approvals, d) == []
    case Admitted(_, d) =>
      IsDeviceCode(d) && Of(past, Marks, d) == []
    case Claimed(r, d, c, at) =>
      && at < |past| && past[at] == Admitted(r, d) && Of(past[..at], Marks, d) == []
      && c.status == (if Of(past, Marks, d) == [] then Approved else TokenIssued)
    case Issued(r, d, user, scope, resource, clientId, claimed) =>
      && ApprovedWith(past, d) == Some(user)
      && StartedWith(past, d).Some?
      && (var a := StartedWith(past, d).value.start;
          a.scope == scope && a.resource == resource && (a.clientId == "" || a.clientId == clientId))
      && claimed == (if Of(past, Tokens, d) == [] then Approved else TokenIssued)
      && LastClaimHas(past, d, r, claimed)
    case Marked(r, d) =>
      Of(past, Tokens, d) != []
    case GaveBack(r, d, c) =>
      LastClaimIs(past, d, r, c)
    case Cancelled(d, u) =>
      IsUserCode(u) && StartedWith(past, d).Some? && StartedWith(past, d).value.userCode == u
    case Completed(d, user, responseType, scope) =>
      && Of(past, Tokens, d) != [] && Of(past, Marks, d) != []
      && ApprovedWith(past, d) == Some(user)
      && StartedWith(past, d).Some?
      && (var a := StartedWith(past, d).value.start;
          responseType != "login" && a.scope != "" ==> ScopeWithin(scope, a.scope))
  }

  /** The only start of `d`, if there is exactly one. */
  function StartedWith(past: seq<Event>, d: string): (r: Option<Event>)
    ensures r.Some? ==> r.value.Started?
  {
    var found := Of(past, Starts, d);
    if |found| == 1 && found[0].Started? then Some(found[0]) else None
  }

  /** The user of the only approval of `d`, if there is exactly one. */
  function ApprovedWith(past: seq<Event>, d: string): Option<string> {
    var found := Of(past, Approvals, d);
    if |found| == 1 && found[0].ApprovedBy? then Some(found[0].user) else None
  }

  predicate JustifiedAt(log: seq<Event>, i: nat)
    requires i < |log|
  {
    Justified(log[..i], log[i])
  }

  /** Every event was justified when it happened. */
  ghost predicate Ordered(log: seq<Event>) {
    forall i :: 0 <= i < |log| ==> JustifiedAt(log, i)
  }

  predicate FlowHistory(log: seq<Event>, d: string, f: Flow) {
    && Of(log, Starts, d) == (if f.phase.Opening? then [] else [Started(f.start, f.userCode)])
    && Of(log, Approvals, d) == (if f.phase.Granted? then [ApprovedBy(d, f.userCode, f.phase.user)] else [])
    && |Of(log, Tokens, d)| == f.tokens
    && (Of(log, Marks, d) != [] <==> f.marked)
  }

  predicate ProcHistory(log: seq<Event>, r: nat, p: Proc) {
    match p
    case Claiming(t, _, at) =>
      at < |log| && log[at] == Admitted(r, t.deviceCode) && Of(log[..at], Marks, t.deviceCode) == []
    case Minting(t, _, c) => LastClaimIs(log, t.deviceCode, r, c)
    case Restoring(t, c, _) => LastClaimIs(log, t.deviceCode, r, c)
    case _ => true
  }

  ghost predicate History(s: Sys) {
    && Ordered(s.log)
    && (forall d :: d in s.flows ==> FlowHistory(s.log, d, s.flows[d]))
    && (forall r :: r in s.procs ==> ProcHistory(s.log, r, s.procs[r]))
    && (forall kind, d :: d !in s.flows ==> Of(s.log, kind, d) == [])
  }

  lemma FlowHistoryFact(s: Sys, d: string)
    requires History(s) && d in s.flows
    ensures FlowHistory(s.log, d, s.flows[d])
  {
    hide FlowHistory, ProcHistory, Ordered, Of;
  }

  lemma NoFlowNoEvents(s: Sys, kind: Kind, d: string)
    requires History(s) && d !in s.flows
    ensures Of(s.log, kind, d) == []
  {
    hide FlowHistory, ProcHistory, Ordered, Of;
  }

  // ----- Preservation

  lemma OrderedAppend(log: seq<Event>, e: Event)
    requires Ordered(log) && Justified(log, e)
    ensures Ordered(log + [e])
  {
    forall i | 0 <= i < |log + [e]| ensures JustifiedAt(log + [e], i) {
      if i < |log| {
        assert JustifiedAt(log, i);
        assert (log + [e])[..i] == log[..i];
      } else {
        assert (log + [e])[..i] == log;
      }
    }
  }

  lemma FlowHistoryAppend(log: seq<Event>, e: Event, d: string, f: Flow)
    requires FlowHistory(log, d, f)
    requires DeviceOf(e) == d ==> !e.Started? && !e.ApprovedBy? && !e.Issued? && (e.Marked? ==> f.marked)
    ensures FlowHistory(log + [e], d, f)
  {
    hide Of;
    OfAppend(log, e, Starts, d);
    OfAppend(log, e, Approvals, d);
    OfAppend(log, e, Tokens, d);
    OfAppend(log, e, Marks, d);
  }

  lemma ProcHistoryAppend(log: seq<Event>, e: Event, r: nat, p: Proc)
    requires ProcHistory(log, r, p)
    requires e.Claimed? ==> !(p.Minting? || p.Restoring?) || p.exchange.deviceCode != e.deviceCode
    ensures ProcHistory(log + [e], r, p)
  {
    if p.Claiming? {
      assert (log + [e])[..p.at] == log[..p.at];
    } else if p.Minting? || p.Restoring? {
      OfAppend(log, e, Claims, p.exchange.deviceCode);
    }
  }

  /** A step that logs nothing keeps the history when the request moves to a point that relies on none. */
  lemma QuietKeepsHistory(s: Sys, t: Sys, r: nat)
    requires History(s) && t.log == s.log && t.flows == s.flows
    requires r in t.procs ==> ProcHistory(t.log, r, t.procs[r])
    requires forall r' :: r' in t.procs && r' != r ==> r' in s.procs && t.procs[r'] == s.procs[r']
    ensures History(t)
  {
  }

  /** Request `r` logs `e`, changes at most the flow of `e`, and moves to at most one new program point. */
  lemma AppendKeepsHistory(s: Sys, t: Sys, r: nat, e: Event)
    requires History(s) && t.log == s.log + [e] && Justified(s.log, e)
    requires DeviceOf(e) in s.flows && t.flows.Keys == s.flows.Keys
    requires forall d :: d in s.flows && d != DeviceOf(e) ==> t.flows[d] == s.flows[d]
    requires FlowHistory(t.log, DeviceOf(e), t.flows[DeviceOf(e)])
    requires r in t.procs ==> ProcHistory(t.log, r, t.procs[r])
    requires forall r' :: r' in t.procs && r' != r ==> r' in s.procs && t.procs[r'] == s.procs[r']
    requires e.Claimed? ==> forall r' :: r' in s.procs && r' != r && (s.procs[r'].Minting? || s.procs[r'].Restoring?)
                              ==> s.procs[r'].exchange.deviceCode != e.deviceCode
    ensures History(t)
  {
    OrderedAppend(s.log, e);
    forall d | d in t.flows ensures FlowHistory(t.log, d, t.flows[d]) {
      if d != DeviceOf(e) { FlowHistoryAppend(s.log, e, d, s.flows[d]); }
    }
    forall r' | r' in t.procs ensures ProcHistory(t.log, r', t.procs[r']) {
      if r' != r { ProcHistoryAppend(s.log, e, r', s.procs[r']); }
    }
    forall kind, d | d !in t.flows ensures Of(t.log, kind, d) == [] { OfAppend(s.log, e, kind, d); }
  }

  lemma BeginKeepsHistory(s: Sys, r: nat, q: Request)
    requires History(s) && CanBegin(s, r, q)
    ensures History(Begin(s, r, q))
  {
    hide Of, Ordered;
  }

  /** The flow's history after an event that is mirrored by a change of the flow. */
  lemma FlowHistoryChange(log: seq<Event>, e: Event, f: Flow, change: Change)
    requires FlowHistory(log, DeviceOf(e), f)
    requires match change
             case Offer(u) => f.phase.Opening? && e == Started(f.start, u)
             case Grant(user) =>
               && (f.phase.Offered? || f.phase.Approving?)
               && e.ApprovedBy? && e == ApprovedBy(e.deviceCode, f.userCode, user)
             case Take(_) => e.Claimed?
             case CountToken => e.Issued?
             case Release(mark) => if mark then e.Marked? else e.GaveBack?
             case BeginApproval(_) => false
    ensures FlowHistory(log + [e], DeviceOf(e), Apply(f, change))
  {
    hide Of;
    var d := DeviceOf(e);
    OfAppend(log, e, Starts, d);
    OfAppend(log, e, Approvals, d);
    OfAppend(log, e, Tokens, d);
    OfAppend(log, e, Marks, d);
  }

  // Why each logged event is justified, from what the request and its flow keep.

  lemma StartIsJustified(log: seq<Event>, flows: map<string, Flow>, r: nat, a: StartRequest, u: string)
    requires ProcOk(flows, r, PuttingUser(a, u)) && FlowHistory(log, a.deviceCode, flows[a.deviceCode])
    ensures Justified(log, Started(a, u))
  {
    hide Of, ScopeWithin;
  }

  lemma ApprovalIsJustified(log: seq<Event>, flows: map<string, Flow>, r: nat, d: string, u: string, c: Cache)
    requires ProcOk(flows, r, PuttingApproval(d, u, c)) && FlowOk(d, flows[d]) && FlowHistory(log, d, flows[d])
    ensures Justified(log, ApprovedBy(d, u, c.userName))
  {
    hide Of, ScopeWithin;
  }

  lemma CancelIsJustified(log: seq<Event>, flows: map<string, Flow>, r: nat, d: string, u: string)
    requires ProcOk(flows, r, CancelDroppingDevice(u, d)) && FlowHistory(log, d, flows[d])
    ensures Justified(log, Cancelled(d, u))
  {
    hide Of, ScopeWithin;
  }

  lemma AdmissionIsJustified(log: seq<Event>, flows: map<string, Flow>, r: nat, t: TokenRequest, c: Cache)
    requires EntryOk(flows, t.deviceCode, c) && Admits(c, t)
    requires t.deviceCode in flows ==> FlowHistory(log, t.deviceCode, flows[t.deviceCode])
    ensures t.deviceCode in flows && Justified(log, Admitted(r, t.deviceCode)) && Of(log, Marks, t.deviceCode) == []
  {
    hide Of, ScopeWithin;
  }

  lemma ClaimIsJustified(log: seq<Event>, flows: map<string, Flow>, r: nat, t: TokenRequest, loaded: Cache, at: nat,
                         c: Cache)
    requires ProcOk(flows, r, Claiming(t, loaded, at)) && ProcHistory(log, r, Claiming(t, loaded, at))
    requires FlowOk(t.deviceCode, flows[t.deviceCode]) && FlowHistory(log, t.deviceCode, flows[t.deviceCode])
    requires EntryOk(flows, t.deviceCode, c)
    ensures Justified(log, Claimed(r, t.deviceCode, c, at))
  {
    hide Of, ScopeWithin;
  }

  lemma TokenIsJustified(log: seq<Event>, flows: map<string, Flow>, r: nat, t: TokenRequest, loaded: Cache, c: Cache)
    requires ProcOk(flows, r, Minting(t, loaded, c)) && ProcHistory(log, r, Minting(t, loaded, c))
    requires FlowOk(t.deviceCode, flows[t.deviceCode]) && FlowHistory(log, t.deviceCode, flows[t.deviceCode])
    ensures Justified(log, Issued(r, t.deviceCode, loaded.userName, loaded.scope, loaded.resource, t.clientId,
                                  c.status))
  {
    hide Of, ScopeWithin;
  }

  lemma RestoreIsJustified(log: seq<Event>, flows: map<string, Flow>, r: nat, t: TokenRequest, c: Cache, minted: bool)
    requires ProcOk(flows, r, Restoring(t, c, minted)) && ProcHistory(log, r, Restoring(t, c, minted))
    requires FlowHistory(log, t.deviceCode, flows[t.deviceCode])
    ensures Justified(log, if minted then Marked(r, t.deviceCode) else GaveBack(r, t.deviceCode, c))
  {
    hide Of, ScopeWithin;
  }

  lemma CompletionIsJustified(log: seq<Event>, flows: map<string, Flow>, r: nat, k: CompleteRequest, c: Cache)
    requires ProcOk(flows, r, CompleteDropping(k, c))
    requires FlowOk(k.deviceCode, flows[k.deviceCode]) && FlowHistory(log, k.deviceCode, flows[k.deviceCode])
    ensures Justified(log, Completed(k.deviceCode, c.userName, ResponseType(k), k.scope))
  {
    hide Of;
  }

  lemma OfferKeepsHistory(s: Sys, r: nat)
    requires History(s) && r in s.procs && s.procs[r].PuttingUser?
    requires ProcOk(s.flows, r, s.procs[r])
    ensures History(StepStart(s, r, s.procs[r]))
  {
    hide FlowHistory, Justified;
    var PuttingUser(a, u) := s.procs[r];
    StartIsJustified(s.log, s.flows, r, a, u);
    FlowHistoryChange(s.log, Started(a, u), s.flows[a.deviceCode], Offer(u));
    AppendKeepsHistory(s, StepStart(s, r, s.procs[r]), r, Started(a, u));
  }

  lemma GrantKeepsHistory(s: Sys, r: nat)
    requires History(s) && r in s.procs && s.procs[r].PuttingApproval?
    requires ProcOk(s.flows, r, s.procs[r]) && FlowOk(s.procs[r].key, s.flows[s.procs[r].key])
    ensures History(StepApprove(s, r, s.procs[r]))
  {
    hide FlowHistory, Justified;
    var PuttingApproval(d, u, c) := s.procs[r];
    ApprovalIsJustified(s.log, s.flows, r, d, u, c);
    FlowHistoryChange(s.log, ApprovedBy(d, u, c.userName), s.flows[d], Grant(c.userName));
    AppendKeepsHistory(s, StepApprove(s, r, s.procs[r]), r, ApprovedBy(d, u, c.userName));
  }

  lemma BeginApprovalHistory(log: seq<Event>, d: string, f: Flow, r: nat)
    requires FlowHistory(log, d, f) && f.phase.Offered?
    ensures FlowHistory(log, d, Apply(f, BeginApproval(r)))
  {
  }

  lemma ConsumeKeepsHistory(s: Sys, r: nat)
    requires History(s) && r in s.procs && s.procs[r].Consuming? && s.procs[r].userCode in s.store
    requires var d := s.store[s.procs[r].userCode].userName; d in s.flows ==> s.flows[d].phase.Offered?
    ensures History(StepApprove(s, r, s.procs[r]))
  {
    hide FlowHistory, Justified, Ordered;
    var d := s.store[s.procs[r].userCode].userName;
    if d in s.flows && s.flows[d].phase.Offered? { BeginApprovalHistory(s.log, d, s.flows[d], r); }
  }

  lemma CancelKeepsHistory(s: Sys, r: nat)
    requires History(s) && r in s.procs && s.procs[r].CancelDroppingDevice?
    requires ProcOk(s.flows, r, s.procs[r])
    ensures History(StepCancel(s, r, s.procs[r]))
  {
    hide FlowHistory, Justified;
    var CancelDroppingDevice(u, d) := s.procs[r];
    CancelIsJustified(s.log, s.flows, r, d, u);
    FlowHistoryAppend(s.log, Cancelled(d, u), d, s.flows[d]);
    AppendKeepsHistory(s, StepCancel(s, r, s.procs[r]), r, Cancelled(d, u));
  }

  lemma AdmitKeepsHistory(s: Sys, r: nat)
    requires History(s) && r in s.procs && s.procs[r].TokenLoading?
    requires var t := s.procs[r].exchange;
             t.deviceCode in s.store && EntryOk(s.flows, t.deviceCode, s.store[t.deviceCode])
             && Admits(s.store[t.deviceCode], t)
    ensures History(StepToken(s, r, s.procs[r]))
  {
    hide FlowHistory, Justified;
    var TokenLoading(t) := s.procs[r];
    var d := t.deviceCode;
    var s' := StepToken(s, r, s.procs[r]);
    if s'.log == s.log {
      QuietKeepsHistory(s, s', r);
    } else {
      AdmissionIsJustified(s.log, s.flows, r, t, s.store[d]);
      FlowHistoryAppend(s.log, Admitted(r, d), d, s.flows[d]);
      assert s'.log[..|s.log|] == s.log;
      AppendKeepsHistory(s, s', r, Admitted(r, d));
    }
  }

  /** No request has the entry of `d` in its hands. */
  predicate NobodyClaims(s: Sys, d: string) {
    forall r :: r in s.procs && (s.procs[r].Minting? || s.procs[r].Restoring?) ==>
      s.procs[r].exchange.deviceCode != d
  }

  lemma NoOtherHolder(s: Sys, d: string)
    requires Inv(s) && d in s.store && d in s.flows
    ensures NobodyClaims(s, d)
  {
    hide Inv;
    EntryFact(s, d);
    FlowFact(s, d);
    forall r | r in s.procs && (s.procs[r].Minting? || s.procs[r].Restoring?)
      ensures s.procs[r].exchange.deviceCode != d
    {
      ProcFact(s, r);
    }
  }

  lemma ClaimKeepsHistory(s: Sys, r: nat)
    requires History(s) && r in s.procs && s.procs[r].Claiming? && s.procs[r].exchange.deviceCode in s.store
    requires var d := s.procs[r].exchange.deviceCode;
             && ProcOk(s.flows, r, s.procs[r]) && FlowOk(d, s.flows[d]) && EntryOk(s.flows, d, s.store[d])
             && NobodyClaims(s, d)
    ensures History(StepToken(s, r, s.procs[r]))
  {
    hide FlowHistory, Justified, EntryOk, FlowOk, Ordered, Of, Admits, IsLoadedCopy;
    var Claiming(t, loaded, at) := s.procs[r];
    var d := t.deviceCode;
    var e := Claimed(r, d, s.store[d], at);
    ClaimIsJustified(s.log, s.flows, r, t, loaded, at, s.store[d]);
    FlowHistoryChange(s.log, e, s.flows[d], Take(r));
    assert LastClaimIs(s.log + [e], d, r, s.store[d]) by { OfAppend(s.log, e, Claims, d); }
    AppendKeepsHistory(s, StepToken(s, r, s.procs[r]), r, e);
  }

  lemma MintKeepsHistory(s: Sys, r: nat)
    requires History(s) && r in s.procs && s.procs[r].Minting? && s.procs[r].exchange.mint.Minted?
    requires ProcOk(s.flows, r, s.procs[r])
    requires var d := s.procs[r].exchange.deviceCode; FlowOk(d, s.flows[d])
    ensures History(StepToken(s, r, s.procs[r]))
  {
    hide FlowHistory, Justified;
    var Minting(t, loaded, c) := s.procs[r];
    var d := t.deviceCode;
    var e := Issued(r, d, loaded.userName, loaded.scope, loaded.resource, t.clientId, c.status);
    TokenIsJustified(s.log, s.flows, r, t, loaded, c);
    FlowHistoryChange(s.log, e, s.flows[d], CountToken);
    ProcHistoryAppend(s.log, e, r, Restoring(t, c, true));
    AppendKeepsHistory(s, StepToken(s, r, s.procs[r]), r, e);
  }

  lemma RestoreKeepsHistory(s: Sys, r: nat)
    requires History(s) && r in s.procs && s.procs[r].Restoring?
    requires ProcOk(s.flows, r, s.procs[r])
    ensures History(StepToken(s, r, s.procs[r]))
  {
    hide FlowHistory, Justified;
    var Restoring(t, c, minted) := s.procs[r];
    var d := t.deviceCode;
    var e := if minted then Marked(r, d) else GaveBack(r, d, c);
    RestoreIsJustified(s.log, s.flows, r, t, c, minted);
    FlowHistoryChange(s.log, e, s.flows[d], Release(minted));
    AppendKeepsHistory(s, StepToken(s, r, s.procs[r]), r, e);
  }

  lemma CompleteKeepsHistory(s: Sys, r: nat)
    requires History(s) && r in s.procs && s.procs[r].CompleteDropping?
    requires ProcOk(s.flows, r, s.procs[r])
    requires FlowOk(s.procs[r].complete.deviceCode, s.flows[s.procs[r].complete.deviceCode])
    ensures History(StepComplete(s, r, s.procs[r]))
  {
    hide FlowHistory, Justified;
    var CompleteDropping(k, c) := s.procs[r];
    var d := k.deviceCode;
    var e := Completed(d, c.userName, ResponseType(k), k.scope);
    CompletionIsJustified(s.log, s.flows, r, k, c);
    FlowHistoryAppend(s.log, e, d, s.flows[d]);
    AppendKeepsHistory(s, StepComplete(s, r, s.procs[r]), r, e);
  }

  lemma TokenKeepsHistory(s: Sys, r: nat)
    requires Inv(s) && History(s) && r in s.procs
    requires s.procs[r].TokenLoading? || s.procs[r].Claiming? || s.procs[r].Minting? || s.procs[r].Restoring?
    ensures History(StepToken(s, r, s.procs[r]))
  {
    hide Inv, FlowHistory, Justified, Ordered;
    var p := s.procs[r];
    var d := p.exchange.deviceCode;
    ProcFact(s, r);
    if d in s.store { EntryFact(s, d); }
    if d in s.flows { FlowFact(s, d); }
    if p.TokenLoading? && d in s.store && Admits(s.store[d], p.exchange) { AdmitKeepsHistory(s, r); }
    else if p.Claiming? && d in s.store { NoOtherHolder(s, d); ClaimKeepsHistory(s, r); }
    else if p.Minting? && p.exchange.mint.Minted? { MintKeepsHistory(s, r); }
    else if p.Restoring? { RestoreKeepsHistory(s, r); }
    else {
      assert ProcHistory(s.log, r, p);
      QuietKeepsHistory(s, StepToken(s, r, p), r);
    }
  }

  lemma ApproveKeepsHistory(s: Sys, r: nat)
    requires Inv(s) && History(s) && r in s.procs
    requires s.procs[r].Consuming? || s.procs[r].LoadingDevice? || s.procs[r].PuttingApproval?
    ensures History(StepApprove(s, r, s.procs[r]))
  {
    hide Inv, FlowHistory, Justified, Ordered;
    var p := s.procs[r];
    ProcFact(s, r);
    if p.Consuming? && p.userCode in s.store {
      if s.store[p.userCode].userName in s.flows { LinkedOnce(s, p.userCode); }
      ConsumeKeepsHistory(s, r);
    } else if p.PuttingApproval? {
      FlowFact(s, p.key);
      GrantKeepsHistory(s, r);
    }
    else { QuietKeepsHistory(s, StepApprove(s, r, p), r); }
  }

  lemma RunKeepsHistory(s: Sys, r: nat)
    requires Inv(s) && History(s) && r in s.procs
    ensures History(Advance(s, r))
  {
    hide Inv, History, FlowOk, EntryOk, StepToken, StepApprove, StepCancel, StepStart, StepComplete;
    var p := s.procs[r];
    if p.PuttingUser? { ProcFact(s, r); OfferKeepsHistory(s, r); }
    else if p.Consuming? || p.LoadingDevice? || p.PuttingApproval? { ApproveKeepsHistory(s, r); }
    else if p.CancelDroppingDevice? { ProcFact(s, r); CancelKeepsHistory(s, r); }
    else if p.TokenLoading? || p.Claiming? || p.Minting? || p.Restoring? { TokenKeepsHistory(s, r); }
    else if p.CompleteDropping? { ProcFact(s, r); FlowFact(s, p.complete.deviceCode); CompleteKeepsHistory(s, r); }
    else { QuietStepKeepsHistory(s, r); }
  }

  /** The steps that log nothing. */
  lemma QuietStepKeepsHistory(s: Sys, r: nat)
    requires History(s) && r in s.procs
    requires var p := s.procs[r];
             || p.Probing? || p.PuttingDevice? || p.CancelLoading? || p.CancelDroppingUser? || p.CompleteLoading?
             || p.Dropping?
    ensures History(Advance(s, r))
  {
    hide History;
    var p := s.procs[r];
    if p.Probing? || p.PuttingDevice? {
      hide StepApprove, StepCancel, StepToken, StepComplete;
      QuietKeepsHistory(s, Advance(s, r), r);
    } else {
      QuietKeepsHistory(s, Advance(s, r), r);
    }
  }

  lemma NextKeepsHistory(s: Sys, l: Label)
    requires Inv(s) && History(s) && Enabled(s, l)
    ensures History(Next(s, l))
  {
    match l
    case Enter(r, q) => BeginKeepsHistory(s, r, q);
    case Evict(key) => assert History(s.Drop(key)) by { hide FlowHistory, Justified, Ordered; }
    case Run(r) => RunKeepsHistory(s, r);
  }

  /** In every state of every run both the invariant and the history hold. */
  lemma {:induction false} RunIsSafe(run: seq<Sys>, n: nat)
    requires IsRun(run) && n < |run|
    ensures Inv(run[n]) && History(run[n])
  {
    if n == 0 {
      InitialInv();
    } else {
      RunIsSafe(run, n - 1);
      assert Follows(run[n - 1], run[n - 1 + 1]);
      var l :| Enabled(run[n - 1], l) && run[n] == Next(run[n - 1], l);
      NextKeepsInv(run[n - 1], l);
      NextKeepsHistory(run[n - 1], l);
    }
  }
}
