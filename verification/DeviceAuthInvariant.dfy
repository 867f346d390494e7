/** What every interleaving of device authorization requests keeps. */
module DeviceAuthInvariant {
  import opened Wrappers
  import opened DeviceAuthStore
  import opened DeviceAuthMachine

  /** The status a device entry must have, from the flow's history. */
  function StatusOf(f: Flow): Status {
    if !f.phase.Granted? then Pending else if f.marked then TokenIssued else Approved
  }

  /** An entry stored or held for the device code of flow `f`. */
  predicate IsDeviceEntry(f: Flow, c: Cache) {
    c == if f.phase.Granted?
         then ApprovedEntry(DeviceEntry(f.start), f.phase.user).(status := StatusOf(f))
         else DeviceEntry(f.start)
  }

  /** A loaded copy of a device entry: its user and its fixed fields are those of the flow. */
  predicate IsLoadedCopy(f: Flow, c: Cache) {
    && f.phase.Granted?
    && c == ApprovedEntry(DeviceEntry(f.start), f.phase.user).(status := c.status)
  }

  predicate EntryOk(flows: map<string, Flow>, key: string, c: Cache) {
    || (IsDeviceCode(key) && key in flows && flows[key].holder.None? && IsDeviceEntry(flows[key], c))
    || (&& IsUserCode(key)
        && c.userName in flows
        && flows[c.userName].phase.Offered?
        && flows[c.userName].userCode == key
        && c == UserEntry(flows[c.userName].start))
  }

  predicate FlowOk(d: string, f: Flow) {
    && IsDeviceCode(d)
    && f.start.deviceCode == d
    && f.start.cancelToken != ""
    && (f.phase.Granted? ==> IsUserId(f.phase.user))
    && (!f.phase.Granted? ==> f.holder.None? && !f.marked && f.tokens == 0)
    && (!f.phase.Opening? ==> IsUserCode(f.userCode))
    && (f.marked ==> f.tokens > 0)
    && (f.holder.None? && !f.marked ==> f.tokens == 0)
  }

  /** What request `r`, about to execute `p`, may rely on. */
  predicate ProcOk(flows: map<string, Flow>, r: nat, p: Proc) {
    match p
    case Probing(a, _) => IsOpening(flows, r, a)
    case PuttingDevice(a, u) => IsOpening(flows, r, a) && IsUserCode(u)
    case PuttingUser(a, u) => IsOpening(flows, r, a) && IsUserCode(u)
    case Consuming(_, user, _, _) => IsUserId(user)
    case LoadingDevice(key, u, user, _) =>
      && IsUserId(user)
      && (if IsDeviceCode(key) then key in flows && flows[key].phase == Approving(r) && flows[key].userCode == u
          else !IsUserCode(key))
    case PuttingApproval(key, u, c) =>
      && key in flows && flows[key].phase == Approving(r) && flows[key].userCode == u
      && IsUserId(c.userName)
      && c == ApprovedEntry(DeviceEntry(flows[key].start), c.userName)
    case CancelDroppingUser(u, key) => IsOffered(flows, key, u)
    case CancelDroppingDevice(u, key) => IsOffered(flows, key, u)
    case Claiming(t, loaded, _) =>
      && t.deviceCode in flows && IsLoadedCopy(flows[t.deviceCode], loaded) && Admits(loaded, t)
    case Minting(t, loaded, c) =>
      && Holds(flows, r, t, c) && IsLoadedCopy(flows[t.deviceCode], loaded) && Admits(loaded, t)
      && (!flows[t.deviceCode].marked ==> flows[t.deviceCode].tokens == 0)
    case Restoring(t, c, minted) =>
      && Holds(flows, r, t, c)
      && (minted ==> flows[t.deviceCode].tokens > 0)
      && (!minted && !flows[t.deviceCode].marked ==> flows[t.deviceCode].tokens == 0)
    case CompleteDropping(k, c) =>
      && k.deviceCode in flows && IsLoadedCopy(flows[k.deviceCode], c)
      && flows[k.deviceCode].marked && c.status == TokenIssued && CanComplete(c, k)
    case _ => true
  }

  predicate IsOpening(flows: map<string, Flow>, r: nat, a: StartRequest) {
    && a.deviceCode in flows && flows[a.deviceCode].start == a && flows[a.deviceCode].phase == Opening(r)
    && WellFormed(Start(a))
  }

  predicate IsOffered(flows: map<string, Flow>, d: string, u: string) {
    d in flows && !flows[d].phase.Opening? && flows[d].userCode == u && IsUserCode(u)
  }

  /** Request `r` has taken the entry `c` out of the map and has not put one back yet. */
  predicate Holds(flows: map<string, Flow>, r: nat, t: TokenRequest, c: Cache) {
    && t.deviceCode in flows
    && flows[t.deviceCode].holder == Some(r)
    && flows[t.deviceCode].phase.Granted?
    && IsDeviceEntry(flows[t.deviceCode], c)
  }

  ghost predicate Inv(s: Sys) {
    && (forall d :: d in s.flows ==> FlowOk(d, s.flows[d]))
    && (forall key :: key in s.store ==> EntryOk(s.flows, key, s.store[key]))
    && (forall r :: r in s.procs ==> ProcOk(s.flows, r, s.procs[r]))
  }

  // ----- Frame: what a step of one request leaves alone

  /** The changes a step of request `r` makes to the history of a flow. */
  predicate Allowed(f: Flow, change: Change, r: nat) {
    match change
    case Offer(u) => f.phase == Opening(r)
    case BeginApproval(r') => f.phase.Offered? && r' == r
    case Grant(user) => f.phase == Approving(r)
    case Take(r') => f.phase.Granted? && f.holder.None? && r' == r
    case CountToken => f.phase.Granted? && f.holder == Some(r)
    case Release(mark) => f.phase.Granted? && f.holder == Some(r)
  }

  lemma ProcFrame(flows: map<string, Flow>, d: string, change: Change, r: nat, r': nat, p: Proc)
    requires d in flows && Allowed(flows[d], change, r) && r' != r
    requires ProcOk(flows, r', p)
    ensures ProcOk(flows[d := Apply(flows[d], change)], r', p)
  {
  }

  /** A user entry keeps its meaning unless its own flow moves on, a device entry unless its own
      flow changes. */
  lemma EntryFrame(flows: map<string, Flow>, d: string, change: Change, r: nat, key: string, c: Cache)
    requires d in flows && Allowed(flows[d], change, r)
    requires EntryOk(flows, key, c)
    requires key != d
    requires change.BeginApproval? ==> c.userName != d
    ensures EntryOk(flows[d := Apply(flows[d], change)], key, c)
  {
  }

  // ----- Preservation

  lemma InitialInv()
    ensures Inv(INITIAL)
  {
  }

  // The three parts of the invariant, one instance at a time.

  lemma FlowFact(s: Sys, d: string)
    requires Inv(s) && d in s.flows
    ensures FlowOk(d, s.flows[d])
  {
  }

  lemma EntryFact(s: Sys, key: string)
    requires Inv(s) && key in s.store
    ensures EntryOk(s.flows, key, s.store[key])
  {
  }

  lemma ProcFact(s: Sys, r: nat)
    requires Inv(s) && r in s.procs
    ensures ProcOk(s.flows, r, s.procs[r])
  {
  }

  lemma DropKeepsInv(s: Sys, key: string)
    requires Inv(s)
    ensures Inv(s.Drop(key))
  {
  }

  lemma FinishKeepsInv(s: Sys, r: nat)
    requires Inv(s)
    ensures Inv(s.Finish(r))
  {
  }

  lemma GotoKeepsInv(s: Sys, r: nat, p: Proc)
    requires Inv(s) && ProcOk(s.flows, r, p)
    ensures Inv(s.Goto(r, p))
  {
  }

  lemma LogKeepsInv(s: Sys, e: Event)
    requires Inv(s)
    ensures Inv(s.Log(e))
  {
  }

  lemma PutKeepsInv(s: Sys, key: string, c: Cache)
    requires Inv(s) && EntryOk(s.flows, key, c)
    ensures Inv(s.Put(key, c))
  {
  }

  /** Request `r` changes the history of flow `d` while it has no pending operation of its own. */
  lemma NoteKeepsInv(s: Sys, r: nat, d: string, change: Change)
    requires Inv(s) && r !in s.procs
    requires d in s.flows && Allowed(s.flows[d], change, r) && FlowOk(d, Apply(s.flows[d], change))
    requires d in s.store ==> EntryOk(s.flows[d := Apply(s.flows[d], change)], d, s.store[d])
    requires change.BeginApproval? ==> forall key :: key in s.store ==> s.store[key].userName != d
    ensures Inv(s.Note(d, change))
  {
    hide ProcOk, EntryOk, FlowOk, Allowed, Apply;
    forall r' | r' in s.procs ensures ProcOk(s.Note(d, change).flows, r', s.procs[r']) {
      ProcFrame(s.flows, d, change, r, r', s.procs[r']);
    }
    forall key | key in s.store ensures EntryOk(s.Note(d, change).flows, key, s.store[key]) {
      if key != d { EntryFrame(s.flows, d, change, r, key, s.store[key]); }
    }
  }

  lemma GotoAgain(s: Sys, r: nat, p: Proc)
    ensures s.Finish(r).Goto(r, p) == s.Goto(r, p)
  {
    assert s.Finish(r).Goto(r, p).procs == s.Goto(r, p).procs;
  }

  lemma BeginKeepsInv(s: Sys, r: nat, q: Request)
    requires Inv(s) && CanBegin(s, r, q)
    ensures Inv(Begin(s, r, q))
  {
    hide Inv;
    if q.Start? {
      var d := q.start.deviceCode;
      var f := Flow(q.start, "", Opening(r), None, false, 0);
      var s1 := s.(flows := s.flows[d := f]);
      FreshFlowKeepsInv(s, f);
      GotoKeepsInv(s1, r, Probing(q.start, 0));
    } else {
      GotoKeepsInv(s, r, FirstProc(q));
    }
  }

  lemma FreshFlowKeepsInv(s: Sys, f: Flow)
    requires Inv(s) && f.start.deviceCode !in s.flows && FlowOk(f.start.deviceCode, f)
    ensures Inv(s.(flows := s.flows[f.start.deviceCode := f]))
  {
    hide ProcOk;
    var s1 := s.(flows := s.flows[f.start.deviceCode := f]);
    forall r | r in s.procs ensures ProcOk(s1.flows, r, s.procs[r]) {
      FreshFlowFrame(s.flows, f, r, s.procs[r]);
    }
  }

  lemma FreshFlowFrame(flows: map<string, Flow>, f: Flow, r: nat, p: Proc)
    requires f.start.deviceCode !in flows && IsDeviceCode(f.start.deviceCode)
    requires ProcOk(flows, r, p)
    ensures ProcOk(flows[f.start.deviceCode := f], r, p)
  {
  }

  lemma StartKeepsInv(s: Sys, r: nat)
    requires Inv(s) && r in s.procs
    requires s.procs[r].Probing? || s.procs[r].PuttingDevice? || s.procs[r].PuttingUser?
    ensures Inv(StepStart(s, r, s.procs[r]))
  {
    hide Inv;
    ProcFact(s, r);
    match s.procs[r]
    case Probing(a, i) =>
      if i >= |a.candidates| { FinishKeepsInv(s, r); }
      else if a.candidates[i] !in s.store { GotoKeepsInv(s, r, PuttingDevice(a, a.candidates[i])); }
      else { GotoKeepsInv(s, r, Probing(a, i + 1)); }
    case PuttingDevice(a, u) =>
      FlowFact(s, a.deviceCode);
      PutKeepsInv(s, a.deviceCode, DeviceEntry(a));
      GotoKeepsInv(s.Put(a.deviceCode, DeviceEntry(a)), r, PuttingUser(a, u));
    case PuttingUser(a, u) =>
      var d := a.deviceCode;
      var s1 := s.Finish(r);
      FinishKeepsInv(s, r);
      FlowFact(s, d);
      if d in s.store { EntryFact(s, d); }
      NoteKeepsInv(s1, r, d, Offer(u));
      PutKeepsInv(s1.Note(d, Offer(u)), u, UserEntry(a));
      LogKeepsInv(s1.Note(d, Offer(u)).Put(u, UserEntry(a)), Started(a, u));
  }

  lemma LoadKeepsInv(s: Sys, r: nat)
    requires Inv(s) && r in s.procs && s.procs[r].LoadingDevice?
    ensures Inv(StepApprove(s, r, s.procs[r]))
  {
    hide Inv;
    var LoadingDevice(key, u, user, isMember) := s.procs[r];
    if key !in s.store || !isMember {
      FinishKeepsInv(s, r);
    } else {
      ProcFact(s, r); EntryFact(s, key);
      GotoKeepsInv(s, r, PuttingApproval(key, u, ApprovedEntry(s.store[key], user)));
    }
  }

  lemma GrantKeepsInv(s: Sys, r: nat)
    requires Inv(s) && r in s.procs && s.procs[r].PuttingApproval?
    ensures Inv(StepApprove(s, r, s.procs[r]))
  {
    hide Inv;
    var PuttingApproval(key, u, c) := s.procs[r];
    ProcFact(s, r); FlowFact(s, key);
    var s1 := s.Finish(r).Drop(key);
    FinishKeepsInv(s, r);
    DropKeepsInv(s.Finish(r), key);
    NoteKeepsInv(s1, r, key, Grant(c.userName));
    var s2 := s1.Note(key, Grant(c.userName));
    PutKeepsInv(s2, key, c);
    LogKeepsInv(s2.Put(key, c), ApprovedBy(key, u, c.userName));
    assert s2.Put(key, c).store == s.Put(key, c).store;
  }

  lemma ApproveKeepsInv(s: Sys, r: nat)
    requires Inv(s) && r in s.procs
    requires s.procs[r].Consuming? || s.procs[r].LoadingDevice? || s.procs[r].PuttingApproval?
    ensures Inv(StepApprove(s, r, s.procs[r]))
  {
    hide Inv;
    match s.procs[r]
    case Consuming(u, user, now, isMember) =>
      if u in s.store { ConsumeKeepsInv(s, r); } else { FinishKeepsInv(s, r); }
    case LoadingDevice(key, u, user, isMember) => LoadKeepsInv(s, r);
    case PuttingApproval(key, u, c) => GrantKeepsInv(s, r);
  }

  /** At most one entry is linked to a device code, and only an open offer is. */
  lemma LinkedOnce(s: Sys, u: string)
    requires Inv(s) && u in s.store && s.store[u].userName in s.flows
    ensures var d := s.store[u].userName;
            && IsUserCode(u) && IsDeviceCode(d) && s.flows[d].phase.Offered? && s.flows[d].userCode == u
            && forall key :: key in s.store && key != u ==> s.store[key].userName != d
  {
    hide Inv;
    var d := s.store[u].userName;
    FlowFact(s, d);
    EntryFact(s, u);
    if IsDeviceCode(u) { FlowFact(s, u); }
    forall key | key in s.store && key != u ensures s.store[key].userName != d {
      EntryFact(s, key);
      if IsDeviceCode(key) { FlowFact(s, key); }
    }
  }

  lemma ConsumeKeepsInv(s: Sys, r: nat)
    requires Inv(s) && r in s.procs && s.procs[r].Consuming? && s.procs[r].userCode in s.store
    ensures Inv(StepApprove(s, r, s.procs[r]))
  {
    hide Inv;
    var Consuming(u, user, now, isMember) := s.procs[r];
    var c := s.store[u];
    EntryFact(s, u); ProcFact(s, r);
    DropKeepsInv(s, u);
    if c.status == Denied || c.IsExpired(now) {
      if c.userName != "" { GotoKeepsInv(s.Drop(u), r, Dropping(c.userName)); } else { FinishKeepsInv(s.Drop(u), r); }
    } else {
      var s1 := s.Drop(u).Finish(r);
      FinishKeepsInv(s.Drop(u), r);
      var p := LoadingDevice(c.userName, u, user, isMember);
      if c.userName in s.flows {
        var d := c.userName;
        FlowFact(s, d);
        LinkedOnce(s, u);
        if d in s1.store { EntryFact(s, d); }
        NoteKeepsInv(s1, r, d, BeginApproval(r));
        GotoKeepsInv(s1.Note(d, BeginApproval(r)), r, p);
        GotoAgain(s.Drop(u).Note(d, BeginApproval(r)), r, p);
      } else {
        if IsDeviceCode(u) { FlowFact(s, u); }
        GotoKeepsInv(s.Drop(u), r, p);
      }
    }
  }

  lemma CancelKeepsInv(s: Sys, r: nat)
    requires Inv(s) && r in s.procs
    requires s.procs[r].CancelLoading? || s.procs[r].CancelDroppingUser? || s.procs[r].CancelDroppingDevice?
    ensures Inv(StepCancel(s, r, s.procs[r]))
  {
    hide Inv;
    ProcFact(s, r);
    match s.procs[r]
    case CancelLoading(u, token) =>
      if u !in s.store || s.store[u].cancelToken == "" || s.store[u].cancelToken != token {
        FinishKeepsInv(s, r);
      } else {
        EntryFact(s, u);
        GotoKeepsInv(s, r, CancelDroppingUser(u, s.store[u].userName));
      }
    case CancelDroppingUser(u, key) =>
      DropKeepsInv(s, u);
      if key != "" { GotoKeepsInv(s.Drop(u), r, CancelDroppingDevice(u, key)); } else { FinishKeepsInv(s.Drop(u), r); }
    case CancelDroppingDevice(u, key) =>
      DropKeepsInv(s, key);
      FinishKeepsInv(s.Drop(key), r);
      LogKeepsInv(s.Drop(key).Finish(r), Cancelled(key, u));
  }

  lemma TokenKeepsInv(s: Sys, r: nat)
    requires Inv(s) && r in s.procs
    requires s.procs[r].TokenLoading? || s.procs[r].Claiming? || s.procs[r].Minting? || s.procs[r].Restoring?
    ensures Inv(StepToken(s, r, s.procs[r]))
  {
    hide Inv;
    match s.procs[r]
    case TokenLoading(t) =>
      var d := t.deviceCode;
      if d == "" || d !in s.store { FinishKeepsInv(s, r); }
      else if s.store[d].IsExpired(t.now) { GotoKeepsInv(s, r, Dropping(d)); }
      else if !Admits(s.store[d], t) { FinishKeepsInv(s, r); }
      else {
        EntryFact(s, d);
        GotoKeepsInv(s, r, Claiming(t, s.store[d], |s.log|));
        LogKeepsInv(s.Goto(r, Claiming(t, s.store[d], |s.log|)), Admitted(r, d));
      }
    case Claiming(t, loaded, at) => ClaimKeepsInv(s, r);
    case Minting(t, loaded, c) => MintKeepsInv(s, r);
    case Restoring(t, c, minted) => RestoreKeepsInv(s, r);
  }

  lemma ClaimKeepsInv(s: Sys, r: nat)
    requires Inv(s) && r in s.procs && s.procs[r].Claiming?
    ensures Inv(StepToken(s, r, s.procs[r]))
  {
    hide Inv;
    var Claiming(t, loaded, at) := s.procs[r];
    var d := t.deviceCode;
    ProcFact(s, r);
    if d !in s.store {
      FinishKeepsInv(s, r);
    } else {
      var c := s.store[d];
      EntryFact(s, d); FlowFact(s, d);
      var s1 := s.Drop(d).Finish(r);
      DropKeepsInv(s, d);
      FinishKeepsInv(s.Drop(d), r);
      NoteKeepsInv(s1, r, d, Take(r));
      GotoKeepsInv(s1.Note(d, Take(r)), r, Minting(t, loaded, c));
      GotoAgain(s.Drop(d).Note(d, Take(r)), r, Minting(t, loaded, c));
      LogKeepsInv(s.Drop(d).Note(d, Take(r)).Goto(r, Minting(t, loaded, c)), Claimed(r, d, c, at));
    }
  }

  lemma MintKeepsInv(s: Sys, r: nat)
    requires Inv(s) && r in s.procs && s.procs[r].Minting?
    ensures Inv(StepToken(s, r, s.procs[r]))
  {
    hide Inv;
    var Minting(t, loaded, c) := s.procs[r];
    var d := t.deviceCode;
    ProcFact(s, r);
    if !t.mint.Minted? {
      GotoKeepsInv(s, r, Restoring(t, c, false));
    } else {
      FlowFact(s, d);
      if d in s.store { EntryFact(s, d); }
      var e := Issued(r, d, loaded.userName, loaded.scope, loaded.resource, t.clientId, c.status);
      FinishKeepsInv(s, r);
      NoteKeepsInv(s.Finish(r), r, d, CountToken);
      GotoKeepsInv(s.Finish(r).Note(d, CountToken), r, Restoring(t, c, true));
      GotoAgain(s.Note(d, CountToken), r, Restoring(t, c, true));
      LogKeepsInv(s.Note(d, CountToken).Goto(r, Restoring(t, c, true)), e);
    }
  }

  lemma RestoreKeepsInv(s: Sys, r: nat)
    requires Inv(s) && r in s.procs && s.procs[r].Restoring?
    ensures Inv(StepToken(s, r, s.procs[r]))
  {
    hide Inv;
    var Restoring(t, c, minted) := s.procs[r];
    var d := t.deviceCode;
    ProcFact(s, r);
    FlowFact(s, d);
    if d in s.store { EntryFact(s, d); }
    var c' := if minted then c.(status := TokenIssued) else c;
    FinishKeepsInv(s, r);
    NoteKeepsInv(s.Finish(r), r, d, Release(minted));
    var s1 := s.Finish(r).Note(d, Release(minted));
    PutKeepsInv(s1, d, c');
    LogKeepsInv(s1.Put(d, c'), if minted then Marked(r, d) else GaveBack(r, d, c));
  }

  lemma CompleteKeepsInv(s: Sys, r: nat)
    requires Inv(s) && r in s.procs
    requires s.procs[r].CompleteLoading? || s.procs[r].CompleteDropping?
    ensures Inv(StepComplete(s, r, s.procs[r]))
  {
    hide Inv;
    ProcFact(s, r);
    match s.procs[r]
    case CompleteLoading(k) =>
      var d := k.deviceCode;
      if d == "" || d !in s.store || s.store[d].status != TokenIssued { FinishKeepsInv(s, r); }
      else if s.store[d].IsExpired(k.now) { GotoKeepsInv(s, r, Dropping(d)); }
      else if !CanComplete(s.store[d], k) { FinishKeepsInv(s, r); }
      else {
        EntryFact(s, d);
        GotoKeepsInv(s, r, CompleteDropping(k, s.store[d]));
      }
    case CompleteDropping(k, c) =>
      var e := Completed(k.deviceCode, c.userName, ResponseType(k), k.scope);
      FlowFact(s, k.deviceCode);
      DropKeepsInv(s, k.deviceCode);
      LogKeepsInv(s.Drop(k.deviceCode), e);
      if ResponseType(k) == "device" {
        GotoKeepsInv(s.Drop(k.deviceCode).Log(e), r, Consuming("", c.userName, k.now, true));
      } else {
        FinishKeepsInv(s.Drop(k.deviceCode).Log(e), r);
      }
  }

  /** Every operation of every request keeps the invariant. */
  lemma NextKeepsInv(s: Sys, l: Label)
    requires Inv(s) && Enabled(s, l)
    ensures Inv(Next(s, l))
  {
    hide Inv;
    match l
    case Enter(r, q) => BeginKeepsInv(s, r, q);
    case Evict(key) => DropKeepsInv(s, key);
    case Run(r) =>
      var p := s.procs[r];
      if p.Probing? || p.PuttingDevice? || p.PuttingUser? { StartKeepsInv(s, r); }
      else if p.Consuming? || p.LoadingDevice? || p.PuttingApproval? { ApproveKeepsInv(s, r); }
      else if p.CancelLoading? || p.CancelDroppingUser? || p.CancelDroppingDevice? { CancelKeepsInv(s, r); }
      else if p.TokenLoading? || p.Claiming? || p.Minting? || p.Restoring? { TokenKeepsInv(s, r); }
      else if p.Dropping? { DropKeepsInv(s, p.key); FinishKeepsInv(s.Drop(p.key), r); }
      else { CompleteKeepsInv(s, r); }
  }
}
