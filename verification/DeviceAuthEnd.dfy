/** When a flow has ended under interleaving: after a cancellation or a browser completion took the device code
    out of the map, what decides whether anything can still come of it. */
module DeviceAuthEnd {
  import opened Wrappers
  import opened DeviceAuthStore
  import opened DeviceAuthMachine
  import opened DeviceAuthInvariant
  import opened DeviceAuthHistory
  import opened DeviceAuthTheorems

  /** The request has taken what it needs from the entry of `d` and goes on without looking at the map again. */
  predicate InHand(p: Proc, d: string) {
    match p
    case PuttingApproval(key, _, _) => key == d
    case Minting(t, _, _) => t.deviceCode == d
    case Restoring(t, _, _) => t.deviceCode == d
    case CompleteDropping(k, _) => k.deviceCode == d
    case _ => false
  }

  predicate NobodyHolds(s: Sys, d: string) {
    forall r :: r in s.procs ==> !InHand(s.procs[r], d)
  }

  /** The flow was offered, and its device code is not in the map. */
  predicate IsOut(s: Sys, d: string) {
    d in s.flows && !s.flows[d].phase.Opening? && d !in s.store
  }

  /** The approvals, tokens and completions of a device code. */
  function Stages(log: seq<Event>, d: string): nat {
    |Of(log, Approvals, d)| + |Of(log, Tokens, d)| + |Of(log, Completions, d)|
  }

  predicate IsStage(e: Event, d: string) {
    (e.ApprovedBy? || e.Issued? || e.Completed?) && DeviceOf(e) == d
  }

  lemma StagesAppend(log: seq<Event>, e: Event, d: string)
    ensures Stages(log + [e], d) == Stages(log, d) + if IsStage(e, d) then 1 else 0
  {
    hide Of;
    OfAppend(log, e, Approvals, d);
    OfAppend(log, e, Tokens, d);
    OfAppend(log, e, Completions, d);
  }

  /** A cancellation or a completion leaves its device code out of the map. */
  lemma ClosingStep(s: Sys, r: nat)
    requires Inv(s) && r in s.procs && (s.procs[r].CancelDroppingDevice? || s.procs[r].CompleteDropping?)
    ensures var p := s.procs[r];
            var d := if p.CancelDroppingDevice? then p.key else p.complete.deviceCode;
            IsOut(Advance(s, r), d) && (p.CompleteDropping? ==> Advance(s, r).flows[d].marked)
  {
    hide Inv;
    ProcFact(s, r);
  }

  // ----- Nobody holds it: the flow has ended

  /** A step neither puts the device code back nor gets hold of the flow, and logs no stage of it. */
  ghost predicate StaysOut(s: Sys, r: nat, t: Sys, d: string) {
    && IsOut(t, d)
    && (r in t.procs ==> !InHand(t.procs[r], d))
    && (t.log == s.log || exists e :: t.log == s.log + [e] && !IsStage(e, d))
  }

  lemma StartStaysOut(s: Sys, r: nat, d: string)
    requires Inv(s) && r in s.procs && IsOut(s, d)
    requires s.procs[r].Probing? || s.procs[r].PuttingDevice? || s.procs[r].PuttingUser?
    ensures StaysOut(s, r, StepStart(s, r, s.procs[r]), d)
  {
    hide Inv;
    ProcFact(s, r);
    FlowFact(s, d);
    var p := s.procs[r];
    if p.PuttingUser? { assert !IsStage(Started(p.start, p.userCode), d); }
  }

  lemma ApproveStaysOut(s: Sys, r: nat, d: string)
    requires r in s.procs && IsOut(s, d) && !InHand(s.procs[r], d)
    requires s.procs[r].Consuming? || s.procs[r].LoadingDevice? || s.procs[r].PuttingApproval?
    ensures StaysOut(s, r, StepApprove(s, r, s.procs[r]), d)
  {
    var p := s.procs[r];
    if p.PuttingApproval? { assert !IsStage(ApprovedBy(p.key, p.userCode, p.cache.userName), d); }
  }

  lemma CancelStaysOut(s: Sys, r: nat, d: string)
    requires r in s.procs && IsOut(s, d)
    requires s.procs[r].CancelLoading? || s.procs[r].CancelDroppingUser? || s.procs[r].CancelDroppingDevice?
    ensures StaysOut(s, r, StepCancel(s, r, s.procs[r]), d)
  {
    var p := s.procs[r];
    if p.CancelDroppingDevice? { assert !IsStage(Cancelled(p.key, p.userCode), d); }
  }

  lemma TokenStaysOut(s: Sys, r: nat, d: string)
    requires r in s.procs && IsOut(s, d) && !InHand(s.procs[r], d) && IsTokenProc(s.procs[r])
    ensures StaysOut(s, r, StepToken(s, r, s.procs[r]), d)
  {
    var p, t := s.procs[r], StepToken(s, r, s.procs[r]);
    if t.log != s.log {
      var e := t.log[|s.log|];
      assert t.log == s.log + [e] && !IsStage(e, d);
    }
  }

  lemma CompleteStaysOut(s: Sys, r: nat, d: string)
    requires r in s.procs && IsOut(s, d) && !InHand(s.procs[r], d)
    requires s.procs[r].CompleteLoading? || s.procs[r].CompleteDropping?
    ensures StaysOut(s, r, StepComplete(s, r, s.procs[r]), d)
  {
    var p := s.procs[r];
    if p.CompleteDropping? {
      var CompleteDropping(k, c) := p;
      assert !IsStage(Completed(k.deviceCode, c.userName, ResponseType(k), k.scope), d);
    }
  }

  lemma StepStaysOut(s: Sys, r: nat, d: string)
    requires Inv(s) && r in s.procs && IsOut(s, d) && !InHand(s.procs[r], d)
    ensures StaysOut(s, r, Advance(s, r), d)
  {
    hide Inv, StepStart, StepApprove, StepCancel, StepToken, StepComplete, StaysOut, IsOut, InHand;
    var p := s.procs[r];
    if p.Probing? || p.PuttingDevice? || p.PuttingUser? { StartStaysOut(s, r, d); }
    else if p.Consuming? || p.LoadingDevice? || p.PuttingApproval? { ApproveStaysOut(s, r, d); }
    else if p.CancelLoading? || p.CancelDroppingUser? || p.CancelDroppingDevice? { CancelStaysOut(s, r, d); }
    else if IsTokenProc(p) { TokenStaysOut(s, r, d); }
    else if p.Dropping? { DropStaysOut(s, r, d); }
    else { CompleteStaysOut(s, r, d); }
  }

  lemma DropStaysOut(s: Sys, r: nat, d: string)
    requires r in s.procs && IsOut(s, d)
    ensures s.procs[r].Dropping? ==> StaysOut(s, r, s.Drop(s.procs[r].key).Finish(r), d)
  {
  }

  lemma EndedStaysEnded(s: Sys, l: Label, d: string)
    requires Inv(s) && Enabled(s, l) && IsOut(s, d) && NobodyHolds(s, d)
    ensures IsOut(Next(s, l), d) && NobodyHolds(Next(s, l), d)
    ensures Stages(Next(s, l).log, d) == Stages(s.log, d)
  {
    hide Inv, Advance, Of, Stages;
    match l
    case Enter(r, q) =>
    case Evict(key) =>
    case Run(r) =>
      var t := Advance(s, r);
      StepStaysOut(s, r, d);
      forall r' | r' in t.procs ensures !InHand(t.procs[r'], d) {
        if r' != r { OthersKeepTheirPlace(s, r, r'); }
      }
      if t.log != s.log {
        var e :| t.log == s.log + [e] && !IsStage(e, d);
        StagesAppend(s.log, e, d);
      }
  }

  lemma {:induction false} EndedForGood(run: seq<Sys>, n: nat, m: nat, d: string)
    requires IsRun(run) && n <= m < |run| && IsOut(run[n], d) && NobodyHolds(run[n], d)
    ensures IsOut(run[m], d) && NobodyHolds(run[m], d) && Stages(run[m].log, d) == Stages(run[n].log, d)
  {
    hide IsRun, Inv, History, IsOut, NobodyHolds, Stages, Next, Enabled;
    if n < m {
      EndedForGood(run, n, m - 1, d);
      var l := StepOf(run, m - 1);
      RunIsSafe(run, m - 1);
      EndedStaysEnded(run[m - 1], l, d);
    }
  }

  // ----- Somebody holds it: the flow can go on

  ghost predicate Extends(longer: seq<Sys>, run: seq<Sys>) {
    |run| > 0 && IsRun(longer) && run <= longer
  }

  function Final(run: seq<Sys>): Sys
    requires |run| > 0
  {
    run[|run| - 1]
  }

  lemma Grow(run: seq<Sys>, run1: seq<Sys>, l: Label) returns (run2: seq<Sys>)
    requires Extends(run1, run) && Enabled(Final(run1), l)
    ensures Extends(run2, run) && Final(run2) == Next(Final(run1), l)
  {
    hide Next, Enabled;
    run2 := ExtendRun(run1, l);
  }

  lemma FreshRequest(procs: map<nat, Proc>) returns (r: nat)
    ensures r !in procs
  {
    r := Above(procs.Keys);
  }

  lemma {:induction false} Above(ids: set<nat>) returns (r: nat)
    ensures forall i :: i in ids ==> i < r
  {
    r := 0;
    if ids != {} {
      var i :| i in ids;
      var above := Above(ids - {i});
      r := if above <= i then i + 1 else above;
      forall j | j in ids ensures j < r { assert j == i || j in ids - {i}; }
    }
  }

  /** An entry that was put back after an approval. */
  predicate IsBack(s: Sys, d: string) {
    && d in s.flows && s.flows[d].phase.Granted? && d in s.store && IsDeviceCode(d)
    && IsDeviceEntry(s.flows[d], s.store[d])
  }

  lemma RestoreEffect(s: Sys, r: nat)
    requires Inv(s) && r in s.procs && s.procs[r].Restoring?
    ensures var d, t := s.procs[r].exchange.deviceCode, Advance(s, r);
            && IsBack(t, d) && (s.flows[d].marked ==> t.flows[d].marked)
            && exists e :: t.log == s.log + [e] && !IsStage(e, d)
  {
    hide Inv;
    ProcFact(s, r);
    var Restoring(q, c, minted) := s.procs[r];
    FlowFact(s, q.deviceCode);
    var e := if minted then Marked(r, q.deviceCode) else GaveBack(r, q.deviceCode, c);
    assert Advance(s, r).log == s.log + [e] && !IsStage(e, q.deviceCode);
  }

  lemma MintEffect(s: Sys, r: nat)
    requires Inv(s) && r in s.procs && s.procs[r].Minting?
    ensures var Minting(q, loaded, c) := s.procs[r];
            var d, t := q.deviceCode, Advance(s, r);
            && r in t.procs && t.procs[r] == Restoring(q, c, q.mint.Minted?)
            && d in s.flows && d in t.flows && t.flows[d].marked == s.flows[d].marked
            && t.log == s.log + if !q.mint.Minted? then [] else
                 [Issued(r, d, loaded.userName, loaded.scope, loaded.resource, q.clientId, c.status)]
  {
    hide Inv;
    ProcFact(s, r);
  }

  /** Whoever holds the claim can give it up. */
  lemma ReleaseClaim(run: seq<Sys>, run1: seq<Sys>, r: nat, d: string) returns (run2: seq<Sys>)
    requires Extends(run1, run) && d in Final(run1).flows
    requires r in Final(run1).procs && (Final(run1).procs[r].Minting? || Final(run1).procs[r].Restoring?)
    requires Final(run1).procs[r].exchange.deviceCode == d
    ensures Extends(run2, run) && IsBack(Final(run2), d)
    ensures Stages(Final(run2).log, d) >= Stages(Final(run1).log, d)
    ensures |Of(Final(run2).log, Completions, d)| == |Of(Final(run1).log, Completions, d)|
    ensures Final(run1).flows[d].marked ==> Final(run2).flows[d].marked
  {
    hide Inv, History, IsRun, Advance, Of, Stages, IsBack;
    run2 := run1;
    RunIsSafe(run2, |run2| - 1);
    if Final(run2).procs[r].Minting? {
      var s := Final(run2);
      MintEffect(s, r);
      run2 := Grow(run, run2, Run(r));
      if s.procs[r].exchange.mint.Minted? {
        StagesAppend(s.log, Final(run2).log[|s.log|], d);
        OfAppend(s.log, Final(run2).log[|s.log|], Completions, d);
      } else {
        assert Final(run2).log == s.log;
      }
      RunIsSafe(run2, |run2| - 1);
    }
    var s := Final(run2);
    RestoreEffect(s, r);
    run2 := Grow(run, run2, Run(r));
    var e :| Final(run2).log == s.log + [e] && !IsStage(e, d);
    StagesAppend(s.log, e, d);
    OfAppend(s.log, e, Completions, d);
  }

  lemma NotExpiredAtOnce(c: Cache)
    ensures !c.IsExpired(c.requestAt)
  {
  }

  lemma CompleteEffects(s: Sys, r: nat, k: CompleteRequest, d: string)
    requires r !in s.procs && d == k.deviceCode && d != "" && d in s.store && s.store[d].status == TokenIssued
    requires !s.store[d].IsExpired(k.now) && CanComplete(s.store[d], k)
    ensures Enabled(s, Enter(r, Complete(k)))
    ensures var s1 := Begin(s, r, Complete(k));
            && r in s1.procs
            && (var s2 := Advance(s1, r);
                && r in s2.procs
                && Advance(s2, r).log == s.log + [Completed(d, s.store[d].userName, ResponseType(k), k.scope)])
  {
    hide ScopeWithin;
  }

  /** A marked entry in the map can be completed. */
  lemma CompleteOnce(run: seq<Sys>, run1: seq<Sys>, d: string) returns (run2: seq<Sys>)
    requires Extends(run1, run) && IsBack(Final(run1), d) && Final(run1).flows[d].marked
    ensures Extends(run2, run) && Stages(Final(run2).log, d) == Stages(Final(run1).log, d) + 1
    ensures |Of(Final(run2).log, Completions, d)| == |Of(Final(run1).log, Completions, d)| + 1
  {
    hide IsRun, Advance, Of, Stages, Begin;
    var s := Final(run1);
    var c := s.store[d];
    var r := FreshRequest(s.procs);
    var k := CompleteRequest(d, "login", "", "", c.requestAt, Some(""), true);
    NotExpiredAtOnce(c);
    CompleteEffects(s, r, k, d);
    run2 := Grow(run, run1, Enter(r, Complete(k)));
    run2 := Grow(run, run2, Run(r));
    run2 := Grow(run, run2, Run(r));
    var e := Completed(d, c.userName, ResponseType(k), k.scope);
    StagesAppend(s.log, e, d);
    OfAppend(s.log, e, Completions, d);
  }

  lemma AdmitEffect(s: Sys, r: nat, t: TokenRequest)
    requires r !in s.procs && t.deviceCode != "" && t.deviceCode in s.store
    requires !s.store[t.deviceCode].IsExpired(t.now) && Admits(s.store[t.deviceCode], t)
    ensures Enabled(s, Enter(r, Exchange(t)))
    ensures var s1, d := Begin(s, r, Exchange(t)), t.deviceCode;
            && r in s1.procs
            && Looks(Advance(s1, r), s.store, s.procs[r := Claiming(t, s.store[d], |s.log|)], s.log + [Admitted(r, d)])
  {
  }

  lemma ClaimEffect(s: Sys, r: nat)
    requires r in s.procs && s.procs[r].Claiming? && s.procs[r].exchange.deviceCode in s.store
    ensures var Claiming(t, loaded, at) := s.procs[r];
            var c := s.store[t.deviceCode];
            Looks(Advance(s, r), s.store - {t.deviceCode}, s.procs[r := Minting(t, loaded, c)],
                  s.log + [Claimed(r, t.deviceCode, c, at)])
  {
  }

  lemma IssueEffect(s: Sys, r: nat)
    requires r in s.procs && s.procs[r].Minting? && s.procs[r].exchange.mint.Minted?
    ensures var Minting(t, loaded, c) := s.procs[r];
            Advance(s, r).log == s.log + [Issued(r, t.deviceCode, loaded.userName, loaded.scope, loaded.resource,
                                                 t.clientId, c.status)]
  {
  }

  /** An approved entry in the map can be exchanged for a token. */
  lemma ExchangeOnce(run: seq<Sys>, run1: seq<Sys>, d: string) returns (run2: seq<Sys>)
    requires Extends(run1, run) && IsBack(Final(run1), d) && !Final(run1).flows[d].marked
    ensures Extends(run2, run) && Stages(Final(run2).log, d) == Stages(Final(run1).log, d) + 1
  {
    hide IsRun, Advance, Of, Stages, Begin;
    var s := Final(run1);
    var c := s.store[d];
    var r := FreshRequest(s.procs);
    var t := TokenRequest(d, c.clientId, c.resource, c.requestAt, Minted);
    NotExpiredAtOnce(c);
    AdmitEffect(s, r, t);
    run2 := Grow(run, run1, Enter(r, Exchange(t)));
    run2 := Grow(run, run2, Run(r));
    StagesAppend(s.log, Admitted(r, d), d);
    s := Final(run2);
    ClaimEffect(s, r);
    run2 := Grow(run, run2, Run(r));
    StagesAppend(s.log, Claimed(r, d, c, |s.log| - 1), d);
    s := Final(run2);
    IssueEffect(s, r);
    run2 := Grow(run, run2, Run(r));
    StagesAppend(s.log, Final(run2).log[|s.log|], d);
  }

  lemma LastStep(s: Sys, r: nat, d: string)
    requires r in s.procs && InHand(s.procs[r], d) && (s.procs[r].PuttingApproval? || s.procs[r].CompleteDropping?)
    ensures var p := s.procs[r];
            Advance(s, r).log == s.log +
              [if p.PuttingApproval? then ApprovedBy(d, p.userCode, p.cache.userName)
               else Completed(d, p.loaded.userName, ResponseType(p.complete), p.complete.scope)]
  {
  }

  /** A request that holds the flow can take it to one more stage. */
  lemma HolderGoesOn(run: seq<Sys>, r: nat, d: string) returns (longer: seq<Sys>)
    requires |run| > 0 && IsRun(run) && d in Final(run).flows && r in Final(run).procs && InHand(Final(run).procs[r], d)
    ensures Extends(longer, run) && Stages(Final(longer).log, d) > Stages(Final(run).log, d)
  {
    hide IsRun, Advance, Of, Stages, IsDeviceEntry;
    var s := Final(run);
    if s.procs[r].PuttingApproval? || s.procs[r].CompleteDropping? {
      LastStep(s, r, d);
      longer := Grow(run, run, Run(r));
      StagesAppend(s.log, Final(longer).log[|s.log|], d);
    } else {
      longer := ReleaseClaim(run, run, r, d);
      if Final(longer).flows[d].marked { longer := CompleteOnce(run, longer, d); }
      else { longer := ExchangeOnce(run, longer, d); }
    }
  }

  /** Once the device code of a used flow is out of the map, a request that holds the flow can complete it. */
  lemma HolderCompletes(run: seq<Sys>, r: nat, d: string) returns (longer: seq<Sys>)
    requires |run| > 0 && IsRun(run) && d in Final(run).flows && Final(run).flows[d].marked
    requires r in Final(run).procs && InHand(Final(run).procs[r], d)
    ensures Extends(longer, run) && |Of(Final(longer).log, Completions, d)| > |Of(Final(run).log, Completions, d)|
  {
    hide IsRun, Advance, Of, Stages, IsBack, Inv, History;
    var s := Final(run);
    RunIsSafe(run, |run| - 1);
    ProcFact(s, r);
    FlowFact(s, d);
    if s.procs[r].CompleteDropping? {
      LastStep(s, r, d);
      longer := Grow(run, run, Run(r));
      OfAppend(s.log, Final(longer).log[|s.log|], Completions, d);
    } else {
      longer := ReleaseClaim(run, run, r, d);
      longer := CompleteOnce(run, longer, d);
    }
  }

  // ----- Exactly when

  /** A flow whose device code was taken out of the map, by a cancellation or otherwise, reaches no further
      stage in any continuation, exactly when no request has it in hand at that moment. */
  lemma FlowHasEndedExactly(run: seq<Sys>, d: string)
    requires |run| > 0 && IsRun(run) && IsOut(Final(run), d)
    ensures (forall longer :: Extends(longer, run) ==> Stages(Final(longer).log, d) == Stages(Final(run).log, d))
            <==> NobodyHolds(Final(run), d)
  {
    hide IsRun, IsOut, Stages, InHand;
    if NobodyHolds(Final(run), d) {
      forall longer | Extends(longer, run) ensures Stages(Final(longer).log, d) == Stages(Final(run).log, d) {
        EndedForGood(longer, |run| - 1, |longer| - 1, d);
      }
    } else {
      var r :| r in Final(run).procs && InHand(Final(run).procs[r], d);
      assert d in Final(run).flows by { OutIsAFlow(Final(run), d); }
      var longer := HolderGoesOn(run, r, d);
    }
  }

  lemma OutIsAFlow(s: Sys, d: string)
    requires IsOut(s, d)
    ensures d in s.flows
  {
  }

  lemma StagesBoundCompletions(log: seq<Event>, more: seq<Event>, d: string)
    requires log <= more && Stages(more, d) == Stages(log, d)
    ensures |Of(more, Completions, d)| == |Of(log, Completions, d)|
  {
    OfGrows(log, more, Approvals, d);
    OfGrows(log, more, Tokens, d);
    OfGrows(log, more, Completions, d);
  }

  lemma {:induction false} OfGrows(log: seq<Event>, more: seq<Event>, kind: Kind, d: string)
    requires log <= more
    ensures |Of(log, kind, d)| <= |Of(more, kind, d)|
  {
    if log == more {
    } else {
      OfGrows(log, more[..|more| - 1], kind, d);
    }
  }

  /** After a completion, no continuation completes the device code again exactly when no request has the flow
      in hand at that moment. */
  lemma CompletedForGoodExactly(run: seq<Sys>, d: string)
    requires |run| > 0 && IsRun(run) && IsOut(Final(run), d) && Final(run).flows[d].marked
    ensures (forall longer :: Extends(longer, run) ==>
               |Of(Final(longer).log, Completions, d)| == |Of(Final(run).log, Completions, d)|)
            <==> NobodyHolds(Final(run), d)
  {
    hide IsRun, Of, Stages, InHand;
    if NobodyHolds(Final(run), d) {
      forall longer | Extends(longer, run)
        ensures |Of(Final(longer).log, Completions, d)| == |Of(Final(run).log, Completions, d)|
      {
        FlowHasEndedExactly(run, d);
        LogGrows(longer, |run| - 1, |longer| - 1);
        StagesBoundCompletions(Final(run).log, Final(longer).log, d);
      }
    } else {
      var r :| r in Final(run).procs && InHand(Final(run).procs[r], d);
      var longer := HolderCompletes(run, r, d);
    }
  }

  /** A cancelled flow stops exactly when no request has it in hand at the moment of the last delete. */
  lemma CancellationStopsExactly(run: seq<Sys>, r: nat)
    requires |run| > 1 && IsRun(run) && r in run[|run| - 2].procs && run[|run| - 2].procs[r].CancelDroppingDevice?
    requires Final(run) == Advance(run[|run| - 2], r)
    ensures var d := run[|run| - 2].procs[r].key;
            (forall longer :: Extends(longer, run) ==> Stages(Final(longer).log, d) == Stages(Final(run).log, d))
            <==> NobodyHolds(Final(run), d)
  {
    hide IsRun, IsOut, Stages, Advance, Inv, History, NobodyHolds;
    RunIsSafe(run, |run| - 2);
    ClosingStep(run[|run| - 2], r);
    FlowHasEndedExactly(run, run[|run| - 2].procs[r].key);
  }

  /** A completion is the last one exactly when no request has the flow in hand at the moment of its delete. */
  lemma CompletionIsLastExactly(run: seq<Sys>, r: nat)
    requires |run| > 1 && IsRun(run) && r in run[|run| - 2].procs && run[|run| - 2].procs[r].CompleteDropping?
    requires Final(run) == Advance(run[|run| - 2], r)
    ensures var d := run[|run| - 2].procs[r].complete.deviceCode;
            (forall longer :: Extends(longer, run) ==>
               |Of(Final(longer).log, Completions, d)| == |Of(Final(run).log, Completions, d)|)
            <==> NobodyHolds(Final(run), d)
  {
    hide IsRun, Of, Advance, Inv, History, NobodyHolds;
    RunIsSafe(run, |run| - 2);
    ClosingStep(run[|run| - 2], r);
    CompletedForGoodExactly(run, run[|run| - 2].procs[r].complete.deviceCode);
  }

  lemma {:induction false} LogGrows(run: seq<Sys>, n: nat, m: nat)
    requires IsRun(run) && n <= m < |run|
    ensures run[n].log <= run[m].log
  {
    hide IsRun, Next, Enabled;
    if n < m {
      LogGrows(run, n, m - 1);
      var l := StepOf(run, m - 1);
      NextLogs(run[m - 1], l);
    }
  }

  lemma NextLogs(s: Sys, l: Label)
    requires Enabled(s, l)
    ensures s.log <= Next(s, l).log
  {
    hide StepToken, StepApprove;
    if l.Run? && IsTokenProc(s.procs[l.r]) { ExchangeKeepsLog(s, l.r); }
    else if l.Run? { ApprovalKeepsLog(s, l.r); }
  }

  lemma ExchangeKeepsLog(s: Sys, r: nat)
    requires r in s.procs && IsTokenProc(s.procs[r])
    ensures s.log <= StepToken(s, r, s.procs[r]).log
  {
  }

  lemma ApprovalKeepsLog(s: Sys, r: nat)
    requires r in s.procs
    ensures var p := s.procs[r];
            p.Consuming? || p.LoadingDevice? || p.PuttingApproval? ==> s.log <= StepApprove(s, r, p).log
  {
  }
}
