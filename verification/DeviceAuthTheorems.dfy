/** What the device authorization grant guarantees under every interleaving of map operations. */
module DeviceAuthTheorems {
  import opened Wrappers
  import opened DeviceAuthStore
  import opened DeviceAuthMachine
  import opened DeviceAuthInvariant
  import opened DeviceAuthHistory

  /** Request `r` holds the claim on device code `d`: it removed the entry and has not stored one back. */
  predicate HoldsClaim(s: Sys, r: nat, d: string) {
    r in s.procs && (s.procs[r].Minting? || s.procs[r].Restoring?) && s.procs[r].exchange.deviceCode == d
  }

  /** At most one token request at a time holds a claim on a device code, and while it does the
      device code is not in the map. */
  lemma ClaimIsExclusive(run: seq<Sys>, n: nat, r1: nat, r2: nat, d: string)
    requires IsRun(run) && n < |run|
    requires HoldsClaim(run[n], r1, d) && HoldsClaim(run[n], r2, d)
    ensures r1 == r2
    ensures d !in run[n].store
  {
    hide Inv, History, IsRun;
    RunIsSafe(run, n);
    ProcFact(run[n], r1);
    ProcFact(run[n], r2);
    if d in run[n].store { EntryFact(run[n], d); FlowFact(run[n], d); }
  }

  /** The step that took the entry a claim holds. */
  ghost predicate TakenAt(run: seq<Sys>, m: nat, n: nat, r: nat, d: string, c: Cache) {
    && m < n < |run|
    && r in run[m].procs && run[m].procs[r].Claiming? && run[m].procs[r].exchange.deviceCode == d
    && d in run[m].store && run[m].store[d] == c
    && (forall k :: m < k <= n ==> HoldsClaim(run[k], r, d))
  }

  /** The label of one step of a run. */
  lemma StepOf(run: seq<Sys>, n: nat) returns (l: Label)
    requires IsRun(run) && n + 1 < |run|
    ensures Enabled(run[n], l) && run[n + 1] == Next(run[n], l)
  {
    assert Follows(run[n], run[n + 1]);
    l :| Enabled(run[n], l) && run[n + 1] == Next(run[n], l);
  }

  predicate IsTokenProc(p: Proc) {
    p.TokenLoading? || p.Claiming? || p.Minting? || p.Restoring?
  }

  lemma OnlyExchangesClaim(s: Sys, r: nat, d: string)
    requires r in s.procs && !IsTokenProc(s.procs[r])
    ensures !HoldsClaim(Advance(s, r), r, d)
  {
  }

  lemma OthersKeepTheirPlace(s: Sys, r: nat, r': nat)
    requires r in s.procs && r' != r
    ensures r' in Advance(s, r).procs <==> r' in s.procs
    ensures r' in s.procs ==> Advance(s, r).procs[r'] == s.procs[r']
  {
    hide StepToken, StepApprove;
    var p := s.procs[r];
    if p.Consuming? || p.LoadingDevice? || p.PuttingApproval? { OthersWhileApproving(s, r, r'); }
    else if IsTokenProc(p) { OthersWhileExchanging(s, r, r'); }
  }

  lemma OthersWhileApproving(s: Sys, r: nat, r': nat)
    requires r in s.procs && r' != r
    requires s.procs[r].Consuming? || s.procs[r].LoadingDevice? || s.procs[r].PuttingApproval?
    ensures var t := StepApprove(s, r, s.procs[r]);
            (r' in t.procs <==> r' in s.procs) && (r' in s.procs ==> t.procs[r'] == s.procs[r'])
  {
  }

  lemma OthersWhileExchanging(s: Sys, r: nat, r': nat)
    requires r in s.procs && r' != r && IsTokenProc(s.procs[r])
    ensures var t := StepToken(s, r, s.procs[r]);
            (r' in t.procs <==> r' in s.procs) && (r' in s.procs ==> t.procs[r'] == s.procs[r'])
  {
  }

  lemma ExchangeStep(s: Sys, r: nat, d: string)
    requires r in s.procs && IsTokenProc(s.procs[r]) && HoldsClaim(StepToken(s, r, s.procs[r]), r, d)
    ensures var c := StepToken(s, r, s.procs[r]).procs[r].claimed;
            || (HoldsClaim(s, r, d) && s.procs[r].claimed == c)
            || (s.procs[r].Claiming? && s.procs[r].exchange.deviceCode == d && d in s.store && s.store[d] == c)
  {
  }

  lemma ClaimStep(s: Sys, l: Label, r: nat, d: string)
    requires Enabled(s, l) && HoldsClaim(Next(s, l), r, d)
    ensures var c := Next(s, l).procs[r].claimed;
            && r in s.procs
            && (|| (HoldsClaim(s, r, d) && s.procs[r].claimed == c)
                || (s.procs[r].Claiming? && s.procs[r].exchange.deviceCode == d && d in s.store && s.store[d] == c))
  {
    hide StepStart, StepApprove, StepCancel, StepToken, StepComplete;
    if l.Run? {
      if l.r != r { OthersKeepTheirPlace(s, l.r, r); }
      else if IsTokenProc(s.procs[r]) { ExchangeStep(s, r, d); }
      else { OnlyExchangesClaim(s, r, d); }
    }
  }

  lemma {:induction false} ClaimHasAnOrigin(run: seq<Sys>, n: nat, r: nat, d: string) returns (m: nat)
    requires IsRun(run) && n < |run| && HoldsClaim(run[n], r, d)
    ensures TakenAt(run, m, n, r, d, run[n].procs[r].claimed)
  {
    if n == 0 {
      assert false;
    } else {
      hide Next, IsRun;
      var l := StepOf(run, n - 1);
      ClaimStep(run[n - 1], l, r, d);
      if HoldsClaim(run[n - 1], r, d) {
        m := ClaimHasAnOrigin(run, n - 1, r, d);
      } else {
        m := n - 1;
      }
    }
  }

  /** A claim whose exchange fails puts back exactly the entry it took, and the device code was
      out of the map for the whole time in between. */
  lemma FailedClaimRestoresTheEntry(run: seq<Sys>, n: nat, r: nat) returns (m: nat)
    requires IsRun(run) && n + 1 < |run| && r in run[n].procs
    requires run[n].procs[r].Restoring? && !run[n].procs[r].minted && run[n + 1] == Advance(run[n], r)
    ensures var d := run[n].procs[r].exchange.deviceCode;
            && TakenAt(run, m, n, r, d, run[n].procs[r].claimed)
            && d in run[n + 1].store && run[n + 1].store[d] == run[m].store[d]
            && forall k :: m < k <= n ==> d !in run[k].store
  {
    var d := run[n].procs[r].exchange.deviceCode;
    m := ClaimHasAnOrigin(run, n, r, d);
    forall k | m < k <= n ensures d !in run[k].store {
      ClaimIsExclusive(run, k, r, r, d);
    }
  }

  function Rank(status: Status): nat {
    match status
    case Pending => 0
    case Approved => 1
    case TokenIssued => 2
    case Denied => 3
  }

  /** The step of request `r` makes this one change to the flow of `d`, or none. */
  predicate ChangesFlow(s: Sys, r: nat, d: string, change: Option<Change>)
    requires r in s.procs
  {
    && d in s.flows && d in Advance(s, r).flows
    && (change.None? ==> Advance(s, r).flows[d] == s.flows[d])
    && (change.Some? ==>
          Allowed(s.flows[d], change.value, r) && Advance(s, r).flows[d] == Apply(s.flows[d], change.value))
    && (change == Some(CountToken) ==> s.procs[r].Minting? && s.procs[r].exchange.deviceCode == d)
  }

  lemma ExchangeChangesFlow(s: Sys, r: nat, d: string) returns (change: Option<Change>)
    requires Inv(s) && r in s.procs && d in s.flows && IsTokenProc(s.procs[r])
    ensures ChangesFlow(s, r, d, change)
  {
    hide Inv, StepStart, StepApprove, StepCancel, StepComplete;
    var p := s.procs[r];
    ProcFact(s, r);
    change := None;
    if p.Claiming? && p.exchange.deviceCode == d && d in s.store {
      EntryFact(s, d);
      FlowFact(s, d);
      change := Some(Take(r));
    }
    else if p.Minting? && p.exchange.deviceCode == d && p.exchange.mint.Minted? { change := Some(CountToken); }
    else if p.Restoring? && p.exchange.deviceCode == d { change := Some(Release(p.minted)); }
  }

  lemma ApprovalChangesFlow(s: Sys, r: nat, d: string) returns (change: Option<Change>)
    requires Inv(s) && r in s.procs && d in s.flows && !IsTokenProc(s.procs[r])
    ensures ChangesFlow(s, r, d, change)
  {
    hide Inv, StepToken;
    var p := s.procs[r];
    ProcFact(s, r);
    change := None;
    if p.PuttingUser? && p.start.deviceCode == d { change := Some(Offer(p.userCode)); }
    else if p.PuttingApproval? && p.key == d { change := Some(Grant(p.cache.userName)); }
    else if p.Consuming? && p.userCode in s.store && s.store[p.userCode].userName == d {
      LinkedOnce(s, p.userCode);
      var c := s.store[p.userCode];
      if c.status != Denied && !c.IsExpired(p.now) { change := Some(BeginApproval(r)); }
    }
  }

  /** The one change a request makes to a flow's history is one it is allowed to make. */
  lemma StepChangesFlow(s: Sys, r: nat, d: string) returns (change: Option<Change>)
    requires Inv(s) && r in s.procs && d in s.flows
    ensures ChangesFlow(s, r, d, change)
  {
    hide Inv, Advance, ChangesFlow;
    if IsTokenProc(s.procs[r]) { change := ExchangeChangesFlow(s, r, d); }
    else { change := ApprovalChangesFlow(s, r, d); }
  }

  /** A flow's history only moves forward, whichever request makes the step. */
  lemma StepMovesForward(s: Sys, l: Label, d: string)
    requires Inv(s) && Enabled(s, l) && d in s.flows
    ensures d in Next(s, l).flows && Rank(StatusOf(s.flows[d])) <= Rank(StatusOf(Next(s, l).flows[d]))
  {
    hide Inv, Advance;
    FlowFact(s, d);
    if l.Run? { var change := StepChangesFlow(s, l.r, d); }
  }

  lemma {:induction false} FlowMovesForward(run: seq<Sys>, i: nat, j: nat, d: string)
    requires IsRun(run) && i <= j < |run| && d in run[i].flows
    ensures d in run[j].flows && Rank(StatusOf(run[i].flows[d])) <= Rank(StatusOf(run[j].flows[d]))
  {
    hide Next, IsRun, Inv, History;
    if i < j {
      var l := StepOf(run, j - 1);
      RunIsSafe(run, j - 1);
      FlowMovesForward(run, i, j - 1, d);
      StepMovesForward(run[j - 1], l, d);
    }
  }

  /** The status stored for a device code only moves pending, approved, token issued, however
      often the entry is taken out and put back in between. */
  lemma StoredStatusOnlyMovesForward(run: seq<Sys>, i: nat, j: nat, d: string)
    requires IsRun(run) && i <= j < |run| && IsDeviceCode(d)
    requires d in run[i].store && d in run[j].store
    ensures Rank(run[i].store[d].status) <= Rank(run[j].store[d].status) <= Rank(TokenIssued)
  {
    hide Inv, History, IsRun;
    RunIsSafe(run, i);
    RunIsSafe(run, j);
    EntryFact(run[i], d);
    EntryFact(run[j], d);
    FlowMovesForward(run, i, j, d);
  }

  // ----- What stored entries hold

  /** Every entry under a device code, approved, used or given back, lives for as long as its start asked for, or
      two minutes, and belongs to its start's application and client. */
  lemma DeviceEntryKeepsItsStart(run: seq<Sys>, n: nat, d: string, now: int)
    requires IsRun(run) && n < |run| && IsDeviceCode(d) && d in run[n].store
    ensures d in run[n].flows
    ensures var c, a := run[n].store[d], run[n].flows[d].start;
            && (c.IsExpired(now) <==> now > a.deviceAt + if a.resendTimeout > 0 then a.resendTimeout else 120)
            && c.applicationId == a.applicationId && c.clientId == a.clientId
            && c.scope == a.scope && c.resource == a.resource && a.deviceCode == d
  {
    hide IsRun, Inv, History;
    RunIsSafe(run, n);
    EntryFact(run[n], d);
    FlowFact(run[n], d);
  }

  /** Every entry under a user code leads to the flow that was offered with it, lives as long, and can be cancelled
      with that start's token. */
  lemma UserEntryKeepsItsStart(run: seq<Sys>, n: nat, u: string, now: int)
    requires IsRun(run) && n < |run| && IsUserCode(u) && u in run[n].store
    ensures run[n].store[u].userName in run[n].flows
    ensures var c := run[n].store[u];
            var a := run[n].flows[c.userName].start;
            && (c.IsExpired(now) <==> now > a.userAt + if a.resendTimeout > 0 then a.resendTimeout else 120)
            && c.applicationId == a.applicationId && c.cancelToken == a.cancelToken && a.deviceCode == c.userName
  {
    hide IsRun, Inv, History;
    RunIsSafe(run, n);
    EntryFact(run[n], u);
    FlowFact(run[n], run[n].store[u].userName);
  }

  // ----- Histories

  lemma {:induction false} OfHasIndex(log: seq<Event>, kind: Kind, d: string, e: Event)
    requires e in Of(log, kind, d)
    ensures exists i :: 0 <= i < |log| && log[i] == e && KindOf(e) == kind && DeviceOf(e) == d
  {
    if log != [] {
      var last := |log| - 1;
      if e in Of(log[..last], kind, d) {
        OfHasIndex(log[..last], kind, d, e);
        var i :| 0 <= i < last && log[..last][i] == e;
        assert log[i] == e;
      } else {
        assert log[last] == e;
      }
    }
  }

  lemma {:induction false} OfContains(log: seq<Event>, i: nat)
    requires i < |log|
    ensures log[i] in Of(log, KindOf(log[i]), DeviceOf(log[i]))
  {
    if i < |log| - 1 { OfContains(log[..|log| - 1], i); }
  }

  /** The history of a state of a run. */
  lemma HistoryOf(run: seq<Sys>, n: nat, k: nat)
    requires IsRun(run) && n < |run| && k < |run[n].log|
    ensures JustifiedAt(run[n].log, k)
  {
    RunIsSafe(run, n);
  }

  /** An exchange whose first load comes after the device code was marked as used is refused. */
  lemma RefusedOnceMarked(run: seq<Sys>, n: nat, i: nat, k: nat)
    requires IsRun(run) && n < |run| && i < k < |run[n].log|
    requires run[n].log[i].Marked? && run[n].log[k].Admitted?
    ensures run[n].log[i].deviceCode != run[n].log[k].deviceCode
  {
    var log := run[n].log;
    HistoryOf(run, n, k);
    OfContains(log[..k], i);
  }

  /** A claim finds the device code already marked exactly when some exchange marked it after this
      request's own first load. */
  lemma ClaimIsOvertakenExactly(run: seq<Sys>, n: nat, k: nat)
    requires IsRun(run) && n < |run| && k < |run[n].log| && run[n].log[k].Claimed?
    ensures var log := run[n].log;
            var Claimed(r, d, c, at) := log[k];
            && at < k && log[at] == Admitted(r, d)
            && (c.status == TokenIssued <==> exists j :: at < j < k && log[j].Marked? && log[j].deviceCode == d)
  {
    hide IsRun, Of;
    var log := run[n].log;
    var Claimed(r, d, c, at) := log[k];
    HistoryOf(run, n, k);
    var past := log[..k];
    assert past[..at] == log[..at];
    if c.status == TokenIssued {
      var m := Of(past, Marks, d)[0];
      OfHasIndex(past, Marks, d, m);
      var j :| 0 <= j < k && past[j] == m;
      if j < at { OfContains(past[..at], j); }
      assert log[j].Marked? && log[j].deviceCode == d;
    }
    forall j | at < j < k && log[j].Marked? && log[j].deviceCode == d ensures c.status == TokenIssued {
      OfContains(past, j);
    }
  }

  /** A token issued for a device code carries the user of its one approval and the scope and
      resource of its one start, and goes to the client of that start (an application without a
      client id is not bound to one). */
  lemma TokenComesFromItsFlow(run: seq<Sys>, n: nat, k: nat)
    requires IsRun(run) && n < |run| && k < |run[n].log| && run[n].log[k].Issued?
    ensures var log := run[n].log;
            var Issued(r, d, user, scope, resource, clientId, claimed) := log[k];
            exists i, j ::
              && 0 <= i < j < k
              && log[i].Started? && log[i].start.deviceCode == d
              && log[j] == ApprovedBy(d, log[i].userCode, user)
              && Of(log, Starts, d) == [log[i]] && Of(log, Approvals, d) == [log[j]]
              && log[i].start.scope == scope && log[i].start.resource == resource
              && log[i].start.clientId in {"", clientId}
  {
    var log := run[n].log;
    var Issued(r, d, user, scope, resource, clientId, claimed) := log[k];
    HistoryOf(run, n, k);
    var i, j := FlowOrigin(run, n, k, d, user);
  }

  /** Before the `k`-th event the flow of `d` was started and then approved, each exactly once in the whole run. */
  lemma FlowOrigin(run: seq<Sys>, n: nat, k: nat, d: string, user: string) returns (i: nat, j: nat)
    requires IsRun(run) && n < |run| && k <= |run[n].log|
    requires ApprovedWith(run[n].log[..k], d) == Some(user) && StartedWith(run[n].log[..k], d).Some?
    ensures var log := run[n].log;
            && i < j < k && log[i] == StartedWith(log[..k], d).value
            && log[i].start.deviceCode == d && log[j] == ApprovedBy(d, log[i].userCode, user)
            && Of(log, Starts, d) == [log[i]] && Of(log, Approvals, d) == [log[j]]
  {
    hide IsRun, Of, Justified;
    var log := run[n].log;
    j := IndexOf(log, k, Approvals, d, Of(log[..k], Approvals, d)[0]);
    HistoryOf(run, n, j);
    ApprovalNeedsStart(log[..j], log[j]);
    i := IndexOf(log, j, Starts, d, Of(log[..j], Starts, d)[0]);
    assert log[..k][i] == log[i];
    OfContains(log[..k], i);
    OfContains(log, i);
    OfContains(log, j);
    HistoryIsSingular(run, n, d);
  }

  lemma IndexOf(log: seq<Event>, k: nat, kind: Kind, d: string, e: Event) returns (i: nat)
    requires k <= |log| && e in Of(log[..k], kind, d)
    ensures i < k && log[i] == e && KindOf(e) == kind && DeviceOf(e) == d
  {
    OfHasIndex(log[..k], kind, d, e);
    i :| 0 <= i < k && log[..k][i] == e;
  }

  lemma ApprovalNeedsStart(past: seq<Event>, e: Event)
    requires e.ApprovedBy? && Justified(past, e)
    ensures StartedWith(past, e.deviceCode).Some? && StartedWith(past, e.deviceCode).value.userCode == e.userCode
  {
  }

  lemma HistoryIsSingular(run: seq<Sys>, n: nat, d: string)
    requires IsRun(run) && n < |run|
    ensures |Of(run[n].log, Starts, d)| <= 1 && |Of(run[n].log, Approvals, d)| <= 1
  {
    RunIsSafe(run, n);
    if d in run[n].flows { assert FlowHistory(run[n].log, d, run[n].flows[d]); }
  }

  /** Device codes and user codes share one key space, yet a string of one kind never has the
      effect of the other: approvals and cancellations come from user codes, and everything that
      leads to a token or a session from device codes. */
  lemma CodesNeverMix(run: seq<Sys>, n: nat, k: nat)
    requires IsRun(run) && n < |run| && k < |run[n].log|
    ensures match run[n].log[k]
            case ApprovedBy(_, u, _) => IsUserCode(u) && !IsDeviceCode(u)
            case Cancelled(_, u) => IsUserCode(u) && !IsDeviceCode(u)
            case e => IsDeviceCode(DeviceOf(e)) && !IsUserCode(DeviceOf(e))
  {
    var log := run[n].log;
    HistoryOf(run, n, k);
    var d := DeviceOf(log[k]);
    if !log[k].ApprovedBy? && !log[k].Cancelled? { LoggedDeviceIsADeviceCode(run, n, k); }
  }

  lemma LoggedDeviceIsADeviceCode(run: seq<Sys>, n: nat, k: nat)
    requires IsRun(run) && n < |run| && k < |run[n].log|
    ensures IsDeviceCode(DeviceOf(run[n].log[k]))
  {
    RunIsSafe(run, n);
    var s := run[n];
    OfContains(s.log, k);
    FlowFact(s, DeviceOf(s.log[k]));
  }

  // ----- How many tokens a device code can yield

  lemma {:induction false} LaterTokensWereOvertaken(log: seq<Event>, d: string, m: nat)
    requires Ordered(log) && m < |Of(log, Tokens, d)|
    ensures var e := Of(log, Tokens, d)[m]; e.Issued? && e.claimed == (if m == 0 then Approved else TokenIssued)
  {
    var last := |log| - 1;
    var rest := log[..last];
    assert Ordered(rest) by {
      forall i | 0 <= i < |rest| ensures JustifiedAt(rest, i) {
        assert JustifiedAt(log, i);
        assert rest[..i] == log[..i];
      }
    }
    if m < |Of(rest, Tokens, d)| {
      LaterTokensWereOvertaken(rest, d, m);
    } else {
      assert JustifiedAt(log, last);
    }
  }

  lemma RunIsOrdered(run: seq<Sys>, n: nat)
    requires IsRun(run) && n < |run|
    ensures Ordered(run[n].log)
  {
    hide IsRun, Inv, Ordered;
    RunIsSafe(run, n);
  }

  /** The claim does not look at the status again, so a device code can yield more than one token
      when requests interleave. It yields at most one exactly when no token was minted on a
      claimed entry that was already marked as used. */
  lemma AtMostOneTokenExactly(run: seq<Sys>, n: nat, d: string)
    requires IsRun(run) && n < |run|
    ensures |Of(run[n].log, Tokens, d)| <= 1 <==>
            forall k :: 0 <= k < |run[n].log| && run[n].log[k].Issued? && run[n].log[k].deviceCode == d
                        ==> run[n].log[k].claimed != TokenIssued
  {
    hide Of, Ordered, IsRun;
    var log := run[n].log;
    var tokens := Of(log, Tokens, d);
    RunIsOrdered(run, n);
    if |tokens| > 1 {
      LaterTokensWereOvertaken(log, d, 1);
      OfHasIndex(log, Tokens, d, tokens[1]);
    } else {
      forall k | 0 <= k < |log| && log[k].Issued? && log[k].deviceCode == d ensures log[k].claimed != TokenIssued {
        OfContains(log, k);
        assert log[k] in tokens;
        LaterTokensWereOvertaken(log, d, 0);
      }
    }
  }

  // ----- The same, in terms of what happened

  /** The `j`-th event is the claim on which the `k`-th minted its token: the request's own, and the latest of
      the device code. */
  predicate IsClaimOf(log: seq<Event>, k: nat, j: nat) {
    && j < k < |log| && log[k].Issued? && log[j].Claimed?
    && log[j].rid == log[k].rid && log[j].deviceCode == log[k].deviceCode
    && forall i :: j < i < k ==> !(log[i].Claimed? && log[i].deviceCode == log[k].deviceCode)
  }

  /** Another exchange marked the device code between the first load and the claim of the request that minted
      the `k`-th event. */
  predicate IsOvertaken(log: seq<Event>, k: nat) {
    exists j, m :: 0 <= m < j < k && IsClaimOf(log, k, j) && log[j].at < m
                   && log[m].Marked? && log[m].deviceCode == log[k].deviceCode
  }

  lemma {:induction false} LastHasIndex(log: seq<Event>, kind: Kind, d: string) returns (j: nat)
    requires Of(log, kind, d) != []
    ensures j < |log| && log[j] == Last(Of(log, kind, d)).value && KindOf(log[j]) == kind && DeviceOf(log[j]) == d
    ensures forall i :: j < i < |log| ==> !(KindOf(log[i]) == kind && DeviceOf(log[i]) == d)
  {
    var last := |log| - 1;
    if KindOf(log[last]) == kind && DeviceOf(log[last]) == d {
      j := last;
    } else {
      j := LastHasIndex(log[..last], kind, d);
      assert forall i :: j < i < last ==> log[..last][i] == log[i];
    }
  }

  lemma TokenNeedsClaim(past: seq<Event>, e: Event)
    requires e.Issued? && Justified(past, e)
    ensures LastClaimHas(past, e.deviceCode, e.rid, e.claimed)
  {
    hide Of;
  }

  /** Every token was minted on a claim of its own request. */
  lemma TokenHasAClaim(run: seq<Sys>, n: nat, k: nat) returns (j: nat)
    requires IsRun(run) && n < |run| && k < |run[n].log| && run[n].log[k].Issued?
    ensures IsClaimOf(run[n].log, k, j) && run[n].log[j].entry.status == run[n].log[k].claimed
  {
    hide IsRun, Of, Justified;
    var log := run[n].log;
    var past := log[..k];
    HistoryOf(run, n, k);
    TokenNeedsClaim(past, log[k]);
    j := LastHasIndex(past, Claims, log[k].deviceCode);
    assert forall i :: 0 <= i < k ==> past[i] == log[i];
  }

  lemma ClaimOfIsUnique(log: seq<Event>, k: nat, i: nat, j: nat)
    requires IsClaimOf(log, k, i) && IsClaimOf(log, k, j)
    ensures i == j
  {
  }

  /** A token was minted on an entry already marked exactly when its request was overtaken. */
  lemma MintedOnMarkedExactly(run: seq<Sys>, n: nat, k: nat)
    requires IsRun(run) && n < |run| && k < |run[n].log| && run[n].log[k].Issued?
    ensures run[n].log[k].claimed == TokenIssued <==> IsOvertaken(run[n].log, k)
  {
    hide IsRun;
    var log := run[n].log;
    var j := TokenHasAClaim(run, n, k);
    ClaimIsOvertakenExactly(run, n, j);
    if IsOvertaken(log, k) {
      var i, m :| 0 <= m < i < k && IsClaimOf(log, k, i) && log[i].at < m
                  && log[m].Marked? && log[m].deviceCode == log[k].deviceCode;
      ClaimOfIsUnique(log, k, i, j);
    }
  }

  /** A device code yields at most one token exactly when no exchange that minted one was overtaken by a mark
      between its own first load and its claim. */
  lemma OneTokenUnlessOvertaken(run: seq<Sys>, n: nat, d: string)
    requires IsRun(run) && n < |run|
    ensures |Of(run[n].log, Tokens, d)| <= 1 <==>
            forall k :: 0 <= k < |run[n].log| && run[n].log[k].Issued? && run[n].log[k].deviceCode == d
                        ==> !IsOvertaken(run[n].log, k)
  {
    hide IsRun, Of, IsOvertaken;
    AtMostOneTokenExactly(run, n, d);
    forall k | 0 <= k < |run[n].log| && run[n].log[k].Issued?
      ensures run[n].log[k].claimed == TokenIssued <==> IsOvertaken(run[n].log, k)
    {
      MintedOnMarkedExactly(run, n, k);
    }
  }
}
