/** User codes of different starts: a start probes for a free user code and stores its entry in a later step. */
module DeviceAuthCodes {
  import opened DeviceAuthStore
  import opened DeviceAuthMachine
  import opened DeviceAuthInvariant
  import opened DeviceAuthHistory
  import opened DeviceAuthTheorems

  /** The start found `u` free and has not stored its user entry yet. */
  predicate IsStoring(p: Proc, a: StartRequest, u: string) {
    p == PuttingDevice(a, u) || p == PuttingUser(a, u)
  }

  lemma StartGoesOn(s: Sys, r: nat, a: StartRequest, u: string)
    requires r in s.procs && r in Advance(s, r).procs && IsStoring(Advance(s, r).procs[r], a, u)
    ensures || IsStoring(s.procs[r], a, u)
            || (s.procs[r].Probing? && s.procs[r].start == a && u !in s.store && Advance(s, r).store == s.store)
  {
    hide StepToken, StepApprove, StepCancel, StepComplete;
    if !(s.procs[r].Probing? || s.procs[r].PuttingDevice? || s.procs[r].PuttingUser?) { OthersDoNotStart(s, r, a, u); }
  }

  lemma OthersDoNotStart(s: Sys, r: nat, a: StartRequest, u: string)
    requires r in s.procs && !(s.procs[r].Probing? || s.procs[r].PuttingDevice? || s.procs[r].PuttingUser?)
    ensures r in Advance(s, r).procs ==> !IsStoring(Advance(s, r).procs[r], a, u)
  {
    hide StepStart, StepApprove, StepToken;
    var p := s.procs[r];
    if p.Consuming? || p.LoadingDevice? || p.PuttingApproval? { ApprovalsDoNotStart(s, r, a, u); }
    else if IsTokenProc(p) { ExchangesDoNotStart(s, r, a, u); }
  }

  lemma ApprovalsDoNotStart(s: Sys, r: nat, a: StartRequest, u: string)
    requires r in s.procs && (s.procs[r].Consuming? || s.procs[r].LoadingDevice? || s.procs[r].PuttingApproval?)
    ensures var t := StepApprove(s, r, s.procs[r]); r in t.procs ==> !IsStoring(t.procs[r], a, u)
  {
  }

  lemma ExchangesDoNotStart(s: Sys, r: nat, a: StartRequest, u: string)
    requires r in s.procs && IsTokenProc(s.procs[r])
    ensures var t := StepToken(s, r, s.procs[r]); r in t.procs ==> !IsStoring(t.procs[r], a, u)
  {
  }

  /** A start that is about to store goes back to its own probe, which found the user code free. */
  lemma {:induction false} StartHasProbed(run: seq<Sys>, n: nat, r: nat, a: StartRequest, u: string) returns (p: nat)
    requires IsRun(run) && n < |run| && r in run[n].procs && IsStoring(run[n].procs[r], a, u)
    ensures p < n && r in run[p].procs && run[p].procs[r].Probing? && run[p].procs[r].start == a
    ensures u !in run[p].store && u !in run[p + 1].store
    ensures forall k :: p < k <= n ==> r in run[k].procs && IsStoring(run[k].procs[r], a, u)
  {
    hide Advance, IsStoring;
    assert n > 0;
    var s := run[n - 1];
    var l := StepOf(run, n - 1);
    if l != Run(r) {
      assert r in s.procs && IsStoring(s.procs[r], a, u) by {
        if l.Run? { OthersKeepTheirPlace(s, l.r, r); } else if l.Enter? && l.r == r { NoStartStores(l.request, a, u); }
      }
      p := StartHasProbed(run, n - 1, r, a, u);
    } else {
      StartGoesOn(s, r, a, u);
      if IsStoring(s.procs[r], a, u) { p := StartHasProbed(run, n - 1, r, a, u); } else { p := n - 1; }
    }
  }

  lemma NoStartStores(q: Request, a: StartRequest, u: string)
    ensures !IsStoring(FirstProc(q), a, u)
  {
  }

  // ----- Where a user code comes from

  lemma ApproveAddsNone(s: Sys, r: nat, u: string)
    requires Inv(s) && IsUserCode(u) && u !in s.store && r in s.procs
    requires s.procs[r].Consuming? || s.procs[r].LoadingDevice? || s.procs[r].PuttingApproval?
    ensures u !in StepApprove(s, r, s.procs[r]).store
  {
    hide Inv;
    ProcFact(s, r);
    if s.procs[r].PuttingApproval? { FlowFact(s, s.procs[r].key); }
  }

  lemma TokenAddsNone(s: Sys, r: nat, u: string)
    requires Inv(s) && IsUserCode(u) && u !in s.store && r in s.procs && IsTokenProc(s.procs[r])
    ensures u !in StepToken(s, r, s.procs[r]).store
  {
    hide Inv;
    ProcFact(s, r);
    if s.procs[r].Restoring? { FlowFact(s, s.procs[r].exchange.deviceCode); }
  }

  lemma StartAdds(s: Sys, r: nat, u: string)
    requires Inv(s) && IsUserCode(u) && u !in s.store && r in s.procs
    requires s.procs[r].Probing? || s.procs[r].PuttingDevice? || s.procs[r].PuttingUser?
    ensures u in StepStart(s, r, s.procs[r]).store ==> s.procs[r].PuttingUser? && s.procs[r].userCode == u
  {
    hide Inv;
    ProcFact(s, r);
  }

  /** Only a start puts a user code into the map. */
  lemma UserCodeAppears(s: Sys, l: Label, u: string)
    requires Inv(s) && Enabled(s, l) && IsUserCode(u) && u !in s.store && u in Next(s, l).store
    ensures l.Run? && s.procs[l.r].PuttingUser? && s.procs[l.r].userCode == u
  {
    hide Inv, StepStart, StepApprove, StepToken;
    if l.Run? {
      var p := s.procs[l.r];
      if p.Probing? || p.PuttingDevice? || p.PuttingUser? { StartAdds(s, l.r, u); }
      else if p.Consuming? || p.LoadingDevice? || p.PuttingApproval? { ApproveAddsNone(s, l.r, u); }
      else if IsTokenProc(p) { TokenAddsNone(s, l.r, u); }
    }
  }

  /** The `m`-th step of the run is another start's store under `u`. */
  ghost predicate StoresAt(run: seq<Sys>, m: nat, r: nat, u: string) {
    && m + 1 < |run| && r in run[m].procs && run[m].procs[r].PuttingUser? && run[m].procs[r].userCode == u
    && run[m + 1] == Advance(run[m], r)
  }

  lemma {:induction false} EntryHasAStore(run: seq<Sys>, p: nat, n: nat, u: string) returns (m: nat, r: nat)
    requires IsRun(run) && p <= n < |run| && IsUserCode(u) && u !in run[p].store && u in run[n].store
    ensures p <= m < n && StoresAt(run, m, r, u) && forall k :: m < k <= n ==> u in run[k].store
  {
    hide IsRun, Inv, History, Advance;
    if u !in run[n - 1].store {
      var l := StepOf(run, n - 1);
      RunIsSafe(run, n - 1);
      UserCodeAppears(run[n - 1], l, u);
      m, r := n - 1, l.r;
    } else {
      m, r := EntryHasAStore(run, p, n - 1, u);
    }
  }

  /** Another start stored under `u` after step `p`, and the entry has been there ever since. */
  ghost predicate HasRival(run: seq<Sys>, p: nat, n: nat, u: string) {
    n < |run| && exists m, r :: p < m < n && StoresAt(run, m, r, u) && forall k :: m < k <= n ==> u in run[k].store
  }

  /** A start overwrites an entry under its user code exactly when another start has stored under the same code
      since its own probe, and that entry is still there. */
  lemma StartOverwritesExactly(run: seq<Sys>, n: nat, r: nat) returns (p: nat)
    requires IsRun(run) && n < |run| && r in run[n].procs && run[n].procs[r].PuttingUser?
    ensures p < n && r in run[p].procs && run[p].procs[r].Probing?
    ensures run[p].procs[r].start == run[n].procs[r].start && run[n].procs[r].userCode !in run[p].store
    ensures run[n].procs[r].userCode in run[n].store <==> HasRival(run, p, n, run[n].procs[r].userCode)
  {
    hide IsRun, Inv, History, StoresAt;
    var PuttingUser(a, u) := run[n].procs[r];
    p := StartHasProbed(run, n, r, a, u);
    RunIsSafe(run, n);
    ProcFact(run[n], r);
    if u in run[n].store {
      var m, r' := EntryHasAStore(run, p + 1, n, u);
      assert p < m < n && StoresAt(run, m, r', u);
    }
  }
}
