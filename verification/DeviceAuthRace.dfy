/** Runs that break what holds when requests do not overlap.

    One device code yields two tokens: both exchanges load the approved entry before the first of them claims
    it, and the claim does not look at the status again.  A cancelled flow goes on: an approval stores back the
    entry that the cancellation deletes.  A flow is completed twice: both completions load the entry before
    either deletes it.
  */
module DeviceAuthRace {
  import opened Wrappers
  import opened DeviceAuthStore
  import opened DeviceAuthMachine
  import opened DeviceAuthHistory

  // The inputs of one concrete run.
  const USER_CODE := seq(6, i => 'a')
  const DEVICE_CODE := seq(36, i => '0')
  const USER := "org/alice"
  const START := StartRequest(DEVICE_CODE, [USER_CODE, USER_CODE, USER_CODE, USER_CODE, USER_CODE],
                              "admin/app", "client", "read", "", 0, 0, "token", 0)
  const EXCHANGE := TokenRequest(DEVICE_CODE, "client", "", 0, Minted)

  lemma InitialRun()
    ensures IsRun([INITIAL])
  {
  }

  lemma EnterEffect(s: Sys, r: nat, q: Request)
    requires Enabled(s, Enter(r, q))
    ensures Looks(Next(s, Enter(r, q)), s.store, s.procs[r := FirstProc(q)], s.log)
  {
  }

  // The program points of a start, an approval and an exchange that nothing refuses.

  lemma StartEffects(s: Sys, a: StartRequest, u: string)
    requires Looks(s, map[], map[0 := Probing(a, 0)], []) && |a.candidates| > 0 && a.candidates[0] == u
    ensures var s1 := Next(s, Run(0)); Looks(s1, map[], map[0 := PuttingDevice(a, u)], [])
    ensures var s2 := Next(Next(s, Run(0)), Run(0));
            Looks(s2, map[a.deviceCode := DeviceEntry(a)], map[0 := PuttingUser(a, u)], [])
  {
  }

  lemma OfferEffect(s: Sys, a: StartRequest, u: string)
    requires Looks(s, map[a.deviceCode := DeviceEntry(a)], map[0 := PuttingUser(a, u)], [])
    ensures Looks(Next(s, Run(0)), map[a.deviceCode := DeviceEntry(a), u := UserEntry(a)], map[], [Started(a, u)])
  {
  }

  lemma ConsumeEffect(s: Sys, a: StartRequest, u: string, user: string)
    requires a.deviceCode != u
    requires Looks(s, map[a.deviceCode := DeviceEntry(a), u := UserEntry(a)],
                   map[0 := Consuming(u, user, a.userAt, true)], [Started(a, u)])
    ensures Looks(Next(s, Run(0)), map[a.deviceCode := DeviceEntry(a)],
                  map[0 := LoadingDevice(a.deviceCode, u, user, true)], [Started(a, u)])
  {
    assert s.store - {u} == map[a.deviceCode := DeviceEntry(a)];
  }

  lemma ApproveEffects(s: Sys, a: StartRequest, u: string, user: string)
    requires Looks(s, map[a.deviceCode := DeviceEntry(a)], map[0 := LoadingDevice(a.deviceCode, u, user, true)],
                   [Started(a, u)])
    ensures var c := ApprovedEntry(DeviceEntry(a), user);
            var s1 := Next(s, Run(0));
            && Looks(s1, s.store, map[0 := PuttingApproval(a.deviceCode, u, c)], s.log)
            && Looks(Next(s1, Run(0)), map[a.deviceCode := c], map[],
                     [Started(a, u), ApprovedBy(a.deviceCode, u, user)])
  {
  }

  lemma LoadEffect(s: Sys, r: nat, t: TokenRequest)
    requires r in s.procs && s.procs[r] == TokenLoading(t) && t.deviceCode != "" && t.deviceCode in s.store
    requires !s.store[t.deviceCode].IsExpired(t.now) && Admits(s.store[t.deviceCode], t)
    ensures Looks(Next(s, Run(r)), s.store, s.procs[r := Claiming(t, s.store[t.deviceCode], |s.log|)],
                  s.log + [Admitted(r, t.deviceCode)])
  {
  }

  lemma ExchangeEffects(s: Sys, r: nat, t: TokenRequest, loaded: Cache, at: nat)
    requires r in s.procs && s.procs[r] == Claiming(t, loaded, at) && t.deviceCode in s.store && t.mint.Minted?
    ensures var d := t.deviceCode;
            var c := s.store[d];
            var e := Issued(r, d, loaded.userName, loaded.scope, loaded.resource, t.clientId, c.status);
            var s1 := Next(s, Run(r));
            && Looks(s1, s.store - {d}, s.procs[r := Minting(t, loaded, c)], s.log + [Claimed(r, d, c, at)])
            && Looks(Next(s1, Run(r)), s.store - {d}, s.procs[r := Restoring(t, c, true)], s1.log + [e])
  {
  }

  lemma MarkEffect(s: Sys, r: nat, t: TokenRequest, c: Cache)
    requires r in s.procs && s.procs[r] == Restoring(t, c, true)
    ensures Looks(Next(s, Run(r)), s.store[t.deviceCode := c.(status := TokenIssued)], s.procs - {r},
                  s.log + [Marked(r, t.deviceCode)])
  {
  }

  /** A start that nothing interrupts. */
  lemma StartAlone(a: StartRequest, u: string) returns (run: seq<Sys>)
    requires WellFormed(Start(a)) && a.candidates[0] == u
    ensures |run| > 0 && IsRun(run)
    ensures Looks(run[|run| - 1], map[a.deviceCode := DeviceEntry(a), u := UserEntry(a)], map[], [Started(a, u)])
  {
    hide IsRun, Next, DeviceEntry, UserEntry;
    InitialRun();
    EnterEffect(INITIAL, 0, Start(a));
    run := ExtendRun([INITIAL], Enter(0, Start(a)));
    StartEffects(run[1], a, u);
    run := ExtendRun(run, Run(0));
    run := ExtendRun(run, Run(0));
    OfferEffect(run[3], a, u);
    run := ExtendRun(run, Run(0));
  }

  /** A start and an approval that nothing interrupts. */
  lemma StartAndApprove(a: StartRequest, u: string, user: string) returns (run: seq<Sys>)
    requires WellFormed(Start(a)) && a.candidates[0] == u && IsUserId(user)
    ensures |run| > 0 && IsRun(run)
    ensures Looks(run[|run| - 1], map[a.deviceCode := ApprovedEntry(DeviceEntry(a), user)], map[],
                  [Started(a, u), ApprovedBy(a.deviceCode, u, user)])
  {
    hide IsRun, Next, DeviceEntry, UserEntry, ApprovedEntry;
    run := StartAlone(a, u);
    EnterEffect(run[|run| - 1], 0, Approve(u, user, a.userAt, true));
    run := ExtendRun(run, Enter(0, Approve(u, user, a.userAt, true)));
    ConsumeEffect(run[|run| - 1], a, u, user);
    run := ExtendRun(run, Run(0));
    ApproveEffects(run[|run| - 1], a, u, user);
    run := ExtendRun(run, Run(0));
    run := ExtendRun(run, Run(0));
  }

  lemma TokenCount(log: seq<Event>, e: Event, d: string)
    ensures |Of(log + [e], Tokens, d)| == |Of(log, Tokens, d)| + (if e.Issued? && e.deviceCode == d then 1 else 0)
  {
    OfAppend(log, e, Tokens, d);
  }

  /** Both exchanges have loaded the entry. */
  lemma LoadTwice(run0: seq<Sys>, t: TokenRequest) returns (run: seq<Sys>)
    requires |run0| > 0 && IsRun(run0) && t.deviceCode != ""
    requires var s := run0[|run0| - 1];
             && s.procs == map[] && t.deviceCode in s.store && Of(s.log, Tokens, t.deviceCode) == []
             && !s.store[t.deviceCode].IsExpired(t.now) && Admits(s.store[t.deviceCode], t)
    ensures |run| > 0 && IsRun(run)
    ensures var s := run0[|run0| - 1];
            var c := s.store[t.deviceCode];
            var n := |s.log|;
            && Looks(run[|run| - 1], s.store, map[1 := Claiming(t, c, n), 2 := Claiming(t, c, n + 1)],
                     s.log + [Admitted(1, t.deviceCode)] + [Admitted(2, t.deviceCode)])
            && Of(run[|run| - 1].log, Tokens, t.deviceCode) == []
  {
    hide IsRun, Next, Of, Admits;
    EnterEffect(run0[|run0| - 1], 1, Exchange(t));
    run := ExtendRun(run0, Enter(1, Exchange(t)));
    EnterEffect(run[|run| - 1], 2, Exchange(t));
    run := ExtendRun(run, Enter(2, Exchange(t)));
    LoadEffect(run[|run| - 1], 1, t);
    TokenCount(run[|run| - 1].log, Admitted(1, t.deviceCode), t.deviceCode);
    run := ExtendRun(run, Run(1));
    LoadEffect(run[|run| - 1], 2, t);
    TokenCount(run[|run| - 1].log, Admitted(2, t.deviceCode), t.deviceCode);
    run := ExtendRun(run, Run(2));
  }

  /** Request `r` claims and mints: one more token. */
  lemma ClaimAndMint(run0: seq<Sys>, r: nat, t: TokenRequest, loaded: Cache, at: nat) returns (run: seq<Sys>)
    requires |run0| > 0 && IsRun(run0) && t.mint.Minted?
    requires var s := run0[|run0| - 1]; r in s.procs && s.procs[r] == Claiming(t, loaded, at) && t.deviceCode in s.store
    ensures |run| > 0 && IsRun(run)
    ensures var s, s' := run0[|run0| - 1], run[|run| - 1];
            && s'.procs == s.procs[r := Restoring(t, s.store[t.deviceCode], true)]
            && |Of(s'.log, Tokens, t.deviceCode)| == |Of(s.log, Tokens, t.deviceCode)| + 1
  {
    hide IsRun, Next, Of;
    var s := run0[|run0| - 1];
    var d := t.deviceCode;
    ExchangeEffects(s, r, t, loaded, at);
    run := ExtendRun(run0, Run(r));
    TokenCount(s.log, Claimed(r, d, s.store[d], at), d);
    var e := Issued(r, d, loaded.userName, loaded.scope, loaded.resource, t.clientId, s.store[d].status);
    TokenCount(run[|run| - 1].log, e, d);
    run := ExtendRun(run, Run(r));
  }

  /** Two exchanges, the second overtaken between its load and its claim. */
  lemma Overtake(run0: seq<Sys>, t: TokenRequest) returns (run: seq<Sys>)
    requires |run0| > 0 && IsRun(run0) && t.mint.Minted? && t.deviceCode != ""
    requires var s := run0[|run0| - 1];
             && s.procs == map[] && t.deviceCode in s.store && Of(s.log, Tokens, t.deviceCode) == []
             && !s.store[t.deviceCode].IsExpired(t.now) && Admits(s.store[t.deviceCode], t)
    ensures |run| > 0 && IsRun(run) && |Of(run[|run| - 1].log, Tokens, t.deviceCode)| == 2
  {
    hide IsRun, Next, Of, Admits;
    var c := run0[|run0| - 1].store[t.deviceCode];
    var n := |run0[|run0| - 1].log|;
    run := LoadTwice(run0, t);
    run := ClaimAndMint(run, 1, t, c, n);
    MarkEffect(run[|run| - 1], 1, t, c);
    TokenCount(run[|run| - 1].log, Marked(1, t.deviceCode), t.deviceCode);
    run := ExtendRun(run, Run(1));
    run := ClaimAndMint(run, 2, t, c, n + 1);
  }

  lemma NoTokenYet(a: StartRequest, u: string, user: string, d: string)
    ensures Of([Started(a, u), ApprovedBy(d, u, user)], Tokens, d) == []
  {
    TokenCount([], Started(a, u), d);
    TokenCount([Started(a, u)], ApprovedBy(d, u, user), d);
    assert [Started(a, u)] + [ApprovedBy(d, u, user)] == [Started(a, u), ApprovedBy(d, u, user)];
    assert [] + [Started(a, u)] == [Started(a, u)];
  }

  /** Every flow that was started and approved has a run in which its device code yields two tokens. */
  lemma OvertakenClaimIssuesTwice(a: StartRequest, user: string, t: TokenRequest) returns (run: seq<Sys>)
    requires WellFormed(Start(a)) && IsUserId(user)
    requires t.deviceCode == a.deviceCode && t.clientId == a.clientId && t.resource == a.resource
    requires !DeviceEntry(a).IsExpired(t.now) && t.mint.Minted?
    ensures |run| > 0 && IsRun(run) && |Of(run[|run| - 1].log, Tokens, a.deviceCode)| == 2
  {
    hide IsRun;
    run := StartAndApprove(a, a.candidates[0], user);
    NoTokenYet(a, a.candidates[0], user, a.deviceCode);
    run := Overtake(run, t);
  }

  /** One such run, with all its inputs written out. */
  lemma TwoTokensForOneDeviceCode() returns (run: seq<Sys>)
    ensures |run| > 0 && IsRun(run) && |Of(run[|run| - 1].log, Tokens, DEVICE_CODE)| == 2
  {
    hide IsRun, Of;
    assert USER[3] == '/';
    run := OvertakenClaimIssuesTwice(START, USER, EXCHANGE);
  }

  // ----- A cancelled flow that goes on

  lemma CancelLoadEffect(s: Sys, a: StartRequest, u: string)
    requires Looks(s, map[a.deviceCode := DeviceEntry(a), u := UserEntry(a)], map[1 := CancelLoading(u, a.cancelToken)],
                   [Started(a, u)])
    requires a.cancelToken != "" && a.deviceCode != u
    ensures Looks(Next(s, Run(1)), s.store, map[1 := CancelDroppingUser(u, a.deviceCode)], s.log)
  {
  }

  lemma ConsumeMeanwhile(s: Sys, a: StartRequest, u: string, user: string)
    requires a.deviceCode != u
    requires Looks(s, map[a.deviceCode := DeviceEntry(a), u := UserEntry(a)],
                   map[1 := CancelDroppingUser(u, a.deviceCode), 2 := Consuming(u, user, a.userAt, true)],
                   [Started(a, u)])
    ensures Looks(Next(s, Run(2)), map[a.deviceCode := DeviceEntry(a)],
                  map[1 := CancelDroppingUser(u, a.deviceCode), 2 := LoadingDevice(a.deviceCode, u, user, true)], s.log)
  {
    assert s.store - {u} == map[a.deviceCode := DeviceEntry(a)];
  }

  lemma LoadMeanwhile(s: Sys, a: StartRequest, u: string, user: string)
    requires Looks(s, map[a.deviceCode := DeviceEntry(a)],
                   map[1 := CancelDroppingUser(u, a.deviceCode), 2 := LoadingDevice(a.deviceCode, u, user, true)],
                   [Started(a, u)])
    ensures Looks(Next(s, Run(2)), s.store,
                  map[1 := CancelDroppingUser(u, a.deviceCode),
                      2 := PuttingApproval(a.deviceCode, u, ApprovedEntry(DeviceEntry(a), user))], s.log)
  {
  }

  lemma CancelUserEffect(s: Sys, a: StartRequest, u: string, p: Proc)
    requires a.deviceCode != u && a.deviceCode != ""
    requires Looks(s, map[a.deviceCode := DeviceEntry(a)], map[1 := CancelDroppingUser(u, a.deviceCode), 2 := p],
                   [Started(a, u)])
    ensures Looks(Next(s, Run(1)), s.store, map[1 := CancelDroppingDevice(u, a.deviceCode), 2 := p], s.log)
  {
    hide DeviceEntry;
    assert s.store - {u} == s.store;
  }

  lemma CancelDeviceEffect(s: Sys, a: StartRequest, u: string, p: Proc)
    requires Looks(s, map[a.deviceCode := DeviceEntry(a)], map[1 := CancelDroppingDevice(u, a.deviceCode), 2 := p],
                   [Started(a, u)])
    ensures Looks(Next(s, Run(1)), map[], map[2 := p], s.log + [Cancelled(a.deviceCode, u)])
  {
    hide DeviceEntry;
    assert s.store - {a.deviceCode} == map[];
    assert s.procs - {1} == map[2 := p];
  }

  lemma PutEffect(s: Sys, key: string, u: string, c: Cache)
    requires s.procs == map[2 := PuttingApproval(key, u, c)]
    ensures key in Next(s, Run(2)).store && Next(s, Run(2)).log == s.log + [ApprovedBy(key, u, c.userName)]
  {
  }

  /** Every flow has a run in which it is approved after it was cancelled: the approval loaded the device entry
      before the cancellation deleted it, and stores it back. */
  lemma CancelledFlowGoesOn(a: StartRequest, user: string) returns (run: seq<Sys>)
    requires WellFormed(Start(a)) && IsUserId(user)
    ensures |run| > 0 && IsRun(run)
    ensures var log := run[|run| - 1].log;
            && |log| == 3 && log[1] == Cancelled(a.deviceCode, a.candidates[0])
            && log[2] == ApprovedBy(a.deviceCode, a.candidates[0], user) && a.deviceCode in run[|run| - 1].store
  {
    hide IsRun, Next, DeviceEntry, UserEntry, ApprovedEntry;
    var u, c := a.candidates[0], ApprovedEntry(DeviceEntry(a), user);
    run := CancelAndApprove(a, u, user);
    CancelUserEffect(run[|run| - 1], a, u, PuttingApproval(a.deviceCode, u, c));
    run := ExtendRun(run, Run(1));
    CancelDeviceEffect(run[|run| - 1], a, u, PuttingApproval(a.deviceCode, u, c));
    run := ExtendRun(run, Run(1));
    PutEffect(run[|run| - 1], a.deviceCode, u, c);
    ApprovedUser(DeviceEntry(a), user);
    run := ExtendRun(run, Run(2));
  }

  /** The cancellation has loaded the user entry and the approval the device entry. */
  lemma CancelAndApprove(a: StartRequest, u: string, user: string) returns (run: seq<Sys>)
    requires WellFormed(Start(a)) && a.candidates[0] == u && IsUserId(user)
    ensures |run| > 0 && IsRun(run)
    ensures Looks(run[|run| - 1], map[a.deviceCode := DeviceEntry(a)],
                  map[1 := CancelDroppingUser(u, a.deviceCode),
                      2 := PuttingApproval(a.deviceCode, u, ApprovedEntry(DeviceEntry(a), user))], [Started(a, u)])
  {
    hide IsRun, Next, DeviceEntry, UserEntry, ApprovedEntry;
    run := StartAlone(a, u);
    EnterEffect(run[|run| - 1], 1, Cancel(u, a.cancelToken));
    run := ExtendRun(run, Enter(1, Cancel(u, a.cancelToken)));
    CancelLoadEffect(run[|run| - 1], a, u);
    run := ExtendRun(run, Run(1));
    EnterEffect(run[|run| - 1], 2, Approve(u, user, a.userAt, true));
    run := ExtendRun(run, Enter(2, Approve(u, user, a.userAt, true)));
    ConsumeMeanwhile(run[|run| - 1], a, u, user);
    run := ExtendRun(run, Run(2));
    LoadMeanwhile(run[|run| - 1], a, u, user);
    run := ExtendRun(run, Run(2));
  }

  lemma ApprovedUser(c: Cache, user: string)
    ensures ApprovedEntry(c, user).userName == user
  {
  }

  // ----- A flow that is completed twice

  /** One exchange with nobody else about. */
  lemma ExchangeAlone(run0: seq<Sys>, t: TokenRequest) returns (run: seq<Sys>)
    requires |run0| > 0 && IsRun(run0) && t.mint.Minted? && t.deviceCode != ""
    requires var s := run0[|run0| - 1];
             && s.procs == map[] && t.deviceCode in s.store && Of(s.log, Completions, t.deviceCode) == []
             && !s.store[t.deviceCode].IsExpired(t.now) && Admits(s.store[t.deviceCode], t)
    ensures |run| > 0 && IsRun(run)
    ensures var c, s := run0[|run0| - 1].store[t.deviceCode], run[|run| - 1];
            && s.procs == map[] && t.deviceCode in s.store
            && s.store[t.deviceCode] == c.(status := TokenIssued)
            && Of(s.log, Completions, t.deviceCode) == []
  {
    hide IsRun, Next, Of, Admits;
    var d := t.deviceCode;
    var c := run0[|run0| - 1].store[d];
    EnterEffect(run0[|run0| - 1], 1, Exchange(t));
    run := ExtendRun(run0, Enter(1, Exchange(t)));
    var s := run[|run| - 1];
    LoadEffect(s, 1, t);
    OfAppend(s.log, Admitted(1, d), Completions, d);
    run := ExtendRun(run, Run(1));
    s := run[|run| - 1];
    var at := s.procs[1].at;
    ExchangeEffects(s, 1, t, c, at);
    run := ExtendRun(run, Run(1));
    run := ExtendRun(run, Run(1));
    OfAppend(s.log, Claimed(1, d, c, at), Completions, d);
    OfAppend(s.log + [Claimed(1, d, c, at)],
             Issued(1, d, c.userName, c.scope, c.resource, t.clientId, c.status), Completions, d);
    s := run[|run| - 1];
    MarkEffect(s, 1, t, c);
    OfAppend(s.log, Marked(1, d), Completions, d);
    run := ExtendRun(run, Run(1));
  }

  lemma CompleteLoadEffect(s: Sys, r: nat, k: CompleteRequest)
    requires r in s.procs && s.procs[r] == CompleteLoading(k) && k.deviceCode != "" && k.deviceCode in s.store
    requires s.store[k.deviceCode].status == TokenIssued && !s.store[k.deviceCode].IsExpired(k.now)
    requires CanComplete(s.store[k.deviceCode], k)
    ensures Looks(Next(s, Run(r)), s.store, s.procs[r := CompleteDropping(k, s.store[k.deviceCode])], s.log)
  {
  }

  lemma CompleteDropEffect(s: Sys, r: nat, k: CompleteRequest, c: Cache)
    requires r in s.procs && s.procs[r] == CompleteDropping(k, c) && ResponseType(k) != "device"
    ensures var e := Completed(k.deviceCode, c.userName, ResponseType(k), k.scope);
            Looks(Next(s, Run(r)), s.store - {k.deviceCode}, s.procs - {r}, s.log + [e])
  {
  }

  /** Two completions have both loaded the entry. */
  lemma LoadBoth(run0: seq<Sys>, k: CompleteRequest) returns (run: seq<Sys>)
    requires |run0| > 0 && IsRun(run0) && k.deviceCode != ""
    requires var s, d := run0[|run0| - 1], k.deviceCode;
             && s.procs == map[] && d in s.store
             && s.store[d].status == TokenIssued && !s.store[d].IsExpired(k.now) && CanComplete(s.store[d], k)
    ensures |run| > 0 && IsRun(run)
    ensures var s := run0[|run0| - 1];
            var p := CompleteDropping(k, s.store[k.deviceCode]);
            Looks(run[|run| - 1], s.store, map[1 := p, 2 := p], s.log)
  {
    hide IsRun, Next, CanComplete;
    EnterEffect(run0[|run0| - 1], 1, Complete(k));
    run := ExtendRun(run0, Enter(1, Complete(k)));
    EnterEffect(run[|run| - 1], 2, Complete(k));
    run := ExtendRun(run, Enter(2, Complete(k)));
    CompleteLoadEffect(run[|run| - 1], 1, k);
    run := ExtendRun(run, Run(1));
    CompleteLoadEffect(run[|run| - 1], 2, k);
    run := ExtendRun(run, Run(2));
  }

  /** Two completions that both load the entry before either deletes it. */
  lemma CompleteBoth(run0: seq<Sys>, k: CompleteRequest) returns (run: seq<Sys>)
    requires |run0| > 0 && IsRun(run0) && k.deviceCode != "" && ResponseType(k) != "device"
    requires var s, d := run0[|run0| - 1], k.deviceCode;
             && s.procs == map[] && d in s.store && Of(s.log, Completions, d) == []
             && s.store[d].status == TokenIssued && !s.store[d].IsExpired(k.now) && CanComplete(s.store[d], k)
    ensures |run| > 0 && IsRun(run) && |Of(run[|run| - 1].log, Completions, k.deviceCode)| == 2
  {
    hide IsRun, Next, Of, CanComplete, ResponseType;
    var d := k.deviceCode;
    var c := run0[|run0| - 1].store[d];
    var e := Completed(d, c.userName, ResponseType(k), k.scope);
    run := LoadBoth(run0, k);
    var s := run[|run| - 1];
    CompleteDropEffect(s, 1, k, c);
    run := ExtendRun(run, Run(1));
    OfAppend(s.log, e, Completions, d);
    s := run[|run| - 1];
    CompleteDropEffect(s, 2, k, c);
    run := ExtendRun(run, Run(2));
    OfAppend(s.log, e, Completions, d);
  }

  lemma NoCompletionYet(a: StartRequest, u: string, user: string, d: string)
    ensures Of([Started(a, u), ApprovedBy(d, u, user)], Completions, d) == []
  {
    var log := [Started(a, u)];
    OfAppend([], Started(a, u), Completions, d);
    OfAppend(log, ApprovedBy(d, u, user), Completions, d);
    assert [] + log == log && log + [ApprovedBy(d, u, user)] == [Started(a, u), ApprovedBy(d, u, user)];
  }

  /** Every flow that was started and approved has a run in which its device code is completed twice. */
  lemma TwoCompletions(a: StartRequest, user: string) returns (run: seq<Sys>)
    requires WellFormed(Start(a)) && IsUserId(user)
    ensures |run| > 0 && IsRun(run) && |Of(run[|run| - 1].log, Completions, a.deviceCode)| == 2
  {
    hide IsRun, Of;
    var d := a.deviceCode;
    run := StartAndApprove(a, a.candidates[0], user);
    NoCompletionYet(a, a.candidates[0], user, d);
    run := ExchangeAlone(run, TokenRequest(d, a.clientId, a.resource, a.deviceAt, Minted));
    run := CompleteBoth(run, CompleteRequest(d, "login", "", "", a.deviceAt, Some(""), true));
  }

  // ----- Two starts with one user code

  lemma ProbeEffect(s: Sys, r: nat, a: StartRequest)
    requires r in s.procs && s.procs[r] == Probing(a, 0) && |a.candidates| > 0 && a.candidates[0] !in s.store
    ensures Looks(Next(s, Run(r)), s.store, s.procs[r := PuttingDevice(a, a.candidates[0])], s.log)
  {
  }

  lemma PutDeviceEffect(s: Sys, r: nat, a: StartRequest, u: string)
    requires r in s.procs && s.procs[r] == PuttingDevice(a, u)
    ensures Looks(Next(s, Run(r)), s.store[a.deviceCode := DeviceEntry(a)], s.procs[r := PuttingUser(a, u)], s.log)
  {
  }

  lemma PutUserEffect(s: Sys, r: nat, a: StartRequest, u: string)
    requires r in s.procs && s.procs[r] == PuttingUser(a, u)
    ensures Looks(Next(s, Run(r)), s.store[u := UserEntry(a)], s.procs - {r}, s.log + [Started(a, u)])
  {
  }

  /** Two starts have begun. */
  lemma EnterBoth(a: StartRequest, b: StartRequest) returns (run: seq<Sys>)
    requires WellFormed(Start(a)) && WellFormed(Start(b)) && a.deviceCode != b.deviceCode
    ensures |run| > 0 && IsRun(run)
    ensures Looks(run[|run| - 1], map[], map[0 := Probing(a, 0), 1 := Probing(b, 0)], [])
  {
    hide IsRun;
    InitialRun();
    run := ExtendRun([INITIAL], Enter(0, Start(a)));
    run := ExtendRun(run, Enter(1, Start(b)));
  }

  /** Both starts have found the user code free. */
  lemma ProbeBoth(a: StartRequest, b: StartRequest, u: string) returns (run: seq<Sys>)
    requires WellFormed(Start(a)) && WellFormed(Start(b)) && a.deviceCode != b.deviceCode
    requires a.candidates[0] == u == b.candidates[0]
    ensures |run| > 0 && IsRun(run)
    ensures Looks(run[|run| - 1], map[], map[0 := PuttingDevice(a, u), 1 := PuttingDevice(b, u)], [])
  {
    hide IsRun, Next;
    run := EnterBoth(a, b);
    ProbeEffect(run[|run| - 1], 0, a);
    run := ExtendRun(run, Run(0));
    ProbeEffect(run[|run| - 1], 1, b);
    run := ExtendRun(run, Run(1));
  }

  /** A start that has found the user code stores its two entries. */
  lemma StoreEntries(run0: seq<Sys>, r: nat, a: StartRequest, u: string) returns (run: seq<Sys>)
    requires |run0| > 0 && IsRun(run0)
    requires r in run0[|run0| - 1].procs && run0[|run0| - 1].procs[r] == PuttingDevice(a, u)
    ensures |run| > 0 && IsRun(run)
    ensures var s := run0[|run0| - 1];
            Looks(run[|run| - 1], s.store[a.deviceCode := DeviceEntry(a)][u := UserEntry(a)], s.procs - {r},
                  s.log + [Started(a, u)])
  {
    hide IsRun, Next, DeviceEntry, UserEntry;
    PutDeviceEffect(run0[|run0| - 1], r, a, u);
    run := ExtendRun(run0, Run(r));
    PutUserEffect(run[|run| - 1], r, a, u);
    run := ExtendRun(run, Run(r));
    assert run0[|run0| - 1].procs[r := PuttingUser(a, u)] - {r} == run0[|run0| - 1].procs - {r};
  }

  /** Any two starts that try the same user code first have a run in which both are given it, and the second
      overwrites the link to the first: no entry leads to the first device code any more. */
  lemma TwoStartsShareACode(a: StartRequest, b: StartRequest) returns (run: seq<Sys>)
    requires WellFormed(Start(a)) && WellFormed(Start(b)) && a.deviceCode != b.deviceCode
    requires a.candidates[0] == b.candidates[0]
    ensures |run| > 0 && IsRun(run)
    ensures var s, u := run[|run| - 1], a.candidates[0];
            && s.log == [Started(a, u), Started(b, u)] && s.procs == map[]
            && u in s.store && s.store[u] == UserEntry(b)
            && a.deviceCode in s.store && forall key :: key in s.store ==> s.store[key].userName != a.deviceCode
  {
    hide IsRun, Next;
    var u := a.candidates[0];
    run := ProbeBoth(a, b, u);
    run := StoreEntries(run, 0, a, u);
    run := StoreEntries(run, 1, b, u);
  }
}
