/** The five request handlers as they run: each touches the shared map only through its four atomic
    operations.  Every operation is one step of the machine, so a handler that runs to its end
    extends a run at request grain, and everything proved about those runs holds of the handlers. */
module DeviceAuthHandlers {
  import opened Wrappers
  import opened WhiteSpace
  import opened DeviceAuthStore
  import opened DeviceAuthMachine
  import opened DeviceAuthSerial

  /** The map is in the state the run has reached, with no request in progress. */
  ghost predicate Tracks(m: DeviceAuthMap, run: seq<Sys>)
    reads m
  {
    |run| > 0 && IsSerialRun(run) && run[|run| - 1].procs == map[] && run[|run| - 1].store == m.entries
  }

  /** The events a handler added to the history. */
  ghost predicate Adds(run: seq<Sys>, longer: seq<Sys>, events: seq<Event>) {
    |run| > 0 && run <= longer && longer[|longer| - 1].log == run[|run| - 1].log + events
  }

  // The steps of a request that is alone.

  lemma SoloEnter(s: Sys, q: Request)
    requires s.procs == map[] && CanBegin(s, 0, q)
    ensures Looks(Begin(s, 0, q), s.store, map[0 := FirstProc(q)], s.log)
  {
  }

  lemma SoloDrop(s: Sys, key: string)
    requires s.procs == map[0 := Dropping(key)]
    ensures Looks(Advance(s, 0), s.store - {key}, map[], s.log)
  {
  }

  lemma SoloCancelLoad(s: Sys, u: string, token: string)
    requires s.procs == map[0 := CancelLoading(u, token)]
    ensures Looks(Advance(s, 0), s.store,
                  if u in s.store && s.store[u].cancelToken == token != ""
                  then map[0 := CancelDroppingUser(u, s.store[u].userName)] else map[], s.log)
  {
  }

  lemma SoloCancelUser(s: Sys, u: string, key: string)
    requires s.procs == map[0 := CancelDroppingUser(u, key)]
    ensures Looks(Advance(s, 0), s.store - {u},
                  if key != "" then map[0 := CancelDroppingDevice(u, key)] else map[], s.log)
  {
  }

  lemma SoloCancelDevice(s: Sys, u: string, key: string)
    requires s.procs == map[0 := CancelDroppingDevice(u, key)]
    ensures Looks(Advance(s, 0), s.store - {key}, map[], s.log + [Cancelled(key, u)])
  {
  }

  /** controllers/auth.go, `CancelDeviceAuth` */
  method CancelDeviceAuth(m: DeviceAuthMap, userCode: string, cancelToken: string, ghost run: seq<Sys>)
    returns (cancelled: bool, ghost longer: seq<Sys>)
    requires Tracks(m, run)
    modifies m
    ensures Tracks(m, longer)
    ensures cancelled <==> userCode in old(m.entries) && old(m.entries)[userCode].cancelToken == cancelToken != ""
    ensures cancelled ==>
              var key := old(m.entries)[userCode].userName;
              && (key != "" ==>
                    m.entries == old(m.entries) - {userCode, key} && Adds(run, longer, [Cancelled(key, userCode)]))
              && (key == "" ==> m.entries == old(m.entries) - {userCode})
    ensures !cancelled ==> m.entries == old(m.entries) && Adds(run, longer, [])
  {
    hide IsSerialRun, Advance, Begin;
    SoloEnter(run[|run| - 1], Cancel(userCode, cancelToken));
    longer := ExtendSerialRun(run, Enter(0, Cancel(userCode, cancelToken)));
    var found := m.Load(userCode);
    SoloCancelLoad(longer[|longer| - 1], userCode, cancelToken);
    longer := ExtendSerialRun(longer, Run(0));
    if found.None? {
      return false, longer;
    }
    var cache := found.value;
    if cache.cancelToken == "" || cache.cancelToken != cancelToken {
      return false, longer;
    }
    m.Delete(userCode);
    SoloCancelUser(longer[|longer| - 1], userCode, cache.userName);
    longer := ExtendSerialRun(longer, Run(0));
    if cache.userName != "" {
      m.Delete(cache.userName);
      SoloCancelDevice(longer[|longer| - 1], userCode, cache.userName);
      longer := ExtendSerialRun(longer, Run(0));
    }
    cancelled := true;
  }

  /** What the two entries of a start hold: they are pending, they carry what was asked for, and the user entry
      leads to the device code. */
  predicate IsStartOf(a: StartRequest, device: Cache, user: Cache) {
    && device.status == Pending && !device.userSignIn && device.userName == ""
    && device.applicationId == a.applicationId && device.clientId == a.clientId
    && device.scope == a.scope && device.resource == a.resource
    && user.status == Pending && user.userName == a.deviceCode && user.cancelToken == a.cancelToken
    && user.applicationId == a.applicationId && user.scope == a.scope
  }

  lemma EntriesOfStart(a: StartRequest)
    ensures IsStartOf(a, DeviceEntry(a), UserEntry(a))
  {
  }

  lemma SoloProbe(s: Sys, a: StartRequest, i: nat)
    requires s.procs == map[0 := Probing(a, i)]
    ensures Looks(Advance(s, 0), s.store,
                  if i >= |a.candidates| then map[]
                  else if a.candidates[i] !in s.store then map[0 := PuttingDevice(a, a.candidates[i])]
                  else map[0 := Probing(a, i + 1)], s.log)
  {
  }

  lemma SoloPutDevice(s: Sys, a: StartRequest, u: string)
    requires s.procs == map[0 := PuttingDevice(a, u)]
    ensures Looks(Advance(s, 0), s.store[a.deviceCode := DeviceEntry(a)], map[0 := PuttingUser(a, u)], s.log)
  {
  }

  lemma SoloPutUser(s: Sys, a: StartRequest, u: string)
    requires s.procs == map[0 := PuttingUser(a, u)]
    ensures Looks(Advance(s, 0), s.store[u := UserEntry(a)], map[], s.log + [Started(a, u)])
  {
  }

  /** controllers/auth.go, `DeviceAuth` from the generation of the codes on. */
  method DeviceAuth(m: DeviceAuthMap, a: StartRequest, ghost run: seq<Sys>)
    returns (userCode: Option<string>, ghost longer: seq<Sys>)
    requires Tracks(m, run) && WellFormed(Start(a)) && a.deviceCode !in run[|run| - 1].flows
    modifies m
    ensures Tracks(m, longer)
    ensures userCode.Some? ==>
              && userCode.value !in old(m.entries)
              && (exists i :: 0 <= i < |a.candidates| && a.candidates[i] == userCode.value
                              && forall j :: 0 <= j < i ==> a.candidates[j] in old(m.entries))
              && m.entries == old(m.entries)[a.deviceCode := DeviceEntry(a)][userCode.value := UserEntry(a)]
              && IsStartOf(a, m.entries[a.deviceCode], m.entries[userCode.value])
              && Adds(run, longer, [Started(a, userCode.value)])
    ensures userCode.None? ==>
              && (forall code :: code in a.candidates ==> code in m.entries)
              && m.entries == old(m.entries) && Adds(run, longer, [])
  {
    hide IsSerialRun, DeviceEntry, UserEntry, Advance, Begin;
    SoloEnter(run[|run| - 1], Start(a));
    longer := ExtendSerialRun(run, Enter(0, Start(a)));
    userCode := None;
    var i := 0;
    while i < |a.candidates| && userCode.None?
      invariant 0 <= i <= |a.candidates|
      invariant |longer| > 0 && IsSerialRun(longer) && Adds(run, longer, [])
      invariant m.entries == old(m.entries) == longer[|longer| - 1].store
      invariant forall j :: 0 <= j < i ==> a.candidates[j] in m.entries
      invariant userCode.None? ==> longer[|longer| - 1].procs == map[0 := Probing(a, i)]
      invariant userCode.Some? ==>
                  && longer[|longer| - 1].procs == map[0 := PuttingDevice(a, userCode.value)]
                  && i < |a.candidates| && userCode.value == a.candidates[i] && userCode.value !in m.entries
      decreases |a.candidates| - i, userCode.None?
    {
      var found := m.Load(a.candidates[i]);
      SoloProbe(longer[|longer| - 1], a, i);
      longer := ExtendSerialRun(longer, Run(0));
      if found.None? {
        userCode := Some(a.candidates[i]);
      } else {
        i := i + 1;
      }
    }
    if userCode.None? {
      SoloProbe(longer[|longer| - 1], a, i);
      longer := ExtendSerialRun(longer, Run(0));
      return;
    }
    EntriesOfStart(a);
    m.Store(a.deviceCode, DeviceEntry(a));
    SoloPutDevice(longer[|longer| - 1], a, userCode.value);
    longer := ExtendSerialRun(longer, Run(0));
    m.Store(userCode.value, UserEntry(a));
    SoloPutUser(longer[|longer| - 1], a, userCode.value);
    longer := ExtendSerialRun(longer, Run(0));
  }

  /** A run in which only request 0 is in progress, about to execute `p`. */
  ghost predicate At(m: DeviceAuthMap, run: seq<Sys>, p: Proc)
    reads m
  {
    |run| > 0 && IsSerialRun(run) && run[|run| - 1].procs == map[0 := p] && run[|run| - 1].store == m.entries
  }

  lemma SoloConsume(s: Sys, u: string, user: string, now: int, isMember: bool)
    requires s.procs == map[0 := Consuming(u, user, now, isMember)]
    ensures Looks(Advance(s, 0), s.store - {u},
                  if u !in s.store then map[]
                  else if s.store[u].status != Denied && !s.store[u].IsExpired(now)
                  then map[0 := LoadingDevice(s.store[u].userName, u, user, isMember)]
                  else if s.store[u].userName != "" then map[0 := Dropping(s.store[u].userName)]
                  else map[], s.log)
  {
    if u !in s.store { assert s.store - {u} == s.store; }
  }

  lemma SoloLoadDevice(s: Sys, key: string, u: string, user: string, isMember: bool)
    requires s.procs == map[0 := LoadingDevice(key, u, user, isMember)]
    ensures Looks(Advance(s, 0), s.store,
                  if key in s.store && isMember
                  then map[0 := PuttingApproval(key, u, ApprovedEntry(s.store[key], user))] else map[], s.log)
  {
  }

  lemma SoloPutApproval(s: Sys, key: string, u: string, c: Cache)
    requires s.procs == map[0 := PuttingApproval(key, u, c)]
    ensures Looks(Advance(s, 0), s.store[key := c], map[], s.log + [ApprovedBy(key, u, c.userName)])
  {
  }

  /** controllers/auth.go, the device branch of `HandleLoggedIn` */
  method ApproveDevice(m: DeviceAuthMap, userCode: string, user: string, now: int, isMember: bool, ghost run: seq<Sys>)
    returns (approved: bool, ghost longer: seq<Sys>)
    requires Tracks(m, run) && IsUserId(user)
    modifies m
    ensures Tracks(m, longer)
    ensures approved <==>
              && userCode in old(m.entries) && isMember
              && (var c := old(m.entries)[userCode];
                  c.status != Denied && !c.IsExpired(now) && c.userName in old(m.entries) - {userCode})
    ensures userCode !in m.entries
    ensures approved ==>
              var d := old(m.entries)[userCode].userName;
              && m.entries == (old(m.entries) - {userCode})[d := ApprovedEntry(old(m.entries)[d], user)]
              && Adds(run, longer, [ApprovedBy(d, userCode, user)])
    ensures !approved ==>
              && Adds(run, longer, [])
              && (if userCode !in old(m.entries) then m.entries == old(m.entries)
                  else
                    var c := old(m.entries)[userCode];
                    var isOver := c.status == Denied || c.IsExpired(now);
                    m.entries == old(m.entries) - {userCode} - if isOver && c.userName != "" then {c.userName} else {})
  {
    hide IsSerialRun, Advance, Begin;
    SoloEnter(run[|run| - 1], Approve(userCode, user, now, isMember));
    longer := ExtendSerialRun(run, Enter(0, Approve(userCode, user, now, isMember)));
    var found := m.LoadAndDelete(userCode);
    SoloConsume(longer[|longer| - 1], userCode, user, now, isMember);
    longer := ExtendSerialRun(longer, Run(0));
    if found.None? {
      return false, longer;
    }
    var cache := found.value;
    if cache.status == Denied || cache.IsExpired(now) {
      if cache.userName != "" {
        m.Delete(cache.userName);
        SoloDrop(longer[|longer| - 1], cache.userName);
        longer := ExtendSerialRun(longer, Run(0));
      }
      return false, longer;
    }
    approved, longer := ApproveLinked(m, cache.userName, userCode, user, isMember, longer);
  }

  /** The part of the approval after the user code was consumed. */
  method ApproveLinked(m: DeviceAuthMap, key: string, userCode: string, user: string, isMember: bool,
                       ghost run: seq<Sys>)
    returns (approved: bool, ghost longer: seq<Sys>)
    requires At(m, run, LoadingDevice(key, userCode, user, isMember))
    modifies m
    ensures Tracks(m, longer)
    ensures approved <==> key in old(m.entries) && isMember
    ensures Adds(run, longer, if approved then [ApprovedBy(key, userCode, user)] else [])
    ensures approved ==>
              var entry := ApprovedEntry(old(m.entries)[key], user);
              && m.entries == old(m.entries)[key := entry]
              && entry.userName == user && entry.userSignIn && entry.status == Approved
    ensures !approved ==> m.entries == old(m.entries)
  {
    hide IsSerialRun, Advance;
    var device := m.Load(key);
    SoloLoadDevice(run[|run| - 1], key, userCode, user, isMember);
    longer := ExtendSerialRun(run, Run(0));
    if device.None? || !isMember {
      return false, longer;
    }
    var entry := device.value.(userName := user, userSignIn := true, status := Approved);
    m.Store(key, entry);
    SoloPutApproval(longer[|longer| - 1], key, userCode, entry);
    longer := ExtendSerialRun(longer, Run(0));
    approved := true;
  }

  datatype TokenResponse =
    | ExpiredToken | AccessDenied | AuthorizationPending | InvalidClient | InvalidTarget | NotIssued
    | Token(user: string, scope: string, resource: string)

  /** controllers/token.go, `GetOAuthToken` with a device code: a successful exchange marks the entry as
      used, a failed one leaves the entry as it was. */
  method GetOAuthToken(m: DeviceAuthMap, t: TokenRequest, ghost run: seq<Sys>)
    returns (response: TokenResponse, ghost longer: seq<Sys>)
    requires Tracks(m, run) && t.deviceCode != ""
    modifies m
    ensures Tracks(m, longer)
    ensures response.ExpiredToken? <==> t.deviceCode !in old(m.entries) || old(m.entries)[t.deviceCode].IsExpired(t.now)
    ensures !response.ExpiredToken? ==>
              var c := old(m.entries)[t.deviceCode];
              var isOpen := c.status != Denied && c.status != TokenIssued;
              var isApproved := isOpen && c.userSignIn;
              var isOfClient := isApproved && (c.clientId == "" || c.clientId == t.clientId);
              var isOfResource := isOfClient && c.resource == t.resource;
              && (response.AccessDenied? <==> c.status == Denied || c.status == TokenIssued)
              && (response.AuthorizationPending? <==> isOpen && !c.userSignIn)
              && (response.InvalidClient? <==> isApproved && c.clientId != "" && c.clientId != t.clientId)
              && (response.InvalidTarget? <==> isOfClient && c.resource != t.resource)
              && (response.NotIssued? <==> isOfResource && !t.mint.Minted?)
              && (response.Token? <==> isOfResource && t.mint.Minted?)
    ensures response.Token? ==>
              && (var c := old(m.entries)[t.deviceCode];
                  && response == Token(c.userName, c.scope, c.resource)
                  && m.entries == old(m.entries)[t.deviceCode := c.(status := TokenIssued)]
                  && Adds(run, longer, [Admitted(0, t.deviceCode)] + ExchangeEvents(t, c, c, |run[|run| - 1].log|)))
    ensures response.ExpiredToken? ==> m.entries == old(m.entries) - {t.deviceCode}
    ensures !response.Token? && !response.ExpiredToken? ==>
              t.deviceCode in old(m.entries) && m.entries == old(m.entries)
  {
    hide IsSerialRun, Advance, Begin;
    var d := t.deviceCode;
    SoloEnter(run[|run| - 1], Exchange(t));
    longer := ExtendSerialRun(run, Enter(0, Exchange(t)));
    SoloLoad(longer[|longer| - 1], t);
    var found := m.Load(d);
    longer := ExtendSerialRun(longer, Run(0));
    if found.None? {
      return ExpiredToken, longer;
    }
    var cache := found.value;
    if cache.IsExpired(t.now) {
      m.Delete(d);
      SoloDrop(longer[|longer| - 1], d);
      longer := ExtendSerialRun(longer, Run(0));
      return ExpiredToken, longer;
    }
    if cache.status == Denied || cache.status == TokenIssued {
      return AccessDenied, longer;
    }
    if !cache.userSignIn {
      return AuthorizationPending, longer;
    }
    if cache.clientId != "" && cache.clientId != t.clientId {
      return InvalidClient, longer;
    }
    if t.resource != cache.resource {
      return InvalidTarget, longer;
    }
    response, longer := ExchangeAdmitted(m, t, cache, |run[|run| - 1].log|, longer);
  }

  // The steps of an exchange after its checks, when nothing interferes.

  lemma SoloLoad(s: Sys, t: TokenRequest)
    requires s.procs == map[0 := TokenLoading(t)] && t.deviceCode != ""
    ensures var s1, d := Advance(s, 0), t.deviceCode;
            && s1.store == s.store
            && (if d !in s.store then s1.procs == map[] && s1.log == s.log
                else if s.store[d].IsExpired(t.now) then s1.procs == map[0 := Dropping(d)] && s1.log == s.log
                else if !Admits(s.store[d], t) then s1.procs == map[] && s1.log == s.log
                else s1.procs == map[0 := Claiming(t, s.store[d], |s.log|)] && s1.log == s.log + [Admitted(0, d)])
  {
  }

  lemma SoloClaim(s: Sys, t: TokenRequest, cache: Cache, at: nat)
    requires s.procs == map[0 := Claiming(t, cache, at)] && t.deviceCode in s.store
    ensures var s1 := Advance(s, 0);
            s1.procs == map[0 := Minting(t, cache, s.store[t.deviceCode])] && s1.store == s.store - {t.deviceCode}
    ensures Advance(s, 0).log == s.log + [Claimed(0, t.deviceCode, s.store[t.deviceCode], at)]
  {
  }

  lemma SoloMint(s: Sys, t: TokenRequest, cache: Cache, c: Cache)
    requires s.procs == map[0 := Minting(t, cache, c)]
    ensures var s1 := Advance(s, 0);
            s1.procs == map[0 := Restoring(t, c, t.mint.Minted?)] && s1.store == s.store
    ensures t.mint.Minted? ==>
              Advance(s, 0).log == s.log + [Issued(0, t.deviceCode, cache.userName, cache.scope, cache.resource,
                                                   t.clientId, c.status)]
    ensures !t.mint.Minted? ==> Advance(s, 0).log == s.log
  {
  }

  lemma SoloRestore(s: Sys, t: TokenRequest, c: Cache, minted: bool)
    requires s.procs == map[0 := Restoring(t, c, minted)]
    ensures var s1 := Advance(s, 0);
            s1.procs == map[] && s1.store == s.store[t.deviceCode := if minted then c.(status := TokenIssued) else c]
    ensures Advance(s, 0).log == s.log + [if minted then Marked(0, t.deviceCode) else GaveBack(0, t.deviceCode, c)]
  {
  }

  /** The events of an exchange that passed the checks: the claim, the token and its mark, or the give-back. */
  function ExchangeEvents(t: TokenRequest, loaded: Cache, claimed: Cache, at: nat): seq<Event> {
    var d := t.deviceCode;
    [Claimed(0, d, claimed, at)] +
    if t.mint.Minted? then
      [Issued(0, d, loaded.userName, loaded.scope, loaded.resource, t.clientId, claimed.status), Marked(0, d)]
    else
      [GaveBack(0, d, claimed)]
  }

  /** The part of the exchange after the checks: claim, mint, store back. */
  method ExchangeAdmitted(m: DeviceAuthMap, t: TokenRequest, cache: Cache, ghost at: nat, ghost run: seq<Sys>)
    returns (response: TokenResponse, ghost longer: seq<Sys>)
    requires At(m, run, Claiming(t, cache, at))
    modifies m
    ensures Tracks(m, longer)
    ensures t.deviceCode !in old(m.entries) ==> response == AccessDenied && m.entries == old(m.entries)
    ensures t.deviceCode in old(m.entries) ==>
              && response == (if t.mint.Minted? then Token(cache.userName, cache.scope, cache.resource) else NotIssued)
              && (var c := old(m.entries)[t.deviceCode];
                  && m.entries
                     == old(m.entries)[t.deviceCode := if t.mint.Minted? then c.(status := TokenIssued) else c]
                  && Adds(run, longer, ExchangeEvents(t, cache, c, at)))
  {
    hide IsSerialRun, StepToken;
    var d := t.deviceCode;
    var claimed := m.LoadAndDelete(d);
    if claimed.None? {
      longer := EndExchange(m, run, t, cache, at);
      return AccessDenied, longer;
    }
    SoloClaim(run[|run| - 1], t, cache, at);
    longer := ExtendSerialRun(run, Run(0));
    var entry := claimed.value;
    SoloMint(longer[|longer| - 1], t, cache, entry);
    longer := ExtendSerialRun(longer, Run(0));
    SoloRestore(longer[|longer| - 1], t, entry, t.mint.Minted?);
    if t.mint.Minted? {
      m.Store(d, entry.(status := TokenIssued));
      response := Token(cache.userName, cache.scope, cache.resource);
    } else {
      m.Store(d, entry);
      response := NotIssued;
    }
    longer := ExtendSerialRun(longer, Run(0));
  }

  lemma EndExchange(m: DeviceAuthMap, run: seq<Sys>, t: TokenRequest, cache: Cache, at: nat) returns (longer: seq<Sys>)
    requires At(m, run, Claiming(t, cache, at)) && t.deviceCode !in m.entries
    ensures Tracks(m, longer)
  {
    longer := ExtendSerialRun(run, Run(0));
  }

  /** The loops of `DeviceAuthComplete` over the original and the requested scopes. */
  method ScopeExceeds(requested: string, original: string) returns (exceeds: bool)
    ensures exceeds <==> !forall x :: x in Fields(requested) ==> x in Fields(original)
  {
    hide Fields;
    var allowed: set<string> := {};
    var originals := Fields(original);
    for i := 0 to |originals|
      invariant allowed == set x | x in originals[..i]
    {
      allowed := allowed + {originals[i]};
    }
    assert originals[..|originals|] == originals;
    var wanted := Fields(requested);
    for i := 0 to |wanted|
      invariant forall j :: 0 <= j < i ==> wanted[j] in originals
    {
      if wanted[i] !in allowed {
        assert wanted[i] in Fields(requested);
        return true;
      }
    }
    exceeds := false;
  }

  /** The request may complete a used flow of the given scope: application and user are there, and for anything but
      a login the client is the application's and asks for no scope beyond a non-empty original one. */
  predicate MayComplete(original: string, k: CompleteRequest) {
    && k.applicationClientId.Some? && k.userFound
    && (k.responseType !in {"", "login"} ==>
          && k.clientId == k.applicationClientId.value
          && (original != "" && k.scope != "" ==> forall x :: x in Fields(k.scope) ==> x in Fields(original)))
  }

  lemma CanCompleteMeans(c: Cache, k: CompleteRequest)
    ensures CanComplete(c, k) <==> MayComplete(c.scope, k)
  {
    hide Fields;
  }

  lemma SoloCompleteLoad(s: Sys, k: CompleteRequest)
    requires s.procs == map[0 := CompleteLoading(k)]
    ensures var d := k.deviceCode;
            Looks(Advance(s, 0), s.store,
                  if d == "" || d !in s.store || s.store[d].status != TokenIssued then map[]
                  else if s.store[d].IsExpired(k.now) then map[0 := Dropping(d)]
                  else if CanComplete(s.store[d], k) then map[0 := CompleteDropping(k, s.store[d])] else map[], s.log)
  {
    hide CanComplete;
  }

  /** controllers/auth.go, `DeviceAuthComplete` up to the call of `HandleLoggedIn`; response type
      "device" goes on to the approval branch with an empty user code, which no entry has. */
  method DeviceAuthComplete(m: DeviceAuthMap, k: CompleteRequest, ghost run: seq<Sys>)
    returns (user: Option<string>, ghost longer: seq<Sys>)
    requires Tracks(m, run)
    modifies m
    ensures Tracks(m, longer)
    ensures user.Some? <==>
              && k.deviceCode in old(m.entries) && old(m.entries)[k.deviceCode].status == TokenIssued
              && !old(m.entries)[k.deviceCode].IsExpired(k.now)
              && MayComplete(old(m.entries)[k.deviceCode].scope, k)
    ensures user.Some? ==>
              var responseType := if k.responseType == "" then "login" else k.responseType;
              && user.value == old(m.entries)[k.deviceCode].userName
              && Adds(run, longer, [Completed(k.deviceCode, user.value, responseType, k.scope)])
              && m.entries == old(m.entries) - {k.deviceCode}
    ensures user.None? ==>
              && Adds(run, longer, [])
              && (if && k.deviceCode in old(m.entries) && old(m.entries)[k.deviceCode].status == TokenIssued
                     && old(m.entries)[k.deviceCode].IsExpired(k.now)
                  then m.entries == old(m.entries) - {k.deviceCode} else m.entries == old(m.entries))
  {
    hide IsSerialRun, CanComplete, Fields, Advance, Begin;
    var d := k.deviceCode;
    NoEmptyKey(run);
    SoloEnter(run[|run| - 1], Complete(k));
    longer := ExtendSerialRun(run, Enter(0, Complete(k)));
    if d in m.entries { CanCompleteMeans(m.entries[d], k); }
    SoloCompleteLoad(longer[|longer| - 1], k);
    longer := ExtendSerialRun(longer, Run(0));
    user := None;
    if d == "" {
      return;
    }
    var found := m.Load(d);
    if found.None? || found.value.status != TokenIssued {
      return;
    }
    var cache := found.value;
    if cache.IsExpired(k.now) {
      m.Delete(d);
      SoloDrop(longer[|longer| - 1], d);
      longer := ExtendSerialRun(longer, Run(0));
      return;
    }
    if k.applicationClientId.None? || !k.userFound {
      return;
    }
    var responseType := if k.responseType == "" then "login" else k.responseType;
    if responseType != "login" {
      if k.clientId != k.applicationClientId.value {
        return;
      }
      if cache.scope != "" && k.scope != "" {
        var exceeds := ScopeExceeds(k.scope, cache.scope);
        if exceeds {
          return;
        }
      }
    }
    m.Delete(d);
    longer := FinishCompletion(m, k, cache, longer);
    user := Some(cache.userName);
  }

  lemma NoEmptyKey(run: seq<Sys>)
    requires |run| > 0 && IsSerialRun(run)
    ensures "" !in run[|run| - 1].store
  {
    SerialRunIsSafe(run, |run| - 1);
  }

  lemma FinishCompletion(m: DeviceAuthMap, k: CompleteRequest, cache: Cache, run: seq<Sys>) returns (longer: seq<Sys>)
    requires |run| > 0 && IsSerialRun(run)
    requires var s := run[|run| - 1];
             && s.procs == map[0 := CompleteDropping(k, cache)]
             && s.store - {k.deviceCode} == m.entries && "" !in m.entries
    ensures Tracks(m, longer) && Adds(run, longer, [Completed(k.deviceCode, cache.userName, ResponseType(k), k.scope)])
  {
    hide IsSerialRun;
    longer := ExtendSerialRun(run, Run(0));
    if ResponseType(k) == "device" { longer := ExtendSerialRun(longer, Run(0)); }
  }
}
