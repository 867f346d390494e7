/** The device authorization grant at operation grain: every request is a small program, and one
    step of the machine is one atomic map operation of one request, or one call of the token
    minting code, together with the local work that follows it.

    Everything a handler learns from outside the map (the clock, user lookups, membership
    checks, the result of minting) is part of the request and is not restricted, so a statement
    about all runs covers every way those calls can turn out.
  */
module DeviceAuthMachine {
  import opened Wrappers
  import opened WhiteSpace
  import opened DeviceAuthStore

  // ----- Requests

  datatype StartRequest = StartRequest(
    deviceCode: string, candidates: seq<string>, applicationId: string, clientId: string,
    scope: string, resource: string, deviceAt: int, userAt: int, cancelToken: string, resendTimeout: int)

  datatype MintResult = MintFailed | MintRefused | Minted

  datatype TokenRequest = TokenRequest(
    deviceCode: string, clientId: string, resource: string, now: int, mint: MintResult)

  datatype CompleteRequest = CompleteRequest(
    deviceCode: string, responseType: string, clientId: string, scope: string, now: int,
    applicationClientId: Option<string>, userFound: bool)

  datatype Request =
    | Start(start: StartRequest)
    | Approve(userCode: string, user: string, now: int, isMember: bool)
    | Cancel(userCode: string, cancelToken: string)
    | Exchange(exchange: TokenRequest)
    | Complete(complete: CompleteRequest)

  /** What the generators and the user table guarantee about a request. */
  predicate WellFormed(q: Request) {
    match q
    case Start(a) =>
      && IsDeviceCode(a.deviceCode)
      && |a.candidates| == 5
      && (forall i :: 0 <= i < |a.candidates| ==> IsUserCode(a.candidates[i]))
      && a.cancelToken != ""
    case Approve(_, user, _, _) => IsUserId(user)
    case _ => true
  }

  // ----- Programs: the next operation of a request, with its local variables

  datatype Proc =
    | Probing(start: StartRequest, i: nat)
    | PuttingDevice(start: StartRequest, userCode: string)
    | PuttingUser(start: StartRequest, userCode: string)
    | Consuming(userCode: string, user: string, now: int, isMember: bool)
    | LoadingDevice(key: string, userCode: string, user: string, isMember: bool)
    | PuttingApproval(key: string, userCode: string, cache: Cache)
    | CancelLoading(userCode: string, cancelToken: string)
    | CancelDroppingUser(userCode: string, key: string)
    | CancelDroppingDevice(userCode: string, key: string)
    | TokenLoading(exchange: TokenRequest)
    | Claiming(exchange: TokenRequest, loaded: Cache, at: nat)
    | Minting(exchange: TokenRequest, loaded: Cache, claimed: Cache)
    | Restoring(exchange: TokenRequest, claimed: Cache, minted: bool)
    | CompleteLoading(complete: CompleteRequest)
    | CompleteDropping(complete: CompleteRequest, loaded: Cache)
    | Dropping(key: string)

  // ----- History: written by the machine, never read by a request

  datatype Phase = Opening(rid: nat) | Offered | Approving(rid: nat) | Granted(user: string)

  datatype Flow = Flow(
    start: StartRequest, userCode: string, phase: Phase, holder: Option<nat>, marked: bool, tokens: nat)

  datatype Change =
    | Offer(userCode: string) | BeginApproval(rid: nat) | Grant(user: string)
    | Take(rid: nat) | CountToken | Release(mark: bool)

  function Apply(f: Flow, change: Change): Flow {
    match change
    case Offer(u) => f.(userCode := u, phase := Offered)
    case BeginApproval(r) => f.(phase := Approving(r))
    case Grant(user) => f.(phase := Granted(user))
    case Take(r) => f.(holder := Some(r))
    case CountToken => f.(tokens := f.tokens + 1)
    case Release(mark) => f.(holder := None, marked := f.marked || mark)
  }

  datatype Event =
    | Started(start: StartRequest, userCode: string)
    | ApprovedBy(deviceCode: string, userCode: string, user: string)
    | Admitted(rid: nat, deviceCode: string)
    | Claimed(rid: nat, deviceCode: string, entry: Cache, at: nat)
    | Issued(rid: nat, deviceCode: string, user: string, scope: string, resource: string, clientId: string,
             claimed: Status)
    | Marked(rid: nat, deviceCode: string)
    | GaveBack(rid: nat, deviceCode: string, entry: Cache)
    | Cancelled(deviceCode: string, userCode: string)
    | Completed(deviceCode: string, user: string, responseType: string, scope: string)

  datatype Sys = Sys(
    store: map<string, Cache>, procs: map<nat, Proc>, flows: map<string, Flow>, log: seq<Event>)
  {
    function Put(key: string, c: Cache): Sys { this.(store := store[key := c]) }
    function Drop(key: string): Sys { this.(store := store - {key}) }
    function Goto(r: nat, p: Proc): Sys { this.(procs := procs[r := p]) }
    function Finish(r: nat): Sys { this.(procs := procs - {r}) }
    function Log(e: Event): Sys { this.(log := log + [e]) }

    /** Records a change of a flow's history; a code that names no flow records nothing. */
    function Note(d: string, change: Change): Sys {
      if d in flows then this.(flows := flows[d := Apply(flows[d], change)]) else this
    }
  }

  /** What a state looks like, but for the flows that only the proofs read. */
  predicate Looks(s: Sys, store: map<string, Cache>, procs: map<nat, Proc>, log: seq<Event>) {
    s.store == store && s.procs == procs && s.log == log
  }

  const INITIAL := Sys(map[], map[], map[], [])

  // ----- The entries DeviceAuth writes

  function ExpiresIn(a: StartRequest): int {
    if a.resendTimeout <= 0 then DEFAULT_EXPIRES_IN else a.resendTimeout
  }

  function DeviceEntry(a: StartRequest): Cache {
    Cache(false, "", a.applicationId, a.clientId, a.scope, a.resource, a.deviceAt, Pending, "", ExpiresIn(a))
  }

  function UserEntry(a: StartRequest): Cache {
    Cache(false, a.deviceCode, a.applicationId, "", a.scope, "", a.userAt, Pending, a.cancelToken, ExpiresIn(a))
  }

  function ApprovedEntry(c: Cache, user: string): Cache {
    c.(userName := user, userSignIn := true, status := Approved)
  }

  // ----- Steps

  function FirstProc(q: Request): Proc {
    match q
    case Start(a) => Probing(a, 0)
    case Approve(userCode, user, now, isMember) => Consuming(userCode, user, now, isMember)
    case Cancel(userCode, cancelToken) => CancelLoading(userCode, cancelToken)
    case Exchange(t) => TokenLoading(t)
    case Complete(k) => CompleteLoading(k)
  }

  /** A new request; generated device codes have not been generated before. */
  predicate CanBegin(s: Sys, r: nat, q: Request) {
    && r !in s.procs
    && WellFormed(q)
    && (q.Start? ==> q.start.deviceCode !in s.flows)
  }

  function Begin(s: Sys, r: nat, q: Request): Sys {
    var s1 := s.Goto(r, FirstProc(q));
    if q.Start? then
      s1.(flows := s1.flows[q.start.deviceCode := Flow(q.start, "", Opening(r), None, false, 0)])
    else
      s1
  }

  /** controllers/auth.go, `DeviceAuth` */
  function StepStart(s: Sys, r: nat, p: Proc): Sys
    requires p.Probing? || p.PuttingDevice? || p.PuttingUser?
  {
    match p
    case Probing(a, i) =>
      if i >= |a.candidates| then s.Finish(r)
      else if a.candidates[i] !in s.store then s.Goto(r, PuttingDevice(a, a.candidates[i]))
      else s.Goto(r, Probing(a, i + 1))
    case PuttingDevice(a, u) =>
      s.Put(a.deviceCode, DeviceEntry(a)).Goto(r, PuttingUser(a, u))
    case PuttingUser(a, u) =>
      s.Put(u, UserEntry(a)).Finish(r).Log(Started(a, u))
      .Note(a.deviceCode, Offer(u))
  }

  /** controllers/auth.go, the device branch of `HandleLoggedIn` */
  function StepApprove(s: Sys, r: nat, p: Proc): Sys
    requires p.Consuming? || p.LoadingDevice? || p.PuttingApproval?
  {
    match p
    case Consuming(u, user, now, isMember) =>
      if u !in s.store then s.Finish(r)
      else
        var c := s.store[u];
        if c.status == Denied || c.IsExpired(now) then
          if c.userName != "" then s.Drop(u).Goto(r, Dropping(c.userName)) else s.Drop(u).Finish(r)
        else
          s.Drop(u).Goto(r, LoadingDevice(c.userName, u, user, isMember))
          .Note(c.userName, BeginApproval(r))
    case LoadingDevice(key, u, user, isMember) =>
      if key !in s.store || !isMember then s.Finish(r)
      else s.Goto(r, PuttingApproval(key, u, ApprovedEntry(s.store[key], user)))
    case PuttingApproval(key, u, c) =>
      s.Put(key, c).Finish(r).Log(ApprovedBy(key, u, c.userName))
      .Note(key, Grant(c.userName))
  }

  /** controllers/auth.go, `CancelDeviceAuth` */
  function StepCancel(s: Sys, r: nat, p: Proc): Sys
    requires p.CancelLoading? || p.CancelDroppingUser? || p.CancelDroppingDevice?
  {
    match p
    case CancelLoading(u, token) =>
      if u !in s.store || s.store[u].cancelToken == "" || s.store[u].cancelToken != token then s.Finish(r)
      else s.Goto(r, CancelDroppingUser(u, s.store[u].userName))
    case CancelDroppingUser(u, key) =>
      if key != "" then s.Drop(u).Goto(r, CancelDroppingDevice(u, key)) else s.Drop(u).Finish(r)
    case CancelDroppingDevice(u, key) =>
      s.Drop(key).Finish(r).Log(Cancelled(key, u))
  }

  /** The checks of `GetOAuthToken` on the entry it loads first. */
  predicate Admits(c: Cache, t: TokenRequest) {
    && c.status != Denied
    && c.status != TokenIssued
    && c.userSignIn
    && (c.clientId == "" || c.clientId == t.clientId)
    && c.resource == t.resource
  }

  /** controllers/token.go, `GetOAuthToken` with a device code */
  function StepToken(s: Sys, r: nat, p: Proc): Sys
    requires p.TokenLoading? || p.Claiming? || p.Minting? || p.Restoring?
  {
    match p
    case TokenLoading(t) =>
      var d := t.deviceCode;
      if d == "" || d !in s.store then s.Finish(r)
      else if s.store[d].IsExpired(t.now) then s.Goto(r, Dropping(d))
      else if !Admits(s.store[d], t) then s.Finish(r)
      else s.Goto(r, Claiming(t, s.store[d], |s.log|)).Log(Admitted(r, d))
    case Claiming(t, loaded, at) =>
      var d := t.deviceCode;
      if d !in s.store then s.Finish(r)
      else
        var c := s.store[d];
        s.Drop(d).Goto(r, Minting(t, loaded, c)).Log(Claimed(r, d, c, at))
        .Note(d, Take(r))
    case Minting(t, loaded, c) =>
      var d := t.deviceCode;
      if !t.mint.Minted? then s.Goto(r, Restoring(t, c, false))
      else
        s.Goto(r, Restoring(t, c, true))
        .Log(Issued(r, d, loaded.userName, loaded.scope, loaded.resource, t.clientId, c.status))
        .Note(d, CountToken)
    case Restoring(t, c, minted) =>
      var d := t.deviceCode;
      if minted then
        s.Put(d, c.(status := TokenIssued)).Finish(r).Log(Marked(r, d))
        .Note(d, Release(true))
      else
        s.Put(d, c).Finish(r).Log(GaveBack(r, d, c)).Note(d, Release(false))
  }

  function ResponseType(k: CompleteRequest): string {
    if k.responseType == "" then "login" else k.responseType
  }

  predicate ScopeWithin(requested: string, original: string) {
    forall x :: x in Fields(requested) ==> x in Fields(original)
  }

  /** The checks of `DeviceAuthComplete` after the expiry check. */
  predicate CanComplete(c: Cache, k: CompleteRequest) {
    && k.applicationClientId.Some?
    && k.userFound
    && (ResponseType(k) != "login" ==>
          && k.clientId == k.applicationClientId.value
          && (c.scope != "" && k.scope != "" ==> ScopeWithin(k.scope, c.scope)))
  }

  /** controllers/auth.go, `DeviceAuthComplete`: response type "device" runs the approval branch
      with an empty user code. */
  function StepComplete(s: Sys, r: nat, p: Proc): Sys
    requires p.CompleteLoading? || p.CompleteDropping?
  {
    match p
    case CompleteLoading(k) =>
      var d := k.deviceCode;
      if d == "" || d !in s.store || s.store[d].status != TokenIssued then s.Finish(r)
      else if s.store[d].IsExpired(k.now) then s.Goto(r, Dropping(d))
      else if !CanComplete(s.store[d], k) then s.Finish(r)
      else s.Goto(r, CompleteDropping(k, s.store[d]))
    case CompleteDropping(k, c) =>
      var done := s.Drop(k.deviceCode).Log(Completed(k.deviceCode, c.userName, ResponseType(k), k.scope));
      if ResponseType(k) == "device" then done.Goto(r, Consuming("", c.userName, k.now, true))
      else done.Finish(r)
  }

  /** One operation of request `r`. */
  function Advance(s: Sys, r: nat): Sys
    requires r in s.procs
  {
    var p := s.procs[r];
    if p.Probing? || p.PuttingDevice? || p.PuttingUser? then StepStart(s, r, p)
    else if p.Consuming? || p.LoadingDevice? || p.PuttingApproval? then StepApprove(s, r, p)
    else if p.CancelLoading? || p.CancelDroppingUser? || p.CancelDroppingDevice? then StepCancel(s, r, p)
    else if p.TokenLoading? || p.Claiming? || p.Minting? || p.Restoring? then StepToken(s, r, p)
    else if p.Dropping? then s.Drop(p.key).Finish(r)
    else StepComplete(s, r, p)
  }

  /** `Evict` is the periodic sweep of object/token_oauth_util.go or the expiry of a Redis key. */
  datatype Label = Enter(r: nat, request: Request) | Run(r: nat) | Evict(key: string)

  predicate Enabled(s: Sys, l: Label) {
    match l
    case Enter(r, q) => CanBegin(s, r, q)
    case Run(r) => r in s.procs
    case Evict(_) => true
  }

  function Next(s: Sys, l: Label): Sys
    requires Enabled(s, l)
  {
    match l
    case Enter(r, q) => Begin(s, r, q)
    case Run(r) => Advance(s, r)
    case Evict(key) => s.Drop(key)
  }

  ghost predicate Follows(s: Sys, t: Sys) {
    exists l :: Enabled(s, l) && t == Next(s, l)
  }

  /** A run of the machine: every interleaving of any number of requests. */
  ghost predicate IsRun(run: seq<Sys>) {
    && |run| > 0
    && run[0] == INITIAL
    && forall i :: 0 <= i < |run| - 1 ==> Follows(run[i], run[i + 1])
  }

  /** A run extended by one step. */
  lemma ExtendRun(run: seq<Sys>, l: Label) returns (longer: seq<Sys>)
    requires IsRun(run) && Enabled(run[|run| - 1], l)
    ensures IsRun(longer) && longer == run + [Next(run[|run| - 1], l)]
  {
    longer := run + [Next(run[|run| - 1], l)];
    forall i | 0 <= i < |longer| - 1 ensures Follows(longer[i], longer[i + 1]) {
      if i < |run| - 1 { assert Follows(run[i], run[i + 1]); }
    }
  }
}
