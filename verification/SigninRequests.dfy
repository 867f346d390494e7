/** What a sign-in request must be like to prove a factor, to be granted, or to change the session, written out on
    the request and the session it finds, and what that means over whole runs of requests. */
module SigninRequests {
  import opened Wrappers
  import opened SigninSession

  // ----- What a request is, in the session it finds

  predicate UsesCredentials(s: State, q: Login) {
    q.username != "" || (q.magicLink && s.mfaUser == "")
  }

  predicate UsesProvider(s: State, q: Login) {
    !UsesCredentials(s, q) && q.provider != ""
  }

  predicate AnswersPending(s: State, q: Login) {
    !UsesCredentials(s, q) && q.provider == "" && s.mfaUser != ""
  }

  predicate ReliesOnSession(s: State, q: Login) {
    !UsesCredentials(s, q) && q.provider == "" && s.mfaUser == ""
  }

  /** The request proves a first factor of this type: by credentials, or by a provider whose account is not just
      being linked, which has no type. */
  predicate ProvesFirst(s: State, q: Login, user: User, factorType: string) {
    && q.proof.Some? && q.proof.value.user == user
    && (if UsesCredentials(s, q) then factorType == q.proof.value.verificationType
        else UsesProvider(s, q) && !q.isLink && factorType == "")
  }

  predicate HasFactor(user: User, factorType: string) {
    factorType in {"sms", "email", "app", "radius", "push"} && factorType in user.factors
  }

  /** The user has to prove another factor than the one of this type. */
  ghost predicate IsDue(user: User, factorType: string, remembered: bool) {
    user.preferredMfa != "" && !remembered && exists other :: other != factorType && HasFactor(user, other)
  }

  /** The request proves this second factor of the pending user: an accepted passcode of an enabled factor that the
      session does not bar, or, without a passcode, an accepted recovery code. */
  predicate ProvesSecond(s: State, q: Login, f: Factor) {
    && AnswersPending(s, q) && q.applicationFound && q.verified
    && q.account.Some? && q.account.value.id == s.mfaUser
    && match f
       case Passcode(m) =>
         q.passcode != "" && q.mfaType == m && m != s.codeType && HasFactor(q.account.value, m) && q.rememberStored
       case RecoveryCode => q.passcode == "" && q.recoveryCode != ""
  }

  predicate ProvesSomeSecond(s: State, q: Login) {
    ProvesSecond(s, q, Passcode(q.mfaType)) || ProvesSecond(s, q, RecoveryCode)
  }

  /** The type of the first factor that the request's proof stands for. */
  function FirstType(s: State, q: Login): string
    requires q.proof.Some?
  {
    if UsesCredentials(s, q) then q.proof.value.verificationType else ""
  }

  /** The request gets as far as the enrolment prompt and the sign-in checks, for this user. */
  ghost predicate Passes(s: State, q: Login, user: string, path: Path) {
    match path
    case Direct =>
      && q.proof.Some? && q.proof.value.user.id == user
      && ProvesFirst(s, q, q.proof.value.user, FirstType(s, q))
      && !IsDue(q.proof.value.user, FirstType(s, q), q.remembered)
    case AfterMfa => user == s.mfaUser && q.organizationFound && ProvesSomeSecond(s, q)
    case Quick =>
      && ReliesOnSession(s, q) && !q.sessionExpired && user == s.username != ""
      && q.account.Some? && q.account.value.id == user && q.applicationFound && q.isFresh
  }

  /** The request makes this event happen. */
  ghost predicate Causes(s: State, q: Login, e: Event) {
    match e
    case FirstFactor(user, factorType, needs) =>
      && q.proof.Some? && q.proof.value.user.id == user && ProvesFirst(s, q, q.proof.value.user, factorType)
      && (needs <==> IsDue(q.proof.value.user, factorType, q.remembered))
    case SecondFactor(user, f) => user == s.mfaUser && ProvesSecond(s, q, f)
    case Prompted(user, path) => q.needsPrompt && path != Quick && Passes(s, q, user, path)
    case Granted(user, path) => !q.needsPrompt && q.outcome.Proceeds? && Passes(s, q, user, path)
  }

  // ----- One request

  lemma NeedsMeansDue(user: User, factorType: string, remembered: bool)
    ensures NeedsSecondFactor(user, factorType, remembered) <==> IsDue(user, factorType, remembered)
  {
    forall t ensures t in MFA_TYPES && IsFactor(user, t) <==> HasFactor(user, t) { }
    if IsDue(user, factorType, remembered) {
      var t :| t != factorType && HasFactor(user, t);
      assert t in MFA_TYPES && IsFactor(user, t);
    }
  }

  /** The events that a request adds. */
  function Added(s: State, q: Login): seq<Event>
    requires s.log <= Step(s, q).log
  {
    Step(s, q).log[|s.log|..]
  }

  lemma StepAppends(s: State, q: Login)
    ensures s.log <= Step(s, q).log
  {
  }

  /** The request proves a first factor. */
  predicate IsFirstFactorRequest(s: State, q: Login) {
    q.proof.Some? && (UsesCredentials(s, q) || (UsesProvider(s, q) && !q.isLink))
  }

  ghost function FirstEvents(s: State, q: Login): seq<Event>
    requires q.proof.Some?
  {
    var user, t := q.proof.value.user, FirstType(s, q);
    var needs := IsDue(user, t, q.remembered);
    [FirstFactor(user.id, t, needs)] +
    if needs then []
    else if q.needsPrompt then [Prompted(user.id, Direct)]
    else if q.outcome.Proceeds? then [Granted(user.id, Direct)]
    else []
  }

  lemma FirstFactorStep(s: State, q: Login)
    requires IsFirstFactorRequest(s, q)
    ensures Step(s, q).log == s.log + FirstEvents(s, q)
  {
    NeedsMeansDue(q.proof.value.user, FirstType(s, q), q.remembered);
    hide IsDue, NeedsSecondFactor;
  }

  lemma FirstEventIsCaused(s: State, q: Login, e: Event)
    requires IsFirstFactorRequest(s, q)
    ensures e in FirstEvents(s, q) <==> Causes(s, q, e)
  {
    hide IsDue, HasFactor;
  }

  lemma FirstFactorLogs(s: State, q: Login)
    requires IsFirstFactorRequest(s, q)
    ensures s.log <= Step(s, q).log
    ensures forall e :: e in Added(s, q) <==> Causes(s, q, e)
  {
    FirstFactorStep(s, q);
    hide Step, Causes, FirstEvents;
    assert Added(s, q) == FirstEvents(s, q);
    forall e ensures e in FirstEvents(s, q) <==> Causes(s, q, e) { FirstEventIsCaused(s, q, e); }
  }

  function SecondEvents(s: State, q: Login): seq<Event> {
    if !ProvesSomeSecond(s, q) then []
    else
      [SecondFactor(s.mfaUser, if q.passcode != "" then Passcode(q.mfaType) else RecoveryCode)] +
      if !q.organizationFound then []
      else if q.needsPrompt then [Prompted(s.mfaUser, AfterMfa)]
      else if q.outcome.Proceeds? then [Granted(s.mfaUser, AfterMfa)]
      else []
  }

  /** The model's check of a second factor is the one written out above. */
  lemma SecondFactorMeans(s: State, q: Login, user: User)
    requires AnswersPending(s, q) && q.account == Some(user)
    ensures user.id == s.mfaUser && q.applicationFound && SecondFactorOf(s, q, user).Some? <==> ProvesSomeSecond(s, q)
    ensures ProvesSomeSecond(s, q) ==>
              SecondFactorOf(s, q, user).value == if q.passcode != "" then Passcode(q.mfaType) else RecoveryCode
  {
  }

  lemma SecondFactorStep(s: State, q: Login)
    requires AnswersPending(s, q)
    ensures Step(s, q).log == s.log + SecondEvents(s, q)
  {
    if q.account.Some? { SecondFactorMeans(s, q, q.account.value); }
    hide ProvesSecond, SecondFactorOf;
    if q.account.None? { NoAccountNoFactor(s, q); }
  }

  lemma NoAccountNoFactor(s: State, q: Login)
    requires q.account.None?
    ensures !ProvesSomeSecond(s, q)
  {
  }

  lemma SecondEventIsCaused(s: State, q: Login, e: Event)
    requires AnswersPending(s, q)
    ensures e in SecondEvents(s, q) <==> Causes(s, q, e)
  {
    hide IsDue, HasFactor;
  }

  lemma SecondFactorLogs(s: State, q: Login)
    requires AnswersPending(s, q)
    ensures s.log <= Step(s, q).log
    ensures forall e :: e in Added(s, q) <==> Causes(s, q, e)
  {
    SecondFactorStep(s, q);
    hide Step, Causes, SecondEvents;
    assert Added(s, q) == SecondEvents(s, q);
    forall e ensures e in SecondEvents(s, q) <==> Causes(s, q, e) { SecondEventIsCaused(s, q, e); }
  }

  lemma QuickLogs(s: State, q: Login)
    requires ReliesOnSession(s, q)
    ensures s.log <= Step(s, q).log
    ensures forall e :: e in Added(s, q) <==> Causes(s, q, e)
  {
    hide IsDue;
  }

  /** A request logs exactly the events it causes. */
  lemma StepLogsExactly(s: State, q: Login)
    ensures s.log <= Step(s, q).log
    ensures forall e :: e in Added(s, q) <==> Causes(s, q, e)
  {
    if AnswersPending(s, q) {
      SecondFactorLogs(s, q);
    } else if ReliesOnSession(s, q) {
      QuickLogs(s, q);
    } else if IsFirstFactorRequest(s, q) {
      FirstFactorLogs(s, q);
    } else {
      hide IsDue;
      assert Step(s, q) == s;
    }
  }

  /** The user the session carries after a request: the prompted one, the granted one if the sign-in sets it, nobody
      if an expired session is relied on, and otherwise the one before. */
  lemma StepUserExactly(s: State, q: Login)
    ensures var username := Step(s, q).username;
            && (forall user, path :: Causes(s, q, Prompted(user, path)) ==> username == user)
            && (forall user, path :: Causes(s, q, Granted(user, path)) ==>
                  username == if q.outcome.setsUsername then user else s.username)
            && ((forall user, path :: !Causes(s, q, Prompted(user, path)) && !Causes(s, q, Granted(user, path))) ==>
                  username == if ReliesOnSession(s, q) && q.sessionExpired then "" else s.username)
  {
    hide Causes;
    forall user, path ensures Causes(s, q, Prompted(user, path)) ==> Step(s, q).username == user {
      GrantSetsUser(s, q, Prompted(user, path));
    }
    forall user, path
      ensures Causes(s, q, Granted(user, path)) ==>
                && q.outcome.Proceeds?
                && Step(s, q).username == if q.outcome.setsUsername then user else s.username
    {
      GrantSetsUser(s, q, Granted(user, path));
    }
    if forall user, path :: !Causes(s, q, Prompted(user, path)) && !Causes(s, q, Granted(user, path)) {
      NoGrantKeepsUser(s, q);
    }
  }

  lemma GrantSetsUser(s: State, q: Login, e: Event)
    requires e.Granted? || e.Prompted?
    ensures Causes(s, q, e) ==>
              && (e.Granted? ==> q.outcome.Proceeds?)
              && Step(s, q).username == if e.Prompted? || q.outcome.setsUsername then e.user else s.username
  {
    if Causes(s, q, e) {
      match e.path
      case Direct =>
        NeedsMeansDue(q.proof.value.user, FirstType(s, q), q.remembered);
        hide IsDue, NeedsSecondFactor, HasFactor, SecondFactorOf;
      case AfterMfa =>
        SecondFactorMeans(s, q, q.account.value);
        hide IsDue, NeedsSecondFactor, HasFactor, SecondFactorOf;
      case Quick =>
        hide IsDue, NeedsSecondFactor, HasFactor, SecondFactorOf;
    }
  }

  /** The state after a request keeps the user unless the request logs a prompt or a grant. */
  lemma NoGrantKeepsUser(s: State, q: Login)
    requires forall user, path :: !Causes(s, q, Prompted(user, path)) && !Causes(s, q, Granted(user, path))
    ensures Step(s, q).username == if ReliesOnSession(s, q) && q.sessionExpired then "" else s.username
  {
    hide Causes;
    StepLogsExactly(s, q);
    forall e | e in Added(s, q) ensures !e.Prompted? && !e.Granted? { }
    ChangedUserIsLogged(s, q);
  }

  /** The last event is a prompt or a grant. */
  predicate EndsInGrant(log: seq<Event>) {
    |log| > 0 && (log[|log| - 1].Prompted? || log[|log| - 1].Granted?)
  }

  lemma FirstFactorKeepsUser(s: State, q: Login, proof: Proof)
    ensures var t := AfterFirstFactor(s, q, proof);
            t.username == s.username || (EndsInGrant(t.log) && |t.log| > |s.log|)
  {
    hide NeedsSecondFactor;
  }

  lemma SecondFactorKeepsUser(s: State, q: Login)
    ensures var t := AnswerMfa(s, q); t.username == s.username || (EndsInGrant(t.log) && |t.log| > |s.log|)
  {
    hide SecondFactorOf;
  }

  lemma ChangedUserIsLogged(s: State, q: Login)
    requires s.log <= Step(s, q).log
    ensures || Step(s, q).username == (if ReliesOnSession(s, q) && q.sessionExpired then "" else s.username)
            || exists e :: e in Added(s, q) && (e.Prompted? || e.Granted?)
  {
    var t := Step(s, q);
    if q.proof.Some? {
      FirstFactorKeepsUser(s, q, q.proof.value);
      FirstFactorKeepsUser(s, q, q.proof.value.(verificationType := ""));
    }
    SecondFactorKeepsUser(s, q);
    hide AfterFirstFactor, AnswerMfa;
    if EndsInGrant(t.log) && |t.log| > |s.log| { assert t.log[|t.log| - 1] in Added(s, q); }
  }

  /** The pending user and the barred factor type after a request. */
  lemma StepPendingExactly(s: State, q: Login)
    ensures var t := Step(s, q);
            && t.mfaUser ==
               (if && IsFirstFactorRequest(s, q)
                   && q.proof.value.user.preferredMfa != "" && !q.remembered then q.proof.value.user.id
                else if ProvesSomeSecond(s, q) && q.organizationFound then "" else s.mfaUser)
            && t.codeType ==
               (if IsFirstFactorRequest(s, q) && IsDue(q.proof.value.user, FirstType(s, q), q.remembered)
                then FirstType(s, q)
                else if ProvesSecond(s, q, Passcode(q.mfaType)) then "" else s.codeType)
  {
    if q.proof.Some? { NeedsMeansDue(q.proof.value.user, FirstType(s, q), q.remembered); }
    if AnswersPending(s, q) && q.account.Some? { SecondFactorMeans(s, q, q.account.value); }
    if q.account.None? { NoAccountNoFactor(s, q); }
    hide IsDue, NeedsSecondFactor, HasFactor, SecondFactorOf;
  }

  // ----- Whole runs

  lemma {:induction false} LogGrows(requests: seq<Login>, i: nat, j: nat)
    requires i <= j <= |requests|
    ensures Run(requests[..i]).log <= Run(requests[..j]).log
  {
    hide Step;
    if i < j {
      LogGrows(requests, i, j - 1);
      assert requests[..j][..j - 1] == requests[..j - 1];
      StepAppends(Run(requests[..j - 1]), requests[j - 1]);
    }
  }

  /** The `n`-th request of the run caused the `k`-th event. */
  ghost predicate IsOrigin(requests: seq<Login>, n: nat, k: nat) {
    && n < |requests|
    && |Run(requests[..n]).log| <= k < |Run(requests[..n + 1]).log| <= |Run(requests).log|
    && Causes(Run(requests[..n]), requests[n], Run(requests).log[k])
  }

  /** Every event of a run goes back to a request that was such as to cause it. */
  lemma {:induction false} EveryEventHasAnOrigin(requests: seq<Login>, k: nat) returns (n: nat)
    requires k < |Run(requests).log|
    ensures IsOrigin(requests, n, k)
  {
    hide Step, Causes;
    var last := |requests| - 1;
    var rest, q := requests[..last], requests[last];
    assert requests[..last + 1] == requests;
    StepLogsExactly(Run(rest), q);
    if k < |Run(rest).log| {
      n := EveryEventHasAnOrigin(rest, k);
      assert rest[..n] == requests[..n] && rest[..n + 1] == requests[..n + 1];
    } else {
      n := last;
      assert Run(requests).log[k] == Added(Run(rest), q)[k - |Run(rest).log|];
    }
  }

  lemma OriginsAreInOrder(requests: seq<Login>, i: nat, j: nat, a: nat, b: nat)
    requires IsOrigin(requests, i, a) && IsOrigin(requests, j, b) && a < b
    ensures i <= j
  {
    if j < i { LogGrows(requests, j + 1, i); }
  }

  /** In every first-factor request of the user a second factor was due. */
  ghost predicate AlwaysDue(requests: seq<Login>, user: string) {
    forall n :: 0 <= n < |requests| ==> DueAt(requests, n, user)
  }

  ghost predicate DueAt(requests: seq<Login>, n: nat, user: string)
    requires n < |requests|
  {
    var s, q := Run(requests[..n]), requests[n];
    q.proof.Some? && q.proof.value.user.id == user && ProvesFirst(s, q, q.proof.value.user, FirstType(s, q)) ==>
      IsDue(q.proof.value.user, FirstType(s, q), q.remembered)
  }

  /** Over every sequence of sign-in requests: if a second factor was due in every first-factor request of a user,
      the user is granted, or given the session, only after a request that proved a first factor of that user and a
      later one that answered for the pending user with an accepted recovery code, or with an accepted passcode of
      another type than the first factor's. */
  lemma SecondFactorIsNeverSkipped(requests: seq<Login>, k: nat) returns (i: nat, j: nat, n: nat)
    requires k < |Run(requests).log| && (Run(requests).log[k].Granted? || Run(requests).log[k].Prompted?)
    requires AlwaysDue(requests, Run(requests).log[k].user)
    ensures i < j <= n && IsOrigin(requests, n, k)
    ensures var user := Run(requests).log[k].user;
            var s1, q1, s2, q2 := Run(requests[..i]), requests[i], Run(requests[..j]), requests[j];
            && q1.proof.Some? && q1.proof.value.user.id == user
            && ProvesFirst(s1, q1, q1.proof.value.user, FirstType(s1, q1))
            && s2.mfaUser == user
            && (|| ProvesSecond(s2, q2, RecoveryCode)
                || (ProvesSecond(s2, q2, Passcode(q2.mfaType)) && q2.mfaType != FirstType(s1, q1)))
  {
    hide Run, IsDue, IsFactor;
    var log := Run(requests).log;
    forall a | 0 <= a < k && IsFirst(log[a], log[k].user) ensures log[a].needsSecond {
      var m := EveryEventHasAnOrigin(requests, a);
      assert DueAt(requests, m, log[k].user);
    }
    n := EveryEventHasAnOrigin(requests, k);
    var a, b := LoggedFactorsAreNeverSkipped(requests, k);
    i := EveryEventHasAnOrigin(requests, a);
    j := EveryEventHasAnOrigin(requests, b);
    OriginsAreInOrder(requests, i, j, a, b);
    OriginsAreInOrder(requests, j, n, b, k);
    OneKindOfFactor(Run(requests[..i]), requests[i], log[a], log[b]);
  }

  /** No request proves both factors. */
  lemma OneKindOfFactor(s: State, q: Login, first: Event, second: Event)
    requires first.FirstFactor? && second.SecondFactor?
    ensures !(Causes(s, q, first) && Causes(s, q, second))
  {
    hide IsDue;
  }
}
