/** Sign-in requests of one browser session: controllers/auth.go (`Login`, `checkMfaEnable`,
    `promptMfaSetup`, `promptMfaSetupAfterMfa`) and the session fields of controllers/base.go.

    Whatever `Login` asks other packages (credential checks, user lookups, passcode verification,
    the application's own rules) is part of the request and unrestricted, so users may gain or lose
    factors between any two requests.
  */
module SigninSession {
  import opened Wrappers

  /** A user record: an empty `preferredMfa` means multi-factor sign-in is off. */
  datatype User = User(id: string, preferredMfa: string, factors: set<string>)

  const MFA_TYPES := ["sms", "email", "app", "radius", "push"]

  /** `GetMfaProps(mfaType).Enabled` */
  predicate IsFactor(user: User, mfaType: string) {
    mfaType in MFA_TYPES && mfaType in user.factors
  }

  /** A second factor is due: multi-factor sign-in is on, this browser is not remembered, and a
      factor other than the one just used is enabled. */
  predicate NeedsSecondFactor(user: User, usedType: string, remembered: bool) {
    user.preferredMfa != "" && !remembered && exists t :: t in MFA_TYPES && t != usedType && IsFactor(user, t)
  }

  /** What `HandleLoggedIn` does with the session: its checks refuse, or the sign-in proceeds, with
      or without a signed-in session. */
  datatype Outcome = Refused | Proceeds(setsUsername: bool)

  /** What the first factor of a request proved. */
  datatype Proof = Proof(user: User, verificationType: string)

  datatype Login = Login(
    username: string, magicLink: bool, provider: string, isLink: bool,
    passcode: string, recoveryCode: string, mfaType: string,
    proof: Option<Proof>,         // the credentials, or the provider's answer, prove a user
    remembered: bool,             // IsMfaRemembered
    needsPrompt: bool,            // IsNeedPromptMfa
    account: Option<User>,        // the user record behind the session field that is looked up
    applicationFound: bool, organizationFound: bool,
    verified: bool,               // the passcode or recovery code is accepted
    rememberStored: bool,         // the remember deadline could be stored, if asked for
    sessionExpired: bool, isFresh: bool,
    outcome: Outcome)

  datatype Factor = Passcode(mfaType: string) | RecoveryCode
  datatype Path = Direct | AfterMfa | Quick

  datatype Event =
    | FirstFactor(user: string, verificationType: string, needsSecond: bool)
    | SecondFactor(user: string, factor: Factor)
    | Prompted(user: string, path: Path)
    | Granted(user: string, path: Path)

  datatype State = State(username: string, mfaUser: string, codeType: string, log: seq<Event>) {
    function Log(e: Event): State { this.(log := log + [e]) }
  }

  const INITIAL := State("", "", "", [])

  // ----- The steps of Login

  /** `HandleLoggedIn`, as far as the session is concerned. */
  function Handle(s: State, user: string, path: Path, outcome: Outcome): State {
    match outcome
    case Refused => s
    case Proceeds(sets) => (if sets then s.(username := user) else s).Log(Granted(user, path))
  }

  /** `promptMfaSetup` */
  function Prompt(s: State, user: string, path: Path): State {
    s.(username := user).Log(Prompted(user, path))
  }

  /** The first-factor branches: `checkMfaEnable`, then `HandleLoggedIn`. */
  function AfterFirstFactor(s: State, q: Login, proof: Proof): State {
    var user := proof.user;
    var needs := NeedsSecondFactor(user, proof.verificationType, q.remembered);
    var s1 := s.Log(FirstFactor(user.id, proof.verificationType, needs));
    var s2 := if user.preferredMfa != "" && !q.remembered then s1.(mfaUser := user.id) else s1;
    if needs then s2.(codeType := proof.verificationType)
    else if q.needsPrompt then Prompt(s2, user.id, Direct)
    else Handle(s2, user.id, Direct, q.outcome)
  }

  /** The check of a passcode or recovery code against the pending user; `None` is a refusal. */
  function SecondFactorOf(s: State, q: Login, user: User): Option<Factor> {
    if q.passcode != "" then
      if q.mfaType != s.codeType && IsFactor(user, q.mfaType) && q.verified && q.rememberStored
      then Some(Passcode(q.mfaType)) else None
    else if q.recoveryCode != "" && q.verified then Some(RecoveryCode)
    else None
  }

  /** The branch that answers a pending second factor. */
  function AnswerMfa(s: State, q: Login): State {
    match q.account
    case Some(user) =>
      if user.id != s.mfaUser || !q.applicationFound || SecondFactorOf(s, q, user).None? then s
      else
        var factor := SecondFactorOf(s, q, user).value;
        var s1 := if factor.Passcode? then s.(codeType := "") else s;
        var s2 := s1.Log(SecondFactor(user.id, factor));
        if !q.organizationFound then s2
        else if q.needsPrompt then Prompt(s2, user.id, AfterMfa).(mfaUser := "")
        else Handle(s2, user.id, AfterMfa, q.outcome).(mfaUser := "")
    case None => s
  }

  /** Quick sign-in with the user the session already carries. */
  function QuickSignin(s: State, q: Login): State {
    if q.sessionExpired then s.(username := "")
    else if s.username == "" then s
    else
      match q.account
      case Some(user) =>
        if user.id != s.username || !q.applicationFound || q.needsPrompt || !q.isFresh then s
        else Handle(s, user.id, Quick, q.outcome)
      case None => s
  }

  function Step(s: State, q: Login): State {
    if q.username != "" || (q.magicLink && s.mfaUser == "") then
      (match q.proof case Some(proof) => AfterFirstFactor(s, q, proof) case None => s)
    else if q.provider != "" then
      (match q.proof
       case Some(proof) => if q.isLink then s else AfterFirstFactor(s, q, proof.(verificationType := ""))
       case None => s)
    else if s.mfaUser != "" then AnswerMfa(s, q)
    else QuickSignin(s, q)
  }

  /** Any sequence of sign-in requests of one session. */
  function Run(requests: seq<Login>): State {
    if requests == [] then INITIAL
    else Step(Run(requests[..|requests| - 1]), requests[|requests| - 1])
  }

  // ----- Why a user may be carried or granted

  /** A first factor of `user`, and later a second one: if a second factor was due, one of them is a
      recovery code or a passcode of another type than the first factor. */
  ghost predicate TwoFactors(log: seq<Event>, user: string) {
    exists i, j :: 0 <= i < j < |log| && IsFirst(log[i], user) && Completes(log[i], log[j])
  }

  predicate IsFirst(e: Event, user: string) {
    e.FirstFactor? && e.user == user
  }

  predicate Completes(first: Event, second: Event) {
    && first.FirstFactor? && second.SecondFactor? && first.user == second.user
    && (first.needsSecond && second.factor.Passcode? ==> second.factor.mfaType != first.verificationType)
  }

  /** The session got `user` from a sign-in or a prompt, not from a quick sign-in. */
  ghost predicate Carries(log: seq<Event>, user: string) {
    exists i :: 0 <= i < |log| && Introduces(log[i], user)
  }

  predicate Introduces(e: Event, user: string) {
    (e.Granted? || e.Prompted?) && e.user == user && e.path != Quick
  }

  ghost predicate Justified(past: seq<Event>, e: Event) {
    match e
    case FirstFactor(_, _, _) => true
    case SecondFactor(user, _) => TwoFactors(past + [e], user)
    case Prompted(user, path) => Entitled(past, user, path)
    case Granted(user, path) => Entitled(past, user, path)
  }

  ghost predicate Entitled(past: seq<Event>, user: string, path: Path) {
    match path
    case Direct => |past| > 0 && IsFirst(past[|past| - 1], user) && !past[|past| - 1].needsSecond
    case AfterMfa => TwoFactors(past, user)
    case Quick => Carries(past, user)
  }

  /** The pending user passed a first factor; the code type still bars that factor's own type, unless a
      second factor was accepted since. */
  ghost predicate Pending(s: State) {
    s.mfaUser != "" ==>
      exists i :: 0 <= i < |s.log| && IsFirst(s.log[i], s.mfaUser)
                  && (s.log[i].needsSecond ==> s.codeType == s.log[i].verificationType || TwoFactors(s.log, s.mfaUser))
  }

  ghost predicate Ordered(log: seq<Event>) {
    forall i :: 0 <= i < |log| ==> JustifiedAt(log, i)
  }

  ghost predicate JustifiedAt(log: seq<Event>, i: nat)
    requires i < |log|
  {
    Justified(log[..i], log[i])
  }

  ghost predicate Inv(s: State) {
    && Ordered(s.log)
    && Pending(s)
    && (s.username != "" ==> Carries(s.log, s.username))
  }

  // ----- Preservation

  lemma TwoFactorsGrow(log: seq<Event>, e: Event, user: string)
    requires TwoFactors(log, user)
    ensures TwoFactors(log + [e], user)
  {
    var i, j :| 0 <= i < j < |log| && IsFirst(log[i], user) && Completes(log[i], log[j]);
    assert (log + [e])[i] == log[i] && (log + [e])[j] == log[j];
  }

  lemma CarriesGrow(log: seq<Event>, e: Event, user: string)
    requires Carries(log, user)
    ensures Carries(log + [e], user)
  {
    var i :| 0 <= i < |log| && Introduces(log[i], user);
    assert (log + [e])[i] == log[i];
  }

  /** Logging a justified event keeps the invariant. */
  lemma LogKeepsInv(s: State, e: Event)
    requires Inv(s) && Justified(s.log, e)
    ensures Inv(s.Log(e))
  {
    var log := s.log + [e];
    forall i | 0 <= i < |log| ensures JustifiedAt(log, i) {
      if i < |s.log| { assert JustifiedAt(s.log, i) && log[..i] == s.log[..i]; } else { assert log[..i] == s.log; }
    }
    if s.username != "" { CarriesGrow(s.log, e, s.username); }
    if s.mfaUser != "" {
      var i :| 0 <= i < |s.log| && IsFirst(s.log[i], s.mfaUser)
               && (s.log[i].needsSecond ==> s.codeType == s.log[i].verificationType || TwoFactors(s.log, s.mfaUser));
      assert log[i] == s.log[i];
      if TwoFactors(s.log, s.mfaUser) { TwoFactorsGrow(s.log, e, s.mfaUser); }
    }
  }

  lemma HandleKeepsInv(s: State, user: string, path: Path, outcome: Outcome)
    requires Inv(s) && Entitled(s.log, user, path) && (path == Quick ==> user == s.username)
    ensures Inv(Handle(s, user, path, outcome))
  {
    if outcome.Proceeds? {
      var e := Granted(user, path);
      LogKeepsInv(s, e);
      if path != Quick { assert Introduces(s.Log(e).log[|s.log|], user); }
    }
  }

  lemma PromptKeepsInv(s: State, user: string, path: Path)
    requires Inv(s) && Entitled(s.log, user, path) && path != Quick
    ensures Inv(Prompt(s, user, path))
  {
    var e := Prompted(user, path);
    LogKeepsInv(s, e);
    assert Introduces(s.Log(e).log[|s.log|], user);
  }

  lemma FirstFactorKeepsInv(s: State, q: Login, proof: Proof)
    requires Inv(s)
    ensures Inv(AfterFirstFactor(s, q, proof))
  {
    var user := proof.user;
    var needs := NeedsSecondFactor(user, proof.verificationType, q.remembered);
    var e := FirstFactor(user.id, proof.verificationType, needs);
    LogKeepsInv(s, e);
    var s1 := s.Log(e);
    assert s1.log[|s.log|] == e;
    var s2 := if user.preferredMfa != "" && !q.remembered then s1.(mfaUser := user.id) else s1;
    if needs {
      assert Inv(s2.(codeType := proof.verificationType));
    } else {
      assert Inv(s2);
      if q.needsPrompt { PromptKeepsInv(s2, user.id, Direct); } else { HandleKeepsInv(s2, user.id, Direct, q.outcome); }
    }
  }

  lemma SecondFactorIsJustified(s: State, q: Login, user: User)
    requires Inv(s) && user.id == s.mfaUser != "" && SecondFactorOf(s, q, user).Some?
    ensures Justified(s.log, SecondFactor(user.id, SecondFactorOf(s, q, user).value))
  {
    var e := SecondFactor(user.id, SecondFactorOf(s, q, user).value);
    var log := s.log + [e];
    if TwoFactors(s.log, user.id) {
      TwoFactorsGrow(s.log, e, user.id);
    } else {
      var i :| 0 <= i < |s.log| && IsFirst(s.log[i], user.id)
               && (s.log[i].needsSecond ==> s.codeType == s.log[i].verificationType || TwoFactors(s.log, user.id));
      assert log[i] == s.log[i] && log[|s.log|] == e && IsFirst(log[i], user.id) && Completes(log[i], log[|s.log|]);
    }
  }

  lemma AnswerKeepsInv(s: State, q: Login)
    requires Inv(s) && s.mfaUser != ""
    ensures Inv(AnswerMfa(s, q))
  {
    if && q.account.Some? && q.account.value.id == s.mfaUser && q.applicationFound
       && SecondFactorOf(s, q, q.account.value).Some?
    {
      var user := q.account.value;
      var factor := SecondFactorOf(s, q, user).value;
      var e := SecondFactor(user.id, factor);
      SecondFactorIsJustified(s, q, user);
      LogKeepsInv(s, e);
      assert TwoFactors(s.Log(e).log, user.id);
      var s2 := (if factor.Passcode? then s.(codeType := "") else s).Log(e);
      assert Inv(s2) by {
        var i :| 0 <= i < |s.log| && IsFirst(s.log[i], s.mfaUser);
        assert s2.log[i] == s.log[i];
      }
      if q.organizationFound {
        if q.needsPrompt { PromptKeepsInv(s2, user.id, AfterMfa); }
        else { HandleKeepsInv(s2, user.id, AfterMfa, q.outcome); }
      }
    }
  }

  /** Every sign-in request keeps the invariant. */
  lemma StepKeepsInv(s: State, q: Login)
    requires Inv(s)
    ensures Inv(Step(s, q))
  {
    hide Inv, AfterFirstFactor, AnswerMfa;
    if q.username != "" || (q.magicLink && s.mfaUser == "") {
      if q.proof.Some? { FirstFactorKeepsInv(s, q, q.proof.value); }
    } else if q.provider != "" {
      if q.proof.Some? && !q.isLink { FirstFactorKeepsInv(s, q, q.proof.value.(verificationType := "")); }
    } else if s.mfaUser != "" {
      AnswerKeepsInv(s, q);
    } else {
      QuickKeepsInv(s, q);
    }
  }

  lemma QuickKeepsInv(s: State, q: Login)
    requires Inv(s)
    ensures Inv(QuickSignin(s, q))
  {
    if !q.sessionExpired && s.username != "" && q.account.Some? && q.account.value.id == s.username {
      HandleKeepsInv(s, s.username, Quick, q.outcome);
    }
  }

  lemma {:induction false} RunIsSafe(requests: seq<Login>)
    ensures Inv(Run(requests))
  {
    if requests != [] {
      RunIsSafe(requests[..|requests| - 1]);
      StepKeepsInv(Run(requests[..|requests| - 1]), requests[|requests| - 1]);
    }
  }

  // ----- Main result

  /** Over every sequence of sign-in requests: if every first factor of a user left a second factor
      due, the user is only ever granted, or given the session, after a first factor and then an
      accepted recovery code or passcode of another type. */
  lemma LoggedFactorsAreNeverSkipped(requests: seq<Login>, k: nat) returns (i: nat, j: nat)
    requires k < |Run(requests).log| && (Run(requests).log[k].Granted? || Run(requests).log[k].Prompted?)
    requires var log := Run(requests).log;
             forall i :: 0 <= i < k && IsFirst(log[i], log[k].user) ==> log[i].needsSecond
    ensures var log := Run(requests).log;
            && i < j < k && IsFirst(log[i], log[k].user) && log[i].needsSecond && Completes(log[i], log[j])
  {
    RunIsSafe(requests);
    var log := Run(requests).log;
    var user := log[k].user;
    assert JustifiedAt(log, k);
    var past := log[..k];
    match log[k].path
    case Direct =>
      assert false;
    case AfterMfa =>
      i, j :| 0 <= i < j < |past| && IsFirst(past[i], user) && Completes(past[i], past[j]);
      assert log[i] == past[i] && log[j] == past[j];
    case Quick =>
      var m :| 0 <= m < |past| && Introduces(past[m], user);
      assert log[m] == past[m];
      i, j := LoggedFactorsAreNeverSkipped(requests, m);
  }

  /** The session never carries a user it did not get through such an event. */
  lemma SessionUserWasIntroduced(requests: seq<Login>)
    ensures var s := Run(requests); s.username != "" ==> Carries(s.log, s.username)
  {
    RunIsSafe(requests);
  }

  // ----- The handlers

  class Session {
    var username: string
    var mfaUser: string
    var codeType: string
    ghost var log: seq<Event>

    ghost function Now(): State
      reads this
    {
      State(username, mfaUser, codeType, log)
    }

    constructor ()
      ensures Now() == INITIAL
    {
      username, mfaUser, codeType, log := "", "", "", [];
    }

    /** The loop of `checkMfaEnable` over the user's factors. */
    method AllowedFactors(user: User, verificationType: string) returns (allowed: seq<string>)
      ensures forall t :: t in allowed <==> t in MFA_TYPES && t != verificationType && IsFactor(user, t)
    {
      allowed := [];
      for i := 0 to |MFA_TYPES|
        invariant forall t :: t in allowed <==> t in MFA_TYPES[..i] && t != verificationType && IsFactor(user, t)
      {
        if MFA_TYPES[i] != verificationType && IsFactor(user, MFA_TYPES[i]) {
          allowed := allowed + [MFA_TYPES[i]];
        }
      }
    }

    /** `promptMfaSetup` */
    method PromptMfaSetup(user: User, needsPrompt: bool, ghost path: Path) returns (answered: bool)
      modifies this
      ensures answered == needsPrompt
      ensures Now() == if needsPrompt then Prompt(old(Now()), user.id, path) else old(Now())
    {
      if needsPrompt {
        username := user.id;
        log := log + [Prompted(user.id, path)];
      }
      answered := needsPrompt;
    }

    /** `HandleLoggedIn` */
    method HandleLoggedIn(user: User, outcome: Outcome, ghost path: Path)
      modifies this
      ensures Now() == Handle(old(Now()), user.id, path, outcome)
    {
      if outcome.Proceeds? {
        if outcome.setsUsername {
          username := user.id;
        }
        log := log + [Granted(user.id, path)];
      }
    }

    /** `checkMfaEnable` followed, when it lets the request pass, by `HandleLoggedIn`. */
    method FinishFirstFactor(q: Login, user: User, verificationType: string)
      modifies this
      ensures Now() == AfterFirstFactor(old(Now()), q, Proof(user, verificationType))
    {
      log := log + [FirstFactor(user.id, verificationType, NeedsSecondFactor(user, verificationType, q.remembered))];
      if user.preferredMfa != "" && !q.remembered {
        mfaUser := user.id;
        var allowed := AllowedFactors(user, verificationType);
        if |allowed| >= 1 {
          assert allowed[0] in allowed;
          codeType := verificationType;
          return;
        }
      }
      var answered := PromptMfaSetup(user, q.needsPrompt, Direct);
      if !answered {
        HandleLoggedIn(user, q.outcome, Direct);
      }
    }

    /** The branch of `Login` for a session with a pending second factor. */
    method AnswerSecondFactor(q: Login)
      modifies this
      ensures Now() == AnswerMfa(old(Now()), q)
    {
      if q.account.None? || q.account.value.id != mfaUser || !q.applicationFound {
        return;
      }
      var user := q.account.value;
      ghost var factor := RecoveryCode;
      if q.passcode != "" {
        if q.mfaType == codeType || !IsFactor(user, q.mfaType) || !q.verified || !q.rememberStored {
          return;
        }
        codeType := "";
        factor := Passcode(q.mfaType);
      } else if q.recoveryCode == "" || !q.verified {
        return;
      }
      log := log + [SecondFactor(user.id, factor)];
      if !q.organizationFound {
        return;
      }
      var answered := PromptMfaSetup(user, q.needsPrompt, AfterMfa);
      if !answered {
        HandleLoggedIn(user, q.outcome, AfterMfa);
      }
      mfaUser := "";
    }

    /** controllers/auth.go, `Login` */
    method SignIn(q: Login)
      modifies this
      ensures Now() == Step(old(Now()), q)
    {
      if q.username != "" || (q.magicLink && mfaUser == "") {
        if q.proof.Some? {
          FinishFirstFactor(q, q.proof.value.user, q.proof.value.verificationType);
        }
      } else if q.provider != "" {
        if q.proof.Some? && !q.isLink {
          FinishFirstFactor(q, q.proof.value.user, "");
        }
      } else if mfaUser != "" {
        AnswerSecondFactor(q);
      } else {
        if q.sessionExpired {
          username := "";
        }
        if username != "" && q.account.Some? && q.account.value.id == username && q.applicationFound {
          if !q.needsPrompt && q.isFresh {
            HandleLoggedIn(q.account.value, q.outcome, Quick);
          }
        }
      }
    }
  }
}
