// What moves an account along: the exact condition under which a request advances its stage of
// onboarding.
module Progress {
  import opened Guarantees
  import opened Outcomes
  import opened Platform
  import opened Roles
  import opened Store
  import opened Text
  import Histories
  import Luhn
  import SecondFactor

  // ----- What closures do to the record of one account -----

  function Edited(m: Mutation, u: User): User
  {
    match m
    case UpsertGithub(_) => u.(github := true, emailVerified := true)
    case MarkVerified(_) => u.(emailVerified := true)
    case SetPassword(_, hash) => if u.password.None? then u.(password := Some(hash)) else u
    case BeginMfa(_, secret) => u.(mfaPending := Some(secret))
    case ConfirmMfa(_, secret) => u.(mfaSecret := Some(secret), mfaEnabled := true, mfaPending := None)
    case Elect(_, election) => u.(election := Some(election))
    case ClearElection(_) => u.(election := None)
    case Activate(_, membership, card) => u.(membership := Some(membership), card := Some(card))
    case Assign(_, _, role) => u.(role := role)
    case _ => u
  }

  function Affected(m: Mutation, email: string, u: User): User
  {
    if LeavesUsers(m) || Subject(m) != email then u else Edited(m, u)
  }

  function AllAffected(ms: seq<Mutation>, email: string, u: User): User
    decreases |ms|
  {
    if ms == [] then u else AllAffected(ms[1..], email, Affected(ms[0], email, u))
  }

  lemma UserAfter(env: Env, d: Data, m: Mutation, email: string)
    requires email in d.users
    ensures UserAt(Next(env, d, m), email) == Some(Affected(m, email, d.users[email]))
  {
    if LeavesUsers(m) {
      UsersUnchanged(env, d, m);
    } else if Subject(m) != email {
      OthersUnchanged(env, d, m, email);
    }
  }

  lemma {:induction false} UserAfterAll(env: Env, d: Data, ms: seq<Mutation>, email: string)
    requires email in d.users
    ensures UserAt(NextAll(env, d, ms), email) == Some(AllAffected(ms, email, d.users[email]))
    decreases |ms|
  {
    hide Next, Affected;
    if ms != [] {
      UserAfter(env, d, ms[0], email);
      UserAfterAll(env, Next(env, d, ms[0]), ms[1..], email);
    }
  }

  // ----- The steps of onboarding -----

  predicate Pays(u: User, b: Body)
    requires b.Pay?
  {
    && u.election.Some? && GetTier(u.election.value.tierId).Some? && b.accepted
    && Luhn.Valid(Luhn.Digits(b.number)) && CardFieldsOk(b.fields)
    && ValidCadence(ChargedCadence(u.election.value.cadence))
  }

  // The request that completes the account's present stage.
  predicate Completes(env: Env, d: Data, r: Request, email: string)
    requires email in d.users
  {
    var u, b, now := d.users[email], r.body, r.now;
    var own := AccountOf(d, r.cookie, now) == Some(email);
    match Stage(Some(u))
    case 1 =>
      || (b.GithubCallback? && b.stateOk && Normal(b.email) == email && email != "")
      || (own && b.VerifyEmail? && CsrfOk(d, r.cookie, now, b.csrf)
        && CodeOk(env, d, email, "email_verify", b.code, now))
    case 2 =>
      && own && b.ChoosePassword? && CsrfOk(d, r.cookie, now, b.csrf)
      && ValidPassword(b.password) && (b.confirm == "" || b.password == b.confirm)
    case 3 =>
      && own && b.SetupMfa? && CsrfOk(d, r.cookie, now, b.csrf)
      && u.mfaPending.Some? && env.AcceptsTotp(u.mfaPending.value, b.code, now)
    case 4 =>
      own && b.Pay? && CsrfOk(d, r.cookie, now, b.csrf) && Pays(u, b)
    case _ => false
  }

  predicate Advances(ms: seq<Mutation>, email: string, u: User)
  {
    Stage(Some(AllAffected(ms, email, u))) > Stage(Some(u))
  }

  lemma {:induction false} Idle(ms: seq<Mutation>, email: string, u: User)
    requires forall m :: m in ms ==> LeavesUsers(m)
    ensures AllAffected(ms, email, u) == u
    decreases |ms|
  {
    if ms != [] {
      Idle(ms[1..], email, u);
    }
  }

  lemma Pair(m: Mutation, n: Mutation, email: string, u: User)
    ensures AllAffected([m, n], email, u) == Affected(n, email, Affected(m, email, u))
  {
    assert [m, n][1..] == [n];
    assert AllAffected([n], email, Affected(m, email, u)) == Affected(n, email, Affected(m, email, u));
  }

  lemma OutsideAdvance(env: Env, d: Data, r: Request, email: string)
    requires email in d.users
    requires r.body.SignUp? || r.body.SignIn? || r.body.ShowMfa? || r.body.MfaEmail? || r.body.Mfa? || r.body.LogOut?
      || r.body.GithubCallback?
    ensures Advances(BodyPlan(env, d, r), email, d.users[email]) <==> Completes(env, d, r, email)
  {
    hide Normal, CodeOk, ChallengeOf, FactorOk, SessionOf, CsrfOk, PasswordOk, AccountOf, AllAffected;
    var ms, u := BodyPlan(env, d, r), d.users[email];
    if ms != [] && (r.body.SignUp? || r.body.GithubCallback?) {
      OneThenIdle(ms, email, u);
    } else {
      Idle(ms, email, u);
    }
  }

  lemma OneThenIdle(ms: seq<Mutation>, email: string, u: User)
    requires ms != [] && forall m :: m in ms[1..] ==> LeavesUsers(m)
    ensures AllAffected(ms, email, u) == Affected(ms[0], email, u)
  {
    Idle(ms[1..], email, Affected(ms[0], email, u));
  }

  lemma VerifyAdvance(env: Env, d: Data, r: Request, own: string, email: string)
    requires email in d.users && own in d.users && AccountOf(d, r.cookie, r.now) == Some(own)
    requires Normal(own) == own && r.body.VerifyEmail?
    ensures Advances(AccountPlan(env, d, r, own), email, d.users[email]) <==> Completes(env, d, r, email)
  {
    hide Normal, CodeOk, CsrfOk, AccountOf, AllAffected;
    var ms, u := AccountPlan(env, d, r, own), d.users[email];
    if |ms| == 2 {
      Pair(ms[0], ms[1], email, u);
      assert ms == [ms[0], ms[1]];
    } else {
      Idle(ms, email, u);
    }
  }

  lemma PayAdvance(env: Env, d: Data, r: Request, own: string, email: string)
    requires email in d.users && own in d.users && AccountOf(d, r.cookie, r.now) == Some(own) && r.body.Pay?
    ensures Advances(AccountPlan(env, d, r, own), email, d.users[email]) <==> Completes(env, d, r, email)
  {
    hide Normal, CsrfOk, GetTier, Luhn.Valid, Luhn.Digits, AccountOf, AllAffected;
    var ms, u := AccountPlan(env, d, r, own), d.users[email];
    if ms != [] {
      Pair(ms[0], ms[1], email, u);
      assert ms == [ms[0], ms[1]];
    } else {
      Idle(ms, email, u);
    }
  }

  lemma StepAdvance(env: Env, d: Data, r: Request, own: string, email: string)
    requires email in d.users && own in d.users && AccountOf(d, r.cookie, r.now) == Some(own)
    requires Normal(own) == own && UserSafe(d.users[email])
    requires r.body.ChoosePassword? || r.body.ShowSetupMfa? || r.body.SetupMfa? || r.body.ElectTier?
      || r.body.AssignRole?
    ensures Advances(AccountPlan(env, d, r, own), email, d.users[email]) <==> Completes(env, d, r, email)
  {
    hide Normal, CsrfOk, GetTier, ValidPassword, AccountOf, AllAffected, Can, RoleOf, ParseRole;
    var ms, u := AccountPlan(env, d, r, own), d.users[email];
    if ms != [] {
      OneThenIdle(ms, email, u);
    } else {
      Idle(ms, email, u);
    }
  }

  lemma OtherAdvance(env: Env, d: Data, r: Request, email: string)
    requires email in d.users
    requires r.body.ResendCode? || r.body.ShowVerifyEmail? || r.body.Browse? || AccountOf(d, r.cookie, r.now).None?
    requires !(r.body.SignUp? || r.body.SignIn? || r.body.ShowMfa? || r.body.MfaEmail? || r.body.Mfa?
      || r.body.LogOut? || r.body.GithubCallback?)
    ensures Advances(BodyPlan(env, d, r), email, d.users[email]) <==> Completes(env, d, r, email)
  {
    hide Normal, CsrfOk, AccountOf, AllAffected;
    Histories.AccountExists(d, r.cookie, r.now);
    Idle(BodyPlan(env, d, r), email, d.users[email]);
  }

  lemma BodyAdvance(env: Env, d: Data, r: Request, email: string)
    requires Safe(d) && NormalKeys(d) && email in d.users
    ensures Advances(BodyPlan(env, d, r), email, d.users[email]) <==> Completes(env, d, r, email)
  {
    hide Advances, Completes, AccountPlan, AccountOf, Normal, SessionOf, UserSafe;
    var b := r.body;
    Histories.AccountExists(d, r.cookie, r.now);
    if b.SignUp? || b.SignIn? || b.ShowMfa? || b.MfaEmail? || b.Mfa? || b.LogOut? || b.GithubCallback? {
      OutsideAdvance(env, d, r, email);
    } else if b.ResendCode? || b.ShowVerifyEmail? || b.Browse? || AccountOf(d, r.cookie, r.now).None? {
      OtherAdvance(env, d, r, email);
    } else {
      var own := AccountOf(d, r.cookie, r.now).value;
      if b.VerifyEmail? {
        VerifyAdvance(env, d, r, own, email);
      } else if b.Pay? {
        PayAdvance(env, d, r, own, email);
      } else {
        StepAdvance(env, d, r, own, email);
      }
    }
  }

  // A request moves an account to a later stage of onboarding exactly when it completes the
  // account's present one: no other request of its own or of anybody else does.
  lemma ProgressExact(env: Env, d: Data, r: Request, email: string)
    requires Safe(d) && NormalKeys(d) && email in d.users
    ensures Stage(UserAt(Respond(env, d, r), email)) > Stage(UserAt(d, email)) <==> Completes(env, d, r, email)
  {
    hide Completes, BodyPlan, LookupPlan, AllAffected, Respond;
    var d1 := NextAll(env, d, LookupPlan(d, r.cookie, r.now));
    SecondFactor.PlanConcat(env, d, r);
    LookupEntitled(env, d, r);
    UserAfterAll(env, d1, BodyPlan(env, d, r), email);
    BodyAdvance(env, d, r, email);
  }
}
