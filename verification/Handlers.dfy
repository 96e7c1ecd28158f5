// The request handlers of ross_ai/platform_server.py, calling the services step by step.
module Handlers {
  import opened Outcomes
  import opened Platform
  import opened Roles
  import opened Services
  import opened Store
  import opened Text
  import Otp
  import Sessions

  // What a handler reads after the session lookup is what the request's plan reads before it.
  lemma AfterLookup(env: Env, d: Data, cookie: Token, now: real)
    ensures var d1 := NextAll(env, d, LookupPlan(d, cookie, now));
      && d1.users == d.users && d1.challenges == d.challenges && d1.otps == d.otps
      && SessionOf(d1, cookie, now) == SessionOf(d, cookie, now)
  {
    var ms := LookupPlan(d, cookie, now);
    if ms != [] {
      NextOne(env, d, ms[0]);
    }
  }

  lemma AccountPlanAfterLookup(env: Env, d: Data, d1: Data, r: Request, email: string)
    requires email in d.users && d1.users == d.users && d1.challenges == d.challenges && d1.otps == d.otps
    requires SessionOf(d1, r.cookie, r.now) == SessionOf(d, r.cookie, r.now)
    ensures AccountPlan(env, d1, r, email) == AccountPlan(env, d, r, email)
  {
    hide Normal, SessionOf, GetTier, Permissions, ParseRole, Otp.Verify;
  }

  lemma SigningAfterLookup(env: Env, d: Data, d1: Data, r: Request)
    requires d1.users == d.users && d1.challenges == d.challenges && d1.otps == d.otps
    ensures r.body.SignUp? ==> SignUpPlan(env, d1, r.now, r.body) == SignUpPlan(env, d, r.now, r.body)
    ensures r.body.SignIn? ==> SignInPlan(env, d1, r.now, r.body) == SignInPlan(env, d, r.now, r.body)
    ensures r.body.ShowMfa? ==> ExpiryPlan(d1, r.body.challenge, r.now) == ExpiryPlan(d, r.body.challenge, r.now)
    ensures r.body.MfaEmail? ==> MfaEmailPlan(d1, r.now, r.body) == MfaEmailPlan(d, r.now, r.body)
    ensures r.body.Mfa? ==> MfaPlan(env, d1, r.now, r.body) == MfaPlan(env, d, r.now, r.body)
  {
    hide Normal, ValidEmail, ValidPassword, Otp.Verify;
  }

  lemma BodyPlanAfterLookup(env: Env, d: Data, r: Request)
    ensures BodyPlan(env, NextAll(env, d, LookupPlan(d, r.cookie, r.now)), r) == BodyPlan(env, d, r)
  {
    hide Normal, SessionOf, LookupPlan, NextAll, AccountPlan;
    hide SignUpPlan, SignInPlan, ExpiryPlan, MfaEmailPlan, MfaPlan;
    AfterLookup(env, d, r.cookie, r.now);
    var d1 := NextAll(env, d, LookupPlan(d, r.cookie, r.now));
    SigningAfterLookup(env, d, d1, r);
    var account := AccountOf(d, r.cookie, r.now);
    if account.Some? {
      AccountPlanAfterLookup(env, d, d1, r, account.value);
    }
  }

  lemma SessionHasCookie(d: Data, cookie: Token, now: real)
    ensures SessionOf(d, cookie, now).Some? ==> cookie != ""
  {
  }

  class Handler {
    const store: JsonStore
    const env: Env
    const auth: AuthService
    const otp: OtpService
    const billing: BillingService
    const rbac: RbacService

    ghost predicate Valid()
    {
      && auth.store == store && otp.store == store && billing.store == store && rbac.store == store
      && auth.env == env && otp.env == env && billing.env == env && rbac.env == env
    }

    constructor (store: JsonStore, env: Env)
      ensures Valid() && this.store == store && this.env == env
    {
      this.store := store;
      this.env := env;
      auth := new AuthService(store, env);
      otp := new OtpService(store, env);
      billing := new BillingService(store, env);
      rbac := new RbacService(store, env);
    }

    // A handler's steps, each on the store the previous one left, amount to the plan made from
    // the store the request found.
    method Handle(r: Request)
      requires Valid()
      modifies store
      ensures store.data == Respond(env, old(store.data), r)
    {
      hide NextAll, BodyPlan, LookupPlan, SessionOf;
      var session := auth.GetSession(r.cookie, r.now);
      AfterLookup(env, old(store.data), r.cookie, r.now);
      BodyPlanAfterLookup(env, old(store.data), r);
      NextAllConcat(env, old(store.data), LookupPlan(old(store.data), r.cookie, r.now),
        BodyPlan(env, old(store.data), r));
      HandleBody(r, session);
    }

    method HandleBody(r: Request, session: Option<Sessions.Session>)
      requires Valid() && session == SessionOf(store.data, r.cookie, r.now)
      modifies store
      ensures store.data == NextAll(env, old(store.data), BodyPlan(env, old(store.data), r))
    {
      hide SessionOf, Normal, SignUpPlan, SignInPlan, MfaPlan, MfaEmailPlan, ExpiryPlan, AccountPlan, Next;
      var b := r.body;
      if b.SignUp? {
        PostSignup(b, r.now);
      } else if b.SignIn? {
        PostSignin(b, r.now);
      } else if b.ShowMfa? {
        var _ := auth.GetMfaChallenge(b.challenge, r.now);
      } else if b.MfaEmail? {
        PostMfaEmail(b, r.now);
      } else if b.Mfa? {
        PostMfa(b, r.now);
      } else if b.GithubCallback? {
        GetGithubCallback(b, r.now);
      } else if b.LogOut? {
        SessionHasCookie(store.data, r.cookie, r.now);
        PostLogout(r.cookie, b.csrf, session);
      } else if session.Some? && session.value.email in store.data.users {
        HandleAccount(r, session.value);
      }
    }

    method PostSignup(b: Body, now: real)
      requires Valid() && b.SignUp?
      modifies store
      ensures store.data == NextAll(env, old(store.data), SignUpPlan(env, old(store.data), now, b))
    {
      hide Normal, ValidEmail, ValidPassword, Next, NextAll;
      var session := auth.Signup(b.email, b.password, b.salt, b.token, b.csrf, now);
      if session.Some? {
        var name := session.value.email;
        otp.Issue(name, "email_verify", b.code, b.salt, now);
        NormalTwice(b.email);
        var ms := [CreateUser(name, env.hash(b.password, b.salt)), NewSession(b.token, name, b.csrf, now)];
        NextThen(env, old(store.data), ms, IssueCode(name, "email_verify", b.code, b.salt, now));
        assert SignUpPlan(env, old(store.data), now, b) == ms + [IssueCode(name, "email_verify", b.code, b.salt, now)];
      } else {
        NothingCreated(old(store.data), now, b);
      }
    }

    method PostSignin(b: Body, now: real)
      requires Valid() && b.SignIn?
      modifies store
      ensures store.data == NextAll(env, old(store.data), SignInPlan(env, old(store.data), now, b))
    {
      hide Normal, Next;
      var _, _ := auth.Login(b.email, b.password, b.token, b.csrf, now);
    }

    // A refused sign-up leaves the store alone.
    lemma NothingCreated(d: Data, now: real, b: Body)
      requires b.SignUp? && !(ValidEmail(Normal(b.email)) && ValidPassword(b.password) && Normal(b.email) !in d.users)
      ensures NextAll(env, d, SignUpPlan(env, d, now, b)) == d
    {
      hide Normal, ValidEmail, ValidPassword;
      if SignUpPlan(env, d, now, b) != [] {
        NextOne(env, d, SignUpPlan(env, d, now, b)[0]);
      }
    }

    method PostMfaEmail(b: Body, now: real)
      requires Valid() && b.MfaEmail?
      modifies store
      ensures store.data == NextAll(env, old(store.data), MfaEmailPlan(old(store.data), now, b))
    {
      hide Normal, Next;
      var c := auth.GetMfaChallenge(b.challenge, now);
      if c.Some? {
        otp.Issue(c.value.email, "login_mfa", b.code, b.salt, now);
        NextOne(env, old(store.data), IssueCode(Normal(c.value.email), "login_mfa", b.code, b.salt, now));
      }
    }

    // The challenge is looked up again after the code was tried.
    method PostMfa(b: Body, now: real)
      requires Valid() && b.Mfa?
      modifies store
      ensures store.data == NextAll(env, old(store.data), MfaPlan(env, old(store.data), now, b))
    {
      hide Normal, Next, CodeOk;
      var d := store.data;
      var c := auth.GetMfaChallenge(b.challenge, now);
      if c.None? {
        return;
      }
      var email, ok := c.value.email, false;
      ghost var tried := if b.byEmail then [TryCode(Normal(email), "login_mfa", b.code, now)] else [];
      if b.byEmail {
        ok := otp.Verify(email, "login_mfa", b.code, now);
        NextOne(env, d, TryCode(Normal(email), "login_mfa", b.code, now));
      } else if email in store.data.users {
        var secret := SecretFor(store.data.users[email]);
        if secret.Some? {
          ok := VerifySecret(env, secret.value, b.code, now);
        }
      }
      assert store.data == NextAll(env, d, tried);
      assert ok == FactorOk(env, d, email, b, now);
      if !ok {
        return;
      }
      TryingKeepsChallenges(d, tried);
      var _ := auth.CompleteMfaLogin(b.challenge, b.token, b.csrf, now);
      NextAllConcat(env, d, tried,
        [EndChallenge(b.challenge), NewSession(b.token, email, b.csrf, now), Note(LoginMfaOk(email))]);
    }

    lemma TryingKeepsChallenges(d: Data, tried: seq<Mutation>)
      requires |tried| <= 1 && (tried != [] ==> tried[0].TryCode?)
      ensures NextAll(env, d, tried).challenges == d.challenges
    {
      hide Otp.Verify;
      if tried != [] {
        NextOne(env, d, tried[0]);
      }
    }

    method GetGithubCallback(b: Body, now: real)
      requires Valid() && b.GithubCallback?
      modifies store
      ensures store.data == NextAll(env, old(store.data),
        if !b.stateOk || Normal(b.email) == "" then []
        else [UpsertGithub(Normal(b.email)), NewSession(b.token, Normal(b.email), b.csrf, now)])
    {
      hide Normal, Next;
      if b.stateOk {
        var _ := auth.UpsertGithubUser(b.email, b.token, b.csrf, now);
      }
    }

    method PostLogout(cookie: Token, csrf: Token, session: Option<Sessions.Session>)
      requires Valid() && (session.Some? ==> cookie != "")
      modifies store
      ensures store.data ==
        if session.Some? && Matches(session.value, csrf) then Next(env, old(store.data), Mutation.EndSession(cookie))
        else old(store.data)
    {
      if session.Some? && Matches(session.value, csrf) {
        auth.Logout(cookie);
      }
    }

    // A signed-in user's request; forms carry the session's token against forgery.
    method HandleAccount(r: Request, session: Sessions.Session)
      requires Valid() && SessionOf(store.data, r.cookie, r.now) == Some(session) && session.email in store.data.users
      modifies store
      ensures store.data == NextAll(env, old(store.data), AccountPlan(env, old(store.data), r, session.email))
    {
      hide SessionOf, Normal, VerifyEmailPlan, ChoosePasswordPlan, ShowSetupMfaPlan, SetupMfaPlan, ElectTierPlan,
        PayPlan, AssignRolePlan, Next;
      var email, b, now := session.email, r.body, r.now;
      var u := store.data.users[email];
      if b.ShowVerifyEmail? {
        if !u.emailVerified && !b.inInbox {
          otp.Issue(email, "email_verify", b.code, b.salt, now);
          NextOne(env, old(store.data), IssueCode(Normal(email), "email_verify", b.code, b.salt, now));
        }
      } else if b.ShowSetupMfa? {
        GetSetupMfa(email, u, b.secret);
      } else if b.VerifyEmail? && Matches(session, b.csrf) {
        PostVerifyEmail(email, b.code, now);
      } else if b.ResendCode? && Matches(session, b.csrf) {
        otp.Issue(email, "email_verify", b.code, b.salt, now);
        NextOne(env, old(store.data), IssueCode(Normal(email), "email_verify", b.code, b.salt, now));
      } else if b.ChoosePassword? && Matches(session, b.csrf) {
        PostSetPassword(email, u, b);
      } else if b.SetupMfa? && Matches(session, b.csrf) {
        PostSetupMfa(email, u, b.code, now);
      } else if b.ElectTier? && Matches(session, b.csrf) {
        PostMembership(email, b);
      } else if b.Pay? && Matches(session, b.csrf) {
        PostPayment(email, u, b);
      } else if b.AssignRole? && Matches(session, b.csrf) {
        PostRbacAssign(email, b);
      }
    }

    method PostVerifyEmail(email: string, code: string, now: real)
      requires Valid()
      modifies store
      ensures store.data == NextAll(env, old(store.data), VerifyEmailPlan(env, old(store.data), now, email, code))
    {
      hide Normal, Next, CodeOk;
      var ok := otp.Verify(email, "email_verify", code, now);
      NextOne(env, old(store.data), TryCode(Normal(email), "email_verify", code, now));
      if ok {
        auth.MarkEmailVerified(email);
        NextThen(env, old(store.data), [TryCode(Normal(email), "email_verify", code, now)], MarkVerified(email));
      }
    }

    method PostSetPassword(email: string, u: User, b: Body)
      requires Valid() && b.ChoosePassword? && email in store.data.users && store.data.users[email] == u
      modifies store
      ensures store.data == NextAll(env, old(store.data), ChoosePasswordPlan(env, u, email, b))
    {
      hide Normal, ValidPassword;
      if !u.emailVerified || u.password.Some? {
        return;
      }
      var _ := auth.ChoosePassword(email, b.password, b.confirm, b.salt);
      NextOne(env, old(store.data), SetPassword(Normal(email), env.hash(b.password, b.salt)));
    }

    // The page shows the secret there is, or begins an enrolment.
    method GetSetupMfa(email: string, u: User, secret: Secret)
      requires Valid() && email in store.data.users && store.data.users[email] == u
      modifies store
      ensures store.data == NextAll(env, old(store.data), ShowSetupMfaPlan(u, email, secret))
    {
      hide Next;
      if u.emailVerified && u.password.Some? && !u.mfaEnabled && SecretFor(u).None? {
        var _ := auth.BeginMfaEnrollment(email, secret);
        NextOne(env, old(store.data), BeginMfa(email, secret));
      }
    }

    method PostSetupMfa(email: string, u: User, code: string, now: real)
      requires Valid() && email in store.data.users && store.data.users[email] == u
      modifies store
      ensures store.data == NextAll(env, old(store.data), SetupMfaPlan(env, u, email, code, now))
    {
      hide Next;
      if u.password.None? {
        return;
      }
      var ok := auth.ConfirmMfaEnrollment(email, code, now);
      if ok {
        NextOne(env, old(store.data), ConfirmMfa(email, EnrolmentSecret(u).value));
      }
    }

    method PostMembership(email: string, b: Body)
      requires Valid() && b.ElectTier?
      modifies store
      ensures store.data == NextAll(env, old(store.data), ElectTierPlan(email, b))
    {
      hide Next, GetTier;
      if GetTier(b.tierId).Some? && b.accepted {
        var _ := store.Change(env, Elect(email, Election(b.tierId, OrMonthly(b.cadence))));
        NextOne(env, old(store.data), Elect(email, Election(b.tierId, OrMonthly(b.cadence))));
      }
    }

    // The election is cleared only once the membership was paid for.
    method PostPayment(email: string, u: User, b: Body)
      requires Valid() && b.Pay? && email in store.data.users && store.data.users[email] == u
      modifies store
      ensures store.data == NextAll(env, old(store.data), PayPlan(u, email, b))
    {
      hide Next, GetTier, Normal;
      if u.election.None? || GetTier(u.election.value.tierId).None? || !b.accepted {
        return;
      }
      var tier, cadence := GetTier(u.election.value.tierId).value, OrMonthly(u.election.value.cadence);
      var card := TokenizeCard(b.number, b.fields, b.cardId);
      if card.None? {
        return;
      }
      TierIds(u.election.value.tierId);
      var ok := billing.AttachMembership(email, tier.id, cadence, b.autopay, card.value, true);
      if ok {
        var m := Activate(email, Elected(tier.id, cadence, b.autopay), card.value);
        NextOne(env, old(store.data), m);
        var _ := store.Change(env, ClearElection(email));
        NextThen(env, old(store.data), [m], ClearElection(email));
      }
    }

    method PostRbacAssign(email: string, b: Body)
      requires Valid() && b.AssignRole?
      modifies store
      ensures store.data == NextAll(env, old(store.data), AssignRolePlan(old(store.data), email, b))
    {
      hide Permissions, ParseRole;
      if !Can(store.data, email, RolesAssign) {
        return;
      }
      var _ := rbac.AssignRole(email, b.email, b.role);
      NextOne(env, old(store.data), Assign(email, b.email, ParseRole(b.role)));
    }
  }

  predicate Matches(session: Sessions.Session, csrf: Token)
  {
    csrf != "" && session.csrf == csrf
  }
}
