// What single requests come to for those who send them: forms and their tokens, signing out,
// codes by mail, elections and payments.
module Requests {
  import opened Accounts
  import opened Guarantees
  import opened Outcomes
  import opened Platform
  import opened Progress
  import opened Roles
  import opened Store
  import opened Text
  import Luhn
  import Otp
  import SecondFactor
  import Sessions
  import Totp

  // ----- Forms -----

  predicate IsForm(b: Body)
  {
    || b.VerifyEmail? || b.ResendCode? || b.ChoosePassword? || b.SetupMfa?
    || b.ElectTier? || b.Pay? || b.AssignRole? || b.LogOut?
  }

  // A form does something only for a session in force whose token it carries.
  lemma FormsNeedToken(env: Env, d: Data, r: Request)
    requires IsForm(r.body) && BodyPlan(env, d, r) != []
    ensures r.cookie != "" && r.cookie in d.sessions && r.now < d.sessions[r.cookie].expires
    ensures r.body.csrf != "" && d.sessions[r.cookie].csrf == r.body.csrf
  {
    hide VerifyEmailPlan, ChoosePasswordPlan, SetupMfaPlan, ElectTierPlan, PayPlan, AssignRolePlan, Normal;
  }

  // ----- Signing out -----

  lemma LogoutPlan(env: Env, d: Data, r: Request)
    requires r.body.LogOut? && SessionOf(d, r.cookie, r.now).Some? && CsrfOk(d, r.cookie, r.now, r.body.csrf)
    ensures Plan(env, d, r) == [Mutation.EndSession(r.cookie)] && r.cookie in d.sessions
  {
  }

  lemma EndedSession(env: Env, d: Data, token: Token)
    requires token in d.sessions
    ensures var d' := Next(env, d, Mutation.EndSession(token));
      && token !in d'.sessions && d'.audit == d.audit + [Audit.Logout(d.sessions[token].email)]
      && forall other :: other != token && other in d.sessions ==>
           other in d'.sessions && d'.sessions[other] == d.sessions[other]
  {
  }

  // After a log-out the session is found at no time; every other session is as it was, and the
  // log says who left.
  lemma LogoutEnds(env: Env, d: Data, r: Request, now: real, other: Token)
    requires r.body.LogOut? && SessionOf(d, r.cookie, r.now).Some? && CsrfOk(d, r.cookie, r.now, r.body.csrf)
    ensures SessionOf(Respond(env, d, r), r.cookie, now) == None
    ensures other != r.cookie ==> SessionOf(Respond(env, d, r), other, now) == SessionOf(d, other, now)
    ensures Respond(env, d, r).audit == d.audit + [Audit.Logout(SessionOf(d, r.cookie, r.now).value.email)]
  {
    LogoutPlan(env, d, r);
    hide Plan, CsrfOk, Next, Sessions.Logout;
    NextOne(env, d, Mutation.EndSession(r.cookie));
    EndedSession(env, d, r.cookie);
    if other != r.cookie {
      OthersStay(env, d, r.cookie, other);
    }
  }

  lemma OthersStay(env: Env, d: Data, token: Token, other: Token)
    requires other != token
    ensures other in Next(env, d, Mutation.EndSession(token)).sessions <==> other in d.sessions
  {
  }

  // ----- Codes by mail -----

  // The request mails a code for the purpose.
  predicate Mails(d: Data, r: Request, email: string, purpose: string)
  {
    || (r.body.SignUp? && MakesAccount(r, email) && email !in d.users && purpose == "email_verify")
    || (r.body.ResendCode? && AccountOf(d, r.cookie, r.now) == Some(email) && email in d.users
        && Normal(email) == email && CsrfOk(d, r.cookie, r.now, r.body.csrf) && purpose == "email_verify")
    || (r.body.MfaEmail? && ChallengeOf(d, r.body.challenge, r.now).Some?
        && Normal(ChallengeOf(d, r.body.challenge, r.now).value.email) == email && purpose == "login_mfa")
    || (r.body.ShowVerifyEmail? && AccountOf(d, r.cookie, r.now) == Some(email) && email in d.users
        && Normal(email) == email && !d.users[email].emailVerified && !r.body.inInbox && purpose == "email_verify")
  }

  lemma MailPlan(env: Env, d: Data, r: Request, email: string, purpose: string) returns (before: seq<Mutation>)
    requires Mails(d, r, email, purpose)
    ensures BodyPlan(env, d, r) == before + [IssueCode(email, purpose, r.body.code, r.body.salt, r.now)]
  {
    hide Normal, ValidEmail, ValidPassword, AccountOf, CsrfOk, ChallengeOf;
    var ms := BodyPlan(env, d, r);
    before := ms[..|ms| - 1];
  }

  lemma MailCode(d: Data, r: Request, email: string, purpose: string)
    requires Mails(d, r, email, purpose)
    ensures r.body.SignUp? || r.body.ResendCode? || r.body.MfaEmail? || r.body.ShowVerifyEmail?
  {
  }

  lemma OutsideMails(env: Env, d: Data, r: Request, m: Mutation)
    requires m in BodyPlan(env, d, r) && m.IssueCode?
    requires r.body.SignUp? || r.body.SignIn? || r.body.ShowMfa? || r.body.MfaEmail? || r.body.Mfa?
      || r.body.GithubCallback? || r.body.LogOut?
    ensures Mails(d, r, m.email, m.purpose) && m.code == r.body.code && m.now == r.now
  {
    hide Normal, ValidEmail, ValidPassword, CodeOk, ChallengeOf, FactorOk, SessionOf, CsrfOk, PasswordOk;
  }

  lemma AccountMails(env: Env, d: Data, r: Request, email: string, m: Mutation)
    requires AccountOf(d, r.cookie, r.now) == Some(email) && email in d.users && Normal(email) == email
    requires m in AccountPlan(env, d, r, email) && m.IssueCode?
    ensures Mails(d, r, m.email, m.purpose) && m.code == r.body.code && m.now == r.now
  {
    hide Normal, CodeOk, CsrfOk, GetTier, AccountOf, ValidPassword;
  }

  lemma InBody(env: Env, d: Data, r: Request, m: Mutation)
    requires m in Plan(env, d, r) && !m.EndSession?
    ensures m in BodyPlan(env, d, r)
  {
    hide BodyPlan;
  }

  // No other request mails a code, and the code that is stored is the one that is mailed.
  lemma OnlyTheseMail(env: Env, d: Data, r: Request, m: Mutation)
    requires NormalKeys(d) && m in Plan(env, d, r) && m.IssueCode?
    ensures Mails(d, r, m.email, m.purpose) && m.code == r.body.code && m.now == r.now
  {
    hide Normal, Mails, AccountPlan, BodyPlan, AccountOf;
    InBody(env, d, r, m);
    if r.body.SignUp? || r.body.SignIn? || r.body.ShowMfa? || r.body.MfaEmail? || r.body.Mfa?
      || r.body.GithubCallback? || r.body.LogOut? {
      OutsideMails(env, d, r, m);
    } else {
      var email := AccountMailing(env, d, r, m);
      AccountMails(env, d, r, email, m);
    }
  }

  lemma AccountMailing(env: Env, d: Data, r: Request, m: Mutation) returns (email: string)
    requires m in BodyPlan(env, d, r)
    requires !(r.body.SignUp? || r.body.SignIn? || r.body.ShowMfa? || r.body.MfaEmail? || r.body.Mfa?
      || r.body.GithubCallback? || r.body.LogOut?)
    ensures AccountOf(d, r.cookie, r.now) == Some(email) && email in d.users && m in AccountPlan(env, d, r, email)
  {
    hide AccountPlan, SessionOf;
    email := AccountOf(d, r.cookie, r.now).value;
  }

  lemma CodeIssued(env: Env, d: Data, email: string, purpose: string, code: string, salt: string, at: real, now: real)
    requires |code| == 6 && AllDigits(code) && now <= at + 600.0
    ensures CodeOk(env, Next(env, d, IssueCode(email, purpose, code, salt, at)), email, purpose, code, now)
  {
    StripsDigits(code);
    hide Strip, Otp.Key;
  }

  lemma StripsDigits(code: string)
    requires AllDigits(code)
    ensures Strip(code) == code
  {
    SpacesByNumber(code[0]);
    SpacesByNumber(code[|code| - 1]);
    StripMeans("", code, "");
    assert "" + code + "" == code;
  }

  // A mailed code is right for ten minutes, for the account and purpose it was mailed for.
  lemma MailedCodeWorks(env: Env, d: Data, r: Request, email: string, purpose: string, now: real)
    requires Mails(d, r, email, purpose)
    requires |r.body.code| == 6 && AllDigits(r.body.code) && now <= r.now + 600.0
    ensures CodeOk(env, Respond(env, d, r), email, purpose, r.body.code, now)
  {
    hide Mails, BodyPlan, LookupPlan, Respond, NextAll, Next, CodeOk, AllDigits;
    MailCode(d, r, email, purpose);
    var before := MailPlan(env, d, r, email, purpose);
    SecondFactor.PlanConcat(env, d, r);
    var d1 := NextAll(env, d, LookupPlan(d, r.cookie, r.now));
    var m := IssueCode(email, purpose, r.body.code, r.body.salt, r.now);
    NextThen(env, d1, before, m);
    CodeIssued(env, NextAll(env, d1, before), email, purpose, r.body.code, r.body.salt, r.now, now);
  }

  // ----- Elections and payments -----

  // The form of a signed-in account, with the session's token.
  predicate Sent(d: Data, r: Request, email: string)
  {
    && AccountOf(d, r.cookie, r.now) == Some(email) && email in d.users
    && IsForm(r.body) && CsrfOk(d, r.cookie, r.now, r.body.csrf)
  }

  lemma SentPlan(env: Env, d: Data, r: Request, email: string)
    requires Sent(d, r, email) && (r.body.ElectTier? || r.body.Pay? || r.body.AssignRole?)
    ensures BodyPlan(env, d, r) ==
      if r.body.ElectTier? then ElectTierPlan(email, r.body)
      else if r.body.Pay? then PayPlan(d.users[email], email, r.body)
      else AssignRolePlan(d, email, r.body)
  {
    hide ElectTierPlan, PayPlan, AssignRolePlan, AccountOf, CsrfOk;
  }

  // An accepted election of a known tier is kept as it was typed, monthly where no cadence was;
  // any other leaves the account as it is.
  lemma ElectionKept(env: Env, d: Data, r: Request, email: string)
    requires Sent(d, r, email) && r.body.ElectTier?
    ensures var u, cadence := d.users[email], if r.body.cadence == "" then "monthly" else r.body.cadence;
      UserAt(Respond(env, d, r), email) ==
        if r.body.accepted && GetTier(r.body.tierId).Some? then
          Some(u.(election := Some(Election(r.body.tierId, cadence))))
        else
          Some(u)
  {
    SentPlan(env, d, r, email);
    UserAfterRequest(env, d, r, email);
    hide BodyPlan, Respond, Sent, GetTier, AllAffected;
    var ms := BodyPlan(env, d, r);
    if ms != [] {
      OneThenIdle(ms, email, d.users[email]);
    } else {
      Idle(ms, email, d.users[email]);
    }
  }

  // The account once it has paid for its election: a membership at the tier's price, automatic
  // renewal as chosen, a card of which the last four digits are kept, and no election left.
  function Paid(u: User, b: Body): User
    requires b.Pay? && Pays(u, b)
  {
    var tier, cadence := GetTier(u.election.value.tierId).value, ChargedCadence(u.election.value.cadence);
    u.(membership := Some(Membership(
         tier.id, cadence, if cadence == "annual" then tier.annual else tier.monthly, b.autopay)),
       card := Some(Card(b.cardId, LastFour(Luhn.Digits(b.number)))), election := None)
  }

  lemma PaidPlan(u: User, email: string, b: Body) returns (membership: Membership, card: Card)
    requires b.Pay? && Pays(u, b)
    ensures PayPlan(u, email, b) == [Activate(email, membership, card), ClearElection(email)]
    ensures u.(membership := Some(membership), card := Some(card), election := None) == Paid(u, b)
    ensures GetTier(membership.tierId).Some? && ValidCadence(membership.cadence)
  {
    hide GetTier, Luhn.Digits, Luhn.Valid, CardFieldsOk, LastFour, ChargedCadence;
    var tier, cadence := GetTier(u.election.value.tierId).value, ChargedCadence(u.election.value.cadence);
    membership := Membership(tier.id, cadence, Price(tier, cadence), b.autopay);
    card := Card(b.cardId, LastFour(Luhn.Digits(b.number)));
    TierIds(u.election.value.tierId);
  }

  lemma UnpaidPlan(u: User, email: string, b: Body)
    requires b.Pay? && !Pays(u, b)
    ensures PayPlan(u, email, b) == []
  {
    hide GetTier, Luhn.Digits, Luhn.Valid, CardFieldsOk, LastFour, ChargedCadence, ValidCadence;
  }

  // A payment that is not in order changes nothing.
  lemma PaymentRefused(env: Env, d: Data, r: Request, email: string)
    requires Sent(d, r, email) && r.body.Pay? && !Pays(d.users[email], r.body)
    ensures Respond(env, d, r) == d
  {
    SentPlan(env, d, r, email);
    SentLookup(d, r, email);
    SecondFactor.PlanConcat(env, d, r);
    hide BodyPlan, Respond, Pays, PayPlan, Sent, LookupPlan;
    UnpaidPlan(d.users[email], email, r.body);
  }

  lemma SentLookup(d: Data, r: Request, email: string)
    requires Sent(d, r, email)
    ensures LookupPlan(d, r.cookie, r.now) == []
  {
    hide IsForm;
  }

  // A payment in order leaves the account paid, and is charged and logged at that price and with
  // those digits.
  lemma PaymentCharged(env: Env, d: Data, r: Request, email: string)
    requires Sent(d, r, email) && r.body.Pay? && Pays(d.users[email], r.body)
    ensures var u := Paid(d.users[email], r.body);
      var m, last4 := u.membership.value, u.card.value.last4;
      && Respond(env, d, r).charges == d.charges + [Charge(email, m.tierId, m.amount, last4)]
      && Respond(env, d, r).audit == d.audit + [MembershipElected(email, m.tierId, m.cadence, m.amount, last4)]
  {
    SentPlan(env, d, r, email);
    SentLookup(d, r, email);
    SecondFactor.PlanConcat(env, d, r);
    hide BodyPlan, Respond, Pays, Paid, PayPlan, Sent, LookupPlan, NextAll, Next, GetTier, ValidCadence;
    var membership, card := PaidPlan(d.users[email], email, r.body);
    var m, n := Activate(email, membership, card), ClearElection(email);
    NextAllConcat(env, d, [], [m, n]);
    NextOne(env, d, m);
    NextThen(env, d, [m], n);
    ChargeLogged(env, d, m, n);
    assert LookupPlan(d, r.cookie, r.now) == [];
    assert Respond(env, d, r) == Next(env, Next(env, d, m), n) by { Idly(env, d); }
  }

  lemma Idly(env: Env, d: Data)
    ensures NextAll(env, d, []) == d
  {
  }

  lemma ChargeLogged(env: Env, d: Data, m: Mutation, n: Mutation)
    requires m.Activate? && n.ClearElection? && m.email in d.users
    ensures var d' := Next(env, Next(env, d, m), n);
      && d'.charges == d.charges + [Charge(m.email, m.membership.tierId, m.membership.amount, m.card.last4)]
      && d'.audit == d.audit + [MembershipElected(
           m.email, m.membership.tierId, m.membership.cadence, m.membership.amount, m.card.last4)]
  {
  }

  // A payment in order leaves the account paid.
  lemma PaymentKept(env: Env, d: Data, r: Request, email: string)
    requires Sent(d, r, email) && r.body.Pay? && Pays(d.users[email], r.body)
    ensures UserAt(Respond(env, d, r), email) == Some(Paid(d.users[email], r.body))
  {
    SentPlan(env, d, r, email);
    UserAfterRequest(env, d, r, email);
    hide BodyPlan, Respond, Pays, Paid, PayPlan, AllAffected, GetTier, ValidCadence, UserAt;
    var membership, card := PaidPlan(d.users[email], email, r.body);
    PaidAffected(membership, card, email, d.users[email]);
  }

  lemma PaidAffected(membership: Membership, card: Card, email: string, u: User)
    requires GetTier(membership.tierId).Some? && ValidCadence(membership.cadence)
    ensures AllAffected([Activate(email, membership, card), ClearElection(email)], email, u)
         == u.(membership := Some(membership), card := Some(card), election := None)
  {
    hide AllAffected, GetTier, ValidCadence;
    Pair(Activate(email, membership, card), ClearElection(email), email, u);
  }

  predicate MayGive(d: Data, actor: string, role: Role)
    requires actor in d.users
  {
    d.users[actor].role == Owner || (d.users[actor].role == Admin && role != Owner)
  }

  lemma AssignmentPlan(d: Data, actor: string, b: Body)
    requires actor in d.users && b.AssignRole?
    ensures AssignRolePlan(d, actor, b) ==
      if MayGive(d, actor, ParseRole(b.role)) then [Assign(actor, b.email, ParseRole(b.role))] else []
  {
    WhoAssigns(d.users[actor].role);
    hide ParseRole, Permissions;
  }

  lemma AssignmentAffects(m: Mutation, email: string, u: User)
    requires m.Assign?
    ensures AllAffected([], email, u) == u
    ensures AllAffected([m], email, u) == if email == m.target then u.(role := m.role) else u
  {
    hide AllAffected;
    OneThenIdle([m], email, u);
    Idle([], email, u);
  }

  // An assignment gives the named account the named role, when the actor may, and nothing else
  // of any account.
  lemma AssignmentKept(env: Env, d: Data, r: Request, actor: string, email: string)
    requires Sent(d, r, actor) && r.body.AssignRole? && email in d.users
    ensures var role := ParseRole(r.body.role);
      UserAt(Respond(env, d, r), email) ==
        if MayGive(d, actor, role) && email == r.body.email then Some(d.users[email].(role := role))
        else Some(d.users[email])
  {
    hide BodyPlan, Respond, ParseRole, AssignRolePlan, AllAffected, MayGive, AccountOf, CsrfOk;
    SentPlan(env, d, r, actor);
    UserAfterRequest(env, d, r, email);
    AssignmentPlan(d, actor, r.body);
    AssignmentAffects(Assign(actor, r.body.email, ParseRole(r.body.role)), email, d.users[email]);
  }

  // ----- Authenticators -----

  lemma EnrolmentPlan(env: Env, d: Data, r: Request, email: string, secret: Secret)
    requires Sent(d, r, email) && r.body.SetupMfa? && d.users[email].password.Some?
    requires Some(secret) == (if d.users[email].mfaPending.Some? then d.users[email].mfaPending
                              else d.users[email].mfaSecret)
    requires env.AcceptsTotp(secret, r.body.code, r.now)
    ensures BodyPlan(env, d, r) == [ConfirmMfa(email, secret)]
  {
    hide AccountOf, CsrfOk;
  }

  // A code that an authenticator with the pending secret shows at most one step away enrols the
  // account under that secret.
  lemma AuthenticatorEnrols(env: Env, d: Data, r: Request, email: string, secret: Secret, made: real)
    requires Sent(d, r, email) && r.body.SetupMfa? && d.users[email].password.Some?
    requires Some(secret) == (if d.users[email].mfaPending.Some? then d.users[email].mfaPending
                              else d.users[email].mfaSecret)
    requires made >= 0.0 && r.now >= 30.0 && -30.0 <= r.now - made <= 30.0
    requires r.body.code == Totp.TotpAt(env.mac(secret), made)
    ensures UserAt(Respond(env, d, r), email)
         == Some(d.users[email].(mfaSecret := Some(secret), mfaEnabled := true, mfaPending := None))
  {
    Totp.AcceptedWithinStep(env.mac(secret), made, r.now);
    hide BodyPlan, Respond, Sent, Totp.Accepts, Totp.TotpAt, AllAffected;
    EnrolmentPlan(env, d, r, email, secret);
    UserAfterRequest(env, d, r, email);
    OneThenIdle([ConfirmMfa(email, secret)], email, d.users[email]);
  }

  // A code that the authenticator shows at most one step away signs the account in, for twelve
  // hours, where a challenge is in force.
  lemma AuthenticatorSignsIn(env: Env, d: Data, r: Request, secret: Secret, made: real, now: real)
    requires r.body.Mfa? && !r.body.byEmail && r.body.challenge != "" && r.body.challenge in d.challenges
    requires r.now <= d.challenges[r.body.challenge].expires && d.challenges[r.body.challenge].email in d.users
    requires d.users[d.challenges[r.body.challenge].email].mfaSecret == Some(secret)
    requires made >= 0.0 && r.now >= 30.0 && -30.0 <= r.now - made <= 30.0
    requires r.body.code == Totp.TotpAt(env.mac(secret), made)
    requires r.body.token != "" && now < r.now + 43200.0
    ensures SessionOf(Respond(env, d, r), r.body.token, now)
         == Some(Sessions.Session(d.challenges[r.body.challenge].email, r.body.csrf, r.now + 43200.0))
  {
    Totp.AcceptedWithinStep(env.mac(secret), made, r.now);
    hide Respond, Totp.Accepts, Totp.TotpAt, CodeOk;
    SecondFactor.SignsIn(env, d, r, d.challenges[r.body.challenge].email, now);
  }

  lemma SetupPlan(env: Env, d: Data, r: Request, email: string)
    requires r.body.ShowSetupMfa? && AccountOf(d, r.cookie, r.now) == Some(email) && email in d.users
    ensures var u := d.users[email];
      BodyPlan(env, d, r) ==
        if u.emailVerified && u.password.Some? && !u.mfaEnabled && u.mfaSecret.None? && u.mfaPending.None? then
          [BeginMfa(email, r.body.secret)]
        else
          []
  {
    hide AccountOf;
  }

  // The page offers a secret of its own exactly once: after e-mail and password, to an account
  // that has none.
  lemma SetupBegins(env: Env, d: Data, r: Request, email: string)
    requires r.body.ShowSetupMfa? && AccountOf(d, r.cookie, r.now) == Some(email) && email in d.users
    ensures var u := d.users[email];
      UserAt(Respond(env, d, r), email) ==
        if u.emailVerified && u.password.Some? && !u.mfaEnabled && u.mfaSecret.None? && u.mfaPending.None? then
          Some(u.(mfaPending := Some(r.body.secret)))
        else
          Some(u)
  {
    hide BodyPlan, Respond, AccountOf, AllAffected;
    SetupPlan(env, d, r, email);
    UserAfterRequest(env, d, r, email);
    OneThenIdle([BeginMfa(email, r.body.secret)], email, d.users[email]);
    Idle([], email, d.users[email]);
  }

  // ----- What the log says -----

  lemma SignUpLogged(env: Env, d: Data, r: Request, email: string)
    requires r.body.SignUp? && MakesAccount(r, email) && email !in d.users
    ensures Respond(env, d, r).audit == NextAll(env, d, LookupPlan(d, r.cookie, r.now)).audit
      + [Audit.Signup(email), OtpIssued(email, "email_verify")]
  {
    hide Normal, ValidEmail, ValidPassword, LookupPlan, Next, NextAll;
    var d1 := NextAll(env, d, LookupPlan(d, r.cookie, r.now));
    SecondFactor.PlanConcat(env, d, r);
    LookupEntitled(env, d, r);
    var m := CreateUser(email, env.hash(r.body.password, r.body.salt));
    var n := NewSession(r.body.token, email, r.body.csrf, r.now);
    var o := IssueCode(email, "email_verify", r.body.code, r.body.salt, r.now);
    NextOne(env, d1, m);
    NextThen(env, d1, [m], n);
    NextThen(env, d1, [m, n], o);
    assert [m] + [n] == [m, n] && [m, n] + [o] == [m, n, o];
    SignUpEntries(env, d1, m, n, o);
  }

  lemma SignUpEntries(env: Env, d: Data, m: Mutation, n: Mutation, o: Mutation)
    requires m.CreateUser? && m.email !in d.users && n.NewSession? && o.IssueCode?
    ensures Next(env, Next(env, Next(env, d, m), n), o).audit
         == d.audit + [Audit.Signup(m.email), OtpIssued(o.email, o.purpose)]
  {
  }

  lemma SignInLogged(env: Env, d: Data, r: Request, email: string)
    requires r.body.SignIn? && Normal(r.body.email) == email && email in d.users && d.users[email].password.Some?
    requires env.verify(r.body.password, d.users[email].password.value)
    ensures Respond(env, d, r).audit == NextAll(env, d, LookupPlan(d, r.cookie, r.now)).audit
      + [if d.users[email].mfaEnabled && d.users[email].mfaSecret.Some? then LoginMfaRequired(email)
         else Audit.Login(email)]
  {
    hide Normal, LookupPlan, Next, NextAll;
    var d1 := NextAll(env, d, LookupPlan(d, r.cookie, r.now));
    SecondFactor.PlanConcat(env, d, r);
    var ms := BodyPlan(env, d, r);
    NextOne(env, d1, ms[0]);
    NextThen(env, d1, [ms[0]], ms[1]);
    assert [ms[0]] + [ms[1]] == ms;
    SignInEntries(env, d1, ms[0], ms[1]);
  }

  lemma SignInEntries(env: Env, d: Data, m: Mutation, n: Mutation)
    requires (m.NewSession? || m.NewChallenge?) && n.Note?
    ensures Next(env, Next(env, d, m), n).audit == d.audit + [n.entry]
  {
  }

  // What each change of an account, its sessions or its codes leaves in the log.
  lemma ChangeLogged(env: Env, d: Data, m: Mutation, email: string)
    ensures m == UpsertGithub(email) ==>
      Next(env, d, m).audit == d.audit + [if email in d.users then LoginGithub(email) else SignupGithub(email)]
    ensures email in d.users && m == MarkVerified(email) ==>
      Next(env, d, m).audit == d.audit + [EmailVerified(email)]
    ensures email in d.users && m.SetPassword? && m.email == email && d.users[email].password.None? ==>
      Next(env, d, m).audit == d.audit + [PasswordSet(email)]
    ensures email in d.users && m.ConfirmMfa? && m.email == email ==>
      Next(env, d, m).audit == d.audit + [MfaEnabled(email)]
    ensures m.TryCode? && m.email == email ==>
      Next(env, d, m).audit == d.audit
        + if CodeOk(env, d, email, m.purpose, m.code, m.now) then [OtpVerified(email, m.purpose)] else []
    ensures email in d.users && m.Assign? && m.target == email ==>
      Next(env, d, m).audit == d.audit + [RoleAssigned(m.actor, email, d.users[email].role, m.role)]
  {
    hide Otp.Verify;
  }

  // A new challenge replaces none but its own, and those that have expired are forgotten.
  lemma ChallengesForget(env: Env, d: Data, m: Mutation, other: Token)
    requires m.NewChallenge? && other != m.token
    ensures var cs := Next(env, d, m).challenges;
      && (other in cs <==> other in d.challenges && d.challenges[other].expires >= m.now)
      && (other in cs ==> cs[other] == d.challenges[other])
  {
  }
}
