// The request handlers of ross_ai/platform_server.py over the services of ross_ai/auth.py,
// otp.py, billing.py and rbac.py: which closures a request gives to the store.
module Platform {
  import opened Outcomes
  import opened Roles
  import opened Store
  import opened Text
  import Luhn
  import Otp
  import Sessions

  // ----- Validation -----

  // What follows the last "@", or everything.
  function Domain(email: string): string
  {
    if email == "" || email[|email| - 1] == '@' then ""
    else Domain(email[..|email| - 1]) + [email[|email| - 1]]
  }

  predicate ValidEmail(email: string)
  {
    '@' in email && '.' in Domain(email)
  }

  predicate ValidPassword(password: string)
  {
    && |password| >= 10
    && (exists i :: 0 <= i < |password| && IsLetter(password[i]))
    && (exists i :: 0 <= i < |password| && IsDigit(password[i]))
  }

  lemma {:induction false} DomainIs(local: string, domain: string)
    requires '@' !in domain
    ensures Domain(local + "@" + domain) == domain
    decreases |domain|
  {
    var email := local + "@" + domain;
    if domain != "" {
      assert email[..|email| - 1] == local + "@" + domain[..|domain| - 1];
      DomainIs(local, domain[..|domain| - 1]);
    }
  }

  // An e-mail is valid exactly when there is a dot after its last "@".
  lemma EmailShape(local: string, domain: string)
    requires '@' !in domain
    ensures ValidEmail(local + "@" + domain) <==> '.' in domain
    ensures !ValidEmail(domain)
  {
    DomainIs(local, domain);
    assert (local + "@" + domain)[|local|] == '@';
  }

  // A password needs ten characters, among them a letter and a digit.
  lemma PasswordShape(password: string)
    ensures ValidPassword(password) <==>
      && 10 <= |password|
      && (exists i :: 0 <= i < |password| && (65 <= password[i] as int <= 90 || 97 <= password[i] as int <= 122))
      && (exists i :: 0 <= i < |password| && 48 <= password[i] as int <= 57)
  {
  }

  // ----- Tiers (ross_ai/membership.py) -----

  datatype Tier = Tier(id: string, monthly: nat, annual: nat)

  function GetTier(tierId: string): Option<Tier>
  {
    var t := Normal(tierId);
    if t == "starter" then Some(Tier("starter", 149, 1490))
    else if t == "professional" then Some(Tier("professional", 399, 3990))
    else if t == "firm" then Some(Tier("firm", 899, 8990))
    else if t == "enterprise" then Some(Tier("enterprise", 2499, 24990))
    else None
  }

  predicate ValidCadence(cadence: string)
  {
    cadence == "monthly" || cadence == "annual"
  }

  function Price(tier: Tier, cadence: string): nat
  {
    if cadence == "annual" then tier.annual else tier.monthly
  }

  // The price list: a year costs ten months.
  lemma PriceList(tierId: string)
    ensures GetTier(tierId).Some? <==> Normal(tierId) in {"starter", "professional", "firm", "enterprise"}
    ensures GetTier(tierId).Some? ==>
      var tier := GetTier(tierId).value;
      && tier.id == Normal(tierId)
      && Price(tier, "annual") == 10 * Price(tier, "monthly")
      && Price(tier, "monthly") == if tier.id == "starter" then 149 else if tier.id == "professional" then 399
           else if tier.id == "firm" then 899 else 2499
  {
  }

  function OrMonthly(cadence: string): string
  {
    if cadence == "" then "monthly" else cadence
  }

  // ----- Reading the store -----

  function SessionOf(d: Data, cookie: Token, now: real): Option<Sessions.Session>
  {
    Sessions.GetSession(d.sessions, cookie, now).0
  }

  // The account of the signed-in user.
  function AccountOf(d: Data, cookie: Token, now: real): Option<string>
  {
    var s := SessionOf(d, cookie, now);
    if s.Some? && s.value.email in d.users then Some(s.value.email) else None
  }

  predicate CsrfOk(d: Data, cookie: Token, now: real, csrf: Token)
  {
    var s := SessionOf(d, cookie, now);
    s.Some? && csrf != "" && s.value.csrf == csrf
  }

  function ChallengeOf(d: Data, token: Token, now: real): Option<Challenge>
  {
    if token == "" || token !in d.challenges || now > d.challenges[token].expires then None
    else Some(d.challenges[token])
  }

  function RoleOf(d: Data, email: string): Role
  {
    if email in d.users then d.users[email].role else DEFAULT_ROLE
  }

  predicate Can(d: Data, email: string, p: Permission)
  {
    p in Permissions(RoleOf(d, email))
  }

  predicate CodeOk(env: Env, d: Data, email: string, purpose: string, code: string, now: real)
  {
    Otp.Verify(d.otps, Otp.Key(email, purpose), code, now, env.digest).0 == Otp.Verified
  }

  // The stage of onboarding a signed-in account is sent to.
  function Destination(u: Option<User>): string
  {
    if u.None? then "/signin"
    else if !u.value.emailVerified then "/verify-email"
    else if u.value.password.None? then "/set-password"
    else if !u.value.mfaEnabled then "/setup-mfa"
    else if u.value.membership.None? then "/membership"
    else "/dashboard"
  }

  // ----- Requests -----

  // Random tokens, secrets, salts and codes are drawn with the request.
  datatype Body =
    | SignUp(email: string, password: string, token: Token, csrf: Token, code: string, salt: string)
    | SignIn(email: string, password: string, token: Token, csrf: Token)
    | VerifyEmail(csrf: Token, code: string)
    | ResendCode(csrf: Token, code: string, salt: string)
    | ShowVerifyEmail(inInbox: bool, code: string, salt: string)
    | ChoosePassword(csrf: Token, password: string, confirm: string, salt: string)
    | ShowSetupMfa(secret: Secret)
    | SetupMfa(csrf: Token, code: string)
    | ShowMfa(challenge: Token)
    | MfaEmail(challenge: Token, code: string, salt: string)
    | Mfa(challenge: Token, byEmail: bool, code: string, token: Token, csrf: Token)
    | ElectTier(csrf: Token, tierId: string, cadence: string, accepted: bool)
    | Pay(csrf: Token, accepted: bool, number: string, fields: CardFields, cardId: Token, autopay: bool)
    | AssignRole(csrf: Token, email: string, role: string)
    | GithubCallback(stateOk: bool, email: string, token: Token, csrf: Token)
    | LogOut(csrf: Token)
    | Browse

  datatype Request = Request(now: real, cookie: Token, body: Body)

  // Every handler first looks the session up, which ends it when it has expired.
  function LookupPlan(d: Data, cookie: Token, now: real): seq<Mutation>
  {
    if cookie != "" && cookie in d.sessions && now >= d.sessions[cookie].expires then
      [Mutation.EndSession(cookie)]
    else
      []
  }

  function SignUpPlan(env: Env, d: Data, now: real, b: Body): seq<Mutation>
    requires b.SignUp?
  {
    var email := Normal(b.email);
    if !ValidEmail(email) || !ValidPassword(b.password) then []
    else if email in d.users then [CreateUser(email, env.hash(b.password, b.salt))]
    else [CreateUser(email, env.hash(b.password, b.salt)), NewSession(b.token, email, b.csrf, now),
      IssueCode(email, "email_verify", b.code, b.salt, now)]
  }

  predicate PasswordOk(env: Env, d: Data, email: string, password: string)
  {
    email in d.users && d.users[email].password.Some? && env.verify(password, d.users[email].password.value)
  }

  // A password alone signs in only an account without a second factor.
  function SignInPlan(env: Env, d: Data, now: real, b: Body): seq<Mutation>
    requires b.SignIn?
  {
    var email := Normal(b.email);
    if !PasswordOk(env, d, email, b.password) then []
    else if d.users[email].mfaEnabled && d.users[email].mfaSecret.Some? then
      [NewChallenge(b.token, email, now), Note(LoginMfaRequired(email))]
    else
      [NewSession(b.token, email, b.csrf, now), Note(Login(email))]
  }

  function VerifyEmailPlan(env: Env, d: Data, now: real, email: string, code: string): seq<Mutation>
  {
    [TryCode(Normal(email), "email_verify", code, now)]
    + if CodeOk(env, d, Normal(email), "email_verify", code, now) then [MarkVerified(email)] else []
  }

  function ChoosePasswordPlan(env: Env, u: User, email: string, b: Body): seq<Mutation>
    requires b.ChoosePassword?
  {
    if !u.emailVerified || u.password.Some? then []
    else if (b.confirm != "" && b.password != b.confirm) || !ValidPassword(b.password) then []
    else [SetPassword(Normal(email), env.hash(b.password, b.salt))]
  }

  function ShowSetupMfaPlan(u: User, email: string, secret: Secret): seq<Mutation>
  {
    if !u.emailVerified || u.password.None? || u.mfaEnabled || u.mfaSecret.Some? || u.mfaPending.Some? then []
    else [BeginMfa(email, secret)]
  }

  // The secret an enrolment is confirmed with.
  function EnrolmentSecret(u: User): Option<Secret>
  {
    if u.mfaPending.Some? then u.mfaPending else u.mfaSecret
  }

  // The secret a challenge is answered with.
  function SecretFor(u: User): Option<Secret>
  {
    if u.mfaSecret.Some? then u.mfaSecret else u.mfaPending
  }

  function SetupMfaPlan(env: Env, u: User, email: string, code: string, now: real): seq<Mutation>
  {
    var secret := EnrolmentSecret(u);
    if u.password.None? || secret.None? || !env.AcceptsTotp(secret.value, code, now) then []
    else [ConfirmMfa(email, secret.value)]
  }

  predicate FactorOk(env: Env, d: Data, email: string, b: Body, now: real)
    requires b.Mfa?
  {
    if b.byEmail then CodeOk(env, d, Normal(email), "login_mfa", b.code, now)
    else
      email in d.users && SecretFor(d.users[email]).Some?
      && env.AcceptsTotp(SecretFor(d.users[email]).value, b.code, now)
  }

  // A challenge found expired is removed.
  function ExpiryPlan(d: Data, token: Token, now: real): seq<Mutation>
  {
    if token != "" && token in d.challenges && ChallengeOf(d, token, now).None? then [EndChallenge(token)] else []
  }

  function MfaPlan(env: Env, d: Data, now: real, b: Body): seq<Mutation>
    requires b.Mfa?
  {
    match ChallengeOf(d, b.challenge, now)
    case None => ExpiryPlan(d, b.challenge, now)
    case Some(c) =>
      (if b.byEmail then [TryCode(Normal(c.email), "login_mfa", b.code, now)] else [])
      + if FactorOk(env, d, c.email, b, now) then
          [EndChallenge(b.challenge), NewSession(b.token, c.email, b.csrf, now), Note(LoginMfaOk(c.email))]
        else []
  }

  function MfaEmailPlan(d: Data, now: real, b: Body): seq<Mutation>
    requires b.MfaEmail?
  {
    match ChallengeOf(d, b.challenge, now)
    case None => ExpiryPlan(d, b.challenge, now)
    case Some(c) => [IssueCode(Normal(c.email), "login_mfa", b.code, b.salt, now)]
  }

  function ElectTierPlan(email: string, b: Body): seq<Mutation>
    requires b.ElectTier?
  {
    if GetTier(b.tierId).None? || !b.accepted then []
    else [Elect(email, Election(b.tierId, OrMonthly(b.cadence)))]
  }

  function LastFour(digits: seq<Luhn.Digit>): seq<Luhn.Digit>
  {
    if |digits| < 4 then digits else digits[|digits| - 4..]
  }

  // The digits that are kept: the last four, in order.
  lemma LastFourAre(digits: seq<Luhn.Digit>, i: nat)
    requires |digits| >= 4 && i < 4
    ensures |LastFour(digits)| == 4 && LastFour(digits)[i] == digits[|digits| - 4 + i]
  {
  }

  // The other fields of a card, as typed.
  datatype CardFields = CardFields(month: string, year: string, cvc: string, name: string)

  function NumberOf(digits: seq<Luhn.Digit>): nat
  {
    if digits == [] then 0 else 10 * NumberOf(digits[..|digits| - 1]) + digits[|digits| - 1]
  }

  // As it is read: the first digit counts most, and zeros in front count nothing.
  lemma {:induction false} NumberReads(a: Luhn.Digit, b: Luhn.Digit, digits: seq<Luhn.Digit>)
    ensures NumberOf([]) == 0 && NumberOf([a]) == a && NumberOf([a, b]) == 10 * a + b
    ensures NumberOf([0] + digits) == NumberOf(digits)
    decreases |digits|
  {
    NumberNext([], a);
    NumberNext([a], b);
    if digits != [] {
      var front, last := digits[..|digits| - 1], digits[|digits| - 1];
      NumberReads(a, b, front);
      NumberNext([0] + front, last);
      assert [0] + digits == [0] + front + [last];
    }
  }

  lemma NumberNext(digits: seq<Luhn.Digit>, d: Luhn.Digit)
    ensures NumberOf(digits + [d]) == 10 * NumberOf(digits) + d
  {
    assert (digits + [d])[..|digits|] == digits;
  }

  predicate CardFieldsOk(f: CardFields)
  {
    && 1 <= NumberOf(Luhn.Digits(f.month)) <= 12
    && |Luhn.Digits(f.year)| in {2, 4}
    && 3 <= |Luhn.Digits(f.cvc)| <= 4
    && Strip(f.name) != ""
  }

  // What the payment page shows for the pending election, and what billing charges for it.
  function ShownAmount(tier: Tier, cadence: string): nat
  {
    Price(tier, OrMonthly(cadence))
  }

  function ChargedCadence(cadence: string): string
  {
    Normal(OrMonthly(cadence))
  }

  lemma CadenceRead(cadence: string)
    ensures ValidCadence(ChargedCadence(cadence)) <==>
      cadence == "" || Normal(cadence) == "monthly" || Normal(cadence) == "annual"
  {
    StripMeans("", "monthly", "");
    assert "" + "monthly" + "" == "monthly";
    assert Lower("monthly") == "monthly";
  }

  function PayPlan(u: User, email: string, b: Body): seq<Mutation>
    requires b.Pay?
  {
    if u.election.None? || GetTier(u.election.value.tierId).None? || !b.accepted then []
    else
      var digits := Luhn.Digits(b.number);
      var tier, cadence := GetTier(u.election.value.tierId).value, ChargedCadence(u.election.value.cadence);
      if !Luhn.Valid(digits) || !CardFieldsOk(b.fields) || !ValidCadence(cadence) then []
      else
        var membership := Membership(tier.id, cadence, Price(tier, cadence), b.autopay);
        [Activate(email, membership, Card(b.cardId, LastFour(digits))), ClearElection(email)]
  }

  function AssignRolePlan(d: Data, actor: string, b: Body): seq<Mutation>
    requires b.AssignRole?
  {
    var role := ParseRole(b.role);
    if !Can(d, actor, RolesAssign) || (role == Owner && RoleOf(d, actor) != Owner) then []
    else [Assign(actor, b.email, role)]
  }

  // What a signed-in user's request gives the store.
  function AccountPlan(env: Env, d: Data, r: Request, email: string): seq<Mutation>
    requires email in d.users
  {
    var u, now := d.users[email], r.now;
    match r.body
    case VerifyEmail(csrf, code) =>
      if CsrfOk(d, r.cookie, now, csrf) then VerifyEmailPlan(env, d, now, email, code) else []
    case ResendCode(csrf, code, salt) =>
      if CsrfOk(d, r.cookie, now, csrf) then [IssueCode(Normal(email), "email_verify", code, salt, now)] else []
    case ShowVerifyEmail(inInbox, code, salt) =>
      if u.emailVerified || inInbox then [] else [IssueCode(Normal(email), "email_verify", code, salt, now)]
    case ChoosePassword(csrf, _, _, _) =>
      if CsrfOk(d, r.cookie, now, csrf) then ChoosePasswordPlan(env, u, email, r.body) else []
    case ShowSetupMfa(secret) => ShowSetupMfaPlan(u, email, secret)
    case SetupMfa(csrf, code) => if CsrfOk(d, r.cookie, now, csrf) then SetupMfaPlan(env, u, email, code, now) else []
    case ElectTier(csrf, _, _, _) => if CsrfOk(d, r.cookie, now, csrf) then ElectTierPlan(email, r.body) else []
    case Pay(csrf, _, _, _, _, _) => if CsrfOk(d, r.cookie, now, csrf) then PayPlan(u, email, r.body) else []
    case AssignRole(csrf, _, _) => if CsrfOk(d, r.cookie, now, csrf) then AssignRolePlan(d, email, r.body) else []
    case _ => []
  }

  function BodyPlan(env: Env, d: Data, r: Request): seq<Mutation>
  {
    var now := r.now;
    match r.body
    case SignUp(_, _, _, _, _, _) => SignUpPlan(env, d, now, r.body)
    case SignIn(_, _, _, _) => SignInPlan(env, d, now, r.body)
    case ShowMfa(challenge) => ExpiryPlan(d, challenge, now)
    case MfaEmail(_, _, _) => MfaEmailPlan(d, now, r.body)
    case Mfa(_, _, _, _, _) => MfaPlan(env, d, now, r.body)
    case GithubCallback(stateOk, email, token, csrf) =>
      if !stateOk || Normal(email) == "" then []
      else [UpsertGithub(Normal(email)), NewSession(token, Normal(email), csrf, now)]
    case LogOut(csrf) =>
      if SessionOf(d, r.cookie, now).Some? && CsrfOk(d, r.cookie, now, csrf) then
        [Mutation.EndSession(r.cookie)]
      else
        []
    case _ =>
      match AccountOf(d, r.cookie, now)
      case None => []
      case Some(email) => AccountPlan(env, d, r, email)
  }

  function Plan(env: Env, d: Data, r: Request): seq<Mutation>
  {
    LookupPlan(d, r.cookie, r.now) + BodyPlan(env, d, r)
  }

  function Respond(env: Env, d: Data, r: Request): Data
  {
    NextAll(env, d, Plan(env, d, r))
  }

  function Serve(env: Env, d: Data, rs: seq<Request>): Data
  {
    if rs == [] then d else Respond(env, Serve(env, d, rs[..|rs| - 1]), rs[|rs| - 1])
  }

  // ----- Guards: what a handler has read when it gives a closure to the store -----

  predicate IsLoginNote(entry: Audit)
  {
    entry.Login? || entry.LoginMfaRequired? || entry.LoginMfaOk?
  }

  // The part of a guard that any later store still satisfies.
  ghost predicate Licensed(d: Data, m: Mutation)
  {
    match m
    case CreateUser(email, _) => Normal(email) == email
    case UpsertGithub(email) => Normal(email) == email
    case BeginMfa(email, _) => email in d.users && d.users[email].emailVerified && d.users[email].password.Some?
    case ConfirmMfa(email, secret) =>
      email in d.users && Some(secret) in {d.users[email].mfaPending, d.users[email].mfaSecret}
    case Activate(email, membership, _) =>
      && GetTier(membership.tierId).Some? && GetTier(membership.tierId).value.id == membership.tierId
      && ValidCadence(membership.cadence)
      && membership.amount == Price(GetTier(membership.tierId).value, membership.cadence)
    case Assign(actor, _, role) => Can(d, actor, RolesAssign) && (role == Owner ==> RoleOf(d, actor) == Owner)
    case Note(entry) => IsLoginNote(entry)
    case _ => true
  }

  // The part that holds when the closure runs, with requests taken one at a time.
  ghost predicate Entitled(d: Data, m: Mutation)
  {
    && Licensed(d, m)
    && (m.Activate? ==>
          && m.email in d.users && d.users[m.email].election.Some?
          && Normal(d.users[m.email].election.value.tierId) == m.membership.tierId
          && ChargedCadence(d.users[m.email].election.value.cadence) == m.membership.cadence)
  }

  ghost predicate AllEntitled(env: Env, d: Data, ms: seq<Mutation>)
    decreases |ms|
  {
    ms == [] || (Entitled(d, ms[0]) && AllEntitled(env, Next(env, d, ms[0]), ms[1..]))
  }

  lemma TierIds(tierId: string)
    requires GetTier(tierId).Some?
    ensures GetTier(tierId).value.id == Normal(tierId)
    ensures GetTier(GetTier(tierId).value.id) == GetTier(tierId)
  {
    NormalNames();
  }

  lemma NormalNames()
    ensures Normal("starter") == "starter" && Normal("professional") == "professional"
    ensures Normal("firm") == "firm" && Normal("enterprise") == "enterprise"
  {
  }

  lemma LookupEntitled(env: Env, d: Data, r: Request)
    ensures AllEntitled(env, d, LookupPlan(d, r.cookie, r.now))
    ensures NextAll(env, d, LookupPlan(d, r.cookie, r.now)).users == d.users
  {
    var ms := LookupPlan(d, r.cookie, r.now);
    if ms != [] {
      assert ms[1..] == [];
    }
  }

  lemma {:induction false} AllEntitledConcat(env: Env, d: Data, ms: seq<Mutation>, ns: seq<Mutation>)
    requires AllEntitled(env, d, ms) && AllEntitled(env, NextAll(env, d, ms), ns)
    ensures AllEntitled(env, d, ms + ns)
    decreases |ms|
  {
    hide Next, Entitled;
    if ms == [] {
      assert ms + ns == ns;
    } else {
      assert (ms + ns)[1..] == ms[1..] + ns;
      AllEntitledConcat(env, Next(env, d, ms[0]), ms[1..], ns);
    }
  }

  // Closures that no guard restricts.
  predicate Free(m: Mutation)
  {
    !m.CreateUser? && !m.UpsertGithub? && !m.BeginMfa? && !m.ConfirmMfa? && !m.Activate? && !m.Assign?
      && (m.Note? ==> IsLoginNote(m.entry))
  }

  lemma {:induction false} FreeEntitled(env: Env, d: Data, ms: seq<Mutation>)
    requires forall i :: 0 <= i < |ms| ==> Free(ms[i])
    ensures AllEntitled(env, d, ms)
    decreases |ms|
  {
    hide Next;
    if ms != [] {
      FreeEntitled(env, Next(env, d, ms[0]), ms[1..]);
    }
  }

  lemma FirstEntitled(env: Env, d: Data, ms: seq<Mutation>)
    requires ms != [] && Entitled(d, ms[0]) && forall i :: 1 <= i < |ms| ==> Free(ms[i])
    ensures AllEntitled(env, d, ms)
  {
    FreeEntitled(env, Next(env, d, ms[0]), ms[1..]);
  }

  lemma PayEntitled(env: Env, d: Data, d1: Data, email: string, b: Body)
    requires b.Pay? && email in d.users && d1.users == d.users
    ensures AllEntitled(env, d1, PayPlan(d.users[email], email, b))
  {
    hide Normal;
    var ms := PayPlan(d.users[email], email, b);
    if ms != [] {
      TierIds(d.users[email].election.value.tierId);
      FirstEntitled(env, d1, ms);
    }
  }

  lemma AccountEntitled(env: Env, d: Data, d1: Data, r: Request, email: string)
    requires email in d.users && d1.users == d.users
    ensures AllEntitled(env, d1, AccountPlan(env, d, r, email))
  {
    hide Normal, CsrfOk, CodeOk;
    var ms := AccountPlan(env, d, r, email);
    if r.body.Pay? {
      PayEntitled(env, d, d1, email, r.body);
    } else if r.body.ShowSetupMfa? || r.body.SetupMfa? || r.body.AssignRole? {
      if ms != [] {
        FirstEntitled(env, d1, ms);
      }
    } else {
      FreeEntitled(env, d1, ms);
    }
  }

  // Every closure a handler gives to the store is one its account is entitled to when it runs.
  lemma PlanEntitled(env: Env, d: Data, r: Request)
    ensures AllEntitled(env, d, Plan(env, d, r))
  {
    LookupEntitled(env, d, r);
    var d1 := NextAll(env, d, LookupPlan(d, r.cookie, r.now));
    hide LookupPlan, Normal, CodeOk, ChallengeOf, FactorOk, SessionOf, CsrfOk, AllEntitled, NextAll;
    if r.body.SignUp? || r.body.GithubCallback? {
      NormalTwice(r.body.email);
      if BodyPlan(env, d, r) != [] {
        FirstEntitled(env, d1, BodyPlan(env, d, r));
      } else {
        FreeEntitled(env, d1, []);
      }
    } else if r.body.SignIn? || r.body.ShowMfa? || r.body.MfaEmail? || r.body.Mfa? || r.body.LogOut? {
      FreeEntitled(env, d1, BodyPlan(env, d, r));
    } else {
      var account := AccountOf(d, r.cookie, r.now);
      if account.Some? {
        hide AccountPlan;
        AccountEntitled(env, d, d1, r, account.value);
      } else {
        FreeEntitled(env, d1, []);
      }
    }
    AllEntitledConcat(env, d, LookupPlan(d, r.cookie, r.now), BodyPlan(env, d, r));
  }
}
