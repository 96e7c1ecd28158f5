// Requests answered at the same time. A handler reads the store several times, other requests
// write in between, and each of its closures runs later still.
module Concurrency {
  import opened Guarantees
  import opened Outcomes
  import opened Platform
  import opened Roles
  import opened Store
  import opened Text
  import Histories
  import Ledger

  // ----- What a handler gives the store when its reads are apart -----

  // The stores read for the session, for the profile, and by the service that is called.
  datatype Reads = Reads(session: Data, profile: Data, first: Data, second: Data, third: Data)

  function AccountRead(x: Reads, cookie: Token, now: real): Option<string>
  {
    var s := SessionOf(x.session, cookie, now);
    if s.Some? && s.value.email in x.profile.users then Some(s.value.email) else None
  }

  // The profile, with what the service reads of the account later.
  function Merged(x: Reads, email: string): User
    requires email in x.profile.users
  {
    var u := x.profile.users[email];
    if email in x.first.users then
      var v := x.first.users[email];
      u.(mfaSecret := v.mfaSecret, mfaPending := v.mfaPending, election := v.election)
    else
      u.(mfaSecret := None, mfaPending := None, election := None)
  }

  function ScatteredMfaPlan(env: Env, x: Reads, now: real, b: Body): seq<Mutation>
    requires b.Mfa?
  {
    match ChallengeOf(x.first, b.challenge, now)
    case None => ExpiryPlan(x.first, b.challenge, now)
    case Some(c) =>
      (if b.byEmail then [TryCode(Normal(c.email), "login_mfa", b.code, now)] else [])
      + if FactorOk(env, x.second, c.email, b, now) then
          match ChallengeOf(x.third, b.challenge, now)
          case None => ExpiryPlan(x.third, b.challenge, now)
          case Some(c') =>
            [EndChallenge(b.challenge), NewSession(b.token, c'.email, b.csrf, now), Note(LoginMfaOk(c'.email))]
        else []
  }

  function ScatteredAssignPlan(x: Reads, actor: string, b: Body): seq<Mutation>
    requires b.AssignRole?
  {
    var role := ParseRole(b.role);
    if !Can(x.first, actor, RolesAssign) || !Can(x.second, actor, RolesAssign) then []
    else if role == Owner && RoleOf(x.third, actor) != Owner then []
    else [Assign(actor, b.email, role)]
  }

  function ScatteredAccountPlan(env: Env, x: Reads, r: Request, email: string): seq<Mutation>
    requires email in x.profile.users
  {
    var u, b, now := x.profile.users[email], r.body, r.now;
    match b
    case ShowVerifyEmail(inInbox, code, salt) =>
      if u.emailVerified || inInbox then [] else [IssueCode(Normal(email), "email_verify", code, salt, now)]
    case ShowSetupMfa(secret) => ShowSetupMfaPlan(Merged(x, email), email, secret)
    case VerifyEmail(csrf, code) =>
      if CsrfOk(x.session, r.cookie, now, csrf) then VerifyEmailPlan(env, x.first, now, email, code) else []
    case ResendCode(csrf, code, salt) =>
      if CsrfOk(x.session, r.cookie, now, csrf) then [IssueCode(Normal(email), "email_verify", code, salt, now)] else []
    case ChoosePassword(csrf, _, _, _) =>
      if CsrfOk(x.session, r.cookie, now, csrf) then ChoosePasswordPlan(env, u, email, b) else []
    case SetupMfa(csrf, code) =>
      if CsrfOk(x.session, r.cookie, now, csrf) then SetupMfaPlan(env, Merged(x, email), email, code, now) else []
    case ElectTier(csrf, _, _, _) =>
      if CsrfOk(x.session, r.cookie, now, csrf) then ElectTierPlan(email, b) else []
    case Pay(csrf, _, _, _, _, _) =>
      if CsrfOk(x.session, r.cookie, now, csrf) then PayPlan(Merged(x, email), email, b) else []
    case AssignRole(csrf, _, _) =>
      if CsrfOk(x.session, r.cookie, now, csrf) then ScatteredAssignPlan(x, email, b) else []
    case _ => []
  }

  function ScatteredBodyPlan(env: Env, x: Reads, r: Request): seq<Mutation>
  {
    var b, now := r.body, r.now;
    match b
    case SignUp(_, _, _, _, _, _) => SignUpPlan(env, x.first, now, b)
    case SignIn(_, _, _, _) => SignInPlan(env, x.first, now, b)
    case ShowMfa(challenge) => ExpiryPlan(x.first, challenge, now)
    case MfaEmail(_, _, _) => MfaEmailPlan(x.first, now, b)
    case Mfa(_, _, _, _, _) => ScatteredMfaPlan(env, x, now, b)
    case GithubCallback(_, _, _, _) => BodyPlan(env, x.first, r)
    case LogOut(_) => BodyPlan(env, x.session, r)
    case _ =>
      match AccountRead(x, r.cookie, now)
      case None => []
      case Some(email) => ScatteredAccountPlan(env, x, r, email)
  }

  function ScatteredPlan(env: Env, x: Reads, r: Request): seq<Mutation>
  {
    LookupPlan(x.session, r.cookie, r.now) + ScatteredBodyPlan(env, x, r)
  }

  // With nobody writing in between, this is the request's plan.
  lemma ReadsAgree(env: Env, d: Data, r: Request)
    ensures ScatteredPlan(env, Reads(d, d, d, d, d), r) == Plan(env, d, r)
  {
    hide Normal, SessionOf, CsrfOk, FactorOk, ParseRole, LookupPlan, CodeOk;
    var account := AccountOf(d, r.cookie, r.now);
    if account.Some? {
      MergedSame(d, account.value);
      if r.body.AssignRole? {
        AssignAgrees(d, account.value, r.body);
      }
    }
  }

  lemma MergedSame(d: Data, email: string)
    requires email in d.users
    ensures Merged(Reads(d, d, d, d, d), email) == d.users[email]
  {
  }

  lemma AssignAgrees(d: Data, actor: string, b: Body)
    requires b.AssignRole?
    ensures ScatteredAssignPlan(Reads(d, d, d, d, d), actor, b) == AssignRolePlan(d, actor, b)
  {
  }

  // ----- Every closure has its licence from one of the reads -----

  ghost predicate LicensedByReads(x: Reads, m: Mutation)
  {
    Licensed(x.session, m) || Licensed(x.profile, m) || Licensed(x.first, m) || Licensed(x.third, m)
  }

  lemma FreeLicensed(d: Data, m: Mutation)
    requires Free(m)
    ensures Licensed(d, m)
  {
  }

  lemma PayLicensed(d: Data, u: User, email: string, b: Body, m: Mutation)
    requires b.Pay? && m in PayPlan(u, email, b)
    ensures Licensed(d, m)
  {
    hide Normal;
    if u.election.Some? && GetTier(u.election.value.tierId).Some? {
      TierIds(u.election.value.tierId);
    }
  }

  lemma AssignLicensed(x: Reads, actor: string, b: Body, m: Mutation)
    requires b.AssignRole? && m in ScatteredAssignPlan(x, actor, b)
    ensures LicensedByReads(x, m)
  {
    hide Normal;
    if ParseRole(b.role) == Owner {
      WhoAssigns(Owner);
    }
  }

  lemma SetupLicensed(env: Env, x: Reads, r: Request, email: string, m: Mutation)
    requires email in x.profile.users && m in ScatteredAccountPlan(env, x, r, email)
    requires r.body.ShowSetupMfa? || r.body.SetupMfa?
    ensures LicensedByReads(x, m)
  {
    hide CsrfOk;
  }

  lemma AccountLicensed(env: Env, x: Reads, r: Request, email: string, m: Mutation)
    requires email in x.profile.users && m in ScatteredAccountPlan(env, x, r, email)
    ensures LicensedByReads(x, m)
  {
    hide Normal, CsrfOk, CodeOk, Licensed, Merged, ShowSetupMfaPlan, SetupMfaPlan, PayPlan, ScatteredAssignPlan;
    if r.body.Pay? {
      PayLicensed(x.first, Merged(x, email), email, r.body, m);
    } else if r.body.AssignRole? {
      AssignLicensed(x, email, r.body, m);
    } else if r.body.ShowSetupMfa? || r.body.SetupMfa? {
      SetupLicensed(env, x, r, email, m);
    } else {
      FreeLicensed(x.first, m);
    }
  }

  lemma CreatingLicensed(env: Env, x: Reads, r: Request, m: Mutation)
    requires r.body.SignUp? || r.body.GithubCallback?
    requires m in ScatteredBodyPlan(env, x, r)
    ensures LicensedByReads(x, m)
  {
    NormalTwice(r.body.email);
    hide Normal, ValidEmail, ValidPassword, Licensed;
    if m.CreateUser? || m.UpsertGithub? {
      CreationLicensed(x.first, m);
    } else {
      FreeLicensed(x.first, m);
    }
  }

  lemma SigningLicensed(env: Env, x: Reads, r: Request, m: Mutation)
    requires r.body.SignIn? || r.body.ShowMfa? || r.body.MfaEmail? || r.body.Mfa? || r.body.LogOut?
    requires m in ScatteredBodyPlan(env, x, r)
    ensures LicensedByReads(x, m)
  {
    hide ScatteredBodyPlan, Licensed;
    if r.body.Mfa? {
      AnsweringFree(env, x, r, m);
    } else {
      SigningFree(env, x, r, m);
    }
    FreeLicensed(x.first, m);
  }

  lemma SigningFree(env: Env, x: Reads, r: Request, m: Mutation)
    requires r.body.SignIn? || r.body.ShowMfa? || r.body.MfaEmail? || r.body.LogOut?
    requires m in ScatteredBodyPlan(env, x, r)
    ensures Free(m) && !m.SetPassword? && !m.MarkVerified?
  {
    hide Normal, ChallengeOf, SessionOf, CsrfOk, PasswordOk;
  }

  lemma AnsweringFree(env: Env, x: Reads, r: Request, m: Mutation)
    requires r.body.Mfa? && m in ScatteredBodyPlan(env, x, r)
    ensures Free(m) && !m.SetPassword? && !m.MarkVerified?
  {
    hide ScatteredMfaPlan;
    AnsweringKinds(env, x, r.now, r.body, m);
  }

  lemma AnsweringKinds(env: Env, x: Reads, now: real, b: Body, m: Mutation)
    requires b.Mfa? && m in ScatteredMfaPlan(env, x, now, b)
    ensures m.EndChallenge? || m.TryCode? || m.NewSession? || (m.Note? && m.entry.LoginMfaOk?)
  {
    hide Normal, ChallengeOf, FactorOk, ExpiryPlan;
    ExpiryEnds(x.first, b.challenge, now, m);
    ExpiryEnds(x.third, b.challenge, now, m);
  }

  lemma ExpiryEnds(d: Data, token: Token, now: real, m: Mutation)
    ensures m in ExpiryPlan(d, token, now) ==> m.EndChallenge?
  {
    hide ChallengeOf;
  }

  lemma PlanLicensed(env: Env, x: Reads, r: Request, m: Mutation)
    requires m in ScatteredPlan(env, x, r)
    ensures LicensedByReads(x, m)
  {
    hide SessionOf, Licensed, ScatteredAccountPlan, ScatteredBodyPlan, LicensedByReads;
    if m in LookupPlan(x.session, r.cookie, r.now) {
      LookupLicensed(x, r, m);
    } else if r.body.SignUp? || r.body.GithubCallback? {
      CreatingLicensed(env, x, r, m);
    } else if r.body.SignIn? || r.body.ShowMfa? || r.body.MfaEmail? || r.body.Mfa? || r.body.LogOut? {
      SigningLicensed(env, x, r, m);
    } else {
      var email := AccountGives(env, x, r, m);
      AccountLicensed(env, x, r, email, m);
    }
  }

  lemma AccountGives(env: Env, x: Reads, r: Request, m: Mutation) returns (email: string)
    requires m in ScatteredBodyPlan(env, x, r)
    requires !(r.body.SignUp? || r.body.GithubCallback?)
    requires !(r.body.SignIn? || r.body.ShowMfa? || r.body.MfaEmail? || r.body.Mfa? || r.body.LogOut?)
    ensures email in x.profile.users && m in ScatteredAccountPlan(env, x, r, email)
  {
    hide SessionOf, ScatteredAccountPlan;
    email := AccountRead(x, r.cookie, r.now).value;
  }

  lemma LookupLicensed(x: Reads, r: Request, m: Mutation)
    requires m in LookupPlan(x.session, r.cookie, r.now)
    ensures LicensedByReads(x, m)
  {
    hide Licensed;
    FreeLicensed(x.first, m);
  }

  lemma CreationLicensed(d: Data, m: Mutation)
    requires (m.CreateUser? || m.UpsertGithub?) && Normal(m.email) == m.email
    ensures Licensed(d, m)
  {
    hide Normal;
  }

  // ----- Concurrent runs -----

  // The handler of request r gave the closure, having read the store at these earlier times.
  ghost predicate GivenBy(env: Env, states: seq<Data>, i: nat, m: Mutation, r: Request, at: seq<nat>)
    requires i < |states|
  {
    && |at| == 5 && (forall k :: 0 <= k < 5 ==> at[k] <= i)
    && m in ScatteredPlan(env, ReadAt(states, at), r)
  }

  ghost function ReadAt(states: seq<Data>, at: seq<nat>): Reads
    requires |at| == 5 && forall k :: 0 <= k < 5 ==> at[k] < |states|
  {
    Reads(states[at[0]], states[at[1]], states[at[2]], states[at[3]], states[at[4]])
  }

  ghost predicate Given(env: Env, states: seq<Data>, i: nat, m: Mutation)
    requires i < |states|
  {
    exists r, at :: GivenBy(env, states, i, m, r, at)
  }

  // The store after each closure, where every closure comes from the handler of some request
  // and everything that handler read was there at the time or before.
  ghost predicate Concurrent(env: Env, states: seq<Data>, ms: seq<Mutation>)
  {
    && |states| == |ms| + 1
    && forall i :: 0 <= i < |ms| ==> states[i + 1] == Next(env, states[i], ms[i]) && Given(env, states, i, ms[i])
  }

  lemma GivenLicensed(env: Env, states: seq<Data>, i: nat, m: Mutation)
    requires i < |states| && Given(env, states, i, m)
    ensures LicensedBefore(states, i, m)
  {
    hide ScatteredPlan, Licensed;
    var r, at :| GivenBy(env, states, i, m, r, at);
    PlanLicensed(env, ReadAt(states, at), r, m);
    var k := if Licensed(states[at[0]], m) then at[0] else if Licensed(states[at[1]], m) then at[1]
      else if Licensed(states[at[2]], m) then at[2] else at[4];
    assert 0 <= k <= i && Licensed(states[k], m);
  }

  lemma ConcurrentIsRaced(env: Env, states: seq<Data>, ms: seq<Mutation>)
    requires Concurrent(env, states, ms)
    ensures Raced(env, states, ms)
  {
    hide Next, Given, LicensedBefore;
    forall i | 0 <= i < |ms| ensures states[i + 1] == Next(env, states[i], ms[i]) && LicensedBefore(states, i, ms[i]) {
      GivenLicensed(env, states, i, ms[i]);
    }
  }

  // ----- What concurrent requests keep -----

  // From a store in order: second factors, keys and the ledger stay in order, no account's
  // stage of onboarding moves back, and the log replays the roles.
  lemma ConcurrentRunsAreSafe(env: Env, states: seq<Data>, ms: seq<Mutation>, i: nat, j: nat, email: string)
    requires Concurrent(env, states, ms) && i <= j < |states|
    requires Safe(states[0]) && NormalKeys(states[0]) && Ledger.Balanced(states[0])
    ensures Safe(states[j]) && NormalKeys(states[j]) && Ledger.Balanced(states[j])
    ensures Stage(UserAt(states[i], email)) <= Stage(UserAt(states[j], email))
    ensures Replays(states[0], states[j])
  {
    hide Given, LicensedBefore, Next, Safe, NormalKeys, Ledger.Balanced, Replays;
    ConcurrentIsRaced(env, states, ms);
    OnboardingUnderRaces(env, states, ms, i, j, email);
    RacedNormal(env, states, ms, j);
    Ledger.LedgerUnderRaces(env, states, ms, j);
    AuditReplaysRoles(env, states, ms, j);
  }

  // From the empty store moreover every account stays an operator.
  lemma ConcurrentFromEmpty(env: Env, states: seq<Data>, ms: seq<Mutation>, j: nat)
    requires Concurrent(env, states, ms) && states[0] == EMPTY && j < |states|
    ensures var d := states[j];
      && Safe(d) && NormalKeys(d) && Ledger.Balanced(d)
      && RolesOf(d) == Replay(map[], d.audit) && Justified(map[], d.audit)
      && forall email :: email in d.users ==> d.users[email].role == Operator
  {
    hide Given, LicensedBefore, Next, Safe, NormalKeys, Ledger.Balanced, Justified;
    Histories.SafeAndBalancedAtFirst();
    ConcurrentRunsAreSafe(env, states, ms, j, j, "");
    ConcurrentIsRaced(env, states, ms);
    NoEscalation(env, states, ms, j);
    JustifiedFromOperators(env, states, ms, j);
    assert Since(EMPTY, states[j]) == states[j].audit && RolesOf(EMPTY) == map[];
  }

  // ----- The race that writes an unjustified assignment -----

  lemma ViewerAndAdmin()
    ensures ParseRole("viewer") == Viewer && ParseRole("admin") == Admin
  {
    RoleNames("viewer");
    RoleNames("admin");
  }

  predicate Assigns(d: Data, r: Request, actor: string, target: string, role: string)
  {
    && AccountOf(d, r.cookie, r.now) == Some(actor)
    && r.body.AssignRole? && CsrfOk(d, r.cookie, r.now, r.body.csrf)
    && r.body.email == target && r.body.role == role
  }

  lemma AssignGiven(d: Data, env: Env, r: Request, actor: string, target: string, role: string)
    requires Assigns(d, r, actor, target, role) && Can(d, actor, RolesAssign) && ParseRole(role) != Owner
    ensures Assign(actor, target, ParseRole(role)) in ScatteredPlan(env, Reads(d, d, d, d, d), r)
  {
    hide SessionOf, CsrfOk, ParseRole, LookupPlan;
  }

  // Two requests on a store with an owner and an administrator, both decided on that store:
  // the owner demotes the administrator, whose own assignment is then written all the same.
  lemma StaleAssignmentServed(env: Env, d: Data, r: Request, r': Request)
    requires d.audit == [] && {"o", "a", "t"} <= d.users.Keys
    requires d.users["o"].role == Owner && d.users["a"].role == Admin && d.users["t"].role == Operator
    requires Assigns(d, r, "o", "a", "viewer") && Assigns(d, r', "a", "t", "admin")
    ensures var ms := [Assign("o", "a", Viewer), Assign("a", "t", Admin)];
      var states := [d, Next(env, d, ms[0]), NextAll(env, d, ms)];
      Concurrent(env, states, ms) && Unjustified(d, states[2])
  {
    ViewerAndAdmin();
    StaleAssignment(env, d);
    WhoAssigns(Owner);
    WhoAssigns(Admin);
    hide Next, ScatteredPlan, Assigns, Permissions, ParseRole, Given, Unjustified;
    AssignGiven(d, env, r, "o", "a", "viewer");
    AssignGiven(d, env, r', "a", "t", "admin");
    var ms := [Assign("o", "a", Viewer), Assign("a", "t", Admin)];
    var states := [d, Next(env, d, ms[0]), NextAll(env, d, ms)];
    GivenAtFirst(env, states, 0, ms[0], r);
    GivenAtFirst(env, states, 1, ms[1], r');
  }

  lemma GivenAtFirst(env: Env, states: seq<Data>, i: nat, m: Mutation, r: Request)
    requires i < |states|
    requires m in ScatteredPlan(env, Reads(states[0], states[0], states[0], states[0], states[0]), r)
    ensures Given(env, states, i, m)
  {
    hide ScatteredPlan;
    assert GivenBy(env, states, i, m, r, [0, 0, 0, 0, 0]);
  }
}
