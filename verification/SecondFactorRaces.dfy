// The second factor when requests are answered at the same time: what every session still
// needs, and what is lost.
module SecondFactorRaces {
  import opened Concurrency
  import opened Guarantees
  import opened Outcomes
  import opened Platform
  import opened SecondFactor
  import opened Store
  import opened Text
  import Sessions

  // ----- Who signs in when reads are apart -----

  predicate ScatteredCredentials(env: Env, x: Reads, r: Request, email: string)
  {
    match r.body
    case SignUp(e, _, _, _, _, _) => email == Normal(e) && email !in x.first.users
    case SignIn(e, password, _, _) =>
      && email == Normal(e) && PasswordOk(env, x.first, email, password)
      && !(x.first.users[email].mfaEnabled && x.first.users[email].mfaSecret.Some?)
    case Mfa(token, _, _, _, _) =>
      && ChallengeOf(x.third, token, r.now).Some? && ChallengeOf(x.third, token, r.now).value.email == email
      && ChallengeOf(x.first, token, r.now).Some?
      && FactorOk(env, x.second, ChallengeOf(x.first, token, r.now).value.email, r.body, r.now)
    case GithubCallback(stateOk, e, _, _) => stateOk && email == Normal(e)
    case _ => false
  }

  lemma AccountScatteredSignsNobodyIn(env: Env, x: Reads, r: Request, email: string)
    requires email in x.profile.users
    ensures forall m :: m in ScatteredAccountPlan(env, x, r, email) ==> !m.NewChallenge? && !m.NewSession?
  {
    hide Normal, CodeOk, CsrfOk, GetTier, Merged;
  }

  lemma ScatteredParts(env: Env, x: Reads, r: Request, m: Mutation)
    requires m in ScatteredPlan(env, x, r) && (m.NewChallenge? || m.NewSession?)
    ensures m in ScatteredBodyPlan(env, x, r)
    ensures r.body.SignUp? || r.body.SignIn? || r.body.Mfa? || r.body.GithubCallback?
  {
    hide Normal, CodeOk, ChallengeOf, FactorOk, SessionOf, CsrfOk, PasswordOk, AccountRead, ScatteredAccountPlan;
    if m in LookupPlan(x.session, r.cookie, r.now) {
      assert false;
    }
    var account := AccountRead(x, r.cookie, r.now);
    if account.Some? {
      AccountReadExists(x, r.cookie, r.now);
      AccountScatteredSignsNobodyIn(env, x, r, account.value);
    }
  }

  lemma AccountReadExists(x: Reads, cookie: Token, now: real)
    ensures AccountRead(x, cookie, now).Some? ==> AccountRead(x, cookie, now).value in x.profile.users
  {
  }

  // Every session has one of the four credentials, each in the store as it was read.
  lemma WhoSignsInScattered(env: Env, x: Reads, r: Request, m: Mutation)
    requires m in ScatteredPlan(env, x, r) && m.NewSession?
    ensures ScatteredCredentials(env, x, r, m.email)
  {
    hide Normal, CodeOk, ChallengeOf, FactorOk, PasswordOk, ValidEmail, ValidPassword, ScatteredPlan;
    ScatteredParts(env, x, r, m);
  }

  lemma OnlySignInOpensScattered(env: Env, x: Reads, r: Request, m: Mutation)
    requires m in ScatteredPlan(env, x, r) && m.NewChallenge?
    ensures Opens(env, x.first, r, m.token, m.email) && m.now == r.now
  {
    hide Normal, CodeOk, ChallengeOf, FactorOk, PasswordOk, ValidEmail, ValidPassword, ScatteredPlan;
    ScatteredParts(env, x, r, m);
  }

  // ----- Where a challenge comes from -----

  lemma {:induction false} ChallengeOrigin(env: Env, states: seq<Data>, ms: seq<Mutation>, j: nat, token: Token)
    returns (k: nat)
    requires Concurrent(env, states, ms) && states[0].challenges == map[]
    requires j < |states| && token in states[j].challenges
    ensures k < j && ms[k].NewChallenge? && ms[k].token == token
    ensures states[j].challenges[token] == Challenge(ms[k].email, ms[k].now + 600.0)
    decreases j
  {
    hide Next, Given;
    var d, m := states[j - 1], ms[j - 1];
    if m.NewChallenge? && m.token == token {
      k := j - 1;
      ChallengeStored(env, d, m);
    } else {
      ChallengeStep(env, d, m, token);
      k := ChallengeOrigin(env, states, ms, j - 1, token);
    }
  }

  lemma ChallengeStored(env: Env, d: Data, m: Mutation)
    requires m.NewChallenge?
    ensures m.token in Next(env, d, m).challenges
    ensures Next(env, d, m).challenges[m.token] == Challenge(m.email, m.now + 600.0)
  {
  }

  predicate SameToken(m: Mutation, n: Mutation)
  {
    m.NewChallenge? && n.NewChallenge? && m.token == n.token
  }

  // Random tokens are drawn once.
  ghost predicate FreshTokens(ms: seq<Mutation>)
  {
    forall k, l :: 0 <= k < |ms| && 0 <= l < |ms| && SameToken(ms[k], ms[l]) ==> k == l
  }

  lemma LiveChallenge(d: Data, token: Token, now: real)
    requires ChallengeOf(d, token, now).Some?
    ensures token in d.challenges && ChallengeOf(d, token, now) == Some(d.challenges[token])
    ensures now <= d.challenges[token].expires
  {
  }

  // The closure at k opened the challenge, for a sign-in that had read the account's password.
  ghost predicate OpenedAt(
    env: Env, states: seq<Data>, ms: seq<Mutation>, k: nat, p: nat, r: Request, token: Token, email: string)
  {
    && k < |ms| && p <= k && k < |states|
    && ms[k] == NewChallenge(token, email, r.now) && Opens(env, states[p], r, token, email)
  }

  lemma OpenedBySignIn(env: Env, states: seq<Data>, ms: seq<Mutation>, k: nat) returns (p: nat, r: Request)
    requires Concurrent(env, states, ms) && k < |ms| && ms[k].NewChallenge?
    ensures OpenedAt(env, states, ms, k, p, r, ms[k].token, ms[k].email)
  {
    hide ScatteredPlan, Next, Opens;
    assert Given(env, states, k, ms[k]);
    var r', at :| GivenBy(env, states, k, ms[k], r', at);
    OnlySignInOpensScattered(env, ReadAt(states, at), r', ms[k]);
    p, r := at[2], r';
  }

  lemma PasswordStays(env: Env, states: seq<Data>, ms: seq<Mutation>, p: nat, i: nat, email: string, password: string)
    requires Concurrent(env, states, ms) && p <= i < |states| && PasswordOk(env, states[p], email, password)
    ensures PasswordOk(env, states[i], email, password)
  {
    hide Next, Given, LicensedBefore;
    ConcurrentIsRaced(env, states, ms);
    RacedOnward(env, states, ms, p, i);
    assert UserOnward(states[p].users[email], states[i].users[email]);
  }

  // ----- What survives races -----

  // A session by a second factor still needs a challenge which a sign-in with the account's
  // password opened at most ten minutes before, and a correct factor of that account as the
  // request read it. The password is still the account's when the session is created.
  lemma SecondFactorUnderRaces(
    env: Env, states: seq<Data>, ms: seq<Mutation>, i: nat, r: Request, at: seq<nat>)
    returns (k: nat, p: nat, r': Request)
    requires Concurrent(env, states, ms) && states[0].challenges == map[] && FreshTokens(ms)
    requires i < |ms| && GivenBy(env, states, i, ms[i], r, at) && ms[i].NewSession? && r.body.Mfa?
    ensures k < i && OpenedAt(env, states, ms, k, p, r', r.body.challenge, ms[i].email)
    ensures PasswordOk(env, states[i], ms[i].email, r'.body.password) && r.now <= r'.now + 600.0
    ensures FactorOk(env, states[at[3]], ms[i].email, r.body, r.now)
  {
    hide ScatteredPlan, Next, Given, FactorOk, PasswordOk, ChallengeOf, FreshTokens;
    var token := r.body.challenge;
    WhoSignsInScattered(env, ReadAt(states, at), r, ms[i]);
    LiveChallenge(states[at[2]], token, r.now);
    LiveChallenge(states[at[4]], token, r.now);
    k := ChallengeOrigin(env, states, ms, at[2], token);
    var l := ChallengeOrigin(env, states, ms, at[4], token);
    SameOpening(ms, k, l);
    p, r' := OpenedBySignIn(env, states, ms, k);
    PasswordStays(env, states, ms, p, i, ms[i].email, r'.body.password);
  }

  lemma SameOpening(ms: seq<Mutation>, k: nat, l: nat)
    requires FreshTokens(ms) && k < |ms| && l < |ms| && ms[k].NewChallenge? && ms[l].NewChallenge?
    requires ms[k].token == ms[l].token
    ensures k == l
  {
  }

  // ----- What is lost -----

  // A correct answer by authenticator. A mailed code is checked and used up in one closure.
  predicate Answers(env: Env, d: Data, r: Request, challenge: Token, email: string)
  {
    && r.body.Mfa? && !r.body.byEmail && r.body.challenge == challenge && challenge != "" && r.body.token != ""
    && ChallengeOf(d, challenge, r.now).Some? && ChallengeOf(d, challenge, r.now).value.email == email
    && FactorOk(env, d, email, r.body, r.now)
  }

  lemma AnswerGives(env: Env, d: Data, r: Request, challenge: Token, email: string)
    requires Answers(env, d, r, challenge, email)
    ensures EndChallenge(challenge) in ScatteredPlan(env, Reads(d, d, d, d, d), r)
    ensures SessionFor(r, email) in ScatteredPlan(env, Reads(d, d, d, d, d), r)
  {
    ReadsAgree(env, d, r);
    hide ScatteredPlan, FactorOk, ChallengeOf, LookupPlan, Normal;
    InPlan(env, d, r, EndChallenge(challenge));
    InPlan(env, d, r, NewSession(r.body.token, email, r.body.csrf, r.now));
  }

  lemma BothStored(env: Env, d: Data, c: Token, m: Mutation, m': Mutation)
    requires m.NewSession? && m'.NewSession? && m.token != m'.token && m'.now <= m.now + 43200.0
    ensures var s := Next(env, Next(env, Next(env, Next(env, d, EndChallenge(c)), m), EndChallenge(c)), m').sessions;
      && m.token in s && s[m.token] == Sessions.Session(m.email, m.csrf, m.now + 43200.0)
      && m'.token in s && s[m'.token] == Sessions.Session(m'.email, m'.csrf, m'.now + 43200.0)
  {
  }

  function AfterFour(env: Env, d: Data, ms: seq<Mutation>): Data
    requires |ms| == 4
  {
    Next(env, Next(env, Next(env, Next(env, d, ms[0]), ms[1]), ms[2]), ms[3])
  }

  // Two handlers that have read the same store, each giving two closures.
  lemma TwoByTwo(env: Env, d: Data, r: Request, r': Request, ms: seq<Mutation>) returns (states: seq<Data>)
    requires |ms| == 4
    requires ms[0] in ScatteredPlan(env, Reads(d, d, d, d, d), r)
    requires ms[1] in ScatteredPlan(env, Reads(d, d, d, d, d), r)
    requires ms[2] in ScatteredPlan(env, Reads(d, d, d, d, d), r')
    requires ms[3] in ScatteredPlan(env, Reads(d, d, d, d, d), r')
    ensures Concurrent(env, states, ms) && states[0] == d
    ensures states[4] == AfterFour(env, d, ms)
  {
    hide Next, ScatteredPlan, Given;
    var d1 := Next(env, d, ms[0]);
    var d2 := Next(env, d1, ms[1]);
    var d3 := Next(env, d2, ms[2]);
    states := [d, d1, d2, d3, Next(env, d3, ms[3])];
    GivenAtFirst(env, states, 0, ms[0], r);
    GivenAtFirst(env, states, 1, ms[1], r);
    GivenAtFirst(env, states, 2, ms[2], r');
    GivenAtFirst(env, states, 3, ms[3], r');
  }

  lemma InForce(d: Data, token: Token, session: Sessions.Session, now: real)
    requires token != "" && token in d.sessions && d.sessions[token] == session && now < session.expires
    ensures SessionOf(d, token, now) == Some(session)
  {
  }

  // What the two requests have stored at the end.
  ghost predicate BothInForce(d: Data, r: Request, r': Request, email: string, now: real)
    requires r.body.Mfa? && r'.body.Mfa?
  {
    && SessionOf(d, r.body.token, now) == Some(Sessions.Session(email, r.body.csrf, r.now + 43200.0))
    && SessionOf(d, r'.body.token, now) == Some(Sessions.Session(email, r'.body.csrf, r'.now + 43200.0))
  }

  // One challenge can give two sessions: two requests read it, each with a correct answer by
  // authenticator, before either has used it up.
  lemma TwoSessions(env: Env, d: Data, r: Request, r': Request, challenge: Token, email: string, now: real)
    returns (states: seq<Data>, ms: seq<Mutation>)
    requires Answers(env, d, r, challenge, email) && Answers(env, d, r', challenge, email)
    requires r.body.token != r'.body.token && r'.now <= r.now + 43200.0
    requires now < r.now + 43200.0 && now < r'.now + 43200.0
    ensures Concurrent(env, states, ms) && states[0] == d && |ms| == 4
    ensures BothInForce(states[4], r, r', email, now)
  {
    hide ScatteredPlan, Concurrent, AfterFour, BothInForce;
    AnswerGives(env, d, r, challenge, email);
    AnswerGives(env, d, r', challenge, email);
    AnswerTokens(env, d, r, challenge, email);
    AnswerTokens(env, d, r', challenge, email);
    hide Answers;
    ms := Answering(challenge, r, r', email);
    states := TwoByTwo(env, d, r, r', ms);
    SessionsAtEnd(env, d, challenge, r, r', email, now);
  }

  function Answering(challenge: Token, r: Request, r': Request, email: string): (ms: seq<Mutation>)
    requires r.body.Mfa? && r'.body.Mfa?
    ensures |ms| == 4
  {
    [EndChallenge(challenge), SessionFor(r, email), EndChallenge(challenge), SessionFor(r', email)]
  }

  lemma SessionsAtEnd(env: Env, d: Data, challenge: Token, r: Request, r': Request, email: string, now: real)
    requires r.body.Mfa? && r'.body.Mfa? && r.body.token != "" && r'.body.token != ""
    requires r.body.token != r'.body.token && r'.now <= r.now + 43200.0
    requires now < r.now + 43200.0 && now < r'.now + 43200.0
    ensures BothInForce(AfterFour(env, d, Answering(challenge, r, r', email)), r, r', email, now)
  {
    hide Next, SessionOf;
    var m, m' := SessionFor(r, email), SessionFor(r', email);
    BothStored(env, d, challenge, m, m');
    var d4 := AfterFour(env, d, Answering(challenge, r, r', email));
    InForce(d4, m.token, Sessions.Session(email, m.csrf, m.now + 43200.0), now);
    InForce(d4, m'.token, Sessions.Session(email, m'.csrf, m'.now + 43200.0), now);
  }

  function SessionFor(r: Request, email: string): Mutation
    requires r.body.Mfa?
  {
    NewSession(r.body.token, email, r.body.csrf, r.now)
  }

  lemma AnswerTokens(env: Env, d: Data, r: Request, challenge: Token, email: string)
    requires Answers(env, d, r, challenge, email)
    ensures r.body.token != ""
  {
  }
}
