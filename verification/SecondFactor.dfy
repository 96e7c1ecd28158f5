// Where sign-in sessions come from, and the second factor on the password path.
module SecondFactor {
  import opened Guarantees
  import opened Outcomes
  import opened Platform
  import opened Store
  import opened Text
  import Histories
  import Otp
  import Sessions
  import Totp

  // ----- Who opens a challenge, and who creates a session -----

  // A sign-in that opens a challenge: the password was right and the account enrolled.
  predicate Opens(env: Env, d: Data, r: Request, token: Token, email: string)
  {
    && r.body.SignIn? && r.body.token == token && Normal(r.body.email) == email
    && PasswordOk(env, d, email, r.body.password) && d.users[email].mfaEnabled
  }

  lemma AccountSignsNobodyIn(env: Env, d: Data, r: Request, email: string)
    requires email in d.users
    ensures forall m :: m in AccountPlan(env, d, r, email) ==> !m.NewChallenge? && !m.NewSession?
  {
    hide Normal, CodeOk, CsrfOk, GetTier;
  }

  lemma PlanParts(env: Env, d: Data, r: Request, m: Mutation)
    requires m in Plan(env, d, r) && (m.NewChallenge? || m.NewSession?)
    ensures m in BodyPlan(env, d, r)
    ensures r.body.SignUp? || r.body.SignIn? || r.body.Mfa? || r.body.GithubCallback?
  {
    hide Normal, CodeOk, ChallengeOf, FactorOk, SessionOf, CsrfOk, AccountPlan, PasswordOk;
    var account := AccountOf(d, r.cookie, r.now);
    if account.Some? {
      AccountSignsNobodyIn(env, d, r, account.value);
    }
  }

  lemma OnlySignInOpens(env: Env, d: Data, r: Request, m: Mutation)
    requires m in Plan(env, d, r) && m.NewChallenge?
    ensures Opens(env, d, r, m.token, m.email)
    ensures BodyPlan(env, d, r) == [NewChallenge(m.token, m.email, r.now), Note(LoginMfaRequired(m.email))]
  {
    hide Normal, CodeOk, ChallengeOf, FactorOk, PasswordOk, Plan;
    PlanParts(env, d, r, m);
  }

  // The four ways to be signed in: with a new account, with the password of an account without
  // a second factor, with a correct answer to a live challenge, or vouched for by GitHub.
  predicate Credentials(env: Env, d: Data, r: Request, email: string)
  {
    match r.body
    case SignUp(e, password, _, _, _, _) =>
      email == Normal(e) && ValidEmail(email) && ValidPassword(password) && email !in d.users
    case SignIn(e, password, _, _) =>
      && email == Normal(e) && PasswordOk(env, d, email, password)
      && !(d.users[email].mfaEnabled && d.users[email].mfaSecret.Some?)
    case Mfa(token, _, _, _, _) =>
      && ChallengeOf(d, token, r.now).Some? && ChallengeOf(d, token, r.now).value.email == email
      && FactorOk(env, d, email, r.body, r.now)
    case GithubCallback(stateOk, e, _, _) => stateOk && email == Normal(e) && email != ""
    case _ => false
  }

  // A request creates a session only with credentials, and an answered challenge is used up.
  lemma WhoSignsIn(env: Env, d: Data, r: Request, m: Mutation)
    requires m in Plan(env, d, r) && m.NewSession?
    ensures Credentials(env, d, r, m.email)
    ensures m == NewSession(r.body.token, m.email, r.body.csrf, r.now)
    ensures r.body.Mfa? ==> EndChallenge(r.body.challenge) in Plan(env, d, r)
  {
    hide Normal, CodeOk, ChallengeOf, FactorOk, PasswordOk, Plan, ValidEmail, ValidPassword;
    PlanParts(env, d, r, m);
    if r.body.Mfa? {
      InPlan(env, d, r, EndChallenge(r.body.challenge));
    }
  }

  lemma {:induction false} SessionsKept(env: Env, d: Data, ms: seq<Mutation>)
    requires forall m :: m in ms ==> !m.NewSession? && !m.EndSession?
    ensures NextAll(env, d, ms).sessions == d.sessions
    decreases |ms|
  {
    hide Next;
    if ms != [] {
      SessionKept(env, d, ms[0]);
      SessionsKept(env, Next(env, d, ms[0]), ms[1..]);
    }
  }

  lemma SessionKept(env: Env, d: Data, m: Mutation)
    requires !m.NewSession? && !m.EndSession?
    ensures Next(env, d, m).sessions == d.sessions
  {
    hide Otp.Verify, Otp.Issue, Otp.Key, Sessions.CreateSession, Sessions.Logout;
  }

  // The closures of such a request around the one that creates the session.
  lemma SessionInPlan(env: Env, d: Data, r: Request, email: string)
    returns (before: seq<Mutation>, after: seq<Mutation>)
    requires Credentials(env, d, r, email)
    ensures BodyPlan(env, d, r) == before + [NewSession(r.body.token, email, r.body.csrf, r.now)] + after
    ensures forall m :: m in after ==> !m.NewSession? && !m.EndSession?
  {
    hide Normal, CodeOk, FactorOk, PasswordOk, ValidEmail, ValidPassword;
    var ms, n := BodyPlan(env, d, r), if r.body.SignIn? then 0 else if r.body.Mfa? && r.body.byEmail then 2 else 1;
    before, after := ms[..n], ms[n + 1..];
  }

  // With credentials a request does sign in, for twelve hours.
  lemma SignsIn(env: Env, d: Data, r: Request, email: string, now: real)
    requires Credentials(env, d, r, email) && r.body.token != "" && now < r.now + 43200.0
    ensures SessionOf(Respond(env, d, r), r.body.token, now)
         == Some(Sessions.Session(email, r.body.csrf, r.now + 43200.0))
  {
    hide Credentials, BodyPlan, Plan, Next;
    CredentialsBody(env, d, r, email);
    var m := NewSession(r.body.token, email, r.body.csrf, r.now);
    var before, after := SessionInPlan(env, d, r, email);
    PlanConcat(env, d, r);
    var d1 := NextAll(env, d, LookupPlan(d, r.cookie, r.now));
    NextAllConcat(env, d1, before + [m], after);
    NextThen(env, d1, before, m);
    SessionStored(env, NextAll(env, d1, before), m);
    SessionsKept(env, NextAll(env, d1, before + [m]), after);
  }

  lemma CredentialsBody(env: Env, d: Data, r: Request, email: string)
    requires Credentials(env, d, r, email)
    ensures r.body.SignUp? || r.body.SignIn? || r.body.Mfa? || r.body.GithubCallback?
  {
  }

  lemma SessionStored(env: Env, d: Data, m: Mutation)
    requires m.NewSession?
    ensures m.token in Next(env, d, m).sessions
    ensures Next(env, d, m).sessions[m.token] == Sessions.Session(m.email, m.csrf, m.now + 43200.0)
  {
  }

  // An enrolled account's password opens a challenge, which can be answered for ten minutes.
  lemma ChallengeOpened(env: Env, d: Data, r: Request, email: string, now: real)
    requires r.body.SignIn? && email == Normal(r.body.email) && PasswordOk(env, d, email, r.body.password)
    requires d.users[email].mfaEnabled && d.users[email].mfaSecret.Some? && r.body.token != "" && now <= r.now + 600.0
    ensures ChallengeOf(Respond(env, d, r), r.body.token, now) == Some(Challenge(email, r.now + 600.0))
  {
    hide Normal, PasswordOk, LookupPlan, NextAll;
    PlanConcat(env, d, r);
    OpenedNow(env, NextAll(env, d, LookupPlan(d, r.cookie, r.now)), r.body.token, email, r.now,
      LoginMfaRequired(email));
  }

  lemma InPlan(env: Env, d: Data, r: Request, m: Mutation)
    ensures m in BodyPlan(env, d, r) ==> m in Plan(env, d, r)
  {
    hide BodyPlan, LookupPlan;
  }

  // ----- The life of a challenge -----

  lemma ChallengeStep(env: Env, d: Data, m: Mutation, token: Token)
    requires m.NewChallenge? ==> m.token != token
    ensures var d' := Next(env, d, m);
      token in d'.challenges ==>
        token in d.challenges && d'.challenges[token] == d.challenges[token] && m != EndChallenge(token)
  {
    hide Otp.Verify, Otp.Issue, Otp.Key, Sessions.CreateSession, Sessions.Logout;
  }

  lemma {:induction false} ChallengeSteps(env: Env, d: Data, ms: seq<Mutation>, token: Token)
    requires forall i :: 0 <= i < |ms| && ms[i].NewChallenge? ==> ms[i].token != token
    ensures var d' := NextAll(env, d, ms);
      token in d'.challenges ==>
        token in d.challenges && d'.challenges[token] == d.challenges[token] && EndChallenge(token) !in ms
    decreases |ms|
  {
    hide Next;
    if ms != [] {
      ChallengeStep(env, d, ms[0], token);
      ChallengeSteps(env, Next(env, d, ms[0]), ms[1..], token);
    }
  }

  lemma OpenedNow(env: Env, d: Data, token: Token, email: string, now: real, entry: Audit)
    ensures var d' := NextAll(env, d, [NewChallenge(token, email, now), Note(entry)]);
      token in d'.challenges && d'.challenges[token] == Challenge(email, now + 600.0)
  {
    var ms := [NewChallenge(token, email, now), Note(entry)];
    var d1 := Next(env, d, ms[0]);
    assert ms[1..] == [Note(entry)] && NextAll(env, d1, [Note(entry)]) == Next(env, d1, Note(entry));
  }

  lemma ChallengeAfter(env: Env, d: Data, r: Request, token: Token)
    requires token in Respond(env, d, r).challenges
    ensures var c := Respond(env, d, r).challenges[token];
      || (Opens(env, d, r, token, c.email) && c.expires == r.now + 600.0)
      || (token in d.challenges && d.challenges[token] == c && EndChallenge(token) !in Plan(env, d, r))
  {
    hide Plan, Opens, NextAll, BodyPlan;
    var ms := Plan(env, d, r);
    if i :| 0 <= i < |ms| && ms[i].NewChallenge? && ms[i].token == token {
      OnlySignInOpens(env, d, r, ms[i]);
      PlanConcat(env, d, r);
      OpenedNow(env, NextAll(env, d, LookupPlan(d, r.cookie, r.now)), token, ms[i].email, r.now,
        LoginMfaRequired(ms[i].email));
    } else {
      ChallengeSteps(env, d, ms, token);
    }
  }

  lemma PlanConcat(env: Env, d: Data, r: Request)
    ensures Respond(env, d, r) == NextAll(env, NextAll(env, d, LookupPlan(d, r.cookie, r.now)), BodyPlan(env, d, r))
  {
    hide LookupPlan, BodyPlan, NextAll;
    NextAllConcat(env, d, LookupPlan(d, r.cookie, r.now), BodyPlan(env, d, r));
  }

  // The challenge was opened by the k-th request, a sign-in with the account's password, and
  // nothing has used it up since.
  ghost predicate OpenedBy(env: Env, rs: seq<Request>, k: nat, token: Token, c: Challenge)
  {
    && k < |rs|
    && Opens(env, Serve(env, EMPTY, rs[..k]), rs[k], token, c.email)
    && c.expires == rs[k].now + 600.0
    && forall j :: k < j < |rs| ==> !Uses(env, rs, j, token)
  }

  ghost predicate Uses(env: Env, rs: seq<Request>, j: nat, token: Token)
    requires j < |rs|
  {
    EndChallenge(token) in Plan(env, Serve(env, EMPTY, rs[..j]), rs[j])
  }

  lemma {:induction false} ChallengeHistory(env: Env, rs: seq<Request>, token: Token) returns (k: nat)
    requires token in Serve(env, EMPTY, rs).challenges
    ensures OpenedBy(env, rs, k, token, Serve(env, EMPTY, rs).challenges[token])
    decreases |rs|
  {
    hide Plan, Respond, Opens;
    var front, r := rs[..|rs| - 1], rs[|rs| - 1];
    var d := Serve(env, EMPTY, front);
    var c := Serve(env, EMPTY, rs).challenges[token];
    ChallengeAfter(env, d, r, token);
    if Opens(env, d, r, token, c.email) && c.expires == r.now + 600.0 {
      k := |rs| - 1;
    } else {
      k := ChallengeHistory(env, front, token);
      assert front[..k] == rs[..k];
      forall j | k < j < |rs| ensures !Uses(env, rs, j, token) {
        if j < |front| {
          assert front[..j] == rs[..j] && !Uses(env, front, j, token);
        }
      }
    }
  }

  // An enrolled account is signed in without GitHub only by a request that answers correctly a
  // challenge which a sign-in with the account's present password opened at most ten minutes
  // before, which nothing has used since, and which this request uses up.
  lemma SecondFactorRequired(env: Env, rs: seq<Request>, r: Request, m: Mutation) returns (k: nat)
    requires var d := Serve(env, EMPTY, rs);
      && m in Plan(env, d, r) && m.NewSession? && !r.body.GithubCallback?
      && m.email in d.users && d.users[m.email].mfaEnabled
    ensures r.body.Mfa? && FactorOk(env, Serve(env, EMPTY, rs), m.email, r.body, r.now)
    ensures EndChallenge(r.body.challenge) in Plan(env, Serve(env, EMPTY, rs), r)
    ensures k < |rs| && Opens(env, Serve(env, EMPTY, rs[..k]), rs[k], r.body.challenge, m.email)
    ensures PasswordOk(env, Serve(env, EMPTY, rs), m.email, rs[k].body.password)
    ensures r.now <= rs[k].now + 600.0
    ensures forall j :: k < j < |rs| ==> !Uses(env, rs, j, r.body.challenge)
  {
    hide Plan, FactorOk;
    var d := Serve(env, EMPTY, rs);
    WhoSignsIn(env, d, r, m);
    Histories.ServeSafe(env, EMPTY, rs, 0);
    assert UserSafe(d.users[m.email]);
    k := ChallengeHistory(env, rs, r.body.challenge);
    Histories.ServeSafe(env, EMPTY, rs, k);
    assert UserOnward(Serve(env, EMPTY, rs[..k]).users[m.email], d.users[m.email]);
  }

  // What that second factor is: the code of the previous, the present or the next step under
  // the account's secret, or the latest code mailed to it for signing in, at most ten minutes
  // old, not used, and with fewer than five entries counted against it.
  lemma SecondFactorMeans(env: Env, rs: seq<Request>, r: Request, m: Mutation)
    requires var d := Serve(env, EMPTY, rs);
      && m in Plan(env, d, r) && m.NewSession? && !r.body.GithubCallback?
      && m.email in d.users && d.users[m.email].mfaEnabled
    requires Histories.Ordered(rs, r.now)
    ensures r.body.Mfa?
    ensures var u := Serve(env, EMPTY, rs).users[m.email];
      !r.body.byEmail ==> u.mfaSecret.Some? && TimeCode(env.mac(u.mfaSecret.value), r.body.code, r.now)
    ensures r.body.byEmail ==> MailedCode(env, rs, Normal(m.email), r.body.code, r.now)
  {
    hide Plan, FactorOk, Serve, Opens, TimeCode, MailedCode;
    var d := Serve(env, EMPTY, rs);
    var k := SecondFactorRequired(env, rs, r, m);
    Histories.ServeSafe(env, EMPTY, rs, 0);
    assert UserSafe(d.users[m.email]);
    if r.body.byEmail {
      FactorIsMailed(env, d, m.email, r.body, r.now);
      AcceptedIsMailed(env, rs, Normal(m.email), r.body.code, r.now);
    } else {
      FactorIsTimed(env, d, m.email, r.body, r.now);
    }
  }

  lemma FactorIsMailed(env: Env, d: Data, email: string, b: Body, now: real)
    requires b.Mfa? && b.byEmail && FactorOk(env, d, email, b, now)
    ensures CodeOk(env, d, Normal(email), "login_mfa", b.code, now)
  {
    hide CodeOk, Normal;
  }

  lemma FactorIsTimed(env: Env, d: Data, email: string, b: Body, now: real)
    requires b.Mfa? && !b.byEmail && FactorOk(env, d, email, b, now)
    requires email in d.users && d.users[email].mfaSecret.Some?
    ensures TimeCode(env.mac(d.users[email].mfaSecret.value), b.code, now)
  {
    hide CodeOk, Normal;
    var mac := env.mac(d.users[email].mfaSecret.value);
    assert Totp.Accepts(mac, b.code, now) && now >= Totp.STEP;
    StepsAccepted(mac, b.code, now);
  }

  lemma StepsAccepted(mac: Totp.Mac, code: string, now: real)
    requires Totp.Accepts(mac, code, now) && now >= Totp.STEP
    ensures TimeCode(mac, code, now)
  {
    hide Totp.CodeOf, Strip;
    var c: nat :| Totp.StepOf(now) - 1 <= c <= Totp.StepOf(now) + 1 && Totp.CodeOf(mac, c) == Strip(code);
  }

  ghost predicate TimeCode(mac: Totp.Mac, code: string, now: real)
  {
    var step := Totp.StepOf(now);
    step >= 1 && Strip(code) in {Totp.CodeOf(mac, step - 1), Totp.CodeOf(mac, step), Totp.CodeOf(mac, step + 1)}
  }

  ghost predicate MailedCode(env: Env, rs: seq<Request>, email: string, code: string, now: real)
  {
    var key := Otp.Key(email, "login_mfa");
    var b := Otp.BookOf(Histories.CodeHistory(env, rs), key, env.digest);
    b.Some? && Otp.Counts(b.value, Otp.Tried(key, code, now)) && Otp.Matches(b.value, code, env.digest)
  }

  lemma AcceptedIsMailed(env: Env, rs: seq<Request>, email: string, code: string, now: real)
    requires Histories.Ordered(rs, now) && CodeOk(env, Serve(env, EMPTY, rs), email, "login_mfa", code, now)
    ensures MailedCode(env, rs, email, code, now)
  {
    AcceptedWellFormed(env, Serve(env, EMPTY, rs), email, code, now);
    hide CodeOk, Otp.BookOf;
    Histories.CodeFromHistory(env, rs, email, "login_mfa", code, now);
  }

  lemma AcceptedWellFormed(env: Env, d: Data, email: string, code: string, now: real)
    requires CodeOk(env, d, email, "login_mfa", code, now)
    ensures Otp.WellFormed(code)
  {
    hide Otp.WellFormed;
  }
}
