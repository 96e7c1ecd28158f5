// How accounts begin, what makes a password right, and what a verified e-mail rests on.
module Accounts {
  import opened Concurrency
  import opened Guarantees
  import opened Outcomes
  import opened Platform
  import opened Progress
  import opened Roles
  import opened Store
  import opened Text
  import Histories
  import Ledger
  import Otp
  import SecondFactor

  // ----- How accounts begin -----

  // An account signed up for: unverified, with a password and nothing else.
  function SignedUp(hash: string): User
  {
    User(Some(hash), Operator, false, false, None, None, false, None, None, None)
  }

  // An account GitHub vouched for: verified, and still without a password.
  function FromGithub(): User
  {
    User(None, Operator, true, false, None, None, true, None, None, None)
  }

  predicate Makes(m: Mutation, email: string)
  {
    (m.CreateUser? || m.UpsertGithub?) && m.email == email
  }

  lemma MadeAs(env: Env, d: Data, m: Mutation, email: string)
    requires email !in d.users
    ensures email in Next(env, d, m).users <==> Makes(m, email)
    ensures Makes(m, email) ==>
      Next(env, d, m).users[email] == if m.CreateUser? then SignedUp(m.hash) else FromGithub()
  {
    if LeavesUsers(m) {
      UsersUnchanged(env, d, m);
    } else if Subject(m) != email {
      OthersUnchanged(env, d, m, email);
    }
  }

  lemma {:induction false} StaysAway(env: Env, d: Data, ms: seq<Mutation>, email: string)
    requires email !in d.users && forall m :: m in ms ==> !Makes(m, email)
    ensures email !in NextAll(env, d, ms).users
    decreases |ms|
  {
    hide Next;
    if ms != [] {
      assert ms[0] in ms;
      MadeAs(env, d, ms[0], email);
      StaysAway(env, Next(env, d, ms[0]), ms[1..], email);
    }
  }

  lemma {:induction false} UsersKept(env: Env, d: Data, ms: seq<Mutation>)
    requires forall m :: m in ms ==> LeavesUsers(m)
    ensures NextAll(env, d, ms).users == d.users
    decreases |ms|
  {
    hide Next;
    if ms != [] {
      UsersUnchanged(env, d, ms[0]);
      UsersKept(env, Next(env, d, ms[0]), ms[1..]);
    }
  }

  lemma UsersByFirst(env: Env, d: Data, ms: seq<Mutation>)
    requires ms != [] && forall m :: m in ms[1..] ==> LeavesUsers(m)
    ensures NextAll(env, d, ms).users == Next(env, d, ms[0]).users
  {
    hide Next;
    UsersKept(env, Next(env, d, ms[0]), ms[1..]);
  }

  // The request that makes the account: a sign-up in good form, or a good GitHub callback.
  predicate MakesAccount(r: Request, email: string)
  {
    || (r.body.SignUp? && Normal(r.body.email) == email && ValidEmail(email) && ValidPassword(r.body.password))
    || (r.body.GithubCallback? && r.body.stateOk && Normal(r.body.email) == email && email != "")
  }

  lemma PlanMakes(env: Env, d: Data, r: Request, email: string)
    requires email !in d.users
    ensures MakesAccount(r, email) ==>
      var ms := BodyPlan(env, d, r);
      && ms != [] && Makes(ms[0], email) && (forall m :: m in ms[1..] ==> LeavesUsers(m))
      && (r.body.SignUp? ==> ms[0] == CreateUser(email, env.hash(r.body.password, r.body.salt)))
      && (r.body.GithubCallback? ==> ms[0] == UpsertGithub(email))
  {
    hide Normal, ValidEmail, ValidPassword;
  }

  lemma OthersMakeNone(env: Env, d: Data, r: Request, email: string, m: Mutation)
    requires !MakesAccount(r, email) && email !in d.users && m in BodyPlan(env, d, r)
    ensures !Makes(m, email)
  {
    hide BodyPlan, AccountOf, MakesAccount, Makes;
    if r.body.SignUp? || r.body.GithubCallback? {
      RefusedMakeNone(env, d, r, email, m);
    } else {
      MakesNone(env, d, r, email, m);
    }
  }

  lemma RefusedMakeNone(env: Env, d: Data, r: Request, email: string, m: Mutation)
    requires !MakesAccount(r, email) && (r.body.SignUp? || r.body.GithubCallback?) && m in BodyPlan(env, d, r)
    ensures !Makes(m, email)
  {
    hide Normal, ValidEmail, ValidPassword;
  }

  lemma MakesNone(env: Env, d: Data, r: Request, email: string, m: Mutation)
    requires !r.body.SignUp? && !r.body.GithubCallback? && m in BodyPlan(env, d, r)
    ensures !Makes(m, email)
  {
    hide Normal, CodeOk, ChallengeOf, FactorOk, SessionOf, CsrfOk, PasswordOk, AccountPlan, AccountOf;
    var account := AccountOf(d, r.cookie, r.now);
    Histories.AccountExists(d, r.cookie, r.now);
    if account.Some? {
      AccountMakesNone(env, d, r, account.value, email);
    }
  }

  lemma AccountMakesNone(env: Env, d: Data, r: Request, own: string, email: string)
    requires own in d.users
    ensures forall m :: m in AccountPlan(env, d, r, own) ==> !Makes(m, email)
  {
    hide Normal, CodeOk, CsrfOk, GetTier;
  }

  // An account appears exactly by such a request, as that request makes it.
  lemma NewAccount(env: Env, d: Data, r: Request, email: string)
    requires email !in d.users
    ensures email in Respond(env, d, r).users <==> MakesAccount(r, email)
    ensures MakesAccount(r, email) ==>
      Respond(env, d, r).users[email]
        == if r.body.SignUp? then SignedUp(env.hash(r.body.password, r.body.salt)) else FromGithub()
  {
    hide BodyPlan, LookupPlan, NextAll, Respond, MakesAccount, Makes;
    var d1 := NextAll(env, d, LookupPlan(d, r.cookie, r.now));
    SecondFactor.PlanConcat(env, d, r);
    LookupEntitled(env, d, r);
    var ms := BodyPlan(env, d, r);
    if MakesAccount(r, email) {
      PlanMakes(env, d, r, email);
      UsersByFirst(env, d1, ms);
      MadeAs(env, d1, ms[0], email);
      MakerIs(r, email);
    } else {
      forall m | m in ms ensures !Makes(m, email) {
        OthersMakeNone(env, d, r, email, m);
      }
      StaysAway(env, d1, ms, email);
    }
  }

  lemma MakerIs(r: Request, email: string)
    requires MakesAccount(r, email)
    ensures r.body.SignUp? || r.body.GithubCallback?
  {
  }

  // A successful sign-up leaves the new account at the verification of its e-mail, and one by
  // GitHub at the choice of a password.
  lemma FirstDestination(env: Env, d: Data, r: Request, email: string)
    requires email !in d.users && MakesAccount(r, email)
    ensures Destination(UserAt(Respond(env, d, r), email))
         == if r.body.SignUp? then "/verify-email" else "/set-password"
  {
    NewAccount(env, d, r, email);
    hide Respond, MakesAccount;
  }

  // ----- What makes a password right -----

  // The one law of the password hash.
  ghost predicate Hashing(env: Env)
  {
    forall p, q, salt :: env.verify(p, env.hash(q, salt)) <==> p == q
  }

  // The request that gave the account its password: the sign-up that made it, or its own
  // choice of one where it had none.
  ghost predicate GivesPassword(env: Env, d: Data, r: Request, email: string, q: string)
  {
    || (r.body.SignUp? && Normal(r.body.email) == email && r.body.password == q
        && email !in d.users && email in Respond(env, d, r).users)
    || (r.body.ChoosePassword? && AccountOf(d, r.cookie, r.now) == Some(email) && r.body.password == q
        && email in d.users && d.users[email].password.None?
        && UserAt(Respond(env, d, r), email).Some? && UserAt(Respond(env, d, r), email).value.password.Some?)
  }

  ghost predicate HashOf(env: Env, u: Option<User>, q: string)
  {
    exists salt :: u.Some? && u.value.password == Some(env.hash(q, salt))
  }

  lemma UserAfterRequest(env: Env, d: Data, r: Request, email: string)
    requires email in d.users
    ensures UserAt(Respond(env, d, r), email) == Some(AllAffected(BodyPlan(env, d, r), email, d.users[email]))
  {
    hide BodyPlan, LookupPlan, AllAffected, Respond;
    SecondFactor.PlanConcat(env, d, r);
    LookupEntitled(env, d, r);
    UserAfterAll(env, NextAll(env, d, LookupPlan(d, r.cookie, r.now)), BodyPlan(env, d, r), email);
  }

  lemma ChoicePlan(env: Env, d: Data, r: Request, email: string)
    requires r.body.ChoosePassword? && AccountOf(d, r.cookie, r.now) == Some(email) && email in d.users
    requires Normal(email) == email
    ensures BodyPlan(env, d, r) == []
      || BodyPlan(env, d, r) == [SetPassword(email, env.hash(r.body.password, r.body.salt))]
  {
    hide AccountOf, ValidPassword, CsrfOk, Normal;
  }

  lemma PasswordStored(env: Env, d: Data, r: Request, email: string, q: string)
    requires GivesPassword(env, d, r, email, q) && NormalKeys(d)
    ensures HashOf(env, UserAt(Respond(env, d, r), email), q)
  {
    hide BodyPlan, Respond, Normal, AccountOf;
    if r.body.SignUp? {
      NewAccount(env, d, r, email);
      assert UserAt(Respond(env, d, r), email).value.password == Some(env.hash(q, r.body.salt));
    } else {
      ChoicePlan(env, d, r, email);
      UserAfterRequest(env, d, r, email);
      var u, ms := d.users[email], BodyPlan(env, d, r);
      if ms != [] {
        OneThenIdle(ms, email, u);
      } else {
        Idle(ms, email, u);
      }
      assert UserAt(Respond(env, d, r), email).value.password == Some(env.hash(q, r.body.salt));
    }
  }

  // The request signs the account in, or opens a challenge for it.
  ghost predicate LetsIn(ms: seq<Mutation>, email: string)
  {
    exists m :: m in ms && (m.NewSession? || m.NewChallenge?) && m.email == email
  }

  lemma SignInLetsIn(env: Env, d: Data, r: Request, email: string)
    requires r.body.SignIn? && Normal(r.body.email) == email && email in d.users && d.users[email].password.Some?
    ensures LetsIn(Plan(env, d, r), email) <==> env.verify(r.body.password, d.users[email].password.value)
  {
    hide Normal;
    var ms := BodyPlan(env, d, r);
    if ms != [] {
      SecondFactor.InPlan(env, d, r, ms[0]);
    }
    assert forall m :: m in LookupPlan(d, r.cookie, r.now) ==> !m.NewSession? && !m.NewChallenge?;
  }

  lemma {:induction false} ServeNormal(env: Env, rs: seq<Request>)
    ensures NormalKeys(Serve(env, EMPTY, rs)) && Safe(Serve(env, EMPTY, rs))
  {
    hide Serve, Ledger.Balanced;
    Histories.ReachableStores(env, rs);
  }

  lemma ServeNext(env: Env, rs: seq<Request>, k: nat)
    requires k < |rs|
    ensures Serve(env, EMPTY, rs[..k + 1]) == Respond(env, Serve(env, EMPTY, rs[..k]), rs[k])
  {
    hide Respond;
    assert rs[..k + 1][..k] == rs[..k];
  }

  // In every run from the empty store, once an account has been given the password q, a sign-in
  // gets in, or is asked for the second factor, exactly with q.
  lemma PasswordDecides(env: Env, rs: seq<Request>, k: nat, r: Request, email: string, q: string)
    requires Hashing(env) && k < |rs| && GivesPassword(env, Serve(env, EMPTY, rs[..k]), rs[k], email, q)
    requires r.body.SignIn? && Normal(r.body.email) == email
    ensures LetsIn(Plan(env, Serve(env, EMPTY, rs), r), email) <==> r.body.password == q
  {
    hide Serve, Respond, Plan, LetsIn, GivesPassword, Normal, Safe;
    var d, d' := Serve(env, EMPTY, rs[..k + 1]), Serve(env, EMPTY, rs);
    ServeNormal(env, rs[..k]);
    PasswordStored(env, Serve(env, EMPTY, rs[..k]), rs[k], email, q);
    ServeNext(env, rs, k);
    SafeAtFirst();
    Histories.ServeSafe(env, EMPTY, rs, k + 1);
    assert UserOnward(d.users[email], d'.users[email]);
    SignInLetsIn(env, d', r, email);
  }

  lemma SafeAtFirst()
    ensures Safe(EMPTY)
  {
  }

  lemma {:induction false} SetterAmong(ms: seq<Mutation>, email: string, u: User) returns (m: Mutation)
    requires AllAffected(ms, email, u).password != u.password
    ensures m in ms && m.SetPassword? && m.email == email
    decreases |ms|
  {
    if Affected(ms[0], email, u).password != u.password {
      m := ms[0];
    } else {
      m := SetterAmong(ms[1..], email, Affected(ms[0], email, u));
    }
  }

  lemma OnlyChoiceSets(env: Env, d: Data, r: Request, m: Mutation)
    requires m in BodyPlan(env, d, r) && m.SetPassword? && NormalKeys(d)
    ensures r.body.ChoosePassword? && AccountOf(d, r.cookie, r.now) == Some(m.email)
  {
    hide Normal, CodeOk, ChallengeOf, FactorOk, SessionOf, CsrfOk, PasswordOk, ValidEmail, ValidPassword;
    hide AccountPlan, AccountOf;
    var account := AccountOf(d, r.cookie, r.now);
    Histories.AccountExists(d, r.cookie, r.now);
    if account.Some? {
      OwnChoiceSets(env, d, r, account.value, m);
    }
  }

  lemma OwnChoiceSets(env: Env, d: Data, r: Request, own: string, m: Mutation)
    requires own in d.users && Normal(own) == own && m in AccountPlan(env, d, r, own) && m.SetPassword?
    ensures r.body.ChoosePassword? && m.email == own
  {
    hide Normal, CodeOk, CsrfOk, GetTier, ValidPassword;
  }

  // Conversely every password was given in one of those two ways.
  lemma {:induction false} PasswordOrigin(env: Env, rs: seq<Request>, email: string) returns (k: nat, q: string)
    requires UserAt(Serve(env, EMPTY, rs), email).Some?
    requires UserAt(Serve(env, EMPTY, rs), email).value.password.Some?
    ensures k < |rs| && GivesPassword(env, Serve(env, EMPTY, rs[..k]), rs[k], email, q)
    decreases |rs|
  {
    hide Respond, NormalKeys, Safe, Normal, AccountOf, MakesAccount;
    var front, r := rs[..|rs| - 1], rs[|rs| - 1];
    var d := Serve(env, EMPTY, front);
    ServeNormal(env, front);
    if email !in d.users {
      NewAccount(env, d, r, email);
      MakerIs(r, email);
      MakerEmail(r, email);
      k, q := |rs| - 1, r.body.password;
    } else if d.users[email].password.Some? {
      k, q := PasswordOrigin(env, front, email);
      assert front[..k] == rs[..k];
    } else {
      UserAfterRequest(env, d, r, email);
      var m := SetterAmong(BodyPlan(env, d, r), email, d.users[email]);
      OnlyChoiceSets(env, d, r, m);
      k, q := |rs| - 1, r.body.password;
    }
  }

  lemma MakerEmail(r: Request, email: string)
    requires MakesAccount(r, email)
    ensures r.body.SignUp? ==> Normal(r.body.email) == email
  {
  }

  // ----- What a verified e-mail rests on -----

  // A good GitHub callback for the e-mail, or the account's own entry of a code that the codes
  // mailed so far make right.
  ghost predicate Vouches(env: Env, before: seq<Request>, r: Request, email: string)
  {
    || (r.body.GithubCallback? && r.body.stateOk && Normal(r.body.email) == email)
    || (r.body.VerifyEmail? && AccountOf(Serve(env, EMPTY, before), r.cookie, r.now) == Some(email)
        && MailedFor(env, before, email, r.body.code, r.now))
  }

  // The latest code mailed to verify the e-mail matches, is in time and unused, with fewer than
  // five entries counted against it.
  ghost predicate MailedFor(env: Env, before: seq<Request>, email: string, code: string, now: real)
  {
    RightBy(env, Histories.CodeHistory(env, before), email, code, now)
  }

  ghost predicate RightBy(env: Env, ops: seq<Otp.Op>, email: string, code: string, now: real)
  {
    var key := Otp.Key(email, "email_verify");
    var b := Otp.BookOf(ops, key, env.digest);
    b.Some? && Otp.Counts(b.value, Otp.Tried(key, code, now)) && Otp.Matches(b.value, code, env.digest)
  }

  lemma AcceptedIsMailed(env: Env, before: seq<Request>, email: string, code: string, now: real)
    requires Histories.Ordered(before, now) && CodeOk(env, Serve(env, EMPTY, before), email, "email_verify", code, now)
    ensures MailedFor(env, before, email, code, now)
  {
    EntryWellFormed(env, Serve(env, EMPTY, before), email, code, now);
    hide CodeOk, Otp.BookOf;
    Histories.CodeFromHistory(env, before, email, "email_verify", code, now);
  }

  lemma EntryWellFormed(env: Env, d: Data, email: string, code: string, now: real)
    requires CodeOk(env, d, email, "email_verify", code, now)
    ensures Otp.WellFormed(code)
  {
    hide Otp.WellFormed;
  }

  predicate Verified(u: Option<User>)
  {
    u.Some? && u.value.emailVerified
  }

  lemma VerifiedNow(env: Env, before: seq<Request>, r: Request, email: string)
    requires var d := Serve(env, EMPTY, before);
      !Verified(UserAt(d, email)) && Verified(UserAt(Respond(env, d, r), email)) && Safe(d) && NormalKeys(d)
    requires Histories.Ordered(before, r.now)
    ensures Vouches(env, before, r, email)
  {
    var d := Serve(env, EMPTY, before);
    if email !in d.users {
      hide Respond, MakesAccount;
      NewAccount(env, d, r, email);
      assert r.body.GithubCallback? by { MakerIs(r, email); }
      CallbackIs(r, email);
    } else {
      ProgressExact(env, d, r, email);
      hide Respond, CodeOk, AccountOf, CsrfOk;
      if !r.body.GithubCallback? {
        AcceptedIsMailed(env, before, email, r.body.code, r.now);
      }
    }
  }

  lemma CallbackIs(r: Request, email: string)
    requires MakesAccount(r, email) && r.body.GithubCallback?
    ensures r.body.stateOk && Normal(r.body.email) == email
  {
  }

  // In every run from the empty store, each verified account was vouched for by one of its
  // requests.
  lemma {:induction false} VerifiedOrigin(env: Env, rs: seq<Request>, now: real, email: string) returns (k: nat)
    requires Verified(UserAt(Serve(env, EMPTY, rs), email)) && Histories.Ordered(rs, now)
    ensures k < |rs| && Vouches(env, rs[..k], rs[k], email)
    decreases |rs|
  {
    hide Respond, NormalKeys, Safe, Vouches;
    var front, r := rs[..|rs| - 1], rs[|rs| - 1];
    ServeNormal(env, front);
    if Verified(UserAt(Serve(env, EMPTY, front), email)) {
      k := VerifiedOrigin(env, front, r.now, email);
      assert front[..k] == rs[..k];
    } else {
      VerifiedNow(env, front, r, email);
      k := |rs| - 1;
    }
  }

  // ----- The same, however requests race -----

  // The closure at k gave the account the password q, for a request in which it was typed.
  ghost predicate GivenPassword(
    env: Env, states: seq<Data>, ms: seq<Mutation>, k: nat, r: Request, at: seq<nat>, email: string, q: string)
  {
    && k < |ms| && k < |states| && GivenBy(env, states, k, ms[k], r, at)
    && ((ms[k].CreateUser? && ms[k].email == email && email !in states[k].users)
        || (ms[k].SetPassword? && ms[k].email == email && email in states[k].users
            && states[k].users[email].password.None?))
    && ((r.body.SignUp? && r.body.password == q) || (r.body.ChoosePassword? && r.body.password == q))
  }

  predicate OutsideAccount(r: Request)
  {
    || r.body.SignUp? || r.body.GithubCallback? || r.body.SignIn? || r.body.ShowMfa?
    || r.body.MfaEmail? || r.body.Mfa? || r.body.LogOut?
  }

  lemma LookupOnly(x: Reads, r: Request, m: Mutation)
    ensures m in LookupPlan(x.session, r.cookie, r.now) ==> m.EndSession?
  {
  }

  // What requests of nobody in particular do to accounts.
  lemma OutsideMakes(env: Env, x: Reads, r: Request, m: Mutation)
    requires OutsideAccount(r) && m in ScatteredBodyPlan(env, x, r)
    ensures !m.SetPassword? && !m.MarkVerified?
    ensures m.CreateUser? ==> r.body.SignUp? && m.hash == env.hash(r.body.password, r.body.salt)
    ensures m.UpsertGithub? ==> r.body.GithubCallback? && r.body.stateOk && Normal(r.body.email) == m.email
  {
    hide ScatteredBodyPlan, Normal;
    if r.body.SignUp? || r.body.GithubCallback? {
      CreatingMakes(env, x, r, m);
    } else if r.body.Mfa? {
      AnsweringFree(env, x, r, m);
    } else {
      SigningFree(env, x, r, m);
    }
  }

  lemma CreatingMakes(env: Env, x: Reads, r: Request, m: Mutation)
    requires (r.body.SignUp? || r.body.GithubCallback?) && m in ScatteredBodyPlan(env, x, r)
    ensures !m.SetPassword? && !m.MarkVerified?
    ensures m.CreateUser? ==> r.body.SignUp? && m.hash == env.hash(r.body.password, r.body.salt)
    ensures m.UpsertGithub? ==> r.body.GithubCallback? && r.body.stateOk && Normal(r.body.email) == m.email
  {
    hide Normal, ValidEmail, ValidPassword;
  }

  lemma AccountIsRead(env: Env, x: Reads, r: Request, m: Mutation)
    requires !OutsideAccount(r) && m in ScatteredBodyPlan(env, x, r)
    ensures AccountRead(x, r.cookie, r.now).Some?
    ensures AccountRead(x, r.cookie, r.now).value in x.profile.users
    ensures m in ScatteredAccountPlan(env, x, r, AccountRead(x, r.cookie, r.now).value)
  {
    hide SessionOf, ScatteredAccountPlan;
  }

  lemma AccountTyped(env: Env, x: Reads, r: Request, email: string, m: Mutation)
    requires email in x.profile.users && m in ScatteredAccountPlan(env, x, r, email)
    ensures !m.CreateUser?
    ensures m.SetPassword? ==> r.body.ChoosePassword? && m.hash == env.hash(r.body.password, r.body.salt)
  {
    hide Normal, CodeOk, CsrfOk, GetTier, Merged, ValidPassword;
  }

  // Only the password that was typed is hashed.
  lemma HashedAsTyped(env: Env, x: Reads, r: Request, m: Mutation)
    requires m in ScatteredPlan(env, x, r) && (m.CreateUser? || m.SetPassword?)
    ensures (m.CreateUser? && r.body.SignUp?) || (m.SetPassword? && r.body.ChoosePassword?)
    ensures m.hash == env.hash(r.body.password, r.body.salt)
  {
    hide ScatteredAccountPlan, ScatteredBodyPlan, AccountRead, LookupPlan, Normal, CodeOk;
    LookupOnly(x, r, m);
    if m in ScatteredBodyPlan(env, x, r) {
      if OutsideAccount(r) {
        OutsideMakes(env, x, r, m);
      } else {
        AccountIsRead(env, x, r, m);
        var email := AccountRead(x, r.cookie, r.now).value;
        AccountTyped(env, x, r, email, m);
      }
    }
  }

  lemma StoredByCommit(env: Env, d: Data, m: Mutation)
    requires (m.CreateUser? && m.email !in d.users)
      || (m.SetPassword? && m.email in d.users && d.users[m.email].password.None?)
    ensures UserAt(Next(env, d, m), m.email).Some?
    ensures UserAt(Next(env, d, m), m.email).value.password == Some(m.hash)
  {
  }

  lemma SignInLetsInScattered(env: Env, x: Reads, r: Request, email: string)
    requires r.body.SignIn? && Normal(r.body.email) == email
    requires email in x.first.users && x.first.users[email].password.Some?
    ensures LetsIn(ScatteredPlan(env, x, r), email)
       <==> env.verify(r.body.password, x.first.users[email].password.value)
  {
    hide Normal;
    var ms, body := ScatteredPlan(env, x, r), ScatteredBodyPlan(env, x, r);
    if body != [] {
      assert body[0] in ms;
    }
    assert forall m :: m in LookupPlan(x.session, r.cookie, r.now) ==> !m.NewSession? && !m.NewChallenge?;
  }

  // A sign-in that reads the account at any later time gets in, or is asked for the second
  // factor, exactly with q.
  lemma PasswordDecidesUnderRaces(
    env: Env, states: seq<Data>, ms: seq<Mutation>, k: nat, r: Request, at: seq<nat>, email: string, q: string,
    r': Request, x: Reads, j: nat)
    requires Concurrent(env, states, ms) && Hashing(env) && GivenPassword(env, states, ms, k, r, at, email, q)
    requires r'.body.SignIn? && Normal(r'.body.email) == email
    requires k < j < |states| && x.first == states[j]
    ensures LetsIn(ScatteredPlan(env, x, r'), email) <==> r'.body.password == q
  {
    hide ScatteredPlan, Next, Given, LicensedBefore, LetsIn, Normal;
    HashedAsTyped(env, ReadAt(states, at), r, ms[k]);
    StoredByCommit(env, states[k], ms[k]);
    assert states[k + 1] == Next(env, states[k], ms[k]);
    ConcurrentIsRaced(env, states, ms);
    RacedOnward(env, states, ms, k + 1, j);
    assert UserOnward(states[k + 1].users[email], states[j].users[email]);
    SignInLetsInScattered(env, x, r', email);
  }

  // The closure at k verified the e-mail: a good GitHub callback, or the account's own entry of
  // a code that was right in the store the request had read.
  ghost predicate VouchedAt(
    env: Env, states: seq<Data>, ms: seq<Mutation>, k: nat, r: Request, at: seq<nat>, email: string)
  {
    && k < |ms| && k < |states| && GivenBy(env, states, k, ms[k], r, at)
    && ((ms[k] == UpsertGithub(email) && r.body.GithubCallback? && r.body.stateOk && Normal(r.body.email) == email)
        || (ms[k] == MarkVerified(email) && r.body.VerifyEmail?
            && AccountRead(ReadAt(states, at), r.cookie, r.now) == Some(email)
            && CodeOk(env, states[at[2]], Normal(email), "email_verify", r.body.code, r.now)))
  }

  lemma VerifiesOnly(env: Env, d: Data, m: Mutation, email: string)
    requires !Verified(UserAt(d, email)) && Verified(UserAt(Next(env, d, m), email))
    ensures m == MarkVerified(email) || m == UpsertGithub(email)
  {
    if email !in d.users {
      MadeAs(env, d, m, email);
    } else {
      UserAfter(env, d, m, email);
      hide Next;
    }
  }

  lemma AccountMarks(env: Env, x: Reads, r: Request, own: string, m: Mutation)
    requires own in x.profile.users && m in ScatteredAccountPlan(env, x, r, own)
    ensures !m.UpsertGithub?
    ensures m.MarkVerified? ==>
      r.body.VerifyEmail? && m.email == own && CodeOk(env, x.first, Normal(own), "email_verify", r.body.code, r.now)
  {
    hide Normal, CodeOk, CsrfOk, GetTier, Merged, ValidPassword;
  }

  lemma WhoVerifies(env: Env, x: Reads, r: Request, m: Mutation)
    requires m in ScatteredPlan(env, x, r) && (m.MarkVerified? || m.UpsertGithub?)
    ensures m.UpsertGithub? ==> r.body.GithubCallback? && r.body.stateOk && Normal(r.body.email) == m.email
    ensures m.MarkVerified? ==>
      && r.body.VerifyEmail? && AccountRead(x, r.cookie, r.now) == Some(m.email)
      && CodeOk(env, x.first, Normal(m.email), "email_verify", r.body.code, r.now)
  {
    hide ScatteredAccountPlan, ScatteredBodyPlan, AccountRead, LookupPlan, Normal, CodeOk;
    LookupOnly(x, r, m);
    if m in ScatteredBodyPlan(env, x, r) {
      if OutsideAccount(r) {
        OutsideMakes(env, x, r, m);
      } else {
        AccountIsRead(env, x, r, m);
        var email := AccountRead(x, r.cookie, r.now).value;
        AccountMarks(env, x, r, email, m);
      }
    }
  }

  // However requests race, each verified account was vouched for by one of them.
  lemma {:induction false} VerifiedUnderRaces(env: Env, states: seq<Data>, ms: seq<Mutation>, j: nat, email: string)
    returns (k: nat, r: Request, at: seq<nat>)
    requires Concurrent(env, states, ms) && states[0] == EMPTY && j < |states| && Verified(UserAt(states[j], email))
    ensures k < j && VouchedAt(env, states, ms, k, r, at, email)
    decreases j
  {
    hide ScatteredPlan, Next, Normal, CodeOk, AccountRead, Verified;
    NobodyVerified(email);
    if Verified(UserAt(states[j - 1], email)) {
      k, r, at := VerifiedUnderRaces(env, states, ms, j - 1, email);
    } else {
      k := j - 1;
      VerifiesOnly(env, states[k], ms[k], email);
      assert Given(env, states, k, ms[k]);
      r, at :| GivenBy(env, states, k, ms[k], r, at);
      WhoVerifies(env, ReadAt(states, at), r, ms[k]);
    }
  }

  // The code that was entered is the one that the closures run before make right.
  lemma VouchedByHistory(
    env: Env, states: seq<Data>, ms: seq<Mutation>, k: nat, r: Request, at: seq<nat>, email: string)
    requires Concurrent(env, states, ms) && states[0] == EMPTY && VouchedAt(env, states, ms, k, r, at, email)
    requires ms[k].MarkVerified? && Otp.Ordered(Histories.AllCodeOps(ms[..at[2]]), r.now)
    ensures RightBy(env, Histories.AllCodeOps(ms[..at[2]]), Normal(email), r.body.code, r.now)
  {
    EntryWellFormed(env, states[at[2]], Normal(email), r.body.code, r.now);
    ConcurrentIsRaced(env, states, ms);
    hide Normal, CodeOk, Given, ScatteredPlan, Next, Histories.AllCodeOps, Otp.BookOf, Otp.WellFormed;
    Histories.CodeUnderRaces(env, states, ms, at[2], Normal(email), "email_verify", r.body.code, r.now);
  }

  lemma NobodyVerified(email: string)
    ensures !Verified(UserAt(EMPTY, email))
  {
  }

  // ----- Which code is right -----

  // With a digest that tells codes apart, the platform accepts a code exactly when it is the one
  // last mailed for the account and purpose, at most ten minutes old, not entered since, with
  // fewer than five entries since.
  lemma MailedCodeDecides(
    env: Env, rs: seq<Request>, i: nat, email: string, purpose: string, code: string, now: real)
    requires Histories.Ordered(rs, now) && Otp.TellsApart(env.digest)
    requires Otp.LastIssue(Histories.CodeHistory(env, rs), i, Otp.Key(email, purpose))
    ensures CodeOk(env, Serve(env, EMPTY, rs), email, purpose, code, now) <==>
      var ops, key := Histories.CodeHistory(env, rs), Otp.Key(email, purpose);
      && Otp.SixDigits(code) && Strip(code) == ops[i].code && now <= ops[i].at + 600.0
      && Otp.Entries(ops, i, key) < 5 && !Otp.Entered(ops, i, key, ops[i].code)
  {
    Histories.CodesOfRun(env, rs, now);
    hide Otp.Entered, Otp.Entries, Otp.SixDigits, Otp.LastIssue, Otp.Run, Otp.Verify, Serve, Histories.CodeHistory;
    Otp.CodeDecides(Histories.CodeHistory(env, rs), i, Otp.Key(email, purpose), code, now, env.digest);
  }
}
