// The services of ross_ai/auth.py, otp.py, billing.py and rbac.py. Each reads the store and
// gives closures to it one after another; random values come in with the call.
module Services {
  import opened Outcomes
  import opened Platform
  import opened Roles
  import opened Store
  import opened Text
  import Luhn
  import Otp
  import Sessions
  import Totp

  class AuthService {
    const store: JsonStore
    const env: Env

    constructor (store: JsonStore, env: Env)
      ensures this.store == store && this.env == env
    {
      this.store := store;
      this.env := env;
    }

    method Signup(email: string, password: string, salt: string, token: Token, csrf: Token, now: real)
      returns (session: Option<Sessions.Session>)
      modifies store
      ensures session.Some? <==>
        ValidEmail(Normal(email)) && ValidPassword(password) && Normal(email) !in old(store.data).users
      ensures session.None? ==> store.data == old(store.data)
      ensures session.Some? ==>
        && Normal(email) in store.data.users
        && store.data.users[Normal(email)]
           == User(Some(env.hash(password, salt)), Operator, false, false, None, None, false, None, None, None)
      ensures session.Some? ==>
        && session.value == Sessions.Session(Normal(email), csrf, now + 43200.0)
        && store.data == NextAll(env, old(store.data),
          [CreateUser(Normal(email), env.hash(password, salt)), NewSession(token, Normal(email), csrf, now)])
    {
      var name := Normal(email);
      if !ValidEmail(name) || !ValidPassword(password) {
        return None;
      }
      var taken := name in store.data.users;
      var _ := store.Change(env, CreateUser(name, env.hash(password, salt)));
      if taken {
        return None;
      }
      hide Next;
      NextOne(env, old(store.data), CreateUser(name, env.hash(password, salt)));
      NextThen(env, old(store.data), [CreateUser(name, env.hash(password, salt))], NewSession(token, name, csrf, now));
      var s := CreateSession(name, token, csrf, now);
      session := Some(s);
    }

    // The session and the challenge are never both given.
    method Login(email: string, password: string, token: Token, csrf: Token, now: real)
      returns (session: Option<Sessions.Session>, challenge: Option<Challenge>)
      modifies store
      ensures var d, name := old(store.data), Normal(email);
        if name !in d.users || d.users[name].password.None? || !env.verify(password, d.users[name].password.value) then
          session.None? && challenge.None? && store.data == d
        else if d.users[name].mfaEnabled && d.users[name].mfaSecret.Some? then
          && session.None? && challenge == Some(Challenge(name, now + 600.0))
          && store.data == NextAll(env, d, [NewChallenge(token, name, now), Note(LoginMfaRequired(name))])
        else
          && session == Some(Sessions.Session(name, csrf, now + 43200.0)) && challenge.None?
          && store.data == NextAll(env, d, [NewSession(token, name, csrf, now), Note(Audit.Login(name))])
    {
      hide Next, Normal;
      session, challenge := None, None;
      var name := Normal(email);
      var d := store.data;
      if name !in d.users || d.users[name].password.None? || !env.verify(password, d.users[name].password.value) {
        return;
      }
      if d.users[name].mfaEnabled && d.users[name].mfaSecret.Some? {
        var c := CreateMfaChallenge(name, token, now);
        challenge := Some(c);
        var _ := store.Change(env, Note(LoginMfaRequired(name)));
        NextOne(env, d, NewChallenge(token, name, now));
        NextThen(env, d, [NewChallenge(token, name, now)], Note(LoginMfaRequired(name)));
      } else {
        var s := CreateSession(name, token, csrf, now);
        session := Some(s);
        var _ := store.Change(env, Note(Audit.Login(name)));
        NextOne(env, d, NewSession(token, name, csrf, now));
        NextThen(env, d, [NewSession(token, name, csrf, now)], Note(Audit.Login(name)));
      }
    }

    method CompleteMfaLogin(challenge: Token, token: Token, csrf: Token, now: real)
      returns (session: Option<Sessions.Session>)
      modifies store
      ensures session.Some? <==>
        challenge in old(store.data).challenges && now <= old(store.data).challenges[challenge].expires
      ensures challenge !in old(store.data).challenges ==> store.data == old(store.data)
      ensures session.None? && challenge in old(store.data).challenges ==>
        store.data == NextAll(env, old(store.data), Clearing(challenge))
      ensures session.Some? ==>
        var email := old(store.data).challenges[challenge].email;
        && session.value == Sessions.Session(email, csrf, now + 43200.0)
        && store.data == NextAll(env, old(store.data),
          Clearing(challenge) + [NewSession(token, email, csrf, now), Note(LoginMfaOk(email))])
    {
      hide Next;
      var d := store.data;
      if challenge !in d.challenges {
        return None;
      }
      if now > d.challenges[challenge].expires {
        ClearMfaChallenge(challenge);
        return None;
      }
      var email := d.challenges[challenge].email;
      ClearMfaChallenge(challenge);
      var s := CreateSession(email, token, csrf, now);
      var _ := store.Change(env, Note(LoginMfaOk(email)));
      session := Some(s);
      NextThen(env, d, Clearing(challenge), NewSession(token, email, csrf, now));
      NextThen(env, d, Clearing(challenge) + [NewSession(token, email, csrf, now)], Note(LoginMfaOk(email)));
      assert Clearing(challenge) + [NewSession(token, email, csrf, now)] + [Note(LoginMfaOk(email))]
        == Clearing(challenge) + [NewSession(token, email, csrf, now), Note(LoginMfaOk(email))];
    }

    // A challenge found expired is removed.
    method GetMfaChallenge(token: Token, now: real) returns (challenge: Option<Challenge>)
      modifies store
      ensures challenge == ChallengeOf(old(store.data), token, now)
      ensures token == "" || token !in old(store.data).challenges ==>
        challenge.None? && store.data == old(store.data)
      ensures token != "" && token in old(store.data).challenges ==>
        var c := old(store.data).challenges[token];
        if now <= c.expires then challenge == Some(c) && store.data == old(store.data)
        else challenge.None? && token !in store.data.challenges
      ensures store.data == NextAll(env, old(store.data), ExpiryPlan(old(store.data), token, now))
    {
      var d := store.data;
      if token == "" || token !in d.challenges {
        return None;
      }
      if now > d.challenges[token].expires {
        ClearMfaChallenge(token);
        return None;
      }
      challenge := Some(d.challenges[token]);
    }

    method ClearMfaChallenge(token: Token)
      modifies store
      ensures store.data == NextAll(env, old(store.data), Clearing(token))
    {
      hide Next;
      if token == "" {
        return;
      }
      var _ := store.Change(env, EndChallenge(token));
      NextOne(env, old(store.data), EndChallenge(token));
    }

    method MarkEmailVerified(email: string)
      modifies store
      ensures store.data == Next(env, old(store.data), MarkVerified(email))
    {
      var _ := store.Change(env, MarkVerified(email));
    }

    // Raises, without a change, when there is no such account.
    method BeginMfaEnrollment(email: string, secret: Secret) returns (r: Result<Secret, string>)
      modifies store
      ensures store.data == Next(env, old(store.data), BeginMfa(email, secret))
      ensures r == if email in old(store.data).users then Ok(secret) else Err(email)
    {
      var written := store.Change(env, BeginMfa(email, secret));
      r := if written then Ok(secret) else Err(email);
    }

    method ConfirmMfaEnrollment(email: string, code: string, now: real) returns (ok: bool)
      modifies store
      ensures email !in old(store.data).users ==> !ok && store.data == old(store.data)
      ensures email in old(store.data).users ==>
        var u := old(store.data).users[email];
        var secret := if u.mfaPending.Some? then u.mfaPending else u.mfaSecret;
        && (ok <==> secret.Some? && now >= 30.0 && Totp.Accepts(env.mac(secret.value), code, now))
        && store.data == if ok then Next(env, old(store.data), ConfirmMfa(email, secret.value)) else old(store.data)
    {
      hide Next;
      if email !in store.data.users {
        return false;
      }
      var secret := EnrolmentSecret(store.data.users[email]);
      if secret.None? {
        return false;
      }
      var accepted := VerifySecret(env, secret.value, code, now);
      if !accepted {
        return false;
      }
      var _ := store.Change(env, ConfirmMfa(email, secret.value));
      ok := true;
    }

    method Logout(token: Token)
      modifies store
      ensures store.data ==
        if token == "" then old(store.data)
        else Next(env, old(store.data), Mutation.EndSession(token))
      ensures token != "" && token in old(store.data).sessions ==>
        && token !in store.data.sessions
        && store.data.audit == old(store.data).audit + [Audit.Logout(old(store.data).sessions[token].email)]
    {
      if token == "" {
        return;
      }
      var _ := store.Change(env, Mutation.EndSession(token));
    }

    // A session found expired is ended.
    method GetSession(token: Token, now: real) returns (session: Option<Sessions.Session>)
      modifies store
      ensures session == SessionOf(old(store.data), token, now)
      ensures store.data == NextAll(env, old(store.data), LookupPlan(old(store.data), token, now))
      ensures token == "" || token !in old(store.data).sessions ==> session.None? && store.data == old(store.data)
      ensures token != "" && token in old(store.data).sessions ==>
        var s := old(store.data).sessions[token];
        if now < s.expires then session == Some(s) && store.data == old(store.data)
        else session.None? && token !in store.data.sessions && Audit.Logout(s.email) in store.data.audit
    {
      hide Next;
      var d := store.data;
      if token == "" || token !in d.sessions {
        return None;
      }
      if now >= d.sessions[token].expires {
        Logout(token);
        NextOne(env, d, Mutation.EndSession(token));
        return None;
      }
      session := Some(d.sessions[token]);
    }

    method ChoosePassword(email: string, password: string, confirm: string, salt: string) returns (ok: bool)
      modifies store
      ensures ok <==> ((confirm == "" || password == confirm) && ValidPassword(password)
                       && Normal(email) in old(store.data).users && old(store.data).users[Normal(email)].password.None?)
      ensures store.data ==
        if ok then Next(env, old(store.data), SetPassword(Normal(email), env.hash(password, salt)))
        else old(store.data)
    {
      var name := Normal(email);
      if (confirm != "" && password != confirm) || !ValidPassword(password) {
        return false;
      }
      ok := name in store.data.users && store.data.users[name].password.None?;
      var _ := store.Change(env, SetPassword(name, env.hash(password, salt)));
    }

    // Raises when the profile has no e-mail.
    method UpsertGithubUser(email: string, token: Token, csrf: Token, now: real)
      returns (r: Result<(Sessions.Session, bool), ()>)
      modifies store
      ensures r.Err? <==> Normal(email) == ""
      ensures r.Err? ==> store.data == old(store.data)
      ensures r.Ok? ==>
        && Normal(email) in store.data.users
        && store.data.users[Normal(email)].emailVerified && store.data.users[Normal(email)].github
      ensures r.Ok? && Normal(email) !in old(store.data).users ==>
        store.data.users[Normal(email)] == User(None, Operator, true, false, None, None, true, None, None, None)
      ensures r.Ok? ==>
        && r.value == (Sessions.Session(Normal(email), csrf, now + 43200.0),
          Normal(email) !in old(store.data).users)
        && store.data == NextAll(env, old(store.data),
          [UpsertGithub(Normal(email)), NewSession(token, Normal(email), csrf, now)])
    {
      hide Next;
      var name := Normal(email);
      if name == "" {
        return Err(());
      }
      Vouched(env, store.data, name);
      SessionKeepsUsers(env, Next(env, store.data, UpsertGithub(name)), NewSession(token, name, csrf, now));
      var created := name !in store.data.users;
      var _ := store.Change(env, UpsertGithub(name));
      var s := CreateSession(name, token, csrf, now);
      r := Ok((s, created));
      NextOne(env, old(store.data), UpsertGithub(name));
      NextThen(env, old(store.data), [UpsertGithub(name)], NewSession(token, name, csrf, now));
    }

    method CreateMfaChallenge(email: string, token: Token, now: real) returns (c: Challenge)
      modifies store
      ensures store.data == Next(env, old(store.data), NewChallenge(token, email, now))
      ensures c == Challenge(email, now + 600.0)
      ensures token in store.data.challenges && store.data.challenges[token] == c
    {
      c := Challenge(email, now + CHALLENGE_TTL);
      var _ := store.Change(env, NewChallenge(token, email, now));
    }

    method CreateSession(email: string, token: Token, csrf: Token, now: real) returns (s: Sessions.Session)
      modifies store
      ensures store.data == Next(env, old(store.data), NewSession(token, email, csrf, now))
      ensures s == Sessions.Session(email, csrf, now + 43200.0)
      ensures token in store.data.sessions && store.data.sessions[token] == s
    {
      s := Sessions.Session(email, csrf, now + Sessions.TTL);
      var _ := store.Change(env, NewSession(token, email, csrf, now));
    }
  }

  lemma Vouched(env: Env, d: Data, email: string)
    ensures var d' := Next(env, d, UpsertGithub(email));
      && email in d'.users && d'.users[email].emailVerified && d'.users[email].github
      && (email !in d.users ==>
            d'.users[email] == User(None, Operator, true, false, None, None, true, None, None, None))
  {
  }

  lemma SessionKeepsUsers(env: Env, d: Data, m: Mutation)
    requires m.NewSession?
    ensures Next(env, d, m).users == d.users
  {
  }

  // A check that raises has the effect of a refusal: the handler ends without a change.
  method VerifySecret(env: Env, secret: Secret, code: string, now: real) returns (ok: bool)
    ensures ok == env.AcceptsTotp(secret, code, now)
  {
    var r := Totp.VerifyTotp(env.mac(secret), code, now);
    if Totp.Accepts(env.mac(secret), code, now) {
      Totp.AcceptedWellFormed(env.mac(secret), code, now);
    }
    hide Totp.Accepts, Totp.WellFormed;
    ok := r.Ok? && r.value;
  }

  function Clearing(token: Token): seq<Mutation>
  {
    if token == "" then [] else [EndChallenge(token)]
  }

  class OtpService {
    const store: JsonStore
    const env: Env

    constructor (store: JsonStore, env: Env)
      ensures this.store == store && this.env == env
    {
      this.store := store;
      this.env := env;
    }

    method Issue(email: string, purpose: string, code: string, salt: string, now: real)
      modifies store
      ensures store.data == Next(env, old(store.data), IssueCode(Normal(email), purpose, code, salt, now))
      ensures var key := Otp.Key(Normal(email), purpose);
        && key in store.data.otps && store.data.otps[key] == Otp.Record(salt, env.digest(code, salt), now + 600.0, 0)
    {
      var _ := store.Change(env, IssueCode(Normal(email), purpose, code, salt, now));
    }

    // A malformed code does not reach the store. The answer is worked out while the record is
    // changed; it is the one the table gave before, and an accepted code cannot be used again.
    method Verify(email: string, purpose: string, code: string, now: real) returns (ok: bool)
      modifies store
      ensures ok == CodeOk(env, old(store.data), Normal(email), purpose, code, now)
      ensures var key, otps := Otp.Key(Normal(email), purpose), old(store.data).otps;
        ok <==>
          && AllDigits(Strip(code)) && |Strip(code)| == 6 && key in otps && now <= otps[key].expires
          && otps[key].attempts < 5 && otps[key].hash == env.digest(Strip(code), otps[key].salt)
      ensures store.data == Next(env, old(store.data), TryCode(Normal(email), purpose, code, now))
      ensures var key := Otp.Key(Normal(email), purpose);
        && (ok ==> key in old(store.data).otps && key !in store.data.otps)
        && (Otp.WellFormed(code) && key in old(store.data).otps
            && (now > old(store.data).otps[key].expires || old(store.data).otps[key].attempts >= 5) ==>
              key !in store.data.otps)
        && forall k :: k != key ==> Otp.At(store.data.otps, k) == Otp.At(old(store.data).otps, k)
    {
      hide Normal, Strip;
      var name, entry := Normal(email), Strip(code);
      if !AllDigits(entry) || |entry| != Otp.OTP_DIGITS {
        return false;
      }
      ok := false;
      var key, otps, audit := Otp.Key(name, purpose), store.data.otps, store.data.audit;
      hide Otp.Key;
      if key in otps {
        var record := otps[key];
        if now > record.expires || record.attempts >= Otp.MAX_ATTEMPTS {
          otps := otps - {key};
        } else {
          otps := otps[key := record.(attempts := record.attempts + 1)];
          if record.hash == env.digest(entry, record.salt) {
            otps := otps - {key};
            audit := audit + [OtpVerified(name, purpose)];
            ok := true;
          }
        }
      }
      store.Write(store.data.(otps := otps, audit := audit));
    }
  }

  class BillingService {
    const store: JsonStore
    const env: Env

    constructor (store: JsonStore, env: Env)
      ensures this.store == store && this.env == env
    {
      this.store := store;
      this.env := env;
    }

    // A refused or impossible election leaves the store alone.
    method AttachMembership(email: string, tierId: string, cadence: string, autopay: bool, card: Card, accepted: bool)
      returns (ok: bool)
      modifies store
      ensures ok <==>
        && accepted && GetTier(tierId).Some? && email in old(store.data).users
        && (cadence == "" || Normal(cadence) == "monthly" || Normal(cadence) == "annual")
      ensures !ok ==> store.data == old(store.data)
      ensures ok ==> store.data == Next(env, old(store.data), Activate(email, Elected(tierId, cadence, autopay), card))
    {
      hide Normal, GetTier;
      if !accepted || GetTier(tierId).None? {
        return false;
      }
      CadenceRead(cadence);
      var tier := GetTier(tierId).value;
      var norm := ChargedCadence(cadence);
      if norm != "monthly" && norm != "annual" {
        return false;
      }
      var amount := if norm == "annual" then tier.annual else tier.monthly;
      ok := store.Change(env, Activate(email, Membership(tier.id, norm, amount, autopay), card));
    }
  }

  function Elected(tierId: string, cadence: string, autopay: bool): Membership
    requires GetTier(tierId).Some?
  {
    var tier, norm := GetTier(tierId).value, ChargedCadence(cadence);
    Membership(tier.id, norm, Price(tier, norm), autopay)
  }

  // int of a string of digits, as Python reads it.
  method ReadNumber(digits: seq<Luhn.Digit>) returns (n: nat)
    ensures n == NumberOf(digits)
  {
    n := 0;
    for i := 0 to |digits|
      invariant n == NumberOf(digits[..i])
    {
      assert digits[..i + 1][..i] == digits[..i];
      n := 10 * n + digits[i];
    }
    assert digits[..|digits|] == digits;
  }

  // A card is kept as a token and the last four digits of a number that passes the check.
  method TokenizeCard(number: string, fields: CardFields, id: Token) returns (card: Option<Card>)
    ensures card.Some? <==>
      && Luhn.Valid(Luhn.Digits(number)) && 1 <= NumberOf(Luhn.Digits(fields.month)) <= 12
      && (|Luhn.Digits(fields.year)| == 2 || |Luhn.Digits(fields.year)| == 4)
      && (|Luhn.Digits(fields.cvc)| == 3 || |Luhn.Digits(fields.cvc)| == 4) && Strip(fields.name) != ""
    ensures card.Some? <==> Luhn.Valid(Luhn.Digits(number)) && CardFieldsOk(fields)
    ensures card.Some? ==> card.value.id == id && |card.value.last4| == 4
    ensures card.Some? ==> card.value.last4 == LastFour(Luhn.Digits(number))
    ensures card.Some? ==> forall i :: 0 <= i < 4 ==>
      card.value.last4[i] == Luhn.Digits(number)[|Luhn.Digits(number)| - 4 + i]
  {
    var pan := Luhn.ReadDigits(number);
    var cvc := Luhn.ReadDigits(fields.cvc);
    var monthDigits := Luhn.ReadDigits(fields.month);
    var year := Luhn.ReadDigits(fields.year);
    var ok := Luhn.LuhnOk(number);
    if !ok {
      return None;
    }
    var month := ReadNumber(monthDigits);
    if !(1 <= month <= 12) {
      return None;
    }
    if |year| == 2 {
      year := [2, 0] + year;
    }
    if |year| != 4 || |cvc| < 3 || |cvc| > 4 || Strip(fields.name) == "" {
      return None;
    }
    card := Some(Card(id, LastFour(pan)));
  }

  class RbacService {
    const store: JsonStore
    const env: Env

    constructor (store: JsonStore, env: Env)
      ensures this.store == store && this.env == env
    {
      this.store := store;
      this.env := env;
    }

    method AssignRole(actor: string, target: string, name: string) returns (ok: bool)
      modifies store
      ensures ok <==> (Can(old(store.data), actor, RolesAssign) && target in old(store.data).users
                       && (ParseRole(name) == Owner ==> RoleOf(old(store.data), actor) == Owner))
      ensures store.data ==
        if ok then Next(env, old(store.data), Assign(actor, target, ParseRole(name)))
        else old(store.data)
    {
      hide Permissions, ParseRole;
      if !Can(store.data, actor, RolesAssign) {
        return false;
      }
      var role := ParseRole(name);
      if role == Owner && RoleOf(store.data, actor) != Owner {
        return false;
      }
      ok := store.Change(env, Assign(actor, target, role));
    }
  }
}
