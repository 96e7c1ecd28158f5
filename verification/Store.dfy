// The control plane's store (ross_ai/store.py) and the closures that change it. Each closure
// runs alone under the store's lock, on what was just read, and replaces the file only if it
// does not raise.
module Store {
  import opened Outcomes
  import opened Roles
  import opened Text
  import Luhn
  import Otp
  import Sessions
  import Totp

  type Token = Sessions.Token

  // A TOTP secret, known only by its identity.
  type Secret = nat

  datatype Card = Card(id: Token, last4: seq<Luhn.Digit>)

  datatype Membership = Membership(tierId: string, cadence: string, amount: nat, autopay: bool)

  datatype Election = Election(tierId: string, cadence: string)

  datatype User = User(
    password: Option<string>,
    role: Role,
    emailVerified: bool,
    mfaEnabled: bool,
    mfaSecret: Option<Secret>,
    mfaPending: Option<Secret>,
    github: bool,
    membership: Option<Membership>,
    card: Option<Card>,
    election: Option<Election>)

  datatype Challenge = Challenge(email: string, expires: real)

  datatype Charge = Charge(email: string, tierId: string, amount: nat, last4: seq<Luhn.Digit>)

  datatype Audit =
    | Signup(email: string)
    | SignupGithub(email: string)
    | LoginGithub(email: string)
    | Login(email: string)
    | LoginMfaRequired(email: string)
    | LoginMfaOk(email: string)
    | Logout(email: string)
    | EmailVerified(email: string)
    | PasswordSet(email: string)
    | MfaEnabled(email: string)
    | OtpIssued(email: string, purpose: string)
    | OtpVerified(email: string, purpose: string)
    | RoleAssigned(actor: string, email: string, before: Role, after: Role)
    | MembershipElected(email: string, tierId: string, cadence: string, amount: nat, last4: seq<Luhn.Digit>)

  datatype Data = Data(
    users: map<string, User>,
    sessions: Sessions.Table,
    challenges: map<Token, Challenge>,
    otps: Otp.Table,
    audit: seq<Audit>,
    charges: seq<Charge>)

  const EMPTY: Data := Data(map[], map[], map[], map[], [], [])

  const CHALLENGE_TTL: real := 600.0

  // The functions of passwords, codes and secrets that the store does not look into.
  datatype Env = Env(
    hash: (string, string) -> string,
    verify: (string, string) -> bool,
    digest: Otp.Digest,
    mac: Secret -> Totp.Mac)
  {
    // Before the second step after the epoch the check raises.
    predicate AcceptsTotp(secret: Secret, code: string, now: real)
    {
      now >= Totp.STEP && Totp.Accepts(mac(secret), code, now)
    }
  }

  // ----- The closures given to the store -----

  datatype Mutation =
    | CreateUser(email: string, hash: string)
    | UpsertGithub(email: string)
    | MarkVerified(email: string)
    | SetPassword(email: string, hash: string)
    | BeginMfa(email: string, secret: Secret)
    | ConfirmMfa(email: string, secret: Secret)
    | NewSession(token: Token, email: string, csrf: Token, now: real)
    | EndSession(token: Token)
    | NewChallenge(token: Token, email: string, now: real)
    | EndChallenge(token: Token)
    | IssueCode(email: string, purpose: string, code: string, salt: string, now: real)
    | TryCode(email: string, purpose: string, code: string, now: real)
    | Note(entry: Audit)
    | Elect(email: string, election: Election)
    | ClearElection(email: string)
    | Activate(email: string, membership: Membership, card: Card)
    | Assign(actor: string, target: string, role: Role)

  function NewUser(password: Option<string>, verified: bool, github: bool): User
  {
    User(password, DEFAULT_ROLE, verified, false, None, None, github, None, None, None)
  }

  function PutUser(d: Data, email: string, u: User): Data
  {
    d.(users := d.users[email := u])
  }

  function Logged(d: Data, entry: Audit): Data
  {
    d.(audit := d.audit + [entry])
  }

  // None when the closure raises.
  function Commit(env: Env, d: Data, m: Mutation): Option<Data>
  {
    match m
    case CreateUser(email, hash) =>
      Some(if email in d.users then d
           else Logged(PutUser(d, email, NewUser(Some(hash), false, false)), Signup(email)))
    case UpsertGithub(email) =>
      Some(if email in d.users then
             Logged(PutUser(d, email, d.users[email].(github := true, emailVerified := true)), LoginGithub(email))
           else Logged(PutUser(d, email, NewUser(None, true, true)), SignupGithub(email)))
    case MarkVerified(email) =>
      Some(if email in d.users then
             Logged(PutUser(d, email, d.users[email].(emailVerified := true)), EmailVerified(email))
           else d)
    case SetPassword(email, hash) =>
      Some(if email in d.users && d.users[email].password.None? then
             Logged(PutUser(d, email, d.users[email].(password := Some(hash))), PasswordSet(email))
           else d)
    case BeginMfa(email, secret) =>
      if email in d.users then Some(PutUser(d, email, d.users[email].(mfaPending := Some(secret)))) else None
    case ConfirmMfa(email, secret) =>
      Some(if email in d.users then
             var u := d.users[email].(mfaSecret := Some(secret), mfaEnabled := true, mfaPending := None);
             Logged(PutUser(d, email, u), MfaEnabled(email))
           else d)
    case NewSession(token, email, csrf, now) =>
      Some(d.(sessions := Sessions.CreateSession(d.sessions, token, email, csrf, now)))
    case EndSession(token) =>
      Some(if token in d.sessions then
             Logged(d.(sessions := Sessions.Logout(d.sessions, token)), Logout(d.sessions[token].email))
           else d)
    case NewChallenge(token, email, now) =>
      Some(d.(challenges := (map k | k in d.challenges && !(d.challenges[k].expires < now) :: d.challenges[k])
                            [token := Challenge(email, now + CHALLENGE_TTL)]))
    case EndChallenge(token) =>
      Some(d.(challenges := d.challenges - {token}))
    case IssueCode(email, purpose, code, salt, now) =>
      Some(Logged(d.(otps := Otp.Issue(d.otps, Otp.Key(email, purpose), code, salt, now, env.digest)),
        OtpIssued(email, purpose)))
    case TryCode(email, purpose, code, now) =>
      var (answer, otps) := Otp.Verify(d.otps, Otp.Key(email, purpose), code, now, env.digest);
      Some(if answer == Otp.Verified then Logged(d.(otps := otps), OtpVerified(email, purpose)) else d.(otps := otps))
    case Note(entry) =>
      Some(Logged(d, entry))
    case Elect(email, election) =>
      if email in d.users then Some(PutUser(d, email, d.users[email].(election := Some(election)))) else None
    case ClearElection(email) =>
      Some(if email in d.users then PutUser(d, email, d.users[email].(election := None)) else d)
    case Activate(email, membership, card) =>
      if email !in d.users then None
      else
        var u := d.users[email].(membership := Some(membership), card := Some(card));
        var d1 := Logged(PutUser(d, email, u),
          MembershipElected(email, membership.tierId, membership.cadence, membership.amount, card.last4));
        Some(d1.(charges := d1.charges + [Charge(email, membership.tierId, membership.amount, card.last4)]))
    case Assign(actor, target, role) =>
      if target !in d.users then None
      else
        Some(Logged(PutUser(d, target, d.users[target].(role := role)),
          RoleAssigned(actor, target, d.users[target].role, role)))
  }

  // A closure that raises leaves the store as it was.
  function Next(env: Env, d: Data, m: Mutation): Data
  {
    var r := Commit(env, d, m);
    if r.Some? then r.value else d
  }

  function NextAll(env: Env, d: Data, ms: seq<Mutation>): Data
    decreases |ms|
  {
    if ms == [] then d else NextAll(env, Next(env, d, ms[0]), ms[1..])
  }

  lemma {:induction false} NextAllConcat(env: Env, d: Data, ms: seq<Mutation>, ns: seq<Mutation>)
    ensures NextAll(env, d, ms + ns) == NextAll(env, NextAll(env, d, ms), ns)
    decreases |ms|
  {
    hide Next;
    if ms == [] {
      assert ms + ns == ns;
    } else {
      assert (ms + ns)[1..] == ms[1..] + ns;
      NextAllConcat(env, Next(env, d, ms[0]), ms[1..], ns);
    }
  }

  lemma NextOne(env: Env, d: Data, m: Mutation)
    ensures NextAll(env, d, [m]) == Next(env, d, m)
  {
    hide Next;
    assert [m][1..] == [];
  }

  lemma NextThen(env: Env, d: Data, ms: seq<Mutation>, m: Mutation)
    ensures NextAll(env, d, ms + [m]) == Next(env, NextAll(env, d, ms), m)
  {
    hide Next;
    NextAllConcat(env, d, ms, [m]);
    NextOne(env, NextAll(env, d, ms), m);
  }

  class JsonStore {
    var data: Data

    constructor ()
      ensures data == EMPTY
    {
      data := EMPTY;
    }

    // Reads, lets the closure work on the copy, and writes back unless it raised.
    method Update(mutate: Data -> Option<Data>) returns (written: bool)
      modifies this
      ensures written == mutate(old(data)).Some?
      ensures data == if written then mutate(old(data)).value else old(data)
    {
      var copy := mutate(data);
      written := copy.Some?;
      if written {
        data := copy.value;
      }
    }

    // What a closure made of the copy replaces what was read.
    method Write(copy: Data)
      modifies this
      ensures data == copy
    {
      data := copy;
    }

    method Change(env: Env, m: Mutation) returns (written: bool)
      modifies this
      ensures written == Commit(env, old(data), m).Some?
      ensures data == Next(env, old(data), m)
    {
      written := Update(d => Commit(env, d, m));
    }
  }
}
