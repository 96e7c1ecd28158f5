// Sign-in sessions of ross_ai/auth.py: created, looked up and ended, with expired ones pruned
// whenever a new one is created.
module Sessions {
  import opened Outcomes

  type Token = string

  const TTL: real := 43200.0

  datatype Session = Session(email: string, csrf: Token, expires: real)

  type Table = map<Token, Session>

  // ----- The operations of the source -----

  function Prune(s: Table, now: real): Table
  {
    map k | k in s && !(s[k].expires < now) :: s[k]
  }

  function CreateSession(s: Table, token: Token, email: string, csrf: Token, now: real): Table
  {
    Prune(s, now)[token := Session(email, csrf, now + TTL)]
  }

  // A lookup ends a session that has expired.
  function GetSession(s: Table, token: Token, now: real): (Option<Session>, Table)
  {
    if token == "" || token !in s then (None, s)
    else if now >= s[token].expires then (None, s - {token})
    else (Some(s[token]), s)
  }

  function Logout(s: Table, token: Token): Table
  {
    s - {token}
  }

  // ----- Runs -----

  datatype Op =
    | Create(token: Token, email: string, csrf: Token, at: real)
    | Get(token: Token, at: real)
    | End(token: Token, at: real)

  function After(s: Table, op: Op): Table
  {
    match op
    case Create(token, email, csrf, at) => CreateSession(s, token, email, csrf, at)
    case Get(token, at) => GetSession(s, token, at).1
    case End(token, _) => Logout(s, token)
  }

  function Run(ops: seq<Op>): Table
  {
    if ops == [] then map[] else After(Run(ops[..|ops| - 1]), ops[|ops| - 1])
  }

  // The clock does not run backwards over the operations and up to the time `now`.
  ghost predicate Ordered(ops: seq<Op>, now: real)
  {
    ops == [] || (ops[|ops| - 1].at <= now && Ordered(ops[..|ops| - 1], ops[|ops| - 1].at))
  }

  // ----- The reference: what the history alone says -----

  // The latest creation of the token, unless it was ended since.
  function Latest(ops: seq<Op>, token: Token): Option<Session>
  {
    if ops == [] then None
    else
      var op := ops[|ops| - 1];
      if op.token == token && op.Create? then Some(Session(op.email, op.csrf, op.at + 43200.0))
      else if op.token == token && op.End? then None
      else Latest(ops[..|ops| - 1], token)
  }

  function InForce(ops: seq<Op>, token: Token, now: real): Option<Session>
  {
    var latest := Latest(ops, token);
    if latest.Some? && now < latest.value.expires then latest else None
  }

  function Visible(s: Table, token: Token, now: real): Option<Session>
  {
    if token in s && now < s[token].expires then Some(s[token]) else None
  }

  lemma {:induction false} TableAgreesWithHistory(ops: seq<Op>, token: Token, now: real)
    requires Ordered(ops, now)
    ensures Visible(Run(ops), token, now) == InForce(ops, token, now)
    decreases |ops|
  {
    if ops != [] {
      var front, op := ops[..|ops| - 1], ops[|ops| - 1];
      EarlierOrdered(front, op.at, now);
      TableAgreesWithHistory(front, token, now);
      TableAgreesWithHistory(front, token, op.at);
    }
  }

  lemma EarlierOrdered(ops: seq<Op>, before: real, now: real)
    requires Ordered(ops, before) && before <= now
    ensures Ordered(ops, now)
  {
  }

  // Pruning is invisible: every lookup answers from the history alone, as a table that never
  // forgets would.
  lemma LookupFromHistory(ops: seq<Op>, token: Token, now: real)
    requires Ordered(ops, now) && token != ""
    ensures GetSession(Run(ops), token, now).0 == InForce(ops, token, now)
  {
    TableAgreesWithHistory(ops, token, now);
  }

  // A session is returned exactly when it was created under 12 hours earlier for that e-mail
  // and neither replaced nor ended since.
  lemma LookupMeans(ops: seq<Op>, token: Token, now: real, email: string, csrf: Token)
    requires Ordered(ops, now) && token != ""
    ensures (exists x :: GetSession(Run(ops), token, now).0 == Some(Session(email, csrf, x))) <==>
      exists i :: 0 <= i < |ops| && CreatedAt(ops, i, token, email, csrf) && now < ops[i].at + 43200.0
  {
    LookupFromHistory(ops, token, now);
    if i :| 0 <= i < |ops| && CreatedAt(ops, i, token, email, csrf) && now < ops[i].at + 43200.0 {
      LatestIs(ops, i, token);
      assert GetSession(Run(ops), token, now).0 == Some(Session(email, csrf, ops[i].at + 43200.0));
    }
    if x :| GetSession(Run(ops), token, now).0 == Some(Session(email, csrf, x)) {
      var i := LatestFrom(ops, token);
      assert CreatedAt(ops, i, token, email, csrf);
    }
  }

  ghost predicate CreatedAt(ops: seq<Op>, i: nat, token: Token, email: string, csrf: Token)
    requires i < |ops|
  {
    && ops[i].Create? && ops[i].token == token && ops[i].email == email && ops[i].csrf == csrf
    && forall j :: i < j < |ops| && ops[j].token == token ==> ops[j].Get?
  }

  lemma {:induction false} LatestIs(ops: seq<Op>, i: nat, token: Token)
    requires i < |ops| && ops[i].Create? && ops[i].token == token
    requires forall j :: i < j < |ops| && ops[j].token == token ==> ops[j].Get?
    ensures Latest(ops, token) == Some(Session(ops[i].email, ops[i].csrf, ops[i].at + 43200.0))
    decreases |ops|
  {
    if i < |ops| - 1 {
      LatestIs(ops[..|ops| - 1], i, token);
    }
  }

  lemma {:induction false} LatestFrom(ops: seq<Op>, token: Token) returns (i: nat)
    requires Latest(ops, token).Some?
    ensures i < |ops| && ops[i].Create? && ops[i].token == token
    ensures Latest(ops, token) == Some(Session(ops[i].email, ops[i].csrf, ops[i].at + 43200.0))
    ensures forall j :: i < j < |ops| && ops[j].token == token ==> ops[j].Get?
    decreases |ops|
  {
    var op := ops[|ops| - 1];
    if op.token == token && op.Create? {
      i := |ops| - 1;
    } else {
      i := LatestFrom(ops[..|ops| - 1], token);
    }
  }

  // Creating a session forgets those that have expired, and no others.
  lemma CreationForgets(s: Table, token: Token, email: string, csrf: Token, now: real, other: Token)
    requires other != token
    ensures other in CreateSession(s, token, email, csrf, now) <==> other in s && s[other].expires >= now
    ensures other in s && s[other].expires >= now ==> CreateSession(s, token, email, csrf, now)[other] == s[other]
  {
  }
}
