// What a store reached by a run of requests says about the requests of that run.
module Histories {
  import opened Guarantees
  import opened Outcomes
  import opened Platform
  import opened Roles
  import opened Store
  import opened Text
  import Ledger
  import Otp
  import Sessions

  // ----- Sequential runs keep accounts safe -----

  lemma {:induction false} EntitledSafe(env: Env, d: Data, ms: seq<Mutation>)
    requires AllEntitled(env, d, ms) && Safe(d)
    ensures Safe(NextAll(env, d, ms)) && Onward(d, NextAll(env, d, ms))
    decreases |ms|
  {
    hide Next, Safe, Licensed;
    if ms != [] {
      var d1 := Next(env, d, ms[0]);
      OnwardItself(d);
      CommitSafe(env, d, d, ms[0]);
      CommitOnward(env, d, ms[0]);
      EntitledSafe(env, d1, ms[1..]);
      OnwardTransitive(d, d1, NextAll(env, d, ms));
    }
  }

  lemma OnwardItself(d: Data)
    ensures Onward(d, d)
  {
  }

  lemma {:induction false} ServeSafe(env: Env, d: Data, rs: seq<Request>, k: nat)
    requires Safe(d) && k <= |rs|
    ensures Safe(Serve(env, d, rs)) && Onward(Serve(env, d, rs[..k]), Serve(env, d, rs))
    decreases |rs|
  {
    hide Safe, Onward, Plan;
    if k == |rs| {
      assert rs[..k] == rs;
      OnwardItself(Serve(env, d, rs));
    }
    if rs != [] {
      var front, r := rs[..|rs| - 1], rs[|rs| - 1];
      ServeSafe(env, d, front, if k < |rs| then k else 0);
      var d1 := Serve(env, d, front);
      PlanEntitled(env, d1, r);
      EntitledSafe(env, d1, Plan(env, d1, r));
      if k < |rs| {
        assert front[..k] == rs[..k];
        OnwardTransitive(Serve(env, d, rs[..k]), d1, Serve(env, d, rs));
      }
    }
  }

  // ----- A run answered one request at a time is one of the interleavings -----

  lemma RacedMore(env: Env, states: seq<Data>, ms: seq<Mutation>, m: Mutation)
    requires Raced(env, states, ms) && Licensed(states[|ms|], m)
    ensures Raced(env, states + [Next(env, states[|ms|], m)], ms + [m])
  {
    hide Next, Licensed;
    var states', ms' := states + [Next(env, states[|ms|], m)], ms + [m];
    forall i | 0 <= i < |ms'|
      ensures states'[i + 1] == Next(env, states'[i], ms'[i]) && LicensedBefore(states', i, ms'[i]) {
      if i < |ms| {
        assert LicensedBefore(states, i, ms[i]);
        var k :| 0 <= k <= i && Licensed(states[k], ms[i]);
        assert states'[k] == states[k];
      } else {
        assert Licensed(states'[i], m);
      }
    }
  }

  lemma {:induction false} RacedPlan(env: Env, states: seq<Data>, ms: seq<Mutation>, ns: seq<Mutation>)
    returns (states': seq<Data>, ms': seq<Mutation>)
    requires Raced(env, states, ms) && AllEntitled(env, states[|ms|], ns)
    ensures Raced(env, states', ms') && states'[0] == states[0] && states'[|ms'|] == NextAll(env, states[|ms|], ns)
    decreases |ns|
  {
    hide Next, Licensed, LicensedBefore;
    states', ms' := states, ms;
    if ns != [] {
      RacedMore(env, states, ms, ns[0]);
      states', ms' := RacedPlan(env, states + [Next(env, states[|ms|], ns[0])], ms + [ns[0]], ns[1..]);
    }
  }

  lemma {:induction false} ServeIsRaced(env: Env, d: Data, rs: seq<Request>)
    returns (states: seq<Data>, ms: seq<Mutation>)
    ensures Raced(env, states, ms) && states[0] == d && states[|ms|] == Serve(env, d, rs)
    decreases |rs|
  {
    hide Plan, LicensedBefore;
    if rs == [] {
      states, ms := [d], [];
    } else {
      var front, r := rs[..|rs| - 1], rs[|rs| - 1];
      states, ms := ServeIsRaced(env, d, front);
      PlanEntitled(env, Serve(env, d, front), r);
      states, ms := RacedPlan(env, states, ms, Plan(env, Serve(env, d, front), r));
    }
  }

  // In every store the platform reaches from an empty one, second factors, memberships,
  // charges and roles are in order, and the audit log accounts for each role.
  lemma ReachableStores(env: Env, rs: seq<Request>)
    ensures var d := Serve(env, EMPTY, rs);
      && Safe(d) && NormalKeys(d) && Ledger.Balanced(d)
      && RolesOf(d) == Replay(map[], d.audit)
      && forall email :: email in d.users ==> d.users[email].role == Operator
  {
    var states, ms := ServeIsRaced(env, EMPTY, rs);
    hide Next, LicensedBefore, Serve, Safe, NormalKeys, Ledger.Balanced;
    var d := Serve(env, EMPTY, rs);
    SafeAndBalancedAtFirst();
    RacedSafe(env, states, ms, |ms|);
    RacedNormal(env, states, ms, |ms|);
    Ledger.LedgerUnderRaces(env, states, ms, |ms|);
    AuditReplaysRoles(env, states, ms, |ms|);
    assert Since(EMPTY, d) == d.audit && RolesOf(EMPTY) == map[];
    NoEscalation(env, states, ms, |ms|);
  }

  lemma SafeAndBalancedAtFirst()
    ensures Safe(EMPTY) && NormalKeys(EMPTY) && Ledger.Balanced(EMPTY) && NoAssigner(EMPTY)
  {
    Ledger.EmptyBalanced();
  }

  // The clock does not run backwards over the requests and up to the time `now`.
  ghost predicate Ordered(rs: seq<Request>, now: real)
  {
    rs == [] || (rs[|rs| - 1].now <= now && Ordered(rs[..|rs| - 1], rs[|rs| - 1].now))
  }

  // ----- The platform's sessions are a run of the session table -----

  function SessionOps(m: Mutation, at: real): seq<Sessions.Op>
  {
    match m
    case NewSession(token, email, csrf, now) => [Sessions.Create(token, email, csrf, now)]
    case EndSession(token) => [Sessions.End(token, at)]
    case _ => []
  }

  function CodeOps(m: Mutation): seq<Otp.Op>
  {
    match m
    case IssueCode(email, purpose, code, salt, now) => [Otp.Issued(Otp.Key(email, purpose), code, salt, now)]
    case TryCode(email, purpose, code, now) => [Otp.Tried(Otp.Key(email, purpose), code, now)]
    case _ => []
  }

  function AllSessionOps(ms: seq<Mutation>, at: real): seq<Sessions.Op>
    decreases |ms|
  {
    if ms == [] then [] else AllSessionOps(ms[..|ms| - 1], at) + SessionOps(ms[|ms| - 1], at)
  }

  function AllCodeOps(ms: seq<Mutation>): seq<Otp.Op>
    decreases |ms|
  {
    if ms == [] then [] else AllCodeOps(ms[..|ms| - 1]) + CodeOps(ms[|ms| - 1])
  }

  function SessionHistory(env: Env, rs: seq<Request>): seq<Sessions.Op>
  {
    if rs == [] then []
    else
      var front, r := rs[..|rs| - 1], rs[|rs| - 1];
      SessionHistory(env, front) + AllSessionOps(Plan(env, Serve(env, EMPTY, front), r), r.now)
  }

  function CodeHistory(env: Env, rs: seq<Request>): seq<Otp.Op>
  {
    if rs == [] then []
    else
      var front, r := rs[..|rs| - 1], rs[|rs| - 1];
      CodeHistory(env, front) + AllCodeOps(Plan(env, Serve(env, EMPTY, front), r))
  }

  // The closures of a request carry the request's time.
  predicate TimedAt(m: Mutation, at: real)
  {
    match m
    case NewSession(_, _, _, now) => now == at
    case NewChallenge(_, _, now) => now == at
    case IssueCode(_, _, _, _, now) => now == at
    case TryCode(_, _, _, now) => now == at
    case _ => true
  }

  lemma PlanTimed(env: Env, d: Data, r: Request)
    ensures forall m :: m in Plan(env, d, r) ==> TimedAt(m, r.now)
  {
    hide SignUpPlan, SignInPlan, MfaPlan, MfaEmailPlan, AccountPlan, AccountOf, SessionOf, CsrfOk;
    OutsidePlanTimed(env, d, r);
    var account := AccountOf(d, r.cookie, r.now);
    if account.Some? {
      AccountExists(d, r.cookie, r.now);
      AccountPlanTimed(env, d, r, account.value);
    }
  }

  lemma AccountExists(d: Data, cookie: Token, now: real)
    ensures AccountOf(d, cookie, now).Some? ==> AccountOf(d, cookie, now).value in d.users
  {
  }

  lemma OutsidePlanTimed(env: Env, d: Data, r: Request)
    ensures r.body.SignUp? ==> forall m :: m in SignUpPlan(env, d, r.now, r.body) ==> TimedAt(m, r.now)
    ensures r.body.SignIn? ==> forall m :: m in SignInPlan(env, d, r.now, r.body) ==> TimedAt(m, r.now)
    ensures r.body.MfaEmail? ==> forall m :: m in MfaEmailPlan(d, r.now, r.body) ==> TimedAt(m, r.now)
    ensures r.body.Mfa? ==> forall m :: m in MfaPlan(env, d, r.now, r.body) ==> TimedAt(m, r.now)
  {
    hide Normal, CodeOk, ChallengeOf, FactorOk, PasswordOk;
  }

  lemma AccountPlanTimed(env: Env, d: Data, r: Request, email: string)
    requires email in d.users
    ensures forall m :: m in AccountPlan(env, d, r, email) ==> TimedAt(m, r.now)
  {
    hide Normal, CodeOk, CsrfOk, GetTier;
  }

  lemma SessionsStep(env: Env, d: Data, m: Mutation, h: seq<Sessions.Op>, at: real)
    requires d.sessions == Sessions.Run(h)
    ensures Next(env, d, m).sessions == Sessions.Run(h + SessionOps(m, at))
  {
    hide Otp.Verify, Otp.Issue, Otp.Key, Sessions.CreateSession, Sessions.Run;
    var ops := SessionOps(m, at);
    if ops == [] {
      assert h + ops == h;
    } else {
      RunOneMore(h, ops[0]);
      assert h + [ops[0]] == h + ops;
    }
  }

  lemma RunOneMore(h: seq<Sessions.Op>, op: Sessions.Op)
    ensures Sessions.Run(h + [op]) == Sessions.After(Sessions.Run(h), op)
  {
    hide Sessions.After;
    assert (h + [op])[..|h|] == h;
  }

  lemma CodesStep(env: Env, d: Data, m: Mutation, t: Otp.Table, h: seq<Otp.Op>)
    requires d.otps == Otp.Run(t, h, env.digest)
    ensures Next(env, d, m).otps == Otp.Run(t, h + CodeOps(m), env.digest)
  {
    hide Otp.Verify, Otp.Issue, Otp.Key, Otp.Run, Sessions.CreateSession, Sessions.Logout;
    var ops := CodeOps(m);
    if ops == [] {
      assert h + ops == h;
    } else {
      RunOneMoreCode(t, h, ops[0], env.digest);
      assert h + [ops[0]] == h + ops;
    }
  }

  lemma RunOneMoreCode(t: Otp.Table, h: seq<Otp.Op>, op: Otp.Op, digest: Otp.Digest)
    ensures Otp.Run(t, h + [op], digest) == Otp.After(Otp.Run(t, h, digest), op, digest)
  {
    hide Otp.After;
    assert (h + [op])[..|h|] == h;
  }

  lemma NextAllLast(env: Env, d: Data, ms: seq<Mutation>)
    requires ms != []
    ensures NextAll(env, d, ms) == Next(env, NextAll(env, d, ms[..|ms| - 1]), ms[|ms| - 1])
  {
    hide Next;
    assert ms == ms[..|ms| - 1] + [ms[|ms| - 1]];
    NextThen(env, d, ms[..|ms| - 1], ms[|ms| - 1]);
  }

  lemma {:induction false} SessionsSteps(env: Env, d: Data, ms: seq<Mutation>, h: seq<Sessions.Op>, at: real)
    requires d.sessions == Sessions.Run(h)
    ensures NextAll(env, d, ms).sessions == Sessions.Run(h + AllSessionOps(ms, at))
    decreases |ms|
  {
    hide Next, Sessions.Run;
    if ms == [] {
      assert h + AllSessionOps(ms, at) == h;
    } else {
      var front := ms[..|ms| - 1];
      SessionsSteps(env, d, front, h, at);
      NextAllLast(env, d, ms);
      SessionsStep(env, NextAll(env, d, front), ms[|ms| - 1], h + AllSessionOps(front, at), at);
      assert h + AllSessionOps(ms, at) == h + AllSessionOps(front, at) + SessionOps(ms[|ms| - 1], at);
    }
  }

  lemma {:induction false} CodesSteps(env: Env, d: Data, ms: seq<Mutation>, t: Otp.Table, h: seq<Otp.Op>)
    requires d.otps == Otp.Run(t, h, env.digest)
    ensures NextAll(env, d, ms).otps == Otp.Run(t, h + AllCodeOps(ms), env.digest)
    decreases |ms|
  {
    hide Next, Otp.Run;
    if ms == [] {
      assert h + AllCodeOps(ms) == h;
    } else {
      var front := ms[..|ms| - 1];
      CodesSteps(env, d, front, t, h);
      NextAllLast(env, d, ms);
      CodesStep(env, NextAll(env, d, front), ms[|ms| - 1], t, h + AllCodeOps(front));
      assert h + AllCodeOps(ms) == h + AllCodeOps(front) + CodeOps(ms[|ms| - 1]);
    }
  }

  lemma {:induction false} SessionsOrdered(h: seq<Sessions.Op>, ms: seq<Mutation>, before: real, at: real)
    requires Sessions.Ordered(h, before) && before <= at
    requires forall m :: m in ms ==> TimedAt(m, at)
    ensures Sessions.Ordered(h + AllSessionOps(ms, at), at)
    decreases |ms|
  {
    if ms == [] {
      assert h + AllSessionOps(ms, at) == h;
    } else {
      var front, ops := ms[..|ms| - 1], SessionOps(ms[|ms| - 1], at);
      SessionsOrdered(h, front, before, at);
      var all := h + AllSessionOps(front, at);
      assert h + AllSessionOps(ms, at) == all + ops;
      assert TimedAt(ms[|ms| - 1], at);
      if ops == [] {
        assert all + ops == all;
      } else {
        assert (all + ops)[..|all + ops| - 1] == all;
      }
    }
  }

  lemma {:induction false} CodesOrdered(h: seq<Otp.Op>, ms: seq<Mutation>, before: real, at: real)
    requires Otp.Ordered(h, before) && before <= at
    requires forall m :: m in ms ==> TimedAt(m, at)
    ensures Otp.Ordered(h + AllCodeOps(ms), at)
    decreases |ms|
  {
    if ms == [] {
      assert h + AllCodeOps(ms) == h;
    } else {
      var front, ops := ms[..|ms| - 1], CodeOps(ms[|ms| - 1]);
      CodesOrdered(h, front, before, at);
      var all := h + AllCodeOps(front);
      assert h + AllCodeOps(ms) == all + ops;
      assert TimedAt(ms[|ms| - 1], at);
      if ops == [] {
        assert all + ops == all;
      } else {
        assert (all + ops)[..|all + ops| - 1] == all;
      }
    }
  }

  lemma {:induction false} SessionsOfRun(env: Env, rs: seq<Request>, now: real)
    requires Ordered(rs, now)
    ensures Serve(env, EMPTY, rs).sessions == Sessions.Run(SessionHistory(env, rs))
    ensures Sessions.Ordered(SessionHistory(env, rs), now)
    decreases |rs|
  {
    hide Plan;
    if rs != [] {
      var front, r := rs[..|rs| - 1], rs[|rs| - 1];
      SessionsOfRun(env, front, r.now);
      var d1 := Serve(env, EMPTY, front);
      SessionsSteps(env, d1, Plan(env, d1, r), SessionHistory(env, front), r.now);
      PlanTimed(env, d1, r);
      SessionsOrdered(SessionHistory(env, front), Plan(env, d1, r), r.now, r.now);
    }
  }

  lemma {:induction false} CodesOfRun(env: Env, rs: seq<Request>, now: real)
    requires Ordered(rs, now)
    ensures Serve(env, EMPTY, rs).otps == Otp.Run(map[], CodeHistory(env, rs), env.digest)
    ensures Otp.Ordered(CodeHistory(env, rs), now)
    decreases |rs|
  {
    hide Plan;
    if rs != [] {
      var front, r := rs[..|rs| - 1], rs[|rs| - 1];
      CodesOfRun(env, front, r.now);
      var d1 := Serve(env, EMPTY, front);
      CodesSteps(env, d1, Plan(env, d1, r), map[], CodeHistory(env, front));
      PlanTimed(env, d1, r);
      CodesOrdered(CodeHistory(env, front), Plan(env, d1, r), r.now, r.now);
    }
  }

  // Who is signed in follows from the run alone, whatever was pruned on the way.
  lemma SignedInFromHistory(env: Env, rs: seq<Request>, cookie: Sessions.Token, now: real)
    requires Ordered(rs, now) && cookie != ""
    ensures SessionOf(Serve(env, EMPTY, rs), cookie, now) == Sessions.InForce(SessionHistory(env, rs), cookie, now)
  {
    SessionsOfRun(env, rs, now);
    Sessions.LookupFromHistory(SessionHistory(env, rs), cookie, now);
  }

  // The platform accepts a code exactly when the run's latest code for that account and
  // purpose matches, is at most ten minutes old and unused, with fewer than five tries.
  lemma CodeFromHistory(env: Env, rs: seq<Request>, email: string, purpose: string, code: string, now: real)
    requires Ordered(rs, now) && Otp.WellFormed(code)
    ensures CodeOk(env, Serve(env, EMPTY, rs), email, purpose, code, now) <==>
      var b := Otp.BookOf(CodeHistory(env, rs), Otp.Key(email, purpose), env.digest);
      && b.Some? && Otp.Counts(b.value, Otp.Tried(Otp.Key(email, purpose), code, now))
      && Otp.Matches(b.value, code, env.digest)
  {
    CodesOfRun(env, rs, now);
    Otp.AcceptedMeans(CodeHistory(env, rs), Otp.Key(email, purpose), code, now, env.digest);
  }

  // ----- Codes, however requests race -----

  lemma {:induction false} RacedIsNextAll(env: Env, states: seq<Data>, ms: seq<Mutation>, i: nat, j: nat)
    requires Raced(env, states, ms) && i <= j < |states|
    ensures states[j] == NextAll(env, states[i], ms[i..j])
    decreases j
  {
    hide Next, LicensedBefore;
    if i < j {
      RacedIsNextAll(env, states, ms, i, j - 1);
      NextThen(env, states[i], ms[i..j - 1], ms[j - 1]);
      assert ms[i..j] == ms[i..j - 1] + [ms[j - 1]];
    } else {
      assert ms[i..j] == [];
    }
  }

  lemma CodesOfRace(env: Env, states: seq<Data>, ms: seq<Mutation>, i: nat, j: nat)
    requires Raced(env, states, ms) && i <= j < |states|
    ensures states[j].otps == Otp.Run(states[i].otps, AllCodeOps(ms[i..j]), env.digest)
  {
    hide LicensedBefore, Next;
    RacedIsNextAll(env, states, ms, i, j);
    CodesSteps(env, states[i], ms[i..j], states[i].otps, []);
    assert [] + AllCodeOps(ms[i..j]) == AllCodeOps(ms[i..j]);
  }

  // No code is issued for the key.
  ghost predicate NotIssued(ms: seq<Mutation>, key: string)
  {
    forall m :: m in ms && m.IssueCode? ==> Otp.Key(m.email, m.purpose) != key
  }

  lemma {:induction false} OnlyTried(ms: seq<Mutation>, key: string)
    requires NotIssued(ms, key)
    ensures forall op :: op in AllCodeOps(ms) && op.key == key ==> op.Tried?
    decreases |ms|
  {
    hide Otp.Key;
    if ms != [] {
      assert ms[|ms| - 1] in ms;
      OnlyTried(ms[..|ms| - 1], key);
    }
  }

  // However requests race, until a new code is issued for an account and purpose at most five
  // entries are compared and one is accepted, which is the last to be compared.
  lemma BudgetUnderRaces(env: Env, states: seq<Data>, ms: seq<Mutation>, i: nat, j: nat, key: string)
    requires Raced(env, states, ms) && i <= j < |states| && NotIssued(ms[i..j], key)
    ensures var t, ops := states[i].otps, AllCodeOps(ms[i..j]);
      && Otp.Comparisons(t, ops, key, env.digest) + Otp.Left(states[j].otps, key) <= Otp.Left(t, key) <= 5
      && Otp.Successes(t, ops, key, env.digest) <= 1
      && (Otp.Successes(t, ops, key, env.digest) == 1 ==> key !in states[j].otps)
  {
    CodesOfRace(env, states, ms, i, j);
    OnlyTried(ms[i..j], key);
    hide Raced, AllCodeOps, NotIssued;
    Otp.Budget(states[i].otps, AllCodeOps(ms[i..j]), key, env.digest);
  }

  // And a code is accepted exactly when the closures that have run say so: it matches the
  // latest issued, in time and unused, with fewer than five entries counted.
  lemma CodeUnderRaces(
    env: Env, states: seq<Data>, ms: seq<Mutation>, j: nat, email: string, purpose: string, code: string, now: real)
    requires Raced(env, states, ms) && j < |states| && states[0].otps == map[]
    requires Otp.Ordered(AllCodeOps(ms[..j]), now) && Otp.WellFormed(code)
    ensures CodeOk(env, states[j], email, purpose, code, now) <==>
      var b := Otp.BookOf(AllCodeOps(ms[..j]), Otp.Key(email, purpose), env.digest);
      && b.Some? && Otp.Counts(b.value, Otp.Tried(Otp.Key(email, purpose), code, now))
      && Otp.Matches(b.value, code, env.digest)
  {
    CodesOfRace(env, states, ms, 0, j);
    assert ms[0..j] == ms[..j];
    hide Raced, AllCodeOps, Otp.BookOf, Otp.Run;
    Otp.AcceptedMeans(AllCodeOps(ms[..j]), Otp.Key(email, purpose), code, now, env.digest);
  }
}
