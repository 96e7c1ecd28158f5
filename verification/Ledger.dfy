// The billing ledger of ross_ai/billing.py over whole runs.
module Ledger {
  import opened Outcomes
  import opened Platform
  import opened Store
  import opened Text
  import Guarantees
  import Luhn
  import Otp
  import Sessions

  function ChargesFor(charges: seq<Charge>, email: string): seq<Charge>
  {
    if charges == [] then []
    else
      var last := charges[|charges| - 1];
      ChargesFor(charges[..|charges| - 1], email) + if last.email == email then [last] else []
  }

  // The charges that the elections in the audit log call for.
  function Elected(audit: seq<Audit>): seq<Charge>
  {
    if audit == [] then []
    else
      var last := audit[|audit| - 1];
      Elected(audit[..|audit| - 1])
      + if last.MembershipElected? then [Charge(last.email, last.tierId, last.amount, last.last4)] else []
  }

  function MembershipAt(d: Data, email: string): Option<Membership>
  {
    if email in d.users then d.users[email].membership else None
  }

  // The latest charge is for the membership in force, at the tier's price for its cadence.
  predicate Covers(charge: Charge, m: Membership)
  {
    && charge.tierId == m.tierId && charge.amount == m.amount
    && GetTier(m.tierId).Some? && ValidCadence(m.cadence) && m.amount == Price(GetTier(m.tierId).value, m.cadence)
  }

  ghost predicate AccountBalanced(d: Data, email: string)
  {
    var charges, m := ChargesFor(d.charges, email), MembershipAt(d, email);
    if charges == [] then m.None? else m.Some? && Covers(charges[|charges| - 1], m.value)
  }

  // Accounts have a membership exactly when they were charged, and charges and elections
  // correspond one for one.
  ghost predicate Balanced(d: Data)
  {
    && (forall email: string :: AccountBalanced(d, email))
    && Elected(d.audit) == d.charges
  }

  lemma EmptyBalanced()
    ensures Balanced(EMPTY)
  {
  }

  lemma OneMore(charges: seq<Charge>, c: Charge, email: string)
    ensures ChargesFor(charges + [c], email) == ChargesFor(charges, email) + if c.email == email then [c] else []
  {
    assert (charges + [c])[..|charges|] == charges;
  }

  lemma OneMoreEntry(audit: seq<Audit>, e: Audit)
    ensures Elected(audit + [e])
         == Elected(audit) + if e.MembershipElected? then [Charge(e.email, e.tierId, e.amount, e.last4)] else []
  {
    assert (audit + [e])[..|audit|] == audit;
  }

  function ChargeOf(m: Mutation): Charge
    requires m.Activate?
  {
    Charge(m.email, m.membership.tierId, m.membership.amount, m.card.last4)
  }

  lemma ActivateSteps(env: Env, d: Data, m: Mutation)
    requires m.Activate? && m.email in d.users
    ensures var d' := Next(env, d, m);
      && d'.charges == d.charges + [ChargeOf(m)]
      && d'.audit == d.audit + [MembershipElected(m.email, m.membership.tierId, m.membership.cadence,
        m.membership.amount, m.card.last4)]
      && forall email :: MembershipAt(d', email)
                         == if email == m.email then Some(m.membership) else MembershipAt(d, email)
  {
  }

  lemma ActivateBalanced(env: Env, d: Data, m: Mutation)
    requires m.Activate? && Balanced(d) && Licensed(d, m)
    ensures Balanced(Next(env, d, m))
  {
    hide Elected, ChargesFor, GetTier, MembershipAt, Commit, Price, ValidCadence;
    if m.email in d.users {
      var d' := Next(env, d, m);
      ActivateSteps(env, d, m);
      hide Next;
      OneMoreEntry(d.audit, MembershipElected(m.email, m.membership.tierId, m.membership.cadence, m.membership.amount,
        m.card.last4));
      forall email: string ensures AccountBalanced(d', email) {
        assert AccountBalanced(d, email);
        OneMore(d.charges, ChargeOf(m), email);
      }
    } else {
      NothingToActivate(env, d, m);
    }
  }

  lemma NothingToActivate(env: Env, d: Data, m: Mutation)
    requires m.Activate? && m.email !in d.users
    ensures Next(env, d, m) == d
  {
  }

  // Every other closure leaves charges, memberships and elections alone.
  lemma OtherKeepsBilling(env: Env, d: Data, m: Mutation)
    requires !m.Activate? && (m.Note? ==> IsLoginNote(m.entry))
    ensures var d' := Next(env, d, m);
      && d'.charges == d.charges
      && (forall email :: MembershipAt(d', email) == MembershipAt(d, email))
      && (d'.audit == d.audit
          || (|d'.audit| == |d.audit| + 1 && d'.audit == d.audit + [d'.audit[|d.audit|]]
            && !d'.audit[|d.audit|].MembershipElected?))
  {
    OtherKeepsMembership(env, d, m);
    hide MembershipAt, Otp.Verify, Otp.Issue, Otp.Key, Sessions.CreateSession, Sessions.Logout;
  }

  lemma OtherKeepsMembership(env: Env, d: Data, m: Mutation)
    requires !m.Activate?
    ensures forall email :: MembershipAt(Next(env, d, m), email) == MembershipAt(d, email)
  {
    if Guarantees.LeavesUsers(m) {
      Guarantees.UsersUnchanged(env, d, m);
    } else {
      hide Otp.Verify, Otp.Issue, Otp.Key, Sessions.CreateSession, Sessions.Logout;
    }
  }

  lemma PricesOnly(d: Data, d': Data, m: Mutation)
    requires Licensed(d, m) && (m.Activate? || m.Note?)
    ensures Licensed(d', m)
  {
  }

  // A closure licensed by an earlier store keeps the ledger balanced now.
  lemma CommitBalanced(env: Env, past: Data, d: Data, m: Mutation)
    requires Balanced(d) && Licensed(past, m)
    ensures Balanced(Next(env, d, m))
  {
    if m.Activate? {
      PricesOnly(past, d, m);
      ActivateBalanced(env, d, m);
    } else {
      hide Next, Elected, ChargesFor;
      OtherKeepsBilling(env, d, m);
      var d' := Next(env, d, m);
      if d'.audit != d.audit {
        OneMoreEntry(d.audit, d'.audit[|d.audit|]);
      }
      forall email: string ensures AccountBalanced(d', email) {
        assert AccountBalanced(d, email);
      }
    }
  }

  // The ledger balances in every store reached from a balanced one, however the closures of
  // concurrent requests interleave.
  lemma {:induction false} LedgerUnderRaces(env: Env, states: seq<Data>, ms: seq<Mutation>, j: nat)
    requires Guarantees.Raced(env, states, ms) && j < |states| && Balanced(states[0])
    ensures Balanced(states[j])
    decreases j
  {
    hide Next, Licensed, Balanced;
    if j > 0 {
      LedgerUnderRaces(env, states, ms, j - 1);
      assert Guarantees.LicensedBefore(states, j - 1, ms[j - 1]);
      var k :| 0 <= k <= j - 1 && Licensed(states[k], ms[j - 1]);
      CommitBalanced(env, states[k], states[j - 1], ms[j - 1]);
    }
  }

  // The payment page shows what billing then charges exactly when the cadence either is
  // written "annual" or does not normalise to it.
  lemma ShownIsCharged(tierId: string, cadence: string)
    requires GetTier(tierId).Some?
    ensures ShownAmount(GetTier(tierId).value, cadence) == Price(GetTier(tierId).value, ChargedCadence(cadence))
      <==> (cadence == "annual" || Normal(OrMonthly(cadence)) != "annual")
  {
    assert Normal("annual") == "annual";
  }

  // ----- The cadence that is shown at one price and charged at another -----

  // The request of a signed-in account, with the session's token against forgery.
  predicate SentBy(d: Data, r: Request, email: string)
  {
    && AccountOf(d, r.cookie, r.now) == Some(email)
    && (r.body.ElectTier? || r.body.Pay?) && CsrfOk(d, r.cookie, r.now, r.body.csrf)
  }

  lemma SentPlan(env: Env, d: Data, r: Request, email: string)
    requires SentBy(d, r, email)
    ensures email in d.users
    ensures r.body.ElectTier? ==> Plan(env, d, r) == ElectTierPlan(email, r.body)
    ensures r.body.Pay? ==> Plan(env, d, r) == PayPlan(d.users[email], email, r.body)
  {
    hide ElectTierPlan, PayPlan;
  }

  lemma Annually()
    ensures ChargedCadence("Annual") == "annual" && OrMonthly("Annual") == "Annual"
    ensures GetTier("starter") == Some(Tier("starter", 149, 1490))
  {
    NormalNames();
    assert Strip("Annual") == "Annual";
    assert Lower("Annual") == "annual";
  }

  predicate ElectsCapitalAnnual(r: Request)
  {
    r.body.ElectTier? && r.body.tierId == "starter" && r.body.cadence == "Annual" && r.body.accepted
  }

  predicate PaysInOrder(r: Request)
  {
    r.body.Pay? && r.body.accepted && Luhn.Valid(Luhn.Digits(r.body.number)) && CardFieldsOk(r.body.fields)
  }

  lemma CapitalAnnualStored(env: Env, d: Data, r: Request, email: string)
    requires SentBy(d, r, email) && ElectsCapitalAnnual(r)
    ensures Respond(env, d, r) == Next(env, d, Elect(email, Election("starter", "Annual"))) && email in d.users
  {
    Annually();
    SentPlan(env, d, r, email);
    hide GetTier, SentBy, Plan, Next;
    NextOne(env, d, Elect(email, Election("starter", "Annual")));
  }

  function CapitalActivation(email: string, b: Body): Mutation
    requires b.Pay?
  {
    var card := Card(b.cardId, LastFour(Luhn.Digits(b.number)));
    Activate(email, Membership("starter", "annual", 1490, b.autopay), card)
  }

  lemma CapitalPlan(u: User, email: string, r: Request)
    requires u.election == Some(Election("starter", "Annual")) && PaysInOrder(r)
    ensures PayPlan(u, email, r.body) == [CapitalActivation(email, r.body)] + [ClearElection(email)]
  {
    Annually();
    hide GetTier, ChargedCadence, CardFieldsOk, Luhn.Valid, Luhn.Digits, LastFour;
  }

  lemma ActivatedThenCleared(env: Env, d: Data, n: Mutation, email: string)
    requires n.Activate? && n.email in d.users
    ensures NextAll(env, d, [n] + [ClearElection(email)]).charges == d.charges + [ChargeOf(n)]
  {
    NextOne(env, d, n);
    NextThen(env, d, [n], ClearElection(email));
  }

  lemma CapitalAnnualCharged(env: Env, d: Data, r: Request, email: string)
    requires SentBy(d, r, email) && PaysInOrder(r) && email in d.users
    requires d.users[email].election == Some(Election("starter", "Annual"))
    ensures Respond(env, d, r).charges
         == d.charges + [Charge(email, "starter", 1490, LastFour(Luhn.Digits(r.body.number)))]
  {
    SentPlan(env, d, r, email);
    CapitalPlan(d.users[email], email, r);
    hide SentBy, Plan, PayPlan, PaysInOrder, LastFour, Luhn.Digits, NextAll;
    ActivatedThenCleared(env, d, CapitalActivation(email, r.body), email);
  }

  // An account that elects the cadence "Annual" is shown the monthly price and charged the
  // annual one.
  lemma ShownMonthlyChargedAnnually(env: Env, d: Data, d1: Data, r: Request, r': Request, email: string)
    requires SentBy(d, r, email) && ElectsCapitalAnnual(r) && d1 == Respond(env, d, r)
    requires SentBy(d1, r', email) && PaysInOrder(r')
    ensures email in d1.users && d1.users[email].election == Some(Election("starter", "Annual"))
    ensures ShownAmount(GetTier("starter").value, "Annual") == 149
    ensures Respond(env, d1, r').charges
         == d.charges + [Charge(email, "starter", 1490, LastFour(Luhn.Digits(r'.body.number)))]
  {
    hide SentBy, PaysInOrder, Respond, LastFour, Luhn.Digits;
    Annually();
    CapitalAnnualStored(env, d, r, email);
    CapitalAnnualCharged(env, d1, r', email);
  }

  // An account is charged only by its own payment request, for the tier and cadence it
  // elected, with the terms accepted and a number that passes the check-digit test.
  lemma ChargedAsElected(env: Env, d: Data, r: Request, m: Mutation)
    requires m in Plan(env, d, r) && m.Activate?
    ensures r.body.Pay? && r.body.accepted && Luhn.Valid(Luhn.Digits(r.body.number))
    ensures AccountOf(d, r.cookie, r.now) == Some(m.email)
    ensures Entitled(d, m)
  {
    ChargePart(env, d, r, m);
    hide Plan, BodyPlan, AccountOf, AccountPlan, Entitled, Luhn.Valid, Luhn.Digits;
    AccountCharges(env, d, r, AccountOf(d, r.cookie, r.now).value, m);
  }

  lemma ChargePart(env: Env, d: Data, r: Request, m: Mutation)
    requires m in Plan(env, d, r) && m.Activate?
    ensures AccountOf(d, r.cookie, r.now).Some?
    ensures m in AccountPlan(env, d, r, AccountOf(d, r.cookie, r.now).value)
  {
    hide AccountPlan, AccountOf, SignUpPlan, SignInPlan, MfaPlan, MfaEmailPlan;
    OutsideChargesNothing(env, d, r);
    assert m in BodyPlan(env, d, r);
  }

  lemma OutsideChargesNothing(env: Env, d: Data, r: Request)
    ensures r.body.SignUp? ==> forall m :: m in SignUpPlan(env, d, r.now, r.body) ==> !m.Activate?
    ensures r.body.SignIn? ==> forall m :: m in SignInPlan(env, d, r.now, r.body) ==> !m.Activate?
    ensures r.body.MfaEmail? ==> forall m :: m in MfaEmailPlan(d, r.now, r.body) ==> !m.Activate?
    ensures r.body.Mfa? ==> forall m :: m in MfaPlan(env, d, r.now, r.body) ==> !m.Activate?
  {
    hide Normal, CodeOk, ChallengeOf, FactorOk, PasswordOk;
  }

  lemma AccountCharges(env: Env, d: Data, r: Request, email: string, m: Mutation)
    requires email in d.users
    ensures m in AccountPlan(env, d, r, email) && m.Activate? ==>
      r.body.Pay? && r.body.accepted && Luhn.Valid(Luhn.Digits(r.body.number)) && m.email == email && Entitled(d, m)
  {
    hide Normal, CodeOk, CsrfOk, Luhn.Valid, Luhn.Digits, AllEntitled;
    if m in AccountPlan(env, d, r, email) && m.Activate? {
      PayEntitled(env, d, d, email, r.body);
      FirstOf(env, d, PayPlan(d.users[email], email, r.body));
    }
  }

  lemma FirstOf(env: Env, d: Data, ms: seq<Mutation>)
    requires AllEntitled(env, d, ms) && ms != []
    ensures Entitled(d, ms[0])
  {
  }
}
