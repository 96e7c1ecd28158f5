// What the control plane keeps over whole runs.
module Guarantees {
  import opened Outcomes
  import opened Platform
  import opened Roles
  import opened Store
  import opened Text
  import Otp
  import Sessions

  // ----- Onboarding -----

  // A second factor, pending or active, belongs to an account with a verified e-mail and a
  // password; an enabled one has a secret, and only an enabled one has an active secret.
  predicate UserSafe(u: User)
  {
    && (u.mfaPending.Some? || u.mfaSecret.Some? ==> u.emailVerified && u.password.Some?)
    && (u.mfaEnabled <==> u.mfaSecret.Some?)
  }

  ghost predicate Safe(d: Data)
  {
    forall email :: email in d.users ==> UserSafe(d.users[email])
  }

  function Stage(u: Option<User>): nat
  {
    if u.None? then 0
    else if !u.value.emailVerified then 1
    else if u.value.password.None? then 2
    else if !u.value.mfaEnabled then 3
    else if u.value.membership.None? then 4
    else 5
  }

  function UserAt(d: Data, email: string): Option<User>
  {
    if email in d.users then Some(d.users[email]) else None
  }

  // Stages name the pages in the order of onboarding.
  lemma StageNamesDestination(u: Option<User>)
    ensures Destination(u)
         == ["/signin", "/verify-email", "/set-password", "/setup-mfa", "/membership", "/dashboard"][Stage(u)]
  {
  }

  // Nothing an account has completed is ever undone, and a password once set stays.
  predicate UserOnward(u: User, v: User)
  {
    && (u.emailVerified ==> v.emailVerified)
    && (u.password.Some? ==> v.password == u.password)
    && (u.mfaEnabled ==> v.mfaEnabled)
    && (u.membership.Some? ==> v.membership.Some?)
  }

  ghost predicate Onward(d: Data, d': Data)
  {
    forall email :: email in d.users ==> email in d'.users && UserOnward(d.users[email], d'.users[email])
  }

  lemma OnwardTransitive(d: Data, d': Data, d'': Data)
    requires Onward(d, d') && Onward(d', d'')
    ensures Onward(d, d'')
  {
    forall email | email in d.users ensures email in d''.users && UserOnward(d.users[email], d''.users[email]) {
      assert email in d'.users;
    }
  }

  // Closures on sessions, challenges, codes and login notes leave the accounts alone.
  predicate LeavesUsers(m: Mutation)
  {
    m.NewSession? || m.EndSession? || m.NewChallenge? || m.EndChallenge? || m.IssueCode? || m.TryCode? || m.Note?
  }

  lemma UsersUnchanged(env: Env, d: Data, m: Mutation)
    requires LeavesUsers(m)
    ensures Next(env, d, m).users == d.users
  {
    hide Otp.Verify, Otp.Issue, Otp.Key, Sessions.CreateSession, Sessions.Logout;
  }

  lemma CommitOnward(env: Env, d: Data, m: Mutation)
    ensures Onward(d, Next(env, d, m))
  {
    if LeavesUsers(m) {
      UsersUnchanged(env, d, m);
    } else {
      hide Otp.Verify, Otp.Issue, Otp.Key, Sessions.CreateSession, Sessions.Logout;
    }
  }

  // A closure licensed by an earlier store is still safe now.
  lemma CommitSafe(env: Env, past: Data, d: Data, m: Mutation)
    requires Safe(past) && Safe(d) && Onward(past, d) && Licensed(past, m)
    ensures Safe(Next(env, d, m))
  {
    if LeavesUsers(m) {
      UsersUnchanged(env, d, m);
    } else {
      CommitSafeUsers(env, past, d, m);
    }
  }

  // The account a closure on accounts is about.
  function Subject(m: Mutation): string
    requires !LeavesUsers(m)
  {
    if m.Assign? then m.target else m.email
  }

  lemma OthersUnchanged(env: Env, d: Data, m: Mutation, email: string)
    requires !LeavesUsers(m) && email != Subject(m)
    ensures UserAt(Next(env, d, m), email) == UserAt(d, email)
  {
  }

  lemma SubjectSafe(env: Env, past: Data, d: Data, m: Mutation)
    requires Safe(past) && Safe(d) && Onward(past, d) && Licensed(past, m) && !LeavesUsers(m)
    ensures Subject(m) in Next(env, d, m).users ==> UserSafe(Next(env, d, m).users[Subject(m)])
  {
    if m.ConfirmMfa? {
      assert UserSafe(past.users[m.email]);
      assert m.email in d.users;
    }
    if Subject(m) in d.users {
      assert UserSafe(d.users[Subject(m)]);
    }
  }

  lemma CommitSafeUsers(env: Env, past: Data, d: Data, m: Mutation)
    requires Safe(past) && Safe(d) && Onward(past, d) && Licensed(past, m) && !LeavesUsers(m)
    ensures Safe(Next(env, d, m))
  {
    hide Next, Licensed, Onward;
    SubjectSafe(env, past, d, m);
    var d' := Next(env, d, m);
    forall email | email in d'.users ensures UserSafe(d'.users[email]) {
      if email != Subject(m) {
        OthersUnchanged(env, d, m, email);
        assert email in d.users;
      }
    }
  }

  // Closures of concurrent requests in the order in which they reached the store. Each was
  // licensed by the store as its handler read it, at that time or earlier.
  ghost predicate Raced(env: Env, states: seq<Data>, ms: seq<Mutation>)
  {
    && |states| == |ms| + 1
    && forall i :: 0 <= i < |ms| ==> states[i + 1] == Next(env, states[i], ms[i]) && LicensedBefore(states, i, ms[i])
  }

  ghost predicate LicensedBefore(states: seq<Data>, i: nat, m: Mutation)
    requires i < |states|
  {
    exists k :: 0 <= k <= i && Licensed(states[k], m)
  }

  lemma {:induction false} RacedOnward(env: Env, states: seq<Data>, ms: seq<Mutation>, i: nat, j: nat)
    requires Raced(env, states, ms) && i <= j < |states|
    ensures Onward(states[i], states[j])
    decreases j
  {
    hide Next;
    if i < j {
      RacedOnward(env, states, ms, i, j - 1);
      CommitOnward(env, states[j - 1], ms[j - 1]);
      OnwardTransitive(states[i], states[j - 1], states[j]);
    }
  }

  lemma {:induction false} RacedSafe(env: Env, states: seq<Data>, ms: seq<Mutation>, j: nat)
    requires Raced(env, states, ms) && Safe(states[0]) && j < |states|
    ensures forall i :: 0 <= i <= j ==> Safe(states[i])
    decreases j
  {
    hide Next, Safe, Licensed;
    if j > 0 {
      RacedSafe(env, states, ms, j - 1);
      assert LicensedBefore(states, j - 1, ms[j - 1]);
      var k :| 0 <= k <= j - 1 && Licensed(states[k], ms[j - 1]);
      RacedOnward(env, states, ms, k, j - 1);
      CommitSafe(env, states[k], states[j - 1], ms[j - 1]);
    }
  }

  // Accounts are kept under normalised e-mails.
  ghost predicate NormalKeys(d: Data)
  {
    forall email :: email in d.users ==> Normal(email) == email
  }

  lemma CommitNormal(env: Env, past: Data, d: Data, m: Mutation)
    requires NormalKeys(d) && Licensed(past, m)
    ensures NormalKeys(Next(env, d, m))
  {
    hide Normal;
    if LeavesUsers(m) {
      UsersUnchanged(env, d, m);
    } else {
      hide Otp.Verify, Otp.Issue, Otp.Key, Sessions.CreateSession, Sessions.Logout;
    }
  }

  lemma {:induction false} RacedNormal(env: Env, states: seq<Data>, ms: seq<Mutation>, j: nat)
    requires Raced(env, states, ms) && NormalKeys(states[0]) && j < |states|
    ensures NormalKeys(states[j])
    decreases j
  {
    hide Next, NormalKeys, Licensed;
    if j > 0 {
      RacedNormal(env, states, ms, j - 1);
      assert LicensedBefore(states, j - 1, ms[j - 1]);
      var k :| 0 <= k <= j - 1 && Licensed(states[k], ms[j - 1]);
      CommitNormal(env, states[k], states[j - 1], ms[j - 1]);
    }
  }

  lemma StageOnward(u: User, v: User)
    requires UserOnward(u, v)
    ensures Stage(Some(u)) <= Stage(Some(v))
  {
  }

  // However the closures of concurrent requests interleave, and however stale the reads behind
  // them, a second factor implies a verified e-mail and a password, an enabled one has a
  // secret, and no account's stage of onboarding ever moves back.
  lemma OnboardingUnderRaces(env: Env, states: seq<Data>, ms: seq<Mutation>, i: nat, j: nat, email: string)
    requires Raced(env, states, ms) && Safe(states[0]) && i <= j < |states|
    ensures Safe(states[j])
    ensures Stage(UserAt(states[i], email)) <= Stage(UserAt(states[j], email))
  {
    RacedSafe(env, states, ms, j);
    RacedOnward(env, states, ms, i, j);
    if email in states[i].users {
      StageOnward(states[i].users[email], states[j].users[email]);
    }
  }

  // ----- The audit log replays the roles -----

  function RolesOf(d: Data): map<string, Role>
  {
    map email | email in d.users :: d.users[email].role
  }

  function ReplayOne(roles: map<string, Role>, entry: Audit): map<string, Role>
  {
    match entry
    case Signup(email) => roles[email := DEFAULT_ROLE]
    case SignupGithub(email) => roles[email := DEFAULT_ROLE]
    case RoleAssigned(_, email, _, after) => roles[email := after]
    case _ => roles
  }

  function Replay(roles: map<string, Role>, entries: seq<Audit>): map<string, Role>
  {
    if entries == [] then roles else ReplayOne(Replay(roles, entries[..|entries| - 1]), entries[|entries| - 1])
  }

  lemma {:induction false} ReplayConcat(roles: map<string, Role>, s: seq<Audit>, t: seq<Audit>)
    ensures Replay(roles, s + t) == Replay(Replay(roles, s), t)
    decreases |t|
  {
    if t == [] {
      assert s + t == s;
    } else {
      assert (s + t)[..|s + t| - 1] == s + t[..|t| - 1];
      ReplayConcat(roles, s, t[..|t| - 1]);
    }
  }

  // The entries a later store has in addition.
  function Since(d: Data, d': Data): seq<Audit>
    requires d.audit <= d'.audit
  {
    d'.audit[|d.audit|..]
  }

  ghost predicate Replays(d: Data, d': Data)
  {
    d.audit <= d'.audit && RolesOf(d') == Replay(RolesOf(d), Since(d, d'))
  }

  // Whatever else a closure writes to the log does not concern roles.
  lemma CommitReplays(env: Env, d: Data, m: Mutation)
    requires m.Note? ==> IsLoginNote(m.entry)
    ensures Replays(d, Next(env, d, m))
    ensures |Next(env, d, m).audit| <= |d.audit| + 1
  {
    if m.CreateUser? || m.UpsertGithub? || m.Assign? {
      RoleCommitReplays(env, d, m);
    } else {
      OtherCommitReplays(env, d, m);
    }
  }

  lemma RolesAfterPut(d: Data, email: string, u: User)
    ensures RolesOf(PutUser(d, email, u)) == RolesOf(d)[email := u.role]
    ensures email in d.users && u.role == d.users[email].role ==> RolesOf(PutUser(d, email, u)) == RolesOf(d)
  {
  }

  lemma RolesByUsers(d: Data, d': Data)
    requires d.users == d'.users
    ensures RolesOf(d) == RolesOf(d')
  {
  }

  lemma RoleCommit(env: Env, d: Data, m: Mutation)
    requires m.CreateUser? || m.UpsertGithub? || m.Assign?
    ensures var d' := Next(env, d, m);
      d' == d || (|d'.audit| == |d.audit| + 1 && d'.audit == d.audit + [d'.audit[|d.audit|]]
                  && RolesOf(d') == ReplayOne(RolesOf(d), d'.audit[|d.audit|]))
  {
    hide RolesOf;
    var email, d' := Subject(m), Next(env, d, m);
    if d' != d {
      RolesAfterPut(d, email, d'.users[email]);
      RolesByUsers(d', PutUser(d, email, d'.users[email]));
    }
  }

  lemma RoleCommitReplays(env: Env, d: Data, m: Mutation)
    requires m.CreateUser? || m.UpsertGithub? || m.Assign?
    ensures Replays(d, Next(env, d, m))
    ensures |Next(env, d, m).audit| <= |d.audit| + 1
  {
    hide Next;
    RoleCommit(env, d, m);
    var d' := Next(env, d, m);
    if d' == d {
      ReplaysItself(d);
    } else {
      OneEntryReplays(d, d', d'.audit[|d.audit|]);
    }
  }

  lemma OtherCommitReplays(env: Env, d: Data, m: Mutation)
    requires !m.CreateUser? && !m.UpsertGithub? && !m.Assign? && (m.Note? ==> IsLoginNote(m.entry))
    ensures Replays(d, Next(env, d, m))
    ensures |Next(env, d, m).audit| <= |d.audit| + 1
  {
    var d' := Next(env, d, m);
    OtherCommit(env, d, m);
    hide Next;
    if d'.audit == d.audit {
      assert Since(d, d') == [];
    } else {
      OneEntryReplays(d, d', d'.audit[|d.audit|]);
    }
  }

  lemma OtherCommit(env: Env, d: Data, m: Mutation)
    requires !m.CreateUser? && !m.UpsertGithub? && !m.Assign? && (m.Note? ==> IsLoginNote(m.entry))
    ensures var d' := Next(env, d, m);
      && RolesOf(d') == RolesOf(d)
      && (d'.audit == d.audit
          || (|d'.audit| == |d.audit| + 1 && d'.audit == d.audit + [d'.audit[|d.audit|]]
              && forall roles :: ReplayOne(roles, d'.audit[|d.audit|]) == roles))
  {
    hide Otp.Verify, Otp.Issue, Otp.Key, Sessions.CreateSession, Sessions.Logout, RolesOf;
    var d' := Next(env, d, m);
    if LeavesUsers(m) || Subject(m) !in d.users {
      RolesByUsers(d, d');
    } else {
      RolesAfterPut(d, Subject(m), d'.users[Subject(m)]);
      RolesByUsers(d', PutUser(d, Subject(m), d'.users[Subject(m)]));
    }
  }

  lemma OneEntryReplays(d: Data, d': Data, e: Audit)
    requires d'.audit == d.audit + [e] && RolesOf(d') == ReplayOne(RolesOf(d), e)
    ensures Replays(d, d')
  {
    assert Since(d, d') == [e] && [e][..0] == [];
  }

  lemma ReplaysTransitive(d: Data, d': Data, d'': Data)
    requires Replays(d, d') && Replays(d', d'')
    ensures Replays(d, d'') && Since(d, d'') == Since(d, d') + Since(d', d'')
  {
    assert Since(d, d'') == Since(d, d') + Since(d', d'');
    ReplayConcat(RolesOf(d), Since(d, d'), Since(d', d''));
  }

  // Folding the log over the initial roles gives the current ones, for every interleaving of
  // concurrent requests.
  lemma {:induction false} AuditReplaysRoles(env: Env, states: seq<Data>, ms: seq<Mutation>, j: nat)
    requires Raced(env, states, ms) && j < |states|
    ensures Replays(states[0], states[j])
    decreases j
  {
    hide Next, Replays;
    if j == 0 {
      ReplaysItself(states[0]);
    } else {
      AuditReplaysRoles(env, states, ms, j - 1);
      assert LicensedBefore(states, j - 1, ms[j - 1]);
      CommitReplays(env, states[j - 1], ms[j - 1]);
      ReplaysTransitive(states[0], states[j - 1], states[j]);
    }
  }

  lemma ReplaysItself(d: Data)
    ensures Replays(d, d) && Since(d, d) == []
  {
  }

  function RoleIn(roles: map<string, Role>, email: string): Role
  {
    if email in roles then roles[email] else DEFAULT_ROLE
  }

  // Each assignment was made by someone who, as replayed up to then, could assign roles, and
  // each grant of owner by an owner.
  ghost predicate Justified(roles: map<string, Role>, entries: seq<Audit>)
  {
    forall i :: 0 <= i < |entries| ==> EntryJustified(roles, entries, i)
  }

  predicate EntryJustified(roles: map<string, Role>, entries: seq<Audit>, i: nat)
    requires i < |entries|
  {
    entries[i].RoleAssigned? ==> JustifiedAt(Replay(roles, entries[..i]), entries[i])
  }

  predicate JustifiedAt(roles: map<string, Role>, entry: Audit)
    requires entry.RoleAssigned?
  {
    && RoleIn(roles, entry.actor) in {Admin, Owner}
    && (entry.after == Owner ==> RoleIn(roles, entry.actor) == Owner)
  }

  lemma JustifiedFront(roles: map<string, Role>, s: seq<Audit>, t: seq<Audit>, i: nat)
    requires i < |s|
    ensures EntryJustified(roles, s + t, i) == EntryJustified(roles, s, i)
  {
    assert (s + t)[..i] == s[..i];
  }

  lemma JustifiedBack(roles: map<string, Role>, s: seq<Audit>, t: seq<Audit>, i: nat)
    requires i < |t|
    ensures EntryJustified(roles, s + t, |s| + i) == EntryJustified(Replay(roles, s), t, i)
  {
    assert (s + t)[..|s| + i] == s + t[..i];
    ReplayConcat(roles, s, t[..i]);
  }

  lemma JustifiedConcat(roles: map<string, Role>, s: seq<Audit>, t: seq<Audit>)
    ensures Justified(roles, s + t) <==> Justified(roles, s) && Justified(Replay(roles, s), t)
  {
    hide EntryJustified, Replay;
    if Justified(roles, s + t) {
      forall i | 0 <= i < |s| ensures EntryJustified(roles, s, i) {
        JustifiedFront(roles, s, t, i);
      }
      forall i | 0 <= i < |t| ensures EntryJustified(Replay(roles, s), t, i) {
        JustifiedBack(roles, s, t, i);
      }
    }
    if Justified(roles, s) && Justified(Replay(roles, s), t) {
      forall i | 0 <= i < |s + t| ensures EntryJustified(roles, s + t, i) {
        if i < |s| {
          JustifiedFront(roles, s, t, i);
        } else {
          JustifiedBack(roles, s, t, i - |s|);
        }
      }
    }
  }

  // When an assignment is written, its actor may make it.
  predicate WrittenJustly(d: Data, m: Mutation)
  {
    m.Assign? && m.target in d.users ==>
      && RoleOf(d, m.actor) in {Admin, Owner}
      && (m.role == Owner ==> RoleOf(d, m.actor) == Owner)
  }

  lemma CommitJustified(env: Env, d: Data, m: Mutation)
    requires m.Note? ==> IsLoginNote(m.entry)
    ensures Replays(d, Next(env, d, m))
    ensures Justified(RolesOf(d), Since(d, Next(env, d, m))) <==> WrittenJustly(d, m)
  {
    CommitReplays(env, d, m);
    if m.Assign? {
      AssignJustified(env, d, m);
    } else {
      hide WrittenJustly;
      OthersJustified(env, d, m);
    }
  }

  lemma AssignJustified(env: Env, d: Data, m: Mutation)
    requires m.Assign? && d.audit <= Next(env, d, m).audit
    ensures Justified(RolesOf(d), Since(d, Next(env, d, m))) <==> WrittenJustly(d, m)
  {
    var entries := Since(d, Next(env, d, m));
    if m.target in d.users {
      assert entries == [RoleAssigned(m.actor, m.target, d.users[m.target].role, m.role)];
      assert entries[..0] == [] && Replay(RolesOf(d), []) == RolesOf(d);
      assert EntryJustified(RolesOf(d), entries, 0) <==> WrittenJustly(d, m);
    } else {
      assert entries == [];
    }
  }

  lemma OthersJustified(env: Env, d: Data, m: Mutation)
    requires !m.Assign? && (m.Note? ==> IsLoginNote(m.entry)) && d.audit <= Next(env, d, m).audit
    ensures Justified(RolesOf(d), Since(d, Next(env, d, m))) && WrittenJustly(d, m)
  {
    hide Otp.Verify, Otp.Issue, Otp.Key, Sessions.CreateSession, Sessions.Logout, JustifiedAt, Replay;
    var entries := Since(d, Next(env, d, m));
    assert forall i :: 0 <= i < |entries| ==> !entries[i].RoleAssigned?;
  }

  lemma EntitledWritesJustly(d: Data, m: Mutation)
    requires Licensed(d, m)
    ensures WrittenJustly(d, m)
  {
    hide Permissions;
    if m.Assign? {
      WhoAssigns(RoleOf(d, m.actor));
    }
  }

  lemma {:induction false} EntitledRun(env: Env, d: Data, ms: seq<Mutation>)
    requires AllEntitled(env, d, ms)
    ensures Replays(d, NextAll(env, d, ms)) && Justified(RolesOf(d), Since(d, NextAll(env, d, ms)))
    decreases |ms|
  {
    hide Next, Replays, Justified, WrittenJustly, Licensed;
    if ms == [] {
      ReplaysItself(d);
      NothingJustified(RolesOf(d));
    } else {
      var d1 := Next(env, d, ms[0]);
      LicensedNotes(d, ms[0]);
      EntitledWritesJustly(d, ms[0]);
      CommitJustified(env, d, ms[0]);
      EntitledRun(env, d1, ms[1..]);
      ReplaysTransitive(d, d1, NextAll(env, d, ms));
      ReplaysRoles(d, d1);
      JustifiedConcat(RolesOf(d), Since(d, d1), Since(d1, NextAll(env, d, ms)));
    }
  }

  lemma LicensedNotes(d: Data, m: Mutation)
    requires Licensed(d, m)
    ensures m.Note? ==> IsLoginNote(m.entry)
  {
  }

  lemma NothingJustified(roles: map<string, Role>)
    ensures Justified(roles, [])
  {
  }

  lemma ReplaysRoles(d: Data, d': Data)
    requires Replays(d, d')
    ensures d.audit <= d'.audit && RolesOf(d') == Replay(RolesOf(d), Since(d, d'))
  {
  }

  // With requests answered one at a time, every assignment in the log is justified by the log.
  lemma {:induction false} GrantsAreJustified(env: Env, d: Data, rs: seq<Request>)
    ensures Replays(d, Serve(env, d, rs)) && Justified(RolesOf(d), Since(d, Serve(env, d, rs)))
    decreases |rs|
  {
    hide Replays, Justified, Plan;
    if rs == [] {
      ReplaysItself(d);
      NothingJustified(RolesOf(d));
    } else {
      var d1, r := Serve(env, d, rs[..|rs| - 1]), rs[|rs| - 1];
      GrantsAreJustified(env, d, rs[..|rs| - 1]);
      PlanEntitled(env, d1, r);
      EntitledRun(env, d1, Plan(env, d1, r));
      ReplaysTransitive(d, d1, Serve(env, d, rs));
      ReplaysRoles(d, d1);
      JustifiedConcat(RolesOf(d), Since(d, d1), Since(d1, Serve(env, d, rs)));
    }
  }

  // However requests race, the log is justified exactly when every assignment that is written
  // finds its actor, at that moment, still allowed to make it.
  lemma {:induction false} JustifiedExact(env: Env, states: seq<Data>, ms: seq<Mutation>, j: nat)
    requires Raced(env, states, ms) && j < |states|
    ensures Replays(states[0], states[j])
    ensures Justified(RolesOf(states[0]), Since(states[0], states[j])) <==>
      forall i :: 0 <= i < j ==> WrittenJustly(states[i], ms[i])
    decreases j
  {
    hide Next, Replays, Justified, WrittenJustly, Licensed;
    if j == 0 {
      ReplaysItself(states[0]);
      NothingJustified(RolesOf(states[0]));
    } else {
      var d, m := states[j - 1], ms[j - 1];
      JustifiedExact(env, states, ms, j - 1);
      assert LicensedBefore(states, j - 1, m);
      var k :| 0 <= k <= j - 1 && Licensed(states[k], m);
      LicensedNotes(states[k], m);
      CommitJustified(env, d, m);
      ReplaysTransitive(states[0], d, states[j]);
      ReplaysRoles(states[0], d);
      JustifiedConcat(RolesOf(states[0]), Since(states[0], d), Since(d, states[j]));
    }
  }

  ghost predicate NoOwner(d: Data)
  {
    forall email :: email in d.users ==> d.users[email].role != Owner
  }

  lemma CommitNoOwner(env: Env, d: Data, m: Mutation)
    requires NoOwner(d) && (m.Assign? ==> m.role != Owner)
    ensures NoOwner(Next(env, d, m))
  {
    if LeavesUsers(m) {
      UsersUnchanged(env, d, m);
    } else {
      hide Otp.Verify, Otp.Issue, Otp.Key, Sessions.CreateSession, Sessions.Logout;
      SubjectNoOwner(env, d, m);
      hide Next;
      forall email | email in Next(env, d, m).users ensures Next(env, d, m).users[email].role != Owner {
        if email != Subject(m) {
          OthersUnchanged(env, d, m, email);
        }
      }
    }
  }

  lemma SubjectNoOwner(env: Env, d: Data, m: Mutation)
    requires NoOwner(d) && (m.Assign? ==> m.role != Owner) && !LeavesUsers(m)
    ensures var d' := Next(env, d, m);
      Subject(m) in d'.users ==> d'.users[Subject(m)].role != Owner
  {
  }

  // Ownership cannot be acquired on a platform without an owner, however requests race.
  lemma {:induction false} OwnersOnlyFromOwners(env: Env, states: seq<Data>, ms: seq<Mutation>, j: nat)
    requires Raced(env, states, ms) && j < |states| && NoOwner(states[0])
    ensures forall i :: 0 <= i <= j ==> NoOwner(states[i])
    decreases j
  {
    hide Next, Permissions;
    if j > 0 {
      var m := ms[j - 1];
      OwnersOnlyFromOwners(env, states, ms, j - 1);
      assert LicensedBefore(states, j - 1, m);
      var k :| 0 <= k <= j - 1 && Licensed(states[k], m);
      assert NoOwner(states[k]);
      CommitNoOwner(env, states[j - 1], m);
    }
  }

  // Nobody may assign roles.
  ghost predicate NoAssigner(d: Data)
  {
    forall email :: email in d.users ==> d.users[email].role !in {Admin, Owner}
  }

  lemma CommitKeepsRoles(env: Env, d: Data, m: Mutation)
    requires NoAssigner(d) && !m.Assign?
    ensures var d' := Next(env, d, m);
      && NoAssigner(d')
      && forall email :: email in d'.users ==> d'.users[email].role == RoleOf(d, email)
  {
    hide Commit;
    var d' := Next(env, d, m);
    if LeavesUsers(m) {
      UsersUnchanged(env, d, m);
    } else {
      SubjectKeepsRole(env, d, m);
    }
    hide Next;
    forall email | email in d'.users ensures d'.users[email].role == RoleOf(d, email) {
      if !LeavesUsers(m) && email != Subject(m) {
        OthersUnchanged(env, d, m, email);
      }
    }
  }

  lemma SubjectKeepsRole(env: Env, d: Data, m: Mutation)
    requires !m.Assign? && !LeavesUsers(m)
    ensures var d' := Next(env, d, m);
      Subject(m) in d'.users ==> d'.users[Subject(m)].role == RoleOf(d, Subject(m))
  {
  }

  // Where nobody may assign roles at first, no interleaving of requests ever changes one; in
  // particular every account of a platform that started empty stays an operator.
  lemma {:induction false} NoEscalation(env: Env, states: seq<Data>, ms: seq<Mutation>, j: nat)
    requires Raced(env, states, ms) && j < |states| && NoAssigner(states[0])
    ensures forall i :: 0 <= i <= j ==> NoAssigner(states[i])
    ensures forall i :: 0 <= i < j ==> !ms[i].Assign?
    ensures forall email :: email in states[j].users ==> states[j].users[email].role == RoleOf(states[0], email)
    decreases j
  {
    hide Next, Permissions, NoAssigner, Licensed;
    if j > 0 {
      var d, m := states[j - 1], ms[j - 1];
      NoEscalation(env, states, ms, j - 1);
      assert LicensedBefore(states, j - 1, m);
      var k :| 0 <= k <= j - 1 && Licensed(states[k], m);
      NobodyAssigns(states[k], m);
      CommitKeepsRoles(env, d, m);
      RacedOnward(env, states, ms, 0, j - 1);
      SameRoles(states[0], d, states[j]);
    }
  }

  lemma NobodyAssigns(d: Data, m: Mutation)
    requires NoAssigner(d) && Licensed(d, m)
    ensures !m.Assign?
  {
    hide Permissions;
    if m.Assign? {
      WhoAssigns(RoleOf(d, m.actor));
    }
  }

  lemma SameRoles(d: Data, d': Data, d'': Data)
    requires Onward(d, d')
    requires forall email :: email in d'.users ==> d'.users[email].role == RoleOf(d, email)
    requires forall email :: email in d''.users ==> d''.users[email].role == RoleOf(d', email)
    ensures forall email :: email in d''.users ==> d''.users[email].role == RoleOf(d, email)
  {
  }

  // So on a platform that started with nobody who may assign, the log is justified even then.
  lemma JustifiedFromOperators(env: Env, states: seq<Data>, ms: seq<Mutation>, j: nat)
    requires Raced(env, states, ms) && j < |states| && NoAssigner(states[0])
    ensures Replays(states[0], states[j]) && Justified(RolesOf(states[0]), Since(states[0], states[j]))
  {
    hide Next, Replays, Justified, Licensed;
    JustifiedExact(env, states, ms, j);
    NoEscalation(env, states, ms, j);
  }

  // A start with an owner, which has to be put into the store from outside, can lose it: an
  // assignment decided before its actor was demoted still goes through, and the log then
  // shows it made by a viewer.
  lemma StaleAssignment(env: Env, d: Data)
    requires d.audit == [] && {"o", "a", "t"} <= d.users.Keys
    requires d.users["o"].role == Owner && d.users["a"].role == Admin && d.users["t"].role == Operator
    ensures var ms := [Assign("o", "a", Viewer), Assign("a", "t", Admin)];
      var states := [d, Next(env, d, ms[0]), NextAll(env, d, ms)];
      Raced(env, states, ms) && Unjustified(d, states[2])
  {
    hide Commit;
    var ms := [Assign("o", "a", Viewer), Assign("a", "t", Admin)];
    var states := [d, Next(env, d, ms[0]), NextAll(env, d, ms)];
    NextOne(env, d, ms[0]);
    NextThen(env, d, [ms[0]], ms[1]);
    assert ms == [ms[0]] + [ms[1]];
    BothLicensed(d);
    hide Licensed, Next;
    assert Licensed(states[0], ms[0]) && Licensed(states[0], ms[1]);
    assert LicensedBefore(states, 0, ms[0]) && LicensedBefore(states, 1, ms[1]);
    UnjustifiedGrant(env, d, states[1], states[2]);
  }

  lemma BothLicensed(d: Data)
    requires {"o", "a"} <= d.users.Keys && d.users["o"].role == Owner && d.users["a"].role == Admin
    ensures Licensed(d, Assign("o", "a", Viewer)) && Licensed(d, Assign("a", "t", Admin))
  {
    WhoAssigns(Owner);
    WhoAssigns(Admin);
  }

  ghost predicate Unjustified(d: Data, d': Data)
  {
    d.audit <= d'.audit && !Justified(RolesOf(d), Since(d, d'))
  }

  lemma UnjustifiedGrant(env: Env, d0: Data, d1: Data, d2: Data)
    requires d0.audit == [] && {"a", "t"} <= d0.users.Keys
    requires d0.users["a"].role == Admin && d0.users["t"].role == Operator
    requires d1 == Next(env, d0, Assign("o", "a", Viewer)) && d2 == Next(env, d1, Assign("a", "t", Admin))
    ensures Unjustified(d0, d2)
  {
    var log := Since(d0, d2);
    assert log == [RoleAssigned("o", "a", Admin, Viewer), RoleAssigned("a", "t", Operator, Admin)];
    assert log[..1] == [log[0]] && log[..1][..0] == [];
    assert Replay(RolesOf(d0), log[..1])["a"] == Viewer;
    assert !EntryJustified(RolesOf(d0), log, 1);
  }
}
