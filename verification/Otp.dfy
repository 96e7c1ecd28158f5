// One-time e-mail codes of ross_ai/otp.py. The digest of a code under a salt is a parameter.
module Otp {
  import opened Outcomes
  import opened Text

  const OTP_TTL: real := 600.0
  const OTP_DIGITS: nat := 6
  const MAX_ATTEMPTS: nat := 5

  datatype Record = Record(salt: string, hash: string, expires: real, attempts: nat)

  type Table = map<string, Record>

  type Digest = (string, string) -> string

  function Key(email: string, purpose: string): string
  {
    email + ":" + purpose
  }

  lemma LastColon(email: string, purpose: string)
    requires ':' !in purpose
    ensures Key(email, purpose)[|email|] == ':'
    ensures forall i :: |email| < i < |Key(email, purpose)| ==> Key(email, purpose)[i] != ':'
    ensures Key(email, purpose)[..|email|] == email && Key(email, purpose)[|email| + 1..] == purpose
  {
  }

  // Purposes hold no colon, so different accounts and purposes have different keys.
  lemma KeyInjective(email: string, purpose: string, email': string, purpose': string)
    requires ':' !in purpose && ':' !in purpose'
    requires Key(email, purpose) == Key(email', purpose')
    ensures email == email' && purpose == purpose'
  {
    LastColon(email, purpose);
    LastColon(email', purpose');
  }

  predicate WellFormed(code: string)
  {
    AllDigits(Strip(code)) && |Strip(code)| == 6
  }

  // ----- The operations of the source -----

  datatype Answer = Malformed | NoCode | Expired | TooMany | Incorrect | Verified

  function Issue(t: Table, key: string, code: string, salt: string, now: real, digest: Digest): Table
  {
    t[key := Record(salt, digest(code, salt), now + OTP_TTL, 0)]
  }

  function Verify(t: Table, key: string, code: string, now: real, digest: Digest): (Answer, Table)
  {
    if !WellFormed(code) then (Malformed, t)
    else if key !in t then (NoCode, t)
    else
      var r := t[key];
      if now > r.expires then (Expired, t - {key})
      else if r.attempts >= MAX_ATTEMPTS then (TooMany, t - {key})
      else if r.hash != digest(Strip(code), r.salt) then (Incorrect, t[key := r.(attempts := r.attempts + 1)])
      else (Verified, t - {key})
  }

  // ----- Runs -----

  datatype Op =
    | Issued(key: string, code: string, salt: string, at: real)
    | Tried(key: string, code: string, at: real)

  function After(t: Table, op: Op, digest: Digest): Table
  {
    match op
    case Issued(key, code, salt, at) => Issue(t, key, code, salt, at, digest)
    case Tried(key, code, at) => Verify(t, key, code, at, digest).1
  }

  function Run(t: Table, ops: seq<Op>, digest: Digest): Table
  {
    if ops == [] then t else After(Run(t, ops[..|ops| - 1], digest), ops[|ops| - 1], digest)
  }

  function AnswerTo(t: Table, op: Op, digest: Digest): Option<Answer>
  {
    if op.Tried? then Some(Verify(t, op.key, op.code, op.at, digest).0) else None
  }

  // How often the run compared a code entered for the key, and how often it accepted one.
  function Comparisons(t: Table, ops: seq<Op>, key: string, digest: Digest): nat
  {
    if ops == [] then 0
    else
      var front, op := ops[..|ops| - 1], ops[|ops| - 1];
      var a := AnswerTo(Run(t, front, digest), op, digest);
      Comparisons(t, front, key, digest) + if op.key == key && a in {Some(Incorrect), Some(Verified)} then 1 else 0
  }

  function Successes(t: Table, ops: seq<Op>, key: string, digest: Digest): nat
  {
    if ops == [] then 0
    else
      var front, op := ops[..|ops| - 1], ops[|ops| - 1];
      var a := AnswerTo(Run(t, front, digest), op, digest);
      Successes(t, front, key, digest) + if op.key == key && a == Some(Verified) then 1 else 0
  }

  function Left(t: Table, key: string): nat
  {
    if key in t && t[key].attempts < MAX_ATTEMPTS then MAX_ATTEMPTS - t[key].attempts else 0
  }

  // Until a new code is issued, a key allows at most five comparisons and one success, and a
  // success is the last comparison.
  lemma {:induction false} Budget(t: Table, ops: seq<Op>, key: string, digest: Digest)
    requires forall i :: 0 <= i < |ops| && ops[i].key == key ==> ops[i].Tried?
    ensures Comparisons(t, ops, key, digest) + Left(Run(t, ops, digest), key) <= Left(t, key)
    ensures Successes(t, ops, key, digest) <= 1
    ensures Successes(t, ops, key, digest) == 1 ==> key !in Run(t, ops, digest)
    ensures key !in t ==> key !in Run(t, ops, digest)
  {
    if ops != [] {
      Budget(t, ops[..|ops| - 1], key, digest);
    }
  }

  lemma BudgetAfterIssue(t: Table, ops: seq<Op>, key: string, code: string, salt: string, now: real, digest: Digest)
    requires forall i :: 0 <= i < |ops| && ops[i].key == key ==> ops[i].Tried?
    ensures Comparisons(Issue(t, key, code, salt, now, digest), ops, key, digest) <= 5
    ensures Successes(Issue(t, key, code, salt, now, digest), ops, key, digest) <= 1
  {
    Budget(Issue(t, key, code, salt, now, digest), ops, key, digest);
  }

  // Operations on other keys change nothing for this one.
  function Only(ops: seq<Op>, key: string): seq<Op>
  {
    if ops == [] then []
    else Only(ops[..|ops| - 1], key) + if ops[|ops| - 1].key == key then [ops[|ops| - 1]] else []
  }

  function At(t: Table, key: string): Option<Record>
  {
    if key in t then Some(t[key]) else None
  }

  lemma AfterLocal(t: Table, t': Table, op: Op, key: string, digest: Digest)
    requires At(t, key) == At(t', key)
    ensures At(After(t, op, digest), key) == if op.key == key then At(After(t', op, digest), key) else At(t, key)
  {
    hide WellFormed;
  }

  lemma {:induction false} KeysIndependent(t: Table, ops: seq<Op>, key: string, digest: Digest)
    ensures At(Run(t, ops, digest), key) == At(Run(t, Only(ops, key), digest), key)
  {
    if ops != [] {
      var front, op := ops[..|ops| - 1], ops[|ops| - 1];
      hide After, At;
      KeysIndependent(t, front, key, digest);
      AfterLocal(Run(t, front, digest), Run(t, Only(front, key), digest), op, key, digest);
      if op.key == key {
        assert Only(ops, key)[..|Only(ops, key)| - 1] == Only(front, key);
      } else {
        assert Only(ops, key) == Only(front, key);
      }
    }
  }

  // ----- The reference: bookkeeping that never removes anything -----

  datatype Book = Book(code: string, salt: string, issued: real, tries: nat, used: bool)

  predicate Counts(b: Book, op: Op)
    requires op.Tried?
  {
    !b.used && b.tries < 5 && WellFormed(op.code) && op.at <= b.issued + 600.0
  }

  predicate Matches(b: Book, code: string, digest: Digest)
  {
    digest(Strip(code), b.salt) == digest(b.code, b.salt)
  }

  // The latest code issued for the key, the entries counted against it, and whether one matched.
  function BookOf(ops: seq<Op>, key: string, digest: Digest): Option<Book>
  {
    if ops == [] then None
    else
      var op := ops[|ops| - 1];
      var b := BookOf(ops[..|ops| - 1], key, digest);
      if op.key != key then b
      else if op.Issued? then Some(Book(op.code, op.salt, op.at, 0, false))
      else if b.Some? && Counts(b.value, op) then
        Some(b.value.(tries := b.value.tries + 1, used := Matches(b.value, op.code, digest)))
      else b
  }

  ghost predicate Ordered(ops: seq<Op>, now: real)
  {
    ops == [] || (ops[|ops| - 1].at <= now && Ordered(ops[..|ops| - 1], ops[|ops| - 1].at))
  }

  // The stored record is the book while the code can still be used; otherwise nothing that
  // matters is stored.
  ghost predicate Agree(r: Option<Record>, b: Option<Book>, now: real, digest: Digest)
  {
    if r.Some? then
      && b.Some? && !b.value.used && b.value.tries <= 5
      && r.value == Record(b.value.salt, digest(b.value.code, b.value.salt), b.value.issued + 600.0, b.value.tries)
    else
      b.None? || b.value.used || b.value.tries >= 5 || now > b.value.issued + 600.0
  }

  lemma {:induction false} TableAgreesWithBook(ops: seq<Op>, key: string, now: real, digest: Digest)
    requires Ordered(ops, now)
    ensures Agree(At(Run(map[], ops, digest), key), BookOf(ops, key, digest), now, digest)
    decreases |ops|
  {
    if ops != [] {
      TableAgreesWithBook(ops[..|ops| - 1], key, ops[|ops| - 1].at, digest);
    }
  }

  // In any run from an empty store with a clock that does not run backwards, a code entered
  // for a key is accepted exactly when the latest code issued for it matches, is at most ten
  // minutes old, has not been used, and fewer than five entries were counted against it.
  lemma AcceptedMeans(ops: seq<Op>, key: string, code: string, now: real, digest: Digest)
    requires Ordered(ops, now) && WellFormed(code)
    ensures Verify(Run(map[], ops, digest), key, code, now, digest).0 == Verified <==>
      var b := BookOf(ops, key, digest);
      b.Some? && Counts(b.value, Tried(key, code, now)) && Matches(b.value, code, digest)
  {
    TableAgreesWithBook(ops, key, now, digest);
  }

  // ----- With a digest that tells codes apart -----

  ghost predicate TellsApart(digest: Digest)
  {
    forall c, c', salt :: digest(c, salt) == digest(c', salt) <==> c == c'
  }

  ghost predicate LastIssue(ops: seq<Op>, i: nat, key: string)
  {
    && i < |ops| && ops[i].Issued? && ops[i].key == key
    && forall j :: i < j < |ops| && ops[j].key == key ==> ops[j].Tried?
  }

  // Six digits, whatever space is around them.
  predicate SixDigits(code: string)
  {
    && |Strip(code)| == 6
    && forall i :: 0 <= i < 6 ==> 48 <= Strip(code)[i] as int <= 57
  }

  // How many entries of six digits were made for the key from the i-th operation on.
  function Entries(ops: seq<Op>, i: nat, key: string): nat
    decreases |ops|
  {
    if |ops| <= i then 0
    else
      var op := ops[|ops| - 1];
      Entries(ops[..|ops| - 1], i, key) + if op.key == key && op.Tried? && SixDigits(op.code) then 1 else 0
  }

  // The code c was entered for the key after the i-th operation.
  ghost predicate Entered(ops: seq<Op>, i: nat, key: string, c: string)
  {
    exists j :: i < j < |ops| && ops[j].key == key && ops[j].Tried? && SixDigits(ops[j].code) && Strip(ops[j].code) == c
  }

  lemma SixDigitsExact(code: string)
    ensures WellFormed(code) <==> SixDigits(code)
  {
    DigitsOnly(Strip(code));
    hide Strip, AllDigits;
  }

  lemma EnteredNext(ops: seq<Op>, i: nat, key: string, c: string)
    requires i < |ops| - 1
    ensures var op := ops[|ops| - 1];
      Entered(ops, i, key, c) <==>
        Entered(ops[..|ops| - 1], i, key, c)
        || (op.key == key && op.Tried? && SixDigits(op.code) && Strip(op.code) == c)
  {
    hide SixDigits, Strip;
    var front := ops[..|ops| - 1];
    if Entered(front, i, key, c) {
      var j :| i < j < |front| && front[j].key == key && front[j].Tried? && SixDigits(front[j].code)
        && Strip(front[j].code) == c;
      assert ops[j] == front[j];
    }
    if Entered(ops, i, key, c) {
      var j :| i < j < |ops| && ops[j].key == key && ops[j].Tried? && SixDigits(ops[j].code)
        && Strip(ops[j].code) == c;
      if j < |front| {
        assert front[j] == ops[j];
      }
    }
  }

  // The book since the last issue: unused until the code was entered, with the entries counted
  // up to five.
  lemma {:induction false} BookSince(ops: seq<Op>, i: nat, key: string, now: real, digest: Digest)
    requires Ordered(ops, now) && TellsApart(digest) && LastIssue(ops, i, key) && now <= ops[i].at + 600.0
    ensures BookOf(ops, key, digest).Some?
    ensures var b, c, n := BookOf(ops, key, digest).value, ops[i].code, Entries(ops, i, key);
      && b.code == c && b.salt == ops[i].salt && b.issued == ops[i].at
      && (b.used ==> Entered(ops, i, key, c))
      && (!b.used ==> b.tries == if n < 5 then n else 5)
      && (!b.used && b.tries < 5 ==> !Entered(ops, i, key, c))
    decreases |ops|
  {
    var front, op := ops[..|ops| - 1], ops[|ops| - 1];
    hide SixDigits, WellFormed, Entered;
    if i == |ops| - 1 {
      assert Entries(front, i, key) == 0;
      assert !Entered(ops, i, key, op.code) by { NotEntered(ops, i, key, op.code); }
    } else {
      assert LastIssue(front, i, key);
      BookSince(front, i, key, op.at, digest);
      EnteredNext(ops, i, key, ops[i].code);
      if op.Tried? {
        SixDigitsExact(op.code);
      }
    }
  }

  lemma NotEntered(ops: seq<Op>, i: nat, key: string, c: string)
    requires i + 1 >= |ops|
    ensures !Entered(ops, i, key, c)
  {
  }

  // With such a digest a code is accepted exactly when it is the one last issued for the key,
  // at most ten minutes old, not entered since, with fewer than five entries since.
  lemma CodeDecides(ops: seq<Op>, i: nat, key: string, code: string, now: real, digest: Digest)
    requires Ordered(ops, now) && TellsApart(digest) && LastIssue(ops, i, key)
    ensures Verify(Run(map[], ops, digest), key, code, now, digest).0 == Verified <==>
      && SixDigits(code) && Strip(code) == ops[i].code && now <= ops[i].at + 600.0
      && Entries(ops, i, key) < 5 && !Entered(ops, i, key, ops[i].code)
  {
    SixDigitsExact(code);
    TableAgreesWithBook(ops, key, now, digest);
    hide SixDigits, WellFormed, Entered, Entries, BookOf, Run, LastIssue;
    LastIssued(ops, i, key, digest);
    if now <= ops[i].at + 600.0 {
      BookSince(ops, i, key, now, digest);
    }
  }

  lemma {:induction false} LastIssued(ops: seq<Op>, i: nat, key: string, digest: Digest)
    requires LastIssue(ops, i, key)
    ensures BookOf(ops, key, digest).Some? && BookOf(ops, key, digest).value.issued == ops[i].at
    decreases |ops|
  {
    hide Matches, Counts;
    if i < |ops| - 1 {
      LastIssued(ops[..|ops| - 1], i, key, digest);
    }
  }
}
