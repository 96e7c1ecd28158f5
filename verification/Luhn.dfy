// The card-number check of ross_ai/billing.py, on the ASCII digits of the entered text.
module Luhn {
  import opened Text

  type Digit = d: int | 0 <= d < 10

  // ----- The definition of ISO/IEC 7812-1, from the right -----

  // The digits of 2d, added up.
  function Doubled(d: Digit): (r: Digit)
  {
    2 * d / 10 + 2 * d % 10
  }

  function Weight(d: Digit, doubled: bool): Digit
  {
    if doubled then Doubled(d) else d
  }

  // The weighted sum when the last digit is doubled or not, alternating to the left.
  function Sum(s: seq<Digit>, doubled: bool): (n: nat)
  {
    if s == [] then 0
    else Sum(s[..|s| - 1], !doubled) + Weight(s[|s| - 1], doubled)
  }

  // The check digit itself is not doubled.
  predicate ChecksOut(s: seq<Digit>)
  {
    Sum(s, false) % 10 == 0
  }

  predicate Valid(s: seq<Digit>)
  {
    |s| >= 13 && ChecksOut(s)
  }

  // ----- The loop of the source, from the left -----

  function Digits(text: string): seq<Digit>
  {
    if text == "" then []
    else
      var last := text[|text| - 1];
      Digits(text[..|text| - 1]) + if IsDigit(last) then [last as int - '0' as int] else []
  }

  method ReadDigits(text: string) returns (digits: seq<Digit>)
    ensures digits == Digits(text)
  {
    digits := [];
    for i := 0 to |text|
      invariant digits == Digits(text[..i])
    {
      assert text[..i + 1][..i] == text[..i];
      if IsDigit(text[i]) {
        digits := digits + [text[i] as int - '0' as int];
      }
    }
    assert text[..|text|] == text;
  }

  lemma SumNext(digits: seq<Digit>, i: nat, doubled: bool)
    requires i < |digits|
    ensures Sum(digits[..i + 1], doubled) == Sum(digits[..i], !doubled) + Weight(digits[i], doubled)
    ensures var d: int := digits[i]; Doubled(digits[i]) as int == if 2 * d > 9 then 2 * d - 9 else 2 * d
  {
    assert digits[..i + 1][..i] == digits[..i];
  }

  lemma NothingToSum(doubled: bool)
    ensures Sum([], doubled) == 0
  {
  }

  method LuhnOk(number: string) returns (ok: bool)
    ensures ok == Valid(Digits(number))
    ensures ok <==> |Digits(number)| >= 13 && Sum(Digits(number), false) % 10 == 0
  {
    hide Sum, Doubled;
    var digits := ReadDigits(number);
    if |digits| < 13 {
      return false;
    }
    var checksum := 0;
    var parity := |digits| % 2;
    NothingToSum(parity == 1);
    for i := 0 to |digits|
      invariant checksum == Sum(digits[..i], (i + parity) % 2 == 1)
    {
      var d: int := digits[i];
      if i % 2 == parity {
        d := d * 2;
        if d > 9 {
          d := d - 9;
        }
      }
      SumNext(digits, i, (i + 1 + parity) % 2 == 1);
      checksum := checksum + d;
    }
    assert digits[..|digits|] == digits;
    ok := checksum % 10 == 0;
  }

  // ----- What the check detects -----

  lemma {:induction false} SumConcat(a: seq<Digit>, b: seq<Digit>, doubled: bool)
    ensures Sum(a + b, doubled) == Sum(a, doubled == (|b| % 2 == 0)) + Sum(b, doubled)
    decreases |b|
  {
    hide Weight;
    if b == [] {
      assert a + b == a;
    } else {
      assert (a + b)[..|a + b| - 1] == a + b[..|b| - 1];
      assert (a + b)[|a + b| - 1] == b[|b| - 1];
      SumConcat(a, b[..|b| - 1], !doubled);
    }
  }

  lemma SumOne(d: Digit, doubled: bool)
    ensures Sum([d], doubled) == Weight(d, doubled)
  {
    assert [d][..0] == [];
  }

  lemma SumTwo(d: Digit, e: Digit, doubled: bool)
    ensures Sum([d, e], doubled) == Weight(d, !doubled) + Weight(e, doubled)
  {
    assert [d, e][..1] == [d];
    SumOne(d, !doubled);
  }

  lemma DoubledValue(d: Digit)
    ensures Doubled(d) == if d < 5 then 2 * d else 2 * d - 9
  {
  }

  lemma StillMultiple(x: int, y: int)
    requires x % 10 == 0
    ensures y % 10 == 0 <==> (y - x) % 10 == 0
  {
  }

  lemma SmallMultiple(x: int)
    requires -20 < x < 20
    ensures x % 10 == 0 <==> x == 0 || x == 10 || x == -10
  {
  }

  // The sum with the digits at a..b replaced changes by the change of their own sum.
  lemma Replaced(a: seq<Digit>, before: seq<Digit>, after: seq<Digit>, b: seq<Digit>)
    requires |before| == |after| && ChecksOut(a + before + b)
    ensures var doubled := |b| % 2 == 1;
      ChecksOut(a + after + b) <==> (Sum(after, doubled) - Sum(before, doubled)) % 10 == 0
  {
    hide Sum;
    var doubled := |b| % 2 == 1;
    SumConcat(a + before, b, false);
    SumConcat(a + after, b, false);
    SumConcat(a, before, doubled);
    SumConcat(a, after, doubled);
    StillMultiple(Sum(a + before + b, false), Sum(a + after + b, false));
  }

  // Replacing one digit of a valid number always breaks it.
  lemma SubstitutionDetected(s: seq<Digit>, i: nat, d: Digit)
    requires i < |s| && d != s[i] && ChecksOut(s)
    ensures !ChecksOut(s[i := d])
  {
    hide ChecksOut, Doubled;
    var a, b := s[..i], s[i + 1..];
    var doubled := |b| % 2 == 1;
    assert s == a + [s[i]] + b && s[i := d] == a + [d] + b;
    Replaced(a, [s[i]], [d], b);
    SumOne(s[i], doubled);
    SumOne(d, doubled);
    DoubledValue(s[i]);
    DoubledValue(d);
    SmallMultiple(Sum([d], doubled) - Sum([s[i]], doubled));
  }

  // Two adjacent digits replaced.
  lemma AdjacentReplaced(s: seq<Digit>, i: nat, d: Digit, e: Digit) returns (doubled: bool)
    requires i + 1 < |s| && ChecksOut(s)
    ensures ChecksOut(s[i := d][i + 1 := e]) <==>
      (Weight(d, !doubled) + Weight(e, doubled) - (Weight(s[i], !doubled) + Weight(s[i + 1], doubled))) % 10 == 0
  {
    hide ChecksOut, Weight;
    var a, b := s[..i], s[i + 2..];
    doubled := |b| % 2 == 1;
    assert s == a + [s[i], s[i + 1]] + b && s[i := d][i + 1 := e] == a + [d, e] + b;
    Replaced(a, [s[i], s[i + 1]], [d, e], b);
    SumTwo(s[i], s[i + 1], doubled);
    SumTwo(d, e, doubled);
  }

  // Swapping two adjacent digits of a valid number goes unnoticed exactly when they are
  // equal or are 0 and 9.
  lemma AdjacentSwap(s: seq<Digit>, i: nat)
    requires i + 1 < |s| && ChecksOut(s)
    ensures ChecksOut(s[i := s[i + 1]][i + 1 := s[i]]) <==>
      s[i] == s[i + 1] || (s[i] == 0 && s[i + 1] == 9) || (s[i] == 9 && s[i + 1] == 0)
  {
    hide ChecksOut, Doubled;
    var d, e := s[i], s[i + 1];
    var doubled := AdjacentReplaced(s, i, e, d);
    DoubledValue(d);
    DoubledValue(e);
    SmallMultiple(Weight(e, !doubled) + Weight(d, doubled) - (Weight(d, !doubled) + Weight(e, doubled)));
  }

  // Replacing a pair of equal digits by another such pair goes unnoticed exactly for 22 and
  // 55, 33 and 66, and 44 and 77.
  lemma TwinError(s: seq<Digit>, i: nat, e: Digit)
    requires i + 1 < |s| && ChecksOut(s) && s[i] == s[i + 1] && e != s[i]
    ensures ChecksOut(s[i := e][i + 1 := e]) <==> (2 <= s[i] <= 4 && e == s[i] + 3) || (2 <= e <= 4 && s[i] == e + 3)
  {
    hide ChecksOut, Doubled;
    var d := s[i];
    var doubled := AdjacentReplaced(s, i, e, e);
    DoubledValue(d);
    DoubledValue(e);
    SmallMultiple(Weight(e, !doubled) + Weight(e, doubled) - (Weight(d, !doubled) + Weight(d, doubled)));
  }

  // Every prefix of at least 12 digits is completed to a valid number by exactly one digit.
  function CheckDigit(prefix: seq<Digit>): Digit
  {
    (10 - Sum(prefix, true) % 10) % 10
  }

  lemma OneCheckDigit(prefix: seq<Digit>, d: Digit)
    requires |prefix| >= 12
    ensures Valid(prefix + [d]) <==> d == CheckDigit(prefix)
  {
    hide Sum, CheckDigit, Weight;
    SumConcat(prefix, [d], false);
    SumOne(d, false);
    NotDoubled(d);
    Completing(Sum(prefix, true), d);
    CheckDigitIs(prefix);
  }

  lemma NotDoubled(d: Digit)
    ensures Weight(d, false) == d
  {
  }

  lemma Completing(n: nat, d: Digit)
    ensures (n + d) % 10 == 0 <==> d == (10 - n % 10) % 10
  {
    var r := n % 10;
    assert (n + d) % 10 == (r + d) % 10;
    assert (r + d) % 10 == if r + d < 10 then r + d else r + d - 10;
    assert (10 - r) % 10 == if r == 0 then 0 else 10 - r;
  }

  lemma CheckDigitIs(prefix: seq<Digit>)
    ensures CheckDigit(prefix) == (10 - Sum(prefix, true) % 10) % 10
  {
    hide Sum;
  }

  // From the right, in plain numbers: the last digit counts as it is, and the one before it as the
  // digits of its double; then the two before those, and so on.
  lemma TwoMore(s: seq<Digit>, d: Digit, e: Digit)
    ensures Sum([], false) == 0 && Sum([d], false) == d
    ensures Sum(s + [d, e], false) == Sum(s, false) + (if d < 5 then 2 * d else 2 * d - 9) + e
  {
    SumOne(d, false);
    DoubledValue(d);
    assert (s + [d, e])[..|s| + 1] == s + [d];
    assert (s + [d])[..|s|] == s;
  }

  // A card number, the same with one digit changed, and one that is too short for a card.
  lemma KnownNumbers()
    ensures Valid([4, 1, 1, 1, 1, 1, 1, 1, 1, 1, 1, 1, 1, 1, 1, 1])
    ensures !Valid([4, 1, 1, 1, 1, 1, 1, 1, 1, 1, 1, 1, 1, 1, 1, 2])
    ensures ChecksOut([0, 0, 0, 0]) && !Valid([0, 0, 0, 0])
    ensures Valid([0, 0, 0, 0, 0, 0, 0, 0, 0, 0, 0, 0, 0]) && !Valid([0, 0, 0, 0, 0, 0, 0, 0, 0, 0, 0, 0])
  {
    hide Sum;
    FourteenDigits();
    TwoMore([4, 1, 1, 1, 1, 1, 1, 1, 1, 1, 1, 1, 1, 1], 1, 1);
    TwoMore([4, 1, 1, 1, 1, 1, 1, 1, 1, 1, 1, 1, 1, 1], 1, 2);
    assert [4, 1, 1, 1, 1, 1, 1, 1, 1, 1, 1, 1, 1, 1] + [1, 1] == [4, 1, 1, 1, 1, 1, 1, 1, 1, 1, 1, 1, 1, 1, 1, 1];
    assert [4, 1, 1, 1, 1, 1, 1, 1, 1, 1, 1, 1, 1, 1] + [1, 2] == [4, 1, 1, 1, 1, 1, 1, 1, 1, 1, 1, 1, 1, 1, 1, 2];
    AllZeros(13, false);
    AllZeros(4, false);
    assert [0, 0, 0, 0, 0, 0, 0, 0, 0, 0, 0, 0, 0] == seq(13, _ => 0) && [0, 0, 0, 0] == seq(4, _ => 0);
  }

  lemma {:induction false} AllZeros(n: nat, doubled: bool)
    ensures Sum(seq(n, _ => 0), doubled) == 0
  {
    var s: seq<Digit> := seq(n, _ => 0);
    if n > 0 {
      assert s[..n - 1] == seq(n - 1, _ => 0);
      AllZeros(n - 1, !doubled);
    }
  }

  lemma FourteenDigits()
    ensures Sum([4, 1, 1, 1, 1, 1, 1, 1, 1, 1, 1, 1, 1, 1], false) == 27
  {
    hide Sum;
    var s0: seq<Digit> := [4, 1];
    TwoMore([], 4, 1);
    assert [] + [4, 1] == s0;
    var s1 := s0 + [1, 1];
    var s2 := s1 + [1, 1];
    var s3 := s2 + [1, 1];
    var s4 := s3 + [1, 1];
    var s5 := s4 + [1, 1];
    TwoMore(s0, 1, 1);
    TwoMore(s1, 1, 1);
    TwoMore(s2, 1, 1);
    TwoMore(s3, 1, 1);
    TwoMore(s4, 1, 1);
    TwoMore(s5, 1, 1);
    assert s5 + [1, 1] == [4, 1, 1, 1, 1, 1, 1, 1, 1, 1, 1, 1, 1, 1];
  }

  // The digits of a text, in order and nothing else.
  lemma {:induction false} DigitsConcat(s: string, t: string)
    ensures Digits(s + t) == Digits(s) + Digits(t)
    decreases |t|
  {
    if t == "" {
      assert s + t == s;
    } else {
      assert (s + t)[..|s + t| - 1] == s + t[..|t| - 1];
      DigitsConcat(s, t[..|t| - 1]);
    }
  }

  lemma DigitsOfOne(c: char)
    ensures Digits([c]) == if '0' <= c <= '9' then [c as int - 48] else []
  {
    assert [c][..0] == [];
  }
}
