// Time-based codes of ross_ai/otp.py (section 5.3 of RFC 4226, section 4.2 of RFC 6238). The
// keyed hash of the counter is a parameter that returns 20 bytes.
module Totp {
  import opened Bytes
  import opened Outcomes
  import opened Text

  const STEP: real := 30.0
  const DIGITS: nat := 6

  type Mac = f: nat -> seq<Byte> | forall c :: |f(c)| == 20 witness _ =>
    [0, 0, 0, 0, 0, 0, 0, 0, 0, 0, 0, 0, 0, 0, 0, 0, 0, 0, 0, 0]

  // n in k decimal digits, the low k digits when it has more.
  function Decimal(n: nat, k: nat): (s: string)
    ensures |s| == k && forall i :: 0 <= i < k ==> IsDigit(s[i])
  {
    if k == 0 then "" else Decimal(n / 10, k - 1) + [(n % 10) as char + '0']
  }

  function Value(s: string): int
    requires forall i :: 0 <= i < |s| ==> IsDigit(s[i])
  {
    if s == "" then 0 else 10 * Value(s[..|s| - 1]) + (s[|s| - 1] as int - '0' as int)
  }

  function Pow10(k: nat): (p: nat)
    ensures p > 0
  {
    if k == 0 then 1 else 10 * Pow10(k - 1)
  }

  lemma {:induction false} DecimalValue(n: nat, k: nat)
    ensures Value(Decimal(n, k)) == n % Pow10(k)
  {
    if k > 0 {
      var s := Decimal(n, k);
      DecimalValue(n / 10, k - 1);
      assert s[..k - 1] == Decimal(n / 10, k - 1);
      ModStep(n, Pow10(k - 1));
    }
  }

  lemma ModStep(n: nat, p: nat)
    requires p > 0
    ensures 10 * (n / 10 % p) + n % 10 == n % (10 * p)
  {
    var q := n / 10 / p;
    assert n / 10 == q * p + n / 10 % p;
    assert n == 10 * (n / 10) + n % 10 == q * (10 * p) + (10 * (n / 10 % p) + n % 10);
    Remainder(n, 10 * p, q, 10 * (n / 10 % p) + n % 10);
  }

  lemma Remainder(n: nat, m: nat, q: nat, r: nat)
    requires m > 0 && n == q * m + r && r < m
    ensures n % m == r
  {
    var d := n / m - q;
    assert d * m == r - n % m;
    Multiples(d, m);
  }

  lemma Multiples(d: int, m: nat)
    ensures d >= 1 ==> d * m >= m
    ensures d <= -1 ==> d * m + m <= 0
  {
  }

  // ----- Codes -----

  // The low nibble of the last byte picks four bytes; their top bit is dropped.
  function Truncate(digest: seq<Byte>): nat
    requires |digest| == 20
  {
    var offset := ToNat(digest[19] & 0x0f);
    OffsetSmall(digest[19]);
    ReadBigEndian(digest[offset..offset + 4]) % 0x8000_0000
  }

  lemma OffsetSmall(b: Byte)
    ensures (b & 0x0f) as nat <= 15
  {
    assert b & 0x0f <= 15;
  }

  function CodeOf(mac: Mac, counter: nat): (code: string)
    ensures |code| == DIGITS && AllDigits(code)
  {
    Decimal(Truncate(mac(counter)) % 1_000_000, DIGITS)
  }

  function StepOf(time: real): int
  {
    (time / STEP).Floor
  }

  // Packing the counter fails before the epoch.
  function TotpAt(mac: Mac, time: real): string
    requires time >= 0.0
  {
    CodeOf(mac, StepOf(time))
  }

  // The entry, stripped, is the code of the previous, the current or the next step.
  predicate Accepts(mac: Mac, entry: string, now: real)
  {
    exists c: nat :: StepOf(now) - 1 <= c <= StepOf(now) + 1 && CodeOf(mac, c) == Strip(entry)
  }

  lemma StepShift(now: real, w: int)
    ensures StepOf(now + w as real * STEP) == StepOf(now) + w
  {
    assert (now + w as real * STEP) / STEP == now / STEP + w as real;
  }

  datatype PackError = NegativeCounter

  predicate WellFormed(entry: string)
  {
    AllDigits(Strip(entry)) && |Strip(entry)| == DIGITS
  }

  // Raises for a well-formed entry less than one step after the epoch.
  method VerifyTotp(mac: Mac, entry: string, now: real) returns (r: Result<bool, PackError>)
    ensures r.Err? <==> WellFormed(entry) && now < 30.0
    ensures r.Ok? ==> (r.value <==> WellFormed(entry) && Accepts(mac, entry, now))
  {
    var code := Strip(entry);
    if !AllDigits(code) || |code| != DIGITS {
      return Ok(false);
    }
    var w := -1;
    while w < 2
      invariant -1 <= w <= 2 && (w > -1 ==> now >= STEP)
      invariant forall c: nat :: StepOf(now) - 1 <= c < StepOf(now) + w ==> CodeOf(mac, c) != code
    {
      StepShift(now, w);
      if now + w as real * STEP < 0.0 {
        return Err(NegativeCounter);
      }
      if TotpAt(mac, now + w as real * STEP) == code {
        return Ok(true);
      }
      w := w + 1;
    }
    r := Ok(false);
  }

  // An accepted entry is well formed.
  lemma AcceptedWellFormed(mac: Mac, entry: string, now: real)
    requires Accepts(mac, entry, now)
    ensures WellFormed(entry)
  {
  }

  // Two codes are the same text exactly when their numbers agree in the last six digits.
  lemma CodesCompareAsNumbers(mac: Mac, c: nat, d: nat)
    ensures CodeOf(mac, c) == CodeOf(mac, d) <==> Truncate(mac(c)) % 1_000_000 == Truncate(mac(d)) % 1_000_000
  {
    hide Truncate, Decimal, Value, Pow10;
    Million();
    DecimalValue(Truncate(mac(c)) % 1_000_000, DIGITS);
    DecimalValue(Truncate(mac(d)) % 1_000_000, DIGITS);
  }

  lemma Million()
    ensures Pow10(6) == 1_000_000
  {
    assert Pow10(3) == 1000;
  }

  lemma StripDigits(s: string)
    requires AllDigits(s)
    ensures Strip(s) == s
  {
  }

  // A code made at one time is accepted at every time at most one step away.
  lemma AcceptedWithinStep(mac: Mac, made: real, now: real)
    requires made >= 0.0 && -30.0 <= now - made <= 30.0
    ensures Accepts(mac, TotpAt(mac, made), now)
  {
    var c := StepOf(made);
    StepShift(made, 1);
    StepShift(made, -1);
    StripDigits(CodeOf(mac, c));
    assert StepOf(now) - 1 <= c <= StepOf(now) + 1 by {
      assert made / STEP - 1.0 <= now / STEP <= made / STEP + 1.0;
    }
  }

  // Conversely, an accepted code belongs to a time less than two steps away.
  lemma AcceptedOnlyNearby(mac: Mac, entry: string, now: real) returns (made: real)
    requires now >= 30.0 && Accepts(mac, entry, now)
    ensures made >= 0.0 && -60.0 < now - made < 60.0 && Strip(entry) == TotpAt(mac, made)
  {
    var c: nat :| StepOf(now) - 1 <= c <= StepOf(now) + 1 && CodeOf(mac, c) == Strip(entry);
    made := c as real * STEP;
    assert made / STEP == c as real;
  }

  // ----- Codes in plain numbers (section 5.3 of RFC 4226) -----

  // Four bytes of the digest from offset o on, without the top bit.
  function Taken(digest: seq<Byte>, o: nat): nat
    requires o + 4 <= |digest|
  {
    (ToNat(digest[o]) % 128) * 0x100_0000 + ToNat(digest[o + 1]) * 0x1_0000
    + ToNat(digest[o + 2]) * 0x100 + ToNat(digest[o + 3])
  }

  lemma OffsetInNumbers(b: Byte)
    ensures ToNat(b & 0x0f) == ToNat(b) % 16
  {
    assert (b & 0x0f) as nat == b as nat % 16;
  }

  lemma TopBitDropped(a: nat, r: nat)
    requires a < 256 && r < 0x100_0000
    ensures (a * 0x100_0000 + r) % 0x8000_0000 == (a % 128) * 0x100_0000 + r
  {
  }

  // The offset is the last byte modulo 16.
  lemma TruncateInNumbers(digest: seq<Byte>)
    requires |digest| == 20
    ensures var o := ToNat(digest[19]) % 16; Truncate(digest) == Taken(digest, o)
  {
    OffsetInNumbers(digest[19]);
    hide ToNat, ReadBigEndian, Taken;
    TakenBytes(digest, ToNat(digest[19]) % 16);
  }

  lemma TakenBytes(digest: seq<Byte>, o: nat)
    requires o + 4 <= |digest|
    ensures ReadBigEndian(digest[o..o + 4]) % 0x8000_0000 == Taken(digest, o)
  {
    FourBytes(digest[o..o + 4]);
    hide ToNat, ReadBigEndian;
    TopBitDropped(
      ToNat(digest[o]), 0x1_0000 * ToNat(digest[o + 1]) + 0x100 * ToNat(digest[o + 2]) + ToNat(digest[o + 3]));
  }

  // A code has six digits, and as a number is the last six digits of those four bytes.
  lemma CodeInNumbers(mac: Mac, counter: nat)
    ensures var digest, code := mac(counter), CodeOf(mac, counter);
      |code| == 6 && AllDigits(code) && Value(code) == Taken(digest, ToNat(digest[19]) % 16) % 1_000_000
  {
    hide Truncate, Decimal, Value, Pow10, Taken;
    Million();
    DecimalValue(Truncate(mac(counter)) % 1_000_000, DIGITS);
    TruncateInNumbers(mac(counter));
  }

  // The digest of section 5.4 of RFC 4226.
  const RFC_DIGEST: seq<Byte> :=
    [0x1f, 0x86, 0x98, 0x69, 0x0e, 0x02, 0xca, 0x16, 0x61, 0x85,
     0x50, 0xef, 0x7f, 0x19, 0xda, 0x8e, 0x94, 0x5b, 0x55, 0x5a]

  lemma RfcTaken()
    ensures ToNat(RFC_DIGEST[19]) % 16 == 10 && Taken(RFC_DIGEST, 10) == 0x50ef_7f19
  {
  }

  lemma RfcCode(mac: Mac, counter: nat)
    requires mac(counter) == RFC_DIGEST
    ensures CodeOf(mac, counter) == "872921"
  {
    RfcTaken();
    TruncateInNumbers(RFC_DIGEST);
    hide Truncate, Taken, RFC_DIGEST, Decimal;
    RfcDigits();
  }

  lemma RfcDigits()
    ensures 0x50ef_7f19 % 1_000_000 == 872921 && Decimal(872921, 6) == "872921"
  {
    assert Decimal(872, 3) == "872";
  }
}
