// The bitwise CRC-32 of scripts/generate-logo-assets.mjs. JavaScript's int32 and
// uint32 views of the register have the same 32 bits, so the register is a bv32.
module Checksum {
  import opened Bytes

  // ----- Bit strings, as polynomials over GF(2): highest power first -----

  type Poly = seq<bool>

  function Zeros(n: nat): (p: Poly)
    ensures |p| == n && forall i :: 0 <= i < n ==> !p[i]
  {
    seq(n, _ => false)
  }

  function Ones(n: nat): (p: Poly)
    ensures |p| == n && forall i :: 0 <= i < n ==> p[i]
  {
    seq(n, _ => true)
  }

  // Addition (and subtraction) over GF(2).
  function Xor(p: Poly, q: Poly): (r: Poly)
    requires |p| == |q|
    ensures |r| == |p| && forall i :: 0 <= i < |p| ==> r[i] == (p[i] != q[i])
  {
    seq(|p|, i requires 0 <= i < |p| => p[i] != q[i])
  }

  // The powers of x in the generator of section 5.5 of ISO/IEC 15948.
  const EXPONENTS: set<int> := {32, 26, 23, 22, 16, 12, 11, 10, 8, 7, 5, 4, 2, 1, 0}

  function Generator(): (g: Poly)
    ensures |g| == 33 && forall i :: 0 <= i < 33 ==> g[i] == (32 - i in EXPONENTS)
  {
    seq(33, i requires 0 <= i < 33 => 32 - i in EXPONENTS)
  }

  // Long multiplication by the generator, as a bit string of |q| + 32 bits.
  function TimesGenerator(q: Poly): (p: Poly)
    ensures |p| == |q| + 32
  {
    if q == [] then Zeros(32)
    else
      Xor(if q[0] then Generator() + Zeros(|q| - 1) else Zeros(|q| + 32),
          [false] + TimesGenerator(q[1..]))
  }

  // r is the remainder, of degree below 32, of dividing p by the generator.
  ghost predicate IsRemainder(p: Poly, r: Poly)
    requires |p| >= 32
  {
    |r| == 32 && exists q: Poly :: |q| == |p| - 32 && p == Recombined(q, r)
  }

  lemma {:induction false} QuotientUnique(q: Poly, r: Poly, q': Poly, r': Poly)
    requires |q| == |q'| && |r| == |r'| == 32
    requires Recombined(q, r) == Recombined(q', r')
    ensures q == q' && r == r'
  {
    hide Recombined;
    if q == [] {
      NoQuotient(r);
      NoQuotient(r');
    } else {
      var t, t' := q[1..], q'[1..];
      assert q == [q[0]] + t && q' == [q'[0]] + t';
      SameStep(q[0], t, r, q'[0], t', r');
      QuotientUnique(t, r, t', r');
    }
  }

  lemma NoQuotient(r: Poly)
    requires |r| == 32
    ensures Recombined([], r) == r
  {
  }

  lemma SameStep(h: bool, q: Poly, r: Poly, h': bool, q': Poly, r': Poly)
    requires |q| == |q'| && |r| == |r'| == 32
    requires Recombined([h] + q, r) == Recombined([h'] + q', r')
    ensures h == h' && Recombined(q, r) == Recombined(q', r')
  {
    hide Recombined, Subtrahend, Xor;
    RecombinedStep(h, q, r);
    RecombinedStep(h', q', r');
    XorCancel(Recombined(q, r), Recombined(q', r'), Subtrahend(h, |q|));
  }

  lemma XorCancel(p: Poly, q: Poly, g: Poly)
    requires |p| == |q| == |g| && Xor(p, g) == Xor(q, g)
    ensures p == q
  {
    forall i | 0 <= i < |p| ensures p[i] == q[i] {
      assert Xor(p, g)[i] == Xor(q, g)[i];
    }
  }

  // Long division has one answer.
  lemma RemainderUnique(p: Poly, r: Poly, r': Poly)
    requires |p| >= 32 && IsRemainder(p, r) && IsRemainder(p, r')
    ensures r == r'
  {
    var q: Poly :| |q| == |p| - 32 && p == Recombined(q, r);
    var q': Poly :| |q'| == |p| - 32 && p == Recombined(q', r');
    QuotientUnique(q, r, q', r');
  }

  // ----- The serial register -----

  // One shift of the register: its low bit leaves and, when set, subtracts the generator.
  function ShiftOut(p: Poly): (r: Poly)
    requires |p| == 32
    ensures |r| == 32
  {
    Xor(p[1..] + [false], if p[0] then Generator()[1..] else Zeros(32))
  }

  // A message bit enters at the low end before the shift.
  function Feed(p: Poly, bit: bool): (r: Poly)
    requires |p| == 32
    ensures |r| == 32
  {
    ShiftOut(p[0 := p[0] != bit])
  }

  function Run(p: Poly, bits: Poly): (r: Poly)
    requires |p| == 32
    ensures |r| == 32
    decreases bits
  {
    if bits == [] then p else Run(Feed(p, bits[0]), bits[1..])
  }

  lemma {:induction false} RunConcat(p: Poly, s: Poly, t: Poly)
    requires |p| == 32
    ensures Run(p, s + t) == Run(Run(p, s), t)
    decreases s
  {
    if s == [] {
      assert s + t == t;
    } else {
      assert (s + t)[1..] == s[1..] + t;
      RunConcat(Feed(p, s[0]), s[1..], t);
    }
  }

  // The register is linear: two runs differ by the run on their difference.
  lemma {:induction false} RunXor(p: Poly, q: Poly, s: Poly, t: Poly)
    requires |p| == |q| == 32 && |s| == |t|
    ensures Xor(Run(p, s), Run(q, t)) == Run(Xor(p, q), Xor(s, t))
    decreases s
  {
    if s != [] {
      assert Xor(Feed(p, s[0]), Feed(q, t[0])) == Feed(Xor(p, q), Xor(s, t)[0]);
      assert Xor(s, t)[1..] == Xor(s[1..], t[1..]);
      RunXor(Feed(p, s[0]), Feed(q, t[0]), s[1..], t[1..]);
    }
  }

  // ----- The register computes the remainder -----

  function Quotient(p: Poly, bits: Poly): (q: Poly)
    requires |p| == 32
    ensures |q| == |bits|
    decreases bits
  {
    if bits == [] then [] else [p[0] != bits[0]] + Quotient(Feed(p, bits[0]), bits[1..])
  }

  // The message bits behind the register's 32, and 32 zeros behind the message.
  function Dividend(p: Poly, bits: Poly): (d: Poly)
    requires |p| == 32
    ensures |d| == |bits| + 32
  {
    Xor(p + Zeros(|bits|), bits + Zeros(32))
  }

  function Recombined(q: Poly, r: Poly): (d: Poly)
    requires |r| == 32
    ensures |d| == |q| + 32
  {
    Xor(TimesGenerator(q), Zeros(|q|) + r)
  }

  // What one step of the division takes away below the leading bit h.
  function Subtrahend(h: bool, n: nat): (g: Poly)
    ensures |g| == n + 32
  {
    if h then (Generator() + Zeros(n))[1..] else Zeros(n + 32)
  }

  lemma DividendStep(p: Poly, bits: Poly)
    requires |p| == 32 && bits != []
    ensures Dividend(p, bits)[0] == (p[0] != bits[0])
    ensures Dividend(p, bits)[1..]
         == Xor(Dividend(Feed(p, bits[0]), bits[1..]), Subtrahend(p[0] != bits[0], |bits| - 1))
  {
    var n, p', h := |bits|, Feed(p, bits[0]), p[0] != bits[0];
    var g := Subtrahend(h, n - 1);
    var lhs, rhs := Dividend(p, bits)[1..], Xor(Dividend(p', bits[1..]), g);
    forall i | 0 <= i < n + 31 ensures lhs[i] == rhs[i] {
      assert (p' + Zeros(n - 1))[i] == ((p + Zeros(n))[i + 1] != g[i]);
      assert (bits + Zeros(32))[i + 1] == (bits[1..] + Zeros(32))[i];
    }
  }

  lemma XorTails(g: Poly, t: Poly, r: Poly)
    requires |g| == |t| + 1 && |t| >= |r|
    ensures Xor(Xor(g, [false] + t), Zeros(|t| + 1 - |r|) + r)[1..] == Xor(Xor(t, Zeros(|t| - |r|) + r), g[1..])
  {
    var lhs, rhs := Xor(Xor(g, [false] + t), Zeros(|t| + 1 - |r|) + r), Xor(Xor(t, Zeros(|t| - |r|) + r), g[1..]);
    forall i | 0 <= i < |t| ensures lhs[i + 1] == rhs[i] {
      assert (Zeros(|t| + 1 - |r|) + r)[i + 1] == (Zeros(|t| - |r|) + r)[i];
    }
  }

  lemma RecombinedStep(h: bool, q: Poly, r: Poly)
    requires |r| == 32
    ensures Recombined([h] + q, r)[0] == h
    ensures Recombined([h] + q, r)[1..]
         == Xor(Recombined(q, r), Subtrahend(h, |q|))
  {
    var g := if h then Generator() + Zeros(|q|) else Zeros(|q| + 33);
    assert ([h] + q)[1..] == q;
    assert TimesGenerator([h] + q) == Xor(g, [false] + TimesGenerator(q));
    hide TimesGenerator;
    assert g[0] == h;
    XorTails(g, TimesGenerator(q), r);
    assert !h ==> g[1..] == Zeros(|q| + 32);
  }

  lemma {:induction false} Division(p: Poly, bits: Poly)
    requires |p| == 32
    ensures Dividend(p, bits) == Recombined(Quotient(p, bits), Run(p, bits))
    decreases bits
  {
    if bits == [] {
      assert Dividend(p, bits) == p == Recombined([], p);
    } else {
      var p', h := Feed(p, bits[0]), p[0] != bits[0];
      Division(p', bits[1..]);
      DividendStep(p, bits);
      RecombinedStep(h, Quotient(p', bits[1..]), Run(p', bits[1..]));
      hide Feed, Dividend, Recombined;
      var d := Dividend(p, bits);
      assert d == [d[0]] + d[1..];
    }
  }

  // ----- The 32-bit word of the source -----

  const POLYNOMIAL: bv32 := 0xedb88320
  const ALL_ONES: bv32 := 0xffff_ffff

  function Add(a: bv32, b: bv32): bv32
  {
    a ^ b
  }

  predicate Low(w: bv32)
  {
    w & 1 == 1
  }

  function Half(w: bv32): bv32
  {
    w >> 1
  }

  // The k low bits of w, least significant first.
  function LowBits(w: bv32, k: nat): (p: Poly)
    ensures |p| == k
    decreases k
  {
    if k == 0 then [] else [Low(w)] + LowBits(Half(w), k - 1)
  }

  // Bit i of the word is the coefficient of the power 31 - i.
  function StateBits(w: bv32): (p: Poly)
    ensures |p| == 32
  {
    LowBits(w, 32)
  }

  // Section 5.5 of ISO/IEC 15948: a byte enters from its low bit to its high bit.
  function ByteBits(b: Byte): (p: Poly)
    ensures |p| == 8
  {
    LowBits(b as bv32, 8)
  }

  function MessageBits(buf: seq<Byte>): (p: Poly)
    ensures |p| == 8 * |buf|
  {
    if buf == [] then [] else ByteBits(buf[0]) + MessageBits(buf[1..])
  }

  // One turn of the inner loop.
  function Shift(c: bv32): bv32
  {
    if c & 1 == 1 then POLYNOMIAL ^ (c >> 1) else c >> 1
  }

  function Shifts(c: bv32, k: nat): bv32
    decreases k
  {
    if k == 0 then c else Shifts(Shift(c), k - 1)
  }

  // The word after the bytes of buf.
  function Update(c: bv32, buf: seq<Byte>): bv32
    decreases buf
  {
    if buf == [] then c else Update(Shifts(Add(c, buf[0] as bv32), 8), buf[1..])
  }

  function Crc(buf: seq<Byte>): bv32
  {
    !Update(ALL_ONES, buf)
  }

  lemma AddFacts(a: bv32, b: bv32)
    ensures Half(Add(a, b)) == Add(Half(a), Half(b))
    ensures Low(Add(a, b)) == (Low(a) != Low(b))
  {
  }

  lemma ShiftFacts(c: bv32)
    ensures Shift(c) == if Low(c) then Add(POLYNOMIAL, Half(c)) else Half(c)
  {
  }

  lemma {:induction false} LowBitsAdd(a: bv32, b: bv32, k: nat)
    ensures LowBits(Add(a, b), k) == Xor(LowBits(a, k), LowBits(b, k))
    decreases k
  {
    hide Half, Low, Add;
    if k > 0 {
      AddFacts(a, b);
      LowBitsAdd(Half(a), Half(b), k - 1);
    }
  }

  function HalfTimes(w: bv32, k: nat): bv32
    decreases k
  {
    if k == 0 then w else HalfTimes(Half(w), k - 1)
  }

  lemma {:induction false} LowBitsLast(w: bv32, k: nat)
    ensures LowBits(w, k + 1) == LowBits(w, k) + [Low(HalfTimes(w, k))]
    decreases k
  {
    hide Half, Low;
    if k > 0 {
      LowBitsLast(Half(w), k - 1);
    }
  }

  lemma HalfChain(w: bv32)
    ensures Half(w) == w >> 1 && Half(w >> 1) == w >> 2 && Half(w >> 2) == w >> 3 && Half(w >> 3) == w >> 4
  {
  }

  function Drop4(w: bv32): bv32
  {
    w >> 4
  }

  // The first four bits of a word.
  function Nibble(w: bv32): (p: Poly)
    ensures |p| == 4
  {
    [Low(w), Low(w >> 1), Low(w >> 2), Low(w >> 3)]
  }

  lemma FourBits(w: bv32, k: nat)
    ensures HalfTimes(w, k + 4) == HalfTimes(Drop4(w), k)
    ensures LowBits(w, k + 4) == Nibble(w) + LowBits(Drop4(w), k)
  {
    HalfChain(w);
    hide Half, Low;
    assert HalfTimes(w >> 2, k + 2) == HalfTimes(w >> 4, k);
    assert LowBits(w >> 2, k + 2) == [Low(w >> 2), Low(w >> 3)] + LowBits(w >> 4, k);
  }

  lemma Emptied(w: bv32)
    ensures Drop4(Drop4(Drop4(Drop4(Drop4(Drop4(Drop4(Drop4(w)))))))) == 0
  {
  }

  lemma FourHalves(w: bv32, k: nat)
    ensures HalfTimes(w, k + 4) == HalfTimes(Drop4(w), k)
  {
    FourBits(w, k);
  }

  // Nothing is left of a word after 32 halvings.
  lemma Halves32(w: bv32)
    ensures HalfTimes(w, 32) == 0
  {
    Emptied(w);
    hide Half, Drop4;
    var w4 := Drop4(Drop4(Drop4(Drop4(w))));
    FourHalves(w, 28);
    FourHalves(Drop4(w), 24);
    FourHalves(Drop4(Drop4(w)), 20);
    FourHalves(Drop4(Drop4(Drop4(w))), 16);
    FourHalves(w4, 12);
    FourHalves(Drop4(w4), 8);
    FourHalves(Drop4(Drop4(w4)), 4);
    FourHalves(Drop4(Drop4(Drop4(w4))), 0);
  }

  // ----- Words written digit by digit -----

  // The word with one more hexadecimal digit.
  function Digit(v: bv32, h: bv32): bv32
  {
    (v << 4) | h
  }

  lemma DigitShifts(v: bv32, h: bv32)
    requires v < 0x1000_0000 && h < 16
    ensures Drop4(Digit(v, h)) == v && Nibble(Digit(v, h)) == Nibble(h)
  {
  }

  lemma LowBitsDigit(v: bv32, h: bv32, k: nat)
    requires v < 0x1000_0000 && h < 16
    ensures LowBits(Digit(v, h), k + 4) == Nibble(h) + LowBits(v, k)
  {
    hide LowBits, Nibble, Digit, Drop4;
    DigitShifts(v, h);
    FourBits(Digit(v, h), k);
  }

  lemma NibblesOfDigits()
    ensures Nibble(0xe) == [false, true, true, true]
    ensures Nibble(0xd) == [true, false, true, true]
    ensures Nibble(0xb) == [true, true, false, true]
    ensures Nibble(0x8) == [false, false, false, true]
    ensures Nibble(0x3) == [true, true, false, false]
    ensures Nibble(0x2) == [false, true, false, false]
    ensures Nibble(0x0) == [false, false, false, false]
    ensures Nibble(0xf) == [true, true, true, true]
  {
  }

  lemma PolynomialDigits()
    ensures Digit(0, 0xe) == 0xe && Digit(0xe, 0xd) == 0xed && Digit(0xed, 0xb) == 0xedb
    ensures Digit(0xedb, 0x8) == 0xedb8 && Digit(0xedb8, 0x8) == 0xedb88 && Digit(0xedb88, 0x3) == 0xedb883
    ensures Digit(0xedb883, 0x2) == 0xedb8832 && Digit(0xedb8832, 0x0) == 0xedb88320
  {
  }

  lemma NoBits(w: bv32)
    ensures LowBits(w, 0) == []
  {
  }

  lemma PolynomialHigh()
    ensures LowBits(0xedb8, 16) == Nibble(0x8) + Nibble(0xb) + Nibble(0xd) + Nibble(0xe)
  {
    hide LowBits, Nibble, Digit;
    PolynomialDigits();
    NoBits(0);
    LowBitsDigit(0, 0xe, 0);
    LowBitsDigit(0xe, 0xd, 4);
    LowBitsDigit(0xed, 0xb, 8);
    LowBitsDigit(0xedb, 0x8, 12);
  }

  lemma PolynomialLow()
    ensures LowBits(0xedb88320, 32) == Nibble(0x0) + Nibble(0x2) + Nibble(0x3) + Nibble(0x8) + LowBits(0xedb8, 16)
  {
    hide LowBits, Nibble, Digit;
    PolynomialDigits();
    LowBitsDigit(0xedb8, 0x8, 16);
    LowBitsDigit(0xedb88, 0x3, 20);
    LowBitsDigit(0xedb883, 0x2, 24);
    LowBitsDigit(0xedb8832, 0x0, 28);
  }

  // The constant in the source is the generator without its leading power.
  lemma PolynomialBits()
    ensures StateBits(POLYNOMIAL) == Generator()[1..]
  {
    hide LowBits, Nibble;
    NibblesOfDigits();
    PolynomialHigh();
    PolynomialLow();
  }

  lemma OnesDigits()
    ensures Digit(0, 0xf) == 0xf && Digit(0xf, 0xf) == 0xff && Digit(0xff, 0xf) == 0xfff
    ensures Digit(0xfff, 0xf) == 0xffff && Digit(0xffff, 0xf) == 0xf_ffff && Digit(0xf_ffff, 0xf) == 0xff_ffff
    ensures Digit(0xff_ffff, 0xf) == 0xfff_ffff && Digit(0xfff_ffff, 0xf) == 0xffff_ffff
  {
  }

  lemma OnesMore(v: bv32, k: nat)
    requires v < 0x1000_0000 && LowBits(v, k) == Ones(k)
    ensures LowBits(Digit(v, 0xf), k + 4) == Ones(k + 4)
  {
    NibblesOfDigits();
    hide LowBits, Nibble, Digit;
    LowBitsDigit(v, 0xf, k);
  }

  lemma OnesBits()
    ensures StateBits(ALL_ONES) == Ones(32)
  {
    hide LowBits, Digit;
    OnesDigits();
    NoBits(0);
    OnesMore(0, 0);
    OnesMore(0xf, 4);
    OnesMore(0xff, 8);
    OnesMore(0xfff, 12);
    OnesMore(0xffff, 16);
    OnesMore(0xf_ffff, 20);
    OnesMore(0xff_ffff, 24);
    OnesMore(0xfff_ffff, 28);
  }

  lemma {:induction false} LowBitsOfZero(k: nat)
    ensures LowBits(0, k) == Zeros(k)
  {
    if k > 0 {
      LowBitsOfZero(k - 1);
      assert Half(0) == 0;
    }
  }

  lemma LowAndHalf(a: bv32, b: bv32)
    requires Low(a) == Low(b) && Half(a) == Half(b)
    ensures a == b
  {
  }

  lemma {:induction false} LowBitsInjective(a: bv32, b: bv32, k: nat)
    requires LowBits(a, k) == LowBits(b, k) && HalfTimes(a, k) == HalfTimes(b, k)
    ensures a == b
    decreases k
  {
    hide Low, Half;
    if k > 0 {
      assert LowBits(a, k)[0] == LowBits(b, k)[0];
      assert LowBits(a, k)[1..] == LowBits(Half(a), k - 1) && LowBits(b, k)[1..] == LowBits(Half(b), k - 1);
      LowBitsInjective(Half(a), Half(b), k - 1);
      LowAndHalf(a, b);
    }
  }

  lemma StateBitsInjective(a: bv32, b: bv32)
    requires StateBits(a) == StateBits(b)
    ensures a == b
  {
    Halves32(a);
    Halves32(b);
    LowBitsInjective(a, b, 32);
  }

  lemma ByteHalves(b: Byte)
    ensures HalfTimes(b as bv32, 8) == 0
  {
    var w := b as bv32;
    FourBits(w, 4);
    FourBits(w >> 4, 0);
    assert (w >> 4) >> 4 == 0;
  }

  lemma ByteBitsInjective(a: Byte, b: Byte)
    requires ByteBits(a) == ByteBits(b)
    ensures a == b
  {
    ByteHalves(a);
    ByteHalves(b);
    LowBitsInjective(a as bv32, b as bv32, 8);
    ByteOfWord(a);
    ByteOfWord(b);
  }

  lemma ByteOfWord(a: Byte)
    ensures ((a as bv32) & 0xff) as bv8 == a
  {
  }

  lemma {:induction false} MessageBitsInjective(a: seq<Byte>, b: seq<Byte>)
    requires |a| == |b| && MessageBits(a) == MessageBits(b)
    ensures a == b
  {
    hide ByteBits;
    if a != [] {
      var s, t := MessageBits(a), MessageBits(b);
      assert s[..8] == ByteBits(a[0]) && t[..8] == ByteBits(b[0]);
      assert s[8..] == MessageBits(a[1..]) && t[8..] == MessageBits(b[1..]);
      ByteBitsInjective(a[0], b[0]);
      MessageBitsInjective(a[1..], b[1..]);
      assert a == [a[0]] + a[1..] && b == [b[0]] + b[1..];
    }
  }

  // ----- The word register is the serial register -----

  lemma HalfBits(c: bv32)
    ensures StateBits(Half(c)) == StateBits(c)[1..] + [false]
    ensures StateBits(c)[0] == Low(c)
  {
    LowBitsLast(c, 32);
    Halves32(c);
    assert LowBits(c, 33)[1..] == LowBits(Half(c), 32);
    assert !Low(0);
    hide Low, Half;
  }

  lemma ShiftBits(c: bv32)
    ensures StateBits(Shift(c)) == ShiftOut(StateBits(c))
  {
    ShiftFacts(c);
    HalfBits(c);
    hide Low, Half, Add, Shift, LowBits;
    LowBitsAdd(POLYNOMIAL, Half(c), 32);
    PolynomialBits();
  }

  lemma FeedXor(p: Poly, w: Poly)
    requires |p| == |w| == 32
    ensures ShiftOut(Xor(p, w)) == Xor(Feed(p, w[0]), w[1..] + [false])
  {
  }

  lemma ShiftOne(x: bv32, p: Poly, w: bv32)
    requires |p| == 32 && StateBits(x) == Xor(p, StateBits(w))
    ensures StateBits(Shift(x)) == Xor(Feed(p, Low(w)), StateBits(Half(w)))
  {
    hide Low, Half, Shift, ShiftOut, Feed, StateBits;
    ShiftBits(x);
    HalfBits(w);
    FeedXor(p, StateBits(w));
  }

  // A word p + w shifted k times has taken in the k low bits of w one by one.
  lemma {:induction false} ShiftsRun(x: bv32, p: Poly, w: bv32, k: nat)
    requires |p| == 32 && StateBits(x) == Xor(p, StateBits(w))
    ensures StateBits(Shifts(x, k)) == Xor(Run(p, LowBits(w, k)), StateBits(HalfTimes(w, k)))
    decreases k
  {
    hide Low, Half, Shift, Feed, StateBits, Xor;
    if k > 0 {
      ShiftOne(x, p, w);
      ShiftsRun(Shift(x), Feed(p, Low(w)), Half(w), k - 1);
      assert LowBits(w, k)[1..] == LowBits(Half(w), k - 1);
    }
  }

  // Xoring in a byte and shifting eight times is eight serial steps.
  lemma ByteRun(c: bv32, b: Byte)
    ensures StateBits(Shifts(Add(c, b as bv32), 8)) == Run(StateBits(c), ByteBits(b))
  {
    hide Low, Half, Shift, Add, Shifts, LowBits;
    var w := b as bv32;
    LowBitsAdd(c, w, 32);
    ShiftsRun(Add(c, w), StateBits(c), w, 8);
    ByteHalves(b);
    LowBitsOfZero(32);
  }

  // The byte-at-a-time loop refines the serial register.
  lemma {:induction false} UpdateRun(c: bv32, buf: seq<Byte>)
    ensures StateBits(Update(c, buf)) == Run(StateBits(c), MessageBits(buf))
    decreases buf
  {
    hide Shifts, Add, StateBits, ByteBits;
    if buf != [] {
      ByteRun(c, buf[0]);
      UpdateRun(Shifts(Add(c, buf[0] as bv32), 8), buf[1..]);
      RunConcat(StateBits(c), ByteBits(buf[0]), MessageBits(buf[1..]));
    }
  }

  lemma CrcRegister(buf: seq<Byte>)
    ensures StateBits(!Crc(buf)) == Run(Ones(32), MessageBits(buf))
  {
    assert !!Update(ALL_ONES, buf) == Update(ALL_ONES, buf);
    UpdateRun(ALL_ONES, buf);
    OnesBits();
  }

  // ----- Main results -----

  // The complement of the checksum is the remainder, on division by the generator, of the
  // message with its first 32 bits inverted and 32 zeros appended.
  lemma CrcIsRemainder(buf: seq<Byte>)
    ensures IsRemainder(Dividend(Ones(32), MessageBits(buf)), StateBits(!Crc(buf)))
  {
    CrcRegister(buf);
    Division(Ones(32), MessageBits(buf));
  }

  // Conversely, any word whose complement is that remainder is the checksum.
  lemma CrcFromRemainder(buf: seq<Byte>, r: bv32)
    requires IsRemainder(Dividend(Ones(32), MessageBits(buf)), StateBits(!r))
    ensures r == Crc(buf)
  {
    CrcIsRemainder(buf);
    RemainderUnique(Dividend(Ones(32), MessageBits(buf)), StateBits(!r), StateBits(!Crc(buf)));
    StateBitsInjective(!r, !Crc(buf));
    assert !!r == r && !!Crc(buf) == Crc(buf);
  }

  // The running word carries over concatenation.
  // ----- How the checksum changes with the message -----

  // The bits in which two messages differ.
  function Difference(a: seq<Byte>, b: seq<Byte>): (d: seq<Byte>)
    requires |a| == |b|
    ensures |d| == |a|
  {
    seq(|a|, i requires 0 <= i < |a| => a[i] ^ b[i])
  }

  lemma ByteXor(x: Byte, y: Byte)
    ensures (x ^ y) as bv32 == Add(x as bv32, y as bv32)
  {
  }

  lemma ByteBitsXor(x: Byte, y: Byte)
    ensures ByteBits(x ^ y) == Xor(ByteBits(x), ByteBits(y))
  {
    ByteXor(x, y);
    hide LowBits, Add;
    LowBitsAdd(x as bv32, y as bv32, 8);
  }

  lemma {:induction false} DifferenceBits(a: seq<Byte>, b: seq<Byte>)
    requires |a| == |b|
    ensures MessageBits(Difference(a, b)) == Xor(MessageBits(a), MessageBits(b))
    decreases |a|
  {
    hide ByteBits, Xor, Difference;
    if a == [] {
      NoDifference();
    } else {
      DifferenceStep(a, b);
      ByteBitsXor(a[0], b[0]);
      DifferenceBits(a[1..], b[1..]);
      XorConcat(ByteBits(a[0]), ByteBits(b[0]), MessageBits(a[1..]), MessageBits(b[1..]));
    }
  }

  lemma NoDifference()
    ensures Difference([], []) == [] && Xor([], []) == []
  {
  }

  lemma DifferenceStep(a: seq<Byte>, b: seq<Byte>)
    requires |a| == |b| && a != []
    ensures Difference(a, b)[0] == a[0] ^ b[0] && Difference(a, b)[1..] == Difference(a[1..], b[1..])
  {
  }

  lemma XorConcat(p: Poly, q: Poly, s: Poly, t: Poly)
    requires |p| == |q| && |s| == |t|
    ensures Xor(p + s, q + t) == Xor(p, q) + Xor(s, t)
  {
  }

  // A register that starts at zero, over the bytes of d.
  lemma FromZero(d: seq<Byte>)
    ensures StateBits(Update(0, d)) == Run(Zeros(32), MessageBits(d))
  {
    UpdateRun(0, d);
    LowBitsOfZero(32);
  }

  lemma NotIsXor(x: bv32)
    ensures !x == Add(x, ALL_ONES)
  {
  }

  lemma AddTwice(x: bv32, y: bv32, z: bv32)
    ensures Add(Add(x, z), Add(y, z)) == Add(x, y)
  {
    hide Add;
    AddGroup(x, z, Add(y, z));
    AddGroup(z, y, z);
    AddGroup(y, z, z);
    AddSelf(z, y);
  }

  lemma AddGroup(x: bv32, y: bv32, z: bv32)
    ensures Add(Add(x, y), z) == Add(x, Add(y, z)) && Add(x, y) == Add(y, x)
  {
  }

  lemma AddSelf(x: bv32, y: bv32)
    ensures Add(x, x) == 0 && Add(y, 0) == y
  {
  }

  lemma ComplementsAdd(x: bv32, y: bv32)
    ensures Add(!x, !y) == Add(x, y)
  {
    hide Add;
    NotIsXor(x);
    NotIsXor(y);
    AddTwice(x, y, ALL_ONES);
  }

  // Two messages of equal length have checksums that differ by the register run from zero on
  // their difference, whatever the messages are.
  lemma CrcDifference(a: seq<Byte>, b: seq<Byte>)
    requires |a| == |b|
    ensures Add(Crc(a), Crc(b)) == Update(0, Difference(a, b))
    ensures StateBits(Add(Crc(a), Crc(b))) == Run(Zeros(32), Xor(MessageBits(a), MessageBits(b)))
  {
    CrcRegister(a);
    CrcRegister(b);
    hide Crc, Update, Add, Run, MessageBits, ByteBits, LowBits, StateBits;
    RunXor(Ones(32), Ones(32), MessageBits(a), MessageBits(b));
    assert Xor(Ones(32), Ones(32)) == Zeros(32);
    StateBitsAdd(!Crc(a), !Crc(b));
    ComplementsAdd(Crc(a), Crc(b));
    DifferenceBits(a, b);
    FromZero(Difference(a, b));
    StateBitsInjective(Add(Crc(a), Crc(b)), Update(0, Difference(a, b)));
  }

  lemma StateBitsAdd(x: bv32, y: bv32)
    ensures StateBits(Add(x, y)) == Xor(StateBits(x), StateBits(y))
  {
    hide LowBits, Add;
    LowBitsAdd(x, y, 32);
  }

  lemma {:induction false} UpdateConcat(c: bv32, a: seq<Byte>, b: seq<Byte>)
    ensures Update(c, a + b) == Update(Update(c, a), b)
    decreases a
  {
    hide Shifts, Add;
    if a == [] {
      assert a + b == b;
    } else {
      assert (a + b)[1..] == a[1..] + b;
      UpdateConcat(Shifts(Add(c, a[0] as bv32), 8), a[1..], b);
    }
  }

  lemma ShiftOutInverse(p: Poly)
    requires |p| == 32 && !ShiftOut(p)[31]
    ensures p == [false] + ShiftOut(p)[..31]
  {
    var r := ShiftOut(p);
    assert r[31] == p[0];
    forall i | 0 < i < 32 ensures p[i] == r[i - 1] {
    }
  }

  // Within 32 steps the register is cleared only by its own bits.
  lemma {:induction false} RunToZero(p: Poly, w: Poly)
    requires |p| == 32 && |w| <= 32 && Run(p, w) == Zeros(32)
    ensures p == w + Zeros(32 - |w|)
    decreases w
  {
    if w != [] {
      var rest := w[1..];
      RunToZero(Feed(p, w[0]), rest);
      assert Feed(p, w[0]) == rest + Zeros(32 - |rest|);
      var x := p[0 := p[0] != w[0]];
      ShiftOutInverse(x);
      forall i | 0 <= i < 32 ensures p[i] == (w + Zeros(32 - |w|))[i] {
        assert x[i] == ([false] + Feed(p, w[0])[..31])[i];
      }
    } else {
      assert w + Zeros(32) == Zeros(32);
    }
  }

  lemma {:induction false} RunZeros(n: nat)
    ensures Run(Zeros(32), Zeros(n)) == Zeros(32)
  {
    if n > 0 {
      assert Feed(Zeros(32), false) == Zeros(32);
      assert Zeros(n)[1..] == Zeros(n - 1);
      RunZeros(n - 1);
    }
  }

  lemma {:induction false} RunZerosBack(p: Poly, n: nat)
    requires |p| == 32 && Run(p, Zeros(n)) == Zeros(32)
    ensures p == Zeros(32)
    decreases n
  {
    if n > 0 {
      assert Zeros(n)[1..] == Zeros(n - 1);
      RunZerosBack(Feed(p, false), n - 1);
      assert p[0 := p[0]] == p;
      ShiftOutInverse(p);
    }
  }

  lemma WindowSplit(d: Poly, k: nat) returns (m: nat, w: Poly, n: nat)
    requires forall i :: 0 <= i < |d| && !(k <= i < k + 32) ==> !d[i]
    ensures |w| <= 32 && d == Zeros(m) + (w + Zeros(n))
  {
    m := if k < |d| then k else |d|;
    var z := if k + 32 < |d| then k + 32 else |d|;
    w, n := d[m..z], |d| - z;
  }

  // No difference confined to a window of 32 bits clears the register.
  lemma WindowDetected(d: Poly, k: nat)
    requires forall i :: 0 <= i < |d| && !(k <= i < k + 32) ==> !d[i]
    requires Run(Zeros(32), d) == Zeros(32)
    ensures d == Zeros(|d|)
  {
    hide Run;
    var m, w, n := WindowSplit(d, k);
    RunConcat(Zeros(32), Zeros(m), w + Zeros(n));
    RunZeros(m);
    RunConcat(Zeros(32), w, Zeros(n));
    RunZerosBack(Run(Zeros(32), w), n);
    RunToZero(Zeros(32), w);
    forall i | 0 <= i < |w| ensures !w[i] {
      assert Zeros(32)[i] == (w + Zeros(32 - |w|))[i];
    }
  }

  // Burst detection: buffers of equal length whose differing bits all lie in some window
  // of 32 consecutive bits get different checksums.
  lemma BurstDetected(a: seq<Byte>, b: seq<Byte>, k: nat)
    requires |a| == |b| && a != b
    requires forall i :: 0 <= i < 8 * |a| && !(k <= i < k + 32) ==> MessageBits(a)[i] == MessageBits(b)[i]
    ensures Crc(a) != Crc(b)
  {
    var s, t := MessageBits(a), MessageBits(b);
    hide Crc, Run, MessageBits, StateBits;
    if Crc(a) == Crc(b) {
      CrcRegister(a);
      CrcRegister(b);
      RunXor(Ones(32), Ones(32), s, t);
      assert Xor(Ones(32), Ones(32)) == Zeros(32);
      assert Xor(Run(Ones(32), s), Run(Ones(32), t)) == Zeros(32);
      WindowDetected(Xor(s, t), k);
      forall i | 0 <= i < |s| ensures s[i] == t[i] {
        assert Xor(s, t)[i] == Zeros(|s|)[i];
      }
      MessageBitsInjective(a, b);
      assert false;
    }
  }

  lemma {:induction false} MessageBitsAt(buf: seq<Byte>, i: nat)
    requires i < 8 * |buf|
    ensures MessageBits(buf)[i] == ByteBits(buf[i / 8])[i % 8]
  {
    hide ByteBits;
    if i >= 8 {
      MessageBitsAt(buf[1..], i - 8);
    }
  }

  // In particular any damage to at most four consecutive bytes is detected.
  lemma ByteBurstDetected(a: seq<Byte>, b: seq<Byte>, k: nat)
    requires |a| == |b| && a != b
    requires forall i :: 0 <= i < |a| && !(k <= i < k + 4) ==> a[i] == b[i]
    ensures Crc(a) != Crc(b)
  {
    forall i | 0 <= i < 8 * |a| && !(8 * k <= i < 8 * k + 32) ensures MessageBits(a)[i] == MessageBits(b)[i] {
      MessageBitsAt(a, i);
      MessageBitsAt(b, i);
    }
    BurstDetected(a, b, 8 * k);
  }

  // The window cannot be widened: a 33-bit burst equal to the generator goes unnoticed.
  lemma BurstBoundTight()
    ensures Crc([0, 0, 0, 0, 0]) == Crc([0x41, 0x06, 0x71, 0xdb, 0x01])
  {
  }

  // The check value of this checksum: that of the characters 1 to 9.
  lemma CheckValue()
    ensures Crc([0x31, 0x32, 0x33, 0x34, 0x35, 0x36, 0x37, 0x38, 0x39]) == 0xcbf4_3926
  {
    var five: seq<Byte>, four: seq<Byte> := [0x31, 0x32, 0x33, 0x34, 0x35], [0x36, 0x37, 0x38, 0x39];
    UpdateConcat(ALL_ONES, five, four);
    assert five + four == [0x31, 0x32, 0x33, 0x34, 0x35, 0x36, 0x37, 0x38, 0x39];
    FirstFive();
    hide Update;
    LastFourOf();
  }

  lemma FirstFive()
    ensures Update(ALL_ONES, [0x31, 0x32, 0x33, 0x34, 0x35]) == 0x340a_c5e3
  {
  }

  lemma LastFourOf()
    ensures !Update(0x340a_c5e3, [0x36, 0x37, 0x38, 0x39]) == 0xcbf4_3926
  {
  }

  // ----- The loop of the source -----

  lemma UpdateStep(c: bv32, buf: seq<Byte>)
    ensures Update(c, buf) == if buf == [] then c else Update(Shifts(c ^ (buf[0] as bv32), 8), buf[1..])
  {
  }

  lemma ShiftsStep(c: bv32, k: nat)
    ensures Shifts(c, k) == if k == 0 then c else Shifts(Shift(c), k - 1)
  {
  }

  method Crc32(buf: seq<Byte>) returns (r: bv32)
    ensures r == Crc(buf)
  {
    hide Update, Shifts;
    var c: bv32 := !0;
    for i := 0 to |buf|
      invariant Update(c, buf[i..]) == Update(ALL_ONES, buf)
    {
      UpdateStep(c, buf[i..]);
      c := c ^ (buf[i] as bv32);
      ghost var c0 := c;
      for k := 0 to 8
        invariant Shifts(c, 8 - k) == Shifts(c0, 8)
      {
        ShiftsStep(c, 8 - k);
        c := if c & 1 == 1 then 0xedb88320 ^ (c >> 1) else c >> 1;
      }
      ShiftsStep(c, 0);
      assert buf[i..][1..] == buf[i + 1..];
    }
    UpdateStep(c, buf[|buf|..]);
    r := !c;
  }
}
