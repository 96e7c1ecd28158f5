// Byte strings and the fixed-width integer fields written into them.
module Bytes {

  type Byte = bv8

  function Pow256(k: nat): (p: nat)
    ensures p > 0
  {
    if k == 0 then 1 else 256 * Pow256(k - 1)
  }

  ghost function CountedTo(n: nat): (b: Byte)
    requires n < 256
    ensures b as nat == n
  {
    if n == 0 then 0 else CountedTo(n - 1) + 1
  }

  lemma ThereAndBack(b: Byte)
    ensures (b as nat) as Byte == b
  {
  }

  function ToByte(n: nat): (b: Byte)
    requires n < 256
    ensures b as nat == n
  {
    ThereAndBack(CountedTo(n));
    n as Byte
  }

  function ToNat(b: Byte): (n: nat)
    ensures n < 256 && ToByte(n) == b
  {
    b as nat
  }

  // n as k bytes, most significant first.
  function BigEndian(n: nat, k: nat): (s: seq<Byte>)
    ensures |s| == k
  {
    if k == 0 then [] else BigEndian(n / 256, k - 1) + [ToByte(n % 256)]
  }

  function ReadBigEndian(s: seq<Byte>): nat
  {
    if s == [] then 0 else ReadBigEndian(s[..|s| - 1]) * 256 + ToNat(s[|s| - 1])
  }

  // n as k bytes, least significant first.
  function LittleEndian(n: nat, k: nat): (s: seq<Byte>)
    ensures |s| == k
  {
    if k == 0 then [] else [ToByte(n % 256)] + LittleEndian(n / 256, k - 1)
  }

  function ReadLittleEndian(s: seq<Byte>): nat
  {
    if s == [] then 0 else ToNat(s[0]) + 256 * ReadLittleEndian(s[1..])
  }

  lemma ToByteToNat(n: nat)
    requires n < 256
    ensures ToNat(ToByte(n)) == n
  {
  }

  lemma {:induction false} BigEndianRoundTrip(n: nat, k: nat)
    requires n < Pow256(k)
    ensures ReadBigEndian(BigEndian(n, k)) == n
  {
    hide ToByte, ToNat, Pow256, ReadBigEndian;
    ReadNothing();
    PowStep(n, k);
    if k > 0 {
      BigEndianRoundTrip(n / 256, k - 1);
      ReadOneMore(BigEndian(n / 256, k - 1), ToByte(n % 256));
      ToByteToNat(n % 256);
    }
  }

  lemma PowStep(n: nat, k: nat)
    requires n < Pow256(k)
    ensures if k == 0 then n == 0 else n / 256 < Pow256(k - 1)
  {
  }

  lemma ReadNothing()
    ensures ReadBigEndian([]) == 0
  {
  }

  lemma ReadOneMore(s: seq<Byte>, b: Byte)
    ensures ReadBigEndian(s + [b]) == ReadBigEndian(s) * 256 + ToNat(b)
  {
    hide ToNat;
    assert (s + [b])[..|s|] == s;
  }

  // The field is filled by exactly one number, so reading and writing are inverse.
  lemma {:induction false} ReadBigEndianRoundTrip(s: seq<Byte>)
    ensures ReadBigEndian(s) < Pow256(|s|)
    ensures BigEndian(ReadBigEndian(s), |s|) == s
  {
    if s != [] {
      var front, b := s[..|s| - 1], ToNat(s[|s| - 1]);
      ReadBigEndianRoundTrip(front);
      assert Pow256(|s|) == 256 * Pow256(|s| - 1);
      hide ToByte, ToNat, Pow256;
      var n := ReadBigEndian(s);
      assert n == ReadBigEndian(front) * 256 + b;
      assert n / 256 == ReadBigEndian(front) && n % 256 == b;
      assert s == front + [s[|s| - 1]];
    }
  }

  lemma {:induction false} LittleEndianRoundTrip(n: nat, k: nat)
    requires n < Pow256(k)
    ensures ReadLittleEndian(LittleEndian(n, k)) == n
  {
    if k > 0 {
      LittleEndianRoundTrip(n / 256, k - 1);
      hide ToByte, ToNat, Pow256;
      assert LittleEndian(n, k)[1..] == LittleEndian(n / 256, k - 1);
      ToByteToNat(n % 256);
    }
  }

  lemma Widths()
    ensures Pow256(2) == 0x1_0000
    ensures Pow256(4) == 0x1_0000_0000
    ensures Pow256(8) == 0x1_0000_0000_0000_0000
  {
    assert Pow256(1) == 256 && Pow256(2) == 256 * Pow256(1);
    assert Pow256(3) == 256 * Pow256(2) && Pow256(4) == 256 * Pow256(3);
    assert Pow256(5) == 256 * Pow256(4) && Pow256(6) == 256 * Pow256(5);
    assert Pow256(7) == 256 * Pow256(6) && Pow256(8) == 256 * Pow256(7);
  }

  // ----- Fields as numbers -----

  // Four bytes from i on, as a number.
  function Word(buf: seq<Byte>, i: nat): nat
    requires i + 4 <= |buf|
  {
    0x100_0000 * ToNat(buf[i]) + 0x1_0000 * ToNat(buf[i + 1]) + 0x100 * ToNat(buf[i + 2]) + ToNat(buf[i + 3])
  }

  lemma WordRead(s: seq<Byte>)
    requires |s| == 4
    ensures ReadBigEndian(s) == Word(s, 0)
  {
    FourBytes(s);
  }

  // n as four bytes, read off again.
  lemma WordWritten(n: nat)
    requires n < 0x1_0000_0000
    ensures Word(BigEndian(n, 4), 0) == n
  {
    Widths();
    BigEndianRoundTrip(n, 4);
    hide Word;
    WordRead(BigEndian(n, 4));
  }

  lemma WordWithin(a: seq<Byte>, b: seq<Byte>, c: seq<Byte>, i: nat)
    requires i + 4 <= |b|
    ensures Word(a + b + c, |a| + i) == Word(b, i)
  {
    hide ToNat;
  }

  lemma TwoBytes(s: seq<Byte>)
    requires |s| == 2
    ensures ReadBigEndian(s) == 0x100 * ToNat(s[0]) + ToNat(s[1])
  {
    hide ToNat;
    assert s == [s[0]] + [s[1]];
    ReadNothing();
    ReadOneMore([], s[0]);
    ReadOneMore([s[0]], s[1]);
    assert [] + [s[0]] == [s[0]];
  }

  lemma FourBytes(s: seq<Byte>)
    requires |s| == 4
    ensures ReadBigEndian(s)
         == 0x100_0000 * ToNat(s[0]) + 0x1_0000 * ToNat(s[1]) + 0x100 * ToNat(s[2]) + ToNat(s[3])
  {
    hide ToNat, ReadBigEndian;
    TwoBytes(s[..2]);
    ReadOneMore(s[..2], s[2]);
    ReadOneMore(s[..3], s[3]);
    assert s[..2] + [s[2]] == s[..3] && s[..3] + [s[3]] == s;
  }

  lemma EightBytes(s: seq<Byte>)
    requires |s| == 8
    ensures ReadBigEndian(s) == 0x1_0000_0000 * ReadBigEndian(s[..4]) + ReadBigEndian(s[4..])
  {
    hide ToNat, ReadBigEndian;
    FourBytes(s[4..]);
    ReadOneMore(s[..4], s[4]);
    ReadOneMore(s[..5], s[5]);
    ReadOneMore(s[..6], s[6]);
    ReadOneMore(s[..7], s[7]);
    assert s[..4] + [s[4]] == s[..5] && s[..5] + [s[5]] == s[..6] && s[..6] + [s[6]] == s[..7] && s[..7] + [s[7]] == s;
  }

  lemma ReadOneFirst(b: Byte, s: seq<Byte>)
    ensures ReadLittleEndian([b] + s) == ToNat(b) + 256 * ReadLittleEndian(s)
  {
    hide ToNat;
    assert ([b] + s)[1..] == s;
  }

  // Four bytes from i on, as a number with the least significant first.
  function LittleWord(buf: seq<Byte>, i: nat): nat
    requires i + 4 <= |buf|
  {
    ToNat(buf[i]) + 0x100 * ToNat(buf[i + 1]) + 0x1_0000 * ToNat(buf[i + 2]) + 0x100_0000 * ToNat(buf[i + 3])
  }

  lemma LittleWordWritten(n: nat)
    requires n < 0x1_0000_0000
    ensures LittleWord(LittleEndian(n, 4), 0) == n
  {
    Widths();
    LittleEndianRoundTrip(n, 4);
    hide LittleWord;
    FourBytesReversed(LittleEndian(n, 4));
  }

  lemma FourBytesReversed(s: seq<Byte>)
    requires |s| == 4
    ensures ReadLittleEndian(s) == LittleWord(s, 0)
  {
    assert ReadLittleEndian([]) == 0;
    hide ToNat, ReadLittleEndian;
    ReadOneFirst(s[3], []);
    ReadOneFirst(s[2], [s[3]]);
    ReadOneFirst(s[1], [s[2]] + [s[3]]);
    ReadOneFirst(s[0], [s[1]] + ([s[2]] + [s[3]]));
    assert [s[3]] + [] == [s[3]] && [s[0]] + ([s[1]] + ([s[2]] + [s[3]])) == s;
  }
}
