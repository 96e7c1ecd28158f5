// RFC 6455 framing as in ross_ai/websocket.py. Payloads are bytes: the text of a message is a
// function of them, and is empty exactly when they are.
module WebSocket {
  import opened Bytes
  import opened Outcomes

  datatype PackError = LengthOutOfRange

  const LENGTH_LIMIT: nat := 0x1_0000_0000_0000_0000

  // ----- Frames on the wire (section 5.2 of RFC 6455) -----

  datatype LengthForm = Seven | Sixteen | SixtyFour

  // head holds FIN, the reserved bits and the opcode; payload is the unmasked data.
  datatype Wire = Wire(head: Byte, form: LengthForm, mask: Option<seq<Byte>>, payload: seq<Byte>)
  {
    predicate Valid()
    {
      && (mask.Some? ==> |mask.value| == 4)
      && |payload| < match form case Seven => 126 case Sixteen => 0x1_0000 case SixtyFour => LENGTH_LIMIT
    }

    function Opcode(): Byte
    {
      OpcodeOf(head)
    }
  }

  function OpcodeOf(b: Byte): Byte
  {
    b & 0x0f
  }

  predicate IsMasked(b: Byte)
  {
    b & 0x80 != 0
  }

  function LengthBits(b: Byte): (n: nat)
    ensures n < 256
  {
    ToNat(b & 0x7f)
  }

  function ExtraLength(len7: nat): nat
  {
    if len7 == 126 then 2 else if len7 == 127 then 8 else 0
  }

  function SevenBits(form: LengthForm, length: nat): (n: nat)
    requires form == Seven ==> length < 126
    ensures n < 128
  {
    match form case Seven => length case Sixteen => 126 case SixtyFour => 127
  }

  function MaskBit(masked: bool): Byte
  {
    if masked then 0x80 else 0
  }

  function Masked(data: seq<Byte>, mask: seq<Byte>): (s: seq<Byte>)
    requires |mask| == 4
    ensures |s| == |data|
  {
    seq(|data|, i requires 0 <= i < |data| => data[i] ^ mask[i % 4])
  }

  function MaskBytes(mask: Option<seq<Byte>>): seq<Byte>
  {
    if mask.Some? then mask.value else []
  }

  function ApplyMask(data: seq<Byte>, mask: Option<seq<Byte>>): (s: seq<Byte>)
    requires mask.Some? ==> |mask.value| == 4
    ensures |s| == |data|
  {
    if mask.Some? then Masked(data, mask.value) else data
  }

  function WireBytes(w: Wire): seq<Byte>
    requires w.Valid()
  {
    var len7 := SevenBits(w.form, |w.payload|);
    [w.head, MaskBit(w.mask.Some?) | ToByte(len7)]
    + (BigEndian(|w.payload|, ExtraLength(len7))
       + (MaskBytes(w.mask) + ApplyMask(w.payload, w.mask)))
  }

  function TextFrame(data: seq<Byte>): Wire
  {
    Wire(0x81, if |data| < 126 then Seven else if |data| < 0x1_0000 then Sixteen else SixtyFour, None, data)
  }

  // The server's encoder.
  function EncodeText(data: seq<Byte>): Result<seq<Byte>, PackError>
  {
    var length := |data|;
    if length < 126 then
      Ok([0x81, ToByte(length)] + data)
    else if length < 65536 then
      Ok([0x81, 126] + BigEndian(length, 2) + data)
    else if length < LENGTH_LIMIT then
      Ok([0x81, 127] + BigEndian(length, 8) + data)
    else
      Err(LengthOutOfRange)
  }

  // ----- Decoder -----

  datatype FrameRead = FrameRead(opcode: Byte, payload: seq<Byte>, rest: seq<Byte>)

  // The masking key, if any, and the data.
  function ReadPayload(opcode: Byte, masked: bool, length: nat, s: seq<Byte>): (r: Option<FrameRead>)
    ensures r.Some? ==> |r.value.rest| <= |s|
  {
    if !masked then
      if |s| < length then None else Some(FrameRead(opcode, s[..length], s[length..]))
    else
      if |s| < 4 + length then None else Some(FrameRead(opcode, Masked(s[4..][..length], s[..4]), s[4..][length..]))
  }

  // The extended length, if any, and what follows it.
  function ReadBody(opcode: Byte, masked: bool, len7: nat, s: seq<Byte>): (r: Option<FrameRead>)
    ensures r.Some? ==> |r.value.rest| <= |s|
  {
    var extra := ExtraLength(len7);
    if |s| < extra then None
    else ReadPayload(opcode, masked, if extra == 0 then len7 else ReadBigEndian(s[..extra]), s[extra..])
  }

  // The first complete frame of the buffer.
  function ReadFrame(buf: seq<Byte>): (r: Option<FrameRead>)
    ensures r.Some? ==> |r.value.rest| + 2 <= |buf|
  {
    if |buf| < 2 then None
    else ReadBody(OpcodeOf(buf[0]), IsMasked(buf[1]), LengthBits(buf[1]), buf[2..])
  }

  datatype Decoded = Decoded(messages: seq<seq<Byte>>, rest: seq<Byte>, closed: bool)

  function Decode(buf: seq<Byte>): Decoded
    decreases |buf|
  {
    match ReadFrame(buf)
    case None => Decoded([], buf, false)
    case Some(f) =>
      if f.opcode == 0x8 then Decoded([[]], f.rest, true)
      else
        var d := Decode(f.rest);
        if f.opcode in {0x1, 0x2, 0x0} then Preceded([f.payload], d) else d
  }

  // ----- The decoder in place -----

  // A Python bytearray: a byte list changed in place.
  class Bytearray {
    var bytes: seq<Byte>

    constructor ()
      ensures bytes == []
    {
      bytes := [];
    }
  }

  method Copy(data: seq<Byte>) returns (a: array<Byte>)
    ensures fresh(a) && a[..] == data
  {
    a := new Byte[|data|];
    forall i | 0 <= i < |data| {
      a[i] := data[i];
    }
  }

  method Unmask(payload: array<Byte>, mask: seq<Byte>)
    requires |mask| == 4
    modifies payload
    ensures payload[..] == Masked(old(payload[..]), mask)
    ensures forall i :: 0 <= i < payload.Length ==> payload[i] == old(payload[i]) ^ mask[i % 4]
  {
    for i := 0 to payload.Length
      invariant forall j :: 0 <= j < i ==> payload[j] == old(payload[j]) ^ mask[j % 4]
      invariant forall j :: i <= j < payload.Length ==> payload[j] == old(payload[j])
    {
      payload[i] := payload[i] ^ mask[i % 4];
    }
  }

  function Preceded(messages: seq<seq<Byte>>, d: Decoded): Decoded
  {
    d.(messages := messages + d.messages)
  }

  lemma PrecededTwice(s: seq<seq<Byte>>, t: seq<seq<Byte>>, d: Decoded)
    ensures Preceded(s, Preceded(t, d)) == Preceded(s + t, d)
    ensures Preceded([], d) == d
  {
    assert s + (t + d.messages) == (s + t) + d.messages;
    assert [] + d.messages == d.messages;
  }

  lemma DecodeStep(buf: seq<Byte>)
    ensures ReadFrame(buf).None? ==> Decode(buf) == Decoded([], buf, false)
    ensures ReadFrame(buf).Some? ==>
      var f := ReadFrame(buf).value;
      var d := Decode(f.rest);
      Decode(buf) ==
        if f.opcode == 0x8 then Decoded([[]], f.rest, true)
        else if f.opcode in {0x1, 0x2, 0x0} then Preceded([f.payload], d)
        else d
  {
  }

  lemma FrameAt(buf: seq<Byte>, length: nat, start: nat, maskLen: nat)
    requires |buf| >= 2 && start == 2 + ExtraLength(LengthBits(buf[1])) <= |buf|
    requires length == if start == 2 then LengthBits(buf[1]) else ReadBigEndian(buf[2..start])
    requires maskLen == if IsMasked(buf[1]) then 4 else 0
    ensures ReadFrame(buf) ==
      var idx := start + maskLen;
      if |buf| < idx + length then None
      else
        var data := buf[idx..idx + length];
        var payload := if maskLen == 4 then Masked(data, buf[start..idx]) else data;
        Some(FrameRead(OpcodeOf(buf[0]), payload, buf[idx + length..]))
  {
    hide OpcodeOf, IsMasked, LengthBits, ReadBigEndian, ReadPayload;
    assert buf[2..][..start - 2] == buf[2..start] && buf[2..][start - 2..] == buf[start..];
    PayloadAt(buf, OpcodeOf(buf[0]), length, start, maskLen);
  }

  lemma PayloadAt(buf: seq<Byte>, opcode: Byte, length: nat, start: nat, maskLen: nat)
    requires start <= |buf| && (maskLen == 0 || maskLen == 4)
    ensures ReadPayload(opcode, maskLen == 4, length, buf[start..]) ==
      var idx := start + maskLen;
      if |buf| < idx + length then None
      else
        var data := buf[idx..idx + length];
        Some(FrameRead(opcode, if maskLen == 4 then Masked(data, buf[start..idx]) else data, buf[idx + length..]))
  {
    hide Masked;
    var idx := start + maskLen;
    if |buf| >= idx + length {
      assert buf[start..][..maskLen] == buf[start..idx] && buf[start..][maskLen..] == buf[idx..];
      assert buf[idx..][..length] == buf[idx..idx + length] && buf[idx..][length..] == buf[idx + length..];
    }
  }

  lemma TooShort(buf: seq<Byte>)
    ensures |buf| < 2 || |buf| < 2 + ExtraLength(LengthBits(buf[1])) ==> ReadFrame(buf) == None
  {
    hide LengthBits, OpcodeOf, IsMasked, ReadPayload;
  }

  // Removes the first complete frame from the buffer, if there is one.
  method TakeFrame(buffer: Bytearray) returns (frame: Option<FrameRead>)
    modifies buffer
    ensures frame == ReadFrame(old(buffer.bytes))
    ensures buffer.bytes == if frame.Some? then frame.value.rest else old(buffer.bytes)
  {
    hide OpcodeOf, IsMasked, LengthBits, ReadBigEndian, Masked, ReadFrame;
    var buf := buffer.bytes;
    TooShort(buf);
    if |buf| < 2 {
      return None;
    }
    var b1, b2 := buf[0], buf[1];
    var opcode, masked := OpcodeOf(b1), IsMasked(b2);
    var length, idx := LengthBits(b2), 2;
    if length == 126 {
      if |buf| < 4 {
        return None;
      }
      length, idx := ReadBigEndian(buf[2..4]), 4;
    } else if length == 127 {
      if |buf| < 10 {
        return None;
      }
      length, idx := ReadBigEndian(buf[2..10]), 10;
    }
    var maskLen := if masked then 4 else 0;
    FrameAt(buf, length, idx, maskLen);
    hide ExtraLength;
    if |buf| < idx + maskLen + length {
      return None;
    }
    var mask := if masked then buf[idx..idx + maskLen] else [];
    idx := idx + maskLen;
    var payload := Copy(buf[idx..idx + length]);
    buffer.bytes := buf[idx + length..];
    if masked {
      Unmask(payload, mask);
    }
    frame := Some(FrameRead(opcode, payload[..], buffer.bytes));
  }

  method DecodeFrames(buffer: Bytearray) returns (messages: seq<seq<Byte>>)
    modifies buffer
    ensures messages == Decode(old(buffer.bytes)).messages
    ensures buffer.bytes == Decode(old(buffer.bytes)).rest
  {
    hide Decode, ReadFrame;
    messages := [];
    ghost var all := Decode(buffer.bytes);
    PrecededTwice([], [], all);
    while true
      invariant all == Preceded(messages, Decode(buffer.bytes))
      decreases |buffer.bytes|
    {
      DecodeStep(buffer.bytes);
      var frame := TakeFrame(buffer);
      if frame.None? {
        break;
      }
      var FrameRead(opcode, payload, _) := frame.value;
      if opcode == 0x8 {
        messages := messages + [[]];
        return;
      }
      if opcode == 0x9 {
        continue;
      }
      if opcode in {0x1, 0x2, 0x0} {
        PrecededTwice(messages, [payload], Decode(buffer.bytes));
        messages := messages + [payload];
      }
    }
  }

  // ----- Decoding a frame and writing one are inverse -----

  lemma MaskedTwice(data: seq<Byte>, mask: seq<Byte>)
    requires |mask| == 4
    ensures Masked(Masked(data, mask), mask) == data
  {
    forall i | 0 <= i < |data| ensures Masked(Masked(data, mask), mask)[i] == data[i] {
      assert (data[i] ^ mask[i % 4]) ^ mask[i % 4] == data[i];
    }
  }

  lemma SecondByte(masked: bool, len7: nat)
    requires len7 < 128
    ensures IsMasked(MaskBit(masked) | ToByte(len7)) == masked
    ensures LengthBits(MaskBit(masked) | ToByte(len7)) == len7
  {
    var b := ToByte(len7);
    SmallByte(b);
    assert (0x80 | b) & 0x7f == b && (0 | b) & 0x7f == b;
    assert (0x80 | b) & 0x80 == 0x80 && (0 | b) & 0x80 == 0;
  }

  lemma SmallByte(b: Byte)
    requires b as nat < 128
    ensures b & 0x80 == 0 && b & 0x7f == b
  {
  }

  lemma Cut(a: seq<Byte>, b: seq<Byte>)
    ensures (a + b)[..|a|] == a && (a + b)[|a|..] == b
  {
  }

  lemma ReadPayloadBack(opcode: Byte, mask: Option<seq<Byte>>, data: seq<Byte>, rest: seq<Byte>)
    requires mask.Some? ==> |mask.value| == 4
    ensures ReadPayload(opcode, mask.Some?, |data|, MaskBytes(mask) + (ApplyMask(data, mask) + rest))
         == Some(FrameRead(opcode, data, rest))
  {
    hide Masked;
    Cut(MaskBytes(mask), ApplyMask(data, mask) + rest);
    Cut(ApplyMask(data, mask), rest);
    if mask.Some? {
      MaskedTwice(data, mask.value);
    } else {
      assert [] + (data + rest) == data + rest;
    }
  }

  // The length field and everything after it.
  function WireTail(w: Wire, rest: seq<Byte>): seq<Byte>
    requires w.Valid()
  {
    BigEndian(|w.payload|, ExtraLength(SevenBits(w.form, |w.payload|)))
      + (MaskBytes(w.mask) + (ApplyMask(w.payload, w.mask) + rest))
  }

  lemma ReadBodyBack(w: Wire, rest: seq<Byte>)
    requires w.Valid()
    ensures ReadBody(w.Opcode(), w.mask.Some?, SevenBits(w.form, |w.payload|), WireTail(w, rest))
         == Some(FrameRead(w.Opcode(), w.payload, rest))
  {
    hide OpcodeOf, BigEndian, ReadBigEndian, ApplyMask, MaskBytes, ReadPayload, ExtraLength, SevenBits;
    LengthField(w.form, |w.payload|);
    Cut(BigEndian(|w.payload|, ExtraLength(SevenBits(w.form, |w.payload|))),
      MaskBytes(w.mask) + (ApplyMask(w.payload, w.mask) + rest));
    ReadPayloadBack(w.Opcode(), w.mask, w.payload, rest);
  }

  lemma WireSplit(w: Wire, rest: seq<Byte>)
    requires w.Valid()
    ensures WireBytes(w) + rest
      == [w.head, MaskBit(w.mask.Some?) | ToByte(SevenBits(w.form, |w.payload|))] + WireTail(w, rest)
  {
    hide MaskBit, BigEndian, ApplyMask, MaskBytes, ToByte, ExtraLength, SevenBits;
  }

  // Every valid frame at the head of a buffer is read back, whatever follows it.
  lemma ReadWire(w: Wire, rest: seq<Byte>)
    requires w.Valid()
    ensures ReadFrame(WireBytes(w) + rest) == Some(FrameRead(w.Opcode(), w.payload, rest))
  {
    hide IsMasked, LengthBits, MaskBit, OpcodeOf, ReadBody, WireTail, WireBytes, ToByte, SevenBits;
    WireSplit(w, rest);
    ReadBodyBack(w, rest);
    SecondByte(w.mask.Some?, SevenBits(w.form, |w.payload|));
    Cut([w.head, MaskBit(w.mask.Some?) | ToByte(SevenBits(w.form, |w.payload|))], WireTail(w, rest));
  }

  lemma LengthField(form: LengthForm, length: nat)
    requires length < match form case Seven => 126 case Sixteen => 0x1_0000 case SixtyFour => LENGTH_LIMIT
    ensures var extra := ExtraLength(SevenBits(form, length));
      length == if extra == 0 then SevenBits(form, length) else ReadBigEndian(BigEndian(length, extra))
  {
    Widths();
    hide BigEndian, ReadBigEndian, Pow256;
    if form != Seven {
      BigEndianRoundTrip(length, ExtraLength(SevenBits(form, length)));
    }
  }

  lemma PayloadParts(opcode: Byte, masked: bool, length: nat, t: seq<Byte>)
    requires ReadPayload(opcode, masked, length, t).Some?
    ensures masked ==> |t| >= 4
    ensures
      var f, mask := ReadPayload(opcode, masked, length, t).value, if masked then Some(t[..4]) else None;
      f.opcode == opcode && |f.payload| == length && t == MaskBytes(mask) + (ApplyMask(f.payload, mask) + f.rest)
  {
    if masked {
      MaskedTwice(t[4..][..length], t[..4]);
      hide Masked;
      assert t == t[..4] + (t[4..][..length] + t[4..][length..]);
    } else {
      assert t == [] + (t[..length] + t[length..]);
    }
  }

  // The frame that a successful read consumed.
  function WireOf(buf: seq<Byte>): Wire
    requires ReadFrame(buf).Some?
  {
    var extra := ExtraLength(LengthBits(buf[1]));
    var length := if extra == 0 then LengthBits(buf[1]) else ReadBigEndian(buf[2..][..extra]);
    PayloadParts(OpcodeOf(buf[0]), IsMasked(buf[1]), length, buf[2..][extra..]);
    Wire(buf[0],
         if extra == 0 then Seven else if extra == 2 then Sixteen else SixtyFour,
         if IsMasked(buf[1]) then Some(buf[2..][extra..][..4]) else None,
         ReadFrame(buf).value.payload)
  }

  lemma SecondByteOf(b: Byte)
    ensures LengthBits(b) < 128
    ensures MaskBit(IsMasked(b)) | ToByte(LengthBits(b)) == b
  {
    assert ToByte(LengthBits(b)) == b & 0x7f;
    assert (b & 0x80) | (b & 0x7f) == b;
    assert b & 0x80 == 0x80 || b & 0x80 == 0;
    SevenBitsSmall(b & 0x7f);
  }

  lemma SevenBitsSmall(b: Byte)
    requires b & 0x80 == 0
    ensures b as nat < 128
  {
  }

  lemma LengthFieldOf(field: seq<Byte>)
    requires |field| in {2, 8}
    ensures ReadBigEndian(field) < if |field| == 2 then 0x1_0000 else LENGTH_LIMIT
    ensures BigEndian(ReadBigEndian(field), |field|) == field
  {
    Widths();
    hide BigEndian, ReadBigEndian, Pow256;
    ReadBigEndianRoundTrip(field);
  }

  lemma LengthFieldBack(len7: nat, s: seq<Byte>)
    requires len7 < 128 && |s| >= ExtraLength(len7)
    ensures
      var extra := ExtraLength(len7);
      var length := if extra == 0 then len7 else ReadBigEndian(s[..extra]);
      && BigEndian(length, extra) == s[..extra]
      && length < match extra case 0 => 126 case 2 => 0x1_0000 case _ => LENGTH_LIMIT
  {
    var extra := ExtraLength(len7);
    if extra > 0 {
      LengthFieldOf(s[..extra]);
    }
  }

  lemma WireOfTail(buf: seq<Byte>)
    requires ReadFrame(buf).Some?
    ensures WireOf(buf).Valid()
    ensures SevenBits(WireOf(buf).form, |WireOf(buf).payload|) == LengthBits(buf[1])
    ensures buf[2..] == WireTail(WireOf(buf), ReadFrame(buf).value.rest)
  {
    hide IsMasked, LengthBits, MaskBit, OpcodeOf, BigEndian, ReadBigEndian, ReadPayload, ApplyMask, MaskBytes, ToByte;
    var len7, s := LengthBits(buf[1]), buf[2..];
    var extra := ExtraLength(len7);
    SecondByteOf(buf[1]);
    LengthFieldBack(len7, s);
    var length := if extra == 0 then len7 else ReadBigEndian(s[..extra]);
    PayloadParts(OpcodeOf(buf[0]), IsMasked(buf[1]), length, s[extra..]);
    assert s == s[..extra] + s[extra..];
  }

  lemma WireOfHead(buf: seq<Byte>)
    requires ReadFrame(buf).Some?
    ensures WireOf(buf).head == buf[0] && WireOf(buf).mask.Some? == IsMasked(buf[1])
  {
  }

  // Conversely, whatever is read was a valid frame, so the decoder accepts exactly the frames.
  lemma ReadIsWire(buf: seq<Byte>)
    requires ReadFrame(buf).Some?
    ensures WireOf(buf).Valid()
    ensures buf == WireBytes(WireOf(buf)) + ReadFrame(buf).value.rest
  {
    hide IsMasked, LengthBits, MaskBit, OpcodeOf, ReadBody, WireTail, WireBytes, ToByte, SevenBits, WireOf;
    WireOfTail(buf);
    SecondByteOf(buf[1]);
    WireSplit(WireOf(buf), ReadFrame(buf).value.rest);
    WireOfHead(buf);
    assert buf == [buf[0], buf[1]] + buf[2..];
  }

  // ----- Frames are prefix-free -----

  lemma ReadExtended(a: seq<Byte>, b: seq<Byte>)
    requires ReadFrame(a).Some?
    ensures ReadFrame(a + b) == Some(ReadFrame(a).value.(rest := ReadFrame(a).value.rest + b))
  {
    hide WireBytes, ReadFrame, WireOf;
    var w, rest := WireOf(a), ReadFrame(a).value.rest;
    ReadIsWire(a);
    ReadWire(w, rest);
    ReadWire(w, rest + b);
    assert a + b == WireBytes(w) + (rest + b);
  }

  // No proper prefix of a frame is a frame, so no frame is a prefix of another.
  lemma ProperPrefixIncomplete(w: Wire, n: nat)
    requires w.Valid() && n < |WireBytes(w)|
    ensures ReadFrame(WireBytes(w)[..n]) == None
    ensures Decode(WireBytes(w)[..n]) == Decoded([], WireBytes(w)[..n], false)
  {
    hide ReadFrame, WireBytes;
    var s := WireBytes(w);
    ReadWire(w, []);
    assert s[..n] + s[n..] == s == s + [];
    if ReadFrame(s[..n]).Some? {
      ReadExtended(s[..n], s[n..]);
      assert false;
    }
  }

  // ----- The encoder -----

  lemma UnmaskedSecondByte(len7: nat)
    requires len7 < 128
    ensures MaskBit(false) | ToByte(len7) == ToByte(len7)
    ensures ToByte(126) == 126 && ToByte(127) == 127
  {
  }

  lemma EncodeIsTextFrame(data: seq<Byte>)
    requires |data| < LENGTH_LIMIT
    ensures TextFrame(data).Valid()
    ensures EncodeText(data) == Ok(WireBytes(TextFrame(data)))
  {
    hide MaskBit, BigEndian, ToByte;
    var len7 := SevenBits(TextFrame(data).form, |data|);
    UnmaskedSecondByte(len7);
    NoField();
    var front, field := [0x81, ToByte(len7)], BigEndian(|data|, ExtraLength(len7));
    assert WireBytes(TextFrame(data)) == front + (field + ([] + data));
    assert front + (field + ([] + data)) == front + field + data;
    assert front + [] + data == front + data;
  }

  lemma NoField()
    ensures forall n: nat :: BigEndian(n, 0) == []
  {
  }

  // The encoder uses the shortest of the valid frames that carry the data.
  lemma EncodeShortest(data: seq<Byte>, w: Wire)
    requires w.Valid() && w.payload == data
    ensures EncodeText(data).Ok? && |EncodeText(data).value| <= |WireBytes(w)|
  {
  }

  function Encoded(messages: seq<seq<Byte>>): seq<Byte>
    requires forall m :: m in messages ==> |m| < LENGTH_LIMIT
  {
    if messages == [] then [] else EncodeText(messages[0]).value + Encoded(messages[1..])
  }

  // ----- A stream of frames -----

  function StreamBytes(ws: seq<Wire>): seq<Byte>
    requires forall w :: w in ws ==> w.Valid()
  {
    if ws == [] then [] else WireBytes(ws[0]) + StreamBytes(ws[1..])
  }

  // What a stream of frames followed by an incomplete tail means: data frames are messages,
  // other frames are skipped, and a close frame ends the stream with an empty message.
  function Meaning(ws: seq<Wire>, tail: seq<Byte>): Decoded
    requires forall w :: w in ws ==> w.Valid()
  {
    if ws == [] then Decoded([], tail, false)
    else if ws[0].Opcode() == 0x8 then Decoded([[]], StreamBytes(ws[1..]) + tail, true)
    else if ws[0].Opcode() in {0x0, 0x1, 0x2} then Preceded([ws[0].payload], Meaning(ws[1..], tail))
    else Meaning(ws[1..], tail)
  }

  lemma {:induction false} DecodeStream(ws: seq<Wire>, tail: seq<Byte>)
    requires forall w :: w in ws ==> w.Valid()
    requires ReadFrame(tail) == None
    ensures Decode(StreamBytes(ws) + tail) == Meaning(ws, tail)
    decreases |ws|
  {
    hide ReadFrame, WireBytes, Preceded, Decode;
    if ws == [] {
      assert StreamBytes(ws) + tail == tail;
      DecodeStep(tail);
    } else {
      var rest := StreamBytes(ws[1..]) + tail;
      ReadWire(ws[0], rest);
      DecodeStep(WireBytes(ws[0]) + rest);
      DecodeStream(ws[1..], tail);
      assert StreamBytes(ws) + tail == WireBytes(ws[0]) + rest;
    }
  }

  // Every buffer is such a stream, so the lemma above describes the decoder on all inputs.
  lemma {:induction false} EveryBufferIsStream(buf: seq<Byte>) returns (ws: seq<Wire>, tail: seq<Byte>)
    ensures forall w :: w in ws ==> w.Valid()
    ensures ReadFrame(tail) == None
    ensures buf == StreamBytes(ws) + tail
    decreases |buf|
  {
    hide ReadFrame, WireBytes, WireOf;
    if ReadFrame(buf).None? {
      ws, tail := [], buf;
    } else {
      ReadIsWire(buf);
      var w, rest := WireOf(buf), ReadFrame(buf).value.rest;
      ws, tail := EveryBufferIsStream(rest);
      assert ([w] + ws)[1..] == ws;
      ws := [w] + ws;
    }
  }

  // Decoding what was encoded, masked or not, gives back exactly the messages.
  lemma {:induction false} RoundTrip(ws: seq<Wire>)
    requires forall w :: w in ws ==> w.Valid() && w.Opcode() == 0x1
    ensures Decode(StreamBytes(ws)) == Decoded(Payloads(ws), [], false)
  {
    assert StreamBytes(ws) + [] == StreamBytes(ws);
    DecodeStream(ws, []);
    MeaningOfText(ws);
  }

  function Payloads(ws: seq<Wire>): seq<seq<Byte>>
  {
    if ws == [] then [] else [ws[0].payload] + Payloads(ws[1..])
  }

  lemma {:induction false} MeaningOfText(ws: seq<Wire>)
    requires forall w :: w in ws ==> w.Valid() && w.Opcode() == 0x1
    ensures Meaning(ws, []) == Decoded(Payloads(ws), [], false)
  {
    if ws != [] {
      MeaningOfText(ws[1..]);
    }
  }

  lemma {:induction false} EncodedRoundTrip(messages: seq<seq<Byte>>)
    requires forall m :: m in messages ==> |m| < LENGTH_LIMIT
    ensures Decode(Encoded(messages)) == Decoded(messages, [], false)
  {
    if messages != [] {
      var m, rest := messages[0], messages[1..];
      EncodeIsTextFrame(m);
      ReadWire(TextFrame(m), Encoded(rest));
      EncodedRoundTrip(rest);
      assert TextFrame(m).Opcode() == 0x1;
      hide ReadFrame, WireBytes, EncodeText;
      assert messages == [m] + rest;
    }
  }

  // ----- Chunking -----

  // Bytes that arrive later continue the decoding where it stopped, unless a close frame
  // was complete, in which case they are never looked at.
  lemma {:induction false} DecodeAppended(a: seq<Byte>, b: seq<Byte>)
    ensures Decode(a + b) ==
      if Decode(a).closed then Decode(a).(rest := Decode(a).rest + b)
      else Preceded(Decode(a).messages, Decode(Decode(a).rest + b))
    decreases |a|
  {
    if ReadFrame(a).None? {
      PrecededTwice([], [], Decode(a + b));
    } else {
      var f := ReadFrame(a).value;
      var rest := f.rest;
      ReadExtended(a, b);
      DecodeAppended(rest, b);
      DecodeStep(a);
      DecodeStep(a + b);
      var d := Decode(rest);
      PrecededTwice([f.payload], d.messages, Decode(d.rest + b));
      hide ReadFrame, Decode;
    }
  }

  // ----- What counts as a message -----

  function TextPayloads(ws: seq<Wire>): seq<seq<Byte>>
  {
    if ws == [] then []
    else (if ws[0].Opcode() == 0x1 then [ws[0].payload] else []) + TextPayloads(ws[1..])
  }

  function BeforeClose(ws: seq<Wire>): seq<Wire>
  {
    if ws == [] || ws[0].Opcode() == 0x8 then [] else [ws[0]] + BeforeClose(ws[1..])
  }

  predicate HasClose(ws: seq<Wire>)
  {
    exists w :: w in ws && w.Opcode() == 0x8
  }

  // Binary frames, and continuations of other frames.
  predicate OtherData(w: Wire)
  {
    w.Opcode() == 0x0 || w.Opcode() == 0x2
  }

  // What only text frames would give, up to the empty message of a close frame.
  function TextMeaning(ws: seq<Wire>): seq<seq<Byte>>
  {
    TextPayloads(BeforeClose(ws)) + if HasClose(ws) then [[]] else []
  }

  predicate OnlyText(ws: seq<Wire>)
  {
    forall w :: w in BeforeClose(ws) ==> !OtherData(w)
  }

  lemma FirstFrame(ws: seq<Wire>)
    requires ws != [] && ws[0].Opcode() != 0x8
    ensures OnlyText(ws) <==> !OtherData(ws[0]) && OnlyText(ws[1..])
    ensures HasClose(ws) == HasClose(ws[1..])
    ensures TextMeaning(ws) == (if ws[0].Opcode() == 0x1 then [ws[0].payload] else []) + TextMeaning(ws[1..])
  {
    TextPayloadsFirst(ws[0], BeforeClose(ws[1..]));
    assert ws == [ws[0]] + ws[1..];
  }

  lemma {:induction false} MeaningCounts(ws: seq<Wire>, tail: seq<Byte>)
    requires forall w :: w in ws ==> w.Valid()
    ensures |Meaning(ws, tail).messages| >= |TextMeaning(ws)|
    ensures !OnlyText(ws) ==> |Meaning(ws, tail).messages| > |TextMeaning(ws)|
    ensures OnlyText(ws) ==> Meaning(ws, tail).messages == TextMeaning(ws)
    ensures Meaning(ws, tail).closed == HasClose(ws)
  {
    if ws != [] && ws[0].Opcode() != 0x8 {
      MeaningCounts(ws[1..], tail);
      FirstFrame(ws);
      hide OnlyText, HasClose, TextMeaning;
    }
  }

  lemma TextPayloadsFirst(w: Wire, ws: seq<Wire>)
    ensures TextPayloads([w] + ws) == (if w.Opcode() == 0x1 then [w.payload] else []) + TextPayloads(ws)
  {
    assert ([w] + ws)[1..] == ws;
  }

  // The decoder returns the payloads of the text frames, and an empty message for a close
  // frame, exactly when no binary or continuation frame comes before the first close frame.
  lemma TextOnlyExact(ws: seq<Wire>, tail: seq<Byte>)
    requires forall w :: w in ws ==> w.Valid()
    requires ReadFrame(tail) == None
    ensures Decode(StreamBytes(ws) + tail).messages == TextMeaning(ws) <==> OnlyText(ws)
    ensures Decode(StreamBytes(ws) + tail).closed <==> HasClose(ws)
  {
    hide ReadFrame, Decode, StreamBytes;
    DecodeStream(ws, tail);
    MeaningCounts(ws, tail);
  }

  // It returns just the payloads of the text frames, and leaves the tail, exactly when there
  // is neither such a frame nor a close frame.
  lemma TextFramesExact(ws: seq<Wire>, tail: seq<Byte>)
    requires forall w :: w in ws ==> w.Valid()
    requires ReadFrame(tail) == None
    ensures Decode(StreamBytes(ws) + tail) == Decoded(TextPayloads(ws), tail, false) <==>
      forall w :: w in ws ==> !OtherData(w) && w.Opcode() != 0x8
  {
    hide ReadFrame, Decode, StreamBytes, WireBytes;
    DecodeStream(ws, tail);
    MeaningCounts(ws, tail);
    if !HasClose(ws) {
      NothingClosed(ws, tail);
    }
  }

  lemma {:induction false} NothingClosed(ws: seq<Wire>, tail: seq<Byte>)
    requires (forall w :: w in ws ==> w.Valid()) && !HasClose(ws)
    ensures BeforeClose(ws) == ws && Meaning(ws, tail).rest == tail
  {
    if ws != [] {
      assert forall w :: w in ws[1..] ==> w in ws;
      NothingClosed(ws[1..], tail);
    }
  }

  // A binary frame comes out like a text frame.
  lemma BinaryIsMessage()
    ensures Decode([0x82, 0x01, 0x41]) == Decoded([[0x41]], [], false)
  {
    var w := Wire(0x82, Seven, None, [0x41]);
    BinaryFrame(w);
    assert StreamBytes([w]) == WireBytes(w) + StreamBytes([]);
    assert WireBytes(w) + StreamBytes([]) + [] == [0x82, 0x01, 0x41];
    NothingToRead();
    DecodeStream([w], []);
    assert Meaning([w], []) == Preceded([[0x41]], Meaning([], []));
  }

  lemma BinaryFrame(w: Wire)
    requires w == Wire(0x82, Seven, None, [0x41])
    ensures w.Valid() && WireBytes(w) == [0x82, 0x01, 0x41] && w.Opcode() == 0x2
  {
  }

  lemma NothingToRead()
    ensures ReadFrame([]) == None
  {
  }

  // ----- Frames in plain numbers -----

  lemma BitsInNumbers(b: Byte)
    ensures ToNat(OpcodeOf(b)) == ToNat(b) % 16
    ensures IsMasked(b) <==> ToNat(b) >= 128
    ensures LengthBits(b) == ToNat(b) % 128
  {
    LowNibble(b);
    HighBit(b);
    SevenLow(b);
  }

  lemma LowNibble(b: Byte)
    ensures (b & 0x0f) as nat == b as nat % 16
  {
  }

  lemma HighBit(b: Byte)
    ensures b & 0x80 != 0 <==> b as nat >= 128
  {
  }

  lemma SevenLow(b: Byte)
    ensures (b & 0x7f) as nat == b as nat % 128
  {
    assert (b & 0x7f) == if b >= 128 then b - 128 else b;
  }

  // Where the masking key, if any, begins: after 2, 4 or 10 bytes.
  function HeaderLength(second: nat): nat
  {
    if second % 128 == 126 then 4 else if second % 128 == 127 then 10 else 2
  }

  // How long the payload is, by the length class.
  function LengthAt(buf: seq<Byte>): nat
    requires |buf| >= 2 && |buf| >= HeaderLength(ToNat(buf[1]))
  {
    var second := ToNat(buf[1]);
    if second % 128 == 126 then 0x100 * ToNat(buf[2]) + ToNat(buf[3])
    else if second % 128 == 127 then 0x1_0000_0000 * Word(buf, 2) + Word(buf, 6)
    else second % 128
  }

  lemma LengthField8(buf: seq<Byte>)
    requires |buf| >= 10
    ensures ReadBigEndian(buf[2..10]) == 0x1_0000_0000 * Word(buf, 2) + Word(buf, 6)
  {
    hide ReadBigEndian;
    var s := buf[2..10];
    EightBytes(s);
    FourBytes(s[..4]);
    FourBytes(s[4..]);
  }

  lemma LengthInNumbers(buf: seq<Byte>)
    requires |buf| >= 2 && |buf| >= HeaderLength(ToNat(buf[1]))
    ensures HeaderLength(ToNat(buf[1])) == 2 + ExtraLength(LengthBits(buf[1]))
    ensures LengthAt(buf) ==
      var start := 2 + ExtraLength(LengthBits(buf[1]));
      if start == 2 then LengthBits(buf[1]) else ReadBigEndian(buf[2..start])
  {
    BitsInNumbers(buf[1]);
    hide ReadBigEndian, LengthBits, ToNat, Word;
    if LengthBits(buf[1]) == 126 {
      TwoBytes(buf[2..4]);
    } else if LengthBits(buf[1]) == 127 {
      LengthField8(buf);
    }
  }

  // Where each byte of a payload comes from: with a key at h, byte i is the one at h + 4 + i
  // xored with the key byte at i modulo 4.
  ghost predicate PayloadFrom(buf: seq<Byte>, payload: seq<Byte>, h: nat, masked: bool)
  {
    && h + (if masked then 4 else 0) + |payload| <= |buf|
    && forall i :: 0 <= i < |payload| ==>
         payload[i] == if masked then buf[h + 4 + i] ^ buf[h + i % 4] else buf[h + i]
  }

  // A complete frame with its key at h, or without one.
  ghost predicate FrameFrom(buf: seq<Byte>, r: Option<FrameRead>, h: nat, length: nat, masked: bool)
  {
    var start := if masked then h + 4 else h;
    && (r.Some? <==> |buf| >= start + length)
    && (r.Some? ==>
          && |r.value.payload| == length && r.value.rest == buf[start + length..]
          && PayloadFrom(buf, r.value.payload, h, masked))
  }

  lemma PlainFrame(buf: seq<Byte>, h: nat, length: nat)
    requires |buf| >= 2 && h == 2 + ExtraLength(LengthBits(buf[1])) <= |buf| && !IsMasked(buf[1])
    requires length == if h == 2 then LengthBits(buf[1]) else ReadBigEndian(buf[2..h])
    ensures FrameFrom(buf, ReadFrame(buf), h, length, false)
    ensures ReadFrame(buf).Some? ==> ReadFrame(buf).value.opcode == OpcodeOf(buf[0])
  {
    hide ReadFrame, OpcodeOf, IsMasked, LengthBits, ReadBigEndian, ToNat, ExtraLength, Masked;
    FrameAt(buf, length, h, 0);
  }

  lemma MaskedFrame(buf: seq<Byte>, h: nat, length: nat)
    requires |buf| >= 2 && h == 2 + ExtraLength(LengthBits(buf[1])) <= |buf| && IsMasked(buf[1])
    requires length == if h == 2 then LengthBits(buf[1]) else ReadBigEndian(buf[2..h])
    ensures FrameFrom(buf, ReadFrame(buf), h, length, true)
    ensures ReadFrame(buf).Some? ==> ReadFrame(buf).value.opcode == OpcodeOf(buf[0])
  {
    hide ReadFrame, OpcodeOf, IsMasked, LengthBits, ReadBigEndian, ToNat, ExtraLength, Masked, PayloadFrom;
    FrameAt(buf, length, h, 4);
    if |buf| >= h + 4 + length {
      MaskedPayload(buf, h, length);
    }
  }

  lemma MaskedPayload(buf: seq<Byte>, h: nat, length: nat)
    requires h + 4 + length <= |buf|
    ensures PayloadFrom(buf, Masked(buf[h + 4..h + 4 + length], buf[h..h + 4]), h, true)
  {
    var payload := Masked(buf[h + 4..h + 4 + length], buf[h..h + 4]);
    forall i | 0 <= i < length ensures payload[i] == buf[h + 4 + i] ^ buf[h + i % 4] {
      assert buf[h..h + 4][i % 4] == buf[h + i % 4];
    }
  }

  // What the decoder takes off a buffer: the opcode is the first byte modulo 16, the payload is
  // as long as the length class says, and a frame is complete exactly when all of it is there.
  lemma FrameInNumbers(buf: seq<Byte>)
    requires |buf| >= 2 && |buf| >= HeaderLength(ToNat(buf[1]))
    ensures FrameFrom(buf, ReadFrame(buf), HeaderLength(ToNat(buf[1])), LengthAt(buf), ToNat(buf[1]) >= 128)
    ensures ReadFrame(buf).Some? ==> ToNat(ReadFrame(buf).value.opcode) == ToNat(buf[0]) % 16
  {
    BitsInNumbers(buf[0]);
    BitsInNumbers(buf[1]);
    LengthInNumbers(buf);
    hide ReadFrame, OpcodeOf, IsMasked, LengthBits, ReadBigEndian, ToNat, LengthAt, ExtraLength;
    hide FrameFrom, HeaderLength;
    if IsMasked(buf[1]) {
      MaskedFrame(buf, HeaderLength(ToNat(buf[1])), LengthAt(buf));
    } else {
      PlainFrame(buf, HeaderLength(ToNat(buf[1])), LengthAt(buf));
    }
  }

  lemma NoFrameYet(buf: seq<Byte>)
    requires |buf| < 2 || |buf| < HeaderLength(ToNat(buf[1]))
    ensures ReadFrame(buf) == None
  {
    TooShort(buf);
    if |buf| >= 2 {
      BitsInNumbers(buf[1]);
    }
  }

  // The masked frame of section 5.7 of RFC 6455: "Hello".
  lemma MaskedHello()
    ensures Decode([0x81, 0x85, 0x37, 0xfa, 0x21, 0x3d, 0x7f, 0x9f, 0x4d, 0x51, 0x58])
         == Decoded([[0x48, 0x65, 0x6c, 0x6c, 0x6f]], [], false)
  {
    var buf: seq<Byte> := [0x81, 0x85, 0x37, 0xfa, 0x21, 0x3d, 0x7f, 0x9f, 0x4d, 0x51, 0x58];
    HelloHeader();
    HelloLength(buf);
    FrameInNumbers(buf);
    DecodeStep(buf);
    NothingToRead();
    DecodeStep([]);
    hide ReadFrame, HeaderLength, ToNat, LengthAt, PayloadFrom, Decode;
    HelloPayload(buf, ReadFrame(buf).value.payload);
  }

  lemma HelloPayload(buf: seq<Byte>, payload: seq<Byte>)
    requires buf == [0x81, 0x85, 0x37, 0xfa, 0x21, 0x3d, 0x7f, 0x9f, 0x4d, 0x51, 0x58]
    requires |payload| == 5 && PayloadFrom(buf, payload, 2, true)
    ensures payload == [0x48, 0x65, 0x6c, 0x6c, 0x6f]
  {
    HelloBytes();
  }

  lemma HelloLength(buf: seq<Byte>)
    requires |buf| == 11 && ToNat(buf[1]) == 133
    ensures LengthAt(buf) == 5
  {
  }

  lemma HelloHeader()
    ensures ToNat(0x81) == 129 && ToNat(0x85) == 133 && HeaderLength(133) == 2
    ensures forall b: Byte :: ToNat(b) == 1 ==> b == 1
  {
  }

  lemma HelloBytes()
    ensures (0x7f as Byte) ^ 0x37 == 0x48 && (0x9f as Byte) ^ 0xfa == 0x65 && (0x4d as Byte) ^ 0x21 == 0x6c
    ensures (0x51 as Byte) ^ 0x3d == 0x6c && (0x58 as Byte) ^ 0x37 == 0x6f
  {
  }

  // What the encoder sends: FIN and the text opcode, no masking bit, the length in its shortest
  // class, and the data as it is.
  lemma EncodeInNumbers(data: seq<Byte>)
    requires |data| < LENGTH_LIMIT
    ensures var r := EncodeText(data).value;
      && |r| >= 2 && ToNat(r[0]) == 129 && ToNat(r[1]) < 128
      && (HeaderLength(ToNat(r[1])) == if |data| < 126 then 2 else if |data| < 65536 then 4 else 10)
      && |r| == HeaderLength(ToNat(r[1])) + |data| && LengthAt(r) == |data|
      && r[HeaderLength(ToNat(r[1]))..] == data
  {
    hide EncodeText, WireBytes, ReadFrame, LengthAt, OpcodeOf, ToNat;
    EncodeIsTextFrame(data);
    var r := EncodeText(data).value;
    EncodedHead(data);
    ReadWire(TextFrame(data), []);
    assert r + [] == r;
    EncodedData(data);
    FrameInNumbers(r);
  }

  lemma EncodedHead(data: seq<Byte>)
    requires |data| < LENGTH_LIMIT
    ensures var r := EncodeText(data).value;
      && |r| >= 2 && ToNat(r[0]) == 129
      && ToNat(r[1]) == if |data| < 126 then |data| else if |data| < 65536 then 126 else 127
  {
    hide BigEndian;
    if |data| < 126 {
      ToByteToNat(|data|);
    }
  }

  lemma EncodedData(data: seq<Byte>)
    requires |data| < LENGTH_LIMIT
    ensures var r := EncodeText(data).value;
      var h := if |data| < 126 then 2 else if |data| < 65536 then 4 else 10;
      |r| == h + |data| && r[h..] == data
  {
    hide BigEndian, ToByte;
  }

  // What becomes of a complete frame, by the number in its first byte: 0, 1 and 2 are messages,
  // 8 ends the stream with an empty message, and all others are dropped.
  lemma OpcodesInNumbers(buf: seq<Byte>)
    requires ReadFrame(buf).Some?
    ensures |buf| >= 2
    ensures var f, opcode := ReadFrame(buf).value, ToNat(buf[0]) % 16;
      Decode(buf) ==
        if opcode == 8 then Decoded([[]], f.rest, true)
        else if opcode <= 2 then Preceded([f.payload], Decode(f.rest))
        else Decode(f.rest)
  {
    DecodeStep(buf);
    OpcodeRead(buf);
    BitsInNumbers(buf[0]);
    OpcodeNumbers(OpcodeOf(buf[0]));
    hide ReadFrame, Decode, OpcodeOf, ToNat;
  }

  lemma OpcodeRead(buf: seq<Byte>)
    requires ReadFrame(buf).Some?
    ensures |buf| >= 2 && ReadFrame(buf).value.opcode == OpcodeOf(buf[0])
  {
    hide OpcodeOf, IsMasked, LengthBits, ReadBigEndian, Masked;
  }

  lemma OpcodeNumbers(b: Byte)
    ensures ToNat(b) == 8 <==> b == 0x8
    ensures ToNat(b) <= 2 <==> b in {0x1, 0x2, 0x0}
  {
  }
}
