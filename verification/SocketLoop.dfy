// The socket read loop of ross_ai/platform_server.py over the decoder of ross_ai/websocket.py.
module SocketLoop {
  import opened Bytes
  import opened WebSocket

  // What becomes of a nonempty message. The loop catches the parser's own error and nothing
  // else: a text on which the parser raises anything else, such as deeply nested or hugely
  // numbered JSON, or a value that is not an object and so has no `get`, is Fatal.
  datatype Kind = NotJson | Fatal | Hello | Ping | Other

  datatype Reply = HelloAck | Pong

  datatype Status = Open | Stopped | Crashed | EndOfFile

  datatype Outcome = Outcome(replies: seq<Reply>, status: Status)

  function ReplyTo(k: Kind): seq<Reply>
  {
    match k case Hello => [HelloAck] case Ping => [Pong] case _ => []
  }

  // The messages of one read: the first empty one stops the loop.
  function Handle(messages: seq<seq<Byte>>, classify: seq<Byte> -> Kind): Outcome
  {
    if messages == [] then Outcome([], Open)
    else if messages[0] == [] then Outcome([], Stopped)
    else
      var k := classify(messages[0]);
      if k == Fatal then Outcome([], Crashed)
      else
        var more := Handle(messages[1..], classify);
        more.(replies := ReplyTo(k) + more.replies)
  }

  // The loop over the reads still to come, with the bytes carried over from earlier ones.
  // Running out of reads leaves the loop waiting; an empty read is the end of the file.
  function Serve(carried: seq<Byte>, chunks: seq<seq<Byte>>, classify: seq<Byte> -> Kind): Outcome
    decreases |chunks|
  {
    if chunks == [] then Outcome([], Open)
    else if chunks[0] == [] then Outcome([], EndOfFile)
    else
      var d := Decode(carried + chunks[0]);
      var h := Handle(d.messages, classify);
      if h.status != Open then h
      else
        var more := Serve(d.rest, chunks[1..], classify);
        more.(replies := h.replies + more.replies)
  }

  method HandleMessages(messages: seq<seq<Byte>>, classify: seq<Byte> -> Kind) returns (o: Outcome)
    ensures o == Handle(messages, classify)
  {
    var replies: seq<Reply> := [];
    BeforeTwice([], [], Handle(messages, classify));
    for m := 0 to |messages|
      invariant Handle(messages, classify) == Before(replies, Handle(messages[m..], classify))
    {
      assert messages[m..][0] == messages[m] && messages[m..][1..] == messages[m + 1..];
      if messages[m] == [] {
        return Outcome(replies, Stopped);
      }
      var k := classify(messages[m]);
      if k == Fatal {
        return Outcome(replies, Crashed);
      }
      BeforeTwice(replies, ReplyTo(k), Handle(messages[m + 1..], classify));
      replies := replies + ReplyTo(k);
    }
    o := Outcome(replies, Open);
  }

  method ReadLoop(chunks: seq<seq<Byte>>, classify: seq<Byte> -> Kind) returns (o: Outcome)
    ensures o == Serve([], chunks, classify)
  {
    hide Decode, Handle;
    var buf := new Bytearray();
    var replies: seq<Reply> := [];
    ghost var all := Serve([], chunks, classify);
    BeforeTwice([], [], all);
    for n := 0 to |chunks|
      invariant fresh(buf)
      invariant all == Before(replies, Serve(buf.bytes, chunks[n..], classify))
    {
      assert chunks[n..][0] == chunks[n] && chunks[n..][1..] == chunks[n + 1..];
      if chunks[n] == [] {
        return Outcome(replies, EndOfFile);
      }
      buf.bytes := buf.bytes + chunks[n];
      var messages := DecodeFrames(buf);
      var h := HandleMessages(messages, classify);
      if h.status != Open {
        return Outcome(replies + h.replies, h.status);
      }
      BeforeTwice(replies, h.replies, Serve(buf.bytes, chunks[n + 1..], classify));
      replies := replies + h.replies;
    }
    o := Outcome(replies, Open);
  }

  function Before(replies: seq<Reply>, o: Outcome): Outcome
  {
    o.(replies := replies + o.replies)
  }

  lemma BeforeTwice(s: seq<Reply>, t: seq<Reply>, o: Outcome)
    ensures Before(s, Before(t, o)) == Before(s + t, o)
    ensures Before([], o) == o
  {
    assert s + (t + o.replies) == (s + t) + o.replies;
    assert [] + o.replies == o.replies;
  }

  function Joined(chunks: seq<seq<Byte>>): seq<Byte>
  {
    if chunks == [] then [] else chunks[0] + Joined(chunks[1..])
  }

  lemma {:induction false} HandleConcat(s: seq<seq<Byte>>, t: seq<seq<Byte>>, classify: seq<Byte> -> Kind)
    ensures Handle(s + t, classify) ==
      if Handle(s, classify).status == Open then Before(Handle(s, classify).replies, Handle(t, classify))
      else Handle(s, classify)
  {
    if s == [] {
      assert s + t == t;
      BeforeTwice([], [], Handle(t, classify));
    } else {
      assert (s + t)[1..] == s[1..] + t;
      HandleConcat(s[1..], t, classify);
      if s[0] != [] {
        BeforeTwice(ReplyTo(classify(s[0])), Handle(s[1..], classify).replies, Handle(t, classify));
      }
    }
  }

  // A completed close frame is seen as an empty message, so the loop never decodes past it.
  lemma {:induction false} ClosedStops(buf: seq<Byte>, classify: seq<Byte> -> Kind)
    requires Decode(buf).closed
    ensures Handle(Decode(buf).messages, classify).status != Open
    decreases |buf|
  {
    hide ReadFrame;
    DecodeStep(buf);
    var f := ReadFrame(buf).value;
    if f.opcode != 0x8 {
      ClosedStops(f.rest, classify);
      HandleConcat([f.payload], Decode(f.rest).messages, classify);
    }
  }

  // Cutting the stream into reads does not matter: the loop does what it would do if the
  // whole stream had come in one piece.
  lemma {:induction false} ServeWhole(carried: seq<Byte>, chunks: seq<seq<Byte>>, classify: seq<Byte> -> Kind)
    requires forall i :: 0 <= i < |chunks| ==> chunks[i] != []
    requires Decode(carried) == Decoded([], carried, false)
    ensures Serve(carried, chunks, classify) == Handle(Decode(carried + Joined(chunks)).messages, classify)
    decreases |chunks|
  {
    hide Decode;
    if chunks == [] {
      assert carried + [] == carried;
    } else {
      var a, more := carried + chunks[0], Joined(chunks[1..]);
      var d := Decode(a);
      assert carried + Joined(chunks) == a + more;
      DecodeAppended(a, more);
      if d.closed {
        ClosedStops(a, classify);
      } else {
        RestIncomplete(a);
        ServeWhole(d.rest, chunks[1..], classify);
        HandleConcat(d.messages, Decode(d.rest + more).messages, classify);
      }
    }
  }

  // What the decoder leaves over holds no complete frame.
  lemma {:induction false} RestIncomplete(buf: seq<Byte>)
    requires !Decode(buf).closed
    ensures Decode(Decode(buf).rest) == Decoded([], Decode(buf).rest, false)
    decreases |buf|
  {
    hide ReadFrame;
    DecodeStep(buf);
    if ReadFrame(buf).Some? {
      RestIncomplete(ReadFrame(buf).value.rest);
    }
  }

  // The bytes before the end of the file.
  function UntilEnd(chunks: seq<seq<Byte>>): seq<seq<Byte>>
  {
    if chunks == [] || chunks[0] == [] then [] else [chunks[0]] + UntilEnd(chunks[1..])
  }

  // Any two ways of cutting the same bytes into reads give the same replies and the same end.
  lemma CutsAgree(chunks: seq<seq<Byte>>, chunks': seq<seq<Byte>>, classify: seq<Byte> -> Kind)
    requires forall i :: 0 <= i < |chunks| ==> chunks[i] != []
    requires forall i :: 0 <= i < |chunks'| ==> chunks'[i] != []
    requires Joined(chunks) == Joined(chunks')
    ensures Serve([], chunks, classify) == Serve([], chunks', classify)
  {
    ServeWhole([], chunks, classify);
    ServeWhole([], chunks', classify);
  }

  lemma {:induction false} ServeUntilEnd(carried: seq<Byte>, chunks: seq<seq<Byte>>, classify: seq<Byte> -> Kind)
    ensures var o := Serve(carried, UntilEnd(chunks), classify);
      Serve(carried, chunks, classify) ==
        if o.status == Open && |UntilEnd(chunks)| < |chunks| then o.(status := EndOfFile) else o
    decreases |chunks|
  {
    hide Decode;
    if chunks != [] && chunks[0] != [] {
      assert UntilEnd(chunks)[1..] == UntilEnd(chunks[1..]);
      ServeUntilEnd(Decode(carried + chunks[0]).rest, chunks[1..], classify);
    }
  }

  lemma {:induction false} UntilEndNonempty(chunks: seq<seq<Byte>>)
    ensures forall i :: 0 <= i < |UntilEnd(chunks)| ==> UntilEnd(chunks)[i] != []
  {
    if chunks != [] && chunks[0] != [] {
      UntilEndNonempty(chunks[1..]);
    }
  }

  // For every sequence of reads, the loop does exactly what the joined bytes before the end
  // of the file call for.
  lemma LoopOutcome(chunks: seq<seq<Byte>>, classify: seq<Byte> -> Kind)
    ensures var o := Handle(Decode(Joined(UntilEnd(chunks))).messages, classify);
      Serve([], chunks, classify) ==
        if o.status == Open && |UntilEnd(chunks)| < |chunks| then o.(status := EndOfFile) else o
  {
    UntilEndNonempty(chunks);
    ServeWhole([], UntilEnd(chunks), classify);
    ServeUntilEnd([], chunks, classify);
    assert [] + Joined(UntilEnd(chunks)) == Joined(UntilEnd(chunks));
  }

  // ----- When the loop crashes -----

  // Message i is the first that stops the loop, and it does so by an exception.
  ghost predicate CrashesAt(messages: seq<seq<Byte>>, i: nat, classify: seq<Byte> -> Kind)
  {
    && i < |messages| && messages[i] != [] && classify(messages[i]) == Fatal
    && forall j :: 0 <= j < i ==> messages[j] != [] && classify(messages[j]) != Fatal
  }

  ghost predicate HasCrash(messages: seq<seq<Byte>>, classify: seq<Byte> -> Kind)
  {
    exists i :: CrashesAt(messages, i, classify)
  }

  lemma {:induction false} HandleCrashes(messages: seq<seq<Byte>>, classify: seq<Byte> -> Kind)
    ensures Handle(messages, classify).status == Crashed <==> HasCrash(messages, classify)
  {
    if messages != [] {
      var rest := messages[1..];
      HandleCrashes(rest, classify);
      if messages[0] != [] && classify(messages[0]) == Fatal {
        assert CrashesAt(messages, 0, classify);
      } else if messages[0] != [] {
        if i: nat :| CrashesAt(rest, i, classify) {
          assert CrashesAt(messages, i + 1, classify);
        }
        if i: nat :| CrashesAt(messages, i, classify) {
          assert CrashesAt(rest, i - 1, classify);
        }
      }
    }
  }

  // For every sequence of reads, the loop ends by an exception exactly when some message is
  // fatal, and none before it is that or empty.
  lemma CrashExact(chunks: seq<seq<Byte>>, classify: seq<Byte> -> Kind)
    ensures Serve([], chunks, classify).status == Crashed <==>
      HasCrash(Decode(Joined(UntilEnd(chunks))).messages, classify)
  {
    hide Handle, Decode, HasCrash;
    LoopOutcome(chunks, classify);
    HandleCrashes(Decode(Joined(UntilEnd(chunks))).messages, classify);
  }

  // One text frame that holds an empty JSON array is enough.
  lemma ArrayCrashes(classify: seq<Byte> -> Kind)
    requires classify([0x5b, 0x5d]) == Fatal
    ensures Serve([], [[0x81, 0x02, 0x5b, 0x5d]], classify).status == Crashed
  {
    var data, frame: seq<Byte> := [0x5b, 0x5d], [0x81, 0x02, 0x5b, 0x5d];
    ArrayFrame();
    RoundTrip([TextFrame(data)]);
    OneRead(frame);
    assert CrashesAt([data], 0, classify);
    hide Serve, Decode, WireBytes, TextFrame, UntilEnd, Joined;
    OneFrame(TextFrame(data));
    CrashExact([frame], classify);
  }

  lemma ArrayFrame()
    ensures var w := TextFrame([0x5b, 0x5d]);
      w.Valid() && w.Opcode() == 0x1 && w.payload == [0x5b, 0x5d] && WireBytes(w) == [0x81, 0x02, 0x5b, 0x5d]
  {
  }

  lemma OneFrame(w: Wire)
    requires w.Valid()
    ensures StreamBytes([w]) == WireBytes(w) && Payloads([w]) == [w.payload]
  {
    assert [w][1..] == [] && Payloads([]) == [] && StreamBytes([]) == [];
  }

  lemma OneRead(frame: seq<Byte>)
    requires frame != []
    ensures UntilEnd([frame]) == [frame] && Joined([frame]) == frame
  {
    assert [frame][1..] == [];
    assert frame + [] == frame;
  }

  // ----- What is answered -----

  // The greetings and pings among the messages before the first that is empty or fatal.
  function Answered(messages: seq<seq<Byte>>, classify: seq<Byte> -> Kind): seq<Kind>
  {
    if messages == [] || messages[0] == [] || classify(messages[0]) == Fatal then []
    else
      var k := classify(messages[0]);
      (if k == Hello || k == Ping then [k] else []) + Answered(messages[1..], classify)
  }

  // Each of them is answered once and in order, a greeting by an acknowledgement and a ping by a
  // pong; nothing else is.
  lemma {:induction false} RepliesExact(messages: seq<seq<Byte>>, classify: seq<Byte> -> Kind)
    ensures var replies, kinds := Handle(messages, classify).replies, Answered(messages, classify);
      && |replies| == |kinds|
      && forall i :: 0 <= i < |kinds| ==>
           (replies[i] == HelloAck <==> kinds[i] == Hello) && (replies[i] == Pong <==> kinds[i] == Ping)
  {
    if messages != [] && messages[0] != [] && classify(messages[0]) != Fatal {
      RepliesExact(messages[1..], classify);
    }
  }

  // Message i is the first that stops the loop, and it is empty.
  ghost predicate StopsAt(messages: seq<seq<Byte>>, i: nat, classify: seq<Byte> -> Kind)
  {
    && i < |messages| && messages[i] == []
    && forall j :: 0 <= j < i ==> messages[j] != [] && classify(messages[j]) != Fatal
  }

  ghost predicate HasStop(messages: seq<seq<Byte>>, classify: seq<Byte> -> Kind)
  {
    exists i :: StopsAt(messages, i, classify)
  }

  // One read leaves the loop running exactly when no message is empty or fatal.
  lemma {:induction false} StopExact(messages: seq<seq<Byte>>, classify: seq<Byte> -> Kind)
    ensures Handle(messages, classify).status == Stopped <==> HasStop(messages, classify)
    ensures Handle(messages, classify).status in {Open, Stopped, Crashed}
  {
    if messages != [] {
      var rest := messages[1..];
      StopExact(rest, classify);
      if messages[0] == [] {
        assert StopsAt(messages, 0, classify);
      } else {
        if i: nat :| StopsAt(rest, i, classify) && classify(messages[0]) != Fatal {
          assert StopsAt(messages, i + 1, classify);
        }
        if i: nat :| StopsAt(messages, i, classify) {
          assert StopsAt(rest, i - 1, classify);
        }
      }
    }
  }
}
