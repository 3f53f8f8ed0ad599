/** The binary messages of a server: the documented arrays, and what the client's decoder makes of them. */
module ServerMessages {
  import opened Seqs
  import opened Text
  import opened Bits
  import opened FrameLoop
  import opened MessagePackFrames
  import opened MessagePack
  import opened MsgpackFormat

  /** The arrays a server may write a message as. The id of a client stream's invocation does not reach the message. */
  predicate Writes(items: seq<Val>, m: HubMessage) {
    match m
    case Invocation(h, id, target, arguments) => items == [Int(1), h, id, target, arguments, Arr([])]
    case ClientStreamInvocation(h, target, arguments, ids) =>
      |items| == 6 && items == [Int(1), h, items[2], target, arguments, ids] && ids.Arr? && ids.items != []
    case StreamItem(h, id, item) => items == [Int(2), h, id, item]
    case Completion(h, id, result, error) =>
      || (result == Nil && items == [Int(3), h, id, Int(1), error])
      || (result == Nil && error == Nil && items == [Int(3), h, id, Int(2)])
      || (error == Nil && items == [Int(3), h, id, Int(3), result])
    case StreamInvocation(h, id, target, arguments, ids) =>
      || items == [Int(4), h, id, target, arguments, ids]
      || (ids == Arr([]) && items == [Int(4), h, id, target, arguments])
    case CancelInvocation(h, id) => items == [Int(5), h, id]
    case Ping => items == [Int(6)]
    case Close(h, error, allowReconnect) =>
      h == EMPTY && (items == [Int(7), error, allowReconnect] || (allowReconnect == Nil && items == [Int(7), error]))
    case Ack(h, sequenceId) => h == EMPTY && items == [Int(8), sequenceId]
    case Sequence(h, sequenceId) => h == EMPTY && items == [Int(9), sequenceId]
  }

  /** Every array of a server is decoded to the message it was written for, except that of a Sequence message. */
  lemma ServerDecodes(items: seq<Val>, m: HubMessage)
    requires Writes(items, m)
    ensures DecodeMessage(Arr(items)) == if m.Sequence? then None else Some(m)
  {
  }

  /** The messages a server has an array for: a completion has a result or an error, not both. */
  predicate Served(m: HubMessage) {
    match m
    case ClientStreamInvocation(_, _, _, ids) => ids.Arr? && ids.items != []
    case Completion(_, _, result, error) => result == Nil || error == Nil
    case Close(h, _, _) => h == EMPTY
    case Ack(h, _) => h == EMPTY
    case Sequence(h, _) => h == EMPTY
    case _ => true
  }

  /** The documented array, optional entries left out where they can be. */
  function ServerLayout(m: HubMessage): seq<Val> {
    match m
    case Invocation(h, id, target, arguments) => [Int(1), h, id, target, arguments, Arr([])]
    case ClientStreamInvocation(h, target, arguments, ids) => [Int(1), h, Nil, target, arguments, ids]
    case StreamItem(h, id, item) => [Int(2), h, id, item]
    case Completion(h, id, result, error) =>
      if error != Nil then [Int(3), h, id, Int(1), error]
      else if result == Nil then [Int(3), h, id, Int(2)]
      else [Int(3), h, id, Int(3), result]
    case StreamInvocation(h, id, target, arguments, ids) => [Int(4), h, id, target, arguments, ids]
    case CancelInvocation(h, id) => [Int(5), h, id]
    case Ping => [Int(6)]
    case Close(_, error, allowReconnect) =>
      if allowReconnect == Nil then [Int(7), error] else [Int(7), error, allowReconnect]
    case Ack(_, sequenceId) => [Int(8), sequenceId]
    case Sequence(_, sequenceId) => [Int(9), sequenceId]
  }

  lemma LayoutIsWritten(m: HubMessage)
    requires Served(m)
    ensures Writes(ServerLayout(m), m)
  {
  }

  lemma ServedIffWritten(m: HubMessage)
    ensures Served(m) <==> exists items :: Writes(items, m)
  {
    if Served(m) {
      LayoutIsWritten(m);
    }
  }

  lemma ServerLayoutDecodes(m: HubMessage)
    requires Served(m)
    ensures DecodeMessage(Arr(ServerLayout(m))) == if m.Sequence? then None else Some(m)
  {
    LayoutIsWritten(m);
    ServerDecodes(ServerLayout(m), m);
  }

  // ---- Streams of a server's frames ----

  /** A server that writes a message as the array `w` gives. */
  function ServerCodec(p: Packer, w: HubMessage -> seq<Val>): BodyCodec<HubMessage> {
    BodyCodec((m: HubMessage) => p.pack(Arr(w(m))), (body: seq<byte>) => ReadBody(p, body))
  }

  /** `w` gives a documented array that the library can carry, in a body whose length the prefix can announce. */
  predicate Serves(p: Packer, w: HubMessage -> seq<Val>, m: HubMessage) {
    Writes(w(m), m) && p.fits(Arr(w(m))) && |p.pack(Arr(w(m)))| < LENGTH_LIMIT
  }

  ghost predicate ServesAll(p: Packer, w: HubMessage -> seq<Val>, messages: seq<HubMessage>) {
    forall m :: m in messages ==> Serves(p, w, m) && !m.Sequence?
  }

  lemma ServedIsSendable(p: Packer, w: HubMessage -> seq<Val>, m: HubMessage)
    requires Lawful(p) && Serves(p, w, m) && !m.Sequence?
    ensures Sendable(ServerCodec(p, w), m)
  {
    ServerDecodes(w(m), m);
    var body := p.pack(Arr(w(m)));
    forall k | 0 <= k < |body|
      ensures ReadBody(p, body[..k]) == None
    {
      assert p.unpack(p.pack(Arr(w(m)))[..k]) == None;
    }
  }

  lemma ServedAreSendable(p: Packer, w: HubMessage -> seq<Val>, messages: seq<HubMessage>)
    requires Lawful(p) && ServesAll(p, w, messages)
    ensures AllSendable(ServerCodec(p, w), messages)
  {
    forall m | m in messages
      ensures Sendable(ServerCodec(p, w), m)
    {
      ServedIsSendable(p, w, m);
    }
  }

  /** The frames of a server, whichever of the arrays it chooses, give its messages back iff none is refused. */
  lemma ServerStreamParses(p: Packer, w: HubMessage -> seq<Val>, messages: seq<HubMessage>)
    requires Lawful(p) && ServesAll(p, w, messages)
    ensures Parsed(ServerCodec(p, w), Sent(ServerCodec(p, w), messages)) == messages
            <==> forall k :: 0 <= k < |messages| ==>
                   !Refused(ServerCodec(p, w), messages[k], StartOf(ServerCodec(p, w), messages, k))
  {
    ServedAreSendable(p, w, messages);
    FramesRoundTrip(ServerCodec(p, w), messages);
  }

  /** Cut at any byte, they give the messages wholly before the cut, and before the first refused one. */
  lemma ServerCutAnywhereParses(p: Packer, w: HubMessage -> seq<Val>, messages: seq<HubMessage>, cut: nat)
    requires Lawful(p) && ServesAll(p, w, messages) && cut <= |Sent(ServerCodec(p, w), messages)|
    ensures var c := ServerCodec(p, w);
            Parsed(c, Sent(c, messages)[..cut]) == messages[..Lesser(Arrived(c, messages, cut), Received(c, messages))]
  {
    ServedAreSendable(p, w, messages);
    CutAnywhereParses(ServerCodec(p, w), messages, cut);
  }

  /** A Sequence message is not decoded, and nothing behind it is. */
  lemma SequenceStopsParsing(p: Packer, w: HubMessage -> seq<Val>, messages: seq<HubMessage>, sequence: HubMessage,
                             after: seq<byte>)
    requires Lawful(p) && ServesAll(p, w, messages) && Serves(p, w, sequence) && sequence.Sequence?
    ensures var c := ServerCodec(p, w);
            Parsed(c, Sent(c, messages) + (Frame(c, sequence) + after)) == messages[..Received(c, messages)]
  {
    var c := ServerCodec(p, w);
    ServedAreSendable(p, w, messages);
    ServerDecodes(w(sequence), sequence);
    UnreadableStopsParsing(c, messages, sequence, after);
  }

  // ---- The documented payloads ----

  /** The headers and the id of the documentation's examples. */
  const XYZ := [EMPTY, Str("xyz")]

  lemma PackXyz(items: seq<Val>)
    requires forall i :: i in items ==> Fits(i)
    ensures Fits(EMPTY) && Fits(Str("xyz"))
    ensures PackItems(XYZ + items) == [0x80, 0xA3, 0x78, 0x79, 0x7A] + PackItems(items)
  {
    var id := "xyz";
    assert Fits(Str(id));
    assert PackStr(id) == [0xA3, 0x78, 0x79, 0x7A] by {
      assert AsciiBytes(id) == [0x78, 0x79, 0x7A];
    }
    PackEmpty();
    PackMore(Str(id), items);
    PackMore(EMPTY, [Str(id)] + items);
    assert XYZ + items == [EMPTY] + ([Str(id)] + items);
  }

  lemma ReadsShortArray(items: seq<Val>)
    requires (forall i :: i in items ==> Fits(i)) && |items| < 16
    ensures Unpack([0x90 + |items|] + PackItems(items)) == Some(Arr(items))
  {
    PackShortArray(items);
    UnpacksPacked(Arr(items));
  }

  lemma UnpacksPacked(v: Val)
    requires Fits(v)
    ensures Unpack(Pack(v)) == Some(v)
  {
    ReadsPacked(v, []);
    Empty(Pack(v));
  }

  lemma PackCompletion(items: seq<Val>)
    requires forall i :: i in items ==> Fits(i)
    ensures forall i :: i in [Int(3)] + (XYZ + items) ==> Fits(i)
    ensures PackItems([Int(3)] + (XYZ + items)) == [0x03] + ([0x80, 0xA3, 0x78, 0x79, 0x7A] + PackItems(items))
  {
    PackXyz(items);
    assert Fits(Int(3));
    assert forall i :: i in XYZ + items ==> Fits(i);
    PackMore(Int(3), XYZ + items);
    assert Pack(Int(3)) == [0x03];
  }

  /** A completion whose result kind and result are packed as `items`. */
  lemma CompletionPayload(items: seq<Val>)
    requires (forall i :: i in items ==> Fits(i)) && |items| <= 2
    ensures Unpack([0x93 + |items|, 0x03, 0x80, 0xA3, 0x78, 0x79, 0x7A] + PackItems(items))
            == Some(Arr([Int(3)] + (XYZ + items)))
  {
    PackCompletion(items);
    ReadsShortArray([Int(3)] + (XYZ + items));
    JoinPayload(0x93 + |items|, PackItems(items));
  }

  lemma JoinPayload(head: byte, tail: seq<byte>)
    ensures [head] + ([0x03] + ([0x80, 0xA3, 0x78, 0x79, 0x7A] + tail)) == [head, 0x03, 0x80, 0xA3, 0x78, 0x79, 0x7A] + tail
  {
  }

  lemma PackPair(kind: int, v: Val, packed: seq<byte>)
    requires 0 <= kind < 128 && Fits(v) && Pack(v) == packed
    ensures forall i :: i in [Int(kind), v] ==> Fits(i)
    ensures PackItems([Int(kind), v]) == [kind] + packed
  {
    assert Fits(Int(kind)) && Pack(Int(kind)) == [kind];
    PackOne(v);
    PackMore(Int(kind), [v]);
    assert [Int(kind)] + [v] == [Int(kind), v];
  }

  lemma PayloadDecodes(body: seq<byte>, items: seq<Val>, m: HubMessage)
    requires Unpack(body) == Some(Arr([Int(3)] + (XYZ + items)))
    requires Writes([Int(3), EMPTY, Str("xyz")] + items, m) && m.Completion?
    ensures ReadBody(FORMAT, body) == Some(m)
  {
    var all := [Int(3), EMPTY, Str("xyz")] + items;
    assert [Int(3)] + (XYZ + items) == all;
    ServerDecodes(all, m);
  }

  lemma PackError(error: string)
    requires error == "Error"
    ensures Fits(Str(error)) && Pack(Str(error)) == [0xA5, 0x45, 0x72, 0x72, 0x6F, 0x72]
  {
    assert AsciiBytes(error) == [0x45, 0x72, 0x72, 0x6F, 0x72];
  }

  /** The documented completion with an error. */
  lemma DocumentedError()
    ensures ReadBody(FORMAT, [0x95, 0x03, 0x80, 0xA3, 0x78, 0x79, 0x7A, 0x01, 0xA5, 0x45, 0x72, 0x72, 0x6F, 0x72])
            == Some(Completion(EMPTY, Str("xyz"), Nil, Str("Error")))
  {
    var error := "Error";
    PackError(error);
    PackPair(1, Str(error), [0xA5, 0x45, 0x72, 0x72, 0x6F, 0x72]);
    CompletionPayload([Int(1), Str(error)]);
    var body := [0x95, 0x03, 0x80, 0xA3, 0x78, 0x79, 0x7A, 0x01, 0xA5, 0x45, 0x72, 0x72, 0x6F, 0x72];
    assert [0x95, 0x03, 0x80, 0xA3, 0x78, 0x79, 0x7A] + ([0x01] + [0xA5, 0x45, 0x72, 0x72, 0x6F, 0x72]) == body;
    PayloadDecodes(body, [Int(1), Str(error)], Completion(EMPTY, Str("xyz"), Nil, Str(error)));
  }

  /** The documented completion without a result. */
  lemma DocumentedVoid()
    ensures ReadBody(FORMAT, [0x94, 0x03, 0x80, 0xA3, 0x78, 0x79, 0x7A, 0x02])
            == Some(Completion(EMPTY, Str("xyz"), Nil, Nil))
  {
    assert Pack(Int(2)) == [0x02];
    PackOne(Int(2));
    CompletionPayload([Int(2)]);
    var body := [0x94, 0x03, 0x80, 0xA3, 0x78, 0x79, 0x7A, 0x02];
    assert [0x94, 0x03, 0x80, 0xA3, 0x78, 0x79, 0x7A] + [0x02] == body;
    PayloadDecodes(body, [Int(2)], Completion(EMPTY, Str("xyz"), Nil, Nil));
  }

  /** The documented completion with a result. */
  lemma DocumentedResult()
    ensures ReadBody(FORMAT, [0x95, 0x03, 0x80, 0xA3, 0x78, 0x79, 0x7A, 0x03, 0x2A])
            == Some(Completion(EMPTY, Str("xyz"), Int(42), Nil))
  {
    PackPair(3, Int(42), [0x2A]);
    CompletionPayload([Int(3), Int(42)]);
    var body := [0x95, 0x03, 0x80, 0xA3, 0x78, 0x79, 0x7A, 0x03, 0x2A];
    assert [0x95, 0x03, 0x80, 0xA3, 0x78, 0x79, 0x7A] + ([0x03] + [0x2A]) == body;
    PayloadDecodes(body, [Int(3), Int(42)], Completion(EMPTY, Str("xyz"), Int(42), Nil));
  }

  /** A number of eight bits, not in its shortest form. */
  lemma ReadsShortNumber(n: byte)
    ensures Read([0xCC, n]) == Some((Int(n), []))
  {
    Widths();
    assert BigEndian(n, 1) == [n] by {
      BigEndianRoundTrip(n, 1);
      assert BigEndian(n, 0) == [];
    }
    ReadsWide(0xCC, n, Unsigned, 1, []);
    Empty([0xCC, n]);
    assert [0xCC] + [n] == [0xCC, n];
  }

  lemma ReadsNumbered(kind: byte, n: byte)
    requires kind < 128
    ensures Unpack([0x92, kind, 0xCC, n]) == Some(Arr([Int(kind), Int(n)]))
  {
    ReadsShortNumber(n);
    ReadsSmall(0x92, [kind, 0xCC, n]);
    ReadsSmall(kind, [0xCC, n]);
    assert [0x92] + [kind, 0xCC, n] == [0x92, kind, 0xCC, n] && [kind] + [0xCC, n] == [kind, 0xCC, n];
    assert Read([kind, 0xCC, n]) == Some((Int(kind), [0xCC, n]));
    ReadsLastItem([0xCC, n], Int(n));
    assert ReadItems([kind, 0xCC, n], 2) == Some(([Int(kind)] + [Int(n)], []));
    assert [Int(kind)] + [Int(n)] == [Int(kind), Int(n)];
  }

  lemma ReadsLastItem(s: seq<byte>, v: Val)
    requires Read(s) == Some((v, []))
    ensures ReadItems(s, 1) == Some(([v], []))
  {
    assert ReadItems([], 0) == Some(([], []));
    Empty([v]);
  }

  /** The documented acknowledgement, and the documented Sequence message, which the decoder refuses. */
  lemma DocumentedAckAndSequence()
    ensures ReadBody(FORMAT, [0x92, 0x08, 0xCC, 0x24]) == Some(Ack(EMPTY, Int(36)))
    ensures ReadBody(FORMAT, [0x92, 0x09, 0xCC, 0x13]) == None
  {
    ReadsNumbered(8, 0x24);
    ServerDecodes([Int(8), Int(36)], Ack(EMPTY, Int(36)));
    ReadsNumbered(9, 0x13);
    ServerDecodes([Int(9), Int(19)], Sequence(EMPTY, Int(19)));
  }
}
