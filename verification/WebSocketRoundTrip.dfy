/**
 From the bytes a server sends over a WebSocket to the messages the hub gets: frames, fragments and
 partial reads, text, the handshake, and records in any grouping.
 */
module WebSocketRoundTrip {
  import opened Seqs
  import opened Text
  import opened Bits
  import W = WebSocketFrames
  import C = WebSocketClient
  import T = Transport
  import J = JsonHubProtocol

  /** `decode` of the payloads of text messages. */
  type Decoder = seq<byte> -> string

  /** Payloads as the transport's `on_message` gets them. */
  function Arrivals(decode: Decoder, payloads: seq<seq<byte>>): seq<T.Action> {
    if payloads == [] then [] else [T.FrameArrives(decode(payloads[0]))] + Arrivals(decode, payloads[1..])
  }

  /** Data messages that carry groups of records, one group each, in whatever fragments. */
  predicate Carry(decode: Decoder, messages: seq<W.DataMessage>, groups: seq<seq<string>>) {
    && |messages| == |groups|
    && forall k :: 0 <= k < |messages| ==>
         messages[k].WellFormed() && decode(W.Payload(messages[k].fragments)) == Terminated(groups[k], RECORD_SEPARATOR)
  }

  lemma {:induction false} ArrivalsAreGroups(decode: Decoder, messages: seq<W.DataMessage>, groups: seq<seq<string>>)
    requires Carry(decode, messages, groups)
    ensures Arrivals(decode, W.Payloads(messages)) == T.Groups(groups)
    decreases |messages|
  {
    if messages != [] {
      ArrivalsAreGroups(decode, messages[1..], groups[1..]);
      ConsTail(W.Payload(messages[0].fragments), W.Payloads(messages[1..]));
      assert messages[0].WellFormed();
    }
  }

  /** The bytes of a connection: the frames of messages, then a close frame, a cut frame, or nothing. */
  ghost predicate Sends(bytes: seq<byte>, messages: seq<W.DataMessage>, tail: seq<byte>) {
    && (forall m :: m in messages ==> m.WellFormed())
    && W.AllWellFormed(W.AllFrames(messages)) && W.Messages(tail) == []
    && bytes == W.FramesBytes(W.AllFrames(messages), tail)
  }

  lemma BytesArrive(decode: Decoder, bytes: seq<byte>, messages: seq<W.DataMessage>, tail: seq<byte>, groups: seq<seq<string>>)
    requires Sends(bytes, messages, tail) && Carry(decode, messages, groups)
    ensures Arrivals(decode, W.Messages(bytes)) == T.Groups(groups)
  {
    W.MessagesArrive(messages, tail);
    Empty(W.Payloads(messages));
    ArrivalsAreGroups(decode, messages, groups);
  }

  /**
   End to end: a client opens, and however the records were grouped into messages and the messages cut
   into fragments, and however reads returned the bytes, the transport first fires on_open (or
   on_reconnect) and then hands the hub exactly the messages of all records, in order.
   */
  method ReceiveGroups<M>(client: C.WebSocketClient, transport: T.WebsocketTransport<M>, decode: Decoder, key: W.Key,
                          ghost messages: seq<W.DataMessage>, ghost tail: seq<byte>,
                          ghost response: string, ghost with: seq<string>, ghost groups: seq<seq<string>>)
    requires client.running && client.delivered == []
    requires transport.Valid() && (transport.state == T.Connecting || transport.state == T.Reconnecting)
    requires T.Follows(transport.codec, response, with, groups)
    requires Sends(client.sock.stream, messages, tail) && Carry(decode, messages, [[response] + with] + groups)
    modifies client, client.sock, transport
    ensures transport.Valid()
    ensures transport.log
            == old(transport.log) + T.Opening(old(transport.state)) + T.AllBatches(transport.codec, with, groups)
    ensures T.Handed(T.AllBatches(transport.codec, with, groups))
            == J.LoadAll(transport.codec, with + T.Flat(groups)).value
  {
    transport.Act(T.ClientOpens);
    ghost var start, bytes := transport.Snapshot(), client.sock.stream;
    T.HandshakeThenGroups(transport.codec, start, response, with, groups);
    BytesArrive(decode, bytes, messages, tail, [[response] + with] + groups);
    client.Run(key);
    var payloads := client.delivered;
    Empty(W.Messages(bytes));
    ghost var target := T.Run(transport.codec, start, Arrivals(decode, payloads));
    for k := 0 to |payloads|
      invariant transport.Valid()
      invariant T.Run(transport.codec, transport.Snapshot(), Arrivals(decode, payloads[k..])) == target
    {
      SkipSkip(payloads, k, 1);
      ConsTail(T.FrameArrives(decode(payloads[k])), Arrivals(decode, payloads[k + 1..]));
      transport.Act(T.FrameArrives(decode(payloads[k])));
    }
  }
}
