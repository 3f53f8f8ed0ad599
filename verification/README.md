# signalrcore, modelled and proved in Dafny

signalrcore is a SignalR client. It writes its stream codecs by hand: chunked transfer coding and
server-sent events, WebSocket frames, msgpack frames with a VarInt length, a long-polling
reassembly buffer, and a small JSON scanner. Above them stand a transport state machine, a
receive thread that `stop()` has to get rid of, a keep-alive thread, and the dispatch of hub messages.
This project models these parts in Dafny and proves what they promise.

The main results, in the system's own terms:

* **What the hub sees does not depend on how the network cut the bytes.** For server-sent events this
  holds through the headers, the chunk decoder, the frame splitter, the JSON scanner and the record
  parser together, with comments and other frames between the events; for WebSocket through fragments, length forms,
  partial reads, the handshake and the grouping of records.
* **The codecs invert what the standards and the encoder write.** Chunks of RFC 9112, JSON objects of
  RFC 8259, frames of RFC 6455 in both directions, VarInts, msgpack frames, `0x1E`-terminated records, and the
  arrays the hub protocol's documentation lists for a server's binary messages.
* **Cut streams lose nothing but the cut frame.**
* **Whole runs.** The callback language of the transport, exactly-once `on_close` under every
  interleaving of two threads, the silence bound of the keep-alive thread, the callbacks of a stream and of an invocation.

Where the code does less than its documentation promises, the code is modelled as it is and the
exact condition is proved:

| what happens | exactly when | an input |
|---|---|---|
| a msgpack frame is refused and parsing stops | its prefix has several bytes and starts at offset 5 (`messagepack_protocol.py:59` compares `offset`, not `num_bytes`) | `MsgpackFormat.CancellationIsLost` |
| a Sequence message of the server ends parsing, and what is behind it is lost | always: `_decode_message` compares its type with 7, not 9 (`messagepack_protocol.py:190`) | `ServerMessages.DocumentedAckAndSequence` |
| nothing of a chunked body is decoded any more | the size of a chunk has a character that stands in no hexadecimal number | `ChunkedCoding.BadSizeBlocks` |
| messages decoded in the same call as the zero chunk are lost | the bytes dropped with it, behind those kept, would still have delivered something | `SseClient.SegmentationMattersAtTheEnd` |
| a ping or pong is taken for data | it comes before the first close frame | `WebSocketFrames.PingSplitsMessage` |
| `on_close` is called more than once by `stop()` | a frame with an error is taken for a handshake, since `stop()` has cleared `handshake_received` | `CloseRace.ClosesTwice` |
| a refused handshake ends in state connected, without `on_open` | always; `on_close` fires before iff the state was connected or reconnecting | any refused handshake |
| a first `stop()` leaves the transport running | it has no live client and is not disconnected | `Transport.StopCanLeaveConnecting` |
| `unsubscribe` does not undo `on` | an earlier registration of the same callback is followed by another one, or an unsubscription of an unknown callback left an empty entry | `HubDispatch.UnsubscribeReorders`, `HubDispatch.UnsubscribeDropsEntry` |
| `on_error` fires for a stream that has already ended | a further completion with an error is dispatched for it | `HubDispatch.ErrorAfterEnd` |
| a hub message aborts its batch | an item or cancellation names an id registered by `invoke`, or a callback raises | `HubDispatch.ItemForInvocationAborts` |
| a user misses callbacks of a stream | an item, or an ending without an error, is dispatched between the send of `stream` and the call of `subscribe`, while the stream is live | `HubDispatch.ItemBeforeSubscribe` |
| the error callback of a stream stays silent when the stream fails | always: a completion with an error goes to `on_error`, only a cancellation calls the error callback | `HubDispatch.ErrorSkipsStream` |
| a stream gets a second terminal callback | its terminal callback raised, which leaves it registered | `HubDispatch.RaisingCompletionRepeats` |
| the callback of an `invoke` is called more than once | another completion without an error comes before one has gone through: the callback raised, which leaves it registered | `HubDispatch.RaisingResultRepeats` |
| whether connecting over SSE fails depends on how the response is cut | the status is in the body but not in the headers | `SseClient.StatusInBody` |
| `stop()` returns and the receive loop goes on | a guard of `stop` or `dispose` reads the state between the `on_close` of a late error and the return to connected | `CloseRace.StopIsLost` |

Layout: one module a file. `Seqs`, `Text` and `Bits` hold the laws of sequences, strings and bit
operations that the others rest on. Objects whose methods change fields are classes; each method is
tied to a function of the old state, and the lemmas are about those functions. The two threads of
`CloseRace` are a state machine whose steps are single reads and writes of shared fields.

I/O is a parameter: what `recv` returns is an arbitrary sequence of pieces, the clock and the masking
key are arguments, `json` and `msgpack` are functions with the laws that are named where they are used.
The laws of msgpack are met: `MsgpackFormat` writes and reads the format and is proved to obey them.

## Model

| member | source | states |
|---|---|---|
| ChunkedCoding.NextChunk | signalrcore/transport/sse/sse_client.py:205-235 | every iteration that takes something off the raw buffer makes it shorter, so decoding ends |
| ChunkedCoding.NextChunkStable | signalrcore/transport/sse/sse_client.py:206-235 | what the head of the raw buffer was decided to be, bytes received later never change |
| ChunkedCoding.DecodeAppend | signalrcore/transport/sse/sse_client.py:203-235 | decoding the bytes in two goes, with the kept rest in front, is decoding them at once, up to the zero chunk |
| ChunkedCoding.DecodeSettles | signalrcore/transport/sse/sse_client.py:203-235 | what is kept in the raw buffer holds no further complete chunk |
| ChunkedCoding.ChunkDecodes | signalrcore/transport/sse/sse_client.py:210-235 | a chunk of RFC 9112 with any hex size, padding, extension and data (CRLF included) yields exactly its data, whatever follows |
| ChunkedCoding.PartialChunkWaits | signalrcore/transport/sse/sse_client.py:206-232 | a chunk cut at any byte yields nothing yet |
| ChunkedCoding.ChunksDecode | signalrcore/transport/sse/sse_client.py:203-235 | any chunks and a cut chunk decode to the data of the complete ones and keep exactly the cut one |
| ChunkedCoding.TerminalChunkCloses | signalrcore/transport/sse/sse_client.py:223-225 | a zero chunk, with any number of zeros, padding and extensions, closes after all data before it has been decoded |
| ChunkedCoding.DataCanBeChunked | signalrcore/transport/sse/sse_client.py:203-235 | any data has a chunk that carries it, and is decoded from it |
| ChunkedCoding.HexDigits | signalrcore/transport/sse/sse_client.py:219 | the hexadecimal digits are the sixteen, in either letter case, with their values |
| ChunkedCoding.BlankLinePasses | signalrcore/transport/sse/sse_client.py:210-216 | a line without a size is passed over |
| ChunkedCoding.BadSizeBlocks | signalrcore/transport/sse/sse_client.py:218-221 | a size with a character that no hexadecimal number has stops the decoder: nothing behind it is ever decoded |
| SseFrames.FrameEndStable | signalrcore/transport/sse/sse_client.py:237-248 | bytes that arrive later never move a found boundary, although LF LF and CRLF CRLF compete |
| SseFrames.CutAppend | signalrcore/transport/sse/sse_client.py:250-272 | cutting frames in two goes is cutting them at once |
| SseFrames.DeliverTurn | signalrcore/transport/sse/sse_client.py:250-297 | one turn of the receive loop against the one-shot reference: skipped, malformed and delivered frames |
| SseFrames.DeliverSplits | signalrcore/transport/sse/sse_client.py:250-297 | delivering the frames of two goes is delivering them at once, unless a malformed frame ends the first |
| SseLines.FrameMeaning | signalrcore/transport/sse/sse_client.py:274-294 | what any frame is read as, told by its lines: skipped iff its data are empty up to the last separator, malformed iff they are not and a record has no brace group, and else the groups of its records |
| SseLines.EveryFrame | signalrcore/transport/sse/sse_client.py:274-279 | every text is such a frame, so that nothing is left out |
| SseLines.FrameEnds | signalrcore/transport/sse/sse_client.py:237-248 | the first boundary behind any lines, line ends mixed, is the blank line written after them in either style |
| SseClient.ArrivingIsBodyData | signalrcore/transport/sse/sse_client.py:258-266 | segmentation independence: pieces of an unclosed body add exactly the data of the whole body |
| SseClient.RescuedThenArriving | signalrcore/transport/sse/sse_client.py:137-149 | body bytes read with the headers and bytes read later make up the body, wherever the cut is |
| SseClient.ClosingPieceLosesFrames | signalrcore/transport/sse/sse_client.py:223-225 | with a zero chunk, all frames are read iff the data dropped with it completes none |
| SseClient.SegmentationMattersAtTheEnd | signalrcore/transport/sse/sse_client.py:223-225 | one stream, two segmentations, different frames: the failing family |
| SseClient.ResponseStable | signalrcore/transport/sse/sse_client.py:123-140 | the end of the header block, once found, stays where it is |
| SseClient.OpenSession | signalrcore/transport/sse/sse_client.py:121-156 | while no zero chunk has closed the body, what is delivered does not depend on the segmentation |
| SseClient.ClosedSession | signalrcore/transport/sse/sse_client.py:223-235 | with a zero chunk, the beginning of what the body stands for is delivered, and all of it iff nothing was lost with the zero chunk or the loop had ended at a malformed frame |
| SseClient.NoStatusFails | signalrcore/transport/sse/sse_client.py:133-135 | a response without the status anywhere is refused, however it is cut |
| SseClient.StatusInHeaderBlock | signalrcore/transport/sse/sse_client.py:133-135 | a response with the status in its headers is not refused, however it is cut |
| SseClient.StatusInBody | signalrcore/transport/sse/sse_client.py:133-135 | one with the status in its body only is refused in one segmentation and not in another |
| SseClient.StatusIsIndependentIff | signalrcore/transport/sse/sse_client.py:123-135 | the outcome does not depend on segmentation iff the status is in the headers or nowhere in the response |
| SseClient.SaysChunkedIff | signalrcore/transport/sse/sse_client.py:142 | a response is taken for chunked iff the field stands in its headers in whatever letter case |
| SseClient.SseClient.TakeChunk | signalrcore/transport/sse/sse_client.py:205-235 | one iteration of the decoder, and what it leaves in the raw buffer |
| SseClient.SseClient.DecodeChunks | signalrcore/transport/sse/sse_client.py:203-235 | both buffers after the call are those of the pure decoder; the exception is its zero chunk |
| SseClient.SseClient.CollectData | signalrcore/transport/sse/sse_client.py:274-279 | the loop collects the values of all `data:` lines, in order |
| SseClient.SseClient.ReadEvent | signalrcore/transport/sse/sse_client.py:274-297 | a frame is skipped, malformed, or read as the JSON objects of its records, as `SseLines.FrameMeaning` says |
| SseClient.SseClient.AwaitFrame | signalrcore/transport/sse/sse_client.py:253-266 | receives until a boundary is there, without changing the event stream still to be read |
| SseClient.SseClient.RecvFrame | signalrcore/transport/sse/sse_client.py:250-297 | takes exactly the first frame off the event stream, or finds that it holds none |
| SseClient.SseClient.Run | signalrcore/transport/sockets/base_socket_client.py:161-193 | the receive loop delivers what cutting the whole stream at once delivers, up to a malformed frame |
| SseClient.SseClient.ReadResponse | signalrcore/transport/sse/sse_client.py:121-128 | header bytes are read until the blank line, and none is lost |
| SseClient.SseClient.Rescue | signalrcore/transport/sse/sse_client.py:144-149 | what the connection goes on with is the stream of the rescued bytes and the later pieces; a zero chunk among the rescued bytes raises |
| SseClient.SseClient.Accept | signalrcore/transport/sse/sse_client.py:133-156 | accepted, refused or closed early, exactly by what was read up to and with the headers |
| SseClient.SseClient.Connect | signalrcore/transport/sse/sse_client.py:105-156 | for every response: how connecting ends, and that the event stream is that of the rescued bytes and the later pieces |
| SseClient.SseClient.Session | signalrcore/transport/sse/sse_client.py:105-297 | for every response and segmentation, what a whole connection delivers; for an open body it is a function of headers and body only |
| JsonScanner.ParseSseToJson | signalrcore/transport/sse/sse_client.py:18-53 | the scanning loop with its three state variables returns what the specification cuts, or fails with it |
| JsonScanner.ScannerMeetsGrammar | signalrcore/transport/sse/sse_client.py:18-53 | a text is returned iff it is the brace group (strings, escapes, nesting) at the first opening brace |
| JsonScanner.GroupsArePrefixFree | signalrcore/transport/sse/sse_client.py:47-52 | no brace group is a proper prefix of another, so the one returned is the shortest |
| JsonGrammar.ObjectIsGroup | signalrcore/transport/sse/sse_client.py:18-53 | every object text of RFC 8259 is a brace group |
| JsonGrammar.ObjectIsCut | signalrcore/transport/sse/sse_client.py:18-53 | a JSON object comes out whole, after any text without an opening brace and before any text |
| SseRoundTrip.EventEnds | signalrcore/transport/sse/sse_client.py:237-248 | the first boundary behind an event is its blank line, whatever lines it has |
| SseRoundTrip.EventReads | signalrcore/transport/sse/sse_client.py:274-294 | an event is read as exactly its records, joined; without records (a comment, another field, empty data) it is skipped |
| SseRoundTrip.UsualIsWellFormed | signalrcore/transport/sse/sse_client.py:274-284 | the one-line event of terminated records is such an event |
| SseRoundTrip.CommentIsWellFormed | signalrcore/transport/sse/sse_client.py:281-282 | so is the comment that keeps a connection alive |
| SseRoundTrip.EventsDeliver | signalrcore/transport/sse/sse_client.py:250-297 | a stream of events, those without records among them, delivers one text for each that has records, in order, and nothing malformed |
| SseRoundTrip.CutEventsDeliver | signalrcore/transport/sse/sse_client.py:250-272 | events and a cut event deliver what the complete events deliver |
| SseRoundTrip.JoinedMessages | signalrcore/protocol/json_hub_protocol.py:34-51 | the messages of the delivered texts are those of all records |
| SseRoundTrip.ReceiveRecords | signalrcore/transport/sse/sse_client.py:186-297 | end to end: any grouping into events and lines, comments and other frames in between, chunked or not, cut off anywhere, in any segmentation: exactly the records of the complete events, in order |
| JsonHubProtocol.ParseMessages | signalrcore/protocol/json_hub_protocol.py:34-51 | the loop yields the messages of the records, `{}` left out; one bad record fails them all |
| JsonHubProtocol.LoadAllAppend | signalrcore/protocol/json_hub_protocol.py:45-51 | parsing two lists of records is parsing them together |
| JsonHubProtocol.LoadsProperRecords | signalrcore/protocol/json_hub_protocol.py:45-51 | one by one: the message of each record that is not `{}`, in order, and nothing iff one cannot be decoded |
| JsonHubProtocol.RecordsOfTerminated | signalrcore/protocol/json_hub_protocol.py:38-43 | terminated records come back, in order |
| JsonHubProtocol.RecordsOfJoin | signalrcore/protocol/json_hub_protocol.py:38-43 | so do joined records, without the last separator |
| JsonHubProtocol.EncodeRoundTrip | signalrcore/protocol/json_hub_protocol.py:34-56 | `parse_messages` inverts any number of `encode`d messages |
| JsonHubProtocol.HandshakeThenRecords | signalrcore/protocol/base_hub_protocol.py:64-79 | a handshake and the records received with it are told apart |
| JsonHubProtocol.HandshakeOfRecords | signalrcore/protocol/base_hub_protocol.py:64-79 | records taken for a handshake: its error and the messages behind it, or an exception iff the first or one of the others cannot be decoded |
| JsonHubProtocol.NoHandshake | signalrcore/protocol/base_hub_protocol.py:67-71 | a message of separators only raises |
| WebSocketFrames.ReadsFrame | signalrcore/transport/websockets/websocket_client.py:110-144 | a frame in any of the three length forms is read, and the reader stands right behind it |
| WebSocketFrames.MessagesArrive | signalrcore/transport/websockets/websocket_client.py:146-162 | whatever the fragmentation and length forms, exactly the payloads arrive, and the rest is read from the next frame on |
| WebSocketFrames.CloseEnds | signalrcore/transport/websockets/websocket_client.py:149-150 | a close frame ends the connection without a further message |
| WebSocketFrames.ControlFramesAreTakenForData | signalrcore/transport/websockets/websocket_client.py:146-157 | all messages of a stream are read as section 5.4 of RFC 6455 says iff no ping or pong comes before the first close frame |
| WebSocketFrames.PingSplitsMessage | signalrcore/transport/websockets/websocket_client.py:146-157 | a ping between two fragments makes two messages of one |
| WebSocketFrames.UnmaskingUndoes | signalrcore/transport/websockets/websocket_client.py:93-96 | a server that goes through the payload byte by byte, turning the key, undoes the masking of every payload, for every key |
| WebSocketFrames.ServerReadsClient | signalrcore/transport/websockets/websocket_client.py:80-98 | a server's reader, which unmasks in its own way, decodes every client frame, for every key, to FIN, opcode and payload |
| WebSocketFrames.ShortestIsShortest | signalrcore/transport/websockets/websocket_client.py:84-90 | no other length form gives a shorter frame |
| WebSocketFrames.CutFrameEnds | signalrcore/transport/websockets/websocket_client.py:110-144 | a frame cut anywhere gives no message: no header, or a closed connection |
| WebSocketFrames.MaskedFrameCloses | signalrcore/transport/websockets/websocket_client.py:129-135 | a masked frame closes the connection |
| WebSocketFrames.UnmaskedExamples | signalrcore/transport/websockets/websocket_client.py:118-144 | the short examples of section 5.7 of RFC 6455 are read as they say |
| WebSocketFrames.LongExamples | signalrcore/transport/websockets/websocket_client.py:136-142 | so are those with two and eight length bytes |
| Bits.XorBits | signalrcore/transport/websockets/websocket_client.py:95 | xor, bit by bit |
| Bits.BigEndianDigit | signalrcore/transport/websockets/websocket_client.py:87-90 | length bytes stand most significant first |
| WebSocketClient.WebSocketClient.Send | signalrcore/transport/websockets/websocket_client.py:72-98 | writes exactly one client frame, or raises on a closed connection and writes nothing |
| WebSocketClient.WebSocketClient.RecvExactly | signalrcore/transport/websockets/websocket_client.py:100-108 | partial reads add up to exactly the next n bytes |
| WebSocketClient.WebSocketClient.ReadOneFrame | signalrcore/transport/websockets/websocket_client.py:110-144 | reads the frame at the head of the stream; a masked one is answered with close code 1002 |
| WebSocketClient.WebSocketClient.RecvFrame | signalrcore/transport/websockets/websocket_client.py:146-162 | takes exactly one message off the stream, its fragments put together |
| WebSocketClient.WebSocketClient.Run | signalrcore/transport/sockets/base_socket_client.py:161-193 | what is delivered depends on the bytes only, not on how reads return them |
| WebSocketRoundTrip.ReceiveGroups | signalrcore/transport/websockets/websocket_transport.py:76-88 | end to end: a client opens, then any grouping of records into messages, any fragments, any partial reads: on_open or on_reconnect, then exactly the messages of all records in order |
| VarInt.ToVarint | signalrcore/protocol/messagepack_protocol.py:195-209 | the shifting loop writes the VarInt of the value |
| VarInt.VarintIsWord | signalrcore/protocol/messagepack_protocol.py:195-209 | it is a well-formed VarInt with that value |
| VarInt.WordsArePrefixFree | signalrcore/protocol/messagepack_protocol.py:195-209 | no VarInt is a proper prefix of another |
| VarInt.VarintIsMinimal | signalrcore/protocol/messagepack_protocol.py:195-209 | the encoding is the shortest VarInt of its value |
| VarInt.VarintLength | signalrcore/protocol/messagepack_protocol.py:195-209 | it has at most n bytes iff the value has at most 7n bits |
| MessagePackFrames.Encode | signalrcore/protocol/messagepack_protocol.py:98-101 | a frame is the VarInt length and the body |
| MessagePackFrames.ReadsVarint | signalrcore/protocol/messagepack_protocol.py:50-61 | OR-ing shifted seven-bit groups inverts the encoder below 2^35, whatever follows, except at offset 5 |
| MessagePackFrames.CutVarintFails | signalrcore/protocol/messagepack_protocol.py:50-61 | a length prefix cut short is not read |
| MessagePackFrames.ReadPrefix | signalrcore/protocol/messagepack_protocol.py:50-61 | the loop over prefix bytes, its exceptions included, is the specification's |
| MessagePackFrames.ReadFrameAt | signalrcore/protocol/messagepack_protocol.py:50-65 | one frame read at an offset, or any exception |
| MessagePackFrames.ParseMessages | signalrcore/protocol/messagepack_protocol.py:43-70 | on every input the loop ends with the messages before the first exception |
| MessagePackFrames.ReadsFrame | signalrcore/protocol/messagepack_protocol.py:49-66 | a whole frame is read, or refused exactly when it is long and starts at offset 5 |
| MessagePackFrames.CutFrameFails | signalrcore/protocol/messagepack_protocol.py:49-69 | a frame cut at any byte is not read |
| MessagePackFrames.CutStreamParses | signalrcore/protocol/messagepack_protocol.py:43-70 | truncation safety: exactly the messages of the frames before the cut and before the first refused one |
| MessagePackFrames.CutAnywhereParses | signalrcore/protocol/messagepack_protocol.py:43-70 | a stream cut at any byte: exactly the messages wholly before the cut and before the first refused one |
| MessagePackFrames.FramesRoundTrip | signalrcore/protocol/messagepack_protocol.py:43-101 | the parser inverts the encoder iff no long frame starts at offset 5 |
| MessagePackFrames.ReceivedIsFirstRefused | signalrcore/protocol/messagepack_protocol.py:59-61 | what comes back otherwise: every message before the first refused one |
| MessagePackFrames.OffsetFiveLosesTheRest | signalrcore/protocol/messagepack_protocol.py:59-61 | the failing family: a 4-byte body, then one of 128 bytes or more |
| MessagePackFrames.HandshakeThenFrames | signalrcore/protocol/messagepack_protocol.py:72-91 | a handshake and frames received with it, the last one cut, are told apart: the error of the response, or its exception, and the messages |
| MessagePackFrames.TextHandshakeDropsTheRest | signalrcore/protocol/messagepack_protocol.py:85-91 | a handshake in a text frame ends at its first closing brace, and what follows is dropped |
| MessagePackFrames.HandshakeAlone | signalrcore/protocol/messagepack_protocol.py:74-84 | a response without frames, with or without its separator |
| MessagePackFrames.TextWithoutBraceRaises | signalrcore/protocol/messagepack_protocol.py:86-88 | a text response without a closing brace raises |
| MessagePack.EncodeMessage | signalrcore/protocol/messagepack_protocol.py:103-113 | the loop over the priority list collects the attributes a message has |
| MessagePack.EncodedIsLayout | signalrcore/protocol/messagepack_protocol.py:23-33 | the array every kind of message is written as |
| MessagePack.DecodeInvertsEncode | signalrcore/protocol/messagepack_protocol.py:103-193 | decoding inverts encoding for exactly the listed messages, and for no other value of any kind |
| MessagePack.TypeIsANumber | signalrcore/protocol/messagepack_protocol.py:128-192 | the message type is any number that equals it, such as 1.0 and True |
| MessagePack.SmallDoubles | signalrcore/protocol/messagepack_protocol.py:128-192 | the bits of these doubles |
| MessagePack.SendableMessages | signalrcore/protocol/messagepack_protocol.py:93-113 | of the messages the library carries, below 2^35 bytes, exactly these come back from a frame |
| MessagePack.HubRoundTrip | signalrcore/protocol/messagepack_protocol.py:43-209 | the round trip of carried hub messages, with the exact condition on offset 5 |
| MessagePack.HubCutStreamParses | signalrcore/protocol/messagepack_protocol.py:43-70 | a stream of hub messages cut anywhere in a last frame gives exactly the messages before the cut and before the first refused one |
| MessagePack.HubCutAnywhereParses | signalrcore/protocol/messagepack_protocol.py:43-70 | the same for hub messages cut at any byte |
| MsgpackFormat.ReadsPacked | signalrcore/protocol/messagepack_protocol.py:63 | in the msgpack format, what is written for any value is read back, whatever follows |
| MsgpackFormat.FormatIsLawful | signalrcore/protocol/messagepack_protocol.py:63 | the format, in its shortest forms, meets the laws the round trip relies on |
| MsgpackFormat.CancelIsSendable | signalrcore/protocol/messagepack_protocol.py:93-101 | cancellations with any id of moderate length meet every condition of the round trip and of truncation safety |
| MsgpackFormat.CancellationIsLost | signalrcore/protocol/messagepack_protocol.py:59-61 | two real messages: a cancellation with an empty id, and one with a long id behind it, which is lost |
| ServerMessages.ServerDecodes | signalrcore/protocol/messagepack_protocol.py:115-193 | every documented array of a server, optional entries there or not, is decoded to the message it was written for, and a Sequence message to an exception |
| ServerMessages.ServedIffWritten | docs/specs/HubProtocol.md:721-737 | which messages a server has an array for: no completion has a result and an error |
| ServerMessages.ServerLayoutDecodes | signalrcore/protocol/messagepack_protocol.py:115-193 | the arrays as the decoder's own list gives them, three kinds of result among them, are decoded to their messages |
| ServerMessages.ServerStreamParses | signalrcore/protocol/messagepack_protocol.py:43-70 | the frames of a server, whichever arrays it chooses, give back its messages iff no long frame starts at offset 5 |
| ServerMessages.ServerCutAnywhereParses | signalrcore/protocol/messagepack_protocol.py:43-70 | the same stream cut at any byte: the messages wholly before the cut and before the first refused one |
| ServerMessages.SequenceStopsParsing | signalrcore/protocol/messagepack_protocol.py:188-193 | a Sequence message ends parsing: what is behind it is lost |
| ServerMessages.DocumentedError | docs/specs/HubProtocol.md:739-747 | the documented bytes of a completion with an error, decoded |
| ServerMessages.DocumentedVoid | docs/specs/HubProtocol.md:766-771 | of one without a result |
| ServerMessages.DocumentedResult | docs/specs/HubProtocol.md:784-789 | of one with a result |
| ServerMessages.DocumentedAckAndSequence | docs/specs/HubProtocol.md:901-951 | of an acknowledgement, and of a Sequence message, which raises |
| LongPolling.LongPollingClient.Append | signalrcore/transport/long_polling/long_polling_client.py:139-158 | at most the first complete record is released; the backlog becomes max(0, backlog + arrivals - 1) |
| LongPolling.LongPollingClient.Run | signalrcore/transport/long_polling/long_polling_client.py:163-175 | conservation: delivered records with separators and the buffer are all input; order is kept; the backlog is that of a queue |
| LongPolling.BacklogCounts | signalrcore/transport/long_polling/long_polling_client.py:149-157 | complete records in a buffer are as many as its separators |
| LongPolling.EmptyPollsDrain | signalrcore/transport/long_polling/long_polling_client.py:166-175 | empty polls drain the backlog, one record each |
| LongPolling.CompleteAfter | signalrcore/transport/long_polling/long_polling_client.py:155-158 | released records are the first complete records of all input |
| Transport.WebsocketTransport.ChangeState | signalrcore/transport/base_transport.py:66-89 | the state changes and exactly the one callback of that change is logged |
| Transport.WebsocketTransport.StartTransport | signalrcore/transport/base_transport.py:137-150 | a start fires no callback, not even when it replaces a connection the user was told of |
| Transport.WebsocketTransport.Reconnect | signalrcore/transport/base_transport.py:188-209 | reconnecting fires no callback; it happens exactly to a lost connection with a handler that has not been stopped, and otherwise nothing changes |
| Transport.WebsocketTransport.SocketClosed | signalrcore/transport/websockets/websocket_transport.py:64-70 | a lost connection ends reconnecting or disconnected; on_close fires iff it is given up and the user had been told of it |
| Transport.WebsocketTransport.DisposeTransport | signalrcore/transport/base_transport.py:152-155 | when disposing of a live client disconnects, exactly; on_close fires iff it does and the user had been told of the connection |
| Transport.WebsocketTransport.StopTransport | signalrcore/transport/base_transport.py:157-162 | a second stop changes nothing; a first one disconnects a live client and has the next frame taken for a handshake; on_close fires iff the user had been told of the connection |
| Transport.WebsocketTransport.Evaluate | signalrcore/transport/websockets/websocket_transport.py:37-51 | on_open or on_reconnect fires iff the handshake is accepted, on_close iff it is refused on a connection the user had been told of; the keep-alive thread starts iff there is a handler |
| Transport.WebsocketTransport.Receive | signalrcore/transport/websockets/websocket_transport.py:76-88 | a frame before and after the handshake, exceptions included |
| Transport.WebsocketTransport.SendFailure | signalrcore/transport/websockets/websocket_transport.py:101-110 | the next frame is taken for a handshake; on_close fires iff the send disconnects, which it does without a handler |
| Transport.WebsocketTransport.SocketOpened | signalrcore/transport/base_transport.py:211-214 | a client that has opened has its next frame taken for a handshake |
| Transport.WebsocketTransport.Act | signalrcore/transport/base_transport.py:66-209 | every step of the transport keeps its invariant: the log is in the callback language, and state and flags are what it says |
| Transport.WebsocketTransport.Perform | signalrcore/transport/base_transport.py:66-209 | after any run of steps the log obeys all laws of the callback language |
| Transport.WellLoggedIsLawful | signalrcore/transport/base_transport.py:66-89 | the callback language has the four laws below |
| Transport.StepKeeps | signalrcore/transport/base_transport.py:66-209 | every step keeps the callback language: each callback right behind its state change, and no other |
| Transport.RunsAreWellLogged | signalrcore/transport/base_transport.py:66-209 | every run stays in the callback language, and leaves no callback out at its end |
| Transport.OpensAreSeparatedByStarts | signalrcore/transport/base_transport.py:81-82 | over every run, two on_open have a start of the user between them |
| Transport.ClosesAreSeparated | signalrcore/transport/base_transport.py:83-85 | over every run, two on_close have an entry into connected or reconnecting between them |
| Transport.ReconnectFiresOnReturn | signalrcore/transport/base_transport.py:86-87 | over every run, on_reconnect fires behind each change from reconnecting to connected, and nowhere else |
| Transport.NoReconnectAfterStop | signalrcore/transport/base_transport.py:157-190 | over every run, nothing enters reconnecting after stop |
| Transport.StopDisconnectsIff | signalrcore/transport/base_transport.py:152-162 | when a first stop ends disconnected, exactly |
| Transport.StopCanLeaveConnecting | signalrcore/transport/base_transport.py:157-162 | a run of a new transport in which stop leaves it connecting |
| Transport.RefusedHandshakeConnects | signalrcore/transport/websockets/websocket_transport.py:47-83 | a refused handshake ends connected from every state, without on_open or on_reconnect, with on_close iff it was connected or reconnecting, and its messages are handed on |
| Transport.HandshakeThenGroups | signalrcore/transport/websockets/websocket_transport.py:76-88 | grouping independence: the state and flags of an open connection, on_open or on_reconnect first, then exactly the messages of the records, however grouped |
| Transport.OpenedThenGroups | signalrcore/transport/websockets/websocket_transport.py:72-88 | the same for a client that has just opened, whatever came before it |
| Transport.LostConnectionReturns | signalrcore/transport/websockets/websocket_transport.py:64-88 | a lost connection with a handler: reconnecting, then connected again with on_reconnect, then the messages |
| Transport.MessagesFollowHandshake | signalrcore/transport/websockets/websocket_transport.py:76-88 | over every run, frames are taken for hub messages only behind an accepted handshake of the same client |
| Transport.FailureDisconnects | signalrcore/transport/base_transport.py:164-174 | a failure of the receive loop disconnects without reconnecting, and on_close fires iff the user had been told of the connection |
| Transport.UndecodableFails | signalrcore/transport/sockets/base_socket_client.py:170-193 | a frame that cannot be decoded, as a handshake or as a batch, is such a failure |
| CloseRace.StepKeeps | signalrcore/transport/sockets/base_socket_client.py:131-193 | the invariant every step of either thread keeps |
| CloseRace.StuckIsDone | signalrcore/transport/sockets/base_socket_client.py:151-159 | no deadlock: `join` never waits for ever, and no thread is left in the middle of a step |
| CloseRace.StepDescends | signalrcore/transport/sockets/base_socket_client.py:161-193 | every step brings both threads nearer to their end |
| CloseRace.EveryRunCloses | signalrcore/transport/sockets/base_socket_client.py:131-193 | under every schedule, from connected or still connecting, exceptions while a frame is handled included, both threads end, disconnected, with one on_close for every entry into connected |
| CloseRace.ConnectedRunCloses | signalrcore/transport/sockets/base_socket_client.py:131-193 | from connected: one on_close, and one more for each late error |
| CloseRace.ConnectingRunIsSilentIff | signalrcore/transport/sockets/base_socket_client.py:131-193 | stopped while still connecting, on_close is never called iff no frame is taken for the handshake |
| CloseRace.ClosesExactlyOnceIff | signalrcore/transport/base_transport.py:157-162 | on_close is called exactly once iff no frame with an error is taken for a handshake |
| CloseRace.LateErrorCanCome | signalrcore/transport/base_transport.py:160-162 | a schedule that leads to such a frame |
| CloseRace.Completes | signalrcore/transport/sockets/base_socket_client.py:131-193 | from every state of a run the threads can be scheduled to their end |
| CloseRace.ClosesTwice | signalrcore/transport/base_transport.py:160-162 | a run to the end in which stop calls on_close twice |
| CloseRace.StopIsLostIff | signalrcore/transport/base_transport.py:152-158 | the guards of `stop` and `dispose` let go of a running client iff they read the state in the middle of a late error |
| CloseRace.StopIsLost | signalrcore/transport/base_transport.py:152-158 | a run in which the user's thread has ended and the receive loop waits for the next frame, connected |
| CloseRace.HandshakesAreFew | signalrcore/transport/websockets/websocket_transport.py:37-48 | under every schedule, at most one frame without an error is taken for a handshake because of `stop`, and one more if it was still connecting; before, a connected transport takes none |
| CloseRace.CloseMessageEnds | signalrcore/transport/sockets/base_socket_client.py:131-159 | a Close message of the server, undisturbed: the loop disconnects and ends by itself |
| CloseRace.FailureEnds | signalrcore/transport/sockets/base_socket_client.py:170-193 | a failure of the receive loop, undisturbed: quiet iff closing brought it about, else disconnected with on_close |
| KeepAlive.ConnectionStateChecker.Run | signalrcore/transport/reconnection.py:41-51 | the loop, with sends of the user in between and in the middle of an iteration, and with sends that fail |
| KeepAlive.PingsComeLate | signalrcore/transport/reconnection.py:47-50 | over every run, a ping is decided on only after more than the interval since the start and since every message that had got out by then |
| KeepAlive.SilenceIsBounded | signalrcore/transport/reconnection.py:41-51 | after the first check, whichever sends fail, the last send is never further back than interval, sleep and one pace, plus twice the lag of an iteration |
| KeepAlive.SendsAreMessages | signalrcore/transport/websockets/websocket_transport.py:92-100 | while no send fails, this bounds the time since `last_message` |
| KeepAlive.LastMessageIsLastOk | signalrcore/transport/websockets/websocket_transport.py:92-102 | over every run, `last_message` is the time of the last message that got out; failed sends leave it alone |
| HubDispatch.HubConnection.AddHandler | signalrcore/hub/base_hub_connection.py:219-227 | appends to the event's handlers |
| HubDispatch.HubConnection.RemoveHandler | signalrcore/hub/base_hub_connection.py:229-241 | removes the first registration, drops an empty entry, and leaves one behind when it fails |
| HubDispatch.HubConnection.StartStream | signalrcore/hub/base_hub_connection.py:430-456 | the stream is registered in any case, also when its message could not be sent, and nobody listens to it yet |
| HubDispatch.HubConnection.SubscribeHandler | signalrcore/hub/handlers.py:20-45 | the callbacks of one handler object are set, or nothing changes |
| HubDispatch.HubConnection.InvokeMethod | signalrcore/hub/base_hub_connection.py:263-320 | which calls are refused or fail, what is sent and under which id, and that only a list with a callback registers one; other ids are untouched |
| HubDispatch.HubConnection.FireEvent | signalrcore/hub/base_hub_connection.py:322-331 | all handlers of the event, in order, up to one that raises |
| HubDispatch.HubConnection.FireStream | signalrcore/hub/base_hub_connection.py:333-382 | all handlers of the id, up to one that raises or cannot take the message; what they call is pinned by `Perform` |
| HubDispatch.HubConnection.DispatchOne | signalrcore/hub/base_hub_connection.py:405-428 | one message: callbacks, whether one raises, and the registry, which an exception leaves as it is, and which loses the id of a completion or cancellation and no other |
| HubDispatch.HubConnection.Receive | signalrcore/hub/base_hub_connection.py:405-428 | a batch: up to a Close message or an exception |
| HubDispatch.HubConnection.Perform | signalrcore/hub/base_hub_connection.py:219-456 | over any run of calls and batches, every stream and every invocation that is registered at its start calls its life, a stream on the user's callbacks if subscribed and on the default ones if not |
| HubDispatch.HubConnection.StreamAndSubscribe | signalrcore/hub/base_hub_connection.py:430-456 | a stream from its call to its end: what the user hears is its life in the messages dispatched behind the subscription |
| HubDispatch.BatchSplits | signalrcore/hub/base_hub_connection.py:405-428 | a batch of two parts has the effect of two batches, unless the first part ends early |
| HubDispatch.CloseEndsBatch | signalrcore/hub/base_hub_connection.py:422-424 | nothing behind a Close message is dispatched, whether disposing raises or not |
| HubDispatch.DispatchContinuesIff | signalrcore/hub/base_hub_connection.py:343-378 | exactly which messages raise or return, raising callbacks included |
| HubDispatch.HandlersFireInOrder | signalrcore/hub/base_hub_connection.py:322-331 | handlers fire in the order of registration, and no others: all of them, or up to the first that raises |
| HubDispatch.UnsubscribeUndoesOnIff | signalrcore/hub/base_hub_connection.py:219-241 | when `unsubscribe` restores the registry as it was before `on`, exactly |
| HubDispatch.StreamDiscipline | signalrcore/hub/base_hub_connection.py:333-456 | over every run, the user gets on_error for early completions with an error, and then, if the stream is still live, its whole life in the messages dispatched behind the subscription |
| HubDispatch.NothingMissedIff | signalrcore/hub/handlers.py:5-18 | the user gets the callbacks of all messages dispatched since the send iff no item or ending without an error came before the subscription |
| HubDispatch.LifeIsItemsThenEnding | signalrcore/hub/base_hub_connection.py:333-382 | a life without raising terminal callbacks: all items in order, one terminal call, then only on_error |
| HubDispatch.TakenIsDispatched | signalrcore/hub/base_hub_connection.py:405-428 | the dispatched messages of a batch: a prefix of it, with the effect of the whole batch |
| HubDispatch.StreamStopsIff | signalrcore/hub/base_hub_connection.py:346-361 | over every run in which a subscribed stream ends, the user's callbacks end with the terminal one iff no completion with an error is dispatched for it afterwards |
| HubDispatch.InvocationDiscipline | signalrcore/hub/base_hub_connection.py:304-361 | over every run, the callbacks for an invocation: on_error or its callback with the result for each completion up to the first that goes through, then on_error only; it is forgotten iff one goes through, and its send does not matter |
| HubDispatch.ResultComesOnce | signalrcore/hub/base_hub_connection.py:346-361 | over every run, if the first completion has no error and its callback does not raise, the callback gets the result exactly once, and the invocation is forgotten |
| HubDispatch.InvocationCompletes | signalrcore/hub/base_hub_connection.py:356-361 | an invocation from its call to its result |
| HubDispatch.EmptyErrorCompletes | signalrcore/hub/base_hub_connection.py:347 | a completion with an empty error has none |
| HubDispatch.ItemForInvocationAborts | signalrcore/hub/base_hub_connection.py:343-344 | an item for an invocation: the message behind it is never dispatched |
| HubDispatch.UnsubscribeReorders | signalrcore/hub/base_hub_connection.py:238 | an unsubscription that takes out the first registration, not the last |
| HubDispatch.UnsubscribeDropsEntry | signalrcore/hub/base_hub_connection.py:238-241 | an empty entry left by a failed unsubscription, which registering and unsubscribing removes |
| HubDispatch.ErrorAfterEnd | signalrcore/hub/base_hub_connection.py:347-348 | on_error for a stream that was completed before |
| HubDispatch.ItemBeforeSubscribe | signalrcore/hub/handlers.py:10-12 | an item that comes before the subscription |
| HubDispatch.ErrorSkipsStream | signalrcore/hub/base_hub_connection.py:347-348 | a completion with an error, which does not call the error callback of its stream |
| HubDispatch.ErrorCallbackIsForCancellations | signalrcore/hub/base_hub_connection.py:346-382 | without a cancellation, no message calls the error callback |
| HubDispatch.RaisingCompletionRepeats | signalrcore/hub/base_hub_connection.py:355-361 | a completion callback that raises is called again by the next completion |
| HubDispatch.RaisingResultRepeats | signalrcore/hub/base_hub_connection.py:355-361 | the callback of an invocation that raises gets the next completion, too |
| HubDispatch.CancellationIsHeard | signalrcore/hub/base_hub_connection.py:378-382 | a cancellation calls the error callback and forgets the stream |

## Left out

- ChunkedCoding.ParseHex: only plain hexadecimal digits are numbers; Python's `int(x, 16)` also takes signs, underscores, a `0x` prefix and non-ASCII digits.
- SseClient.SseClient.RecvFrame: `_recv_frame` is one method in the source; here its waiting, cutting and reading parts are methods of their own.
- JsonScanner.ParseSseToJson: bytes are code points; UTF-8 decoding and its replacement characters are not modelled.
- SseRoundTrip.ReceiveRecords: an empty line in front of a frame is a line of that frame, but none stands between two lines, since it would end the frame.
- WebSocketFrames.MessagesArrive: streams with ping and pong frames are the subject of `ControlFramesAreTakenForData`.
- WebSocketClient.WebSocketClient.Send: the random masking key is a parameter; UTF-8 encoding of text messages is not modelled.
- WebSocketClient.WebSocketClient.RecvFrame: decoding of text payloads is not modelled; TLS errors on the header read are the missing header.
- MessagePack.HubRoundTrip: msgpack is a parameter with two laws on the values it carries (unpacking inverts packing, and fails on bodies cut short); extension types are not values of the model.
- MsgpackFormat.FormatIsLawful: strings are ASCII, and maps keep repeated keys, which Python's dictionaries do not.
- JsonHubProtocol.EncodeRoundTrip: `json` is a parameter; the encoder's renaming of attributes in the message's own dictionary is not modelled.
- LongPolling.LongPollingClient.Run: exceptions of `on_message`, which end the loop, and HTTP status handling are not modelled; a poll brings a body or nothing.
- Transport.WebsocketTransport.Reconnect: whether negotiating and connecting again succeeds is a parameter; the wait and retry after a failure (`deferred_reconnect`) and the handlers' attempt counters are not modelled.
- Transport.WebsocketTransport.Receive: exceptions of user callbacks count as a failure of the receive loop, which is an action of its own.
- CloseRace.EveryRunCloses: there is no reconnection handler, `stop` is called once by one thread, the network lets every read end, and the user's `on_open` and `on_close` do not raise.
- KeepAlive.SilenceIsBounded: a ping that fails is one the transport catches; other exceptions end the thread and are not modelled.
- HubDispatch.InvocationDiscipline: as for streams, below; an id the caller reuses is not fresh.
- HubDispatch.StreamDiscipline: ids are strings, ids and handler objects are fresh; callbacks may raise but do not call back into the connection; the actions of a run, `subscribe` among them, are atomic. Handler objects are handles into a map of their callbacks. `subscribe` looks only at whether `next` is callable, three times; other callbacks that are not are not modelled.
- The SSE and long-polling transports' own `on_message`, the binary long-polling client, negotiation, authentication, the hub builder, factories, URL helpers.
- The `Sec-WebSocket-Accept` exchange, proxies, TLS, HTTP requests.
- AsyncIO wrappers, `Subject` locking, logging.
