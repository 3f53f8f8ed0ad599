/** Frames of the binary hub protocol: a VarInt length and a body, one after the other. */
module MessagePackFrames {
  import opened Seqs
  import opened Text
  import opened Bits
  import opened VarInt
  import opened FrameLoop

  /** How a message body is written and read; None is any exception raised while reading. */
  datatype BodyCodec<!M> = BodyCodec(write: M -> seq<byte>, read: seq<byte> -> Option<M>)

  function Body<M>(c: BodyCodec<M>, m: M): seq<byte> {
    c.write(m)
  }

  function Frame<M>(c: BodyCodec<M>, m: M): seq<byte> {
    Varint(|Body(c, m)|) + Body(c, m)
  }

  method Encode<M>(c: BodyCodec<M>, m: M) returns (frame: seq<byte>)
    ensures frame == Frame(c, m)
  {
    var encoded := c.write(m);
    var length := ToVarint(|encoded|);
    return length + encoded;
  }

  const MAX_LENGTH_PREFIX_SIZE: nat := 5
  const NUM_BITS_TO_SHIFT: seq<nat> := [0, 7, 14, 21, 28]

  datatype Prefix = NoLength | Length(value: nat, size: nat)

  /** `length |= (byte & 0x7F) << shift` */
  function Gather(length: nat, b: byte, numBytes: nat): nat
    requires numBytes < |NUM_BITS_TO_SHIFT|
  {
    BitOr(length, ShiftLeft(b % 128, NUM_BITS_TO_SHIFT[numBytes]))
  }

  /**
   The length-prefix loop with `numBytes` bytes read and `rest` to come; NoLength is any exception
   it raises. `atFive` says that the frame starts at offset 5, which is what the loop tests.
   */
  function ReadLength(rest: seq<byte>, atFive: bool, numBytes: nat, length: nat): (r: Prefix)
    ensures r.Length? ==> numBytes < r.size <= numBytes + |rest|
  {
    if rest == [] || numBytes >= |NUM_BITS_TO_SHIFT| then NoLength else
    var sum := Gather(length, rest[0], numBytes);
    if rest[0] < 128 then Length(sum, numBytes + 1)
    else if atFive then NoLength
    else ReadLength(rest[1..], atFive, numBytes + 1, sum)
  }

  /** `s[i..j]` with Python's clipping. */
  function Slice(s: seq<byte>, i: nat, j: nat): seq<byte>
    requires i <= |s| && i <= j
  {
    if j <= |s| then s[i..j] else s[i..]
  }

  /** The frame at the head of `rest`: its message and its size. */
  function ReadFrame<M>(c: BodyCodec<M>, rest: seq<byte>, offset: nat): Option<(M, pos)> {
    match ReadLength(rest, offset == MAX_LENGTH_PREFIX_SIZE, 0, 0)
    case NoLength => None
    case Length(length, size) =>
      var message :- c.read(Slice(rest, size, size + length));
      Some((message, size + length))
  }

  function FrameReader<M>(c: BodyCodec<M>): Reader<M> {
    (rest: seq<byte>, offset: nat) => ReadFrame(c, rest, offset)
  }

  /** `parse_messages` of a byte string: the messages up to the first exception. */
  function Parsed<M>(c: BodyCodec<M>, raw: seq<byte>): seq<M> {
    ParseFrom(FrameReader(c), raw, 0)
  }

  /** The length prefix at `offset`. */
  method ReadPrefix(raw: seq<byte>, offset: nat) returns (prefix: Prefix)
    requires offset <= |raw|
    ensures prefix == ReadLength(raw[offset..], offset == MAX_LENGTH_PREFIX_SIZE, 0, 0)
  {
    ghost var atFive := offset == MAX_LENGTH_PREFIX_SIZE;
    ghost var target := ReadLength(raw[offset..], atFive, 0, 0);
    var length, numBytes := 0, 0;
    while true
      invariant offset + numBytes <= |raw| && numBytes <= 5
      invariant target == ReadLength(raw[offset + numBytes..], atFive, numBytes, length)
      decreases 5 - numBytes
    {
      if offset + numBytes >= |raw| || numBytes >= |NUM_BITS_TO_SHIFT| {
        return NoLength;
      }
      SkipSkip(raw, offset + numBytes, 1);
      var byteRead := raw[offset + numBytes];
      length := Gather(length, byteRead, numBytes);
      numBytes := numBytes + 1;
      if byteRead < 128 {
        return Length(length, numBytes);
      }
      if offset == MAX_LENGTH_PREFIX_SIZE || offset + numBytes > |raw| {
        return NoLength;
      }
    }
  }

  /** One turn of the message loop; None is any exception. */
  method ReadFrameAt<M>(c: BodyCodec<M>, raw: seq<byte>, offset: nat) returns (r: Option<(M, pos)>)
    requires offset < |raw|
    ensures r == FrameReader(c)(From(raw, offset), offset)
  {
    var prefix := ReadPrefix(raw, offset);
    if prefix == NoLength {
      return None;
    }
    var start := offset + prefix.size;
    SliceOfRest(raw, offset, prefix.size, prefix.value);
    var message := c.read(Slice(raw, start, start + prefix.value));
    if message.None? {
      return None;
    }
    return Some((message.value, prefix.size + prefix.value));
  }

  method ParseMessages<M>(c: BodyCodec<M>, raw: seq<byte>) returns (messages: seq<M>)
    ensures messages == Parsed(c, raw)
  {
    messages := [];
    var offset := 0;
    ghost var read, target := FrameReader(c), Parsed(c, raw);
    LoopStarts(read, raw);
    while offset < |raw|
      invariant Ahead(read, raw, offset, messages, target)
      decreases |raw| - offset
    {
      LoopTurn(read, raw, offset, messages, target);
      var frame := ReadFrameAt(c, raw, offset);
      if frame.None? {
        return;
      }
      messages := messages + [frame.value.0];
      offset := offset + frame.value.1;
    }
    LoopEnds(read, raw, offset, messages, target);
  }

  lemma SliceOfRest(raw: seq<byte>, offset: nat, size: nat, length: nat)
    requires offset + size <= |raw|
    ensures Slice(raw, offset + size, offset + size + length) == Slice(raw[offset..], size, size + length)
  {
  }

  // ---- Reading what the encoder wrote ----

  /** One turn of the prefix loop. */
  lemma ReadByte(b: byte, rest: seq<byte>, atFive: bool, numBytes: nat, length: nat)
    requires numBytes < 5
    ensures ReadLength([b] + rest, atFive, numBytes, length)
            == if b < 128 then Length(Gather(length, b, numBytes), numBytes + 1)
               else if atFive then NoLength
               else ReadLength(rest, atFive, numBytes + 1, Gather(length, b, numBytes))
  {
    ConsTail(b, rest);
  }

  /** The groups already gathered lie below the new one, so or-ing is adding. */
  lemma GatherAdds(length: nat, b: byte, numBytes: nat)
    requires numBytes < 5 && length < Pow2(7 * numBytes)
    ensures Gather(length, b, numBytes) == length + ShiftLeft(b % 128, 7 * numBytes)
    ensures Gather(length, b, numBytes) < Pow2(7 * (numBytes + 1))
  {
    assert NUM_BITS_TO_SHIFT[numBytes] == 7 * numBytes;
    OrIsPlus(length, b % 128, 7 * numBytes);
    Pow2Seven(7 * numBytes);
    ShiftBound(b % 128, 7 * numBytes);
  }

  /** A length gathered so far, with the groups of `value` still to come on top. */
  function Whole(value: nat, numBytes: nat, length: nat): nat {
    length + ShiftLeft(value, 7 * numBytes)
  }

  lemma WholeStep(value: nat, numBytes: nat, length: nat)
    requires numBytes < 5 && length < Pow2(7 * numBytes)
    ensures var low: byte := if value < 128 then value else 128 + value % 128;
            var sum := Gather(length, low, numBytes);
            && sum < Pow2(7 * (numBytes + 1))
            && (value < 128 ==> sum == Whole(value, numBytes, length))
            && (value >= 128 ==> Whole(value / 128, numBytes + 1, sum) == Whole(value, numBytes, length))
  {
    var low: byte := if value < 128 then value else 128 + value % 128;
    var k := 7 * numBytes;
    assert k + 7 == 7 * (numBytes + 1);
    GatherAdds(length, low, numBytes);
    if value >= 128 {
      ShiftSplit(value, k);
    }
  }

  /** The prefix loop reads a VarInt off the bytes, unless it starts at offset 5 and has a second byte. */
  lemma {:induction false} ReadsVarint(value: nat, after: seq<byte>, atFive: bool, numBytes: nat, length: nat)
    requires numBytes + |Varint(value)| <= 5
    requires length < Pow2(7 * numBytes)
    ensures ReadLength(Varint(value) + after, atFive, numBytes, length)
            == if atFive && value >= 128 then NoLength
               else Length(Whole(value, numBytes, length), numBytes + |Varint(value)|)
    decreases value
  {
    WholeStep(value, numBytes, length);
    if value < 128 {
      ReadByte(value as byte, after, atFive, numBytes, length);
    } else {
      var low: byte := 128 + value % 128;
      var more := Varint(value / 128) + after;
      Assoc([low], Varint(value / 128), after);
      ReadByte(low, more, atFive, numBytes, length);
      if !atFive {
        ReadsVarint(value / 128, after, atFive, numBytes + 1, Gather(length, low, numBytes));
      }
    }
  }

  /** A VarInt cut short runs off the end of the bytes. */
  lemma {:induction false} CutVarintFails(value: nat, cut: nat, atFive: bool, numBytes: nat, length: nat)
    requires cut < |Varint(value)|
    ensures ReadLength(Varint(value)[..cut], atFive, numBytes, length) == NoLength
    decreases value
  {
    if cut > 0 && numBytes < 5 {
      var low: byte := 128 + value % 128;
      var part := Varint(value / 128)[..cut - 1];
      assert Varint(value)[..cut] == [low] + part;
      ReadByte(low, part, atFive, numBytes, length);
      CutVarintFails(value / 128, cut - 1, atFive, numBytes + 1, Gather(length, low, numBytes));
    }
  }

  /** A message whose body is read back, and not when cut short, and whose length the prefix can announce. */
  ghost predicate Sendable<M>(c: BodyCodec<M>, m: M) {
    && c.read(Body(c, m)) == Some(m)
    && (forall k :: 0 <= k < |Body(c, m)| ==> c.read(Body(c, m)[..k]) == None)
    && 0 < |Body(c, m)| < LENGTH_LIMIT
  }

  /** Five groups of seven bits. */
  const LENGTH_LIMIT: nat := 0x8_0000_0000

  lemma LimitIsPow2()
    ensures Pow2(7 * 5) == LENGTH_LIMIT && Pow2(7 * 0) == 1
  {
    Pow2Seven(0);
    Pow2Seven(7);
    Pow2Seven(14);
    Pow2Seven(21);
    Pow2Seven(28);
  }

  /** The defect of the length loop: a prefix of several bytes is refused at offset 5. */
  predicate Refused<M>(c: BodyCodec<M>, m: M, offset: nat) {
    offset == MAX_LENGTH_PREFIX_SIZE && |Body(c, m)| > 127
  }

  lemma ReadsPrefix(size: nat, after: seq<byte>, atFive: bool)
    requires size < LENGTH_LIMIT
    ensures ReadLength(Varint(size) + after, atFive, 0, 0)
            == if atFive && size >= 128 then NoLength else Length(size, |Varint(size)|)
  {
    LimitIsPow2();
    VarintLength(size, 5);
    ReadsVarint(size, after, atFive, 0, 0);
  }

  /** A whole frame is read, or refused; either way exactly as its offset and size say. */
  lemma ReadsFrame<M>(c: BodyCodec<M>, m: M, after: seq<byte>, offset: nat)
    requires Sendable(c, m)
    ensures ReadFrame(c, Frame(c, m) + after, offset)
            == if Refused(c, m, offset) then None else Some((m, |Frame(c, m)|))
  {
    var body := Body(c, m);
    var w := Varint(|body|);
    Assoc(w, body, after);
    ReadsPrefix(|body|, body + after, offset == MAX_LENGTH_PREFIX_SIZE);
    SliceBody(w, body, after);
  }

  lemma SliceBody(w: seq<byte>, body: seq<byte>, after: seq<byte>)
    ensures Slice(w + (body + after), |w|, |w| + |body|) == body
  {
  }

  /** A frame cut short is not read. */
  lemma CutFrameFails<M>(c: BodyCodec<M>, m: M, cut: nat, offset: nat)
    requires Sendable(c, m) && cut < |Frame(c, m)|
    ensures ReadFrame(c, Frame(c, m)[..cut], offset) == None
  {
    var body := Body(c, m);
    var w := Varint(|body|);
    if cut < |w| {
      assert Frame(c, m)[..cut] == w[..cut];
      CutVarintFails(|body|, cut, offset == MAX_LENGTH_PREFIX_SIZE, 0, 0);
    } else {
      var part := body[..cut - |w|];
      assert Frame(c, m)[..cut] == w + part;
      ReadsPrefix(|body|, part, offset == MAX_LENGTH_PREFIX_SIZE);
      assert Slice(w + part, |w|, |w| + |body|) == part;
      assert c.read(Body(c, m)[..cut - |w|]) == None;
    }
  }

  ghost predicate AllSendable<M>(c: BodyCodec<M>, messages: seq<M>) {
    forall m :: m in messages ==> Sendable(c, m)
  }

  function FrameWriter<M>(c: BodyCodec<M>): M -> seq<byte> {
    (m: M) => Frame(c, m)
  }

  function Refuser<M>(c: BodyCodec<M>): (M, nat) -> bool {
    (m: M, offset: nat) => Refused(c, m, offset)
  }

  /** The bytes of messages sent one after the other. */
  function Sent<M>(c: BodyCodec<M>, messages: seq<M>): seq<byte> {
    Stream(FrameWriter(c), messages)
  }

  /** How many of the messages come back: those before the first refused frame. */
  function Received<M>(c: BodyCodec<M>, messages: seq<M>): (n: nat)
    ensures n <= |messages|
  {
    Readable(FrameWriter(c), Refuser(c), messages, 0)
  }

  lemma ReaderInvertsWriter<M(!new)>(c: BodyCodec<M>, messages: seq<M>)
    requires AllSendable(c, messages)
    ensures Inverts(FrameReader(c), FrameWriter(c), Refuser(c), messages)
  {
    forall m | m in messages
      ensures ReadsBack(FrameReader(c), FrameWriter(c), Refuser(c), m)
    {
      SendableReadsBack(c, m);
    }
  }

  lemma SendableReadsBack<M>(c: BodyCodec<M>, m: M)
    requires Sendable(c, m)
    ensures ReadsBack(FrameReader(c), FrameWriter(c), Refuser(c), m)
  {
    forall after, offset
      ensures FrameReader(c)(FrameWriter(c)(m) + after, offset)
              == if Refuser(c)(m, offset) then None else Some((m, |FrameWriter(c)(m)|))
    {
      ReadsFrame(c, m, after, offset);
    }
  }

  /**
   Truncation safety: the frames of any messages, then any cut of one more frame, parse to exactly
   those messages that stand before the first refused frame.
   */
  lemma CutStreamParses<M(!new)>(c: BodyCodec<M>, messages: seq<M>, last: M, cut: nat)
    requires AllSendable(c, messages) && Sendable(c, last) && cut < |Frame(c, last)|
    ensures Parsed(c, Sent(c, messages) + Frame(c, last)[..cut]) == messages[..Received(c, messages)]
  {
    var tail := Frame(c, last)[..cut];
    ReaderInvertsWriter(c, messages);
    forall o
      ensures FrameReader(c)(tail, o) == None
    {
      CutFrameFails(c, last, cut, o);
    }
    StreamThenIsConcat(FrameWriter(c), messages, tail);
    StreamParses(FrameReader(c), FrameWriter(c), Refuser(c), messages, tail, 0);
  }

  /** A whole frame whose body raises is not read, wherever it starts. */
  lemma UnreadableFrameFails<M>(c: BodyCodec<M>, m: M, after: seq<byte>, offset: nat)
    requires c.read(Body(c, m)) == None && |Body(c, m)| < LENGTH_LIMIT
    ensures ReadFrame(c, Frame(c, m) + after, offset) == None
  {
    var body := Body(c, m);
    var w := Varint(|body|);
    Assoc(w, body, after);
    ReadsPrefix(|body|, body + after, offset == MAX_LENGTH_PREFIX_SIZE);
    SliceBody(w, body, after);
  }

  /** Parsing stops at such a frame, whatever is behind it. */
  lemma UnreadableStopsParsing<M(!new)>(c: BodyCodec<M>, messages: seq<M>, bad: M, after: seq<byte>)
    requires AllSendable(c, messages) && c.read(Body(c, bad)) == None && |Body(c, bad)| < LENGTH_LIMIT
    ensures Parsed(c, Sent(c, messages) + (Frame(c, bad) + after)) == messages[..Received(c, messages)]
  {
    var tail := Frame(c, bad) + after;
    ReaderInvertsWriter(c, messages);
    forall o
      ensures FrameReader(c)(tail, o) == None
    {
      UnreadableFrameFails(c, bad, after, o);
    }
    StreamThenIsConcat(FrameWriter(c), messages, tail);
    StreamParses(FrameReader(c), FrameWriter(c), Refuser(c), messages, tail, 0);
  }

  /** How many messages of a cut stream have their whole frame before the cut. */
  function Arrived<M>(c: BodyCodec<M>, messages: seq<M>, cut: nat): (n: nat)
    ensures n <= |messages|
  {
    WholeFrames(FrameWriter(c), messages, cut)
  }

  function Lesser(a: nat, b: nat): nat {
    if a < b then a else b
  }

  /** Truncation safety at any byte: the messages wholly before the cut, and before the first refused one. */
  lemma CutAnywhereParses<M(!new)>(c: BodyCodec<M>, messages: seq<M>, cut: nat)
    requires AllSendable(c, messages) && cut <= |Sent(c, messages)|
    ensures Parsed(c, Sent(c, messages)[..cut]) == messages[..Lesser(Arrived(c, messages, cut), Received(c, messages))]
  {
    var n := Arrived(c, messages, cut);
    var arrived := messages[..n];
    CutStream(FrameWriter(c), messages, cut);
    ArrivedReadable(c, messages, n);
    if n < |messages| {
      CutStreamParses(c, arrived, messages[n], cut - |Sent(c, arrived)|);
    } else {
      WholeStreamParses(c, arrived);
    }
  }

  lemma ArrivedReadable<M>(c: BodyCodec<M>, messages: seq<M>, n: nat)
    requires n <= |messages| && AllSendable(c, messages)
    ensures AllSendable(c, messages[..n])
    ensures messages[..n][..Received(c, messages[..n])] == messages[..Lesser(n, Received(c, messages))]
  {
    ReadablePrefix(FrameWriter(c), Refuser(c), messages, n, 0);
    assert forall m :: m in messages[..n] ==> m in messages;
  }

  lemma WholeStreamParses<M(!new)>(c: BodyCodec<M>, messages: seq<M>)
    requires AllSendable(c, messages)
    ensures Parsed(c, Sent(c, messages)) == messages[..Received(c, messages)]
  {
    ReaderInvertsWriter(c, messages);
    StreamParses(FrameReader(c), FrameWriter(c), Refuser(c), messages, [], 0);
  }

  /** Where the frame of message `k` starts. */
  function StartOf<M>(c: BodyCodec<M>, messages: seq<M>, k: nat): nat
    requires k <= |messages|
  {
    Start(FrameWriter(c), messages, k, 0)
  }

  /** The round trip, exactly: the parser inverts the encoder iff no long frame starts at offset 5. */
  lemma FramesRoundTrip<M(!new)>(c: BodyCodec<M>, messages: seq<M>)
    requires AllSendable(c, messages)
    ensures Parsed(c, Sent(c, messages)) == messages
            <==> forall k :: 0 <= k < |messages| ==> !Refused(c, messages[k], StartOf(c, messages, k))
  {
    ReaderInvertsWriter(c, messages);
    RoundTrip(FrameReader(c), FrameWriter(c), Refuser(c), messages);
    assert forall k :: 0 <= k < |messages| ==>
      (Refuser(c)(messages[k], StartOf(c, messages, k)) <==> Refused(c, messages[k], StartOf(c, messages, k)));
  }

  /** What does come back: every message before the first refused one, and that one is refused. */
  lemma ReceivedIsFirstRefused<M>(c: BodyCodec<M>, messages: seq<M>)
    ensures var n := Received(c, messages);
            && (n < |messages| ==> Refused(c, messages[n], StartOf(c, messages, n)))
            && (forall k :: 0 <= k < n ==> !Refused(c, messages[k], StartOf(c, messages, k)))
  {
    ReadableIsFirstRefused(FrameWriter(c), Refuser(c), messages, 0);
    assert forall k :: 0 <= k < Received(c, messages) ==>
      !Refuser(c)(messages[k], StartOf(c, messages, k));
  }

  /** The failing family at its smallest: a body of 4 bytes, then one of 128 bytes or more, which is lost. */
  lemma OffsetFiveLosesTheRest<M(!new)>(c: BodyCodec<M>, first: M, second: M)
    requires Sendable(c, first) && |Body(c, first)| == 4
    requires Sendable(c, second) && |Body(c, second)| >= 128
    ensures Parsed(c, Sent(c, [first, second])) == [first]
  {
    var messages := [first, second];
    LimitIsPow2();
    VarintLength(4, 1);
    SecondStart(c, first, second);
    ReceivedIsFirstRefused(c, messages);
    assert Refused(c, messages[1], StartOf(c, messages, 1));
    CutStreamParses(c, messages, first, 0);
    Empty(Sent(c, messages));
    assert Received(c, messages) == 1;
  }

  lemma SecondStart<M>(c: BodyCodec<M>, first: M, second: M)
    ensures StartOf(c, [first, second], 1) == |Frame(c, first)|
  {
    assert [first, second][..1] == [first] && [first][1..] == [];
    assert Stream(FrameWriter(c), [first]) == Frame(c, first) + StreamThen(FrameWriter(c), [], []);
  }

  // ---- The handshake in front ----

  function IndexOf(raw: seq<byte>, b: byte): (i: nat)
    requires b in raw
    ensures i < |raw| && raw[i] == b
  {
    if raw[0] == b then 0
    else
      Uncons(raw);
      1 + IndexOf(raw[1..], b)
  }

  lemma {:induction false} IndexOfFirst(a: seq<byte>, b: byte, rest: seq<byte>)
    requires b !in a
    ensures b in a + ([b] + rest) && IndexOf(a + ([b] + rest), b) == |a|
  {
    var raw := a + ([b] + rest);
    assert raw[|a|] == b;
    if a != [] {
      CutLeft(a, [b] + rest, 1);
      IndexOfFirst(a[1..], b, rest);
    }
  }

  /** A frame is handed on as bytes, or as text when the connection is not binary. */
  datatype Raw = Binary(bytes: seq<byte>) | Plain(text: string)

  /**
   `json.loads(x).get("error")` of a handshake response, UTF-8 decoding included: None is an
   exception, Some(None) no error.
   */
  datatype ResponseCodec = ResponseCodec(
    ofBytes: seq<byte> -> Option<Option<string>>,
    ofText: string -> Option<Option<string>>)

  datatype Handshake<+M> = Raised | Handshake(error: Option<string>, messages: seq<M>)

  function Outcome<M>(error: Option<Option<string>>, messages: seq<M>): Handshake<M> {
    match error
    case None => Raised
    case Some(e) => Handshake(e, messages)
  }

  /** The handshake response up to 0x1E, and the messages of the frames after it. */
  function SplitHandshake<M>(c: BodyCodec<M>, raw: seq<byte>): (seq<byte>, seq<M>) {
    if 0x1E in raw then
      var i := IndexOf(raw, 0x1E);
      (raw[..i], Parsed(c, raw[i + 1..]))
    else
      (raw, [])
  }

  /** `decode_handshake`: looking for 0x1E in text raises, and is answered by cutting at the first `}`. */
  function DecodeHandshake<M>(c: BodyCodec<M>, r: ResponseCodec, raw: Raw): Handshake<M> {
    match raw
    case Binary(bytes) =>
      var (response, messages) := SplitHandshake(c, bytes);
      Outcome(r.ofBytes(response), messages)
    case Plain(text) =>
      var end := Find(text, "}");
      if end == -1 then Raised else Outcome(r.ofText(text[..end + 1]), [])
  }

  /**
   A response, an error or its exception, and the frames received with it, the last one cut, are
   told apart.
   */
  lemma HandshakeThenFrames<M(!new)>(c: BodyCodec<M>, r: ResponseCodec, response: seq<byte>,
                                     messages: seq<M>, last: M, cut: nat)
    requires 0x1E !in response
    requires AllSendable(c, messages) && Sendable(c, last) && cut < |Frame(c, last)|
    ensures DecodeHandshake(c, r, Binary(response + ([0x1E] + (Sent(c, messages) + Frame(c, last)[..cut]))))
            == Outcome(r.ofBytes(response), messages[..Received(c, messages)])
  {
    var frames := Sent(c, messages) + Frame(c, last)[..cut];
    IndexOfFirst(response, 0x1E, frames);
    CutMiddle(response, [0x1E] + frames);
    Assoc(response, [0x1E], frames);
    CutMiddle(response + [0x1E], frames);
    CutStreamParses(c, messages, last, cut);
  }

  /** A response without frames behind it, with or without its separator. */
  lemma HandshakeAlone<M>(c: BodyCodec<M>, r: ResponseCodec, response: seq<byte>)
    requires 0x1E !in response
    ensures DecodeHandshake(c, r, Binary(response)) == Outcome(r.ofBytes(response), [])
    ensures DecodeHandshake(c, r, Binary(response + [0x1E])) == Outcome(r.ofBytes(response), [])
  {
    IndexOfFirst(response, 0x1E, []);
    assert response + ([0x1E] + []) == response + [0x1E];
    CutMiddle(response, [0x1E]);
    assert (response + [0x1E])[|response| + 1..] == [];
  }

  /** A text frame without a closing brace raises. */
  lemma TextWithoutBraceRaises<M>(c: BodyCodec<M>, r: ResponseCodec, response: string)
    requires '}' !in response
    ensures DecodeHandshake(c, r, Plain(response)) == Raised
  {
    FindNoChar(response, '}');
  }

  /** In a text frame the response ends at its first closing brace, and whatever follows is dropped. */
  lemma TextHandshakeDropsTheRest<M>(c: BodyCodec<M>, r: ResponseCodec, response: string, rest: string)
    requires '}' !in response
    ensures DecodeHandshake(c, r, Plain(response + ['}'] + rest)) == Outcome(r.ofText(response + ['}']), [])
  {
    FindChar(response, '}', rest);
    CutMiddle(response + ['}'], rest);
  }
}
