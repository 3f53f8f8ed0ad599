/**
 WebSocket framing: the client's frame writer and reader, against the wire format of
 sections 5.2 to 5.4 of RFC 6455.
 */
module WebSocketFrames {
  import opened Seqs
  import opened Text
  import opened Bits

  const CLOSE: nat := 0x8
  const MEDIUM_LIMIT: nat := 65535
  /** The 64-bit length field has its most significant bit clear. */
  const LONG_LIMIT: nat := 0x8000_0000_0000_0000

  // ---- The wire format, as the standard describes it ----

  /** The three forms of a payload length. */
  datatype Form = Short | Medium | Long {
    predicate Fits(n: nat) {
      match this
      case Short => n <= 125
      case Medium => n <= MEDIUM_LIMIT
      case Long => n < LONG_LIMIT
    }
  }

  /** The length field in a given form, on top of a mask bit of 0x80 or 0. */
  function LengthField(mask: nat, form: Form, n: nat): seq<byte>
    requires (mask == 0 || mask == 128) && form.Fits(n)
  {
    match form
    case Short => [mask + n]
    case Medium => [mask + 126] + BigEndian(n, 2)
    case Long => [mask + 127] + BigEndian(n, 8)
  }

  /** The shortest form of a length. */
  function Shortest(n: nat): (form: Form)
    requires n < LONG_LIMIT
    ensures form.Fits(n)
  {
    if n <= 125 then Short else if n <= MEDIUM_LIMIT then Medium else Long
  }

  /** A frame as a server sends it: not masked, its length in any form that fits. */
  datatype Frame = Frame(fin: bool, opcode: nat, form: Form, data: seq<byte>) {
    predicate WellFormed() {
      opcode < 16 && form.Fits(|data|)
    }

    function Bytes(): seq<byte>
      requires WellFormed()
    {
      [(if fin then 128 else 0) + opcode] + (LengthField(0, form, |data|) + data)
    }

    /** Ping or pong. */
    predicate IsControl() {
      opcode == 0x9 || opcode == 0xA
    }
  }

  predicate AllWellFormed(frames: seq<Frame>) {
    forall f :: f in frames ==> f.WellFormed()
  }

  function FramesBytes(frames: seq<Frame>, tail: seq<byte>): seq<byte>
    requires AllWellFormed(frames)
  {
    if frames == [] then tail else
    assert frames[0] in frames;
    frames[0].Bytes() + FramesBytes(frames[1..], tail)
  }

  // ---- What the client reads ----

  datatype Parse = Parsed(fin: bool, opcode: nat, data: seq<byte>, rest: seq<byte>) | NoHeader | Closed

  /** The bytes of the length field after the first, and the length. */
  function ExtendedLength(short: nat, s: seq<byte>): Option<(nat, seq<byte>)> {
    if short == 126 then
      if |s| < 2 then None else Some((FromBigEndian(s[..2]), s[2..]))
    else if short == 127 then
      if |s| < 8 then None else Some((FromBigEndian(s[..8]), s[8..]))
    else
      Some((short, s))
  }

  /** One frame at the head of the stream. A masked frame is a protocol error that closes. */
  function ParseFrame(s: seq<byte>): (p: Parse)
    ensures p.Parsed? ==> |p.rest| < |s|
  {
    if |s| < 2 then NoHeader else
    if s[1] >= 128 then Closed else
    match ExtendedLength(s[1], s[2..])
    case None => Closed
    case Some((length, rest)) =>
      if |rest| < length then Closed
      else Parsed(s[0] >= 128, s[0] % 16, rest[..length], rest[length..])
  }

  datatype Received = Message(payload: seq<byte>, rest: seq<byte>) | NoHeaderLeft | SocketClosed

  /** A message at the head of the stream, `payload` being what its earlier frames carried. */
  function ParseMessage(s: seq<byte>, payload: seq<byte>): (r: Received)
    ensures r.Message? ==> |r.rest| < |s|
    decreases |s|
  {
    match ParseFrame(s)
    case NoHeader => NoHeaderLeft
    case Closed => SocketClosed
    case Parsed(fin, opcode, data, rest) =>
      if opcode == CLOSE then SocketClosed
      else if fin then Message(payload + data, rest)
      else ParseMessage(rest, payload + data)
  }

  /** All messages of a stream, up to the end of the connection. */
  function Messages(s: seq<byte>): seq<seq<byte>>
    decreases |s|
  {
    match ParseMessage(s, [])
    case Message(payload, rest) => [payload] + Messages(rest)
    case _ => []
  }

  lemma LengthBounds()
    ensures Pow256(2) == MEDIUM_LIMIT + 1 && Pow256(8) == 2 * LONG_LIMIT
  {
    assert Pow256(4) == 256 * Pow256(3) && Pow256(3) == 256 * Pow256(2) && Pow256(2) == 256 * Pow256(1);
    assert Pow256(8) == 256 * Pow256(7) && Pow256(7) == 256 * Pow256(6) && Pow256(6) == 256 * Pow256(5);
    assert Pow256(5) == 256 * Pow256(4) && Pow256(1) == 256 * Pow256(0);
  }

  /** A length field is read back whatever its form. */
  lemma ReadsLength(mask: nat, form: Form, n: nat, after: seq<byte>)
    requires (mask == 0 || mask == 128) && form.Fits(n)
    ensures var field := LengthField(mask, form, n);
            && field[0] / 128 == mask / 128
            && ExtendedLength(field[0] % 128, (field + after)[1..]) == Some((n, after))
  {
    LengthBounds();
    var width := match form case Short => 0 case Medium => 2 case Long => 8;
    var number := if form.Short? then [] else BigEndian(n, width);
    var first: byte := match form case Short => mask + n case Medium => mask + 126 case Long => mask + 127;
    assert LengthField(mask, form, n) == [first] + number;
    Assoc([first], number, after);
    ConsTail(first, number + after);
    CutMiddle(number, after);
    if !form.Short? {
      BigEndianRoundTrip(n, width);
    }
  }

  lemma ParseSteps(s: seq<byte>, length: nat, rest: seq<byte>)
    requires |s| >= 2 && s[1] < 128 && ExtendedLength(s[1], s[2..]) == Some((length, rest)) && length <= |rest|
    ensures ParseFrame(s) == Parsed(s[0] >= 128, s[0] % 16, rest[..length], rest[length..])
  {
  }

  /** The client reads every frame a server may send, in any length form, and stops right behind it. */
  lemma ReadsFrame(f: Frame, after: seq<byte>)
    requires f.WellFormed()
    ensures ParseFrame(f.Bytes() + after) == Parsed(f.fin, f.opcode, f.data, after)
  {
    var field := LengthField(0, f.form, |f.data|);
    var first: byte := (if f.fin then 128 else 0) + f.opcode;
    var s := f.Bytes() + after;
    Assoc([first], field + f.data, after);
    Assoc(field, f.data, after);
    ConsTail(first, field + (f.data + after));
    ReadsLength(0, f.form, |f.data|, f.data + after);
    SkipSkip(s, 1, 1);
    CutMiddle(f.data, after);
    ParseSteps(s, |f.data|, f.data + after);
  }

  /** What reading the frames of a list as one message gives: the client's rule. */
  function ReadAsOne(frames: seq<Frame>, payload: seq<byte>): (r: Option<(seq<byte>, seq<Frame>)>)
    ensures r.Some? ==> |r.value.1| < |frames|
  {
    if frames == [] || frames[0].opcode == CLOSE then None
    else if frames[0].fin then Some((payload + frames[0].data, frames[1..]))
    else ReadAsOne(frames[1..], payload + frames[0].data)
  }

  lemma {:induction false} ReadsMessage(frames: seq<Frame>, payload: seq<byte>, tail: seq<byte>)
    requires AllWellFormed(frames) && ReadAsOne(frames, payload).Some?
    ensures var (message, rest) := ReadAsOne(frames, payload).value;
            AllWellFormed(rest)
            && ParseMessage(FramesBytes(frames, tail), payload) == Message(message, FramesBytes(rest, tail))
    decreases |frames|
  {
    var f := frames[0];
    assert f in frames;
    assert AllWellFormed(frames[1..]);
    ReadsFrame(f, FramesBytes(frames[1..], tail));
    if !f.fin {
      ReadsMessage(frames[1..], payload + f.data, tail);
    }
  }

  // ---- Fragmented messages, section 5.4 ----

  /** A data message: its opcode, and its payload in one or more fragments, each in some length form. */
  datatype DataMessage = DataMessage(opcode: nat, fragments: seq<(Form, seq<byte>)>) {
    predicate WellFormed() {
      && (opcode == 0x1 || opcode == 0x2) && fragments != []
      && forall f :: f in fragments ==> f.0.Fits(|f.1|)
    }
  }

  /** The frames of fragments: the first has the opcode, the others 0, and only the last has FIN. */
  function Fragmented(opcode: nat, fragments: seq<(Form, seq<byte>)>, more: seq<Frame>): seq<Frame> {
    if fragments == [] then more
    else [Frame(|fragments| == 1, opcode, fragments[0].0, fragments[0].1)] + Fragmented(0, fragments[1..], more)
  }

  function Payload(fragments: seq<(Form, seq<byte>)>): seq<byte> {
    if fragments == [] then [] else fragments[0].1 + Payload(fragments[1..])
  }

  function AllFrames(messages: seq<DataMessage>): seq<Frame> {
    if messages == [] then []
    else Fragmented(messages[0].opcode, messages[0].fragments, AllFrames(messages[1..]))
  }

  function Payloads(messages: seq<DataMessage>): seq<seq<byte>> {
    if messages == [] then [] else [Payload(messages[0].fragments)] + Payloads(messages[1..])
  }

  lemma {:induction false} FragmentsReadAsOne(opcode: nat, fragments: seq<(Form, seq<byte>)>, more: seq<Frame>, payload: seq<byte>)
    requires fragments != [] && opcode <= 2
    requires forall f :: f in fragments ==> f.0.Fits(|f.1|)
    requires AllWellFormed(more)
    ensures AllWellFormed(Fragmented(opcode, fragments, more))
    ensures ReadAsOne(Fragmented(opcode, fragments, more), payload) == Some((payload + Payload(fragments), more))
    decreases |fragments|
  {
    var f := fragments[0];
    assert f in fragments;
    var first := Frame(|fragments| == 1, opcode, f.0, f.1);
    var rest := Fragmented(0, fragments[1..], more);
    ConsTail(first, rest);
    if |fragments| == 1 {
      assert fragments[1..] == [];
      Empty(f.1);
    } else {
      FragmentsReadAsOne(0, fragments[1..], more, payload + f.1);
      Assoc(payload, f.1, Payload(fragments[1..]));
    }
  }

  /**
   Whatever the fragmentation and the length forms, the client gets exactly the payloads, in
   order, and is left aligned at what follows.
   */
  lemma {:induction false} MessagesArrive(messages: seq<DataMessage>, tail: seq<byte>)
    requires forall m :: m in messages ==> m.WellFormed()
    ensures AllWellFormed(AllFrames(messages))
    ensures Messages(FramesBytes(AllFrames(messages), tail)) == Payloads(messages) + Messages(tail)
    decreases |messages|
  {
    if messages == [] {
      Empty(Messages(tail));
    } else {
      var m := messages[0];
      assert m in messages;
      MessagesArrive(messages[1..], tail);
      FragmentsReadAsOne(m.opcode, m.fragments, AllFrames(messages[1..]), []);
      Empty(Payload(m.fragments));
      ReadsMessage(AllFrames(messages), [], tail);
      Assoc([Payload(m.fragments)], Payloads(messages[1..]), Messages(tail));
    }
  }

  /** A close frame ends the connection without a further message. */
  lemma CloseEnds(f: Frame, after: seq<byte>)
    requires f.WellFormed() && f.opcode == CLOSE
    ensures Messages(f.Bytes() + after) == []
  {
    ReadsFrame(f, after);
  }

  // ---- Ping and pong ----

  /** Section 5.4: control frames may stand between the fragments and are not part of the message. */
  function ReadByStandard(frames: seq<Frame>, payload: seq<byte>): (r: Option<(seq<byte>, seq<Frame>)>)
    ensures r.Some? ==> |r.value.1| < |frames|
  {
    if frames == [] || frames[0].opcode == CLOSE then None
    else if frames[0].IsControl() then ReadByStandard(frames[1..], payload)
    else if frames[0].fin then Some((payload + frames[0].data, frames[1..]))
    else ReadByStandard(frames[1..], payload + frames[0].data)
  }

  /** All messages of a list of frames, as section 5.4 has it. */
  function AllByStandard(frames: seq<Frame>): seq<seq<byte>>
    decreases |frames|
  {
    match ReadByStandard(frames, [])
    case None => []
    case Some((message, rest)) => [message] + AllByStandard(rest)
  }

  /** All messages of a list of frames, as the client has it. */
  function AllAsOne(frames: seq<Frame>): seq<seq<byte>>
    decreases |frames|
  {
    match ReadAsOne(frames, [])
    case None => []
    case Some((message, rest)) => [message] + AllAsOne(rest)
  }

  lemma {:induction false} ReadsNoMessage(frames: seq<Frame>, payload: seq<byte>)
    requires AllWellFormed(frames) && ReadAsOne(frames, payload) == None
    ensures !ParseMessage(FramesBytes(frames, []), payload).Message?
    decreases |frames|
  {
    if frames != [] {
      var f := frames[0];
      assert f in frames;
      ReadsFrame(f, FramesBytes(frames[1..], []));
      if f.opcode != CLOSE {
        ReadsNoMessage(frames[1..], payload + f.data);
      }
    }
  }

  /** The client's rule on frames is what it does on their bytes. */
  lemma {:induction false} MessagesAreAllAsOne(frames: seq<Frame>)
    requires AllWellFormed(frames)
    ensures Messages(FramesBytes(frames, [])) == AllAsOne(frames)
    decreases |frames|
  {
    if ReadAsOne(frames, []).Some? {
      ReadsMessage(frames, [], []);
      MessagesAreAllAsOne(ReadAsOne(frames, []).value.1);
    } else {
      ReadsNoMessage(frames, []);
    }
  }

  /** The frames before the first close frame that carry FIN; with `data`, pings and pongs left out. */
  function Finals(frames: seq<Frame>, data: bool): nat {
    if frames == [] || frames[0].opcode == CLOSE then 0
    else (if frames[0].fin && !(data && frames[0].IsControl()) then 1 else 0) + Finals(frames[1..], data)
  }

  /** A ping or pong comes before the first close frame. */
  predicate ControlComes(frames: seq<Frame>) {
    if frames == [] || frames[0].opcode == CLOSE then false
    else frames[0].IsControl() || ControlComes(frames[1..])
  }

  lemma {:induction false} OneFinal(frames: seq<Frame>, payload: seq<byte>)
    ensures match ReadAsOne(frames, payload)
            case None => Finals(frames, false) == 0
            case Some((_, rest)) => Finals(frames, false) == 1 + Finals(rest, false)
  {
    if frames != [] && frames[0].opcode != CLOSE && !frames[0].fin {
      OneFinal(frames[1..], payload + frames[0].data);
    }
  }

  lemma {:induction false} OneDataFinal(frames: seq<Frame>, payload: seq<byte>)
    ensures match ReadByStandard(frames, payload)
            case None => Finals(frames, true) == 0
            case Some((_, rest)) => Finals(frames, true) == 1 + Finals(rest, true)
  {
    if frames != [] && frames[0].opcode != CLOSE {
      if frames[0].IsControl() {
        OneDataFinal(frames[1..], payload);
      } else if !frames[0].fin {
        OneDataFinal(frames[1..], payload + frames[0].data);
      }
    }
  }

  lemma {:induction false} CountAsOne(frames: seq<Frame>)
    ensures |AllAsOne(frames)| == Finals(frames, false)
    decreases |frames|
  {
    OneFinal(frames, []);
    if ReadAsOne(frames, []).Some? {
      CountAsOne(ReadAsOne(frames, []).value.1);
    }
  }

  lemma {:induction false} CountByStandard(frames: seq<Frame>)
    ensures |AllByStandard(frames)| == Finals(frames, true)
    decreases |frames|
  {
    OneDataFinal(frames, []);
    if ReadByStandard(frames, []).Some? {
      CountByStandard(ReadByStandard(frames, []).value.1);
    }
  }

  lemma {:induction false} ControlIsCounted(frames: seq<Frame>)
    requires forall f :: f in frames && f.IsControl() ==> f.fin
    ensures Finals(frames, true) <= Finals(frames, false)
    ensures Finals(frames, true) == Finals(frames, false) <==> !ControlComes(frames)
  {
    if frames != [] {
      assert frames[0] in frames;
      assert forall f :: f in frames[1..] ==> f in frames;
      ControlIsCounted(frames[1..]);
    }
  }

  lemma {:induction false} WithoutControl(frames: seq<Frame>, payload: seq<byte>)
    requires !ControlComes(frames)
    ensures ReadAsOne(frames, payload) == ReadByStandard(frames, payload)
    ensures ReadAsOne(frames, payload).Some? ==> !ControlComes(ReadAsOne(frames, payload).value.1)
  {
    if frames != [] && frames[0].opcode != CLOSE && !frames[0].fin {
      WithoutControl(frames[1..], payload + frames[0].data);
    }
  }

  lemma {:induction false} AllWithoutControl(frames: seq<Frame>)
    requires !ControlComes(frames)
    ensures AllAsOne(frames) == AllByStandard(frames)
    decreases |frames|
  {
    WithoutControl(frames, []);
    if ReadAsOne(frames, []).Some? {
      AllWithoutControl(ReadAsOne(frames, []).value.1);
    }
  }

  /**
   The client, which takes a ping or pong for data, reads the messages of a stream as the
   standard does iff none comes before the stream is closed.
   */
  lemma ControlFramesAreTakenForData(frames: seq<Frame>)
    requires AllWellFormed(frames) && forall f :: f in frames && f.IsControl() ==> f.fin
    ensures Messages(FramesBytes(frames, [])) == AllByStandard(frames) <==> !ControlComes(frames)
  {
    MessagesAreAllAsOne(frames);
    CountAsOne(frames);
    CountByStandard(frames);
    ControlIsCounted(frames);
    if !ControlComes(frames) {
      AllWithoutControl(frames);
    }
  }

  /** A ping between two fragments: one message becomes two. */
  lemma PingSplitsMessage()
    ensures var frames := [Frame(false, 0x1, Short, [65]), Frame(true, 0x9, Short, []), Frame(true, 0x0, Short, [66])];
            && AllWellFormed(frames)
            && Messages(FramesBytes(frames, [])) == [[65], [66]]
            && AllByStandard(frames) == [[65, 66]]
  {
    var last := [Frame(true, 0x0, Short, [66])];
    var ping := [Frame(true, 0x9, Short, [])] + last;
    var frames := [Frame(false, 0x1, Short, [65])] + ping;
    assert frames == [Frame(false, 0x1, Short, [65]), Frame(true, 0x9, Short, []), Frame(true, 0x0, Short, [66])];
    assert frames[1..] == ping && ping[1..] == last && last[1..] == [];
    MessagesAreAllAsOne(frames);
    Empty([65 as byte]);
    Empty([66 as byte]);
    assert [65 as byte] + [66] == [65, 66];
    assert ReadAsOne(ping, [65]) == Some(([65] + [], last));
    assert ReadAsOne(last, []) == Some(([66], []));
    assert AllAsOne(last) == [[66]] + AllAsOne([]);
    assert AllAsOne(frames) == [[65]] + AllAsOne(last);
    assert ReadByStandard(last, [65]) == Some(([65, 66], []));
    assert ReadByStandard(frames, []) == Some(([65, 66], []));
    assert AllByStandard(frames) == [[65, 66]] + AllByStandard([]);
  }

  // ---- Streams that break off ----

  /** Bytes that follow do not change the frame that is read. */
  lemma ParseStable(s: seq<byte>, more: seq<byte>)
    requires ParseFrame(s).Parsed?
    ensures var p := ParseFrame(s);
            ParseFrame(s + more) == Parsed(p.fin, p.opcode, p.data, p.rest + more)
  {
    CutLeft(s, more, 2);
    var tail := s[2..];
    var (length, rest) := ExtendedLength(s[1], tail).value;
    if s[1] == 126 {
      CutLeft(tail, more, 2);
    } else if s[1] == 127 {
      CutLeft(tail, more, 8);
    }
    CutLeft(rest, more, length);
  }

  /** A frame cut anywhere gives no message: without a header there is none, and behind it the connection is closed. */
  lemma CutFrameEnds(f: Frame, cut: nat)
    requires f.WellFormed() && cut < |f.Bytes()|
    ensures ParseFrame(f.Bytes()[..cut]) == if cut < 2 then NoHeader else Closed
    ensures Messages(f.Bytes()[..cut]) == []
  {
    var bytes := f.Bytes();
    var s := bytes[..cut];
    if ParseFrame(s).Parsed? {
      ParseStable(s, bytes[cut..]);
      Rejoin(bytes, cut);
      ReadsFrame(f, []);
      Empty(bytes);
      assert false;
    }
  }

  /** A masked frame, such as the client's own, is a protocol error: the connection is closed. */
  lemma MaskedFrameCloses(opcode: nat, payload: seq<byte>, key: Key, after: seq<byte>)
    requires opcode < 16 && |payload| < LONG_LIMIT
    ensures ParseFrame(ClientFrame(opcode, payload, key) + after) == Closed
    ensures Messages(ClientFrame(opcode, payload, key) + after) == []
  {
    var field := LengthField(128, Shortest(|payload|), |payload|);
    var s := ClientFrame(opcode, payload, key) + after;
    assert s[1] == field[0];
  }

  // ---- What the client sends ----

  type Key = k: seq<byte> | |k| == 4 witness [0, 0, 0, 0]

  /** Masking, section 5.3: byte i is xor-ed with byte i mod 4 of the key. */
  function Masked(payload: seq<byte>, key: Key): (m: seq<byte>)
    ensures |m| == |payload|
  {
    seq(|payload|, i requires 0 <= i < |payload| => XorByte(payload[i], key[i % 4]))
  }

  /** Unmasking as a server does it: byte by byte, while the key goes round. */
  function Unmasked(s: seq<byte>, key: Key): (r: seq<byte>)
    ensures |r| == |s|
  {
    if s == [] then [] else [XorByte(s[0], key[0])] + Unmasked(s[1..], key[1..] + [key[0]])
  }

  lemma MaskedTail(payload: seq<byte>, key: Key)
    requires payload != []
    ensures Masked(payload, key)[1..] == Masked(payload[1..], key[1..] + [key[0]])
  {
    var turned: Key := key[1..] + [key[0]];
    forall i | 0 <= i < |payload| - 1
      ensures Masked(payload, key)[i + 1] == Masked(payload[1..], turned)[i]
    {
      assert turned[i % 4] == key[(i + 1) % 4];
    }
  }

  /** A server undoes the masking of every payload, whatever the key. */
  lemma {:induction false} UnmaskingUndoes(payload: seq<byte>, key: Key)
    ensures Unmasked(Masked(payload, key), key) == payload
    decreases |payload|
  {
    if payload != [] {
      XorTwice(payload[0], key[0]);
      MaskedTail(payload, key);
      UnmaskingUndoes(payload[1..], key[1..] + [key[0]]);
    }
  }

  /** A client frame: FIN, masked, unfragmented, its length in the shortest form. */
  function ClientFrame(opcode: nat, payload: seq<byte>, key: Key): seq<byte>
    requires opcode < 16 && |payload| < LONG_LIMIT
  {
    [128 + opcode] + (LengthField(128, Shortest(|payload|), |payload|) + (key + Masked(payload, key)))
  }

  /** A server's reader, section 5.2: client frames must be masked. */
  function ServerDecode(s: seq<byte>): Option<(bool, nat, seq<byte>, seq<byte>)> {
    if |s| < 2 || s[1] < 128 then None else
    var (length, rest) :- ExtendedLength(s[1] % 128, s[2..]);
    if |rest| < 4 + length then None
    else Some((s[0] >= 128, s[0] % 16, Unmasked(rest[4..4 + length], rest[..4]), rest[4 + length..]))
  }

  /** A server decodes every frame the client sends, for every key, to its opcode and payload. */
  lemma ServerReadsClient(opcode: nat, payload: seq<byte>, key: Key, after: seq<byte>)
    requires opcode < 16 && |payload| < LONG_LIMIT
    ensures ServerDecode(ClientFrame(opcode, payload, key) + after) == Some((true, opcode, payload, after))
  {
    var n := |payload|;
    var field := LengthField(128, Shortest(n), n);
    var masked := Masked(payload, key);
    var s := ClientFrame(opcode, payload, key) + after;
    var first: byte := 128 + opcode;
    Assoc([first], field + (key + masked), after);
    Assoc(field, key + masked, after);
    Assoc(key, masked, after);
    ConsTail(first, field + (key + (masked + after)));
    ReadsLength(128, Shortest(n), n, key + (masked + after));
    SkipSkip(s, 1, 1);
    SplitMasked(key, masked, after);
    UnmaskingUndoes(payload, key);
  }

  lemma SplitMasked(key: Key, masked: seq<byte>, after: seq<byte>)
    ensures var rest := key + (masked + after);
            rest[..4] == key && rest[4..4 + |masked|] == masked && rest[4 + |masked|..] == after
  {
  }

  /** No other form of the length is shorter than the one the client uses. */
  lemma ShortestIsShortest(n: nat, form: Form)
    requires n < LONG_LIMIT && form.Fits(n)
    ensures |LengthField(128, Shortest(n), n)| <= |LengthField(128, form, n)|
  {
  }

  // ---- The examples of section 5.7 ----

  const HELLO: seq<byte> := [0x48, 0x65, 0x6C, 0x6C, 0x6F]

  /** The unmasked text message, whole and in two fragments. */
  lemma UnmaskedExamples()
    ensures ParseFrame([0x81, 0x05] + HELLO) == Parsed(true, 1, HELLO, [])
    ensures ParseFrame([0x01, 0x03, 0x48, 0x65, 0x6C]) == Parsed(false, 1, [0x48, 0x65, 0x6C], [])
    ensures ParseFrame([0x80, 0x02, 0x6C, 0x6F]) == Parsed(true, 0, [0x6C, 0x6F], [])
  {
    CutMiddle([0x81, 0x05], HELLO);
    var first, second := [0x01, 0x03, 0x48, 0x65, 0x6C], [0x80, 0x02, 0x6C, 0x6F];
    assert first[2..] == [0x48, 0x65, 0x6C] && second[2..] == [0x6C, 0x6F];
  }

  /** The binary messages of 256 bytes and of 64 KiB. */
  lemma LongExamples(data: seq<byte>)
    ensures |data| == 0x100 ==> ParseFrame([0x82, 0x7E, 0x01, 0x00] + data) == Parsed(true, 2, data, [])
    ensures |data| == 0x1_0000 ==>
              ParseFrame([0x82, 0x7F, 0x00, 0x00, 0x00, 0x00, 0x00, 0x01, 0x00, 0x00] + data) == Parsed(true, 2, data, [])
  {
    if |data| == 0x100 {
      var header := [0x01, 0x00];
      assert FromBigEndian(header) == 0x100 by {
        assert header[..1] == [0x01];
      }
      assert [0x82, 0x7E] + header == [0x82, 0x7E, 0x01, 0x00];
      LongExample(0x7E, header, data);
    }
    if |data| == 0x1_0000 {
      var header := [0x00, 0x00, 0x00, 0x00, 0x00, 0x01, 0x00, 0x00];
      LeadingZeros();
      assert [0x82, 0x7F] + header == [0x82, 0x7F, 0x00, 0x00, 0x00, 0x00, 0x00, 0x01, 0x00, 0x00];
      LongExample(0x7F, header, data);
    }
  }

  lemma LeadingZeros()
    ensures FromBigEndian([0x00, 0x00, 0x00, 0x00, 0x00, 0x01, 0x00, 0x00]) == 0x1_0000
  {
    LengthBounds();
    var header := BigEndian(0x1_0000, 8);
    BigEndianRoundTrip(0x1_0000, 8);
    forall i | 0 <= i < 8
      ensures header[i] == if i == 5 then 1 else 0
    {
      BigEndianDigit(0x1_0000, 8, i);
      assert Pow256(4) == 256 * Pow256(3) && Pow256(3) == 256 * Pow256(2) && Pow256(1) == 256 * Pow256(0);
      assert Pow256(7) == 256 * Pow256(6) && Pow256(6) == 256 * Pow256(5) && Pow256(5) == 256 * Pow256(4);
    }
    assert header == [0x00, 0x00, 0x00, 0x00, 0x00, 0x01, 0x00, 0x00];
  }

  lemma LongExample(tag: byte, number: seq<byte>, data: seq<byte>)
    requires (tag == 126 && |number| == 2) || (tag == 127 && |number| == 8)
    requires FromBigEndian(number) == |data|
    ensures ParseFrame([0x82, tag] + number + data) == Parsed(true, 2, data, [])
  {
    var s := [0x82, tag] + number + data;
    Assoc([0x82, tag], number, data);
    CutMiddle([0x82, tag], number + data);
    CutMiddle(number, data);
  }
}
