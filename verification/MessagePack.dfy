/**
 The binary hub protocol: messages as msgpack arrays, frames with a VarInt length, and the
 parser of a byte string that holds several frames. msgpack itself is a parameter.
 */
module MessagePack {
  import opened Seqs
  import opened Text
  import opened Bits
  import opened MessagePackFrames

  /** The values msgpack carries. */
  datatype Val =
    | Nil
    | Bool(b: bool)
    | Int(i: int)
    /** The 64 bits of an IEEE 754 double. */
    | Float(bits: nat)
    | Str(s: string)
    | Bin(bytes: seq<byte>)
    | Arr(items: seq<Val>)
    | Dict(entries: seq<Entry>)

  datatype Entry = Entry(key: string, value: Val)

  const EMPTY := Dict([])

  /** `raw[k]`; None is the exception Python raises. */
  function Item(raw: Val, k: nat): Option<Val> {
    match raw
    case Arr(items) => if k < |items| then Some(items[k]) else None
    case Str(s) => if k < |s| then Some(Str([s[k]])) else None
    case Bin(bytes) => if k < |bytes| then Some(Int(bytes[k])) else None
    case _ => None
  }

  /** `len(raw)` */
  function Len(raw: Val): Option<nat> {
    match raw
    case Arr(items) => Some(|items|)
    case Str(s) => Some(|s|)
    case Bin(bytes) => Some(|bytes|)
    case Dict(entries) => Some(|entries|)
    case _ => None
  }

  /** The bits of the doubles 1.0 to 8.0. */
  const SMALL_DOUBLES: seq<nat> := [
    0x3FF0_0000_0000_0000, 0x4000_0000_0000_0000, 0x4008_0000_0000_0000, 0x4010_0000_0000_0000,
    0x4014_0000_0000_0000, 0x4018_0000_0000_0000, 0x401C_0000_0000_0000, 0x4020_0000_0000_0000]

  /** `raw == n` for an integer literal, with Python's equality across number types. */
  predicate Is(raw: Val, n: int)
    requires 1 <= n <= 8
  {
    match raw
    case Int(i) => i == n
    case Bool(b) => (if b then 1 else 0) == n
    case Float(bits) => bits == SMALL_DOUBLES[n - 1]
    case _ => false
  }

  datatype HubMessage =
    | Invocation(headers: Val, invocationId: Val, target: Val, arguments: Val)
    | ClientStreamInvocation(headers: Val, target: Val, arguments: Val, streamIds: Val)
    | StreamItem(headers: Val, invocationId: Val, item: Val)
    | Completion(headers: Val, invocationId: Val, result: Val, error: Val)
    | StreamInvocation(headers: Val, invocationId: Val, target: Val, arguments: Val, streamIds: Val)
    | CancelInvocation(headers: Val, invocationId: Val)
    | Ping
    | Close(headers: Val, error: Val, allowReconnect: Val)
    | Ack(headers: Val, sequenceId: Val)
    | Sequence(headers: Val, sequenceId: Val)

  /** The message in a decoded array; None is a raised exception. */
  function DecodeMessage(raw: Val): Option<HubMessage> {
    var kind :- Item(raw, 0);
    if Is(kind, 1) then
      var streamIds :- Item(raw, 5);
      var count :- Len(streamIds);
      var headers :- Item(raw, 1);
      var id :- Item(raw, 2);
      var target :- Item(raw, 3);
      var arguments :- Item(raw, 4);
      Some(if count > 0 then ClientStreamInvocation(headers, target, arguments, streamIds)
           else Invocation(headers, id, target, arguments))
    else if Is(kind, 2) then
      var headers :- Item(raw, 1);
      var id :- Item(raw, 2);
      var item :- Item(raw, 3);
      Some(StreamItem(headers, id, item))
    else if Is(kind, 3) then
      var resultKind :- Item(raw, 3);
      var headers :- Item(raw, 1);
      var id :- Item(raw, 2);
      if Is(resultKind, 1) then
        var error :- Item(raw, 4);
        Some(Completion(headers, id, Nil, error))
      else if Is(resultKind, 2) then Some(Completion(headers, id, Nil, Nil))
      else if Is(resultKind, 3) then
        var result :- Item(raw, 4);
        Some(Completion(headers, id, result, Nil))
      else None
    else if Is(kind, 4) then
      var headers :- Item(raw, 1);
      var id :- Item(raw, 2);
      var target :- Item(raw, 3);
      var arguments :- Item(raw, 4);
      var streamIds := match Item(raw, 5) case Some(ids) => ids case None => Arr([]);
      Some(StreamInvocation(headers, id, target, arguments, streamIds))
    else if Is(kind, 5) then
      var headers :- Item(raw, 1);
      var id :- Item(raw, 2);
      Some(CancelInvocation(headers, id))
    else if Is(kind, 6) then Some(Ping)
    else if Is(kind, 7) then
      var error :- Item(raw, 1);
      var allowReconnect := match Item(raw, 2) case Some(v) => v case None => Nil;
      Some(Close(EMPTY, error, allowReconnect))
    else if Is(kind, 8) then
      var sequenceId :- Item(raw, 1);
      Some(Ack(EMPTY, sequenceId))
    else None
  }

  /** 2 to the 52, the weight of the hidden bit of a double. */
  const HIDDEN_BIT: nat := 0x10_0000_0000_0000

  /** The bits stand for the numbers: exponent 1023 means 1, and 52 bits of fraction follow. */
  lemma SmallDoubles(n: int)
    requires 1 <= n <= 8
    ensures var bits := SMALL_DOUBLES[n - 1];
            var exponent, fraction := bits / HIDDEN_BIT, bits % HIDDEN_BIT;
            exponent >= 1023 && (HIDDEN_BIT + fraction) * Pow2(exponent - 1023) == n * HIDDEN_BIT
  {
    assert Pow2(0) == 1 && Pow2(1) == 2 && Pow2(2) == 4 && Pow2(3) == 8;
  }

  /** A message type is any number that equals it: `1.0` and `True` are as good as `1`. */
  lemma TypeIsANumber(kind: Val, n: int, rest: seq<Val>)
    requires 1 <= n <= 8 && (kind == Float(SMALL_DOUBLES[n - 1]) || (kind == Bool(true) && n == 1))
    ensures DecodeMessage(Arr([kind] + rest)) == DecodeMessage(Arr([Int(n)] + rest))
  {
    forall m | 1 <= m <= 8
      ensures Is(kind, m) <==> m == n
    {
    }
    forall k | 0 < k
      ensures Item(Arr([kind] + rest), k) == Item(Arr([Int(n)] + rest), k)
    {
    }
  }

  /** The attributes the encoder looks for, in the order it writes them. */
  datatype Attribute =
    Type | Headers | InvocationId | Target | Arguments | ItemOf | ResultKind | Result | StreamIds

  const PRIORITY := [Type, Headers, InvocationId, Target, Arguments, ItemOf, ResultKind, Result, StreamIds]

  function TypeCode(m: HubMessage): int {
    match m
    case Invocation(_, _, _, _) => 1
    case ClientStreamInvocation(_, _, _, _) => 1
    case StreamItem(_, _, _) => 2
    case Completion(_, _, _, _) => 3
    case StreamInvocation(_, _, _, _, _) => 4
    case CancelInvocation(_, _) => 5
    case Ping => 6
    case Close(_, _, _) => 7
    case Ack(_, _) => 8
    case Sequence(_, _) => 9
  }

  /** `getattr(message, attribute)` where `hasattr` holds. */
  function Get(m: HubMessage, a: Attribute): Option<Val> {
    match a
    case Type => Some(Int(TypeCode(m)))
    case Headers => if m.Ping? then None else Some(m.headers)
    case InvocationId =>
      if m.Invocation? || m.StreamItem? || m.Completion? || m.StreamInvocation? || m.CancelInvocation?
      then Some(m.invocationId) else None
    case Target =>
      if m.Invocation? || m.ClientStreamInvocation? || m.StreamInvocation? then Some(m.target) else None
    case Arguments =>
      if m.Invocation? || m.ClientStreamInvocation? || m.StreamInvocation? then Some(m.arguments) else None
    case ItemOf => if m.StreamItem? then Some(m.item) else None
    case ResultKind => None
    case Result => if m.Completion? then Some(m.result) else None
    case StreamIds =>
      if m.ClientStreamInvocation? || m.StreamInvocation? then Some(m.streamIds) else None
  }

  function Collect(m: HubMessage, attributes: seq<Attribute>): seq<Val> {
    if attributes == [] then [] else
    (match Get(m, attributes[0]) case Some(v) => [v] case None => []) + Collect(m, attributes[1..])
  }

  function Encoded(m: HubMessage): Val {
    Arr(Collect(m, PRIORITY))
  }

  method EncodeMessage(m: HubMessage) returns (result: seq<Val>)
    ensures Arr(result) == Encoded(m)
  {
    result := [];
    ghost var target := Collect(m, PRIORITY);
    Empty(target);
    for k := 0 to |PRIORITY|
      invariant result + Collect(m, PRIORITY[k..]) == target
    {
      SkipSkip(PRIORITY, k, 1);
      var value := Get(m, PRIORITY[k]);
      if value.Some? {
        Assoc(result, [value.value], Collect(m, PRIORITY[k + 1..]));
        result := result + [value.value];
      } else {
        Empty(Collect(m, PRIORITY[k + 1..]));
      }
    }
    Empty(result);
  }

  /** The array a message is written as. */
  function Layout(m: HubMessage): seq<Val> {
    match m
    case Invocation(h, id, target, arguments) => [Int(1), h, id, target, arguments]
    case ClientStreamInvocation(h, target, arguments, ids) => [Int(1), h, target, arguments, ids]
    case StreamItem(h, id, item) => [Int(2), h, id, item]
    case Completion(h, id, result, _) => [Int(3), h, id, result]
    case StreamInvocation(h, id, target, arguments, ids) => [Int(4), h, id, target, arguments, ids]
    case CancelInvocation(h, id) => [Int(5), h, id]
    case Ping => [Int(6)]
    case Close(h, _, _) => [Int(7), h]
    case Ack(h, _) => [Int(8), h]
    case Sequence(h, _) => [Int(9), h]
  }

  lemma CollectOne(m: HubMessage, a: Attribute, rest: seq<Attribute>)
    ensures Collect(m, [a] + rest)
            == (match Get(m, a) case Some(v) => [v] case None => []) + Collect(m, rest)
  {
    ConsTail(a, rest);
  }

  const LAST_FOUR := [ItemOf, ResultKind, Result, StreamIds]

  lemma CollectLastFour(m: HubMessage)
    ensures Collect(m, LAST_FOUR)
            == if m.StreamItem? then [m.item]
               else if m.Completion? then [m.result]
               else if m.ClientStreamInvocation? || m.StreamInvocation? then [m.streamIds]
               else []
  {
    var p3 := [StreamIds];
    var p2 := [Result] + p3;
    var p1 := [ResultKind] + p2;
    assert LAST_FOUR == [ItemOf] + p1;
    CollectOne(m, ItemOf, p1);
    CollectOne(m, ResultKind, p2);
    CollectOne(m, Result, p3);
    assert p3 == p3 + [];
    CollectOne(m, StreamIds, []);
  }

  lemma CollectFromTarget(m: HubMessage)
    ensures Collect(m, [Target, Arguments] + LAST_FOUR)
            == if m.Invocation? then [m.target, m.arguments]
               else if m.ClientStreamInvocation? || m.StreamInvocation? then [m.target, m.arguments, m.streamIds]
               else Collect(m, LAST_FOUR)
  {
    CollectLastFour(m);
    Assoc([Target], [Arguments], LAST_FOUR);
    CollectOne(m, Target, [Arguments] + LAST_FOUR);
    CollectOne(m, Arguments, LAST_FOUR);
  }

  lemma CollectFromId(m: HubMessage)
    ensures Collect(m, [InvocationId] + ([Target, Arguments] + LAST_FOUR))
            == if m.Ping? then [] else Layout(m)[2..]
  {
    CollectOne(m, InvocationId, [Target, Arguments] + LAST_FOUR);
    CollectFromTarget(m);
    CollectLastFour(m);
  }

  lemma CollectFromHeaders(m: HubMessage, attributes: seq<Attribute>)
    requires attributes == [InvocationId] + ([Target, Arguments] + LAST_FOUR)
    ensures Collect(m, [Headers] + attributes) == Layout(m)[1..]
  {
    CollectOne(m, Headers, attributes);
    CollectFromId(m);
    if !m.Ping? {
      SkipSkip(Layout(m), 1, 1);
      Uncons(Layout(m)[1..]);
    }
  }

  lemma CollectAll(m: HubMessage, attributes: seq<Attribute>)
    requires attributes == PRIORITY
    ensures Collect(m, attributes) == Layout(m)
  {
    var rest := [InvocationId] + ([Target, Arguments] + LAST_FOUR);
    assert attributes == [Type] + ([Headers] + rest);
    CollectOne(m, Type, [Headers] + rest);
    CollectFromHeaders(m, rest);
    Uncons(Layout(m));
  }

  lemma EncodedIsLayout(m: HubMessage)
    ensures Encoded(m) == Arr(Layout(m))
  {
    CollectAll(m, PRIORITY);
  }

  /** The messages whose written layout is the one that is read. */
  predicate Symmetric(m: HubMessage) {
    || m.StreamItem? || m.StreamInvocation? || m.CancelInvocation? || m.Ping?
    || m == Close(EMPTY, EMPTY, Nil) || m == Ack(EMPTY, EMPTY)
  }

  lemma SymmetricDecodes(m: HubMessage)
    requires Symmetric(m)
    ensures DecodeMessage(Arr(Layout(m))) == Some(m)
  {
  }

  lemma AsymmetricDoesNot(m: HubMessage)
    requires !Symmetric(m)
    ensures DecodeMessage(Arr(Layout(m))) != Some(m)
  {
    match m
    case Completion(_, _, result, _) => assert Is(result, 2) ==> result != Nil;
    case _ =>
  }

  /** Decoding inverts encoding for exactly these messages. */
  lemma DecodeInvertsEncode(m: HubMessage)
    ensures DecodeMessage(Encoded(m)) == Some(m) <==> Symmetric(m)
  {
    EncodedIsLayout(m);
    if Symmetric(m) {
      SymmetricDecodes(m);
    } else {
      AsymmetricDoesNot(m);
    }
  }

  // ---- Bodies of frames ----

  /**
   The msgpack library: `pack` is `packb`, `unpack` is `unpackb` with None for an exception, and
   `fits` holds of the values that it can carry and gives back as they were.
   */
  datatype Packer = Packer(fits: Val -> bool, pack: Val -> seq<byte>, unpack: seq<byte> -> Option<Val>)

  /** On values that fit, unpacking inverts packing, and fails on every body cut short. */
  ghost predicate Lawful(p: Packer) {
    && (forall v | p.fits(v) :: p.pack(v) != [] && p.unpack(p.pack(v)) == Some(v))
    && (forall v, k | p.fits(v) && 0 <= k < |p.pack(v)| :: p.unpack(p.pack(v)[..k]) == None)
  }

  function ReadBody(p: Packer, body: seq<byte>): Option<HubMessage> {
    var values :- p.unpack(body);
    DecodeMessage(values)
  }

  /** The hub's messages in msgpack bodies. */
  function HubCodec(p: Packer): BodyCodec<HubMessage> {
    BodyCodec((m: HubMessage) => p.pack(Encoded(m)), (body: seq<byte>) => ReadBody(p, body))
  }

  /** A message the library can carry, in a body whose length the prefix can announce. */
  predicate Carried(p: Packer, m: HubMessage) {
    p.fits(Encoded(m)) && |p.pack(Encoded(m))| < LENGTH_LIMIT
  }

  /** With a lawful library, the frames give back exactly the symmetric ones of the carried messages. */
  lemma SendableMessages(p: Packer, m: HubMessage)
    requires Lawful(p) && Carried(p, m)
    ensures Sendable(HubCodec(p), m) <==> Symmetric(m)
  {
    DecodeInvertsEncode(m);
    var body := p.pack(Encoded(m));
    forall k | 0 <= k < |body|
      ensures ReadBody(p, body[..k]) == None
    {
      assert p.unpack(p.pack(Encoded(m))[..k]) == None;
    }
  }

  ghost predicate AllCarried(p: Packer, messages: seq<HubMessage>) {
    forall m :: m in messages ==> Symmetric(m) && Carried(p, m)
  }

  lemma AllCarriedAreSendable(p: Packer, messages: seq<HubMessage>)
    requires Lawful(p) && AllCarried(p, messages)
    ensures AllSendable(HubCodec(p), messages)
  {
    forall m | m in messages
      ensures Sendable(HubCodec(p), m)
    {
      SendableMessages(p, m);
    }
  }

  /** The round trip of the hub's binary messages, exactly. */
  lemma HubRoundTrip(p: Packer, messages: seq<HubMessage>)
    requires Lawful(p) && AllCarried(p, messages)
    ensures Parsed(HubCodec(p), Sent(HubCodec(p), messages)) == messages
            <==> forall k :: 0 <= k < |messages| ==>
                   !Refused(HubCodec(p), messages[k], StartOf(HubCodec(p), messages, k))
  {
    AllCarriedAreSendable(p, messages);
    FramesRoundTrip(HubCodec(p), messages);
  }

  /** A stream of binary messages cut anywhere in a last frame gives the messages before the cut. */
  lemma HubCutStreamParses(p: Packer, messages: seq<HubMessage>, last: HubMessage, cut: nat)
    requires Lawful(p) && AllCarried(p, messages) && Symmetric(last) && Carried(p, last)
    requires cut < |Frame(HubCodec(p), last)|
    ensures Parsed(HubCodec(p), Sent(HubCodec(p), messages) + Frame(HubCodec(p), last)[..cut])
            == messages[..Received(HubCodec(p), messages)]
  {
    AllCarriedAreSendable(p, messages);
    SendableMessages(p, last);
    CutStreamParses(HubCodec(p), messages, last, cut);
  }

  /** Hub messages cut at any byte: those wholly before the cut, and before the first refused one. */
  lemma HubCutAnywhereParses(p: Packer, messages: seq<HubMessage>, cut: nat)
    requires Lawful(p) && AllCarried(p, messages) && cut <= |Sent(HubCodec(p), messages)|
    ensures Parsed(HubCodec(p), Sent(HubCodec(p), messages)[..cut])
            == messages[..Lesser(Arrived(HubCodec(p), messages, cut), Received(HubCodec(p), messages))]
  {
    AllCarriedAreSendable(p, messages);
    CutAnywhereParses(HubCodec(p), messages, cut);
  }
}
