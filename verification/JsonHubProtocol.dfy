/**
 The text hub protocol: records separated by 0x1E, the handshake in the first of them.
 JSON itself is a parameter: `loads` stands for `json.loads` followed by `get_message`.
 */
module JsonHubProtocol {
  import opened Seqs
  import opened Text

  /** What a record decodes to: an exception, `{}`, or a message. */
  datatype Loaded<+M> = Invalid | EmptyObject | Loaded(message: M)

  /** `error` is `json.loads(record).get("error")`: None is an exception, Some(None) no error. */
  datatype Codec<+M> = Codec(loads: string -> Loaded<M>, error: string -> Option<Option<string>>)

  function NonEmpty(parts: seq<string>): seq<string> {
    if parts == [] then []
    else (if parts[0] == "" then [] else [parts[0]]) + NonEmpty(parts[1..])
  }

  function Records(raw: string): seq<string> {
    NonEmpty(Split(raw, RECORD_SEPARATOR))
  }

  function Prepend<M>(m: M, ms: Option<seq<M>>): Option<seq<M>> {
    match ms
    case None => None
    case Some(rest) => Some([m] + rest)
  }

  /** The messages of records, empty objects left out; one undecodable record fails them all. */
  function LoadAll<M>(codec: Codec<M>, records: seq<string>): Option<seq<M>> {
    if records == [] then Some([]) else
    match codec.loads(records[0])
    case Invalid => None
    case EmptyObject => LoadAll(codec, records[1..])
    case Loaded(m) => Prepend(m, LoadAll(codec, records[1..]))
  }

  function Messages<M>(codec: Codec<M>, raw: string): Option<seq<M>> {
    LoadAll(codec, Records(raw))
  }

  lemma {:induction false} LoadAllAppend<M>(codec: Codec<M>, a: seq<string>, b: seq<string>)
    ensures LoadAll(codec, a + b)
            == match (LoadAll(codec, a), LoadAll(codec, b))
               case (Some(x), Some(y)) => Some(x + y)
               case _ => None
  {
    if a == [] {
      Empty(b);
      if LoadAll(codec, b).Some? {
        Empty(LoadAll(codec, b).value);
      }
    } else {
      CutLeft(a, b, 1);
      LoadAllAppend(codec, a[1..], b);
      match (codec.loads(a[0]), LoadAll(codec, a[1..]), LoadAll(codec, b))
      case (Loaded(m), Some(x), Some(y)) => Assoc([m], x, y);
      case _ =>
    }
  }

  /** The records that are not `{}`. */
  function Proper<M>(codec: Codec<M>, records: seq<string>): seq<string> {
    if records == [] then []
    else (if codec.loads(records[0]).EmptyObject? then [] else [records[0]]) + Proper(codec, records[1..])
  }

  /** Some record cannot be decoded. */
  ghost predicate HasInvalid<M>(codec: Codec<M>, records: seq<string>) {
    exists k :: 0 <= k < |records| && codec.loads(records[k]).Invalid?
  }

  /**
   What records load to, one by one: nothing iff one of them cannot be decoded, and otherwise the
   message of each that is not `{}`, in order.
   */
  lemma {:induction false} LoadsProperRecords<M>(codec: Codec<M>, records: seq<string>)
    ensures LoadAll(codec, records).None? <==> HasInvalid(codec, records)
    ensures var proper := Proper(codec, records);
            LoadAll(codec, records).Some? ==>
              var messages := LoadAll(codec, records).value;
              |messages| == |proper| && forall k :: 0 <= k < |proper| ==> codec.loads(proper[k]) == Loaded(messages[k])
  {
    if records != [] {
      var rest := records[1..];
      LoadsProperRecords(codec, rest);
      assert forall k :: 0 < k < |records| ==> records[k] == rest[k - 1];
      if HasInvalid(codec, rest) {
        var k :| 0 <= k < |rest| && codec.loads(rest[k]).Invalid?;
        assert codec.loads(records[k + 1]).Invalid?;
      }
    }
  }

  method ParseMessages<M>(codec: Codec<M>, raw: string) returns (result: Option<seq<M>>)
    ensures result == Messages(codec, raw)
  {
    var rawMessages := Records(raw);
    var messages := [];
    ghost var target := LoadAll(codec, rawMessages);
    assert rawMessages[0..] == rawMessages;
    if target.Some? {
      Empty(target.value);
    }
    for k := 0 to |rawMessages|
      invariant match LoadAll(codec, rawMessages[k..])
                case None => target == None
                case Some(rest) => target == Some(messages + rest)
    {
      SkipSkip(rawMessages, k, 1);
      match codec.loads(rawMessages[k]) {
        case Invalid =>
          return None;
        case EmptyObject =>
        case Loaded(m) =>
          if LoadAll(codec, rawMessages[k + 1..]).Some? {
            Assoc(messages, [m], LoadAll(codec, rawMessages[k + 1..]).value);
          }
          messages := messages + [m];
      }
    }
    Empty(messages);
    return Some(messages);
  }

  /** Records a sender may write: not empty and without the separator. */
  predicate IsRecord(r: string) {
    r != "" && RECORD_SEPARATOR !in r
  }

  predicate AreRecords(records: seq<string>) {
    forall r :: r in records ==> IsRecord(r)
  }

  lemma {:induction false} NonEmptyKeeps(records: seq<string>, tail: seq<string>)
    requires AreRecords(records)
    ensures NonEmpty(records + tail) == records + NonEmpty(tail)
  {
    if records == [] {
      Empty(tail);
      Empty(NonEmpty(tail));
    } else {
      assert records[0] in records;
      CutLeft(records, tail, 1);
      NonEmptyKeeps(records[1..], tail);
      Assoc([records[0]], records[1..], NonEmpty(tail));
      Uncons(records);
    }
  }

  /** Framing loses nothing: terminated records come back, in order. */
  lemma RecordsOfTerminated(records: seq<string>)
    requires AreRecords(records)
    ensures Records(Terminated(records, RECORD_SEPARATOR)) == records
  {
    SplitTerminated(records, "", RECORD_SEPARATOR);
    SplitNone("", RECORD_SEPARATOR);
    Empty(Terminated(records, RECORD_SEPARATOR));
    NonEmptyKeeps(records, [""]);
    assert NonEmpty([""]) == [];
    Empty(records);
  }

  /** The same for joined records, which the SSE client hands on without the last separator. */
  lemma RecordsOfJoin(records: seq<string>)
    requires records != [] && AreRecords(records)
    ensures Records(Join(records, RECORD_SEPARATOR)) == records
  {
    SplitJoin(records, RECORD_SEPARATOR);
    NonEmptyKeeps(records, []);
    Empty(records);
  }

  /** `encode` writes one terminated record; `parse_messages` reads any number of them back. */
  lemma {:induction false} EncodeRoundTrip<M>(codec: Codec<M>, dumps: M -> string, messages: seq<M>)
    requires forall m :: m in messages ==> codec.loads(dumps(m)) == Loaded(m) && IsRecord(dumps(m))
    ensures var records := seq(|messages|, k requires 0 <= k < |messages| => dumps(messages[k]));
            Messages(codec, Terminated(records, RECORD_SEPARATOR)) == Some(messages)
  {
    var records := seq(|messages|, k requires 0 <= k < |messages| => dumps(messages[k]));
    RecordsOfTerminated(records);
    LoadAllInverts(codec, dumps, messages, records);
  }

  lemma {:induction false} LoadAllInverts<M>(codec: Codec<M>, dumps: M -> string, messages: seq<M>, records: seq<string>)
    requires |records| == |messages|
    requires forall k :: 0 <= k < |messages| ==> records[k] == dumps(messages[k])
    requires forall m :: m in messages ==> codec.loads(dumps(m)) == Loaded(m)
    ensures LoadAll(codec, records) == Some(messages)
  {
    if messages != [] {
      assert messages[0] in messages;
      LoadAllInverts(codec, dumps, messages[1..], records[1..]);
      Uncons(messages);
    }
  }

  // ---- The handshake ----

  datatype Handshake<+M> = Raised | Handshake(error: Option<string>, messages: seq<M>)

  function DecodeHandshake<M>(codec: Codec<M>, raw: string): Handshake<M> {
    var records := Records(raw);
    if records == [] then Raised else
    var error := if records[0] == "{}" then Some(None) else codec.error(records[0]);
    if error == None then Raised else
    var idx := Find(raw, [RECORD_SEPARATOR]);
    if |records| <= 1 then Handshake(error.value, []) else
    match Messages(codec, raw[idx + 1..])
    case None => Raised
    case Some(ms) => Handshake(error.value, ms)
  }

  /** What the first record says: `{}` is no error, and anything else is loaded. */
  function FirstSays<M>(codec: Codec<M>, first: string): Option<Option<string>> {
    if first == "{}" then Some(None) else codec.error(first)
  }

  /** Terminated records are taken for a handshake, or raise, by their first and by the messages of the others. */
  lemma HandshakeOfRecords<M>(codec: Codec<M>, first: string, records: seq<string>)
    requires IsRecord(first) && AreRecords(records)
    ensures DecodeHandshake(codec, Terminated([first] + records, RECORD_SEPARATOR))
            == match (FirstSays(codec, first), LoadAll(codec, records))
               case (Some(error), Some(messages)) => Handshake(error, messages)
               case _ => Raised
  {
    var rest := Terminated(records, RECORD_SEPARATOR);
    var raw := Terminated([first] + records, RECORD_SEPARATOR);
    ConsTail(first, records);
    FindChar(first, RECORD_SEPARATOR, rest);
    assert raw == (first + [RECORD_SEPARATOR]) + rest;
    CutMiddle(first + [RECORD_SEPARATOR], rest);
    RecordsOfTerminated([first] + records);
    RecordsOfTerminated(records);
  }

  /** Nothing but separators is no handshake. */
  lemma {:induction false} NoHandshake<M>(codec: Codec<M>, n: nat)
    ensures var none := seq(n, _ => RECORD_SEPARATOR);
            Records(none) == [] && DecodeHandshake(codec, none) == Raised
  {
    var none := seq(n, _ => RECORD_SEPARATOR);
    if n == 0 {
      SplitNone(none, RECORD_SEPARATOR);
      assert NonEmpty([""]) == [];
    } else {
      var fewer := seq(n - 1, _ => RECORD_SEPARATOR);
      NoHandshake(codec, n - 1);
      SplitFirst("", RECORD_SEPARATOR, fewer);
      assert none == "" + [RECORD_SEPARATOR] + fewer;
      ConsTail("", Split(fewer, RECORD_SEPARATOR));
    }
  }

  /** A handshake record followed by others is taken apart into its error and their messages. */
  lemma HandshakeThenRecords<M>(codec: Codec<M>, first: string, records: seq<string>)
    requires IsRecord(first) && AreRecords(records)
    requires LoadAll(codec, records).Some?
    requires first == "{}" || codec.error(first).Some?
    ensures DecodeHandshake(codec, Terminated([first] + records, RECORD_SEPARATOR))
            == Handshake(if first == "{}" then None else codec.error(first).value, LoadAll(codec, records).value)
  {
    HandshakeOfRecords(codec, first, records);
  }
}
