/**
 From the records a server sends as server-sent events to the messages the hub gets, through
 chunking, segmentation, frame cutting, JSON scanning and record parsing.
 */
module SseRoundTrip {
  import opened Seqs
  import opened Text
  import opened ChunkedCoding
  import opened JsonScanner
  import opened JsonGrammar
  import opened SseFrames
  import opened SseLines
  import opened SseClient
  import Hub = JsonHubProtocol

  /**
   One frame of a server: any lines, whose data up to the last separator are JSON objects joined by
   it, and the blank line's style. Comments, other fields and empty data make an event without records.
   */
  datatype Event = Event(lines: seq<Line>, records: seq<Value>, dropped: Option<string>, crlf: bool) {
    predicate WellFormed() {
      && InFrame(lines) && (forall v :: v in records ==> v.WellFormed() && v.IsObject())
      && Splits(DataOf(lines), Join(Texts(records), RECORD_SEPARATOR), dropped)
    }

    function Text(): string {
      FrameText(lines) + BlankLine(crlf)
    }
  }

  function Texts(records: seq<Value>): (texts: seq<string>)
    ensures |texts| == |records|
  {
    if records == [] then [] else [records[0].Text()] + Texts(records[1..])
  }

  function EventsText(events: seq<Event>): string {
    if events == [] then "" else events[0].Text() + EventsText(events[1..])
  }

  /** The texts the hub's transport is handed, one for each event that has records. */
  function Joined(events: seq<Event>): seq<string> {
    if events == [] then []
    else (if events[0].records == [] then [] else [Join(Texts(events[0].records), RECORD_SEPARATOR)]) + Joined(events[1..])
  }

  function AllRecords(events: seq<Event>): seq<string> {
    if events == [] then [] else Texts(events[0].records) + AllRecords(events[1..])
  }

  predicate IsObjectText(s: string) {
    s != "" && RECORD_SEPARATOR !in s && CutObject(s) == Some(s)
  }

  predicate AreObjectTexts(texts: seq<string>) {
    forall t :: t in texts ==> IsObjectText(t)
  }

  lemma {:induction false} TextsAreObjects(records: seq<Value>)
    requires forall v :: v in records ==> v.WellFormed() && v.IsObject()
    ensures AreObjectTexts(Texts(records))
  {
    if records != [] {
      var v := records[0];
      assert v in records;
      TextsAreObjects(records[1..]);
      ObjectIsCut("", v, "");
      Empty(v.Text());
      ValueClean(v);
      assert IsObjectText(v.Text());
    }
  }

  lemma {:induction false} CutAllKeeps(texts: seq<string>)
    requires AreObjectTexts(texts)
    ensures CutAll(texts) == Some(texts)
  {
    if texts != [] {
      assert texts[0] in texts;
      assert IsObjectText(texts[0]);
      CutAllKeeps(texts[1..]);
      Uncons(texts);
    }
  }

  lemma SeparatorInJoin(texts: seq<string>)
    requires |texts| > 1
    ensures RECORD_SEPARATOR in Join(texts, RECORD_SEPARATOR)
  {
    var head := texts[0] + [RECORD_SEPARATOR];
    assert (head + Join(texts[1..], RECORD_SEPARATOR))[|texts[0]|] == RECORD_SEPARATOR;
  }

  /** Joined object texts pass through `prepare_data` unchanged. */
  lemma PrepareKeeps(texts: seq<string>)
    requires texts != [] && AreObjectTexts(texts)
    ensures PrepareData(Join(texts, RECORD_SEPARATOR)) == Some(Join(texts, RECORD_SEPARATOR))
  {
    var data := Join(texts, RECORD_SEPARATOR);
    if |texts| == 1 {
      assert texts[0] in texts;
      assert IsObjectText(texts[0]);
    } else {
      assert forall t :: t in texts ==> IsObjectText(t);
      SeparatorInJoin(texts);
      SplitJoin(texts, RECORD_SEPARATOR);
      CutAllKeeps(texts);
    }
  }

  lemma JoinIsNotEmpty(texts: seq<string>)
    requires texts != [] && AreObjectTexts(texts)
    ensures Join(texts, RECORD_SEPARATOR) != ""
  {
    assert texts[0] in texts;
    assert IsObjectText(texts[0]);
  }

  /** An event is read as the joined texts of its records; without records it is skipped. */
  lemma EventReads(e: Event)
    requires e.WellFormed()
    ensures ReadFrame(FrameText(e.lines))
            == if e.records == [] then Skipped else Message(Join(Texts(e.records), RECORD_SEPARATOR))
  {
    var texts := Texts(e.records);
    DataIsKept(e.lines, Join(texts, RECORD_SEPARATOR), e.dropped);
    TextsAreObjects(e.records);
    if texts != [] {
      JoinIsNotEmpty(texts);
      PrepareKeeps(texts);
    }
  }

  /** The first boundary behind an event is the blank line written after it, whatever lines it has. */
  lemma EventEnds(e: Event, rest: string)
    requires e.WellFormed()
    ensures var s := e.Text() + rest;
            FindFrameEnd(s) == Boundary(|FrameText(e.lines)|, |BlankLine(e.crlf)|)
            && s[..|FrameText(e.lines)|] == FrameText(e.lines) && s[|FrameText(e.lines)| + |BlankLine(e.crlf)|..] == rest
  {
    FrameEnds(e.lines, e.crlf, rest);
    Assoc(FrameText(e.lines), BlankLine(e.crlf), rest);
    CutMiddle(e.Text(), rest);
    CutMiddle(FrameText(e.lines), BlankLine(e.crlf) + rest);
  }

  /** The usual event: one line with terminated records. */
  function Usual(records: seq<Value>, crlf: bool): Event {
    Event([DataLine(1, Terminated(Texts(records), RECORD_SEPARATOR), 0)], records, Some(""), crlf)
  }

  lemma {:induction false} TerminatedIsSingleLine(texts: seq<string>)
    requires forall t :: t in texts ==> SingleLine(t)
    ensures SingleLine(Terminated(texts, RECORD_SEPARATOR))
  {
    if texts != [] {
      assert texts[0] in texts;
      TerminatedIsSingleLine(texts[1..]);
    }
  }

  lemma {:induction false} TextsAreSingleLines(records: seq<Value>)
    requires forall v :: v in records ==> SingleLine(v.Text())
    ensures forall t :: t in Texts(records) ==> SingleLine(t)
  {
    if records != [] {
      assert records[0] in records;
      TextsAreSingleLines(records[1..]);
    }
  }

  lemma ObjectStarts(v: Value)
    requires v.WellFormed() && v.IsObject()
    ensures v.Text() != "" && v.Text()[0] == '{'
  {
  }

  /** Events as a server writes them are well formed. */
  lemma UsualIsWellFormed(records: seq<Value>, crlf: bool)
    requires records != []
    requires forall v :: v in records ==> v.WellFormed() && v.IsObject() && SingleLine(v.Text())
    ensures Usual(records, crlf).WellFormed()
    ensures FrameText(Usual(records, crlf).lines) == "data: " + Terminated(Texts(records), RECORD_SEPARATOR)
  {
    var data := Terminated(Texts(records), RECORD_SEPARATOR);
    TextsAreSingleLines(records);
    TerminatedIsSingleLine(Texts(records));
    TerminatedIsJoin(Texts(records), RECORD_SEPARATOR);
    assert records[0] in records;
    ObjectStarts(records[0]);
    UsualLine(data);
    Empty(data);
  }

  lemma UsualLine(data: string)
    requires data != "" && data[0] != ' ' && SingleLine(data)
    ensures var lines := [DataLine(1, data, 0)];
            InFrame(lines) && DataOf(lines) == data && FrameText(lines) == "data: " + data
  {
    var l := DataLine(1, data, 0);
    assert l.Content() == "data: " + data by {
      assert Repeat(' ', 1) == " ";
    }
    assert l.Text() == l.Content();
    assert LineTexts([l]) == [l.Text()];
  }

  /** A comment, as servers send it to keep a connection alive, is a well-formed event without records. */
  lemma CommentIsWellFormed(comment: string, crlf: bool)
    requires SingleLine(comment)
    ensures var e := Event([Other(":" + comment, 0)], [], None, crlf);
            e.WellFormed() && e.Text() == ":" + comment + BlankLine(crlf)
  {
    var l := Other(":" + comment, 0);
    assert l.Text() == l.Content();
    assert LineTexts([l]) == [l.Text()];
  }

  /** A stream of events delivers the joined records of each that has any, in order, and skips the others. */
  lemma {:induction false} EventsDeliver(events: seq<Event>)
    requires forall e :: e in events ==> e.WellFormed()
    ensures Outcome(EventsText(events)) == Delivery(Joined(events), true)
  {
    var stream := EventsText(events);
    if events != [] {
      var e := events[0];
      assert e in events;
      EventEnds(e, EventsText(events[1..]));
      EventReads(e);
      EventsDeliver(events[1..]);
    }
    DeliverTurn(stream);
  }

  /** An event cut anywhere holds no boundary yet. */
  lemma CutEventWaits(e: Event, cut: nat)
    requires e.WellFormed() && cut < |e.Text()|
    ensures FindFrameEnd(e.Text()[..cut]) == NoBoundary
  {
    EventEnds(e, "");
    Empty(e.Text());
    Rejoin(e.Text(), cut);
    if FindFrameEnd(e.Text()[..cut]) != NoBoundary {
      FrameEndStable(e.Text()[..cut], e.Text()[cut..]);
      assert false;
    }
  }

  /** Events, then a cut event, deliver what the events deliver. */
  lemma CutEventsDeliver(events: seq<Event>, last: Event, cut: nat)
    requires forall e :: e in events ==> e.WellFormed()
    requires last.WellFormed() && cut < |last.Text()|
    ensures Outcome(EventsText(events) + last.Text()[..cut]) == Delivery(Joined(events), true)
  {
    var tail := last.Text()[..cut];
    CutEventWaits(last, cut);
    EventsDeliver(events);
    CutAppend(EventsText(events), tail);
    EventsLeaveNothing(events);
    Empty(tail);
    Empty(CutFrames(EventsText(events)).frames);
  }

  lemma {:induction false} EventsLeaveNothing(events: seq<Event>)
    requires forall e :: e in events ==> e.WellFormed()
    ensures CutFrames(EventsText(events)).rest == ""
  {
    if events != [] {
      var e := events[0];
      assert e in events;
      EventEnds(e, EventsText(events[1..]));
      EventsLeaveNothing(events[1..]);
      CutFirst(EventsText(events), |FrameText(e.lines)|, |BlankLine(e.crlf)|);
    }
  }

  /** The messages in one delivered text are those of its records. */
  function MessagesOf<M>(codec: Hub.Codec<M>, texts: seq<string>): Option<seq<M>> {
    if texts == [] then Some([]) else
    match (Hub.Messages(codec, texts[0]), MessagesOf(codec, texts[1..]))
    case (Some(x), Some(y)) => Some(x + y)
    case _ => None
  }

  lemma {:induction false} JoinedMessages<M>(codec: Hub.Codec<M>, events: seq<Event>)
    requires forall e :: e in events ==> e.WellFormed()
    ensures MessagesOf(codec, Joined(events)) == Hub.LoadAll(codec, AllRecords(events))
  {
    if events != [] {
      var texts := Texts(events[0].records);
      assert events[0] in events;
      JoinedMessages(codec, events[1..]);
      if texts == [] {
        Empty(Joined(events[1..]));
        Empty(AllRecords(events[1..]));
      } else {
        TextsAreObjects(events[0].records);
        assert forall t :: t in texts ==> IsObjectText(t);
        Hub.RecordsOfJoin(texts);
        Hub.LoadAllAppend(codec, texts, AllRecords(events[1..]));
        ConsTail(Join(texts, RECORD_SEPARATOR), Joined(events[1..]));
      }
    }
  }

  /** A body: event bytes as they are, or in chunks of which the last is cut. */
  datatype Body = Plain(data: string) | Chunked(chunks: seq<Chunk>, last: Chunk, cut: nat) {
    predicate WellFormed() {
      Chunked? ==> (forall c :: c in chunks ==> c.WellFormed()) && last.WellFormed() && cut < |last.Text()|
    }

    function Text(): string
      requires WellFormed()
    {
      match this
      case Plain(data) => data
      case Chunked(chunks, last, cut) => ChunksText(chunks) + last.Text()[..cut]
    }

    function Data(): string {
      match this
      case Plain(data) => data
      case Chunked(chunks, _, _) => ChunksData(chunks)
    }
  }

  /** A streaming response that has carried the events so far, those without records among them, and a part of the next. */
  predicate Carries(headers: string, body: Body, events: seq<Event>, next: Event, part: nat) {
    && Find(headers + CRLF_CRLF, CRLF_CRLF) == |headers|
    && Find(headers, "200") != -1 && SaysChunked(headers) == body.Chunked?
    && body.WellFormed()
    && (forall e :: e in events ==> e.WellFormed())
    && next.WellFormed() && part < |next.Text()|
    && body.Data() == EventsText(events) + next.Text()[..part]
  }

  lemma CarriedEvents(headers: string, body: Body, events: seq<Event>, next: Event, part: nat)
    requires Carries(headers, body, events, next, part)
    ensures var r := CutResponse(headers + CRLF_CRLF + body.Text());
            Streams(r) && Outcome(Events(r)) == Delivery(Joined(events), true)
  {
    FindStable(headers + CRLF_CRLF, body.Text(), CRLF_CRLF);
    CutMiddle(headers + CRLF_CRLF, body.Text());
    Assoc(headers, CRLF_CRLF, body.Text());
    CutMiddle(headers, CRLF_CRLF + body.Text());
    if body.Chunked? {
      ChunksDecode(body.chunks, body.last, body.cut);
    }
    CutEventsDeliver(events, next, part);
  }

  /**
   End to end: however the records were grouped into events and the events into lines, whatever
   comments and other frames stand between them, the events coded in chunks or not and cut off anywhere, and
   however the connection cut the bytes, the client delivers texts whose messages are those of the
   records of the complete events.
   */
  method ReceiveRecords<M>(client: SseClient, codec: Hub.Codec<M>, ghost headers: string, ghost body: Body,
                           ghost events: seq<Event>, ghost next: Event, ghost part: nat)
    requires Carries(headers, body, events, next, part)
    requires client.sock.Valid() && client.buffer == "" && client.rawBuffer == "" && client.delivered == []
    requires Concat(client.sock.incoming) == headers + CRLF_CRLF + body.Text()
    modifies client, client.sock
    ensures client.delivered == Joined(events)
    ensures MessagesOf(codec, client.delivered) == Hub.LoadAll(codec, AllRecords(events))
  {
    CarriedEvents(headers, body, events, next, part);
    var _ := client.Session();
    JoinedMessages(codec, events);
  }
}
