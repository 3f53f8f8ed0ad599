/**
 The receiving half of the SSE client over a socket that hands out the stream in arbitrary
 pieces, proved to deliver what cutting the whole stream at once delivers.
 */
module SseClient {
  import opened Seqs
  import opened Text
  import opened ChunkedCoding
  import opened JsonScanner
  import opened SseFrames

  /** A connected socket: the successive results of `recv`, then end of file. */
  class Socket {
    var incoming: seq<string>

    ghost predicate Valid()
      reads this
    {
      forall p :: p in incoming ==> p != ""
    }

    /** `recv` returns the empty string only at end of file. */
    method Recv() returns (piece: string)
      requires Valid()
      modifies this
      ensures Valid()
      ensures if old(incoming) == [] then piece == "" && incoming == []
              else piece == old(incoming)[0] && piece != "" && incoming == old(incoming)[1..]
    {
      if incoming == [] {
        piece := "";
      } else {
        piece := incoming[0];
        assert piece in incoming;
        assert forall p :: p in incoming[1..] ==> p in incoming;
        incoming := incoming[1..];
      }
    }
  }

  /** The bytes the pieces still to come will add to the event buffer before the stream is found closed. */
  function Arriving(chunked: bool, raw: string, pieces: seq<string>): string
    decreases |pieces|
  {
    if pieces == [] then ""
    else if !chunked then pieces[0] + Arriving(chunked, raw, pieces[1..])
    else
      var d := Decode(raw + pieces[0]);
      if d.terminal then "" else d.data + Arriving(chunked, d.rest, pieces[1..])
  }

  /** What the piece that carries the zero chunk decodes to, which the client drops. */
  function Dropped(raw: string, pieces: seq<string>): string
    decreases |pieces|
  {
    if pieces == [] then ""
    else
      var d := Decode(raw + pieces[0]);
      if d.terminal then d.data else Dropped(d.rest, pieces[1..])
  }

  /** One-shot decoding of the whole body is what arrives piece by piece, then what is dropped. */
  lemma {:induction false} ArrivingThenDropped(raw: string, pieces: seq<string>)
    requires NextChunk(raw).Wait?
    ensures Decode(raw + Concat(pieces)).data == Arriving(true, raw, pieces) + Dropped(raw, pieces)
    ensures !Decode(raw + Concat(pieces)).terminal ==> Dropped(raw, pieces) == ""
    decreases |pieces|
  {
    if pieces == [] {
      Empty(raw);
      Empty<char>("");
    } else {
      var d := Decode(raw + pieces[0]);
      var more := Concat(pieces[1..]);
      Assoc(raw, pieces[0], more);
      DecodeAppend(raw + pieces[0], more);
      if d.terminal {
        Empty(d.data);
      } else {
        DecodeSettles(raw + pieces[0]);
        ArrivingThenDropped(d.rest, pieces[1..]);
        Assoc(d.data, Arriving(true, d.rest, pieces[1..]), Dropped(d.rest, pieces[1..]));
      }
    }
  }

  /** Without chunking the pieces arrive as they are. */
  lemma {:induction false} ArrivingPlain(raw: string, pieces: seq<string>)
    ensures Arriving(false, raw, pieces) == Concat(pieces)
  {
    if pieces != [] {
      ArrivingPlain(raw, pieces[1..]);
    }
  }

  /** The event stream a body stands for. */
  function BodyData(chunked: bool, body: string): string {
    if chunked then Decode(body).data else body
  }

  /** No zero chunk has closed the body yet. */
  predicate Open(chunked: bool, body: string) {
    chunked ==> !Decode(body).terminal
  }

  /** Segmentation independence: pieces that make up an open body add exactly the body's data. */
  lemma ArrivingIsBodyData(chunked: bool, raw: string, pieces: seq<string>)
    requires NextChunk(raw).Wait? && (!chunked ==> raw == "")
    requires Open(chunked, raw + Concat(pieces))
    ensures Arriving(chunked, raw, pieces) == BodyData(chunked, raw + Concat(pieces))
  {
    if chunked {
      ArrivingThenDropped(raw, pieces);
      Empty(Arriving(true, raw, pieces));
    } else {
      ArrivingPlain(raw, pieces);
      Empty(Concat(pieces));
    }
  }

  /** Body bytes that came with the headers and bytes that come later make up the body together. */
  lemma RescuedThenArriving(chunked: bool, rescued: string, pieces: seq<string>)
    requires Open(chunked, rescued + Concat(pieces))
    ensures var body := rescued + Concat(pieces);
            if chunked then
              var d := Decode(rescued);
              !d.terminal && d.data + Arriving(true, d.rest, pieces) == BodyData(true, body)
            else
              rescued + Arriving(false, "", pieces) == body
  {
    if chunked {
      DecodeAppend(rescued, Concat(pieces));
      DecodeSettles(rescued);
      ArrivingIsBodyData(true, Decode(rescued).rest, pieces);
    } else {
      ArrivingPlain("", pieces);
    }
  }

  /**
   With a zero chunk in the stream, the frames read are all the frames of the body iff the
   bytes dropped with the zero chunk complete no frame.
   */
  lemma ClosingPieceLosesFrames(buffer: string, pieces: seq<string>)
    ensures var live := CutFrames(buffer + Arriving(true, "", pieces));
            var all := CutFrames(buffer + Decode(Concat(pieces)).data);
            live.frames <= all.frames
            && (live.frames == all.frames <==> FindFrameEnd(live.rest + Dropped("", pieces)).NoBoundary?)
  {
    var arriving, dropped := Arriving(true, "", pieces), Dropped("", pieces);
    Empty(Concat(pieces));
    ArrivingThenDropped("", pieces);
    Assoc(buffer, arriving, dropped);
    CutAppend(buffer + arriving, dropped);
    FramesGrow(CutFrames(buffer + arriving).frames, CutFrames(CutFrames(buffer + arriving).rest + dropped).frames);
  }

  lemma FramesGrow(a: seq<string>, b: seq<string>)
    ensures a <= a + b && (a == a + b <==> b == [])
  {
    Empty(a);
  }

  const ZERO_CHUNK: string := "0\r\n" + CRLF

  /**
   One stream, two segmentations, different frames: a frame that a last chunk completes is read
   when the zero chunk comes in a piece of its own, and lost when both come in one piece.
   */
  lemma SegmentationMattersAtTheEnd(c: Chunk)
    requires c.WellFormed() && FindFrameEnd(c.data).Boundary?
    ensures var one, two := [c.Text() + ZERO_CHUNK], [c.Text(), ZERO_CHUNK];
            && Concat(one) == Concat(two)
            && CutFrames(Arriving(true, "", one)).frames == []
            && CutFrames(Arriving(true, "", two)).frames == CutFrames(c.data).frames != []
  {
    OnePieceDrops(c);
    TwoPiecesKeep(c);
  }

  lemma OnePieceDrops(c: Chunk)
    requires c.WellFormed()
    ensures Concat([c.Text() + ZERO_CHUNK]) == c.Text() + ZERO_CHUNK
    ensures Arriving(true, "", [c.Text() + ZERO_CHUNK]) == ""
  {
    PlainZeroChunk(CRLF);
    Empty(ZERO_CHUNK);
    ChunkDecodes(c, ZERO_CHUNK);
    Empty(c.Text() + ZERO_CHUNK);
  }

  lemma TwoPiecesKeep(c: Chunk)
    requires c.WellFormed()
    ensures Concat([c.Text(), ZERO_CHUNK]) == c.Text() + ZERO_CHUNK
    ensures Arriving(true, "", [c.Text(), ZERO_CHUNK]) == c.data
  {
    Empty(ZERO_CHUNK);
    PlainZeroChunk(CRLF);
    ChunkDecodes(c, "");
    Empty(c.Text());
    Empty(c.data);
    ArrivingInTwo(c.Text(), ZERO_CHUNK);
  }

  lemma ArrivingCons(raw: string, piece: string, pieces: seq<string>)
    ensures Arriving(true, raw, [piece] + pieces)
            == var d := Decode(raw + piece);
               if d.terminal then "" else d.data + Arriving(true, d.rest, pieces)
  {
    ConsTail(piece, pieces);
  }

  lemma ArrivingInTwo(a: string, b: string)
    requires !Decode(a).terminal && Decode(Decode(a).rest + b).terminal
    ensures Concat([a, b]) == a + b
    ensures Arriving(true, "", [a, b]) == Decode(a).data
  {
    assert [a, b] == [a] + [b] && [b] == [b] + [];
    ArrivingCons("", a, [b]);
    ArrivingCons(Decode(a).rest, b, []);
    Empty(a);
    Empty(b);
    Empty(Decode(a).data);
    ConcatAppend([a], [b]);
  }

  datatype Received = Frame(result: FrameResult) | Closed

  datatype Handshake = Connected | HandshakeFailed | ClosedEarly

  const CRLF_CRLF: string := "\r\n\r\n"

  function LowerChar(c: char): char {
    if 'A' <= c <= 'Z' then c + ('a' - 'A') else c
  }

  function Lower(s: string): (t: string)
    ensures |t| == |s|
  {
    if s == "" then "" else [LowerChar(s[0])] + Lower(s[1..])
  }

  /** The header block announces chunked transfer coding. */
  predicate SaysChunked(headers: string) {
    Find(Lower(headers), "transfer-encoding: chunked") != -1
  }

  /** The header field in the letter case of the standard. */
  const CHUNKED_FIELD: string := "Transfer-Encoding: chunked"

  /** The same character, letter case aside. */
  predicate SameLetter(c: char, d: char) {
    c == d || ('A' <= c <= 'Z' && d as int == c as int + 32) || ('A' <= d <= 'Z' && c as int == d as int + 32)
  }

  lemma LetterCase(c: char, d: char)
    ensures SameLetter(c, d) <==> LowerChar(c) == LowerChar(d)
  {
  }

  lemma {:induction false} LowerAt(s: string, k: nat)
    requires k < |s|
    ensures Lower(s)[k] == LowerChar(s[k])
  {
    if k > 0 {
      LowerAt(s[1..], k - 1);
    }
  }

  /** The field stands at `i`, in whatever letter case. */
  predicate FieldAt(headers: string, i: int) {
    0 <= i <= |headers| - |CHUNKED_FIELD| &&
    forall k :: 0 <= k < |CHUNKED_FIELD| ==> SameLetter(headers[i + k], CHUNKED_FIELD[k])
  }

  lemma LowerField(pattern: string)
    requires pattern == "transfer-encoding: chunked"
    ensures |pattern| == |CHUNKED_FIELD|
    ensures forall k :: 0 <= k < |CHUNKED_FIELD| ==> LowerChar(CHUNKED_FIELD[k]) == pattern[k]
  {
  }

  lemma OccursIff(headers: string, pattern: string, i: int)
    requires |pattern| == |CHUNKED_FIELD|
    requires forall k :: 0 <= k < |CHUNKED_FIELD| ==> LowerChar(CHUNKED_FIELD[k]) == pattern[k]
    ensures OccursAt(Lower(headers), pattern, i) <==> FieldAt(headers, i)
  {
    if 0 <= i <= |headers| - |pattern| {
      var part := Lower(headers)[i..i + |pattern|];
      forall k | 0 <= k < |pattern|
        ensures part[k] == pattern[k] <==> SameLetter(headers[i + k], CHUNKED_FIELD[k])
      {
        LowerAt(headers, i + k);
        LetterCase(headers[i + k], CHUNKED_FIELD[k]);
      }
      assert part == pattern <==> forall k :: 0 <= k < |pattern| ==> part[k] == pattern[k];
    }
  }

  /** A header block announces chunks iff the field stands in it somewhere, in whatever letter case. */
  lemma SaysChunkedIff(headers: string)
    ensures SaysChunked(headers) <==> exists i :: FieldAt(headers, i)
  {
    var pattern := "transfer-encoding: chunked";
    LowerField(pattern);
    var r := Find(Lower(headers), pattern);
    OccursIff(headers, pattern, r);
    if i :| FieldAt(headers, i) {
      OccursIff(headers, pattern, i);
    }
  }

  /** An HTTP response cut at the end of its headers. */
  datatype Response = Incomplete | Response(headers: string, body: string)

  function CutResponse(whole: string): Response {
    var end := Find(whole, CRLF_CRLF);
    if end == -1 then Incomplete else Response(whole[..end], whole[end + 4..])
  }

  lemma ResponseStable(response: string, later: string)
    requires CutResponse(response).Response?
    ensures var r := CutResponse(response);
            CutResponse(response + later) == Response(r.headers, r.body + later)
  {
    var end := Find(response, CRLF_CRLF);
    FindStable(response, later, CRLF_CRLF);
    CutLeft(response, later, end);
    CutLeft(response, later, end + 4);
  }

  /** A successful response whose body no zero chunk has closed yet. */
  predicate Streams(r: Response) {
    r.Response? && Find(r.headers, "200") != -1 && Open(SaysChunked(r.headers), r.body)
  }

  /** The event stream of a response. */
  function Events(r: Response): string
    requires r.Response?
  {
    BodyData(SaysChunked(r.headers), r.body)
  }

  lemma StatusInHeaders(response: string)
    requires CutResponse(response).Response?
    ensures Find(CutResponse(response).headers, "200") != -1 ==> Find(response, "200") != -1
  {
    var end := Find(response, CRLF_CRLF);
    Rejoin(response, end);
    if Find(response[..end], "200") != -1 {
      FindStable(response[..end], response[end..], "200");
    }
  }

  /** What reading the header block takes off the connection. */
  datatype Opening = Unopened | Opened(response: string, later: seq<string>)

  function OpenWith(response: string, pieces: seq<string>): Opening
    decreases |pieces|
  {
    if Find(response, CRLF_CRLF) != -1 then Opened(response, pieces)
    else if pieces == [] then Unopened
    else OpenWith(response + pieces[0], pieces[1..])
  }

  lemma {:induction false} OpenWithKeeps(response: string, pieces: seq<string>)
    ensures match OpenWith(response, pieces)
            case Unopened => Find(response + Concat(pieces), CRLF_CRLF) == -1
            case Opened(r, later) =>
              r + Concat(later) == response + Concat(pieces) && Find(r, CRLF_CRLF) != -1
    decreases |pieces|
  {
    if pieces == [] {
      Empty(response);
    } else if Find(response, CRLF_CRLF) == -1 {
      OpenWithKeeps(response + pieces[0], pieces[1..]);
      Assoc(response, pieces[0], Concat(pieces[1..]));
    }
  }

  /** What follows the header block of a response. */
  function BodyOf(response: string): string
    requires Find(response, CRLF_CRLF) != -1
  {
    response[Find(response, CRLF_CRLF) + 4..]
  }

  predicate IsChunked(response: string)
    requires Find(response, CRLF_CRLF) != -1
  {
    SaysChunked(response[..Find(response, CRLF_CRLF)])
  }

  /** The event bytes a connection adds up to: the body bytes read with the headers come as a first piece. */
  function StreamOf(response: string, later: seq<string>): string
    requires Find(response, CRLF_CRLF) != -1
  {
    Arriving(IsChunked(response), "", [BodyOf(response)] + later)
  }

  /** How connecting ends, by what was read up to and with the end of the headers. */
  function ConnectOutcome(response: string): Handshake
    requires Find(response, CRLF_CRLF) != -1
  {
    if Find(response, "200") == -1 then HandshakeFailed
    else if IsChunked(response) && Decode(BodyOf(response)).terminal then ClosedEarly
    else Connected
  }

  /**
   What a connection comes to, for every sequence of pieces: how connecting ends, and what is
   delivered. The status is looked for in all that was read with the headers, body bytes included.
   */
  function SessionOutcome(pieces: seq<string>): (Handshake, seq<string>) {
    var opening := OpenWith("", pieces);
    if opening == Unopened then (HandshakeFailed, []) else
    OpenWithKeeps("", pieces);
    (ConnectOutcome(opening.response),
     if ConnectOutcome(opening.response) != Connected then []
     else Outcome(StreamOf(opening.response, opening.later)).texts)
  }

  lemma SessionOpened(pieces: seq<string>, response: string, later: seq<string>)
    requires OpenWith("", pieces) == Opened(response, later)
    ensures Find(response, CRLF_CRLF) != -1
    ensures SessionOutcome(pieces).0 == ConnectOutcome(response)
    ensures ConnectOutcome(response) != Connected ==> SessionOutcome(pieces).1 == []
    ensures ConnectOutcome(response) == Connected ==>
              SessionOutcome(pieces).1 == Outcome(StreamOf(response, later)).texts
  {
    OpenWithKeeps("", pieces);
  }

  lemma EmptyStream()
    ensures Outcome("") == Delivery([], true)
  {
    DeliverTurn("");
  }

  /** A first piece, decoded, and the pieces after it. */
  lemma FirstPiece(chunked: bool, first: string, later: seq<string>)
    ensures Arriving(chunked, "", [first] + later)
            == if !chunked then first + Arriving(false, "", later)
               else if Decode(first).terminal then ""
               else Decode(first).data + Arriving(true, Decode(first).rest, later)
  {
    ConsTail(first, later);
    Empty(first);
  }

  /** The parts of a response, from what was read up to and with the end of its headers. */
  lemma OpenedResponse(response: string, later: seq<string>)
    requires Find(response, CRLF_CRLF) != -1
    ensures var r := CutResponse(response + Concat(later));
            && r.Response? && r.body == BodyOf(response) + Concat(later)
            && SaysChunked(r.headers) == IsChunked(response)
            && (Find(r.headers, "200") != -1 ==> Find(response, "200") != -1)
  {
    ResponseStable(response, Concat(later));
    StatusInHeaders(response);
  }

  /** A response with a body that no zero chunk has closed: what is delivered is that of the whole body. */
  lemma OpenSession(pieces: seq<string>)
    requires Streams(CutResponse(Concat(pieces)))
    ensures SessionOutcome(pieces) == (Connected, Outcome(Events(CutResponse(Concat(pieces)))).texts)
    ensures var opening := OpenWith("", pieces);
            && opening.Opened? && Find(opening.response, CRLF_CRLF) != -1
            && StreamOf(opening.response, opening.later) == Events(CutResponse(Concat(pieces)))
  {
    OpenWithKeeps("", pieces);
    Empty(Concat(pieces));
    var opening := OpenWith("", pieces);
    var response, later := opening.response, opening.later;
    OpenedResponse(response, later);
    RescuedThenArriving(IsChunked(response), BodyOf(response), later);
    FirstPiece(IsChunked(response), BodyOf(response), later);
  }

  /** What the bytes dropped with the zero chunk would still have delivered. */
  function Lost(pieces: seq<string>): seq<string> {
    Outcome(CutFrames(Arriving(true, "", pieces)).rest + Dropped("", pieces)).texts
  }

  /** Pieces with a zero chunk: what arrives delivers the beginning of what all of them would. */
  lemma ClosedPieces(pieces: seq<string>)
    ensures var live, all := Outcome(Arriving(true, "", pieces)), Outcome(Decode(Concat(pieces)).data);
            && all.texts == live.texts + (if live.ok then Lost(pieces) else [])
            && (live.texts == all.texts <==> !live.ok || Lost(pieces) == [])
  {
    var arriving, dropped := Arriving(true, "", pieces), Dropped("", pieces);
    Empty(Concat(pieces));
    ArrivingThenDropped("", pieces);
    CutAppend(arriving, dropped);
    DeliverSplits(CutFrames(arriving).frames, CutFrames(CutFrames(arriving).rest + dropped).frames);
    Empty(Outcome(arriving).texts);
  }

  /**
   A chunked response, closed or not: what is delivered is the beginning of what the whole body
   stands for, and all of it iff nothing was lost with the zero chunk, or a malformed frame had
   ended the receive loop before.
   */
  lemma ClosedSession(pieces: seq<string>)
    requires var r := CutResponse(Concat(pieces));
             r.Response? && Find(r.headers, "200") != -1 && SaysChunked(r.headers)
    ensures var opening := OpenWith("", pieces);
            var all := Outcome(Events(CutResponse(Concat(pieces)))).texts;
            && opening.Opened? && Find(opening.response, CRLF_CRLF) != -1
            && SessionOutcome(pieces).1 <= all
            && (SessionOutcome(pieces).1 == all
                <==> !Outcome(StreamOf(opening.response, opening.later)).ok
                     || Lost([BodyOf(opening.response)] + opening.later) == [])
  {
    OpenWithKeeps("", pieces);
    Empty(Concat(pieces));
    var opening := OpenWith("", pieces);
    var response, later := opening.response, opening.later;
    OpenedResponse(response, later);
    ConsTail(BodyOf(response), later);
    ClosedPieces([BodyOf(response)] + later);
    SessionOpened(pieces, response, later);
    FirstPiece(IsChunked(response), BodyOf(response), later);
    EmptyStream();
  }

  // ---- Where the status is looked for ----

  /** The result of connecting is a failed handshake. */
  predicate Fails(pieces: seq<string>) {
    SessionOutcome(pieces).0 == HandshakeFailed
  }

  /** Some way in which a connection hands out a response: no piece is empty. */
  ghost predicate Segments(pieces: seq<string>, whole: string) {
    Concat(pieces) == whole && forall p :: p in pieces ==> p != ""
  }

  /** A response up to and with the end of its headers. */
  function HeaderBlock(whole: string): string
    requires Find(whole, CRLF_CRLF) != -1
  {
    whole[..Find(whole, CRLF_CRLF) + 4]
  }

  lemma HeaderBlockEnds(whole: string)
    requires Find(whole, CRLF_CRLF) != -1
    ensures Find(HeaderBlock(whole), CRLF_CRLF) == Find(whole, CRLF_CRLF)
    ensures HeaderBlock(whole) + BodyOf(whole) == whole
  {
    var end, block := Find(whole, CRLF_CRLF), HeaderBlock(whole);
    Rejoin(whole, end + 4);
    assert block[end..end + 4] == whole[end..end + 4];
    forall j | 0 <= j < end
      ensures !OccursAt(block, CRLF_CRLF, j)
    {
      assert !OccursAt(whole, CRLF_CRLF, j);
      assert j + 4 <= |block| ==> block[j..j + 4] == whole[j..j + 4];
    }
    FindIs(block, CRLF_CRLF, end);
  }

  /** A response without the status anywhere is refused, however it is cut. */
  lemma NoStatusFails(pieces: seq<string>)
    requires Find(Concat(pieces), "200") == -1
    ensures SessionOutcome(pieces) == (HandshakeFailed, [])
  {
    OpenWithKeeps("", pieces);
    Empty(Concat(pieces));
    var opening := OpenWith("", pieces);
    if opening.Opened? && Find(opening.response, "200") != -1 {
      FindStable(opening.response, Concat(opening.later), "200");
    }
  }

  /** A response with the status in its headers is not refused, however it is cut. */
  lemma StatusInHeaderBlock(pieces: seq<string>)
    requires Find(Concat(pieces), CRLF_CRLF) != -1 && Find(HeaderBlock(Concat(pieces)), "200") != -1
    ensures !Fails(pieces)
  {
    OpenWithKeeps("", pieces);
    Empty(Concat(pieces));
    var opening := OpenWith("", pieces);
    var response := opening.response;
    FindStable(response, Concat(opening.later), CRLF_CRLF);
    CutLeft(response, Concat(opening.later), Find(response, CRLF_CRLF) + 4);
    assert HeaderBlock(response) == HeaderBlock(Concat(pieces));
    HeaderBlockEnds(response);
    FindStable(HeaderBlock(response), BodyOf(response), "200");
  }

  lemma OpenInOne(first: string, later: seq<string>)
    requires Find(first, CRLF_CRLF) != -1
    ensures OpenWith("", [first] + later) == Opened(first, later)
  {
    ConsTail(first, later);
    Empty(first);
    assert Find("", CRLF_CRLF) == -1;
  }

  lemma ConcatOne(piece: string)
    ensures Concat([piece] + []) == piece
  {
    ConsTail(piece, []);
    Empty(piece);
  }

  lemma ConcatTwo(a: string, b: string)
    ensures Concat([a] + ([b] + [])) == a + b
  {
    ConcatOne(b);
    ConsTail(a, [b] + []);
  }

  /** A response with the status in its body only is refused if it is cut behind the headers, and not if it comes whole. */
  lemma StatusInBody(whole: string)
    requires Find(whole, CRLF_CRLF) != -1
    requires Find(HeaderBlock(whole), "200") == -1 && Find(whole, "200") != -1
    ensures var cut, one := [HeaderBlock(whole)] + ([BodyOf(whole)] + []), [whole] + [];
            Segments(cut, whole) && Segments(one, whole) && Fails(cut) && !Fails(one)
  {
    CutBehindHeaders(whole);
    ConcatOne(whole);
    OpenInOne(whole, []);
  }

  lemma CutBehindHeaders(whole: string)
    requires Find(whole, CRLF_CRLF) != -1
    requires Find(HeaderBlock(whole), "200") == -1 && Find(whole, "200") != -1
    ensures var cut := [HeaderBlock(whole)] + ([BodyOf(whole)] + []);
            Segments(cut, whole) && Fails(cut)
  {
    var block, body := HeaderBlock(whole), BodyOf(whole);
    HeaderBlockEnds(whole);
    if body == "" {
      Empty(block);
      assert false;
    }
    ConcatTwo(block, body);
    OpenInOne(block, [body] + []);
  }

  /**
   Whether the handshake fails does not depend on how a response is cut iff the status is in its
   headers or nowhere in it.
   */
  lemma StatusIsIndependentIff(whole: string)
    requires Find(whole, CRLF_CRLF) != -1
    ensures (forall p, q :: Segments(p, whole) && Segments(q, whole) ==> (Fails(p) <==> Fails(q)))
            == (Find(HeaderBlock(whole), "200") != -1 || Find(whole, "200") == -1)
  {
    if Find(HeaderBlock(whole), "200") != -1 {
      forall p | Segments(p, whole)
        ensures !Fails(p)
      {
        StatusInHeaderBlock(p);
      }
    } else if Find(whole, "200") == -1 {
      forall p | Segments(p, whole)
        ensures Fails(p)
      {
        NoStatusFails(p);
      }
    } else {
      StatusInBody(whole);
    }
  }

  /** A turn that takes a frame: what it hands on, and what the rest of the stream does. */
  lemma TurnOutcome(stream: string, result: FrameResult, later: string)
    requires var end := FindFrameEnd(stream);
             && end != NoBoundary && result == ReadFrame(stream[..end.index])
             && later == stream[end.index + end.length..]
    ensures |later| < |stream|
    ensures Outcome(stream) == match result
                               case Malformed => Delivery([], false)
                               case Skipped => Onward([], Outcome(later))
                               case Message(text) => Onward([text], Outcome(later))
  {
    DeliverTurn(stream);
  }

  class SseClient {
    const sock: Socket
    var buffer: string
    var rawBuffer: string
    var isChunked: bool
    var running: bool
    var delivered: seq<string>

    constructor (sock: Socket)
      ensures this.sock == sock
      ensures buffer == "" && rawBuffer == "" && !isChunked && !running && delivered == []
    {
      this.sock := sock;
      buffer, rawBuffer, isChunked, running, delivered := "", "", false, false, [];
    }

    /** The event bytes this client has and will get. */
    ghost function Stream(): string
      reads `buffer, `rawBuffer, `isChunked, sock`incoming
    {
      buffer + Arriving(isChunked, rawBuffer, sock.incoming)
    }

    /** One turn of the decoding loop: what stands at the head of the raw buffer is taken off it. */
    method TakeChunk() returns (step: Step)
      modifies `rawBuffer
      ensures step == NextChunk(old(rawBuffer))
      ensures rawBuffer == if step.Blank? || step.Data? then step.rest else old(rawBuffer)
    {
      if rawBuffer == "" {
        return Wait;
      }
      var crlf := Find(rawBuffer, CRLF);
      if crlf == -1 {
        return Wait;
      }
      var size := SizeField(rawBuffer[..crlf]);
      if size == "" {
        rawBuffer := rawBuffer[crlf + 2..];
        return Blank(rawBuffer);
      }
      var parsed := ParseHex(size);
      if parsed == None {
        return Wait;
      }
      if parsed.value == 0 {
        return Terminal;
      }
      var dataStart := crlf + 2;
      var dataEnd := dataStart + parsed.value;
      if |rawBuffer| < dataEnd + 2 {
        return Wait;
      }
      var data := rawBuffer[dataStart..dataEnd];
      rawBuffer := rawBuffer[dataEnd + 2..];
      return Data(data, rawBuffer);
    }

    /** Decodes all complete chunks; `closed` is the raised `SocketClosedError`. */
    method DecodeChunks() returns (closed: bool)
      modifies `buffer, `rawBuffer
      ensures var d := Decode(old(rawBuffer));
              buffer == old(buffer) + d.data && rawBuffer == d.rest && closed == d.terminal
    {
      ghost var target := Decode(rawBuffer);
      ghost var before := "";
      Empty(target.data);
      Empty(buffer);
      while true
        invariant buffer == old(buffer) + before
        invariant target == After(before, Decode(rawBuffer))
        decreases |rawBuffer|
      {
        DecodeTurn(rawBuffer, before);
        var step := TakeChunk();
        match step {
          case Wait => return false;
          case Terminal => return true;
          case Blank(_) =>
          case Data(data, _) =>
            Assoc(old(buffer), before, data);
            before := before + data;
            buffer := buffer + data;
        }
      }
    }

    /** The loop that collects the `data:` fields of a frame. */
    static method CollectData(lines: seq<string>) returns (parts: seq<string>)
      ensures parts == DataParts(lines)
    {
      parts := [];
      ghost var target := DataParts(lines);
      Empty(target);
      for k := 0 to |lines|
        invariant parts + DataParts(lines[k..]) == target
      {
        SkipSkip(lines, k, 1);
        ghost var rest := DataParts(lines[k + 1..]);
        var line := RStrip(lines[k], IsReturn);
        if "data:" <= line {
          Assoc(parts, [LStrip(line[5..], IsPad)], rest);
          parts := parts + [LStrip(line[5..], IsPad)];
        } else {
          Empty(rest);
        }
      }
      Empty(parts);
    }

    /** What a frame taken off the buffer is handed on as. */
    static method ReadEvent(frame: string) returns (result: FrameResult)
      ensures result == ReadFrame(frame)
    {
      var parts := CollectData(Split(frame, '\n'));
      if parts == [] {
        return Skipped;
      }
      var data := Concat(parts);
      if RECORD_SEPARATOR in data {
        data := data[..LastIndex(data, RECORD_SEPARATOR)];
      }
      if data == "" {
        return Skipped;
      }
      var prepared := PrepareData(data);
      if prepared == None {
        return Malformed;
      }
      return Message(prepared.value);
    }

    /** Receives until the buffer holds a whole frame; NoBoundary is the raised `SocketClosedError`. */
    method AwaitFrame() returns (end: Boundary)
      requires sock.Valid()
      modifies `buffer, `rawBuffer, sock
      ensures sock.Valid()
      ensures end == NoBoundary ==> FindFrameEnd(old(Stream())) == NoBoundary
      ensures end != NoBoundary ==> end == FindFrameEnd(buffer) && Stream() == old(Stream())
    {
      end := FindFrameEnd(buffer);
      while end == NoBoundary
        invariant sock.Valid()
        invariant Stream() == old(Stream())
        invariant end == FindFrameEnd(buffer)
        decreases |sock.incoming|
      {
        ghost var start, raw, pieces := buffer, rawBuffer, sock.incoming;
        ghost var later := if pieces == [] then [] else pieces[1..];
        var piece := sock.Recv();
        if piece == "" {
          Empty(buffer);
          return NoBoundary;
        }
        if isChunked {
          rawBuffer := rawBuffer + piece;
          var closed := DecodeChunks();
          if closed {
            Empty(start);
            return NoBoundary;
          }
          Assoc(start, Decode(raw + piece).data, Arriving(true, rawBuffer, later));
        } else {
          Assoc(start, piece, Arriving(false, rawBuffer, later));
          buffer := buffer + piece;
        }
        end := FindFrameEnd(buffer);
      }
    }

    /** One frame of the stream is taken off its head, or the stream holds none and is closed. */
    method RecvFrame() returns (received: Received)
      requires sock.Valid()
      modifies `buffer, `rawBuffer, sock
      ensures sock.Valid()
      ensures var end := FindFrameEnd(old(Stream()));
              if end == NoBoundary then received == Closed
              else
                received == Frame(ReadFrame(old(Stream())[..end.index]))
                && Stream() == old(Stream())[end.index + end.length..]
    {
      var end := AwaitFrame();
      if end == NoBoundary {
        return Closed;
      }
      var frame := buffer[..end.index];
      ghost var arriving := Arriving(isChunked, rawBuffer, sock.incoming);
      FrameEndStable(buffer, arriving);
      CutLeft(buffer, arriving, end.index);
      CutLeft(buffer, arriving, end.index + end.length);
      buffer := buffer[end.index + end.length..];
      var result := ReadEvent(frame);
      return Frame(result);
    }

    /** One turn of the receive loop: what it hands on, and why it ends if it does. */
    method Turn() returns (received: Received, ghost handed: seq<string>)
      requires sock.Valid()
      modifies `buffer, `rawBuffer, `delivered, sock
      ensures sock.Valid() && delivered == old(delivered) + handed
      ensures if received == Closed then Outcome(old(Stream())) == Delivery(handed, true)
              else if received.result == Malformed then Outcome(old(Stream())) == Delivery(handed, false)
              else Outcome(old(Stream())) == Onward(handed, Outcome(Stream())) && |Stream()| < |old(Stream())|
    {
      handed := [];
      Empty(delivered);
      ghost var stream := Stream();
      received := RecvFrame();
      if received == Closed {
        DeliverTurn(stream);
        return;
      }
      TurnOutcome(stream, received.result, Stream());
      if received.result.Message? {
        handed := [received.result.text];
        delivered := delivered + [received.result.text];
      }
    }

    /** The receive loop; it ends with the stream (true) or at the first malformed frame (false). */
    method Run() returns (clean: bool)
      requires sock.Valid() && running
      modifies `buffer, `rawBuffer, `delivered, `running, sock
      ensures var all := Outcome(old(Stream()));
              delivered == old(delivered) + all.texts && clean == all.ok
      ensures !running
    {
      ghost var target := Outcome(Stream());
      ghost var done := [];
      Empty(target.texts);
      Empty(delivered);
      while running
        invariant sock.Valid() && running
        invariant delivered == old(delivered) + done
        invariant target == Onward(done, Outcome(Stream()))
        decreases |Stream()|
      {
        var received, handed := Turn();
        OnwardTwice(done, handed, Outcome(Stream()));
        Assoc(old(delivered), done, handed);
        if received == Closed || received.result == Malformed {
          running := false;
          return received == Closed;
        }
        done := done + handed;
      }
      return true;
    }

    /** Receives until the header block is complete; `complete` is false when the peer closes first. */
    method ReadResponse() returns (response: string, complete: bool)
      requires sock.Valid()
      modifies sock
      ensures sock.Valid()
      ensures response + Concat(sock.incoming) == Concat(old(sock.incoming))
      ensures complete == (Find(response, CRLF_CRLF) != -1)
      ensures !complete ==> response == Concat(old(sock.incoming))
      ensures OpenWith("", old(sock.incoming)) == if complete then Opened(response, sock.incoming) else Unopened
    {
      response := "";
      Empty(Concat(sock.incoming));
      while Find(response, CRLF_CRLF) == -1
        invariant sock.Valid()
        invariant OpenWith("", old(sock.incoming)) == OpenWith(response, sock.incoming)
        invariant response + Concat(sock.incoming) == Concat(old(sock.incoming))
        decreases |sock.incoming|
      {
        ghost var pieces := sock.incoming;
        var piece := sock.Recv();
        if piece == "" {
          Empty(response);
          return response, false;
        }
        Assoc(response, piece, Concat(pieces[1..]));
        response := response + piece;
      }
      return response, true;
    }

    /** Keeps the body bytes that were received with the headers; `closed` is the raised `SocketClosedError`. */
    method Rescue(rescued: string) returns (closed: bool)
      requires buffer == "" && rawBuffer == ""
      modifies `buffer, `rawBuffer
      ensures closed == (isChunked && Decode(rescued).terminal)
      ensures !closed ==> Stream() == Arriving(isChunked, "", [rescued] + sock.incoming)
    {
      FirstPiece(isChunked, rescued, sock.incoming);
      closed := false;
      if rescued != "" {
        if isChunked {
          rawBuffer := rescued;
          closed := DecodeChunks();
          Empty(Decode(rescued).data);
        } else {
          buffer := rescued;
        }
      }
    }

    /** Accepts a response, or not, by its status, and rescues the body bytes read with its headers. */
    method Accept(response: string) returns (outcome: Handshake)
      requires buffer == "" && rawBuffer == ""
      requires Find(response, CRLF_CRLF) != -1
      modifies `buffer, `rawBuffer, `isChunked, `running
      ensures outcome == ConnectOutcome(response)
      ensures outcome == Connected ==> running && Stream() == StreamOf(response, sock.incoming)
    {
      var end := Find(response, CRLF_CRLF);
      if Find(response, "200") == -1 {
        return HandshakeFailed;
      }
      isChunked := SaysChunked(response[..end]);
      var rescued := response[end + 4..];
      assert rescued == BodyOf(response) && isChunked == IsChunked(response);
      var closed := Rescue(rescued);
      if closed {
        return ClosedEarly;
      }
      running := true;
      return Connected;
    }

    /** Reads the response headers and goes on from them. */
    method Connect() returns (outcome: Handshake)
      requires sock.Valid()
      requires buffer == "" && rawBuffer == ""
      modifies `buffer, `rawBuffer, `isChunked, `running, sock
      ensures sock.Valid()
      ensures outcome == SessionOutcome(old(sock.incoming)).0
      ensures outcome != Connected ==> SessionOutcome(old(sock.incoming)).1 == []
      ensures outcome == Connected ==>
                var opening := OpenWith("", old(sock.incoming));
                && running && opening.Opened? && Find(opening.response, CRLF_CRLF) != -1
                && Stream() == StreamOf(opening.response, opening.later)
    {
      ghost var pieces := sock.incoming;
      var response, complete := ReadResponse();
      if !complete {
        return HandshakeFailed;
      }
      SessionOpened(pieces, response, sock.incoming);
      outcome := Accept(response);
    }

    /**
     The life of a connection. While no zero chunk has closed the body, what the hub is handed
     depends only on the headers and the body: not on how the response was cut into pieces, nor
     on how much of the body came with the headers.
     */
    method Session() returns (outcome: Handshake)
      requires sock.Valid()
      requires buffer == "" && rawBuffer == "" && delivered == []
      modifies this, sock
      ensures (outcome, delivered) == SessionOutcome(old(sock.incoming))
      ensures var r := CutResponse(Concat(old(sock.incoming)));
              Streams(r) ==> outcome == Connected && delivered == Outcome(Events(r)).texts
    {
      ghost var pieces := sock.incoming;
      outcome := Connect();
      if outcome == Connected {
        Empty(Outcome(Stream()).texts);
        var _ := Run();
      }
      if Streams(CutResponse(Concat(pieces))) {
        OpenSession(pieces);
      }
    }
  }
}
