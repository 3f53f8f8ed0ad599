/** Event frames: where they end, what text they carry to the hub, and what a byte stream delivers. */
module SseFrames {
  import opened Seqs
  import opened Text
  import opened JsonScanner

  datatype Boundary = NoBoundary | Boundary(index: nat, length: nat)

  /** The first frame boundary, LF LF or CRLF CRLF. */
  function FindFrameEnd(buffer: string): (b: Boundary)
    ensures b.Boundary? ==> b.length > 0 && b.index + b.length <= |buffer|
  {
    var crlf := Find(buffer, "\r\n\r\n");
    var lf := Find(buffer, "\n\n");
    if crlf == -1 && lf == -1 then NoBoundary
    else if crlf == -1 then Boundary(lf, 2)
    else if lf == -1 then Boundary(crlf, 4)
    else if crlf < lf then Boundary(crlf, 4) else Boundary(lf, 2)
  }

  /** Bytes that arrive later never move a boundary already found, although the two patterns compete. */
  lemma FrameEndStable(buffer: string, more: string)
    requires FindFrameEnd(buffer).Boundary?
    ensures FindFrameEnd(buffer + more) == FindFrameEnd(buffer)
  {
    var crlf, lf := Find(buffer, "\r\n\r\n"), Find(buffer, "\n\n");
    var s := buffer + more;
    var c, l := Find(s, "\r\n\r\n"), Find(s, "\n\n");
    OccursInside(buffer, more, "\r\n\r\n", c);
    OccursInside(buffer, more, "\n\n", l);
    if crlf != -1 {
      FindStable(buffer, more, "\r\n\r\n");
    }
    if lf != -1 {
      FindStable(buffer, more, "\n\n");
      assert s[lf + 1] == s[lf..lf + 2][1];
    }
    if c != -1 {
      assert s[c + 2] == s[c..c + 4][2];
    }
  }

  datatype Cut = Cut(frames: seq<string>, rest: string)

  /** All complete frames of a byte stream and what is left. */
  function CutFrames(buffer: string): Cut
    decreases |buffer|
  {
    match FindFrameEnd(buffer)
    case NoBoundary => Cut([], buffer)
    case Boundary(i, n) =>
      var more := CutFrames(buffer[i + n..]);
      Cut([buffer[..i]] + more.frames, more.rest)
  }

  lemma CutFirst(buffer: string, i: nat, n: nat)
    requires FindFrameEnd(buffer) == Boundary(i, n)
    ensures CutFrames(buffer).frames == [buffer[..i]] + CutFrames(buffer[i + n..]).frames
    ensures CutFrames(buffer).rest == CutFrames(buffer[i + n..]).rest
  {
  }

  /** What has been cut, then what cutting the rest with more bytes gives. */
  function CutOn(cut: Cut, more: string): Cut {
    var b := CutFrames(cut.rest + more);
    Cut(cut.frames + b.frames, b.rest)
  }

  lemma CutOnFirst(frame: string, cut: Cut, more: string)
    ensures var c := CutOn(cut, more);
            CutOn(Cut([frame] + cut.frames, cut.rest), more) == Cut([frame] + c.frames, c.rest)
  {
    Assoc([frame], cut.frames, CutFrames(cut.rest + more).frames);
  }

  /** Cutting in two goes is cutting at once. */
  lemma {:induction false} CutAppend(buffer: string, more: string)
    ensures CutFrames(buffer + more) == CutOn(CutFrames(buffer), more)
    decreases |buffer|
  {
    match FindFrameEnd(buffer)
    case NoBoundary =>
      Empty(CutFrames(buffer + more).frames);
    case Boundary(i, n) =>
      FrameEndStable(buffer, more);
      CutLeft(buffer, more, i);
      CutLeft(buffer, more, i + n);
      CutAppend(buffer[i + n..], more);
      CutFirst(buffer, i, n);
      CutFirst(buffer + more, i, n);
      CutOnFirst(buffer[..i], CutFrames(buffer[i + n..]), more);
  }

  /** `data.rindex(c)` */
  function LastIndex(s: string, c: char): (i: nat)
    requires c in s
    ensures i < |s| && s[i] == c && c !in s[i + 1..]
  {
    if s[|s| - 1] == c then |s| - 1
    else
      assert s == s[..|s| - 1] + [s[|s| - 1]];
      var i := LastIndex(s[..|s| - 1], c);
      assert s[i + 1..] == s[..|s| - 1][i + 1..] + [s[|s| - 1]];
      i
  }

  predicate IsReturn(c: char) {
    c == '\r'
  }

  predicate IsPad(c: char) {
    c == ' '
  }

  /** The values of the `data:` fields of a frame, line by line. */
  function DataParts(lines: seq<string>): seq<string> {
    if lines == [] then [] else
    var line := RStrip(lines[0], IsReturn);
    (if "data:" <= line then [LStrip(line[5..], IsPad)] else []) + DataParts(lines[1..])
  }

  /** What a frame carries before the JSON is cut out; None for keep-alives. */
  function EventData(frame: string): Option<string> {
    var parts := DataParts(Split(frame, '\n'));
    if parts == [] then None else
    var data := Concat(parts);
    var kept := if RECORD_SEPARATOR in data then data[..LastIndex(data, RECORD_SEPARATOR)] else data;
    if kept == "" then None else Some(kept)
  }

  function CutAll(parts: seq<string>): (r: Option<seq<string>>)
    ensures r.Some? ==> |r.value| == |parts|
  {
    if parts == [] then Some([]) else
    match (CutObject(parts[0]), CutAll(parts[1..]))
    case (Some(t), Some(ts)) => Some([t] + ts)
    case _ => None
  }

  /** The objects of the records, joined again; None is the `ValueError` of the scanner. */
  function PrepareData(data: string): Option<string> {
    if RECORD_SEPARATOR in data then
      match CutAll(Split(data, RECORD_SEPARATOR))
      case None => None
      case Some(ts) => Some(Join(ts, RECORD_SEPARATOR))
    else
      CutObject(data)
  }

  datatype FrameResult = Skipped | Message(text: string) | Malformed

  function ReadFrame(frame: string): FrameResult {
    match EventData(frame)
    case None => Skipped
    case Some(data) =>
      match PrepareData(data)
      case None => Malformed
      case Some(text) => Message(text)
  }

  datatype Delivery = Delivery(texts: seq<string>, ok: bool)

  function Onward(done: seq<string>, d: Delivery): Delivery {
    Delivery(done + d.texts, d.ok)
  }

  /** What the receive loop hands on: the messages up to the first malformed frame. */
  function Deliver(frames: seq<string>): Delivery {
    if frames == [] then Delivery([], true) else
    match ReadFrame(frames[0])
    case Skipped => Deliver(frames[1..])
    case Malformed => Delivery([], false)
    case Message(text) => Onward([text], Deliver(frames[1..]))
  }

  /** What a byte stream, cut at once, delivers: the reference for the client. */
  function Outcome(stream: string): Delivery {
    Deliver(CutFrames(stream).frames)
  }

  lemma OnwardTwice(a: seq<string>, b: seq<string>, d: Delivery)
    ensures Onward(a, Onward(b, d)) == Onward(a + b, d)
  {
    Assoc(a, b, d.texts);
  }

  /** One turn of the receive loop over a byte stream. */
  lemma DeliverTurn(stream: string)
    ensures var all := Outcome(stream);
            var end := FindFrameEnd(stream);
            if end == NoBoundary then all == Delivery([], true)
            else
              var result := ReadFrame(stream[..end.index]);
              var more := Outcome(stream[end.index + end.length..]);
              && (result.Skipped? ==> all == Onward([], more))
              && (result.Malformed? ==> all == Delivery([], false))
              && (result.Message? ==> all == Onward([result.text], more))
  {
    match FindFrameEnd(stream)
    case NoBoundary =>
    case Boundary(i, n) =>
      var more := CutFrames(stream[i + n..]).frames;
      ConsTail(stream[..i], more);
      Empty(Deliver(more).texts);
  }

  /** Delivering in two goes: the second adds to the first, unless that ended at a malformed frame. */
  lemma {:induction false} DeliverSplits(frames: seq<string>, more: seq<string>)
    ensures var first := Deliver(frames);
            Deliver(frames + more) == if first.ok then Onward(first.texts, Deliver(more)) else first
    decreases |frames|
  {
    if frames == [] {
      Empty(more);
      Empty(Deliver(more).texts);
    } else {
      CutLeft(frames, more, 1);
      DeliverSplits(frames[1..], more);
      if ReadFrame(frames[0]).Message? && Deliver(frames[1..]).ok {
        OnwardTwice([ReadFrame(frames[0]).text], Deliver(frames[1..]).texts, Deliver(more));
      }
    }
  }
}
