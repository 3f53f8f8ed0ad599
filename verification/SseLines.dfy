/** What an event frame means, line by line: an account of frames that does not rest on how they are read. */
module SseLines {
  import opened Seqs
  import opened Text
  import opened JsonScanner
  import opened SseFrames

  function Repeat(c: char, n: nat): string {
    if n == 0 then "" else [c] + Repeat(c, n - 1)
  }

  /** A line: a `data:` field, its value behind any blanks, or anything else; `crs` CRs stand at its end. */
  datatype Line = Other(text: string, crs: nat) | DataLine(blanks: nat, value: string, crs: nat) {
    function Content(): string {
      match this
      case Other(text, _) => text
      case DataLine(blanks, value, _) => "data:" + (Repeat(' ', blanks) + value)
    }

    predicate WellFormed() {
      && '\n' !in Content() && (Content() != "" ==> Content()[|Content()| - 1] != '\r')
      && match this
         case Other(text, _) => !("data:" <= text)
         case DataLine(_, value, _) => value != "" ==> value[0] != ' '
    }

    function Text(): string {
      Content() + Repeat('\r', crs)
    }
  }

  function LineTexts(lines: seq<Line>): (texts: seq<string>)
    ensures |texts| == |lines|
    ensures forall k :: 0 <= k < |lines| ==> texts[k] == lines[k].Text()
  {
    if lines == [] then [] else [lines[0].Text()] + LineTexts(lines[1..])
  }

  predicate AreLines(lines: seq<Line>) {
    lines != [] && forall l :: l in lines ==> l.WellFormed()
  }

  function FrameText(lines: seq<Line>): string {
    Join(LineTexts(lines), '\n')
  }

  /** The data of a frame: the values of its `data:` fields, one behind the other. */
  function DataOf(lines: seq<Line>): string {
    if lines == [] then ""
    else (if lines[0].DataLine? then lines[0].value else "") + DataOf(lines[1..])
  }

  // ---- Lines are read as what they are ----

  lemma {:induction false} RepeatIs(c: char, n: nat)
    ensures |Repeat(c, n)| == n && forall x :: x in Repeat(c, n) ==> x == c
    ensures forall k :: 0 <= k < n ==> Repeat(c, n)[k] == c
  {
    if n > 0 {
      RepeatIs(c, n - 1);
    }
  }

  lemma {:induction false} StripsBlanks(n: nat, value: string)
    requires value != "" ==> value[0] != ' '
    ensures LStrip(Repeat(' ', n) + value, IsPad) == value
  {
    if n == 0 {
      Empty(value);
    } else {
      Assoc([' '], Repeat(' ', n - 1), value);
      ConsTail(' ', Repeat(' ', n - 1) + value);
      StripsBlanks(n - 1, value);
    }
  }

  lemma LineReads(l: Line)
    requires l.WellFormed()
    ensures DataParts([l.Text()]) == if l.DataLine? then [l.value] else []
  {
    RepeatIs('\r', l.crs);
    RStripPadding(l.Content(), Repeat('\r', l.crs), IsReturn);
    assert [l.Text()][1..] == [];
    if l.DataLine? {
      CutMiddle("data:", Repeat(' ', l.blanks) + l.value);
      StripsBlanks(l.blanks, l.value);
    }
  }

  lemma DataPartsCons(first: string, rest: seq<string>)
    ensures DataParts([first] + rest) == DataParts([first]) + DataParts(rest)
  {
    ConsTail(first, rest);
    assert [first][1..] == [];
    var line := RStrip(first, IsReturn);
    Empty(if "data:" <= line then [LStrip(line[5..], IsPad)] else []);
  }

  lemma {:induction false} LinesRead(lines: seq<Line>)
    requires forall l :: l in lines ==> l.WellFormed()
    ensures Concat(DataParts(LineTexts(lines))) == DataOf(lines)
  {
    if lines != [] {
      var l := lines[0];
      assert l in lines;
      LineReads(l);
      DataPartsCons(l.Text(), LineTexts(lines[1..]));
      LinesRead(lines[1..]);
      if l.DataLine? {
        ConsTail(l.value, DataParts(LineTexts(lines[1..])));
      } else {
        Empty(DataParts(LineTexts(lines[1..])));
        Empty(DataOf(lines[1..]));
      }
    }
  }

  lemma SplitsIntoLines(lines: seq<Line>)
    requires AreLines(lines)
    ensures Split(FrameText(lines), '\n') == LineTexts(lines)
  {
    forall t | t in LineTexts(lines)
      ensures '\n' !in t
    {
      var k :| 0 <= k < |lines| && LineTexts(lines)[k] == t;
      assert lines[k] in lines;
      RepeatIs('\r', lines[k].crs);
    }
    SplitJoin(LineTexts(lines), '\n');
  }

  // ---- What a frame means ----

  /** The data in front of its last separator, if there is one; what stands behind it is dropped. */
  predicate Splits(data: string, kept: string, dropped: Option<string>) {
    match dropped
    case None => data == kept && RECORD_SEPARATOR !in data
    case Some(t) => data == kept + [RECORD_SEPARATOR] + t && RECORD_SEPARATOR !in t
  }

  lemma LastIndexIs(kept: string, t: string)
    requires RECORD_SEPARATOR !in t
    ensures LastIndex(kept + [RECORD_SEPARATOR] + t, RECORD_SEPARATOR) == |kept|
  {
    var data := kept + [RECORD_SEPARATOR] + t;
    assert data[|kept|] == RECORD_SEPARATOR;
  }

  lemma DataIsKept(lines: seq<Line>, kept: string, dropped: Option<string>)
    requires AreLines(lines) && Splits(DataOf(lines), kept, dropped)
    ensures EventData(FrameText(lines)) == if kept == "" then None else Some(kept)
  {
    SplitsIntoLines(lines);
    LinesRead(lines);
    if dropped.Some? {
      LastIndexIs(kept, dropped.value);
      CutMiddle(kept, [RECORD_SEPARATOR] + dropped.value);
      Assoc(kept, [RECORD_SEPARATOR], dropped.value);
      assert DataOf(lines)[|kept|] == RECORD_SEPARATOR;
    }
  }

  /** No brace group stands at the first opening brace, or there is none. */
  ghost predicate HasNoGroup(s: string) {
    forall t :: !FirstGroup(s, t)
  }

  /** The brace groups of records, one for each. */
  ghost predicate AreGroups(records: seq<string>, groups: seq<string>) {
    |groups| == |records| && forall k :: 0 <= k < |records| ==> FirstGroup(records[k], groups[k])
  }

  lemma {:induction false} CutAllIff(records: seq<string>)
    ensures CutAll(records).Some? ==> AreGroups(records, CutAll(records).value)
    ensures CutAll(records).None? <==> exists k :: 0 <= k < |records| && HasNoGroup(records[k])
  {
    if records != [] {
      CutAllIff(records[1..]);
      GroupOrNone(records[0]);
      var rest := records[1..];
      assert forall k :: 0 < k < |records| ==> records[k] == rest[k - 1];
      if j :| 0 <= j < |rest| && HasNoGroup(rest[j]) {
        assert HasNoGroup(records[j + 1]);
      }
    }
  }

  lemma GroupOrNone(s: string)
    ensures CutObject(s).None? <==> HasNoGroup(s)
    ensures CutObject(s).Some? ==> FirstGroup(s, CutObject(s).value)
  {
    if CutObject(s).Some? {
      ScannerMeetsGrammar(s, CutObject(s).value);
    } else {
      forall t
        ensures !FirstGroup(s, t)
      {
        ScannerMeetsGrammar(s, t);
      }
    }
  }

  /** A frame read by its records: the groups of all of them, joined again, or nothing if one has none. */
  lemma PreparedRecords(kept: string)
    ensures PrepareData(kept) == match CutAll(Split(kept, RECORD_SEPARATOR))
                                 case None => None
                                 case Some(groups) => Some(Join(groups, RECORD_SEPARATOR))
  {
    if RECORD_SEPARATOR !in kept {
      SplitNone(kept, RECORD_SEPARATOR);
      assert [kept][1..] == [];
      assert CutAll([]) == Some([]);
      if CutObject(kept).Some? {
        Empty([CutObject(kept).value]);
      }
    }
  }

  /**
   What any frame is read as. It is skipped iff its data are empty up to the last separator, as those of
   comments and other fields are. It is malformed iff they are not, and one of its records has no
   brace group. Otherwise it is read as the groups of its records, in order.
   */
  lemma FrameMeaning(lines: seq<Line>, kept: string, dropped: Option<string>)
    requires AreLines(lines) && Splits(DataOf(lines), kept, dropped)
    ensures var result, records := ReadFrame(FrameText(lines)), Split(kept, RECORD_SEPARATOR);
            && (result.Skipped? <==> kept == "")
            && (result.Malformed? <==> kept != "" && exists k :: 0 <= k < |records| && HasNoGroup(records[k]))
            && (result.Message? ==>
                  exists groups :: AreGroups(records, groups) && result.text == Join(groups, RECORD_SEPARATOR))
  {
    DataIsKept(lines, kept, dropped);
    PreparedRecords(kept);
    CutAllIff(Split(kept, RECORD_SEPARATOR));
  }

  // ---- Every frame is made of lines ----

  lemma {:induction false} JoinSplit(s: string, c: char)
    ensures Join(Split(s, c), c) == s
    decreases |s|
  {
    var i := Find(s, [c]);
    if i != -1 {
      JoinSplit(s[i + 1..], c);
      var rest := Split(s[i + 1..], c);
      ConsTail(s[..i], rest);
      assert s[i..i + 1] == [c];
      assert s == s[..i] + [c] + s[i + 1..];
    }
  }

  lemma {:induction false} TrailingReturns(s: string) returns (content: string, n: nat)
    ensures s == content + Repeat('\r', n) && (content != "" ==> content[|content| - 1] != '\r')
    decreases |s|
  {
    if s != "" && s[|s| - 1] == '\r' {
      var m: nat;
      content, m := TrailingReturns(s[..|s| - 1]);
      n := m + 1;
      RepeatIs('\r', m);
      RepeatIs('\r', n);
      assert Repeat('\r', n) == Repeat('\r', m) + ['\r'];
      Assoc(content, Repeat('\r', m), ['\r']);
      assert s == s[..|s| - 1] + ['\r'];
    } else {
      content, n := s, 0;
      Empty(s);
    }
  }

  lemma {:induction false} LeadingBlanks(s: string) returns (n: nat, value: string)
    ensures s == Repeat(' ', n) + value && (value != "" ==> value[0] != ' ')
  {
    if s != "" && s[0] == ' ' {
      var m: nat;
      m, value := LeadingBlanks(s[1..]);
      n := m + 1;
      Assoc([' '], Repeat(' ', m), value);
      Uncons(s);
    } else {
      n, value := 0, s;
      Empty(s);
    }
  }

  lemma EveryLine(s: string) returns (l: Line)
    requires '\n' !in s
    ensures l.WellFormed() && l.Text() == s
  {
    var content, n := TrailingReturns(s);
    assert '\n' !in content;
    if "data:" <= content {
      var blanks, value := LeadingBlanks(content[5..]);
      l := DataLine(blanks, value, n);
      assert content == "data:" + content[5..];
    } else {
      l := Other(content, n);
    }
  }

  lemma {:induction false} EveryLines(parts: seq<string>) returns (lines: seq<Line>)
    requires forall p :: p in parts ==> '\n' !in p
    ensures LineTexts(lines) == parts && forall l :: l in lines ==> l.WellFormed()
  {
    if parts == [] {
      lines := [];
    } else {
      assert parts[0] in parts;
      var l := EveryLine(parts[0]);
      var rest := EveryLines(parts[1..]);
      lines := [l] + rest;
      ConsTail(l, rest);
      Uncons(parts);
    }
  }

  lemma EveryData(data: string) returns (kept: string, dropped: Option<string>)
    ensures Splits(data, kept, dropped)
  {
    if RECORD_SEPARATOR in data {
      var i := LastIndex(data, RECORD_SEPARATOR);
      kept, dropped := data[..i], Some(data[i + 1..]);
      assert data == data[..i] + [data[i]] + data[i + 1..];
    } else {
      kept, dropped := data, None;
    }
  }

  /** Any text whatever is a frame of lines, so `FrameMeaning` is about all frames. */
  lemma EveryFrame(frame: string) returns (lines: seq<Line>, kept: string, dropped: Option<string>)
    ensures AreLines(lines) && FrameText(lines) == frame && Splits(DataOf(lines), kept, dropped)
  {
    var parts := Split(frame, '\n');
    lines := EveryLines(parts);
    JoinSplit(frame, '\n');
    kept, dropped := EveryData(DataOf(lines));
  }

  // ---- Where a frame ends ----

  predicate SingleLine(s: string) {
    '\n' !in s && '\r' !in s
  }

  /** Lines as they stand in a stream: none but the first is empty, since that would end the frame. */
  predicate InFrame(lines: seq<Line>) {
    && AreLines(lines)
    && forall k :: 0 <= k < |lines| ==> SingleLine(lines[k].Content()) && (k > 0 ==> lines[k].Content() != "")
  }

  /** The blank line behind a frame. */
  function BlankLine(crlf: bool): string {
    if crlf then "\r\n\r\n" else "\n\n"
  }

  lemma NotAt(s: string, p: string, j: nat, i: nat)
    requires j + i < |s| && i < |p| && s[j + i] != p[i]
    ensures !OccursAt(s, p, j)
  {
    if j + |p| <= |s| {
      assert s[j..j + |p|][i] == s[j + i];
    }
  }

  lemma FindBehind(a: string, b: string, p: string)
    requires forall j :: 0 <= j < |a| ==> !OccursAt(a + b, p, j)
    ensures Find(a + b, p) == if Find(b, p) == -1 then -1 else |a| + Find(b, p)
  {
    var i := Find(b, p);
    forall j | |a| <= j
      ensures OccursAt(a + b, p, j) <==> OccursAt(b, p, j - |a|)
    {
      if j + |p| <= |a + b| {
        assert (a + b)[j..j + |p|] == b[j - |a|..j - |a| + |p|];
      }
    }
    if i != -1 {
      assert OccursAt(a + b, p, |a| + i);
      FindIs(a + b, p, |a| + i);
    }
  }

  /** No boundary starts at `j`. */
  predicate NoEndAt(s: string, j: nat) {
    !OccursAt(s, "\r\n\r\n", j) && !OccursAt(s, "\n\n", j)
  }

  lemma EndBehind(a: string, b: string)
    requires forall j :: 0 <= j < |a| ==> NoEndAt(a + b, j)
    ensures FindFrameEnd(a + b) == match FindFrameEnd(b)
                                   case NoBoundary => NoBoundary
                                   case Boundary(i, n) => Boundary(|a| + i, n)
  {
    forall j | 0 <= j < |a|
      ensures !OccursAt(a + b, "\r\n\r\n", j) && !OccursAt(a + b, "\n\n", j)
    {
      assert NoEndAt(a + b, j);
    }
    FindBehind(a, b, "\r\n\r\n");
    FindBehind(a, b, "\n\n");
  }

  /** Inside a line, its CRs included, no boundary starts if a line break and no second one follow. */
  lemma NoEndInLine(l: Line, after: string, j: nat)
    requires l.WellFormed() && SingleLine(l.Content()) && j < |l.Text()|
    requires |after| >= 2 && ((after[0] == '\n' && after[1] != '\r') || after[0] == '\r')
    ensures NoEndAt(l.Text() + after, j)
  {
    var s := l.Text() + after;
    RepeatIs('\r', l.crs);
    if j < |l.Content()| {
      assert s[j] == l.Content()[j];
      NotAt(s, "\r\n\r\n", j, 0);
      NotAt(s, "\n\n", j, 0);
    } else {
      assert s[j] == Repeat('\r', l.crs)[j - |l.Content()|] == '\r';
      NotAt(s, "\n\n", j, 0);
      if j + 1 < |l.Text()| {
        assert s[j + 1] == Repeat('\r', l.crs)[j + 1 - |l.Content()|] == '\r';
        NotAt(s, "\r\n\r\n", j, 1);
      } else if after[0] == '\r' {
        NotAt(s, "\r\n\r\n", j, 1);
      } else {
        NotAt(s, "\r\n\r\n", j, 2);
      }
    }
  }

  lemma EndIsHere(crlf: bool, rest: string)
    ensures FindFrameEnd(BlankLine(crlf) + rest) == Boundary(0, |BlankLine(crlf)|)
  {
    var s := BlankLine(crlf) + rest;
    assert s[..|BlankLine(crlf)|] == BlankLine(crlf);
    assert OccursAt(s, BlankLine(crlf), 0);
    FindIs(s, BlankLine(crlf), 0);
    NotAt(s, if crlf then "\n\n" else "\r\n\r\n", 0, 0);
  }

  lemma LastLineEnds(l: Line, crlf: bool, rest: string)
    requires l.WellFormed() && SingleLine(l.Content())
    ensures FindFrameEnd(l.Text() + (BlankLine(crlf) + rest)) == Boundary(|l.Text()|, |BlankLine(crlf)|)
  {
    var after := BlankLine(crlf) + rest;
    forall j | 0 <= j < |l.Text()|
      ensures NoEndAt(l.Text() + after, j)
    {
      NoEndInLine(l, after, j);
    }
    EndBehind(l.Text(), after);
    EndIsHere(crlf, rest);
  }

  lemma InnerLinePasses(l: Line, after: string)
    requires l.WellFormed() && SingleLine(l.Content())
    requires after != "" && after[0] != '\n' && after[0] != '\r'
    ensures FindFrameEnd(l.Text() + ['\n'] + after) == match FindFrameEnd(after)
                                                      case NoBoundary => NoBoundary
                                                      case Boundary(i, n) => Boundary(|l.Text()| + 1 + i, n)
  {
    var a := l.Text() + ['\n'];
    Assoc(l.Text(), ['\n'], after);
    forall j | 0 <= j < |a|
      ensures NoEndAt(a + after, j)
    {
      if j < |l.Text()| {
        NoEndInLine(l, ['\n'] + after, j);
      } else {
        assert (a + after)[j] == '\n' && (a + after)[j + 1] == after[0];
        NotAt(a + after, "\r\n\r\n", j, 0);
        NotAt(a + after, "\n\n", j, 1);
      }
    }
    EndBehind(a, after);
  }

  /** The first boundary behind the lines of a frame is the blank line written after them, in either style. */
  lemma {:induction false} FrameEnds(lines: seq<Line>, crlf: bool, rest: string)
    requires InFrame(lines)
    ensures FindFrameEnd(FrameText(lines) + (BlankLine(crlf) + rest)) == Boundary(|FrameText(lines)|, |BlankLine(crlf)|)
    decreases |lines|
  {
    var l := lines[0];
    assert l in lines;
    if |lines| == 1 {
      assert LineTexts(lines) == [l.Text()];
      LastLineEnds(l, crlf, rest);
    } else {
      var more := lines[1..];
      FrameEnds(more, crlf, rest);
      var after := FrameText(more) + (BlankLine(crlf) + rest);
      assert LineTexts(lines) == [l.Text()] + LineTexts(more);
      assert FrameText(lines) == l.Text() + ['\n'] + FrameText(more);
      Assoc(l.Text() + ['\n'], FrameText(more), BlankLine(crlf) + rest);
      StartsWithLine(more);
      InnerLinePasses(l, after);
    }
  }

  lemma StartsWithLine(lines: seq<Line>)
    requires AreLines(lines) && lines[0].Content() != ""
    ensures FrameText(lines) != "" && FrameText(lines)[0] == lines[0].Content()[0]
  {
    assert LineTexts(lines)[0] == lines[0].Text();
  }
}
