/**
 The chunk decoder of the SSE client, as a function of the raw bytes received, and the
 chunked transfer coding of section 7.1 of RFC 9112, which it inverts.
 */
module ChunkedCoding {
  import opened Seqs
  import opened Text

  predicate IsHexDigit(c: char) {
    '0' <= c <= '9' || 'a' <= c <= 'f' || 'A' <= c <= 'F'
  }

  function HexDigit(c: char): nat
    requires IsHexDigit(c)
  {
    if '0' <= c <= '9' then c as int - '0' as int
    else if 'a' <= c <= 'f' then c as int - 'a' as int + 10
    else c as int - 'A' as int + 10
  }

  /** The sixteen digits, in either letter case, and no others. */
  lemma HexDigits(i: nat)
    requires i < 16
    ensures var lower, upper := "0123456789abcdef", "0123456789ABCDEF";
            && IsHexDigit(lower[i]) && HexDigit(lower[i]) == i
            && IsHexDigit(upper[i]) && HexDigit(upper[i]) == i
    ensures forall c :: IsHexDigit(c) <==> c in "0123456789abcdef" || c in "0123456789ABCDEF"
  {
    var lower, upper := "0123456789abcdef", "0123456789ABCDEF";
    forall c | IsHexDigit(c)
      ensures c in lower || c in upper
    {
      if '0' <= c <= '9' {
        assert lower[c as int - '0' as int] == c;
      } else if 'a' <= c <= 'f' {
        assert lower[c as int - 'a' as int + 10] == c;
      } else {
        assert upper[c as int - 'A' as int + 10] == c;
      }
    }
  }

  /** `int(s, 16)` on plain hexadecimal digits; anything else is the `ValueError` branch. */
  function ParseHex(s: string): Option<nat> {
    if s == "" || exists c :: c in s && !IsHexDigit(c) then None else Some(HexValue(s))
  }

  function HexValue(s: string): nat
    requires forall c :: c in s ==> IsHexDigit(c)
  {
    if s == "" then 0 else 16 * HexValue(s[..|s| - 1]) + HexDigit(s[|s| - 1])
  }

  /** What one turn of the decoding loop finds at the head of the raw buffer. */
  datatype Step =
    | Wait
    | Terminal
    | Blank(rest: string)
    | Data(data: string, rest: string)

  /** The stripped size field of a chunk header line, extensions cut off. */
  function SizeField(line: string): string {
    Strip(Split(line, ';')[0])
  }

  function NextChunk(raw: string): (step: Step)
    ensures step.Data? || step.Blank? ==> |step.rest| < |raw|
  {
    if raw == "" then Wait else
    var crlf := Find(raw, CRLF);
    if crlf == -1 then Wait else
    var size := SizeField(raw[..crlf]);
    if size == "" then Blank(raw[crlf + 2..]) else
    match ParseHex(size)
    case None => Wait
    case Some(n) =>
      if n == 0 then Terminal
      else if |raw| < crlf + 2 + n + 2 then Wait
      else Data(raw[crlf + 2..crlf + 2 + n], raw[crlf + 2 + n + 2..])
  }

  /** The outcome of decoding as far as possible: `terminal` is the raised `SocketClosedError`. */
  datatype Decoded = Decoded(data: string, rest: string, terminal: bool)

  function After(data: string, d: Decoded): Decoded {
    Decoded(data + d.data, d.rest, d.terminal)
  }

  function Decode(raw: string): Decoded
    decreases |raw|
  {
    match NextChunk(raw)
    case Wait => Decoded("", raw, false)
    case Terminal => Decoded("", raw, true)
    case Blank(rest) => Decode(rest)
    case Data(data, rest) =>
      After(data, Decode(rest))
  }

  lemma DecodeTurn(raw: string, before: string)
    ensures match NextChunk(raw)
            case Wait => After(before, Decode(raw)) == Decoded(before, raw, false)
            case Terminal => After(before, Decode(raw)) == Decoded(before, raw, true)
            case Blank(rest) => After(before, Decode(raw)) == After(before, Decode(rest))
            case Data(data, rest) => After(before, Decode(raw)) == After(before + data, Decode(rest))
  {
    Empty(before);
    if NextChunk(raw).Data? {
      Assoc(before, NextChunk(raw).data, Decode(NextChunk(raw).rest).data);
    }
  }

  /** What a step has decided, later bytes do not change. */
  lemma NextChunkStable(raw: string, more: string)
    ensures match NextChunk(raw)
            case Wait => true
            case Terminal => NextChunk(raw + more).Terminal?
            case Blank(rest) => NextChunk(raw + more) == Blank(rest + more)
            case Data(data, rest) => NextChunk(raw + more) == Data(data, rest + more)
  {
    var crlf := Find(raw, CRLF);
    if raw != "" && crlf != -1 {
      FindStable(raw, more, CRLF);
      CutLeft(raw, more, crlf);
      CutLeft(raw, more, crlf + 2);
      match NextChunk(raw)
      case Data(data, rest) =>
        var end := crlf + 2 + |data|;
        CutLeft(raw, more, end + 2);
        assert (raw + more)[crlf + 2..end] == raw[crlf + 2..end];
      case _ =>
    }
  }

  /** Decoding in two goes is decoding at once, as long as no terminal chunk has been met. */
  lemma {:induction false} DecodeAppend(raw: string, more: string)
    ensures var d := Decode(raw);
            if d.terminal then
              Decode(raw + more) == Decoded(d.data, d.rest + more, true)
            else
              var e := Decode(d.rest + more);
              Decode(raw + more) == Decoded(d.data + e.data, e.rest, e.terminal)
    decreases |raw|
  {
    NextChunkStable(raw, more);
    match NextChunk(raw)
    case Wait =>
    case Terminal =>
    case Blank(rest) =>
      DecodeAppend(rest, more);
    case Data(data, rest) =>
      DecodeAppend(rest, more);
      var d := Decode(rest);
      Assoc(data, d.data, Decode(d.rest + more).data);
  }

  /** What decoding leaves behind holds no further complete chunk. */
  lemma {:induction false} DecodeSettles(raw: string)
    ensures var d := Decode(raw);
            NextChunk(d.rest) == (if d.terminal then Terminal else Wait)
    decreases |raw|
  {
    match NextChunk(raw)
    case Wait =>
    case Terminal =>
    case Blank(rest) => DecodeSettles(rest);
    case Data(data, rest) => DecodeSettles(rest);
  }

  /** A chunk of RFC 9112: its size in hexadecimal, padding, extensions and data of that size. */
  datatype Chunk = Chunk(size: string, padding: string, extensions: string, data: string) {
    predicate WellFormed() {
      && IsSize(size) && IsPadding(padding) && IsExtension(extensions)
      && HexValue(size) == |data| > 0
    }

    function Line(): string {
      size + padding + extensions
    }

    function Text(): string {
      Line() + CRLF + data + CRLF
    }
  }

  predicate IsSize(size: string) {
    size != "" && forall c :: c in size ==> IsHexDigit(c)
  }

  predicate IsPadding(padding: string) {
    forall c :: c in padding ==> c == ' ' || c == '\t'
  }

  predicate IsExtension(extensions: string) {
    (extensions == "" || extensions[0] == ';') && '\r' !in extensions
  }

  function ChunksText(chunks: seq<Chunk>): string {
    if chunks == [] then "" else chunks[0].Text() + ChunksText(chunks[1..])
  }

  function ChunksData(chunks: seq<Chunk>): string {
    if chunks == [] then "" else chunks[0].data + ChunksData(chunks[1..])
  }

  /** A line without CR ends at the CRLF written after it. */
  lemma FindLineEnd(line: string, rest: string)
    requires '\r' !in line
    ensures Find(line + CRLF + rest, CRLF) == |line|
  {
    var s := line + CRLF + rest;
    assert s[|line|..|line| + 2] == CRLF;
    forall j | 0 <= j < |line|
      ensures !OccursAt(s, CRLF, j)
    {
      assert s[j..j + 2][0] == line[j];
    }
    FindIs(s, CRLF, |line|);
  }

  /** A word without blanks at its ends, and without a semicolon. */
  predicate IsWord(word: string) {
    ';' !in word && '\r' !in word && (word != "" ==> !IsSpace(word[0]) && !IsSpace(word[|word| - 1]))
  }

  lemma SizeIsWord(size: string)
    requires IsSize(size)
    ensures IsWord(size)
  {
    assert size[0] in size && size[|size| - 1] in size;
  }

  lemma {:induction false} AllBlank(padding: string)
    requires IsPadding(padding)
    ensures LStrip(padding, IsSpace) == ""
  {
    if padding != "" {
      assert padding[0] in padding && forall c :: c in padding[1..] ==> c in padding;
      AllBlank(padding[1..]);
    }
  }

  /** What is taken for the size is the word at the head of the line, padding and extensions aside. */
  lemma SizeOfLine(word: string, padding: string, extensions: string)
    requires IsWord(word) && IsPadding(padding) && IsExtension(extensions)
    ensures SizeField(word + padding + extensions) == word && '\r' !in word + padding + extensions
  {
    var field := word + padding;
    assert ';' !in field;
    if extensions == "" {
      assert field + extensions == field;
      SplitNone(field, ';');
    } else {
      assert field + extensions == field + [';'] + extensions[1..];
      SplitFirst(field, ';', extensions[1..]);
    }
    if word == "" {
      assert field == padding;
      AllBlank(padding);
    } else {
      assert field[0] == word[0];
      RStripPadding(word, padding, IsSpace);
    }
  }

  lemma LineIs(word: string, padding: string, extensions: string, rest: string)
    requires IsWord(word) && IsPadding(padding) && IsExtension(extensions)
    ensures var line := word + padding + extensions;
            var raw := line + CRLF + rest;
            && Find(raw, CRLF) == |line| && SizeField(raw[..|line|]) == word && raw[|line| + 2..] == rest
  {
    var line := word + padding + extensions;
    SizeOfLine(word, padding, extensions);
    FindLineEnd(line, rest);
    CutMiddle(line + CRLF, rest);
    Assoc(line, CRLF, rest);
    CutMiddle(line, CRLF + rest);
  }

  /** A line without a size, such as an empty one, is passed over. */
  lemma BlankLinePasses(padding: string, extensions: string, rest: string)
    requires IsPadding(padding) && IsExtension(extensions)
    ensures Decode(padding + extensions + CRLF + rest) == Decode(rest)
  {
    LineIs("", padding, extensions, rest);
    assert "" + padding == padding;
  }

  /** A character that stands in no hexadecimal number, in whatever form Python takes one. */
  predicate IsForeign(c: char) {
    !IsHexDigit(c) && c !in "+-_xX"
  }

  /** A line whose size is no number stops the decoder for good: nothing behind it is ever decoded. */
  lemma BadSizeBlocks(word: string, padding: string, extensions: string, rest: string)
    requires IsWord(word) && IsPadding(padding) && IsExtension(extensions)
    requires exists c :: c in word && IsForeign(c)
    ensures var raw := word + padding + extensions + CRLF + rest;
            Decode(raw) == Decoded("", raw, false)
  {
    LineIs(word, padding, extensions, rest);
    assert ParseHex(word) == None;
  }

  /** A complete chunk yields its data, whatever follows. */
  lemma ChunkDecodes(c: Chunk, rest: string)
    requires c.WellFormed()
    ensures NextChunk(c.Text() + rest) == Data(c.data, rest)
  {
    var s := c.Text() + rest;
    var line := c.Line();
    assert '\r' !in line;
    FindLineEnd(line, c.data + CRLF + rest);
    assert s == line + CRLF + (c.data + CRLF + rest);
    assert s[..|line|] == line;
    SizeIsWord(c.size);
    SizeOfLine(c.size, c.padding, c.extensions);
    assert ParseHex(c.size) == Some(|c.data|);
    var start := |line| + 2;
    assert s[start..start + |c.data|] == c.data;
    assert s[start + |c.data| + 2..] == rest;
  }

  /** A chunk cut anywhere before its end yields nothing yet. */
  lemma PartialChunkWaits(c: Chunk, cut: nat)
    requires c.WellFormed()
    requires cut < |c.Text()|
    ensures NextChunk(c.Text()[..cut]).Wait?
  {
    var s, line := c.Text()[..cut], c.Line();
    assert '\r' !in line;
    var text := c.Text();
    assert text == line + CRLF + (c.data + CRLF);
    FindLineEnd(line, c.data + CRLF);
    var crlf := Find(s, CRLF);
    if crlf != -1 {
      FindStable(s, text[cut..], CRLF);
      assert s + text[cut..] == text;
      assert crlf == |line|;
      assert s[..crlf] == line;
      SizeIsWord(c.size);
      SizeOfLine(c.size, c.padding, c.extensions);
      assert ParseHex(c.size) == Some(|c.data|);
    }
  }

  lemma ChunksCons(chunks: seq<Chunk>, tail: string)
    requires chunks != []
    ensures ChunksText(chunks) + tail == chunks[0].Text() + (ChunksText(chunks[1..]) + tail)
  {
    Assoc(chunks[0].Text(), ChunksText(chunks[1..]), tail);
  }

  /** Section 7.1 of RFC 9112: chunks, then a cut chunk, decode to their data and keep the cut chunk. */
  lemma {:induction false} ChunksDecode(chunks: seq<Chunk>, last: Chunk, cut: nat)
    requires forall c :: c in chunks ==> c.WellFormed()
    requires last.WellFormed() && cut < |last.Text()|
    ensures Decode(ChunksText(chunks) + last.Text()[..cut])
            == Decoded(ChunksData(chunks), last.Text()[..cut], false)
  {
    var tail := last.Text()[..cut];
    if chunks == [] {
      Empty(tail);
      PartialChunkWaits(last, cut);
    } else {
      ChunksDecode(chunks[1..], last, cut);
      ChunkDecodes(chunks[0], ChunksText(chunks[1..]) + tail);
      ChunksCons(chunks, tail);
    }
  }

  /** A zero chunk, whatever its zeros, padding and extensions, is noticed after all the data before it. */
  lemma {:induction false} TerminalChunkCloses(chunks: seq<Chunk>, zeros: string, padding: string, extensions: string,
                                               trailer: string)
    requires forall c :: c in chunks ==> c.WellFormed()
    requires IsSize(zeros) && HexValue(zeros) == 0 && IsPadding(padding) && IsExtension(extensions)
    ensures var tail := zeros + padding + extensions + CRLF + trailer;
            Decode(ChunksText(chunks) + tail) == Decoded(ChunksData(chunks), tail, true)
    decreases |chunks|
  {
    var tail := zeros + padding + extensions + CRLF + trailer;
    if chunks == [] {
      Empty(tail);
      SizeIsWord(zeros);
      LineIs(zeros, padding, extensions, trailer);
    } else {
      TerminalChunkCloses(chunks[1..], zeros, padding, extensions, trailer);
      ChunkDecodes(chunks[0], ChunksText(chunks[1..]) + tail);
      ChunksCons(chunks, tail);
    }
  }

  lemma PlainZeroChunk(trailer: string)
    ensures Decode("0\r\n" + trailer) == Decoded("", "0\r\n" + trailer, true)
  {
    assert HexValue("0"[..0]) == 0;
    assert "0" + "" + "" + CRLF == "0\r\n";
    TerminalChunkCloses([], "0", "", "", trailer);
    assert ChunksText([]) + ("0\r\n" + trailer) == "0\r\n" + trailer;
  }

  /** Every size has a hexadecimal text, so every data can be chunked. */
  function Hex(n: nat): (s: string)
    ensures s != "" && (forall c :: c in s ==> IsHexDigit(c)) && HexValue(s) == n
  {
    var digit := "0123456789abcdef"[n % 16];
    if n < 16 then
      assert HexValue([digit][..0]) == 0;
      [digit]
    else
      var s := Hex(n / 16) + [digit];
      assert s[..|s| - 1] == Hex(n / 16);
      s
  }

  /** Any data can be sent as a chunk, and is decoded to itself. */
  lemma DataCanBeChunked(data: string)
    requires data != ""
    ensures var c := Chunk(Hex(|data|), "", "", data);
            c.WellFormed() && Decode(c.Text()) == Decoded(data, "", false)
  {
    var c := Chunk(Hex(|data|), "", "", data);
    ChunkDecodes(c, "");
    Empty(c.Text());
    Empty(data);
  }
}
