/**
 The msgpack format, each value in its shortest form, as `packb` writes it: a library that meets
 the laws the binary protocol relies on. Strings are ASCII, and extension types are not part of it.
 */
module MsgpackFormat {
  import opened Seqs
  import opened Text
  import opened Bits
  import opened MessagePackFrames
  import opened MessagePack

  const TWO_7 := 0x80
  const TWO_8 := 0x100
  const TWO_15 := 0x8000
  const TWO_16 := 0x1_0000
  const TWO_31 := 0x8000_0000
  const TWO_32 := 0x1_0000_0000
  const TWO_63 := 0x8000_0000_0000_0000
  const TWO_64 := 0x1_0000_0000_0000_0000

  // ---- Heads: a value without what it contains ----

  datatype Head =
    | NilHead
    | BoolHead(b: bool)
    | IntHead(i: int)
    | FloatHead(bits: nat)
    | StrHead(n: nat)
    | BinHead(n: nat)
    | ArrHead(n: nat)
    | MapHead(n: nat)

  predicate HeadFits(h: Head) {
    match h
    case NilHead => true
    case BoolHead(_) => true
    case IntHead(i) => -TWO_63 <= i < TWO_64
    case FloatHead(bits) => bits < TWO_64
    case StrHead(n) => n < TWO_32
    case BinHead(n) => n < TWO_32
    case ArrHead(n) => n < TWO_32
    case MapHead(n) => n < TWO_32
  }

  /** What a tag byte announces a number for. */
  datatype Kind = Unsigned | Signed | Double | Text | Bytes | List | Table

  function Wide(tag: byte, n: nat, width: nat): seq<byte> {
    [tag] + BigEndian(n, width)
  }

  function PackInt(i: int): seq<byte>
    requires -TWO_63 <= i < TWO_64
  {
    if 0 <= i < TWO_7 then [i]
    else if 0 <= i < TWO_8 then Wide(0xCC, i, 1)
    else if 0 <= i < TWO_16 then Wide(0xCD, i, 2)
    else if 0 <= i < TWO_32 then Wide(0xCE, i, 4)
    else if 0 <= i then Wide(0xCF, i, 8)
    else if i >= -32 then [i + TWO_8]
    else if i >= -TWO_7 then Wide(0xD0, i + TWO_8, 1)
    else if i >= -TWO_15 then Wide(0xD1, i + TWO_16, 2)
    else if i >= -TWO_31 then Wide(0xD2, i + TWO_32, 4)
    else Wide(0xD3, i + TWO_64, 8)
  }

  function PackHead(h: Head): (s: seq<byte>)
    requires HeadFits(h)
    ensures s != []
  {
    match h
    case NilHead => [0xC0]
    case BoolHead(b) => [if b then 0xC3 else 0xC2]
    case IntHead(i) => PackInt(i)
    case FloatHead(bits) => Wide(0xCB, bits, 8)
    case StrHead(n) =>
      if n < 32 then [0xA0 + n]
      else if n < TWO_8 then Wide(0xD9, n, 1)
      else if n < TWO_16 then Wide(0xDA, n, 2) else Wide(0xDB, n, 4)
    case BinHead(n) =>
      if n < TWO_8 then Wide(0xC4, n, 1)
      else if n < TWO_16 then Wide(0xC5, n, 2) else Wide(0xC6, n, 4)
    case ArrHead(n) =>
      if n < 16 then [0x90 + n]
      else if n < TWO_16 then Wide(0xDC, n, 2) else Wide(0xDD, n, 4)
    case MapHead(n) =>
      if n < 16 then [0x80 + n]
      else if n < TWO_16 then Wide(0xDE, n, 2) else Wide(0xDF, n, 4)
  }

  /** Tags that carry their number. */
  function Small(tag: byte): Option<Head> {
    if tag < 0x80 then Some(IntHead(tag))
    else if tag < 0x90 then Some(MapHead(tag - 0x80))
    else if tag < 0xA0 then Some(ArrHead(tag - 0x90))
    else if tag < 0xC0 then Some(StrHead(tag - 0xA0))
    else if tag >= 0xE0 then Some(IntHead(tag - TWO_8))
    else if tag == 0xC0 then Some(NilHead)
    else if tag == 0xC2 then Some(BoolHead(false))
    else if tag == 0xC3 then Some(BoolHead(true))
    else None
  }

  /** Tags with a number of some width behind them. */
  function Large(tag: byte): Option<(Kind, nat)> {
    if tag == 0xCC then Some((Unsigned, 1)) else if tag == 0xCD then Some((Unsigned, 2))
    else if tag == 0xCE then Some((Unsigned, 4)) else if tag == 0xCF then Some((Unsigned, 8))
    else if tag == 0xD0 then Some((Signed, 1)) else if tag == 0xD1 then Some((Signed, 2))
    else if tag == 0xD2 then Some((Signed, 4)) else if tag == 0xD3 then Some((Signed, 8))
    else if tag == 0xCB then Some((Double, 8))
    else if tag == 0xD9 then Some((Text, 1)) else if tag == 0xDA then Some((Text, 2))
    else if tag == 0xDB then Some((Text, 4))
    else if tag == 0xC4 then Some((Bytes, 1)) else if tag == 0xC5 then Some((Bytes, 2))
    else if tag == 0xC6 then Some((Bytes, 4))
    else if tag == 0xDC then Some((List, 2)) else if tag == 0xDD then Some((List, 4))
    else if tag == 0xDE then Some((Table, 2)) else if tag == 0xDF then Some((Table, 4))
    else None
  }

  function HeadOf(kind: Kind, n: nat, width: nat): Head {
    match kind
    case Unsigned => IntHead(n)
    case Signed => IntHead(if n < Pow256(width) / 2 then n else n - Pow256(width))
    case Double => FloatHead(n)
    case Text => StrHead(n)
    case Bytes => BinHead(n)
    case List => ArrHead(n)
    case Table => MapHead(n)
  }

  /** A number of `width` bytes and what follows it. */
  function ReadNumber(s: seq<byte>, width: nat): Option<(nat, seq<byte>)> {
    if |s| < width then None else Some((FromBigEndian(s[..width]), s[width..]))
  }

  function ReadHead(s: seq<byte>): (r: Option<(Head, seq<byte>)>)
    ensures r.Some? ==> |r.value.1| < |s|
  {
    if s == [] then None else
    match Small(s[0])
    case Some(h) => Some((h, s[1..]))
    case None =>
      var (kind, width) :- Large(s[0]);
      var (n, rest) :- ReadNumber(s[1..], width);
      Some((HeadOf(kind, n, width), rest))
  }

  lemma Widths()
    ensures Pow256(1) == TWO_8 && Pow256(2) == TWO_16 && Pow256(4) == TWO_32 && Pow256(8) == TWO_64
  {
    assert Pow256(4) == 256 * Pow256(3) && Pow256(3) == 256 * Pow256(2) && Pow256(2) == 256 * Pow256(1);
    assert Pow256(8) == 256 * Pow256(7) && Pow256(7) == 256 * Pow256(6) && Pow256(6) == 256 * Pow256(5);
    assert Pow256(5) == 256 * Pow256(4) && Pow256(1) == 256 * Pow256(0);
  }

  lemma ReadsSmall(tag: byte, after: seq<byte>)
    requires Small(tag).Some?
    ensures ReadHead([tag] + after) == Some((Small(tag).value, after))
  {
    ConsTail(tag, after);
  }

  lemma ReadsWide(tag: byte, n: nat, kind: Kind, width: nat, after: seq<byte>)
    requires Small(tag) == None && Large(tag) == Some((kind, width)) && n < Pow256(width)
    ensures ReadHead(Wide(tag, n, width) + after) == Some((HeadOf(kind, n, width), after))
  {
    Assoc([tag], BigEndian(n, width), after);
    ConsTail(tag, BigEndian(n, width) + after);
    BigEndianRoundTrip(n, width);
    CutMiddle(BigEndian(n, width), after);
  }

  lemma ReadsInt(i: int, after: seq<byte>)
    requires -TWO_63 <= i < TWO_64
    ensures ReadHead(PackInt(i) + after) == Some((IntHead(i), after))
  {
    Widths();
    if 0 <= i < TWO_7 { ReadsSmall(i, after); }
    else if 0 <= i < TWO_8 { ReadsWide(0xCC, i, Unsigned, 1, after); }
    else if 0 <= i < TWO_16 { ReadsWide(0xCD, i, Unsigned, 2, after); }
    else if 0 <= i < TWO_32 { ReadsWide(0xCE, i, Unsigned, 4, after); }
    else if 0 <= i { ReadsWide(0xCF, i, Unsigned, 8, after); }
    else if i >= -32 { ReadsSmall(i + TWO_8, after); }
    else if i >= -TWO_7 { ReadsWide(0xD0, i + TWO_8, Signed, 1, after); }
    else if i >= -TWO_15 { ReadsWide(0xD1, i + TWO_16, Signed, 2, after); }
    else if i >= -TWO_31 { ReadsWide(0xD2, i + TWO_32, Signed, 4, after); }
    else { ReadsWide(0xD3, i + TWO_64, Signed, 8, after); }
  }

  lemma ReadsCount(h: Head, after: seq<byte>)
    requires HeadFits(h) && (h.StrHead? || h.BinHead? || h.ArrHead? || h.MapHead?)
    ensures ReadHead(PackHead(h) + after) == Some((h, after))
  {
    Widths();
    match h
    case StrHead(n) =>
      if n < 32 { ReadsSmall(0xA0 + n, after); }
      else if n < TWO_8 { ReadsWide(0xD9, n, Text, 1, after); }
      else if n < TWO_16 { ReadsWide(0xDA, n, Text, 2, after); }
      else { ReadsWide(0xDB, n, Text, 4, after); }
    case BinHead(n) =>
      if n < TWO_8 { ReadsWide(0xC4, n, Bytes, 1, after); }
      else if n < TWO_16 { ReadsWide(0xC5, n, Bytes, 2, after); }
      else { ReadsWide(0xC6, n, Bytes, 4, after); }
    case ArrHead(n) =>
      if n < 16 { ReadsSmall(0x90 + n, after); }
      else if n < TWO_16 { ReadsWide(0xDC, n, List, 2, after); }
      else { ReadsWide(0xDD, n, List, 4, after); }
    case MapHead(n) =>
      if n < 16 { ReadsSmall(0x80 + n, after); }
      else if n < TWO_16 { ReadsWide(0xDE, n, Table, 2, after); }
      else { ReadsWide(0xDF, n, Table, 4, after); }
  }

  lemma ReadsHead(h: Head, after: seq<byte>)
    requires HeadFits(h)
    ensures ReadHead(PackHead(h) + after) == Some((h, after))
  {
    match h
    case NilHead => ReadsSmall(0xC0, after);
    case BoolHead(b) => ReadsSmall(if b then 0xC3 else 0xC2, after);
    case IntHead(i) => ReadsInt(i, after);
    case FloatHead(bits) =>
      Widths();
      ReadsWide(0xCB, bits, Double, 8, after);
    case _ => ReadsCount(h, after);
  }

  /** Bytes that follow do not change the head that is read. */
  lemma HeadStable(s: seq<byte>, more: seq<byte>)
    requires ReadHead(s).Some?
    ensures var (h, rest) := ReadHead(s).value;
            ReadHead(s + more) == Some((h, rest + more))
  {
    CutLeft(s, more, 1);
    assert (s + more)[0] == s[0];
    if Small(s[0]) == None {
      CutLeft(s[1..], more, Large(s[0]).value.1);
    }
  }

  // ---- Values ----

  predicate IsAscii(s: string) {
    forall c :: c in s ==> c as int < 128
  }

  predicate TextFits(s: string) {
    IsAscii(s) && |s| < TWO_32
  }

  /** The values the format has. */
  predicate Fits(v: Val)
    decreases v
  {
    match v
    case Nil => true
    case Bool(_) => true
    case Int(i) => -TWO_63 <= i < TWO_64
    case Float(bits) => bits < TWO_64
    case Str(s) => TextFits(s)
    case Bin(bytes) => |bytes| < TWO_32
    case Arr(items) => |items| < TWO_32 && forall i :: i in items ==> Fits(i)
    case Dict(entries) => |entries| < TWO_32 && forall e :: e in entries ==> TextFits(e.key) && Fits(e.value)
  }

  function AsciiByte(c: char): byte
    requires c as int < 128
  {
    c as int
  }

  function AsciiBytes(s: string): (bytes: seq<byte>)
    requires IsAscii(s)
    ensures |bytes| == |s|
  {
    seq(|s|, i requires 0 <= i < |s| =>
      assert s[i] in s;
      AsciiByte(s[i]))
  }

  function AsciiText(bytes: seq<byte>): string {
    seq(|bytes|, i requires 0 <= i < |bytes| => bytes[i] as char)
  }

  lemma AsciiRoundTrip(s: string)
    requires IsAscii(s)
    ensures AsciiText(AsciiBytes(s)) == s
  {
    forall i | 0 <= i < |s|
      ensures AsciiText(AsciiBytes(s))[i] == s[i]
    {
      assert s[i] in s;
    }
  }

  function PackStr(s: string): (bytes: seq<byte>)
    requires TextFits(s)
    ensures bytes != []
  {
    PackHead(StrHead(|s|)) + AsciiBytes(s)
  }

  function Pack(v: Val): (bytes: seq<byte>)
    requires Fits(v)
    ensures bytes != []
    decreases v
  {
    match v
    case Nil => PackHead(NilHead)
    case Bool(b) => PackHead(BoolHead(b))
    case Int(i) => PackHead(IntHead(i))
    case Float(bits) => PackHead(FloatHead(bits))
    case Str(s) => PackStr(s)
    case Bin(bytes) => PackHead(BinHead(|bytes|)) + bytes
    case Arr(items) => PackHead(ArrHead(|items|)) + PackItems(items)
    case Dict(entries) => PackHead(MapHead(|entries|)) + PackEntries(entries)
  }

  function PackItems(items: seq<Val>): seq<byte>
    requires forall i :: i in items ==> Fits(i)
    decreases items
  {
    if items == [] then [] else Pack(items[0]) + PackItems(items[1..])
  }

  function PackEntries(entries: seq<Entry>): seq<byte>
    requires forall e :: e in entries ==> TextFits(e.key) && Fits(e.value)
    decreases entries
  {
    if entries == [] then [] else
    assert entries[0] in entries;
    PackStr(entries[0].key) + (Pack(entries[0].value) + PackEntries(entries[1..]))
  }

  /** n bytes and what follows them. */
  function ReadBlock(s: seq<byte>, n: nat): Option<(seq<byte>, seq<byte>)> {
    if |s| < n then None else Some((s[..n], s[n..]))
  }

  /** The value at the head of the bytes, and what follows it. */
  function Read(s: seq<byte>): (r: Option<(Val, seq<byte>)>)
    ensures r.Some? ==> |r.value.1| < |s|
    decreases |s|, 0
  {
    var (head, rest) :- ReadHead(s);
    match head
    case NilHead => Some((Nil, rest))
    case BoolHead(b) => Some((Bool(b), rest))
    case IntHead(i) => Some((Int(i), rest))
    case FloatHead(bits) => Some((Float(bits), rest))
    case StrHead(n) =>
      var (block, more) :- ReadBlock(rest, n);
      Some((Str(AsciiText(block)), more))
    case BinHead(n) =>
      var (block, more) :- ReadBlock(rest, n);
      Some((Bin(block), more))
    case ArrHead(n) =>
      var (items, more) :- ReadItems(rest, n);
      Some((Arr(items), more))
    case MapHead(n) =>
      var (entries, more) :- ReadEntries(rest, n);
      Some((Dict(entries), more))
  }

  function ReadItems(s: seq<byte>, n: nat): (r: Option<(seq<Val>, seq<byte>)>)
    ensures r.Some? ==> |r.value.1| <= |s|
    decreases |s|, 1
  {
    if n == 0 then Some(([], s)) else
    var (item, rest) :- Read(s);
    var (items, more) :- ReadItems(rest, n - 1);
    Some(([item] + items, more))
  }

  function ReadEntry(s: seq<byte>): (r: Option<(Entry, seq<byte>)>)
    ensures r.Some? ==> |r.value.1| < |s|
    decreases |s|, 1
  {
    var (key, rest) :- Read(s);
    if !key.Str? then None else
    var (value, more) :- Read(rest);
    Some((Entry(key.s, value), more))
  }

  function ReadEntries(s: seq<byte>, n: nat): (r: Option<(seq<Entry>, seq<byte>)>)
    ensures r.Some? ==> |r.value.1| <= |s|
    decreases |s|, 2
  {
    if n == 0 then Some(([], s)) else
    var (entry, rest) :- ReadEntry(s);
    var (entries, more) :- ReadEntries(rest, n - 1);
    Some(([entry] + entries, more))
  }

  /** `unpackb`: exactly one value. */
  function Unpack(body: seq<byte>): Option<Val> {
    match Read(body)
    case None => None
    case Some((v, rest)) => if rest == [] then Some(v) else None
  }

  const FORMAT := Packer(v => Fits(v), v => if Fits(v) then Pack(v) else [], body => Unpack(body))

  // ---- Reading inverts packing ----

  lemma ReadsStr(s: string, after: seq<byte>)
    requires TextFits(s)
    ensures Read(PackStr(s) + after) == Some((Str(s), after))
  {
    Assoc(PackHead(StrHead(|s|)), AsciiBytes(s), after);
    ReadsHead(StrHead(|s|), AsciiBytes(s) + after);
    CutMiddle(AsciiBytes(s), after);
    AsciiRoundTrip(s);
  }

  lemma ReadsBin(bytes: seq<byte>, after: seq<byte>)
    requires |bytes| < TWO_32
    ensures Read(PackHead(BinHead(|bytes|)) + bytes + after) == Some((Bin(bytes), after))
  {
    Assoc(PackHead(BinHead(|bytes|)), bytes, after);
    ReadsHead(BinHead(|bytes|), bytes + after);
    CutMiddle(bytes, after);
  }

  lemma {:induction false} ReadsPacked(v: Val, after: seq<byte>)
    requires Fits(v)
    ensures Read(Pack(v) + after) == Some((v, after))
    decreases v
  {
    match v
    case Nil => ReadsHead(NilHead, after);
    case Bool(b) => ReadsHead(BoolHead(b), after);
    case Int(i) => ReadsHead(IntHead(i), after);
    case Float(bits) => ReadsHead(FloatHead(bits), after);
    case Str(s) => ReadsStr(s, after);
    case Bin(bytes) => ReadsBin(bytes, after);
    case Arr(items) =>
      Assoc(PackHead(ArrHead(|items|)), PackItems(items), after);
      ReadsHead(ArrHead(|items|), PackItems(items) + after);
      ReadsItems(items, after);
    case Dict(entries) =>
      Assoc(PackHead(MapHead(|entries|)), PackEntries(entries), after);
      ReadsHead(MapHead(|entries|), PackEntries(entries) + after);
      ReadsEntries(entries, after);
  }

  lemma {:induction false} ReadsItems(items: seq<Val>, after: seq<byte>)
    requires forall i :: i in items ==> Fits(i)
    ensures ReadItems(PackItems(items) + after, |items|) == Some((items, after))
    decreases items
  {
    if items == [] {
      Empty(after);
    } else {
      var rest := PackItems(items[1..]);
      Assoc(Pack(items[0]), rest, after);
      ReadsPacked(items[0], rest + after);
      ReadsItems(items[1..], after);
      Uncons(items);
    }
  }

  lemma {:induction false} ReadsEntries(entries: seq<Entry>, after: seq<byte>)
    requires forall e :: e in entries ==> TextFits(e.key) && Fits(e.value)
    ensures ReadEntries(PackEntries(entries) + after, |entries|) == Some((entries, after))
    decreases entries
  {
    if entries == [] {
      Empty(after);
    } else {
      var e := entries[0];
      assert e in entries;
      var rest := PackEntries(entries[1..]);
      Assoc(PackStr(e.key), Pack(e.value) + rest, after);
      Assoc(Pack(e.value), rest, after);
      ReadsStr(e.key, Pack(e.value) + (rest + after));
      ReadsPacked(e.value, rest + after);
      ReadsEntries(entries[1..], after);
      Uncons(entries);
    }
  }

  // ---- Later bytes do not change what is read ----

  lemma {:induction false} ReadStable(s: seq<byte>, more: seq<byte>)
    requires Read(s).Some?
    ensures var (v, rest) := Read(s).value;
            Read(s + more) == Some((v, rest + more))
    decreases |s|, 0
  {
    HeadStable(s, more);
    var (head, rest) := ReadHead(s).value;
    match head
    case StrHead(n) => CutLeft(rest, more, n);
    case BinHead(n) => CutLeft(rest, more, n);
    case ArrHead(n) => ItemsStable(rest, n, more);
    case MapHead(n) => EntriesStable(rest, n, more);
    case _ =>
  }

  lemma {:induction false} ItemsStable(s: seq<byte>, n: nat, more: seq<byte>)
    requires ReadItems(s, n).Some?
    ensures var (items, rest) := ReadItems(s, n).value;
            ReadItems(s + more, n) == Some((items, rest + more))
    decreases |s|, 1
  {
    if n > 0 {
      ReadStable(s, more);
      ItemsStable(Read(s).value.1, n - 1, more);
    }
  }

  lemma {:induction false} EntryStable(s: seq<byte>, more: seq<byte>)
    requires ReadEntry(s).Some?
    ensures var (entry, rest) := ReadEntry(s).value;
            ReadEntry(s + more) == Some((entry, rest + more))
    decreases |s|, 1
  {
    ReadStable(s, more);
    ReadStable(Read(s).value.1, more);
  }

  lemma {:induction false} EntriesStable(s: seq<byte>, n: nat, more: seq<byte>)
    requires ReadEntries(s, n).Some?
    ensures var (entries, rest) := ReadEntries(s, n).value;
            ReadEntries(s + more, n) == Some((entries, rest + more))
    decreases |s|, 2
  {
    if n > 0 {
      EntryStable(s, more);
      var (entry, rest) := ReadEntry(s).value;
      EntriesStable(rest, n - 1, more);
    }
  }

  lemma CutDoesNotUnpack(v: Val, k: nat)
    requires Fits(v) && k < |Pack(v)|
    ensures Unpack(Pack(v)[..k]) == None
  {
    var body := Pack(v);
    var cut := body[..k];
    if Unpack(cut).Some? {
      ReadStable(cut, body[k..]);
      Rejoin(body, k);
      ReadsPacked(v, []);
      Empty(body);
      Empty(body[k..]);
      assert false;
    }
  }

  /** The format meets the laws. */
  lemma FormatIsLawful()
    ensures Lawful(FORMAT)
  {
    forall v | FORMAT.fits(v)
      ensures FORMAT.pack(v) != [] && FORMAT.unpack(FORMAT.pack(v)) == Some(v)
    {
      ReadsPacked(v, []);
      Empty(Pack(v));
    }
    forall v, k | FORMAT.fits(v) && 0 <= k < |FORMAT.pack(v)|
      ensures FORMAT.unpack(FORMAT.pack(v)[..k]) == None
    {
      CutDoesNotUnpack(v, k);
    }
  }

  // ---- Messages that meet every condition, and messages that are lost ----

  lemma PackOne(v: Val)
    requires Fits(v)
    ensures PackItems([v]) == Pack(v)
  {
    assert [v][1..] == [];
    Empty(Pack(v));
  }

  lemma PackMore(v: Val, items: seq<Val>)
    requires Fits(v) && forall i :: i in items ==> Fits(i)
    ensures PackItems([v] + items) == Pack(v) + PackItems(items)
  {
    ConsTail(v, items);
    assert forall i :: i in [v] + items ==> Fits(i);
  }

  lemma PackShortArray(items: seq<Val>)
    requires (forall i :: i in items ==> Fits(i)) && |items| < 16
    ensures Fits(Arr(items)) && Pack(Arr(items)) == [0x90 + |items|] + PackItems(items)
  {
    assert PackHead(ArrHead(|items|)) == [0x90 + |items|];
  }

  lemma PackEmpty()
    ensures Fits(EMPTY) && Pack(EMPTY) == [0x80]
  {
    Empty([0x80 as byte]);
    assert PackEntries([]) == [];
  }

  lemma PackCancel(id: string)
    requires TextFits(id)
    ensures forall i :: i in [Int(5), EMPTY, Str(id)] ==> Fits(i)
    ensures PackItems([Int(5), EMPTY, Str(id)]) == [0x05] + ([0x80] + PackStr(id))
  {
    assert Fits(Int(5)) && Fits(Str(id));
    PackEmpty();
    PackOne(Str(id));
    PackMore(EMPTY, [Str(id)]);
    PackMore(Int(5), [EMPTY] + [Str(id)]);
    assert [Int(5), EMPTY, Str(id)] == [Int(5)] + ([EMPTY] + [Str(id)]);
    assert Pack(Int(5)) == [0x05];
  }

  /** The body of a cancellation: 93 05 80 and the id. */
  lemma CancelBody(id: string)
    requires TextFits(id)
    ensures FORMAT.fits(Encoded(CancelInvocation(EMPTY, Str(id))))
    ensures FORMAT.pack(Encoded(CancelInvocation(EMPTY, Str(id)))) == [0x93, 0x05, 0x80] + PackStr(id)
  {
    var items := [Int(5), EMPTY, Str(id)];
    EncodedIsLayout(CancelInvocation(EMPTY, Str(id)));
    PackCancel(id);
    PackShortArray(items);
    assert [0x93] + ([0x05] + ([0x80] + PackStr(id))) == [0x93, 0x05, 0x80] + PackStr(id);
  }

  /** A cancellation is sent and carried, its body 3 bytes longer than the id. */
  lemma CancelIsSendable(id: string)
    requires TextFits(id) && |id| < 1000
    ensures var m := CancelInvocation(EMPTY, Str(id));
            Sendable(HubCodec(FORMAT), m) && |Body(HubCodec(FORMAT), m)| == 3 + |PackStr(id)|
  {
    FormatIsLawful();
    CancelBody(id);
    SendableMessages(FORMAT, CancelInvocation(EMPTY, Str(id)));
  }

  /**
   The defect of the length loop on two real messages: a cancellation with an empty id, and one
   with a long id behind it, which is lost.
   */
  lemma CancellationIsLost(id: string)
    requires IsAscii(id) && 128 <= |id| < 1000
    ensures var first, second := CancelInvocation(EMPTY, Str("")), CancelInvocation(EMPTY, Str(id));
            Parsed(HubCodec(FORMAT), Sent(HubCodec(FORMAT), [first, second])) == [first]
  {
    var c := HubCodec(FORMAT);
    var first, second := CancelInvocation(EMPTY, Str("")), CancelInvocation(EMPTY, Str(id));
    CancelIsSendable("");
    CancelIsSendable(id);
    assert |PackStr("")| == 1;
    OffsetFiveLosesTheRest(c, first, second);
  }
}
