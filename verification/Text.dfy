/** Strings as sequences of code points: searching, splitting and stripping as Python does it. */
module Text {
  import opened Seqs

  datatype Option<+T> = None | Some(value: T) {
    predicate IsFailure() {
      None?
    }

    function PropagateFailure<U>(): Option<U>
      requires None?
    {
      None
    }

    function Extract(): T
      requires Some?
    {
      value
    }
  }

  const CRLF: string := "\r\n"
  const RECORD_SEPARATOR: char := '\U{1e}'

  /** Pattern `p` stands in `s` at index `i`. */
  predicate OccursAt(s: string, p: string, i: int) {
    0 <= i <= |s| - |p| && s[i..i + |p|] == p
  }

  /** The first occurrence of `p` at or after `i`, or -1. */
  function FindFrom(s: string, p: string, i: nat): (r: int)
    ensures r == -1 || (i <= r && OccursAt(s, p, r))
    ensures forall j :: i <= j && (r == -1 || j < r) ==> !OccursAt(s, p, j)
    decreases |s| - i
  {
    if i + |p| > |s| then -1
    else if OccursAt(s, p, i) then i
    else FindFrom(s, p, i + 1)
  }

  /** `s.find(p)` */
  function Find(s: string, p: string): (r: int)
    ensures r == -1 || OccursAt(s, p, r)
    ensures forall j :: r == -1 || j < r ==> !OccursAt(s, p, j)
  {
    FindFrom(s, p, 0)
  }

  /** An occurrence with none before it is the one found. */
  lemma FindIs(s: string, p: string, i: int)
    requires OccursAt(s, p, i)
    requires forall j :: 0 <= j < i ==> !OccursAt(s, p, j)
    ensures Find(s, p) == i
  {
    var r := Find(s, p);
    assert r == -1 || r < i ==> !OccursAt(s, p, i) || OccursAt(s, p, r);
  }

  /** What follows a string does not matter to occurrences inside it. */
  lemma OccursInside(s: string, more: string, p: string, i: int)
    ensures i + |p| <= |s| ==> (OccursAt(s + more, p, i) <==> OccursAt(s, p, i))
  {
    if 0 <= i && i + |p| <= |s| {
      assert (s + more)[i..i + |p|] == s[i..i + |p|];
    }
  }

  /** Once a pattern has been found, no later bytes move it. */
  lemma FindStable(s: string, more: string, p: string)
    requires Find(s, p) != -1
    ensures Find(s + more, p) == Find(s, p)
  {
    var i := Find(s, p);
    OccursInside(s, more, p, i);
    forall j | 0 <= j < i
      ensures !OccursAt(s + more, p, j)
    {
      OccursInside(s, more, p, j);
    }
    FindIs(s + more, p, i);
  }

  /** `s.split(c)` for a one-character separator. */
  function Split(s: string, c: char): (parts: seq<string>)
    ensures |parts| >= 1
    ensures forall k :: 0 <= k < |parts| ==> c !in parts[k]
    decreases |s|
  {
    var i := Find(s, [c]);
    if i == -1 then
      assert forall k :: 0 <= k < |s| ==> (s[k] == c ==> OccursAt(s, [c], k));
      [s]
    else
      assert forall k :: 0 <= k < i ==> (s[k] == c ==> OccursAt(s, [c], k));
      [s[..i]] + Split(s[i + 1..], c)
  }

  /** `c.join(parts)` for a one-character separator. */
  function Join(parts: seq<string>, c: char): string {
    if parts == [] then ""
    else if |parts| == 1 then parts[0]
    else parts[0] + [c] + Join(parts[1..], c)
  }

  function Concat(parts: seq<string>): string {
    if parts == [] then "" else parts[0] + Concat(parts[1..])
  }

  /** Each record followed by the separator, as every encoder of the library writes it. */
  function Terminated(records: seq<string>, c: char): string {
    if records == [] then "" else records[0] + [c] + Terminated(records[1..], c)
  }

  lemma FindChar(a: string, c: char, b: string)
    requires c !in a
    ensures Find(a + [c] + b, [c]) == |a|
  {
    var s := a + [c] + b;
    forall j | 0 <= j < |a|
      ensures !OccursAt(s, [c], j)
    {
      assert s[j..j + 1][0] == a[j];
    }
    FindIs(s, [c], |a|);
  }

  lemma FindNoChar(a: string, c: char)
    requires c !in a
    ensures Find(a, [c]) == -1
  {
    forall j | 0 <= j < |a|
      ensures !OccursAt(a, [c], j)
    {
      assert a[j..j + 1][0] == a[j];
    }
  }

  lemma FoundChar(a: string, c: char)
    requires Find(a, [c]) == -1
    ensures c !in a
  {
    if c in a {
      var i :| 0 <= i < |a| && a[i] == c;
      assert OccursAt(a, [c], i);
    }
  }

  lemma SplitFirst(a: string, c: char, b: string)
    requires c !in a
    ensures Split(a + [c] + b, c) == [a] + Split(b, c)
  {
    FindChar(a, c, b);
    var s := a + [c] + b;
    assert s[..|a|] == a && s[|a| + 1..] == b;
  }

  lemma SplitNone(a: string, c: char)
    requires c !in a
    ensures Split(a, c) == [a]
  {
    FindNoChar(a, c);
  }

  lemma TerminatedCons(records: seq<string>, tail: string, c: char)
    requires records != []
    ensures Terminated(records, c) + tail == records[0] + [c] + (Terminated(records[1..], c) + tail)
  {
    Assoc(records[0] + [c], Terminated(records[1..], c), tail);
  }

  /** Splitting terminated records gives them back, with what follows the last separator split further. */
  lemma {:induction false} SplitTerminated(records: seq<string>, tail: string, c: char)
    requires forall r :: r in records ==> c !in r
    ensures Split(Terminated(records, c) + tail, c) == records + Split(tail, c)
  {
    if records == [] {
      Empty(tail);
      Empty(Split(tail, c));
    } else {
      SplitTerminated(records[1..], tail, c);
      SplitFirst(records[0], c, Terminated(records[1..], c) + tail);
      TerminatedCons(records, tail, c);
      Assoc([records[0]], records[1..], Split(tail, c));
      Uncons(records);
    }
  }

  /** Splitting joined records gives them back. */
  lemma {:induction false} SplitJoin(records: seq<string>, c: char)
    requires records != []
    requires forall r :: r in records ==> c !in r
    ensures Split(Join(records, c), c) == records
  {
    if |records| == 1 {
      SplitNone(records[0], c);
    } else {
      SplitJoin(records[1..], c);
      SplitFirst(records[0], c, Join(records[1..], c));
    }
  }

  /** Terminated records are joined records with one more separator. */
  lemma {:induction false} TerminatedIsJoin(records: seq<string>, c: char)
    requires records != []
    ensures Terminated(records, c) == Join(records, c) + [c]
  {
    if |records| > 1 {
      TerminatedIsJoin(records[1..], c);
    } else {
      assert records[1..] == [];
    }
  }

  lemma {:induction false} ConcatAppend(a: seq<string>, b: seq<string>)
    ensures Concat(a + b) == Concat(a) + Concat(b)
  {
    if a == [] {
      assert a + b == b;
    } else {
      ConcatAppend(a[1..], b);
      CutLeft(a, b, 1);
      Assoc(a[0], Concat(a[1..]), Concat(b));
    }
  }

  lemma {:induction false} TerminatedAppend(a: seq<string>, b: seq<string>, c: char)
    ensures Terminated(a + b, c) == Terminated(a, c) + Terminated(b, c)
  {
    if a == [] {
      assert a + b == b;
    } else {
      TerminatedAppend(a[1..], b, c);
      CutLeft(a, b, 1);
      TerminatedCons(a, Terminated(b, c), c);
    }
  }

  /** The characters `bytes.strip()` removes. */
  predicate IsSpace(c: char) {
    c == ' ' || c == '\t' || c == '\n' || c == '\r' || c == '\U{0b}' || c == '\U{0c}'
  }

  function LStrip(s: string, drop: char -> bool): string {
    if s != "" && drop(s[0]) then LStrip(s[1..], drop) else s
  }

  function RStrip(s: string, drop: char -> bool): string {
    if s != "" && drop(s[|s| - 1]) then RStrip(s[..|s| - 1], drop) else s
  }

  function Strip(s: string): string {
    RStrip(LStrip(s, IsSpace), IsSpace)
  }

  /** Padding made of dropped characters goes; a word with neither end dropped stays. */
  lemma {:induction false} RStripPadding(word: string, pad: string, drop: char -> bool)
    requires word != "" ==> !drop(word[|word| - 1])
    requires forall c :: c in pad ==> drop(c)
    ensures RStrip(word + pad, drop) == word
    decreases |pad|
  {
    if pad == "" {
      assert word + pad == word;
    } else {
      var s := word + pad;
      assert s[..|s| - 1] == word + pad[..|pad| - 1];
      RStripPadding(word, pad[..|pad| - 1], drop);
    }
  }
}
