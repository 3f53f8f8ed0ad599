/**
 The brace scanner that cuts a JSON object out of a text, and a tree grammar of brace groups
 that says what it cuts.
 */
module JsonScanner {
  import opened Seqs
  import opened Text

  function Later(n: Option<nat>): Option<nat> {
    match n
    case None => None
    case Some(k) => Some(k + 1)
  }

  function Plus(n: nat, m: Option<nat>): Option<nat> {
    match m
    case None => None
    case Some(k) => Some(n + k)
  }

  /** The loop of the scanner from a given state: how many characters up to the closing brace. */
  function Scan(s: string, depth: int, inString: bool, escapeNext: bool): (n: Option<nat>)
    ensures n.Some? ==> 1 <= n.value <= |s|
  {
    if s == "" then None
    else if escapeNext then Later(Scan(s[1..], depth, inString, false))
    else if s[0] == '\\' && inString then Later(Scan(s[1..], depth, inString, true))
    else if s[0] == '"' then Later(Scan(s[1..], depth, !inString, false))
    else if inString then Later(Scan(s[1..], depth, inString, false))
    else if s[0] == '{' then Later(Scan(s[1..], depth + 1, inString, false))
    else if s[0] == '}' then
      if depth - 1 == 0 then Some(1) else Later(Scan(s[1..], depth - 1, inString, false))
    else Later(Scan(s[1..], depth, inString, false))
  }

  /** The text cut out, or None for the `ValueError`. */
  function CutObject(text: string): Option<string> {
    var start := Find(text, "{");
    if start == -1 then None else
    match Scan(text[start..], 0, false, false)
    case None => None
    case Some(n) => Some(text[start..start + n])
  }

  /** `n` is where the scan that began at `start` ends, seen from position `i` in the given state. */
  ghost predicate Continues(text: string, start: nat, n: Option<nat>, i: nat, depth: int, inString: bool, escapeNext: bool)
    requires start <= i <= |text|
  {
    n == Plus(i - start, Scan(text[i..], depth, inString, escapeNext))
  }

  /** One turn of the scanning loop, branch by branch. */
  lemma ScanTurn(text: string, start: nat, n: Option<nat>, i: nat, depth: int, inString: bool, escapeNext: bool)
    requires start <= i < |text|
    requires Continues(text, start, n, i, depth, inString, escapeNext)
    ensures var c := text[i];
            if escapeNext then Continues(text, start, n, i + 1, depth, inString, false)
            else if c == '\\' && inString then Continues(text, start, n, i + 1, depth, inString, true)
            else if c == '"' then Continues(text, start, n, i + 1, depth, !inString, false)
            else if inString then Continues(text, start, n, i + 1, depth, inString, false)
            else if c == '{' then Continues(text, start, n, i + 1, depth + 1, inString, false)
            else if c != '}' then Continues(text, start, n, i + 1, depth, inString, false)
            else if depth - 1 != 0 then Continues(text, start, n, i + 1, depth - 1, inString, false)
            else n == Some(i - start + 1)
  {
    SkipSkip(text, i, 1);
  }

  method ParseSseToJson(text: string) returns (result: Option<string>)
    ensures result == CutObject(text)
  {
    var start := Find(text, "{");
    if start == -1 {
      return None;
    }
    var depth := 0;
    var inString := false;
    var escapeNext := false;
    var i := start;
    ghost var target := Scan(text[start..], 0, false, false);
    while i < |text|
      invariant start <= i <= |text|
      invariant Continues(text, start, target, i, depth, inString, escapeNext)
    {
      var c := text[i];
      ScanTurn(text, start, target, i, depth, inString, escapeNext);
      i := i + 1;
      if escapeNext {
        escapeNext := false;
        continue;
      }
      if c == '\\' && inString {
        escapeNext := true;
        continue;
      }
      if c == '"' {
        inString := !inString;
        continue;
      }
      if inString {
        continue;
      }
      if c == '{' {
        depth := depth + 1;
      } else if c == '}' {
        depth := depth - 1;
        if depth == 0 {
          return Some(text[start..i]);
        }
      }
    }
    return None;
  }

  // ---- What a brace group is, with no scanner in sight ----

  /** One unit inside a quoted string: a character, or a backslash with the character it protects. */
  datatype StringItem = Char(c: char) | Escape(c: char)

  predicate ItemsOk(items: seq<StringItem>) {
    forall i :: i in items && i.Char? ==> i.c != '"' && i.c != '\\'
  }

  function ItemText(item: StringItem): string {
    match item
    case Char(c) => [c]
    case Escape(c) => ['\\', c]
  }

  function ItemsText(items: seq<StringItem>): string {
    if items == [] then "" else ItemText(items[0]) + ItemsText(items[1..])
  }

  /** The inside of a brace group: plain characters, quoted strings and nested groups. */
  datatype Body =
    | End
    | Plain(c: char, rest: Body)
    | Quoted(items: seq<StringItem>, rest: Body)
    | Nested(inner: Body, rest: Body)
  {
    predicate WellFormed() {
      match this
      case End => true
      case Plain(c, rest) => c != '"' && c != '{' && c != '}' && rest.WellFormed()
      case Quoted(items, rest) => ItemsOk(items) && rest.WellFormed()
      case Nested(inner, rest) => inner.WellFormed() && rest.WellFormed()
    }

    function Text(): string {
      match this
      case End => ""
      case Plain(c, rest) => [c] + rest.Text()
      case Quoted(items, rest) => "\"" + ItemsText(items) + "\"" + rest.Text()
      case Nested(inner, rest) => "{" + inner.Text() + "}" + rest.Text()
    }
  }

  predicate IsGroup(s: string, body: Body) {
    body.WellFormed() && s == "{" + body.Text() + "}"
  }

  /** One turn of the scanner inside a string, two when it meets a backslash. */
  lemma ScanItem(item: StringItem, t: string, depth: int)
    requires item.Char? ==> item.c != '"' && item.c != '\\'
    ensures Scan(ItemText(item) + t, depth, true, false)
            == Plus(|ItemText(item)|, Scan(t, depth, true, false))
  {
    match item
    case Char(c) =>
      ConsTail(c, t);
    case Escape(c) =>
      Assoc(['\\'], [c], t);
      ConsTail('\\', [c] + t);
      ConsTail(c, t);
      assert Scan([c] + t, depth, true, true) == Later(Scan(t, depth, true, false));
  }

  /** Inside a string the scanner runs to the closing quote. */
  lemma {:induction false} ScanItems(items: seq<StringItem>, rest: string, depth: int)
    requires ItemsOk(items)
    ensures Scan(ItemsText(items) + "\"" + rest, depth, true, false)
            == Plus(|ItemsText(items)| + 1, Scan(rest, depth, false, false))
    decreases |items|
  {
    if items == [] {
      assert ItemsText(items) + "\"" + rest == ['"'] + rest;
      ConsTail('"', rest);
    } else {
      ScanItems(items[1..], rest, depth);
      assert items[0] in items;
      ScanItem(items[0], ItemsText(items[1..]) + "\"" + rest, depth);
      Uncons(items);
      ItemsConsText(items[0], items[1..], rest);
    }
  }

  /** One turn of the scanner outside strings. */
  lemma ScanCons(c: char, t: string, depth: int)
    ensures Scan([c] + t, depth, false, false)
            == if c == '"' then Later(Scan(t, depth, true, false))
               else if c == '{' then Later(Scan(t, depth + 1, false, false))
               else if c == '}' then
                 if depth == 1 then Some(1) else Later(Scan(t, depth - 1, false, false))
               else Later(Scan(t, depth, false, false))
  {
    assert ([c] + t)[1..] == t;
  }

  lemma QuotedCons(items: seq<StringItem>, tail: Body, rest: string)
    ensures Quoted(items, tail).Text() + rest == ['"'] + (ItemsText(items) + "\"" + (tail.Text() + rest))
    ensures |Quoted(items, tail).Text()| == 2 + |ItemsText(items)| + |tail.Text()|
  {
    Assoc("\"" + ItemsText(items) + "\"", tail.Text(), rest);
    Assoc("\"" + ItemsText(items), "\"", tail.Text() + rest);
    Assoc("\"", ItemsText(items), "\"" + (tail.Text() + rest));
    Assoc(ItemsText(items), "\"", tail.Text() + rest);
  }

  lemma NestedCons(inner: Body, tail: Body, rest: string)
    ensures Nested(inner, tail).Text() + rest == ['{'] + (inner.Text() + (['}'] + (tail.Text() + rest)))
    ensures |Nested(inner, tail).Text()| == 2 + |inner.Text()| + |tail.Text()|
  {
    Assoc("{" + inner.Text() + "}", tail.Text(), rest);
    Assoc("{" + inner.Text(), "}", tail.Text() + rest);
    Assoc("{", inner.Text(), "}" + (tail.Text() + rest));
  }

  /** The scanner passes over `body` standing before `rest` and is back where it was. */
  predicate Passes(body: Body, rest: string, depth: int) {
    Scan(body.Text() + rest, depth, false, false)
    == Plus(|body.Text()|, Scan(rest, depth, false, false))
  }

  lemma PassesPlain(c: char, tail: Body, rest: string, depth: int)
    requires Passes(tail, rest, depth) && c != '"' && c != '{' && c != '}'
    ensures Passes(Plain(c, tail), rest, depth)
  {
    Assoc([c], tail.Text(), rest);
    ScanCons(c, tail.Text() + rest, depth);
  }

  lemma PassesQuoted(items: seq<StringItem>, tail: Body, rest: string, depth: int)
    requires Passes(tail, rest, depth) && ItemsOk(items)
    ensures Passes(Quoted(items, tail), rest, depth)
  {
    var after := tail.Text() + rest;
    QuotedCons(items, tail, rest);
    ScanCons('"', ItemsText(items) + "\"" + after, depth);
    ScanItems(items, after, depth);
  }

  lemma PassesNested(inner: Body, tail: Body, rest: string, depth: int)
    requires depth >= 1
    requires Passes(tail, rest, depth)
    requires Passes(inner, ['}'] + (tail.Text() + rest), depth + 1)
    ensures Passes(Nested(inner, tail), rest, depth)
  {
    var after := ['}'] + (tail.Text() + rest);
    NestedCons(inner, tail, rest);
    ScanCons('{', inner.Text() + after, depth);
    ScanCons('}', tail.Text() + rest, depth + 1);
  }

  /** Through a whole body the scanner returns to the depth and mode it started from. */
  lemma {:induction false} ScanBody(body: Body, rest: string, depth: int)
    requires body.WellFormed() && depth >= 1
    ensures Passes(body, rest, depth)
    decreases body
  {
    match body
    case End =>
      Empty(rest);
    case Plain(c, tail) =>
      ScanBody(tail, rest, depth);
      PassesPlain(c, tail, rest, depth);
    case Quoted(items, tail) =>
      ScanBody(tail, rest, depth);
      PassesQuoted(items, tail, rest, depth);
    case Nested(inner, tail) =>
      ScanBody(tail, rest, depth);
      ScanBody(inner, ['}'] + (tail.Text() + rest), depth + 1);
      PassesNested(inner, tail, rest, depth);
  }

  /** Whatever follows, the scanner started at a group stops exactly at its end. */
  lemma ScanGroup(s: string, body: Body, suffix: string)
    requires IsGroup(s, body)
    ensures Scan(s + suffix, 0, false, false) == Some(|s|)
  {
    var after := "}" + suffix;
    ScanBody(body, after, 1);
    assert (s + suffix)[1..] == body.Text() + after;
  }

  /** String items and the closing quote found in a scan: `s` is the items, the quote and `rest`. */
  ghost predicate ClosesItems(s: string, depth: int, items: seq<StringItem>, rest: string) {
    && ItemsOk(items)
    && s == ItemsText(items) + "\"" + rest
    && Scan(s, depth, true, false) == Plus(|ItemsText(items)| + 1, Scan(rest, depth, false, false))
  }

  lemma ItemsConsText(item: StringItem, items: seq<StringItem>, rest: string)
    ensures ItemsText([item] + items) == ItemText(item) + ItemsText(items)
    ensures ItemsText([item] + items) + "\"" + rest == ItemText(item) + (ItemsText(items) + "\"" + rest)
  {
    ConsTail(item, items);
    Assoc(ItemText(item), ItemsText(items), "\"");
    Assoc(ItemText(item), ItemsText(items) + "\"", rest);
  }

  /** A scan that starts inside a string went through string items and a closing quote. */
  lemma {:induction false} ScannedItems(s: string, depth: int) returns (items: seq<StringItem>, rest: string)
    requires Scan(s, depth, true, false).Some?
    ensures ClosesItems(s, depth, items, rest)
    decreases |s|
  {
    var t := s[1..];
    Uncons(s);
    if s[0] == '\\' {
      Uncons(t);
      var more;
      more, rest := ScannedItems(t[1..], depth);
      items := [Escape(t[0])] + more;
      ItemsConsText(Escape(t[0]), more, rest);
      Assoc([s[0]], [t[0]], t[1..]);
    } else if s[0] == '"' {
      items, rest := [], t;
    } else {
      var more;
      more, rest := ScannedItems(t, depth);
      items := [Char(s[0])] + more;
      ItemsConsText(Char(s[0]), more, rest);
    }
  }

  /** A body and its closing brace found in a scan: `s` is the body, the brace and `rest`. */
  ghost predicate ClosesBody(s: string, depth: int, body: Body, rest: string) {
    && body.WellFormed()
    && s == body.Text() + (['}'] + rest)
    && Scan(s, depth, false, false)
       == if depth == 1 then Some(|body.Text()| + 1)
          else Plus(|body.Text()| + 1, Scan(rest, depth - 1, false, false))
  }

  lemma PlainCloses(c: char, t: string, depth: int, tail: Body, rest: string)
    requires ClosesBody(t, depth, tail, rest) && c != '"' && c != '{' && c != '}'
    ensures ClosesBody([c] + t, depth, Plain(c, tail), rest)
  {
    ScanCons(c, t, depth);
    Assoc([c], tail.Text(), ['}'] + rest);
  }

  lemma QuotedCloses(items: seq<StringItem>, after: string, depth: int, tail: Body, rest: string)
    requires ClosesBody(after, depth, tail, rest) && ItemsOk(items)
    ensures ClosesBody(['"'] + (ItemsText(items) + "\"" + after), depth, Quoted(items, tail), rest)
  {
    ScanCons('"', ItemsText(items) + "\"" + after, depth);
    ScanItems(items, after, depth);
    QuotedCons(items, tail, ['}'] + rest);
  }

  lemma NestedCloses(t: string, depth: int, inner: Body, after: string, tail: Body, rest: string)
    requires depth >= 1
    requires ClosesBody(t, depth + 1, inner, after) && ClosesBody(after, depth, tail, rest)
    ensures ClosesBody(['{'] + t, depth, Nested(inner, tail), rest)
  {
    ScanCons('{', t, depth);
    NestedCons(inner, tail, ['}'] + rest);
  }

  /** A scan that ends went through a body and the brace that closes it. */
  lemma {:induction false} ScannedBody(s: string, depth: int) returns (body: Body, rest: string)
    requires depth >= 1 && Scan(s, depth, false, false).Some?
    ensures ClosesBody(s, depth, body, rest)
    decreases |s|
  {
    var t := s[1..];
    assert s == [s[0]] + t;
    ScanCons(s[0], t, depth);
    if s[0] == '}' {
      body, rest := End, t;
    } else if s[0] == '{' {
      var inner, after := ScannedBody(t, depth + 1);
      var tail;
      tail, rest := ScannedBody(after, depth);
      body := Nested(inner, tail);
      NestedCloses(t, depth, inner, after, tail, rest);
    } else if s[0] == '"' {
      var items, after := ScannedItems(t, depth);
      var tail;
      tail, rest := ScannedBody(after, depth);
      body := Quoted(items, tail);
      QuotedCloses(items, after, depth, tail, rest);
    } else {
      var tail;
      tail, rest := ScannedBody(t, depth);
      body := Plain(s[0], tail);
      PlainCloses(s[0], t, depth, tail, rest);
    }
  }

  /** `t` is the brace group that starts at the first opening brace of `text`. */
  ghost predicate FirstGroup(text: string, t: string) {
    exists prefix: string, suffix: string, body: Body ::
      '{' !in prefix && text == prefix + t + suffix && IsGroup(t, body)
  }

  lemma FirstGroupIsCut(prefix: string, t: string, suffix: string, body: Body)
    requires '{' !in prefix && IsGroup(t, body)
    ensures CutObject(prefix + t + suffix) == Some(t)
  {
    var text := prefix + t + suffix;
    assert text == prefix + ['{'] + (t[1..] + suffix);
    FindChar(prefix, '{', t[1..] + suffix);
    assert text[|prefix|..] == t + suffix;
    ScanGroup(t, body, suffix);
  }

  /** The scanner returns exactly the brace group at the first opening brace; it fails iff there is none. */
  lemma ScannerMeetsGrammar(text: string, t: string)
    ensures CutObject(text) == Some(t) <==> FirstGroup(text, t)
  {
    if FirstGroup(text, t) {
      var prefix, suffix, body :|
        '{' !in prefix && text == prefix + t + suffix && IsGroup(t, body);
      FirstGroupIsCut(prefix, t, suffix, body);
    }
    if CutObject(text) == Some(t) {
      CutIsFirstGroup(text, t);
    }
  }

  lemma CutIsFirstGroup(text: string, t: string)
    requires CutObject(text) == Some(t)
    ensures FirstGroup(text, t)
  {
    var start := Find(text, "{");
    var s, prefix := text[start..], text[..start];
    Rejoin(text, start);
    assert text[start..start + 1] == "{";
    assert s == ['{'] + s[1..];
    ScanCons('{', s[1..], 0);
    var body, rest := ScannedBody(s[1..], 1);
    var group := "{" + body.Text() + "}";
    Assoc("{", body.Text(), "}" + rest);
    Assoc("{" + body.Text(), "}", rest);
    CutMiddle(group, rest);
    assert t == group by {
      SkipSkip(text, start, |group|);
    }
    assert IsGroup(t, body);
    forall k | 0 <= k < start
      ensures prefix[k] != '{'
    {
      assert !OccursAt(text, "{", k);
      assert text[k..k + 1] == [text[k]];
    }
    Assoc(prefix, t, rest);
  }

  /** No group is a proper prefix of another, so the one returned is the shortest. */
  lemma GroupsArePrefixFree(a: string, b: string, left: Body, right: Body)
    requires IsGroup(a, left) && IsGroup(b, right) && a <= b
    ensures a == b
  {
    ScanGroup(a, left, b[|a|..]);
    ScanGroup(b, right, "");
    assert a + b[|a|..] == b && b + "" == b;
  }
}
