/**
 JSON texts as section 2 to 7 of RFC 8259 describe them, whitespace included, as trees
 with their text. Every object text is a brace group, so the scanner cuts it out whole.
 */
module JsonGrammar {
  import opened Seqs
  import opened Text
  import opened JsonScanner

  predicate IsBlank(c: char) {
    c == ' ' || c == '\t' || c == '\n' || c == '\r'
  }

  predicate IsWhitespace(s: string) {
    forall c :: c in s ==> IsBlank(c)
  }

  /** The characters numbers and the three literal names are made of. */
  predicate IsLexeme(s: string) {
    s != "" && forall c :: c in s ==>
      '0' <= c <= '9' || 'a' <= c <= 'z' || c == 'E' || c == '+' || c == '-' || c == '.'
  }

  /** Section 7: unescaped characters are neither control characters, quotes nor backslashes. */
  predicate IsJsonString(items: seq<StringItem>) {
    forall i :: i in items ==>
      if i.Char? then i.c >= ' ' && i.c != '"' && i.c != '\\' else i.c in "\"\\/bfnrtu"
  }

  datatype Value =
    | Scalar(lexeme: string)
    | String(items: seq<StringItem>)
    | EmptyArray(space: string)
    | Array(elements: Elements)
    | EmptyObject(space: string)
    | Object(members: Members)
  {
    predicate WellFormed() {
      match this
      case Scalar(lexeme) => IsLexeme(lexeme)
      case String(items) => IsJsonString(items)
      case EmptyArray(space) => IsWhitespace(space)
      case Array(elements) => elements.WellFormed()
      case EmptyObject(space) => IsWhitespace(space)
      case Object(members) => members.WellFormed()
    }

    function Text(): string {
      match this
      case Scalar(lexeme) => lexeme
      case String(items) => "\"" + ItemsText(items) + "\""
      case EmptyArray(space) => "[" + space + "]"
      case Array(elements) => "[" + elements.Text() + "]"
      case EmptyObject(space) => "{" + space + "}"
      case Object(members) => "{" + members.Text() + "}"
    }

    predicate IsObject() {
      EmptyObject? || Object?
    }
  }

  datatype Elements =
    | LastElement(before: string, value: Value, after: string)
    | MoreElements(before: string, value: Value, after: string, rest: Elements)
  {
    predicate WellFormed() {
      && IsWhitespace(before) && value.WellFormed() && IsWhitespace(after)
      && (MoreElements? ==> rest.WellFormed())
    }

    function Text(): string {
      before + value.Text() + after + if LastElement? then "" else "," + rest.Text()
    }
  }

  datatype Members =
    | LastMember(before: string, name: seq<StringItem>, colon: string, value: Value, after: string)
    | MoreMembers(before: string, name: seq<StringItem>, colon: string, value: Value, after: string, rest: Members)
  {
    /** `colon` is the colon with the whitespace around it. */
    predicate WellFormed() {
      && IsWhitespace(before) && IsJsonString(name)
      && colon != "" && (forall c :: c in colon ==> c == ':' || IsBlank(c))
      && value.WellFormed() && IsWhitespace(after)
      && (MoreMembers? ==> rest.WellFormed())
    }

    function Text(): string {
      before + "\"" + ItemsText(name) + "\"" + colon + value.Text() + after
      + if LastMember? then "" else "," + rest.Text()
    }
  }

  // ---- Reading a JSON tree as a brace body ----

  function Plains(s: string, tail: Body): (b: Body)
    requires tail.WellFormed()
    requires forall c :: c in s ==> c != '"' && c != '{' && c != '}'
    ensures b.WellFormed() && b.Text() == s + tail.Text()
  {
    if s == "" then tail
    else
      Uncons(s);
      Assoc([s[0]], s[1..], tail.Text());
      assert forall c :: c in s[1..] ==> c in s;
      assert s[0] in s;
      Plain(s[0], Plains(s[1..], tail))
  }

  function QuotedBody(items: seq<StringItem>, tail: Body): (b: Body)
    requires tail.WellFormed() && IsJsonString(items)
    ensures b.WellFormed() && b.Text() == "\"" + ItemsText(items) + "\"" + tail.Text()
  {
    Quoted(items, tail)
  }

  lemma BracketedCons(open: string, inner: string, close: string, tail: string)
    ensures open + inner + close + tail == open + (inner + (close + tail))
  {
    Assoc(open + inner, close, tail);
    Assoc(open, inner, close + tail);
  }

  lemma ElementsCons(e: Elements, tail: string)
    ensures var next := if e.LastElement? then tail else [','] + (e.rest.Text() + tail);
            e.Text() + tail == e.before + (e.value.Text() + (e.after + next))
  {
    var more := if e.LastElement? then "" else "," + e.rest.Text();
    Assoc(e.before + e.value.Text() + e.after, more, tail);
    if e.MoreElements? {
      Assoc(",", e.rest.Text(), tail);
    } else {
      Empty(tail);
    }
    Assoc(e.before + e.value.Text(), e.after, more + tail);
    Assoc(e.before, e.value.Text(), e.after + (more + tail));
  }

  lemma MembersCons(m: Members, tail: string)
    ensures var next := if m.LastMember? then tail else [','] + (m.rest.Text() + tail);
            m.Text() + tail
            == m.before + ("\"" + ItemsText(m.name) + "\"" + (m.colon + (m.value.Text() + (m.after + next))))
  {
    var name := "\"" + ItemsText(m.name) + "\"";
    var more := if m.LastMember? then "" else "," + m.rest.Text();
    Assoc(m.before + "\"", ItemsText(m.name), "\"");
    Assoc(m.before, "\"", ItemsText(m.name) + "\"");
    Assoc("\"", ItemsText(m.name), "\"");
    assert m.Text() == m.before + name + m.colon + m.value.Text() + m.after + more;
    Assoc(m.before + name + m.colon + m.value.Text() + m.after, more, tail);
    if m.MoreMembers? {
      Assoc(",", m.rest.Text(), tail);
    } else {
      Empty(tail);
    }
    Assoc(m.before + name + m.colon + m.value.Text(), m.after, more + tail);
    Assoc(m.before + name + m.colon, m.value.Text(), m.after + (more + tail));
    Assoc(m.before + name, m.colon, m.value.Text() + (m.after + (more + tail)));
    Assoc(m.before, name, m.colon + (m.value.Text() + (m.after + (more + tail))));
  }

  function ValueBody(v: Value, tail: Body): (b: Body)
    requires v.WellFormed() && tail.WellFormed()
    ensures b.WellFormed() && b.Text() == v.Text() + tail.Text()
    decreases v
  {
    match v
    case Scalar(lexeme) => Plains(lexeme, tail)
    case String(items) => QuotedBody(items, tail)
    case EmptyArray(space) => Plains("[" + space + "]", tail)
    case Array(elements) =>
      BracketedCons("[", elements.Text(), "]", tail.Text());
      Plain('[', ElementsBody(elements, Plain(']', tail)))
    case EmptyObject(space) =>
      var inner := Plains(space, End);
      Empty(space);
      Nested(inner, tail)
    case Object(members) =>
      var inner := MembersBody(members, End);
      Empty(members.Text());
      Nested(inner, tail)
  }

  function ElementsBody(e: Elements, tail: Body): (b: Body)
    requires e.WellFormed() && tail.WellFormed()
    ensures b.WellFormed() && b.Text() == e.Text() + tail.Text()
    decreases e
  {
    ElementsCons(e, tail.Text());
    var next := if e.LastElement? then tail else Plain(',', ElementsBody(e.rest, tail));
    Plains(e.before, ValueBody(e.value, Plains(e.after, next)))
  }

  function MembersBody(m: Members, tail: Body): (b: Body)
    requires m.WellFormed() && tail.WellFormed()
    ensures b.WellFormed() && b.Text() == m.Text() + tail.Text()
    decreases m
  {
    MembersCons(m, tail.Text());
    var next := if m.LastMember? then tail else Plain(',', MembersBody(m.rest, tail));
    var value := ValueBody(m.value, Plains(m.after, next));
    assert forall c :: c in m.colon ==> c != '"' && c != '{' && c != '}';
    Plains(m.before, QuotedBody(m.name, Plains(m.colon, value)))
  }

  /** Every JSON object text is a brace group. */
  lemma ObjectIsGroup(v: Value) returns (body: Body)
    requires v.WellFormed() && v.IsObject()
    ensures IsGroup(v.Text(), body)
  {
    body := if v.Object? then MembersBody(v.members, End) else Plains(v.space, End);
    Empty(if v.Object? then v.members.Text() else v.space);
  }

  /** A JSON object comes out of the scanner whole, whatever stands around it. */
  lemma ObjectIsCut(prefix: string, v: Value, suffix: string)
    requires '{' !in prefix
    requires v.WellFormed() && v.IsObject()
    ensures CutObject(prefix + v.Text() + suffix) == Some(v.Text())
  {
    var body := ObjectIsGroup(v);
    FirstGroupIsCut(prefix, v.Text(), suffix, body);
  }

  // ---- JSON texts hold no record separator ----

  predicate Clean(s: string) {
    RECORD_SEPARATOR !in s
  }

  lemma {:induction false} ItemsClean(items: seq<StringItem>)
    requires IsJsonString(items)
    ensures Clean(ItemsText(items))
  {
    if items != [] {
      assert items[0] in items;
      ItemsClean(items[1..]);
    }
  }

  lemma {:induction false} ValueClean(v: Value)
    requires v.WellFormed()
    ensures Clean(v.Text())
    decreases v
  {
    match v
    case String(items) => ItemsClean(items);
    case Array(elements) => ElementsClean(elements);
    case Object(members) => MembersClean(members);
    case _ =>
  }

  lemma {:induction false} ElementsClean(e: Elements)
    requires e.WellFormed()
    ensures Clean(e.Text())
    decreases e
  {
    ValueClean(e.value);
    if e.MoreElements? {
      ElementsClean(e.rest);
    }
  }

  lemma {:induction false} MembersClean(m: Members)
    requires m.WellFormed()
    ensures Clean(m.Text())
    decreases m
  {
    ItemsClean(m.name);
    ValueClean(m.value);
    if m.MoreMembers? {
      MembersClean(m.rest);
    }
  }
}
