/** highlight.js: the tags and the escaped text it writes, and reading both back. */
module HighlightTags {
  import opened Wrappers

  // ---------- Escaping ----------

  function Replace(s: string, c: char, sub: string): string {
    if s == "" then "" else (if s[0] == c then sub else [s[0]]) + Replace(s[1..], c, sub)
  }

  /** Three replacements, one after the other. */
  function Escape(s: string): string {
    Replace(Replace(Replace(s, '&', "&amp;"), '<', "&lt;"), '>', "&gt;")
  }

  function EscapeChar(c: char): string {
    if c == '&' then "&amp;" else if c == '<' then "&lt;" else if c == '>' then "&gt;" else [c]
  }

  function EscapeEach(s: string): string { if s == "" then "" else EscapeChar(s[0]) + EscapeEach(s[1..]) }

  lemma {:induction false} ReplaceConcat(a: string, b: string, c: char, sub: string)
    ensures Replace(a + b, c, sub) == Replace(a, c, sub) + Replace(b, c, sub)
    decreases |a|
  {
    if a == "" {
      assert a + b == b;
    } else {
      assert (a + b)[1..] == a[1..] + b;
      ReplaceConcat(a[1..], b, c, sub);
      var first := if a[0] == c then sub else [a[0]];
      assert first + (Replace(a[1..], c, sub) + Replace(b, c, sub)) ==
             first + Replace(a[1..], c, sub) + Replace(b, c, sub);
    }
  }

  lemma {:induction false} ReplaceAbsent(s: string, c: char, sub: string)
    requires c !in s
    ensures Replace(s, c, sub) == s
  {
    if s != "" {
      ReplaceAbsent(s[1..], c, sub);
      assert s == [s[0]] + s[1..];
    }
  }

  lemma ReplaceOne(c: char, x: char, sub: string)
    ensures Replace([x], c, sub) == if x == c then sub else [x]
  {
    assert [x][1..] == "";
    assert Replace([x][1..], c, sub) == "";
    assert sub + "" == sub && [x] + "" == [x];
  }

  lemma EscapeOne(x: char)
    ensures Escape([x]) == EscapeChar(x)
  {
    ReplaceOne('&', x, "&amp;");
    if x == '&' {
      ReplaceAbsent("&amp;", '<', "&lt;");
      ReplaceAbsent("&amp;", '>', "&gt;");
    } else {
      ReplaceOne('<', x, "&lt;");
      if x == '<' {
        ReplaceAbsent("&lt;", '>', "&gt;");
      } else {
        ReplaceOne('>', x, "&gt;");
      }
    }
  }

  lemma EscapeConcat(a: string, b: string)
    ensures Escape(a + b) == Escape(a) + Escape(b)
  {
    ReplaceConcat(a, b, '&', "&amp;");
    ReplaceConcat(Replace(a, '&', "&amp;"), Replace(b, '&', "&amp;"), '<', "&lt;");
    ReplaceConcat(Replace(Replace(a, '&', "&amp;"), '<', "&lt;"), Replace(Replace(b, '&', "&amp;"), '<', "&lt;"), '>',
                  "&gt;");
  }

  /** The replacements do not disturb each other: every character is escaped by itself. */
  lemma {:induction false} EscapeIsEach(s: string)
    ensures Escape(s) == EscapeEach(s)
  {
    if s != "" {
      EscapeIsEach(s[1..]);
      EscapeOne(s[0]);
      assert s == [s[0]] + s[1..];
      EscapeConcat([s[0]], s[1..]);
    }
  }

  predicate NoAngle(s: string) { '<' !in s && '>' !in s }

  lemma {:induction false} EscapedHasNoAngle(s: string)
    ensures NoAngle(Escape(s))
  {
    EscapeIsEach(s);
    EachHasNoAngle(s);
  }

  lemma {:induction false} EachHasNoAngle(s: string)
    ensures NoAngle(EscapeEach(s))
  {
    if s != "" {
      EachHasNoAngle(s[1..]);
    }
  }

  // ---------- Nodes and tags ----------

  datatype Attribute = Attribute(name: string, value: string)

  /** An element; `id` stands for its identity. */
  datatype Node = Node(id: nat, name: string, attributes: seq<Attribute>)

  predicate Named(n: Node) { NoAngle(n.name) && forall i :: 0 <= i < |n.attributes| ==> NoAngle(n.attributes[i].name) }

  /** ASCII letters, A to Z, become small. */
  function Lower(s: string): (r: string)
    ensures |r| == |s|
    ensures forall i :: 0 <= i < |s| ==> r[i] == if 65 <= s[i] as int <= 90 then (s[i] as int + 32) as char else s[i]
  {
    if s == "" then "" else [if 'A' <= s[0] <= 'Z' then s[0] + 32 as char else s[0]] + Lower(s[1..])
  }

  function Attributes(as': seq<Attribute>): string {
    if as' == [] then "" else " " + as'[0].name + "=\"" + Escape(as'[0].value) + "\"" + Attributes(as'[1..])
  }

  function OpenTag(n: Node): string { "<" + n.name + Attributes(n.attributes) + ">" }

  function CloseTag(n: Node): string { "</" + Lower(n.name) + ">" }

  // ---------- Output ----------

  datatype Token = Text(text: string) | Open(node: Node) | Close(node: Node)

  function Shown(t: Token): string {
    match t
    case Text(s) => Escape(s)
    case Open(n) => OpenTag(n)
    case Close(n) => CloseTag(n)
  }

  function Show(ts: seq<Token>): string {
    if ts == [] then "" else Show(ts[..|ts| - 1]) + Shown(ts[|ts| - 1])
  }

  function Texts(ts: seq<Token>): string {
    if ts == [] then "" else Texts(ts[..|ts| - 1]) + if ts[|ts| - 1].Text? then ts[|ts| - 1].text else ""
  }

  /** The elements open after the tokens; None when a tag closes anything but the innermost element. */
  datatype Stack = Bad | Good(nodes: seq<Node>)

  function OpenElements(ts: seq<Token>): Stack {
    if ts == [] then Good([]) else
      var before := OpenElements(ts[..|ts| - 1]);
      if before.Bad? then Bad else
        match ts[|ts| - 1]
        case Text(_) => before
        case Open(n) => Good(before.nodes + [n])
        case Close(n) =>
          if before.nodes != [] && before.nodes[|before.nodes| - 1] == n then Good(before.nodes[..|before.nodes| - 1])
            else Bad
  }

  predicate WellNested(ts: seq<Token>) { OpenElements(ts) == Good([]) }

  lemma Snoc(ts: seq<Token>, t: Token)
    ensures Show(ts + [t]) == Show(ts) + Shown(t)
    ensures Texts(ts + [t]) == Texts(ts) + if t.Text? then t.text else ""
  {
    hide Shown;
    assert (ts + [t])[..|ts|] == ts;
  }

  lemma OpenSnoc(ts: seq<Token>, t: Token, nodes: seq<Node>)
    requires OpenElements(ts) == Good(nodes)
    ensures t.Text? ==> OpenElements(ts + [t]) == Good(nodes)
    ensures t.Open? ==> OpenElements(ts + [t]) == Good(nodes + [t.node])
    ensures t.Close? && nodes != [] && nodes[|nodes| - 1] == t.node ==>
            OpenElements(ts + [t]) == Good(nodes[..|nodes| - 1])
  {
    assert (ts + [t])[..|ts|] == ts;
  }

  // ---------- Taking the tags out ----------

  /** The text up to and including the first '>'. */
  function TagEnd(s: string): (k: nat)
    ensures k <= |s| && (s != "" ==> k > 0)
  {
    if s == "" then 0 else if s[0] == '>' then 1 else 1 + TagEnd(s[1..])
  }

  function Strip(s: string): string
    decreases |s|
  {
    if s == "" then "" else if s[0] == '<' then Strip(s[TagEnd(s)..]) else [s[0]] + Strip(s[1..])
  }

  lemma {:induction false} TagEndIs(inner: string, rest: string)
    requires '>' !in inner
    ensures TagEnd(inner + ">" + rest) == |inner| + 1
  {
    var s := inner + ">" + rest;
    if inner != "" {
      TagEndIs(inner[1..], rest);
      assert s[1..] == inner[1..] + ">" + rest;
    }
  }

  lemma StripTag(inner: string, rest: string)
    requires '>' !in inner
    ensures Strip("<" + inner + ">" + rest) == Strip(rest)
  {
    var s := "<" + inner + ">" + rest;
    TagEndIs("<" + inner, rest);
    assert s == ("<" + inner) + ">" + rest;
    assert s[|inner| + 2..] == rest;
  }

  lemma {:induction false} StripText(text: string, rest: string)
    requires '<' !in text
    ensures Strip(text + rest) == text + Strip(rest)
    decreases |text|
  {
    if text == "" {
      assert text + rest == rest;
    } else {
      assert (text + rest)[1..] == text[1..] + rest;
      StripText(text[1..], rest);
      assert text == [text[0]] + text[1..];
    }
  }

  lemma {:induction false} AttributesHaveNoAngle(as': seq<Attribute>)
    requires forall i :: 0 <= i < |as'| ==> NoAngle(as'[i].name)
    ensures NoAngle(Attributes(as'))
  {
    hide Escape;
    if as' != [] {
      EscapedHasNoAngle(as'[0].value);
      AttributesHaveNoAngle(as'[1..]);
    }
  }

  lemma {:induction false} LowerHasNoAngle(s: string)
    requires NoAngle(s)
    ensures NoAngle(Lower(s))
  {
    if s != "" {
      LowerHasNoAngle(s[1..]);
    }
  }

  predicate NodesNamed(ts: seq<Token>) { forall i :: 0 <= i < |ts| && !ts[i].Text? ==> Named(ts[i].node) }

  lemma {:induction false} StripShown(ts: seq<Token>, rest: string)
    requires NodesNamed(ts)
    ensures Strip(Show(ts) + rest) == Escape(Texts(ts)) + Strip(rest)
    decreases |ts|
  {
    hide Escape, Strip, Named, Shown, Show, Texts;
    if ts == [] {
      NothingShown();
      NothingEscaped();
      assert "" + rest == rest;
      assert "" + Strip(rest) == Strip(rest);
    } else {
      var n := |ts| - 1;
      var t := ts[n];
      assert ts == ts[..n] + [t];
      Snoc(ts[..n], t);
      StripShown(ts[..n], Shown(t) + rest);
      assert Show(ts) + rest == Show(ts[..n]) + (Shown(t) + rest);
      StripToken(t, rest);
      var text := if t.Text? then t.text else "";
      EscapeConcat(Texts(ts[..n]), text);
      NothingEscaped();
      assert Escape(Texts(ts[..n])) + (Escape(text) + Strip(rest)) ==
             Escape(Texts(ts[..n])) + Escape(text) + Strip(rest);
    }
  }

  lemma NothingShown()
    ensures Show([]) == "" && Texts([]) == ""
  {
  }

  lemma NothingEscaped()
    ensures Escape("") == ""
  {
  }

  lemma StripToken(t: Token, rest: string)
    requires t.Text? || Named(t.node)
    ensures Strip(Shown(t) + rest) == Escape(if t.Text? then t.text else "") + Strip(rest)
  {
    hide Escape, Strip, Lower, Attributes;
    NothingEscaped();
    match t
    case Text(s) =>
      EscapedHasNoAngle(s);
      StripText(Escape(s), rest);
    case Open(n) =>
      AttributesHaveNoAngle(n.attributes);
      StripTag(n.name + Attributes(n.attributes), rest);
      assert OpenTag(n) + rest == "<" + (n.name + Attributes(n.attributes)) + ">" + rest;
      assert "" + Strip(rest) == Strip(rest);
    case Close(n) =>
      LowerHasNoAngle(n.name);
      StripTag("/" + Lower(n.name), rest);
      assert CloseTag(n) + rest == "<" + ("/" + Lower(n.name)) + ">" + rest;
      assert "" + Strip(rest) == Strip(rest);
  }

  // ---------- Reading the tags ----------

  datatype Tag = StartTag(name: string, attributes: seq<Attribute>) | EndTag(name: string) | NoTag

  /** How many characters come before the first c. */
  function Before(s: string, c: char): (n: nat)
    ensures n <= |s| && c !in s[..n] && (n < |s| ==> s[n] == c)
  {
    if s == "" || s[0] == c then 0 else 1 + Before(s[1..], c)
  }

  function Unescape(s: string): string {
    if s == "" then ""
    else if |s| >= 5 && s[..5] == "&amp;" then "&" + Unescape(s[5..])
    else if |s| >= 4 && s[..4] == "&lt;" then "<" + Unescape(s[4..])
    else if |s| >= 4 && s[..4] == "&gt;" then ">" + Unescape(s[4..])
    else [s[0]] + Unescape(s[1..])
  }

  /** Attributes as they stand in a tag: a space, the name, and the value in double quotes. */
  function ReadAttributes(s: string): Option<seq<Attribute>>
    decreases |s|
  {
    if s == "" then Some([])
    else if s[0] != ' ' then None
    else
      var n := Before(s[1..], '=');
      var name, rest := s[1..][..n], s[1..][n..];
      if |rest| < 2 || rest[1] != '"' then None else ReadValue(name, rest[2..])
  }

  function ReadValue(name: string, s: string): Option<seq<Attribute>>
    decreases |s|
  {
    var v := Before(s, '"');
    if v == |s| then None
    else
      var more := ReadAttributes(s[v + 1..]);
      if more.None? then None else Some([Attribute(name, Unescape(s[..v]))] + more.value)
  }

  /** What stands between two angle brackets. */
  function ReadTag(inner: string): Tag {
    if inner != "" && inner[0] == '/' then EndTag(inner[1..])
    else
      var n := Before(inner, ' ');
      var attributes := ReadAttributes(inner[n..]);
      if attributes.None? then NoTag else StartTag(inner[..n], attributes.value)
  }

  /** The tags of a text, from one '<' to the next '>'. */
  function ReadTags(s: string): seq<Tag>
    decreases |s|
  {
    if s == "" then []
    else if s[0] == '<' then
      var k := TagEnd(s);
      [ReadTag(if k >= 2 then s[1..k - 1] else "")] + ReadTags(s[k..])
    else ReadTags(s[1..])
  }

  predicate NoQuote(n: Node) { QuoteFree(n.attributes) }

  /** Names as markup has them: an element's has no space and starts with no slash, an attribute's has no equals
      sign. */
  predicate WellNamed(n: Node) {
    && Named(n) && ' ' !in n.name && (n.name != "" ==> n.name[0] != '/')
    && forall i :: 0 <= i < |n.attributes| ==> '=' !in n.attributes[i].name
  }

  lemma {:induction false} BeforeIs(a: string, c: char, rest: string)
    requires c !in a && (rest == "" || rest[0] == c)
    ensures Before(a + rest, c) == |a|
  {
    if a == "" {
      assert a + rest == rest;
    } else {
      BeforeIs(a[1..], c, rest);
      assert (a + rest)[1..] == a[1..] + rest;
    }
  }

  lemma UnescapeOne(x: char, rest: string)
    ensures Unescape(EscapeChar(x) + rest) == [x] + Unescape(rest)
  {
    var s := EscapeChar(x) + rest;
    assert s[|EscapeChar(x)|..] == rest;
    assert x == '&' ==> s[..5] == "&amp;";
    assert x == '<' ==> s[..4] == "&lt;" && |s| >= 4 && s[1] == 'l';
    assert x == '>' ==> s[..4] == "&gt;" && |s| >= 4 && s[1] == 'g';
    if x != '&' && x != '<' && x != '>' {
      assert s[0] == x;
      assert |s| >= 5 ==> s[..5][0] == x;
      assert |s| >= 4 ==> s[..4][0] == x;
    } else if |s| >= 5 {
      assert s[..5][1] == s[1];
    }
  }

  /** Unescaping undoes the three replacements. */
  lemma {:induction false} UnescapeEscaped(s: string)
    ensures Unescape(Escape(s)) == s
  {
    hide Escape, Unescape;
    EscapeIsEach(s);
    UnescapeEach(s);
  }

  lemma {:induction false} UnescapeEach(s: string)
    ensures Unescape(EscapeEach(s)) == s
  {
    if s != "" {
      UnescapeEach(s[1..]);
      UnescapeOne(s[0], EscapeEach(s[1..]));
      hide Unescape, EscapeChar;
      assert s == [s[0]] + s[1..];
    }
  }

  lemma {:induction false} EscapeKeepsQuotes(s: string)
    ensures '"' in Escape(s) <==> '"' in s
  {
    hide Escape;
    EscapeIsEach(s);
    EachKeepsQuotes(s);
  }

  lemma {:induction false} EachKeepsQuotes(s: string)
    ensures '"' in EscapeEach(s) <==> '"' in s
  {
    if s != "" {
      EachKeepsQuotes(s[1..]);
      assert s == [s[0]] + s[1..];
      assert '"' in EscapeChar(s[0]) <==> s[0] == '"';
    }
  }

  /** The value that is read: the original up to its first double quote. */
  lemma ValueRead(value: string, rest: string)
    ensures var text := Escape(value) + "\"" + rest;
      var n := Before(text, '"');
      Unescape(text[..n]) == value[..Before(value, '"')] && ('"' !in value ==> n == |Escape(value)|) && n < |text|
  {
    hide Escape, Unescape, Before;
    var k := Before(value, '"');
    var text := Escape(value) + "\"" + rest;
    assert value == value[..k] + value[k..];
    EscapeConcat(value[..k], value[k..]);
    EscapeKeepsQuotes(value[..k]);
    UnescapeEscaped(value[..k]);
    var tail := Escape(value[k..]) + "\"" + rest;
    assert tail[0] == '"' by {
      QuoteFirst(value[k..]);
    }
    assert text == Escape(value[..k]) + tail;
    BeforeIs(Escape(value[..k]), '"', tail);
    assert text[..|Escape(value[..k])|] == Escape(value[..k]);
    if '"' !in value {
      assert value[..k] == value;
    }
  }

  lemma QuoteFirst(s: string)
    requires s == "" || s[0] == '"'
    ensures Escape(s) == "" || Escape(s)[0] == '"'
  {
    hide Escape;
    EscapeIsEach(s);
  }

  /** Reading starts with the first attribute, when its name has no equals sign. */
  lemma FirstRead(name: string, value: string)
    requires '=' !in name
    ensures ReadAttributes(" " + name + ("=\"" + value)) == ReadValue(name, value)
  {
    hide Unescape, ReadValue;
    var s := " " + name + ("=\"" + value);
    assert s[1..] == name + ("=\"" + value);
    BeforeIs(name, '=', "=\"" + value);
    hide Before;
    assert s[1..][..|name|] == name && s[1..][|name|..] == "=\"" + value;
    assert ("=\"" + value)[2..] == value;
  }

  /** A value without a double quote is read whole; of another only the part before the quote is read. */
  lemma ValueReadIff(a: Attribute, rest: string, more: seq<Attribute>)
    ensures ReadValue(a.name, Escape(a.value) + "\"" + rest) == Some([a] + more) <==>
            '"' !in a.value && ReadAttributes(rest) == Some(more)
  {
    hide Escape, Unescape, ReadAttributes, Before;
    var text := Escape(a.value) + "\"" + rest;
    ValueRead(a.value, rest);
    var v := Before(text, '"');
    var value := Unescape(text[..v]);
    if '"' in a.value {
      assert a.value[..Before(a.value, '"')] != a.value;
      if ReadValue(a.name, text).Some? {
        assert ReadValue(a.name, text).value[0] == Attribute(a.name, value);
        assert ([a] + more)[0] == a;
      }
    } else {
      assert a.value[..Before(a.value, '"')] == a.value;
      assert text[v + 1..] == rest;
      if ReadAttributes(rest).Some? {
        SameRest(a, ReadAttributes(rest).value, more);
      }
    }
  }

  lemma SameRest<T>(x: T, a: seq<T>, b: seq<T>)
    ensures [x] + a == [x] + b <==> a == b
  {
    if [x] + a == [x] + b {
      assert a == ([x] + a)[1..] && b == ([x] + b)[1..];
    }
  }

  predicate QuoteFree(as': seq<Attribute>) { forall i :: 0 <= i < |as'| ==> '"' !in as'[i].value }

  lemma QuoteFreeFirst(as': seq<Attribute>)
    requires as' != []
    ensures QuoteFree(as') <==> '"' !in as'[0].value && QuoteFree(as'[1..])
  {
    assert forall i :: 1 <= i < |as'| ==> as'[i] == as'[1..][i - 1];
  }

  lemma AttributesFirst(as': seq<Attribute>)
    requires as' != []
    ensures Attributes(as') ==
            " " + as'[0].name + ("=\"" + (Escape(as'[0].value) + "\"" + Attributes(as'[1..])))
  {
    hide Escape;
  }

  /** Attributes read back exactly when no value contains a double quote, which the escaping leaves alone. */
  lemma {:induction false} AttributesReadIff(as': seq<Attribute>)
    requires forall i :: 0 <= i < |as'| ==> '=' !in as'[i].name
    ensures ReadAttributes(Attributes(as')) == Some(as') <==> QuoteFree(as')
  {
    hide Escape, ReadAttributes, ReadValue, Attributes, QuoteFree;
    if as' == [] {
      NoAttributes();
    } else {
      var a, rest := as'[0], Attributes(as'[1..]);
      AttributesReadIff(as'[1..]);
      AttributesFirst(as');
      FirstRead(a.name, Escape(a.value) + "\"" + rest);
      ValueReadIff(a, rest, as'[1..]);
      QuoteFreeFirst(as');
      assert as' == [a] + as'[1..];
    }
  }

  lemma NoAttributes()
    ensures Attributes([]) == "" && ReadAttributes("") == Some([]) && QuoteFree([])
  {
  }

  function TagOf(t: Token): Tag
    requires !t.Text?
  {
    if t.Open? then StartTag(t.node.name, t.node.attributes) else EndTag(Lower(t.node.name))
  }

  /** The tags the tokens stand for. */
  function TagsOf(ts: seq<Token>): seq<Tag> {
    if ts == [] then [] else
      var n := |ts| - 1;
      TagsOf(ts[..n]) + if ts[n].Text? then [] else [TagOf(ts[n])]
  }

  function Inner(t: Token): (s: string)
    requires !t.Text?
    ensures Shown(t) == "<" + s + ">"
  {
    if t.Open? then t.node.name + Attributes(t.node.attributes) else "/" + Lower(t.node.name)
  }

  /** An opening tag reads back as its element's name and attributes exactly when no value contains a double quote; a
      closing tag always reads back as the lower-cased name. */
  lemma TagReadsIff(t: Token)
    requires !t.Text? && WellNamed(t.node)
    ensures ReadTag(Inner(t)) == TagOf(t) <==> (t.Open? ==> NoQuote(t.node))
  {
    hide Attributes, ReadAttributes, Lower;
    var n := t.node;
    if t.Open? {
      AttributesReadIff(n.attributes);
      AttributesStart(n.attributes);
      BeforeIs(n.name, ' ', Attributes(n.attributes));
      var inner := Inner(t);
      assert inner[..|n.name|] == n.name && inner[|n.name|..] == Attributes(n.attributes);
      assert inner != "" ==> inner[0] != '/';
    } else {
      assert Inner(t)[1..] == Lower(n.name);
    }
  }

  /** An attribute value with a double quote ends early when its tag is read. */
  lemma QuotedValueMisread()
    ensures var n := Node(0, "a", [Attribute("title", "x\"y")]);
      ReadTag(Inner(Open(n))) != StartTag("a", [Attribute("title", "x\"y")])
  {
    hide ReadTag, Inner;
    var n := Node(0, "a", [Attribute("title", "x\"y")]);
    assert n.attributes[0].value[1] == '"';
    TagReadsIff(Open(n));
  }

  lemma AttributesStart(as': seq<Attribute>)
    ensures Attributes(as') == "" || Attributes(as')[0] == ' '
  {
  }

  lemma InnerHasNoAngle(t: Token)
    requires !t.Text? && Named(t.node)
    ensures NoAngle(Inner(t))
  {
    hide Attributes, Lower;
    AttributesHaveNoAngle(t.node.attributes);
    LowerHasNoAngle(t.node.name);
  }

  lemma {:induction false} ReadText(text: string, rest: string)
    requires '<' !in text
    ensures ReadTags(text + rest) == ReadTags(rest)
    decreases |text|
  {
    hide ReadTag;
    if text == "" {
      assert text + rest == rest;
    } else {
      assert (text + rest)[1..] == text[1..] + rest;
      ReadText(text[1..], rest);
    }
  }

  lemma ReadOneTag(inner: string, rest: string)
    requires '>' !in inner
    ensures ReadTags("<" + inner + ">" + rest) == [ReadTag(inner)] + ReadTags(rest)
  {
    hide ReadTag;
    var s := "<" + inner + ">" + rest;
    TagEndIs("<" + inner, rest);
    assert s == ("<" + inner) + ">" + rest;
    assert s[|inner| + 2..] == rest && s[1..|inner| + 1] == inner;
  }

  lemma ReadToken(t: Token, rest: string)
    requires t.Text? || Named(t.node)
    ensures ReadTags(Shown(t) + rest) == (if t.Text? then [] else [ReadTag(Inner(t))]) + ReadTags(rest)
  {
    hide ReadTags, ReadTag, Escape, Shown, Inner;
    if t.Text? {
      EscapedHasNoAngle(t.text);
      ReadText(Escape(t.text), rest);
      assert Shown(t) == Escape(t.text) by {
        TextShown(t);
      }
      assert [] + ReadTags(rest) == ReadTags(rest);
    } else {
      InnerHasNoAngle(t);
      ReadOneTag(Inner(t), rest);
    }
  }

  lemma TextShown(t: Token)
    requires t.Text?
    ensures Shown(t) == Escape(t.text)
  {
  }

  predicate AllWellNamed(ts: seq<Token>) { forall i :: 0 <= i < |ts| && !ts[i].Text? ==> WellNamed(ts[i].node) }

  predicate OpenedNoQuote(ts: seq<Token>) { forall i :: 0 <= i < |ts| && ts[i].Open? ==> NoQuote(ts[i].node) }

  function ReadBack(ts: seq<Token>): seq<Tag> {
    if ts == [] then [] else
      var n := |ts| - 1;
      ReadBack(ts[..n]) + if ts[n].Text? then [] else [ReadTag(Inner(ts[n]))]
  }

  lemma {:induction false} ReadShown(ts: seq<Token>, rest: string)
    requires AllWellNamed(ts)
    ensures ReadTags(Show(ts) + rest) == ReadBack(ts) + ReadTags(rest)
    decreases |ts|
  {
    hide ReadTags, ReadTag, Shown, Show, Inner;
    if ts == [] {
      NothingShown();
      assert "" + rest == rest && [] + ReadTags(rest) == ReadTags(rest);
    } else {
      var n := |ts| - 1;
      var t := ts[n];
      assert ts == ts[..n] + [t];
      Snoc(ts[..n], t);
      ReadShown(ts[..n], Shown(t) + rest);
      assert Show(ts) + rest == Show(ts[..n]) + (Shown(t) + rest);
      ReadToken(t, rest);
      var one := if t.Text? then [] else [ReadTag(Inner(t))];
      assert ReadBack(ts[..n]) + (one + ReadTags(rest)) == ReadBack(ts[..n]) + one + ReadTags(rest);
    }
  }

  lemma LastToken(ts: seq<Token>)
    requires ts != []
    ensures var n := |ts| - 1;
      && (AllWellNamed(ts) ==> AllWellNamed(ts[..n]) && (!ts[n].Text? ==> WellNamed(ts[n].node)))
      && (OpenedNoQuote(ts) <==> OpenedNoQuote(ts[..n]) && (ts[n].Open? ==> NoQuote(ts[n].node)))
  {
    hide WellNamed, NoQuote;
    var n := |ts| - 1;
    assert forall i :: 0 <= i < n ==> ts[..n][i] == ts[i];
  }

  lemma {:induction false} ReadBackIff(ts: seq<Token>)
    requires AllWellNamed(ts)
    ensures |ReadBack(ts)| == |TagsOf(ts)|
    ensures ReadBack(ts) == TagsOf(ts) <==> OpenedNoQuote(ts)
    decreases |ts|
  {
    hide ReadTag, Inner, TagOf, NoQuote, WellNamed;
    if ts != [] {
      var n := |ts| - 1;
      LastToken(ts);
      hide AllWellNamed, OpenedNoQuote;
      ReadBackIff(ts[..n]);
      if !ts[n].Text? {
        TagReadsIff(ts[n]);
        SameLast(ReadBack(ts[..n]), TagsOf(ts[..n]), ReadTag(Inner(ts[n])), TagOf(ts[n]));
      } else {
        SameNone(ReadBack(ts[..n]));
        SameNone(TagsOf(ts[..n]));
      }
    }
  }

  lemma SameNone<T>(a: seq<T>)
    ensures a + [] == a
  {
  }

  lemma SameLast<T>(a: seq<T>, b: seq<T>, x: T, y: T)
    requires |a| == |b|
    ensures a + [x] == b + [y] <==> a == b && x == y
  {
    if a + [x] == b + [y] {
      assert a == (a + [x])[..|a|] && b == (b + [y])[..|b|] && (a + [x])[|a|] == x && (b + [y])[|b|] == y;
    }
  }

  /** Reading the tags of a written text gives exactly the tags of its tokens, names and attributes in order, if and
      only if no attribute value of an opened element contains a double quote. */
  lemma TagsReadIff(ts: seq<Token>)
    requires AllWellNamed(ts)
    ensures ReadTags(Show(ts)) == TagsOf(ts) <==> OpenedNoQuote(ts)
  {
    hide ReadTags, Show, ReadBack, TagsOf, OpenedNoQuote, AllWellNamed;
    ReadShown(ts, "");
    ReadBackIff(ts);
    assert Show(ts) + "" == Show(ts);
    NothingRead();
    assert ReadBack(ts) + [] == ReadBack(ts);
  }

  lemma NothingRead()
    ensures ReadTags("") == []
  {
  }
}
