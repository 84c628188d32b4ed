/** highlight.js: merges the tags found in a code block with the tags the highlighter
    made, which may overlap, into one well nested text. */
module StreamMerge {
  import opened Wrappers
  import opened HighlightTags

  // ---------- Event streams ----------

  datatype Event = Start(offset: nat, node: Node) | Stop(offset: nat, node: Node)

  function Nodes(es: seq<Event>): set<Node> { set e | e in es :: e.node }

  /** The elements open after the events. */
  function OpenNodes(es: seq<Event>): set<Node> {
    if es == [] then {} else
      var e := es[|es| - 1];
      if e.Start? then OpenNodes(es[..|es| - 1]) + {e.node} else OpenNodes(es[..|es| - 1]) - {e.node}
  }

  predicate Sorted(es: seq<Event>) { forall i, j :: 0 <= i < j < |es| ==> es[i].offset <= es[j].offset }

  /** The i-th event starts an element for the first time, or stops one that is open. */
  predicate Fits(es: seq<Event>, i: nat)
    requires i < |es|
  {
    if es[i].Start? then es[i].node !in Nodes(es[..i]) else es[i].node in OpenNodes(es[..i])
  }

  /** Every element starts once, stops once, and later than it starts. */
  predicate Proper(es: seq<Event>) { (forall i :: 0 <= i < |es| ==> Fits(es, i)) && OpenNodes(es) == {} }

  lemma {:induction false} OpenAreNodes(es: seq<Event>)
    ensures OpenNodes(es) <= Nodes(es)
  {
    if es != [] {
      OpenAreNodes(es[..|es| - 1]);
      assert es == es[..|es| - 1] + [es[|es| - 1]];
    }
  }

  lemma OpenSnoc1(es: seq<Event>, e: Event)
    ensures OpenNodes(es + [e]) == if e.Start? then OpenNodes(es) + {e.node} else OpenNodes(es) - {e.node}
  {
    assert (es + [e])[..|es|] == es;
  }

  // ---------- The streams of a document ----------

  datatype Dom = TextNode(text: string) | Br | Element(node: Node, children: seq<Dom>) | Other

  /** nodeStream: the events of some nodes from an offset on, and the offset after them. */
  function Events(doms: seq<Dom>, offset: nat): (seq<Event>, nat)
    decreases doms
  {
    if doms == [] then ([], offset) else
      var (first, mid) := EventsOf(doms[0], offset);
      var (rest, end) := Events(doms[1..], mid);
      (first + rest, end)
  }

  function EventsOf(dom: Dom, offset: nat): (seq<Event>, nat)
    decreases dom
  {
    match dom
    case TextNode(text) => ([], offset + |text|)
    case Br => ([], offset + 1)
    case Element(node, children) =>
      var (inner, end) := Events(children, offset);
      ([Start(offset, node)] + inner + [Stop(end, node)], end)
    case Other => ([], offset)
  }

  function DomNodes(doms: seq<Dom>): set<Node>
    decreases doms
  {
    if doms == [] then {} else NodesOf(doms[0]) + DomNodes(doms[1..])
  }

  function NodesOf(dom: Dom): set<Node>
    decreases dom
  {
    if dom.Element? then {dom.node} + DomNodes(dom.children) else {}
  }

  /** No element occurs twice. */
  predicate Tree(doms: seq<Dom>)
    decreases doms
  {
    doms == [] || (TreeOf(doms[0]) && Tree(doms[1..]) && NodesOf(doms[0]) !! DomNodes(doms[1..]))
  }

  predicate TreeOf(dom: Dom)
    decreases dom
  {
    dom.Element? ==> dom.node !in DomNodes(dom.children) && Tree(dom.children)
  }

  predicate Between(es: seq<Event>, low: nat, high: nat) {
    low <= high && Sorted(es) && forall i :: 0 <= i < |es| ==> low <= es[i].offset <= high
  }

  lemma BetweenConcat(a: seq<Event>, b: seq<Event>, low: nat, mid: nat, high: nat)
    requires Between(a, low, mid) && Between(b, mid, high)
    ensures Between(a + b, low, high)
  {
  }

  lemma NodesConcat(a: seq<Event>, b: seq<Event>)
    ensures Nodes(a + b) == Nodes(a) + Nodes(b)
  {
  }

  /** Closed events in front change nothing. */
  lemma {:induction false} OpenAfterClosed(a: seq<Event>, b: seq<Event>)
    requires OpenNodes(a) == {}
    ensures OpenNodes(a + b) == OpenNodes(b)
    decreases |b|
  {
    if b == [] {
      assert a + b == a;
    } else {
      var n := |b| - 1;
      OpenAfterClosed(a, b[..n]);
      assert a + b == (a + b[..n]) + [b[n]];
      OpenSnoc1(a + b[..n], b[n]);
    }
  }

  lemma {:induction false} OpenInside(e: Event, b: seq<Event>)
    requires e.Start? && e.node !in Nodes(b)
    ensures OpenNodes([e] + b) == {e.node} + OpenNodes(b)
    decreases |b|
  {
    if b == [] {
      assert [e] + b == [] + [e];
      OpenSnoc1([], e);
    } else {
      var n := |b| - 1;
      NodesConcat(b[..n], [b[n]]);
      assert b == b[..n] + [b[n]];
      OpenInside(e, b[..n]);
      assert [e] + b == ([e] + b[..n]) + [b[n]];
      OpenSnoc1([e] + b[..n], b[n]);
      assert b[n].node in Nodes(b);
    }
  }

  lemma ProperConcat(a: seq<Event>, b: seq<Event>)
    requires Proper(a) && Proper(b) && Nodes(a) !! Nodes(b)
    ensures Proper(a + b)
  {
    hide OpenNodes;
    var es := a + b;
    OpenAfterClosed(a, b);
    forall i | 0 <= i < |es|
      ensures Fits(es, i)
    {
      if i < |a| {
        assert es[..i] == a[..i] && Fits(a, i);
      } else {
        var j := i - |a|;
        assert es[..i] == a + b[..j] && Fits(b, j);
        OpenAfterClosed(a, b[..j]);
        NodesConcat(a, b[..j]);
        assert b[j] in b && b[j].node in Nodes(b);
      }
    }
  }

  lemma ProperWrap(node: Node, inner: seq<Event>, offset: nat, end: nat)
    requires Proper(inner) && node !in Nodes(inner)
    ensures Proper([Start(offset, node)] + inner + [Stop(end, node)])
  {
    hide OpenNodes;
    var start := Start(offset, node);
    var es := [start] + inner + [Stop(end, node)];
    OpenInside(start, inner);
    OpenSnoc1([start] + inner, Stop(end, node));
    forall i | 0 <= i < |es|
      ensures Fits(es, i)
    {
      if i == 0 {
        assert es[..0] == [];
      } else if i <= |inner| {
        var j := i - 1;
        assert es[..i] == [start] + inner[..j] && Fits(inner, j);
        NodesConcat(inner[..j], inner[j..]);
        assert inner == inner[..j] + inner[j..];
        OpenInside(start, inner[..j]);
        NodesConcat([start], inner[..j]);
        assert inner[j] in inner && inner[j].node in Nodes(inner);
        OneNode(start);
      } else {
        assert es[..i] == [start] + inner;
      }
    }
  }

  lemma OneNode(e: Event)
    ensures Nodes([e]) == {e.node}
  {
    assert e in [e];
  }

  /** The events as tags: a start opens its element, a stop closes it. */
  function Tags(es: seq<Event>): seq<Token> {
    seq(|es|, i requires 0 <= i < |es| => if es[i].Start? then Open(es[i].node) else Close(es[i].node))
  }

  lemma TagsConcat(a: seq<Event>, b: seq<Event>)
    ensures Tags(a + b) == Tags(a) + Tags(b)
  {
  }

  /** Whatever is open before them, the nodes' events open and close their own elements, last in, first out. */
  lemma {:induction false} EventsNest(doms: seq<Dom>, offset: nat, before: seq<Token>, open: seq<Node>)
    requires OpenElements(before) == Good(open)
    ensures OpenElements(before + Tags(Events(doms, offset).0)) == Good(open)
    decreases doms
  {
    hide OpenElements;
    if doms == [] {
      assert before + Tags([]) == before;
    } else {
      var (first, mid) := EventsOf(doms[0], offset);
      var (rest, end) := Events(doms[1..], mid);
      EventsOfNest(doms[0], offset, before, open);
      EventsNest(doms[1..], mid, before + Tags(first), open);
      TagsConcat(first, rest);
      assert before + Tags(first + rest) == before + Tags(first) + Tags(rest);
    }
  }

  lemma {:induction false} EventsOfNest(dom: Dom, offset: nat, before: seq<Token>, open: seq<Node>)
    requires OpenElements(before) == Good(open)
    ensures OpenElements(before + Tags(EventsOf(dom, offset).0)) == Good(open)
    decreases dom
  {
    hide OpenElements;
    if dom.Element? {
      OpenSnoc(before, Open(dom.node), open);
      EventsNest(dom.children, offset, before + [Open(dom.node)], open + [dom.node]);
      WrapNests(dom.node, offset, Events(dom.children, offset).0, Events(dom.children, offset).1, before, open);
    } else {
      assert before + Tags([]) == before;
    }
  }

  lemma WrapNests(node: Node, offset: nat, inner: seq<Event>, end: nat, before: seq<Token>, open: seq<Node>)
    requires OpenElements(before + [Open(node)] + Tags(inner)) == Good(open + [node])
    ensures OpenElements(before + Tags([Start(offset, node)] + inner + [Stop(end, node)])) == Good(open)
  {
    hide OpenElements;
    var inside := before + [Open(node)] + Tags(inner);
    OpenSnoc(inside, Close(node), open + [node]);
    assert (open + [node])[..|open|] == open;
    TagsConcat([Start(offset, node)] + inner, [Stop(end, node)]);
    TagsConcat([Start(offset, node)], inner);
    assert Tags([Start(offset, node)]) == [Open(node)] && Tags([Stop(end, node)]) == [Close(node)];
    assert before + ([Open(node)] + Tags(inner) + [Close(node)]) == inside + [Close(node)];
  }

  /** The stream of a document is sorted, proper and well nested, with the document's elements. */
  lemma {:induction false} EventsProper(doms: seq<Dom>, offset: nat)
    requires Tree(doms)
    ensures var (es, end) := Events(doms, offset);
      Between(es, offset, end) && Proper(es) && WellNested(Tags(es)) && Nodes(es) == DomNodes(doms)
    decreases doms
  {
    hide Proper, Sorted, OpenNodes;
    EventsNest(doms, offset, [], []);
    assert [] + Tags(Events(doms, offset).0) == Tags(Events(doms, offset).0);
    if doms == [] {
      EmptyProper();
    } else {
      var (first, mid) := EventsOf(doms[0], offset);
      var (rest, end) := Events(doms[1..], mid);
      EventsOfProper(doms[0], offset);
      EventsProper(doms[1..], mid);
      BetweenConcat(first, rest, offset, mid, end);
      NodesConcat(first, rest);
      ProperConcat(first, rest);
    }
  }

  lemma EmptyProper()
    ensures Proper([]) && Sorted([]) && Nodes([]) == {}
  {
  }

  lemma {:induction false} EventsOfProper(dom: Dom, offset: nat)
    requires TreeOf(dom)
    ensures var (es, end) := EventsOf(dom, offset); Between(es, offset, end) && Proper(es) && Nodes(es) == NodesOf(dom)
    decreases dom
  {
    hide Proper, OpenNodes;
    EmptyProper();
    if dom.Element? {
      var (inner, end) := Events(dom.children, offset);
      EventsProper(dom.children, offset);
      ProperWrap(dom.node, inner, offset, end);
      var start, stop := Start(offset, dom.node), Stop(end, dom.node);
      NodesConcat([start], inner);
      NodesConcat([start] + inner, [stop]);
      OneNode(start);
      OneNode(stop);
      BetweenConcat([start], inner, offset, offset, end);
      BetweenConcat([start] + inner, [stop], offset, end, end);
    }
  }

  // ---------- Where the elements of a document lie ----------

  /** blockText: the text of some nodes, a line break for each BR. */
  function Content(doms: seq<Dom>): string
    decreases doms
  {
    if doms == [] then "" else ContentOf(doms[0]) + Content(doms[1..])
  }

  function ContentOf(dom: Dom): string
    decreases dom
  {
    match dom
    case TextNode(text) => text
    case Br => "\n"
    case Element(_, children) => Content(children)
    case Other => ""
  }

  /** The elements around the k-th character of the text. */
  function Around(doms: seq<Dom>, k: nat): set<Node>
    requires k < |Content(doms)|
    decreases doms
  {
    var n := |ContentOf(doms[0])|;
    if k < n then AroundOf(doms[0], k) else Around(doms[1..], k - n)
  }

  function AroundOf(dom: Dom, k: nat): set<Node>
    requires k < |ContentOf(dom)|
    decreases dom
  {
    if dom.Element? then {dom.node} + Around(dom.children, k) else {}
  }

  lemma {:induction false} EventsEnd(doms: seq<Dom>, offset: nat)
    ensures Events(doms, offset).1 == offset + |Content(doms)|
    decreases doms
  {
    if doms != [] {
      EventsOfEnd(doms[0], offset);
      EventsEnd(doms[1..], EventsOf(doms[0], offset).1);
    }
  }

  lemma {:induction false} EventsOfEnd(dom: Dom, offset: nat)
    ensures EventsOf(dom, offset).1 == offset + |ContentOf(dom)|
    decreases dom
  {
    if dom.Element? {
      EventsEnd(dom.children, offset);
    }
  }

  lemma CoveringFirst(a: seq<Event>, b: seq<Event>, low: nat, mid: nat, high: nat, k: nat)
    requires Between(a, low, mid) && Between(b, mid, high) && k < mid
    ensures Covering(a + b, k) == Covering(a, k)
  {
    hide OpenNodes;
    var c := CountUpTo(a, k);
    CountBounds(a, k);
    CountIs(a + b, k, c);
    assert (a + b)[..c] == a[..c];
  }

  lemma CoveringRest(a: seq<Event>, b: seq<Event>, low: nat, mid: nat, high: nat, k: nat)
    requires Between(a, low, mid) && Between(b, mid, high) && mid <= k && OpenNodes(a) == {}
    ensures Covering(a + b, k) == Covering(b, k)
  {
    hide OpenNodes;
    var c := CountUpTo(b, k);
    CountBounds(b, k);
    CountIs(a + b, k, |a| + c);
    assert (a + b)[..|a| + c] == a + b[..c];
    OpenAfterClosed(a, b[..c]);
  }

  lemma CoveringInside(node: Node, inner: seq<Event>, low: nat, high: nat, k: nat)
    requires Between(inner, low, high) && low <= k < high && node !in Nodes(inner)
    ensures Covering([Start(low, node)] + inner + [Stop(high, node)], k) == {node} + Covering(inner, k)
  {
    hide OpenNodes;
    var start := Start(low, node);
    var es := [start] + inner + [Stop(high, node)];
    var c := CountUpTo(inner, k);
    CountBounds(inner, k);
    CountIs(es, k, 1 + c);
    assert es[..1 + c] == [start] + inner[..c];
    NodesConcat(inner[..c], inner[c..]);
    assert inner == inner[..c] + inner[c..];
    OpenInside(start, inner[..c]);
  }

  /** What is counted is the events up to k, and the next one comes later. */
  lemma {:induction false} CountBounds(es: seq<Event>, k: nat)
    requires Sorted(es)
    ensures var c := CountUpTo(es, k);
      (forall j :: 0 <= j < c ==> es[j].offset <= k) && forall j :: c <= j < |es| ==> es[j].offset > k
  {
    if es != [] && es[0].offset <= k {
      CountBounds(es[1..], k);
      var c := CountUpTo(es, k);
      forall j | 0 <= j < |es|
        ensures if j < c then es[j].offset <= k else es[j].offset > k
      {
        if j > 0 {
          assert es[j] == es[1..][j - 1];
        }
      }
    }
  }

  /** In a document's stream every character is covered by exactly the elements around it in the document. */
  lemma {:induction false} EventsCover(doms: seq<Dom>, offset: nat, k: nat)
    requires Tree(doms) && k < |Content(doms)|
    ensures Covering(Events(doms, offset).0, offset + k) == Around(doms, k)
    decreases doms
  {
    hide Covering, Proper, Between, Content, ContentOf, Around, AroundOf, Events, EventsOf, Tree, TreeOf, WellNested,
         Tags, Nodes, DomNodes, NodesOf;
    DocumentFirst(doms, offset, k);
    var (first, mid) := EventsOf(doms[0], offset);
    var (rest, end) := Events(doms[1..], mid);
    var n := |ContentOf(doms[0])|;
    EventsOfProper(doms[0], offset);
    EventsProper(doms[1..], mid);
    EventsOfEnd(doms[0], offset);
    if k < n {
      CoveringFirst(first, rest, offset, mid, end, offset + k);
      EventsOfCover(doms[0], offset, k);
    } else {
      ProperCloses(first);
      CoveringRest(first, rest, offset, mid, end, offset + k);
      EventsCover(doms[1..], mid, k - n);
    }
  }

  lemma DocumentFirst(doms: seq<Dom>, offset: nat, k: nat)
    requires Tree(doms) && k < |Content(doms)|
    ensures doms != [] && TreeOf(doms[0]) && Tree(doms[1..]) && Content(doms) == ContentOf(doms[0]) + Content(doms[1..])
    ensures var (first, mid) := EventsOf(doms[0], offset);
      Events(doms, offset).0 == first + Events(doms[1..], mid).0
    ensures var n := |ContentOf(doms[0])|;
      Around(doms, k) == if k < n then AroundOf(doms[0], k) else Around(doms[1..], k - n)
  {
    hide EventsOf, ContentOf, AroundOf, NodesOf;
  }

  lemma ProperCloses(es: seq<Event>)
    requires Proper(es)
    ensures OpenNodes(es) == {}
  {
  }

  lemma {:induction false} EventsOfCover(dom: Dom, offset: nat, k: nat)
    requires TreeOf(dom) && k < |ContentOf(dom)|
    ensures Covering(EventsOf(dom, offset).0, offset + k) == AroundOf(dom, k)
    decreases dom
  {
    hide Covering, Proper, Sorted, Content;
    if dom.Element? {
      EventsProper(dom.children, offset);
      EventsEnd(dom.children, offset);
      var (inner, end) := Events(dom.children, offset);
      CoveringInside(dom.node, inner, offset, end, offset + k);
      EventsCover(dom.children, offset, k);
    } else {
      NothingCovered(offset + k);
    }
  }

  lemma NothingCovered(k: nat)
    ensures Covering([], k) == {}
  {
  }

  // ---------- Merging ----------

  /** How many events at the front have offsets up to k. */
  function CountUpTo(es: seq<Event>, k: nat): (c: nat)
    ensures c <= |es|
  {
    if es == [] || es[0].offset > k then 0 else 1 + CountUpTo(es[1..], k)
  }

  lemma {:induction false} CountIs(es: seq<Event>, k: nat, i: nat)
    requires i <= |es| && (forall j :: 0 <= j < i ==> es[j].offset <= k) && (i < |es| ==> es[i].offset > k)
    ensures CountUpTo(es, k) == i
    decreases i
  {
    if i > 0 {
      CountIs(es[1..], k, i - 1);
    }
  }

  /** The elements of a stream that cover the k-th character. */
  function Covering(es: seq<Event>, k: nat): set<Node> { OpenNodes(es[..CountUpTo(es, k)]) }

  /** The elements open where the k-th character of the text stands. */
  function StackAt(ts: seq<Token>, k: nat): Stack {
    if ts == [] then Bad
    else if k >= |Texts(ts[..|ts| - 1])| then OpenElements(ts[..|ts| - 1])
    else StackAt(ts[..|ts| - 1], k)
  }

  function SetOf(nodes: seq<Node>): set<Node> { set n | n in nodes }

  predicate Distinct(nodes: seq<Node>) { forall i, j :: 0 <= i < j < |nodes| ==> nodes[i] != nodes[j] }

  /** `w.substr(from, length)`. */
  function Substr(w: string, start: nat, length: int): string {
    if start >= |w| || length <= 0 then "" else if start + length > |w| then w[start..] else w[start..start + length]
  }

  function Min(a: nat, b: nat): nat { if a < b then a else b }

  class Stream {
    var events: seq<Event>

    constructor (events: seq<Event>)
      ensures this.events == events
    {
      this.events := events;
    }

    /** nodeStream's inner function: pushes the events of some nodes and returns the offset after them. */
    method Collect(doms: seq<Dom>, offset: nat) returns (end: nat)
      modifies this
      ensures events == old(events) + Events(doms, offset).0 && end == Events(doms, offset).1
      decreases doms
    {
      end := offset;
      for i := 0 to |doms|
        invariant old(events) + Events(doms, offset).0 == events + Events(doms[i..], end).0
        invariant Events(doms, offset).1 == Events(doms[i..], end).1
      {
        assert doms[i..][1..] == doms[i + 1..];
        ghost var was := events;
        ghost var (first, mid) := EventsOf(doms[i], end);
        ghost var rest := Events(doms[i + 1..], mid).0;
        match doms[i] {
          case TextNode(text) => end := end + |text|;
          case Br => end := end + 1;
          case Element(node, children) =>
            events := events + [Start(end, node)];
            end := Collect(children, end);
            events := events + [Stop(end, node)];
          case Other =>
        }
        assert events == was + first && was + (first + rest) == was + first + rest;
      }
      assert doms[|doms|..] == [] && events + [] == events;
    }
  }

  /** Every character is covered by the same elements in the text as in the two streams. */
  ghost predicate Covered(ts: seq<Token>, xs: seq<Event>, vs: seq<Event>) {
    forall k: nat :: k < |Texts(ts)| ==>
      StackAt(ts, k).Good? && Distinct(StackAt(ts, k).nodes) &&
      SetOf(StackAt(ts, k).nodes) == Covering(xs, k) + Covering(vs, k)
  }

  lemma StackSnoc(ts: seq<Token>, t: Token, k: nat)
    requires k < |Texts(ts + [t])|
    ensures StackAt(ts + [t], k) == if k < |Texts(ts)| then StackAt(ts, k) else OpenElements(ts)
  {
    assert (ts + [t])[..|ts|] == ts;
  }

  lemma TagCovered(ts: seq<Token>, t: Token, xs: seq<Event>, vs: seq<Event>)
    requires Covered(ts, xs, vs) && !t.Text?
    ensures Covered(ts + [t], xs, vs)
  {
    hide Texts, StackAt, Covering, Distinct;
    Snoc(ts, t);
    forall k: nat | k < |Texts(ts + [t])|
      ensures StackAt(ts + [t], k) == StackAt(ts, k) && k < |Texts(ts)|
    {
      StackSnoc(ts, t, k);
      assert Texts(ts) + "" == Texts(ts);
    }
  }

  /** Emitting the text between two events: what is open covers exactly those characters. */
  lemma TextCovered(ts: seq<Token>, text: string, xs: seq<Event>, vs: seq<Event>, i: nat, j: nat, p: nat, q: nat,
                    r: seq<Node>)
    requires Covered(ts, xs, vs) && OpenElements(ts) == Good(r) && Distinct(r)
    requires i <= |xs| && j <= |vs| && SetOf(r) == OpenNodes(xs[..i]) + OpenNodes(vs[..j])
    requires (forall a :: 0 <= a < i ==> xs[a].offset <= p) && (forall a :: i <= a < |xs| ==> xs[a].offset >= q)
    requires (forall a :: 0 <= a < j ==> vs[a].offset <= p) && (forall a :: j <= a < |vs| ==> vs[a].offset >= q)
    requires text != "" ==> |Texts(ts)| == p && p + |text| <= q
    ensures Covered(ts + [Text(text)], xs, vs)
  {
    hide Texts, StackAt, OpenNodes, Distinct, Covering, OpenElements;
    var t := Text(text);
    Snoc(ts, t);
    forall k: nat | k < |Texts(ts + [t])|
      ensures StackAt(ts + [t], k).Good? && Distinct(StackAt(ts + [t], k).nodes)
      ensures SetOf(StackAt(ts + [t], k).nodes) == Covering(xs, k) + Covering(vs, k)
    {
      StackSnoc(ts, t, k);
      if k >= |Texts(ts)| {
        CoveringIs(xs, k, i);
        CoveringIs(vs, k, j);
      }
    }
  }

  lemma CoveringIs(es: seq<Event>, k: nat, i: nat)
    requires i <= |es| && (forall j :: 0 <= j < i ==> es[j].offset <= k) && (i < |es| ==> es[i].offset > k)
    ensures Covering(es, k) == OpenNodes(es[..i])
  {
    hide OpenNodes;
    CountIs(es, k, i);
  }

  /** The text so far is right, with these elements open. */
  ghost predicate Partial(y: string, ts: seq<Token>, open: seq<Node>, xs: seq<Event>, vs: seq<Event>) {
    y == Show(ts) && OpenElements(ts) == Good(open) && Covered(ts, xs, vs) && NodesNamed(ts)
  }

  predicate AllNamed(r: seq<Node>) { forall i :: 0 <= i < |r| ==> Named(r[i]) }

  /** What holds between two events: `r` lists the open elements. */
  ghost predicate Written(y: string, ts: seq<Token>, r: seq<Node>, xs: seq<Event>, vs: seq<Event>) {
    Partial(y, ts, r, xs, vs) && Distinct(r) && AllNamed(r)
  }

  lemma TagWritten(y: string, ts: seq<Token>, r: seq<Node>, xs: seq<Event>, vs: seq<Event>, t: Token, r': seq<Node>)
    requires Partial(y, ts, r, xs, vs) && !t.Text? && Named(t.node)
    requires if t.Open? then r' == r + [t.node] else r != [] && r[|r| - 1] == t.node && r' == r[..|r| - 1]
    ensures Partial(y + Shown(t), ts + [t], r', xs, vs) && Texts(ts + [t]) == Texts(ts)
  {
    hide Show, Shown, Texts, OpenElements, Covered, Named;
    Snoc(ts, t);
    OpenSnoc(ts, t, r);
    TagCovered(ts, t, xs, vs);
    assert Texts(ts) + "" == Texts(ts);
  }

  lemma Removed(r: seq<Node>, q: nat)
    requires q < |r| && Distinct(r)
    ensures Distinct(r[..q] + r[q + 1..]) && SetOf(r[..q] + r[q + 1..]) == SetOf(r) - {r[q]}
  {
    var s := r[..q] + r[q + 1..];
    forall i, j | 0 <= i < j < |s|
      ensures s[i] != s[j]
    {
      assert s[i] == r[if i < q then i else i + 1] && s[j] == r[if j < q then j else j + 1];
    }
    forall n
      ensures n in s <==> n in r && n != r[q]
    {
      if n in s {
        var i :| 0 <= i < |s| && s[i] == n;
        assert n == r[if i < q then i else i + 1];
      }
      if n in r && n != r[q] {
        var i :| 0 <= i < |r| && r[i] == n;
        assert n == s[if i < q then i else i - 1];
      }
    }
  }

  /** The elements whose opening tags have been written. */
  function Opened(ts: seq<Token>): set<Node> { set i | 0 <= i < |ts| && ts[i].Open? :: ts[i].node }

  lemma OpenedSnoc(ts: seq<Token>, t: Token)
    ensures Opened(ts + [t]) == Opened(ts) + if t.Open? then {t.node} else {}
  {
    var all := ts + [t];
    forall n
      ensures n in Opened(all) <==> n in Opened(ts) || (t.Open? && n == t.node)
    {
      if n in Opened(ts) {
        var i :| 0 <= i < |ts| && ts[i].Open? && ts[i].node == n;
        assert all[i].Open? && all[i].node == n;
      }
      if t.Open? && n == t.node {
        assert all[|ts|].Open? && all[|ts|].node == n;
      }
    }
  }

  /** Nothing is open, or closed, that has not been opened. */
  lemma {:induction false} OnlyOpened(ts: seq<Token>)
    requires OpenElements(ts).Good?
    ensures SetOf(OpenElements(ts).nodes) <= Opened(ts)
    ensures forall i :: 0 <= i < |ts| && !ts[i].Text? ==> ts[i].node in Opened(ts)
    decreases |ts|
  {
    hide Opened;
    if ts != [] {
      var n := |ts| - 1;
      OnlyOpened(ts[..n]);
      assert ts == ts[..n] + [ts[n]];
      OpenedSnoc(ts[..n], ts[n]);
      var before := OpenElements(ts[..n]).nodes;
      assert ts[n].Close? ==> before[|before| - 1] in SetOf(before);
      forall i | 0 <= i < |ts| && !ts[i].Text?
        ensures ts[i].node in Opened(ts)
      {
        if i < n {
          assert ts[..n][i] == ts[i];
        }
      }
    }
  }

  /** Closes elements until the one asked for is closed. */
  method CloseTo(node: Node, r: seq<Node>, y: string, ghost ts: seq<Token>, ghost xs: seq<Event>, ghost vs: seq<Event>)
    returns (q: nat, y': string, ghost ts': seq<Token>)
    requires Partial(y, ts, r, xs, vs) && AllNamed(r) && node in r
    ensures q < |r| && r[q] == node && Partial(y', ts', r[..q], xs, vs) && Texts(ts') == Texts(ts)
    ensures Opened(ts') == Opened(ts)
  {
    hide Partial, Shown, Texts, Named, Opened;
    ghost var m :| 0 <= m < |r| && r[m] == node;
    q := |r| - 1;
    TagWritten(y, ts, r, xs, vs, Close(r[q]), r[..q]);
    OpenedSnoc(ts, Close(r[q]));
    y', ts' := y + Shown(Close(r[q])), ts + [Close(r[q])];
    while r[q] != node
      invariant m <= q < |r| && Partial(y', ts', r[..q], xs, vs) && Texts(ts') == Texts(ts)
      invariant Opened(ts') == Opened(ts)
      decreases q
    {
      assert r[..q][..q - 1] == r[..q - 1];
      TagWritten(y', ts', r[..q], xs, vs, Close(r[q - 1]), r[..q - 1]);
      OpenedSnoc(ts', Close(r[q - 1]));
      q := q - 1;
      y', ts' := y' + Shown(Close(r[q])), ts' + [Close(r[q])];
    }
  }

  method Reopen(r: seq<Node>, q0: nat, y: string, ghost ts: seq<Token>, ghost xs: seq<Event>, ghost vs: seq<Event>)
    returns (y': string, ghost ts': seq<Token>)
    requires q0 <= |r| && Partial(y, ts, r[..q0], xs, vs) && AllNamed(r)
    ensures Partial(y', ts', r, xs, vs) && Texts(ts') == Texts(ts)
    ensures Opened(ts') == Opened(ts) + SetOf(r[q0..])
  {
    hide Partial, Shown, Texts, Named, Opened, SetOf;
    SetOfNone();
    assert r[q0..q0] == [];
    y', ts' := y, ts;
    var q := q0;
    while q < |r|
      invariant q0 <= q <= |r| && Partial(y', ts', r[..q], xs, vs) && Texts(ts') == Texts(ts)
      invariant Opened(ts') == Opened(ts) + SetOf(r[q0..q])
    {
      assert r[..q + 1] == r[..q] + [r[q]];
      assert r[q0..q + 1] == r[q0..q] + [r[q]];
      SetOfSnoc(r[q0..q], r[q]);
      OpenedSnoc(ts', Open(r[q]));
      TagWritten(y', ts', r[..q], xs, vs, Open(r[q]), r[..q + 1]);
      y', ts' := y' + Shown(Open(r[q])), ts' + [Open(r[q])];
      q := q + 1;
    }
    assert r[..|r|] == r && r[q0..|r|] == r[q0..];
  }

  lemma SetOfNone()
    ensures SetOf([]) == {}
  {
  }

  lemma SetOfSnoc(r: seq<Node>, n: Node)
    ensures SetOf(r + [n]) == SetOf(r) + {n}
  {
    assert forall m :: m in r + [n] <==> m in r || m == n;
  }

  /** Closes down to the element, takes it out, and opens again the elements it closed on the way. */
  method StopElement(node: Node, r: seq<Node>, y: string, ghost ts: seq<Token>, ghost xs: seq<Event>,
                     ghost vs: seq<Event>)
    returns (r': seq<Node>, y': string, ghost ts': seq<Token>)
    requires Written(y, ts, r, xs, vs) && node in r
    ensures Written(y', ts', r', xs, vs) && Texts(ts') == Texts(ts) && SetOf(r') == SetOf(r) - {node}
    ensures Opened(ts') == Opened(ts) + {node}
  {
    PartialOpened(y, ts, r, xs, vs);
    hide Partial, Texts, Named, Distinct, Opened;
    var q;
    q, y', ts' := CloseTo(node, r, y, ts, xs, vs);
    Removed(r, q);
    r' := r[..q] + r[q + 1..];
    assert r'[..q] == r[..q];
    y', ts' := Reopen(r', q, y', ts', xs, vs);
    assert SetOf(r'[q..]) <= SetOf(r') by {
      assert forall n :: n in r'[q..] ==> n in r';
    }
    assert node in SetOf(r);
  }

  lemma PartialOpened(y: string, ts: seq<Token>, r: seq<Node>, xs: seq<Event>, vs: seq<Event>)
    requires Partial(y, ts, r, xs, vs)
    ensures SetOf(r) <= Opened(ts)
  {
    hide Show, Opened, Covered, NodesNamed;
    OnlyOpened(ts);
  }

  method StartElement(node: Node, r: seq<Node>, y: string, ghost ts: seq<Token>, ghost xs: seq<Event>,
                      ghost vs: seq<Event>)
    returns (r': seq<Node>, y': string, ghost ts': seq<Token>)
    requires Written(y, ts, r, xs, vs) && node !in r && Named(node)
    ensures Written(y', ts', r', xs, vs) && Texts(ts') == Texts(ts) && SetOf(r') == SetOf(r) + {node}
    ensures Opened(ts') == Opened(ts) + {node}
  {
    hide Partial, Shown, Texts, Named, Opened;
    OpenedSnoc(ts, Open(node));
    TagWritten(y, ts, r, xs, vs, Open(node), r + [node]);
    y', ts' := y + Shown(Open(node)), ts + [Open(node)];
    r' := r + [node];
  }

  /** The first i events are at p or before, the others at q or after. */
  ghost predicate Split(es: seq<Event>, i: nat, p: nat, q: nat) {
    i <= |es| && (forall a :: 0 <= a < i ==> es[a].offset <= p) && forall a :: i <= a < |es| ==> es[a].offset >= q
  }

  /** The text between two events; i and j events of the streams are behind it. */
  method EmitText(w: string, p: nat, length: int, r: seq<Node>, y: string, ghost ts: seq<Token>, ghost xs: seq<Event>,
                  ghost vs: seq<Event>,
                  ghost i: nat, ghost j: nat) returns (y': string, ghost ts': seq<Token>)
    requires Written(y, ts, r, xs, vs) && Texts(ts) == w[..Min(p, |w|)] && length >= 0
    requires Split(xs, i, p, p + length) && Split(vs, j, p, p + length) &&
             SetOf(r) == OpenNodes(xs[..i]) + OpenNodes(vs[..j])
    ensures Written(y', ts', r, xs, vs) && Texts(ts') == w[..Min(p + length, |w|)]
    ensures Opened(ts') == Opened(ts)
  {
    hide Opened, Show, Texts, OpenElements, Covered, Distinct, OpenNodes, Escape, Named, AllNamed;
    var text := Substr(w, p, length);
    TextCovered(ts, text, xs, vs, i, j, p, p + length, r);
    Snoc(ts, Text(text));
    OpenedSnoc(ts, Text(text));
    OpenSnoc(ts, Text(text), r);
    y', ts' := y + Escape(text), ts + [Text(text)];
    assert w[..Min(p + length, |w|)] == w[..Min(p, |w|)] + text;
  }

  /** The first events of the streams that are left. */
  method Select(x: Stream, v: Stream) returns (s: Stream)
    requires x.events != [] || v.events != []
    ensures s == x || s == v
    ensures s.events != []
    ensures s == x && v.events != [] ==> x.events[0].offset <= v.events[0].offset
    ensures s == v && x.events != [] ==> v.events[0].offset <= x.events[0].offset
    ensures x.events != [] && v.events != [] && x.events[0].offset == v.events[0].offset ==>
            s == if v.events[0].Start? then x else v
  {
    if x.events != [] && v.events != [] {
      if x.events[0].offset != v.events[0].offset {
        s := if x.events[0].offset < v.events[0].offset then x else v;
      } else {
        s := if v.events[0].Start? then x else v;
      }
    } else {
      s := if x.events != [] then x else v;
    }
  }

  /** How far the events of a stream have been taken. */
  ghost predicate Taken(es: seq<Event>, i: nat, left: seq<Event>, p: nat) { Split(es, i, p, p) && left == es[i..] }

  lemma TakenNext(es: seq<Event>, i: nat, left: seq<Event>, p: nat)
    requires Sorted(es) && Taken(es, i, left, p) && left != []
    ensures i < |es| && left[0] == es[i] && Taken(es, i + 1, left[1..], es[i].offset) && es[i].offset >= p
    ensures es[..i + 1] == es[..i] + [es[i]]
  {
  }

  lemma OpenNext(es: seq<Event>, i: nat, others: set<Node>, r: seq<Node>)
    requires Proper(es) && i < |es| && SetOf(r) == OpenNodes(es[..i]) + others && others !! Nodes(es)
    ensures es[i].node in Nodes(es)
    ensures if es[i].Start? then es[i].node !in r && OpenNodes(es[..i + 1]) + others == SetOf(r) + {es[i].node}
            else es[i].node in r && OpenNodes(es[..i + 1]) + others == SetOf(r) - {es[i].node}
  {
    assert es[..i + 1] == es[..i] + [es[i]];
    OpenSnoc1(es[..i], es[i]);
    OpenAreNodes(es[..i]);
    assert Fits(es, i);
    assert es[i] in es && es[i].node in Nodes(es);
    hide OpenNodes;
    assert forall n :: n in r <==> n in SetOf(r);
  }

  /** The events that are left come later still. */
  lemma Later(es: seq<Event>, i: nat, left: seq<Event>, p: nat, q: nat)
    requires Sorted(es) && Taken(es, i, left, p) && p <= q && (left != [] ==> left[0].offset >= q)
    ensures Taken(es, i, left, q)
  {
    if left != [] {
      assert left[0] == es[i];
    }
  }

  lemma PrefixNodes(es: seq<Event>, i: nat)
    requires i <= |es|
    ensures OpenNodes(es[..i]) <= Nodes(es)
  {
    hide OpenNodes;
    OpenAreNodes(es[..i]);
  }

  lemma NothingWritten(xs: seq<Event>, vs: seq<Event>)
    ensures Written("", [], [], xs, vs) && Texts([]) == "" && SetOf([]) == OpenNodes(xs[..0]) + OpenNodes(vs[..0])
    ensures Taken(xs, 0, xs, 0) && Taken(vs, 0, vs, 0)
    ensures forall w: string :: Merging(xs, vs, w, 0, 0, xs, vs, 0, [], "", [])
  {
  }

  lemma NoneInSet(r: seq<Node>)
    ensures SetOf(r) == {} <==> r == []
  {
    if r != [] {
      assert r[0] in SetOf(r);
    }
  }

  lemma AllClosed(y: string, ts: seq<Token>, r: seq<Node>, xs: seq<Event>, vs: seq<Event>, w: string)
    requires Written(y, ts, r, xs, vs) && Texts(ts) == w && SetOf(r) == {}
    ensures WellNested(ts) && y == Show(ts) && Strip(y) == Escape(w) && Covered(ts, xs, vs)
  {
    hide Show, OpenElements, Covered, Escape, Strip;
    NoneInSet(r);
    StripShown(ts, "");
    StripNothing();
    assert Show(ts) + "" == Show(ts) && Escape(w) + "" == Escape(w);
  }

  lemma StripNothing()
    ensures Strip("") == ""
  {
  }

  lemma NothingOpen(xs: seq<Event>, vs: seq<Event>, r: seq<Node>)
    requires Proper(xs) && Proper(vs) && SetOf(r) == OpenNodes(xs) + OpenNodes(vs)
    ensures SetOf(r) == {}
  {
  }

  /** Taking the next event of one stream while the other waits at or after it. */
  lemma Advance(es: seq<Event>, i: nat, left: seq<Event>, os: seq<Event>, j: nat, others: seq<Event>, r: seq<Node>,
                p: nat)
    requires Sorted(es) && Proper(es) && Taken(es, i, left, p) && left != []
    requires Sorted(os) && Taken(os, j, others, p) && (others != [] ==> left[0].offset <= others[0].offset)
    requires SetOf(r) == OpenNodes(es[..i]) + OpenNodes(os[..j]) && Nodes(es) !! Nodes(os)
    ensures var u := left[0];
            && u.offset >= p && u.node in Nodes(es) && i < |es|
            && Split(es, i, p, u.offset) && Split(os, j, p, u.offset)
            && Taken(es, i + 1, left[1..], u.offset) && Taken(os, j, others, u.offset)
            && (u.Start? ==> u.node !in r && OpenNodes(es[..i + 1]) + OpenNodes(os[..j]) == SetOf(r) + {u.node})
            && (u.Stop? ==> u.node in r && OpenNodes(es[..i + 1]) + OpenNodes(os[..j]) == SetOf(r) - {u.node})
  {
    hide OpenNodes, Proper, Fits;
    TakenNext(es, i, left, p);
    PrefixNodes(os, j);
    OpenNext(es, i, OpenNodes(os[..j]), r);
    Later(es, i, left, p, left[0].offset);
    Later(os, j, others, p, left[0].offset);
  }

  lemma WrittenSwap(y: string, ts: seq<Token>, r: seq<Node>, xs: seq<Event>, vs: seq<Event>)
    ensures Written(y, ts, r, xs, vs) == Written(y, ts, r, vs, xs)
  {
    hide Show, Texts, OpenElements, StackAt, Covering, Distinct, AllNamed, NodesNamed;
    assert forall k: nat :: Covering(xs, k) + Covering(vs, k) == Covering(vs, k) + Covering(xs, k);
  }

  /** One round: the text up to the next event of a stream, then its tag. */
  method TakeEvent(s: Stream, w: string, p: nat, r: seq<Node>, y: string, ghost ts: seq<Token>,
                   ghost es: seq<Event>, ghost i: nat, ghost os: seq<Event>, ghost j: nat, ghost others: seq<Event>)
    returns (p': nat, r': seq<Node>, y': string, ghost ts': seq<Token>)
    requires Sorted(es) && Proper(es) && Taken(es, i, s.events, p) && s.events != []
    requires Sorted(os) && Taken(os, j, others, p) && (others != [] ==> s.events[0].offset <= others[0].offset)
    requires Nodes(es) !! Nodes(os) && (forall n :: n in Nodes(es) ==> Named(n))
    requires i <= |es| && j <= |os| && SetOf(r) == OpenNodes(es[..i]) + OpenNodes(os[..j])
    requires Written(y, ts, r, es, os) && Texts(ts) == w[..Min(p, |w|)]
    modifies s
    ensures s.events == old(s.events)[1..] && i < |es|
    ensures Taken(es, i + 1, s.events, p') && Taken(os, j, others, p')
    ensures SetOf(r') == OpenNodes(es[..i + 1]) + OpenNodes(os[..j])
    ensures Written(y', ts', r', es, os) && Texts(ts') == w[..Min(p', |w|)]
    ensures Opened(ts') == Opened(ts) + {es[i].node}
  {
    hide Opened, Show, Texts, OpenNodes, Named, Proper, Sorted, Written, Split, SetOf, Nodes;
    Advance(es, i, s.events, os, j, others, r, p);
    var u := s.events[0];
    s.events := s.events[1..];
    y', ts' := EmitText(w, p, u.offset - p, r, y, ts, es, os, i, j);
    p' := u.offset;
    if u.Start? {
      r', y', ts' := StartElement(u.node, r, y', ts', es, os);
    } else {
      r', y', ts' := StopElement(u.node, r, y', ts', es, os);
    }
  }

  /** What holds between two rounds, when i and j events have been taken and the others are left. */
  ghost predicate Merging(xs: seq<Event>, vs: seq<Event>, w: string, i: nat, j: nat, xl: seq<Event>, vl: seq<Event>,
                          p: nat, r: seq<Node>, y: string, ts: seq<Token>) {
    && i <= |xs| && j <= |vs| && Taken(xs, i, xl, p) && Taken(vs, j, vl, p)
    && SetOf(r) == OpenNodes(xs[..i]) + OpenNodes(vs[..j])
    && Written(y, ts, r, xs, vs) && Texts(ts) == w[..Min(p, |w|)]
    && Opened(ts) == Nodes(xs[..i]) + Nodes(vs[..j])
  }

  /** One round of the loop, on the stream that comes next. */
  method Round(x: Stream, v: Stream, w: string, p: nat, r: seq<Node>, y: string, ghost ts: seq<Token>,
               ghost xs: seq<Event>, ghost i: nat, ghost vs: seq<Event>, ghost j: nat)
    returns (p': nat, r': seq<Node>, y': string, ghost ts': seq<Token>, ghost i': nat, ghost j': nat)
    requires x != v && Sorted(xs) && Proper(xs) && Sorted(vs) && Proper(vs) && Nodes(xs) !! Nodes(vs)
    requires forall n :: n in Nodes(xs) + Nodes(vs) ==> Named(n)
    requires Merging(xs, vs, w, i, j, x.events, v.events, p, r, y, ts) && (x.events != [] || v.events != [])
    modifies x, v
    ensures Merging(xs, vs, w, i', j', x.events, v.events, p', r', y', ts')
    ensures |x.events| + |v.events| < |old(x.events)| + |old(v.events)|
  {
    hide Opened, Texts, OpenNodes, Named, Proper, Sorted, Written, Taken, SetOf, Nodes;
    i', j' := i, j;
    var s := Select(x, v);
    if s == x {
      p', r', y', ts' := TakeEvent(x, w, p, r, y, ts, xs, i, vs, j, v.events);
      NodesNext(xs, i);
      i' := i + 1;
    } else {
      AddSets(OpenNodes(xs[..i]), OpenNodes(vs[..j]));
      WrittenSwap(y, ts, r, xs, vs);
      p', r', y', ts' := TakeEvent(v, w, p, r, y, ts, vs, j, xs, i, x.events);
      NodesNext(vs, j);
      j' := j + 1;
      WrittenSwap(y', ts', r', xs, vs);
      AddSets(OpenNodes(xs[..i]), OpenNodes(vs[..j']));
    }
  }

  lemma MergedAll(xs: seq<Event>, vs: seq<Event>, w: string, i: nat, j: nat, p: nat, r: seq<Node>, y: string,
                  ts: seq<Token>)
    requires Merging(xs, vs, w, i, j, [], [], p, r, y, ts)
    ensures Written(y, ts, r, xs, vs) && Texts(ts) == w[..Min(p, |w|)]
    ensures SetOf(r) == OpenNodes(xs) + OpenNodes(vs) && Opened(ts) == Nodes(xs) + Nodes(vs)
    ensures Taken(xs, i, [], p) && Taken(vs, j, [], p)
  {
    hide Opened, Texts, OpenNodes, Written, SetOf, Nodes, Split;
    Finished(xs, i, vs, j, p, |w|);
  }

  /** Merges two streams with different elements: the output is well nested even where their elements overlap, taking
      the tags out gives the escaped text, every character is covered by the same elements as in the streams, and the
      streams are used up. */
  method Merge(x: Stream, v: Stream, w: string) returns (y: string, ghost ts: seq<Token>)
    requires x != v && Sorted(x.events) && Proper(x.events) && Sorted(v.events) && Proper(v.events)
    requires Nodes(x.events) !! Nodes(v.events)
    requires forall n :: n in Nodes(x.events) + Nodes(v.events) ==> Named(n)
    modifies x, v
    ensures x.events == [] && v.events == []
    ensures y == Show(ts) && WellNested(ts) && Texts(ts) == w && Strip(y) == Escape(w)
    ensures Covered(ts, old(x.events), old(v.events))
    ensures Opened(ts) == Nodes(old(x.events)) + Nodes(old(v.events))
    ensures (forall n :: n in Nodes(old(x.events)) + Nodes(old(v.events)) ==> WellNamed(n)) ==>
            (ReadTags(y) == TagsOf(ts) <==>
             forall n :: n in Nodes(old(x.events)) + Nodes(old(v.events)) ==> NoQuote(n))
  {
    ghost var xs, vs := x.events, v.events;
    ghost var i: nat, j: nat := 0, 0;
    var p: nat := 0;
    var r: seq<Node> := [];
    y, ts := "", [];
    NothingWritten(xs, vs);
    hide WellNamed, NoQuote, ReadTags, TagsOf, Opened, Show, Texts, WellNested, Covered, OpenNodes, Named, Proper,
         Sorted, Escape, Strip, Written, Taken, Split, SetOf, Nodes, Merging;
    while x.events != [] || v.events != []
      invariant Merging(xs, vs, w, i, j, x.events, v.events, p, r, y, ts)
      decreases |x.events| + |v.events|
    {
      p, r, y, ts, i, j := Round(x, v, w, p, r, y, ts, xs, i, vs, j);
    }
    MergedAll(xs, vs, w, i, j, p, r, y, ts);
    Finished(xs, i, vs, j, p, |w|);
    y, ts := EmitText(w, p, |w|, r, y, ts, xs, vs, i, j);
    assert w[..Min(p + |w|, |w|)] == w;
    NothingOpen(xs, vs, r);
    AllClosed(y, ts, r, xs, vs, w);
    WrittenReadsIff(ts, Nodes(xs) + Nodes(vs));
  }

  lemma NodesNext(es: seq<Event>, i: nat)
    requires i < |es|
    ensures Nodes(es[..i + 1]) == Nodes(es[..i]) + {es[i].node}
  {
    assert es[..i + 1] == es[..i] + [es[i]];
    NodesConcat(es[..i], [es[i]]);
    OneNode(es[i]);
  }

  /** What has been written reads back exactly when no attribute value of an element contains a double quote. */
  lemma WrittenReadsIff(ts: seq<Token>, nodes: set<Node>)
    requires WellNested(ts) && Opened(ts) == nodes
    ensures (forall n :: n in nodes ==> WellNamed(n)) ==>
            (ReadTags(Show(ts)) == TagsOf(ts) <==> forall n :: n in nodes ==> NoQuote(n))
  {
    hide ReadTags, Show, TagsOf, WellNamed, NoQuote;
    OnlyOpened(ts);
    if forall n :: n in nodes ==> WellNamed(n) {
      TagsReadIff(ts);
      if OpenedNoQuote(ts) {
        forall n | n in nodes
          ensures NoQuote(n)
        {
          var i :| 0 <= i < |ts| && ts[i].Open? && ts[i].node == n;
        }
      }
    }
  }

  lemma AddSets(a: set<Node>, b: set<Node>)
    ensures a + b == b + a
  {
  }

  lemma Finished(xs: seq<Event>, i: nat, vs: seq<Event>, j: nat, p: nat, length: nat)
    requires Taken(xs, i, [], p) && Taken(vs, j, [], p)
    ensures i == |xs| && j == |vs| && xs[..i] == xs && vs[..j] == vs
    ensures Split(xs, i, p, p + length) && Split(vs, j, p, p + length)
  {
    assert |xs[i..]| == 0 && |vs[j..]| == 0;
  }
}
