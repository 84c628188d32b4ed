/** marked's block lexer. Regular expressions are oracles: what is assumed of them is that
    a match is not empty and lies within the source. */
module MarkedLexer {
  import opened Wrappers
  import opened MarkedBlocks

  // ---------- Matches ----------

  datatype LeafMatch = LeafMatch(length: nat, token: Token)

  datatype QuoteMatch = QuoteMatch(length: nat, inner: string)

  datatype Link = Link(key: string, href: string, title: Option<string>)

  datatype DefMatch = DefMatch(length: nat, link: Link)

  /** An item of a list: where it was found in the list, and its text without the bullet. */
  datatype ItemMatch = ItemMatch(at: nat, raw: string, bullet: string, inner: string)

  datatype ListMatch = ListMatch(length: nat, bullet: string, items: seq<ItemMatch>)

  datatype Rules = Rules(
    blank: string -> string,
    newline: string -> nat,
    code: string -> Option<LeafMatch>,
    fences: string -> Option<LeafMatch>,
    heading: string -> Option<LeafMatch>,
    nptable: string -> Option<LeafMatch>,
    lheading: string -> Option<LeafMatch>,
    hr: string -> Option<LeafMatch>,
    blockquote: string -> Option<QuoteMatch>,
    list: string -> Option<ListMatch>,
    html: string -> Option<LeafMatch>,
    def: string -> Option<DefMatch>,
    table: string -> Option<LeafMatch>,
    paragraph: string -> Option<LeafMatch>,
    text: string -> Option<LeafMatch>,
    gap: string -> bool)

  predicate Consumes(length: nat, src: string) { 1 <= length <= |src| }

  predicate LeafFits(m: Option<LeafMatch>, src: string) { m.Some? ==>
    Consumes(m.value.length, src) && IsLeaf(m.value.token) }

  /** Items do not overlap, a line break lies between them, and taking off the bullet makes an item shorter. */
  predicate ItemsFit(items: seq<ItemMatch>, length: nat) {
    && items != []
    && (forall i :: 0 <= i < |items| ==> items[i].at + |items[i].raw| <= length && |items[i].inner| < |items[i].raw|)
    && (forall i :: 0 <= i < |items| - 1 ==> items[i].at + |items[i].raw| + 1 <= items[i + 1].at)
  }

  predicate FitsAt(r: Rules, src: string) {
    && |r.blank(src)| <= |src| && r.newline(src) <= |src|
    && LeafFits(r.code(src), src) && LeafFits(r.fences(src), src) && LeafFits(r.heading(src), src) &&
      LeafFits(r.nptable(src), src)
    && LeafFits(r.lheading(src), src) && LeafFits(r.hr(src), src) && LeafFits(r.html(src), src) &&
      LeafFits(r.table(src), src)
    && LeafFits(r.paragraph(src), src) && LeafFits(r.text(src), src)
    && (r.blockquote(src).Some? ==>
        Consumes(r.blockquote(src).value.length, src) &&
        |r.blockquote(src).value.inner| < r.blockquote(src).value.length)
    && (r.def(src).Some? ==> Consumes(r.def(src).value.length, src))
    && (r.list(src).Some? ==>
        Consumes(r.list(src).value.length, src) && ItemsFit(r.list(src).value.items, r.list(src).value.length))
  }

  ghost predicate Fit(r: Rules) { forall src: string :: FitsAt(r, src) }

  // ---------- Lists ----------

  /** smartLists: an item whose bullet is of another kind ends the list. */
  predicate Belongs(bullet: string, next: string) { bullet == next || (|bullet| > 1 && |next| > 1) }

  /** How many items from the i-th on stay in the list. */
  function Kept(items: seq<ItemMatch>, i: nat, bullet: string, smartLists: bool): (k: nat)
    requires i < |items|
    ensures i < k <= |items|
    decreases |items| - i
  {
    if i + 1 == |items| || (smartLists && !Belongs(bullet, items[i + 1].bullet)) then i + 1
    else Kept(items, i + 1, bullet, smartLists)
  }

  /** The text of the items put back before the source. */
  function PutBack(items: seq<ItemMatch>): string {
    if items == [] then "" else items[0].raw + (if |items| == 1 then "" else "\n") + PutBack(items[1..])
  }

  /** What is put back is shorter than the list it came from. */
  lemma {:induction false} PutBackShort(items: seq<ItemMatch>, k: nat, length: nat)
    requires ItemsFit(items, length) && k < |items|
    ensures |PutBack(items[k..])| + items[k].at <= length
    decreases |items| - k
  {
    if k + 1 < |items| {
      PutBackShort(items, k + 1, length);
      assert items[k..][1..] == items[k + 1..];
    } else {
      assert items[k..][1..] == [];
    }
  }

  function EndsLine(s: string): bool { s != "" && s[|s| - 1] == '\n' }

  function RestAfter(src: string, m: ListMatch, kept: nat): string
    requires m.length <= |src| && kept <= |m.items|
  {
    PutBack(m.items[kept..]) + src[m.length..]
  }

  // ---------- The block tree of a source ----------

  /** The blocks and link definitions found; Failed is the thrown "Infinite loop". */
  datatype Lexed = Failed | Lexed(blocks: seq<Block>, links: seq<Link>)

  function Then(first: Lexed, rest: Lexed): Lexed {
    if first.Failed? || rest.Failed? then Failed else Lexed(first.blocks + rest.blocks, first.links + rest.links)
  }

  function Single(b: Block): Lexed { Lexed([b], []) }

  /** A non-empty first match among the leaf rules, in the order they are tried around the nested ones. */
  function EarlyLeaf(r: Rules, src: string, top: bool): Option<LeafMatch> {
    if r.code(src).Some? then r.code(src)
    else if r.fences(src).Some? then r.fences(src)
    else if r.heading(src).Some? then r.heading(src)
    else if top && r.nptable(src).Some? then r.nptable(src)
    else if r.lheading(src).Some? then r.lheading(src)
    else if r.hr(src).Some? then r.hr(src)
    else None
  }

  function LateLeaf(r: Rules, src: string, top: bool): Option<LeafMatch> {
    if top && r.table(src).Some? then r.table(src)
    else if top && r.paragraph(src).Some? then r.paragraph(src)
    else if r.text(src).Some? then r.text(src)
    else None
  }

  ghost function Lex(r: Rules, smart: bool, src: string, top: bool, bq: bool): Lexed
    requires Fit(r)
    decreases |src|, 3
  {
    assert FitsAt(r, src);
    LexLoop(r, smart, r.blank(src), top, bq)
  }

  ghost function LexLoop(r: Rules, smart: bool, src: string, top: bool, bq: bool): Lexed
    requires Fit(r)
    decreases |src|, 2
  {
    assert FitsAt(r, src);
    if src == "" then Lexed([], []) else
      var n := r.newline(src);
      Then(Lexed(if n > 1 then [Leaf(Space)] else [], []), LexBlock(r, smart, src[n..], top, bq))
  }

  /** One block, and what follows it. */
  ghost function LexBlock(r: Rules, smart: bool, src: string, top: bool, bq: bool): Lexed
    requires Fit(r)
    decreases |src|, 1
  {
    assert FitsAt(r, src);
    if EarlyLeaf(r, src, top).Some? then
      var m := EarlyLeaf(r, src, top).value;
      Then(Single(Leaf(m.token)), LexLoop(r, smart, src[m.length..], top, bq))
    else if r.blockquote(src).Some? then
      var m := r.blockquote(src).value;
      var body := Lex(r, smart, m.inner, top, true);
      Then(if body.Failed? then Failed else Lexed([Quote(body.blocks)], body.links),
           LexLoop(r, smart, src[m.length..], top, bq))
    else if r.list(src).Some? then
      var m := r.list(src).value;
      var kept := Kept(m.items, 0, m.bullet, smart);
      var items := LexItems(r, smart, m.items[..kept], m.length, false, bq);
      RestShorter(m, kept, src);
      Then(if items.FailedItems? then Failed else Lexed([List(|m.bullet| > 1, items.items)], items.links),
           LexLoop(r, smart, RestAfter(src, m, kept), top, bq))
    else if r.html(src).Some? then
      Then(Single(Leaf(r.html(src).value.token)), LexLoop(r, smart, src[r.html(src).value.length..], top, bq))
    else if !bq && top && r.def(src).Some? then
      Then(Lexed([], [r.def(src).value.link]), LexLoop(r, smart, src[r.def(src).value.length..], top, bq))
    else if LateLeaf(r, src, top).Some? then
      var m := LateLeaf(r, src, top).value;
      Then(Single(Leaf(m.token)), LexLoop(r, smart, src[m.length..], top, bq))
    else if src == "" then Lexed([], [])
    else Failed
  }

  datatype LexedItems = FailedItems | LexedItems(items: seq<ListItem>, links: seq<Link>)

  /** The items that belong to the list; `next` says that the item before ended in an empty line. */
  ghost function LexItems(r: Rules, smart: bool, items: seq<ItemMatch>, length: nat, next: bool, bq: bool): LexedItems
    requires Fit(r) && forall i :: 0 <= i < |items| ==> |items[i].inner| < length
    decreases length, 0, |items|
  {
    if items == [] then LexedItems([], []) else
      var inner := items[0].inner;
      var last := |items| == 1;
      var loose := next || r.gap(inner) || (!last && EndsLine(inner));
      var body := Lex(r, smart, inner, false, bq);
      var rest := LexItems(r, smart, items[1..], length, EndsLine(inner), bq);
      if body.Failed? || rest.FailedItems? then FailedItems
      else LexedItems([ListItem(loose, body.blocks)] + rest.items, body.links + rest.links)
  }

  lemma RestShorter(m: ListMatch, kept: nat, src: string)
    requires Consumes(m.length, src) && ItemsFit(m.items, m.length) && 0 < kept <= |m.items|
    ensures |RestAfter(src, m, kept)| < |src|
    ensures forall i :: 0 <= i < kept ==> |m.items[..kept][i].inner| < m.length
  {
    if kept < |m.items| {
      PutBackShort(m.items, kept, m.length);
      assert m.items[kept - 1].at + |m.items[kept - 1].raw| + 1 <= m.items[kept].at;
    } else {
      assert m.items[kept..] == [];
    }
  }

  lemma ThenAssoc(a: Lexed, b: Lexed, c: Lexed)
    ensures Then(Then(a, b), c) == Then(a, Then(b, c))
  {
    if a.Lexed? && b.Lexed? && c.Lexed? {
      assert a.blocks + b.blocks + c.blocks == a.blocks + (b.blocks + c.blocks);
      assert a.links + b.links + c.links == a.links + (b.links + c.links);
    }
  }

  lemma ThenNothing(a: Lexed)
    ensures Then(a, Lexed([], [])) == a && Then(Lexed([], []), a) == a
  {
    if a.Lexed? {
      assert a.blocks + [] == a.blocks && a.links + [] == a.links;
    }
  }

  function JoinItems(a: LexedItems, b: LexedItems): LexedItems {
    if a.FailedItems? || b.FailedItems? then FailedItems else LexedItems(a.items + b.items, a.links + b.links)
  }

  lemma JoinItemsAssoc(a: LexedItems, b: LexedItems, c: LexedItems)
    ensures JoinItems(JoinItems(a, b), c) == JoinItems(a, JoinItems(b, c))
  {
    if a.LexedItems? && b.LexedItems? && c.LexedItems? {
      assert a.items + b.items + c.items == a.items + (b.items + c.items);
      assert a.links + b.links + c.links == a.links + (b.links + c.links);
    }
  }

  lemma JoinNothing(a: LexedItems)
    ensures JoinItems(a, LexedItems([], [])) == a && JoinItems(LexedItems([], []), a) == a
  {
    if a.LexedItems? {
      assert a.items + [] == a.items && a.links + [] == a.links;
    }
  }

  lemma {:induction false} FlatItemsConcat(a: seq<ListItem>, b: seq<ListItem>)
    ensures FlatItems(a + b) == FlatItems(a) + FlatItems(b)
    decreases |a|
  {
    hide FlatItem;
    if a == [] {
      assert a + b == b;
    } else {
      assert (a + b)[1..] == a[1..] + b;
      FlatItemsConcat(a[1..], b);
      assert FlatItem(a[0]) + (FlatItems(a[1..]) + FlatItems(b)) == FlatItem(a[0]) + FlatItems(a[1..]) + FlatItems(b);
    }
  }

  function AddLinks(known: map<string, Link>, links: seq<Link>): map<string, Link>
    decreases |links|
  {
    if links == [] then known else AddLinks(known[links[0].key := links[0]], links[1..])
  }

  lemma {:induction false} AddLinksConcat(known: map<string, Link>, a: seq<Link>, b: seq<Link>)
    ensures AddLinks(known, a + b) == AddLinks(AddLinks(known, a), b)
    decreases |a|
  {
    if a == [] {
      assert a + b == b;
    } else {
      assert (a + b)[1..] == a[1..] + b;
      AddLinksConcat(known[a[0].key := a[0]], a[1..], b);
    }
  }

  // ---------- The trees are proper ----------

  /** The leaves are leaf tokens, and no list is empty. */
  ghost predicate ProperLexed(x: Lexed) { x.Lexed? ==> Proper(x.blocks) && Filled(x.blocks) }

  lemma ThenProper(a: Lexed, b: Lexed)
    requires ProperLexed(a) && ProperLexed(b)
    ensures ProperLexed(Then(a, b))
  {
    hide Proper, Filled;
    if a.Lexed? && b.Lexed? {
      FlattenConcat(a.blocks, b.blocks);
    }
  }

  lemma OneProper(b: Block)
    requires ProperBlock(b) && FilledBlock(b)
    ensures Proper([b]) && Filled([b])
  {
    hide ProperBlock, FilledBlock;
    assert [b][1..] == [];
  }

  lemma {:induction false} LexProper(r: Rules, smart: bool, src: string, top: bool, bq: bool)
    requires Fit(r)
    ensures ProperLexed(Lex(r, smart, src, top, bq))
    decreases |src|, 3
  {
    assert FitsAt(r, src);
    LoopProper(r, smart, r.blank(src), top, bq);
  }

  lemma {:induction false} LoopProper(r: Rules, smart: bool, src: string, top: bool, bq: bool)
    requires Fit(r)
    ensures ProperLexed(LexLoop(r, smart, src, top, bq))
    decreases |src|, 2
  {
    hide LexBlock;
    assert FitsAt(r, src);
    if src != "" {
      var n := r.newline(src);
      LexBlockProper(r, smart, src[n..], top, bq);
      OneProper(Leaf(Space));
      ThenProper(Lexed(if n > 1 then [Leaf(Space)] else [], []), LexBlock(r, smart, src[n..], top, bq));
    }
  }

  lemma {:induction false} LexBlockProper(r: Rules, smart: bool, src: string, top: bool, bq: bool)
    requires Fit(r)
    ensures ProperLexed(LexBlock(r, smart, src, top, bq))
    decreases |src|, 1
  {
    hide LexLoop, Lex, LexItems, Proper, Filled;
    NoBlocksProper();
    assert FitsAt(r, src);
    if EarlyLeaf(r, src, top).Some? {
      var m := EarlyLeaf(r, src, top).value;
      OneProper(Leaf(m.token));
      LoopProper(r, smart, src[m.length..], top, bq);
      ThenProper(Single(Leaf(m.token)), LexLoop(r, smart, src[m.length..], top, bq));
    } else if r.blockquote(src).Some? {
      var m := r.blockquote(src).value;
      var body := Lex(r, smart, m.inner, top, true);
      LexProper(r, smart, m.inner, top, true);
      LoopProper(r, smart, src[m.length..], top, bq);
      if body.Lexed? {
        OneProper(Quote(body.blocks));
      }
      ThenProper(if body.Failed? then Failed else Lexed([Quote(body.blocks)], body.links),
                 LexLoop(r, smart, src[m.length..], top, bq));
    } else if r.list(src).Some? {
      var m := r.list(src).value;
      var kept := Kept(m.items, 0, m.bullet, smart);
      RestShorter(m, kept, src);
      var items := LexItems(r, smart, m.items[..kept], m.length, false, bq);
      ItemsProper(r, smart, m.items[..kept], m.length, false, bq);
      LoopProper(r, smart, RestAfter(src, m, kept), top, bq);
      if items.LexedItems? {
        OneProper(List(|m.bullet| > 1, items.items));
      }
      ThenProper(if items.FailedItems? then Failed else Lexed([List(|m.bullet| > 1, items.items)], items.links),
                 LexLoop(r, smart, RestAfter(src, m, kept), top, bq));
    } else if r.html(src).Some? {
      OneProper(Leaf(r.html(src).value.token));
      LoopProper(r, smart, src[r.html(src).value.length..], top, bq);
      ThenProper(Single(Leaf(r.html(src).value.token)), LexLoop(r, smart, src[r.html(src).value.length..], top, bq));
    } else if !bq && top && r.def(src).Some? {
      LoopProper(r, smart, src[r.def(src).value.length..], top, bq);
      ThenProper(Lexed([], [r.def(src).value.link]), LexLoop(r, smart, src[r.def(src).value.length..], top, bq));
    } else if LateLeaf(r, src, top).Some? {
      var m := LateLeaf(r, src, top).value;
      OneProper(Leaf(m.token));
      LoopProper(r, smart, src[m.length..], top, bq);
      ThenProper(Single(Leaf(m.token)), LexLoop(r, smart, src[m.length..], top, bq));
    }
  }

  lemma NoBlocksProper()
    ensures Proper([]) && Filled([])
  {
  }

  lemma {:induction false} ItemsProper(r: Rules, smart: bool, items: seq<ItemMatch>, length: nat, next: bool, bq: bool)
    requires Fit(r) && forall i :: 0 <= i < |items| ==> |items[i].inner| < length
    ensures var x := LexItems(r, smart, items, length, next, bq);
      x.LexedItems? ==> |x.items| == |items| && ProperItems(x.items) && FilledItems(x.items)
    decreases length, 0, |items|
  {
    hide Lex, Proper, Filled;
    if items != [] {
      LexProper(r, smart, items[0].inner, false, bq);
      ItemsProper(r, smart, items[1..], length, EndsLine(items[0].inner), bq);
    }
  }

  /** Whatever the source, if lexing succeeds its tokens are well nested. */
  lemma LexedNested(r: Rules, smart: bool, src: string, top: bool, bq: bool)
    requires Fit(r) && Lex(r, smart, src, top, bq).Lexed?
    ensures Nesting(Flatten(Lex(r, smart, src, top, bq).blocks), []) == Some([])
  {
    hide Lex;
    LexProper(r, smart, src, top, bq);
    FlattenNested(Lex(r, smart, src, top, bq).blocks, []);
  }

  // ---------- The lexer never gives up ----------

  /** `newline` takes every leading line break, and `text` anything else. */
  predicate CoversAt(r: Rules, src: string)
    requires r.newline(src) <= |src|
  {
    && (src != "" && src[0] != '\n' ==> r.newline(src) == 0 && r.text(src).Some?)
    && (src[r.newline(src)..] != "" ==> src[r.newline(src)] != '\n')
  }

  ghost predicate Covers(r: Rules)
    requires Fit(r)
  {
    forall src: string :: FitsAt(r, src) && CoversAt(r, src)
  }

  /** With rules that cover every source the "Infinite loop" error is never thrown. */
  lemma {:induction false} LexSucceeds(r: Rules, smart: bool, src: string, top: bool, bq: bool)
    requires Fit(r) && Covers(r)
    ensures Lex(r, smart, src, top, bq).Lexed?
    decreases |src|, 3
  {
    assert FitsAt(r, src) && CoversAt(r, src);
    LoopSucceeds(r, smart, r.blank(src), top, bq);
  }

  lemma {:induction false} LoopSucceeds(r: Rules, smart: bool, src: string, top: bool, bq: bool)
    requires Fit(r) && Covers(r)
    ensures LexLoop(r, smart, src, top, bq).Lexed?
    decreases |src|, 2
  {
    hide LexBlock;
    assert FitsAt(r, src) && CoversAt(r, src);
    if src != "" {
      BlockSucceeds(r, smart, src[r.newline(src)..], top, bq);
    }
  }

  lemma {:induction false} BlockSucceeds(r: Rules, smart: bool, src: string, top: bool, bq: bool)
    requires Fit(r) && Covers(r) && (src != "" ==> src[0] != '\n')
    ensures LexBlock(r, smart, src, top, bq).Lexed?
    decreases |src|, 1
  {
    hide LexLoop, Lex, LexItems;
    assert FitsAt(r, src) && CoversAt(r, src);
    if EarlyLeaf(r, src, top).Some? {
      LoopSucceeds(r, smart, src[EarlyLeaf(r, src, top).value.length..], top, bq);
    } else if r.blockquote(src).Some? {
      LexSucceeds(r, smart, r.blockquote(src).value.inner, top, true);
      LoopSucceeds(r, smart, src[r.blockquote(src).value.length..], top, bq);
    } else if r.list(src).Some? {
      var m := r.list(src).value;
      var kept := Kept(m.items, 0, m.bullet, smart);
      RestShorter(m, kept, src);
      ItemsSucceed(r, smart, m.items[..kept], m.length, false, bq);
      LoopSucceeds(r, smart, RestAfter(src, m, kept), top, bq);
    } else if r.html(src).Some? {
      LoopSucceeds(r, smart, src[r.html(src).value.length..], top, bq);
    } else if !bq && top && r.def(src).Some? {
      LoopSucceeds(r, smart, src[r.def(src).value.length..], top, bq);
    } else if LateLeaf(r, src, top).Some? {
      LoopSucceeds(r, smart, src[LateLeaf(r, src, top).value.length..], top, bq);
    }
  }

  lemma {:induction false} ItemsSucceed(r: Rules, smart: bool, items: seq<ItemMatch>, length: nat, next: bool, bq: bool)
    requires Fit(r) && Covers(r) && forall i :: 0 <= i < |items| ==> |items[i].inner| < length
    ensures LexItems(r, smart, items, length, next, bq).LexedItems?
    decreases length, 0, |items|
  {
    hide Lex;
    if items != [] {
      LexSucceeds(r, smart, items[0].inner, false, bq);
      ItemsSucceed(r, smart, items[1..], length, EndsLine(items[0].inner), bq);
    }
  }

  // ---------- Steps of the lexer ----------

  lemma NothingDone(tokens: seq<Token>, links: map<string, Link>, x: Lexed)
    ensures tokens + Flatten([]) == tokens && AddLinks(links, []) == links && Then(Lexed([], []), x) == x
  {
    ThenNothing(x);
    assert tokens + [] == tokens;
  }

  lemma LoopStep(r: Rules, smart: bool, src: string, top: bool, bq: bool)
    requires Fit(r) && src != ""
    ensures var n := r.newline(src);
            n <= |src| &&
            LexLoop(r, smart, src, top, bq) == Then(Lexed(if n > 1 then [Leaf(Space)] else [], []),
                                                    LexBlock(r, smart, src[n..], top, bq))
  {
    hide LexBlock;
    assert FitsAt(r, src);
  }

  /** LexBlock, branch by branch. */
  lemma BlockStep(r: Rules, smart: bool, src: string, top: bool, bq: bool)
    requires Fit(r)
    ensures FitsAt(r, src)
    ensures var x := LexBlock(r, smart, src, top, bq);
            var early, late := EarlyLeaf(r, src, top), LateLeaf(r, src, top);
            if early.Some? then x == Then(Single(Leaf(early.value.token)),
                                          LexLoop(r, smart, src[early.value.length..], top, bq))
            else if r.blockquote(src).Some? then
              var body := Lex(r, smart, r.blockquote(src).value.inner, top, true);
              x == Then(if body.Failed? then Failed else Lexed([Quote(body.blocks)], body.links),
                        LexLoop(r, smart, src[r.blockquote(src).value.length..], top, bq))
            else if r.list(src).Some? then
              var m := r.list(src).value;
              var kept := Kept(m.items, 0, m.bullet, smart);
              |RestAfter(src, m, kept)| < |src| && (forall i :: 0 <= i < kept ==>
                                                    |m.items[..kept][i].inner| < m.length) &&
              var items := LexItems(r, smart, m.items[..kept], m.length, false, bq);
              x == Then(if items.FailedItems? then Failed else Lexed([List(|m.bullet| > 1, items.items)], items.links),
                        LexLoop(r, smart, RestAfter(src, m, kept), top, bq))
            else if r.html(src).Some? then
              x == Then(Single(Leaf(r.html(src).value.token)),
                        LexLoop(r, smart, src[r.html(src).value.length..], top, bq))
            else if !bq && top && r.def(src).Some? then
              x == Then(Lexed([], [r.def(src).value.link]), LexLoop(r, smart, src[r.def(src).value.length..], top, bq))
            else if late.Some? then x == Then(Single(Leaf(late.value.token)),
                                              LexLoop(r, smart, src[late.value.length..], top, bq))
            else x == if src == "" then Lexed([], []) else Failed
  {
    hide LexLoop, Lex, LexItems, Kept, ItemsFit, RestAfter, EarlyLeaf, LateLeaf;
    assert FitsAt(r, src);
    LeavesFit(r, src, top);
    if EarlyLeaf(r, src, top).None? && r.blockquote(src).None? && r.list(src).Some? {
      var m := r.list(src).value;
      ItemsExist(m);
      RestShorter(m, Kept(m.items, 0, m.bullet, smart), src);
    }
  }

  lemma ItemsExist(m: ListMatch)
    requires ItemsFit(m.items, m.length)
    ensures m.items != []
  {
  }

  lemma LeavesFit(r: Rules, src: string, top: bool)
    requires FitsAt(r, src)
    ensures LeafFits(EarlyLeaf(r, src, top), src) && LeafFits(LateLeaf(r, src, top), src)
  {
  }

  lemma LexIsLoop(r: Rules, smart: bool, src: string, top: bool, bq: bool)
    requires Fit(r)
    ensures |r.blank(src)| <= |src| && Lex(r, smart, src, top, bq) == LexLoop(r, smart, r.blank(src), top, bq)
  {
    hide LexLoop;
    assert FitsAt(r, src);
  }

  lemma ThenFailed(done: Lexed, blank: Lexed, b: Lexed)
    requires b.Failed?
    ensures Then(done, Then(blank, b)).Failed?
  {
  }

  lemma LoopEnd(r: Rules, smart: bool, top: bool, bq: bool)
    requires Fit(r)
    ensures LexLoop(r, smart, "", top, bq) == Lexed([], []) && Then(Lexed([], []), Lexed([], [])) == Lexed([], [])
  {
  }

  /** Tokens and links so far, after one more piece. */
  lemma Grown(tokens: seq<Token>, links: map<string, Link>, done: Lexed, b: Lexed)
    requires done.Lexed? && b.Lexed?
    ensures Then(done, b).Lexed?
    ensures tokens + Flatten(done.blocks) + Flatten(b.blocks) == tokens + Flatten(Then(done, b).blocks)
    ensures AddLinks(AddLinks(links, done.links), b.links) == AddLinks(links, Then(done, b).links)
  {
    hide Flatten, AddLinks;
    FlattenConcat(done.blocks, b.blocks);
    AddLinksConcat(links, done.links, b.links);
    assert tokens + Flatten(done.blocks) + Flatten(b.blocks) == tokens + (Flatten(done.blocks) + Flatten(b.blocks));
  }

  lemma FlattenOne(b: Block)
    ensures Flatten([b]) == FlatBlock(b)
  {
    hide FlatBlock;
    assert [b][1..] == [];
    assert Flatten([b][1..]) == [];
  }

  lemma LeafAdded(t: Token, links: map<string, Link>)
    ensures Flatten([Leaf(t)]) == [t] && Flatten([]) == [] && AddLinks(links, []) == links
  {
    FlattenOne(Leaf(t));
  }

  lemma LinkAdded(links: map<string, Link>, l: Link)
    ensures AddLinks(links, [l]) == links[l.key := l] && Flatten([]) == []
  {
    assert [l][1..] == [];
  }

  lemma NoItems(links: map<string, Link>)
    ensures FlatItems([]) == [] && AddLinks(links, []) == links
  {
  }

  lemma OneItem(item: ListItem)
    ensures FlatItems([item]) == FlatItem(item)
  {
    hide FlatItem;
    assert [item][1..] == [];
    assert FlatItems([item][1..]) == [];
  }

  lemma ItemStep(r: Rules, smart: bool, items: seq<ItemMatch>, k: nat, length: nat, next: bool, bq: bool)
    requires Fit(r) && k < |items| && forall i :: 0 <= i < |items| ==> |items[i].inner| < length
    ensures var inner := items[k].inner;
            var loose := next || r.gap(inner) || (k + 1 != |items| && EndsLine(inner));
            var body := Lex(r, smart, inner, false, bq);
            LexItems(r, smart, items[k..], length, next, bq) ==
            JoinItems(if body.Failed? then FailedItems else LexedItems([ListItem(loose, body.blocks)], body.links),
                      LexItems(r, smart, items[k + 1..], length, EndsLine(inner), bq))
  {
    hide Lex;
    assert items[k..][1..] == items[k + 1..];
  }

  lemma NoMoreItems(r: Rules, smart: bool, length: nat, next: bool, bq: bool)
    requires Fit(r)
    ensures LexItems(r, smart, [], length, next, bq) == LexedItems([], [])
  {
  }

  // ---------- The lexer ----------

  class Lexer {
    const rules: Rules
    const smartLists: bool
    var tokens: seq<Token>
    var links: map<string, Link>

    constructor (rules: Rules, smartLists: bool)
      ensures this.rules == rules && this.smartLists == smartLists && tokens == [] && links == map[]
    {
      this.rules, this.smartLists := rules, smartLists;
      tokens, links := [], map[];
    }

    method Push(t: Token)
      modifies `tokens
      ensures tokens == old(tokens) + [t]
    {
      tokens := tokens + [t];
    }

    /** `token`: the loop over one source; not ok is the thrown "Infinite loop". */
    method Tokenize(source: string, top: bool, bq: bool) returns (ok: bool)
      requires Fit(rules)
      modifies this
      ensures ok <==> Lex(rules, smartLists, source, top, bq).Lexed?
      ensures ok ==> var x := Lex(rules, smartLists, source, top, bq);
                     tokens == old(tokens) + Flatten(x.blocks) && links == AddLinks(old(links), x.links)
      decreases |source|, 3
    {
      hide Fit, Lex, LexLoop, LexBlock, Flatten, AddLinks, Then;
      LexIsLoop(rules, smartLists, source, top, bq);
      var src := rules.blank(source);
      ghost var all := LexLoop(rules, smartLists, src, top, bq);
      ghost var done := Lexed([], []);
      NothingDone(tokens, links, all);
      while src != ""
        invariant |src| <= |source|
        invariant done.Lexed? && all == Then(done, LexLoop(rules, smartLists, src, top, bq))
        invariant tokens == old(tokens) + Flatten(done.blocks) && links == AddLinks(old(links), done.links)
        decreases |src|
      {
        var n := rules.newline(src);
        ghost var blank := Lexed(if n > 1 then [Leaf(Space)] else [], []);
        LoopStep(rules, smartLists, src, top, bq);
        src := src[n..];
        ghost var here := LexBlock(rules, smartLists, src, top, bq);
        if n > 1 {
          Push(Space);
        }
        LeafAdded(Space, links);
        LeafAdded(Space, AddLinks(old(links), done.links));
        Grown(old(tokens), old(links), done, blank);
        ThenAssoc(done, blank, here);
        ghost var more := Then(done, blank);
        ghost var b;
        ok, src, b := Block(src, top, bq);
        if !ok {
          ThenFailed(done, blank, here);
          return;
        }
        Grown(old(tokens), old(links), more, b);
        ThenAssoc(more, b, LexLoop(rules, smartLists, src, top, bq));
        done := Then(more, b);
      }
      LoopEnd(rules, smartLists, top, bq);
      ThenNothing(done);
      ok := true;
    }

    method LeafBlock(t: Token) returns (ghost b: Lexed)
      modifies `tokens
      ensures b == Single(Leaf(t)) && tokens == old(tokens) + Flatten(b.blocks) && links == AddLinks(links, b.links)
    {
      hide Flatten, AddLinks;
      Push(t);
      b := Single(Leaf(t));
      LeafAdded(t, links);
    }

    method QuoteBlock(m: QuoteMatch, top: bool) returns (ok: bool, ghost b: Lexed)
      requires Fit(rules)
      modifies this
      ensures var body := Lex(rules, smartLists, m.inner, top, true);
              (ok <==> body.Lexed?) && (ok ==> b == Lexed([Quote(body.blocks)], body.links))
      ensures ok ==> tokens == old(tokens) + Flatten(b.blocks) && links == AddLinks(old(links), b.links)
      decreases |m.inner|, 4
    {
      hide Lex, Flatten, AddLinks;
      Push(BlockquoteStart);
      ok := Tokenize(m.inner, top, true);
      b := Lexed([], []);
      if ok {
        Push(BlockquoteEnd);
        ghost var body := Lex(rules, smartLists, m.inner, top, true);
        b := Lexed([Quote(body.blocks)], body.links);
        FlattenOne(Quote(body.blocks));
        assert tokens == old(tokens) + ([BlockquoteStart] + Flatten(body.blocks) + [BlockquoteEnd]);
      }
    }

    method DefBlock(l: Link) returns (ghost b: Lexed)
      modifies `links
      ensures b == Lexed([], [l]) && tokens == tokens + Flatten(b.blocks) && links == AddLinks(old(links), b.links)
    {
      hide Flatten, AddLinks;
      links := links[l.key := l];
      b := Lexed([], [l]);
      LinkAdded(old(links), l);
      assert tokens + [] == tokens;
    }

    /** The rules after `newline`, in order; a block is found, or the source was used up by the newlines. */
    method Block(src: string, top: bool, bq: bool) returns (ok: bool, rest: string, ghost b: Lexed)
      requires Fit(rules)
      modifies this
      ensures ok ==> |rest| <= |src| && (src != "" ==> |rest| < |src|)
      ensures !ok ==> LexBlock(rules, smartLists, src, top, bq).Failed?
      ensures ok ==>
              b.Lexed? && LexBlock(rules, smartLists, src, top, bq) ==
              Then(b, LexLoop(rules, smartLists, rest, top, bq))
      ensures ok ==> tokens == old(tokens) + Flatten(b.blocks) && links == AddLinks(old(links), b.links)
      decreases |src|, 1
    {
      BlockStep(rules, smartLists, src, top, bq);
      LeavesFit(rules, src, top);
      hide Fit, LexBlock, LexLoop, Lex, LexItems, Flatten, AddLinks, EarlyLeaf, LateLeaf, Kept, ItemsFit, RestAfter,
           IsLeaf;
      ok, rest := true, src;
      var early := EarlyLeaf(rules, src, top);
      var late := LateLeaf(rules, src, top);
      if early.Some? {
        rest := src[early.value.length..];
        b := LeafBlock(early.value.token);
      } else if rules.blockquote(src).Some? {
        rest := src[rules.blockquote(src).value.length..];
        ok, b := QuoteBlock(rules.blockquote(src).value, top);
      } else if rules.list(src).Some? {
        ok, rest, b := ListBlock(src, rules.list(src).value, bq);
      } else if rules.html(src).Some? {
        rest := src[rules.html(src).value.length..];
        b := LeafBlock(rules.html(src).value.token);
      } else if !bq && top && rules.def(src).Some? {
        rest := src[rules.def(src).value.length..];
        b := DefBlock(rules.def(src).value.link);
      } else if late.Some? {
        rest := src[late.value.length..];
        b := LeafBlock(late.value.token);
      } else {
        b := Lexed([], []);
        ok := src == "";
        NothingDone(tokens, links, b);
        LoopEnd(rules, smartLists, top, bq);
      }
    }

    method Item(item: string, loose: bool, bq: bool) returns (ok: bool)
      requires Fit(rules)
      modifies this
      ensures var body := Lex(rules, smartLists, item, false, bq);
              (ok <==> body.Lexed?) &&
              (ok ==>
               tokens == old(tokens) + FlatItem(ListItem(loose, body.blocks)) &&
               links == AddLinks(old(links), body.links))
      decreases |item|, 4
    {
      hide Lex, Flatten, AddLinks;
      Push(if loose then LooseItemStart else ListItemStart);
      ok := Tokenize(item, false, bq);
      if ok {
        Push(ListItemEnd);
        ghost var body := Lex(rules, smartLists, item, false, bq);
        assert tokens == old(tokens) + ([if loose then LooseItemStart else ListItemStart] + Flatten(body.blocks) +
                                        [ListItemEnd]);
      }
    }

    /** The items of a list, with the backpedal of smartLists. */
    method ListBlock(src: string, m: ListMatch, bq: bool) returns (ok: bool, rest: string, ghost b: Lexed)
      requires Fit(rules) && Consumes(m.length, src) && ItemsFit(m.items, m.length)
      modifies this
      ensures var kept := Kept(m.items, 0, m.bullet, smartLists);
              (forall i :: 0 <= i < kept ==> |m.items[..kept][i].inner| < m.length) &&
              var items := LexItems(rules, smartLists, m.items[..kept], m.length, false, bq);
              (ok <==> items.LexedItems?) &&
              (ok ==> rest == RestAfter(src, m, kept) && |rest| < |src| &&
                      b == Lexed([List(|m.bullet| > 1, items.items)], items.links) &&
                      tokens == old(tokens) + Flatten(b.blocks) && links == AddLinks(old(links), b.links))
      decreases |src|, 0
    {
      ghost var kept := Kept(m.items, 0, m.bullet, smartLists);
      RestShorter(m, kept, src);
      hide Lex, LexItems, Flatten, FlatItems, AddLinks, JoinItems, ItemsFit, FlatItem, Kept, ItemsLeft, ItemsDone,
           EndsLine, PutBack, RestAfter, Belongs, Fit, Consumes, FlatBlock;
      ghost var all := LexItems(rules, smartLists, m.items[..kept], m.length, false, bq);
      b := Lexed([], []);
      rest := src[m.length..];
      var start := ListStart(|m.bullet| > 1);
      Push(start);
      var i: nat, next := 0, false;
      ghost var done := LexedItems([], []);
      ItemsBegun(old(tokens), old(links), start, all);
      LeftAtFirst(rules, smartLists, src, m, kept, all, bq);
      while i < |m.items|
        invariant i <= |m.items|
        invariant ItemsLeft(rules, smartLists, src, m, kept, all, i, next, rest, done, bq)
        invariant ItemsDone(old(tokens), old(links), start, tokens, links, done)
      {
        var item := m.items[i].inner;
        ghost var i0, next0, rest0 := i, next, rest;
        ItemShorter(m, i);
        if smartLists && i != |m.items| - 1 && !Belongs(m.bullet, m.items[i + 1].bullet) {
          rest := PutBack(m.items[i + 1..]) + rest;
          i := |m.items| - 1;
        }
        var loose := next || rules.gap(item);
        if i != |m.items| - 1 {
          next := EndsLine(item);
          if !loose {
            loose := next;
          }
        }
        ghost var was, known := tokens, links;
        ok := Item(item, loose, bq);
        ghost var body := Lex(rules, smartLists, item, false, bq);
        LeftAtNext(rules, smartLists, src, m, kept, all, i0, next0, rest0, done, bq);
        if !ok {
          return;
        }
        ItemAdded(old(tokens), old(links), start, was, known, done, ListItem(loose, body.blocks), body.links);
        done := JoinItems(done, LexedItems([ListItem(loose, body.blocks)], body.links));
        i := i + 1;
      }
      Push(ListEnd);
      LeftAtEnd(rules, smartLists, src, m, kept, all, next, rest, done, bq);
      b := Lexed([List(|m.bullet| > 1, all.items)], all.links);
      FlattenOne(List(|m.bullet| > 1, all.items));
      ListFlat(old(tokens), old(links), start, tokens, links, done);
      ok := true;
    }
  }

  lemma ItemShorter(m: ListMatch, i: nat)
    requires ItemsFit(m.items, m.length) && i < |m.items|
    ensures |m.items[i].inner| < m.length
  {
  }

  lemma ListFlat(before: seq<Token>, known: map<string, Link>, start: Token, tokens: seq<Token>, links: map<string,
                 Link>, done: LexedItems)
    requires tokens != [] && tokens[|tokens| - 1] == ListEnd &&
             ItemsDone(before, known, start, tokens[..|tokens| - 1], links, done)
    requires start.ListStart?
    ensures tokens == before + FlatBlock(List(start.ordered, done.items)) && links == AddLinks(known, done.links)
  {
    hide FlatItems, AddLinks;
    assert tokens == before + ([start] + FlatItems(done.items) + [ListEnd]);
  }

  /** What remains of a list at the i-th item: after a backpedal, or at the end, nothing does. */
  ghost predicate ItemsLeft(r: Rules, smart: bool, src: string, m: ListMatch, kept: nat, all: LexedItems,
                            i: nat, next: bool, rest: string, done: LexedItems, bq: bool)
    requires Fit(r) && kept <= |m.items| && m.length <= |src| && forall j :: 0 <= j < kept ==>
             |m.items[..kept][j].inner| < m.length
  {
    && i <= |m.items|
    && (i < |m.items| ==> i < kept && Kept(m.items, i, m.bullet, smart) == kept && rest == src[m.length..] &&
                          all == JoinItems(done, LexItems(r, smart, m.items[..kept][i..], m.length, next, bq)))
    && (i == |m.items| ==> rest == RestAfter(src, m, kept) && all == done)
  }

  lemma LeftAtFirst(r: Rules, smart: bool, src: string, m: ListMatch, kept: nat, all: LexedItems, bq: bool)
    requires Fit(r) && Consumes(m.length, src) && ItemsFit(m.items, m.length) &&
             kept == Kept(m.items, 0, m.bullet, smart)
    requires forall j :: 0 <= j < kept ==> |m.items[..kept][j].inner| < m.length
    requires all == LexItems(r, smart, m.items[..kept], m.length, false, bq)
    ensures ItemsLeft(r, smart, src, m, kept, all, 0, false, src[m.length..], LexedItems([], []), bq)
  {
    hide LexItems, Kept;
    JoinNothing(all);
    assert m.items[..kept][0..] == m.items[..kept];
  }

  lemma LeftAtNext(r: Rules, smart: bool, src: string, m: ListMatch, kept: nat, all: LexedItems,
                   i: nat, next: bool, rest: string, done: LexedItems, bq: bool)
    requires Fit(r) && Consumes(m.length, src) && ItemsFit(m.items, m.length) && i < |m.items| && kept <= |m.items|
    requires forall j :: 0 <= j < kept ==> |m.items[..kept][j].inner| < m.length
    requires ItemsLeft(r, smart, src, m, kept, all, i, next, rest, done, bq) && done.LexedItems?
    ensures var item := m.items[i].inner;
            var ends := smart && i != |m.items| - 1 && !Belongs(m.bullet, m.items[i + 1].bullet);
            var last := ends || i == |m.items| - 1;
            var loose := next || r.gap(item) || (!last && EndsLine(item));
            var body := Lex(r, smart, item, false, bq);
            if body.Failed? then all.FailedItems?
            else var done' := JoinItems(done, LexedItems([ListItem(loose, body.blocks)], body.links));
                 done'.LexedItems? &&
                 ItemsLeft(r, smart, src, m, kept, all, if last then |m.items| else i + 1, if last then next
                           else EndsLine(item),
                           if ends then PutBack(m.items[i + 1..]) + rest else rest, done', bq)
  {
    hide Lex, EndsLine, Belongs, PutBack, LexItems;
    KeptStep(src, m, i, smart);
    ItemStep(r, smart, m.items[..kept], i, m.length, next, bq);
    var item := m.items[i].inner;
    var ends := smart && i != |m.items| - 1 && !Belongs(m.bullet, m.items[i + 1].bullet);
    var last := ends || i == |m.items| - 1;
    var loose := next || r.gap(item) || (!last && EndsLine(item));
    var body := Lex(r, smart, item, false, bq);
    var more := LexItems(r, smart, m.items[..kept][i + 1..], m.length, EndsLine(item), bq);
    if body.Lexed? {
      var one := LexedItems([ListItem(loose, body.blocks)], body.links);
      JoinItemsAssoc(done, one, more);
      if last {
        assert m.items[..kept][kept..] == [];
        NoMoreItems(r, smart, m.length, EndsLine(item), bq);
        JoinNothing(JoinItems(done, one));
      }
    }
  }

  lemma LeftAtEnd(r: Rules, smart: bool, src: string, m: ListMatch, kept: nat, all: LexedItems, next: bool,
                  rest: string, done: LexedItems, bq: bool)
    requires Fit(r) && kept <= |m.items| && m.length <= |src| && forall j :: 0 <= j < kept ==>
             |m.items[..kept][j].inner| < m.length
    requires ItemsLeft(r, smart, src, m, kept, all, |m.items|, next, rest, done, bq)
    ensures rest == RestAfter(src, m, kept) && all == done
  {
  }

  /** The tokens and links while the items of a list are added. */
  ghost predicate ItemsDone(before: seq<Token>, known: map<string, Link>, start: Token, tokens: seq<Token>,
                            links: map<string, Link>,
                            done: LexedItems) {
    done.LexedItems? && tokens == before + [start] + FlatItems(done.items) && links == AddLinks(known, done.links)
  }

  lemma ItemsBegun(before: seq<Token>, known: map<string, Link>, start: Token, all: LexedItems)
    ensures ItemsDone(before, known, start, before + [start], known, LexedItems([], [])) &&
            JoinItems(LexedItems([], []), all) == all
  {
    JoinNothing(all);
    NoItems(known);
    assert before + [start] + [] == before + [start];
  }

  lemma ItemAdded(before: seq<Token>, known: map<string, Link>, start: Token, tokens: seq<Token>, links: map<string,
                  Link>,
                  done: LexedItems, item: ListItem, more: seq<Link>)
    requires ItemsDone(before, known, start, tokens, links, done)
    ensures ItemsDone(before, known, start, tokens + FlatItem(item), AddLinks(links, more),
                      JoinItems(done, LexedItems([item], more)))
  {
    hide FlatItem, FlatItems, AddLinks;
    OneItem(item);
    FlatItemsConcat(done.items, [item]);
    AddLinksConcat(known, done.links, more);
    assert before + [start] + FlatItems(done.items) + FlatItem(item) ==
           before + [start] + (FlatItems(done.items) + FlatItem(item));
  }

  /** At the i-th item the list goes on, or ends with the others put back. */
  lemma KeptStep(src: string, m: ListMatch, i: nat, smart: bool)
    requires i < |m.items| && Consumes(m.length, src) && ItemsFit(m.items, m.length)
    ensures var kept := Kept(m.items, i, m.bullet, smart);
            var ends := smart && i != |m.items| - 1 && !Belongs(m.bullet, m.items[i + 1].bullet);
            (ends ==> kept == i + 1 && RestAfter(src, m, kept) == PutBack(m.items[i + 1..]) + src[m.length..]) &&
            (!ends && i == |m.items| - 1 ==> kept == i + 1 && RestAfter(src, m, kept) == src[m.length..]) &&
            (!ends && i < |m.items| - 1 ==> kept == Kept(m.items, i + 1, m.bullet, smart) && kept > i + 1)
  {
    if i == |m.items| - 1 {
      assert m.items[i + 1..] == [];
      assert "" + src[m.length..] == src[m.length..];
    }
  }
}
