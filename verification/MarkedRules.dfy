/** Which of marked's block rules a source is taken by, and what that makes of it. */
module MarkedRules {
  import opened Wrappers
  import opened Strings
  import opened MarkedBlocks
  import opened MarkedLexer

  datatype Rule =
    | CodeRule | FencesRule | HeadingRule | NpTableRule | LHeadingRule | HrRule | BlockquoteRule | ListRule | HtmlRule
    | DefRule | TableRule | ParagraphRule | TextRule

  /** The rules in the order of precedence. */
  const ORDER: seq<Rule> :=
    [CodeRule, FencesRule, HeadingRule, NpTableRule, LHeadingRule, HrRule, BlockquoteRule, ListRule, HtmlRule,
     DefRule, TableRule, ParagraphRule, TextRule]

  /** What a rule that makes one token finds. */
  function LeafOf(rule: Rule, r: Rules, src: string): Option<LeafMatch> {
    match rule
    case CodeRule => r.code(src)
    case FencesRule => r.fences(src)
    case HeadingRule => r.heading(src)
    case NpTableRule => r.nptable(src)
    case LHeadingRule => r.lheading(src)
    case HrRule => r.hr(src)
    case HtmlRule => r.html(src)
    case TableRule => r.table(src)
    case ParagraphRule => r.paragraph(src)
    case TextRule => r.text(src)
    case _ => None
  }

  /** Tables and paragraphs are looked for at top level only, definitions not in a blockquote either. */
  predicate Applies(rule: Rule, r: Rules, src: string, top: bool, bq: bool) {
    match rule
    case BlockquoteRule => r.blockquote(src).Some?
    case ListRule => r.list(src).Some?
    case DefRule => r.def(src).Some? && top && !bq
    case _ => LeafOf(rule, r, src).Some? && (rule in {NpTableRule, TableRule, ParagraphRule} ==> top)
  }

  predicate IsFirst(i: nat, r: Rules, src: string, top: bool, bq: bool) {
    i < |ORDER| && Applies(ORDER[i], r, src, top, bq) && forall j :: 0 <= j < i ==> !Applies(ORDER[j], r, src, top, bq)
  }

  /** The block or the link definition a rule makes, with what it leaves of the source. */
  ghost predicate Makes(rule: Rule, r: Rules, smart: bool, src: string, top: bool, bq: bool, piece: Lexed, left: string)
    requires Fit(r) && Applies(rule, r, src, top, bq)
  {
    assert FitsAt(r, src);
    match rule
    case BlockquoteRule =>
      var m := r.blockquote(src).value;
      var body := Lex(r, smart, m.inner, top, true);
      piece == (if body.Failed? then Failed else Lexed([Quote(body.blocks)], body.links)) && left == src[m.length..]
    case ListRule =>
      var m := r.list(src).value;
      exists kept: nat :: HasKept(m, smart, kept) && MakesList(r, smart, src, bq, kept, piece, left)
    case DefRule =>
      piece == Lexed([], [r.def(src).value.link]) && left == src[r.def(src).value.length..]
    case _ =>
      var m := LeafOf(rule, r, src).value;
      piece == Lexed([Leaf(m.token)], []) && left == src[m.length..]
  }

  /** With smartLists a list ends before the first bullet that is neither the list's own nor, like it, a number. */
  predicate HasKept(m: ListMatch, smart: bool, kept: nat) {
    && 0 < kept <= |m.items|
    && (forall i :: 0 < i < kept && smart ==>
          m.items[i].bullet == m.bullet || (|m.bullet| > 1 && |m.items[i].bullet| > 1))
    && (kept < |m.items| ==>
        smart && m.items[kept].bullet != m.bullet && !(|m.bullet| > 1 && |m.items[kept].bullet| > 1))
  }

  /** The items behind it go back in front of the source, one per line. */
  function Raws(items: seq<ItemMatch>): (s: seq<string>)
    ensures |s| == |items| && forall i :: 0 <= i < |s| ==> s[i] == items[i].raw
  {
    seq(|items|, i requires 0 <= i < |items| => items[i].raw)
  }

  ghost predicate MakesList(r: Rules, smart: bool, src: string, bq: bool, kept: nat, piece: Lexed, left: string)
    requires Fit(r) && r.list(src).Some? && kept <= |r.list(src).value.items|
  {
    assert FitsAt(r, src);
    var m := r.list(src).value;
    var items := m.items[..kept];
    && left == Join(Raws(m.items[kept..]), "\n") + src[m.length..]
    && (piece.Failed? <==> exists k :: 0 <= k < kept && Lex(r, smart, items[k].inner, false, bq).Failed?)
    && (piece.Lexed? ==>
        && |piece.blocks| == 1 && piece.blocks[0].List? && piece.blocks[0].ordered == (|m.bullet| > 1)
        && |piece.blocks[0].items| == kept
        && (forall k :: 0 <= k < kept ==>
              && Lex(r, smart, items[k].inner, false, bq).Lexed?
              && piece.blocks[0].items[k] == ListItem(Loose(r, items, k),
                                                      Lex(r, smart, items[k].inner, false, bq).blocks)))
  }

  /** An item is loose when it has an empty line inside, or when an empty line parts it from the one before or the one
      behind. */
  predicate Loose(r: Rules, items: seq<ItemMatch>, k: nat)
    requires k < |items|
  {
    || r.gap(items[k].inner)
    || (k > 0 && EndsInBreak(items[k - 1].inner))
    || (k + 1 < |items| && EndsInBreak(items[k].inner))
  }

  predicate EndsInBreak(s: string) { exists i :: 0 <= i < |s| && s == s[..i] + "\n" }

  lemma EndsLineIs(s: string)
    ensures EndsLine(s) <==> EndsInBreak(s)
  {
    if EndsLine(s) {
      assert s == s[..|s| - 1] + "\n";
    }
    if i :| 0 <= i < |s| && s == s[..i] + "\n" {
      assert (s[..i] + "\n")[i] == '\n';
    }
  }

  lemma {:induction false} PutBackIsJoin(items: seq<ItemMatch>)
    ensures PutBack(items) == Join(Raws(items), "\n")
  {
    if items != [] {
      PutBackIsJoin(items[1..]);
      assert Raws(items)[1..] == Raws(items[1..]);
      assert |items| == 1 ==> PutBack(items[1..]) == "";
    }
  }

  lemma {:induction false} KeptIs(m: ListMatch, i: nat, smart: bool)
    requires i < |m.items|
    ensures var k := Kept(m.items, i, m.bullet, smart);
      && i < k <= |m.items|
      && (forall j :: i < j < k && smart ==>
            m.items[j].bullet == m.bullet || (|m.bullet| > 1 && |m.items[j].bullet| > 1))
      && (k < |m.items| ==>
          smart && m.items[k].bullet != m.bullet && !(|m.bullet| > 1 && |m.items[k].bullet| > 1))
    decreases |m.items| - i
  {
    if i + 1 < |m.items| && (!smart || Belongs(m.bullet, m.items[i + 1].bullet)) {
      KeptIs(m, i + 1, smart);
    }
  }

  /** What the items of a list become, one by one. */
  ghost predicate ItemsAre(r: Rules, smart: bool, items: seq<ItemMatch>, next: bool, bq: bool, x: LexedItems)
    requires Fit(r)
  {
    && (x.FailedItems? <==> exists k :: 0 <= k < |items| && Lex(r, smart, items[k].inner, false, bq).Failed?)
    && (x.LexedItems? ==>
        && |x.items| == |items|
        && (forall k :: 0 <= k < |items| ==>
              && Lex(r, smart, items[k].inner, false, bq).Lexed?
              && x.items[k] == ListItem(Loose(r, items, k) || (k == 0 && next),
                                        Lex(r, smart, items[k].inner, false, bq).blocks)))
  }

  lemma {:induction false} ItemsLexed(r: Rules, smart: bool, items: seq<ItemMatch>, length: nat, next: bool, bq: bool)
    requires Fit(r) && forall i :: 0 <= i < |items| ==> |items[i].inner| < length
    ensures ItemsAre(r, smart, items, next, bq, LexItems(r, smart, items, length, next, bq))
    decreases |items|
  {
    hide Lex, EndsInBreak, Loose, EndsLine;
    if items != [] {
      var inner := items[0].inner;
      ItemsLexed(r, smart, items[1..], length, EndsLine(inner), bq);
      FirstItem(r, smart, items, length, next, bq);
      var rest := LexItems(r, smart, items[1..], length, EndsLine(inner), bq);
      var body := Lex(r, smart, inner, false, bq);
      hide LexItems;
      EndsLineIs(inner);
      TailFails(r, smart, items, bq);
      if body.Lexed? && rest.LexedItems? {
        ItemsJoined(r, smart, items, next, bq, body, rest);
      }
    }
  }

  lemma FirstItem(r: Rules, smart: bool, items: seq<ItemMatch>, length: nat, next: bool, bq: bool)
    requires Fit(r) && items != [] && forall i :: 0 <= i < |items| ==> |items[i].inner| < length
    ensures var body := Lex(r, smart, items[0].inner, false, bq);
      var rest := LexItems(r, smart, items[1..], length, EndsLine(items[0].inner), bq);
      LexItems(r, smart, items, length, next, bq) ==
      if body.Failed? || rest.FailedItems? then FailedItems
      else LexedItems([ListItem(Loose(r, items, 0) || next, body.blocks)] + rest.items, body.links + rest.links)
  {
    hide Lex, EndsInBreak;
    EndsLineIs(items[0].inner);
  }

  lemma ItemsJoined(r: Rules, smart: bool, items: seq<ItemMatch>, next: bool, bq: bool, body: Lexed, rest: LexedItems)
    requires Fit(r) && items != [] && body == Lex(r, smart, items[0].inner, false, bq) && body.Lexed?
    requires rest.LexedItems? && ItemsAre(r, smart, items[1..], EndsInBreak(items[0].inner), bq, rest)
    ensures ItemsAre(r, smart, items, next, bq,
      LexedItems([ListItem(Loose(r, items, 0) || next, body.blocks)] + rest.items, body.links + rest.links))
  {
    hide Lex, EndsInBreak, Loose;
    TailFails(r, smart, items, bq);
    var all := [ListItem(Loose(r, items, 0) || next, body.blocks)] + rest.items;
    forall k | 0 <= k < |items|
      ensures Lex(r, smart, items[k].inner, false, bq).Lexed?
      ensures all[k] == ListItem(Loose(r, items, k) || (k == 0 && next),
                                 Lex(r, smart, items[k].inner, false, bq).blocks)
    {
      if k > 0 {
        LooseTail(r, items, k - 1);
        assert all[k] == rest.items[k - 1] && items[k] == items[1..][k - 1];
      }
    }
  }

  lemma TailFails(r: Rules, smart: bool, items: seq<ItemMatch>, bq: bool)
    requires Fit(r) && items != []
    ensures (exists k :: 0 <= k < |items| && Lex(r, smart, items[k].inner, false, bq).Failed?) <==>
            Lex(r, smart, items[0].inner, false, bq).Failed? ||
            exists k :: 0 <= k < |items[1..]| && Lex(r, smart, items[1..][k].inner, false, bq).Failed?
  {
    hide Lex;
    if k :| 0 <= k < |items[1..]| && Lex(r, smart, items[1..][k].inner, false, bq).Failed? {
      assert items[k + 1] == items[1..][k];
    }
    if k :| 0 < k < |items| && Lex(r, smart, items[k].inner, false, bq).Failed? {
      assert items[1..][k - 1] == items[k];
    }
  }

  /** What loosens an item of the tail loosens it in the list, where the first item may loosen the second. */
  lemma LooseTail(r: Rules, items: seq<ItemMatch>, k: nat)
    requires k + 1 < |items|
    ensures Loose(r, items, k + 1) <==> Loose(r, items[1..], k) || (k == 0 && EndsInBreak(items[0].inner))
  {
    hide EndsInBreak;
    assert items[1..][k] == items[k + 1];
    assert k > 0 ==> items[1..][k - 1] == items[k];
  }

  lemma ListMade(r: Rules, smart: bool, src: string, bq: bool)
    requires Fit(r) && r.list(src).Some?
    ensures var m := r.list(src).value;
      && |m.items| > 0 && m.length <= |src|
      && var kept := Kept(m.items, 0, m.bullet, smart);
         && HasKept(m, smart, kept)
         && (forall i :: 0 <= i < kept ==> |m.items[..kept][i].inner| < m.length)
         && var items := LexItems(r, smart, m.items[..kept], m.length, false, bq);
            MakesList(r, smart, src, bq, kept,
                      if items.FailedItems? then Failed else Lexed([List(|m.bullet| > 1, items.items)], items.links),
                      RestAfter(src, m, kept))
  {
    hide Lex, LexItems;
    assert FitsAt(r, src);
    var m := r.list(src).value;
    var kept := Kept(m.items, 0, m.bullet, smart);
    KeptIs(m, 0, smart);
    RestShorter(m, kept, src);
    PutBackIsJoin(m.items[kept..]);
    ItemsLexed(r, smart, m.items[..kept], m.length, false, bq);
  }

  /** From the rest after its leading line breaks, a source is taken by the first rule that matches: the tree starts
      with that rule's block, and goes on with what the rule leaves. */
  lemma FirstRuleWins(r: Rules, smart: bool, source: string, top: bool, bq: bool, i: nat)
      returns (piece: Lexed, left: string)
    requires Fit(r) && r.blank(source) != "" && r.newline(r.blank(source)) <= |r.blank(source)|
    requires IsFirst(i, r, r.blank(source)[r.newline(r.blank(source))..], top, bq)
    ensures var n := r.newline(r.blank(source));
      && Makes(ORDER[i], r, smart, r.blank(source)[n..], top, bq, piece, left)
      && Lex(r, smart, source, top, bq) ==
         Then(Lexed(if n > 1 then [Leaf(Space)] else [], []), Then(piece, LexLoop(r, smart, left, top, bq)))
  {
    hide Lex, LexLoop, LexBlock, Then, Makes, IsFirst;
    LexIsLoop(r, smart, source, top, bq);
    var src := r.blank(source)[r.newline(r.blank(source))..];
    LoopStep(r, smart, r.blank(source), top, bq);
    piece, left := BlockOfFirst(r, smart, src, top, bq, i);
  }

  /** The place of a rule in the order. */
  function Rank(rule: Rule): (i: nat)
    ensures i < |ORDER| && ORDER[i] == rule && forall j :: 0 <= j < |ORDER| && ORDER[j] == rule ==> j == i
  {
    match rule
    case CodeRule => 0
    case FencesRule => 1
    case HeadingRule => 2
    case NpTableRule => 3
    case LHeadingRule => 4
    case HrRule => 5
    case BlockquoteRule => 6
    case ListRule => 7
    case HtmlRule => 8
    case DefRule => 9
    case TableRule => 10
    case ParagraphRule => 11
    case TextRule => 12
  }

  lemma EarlierFail(i: nat, r: Rules, src: string, top: bool, bq: bool)
    requires IsFirst(i, r, src, top, bq)
    ensures Applies(ORDER[i], r, src, top, bq) && Rank(ORDER[i]) == i
    ensures forall rule: Rule :: Rank(rule) < i ==> !Applies(rule, r, src, top, bq)
  {
    hide Applies;
    forall rule: Rule | Rank(rule) < i
      ensures !Applies(rule, r, src, top, bq)
    {
      assert ORDER[Rank(rule)] == rule;
    }
  }

  /** The leaf rules in front of blockquotes, in order. */
  lemma EarlyFirst(rule: Rule, r: Rules, src: string, top: bool, bq: bool)
    requires Applies(rule, r, src, top, bq)
    requires forall other: Rule :: Rank(other) < Rank(rule) ==> !Applies(other, r, src, top, bq)
    ensures EarlyLeaf(r, src, top) == if Rank(rule) < 6 then LeafOf(rule, r, src) else None
  {
    assert Rank(rule) <= 0 || !Applies(CodeRule, r, src, top, bq);
    assert Rank(rule) <= 1 || !Applies(FencesRule, r, src, top, bq);
    assert Rank(rule) <= 2 || !Applies(HeadingRule, r, src, top, bq);
    assert Rank(rule) <= 3 || !Applies(NpTableRule, r, src, top, bq);
    assert Rank(rule) <= 4 || !Applies(LHeadingRule, r, src, top, bq);
    assert Rank(rule) <= 5 || !Applies(HrRule, r, src, top, bq);
  }

  /** The rules in between, and the leaf rules behind definitions. */
  lemma LateFirst(rule: Rule, r: Rules, src: string, top: bool, bq: bool)
    requires Applies(rule, r, src, top, bq)
    requires forall other: Rule :: Rank(other) < Rank(rule) ==> !Applies(other, r, src, top, bq)
    ensures Rank(rule) >= 7 ==> r.blockquote(src).None?
    ensures Rank(rule) >= 8 ==> r.list(src).None?
    ensures Rank(rule) >= 9 ==> r.html(src).None?
    ensures Rank(rule) >= 10 ==> !(!bq && top && r.def(src).Some?) && LateLeaf(r, src, top) == LeafOf(rule, r, src)
  {
    assert Rank(rule) <= 6 || !Applies(BlockquoteRule, r, src, top, bq);
    assert Rank(rule) <= 7 || !Applies(ListRule, r, src, top, bq);
    assert Rank(rule) <= 8 || !Applies(HtmlRule, r, src, top, bq);
    assert Rank(rule) <= 9 || !Applies(DefRule, r, src, top, bq);
    assert Rank(rule) <= 10 || !Applies(TableRule, r, src, top, bq);
    assert Rank(rule) <= 11 || !Applies(ParagraphRule, r, src, top, bq);
  }

  lemma BlockOfFirst(r: Rules, smart: bool, src: string, top: bool, bq: bool, i: nat)
      returns (piece: Lexed, left: string)
    requires Fit(r) && IsFirst(i, r, src, top, bq)
    ensures Makes(ORDER[i], r, smart, src, top, bq, piece, left)
    ensures LexBlock(r, smart, src, top, bq) == Then(piece, LexLoop(r, smart, left, top, bq))
  {
    var rule := ORDER[i];
    EarlierFail(i, r, src, top, bq);
    EarlyFirst(rule, r, src, top, bq);
    LateFirst(rule, r, src, top, bq);
    hide Lex, LexLoop, LexItems, Then, MakesList, HasKept, EarlyLeaf, LateLeaf, IsFirst;
    assert FitsAt(r, src);
    match rule {
      case BlockquoteRule =>
        var m := r.blockquote(src).value;
        var body := Lex(r, smart, m.inner, top, true);
        piece, left := if body.Failed? then Failed else Lexed([Quote(body.blocks)], body.links), src[m.length..];
      case ListRule =>
        var m := r.list(src).value;
        var kept := Kept(m.items, 0, m.bullet, smart);
        ListMade(r, smart, src, bq);
        var items := LexItems(r, smart, m.items[..kept], m.length, false, bq);
        piece := if items.FailedItems? then Failed else Lexed([List(|m.bullet| > 1, items.items)], items.links);
        left := RestAfter(src, m, kept);
      case DefRule =>
        piece, left := Lexed([], [r.def(src).value.link]), src[r.def(src).value.length..];
      case _ =>
        var m := LeafOf(rule, r, src).value;
        piece, left := Lexed([Leaf(m.token)], []), src[m.length..];
    }
  }

  /** When no rule matches, nothing is left, or the "Infinite loop" error is thrown. */
  lemma NoRuleMatches(r: Rules, smart: bool, source: string, top: bool, bq: bool)
    requires Fit(r) && r.blank(source) != "" && r.newline(r.blank(source)) <= |r.blank(source)|
    requires forall i :: 0 <= i < |ORDER| ==>
               !Applies(ORDER[i], r, r.blank(source)[r.newline(r.blank(source))..], top, bq)
    ensures var n := r.newline(r.blank(source));
      var blank := Lexed(if n > 1 then [Leaf(Space)] else [], []);
      Lex(r, smart, source, top, bq) == if n == |r.blank(source)| then blank else Failed
  {
    var src := r.blank(source)[r.newline(r.blank(source))..];
    NoneApplies(r, src, top, bq);
    NoEarly(r, src, top, bq);
    NoLate(r, src, top, bq);
    hide Lex, LexLoop, EarlyLeaf, LateLeaf, Applies;
    LexIsLoop(r, smart, source, top, bq);
    LoopStep(r, smart, r.blank(source), top, bq);
    NothingTaken(r, smart, src, top, bq);
    ThenNothing(Lexed(if r.newline(r.blank(source)) > 1 then [Leaf(Space)] else [], []));
  }

  lemma NoneApplies(r: Rules, src: string, top: bool, bq: bool)
    requires forall i :: 0 <= i < |ORDER| ==> !Applies(ORDER[i], r, src, top, bq)
    ensures forall rule: Rule :: !Applies(rule, r, src, top, bq)
  {
    hide Applies;
    forall rule: Rule
      ensures !Applies(rule, r, src, top, bq)
    {
      assert ORDER[Rank(rule)] == rule;
    }
  }

  lemma NoEarly(r: Rules, src: string, top: bool, bq: bool)
    requires forall rule: Rule :: !Applies(rule, r, src, top, bq)
    ensures EarlyLeaf(r, src, top).None?
  {
    assert !Applies(CodeRule, r, src, top, bq) && !Applies(FencesRule, r, src, top, bq);
    assert !Applies(HeadingRule, r, src, top, bq) && !Applies(NpTableRule, r, src, top, bq);
    assert !Applies(LHeadingRule, r, src, top, bq) && !Applies(HrRule, r, src, top, bq);
  }

  lemma NoLate(r: Rules, src: string, top: bool, bq: bool)
    requires forall rule: Rule :: !Applies(rule, r, src, top, bq)
    ensures r.blockquote(src).None? && r.list(src).None? && r.html(src).None? && !(!bq && top && r.def(src).Some?)
    ensures LateLeaf(r, src, top).None?
  {
    assert !Applies(BlockquoteRule, r, src, top, bq) && !Applies(ListRule, r, src, top, bq);
    assert !Applies(HtmlRule, r, src, top, bq) && !Applies(DefRule, r, src, top, bq);
    assert !Applies(TableRule, r, src, top, bq) && !Applies(ParagraphRule, r, src, top, bq);
    assert !Applies(TextRule, r, src, top, bq);
  }

  lemma NothingTaken(r: Rules, smart: bool, src: string, top: bool, bq: bool)
    requires Fit(r) && EarlyLeaf(r, src, top).None? && LateLeaf(r, src, top).None?
    requires r.blockquote(src).None? && r.list(src).None? && r.html(src).None? && !(!bq && top && r.def(src).Some?)
    ensures LexBlock(r, smart, src, top, bq) == if src == "" then Lexed([], []) else Failed
  {
    hide EarlyLeaf, LateLeaf;
    assert FitsAt(r, src);
  }

  // ---------- Link definitions ----------

  /** Of several definitions of one key the last counts. */
  lemma {:induction false} LastLinkCounts(known: map<string, Link>, links: seq<Link>, key: string)
    ensures key in AddLinks(known, links) <==> key in known || exists i :: 0 <= i < |links| && links[i].key == key
    ensures forall i :: 0 <= i < |links| && links[i].key == key && (forall j :: i < j < |links| ==> links[j].key != key)
              ==> AddLinks(known, links)[key] == links[i]
    ensures key in known && (forall i :: 0 <= i < |links| ==> links[i].key != key) ==>
            AddLinks(known, links)[key] == known[key]
    decreases |links|
  {
    if links != [] {
      var more := known[links[0].key := links[0]];
      var tail := links[1..];
      LastLinkCounts(more, tail, key);
      assert forall i :: 0 < i < |links| ==> links[i] == tail[i - 1];
      assert (exists i :: 0 <= i < |links| && links[i].key == key) <==>
             links[0].key == key || exists i :: 0 <= i < |tail| && tail[i].key == key by {
        if i :| 0 <= i < |tail| && tail[i].key == key {
          assert links[i + 1].key == key;
        }
      }
    }
  }
}
